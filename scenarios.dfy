/** End-to-end consequences of rebuilding a rule list and checking one message
    against it, for small configurations. */
module HighlightScenarios {
  import opened HighlightTypes
  import opened HighlightRules
  import opened HighlightMerge
  import opened HighlightRebuild

  /** The answer the controller gives for a message after a rebuild. */
  function CheckAfterRebuild(settings: Settings, currentUsername: string, selfHighlightColor: Option<Color>,
                             args: MessageParseArgs, badges: seq<Badge>, senderName: string,
                             originalMessage: string, p: Providers): (bool, HighlightResult)
  {
    Evaluate(Outcomes(BuildChecks(settings, currentUsername, selfHighlightColor),
                      args, badges, senderName, originalMessage, p), false, EmptyResult)
  }

  /** Settings under which every highlight category is off or empty. */
  predicate NothingConfigured(settings: Settings, currentUsername: string)
  {
    !settings.enableSubHighlight && !settings.enableWhisperHighlight
    && !(settings.enableSelfHighlight && currentUsername != "")
    && settings.highlightedUsers == [] && settings.highlightedMessages == []
    && settings.highlightedBadges == []
  }

  /** With nothing configured the rebuilt list is empty, and so is the list
      only when nothing is configured; every message gets no highlight. */
  lemma EmptyConfiguration(settings: Settings, currentUsername: string, selfHighlightColor: Option<Color>,
                           args: MessageParseArgs, badges: seq<Badge>, senderName: string,
                           originalMessage: string, p: Providers)
    ensures BuildChecks(settings, currentUsername, selfHighlightColor) == [] <==>
            NothingConfigured(settings, currentUsername)
    ensures NothingConfigured(settings, currentUsername) ==>
            CheckAfterRebuild(settings, currentUsername, selfHighlightColor,
                              args, badges, senderName, originalMessage, p) == (false, EmptyResult)
  {
    BuildChecksLength(settings, currentUsername, selfHighlightColor);
  }

  /** Only whisper highlights are on, with alert, without sound or custom
      sound: a received whisper is highlighted with an alert and the whisper
      colour, and a message that is not a whisper is not highlighted. */
  lemma WhisperOnly(settings: Settings, currentUsername: string, selfHighlightColor: Option<Color>,
                    args: MessageParseArgs, badges: seq<Badge>, senderName: string,
                    originalMessage: string, p: Providers)
    requires settings.enableWhisperHighlight && settings.enableWhisperHighlightTaskbar
    requires !settings.enableWhisperHighlightSound && settings.whisperHighlightSoundUrl == ""
    requires !settings.enableSubHighlight && !settings.enableSelfHighlight
    requires settings.highlightedUsers == [] && settings.highlightedMessages == []
    requires settings.highlightedBadges == []
    ensures args.isReceivedWhisper ==>
            CheckAfterRebuild(settings, currentUsername, selfHighlightColor,
                              args, badges, senderName, originalMessage, p)
            == (true, HighlightResult(true, false, None, p.whisperColor, false))
    ensures !args.isReceivedWhisper ==>
            CheckAfterRebuild(settings, currentUsername, selfHighlightColor,
                              args, badges, senderName, originalMessage, p)
            == (false, EmptyResult)
  {
    var r := BuildChecks(settings, currentUsername, selfHighlightColor);
    assert r == [WhisperCheck(true, false, None)];
    var os := Outcomes(r, args, badges, senderName, originalMessage, p);
    assert os == [Apply(WhisperCheck(true, false, None), args, badges, senderName, originalMessage, p)];
    assert os[1..] == [];
    assert CheckAfterRebuild(settings, currentUsername, selfHighlightColor,
                             args, badges, senderName, originalMessage, p)
           == Evaluate(os, false, EmptyResult);
    if args.isReceivedWhisper {
      var hit := HighlightResult(true, false, None, p.whisperColor, false);
      assert os[0] == Some(hit);
      assert Merge(EmptyResult, hit) == hit && !hit.Full();
      assert Evaluate(os, false, EmptyResult) == Evaluate(os[1..], true, hit);
    } else {
      assert os[0] == None;
      assert Evaluate(os, false, EmptyResult) == Evaluate(os[1..], false, EmptyResult);
    }
  }

  /** A single configured phrase: a text it matches is highlighted with the
      phrase's result, except that showInMentions stays false because the
      merge never copies it; a text it does not match is not highlighted. */
  lemma SinglePhrase(settings: Settings, currentUsername: string, selfHighlightColor: Option<Color>,
                     args: MessageParseArgs, badges: seq<Badge>, senderName: string,
                     originalMessage: string, p: Providers, phrase: HighlightPhrase)
    requires !settings.enableSubHighlight && !settings.enableWhisperHighlight && !settings.enableSelfHighlight
    requires settings.highlightedUsers == [] && settings.highlightedMessages == [phrase]
    requires settings.highlightedBadges == []
    ensures p.phraseIsMatch(phrase, originalMessage) ==>
            CheckAfterRebuild(settings, currentUsername, selfHighlightColor,
                              args, badges, senderName, originalMessage, p)
            == (true, PhraseResult(phrase, p, false))
    ensures !p.phraseIsMatch(phrase, originalMessage) ==>
            CheckAfterRebuild(settings, currentUsername, selfHighlightColor,
                              args, badges, senderName, originalMessage, p)
            == (false, EmptyResult)
  {
    var r := BuildChecks(settings, currentUsername, selfHighlightColor);
    assert r == [PhraseCheck(phrase)];
    var os := Outcomes(r, args, badges, senderName, originalMessage, p);
    assert os == [Apply(PhraseCheck(phrase), args, badges, senderName, originalMessage, p)];
    assert os[1..] == [];
    assert CheckAfterRebuild(settings, currentUsername, selfHighlightColor,
                             args, badges, senderName, originalMessage, p)
           == Evaluate(os, false, EmptyResult);
    if p.phraseIsMatch(phrase, originalMessage) {
      var hit := PhraseResult(phrase, p, phrase.showInMentions);
      assert os[0] == Some(hit);
      var merged := Merge(EmptyResult, hit);
      assert merged == PhraseResult(phrase, p, false);
      assert Evaluate(os, false, EmptyResult)
             == if merged.Full() then (true, merged) else Evaluate(os[1..], true, merged);
    } else {
      assert os[0] == None;
      assert Evaluate(os, false, EmptyResult) == Evaluate(os[1..], false, EmptyResult);
    }
  }

  /** A single configured badge: a message is highlighted exactly when one of
      its badges matches it. */
  lemma SingleBadge(settings: Settings, currentUsername: string, selfHighlightColor: Option<Color>,
                    args: MessageParseArgs, badges: seq<Badge>, senderName: string,
                    originalMessage: string, p: Providers, highlight: HighlightBadge)
    requires !settings.enableSubHighlight && !settings.enableWhisperHighlight && !settings.enableSelfHighlight
    requires settings.highlightedUsers == [] && settings.highlightedMessages == []
    requires settings.highlightedBadges == [highlight]
    ensures CheckAfterRebuild(settings, currentUsername, selfHighlightColor,
                              args, badges, senderName, originalMessage, p).0
            <==> exists i :: 0 <= i < |badges| && p.badgeIsMatch(highlight, badges[i])
  {
    var r := BuildChecks(settings, currentUsername, selfHighlightColor);
    assert r == [BadgeCheck(highlight)];
    var os := Outcomes(r, args, badges, senderName, originalMessage, p);
    assert os == [Apply(BadgeCheck(highlight), args, badges, senderName, originalMessage, p)];
    assert os[1..] == [];
    assert CheckAfterRebuild(settings, currentUsername, selfHighlightColor,
                             args, badges, senderName, originalMessage, p)
           == Evaluate(os, false, EmptyResult);
    if os[0].Some? {
      var merged := Merge(EmptyResult, os[0].value);
      assert Evaluate(os, false, EmptyResult)
             == if merged.Full() then (true, merged) else Evaluate(os[1..], true, merged);
    } else {
      assert Evaluate(os, false, EmptyResult) == Evaluate(os[1..], false, EmptyResult);
    }
  }

  /** The colour of the earliest rule that supplies one is reported, whatever
      later rules supply: a later rule j that also matches with a colour of
      its own, different or not, never replaces it. */
  lemma EarlierColorWins(checks: seq<HighlightCheck>, i: nat, j: nat, args: MessageParseArgs,
                         badges: seq<Badge>, senderName: string, originalMessage: string, p: Providers)
    requires i < j < |checks|
    requires var os := Outcomes(checks, args, badges, senderName, originalMessage, p);
      SuppliesColor(os[i]) && SuppliesColor(os[j]) && forall k :: 0 <= k < i ==> !SuppliesColor(os[k])
    ensures var os := Outcomes(checks, args, badges, senderName, originalMessage, p);
      Evaluate(os, false, EmptyResult).1.color == os[i].value.color &&
      (os[j].value.color != os[i].value.color ==> Evaluate(os, false, EmptyResult).1.color != os[j].value.color)
  {
    var os := Outcomes(checks, args, badges, senderName, originalMessage, p);
    EarlyExitIsHarmless(os, false, EmptyResult);
    ColorFirstWins(os, false, EmptyResult);
  }
}
