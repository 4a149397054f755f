/** The highlight controller: its rule vector, the rebuild helpers that append
    to it, the rebuild that clears and refills it, and the check that walks it
    for one message. */
module Controller {
  import opened HighlightTypes
  import opened HighlightRules
  import opened HighlightMerge
  import opened HighlightRebuild

  /** The controller's rule vector, updated in place by the rebuilders. */
  class CheckVector {
    var items: seq<HighlightCheck>

    constructor ()
      ensures items == []
    {
      items := [];
    }

    method Clear()
      modifies this
      ensures items == []
    {
      items := [];
    }

    method EmplaceBack(check: HighlightCheck)
      modifies this
      ensures items == old(items) + [check]
    {
      items := items + [check];
    }
  }

  /** Appends the subscription rule when subscription highlights are on; its
      custom sound comes from the whisper sound setting. */
  method RebuildSubscriptionHighlights(settings: Settings, checks: CheckVector)
    modifies checks
    ensures checks.items == old(checks.items) + SubscriptionChecks(settings)
  {
    if settings.enableSubHighlight {
      var highlightSound := settings.enableSubHighlightSound;
      var highlightAlert := settings.enableSubHighlightTaskbar;
      var highlightSoundUrlValue := settings.whisperHighlightSoundUrl;
      var highlightSoundUrl: Option<Url> := None;
      if highlightSoundUrlValue != "" {
        highlightSoundUrl := Some(highlightSoundUrlValue);
      }
      checks.EmplaceBack(SubscriptionCheck(highlightAlert, highlightSound, highlightSoundUrl));
    }
  }

  /** Appends the whisper rule when whisper highlights are on. */
  method RebuildWhisperHighlights(settings: Settings, checks: CheckVector)
    modifies checks
    ensures checks.items == old(checks.items) + WhisperChecks(settings)
  {
    if settings.enableWhisperHighlight {
      var highlightSound := settings.enableWhisperHighlightSound;
      var highlightAlert := settings.enableWhisperHighlightTaskbar;
      var highlightSoundUrlValue := settings.whisperHighlightSoundUrl;
      var highlightSoundUrl: Option<Url> := None;
      if highlightSoundUrlValue != "" {
        highlightSoundUrl := Some(highlightSoundUrlValue);
      }
      checks.EmplaceBack(WhisperCheck(highlightAlert, highlightSound, highlightSoundUrl));
    }
  }

  /** Appends the self-highlight rule when enabled and the current user name
      is not empty, then one phrase rule per highlighted phrase. */
  method RebuildMessageHighlights(settings: Settings, currentUsername: string,
                                  selfHighlightColor: Option<Color>, checks: CheckVector)
    modifies checks
    ensures checks.items == old(checks.items)
                            + SelfHighlightChecks(settings, currentUsername, selfHighlightColor)
                            + PhraseChecks(settings.highlightedMessages)
  {
    if settings.enableSelfHighlight && currentUsername != "" {
      var highlight := SelfHighlightPhrase(settings, currentUsername, selfHighlightColor);
      checks.EmplaceBack(PhraseCheck(highlight));
    }
    ghost var before := checks.items;
    var messageHighlights := settings.highlightedMessages;
    for i := 0 to |messageHighlights|
      invariant checks.items == before + PhraseChecks(messageHighlights[..i])
    {
      checks.EmplaceBack(PhraseCheck(messageHighlights[i]));
      assert PhraseChecks(messageHighlights[..i + 1])
             == PhraseChecks(messageHighlights[..i]) + [PhraseCheck(messageHighlights[i])];
    }
    assert messageHighlights[..|messageHighlights|] == messageHighlights;
  }

  /** Appends one user rule per highlighted user. */
  method RebuildUserHighlights(settings: Settings, checks: CheckVector)
    modifies checks
    ensures checks.items == old(checks.items) + UserChecks(settings.highlightedUsers)
  {
    var userHighlights := settings.highlightedUsers;
    for i := 0 to |userHighlights|
      invariant checks.items == old(checks.items) + UserChecks(userHighlights[..i])
    {
      checks.EmplaceBack(UserCheck(userHighlights[i]));
      assert UserChecks(userHighlights[..i + 1])
             == UserChecks(userHighlights[..i]) + [UserCheck(userHighlights[i])];
    }
    assert userHighlights[..|userHighlights|] == userHighlights;
  }

  /** Appends one badge rule per highlighted badge. */
  method RebuildBadgeHighlights(settings: Settings, checks: CheckVector)
    modifies checks
    ensures checks.items == old(checks.items) + BadgeChecks(settings.highlightedBadges)
  {
    var badgeHighlights := settings.highlightedBadges;
    for i := 0 to |badgeHighlights|
      invariant checks.items == old(checks.items) + BadgeChecks(badgeHighlights[..i])
    {
      checks.EmplaceBack(BadgeCheck(badgeHighlights[i]));
      assert BadgeChecks(badgeHighlights[..i + 1])
             == BadgeChecks(badgeHighlights[..i]) + [BadgeCheck(badgeHighlights[i])];
    }
    assert badgeHighlights[..|badgeHighlights|] == badgeHighlights;
  }

  class HighlightController {
    const checks: CheckVector

    constructor ()
      ensures fresh(checks) && checks.items == []
    {
      checks := new CheckVector();
    }

    /** Clears the rule vector and refills it in the fixed category order;
        the new list depends only on the settings, the user name and the
        self-highlight colour, not on the list it replaces. */
    method RebuildChecks(settings: Settings, currentUsername: string, selfHighlightColor: Option<Color>)
      modifies checks
      ensures checks.items == BuildChecks(settings, currentUsername, selfHighlightColor)
    {
      checks.Clear();
      RebuildSubscriptionHighlights(settings, checks);
      RebuildWhisperHighlights(settings, checks);
      RebuildUserHighlights(settings, checks);
      RebuildMessageHighlights(settings, currentUsername, selfHighlightColor, checks);
      RebuildBadgeHighlights(settings, checks);
      assert [] + SubscriptionChecks(settings) == SubscriptionChecks(settings);
    }

    /** Walks the rules in order for one message: any match sets the flag and
        merges its result in, and the walk stops once the result is full. The
        answer is that of looking at every rule; a message no rule matches
        gets the empty result. */
    method Check(args: MessageParseArgs, badges: seq<Badge>, senderName: string, originalMessage: string,
                 providers: Providers)
      returns (highlighted: bool, result: HighlightResult)
      ensures (highlighted, result)
              == Evaluate(Outcomes(checks.items, args, badges, senderName, originalMessage, providers),
                          false, EmptyResult)
      ensures (highlighted, result)
              == EvaluateAll(Outcomes(checks.items, args, badges, senderName, originalMessage, providers),
                             false, EmptyResult)
      ensures highlighted <==>
              exists i :: 0 <= i < |checks.items| &&
                          Apply(checks.items[i], args, badges, senderName, originalMessage, providers).Some?
      ensures !highlighted ==> result == EmptyResult
      ensures !result.showInMentions
    {
      highlighted := false;
      result := EmptyResult;
      var items := checks.items;
      ghost var os := Outcomes(items, args, badges, senderName, originalMessage, providers);

      var i := 0;
      while i < |items|
        invariant 0 <= i <= |items|
        invariant Evaluate(os, false, EmptyResult) == Evaluate(os[i..], highlighted, result)
      {
        assert os[i..][0] == os[i] && os[i..][1..] == os[i + 1..];
        var checkResult := RunCheck(items[i], args, badges, senderName, originalMessage, providers);
        if checkResult.Some? {
          var r := checkResult.value;
          highlighted := true;

          if r.alert {
            if !result.alert {
              result := result.(alert := r.alert);
            }
          }

          if r.playSound {
            if !result.playSound {
              result := result.(playSound := r.playSound);
            }
          }

          if r.customSoundUrl.Some? {
            if result.customSoundUrl.None? {
              result := result.(customSoundUrl := r.customSoundUrl);
            }
          }

          if r.color.Some? {
            if result.color.None? {
              result := result.(color := r.color);
            }
          }

          if result.Full() {
            assert (highlighted, result) == Evaluate(os, false, EmptyResult);
            break;
          }
        }
        i := i + 1;
      }
      assert (highlighted, result) == Evaluate(os, false, EmptyResult);
      EarlyExitIsHarmless(os, false, EmptyResult);
      MatchFlag(os, false, EmptyResult);
      MentionsUntouched(os, false, EmptyResult);
      if !highlighted {
        NoMatchChangesNothing(os, false, EmptyResult);
      }
    }
  }

  /** Rebuilding twice from the same inputs leaves the same list. */
  method RebuildTwice(controller: HighlightController, settings: Settings, currentUsername: string,
                      selfHighlightColor: Option<Color>)
    returns (first: seq<HighlightCheck>)
    modifies controller.checks
    ensures first == controller.checks.items
  {
    controller.RebuildChecks(settings, currentUsername, selfHighlightColor);
    first := controller.checks.items;
    controller.RebuildChecks(settings, currentUsername, selfHighlightColor);
  }
}
