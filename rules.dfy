/** The compiled highlight rules (HighlightCheck) and what each one does with
    a message: the lambdas built by the rebuilders, as a tagged variant with
    one dispatch function, and the method that runs one of them. */
module HighlightRules {
  import opened HighlightTypes

  /** One rule of the rule list. The subscription and whisper rules carry the
      template values captured from the settings at rebuild time; the other
      rules carry the configured highlight they were built from. A
      self-highlight is a PhraseCheck like any configured phrase. */
  datatype HighlightCheck =
    | SubscriptionCheck(alert: bool, playSound: bool, customSoundUrl: Option<Url>)
    | WhisperCheck(alert: bool, playSound: bool, customSoundUrl: Option<Url>)
    | UserCheck(user: HighlightPhrase)
    | PhraseCheck(phrase: HighlightPhrase)
    | BadgeCheck(badge: HighlightBadge)

  /** The result template of a phrase or user rule; user rules never show in
      mentions, phrase rules show in mentions when the phrase says so. */
  function PhraseResult(phrase: HighlightPhrase, p: Providers, showInMentions: bool): HighlightResult
  {
    HighlightResult(
      phrase.hasAlert,
      phrase.hasSound,
      if p.phraseHasCustomSound(phrase) then Some(phrase.soundUrl) else None,
      phrase.color,
      showInMentions)
  }

  /** The result template of a badge rule. */
  function BadgeResult(badge: HighlightBadge, p: Providers): HighlightResult
  {
    HighlightResult(
      badge.hasAlert,
      badge.hasSound,
      if p.badgeHasCustomSound(badge) then Some(badge.soundUrl) else None,
      badge.color,
      false)
  }

  /** Whether some badge of the message satisfies the configured badge. */
  predicate AnyBadgeMatches(highlight: HighlightBadge, badges: seq<Badge>, p: Providers)
    ensures AnyBadgeMatches(highlight, badges, p) <==>
            exists i :: 0 <= i < |badges| && p.badgeIsMatch(highlight, badges[i])
  {
    if badges == [] then false
    else p.badgeIsMatch(highlight, badges[0]) || AnyBadgeMatches(highlight, badges[1..], p)
  }

  /** What one rule returns for a message: None when it does not match,
      otherwise its result template. */
  function Apply(check: HighlightCheck, args: MessageParseArgs, badges: seq<Badge>,
                 senderName: string, originalMessage: string, p: Providers): (r: Option<HighlightResult>)
    ensures check.SubscriptionCheck? ==> (r.Some? <==> args.isSubscriptionMessage)
    ensures check.WhisperCheck? ==> (r.Some? <==> args.isReceivedWhisper)
    ensures check.UserCheck? ==> (r.Some? <==> p.phraseIsMatch(check.user, senderName))
    ensures check.PhraseCheck? ==> (r.Some? <==> p.phraseIsMatch(check.phrase, originalMessage))
    ensures check.BadgeCheck? ==>
              (r.Some? <==> exists i :: 0 <= i < |badges| && p.badgeIsMatch(check.badge, badges[i]))
  {
    match check
    case SubscriptionCheck(alert, playSound, url) =>
      if !args.isSubscriptionMessage then None
      else Some(HighlightResult(alert, playSound, url, p.subscriptionColor, false))
    case WhisperCheck(alert, playSound, url) =>
      if !args.isReceivedWhisper then None
      else Some(HighlightResult(alert, playSound, url, p.whisperColor, false))
    case UserCheck(user) =>
      if !p.phraseIsMatch(user, senderName) then None
      else Some(PhraseResult(user, p, false))
    case PhraseCheck(phrase) =>
      if !p.phraseIsMatch(phrase, originalMessage) then None
      else Some(PhraseResult(phrase, p, phrase.showInMentions))
    case BadgeCheck(badge) =>
      if !AnyBadgeMatches(badge, badges, p) then None
      else Some(BadgeResult(badge, p))
  }

  /** The outcome of every rule of a list for one message, in list order. */
  function Outcomes(checks: seq<HighlightCheck>, args: MessageParseArgs, badges: seq<Badge>,
                    senderName: string, originalMessage: string, p: Providers): (os: seq<Option<HighlightResult>>)
    ensures |os| == |checks|
    ensures forall i :: 0 <= i < |checks| ==> os[i] == Apply(checks[i], args, badges, senderName, originalMessage, p)
  {
    seq(|checks|, i requires 0 <= i < |checks| => Apply(checks[i], args, badges, senderName, originalMessage, p))
  }

  /** Each rule looks at one input only: two messages that agree on it get the
      same outcome from the rule, whatever else differs. */
  lemma InspectedInputs(check: HighlightCheck, p: Providers,
                        args1: MessageParseArgs, badges1: seq<Badge>, sender1: string, text1: string,
                        args2: MessageParseArgs, badges2: seq<Badge>, sender2: string, text2: string)
    requires check.SubscriptionCheck? ==> args1.isSubscriptionMessage == args2.isSubscriptionMessage
    requires check.WhisperCheck? ==> args1.isReceivedWhisper == args2.isReceivedWhisper
    requires check.UserCheck? ==> sender1 == sender2
    requires check.PhraseCheck? ==> text1 == text2
    requires check.BadgeCheck? ==> badges1 == badges2
    ensures Apply(check, args1, badges1, sender1, text1, p) == Apply(check, args2, badges2, sender2, text2, p)
  {
  }

  /** The templates: only phrase rules can show in mentions; a phrase, user or
      badge rule supplies a custom sound exactly when its highlight has one;
      subscription and whisper rules supply what was captured at rebuild and
      the colour the provider gives at check time. */
  lemma ResultTemplates(check: HighlightCheck, args: MessageParseArgs, badges: seq<Badge>,
                        senderName: string, originalMessage: string, p: Providers)
    ensures var r := Apply(check, args, badges, senderName, originalMessage, p);
      r.Some? ==>
        (r.value.showInMentions <==> check.PhraseCheck? && check.phrase.showInMentions) &&
        (check.SubscriptionCheck? ==>
           r.value == HighlightResult(check.alert, check.playSound, check.customSoundUrl, p.subscriptionColor, false)) &&
        (check.WhisperCheck? ==>
           r.value == HighlightResult(check.alert, check.playSound, check.customSoundUrl, p.whisperColor, false)) &&
        (check.UserCheck? ==>
           (r.value.customSoundUrl.Some? <==> p.phraseHasCustomSound(check.user)) &&
           (r.value.customSoundUrl.Some? ==> r.value.customSoundUrl.value == check.user.soundUrl) &&
           r.value.alert == check.user.hasAlert && r.value.playSound == check.user.hasSound &&
           r.value.color == check.user.color) &&
        (check.PhraseCheck? ==>
           (r.value.customSoundUrl.Some? <==> p.phraseHasCustomSound(check.phrase)) &&
           (r.value.customSoundUrl.Some? ==> r.value.customSoundUrl.value == check.phrase.soundUrl) &&
           r.value.alert == check.phrase.hasAlert && r.value.playSound == check.phrase.hasSound &&
           r.value.color == check.phrase.color) &&
        (check.BadgeCheck? ==>
           (r.value.customSoundUrl.Some? <==> p.badgeHasCustomSound(check.badge)) &&
           (r.value.customSoundUrl.Some? ==> r.value.customSoundUrl.value == check.badge.soundUrl) &&
           r.value.alert == check.badge.hasAlert && r.value.playSound == check.badge.hasSound &&
           r.value.color == check.badge.color)
  {
  }

  /** Runs one rule on a message, as its callback does; a badge rule searches
      the message's badges and stops at the first one that matches. */
  method RunCheck(check: HighlightCheck, args: MessageParseArgs, badges: seq<Badge>,
                  senderName: string, originalMessage: string, p: Providers)
    returns (r: Option<HighlightResult>)
    ensures r == Apply(check, args, badges, senderName, originalMessage, p)
  {
    match check
    case SubscriptionCheck(alert, playSound, url) =>
      if !args.isSubscriptionMessage {
        return None;
      }
      var highlightColor := p.subscriptionColor;
      r := Some(HighlightResult(alert, playSound, url, highlightColor, false));
    case WhisperCheck(alert, playSound, url) =>
      if !args.isReceivedWhisper {
        return None;
      }
      r := Some(HighlightResult(alert, playSound, url, p.whisperColor, false));
    case UserCheck(user) =>
      if !p.phraseIsMatch(user, senderName) {
        return None;
      }
      var highlightSoundUrl: Option<Url> := None;
      if p.phraseHasCustomSound(user) {
        highlightSoundUrl := Some(user.soundUrl);
      }
      r := Some(HighlightResult(user.hasAlert, user.hasSound, highlightSoundUrl, user.color, false));
    case PhraseCheck(phrase) =>
      if !p.phraseIsMatch(phrase, originalMessage) {
        return None;
      }
      var highlightSoundUrl: Option<Url> := None;
      if p.phraseHasCustomSound(phrase) {
        highlightSoundUrl := Some(phrase.soundUrl);
      }
      r := Some(HighlightResult(phrase.hasAlert, phrase.hasSound, highlightSoundUrl, phrase.color,
                                phrase.showInMentions));
    case BadgeCheck(highlight) =>
      for i := 0 to |badges|
        invariant forall k :: 0 <= k < i ==> !p.badgeIsMatch(highlight, badges[k])
      {
        if p.badgeIsMatch(highlight, badges[i]) {
          var highlightSoundUrl: Option<Url> := None;
          if p.badgeHasCustomSound(highlight) {
            highlightSoundUrl := Some(highlight.soundUrl);
          }
          return Some(HighlightResult(highlight.hasAlert, highlight.hasSound, highlightSoundUrl,
                                      highlight.color, false));
        }
      }
      r := None;
  }
}
