/** Values the highlight engine works on: the message being checked, the
    configured highlights, the settings snapshot, the external providers the
    rules consult, and the highlight result the evaluator merges. */
module HighlightTypes {

  datatype Option<+T> = None | Some(value: T)

  /** A sound reference (a QUrl in the program); the engine only stores it. */
  type Url = string

  /** A resolved display colour; the engine only stores references to it. */
  datatype Color = Color(argb: nat)

  /** The message-level flags the subscription and whisper rules look at. */
  datatype MessageParseArgs = MessageParseArgs(isSubscriptionMessage: bool, isReceivedWhisper: bool)

  /** A chat badge carried by the sender of a message. */
  datatype Badge = Badge(key: string, value: string)

  /** A configured highlighted phrase, also used for highlighted users and for
      the self-highlight. Whether it matches a text and whether it has a custom
      sound are decided by code this model does not see; see Providers. The
      colour is a shared reference that may be null (None). */
  datatype HighlightPhrase = HighlightPhrase(
    pattern: string,
    showInMentions: bool,
    hasAlert: bool,
    hasSound: bool,
    isRegex: bool,
    isCaseSensitive: bool,
    soundUrl: Url,
    color: Option<Color>)

  /** A configured highlighted badge. */
  datatype HighlightBadge = HighlightBadge(
    badgeName: string,
    displayName: string,
    hasAlert: bool,
    hasSound: bool,
    soundUrl: Url,
    color: Option<Color>)

  /** What one rule produces, and what the evaluator accumulates. */
  datatype HighlightResult = HighlightResult(
    alert: bool,
    playSound: bool,
    customSoundUrl: Option<Url>,
    color: Option<Color>,
    showInMentions: bool)
  {
    /** No further rule can change a merged result in this state: every
        field the merge touches is decided. */
    predicate Full() {
      alert && playSound && customSoundUrl.Some? && color.Some?
    }
  }

  /** The result the evaluator starts from: nothing decided. */
  const EmptyResult := HighlightResult(false, false, None, None, false)

  /** The settings the rebuilder reads, including the three configured lists. */
  datatype Settings = Settings(
    enableSubHighlight: bool,
    enableSubHighlightSound: bool,
    enableSubHighlightTaskbar: bool,
    enableWhisperHighlight: bool,
    enableWhisperHighlightSound: bool,
    enableWhisperHighlightTaskbar: bool,
    whisperHighlightSoundUrl: string,
    enableSelfHighlight: bool,
    showSelfHighlightInMentions: bool,
    enableSelfHighlightTaskbar: bool,
    enableSelfHighlightSound: bool,
    selfHighlightSoundUrl: string,
    highlightedMessages: seq<HighlightPhrase>,
    highlightedUsers: seq<HighlightPhrase>,
    highlightedBadges: seq<HighlightBadge>)

  /** Everything a rule consults while a message is checked that lies outside
      the engine: the colour provider's subscription and whisper colours, and
      the matching and custom-sound tests of phrases and badges. */
  datatype Providers = Providers(
    subscriptionColor: Option<Color>,
    whisperColor: Option<Color>,
    phraseIsMatch: (HighlightPhrase, string) -> bool,
    phraseHasCustomSound: HighlightPhrase -> bool,
    badgeIsMatch: (HighlightBadge, Badge) -> bool,
    badgeHasCustomSound: HighlightBadge -> bool)
}
