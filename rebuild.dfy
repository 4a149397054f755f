/** The rule list the rebuilder produces from the settings, and what can be
    said about it: its categories come in a fixed order, each category holds
    exactly the configured highlights in their configured order, and the
    optional rules appear exactly when their settings ask for them. */
module HighlightRebuild {
  import opened HighlightTypes
  import opened HighlightRules

  /** A sound-URL setting: an empty value means no custom sound. */
  function SoundUrlSetting(value: string): Option<Url>
  {
    if value == "" then None else Some(value)
  }

  /** The subscription rule, if enabled. It takes the whisper sound URL, as
      the rebuilder does. */
  function SubscriptionChecks(settings: Settings): seq<HighlightCheck>
  {
    if settings.enableSubHighlight then
      [SubscriptionCheck(settings.enableSubHighlightTaskbar, settings.enableSubHighlightSound,
                         SoundUrlSetting(settings.whisperHighlightSoundUrl))]
    else []
  }

  /** The whisper rule, if enabled. */
  function WhisperChecks(settings: Settings): seq<HighlightCheck>
  {
    if settings.enableWhisperHighlight then
      [WhisperCheck(settings.enableWhisperHighlightTaskbar, settings.enableWhisperHighlightSound,
                    SoundUrlSetting(settings.whisperHighlightSoundUrl))]
    else []
  }

  /** One user rule per highlighted user, in order. */
  function UserChecks(users: seq<HighlightPhrase>): seq<HighlightCheck>
  {
    seq(|users|, i requires 0 <= i < |users| => UserCheck(users[i]))
  }

  /** The phrase built for the self-highlight: the current user name, neither
      a regular expression nor case sensitive, with the self-highlight
      settings and the self-highlight colour. */
  function SelfHighlightPhrase(settings: Settings, currentUsername: string, selfHighlightColor: Option<Color>)
    : HighlightPhrase
  {
    HighlightPhrase(currentUsername, settings.showSelfHighlightInMentions,
                    settings.enableSelfHighlightTaskbar, settings.enableSelfHighlightSound,
                    false, false, settings.selfHighlightSoundUrl, selfHighlightColor)
  }

  /** The self-highlight rule, if enabled and the user name is not empty. */
  function SelfHighlightChecks(settings: Settings, currentUsername: string, selfHighlightColor: Option<Color>)
    : seq<HighlightCheck>
  {
    if settings.enableSelfHighlight && currentUsername != "" then
      [PhraseCheck(SelfHighlightPhrase(settings, currentUsername, selfHighlightColor))]
    else []
  }

  /** One phrase rule per highlighted phrase, in order. */
  function PhraseChecks(phrases: seq<HighlightPhrase>): seq<HighlightCheck>
  {
    seq(|phrases|, i requires 0 <= i < |phrases| => PhraseCheck(phrases[i]))
  }

  /** One badge rule per highlighted badge, in order. */
  function BadgeChecks(badges: seq<HighlightBadge>): seq<HighlightCheck>
  {
    seq(|badges|, i requires 0 <= i < |badges| => BadgeCheck(badges[i]))
  }

  /** The whole rebuilt list: subscription, whisper, users, then the message
      category (self-highlight first, then the configured phrases), then
      badges. */
  function BuildChecks(settings: Settings, currentUsername: string, selfHighlightColor: Option<Color>)
    : seq<HighlightCheck>
  {
    SubscriptionChecks(settings) + WhisperChecks(settings) + UserChecks(settings.highlightedUsers)
    + SelfHighlightChecks(settings, currentUsername, selfHighlightColor)
    + PhraseChecks(settings.highlightedMessages) + BadgeChecks(settings.highlightedBadges)
  }

  /** The priority category of a rule. */
  function Category(check: HighlightCheck): nat
  {
    match check
    case SubscriptionCheck(_, _, _) => 0
    case WhisperCheck(_, _, _) => 1
    case UserCheck(_) => 2
    case PhraseCheck(_) => 3
    case BadgeCheck(_) => 4
  }

  /** No rule comes after a rule of a later category. */
  ghost predicate CategoryOrdered(s: seq<HighlightCheck>)
  {
    forall i, j :: 0 <= i < j < |s| ==> Category(s[i]) <= Category(s[j])
  }

  /** Every rule of s is of category c. */
  ghost predicate AllOfCategory(s: seq<HighlightCheck>, c: nat)
  {
    forall i :: 0 <= i < |s| ==> Category(s[i]) == c
  }

  /** The rules of category c, in list order. */
  function OfCategory(s: seq<HighlightCheck>, c: nat): seq<HighlightCheck>
  {
    if s == [] then []
    else (if Category(s[0]) == c then [s[0]] else []) + OfCategory(s[1..], c)
  }

  /** Selecting a category distributes over concatenation. */
  lemma {:induction false} OfCategoryAppend(a: seq<HighlightCheck>, b: seq<HighlightCheck>, c: nat)
    ensures OfCategory(a + b, c) == OfCategory(a, c) + OfCategory(b, c)
  {
    if a == [] {
      assert a + b == b;
    } else {
      assert (a + b)[0] == a[0];
      assert (a + b)[1..] == a[1..] + b;
      OfCategoryAppend(a[1..], b, c);
    }
  }

  /** Selecting from a list of one category keeps all or nothing. */
  lemma {:induction false} OfCategoryUniform(s: seq<HighlightCheck>, c: nat, d: nat)
    requires AllOfCategory(s, d)
    ensures OfCategory(s, c) == if c == d then s else []
  {
    if s != [] {
      OfCategoryUniform(s[1..], c, d);
      if c == d {
        assert s == [s[0]] + s[1..];
      }
    }
  }

  /** A category selects nothing exactly when no rule has it. */
  lemma {:induction false} OfCategoryEmpty(s: seq<HighlightCheck>, c: nat)
    ensures OfCategory(s, c) == [] <==> forall i :: 0 <= i < |s| ==> Category(s[i]) != c
  {
    if s != [] {
      OfCategoryEmpty(s[1..], c);
      assert forall i :: 1 <= i < |s| ==> s[i] == s[1..][i - 1];
    }
  }

  /** Every helper's contribution holds rules of one category only. */
  lemma PiecesAreUniform(settings: Settings, currentUsername: string, selfHighlightColor: Option<Color>)
    ensures AllOfCategory(SubscriptionChecks(settings), 0)
    ensures AllOfCategory(WhisperChecks(settings), 1)
    ensures AllOfCategory(UserChecks(settings.highlightedUsers), 2)
    ensures AllOfCategory(SelfHighlightChecks(settings, currentUsername, selfHighlightColor), 3)
    ensures AllOfCategory(PhraseChecks(settings.highlightedMessages), 3)
    ensures AllOfCategory(BadgeChecks(settings.highlightedBadges), 4)
  {
  }

  /** The rebuilt list holds one rule per enabled optional rule and per
      configured highlight. */
  lemma BuildChecksLength(settings: Settings, currentUsername: string, selfHighlightColor: Option<Color>)
    ensures |BuildChecks(settings, currentUsername, selfHighlightColor)| ==
            (if settings.enableSubHighlight then 1 else 0)
            + (if settings.enableWhisperHighlight then 1 else 0)
            + |settings.highlightedUsers|
            + (if settings.enableSelfHighlight && currentUsername != "" then 1 else 0)
            + |settings.highlightedMessages|
            + |settings.highlightedBadges|
  {
  }

  /** Categories come in the fixed order subscription, whisper, user,
      message, badge. */
  lemma BuildChecksOrdered(settings: Settings, currentUsername: string, selfHighlightColor: Option<Color>)
    ensures CategoryOrdered(BuildChecks(settings, currentUsername, selfHighlightColor))
  {
  }

  /** Selecting a category from the six contributions, one at a time. */
  lemma OfCategoryOfSix(s0: seq<HighlightCheck>, s1: seq<HighlightCheck>, s2: seq<HighlightCheck>,
                        s3: seq<HighlightCheck>, s4: seq<HighlightCheck>, s5: seq<HighlightCheck>, c: nat)
    ensures OfCategory(s0 + s1 + s2 + s3 + s4 + s5, c) ==
            OfCategory(s0, c) + OfCategory(s1, c) + OfCategory(s2, c)
            + OfCategory(s3, c) + OfCategory(s4, c) + OfCategory(s5, c)
  {
    OfCategoryAppend(s0 + s1 + s2 + s3 + s4, s5, c);
    OfCategoryAppend(s0 + s1 + s2 + s3, s4, c);
    OfCategoryAppend(s0 + s1 + s2, s3, c);
    OfCategoryAppend(s0 + s1, s2, c);
    OfCategoryAppend(s0, s1, c);
  }

  /** A category of the rebuilt list, contribution by contribution. */
  lemma CategoryOfBuild(settings: Settings, currentUsername: string, selfHighlightColor: Option<Color>, c: nat)
    ensures OfCategory(BuildChecks(settings, currentUsername, selfHighlightColor), c) ==
            (if c == 0 then SubscriptionChecks(settings) else [])
            + (if c == 1 then WhisperChecks(settings) else [])
            + (if c == 2 then UserChecks(settings.highlightedUsers) else [])
            + (if c == 3 then SelfHighlightChecks(settings, currentUsername, selfHighlightColor) else [])
            + (if c == 3 then PhraseChecks(settings.highlightedMessages) else [])
            + (if c == 4 then BadgeChecks(settings.highlightedBadges) else [])
  {
    var s0 := SubscriptionChecks(settings);
    var s1 := WhisperChecks(settings);
    var s2 := UserChecks(settings.highlightedUsers);
    var s3 := SelfHighlightChecks(settings, currentUsername, selfHighlightColor);
    var s4 := PhraseChecks(settings.highlightedMessages);
    var s5 := BadgeChecks(settings.highlightedBadges);
    PiecesAreUniform(settings, currentUsername, selfHighlightColor);
    OfCategoryOfSix(s0, s1, s2, s3, s4, s5, c);
    OfCategoryUniform(s0, c, 0);
    OfCategoryUniform(s1, c, 1);
    OfCategoryUniform(s2, c, 2);
    OfCategoryUniform(s3, c, 3);
    OfCategoryUniform(s4, c, 3);
    OfCategoryUniform(s5, c, 4);
  }

  /** A category of the rebuilt list, with the empty contributions dropped. */
  lemma CategoryOfBuildSimplified(settings: Settings, currentUsername: string, selfHighlightColor: Option<Color>,
                                  c: nat)
    ensures OfCategory(BuildChecks(settings, currentUsername, selfHighlightColor), c) ==
            if c == 0 then SubscriptionChecks(settings)
            else if c == 1 then WhisperChecks(settings)
            else if c == 2 then UserChecks(settings.highlightedUsers)
            else if c == 3 then SelfHighlightChecks(settings, currentUsername, selfHighlightColor)
                                + PhraseChecks(settings.highlightedMessages)
            else if c == 4 then BadgeChecks(settings.highlightedBadges)
            else []
  {
    CategoryOfBuild(settings, currentUsername, selfHighlightColor, c);
    var e: seq<HighlightCheck> := [];
    if c == 0 {
      assert SubscriptionChecks(settings) + e + e + e + e + e == SubscriptionChecks(settings);
    } else if c == 1 {
      assert e + WhisperChecks(settings) + e + e + e + e == WhisperChecks(settings);
    } else if c == 2 {
      assert e + e + UserChecks(settings.highlightedUsers) + e + e + e == UserChecks(settings.highlightedUsers);
    } else if c == 3 {
      var s3 := SelfHighlightChecks(settings, currentUsername, selfHighlightColor);
      var s4 := PhraseChecks(settings.highlightedMessages);
      assert e + e + e + s3 + s4 + e == s3 + s4;
    } else if c == 4 {
      assert e + e + e + e + e + BadgeChecks(settings.highlightedBadges) == BadgeChecks(settings.highlightedBadges);
    } else {
      assert e + e + e + e + e + e == e;
    }
  }

  /** Each category of the rebuilt list holds exactly the rules built for it,
      in configured order; the message category starts with the
      self-highlight rule. */
  lemma BuildChecksByCategory(settings: Settings, currentUsername: string, selfHighlightColor: Option<Color>)
    ensures var r := BuildChecks(settings, currentUsername, selfHighlightColor);
      OfCategory(r, 0) == SubscriptionChecks(settings) &&
      OfCategory(r, 1) == WhisperChecks(settings) &&
      OfCategory(r, 2) == UserChecks(settings.highlightedUsers) &&
      OfCategory(r, 3) == SelfHighlightChecks(settings, currentUsername, selfHighlightColor)
                          + PhraseChecks(settings.highlightedMessages) &&
      OfCategory(r, 4) == BadgeChecks(settings.highlightedBadges) &&
      (forall c: nat :: c > 4 ==> OfCategory(r, c) == [])
  {
    CategoryOfBuildSimplified(settings, currentUsername, selfHighlightColor, 0);
    CategoryOfBuildSimplified(settings, currentUsername, selfHighlightColor, 1);
    CategoryOfBuildSimplified(settings, currentUsername, selfHighlightColor, 2);
    CategoryOfBuildSimplified(settings, currentUsername, selfHighlightColor, 3);
    CategoryOfBuildSimplified(settings, currentUsername, selfHighlightColor, 4);
    forall c: nat | c > 4
      ensures OfCategory(BuildChecks(settings, currentUsername, selfHighlightColor), c) == []
    {
      CategoryOfBuildSimplified(settings, currentUsername, selfHighlightColor, c);
    }
  }

  /** The subscription and whisper rules are present exactly when enabled,
      and the self-highlight rule exactly when enabled with a non-empty user
      name, where it heads the message category. */
  lemma OptionalRulesPresence(settings: Settings, currentUsername: string, selfHighlightColor: Option<Color>)
    ensures var r := BuildChecks(settings, currentUsername, selfHighlightColor);
      ((exists i :: 0 <= i < |r| && r[i].SubscriptionCheck?) <==> settings.enableSubHighlight) &&
      ((exists i :: 0 <= i < |r| && r[i].WhisperCheck?) <==> settings.enableWhisperHighlight) &&
      |OfCategory(r, 3)| == |settings.highlightedMessages|
                            + (if settings.enableSelfHighlight && currentUsername != "" then 1 else 0) &&
      (settings.enableSelfHighlight && currentUsername != "" ==>
         OfCategory(r, 3)[0] == PhraseCheck(SelfHighlightPhrase(settings, currentUsername, selfHighlightColor)))
  {
    var r := BuildChecks(settings, currentUsername, selfHighlightColor);
    BuildChecksByCategory(settings, currentUsername, selfHighlightColor);
    OfCategoryEmpty(r, 0);
    OfCategoryEmpty(r, 1);
  }

  /** The subscription rule takes its custom sound from the whisper sound
      setting, so with both enabled the two rules carry the same one. */
  lemma SubscriptionUsesWhisperSoundUrl(settings: Settings, currentUsername: string,
                                        selfHighlightColor: Option<Color>)
    requires settings.enableSubHighlight
    ensures var r := BuildChecks(settings, currentUsername, selfHighlightColor);
      r[0].SubscriptionCheck? &&
      r[0].customSoundUrl == SoundUrlSetting(settings.whisperHighlightSoundUrl) &&
      (settings.enableWhisperHighlight ==> r[1].WhisperCheck? && r[1].customSoundUrl == r[0].customSoundUrl)
  {
  }
}
