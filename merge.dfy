/** How the evaluator combines the outcomes of the rules, in rule order, into
    one highlight decision, and what the combined decision means. The
    functions here work on the sequence of per-rule outcomes, so they say
    nothing about how a rule matches. */
module HighlightMerge {
  import opened HighlightTypes

  /** Folds the result of one matching rule into the accumulated result:
      alert and playSound are or-ed, the custom sound and the colour keep the
      first value set, showInMentions is left as it was. */
  function Merge(acc: HighlightResult, r: HighlightResult): HighlightResult
  {
    HighlightResult(
      acc.alert || r.alert,
      acc.playSound || r.playSound,
      if acc.customSoundUrl.Some? then acc.customSoundUrl else r.customSoundUrl,
      if acc.color.Some? then acc.color else r.color,
      acc.showInMentions)
  }

  /** The evaluator's loop: every matching outcome sets the match flag and is
      merged in, and the walk stops once a merge makes the result full. */
  function Evaluate(os: seq<Option<HighlightResult>>, highlighted: bool, acc: HighlightResult)
    : (bool, HighlightResult)
  {
    if os == [] then (highlighted, acc)
    else match os[0]
      case None => Evaluate(os[1..], highlighted, acc)
      case Some(r) =>
        var merged := Merge(acc, r);
        if merged.Full() then (true, merged) else Evaluate(os[1..], true, merged)
  }

  /** The same walk without the early exit: every outcome is looked at. */
  function EvaluateAll(os: seq<Option<HighlightResult>>, highlighted: bool, acc: HighlightResult)
    : (bool, HighlightResult)
  {
    if os == [] then (highlighted, acc)
    else match os[0]
      case None => EvaluateAll(os[1..], highlighted, acc)
      case Some(r) => EvaluateAll(os[1..], true, Merge(acc, r))
  }

  /** Merging anything into a full result leaves it as it is. */
  lemma MergeIntoFull(acc: HighlightResult, r: HighlightResult)
    requires acc.Full()
    ensures Merge(acc, r) == acc
  {
  }

  /** Once the result is full and a match has been seen, the remaining
      outcomes change nothing. */
  lemma {:induction false} FullIsFinal(os: seq<Option<HighlightResult>>, acc: HighlightResult)
    requires acc.Full()
    ensures EvaluateAll(os, true, acc) == (true, acc)
  {
    if os != [] {
      if os[0].Some? {
        MergeIntoFull(acc, os[0].value);
      }
      FullIsFinal(os[1..], acc);
    }
  }

  /** Breaking out early gives the same answer as looking at every rule. */
  lemma {:induction false} EarlyExitIsHarmless(os: seq<Option<HighlightResult>>, highlighted: bool,
                                               acc: HighlightResult)
    ensures Evaluate(os, highlighted, acc) == EvaluateAll(os, highlighted, acc)
  {
    if os != [] {
      match os[0]
      case None =>
        EarlyExitIsHarmless(os[1..], highlighted, acc);
      case Some(r) =>
        var merged := Merge(acc, r);
        if merged.Full() {
          FullIsFinal(os[1..], merged);
        } else {
          EarlyExitIsHarmless(os[1..], true, merged);
        }
    }
  }

  /** The match flag is set exactly when some outcome is a match. */
  lemma {:induction false} MatchFlag(os: seq<Option<HighlightResult>>, highlighted: bool, acc: HighlightResult)
    ensures EvaluateAll(os, highlighted, acc).0 <==>
            highlighted || exists i :: 0 <= i < |os| && os[i].Some?
  {
    if os != [] {
      assert forall i :: 1 <= i < |os| ==> os[i] == os[1..][i - 1];
      match os[0]
      case None => MatchFlag(os[1..], highlighted, acc);
      case Some(r) => MatchFlag(os[1..], true, Merge(acc, r));
    }
  }

  /** alert and playSound are the or of the matching outcomes' values. */
  lemma {:induction false} FlagsAreOred(os: seq<Option<HighlightResult>>, highlighted: bool, acc: HighlightResult)
    ensures EvaluateAll(os, highlighted, acc).1.alert <==>
            acc.alert || exists i :: 0 <= i < |os| && os[i].Some? && os[i].value.alert
    ensures EvaluateAll(os, highlighted, acc).1.playSound <==>
            acc.playSound || exists i :: 0 <= i < |os| && os[i].Some? && os[i].value.playSound
  {
    if os != [] {
      assert forall i :: 1 <= i < |os| ==> os[i] == os[1..][i - 1];
      match os[0]
      case None => FlagsAreOred(os[1..], highlighted, acc);
      case Some(r) => FlagsAreOred(os[1..], true, Merge(acc, r));
    }
  }

  /** The outcome is a match that supplies a custom sound. */
  predicate SuppliesSoundUrl(o: Option<HighlightResult>)
  {
    o.Some? && o.value.customSoundUrl.Some?
  }

  /** The outcome is a match that supplies a colour. */
  predicate SuppliesColor(o: Option<HighlightResult>)
  {
    o.Some? && o.value.color.Some?
  }

  /** The custom sound is the one of the earliest matching outcome that
      supplies one, unless one was already set; it is never overwritten. */
  lemma {:induction false} SoundUrlFirstWins(os: seq<Option<HighlightResult>>, highlighted: bool,
                                             acc: HighlightResult)
    ensures var r := EvaluateAll(os, highlighted, acc).1;
      (acc.customSoundUrl.Some? ==> r.customSoundUrl == acc.customSoundUrl) &&
      (acc.customSoundUrl.None? && (forall i :: 0 <= i < |os| ==> !SuppliesSoundUrl(os[i])) ==>
         r.customSoundUrl.None?) &&
      (acc.customSoundUrl.None? ==>
         forall i :: 0 <= i < |os| && SuppliesSoundUrl(os[i]) &&
                     (forall j :: 0 <= j < i ==> !SuppliesSoundUrl(os[j])) ==>
           r.customSoundUrl == os[i].value.customSoundUrl)
  {
    if os != [] {
      assert forall i :: 1 <= i < |os| ==> os[i] == os[1..][i - 1];
      match os[0]
      case None => SoundUrlFirstWins(os[1..], highlighted, acc);
      case Some(r) => SoundUrlFirstWins(os[1..], true, Merge(acc, r));
    }
  }

  /** The colour is the one of the earliest matching outcome that supplies
      one, unless one was already set; it is never overwritten. */
  lemma {:induction false} ColorFirstWins(os: seq<Option<HighlightResult>>, highlighted: bool,
                                          acc: HighlightResult)
    ensures var r := EvaluateAll(os, highlighted, acc).1;
      (acc.color.Some? ==> r.color == acc.color) &&
      (acc.color.None? && (forall i :: 0 <= i < |os| ==> !SuppliesColor(os[i])) ==> r.color.None?) &&
      (acc.color.None? ==>
         forall i :: 0 <= i < |os| && SuppliesColor(os[i]) &&
                     (forall j :: 0 <= j < i ==> !SuppliesColor(os[j])) ==>
           r.color == os[i].value.color)
  {
    if os != [] {
      assert forall i :: 1 <= i < |os| ==> os[i] == os[1..][i - 1];
      match os[0]
      case None => ColorFirstWins(os[1..], highlighted, acc);
      case Some(r) => ColorFirstWins(os[1..], true, Merge(acc, r));
    }
  }

  /** The merge never touches showInMentions. */
  lemma {:induction false} MentionsUntouched(os: seq<Option<HighlightResult>>, highlighted: bool,
                                             acc: HighlightResult)
    ensures EvaluateAll(os, highlighted, acc).1.showInMentions == acc.showInMentions
  {
    if os != [] {
      match os[0]
      case None => MentionsUntouched(os[1..], highlighted, acc);
      case Some(r) => MentionsUntouched(os[1..], true, Merge(acc, r));
    }
  }

  /** With no matching outcome, flag and result come back as they went in. */
  lemma {:induction false} NoMatchChangesNothing(os: seq<Option<HighlightResult>>, highlighted: bool,
                                                 acc: HighlightResult)
    requires forall i :: 0 <= i < |os| ==> os[i].None?
    ensures EvaluateAll(os, highlighted, acc) == (highlighted, acc)
  {
    if os != [] {
      NoMatchChangesNothing(os[1..], highlighted, acc);
    }
  }
}
