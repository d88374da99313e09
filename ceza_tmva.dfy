/** The sequential parts of the TMVA path of the zenith-angle classifier:
    truncating the tree, choosing the input variables and the signal and
    background cuts, and counting good events after training. Training and
    the reader's response are TMVA's own and are not part of this model. */
module CezaTmva {
  import opened Sequences
  import opened CezaTree
  import CezaFeatures

  /** The tree the TMVA path works on: its first `maxEvents` entries, in
      order, when it has more; otherwise the tree itself. */
  function Limited(tree: seq<Entry>, maxEvents: nat): (r: seq<Entry>)
    ensures |r| == CezaFeatures.TotalData(maxEvents, |tree|)
    ensures r <= tree
    ensures |tree| <= maxEvents ==> r == tree
  {
    if |tree| > maxEvents then tree[..maxEvents] else tree
  }

  /** The copy loop: an empty clone of the tree filled with entries
      0 .. maxEvents-1 when the tree has more than `maxEvents` entries. */
  method LimitEvents(tree: seq<Entry>, maxEvents: nat) returns (limited: seq<Entry>)
    ensures limited == Limited(tree, maxEvents)
  {
    limited := tree;
    if |tree| > maxEvents {
      var newTree: seq<Entry> := [];
      for i := 0 to maxEvents
        invariant newTree == tree[..i]
      {
        newTree := newTree + [tree[i]];
      }
      limited := newTree;
    }
  }

  /** The branches booked as spectators, in booking order. */
  const Spectators: seq<string> := [SimulationID, SequenceLength]

  /** A branch is an input variable when it is not a spectator and its name
      does not start with "Evaluation". */
  predicate IsVariable(b: string) {
    b !in Spectators && !("Evaluation" <= b)
  }

  /** The input variables, in branch order. */
  function Variables(branches: seq<string>): (r: seq<string>)
    ensures forall b :: b in r <==> b in branches && IsVariable(b)
    ensures SimulationID !in r && SequenceLength !in r && EvaluationZenithAngle !in r
  {
    assert "Evaluation" <= EvaluationZenithAngle by {
      assert EvaluationZenithAngle[..10] == "Evaluation";
    }
    Filter(branches, IsVariable)
  }

  /** The TMVA path and the TF path read the same inputs: when no branch
      other than the two spectators starts with "SimulationID" or
      "SequenceLength", the TMVA variables are exactly the columns of the TF
      feature table, in the same order. */
  lemma VariablesAreFeatureColumns(branches: seq<string>)
    requires forall b :: b in branches && (SimulationID <= b || SequenceLength <= b) ==> b in Spectators
    ensures Variables(branches) == CezaFeatures.EventDataBranches(branches)
  {
    forall i | 0 <= i < |branches|
      ensures IsVariable(branches[i]) == CezaFeatures.IsEventDataBranch(branches[i])
    {
      var b := branches[i];
      if b in Spectators {
        assert b == SimulationID || b == SequenceLength;
      }
    }
    FilterCongruent(branches, IsVariable, CezaFeatures.IsEventDataBranch);
  }

  /** The signal cut "EvaluationZenithAngle > 90". */
  predicate IsSignal(e: Entry) {
    EvaluationZenithAngle in e && e[EvaluationZenithAngle] > 90.0
  }

  /** The background cut "EvaluationZenithAngle <= 90". */
  predicate IsBackground(e: Entry) {
    EvaluationZenithAngle in e && e[EvaluationZenithAngle] <= 90.0
  }

  /** The two cuts split the entries of a tree that has the zenith branch:
      every entry is signal or background and none is both. */
  lemma {:induction false} CutsPartition(tree: seq<Entry>)
    requires forall i :: 0 <= i < |tree| ==> EvaluationZenithAngle in tree[i]
    ensures |Filter(tree, IsSignal)| + |Filter(tree, IsBackground)| == |tree|
    ensures forall e :: !(IsSignal(e) && IsBackground(e))
  {
    if tree != [] {
      CutsPartition(tree[1..]);
      assert tree == [tree[0]] + tree[1..];
      FilterAppend([tree[0]], tree[1..], IsSignal);
      FilterAppend([tree[0]], tree[1..], IsBackground);
    }
  }

  /** The good-event threshold. */
  const IsGoodThreshold: real := 0.2

  /** How the evaluation loop judges one zenith value, as written: the
      comparison sits inside `abs`, so a value is bad only when it exceeds
      90 degrees by more than the threshold, and a value far below 90 is
      never bad. */
  predicate IsBadValue(v: real) {
    v - 90.0 > IsGoodThreshold
  }

  /** An entry is good when none of its branches whose name starts with
      "EvaluationZenithAngle" holds a bad value. */
  predicate IsGoodEvent(e: Entry, branches: seq<string>)
    requires forall j :: 0 <= j < |branches| ==> branches[j] in e
  {
    forall j :: 0 <= j < |branches| && EvaluationZenithAngle <= branches[j] ==> !IsBadValue(e[branches[j]])
  }

  /** The number of good entries among the first `n` of `events`. */
  function CountGood(events: seq<Entry>, branches: seq<string>, n: nat): (count: nat)
    requires HasBranches(events, branches) && n <= |events|
    ensures count <= n
  {
    if n == 0 then 0
    else CountGood(events, branches, n - 1) + if IsGoodEvent(events[n - 1], branches) then 1 else 0
  }

  /** All of the first `n` entries are counted exactly when all of them are
      good, and none exactly when none is. */
  lemma {:induction false} CountGoodExtremes(events: seq<Entry>, branches: seq<string>, n: nat)
    requires HasBranches(events, branches) && n <= |events|
    ensures CountGood(events, branches, n) == n <==> forall i :: 0 <= i < n ==> IsGoodEvent(events[i], branches)
    ensures CountGood(events, branches, n) == 0 <==> forall i :: 0 <= i < n ==> !IsGoodEvent(events[i], branches)
  {
    if n > 0 {
      CountGoodExtremes(events, branches, n - 1);
    }
  }

  /** The count depends only on the entries counted. */
  lemma {:induction false} CountGoodPrefix(a: seq<Entry>, b: seq<Entry>, branches: seq<string>, n: nat)
    requires HasBranches(a, branches) && HasBranches(b, branches)
    requires n <= |a| && n <= |b|
    requires forall i :: 0 <= i < n ==> a[i] == b[i]
    ensures CountGood(a, branches, n) == CountGood(b, branches, n)
  {
    if n > 0 {
      CountGoodPrefix(a, b, branches, n - 1);
    }
  }

  /** Only values above 90 degrees can make an event bad: an entry whose
      only zenith branch is "EvaluationZenithAngle" and that passes the
      background cut is good, and so is a signal entry within the threshold
      of 90 degrees. An entry at 45 degrees counts as good, one at 90.3 as
      bad. */
  lemma GoodnessIsOneSided(e: Entry, branches: seq<string>)
    requires forall j :: 0 <= j < |branches| ==> branches[j] in e
    requires EvaluationZenithAngle in e
    requires ZenithBranches(branches) == [EvaluationZenithAngle]
    ensures IsBackground(e) ==> IsGoodEvent(e, branches)
    ensures IsSignal(e) && e[EvaluationZenithAngle] <= 90.0 + IsGoodThreshold ==> IsGoodEvent(e, branches)
    ensures IsGoodEvent(e, branches) <==> e[EvaluationZenithAngle] <= 90.2
    ensures !IsBadValue(45.0) && IsBadValue(90.3)
  {
    assert EvaluationZenithAngle in ZenithBranches(branches);
    forall j | 0 <= j < |branches| && EvaluationZenithAngle <= branches[j]
      ensures branches[j] == EvaluationZenithAngle
    {
      assert branches[j] in ZenithBranches(branches);
    }
  }

  /** The learned label is never computed (`IsLearnedGood` stays true), so an
      event is counted as correctly identified exactly when it is good. */
  const IsLearnedGood := true

  /** How many entries the evaluation loop reads. */
  const MaxEvaluated: nat := 100

  /** The three counters of the evaluation loop and the printed ratio, which
      is `None` where the division by `NEvents` raises because the tree is
      empty. */
  datatype Evaluation = Evaluation(nEvents: nat, nGoodEvents: nat, nLearnedCorrectEvents: nat, correctFraction: Option<real>)

  /** The ratio of correctly identified events lies between 0 and 1. */
  lemma FractionBounds(nCorrect: nat, nEvents: nat)
    requires 0 < nEvents && nCorrect <= nEvents
    ensures 0.0 <= nCorrect as real / nEvents as real <= 1.0
  {
    assert nCorrect as real <= nEvents as real;
  }

  /** The inner loop over the branches of one entry. */
  method JudgeEvent(entry: Entry, branches: seq<string>) returns (isGood: bool)
    requires forall j :: 0 <= j < |branches| ==> branches[j] in entry
    ensures isGood == IsGoodEvent(entry, branches)
  {
    isGood := true;
    for k := 0 to |branches|
      invariant isGood <==> forall j :: 0 <= j < k && EvaluationZenithAngle <= branches[j] ==> !IsBadValue(entry[branches[j]])
    {
      if EvaluationZenithAngle <= branches[k] {
        if IsBadValue(entry[branches[k]]) {
          isGood := false;
        }
      }
    }
  }

  /** The evaluation loop over the first 100 entries of the tree. */
  method EvaluateEvents(tree: seq<Entry>, branches: seq<string>) returns (r: Evaluation)
    requires HasBranches(tree, branches)
    ensures r.nEvents == CezaFeatures.TotalData(MaxEvaluated, |tree|)
    ensures r.nGoodEvents == CountGood(tree, branches, r.nEvents)
    ensures r.nLearnedCorrectEvents == r.nGoodEvents <= r.nEvents
    ensures r.correctFraction.None? <==> tree == []
    ensures r.correctFraction.Some? ==> 0.0 <= r.correctFraction.value <= 1.0
    ensures r.correctFraction.Some? ==>
      r.nEvents > 0 && r.correctFraction.value == r.nLearnedCorrectEvents as real / r.nEvents as real
  {
    var nEvents := 0;
    var nGoodEvents := 0;
    var nLearnedCorrectEvents := 0;
    var entries := CezaFeatures.TotalData(MaxEvaluated, |tree|);
    for x := 0 to entries
      invariant nEvents == x
      invariant nGoodEvents == nLearnedCorrectEvents == CountGood(tree, branches, x)
    {
      nEvents := nEvents + 1;
      var isLearnedGood := IsLearnedGood;
      var isGood := JudgeEvent(tree[x], branches);
      if isGood {
        nGoodEvents := nGoodEvents + 1;
      }
      if (isLearnedGood && isGood) || (!isLearnedGood && !isGood) {
        nLearnedCorrectEvents := nLearnedCorrectEvents + 1;
      }
    }
    var fraction := None;
    if nEvents != 0 {
      FractionBounds(nLearnedCorrectEvents, nEvents);
      fraction := Some(nLearnedCorrectEvents as real / nEvents as real);
    }
    r := Evaluation(nEvents, nGoodEvents, nLearnedCorrectEvents, fraction);
  }

  /** The steps of the TMVA path this model covers: truncate the tree to
      `maxEvents` entries, then evaluate its first 100. The ratio fails when
      the tree is empty and also when `maxEvents` is 0. */
  method TmvaPath(tree: seq<Entry>, branches: seq<string>, maxEvents: nat) returns (r: Evaluation)
    requires HasBranches(tree, branches)
    ensures r.nEvents == CezaFeatures.TotalData(MaxEvaluated, CezaFeatures.TotalData(maxEvents, |tree|))
    ensures r.nGoodEvents == CountGood(tree, branches, r.nEvents)
    ensures r.nLearnedCorrectEvents == r.nGoodEvents <= r.nEvents
    ensures r.correctFraction.None? <==> tree == [] || maxEvents == 0
    ensures r.correctFraction.Some? ==> 0.0 <= r.correctFraction.value <= 1.0
    ensures r.correctFraction.Some? ==>
      r.nEvents > 0 && r.correctFraction.value == r.nLearnedCorrectEvents as real / r.nEvents as real
  {
    var limited := LimitEvents(tree, maxEvents);
    r := EvaluateEvents(limited, branches);
    CountGoodPrefix(limited, tree, branches, r.nEvents);
  }
}
