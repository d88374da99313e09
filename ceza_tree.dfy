/** The "Quality" tree that the zenith-angle classifier reads: an ordered list
    of branch names and one entry per event mapping each branch name to its
    value. */
module CezaTree {
  import opened Sequences

  type Entry = map<string, real>

  /** Every entry holds a value for every branch. */
  predicate HasBranches(tree: seq<Entry>, branches: seq<string>) {
    forall i, j :: 0 <= i < |tree| && 0 <= j < |branches| ==> branches[j] in tree[i]
  }

  const SequenceLength := "SequenceLength"
  const SimulationID := "SimulationID"
  const EvaluationIsReconstructable := "EvaluationIsReconstructable"
  const EvaluationIsCompletelyAbsorbed := "EvaluationIsCompletelyAbsorbed"
  /** The target: the zenith angle, in degrees. */
  const EvaluationZenithAngle := "EvaluationZenithAngle"

  /** Branches whose name starts with "EvaluationZenithAngle", in branch
      order: the label columns of the TF path and the values the evaluation
      loop compares with 90 degrees. */
  function ZenithBranches(branches: seq<string>): (r: seq<string>)
    ensures forall b :: b in r <==> b in branches && EvaluationZenithAngle <= b
  {
    Filter(branches, b => EvaluationZenithAngle <= b)
  }
}
