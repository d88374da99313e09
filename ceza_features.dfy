/** The TF path of the zenith-angle classifier up to the learning itself:
    the feature list derived from the branch names, and the feature and
    label tables filled from the first entries of the tree. */
module CezaFeatures {
  import opened Sequences
  import opened CezaTree

  /** The names the TF path removes from the feature list, in the order it
      removes them. */
  const NonFeatures: seq<string> :=
    [SequenceLength, SimulationID, EvaluationIsReconstructable,
     EvaluationIsCompletelyAbsorbed, EvaluationZenithAngle]

  /** `AllFeatures`: the keys of the branch-name dict (every branch name once,
      in branch order) with each non-feature name removed by `list.remove`;
      `None` when a removal raises ValueError because the name is missing. */
  function AllFeatures(branches: seq<string>): (r: Option<seq<string>>)
    ensures r.Some? ==> forall n :: n in NonFeatures ==> n in branches
    ensures r.Some? ==> forall f :: f in r.value ==> f in branches
  {
    var r := RemoveEach(Dedup(branches), NonFeatures);
    assert r.Some? ==> forall n :: n in NonFeatures ==> n in branches by {
      if r.Some? {
        forall n | n in NonFeatures ensures n in branches {
          var i :| 0 <= i < |NonFeatures| && NonFeatures[i] == n;
        }
      }
    }
    r
  }

  /** The five non-feature names are distinct, and each carries one of the
      bookkeeping prefixes. */
  lemma NonFeaturesAreBookkeeping()
    ensures NoDuplicates(NonFeatures)
    ensures forall n :: n in NonFeatures ==> !IsEventDataBranch(n)
  {
    assert NonFeatures[0][1] == 'e' && NonFeatures[1][1] == 'i';
    assert NonFeatures[2][10] == 'I' && NonFeatures[3][10] == 'I' && NonFeatures[4][10] == 'Z';
    assert NonFeatures[2][12] == 'R' && NonFeatures[3][12] == 'C';
    assert NonFeatures[0][0] == 'S' && NonFeatures[1][0] == 'S' && NonFeatures[2][0] == 'E';
    assert SequenceLength <= SequenceLength && SimulationID <= SimulationID;
    assert EvaluationIsReconstructable[..10] == "Evaluation";
    assert EvaluationIsCompletelyAbsorbed[..10] == "Evaluation";
    assert EvaluationZenithAngle[..10] == "Evaluation";
  }

  /** The feature list exists exactly when all five non-feature branches do,
      and then it is every other branch name, once each, in branch order. */
  lemma AllFeaturesAre(branches: seq<string>)
    ensures AllFeatures(branches).Some? <==> forall n :: n in NonFeatures ==> n in branches
    ensures AllFeatures(branches).Some? ==>
      AllFeatures(branches).value == Without(Dedup(branches), NonFeatures)
  {
    NonFeaturesAreBookkeeping();
    RemoveEachIsWithout(Dedup(branches), NonFeatures);
  }

  /** True of a name the comprehension `XEventDataBranches` keeps: it starts
      with none of "Evaluation", "SimulationID" and "SequenceLength". */
  predicate IsEventDataBranch(b: string) {
    !("Evaluation" <= b || SimulationID <= b || SequenceLength <= b)
  }

  /** `XEventDataBranches`: the branches that give the columns of the
      feature table. */
  function EventDataBranches(branches: seq<string>): (r: seq<string>)
    ensures forall b :: b in r <==> b in branches && IsEventDataBranch(b)
  {
    Filter(branches, IsEventDataBranch)
  }

  /** When the branch names are distinct, all five non-feature branches are
      present, and no other branch carries one of the bookkeeping prefixes,
      the feature list is exactly the list of feature-table columns. */
  lemma FeaturesAreColumns(branches: seq<string>)
    requires NoDuplicates(branches)
    requires forall n :: n in NonFeatures ==> n in branches
    requires forall b :: b in branches && !IsEventDataBranch(b) ==> b in NonFeatures
    ensures AllFeatures(branches) == Some(EventDataBranches(branches))
  {
    AllFeaturesAre(branches);
    DedupDistinct(branches);
    NonFeaturesAreBookkeeping();
    WithoutIsFilter(branches, NonFeatures, IsEventDataBranch);
  }

  /** `TotalData`: how many entries the tables hold. */
  function TotalData(maxEvents: nat, entries: nat): (n: nat)
    ensures n <= maxEvents && n <= entries
    ensures n == maxEvents || n == entries
  {
    if maxEvents < entries then maxEvents else entries
  }

  /** numpy accepts a row of `n` values for a table row of `width` columns
      when the shapes agree or the row has one value, which is repeated. */
  predicate RowFits(n: nat, width: nat) {
    n == width || n == 1
  }

  /** The row numpy stores when a row of values is assigned to a table row
      of `width` columns. */
  function Broadcast(row: seq<real>, width: nat): (r: seq<real>)
    requires RowFits(|row|, width)
    ensures |r| == width
    ensures forall j :: 0 <= j < width ==> r[j] == if |row| == width then row[j] else row[0]
  {
    if |row| == width then row else seq(width, _ => row[0])
  }

  /** `NewRow`: the values of the feature branches of one entry, in feature
      order. */
  function FeatureRow(entry: Entry, features: seq<string>): (row: seq<real>)
    requires forall f :: f in features ==> f in entry
    ensures |row| == |features|
    ensures forall j :: 0 <= j < |features| ==> row[j] == entry[features[j]]
  {
    seq(|features|, j requires 0 <= j < |features| => entry[features[j]])
  }

  /** The label row of one entry: its zenith angle in every label column. */
  function LabelRow(entry: Entry, width: nat): (row: seq<real>)
    requires EvaluationZenithAngle in entry
    ensures |row| == width
    ensures forall j :: 0 <= j < width ==> row[j] == entry[EvaluationZenithAngle]
  {
    seq(width, _ => entry[EvaluationZenithAngle])
  }

  /** Under the conditions of `FeaturesAreColumns`, feature-table column j of
      an entry holds the value of the j-th feature-table branch. */
  lemma FeatureRowColumns(branches: seq<string>, entry: Entry)
    requires NoDuplicates(branches)
    requires forall n :: n in NonFeatures ==> n in branches
    requires forall b :: b in branches && !IsEventDataBranch(b) ==> b in NonFeatures
    requires forall b :: b in branches ==> b in entry
    ensures var columns := EventDataBranches(branches);
      && AllFeatures(branches).Some?
      && RowFits(|AllFeatures(branches).value|, |columns|)
      && forall j :: 0 <= j < |columns| ==>
           Broadcast(FeatureRow(entry, AllFeatures(branches).value), |columns|)[j] == entry[columns[j]]
  {
    FeaturesAreColumns(branches);
  }

  /** Every entry of a well-formed tree holds the feature branches and the
      zenith angle. */
  lemma EntryHasFeatures(tree: seq<Entry>, branches: seq<string>, i: nat)
    requires HasBranches(tree, branches)
    requires AllFeatures(branches).Some?
    requires i < |tree|
    ensures forall f :: f in AllFeatures(branches).value ==> f in tree[i]
    ensures EvaluationZenithAngle in tree[i]
  {
    forall f | f in AllFeatures(branches).value ensures f in tree[i] {
      var j :| 0 <= j < |branches| && branches[j] == f;
    }
    assert NonFeatures[4] == EvaluationZenithAngle;
    var j :| 0 <= j < |branches| && branches[j] == EvaluationZenithAngle;
  }

  /** Row `x` of the feature table and row `y` of the label table hold the
      values of entry `e`. */
  predicate FilledRow(e: Entry, features: seq<string>, width: nat, labelWidth: nat, x: seq<real>, y: seq<real>) {
    && (forall f :: f in features ==> f in e)
    && EvaluationZenithAngle in e
    && RowFits(|features|, width)
    && x == Broadcast(FeatureRow(e, features), width)
    && y == LabelRow(e, labelWidth)
  }

  /** The row loop: stores row i of both tables from entry i, and stops
      with `false` at the first feature row numpy refuses. */
  method FillRows(tree: seq<Entry>, features: seq<string>, width: nat, labelWidth: nat,
                  xData: array<seq<real>>, yData: array<seq<real>>) returns (fits: bool)
    requires xData != yData && xData.Length == yData.Length <= |tree|
    requires forall k :: 0 <= k < xData.Length ==>
      (forall f :: f in features ==> f in tree[k]) && EvaluationZenithAngle in tree[k]
    modifies xData, yData
    ensures fits <==> xData.Length == 0 || RowFits(|features|, width)
    ensures fits ==> forall k :: 0 <= k < xData.Length ==>
      FilledRow(tree[k], features, width, labelWidth, xData[k], yData[k])
  {
    for i := 0 to xData.Length
      invariant i > 0 ==> RowFits(|features|, width)
      invariant forall k :: 0 <= k < i ==>
        FilledRow(tree[k], features, width, labelWidth, xData[k], yData[k])
    {
      var newRow := FeatureRow(tree[i], features);
      if !RowFits(|newRow|, width) {
        return false;
      }
      xData[i] := Broadcast(newRow, width);
      yData[i] := LabelRow(tree[i], labelWidth);
    }
    return true;
  }

  /** How building the tables ended: filled, `list.remove` failed on a
      missing non-feature branch, or numpy refused to store a feature row
      whose length fits neither the table width nor 1. */
  datatype TableStatus = Filled | MissingBranch | ShapeMismatch

  /** Steps 1 to 3 of the TF path: derive the feature list, then fill row i
      of the feature table `X_data` and of the label table `y_data` from tree
      entry i, for the first `min(MaxEvents, entries)` entries. */
  method BuildTables(tree: seq<Entry>, branches: seq<string>, maxEvents: nat)
    returns (status: TableStatus, xData: array<seq<real>>, yData: array<seq<real>>)
    requires HasBranches(tree, branches)
    ensures status == MissingBranch <==> AllFeatures(branches).None?
    ensures status == ShapeMismatch <==>
      && AllFeatures(branches).Some?
      && TotalData(maxEvents, |tree|) > 0
      && !RowFits(|AllFeatures(branches).value|, |EventDataBranches(branches)|)
    ensures status == Filled ==>
      var features, width := AllFeatures(branches).value, |EventDataBranches(branches)|;
      && xData.Length == yData.Length == TotalData(maxEvents, |tree|)
      && forall i :: 0 <= i < xData.Length ==>
           FilledRow(tree[i], features, width, |ZenithBranches(branches)|, xData[i], yData[i])
  {
    xData, yData := new seq<real>[0], new seq<real>[0];
    var maybeFeatures := AllFeatures(branches);
    if maybeFeatures.None? {
      return MissingBranch, xData, yData;
    }
    var features := maybeFeatures.value;
    var width := |EventDataBranches(branches)|;
    var labelWidth := |ZenithBranches(branches)|;
    var total := TotalData(maxEvents, |tree|);

    forall k | 0 <= k < total
      ensures (forall f :: f in features ==> f in tree[k]) && EvaluationZenithAngle in tree[k]
    {
      EntryHasFeatures(tree, branches, k);
    }
    xData := new seq<real>[total];
    yData := new seq<real>[total];
    var fits := FillRows(tree, features, width, labelWidth, xData, yData);
    if !fits {
      return ShapeMismatch, xData, yData;
    }
    return Filled, xData, yData;
  }
}
