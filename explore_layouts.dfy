/** The layout search driver for strip pairing: it lists every hidden-layer
    layout "n1,n2,...,nL" whose per-layer node counts are taken from
    15, 20, ..., maxnodes, trains and tests one network per layout, and keeps
    the good/bad sequence performance of every layout whose test passed. */
module ExploreLayouts {
  import opened Sequences

  /** Smallest node count of a hidden layer, and the step between counts. */
  const MinNodes: nat := 15
  const NodeStep: nat := 5

  /** `range(start, stop, 5)` */
  function NodeRange(start: nat, stop: int): (r: seq<nat>)
    ensures |r| == if start < stop then (stop - start + 4) / 5 else 0
    ensures forall i :: 0 <= i < |r| ==> r[i] == start + NodeStep * i
    decreases stop - start
  {
    if start >= stop then [] else [start] + NodeRange(start + NodeStep, stop)
  }

  /** The node counts one hidden layer may have: `range(15, maxnodes + 1, 5)`. */
  function NodeValues(maxNodes: int): seq<nat> {
    NodeRange(MinNodes, maxNodes + 1)
  }

  /** The node counts are exactly the multiples of 5 from 15 up to and
      including `maxNodes`, in increasing order. */
  lemma NodeValuesAre(maxNodes: int)
    ensures forall v: nat :: v in NodeValues(maxNodes) <==> MinNodes <= v <= maxNodes && v % NodeStep == 0
    ensures |NodeValues(maxNodes)| == if maxNodes < MinNodes then 0 else (maxNodes - MinNodes) / NodeStep + 1
  {
    var r := NodeValues(maxNodes);
    forall v: nat | MinNodes <= v <= maxNodes && v % NodeStep == 0
      ensures v in r
    {
      var i := (v - MinNodes) / NodeStep;
      assert r[i] == v;
    }
  }

  lemma NodeValuesIncreasing(maxNodes: int)
    ensures StrictlyIncreasing(NodeValues(maxNodes))
  {
  }

  predicate StrictlyIncreasing(s: seq<nat>) {
    forall i, j :: 0 <= i < j < |s| ==> s[i] < s[j]
  }

  /** `k ** n` */
  function Power(k: nat, n: nat): nat {
    if n == 0 then 1 else k * Power(k, n - 1)
  }

  lemma MulSucc(a: nat, b: nat)
    ensures (a + 1) * b == b + a * b
  {
  }

  /** The first block of `PrefixAll`: `values[0]` in front of every tail. */
  function Block(v: nat, tails: seq<seq<nat>>): (r: seq<seq<nat>>)
    ensures |r| == |tails|
    ensures forall i :: 0 <= i < |tails| ==> r[i] == [v] + tails[i]
  {
    seq(|tails|, i requires 0 <= i < |tails| => [v] + tails[i])
  }

  /** `[[v] + t for v in values for t in tails]`: every value in front of
      every tail, the tail varying fastest. */
  function PrefixAll(values: seq<nat>, tails: seq<seq<nat>>): seq<seq<nat>>
    decreases |values|
  {
    if values == [] then [] else Block(values[0], tails) + PrefixAll(values[1..], tails)
  }

  /** Every value is paired with every tail. */
  lemma {:induction false} PrefixAllLength(values: seq<nat>, tails: seq<seq<nat>>)
    ensures |PrefixAll(values, tails)| == |values| * |tails|
    decreases |values|
  {
    if values != [] {
      PrefixAllLength(values[1..], tails);
      MulSucc(|values[1..]|, |tails|);
    }
  }

  /** Each entry of `PrefixAll` is a value followed by a tail. */
  lemma {:induction false} PrefixAllMembers(values: seq<nat>, tails: seq<seq<nat>>, t: seq<nat>)
    requires t in PrefixAll(values, tails)
    ensures |t| > 0 && t[0] in values && t[1..] in tails
    decreases |values|
  {
    var block, rest := Block(values[0], tails), PrefixAll(values[1..], tails);
    if t in block {
      var i :| 0 <= i < |tails| && block[i] == t;
      assert t[1..] == tails[i];
    } else {
      assert t in rest;
      PrefixAllMembers(values[1..], tails, t);
      assert t[0] in values by {
        var k :| 0 <= k < |values[1..]| && values[1..][k] == t[0];
        assert values[k + 1] == t[0];
      }
    }
  }

  lemma {:induction false} PrefixAllContains(values: seq<nat>, tails: seq<seq<nat>>, v: nat, t: seq<nat>)
    requires v in values && t in tails
    ensures [v] + t in PrefixAll(values, tails)
    decreases |values|
  {
    if values[0] != v {
      PrefixAllContains(values[1..], tails, v, t);
    } else {
      var i :| 0 <= i < |tails| && tails[i] == t;
      assert Block(v, tails)[i] == [v] + t;
    }
  }

  /** `itertools.product(values, repeat=n)` as a list of tuples. */
  function Product(values: seq<nat>, n: nat): seq<seq<nat>> {
    if n == 0 then [[]] else PrefixAll(values, Product(values, n - 1))
  }

  /** There are k^n tuples of n values out of k. */
  lemma {:induction false} ProductLength(values: seq<nat>, n: nat)
    ensures |Product(values, n)| == Power(|values|, n)
  {
    if n > 0 {
      ProductLength(values, n - 1);
      PrefixAllLength(values, Product(values, n - 1));
    }
  }

  /** Every tuple listed has `n` values, each from `values`. */
  lemma {:induction false} ProductMembers(values: seq<nat>, n: nat, t: seq<nat>)
    requires t in Product(values, n)
    ensures |t| == n && forall j :: 0 <= j < n ==> t[j] in values
  {
    if n > 0 {
      PrefixAllMembers(values, Product(values, n - 1), t);
      ProductMembers(values, n - 1, t[1..]);
      forall j | 0 < j < n ensures t[j] in values {
        assert t[j] == t[1..][j - 1];
      }
    }
  }

  /** Every tuple of `n` values from `values` is listed. */
  lemma {:induction false} ProductComplete(values: seq<nat>, n: nat, t: seq<nat>)
    requires |t| == n && forall j :: 0 <= j < n ==> t[j] in values
    ensures t in Product(values, n)
  {
    if n > 0 {
      ProductComplete(values, n - 1, t[1..]);
      PrefixAllContains(values, Product(values, n - 1), t[0], t[1..]);
      assert [t[0]] + t[1..] == t;
    }
  }

  /** Lexicographic order on tuples of equal length. */
  predicate LexLess(a: seq<int>, b: seq<int>) {
    |a| > 0 && |b| > 0 && (a[0] < b[0] || (a[0] == b[0] && LexLess(a[1..], b[1..])))
  }

  predicate LexSorted(r: seq<seq<nat>>) {
    forall i, j :: 0 <= i < j < |r| ==> LexLess(r[i], r[j])
  }

  lemma {:induction false} PrefixAllSorted(values: seq<nat>, tails: seq<seq<nat>>)
    requires StrictlyIncreasing(values) && LexSorted(tails)
    ensures LexSorted(PrefixAll(values, tails))
    decreases |values|
  {
    if values != [] {
      var v := values[0];
      var block, rest := Block(v, tails), PrefixAll(values[1..], tails);
      assert StrictlyIncreasing(values[1..]) by {
        forall i, j | 0 <= i < j < |values[1..]| ensures values[1..][i] < values[1..][j] {
          assert values[1..][i] == values[i + 1] && values[1..][j] == values[j + 1];
        }
      }
      PrefixAllSorted(values[1..], tails);
      var r := block + rest;
      forall i, j | 0 <= i < j < |r| ensures LexLess(r[i], r[j]) {
        if j < |block| {
          assert r[i][1..] == tails[i] && r[j][1..] == tails[j];
        } else if i < |block| {
          assert r[j] == rest[j - |block|];
          PrefixAllMembers(values[1..], tails, r[j]);
          var k :| 0 <= k < |values[1..]| && values[1..][k] == r[j][0];
          assert values[k + 1] == r[j][0];
        } else {
          assert r[i] == rest[i - |block|] && r[j] == rest[j - |block|];
        }
      }
    }
  }

  /** With increasing node values the tuples come in lexicographic order,
      the last layer varying fastest. */
  lemma {:induction false} ProductSorted(values: seq<nat>, n: nat)
    requires StrictlyIncreasing(values)
    ensures LexSorted(Product(values, n))
  {
    if n > 0 {
      ProductSorted(values, n - 1);
      PrefixAllSorted(values, Product(values, n - 1));
    }
  }

  /** `str(d)` for one digit, and `str(n)` for a non-negative integer. */
  function DigitChar(d: nat): (c: char)
    requires d < 10
    ensures '0' <= c <= '9'
    ensures c == '0' <==> d == 0
  {
    ('0' as int + d) as char
  }

  function Decimal(n: nat): (s: string)
    ensures |s| > 0
    ensures forall k :: 0 <= k < |s| ==> '0' <= s[k] <= '9'
    // no leading zero: only 0 itself is written starting with '0'
    ensures s[0] == '0' <==> n == 0
  {
    if n < 10 then [DigitChar(n)] else Decimal(n / 10) + [DigitChar(n % 10)]
  }

  /** `int(s)` for a string of decimal digits. */
  function DigitsValue(s: string): int {
    if s == [] then 0 else DigitsValue(s[..|s| - 1]) * 10 + (s[|s| - 1] as int - '0' as int)
  }

  lemma {:induction false} DecimalRoundTrip(n: nat)
    ensures DigitsValue(Decimal(n)) == n
  {
    if n >= 10 {
      DecimalRoundTrip(n / 10);
      var s := Decimal(n);
      assert s[..|s| - 1] == Decimal(n / 10);
    }
  }

  /** The layout string the driver builds from one tuple: start from "",
      and for each value append "," unless the string is still empty, then
      the value in decimal. */
  function Layout(t: seq<nat>): (s: string)
    ensures s == "" <==> t == []
  {
    if |t| == 0 then ""
    else if |t| == 1 then Decimal(t[0])
    else Layout(t[..|t| - 1]) + "," + Decimal(t[|t| - 1])
  }

  function Count(s: string, c: char): nat {
    if s == [] then 0 else Count(s[..|s| - 1], c) + (if s[|s| - 1] == c then 1 else 0)
  }

  lemma {:induction false} CountAppend(a: string, b: string, c: char)
    ensures Count(a + b, c) == Count(a, c) + Count(b, c)
    decreases |b|
  {
    if b == [] {
      assert a + b == a;
    } else {
      CountAppend(a, b[..|b| - 1], c);
      assert (a + b)[..|a + b| - 1] == a + b[..|b| - 1];
      assert (a + b)[|a + b| - 1] == b[|b| - 1];
    }
  }

  lemma {:induction false} CountAbsent(s: string, c: char)
    requires forall k :: 0 <= k < |s| ==> s[k] != c
    ensures Count(s, c) == 0
  {
    if s != [] {
      CountAbsent(s[..|s| - 1], c);
    }
  }

  /** A layout of L >= 1 layers holds exactly L - 1 commas: no leading,
      trailing or doubled separator. */
  lemma {:induction false} LayoutCommas(t: seq<nat>)
    requires |t| >= 1
    ensures Count(Layout(t), ',') == |t| - 1
  {
    CountAbsent(Decimal(t[|t| - 1]), ',');
    if |t| > 1 {
      LayoutCommas(t[..|t| - 1]);
      CountAppend(Layout(t[..|t| - 1]), ",", ',');
      CountAppend(Layout(t[..|t| - 1]) + ",", Decimal(t[|t| - 1]), ',');
      assert Count(",", ',') == 1 by {
        assert ","[..0] == "";
      }
    }
  }

  /** Index of the last comma of `s`. */
  function LastComma(s: string): (i: nat)
    requires ',' in s
    ensures i < |s| && s[i] == ','
    ensures forall k :: i < k < |s| ==> s[k] != ','
  {
    if s[|s| - 1] == ',' then |s| - 1
    else
      assert ',' in s[..|s| - 1] by {
        var k :| 0 <= k < |s| && s[k] == ',';
        assert s[..|s| - 1][k] == ',';
      }
      LastComma(s[..|s| - 1])
  }

  /** `s.split(",")` */
  function Split(s: string): (parts: seq<string>)
    ensures |parts| > 0
    decreases |s|
  {
    if ',' !in s then [s]
    else
      var i := LastComma(s);
      Split(s[..i]) + [s[i + 1..]]
  }

  /** The node counts that the network reads back from a layout string. */
  function ParseLayout(s: string): seq<int> {
    if s == "" then []
    else
      var parts := Split(s);
      seq(|parts|, i requires 0 <= i < |parts| => DigitsValue(parts[i]))
  }

  /** Appending one value to a tuple appends "," and its decimal form to
      the layout, except for the first value. */
  lemma LayoutSnoc(t: seq<nat>, v: nat)
    ensures Layout(t + [v]) == if t == [] then Decimal(v) else Layout(t) + "," + Decimal(v)
  {
    assert (t + [v])[..|t|] == t;
  }

  lemma LastCommaBeforeDigits(a: string, d: string)
    requires forall k :: 0 <= k < |d| ==> '0' <= d[k] <= '9'
    ensures ',' in a + "," + d
    ensures LastComma(a + "," + d) == |a|
  {
    var s := a + "," + d;
    assert s[|a|] == ',';
  }

  lemma SplitBeforeDigits(a: string, d: string)
    requires forall k :: 0 <= k < |d| ==> '0' <= d[k] <= '9'
    ensures Split(a + "," + d) == Split(a) + [d]
  {
    var s := a + "," + d;
    LastCommaBeforeDigits(a, d);
    assert s[..|a|] == a && s[|a| + 1..] == d;
  }

  /** A non-empty layout string reads back as one value per part. */
  lemma ParseLayoutParts(s: string)
    requires s != ""
    ensures |ParseLayout(s)| == |Split(s)|
    ensures forall i :: 0 <= i < |Split(s)| ==> ParseLayout(s)[i] == DigitsValue(Split(s)[i])
  {
  }

  /** A layout string with one more part reads back as one more value. */
  lemma ParseLayoutMorePart(s: string, a: string, d: string)
    requires s != "" && a != ""
    requires Split(s) == Split(a) + [d]
    ensures ParseLayout(s) == ParseLayout(a) + [DigitsValue(d)]
  {
    ParseLayoutParts(s);
    ParseLayoutParts(a);
    var lhs, rhs := ParseLayout(s), ParseLayout(a) + [DigitsValue(d)];
    assert |lhs| == |rhs|;
    forall i | 0 <= i < |lhs| ensures lhs[i] == rhs[i] {
      if i < |Split(a)| {
        assert Split(s)[i] == Split(a)[i];
      } else {
        assert Split(s)[i] == d;
      }
    }
  }

  lemma ParseLayoutSnoc(a: string, d: string)
    requires a != ""
    requires forall k :: 0 <= k < |d| ==> '0' <= d[k] <= '9'
    ensures ParseLayout(a + "," + d) == ParseLayout(a) + [DigitsValue(d)]
  {
    SplitBeforeDigits(a, d);
    ParseLayoutMorePart(a + "," + d, a, d);
  }

  /** Reading a layout string back gives the tuple it was built from. */
  lemma {:induction false} LayoutRoundTrip(t: seq<nat>)
    ensures ParseLayout(Layout(t)) == t
  {
    if |t| == 1 {
      var d := Decimal(t[0]);
      assert ',' !in d;
      DecimalRoundTrip(t[0]);
    } else if |t| > 1 {
      var init, last := t[..|t| - 1], t[|t| - 1];
      assert Layout(t) == Layout(init) + "," + Decimal(last);
      ParseLayoutSnoc(Layout(init), Decimal(last));
      LayoutRoundTrip(init);
      DecimalRoundTrip(last);
      assert init + [last] == t;
    }
  }

  /** The layout string of each tuple, in order. */
  function Layouts(tuples: seq<seq<nat>>): (r: seq<string>)
    ensures |r| == |tuples|
    ensures forall i :: 0 <= i < |tuples| ==> r[i] == Layout(tuples[i])
  {
    seq(|tuples|, i requires 0 <= i < |tuples| => Layout(tuples[i]))
  }

  /** The driver's `LayoutList`: the layout string of every tuple of the
      product, in product order. A negative layer count makes
      `itertools.product` raise ValueError, modelled as `None`. */
  function LayoutList(maxNodes: int, hiddenLayers: int): Option<seq<string>> {
    if hiddenLayers < 0 then None
    else Some(Layouts(Product(NodeValues(maxNodes), hiddenLayers)))
  }

  /** The layout list has k^L entries for k node values and L layers, so
      none when maxnodes < 15 and L >= 1. */
  lemma LayoutListCount(maxNodes: int, hiddenLayers: nat)
    ensures LayoutList(maxNodes, hiddenLayers).Some?
    ensures |LayoutList(maxNodes, hiddenLayers).value| == Power(|NodeValues(maxNodes)|, hiddenLayers)
    ensures maxNodes < MinNodes && hiddenLayers >= 1 ==> LayoutList(maxNodes, hiddenLayers).value == []
  {
    ProductLength(NodeValues(maxNodes), hiddenLayers);
    if maxNodes < MinNodes && hiddenLayers >= 1 {
      assert Power(0, hiddenLayers) == 0;
    }
  }

  /** Layout i of the product of `values` names the i-th tuple: n values
      from `values`, written with n - 1 commas. */
  lemma LayoutsEntry(values: seq<nat>, n: nat, i: nat)
    requires i < |Product(values, n)|
    ensures var layout := Layouts(Product(values, n))[i];
      && ParseLayout(layout) == Product(values, n)[i]
      && |ParseLayout(layout)| == n
      && (forall j :: 0 <= j < n ==> ParseLayout(layout)[j] in values)
      && (n >= 1 ==> Count(layout, ',') == n - 1)
  {
    var tuples := Product(values, n);
    ProductMembers(values, n, tuples[i]);
    LayoutRoundTrip(tuples[i]);
    if n >= 1 { LayoutCommas(tuples[i]); }
  }

  /** Layout i of the list names the i-th tuple of the product: L allowed
      node counts, written with L - 1 commas. */
  lemma LayoutListEntry(maxNodes: int, hiddenLayers: nat, i: nat)
    requires i < |LayoutList(maxNodes, hiddenLayers).value|
    ensures var layout := LayoutList(maxNodes, hiddenLayers).value[i];
      && ParseLayout(layout) == Product(NodeValues(maxNodes), hiddenLayers)[i]
      && |ParseLayout(layout)| == hiddenLayers
      && (forall j :: 0 <= j < hiddenLayers ==> ParseLayout(layout)[j] in NodeValues(maxNodes))
      && (hiddenLayers >= 1 ==> Count(layout, ',') == hiddenLayers - 1)
  {
    LayoutsEntry(NodeValues(maxNodes), hiddenLayers, i);
  }

  lemma LayoutsOrdered(values: seq<nat>, n: nat, i: nat, j: nat)
    requires StrictlyIncreasing(values)
    requires i < j < |Product(values, n)|
    ensures var layouts := Layouts(Product(values, n));
      LexLess(ParseLayout(layouts[i]), ParseLayout(layouts[j]))
  {
    var tuples := Product(values, n);
    var layouts := Layouts(tuples);
    LayoutsEntry(values, n, i);
    LayoutsEntry(values, n, j);
    assert ParseLayout(layouts[i]) == tuples[i] && ParseLayout(layouts[j]) == tuples[j];
    ProductSorted(values, n);
    assert LexLess(tuples[i], tuples[j]);
  }

  /** The layouts come in lexicographic order of their node counts, the
      last layer varying fastest. */
  lemma LayoutListOrdered(maxNodes: int, hiddenLayers: nat, i: nat, j: nat)
    requires i < j < |LayoutList(maxNodes, hiddenLayers).value|
    ensures var layouts := LayoutList(maxNodes, hiddenLayers).value;
      LexLess(ParseLayout(layouts[i]), ParseLayout(layouts[j]))
  {
    NodeValuesIncreasing(maxNodes);
    LayoutsOrdered(NodeValues(maxNodes), hiddenLayers, i, j);
  }

  /** Every combination of allowed node counts has its layout in the list. */
  lemma LayoutListComplete(maxNodes: int, hiddenLayers: nat, t: seq<nat>)
    requires |t| == hiddenLayers
    requires forall j :: 0 <= j < |t| ==> t[j] in NodeValues(maxNodes)
    ensures Layout(t) in LayoutList(maxNodes, hiddenLayers).value
  {
    var tuples := Product(NodeValues(maxNodes), hiddenLayers);
    ProductComplete(NodeValues(maxNodes), hiddenLayers, t);
    var i :| 0 <= i < |tuples| && tuples[i] == t;
    assert Layouts(tuples)[i] == Layout(t);
  }

  /** The inner loop of step 1: the layout string of one tuple, built by
      appending to it value by value. */
  method BuildLayout(x: seq<nat>) returns (layout: string)
    ensures layout == Layout(x)
  {
    layout := "";
    for k := 0 to |x|
      invariant layout == Layout(x[..k])
    {
      if layout != "" {
        layout := layout + ",";
      }
      layout := layout + Decimal(x[k]);
      LayoutSnoc(x[..k], x[k]);
      assert x[..k + 1] == x[..k] + [x[k]];
    }
    assert x[..|x|] == x;
  }

  /** The outer loop of step 1: one layout string per tuple, appended in
      tuple order. */
  method BuildLayouts(tuples: seq<seq<nat>>) returns (list: seq<string>)
    ensures list == Layouts(tuples)
  {
    list := [];
    for n := 0 to |tuples|
      invariant |list| == n
      invariant forall i :: 0 <= i < n ==> list[i] == Layout(tuples[i])
    {
      var layout := BuildLayout(tuples[n]);
      list := list + [layout];
    }
  }

  /** Step 1 of the driver. */
  method BuildLayoutList(maxNodes: int, hiddenLayers: int) returns (layouts: Option<seq<string>>)
    ensures layouts == LayoutList(maxNodes, hiddenLayers)
  {
    if hiddenLayers < 0 {
      return None;
    }
    var list := BuildLayouts(Product(NodeValues(maxNodes), hiddenLayers));
    return Some(list);
  }

  /** What training and testing one layout gave: `train()` returned False
      (the layout is skipped and `test()` is not called), or `test()`
      returned (Passed, good sequence performance, bad sequence performance). */
  datatype Run = Untrained | Tested(passed: bool, good: real, bad: real)

  predicate Kept(r: Run) {
    r.Tested? && r.passed
  }

  /** Positions of the runs whose performance is recorded, in layout order. */
  function KeptIndices(runs: seq<Run>): (ks: seq<nat>)
    ensures |ks| <= |runs|
    ensures forall j :: 0 <= j < |ks| ==> ks[j] < |runs| && Kept(runs[ks[j]])
    ensures forall i :: 0 <= i < |runs| && Kept(runs[i]) ==> i in ks
    ensures forall j, k :: 0 <= j < k < |ks| ==> ks[j] < ks[k]
  {
    if runs == [] then []
    else
      var n := |runs| - 1;
      var ks := KeptIndices(runs[..n]);
      ks + (if Kept(runs[n]) then [n] else [])
  }

  /** Step 2 of the driver: one run per layout; append the pair of
      performances of every run that trained and passed its test. */
  method CollectPerformances(layouts: seq<string>, runs: seq<Run>)
    returns (goodSequences: seq<real>, badSequences: seq<real>)
    requires |runs| == |layouts|
    ensures |goodSequences| == |badSequences| == |KeptIndices(runs)| <= |layouts|
    ensures forall j :: 0 <= j < |goodSequences| ==>
      && goodSequences[j] == runs[KeptIndices(runs)[j]].good
      && badSequences[j] == runs[KeptIndices(runs)[j]].bad
  {
    goodSequences, badSequences := [], [];
    for i := 0 to |layouts|
      invariant var ks := KeptIndices(runs[..i]);
        && |goodSequences| == |badSequences| == |ks|
        && forall j :: 0 <= j < |ks| ==>
             goodSequences[j] == runs[ks[j]].good && badSequences[j] == runs[ks[j]].bad
    {
      assert runs[..i + 1][..i] == runs[..i];
      var run := runs[i];
      if run.Untrained? {
        continue;
      }
      if run.passed {
        goodSequences := goodSequences + [run.good];
        badSequences := badSequences + [run.bad];
      }
    }
    assert runs[..|layouts|] == runs;
  }
}
