/** Generic sequence operations that mirror Python list idioms used by the core:
    list comprehensions with a condition, `list.remove`, and the key order of a
    dict filled from a list. */
module Sequences {

  datatype Option<T> = None | Some(value: T)

  predicate NoDuplicates<T(==)>(s: seq<T>) {
    forall i, j :: 0 <= i < j < |s| ==> s[i] != s[j]
  }

  /** Dropping the first element of a list without duplicates leaves a list
      without duplicates that does not contain it. */
  lemma NoDuplicatesTail<T>(s: seq<T>)
    requires s != []
    ensures NoDuplicates(s) ==> NoDuplicates(s[1..]) && s[0] !in s[1..]
  {
    if NoDuplicates(s) {
      forall i, j | 0 <= i < j < |s[1..]| ensures s[1..][i] != s[1..][j] {
        assert s[1..][i] == s[i + 1] && s[1..][j] == s[j + 1];
      }
      forall k | 0 <= k < |s[1..]| ensures s[1..][k] != s[0] {
        assert s[1..][k] == s[k + 1];
      }
    }
  }

  /** `[x for x in s if p(x)]` */
  function Filter<T(!new)>(s: seq<T>, p: T -> bool): (r: seq<T>)
    ensures |r| <= |s|
    ensures forall x :: x in r <==> x in s && p(x)
    ensures NoDuplicates(s) ==> NoDuplicates(r)
  {
    if s == [] then []
    else
      NoDuplicatesTail(s);
      (if p(s[0]) then [s[0]] else []) + Filter(s[1..], p)
  }

  /** A comprehension keeps the order of its source: filtering a concatenation
      is the concatenation of the filtered parts. */
  lemma {:induction false} FilterAppend<T(!new)>(s: seq<T>, t: seq<T>, p: T -> bool)
    ensures Filter(s + t, p) == Filter(s, p) + Filter(t, p)
  {
    if s == [] {
      assert s + t == t;
    } else {
      assert (s + t)[1..] == s[1..] + t;
      FilterAppend(s[1..], t, p);
    }
  }

  /** Two conditions that agree on every element of `s` filter it alike. */
  lemma {:induction false} FilterCongruent<T(!new)>(s: seq<T>, p: T -> bool, q: T -> bool)
    requires forall i :: 0 <= i < |s| ==> p(s[i]) == q(s[i])
    ensures Filter(s, p) == Filter(s, q)
  {
    if s != [] {
      FilterCongruent(s[1..], p, q);
    }
  }

  /** `s.index(x)`: the position of the first occurrence of `x`. */
  function IndexOf<T(==)>(s: seq<T>, x: T): (i: nat)
    requires x in s
    ensures i < |s| && s[i] == x
    ensures forall k :: 0 <= k < i ==> s[k] != x
  {
    if s[0] == x then 0
    else
      assert x in s[1..] by {
        assert s == [s[0]] + s[1..];
      }
      IndexOf(s[1..], x) + 1
  }

  /** A position holding `x` with no `x` before it is the first occurrence. */
  lemma IndexOfUnique<T>(s: seq<T>, x: T, i: nat)
    requires i < |s| && s[i] == x
    requires forall k :: 0 <= k < i ==> s[k] != x
    ensures IndexOf(s, x) == i
  {
  }

  /** An element of a prefix has its first occurrence there. */
  lemma IndexOfPrefix<T>(s: seq<T>, k: nat, x: T)
    requires k <= |s| && x in s[..k]
    ensures IndexOf(s, x) == IndexOf(s[..k], x)
  {
    var p := s[..k];
    var i := IndexOf(p, x);
    assert s[i] == p[i];
    forall j | 0 <= j < i ensures s[j] != x {
      assert s[j] == p[j];
    }
    IndexOfUnique(s, x, i);
  }

  /** `list.remove(x)`: drops the first occurrence of `x`, keeping the other
      elements in order; Python raises ValueError when `x` is absent,
      modelled as `None`. */
  function RemoveFirst<T(==)>(s: seq<T>, x: T): (r: Option<seq<T>>)
    ensures r.None? <==> x !in s
    ensures r.Some? ==> multiset(r.value) + multiset{x} == multiset(s)
    ensures r.Some? ==> var i := IndexOf(s, x);
      && |r.value| == |s| - 1
      && (forall k :: 0 <= k < i ==> r.value[k] == s[k])
      && (forall k :: i <= k < |r.value| ==> r.value[k] == s[k + 1])
  {
    if s == [] then None
    else if s[0] == x then
      assert s == [s[0]] + s[1..];
      Some(s[1..])
    else match RemoveFirst(s[1..], x)
      case None => None
      case Some(rest) =>
        assert s == [s[0]] + s[1..];
        Some([s[0]] + rest)
  }

  /** `[y for y in s if y not in xs]` */
  function Without<T(==)>(s: seq<T>, xs: seq<T>): (r: seq<T>)
    ensures |r| <= |s|
    ensures forall i :: 0 <= i < |r| ==> r[i] in s && r[i] !in xs
    ensures forall i :: 0 <= i < |s| && s[i] !in xs ==> s[i] in r
    ensures NoDuplicates(s) ==> NoDuplicates(r)
  {
    if s == [] then []
    else
      NoDuplicatesTail(s);
      (if s[0] in xs then [] else [s[0]]) + Without(s[1..], xs)
  }

  /** On a list without duplicates, removing an element that is present drops
      every copy of it and keeps the rest in order. */
  lemma {:induction false} RemoveFirstIsWithout<T>(s: seq<T>, x: T)
    requires NoDuplicates(s) && x in s
    ensures RemoveFirst(s, x) == Some(Without(s, [x]))
  {
    assert s == [s[0]] + s[1..];
    if s[0] == x {
      assert x !in s[1..] by {
        forall k | 0 <= k < |s[1..]| ensures s[1..][k] != x {
          assert s[1..][k] == s[k + 1];
        }
      }
      WithoutAbsent(s[1..], [x]);
      assert Without(s, [x]) == Without(s[1..], [x]);
    } else {
      assert NoDuplicates(s[1..]) by {
        forall i, j | 0 <= i < j < |s[1..]| ensures s[1..][i] != s[1..][j] {
          assert s[1..][i] == s[i + 1] && s[1..][j] == s[j + 1];
        }
      }
      RemoveFirstIsWithout(s[1..], x);
    }
  }

  /** Removing names none of which occur changes nothing. */
  lemma {:induction false} WithoutAbsent<T>(s: seq<T>, xs: seq<T>)
    requires forall i :: 0 <= i < |s| ==> s[i] !in xs
    ensures Without(s, xs) == s
  {
    if s != [] {
      WithoutAbsent(s[1..], xs);
    }
  }

  /** Removing `xs` and then `ys` is removing `xs + ys` at once. */
  lemma {:induction false} WithoutWithout<T>(s: seq<T>, xs: seq<T>, ys: seq<T>)
    ensures Without(Without(s, xs), ys) == Without(s, xs + ys)
  {
    if s != [] {
      WithoutWithout(s[1..], xs, ys);
      var w := Without(s, xs);
      assert s[0] in xs + ys <==> s[0] in xs || s[0] in ys;
      if s[0] !in xs {
        assert w == [s[0]] + Without(s[1..], xs);
        assert w[1..] == Without(s[1..], xs);
        assert Without(w, ys) == (if s[0] in ys then [] else [s[0]]) + Without(w[1..], ys);
      } else {
        assert w == Without(s[1..], xs);
      }
    }
  }

  /** Removing `xs` is keeping what a condition accepts, when the condition
      rejects exactly the elements of `s` that are in `xs`. */
  lemma {:induction false} WithoutIsFilter<T(!new)>(s: seq<T>, xs: seq<T>, p: T -> bool)
    requires forall i :: 0 <= i < |s| ==> (s[i] in xs <==> !p(s[i]))
    ensures Without(s, xs) == Filter(s, p)
  {
    if s != [] {
      WithoutIsFilter(s[1..], xs, p);
    }
  }

  /** `for x in xs: s.remove(x)`, failing at the first name that is absent. */
  function RemoveEach<T(==)>(s: seq<T>, xs: seq<T>): (r: Option<seq<T>>)
    ensures r.Some? ==> forall i :: 0 <= i < |xs| ==> xs[i] in s
    ensures r.Some? ==> forall y :: y in r.value ==> y in s
    decreases |xs|
  {
    if xs == [] then Some(s)
    else match RemoveFirst(s, xs[0])
      case None => None
      case Some(rest) =>
        var r := RemoveEach(rest, xs[1..]);
        assert forall y :: y in rest ==> y in s by {
          forall y | y in rest ensures y in s {
            assert y in multiset(rest);
            assert multiset(rest) + multiset{xs[0]} == multiset(s);
            assert y in multiset(s);
          }
        }
        assert forall i :: 1 <= i < |xs| ==> xs[i] == xs[1..][i - 1];
        r
  }

  /** On a list without duplicates, removing distinct names one by one
      succeeds exactly when all of them are present, and then leaves the
      other elements in their order. */
  lemma {:induction false} RemoveEachIsWithout<T>(s: seq<T>, xs: seq<T>)
    requires NoDuplicates(s) && NoDuplicates(xs)
    ensures RemoveEach(s, xs).Some? <==> forall i :: 0 <= i < |xs| ==> xs[i] in s
    ensures RemoveEach(s, xs).Some? ==> RemoveEach(s, xs).value == Without(s, xs)
    decreases |xs|
  {
    if xs == [] {
      WithoutAbsent(s, xs);
    } else if xs[0] !in s {
    } else {
      var x := xs[0];
      RemoveFirstIsWithout(s, x);
      var rest := Without(s, [x]);
      RemoveEachStep(s, xs);
      RemoveEachIsWithout(rest, xs[1..]);
      WithoutWithout(s, [x], xs[1..]);
      assert [x] + xs[1..] == xs;
    }
  }

  /** The facts one removal step of `RemoveEachIsWithout` passes on. */
  lemma RemoveEachStep<T>(s: seq<T>, xs: seq<T>)
    requires NoDuplicates(s) && NoDuplicates(xs) && xs != []
    ensures NoDuplicates(Without(s, [xs[0]])) && NoDuplicates(xs[1..])
    ensures (forall i :: 0 <= i < |xs[1..]| ==> xs[1..][i] in s) <==>
      (forall i :: 0 <= i < |xs[1..]| ==> xs[1..][i] in Without(s, [xs[0]]))
  {
    var x := xs[0];
    var rest := Without(s, [x]);
    assert NoDuplicates(xs[1..]) by {
      forall i, j | 0 <= i < j < |xs[1..]| ensures xs[1..][i] != xs[1..][j] {
        assert xs[1..][i] == xs[i + 1] && xs[1..][j] == xs[j + 1];
      }
    }
    forall i | 0 <= i < |xs[1..]| ensures xs[1..][i] in rest <==> xs[1..][i] in s {
      assert xs[1..][i] == xs[i + 1] != x;
      if xs[1..][i] in s {
        var k :| 0 <= k < |s| && s[k] == xs[1..][i];
      }
    }
  }

  /** The keys of a Python dict filled from `s` in order: each element once,
      at the position of its first occurrence. */
  function Dedup<T(==,!new)>(s: seq<T>): (r: seq<T>)
    ensures NoDuplicates(r)
    ensures forall x :: x in r <==> x in s
    ensures |r| <= |s|
    // the keys come in the order of their first occurrence in `s`
    ensures forall i, j :: 0 <= i < j < |r| ==> IndexOf(s, r[i]) < IndexOf(s, r[j])
  {
    if s == [] then []
    else
      var init := s[..|s| - 1];
      var d := Dedup(init);
      var last := s[|s| - 1];
      assert forall x :: x in s <==> x in init || x == last by {
        assert s == init + [last];
      }
      assert forall y :: y in init ==> IndexOf(s, y) == IndexOf(init, y) by {
        forall y | y in init ensures IndexOf(s, y) == IndexOf(init, y) {
          IndexOfPrefix(s, |s| - 1, y);
        }
      }
      if last in d then d
      else
        assert IndexOf(s, last) == |s| - 1 by {
          assert s[..|s| - 1] == init;
          IndexOfUnique(s, last, |s| - 1);
        }
        d + [last]
  }

  /** Dropping the last element of a list without duplicates leaves a list
      without duplicates that does not contain it. */
  lemma NoDuplicatesInit<T>(s: seq<T>)
    requires NoDuplicates(s) && s != []
    ensures NoDuplicates(s[..|s| - 1]) && s[|s| - 1] !in s[..|s| - 1]
  {
    var init := s[..|s| - 1];
    forall i, j | 0 <= i < j < |init| ensures init[i] != init[j] {
      assert init[i] == s[i] && init[j] == s[j];
    }
    forall k | 0 <= k < |init| ensures init[k] != s[|s| - 1] {
      assert init[k] == s[k];
    }
  }

  /** A list that has no duplicates is its own key list. */
  lemma {:induction false} DedupDistinct<T(!new)>(s: seq<T>)
    requires NoDuplicates(s)
    ensures Dedup(s) == s
  {
    if s != [] {
      var init, last := s[..|s| - 1], s[|s| - 1];
      NoDuplicatesInit(s);
      DedupDistinct(init);
      assert Dedup(s) == init + [last];
      assert s == init + [last];
    }
  }
}
