/** Selecting the elements of a sequence that pass a test, keeping their
    order: what a loop that appends to a list when a condition holds builds. */
module Filtering {

  /** The elements of s for which f holds, in their order in s. Defined by
      the last element, the way an appending loop extends its result. */
  function Filter<T>(s: seq<T>, f: T -> bool): (r: seq<T>)
    ensures |r| <= |s|
  {
    if s == [] then []
    else Filter(s[..|s| - 1], f) + (if f(s[|s| - 1]) then [s[|s| - 1]] else [])
  }

  /** rel holds of every pair of elements taken in order. */
  predicate Pairwise<T>(s: seq<T>, rel: (T, T) -> bool) {
    forall i, j :: 0 <= i < j < |s| ==> rel(s[i], s[j])
  }

  predicate NoDuplicates<T(==)>(s: seq<T>) {
    forall i, j :: 0 <= i < j < |s| ==> s[i] != s[j]
  }

  /** One step of an appending loop. */
  lemma FilterSnoc<T>(s: seq<T>, x: T, f: T -> bool)
    ensures Filter(s + [x], f) == Filter(s, f) + (if f(x) then [x] else [])
  {
    assert (s + [x])[..|s + [x]| - 1] == s;
  }

  lemma {:induction false} FilterMembership<T>(s: seq<T>, f: T -> bool, x: T)
    ensures x in Filter(s, f) <==> x in s && f(x)
  {
    if s != [] {
      var init := s[..|s| - 1];
      FilterMembership(init, f, x);
      assert s == init + [s[|s| - 1]];
    }
  }

  lemma {:induction false} FilterAppend<T>(a: seq<T>, b: seq<T>, f: T -> bool)
    ensures Filter(a + b, f) == Filter(a, f) + Filter(b, f)
  {
    if b == [] {
      assert a + b == a;
    } else {
      var init, last := b[..|b| - 1], b[|b| - 1];
      var tail := if f(last) then [last] else [];
      assert b == init + [last];
      assert a + b == (a + init) + [last];
      FilterAppend(a, init, f);
      FilterSnoc(a + init, last, f);
      FilterSnoc(init, last, f);
      assert (Filter(a, f) + Filter(init, f)) + tail == Filter(a, f) + (Filter(init, f) + tail);
    }
  }

  /** Filtering keeps the relative order of what it keeps. */
  lemma {:induction false} FilterPairwise<T>(s: seq<T>, f: T -> bool, rel: (T, T) -> bool)
    requires Pairwise(s, rel)
    ensures Pairwise(Filter(s, f), rel)
  {
    if s != [] {
      var init, last := s[..|s| - 1], s[|s| - 1];
      assert s == init + [last];
      FilterPairwise(init, f, rel);
      FilterSnoc(init, last, f);
      if f(last) {
        var kept := Filter(init, f);
        forall i | 0 <= i < |kept|
          ensures rel(kept[i], last)
        {
          FilterMembership(init, f, kept[i]);
          var k :| 0 <= k < |init| && init[k] == kept[i];
          assert s[k] == kept[i];
        }
      }
    }
  }

  /** Two tests that agree on every element select the same elements. */
  lemma {:induction false} FilterAgree<T>(s: seq<T>, f: T -> bool, g: T -> bool)
    requires forall x :: x in s ==> f(x) == g(x)
    ensures Filter(s, f) == Filter(s, g)
  {
    if s != [] {
      var init := s[..|s| - 1];
      assert s == init + [s[|s| - 1]];
      FilterAgree(init, f, g);
    }
  }

  lemma {:induction false} FilterKeepsAll<T>(s: seq<T>, f: T -> bool)
    requires forall x :: x in s ==> f(x)
    ensures Filter(s, f) == s
  {
    if s != [] {
      var init := s[..|s| - 1];
      assert s == init + [s[|s| - 1]];
      FilterKeepsAll(init, f);
    }
  }

  /** Rejecting one more element x shortens the result by one exactly when
      x occurs in s (once, as s has no duplicates) and f kept it. */
  lemma {:induction false} FilterDropOne<T>(s: seq<T>, f: T -> bool, g: T -> bool, x: T)
    requires NoDuplicates(s)
    requires forall y :: g(y) == (f(y) && y != x)
    ensures |Filter(s, g)| + (if x in s && f(x) then 1 else 0) == |Filter(s, f)|
  {
    if s != [] {
      var init, last := s[..|s| - 1], s[|s| - 1];
      assert s == init + [last];
      if last == x {
        assert x !in init;
        FilterAgree(init, f, g);
      } else {
        FilterDropOne(init, f, g, x);
      }
    }
  }

  /** Pairwise order of a concatenation. */
  lemma PairwiseConcat<T>(a: seq<T>, b: seq<T>, rel: (T, T) -> bool)
    requires Pairwise(a, rel) && Pairwise(b, rel)
    requires forall i, j :: 0 <= i < |a| && 0 <= j < |b| ==> rel(a[i], b[j])
    ensures Pairwise(a + b, rel)
  {
    var c := a + b;
    forall i, j | 0 <= i < j < |c|
      ensures rel(c[i], c[j])
    {
      if j < |a| {
        assert c[i] == a[i] && c[j] == a[j];
      } else if i >= |a| {
        assert c[i] == b[i - |a|] && c[j] == b[j - |a|];
      } else {
        assert c[i] == a[i] && c[j] == b[j - |a|];
      }
    }
  }
}
