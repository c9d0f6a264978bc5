/** The context lengths the operational matrix has one row each for: the four
    fixed sampling points, plus the configured context length when it is not
    one of them, sorted ascending. display_report builds the list in place, by
    `append` and `sort`; the sort is modelled as an in-place insertion sort. */
module Levels {

  /** The fixed sampling points, in tokens. */
  const StandardLevels: seq<int> := [8192, 32768, 65536, 131072]

  ghost predicate Sorted(s: seq<int>) {
    forall i, j :: 0 <= i < j < |s| ==> s[i] <= s[j]
  }

  ghost predicate StrictlyIncreasing(s: seq<int>) {
    forall i, j :: 0 <= i < j < |s| ==> s[i] < s[j]
  }

  ghost predicate Distinct(s: seq<int>) {
    forall i, j :: 0 <= i < j < |s| ==> s[i] != s[j]
  }

  /** The shape of the finished list: ascending without repeats, holding the
      four standard levels and the configured length and nothing else, with
      the configured length exactly once. */
  ghost predicate IsLevelList(levels: seq<int>, contextLen: int) {
    && StrictlyIncreasing(levels)
    && (forall x :: x in levels <==> x in StandardLevels || x == contextLen)
    && multiset(levels)[contextLen] == 1
    && |levels| == (if contextLen in StandardLevels then 4 else 5)
  }

  /** The elements of `a` at positions `lo` up to `hi` (exclusive) ascend. */
  ghost predicate SortedBetween(a: array<int>, lo: int, hi: int)
    reads a
    requires 0 <= lo <= hi <= a.Length
  {
    forall p, q :: lo <= p < q < hi ==> a[p] <= a[q]
  }

  /** Sorts `a` ascending in place, keeping its elements. */
  method SortInPlace(a: array<int>)
    modifies a
    ensures Sorted(a[..])
    ensures multiset(a[..]) == old(multiset(a[..]))
  {
    var i := 0;
    while i < a.Length
      invariant 0 <= i <= a.Length
      invariant SortedBetween(a, 0, i)
      invariant multiset(a[..]) == old(multiset(a[..]))
    {
      InsertAt(a, i);
      i := i + 1;
    }
  }

  /** One insertion-sort step: moves `a[i]` left past every larger element,
      so that the first `i + 1` elements ascend. */
  method InsertAt(a: array<int>, i: int)
    requires 0 <= i < a.Length && SortedBetween(a, 0, i)
    modifies a
    ensures SortedBetween(a, 0, i + 1)
    ensures multiset(a[..]) == old(multiset(a[..]))
  {
    var j := i;
    while j > 0 && a[j - 1] > a[j]
      invariant 0 <= j <= i
      invariant SortedBetween(a, 0, j) && SortedBetween(a, j, i + 1)
      invariant forall p, q :: 0 <= p < j < q <= i ==> a[p] <= a[q]
      invariant multiset(a[..]) == old(multiset(a[..]))
    {
      a[j - 1], a[j] := a[j], a[j - 1];
      j := j - 1;
    }
  }

  /** `ctx_levels`: the standard levels, the configured length appended when
      it is not among them, then sorted. */
  method BuildLevels(contextLen: int) returns (levels: seq<int>)
    ensures IsLevelList(levels, contextLen)
  {
    var list := StandardLevels;
    if contextLen !in list {
      list := list + [contextLen];
    }
    assert Distinct(list);
    var a := new int[|list|](i requires 0 <= i < |list| => list[i]);
    assert a[..] == list;
    SortInPlace(a);
    levels := a[..];
    SortedPermutationOfDistinct(levels, list);
    assert forall x :: x in levels <==> x in list by {
      forall x ensures x in levels <==> x in list {
        assert x in levels <==> x in multiset(levels);
        assert x in list <==> x in multiset(list);
      }
    }
    DistinctCount(list, contextLen);
  }

  /** In a list without repeats every value occurs at most once. */
  lemma {:induction false} DistinctCount(s: seq<int>, x: int)
    requires Distinct(s)
    ensures multiset(s)[x] == if x in s then 1 else 0
  {
    if s != [] {
      assert s == [s[0]] + s[1..];
      assert Distinct(s[1..]);
      DistinctCount(s[1..], x);
      assert s[0] !in s[1..];
    }
  }

  /** A value at two different positions occurs at least twice. */
  lemma TwiceAtTwoPositions(s: seq<int>, i: int, j: int)
    requires 0 <= i < j < |s| && s[i] == s[j]
    ensures multiset(s)[s[i]] >= 2
  {
    assert s == s[..j] + s[j..];
    assert s[i] in s[..j];
    assert s[j] in s[j..];
  }

  /** Sorting a list without repeats yields a strictly increasing list. */
  lemma SortedPermutationOfDistinct(s: seq<int>, t: seq<int>)
    requires Sorted(s) && Distinct(t) && multiset(s) == multiset(t)
    ensures StrictlyIncreasing(s) && |s| == |t|
  {
    assert |s| == |multiset(s)| == |multiset(t)| == |t|;
    forall i, j | 0 <= i < j < |s| ensures s[i] < s[j] {
      if s[i] == s[j] {
        TwiceAtTwoPositions(s, i, j);
        DistinctCount(t, s[i]);
        assert false;
      }
    }
  }
}
