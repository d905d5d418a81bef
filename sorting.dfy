/**
 * `Array.prototype.filter` and `Array.prototype.sort` over lists of any
 * element type. The sort is specified as the stable insertion sort that
 * processes the list from left to right, under a comparator whose sign says
 * which element goes first; it is also carried out in place on an array.
 */
module Sorting {

  // ----------------------------------------------------------------- filter

  /** `s.filter(p)`: the elements satisfying p, in their original order. */
  function Filter<T>(s: seq<T>, p: T -> bool): (r: seq<T>)
    ensures |r| <= |s|
  {
    if s == [] then []
    else if p(s[|s| - 1]) then Filter(s[..|s| - 1], p) + [s[|s| - 1]]
    else Filter(s[..|s| - 1], p)
  }

  /** The positions of s whose element satisfies p, in increasing order. */
  function KeptPositions<T>(s: seq<T>, p: T -> bool): (idx: seq<nat>)
    ensures forall k :: 0 <= k < |idx| ==> idx[k] < |s| && p(s[idx[k]])
    ensures forall k, l :: 0 <= k < l < |idx| ==> idx[k] < idx[l]
    ensures forall i :: 0 <= i < |s| && p(s[i]) ==> i in idx
  {
    if s == [] then []
    else
      var init := KeptPositions(s[..|s| - 1], p);
      assert forall k :: 0 <= k < |init| ==> s[..|s| - 1][init[k]] == s[init[k]];
      if p(s[|s| - 1]) then init + [|s| - 1] else init
  }

  /**
   * Filtering keeps the surviving elements in their input order: its result
   * is s read at the kept positions, from left to right.
   */
  lemma {:induction false} FilterIsSubsequence<T>(s: seq<T>, p: T -> bool)
    ensures |Filter(s, p)| == |KeptPositions(s, p)|
    ensures forall k :: 0 <= k < |Filter(s, p)| ==> Filter(s, p)[k] == s[KeptPositions(s, p)[k]]
  {
    if s != [] {
      var init := s[..|s| - 1];
      FilterIsSubsequence(init, p);
      var before, idx := Filter(init, p), KeptPositions(init, p);
      forall k | 0 <= k < |before| ensures before[k] == s[idx[k]] {
        assert init[idx[k]] == s[idx[k]];
      }
      if p(s[|s| - 1]) {
        assert Filter(s, p) == before + [s[|s| - 1]];
        assert KeptPositions(s, p) == idx + [|s| - 1];
      } else {
        assert Filter(s, p) == before;
        assert KeptPositions(s, p) == idx;
      }
    }
  }

  /** Filtering keeps each element that satisfies p as often as it occurs, and drops the others. */
  lemma {:induction false} FilterCounts<T>(s: seq<T>, p: T -> bool)
    ensures forall x :: multiset(Filter(s, p))[x] == if p(x) then multiset(s)[x] else 0
  {
    if s != [] {
      FilterCounts(s[..|s| - 1], p);
      assert s == s[..|s| - 1] + [s[|s| - 1]];
    }
  }

  /** Every element filtering keeps comes from s and satisfies p. */
  lemma FilterKeeps<T>(s: seq<T>, p: T -> bool)
    ensures forall k :: 0 <= k < |Filter(s, p)| ==> p(Filter(s, p)[k]) && Filter(s, p)[k] in s
  {
    FilterCounts(s, p);
    forall k | 0 <= k < |Filter(s, p)| ensures p(Filter(s, p)[k]) && Filter(s, p)[k] in s {
      assert Filter(s, p)[k] in multiset(Filter(s, p));
    }
  }

  /** Filtering with a predicate that holds for every element keeps the list as it is. */
  lemma {:induction false} FilterAll<T>(s: seq<T>, p: T -> bool)
    requires forall k :: 0 <= k < |s| ==> p(s[k])
    ensures Filter(s, p) == s
  {
    if s != [] {
      var init := s[..|s| - 1];
      FilterAll(init, p);
      assert Filter(s, p) == init + [s[|s| - 1]];
      assert s == init + [s[|s| - 1]];
    }
  }

  /** Filtering depends only on which elements the predicate keeps. */
  lemma {:induction false} FilterSamePredicate<T>(s: seq<T>, p: T -> bool, q: T -> bool)
    requires forall k :: 0 <= k < |s| ==> p(s[k]) == q(s[k])
    ensures Filter(s, p) == Filter(s, q)
  {
    if s != [] {
      FilterSamePredicate(s[..|s| - 1], p, q);
    }
  }

  /** Two filters in a row keep, in order, the elements that satisfy both. */
  lemma {:induction false} FilterFilter<T>(s: seq<T>, p: T -> bool, q: T -> bool, both: T -> bool)
    requires forall k :: 0 <= k < |s| ==> both(s[k]) == (p(s[k]) && q(s[k]))
    ensures Filter(Filter(s, p), q) == Filter(s, both)
  {
    if s != [] {
      FilterFilter(s[..|s| - 1], p, q, both);
      var init := Filter(s[..|s| - 1], p);
      if p(s[|s| - 1]) {
        assert (init + [s[|s| - 1]])[..|init|] == init;
      }
    }
  }

  // -------------------------------------------------------------- ordering

  /** cmp orders the members of elems totally and transitively (ties allowed). */
  ghost predicate PreorderOn<T>(cmp: (T, T) -> int, elems: iset<T>) {
    && (forall a, b, c :: a in elems && b in elems && c in elems && cmp(a, b) <= 0 && cmp(b, c) <= 0 ==> cmp(a, c) <= 0)
    && (forall a, b :: a in elems && b in elems ==> cmp(a, b) <= 0 || cmp(b, a) <= 0)
  }

  /** Every element of s lies in elems. */
  ghost predicate Within<T>(s: seq<T>, elems: iset<T>) {
    forall k :: 0 <= k < |s| ==> s[k] in elems
  }

  /** Ascending under cmp: no element compares greater than a later one. */
  predicate SortedBy<T>(s: seq<T>, cmp: (T, T) -> int) {
    forall i, j :: 0 <= i < j < |s| ==> cmp(s[i], s[j]) <= 0
  }

  // ------------------------------------------------------ the sort, as values

  /**
   * Inserting x into a sorted list from the right: x passes exactly the
   * trailing elements that compare greater than it, so equal elements keep
   * their order.
   */
  function InsertBy<T>(s: seq<T>, x: T, cmp: (T, T) -> int): (r: seq<T>)
    ensures |r| == |s| + 1
  {
    if s == [] then [x]
    else if cmp(s[|s| - 1], x) > 0 then InsertBy(s[..|s| - 1], x, cmp) + [s[|s| - 1]]
    else s + [x]
  }

  /** `s.sort(cmp)`, as the stable insertion sort that processes s from left to right. */
  function SortBy<T>(s: seq<T>, cmp: (T, T) -> int): (r: seq<T>)
    ensures |r| == |s|
  {
    if s == [] then [] else InsertBy(SortBy(s[..|s| - 1], cmp), s[|s| - 1], cmp)
  }

  /** Inserting adds x and loses nothing. */
  lemma {:induction false} InsertByPermutes<T>(s: seq<T>, x: T, cmp: (T, T) -> int)
    ensures multiset(InsertBy(s, x, cmp)) == multiset(s) + multiset{x}
  {
    if s != [] {
      assert s == s[..|s| - 1] + [s[|s| - 1]];
      if cmp(s[|s| - 1], x) > 0 {
        InsertByPermutes(s[..|s| - 1], x, cmp);
      }
    }
  }

  /** The sort's result is a permutation of its input. */
  lemma {:induction false} SortByPermutes<T>(s: seq<T>, cmp: (T, T) -> int)
    ensures multiset(SortBy(s, cmp)) == multiset(s)
  {
    if s != [] {
      assert s == s[..|s| - 1] + [s[|s| - 1]];
      SortByPermutes(s[..|s| - 1], cmp);
      InsertByPermutes(SortBy(s[..|s| - 1], cmp), s[|s| - 1], cmp);
    }
  }

  /** Appending an element that no element of a sorted list exceeds keeps it sorted. */
  lemma AppendKeepsSorted<T>(s: seq<T>, y: T, cmp: (T, T) -> int)
    requires SortedBy(s, cmp)
    requires forall k :: 0 <= k < |s| ==> cmp(s[k], y) <= 0
    ensures SortedBy(s + [y], cmp)
  {
    var r := s + [y];
    forall i, j | 0 <= i < j < |r| ensures cmp(r[i], r[j]) <= 0 {
      if j == |s| {
        assert r[i] == s[i] && r[j] == y;
      } else {
        assert r[i] == s[i] && r[j] == s[j];
      }
    }
  }

  /** A permutation of a list within elems is itself within elems. */
  lemma PermutationWithin<T>(s: seq<T>, r: seq<T>, elems: iset<T>)
    requires Within(s, elems) && multiset(r) == multiset(s)
    ensures Within(r, elems)
  {
    forall k | 0 <= k < |r| ensures r[k] in elems {
      assert r[k] in multiset(s);
      var i :| 0 <= i < |s| && s[i] == r[k];
    }
  }

  /** Every element of a permutation of init plus x stays at or below y when they all do. */
  lemma PermutationBelow<T>(r: seq<T>, init: seq<T>, x: T, y: T, cmp: (T, T) -> int)
    requires multiset(r) == multiset(init) + multiset{x}
    requires forall k :: 0 <= k < |init| ==> cmp(init[k], y) <= 0
    requires cmp(x, y) <= 0
    ensures forall k :: 0 <= k < |r| ==> cmp(r[k], y) <= 0
  {
    forall k | 0 <= k < |r| ensures cmp(r[k], y) <= 0 {
      assert r[k] in multiset(init) + multiset{x};
      if r[k] != x {
        var i :| 0 <= i < |init| && init[i] == r[k];
      }
    }
  }

  lemma {:induction false} InsertKeepsSorted<T>(s: seq<T>, x: T, cmp: (T, T) -> int, elems: iset<T>)
    requires SortedBy(s, cmp) && PreorderOn(cmp, elems)
    requires x in elems && Within(s, elems)
    ensures SortedBy(InsertBy(s, x, cmp), cmp)
  {
    if s != [] {
      var last := s[|s| - 1];
      var init := s[..|s| - 1];
      assert forall k :: 0 <= k < |init| ==> init[k] == s[k];
      if cmp(last, x) > 0 {
        InsertKeepsSorted(init, x, cmp, elems);
        InsertByPermutes(init, x, cmp);
        assert last in elems;
        PermutationBelow(InsertBy(init, x, cmp), init, x, last, cmp);
        AppendKeepsSorted(InsertBy(init, x, cmp), last, cmp);
      } else {
        forall k | 0 <= k < |s| ensures cmp(s[k], x) <= 0 {
          if k < |s| - 1 {
            assert cmp(s[k], last) <= 0;
            assert s[k] in elems && last in elems;
          }
        }
        AppendKeepsSorted(s, x, cmp);
      }
    }
  }

  /** The sort's result is ascending under any cmp that is a preorder on its elements. */
  lemma {:induction false} SortBySorted<T>(s: seq<T>, cmp: (T, T) -> int, elems: iset<T>)
    requires PreorderOn(cmp, elems) && Within(s, elems)
    ensures SortedBy(SortBy(s, cmp), cmp)
  {
    if s != [] {
      var init := s[..|s| - 1];
      assert Within(init, elems);
      SortBySorted(init, cmp, elems);
      SortByPermutes(init, cmp);
      PermutationWithin(init, SortBy(init, cmp), elems);
      InsertKeepsSorted(SortBy(init, cmp), s[|s| - 1], cmp, elems);
    }
  }

  /** Inserting an element that no element exceeds puts it at the end. */
  lemma InsertAtEnd<T>(s: seq<T>, x: T, cmp: (T, T) -> int)
    requires s != [] ==> cmp(s[|s| - 1], x) <= 0
    ensures InsertBy(s, x, cmp) == s + [x]
  {
  }

  /** Sorting a list that is already in order changes nothing, so sorting twice is sorting once. */
  lemma {:induction false} SortedUnchanged<T>(s: seq<T>, cmp: (T, T) -> int)
    requires SortedBy(s, cmp)
    ensures SortBy(s, cmp) == s
  {
    if s != [] {
      var init := s[..|s| - 1];
      assert SortedBy(init, cmp);
      SortedUnchanged(init, cmp);
      if |init| > 0 {
        assert cmp(init[|init| - 1], s[|s| - 1]) <= 0;
      }
      InsertAtEnd(init, s[|s| - 1], cmp);
      assert s == init + [s[|s| - 1]];
    }
  }

  /**
   * Inserting x keeps the kept elements in order, x behind them, provided no
   * kept element of s compares greater than a kept x.
   */
  lemma {:induction false} InsertByStable<T>(s: seq<T>, x: T, cmp: (T, T) -> int, keep: T -> bool)
    requires forall k :: 0 <= k < |s| && keep(s[k]) && keep(x) ==> cmp(s[k], x) <= 0
    ensures Filter(InsertBy(s, x, cmp), keep) == Filter(s, keep) + (if keep(x) then [x] else [])
  {
    if s == [] {
      assert Filter([x], keep) == Filter([], keep) + (if keep(x) then [x] else []);
    } else {
      var init, last := s[..|s| - 1], s[|s| - 1];
      if cmp(last, x) > 0 {
        InsertByStable(init, x, cmp, keep);
        var ins := InsertBy(init, x, cmp);
        assert InsertBy(s, x, cmp) == ins + [last];
        assert (ins + [last])[..|ins|] == ins;
      } else {
        assert (s + [x])[..|s|] == s;
      }
    }
  }

  /**
   * The sort is stable: elements that keep selects, and that all tie with one
   * another, come out in their input order.
   */
  lemma {:induction false} SortByStable<T>(s: seq<T>, cmp: (T, T) -> int, keep: T -> bool)
    requires forall i, j :: 0 <= i < |s| && 0 <= j < |s| && keep(s[i]) && keep(s[j]) ==> cmp(s[i], s[j]) <= 0
    ensures Filter(SortBy(s, cmp), keep) == Filter(s, keep)
  {
    if s != [] {
      var init, last := s[..|s| - 1], s[|s| - 1];
      assert forall k :: 0 <= k < |init| ==> init[k] == s[k];
      SortByStable(init, cmp, keep);
      var sorted := SortBy(init, cmp);
      forall k | 0 <= k < |sorted| && keep(sorted[k]) && keep(last) ensures cmp(sorted[k], last) <= 0 {
        SortByPermutes(init, cmp);
        assert sorted[k] in multiset(init);
        var i :| 0 <= i < |init| && init[i] == sorted[k];
        assert s[i] == sorted[k] && s[|s| - 1] == last;
      }
      InsertByStable(sorted, last, cmp, keep);
    }
  }

  /** The elements equivalent to y under cmp: neither compares greater than the other. */
  function TiedWith<T(!new)>(cmp: (T, T) -> int, y: T): (p: T -> bool)
    ensures forall x :: p(x) <==> cmp(x, y) <= 0 && cmp(y, x) <= 0
  {
    x => cmp(x, y) <= 0 && cmp(y, x) <= 0
  }

  /** Under a preorder, the elements tied with any y leave the sort in their input order. */
  lemma SortByKeepsTiesInOrder<T(!new)>(s: seq<T>, cmp: (T, T) -> int, elems: iset<T>, y: T)
    requires PreorderOn(cmp, elems) && Within(s, elems) && y in elems
    ensures Filter(SortBy(s, cmp), TiedWith(cmp, y)) == Filter(s, TiedWith(cmp, y))
  {
    var tied := TiedWith(cmp, y);
    forall i, j | 0 <= i < |s| && 0 <= j < |s| && tied(s[i]) && tied(s[j]) ensures cmp(s[i], s[j]) <= 0 {
      assert s[i] in elems && s[j] in elems;
    }
    SortByStable(s, cmp, tied);
  }

  // -------------------------------------------------- the sort, in place

  /**
   * Inserting x puts it behind the longest run of trailing elements of p that
   * compare greater than it.
   */
  lemma {:induction false} InsertPlace<T>(p: seq<T>, x: T, cmp: (T, T) -> int, j: int)
    requires 0 <= j <= |p|
    requires j > 0 ==> cmp(p[j - 1], x) <= 0
    requires forall k :: j <= k < |p| ==> cmp(p[k], x) > 0
    ensures InsertBy(p, x, cmp) == p[..j] + [x] + p[j..]
    decreases |p|
  {
    if j == |p| {
      InsertAtEnd(p, x, cmp);
      assert p[..j] == p;
    } else {
      var init, last := p[..|p| - 1], p[|p| - 1];
      assert InsertBy(init, x, cmp) == init[..j] + [x] + init[j..] by {
        InsertPlace(init, x, cmp, j);
      }
      assert InsertBy(p, x, cmp) == InsertBy(init, x, cmp) + [last];
      assert init[..j] == p[..j] && p[j..] == init[j..] + [last];
    }
  }

  /** Shifts a[i] left past the trailing elements of a[..i] that compare greater than it. */
  method InsertInPlace<T>(a: array<T>, i: int, cmp: (T, T) -> int)
    requires 0 <= i < a.Length
    modifies a
    ensures a[..i + 1] == InsertBy(old(a[..i]), old(a[i]), cmp)
    ensures forall k :: i < k < a.Length ==> a[k] == old(a[k])
  {
    ghost var p := a[..i];
    var x := a[i];
    var j := i;
    while j > 0 && cmp(a[j - 1], x) > 0
      invariant 0 <= j <= i
      invariant forall k :: 0 <= k < j ==> a[k] == p[k]
      invariant forall k :: j < k <= i ==> a[k] == p[k - 1]
      invariant forall k :: j <= k < i ==> cmp(p[k], x) > 0
      invariant forall k :: i < k < a.Length ==> a[k] == old(a[k])
    {
      a[j] := a[j - 1];
      j := j - 1;
    }
    a[j] := x;
    assert a[..i + 1] == InsertBy(p, x, cmp) by {
      InsertPlace(p, x, cmp, j);
      assert a[..i + 1] == p[..j] + [x] + p[j..];
    }
  }

  /** `a.sort(cmp)` on an array, by insertion. */
  method SortInPlace<T>(a: array<T>, cmp: (T, T) -> int)
    modifies a
    ensures a[..] == SortBy(old(a[..]), cmp)
  {
    ghost var s := a[..];
    var i := 0;
    while i < a.Length
      invariant 0 <= i <= a.Length
      invariant a[..i] == SortBy(s[..i], cmp)
      invariant forall k :: i <= k < a.Length ==> a[k] == s[k]
    {
      assert s[..i + 1] == s[..i] + [s[i]];
      assert s[..i + 1][..i] == s[..i];
      InsertInPlace(a, i, cmp);
      i := i + 1;
    }
    assert a[..] == a[..a.Length];
    assert s == s[..a.Length];
  }
}
