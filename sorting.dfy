/**
 * A stable sort, as `Array.prototype.sort` with a comparator performs it
 * (stable since ECMAScript 2019). `before(x, y)` holds when the comparator puts
 * `x` strictly ahead of `y`; elements neither ahead of the other keep their
 * input order.
 *
 * `StableSort` is the reference definition (insertion from the right), and
 * `SortInPlace` is the in-place array algorithm proved equal to it.
 */
module Sorting {

  /** The comparator induces a strict weak order: a total preorder on ranks. */
  ghost predicate StrictWeakOrder<T(!new)>(before: (T, T) -> bool) {
    && (forall x :: !before(x, x))
    && (forall x, y, z :: before(x, y) && before(y, z) ==> before(x, z))
    && (forall x, y, z :: !before(x, y) && !before(y, z) ==> !before(x, z))
  }

  /** Neither element goes ahead of the other: they have the same rank. */
  predicate SameRank<T>(before: (T, T) -> bool, x: T, y: T) {
    !before(x, y) && !before(y, x)
  }

  /** No element is placed after one it should precede. */
  ghost predicate SortedBy<T>(s: seq<T>, before: (T, T) -> bool) {
    forall i, j :: 0 <= i < j < |s| ==> !before(s[j], s[i])
  }

  /** The elements of `s` with the same rank as `y`, in their order in `s`. */
  function RankRun<T>(s: seq<T>, y: T, before: (T, T) -> bool): seq<T> {
    if s == [] then []
    else RankRun(s[..|s| - 1], y, before)
         + (if SameRank(before, s[|s| - 1], y) then [s[|s| - 1]] else [])
  }

  /** Places `x` after every element of `s` it does not go ahead of, scanning from the right. */
  function Insert<T>(s: seq<T>, x: T, before: (T, T) -> bool): seq<T>
    decreases |s|
  {
    if s == [] || !before(x, s[|s| - 1]) then s + [x]
    else Insert(s[..|s| - 1], x, before) + [s[|s| - 1]]
  }

  /** The stable sort of `s`: insertion sort from left to right. */
  function StableSort<T>(s: seq<T>, before: (T, T) -> bool): seq<T> {
    if s == [] then []
    else Insert(StableSort(s[..|s| - 1], before), s[|s| - 1], before)
  }

  lemma {:induction false} InsertPermutes<T>(s: seq<T>, x: T, before: (T, T) -> bool)
    ensures multiset(Insert(s, x, before)) == multiset(s) + multiset{x}
    decreases |s|
  {
    if s != [] && before(x, s[|s| - 1]) {
      InsertPermutes(s[..|s| - 1], x, before);
      assert s == s[..|s| - 1] + [s[|s| - 1]];
    }
  }

  /** The sort only reorders: the output is a permutation of the input. */
  lemma {:induction false} StableSortPermutes<T>(s: seq<T>, before: (T, T) -> bool)
    ensures multiset(StableSort(s, before)) == multiset(s)
  {
    if s != [] {
      StableSortPermutes(s[..|s| - 1], before);
      InsertPermutes(StableSort(s[..|s| - 1], before), s[|s| - 1], before);
      assert s == s[..|s| - 1] + [s[|s| - 1]];
    }
  }

  lemma {:induction false} InsertSorted<T(!new)>(s: seq<T>, x: T, before: (T, T) -> bool)
    requires StrictWeakOrder(before)
    requires SortedBy(s, before)
    ensures SortedBy(Insert(s, x, before), before)
    decreases |s|
  {
    if s == [] || !before(x, s[|s| - 1]) {
      forall i | 0 <= i < |s| ensures !before(x, s[i]) {
        if i < |s| - 1 {
          assert !before(s[|s| - 1], s[i]);
        }
      }
      SortedSnoc(s, x, before);
    } else {
      var init := s[..|s| - 1];
      var last := s[|s| - 1];
      assert SortedBy(init, before);
      InsertSorted(init, x, before);
      var r := Insert(init, x, before);
      InsertPermutes(init, x, before);
      forall i | 0 <= i < |r| ensures !before(last, r[i]) {
        var e := r[i];
        assert e in multiset(r);
        if e != x {
          assert e in multiset(init);
          assert e in init;
          var k :| 0 <= k < |init| && init[k] == e;
          assert s[k] == e;
        }
      }
      SortedSnoc(r, last, before);
    }
  }

  /** Appending an element that goes ahead of nothing before it keeps a sequence sorted. */
  lemma SortedSnoc<T>(s: seq<T>, y: T, before: (T, T) -> bool)
    requires SortedBy(s, before)
    requires forall i :: 0 <= i < |s| ==> !before(y, s[i])
    ensures SortedBy(s + [y], before)
  {
    var r := s + [y];
    forall i, j | 0 <= i < j < |r| ensures !before(r[j], r[i]) {
      assert r[i] == s[i];
      if j < |s| {
        assert r[j] == s[j];
      }
    }
  }

  /** The sort puts the elements in order. */
  lemma {:induction false} StableSortSorted<T(!new)>(s: seq<T>, before: (T, T) -> bool)
    requires StrictWeakOrder(before)
    ensures SortedBy(StableSort(s, before), before)
  {
    if s != [] {
      StableSortSorted(s[..|s| - 1], before);
      InsertSorted(StableSort(s[..|s| - 1], before), s[|s| - 1], before);
    }
  }

  lemma {:induction false} RankRunInsert<T(!new)>(s: seq<T>, x: T, y: T, before: (T, T) -> bool)
    requires StrictWeakOrder(before)
    ensures RankRun(Insert(s, x, before), y, before)
         == RankRun(s, y, before) + (if SameRank(before, x, y) then [x] else [])
    decreases |s|
  {
    if s == [] || !before(x, s[|s| - 1]) {
      assert (s + [x])[..|s|] == s;
    } else {
      var init := s[..|s| - 1];
      var last := s[|s| - 1];
      RankRunInsert(init, x, y, before);
      var r := Insert(init, x, before) + [last];
      assert r[..|r| - 1] == Insert(init, x, before);
      // x goes strictly ahead of last, so they cannot both have y's rank
      assert !(SameRank(before, x, y) && SameRank(before, last, y));
    }
  }

  /** Stability: within each rank the sort keeps the input order. */
  lemma {:induction false} StableSortKeepsRankOrder<T(!new)>(s: seq<T>, y: T, before: (T, T) -> bool)
    requires StrictWeakOrder(before)
    ensures RankRun(StableSort(s, before), y, before) == RankRun(s, y, before)
  {
    if s != [] {
      var init := s[..|s| - 1];
      StableSortKeepsRankOrder(init, y, before);
      RankRunInsert(StableSort(init, before), s[|s| - 1], y, before);
    }
  }

  /**
   * The in-place insertion sort. Each pass takes the next element and shifts
   * the already sorted prefix to the right while the element goes strictly
   * ahead of its left neighbour.
   */
  method SortInPlace<T>(a: array<T>, before: (T, T) -> bool)
    modifies a
    ensures a[..] == StableSort(old(a[..]), before)
  {
    ghost var input := a[..];
    var i := 0;
    while i < a.Length
      invariant 0 <= i <= a.Length
      invariant a[..i] == StableSort(input[..i], before)
      invariant a[i..] == input[i..]
    {
      assert a[i] == input[i];
      StableSortStep(input, i, before);
      InsertNext(a, i, before);
      assert a[i + 1..] == input[i + 1..];
      i := i + 1;
    }
    assert input[..a.Length] == input;
  }

  lemma StableSortStep<T>(s: seq<T>, i: nat, before: (T, T) -> bool)
    requires i < |s|
    ensures StableSort(s[..i + 1], before) == Insert(StableSort(s[..i], before), s[i], before)
  {
    assert s[..i + 1][..i] == s[..i];
  }

  /** One pass: `a[..i + 1]` becomes the insertion of `a[i]` into the sorted `a[..i]`. */
  method InsertNext<T>(a: array<T>, i: nat, before: (T, T) -> bool)
    requires i < a.Length
    modifies a
    ensures a[..i + 1] == Insert(old(a[..i]), old(a[i]), before)
    ensures a[i + 1..] == old(a[i + 1..])
  {
    ghost var sorted := a[..i];
    var x := a[i];
    var j := i;
    while j > 0 && before(x, a[j - 1])
      invariant 0 <= j <= i
      invariant forall k :: 0 <= k < j ==> a[k] == sorted[k]
      invariant forall k :: j < k <= i ==> a[k] == sorted[k - 1]
      invariant forall k :: j <= k < i ==> before(x, sorted[k])
      invariant forall k :: i < k < a.Length ==> a[k] == old(a[k])
    {
      a[j] := a[j - 1];
      j := j - 1;
    }
    a[j] := x;
    InsertAfterRun(sorted, x, j, before);
    Shifted(a[..i + 1], sorted, x, j);
  }

  /** A prefix copied, then `x`, then the rest shifted right by one, is `x` spliced in at `j`. */
  lemma Shifted<T>(b: seq<T>, sorted: seq<T>, x: T, j: nat)
    requires |b| == |sorted| + 1 && j <= |sorted|
    requires forall k :: 0 <= k < j ==> b[k] == sorted[k]
    requires b[j] == x
    requires forall k :: j < k < |b| ==> b[k] == sorted[k - 1]
    ensures b == sorted[..j] + [x] + sorted[j..]
  {
    var want := sorted[..j] + [x] + sorted[j..];
    forall k | 0 <= k < |b| ensures b[k] == want[k] {
      if k < j {
        assert want[k] == sorted[k];
      } else if k > j {
        assert want[k] == sorted[k - 1];
      }
    }
  }

  /**
   * Inserting `x` lands it just before the trailing run of elements it goes
   * ahead of.
   */
  lemma {:induction false} InsertAfterRun<T>(s: seq<T>, x: T, j: nat, before: (T, T) -> bool)
    requires j <= |s|
    requires j == 0 || !before(x, s[j - 1])
    requires forall k :: j <= k < |s| ==> before(x, s[k])
    ensures Insert(s, x, before) == s[..j] + [x] + s[j..]
    decreases |s|
  {
    if j < |s| {
      var init := s[..|s| - 1];
      assert init[..j] == s[..j];
      InsertAfterRun(init, x, j, before);
      assert s[j..] == init[j..] + [s[|s| - 1]];
    } else {
      assert s[..j] == s;
    }
  }
}
