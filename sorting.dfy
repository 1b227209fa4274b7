/** `Array.prototype.sort` with a comparator, in place: a stable insertion sort. */
module Sorting {

  /** A comparator that `Array.prototype.sort` can rely on: a pair out of order is in order
      once swapped, and being in order is transitive. */
  ghost predicate Consistent<T(!new)>(cmp: (T, T) -> int) {
    && (forall x, y :: cmp(x, y) > 0 ==> cmp(y, x) < 0)
    && (forall x, y, z {:trigger Chained(cmp, x, y, z)} :: Chained(cmp, x, y, z) ==> cmp(x, z) <= 0)
  }

  /** `x`, `y`, `z` are in order by `cmp`, two by two. */
  ghost predicate Chained<T>(cmp: (T, T) -> int, x: T, y: T, z: T) {
    cmp(x, y) <= 0 && cmp(y, z) <= 0
  }

  predicate SortedWith<T>(xs: seq<T>, cmp: (T, T) -> int) {
    forall i, j :: 0 <= i < j < |xs| ==> cmp(xs[i], xs[j]) <= 0
  }

  /** A stable insertion sort by a consistent comparator; when every pair compares equal
      nothing moves. */
  method InsertionSort<T(!new)>(a: array<T>, cmp: (T, T) -> int)
    requires Consistent(cmp)
    modifies a
    ensures SortedWith(a[..], cmp)
    ensures multiset(a[..]) == multiset(old(a[..]))
    ensures (forall i, j :: 0 <= i < a.Length && 0 <= j < a.Length ==> cmp(old(a[i]), old(a[j])) == 0) ==>
      a[..] == old(a[..])
  {
    if a.Length == 0 {
      return;
    }
    ghost var tied := forall i, j :: 0 <= i < a.Length && 0 <= j < a.Length ==> cmp(a[i], a[j]) == 0;
    var i := 1;
    while i < a.Length
      invariant 1 <= i <= a.Length
      invariant SortedWith(a[..i], cmp)
      invariant multiset(a[..]) == multiset(old(a[..]))
      invariant tied ==> a[..] == old(a[..])
    {
      SinkLast(a, i, cmp);
      i := i + 1;
    }
    assert a[..i] == a[..];
  }

  /** One insertion step: `a[i]` moves left past every element that must follow it. */
  method SinkLast<T(!new)>(a: array<T>, i: int, cmp: (T, T) -> int)
    requires Consistent(cmp)
    requires 0 < i < a.Length
    requires SortedWith(a[..i], cmp)
    modifies a
    ensures SortedWith(a[..i + 1], cmp)
    ensures multiset(a[..]) == multiset(old(a[..]))
    ensures cmp(old(a[i - 1]), old(a[i])) <= 0 ==> a[..] == old(a[..])
  {
    var j := i;
    while j > 0 && cmp(a[j - 1], a[j]) > 0
      invariant 0 <= j <= i
      invariant multiset(a[..]) == multiset(old(a[..]))
      invariant SortedExcept(a[..], i, j, cmp)
      invariant j == i ==> a[..] == old(a[..])
      invariant j < i ==> cmp(old(a[i - 1]), old(a[i])) > 0
    {
      ghost var before := a[..];
      a[j - 1], a[j] := a[j], a[j - 1];
      SwapStep(before, a[..], i, j, cmp);
      j := j - 1;
    }
    SunkIsSorted(a[..], i, j, cmp);
  }

  /** The first `i + 1` elements are sorted except for the one at `j`, which is in order with
      every element after it. */
  ghost predicate SortedExcept<T>(s: seq<T>, i: int, j: int, cmp: (T, T) -> int)
    requires 0 <= j <= i < |s|
  {
    && (forall p, q :: 0 <= p < q <= i && q != j ==> cmp(s[p], s[q]) <= 0)
    && (forall q :: j < q <= i ==> cmp(s[j], s[q]) <= 0)
  }

  /** Swapping the element at `j` with a predecessor that must follow it moves the exception
      one place left and keeps the elements. */
  lemma SwapStep<T(!new)>(s: seq<T>, t: seq<T>, i: int, j: int, cmp: (T, T) -> int)
    requires Consistent(cmp)
    requires 0 < j <= i < |s|
    requires SortedExcept(s, i, j, cmp)
    requires cmp(s[j - 1], s[j]) > 0
    requires t == s[j - 1 := s[j]][j := s[j - 1]]
    ensures SortedExcept(t, i, j - 1, cmp)
    ensures multiset(t) == multiset(s)
  {
  }

  /** Once the moving element rests at `j`, the first `i + 1` elements are sorted. */
  lemma SunkIsSorted<T(!new)>(s: seq<T>, i: int, j: int, cmp: (T, T) -> int)
    requires Consistent(cmp)
    requires 0 <= j <= i < |s|
    requires SortedExcept(s, i, j, cmp)
    requires j == 0 || cmp(s[j - 1], s[j]) <= 0
    ensures SortedWith(s[..i + 1], cmp)
  {
    forall p, q | 0 <= p < q <= i
      ensures cmp(s[p], s[q]) <= 0
    {
      if q == j && p < j - 1 {
        assert Chained(cmp, s[p], s[j - 1], s[j]);
      }
    }
  }
}
