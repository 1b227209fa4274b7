/** The counting idiom `counts[k] = (counts[k] || 0) + 1` on a JavaScript object, whose
    keys enumerate in insertion order, and the stable `Array.prototype.sort` applied to
    its entries. */
module Counting {

  /** A counting object: its keys in insertion order and the count of each key. */
  datatype Counter<K> = Counter(order: seq<K>, counts: map<K, nat>)

  /** One `counts[k] = (counts[k] || 0) + 1` step: a new key goes to the end of the order. */
  function Bump<K(==)>(c: Counter<K>, k: K): Counter<K> {
    if k in c.counts then Counter(c.order, c.counts[k := c.counts[k] + 1])
    else Counter(c.order + [k], c.counts[k := 1])
  }

  /** The counter obtained by bumping every element of `xs`, from the first to the last. */
  function CountAll<K(==)>(xs: seq<K>): (c: Counter<K>)
    ensures forall k :: k in c.order ==> k in c.counts
  {
    if xs == [] then Counter([], map[]) else Bump(CountAll(xs[..|xs| - 1]), xs[|xs| - 1])
  }

  /** Counting one more element is one more counting step. */
  lemma CountAllSnoc<K>(xs: seq<K>, x: K)
    ensures CountAll(xs + [x]) == Bump(CountAll(xs), x)
  {
    assert (xs + [x])[..|xs|] == xs;
  }

  /** Counting `before` then the first `j + 1` elements of `xs` bumps the count of `xs[j]`. */
  lemma CountAllExtend<K>(before: seq<K>, xs: seq<K>, j: nat)
    requires j < |xs|
    ensures CountAll(before + xs[..j + 1]) == Bump(CountAll(before + xs[..j]), xs[j])
  {
    assert before + xs[..j + 1] == (before + xs[..j]) + [xs[j]];
    CountAllSnoc(before + xs[..j], xs[j]);
  }

  /** The prefix of length `k + 1` is the prefix of length `k` and the element at `k`. */
  lemma PrefixSnoc<T>(s: seq<T>, k: nat)
    requires k < |s|
    ensures s[..k + 1] == s[..k] + [s[k]]
  {
  }

  predicate Distinct<K(==)>(xs: seq<K>) {
    forall i, j :: 0 <= i < j < |xs| ==> xs[i] != xs[j]
  }

  /** Sum of the counts of the keys listed in `order`. */
  function Total<K(==)>(order: seq<K>, counts: map<K, nat>): int
    requires forall k :: k in order ==> k in counts
  {
    if order == [] then 0 else Total(order[..|order| - 1], counts) + counts[order[|order| - 1]]
  }

  /** The counter's entries, `Object.entries(counts)`. */
  function Entries<K(==)>(c: Counter<K>): (es: seq<(K, nat)>)
    requires forall k :: k in c.order ==> k in c.counts
    ensures |es| == |c.order|
    ensures forall i :: 0 <= i < |es| ==> es[i] == (c.order[i], c.counts[c.order[i]])
  {
    seq(|c.order|, i requires 0 <= i < |c.order| => (c.order[i], c.counts[c.order[i]]))
  }

  /** A well-formed counter of `xs`: the keys are the distinct elements of `xs` in order of
      first occurrence, each counted with its multiplicity, and the counts add up to `|xs|`. */
  predicate Counts<K(==)>(c: Counter<K>, xs: seq<K>) {
    && Distinct(c.order)
    && (forall k :: k in c.order ==> k in c.counts)
    && (forall k :: k in c.counts ==> k in c.order && k in xs)
    && (forall k :: k in xs ==> k in c.counts)
    && (forall k :: k in c.counts ==> c.counts[k] == multiset(xs)[k])
    && Total(c.order, c.counts) == |xs|
  }

  lemma {:induction false} TotalFrame<K>(order: seq<K>, m1: map<K, nat>, m2: map<K, nat>)
    requires forall k :: k in order ==> k in m1 && k in m2 && m1[k] == m2[k]
    ensures Total(order, m1) == Total(order, m2)
  {
    if order != [] {
      TotalFrame(order[..|order| - 1], m1, m2);
    }
  }

  lemma {:induction false} TotalBump<K>(order: seq<K>, m: map<K, nat>, k: K)
    requires Distinct(order) && k in order
    requires forall x :: x in order ==> x in m
    ensures Total(order, m[k := m[k] + 1]) == Total(order, m) + 1
  {
    var init := order[..|order| - 1];
    var last := order[|order| - 1];
    if last == k {
      assert k !in init;
      TotalFrame(init, m, m[k := m[k] + 1]);
    } else {
      assert k in init;
      TotalBump(init, m, k);
    }
  }

  /** The keys of the counter are the distinct elements of `xs`, each listed once. */
  lemma {:induction false} CountAllKeys<K>(xs: seq<K>)
    ensures var c := CountAll(xs);
      && Distinct(c.order)
      && (forall k :: k in c.order ==> k in c.counts)
      && (forall k :: k in c.counts ==> k in c.order && k in xs)
      && (forall k :: k in xs ==> k in c.counts)
  {
    if xs != [] {
      var init := xs[..|xs| - 1];
      assert xs == init + [xs[|xs| - 1]];
      CountAllKeys(init);
    }
  }

  /** Each key is counted with its multiplicity in `xs`. */
  lemma {:induction false} CountAllMultiplicity<K>(xs: seq<K>)
    ensures var c := CountAll(xs);
      forall k :: k in c.counts ==> c.counts[k] == multiset(xs)[k]
  {
    if xs != [] {
      var init := xs[..|xs| - 1];
      assert xs == init + [xs[|xs| - 1]];
      assert multiset(xs) == multiset(init) + multiset{xs[|xs| - 1]};
      CountAllKeys(init);
      CountAllMultiplicity(init);
    }
  }

  /** The counts add up to the number of elements counted. */
  lemma {:induction false} CountAllTotal<K>(xs: seq<K>)
    ensures (forall k :: k in CountAll(xs).order ==> k in CountAll(xs).counts)
    ensures Total(CountAll(xs).order, CountAll(xs).counts) == |xs|
  {
    CountAllKeys(xs);
    if xs != [] {
      var init := xs[..|xs| - 1];
      var x := xs[|xs| - 1];
      CountAllKeys(init);
      CountAllTotal(init);
      BumpTotal(CountAll(init), x);
    }
  }

  lemma BumpTotal<K>(c: Counter<K>, x: K)
    requires Distinct(c.order)
    requires forall k :: k in c.order ==> k in c.counts
    requires forall k :: k in c.counts ==> k in c.order
    ensures forall k :: k in Bump(c, x).order ==> k in Bump(c, x).counts
    ensures Total(Bump(c, x).order, Bump(c, x).counts) == Total(c.order, c.counts) + 1
  {
    if x in c.counts {
      TotalBump(c.order, c.counts, x);
    } else {
      var order, counts := c.order + [x], c.counts[x := 1];
      assert order[..|order| - 1] == c.order && order[|order| - 1] == x;
      assert Total(order, counts) == Total(c.order, counts) + 1;
      TotalFrame(c.order, c.counts, counts);
    }
  }

  /** Counting a sequence yields a well-formed counter of it. */
  lemma CountAllCounts<K>(xs: seq<K>)
    ensures Counts(CountAll(xs), xs)
  {
    CountAllKeys(xs);
    CountAllMultiplicity(xs);
    CountAllTotal(xs);
  }

  /** `Object.keys(counts).length` is the number of distinct elements counted. */
  lemma CountAllEmpty<K>(xs: seq<K>)
    ensures CountAll(xs).order == [] <==> xs == []
  {
    CountAllCounts(xs);
    if xs != [] {
      assert xs[0] in CountAll(xs).counts;
    }
  }

  /** `xs` ordered by `rank`, the lowest rank first; equal ranks keep their relative order. */
  predicate SortedBy<T>(xs: seq<T>, rank: T -> int) {
    forall i, j :: 0 <= i < j < |xs| ==> rank(xs[i]) <= rank(xs[j])
  }

  function InsertBy<T>(x: T, xs: seq<T>, rank: T -> int): (r: seq<T>)
    ensures multiset(r) == multiset(xs) + multiset{x} && |r| == |xs| + 1
  {
    if xs == [] || rank(x) <= rank(xs[0]) then [x] + xs
    else
      assert xs == [xs[0]] + xs[1..];
      [xs[0]] + InsertBy(x, xs[1..], rank)
  }

  /** A stable sort by `rank`: what `Array.prototype.sort` computes with the comparator
      `(a, b) => rank(a) - rank(b)`. */
  function SortBy<T>(xs: seq<T>, rank: T -> int): (r: seq<T>)
    ensures multiset(r) == multiset(xs) && |r| == |xs|
  {
    if xs == [] then []
    else
      assert xs == [xs[0]] + xs[1..];
      InsertBy(xs[0], SortBy(xs[1..], rank), rank)
  }

  lemma {:induction false} InsertBySorted<T>(x: T, xs: seq<T>, rank: T -> int)
    requires SortedBy(xs, rank)
    ensures SortedBy(InsertBy(x, xs, rank), rank)
  {
    if xs != [] && rank(x) > rank(xs[0]) {
      InsertBySorted(x, xs[1..], rank);
      var r := InsertBy(x, xs[1..], rank);
      forall i | 0 <= i < |r|
        ensures rank(xs[0]) <= rank(r[i])
      {
        assert r[i] in multiset(r);
        assert r[i] == x || r[i] in multiset(xs[1..]);
        if r[i] != x {
          var j :| 0 <= j < |xs[1..]| && xs[1..][j] == r[i];
          assert xs[1..][j] == xs[j + 1];
        }
      }
    }
  }

  lemma {:induction false} SortBySorted<T>(xs: seq<T>, rank: T -> int)
    ensures SortedBy(SortBy(xs, rank), rank)
  {
    if xs != [] {
      SortBySorted(xs[1..], rank);
      InsertBySorted(xs[0], SortBy(xs[1..], rank), rank);
    }
  }

  /** The position of the first element of lowest rank: a reference definition of the
      head of a stable sort. */
  function FirstMin<T>(xs: seq<T>, rank: T -> int): (i: nat)
    requires xs != []
    ensures i < |xs|
    ensures forall j :: 0 <= j < |xs| ==> rank(xs[i]) <= rank(xs[j])
    ensures forall j :: 0 <= j < i ==> rank(xs[i]) < rank(xs[j])
  {
    if |xs| == 1 then 0
    else
      var k := FirstMin(xs[1..], rank);
      assert forall j :: 1 <= j < |xs| ==> xs[j] == xs[1..][j - 1];
      if rank(xs[0]) <= rank(xs[1..][k]) then 0 else k + 1
  }

  /** The stable sort puts first the earliest of the elements of lowest rank. */
  lemma {:induction false} SortByHead<T>(xs: seq<T>, rank: T -> int)
    requires xs != []
    ensures SortBy(xs, rank)[0] == xs[FirstMin(xs, rank)]
  {
    if |xs| > 1 {
      SortByHead(xs[1..], rank);
    }
  }

  /** Nothing ranks below the head of the sort. */
  lemma SortByHeadLowest<T>(xs: seq<T>, rank: T -> int, k: nat)
    requires k < |xs|
    ensures rank(SortBy(xs, rank)[0]) <= rank(xs[k])
  {
    SortByHead(xs, rank);
  }

  /** `Object.keys` of a list of entries. */
  function Keys<K>(es: seq<(K, nat)>): (ks: seq<K>)
    ensures |ks| == |es| && forall i :: 0 <= i < |es| ==> ks[i] == es[i].0
  {
    seq(|es|, i requires 0 <= i < |es| => es[i].0)
  }

  /** `Object.values` of a list of entries. */
  function Values<K>(es: seq<(K, nat)>): (vs: seq<nat>)
    ensures |vs| == |es| && forall i :: 0 <= i < |es| ==> vs[i] == es[i].1
  {
    seq(|es|, i requires 0 <= i < |es| => es[i].1)
  }

  function Sum(xs: seq<int>): int {
    if xs == [] then 0 else xs[0] + Sum(xs[1..])
  }

  lemma {:induction false} SumSnoc(xs: seq<int>, x: int)
    ensures Sum(xs + [x]) == Sum(xs) + x
  {
    if xs != [] {
      assert (xs + [x])[1..] == xs[1..] + [x];
      SumSnoc(xs[1..], x);
    }
  }

  /** The values of a counter's entries add up to its total. */
  lemma {:induction false} SumEntries<K>(c: Counter<K>)
    requires forall k :: k in c.order ==> k in c.counts
    ensures Sum(Values(Entries(c))) == Total(c.order, c.counts)
    decreases |c.order|
  {
    if c.order != [] {
      var n := |c.order| - 1;
      var init := Counter(c.order[..n], c.counts);
      SumEntries(init);
      assert Values(Entries(c)) == Values(Entries(init)) + [c.counts[c.order[n]]];
      SumSnoc(Values(Entries(init)), c.counts[c.order[n]]);
    }
  }

  /** The entries of a count of `xs`: distinct keys whose values add up to `|xs|`. */
  lemma CountAllEntries<K>(xs: seq<K>)
    ensures Keys(Entries(CountAll(xs))) == CountAll(xs).order && Distinct(CountAll(xs).order)
    ensures Sum(Values(Entries(CountAll(xs)))) == |xs|
  {
    var c := CountAll(xs);
    CountAllCounts(xs);
    SumEntries(c);
    assert Keys(Entries(c)) == c.order;
  }

  lemma {:induction false} SumInsertBy<K>(x: (K, nat), xs: seq<(K, nat)>, rank: ((K, nat)) -> int)
    ensures Sum(Values(InsertBy(x, xs, rank))) == x.1 + Sum(Values(xs))
  {
    if xs == [] || rank(x) <= rank(xs[0]) {
      assert Values([x] + xs)[1..] == Values(xs);
    } else {
      SumInsertBy(x, xs[1..], rank);
      assert Values([xs[0]] + InsertBy(x, xs[1..], rank))[1..] == Values(InsertBy(x, xs[1..], rank));
      assert Values(xs)[1..] == Values(xs[1..]);
    }
  }

  /** Sorting entries does not change the sum of their values. */
  lemma {:induction false} SumSortBy<K>(xs: seq<(K, nat)>, rank: ((K, nat)) -> int)
    ensures Sum(Values(SortBy(xs, rank))) == Sum(Values(xs))
  {
    if xs != [] {
      SumSortBy(xs[1..], rank);
      SumInsertBy(xs[0], SortBy(xs[1..], rank), rank);
      SumValuesCons(xs);
    }
  }

  lemma SumValuesCons<K>(xs: seq<(K, nat)>)
    requires xs != []
    ensures Sum(Values(xs)) == xs[0].1 + Sum(Values(xs[1..]))
  {
    assert Values(xs)[1..] == Values(xs[1..]);
  }

  /** A sorted element is an element of the input. */
  lemma SortByIndex<T>(xs: seq<T>, rank: T -> int, i: nat)
    requires i < |SortBy(xs, rank)|
    ensures SortBy(xs, rank)[i] in xs
  {
    assert SortBy(xs, rank)[i] in multiset(SortBy(xs, rank));
  }

  /** An element of the input is kept by the sort. */
  lemma SortByContains<T>(xs: seq<T>, rank: T -> int, e: T)
    requires e in xs
    ensures e in SortBy(xs, rank)
  {
    assert e in multiset(xs);
  }

  /** The entries of the count of `xs` are exactly the elements of `xs`, each with its
      multiplicity. */
  lemma CountAllEntriesFaithful<K>(xs: seq<K>)
    ensures forall e :: e in Entries(CountAll(xs)) ==> e.0 in xs && e.1 == multiset(xs)[e.0]
    ensures forall k :: k in xs ==> (k, multiset(xs)[k]) in Entries(CountAll(xs))
  {
    var c := CountAll(xs);
    var es := Entries(c);
    CountAllCounts(xs);
    forall e | e in es
      ensures e.0 in xs && e.1 == multiset(xs)[e.0]
    {
      var j :| 0 <= j < |es| && es[j] == e;
    }
    forall k | k in xs
      ensures (k, multiset(xs)[k]) in es
    {
      var j :| 0 <= j < |c.order| && c.order[j] == k;
      assert es[j] == (k, multiset(xs)[k]);
    }
  }

  /** An element of `xs` missing from the first `n` sorted elements comes after them, so
      there are more than `n` elements and the `n`-th ranks no higher than it. */
  lemma SortByOmitted<T>(xs: seq<T>, rank: T -> int, n: nat, e: T)
    requires e in xs && 0 < n
    requires forall i :: 0 <= i < n && i < |SortBy(xs, rank)| ==> SortBy(xs, rank)[i] != e
    ensures n < |xs| && rank(SortBy(xs, rank)[n - 1]) <= rank(e)
  {
    var sorted := SortBy(xs, rank);
    SortByContains(xs, rank, e);
    SortBySorted(xs, rank);
    var p :| 0 <= p < |sorted| && sorted[p] == e;
    assert n - 1 < p;
  }

  /** An element of `xs` whose entry is not among the first `n` sorted entries of its count
      comes after them: there are more than `n` entries, none of them ranked above it. */
  lemma SortedCountsOmitted<K>(xs: seq<K>, rank: ((K, nat)) -> int, n: nat, k: K)
    requires k in xs && 0 < n
    requires forall i :: 0 <= i < n && i < |SortBy(Entries(CountAll(xs)), rank)| ==>
      SortBy(Entries(CountAll(xs)), rank)[i].0 != k
    ensures var sorted := SortBy(Entries(CountAll(xs)), rank);
      n < |sorted| && forall i :: 0 <= i < n ==> rank(sorted[i]) <= rank((k, multiset(xs)[k]))
  {
    var es := Entries(CountAll(xs));
    var sorted := SortBy(es, rank);
    var e := (k, multiset(xs)[k]);
    CountAllEntriesFaithful(xs);
    assert e in es;
    forall i | 0 <= i < n && i < |sorted|
      ensures sorted[i] != e
    {
      assert sorted[i].0 != k;
    }
    SortByOmitted(es, rank, n, e);
    SortBySorted(es, rank);
  }

  /** Each sorted entry of the count of `xs` is an element of `xs` with its multiplicity. */
  lemma SortedEntriesFaithful<K>(xs: seq<K>, rank: ((K, nat)) -> int)
    ensures var sorted := SortBy(Entries(CountAll(xs)), rank);
      forall i :: 0 <= i < |sorted| ==> sorted[i].0 in xs && sorted[i].1 == multiset(xs)[sorted[i].0]
  {
    var es := Entries(CountAll(xs));
    var sorted := SortBy(es, rank);
    CountAllEntriesFaithful(xs);
    forall i | 0 <= i < |sorted|
      ensures sorted[i].0 in xs && sorted[i].1 == multiset(xs)[sorted[i].0]
    {
      SortByIndex(es, rank, i);
    }
  }

  /** A prefix of the sorted entries of the count of `xs` is sorted, and each of its entries
      is an element of `xs` with its multiplicity. */
  lemma SortedCountsPrefix<K>(xs: seq<K>, rank: ((K, nat)) -> int, top: seq<(K, nat)>)
    requires var sorted := SortBy(Entries(CountAll(xs)), rank);
      |top| <= |sorted| && top == sorted[..|top|]
    ensures SortedBy(top, rank)
    ensures forall i :: 0 <= i < |top| ==> top[i].0 in xs && top[i].1 == multiset(xs)[top[i].0]
  {
    var es := Entries(CountAll(xs));
    SortBySorted(es, rank);
    SortedEntriesFaithful(xs, rank);
  }

  /** Each element of `xs` is the key of a sorted entry of its count. */
  lemma SortedEntriesComplete<K>(xs: seq<K>, rank: ((K, nat)) -> int)
    ensures forall k :: k in xs ==> k in Keys(SortBy(Entries(CountAll(xs)), rank))
  {
    var es := Entries(CountAll(xs));
    var sorted := SortBy(es, rank);
    CountAllEntriesFaithful(xs);
    forall k | k in xs
      ensures k in Keys(sorted)
    {
      SortByContains(es, rank, (k, multiset(xs)[k]));
      var i :| 0 <= i < |sorted| && sorted[i] == (k, multiset(xs)[k]);
      assert Keys(sorted)[i] == k;
    }
  }

  /** Sorting the entries of the counter of `xs` keeps each element of `xs` once with its
      multiplicity, and the counts still add up to `|xs|`. */
  lemma SortedCounts<K>(xs: seq<K>, rank: ((K, nat)) -> int)
    ensures var sorted := SortBy(Entries(CountAll(xs)), rank);
      && (forall k :: k in Keys(sorted) <==> k in xs)
      && (forall i :: 0 <= i < |sorted| ==> sorted[i].1 == multiset(xs)[sorted[i].0])
      && Sum(Values(sorted)) == |xs|
  {
    var es := Entries(CountAll(xs));
    var sorted := SortBy(es, rank);
    CountAllEntries(xs);
    SumSortBy(es, rank);
    SortedEntriesFaithful(xs, rank);
    SortedEntriesComplete(xs, rank);
    forall k | k in Keys(sorted)
      ensures k in xs
    {
      var i :| 0 <= i < |sorted| && Keys(sorted)[i] == k;
    }
  }
}
