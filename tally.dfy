/**
 * Tallies: how often a value occurs (`list.count`, `value_counts`, `np.unique(...,
 * return_counts=True)`, the JavaScript `sumCounts` object), the ascending list of the
 * distinct values a tally is reported by, and the table of (value, count) bins with the
 * relative frequencies derived from it.
 */
module Tally {
  import opened Sequences

  /** How often v occurs in xs. */
  function Count<T(==)>(xs: seq<T>, v: T): (r: nat)
    ensures r == multiset(xs)[v]
  {
    if xs == [] then 0
    else
      assert xs == xs[..|xs| - 1] + [xs[|xs| - 1]];
      Count(xs[..|xs| - 1], v) + (if xs[|xs| - 1] == v then 1 else 0)
  }

  /** The counts of every key of `keys` added up. */
  function CountAll<T(==)>(xs: seq<T>, keys: seq<T>): nat {
    if keys == [] then 0
    else CountAll(xs, keys[..|keys| - 1]) + Count(xs, keys[|keys| - 1])
  }

  /** How many elements of xs are among `keys`. */
  function CountAmong<T(==)>(xs: seq<T>, keys: seq<T>): nat {
    if xs == [] then 0
    else CountAmong(xs[..|xs| - 1], keys) + (if xs[|xs| - 1] in keys then 1 else 0)
  }

  /** How many elements of xs lie in [lo, hi]. */
  function InRangeCount(xs: seq<int>, lo: int, hi: int): nat {
    if xs == [] then 0
    else InRangeCount(xs[..|xs| - 1], lo, hi) + (if lo <= xs[|xs| - 1] <= hi then 1 else 0)
  }

  /** One more element v adds to the counts of the keys exactly the occurrences of v among them. */
  lemma {:induction false} CountAllSnoc<T>(xs: seq<T>, v: T, keys: seq<T>)
    ensures CountAll(xs + [v], keys) == CountAll(xs, keys) + Count(keys, v)
  {
    if keys != [] {
      var init := keys[..|keys| - 1];
      CountAllSnoc(xs, v, init);
      assert keys == init + [keys[|keys| - 1]];
      assert multiset(xs + [v]) == multiset(xs) + multiset{v};
    }
  }

  /** Over duplicate-free keys, the counts add up to the number of elements among the keys. */
  lemma {:induction false} CountAllAmong<T>(xs: seq<T>, keys: seq<T>)
    requires NoDup(keys)
    ensures CountAll(xs, keys) == CountAmong(xs, keys)
  {
    if xs == [] {
      CountAllEmpty(xs, keys);
    } else {
      var init := xs[..|xs| - 1];
      CountAllAmong(init, keys);
      assert xs == init + [xs[|xs| - 1]];
      CountAllSnoc(init, xs[|xs| - 1], keys);
      NoDupCount(keys, xs[|xs| - 1]);
    }
  }

  lemma {:induction false} CountAllEmpty<T>(xs: seq<T>, keys: seq<T>)
    requires xs == []
    ensures CountAll(xs, keys) == 0
  {
    if keys != [] {
      CountAllEmpty(xs, keys[..|keys| - 1]);
    }
  }

  /** When every element is among the keys, all of them are counted. */
  lemma {:induction false} CountAmongAll<T>(xs: seq<T>, keys: seq<T>)
    requires forall x :: x in xs ==> x in keys
    ensures CountAmong(xs, keys) == |xs|
  {
    if xs != [] {
      assert xs[|xs| - 1] in xs;
      assert forall x :: x in xs[..|xs| - 1] ==> x in xs;
      CountAmongAll(xs[..|xs| - 1], keys);
    }
  }

  /** Counting the members of Range(lo, hi) is counting the elements in [lo, hi]. */
  lemma {:induction false} CountAmongRange(xs: seq<int>, lo: int, hi: int)
    ensures CountAmong(xs, Range(lo, hi)) == InRangeCount(xs, lo, hi)
  {
    RangeContains(lo, hi);
    if xs != [] {
      CountAmongRange(xs[..|xs| - 1], lo, hi);
    }
  }

  /** The counts of the keys lo..hi add up to the number of elements in [lo, hi]. */
  lemma RangeCountsTotal(xs: seq<int>, lo: int, hi: int)
    ensures CountAll(xs, Range(lo, hi)) == InRangeCount(xs, lo, hi)
  {
    CountAllAmong(xs, Range(lo, hi));
    CountAmongRange(xs, lo, hi);
  }

  /** Adds x to a strictly increasing list unless it is there already. */
  function AddKey(keys: seq<int>, x: int): (r: seq<int>)
    requires Ascending(keys)
    ensures Ascending(r)
    ensures forall y :: y in r <==> y in keys || y == x
    ensures r != [] && (r[0] == x || (keys != [] && r[0] == keys[0]))
  {
    if keys == [] then [x]
    else if x < keys[0] then [x] + keys
    else if x == keys[0] then keys
    else
      var rest := AddKey(keys[1..], x);
      AscendingCons(keys[0], rest);
      [keys[0]] + rest
  }

  /** The distinct values of xs in ascending order (`np.unique`, `value_counts().sort_index()`). */
  function Distinct(xs: seq<int>): (r: seq<int>)
    ensures Ascending(r)
    ensures forall x :: x in r <==> x in xs
  {
    if xs == [] then []
    else
      assert forall x :: x in xs <==> x in xs[..|xs| - 1] || x == xs[|xs| - 1];
      AddKey(Distinct(xs[..|xs| - 1]), xs[|xs| - 1])
  }

  lemma AscendingNoDup(s: seq<int>)
    requires Ascending(s)
    ensures NoDup(s)
  {
  }

  /** A value with the number of times it occurs. */
  datatype Bin = Bin(value: int, count: nat)

  /** One bin per key, in the order of the keys. */
  function BinsOver(xs: seq<int>, keys: seq<int>): (r: seq<Bin>)
    ensures |r| == |keys|
  {
    seq(|keys|, i requires 0 <= i < |keys| => Bin(keys[i], Count(xs, keys[i])))
  }

  /** The frequency table of xs: one bin per distinct value, ascending. */
  function Histogram(xs: seq<int>): seq<Bin> {
    BinsOver(xs, Distinct(xs))
  }

  function Values(bins: seq<Bin>): seq<int> {
    seq(|bins|, i requires 0 <= i < |bins| => bins[i].value)
  }

  /** The counts of the bins added up. */
  function TotalCount(bins: seq<Bin>): nat {
    if bins == [] then 0 else TotalCount(bins[..|bins| - 1]) + bins[|bins| - 1].count
  }

  /**
   * The table lists every value of xs exactly once, in ascending order, with the number of
   * times it occurs; no bin is empty.
   */
  lemma HistogramBins(xs: seq<int>)
    ensures Ascending(Values(Histogram(xs)))
    ensures forall x :: x in Values(Histogram(xs)) <==> x in xs
    ensures forall i :: 0 <= i < |Histogram(xs)| ==>
      Histogram(xs)[i].count == multiset(xs)[Histogram(xs)[i].value] >= 1
  {
    var keys := Distinct(xs);
    assert Values(Histogram(xs)) == keys;
    forall i | 0 <= i < |Histogram(xs)|
      ensures Histogram(xs)[i].count == multiset(xs)[Histogram(xs)[i].value] >= 1
    {
      assert keys[i] in keys;
    }
  }

  lemma {:induction false} BinsOverTotal(xs: seq<int>, keys: seq<int>)
    ensures TotalCount(BinsOver(xs, keys)) == CountAll(xs, keys)
  {
    if keys != [] {
      var init := keys[..|keys| - 1];
      assert BinsOver(xs, keys)[..|keys| - 1] == BinsOver(xs, init);
      BinsOverTotal(xs, init);
    }
  }

  /** The counts of the table add up to the number of values tallied. */
  lemma HistogramTotal(xs: seq<int>)
    ensures TotalCount(Histogram(xs)) == |xs|
  {
    BinsOverTotal(xs, Distinct(xs));
    AscendingNoDup(Distinct(xs));
    CountAllAmong(xs, Distinct(xs));
    CountAmongAll(xs, Distinct(xs));
  }

  /** The relative frequency count / n of each bin. */
  function Probabilities(bins: seq<Bin>, n: nat): (r: seq<real>)
    requires n > 0
    ensures |r| == |bins|
  {
    seq(|bins|, i requires 0 <= i < |bins| => bins[i].count as real / n as real)
  }

  function RealSum(s: seq<real>): real {
    if s == [] then 0.0 else RealSum(s[..|s| - 1]) + s[|s| - 1]
  }

  lemma {:induction false} ProbabilitiesSum(bins: seq<Bin>, n: nat)
    requires n > 0
    ensures RealSum(Probabilities(bins, n)) == TotalCount(bins) as real / n as real
  {
    if bins != [] {
      var init := bins[..|bins| - 1];
      assert Probabilities(bins, n)[..|bins| - 1] == Probabilities(init, n);
      ProbabilitiesSum(init, n);
      DivAdd(TotalCount(init) as real, bins[|bins| - 1].count as real, n as real);
    }
  }

  lemma DivAdd(a: real, b: real, n: real)
    requires n > 0.0
    ensures a / n + b / n == (a + b) / n
  {
  }

  /** The relative frequencies of the table of a non-empty tally add up to 1. */
  lemma HistogramProbabilities(xs: seq<int>)
    requires |xs| > 0
    ensures RealSum(Probabilities(Histogram(xs), |xs|)) == 1.0
  {
    ProbabilitiesSum(Histogram(xs), |xs|);
    HistogramTotal(xs);
    DivSelf(|xs| as real);
  }

  lemma DivSelf(a: real)
    requires a > 0.0
    ensures a / a == 1.0
  {
  }
}
