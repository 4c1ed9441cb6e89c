/**
 * Facts about finite sequences of numbers shared by every component: duplicate-freedom,
 * ordering, the ascending numeric sort that both the JavaScript generators
 * (`sort((a, b) => a - b)`) and the Python scripts (`sorted`) apply, integer ranges,
 * and cardinalities.
 */
module Sequences {

  /** No value occurs twice. */
  predicate NoDup<T(==)>(s: seq<T>) {
    forall i, j :: 0 <= i < j < |s| ==> s[i] != s[j]
  }

  predicate NonDecreasing(s: seq<int>) {
    forall i, j :: 0 <= i < j < |s| ==> s[i] <= s[j]
  }

  /** Strictly increasing. */
  predicate Ascending(s: seq<int>) {
    forall i, j :: 0 <= i < j < |s| ==> s[i] < s[j]
  }

  predicate AllIn(s: seq<int>, lo: int, hi: int) {
    forall i :: 0 <= i < |s| ==> lo <= s[i] <= hi
  }

  function Elements<T>(s: seq<T>): set<T> {
    set x | x in s
  }

  function Sum(s: seq<int>): int {
    if s == [] then 0 else s[0] + Sum(s[1..])
  }

  /** Range(lo, hi) is lo, lo + 1, ..., hi: Python's `range(lo, hi + 1)`. */
  function Range(lo: int, hi: int): (r: seq<int>)
    ensures |r| == if lo <= hi then hi - lo + 1 else 0
    ensures forall i :: 0 <= i < |r| ==> r[i] == lo + i
    decreases hi - lo
  {
    if lo > hi then [] else [lo] + Range(lo + 1, hi)
  }

  /** s is the run lo, lo + 1, ..., hi, stated element by element rather than by building it. */
  predicate IsRun(s: seq<int>, lo: int, hi: int) {
    && |s| == (if lo <= hi then hi - lo + 1 else 0)
    && forall i :: 0 <= i < |s| ==> s[i] == lo + i
  }

  /** Being a run is being equal to Range. */
  lemma RunIsRange(s: seq<int>, lo: int, hi: int)
    ensures IsRun(s, lo, hi) <==> s == Range(lo, hi)
  {
    if IsRun(s, lo, hi) {
      assert s == Range(lo, hi);
    }
  }

  /** Inserts x before the first element that is not smaller. */
  function Insert(x: int, s: seq<int>): (r: seq<int>)
    requires NonDecreasing(s)
    ensures |r| == |s| + 1 && (r[0] == x || (s != [] && r[0] == s[0]))
    ensures NonDecreasing(r)
    ensures multiset(r) == multiset(s) + multiset{x}
  {
    if s == [] || x <= s[0] then [x] + s
    else
      MultisetHeadTail(s);
      var tail := Insert(x, s[1..]);
      NonDecreasingCons(s[0], tail);
      [s[0]] + tail
  }

  /** Putting a value no larger than the head in front keeps a sequence sorted. */
  lemma NonDecreasingCons(h: int, t: seq<int>)
    requires NonDecreasing(t) && (t == [] || h <= t[0])
    ensures NonDecreasing([h] + t)
  {
    forall i, j | 0 <= i < j < |[h] + t| ensures ([h] + t)[i] <= ([h] + t)[j] {
      if i > 0 {
        assert ([h] + t)[i] == t[i - 1];
      }
      assert ([h] + t)[j] == t[j - 1];
    }
  }

  /** Putting a value below the head in front keeps a sequence strictly increasing. */
  lemma AscendingCons(h: int, t: seq<int>)
    requires Ascending(t) && (t == [] || h < t[0])
    ensures Ascending([h] + t)
  {
    forall i, j | 0 <= i < j < |[h] + t| ensures ([h] + t)[i] < ([h] + t)[j] {
      if i > 0 {
        assert ([h] + t)[i] == t[i - 1];
      }
      assert ([h] + t)[j] == t[j - 1];
    }
  }

  lemma AscendingTail(s: seq<int>)
    requires s != [] && Ascending(s)
    ensures Ascending(s[1..])
  {
  }

  /** A non-empty sequence holds its head and the elements of its tail. */
  lemma MultisetHeadTail<T>(s: seq<T>)
    requires s != []
    ensures multiset(s) == multiset{s[0]} + multiset(s[1..])
  {
    assert s == [s[0]] + s[1..];
  }

  /** Ascending numeric sort (insertion sort). */
  function SortAsc(s: seq<int>): (r: seq<int>)
    ensures NonDecreasing(r)
    ensures multiset(r) == multiset(s)
  {
    if s == [] then []
    else
      MultisetHeadTail(s);
      Insert(s[0], SortAsc(s[1..]))
  }

  lemma {:induction false} SumAppend(a: seq<int>, b: seq<int>)
    ensures Sum(a + b) == Sum(a) + Sum(b)
  {
    if a == [] {
      assert a + b == b;
    } else {
      assert (a + b)[0] == a[0];
      assert (a + b)[1..] == a[1..] + b;
      SumAppend(a[1..], b);
    }
  }

  /** In a duplicate-free sequence every value occurs at most once. */
  lemma {:induction false} NoDupCount<T>(s: seq<T>, x: T)
    requires NoDup(s)
    ensures multiset(s)[x] == if x in s then 1 else 0
  {
    if s != [] {
      assert s == [s[0]] + s[1..];
      NoDupCount(s[1..], x);
    }
  }

  /** A value found at two positions occurs at least twice. */
  lemma TwoPositions<T>(s: seq<T>, i: int, j: int)
    requires 0 <= i < j < |s| && s[i] == s[j]
    ensures multiset(s)[s[i]] >= 2
  {
    assert s == s[..j] + s[j..];
    assert s[i] == s[..j][i];
    assert s[j..][0] == s[j];
  }

  /** Duplicate-freedom depends only on the multiset of values. */
  lemma NoDupPermutation<T>(a: seq<T>, b: seq<T>)
    requires multiset(a) == multiset(b) && NoDup(a)
    ensures NoDup(b)
  {
    forall i, j | 0 <= i < j < |b| ensures b[i] != b[j] {
      if b[i] == b[j] {
        TwoPositions(b, i, j);
        NoDupCount(a, b[i]);
      }
    }
  }

  /** Two non-decreasing arrangements of the same values are identical. */
  lemma {:induction false} SortedUnique(a: seq<int>, b: seq<int>)
    requires NonDecreasing(a) && NonDecreasing(b) && multiset(a) == multiset(b)
    ensures a == b
  {
    if a != [] {
      assert |b| == |multiset(b)| == |multiset(a)| == |a|;
      assert a[0] in multiset(b);
      assert b[0] in multiset(a);
      assert a[0] == b[0];
      assert a == [a[0]] + a[1..];
      assert b == [b[0]] + b[1..];
      assert multiset(a) == multiset{a[0]} + multiset(a[1..]);
      assert multiset(b) == multiset{b[0]} + multiset(b[1..]);
      assert multiset(a[1..]) == multiset(a) - multiset{a[0]};
      assert multiset(b[1..]) == multiset(b) - multiset{b[0]};
      SortedUnique(a[1..], b[1..]);
    }
  }

  /** Sorting an already sorted sequence changes nothing. */
  lemma SortAscOfSorted(s: seq<int>)
    requires NonDecreasing(s)
    ensures SortAsc(s) == s
  {
    SortedUnique(SortAsc(s), s);
  }

  /** Sorting a duplicate-free sequence yields a strictly increasing one with the same values. */
  lemma SortAscDistinct(s: seq<int>)
    requires NoDup(s)
    ensures NoDup(SortAsc(s)) && Ascending(SortAsc(s))
    ensures forall x :: x in SortAsc(s) <==> x in s
  {
    var r := SortAsc(s);
    NoDupPermutation(s, r);
    forall x ensures x in r <==> x in s {
      assert x in r <==> x in multiset(r);
      assert x in s <==> x in multiset(s);
    }
  }

  /** Two strictly increasing sequences with the same values are identical. */
  lemma AscendingUnique(a: seq<int>, b: seq<int>)
    requires Ascending(a) && Ascending(b)
    requires forall x :: x in a <==> x in b
    ensures a == b
  {
    forall x ensures multiset(a)[x] == multiset(b)[x] {
      NoDupCount(a, x);
      NoDupCount(b, x);
    }
    assert multiset(a) == multiset(b);
    SortedUnique(a, b);
  }

  lemma {:induction false} NoDupCard<T>(s: seq<T>)
    requires NoDup(s)
    ensures |Elements(s)| == |s|
  {
    if s != [] {
      NoDupCard(s[1..]);
      assert Elements(s) == {s[0]} + Elements(s[1..]);
      assert s[0] !in Elements(s[1..]);
    }
  }

  /** A sequence has at most as many distinct values as elements. */
  lemma {:induction false} ElementsCard<T>(s: seq<T>)
    ensures |Elements(s)| <= |s|
  {
    if s != [] {
      ElementsCard(s[1..]);
      assert Elements(s) == {s[0]} + Elements(s[1..]);
    }
  }

  /** Range(lo, hi) holds exactly the integers from lo to hi. */
  lemma RangeContains(lo: int, hi: int)
    ensures forall x :: x in Range(lo, hi) <==> lo <= x <= hi
  {
    var r := Range(lo, hi);
    forall x | lo <= x <= hi ensures x in r {
      assert r[x - lo] == x;
    }
  }

  /** The integers lo..hi are hi - lo + 1 in number. */
  lemma RangeCard(lo: int, hi: int)
    requires lo <= hi + 1
    ensures |Elements(Range(lo, hi))| == hi - lo + 1
  {
    var r := Range(lo, hi);
    assert NoDup(r);
    NoDupCard(r);
  }

  /** A subset has at most as many elements as its superset. */
  lemma SubsetCard<T>(a: set<T>, b: set<T>)
    requires a <= b
    ensures |b - a| == |b| - |a|
    ensures |a| <= |b|
  {
    assert a + b == b;
    assert a * b == a;
    assert a - b == {};
  }

  /** A subset with as many elements as its superset is the superset. */
  lemma SubsetSameCard<T>(a: set<T>, b: set<T>)
    requires a <= b && |a| == |b|
    ensures a == b
  {
    SubsetCard(a, b);
    assert b - a == {};
  }

  /** A duplicate-free sequence with fewer elements than a set misses a member of it. */
  lemma MissingMember(s: seq<int>, pool: set<int>)
    requires NoDup(s) && |s| < |pool|
    ensures exists x :: x in pool && x !in s
  {
    NoDupCard(s);
    if forall x :: x in pool ==> x in s {
      assert pool <= Elements(s);
      SubsetCard(pool, Elements(s));
    }
  }

  /** The sorted values of a duplicate-free sequence covering lo..hi are lo..hi. */
  lemma SortAscOfRange(s: seq<int>, lo: int, hi: int)
    requires NoDup(s)
    requires forall x :: x in s <==> lo <= x <= hi
    ensures SortAsc(s) == Range(lo, hi)
  {
    SortAscDistinct(s);
    RangeContains(lo, hi);
    AscendingUnique(SortAsc(s), Range(lo, hi));
  }

  /** Conversely, a sequence whose sorted values are lo..hi is duplicate-free and covers exactly lo..hi. */
  lemma SortAscIsRange(s: seq<int>, lo: int, hi: int)
    requires SortAsc(s) == Range(lo, hi)
    ensures NoDup(s)
    ensures forall x :: x in s <==> lo <= x <= hi
  {
    var r := SortAsc(s);
    assert NoDup(r);
    NoDupPermutation(r, s);
    RangeContains(lo, hi);
    forall x ensures x in s <==> x in r {
      assert x in s <==> x in multiset(s);
      assert x in r <==> x in multiset(r);
    }
  }

  /** A sub-multiset takes its values from the larger sequence. */
  lemma SubMultisetMembers<T>(a: seq<T>, b: seq<T>)
    requires multiset(a) <= multiset(b)
    ensures forall x :: x in a ==> x in b
  {
    forall x | x in a ensures x in b {
      assert x in multiset(a);
    }
  }

  /** Two duplicate-free sequences with no value in common concatenate to a duplicate-free one. */
  lemma NoDupAppend<T>(a: seq<T>, b: seq<T>)
    requires NoDup(a) && NoDup(b)
    requires forall x :: x in a ==> x !in b
    ensures NoDup(a + b)
  {
    var ab := a + b;
    forall i, j | 0 <= i < j < |ab| ensures ab[i] != ab[j] {
      if j < |a| {
        assert ab[i] == a[i] && ab[j] == a[j];
      } else if i >= |a| {
        assert ab[i] == b[i - |a|] && ab[j] == b[j - |a|];
      } else {
        assert ab[i] == a[i] && ab[j] == b[j - |a|];
        assert a[i] in a;
      }
    }
  }

  /** The smallest element: Python's `min`, JavaScript's `Math.min(...s)`. */
  function MinOf(s: seq<int>): (r: int)
    requires s != []
    ensures r in s && forall x :: x in s ==> r <= x
  {
    if |s| == 1 then s[0]
    else
      var m := MinOf(s[1..]);
      assert forall x :: x in s ==> x == s[0] || x in s[1..];
      if s[0] <= m then s[0] else m
  }

  /** The largest element: Python's `max`, JavaScript's `Math.max(...s)`. */
  function MaxOf(s: seq<int>): (r: int)
    requires s != []
    ensures r in s && forall x :: x in s ==> x <= r
  {
    if |s| == 1 then s[0]
    else
      var m := MaxOf(s[1..]);
      assert forall x :: x in s ==> x == s[0] || x in s[1..];
      if s[0] >= m then s[0] else m
  }
}
