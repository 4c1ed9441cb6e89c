/**
 * Binomial coefficients (`math.comb`, `scipy.special.comb(..., exact=True)`) and the
 * k-element combinations of a sequence in the order `itertools.combinations` produces them.
 */
module Combinatorics {
  import opened Sequences

  /** C(n, k): 0 when k is negative or exceeds n, Pascal's rule otherwise. */
  function Binomial(n: int, k: int): nat
    decreases if n < 0 then 0 else n
  {
    if k < 0 || n < 0 || k > n then 0
    else if k == 0 || k == n then 1
    else Binomial(n - 1, k - 1) + Binomial(n - 1, k)
  }

  /** Pascal's rule holds for every n >= 1, at the edges too. */
  lemma Pascal(n: int, k: int)
    requires n >= 1
    ensures Binomial(n, k) == Binomial(n - 1, k - 1) + Binomial(n - 1, k)
  {
  }

  /** C(n, k) is positive exactly when 0 <= k <= n. */
  lemma {:induction false} BinomialPositive(n: int, k: int)
    ensures Binomial(n, k) > 0 <==> 0 <= k <= n
    decreases if n < 0 then 0 else n
  {
    if 0 < k < n {
      BinomialPositive(n - 1, k);
    }
  }

  /** C(n, 1) == n. */
  lemma {:induction false} BinomialOne(n: nat)
    requires n >= 1
    ensures Binomial(n, 1) == n
  {
    if n > 1 {
      BinomialOne(n - 1);
    }
  }

  /** The absorption identity k * C(n, k) == n * C(n - 1, k - 1). */
  lemma {:induction false} Absorption(n: nat, k: nat)
    requires 1 <= k
    ensures k * Binomial(n, k) == n * Binomial(n - 1, k - 1)
  {
    if n == 0 {
    } else if k > n {
      assert Binomial(n - 1, k - 1) == 0;
    } else if k == n {
    } else if k == 1 {
      BinomialOne(n);
    } else {
      Absorption(n - 1, k);
      Absorption(n - 1, k - 1);
      Pascal(n, k);
      Pascal(n - 1, k - 1);
      AbsorptionStep(n, k, Binomial(n - 2, k - 2), Binomial(n - 2, k - 1), Binomial(n - 1, k - 1), Binomial(n - 1, k));
    }
  }

  /** The arithmetic of the inductive step of Absorption. */
  lemma AbsorptionStep(n: int, k: int, a: int, b: int, c1: int, c2: int)
    requires k * c2 == (n - 1) * b && (k - 1) * c1 == (n - 1) * a && c1 == a + b
    ensures k * (c1 + c2) == n * c1
  {
    assert k * (c1 + c2) == (k - 1) * c1 + c1 + k * c2;
    assert n * c1 == (n - 1) * c1 + c1;
    assert (n - 1) * c1 == (n - 1) * a + (n - 1) * b;
  }

  /** The number of pairs out of m: C(m, 2) == m (m - 1) / 2. */
  lemma PairCount(m: nat)
    ensures 2 * Binomial(m, 2) == m * (m - 1)
  {
    if m >= 2 {
      Absorption(m, 2);
      BinomialOne(m - 1);
    }
  }

  /** C(50, 5) == 50 * 49 * 48 * 47 * 46 / 120 == 2118760. */
  lemma MainCombinationCount()
    ensures Binomial(50, 5) == 2118760
  {
    BinomialOne(46);
    Absorption(47, 2);
    Absorption(48, 3);
    Absorption(49, 4);
    Absorption(50, 5);
  }

  /** The sequences x + c for every c of cs, in order. */
  function Prepend<T>(x: T, cs: seq<seq<T>>): (r: seq<seq<T>>)
    ensures |r| == |cs|
  {
    seq(|cs|, i requires 0 <= i < |cs| => [x] + cs[i])
  }

  /**
   * `itertools.combinations(s, k)`: the k-element selections of s by position, each in
   * the order of s, listed lexicographically by position.
   */
  function Combinations<T>(s: seq<T>, k: nat): seq<seq<T>>
    decreases |s|
  {
    if k == 0 then [[]]
    else if s == [] then []
    else Prepend(s[0], Combinations(s[1..], k - 1)) + Combinations(s[1..], k)
  }

  /** There are C(|s|, k) of them. */
  lemma {:induction false} CombinationsCount<T>(s: seq<T>, k: nat)
    ensures |Combinations(s, k)| == Binomial(|s|, k)
    decreases |s|
  {
    if k > 0 && s != [] {
      var rest := s[1..];
      CombinationsCount(rest, k - 1);
      CombinationsCount(rest, k);
      assert |Combinations(s, k)| == |Combinations(rest, k - 1)| + |Combinations(rest, k)|;
      Pascal(|s|, k);
    }
  }

  /** Each combination has k elements, each taken from a different position of s. */
  lemma CombinationsMembers<T>(s: seq<T>, k: nat, c: seq<T>)
    requires c in Combinations(s, k)
    ensures |c| == k && multiset(c) <= multiset(s)
  {
    var all := Combinations(s, k);
    var j :| 0 <= j < |all| && all[j] == c;
    CombinationMembersAt(s, k, j);
  }

  lemma {:induction false} CombinationMembersAt<T>(s: seq<T>, k: nat, j: int)
    requires 0 <= j < |Combinations(s, k)|
    ensures |Combinations(s, k)[j]| == k && multiset(Combinations(s, k)[j]) <= multiset(s)
    decreases |s|, 1
  {
    if k == 0 {
      assert Combinations(s, k)[j] == [];
    } else if j < |Combinations(s[1..], k - 1)| {
      CombinationMembersHead(s, k, j);
    } else {
      CombinationMembersTail(s, k, j);
    }
  }

  lemma {:induction false} CombinationMembersHead<T>(s: seq<T>, k: nat, j: int)
    requires k > 0 && s != [] && 0 <= j < |Combinations(s[1..], k - 1)|
    ensures j < |Combinations(s, k)|
    ensures |Combinations(s, k)[j]| == k && multiset(Combinations(s, k)[j]) <= multiset(s)
    decreases |s|, 0
  {
    var c := Combinations(s[1..], k - 1)[j];
    CombinationMembersAt(s[1..], k - 1, j);
    CombinationAtHead(s, k, j);
    SubMultisetCons(s, c);
  }

  lemma SubMultisetCons<T>(s: seq<T>, c: seq<T>)
    requires s != [] && multiset(c) <= multiset(s[1..])
    ensures multiset([s[0]] + c) <= multiset(s)
  {
    assert multiset([s[0]] + c) == multiset{s[0]} + multiset(c);
    MultisetHeadTail(s);
  }

  lemma {:induction false} CombinationMembersTail<T>(s: seq<T>, k: nat, j: int)
    requires k > 0 && s != [] && |Combinations(s[1..], k - 1)| <= j < |Combinations(s, k)|
    ensures |Combinations(s, k)[j]| == k && multiset(Combinations(s, k)[j]) <= multiset(s)
    decreases |s|, 0
  {
    var i := j - |Combinations(s[1..], k - 1)|;
    CombinationAtTail(s, k, j);
    CombinationMembersAt(s[1..], k, i);
    MultisetHeadTail(s);
  }

  /** The first C(|s| - 1, k - 1) combinations start with s[0] ... */
  lemma CombinationAtHead<T>(s: seq<T>, k: nat, j: int)
    requires k > 0 && s != [] && 0 <= j < |Combinations(s[1..], k - 1)|
    ensures j < |Combinations(s, k)|
    ensures Combinations(s, k)[j] == [s[0]] + Combinations(s[1..], k - 1)[j]
  {
    assert Prepend(s[0], Combinations(s[1..], k - 1))[j] == [s[0]] + Combinations(s[1..], k - 1)[j];
  }

  /** ... and the rest are the k-combinations of s[1..]. */
  lemma CombinationAtTail<T>(s: seq<T>, k: nat, j: int)
    requires k > 0 && s != [] && |Combinations(s[1..], k - 1)| <= j < |Combinations(s, k)|
    ensures 0 <= j - |Combinations(s[1..], k - 1)| < |Combinations(s[1..], k)|
    ensures Combinations(s, k)[j] == Combinations(s[1..], k)[j - |Combinations(s[1..], k - 1)|]
  {
  }

  /** The combinations of a strictly increasing sequence are strictly increasing. */
  lemma CombinationsAscending(s: seq<int>, k: nat, c: seq<int>)
    requires Ascending(s) && c in Combinations(s, k)
    ensures Ascending(c)
  {
    var all := Combinations(s, k);
    var j :| 0 <= j < |all| && all[j] == c;
    CombinationAscendingAt(s, k, j);
  }

  lemma {:induction false} CombinationAscendingAt(s: seq<int>, k: nat, j: int)
    requires Ascending(s) && 0 <= j < |Combinations(s, k)|
    ensures Ascending(Combinations(s, k)[j])
    decreases |s|, 1
  {
    if k == 0 {
      assert Combinations(s, k)[j] == [];
    } else if j < |Combinations(s[1..], k - 1)| {
      CombinationAscendingHead(s, k, j);
    } else {
      CombinationAscendingTail(s, k, j);
    }
  }

  lemma {:induction false} CombinationAscendingHead(s: seq<int>, k: nat, j: int)
    requires Ascending(s) && k > 0 && s != [] && 0 <= j < |Combinations(s[1..], k - 1)|
    ensures j < |Combinations(s, k)|
    ensures Ascending(Combinations(s, k)[j])
    decreases |s|, 0
  {
    var c := Combinations(s[1..], k - 1)[j];
    AscendingTail(s);
    CombinationAscendingAt(s[1..], k - 1, j);
    CombinationMembersAt(s[1..], k - 1, j);
    CombinationAtHead(s, k, j);
    AscendingBelowTail(s, c);
  }

  lemma {:induction false} CombinationAscendingTail(s: seq<int>, k: nat, j: int)
    requires Ascending(s) && k > 0 && s != [] && |Combinations(s[1..], k - 1)| <= j < |Combinations(s, k)|
    ensures Ascending(Combinations(s, k)[j])
    decreases |s|, 0
  {
    AscendingTail(s);
    CombinationAtTail(s, k, j);
    CombinationAscendingAt(s[1..], k, j - |Combinations(s[1..], k - 1)|);
  }

  lemma AscendingBelowTail(s: seq<int>, t: seq<int>)
    requires s != [] && Ascending(s) && Ascending(t) && multiset(t) <= multiset(s[1..])
    ensures Ascending([s[0]] + t)
  {
    if t != [] {
      assert t[0] in multiset(s[1..]);
      var i :| 0 <= i < |s[1..]| && s[1..][i] == t[0];
      assert s[0] < s[i + 1];
      AscendingCons(s[0], t);
    }
  }

  /** Conversely, every strictly increasing selection of values of an increasing s is one of them. */
  lemma {:induction false} CombinationsComplete(s: seq<int>, c: seq<int>)
    requires Ascending(s) && Ascending(c)
    requires forall x :: x in c ==> x in s
    ensures c in Combinations(s, |c|)
    decreases |s|
  {
    if c != [] {
      assert c[0] in c;
      assert s != [];
      if c[0] == s[0] {
        forall x | x in c[1..] ensures x in s[1..] {
          var j :| 1 <= j < |c| && c[j] == x;
          assert c[j] in c;
          var i :| 0 <= i < |s| && s[i] == x;
        }
        CombinationsComplete(s[1..], c[1..]);
        var cs := Combinations(s[1..], |c| - 1);
        var i :| 0 <= i < |cs| && cs[i] == c[1..];
        assert Prepend(s[0], cs)[i] == [s[0]] + cs[i];
        assert Prepend(s[0], cs)[i] == c;
      } else {
        var i0 :| 0 <= i0 < |s| && s[i0] == c[0];
        assert s[0] < c[0];
        forall x | x in c ensures x in s[1..] {
          var j :| 0 <= j < |c| && c[j] == x;
          var i :| 0 <= i < |s| && s[i] == x;
        }
        CombinationsComplete(s[1..], c);
      }
    }
  }

  /** The first m terms of Vandermonde's sum: C(a, i) * C(b, k - i) for i = 0 .. m - 1. */
  function VandermondeSum(a: int, b: int, k: int, m: int): nat
    decreases if m < 0 then 0 else m
  {
    if m <= 0 then 0 else VandermondeSum(a, b, k, m - 1) + Binomial(a, m - 1) * Binomial(b, k - (m - 1))
  }

  /** With nothing on the left, only the term i == 0 is left. */
  lemma {:induction false} VandermondeSumZero(b: int, k: int, m: int)
    requires m >= 1
    ensures VandermondeSum(0, b, k, m) == Binomial(b, k)
    decreases m
  {
    if m > 1 {
      VandermondeSumZero(b, k, m - 1);
      assert Binomial(0, m - 1) == 0;
    }
  }

  /** Pascal's rule on the left splits the sum into a shifted and an unshifted one. */
  lemma {:induction false} VandermondeSumSplit(a: nat, b: int, k: int, m: int)
    requires m >= 1
    ensures VandermondeSum(a + 1, b, k, m) == VandermondeSum(a, b, k - 1, m - 1) + VandermondeSum(a, b, k, m)
    decreases m
  {
    if m > 1 {
      VandermondeSumSplit(a, b, k, m - 1);
      Pascal(a + 1, m - 1);
      assert k - 1 - (m - 2) == k - (m - 1);
      SplitStep(Binomial(a, m - 2), Binomial(a, m - 1), Binomial(b, k - (m - 1)));
    }
  }

  /** The arithmetic of the inductive step of VandermondeSumSplit. */
  lemma SplitStep(x: int, y: int, z: int)
    ensures (x + y) * z == x * z + y * z
  {
  }

  /** Vandermonde's identity: the sum over i of C(a, i) * C(b, k - i) is C(a + b, k). */
  lemma {:induction false} Vandermonde(a: nat, b: nat, k: nat)
    ensures VandermondeSum(a, b, k, k + 1) == Binomial(a + b, k)
    decreases a
  {
    if a == 0 {
      VandermondeSumZero(b, k, k + 1);
    } else {
      VandermondeSumSplit(a - 1, b, k, k + 1);
      Vandermonde(a - 1, b, k);
      if k > 0 {
        Vandermonde(a - 1, b, k - 1);
      }
      Pascal(a + b, k);
    }
  }
}
