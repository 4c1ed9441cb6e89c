/**
 * The random number source of the generators and scripts (`Math.random`, `random.sample`),
 * seen as an oracle: each method promises only where its result lies, never which value
 * it is. Nothing is assumed about the distribution.
 */
module RandomSource {
  import opened Sequences

  /** `Math.floor(Math.random() * (hi - lo + 1)) + lo`: some integer of lo..hi. */
  method NextInt(lo: int, hi: int) returns (r: int)
    requires lo <= hi
    ensures lo <= r <= hi
  {
    r :| lo <= r <= hi;
  }

  /**
   * The first value outside `avoid` that repeated NextInt(lo, hi) draws produce. It stands
   * for a retry loop whose rejected draws change nothing, such as the fallback loop of the
   * generators: such a loop ends only with probability one, and this oracle gives the value
   * it ends with.
   */
  method NextIntAvoiding(lo: int, hi: int, avoid: seq<int>) returns (r: int)
    requires exists x :: lo <= x <= hi && x !in avoid
    ensures lo <= r <= hi && r !in avoid
  {
    r :| lo <= r <= hi && r !in avoid;
  }

  /**
   * `random.sample(pool, k)`: k elements taken from distinct positions of the pool, in
   * random order. Python raises ValueError when k exceeds the pool; callers check that first.
   */
  method Sample<T(==)>(pool: seq<T>, k: nat) returns (r: seq<T>)
    requires k <= |pool|
    ensures |r| == k
    ensures multiset(r) <= multiset(pool)
    ensures NoDup(pool) ==> NoDup(r)
  {
    r := [];
    var rest := pool;
    while |r| < k
      invariant |r| + |rest| == |pool| && |r| <= k
      invariant multiset(r) + multiset(rest) == multiset(pool)
    {
      var i := NextInt(0, |rest| - 1);
      assert rest == rest[..i] + [rest[i]] + rest[i + 1..];
      r := r + [rest[i]];
      rest := rest[..i] + rest[i + 1..];
    }
    if NoDup(pool) {
      NoDupMultiset(r, pool);
    }
  }

  /** A sequence whose values are counted no more often than in a duplicate-free one has no duplicates. */
  lemma NoDupMultiset<T>(a: seq<T>, b: seq<T>)
    requires multiset(a) <= multiset(b) && NoDup(b)
    ensures NoDup(a)
  {
    forall i, j | 0 <= i < j < |a| ensures a[i] != a[j] {
      if a[i] == a[j] {
        TwoPositions(a, i, j);
        NoDupCount(b, a[i]);
      }
    }
  }
}
