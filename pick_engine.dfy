/**
 * The drawing routines shared by the pick generators: `generateRandomNumbers` and
 * `hasConsecutive` (written out identically in random-pick.js, custom-pick.js and the
 * GeneratorUtils object of number-generator.js, modelled once here), and the two decade
 * balancing routines of the random pick generator.
 */
module PickEngine {
  import opened Sequences
  import RandomSource

  /** Draws the attempt phase of generateRandomNumbers may spend. */
  const MaxAttempts := 1000

  /** Some value x and x + 1 both occur. */
  predicate ContainsConsecutive(s: seq<int>) {
    exists x :: x in s && x + 1 in s
  }

  /** The values of lo..hi a draw may produce: in range and not excluded. */
  function Available(lo: int, hi: int, exclude: seq<int>): set<int> {
    set x | lo <= x <= hi && x !in exclude
  }

  /** A valid partial or complete draw: pairwise distinct, in range, none excluded. */
  predicate Drawn(s: seq<int>, lo: int, hi: int, exclude: seq<int>) {
    NoDup(s) && AllIn(s, lo, hi) && forall i :: 0 <= i < |s| ==> s[i] !in exclude
  }

  /** hasConsecutive: sorts a copy and looks for two neighbours that differ by one. */
  method HasConsecutive(numbers: seq<int>) returns (found: bool)
    ensures found <==> ContainsConsecutive(numbers)
  {
    var sorted := SortAsc(numbers);
    var i := 0;
    while i < |sorted| - 1
      invariant 0 <= i <= |sorted|
      invariant forall k :: 0 <= k < i && k + 1 < |sorted| ==> sorted[k + 1] - sorted[k] != 1
    {
      if sorted[i + 1] - sorted[i] == 1 {
        assert sorted[i] in multiset(numbers) && sorted[i + 1] in multiset(numbers);
        assert sorted[i] in numbers && sorted[i] + 1 in numbers;
        return true;
      }
      i := i + 1;
    }
    NoStepNoConsecutive(sorted, numbers);
    return false;
  }

  /** A sorted arrangement without neighbours one apart shows the values hold no x, x + 1 pair. */
  lemma NoStepNoConsecutive(sorted: seq<int>, numbers: seq<int>)
    requires NonDecreasing(sorted) && multiset(sorted) == multiset(numbers)
    requires forall k :: 0 <= k < |sorted| - 1 ==> sorted[k + 1] - sorted[k] != 1
    ensures !ContainsConsecutive(numbers)
  {
    if ContainsConsecutive(numbers) {
      var x :| x in numbers && x + 1 in numbers;
      assert x in multiset(sorted) && x + 1 in multiset(sorted);
      var a :| 0 <= a < |sorted| && sorted[a] == x;
      var b :| 0 <= b < |sorted| && sorted[b] == x + 1;
      SortedStep(sorted, a, b);
    }
  }

  /** In a sorted sequence holding x and x + 1, some two neighbours differ by exactly one. */
  lemma {:induction false} SortedStep(s: seq<int>, i: int, j: int)
    requires NonDecreasing(s)
    requires 0 <= i < |s| && 0 <= j < |s| && s[j] == s[i] + 1
    ensures exists k :: 0 <= k < |s| - 1 && s[k + 1] - s[k] == 1
    decreases j - i
  {
    if s[i + 1] - s[i] != 1 {
      SortedStep(s, i + 1, j);
    }
  }

  /** hasConsecutive does not depend on the order of its argument. */
  lemma ConsecutiveOrderFree(a: seq<int>, b: seq<int>)
    requires multiset(a) == multiset(b)
    ensures ContainsConsecutive(a) <==> ContainsConsecutive(b)
  {
    forall x ensures x in a <==> x in b {
      assert x in a <==> x in multiset(a);
      assert x in b <==> x in multiset(b);
    }
  }

  /** Being a valid draw depends only on the values drawn, not on their order. */
  lemma DrawnPermutation(a: seq<int>, b: seq<int>, lo: int, hi: int, exclude: seq<int>)
    requires multiset(a) == multiset(b) && Drawn(a, lo, hi, exclude)
    ensures Drawn(b, lo, hi, exclude)
  {
    NoDupPermutation(a, b);
    forall i | 0 <= i < |b| ensures lo <= b[i] <= hi && b[i] !in exclude {
      assert b[i] in multiset(a);
    }
  }

  /**
   * The first loop of generateRandomNumbers: at most MaxAttempts draws, each kept when it is
   * new, not excluded and, if avoidConsecutive is set, creates no adjacent pair.
   */
  method AttemptPhase(lo: int, hi: int, count: nat, avoidConsecutive: bool, exclude: seq<int>)
    returns (numbers: seq<int>)
    requires count > 0 ==> lo <= hi
    ensures |numbers| <= count && Drawn(numbers, lo, hi, exclude)
    ensures avoidConsecutive ==> !ContainsConsecutive(numbers)
  {
    numbers := [];
    var attempts := 0;
    while |numbers| < count && attempts < MaxAttempts
      invariant |numbers| <= count && Drawn(numbers, lo, hi, exclude)
      invariant avoidConsecutive ==> !ContainsConsecutive(numbers)
      decreases MaxAttempts - attempts
    {
      var num := RandomSource.NextInt(lo, hi);
      if num !in numbers && num !in exclude {
        if !avoidConsecutive {
          numbers := numbers + [num];
        } else {
          var adjacent := HasConsecutive(numbers + [num]);
          if !adjacent {
            numbers := numbers + [num];
          }
        }
      }
      attempts := attempts + 1;
    }
  }

  /** The second loop of generateRandomNumbers: keeps drawing, without the adjacency rule, until count numbers are held. */
  method FallbackPhase(lo: int, hi: int, count: nat, exclude: seq<int>, start: seq<int>)
    returns (numbers: seq<int>)
    requires count <= |Available(lo, hi, exclude)|
    requires |start| <= count && Drawn(start, lo, hi, exclude)
    ensures |numbers| == count && Drawn(numbers, lo, hi, exclude)
    ensures numbers[..|start|] == start
  {
    numbers := start;
    while |numbers| < count
      invariant |start| <= |numbers| <= count && Drawn(numbers, lo, hi, exclude)
      invariant numbers[..|start|] == start
      decreases count - |numbers|
    {
      MissingMember(numbers, Available(lo, hi, exclude));
      var w :| w in Available(lo, hi, exclude) && w !in numbers;
      assert w !in numbers + exclude;
      var num := RandomSource.NextIntAvoiding(lo, hi, numbers + exclude);
      if num !in numbers && num !in exclude {
        numbers := numbers + [num];
      }
    }
  }

  /**
   * generateRandomNumbers(min, max, count, avoidConsecutive, excludeNumbers): count distinct
   * numbers of min..max outside the exclusion list, in ascending order. generateRandomNumbers
   * loops forever when fewer than count numbers are available, hence the precondition.
   */
  method GenerateRandomNumbers(lo: int, hi: int, count: nat, avoidConsecutive: bool, exclude: seq<int>)
    returns (r: seq<int>)
    requires count <= |Available(lo, hi, exclude)|
    ensures |r| == count && Drawn(r, lo, hi, exclude) && Ascending(r)
  {
    var numbers := AttemptPhase(lo, hi, count, avoidConsecutive, exclude);
    numbers := FallbackPhase(lo, hi, count, exclude, numbers);
    r := SortAsc(numbers);
    SortAscDistinct(numbers);
    DrawnPermutation(numbers, r, lo, hi, exclude);
  }

  /** The feasibility precondition holds for the main (5 of 1..50) and euro (2 of 1..12) draws. */
  lemma FullRangeAvailable(lo: int, hi: int)
    requires lo <= hi + 1
    ensures |Available(lo, hi, [])| == hi - lo + 1
  {
    RangeContains(lo, hi);
    RangeCard(lo, hi);
    assert Available(lo, hi, []) == Elements(Range(lo, hi));
  }

  /** Excluding a list of k values leaves at least hi - lo + 1 - k values of lo..hi. */
  lemma AvailableCard(lo: int, hi: int, exclude: seq<int>)
    requires lo <= hi + 1
    ensures |Available(lo, hi, exclude)| >= hi - lo + 1 - |exclude|
  {
    var all := Elements(Range(lo, hi));
    var ex := Elements(exclude);
    RangeContains(lo, hi);
    RangeCard(lo, hi);
    ElementsCard(exclude);
    assert Available(lo, hi, exclude) == all - ex;
    SubsetCard(all * ex, ex);
    assert all - ex == all - (all * ex);
    SubsetCard(all * ex, all);
  }

  // ---------------------------------------------------------------------------------
  // Decades

  /** Lowest number of decade d (0 for 1..10, ..., 4 for 41..50). */
  function DecadeLo(d: int): int { 10 * d + 1 }

  function DecadeHi(d: int): int { 10 * d + 10 }

  /** The decade of a main number of 1..50. */
  function DecadeOf(x: int): (d: int)
    requires 1 <= x <= 50
    ensures 0 <= d < 5 && DecadeLo(d) <= x <= DecadeHi(d)
  {
    (x - 1) / 10
  }

  /** One number from each decade, in decade order: hence strictly ascending. */
  predicate OnePerDecade(s: seq<int>) {
    |s| == 5 && forall k :: 0 <= k < 5 ==> DecadeLo(k) <= s[k] <= DecadeHi(k)
  }

  lemma OnePerDecadeAscending(s: seq<int>)
    requires OnePerDecade(s)
    ensures Ascending(s) && NoDup(s) && AllIn(s, 1, 50)
  {
    forall i, j | 0 <= i < j < 5 ensures s[i] < s[j] {
      assert DecadeHi(i) < DecadeLo(j);
    }
  }

  /**
   * One per-decade do-while of generateBalancedMain. The body draws num; when the adjacency
   * rule rejects it, `continue` jumps to the loop test, exactly as an accepted draw does; the
   * test `numbers.includes(num) && attempts < 100` is false because the numbers held so far
   * lie in earlier decades. So the loop ends after its first draw whatever avoidConsecutive
   * says, and the branch for more than 50 attempts is never reached.
   */
  method DecadeDraw(numbers: seq<int>, lo: int, hi: int, avoidConsecutive: bool)
    returns (num: int, attempts: nat)
    requires lo <= hi
    requires forall i :: 0 <= i < |numbers| ==> numbers[i] < lo
    ensures lo <= num <= hi && num !in numbers
    ensures attempts == 1
  {
    attempts := 0;
    num := lo;
    var again := true;
    while again
      invariant again <==> attempts == 0
      invariant !again ==> lo <= num <= hi && num !in numbers && attempts == 1
      decreases if again then 1 else 0
    {
      num := RandomSource.NextInt(lo, hi);
      attempts := attempts + 1;
      var rejected := false;
      if avoidConsecutive {
        rejected := HasConsecutive(numbers + [num]);
      }
      if !rejected && attempts > 50 {
        assert false;
      }
      again := num in numbers && attempts < 100;
    }
  }

  /**
   * generateBalancedMain: one number from each of 1-10, 11-20, 21-30, 31-40 and 41-50, in
   * ascending order. The top-up loop that follows the decades has nothing to add.
   */
  method GenerateBalancedMain(avoidConsecutive: bool) returns (r: seq<int>)
    ensures OnePerDecade(r)
    ensures Ascending(r) && NoDup(r) && AllIn(r, 1, 50)
  {
    var numbers: seq<int> := [];
    for d := 0 to 5
      invariant |numbers| == d
      invariant forall k :: 0 <= k < d ==> DecadeLo(k) <= numbers[k] <= DecadeHi(k)
    {
      forall i | 0 <= i < |numbers| ensures numbers[i] < DecadeLo(d) {
        assert DecadeHi(i) < DecadeLo(d);
      }
      var num, _ := DecadeDraw(numbers, DecadeLo(d), DecadeHi(d), avoidConsecutive);
      if num !in numbers {
        numbers := numbers + [num];
      }
    }
    assert |numbers| == 5 && numbers[..5] == numbers;
    OnePerDecadeAscending(numbers);
    SortAscOfSorted(numbers);
    r := SortAsc(numbers[..5]);
    OnePerDecadeAscending(r);
  }

  /** The adjacency rule does not bind in balanced mode: 10 and 11 may come out together. */
  lemma BalancedAllowsConsecutive()
    ensures OnePerDecade([10, 11, 21, 31, 41]) && ContainsConsecutive([10, 11, 21, 31, 41])
  {
    assert 10 in [10, 11, 21, 31, 41] && 11 in [10, 11, 21, 31, 41];
  }

  /** Elements of s in lo..hi that are not in used, in order (`numbers.filter(...)`). */
  function Candidates(s: seq<int>, lo: int, hi: int, used: seq<int>): (r: seq<int>)
    ensures forall i :: 0 <= i < |r| ==> lo <= r[i] <= hi && r[i] !in used && r[i] in s
    ensures forall x :: x in s && lo <= x <= hi && x !in used ==> x in r
  {
    if s == [] then []
    else if lo <= s[0] <= hi && s[0] !in used then [s[0]] + Candidates(s[1..], lo, hi, used)
    else Candidates(s[1..], lo, hi, used)
  }

  /** Elements of s that are not in used, in order. */
  function Without(s: seq<int>, used: seq<int>): seq<int> {
    if s == [] then []
    else if s[0] in used then Without(s[1..], used)
    else [s[0]] + Without(s[1..], used)
  }

  lemma {:induction false} WithoutCount(s: seq<int>, used: seq<int>, x: int)
    ensures multiset(Without(s, used))[x] == if x in used then 0 else multiset(s)[x]
  {
    if s != [] {
      assert s == [s[0]] + s[1..];
      WithoutCount(s[1..], used, x);
    }
  }

  /** Some value of s lies in decade d. */
  predicate HitsDecade(s: seq<int>, d: int) {
    exists x :: x in s && DecadeLo(d) <= x <= DecadeHi(d)
  }

  /**
   * The first pass of balanceMainNumbers: for each decade in turn, one random number of the
   * input lying in it (and not taken before), when there is one.
   */
  method PickPerDecade(numbers: seq<int>) returns (used: seq<int>)
    ensures |used| <= 5 && NoDup(used)
    ensures multiset(used) <= multiset(numbers)
    ensures AllIn(used, 1, 50)
    ensures forall i, j :: 0 <= i < j < |used| ==> DecadeOf(used[i]) < DecadeOf(used[j])
    ensures forall d :: 0 <= d < 5 ==> (HitsDecade(used, d) <==> HitsDecade(numbers, d))
  {
    used := [];
    ghost var decades: seq<int> := [];
    for d := 0 to 5
      invariant |used| == |decades| <= d
      invariant multiset(used) <= multiset(numbers)
      invariant forall i :: 0 <= i < |used| ==> 0 <= decades[i] < d && DecadeLo(decades[i]) <= used[i] <= DecadeHi(decades[i])
      invariant forall i, j :: 0 <= i < j < |used| ==> decades[i] < decades[j]
      invariant forall e :: 0 <= e < d ==> (HitsDecade(used, e) <==> HitsDecade(numbers, e))
      invariant forall e :: d <= e < 5 ==> !HitsDecade(used, e)
    {
      used, decades := PickInDecade(numbers, used, decades, d);
    }
    forall i, j | 0 <= i < j < |used| ensures used[i] != used[j] {
      assert DecadeHi(decades[i]) < DecadeLo(decades[j]);
    }
  }

  /** One step of the first pass of balanceMainNumbers, for decade d. */
  method PickInDecade(numbers: seq<int>, used: seq<int>, ghost decades: seq<int>, d: int)
    returns (used': seq<int>, ghost decades': seq<int>)
    requires 0 <= d < 5 && |used| == |decades|
    requires multiset(used) <= multiset(numbers)
    requires forall i :: 0 <= i < |used| ==> 0 <= decades[i] < d && DecadeLo(decades[i]) <= used[i] <= DecadeHi(decades[i])
    requires forall e :: d <= e < 5 ==> !HitsDecade(used, e)
    ensures |used| <= |used'| == |decades'| <= |used| + 1
    ensures used'[..|used|] == used && decades'[..|used|] == decades
    ensures multiset(used') <= multiset(numbers)
    ensures forall i :: |used| <= i < |used'| ==> decades'[i] == d && DecadeLo(d) <= used'[i] <= DecadeHi(d)
    ensures HitsDecade(used', d) <==> HitsDecade(numbers, d)
    ensures forall e :: 0 <= e < 5 && e != d ==> (HitsDecade(used', e) <==> HitsDecade(used, e))
  {
    var candidates := Candidates(numbers, DecadeLo(d), DecadeHi(d), used);
    if |candidates| > 0 {
      var i := RandomSource.NextInt(0, |candidates| - 1);
      var selected := candidates[i];
      assert multiset(used)[selected] == 0 && selected in multiset(numbers);
      used' := used + [selected];
      decades' := decades + [d];
      assert selected in used';
      forall e | 0 <= e < 5 && e != d ensures HitsDecade(used', e) <==> HitsDecade(used, e) {
        if HitsDecade(used', e) {
          var x :| x in used' && DecadeLo(e) <= x <= DecadeHi(e);
          assert x in used || x == selected;
          assert x != selected;
        }
        if HitsDecade(used, e) {
          var x :| x in used && DecadeLo(e) <= x <= DecadeHi(e);
          assert x in used';
        }
      }
    } else {
      used', decades' := used, decades;
    }
  }

  /** Taking the first-pass picks out of the input leaves the rest of its values. */
  lemma WithoutSplit(numbers: seq<int>, used: seq<int>)
    requires NoDup(used) && multiset(used) <= multiset(numbers)
    ensures multiset(used) + multiset(Without(numbers, used)) <= multiset(numbers)
    ensures NoDup(numbers) ==> multiset(used) + multiset(Without(numbers, used)) == multiset(numbers)
  {
    forall x ensures multiset(used)[x] + multiset(Without(numbers, used))[x] <= multiset(numbers)[x] {
      WithoutCount(numbers, used, x);
      NoDupCount(used, x);
    }
    if NoDup(numbers) {
      forall x ensures multiset(used)[x] + multiset(Without(numbers, used))[x] == multiset(numbers)[x] {
        WithoutCount(numbers, used, x);
        NoDupCount(used, x);
        NoDupCount(numbers, x);
        assert x in used ==> x in multiset(numbers);
      }
    }
  }

  /**
   * balanceMainNumbers: the first pass, then random leftovers until 5 numbers are held or
   * the input runs out, sorted. Every result value comes from the input, and every decade the
   * input reaches is reached by the result; on a duplicate-free input the result is
   * duplicate-free and has min(5, |numbers|) elements.
   */
  method BalanceMainNumbers(numbers: seq<int>) returns (r: seq<int>)
    ensures |r| <= 5 && NonDecreasing(r)
    ensures multiset(r) <= multiset(numbers)
    ensures NoDup(numbers) ==> NoDup(r) && |r| == if |numbers| < 5 then |numbers| else 5
    ensures forall d :: 0 <= d < 5 && HitsDecade(numbers, d) ==> HitsDecade(r, d)
  {
    var used := PickPerDecade(numbers);
    var result := used;
    var remaining := Without(numbers, used);
    WithoutSplit(numbers, used);
    while |result| < 5 && |remaining| > 0
      invariant |result| <= 5
      invariant multiset(result) + multiset(remaining) <= multiset(numbers)
      invariant NoDup(numbers) ==> multiset(result) + multiset(remaining) == multiset(numbers)
      invariant multiset(used) <= multiset(result)
      decreases |remaining|
    {
      var i := RandomSource.NextInt(0, |remaining| - 1);
      var selected := remaining[i];
      assert remaining == remaining[..i] + [selected] + remaining[i + 1..];
      remaining := remaining[..i] + remaining[i + 1..];
      result := result + [selected];
    }
    r := SortAsc(result);
    if NoDup(numbers) {
      RandomSource.NoDupMultiset(r, numbers);
      assert |multiset(result) + multiset(remaining)| == |multiset(numbers)|;
    }
    DecadesCarry(used, r);
  }

  /** Every decade a sequence reaches is reached by any sequence holding its values. */
  lemma DecadesCarry(used: seq<int>, s: seq<int>)
    requires multiset(used) <= multiset(s)
    ensures forall d :: HitsDecade(used, d) ==> HitsDecade(s, d)
  {
    forall d | HitsDecade(used, d) ensures HitsDecade(s, d) {
      var x :| x in used && DecadeLo(d) <= x <= DecadeHi(d);
      assert x in multiset(used);
      assert x in multiset(s);
      assert x in s && DecadeLo(d) <= x <= DecadeHi(d);
    }
  }
}
