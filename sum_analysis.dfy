/**
 * The sum-number analysis: the sums of the main numbers and of the euro numbers of every
 * draw, the euro sums of each euro period, the empirical distribution of a series of sums,
 * and the theoretical distribution of the sum of k distinct numbers out of 1..n, taken
 * over every combination.
 */
module SumAnalysis {
  import opened Wrappers
  import opened Sequences
  import opened Combinatorics
  import opened Tally
  import opened Draws

  /** The main-number sum of every draw, missing numbers skipped. */
  function MainNumberSums(draws: seq<Draw>): (r: seq<int>)
    ensures |r| == |draws|
  {
    seq(|draws|, i requires 0 <= i < |draws| => RowSum(draws[i].main))
  }

  /** Each sum is Z1 + ... + Z5 for a complete row and 0 for a row with every number missing. */
  lemma MainNumberSumsMeaning(draws: seq<Draw>, i: int)
    requires 0 <= i < |draws|
    ensures |draws[i].main| == 5 && Complete(draws[i].main) ==>
      MainNumberSums(draws)[i] == draws[i].main[0].value + draws[i].main[1].value
        + draws[i].main[2].value + draws[i].main[3].value + draws[i].main[4].value
    ensures (forall j :: 0 <= j < |draws[i].main| ==> draws[i].main[j].None?) ==> MainNumberSums(draws)[i] == 0
  {
    var cells := draws[i].main;
    if |cells| == 5 && Complete(cells) {
      RowSumOfFive(cells);
    }
    if forall j :: 0 <= j < |cells| ==> cells[j].None? {
      if Present(cells) != [] {
        var x := Present(cells)[0];
        assert x in Present(cells);
        assert Some(x) in cells;
      }
    }
  }

  /** The sums of the euro numbers of some rows. */
  function EuroSums(draws: seq<Draw>): (r: seq<int>)
    ensures |r| == |draws|
  {
    seq(|draws|, i requires 0 <= i < |draws| => RowSum(draws[i].euro))
  }

  /** The entries of a column at the rows whose date lies in the window (`df.loc[mask, column]`). */
  function Masked(column: seq<int>, draws: seq<Draw>, w: Window): (r: seq<int>)
    requires |column| == |draws|
    ensures |r| <= |column|
  {
    if draws == [] then []
    else
      var n := |draws| - 1;
      Masked(column[..n], draws[..n], w) + (if InWindow(draws[n].date, w) then [column[n]] else [])
  }

  /** Masking the euro-sum column is summing the euro numbers of the rows of the period. */
  lemma {:induction false} MaskedEuroSums(draws: seq<Draw>, w: Window)
    ensures Masked(EuroSums(draws), draws, w) == EuroSums(InPeriod(draws, w))
  {
    if draws != [] {
      var n := |draws| - 1;
      var init := draws[..n];
      var b := if InWindow(draws[n].date, w) then [draws[n]] else [];
      assert EuroSums(draws)[..n] == EuroSums(init);
      MaskedEuroSums(init, w);
      assert InPeriod(draws, w) == InPeriod(init, w) + b;
      EuroSumsAppend(InPeriod(init, w), b);
    }
  }

  lemma EuroSumsAppend(a: seq<Draw>, b: seq<Draw>)
    ensures EuroSums(a + b) == EuroSums(a) + EuroSums(b)
  {
  }

  /** The euro sums of the three euro periods. */
  datatype PeriodSums = PeriodSums(first: seq<int>, second: seq<int>, third: seq<int>)

  /** The drawing table as a data frame, to which the euro-sum column is added. */
  class DrawingFrame {
    const draws: seq<Draw>
    /** The `euro_sum` column; None until it has been added. */
    var euroSum: Option<seq<int>>

    constructor(draws: seq<Draw>)
      ensures this.draws == draws && euroSum == None
    {
      this.draws := draws;
      euroSum := None;
    }

    /**
     * calculate_euro_number_sums: adds the `euro_sum` column (EZ1 + EZ2 of every row) and
     * returns its entries in each of the three euro periods.
     */
    method CalculateEuroNumberSums() returns (periods: PeriodSums)
      modifies this
      ensures euroSum == Some(EuroSums(draws))
      ensures periods.first == EuroSums(InPeriod(draws, FirstEuroPeriod))
      ensures periods.second == EuroSums(InPeriod(draws, SecondEuroPeriod))
      ensures periods.third == EuroSums(InPeriod(draws, ThirdEuroPeriod))
    {
      var column := EuroSums(draws);
      euroSum := Some(column);
      MaskedEuroSums(draws, FirstEuroPeriod);
      MaskedEuroSums(draws, SecondEuroPeriod);
      MaskedEuroSums(draws, ThirdEuroPeriod);
      periods := PeriodSums(Masked(column, draws, FirstEuroPeriod), Masked(column, draws, SecondEuroPeriod),
                            Masked(column, draws, ThirdEuroPeriod));
    }
  }

  /** No draw is counted in two periods. */
  lemma PeriodSumsSize(draws: seq<Draw>)
    ensures |EuroSums(InPeriod(draws, FirstEuroPeriod))| + |EuroSums(InPeriod(draws, SecondEuroPeriod))|
      + |EuroSums(InPeriod(draws, ThirdEuroPeriod))| <= |draws|
  {
    EuroPeriodsCount(draws);
  }

  /** One row of an empirical distribution: a sum, how often it occurs and its share. */
  datatype EmpiricalRow = EmpiricalRow(sum: int, frequency: nat, probability: real)

  /** create_empirical_distribution: the distinct sums ascending, with their counts and count / len(data). */
  function EmpiricalDistribution(data: seq<int>): (r: seq<EmpiricalRow>)
    ensures |r| == |Histogram(data)|
  {
    var bins := Histogram(data);
    seq(|bins|, i requires 0 <= i < |bins| =>
      EmpiricalRow(bins[i].value, bins[i].count, bins[i].count as real / |data| as real))
  }

  function Frequencies(rows: seq<EmpiricalRow>): seq<nat> {
    seq(|rows|, i requires 0 <= i < |rows| => rows[i].frequency)
  }

  function Shares(rows: seq<EmpiricalRow>): seq<real> {
    seq(|rows|, i requires 0 <= i < |rows| => rows[i].probability)
  }

  function NatSum(s: seq<nat>): nat {
    if s == [] then 0 else NatSum(s[..|s| - 1]) + s[|s| - 1]
  }

  lemma {:induction false} NatSumCounts(bins: seq<Bin>, rows: seq<EmpiricalRow>)
    requires |rows| == |bins| && forall i :: 0 <= i < |bins| ==> rows[i].frequency == bins[i].count
    ensures NatSum(Frequencies(rows)) == TotalCount(bins)
  {
    if bins != [] {
      var n := |bins| - 1;
      assert Frequencies(rows)[..n] == Frequencies(rows[..n]);
      NatSumCounts(bins[..n], rows[..n]);
    }
  }

  /**
   * Each distinct sum of the data is listed once, in ascending order, with the number of
   * times it occurs; the frequencies add up to len(data) and, for non-empty data, the
   * probabilities to 1.
   */
  lemma EmpiricalDistributionSound(data: seq<int>)
    ensures forall i, j :: 0 <= i < j < |EmpiricalDistribution(data)| ==>
      EmpiricalDistribution(data)[i].sum < EmpiricalDistribution(data)[j].sum
    ensures forall x :: x in data <==> exists i :: 0 <= i < |EmpiricalDistribution(data)| && EmpiricalDistribution(data)[i].sum == x
    ensures forall i :: 0 <= i < |EmpiricalDistribution(data)| ==>
      EmpiricalDistribution(data)[i].frequency == multiset(data)[EmpiricalDistribution(data)[i].sum]
    ensures NatSum(Frequencies(EmpiricalDistribution(data))) == |data|
    ensures |data| > 0 ==> RealSum(Shares(EmpiricalDistribution(data))) == 1.0
  {
    var rows := EmpiricalDistribution(data);
    var bins := Histogram(data);
    HistogramBins(data);
    assert forall i :: 0 <= i < |rows| ==> rows[i].sum == Values(bins)[i];
    forall x | x in data ensures exists i :: 0 <= i < |rows| && rows[i].sum == x {
      var i :| 0 <= i < |Values(bins)| && Values(bins)[i] == x;
    }
    NatSumCounts(bins, rows);
    HistogramTotal(data);
    if |data| > 0 {
      assert Shares(rows) == Probabilities(bins, |data|);
      HistogramProbabilities(data);
    }
  }

  /** The sum of every combination, in order. */
  function ComboSums(combos: seq<seq<int>>): (r: seq<int>)
    ensures |r| == |combos|
  {
    seq(|combos|, i requires 0 <= i < |combos| => Sum(combos[i]))
  }

  /** The k-element combinations of 1..n, as `combinations(range(1, n + 1), k)` lists them. */
  function AllCombos(n: int, k: nat): seq<seq<int>> {
    Combinations(Range(1, n), k)
  }

  /** One row of a theoretical distribution: a sum, its probability and its count. */
  datatype SumRow = SumRow(sum: int, probability: real, count: nat)

  /** np.unique over the sums with their counts, probability count / number of sums. */
  function SumRows(sums: seq<int>): (r: seq<SumRow>)
    requires |sums| > 0
    ensures |r| == |Histogram(sums)|
  {
    var bins := Histogram(sums);
    seq(|bins|, i requires 0 <= i < |bins| =>
      SumRow(bins[i].value, bins[i].count as real / |sums| as real, bins[i].count))
  }

  /**
   * The theoretical distribution of the sum of k distinct numbers out of 1..n, taken over
   * all combinations. With no combination at all the script fails at min() of an empty list.
   */
  function TheoreticalSumDistribution(n: int, k: nat): (r: Result<seq<SumRow>, string>)
    ensures r.Err? <==> |AllCombos(n, k)| == 0
  {
    var sums := ComboSums(AllCombos(n, k));
    if |sums| == 0 then Err("min() arg is an empty sequence") else Ok(SumRows(sums))
  }

  /** The rows of a distribution, none for a failure. */
  function RowsOf(r: Result<seq<SumRow>, string>): seq<SumRow> {
    if r.Ok? then r.value else []
  }

  function Counts(rows: seq<SumRow>): seq<nat> {
    seq(|rows|, i requires 0 <= i < |rows| => rows[i].count)
  }

  function ProbabilitiesOf(rows: seq<SumRow>): seq<real> {
    seq(|rows|, i requires 0 <= i < |rows| => rows[i].probability)
  }

  lemma {:induction false} CountsTotal(bins: seq<Bin>, rows: seq<SumRow>)
    requires |rows| == |bins| && forall i :: 0 <= i < |bins| ==> rows[i].count == bins[i].count
    ensures NatSum(Counts(rows)) == TotalCount(bins)
  {
    if bins != [] {
      var n := |bins| - 1;
      assert Counts(rows)[..n] == Counts(rows[..n]);
      CountsTotal(bins[..n], rows[..n]);
    }
  }

  /**
   * Every sum is listed once, ascending, with its number of occurrences; the counts add up
   * to the number of sums and the probabilities to 1.
   */
  lemma SumRowsSound(sums: seq<int>)
    requires |sums| > 0
    ensures forall i, j :: 0 <= i < j < |SumRows(sums)| ==> SumRows(sums)[i].sum < SumRows(sums)[j].sum
    ensures forall x :: x in sums <==> exists i :: 0 <= i < |SumRows(sums)| && SumRows(sums)[i].sum == x
    ensures forall i :: 0 <= i < |SumRows(sums)| ==> SumRows(sums)[i].count == multiset(sums)[SumRows(sums)[i].sum]
    ensures NatSum(Counts(SumRows(sums))) == |sums|
    ensures RealSum(ProbabilitiesOf(SumRows(sums))) == 1.0
  {
    var rows := SumRows(sums);
    var bins := Histogram(sums);
    HistogramBins(sums);
    assert forall i :: 0 <= i < |rows| ==> rows[i].sum == Values(bins)[i];
    forall x | x in sums ensures exists i :: 0 <= i < |rows| && rows[i].sum == x {
      var i :| 0 <= i < |Values(bins)| && Values(bins)[i] == x;
    }
    CountsTotal(bins, rows);
    HistogramTotal(sums);
    assert ProbabilitiesOf(rows) == Probabilities(bins, |sums|);
    HistogramProbabilities(sums);
  }

  /** theoretical_main_sum_distribution: 5 numbers out of 1..50. */
  function TheoreticalMainSumDistribution(): Result<seq<SumRow>, string> {
    TheoreticalSumDistribution(50, 5)
  }

  /** theoretical_euro_sum_distribution(max_euro): 2 numbers out of 1..max_euro. */
  function TheoreticalEuroSumDistribution(maxEuro: int): Result<seq<SumRow>, string> {
    TheoreticalSumDistribution(maxEuro, 2)
  }

  /** There are C(n, k) combinations, hence the distribution fails exactly when k > n. */
  lemma CombosCount(n: int, k: nat)
    ensures |AllCombos(n, k)| == Binomial(if n < 0 then 0 else n, k)
    ensures n >= 0 ==> (|AllCombos(n, k)| == 0 <==> k > n)
  {
    CombinationsCount(Range(1, n), k);
    BinomialPositive(if n < 0 then 0 else n, k);
  }

  /** C(50, 5) = 2118760 main-number combinations. */
  lemma MainCombosCount()
    ensures |AllCombos(50, 5)| == 2118760
  {
    CombosCount(50, 5);
    MainCombinationCount();
  }

  /** m (m - 1) / 2 euro pairs. */
  lemma EuroCombosCount(m: nat)
    ensures 2 * |AllCombos(m, 2)| == m * (m - 1)
  {
    CombosCount(m, 2);
    PairCount(m);
  }

  /** Every combination is strictly increasing and lies in 1..n. */
  lemma ComboShape(n: int, k: nat, c: seq<int>)
    requires c in AllCombos(n, k)
    ensures |c| == k && Ascending(c) && AllIn(c, 1, n)
  {
    var r := Range(1, n);
    assert Ascending(r);
    CombinationsAscending(r, k, c);
    CombinationsMembers(r, k, c);
    RangeContains(1, n);
    forall i | 0 <= i < |c| ensures 1 <= c[i] <= n {
      assert c[i] in multiset(r);
    }
  }

  /** A strictly increasing sequence of k numbers >= lo sums to at least lo + (lo + 1) + ... + (lo + k - 1). */
  lemma {:induction false} AscendingSumAtLeast(c: seq<int>, lo: int)
    requires Ascending(c) && forall i :: 0 <= i < |c| ==> lo <= c[i]
    ensures 2 * Sum(c) >= 2 * |c| * lo + |c| * (|c| - 1)
  {
    if c != [] {
      var k := |c|;
      assert forall i :: 0 <= i < k - 1 ==> c[1..][i] == c[i + 1] && c[0] < c[i + 1];
      AscendingSumAtLeast(c[1..], lo + 1);
      SumStepAtLeast(Sum(c[1..]), c[0], k, lo);
    }
  }

  /** A strictly increasing sequence of k numbers <= hi sums to at most hi + (hi - 1) + ... + (hi - k + 1). */
  lemma {:induction false} AscendingSumAtMost(c: seq<int>, hi: int)
    requires Ascending(c) && forall i :: 0 <= i < |c| ==> c[i] <= hi
    ensures 2 * Sum(c) <= 2 * |c| * hi - |c| * (|c| - 1)
  {
    if c != [] {
      var k := |c|;
      var init := c[..k - 1];
      AscendingSumAtMost(init, c[k - 1] - 1);
      assert c == init + [c[k - 1]];
      SumAppend(init, [c[k - 1]]);
      assert Sum([c[k - 1]]) == c[k - 1];
      SumStepAtMost(Sum(init), c[k - 1], k, hi);
    }
  }

  lemma SumStepAtLeast(rest: int, first: int, k: int, lo: int)
    requires k >= 1 && first >= lo
    requires 2 * rest >= 2 * (k - 1) * (lo + 1) + (k - 1) * (k - 2)
    ensures 2 * (first + rest) >= 2 * k * lo + k * (k - 1)
  {
    assert 2 * (k - 1) * (lo + 1) + (k - 1) * (k - 2) == 2 * k * lo - 2 * lo + k * (k - 1);
  }

  lemma SumStepAtMost(init: int, last: int, k: int, hi: int)
    requires k >= 1 && last <= hi
    requires 2 * init <= 2 * (k - 1) * (last - 1) - (k - 1) * (k - 2)
    ensures 2 * (init + last) <= 2 * k * hi - k * (k - 1)
  {
    assert 2 * (k - 1) * (last - 1) - (k - 1) * (k - 2) == 2 * (k - 1) * last - k * (k - 1);
    MulMono(k - 1, last, hi);
  }

  lemma MulMono(m: nat, a: int, b: int)
    requires a <= b
    ensures m * a <= m * b
  {
    assert m * b - m * a == m * (b - a);
  }

  /** lo + (lo + 1) + ... + hi, twice, is (hi - lo + 1)(lo + hi). */
  lemma {:induction false} RangeSum(lo: int, hi: int)
    requires lo <= hi + 1
    ensures 2 * Sum(Range(lo, hi)) == (hi - lo + 1) * (lo + hi)
    decreases hi - lo
  {
    if lo <= hi {
      RangeSum(lo + 1, hi);
      assert Range(lo, hi)[1..] == Range(lo + 1, hi);
      RangeSumStep(lo, hi, Sum(Range(lo + 1, hi)));
    }
  }

  lemma RangeSumStep(lo: int, hi: int, rest: int)
    requires 2 * rest == (hi - lo) * (lo + 1 + hi)
    ensures 2 * (lo + rest) == (hi - lo + 1) * (lo + hi)
  {
    assert (hi - lo) * (lo + 1 + hi) == (hi - lo) * (lo + hi) + (hi - lo);
  }

  /** The run lo..hi is one of the combinations when 1 <= lo and hi <= n. */
  lemma RunIsCombo(n: int, lo: int, hi: int)
    requires 1 <= lo <= hi + 1 && hi <= n
    ensures Range(lo, hi) in AllCombos(n, hi - lo + 1)
  {
    RangeContains(1, n);
    RangeContains(lo, hi);
    CombinationsComplete(Range(1, n), Range(lo, hi));
  }

  lemma ComboSumBounds(n: int, k: nat, c: seq<int>)
    requires c in AllCombos(n, k)
    ensures k * (k + 1) <= 2 * Sum(c) <= 2 * k * n - k * (k - 1)
  {
    ComboShape(n, k, c);
    assert forall i :: 0 <= i < |c| ==> 1 <= c[i] <= n;
    AscendingSumAtLeast(c, 1);
    AscendingSumAtMost(c, n);
    assert 2 * k * 1 + k * (k - 1) == k * (k + 1);
  }

  /**
   * The sum of k distinct numbers out of 1..n lies between 1 + ... + k and
   * (n - k + 1) + ... + n, and both ends are attained.
   */
  lemma SumBounds(n: int, k: nat)
    requires k <= n
    ensures forall c :: c in AllCombos(n, k) ==> k * (k + 1) <= 2 * Sum(c) <= 2 * k * n - k * (k - 1)
    ensures Range(1, k) in AllCombos(n, k) && 2 * Sum(Range(1, k)) == k * (k + 1)
    ensures Range(n - k + 1, n) in AllCombos(n, k) && 2 * Sum(Range(n - k + 1, n)) == 2 * k * n - k * (k - 1)
  {
    forall c | c in AllCombos(n, k) ensures k * (k + 1) <= 2 * Sum(c) <= 2 * k * n - k * (k - 1) {
      ComboSumBounds(n, k, c);
    }
    RunIsCombo(n, 1, k);
    RangeSum(1, k);
    TopRun(n, k);
  }

  lemma TopRun(n: int, k: nat)
    requires k <= n
    ensures Range(n - k + 1, n) in AllCombos(n, k) && 2 * Sum(Range(n - k + 1, n)) == 2 * k * n - k * (k - 1)
  {
    RunIsCombo(n, n - k + 1, n);
    RangeSum(n - k + 1, n);
    TopRunArithmetic(n, k);
  }

  lemma TopRunArithmetic(n: int, k: int)
    ensures (n - (n - k + 1) + 1) * ((n - k + 1) + n) == 2 * k * n - k * (k - 1)
  {
    assert n - (n - k + 1) + 1 == k;
    assert (n - k + 1) + n == 2 * n - (k - 1);
    assert k * (2 * n - (k - 1)) == 2 * k * n - k * (k - 1);
  }

  /** Main numbers: the sums run from 15 = 1 + ... + 5 to 240 = 46 + ... + 50. */
  lemma MainSumBounds()
    ensures forall c :: c in AllCombos(50, 5) ==> 15 <= Sum(c) <= 240
  {
    SumBounds(50, 5);
  }

  /** Euro numbers out of 1..m: the sums run from 3 = 1 + 2 to 2m - 1 = (m - 1) + m. */
  lemma EuroSumBounds(m: int)
    requires m >= 2
    ensures forall c :: c in AllCombos(m, 2) ==> 3 <= Sum(c) <= 2 * m - 1
    ensures [1, 2] in AllCombos(m, 2) && [m - 1, m] in AllCombos(m, 2)
  {
    SumBounds(m, 2);
    assert Range(1, 2) == [1, 2];
    assert Range(m - 1, m) == [m - 1, m];
  }

  /**
   * With k <= n the distribution exists; the sum of every combination has a row, each row
   * counts the combinations with its sum, and the counts add up to C(n, k).
   */
  lemma TheoreticalSumDistributionSound(n: int, k: nat)
    requires k <= n
    ensures TheoreticalSumDistribution(n, k).Ok?
    ensures forall c :: c in AllCombos(n, k) ==>
      exists i :: 0 <= i < |RowsOf(TheoreticalSumDistribution(n, k))| && RowsOf(TheoreticalSumDistribution(n, k))[i].sum == Sum(c)
    ensures forall i :: 0 <= i < |RowsOf(TheoreticalSumDistribution(n, k))| ==>
      RowsOf(TheoreticalSumDistribution(n, k))[i].count == multiset(ComboSums(AllCombos(n, k)))[RowsOf(TheoreticalSumDistribution(n, k))[i].sum]
    ensures NatSum(Counts(RowsOf(TheoreticalSumDistribution(n, k)))) == Binomial(n, k)
  {
    CombosCount(n, k);
    var sums := ComboSums(AllCombos(n, k));
    var rows := RowsOf(TheoreticalSumDistribution(n, k));
    assert rows == SumRows(sums);
    SumRowsSound(sums);
    forall c | c in AllCombos(n, k) ensures exists i :: 0 <= i < |rows| && rows[i].sum == Sum(c) {
      var j :| 0 <= j < |AllCombos(n, k)| && AllCombos(n, k)[j] == c;
      assert sums[j] == Sum(c);
      assert Sum(c) in sums;
      var i :| 0 <= i < |rows| && rows[i].sum == Sum(c);
    }
  }
}
