/**
 * The even/odd analysis: how many numbers of each draw are even, how often each count of even
 * numbers occurred, and the theoretical probability of each count (the hypergeometric
 * distribution for the main numbers, a fixed table for the euro numbers, and their
 * convolution for all seven numbers).
 */
module EvenOdd {
  import opened Wrappers
  import opened Sequences
  import opened Combinatorics
  import opened Tally
  import opened Draws

  // ---------------------------------------------------------------------------------------
  // count_even_numbers
  // ---------------------------------------------------------------------------------------

  /** `num % 2 == 0` on a cell: a missing value (NaN) is not even. */
  predicate IsEven(c: Cell) {
    c.Some? && c.value % 2 == 0
  }

  /** count_even_numbers: the number of even values among the cells. */
  function CountEven(cells: seq<Cell>): (r: nat)
    ensures r <= |cells|
  {
    if cells == [] then 0
    else CountEven(cells[..|cells| - 1]) + (if IsEven(cells[|cells| - 1]) then 1 else 0)
  }

  /** The positions that hold an even number. */
  function EvenPositions(cells: seq<Cell>): set<int> {
    set i | 0 <= i < |cells| && IsEven(cells[i])
  }

  /** The count is the number of positions holding an even number. */
  lemma {:induction false} CountEvenPositions(cells: seq<Cell>)
    ensures CountEven(cells) == |EvenPositions(cells)|
  {
    if cells != [] {
      var n := |cells| - 1;
      var init := cells[..n];
      CountEvenPositions(init);
      assert EvenPositions(cells) == EvenPositions(init) + (if IsEven(cells[n]) then {n} else {});
    }
  }

  /** Counting is additive over concatenation. */
  lemma {:induction false} CountEvenAppend(a: seq<Cell>, b: seq<Cell>)
    ensures CountEven(a + b) == CountEven(a) + CountEven(b)
    decreases |b|
  {
    if b != [] {
      assert (a + b)[..|a + b| - 1] == a + b[..|b| - 1];
      assert (a + b)[|a + b| - 1] == b[|b| - 1];
      CountEvenAppend(a, b[..|b| - 1]);
    } else {
      assert a + b == a;
    }
  }

  /** The count reaches its bounds exactly when every cell, or no cell, is even. */
  lemma {:induction false} CountEvenBounds(cells: seq<Cell>)
    ensures CountEven(cells) == |cells| <==> forall i :: 0 <= i < |cells| ==> IsEven(cells[i])
    ensures CountEven(cells) == 0 <==> forall i :: 0 <= i < |cells| ==> !IsEven(cells[i])
  {
    if cells != [] {
      var n := |cells| - 1;
      CountEvenBounds(cells[..n]);
      assert forall i :: 0 <= i < n ==> cells[..n][i] == cells[i];
    }
  }

  // ---------------------------------------------------------------------------------------
  // calculate_hypergeometric_probability
  // ---------------------------------------------------------------------------------------

  /**
   * calculate_hypergeometric_probability, as the exact ratio of the integer binomials: the
   * probability that kDraw numbers drawn from nTotal, nEven of them even, hold kEven even ones.
   * It is 0 exactly when the even or the odd part asked for is negative or exceeds what is
   * available.
   */
  function Hypergeometric(nTotal: int, nEven: int, kDraw: int, kEven: int): (r: real)
    ensures r >= 0.0
    ensures r == 0.0 <==> kEven < 0 || kDraw - kEven < 0 || kEven > nEven || kDraw - kEven > nTotal - nEven
  {
    var nOdd := nTotal - nEven;
    var kOdd := kDraw - kEven;
    if kEven < 0 || kOdd < 0 || kEven > nEven || kOdd > nOdd then 0.0
    else
      BinomialPositive(nEven, kEven);
      BinomialPositive(nOdd, kOdd);
      BinomialPositive(nTotal, kDraw);
      PositiveProduct(Binomial(nEven, kEven), Binomial(nOdd, kOdd));
      (Binomial(nEven, kEven) * Binomial(nOdd, kOdd)) as real / Binomial(nTotal, kDraw) as real
  }

  lemma PositiveProduct(x: nat, y: nat)
    requires x > 0 && y > 0
    ensures x * y > 0
  {
  }

  /**
   * Whenever the draw fits in the pool, the bounds check is only a shortcut: every value is
   * C(nEven, kEven) * C(nOdd, kOdd) / C(nTotal, kDraw), since a binomial is 0 out of bounds.
   */
  lemma HypergeometricRatio(nTotal: int, nEven: int, kDraw: int, kEven: int)
    requires 0 <= kDraw <= nTotal
    ensures Binomial(nTotal, kDraw) > 0
    ensures Hypergeometric(nTotal, nEven, kDraw, kEven)
         == (Binomial(nEven, kEven) * Binomial(nTotal - nEven, kDraw - kEven)) as real / Binomial(nTotal, kDraw) as real
  {
    BinomialPositive(nTotal, kDraw);
    BinomialPositive(nEven, kEven);
    BinomialPositive(nTotal - nEven, kDraw - kEven);
  }

  /** Swapping the roles of even and odd mirrors the distribution. */
  lemma HypergeometricMirror(nTotal: int, nEven: int, kDraw: int, kEven: int)
    requires 0 <= kDraw <= nTotal
    ensures Hypergeometric(nTotal, nEven, kDraw, kEven) == Hypergeometric(nTotal, nTotal - nEven, kDraw, kDraw - kEven)
  {
    HypergeometricRatio(nTotal, nEven, kDraw, kEven);
    HypergeometricRatio(nTotal, nTotal - nEven, kDraw, kDraw - kEven);
    assert Binomial(nEven, kEven) * Binomial(nTotal - nEven, kDraw - kEven)
        == Binomial(nTotal - nEven, kDraw - kEven) * Binomial(nEven, kEven);
  }

  // ---------------------------------------------------------------------------------------
  // Probability tables: dictionaries from a count of even numbers to a probability.
  // ---------------------------------------------------------------------------------------

  type Table = map<int, real>

  /** `table.get(k, 0.0)`. */
  function Lookup(table: Table, k: int): real {
    if k in table then table[k] else 0.0
  }

  /** The values for the keys 0 .. n - 1 added up. */
  function TableSum(table: Table, n: int): real
    decreases if n < 0 then 0 else n
  {
    if n <= 0 then 0.0 else TableSum(table, n - 1) + Lookup(table, n - 1)
  }

  /**
   * The main-number table of analyze_even_odd_patterns: each count 0 .. kDraw of even numbers
   * maps to its hypergeometric probability.
   */
  function HypergeometricTable(nTotal: int, nEven: int, kDraw: nat): (r: Table)
    ensures forall k :: k in r <==> 0 <= k <= kDraw
    ensures forall k :: 0 <= k <= kDraw ==> Lookup(r, k) == Hypergeometric(nTotal, nEven, kDraw, k)
  {
    map k | 0 <= k <= kDraw :: Hypergeometric(nTotal, nEven, kDraw, k)
  }

  /** The first m probabilities add up to the first m terms of Vandermonde's sum over C(nTotal, kDraw). */
  lemma {:induction false} HypergeometricPartialSum(nTotal: int, nEven: int, kDraw: nat, m: nat)
    requires kDraw <= nTotal && m <= kDraw + 1
    ensures Binomial(nTotal, kDraw) > 0
    ensures TableSum(HypergeometricTable(nTotal, nEven, kDraw), m)
         == VandermondeSum(nEven, nTotal - nEven, kDraw, m) as real / Binomial(nTotal, kDraw) as real
  {
    HypergeometricRatio(nTotal, nEven, kDraw, 0);
    if m > 0 {
      HypergeometricPartialSum(nTotal, nEven, kDraw, m - 1);
      HypergeometricRatio(nTotal, nEven, kDraw, m - 1);
      DivAdd(VandermondeSum(nEven, nTotal - nEven, kDraw, m - 1) as real,
             (Binomial(nEven, m - 1) * Binomial(nTotal - nEven, kDraw - (m - 1))) as real,
             Binomial(nTotal, kDraw) as real);
    }
  }

  /** The hypergeometric probabilities of 0 .. kDraw even numbers add up to 1. */
  lemma HypergeometricSum(nTotal: int, nEven: int, kDraw: nat)
    requires 0 <= nEven <= nTotal && kDraw <= nTotal
    ensures TableSum(HypergeometricTable(nTotal, nEven, kDraw), kDraw + 1) == 1.0
  {
    HypergeometricPartialSum(nTotal, nEven, kDraw, kDraw + 1);
    Vandermonde(nEven, nTotal - nEven, kDraw);
    DivSelf(Binomial(nTotal, kDraw) as real);
  }

  /**
   * When half of the pool is even, even and odd play the same part: the probability of k even
   * numbers is that of kDraw - k even numbers.
   */
  lemma HypergeometricTableSymmetric(nTotal: int, nEven: int, kDraw: nat, k: int)
    requires nTotal == 2 * nEven && kDraw <= nTotal
    ensures Lookup(HypergeometricTable(nTotal, nEven, kDraw), k) == Lookup(HypergeometricTable(nTotal, nEven, kDraw), kDraw - k)
  {
    if 0 <= k <= kDraw {
      HypergeometricMirror(nTotal, nEven, kDraw, k);
    }
  }

  /** The main-number table (5 drawn from 1..50, 25 of them even) adds up to 1. */
  lemma MainTableSum()
    ensures TableSum(HypergeometricTable(50, 25, 5), 6) == 1.0
  {
    HypergeometricSum(50, 25, 5);
  }

  /** The main-number table is symmetric: P(k even) == P(5 - k even). */
  lemma MainTableSymmetric(k: int)
    ensures Lookup(HypergeometricTable(50, 25, 5), k) == Lookup(HypergeometricTable(50, 25, 5), 5 - k)
  {
    HypergeometricTableSymmetric(50, 25, 5, k);
  }

  /** get_euro_theoretical_probabilities as written: 1/4, 1/2, 1/4 for 0, 1, 2 even numbers. */
  function EuroTableAsWritten(): (r: Table)
    ensures forall k :: k in r <==> 0 <= k <= 2
    ensures TableSum(r, 3) == 1.0
  {
    map[0 := 0.25, 1 := 0.5, 2 := 0.25]
  }

  /**
   * The euro table the analysis means: 2 numbers drawn without replacement from 1..m, of
   * which m / 2 are even. Its values add up to 1 and, for an even m, it is symmetric.
   */
  function EuroTable(m: nat): (r: Table)
    requires m >= 2
    ensures forall k :: k in r <==> 0 <= k <= 2
    ensures TableSum(r, 3) == 1.0
  {
    HypergeometricSum(m, m / 2, 2);
    HypergeometricTable(m, m / 2, 2)
  }

  /**
   * The euro numbers are drawn without replacement from 1..m (m was 8, then 10, now 12), m / 2
   * of them even. For every such m the probability of no even euro number is
   * (m - 2) / (4 (m - 1)), always below the 1/4 written in the table (1/4 holds only for draws
   * with replacement); over 1..12 it is 5/22.
   */
  lemma EuroTableAsWrittenDiffers(m: nat)
    requires m >= 2 && m % 2 == 0
    ensures Lookup(EuroTable(m), 0) == (m - 2) as real / (4 * (m - 1)) as real
    ensures Lookup(EuroTable(m), 0) < Lookup(EuroTableAsWritten(), 0)
  {
    var h := m / 2;
    assert Lookup(EuroTable(m), 0) == Hypergeometric(m, h, 2, 0);
    NoEvenRatio(h);
    BelowQuarter(m);
  }

  /** With m == 2h, Hypergeometric(m, h, 2, 0) == C(h, 2) / C(2h, 2) == (2h - 2) / (4 (2h - 1)). */
  lemma NoEvenRatio(h: nat)
    requires h >= 1
    ensures Hypergeometric(2 * h, h, 2, 0) == (2 * h - 2) as real / (4 * (2 * h - 1)) as real
  {
    var m := 2 * h;
    HypergeometricRatio(m, h, 2, 0);
    var x := Binomial(m - h, 2);
    var y := Binomial(m, 2);
    assert Binomial(h, 0) == 1;
    assert Binomial(h, 0) * x == x;
    PairCount(m);
    PairCount(m - h);
    PairIdentity(h, x, y);
    CrossDivide(x, y, m - 2, 4 * (m - 1));
  }

  /** The integer identity behind EuroTableAsWrittenDiffers, with m == 2h. */
  lemma PairIdentity(h: int, x: int, y: int)
    requires h >= 1 && 2 * x == h * (h - 1) && 2 * y == (2 * h) * (2 * h - 1)
    ensures x * (4 * (2 * h - 1)) == (2 * h - 2) * y
  {
    assert y == h * (2 * h - 1);
    assert x * (4 * (2 * h - 1)) == 2 * h * (h - 1) * (2 * h - 1);
  }

  lemma CrossDivide(x: int, y: int, p: int, q: int)
    requires y > 0 && q > 0 && x * q == p * y
    ensures x as real / y as real == p as real / q as real
  {
    assert x as real * q as real == p as real * y as real;
  }

  lemma BelowQuarter(m: nat)
    requires m >= 2
    ensures (m - 2) as real / (4 * (m - 1)) as real < 0.25
  {
  }

  /** Over 1..12 the exact probability of no even euro number is 5/22. */
  lemma EuroTableTwelve()
    ensures Lookup(EuroTable(12), 0) == 5.0 / 22.0
  {
    EuroTableAsWrittenDiffers(12);
  }

  // ---------------------------------------------------------------------------------------
  // calculate_combined_theoretical_probabilities
  // ---------------------------------------------------------------------------------------

  /** The contribution of row m of the nested loop to the total t of even numbers. */
  function RowTerm(a: Table, b: Table, m: int, nb: int, t: int): real {
    if 0 <= t - m < nb then Lookup(a, m) * Lookup(b, t - m) else 0.0
  }

  /** The sum over the rows m = 0 .. i - 1 of row m's contribution to t. */
  function ConvolutionPrefix(a: Table, b: Table, i: int, nb: int, t: int): real
    decreases if i < 0 then 0 else i
  {
    if i <= 0 then 0.0 else ConvolutionPrefix(a, b, i - 1, nb, t) + RowTerm(a, b, i - 1, nb, t)
  }

  /** The probability of t even numbers in all: the sum of a[m] * b[e] over m + e == t. */
  function Convolution(a: Table, na: int, b: Table, nb: int, t: int): real {
    ConvolutionPrefix(a, b, na, nb, t)
  }

  /** The table of totals: an entry for each t = 0 .. na + nb - 2 when both tables have entries. */
  function ConvolutionTable(a: Table, na: nat, b: Table, nb: nat): (r: Table)
    ensures forall t :: t in r <==> na > 0 && nb > 0 && 0 <= t <= na + nb - 2
  {
    map t | na > 0 && nb > 0 && 0 <= t <= na + nb - 2 :: Convolution(a, na, b, nb, t)
  }

  /**
   * calculate_combined_theoretical_probabilities, for the tables `a` (keys 0 .. na - 1) and
   * `b` (keys 0 .. nb - 1): every pair (m, e) adds a[m] * b[e] to the entry m + e.
   */
  method Combine(a: Table, na: nat, b: Table, nb: nat) returns (combined: Table)
    requires forall m :: 0 <= m < na ==> m in a
    requires forall e :: 0 <= e < nb ==> e in b
    ensures combined == ConvolutionTable(a, na, b, nb)
  {
    combined := map[];
    for i := 0 to na
      invariant forall t :: Lookup(combined, t) == ConvolutionPrefix(a, b, i, nb, t)
      invariant forall t :: t in combined <==> i > 0 && nb > 0 && 0 <= t <= i + nb - 2
    {
      combined := AddRow(a, b, i, nb, combined);
    }
    forall t | t in combined ensures combined[t] == ConvolutionTable(a, na, b, nb)[t] {
      assert Lookup(combined, t) == combined[t];
    }
  }

  /** The inner loop of Combine: row i adds a[i] * b[e] to the entry i + e for every e. */
  method AddRow(a: Table, b: Table, i: nat, nb: nat, combined0: Table) returns (combined: Table)
    requires i in a
    requires forall e :: 0 <= e < nb ==> e in b
    ensures forall t :: Lookup(combined, t) == Lookup(combined0, t) + RowTerm(a, b, i, nb, t)
    ensures forall t :: t in combined <==> t in combined0 || (i <= t < i + nb)
  {
    combined := combined0;
    for j := 0 to nb
      invariant forall t :: Lookup(combined, t) == Lookup(combined0, t) + RowTerm(a, b, i, j, t)
      invariant forall t :: t in combined <==> t in combined0 || (i <= t < i + j)
    {
      var total := i + j;
      var prob := a[i] * b[j];
      if total in combined {
        combined := combined[total := combined[total] + prob];
      } else {
        combined := combined[total := prob];
      }
    }
  }

  /** The contributions of row m to the totals 0 .. n - 1. */
  function RowTermSum(a: Table, b: Table, m: int, nb: int, n: int): real
    decreases if n < 0 then 0 else n
  {
    if n <= 0 then 0.0 else RowTermSum(a, b, m, nb, n - 1) + RowTerm(a, b, m, nb, n - 1)
  }

  /** The entries 0 .. n - 1 of the rows 0 .. i - 1 added up. */
  function ConvolutionSum(a: Table, b: Table, i: int, nb: int, n: int): real
    decreases if n < 0 then 0 else n
  {
    if n <= 0 then 0.0 else ConvolutionSum(a, b, i, nb, n - 1) + ConvolutionPrefix(a, b, i, nb, n - 1)
  }

  lemma {:induction false} ConvolutionSumRow(a: Table, b: Table, i: nat, nb: int, n: int)
    ensures ConvolutionSum(a, b, i + 1, nb, n) == ConvolutionSum(a, b, i, nb, n) + RowTermSum(a, b, i, nb, n)
    decreases if n < 0 then 0 else n
  {
    if n > 0 {
      ConvolutionSumRow(a, b, i, nb, n - 1);
    }
  }

  lemma {:induction false} RowTermSumBefore(a: Table, b: Table, m: nat, nb: int, n: int)
    requires n <= m
    ensures RowTermSum(a, b, m, nb, n) == 0.0
    decreases if n < 0 then 0 else n
  {
    if n > 0 {
      RowTermSumBefore(a, b, m, nb, n - 1);
    }
  }

  /** Row m spreads a[m] times the first entries of b over the totals m, m + 1, ... */
  lemma {:induction false} RowTermSumShift(a: Table, b: Table, m: nat, nb: nat, n: int)
    requires m <= n
    ensures RowTermSum(a, b, m, nb, n) == Lookup(a, m) * TableSum(b, if n - m < nb then n - m else nb)
    decreases n - m
  {
    if n == m {
      RowTermSumBefore(a, b, m, nb, n);
    } else {
      RowTermSumShift(a, b, m, nb, n - 1);
      if n - 1 - m < nb {
        RowTermSumShiftInside(a, b, m, nb, n);
      } else {
        assert RowTerm(a, b, m, nb, n - 1) == 0.0;
      }
    }
  }

  /** One step of RowTermSumShift while the row still reaches into b. */
  lemma RowTermSumShiftInside(a: Table, b: Table, m: nat, nb: nat, n: int)
    requires m < n && n - 1 - m < nb
    requires RowTermSum(a, b, m, nb, n - 1) == Lookup(a, m) * TableSum(b, n - 1 - m)
    ensures RowTermSum(a, b, m, nb, n) == Lookup(a, m) * TableSum(b, n - m)
  {
    var k := n - 1 - m;
    assert RowTerm(a, b, m, nb, n - 1) == Lookup(a, m) * Lookup(b, k);
    assert TableSum(b, k + 1) == TableSum(b, k) + Lookup(b, k);
    SplitStepReal(Lookup(a, m), TableSum(b, k), Lookup(b, k));
  }

  lemma SplitStepReal(x: real, y: real, z: real)
    ensures x * (y + z) == x * y + x * z
  {
  }

  lemma SplitStepRight(x: real, y: real, z: real)
    ensures (x + y) * z == x * z + y * z
  {
  }

  /** The rows 0 .. i - 1 of a, each scaled by the same factor, added up. */
  function ScaledSum(a: Table, i: int, scale: real): real
    decreases if i < 0 then 0 else i
  {
    if i <= 0 then 0.0 else ScaledSum(a, i - 1, scale) + Lookup(a, i - 1) * scale
  }

  lemma {:induction false} ScaledSumFactor(a: Table, i: int, scale: real)
    ensures ScaledSum(a, i, scale) == TableSum(a, i) * scale
    decreases if i < 0 then 0 else i
  {
    if i > 0 {
      ScaledSumFactor(a, i - 1, scale);
      SplitStepRight(TableSum(a, i - 1), Lookup(a, i - 1), scale);
    }
  }

  /** Once the totals reach past every row, row m contributes a[m] times the whole of b. */
  lemma {:induction false} ConvolutionSumRows(a: Table, b: Table, i: nat, nb: nat, n: int)
    requires i + nb <= n + 1
    ensures ConvolutionSum(a, b, i, nb, n) == ScaledSum(a, i, TableSum(b, nb))
    decreases i
  {
    if i == 0 {
      ConvolutionSumZero(a, b, nb, n);
    } else {
      ConvolutionSumRows(a, b, i - 1, nb, n);
      ConvolutionSumRowsStep(a, b, i, nb, n);
    }
  }

  /** Adding row i - 1 to the first i - 1 rows, once the totals reach past it. */
  lemma ConvolutionSumRowsStep(a: Table, b: Table, i: nat, nb: nat, n: int)
    requires 0 < i && i + nb <= n + 1
    requires ConvolutionSum(a, b, i - 1, nb, n) == ScaledSum(a, i - 1, TableSum(b, nb))
    ensures ConvolutionSum(a, b, i, nb, n) == ScaledSum(a, i, TableSum(b, nb))
  {
    var total := TableSum(b, nb);
    ConvolutionSumRow(a, b, i - 1, nb, n);
    RowTermSumShift(a, b, i - 1, nb, n);
    assert RowTermSum(a, b, i - 1, nb, n) == Lookup(a, i - 1) * total;
  }

  lemma {:induction false} ConvolutionSumZero(a: Table, b: Table, nb: int, n: int)
    ensures ConvolutionSum(a, b, 0, nb, n) == 0.0
    decreases if n < 0 then 0 else n
  {
    if n > 0 {
      ConvolutionSumZero(a, b, nb, n - 1);
    }
  }

  /** Two tables whose entries agree add up to the same. */
  lemma {:induction false} TableSumConvolution(c: Table, a: Table, na: int, b: Table, nb: int, n: int)
    requires forall t :: 0 <= t < n ==> Lookup(c, t) == Convolution(a, na, b, nb, t)
    ensures TableSum(c, n) == ConvolutionSum(a, b, na, nb, n)
    decreases if n < 0 then 0 else n
  {
    if n > 0 {
      TableSumConvolution(c, a, na, b, nb, n - 1);
    }
  }

  /** The combined table's entries 0 .. na + nb - 2 add up to the rows of a, each times the sum of b. */
  lemma CombinedSum(c: Table, a: Table, na: nat, b: Table, nb: nat)
    requires forall t :: 0 <= t < na + nb - 1 ==> Lookup(c, t) == Convolution(a, na, b, nb, t)
    ensures TableSum(c, na + nb - 1) == ScaledSum(a, na, TableSum(b, nb))
  {
    TableSumConvolution(c, a, na, b, nb, na + nb - 1);
    ConvolutionSumRows(a, b, na, nb, na + nb - 1);
  }

  /** The table of totals adds up to the product of the two tables' sums. */
  lemma ConvolutionTableSum(a: Table, na: nat, b: Table, nb: nat)
    requires na > 0 && nb > 0
    ensures TableSum(ConvolutionTable(a, na, b, nb), na + nb - 1) == TableSum(a, na) * TableSum(b, nb)
  {
    CombinedSum(ConvolutionTable(a, na, b, nb), a, na, b, nb);
    ScaledSumFactor(a, na, TableSum(b, nb));
  }

  /** Against a table adding up to 1, the table of totals adds up to what the other table does. */
  lemma ConvolutionTableSumOne(a: Table, na: nat, b: Table, nb: nat)
    requires na > 0 && nb > 0 && TableSum(a, na) == 1.0
    ensures TableSum(ConvolutionTable(a, na, b, nb), na + nb - 1) == TableSum(b, nb)
  {
    ConvolutionTableSum(a, na, b, nb);
  }

  /**
   * A hypergeometric table combined with any table of ne entries adds up to what that table
   * does: for the main pool (5 of 50, 25 even) and the euro table, entries 0 .. 7 add up to 1.
   */
  lemma HypergeometricCombinedSum(nTotal: int, nEven: int, kDraw: nat, euro: Table, ne: nat)
    requires 0 <= nEven <= nTotal && kDraw <= nTotal && ne > 0
    ensures TableSum(ConvolutionTable(HypergeometricTable(nTotal, nEven, kDraw), kDraw + 1, euro, ne), kDraw + ne) == TableSum(euro, ne)
  {
    HypergeometricSum(nTotal, nEven, kDraw);
    ConvolutionTableSumOne(HypergeometricTable(nTotal, nEven, kDraw), kDraw + 1, euro, ne);
  }

  /**
   * The loop filling theoretical_probs in analyze_even_odd_patterns and main_probs in
   * calculate_combined_theoretical_probabilities: each count 0 .. kDraw of even numbers gets its
   * hypergeometric probability.
   */
  method HypergeometricProbabilities(nTotal: int, nEven: int, kDraw: nat) returns (probs: Table)
    ensures probs == HypergeometricTable(nTotal, nEven, kDraw)
  {
    probs := map[];
    for k := 0 to kDraw + 1
      invariant forall j :: j in probs <==> 0 <= j < k
      invariant forall j :: j in probs ==> probs[j] == Hypergeometric(nTotal, nEven, kDraw, j)
    {
      probs := probs[k := Hypergeometric(nTotal, nEven, kDraw, k)];
    }
  }

  /**
   * calculate_combined_theoretical_probabilities: the main-number probabilities of 0 .. kDraw
   * even numbers (kDraw drawn from nTotal, nEven of them even; 5, 50 and 25 in the program)
   * combined with the euro probabilities of 0 .. 2 even numbers, one entry per total
   * 0 .. kDraw + 2.
   */
  method CombinedTheoreticalProbabilities(nTotal: int, nEven: int, kDraw: nat, euro: Table) returns (combined: Table)
    requires forall e :: 0 <= e <= 2 ==> e in euro
    ensures combined == ConvolutionTable(HypergeometricTable(nTotal, nEven, kDraw), kDraw + 1, euro, 3)
  {
    var mainProbs := HypergeometricProbabilities(nTotal, nEven, kDraw);
    combined := Combine(mainProbs, kDraw + 1, euro, 3);
  }

  // ---------------------------------------------------------------------------------------
  // analyze_even_odd_patterns (and the same loop for the seven numbers together)
  // ---------------------------------------------------------------------------------------

  /** One line of the output: a count of even numbers, how often it occurred, its share, and its probability. */
  datatype PatternRow = PatternRow(evenCount: int, absolute: nat, relative: real, theoretical: real)

  /** The number of even values in each draw's selected cells. */
  function EvenCounts(rows: seq<seq<Cell>>): (r: seq<int>)
    ensures |r| == |rows|
  {
    seq(|rows|, i requires 0 <= i < |rows| => CountEven(rows[i]))
  }

  /** The occurrence counts of 0 .. width even numbers among the counts. */
  function PatternBins(counts: seq<int>, width: nat): seq<Bin> {
    BinsOver(counts, Range(0, width))
  }

  /**
   * The rows analyze_even_odd_patterns writes for draws whose selected cells are `rows`
   * (width columns): an error when there are no draws (the relative frequency divides by
   * their number), otherwise one row per count 0 .. width.
   */
  function EvenOddPatterns(rows: seq<seq<Cell>>, width: nat, theoretical: Table): (r: Result<seq<PatternRow>, string>)
    ensures r.Err? <==> rows == []
    ensures r.Ok? ==> |r.value| == width + 1 && forall k :: 0 <= k <= width ==>
      && r.value[k].evenCount == k
      && r.value[k].absolute == Count(EvenCounts(rows), k)
      && r.value[k].theoretical == Lookup(theoretical, k)
  {
    if rows == [] then Err("division by zero")
    else
      var counts := EvenCounts(rows);
      var bins := PatternBins(counts, width);
      var relative := Probabilities(bins, |counts|);
      Ok(seq(width + 1, k requires 0 <= k <= width =>
        PatternRow(k, bins[k].count, relative[k], Lookup(theoretical, k))))
  }

  /** The row for the count k of even numbers, for draws whose selected cells are `rows`. */
  lemma {:induction false} PatternRowAt(rows: seq<seq<Cell>>, width: nat, theoretical: Table, k: nat)
    requires rows != [] && k <= width
    ensures EvenOddPatterns(rows, width, theoretical).value[k] ==
      PatternRow(k, Count(EvenCounts(rows), k), Count(EvenCounts(rows), k) as real / |rows| as real, Lookup(theoretical, k))
  {
    var bins := PatternBins(EvenCounts(rows), width);
    assert Range(0, width)[k] == k;
    assert bins[k] == Bin(k, Count(EvenCounts(rows), k));
  }

  /** The first loop of analyze_even_odd_patterns: the number of even values in each draw. */
  method CountEvenPerDraw(rows: seq<seq<Cell>>) returns (counts: seq<int>)
    ensures counts == EvenCounts(rows)
  {
    counts := [];
    for i := 0 to |rows|
      invariant |counts| == i
      invariant forall j :: 0 <= j < i ==> counts[j] == CountEven(rows[j])
    {
      counts := counts + [CountEven(rows[i])];
    }
  }

  /**
   * The counting loop of analyze_even_odd_patterns: count the even numbers of each draw, then
   * for each count 0 .. width how often it occurred, its share of the draws and its probability.
   */
  method AnalyzeEvenOddPatterns(rows: seq<seq<Cell>>, width: nat, theoretical: Table) returns (r: Result<seq<PatternRow>, string>)
    ensures r == EvenOddPatterns(rows, width, theoretical)
  {
    var counts := CountEvenPerDraw(rows);
    if |counts| == 0 {
      return Err("division by zero");
    }
    var results: seq<PatternRow> := [];
    ghost var expected := EvenOddPatterns(rows, width, theoretical).value;
    for evenCount := 0 to width + 1
      invariant results == expected[..evenCount]
    {
      var absolute := Count(counts, evenCount);
      var relative := absolute as real / |counts| as real;
      PatternRowAt(rows, width, theoretical, evenCount);
      results := results + [PatternRow(evenCount, absolute, relative, Lookup(theoretical, evenCount))];
    }
    assert results == expected;
    r := Ok(results);
  }

  /** When no draw has more than width cells, the occurrence counts add up to the number of draws. */
  lemma PatternsTotal(rows: seq<seq<Cell>>, width: nat)
    requires forall i :: 0 <= i < |rows| ==> |rows[i]| <= width
    ensures TotalCount(PatternBins(EvenCounts(rows), width)) == |rows|
  {
    var counts := EvenCounts(rows);
    BinsOverTotal(counts, Range(0, width));
    RangeCountsTotal(counts, 0, width);
    InRangeCountOfCounts(counts, width);
  }

  lemma {:induction false} InRangeCountOfCounts(counts: seq<int>, width: nat)
    requires forall i :: 0 <= i < |counts| ==> 0 <= counts[i] <= width
    ensures InRangeCount(counts, 0, width) == |counts|
  {
    if counts != [] {
      InRangeCountOfCounts(counts[..|counts| - 1], width);
    }
  }

  /** With at least one draw, the relative frequencies add up to 1. */
  lemma PatternsRelativeSum(rows: seq<seq<Cell>>, width: nat)
    requires rows != []
    requires forall i :: 0 <= i < |rows| ==> |rows[i]| <= width
    ensures RealSum(Probabilities(PatternBins(EvenCounts(rows), width), |rows|)) == 1.0
  {
    ProbabilitiesSum(PatternBins(EvenCounts(rows), width), |rows|);
    PatternsTotal(rows, width);
    DivSelf(|rows| as real);
  }

  // ---------------------------------------------------------------------------------------
  // The three analyses over the draws.
  // ---------------------------------------------------------------------------------------

  function MainRows(draws: seq<Draw>): seq<seq<Cell>> {
    seq(|draws|, i requires 0 <= i < |draws| => draws[i].main)
  }

  function EuroRows(draws: seq<Draw>): seq<seq<Cell>> {
    seq(|draws|, i requires 0 <= i < |draws| => draws[i].euro)
  }

  /** Z1-Z5 followed by EZ1-EZ2. */
  function CombinedRows(draws: seq<Draw>): seq<seq<Cell>> {
    seq(|draws|, i requires 0 <= i < |draws| => draws[i].main + draws[i].euro)
  }

  /** The even numbers among all seven are those among the main numbers plus those among the euro numbers. */
  lemma CombinedEvenCounts(draws: seq<Draw>)
    ensures forall i :: 0 <= i < |draws| ==>
      EvenCounts(CombinedRows(draws))[i] == EvenCounts(MainRows(draws))[i] + EvenCounts(EuroRows(draws))[i]
  {
    forall i | 0 <= i < |draws| {
      CountEvenAppend(draws[i].main, draws[i].euro);
    }
  }

  /** The three tables a run writes: main numbers, euro numbers, and all seven together. */
  datatype EvenOddReport = EvenOddReport(main: seq<PatternRow>, euro: seq<PatternRow>, combined: seq<PatternRow>)

  /**
   * main with the given theoretical tables: the three jobs in order, the combined one against
   * the convolution of the main table with the euro table. Nothing catches an error, so a
   * failure ends the run; only an empty table fails, and it fails the first job.
   */
  function EvenOddRun(draws: seq<Draw>, mainTable: Table, euroTable: Table): (r: Result<EvenOddReport, string>)
    ensures r.Err? <==> draws == []
    ensures r.Err? ==> r.error == "division by zero"
    ensures r.Ok? ==> |r.value.main| == 6 && forall k :: 0 <= k <= 5 ==>
      && r.value.main[k].absolute == Count(EvenCounts(MainRows(draws)), k)
      && r.value.main[k].theoretical == Lookup(mainTable, k)
    ensures r.Ok? ==> |r.value.euro| == 3 && forall k :: 0 <= k <= 2 ==>
      && r.value.euro[k].absolute == Count(EvenCounts(EuroRows(draws)), k)
      && r.value.euro[k].theoretical == Lookup(euroTable, k)
    ensures r.Ok? ==> |r.value.combined| == 8 && forall k :: 0 <= k <= 7 ==>
      && r.value.combined[k].absolute == Count(EvenCounts(CombinedRows(draws)), k)
      && r.value.combined[k].theoretical == Convolution(mainTable, 6, euroTable, 3, k)
  {
    var main := EvenOddPatterns(MainRows(draws), 5, mainTable);
    var euro := EvenOddPatterns(EuroRows(draws), 2, euroTable);
    var combined := EvenOddPatterns(CombinedRows(draws), 7, ConvolutionTable(mainTable, 6, euroTable, 3));
    if main.Err? then Err(main.error)
    else Ok(EvenOddReport(main.value, euro.value, combined.value))
  }

  /** The three jobs of main, in order, stopping at the first failure. */
  method RunEvenOddJobs(draws: seq<Draw>, euroTable: Table) returns (r: Result<EvenOddReport, string>)
    requires forall e :: 0 <= e <= 2 ==> e in euroTable
    ensures r == EvenOddRun(draws, HypergeometricTable(50, 25, 5), euroTable)
  {
    var mainTable := HypergeometricProbabilities(50, 25, 5);
    var main := AnalyzeEvenOddPatterns(MainRows(draws), 5, mainTable);
    if main.Err? {
      return Err(main.error);
    }
    // The later jobs divide by the same number of draws, so once the first succeeds they do too.
    var euro := AnalyzeEvenOddPatterns(EuroRows(draws), 2, euroTable);
    var combinedTable := CombinedTheoreticalProbabilities(50, 25, 5, euroTable);
    var combined := AnalyzeEvenOddPatterns(CombinedRows(draws), 7, combinedTable);
    r := Ok(EvenOddReport(main.value, euro.value, combined.value));
  }

  /** main as written: the euro and combined jobs use the fixed table of get_euro_theoretical_probabilities. */
  method AnalyzeEvenOdd(draws: seq<Draw>) returns (r: Result<EvenOddReport, string>)
    ensures r == EvenOddRun(draws, HypergeometricTable(50, 25, 5), EuroTableAsWritten())
  {
    r := RunEvenOddJobs(draws, EuroTableAsWritten());
  }

  /** main with the exact euro table for 2 of 1..12 in place of the fixed one. */
  method AnalyzeEvenOddCorrected(draws: seq<Draw>) returns (r: Result<EvenOddReport, string>)
    ensures r == EvenOddRun(draws, HypergeometricTable(50, 25, 5), EuroTable(12))
  {
    r := RunEvenOddJobs(draws, EuroTable(12));
  }

  /**
   * The two runs agree on every observed count and differ in the theoretical column: with
   * any draws, the written run expects no even euro number a quarter of the time, the
   * corrected one 5/22 of the time.
   */
  lemma {:induction false} RunsDifferInTheory(draws: seq<Draw>, mainTable: Table)
    requires draws != []
    ensures EvenOddRun(draws, mainTable, EuroTableAsWritten()).value.euro[0].theoretical == 0.25
    ensures EvenOddRun(draws, mainTable, EuroTable(12)).value.euro[0].theoretical == 5.0 / 22.0
    ensures forall k :: 0 <= k <= 2 ==>
      EvenOddRun(draws, mainTable, EuroTableAsWritten()).value.euro[k].absolute
        == EvenOddRun(draws, mainTable, EuroTable(12)).value.euro[k].absolute
  {
    EuroTableTwelve();
  }
}
