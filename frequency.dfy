/**
 * The number-frequency analyses: a counter over the numbers 1..n filled from the main-number
 * columns Z1..Z5 or the euro-number columns EZ1..EZ2 of the drawing-results table, the relative
 * frequencies derived from it, the most and least frequent number and the bar colours of the
 * chart, and the date intervals the euro numbers are analysed in.
 */
module Frequency {
  import opened Wrappers
  import opened Sequences
  import opened Tally
  import opened Draws

  /** A data frame, column by column: the cells of every column the file has. */
  type Frame = map<string, seq<Cell>>

  const MainColumns: seq<string> := ["Z1", "Z2", "Z3", "Z4", "Z5"]
  const EuroColumns: seq<string> := ["EZ1", "EZ2"]

  /**
   * The numbers the counting loops visit: the non-missing cells of the named columns, column by
   * column and top to bottom; a column the frame lacks contributes nothing.
   */
  function ColumnValues(df: Frame, columns: seq<string>): seq<int> {
    if columns == [] then []
    else
      var last := columns[|columns| - 1];
      ColumnValues(df, columns[..|columns| - 1]) + (if last in df then Present(df[last]) else [])
  }

  /** The counter `{i: 0 for i in range(1, n + 1)}` after counting `values`. */
  function Frequencies(values: seq<int>, n: int): (r: map<int, nat>)
    ensures forall v :: v in r <==> 1 <= v <= n
  {
    map v | 1 <= v <= n :: Count(values, v)
  }

  lemma ColumnValuesSnoc(df: Frame, columns: seq<string>, c: nat)
    requires c < |columns|
    ensures ColumnValues(df, columns[..c + 1])
      == ColumnValues(df, columns[..c]) + (if columns[c] in df then Present(df[columns[c]]) else [])
  {
    assert columns[..c + 1][..c] == columns[..c];
  }

  /** The values counted after one more cell of a column: the cell's number, when present. */
  lemma PresentSnoc(seen: seq<int>, cells: seq<Cell>, j: nat)
    requires j < |cells|
    ensures cells[j].Some? ==> seen + Present(cells[..j + 1]) == seen + Present(cells[..j]) + [cells[j].value]
    ensures cells[j].None? ==> seen + Present(cells[..j + 1]) == seen + Present(cells[..j])
  {
    assert cells[..j + 1][..j] == cells[..j];
    if cells[j].Some? {
      SnocAssoc(seen, Present(cells[..j]), cells[j].value);
    }
  }

  /** One more value raises its own counter, when it is in range, and no other. */
  lemma FrequenciesSnoc(values: seq<int>, x: int, n: int)
    ensures Frequencies(values + [x], n) == Bump(Frequencies(values, n), x, n)
    ensures InRangeCount(values + [x], 1, n) == InRangeCount(values, 1, n) + (if 1 <= x <= n then 1 else 0)
  {
    assert (values + [x])[..|values|] == values;
    assert multiset(values + [x]) == multiset(values) + multiset{x};
  }

  /** The counter after `counts[num] += 1` for a number in range; unchanged otherwise. */
  function Bump(counts: map<int, nat>, x: int, n: int): map<int, nat> {
    if 1 <= x <= n && x in counts then counts[x := counts[x] + 1] else counts
  }

  lemma BumpInRange(counts: map<int, nat>, x: int, n: int)
    requires 1 <= x <= n && x in counts
    ensures Bump(counts, x, n) == counts[x := counts[x] + 1]
  {
  }

  lemma SnocAssoc(a: seq<int>, b: seq<int>, x: int)
    ensures a + b + [x] == a + (b + [x])
  {
  }

  /**
   * The counting loops: every non-missing value of the named columns that lies in [1, n] raises
   * its counter and the total by one; missing cells, out-of-range values and absent columns
   * are skipped.
   */
  method CountFrequencies(df: Frame, columns: seq<string>, n: int) returns (counts: map<int, nat>, total: nat)
    ensures counts == Frequencies(ColumnValues(df, columns), n)
    ensures total == InRangeCount(ColumnValues(df, columns), 1, n)
  {
    counts := map v | v in Range(1, n) :: 0;
    total := 0;
    RangeContains(1, n);
    assert counts == Frequencies([], n);
    for c := 0 to |columns|
      invariant counts == Frequencies(ColumnValues(df, columns[..c]), n)
      invariant total == InRangeCount(ColumnValues(df, columns[..c]), 1, n)
    {
      var column := columns[c];
      ColumnValuesSnoc(df, columns, c);
      if column in df {
        counts, total := CountColumn(df[column], n, counts, total, ColumnValues(df, columns[..c]));
      } else {
        assert ColumnValues(df, columns[..c + 1]) == ColumnValues(df, columns[..c]);
      }
    }
    assert columns[..|columns|] == columns;
  }

  /** The inner counting loop over the cells of one column, on top of the values counted so far. */
  method CountColumn(cells: seq<Cell>, n: int, counts0: map<int, nat>, total0: nat, ghost seen: seq<int>)
    returns (counts: map<int, nat>, total: nat)
    requires counts0 == Frequencies(seen, n) && total0 == InRangeCount(seen, 1, n)
    ensures counts == Frequencies(seen + Present(cells), n)
    ensures total == InRangeCount(seen + Present(cells), 1, n)
  {
    counts, total := counts0, total0;
    ghost var done := seen;
    assert seen + Present(cells[..0]) == seen;
    for j := 0 to |cells|
      invariant done == seen + Present(cells[..j])
      invariant counts == Frequencies(done, n)
      invariant total == InRangeCount(done, 1, n)
    {
      PresentSnoc(seen, cells, j);
      if cells[j].Some? {
        var x := cells[j].value;
        FrequenciesSnoc(done, x, n);
        if 1 <= x <= n {
          BumpInRange(counts, x, n);
          counts := counts[x := counts[x] + 1];
          total := total + 1;
        }
        done := done + [x];
      }
    }
    assert cells[..|cells|] == cells;
  }

  /** The counter as bins 1..n in key order, the order the results are listed in. */
  function CountTable(values: seq<int>, n: int): (r: seq<Bin>)
    ensures |r| == if n > 0 then n else 0
  {
    if n <= 0 then [] else seq(n, i requires 0 <= i < n => Bin(i + 1, Count(values, i + 1)))
  }

  /** The counts of the numbers 1..n add up to the number of values in [1, n]: the running total. */
  lemma CountTableTotal(values: seq<int>, n: int)
    ensures TotalCount(CountTable(values, n)) == InRangeCount(values, 1, n)
  {
    assert CountTable(values, n) == BinsOver(values, Range(1, n));
    BinsOverTotal(values, Range(1, n));
    RangeCountsTotal(values, 1, n);
  }

  /**
   * When every named column is there with `rows` cells, none missing and all in [1, n], every
   * cell is counted: the total is the number of columns times the number of rows.
   */
  lemma {:induction false} CompleteColumnsTotal(df: Frame, columns: seq<string>, rows: nat, n: int)
    requires forall c :: c in columns ==> c in df && |df[c]| == rows
    requires forall c, i :: c in columns && 0 <= i < |df[c]| ==> df[c][i].Some? && 1 <= df[c][i].value <= n
    ensures InRangeCount(ColumnValues(df, columns), 1, n) == |columns| * rows
  {
    if columns != [] {
      var init := columns[..|columns| - 1];
      var last := columns[|columns| - 1];
      assert forall c :: c in init ==> c in columns;
      CompleteColumnsTotal(df, init, rows, n);
      assert last in columns;
      assert Complete(df[last]);
      PresentComplete(df[last]);
      var p := Present(df[last]);
      PresentInRange(df[last], n);
      InRangeCountAppend(ColumnValues(df, init), p, n);
      InRangeCountAll(p, n);
      MulStep(|columns|, rows);
    }
  }

  lemma MulStep(k: int, rows: int)
    ensures (k - 1) * rows + rows == k * rows
  {
  }

  lemma PresentInRange(cells: seq<Cell>, n: int)
    requires forall i :: 0 <= i < |cells| ==> cells[i].Some? && 1 <= cells[i].value <= n
    ensures forall x :: x in Present(cells) ==> 1 <= x <= n
  {
    forall x | x in Present(cells) ensures 1 <= x <= n {
      assert Some(x) in cells;
    }
  }

  lemma {:induction false} InRangeCountAppend(a: seq<int>, b: seq<int>, n: int)
    ensures InRangeCount(a + b, 1, n) == InRangeCount(a, 1, n) + InRangeCount(b, 1, n)
  {
    if b == [] {
      assert a + b == a;
    } else {
      assert (a + b)[..|a + b| - 1] == a + b[..|b| - 1];
      assert (a + b)[|a + b| - 1] == b[|b| - 1];
      InRangeCountAppend(a, b[..|b| - 1], n);
    }
  }

  lemma {:induction false} InRangeCountAll(xs: seq<int>, n: int)
    requires forall x :: x in xs ==> 1 <= x <= n
    ensures InRangeCount(xs, 1, n) == |xs|
  {
    if xs != [] {
      var init := xs[..|xs| - 1];
      assert xs[|xs| - 1] in xs;
      forall x | x in init ensures 1 <= x <= n {
        var i :| 0 <= i < |init| && init[i] == x;
        assert xs[i] == x && xs[i] in xs;
      }
      InRangeCountAll(init, n);
    }
  }

  /** The five main-number columns of a complete table of valid draws give five numbers per draw. */
  lemma MainTotalExpected(df: Frame, rows: nat)
    requires forall c :: c in MainColumns ==> c in df && |df[c]| == rows
    requires forall c, i :: c in MainColumns && 0 <= i < |df[c]| ==> df[c][i].Some? && 1 <= df[c][i].value <= 50
    ensures InRangeCount(ColumnValues(df, MainColumns), 1, 50) == 5 * rows
  {
    CompleteColumnsTotal(df, MainColumns, rows, 50);
  }

  // ---------------------------------------------------------------------------------------
  // The single-table analysis: absolute and relative frequency per main number.
  // ---------------------------------------------------------------------------------------

  /** One result row: the number, its count and its share of the total. */
  datatype FrequencyRow = FrequencyRow(number: int, absolute: nat, relative: real)

  /** absolute / total, or 0 when nothing was counted. */
  function RelativeFrequency(count: nat, total: nat): real {
    if total > 0 then count as real / total as real else 0.0
  }

  /** The required columns the frame lacks, in the order they are required. */
  function MissingColumns(df: Frame, columns: seq<string>): (r: seq<string>)
    ensures forall c :: c in r <==> c in columns && c !in df
  {
    if columns == [] then []
    else
      var last := columns[|columns| - 1];
      assert forall c :: c in columns <==> c in columns[..|columns| - 1] || c == last;
      MissingColumns(df, columns[..|columns| - 1]) + (if last in df then [] else [last])
  }

  /** The result rows for the numbers 1..n in ascending order. */
  function FrequencyRows(values: seq<int>, n: nat): (r: seq<FrequencyRow>)
    ensures |r| == n
  {
    var total := InRangeCount(values, 1, n);
    seq(n, i requires 0 <= i < n =>
      FrequencyRow(i + 1, Count(values, i + 1), RelativeFrequency(Count(values, i + 1), total)))
  }

  /**
   * analyze_main_number_frequencies: nothing when one of Z1..Z5 is missing; otherwise one row
   * per number 1..50 with its count and relative frequency.
   */
  method AnalyzeMainNumberFrequencies(df: Frame) returns (r: Option<seq<FrequencyRow>>)
    ensures r.None? <==> MissingColumns(df, MainColumns) != []
    ensures r.Some? ==> r.value == FrequencyRows(ColumnValues(df, MainColumns), 50)
  {
    var missing := MissingColumns(df, MainColumns);
    if missing != [] {
      return None;
    }
    var counts, total := CountFrequencies(df, MainColumns, 50);
    var results := ResultRows(counts, total, 50, ColumnValues(df, MainColumns));
    return Some(results);
  }

  /** The results loop of analyze_main_number_frequencies: one row per number 1..n, in order. */
  method ResultRows(counts: map<int, nat>, total: nat, n: nat, ghost values: seq<int>) returns (results: seq<FrequencyRow>)
    requires counts == Frequencies(values, n) && total == InRangeCount(values, 1, n)
    ensures results == FrequencyRows(values, n)
  {
    ghost var expected := FrequencyRows(values, n);
    results := [];
    for number := 1 to n + 1
      invariant results == expected[..number - 1]
    {
      var absolute := counts[number];
      assert expected[number - 1] == FrequencyRow(number, absolute, RelativeFrequency(absolute, total));
      assert expected[..number] == expected[..number - 1] + [expected[number - 1]];
      results := results + [FrequencyRow(number, absolute, RelativeFrequency(absolute, total))];
    }
    assert expected[..n] == expected;
  }

  function Absolutes(rows: seq<FrequencyRow>): seq<Bin> {
    seq(|rows|, i requires 0 <= i < |rows| => Bin(rows[i].number, rows[i].absolute))
  }

  function Relatives(rows: seq<FrequencyRow>): seq<real> {
    seq(|rows|, i requires 0 <= i < |rows| => rows[i].relative)
  }

  /** The rows list 1..n in order, and their counts add up to the total counted. */
  lemma FrequencyRowsTotal(values: seq<int>, n: nat)
    ensures forall i :: 0 <= i < n ==> FrequencyRows(values, n)[i].number == i + 1
    ensures TotalCount(Absolutes(FrequencyRows(values, n))) == InRangeCount(values, 1, n)
  {
    assert Absolutes(FrequencyRows(values, n)) == CountTable(values, n);
    CountTableTotal(values, n);
  }

  /**
   * The relative frequencies add up to 1 when anything was counted, and are all 0 otherwise.
   */
  lemma FrequencyRowsRelative(values: seq<int>, n: nat)
    ensures InRangeCount(values, 1, n) > 0 ==> RealSum(Relatives(FrequencyRows(values, n))) == 1.0
    ensures InRangeCount(values, 1, n) == 0 ==>
      forall i :: 0 <= i < n ==> FrequencyRows(values, n)[i].relative == 0.0
  {
    var total := InRangeCount(values, 1, n);
    if total > 0 {
      assert Relatives(FrequencyRows(values, n)) == Probabilities(CountTable(values, n), total);
      ProbabilitiesSum(CountTable(values, n), total);
      CountTableTotal(values, n);
      DivSelf(total as real);
    }
  }

  // ---------------------------------------------------------------------------------------
  // The charted analysis: counters, relative frequencies, most and least frequent number.
  // ---------------------------------------------------------------------------------------

  /** The first position holding the largest count: Python's `max` over the counter's items. */
  function FirstMax(s: seq<nat>): (r: nat)
    requires s != []
    ensures r < |s|
    ensures forall j :: 0 <= j < |s| ==> s[j] <= s[r]
    ensures forall j :: 0 <= j < r ==> s[j] < s[r]
  {
    if |s| == 1 then 0
    else
      var m := FirstMax(s[..|s| - 1]);
      if s[|s| - 1] > s[m] then |s| - 1 else m
  }

  /** The first position holding the smallest count: Python's `min` over the counter's items. */
  function FirstMin(s: seq<nat>): (r: nat)
    requires s != []
    ensures r < |s|
    ensures forall j :: 0 <= j < |s| ==> s[r] <= s[j]
    ensures forall j :: 0 <= j < r ==> s[r] < s[j]
  {
    if |s| == 1 then 0
    else
      var m := FirstMin(s[..|s| - 1]);
      if s[|s| - 1] < s[m] then |s| - 1 else m
  }

  /** The values of the counter over 1..n in key order: the order `items()` visits them in. */
  function CountList(values: seq<int>, n: nat): (r: seq<nat>)
    ensures |r| == n
  {
    seq(n, i requires 0 <= i < n => Count(values, i + 1))
  }

  /** The relative counter `{num: freq / total_numbers ...}` over the keys 1..n. */
  function Shares(counts: map<int, nat>, total: nat, n: int): map<int, real>
    requires total > 0 && forall v :: 1 <= v <= n ==> v in counts
  {
    map v | 1 <= v <= n :: counts[v] as real / total as real
  }

  /** The first most and the first least frequent number 1..n, as Python's max and min pick them. */
  lemma CounterExtremes(values: seq<int>, n: int)
    requires n >= 1
    ensures var m := FirstMax(CountList(values, n)) + 1;
      && 1 <= m <= n
      && (forall v :: 1 <= v <= n ==> Count(values, v) <= Count(values, m))
      && (forall v :: 1 <= v < m ==> Count(values, v) < Count(values, m))
    ensures var l := FirstMin(CountList(values, n)) + 1;
      && 1 <= l <= n
      && (forall v :: 1 <= v <= n ==> Count(values, l) <= Count(values, v))
      && (forall v :: 1 <= v < l ==> Count(values, l) < Count(values, v))
  {
    CounterMax(values, n);
    CounterMin(values, n);
  }

  lemma CounterMax(values: seq<int>, n: int)
    requires n >= 1
    ensures var m := FirstMax(CountList(values, n)) + 1;
      && 1 <= m <= n
      && (forall v :: 1 <= v <= n ==> Count(values, v) <= Count(values, m))
      && (forall v :: 1 <= v < m ==> Count(values, v) < Count(values, m))
  {
    var list := CountList(values, n);
    var m := FirstMax(list);
    assert list[m] == Count(values, m + 1);
    forall v | 1 <= v <= n ensures Count(values, v) <= Count(values, m + 1) {
      assert list[v - 1] == Count(values, v);
    }
    forall v | 1 <= v < m + 1 ensures Count(values, v) < Count(values, m + 1) {
      assert list[v - 1] == Count(values, v);
    }
  }

  lemma CounterMin(values: seq<int>, n: int)
    requires n >= 1
    ensures var l := FirstMin(CountList(values, n)) + 1;
      && 1 <= l <= n
      && (forall v :: 1 <= v <= n ==> Count(values, l) <= Count(values, v))
      && (forall v :: 1 <= v < l ==> Count(values, l) < Count(values, v))
  {
    var list := CountList(values, n);
    var l := FirstMin(list);
    assert list[l] == Count(values, l + 1);
    forall v | 1 <= v <= n ensures Count(values, l + 1) <= Count(values, v) {
      assert list[v - 1] == Count(values, v);
    }
    forall v | 1 <= v < l + 1 ensures Count(values, l + 1) < Count(values, v) {
      assert list[v - 1] == Count(values, v);
    }
  }

  /** What the analysis returns: the two counters and the most and the least frequent number. */
  datatype Analysis = Analysis(absolute: map<int, nat>, relative: map<int, real>, mostFrequent: int, leastFrequent: int)

  /**
   * analyze_main_numbers / analyze_euro_numbers on the values of their columns: with no number
   * to count (n < 1) `max` of the empty counter fails; with nothing counted the relative
   * frequencies divide by zero; otherwise the counters and the first most and least frequent
   * number.
   */
  function NumberAnalysis(values: seq<int>, n: int): (r: Result<Analysis, string>)
    ensures r.Err? <==> n < 1 || InRangeCount(values, 1, n) == 0
    ensures r.Ok? ==> r.value.absolute == Frequencies(values, n)
    ensures r.Ok? ==> 1 <= r.value.mostFrequent <= n && 1 <= r.value.leastFrequent <= n
    ensures r.Ok? ==> forall v :: 1 <= v <= n ==> Count(values, v) <= Count(values, r.value.mostFrequent)
    ensures r.Ok? ==> forall v :: 1 <= v < r.value.mostFrequent ==> Count(values, v) < Count(values, r.value.mostFrequent)
    ensures r.Ok? ==> forall v :: 1 <= v <= n ==> Count(values, r.value.leastFrequent) <= Count(values, v)
    ensures r.Ok? ==> forall v :: 1 <= v < r.value.leastFrequent ==> Count(values, r.value.leastFrequent) < Count(values, v)
  {
    var total := InRangeCount(values, 1, n);
    if n < 1 then Err("max() arg is an empty sequence")
    else if total == 0 then Err("division by zero")
    else
      var counts := Frequencies(values, n);
      var extremes := Extremes(values, n);
      Ok(Analysis(counts, Shares(counts, total, n), extremes.0, extremes.1))
  }

  /** The first most and the first least frequent number 1..n: `max` and `min` over the counter. */
  function Extremes(values: seq<int>, n: int): (r: (int, int))
    requires n >= 1
    ensures 1 <= r.0 <= n && 1 <= r.1 <= n
    ensures forall v :: 1 <= v <= n ==> Count(values, v) <= Count(values, r.0)
    ensures forall v :: 1 <= v < r.0 ==> Count(values, v) < Count(values, r.0)
    ensures forall v :: 1 <= v <= n ==> Count(values, r.1) <= Count(values, v)
    ensures forall v :: 1 <= v < r.1 ==> Count(values, r.1) < Count(values, v)
  {
    CounterExtremes(values, n);
    var list := CountList(values, n);
    (FirstMax(list) + 1, FirstMin(list) + 1)
  }

  method AnalyzeNumbers(df: Frame, columns: seq<string>, n: int) returns (r: Result<Analysis, string>)
    ensures r == NumberAnalysis(ColumnValues(df, columns), n)
  {
    var counts, total := CountFrequencies(df, columns, n);
    r := AnalyzeCounter(counts, total, n, ColumnValues(df, columns));
  }

  /** The part of the analysis after the counting loops: the failures, then the two counters and the extremes. */
  method AnalyzeCounter(counts: map<int, nat>, total: nat, n: int, ghost values: seq<int>) returns (r: Result<Analysis, string>)
    requires counts == Frequencies(values, n) && total == InRangeCount(values, 1, n)
    ensures r == NumberAnalysis(values, n)
  {
    if n < 1 {
      return Err("max() arg is an empty sequence");
    }
    if total == 0 {
      return Err("division by zero");
    }
    var relative := Shares(counts, total, n);
    var list := CounterValues(counts, n);
    var most, least := FirstMax(list) + 1, FirstMin(list) + 1;
    CounterValuesOf(values, n);
    NumberAnalysisOk(values, n);
    r := Ok(Analysis(counts, relative, most, least));
  }

  /** The counter's values for the keys 1..n, in key order. */
  function CounterValues(counts: map<int, nat>, n: int): (r: seq<nat>)
    requires forall v :: 1 <= v <= n ==> v in counts
  {
    seq(if n > 0 then n else 0, i requires 0 <= i < n => counts[i + 1])
  }

  lemma CounterValuesOf(values: seq<int>, n: int)
    requires n >= 1
    ensures CounterValues(Frequencies(values, n), n) == CountList(values, n)
  {
  }

  /** A successful analysis, spelled out. */
  lemma NumberAnalysisOk(values: seq<int>, n: int)
    requires n >= 1 && InRangeCount(values, 1, n) > 0
    ensures var counts := Frequencies(values, n);
      var list := CountList(values, n);
      NumberAnalysis(values, n)
      == Ok(Analysis(counts, Shares(counts, InRangeCount(values, 1, n), n), FirstMax(list) + 1, FirstMin(list) + 1))
  {
    ExtremesOf(values, n);
  }

  lemma ExtremesOf(values: seq<int>, n: int)
    requires n >= 1
    ensures Extremes(values, n) == (FirstMax(CountList(values, n)) + 1, FirstMin(CountList(values, n)) + 1)
  {
  }

  /** analyze_main_numbers: the numbers 1..50 of Z1..Z5, absent columns skipped. */
  method AnalyzeMainNumbers(df: Frame) returns (r: Result<Analysis, string>)
    ensures r == NumberAnalysis(ColumnValues(df, MainColumns), 50)
  {
    r := AnalyzeNumbers(df, MainColumns, 50);
  }

  /** analyze_euro_numbers: the numbers 1..maxEuro of EZ1..EZ2, absent columns skipped. */
  method AnalyzeEuroNumbers(df: Frame, maxEuro: int) returns (r: Result<Analysis, string>)
    ensures r == NumberAnalysis(ColumnValues(df, EuroColumns), maxEuro)
  {
    r := AnalyzeNumbers(df, EuroColumns, maxEuro);
  }

  /** The relative frequencies of a successful analysis are the counts over the total and add up to 1. */
  lemma NumberAnalysisRelative(values: seq<int>, n: int)
    requires NumberAnalysis(values, n).Ok?
    ensures var a := NumberAnalysis(values, n).value;
      && (forall v :: 1 <= v <= n ==>
            (v in a.relative && a.relative[v] == Count(values, v) as real / InRangeCount(values, 1, n) as real))
      && RealSum(seq(n, i requires 0 <= i < n => a.relative[i + 1])) == 1.0
  {
    var a := NumberAnalysis(values, n).value;
    var total := InRangeCount(values, 1, n);
    assert seq(n, i requires 0 <= i < n => a.relative[i + 1]) == Probabilities(CountTable(values, n), total);
    ProbabilitiesSum(CountTable(values, n), total);
    CountTableTotal(values, n);
    DivSelf(total as real);
  }

  /** The colour of each bar of the chart. */
  datatype Color = Red | Green | Blue | Orange

  /**
   * The bar colours for the numbers 1..n: red for the most frequent number, green for the
   * least frequent one unless it is also the most frequent, the normal colour otherwise.
   */
  method BarColors(n: int, most: int, least: int, normal: Color) returns (colors: seq<Color>)
    requires normal != Red && normal != Green
    ensures |colors| == if n > 0 then n else 0
    ensures forall i :: 0 <= i < |colors| ==> (colors[i] == Red <==> i + 1 == most)
    ensures forall i :: 0 <= i < |colors| ==> (colors[i] == Green <==> i + 1 == least && i + 1 != most)
    ensures forall i :: 0 <= i < |colors| ==> (colors[i] == normal <==> i + 1 != most && i + 1 != least)
  {
    colors := [];
    var num := 1;
    while num <= n
      invariant 1 <= num && |colors| == num - 1
      invariant n > 0 ==> num <= n + 1
      invariant n <= 0 ==> num == 1
      invariant forall i :: 0 <= i < |colors| ==> (colors[i] == Red <==> i + 1 == most)
      invariant forall i :: 0 <= i < |colors| ==> (colors[i] == Green <==> i + 1 == least && i + 1 != most)
      invariant forall i :: 0 <= i < |colors| ==> (colors[i] == normal <==> i + 1 != most && i + 1 != least)
    {
      if num == most {
        colors := colors + [Red];
      } else if num == least {
        colors := colors + [Green];
      } else {
        colors := colors + [normal];
      }
      num := num + 1;
    }
  }

  // ---------------------------------------------------------------------------------------
  // The whole run: main numbers over all draws, euro numbers per euro-number period.
  // ---------------------------------------------------------------------------------------

  /** The cell of column k of a row's numbers, missing when the row has no such cell. */
  function CellAt(cells: seq<Cell>, k: nat): Cell {
    if k < |cells| then cells[k] else None
  }

  /** The table as a frame with the columns Z1..Z5 and EZ1..EZ2. */
  function FrameOf(draws: seq<Draw>): Frame {
    map["Z1" := seq(|draws|, r requires 0 <= r < |draws| => CellAt(draws[r].main, 0)),
        "Z2" := seq(|draws|, r requires 0 <= r < |draws| => CellAt(draws[r].main, 1)),
        "Z3" := seq(|draws|, r requires 0 <= r < |draws| => CellAt(draws[r].main, 2)),
        "Z4" := seq(|draws|, r requires 0 <= r < |draws| => CellAt(draws[r].main, 3)),
        "Z5" := seq(|draws|, r requires 0 <= r < |draws| => CellAt(draws[r].main, 4)),
        "EZ1" := seq(|draws|, r requires 0 <= r < |draws| => CellAt(draws[r].euro, 0)),
        "EZ2" := seq(|draws|, r requires 0 <= r < |draws| => CellAt(draws[r].euro, 1))]
  }

  /** The window of euro-number period i: 1, 2 or 3. */
  function EuroPeriod(i: nat): Window
    requires 1 <= i <= 3
  {
    if i == 1 then FirstEuroPeriod else if i == 2 then SecondEuroPeriod else ThirdEuroPeriod
  }

  /** The largest euro number of period i: 8, 10 and 12. */
  function EuroMax(i: nat): int
    requires 1 <= i <= 3
  {
    if i == 1 then 8 else if i == 2 then 10 else 12
  }

  /** main analyses period i only when it has draws (`if len(interval_df) > 0`). */
  predicate PeriodAnalysed(draws: seq<Draw>, i: nat)
    requires 1 <= i <= 3
  {
    |InPeriod(draws, EuroPeriod(i))| > 0
  }

  /** analyze_euro_numbers on the rows of period i. */
  function PeriodAnalysis(draws: seq<Draw>, i: nat): Result<Analysis, string>
    requires 1 <= i <= 3
  {
    NumberAnalysis(ColumnValues(FrameOf(InPeriod(draws, EuroPeriod(i))), EuroColumns), EuroMax(i))
  }

  /** The analysis of one euro-number period: its number (1, 2 or 3) and its result. */
  datatype EuroResult = EuroResult(interval: nat, analysis: Analysis)

  /** One period's contribution to the run: nothing without rows, else its analysis or its error. */
  function PeriodResult(draws: seq<Draw>, i: nat): (r: Result<seq<EuroResult>, string>)
    requires 1 <= i <= 3
    ensures r.Err? <==> PeriodAnalysed(draws, i) && PeriodAnalysis(draws, i).Err?
    ensures r.Ok? ==> |r.value| <= 1
    ensures r.Ok? ==> (r.value != [] <==> PeriodAnalysed(draws, i))
    ensures r.Ok? && r.value != [] ==> r.value[0].interval == i && PeriodAnalysis(draws, i) == Ok(r.value[0].analysis)
  {
    if !PeriodAnalysed(draws, i) then Ok([])
    else match PeriodAnalysis(draws, i)
      case Err(e) => Err(e)
      case Ok(a) => Ok([EuroResult(i, a)])
  }

  /** What a run that finishes has computed: the main numbers and the analysed periods. */
  datatype RunReport = RunReport(main: Analysis, euro: seq<EuroResult>)

  /** The main-number analysis over every draw. */
  function MainAnalysis(draws: seq<Draw>): Result<Analysis, string> {
    NumberAnalysis(ColumnValues(FrameOf(draws), MainColumns), 50)
  }

  /** analyze_euro_numbers runs on period i and raises. */
  predicate PeriodFails(draws: seq<Draw>, i: nat)
    requires 1 <= i <= 3
  {
    PeriodAnalysed(draws, i) && PeriodAnalysis(draws, i).Err?
  }

  /**
   * main: the main numbers 1..50 over every draw, then the euro numbers of each period that has
   * draws: 1..8 from 2012-03-23 to 2014-10-03, 1..10 from 2014-10-10 to 2022-03-18 and 1..12
   * from 2022-03-25 on. Nothing catches an error, so the first analysis that fails ends the run
   * with its error and the later ones never happen.
   */
  function RunAnalysis(draws: seq<Draw>): (r: Result<RunReport, string>)
    ensures r.Err? <==> (MainAnalysis(draws).Err? || PeriodFails(draws, 1) || PeriodFails(draws, 2) || PeriodFails(draws, 3))
    ensures MainAnalysis(draws).Err? ==> r == Err(MainAnalysis(draws).error)
    ensures MainAnalysis(draws).Ok? && PeriodFails(draws, 1) ==> r == Err(PeriodAnalysis(draws, 1).error)
    ensures MainAnalysis(draws).Ok? && !PeriodFails(draws, 1) && PeriodFails(draws, 2) ==> r == Err(PeriodAnalysis(draws, 2).error)
    ensures MainAnalysis(draws).Ok? && !PeriodFails(draws, 1) && !PeriodFails(draws, 2) && PeriodFails(draws, 3)
      ==> r == Err(PeriodAnalysis(draws, 3).error)
    ensures r.Ok? ==> MainAnalysis(draws) == Ok(r.value.main)
  {
    var main := MainAnalysis(draws);
    var first := PeriodResult(draws, 1);
    var second := PeriodResult(draws, 2);
    var third := PeriodResult(draws, 3);
    if main.Err? then Err(main.error)
    else if first.Err? then Err(first.error)
    else if second.Err? then Err(second.error)
    else if third.Err? then Err(third.error)
    else Ok(RunReport(main.value, first.value + second.value + third.value))
  }

  /**
   * A run that finishes holds one entry per period that has draws, in period order, each the
   * analysis of that period's euro numbers.
   */
  lemma {:induction false} RunReportsPeriods(draws: seq<Draw>, report: RunReport)
    requires RunAnalysis(draws) == Ok(report)
    ensures forall i :: 1 <= i <= 3 ==>
      (PeriodAnalysed(draws, i) <==> exists k :: 0 <= k < |report.euro| && report.euro[k].interval == i)
    ensures forall k :: 0 <= k < |report.euro| ==>
      1 <= report.euro[k].interval <= 3 && PeriodAnalysis(draws, report.euro[k].interval) == Ok(report.euro[k].analysis)
    ensures forall k, l :: 0 <= k < l < |report.euro| ==> report.euro[k].interval < report.euro[l].interval
  {
    JoinedPeriods(draws, report.euro);
  }

  /** The periods' parts, joined in order, as a finished run holds them. */
  lemma {:induction false} JoinedPeriods(draws: seq<Draw>, euro: seq<EuroResult>)
    requires PeriodResult(draws, 1).Ok? && PeriodResult(draws, 2).Ok? && PeriodResult(draws, 3).Ok?
    requires euro == PeriodResult(draws, 1).value + PeriodResult(draws, 2).value + PeriodResult(draws, 3).value
    ensures forall i :: 1 <= i <= 3 ==>
      (PeriodAnalysed(draws, i) <==> exists k :: 0 <= k < |euro| && euro[k].interval == i)
    ensures forall k :: 0 <= k < |euro| ==>
      1 <= euro[k].interval <= 3 && PeriodAnalysis(draws, euro[k].interval) == Ok(euro[k].analysis)
    ensures forall k, l :: 0 <= k < l < |euro| ==> euro[k].interval < euro[l].interval
  {
    var first, second, third := PeriodResult(draws, 1), PeriodResult(draws, 2), PeriodResult(draws, 3);
    PeriodsInOrder(first.value, second.value, third.value, euro);
    forall i | 1 <= i <= 3
      ensures PeriodAnalysed(draws, i) <==> exists k :: 0 <= k < |euro| && euro[k].interval == i
    {
      if i == 1 {
        assert PeriodAnalysed(draws, 1) <==> first.value != [];
      } else if i == 2 {
        assert PeriodAnalysed(draws, 2) <==> second.value != [];
      } else {
        assert PeriodAnalysed(draws, 3) <==> third.value != [];
      }
    }
  }

  /** Joining the periods' parts, each empty or holding its own period, keeps them in period order. */
  lemma PeriodsInOrder(p1: seq<EuroResult>, p2: seq<EuroResult>, p3: seq<EuroResult>, e: seq<EuroResult>)
    requires |p1| <= 1 && |p2| <= 1 && |p3| <= 1
    requires p1 != [] ==> p1[0].interval == 1
    requires p2 != [] ==> p2[0].interval == 2
    requires p3 != [] ==> p3[0].interval == 3
    requires e == p1 + p2 + p3
    ensures forall k :: 0 <= k < |e| ==> 1 <= e[k].interval <= 3
    ensures forall k :: 0 <= k < |e| && e[k].interval == 1 ==> e[k] == p1[0]
    ensures forall k :: 0 <= k < |e| && e[k].interval == 2 ==> e[k] == p2[0]
    ensures forall k :: 0 <= k < |e| && e[k].interval == 3 ==> e[k] == p3[0]
    ensures forall k, l :: 0 <= k < l < |e| ==> e[k].interval < e[l].interval
    ensures p1 != [] <==> exists k :: 0 <= k < |e| && e[k].interval == 1
    ensures p2 != [] <==> exists k :: 0 <= k < |e| && e[k].interval == 2
    ensures p3 != [] <==> exists k :: 0 <= k < |e| && e[k].interval == 3
  {
    if p1 != [] { assert e[0].interval == 1; }
    if p2 != [] { assert e[|p1|].interval == 2; }
    if p3 != [] { assert e[|p1| + |p2|].interval == 3; }
  }

  /** main: the run in the script's order, stopping at the first analysis that fails. */
  method AnalyzeAll(draws: seq<Draw>) returns (r: Result<RunReport, string>)
    ensures r == RunAnalysis(draws)
  {
    var main := AnalyzeMainNumbers(FrameOf(draws));
    if main.Err? {
      return Err(main.error);
    }
    var first := AnalyzePeriod(draws, 1);
    if first.Err? {
      return Err(first.error);
    }
    var second := AnalyzePeriod(draws, 2);
    if second.Err? {
      return Err(second.error);
    }
    var third := AnalyzePeriod(draws, 3);
    if third.Err? {
      return Err(third.error);
    }
    r := Ok(RunReport(main.value, first.value + second.value + third.value));
  }

  /** One `if len(interval_df) > 0` block of main: the period's rows are analysed when there are any. */
  method AnalyzePeriod(draws: seq<Draw>, i: nat) returns (part: Result<seq<EuroResult>, string>)
    requires 1 <= i <= 3
    ensures part == PeriodResult(draws, i)
  {
    var rows := InPeriod(draws, EuroPeriod(i));
    part := Ok([]);
    if |rows| > 0 {
      var r := AnalyzeEuroNumbers(FrameOf(rows), EuroMax(i));
      if r.Err? {
        part := Err(r.error);
      } else {
        part := Ok([EuroResult(i, r.value)]);
      }
    }
  }

  /** No draw is analysed in two euro-number periods. */
  lemma PeriodsDisjoint(draws: seq<Draw>, x: Draw)
    ensures !(x in InPeriod(draws, FirstEuroPeriod) && x in InPeriod(draws, SecondEuroPeriod))
    ensures !(x in InPeriod(draws, FirstEuroPeriod) && x in InPeriod(draws, ThirdEuroPeriod))
    ensures !(x in InPeriod(draws, SecondEuroPeriod) && x in InPeriod(draws, ThirdEuroPeriod))
  {
    EuroPeriodsDisjoint(x.date);
  }
}
