/**
 * The data behind the sum charts of the web page: the main and euro sums of a drawing
 * record, the time-frame filter of the main-sum chart, the empirical distribution built
 * from the filtered records, and the summary statistics shown under a chart.
 */
module SumsChart {
  import opened Wrappers
  import opened Sequences
  import opened Tally
  import opened Draws

  /** `parseInt(a) + parseInt(b) + ...`: NaN (None) as soon as one field is not a number. */
  function ParsedSum(fields: seq<Cell>): (r: Option<int>)
    ensures r.Some? <==> Complete(fields)
    ensures r.Some? ==> r.value == Sum(Present(fields))
  {
    if fields == [] then Some(0)
    else
      var init := fields[..|fields| - 1];
      var rest := ParsedSum(init);
      assert fields == init + [fields[|fields| - 1]];
      PresentAppend(init, [fields[|fields| - 1]]);
      match fields[|fields| - 1]
      case None => None
      case Some(x) =>
        if rest.None? then None
        else
          SumAppend(Present(init), [x]);
          Some(rest.value + x)
  }

  /** A raw drawing record: its date and the two sums the page computes from it. */
  datatype DrawRecord = DrawRecord(date: Date, mainSum: Option<int>, euroSum: Option<int>)

  /** The record of a table row: mainSum from Z1..Z5, euroSum from EZ1..EZ2. */
  function RecordOf(d: Draw): DrawRecord {
    DrawRecord(d.date, ParsedSum(d.main), ParsedSum(d.euro))
  }

  /** A record with five main numbers and two euro numbers has mainSum Z1 + ... + Z5 and euroSum EZ1 + EZ2. */
  lemma RecordSums(d: Draw)
    requires |d.main| == 5 && Complete(d.main) && |d.euro| == 2 && Complete(d.euro)
    ensures RecordOf(d).mainSum == Some(d.main[0].value + d.main[1].value + d.main[2].value + d.main[3].value + d.main[4].value)
    ensures RecordOf(d).euroSum == Some(d.euro[0].value + d.euro[1].value)
  {
    RowSumOfFive(d.main);
    RowSumOfTwo(d.euro);
  }

  /** A record in which one main number is not a number has no main sum. */
  lemma RecordMissingMain(d: Draw, i: int)
    requires 0 <= i < |d.main| && d.main[i].None?
    ensures RecordOf(d).mainSum.None?
  {
  }

  /** How many years back a time frame reaches; None for 'max' and for any other value. */
  function YearsBack(timeFrame: string): (r: Option<int>)
    ensures r.Some? ==> 1 <= r.value <= 3
  {
    if timeFrame == "1year" then Some(1)
    else if timeFrame == "2years" then Some(2)
    else if timeFrame == "3years" then Some(3)
    else None
  }

  predicate LeapYear(y: int) {
    y % 4 == 0 && (y % 100 != 0 || y % 400 == 0)
  }

  /**
   * `new Date(now.getFullYear() - years, now.getMonth(), now.getDate())`: the same day
   * `years` years back; 29 February of a year that is not a leap year rolls over to 1 March.
   */
  function StartDate(now: Date, years: int): (r: Date)
    ensures r.year == now.year - years
    ensures !(now.month == 2 && now.day == 29) ==> r.month == now.month && r.day == now.day
  {
    if now.month == 2 && now.day == 29 && !LeapYear(now.year - years) then Date(now.year - years, 3, 1)
    else Date(now.year - years, now.month, now.day)
  }

  /** The records dated on or after `start`, in order (`data.filter(record => record.date >= start)`). */
  function Since(data: seq<DrawRecord>, start: Date): (r: seq<DrawRecord>)
    ensures |r| <= |data|
    ensures forall x :: x in r <==> x in data && DateLe(start, x.date)
  {
    if data == [] then []
    else
      var init := data[..|data| - 1];
      var last := data[|data| - 1];
      assert forall x :: x in data <==> x in init || x == last;
      Since(init, start) + (if DateLe(start, last.date) then [last] else [])
  }

  /** The filter keeps the order of the records. */
  lemma {:induction false} SinceAppend(a: seq<DrawRecord>, b: seq<DrawRecord>, start: Date)
    ensures Since(a + b, start) == Since(a, start) + Since(b, start)
  {
    if b == [] {
      assert a + b == a;
    } else {
      var init := b[..|b| - 1];
      assert (a + b)[..|a + b| - 1] == a + init;
      assert (a + b)[|a + b| - 1] == b[|b| - 1];
      SinceAppend(a, init, start);
    }
  }

  /**
   * filterDataByTimeFrame: all records for an empty list, for 'max' and for an unknown time
   * frame; else the records dated on or after the start of the time frame, in order.
   */
  function FilterDataByTimeFrame(data: seq<DrawRecord>, timeFrame: string, now: Date): (r: seq<DrawRecord>)
    ensures data == [] || YearsBack(timeFrame).None? ==> r == data
    ensures YearsBack(timeFrame).Some? ==>
      forall x :: x in r <==> x in data && DateLe(StartDate(now, YearsBack(timeFrame).value), x.date)
  {
    if data == [] then data
    else match YearsBack(timeFrame)
      case None => data
      case Some(years) => Since(data, StartDate(now, years))
  }

  /** A longer time frame keeps every record a shorter one keeps. */
  lemma LongerTimeFrameKeepsMore(data: seq<DrawRecord>, now: Date, x: DrawRecord)
    ensures x in FilterDataByTimeFrame(data, "1year", now) ==> x in FilterDataByTimeFrame(data, "2years", now)
    ensures x in FilterDataByTimeFrame(data, "2years", now) ==> x in FilterDataByTimeFrame(data, "3years", now)
    ensures x in FilterDataByTimeFrame(data, "3years", now) ==> x in FilterDataByTimeFrame(data, "max", now)
  {
    assert YearsBack("1year") == Some(1);
    assert YearsBack("2years") == Some(2);
    assert YearsBack("3years") == Some(3);
    assert YearsBack("max") == None;
  }

  /** A point of a chart: a sum and its count (empirical) or probability (theoretical). */
  datatype Point = Point(sum: int, value: real)

  predicate SortedBySum(s: seq<Point>) {
    forall i, j :: 0 <= i < j < |s| ==> s[i].sum <= s[j].sum
  }

  function InsertBySum(p: Point, s: seq<Point>): (r: seq<Point>)
    requires SortedBySum(s)
    ensures |r| == |s| + 1 && (r[0] == p || (s != [] && r[0] == s[0]))
    ensures SortedBySum(r)
    ensures multiset(r) == multiset(s) + multiset{p}
  {
    if s == [] || p.sum <= s[0].sum then [p] + s
    else
      MultisetHeadTail(s);
      var tail := InsertBySum(p, s[1..]);
      SortedBySumCons(s[0], tail);
      [s[0]] + tail
  }

  lemma SortedBySumCons(h: Point, t: seq<Point>)
    requires SortedBySum(t) && (t == [] || h.sum <= t[0].sum)
    ensures SortedBySum([h] + t)
  {
    forall i, j | 0 <= i < j < |[h] + t| ensures ([h] + t)[i].sum <= ([h] + t)[j].sum {
      if i > 0 {
        assert ([h] + t)[i] == t[i - 1];
      }
      assert ([h] + t)[j] == t[j - 1];
    }
  }

  /** `sort((a, b) => a.sum - b.sum)`. */
  function SortBySum(s: seq<Point>): (r: seq<Point>)
    ensures SortedBySum(r)
    ensures multiset(r) == multiset(s)
  {
    if s == [] then []
    else
      MultisetHeadTail(s);
      InsertBySum(s[0], SortBySum(s[1..]))
  }

  function SumsOf(points: seq<Point>): (r: seq<int>)
    ensures |r| == |points|
  {
    seq(|points|, i requires 0 <= i < |points| => points[i].sum)
  }

  /** The histogram of the sums as chart points: one point per distinct sum, valued by its count. */
  function HistogramPoints(sums: seq<int>): (r: seq<Point>)
    ensures |r| == |Histogram(sums)|
  {
    var bins := Histogram(sums);
    seq(|bins|, i requires 0 <= i < |bins| => Point(bins[i].value, bins[i].count as real))
  }

  /**
   * createEmpiricalDistributionFromData, given the sums of the records: counts every sum
   * in `sumCounts`, turns each key into a point and sorts the points by sum. The result is
   * the histogram of the sums.
   */
  method CreateEmpiricalDistributionFromData(sums: seq<int>) returns (result: seq<Point>)
    ensures result == HistogramPoints(sums)
  {
    var sumCounts: map<int, nat> := map[];
    // The keys seen so far.
    var keys: seq<int> := [];
    for i := 0 to |sums|
      invariant sumCounts.Keys == Elements(sums[..i]) == Elements(keys)
      invariant NoDup(keys)
      invariant forall v :: v in sumCounts ==> sumCounts[v] == Count(sums[..i], v)
    {
      var s := sums[i];
      assert sums[..i + 1] == sums[..i] + [s];
      if s !in sumCounts {
        keys := keys + [s];
      }
      sumCounts := sumCounts[s := (if s in sumCounts then sumCounts[s] else 0) + 1];
    }
    assert sums[..|sums|] == sums;
    var points := seq(|keys|, i requires 0 <= i < |keys| => Point(keys[i], sumCounts[keys[i]] as real));
    forall k | k in sumCounts.Keys ensures exists p :: p in points && p.sum == k {
      var i :| 0 <= i < |keys| && keys[i] == k;
      assert points[i] in points;
    }
    assert NoDup(points) by {
      forall i, j | 0 <= i < j < |points| ensures points[i] != points[j] {
        assert points[i].sum == keys[i] && points[j].sum == keys[j];
      }
    }
    result := SortBySum(points);
    SortedHistogram(sums, sumCounts, points, result);
  }

  /** The sorted points are the histogram: their sums are the distinct sums ascending, their values the counts. */
  lemma SortedHistogram(sums: seq<int>, sumCounts: map<int, nat>, points: seq<Point>, result: seq<Point>)
    requires sumCounts.Keys == Elements(sums)
    requires forall v :: v in sumCounts ==> sumCounts[v] == Count(sums, v)
    requires forall p :: p in points ==> p.sum in sumCounts && p.value == sumCounts[p.sum] as real
    requires forall k :: k in sumCounts.Keys ==> exists p :: p in points && p.sum == k
    requires NoDup(points)
    requires SortedBySum(result) && multiset(result) == multiset(points)
    ensures result == HistogramPoints(sums)
  {
    NoDupPermutation(points, result);
    SubMultisetMembers(result, points);
    SubMultisetMembers(points, result);
    var keys := SumsOf(result);
    forall i, j | 0 <= i < j < |keys| ensures keys[i] < keys[j] {
      assert result[i] in points && result[j] in points;
      assert result[i] != result[j];
      assert result[i] == Point(result[i].sum, sumCounts[result[i].sum] as real);
      assert result[j] == Point(result[j].sum, sumCounts[result[j].sum] as real);
    }
    forall x ensures x in keys <==> x in Distinct(sums) {
      if x in keys {
        var i :| 0 <= i < |keys| && keys[i] == x;
        assert result[i] in points;
      }
      if x in Distinct(sums) {
        assert x in Elements(sums);
        var p :| p in points && p.sum == x;
        var i :| 0 <= i < |result| && result[i] == p;
        assert keys[i] == x;
      }
    }
    AscendingUnique(keys, Distinct(sums));
    forall i | 0 <= i < |result| ensures result[i] == HistogramPoints(sums)[i] {
      assert result[i] in points;
      assert keys[i] == result[i].sum;
    }
  }

  /** The integer parts of calculateStatistics (the mean is floating point). */
  datatype Statistics = Statistics(min: int, max: int, total: real)

  /** `values.reduce((sum, val) => sum + val, 0)`: the values added left to right. */
  function ValueSum(points: seq<Point>): real {
    if points == [] then 0.0 else ValueSum(points[..|points| - 1]) + points[|points| - 1].value
  }

  /**
   * calculateStatistics: all zero for no data; otherwise the smallest and largest sum, and
   * as total the sum of the values (frequency data) or the number of points.
   */
  function CalculateStatistics(data: seq<Point>, isFrequency: bool): (r: Statistics)
    ensures data == [] ==> r == Statistics(0, 0, 0.0)
    ensures data != [] ==> r.min in SumsOf(data) && r.max in SumsOf(data)
    ensures data != [] ==> forall i :: 0 <= i < |data| ==> r.min <= data[i].sum <= r.max
    ensures data != [] && isFrequency ==> r.total == ValueSum(data)
    ensures data != [] && !isFrequency ==> r.total == |data| as real
  {
    if data == [] then Statistics(0, 0, 0.0)
    else
      var sums := SumsOf(data);
      assert forall i :: 0 <= i < |data| ==> data[i].sum == sums[i] && sums[i] in sums;
      Statistics(MinOf(sums), MaxOf(sums), if isFrequency then ValueSum(data) else |data| as real)
  }

  lemma {:induction false} HistogramPointsTotal(sums: seq<int>, bins: seq<Bin>, points: seq<Point>)
    requires |points| == |bins| && forall i :: 0 <= i < |bins| ==> points[i].value == bins[i].count as real
    ensures ValueSum(points) == TotalCount(bins) as real
  {
    if bins != [] {
      HistogramPointsTotal(sums, bins[..|bins| - 1], points[..|points| - 1]);
    }
  }

  /** Sequences with the same elements have the same smallest and largest element. */
  lemma SameMinMax(s: seq<int>, t: seq<int>)
    requires s != [] && t != []
    requires forall x :: x in s <==> x in t
    ensures MinOf(s) == MinOf(t) && MaxOf(s) == MaxOf(t)
  {
    assert MinOf(s) in t && MinOf(t) in s;
    assert MaxOf(s) in t && MaxOf(t) in s;
  }

  /**
   * The statistics of the empirical distribution of non-empty sums: the smallest and the
   * largest sum, and as total the number of records.
   */
  lemma EmpiricalStatistics(sums: seq<int>)
    requires sums != []
    ensures CalculateStatistics(HistogramPoints(sums), true) == Statistics(MinOf(sums), MaxOf(sums), |sums| as real)
  {
    var points := HistogramPoints(sums);
    HistogramPointsSums(sums);
    HistogramPointsValueSum(sums);
    assert sums[0] in sums;
    SameMinMax(SumsOf(points), sums);
  }

  /** The sums of the chart points are the distinct sums, in ascending order. */
  lemma HistogramPointsSums(sums: seq<int>)
    ensures SumsOf(HistogramPoints(sums)) == Distinct(sums)
  {
  }

  /** The values of the chart points add up to the number of sums tallied. */
  lemma HistogramPointsValueSum(sums: seq<int>)
    ensures ValueSum(HistogramPoints(sums)) == |sums| as real
  {
    HistogramTotal(sums);
    HistogramPointsTotal(sums, Histogram(sums), HistogramPoints(sums));
  }

  /** `Math.round`: the nearest integer, halves rounded up. */
  function Round(x: real): (r: int)
    ensures x - 0.5 < r as real <= x + 0.5
  {
    (x + 0.5).Floor
  }

  /**
   * The draw count the sums page shows as written: the empirical total divided by the numbers
   * per draw, 5 for the main chart and 2 for the euro charts, and rounded.
   */
  function DrawsShownAsWritten(sums: seq<int>, perDraw: nat): int
    requires perDraw > 0
  {
    Round(CalculateStatistics(HistogramPoints(sums), true).total / perDraw as real)
  }

  /**
   * The empirical total already counts records, one sum each, so dividing it again shows fewer
   * draws than were charted: with two or more records, for both the main and the euro charts.
   */
  lemma {:induction false} DrawsShownUndercount(sums: seq<int>, perDraw: nat)
    requires perDraw >= 2 && |sums| >= 2
    ensures DrawsShownAsWritten(sums, perDraw) < |sums|
  {
    EmpiricalStatistics(sums);
    RoundQuotientBelow(|sums|, perDraw);
  }

  /** Rounding n / p for p >= 2 gives less than n once n >= 2. */
  lemma RoundQuotientBelow(n: nat, p: nat)
    requires n >= 2 && p >= 2
    ensures Round(n as real / p as real) < n
  {
    var x := n as real / p as real;
    assert x * p as real == n as real;
    assert x >= 0.0;
    assert x * 2.0 <= x * p as real;
    assert x + 0.5 < n as real;
  }

  /** Ten records on the main chart are shown as 2 draws. */
  lemma TenMainRecordsShownAsTwo(sums: seq<int>)
    requires |sums| == 10
    ensures DrawsShownAsWritten(sums, 5) == 2
  {
    EmpiricalStatistics(sums);
  }

  /** The number of draws behind an empirical chart: its total, since every record adds one sum. */
  function DrawsShown(sums: seq<int>): (r: nat)
    ensures r == |sums|
  {
    if sums == [] then 0
    else
      EmpiricalStatistics(sums);
      CalculateStatistics(HistogramPoints(sums), true).total.Floor
  }
}
