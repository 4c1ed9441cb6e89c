/**
 * The hot/cold split of the structured pick generator: the rows of a frequency table
 * (number, relative frequency) are ordered by descending frequency; the first rows are hot,
 * the last rows cold, every other number neutral; each list is reported sorted by number.
 * Then the validation of the generated main and euro categories.
 */
module HotCold {
  import opened Wrappers
  import opened Sequences

  /** One row of a frequency table, and one item of the output lists. */
  datatype Row = Row(number: int, frequency: real)

  datatype Categories = Categories(hot: seq<Row>, cold: seq<Row>, neutral: seq<Row>)

  /** The "main" and "euro" parts of the generated data. */
  datatype HotColdData = HotColdData(main: Categories, euro: Categories)

  function Numbers(s: seq<Row>): (r: seq<int>)
    ensures |r| == |s|
  {
    seq(|s|, i requires 0 <= i < |s| => s[i].number)
  }

  /** Ordered by descending frequency. */
  predicate Descending(s: seq<Row>) {
    forall i, j :: 0 <= i < j < |s| ==> s[j].frequency <= s[i].frequency
  }

  /** Ordered by ascending number. */
  predicate ByNumber(s: seq<Row>) {
    forall i, j :: 0 <= i < j < |s| ==> s[i].number <= s[j].number
  }

  // ---------------------------------------------------------------------------------------
  // Sorting.
  // ---------------------------------------------------------------------------------------

  function InsertDescending(x: Row, s: seq<Row>): (r: seq<Row>)
    requires Descending(s)
    ensures Descending(r)
    ensures |r| == |s| + 1 && (r[0] == x || (s != [] && r[0] == s[0]))
    ensures multiset(r) == multiset(s) + multiset{x}
  {
    if s == [] || s[0].frequency <= x.frequency then [x] + s
    else
      MultisetHeadTail(s);
      var rest := InsertDescending(x, s[1..]);
      DescendingCons(s[0], rest);
      [s[0]] + rest
  }

  lemma DescendingCons(h: Row, t: seq<Row>)
    requires Descending(t) && (t == [] || t[0].frequency <= h.frequency)
    ensures Descending([h] + t)
  {
    forall i, j | 0 <= i < j < |[h] + t| ensures ([h] + t)[j].frequency <= ([h] + t)[i].frequency {
      if i > 0 {
        assert ([h] + t)[i] == t[i - 1];
      }
      assert ([h] + t)[j] == t[j - 1];
    }
  }

  /**
   * `sort_values(freq, ascending=False)`: the same rows, by descending frequency. pandas does
   * not promise an order among equal frequencies, so neither does this contract.
   */
  method SortDescending(rows: seq<Row>) returns (sorted: seq<Row>)
    ensures multiset(sorted) == multiset(rows)
    ensures Descending(sorted)
  {
    sorted := [];
    for i := 0 to |rows|
      invariant multiset(sorted) == multiset(rows[..i])
      invariant Descending(sorted)
    {
      assert rows[..i + 1] == rows[..i] + [rows[i]];
      sorted := InsertDescending(rows[i], sorted);
    }
    assert rows[..|rows|] == rows;
  }

  function InsertByNumber(x: Row, s: seq<Row>): (r: seq<Row>)
    requires ByNumber(s)
    ensures ByNumber(r)
    ensures |r| == |s| + 1 && (r[0] == x || (s != [] && r[0] == s[0]))
    ensures multiset(r) == multiset(s) + multiset{x}
  {
    if s == [] || x.number < s[0].number then [x] + s
    else
      MultisetHeadTail(s);
      var rest := InsertByNumber(x, s[1..]);
      ByNumberCons(s[0], rest);
      [s[0]] + rest
  }

  lemma ByNumberCons(h: Row, t: seq<Row>)
    requires ByNumber(t) && (t == [] || h.number <= t[0].number)
    ensures ByNumber([h] + t)
  {
    forall i, j | 0 <= i < j < |[h] + t| ensures ([h] + t)[i].number <= ([h] + t)[j].number {
      if i > 0 {
        assert ([h] + t)[i] == t[i - 1];
      }
      assert ([h] + t)[j] == t[j - 1];
    }
  }

  /** `sorted(items, key=lambda x: x['number'])`: the same items by ascending number. */
  function SortByNumber(s: seq<Row>): (r: seq<Row>)
    ensures ByNumber(r)
    ensures multiset(r) == multiset(s)
  {
    if s == [] then []
    else
      assert s == s[..|s| - 1] + [s[|s| - 1]];
      InsertByNumber(s[|s| - 1], SortByNumber(s[..|s| - 1]))
  }

  // ---------------------------------------------------------------------------------------
  // Categorising.
  // ---------------------------------------------------------------------------------------

  function Min(a: nat, b: nat): nat {
    if a <= b then a else b
  }

  /** `head(k)`: the first k rows, or all of them. */
  function Head(s: seq<Row>, k: nat): (r: seq<Row>)
    ensures |r| == Min(k, |s|)
  {
    s[..Min(k, |s|)]
  }

  /** `tail(k)`: the last k rows, or all of them. */
  function Tail(s: seq<Row>, k: nat): (r: seq<Row>)
    ensures |r| == Min(k, |s|)
  {
    s[|s| - Min(k, |s|)..]
  }

  /** `df[~df['Number'].isin(excluded)]`: the rows whose number is not excluded, in table order. */
  function Neutral(df: seq<Row>, excluded: set<int>): (r: seq<Row>)
    ensures forall x :: x in r <==> x in df && x.number !in excluded
  {
    if df == [] then []
    else
      var last := df[|df| - 1];
      assert forall x :: x in df <==> x in df[..|df| - 1] || x == last;
      Neutral(df[..|df| - 1], excluded) + (if last.number in excluded then [] else [last])
  }

  /**
   * The categories categorize_numbers_with_frequencies returns when the descending sort put
   * the rows in the order `sorted`.
   */
  function CategoriesFor(df: seq<Row>, sorted: seq<Row>, hotCount: nat, coldCount: nat): Categories {
    var hot := Head(sorted, hotCount);
    var cold := Tail(sorted, coldCount);
    Categories(SortByNumber(hot), SortByNumber(cold), SortByNumber(Neutral(df, Elements(Numbers(hot + cold)))))
  }

  /**
   * categorize_numbers_with_frequencies: for some descending order of the rows, the first
   * hotCount rows are hot, the last coldCount rows are cold and the rows of the table whose
   * number is neither are neutral, each list sorted by number.
   */
  method CategorizeNumbers(df: seq<Row>, hotCount: nat, coldCount: nat) returns (c: Categories)
    ensures exists sorted :: multiset(sorted) == multiset(df) && Descending(sorted)
                             && c == CategoriesFor(df, sorted, hotCount, coldCount)
  {
    var sorted := SortDescending(df);
    var hotDf := Head(sorted, hotCount);
    var hot: seq<Row> := [];
    for i := 0 to |hotDf|
      invariant hot == hotDf[..i]
    {
      hot := hot + [Row(hotDf[i].number, hotDf[i].frequency)];
    }
    var coldDf := Tail(sorted, coldCount);
    var cold: seq<Row> := [];
    for i := 0 to |coldDf|
      invariant cold == coldDf[..i]
    {
      cold := cold + [Row(coldDf[i].number, coldDf[i].frequency)];
    }
    assert hot == hotDf && cold == coldDf;
    var hotColdNumbers := Elements(Numbers(hot + cold));
    var neutral: seq<Row> := [];
    for i := 0 to |df|
      invariant neutral == Neutral(df[..i], hotColdNumbers)
    {
      assert df[..i + 1][..i] == df[..i];
      if df[i].number !in hotColdNumbers {
        neutral := neutral + [Row(df[i].number, df[i].frequency)];
      }
    }
    assert df[..|df|] == df;
    c := Categories(SortByNumber(hot), SortByNumber(cold), SortByNumber(neutral));
    assert c == CategoriesFor(df, sorted, hotCount, coldCount);
  }

  // ---------------------------------------------------------------------------------------
  // Facts about rows, numbers and permutations.
  // ---------------------------------------------------------------------------------------

  lemma NumbersAppend(a: seq<Row>, b: seq<Row>)
    ensures Numbers(a + b) == Numbers(a) + Numbers(b)
  {
  }

  /** A number occurs in Numbers(s) exactly when some row of s carries it. */
  lemma NumbersMember(s: seq<Row>, x: int)
    ensures x in Numbers(s) <==> exists r :: r in s && r.number == x
  {
    if exists r :: r in s && r.number == x {
      var r :| r in s && r.number == x;
      var i :| 0 <= i < |s| && s[i] == r;
      assert Numbers(s)[i] == x;
    }
  }

  /** Rearranging the rows rearranges their numbers. */
  lemma {:induction false} NumbersPermutation(a: seq<Row>, b: seq<Row>)
    requires multiset(a) == multiset(b)
    ensures multiset(Numbers(a)) == multiset(Numbers(b))
    decreases |a|
  {
    if a == [] {
      assert |b| == |multiset(b)| == 0;
    } else {
      var x := a[|a| - 1];
      var init := a[..|a| - 1];
      assert a == init + [x];
      assert x in multiset(b);
      var k :| 0 <= k < |b| && b[k] == x;
      var rest := b[..k] + b[k + 1..];
      assert b == b[..k] + [x] + b[k + 1..];
      assert multiset(a) == multiset(init) + multiset{x};
      assert multiset(b) == multiset(b[..k]) + multiset{x} + multiset(b[k + 1..]);
      assert multiset(rest) == multiset(b[..k]) + multiset(b[k + 1..]);
      assert multiset(init) + multiset{x} == multiset(rest) + multiset{x};
      assert multiset(init) == multiset(init) + multiset{x} - multiset{x};
      NumbersPermutation(init, rest);
      NumbersAppend(init, [x]);
      NumbersAppend(b[..k] + [x], b[k + 1..]);
      NumbersAppend(b[..k], [x]);
      NumbersAppend(b[..k], b[k + 1..]);
    }
  }

  /** Rearranging the rows keeps which numbers occur. */
  lemma NumbersSameMembers(a: seq<Row>, b: seq<Row>)
    requires multiset(a) == multiset(b)
    ensures forall x :: x in Numbers(a) <==> x in Numbers(b)
  {
    NumbersPermutation(a, b);
    forall x ensures x in Numbers(a) <==> x in Numbers(b) {
      assert x in Numbers(a) <==> x in multiset(Numbers(a));
      assert x in Numbers(b) <==> x in multiset(Numbers(b));
    }
  }

  /** The rows kept by the neutral filter have distinct numbers when the table's rows do. */
  lemma {:induction false} NeutralNoDup(df: seq<Row>, excluded: set<int>)
    requires NoDup(Numbers(df))
    ensures NoDup(Numbers(Neutral(df, excluded)))
  {
    if df != [] {
      var init := df[..|df| - 1];
      var last := df[|df| - 1];
      assert Numbers(init) == Numbers(df)[..|df| - 1];
      NeutralNoDup(init, excluded);
      NumbersAppend(Neutral(init, excluded), if last.number in excluded then [] else [last]);
      forall r | r in Neutral(init, excluded) ensures r.number != last.number {
        var i :| 0 <= i < |init| && init[i] == r;
        assert Numbers(df)[i] == r.number && Numbers(df)[|df| - 1] == last.number;
      }
      NumbersMember(Neutral(init, excluded), last.number);
      NoDupAppend(Numbers(Neutral(init, excluded)), Numbers(if last.number in excluded then [] else [last]));
    }
  }

  // ---------------------------------------------------------------------------------------
  // What the categories promise.
  // ---------------------------------------------------------------------------------------

  /** Sorting by number keeps the rows, so it keeps their numbers and their count. */
  lemma SortByNumberRows(s: seq<Row>)
    ensures |SortByNumber(s)| == |s|
    ensures forall x :: x in SortByNumber(s) <==> x in s
    ensures multiset(Numbers(SortByNumber(s))) == multiset(Numbers(s))
  {
    var r := SortByNumber(s);
    assert |multiset(r)| == |multiset(s)|;
    forall x ensures x in r <==> x in s {
      assert x in r <==> x in multiset(r);
      assert x in s <==> x in multiset(s);
    }
    NumbersPermutation(r, s);
  }

  /** A hot row is one of the first Min(hotCount, |sorted|) rows of the descending order. */
  lemma HotPosition(sorted: seq<Row>, hotCount: nat, x: Row)
    requires x in SortByNumber(Head(sorted, hotCount))
    ensures exists i :: 0 <= i < Min(hotCount, |sorted|) && sorted[i] == x
  {
    SortByNumberRows(Head(sorted, hotCount));
    var i :| 0 <= i < |Head(sorted, hotCount)| && Head(sorted, hotCount)[i] == x;
  }

  /** A cold row is one of the last Min(coldCount, |sorted|) rows of the descending order. */
  lemma ColdPosition(sorted: seq<Row>, coldCount: nat, y: Row)
    requires y in SortByNumber(Tail(sorted, coldCount))
    ensures exists j :: |sorted| - Min(coldCount, |sorted|) <= j < |sorted| && sorted[j] == y
  {
    var cold := Tail(sorted, coldCount);
    SortByNumberRows(cold);
    var j :| 0 <= j < |cold| && cold[j] == y;
    assert sorted[|sorted| - Min(coldCount, |sorted|) + j] == y;
  }

  /** The number of every hot or cold row is among the excluded numbers. */
  lemma ExcludedPosition(sorted: seq<Row>, hotCount: nat, coldCount: nat, p: nat)
    requires p < |sorted|
    requires p < Min(hotCount, |sorted|) || |sorted| - Min(coldCount, |sorted|) <= p
    ensures sorted[p].number in Elements(Numbers(Head(sorted, hotCount) + Tail(sorted, coldCount)))
  {
    var hot := Head(sorted, hotCount);
    var cold := Tail(sorted, coldCount);
    if p < |hot| {
      assert (hot + cold)[p] == sorted[p];
      assert Numbers(hot + cold)[p] == sorted[p].number;
    } else {
      var q := |hot| + (p - (|sorted| - |cold|));
      assert (hot + cold)[q] == sorted[p];
      assert Numbers(hot + cold)[q] == sorted[p].number;
    }
  }

  /** A neutral row sits strictly between the hot and the cold rows of the descending order. */
  lemma NeutralPosition(df: seq<Row>, sorted: seq<Row>, hotCount: nat, coldCount: nat, y: Row)
    requires multiset(sorted) == multiset(df)
    requires y in CategoriesFor(df, sorted, hotCount, coldCount).neutral
    ensures exists p :: Min(hotCount, |sorted|) <= p < |sorted| - Min(coldCount, |sorted|) && sorted[p] == y
  {
    var excluded := Elements(Numbers(Head(sorted, hotCount) + Tail(sorted, coldCount)));
    SortByNumberRows(Neutral(df, excluded));
    assert y in df && y.number !in excluded;
    assert y in multiset(df);
    var p :| 0 <= p < |sorted| && sorted[p] == y;
    if p < Min(hotCount, |sorted|) || |sorted| - Min(coldCount, |sorted|) <= p {
      ExcludedPosition(sorted, hotCount, coldCount, p);
    }
  }

  /**
   * Hot frequencies are at least the neutral ones and neutral frequencies at least the cold
   * ones; when the hot and the cold rows do not overlap, every hot frequency is at least every
   * cold one.
   */
  lemma FrequencyOrder(df: seq<Row>, sorted: seq<Row>, hotCount: nat, coldCount: nat)
    requires multiset(sorted) == multiset(df) && Descending(sorted)
    ensures var c := CategoriesFor(df, sorted, hotCount, coldCount);
      && (forall x, y :: x in c.hot && y in c.neutral ==> y.frequency <= x.frequency)
      && (forall x, y :: x in c.neutral && y in c.cold ==> y.frequency <= x.frequency)
      && (hotCount + coldCount <= |df| ==> forall x, y :: x in c.hot && y in c.cold ==> y.frequency <= x.frequency)
  {
    var c := CategoriesFor(df, sorted, hotCount, coldCount);
    forall x, y | x in c.hot && y in c.neutral ensures y.frequency <= x.frequency {
      HotPosition(sorted, hotCount, x);
      NeutralPosition(df, sorted, hotCount, coldCount, y);
    }
    forall x, y | x in c.neutral && y in c.cold ensures y.frequency <= x.frequency {
      NeutralPosition(df, sorted, hotCount, coldCount, x);
      ColdPosition(sorted, coldCount, y);
    }
    if hotCount + coldCount <= |df| {
      assert |multiset(sorted)| == |multiset(df)|;
      forall x, y | x in c.hot && y in c.cold ensures y.frequency <= x.frequency {
        HotPosition(sorted, hotCount, x);
        ColdPosition(sorted, coldCount, y);
      }
    }
  }

  /** Sorting by number keeps distinct numbers distinct and keeps which numbers occur. */
  lemma SortByNumberNumbers(s: seq<Row>)
    requires NoDup(Numbers(s))
    ensures NoDup(Numbers(SortByNumber(s)))
    ensures forall x :: x in Numbers(SortByNumber(s)) <==> x in Numbers(s)
  {
    SortByNumberRows(s);
    NoDupPermutation(Numbers(s), Numbers(SortByNumber(s)));
    NumbersSameMembers(SortByNumber(s), s);
  }

  /** With distinct numbers and no overlap, the first and the last rows have distinct numbers. */
  lemma HeadTailDistinct(sorted: seq<Row>, hotCount: nat, coldCount: nat)
    requires NoDup(Numbers(sorted)) && hotCount + coldCount <= |sorted|
    ensures NoDup(Numbers(Head(sorted, hotCount) + Tail(sorted, coldCount)))
  {
    var hot := Head(sorted, hotCount);
    var cold := Tail(sorted, coldCount);
    var middle := sorted[hotCount..|sorted| - coldCount];
    assert sorted == hot + middle + cold;
    NumbersAppend(hot + middle, cold);
    NumbersAppend(hot, middle);
    NumbersAppend(hot, cold);
    HotColdNoDup(Numbers(hot), Numbers(middle), Numbers(cold));
  }

  /** Rearranging the hot and the cold rows separately keeps their numbers distinct and the same. */
  lemma RearrangedPair(hot: seq<Row>, cold: seq<Row>, hot': seq<Row>, cold': seq<Row>)
    requires multiset(hot') == multiset(hot) && multiset(cold') == multiset(cold)
    requires NoDup(Numbers(hot + cold))
    ensures |hot'| == |hot| && |cold'| == |cold|
    ensures NoDup(Numbers(hot' + cold'))
    ensures Elements(Numbers(hot' + cold')) == Elements(Numbers(hot + cold))
  {
    assert |multiset(hot')| == |multiset(hot)|;
    assert |multiset(cold')| == |multiset(cold)|;
    assert multiset(hot' + cold') == multiset(hot + cold);
    RearrangedNumbers(hot + cold, hot' + cold');
  }

  /** Rearranged rows keep distinct numbers distinct and keep which numbers occur. */
  lemma RearrangedNumbers(a: seq<Row>, b: seq<Row>)
    requires multiset(a) == multiset(b) && NoDup(Numbers(a))
    ensures NoDup(Numbers(b))
    ensures Elements(Numbers(b)) == Elements(Numbers(a))
  {
    NumbersPermutation(a, b);
    NoDupPermutation(Numbers(a), Numbers(b));
    NumbersSameMembers(b, a);
  }

  /** With distinct numbers and no overlap, the reported hot and cold rows have distinct numbers. */
  lemma HotColdDistinct(df: seq<Row>, sorted: seq<Row>, hotCount: nat, coldCount: nat)
    requires multiset(sorted) == multiset(df)
    requires NoDup(Numbers(df)) && hotCount + coldCount <= |df|
    ensures var c := CategoriesFor(df, sorted, hotCount, coldCount);
      && |c.hot| == hotCount && |c.cold| == coldCount
      && NoDup(Numbers(c.hot + c.cold))
      && Elements(Numbers(c.hot + c.cold)) == Elements(Numbers(Head(sorted, hotCount) + Tail(sorted, coldCount)))
  {
    assert |multiset(sorted)| == |multiset(df)|;
    NumbersPermutation(df, sorted);
    NoDupPermutation(Numbers(df), Numbers(sorted));
    HeadTailDistinct(sorted, hotCount, coldCount);
    var c := CategoriesFor(df, sorted, hotCount, coldCount);
    RearrangedPair(Head(sorted, hotCount), Tail(sorted, coldCount), c.hot, c.cold);
  }

  /** The neutral filter keeps the table's numbers that are not excluded. */
  lemma NeutralNumbers(df: seq<Row>, excluded: set<int>)
    ensures Elements(Numbers(Neutral(df, excluded))) == Elements(Numbers(df)) - excluded
  {
    forall x ensures x in Numbers(Neutral(df, excluded)) <==> x in Numbers(df) && x !in excluded {
      NumbersMember(Neutral(df, excluded), x);
      NumbersMember(df, x);
    }
  }

  /** The first and the last rows carry numbers of the table. */
  lemma HeadTailNumbers(sorted: seq<Row>, hotCount: nat, coldCount: nat)
    ensures Elements(Numbers(Head(sorted, hotCount) + Tail(sorted, coldCount))) <= Elements(Numbers(sorted))
  {
    var hotCold := Head(sorted, hotCount) + Tail(sorted, coldCount);
    forall x | x in Numbers(hotCold) ensures x in Numbers(sorted) {
      NumbersMember(hotCold, x);
      NumbersMember(sorted, x);
    }
  }

  /**
   * With distinct numbers and at most as many hot and cold rows as rows, the three lists
   * have the requested lengths and split the table's numbers: no number is in two lists and
   * together they hold exactly the table's numbers.
   */
  lemma Partition(df: seq<Row>, sorted: seq<Row>, hotCount: nat, coldCount: nat)
    requires multiset(sorted) == multiset(df) && Descending(sorted)
    requires NoDup(Numbers(df)) && hotCount + coldCount <= |df|
    ensures var c := CategoriesFor(df, sorted, hotCount, coldCount);
      && |c.hot| == hotCount && |c.cold| == coldCount
      && NoDup(Numbers(c.hot + c.cold + c.neutral))
      && Elements(Numbers(c.hot + c.cold + c.neutral)) == Elements(Numbers(df))
  {
    var c := CategoriesFor(df, sorted, hotCount, coldCount);
    var excluded := Elements(Numbers(Head(sorted, hotCount) + Tail(sorted, coldCount)));
    var neutral := Neutral(df, excluded);
    HotColdDistinct(df, sorted, hotCount, coldCount);
    NeutralNoDup(df, excluded);
    RearrangedNumbers(neutral, c.neutral);
    NeutralNumbers(df, excluded);
    HeadTailNumbers(sorted, hotCount, coldCount);
    RearrangedNumbers(df, sorted);
    NumbersAppend(c.hot + c.cold, c.neutral);
    SplitNumbers(Numbers(c.hot + c.cold), Numbers(c.neutral), Elements(Numbers(df)), excluded);
  }

  /** Distinct excluded numbers followed by distinct other numbers of a set cover it once each. */
  lemma SplitNumbers(excludedList: seq<int>, rest: seq<int>, all: set<int>, excluded: set<int>)
    requires NoDup(excludedList) && NoDup(rest)
    requires Elements(excludedList) == excluded && Elements(rest) == all - excluded && excluded <= all
    ensures NoDup(excludedList + rest) && Elements(excludedList + rest) == all
  {
    forall x | x in excludedList ensures x !in rest {
      assert x in Elements(excludedList);
    }
    NoDupAppend(excludedList, rest);
    assert Elements(excludedList + rest) == Elements(excludedList) + Elements(rest);
  }

  /** Distinct numbers in the order hot, middle, cold stay distinct without the middle. */
  lemma HotColdNoDup(hot: seq<int>, middle: seq<int>, cold: seq<int>)
    requires NoDup(hot + middle + cold)
    ensures NoDup(hot + cold)
  {
    var all := hot + middle + cold;
    var hc := hot + cold;
    forall i, j | 0 <= i < j < |hc| ensures hc[i] != hc[j] {
      var i' := if i < |hot| then i else i + |middle|;
      var j' := if j < |hot| then j else j + |middle|;
      assert all[i'] == hc[i] && all[j'] == hc[j];
    }
  }

  // ---------------------------------------------------------------------------------------
  // Validation.
  // ---------------------------------------------------------------------------------------

  function AllNumbers(c: Categories): seq<int> {
    Numbers(c.hot) + Numbers(c.cold) + Numbers(c.neutral)
  }

  /** s holds each of lo..hi exactly once and nothing else. */
  ghost predicate OnceEach(s: seq<int>, lo: int, hi: int) {
    NoDup(s) && forall x :: x in s <==> lo <= x <= hi
  }

  /**
   * validate_output: the main numbers sorted must be 1..50; `min`/`max` of the euro numbers
   * fail when there are none; the euro numbers sorted must be the run from their smallest to
   * their largest; no list may repeat a number; there must be 10 hot and 10 cold main and 3 hot
   * and 3 cold euro items. (Every item carries a frequency by construction.)
   */
  function ValidateOutput(data: HotColdData): (r: Result<bool, string>)
    ensures r.Err? <==> IsRun(SortAsc(AllNumbers(data.main)), 1, 50) && AllNumbers(data.euro) == []
  {
    var mainAll := AllNumbers(data.main);
    var euroAll := AllNumbers(data.euro);
    if !IsRun(SortAsc(mainAll), 1, 50) then Ok(false)
    else if euroAll == [] then Err("min() arg is an empty sequence")
    else if !IsRun(SortAsc(euroAll), MinOf(euroAll), MaxOf(euroAll)) then Ok(false)
    else if |mainAll| != |Elements(mainAll)| || |euroAll| != |Elements(euroAll)| then Ok(false)
    else if !(|data.main.hot| == 10 && |data.main.cold| == 10) then Ok(false)
    else if !(|data.euro.hot| == 3 && |data.euro.cold| == 3) then Ok(false)
    else Ok(true)
  }

  /** A list whose sorted values form a run has no duplicates: the duplicate check never fails. */
  lemma DuplicateCheckRedundant(s: seq<int>, lo: int, hi: int)
    requires IsRun(SortAsc(s), lo, hi)
    ensures |s| == |Elements(s)|
  {
    RunIsRange(SortAsc(s), lo, hi);
    SortAscIsRange(s, lo, hi);
    NoDupCard(s);
  }

  /** The sorted values of a list form the run lo..hi exactly when it holds lo..hi once each. */
  lemma SortedIsRun(s: seq<int>, lo: int, hi: int)
    ensures IsRun(SortAsc(s), lo, hi) <==> OnceEach(s, lo, hi)
  {
    RunIsRange(SortAsc(s), lo, hi);
    if SortAsc(s) == Range(lo, hi) {
      SortAscIsRange(s, lo, hi);
    }
    if OnceEach(s, lo, hi) {
      SortAscOfRange(s, lo, hi);
    }
  }

  /**
   * The validation passes exactly when the main numbers are 1..50 once each, the euro numbers
   * are a non-empty run once each, and the hot and cold lists have 10 / 10 (main) and 3 / 3
   * (euro) items.
   */
  lemma ValidateOutputMeaning(data: HotColdData)
    ensures ValidateOutput(data) == Ok(true) <==>
      && OnceEach(AllNumbers(data.main), 1, 50)
      && AllNumbers(data.euro) != []
      && OnceEach(AllNumbers(data.euro), MinOf(AllNumbers(data.euro)), MaxOf(AllNumbers(data.euro)))
      && |data.main.hot| == 10 && |data.main.cold| == 10
      && |data.euro.hot| == 3 && |data.euro.cold| == 3
  {
    var mainAll := AllNumbers(data.main);
    var euroAll := AllNumbers(data.euro);
    SortedIsRun(mainAll, 1, 50);
    if IsRun(SortAsc(mainAll), 1, 50) {
      DuplicateCheckRedundant(mainAll, 1, 50);
    }
    if euroAll != [] {
      SortedIsRun(euroAll, MinOf(euroAll), MaxOf(euroAll));
      if IsRun(SortAsc(euroAll), MinOf(euroAll), MaxOf(euroAll)) {
        DuplicateCheckRedundant(euroAll, MinOf(euroAll), MaxOf(euroAll));
      }
    }
  }

  /** The numbers of a table that are lo..hi once each are hi - lo + 1 in number. */
  lemma RunLength(df: seq<Row>, lo: int, hi: int)
    requires OnceEach(Numbers(df), lo, hi)
    ensures |df| == if lo <= hi then hi - lo + 1 else 0
  {
    SortAscOfRange(Numbers(df), lo, hi);
    assert |multiset(SortAsc(Numbers(df)))| == |multiset(Numbers(df))|;
  }

  /**
   * Categorising a table whose numbers are lo..hi once each, with at most as many hot and
   * cold rows as rows, reports the numbers lo..hi once each and the requested list lengths.
   */
  lemma CategoriesOfRun(df: seq<Row>, sorted: seq<Row>, hotCount: nat, coldCount: nat, lo: int, hi: int)
    requires multiset(sorted) == multiset(df) && Descending(sorted)
    requires OnceEach(Numbers(df), lo, hi)
    requires hotCount + coldCount <= |df|
    ensures var c := CategoriesFor(df, sorted, hotCount, coldCount);
      && OnceEach(AllNumbers(c), lo, hi)
      && |c.hot| == hotCount && |c.cold| == coldCount
  {
    var c := CategoriesFor(df, sorted, hotCount, coldCount);
    Partition(df, sorted, hotCount, coldCount);
    NumbersAppend(c.hot + c.cold, c.neutral);
    NumbersAppend(c.hot, c.cold);
    assert AllNumbers(c) == Numbers(c.hot + c.cold + c.neutral);
    forall x ensures x in AllNumbers(c) <==> lo <= x <= hi {
      assert x in AllNumbers(c) <==> x in Elements(Numbers(df));
    }
  }

  /** The main part of the generated data: 1..50 once each, 10 hot and 10 cold. */
  lemma MainCategoriesOfRun(mainDf: seq<Row>, mainSorted: seq<Row>)
    requires multiset(mainSorted) == multiset(mainDf) && Descending(mainSorted)
    requires OnceEach(Numbers(mainDf), 1, 50)
    ensures var c := CategoriesFor(mainDf, mainSorted, 10, 10);
      && OnceEach(AllNumbers(c), 1, 50)
      && |c.hot| == 10 && |c.cold| == 10
  {
    RunLength(mainDf, 1, 50);
    CategoriesOfRun(mainDf, mainSorted, 10, 10, 1, 50);
  }

  /** The euro part of the generated data: a run once each from its smallest to its largest, 3 hot and 3 cold. */
  lemma EuroCategoriesOfRun(euroDf: seq<Row>, euroSorted: seq<Row>, lo: int, hi: int)
    requires multiset(euroSorted) == multiset(euroDf) && Descending(euroSorted)
    requires OnceEach(Numbers(euroDf), lo, hi)
    requires 6 <= |euroDf|
    ensures var c := CategoriesFor(euroDf, euroSorted, 3, 3);
      && AllNumbers(c) != [] && OnceEach(AllNumbers(c), MinOf(AllNumbers(c)), MaxOf(AllNumbers(c)))
      && |c.hot| == 3 && |c.cold| == 3
  {
    RunLength(euroDf, lo, hi);
    CategoriesOfRun(euroDf, euroSorted, 3, 3, lo, hi);
    var euroAll := AllNumbers(CategoriesFor(euroDf, euroSorted, 3, 3));
    assert lo in euroAll && hi in euroAll;
    assert MinOf(euroAll) == lo && MaxOf(euroAll) == hi;
  }

  /**
   * What the generator promises its own validation: a main table holding 1..50 once each and
   * a euro table holding a run of at least six numbers once each, categorised 10 / 10 and
   * 3 / 3 under any descending order, pass every check.
   */
  lemma GeneratedDataValidates(mainDf: seq<Row>, mainSorted: seq<Row>, euroDf: seq<Row>, euroSorted: seq<Row>, lo: int, hi: int)
    requires multiset(mainSorted) == multiset(mainDf) && Descending(mainSorted)
    requires OnceEach(Numbers(mainDf), 1, 50)
    requires multiset(euroSorted) == multiset(euroDf) && Descending(euroSorted)
    requires OnceEach(Numbers(euroDf), lo, hi)
    requires 6 <= |euroDf|
    ensures ValidateOutput(HotColdData(CategoriesFor(mainDf, mainSorted, 10, 10),
                                       CategoriesFor(euroDf, euroSorted, 3, 3))) == Ok(true)
  {
    MainCategoriesOfRun(mainDf, mainSorted);
    EuroCategoriesOfRun(euroDf, euroSorted, lo, hi);
    ValidateOutputMeaning(HotColdData(CategoriesFor(mainDf, mainSorted, 10, 10), CategoriesFor(euroDf, euroSorted, 3, 3)));
  }
}
