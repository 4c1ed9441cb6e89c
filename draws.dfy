/**
 * The drawing-results table the analysis scripts read: one row per draw with its date, the
 * main numbers Z1..Z5 and the euro numbers EZ1..EZ2, any of which may be missing (NaN);
 * the date windows of the three euro-number periods; and the row sums pandas computes.
 */
module Draws {
  import opened Wrappers
  import opened Sequences

  /** One cell of the table: a number, or None where pandas holds NaN. */
  type Cell = Option<int>

  /** A calendar day. */
  datatype Date = Date(year: int, month: int, day: int)

  /** Chronological order of calendar days: year, then month, then day. */
  predicate DateLe(a: Date, b: Date) {
    a.year < b.year || (a.year == b.year && (a.month < b.month || (a.month == b.month && a.day <= b.day)))
  }

  lemma DateLeTotal(a: Date, b: Date)
    ensures DateLe(a, b) || DateLe(b, a)
    ensures DateLe(a, b) && DateLe(b, a) ==> a == b
  {
  }

  lemma DateLeTransitive(a: Date, b: Date, c: Date)
    requires DateLe(a, b) && DateLe(b, c)
    ensures DateLe(a, c)
  {
  }

  /** One row: the date of the draw, Z1..Z5 and EZ1..EZ2. */
  datatype Draw = Draw(date: Date, main: seq<Cell>, euro: seq<Cell>)

  /** The days from `first` to `last` inclusive, or from `first` on when `last` is None. */
  datatype Window = Window(first: Date, last: Option<Date>)

  predicate InWindow(d: Date, w: Window) {
    DateLe(w.first, d) && (w.last.None? || DateLe(d, w.last.value))
  }

  /** Euro numbers 1..8. */
  const FirstEuroPeriod := Window(Date(2012, 3, 23), Some(Date(2014, 10, 3)))
  /** Euro numbers 1..10. */
  const SecondEuroPeriod := Window(Date(2014, 10, 10), Some(Date(2022, 3, 18)))
  /** Euro numbers 1..12, up to the present. */
  const ThirdEuroPeriod := Window(Date(2022, 3, 25), None)

  /** No day lies in two of the euro periods. */
  lemma EuroPeriodsDisjoint(d: Date)
    ensures !(InWindow(d, FirstEuroPeriod) && InWindow(d, SecondEuroPeriod))
    ensures !(InWindow(d, FirstEuroPeriod) && InWindow(d, ThirdEuroPeriod))
    ensures !(InWindow(d, SecondEuroPeriod) && InWindow(d, ThirdEuroPeriod))
  {
  }

  /** The rows whose date lies in the window, in table order (a boolean mask on the date column). */
  function InPeriod(draws: seq<Draw>, w: Window): (r: seq<Draw>)
    ensures |r| <= |draws|
    ensures forall x :: x in r <==> x in draws && InWindow(x.date, w)
  {
    if draws == [] then []
    else
      var init := draws[..|draws| - 1];
      var last := draws[|draws| - 1];
      assert forall x :: x in draws <==> x in init || x == last;
      InPeriod(init, w) + (if InWindow(last.date, w) then [last] else [])
  }

  /** Masking keeps the table order: the mask of a concatenation is the concatenation of the masks. */
  lemma {:induction false} InPeriodAppend(a: seq<Draw>, b: seq<Draw>, w: Window)
    ensures InPeriod(a + b, w) == InPeriod(a, w) + InPeriod(b, w)
  {
    if b == [] {
      assert a + b == a;
    } else {
      var init := b[..|b| - 1];
      assert (a + b)[..|a + b| - 1] == a + init;
      assert (a + b)[|a + b| - 1] == b[|b| - 1];
      InPeriodAppend(a, init, w);
    }
  }

  /** The rows of a table split among the three euro periods at most once each. */
  lemma {:induction false} EuroPeriodsCount(draws: seq<Draw>)
    ensures |InPeriod(draws, FirstEuroPeriod)| + |InPeriod(draws, SecondEuroPeriod)|
      + |InPeriod(draws, ThirdEuroPeriod)| <= |draws|
  {
    if draws != [] {
      EuroPeriodsCount(draws[..|draws| - 1]);
      EuroPeriodsDisjoint(draws[|draws| - 1].date);
    }
  }

  /** The numbers present in a row of cells, in order. */
  function Present(cells: seq<Cell>): (r: seq<int>)
    ensures |r| <= |cells|
    ensures forall x :: x in r <==> Some(x) in cells
  {
    if cells == [] then []
    else
      var init := cells[..|cells| - 1];
      assert forall c :: c in cells <==> c in init || c == cells[|cells| - 1];
      Present(init) + (match cells[|cells| - 1] case Some(x) => [x] case None => [])
  }

  /** No cell is missing. */
  predicate Complete(cells: seq<Cell>) {
    forall i :: 0 <= i < |cells| ==> cells[i].Some?
  }

  lemma {:induction false} PresentComplete(cells: seq<Cell>)
    requires Complete(cells)
    ensures |Present(cells)| == |cells|
    ensures forall i :: 0 <= i < |cells| ==> Present(cells)[i] == cells[i].value
  {
    if cells != [] {
      PresentComplete(cells[..|cells| - 1]);
    }
  }

  lemma {:induction false} PresentAppend(a: seq<Cell>, b: seq<Cell>)
    ensures Present(a + b) == Present(a) + Present(b)
  {
    if b == [] {
      assert a + b == a;
    } else {
      assert (a + b)[..|a + b| - 1] == a + b[..|b| - 1];
      assert (a + b)[|a + b| - 1] == b[|b| - 1];
      PresentAppend(a, b[..|b| - 1]);
    }
  }

  /** pandas `sum(axis=1)`: the sum of the numbers present, missing cells skipped (0 when all are). */
  function RowSum(cells: seq<Cell>): int {
    Sum(Present(cells))
  }

  /** A complete row of five sums to Z1 + Z2 + Z3 + Z4 + Z5. */
  lemma RowSumOfFive(cells: seq<Cell>)
    requires |cells| == 5 && Complete(cells)
    ensures RowSum(cells) == cells[0].value + cells[1].value + cells[2].value + cells[3].value + cells[4].value
  {
    PresentComplete(cells);
    var p := Present(cells);
    assert p[4..][1..] == [] && Sum(p[4..]) == p[4];
    assert p[3..][1..] == p[4..] && Sum(p[3..]) == p[3] + Sum(p[4..]);
    assert p[2..][1..] == p[3..] && Sum(p[2..]) == p[2] + Sum(p[3..]);
    assert p[1..][1..] == p[2..] && Sum(p[1..]) == p[1] + Sum(p[2..]);
  }

  /** A complete row of two sums to EZ1 + EZ2. */
  lemma RowSumOfTwo(cells: seq<Cell>)
    requires |cells| == 2 && Complete(cells)
    ensures RowSum(cells) == cells[0].value + cells[1].value
  {
    PresentComplete(cells);
    var p := Present(cells);
    assert p[1..][1..] == [] && Sum(p[1..]) == p[1];
  }
}
