/**
 * The custom pick generator (CustomPickGenerator): the user presets some main and euro
 * numbers, the generator completes each pick at random, optionally spreading the missing
 * main numbers over the decades no preset occupies.
 */
module CustomPick {
  import opened Wrappers
  import opened Sequences
  import RandomSource
  import opened PickEngine
  import opened PickExport
  import opened Text
  import opened NumberInput

  /** The first n elements of s, or all of them (`slice(0, n)`). */
  function Take(s: seq<int>, n: nat): (r: seq<int>)
    ensures |r| == if |s| < n then |s| else n
    ensures r == s[..|r|]
  {
    if |s| <= n then s else s[..n]
  }

  /** A prefix keeps distinctness and bounds. */
  lemma TakeKeeps(s: seq<int>, n: nat, lo: int, hi: int)
    requires NoDup(s) && AllIn(s, lo, hi)
    ensures NoDup(Take(s, n)) && AllIn(Take(s, n), lo, hi)
  {
    var t := Take(s, n);
    assert forall i :: 0 <= i < |t| ==> t[i] == s[i];
  }

  /** The decade indexes `Math.floor((num - 1) / 10)` of the preset numbers. */
  function OccupiedDecades(customNumbers: seq<int>): set<int> {
    set num | num in customNumbers :: (num - 1) / 10
  }

  /** The decades 0..4 no preset occupies, in ascending order. */
  function FreeDecades(customNumbers: seq<int>): (r: seq<int>)
    ensures |r| <= 5
    ensures forall i :: 0 <= i < |r| ==> 0 <= r[i] < 5 && r[i] !in OccupiedDecades(customNumbers)
    ensures forall d :: 0 <= d < 5 && d !in OccupiedDecades(customNumbers) ==> d in r
    ensures forall i, j :: 0 <= i < j < |r| ==> r[i] < r[j]
  {
    FreeFrom(customNumbers, 0)
  }

  function FreeFrom(customNumbers: seq<int>, d: int): (r: seq<int>)
    requires 0 <= d <= 5
    ensures |r| <= 5 - d
    ensures forall i :: 0 <= i < |r| ==> d <= r[i] < 5 && r[i] !in OccupiedDecades(customNumbers)
    ensures forall e :: d <= e < 5 && e !in OccupiedDecades(customNumbers) ==> e in r
    ensures forall i, j :: 0 <= i < j < |r| ==> r[i] < r[j]
    decreases 5 - d
  {
    if d == 5 then []
    else if d in OccupiedDecades(customNumbers) then FreeFrom(customNumbers, d + 1)
    else [d] + FreeFrom(customNumbers, d + 1)
  }

  /** A number lies in the decade whose index `Math.floor((num - 1) / 10)` gives. */
  lemma DecadeIndex(num: int)
    ensures DecadeLo((num - 1) / 10) <= num <= DecadeHi((num - 1) / 10)
  {
  }

  /** No preset lies in a free decade. */
  lemma FreeDecadeEmpty(customNumbers: seq<int>, d: int, x: int)
    requires d !in OccupiedDecades(customNumbers) && x in customNumbers
    ensures !(DecadeLo(d) <= x <= DecadeHi(d))
  {
    assert (x - 1) / 10 in OccupiedDecades(customNumbers);
    DecadeIndex(x);
  }

  /**
   * The do-while of the first phase of generateBalancedRemaining for one free decade. The
   * loop repeats while the number is already held or preset (at most 50 times); in a free
   * decade after the earlier free decades neither can happen, so it stops after one draw.
   */
  method FreeDecadeDraw(remaining: seq<int>, customNumbers: seq<int>, lo: int, hi: int)
    returns (num: int, attempts: nat)
    requires lo <= hi
    requires forall x :: x in remaining ==> x < lo
    requires forall x :: x in customNumbers ==> !(lo <= x <= hi)
    ensures lo <= num <= hi && num !in remaining && num !in customNumbers
    ensures attempts == 1
  {
    attempts := 0;
    num := lo;
    var again := true;
    while again
      invariant again <==> attempts == 0
      invariant !again ==> lo <= num <= hi && num !in remaining && num !in customNumbers && attempts == 1
      decreases if again then 1 else 0
    {
      num := RandomSource.NextInt(lo, hi);
      attempts := attempts + 1;
      again := (num in remaining || num in customNumbers) && attempts < 50;
    }
  }

  /** What availableRanges lists: ascending decade indexes 0..4 that no preset occupies. */
  predicate FreeList(ranges: seq<int>, customNumbers: seq<int>) {
    (forall i :: 0 <= i < |ranges| ==> 0 <= ranges[i] < 5 && ranges[i] !in OccupiedDecades(customNumbers))
    && forall i, j :: 0 <= i < j < |ranges| ==> ranges[i] < ranges[j]
  }

  /**
   * The first phase of generateBalancedRemaining: for each of the first `needed` free
   * decades, one new number of that decade.
   */
  method FreeDecadePhase(customNumbers: seq<int>, needed: nat, ranges: seq<int>) returns (remaining: seq<int>)
    requires FreeList(ranges, customNumbers)
    ensures |remaining| == if needed < |ranges| then needed else |ranges|
    ensures Drawn(remaining, 1, 50, customNumbers)
    ensures forall k :: 0 <= k < |remaining| ==> DecadeLo(ranges[k]) <= remaining[k] <= DecadeHi(ranges[k])
  {
    remaining := [];
    var i := 0;
    while i < needed && i < |ranges|
      invariant 0 <= i <= |ranges| && i <= needed && |remaining| == i
      invariant Drawn(remaining, 1, 50, customNumbers)
      invariant forall k :: 0 <= k < i ==> DecadeLo(ranges[k]) <= remaining[k] <= DecadeHi(ranges[k])
    {
      var d := ranges[i];
      forall x | x in remaining ensures x < DecadeLo(d) {
        var k :| 0 <= k < i && remaining[k] == x;
        assert ranges[k] < d;
      }
      forall x | x in customNumbers ensures !(DecadeLo(d) <= x <= DecadeHi(d)) {
        FreeDecadeEmpty(customNumbers, d, x);
      }
      var num, _ := FreeDecadeDraw(remaining, customNumbers, DecadeLo(d), DecadeHi(d));
      if num !in remaining && num !in customNumbers {
        remaining := remaining + [num];
      }
      i := i + 1;
    }
  }

  /**
   * generateBalancedRemaining(customNumbers, needed): `needed` new numbers. First one number
   * from each of the first decades no preset occupies, in ascending decade order, then
   * random numbers of 1..50 for whatever is still missing; `slice(0, needed)` keeps them all.
   */
  method GenerateBalancedRemaining(customNumbers: seq<int>, needed: nat) returns (r: seq<int>)
    requires needed <= |Available(1, 50, customNumbers)|
    ensures |r| == needed && Drawn(r, 1, 50, customNumbers)
    ensures forall i :: 0 <= i < |r| && i < |FreeDecades(customNumbers)| ==>
      DecadeLo(FreeDecades(customNumbers)[i]) <= r[i] <= DecadeHi(FreeDecades(customNumbers)[i])
  {
    var availableRanges := FreeDecades(customNumbers);
    var phaseOne := FreeDecadePhase(customNumbers, needed, availableRanges);
    var remainingNumbers := FallbackPhase(1, 50, needed, customNumbers, phaseOne);
    r := Take(remainingNumbers, needed);
    forall k | 0 <= k < |r| && k < |availableRanges|
      ensures DecadeLo(availableRanges[k]) <= r[k] <= DecadeHi(availableRanges[k])
    {
      assert r[k] == remainingNumbers[..|phaseOne|][k];
    }
  }

  /** The presets as the input handlers leave them: at most 5 distinct mains of 1..50, 2 distinct euros of 1..12. */
  predicate ValidPresets(customMain: seq<int>, customEuro: seq<int>) {
    |customMain| <= 5 && NoDup(customMain) && AllIn(customMain, 1, 50)
    && |customEuro| <= 2 && NoDup(customEuro) && AllIn(customEuro, 1, 12)
  }

  class CustomPickGenerator {
    /** this.type, as the export header shows it. */
    const kind: string := "custom-pick"
    var generatedPicks: seq<Pick>
    /** settings.count, settings.customMain, settings.customEuro, settings.balanceRanges. */
    var count: int
    var customMain: seq<int>
    var customEuro: seq<int>
    var balanceRanges: bool

    predicate Valid()
      reads this
    {
      ValidPresets(customMain, customEuro)
    }

    /** One pick, no presets, no decade balancing, nothing generated yet. */
    constructor()
      ensures Valid()
      ensures generatedPicks == [] && count == 1 && customMain == [] && customEuro == [] && !balanceRanges
    {
      generatedPicks := [];
      count := 1;
      customMain := [];
      customEuro := [];
      balanceRanges := false;
    }

    /** The change handler of the count selector. */
    method SetCount(value: int)
      modifies this
      ensures count == value
      ensures customMain == old(customMain) && customEuro == old(customEuro)
      ensures balanceRanges == old(balanceRanges) && generatedPicks == old(generatedPicks)
    {
      count := value;
    }

    /** The change handler of the balance-ranges check box. */
    method SetBalanceRanges(checked: bool)
      modifies this
      ensures balanceRanges == checked
      ensures customMain == old(customMain) && customEuro == old(customEuro)
      ensures count == old(count) && generatedPicks == old(generatedPicks)
    {
      balanceRanges := checked;
    }

    /** The input handler of the main-number field: the first 5 numbers of 1..50 it names. */
    method OnMainInput(value: string)
      requires Valid()
      modifies this
      ensures Valid()
      ensures customMain == Take(ParseNumbers(value, 1, 50), 5)
      ensures customEuro == old(customEuro) && count == old(count)
      ensures balanceRanges == old(balanceRanges) && generatedPicks == old(generatedPicks)
    {
      var parsed := ParseNumbers(value, 1, 50);
      TakeKeeps(parsed, 5, 1, 50);
      customMain := Take(parsed, 5);
    }

    /** The input handler of the euro-number field: the first 2 numbers of 1..12 it names. */
    method OnEuroInput(value: string)
      requires Valid()
      modifies this
      ensures Valid()
      ensures customEuro == Take(ParseNumbers(value, 1, 12), 2)
      ensures customMain == old(customMain) && count == old(count)
      ensures balanceRanges == old(balanceRanges) && generatedPicks == old(generatedPicks)
    {
      var parsed := ParseNumbers(value, 1, 12);
      TakeKeeps(parsed, 2, 1, 12);
      customEuro := Take(parsed, 2);
    }

    /**
     * generateCustomMain: the presets completed to 5 distinct numbers of 1..50, ascending;
     * the presets themselves stay as they are.
     */
    method GenerateCustomMain() returns (main: seq<int>)
      requires Valid()
      ensures |main| == 5 && Ascending(main) && NoDup(main) && AllIn(main, 1, 50)
      ensures forall x :: x in customMain ==> x in main
    {
      var custom := customMain;
      var needed := 5 - |custom|;
      if needed > 0 {
        AvailableCard(1, 50, custom);
        var remaining;
        if balanceRanges {
          remaining := GenerateBalancedRemaining(custom, needed);
        } else {
          remaining := GenerateRandomNumbers(1, 50, needed, false, custom);
        }
        custom := custom + remaining;
      }
      assert |custom| == 5 && NoDup(custom) && AllIn(custom, 1, 50);
      assert custom[..5] == custom;
      main := SortAsc(custom[..5]);
      SortAscDistinct(custom);
      DrawnPermutation(custom, main, 1, 50, []);
    }

    /** generateCustomEuro: the euro presets completed to 2 distinct numbers of 1..12, ascending. */
    method GenerateCustomEuro() returns (euro: seq<int>)
      requires Valid()
      ensures |euro| == 2 && Ascending(euro) && NoDup(euro) && AllIn(euro, 1, 12)
      ensures forall x :: x in customEuro ==> x in euro
    {
      var custom := customEuro;
      var needed := 2 - |custom|;
      if needed > 0 {
        AvailableCard(1, 12, custom);
        var remaining := GenerateRandomNumbers(1, 12, needed, false, custom);
        custom := custom + remaining;
      }
      assert |custom| == 2 && NoDup(custom) && AllIn(custom, 1, 12);
      assert custom[..2] == custom;
      euro := SortAsc(custom[..2]);
      SortAscDistinct(custom);
      DrawnPermutation(custom, euro, 1, 12, []);
    }

    /** generate: settings.count picks, each completing the presets; then displayed. */
    method Generate()
      requires Valid()
      modifies this
      ensures Valid()
      ensures |generatedPicks| == if old(count) > 0 then old(count) else 0
      ensures forall i :: 0 <= i < |generatedPicks| ==>
        var p := generatedPicks[i];
        |p.main| == 5 && Ascending(p.main) && AllIn(p.main, 1, 50) && (forall x :: x in customMain ==> x in p.main)
        && |p.euro| == 2 && Ascending(p.euro) && AllIn(p.euro, 1, 12) && (forall x :: x in customEuro ==> x in p.euro)
      ensures count == old(count) && customMain == old(customMain) && customEuro == old(customEuro)
      ensures balanceRanges == old(balanceRanges)
    {
      var picks: seq<Pick> := [];
      var i := 0;
      while i < count
        invariant 0 <= i <= (if count > 0 then count else 0) && |picks| == i
        invariant count == old(count) && customMain == old(customMain) && customEuro == old(customEuro)
        invariant balanceRanges == old(balanceRanges)
        invariant forall k :: 0 <= k < |picks| ==>
          var p := picks[k];
          |p.main| == 5 && Ascending(p.main) && AllIn(p.main, 1, 50) && (forall x :: x in customMain ==> x in p.main)
          && |p.euro| == 2 && Ascending(p.euro) && AllIn(p.euro, 1, 12) && (forall x :: x in customEuro ==> x in p.euro)
        decreases count - i
      {
        var main := GenerateCustomMain();
        var euro := GenerateCustomEuro();
        picks := picks + [Pick(main, euro)];
        i := i + 1;
      }
      DisplayResults(picks);
    }

    /** displayResults, as far as state goes: the shown picks replace generatedPicks. */
    method DisplayResults(picks: seq<Pick>)
      modifies this
      ensures generatedPicks == picks
      ensures count == old(count) && customMain == old(customMain) && customEuro == old(customEuro)
      ensures balanceRanges == old(balanceRanges)
    {
      generatedPicks := picks;
    }

    /** The settings line of the export header. */
    function SettingsText(): string
      reads this
    {
      "Settings: Balance Ranges: " + BoolText(balanceRanges) + "\n"
    }

    /**
     * exportResults: nothing when no picks have been generated, else the file text: the
     * header with the time of export `now`, then one `Pick i: Main: ... | Euro: ...` line per pick.
     */
    method ExportResults(now: string) returns (content: Option<string>)
      ensures content.None? <==> generatedPicks == []
      ensures content.Some? ==> content.value == ExportText(kind, now, SettingsText(), generatedPicks)
      ensures content.Some? ==> Split(content.value[|Header(kind, now, |generatedPicks|, SettingsText())|..], '\n') == Lines(generatedPicks) + [""]
    {
      if |generatedPicks| == 0 {
        return None;
      }
      var header := Header(kind, now, |generatedPicks|, SettingsText());
      var body := ExportBody(generatedPicks);
      content := Some(header + body);
      assert content.value[|header|..] == body;
    }
  }
}
