/**
 * The random pick generator (RandomPickGenerator): its settings, the picks it generates and
 * keeps in `generatedPicks`, and the text it exports.
 */
module RandomPick {
  import opened Wrappers
  import opened Sequences
  import opened PickEngine
  import opened PickExport
  import opened Text

  /** A pick as the random generator makes it: 5 ascending main numbers of 1..50, 2 ascending euro numbers of 1..12. */
  predicate ValidPick(p: Pick) {
    |p.main| == 5 && Ascending(p.main) && AllIn(p.main, 1, 50)
    && |p.euro| == 2 && Ascending(p.euro) && AllIn(p.euro, 1, 12)
  }

  class RandomPickGenerator {
    /** this.type, as the export header shows it. */
    const kind: string := "random-pick"
    var generatedPicks: seq<Pick>
    /** settings.count, settings.avoidConsecutive, settings.balanceRanges. */
    var count: int
    var avoidConsecutive: bool
    var balanceRanges: bool

    /** One pick, consecutive numbers avoided, no decade balancing, nothing generated yet. */
    constructor()
      ensures generatedPicks == [] && count == 1 && avoidConsecutive && !balanceRanges
    {
      generatedPicks := [];
      count := 1;
      avoidConsecutive := true;
      balanceRanges := false;
    }

    /** The change handler of the count selector. */
    method SetCount(value: int)
      modifies this
      ensures count == value
      ensures generatedPicks == old(generatedPicks) && avoidConsecutive == old(avoidConsecutive)
      ensures balanceRanges == old(balanceRanges)
    {
      count := value;
    }

    /** The change handler of the avoid-consecutive check box. */
    method SetAvoidConsecutive(checked: bool)
      modifies this
      ensures avoidConsecutive == checked
      ensures generatedPicks == old(generatedPicks) && count == old(count) && balanceRanges == old(balanceRanges)
    {
      avoidConsecutive := checked;
    }

    /** The change handler of the balance-ranges check box. */
    method SetBalanceRanges(checked: bool)
      modifies this
      ensures balanceRanges == checked
      ensures generatedPicks == old(generatedPicks) && count == old(count) && avoidConsecutive == old(avoidConsecutive)
    {
      balanceRanges := checked;
    }

    /** generateRandomMain: decade-balanced when balanceRanges is set, else 5 plain draws of 1..50. */
    method GenerateRandomMain() returns (main: seq<int>)
      ensures |main| == 5 && Ascending(main) && NoDup(main) && AllIn(main, 1, 50)
      ensures balanceRanges ==> OnePerDecade(main)
    {
      if balanceRanges {
        main := GenerateBalancedMain(avoidConsecutive);
      } else {
        FullRangeAvailable(1, 50);
        main := GenerateRandomNumbers(1, 50, 5, avoidConsecutive, []);
      }
    }

    /** generateRandomEuro: 2 numbers of 1..12, consecutive numbers allowed. */
    method GenerateRandomEuro() returns (euro: seq<int>)
      ensures |euro| == 2 && Ascending(euro) && NoDup(euro) && AllIn(euro, 1, 12)
    {
      FullRangeAvailable(1, 12);
      euro := GenerateRandomNumbers(1, 12, 2, false, []);
    }

    /** generate: settings.count fresh picks (none when count is not positive), then displayed. */
    method Generate()
      modifies this
      ensures |generatedPicks| == if old(count) > 0 then old(count) else 0
      ensures forall i :: 0 <= i < |generatedPicks| ==> ValidPick(generatedPicks[i])
      ensures balanceRanges ==> forall i :: 0 <= i < |generatedPicks| ==> OnePerDecade(generatedPicks[i].main)
      ensures count == old(count) && avoidConsecutive == old(avoidConsecutive) && balanceRanges == old(balanceRanges)
    {
      var picks: seq<Pick> := [];
      var i := 0;
      while i < count
        invariant 0 <= i <= (if count > 0 then count else 0) && |picks| == i
        invariant count == old(count) && avoidConsecutive == old(avoidConsecutive) && balanceRanges == old(balanceRanges)
        invariant forall k :: 0 <= k < |picks| ==> ValidPick(picks[k])
        invariant balanceRanges ==> forall k :: 0 <= k < |picks| ==> OnePerDecade(picks[k].main)
        decreases count - i
      {
        var main := GenerateRandomMain();
        var euro := GenerateRandomEuro();
        picks := picks + [Pick(main, euro)];
        i := i + 1;
      }
      DisplayResults(picks);
    }

    /** displayResults, as far as state goes: the shown picks replace generatedPicks. */
    method DisplayResults(picks: seq<Pick>)
      modifies this
      ensures generatedPicks == picks
      ensures count == old(count) && avoidConsecutive == old(avoidConsecutive) && balanceRanges == old(balanceRanges)
    {
      generatedPicks := picks;
    }

    /** The settings line of the export header. */
    function SettingsText(): string
      reads this
    {
      "Settings: Avoid Consecutive: " + BoolText(avoidConsecutive) + ", Balance Ranges: " + BoolText(balanceRanges) + "\n"
    }

    /**
     * exportResults: nothing when no picks have been generated, else the file text: the
     * header with the time of export `now`, then one `Pick i: Main: ... | Euro: ...` line per pick.
     */
    method ExportResults(now: string) returns (content: Option<string>)
      ensures content.None? <==> generatedPicks == []
      ensures content.Some? ==> content.value == ExportText(kind, now, SettingsText(), generatedPicks)
      ensures content.Some? ==> Split(content.value[|Header(kind, now, |generatedPicks|, SettingsText())|..], '\n') == Lines(generatedPicks) + [""]
    {
      if |generatedPicks| == 0 {
        return None;
      }
      var header := Header(kind, now, |generatedPicks|, SettingsText());
      var body := ExportBody(generatedPicks);
      content := Some(header + body);
      assert content.value[|header|..] == body;
    }
  }
}
