/**
 * BaseGenerator: the state every generator page shares, the list of generated picks, and
 * the text file it exports from them.
 */
module NumberGenerator {
  import opened Wrappers
  import opened Text
  import opened PickExport

  class BaseGenerator {
    /** this.type, e.g. "random-pick"; fixed at construction. */
    const kind: string
    var generatedPicks: seq<Pick>

    constructor(kind: string)
      ensures this.kind == kind && generatedPicks == []
    {
      this.kind := kind;
      generatedPicks := [];
    }

    /** displayResults, as far as state goes: the shown picks replace generatedPicks. */
    method DisplayResults(picks: seq<Pick>)
      modifies this
      ensures generatedPicks == picks
    {
      generatedPicks := picks;
    }

    /**
     * exportResults: nothing when no picks have been generated, else the header (with no
     * settings line) followed by one `Pick i: Main: ... | Euro: ...` line per pick.
     */
    method ExportResults(now: string) returns (content: Option<string>)
      ensures content.None? <==> generatedPicks == []
      ensures content.Some? ==> content.value == ExportText(kind, now, "", generatedPicks)
      ensures content.Some? ==> Split(content.value[|Header(kind, now, |generatedPicks|, "")|..], '\n') == Lines(generatedPicks) + [""]
    {
      if |generatedPicks| == 0 {
        return None;
      }
      var header := Header(kind, now, |generatedPicks|, "");
      var body := ExportBody(generatedPicks);
      content := Some(header + body);
      assert content.value[|header|..] == body;
    }
  }
}
