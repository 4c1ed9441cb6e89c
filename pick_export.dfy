/**
 * Picks and the body of the text file the generators export: one line
 * `Pick i: Main: a, b, c, d, e | Euro: x, y` per pick, numbered from 1 in list order, after a
 * header naming the generator, the time of export and the number of picks.
 */
module PickExport {
  import opened Text

  /** One generated pick: its main numbers and its euro numbers. */
  datatype Pick = Pick(main: seq<int>, euro: seq<int>)

  /** The export line of pick number i, without its newline. */
  function PickLine(i: nat, p: Pick): string {
    "Pick " + NatToString(i) + ": Main: " + JoinNumbers(p.main) + " | Euro: " + JoinNumbers(p.euro)
  }

  /** The lines for picks, numbered from `first`, each followed by a newline. */
  function Body(picks: seq<Pick>, first: nat): string {
    if picks == [] then "" else PickLine(first, picks[0]) + "\n" + Body(picks[1..], first + 1)
  }

  /** The text of each line of Body(picks, 1), in order. */
  function Lines(picks: seq<Pick>): (r: seq<string>)
    ensures |r| == |picks|
  {
    seq(|picks|, i requires 0 <= i < |picks| => PickLine(i + 1, picks[i]))
  }

  /**
   * The loop of exportResults that appends one line per pick (`forEach` with `content +=`);
   * the header it appends to is Header.
   */
  method ExportBody(picks: seq<Pick>) returns (content: string)
    ensures content == Body(picks, 1)
    ensures Split(content, '\n') == Lines(picks) + [""]
  {
    content := "";
    for index := 0 to |picks|
      invariant content + Body(picks[index..], index + 1) == Body(picks, 1)
    {
      var line := PickLine(index + 1, picks[index]) + "\n";
      assert picks[index..][1..] == picks[index + 1..];
      assert Body(picks[index..], index + 1) == line + Body(picks[index + 1..], index + 2);
      content := content + line;
    }
    BodyLines(picks);
  }

  /** Numbers rendered with JoinNumbers never contain a line break. */
  lemma {:induction false} JoinNumbersOneLine(xs: seq<int>)
    ensures '\n' !in JoinNumbers(xs)
  {
    if |xs| > 1 {
      JoinNumbersOneLine(xs[1..]);
    }
    if xs != [] {
      assert '\n' !in IntToString(xs[0]);
    }
  }

  lemma PickLineOneLine(i: nat, p: Pick)
    ensures '\n' !in PickLine(i, p)
  {
    JoinNumbersOneLine(p.main);
    JoinNumbersOneLine(p.euro);
    assert '\n' !in NatToString(i);
  }

  /** The lines for picks, numbered from `first`, without their newlines. */
  function LinesFrom(picks: seq<Pick>, first: nat): (r: seq<string>)
    ensures |r| == |picks|
  {
    if picks == [] then [] else [PickLine(first, picks[0])] + LinesFrom(picks[1..], first + 1)
  }

  lemma {:induction false} LinesFromAt(picks: seq<Pick>, first: nat, i: int)
    requires 0 <= i < |picks|
    ensures LinesFrom(picks, first)[i] == PickLine(first + i, picks[i])
    decreases |picks|
  {
    if i > 0 {
      LinesFromAt(picks[1..], first + 1, i - 1);
    }
  }

  /** Body is the newline join of its lines and a final empty field. */
  lemma {:induction false} BodyJoin(picks: seq<Pick>, first: nat)
    ensures Body(picks, first) == Join(LinesFrom(picks, first) + [""], '\n')
    decreases |picks|
  {
    if picks != [] {
      var line := PickLine(first, picks[0]);
      var tail := LinesFrom(picks[1..], first + 1) + [""];
      BodyJoin(picks[1..], first + 1);
      assert LinesFrom(picks, first) + [""] == [line] + tail;
      assert ([line] + tail)[1..] == tail;
    }
  }

  /**
   * Splitting the body at line breaks gives exactly one line per pick, `Pick i: ...` for the
   * i-th pick, and the empty text after the last newline.
   */
  lemma BodyLines(picks: seq<Pick>)
    ensures Split(Body(picks, 1), '\n') == Lines(picks) + [""]
  {
    BodyJoin(picks, 1);
    forall i | 0 <= i < |picks| ensures LinesFrom(picks, 1)[i] == Lines(picks)[i] {
      LinesFromAt(picks, 1, i);
    }
    assert LinesFrom(picks, 1) == Lines(picks);
    var ls := Lines(picks) + [""];
    forall i | 0 <= i < |ls| ensures '\n' !in ls[i] {
      if i < |picks| {
        PickLineOneLine(i + 1, picks[i]);
      }
    }
    SplitJoin(ls, '\n');
  }

  /** The index of the first occurrence of c in s, or |s| when there is none. */
  function FirstIndex(s: string, c: char): (i: nat)
    ensures i <= |s| && (i < |s| ==> s[i] == c)
    ensures forall j :: 0 <= j < i ==> s[j] != c
  {
    if s == [] then 0 else if s[0] == c then 0 else 1 + FirstIndex(s[1..], c)
  }

  /** `s.replace(from, to)` with a one-character pattern: only the first occurrence is replaced. */
  function ReplaceFirst(s: string, from: char, to: char): (r: string)
    ensures |r| == |s|
    ensures forall i :: 0 <= i < |s| ==> r[i] == if i == FirstIndex(s, from) then to else s[i]
  {
    var i := FirstIndex(s, from);
    if i == |s| then s else s[..i] + [to] + s[i + 1..]
  }

  /** `toUpperCase` on ASCII letters. */
  function UpperAscii(c: char): char {
    if 'a' <= c <= 'z' then (c as int - 'a' as int + 'A' as int) as char else c
  }

  function ToUpper(s: string): string {
    seq(|s|, i requires 0 <= i < |s| => UpperAscii(s[i]))
  }

  /** The generator name in the export header: `type.replace('-', ' ').toUpperCase()`. */
  function Title(kind: string): string {
    ToUpper(ReplaceFirst(kind, '-', ' '))
  }

  /** How a template literal renders a boolean. */
  function BoolText(b: bool): string {
    if b then "true" else "false"
  }

  /**
   * The header of the export file: title line, `Generated on:` with the time of export, the
   * number of picks, a generator-specific settings text (empty for the base generator) and
   * an empty line.
   */
  function Header(kind: string, now: string, n: nat, settings: string): string {
    "Eurojackpot Generated Numbers - " + Title(kind) + "\n"
    + "Generated on: " + now + "\n"
    + "Number of picks: " + NatToString(n) + "\n"
    + settings + "\n"
  }

  /** The whole export file. */
  function ExportText(kind: string, now: string, settings: string, picks: seq<Pick>): string {
    Header(kind, now, |picks|, settings) + Body(picks, 1)
  }
}
