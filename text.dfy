/**
 * The JavaScript string operations the generators rely on: `String.prototype.trim`,
 * `split` on a one-character separator, its inverse `join`, and the decimal rendering of
 * integers in template literals.
 */
module Text {

  /** ECMAScript WhiteSpace and LineTerminator code points: what `trim` removes. */
  predicate IsWhitespace(c: char) {
    c == '\t' || c == '\n' || c == '\U{000B}' || c == '\U{000C}' || c == '\r' || c == ' '
    || c == '\U{00A0}' || c == '\U{1680}' || ('\U{2000}' <= c <= '\U{200A}')
    || c == '\U{2028}' || c == '\U{2029}' || c == '\U{202F}' || c == '\U{205F}'
    || c == '\U{3000}' || c == '\U{FEFF}'
  }

  /** `s.trimStart()`: s after its leading whitespace. */
  function TrimStart(s: string): (r: string)
    ensures |r| <= |s| && r == s[|s| - |r|..]
    ensures forall i :: 0 <= i < |s| - |r| ==> IsWhitespace(s[i])
    ensures r == [] || !IsWhitespace(r[0])
  {
    if s != [] && IsWhitespace(s[0]) then TrimStart(s[1..]) else s
  }

  /** `s.trimEnd()`: s before its trailing whitespace. */
  function TrimEnd(s: string): (r: string)
    ensures |r| <= |s| && r == s[..|r|]
    ensures forall i :: |r| <= i < |s| ==> IsWhitespace(s[i])
    ensures r == [] || !IsWhitespace(r[|r| - 1])
  {
    if s != [] && IsWhitespace(s[|s| - 1]) then TrimEnd(s[..|s| - 1]) else s
  }

  /** `s.trim()`: s without leading and trailing whitespace; empty exactly for blank input. */
  function Trim(s: string): (r: string)
    ensures r == [] <==> forall i :: 0 <= i < |s| ==> IsWhitespace(s[i])
  {
    TrimEnd(TrimStart(s))
  }

  /** `s.split(sep)`: the fields between separators; always at least one (possibly empty) field. */
  function Split(s: string, sep: char): (r: seq<string>)
    ensures |r| >= 1
    ensures forall i :: 0 <= i < |r| ==> sep !in r[i]
  {
    if s == [] then [[]]
    else if s[0] == sep then [[]] + Split(s[1..], sep)
    else
      var rest := Split(s[1..], sep);
      [[s[0]] + rest[0]] + rest[1..]
  }

  /** `parts.join(sep)`. */
  function Join(parts: seq<string>, sep: char): string
    requires |parts| >= 1
  {
    if |parts| == 1 then parts[0] else parts[0] + [sep] + Join(parts[1..], sep)
  }

  /** Joining the fields again restores the string. */
  lemma {:induction false} JoinSplit(s: string, sep: char)
    ensures Join(Split(s, sep), sep) == s
  {
    if s != [] {
      JoinSplit(s[1..], sep);
      var rest := Split(s[1..], sep);
      if s[0] == sep {
        assert Split(s, sep)[1..] == rest;
      } else {
        var r := Split(s, sep);
        if |rest| == 1 {
          assert r == [[s[0]] + rest[0]];
        } else {
          assert r[1..] == rest[1..];
          assert Join(rest, sep) == rest[0] + [sep] + Join(rest[1..], sep);
        }
      }
    }
  }

  /** Splitting a join of separator-free fields gives the fields back. */
  lemma {:induction false} SplitJoin(parts: seq<string>, sep: char)
    requires |parts| >= 1 && forall i :: 0 <= i < |parts| ==> sep !in parts[i]
    ensures Split(Join(parts, sep), sep) == parts
    decreases |parts|, |parts[0]|
  {
    if parts[0] == [] {
      if |parts| > 1 {
        SplitJoin(parts[1..], sep);
        assert Join(parts, sep) == [sep] + Join(parts[1..], sep);
        assert Join(parts, sep)[1..] == Join(parts[1..], sep);
        assert parts == [[]] + parts[1..];
      }
    } else {
      var tail := [parts[0][1..]] + parts[1..];
      assert tail[1..] == parts[1..];
      SplitJoin(tail, sep);
      assert Join(parts, sep) == [parts[0][0]] + Join(tail, sep) by {
        if |parts| > 1 {
          assert Join(tail, sep) == parts[0][1..] + [sep] + Join(parts[1..], sep);
        }
      }
      assert Join(parts, sep)[1..] == Join(tail, sep);
      assert parts[0] == [parts[0][0]] + parts[0][1..];
    }
  }

  function DigitChar(d: int): char
    requires 0 <= d < 10
  {
    ('0' as int + d) as char
  }

  /** Decimal digits of n, most significant first, without leading zeros. */
  function NatToString(n: nat): (r: string)
    ensures |r| >= 1
    ensures forall i :: 0 <= i < |r| ==> '0' <= r[i] <= '9'
    ensures |r| > 1 ==> r[0] != '0'
  {
    if n < 10 then [DigitChar(n)] else NatToString(n / 10) + [DigitChar(n % 10)]
  }

  /** How a number appears in a template literal or in `join`: an optional minus, then digits. */
  function IntToString(n: int): (r: string)
    ensures |r| >= 1 && forall i :: 0 <= i < |r| ==> r[i] == '-' || '0' <= r[i] <= '9'
  {
    if n < 0 then "-" + NatToString(-n) else NatToString(n)
  }

  /** `xs.join(', ')` on a number array. */
  function JoinNumbers(xs: seq<int>): string {
    if xs == [] then []
    else if |xs| == 1 then IntToString(xs[0])
    else IntToString(xs[0]) + ", " + JoinNumbers(xs[1..])
  }

  /** The comma-separated fields of JoinNumbers(xs): the first number, then each other one after a blank. */
  function NumberFields(xs: seq<int>): (r: seq<string>)
    requires |xs| >= 1
    ensures |r| == |xs|
    ensures r[0] == IntToString(xs[0])
    ensures forall i :: 1 <= i < |xs| ==> r[i] == Blanked(xs[i])
  {
    var rest := BlankFields(xs[1..]);
    var r := [IntToString(xs[0])] + rest;
    assert forall i :: 1 <= i < |xs| ==> r[i] == rest[i - 1] == Blanked(xs[1..][i - 1]) && xs[1..][i - 1] == xs[i];
    r
  }

  /** A number after the blank that `join(', ')` puts behind each comma. */
  function Blanked(n: int): string {
    " " + IntToString(n)
  }

  /** Each number of ys after a blank. */
  function BlankFields(ys: seq<int>): (r: seq<string>)
    ensures |r| == |ys|
    ensures forall i :: 0 <= i < |ys| ==> r[i] == Blanked(ys[i])
  {
    if ys == [] then [] else [Blanked(ys[0])] + BlankFields(ys[1..])
  }

  /** JoinNumbers is a comma join of its fields. */
  lemma {:induction false} JoinNumbersFields(xs: seq<int>)
    requires |xs| >= 1
    ensures JoinNumbers(xs) == Join(NumberFields(xs), ',')
  {
    if |xs| > 1 {
      JoinNumbersFields(xs[1..]);
      NumberFieldsTail(xs);
      JoinBlankFirst(NumberFields(xs[1..]), ',');
    }
  }

  /** After the first field come the fields of the rest, the first of them behind a blank. */
  lemma NumberFieldsTail(xs: seq<int>)
    requires |xs| > 1
    ensures NumberFields(xs)[1..] == [" " + NumberFields(xs[1..])[0]] + NumberFields(xs[1..])[1..]
  {
    var f := NumberFields(xs);
    var g := NumberFields(xs[1..]);
    assert f[1..] == BlankFields(xs[1..]);
    assert xs[1..][1..] == xs[2..];
    assert g[1..] == BlankFields(xs[2..]);
  }

  /** A blank before the first field is a blank before the whole join. */
  lemma JoinBlankFirst(g: seq<string>, sep: char)
    requires |g| >= 1
    ensures Join([" " + g[0]] + g[1..], sep) == " " + Join(g, sep)
  {
    var h := [" " + g[0]] + g[1..];
    if |g| > 1 {
      assert h[1..] == g[1..];
    }
  }
}
