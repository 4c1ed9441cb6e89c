/**
 * `parseNumbers(input, min, max)` of the custom pick generator and of GeneratorUtils: the
 * text of an input field becomes the list of distinct integers of min..max it names, in the
 * order of their first appearance. `parseInt` is modelled as ECMAScript defines it for a
 * call without radix: optional sign, optional `0x` prefix, then the longest run of digits.
 */
module NumberInput {
  import opened Wrappers
  import opened Sequences
  import opened Text

  /** The value of c as a digit of base 10 or 16. */
  function DigitValue(c: char, base: int): (r: Option<int>)
    requires base == 10 || base == 16
    ensures r.Some? ==> 0 <= r.value < base
  {
    if '0' <= c <= '9' then Some(c as int - '0' as int)
    else if base == 16 && 'a' <= c <= 'f' then Some(c as int - 'a' as int + 10)
    else if base == 16 && 'A' <= c <= 'F' then Some(c as int - 'A' as int + 10)
    else None
  }

  predicate AllDigits(s: string, base: int)
    requires base == 10 || base == 16
  {
    forall i :: 0 <= i < |s| ==> DigitValue(s[i], base).Some?
  }

  /** The longest prefix of s made of digits of the base. */
  function LeadingDigits(s: string, base: int): (r: string)
    requires base == 10 || base == 16
    ensures |r| <= |s| && r == s[..|r|] && AllDigits(r, base)
    ensures |r| < |s| ==> DigitValue(s[|r|], base).None?
  {
    if s != [] && DigitValue(s[0], base).Some? then [s[0]] + LeadingDigits(s[1..], base) else []
  }

  /** The number a digit string denotes, most significant digit first. */
  function DigitsValue(ds: string, base: int): (v: nat)
    requires (base == 10 || base == 16) && AllDigits(ds, base)
  {
    if ds == [] then 0
    else DigitsValue(ds[..|ds| - 1], base) * base + DigitValue(ds[|ds| - 1], base).value
  }

  /** The unsigned part of parseInt: a hexadecimal number after `0x`/`0X`, else a decimal one. */
  function ParseMagnitude(s: string): Option<int> {
    if |s| >= 2 && s[0] == '0' && (s[1] == 'x' || s[1] == 'X') then
      var ds := LeadingDigits(s[2..], 16);
      if ds == [] then None else Some(DigitsValue(ds, 16))
    else
      var ds := LeadingDigits(s, 10);
      if ds == [] then None else Some(DigitsValue(ds, 10))
  }

  /** The sign of a number's text, `-` or `+` or none, split from the rest; true stands for `-`. */
  function SplitSign(t: string): (bool, string) {
    if t != [] && t[0] == '-' then (true, t[1..])
    else if t != [] && t[0] == '+' then (false, t[1..])
    else (false, t)
  }

  /** `parseInt(s)`; None stands for NaN. */
  function ParseInt(s: string): Option<int> {
    var signed := SplitSign(TrimStart(s));
    match ParseMagnitude(signed.1)
    case None => None
    case Some(v) => Some(if signed.0 then -v else v)
  }

  lemma {:induction false} DigitsOfNat(n: nat)
    ensures AllDigits(NatToString(n), 10)
    ensures DigitsValue(NatToString(n), 10) == n
  {
    var s := NatToString(n);
    if n >= 10 {
      DigitsOfNat(n / 10);
      assert s[..|s| - 1] == NatToString(n / 10);
    }
  }

  lemma LeadingDigitsAll(s: string, base: int)
    requires (base == 10 || base == 16) && AllDigits(s, base)
    ensures LeadingDigits(s, base) == s
  {
  }

  /** The decimal digits of a natural number parse to that number. */
  lemma MagnitudeOfNat(m: nat)
    ensures ParseMagnitude(NatToString(m)) == Some(m)
  {
    var digits := NatToString(m);
    DigitsOfNat(m);
    LeadingDigitsAll(digits, 10);
    if |digits| >= 2 {
      assert '0' <= digits[1] <= '9';
    }
  }

  /** parseInt reads back every integer as a template literal renders it. */
  lemma ParseIntRoundTrip(n: int)
    ensures ParseInt(IntToString(n)) == Some(n)
  {
    if n < 0 {
      ParseNegative(n);
    } else {
      ParseNatural(n);
    }
  }

  lemma ParseNatural(n: int)
    requires n >= 0
    ensures ParseInt(IntToString(n)) == Some(n)
  {
    var s := NatToString(n);
    assert IntToString(n) == s;
    assert !IsWhitespace(s[0]);
    assert TrimStart(s) == s;
    assert SplitSign(s) == (false, s);
    MagnitudeOfNat(n);
    ParseSigned(s, n);
  }

  lemma ParseNegative(n: int)
    requires n < 0
    ensures ParseInt(IntToString(n)) == Some(n)
  {
    var s := "-" + NatToString(-n);
    assert IntToString(n) == s;
    assert !IsWhitespace(s[0]);
    assert TrimStart(s) == s;
    assert SplitSign(s) == (true, NatToString(-n));
    MagnitudeOfNat(-n);
    ParseSigned(s, -n);
  }

  /** parseInt on a text whose unsigned part reads as m. */
  lemma ParseSigned(s: string, m: nat)
    requires ParseMagnitude(SplitSign(TrimStart(s)).1) == Some(m)
    ensures ParseInt(s) == Some(if SplitSign(TrimStart(s)).0 then -(m as int) else m)
  {
  }

  /** The first position of x in s. */
  function IndexOf(s: seq<int>, x: int): (i: nat)
    requires x in s
    ensures i < |s| && s[i] == x && x !in s[..i]
  {
    if s[0] == x then 0 else 1 + IndexOf(s[1..], x)
  }

  /** `[...new Set(s)]`: s with every repetition of a value removed. */
  function Dedup(s: seq<int>): (r: seq<int>)
    ensures NoDup(r)
    ensures forall x :: x in r <==> x in s
  {
    if s == [] then []
    else
      var d := Dedup(s[..|s| - 1]);
      assert forall x :: x in s <==> x in s[..|s| - 1] || x == s[|s| - 1] by {
        assert s == s[..|s| - 1] + [s[|s| - 1]];
      }
      if s[|s| - 1] in d then d else d + [s[|s| - 1]]
  }

  lemma DedupAllIn(s: seq<int>, lo: int, hi: int)
    requires AllIn(s, lo, hi)
    ensures AllIn(Dedup(s), lo, hi)
  {
    var r := Dedup(s);
    forall i | 0 <= i < |r| ensures lo <= r[i] <= hi {
      assert r[i] in s;
      var j :| 0 <= j < |s| && s[j] == r[i];
    }
  }

  /** Dedup keeps the order in which values first appear. */
  lemma {:induction false} DedupOrder(s: seq<int>)
    ensures forall i, j :: 0 <= i < j < |Dedup(s)| ==> IndexOf(s, Dedup(s)[i]) < IndexOf(s, Dedup(s)[j])
  {
    if s != [] {
      var init := s[..|s| - 1];
      DedupOrder(init);
      var d := Dedup(init);
      var r := Dedup(s);
      assert s == init + [s[|s| - 1]];
      forall x | x in init ensures IndexOf(s, x) == IndexOf(init, x) {
        var k := IndexOf(init, x);
        assert s[..k] == init[..k];
      }
      forall i, j | 0 <= i < j < |r| ensures IndexOf(s, r[i]) < IndexOf(s, r[j]) {
        assert r[i] == d[i];
        if j < |d| {
          assert r[j] == d[j];
        } else {
          assert r[j] == s[|s| - 1] && r[j] !in init;
        }
      }
    }
  }

  /** A duplicate-free sequence is its own Dedup. */
  lemma {:induction false} DedupNoDup(s: seq<int>)
    requires NoDup(s)
    ensures Dedup(s) == s
  {
    if s != [] {
      var init := s[..|s| - 1];
      DedupNoDup(init);
      assert s[|s| - 1] !in init;
      assert s == init + [s[|s| - 1]];
    }
  }

  /** What `parseInt(field.trim())` yields for one comma field. */
  function FieldValue(field: string): Option<int> {
    ParseInt(Trim(field))
  }

  /** `split(',').map(n => parseInt(n.trim()))`. */
  function FieldValues(fields: seq<string>): (r: seq<Option<int>>)
    ensures |r| == |fields|
  {
    seq(|fields|, i requires 0 <= i < |fields| => FieldValue(fields[i]))
  }

  /** `filter(n => !isNaN(n) && n >= min && n <= max)`. */
  function Kept(values: seq<Option<int>>, lo: int, hi: int): (r: seq<int>)
    ensures AllIn(r, lo, hi)
  {
    if values == [] then []
    else
      var rest := Kept(values[1..], lo, hi);
      if values[0].Some? && lo <= values[0].value <= hi then [values[0].value] + rest else rest
  }

  /** A number is kept exactly when it lies in lo..hi and some field yields it. */
  lemma {:induction false} KeptMembers(values: seq<Option<int>>, lo: int, hi: int, x: int)
    ensures x in Kept(values, lo, hi) <==> lo <= x <= hi && Some(x) in values
  {
    if values != [] {
      KeptMembers(values[1..], lo, hi, x);
      assert values == [values[0]] + values[1..];
    }
  }

  /** Kept keeps everything when every value is a number of lo..hi. */
  lemma {:induction false} KeptAll(xs: seq<int>, lo: int, hi: int)
    requires AllIn(xs, lo, hi)
    ensures Kept(seq(|xs|, i requires 0 <= i < |xs| => Some(xs[i])), lo, hi) == xs
  {
    if xs != [] {
      KeptAll(xs[1..], lo, hi);
      var v := seq(|xs|, i requires 0 <= i < |xs| => Some(xs[i]));
      assert v[1..] == seq(|xs[1..]|, i requires 0 <= i < |xs[1..]| => Some(xs[1..][i]));
    }
  }

  /** The list of numbers of parseNumbers before duplicates are removed. */
  function KeptValues(input: string, lo: int, hi: int): seq<int> {
    Kept(FieldValues(Split(input, ',')), lo, hi)
  }

  /** parseNumbers(input, min, max). */
  function ParseNumbers(input: string, lo: int, hi: int): (r: seq<int>)
    ensures (forall i :: 0 <= i < |input| ==> IsWhitespace(input[i])) ==> r == []
    ensures NoDup(r) && AllIn(r, lo, hi)
  {
    if Trim(input) == [] then []
    else
      var kept := KeptValues(input, lo, hi);
      DedupAllIn(kept, lo, hi);
      Dedup(kept)
  }

  /** A number is parsed from non-blank input exactly when it lies in min..max and some comma field yields it. */
  lemma ParseNumbersMembers(input: string, lo: int, hi: int, x: int)
    requires exists i :: 0 <= i < |input| && !IsWhitespace(input[i])
    ensures x in ParseNumbers(input, lo, hi) <==> lo <= x <= hi && Some(x) in FieldValues(Split(input, ','))
  {
    assert Trim(input) != [];
    KeptMembers(FieldValues(Split(input, ',')), lo, hi, x);
  }

  /** Parsed numbers come out in the order in which the fields first name them. */
  lemma ParseNumbersOrder(input: string, lo: int, hi: int)
    requires exists i :: 0 <= i < |input| && !IsWhitespace(input[i])
    ensures var kept := KeptValues(input, lo, hi);
      var r := ParseNumbers(input, lo, hi);
      forall i, j :: 0 <= i < j < |r| ==> IndexOf(kept, r[i]) < IndexOf(kept, r[j])
  {
    DedupOrder(KeptValues(input, lo, hi));
  }

  /** A rendered number, alone or after a blank, is a field that parses to that number. */
  lemma NumberField(f: string, n: int)
    requires f == IntToString(n) || f == Blanked(n)
    ensures FieldValue(f) == Some(n)
  {
    var s := IntToString(n);
    assert !IsWhitespace(s[0]) && !IsWhitespace(s[|s| - 1]);
    TrimSolid(s);
    if f != s {
      TrimBlanked(s);
    }
    ParseIntRoundTrip(n);
  }

  /** Text that starts and ends with a non-blank character trims to itself. */
  lemma TrimSolid(s: string)
    requires s != [] && !IsWhitespace(s[0]) && !IsWhitespace(s[|s| - 1])
    ensures Trim(s) == s
  {
    assert TrimStart(s) == s;
  }

  /** ... and so does the same text after a blank. */
  lemma TrimBlanked(s: string)
    requires s != [] && !IsWhitespace(s[0]) && !IsWhitespace(s[|s| - 1])
    ensures Trim(" " + s) == s
  {
    var t := " " + s;
    assert t[1..] == s;
    assert TrimStart(t) == TrimStart(s);
    TrimSolid(s);
  }

  /** The comma fields of JoinNumbers(xs) are NumberFields(xs). */
  lemma SplitJoinedNumbers(xs: seq<int>)
    requires |xs| >= 1
    ensures Split(JoinNumbers(xs), ',') == NumberFields(xs)
  {
    var fields := NumberFields(xs);
    JoinNumbersFields(xs);
    forall i | 0 <= i < |fields| ensures ',' !in fields[i] {
      var s := IntToString(xs[i]);
      assert fields[i] == s || fields[i] == Blanked(xs[i]);
    }
    SplitJoin(fields, ',');
  }

  /** Each field of NumberFields(xs) parses to its number. */
  lemma FieldValuesOfNumbers(xs: seq<int>)
    requires |xs| >= 1
    ensures FieldValues(NumberFields(xs)) == seq(|xs|, i requires 0 <= i < |xs| => Some(xs[i]))
  {
    var values := FieldValues(NumberFields(xs));
    forall i | 0 <= i < |xs| ensures values[i] == Some(xs[i]) {
      NumberFieldAt(xs, i);
    }
  }

  lemma NumberFieldAt(xs: seq<int>, i: int)
    requires 0 <= i < |xs|
    ensures FieldValue(NumberFields(xs)[i]) == Some(xs[i])
  {
    var f := NumberFields(xs)[i];
    assert f == IntToString(xs[i]) || f == Blanked(xs[i]);
    NumberField(f, xs[i]);
  }

  /**
   * Round trip with the export format: parseNumbers reads a duplicate-free list of numbers
   * of min..max back from its `join(', ')` rendering.
   */
  lemma ParseJoinedNumbers(xs: seq<int>, lo: int, hi: int)
    requires |xs| >= 1 && NoDup(xs) && AllIn(xs, lo, hi)
    ensures ParseNumbers(JoinNumbers(xs), lo, hi) == xs
  {
    var input := JoinNumbers(xs);
    assert !IsWhitespace(input[0]) by {
      assert input[0] == IntToString(xs[0])[0];
    }
    assert Trim(input) != [];
    SplitJoinedNumbers(xs);
    FieldValuesOfNumbers(xs);
    KeptAll(xs, lo, hi);
    assert KeptValues(input, lo, hi) == xs;
    DedupNoDup(xs);
  }
}
