/**
 * ASCII models of the JavaScript String built-ins the frontend relies on:
 * `toLowerCase`/`toUpperCase`, `includes`, `trim`, the decimal numeral a
 * template literal prints for a non-negative integer, and the digit scanning
 * `parseInt` performs.
 */
module JsText {

  /** The characters `\s` and `String.prototype.trim` treat as white space, restricted to ASCII. */
  predicate IsSpace(c: char) {
    c == ' ' || c == '\t' || c == '\n' || c == '\r' || c == '\U{B}' || c == '\U{C}'
  }

  /** Every character of `s` is white space (the empty string included). */
  predicate AllSpace(s: string) {
    forall i :: 0 <= i < |s| ==> IsSpace(s[i])
  }

  predicate IsUpper(c: char) { 'A' <= c <= 'Z' }

  predicate IsLower(c: char) { 'a' <= c <= 'z' }

  /** `c.toLowerCase()` for one ASCII character. */
  function LowerChar(c: char): (r: char)
    ensures IsUpper(c) ==> IsLower(r) && r as int == c as int + 32
    ensures !IsUpper(c) ==> r == c
  {
    if IsUpper(c) then (c as int + 32) as char else c
  }

  /** `c.toUpperCase()` for one ASCII character. */
  function UpperChar(c: char): (r: char)
    ensures IsLower(c) ==> IsUpper(r) && r as int + 32 == c as int
    ensures !IsLower(c) ==> r == c
  {
    if IsLower(c) then (c as int - 32) as char else c
  }

  /** `s.toLowerCase()`. */
  function Lower(s: string): (r: string)
    ensures |r| == |s|
    ensures forall i :: 0 <= i < |s| ==> r[i] == LowerChar(s[i])
  {
    seq(|s|, i requires 0 <= i < |s| => LowerChar(s[i]))
  }

  lemma LowerIdempotent(s: string)
    ensures Lower(Lower(s)) == Lower(s)
  {
  }

  lemma LowerAppend(a: string, b: string)
    ensures Lower(a + b) == Lower(a) + Lower(b)
  {
  }

  /** Lower-casing never turns white space into something else or back. */
  lemma LowerKeepsSpace(s: string)
    ensures AllSpace(Lower(s)) <==> AllSpace(s)
  {
  }

  /** `needle` occurs in `hay` starting at index `i`. */
  predicate OccursAt(hay: string, needle: string, i: nat) {
    i + |needle| <= |hay| && hay[i..i + |needle|] == needle
  }

  /** `hay.includes(needle)`: searches every start position from the left. */
  function Includes(hay: string, needle: string): (r: bool)
    ensures r <==> exists i: nat :: OccursAt(hay, needle, i)
    decreases |hay|
  {
    assert OccursAt(hay, needle, 0) <==> needle <= hay;
    if needle <= hay then
      true
    else if hay == [] then
      false
    else
      var r := Includes(hay[1..], needle);
      if r then
        var i: nat :| OccursAt(hay[1..], needle, i);
        assert hay[i + 1..i + 1 + |needle|] == hay[1..][i..i + |needle|];
        assert OccursAt(hay, needle, i + 1);
        r
      else
        assert forall i: nat :: OccursAt(hay, needle, i) && i > 0 ==> OccursAt(hay[1..], needle, i - 1) by {
          forall i: nat | OccursAt(hay, needle, i) && i > 0
            ensures OccursAt(hay[1..], needle, i - 1)
          {
            assert hay[1..][i - 1..i - 1 + |needle|] == hay[i..i + |needle|];
          }
        }
        r
  }

  /** `s` with its leading white space removed (the first half of `trim`). */
  function TrimStart(s: string): (r: string)
    ensures |r| <= |s| && r == s[|s| - |r|..]
    ensures AllSpace(s[..|s| - |r|])
    ensures r == [] || !IsSpace(r[0])
  {
    if s != [] && IsSpace(s[0]) then
      var r := TrimStart(s[1..]);
      assert s[..|s| - |r|] == [s[0]] + s[1..][..|s[1..]| - |r|];
      r
    else
      s
  }

  /** `s` with its trailing white space removed (the second half of `trim`). */
  function TrimEnd(s: string): (r: string)
    ensures |r| <= |s| && r == s[..|r|]
    ensures AllSpace(s[|r|..])
    ensures r == [] || !IsSpace(r[|r| - 1])
  {
    if s != [] && IsSpace(s[|s| - 1]) then
      var r := TrimEnd(s[..|s| - 1]);
      assert s[|r|..] == s[..|s| - 1][|r|..] + [s[|s| - 1]];
      r
    else
      s
  }

  /** `s.trim()`. */
  function Trim(s: string): string {
    TrimEnd(TrimStart(s))
  }

  /** `s.trim()` is empty exactly when `s` consists of white space only. */
  lemma TrimEmptyIffAllSpace(s: string)
    ensures Trim(s) == [] <==> AllSpace(s)
  {
    var t := TrimStart(s);
    if Trim(s) == [] {
      assert AllSpace(t[|TrimEnd(t)|..]);
      assert s[..|s| - |t|] == s;
    } else {
      assert t != [] && !IsSpace(t[0]);
      assert s[|s| - |t|] == t[0];
    }
  }

  /**
   * The value of `c` read as a digit in any radix up to 36: '0'..'9' are
   * 0..9 and letters of either case are 10..35; any other character is 36,
   * a digit in no radix.
   */
  function DigitValue(c: char): (v: nat)
    ensures v <= 36
  {
    if '0' <= c <= '9' then c as int - '0' as int
    else if 'a' <= c <= 'z' then c as int - 'a' as int + 10
    else if 'A' <= c <= 'Z' then c as int - 'A' as int + 10
    else 36
  }

  predicate IsDigitIn(c: char, radix: nat) {
    DigitValue(c) < radix
  }

  predicate IsDigit(c: char) {
    IsDigitIn(c, 10)
  }

  predicate AllDigitsIn(s: string, radix: nat) {
    forall i :: 0 <= i < |s| ==> IsDigitIn(s[i], radix)
  }

  /** The numeral `s` read in base `radix`, most significant digit first. */
  function DigitsValue(s: string, radix: nat): nat
    requires AllDigitsIn(s, radix)
  {
    if s == [] then 0
    else DigitsValue(s[..|s| - 1], radix) * radix + DigitValue(s[|s| - 1])
  }

  /** The longest prefix of `s` made of digits of base `radix`, and what follows it. */
  function SpanDigits(s: string, radix: nat): (r: (string, string))
    ensures r.0 + r.1 == s
    ensures AllDigitsIn(r.0, radix)
    ensures r.1 == [] || !IsDigitIn(r.1[0], radix)
  {
    if s != [] && IsDigitIn(s[0], radix) then
      var (run, rest) := SpanDigits(s[1..], radix);
      ([s[0]] + run, rest)
    else
      ([], s)
  }

  /** A run of digits followed by a non-digit splits there and nowhere else. */
  lemma {:induction false} SpanDigitsOf(run: string, rest: string, radix: nat)
    requires AllDigitsIn(run, radix)
    requires rest == [] || !IsDigitIn(rest[0], radix)
    ensures SpanDigits(run + rest, radix) == (run, rest)
  {
    if run != [] {
      assert (run + rest)[0] == run[0];
      assert (run + rest)[1..] == run[1..] + rest;
      SpanDigitsOf(run[1..], rest, radix);
      assert [run[0]] + run[1..] == run;
    } else {
      assert run + rest == rest;
    }
  }

  /** The decimal digit character for `d`. */
  function DigitChar(d: nat): (c: char)
    requires d < 10
    ensures IsDigit(c) && DigitValue(c) == d
  {
    ('0' as int + d) as char
  }

  /** The decimal numeral JavaScript prints for a non-negative integer (`${n}`, `String(n)`). */
  function NatToString(n: nat): (r: string)
    ensures |r| >= 1 && AllDigitsIn(r, 10)
    ensures r[0] == '0' ==> n == 0
  {
    if n < 10 then [DigitChar(n)]
    else NatToString(n / 10) + [DigitChar(n % 10)]
  }

  /** Reading the printed numeral back gives the number. */
  lemma {:induction false} NatToStringValue(n: nat)
    ensures DigitsValue(NatToString(n), 10) == n
  {
    var r := NatToString(n);
    if n >= 10 {
      NatToStringValue(n / 10);
      assert r[..|r| - 1] == NatToString(n / 10);
    }
  }

  /** A printed numeral followed by a non-digit is scanned back whole. */
  lemma SpanNatToString(n: nat, rest: string)
    requires rest == [] || !IsDigit(rest[0])
    ensures SpanDigits(NatToString(n) + rest, 10) == (NatToString(n), rest)
    ensures DigitsValue(SpanDigits(NatToString(n) + rest, 10).0, 10) == n
  {
    SpanDigitsOf(NatToString(n), rest, 10);
    NatToStringValue(n);
  }
}
