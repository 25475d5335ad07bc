/**
 * The few JavaScript conversions the RSVP code relies on, written out:
 * the `\s` character class, digit tests, `parseInt(s, 10) || 0` and
 * `Number(s)` for strings.
 */
module Js {
  import opened Wrappers

  /** Membership in JavaScript's `\s` class (white space and line terminators). */
  predicate IsWhitespace(c: char) {
    || c == ' ' || c == '\t' || c == '\n' || c == '\U{000B}' || c == '\U{000C}' || c == '\r'
    || c == '\U{00A0}' || c == '\U{1680}' || ('\U{2000}' <= c <= '\U{200A}')
    || c == '\U{2028}' || c == '\U{2029}' || c == '\U{202F}' || c == '\U{205F}'
    || c == '\U{3000}' || c == '\U{FEFF}'
  }

  /** Membership in `\d` (ASCII digits only). */
  predicate IsDigit(c: char) {
    '0' <= c <= '9'
  }

  predicate AllDigits(s: string) {
    forall i :: 0 <= i < |s| ==> IsDigit(s[i])
  }

  /** The value of a string of decimal digits. */
  function DigitsValue(s: string): (n: nat)
    requires AllDigits(s)
  {
    if s == [] then 0 else DigitsValue(s[..|s| - 1]) * 10 + (s[|s| - 1] as int - '0' as int)
  }

  /** The longest prefix of `s` made of digits. */
  function LeadingDigits(s: string): (d: string)
    ensures AllDigits(d) && d <= s
    ensures |d| < |s| ==> !IsDigit(s[|d|])
  {
    if s == [] || !IsDigit(s[0]) then [] else [s[0]] + LeadingDigits(s[1..])
  }

  /** `s` without its leading white space. */
  function TrimStart(s: string): (t: string)
    ensures |t| <= |s| && t == s[|s| - |t|..]
    ensures forall i :: 0 <= i < |s| - |t| ==> IsWhitespace(s[i])
    ensures t != [] ==> !IsWhitespace(t[0])
  {
    if s != [] && IsWhitespace(s[0]) then TrimStart(s[1..]) else s
  }

  /** `s` without its trailing white space. */
  function TrimEnd(s: string): (t: string)
    ensures t <= s
    ensures forall i :: |t| <= i < |s| ==> IsWhitespace(s[i])
    ensures t != [] ==> !IsWhitespace(t[|t| - 1])
  {
    if s != [] && IsWhitespace(s[|s| - 1]) then TrimEnd(s[..|s| - 1]) else s
  }

  /** An optional sign followed by digits, as `[+-]?\d+`, with its value. */
  function SignedValue(s: string): (r: int)
    requires s != [] && (s[0] == '+' || s[0] == '-' || IsDigit(s[0]))
    requires AllDigits(s[1..])
  {
    if s[0] == '-' then -(DigitsValue(s[1..]) as int)
    else if s[0] == '+' then DigitsValue(s[1..])
    else DigitsValue(s)
  }

  /**
   * `parseInt(s, 10) || 0`: skip leading white space, read an optional sign and
   * the longest run of digits after it; no digit at all gives NaN, which `|| 0` turns into 0.
   */
  function ParseIntOrZero(s: string): (n: int)
    ensures n != 0 ==> exists i :: 0 <= i < |s| && IsDigit(s[i])
    ensures n < 0 ==> TrimStart(s) != [] && TrimStart(s)[0] == '-'
  {
    var t := TrimStart(s);
    var neg := t != [] && t[0] == '-';
    var body := if t != [] && (t[0] == '-' || t[0] == '+') then t[1..] else t;
    var d := LeadingDigits(body);
    if d == [] then 0
    else
      assert body == s[|s| - |body|..] && IsDigit(s[|s| - |body|]);
      if neg then -(DigitsValue(d) as int) else DigitsValue(d)
  }

  /** `parseInt` reads a plain run of digits up to the first non-digit, whatever follows. */
  lemma ParseIntReadsDigitPrefix(d: string, rest: string)
    requires d != [] && AllDigits(d) && !IsWhitespace(d[0])
    requires rest == [] || !IsDigit(rest[0])
    ensures ParseIntOrZero(d + rest) == DigitsValue(d)
  {
    var s := d + rest;
    assert s[0] == d[0] && IsDigit(d[0]);
    LeadingDigitsOfConcat(d, rest);
    ParseIntOfUnsigned(s, d);
  }

  /** A string that starts with a digit parses to the value of its leading digits. */
  lemma ParseIntOfUnsigned(s: string, d: string)
    requires s != [] && IsDigit(s[0]) && LeadingDigits(s) == d
    ensures ParseIntOrZero(s) == DigitsValue(d)
  {
    assert !IsWhitespace(s[0]) && s[0] != '-' && s[0] != '+';
    assert TrimStart(s) == s;
  }

  /** A string with no digit at all parses to NaN, counted as 0. */
  lemma ParseIntWithoutDigits(s: string)
    requires forall i :: 0 <= i < |s| ==> !IsDigit(s[i])
    ensures ParseIntOrZero(s) == 0
  {
    var t := TrimStart(s);
    var body := if t != [] && (t[0] == '-' || t[0] == '+') then t[1..] else t;
    assert t == s[|s| - |t|..];
    assert body == [] || body[0] in s;
  }

  lemma {:induction false} LeadingDigitsOfConcat(d: string, rest: string)
    requires AllDigits(d)
    requires rest == [] || !IsDigit(rest[0])
    ensures LeadingDigits(d + rest) == d
  {
    if d != [] {
      assert (d + rest)[1..] == d[1..] + rest;
      LeadingDigitsOfConcat(d[1..], rest);
    } else {
      assert d + rest == rest;
    }
  }

  /**
   * `Number(s)` for a string: white space is trimmed at both ends, the empty
   * string is 0, an optional sign followed by digits is that integer, and
   * anything else is NaN, written `None`.
   */
  function NumberOf(s: string): (n: Option<int>)
    ensures n.Some? ==> forall i :: 0 <= i < |s| ==> IsWhitespace(s[i]) || IsDigit(s[i]) || s[i] == '+' || s[i] == '-'
  {
    var t := TrimEnd(TrimStart(s));
    if t == [] then Some(0)
    else if (t[0] == '+' || t[0] == '-') && |t| > 1 && AllDigits(t[1..]) then Some(SignedValue(t))
    else if AllDigits(t) then Some(DigitsValue(t))
    else None
  }

  /** `Number(s) || 0`: NaN becomes 0. */
  function NumberOrZero(s: string): (n: int)
    ensures n != 0 ==> NumberOf(s) == Some(n)
  {
    NumberOf(s).GetOr(0)
  }

  /** A string of digits converts to its value. */
  lemma NumberOfDigits(d: string)
    requires d != [] && AllDigits(d)
    ensures NumberOf(d) == Some(DigitsValue(d)) && NumberOrZero(d) == DigitsValue(d)
  {
    assert IsDigit(d[0]) && IsDigit(d[|d| - 1]);
    assert TrimStart(d) == d;
    assert TrimEnd(d) == d;
    assert d[0] != '+' && d[0] != '-';
  }
}
