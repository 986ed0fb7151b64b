/**
 * JavaScript's base-16 conversions on strings: `parseInt(s, 16)` and
 * `n.toString(16)` for integers. `parseInt` skips leading white space,
 * takes an optional sign and an optional `0x`/`0X` prefix, then reads the
 * longest run of hexadecimal digits; without any digit the result is NaN,
 * written `None` here.
 */
module JsHex {
  import opened Wrappers

  predicate IsHexDigit(c: char) {
    ('0' <= c <= '9') || ('a' <= c <= 'f') || ('A' <= c <= 'F')
  }

  function DigitValue(c: char): (d: nat)
    requires IsHexDigit(c)
    ensures d < 16
  {
    if '0' <= c <= '9' then (c - '0') as nat
    else if 'a' <= c <= 'f' then (c - 'a') as nat + 10
    else (c - 'A') as nat + 10
  }

  /** The characters `parseInt` skips before the number: the ASCII
      controls TAB to CR, the line and paragraph separators, the byte-order
      mark and every space separator. */
  predicate IsJsWhiteSpace(c: char) {
    || '\t' <= c <= '\r'
    || c == ' ' || c == ' ' || c == ' '
    || (' ' <= c <= ' ')
    || c == ' ' || c == ' ' || c == ' ' || c == ' '
    || c == '　' || c == '﻿'
  }

  function TrimStart(s: string): (r: string)
    ensures |r| <= |s|
  {
    if |s| > 0 && IsJsWhiteSpace(s[0]) then TrimStart(s[1..]) else s
  }

  /** The length of the run of hex digits that starts `s`. */
  function HexRunLength(s: string): (n: nat)
    ensures n <= |s|
  {
    if |s| > 0 && IsHexDigit(s[0]) then 1 + HexRunLength(s[1..]) else 0
  }

  predicate AllHex(ds: string) {
    forall i :: 0 <= i < |ds| ==> IsHexDigit(ds[i])
  }

  function Pow16(k: nat): (p: nat)
    ensures 1 <= p
  {
    if k == 0 then 1 else 16 * Pow16(k - 1)
  }

  /** The value of a run of hex digits, most significant first (only ever
      applied to digits; anything else would count as 0). */
  function HexValue(ds: string): (v: nat)
    ensures v < Pow16(|ds|)
  {
    if |ds| == 0 then 0
    else
      var last := ds[|ds| - 1];
      16 * HexValue(ds[..|ds| - 1]) + (if IsHexDigit(last) then DigitValue(last) else 0)
  }

  /** `parseInt(s, 16)`. */
  function ParseIntHex(s: string): Option<int> {
    ParseSigned(TrimStart(s))
  }

  /** After the white space: an optional sign, then the magnitude. */
  function ParseSigned(t: string): Option<int> {
    if |t| > 0 && t[0] == '-' then
      match ParseMagnitude(t[1..])
      case None => None
      case Some(m) => Some(-(m as int))
    else if |t| > 0 && t[0] == '+' then
      match ParseMagnitude(t[1..])
      case None => None
      case Some(m) => Some(m as int)
    else
      match ParseMagnitude(t)
      case None => None
      case Some(m) => Some(m as int)
  }

  /** After the sign: an optional `0x` prefix, then the longest run of hex
      digits, which must not be empty. */
  function ParseMagnitude(u: string): Option<nat> {
    var v := if |u| >= 2 && u[0] == '0' && (u[1] == 'x' || u[1] == 'X') then u[2..] else u;
    var n := HexRunLength(v);
    if n == 0 then None else Some(HexValue(v[..n]))
  }

  /** The lower-case digit of a value below 16. */
  function HexChar(d: nat): (c: char)
    requires d < 16
    ensures IsHexDigit(c) && DigitValue(c) == d
    ensures !('A' <= c <= 'F')
  {
    if d < 10 then ('0' as int + d) as char else ('a' as int + d - 10) as char
  }

  /** The digits of a natural number in base 16, without leading zeros. */
  function HexDigitsOf(n: nat): (ds: string)
    ensures 1 <= |ds| && AllHex(ds)
    ensures |ds| == 1 <==> n < 16
  {
    if n < 16 then [HexChar(n)] else HexDigitsOf(n / 16) + [HexChar(n % 16)]
  }

  /** `n.toString(16)` for an integer `n`. */
  function ToHexString(n: int): string {
    if n < 0 then "-" + HexDigitsOf(-n) else HexDigitsOf(n)
  }

  // ---------------------------------------------------------------------
  // Properties.

  /** The digits read back to the number they were written from. */
  lemma {:induction false} HexDigitsValue(n: nat)
    ensures HexValue(HexDigitsOf(n)) == n
  {
    if n >= 16 {
      HexDigitsValue(n / 16);
      var ds := HexDigitsOf(n);
      assert ds[..|ds| - 1] == HexDigitsOf(n / 16);
    }
  }

  /** A run of digits that fills the whole string is read entirely. */
  lemma MagnitudeOfDigits(ds: string)
    requires 1 <= |ds| && AllHex(ds) && (|ds| >= 2 ==> ds[1] != 'x' && ds[1] != 'X')
    ensures ParseMagnitude(ds) == Some(HexValue(ds))
  {
    HexRunAll(ds);
    assert ds[..|ds|] == ds;
  }

  /** A string that starts with a hex digit or a sign has no white space
      to skip. */
  lemma NoSpaceToTrim(s: string)
    requires |s| > 0 && (IsHexDigit(s[0]) || s[0] == '-')
    ensures TrimStart(s) == s
  {
    assert !IsJsWhiteSpace(s[0]);
  }

  lemma {:induction false} HexRunAll(ds: string)
    requires AllHex(ds)
    ensures HexRunLength(ds) == |ds|
  {
    if |ds| > 0 {
      HexRunAll(ds[1..]);
    }
  }

  /** `parseInt(n.toString(16), 16) == n` for every integer. */
  lemma ParseToHexString(n: int)
    ensures ParseIntHex(ToHexString(n)) == Some(n)
  {
    var m: nat := if n < 0 then -n else n;
    HexDigitsValue(m);
    if n < 0 {
      var s := "-" + HexDigitsOf(m);
      assert s[1..] == HexDigitsOf(m);
      ParseNegative(s);
    } else {
      ParseNonNegative(HexDigitsOf(m));
    }
  }

  lemma ParseNonNegative(ds: string)
    requires 1 <= |ds| && AllHex(ds) && (|ds| >= 2 ==> ds[1] != 'x' && ds[1] != 'X')
    ensures ParseIntHex(ds) == Some(HexValue(ds) as int)
  {
    NoSpaceToTrim(ds);
    MagnitudeOfDigits(ds);
    assert ds[0] != '-' && ds[0] != '+';
  }

  lemma ParseNegative(s: string)
    requires 2 <= |s| && s[0] == '-'
    requires AllHex(s[1..]) && (|s| >= 3 ==> s[2] != 'x' && s[2] != 'X')
    ensures ParseIntHex(s) == Some(-(HexValue(s[1..]) as int))
  {
    NoSpaceToTrim(s);
    MagnitudeOfDigits(s[1..]);
    MinusSign(s, HexValue(s[1..]));
  }

  lemma MinusSign(t: string, m: nat)
    requires |t| > 0 && t[0] == '-' && ParseMagnitude(t[1..]) == Some(m)
    ensures ParseSigned(t) == Some(-(m as int))
  {
  }

  /** A string of at most two characters parses to a value in [-15, 255]. */
  lemma ParseShort(s: string)
    requires |s| <= 2
    ensures ParseIntHex(s).Some? ==> -15 <= ParseIntHex(s).value <= 255
  {
    var t := TrimStart(s);
    if |t| > 0 && (t[0] == '-' || t[0] == '+') {
      MagnitudeBound(t[1..]);
    } else {
      MagnitudeBound(t);
    }
  }

  lemma MagnitudeBound(u: string)
    requires |u| <= 2
    ensures ParseMagnitude(u).Some? ==> ParseMagnitude(u).value <= 255
    ensures |u| <= 1 && ParseMagnitude(u).Some? ==> ParseMagnitude(u).value <= 15
  {
    var v := if |u| >= 2 && u[0] == '0' && (u[1] == 'x' || u[1] == 'X') then u[2..] else u;
    var n := HexRunLength(v);
    if 0 < n {
      assert Pow16(1) == 16;
      assert Pow16(2) == 256;
    }
  }

  /** Values below 256 are written with one or two digits. */
  lemma ToHexStringSmall(n: int)
    requires 0 <= n < 256
    ensures AllHex(ToHexString(n)) && 1 <= |ToHexString(n)| <= 2
    ensures |ToHexString(n)| == 1 <==> n < 16
  {
    if n >= 16 {
      assert HexDigitsOf(n / 16) == [HexChar(n / 16)];
    }
  }
}
