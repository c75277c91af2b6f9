/** Hexadecimal text: Python's `int(s, 16)` on plain digit strings, and the
    fixed-width lower-case rendering a MAC address octet is written in. */
module Hex {
  import opened Outcomes

  predicate IsHexDigit(c: char) {
    '0' <= c <= '9' || 'a' <= c <= 'f' || 'A' <= c <= 'F'
  }

  predicate AllHex(s: string) {
    forall i :: 0 <= i < |s| ==> IsHexDigit(s[i])
  }

  function DigitValue(c: char): (v: nat)
    requires IsHexDigit(c)
    ensures v < 16
  {
    if '0' <= c <= '9' then c as int - '0' as int
    else if 'a' <= c <= 'f' then c as int - 'a' as int + 10
    else c as int - 'A' as int + 10
  }

  function Pow16(n: nat): (p: nat)
    ensures p >= 1
  {
    if n == 0 then 1 else 16 * Pow16(n - 1)
  }

  /** The number a string of hex digits denotes, most significant digit first. */
  function HexValue(s: string): (v: nat)
    requires AllHex(s)
    ensures v < Pow16(|s|)
  {
    if |s| == 0 then 0
    else
      var high := HexValue(s[..|s| - 1]);
      assert high <= Pow16(|s| - 1) - 1;
      high * 16 + DigitValue(s[|s| - 1])
  }

  /** Python's `int(s, 16)` on the strings the model admits: one or more hex
      digits. Anything else raises ValueError. */
  function ParseHex(s: string): (r: Result<nat>)
    ensures r.Ok? <==> |s| > 0 && AllHex(s)
    ensures r.Err? ==> r.error == ValueError(s)
    ensures r.Ok? ==> r.value < Pow16(|s|)
  {
    if |s| == 0 || !AllHex(s) then Err(ValueError(s)) else Ok(HexValue(s))
  }

  /** A run of hex digits parses to the number it denotes. */
  lemma ParseHexDigits(s: string)
    requires |s| > 0 && AllHex(s)
    ensures ParseHex(s) == Ok(HexValue(s))
  {
  }

  function HexChar(d: nat): (c: char)
    requires d < 16
    ensures IsHexDigit(c) && DigitValue(c) == d
  {
    if d < 10 then ('0' as int + d) as char else ('a' as int + d - 10) as char
  }

  /** `n` written in exactly `width` lower-case hex digits (`'%02x' % n` for width 2). */
  function HexString(n: nat, width: nat): (s: string)
    ensures |s| == width
    ensures AllHex(s)
    ensures ':' !in s
  {
    if width == 0 then ""
    else HexString(n / 16, width - 1) + [HexChar(n % 16)]
  }

  /** Parsing a rendering gives the number back, when it fits the width. */
  lemma {:induction false} HexRoundTrip(n: nat, width: nat)
    requires n < Pow16(width)
    ensures HexValue(HexString(n, width)) == n
    decreases width
  {
    if width > 0 {
      var s := HexString(n, width);
      assert s[..width - 1] == HexString(n / 16, width - 1);
      HexRoundTrip(n / 16, width - 1);
    }
  }

  /** The value of a concatenation of digit strings. */
  lemma {:induction false} HexValueAppend(a: string, b: string)
    requires AllHex(a) && AllHex(b)
    ensures AllHex(a + b)
    ensures HexValue(a + b) == HexValue(a) * Pow16(|b|) + HexValue(b)
    decreases |b|
  {
    AllHexAppend(a, b);
    if |b| == 0 {
      assert a + b == a;
    } else {
      var b' := b[..|b| - 1];
      assert (a + b)[..|a + b| - 1] == a + b';
      assert AllHex(b');
      HexValueAppend(a, b');
      ShiftDigit(HexValue(a), Pow16(|b'|), HexValue(b'), DigitValue(b[|b| - 1]));
    }
  }

  lemma AllHexAppend(a: string, b: string)
    requires AllHex(a) && AllHex(b)
    ensures AllHex(a + b)
  {
    forall i | 0 <= i < |a + b| ensures IsHexDigit((a + b)[i]) {
      if i < |a| { assert (a + b)[i] == a[i]; } else { assert (a + b)[i] == b[i - |a|]; }
    }
  }

  lemma ShiftDigit(x: int, p: int, y: int, d: int)
    ensures (x * p + y) * 16 + d == x * (16 * p) + (y * 16 + d)
  {
  }
}
