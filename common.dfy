/** Values shared by every module: nullable values, .NET identifiers and
    clock ticks, 32-bit integer arithmetic and the text helpers the source
    gets from the .NET base library (whitespace tests, decimal and Guid
    formatting, substring search). */
module Common {

  /** A C# nullable value or reference: None stands for null. */
  datatype Option<+T> = None | Some(value: T)

  /** A call that either returns a value or throws an exception with a message. */
  datatype Fallible<+T> = Ok(value: T) | Throws(message: string)

  /** The value a .NET `int` holds. */
  type Int32 = x: int | -0x8000_0000 <= x < 0x8000_0000

  /** Unchecked C# `int` arithmetic: the exact result wrapped into 32 bits. */
  function Wrap32(x: int): (r: Int32)
    ensures -0x8000_0000 <= x < 0x8000_0000 ==> r == x
    ensures (r - x) % 0x1_0000_0000 == 0
  {
    (x + 0x8000_0000) % 0x1_0000_0000 - 0x8000_0000
  }

  /** Wrapping an intermediate result changes nothing: C# may wrap after
      every operation or only at the end. */
  lemma Wrap32Add(x: int, y: int)
    ensures Wrap32(Wrap32(x) + y) == Wrap32(x + y)
  {
    var k := (Wrap32(x) - x) / 0x1_0000_0000;
    assert Wrap32(x) + y + 0x8000_0000 == (x + y + 0x8000_0000) + k * 0x1_0000_0000;
    ModShift(x + y + 0x8000_0000, k);
  }

  lemma ModShift(a: int, k: int)
    ensures (a + k * 0x1_0000_0000) % 0x1_0000_0000 == a % 0x1_0000_0000
  {
    var m := 0x1_0000_0000;
    var q := a / m;
    assert a == q * m + a % m;
    assert a + k * m == (q + k) * m + a % m;
  }

  function Pow16(n: nat): (r: nat)
    ensures r > 0
  {
    if n == 0 then 1 else 16 * Pow16(n - 1)
  }

  /** A .NET Guid, identified with the 128-bit number its 32 hex digits spell. */
  type Guid = g: nat | g < Pow16(32)

  /** Guid.Empty. */
  const EmptyGuid: Guid := 0

  /** A .NET DateTime, as a count of 100-nanosecond ticks. */
  type DateTime = int

  const TicksPerMinute: int := 600_000_000
  const TicksPerDay: int := 864_000_000_000

  function Max(a: int, b: int): int { if a >= b then a else b }
  function Min(a: int, b: int): int { if a <= b then a else b }

  // ---------------------------------------------------------------------
  // Whitespace (char.IsWhiteSpace restricted to the Latin-1 range)

  predicate IsWhiteSpace(c: char) {
    c == ' ' || ('\t' <= c <= '\r') || c == '\U{85}' || c == '\U{A0}'
  }

  /** string.IsNullOrWhiteSpace for a non-null string. */
  predicate Blank(s: string) {
    forall i | 0 <= i < |s| :: IsWhiteSpace(s[i])
  }

  // ---------------------------------------------------------------------
  // Substring search (string.Contains, ordinal)

  function Contains(s: string, part: string): (b: bool)
    ensures b <==> exists i :: 0 <= i <= |s| - |part| && part <= s[i..]
    decreases |s|
  {
    if part <= s then
      assert part <= s[0..];
      true
    else if |s| == 0 then false
    else
      var b := Contains(s[1..], part);
      if b then
        var i :| 0 <= i <= |s[1..]| - |part| && part <= s[1..][i..];
        assert s[1..][i..] == s[i + 1..];
        b
      else
        assert forall i :: 1 <= i <= |s| - |part| ==> s[i..] == s[1..][i - 1..];
        b
  }

  /** An occurrence at a known position. */
  lemma ContainsAt(s: string, part: string, i: nat)
    requires i + |part| <= |s| && s[i..i + |part|] == part
    ensures Contains(s, part)
  {
    assert part <= s[i..];
  }

  /** A text lacking one of part's characters does not contain part. */
  lemma LacksChar(s: string, part: string, c: char)
    requires c in part && c !in s
    ensures !Contains(s, part)
  {
    var j :| 0 <= j < |part| && part[j] == c;
    forall i | 0 <= i <= |s| - |part| ensures !(part <= s[i..]) {
      assert s[i..][j] == s[i + j] != c;
    }
  }

  // ---------------------------------------------------------------------
  // Decimal text (int.ToString() in the invariant culture) and its inverse

  function DigitChar(d: nat): (c: char)
    requires d < 10
    ensures '0' <= c <= '9'
  {
    ('0' as int + d) as char
  }

  function DigitValue(c: char): int { c as int - '0' as int }

  function NatText(n: nat): (s: string)
    ensures |s| >= 1
    ensures forall i | 0 <= i < |s| :: '0' <= s[i] <= '9'
  {
    if n < 10 then [DigitChar(n)] else NatText(n / 10) + [DigitChar(n % 10)]
  }

  /** The decimal text of an integer, with a leading '-' when negative. */
  function DecimalText(n: int): string {
    if n < 0 then "-" + NatText(-n) else NatText(n)
  }

  function ParseDigits(s: string): int {
    if |s| == 0 then 0 else 10 * ParseDigits(s[..|s| - 1]) + DigitValue(s[|s| - 1])
  }

  function ParseDecimal(s: string): int {
    if |s| > 0 && s[0] == '-' then -ParseDigits(s[1..]) else ParseDigits(s)
  }

  lemma {:induction false} NatTextRoundTrip(n: nat)
    ensures ParseDigits(NatText(n)) == n
  {
    if n >= 10 {
      var s := NatText(n);
      assert s[..|s| - 1] == NatText(n / 10);
      NatTextRoundTrip(n / 10);
    }
  }

  /** Reading a header value written by DecimalText gives back the number. */
  lemma DecimalTextRoundTrip(n: int)
    ensures ParseDecimal(DecimalText(n)) == n
  {
    if n < 0 {
      assert DecimalText(n)[1..] == NatText(-n);
      NatTextRoundTrip(-n);
    } else {
      NatTextRoundTrip(n);
    }
  }

  /** Distinct numbers have distinct decimal texts. */
  lemma DecimalTextInjective(a: int, b: int)
    requires DecimalText(a) == DecimalText(b)
    ensures a == b
  {
    DecimalTextRoundTrip(a);
    DecimalTextRoundTrip(b);
  }

  // ---------------------------------------------------------------------
  // Guid text: Guid.ToString(), 8-4-4-4-12 lower-case hex digits

  function HexDigit(d: nat): (c: char)
    requires d < 16
  {
    if d < 10 then ('0' as int + d) as char else ('a' as int + d - 10) as char
  }

  function Hex(n: nat, width: nat): (s: string)
    ensures |s| == width
  {
    if width == 0 then [] else Hex(n / 16, width - 1) + [HexDigit(n % 16)]
  }

  lemma HexDigitInjective(a: nat, b: nat)
    requires a < 16 && b < 16 && HexDigit(a) == HexDigit(b)
    ensures a == b
  {
  }

  lemma {:induction false} HexInjective(a: nat, b: nat, width: nat)
    requires a < Pow16(width) && b < Pow16(width)
    requires Hex(a, width) == Hex(b, width)
    ensures a == b
  {
    if width > 0 {
      var sa, sb := Hex(a, width), Hex(b, width);
      assert sa[width - 1] == HexDigit(a % 16) && sb[width - 1] == HexDigit(b % 16);
      HexDigitInjective(a % 16, b % 16);
      assert sa[..width - 1] == Hex(a / 16, width - 1);
      assert sb[..width - 1] == Hex(b / 16, width - 1);
      assert a / 16 < Pow16(width - 1);
      assert b / 16 < Pow16(width - 1);
      HexInjective(a / 16, b / 16, width - 1);
    }
  }

  function GuidText(g: Guid): (s: string)
    ensures |s| == 36
  {
    var h := Hex(g, 32);
    h[..8] + "-" + h[8..12] + "-" + h[12..16] + "-" + h[16..20] + "-" + h[20..]
  }

  /** Distinct Guids print differently, so keys built from them never clash. */
  lemma GuidTextInjective(a: Guid, b: Guid)
    requires GuidText(a) == GuidText(b)
    ensures a == b
  {
    var ha, hb := Hex(a, 32), Hex(b, 32);
    var ta, tb := GuidText(a), GuidText(b);
    assert ha[..8] == ta[..8] && hb[..8] == tb[..8];
    assert ha[8..12] == ta[9..13] && hb[8..12] == tb[9..13];
    assert ha[12..16] == ta[14..18] && hb[12..16] == tb[14..18];
    assert ha[16..20] == ta[19..23] && hb[16..20] == tb[19..23];
    assert ha[20..] == ta[24..] && hb[20..] == tb[24..];
    assert ha == ha[..8] + ha[8..12] + ha[12..16] + ha[16..20] + ha[20..];
    assert hb == hb[..8] + hb[8..12] + hb[12..16] + hb[16..20] + hb[20..];
    HexInjective(a, b, 32);
  }

  // ---------------------------------------------------------------------
  // ASCII case folding (ordinal ignore-case comparison of ASCII text)

  function ToLowerAscii(c: char): char {
    if 'A' <= c <= 'Z' then (c as int + 32) as char else c
  }

  function LowerAscii(s: string): (r: string)
    ensures |r| == |s|
    ensures forall i | 0 <= i < |s| :: r[i] == ToLowerAscii(s[i])
  {
    if |s| == 0 then [] else [ToLowerAscii(s[0])] + LowerAscii(s[1..])
  }

  predicate EqualsIgnoreCase(a: string, b: string) {
    LowerAscii(a) == LowerAscii(b)
  }
}
