/** Product identifiers: 128-bit `Guid` values and their "D" text form,
    as quoted in the repository's not-found messages. */
module Guids {

  /** A Guid, read as the 128-bit number its 32 hex digits spell. */
  type Guid = n: nat | n < 0x1_0000_0000_0000_0000_0000_0000_0000_0000

  predicate IsHexDigit(c: char) {
    '0' <= c <= '9' || 'a' <= c <= 'f'
  }

  /** The value of a hex digit. */
  function DigitValue(c: char): (d: nat)
    requires IsHexDigit(c)
    ensures d < 16
  {
    if c <= '9' then c as int - '0' as int else c as int - 'a' as int + 10
  }

  /** The lower-case hex digit of `d`. */
  function HexDigit(d: nat): (c: char)
    requires d < 16
    ensures IsHexDigit(c) && DigitValue(c) == d
  {
    if d < 10 then ('0' as int + d) as char else ('a' as int + d - 10) as char
  }

  /** The lowest `width` hex digits of `n`, most significant first. */
  function Hex(n: nat, width: nat): (s: string)
    ensures |s| == width
    ensures forall i | 0 <= i < |s| :: IsHexDigit(s[i])
    decreases width
  {
    if width == 0 then "" else Hex(n / 16, width - 1) + [HexDigit(n % 16)]
  }

  function Pow16(w: nat): (p: nat)
    ensures p > 0
  {
    if w == 0 then 1 else 16 * Pow16(w - 1)
  }

  /** The number a string of hex digits spells, most significant first. */
  function HexValue(s: string): nat
    requires forall i | 0 <= i < |s| :: IsHexDigit(s[i])
  {
    if |s| == 0 then 0 else HexValue(s[..|s| - 1]) * 16 + DigitValue(s[|s| - 1])
  }

  /** `Hex` spells the number it renders: when `n` fits in `width` hex digits,
      its digits read back as `n`. */
  lemma {:induction false} HexSpellsValue(n: nat, width: nat)
    requires n < Pow16(width)
    ensures HexValue(Hex(n, width)) == n
    decreases width
  {
    if width > 0 {
      var s := Hex(n, width);
      assert s[..|s| - 1] == Hex(n / 16, width - 1);
      assert (n / 16) * 16 <= n < Pow16(width - 1) * 16;
      HexSpellsValue(n / 16, width - 1);
    }
  }

  /** Powers of 16 add their exponents. */
  lemma {:induction false} Pow16Add(a: nat, b: nat)
    ensures Pow16(a + b) == Pow16(a) * Pow16(b)
    decreases a
  {
    if a > 0 {
      Pow16Add(a - 1, b);
    }
  }

  /** The 32 hex digits of a "D"-format text, hyphens dropped. */
  function Digits(s: string): (d: string)
    requires |s| == 36
    ensures |d| == 32
  {
    s[..8] + s[9..13] + s[14..18] + s[19..23] + s[24..]
  }

  /** `Guid.ToString()`: 8-4-4-4-12 lower-case hex digits separated by hyphens. */
  function ToText(g: Guid): (s: string)
    ensures |s| == 36
    ensures forall i | 0 <= i < 36 ::
      if i == 8 || i == 13 || i == 18 || i == 23 then s[i] == '-' else IsHexDigit(s[i])
  {
    var d := Hex(g, 32);
    d[..8] + "-" + d[8..12] + "-" + d[12..16] + "-" + d[16..20] + "-" + d[20..]
  }

  /** Every Guid fits in 32 hex digits. */
  lemma GuidBelowPow16()
    ensures Pow16(32) == 0x1_0000_0000_0000_0000_0000_0000_0000_0000
  {
    Pow16Add(2, 2);
    Pow16Add(4, 4);
    Pow16Add(8, 8);
    Pow16Add(16, 16);
  }

  /** The text form spells the Guid: its digits, read back, are the Guid. */
  lemma ToTextSpellsGuid(g: Guid)
    ensures Digits(ToText(g)) == Hex(g, 32)
    ensures HexValue(Digits(ToText(g))) == g
  {
    var d := Hex(g, 32);
    var t := ToText(g);
    assert t == d[..8] + "-" + d[8..12] + "-" + d[12..16] + "-" + d[16..20] + "-" + d[20..];
    assert t[..8] == d[..8];
    assert t[9..13] == d[8..12];
    assert t[14..18] == d[12..16];
    assert t[19..23] == d[16..20];
    assert t[24..] == d[20..];
    assert d[..8] + d[8..12] + d[12..16] + d[16..20] + d[20..] == d;
    GuidBelowPow16();
    HexSpellsValue(g, 32);
  }

  /** Distinct Guids render differently, so a not-found message names its id. */
  lemma ToTextInjective(a: Guid, b: Guid)
    ensures ToText(a) == ToText(b) <==> a == b
  {
    ToTextSpellsGuid(a);
    ToTextSpellsGuid(b);
  }

}
