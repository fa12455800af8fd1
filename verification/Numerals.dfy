/** Hexadecimal serial numbers and decimal row ids. */
module Numerals {

  // ----- Hexadecimal -----

  predicate IsHexDigit(c: char)
  {
    '0' <= c <= '9' || 'a' <= c <= 'f'
  }

  function HexDigit(c: char): (d: nat)
    requires IsHexDigit(c)
    ensures d < 16 && "0123456789abcdef"[d] == c
  {
    if c <= '9' then c as int - '0' as int else c as int - 'a' as int + 10
  }

  predicate IsHex(s: string)
  {
    forall i :: 0 <= i < |s| ==> IsHexDigit(s[i])
  }

  /** `int(s, 16)` */
  function HexValue(s: string): nat
    requires IsHex(s)
  {
    if s == "" then 0 else 16 * HexValue(s[..|s| - 1]) + HexDigit(s[|s| - 1])
  }

  function Pow16(n: nat): nat
  {
    if n == 0 then 1 else 16 * Pow16(n - 1)
  }

  lemma {:induction false} HexBelow(s: string)
    requires IsHex(s)
    ensures HexValue(s) < Pow16(|s|)
  {
    if s != "" {
      HexBelow(s[..|s| - 1]);
    }
  }

  /** Texts of the same width denote different numbers unless they are the same text. */
  lemma {:induction false} HexInjective(s: string, t: string)
    requires IsHex(s) && IsHex(t) && |s| == |t|
    ensures HexValue(s) == HexValue(t) ==> s == t
  {
    if s != "" && HexValue(s) == HexValue(t) {
      var n := |s| - 1;
      HexInjective(s[..n], t[..n]);
      assert s == s[..n] + [s[n]];
      assert t == t[..n] + [t[n]];
    }
  }

  /** The number written with this many hexadecimal digits. */
  function HexText(n: nat, width: nat): (s: string)
    ensures |s| == width && IsHex(s)
  {
    if width == 0 then "" else HexText(n / 16, width - 1) + ["0123456789abcdef"[n % 16]]
  }

  /** Reading is the inverse of writing. */
  lemma {:induction false} HexRoundTrip(n: nat, width: nat)
    requires n < Pow16(width)
    ensures HexValue(HexText(n, width)) == n
  {
    if width > 0 {
      HexRoundTrip(n / 16, width - 1);
      assert HexText(n, width)[..width - 1] == HexText(n / 16, width - 1);
      assert HexDigit("0123456789abcdef"[n % 16]) == n % 16;
    }
  }

  /** What `secrets.token_hex(16)` returns. */
  predicate IsToken(s: string)
  {
    |s| == 32 && IsHex(s)
  }

  const TWO_TO_128 := 0x1_0000_0000_0000_0000_0000_0000_0000_0000

  lemma Pow16Splits(m: nat, n: nat)
    ensures Pow16(m + n) == Pow16(m) * Pow16(n)
    decreases n
  {
    if n > 0 {
      Pow16Splits(m, n - 1);
      assert Pow16(m + n) == 16 * (Pow16(m) * Pow16(n - 1)) == Pow16(m) * (16 * Pow16(n - 1));
    }
  }

  /** A drawn serial is below 2 to the 128, so it fits in the 20 octets of section 4.1.2.2 of RFC 5280. */
  lemma TokenBelow(s: string)
    requires IsToken(s)
    ensures HexValue(s) < TWO_TO_128
  {
    HexBelow(s);
    Pow16Splits(4, 4);
    Pow16Splits(8, 8);
    Pow16Splits(16, 16);
    assert Pow16(4) == 65536;
    assert Pow16(8) == 0x1_0000_0000;
    assert Pow16(16) == 0x1_0000_0000_0000_0000;
  }

  // ----- Decimal -----

  const DIGITS := "0123456789"

  function Decimal(n: nat): (s: string)
    ensures s != ""
  {
    if n < 10 then [DIGITS[n]] else Decimal(n / 10) + [DIGITS[n % 10]]
  }

  /** The number a decimal text denotes. */
  function DecimalValue(s: string): nat
    requires forall i :: 0 <= i < |s| ==> '0' <= s[i] <= '9'
  {
    if s == "" then 0 else 10 * DecimalValue(s[..|s| - 1]) + (s[|s| - 1] as int - '0' as int)
  }

  lemma {:induction false} DecimalRoundTrip(n: nat)
    ensures forall i :: 0 <= i < |Decimal(n)| ==> '0' <= Decimal(n)[i] <= '9'
    ensures DecimalValue(Decimal(n)) == n
    ensures n > 0 ==> Decimal(n)[0] != '0'
  {
    if n >= 10 {
      DecimalRoundTrip(n / 10);
      assert Decimal(n)[..|Decimal(n)| - 1] == Decimal(n / 10);
    } else {
      assert Decimal(n)[..0] == "";
    }
  }

  lemma {:induction false} DecimalInjective(m: nat, n: nat)
    ensures Decimal(m) == Decimal(n) ==> m == n
    decreases m
  {
    if Decimal(m) == Decimal(n) {
      var s := Decimal(m);
      assert s[|s| - 1] == DIGITS[m % 10] == DIGITS[n % 10];
      if m >= 10 && n >= 10 {
        assert s[..|s| - 1] == Decimal(m / 10) == Decimal(n / 10);
        DecimalInjective(m / 10, n / 10);
      }
    }
  }
}
