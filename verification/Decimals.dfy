/** Decimal text: fixed-width and signed, written and read back. */
module Decimals {
  import opened Basics

  function Pow10(w: nat): (p: nat)
    ensures p > 0
  {
    if w == 0 then 1 else 10 * Pow10(w - 1)
  }

  function Digit(d: nat): (c: char)
    requires d < 10
    ensures IsDigit(c)
  {
    ('0' as int + d) as char
  }

  function Number(s: string): nat
    requires AllDigits(s)
  {
    if s == "" then 0 else Number(s[..|s| - 1]) * 10 + DigitValue(s[|s| - 1])
  }

  function DigitValue(c: char): nat
    requires IsDigit(c)
  {
    c as int - '0' as int
  }

  /** The last w digits of n. */
  function Fixed(n: nat, w: nat): (s: string)
    ensures |s| == w && AllDigits(s)
  {
    if w == 0 then "" else Fixed(n / 10, w - 1) + [Digit(n % 10)]
  }

  /** The digits of n without leading zeros. */
  function Decimal(n: nat): (s: string)
    ensures s != "" && AllDigits(s) && Number(s) == n
  {
    if n < 10 then [Digit(n)]
    else
      var r := Decimal(n / 10) + [Digit(n % 10)];
      assert r[..|r| - 1] == Decimal(n / 10);
      r
  }

  /** At least w digits. */
  function Padded(n: nat, w: nat): (s: string)
    ensures AllDigits(s)
  {
    if n < Pow10(w) then Fixed(n, w) else Decimal(n)
  }

  lemma {:induction false} FixedNumber(n: nat, w: nat)
    requires n < Pow10(w)
    ensures Number(Fixed(n, w)) == n
  {
    if w > 0 {
      FixedNumber(n / 10, w - 1);
      var s := Fixed(n, w);
      assert s[..w - 1] == Fixed(n / 10, w - 1);
      assert DigitValue(s[w - 1]) == n % 10;
    }
  }

  lemma {:induction false} NumberIsBounded(s: string)
    requires AllDigits(s)
    ensures Number(s) < Pow10(|s|)
  {
    if s != "" {
      NumberIsBounded(s[..|s| - 1]);
      assert DigitValue(s[|s| - 1]) < 10;
      assert Pow10(|s|) == 10 * Pow10(|s| - 1);
    }
  }

  lemma {:induction false} Pow10Grows(a: nat, b: nat)
    requires a <= b
    ensures Pow10(a) <= Pow10(b)
  {
    if a < b { Pow10Grows(a, b - 1); }
  }

  lemma PaddedIsLong(n: nat)
    requires n >= 10000
    ensures |Padded(n, 4)| >= 5
  {
    assert Pow10(2) == 100;
    assert Pow10(4) == 10000;
    assert Padded(n, 4) == Decimal(n);
    NumberIsBounded(Decimal(n));
    if |Decimal(n)| <= 4 { Pow10Grows(|Decimal(n)|, 4); }
  }

  // ---- strconv.FormatInt and ParseInt, base 10, 64 bits ----

  const MinInt64: int := -0x8000_0000_0000_0000
  const MaxInt64: int := 0x7FFF_FFFF_FFFF_FFFF

  function FormatInt(n: int): string {
    if n < 0 then "-" + Decimal(-n) else Decimal(n)
  }

  function ParseInt(s: string): Option<int> {
    if s == "" then None
    else
      var signed := s[0] == '-' || s[0] == '+';
      var digits := if signed then s[1..] else s;
      if digits == "" || !AllDigits(digits) then None
      else
        var v: int := if s[0] == '-' then -(Number(digits) as int) else Number(digits);
        if MinInt64 <= v <= MaxInt64 then Some(v) else None
  }

  lemma IntRoundTrip(n: int)
    ensures ParseInt(FormatInt(n)) == if MinInt64 <= n <= MaxInt64 then Some(n) else None
  {
    if n >= 0 {
      assert FormatInt(n)[0] in Decimal(n);
    } else {
      assert FormatInt(n)[1..] == Decimal(-n);
    }
  }
}
