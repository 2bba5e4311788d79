/** UUIDs as 128-bit numbers and their canonical text. */
module Uuids {
  import opened Basics

  function Pow16(w: nat): (p: nat)
    ensures p > 0
  {
    if w == 0 then 1 else 16 * Pow16(w - 1)
  }

  predicate IsHex(c: char) {
    '0' <= c <= '9' || 'a' <= c <= 'f'
  }

  predicate AllHex(s: string) {
    forall c | c in s :: IsHex(c)
  }

  function HexDigit(d: nat): (c: char)
    requires d < 16
    ensures IsHex(c) && HexValue(c) == d
  {
    if d < 10 then ('0' as int + d) as char else ('a' as int + d - 10) as char
  }

  function HexValue(c: char): (v: nat)
    requires IsHex(c)
    ensures v < 16
  {
    if c <= '9' then c as int - '0' as int else c as int - 'a' as int + 10
  }

  function Hex(n: nat, w: nat): (s: string)
    ensures |s| == w && AllHex(s)
  {
    if w == 0 then "" else Hex(n / 16, w - 1) + [HexDigit(n % 16)]
  }

  function HexNumber(s: string): nat
    requires AllHex(s)
  {
    if s == "" then 0 else HexNumber(s[..|s| - 1]) * 16 + HexValue(s[|s| - 1])
  }

  /** 32 digits in groups of 8, 4, 4, 4 and 12. */
  function Text(id: nat): string {
    Dashed(Hex(id, 32))
  }

  function Dashed(h: string): string
    requires |h| == 32
  {
    h[..8] + ("-" + (h[8..12] + ("-" + (h[12..16] + ("-" + (h[16..20] + ("-" + h[20..])))))))
  }

  function ParseText(s: string): Option<nat> {
    if |s| != 36 || s[8] != '-' || s[13] != '-' || s[18] != '-' || s[23] != '-' then None
    else
      var h := Undashed(s);
      if AllHex(h) then Some(HexNumber(h)) else None
  }

  function Undashed(s: string): string
    requires |s| == 36
  {
    s[..8] + (s[9..13] + (s[14..18] + (s[19..23] + s[24..])))
  }

  lemma UndashedDashed(h: string)
    requires |h| == 32
    ensures var s := Dashed(h);
      && |s| == 36 && s[8] == '-' && s[13] == '-' && s[18] == '-' && s[23] == '-'
      && Undashed(s) == h
  {
    var s := Dashed(h);
    assert s[..8] == h[..8] && s[9..13] == h[8..12] && s[14..18] == h[12..16] && s[19..23] == h[16..20];
    assert s[24..] == h[20..];
  }

  lemma {:induction false} HexRoundTrip(n: nat, w: nat)
    requires n < Pow16(w)
    ensures HexNumber(Hex(n, w)) == n
  {
    if w > 0 {
      HexRoundTrip(n / 16, w - 1);
      assert Hex(n, w)[..w - 1] == Hex(n / 16, w - 1);
    }
  }

  lemma TextRoundTrip(id: nat)
    requires id < Pow16(32)
    ensures ParseText(Text(id)) == Some(id)
  {
    UndashedDashed(Hex(id, 32));
    HexRoundTrip(id, 32);
  }

  lemma {:induction false} LessOfConcat(x: string, y: string, u: string, v: string)
    requires |x| == |y|
    ensures Less(x + u, y + v) <==> Less(x, y) || (x == y && Less(u, v))
  {
    if x == "" {
      assert x + u == u && y + v == v;
    } else {
      assert (x + u)[1..] == x[1..] + u && (y + v)[1..] == y[1..] + v;
      LessOfConcat(x[1..], y[1..], u, v);
      assert x == [x[0]] + x[1..] && y == [y[0]] + y[1..];
      LessTotal(x, x);
    }
  }

  lemma {:induction false} HexOrder(a: nat, b: nat, w: nat)
    requires a < Pow16(w) && b < Pow16(w)
    ensures Less(Hex(a, w), Hex(b, w)) <==> a < b
    ensures Hex(a, w) == Hex(b, w) <==> a == b
  {
    if w > 0 {
      HexOrder(a / 16, b / 16, w - 1);
      var u, v := [HexDigit(a % 16)], [HexDigit(b % 16)];
      LessOfConcat(Hex(a / 16, w - 1), Hex(b / 16, w - 1), u, v);
      assert Less(u, v) <==> a % 16 < b % 16;
      HexRoundTrip(a, w);
      HexRoundTrip(b, w);
    }
  }

  /** Dashes at fixed places do not change the order of the text. */
  lemma DashedOrder(g: string, h: string)
    requires |g| == 32 && |h| == 32
    ensures Less(Dashed(g), Dashed(h)) <==> Less(g, h)
  {
    assert g == g[..8] + (g[8..12] + (g[12..16] + (g[16..20] + g[20..])));
    assert h == h[..8] + (h[8..12] + (h[12..16] + (h[16..20] + h[20..])));
    PrefixedOrder(g[16..20], h[16..20], g[20..], h[20..], g[20..], h[20..]);
    PrefixedOrder(g[12..16], h[12..16], g[16..20] + g[20..], h[16..20] + h[20..],
                  g[16..20] + ("-" + g[20..]), h[16..20] + ("-" + h[20..]));
    PrefixedOrder(g[8..12], h[8..12], g[12..16] + (g[16..20] + g[20..]), h[12..16] + (h[16..20] + h[20..]),
                  g[12..16] + ("-" + (g[16..20] + ("-" + g[20..]))), h[12..16] + ("-" + (h[16..20] + ("-" + h[20..]))));
    PrefixedOrder(g[..8], h[..8], g[8..12] + (g[12..16] + (g[16..20] + g[20..])), h[8..12] + (h[12..16] + (h[16..20] + h[20..])),
                  g[8..12] + ("-" + (g[12..16] + ("-" + (g[16..20] + ("-" + g[20..]))))),
                  h[8..12] + ("-" + (h[12..16] + ("-" + (h[16..20] + ("-" + h[20..]))))));
  }

  lemma PrefixedOrder(x: string, y: string, u: string, v: string, u': string, v': string)
    requires |x| == |y| && (Less(u', v') <==> Less(u, v))
    ensures Less(x + ("-" + u'), y + ("-" + v')) <==> Less(x + u, y + v)
  {
    LessOfConcat(x, y, u, v);
    LessOfConcat(x, y, "-" + u', "-" + v');
    LessOfConcat("-", "-", u', v');
  }

  /** The database compares UUIDs as bytes and the server as text: the same order. */
  lemma TextOrder(a: nat, b: nat)
    requires a < Pow16(32) && b < Pow16(32)
    ensures Less(Text(a), Text(b)) <==> a < b
  {
    HexOrder(a, b, 32);
    DashedOrder(Hex(a, 32), Hex(b, 32));
  }
}
