/** Instants and their RFC 3339 text with up to nine fraction digits, in UTC. */
module Instants {
  import opened Basics
  import opened Decimals

  /** Nanoseconds since the start of year 0. */
  type Instant = nat

  datatype Civil = Civil(year: nat, month: nat, day: nat, hour: nat, minute: nat, second: nat, nano: nat)

  const Billion: nat := 1_000_000_000

  predicate Leap(y: nat) {
    y % 4 == 0 && (y % 100 != 0 || y % 400 == 0)
  }

  function DaysInYear(y: nat): nat {
    if Leap(y) then 366 else 365
  }

  function DaysIn(y: nat, m: nat): nat {
    if m == 2 then if Leap(y) then 29 else 28
    else if m == 4 || m == 6 || m == 9 || m == 11 then 30
    else 31
  }

  function DaysBeforeYear(y: nat): nat {
    if y == 0 then 0 else DaysBeforeYear(y - 1) + DaysInYear(y - 1)
  }

  function DaysBeforeMonth(y: nat, m: nat): nat {
    if m <= 1 then 0 else DaysBeforeMonth(y, m - 1) + DaysIn(y, m - 1)
  }

  predicate ValidCivil(c: Civil) {
    1 <= c.month <= 12 && 1 <= c.day <= DaysIn(c.year, c.month)
    && c.hour < 24 && c.minute < 60 && c.second < 60 && c.nano < Billion
  }

  function InstantOf(c: Civil): Instant
    requires ValidCivil(c)
  {
    ((((DaysBeforeYear(c.year) + DaysBeforeMonth(c.year, c.month) + c.day - 1) * 24 + c.hour) * 60 + c.minute) * 60 + c.second) * Billion + c.nano
  }

  /** The year of a day counted from the start of year y, and the day within it. */
  function YearOf(day: nat, y: nat): (r: (nat, nat))
    ensures r.0 >= y && r.1 < DaysInYear(r.0)
    ensures DaysBeforeYear(r.0) + r.1 == DaysBeforeYear(y) + day
    decreases day
  {
    if day < DaysInYear(y) then (y, day) else YearOf(day - DaysInYear(y), y + 1)
  }

  function DaysFrom(y: nat, m: nat): nat
    requires 1 <= m <= 13
    decreases 13 - m
  {
    if m == 13 then 0 else DaysIn(y, m) + DaysFrom(y, m + 1)
  }

  function MonthOf(y: nat, day: nat, m: nat): (r: (nat, nat))
    requires 1 <= m <= 12 && day < DaysFrom(y, m)
    ensures m <= r.0 <= 12 && 1 <= r.1 <= DaysIn(y, r.0)
    ensures DaysBeforeMonth(y, r.0) + r.1 - 1 == DaysBeforeMonth(y, m) + day
    decreases 13 - m
  {
    if day < DaysIn(y, m) then (m, day + 1) else MonthOf(y, day - DaysIn(y, m), m + 1)
  }

  lemma YearIsItsMonths(y: nat)
    ensures DaysFrom(y, 1) == DaysInYear(y)
  {
    assert DaysFrom(y, 11) == 61;
    assert DaysFrom(y, 9) == 122;
    assert DaysFrom(y, 7) == 184;
    assert DaysFrom(y, 5) == 245;
    assert DaysFrom(y, 3) == 306;
  }

  function CivilOf(t: Instant): (c: Civil)
    ensures ValidCivil(c) && InstantOf(c) == t
  {
    var s := t / Billion;
    ClockOf(s);
    DateOf(s / 86400).(hour := s / 3600 % 24, minute := s / 60 % 60, second := s % 60, nano := t % Billion)
  }

  /** Midnight of a day. */
  function DateOf(day: nat): (c: Civil)
    ensures ValidCivil(c) && c.hour == c.minute == c.second == c.nano == 0
    ensures DaysBeforeYear(c.year) + DaysBeforeMonth(c.year, c.month) + c.day - 1 == day
  {
    var (y, d) := YearOf(day, 0);
    YearIsItsMonths(y);
    var (m, dayOfMonth) := MonthOf(y, d, 1);
    Civil(y, m, dayOfMonth, 0, 0, 0, 0)
  }

  lemma ClockOf(s: nat)
    ensures ((s / 86400 * 24 + s / 3600 % 24) * 60 + s / 60 % 60) * 60 + s % 60 == s
  {
    assert s / 60 * 60 + s % 60 == s;
    assert s / 3600 == s / 60 / 60 && s / 86400 == s / 3600 / 24;
  }

  // ---- text ----

  function Format(t: Instant): string {
    var c := CivilOf(t);
    Padded(c.year, 4) + ("-" + (Fixed(c.month, 2) + ("-" + (Fixed(c.day, 2) + ("T" +
    (Fixed(c.hour, 2) + (":" + (Fixed(c.minute, 2) + (":" + (Fixed(c.second, 2) + (Fraction(c.nano) + "Z")))))))))))
  }

  /** Trailing zeros of the fraction are dropped, and a zero fraction altogether. */
  function Fraction(nano: nat): string {
    if nano == 0 then "" else "." + Trim(Fixed(nano, 9))
  }

  function Trim(s: string): string {
    if s != "" && s[|s| - 1] == '0' then Trim(s[..|s| - 1]) else s
  }

  function Parse(s: string): Option<Instant> {
    var c := ParseFields(s);
    if c.Some? && ValidCivil(c.value) then Some(InstantOf(c.value)) else None
  }

  function ParseFields(s: string): Option<Civil> {
    match TakeNumber(s, 4, '-') case None => None case Some((year, s1)) =>
    match TakeNumber(s1, 2, '-') case None => None case Some((month, s2)) =>
    match TakeNumber(s2, 2, 'T') case None => None case Some((day, s3)) =>
    match TakeNumber(s3, 2, ':') case None => None case Some((hour, s4)) =>
    match TakeNumber(s4, 2, ':') case None => None case Some((minute, s5)) =>
    if |s5| < 2 || !AllDigits(s5[..2]) then None
    else
      match ParseFraction(s5[2..]) case None => None case Some(nano) =>
      Some(Civil(year, month, day, hour, minute, Number(s5[..2]), nano))
  }

  /** w digits and then the separator. */
  function TakeNumber(s: string, w: nat, separator: char): Option<(nat, string)> {
    if |s| > w && AllDigits(s[..w]) && s[w] == separator then Some((Number(s[..w]), s[w + 1..])) else None
  }

  /** An optional fraction, cut at nine digits, and the zone. */
  function ParseFraction(s: string): Option<nat> {
    if s == "Z" then Some(0)
    else if |s| >= 3 && s[0] == '.' && AllDigits(s[1..|s| - 1]) && s[|s| - 1] == 'Z' then
      var digits := s[1..|s| - 1];
      Some(Nanos(if |digits| > 9 then digits[..9] else digits))
    else None
  }

  function Nanos(digits: string): nat
    requires AllDigits(digits) && |digits| <= 9
    decreases 9 - |digits|
  {
    if |digits| == 9 then Number(digits) else Nanos(digits + "0")
  }

  lemma {:induction false} TrimKeepsNanos(s: string)
    requires AllDigits(s) && |s| <= 9
    ensures AllDigits(Trim(s)) && |Trim(s)| <= |s| && Nanos(Trim(s)) == Nanos(s)
    ensures Number(s) > 0 ==> Trim(s) != ""
    decreases |s|
  {
    if s != "" && s[|s| - 1] == '0' {
      assert s[..|s| - 1] + "0" == s;
      TrimKeepsNanos(s[..|s| - 1]);
    }
  }

  lemma FractionRoundTrip(nano: nat)
    requires nano < Billion
    ensures ParseFraction(Fraction(nano) + "Z") == Some(nano)
  {
    if nano != 0 {
      var digits := Fixed(nano, 9);
      FixedNumber(nano, 9);
      TrimKeepsNanos(digits);
      var s := Fraction(nano) + "Z";
      assert s[1..|s| - 1] == Trim(digits);
    }
  }

  lemma TakeNumberOf(n: nat, w: nat, separator: char, rest: string)
    requires n < Pow10(w)
    ensures TakeNumber(Fixed(n, w) + ([separator] + rest), w, separator) == Some((n, rest))
  {
    FixedNumber(n, w);
    var s := Fixed(n, w) + ([separator] + rest);
    assert s[..w] == Fixed(n, w) && s[w + 1..] == rest;
  }

  lemma TwoDigits()
    ensures Pow10(2) == 100 && Pow10(4) == 10000 && Pow10(9) == Billion
  {
    assert Pow10(5) == 100000;
    assert Pow10(7) == 10000000;
  }

  /** Every instant up to the end of year 9999 survives its text, to the nanosecond; later
      ones do not, because their five-digit year is not RFC 3339. */
  lemma FormatRoundTrip(t: Instant)
    ensures Parse(Format(t)) == Some(t) <==> CivilOf(t).year <= 9999
    ensures CivilOf(t).year > 9999 ==> Parse(Format(t)) == None
  {
    if CivilOf(t).year <= 9999 {
      ParseReadsFields(t);
    } else {
      LongYearIsRefused(t);
    }
  }

  lemma LongYearIsRefused(t: Instant)
    requires CivilOf(t).year > 9999
    ensures Parse(Format(t)) == None
  {
    var y := CivilOf(t).year;
    PaddedIsLong(y);
    assert Format(t)[4] == Padded(y, 4)[4];
    assert IsDigit(Format(t)[4]);
    assert TakeNumber(Format(t), 4, '-') == None;
  }

  lemma ParseReadsFields(t: Instant)
    requires CivilOf(t).year <= 9999
    ensures ParseFields(Format(t)) == Some(CivilOf(t))
  {
    var c := CivilOf(t);
    TwoDigits();
    var tail := Fraction(c.nano) + "Z";
    var s5 := Fixed(c.second, 2) + tail;
    var s4 := Fixed(c.minute, 2) + (":" + s5);
    var s3 := Fixed(c.hour, 2) + (":" + s4);
    var s2 := Fixed(c.day, 2) + ("T" + s3);
    var s1 := Fixed(c.month, 2) + ("-" + s2);
    assert Format(t) == Fixed(c.year, 4) + ("-" + s1);
    TakeNumberOf(c.year, 4, '-', s1);
    TakeNumberOf(c.month, 2, '-', s2);
    assert c.day < 100;
    TakeNumberOf(c.day, 2, 'T', s3);
    TakeNumberOf(c.hour, 2, ':', s4);
    TakeNumberOf(c.minute, 2, ':', s5);
    FixedNumber(c.second, 2);
    assert s5[..2] == Fixed(c.second, 2) && s5[2..] == tail;
    FractionRoundTrip(c.nano);
  }
}
