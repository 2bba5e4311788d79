/** The weekly quiet-hours window of a line. */
module QuietHours {
  import opened Basics

  const DayMinutes: nat := 1440
  const WeekMinutes: nat := 10080

  /** Times are "HH:MM" strings; days[0] is Sunday. */
  datatype Quiet = Quiet(enabled: bool, start: string, end: string, days: seq<bool>)

  /** Hours 00-23 and minutes 00-59. */
  predicate ValidTime(s: string) {
    && |s| == 5 && s[2] == ':'
    && IsDigit(s[1]) && IsDigit(s[4])
    && ((('0' <= s[0] <= '1')) || (s[0] == '2' && s[1] <= '3'))
    && '0' <= s[3] <= '5'
  }

  function MinutesOfDay(s: string): (m: nat)
    requires ValidTime(s)
    ensures m < DayMinutes
  {
    ((s[0] as int - '0' as int) * 10 + (s[1] as int - '0' as int)) * 60
    + (s[3] as int - '0' as int) * 10 + (s[4] as int - '0' as int)
  }

  predicate SevenDays(q: Quiet) {
    |q.days| == 7
  }

  /** ActiveAt at a weekday and a minute of it. */
  predicate ActiveAt(q: Quiet, today: nat, nowMin: nat)
    requires SevenDays(q) && today < 7 && nowMin < DayMinutes
  {
    if !q.enabled || true !in q.days then false
    else if !ValidTime(q.start) || !ValidTime(q.end) then false
    else
      var start, end := MinutesOfDay(q.start), MinutesOfDay(q.end);
      if start == end then false
      else if start < end then q.days[today] && nowMin >= start && nowMin < end
      else if nowMin >= start then q.days[today]
      else if nowMin < end then q.days[(today + 6) % 7]
      else false
  }

  // ---- the weekly specification ----

  predicate Configured(q: Quiet) {
    q.enabled && ValidTime(q.start) && ValidTime(q.end)
  }

  /** How long one window lasts. */
  function Length(q: Quiet): (n: nat)
    requires Configured(q)
    ensures n < DayMinutes
  {
    (MinutesOfDay(q.end) - MinutesOfDay(q.start)) % DayMinutes
  }

  /** The window a day opens, as minutes of a circular week, covers minute w. */
  predicate Covers(q: Quiet, day: nat, w: nat)
    requires Configured(q)
  {
    (w - (day * DayMinutes + MinutesOfDay(q.start))) % WeekMinutes < Length(q)
  }

  predicate SomeWindowCovers(q: Quiet, w: nat)
    requires SevenDays(q)
  {
    Configured(q) && exists day | 0 <= day < 7 :: q.days[day] && Covers(q, day, w)
  }

  /** Which days' windows can cover a minute: the day itself or the one before. */
  lemma CoversIff(q: Quiet, day: nat, today: nat, nowMin: nat)
    requires Configured(q) && day < 7 && today < 7 && nowMin < DayMinutes
    ensures Covers(q, day, today * DayMinutes + nowMin) <==>
      var start, end := MinutesOfDay(q.start), MinutesOfDay(q.end);
      if start <= end then day == today && start <= nowMin < end
      else (day == today && nowMin >= start) || (day == (today + 6) % 7 && nowMin < end)
  {
    Circular(MinutesOfDay(q.start), MinutesOfDay(q.end), day, today, nowMin);
  }

  lemma Circular(start: int, end: int, day: int, today: int, nowMin: int)
    requires 0 <= start < DayMinutes && 0 <= end < DayMinutes && 0 <= nowMin < DayMinutes
    requires 0 <= day < 7 && 0 <= today < 7
    ensures (today * DayMinutes + nowMin - (day * DayMinutes + start)) % WeekMinutes < (end - start) % DayMinutes <==>
      if start <= end then day == today && start <= nowMin < end
      else (day == today && nowMin >= start) || (day == (today + 6) % 7 && nowMin < end)
  {
    var ahead := today * DayMinutes + nowMin - (day * DayMinutes + start);
    var length := if start <= end then end - start else end - start + DayMinutes;
    Modulo(end - start, DayMinutes);
    Modulo(ahead, WeekMinutes);
    YesterdayIs(today);
    var d := today - day;
    assert ahead == d * DayMinutes + nowMin - start;
    if d == 0 || d == 1 || d == -6 {
    } else if d >= 2 {
      assert ahead > DayMinutes;
    } else {
      assert ahead + WeekMinutes > DayMinutes;
    }
  }

  lemma Modulo(n: int, m: int)
    requires -m <= n < m
    ensures n % m == if n < 0 then n + m else n
  {
  }

  lemma YesterdayIs(today: int)
    requires 0 <= today < 7
    ensures (today + 6) % 7 == if today == 0 then 6 else today - 1
  {
  }

  /** ActiveAt is the weekly specification: some selected day's window covers the minute. */
  lemma ActiveAtIsWeekly(q: Quiet, today: nat, nowMin: nat)
    requires SevenDays(q) && today < 7 && nowMin < DayMinutes
    ensures ActiveAt(q, today, nowMin) <==> SomeWindowCovers(q, today * DayMinutes + nowMin)
  {
    if Configured(q) {
      var w := today * DayMinutes + nowMin;
      forall day: nat | day < 7
        ensures Covers(q, day, w) <==>
          var start, end := MinutesOfDay(q.start), MinutesOfDay(q.end);
          if start <= end then day == today && start <= nowMin < end
          else (day == today && nowMin >= start) || (day == (today + 6) % 7 && nowMin < end)
      {
        CoversIff(q, day, today, nowMin);
      }
      if ActiveAt(q, today, nowMin) {
        var day := if nowMin >= MinutesOfDay(q.start) then today else (today + 6) % 7;
        assert q.days[day] && Covers(q, day, w);
      }
    }
  }

  // ---- how long it is quiet in a week ----

  function ActiveFrom(q: Quiet, day: nat, from: nat): nat
    requires SevenDays(q) && day < 7 && from <= DayMinutes
    decreases DayMinutes - from
  {
    if from == DayMinutes then 0
    else (if ActiveAt(q, day, from) then 1 else 0) + ActiveFrom(q, day, from + 1)
  }

  /** The active minutes of a day. */
  function ActiveOn(q: Quiet, day: nat): nat
    requires SevenDays(q) && day < 7
  {
    ActiveFrom(q, day, 0)
  }

  function ActiveInDays(q: Quiet, days: nat): nat
    requires SevenDays(q) && days <= 7
  {
    if days == 0 then 0 else ActiveInDays(q, days - 1) + ActiveOn(q, days - 1)
  }

  function Count(bs: seq<bool>, n: nat): nat
    requires n <= |bs|
  {
    if n == 0 then 0 else Count(bs, n - 1) + if bs[n - 1] then 1 else 0
  }

  /** How many weekdays are selected. */
  function Selected(q: Quiet): nat
    requires SevenDays(q)
  {
    Count(q.days, |q.days|)
  }

  function Overlap(from: nat, lo: nat, hi: nat): nat
    requires lo <= hi
  {
    if from >= hi then 0 else if from <= lo then hi - lo else hi - from
  }

  /** The active minutes of one day from a minute on: its own window's, and what is carried
      over from the day before. */
  lemma {:induction false} ActiveFromIs(q: Quiet, day: nat, from: nat)
    requires SevenDays(q) && Configured(q) && day < 7 && from <= DayMinutes
    ensures var start, end := MinutesOfDay(q.start), MinutesOfDay(q.end);
      ActiveFrom(q, day, from) ==
        if start <= end then if q.days[day] then Overlap(from, start, end) else 0
        else (if q.days[day] then Overlap(from, start, DayMinutes) else 0)
             + (if q.days[(day + 6) % 7] then Overlap(from, 0, end) else 0)
    decreases DayMinutes - from
  {
    if from < DayMinutes {
      ActiveFromIs(q, day, from + 1);
      assert q.days[day] || q.days[(day + 6) % 7] ==> true in q.days;
    }
  }

  /** For each day, whether the window of the day before is selected. */
  function Carried(q: Quiet): (c: seq<bool>)
    requires SevenDays(q)
    ensures |c| == 7
  {
    [q.days[6]] + q.days[..6]
  }

  lemma CarriedAt(q: Quiet, day: nat)
    requires SevenDays(q) && day < 7
    ensures Carried(q)[day] == q.days[(day + 6) % 7]
  {
    YesterdayIs(day);
  }

  /** n times x, as a sum. */
  function Times(n: nat, x: nat): nat {
    if n == 0 then 0 else Times(n - 1, x) + x
  }

  lemma {:induction false} TimesIs(n: nat, x: nat)
    ensures Times(n, x) == n * x
  {
    if n > 0 {
      TimesIs(n - 1, x);
      Distribute(x, n - 1, 1);
    }
  }

  lemma {:induction false} TimesAdds(n: nat, x: nat, y: nat)
    ensures Times(n, x) + Times(n, y) == Times(n, x + y)
  {
    if n > 0 { TimesAdds(n - 1, x, y); }
  }

  function Sum(ns: seq<nat>, n: nat): nat
    requires n <= |ns|
  {
    if n == 0 then 0 else Sum(ns, n - 1) + ns[n - 1]
  }

  /** Minutes per day that are `own` on some days and `over` on some add up to a product. */
  lemma {:induction false} DaysAddUp(per: seq<nat>, mine: seq<bool>, theirs: seq<bool>, n: nat, own: nat, over: nat)
    requires n <= |per| == |mine| == |theirs|
    requires forall d {:trigger per[d]} | 0 <= d < |per| :: per[d] == (if mine[d] then own else 0) + if theirs[d] then over else 0
    ensures Sum(per, n) == Times(Count(mine, n), own) + Times(Count(theirs, n), over)
  {
    if n > 0 { DaysAddUp(per, mine, theirs, n - 1, own, over); }
  }

  lemma {:induction false} DaysAreSummed(q: Quiet, per: seq<nat>, n: nat)
    requires SevenDays(q) && n <= |per| == 7 && forall d: nat | d < 7 :: per[d] == ActiveOn(q, d)
    ensures ActiveInDays(q, n) == Sum(per, n)
  {
    if n > 0 { DaysAreSummed(q, per, n - 1); }
  }

  /** Over a whole week as many are carried as selected: Saturday's goes to Sunday. */
  lemma {:induction false} CountOfShifted(bs: seq<bool>, last: bool, n: nat)
    requires n <= |bs|
    ensures Count([last] + bs, n + 1) == Count(bs, n) + if last then 1 else 0
  {
    if n > 0 { CountOfShifted(bs, last, n - 1); }
  }

  lemma CarriedIsSelected(q: Quiet)
    requires SevenDays(q)
    ensures Count(Carried(q), |q.days|) == Selected(q)
  {
    var n: nat := |q.days| - 1;
    CountOfShifted(q.days[..n], q.days[n], n);
    CountOfPrefix(q.days, n, n);
  }

  lemma {:induction false} CountOfPrefix(bs: seq<bool>, k: nat, n: nat)
    requires n <= k <= |bs|
    ensures Count(bs[..k], n) == Count(bs, n)
  {
    if n > 0 { CountOfPrefix(bs, k, n - 1); }
  }

  lemma Distribute(n: int, x: int, y: int)
    ensures n * x + n * y == n * (x + y)
  {
  }

  /** A valid enabled window is quiet for exactly (selected days) times its length per week. */
  lemma WeekIsDaysTimesLength(q: Quiet)
    requires SevenDays(q) && Configured(q)
    ensures ActiveInDays(q, 7) == Selected(q) * Length(q)
  {
    var start: int, end: int := MinutesOfDay(q.start), MinutesOfDay(q.end);
    WeekOf(q, |q.days|, start, end);
    Modulo(end - start, DayMinutes);
    TimesIs(Selected(q), Length(q));
  }

  lemma WeekOf(q: Quiet, n: nat, start: int, end: int)
    requires SevenDays(q) && n == |q.days| && Configured(q) && start == MinutesOfDay(q.start) && end == MinutesOfDay(q.end)
    ensures ActiveInDays(q, n) == Times(Selected(q), if start <= end then end - start else end - start + DayMinutes)
  {
    var own, over := if start <= end then end - start else DayMinutes - start, if start <= end then 0 else end;
    var per := EachDay(q, start, end, own, over);
    DaysAreSummed(q, per, n);
    EachSelectedDay(q, per, n, own, over);
  }

  lemma EachSelectedDay(q: Quiet, per: seq<nat>, n: nat, own: nat, over: nat)
    requires SevenDays(q) && |per| == 7 && n == |q.days|
    requires forall d {:trigger per[d]} | 0 <= d < 7 :: per[d] == (if q.days[d] then own else 0) + if Carried(q)[d] then over else 0
    ensures Sum(per, n) == Times(Selected(q), own + over)
  {
    DaysAddUp(per, q.days, Carried(q), n, own, over);
    CarriedIsSelected(q);
    TimesAdds(Selected(q), own, over);
  }

  /** The active minutes of each day: its own window's, and what is carried over. */
  lemma EachDay(q: Quiet, start: int, end: int, own: nat, over: nat) returns (per: seq<nat>)
    requires SevenDays(q) && Configured(q) && start == MinutesOfDay(q.start) && end == MinutesOfDay(q.end)
    requires own == (if start <= end then end - start else DayMinutes - start) && over == if start <= end then 0 else end
    ensures |per| == 7 && forall d: nat | d < 7 :: per[d] == ActiveOn(q, d)
    ensures forall d {:trigger per[d]} | 0 <= d < 7 :: per[d] == (if q.days[d] then own else 0) + if Carried(q)[d] then over else 0
  {
    per := seq(7, d requires 0 <= d < 7 => ActiveOn(q, d));
    forall d | 0 <= d < 7 ensures per[d] == (if q.days[d] then own else 0) + if Carried(q)[d] then over else 0 {
      CarriedAt(q, d);
      ActiveFromIs(q, d, 0);
    }
  }

  // ---- storing ----

  const AllDays: seq<bool> := [true, true, true, true, true, true, true]

  function Normalize(q: Quiet): Quiet {
    if !q.enabled then
      Quiet(false, if ValidTime(q.start) then q.start else "", if ValidTime(q.end) then q.end else "", q.days)
    else if !ValidTime(q.start) || !ValidTime(q.end) || MinutesOfDay(q.start) == MinutesOfDay(q.end) then
      Quiet(false, "", "", q.days)
    else if true !in q.days then q.(days := AllDays)
    else q
  }

  /** Normalize is idempotent; an enabled result has a window and a day; and it changes what
      is silenced in one case only, an otherwise valid window without a day. */
  lemma NormalizeIsSafe(q: Quiet, today: nat, nowMin: nat)
    requires SevenDays(q) && today < 7 && nowMin < DayMinutes
    ensures SevenDays(Normalize(q)) && Normalize(Normalize(q)) == Normalize(q)
    ensures Normalize(q).enabled ==> Configured(Normalize(q)) && Length(Normalize(q)) > 0 && true in Normalize(q).days
    ensures true in q.days || !Normalize(q).enabled ==>
      (ActiveAt(Normalize(q), today, nowMin) <==> ActiveAt(q, today, nowMin))
  {
    NormalizeTwice(q);
  }

  lemma NormalizeTwice(q: Quiet)
    requires SevenDays(q)
    ensures SevenDays(Normalize(q)) && Normalize(Normalize(q)) == Normalize(q)
    ensures Normalize(q).enabled ==> Configured(Normalize(q)) && Length(Normalize(q)) > 0 && true in Normalize(q).days
  {
    assert AllDays[0] in AllDays;
    if Normalize(q).enabled {
      Modulo(MinutesOfDay(q.end) - MinutesOfDay(q.start), DayMinutes);
    }
  }

  function Merge(q: Quiet, patch: Quiet): Quiet {
    Quiet(patch.enabled, if patch.start != "" then patch.start else q.start, if patch.end != "" then patch.end else q.end, patch.days)
  }

  /** Patches compose: applying two in turn is applying the second patched onto the first. */
  lemma MergeIsAssociative(q: Quiet, a: Quiet, b: Quiet)
    ensures Merge(Merge(q, a), b) == Merge(q, Merge(a, b))
    ensures Merge(q, a).start == "" <==> q.start == "" && a.start == ""
  {
  }
}
