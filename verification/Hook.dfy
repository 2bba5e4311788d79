/** The firmware's hook switch: polled debounce, hook-flash window, and overrides. */
module Hook {

  const DebounceMs: int := 50
  const FlashMinMs: int := 100
  const FlashMaxMs: int := 600

  datatype HookEvent = NoEvent | Off | On | Flash

  /** Times are microseconds since boot. */
  datatype State = State(
    offHook: bool, rawLast: bool, stableSince: int,
    flashPending: bool, flashStart: int,
    event: HookEvent,
    forced: bool, forcedState: bool, inverted: bool, flashEnabled: bool)

  function Raw(h: State, pin: bool): bool {
    if h.inverted then !pin else pin
  }

  function Ms(since: int, now: int): int {
    (now - since) / 1000
  }

  /** The debounced reading has changed for long enough. */
  predicate Commits(h: State, pin: bool, now: int) {
    !h.forced && Raw(h, pin) == h.rawLast && Raw(h, pin) != h.offHook && Ms(h.stableSince, now) >= DebounceMs
  }

  function Committed(h: State, raw: bool, now: int): State {
    if !raw then
      if h.flashEnabled then h.(offHook := raw, flashPending := true, flashStart := now)
      else h.(offHook := raw, event := On)
    else if h.flashPending then
      var ms := Ms(h.flashStart, now);
      if FlashMinMs <= ms <= FlashMaxMs then h.(offHook := raw, flashPending := false, event := Flash)
      else h.(offHook := raw, flashPending := false)
    else h.(offHook := raw, event := Off)
  }

  function WindowTimeout(h: State, now: int): State {
    if h.flashPending && Ms(h.flashStart, now) > FlashMaxMs then h.(flashPending := false, event := On) else h
  }

  function Poll(h: State, pin: bool, now: int): State {
    if h.forced then h
    else if Raw(h, pin) != h.rawLast then h.(rawLast := Raw(h, pin), stableSince := now)
    else WindowTimeout(if Commits(h, pin, now) then Committed(h, Raw(h, pin), now) else h, now)
  }

  function IsOffHook(h: State): bool {
    if h.forced then h.forcedState else h.offHook
  }

  function Edge(before: bool, after: bool): HookEvent {
    if before == after then NoEvent else if after then Off else On
  }

  function Force(h: State, offHook: bool): State {
    h.(forced := true, forcedState := offHook, flashPending := false, event := Edge(IsOffHook(h), offHook))
  }

  function Release(h: State, pin: bool, now: int): State {
    var physical := Raw(h, pin);
    h.(forced := false, flashPending := false, rawLast := physical, offHook := physical, stableSince := now,
       event := Edge(IsOffHook(h), physical))
  }

  function SetInverted(h: State, inverted: bool, pin: bool, now: int): State {
    if inverted == h.inverted then h
    else
      var h' := h.(inverted := inverted);
      h'.(rawLast := Raw(h', pin), offHook := Raw(h', pin), stableSince := now, flashPending := false, event := NoEvent)
  }

  function SetFlashEnabled(h: State, enabled: bool): State {
    if enabled == h.flashEnabled then h
    else if !enabled && h.flashPending then h.(flashEnabled := enabled, flashPending := false, event := On)
    else h.(flashEnabled := enabled)
  }

  datatype Op =
    | PollAt(pin: bool, now: int)
    | ForceTo(offHook: bool)
    | ReleaseAt(pin: bool, now: int)
    | InvertTo(inverted: bool, pin: bool, now: int)
    | FlashTo(enabled: bool)
    | TakeEvent

  function Step(h: State, op: Op): State {
    match op
    case PollAt(pin, now) => Poll(h, pin, now)
    case ForceTo(offHook) => Force(h, offHook)
    case ReleaseAt(pin, now) => Release(h, pin, now)
    case InvertTo(inverted, pin, now) => SetInverted(h, inverted, pin, now)
    case FlashTo(enabled) => SetFlashEnabled(h, enabled)
    case TakeEvent => h.(event := NoEvent)
  }

  /** The state after the first n operations. */
  function At(h: State, ops: seq<Op>, n: nat): State
    requires n <= |ops|
  {
    if n == 0 then h else Step(At(h, ops, n - 1), ops[n - 1])
  }

  /** What a step adds to the event slot. */
  function Emitted(h: State, op: Op): HookEvent {
    Step(h.(event := NoEvent), op).event
  }

  /** What a step emits is in the event slot after it, and nothing else newly is: it is what
      the next TakeEvent reads, unless an override discards it. */
  lemma EmittedIsTheChange(h: State, op: Op)
    ensures Step(h, op).event == Emitted(h, op) ||
      (Emitted(h, op) == NoEvent && (Step(h, op).event == h.event))
  {
    match op
    case PollAt(pin, now) => PollEmission(h, pin, now);
    case ForceTo(_) =>
    case ReleaseAt(_, _) =>
    case InvertTo(_, _, _) =>
    case FlashTo(_) =>
    case TakeEvent =>
  }

  function Kept(before: HookEvent, emitted: HookEvent): HookEvent {
    if emitted == NoEvent then before else emitted
  }

  lemma PollEmission(h: State, pin: bool, now: int)
    ensures Poll(h, pin, now).event == Kept(h.event, Poll(h.(event := NoEvent), pin, now).event)
  {
    if Commits(h, pin, now) {
      CommitEmission(h, Raw(h, pin), now);
    }
  }

  lemma CommitEmission(h: State, raw: bool, now: int)
    ensures var seen, clear := Committed(h, raw, now), Committed(h.(event := NoEvent), raw, now);
      && seen.event == Kept(h.event, clear.event)
      && seen.flashPending == clear.flashPending && seen.flashStart == clear.flashStart
  {
  }

  // ---- debouncing ----

  predicate HasTime(op: Op) {
    op.PollAt? || op.ReleaseAt? || op.InvertTo?
  }

  ghost predicate Timed(ops: seq<Op>) {
    forall i, j | 0 <= i < j < |ops| && HasTime(ops[i]) && HasTime(ops[j]) :: ops[i].now <= ops[j].now
  }

  /** Operation j is a poll that really read the pin. */
  predicate Samples(h: State, ops: seq<Op>, j: nat)
    requires j < |ops|
  {
    ops[j].PollAt? && !At(h, ops, j).forced
  }

  /** A step either restarts the stability timer, or leaves it and agrees with the last reading. */
  predicate RestartsOrAgrees(h: State, op: Op, h': State) {
    || (HasTime(op) && h'.stableSince == op.now)
    || (h'.stableSince == h.stableSince && h'.rawLast == h.rawLast
        && (op.PollAt? && !h.forced ==> Raw(h, op.pin) == h.rawLast))
  }

  lemma StepRestartsOrAgrees(h: State, op: Op)
    ensures RestartsOrAgrees(h, op, Step(h, op))
  {
  }

  lemma {:induction false} SteadySince(states: seq<State>, ops: seq<Op>, n: nat, j: nat)
    requires Timed(ops) && n <= |ops| && |states| == |ops| + 1
    requires forall k | 0 <= k < |ops| :: RestartsOrAgrees(states[k], ops[k], states[k + 1])
    requires j < n && ops[j].PollAt? && !states[j].forced && ops[j].now > states[n].stableSince
    ensures Raw(states[j], ops[j].pin) == states[n].rawLast
  {
    assert RestartsOrAgrees(states[n - 1], ops[n - 1], states[n]);
    if j < n - 1 {
      SteadySince(states, ops, n - 1, j);
    }
  }

  /** A poll moves the debounced hook only after a steady pin: every sample of the 50 ms before
      it read the same, whatever was forced, inverted or switched meanwhile. */
  lemma DebouncedMeansSteady(h: State, ops: seq<Op>, n: nat, j: nat)
    requires Timed(ops) && n < |ops| && ops[n].PollAt?
    requires At(h, ops, n + 1).offHook != At(h, ops, n).offHook
    requires j < n && Samples(h, ops, j) && ops[j].now > ops[n].now - DebounceMs * 1000
    ensures Raw(At(h, ops, j), ops[j].pin) == Raw(At(h, ops, n), ops[n].pin) == At(h, ops, n + 1).offHook
  {
    PollCommits(At(h, ops, n), ops[n].pin, ops[n].now);
    var states := seq(|ops| + 1, i requires 0 <= i <= |ops| => At(h, ops, i));
    forall k | 0 <= k < |ops| ensures RestartsOrAgrees(states[k], ops[k], states[k + 1]) {
      StepRestartsOrAgrees(At(h, ops, k), ops[k]);
    }
    SteadySince(states, ops, n, j);
  }

  lemma PollCommits(h: State, pin: bool, now: int)
    requires Poll(h, pin, now).offHook != h.offHook
    ensures Commits(h, pin, now) && Poll(h, pin, now).offHook == Raw(h, pin) == h.rawLast
    ensures now - h.stableSince >= DebounceMs * 1000
  {
  }

  /** Outside a flash window a poll reports exactly what it debounces: a pickup, a hang-up
      when flash is off, and nothing else. */
  lemma PlainPollReports(h: State, pin: bool, now: int)
    requires !h.flashPending
    ensures var h' := Poll(h, pin, now);
      var e := Emitted(h, PollAt(pin, now));
      && (e == Off <==> !h.offHook && h'.offHook)
      && (e == On <==> h.offHook && !h'.offHook && !h.flashEnabled)
      && e != Flash
      && (h'.flashPending <==> h.offHook && !h'.offHook && h.flashEnabled)
      && (h'.offHook != h.offHook <==> Commits(h, pin, now))
  {
  }

  /** Overrides and polarity changes end an open window, and report how the effective state
      moved; a change of polarity reports nothing. */
  lemma OverridesReportEdges(h: State, op: Op)
    requires op.ForceTo? || op.ReleaseAt? || op.InvertTo?
    ensures var h' := Step(h, op);
      && (op.InvertTo? && op.inverted == h.inverted ==> h' == h)
      && (op.InvertTo? && op.inverted != h.inverted ==> h'.event == NoEvent && h'.offHook == Raw(h', op.pin) && !h'.flashPending)
      && (!op.InvertTo? ==>
            && !h'.flashPending
            && (h'.event == Off <==> !IsOffHook(h) && IsOffHook(h'))
            && (h'.event == On <==> IsOffHook(h) && !IsOffHook(h')))
  {
  }

  // ---- flashes ----

  /** A window is open only while the debounced hook is down, unforced and flash-enabled. */
  ghost predicate WindowOk(h: State) {
    h.flashPending ==> !h.offHook && !h.forced && h.flashEnabled
  }

  /** Operation i is the poll that debounced the hook down with flash enabled. */
  ghost predicate Opens(h: State, ops: seq<Op>, i: nat) {
    && i < |ops| && ops[i].PollAt?
    && At(h, ops, i).offHook && At(h, ops, i).flashEnabled && !At(h, ops, i).flashPending
    && Commits(At(h, ops, i), ops[i].pin, ops[i].now)
  }

  /** From operation i to before operation n the hook stayed down, with its window open. */
  ghost predicate Spell(h: State, ops: seq<Op>, i: nat, n: nat) {
    && i < n <= |ops| && Opens(h, ops, i)
    && forall j | i < j <= n ::
      At(h, ops, j).flashPending && !At(h, ops, j).offHook && !At(h, ops, j).forced
      && At(h, ops, j).flashEnabled && At(h, ops, j).flashStart == ops[i].now
  }

  lemma OneStepOfAWindow(h: State, op: Op)
    requires WindowOk(h)
    ensures WindowOk(Step(h, op))
    ensures Step(h, op).flashPending && h.flashPending ==> Step(h, op).flashStart == h.flashStart
    ensures Step(h, op).flashPending && !h.flashPending ==>
      op.PollAt? && h.offHook && h.flashEnabled && Commits(h, op.pin, op.now) && Step(h, op).flashStart == op.now
  {
  }

  lemma {:induction false} WindowIsASpell(h: State, ops: seq<Op>, n: nat)
    requires !h.flashPending && n <= |ops|
    ensures WindowOk(At(h, ops, n))
    ensures At(h, ops, n).flashPending ==> exists i: nat :: Spell(h, ops, i, n)
  {
    if n > 0 {
      WindowIsASpell(h, ops, n - 1);
      var before := At(h, ops, n - 1);
      OneStepOfAWindow(before, ops[n - 1]);
      if At(h, ops, n).flashPending {
        if before.flashPending {
          var i: nat :| Spell(h, ops, i, n - 1);
          assert Spell(h, ops, i, n);
        } else {
          assert Spell(h, ops, n - 1, n);
        }
      }
    }
  }

  lemma OneStepOfAFlash(h: State, op: Op)
    requires Emitted(h, op) == Flash
    ensures op.PollAt? && Commits(h, op.pin, op.now)
    ensures h.flashPending && FlashMinMs <= Ms(h.flashStart, op.now) <= FlashMaxMs
  {
  }

  /** Whatever is polled, forced, inverted or switched: a FLASH is emitted only at a poll that
      debounces the hook up again, 100 to 600 ms after one debounced it down with flash
      enabled, and in between the hook stayed down and flash enabled. */
  lemma FlashIsASpell(h: State, ops: seq<Op>, n: nat)
    requires !h.flashPending && n < |ops| && Emitted(At(h, ops, n), ops[n]) == Flash
    ensures ops[n].PollAt? && Commits(At(h, ops, n), ops[n].pin, ops[n].now)
    ensures exists i: nat :: Spell(h, ops, i, n) && FlashMinMs <= Ms(ops[i].now, ops[n].now) <= FlashMaxMs
  {
    WindowIsASpell(h, ops, n);
    OneStepOfAFlash(At(h, ops, n), ops[n]);
    var i: nat :| Spell(h, ops, i, n);
    assert At(h, ops, n).flashStart == ops[i].now;
  }

  /** What a poll makes of an open window, exactly. A hook that is up again at the first poll
      past 600 ms is neither a flash nor a hang-up. */
  lemma WindowOutcome(h: State, pin: bool, now: int)
    requires h.flashPending && WindowOk(h)
    ensures var ms := Ms(h.flashStart, now);
      var h' := Poll(h, pin, now);
      var e := Emitted(h, PollAt(pin, now));
      if Commits(h, pin, now) then
        h'.offHook && !h'.flashPending && e == if FlashMinMs <= ms <= FlashMaxMs then Flash else NoEvent
      else if Raw(h, pin) == h.rawLast && ms > FlashMaxMs then
        !h'.offHook && !h'.flashPending && e == On
      else
        !h'.offHook && h'.flashPending && e == NoEvent
  {
  }

  // ---- a window from opening to closing ----

  /** Polls through which a window stays open. */
  function Polls(h: State, polls: seq<(bool, int)>): State
    decreases |polls|
  {
    if polls == [] then h else Polls(Poll(h, polls[0].0, polls[0].1), polls[1..])
  }

  function Events(h: State, polls: seq<(bool, int)>): seq<HookEvent>
    decreases |polls|
  {
    if polls == [] then []
    else
      var e := Emitted(h, PollAt(polls[0].0, polls[0].1));
      (if e == NoEvent then [] else [e]) + Events(Poll(h, polls[0].0, polls[0].1), polls[1..])
  }

  /** The hook is debounced up again at the last of the polls and was not before; no poll
      before it saw the window past its end while the pin was steady. */
  ghost predicate ReleasedAtLast(h: State, polls: seq<(bool, int)>)
    decreases |polls|
  {
    && polls != []
    && if |polls| == 1 then Commits(h, polls[0].0, polls[0].1)
       else
         && !Commits(h, polls[0].0, polls[0].1)
         && !(Raw(h, polls[0].0) == h.rawLast && Ms(h.flashStart, polls[0].1) > FlashMaxMs)
         && ReleasedAtLast(Poll(h, polls[0].0, polls[0].1), polls[1..])
  }

  /** A spell that ends this way emits one FLASH if it lasted 100 to 600 ms and nothing at all
      otherwise: the documented hang-up past 600 ms needs an earlier poll to see it. */
  lemma {:induction false} SpellEvents(h: State, polls: seq<(bool, int)>)
    requires h.flashPending && WindowOk(h) && ReleasedAtLast(h, polls)
    ensures var ms := Ms(h.flashStart, polls[|polls| - 1].1);
      Events(h, polls) == if FlashMinMs <= ms <= FlashMaxMs then [Flash] else []
    ensures Polls(h, polls).offHook && !Polls(h, polls).flashPending
    decreases |polls|
  {
    var (pin, now) := (polls[0].0, polls[0].1);
    WindowOutcome(h, pin, now);
    if |polls| > 1 {
      SpellEvents(Poll(h, pin, now), polls[1..]);
      assert polls[1..][|polls| - 2] == polls[|polls| - 1];
    } else {
      assert Events(Poll(h, pin, now), polls[1..]) == [];
    }
  }

  /** n polls of a steady pin, 10 ms apart. */
  function Steady(pin: bool, from: int, n: nat): seq<(bool, int)>
    decreases n
  {
    if n == 0 then [] else [(pin, from)] + Steady(pin, from + 10_000, n - 1)
  }

  /** While the pin reads as before, too briefly to debounce, and no window times out, steady
      polls change nothing. */
  lemma {:induction false} SteadyChangesNothing(h: State, pin: bool, from: int, n: nat)
    requires !h.forced && Raw(h, pin) == h.rawLast
    requires n > 0 ==> Raw(h, pin) == h.offHook || Ms(h.stableSince, from + 10_000 * (n - 1)) < DebounceMs
    requires n > 0 && h.flashPending ==> Ms(h.flashStart, from + 10_000 * (n - 1)) <= FlashMaxMs
    ensures Polls(h, Steady(pin, from, n)) == h && Events(h, Steady(pin, from, n)) == []
    decreases n
  {
    if n > 0 {
      assert Poll(h, pin, from) == h;
      SteadyChangesNothing(h, pin, from + 10_000, n - 1);
      assert Steady(pin, from, n)[1..] == Steady(pin, from + 10_000, n - 1);
    }
  }

  lemma {:induction false} PollsInTwo(h: State, a: seq<(bool, int)>, b: seq<(bool, int)>)
    ensures Polls(h, a + b) == Polls(Polls(h, a), b)
    decreases |a|
  {
    if a == [] {
      assert a + b == b;
    } else {
      assert (a + b)[1..] == a[1..] + b;
      PollsInTwo(Poll(h, a[0].0, a[0].1), a[1..], b);
    }
  }

  lemma {:induction false} EventsInTwo(h: State, a: seq<(bool, int)>, b: seq<(bool, int)>)
    ensures Events(h, a + b) == Events(h, a) + Events(Polls(h, a), b)
    decreases |a|
  {
    if a == [] {
      assert a + b == b;
    } else {
      assert (a + b)[1..] == a[1..] + b;
      EventsInTwo(Poll(h, a[0].0, a[0].1), a[1..], b);
    }
  }

  lemma InTwo(h: State, a: seq<(bool, int)>, b: seq<(bool, int)>)
    ensures Polls(h, a + b) == Polls(Polls(h, a), b) && Events(h, a + b) == Events(h, a) + Events(Polls(h, a), b)
  {
    PollsInTwo(h, a, b);
    EventsInTwo(h, a, b);
  }

  lemma OnePoll(h: State, pin: bool, now: int)
    ensures Polls(h, [(pin, now)]) == Poll(h, pin, now)
    ensures Emitted(h, PollAt(pin, now)) == NoEvent ==> Events(h, [(pin, now)]) == []
  {
    assert [(pin, now)][1..] == [];
  }

  /** A switch that came up lifted, with flash enabled since. */
  const InUse: State := SetFlashEnabled(State(true, true, 0, false, 0, NoEvent, false, false, false, false), true)

  const Down: seq<(bool, int)> := [(false, 10_000)] + (Steady(false, 20_000, 4) + ([(false, 60_000)] + Steady(false, 70_000, 55)))

  const UpAgain: seq<(bool, int)> := [(true, 620_000)] + (Steady(true, 630_000, 4) + [(true, 670_000)])

  /** Down at 10 ms, debounced at 60: the window is open until the last poll before the lift. */
  lemma DownOpensAWindow()
    ensures Polls(InUse, Down) == InUse.(offHook := false, rawLast := false, stableSince := 10_000, flashPending := true, flashStart := 60_000)
    ensures Events(InUse, Down) == []
  {
    var h1 := Poll(InUse, false, 10_000);
    var h2 := Poll(h1, false, 60_000);
    OnePoll(InUse, false, 10_000);
    SteadyChangesNothing(h1, false, 20_000, 4);
    OnePoll(h1, false, 60_000);
    SteadyChangesNothing(h2, false, 70_000, 55);
    InTwo(h1, Steady(false, 20_000, 4), [(false, 60_000)] + Steady(false, 70_000, 55));
    InTwo(h1, [(false, 60_000)], Steady(false, 70_000, 55));
    InTwo(InUse, [(false, 10_000)], Steady(false, 20_000, 4) + ([(false, 60_000)] + Steady(false, 70_000, 55)));
  }

  /** A spell exists that is lost, with the main loop's 10 ms polls from a lifted, flash-enabled
      handset: down from 10 to 620 ms, debounced from 60 to 670, so 610 ms on-hook, and neither
      a flash nor a hang-up. */
  lemma LateReleaseIsLost()
    ensures Polls(InUse, Down).flashPending && Ms(Polls(InUse, Down).flashStart, 670_000) == 610
    ensures Events(InUse, Down + UpAgain) == []
    ensures Polls(InUse, Down + UpAgain).offHook && !Polls(InUse, Down + UpAgain).flashPending
  {
    DownOpensAWindow();
    var h := Polls(InUse, Down);
    var h1 := Poll(h, true, 620_000);
    OnePoll(h, true, 620_000);
    SteadyChangesNothing(h1, true, 630_000, 4);
    OnePoll(h1, true, 670_000);
    InTwo(h1, Steady(true, 630_000, 4), [(true, 670_000)]);
    InTwo(h, [(true, 620_000)], Steady(true, 630_000, 4) + [(true, 670_000)]);
    InTwo(InUse, Down, UpAgain);
  }

  // ---- the driver ----

  class Switch {
    var offHook: bool
    var rawLast: bool
    var stableSince: int
    var flashPending: bool
    var flashStart: int
    var event: HookEvent
    var forced: bool
    var forcedState: bool
    var inverted: bool
    var flashEnabled: bool

    constructor (pin: bool, now: int)
      ensures Value() == State(pin, pin, now, false, 0, NoEvent, false, false, false, false)
    {
      rawLast, offHook, stableSince, flashPending, event := pin, pin, now, false, NoEvent;
      forced, forcedState, inverted, flashEnabled, flashStart := false, false, false, false, 0;
    }

    ghost function Value(): State
      reads this
    {
      State(offHook, rawLast, stableSince, flashPending, flashStart, event, forced, forcedState, inverted, flashEnabled)
    }

    method PollPin(pin: bool, now: int)
      modifies this
      ensures Value() == Poll(old(Value()), pin, now)
    {
      if forced {
        return;
      }
      var raw := if inverted then !pin else pin;
      if raw != rawLast {
        rawLast := raw;
        stableSince := now;
        return;
      }
      if raw != offHook && (now - stableSince) / 1000 >= DebounceMs {
        Commit(raw, now);
      }
      if flashPending {
        var onMs := (now - flashStart) / 1000;
        if onMs > FlashMaxMs {
          flashPending := false;
          event := On;
        }
      }
    }

    method Commit(raw: bool, now: int)
      modifies this
      ensures Value() == Committed(old(Value()), raw, now)
    {
      offHook := raw;
      if !raw {
        if flashEnabled {
          flashPending := true;
          flashStart := now;
        } else {
          event := On;
        }
      } else if flashPending {
        var onMs := (now - flashStart) / 1000;
        flashPending := false;
        if onMs >= FlashMinMs && onMs <= FlashMaxMs {
          event := Flash;
        }
      } else {
        event := Off;
      }
    }

    method GetEvent() returns (e: HookEvent)
      modifies this`event
      ensures e == old(event) && event == NoEvent
    {
      e := event;
      event := NoEvent;
    }

    method ForceOffHook(off: bool)
      modifies this
      ensures Value() == Force(old(Value()), off)
    {
      var before := if forced then forcedState else offHook;
      forced := true;
      forcedState := off;
      flashPending := false;
      event := NoEvent;
      if off != before {
        event := if off then Off else On;
      }
    }

    method ClearForce(pin: bool, now: int)
      modifies this
      ensures Value() == Release(old(Value()), pin, now)
    {
      var before := if forced then forcedState else offHook;
      var physical := if inverted then !pin else pin;
      forced := false;
      flashPending := false;
      rawLast := physical;
      offHook := physical;
      stableSince := now;
      event := NoEvent;
      if physical != before {
        event := if physical then Off else On;
      }
    }

    method Invert(to: bool, pin: bool, now: int)
      modifies this
      ensures Value() == SetInverted(old(Value()), to, pin, now)
    {
      if to == inverted {
        return;
      }
      inverted := to;
      var physical := if inverted then !pin else pin;
      rawLast := physical;
      offHook := physical;
      stableSince := now;
      flashPending := false;
      event := NoEvent;
    }

    method EnableFlash(enabled: bool)
      modifies this
      ensures Value() == SetFlashEnabled(old(Value()), enabled)
    {
      if enabled == flashEnabled {
        return;
      }
      flashEnabled := enabled;
      if !enabled && flashPending {
        flashPending := false;
        event := On;
      }
    }
  }
}
