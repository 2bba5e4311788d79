/** The firmware's phone state machine over the hook switch: one update per main-loop turn. */
module PhoneFsm {
  import opened Basics
  import Hook

  datatype PhoneState = Idle | DialTone | Dialing | Ringing | Connected | Busy

  const DigitsRequired: nat := 7
  const DialTimeoutMs: int := 15000
  const DialToneTimeoutMs: int := 15000
  const Wrap: int := 0x1_0000_0000

  /** What the phone writes to the Pi; Reply stands for the answers to commands. */
  datatype Message = Key(key: char) | Dial(digits: string) | HookIs(event: Hook.HookEvent) | TimeoutDialTone | Reply(text: string)

  datatype Phone = Phone(
    hook: Hook.State, state: PhoneState,
    digits: string, dialSent: bool, dialingStart: int, dialToneStart: int,
    keytest: bool, sent: seq<Message>)

  /** The Pi's commands that act on the phone's state; the others only answer or set lights. */
  datatype Command =
    | RingStart | RingStop | CallConnected | Reset | DialReset
    | Keytest(on: bool) | ForceHook(offHook: bool) | ReleaseHook | InvertHook(inverted: bool) | EnableFlash(enabled: bool)
    | OtherCommand

  /** What the hardware reads during one update: the clock in microseconds, the hook pin. */
  datatype Input = Input(now: int, pin: bool, key: Option<char>)

  function NowMs(i: Input): int {
    i.now / 1000 % Wrap
  }

  /** Unsigned 32-bit subtraction. */
  function Elapsed(now: int, start: int): int {
    (now - start) % Wrap
  }

  function Send(p: Phone, msg: Message): Phone {
    p.(sent := p.sent + [msg])
  }

  function ClearDialing(p: Phone, now: int): Phone {
    p.(digits := "", dialSent := false, dialingStart := now)
  }

  /** set_state does nothing when the state stays; entering idle or dial tone drops the digits. */
  function SetState(p: Phone, next: PhoneState, now: int): Phone {
    var enters := p.state != next;
    var clears := enters && (next == Idle || next == DialTone);
    p.(state := next,
       digits := if clears then "" else p.digits,
       dialSent := p.dialSent && !clears,
       dialingStart := if clears || (enters && next == Dialing) then now else p.dialingStart,
       dialToneStart := if enters && next == DialTone then now else p.dialToneStart,
       sent := if enters && next == Ringing then p.sent + [Reply("RING:ACK")] else p.sent)
  }

  function Execute(p: Phone, c: Command, i: Input): Phone {
    match c
    case RingStart => SetState(p.(hook := p.hook.(event := Hook.NoEvent)), Ringing, NowMs(i))
    case RingStop => Send(if p.state == Ringing then SetState(p, Idle, NowMs(i)) else p, Reply("RING:DONE"))
    case CallConnected =>
      if p.state == Dialing || p.state == Ringing then Send(SetState(p, Connected, NowMs(i)), Reply("CALL:CONNECTED:ACK"))
      else Send(p, Reply("CALL:CONNECTED:IGNORED"))
    case Reset => Send(SetState(p.(keytest := false), Idle, NowMs(i)), Reply("RST:OK"))
    case DialReset => Send(ClearDialing(p, NowMs(i)), Reply("DIAL:RESET:OK"))
    case Keytest(on) =>
      if on then Send(SetState(p.(keytest := true), Idle, NowMs(i)), Reply("MODE:KEYTEST"))
      else Send(p.(keytest := false), Reply("MODE:NORMAL"))
    case ForceHook(off) => Send(p.(hook := Hook.Force(p.hook, off)), if off then Reply("HOOK:FORCED:OFF_HOOK") else Reply("HOOK:FORCED:ON_HOOK"))
    case ReleaseHook => Send(p.(hook := Hook.Release(p.hook, i.pin, i.now)), Reply("HOOK:RELEASED"))
    case InvertHook(inverted) => Send(p.(hook := Hook.SetInverted(p.hook, inverted, i.pin, i.now)), if inverted then Reply("HOOK:INVERT:ON") else Reply("HOOK:INVERT:OFF"))
    case EnableFlash(on) => Send(p.(hook := Hook.SetFlashEnabled(p.hook, on)), if on then Reply("HOOK:FLASH:ON") else Reply("HOOK:FLASH:OFF"))
    case OtherCommand => p
  }

  function ExecuteAll(p: Phone, cs: seq<Command>, i: Input): Phone
    decreases |cs|
  {
    if cs == [] then p else ExecuteAll(Execute(p, cs[0], i), cs[1..], i)
  }

  function TakeHookEvent(p: Phone, now: int): Phone {
    var e := p.hook.event;
    var q := p.(hook := p.hook.(event := Hook.NoEvent), sent := if e == Hook.NoEvent then p.sent else p.sent + [HookIs(e)]);
    if e == Hook.On then SetState(q, Idle, now) else q
  }

  /** The raw hook drives the state only while no flash window is open. */
  function FollowHook(p: Phone, now: int): Phone {
    if p.hook.flashPending then p
    else if !Hook.IsOffHook(p.hook) && p.state != Idle && p.state != Ringing then SetState(p, Idle, now)
    else if Hook.IsOffHook(p.hook) && p.state == Idle then SetState(p, DialTone, now)
    else p
  }

  function AnswerIfRinging(p: Phone, now: int): Phone {
    if p.state == Ringing && Hook.IsOffHook(p.hook) then SetState(p, Connected, now) else p
  }

  function DialToneTimeout(p: Phone, now: int): Phone {
    if p.state == DialTone && Elapsed(now, p.dialToneStart) >= DialToneTimeoutMs then
      SetState(Send(p, TimeoutDialTone), Busy, now)
    else p
  }

  function CollectDigit(p: Phone, key: char): Phone {
    var q := if IsDigit(key) && |p.digits| < DigitsRequired then p.(digits := p.digits + [key]) else p;
    if |q.digits| == DigitsRequired && !q.dialSent then Send(q, Dial(q.digits)).(dialSent := true) else q
  }

  function ProcessKey(p: Phone, key: Option<char>, now: int): Phone {
    if key.None? then p
    else
      var q := if p.state == DialTone then SetState(p, Dialing, now) else p;
      if q.state != Dialing && q.state != Connected then q
      else
        var r := Send(q, Key(key.value));
        if r.state == Dialing then CollectDigit(r, key.value) else r
  }

  function DialingTimeout(p: Phone, now: int): Phone {
    if p.state == Dialing && !p.dialSent && Elapsed(now, p.dialingStart) >= DialTimeoutMs then
      SetState(Send(p, TimeoutDialTone), Busy, now)
    else p
  }

  /** What the hook does to the phone, before the clock and the keypad. */
  function HookPart(p: Phone, now: int): Phone {
    AnswerIfRinging(FollowHook(TakeHookEvent(p, now), now), now)
  }

  function KeyPart(p: Phone, key: Option<char>, now: int): Phone {
    DialingTimeout(ProcessKey(DialToneTimeout(p, now), key, now), now)
  }

  function Normal(p: Phone, i: Input): Phone {
    KeyPart(HookPart(p, NowMs(i)), i.key, NowMs(i))
  }

  function Update(p: Phone, cs: seq<Command>, i: Input): Phone {
    var q := ExecuteAll(p, cs, i);
    if q.keytest then if i.key.Some? then Send(q, Key(i.key.value)) else q
    else Normal(q, i)
  }

  predicate IsUp(s: PhoneState) {
    s == DialTone || s == Dialing || s == Connected || s == Busy
  }

  lemma HookPartIs(p: Phone, now: int)
    ensures var q := HookPart(p, now);
      && q.hook == p.hook.(event := Hook.NoEvent) && q.keytest == p.keytest
      && (!p.hook.flashPending ==> (Hook.IsOffHook(p.hook) <==> IsUp(q.state)))
  {
  }

  /** Clock and keypad move the phone among the states of a lifted handset only. */
  lemma KeyPartIs(p: Phone, key: Option<char>, now: int)
    ensures var q := KeyPart(p, key, now);
      && q.hook == p.hook && q.keytest == p.keytest
      && (IsUp(q.state) <==> IsUp(p.state))
      && (!IsUp(p.state) || p.state == Connected ==> q.state == p.state)
  {
  }

  /** After every update in normal mode with no window open, whatever the commands did: the
      handset is up exactly when the phone is at dial tone, dialing, connected or busy. */
  lemma HandsetUpIff(p: Phone, cs: seq<Command>, i: Input)
    ensures var q := Update(p, cs, i);
      !q.keytest && !q.hook.flashPending ==> (Hook.IsOffHook(q.hook) <==> IsUp(q.state))
  {
    NormalHandset(ExecuteAll(p, cs, i), i);
  }

  lemma NormalHandset(p: Phone, i: Input)
    ensures var q := Normal(p, i);
      && q.hook == p.hook.(event := Hook.NoEvent) && q.keytest == p.keytest
      && (!p.hook.flashPending ==> (Hook.IsOffHook(q.hook) <==> IsUp(q.state)))
  {
    HookPartIs(p, NowMs(i));
    KeyPartIs(HookPart(p, NowMs(i)), i.key, NowMs(i));
  }

  // ---- digits ----

  predicate SevenDigits(s: string) {
    |s| == DigitsRequired && AllDigits(s)
  }

  ghost predicate DialsComplete(sent: seq<Message>) {
    forall m | m in sent && m.Dial? :: SevenDigits(m.digits)
  }

  /** The digit buffer never overruns, and every number sent has exactly seven digits. */
  ghost predicate DigitsOk(p: Phone) {
    && |p.digits| <= DigitsRequired && AllDigits(p.digits)
    && (p.dialSent ==> |p.digits| == DigitsRequired)
    && DialsComplete(p.sent)
  }

  lemma SetStateKeepsDigits(p: Phone, next: PhoneState, now: int)
    requires DigitsOk(p)
    ensures DigitsOk(SetState(p, next, now))
  {
  }

  lemma ExecuteKeepsDigits(p: Phone, c: Command, i: Input)
    requires DigitsOk(p)
    ensures DigitsOk(Execute(p, c, i))
  {
    SetStateKeepsDigits(p, Ringing, NowMs(i));
    SetStateKeepsDigits(p, Idle, NowMs(i));
    SetStateKeepsDigits(p, Connected, NowMs(i));
  }

  lemma {:induction false} ExecuteAllKeepsDigits(p: Phone, cs: seq<Command>, i: Input)
    requires DigitsOk(p)
    ensures DigitsOk(ExecuteAll(p, cs, i))
    decreases |cs|
  {
    if cs != [] {
      ExecuteKeepsDigits(p, cs[0], i);
      ExecuteAllKeepsDigits(Execute(p, cs[0], i), cs[1..], i);
    }
  }

  lemma SendKeepsDigits(p: Phone, msg: Message)
    requires DigitsOk(p) && !msg.Dial?
    ensures DigitsOk(Send(p, msg))
  {
  }

  lemma HookStepsKeepDigits(p: Phone, now: int)
    requires DigitsOk(p)
    ensures DigitsOk(TakeHookEvent(p, now)) && DigitsOk(FollowHook(p, now)) && DigitsOk(AnswerIfRinging(p, now))
  {
  }

  lemma TimeoutsKeepDigits(p: Phone, now: int)
    requires DigitsOk(p)
    ensures DigitsOk(DialToneTimeout(p, now)) && DigitsOk(DialingTimeout(p, now))
  {
    SendKeepsDigits(p, TimeoutDialTone);
    SetStateKeepsDigits(Send(p, TimeoutDialTone), Busy, now);
  }

  lemma KeyKeepsDigits(p: Phone, key: Option<char>, now: int)
    requires DigitsOk(p)
    ensures DigitsOk(ProcessKey(p, key, now))
  {
    if key.Some? {
      var q := if p.state == DialTone then SetState(p, Dialing, now) else p;
      var r := Send(q, Key(key.value));
      assert DigitsOk(r);
      var d := if IsDigit(key.value) && |r.digits| < DigitsRequired then r.(digits := r.digits + [key.value]) else r;
      assert DigitsOk(d.(dialSent := false));
    }
  }

  /** Every update, in either mode and whatever the commands, keeps the digit buffer within its
      seven places and sends only complete numbers. */
  lemma UpdateKeepsDigits(p: Phone, cs: seq<Command>, i: Input)
    requires DigitsOk(p)
    ensures DigitsOk(Update(p, cs, i))
  {
    var now := NowMs(i);
    ExecuteAllKeepsDigits(p, cs, i);
    var p0 := ExecuteAll(p, cs, i);
    HookStepsKeepDigits(p0, now);
    var p1 := TakeHookEvent(p0, now);
    HookStepsKeepDigits(p1, now);
    var p2 := FollowHook(p1, now);
    HookStepsKeepDigits(p2, now);
    var p3 := AnswerIfRinging(p2, now);
    TimeoutsKeepDigits(p3, now);
    assert p3 == HookPart(p0, now);
    var p4 := DialToneTimeout(p3, now);
    KeyKeepsDigits(p4, i.key, now);
    TimeoutsKeepDigits(ProcessKey(p4, i.key, now), now);
  }

  /** While dialing, the number goes out at the seventh digit, and once. */
  lemma DialGoesOutAtTheSeventh(p: Phone, key: char, now: int)
    requires p.state == Dialing && DigitsOk(p) && (|p.digits| == DigitsRequired ==> p.dialSent)
    ensures var q := ProcessKey(p, Some(key), now);
      var seventh := |p.digits| == DigitsRequired - 1 && IsDigit(key);
      && q.sent == p.sent + [Key(key)] + (if seventh then [Dial(p.digits + [key])] else [])
      && (q.dialSent <==> p.dialSent || seventh)
      && (|q.digits| == DigitsRequired ==> q.dialSent)
  {
  }

  // ---- a call through the main loop ----

  /** One turn of the main loop without commands: the hook is polled, then the phone updated. */
  function Turn(p: Phone, i: Input): Phone {
    Update(p.(hook := Hook.Poll(p.hook, i.pin, i.now)), [], i)
  }

  function PollEmits(p: Phone, i: Input): Hook.HookEvent {
    Hook.Emitted(p.hook, Hook.PollAt(i.pin, i.now))
  }

  function Turns(turn: (Phone, Input) -> Phone, p: Phone, inputs: seq<Input>, n: nat): Phone
    requires n <= |inputs|
  {
    if n == 0 then p else turn(Turns(turn, p, inputs, n - 1), inputs[n - 1])
  }

  /** Connected, with the handset up or a flash window open. */
  ghost predicate InCall(p: Phone) {
    && p.state == Connected && !p.keytest
    && !p.hook.forced && p.hook.event == Hook.NoEvent
    && HeldUp(p.hook)
  }

  ghost predicate HeldUp(h: Hook.State) {
    Hook.WindowOk(h) && (h.offHook || h.flashPending)
  }

  lemma PollWhileUp(h: Hook.State, pin: bool, now: int)
    requires !h.forced && h.event == Hook.NoEvent && HeldUp(h)
    ensures var h' := Hook.Poll(h, pin, now);
      && h'.event == Hook.Emitted(h, Hook.PollAt(pin, now)) && !h'.forced && h'.event != Hook.Off
      && (h'.event != Hook.On ==> HeldUp(h'))
      && (h'.event == Hook.On ==> !h'.offHook && !h'.flashPending)
  {
    assert h.(event := Hook.NoEvent) == h;
    Hook.OneStepOfAWindow(h, Hook.PollAt(pin, now));
    if h.flashPending {
      Hook.WindowOutcome(h, pin, now);
    } else {
      Hook.PlainPollReports(h, pin, now);
    }
  }

  lemma HookPartInCall(p: Phone, now: int)
    requires p.state == Connected && !p.hook.forced && p.hook.event != Hook.Off
    requires p.hook.event != Hook.On ==> HeldUp(p.hook)
    requires p.hook.event == Hook.On ==> !p.hook.offHook && !p.hook.flashPending
    ensures HookPart(p, now).state == if p.hook.event == Hook.On then Idle else Connected
  {
  }

  lemma OneTurn(p: Phone, i: Input)
    requires InCall(p)
    ensures PollEmits(p, i) != Hook.On ==> InCall(Turn(p, i))
    ensures PollEmits(p, i) == Hook.On ==> Turn(p, i).state == Idle
  {
    PollWhileUp(p.hook, i.pin, i.now);
    var q := p.(hook := Hook.Poll(p.hook, i.pin, i.now));
    HookPartInCall(q, NowMs(i));
    HookPartIs(q, NowMs(i));
    KeyPartIs(HookPart(q, NowMs(i)), i.key, NowMs(i));
    assert Turn(p, i) == Normal(q, i);
  }

  /** A main loop that keeps a call up until a hang-up is emitted, as Turn does (OneTurn). */
  ghost predicate KeepsCalls(turn: (Phone, Input) -> Phone) {
    forall p, i | InCall(p) :: if PollEmits(p, i) != Hook.On then InCall(turn(p, i)) else turn(p, i).state == Idle
  }

  ghost predicate HangsUp(turn: (Phone, Input) -> Phone, p: Phone, inputs: seq<Input>, k: nat)
    requires k < |inputs|
  {
    PollEmits(Turns(turn, p, inputs, k), inputs[k]) == Hook.On
  }

  lemma {:induction false} InCallUntilHangup(turn: (Phone, Input) -> Phone, p: Phone, inputs: seq<Input>, n: nat)
    requires KeepsCalls(turn) && InCall(p) && n <= |inputs|
    requires forall k: nat | k < n :: !HangsUp(turn, p, inputs, k)
    ensures InCall(Turns(turn, p, inputs, n))
  {
    if n > 0 {
      InCallUntilHangup(turn, p, inputs, n - 1);
      assert !HangsUp(turn, p, inputs, n - 1);
    }
  }

  ghost function FirstHangup(turn: (Phone, Input) -> Phone, p: Phone, inputs: seq<Input>, from: nat): (k: nat)
    requires exists k: nat :: from <= k < |inputs| && HangsUp(turn, p, inputs, k)
    ensures from <= k < |inputs| && HangsUp(turn, p, inputs, k)
    ensures forall j: nat | from <= j < k :: !HangsUp(turn, p, inputs, j)
    decreases |inputs| - from
  {
    if HangsUp(turn, p, inputs, from) then from else FirstHangup(turn, p, inputs, from + 1)
  }

  /** The first hang-up leaves the phone idle. */
  lemma {:induction false} HangupShows(turn: (Phone, Input) -> Phone, p: Phone, inputs: seq<Input>, k: nat)
    requires KeepsCalls(turn) && InCall(p) && k < |inputs| && HangsUp(turn, p, inputs, k)
    ensures exists n: nat :: n <= |inputs| && Turns(turn, p, inputs, n).state != Connected
  {
    var first := FirstHangup(turn, p, inputs, 0);
    InCallUntilHangup(turn, p, inputs, first);
    var before := Turns(turn, p, inputs, first);
    assert PollEmits(before, inputs[first]) == Hook.On;
    assert turn(before, inputs[first]).state == Idle;
    assert Turns(turn, p, inputs, first + 1) == turn(before, inputs[first]);
  }

  lemma {:induction false} ConnectedIff(turn: (Phone, Input) -> Phone, p: Phone, inputs: seq<Input>)
    requires KeepsCalls(turn) && InCall(p)
    ensures (forall n: nat | n <= |inputs| :: Turns(turn, p, inputs, n).state == Connected) <==>
      (forall k: nat | k < |inputs| :: !HangsUp(turn, p, inputs, k))
  {
    if k: nat :| k < |inputs| && HangsUp(turn, p, inputs, k) {
      HangupShows(turn, p, inputs, k);
    } else {
      forall n: nat | n <= |inputs| ensures Turns(turn, p, inputs, n).state == Connected {
        InCallUntilHangup(turn, p, inputs, n);
      }
    }
  }

  /** Without commands, whatever the pin and the keys do: a connected phone is connected after
      every turn exactly if no poll emits a hang-up. A completed flash emits none. */
  lemma {:induction false} ConnectedThroughoutIff(p: Phone, inputs: seq<Input>)
    requires InCall(p)
    ensures (forall n: nat | n <= |inputs| :: Turns(Turn, p, inputs, n).state == Connected) <==>
      (forall k: nat | k < |inputs| :: !HangsUp(Turn, p, inputs, k))
  {
    TurnKeepsAndPolls();
    ConnectedIff(Turn, p, inputs);
  }

  // ---- a flash during a call ----

  function PollsOf(inputs: seq<Input>): seq<(bool, int)> {
    seq(|inputs|, i requires 0 <= i < |inputs| => (inputs[i].pin, inputs[i].now))
  }

  predicate InRange(since: int, now: int) {
    Hook.FlashMinMs <= Hook.Ms(since, now) <= Hook.FlashMaxMs
  }

  /** A turn polls the hook and takes its event. */
  ghost predicate PollsTheHook(turn: (Phone, Input) -> Phone) {
    forall p, i | InCall(p) :: turn(p, i).hook == Hook.Poll(p.hook, i.pin, i.now).(event := Hook.NoEvent)
  }

  lemma {:induction false} TurnsFrom(turn: (Phone, Input) -> Phone, p: Phone, inputs: seq<Input>, n: nat)
    requires n < |inputs|
    ensures Turns(turn, p, inputs, n + 1) == Turns(turn, turn(p, inputs[0]), inputs[1..], n)
  {
    if n > 0 {
      TurnsFrom(turn, p, inputs, n - 1);
    }
  }

  /** Until the last of such polls the window stays open and nothing is emitted. */
  lemma StillOpen(h: Hook.State, polls: seq<(bool, int)>)
    requires !h.forced && h.event == Hook.NoEvent && HeldUp(h) && h.flashPending
    requires |polls| > 1 && Hook.ReleasedAtLast(h, polls)
    ensures Hook.Emitted(h, Hook.PollAt(polls[0].0, polls[0].1)) == Hook.NoEvent
    ensures var h' := Hook.Poll(h, polls[0].0, polls[0].1);
      && h'.flashPending && h'.flashStart == h.flashStart && h'.event == Hook.NoEvent
      && Hook.ReleasedAtLast(h', polls[1..])
  {
    Hook.WindowOutcome(h, polls[0].0, polls[0].1);
    PollWhileUp(h, polls[0].0, polls[0].1);
    Hook.OneStepOfAWindow(h, Hook.PollAt(polls[0].0, polls[0].1));
  }

  lemma ReleasedNow(h: Hook.State, pin: bool, now: int)
    requires Hook.WindowOk(h) && h.flashPending && Hook.ReleasedAtLast(h, [(pin, now)])
    ensures Hook.Emitted(h, Hook.PollAt(pin, now)) == if InRange(h.flashStart, now) then Hook.Flash else Hook.NoEvent
  {
    Hook.WindowOutcome(h, pin, now);
  }

  /** In a call, with a window that the inputs' polls release at the last of them. */
  ghost predicate Releasing(p: Phone, inputs: seq<Input>) {
    InCall(p) && p.hook.flashPending && Hook.ReleasedAtLast(p.hook, PollsOf(inputs))
  }

  /** What the last of the polls, and each before it, does to such a window. */
  ghost predicate ReleasesQuietly(turn: (Phone, Input) -> Phone, emits: (Phone, Input) -> Hook.HookEvent, releasing: (Phone, seq<Input>) -> bool) {
    && (forall p, i | releasing(p, [i]) :: emits(p, i) == if InRange(p.hook.flashStart, i.now) then Hook.Flash else Hook.NoEvent)
    && (forall p, inputs: seq<Input> | |inputs| > 1 && releasing(p, inputs) ::
          && emits(p, inputs[0]) == Hook.NoEvent
          && releasing(turn(p, inputs[0]), inputs[1..])
          && turn(p, inputs[0]).hook.flashStart == p.hook.flashStart)
  }

  /** So nothing is emitted before the last of the polls, and there at most a flash. */
  lemma {:induction false} ReleaseEmits(turn: (Phone, Input) -> Phone, emits: (Phone, Input) -> Hook.HookEvent,
                                        releasing: (Phone, seq<Input>) -> bool, p: Phone, inputs: seq<Input>, k: nat)
    requires ReleasesQuietly(turn, emits, releasing) && releasing(p, inputs) && k < |inputs|
    ensures emits(Turns(turn, p, inputs, k), inputs[k]) ==
      if k + 1 == |inputs| && InRange(p.hook.flashStart, inputs[k].now) then Hook.Flash else Hook.NoEvent
    decreases |inputs|
  {
    if |inputs| == 1 {
      assert inputs == [inputs[0]];
    } else if k > 0 {
      ReleaseEmits(turn, emits, releasing, turn(p, inputs[0]), inputs[1..], k - 1);
      TurnsFrom(turn, p, inputs, k - 1);
    }
  }

  lemma TurnReleasesQuietly()
    ensures ReleasesQuietly(Turn, PollEmits, Releasing)
  {
    TurnKeepsAndPolls();
    forall p, i | Releasing(p, [i])
      ensures PollEmits(p, i) == if InRange(p.hook.flashStart, i.now) then Hook.Flash else Hook.NoEvent
    {
      assert PollsOf([i]) == [(i.pin, i.now)];
      ReleasedNow(p.hook, i.pin, i.now);
    }
    forall p, inputs: seq<Input> | |inputs| > 1 && Releasing(p, inputs)
      ensures PollEmits(p, inputs[0]) == Hook.NoEvent && Releasing(Turn(p, inputs[0]), inputs[1..])
        && Turn(p, inputs[0]).hook.flashStart == p.hook.flashStart
    {
      StillOpen(p.hook, PollsOf(inputs));
      PolledTurn(p, inputs[0]);
      assert PollsOf(inputs)[1..] == PollsOf(inputs[1..]);
    }
  }

  /** A poll that emits nothing leaves a call in a call, with the polled hook. */
  lemma PolledTurn(p: Phone, i: Input)
    requires InCall(p) && PollEmits(p, i) == Hook.NoEvent
    ensures InCall(Turn(p, i)) && Turn(p, i).hook == Hook.Poll(p.hook, i.pin, i.now)
  {
    TurnKeepsAndPolls();
    PollWhileUp(p.hook, i.pin, i.now);
  }

  lemma TurnReports(p: Phone, i: Input)
    requires InCall(p) && PollEmits(p, i) == Hook.Flash
    ensures p.sent + [HookIs(Hook.Flash)] <= Turn(p, i).sent
  {
    var q := p.(hook := Hook.Poll(p.hook, i.pin, i.now));
    PollWhileUp(p.hook, i.pin, i.now);
    HookPartInCall(q, NowMs(i));
    HookPartSends(q, NowMs(i));
    KeyPartOnlyAppends(HookPart(q, NowMs(i)), i.key, NowMs(i));
    assert Turn(p, i) == Normal(q, i);
  }

  lemma HookPartSends(p: Phone, now: int)
    requires p.state == Connected && p.hook.event == Hook.Flash && (p.hook.flashPending || Hook.IsOffHook(p.hook))
    ensures HookPart(p, now).sent == p.sent + [HookIs(Hook.Flash)]
  {
  }

  lemma KeyPartOnlyAppends(p: Phone, key: Option<char>, now: int)
    requires p.state == Connected
    ensures p.sent <= KeyPart(p, key, now).sent
  {
  }

  /** The first poll debounces the hook down and opens a window, and the last debounces it up. */
  ghost predicate HookSpell(h: Hook.State, polls: seq<(bool, int)>) {
    && |polls| >= 2 && h.offHook && h.flashEnabled && !h.flashPending
    && Hook.Commits(h, polls[0].0, polls[0].1)
    && Hook.ReleasedAtLast(Hook.Poll(h, polls[0].0, polls[0].1), polls[1..])
  }

  /** The first poll of a spell opens the window and reports nothing. */
  lemma SpellOpens(h: Hook.State, polls: seq<(bool, int)>)
    requires !h.forced && h.event == Hook.NoEvent && HeldUp(h) && HookSpell(h, polls)
    ensures Hook.Emitted(h, Hook.PollAt(polls[0].0, polls[0].1)) == Hook.NoEvent
    ensures var h' := Hook.Poll(h, polls[0].0, polls[0].1);
      h'.flashPending && h'.flashStart == polls[0].1 && h'.event == Hook.NoEvent && Hook.ReleasedAtLast(h', polls[1..])
  {
    Hook.PlainPollReports(h, polls[0].0, polls[0].1);
    Hook.OneStepOfAWindow(h, Hook.PollAt(polls[0].0, polls[0].1));
    PollWhileUp(h, polls[0].0, polls[0].1);
  }

  lemma SpellFirstTurn(p: Phone, inputs: seq<Input>)
    requires InCall(p) && HookSpell(p.hook, PollsOf(inputs))
    ensures |inputs| >= 2 && PollEmits(p, inputs[0]) == Hook.NoEvent
    ensures Releasing(Turn(p, inputs[0]), inputs[1..]) && Turn(p, inputs[0]).hook.flashStart == inputs[0].now
  {
    SpellOpens(p.hook, PollsOf(inputs));
    PolledTurn(p, inputs[0]);
    assert PollsOf(inputs)[1..] == PollsOf(inputs[1..]);
  }

  lemma {:induction false} OpenThenRelease(turn: (Phone, Input) -> Phone, emits: (Phone, Input) -> Hook.HookEvent,
                                           releasing: (Phone, seq<Input>) -> bool, p: Phone, inputs: seq<Input>, k: nat)
    requires ReleasesQuietly(turn, emits, releasing) && |inputs| >= 2 && k < |inputs|
    requires emits(p, inputs[0]) == Hook.NoEvent && releasing(turn(p, inputs[0]), inputs[1..])
    requires turn(p, inputs[0]).hook.flashStart == inputs[0].now
    ensures emits(Turns(turn, p, inputs, k), inputs[k]) ==
      if k + 1 == |inputs| && InRange(inputs[0].now, inputs[k].now) then Hook.Flash else Hook.NoEvent
  {
    if k > 0 {
      ReleaseEmits(turn, emits, releasing, turn(p, inputs[0]), inputs[1..], k - 1);
      TurnsFrom(turn, p, inputs, k - 1);
    }
  }

  /** Such a spell emits nothing before its last poll, and there at most a flash. */
  lemma {:induction false} SpellEmits(p: Phone, inputs: seq<Input>, k: nat)
    requires InCall(p) && HookSpell(p.hook, PollsOf(inputs)) && k < |inputs|
    ensures PollEmits(Turns(Turn, p, inputs, k), inputs[k]) ==
      if k + 1 == |inputs| && InRange(inputs[0].now, inputs[k].now) then Hook.Flash else Hook.NoEvent
  {
    SpellFirstTurn(p, inputs);
    TurnReleasesQuietly();
    OpenThenRelease(Turn, PollEmits, Releasing, p, inputs, k);
  }

  /** In a call, and whatever keys are pressed meanwhile: through such a spell the phone is
      connected after every turn, and the last turn reports a flash to the Pi exactly if the
      spell lasted 100 to 600 ms. */
  lemma {:induction false} FlashKeepsTheCall(p: Phone, inputs: seq<Input>)
    requires InCall(p) && HookSpell(p.hook, PollsOf(inputs))
    ensures forall n: nat | n <= |inputs| :: Turns(Turn, p, inputs, n).state == Connected
    ensures var last := |inputs| - 1;
      var before, after := Turns(Turn, p, inputs, last), Turns(Turn, p, inputs, |inputs|);
      var inRange := InRange(inputs[0].now, inputs[last].now);
      && (PollEmits(before, inputs[last]) == Hook.Flash <==> inRange)
      && (inRange ==> before.sent + [HookIs(Hook.Flash)] <= after.sent)
  {
    TurnKeepsAndPolls();
    forall k: nat | k < |inputs| ensures !HangsUp(Turn, p, inputs, k) {
      SpellEmits(p, inputs, k);
    }
    ConnectedThroughoutIff(p, inputs);
    var last: nat := |inputs| - 1;
    SpellEmits(p, inputs, last);
    InCallUntilHangup(Turn, p, inputs, last);
    var before := Turns(Turn, p, inputs, last);
    if PollEmits(before, inputs[last]) == Hook.Flash {
      TurnReports(before, inputs[last]);
    }
  }

  lemma TurnKeepsAndPolls()
    ensures KeepsCalls(Turn) && PollsTheHook(Turn)
  {
    forall p, i | InCall(p)
      ensures if PollEmits(p, i) != Hook.On then InCall(Turn(p, i)) else Turn(p, i).state == Idle
      ensures Turn(p, i).hook == Hook.Poll(p.hook, i.pin, i.now).(event := Hook.NoEvent)
    {
      OneTurn(p, i);
      var q := p.(hook := Hook.Poll(p.hook, i.pin, i.now));
      NormalHandset(q, i);
      assert Turn(p, i) == Normal(q, i);
    }
  }

  // ---- the firmware's state ----

  class PhoneDriver {
    const hook: Hook.Switch
    var state: PhoneState
    var digits: string
    var dialSent: bool
    var dialingStart: int
    var dialToneStart: int
    var keytest: bool
    var sent: seq<Message>

    constructor (hook: Hook.Switch, now: int)
      ensures this.hook == hook
      ensures View() == Phone(hook.Value(), Idle, "", false, now, 0, false, [])
    {
      this.hook := hook;
      state, digits, dialSent, dialingStart, dialToneStart, keytest, sent := Idle, "", false, now, 0, false, [];
    }

    ghost function View(): Phone
      reads this, hook
    {
      Phone(hook.Value(), state, digits, dialSent, dialingStart, dialToneStart, keytest, sent)
    }

    method Write(msg: Message)
      modifies this`sent
      ensures View() == Send(old(View()), msg)
    {
      sent := sent + [msg];
    }

    method ClearDialingBuffer(now: int)
      modifies this
      ensures View() == ClearDialing(old(View()), now)
    {
      digits, dialSent, dialingStart := "", false, now;
    }

    method Enter(next: PhoneState, now: int)
      modifies this
      ensures View() == SetState(old(View()), next, now)
    {
      if state == next {
        return;
      }
      state := next;
      match state {
        case Idle => ClearDialingBuffer(now);
        case DialTone =>
          ClearDialingBuffer(now);
          dialToneStart := now;
        case Dialing => dialingStart := now;
        case Ringing => Write(Reply("RING:ACK"));
        case Connected =>
        case Busy =>
      }
    }

    method ProcessPiCommand(c: Command, i: Input)
      modifies this, hook
      ensures View() == Execute(old(View()), c, i)
    {
      var now := i.now / 1000 % Wrap;
      match c {
        case RingStart =>
          var stale := hook.GetEvent();
          Enter(Ringing, now);
        case RingStop =>
          if state == Ringing {
            Enter(Idle, now);
          }
          Write(Reply("RING:DONE"));
        case CallConnected =>
          if state == Dialing || state == Ringing {
            Enter(Connected, now);
            Write(Reply("CALL:CONNECTED:ACK"));
          } else {
            Write(Reply("CALL:CONNECTED:IGNORED"));
          }
        case Reset =>
          keytest := false;
          Enter(Idle, now);
          Write(Reply("RST:OK"));
        case DialReset =>
          ClearDialingBuffer(now);
          Write(Reply("DIAL:RESET:OK"));
        case Keytest(on) =>
          keytest := on;
          if on {
            Enter(Idle, now);
          }
          Write(Reply(if on then "MODE:KEYTEST" else "MODE:NORMAL"));
        case _ => ProcessHookCommand(c, i);
      }
    }

    method ProcessHookCommand(c: Command, i: Input)
      requires c.ForceHook? || c.ReleaseHook? || c.InvertHook? || c.EnableFlash? || c.OtherCommand?
      modifies this, hook
      ensures View() == Execute(old(View()), c, i)
    {
      match c {
        case ForceHook(off) =>
          hook.ForceOffHook(off);
          Write(Reply(if off then "HOOK:FORCED:OFF_HOOK" else "HOOK:FORCED:ON_HOOK"));
        case ReleaseHook =>
          hook.ClearForce(i.pin, i.now);
          Write(Reply("HOOK:RELEASED"));
        case InvertHook(inverted) =>
          hook.Invert(inverted, i.pin, i.now);
          Write(Reply(if inverted then "HOOK:INVERT:ON" else "HOOK:INVERT:OFF"));
        case EnableFlash(on) =>
          hook.EnableFlash(on);
          Write(Reply(if on then "HOOK:FLASH:ON" else "HOOK:FLASH:OFF"));
        case _ =>
      }
    }

    method ProcessHook(now: int)
      modifies this, hook
      ensures View() == HookPart(old(View()), now)
    {
      ReportHook(now);
      FollowRawHook(now);
      if state == Ringing && (if hook.forced then hook.forcedState else hook.offHook) {
        Enter(Connected, now);
      }
    }

    method ReportHook(now: int)
      modifies this, hook
      ensures View() == TakeHookEvent(old(View()), now)
    {
      var e := hook.GetEvent();
      if e != Hook.NoEvent {
        Write(HookIs(e));
        if e == Hook.On {
          Enter(Idle, now);
        }
      }
    }

    method FollowRawHook(now: int)
      modifies this
      ensures View() == FollowHook(old(View()), now)
    {
      var off := if hook.forced then hook.forcedState else hook.offHook;
      if !hook.flashPending {
        if !off && state != Idle && state != Ringing {
          Enter(Idle, now);
        }
        if off && state == Idle {
          Enter(DialTone, now);
        }
      }
    }

    method ProcessKeypad(key: Option<char>, now: int)
      modifies this
      ensures View() == ProcessKey(old(View()), key, now)
    {
      if key.None? {
        return;
      }
      if state == DialTone {
        Enter(Dialing, now);
      }
      if state != Dialing && state != Connected {
        return;
      }
      Write(Key(key.value));
      if state == Dialing {
        if IsDigit(key.value) && |digits| < DigitsRequired {
          digits := digits + [key.value];
        }
        if |digits| == DigitsRequired && !dialSent {
          Write(Dial(digits));
          dialSent := true;
        }
      }
    }

    /** Drains the Pi's commands, then runs one turn of keytest or normal mode. */
    method UpdateOnce(cs: seq<Command>, i: Input)
      modifies this, hook
      ensures View() == Update(old(View()), cs, i)
    {
      for k := 0 to |cs|
        invariant ExecuteAll(View(), cs[k..], i) == ExecuteAll(old(View()), cs, i)
      {
        assert cs[k..][1..] == cs[k + 1..];
        ProcessPiCommand(cs[k], i);
      }
      if keytest {
        if i.key.Some? {
          Write(Key(i.key.value));
        }
        return;
      }
      NormalTurn(i);
    }

    method NormalTurn(i: Input)
      modifies this, hook
      ensures View() == Normal(old(View()), i)
    {
      var now := i.now / 1000 % Wrap;
      ProcessHook(now);
      ProcessClockAndKey(i.key, now);
    }

    method ProcessClockAndKey(key: Option<char>, now: int)
      modifies this
      ensures View() == KeyPart(old(View()), key, now)
    {
      if state == DialTone && (now - dialToneStart) % Wrap >= DialToneTimeoutMs {
        Write(TimeoutDialTone);
        Enter(Busy, now);
      }
      ProcessKeypad(key, now);
      if state == Dialing && !dialSent && (now - dialingStart) % Wrap >= DialTimeoutMs {
        Write(TimeoutDialTone);
        Enter(Busy, now);
      }
    }
  }
}
