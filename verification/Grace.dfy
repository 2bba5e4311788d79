/** The reconnect grace protocol: timers armed on disconnect, cancelled on reconnect, and
    rechecked against fleet presence when they fire. The timer callback is three steps
    (take the lock, recheck, tear down) with anything allowed in between. */
module Grace {
  import opened Basics
  import Presence

  type Pod = Presence.Pod
  type Number = Presence.Number
  type Hardware = Presence.Hardware
  type Key = string

  function GraceKey(number: Number, hw: Hardware): Key {
    number + "\0" + hw
  }

  /** Numbers hold no NUL, so a key names one number and one device. */
  lemma {:induction false} GraceKeyIsInjective(n1: Number, h1: Hardware, n2: Number, h2: Hardware)
    requires '\0' !in n1 && '\0' !in n2
    ensures GraceKey(n1, h1) == GraceKey(n2, h2) <==> n1 == n2 && h1 == h2
  {
    var k1, k2 := GraceKey(n1, h1), GraceKey(n2, h2);
    if |n1| < |n2| {
      assert k1[|n1|] == '\0' && k2[|n1|] == n2[|n1|];
    } else if |n2| < |n1| {
      assert k2[|n2|] == '\0' && k1[|n2|] == n1[|n2|];
    } else {
      assert k1[..|n1|] == n1 && k2[..|n2|] == n2;
      assert k1[|n1| + 1..] == h1 && k2[|n2| + 1..] == h2;
    }
  }

  /** Where an entry's callback has got to. Skipped: it saw its cancel flag. Kept: the recheck
      found the device back. */
  datatype Phase = Armed | Skipped | Fired | Kept | Expired | Done

  datatype Entry = Entry(pod: Pod, number: Number, hw: Hardware, canceled: bool, phase: Phase)

  datatype World = World(
    fleet: Presence.Fleet,
    entries: map<nat, Entry>,
    timers: map<(Pod, Key), nat>,
    next: nat,
    ended: seq<nat>)   // history: the entries whose callback tore a call down

  const Start := World(Presence.NoDevices, map[], map[], 0, [])

  datatype Event =
    | Fleet(presence: Presence.Event)
    | Arm(pod: Pod, number: Number, hw: Hardware)
    | Cancel(pod: Pod, number: Number, hw: Hardware)
    | TakeLock(entry: nat)
    | Recheck(entry: nat, redisError: bool)
    | Teardown(entry: nat)

  function SetPhase(w: World, e: nat, phase: Phase): World
    requires e in w.entries
  {
    w.(entries := w.entries[e := w.entries[e].(phase := phase)])
  }

  /** startGraceTimer: an older entry under the key is cancelled and replaced. */
  function ArmTimer(w: World, pod: Pod, number: Number, hw: Hardware): World {
    var key := (pod, GraceKey(number, hw));
    var entries := if key in w.timers && w.timers[key] in w.entries
      then w.entries[w.timers[key] := w.entries[w.timers[key]].(canceled := true)] else w.entries;
    w.(entries := entries[w.next := Entry(pod, number, hw, false, Armed)],
       timers := w.timers[key := w.next],
       next := w.next + 1)
  }

  /** cancelGraceLocal, on a reconnect to this pod or on another pod's broadcast of one. */
  function CancelTimer(w: World, pod: Pod, number: Number, hw: Hardware): World {
    var key := (pod, GraceKey(number, hw));
    if key in w.timers && w.timers[key] in w.entries then
      w.(entries := w.entries[w.timers[key] := w.entries[w.timers[key]].(canceled := true)],
         timers := w.timers - {key})
    else w
  }

  function KeyOf(e: Entry): (Pod, Key) {
    (e.pod, GraceKey(e.number, e.hw))
  }

  /** The callback's critical section. Stopping a timer does not recall a callback already
      waiting for the lock, so a cancelled entry may still get here. */
  function TakeTheLock(w: World, e: nat): World
    requires e in w.entries
  {
    if w.entries[e].canceled then SetPhase(w, e, Skipped)
    else SetPhase(w, e, Fired).(timers := w.timers - {KeyOf(w.entries[e])})
  }

  function Step(w: World, event: Event): World {
    match event
    case Fleet(p) => w.(fleet := Presence.Step(w.fleet, p))
    case Arm(pod, number, hw) => ArmTimer(w, pod, number, hw)
    case Cancel(pod, number, hw) => CancelTimer(w, pod, number, hw)
    case TakeLock(e) => if e in w.entries && w.entries[e].phase == Armed then TakeTheLock(w, e) else w
    case Recheck(e, redisError) =>
      if e in w.entries && w.entries[e].phase == Fired then
        SetPhase(w, e, if !redisError && OnlineOnLine(w, e) then Kept else Expired)
      else w
    case Teardown(e) =>
      if e in w.entries && w.entries[e].phase == Expired then SetPhase(w, e, Done).(ended := w.ended + [e])
      else w
  }

  predicate OnlineOnLine(w: World, e: nat)
    requires e in w.entries
  {
    w.entries[e].hw != "" && Presence.HardwareOnlineOnLine(w.fleet.shared, w.entries[e].number, w.entries[e].hw)
  }

  ghost predicate Enabled(event: Event) {
    event.Fleet? ==> Presence.Enabled(event.presence)
  }

  function Run(w: World, events: seq<Event>): World
    decreases |events|
  {
    if events == [] then w else Run(Step(w, events[0]), events[1..])
  }

  // ---- the invariant ----

  /** Armed and neither cancelled nor superseded. */
  predicate Pending(w: World, e: nat) {
    e in w.entries && w.entries[e].phase == Armed && !w.entries[e].canceled
  }

  ghost predicate EntryOk(w: World, e: nat)
    requires e in w.entries
  {
    && e < w.next
    && (Pending(w, e) ==> KeyOf(w.entries[e]) in w.timers && w.timers[KeyOf(w.entries[e])] == e)
    && (w.entries[e].canceled ==> w.entries[e].phase in {Armed, Skipped})
    && (w.entries[e].phase == Skipped ==> w.entries[e].canceled)
    && (e in w.ended <==> w.entries[e].phase == Done)
  }

  ghost predicate Inv(w: World) {
    && Presence.Inv(w.fleet)
    && (forall e | e in w.entries :: EntryOk(w, e))
    && (forall k | k in w.timers :: Pending(w, w.timers[k]) && KeyOf(w.entries[w.timers[k]]) == k)
    && (forall e | e in w.ended :: e in w.entries)
    && NoRepeats(w.ended)
  }

  lemma ArmKeeps(w: World, pod: Pod, number: Number, hw: Hardware)
    requires Inv(w)
    ensures Inv(ArmTimer(w, pod, number, hw))
  {
    var w' := ArmTimer(w, pod, number, hw);
    forall e | e in w'.entries ensures EntryOk(w', e) {
      assert e in w.entries ==> EntryOk(w, e);
      assert e == w.next ==> e !in w.entries && e !in w.ended;
    }
    assert Pending(w', w.next);
    forall k | k in w'.timers ensures Pending(w', w'.timers[k]) && KeyOf(w'.entries[w'.timers[k]]) == k {
      assert k in w.timers ==> Pending(w, w.timers[k]) && EntryOk(w, w.timers[k]);
    }
  }

  lemma CancelKeeps(w: World, pod: Pod, number: Number, hw: Hardware)
    requires Inv(w)
    ensures Inv(CancelTimer(w, pod, number, hw))
  {
    var w' := CancelTimer(w, pod, number, hw);
    forall e | e in w'.entries ensures EntryOk(w', e) { assert EntryOk(w, e); }
    forall k | k in w'.timers ensures Pending(w', w'.timers[k]) && KeyOf(w'.entries[w'.timers[k]]) == k {
      assert Pending(w, w.timers[k]);
    }
  }

  lemma TakeTheLockKeeps(w: World, e: nat)
    requires Inv(w) && e in w.entries && w.entries[e].phase == Armed
    ensures Inv(TakeTheLock(w, e))
  {
    var w' := TakeTheLock(w, e);
    forall x | x in w'.entries ensures EntryOk(w', x) { assert EntryOk(w, x); }
    forall k | k in w'.timers ensures Pending(w', w'.timers[k]) && KeyOf(w'.entries[w'.timers[k]]) == k {
      assert Pending(w, w.timers[k]) && EntryOk(w, w.timers[k]);
    }
  }

  /** The steps after the critical section touch no timer. */
  lemma FiredKeeps(w: World, e: nat, phase: Phase, ended: seq<nat>)
    requires Inv(w) && e in w.entries && w.entries[e].phase in {Fired, Expired} && phase in {Kept, Expired, Done}
    requires ended == if phase == Done then w.ended + [e] else w.ended
    ensures Inv(SetPhase(w, e, phase).(ended := ended))
  {
    var w' := SetPhase(w, e, phase).(ended := ended);
    assert EntryOk(w, e);
    forall x | x in w'.entries ensures EntryOk(w', x) { assert EntryOk(w, x); }
    forall k | k in w'.timers ensures Pending(w', w'.timers[k]) && KeyOf(w'.entries[w'.timers[k]]) == k {
      assert Pending(w, w.timers[k]);
    }
  }

  lemma FleetKeeps(w: World, p: Presence.Event)
    requires Inv(w) && Presence.Enabled(p)
    ensures Inv(Step(w, Fleet(p)))
  {
    var w' := Step(w, Fleet(p));
    Presence.StepKeeps(w.fleet, p);
    forall e | e in w'.entries ensures EntryOk(w', e) { assert EntryOk(w, e); }
    forall k | k in w'.timers ensures Pending(w', w'.timers[k]) { assert Pending(w, w.timers[k]); }
  }

  lemma StepKeeps(w: World, event: Event)
    requires Inv(w) && Enabled(event)
    ensures Inv(Step(w, event))
  {
    match event
    case Fleet(p) => FleetKeeps(w, p);
    case Arm(pod, number, hw) => ArmKeeps(w, pod, number, hw);
    case Cancel(pod, number, hw) => CancelKeeps(w, pod, number, hw);
    case TakeLock(e) => if Step(w, event) != w { TakeTheLockKeeps(w, e); }
    case Recheck(e, redisError) => if Step(w, event) != w { FiredKeeps(w, e, Step(w, event).entries[e].phase, w.ended); }
    case Teardown(e) => if Step(w, event) != w { FiredKeeps(w, e, Done, w.ended + [e]); }
  }

  lemma {:induction false} RunKeeps(w: World, events: seq<Event>)
    requires Inv(w) && forall e | e in events :: Enabled(e)
    ensures Inv(Run(w, events))
    decreases |events|
  {
    if events != [] {
      StepKeeps(w, events[0]);
      RunKeeps(Step(w, events[0]), events[1..]);
    }
  }

  // ---- the promises ----

  /** The timers map holds exactly the pending entries, each under its own key. */
  lemma TimersAreThePending(events: seq<Event>, e: nat)
    requires forall v | v in events :: Enabled(v)
    ensures var w := Run(Start, events); Pending(w, e) <==> e in w.timers.Values
    ensures var w := Run(Start, events);
      Pending(w, e) ==> KeyOf(w.entries[e]) in w.timers && w.timers[KeyOf(w.entries[e])] == e
  {
    RunKeeps(Start, events);
    var w := Run(Start, events);
    assert Pending(w, e) ==> EntryOk(w, e);
  }

  /** So the delete of a firing timer takes only its own entry out. */
  lemma FiringDeletesOnlyItself(events: seq<Event>, e: nat)
    requires (forall v | v in events :: Enabled(v)) && Pending(Run(Start, events), e)
    ensures var w := Run(Start, events); var w' := Step(w, TakeLock(e));
      && w'.timers.Values == w.timers.Values - {e}
      && forall other | other != e :: Pending(w', other) <==> Pending(w, other)
  {
    RunKeeps(Start, events);
    var w := Run(Start, events);
    var w' := Step(w, TakeLock(e));
    assert EntryOk(w, e);
    forall other | other in w.timers.Values && other != e ensures other in w'.timers.Values {
      var k :| k in w.timers && w.timers[k] == other;
      assert k in w'.timers && w'.timers[k] == other;
    }
    forall k | k in w'.timers ensures w'.timers[k] != e {
      assert KeyOf(w.entries[w.timers[k]]) == k;
    }
  }

  /** Entries only move forward: what is cancelled, kept or done stays so. */
  lemma {:induction false} Forward(w: World, later: seq<Event>, e: nat)
    requires Inv(w) && (forall v | v in later :: Enabled(v)) && e in w.entries
    ensures var w' := Run(w, later);
      && Inv(w') && e in w'.entries
      && w'.entries[e].number == w.entries[e].number && w'.entries[e].hw == w.entries[e].hw
      && (w.entries[e].canceled ==> w'.entries[e].canceled)
      && (w.entries[e].phase == Kept ==> w'.entries[e].phase == Kept)
      && (w.entries[e].phase == Done ==> w'.entries[e].phase == Done)
    decreases |later|
  {
    if later != [] {
      assert EntryOk(w, e);
      assert w.next !in w.entries || EntryOk(w, w.next);
      StepKeeps(w, later[0]);
      OneStepForward(w, later[0], e);
      Forward(Step(w, later[0]), later[1..], e);
    }
  }

  lemma OneStepForward(w: World, event: Event, e: nat)
    requires Inv(w) && e in w.entries
    ensures var w' := Step(w, event);
      && e in w'.entries
      && w'.entries[e].number == w.entries[e].number && w'.entries[e].hw == w.entries[e].hw
      && (w.entries[e].canceled ==> w'.entries[e].canceled)
      && (w.entries[e].phase == Kept ==> w'.entries[e].phase == Kept)
      && (w.entries[e].phase == Done ==> w'.entries[e].phase == Done)
      && (w.entries[e].phase in {Expired, Done} || w'.entries[e].phase !in {Expired, Done}
          || (event.Recheck? && event.entry == e && w.entries[e].phase == Fired))
  {
    assert EntryOk(w, e);
  }

  /** A cancelled or superseded entry never tears a call down, even when its callback was
      already waiting for the lock. */
  lemma CancelledNeverTearsDown(before: seq<Event>, later: seq<Event>, e: nat)
    requires (forall v | v in before :: Enabled(v)) && (forall v | v in later :: Enabled(v))
    requires e in Run(Start, before).entries && Run(Start, before).entries[e].canceled
    ensures e !in Run(Run(Start, before), later).ended
  {
    RunKeeps(Start, before);
    Forward(Run(Start, before), later, e);
    assert EntryOk(Run(Run(Start, before), later), e);
  }

  /** Cancelling stops every pending entry of that device and line on that pod, and no other. */
  lemma CancelDisarms(events: seq<Event>, pod: Pod, number: Number, hw: Hardware, e: nat)
    requires (forall v | v in events :: Enabled(v)) && '\0' !in number
    requires e in Run(Start, events).entries && '\0' !in Run(Start, events).entries[e].number
    ensures var w := Run(Start, events);
      var mine := w.entries[e].pod == pod && w.entries[e].number == number && w.entries[e].hw == hw;
      Pending(Step(w, Cancel(pod, number, hw)), e) <==> Pending(w, e) && !mine
  {
    RunKeeps(Start, events);
    var w := Run(Start, events);
    assert EntryOk(w, e);
    GraceKeyIsInjective(w.entries[e].number, w.entries[e].hw, number, hw);
  }

  /** Arming leaves at most one pending entry per device and line on a pod: the new one. */
  lemma ArmSupersedes(events: seq<Event>, pod: Pod, number: Number, hw: Hardware, e: nat)
    requires forall v | v in events :: Enabled(v)
    ensures var w := Run(Start, events); var w' := Step(w, Arm(pod, number, hw));
      && Pending(w', w.next)
      && (Pending(w', e) && KeyOf(w'.entries[e]) == (pod, GraceKey(number, hw)) ==> e == w.next)
      && (Pending(w, e) && !Pending(w', e) ==> w'.entries[e].canceled)
  {
    RunKeeps(Start, events);
    var w := Run(Start, events);
    StepKeeps(w, Arm(pod, number, hw));
    var w' := Step(w, Arm(pod, number, hw));
    assert Pending(w', e) ==> EntryOk(w', e);
  }

  lemma TearsDownAtMostOnce(events: seq<Event>, e: nat)
    requires forall v | v in events :: Enabled(v)
    ensures multiset(Run(Start, events).ended)[e] <= 1
  {
    RunKeeps(Start, events);
    CountOnce(Run(Start, events).ended, e);
  }

  /** The device's newest connection is registered on this line, on whichever pod. */
  ghost predicate BackOnLine(f: Presence.Fleet, number: Number, hw: Hardware) {
    && Presence.NewestRegistered(f, hw)
    && f.sessions[(f.newest[hw].0, hw)].number == number
  }

  /** A device back on its line before the recheck keeps its call for good, on this pod or
      another: no broadcast is involved, so losing one does not matter. */
  lemma BackBeforeTheRecheck(before: seq<Event>, later: seq<Event>, e: nat)
    requires (forall v | v in before :: Enabled(v)) && (forall v | v in later :: Enabled(v))
    requires var w := Run(Start, before);
      && e in w.entries && w.entries[e].phase == Fired && w.entries[e].hw != ""
      && BackOnLine(w.fleet, w.entries[e].number, w.entries[e].hw)
    ensures e !in Run(Run(Start, before), [Recheck(e, false)] + later).ended
  {
    RunKeeps(Start, before);
    var w := Run(Start, before);
    assert Presence.NewestOk(w.fleet, w.entries[e].hw);
    assert ([Recheck(e, false)] + later)[1..] == later;
    var w1 := Step(w, Recheck(e, false));
    StepKeeps(w, Recheck(e, false));
    assert w1.entries[e].phase == Kept;
    Forward(w1, later, e);
    assert EntryOk(Run(w1, later), e);
  }

  /** At event k the callback of e rechecked, and was not told the device is back. */
  ghost predicate SawOffline(events: seq<Event>, k: nat, e: nat) {
    && k < |events|
    && events[k].Recheck? && events[k].entry == e
    && e in Run(Start, events[..k]).entries
    && (events[k].redisError || !OnlineOnLine(Run(Start, events[..k]), e))
    && (events[k].redisError || Run(Start, events[..k]).entries[e].hw == ""
        || !BackOnLine(Run(Start, events[..k]).fleet, Run(Start, events[..k]).entries[e].number, Run(Start, events[..k]).entries[e].hw))
  }

  /** The other direction, over whole runs: every teardown follows a recheck at which the
      device was not back on the line (or presence could not be read). */
  lemma {:induction false} TeardownSawOffline(events: seq<Event>, e: nat)
    requires forall v | v in events :: Enabled(v)
    requires e in Run(Start, events).ended
    ensures exists k :: SawOffline(events, k, e)
  {
    RunKeeps(Start, events);
    assert EntryOk(Run(Start, events), e);
    assert Run(Start, events).entries[e].phase == Done;
    ExpiredSawOffline(events, e);
  }

  lemma {:induction false} RunSnoc(w: World, events: seq<Event>)
    requires events != []
    ensures Run(w, events) == Step(Run(w, events[..|events| - 1]), events[|events| - 1])
    decreases |events|
  {
    if |events| > 1 {
      assert events[1..][..|events| - 2] == events[..|events| - 1][1..];
      RunSnoc(Step(w, events[0]), events[1..]);
    }
  }

  lemma {:induction false} ExpiredSawOffline(events: seq<Event>, e: nat)
    requires forall v | v in events :: Enabled(v)
    requires e in Run(Start, events).entries && Run(Start, events).entries[e].phase in {Expired, Done}
    ensures exists k :: SawOffline(events, k, e)
    decreases |events|
  {
    if events != [] {
      var n: nat := |events| - 1;
      var before := events[..n];
      RunKeeps(Start, before);
      RunSnoc(Start, events);
      NewlyExpired(Run(Start, before), events[n], e);
      if Run(Start, before).entries[e].phase in {Expired, Done} {
        ExpiredSawOffline(before, e);
        var k :| SawOffline(before, k, e);
        SawOfflineExtends(events, k, n, e);
      } else {
        assert SawOffline(events, n, e);
      }
    }
  }

  lemma SawOfflineExtends(events: seq<Event>, k: nat, n: nat, e: nat)
    requires n <= |events| && SawOffline(events[..n], k, e)
    ensures SawOffline(events, k, e)
  {
    assert events[..n][..k] == events[..k];
  }

  /** Only a recheck that is not told the device is back lets an entry go on to a teardown. */
  lemma NewlyExpired(w: World, event: Event, e: nat)
    requires Inv(w) && e in Step(w, event).entries && Step(w, event).entries[e].phase in {Expired, Done}
    ensures e in w.entries
    ensures w.entries[e].phase in {Expired, Done} ||
      (event.Recheck? && event.entry == e
       && (event.redisError || !OnlineOnLine(w, e))
       && (event.redisError || w.entries[e].hw == "" || !BackOnLine(w.fleet, w.entries[e].number, w.entries[e].hw)))
  {
    if e in w.entries {
      OneStepForward(w, event, e);
      assert Presence.NewestOk(w.fleet, w.entries[e].hw);
    }
  }

  // ---- who arms ----

  /** OnConnClosed: a displaced connection stops at ConnIsCurrent. `holdsCall` is OnDisconnect's
      finding that the last device of a line in a two-party call is leaving. */
  function OnConnClosed(w: World, pod: Pod, hw: Hardware, id: nat, holdsCall: bool): World {
    if (pod, hw) !in w.fleet.sessions || w.fleet.sessions[(pod, hw)].id != id then w
    else if holdsCall then ArmTimer(w, pod, w.fleet.sessions[(pod, hw)].number, hw)
    else w
  }

  /** After a device reconnected on the same pod, its old connection's late close arms
      nothing, whatever happened in between. */
  lemma LateCloseArmsNothing(w: World, pod: Pod, hw: Hardware, number: Number, later: seq<Event>, id: nat, holdsCall: bool)
    requires Inv(w) && (pod, hw) in w.fleet.sessions && w.fleet.sessions[(pod, hw)].id == id
    ensures var w' := Run(Step(w, Fleet(Presence.Connect(pod, hw, number))), later);
      OnConnClosed(w', pod, hw, id, holdsCall) == w'
  {
    Displaced(Step(w, Fleet(Presence.Connect(pod, hw, number))), later, pod, hw, id);
  }

  lemma {:induction false} Displaced(w: World, later: seq<Event>, pod: Pod, hw: Hardware, id: nat)
    requires id < w.fleet.nextID && ((pod, hw) in w.fleet.sessions ==> w.fleet.sessions[(pod, hw)].id != id)
    ensures var f := Run(w, later).fleet; (pod, hw) in f.sessions ==> f.sessions[(pod, hw)].id != id
    decreases |later|
  {
    if later != [] {
      Displaced(Step(w, later[0]), later[1..], pod, hw, id);
    }
  }

  // ---- one pod's timers ----

  class GraceEntry {
    const key: Key
    var canceled: bool
    ghost var fired: bool

    constructor (key: Key)
      ensures this.key == key && !canceled && !fired
    {
      this.key, canceled, fired := key, false, false;
    }
  }

  class GraceTimers {
    var graceTimers: map<Key, GraceEntry>
    ghost var entries: set<GraceEntry>   // every entry made so far

    constructor ()
      ensures Valid() && graceTimers == map[]
    {
      graceTimers, entries := map[], {};
    }

    /** The map holds exactly the entries neither cancelled nor fired, under their keys. */
    ghost predicate Valid()
      reads this, entries
    {
      && (forall k | k in graceTimers ::
            graceTimers[k] in entries && graceTimers[k].key == k && !graceTimers[k].canceled && !graceTimers[k].fired)
      && (forall e | e in entries && !e.canceled && !e.fired :: e.key in graceTimers && graceTimers[e.key] == e)
    }

    /** startGraceTimer up to unlocking: the superseded entry is cancelled, no other one. */
    method StartGraceTimer(number: Number, hw: Hardware) returns (entry: GraceEntry)
      requires Valid()
      modifies this, entries`canceled
      ensures Valid() && fresh(entry) && !entry.canceled && !entry.fired
      ensures graceTimers == old(graceTimers)[GraceKey(number, hw) := entry]
      ensures entries == old(entries) + {entry}
      ensures forall e | e in old(entries) ::
          e.canceled <==> old(e.canceled) || (GraceKey(number, hw) in old(graceTimers) && e == old(graceTimers)[GraceKey(number, hw)])
    {
      var key := GraceKey(number, hw);
      if key in graceTimers {
        graceTimers[key].canceled := true;
      }
      entry := new GraceEntry(key);
      graceTimers := graceTimers[key := entry];
      entries := entries + {entry};
    }

    method CancelGraceLocal(number: Number, hw: Hardware) returns (found: bool)
      requires Valid()
      modifies this`graceTimers, entries`canceled
      ensures Valid()
      ensures found <==> GraceKey(number, hw) in old(graceTimers)
      ensures graceTimers == old(graceTimers) - {GraceKey(number, hw)}
      ensures forall e | e in entries ::
          e.canceled <==> old(e.canceled) || (found && e == old(graceTimers)[GraceKey(number, hw)])
    {
      var key := GraceKey(number, hw);
      found := key in graceTimers;
      if found {
        graceTimers[key].canceled := true;
        graceTimers := graceTimers - {key};
      } else {
        assert graceTimers - {key} == graceTimers;
      }
    }

    /** The callback's critical section. The code deletes whatever is under the key; that is
        this very entry. */
    method Fire(entry: GraceEntry) returns (go: bool)
      requires Valid() && entry in entries && !entry.fired
      modifies this`graceTimers, entry`fired
      ensures Valid() && entry.fired
      ensures go <==> !entry.canceled
      ensures go ==> entry.key in old(graceTimers) && old(graceTimers)[entry.key] == entry
      ensures graceTimers == if go then old(graceTimers) - {entry.key} else old(graceTimers)
    {
      entry.fired := true;
      if entry.canceled {
        return false;
      }
      graceTimers := graceTimers - {entry.key};
      go := true;
    }
  }
}
