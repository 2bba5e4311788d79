/** Presence of devices across the fleet: every pod's registered connections, and the Redis
    record and line sets they share. One step is a hub mutation with its Redis call; pods
    interleave freely. */
module Presence {
  import opened Basics

  type Pod = string
  type Hardware = string
  type Number = string

  /** A registered connection: its identity, and the number it registered under. */
  datatype Session = Session(id: nat, number: Number)

  /** A device hash; fields that were never written are absent. */
  datatype Record = Record(pod: Option<Pod>, number: Option<Number>)

  /** The device hashes, and which devices each line set contains. */
  datatype Shared = Shared(records: map<Hardware, Record>, lines: set<(Number, Hardware)>)

  function SetOnline(r: Shared, pod: Pod, number: Number, hw: Hardware): Shared {
    Shared(r.records[hw := Record(Some(pod), Some(number))], r.lines + {(number, hw)})
  }

  /** The SetOffline script. */
  function SetOffline(r: Shared, pod: Pod, number: Number, hw: Hardware): Shared {
    var rec := if hw in r.records then r.records[hw] else Record(None, None);
    if rec.number.Some? && rec.number.value != number then
      r.(lines := r.lines - {(number, hw)})
    else if rec.pod.None? || rec.pod.value == "" || rec.pod.value == pod then
      Shared(r.records - {hw}, r.lines - {(number, hw)})
    else r
  }

  /** A heartbeat or a device_info update: writes other fields, creating the hash if need be. */
  function Touch(r: Shared, hw: Hardware): Shared {
    if hw in r.records then r else r.(records := r.records[hw := Record(None, None)])
  }

  /** Register's Redis calls; `evicted` is the number of the connection it displaced. */
  function Announce(r: Shared, pod: Pod, number: Number, hw: Hardware, evicted: Option<Number>): Shared {
    var online := SetOnline(r, pod, number, hw);
    if evicted.Some? && evicted.value != number && evicted.value != "" then SetOffline(online, pod, evicted.value, hw) else online
  }

  predicate HardwareOnlineOnLine(r: Shared, number: Number, hw: Hardware) {
    hw in r.records && r.records[hw].number == Some(number)
  }

  predicate IsHardwareOnline(r: Shared, hw: Hardware) {
    hw in r.records
  }

  ghost predicate IsOnline(r: Shared, number: Number) {
    exists hw :: (number, hw) in r.lines
  }

  datatype Fleet = Fleet(
    sessions: map<(Pod, Hardware), Session>,
    shared: Shared,
    nextID: nat,
    newest: map<Hardware, (Pod, nat)>)   // history: each device's latest registration

  const NoDevices := Fleet(map[], Shared(map[], {}), 0, map[])

  datatype Event =
    | Connect(pod: Pod, hw: Hardware, number: Number)
    | Unwind(pod: Pod, hw: Hardware, id: nat)
    | Heartbeat(pod: Pod, hw: Hardware)

  function Register(f: Fleet, pod: Pod, hw: Hardware, number: Number): Fleet {
    var evicted := if (pod, hw) in f.sessions then Some(f.sessions[(pod, hw)].number) else None;
    Fleet(f.sessions[(pod, hw) := Session(f.nextID, number)],
          Announce(f.shared, pod, number, hw, evicted),
          f.nextID + 1,
          f.newest[hw := (pod, f.nextID)])
  }

  /** A closed socket unregisters; if it was displaced before, nothing happens. */
  function Unregister(f: Fleet, pod: Pod, hw: Hardware, id: nat): Fleet {
    if (pod, hw) in f.sessions && f.sessions[(pod, hw)].id == id then
      f.(sessions := f.sessions - {(pod, hw)},
         shared := SetOffline(f.shared, pod, f.sessions[(pod, hw)].number, hw))
    else f
  }

  function Step(f: Fleet, e: Event): Fleet {
    match e
    case Connect(pod, hw, number) => Register(f, pod, hw, number)
    case Unwind(pod, hw, id) => Unregister(f, pod, hw, id)
    case Heartbeat(pod, hw) => if (pod, hw) in f.sessions then f.(shared := Touch(f.shared, hw)) else f
  }

  /** Pods have names, as os.Hostname or the fallback "unknown" give them, and lines numbers;
      a connection without a hardware id is not in the store. */
  ghost predicate Enabled(e: Event) {
    e.pod != "" && e.hw != "" && (e.Connect? ==> e.number != "")
  }

  // ---- the invariant ----

  ghost predicate On(f: Fleet, pod: Pod, hw: Hardware, number: Number) {
    (pod, hw) in f.sessions && f.sessions[(pod, hw)].number == number
  }

  ghost predicate NewestRegistered(f: Fleet, hw: Hardware) {
    hw in f.newest && (f.newest[hw].0, hw) in f.sessions && f.sessions[(f.newest[hw].0, hw)].id == f.newest[hw].1
  }

  /** A record with a number names a registered connection of its pod on that number. */
  ghost predicate RecordOk(f: Fleet, hw: Hardware) {
    hw in f.shared.records ==>
      var rec := f.shared.records[hw];
      && (rec.number.Some? <==> rec.pod.Some?)
      && (rec.number.Some? ==> rec.pod.value != "" && On(f, rec.pod.value, hw, rec.number.value))
      && exists pod :: (pod, hw) in f.sessions
  }

  ghost predicate Backed(f: Fleet, number: Number, hw: Hardware) {
    exists pod :: On(f, pod, hw, number)
  }

  ghost predicate NewestOk(f: Fleet, hw: Hardware) {
    NewestRegistered(f, hw) ==>
      var pod := f.newest[hw].0;
      var number := f.sessions[(pod, hw)].number;
      hw in f.shared.records && f.shared.records[hw] == Record(Some(pod), Some(number)) && (number, hw) in f.shared.lines
  }

  ghost predicate Inv(f: Fleet) {
    && (forall k | k in f.sessions :: f.sessions[k].id < f.nextID && k.0 != "" && f.sessions[k].number != "")
    && (forall hw :: RecordOk(f, hw))
    && (forall number, hw | (number, hw) in f.shared.lines :: Backed(f, number, hw))
    && (forall hw :: NewestOk(f, hw))
  }

  /** Redis changes that leave other devices alone leave what is known of them. */
  lemma OtherDevice(f: Fleet, f': Fleet, hw: Hardware)
    requires Inv(f)
    requires forall pod :: (pod, hw) in f'.sessions <==> (pod, hw) in f.sessions
    requires forall pod | (pod, hw) in f.sessions :: f'.sessions[(pod, hw)] == f.sessions[(pod, hw)]
    requires hw in f'.shared.records <==> hw in f.shared.records
    requires hw in f.shared.records ==> f'.shared.records[hw] == f.shared.records[hw]
    requires forall number :: (number, hw) in f'.shared.lines <==> (number, hw) in f.shared.lines
    requires hw in f'.newest <==> hw in f.newest
    requires hw in f.newest ==> f'.newest[hw] == f.newest[hw]
    ensures RecordOk(f', hw) && NewestOk(f', hw)
    ensures forall number | (number, hw) in f'.shared.lines :: Backed(f', number, hw)
  {
    assert RecordOk(f, hw) && NewestOk(f, hw);
    if hw in f.shared.records {
      var pod :| (pod, hw) in f.sessions;
      assert (pod, hw) in f'.sessions;
      var rec := f.shared.records[hw];
      assert rec.number.Some? ==> On(f', rec.pod.value, hw, rec.number.value);
    }
    forall number | (number, hw) in f'.shared.lines ensures Backed(f', number, hw) {
      assert Backed(f, number, hw);
      var pod :| On(f, pod, hw, number);
      assert On(f', pod, hw, number);
    }
  }

  lemma RegisterKeeps(f: Fleet, pod: Pod, hw: Hardware, number: Number)
    requires Inv(f) && pod != "" && number != ""
    ensures Inv(Register(f, pod, hw, number))
  {
    var f' := Register(f, pod, hw, number);
    assert On(f', pod, hw, number);
    assert f'.shared.records[hw] == Record(Some(pod), Some(number));
    forall other ensures RecordOk(f', other) && NewestOk(f', other) {
      if other != hw { OtherDevice(f, f', other); }
    }
    forall n, other | (n, other) in f'.shared.lines ensures Backed(f', n, other) {
      if other != hw {
        OtherDevice(f, f', other);
      } else if n != number {
        assert Backed(f, n, hw);
        var p :| On(f, p, hw, n);
        assert p == pod ==> (n, hw) !in f'.shared.lines;
        assert On(f', p, hw, n);
      }
    }
  }

  lemma UnregisterKeeps(f: Fleet, pod: Pod, hw: Hardware, id: nat)
    requires Inv(f)
    ensures Inv(Unregister(f, pod, hw, id))
  {
    var f' := Unregister(f, pod, hw, id);
    if f' != f {
      var number := f.sessions[(pod, hw)].number;
      assert RecordOk(f, hw) && NewestOk(f, hw);
      forall other ensures RecordOk(f', other) && NewestOk(f', other) {
        if other != hw {
          OtherDevice(f, f', other);
        } else if hw in f'.shared.records {
          var rec := f.shared.records[hw];
          assert rec.number.Some? && On(f, rec.pod.value, hw, rec.number.value) && rec.pod.value != pod;
          assert On(f', rec.pod.value, hw, rec.number.value);
        }
      }
      forall n, other | (n, other) in f'.shared.lines ensures Backed(f', n, other) {
        if other != hw {
          OtherDevice(f, f', other);
        } else {
          assert Backed(f, n, hw);
          if n == number {
            var rec := f.shared.records[hw];
            assert On(f', rec.pod.value, hw, n);
          } else {
            var p :| On(f, p, hw, n);
            assert On(f', p, hw, n);
          }
        }
      }
    }
  }

  lemma HeartbeatKeeps(f: Fleet, pod: Pod, hw: Hardware)
    requires Inv(f)
    ensures Inv(Step(f, Heartbeat(pod, hw)))
  {
    var f' := Step(f, Heartbeat(pod, hw));
    forall other ensures RecordOk(f', other) && NewestOk(f', other) {
      assert RecordOk(f, other) && NewestOk(f, other);
      if other != hw { OtherDevice(f, f', other); }
      else if hw in f.shared.records { OtherDevice(f, f', hw); }
    }
    forall n, other | (n, other) in f'.shared.lines ensures Backed(f', n, other) {
      assert Backed(f, n, other);
      var p :| On(f, p, other, n);
      assert On(f', p, other, n);
    }
  }

  lemma StepKeeps(f: Fleet, e: Event)
    requires Inv(f) && Enabled(e)
    ensures Inv(Step(f, e))
  {
    match e
    case Connect(pod, hw, number) => RegisterKeeps(f, pod, hw, number);
    case Unwind(pod, hw, id) => UnregisterKeeps(f, pod, hw, id);
    case Heartbeat(pod, hw) => HeartbeatKeeps(f, pod, hw);
  }

  // ---- runs ----

  function Run(f: Fleet, events: seq<Event>): Fleet
    decreases |events|
  {
    if events == [] then f else Run(Step(f, events[0]), events[1..])
  }

  lemma {:induction false} RunKeeps(f: Fleet, events: seq<Event>)
    requires Inv(f) && forall e | e in events :: Enabled(e)
    ensures Inv(Run(f, events))
    decreases |events|
  {
    if events != [] {
      StepKeeps(f, events[0]);
      RunKeeps(Step(f, events[0]), events[1..]);
    }
  }

  /** While its newest connection is registered a device is online on that line, whatever
      its older sockets on other pods do and in whatever order. */
  lemma NewestIsOnline(events: seq<Event>, hw: Hardware)
    requires forall e | e in events :: Enabled(e)
    ensures var f := Run(NoDevices, events);
      NewestRegistered(f, hw) ==>
        var number := f.sessions[(f.newest[hw].0, hw)].number;
        && HardwareOnlineOnLine(f.shared, number, hw)
        && f.shared.records[hw] == Record(Some(f.newest[hw].0), Some(number))
        && IsOnline(f.shared, number)
  {
    RunKeeps(NoDevices, events);
    assert NewestOk(Run(NoDevices, events), hw);
  }

  /** A line is online only through a connection registered on it, somewhere. */
  lemma OnlineIsBacked(events: seq<Event>, number: Number, hw: Hardware)
    requires forall e | e in events :: Enabled(e)
    requires (number, hw) in Run(NoDevices, events).shared.lines
    ensures exists pod :: On(Run(NoDevices, events), pod, hw, number)
  {
    RunKeeps(NoDevices, events);
    assert Backed(Run(NoDevices, events), number, hw);
  }

  /** Once no pod holds a connection of the device, its record and memberships are gone. */
  lemma GoneIsGone(events: seq<Event>, hw: Hardware)
    requires forall e | e in events :: Enabled(e)
    requires forall pod :: (pod, hw) !in Run(NoDevices, events).sessions
    ensures !IsHardwareOnline(Run(NoDevices, events).shared, hw)
    ensures forall number :: (number, hw) !in Run(NoDevices, events).shared.lines
  {
    var f := Run(NoDevices, events);
    RunKeeps(NoDevices, events);
    assert RecordOk(f, hw);
    forall number ensures (number, hw) !in f.shared.lines {
      assert (number, hw) in f.shared.lines ==> Backed(f, number, hw);
    }
  }

  /** A displaced connection's late unwind changes nothing. */
  lemma LateUnwindIsNoOp(f: Fleet, pod: Pod, hw: Hardware, number: Number, later: seq<Event>, id: nat)
    requires Inv(f) && (pod, hw) in f.sessions && f.sessions[(pod, hw)].id == id
    ensures var f' := Run(Register(f, pod, hw, number), later);
      Unregister(f', pod, hw, id) == f'
  {
    NeverAgain(Register(f, pod, hw, number), later, pod, hw, id);
  }

  lemma {:induction false} NeverAgain(f: Fleet, later: seq<Event>, pod: Pod, hw: Hardware, id: nat)
    requires id < f.nextID && ((pod, hw) in f.sessions ==> f.sessions[(pod, hw)].id != id)
    ensures var f' := Run(f, later); (pod, hw) in f'.sessions ==> f'.sessions[(pod, hw)].id != id
    decreases |later|
  {
    if later != [] {
      NeverAgain(Step(f, later[0]), later[1..], pod, hw, id);
    }
  }

  // ---- when exactly the record exists ----

  /** A record with a number; one without is left by a heartbeat of an older connection. */
  predicate Numbered(r: Shared, hw: Hardware) {
    hw in r.records && r.records[hw].number.Some?
  }

  ghost predicate NumberedIsNewest(f: Fleet) {
    forall hw | Numbered(f.shared, hw) :: NewestRegistered(f, hw)
  }

  ghost predicate AllNumbered(f: Fleet) {
    forall hw | hw in f.shared.records :: Numbered(f.shared, hw)
  }

  lemma StepKeepsNumbered(f: Fleet, e: Event)
    requires Inv(f) && NumberedIsNewest(f) && Enabled(e)
    ensures NumberedIsNewest(Step(f, e))
    ensures AllNumbered(f) && !e.Heartbeat? ==> AllNumbered(Step(f, e))
  {
    var f' := Step(f, e);
    forall hw | Numbered(f'.shared, hw) ensures NewestRegistered(f', hw) {
      if hw != e.hw || !e.Connect? {
        assert RecordOk(f, hw) && NewestOk(f, hw);
        assert Numbered(f.shared, hw);
      }
    }
  }

  lemma {:induction false} RunKeepsNumbered(f: Fleet, events: seq<Event>)
    requires Inv(f) && NumberedIsNewest(f) && forall e | e in events :: Enabled(e)
    ensures NumberedIsNewest(Run(f, events)) && Inv(Run(f, events))
    ensures AllNumbered(f) && (forall e | e in events :: !e.Heartbeat?) ==> AllNumbered(Run(f, events))
    decreases |events|
  {
    if events != [] {
      StepKeeps(f, events[0]);
      StepKeepsNumbered(f, events[0]);
      RunKeepsNumbered(Step(f, events[0]), events[1..]);
    }
  }

  /** A record that names a line exists exactly while the device's newest connection is
      registered; and without heartbeats there is no other kind of record. */
  lemma RecordExactlyWhileNewest(events: seq<Event>, hw: Hardware)
    requires forall e | e in events :: Enabled(e)
    ensures var f := Run(NoDevices, events);
      && (Numbered(f.shared, hw) <==> NewestRegistered(f, hw))
      && ((forall e | e in events :: !e.Heartbeat?) ==> (IsHardwareOnline(f.shared, hw) <==> NewestRegistered(f, hw)))
  {
    RunKeepsNumbered(NoDevices, events);
    assert NewestOk(Run(NoDevices, events), hw);
  }

  /** So "exists exactly while the device is connected" fails when the newest connection
      unwinds before an older one: the device is connected, yet nothing records it. */
  lemma ConnectedButUnrecorded(a: Pod, b: Pod, hw: Hardware, number: Number)
    requires a != b && a != "" && b != ""
    ensures var f := Run(NoDevices, [Connect(a, hw, number), Connect(b, hw, number), Unwind(b, hw, 1)]);
      On(f, a, hw, number) && !IsHardwareOnline(f.shared, hw) && !IsOnline(f.shared, number)
  {
    var e1, e2, e3 := Connect(a, hw, number), Connect(b, hw, number), Unwind(b, hw, 1);
    var f1 := Step(NoDevices, e1);
    var f2 := Step(f1, e2);
    var f3 := Step(f2, e3);
    assert [e1, e2, e3][1..] == [e2, e3] && [e2, e3][1..] == [e3] && [e3][1..] == [];
    assert Run(NoDevices, [e1, e2, e3]) == Run(f1, [e2, e3]) == Run(f2, [e3]) == Run(f3, []);
  }
}
