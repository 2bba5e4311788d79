/** The connection registry of one pod: number buckets and hardware index over shared
    connection objects, whose send channels are closed when they leave. */
module Hub {
  import opened Basics
  import opened Presence

  /** A queued frame; None is the nil close sentinel. */
  type Frame = Option<string>

  type Buckets = map<Number, seq<Conn>>

  /** A buffered channel takes a frame while it has room. */
  function Offered<T>(queue: seq<T>, capacity: nat, f: T): seq<T> {
    if |queue| < capacity then queue + [f] else queue
  }

  /** The number is fixed for the life of a connection: Register writes it once. */
  class Conn {
    const hardwareID: Hardware
    const number: Number
    const id: nat
    const capacity: nat
    var open: bool
    var queue: seq<Frame>

    constructor (hardwareID: Hardware, number: Number, id: nat, capacity: nat, greeting: seq<Frame>)
      requires |greeting| <= capacity
      ensures this.hardwareID == hardwareID && this.number == number && this.id == id && this.capacity == capacity
      ensures open && queue == greeting
    {
      this.hardwareID, this.number, this.id, this.capacity := hardwareID, number, id, capacity;
      open, queue := true, greeting;
    }

    /** Closing a closed channel panics, so callers must know it is open. */
    method Close()
      requires open
      modifies this`open
      ensures !open
    {
      open := false;
    }

    /** A non-blocking send; sending on a closed channel panics. */
    method Offer(f: Frame) returns (sent: bool)
      requires open
      modifies this`queue
      ensures queue == Offered(old(queue), capacity, f)
      ensures sent <==> |old(queue)| < capacity
    {
      sent := |queue| < capacity;
      if sent {
        queue := queue + [f];
      }
    }
  }

  /** The Redis presence store all pods share. */
  class DeviceState {
    var shared: Shared

    constructor ()
      ensures shared == Shared(map[], {})
    {
      shared := Shared(map[], {});
    }

    method SetOnline(pod: Pod, number: Number, hw: Hardware)
      modifies this
      ensures shared == if hw == "" then old(shared) else Presence.SetOnline(old(shared), pod, number, hw)
    {
      if hw == "" {
        return;
      }
      shared := shared.(records := shared.records[hw := Record(Some(pod), Some(number))]);
      shared := shared.(lines := shared.lines + {(number, hw)});
    }

    method SetOffline(pod: Pod, number: Number, hw: Hardware)
      modifies this
      ensures shared == if hw == "" then old(shared) else Presence.SetOffline(old(shared), pod, number, hw)
    {
      if hw == "" {
        return;
      }
      var rec := if hw in shared.records then shared.records[hw] else Record(None, None);
      if rec.number.Some? && rec.number.value != number {
        shared := shared.(lines := shared.lines - {(number, hw)});
        return;
      }
      if rec.pod.None? || rec.pod.value == "" || rec.pod.value == pod {
        shared := shared.(records := shared.records - {hw});
        shared := shared.(lines := shared.lines - {(number, hw)});
      }
    }
  }

  function IndexOf(s: seq<Conn>, c: Conn): (i: nat)
    requires c in s
    ensures i < |s| && s[i] == c && c !in s[..i]
  {
    if s[0] == c then 0 else 1 + IndexOf(s[1..], c)
  }

  /** The buckets after c left n's bucket; an emptied bucket goes. */
  function Without(b: Buckets, n: Number, c: Conn): Buckets {
    if n !in b || c !in b[n] then b
    else
      var rest := b[n][..IndexOf(b[n], c)] + b[n][IndexOf(b[n], c) + 1..];
      if rest == [] then b - {n} else b[n := rest]
  }

  function With(b: Buckets, n: Number, c: Conn): Buckets {
    b[n := (if n in b then b[n] else []) + [c]]
  }

  function Evicted(b: Buckets, previous: Option<Conn>): Buckets {
    if previous.Some? then Without(b, previous.value.number, previous.value) else b
  }

  function Holder(previous: Option<Conn>): set<Conn> {
    if previous.Some? then {previous.value} else {}
  }

  function NumberOf(previous: Option<Conn>): Option<Number> {
    if previous.Some? then Some(previous.value.number) else None
  }

  function Bucket(b: Buckets, n: Number): seq<Conn> {
    if n in b then b[n] else []
  }

  ghost predicate Distinct(s: seq<Conn>) {
    forall i, j | 0 <= i < j < |s| :: s[i] != s[j]
  }

  ghost predicate In(b: Buckets, n: Number, older c: Conn) {
    n in b && c in b[n]
  }

  ghost predicate BucketsOk(b: Buckets) {
    forall n | n in b :: b[n] != [] && Distinct(b[n])
  }

  lemma RemovalIsExact(s: seq<Conn>, c: Conn)
    requires c in s && Distinct(s)
    ensures var rest := s[..IndexOf(s, c)] + s[IndexOf(s, c) + 1..];
      Distinct(rest) && forall d :: d in rest <==> d in s && d != c
  {
    var i := IndexOf(s, c);
    var rest := s[..i] + s[i + 1..];
    forall d | d in s && d != c ensures d in rest {
      var k :| 0 <= k < |s| && s[k] == d;
      assert rest[if k < i then k else k - 1] == d;
    }
  }

  /** Both indexes describe the registered connections: each sits in its number's bucket and,
      if it names a device, is that device's only connection. */
  ghost predicate Indexed(conns: Buckets, hwConns: map<Hardware, Conn>, registered: set<Conn>) {
    && BucketsOk(conns)
    && (forall n, c | In(conns, n, c) :: c in registered && c.number == n)
    && (forall c | c in registered :: In(conns, c.number, c))
    && (forall c | c in registered && c.hardwareID != "" :: c.hardwareID in hwConns && hwConns[c.hardwareID] == c)
    && (forall h | h in hwConns :: h != "" && hwConns[h] in registered && hwConns[h].hardwareID == h)
  }

  lemma WithoutIs(b: Buckets, n: Number, c: Conn)
    requires BucketsOk(b) && In(b, n, c)
    ensures BucketsOk(Without(b, n, c))
    ensures forall m, d :: In(Without(b, n, c), m, d) <==> In(b, m, d) && !(m == n && d == c)
  {
    RemovalIsExact(b[n], c);
  }

  lemma WithIs(b: Buckets, n: Number, c: Conn)
    requires BucketsOk(b) && !In(b, n, c)
    ensures BucketsOk(With(b, n, c))
    ensures forall m, d :: In(With(b, n, c), m, d) <==> In(b, m, d) || (m == n && d == c)
  {
  }

  lemma IndexedWithout(conns: Buckets, hwConns: map<Hardware, Conn>, registered: set<Conn>, n: Number, c: Conn)
    requires Indexed(conns, hwConns, registered) && In(conns, n, c)
    ensures c in registered && c.number == n
    ensures c.hardwareID != "" ==> c.hardwareID in hwConns && hwConns[c.hardwareID] == c
    ensures Indexed(Without(conns, n, c), hwConns - {c.hardwareID}, registered - {c})
  {
    WithoutIs(conns, n, c);
  }

  lemma IndexedWith(conns: Buckets, hwConns: map<Hardware, Conn>, registered: set<Conn>, c: Conn)
    requires Indexed(conns, hwConns, registered) && c !in registered && c.hardwareID !in hwConns
    ensures Indexed(With(conns, c.number, c),
                    if c.hardwareID == "" then hwConns else hwConns[c.hardwareID := c], registered + {c})
  {
    WithIs(conns, c.number, c);
  }

  function SessionsOf(hwConns: map<Hardware, Conn>): map<Hardware, Session> {
    map h | h in hwConns :: Session(hwConns[h].id, hwConns[h].number)
  }

  lemma SessionsWithout(hwConns: map<Hardware, Conn>, hw: Hardware)
    ensures SessionsOf(hwConns - {hw}) == SessionsOf(hwConns) - {hw}
  {
  }

  /** The hub's hardware index is what the fleet model says this pod registered. */
  ghost predicate Represents(f: Fleet, pod: Pod, hwConns: map<Hardware, Conn>) {
    forall h :: ((pod, h) in f.sessions <==> h in hwConns)
      && (h in hwConns ==> f.sessions[(pod, h)] == Session(hwConns[h].id, hwConns[h].number))
  }

  /** Register and Unregister are the fleet's Connect and Unwind steps. */
  lemma RegisterRefines(f: Fleet, pod: Pod, hwConns: map<Hardware, Conn>, c: Conn)
    requires Represents(f, pod, hwConns) && c.id == f.nextID && c.hardwareID != ""
    ensures var f' := Step(f, Connect(pod, c.hardwareID, c.number));
      && Represents(f', pod, hwConns[c.hardwareID := c])
      && f'.shared == Announce(f.shared, pod, c.number, c.hardwareID,
           NumberOf(if c.hardwareID in hwConns then Some(hwConns[c.hardwareID]) else None))
  {
    assert (pod, c.hardwareID) in f.sessions <==> c.hardwareID in hwConns;
  }

  lemma UnregisterRefines(f: Fleet, pod: Pod, hwConns: map<Hardware, Conn>, c: Conn)
    requires Represents(f, pod, hwConns) && c.hardwareID in hwConns
    requires hwConns[c.hardwareID] != c ==> hwConns[c.hardwareID].id != c.id
    ensures var f' := Step(f, Unwind(pod, c.hardwareID, c.id));
      && (hwConns[c.hardwareID] == c ==>
            Represents(f', pod, hwConns - {c.hardwareID})
            && f'.shared == Presence.SetOffline(f.shared, pod, c.number, c.hardwareID))
      && (hwConns[c.hardwareID] != c ==> f' == f)
  {
    assert (pod, c.hardwareID) in f.sessions;
  }

  /** The same offer to every connection of a line. */
  method OfferEach(line: seq<Conn>, data: string)
    requires Distinct(line) && forall c | c in line :: c.open
    modifies set c | c in line
    ensures forall c | c in line :: c.queue == Offered(old(c.queue), c.capacity, Some(data))
    ensures forall c | c in line :: c.open
  {
    for i := 0 to |line|
      invariant forall j | 0 <= j < |line| :: line[j].open
      invariant forall j | 0 <= j < i :: line[j].queue == Offered(old(line[j].queue), line[j].capacity, Some(data))
      invariant forall j | i <= j < |line| :: line[j].queue == old(line[j].queue)
    {
      var sent := line[i].Offer(Some(data));
    }
  }

  /** The connections of a line that have room. */
  ghost function Takers(line: seq<Conn>, room: set<Conn>): set<Conn> {
    set c | c in line && c in room
  }

  method OfferNew(line: seq<Conn>, data: string, delivered: set<Conn>, ghost room: set<Conn>)
    returns (delivered': set<Conn>, pending: bool)
    requires Distinct(line) && forall c | c in line :: c.open
    requires forall c | c in line :: c in room <==> |c.queue| < c.capacity
    modifies set c | c in line
    ensures forall c | c in line :: c.open
    ensures forall c | c in line ::
      c.queue == (if c !in delivered then Offered(old(c.queue), c.capacity, Some(data)) else old(c.queue))
    ensures delivered' == delivered + Takers(line, room)
    ensures pending <==> exists c :: c in line && c !in delivered'
  {
    delivered', pending := delivered, false;
    for i := 0 to |line|
      invariant forall j | 0 <= j < |line| :: line[j].open
      invariant forall j | 0 <= j < i ::
        line[j].queue == (if line[j] !in delivered then Offered(old(line[j].queue), line[j].capacity, Some(data)) else old(line[j].queue))
      invariant forall j | i <= j < |line| :: line[j].queue == old(line[j].queue)
      invariant delivered' == delivered + Takers(line[..i], room - delivered)
      invariant pending <==> exists j :: 0 <= j < i && line[j] !in delivered'
    {
      if line[i] !in delivered' {
        var sent := line[i].Offer(Some(data));
        if sent {
          delivered' := delivered' + {line[i]};
        } else {
          pending := true;
        }
      }
    }
  }

  method CloseEach(line: seq<Conn>, farewell: Frame)
    requires Distinct(line) && forall c | c in line :: c.open
    modifies set c | c in line
    ensures forall c | c in line :: c.queue == ClosingFrames(old(c.queue), c.capacity, farewell)
    ensures forall c | c in line :: c.open
  {
    for i := 0 to |line|
      invariant forall j | 0 <= j < |line| :: line[j].open
      invariant forall j | 0 <= j < i :: line[j].queue == ClosingFrames(old(line[j].queue), line[j].capacity, farewell)
      invariant forall j | i <= j < |line| :: line[j].queue == old(line[j].queue)
    {
      var queued := CloseConn(line[i], farewell);
    }
  }

  /** closeConn: the farewell, when there is one, and then the sentinel; false when the
      sentinel did not fit and has to be offered again later. */
  method CloseConn(c: Conn, farewell: Frame) returns (queued: bool)
    requires c.open
    modifies c`queue
    ensures c.queue == ClosingFrames(old(c.queue), c.capacity, farewell)
    ensures queued <==> |Offered(old(c.queue), c.capacity, farewell)| < c.capacity || (farewell.None? && |old(c.queue)| < c.capacity)
  {
    if farewell.Some? {
      var sent := c.Offer(farewell);
    }
    queued := c.Offer(None);
  }

  /** Dropping one handset's voicemail count, and the line's map with the last of them. */
  function DropCount(v: map<Number, map<Hardware, nat>>, n: Number, hw: Hardware): map<Number, map<Hardware, nat>> {
    if hw == "" || n !in v then v
    else if v[n] - {hw} == map[] then v - {n}
    else v[n := v[n] - {hw}]
  }

  class Registry {
    var conns: Buckets
    var hwConns: map<Hardware, Conn>
    var voicemail: map<Number, map<Hardware, nat>>
    var draining: bool
    ghost var registered: set<Conn>
    const pod: Pod
    const state: DeviceState

    constructor (pod: Pod, state: DeviceState)
      ensures Valid() && registered == {} && Sessions() == map[]
      ensures this.pod == pod && this.state == state && !draining
    {
      conns, hwConns, voicemail, draining := map[], map[], map[], false;
      registered := {};
      this.pod, this.state := pod, state;
    }

    /** No bucket is empty or holds a duplicate, the two indexes describe the same
        connections, and every registered connection's channel is open. */
    ghost predicate Valid()
      reads this, registered
    {
      Indexed(conns, hwConns, registered) && forall c | c in registered :: c.open
    }

    /** What this pod contributes to the fleet's presence. */
    ghost function Sessions(): map<Hardware, Session>
      reads this
    {
      SessionsOf(hwConns)
    }

    /** removeLocked: takes c out of n's bucket and closes its channel, if it is there. */
    method RemoveLocked(n: Number, c: Conn) returns (changed: bool)
      requires Valid()
      modifies this, c`open
      ensures Valid() && draining == old(draining)
      ensures changed <==> In(old(conns), n, c)
      ensures !changed ==> unchanged(this) && unchanged(c)
      ensures changed ==>
        && !c.open && c.number == n
        && conns == Without(old(conns), n, c)
        && registered == old(registered) - {c}
        && hwConns == old(hwConns) - {c.hardwareID}
        && voicemail == DropCount(old(voicemail), n, c.hardwareID)
    {
      if n !in conns || c !in conns[n] {
        return false;
      }
      assert In(conns, n, c);
      IndexedWithout(conns, hwConns, registered, n, c);
      c.Close();
      TakeFromBucket(n, c);
      registered := registered - {c};
      DropDevice(n, c);
      changed := true;
    }

    method TakeFromBucket(n: Number, c: Conn)
      requires In(conns, n, c)
      modifies this`conns
      ensures conns == Without(old(conns), n, c)
    {
      var i := IndexOf(conns[n], c);
      conns := conns[n := conns[n][..i] + conns[n][i + 1..]];
      if |conns[n]| == 0 {
        conns := conns - {n};
      }
    }

    method DropDevice(n: Number, c: Conn)
      requires c.hardwareID != "" ==> c.hardwareID in hwConns
      requires "" !in hwConns
      modifies this`hwConns, this`voicemail
      ensures c.hardwareID in old(hwConns) && old(hwConns)[c.hardwareID] == c ==> hwConns == old(hwConns) - {c.hardwareID}
      ensures c.hardwareID in old(hwConns) && old(hwConns)[c.hardwareID] != c ==> hwConns == old(hwConns)
      ensures c.hardwareID == "" ==> hwConns == old(hwConns) - {""}
      ensures voicemail == DropCount(old(voicemail), n, c.hardwareID)
    {
      if c.hardwareID != "" {
        if c.hardwareID in hwConns && hwConns[c.hardwareID] == c {
          hwConns := hwConns - {c.hardwareID};
        }
        DropVoicemail(n, c.hardwareID);
      }
      assert hwConns - {""} == hwConns;
    }

    method DropVoicemail(n: Number, hw: Hardware)
      requires hw != ""
      modifies this`voicemail
      ensures voicemail == DropCount(old(voicemail), n, hw)
    {
      if n in voicemail {
        voicemail := voicemail[n := voicemail[n] - {hw}];
        if voicemail[n] == map[] {
          voicemail := voicemail - {n};
        }
      }
    }

    /** The device's previous connection on this pod, if it has one. */
    ghost function Previous(hw: Hardware): Option<Conn>
      reads this
    {
      if hw in hwConns then Some(hwConns[hw]) else None
    }

    /** Registers c, closing and removing the device's previous connection on this pod,
        whichever number that had, and announces the change. A draining pod refuses. */
    method Register(c: Conn) returns (ok: bool)
      requires Valid() && c.open && c !in registered
      modifies this, registered`open, state
      ensures Valid() && draining == old(draining)
      ensures ok <==> !draining
      ensures !ok ==> unchanged(this) && unchanged(state) && unchanged(old(registered))
      ensures ok ==> Replaced(old(conns), old(hwConns), old(registered), c)
      ensures forall d | d in old(registered) - Holder(old(Previous(c.hardwareID))) :: d.open
      ensures ok ==> forall d | d in Holder(old(Previous(c.hardwareID))) :: !d.open
      ensures ok && c.hardwareID != "" ==>
        state.shared == Announce(old(state.shared), pod, c.number, c.hardwareID, NumberOf(old(Previous(c.hardwareID))))
    {
      if draining {
        return false;
      }
      var evictedNumber := Replace(c);
      Publish(c.number, c.hardwareID, evictedNumber);
      ok := true;
    }

    /** The two indexes after c took the place of its device's previous connection. */
    ghost predicate Replaced(conns0: Buckets, hwConns0: map<Hardware, Conn>, registered0: set<Conn>, c: Conn)
      reads this
    {
      var previous := if c.hardwareID in hwConns0 then Some(hwConns0[c.hardwareID]) else None;
      && conns == With(Evicted(conns0, previous), c.number, c)
      && registered == registered0 - Holder(previous) + {c}
      && hwConns == (if c.hardwareID == "" then hwConns0 else hwConns0[c.hardwareID := c])
    }

    /** The hub mutation of Register: one critical section. */
    method Replace(c: Conn) returns (evictedNumber: Option<Number>)
      requires Valid() && c.open && c !in registered
      modifies this, registered`open
      ensures Valid() && draining == old(draining)
      ensures Replaced(old(conns), old(hwConns), old(registered), c)
      ensures forall d | d in Holder(old(Previous(c.hardwareID))) :: !d.open
      ensures evictedNumber == NumberOf(old(Previous(c.hardwareID)))
    {
      evictedNumber := Evict(c.hardwareID);
      Insert(c);
    }

    method Insert(c: Conn)
      requires Valid() && c.open && c !in registered && c.hardwareID !in hwConns
      modifies this`conns, this`hwConns, this`registered
      ensures Valid()
      ensures conns == With(old(conns), c.number, c) && registered == old(registered) + {c}
      ensures hwConns == if c.hardwareID == "" then old(hwConns) else old(hwConns)[c.hardwareID := c]
    {
      IndexedWith(conns, hwConns, registered, c);
      conns := conns[c.number := (if c.number in conns then conns[c.number] else []) + [c]];
      registered := registered + {c};
      if c.hardwareID != "" {
        hwConns := hwConns[c.hardwareID := c];
      }
    }

    /** The Redis part of Register: online under the new number, off the old line. */
    method Publish(number: Number, hw: Hardware, evictedNumber: Option<Number>)
      modifies state
      ensures hw != "" ==> state.shared == Announce(old(state.shared), pod, number, hw, evictedNumber)
    {
      state.SetOnline(pod, number, hw);
      if evictedNumber.Some? && evictedNumber.value != number && evictedNumber.value != "" {
        state.SetOffline(pod, evictedNumber.value, hw);
      }
    }

    /** Closes and removes the device's connection, returning its number. */
    method Evict(hw: Hardware) returns (number: Option<Number>)
      requires Valid()
      modifies this, registered`open
      ensures Valid() && draining == old(draining)
      ensures hwConns == old(hwConns) - {hw}
      ensures number == NumberOf(old(Previous(hw)))
      ensures conns == Evicted(old(conns), old(Previous(hw)))
      ensures registered == old(registered) - Holder(old(Previous(hw)))
      ensures forall d | d in Holder(old(Previous(hw))) :: !d.open
    {
      if hw !in hwConns {
        assert hwConns - {hw} == hwConns;
        return None;
      }
      var evicted := hwConns[hw];
      assert In(conns, evicted.number, evicted);
      var gone := RemoveLocked(evicted.number, evicted);
      number := Some(evicted.number);
    }

    /** Unregisters exactly this connection; for a displaced one nothing happens. */
    method Unregister(number: Number, c: Conn)
      requires Valid()
      modifies this, c`open, state
      ensures Valid()
      ensures !In(old(conns), number, c) ==> unchanged(this) && unchanged(c) && unchanged(state)
      ensures In(old(conns), number, c) ==>
        && !c.open && registered == old(registered) - {c}
        && conns == Without(old(conns), number, c)
        && hwConns == old(hwConns) - {c.hardwareID}
        && Sessions() == old(Sessions()) - {c.hardwareID}
        && (c.hardwareID != "" ==>
              state.shared == Presence.SetOffline(old(state.shared), pod, number, c.hardwareID))
    {
      var changed := RemoveLocked(number, c);
      if changed {
        SessionsWithout(old(hwConns), c.hardwareID);
        state.SetOffline(pod, number, c.hardwareID);
      }
    }

    method ConnIsCurrent(c: Conn) returns (current: bool)
      requires Valid()
      ensures current <==> c in registered
    {
      current := c.number in conns && c in conns[c.number];
      assert current <==> In(conns, c.number, c);
    }

    /** The grace recheck of a single instance, which has no shared store: it scans the line's
        bucket, and finds what the hardware index would have said. */
    method HardwareOnlineOnLine(number: Number, hw: Hardware) returns (online: bool)
      requires Valid()
      ensures online <==> hw != "" && hw in hwConns && hwConns[hw].number == number
    {
      if hw == "" {
        return false;
      }
      var line := if number in conns then conns[number] else [];
      assert forall c | c in line :: In(conns, number, c);
      assert hw in hwConns && hwConns[hw].number == number ==> In(conns, number, hwConns[hw]);
      for i := 0 to |line|
        invariant forall j | 0 <= j < i :: line[j].hardwareID != hw
      {
        if line[i].hardwareID == hw {
          assert In(conns, number, line[i]);
          return true;
        }
      }
      online := false;
    }

    /** A closed connection is in no bucket and in no index: since Register takes only open
        connections and nothing reopens one, a displaced connection stays out for good, and
        its late OnConnClosed and Unregister do nothing. */
    lemma ClosedIsGone(c: Conn, n: Number)
      requires Valid() && !c.open
      ensures c !in registered && c !in hwConns.Values && !In(conns, n, c)
    {
    }

    /** Each hardware id has at most one connection across all lines. */
    lemma OneConnectionPerDevice(c: Conn, d: Conn)
      requires Valid() && c in registered && d in registered
      requires c.hardwareID == d.hardwareID != ""
      ensures c == d
    {
    }

    // ---- sends ----

    /** One frame to every connection of a line, without blocking. */
    method SendLocal(number: Number, data: string)
      requires Valid()
      modifies registered
      ensures Valid()
      ensures forall c | c in registered ::
          c.queue == (if c in Bucket(conns, number) then Offered(old(c.queue), c.capacity, Some(data)) else old(c.queue))
    {
      var line := if number in conns then conns[number] else [];
      assert forall c | c in line :: In(conns, number, c);
      OfferEach(line, data);
    }

    /** One pass of SendToWithTimeout: offers the frame to the line's connections that have
        not taken it yet; pending when some buffer was full. */
    method SendPass(number: Number, data: string, delivered: set<Conn>) returns (delivered': set<Conn>, pending: bool)
      requires Valid()
      modifies registered
      ensures Valid()
      ensures forall c | c in registered ::
          c.queue == (if c in Bucket(conns, number) && c !in delivered then Offered(old(c.queue), c.capacity, Some(data)) else old(c.queue))
      ensures delivered' == delivered + Takers(Bucket(conns, number), old(Room()))
      ensures pending <==> exists c :: c in Bucket(conns, number) && c !in delivered'
    {
      var line := if number in conns then conns[number] else [];
      assert forall c | c in line :: In(conns, number, c);
      delivered', pending := OfferNew(line, data, delivered, Room());
    }

    /** The registered connections whose buffer has room. */
    ghost function Room(): set<Conn>
      reads this, registered
    {
      set c | c in registered && |c.queue| < c.capacity
    }

    method EnqueueHardware(hw: Hardware, data: string) returns (sent: Option<bool>)
      requires Valid()
      modifies registered
      ensures Valid()
      ensures sent.None? <==> hw !in hwConns
      ensures sent.Some? ==> (sent.value <==> |old(hwConns[hw].queue)| < hwConns[hw].capacity)
      ensures forall c | c in registered ::
          c.queue == (if hw in hwConns && c == hwConns[hw] then Offered(old(c.queue), c.capacity, Some(data)) else old(c.queue))
    {
      if hw !in hwConns {
        return None;
      }
      assert hwConns[hw] in registered;
      var r := hwConns[hw].Offer(Some(data));
      sent := Some(r);
    }

    method Broadcast(data: string)
      requires Valid()
      modifies registered
      ensures Valid()
      ensures forall c | c in registered :: c.queue == Offered(old(c.queue), c.capacity, Some(data))
    {
      var todo := conns.Keys;
      while todo != {}
        invariant todo <= conns.Keys && Valid()
        invariant forall c | c in registered ::
          c.queue == (if c.number in todo then old(c.queue) else Offered(old(c.queue), c.capacity, Some(data)))
      {
        var n :| n in todo;
        forall c | c in registered ensures c in Bucket(conns, n) <==> c.number == n {
          assert In(conns, c.number, c) && (c in Bucket(conns, n) <==> In(conns, n, c));
        }
        SendLocal(n, data);
        todo := todo - {n};
      }
    }

    // ---- closing a line or a device ----

    method CloseLocalLine(number: Number, farewell: Frame)
      requires Valid()
      modifies registered
      ensures Valid()
      ensures forall c | c in registered ::
          c.queue == (if c in Bucket(conns, number) then ClosingFrames(old(c.queue), c.capacity, farewell) else old(c.queue))
    {
      var line := if number in conns then conns[number] else [];
      assert forall c | c in line :: In(conns, number, c);
      CloseEach(line, farewell);
    }

    method CloseLocalHardware(hw: Hardware, farewell: Frame)
      requires Valid()
      modifies registered
      ensures Valid()
      ensures forall c | c in registered ::
          c.queue == (if hw in hwConns && c == hwConns[hw] then ClosingFrames(old(c.queue), c.capacity, farewell) else old(c.queue))
    {
      if hw in hwConns {
        assert hwConns[hw] in registered;
        var queued := CloseConn(hwConns[hw], farewell);
      }
    }

    /** The background retry of the sentinel: done when it fits or the connection is gone. */
    method OfferClose(c: Conn) returns (done: bool)
      requires Valid()
      modifies c`queue
      ensures Valid()
      ensures c !in registered ==> done && c.queue == old(c.queue)
      ensures c in registered ==>
        && c.queue == Offered(old(c.queue), c.capacity, None)
        && (done <==> |old(c.queue)| < c.capacity)
    {
      var current := ConnIsCurrent(c);
      if !current {
        return true;
      }
      done := c.Offer(None);
    }

    /** An envelope from another pod. A missing payload is refused except by the close types,
        so it can never be queued as a sentinel by mistake. */
    method DeliverFromRedis(e: Envelope)
      requires Valid()
      modifies registered
      ensures Valid()
      ensures forall c | c in registered :: c.queue == Delivered(e, c, Targets(e, c), old(c.queue))
    {
      match e.kind {
        case ToClose => CloseLocalLine(e.target, e.message);
        case ToCloseHardware => CloseLocalHardware(e.target, e.message);
        case ToNumber => if e.message.Some? { SendLocal(e.target, e.message.value); }
        case ToHardware => if e.message.Some? { var sent := EnqueueHardware(e.target, e.message.value); }
        case ToAll => if e.message.Some? { Broadcast(e.message.value); }
        case ToReconnect =>
      }
    }

    ghost predicate Targets(e: Envelope, c: Conn)
      reads this
    {
      match e.kind
      case ToNumber => c in Bucket(conns, e.target)
      case ToClose => c in Bucket(conns, e.target)
      case ToHardware => e.target in hwConns && c == hwConns[e.target]
      case ToCloseHardware => e.target in hwConns && c == hwConns[e.target]
      case ToAll => true
      case ToReconnect => false
    }
  }

  function ClosingFrames(queue: seq<Frame>, capacity: nat, farewell: Frame): seq<Frame> {
    Offered(if farewell.Some? then Offered(queue, capacity, farewell) else queue, capacity, None)
  }

  datatype TargetKind = ToNumber | ToHardware | ToAll | ToReconnect | ToClose | ToCloseHardware

  datatype Envelope = Envelope(pod: Pod, kind: TargetKind, target: string, message: Frame)

  /** What one envelope does to one connection's queue. */
  function Delivered(e: Envelope, c: Conn, targeted: bool, queue: seq<Frame>): seq<Frame> {
    if !targeted then queue
    else if e.kind.ToClose? || e.kind.ToCloseHardware? then ClosingFrames(queue, c.capacity, e.message)
    else if e.message.Some? then Offered(queue, c.capacity, e.message)
    else queue
  }

  /** Only the close paths add a sentinel. */
  lemma OnlyClosingAddsSentinels(e: Envelope, c: Conn, targeted: bool, queue: seq<Frame>)
    ensures !e.kind.ToClose? && !e.kind.ToCloseHardware? ==>
      multiset(Delivered(e, c, targeted, queue))[None] == multiset(queue)[None]
    ensures (e.kind.ToClose? || e.kind.ToCloseHardware?) && targeted && |queue| + 1 < c.capacity ==>
      multiset(Delivered(e, c, targeted, queue))[None] == multiset(queue)[None] + 1
    ensures queue <= Delivered(e, c, targeted, queue)
  {
  }
}
