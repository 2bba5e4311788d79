/** The results about whole runs of the call and conference machine, and about hanging up. */
module CallTheorems {
  import opened Basics
  import opened CallModel
  import opened CallSteps
  import opened CallRoles
  import opened CallMirror
  import opened CallRows
  import opened CallRuns

  /** The two requests the server does not check for. */
  ghost predicate Sensible(e: Event) {
    match e
    case Dial(from, to, _, _, _) => from != to
    case Merge(_, held, active, _) => held != active
    case _ => true
  }

  ghost predicate WritesSucceed(e: Event) {
    match e
    case Dial(_, _, _, _, ok) => ok
    case HangUp(_, _, fails, ok) => fails == {} && ok
    case Merge(_, _, _, ok) => ok
    case Kick(_, _, ok) => ok
    case Disconnect(_, _, ok) => ok
    case GraceExpired(_, _, fails) => fails == {}
    case ForceEnd(_, _, ok) => ok
    case Clear(_, ok) => ok
  }

  lemma FoundConferenceIsActive(s: State, n: Number)
    requires Inv(s)
    ensures ConferenceByPhone(s, n) ==
      if n in s.confs.index then Some((s.confs.index[n], s.confs.active[s.confs.index[n]].host)) else None
    ensures n in s.confs.index ==> n in s.confs.active[s.confs.index[n]].members
  {
    QueriesAgree(s, n, n);
    assert n in s.confs.index ==> Holds(s.confs, s.confs.index[n], n);
  }

  lemma HangupKeeps(s: State, n: Number, peers: seq<Number>, fails: set<Number>, txOk: bool)
    requires Inv(s)
    ensures Inv(HandleHangup(s, n, peers, fails, txOk))
    ensures Exact(s) && fails == {} && txOk ==> Exact(HandleHangup(s, n, peers, fails, txOk))
    ensures Alone(HandleHangup(s, n, peers, fails, txOk)) == HandleHangup(Alone(s), n, peers, fails, txOk)
  {
    FoundConferenceIsActive(s, n);
    if n in s.confs.index {
      HangupInConferenceKeeps(s, n, peers, fails, txOk);
    } else {
      AloneKeeps(s);
      FoundConferenceIsActive(Alone(s), n);
      EndEachKeeps(s, n, peers, fails);
    }
  }

  lemma HangupInConferenceKeeps(s: State, n: Number, peers: seq<Number>, fails: set<Number>, txOk: bool)
    requires Inv(s) && n in s.confs.index
    ensures Inv(HandleHangup(s, n, peers, fails, txOk))
    ensures Exact(s) && txOk ==> Exact(HandleHangup(s, n, peers, fails, txOk))
    ensures Alone(HandleHangup(s, n, peers, fails, txOk)) == HandleHangup(Alone(s), n, peers, fails, txOk)
  {
    var id := s.confs.index[n];
    AloneKeeps(s);
    FoundConferenceIsActive(s, n);
    FoundConferenceIsActive(Alone(s), n);
    if s.confs.active[id].host == n {
      EndConferencePersistentKeeps(s, id, txOk);
      if Exact(s) { EndConferencePersistentExact(s, id); }
    } else {
      DropKeeps(s, id, n, txOk);
    }
  }

  lemma DisconnectKeeps(s: State, n: Number, siblings: bool, dbOk: bool)
    requires Inv(s)
    ensures Inv(OnDisconnect(s, n, siblings, dbOk))
    ensures Exact(s) && dbOk ==> Exact(OnDisconnect(s, n, siblings, dbOk))
    ensures Alone(OnDisconnect(s, n, siblings, dbOk)) == OnDisconnect(Alone(s), n, siblings, dbOk)
  {
    QueriesAgree(s, n, n);
    FoundConferenceIsActive(s, n);
    if n in s.confs.index {
      DisconnectInConferenceKeeps(s, n, s.confs.index[n], dbOk);
    } else {
      ClearKeeps(s, n, dbOk);
    }
  }

  lemma DisconnectInConferenceKeeps(s: State, n: Number, id: nat, dbOk: bool)
    requires Inv(s) && id in s.confs.active
    ensures var s' := ClearByNumber(EndConferencePersistent(s, id, dbOk), n, dbOk);
      && Inv(s') && (Exact(s) && dbOk ==> Exact(s'))
      && Alone(s') == ClearByNumber(EndConferencePersistent(Alone(s), id, dbOk), n, dbOk)
  {
    EndConferencePersistentKeeps(s, id, dbOk);
    if Exact(s) { EndConferencePersistentExact(s, id); }
    ClearKeeps(EndConferencePersistent(s, id, dbOk), n, dbOk);
  }

  lemma MergeAlone(s: State, host: Number, held: Number, active: Number, txOk: bool)
    requires Inv(s)
    ensures Alone(HandleMerge(s, host, held, active, txOk)) == HandleMerge(Alone(s), host, held, active, txOk)
  {
    assert Inv(Alone(s));
    if txOk {
      MergeIs(s, host, held, active);
      MergeIs(Alone(s), host, held, active);
      MergedParts(s, host, held, active);
      MergedParts(Alone(s), host, held, active);
    } else {
      FailedMergeRestores(s, host, held, active);
      FailedMergeRestores(Alone(s), host, held, active);
    }
  }

  /** One step keeps the invariant; with its writes succeeding it keeps memory and rows
      equal; and the replica with Redis attached does what the one without does. */
  lemma StepKeeps(s: State, e: Event)
    requires Inv(s) && Sensible(e)
    ensures Inv(Step(s, e))
    ensures Exact(s) && WritesSucceed(e) ==> Exact(Step(s, e))
    ensures Alone(Step(s, e)) == Step(Alone(s), e)
  {
    match e
    case Dial(from, to, online, allowed, dbOk) =>
      DialKeepsIff(s, from, to, online, allowed, dbOk);
      DialRest(s, from, to, online, allowed, dbOk);
    case HangUp(n, peers, fails, txOk) => HangupKeeps(s, n, peers, fails, txOk);
    case Merge(host, held, active, txOk) =>
      MergeKeeps(s, host, held, active, txOk);
      MergeAlone(s, host, held, active, txOk);
    case Kick(conf, phone, txOk) => DropKeeps(s, conf, phone, txOk);
    case Disconnect(n, siblings, dbOk) => DisconnectKeeps(s, n, siblings, dbOk);
    case GraceExpired(n, peers, fails) => EndEachKeeps(s, n, peers, fails);
    case ForceEnd(a, b, dbOk) => EndCallKeeps(s, a, b, dbOk);
    case Clear(n, dbOk) => ClearKeeps(s, n, dbOk);
  }

  lemma EmptyIsGood(attached: bool)
    ensures Inv(Empty(attached)) && Exact(Empty(attached))
  {
  }

  lemma {:induction false} RunKeeps(attached: bool, states: seq<State>, events: seq<Event>, i: nat)
    requires IsRun(attached, states, events) && i < |states|
    requires forall k | 0 <= k < |events| :: Sensible(events[k])
    ensures Inv(states[i])
    ensures (forall k | 0 <= k < |events| :: WritesSucceed(events[k])) ==> Exact(states[i])
  {
    if i == 0 {
      EmptyIsGood(attached);
    } else {
      RunKeeps(attached, states, events, i - 1);
      StepKeeps(states[i - 1], events[i - 1]);
    }
  }

  /** In every reachable state every number plays exactly one role. */
  lemma RolesInEveryRun(attached: bool, states: seq<State>, events: seq<Event>, i: nat, n: Number)
    requires IsRun(attached, states, events) && i < |states|
    requires forall k | 0 <= k < |events| :: Sensible(events[k])
    ensures OneRole(states[i], n)
  {
    RunKeeps(attached, states, events, i);
    EveryNumberHasOneRole(states[i], n);
  }

  /** However many writes fail, every call and conference in memory has its open row. */
  lemma MemoryIsAlwaysBacked(attached: bool, states: seq<State>, events: seq<Event>, i: nat)
    requires IsRun(attached, states, events) && i < |states|
    requires forall k | 0 <= k < |events| :: Sensible(events[k])
    ensures states[i].calls.Values <= OpenRows(states[i].db)
    ensures forall id | id in states[i].confs.active :: id in states[i].db.confs && states[i].db.confs[id].open
  {
    RunKeeps(attached, states, events, i);
    var s := states[i];
    forall id | id in s.calls.Values ensures id in OpenRows(s.db) {
      var p :| p in s.calls && s.calls[p] == id;
    }
  }

  /** With no database errors the ids in memory are exactly the open rows. */
  lemma MemoryIsTheOpenRows(attached: bool, states: seq<State>, events: seq<Event>, i: nat)
    requires IsRun(attached, states, events) && i < |states|
    requires forall k | 0 <= k < |events| :: Sensible(events[k]) && WritesSucceed(events[k])
    ensures states[i].calls.Values == OpenRows(states[i].db)
    ensures states[i].confs.active.Keys == set id | id in states[i].db.confs && states[i].db.confs[id].open
  {
    RunKeeps(attached, states, events, i);
    OpenRowsAreTheCalls(states[i].calls, states[i].db);
  }

  ghost function AloneAll(states: seq<State>): seq<State> {
    seq(|states|, i requires 0 <= i < |states| => Alone(states[i]))
  }

  /** A run with Redis attached is, without its mirror, a run of a single replica: no
      handler ever decides differently because it asked Redis. */
  lemma RedisRefinesMemory(states: seq<State>, events: seq<Event>)
    requires IsRun(true, states, events)
    requires forall k | 0 <= k < |events| :: Sensible(events[k])
    ensures IsRun(false, AloneAll(states), events)
  {
    var alone := AloneAll(states);
    forall i | 0 <= i < |events|
      ensures Enabled(alone[i], events[i]) && alone[i + 1] == Step(alone[i], events[i])
    {
      RunKeeps(true, states, events, i);
      StepKeeps(states[i], events[i]);
      if events[i].HangUp? || events[i].GraceExpired? {
        QueriesAgree(states[i], events[i].n, events[i].n);
      }
    }
  }

  // ---- hanging up ----

  ghost function WithoutNumber(c: CallTable, n: Number): CallTable {
    map p | p in c && !Involves(p, n) :: c[p]
  }

  lemma {:induction false} EndEachRemoves(s: State, n: Number, peers: seq<Number>, fails: set<Number>)
    ensures EndEach(s, n, peers, fails).calls
         == map p | p in s.calls && !(exists q | q in peers :: p == Pair(n, q) || p == Pair(q, n)) :: s.calls[p]
    ensures EndEach(s, n, peers, fails).confs == s.confs
    decreases |peers|
  {
    if peers != [] {
      var front, last := peers[..|peers| - 1], peers[|peers| - 1];
      EndEachRemoves(s, n, front, fails);
      assert forall q :: q in peers <==> q in front || q == last;
    }
  }

  lemma PeersCoverTheCalls(c: CallTable, n: Number, peers: seq<Number>)
    requires forall q :: q in peers <==> q in TablePeers(c, n)
    ensures (map p | p in c && !(exists q | q in peers :: p == Pair(n, q) || p == Pair(q, n)) :: c[p])
         == WithoutNumber(c, n)
  {
    forall p | p in c
      ensures Involves(p, n) <==> exists q | q in peers :: p == Pair(n, q) || p == Pair(q, n)
    {
      if Involves(p, n) {
        var q := if p.caller == n then p.callee else p.caller;
        assert q in TablePeers(c, n);
      }
    }
  }

  /** Ending the calls with all peers removes exactly the calls n is in. */
  lemma EndingAllPeers(s: State, n: Number, peers: seq<Number>, fails: set<Number>)
    requires Inv(s) && Lists(peers, PeersOf(s, n))
    ensures EndEach(s, n, peers, fails).calls == WithoutNumber(s.calls, n)
    ensures EndEach(s, n, peers, fails).confs == s.confs
  {
    QueriesAgree(s, n, n);
    EndEachRemoves(s, n, peers, fails);
    PeersCoverTheCalls(s.calls, n, peers);
  }

  lemma IdleWithout(s: State, n: Number)
    requires n !in s.confs.index && forall p | p in s.calls :: !Involves(p, n)
    ensures Idle(s, n)
  {
  }

  lemma MembersTakePart(s: State, id: nat, m: Number)
    requires Inv(s) && Holds(s.confs, id, m)
    ensures forall p | p in s.calls :: !Involves(p, m)
  {
  }

  /** After a conference ends all three members are idle. */
  lemma EndConferenceFrees(s: State, id: nat, dbOk: bool, m: Number)
    requires Inv(s) && Holds(s.confs, id, m)
    ensures Idle(EndConferencePersistent(s, id, dbOk), m)
    ensures id !in EndConferencePersistent(s, id, dbOk).confs.active
  {
    MembersTakePart(s, id, m);
    IdleWithout(EndConferencePersistent(s, id, dbOk), m);
  }

  lemma FailedDrop(s: State, id: nat, n: Number, x: Number)
    requires Inv(s) && Holds(s.confs, id, n) && Holds(s.confs, id, x)
    ensures Idle(DropMemberPersistent(s, id, n, false), x)
    ensures DropMemberPersistent(s, id, n, false).calls == s.calls
    ensures id !in DropMemberPersistent(s, id, n, false).confs.active
  {
    MembersTakePart(s, id, x);
    DropMemberKeeps(s, id, n);
    FoundConferenceIsActive(s, n);
    IdleWithout(DropMemberPersistent(s, id, n, false), x);
  }

  lemma CommittedDrop(s: State, id: nat, n: Number, x: Number, y: Number)
    requires Inv(s) && id in s.confs.active && n !in {x, y} && x != y
    requires s.confs.active[id].members.Keys == {n, x, y}
    ensures DropMemberPersistent(s, id, n, true).calls == s.calls[SortedPair(x, y) := s.db.nextID]
    ensures DropMemberPersistent(s, id, n, true).confs == RemoveConference(s.confs, id)
  {
    DropMemberKeeps(s, id, n);
    DropCommits(s, id, n);
    DropIsRemove(s.confs, s.nextConf, id, n);
    assert WellFormed(s.confs.active[id]);
    assert x in Remaining(s.confs.active[id], n) && y in Remaining(s.confs.active[id], n);
    SurvivorPairOf(Remaining(s.confs.active[id], n), x, y);
  }

  lemma CommittedRoles(s: State, id: nat, n: Number, x: Number, y: Number)
    requires Inv(s) && id in s.confs.active && n !in {x, y} && x != y
    requires s.confs.active[id].members.Keys == {n, x, y}
    requires Holds(s.confs, id, n) && Holds(s.confs, id, x) && Holds(s.confs, id, y)
    ensures var s' := DropMemberPersistent(s, id, n, true);
      && s'.calls == s.calls[SortedPair(x, y) := s.db.nextID]
      && Idle(s', n) && id !in s'.confs.active
      && IsCaller(s', SortedPair(x, y).caller) && IsCallee(s', SortedPair(x, y).callee)
  {
    MembersTakePart(s, id, n);
    MembersTakePart(s, id, x);
    MembersTakePart(s, id, y);
    CommittedDrop(s, id, n, x, y);
    NewCallRoles(s.calls, SortedPair(x, y), s.db.nextID);
    IdleWithout(DropMemberPersistent(s, id, n, true), n);
  }

  /** A member other than the host leaves, or any member is kicked: the leaver is idle; a
      committed drop leaves exactly one new call, joining the other two under their sorted
      key, and a failed one leaves all three idle. */
  lemma DropFreesTheLeaver(s: State, id: nat, n: Number, x: Number, y: Number, txOk: bool)
    requires Inv(s) && id in s.confs.active && n !in {x, y} && x != y
    requires s.confs.active[id].members.Keys == {n, x, y}
    ensures var s' := DropMemberPersistent(s, id, n, txOk);
      && Idle(s', n) && id !in s'.confs.active
      && s'.calls == (if txOk then s.calls[SortedPair(x, y) := s.db.nextID] else s.calls)
      && SortedPair(x, y) !in s.calls && Reverse(SortedPair(x, y)) !in s.calls
      && (txOk ==> IsCaller(s', SortedPair(x, y).caller) && IsCallee(s', SortedPair(x, y).callee))
      && (!txOk ==> Idle(s', x) && Idle(s', y))
  {
    assert Holds(s.confs, id, n) && Holds(s.confs, id, x) && Holds(s.confs, id, y);
    MembersTakePart(s, id, x);
    MembersTakePart(s, id, y);
    if txOk {
      CommittedRoles(s, id, n, x, y);
    } else {
      FailedDrop(s, id, n, n);
      FailedDrop(s, id, n, x);
      FailedDrop(s, id, n, y);
    }
  }

  /** A member other than the host who hangs up, and any member who is kicked, is dropped. */
  lemma LeavingIsADrop(s: State, id: nat, n: Number, peers: seq<Number>, fails: set<Number>, txOk: bool)
    requires Inv(s) && Holds(s.confs, id, n)
    ensures KickMember(s, id, n, txOk) == DropMemberPersistent(s, id, n, txOk)
    ensures s.confs.active[id].host != n ==> HandleHangup(s, n, peers, fails, txOk) == DropMemberPersistent(s, id, n, txOk)
  {
    FoundConferenceIsActive(s, n);
  }

  lemma NewCallRoles(c: CallTable, p: Pair, id: nat)
    requires p.caller != p.callee
    requires forall q | q in c :: !Involves(q, p.caller) && !Involves(q, p.callee)
    ensures CallsBy(c[p := id], p.caller) == {p} && CallsTo(c[p := id], p.caller) == {}
    ensures CallsTo(c[p := id], p.callee) == {p} && CallsBy(c[p := id], p.callee) == {}
  {
  }

  /** A handled hang-up frees the number, whatever the database does. */
  lemma HangUpFrees(s: State, n: Number, peers: seq<Number>, fails: set<Number>, txOk: bool)
    requires Inv(s) && Lists(peers, PeersOf(s, n))
    ensures Idle(HandleHangup(s, n, peers, fails, txOk), n)
  {
    FoundConferenceIsActive(s, n);
    if n in s.confs.index {
      var id := s.confs.index[n];
      var c := s.confs.active[id];
      assert Holds(s.confs, id, n) && WellFormed(c);
      if c.host == n {
        EndConferenceFrees(s, id, txOk, n);
      } else {
        OtherTwo(c, n);
        var x, y :| c.members.Keys == {n, x, y} && n !in {x, y} && x != y;
        DropFreesTheLeaver(s, id, n, x, y, txOk);
      }
    } else {
      EndingAllPeers(s, n, peers, fails);
      IdleWithout(HandleHangup(s, n, peers, fails, txOk), n);
    }
  }

  lemma OtherTwo(c: Conference, n: Number)
    requires WellFormed(c) && n in c.members
    ensures exists x, y :: c.members.Keys == {n, x, y} && n !in {x, y} && x != y
  {
    var rest := c.members.Keys - {n};
    assert |c.members.Keys| == 3 && |rest| == 2;
    var x :| x in rest;
    assert |rest - {x}| == 1;
    var y :| y in rest - {x};
    assert |rest - {x, y}| == 0;
    assert c.members.Keys == {n, x, y};
  }

  /** A host's hang-up frees all three members. */
  lemma HostHangUpFreesAll(s: State, host: Number, peers: seq<Number>, fails: set<Number>, txOk: bool, m: Number)
    requires Inv(s) && host in s.confs.index
    requires s.confs.active[s.confs.index[host]].host == host
    requires m in s.confs.active[s.confs.index[host]].members
    ensures Idle(HandleHangup(s, host, peers, fails, txOk), m)
    ensures HandleHangup(s, host, peers, fails, txOk).calls == s.calls
  {
    FoundConferenceIsActive(s, host);
    assert Holds(s.confs, s.confs.index[host], m);
    EndConferenceFrees(s, s.confs.index[host], txOk, m);
  }

  /** A number outside any conference that hangs up ends all its calls, a host with two
      unmerged calls both of them, and no other call; the far ends it dialled are idle. */
  lemma HangUpEndsAllCalls(s: State, n: Number, peers: seq<Number>, fails: set<Number>, txOk: bool)
    requires Inv(s) && n !in s.confs.index && Lists(peers, PeersOf(s, n))
    ensures HandleHangup(s, n, peers, fails, txOk).calls == WithoutNumber(s.calls, n)
    ensures HandleHangup(s, n, peers, fails, txOk).confs == s.confs
    ensures forall p | p in CallsBy(s.calls, n) :: Idle(HandleHangup(s, n, peers, fails, txOk), p.callee)
  {
    FoundConferenceIsActive(s, n);
    EndingAllPeers(s, n, peers, fails);
    forall p | p in CallsBy(s.calls, n) ensures Idle(HandleHangup(s, n, peers, fails, txOk), p.callee) {
      forall q | q in s.calls && Involves(q, p.callee) ensures Involves(q, n) {
        assert q.caller != p.callee && (q.callee == p.callee ==> q == p);
      }
      IdleWithout(HandleHangup(s, n, peers, fails, txOk), p.callee);
    }
  }

  // ---- what the other handlers achieve ----

  lemma CanAddMeansOneCall(s: State, n: Number)
    requires Inv(s)
    ensures CanAddAsHost(s, n) <==> IsCaller(s, n) && |CallsBy(s.calls, n)| == 1
  {
    QueriesAgree(s, n, n);
  }

  lemma NextIDIsFresh(s: State)
    requires Inv(s)
    ensures s.db.nextID !in s.calls.Values
  {
  }

  ghost predicate Connects(s: State, from: Number, to: Number) {
    Idle(s, to) && (Idle(s, from) || (IsCaller(s, from) && |CallsBy(s.calls, from)| == 1))
  }

  lemma GuardsAreConnects(s: State, from: Number, to: Number)
    requires Inv(s)
    ensures !Busy(s, to) && (!Busy(s, from) || CanAddAsHost(s, from)) <==> Connects(s, from, to)
    ensures Connects(s, from, to) ==> Pair(from, to) !in s.calls
  {
    BusyIsNotIdle(s, to);
    BusyIsNotIdle(s, from);
    CanAddMeansOneCall(s, from);
    assert Pair(from, to) in s.calls ==> Pair(from, to) in CallsTo(s.calls, to);
  }

  /** handleCall connects exactly when the callee is idle and the caller is idle or the
      caller of a single call, and then adds that one call under a fresh id. */
  lemma DialIff(s: State, from: Number, to: Number, online: bool, allowed: bool, dbOk: bool)
    requires Inv(s)
    ensures var s' := HandleCall(s, from, to, online, allowed, dbOk);
      var connects := online && allowed && dbOk && Connects(s, from, to);
      && s'.calls == (if connects then s.calls[Pair(from, to) := s.db.nextID] else s.calls)
      && s'.confs == s.confs
      && (connects ==> Pair(from, to) !in s.calls && s.db.nextID !in s.calls.Values)
      && (!connects ==> s' == s)
  {
    GuardsAreConnects(s, from, to);
    NextIDIsFresh(s);
  }

  lemma BusyIsNotIdle(s: State, n: Number)
    requires Inv(s)
    ensures Busy(s, n) <==> !Idle(s, n)
  {
    QueriesAgree(s, n, n);
    if p :| p in s.calls && Involves(p, n) {
      assert p in CallsBy(s.calls, n) || p in CallsTo(s.calls, n);
    }
  }

  lemma MergedMembers(s: State, host: Number, held: Number, active: Number, n: Number)
    requires Inv(s) && held != active && n in {host, held, active}
    requires InCall(s, host, held) && InCall(s, host, active)
    ensures var s' := HandleMerge(s, host, held, active, true);
      IsMember(s', n) && s'.confs.index[n] == s.nextConf && s'.confs.active[s.nextConf].host == host
  {
    MergeIs(s, host, held, active);
    MergedParts(s, host, held, active);
    MergedMemory(s, host, held, active);
    var s' := Merged(s, host, held, active);
    assert Holds(s'.confs, s.nextConf, n);
    EveryNumberHasOneRole(s', n);
  }

  /** A committed merge turns the host's two calls, and nothing else, into one conference
      of the three numbers, and closes exactly those two rows. */
  lemma MergeJoinsThree(s: State, host: Number, held: Number, active: Number)
    requires Inv(s) && held != active
    requires InCall(s, host, held) && InCall(s, host, active)
    ensures var s' := HandleMerge(s, host, held, active, true);
      && (forall n | n in {host, held, active} ::
            IsMember(s', n) && s'.confs.index[n] == s.nextConf && s'.confs.active[s.nextConf].host == host)
      && Pair(host, held) in s.calls && Pair(host, active) in s.calls
      && s'.calls == s.calls - {Pair(host, held), Pair(host, active)}
      && OpenRows(s'.db) == OpenRows(s.db) - {s.calls[Pair(host, held)], s.calls[Pair(host, active)]}
  {
    forall n | n in {host, held, active}
      ensures var s' := HandleMerge(s, host, held, active, true);
        IsMember(s', n) && s'.confs.index[n] == s.nextConf && s'.confs.active[s.nextConf].host == host
    {
      MergedMembers(s, host, held, active, n);
    }
    MergedCalls(s, host, held, active);
  }

  lemma MergedCalls(s: State, host: Number, held: Number, active: Number)
    requires Inv(s) && held != active
    requires InCall(s, host, held) && InCall(s, host, active)
    ensures var s' := HandleMerge(s, host, held, active, true);
      && Pair(host, held) in s.calls && Pair(host, active) in s.calls
      && s'.calls == s.calls - {Pair(host, held), Pair(host, active)}
      && OpenRows(s'.db) == OpenRows(s.db) - {s.calls[Pair(host, held)], s.calls[Pair(host, active)]}
  {
    MergeIs(s, host, held, active);
    MergeShape(s.calls, s.confs.index, host, held, active);
    MergedParts(s, host, held, active);
    OnlyTheTwoLeave(s.calls, host, held, active);
    ClosedRowsLeave(InsertConf(s.db, s.nextConf, NewConference(host, s.calls[Pair(host, held)], [held, active])),
                    {s.calls[Pair(host, held)], s.calls[Pair(host, active)]});
  }

  lemma ClosedRowsLeave(d: Database, ids: set<nat>)
    ensures OpenRows(CloseRows(d, ids)) == OpenRows(d) - ids
  {
  }

  lemma OnlyTheTwoLeave(c: CallTable, host: Number, held: Number, active: Number)
    requires forall p | p in c ::
      p.caller in {host, held, active} || p.callee in {host, held, active}
      <==> p == Pair(host, held) || p == Pair(host, active)
    ensures WithoutMembers(c, {host, held, active}) == c - {Pair(host, held), Pair(host, active)}
  {
  }

  lemma ClearingAnIdleNumber(s: State, n: Number, dbOk: bool)
    requires forall p | p in s.calls :: !Involves(p, n)
    ensures ClearByNumber(s, n, dbOk).calls == s.calls
    ensures ClearByNumber(s, n, dbOk).confs == s.confs
  {
  }

  /** The last device of a line going away ends its conference for all three members, but
      leaves a 2-party call in place for the grace window. */
  lemma DisconnectEndsOnlyConferences(s: State, n: Number, dbOk: bool)
    requires Inv(s)
    ensures OnDisconnect(s, n, true, dbOk) == s
    ensures OnDisconnect(s, n, false, dbOk).calls == s.calls
    ensures n !in s.confs.index ==> OnDisconnect(s, n, false, dbOk).confs == s.confs
    ensures n in s.confs.index ==>
      forall m | Holds(s.confs, s.confs.index[n], m) :: Idle(OnDisconnect(s, n, false, dbOk), m)
  {
    FoundConferenceIsActive(s, n);
    if n in s.confs.index {
      var id := s.confs.index[n];
      MembersTakePart(s, id, n);
      ClearingAnIdleNumber(EndConferencePersistent(s, id, dbOk), n, dbOk);
      forall m | Holds(s.confs, id, m) ensures Idle(OnDisconnect(s, n, false, dbOk), m) {
        EndConferenceFrees(s, id, dbOk, m);
      }
    } else {
      QueriesAgree(s, n, n);
      if PeersOf(s, n) == {} {
        PeersCoverTheCalls(s.calls, n, []);
        assert forall p | p in s.calls :: p in WithoutNumber(s.calls, n);
        ClearingAnIdleNumber(s, n, dbOk);
      }
    }
  }
}
