/** The relay handlers and tracker operations of one replica as functions on its whole
    state: memory, the Redis mirror when one is attached, and the database.
    A flag `dbOk` or `txOk` says whether the database write of that step succeeds. */
module CallSteps {
  import opened Basics
  import opened CallModel

  datatype Mirror = Mirror(calls: CallHash, confs: ConfKeys)

  datatype State = State(
    calls: CallTable,
    confs: ConfTable,
    redis: Option<Mirror>,
    db: Database,
    nextConf: nat)

  function Empty(attached: bool): State {
    State(map[], ConfTable(map[], map[]),
          if attached then Some(Mirror(map[], ConfKeys(map[], map[]))) else None,
          Database(map[], 1, map[]), 0)
  }

  // ---- queries: Redis answers when attached, memory otherwise ----

  predicate ConfBusy(s: State, n: Number) {
    n in s.confs.index || (s.redis.Some? && n in s.redis.value.confs.members)
  }

  predicate Busy(s: State, n: Number) {
    ConfBusy(s, n) || (if s.redis.Some? then HashBusy(s.redis.value.calls, n) else TableBusy(s.calls, n))
  }

  predicate CanAddAsHost(s: State, n: Number) {
    !ConfBusy(s, n)
    && if s.redis.Some? then HashCanAdd(s.redis.value.calls, n) else TableCanAdd(s.calls, n)
  }

  predicate InCall(s: State, a: Number, b: Number) {
    if s.redis.Some? then HashInCall(s.redis.value.calls, a, b) else TableInCall(s.calls, a, b)
  }

  function CallIDForPair(s: State, a: Number, b: Number): nat {
    if s.redis.Some? then HashCallID(s.redis.value.calls, a, b) else TableCallID(s.calls, a, b)
  }

  function PeersOf(s: State, n: Number): set<Number> {
    if s.redis.Some? then HashPeers(s.redis.value.calls, n) else TablePeers(s.calls, n)
  }

  /** The conference a phone is in, with its host; memory first, then Redis. */
  function ConferenceByPhone(s: State, n: Number): Option<(nat, Number)> {
    if n in s.confs.index then
      var id := s.confs.index[n];
      if id in s.confs.active then Some((id, s.confs.active[id].host)) else None
    else if s.redis.Some? && n in s.redis.value.confs.members then
      var id := s.redis.value.confs.members[n];
      if id in s.redis.value.confs.details then Some((id, s.redis.value.confs.details[id].host)) else None
    else None
  }

  // ---- tracker operations ----

  function OnRedisCalls(s: State, h: CallHash): State
    requires s.redis.Some?
  {
    s.(redis := Some(s.redis.value.(calls := h)))
  }

  function OnRedisConfs(s: State, k: ConfKeys): State
    requires s.redis.Some?
  {
    s.(redis := Some(s.redis.value.(confs := k)))
  }

  function StartCall(s: State, p: Pair): State {
    var id := s.db.nextID;
    var s1 := s.(db := InsertCall(s.db, p.caller, p.callee), calls := s.calls[p := id]);
    if s.redis.None? then s1 else OnRedisCalls(s1, HashStart(s.redis.value.calls, id, p.caller, p.callee))
  }

  function EndCall(s: State, a: Number, b: Number, dbOk: bool): State {
    var s1 := s.(calls := s.calls - {Pair(a, b), Pair(b, a)},
                 db := if dbOk then EndLatest(s.db, a, b) else s.db);
    if s.redis.None? then s1 else OnRedisCalls(s1, HashEnd(s.redis.value.calls, a, b))
  }

  function ClearByNumber(s: State, n: Number, dbOk: bool): State {
    var s1 := s.(calls := map p | p in s.calls && !Involves(p, n) :: s.calls[p],
                 db := if dbOk then EndAllOf(s.db, n) else s.db);
    if s.redis.None? then s1 else OnRedisCalls(s1, HashClear(s.redis.value.calls, n))
  }

  function EndConference(s: State, id: nat): State
    requires id in s.confs.active
  {
    var s1 := s.(confs := RemoveConference(s.confs, id));
    if s.redis.None? then s1
    else OnRedisConfs(s1, KeysEnd(s.redis.value.confs, id, Present(s.confs.active[id])))
  }

  /** Unknown conferences are skipped; a failed write leaves memory ended. */
  function EndConferencePersistent(s: State, id: nat, dbOk: bool): State {
    if id !in s.confs.active then s
    else
      var s1 := EndConference(s, id);
      if dbOk then s1.(db := CloseConf(s1.db, id)) else s1
  }

  /** The reasons CreateConference refuses. */
  predicate CreateRefused(s: State, host: Number, added: seq<Number>) {
    |added| != 2 || host in s.confs.index || exists m | m in added :: m in s.confs.index
  }

  function CreateConference(s: State, host: Number, originating: nat, added: seq<Number>): State {
    var c := NewConference(host, originating, added);
    var s1 := s.(confs := AddConference(s.confs, s.nextConf, c), nextConf := s.nextConf + 1);
    if s.redis.None? then s1
    else OnRedisConfs(s1, KeysCreate(s.redis.value.confs, s.nextConf, ConfDetail(host, originating, c.members.Keys)))
  }

  function HashEndEach(h: CallHash, host: Number, added: seq<Number>): CallHash
    decreases |added|
  {
    if added == [] then h else HashEndEach(HashEnd(h, host, added[0]), host, added[1..])
  }

  /** A committed merge: the conference row, the merged calls' rows, and no member in a call. */
  function CommitMerge(created: State, id: nat, host: Number, added: seq<Number>, merged: set<nat>): State
    requires id in created.confs.active
  {
    var members := created.confs.active[id].members.Keys;
    var s1 := created.(
      calls := map p | p in created.calls && p.caller !in members && p.callee !in members :: created.calls[p],
      db := CloseRows(InsertConf(created.db, id, created.confs.active[id]), merged));
    if created.redis.None? then s1 else OnRedisCalls(s1, HashEndEach(created.redis.value.calls, host, added))
  }

  function CreateConferencePersistent(s: State, host: Number, originating: nat, added: seq<Number>, txOk: bool): State {
    if (exists m | m in added :: CallIDForPair(s, host, m) == 0) || CreateRefused(s, host, added) then s
    else
      var id := s.nextConf;
      var created := CreateConference(s, host, originating, added);
      if !txOk then EndConference(created, id)
      else CommitMerge(created, id, host, added, {originating} + set m | m in added :: CallIDForPair(s, host, m))
  }

  /** The two survivors of a drop under their sorted key. */
  ghost function SurvivorPair(who: set<Number>): Pair
    requires |who| == 2
  {
    var a :| a in who;
    assert |who - {a}| == 1;
    var b :| b in who - {a};
    SortedPair(a, b)
  }

  /** Any drop ends the conference: three members become two. */
  function DropMember(s: State, id: nat, phone: Number): State
    requires id in s.confs.active
  {
    var s1 := s.(confs := DropConference(s.confs, id, phone));
    if s.redis.None? then s1
    else OnRedisConfs(s1, KeysEnd(KeysRemoveMember(s.redis.value.confs, phone), id, Remaining(s.confs.active[id], phone)))
  }

  ghost function DropMemberPersistent(s: State, id: nat, phone: Number, txOk: bool): State {
    if ConferenceByPhone(s, phone).None? || id !in s.confs.active || phone !in s.confs.active[id].members then s
    else
      var remaining := Remaining(s.confs.active[id], phone);
      var dropped := DropMember(s, id, phone);
      if !txOk then dropped
      else
        var closed := dropped.(db := CloseConf(dropped.db, id));
        if |remaining| == 2 then StartCall(closed, SurvivorPair(remaining)) else closed
  }

  // ---- relay handlers ----

  function HandleCall(s: State, from: Number, to: Number, online: bool, allowed: bool, dbOk: bool): State {
    if !online || !allowed || Busy(s, to) || (Busy(s, from) && !CanAddAsHost(s, from)) || !dbOk then s
    else StartCall(s, Pair(from, to))
  }

  /** Ends n's calls with the listed peers one by one; `fails` are the peers whose
      database update is lost. */
  function EndEach(s: State, n: Number, peers: seq<Number>, fails: set<Number>): State
    decreases |peers|
  {
    if peers == [] then s
    else
      var last := peers[|peers| - 1];
      EndCall(EndEach(s, n, peers[..|peers| - 1], fails), n, last, last !in fails)
  }

  ghost function HandleHangup(s: State, n: Number, peers: seq<Number>, fails: set<Number>, txOk: bool): State {
    match ConferenceByPhone(s, n)
    case Some((id, host)) =>
      if host == n then EndConferencePersistent(s, id, txOk)
      else if id in s.confs.active then DropMemberPersistent(s, id, n, txOk)
      else s
    case None => EndEach(s, n, peers, fails)
  }

  function HandleMerge(s: State, host: Number, held: Number, active: Number, txOk: bool): State {
    if !InCall(s, host, held) || !InCall(s, host, active) || ConfBusy(s, held) || ConfBusy(s, active) then s
    else
      var callID := CallIDForPair(s, host, held);
      if callID == 0 then s
      else CreateConferencePersistent(s, host, callID, [held, active], txOk)
  }

  ghost function KickMember(s: State, id: nat, phone: Number, txOk: bool): State {
    if id in s.confs.active then DropMemberPersistent(s, id, phone, txOk) else s
  }

  /** The last device of n's line went away; a 2-party call is held for the grace window. */
  function OnDisconnect(s: State, n: Number, siblings: bool, dbOk: bool): State {
    if siblings then s
    else match ConferenceByPhone(s, n)
      case Some((id, _)) => ClearByNumber(EndConferencePersistent(s, id, dbOk), n, dbOk)
      case None => if PeersOf(s, n) != {} then s else ClearByNumber(s, n, dbOk)
  }

  // ---- runs ----

  datatype Event =
    | Dial(from: Number, to: Number, online: bool, allowed: bool, dbOk: bool)
    | HangUp(n: Number, peers: seq<Number>, fails: set<Number>, txOk: bool)
    | Merge(host: Number, held: Number, active: Number, txOk: bool)
    | Kick(conf: nat, phone: Number, txOk: bool)
    | Disconnect(n: Number, siblings: bool, dbOk: bool)
    | GraceExpired(n: Number, peers: seq<Number>, fails: set<Number>)
    | ForceEnd(a: Number, b: Number, dbOk: bool)
    | Clear(n: Number, dbOk: bool)

  /** The peers a handler walks are all of n's peers, each once, in any order. */
  ghost predicate Lists(peers: seq<Number>, who: set<Number>) {
    (forall p :: p in peers <==> p in who)
    && forall i, j | 0 <= i < j < |peers| :: peers[i] != peers[j]
  }

  ghost predicate Enabled(s: State, e: Event) {
    match e
    case HangUp(n, peers, _, _) => Lists(peers, PeersOf(s, n))
    case GraceExpired(n, peers, _) => Lists(peers, PeersOf(s, n))
    case _ => true
  }

  ghost function Step(s: State, e: Event): State {
    match e
    case Dial(from, to, online, allowed, dbOk) => HandleCall(s, from, to, online, allowed, dbOk)
    case HangUp(n, peers, fails, txOk) => HandleHangup(s, n, peers, fails, txOk)
    case Merge(host, held, active, txOk) => HandleMerge(s, host, held, active, txOk)
    case Kick(conf, phone, txOk) => KickMember(s, conf, phone, txOk)
    case Disconnect(n, siblings, dbOk) => OnDisconnect(s, n, siblings, dbOk)
    case GraceExpired(n, peers, fails) => EndEach(s, n, peers, fails)
    case ForceEnd(a, b, dbOk) => EndCall(s, a, b, dbOk)
    case Clear(n, dbOk) => ClearByNumber(s, n, dbOk)
  }

  /** states[0] is the empty replica and each state follows from the one before. */
  ghost predicate IsRun(attached: bool, states: seq<State>, events: seq<Event>) {
    && |states| == |events| + 1
    && states[0] == Empty(attached)
    && forall i | 0 <= i < |events| :: Enabled(states[i], events[i]) && states[i + 1] == Step(states[i], events[i])
  }
}
