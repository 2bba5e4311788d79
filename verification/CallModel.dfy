/** The data of calls and conferences as the replica, Redis and the database hold
    them, and the elementary operations on each of the three copies. */
module CallModel {
  import opened Basics

  type Number = string

  /** The key of a 2-party call: who dialled whom. */
  datatype Pair = Pair(caller: Number, callee: Number)

  /** The in-memory call table: the database id of every call in flight. */
  type CallTable = map<Pair, nat>

  function Elements(s: seq<Number>): set<Number> {
    set n | n in s
  }

  lemma ElementsStep(s: seq<Number>, i: nat)
    requires i < |s|
    ensures Elements(s[..i + 1]) == Elements(s[..i]) + {s[i]}
  {
    assert s[..i + 1] == s[..i] + [s[i]];
  }

  predicate Involves(p: Pair, n: Number) {
    p.caller == n || p.callee == n
  }

  function Reverse(p: Pair): Pair {
    Pair(p.callee, p.caller)
  }

  /** The key under which the two survivors of a conference are joined. */
  function SortedPair(a: Number, b: Number): Pair {
    if Less(b, a) then Pair(b, a) else Pair(a, b)
  }

  // ---- queries of the in-memory table (tracker.go) ----

  predicate TableBusy(c: CallTable, n: Number) {
    exists p | p in c :: Involves(p, n)
  }

  predicate TableInCall(c: CallTable, a: Number, b: Number) {
    Pair(a, b) in c || Pair(b, a) in c
  }

  /** 0 stands for "no such call". */
  function TableCallID(c: CallTable, a: Number, b: Number): nat {
    if Pair(a, b) in c then c[Pair(a, b)]
    else if Pair(b, a) in c then c[Pair(b, a)]
    else 0
  }

  function CallsBy(c: CallTable, n: Number): set<Pair> {
    set p | p in c && p.caller == n
  }

  function CallsTo(c: CallTable, n: Number): set<Pair> {
    set p | p in c && p.callee == n
  }

  predicate TableCanAdd(c: CallTable, n: Number) {
    CallsTo(c, n) == {} && |CallsBy(c, n)| == 1
  }

  function TablePeers(c: CallTable, n: Number): set<Number> {
    (set p | p in c && p.caller == n :: p.callee) + (set p | p in c && p.callee == n && p.caller != n :: p.caller)
  }

  // ---- the Redis mirror of the calls (state_redis.go) ----

  datatype Side = AsCaller | AsCallee
  datatype Entry = Entry(id: nat, side: Side)

  /** One Redis hash per number, with one field per peer. */
  type CallHash = map<Number, map<Number, Entry>>

  function HSet(h: CallHash, key: Number, field: Number, e: Entry): CallHash {
    h[key := (if key in h then h[key] else map[])[field := e]]
  }

  /** Deletes a field; an emptied hash stays behind until it is pruned. */
  function HDel(h: CallHash, key: Number, field: Number): CallHash {
    if key in h then h[key := h[key] - {field}] else h
  }

  function DeleteIfEmpty(h: CallHash, key: Number): CallHash {
    if key in h && h[key] == map[] then h - {key} else h
  }

  function HashStart(h: CallHash, id: nat, caller: Number, callee: Number): CallHash {
    HSet(HSet(h, caller, callee, Entry(id, AsCaller)), callee, caller, Entry(id, AsCallee))
  }

  function HashEnd(h: CallHash, a: Number, b: Number): CallHash {
    DeleteIfEmpty(DeleteIfEmpty(HDel(HDel(h, a, b), b, a), a), b)
  }

  /** Drops n's hash and n's field in every peer's hash, pruning those left empty. */
  function HashClear(h: CallHash, n: Number): CallHash {
    if n !in h then h
    else map k | k in h && k != n && !(k in h[n] && h[k] - {n} == map[])
           :: if k in h[n] then h[k] - {n} else h[k]
  }

  predicate HashBusy(h: CallHash, n: Number) {
    n in h
  }

  predicate HashInCall(h: CallHash, a: Number, b: Number) {
    a in h && b in h[a]
  }

  function HashCallID(h: CallHash, a: Number, b: Number): nat {
    if HashInCall(h, a, b) then h[a][b].id
    else if HashInCall(h, b, a) then h[b][a].id
    else 0
  }

  predicate HashCanAdd(h: CallHash, n: Number) {
    n in h && |h[n]| == 1 && forall p | p in h[n] :: h[n][p].side == AsCaller
  }

  function HashPeers(h: CallHash, n: Number): set<Number> {
    if n in h then h[n].Keys else {}
  }

  // ---- conferences (conference.go, conference_state_redis.go) ----

  datatype Role = Host | Added
  datatype Member = Member(role: Role, left: bool)
  datatype Conference = Conference(host: Number, originating: nat, members: map<Number, Member>)

  function NewConference(host: Number, originating: nat, added: seq<Number>): Conference {
    Conference(host, originating, AddMembers(map[host := Member(Host, false)], added))
  }

  function AddMembers(m: map<Number, Member>, added: seq<Number>): (r: map<Number, Member>)
    ensures r.Keys == m.Keys + set n | n in added
    ensures forall n | n in added :: r[n] == Member(Added, false)
    ensures forall n | n in m && n !in added :: r[n] == m[n]
    decreases |added|
  {
    if added == [] then m
    else AddMembers(m[added[0] := Member(Added, false)], added[1..])
  }

  function Present(c: Conference): set<Number> {
    set n | n in c.members && !c.members[n].left
  }

  /** The conferences of one replica: active ones by id, and each member's conference. */
  datatype ConfTable = ConfTable(active: map<nat, Conference>, index: map<Number, nat>)

  function IndexAll(index: map<Number, nat>, who: set<Number>, id: nat): map<Number, nat> {
    index + (map n | n in who :: id)
  }

  lemma IndexOneMore(index: map<Number, nat>, who: set<Number>, n: Number, id: nat)
    ensures IndexAll(index, who + {n}, id) == IndexAll(index, who, id)[n := id]
  {
  }

  function AddConference(t: ConfTable, id: nat, c: Conference): ConfTable {
    ConfTable(t.active[id := c], IndexAll(t.index, c.members.Keys, id))
  }

  /** EndConference: every member's index entry goes, whether or not it had left. */
  function RemoveConference(t: ConfTable, id: nat): ConfTable
    requires id in t.active
  {
    ConfTable(t.active - {id}, t.index - t.active[id].members.Keys)
  }

  /** The members still present once phone has been marked as left. */
  function Remaining(c: Conference, phone: Number): set<Number> {
    Present(c) - {phone}
  }

  function DropConference(t: ConfTable, id: nat, phone: Number): ConfTable
    requires id in t.active
  {
    ConfTable(t.active - {id}, t.index - ({phone} + Remaining(t.active[id], phone)))
  }

  datatype ConfDetail = ConfDetail(host: Number, originating: nat, members: set<Number>)

  /** The Redis copy: one detail key per conference, one key per member. */
  datatype ConfKeys = ConfKeys(details: map<nat, ConfDetail>, members: map<Number, nat>)

  function KeysCreate(k: ConfKeys, id: nat, d: ConfDetail): ConfKeys {
    ConfKeys(k.details[id := d], IndexAll(k.members, d.members, id))
  }

  function KeysEnd(k: ConfKeys, id: nat, who: set<Number>): ConfKeys {
    ConfKeys(k.details - {id}, k.members - who)
  }

  function KeysRemoveMember(k: ConfKeys, phone: Number): ConfKeys {
    k.(members := k.members - {phone})
  }

  // ---- the database ----

  datatype CallRow = CallRow(caller: Number, callee: Number, open: bool)
  datatype ConfRow = ConfRow(host: Number, originating: nat, members: set<Number>, open: bool)
  datatype Database = Database(calls: map<nat, CallRow>, nextID: nat, confs: map<nat, ConfRow>)

  function OpenRows(d: Database): set<nat> {
    set id | id in d.calls && d.calls[id].open
  }

  function CloseRows(d: Database, ids: set<nat>): Database {
    d.(calls := map id | id in d.calls :: if id in ids then d.calls[id].(open := false) else d.calls[id])
  }

  function InsertCall(d: Database, caller: Number, callee: Number): Database {
    d.(calls := d.calls[d.nextID := CallRow(caller, callee, true)], nextID := d.nextID + 1)
  }

  function OpenBetween(d: Database, a: Number, b: Number): set<nat> {
    set id | id in d.calls && d.calls[id].open
             && (Pair(d.calls[id].caller, d.calls[id].callee) == Pair(a, b)
                 || Pair(d.calls[id].caller, d.calls[id].callee) == Pair(b, a))
  }

  /** Ends the most recently started open call between a and b, if there is one. */
  function EndLatest(d: Database, a: Number, b: Number): Database {
    var open := OpenBetween(d, a, b);
    if open == {} then d
    else
      MaxExists(open);
      var latest :| latest in open && forall j | j in open :: j <= latest;
      CloseRows(d, {latest})
  }

  function EndAllOf(d: Database, n: Number): Database {
    CloseRows(d, set id | id in d.calls && d.calls[id].open && (d.calls[id].caller == n || d.calls[id].callee == n))
  }

  function InsertConf(d: Database, id: nat, c: Conference): Database {
    d.(confs := d.confs[id := ConfRow(c.host, c.originating, c.members.Keys, true)])
  }

  function CloseConf(d: Database, id: nat): Database {
    if id in d.confs then d.(confs := d.confs[id := d.confs[id].(open := false)]) else d
  }
}
