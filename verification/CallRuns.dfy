/** Every step keeps the four copies of the call state together; what that means for whole
    runs, and exactly which requests break it. */
module CallRuns {
  import opened Basics
  import opened CallModel
  import opened CallSteps
  import opened CallRoles
  import opened CallMirror
  import opened CallRows

  ghost predicate Inv(s: State) {
    && MemoryOk(s) && MirrorOk(s)
    && CallRowsOk(s.calls, s.db) && ConfRowsOk(s.confs, s.nextConf, s.db)
  }

  ghost predicate Exact(s: State) {
    CallRowsExact(s.calls, s.db) && ConfRowsExact(s.confs, s.db)
  }

  ghost function Alone(s: State): State {
    s.(redis := None)
  }

  // ---- tracker operations ----

  lemma StartKeeps(s: State, p: Pair)
    requires Inv(s) && MayStart(s.calls, s.confs.index, p) && p.caller != p.callee
    ensures Inv(StartCall(s, p))
    ensures Exact(s) ==> Exact(StartCall(s, p))
    ensures Alone(StartCall(s, p)) == StartCall(Alone(s), p)
  {
    assert !Involves(Reverse(p), p.callee) || Reverse(p) !in s.calls;
    assert p !in s.calls;
    StartKeepsRoles(s.calls, s.confs.index, p, s.db.nextID);
    StartRows(s.calls, s.db, p);
    if s.redis.Some? {
      StartMirrored(s.calls, s.redis.value.calls, p, s.db.nextID);
    }
  }

  lemma EndCallKeeps(s: State, a: Number, b: Number, dbOk: bool)
    requires Inv(s)
    ensures Inv(EndCall(s, a, b, dbOk))
    ensures Exact(s) && dbOk ==> Exact(EndCall(s, a, b, dbOk))
    ensures Alone(EndCall(s, a, b, dbOk)) == EndCall(Alone(s), a, b, dbOk)
  {
    var s' := EndCall(s, a, b, dbOk);
    FewerCallsKeepRoles(s.calls, s.confs.index, s'.calls, s'.confs.index);
    EndRowsOk(s.calls, s.db, a, b);
    if s.redis.Some? {
      EndMirrored(s.calls, s.redis.value.calls, a, b);
    }
    if Exact(s) && dbOk {
      EndRowsExact(s.calls, s.confs.index, s.db, a, b);
    }
  }

  lemma ClearKeeps(s: State, n: Number, dbOk: bool)
    requires Inv(s)
    ensures Inv(ClearByNumber(s, n, dbOk))
    ensures Exact(s) && dbOk ==> Exact(ClearByNumber(s, n, dbOk))
    ensures Alone(ClearByNumber(s, n, dbOk)) == ClearByNumber(Alone(s), n, dbOk)
  {
    var s' := ClearByNumber(s, n, dbOk);
    FewerCallsKeepRoles(s.calls, s.confs.index, s'.calls, s'.confs.index);
    ClearRows(s.calls, s.db, n);
    if s.redis.Some? {
      ClearMirrored(s.calls, s.redis.value.calls, n);
    }
  }

  lemma EndConferenceKeeps(s: State, id: nat)
    requires Inv(s) && id in s.confs.active
    ensures Inv(EndConference(s, id))
    ensures Alone(EndConference(s, id)) == EndConference(Alone(s), id)
  {
    var s' := EndConference(s, id);
    RemoveConferenceKeeps(s.confs, s.nextConf, id);
    FewerCallsKeepRoles(s.calls, s.confs.index, s'.calls, s'.confs.index);
    if s.redis.Some? {
      RemoveMirrored(s.confs, s.nextConf, s.redis.value.confs, id);
    }
  }

  lemma CloseConfKeeps(s: State, id: nat)
    requires Inv(s) && id !in s.confs.active
    ensures Inv(s.(db := CloseConf(s.db, id)))
  {
    var d := CloseConf(s.db, id);
    assert d.calls == s.db.calls && d.nextID == s.db.nextID;
    assert CallRowsOk(s.calls, d);
  }

  lemma EndConferencePersistentKeeps(s: State, id: nat, dbOk: bool)
    requires Inv(s)
    ensures Inv(EndConferencePersistent(s, id, dbOk))
    ensures Alone(EndConferencePersistent(s, id, dbOk)) == EndConferencePersistent(Alone(s), id, dbOk)
  {
    if id in s.confs.active {
      EndConferenceKeeps(s, id);
      if dbOk { CloseConfKeeps(EndConference(s, id), id); }
    }
  }

  lemma EndConferencePersistentExact(s: State, id: nat)
    requires Exact(s)
    ensures Exact(EndConferencePersistent(s, id, true))
  {
  }

  lemma DropMemberKeeps(s: State, id: nat, phone: Number)
    requires Inv(s) && id in s.confs.active && phone in s.confs.active[id].members
    ensures Inv(DropMember(s, id, phone))
    ensures DropMember(s, id, phone).confs == RemoveConference(s.confs, id)
    ensures Alone(DropMember(s, id, phone)) == DropMember(Alone(s), id, phone)
  {
    var s' := DropMember(s, id, phone);
    DropIsRemove(s.confs, s.nextConf, id, phone);
    RemoveConferenceKeeps(s.confs, s.nextConf, id);
    FewerCallsKeepRoles(s.calls, s.confs.index, s'.calls, s'.confs.index);
    if s.redis.Some? {
      DropMirrored(s.confs, s.nextConf, s.redis.value.confs, id, phone);
    }
  }

  ghost function Dropped(s: State, id: nat, phone: Number): State
    requires id in s.confs.active
  {
    var dropped := DropMember(s, id, phone);
    dropped.(db := CloseConf(dropped.db, id))
  }

  lemma DroppedKeeps(s: State, id: nat, phone: Number)
    requires Inv(s) && id in s.confs.active && phone in s.confs.active[id].members
    ensures Inv(Dropped(s, id, phone))
    ensures Exact(s) ==> Exact(Dropped(s, id, phone))
    ensures Alone(Dropped(s, id, phone)) == Dropped(Alone(s), id, phone)
  {
    DropMemberKeeps(s, id, phone);
  }

  /** The two survivors of a drop are idle, and become a call under their sorted key. */
  lemma SurvivorsMayStart(s: State, id: nat, phone: Number)
    requires Inv(s) && id in s.confs.active && phone in s.confs.active[id].members
    ensures |Remaining(s.confs.active[id], phone)| == 2
    ensures var p := SurvivorPair(Remaining(s.confs.active[id], phone));
      MayStart(s.calls, RemoveConference(s.confs, id).index, p) && p.caller != p.callee
  {
    DropIsRemove(s.confs, s.nextConf, id, phone);
    var who := Remaining(s.confs.active[id], phone);
    SurvivorsAre(who);
    var p := SurvivorPair(who);
    assert p.caller in who && p.callee in who;
    assert Holds(s.confs, id, p.caller) && Holds(s.confs, id, p.callee);
    assert CallsBy(s.calls, p.caller) == {} && CallsTo(s.calls, p.caller) == {};
  }

  /** A committed drop of a member: the conference goes and the survivors' call starts. */
  lemma DropCommits(s: State, id: nat, phone: Number)
    requires Inv(s) && id in s.confs.active && phone in s.confs.active[id].members
    ensures |Remaining(s.confs.active[id], phone)| == 2
    ensures DropMemberPersistent(s, id, phone, true)
         == StartCall(Dropped(s, id, phone), SurvivorPair(Remaining(s.confs.active[id], phone)))
    ensures Inv(DropMemberPersistent(s, id, phone, true))
    ensures Exact(s) ==> Exact(DropMemberPersistent(s, id, phone, true))
    ensures Alone(DropMemberPersistent(s, id, phone, true))
         == StartCall(Alone(Dropped(s, id, phone)), SurvivorPair(Remaining(s.confs.active[id], phone)))
  {
    assert Holds(s.confs, id, phone);
    SurvivorsMayStart(s, id, phone);
    DropMemberKeeps(s, id, phone);
    DroppedKeeps(s, id, phone);
    StartKeeps(Dropped(s, id, phone), SurvivorPair(Remaining(s.confs.active[id], phone)));
  }

  lemma AloneKeeps(s: State)
    requires Inv(s)
    ensures Inv(Alone(s))
  {
  }

  lemma CommittedDropAlone(s: State, id: nat, phone: Number)
    requires Inv(s) && Inv(Alone(s)) && id in s.confs.active && phone in s.confs.active[id].members
    ensures Alone(DropMemberPersistent(s, id, phone, true)) == DropMemberPersistent(Alone(s), id, phone, true)
  {
    DropCommits(s, id, phone);
    DropCommits(Alone(s), id, phone);
    DroppedKeeps(s, id, phone);
    var p := SurvivorPair(Remaining(s.confs.active[id], phone));
    calc {
      Alone(DropMemberPersistent(s, id, phone, true));
      StartCall(Alone(Dropped(s, id, phone)), p);
      StartCall(Dropped(Alone(s), id, phone), p);
      DropMemberPersistent(Alone(s), id, phone, true);
    }
  }

  /** A drop does to memory and rows what it would do without Redis. */
  lemma DropKeepsAlone(s: State, id: nat, phone: Number, txOk: bool)
    requires Inv(s)
    ensures Alone(DropMemberPersistent(s, id, phone, txOk)) == DropMemberPersistent(Alone(s), id, phone, txOk)
  {
    if id in s.confs.active && phone in s.confs.active[id].members {
      assert Holds(s.confs, id, phone);
      if txOk {
        AloneKeeps(s);
        CommittedDropAlone(s, id, phone);
      } else {
        DropMemberKeeps(s, id, phone);
      }
    }
  }

  lemma DropKeeps(s: State, id: nat, phone: Number, txOk: bool)
    requires Inv(s)
    ensures Inv(DropMemberPersistent(s, id, phone, txOk))
    ensures Exact(s) && txOk ==> Exact(DropMemberPersistent(s, id, phone, txOk))
    ensures Alone(DropMemberPersistent(s, id, phone, txOk)) == DropMemberPersistent(Alone(s), id, phone, txOk)
  {
    DropKeepsAlone(s, id, phone, txOk);
    if id in s.confs.active && phone in s.confs.active[id].members {
      assert Holds(s.confs, id, phone);
      if txOk {
        DropCommits(s, id, phone);
      } else {
        DropMemberKeeps(s, id, phone);
      }
    }
  }

  // ---- handlers ----

  /** handleCall's guards, read on memory. */
  lemma GuardsMeanMayStart(s: State, from: Number, to: Number)
    requires Inv(s) && !Busy(s, to) && (!Busy(s, from) || CanAddAsHost(s, from))
    ensures MayStart(s.calls, s.confs.index, Pair(from, to))
  {
    QueriesAgree(s, to, to);
    QueriesAgree(s, from, from);
    if !Busy(s, from) {
      assert CallsTo(s.calls, from) == {} && CallsBy(s.calls, from) == {};
    }
  }

  ghost predicate DialAccepted(s: State, from: Number, to: Number, online: bool, allowed: bool, dbOk: bool) {
    online && allowed && dbOk && !Busy(s, to) && (!Busy(s, from) || CanAddAsHost(s, from))
  }

  /** A dial keeps everything exactly when it is refused or names two different phones. */
  lemma DialKeepsIff(s: State, from: Number, to: Number, online: bool, allowed: bool, dbOk: bool)
    requires Inv(s)
    ensures Inv(HandleCall(s, from, to, online, allowed, dbOk))
       <==> from != to || !online || !allowed || !dbOk || Busy(s, from)
  {
    var p := Pair(from, to);
    if DialAccepted(s, from, to, online, allowed, dbOk) {
      GuardsMeanMayStart(s, from, to);
      if from != to {
        StartKeeps(s, p);
      } else {
        assert p in StartCall(s, p).calls;
        assert !CallersTakeNoCall(StartCall(s, p).calls);
      }
    }
  }

  /** The smallest witness: one phone that dials itself is both caller and callee. */
  lemma SelfDialBreaksTheRoles(n: Number)
    ensures var s := HandleCall(Empty(false), n, n, true, true, true);
      !OneRole(s, n) && |CallsBy(s.calls, n)| == 1 && CallsTo(s.calls, n) == CallsBy(s.calls, n)
  {
    var s := HandleCall(Empty(false), n, n, true, true, true);
    assert s.calls == map[Pair(n, n) := 1];
    assert CallsBy(s.calls, n) == {Pair(n, n)} && CallsTo(s.calls, n) == {Pair(n, n)};
  }

  lemma DialRest(s: State, from: Number, to: Number, online: bool, allowed: bool, dbOk: bool)
    requires Inv(s) && from != to
    ensures Exact(s) ==> Exact(HandleCall(s, from, to, online, allowed, dbOk))
    ensures Alone(HandleCall(s, from, to, online, allowed, dbOk)) == HandleCall(Alone(s), from, to, online, allowed, dbOk)
  {
    QueriesAgree(s, to, to);
    QueriesAgree(s, from, from);
    if DialAccepted(s, from, to, online, allowed, dbOk) {
      GuardsMeanMayStart(s, from, to);
      StartKeeps(s, Pair(from, to));
    }
  }

  lemma {:induction false} EndEachKeeps(s: State, n: Number, peers: seq<Number>, fails: set<Number>)
    requires Inv(s)
    ensures Inv(EndEach(s, n, peers, fails))
    ensures Exact(s) && fails == {} ==> Exact(EndEach(s, n, peers, fails))
    ensures Alone(EndEach(s, n, peers, fails)) == EndEach(Alone(s), n, peers, fails)
    decreases |peers|
  {
    if peers != [] {
      var last := peers[|peers| - 1];
      EndEachKeeps(s, n, peers[..|peers| - 1], fails);
      EndCallKeeps(EndEach(s, n, peers[..|peers| - 1], fails), n, last, last !in fails);
    }
  }

  /** The two call ids a merge closes are those of the two calls that leave memory. */
  lemma MergedRows(s: State, host: Number, held: Number, active: Number)
    requires Inv(s) && held != active
    requires TableInCall(s.calls, host, held) && TableInCall(s.calls, host, active)
    ensures var c' := WithoutMembers(s.calls, {host, held, active});
      var merged := {TableCallID(s.calls, host, held), TableCallID(s.calls, host, active)};
      && 0 !in merged
      && (forall p | p in c' :: p in s.calls && c'[p] == s.calls[p] && s.calls[p] !in merged)
      && (forall p | p in s.calls && p !in c' :: s.calls[p] in merged)
  {
    MergeShape(s.calls, s.confs.index, host, held, active);
    MergedRowsFromShape(s.calls, s.db, host, held, active);
  }

  lemma MergedRowsFromShape(c: CallTable, d: Database, host: Number, held: Number, active: Number)
    requires CallRowsOk(c, d) && Pair(host, held) in c && Pair(host, active) in c
    requires forall p | p in c ::
      p.caller in {host, held, active} || p.callee in {host, held, active}
      <==> p == Pair(host, held) || p == Pair(host, active)
    ensures var c' := WithoutMembers(c, {host, held, active});
      var merged := {TableCallID(c, host, held), TableCallID(c, host, active)};
      && 0 !in merged
      && (forall p | p in c' :: p in c && c'[p] == c[p] && c[p] !in merged)
      && (forall p | p in c && p !in c' :: c[p] in merged)
  {
    var c' := WithoutMembers(c, {host, held, active});
    forall p | p in c' ensures c[p] != c[Pair(host, held)] && c[p] != c[Pair(host, active)] {
      if c[p] == c[Pair(host, held)] { IDsAreDistinct(c, d, p, Pair(host, held)); }
      if c[p] == c[Pair(host, active)] { IDsAreDistinct(c, d, p, Pair(host, active)); }
    }
  }

  lemma CreateThenEnd(s: State, host: Number, originating: nat, added: seq<Number>)
    requires Inv(s) && !CreateRefused(s, host, added)
    ensures EndConference(CreateConference(s, host, originating, added), s.nextConf).(nextConf := s.nextConf) == s
  {
    var conf := NewConference(host, originating, added);
    forall n | n in conf.members ensures n !in s.confs.index && !conf.members[n].left {
      assert n == host || n in added;
    }
    CreateThenEndRestores(s.confs, s.nextConf, conf);
    if s.redis.Some? {
      KeysRestored(s.redis.value.confs, s.nextConf, s.confs, conf);
    }
  }

  ghost function Merged(s: State, host: Number, held: Number, active: Number): State {
    var created := CreateConference(s, host, TableCallID(s.calls, host, held), [held, active]);
    CommitMerge(created, s.nextConf, host, [held, active],
                {TableCallID(s.calls, host, held), TableCallID(s.calls, host, active)})
  }

  lemma MergedParts(s: State, host: Number, held: Number, active: Number)
    ensures var s' := Merged(s, host, held, active);
      var c := NewConference(host, TableCallID(s.calls, host, held), [held, active]);
      && c.members.Keys == {host, held, active}
      && s'.calls == WithoutMembers(s.calls, {host, held, active})
      && s'.confs == AddConference(s.confs, s.nextConf, c)
      && s'.db == CloseRows(InsertConf(s.db, s.nextConf, c),
                            {TableCallID(s.calls, host, held), TableCallID(s.calls, host, active)})
      && s'.nextConf == s.nextConf + 1
      && (s.redis.Some? <==> s'.redis.Some?)
      && (s.redis.Some? ==>
            && s'.redis.value.calls == HashEndEach(s.redis.value.calls, host, [held, active])
            && s'.redis.value.confs == KeysCreate(s.redis.value.confs, s.nextConf, DetailOf(c)))
  {
    var c := NewConference(host, TableCallID(s.calls, host, held), [held, active]);
    assert c.members.Keys == {host, held, active};
  }

  lemma MergeKeepsRoles(c: CallTable, index: map<Number, nat>, members: set<Number>, id: nat)
    requires Roles(c, index)
    ensures Roles(WithoutMembers(c, members), IndexAll(index, members, id))
  {
    var c' := WithoutMembers(c, members);
    FewerCallsKeepRoles(c, index, c', index);
    assert MembersTakeNoCall(c', IndexAll(index, members, id));
  }

  lemma MergedMemory(s: State, host: Number, held: Number, active: Number)
    requires Inv(s) && held != active
    requires TableInCall(s.calls, host, held) && TableInCall(s.calls, host, active)
    ensures MemoryOk(Merged(s, host, held, active)) && MirrorOk(Merged(s, host, held, active))
  {
    MergedParts(s, host, held, active);
    var originating := TableCallID(s.calls, host, held);
    var conf := NewConference(host, originating, [held, active]);
    MergeShape(s.calls, s.confs.index, host, held, active);
    ThreeMembers(host, originating, held, active);
    AddConferenceKeeps(s.confs, s.nextConf, conf);
    MergeKeepsRoles(s.calls, s.confs.index, {host, held, active}, s.nextConf);
    if s.redis.Some? {
      MergeMirrored(s.calls, s.confs.index, s.redis.value.calls, host, held, active);
      CreateMirrored(s.confs, s.redis.value.confs, s.nextConf, conf);
    }
  }

  lemma InsertConfRows(t: ConfTable, nextConf: nat, d: Database, c: Conference, ids: set<nat>)
    requires ConfRowsOk(t, nextConf, d)
    ensures var d' := CloseRows(InsertConf(d, nextConf, c), ids);
      && ConfRowsOk(AddConference(t, nextConf, c), nextConf + 1, d')
      && (ConfRowsExact(t, d) ==> ConfRowsExact(AddConference(t, nextConf, c), d'))
      && d'.calls == CloseRows(d, ids).calls && d'.nextID == d.nextID
  {
  }

  lemma OnlyCallsMatter(c: CallTable, d: Database, d': Database)
    requires CallRowsOk(c, d) && d'.calls == d.calls && d'.nextID == d.nextID
    ensures CallRowsOk(c, d')
    ensures CallRowsExact(c, d) ==> CallRowsExact(c, d')
  {
    if CallRowsExact(c, d) {
      forall id | id in d'.calls && d'.calls[id].open
        ensures RowPair(d', id) in c && c[RowPair(d', id)] == id
      {
        assert RowPair(d', id) == RowPair(d, id);
      }
    }
  }

  lemma MergedDatabase(s: State, host: Number, held: Number, active: Number)
    requires Inv(s) && held != active
    requires TableInCall(s.calls, host, held) && TableInCall(s.calls, host, active)
    ensures var s' := Merged(s, host, held, active);
      && CallRowsOk(s'.calls, s'.db) && ConfRowsOk(s'.confs, s'.nextConf, s'.db)
      && (Exact(s) ==> Exact(s'))
  {
    MergedParts(s, host, held, active);
    MergedRows(s, host, held, active);
    var conf := NewConference(host, TableCallID(s.calls, host, held), [held, active]);
    var merged := {TableCallID(s.calls, host, held), TableCallID(s.calls, host, active)};
    var left := WithoutMembers(s.calls, {host, held, active});
    CloseLeavingRows(s.calls, left, s.db, merged);
    InsertConfRows(s.confs, s.nextConf, s.db, conf, merged);
    OnlyCallsMatter(left, CloseRows(s.db, merged), CloseRows(InsertConf(s.db, s.nextConf, conf), merged));
  }

  ghost predicate MergeReady(s: State, host: Number, held: Number, active: Number) {
    && InCall(s, host, held) && InCall(s, host, active)
    && CallIDForPair(s, host, held) == TableCallID(s.calls, host, held) != 0
    && CallIDForPair(s, host, active) == TableCallID(s.calls, host, active) != 0
    && !ConfBusy(s, held) && !ConfBusy(s, active) && !ConfBusy(s, host)
  }

  /** Two in-call tests that hold on memory make every later check of the merge succeed. */
  lemma InCallMeansReady(s: State, host: Number, held: Number, active: Number)
    requires Inv(s)
    ensures InCall(s, host, held) <==> TableInCall(s.calls, host, held)
    ensures InCall(s, host, active) <==> TableInCall(s.calls, host, active)
    ensures TableInCall(s.calls, host, held) && TableInCall(s.calls, host, active)
        ==> MergeReady(s, host, held, active)
  {
    QueriesAgree(s, host, held);
    QueriesAgree(s, host, active);
    QueriesAgree(s, held, host);
    QueriesAgree(s, active, host);
  }

  lemma ReadyMerges(s: State, host: Number, held: Number, active: Number)
    requires MergeReady(s, host, held, active)
    ensures HandleMerge(s, host, held, active, true) == Merged(s, host, held, active)
  {
    var added := [held, active];
    var callID := CallIDForPair(s, host, held);
    assert forall m | m in added :: m == held || m == active;
    assert held in added && active in added;
    assert {callID} + (set m | m in added :: CallIDForPair(s, host, m))
        == {callID, CallIDForPair(s, host, active)};
    assert !CreateRefused(s, host, added);
  }

  /** When handleConferenceMerge goes through, read on memory. */
  lemma MergeIs(s: State, host: Number, held: Number, active: Number)
    requires Inv(s)
    ensures InCall(s, host, held) <==> TableInCall(s.calls, host, held)
    ensures InCall(s, host, active) <==> TableInCall(s.calls, host, active)
    ensures HandleMerge(s, host, held, active, true) ==
      if TableInCall(s.calls, host, held) && TableInCall(s.calls, host, active)
      then Merged(s, host, held, active) else s
  {
    InCallMeansReady(s, host, held, active);
    if MergeReady(s, host, held, active) {
      ReadyMerges(s, host, held, active);
    }
  }

  lemma MergeKeeps(s: State, host: Number, held: Number, active: Number, txOk: bool)
    requires Inv(s) && held != active
    ensures Inv(HandleMerge(s, host, held, active, txOk))
    ensures Exact(s) ==> Exact(HandleMerge(s, host, held, active, txOk))
  {
    if txOk {
      MergeIs(s, host, held, active);
      if TableInCall(s.calls, host, held) && TableInCall(s.calls, host, active) {
        MergedMemory(s, host, held, active);
        MergedDatabase(s, host, held, active);
      }
    } else {
      FailedMergeRestores(s, host, held, active);
      LaterNamesKeep(s, HandleMerge(s, host, held, active, false));
    }
  }

  lemma LaterNamesKeep(s: State, s': State)
    requires Inv(s) && s' == s.(nextConf := s'.nextConf) && s.nextConf <= s'.nextConf
    ensures Inv(s')
  {
  }

  /** A merge keeps everything exactly when it is refused, rolled back, or names two peers. */
  lemma MergeKeepsIff(s: State, host: Number, held: Number, active: Number, txOk: bool)
    requires Inv(s)
    ensures Inv(HandleMerge(s, host, held, active, txOk))
       <==> held != active || !InCall(s, host, held) || !txOk
  {
    if held != active {
      MergeKeeps(s, host, held, active, txOk);
    } else if !txOk {
      FailedMergeRestores(s, host, held, active);
      LaterNamesKeep(s, HandleMerge(s, host, held, active, false));
    } else {
      MergeIs(s, host, held, active);
      if TableInCall(s.calls, host, held) {
        MergedParts(s, host, held, held);
        var conf := NewConference(host, TableCallID(s.calls, host, held), [held, held]);
        TwoMembersWhenMergedWithOne(host, TableCallID(s.calls, host, held), held);
        assert Merged(s, host, held, held).confs.active[s.nextConf] == conf;
        assert !WellFormed(conf);
      }
    }
  }

  /** A failed merge transaction restores calls, conferences, index, mirror and rows
      exactly; only the name of the abandoned conference is used up. */
  lemma FailedMergeRestores(s: State, host: Number, held: Number, active: Number)
    requires Inv(s)
    ensures HandleMerge(s, host, held, active, false) ==
      if TableInCall(s.calls, host, held) && TableInCall(s.calls, host, active)
      then s.(nextConf := s.nextConf + 1) else s
  {
    InCallMeansReady(s, host, held, active);
    if MergeReady(s, host, held, active) {
      var added := [held, active];
      assert forall m | m in added :: m == held || m == active;
      CreateThenEnd(s, host, CallIDForPair(s, host, held), added);
    }
  }

  lemma KeysRestored(k: ConfKeys, id: nat, t: ConfTable, c: Conference)
    requires ConfsMirrored(t, k) && id !in t.active
    requires forall n | n in c.members :: n !in t.index && !c.members[n].left
    ensures KeysEnd(KeysCreate(k, id, DetailOf(c)), id, Present(c)) == k
  {
    assert Present(c) == c.members.Keys;
    var k' := KeysEnd(KeysCreate(k, id, DetailOf(c)), id, Present(c));
    assert k'.details == k.details && k'.members == k.members;
  }
}
