/** Who may be in which call: the role every number plays, and the invariant that no
    single handler enforces on its own. */
module CallRoles {
  import opened Basics
  import opened CallModel
  import opened CallSteps

  // ---- the role of a number ----

  ghost predicate Idle(s: State, n: Number) {
    CallsBy(s.calls, n) == {} && CallsTo(s.calls, n) == {} && n !in s.confs.index
  }

  ghost predicate IsCallee(s: State, n: Number) {
    CallsBy(s.calls, n) == {} && |CallsTo(s.calls, n)| == 1 && n !in s.confs.index
  }

  ghost predicate IsCaller(s: State, n: Number) {
    1 <= |CallsBy(s.calls, n)| <= 2 && CallsTo(s.calls, n) == {} && n !in s.confs.index
  }

  /** In exactly one active conference, which has three members, and in no call. */
  ghost predicate IsMember(s: State, n: Number) {
    && CallsBy(s.calls, n) == {} && CallsTo(s.calls, n) == {}
    && n in s.confs.index
    && (forall id | id in s.confs.active :: (n in s.confs.active[id].members <==> id == s.confs.index[n]))
    && s.confs.index[n] in s.confs.active
    && |s.confs.active[s.confs.index[n]].members| == 3
  }

  ghost predicate OneRole(s: State, n: Number) {
    && (Idle(s, n) || IsCallee(s, n) || IsCaller(s, n) || IsMember(s, n))
    && !(IsCallee(s, n) && IsCaller(s, n))
    && !(Idle(s, n) && (IsCallee(s, n) || IsCaller(s, n) || IsMember(s, n)))
    && !(IsMember(s, n) && (IsCallee(s, n) || IsCaller(s, n)))
  }

  // ---- the same facts call by call, in the form the proofs use ----

  ghost predicate OneCallPerCallee(c: CallTable) {
    forall p, q | p in c && q in c && p.callee == q.callee :: p == q
  }

  ghost predicate CallersTakeNoCall(c: CallTable) {
    forall p, q | p in c && q in c :: p.caller != q.callee
  }

  ghost predicate AtMostTwoCalls(c: CallTable) {
    forall p, q, r | p in c && q in c && r in c && p.caller == q.caller == r.caller :: p == q || p == r || q == r
  }

  ghost predicate MembersTakeNoCall(c: CallTable, index: map<Number, nat>) {
    forall p | p in c :: p.caller !in index && p.callee !in index
  }

  ghost predicate Roles(c: CallTable, index: map<Number, nat>) {
    OneCallPerCallee(c) && CallersTakeNoCall(c) && AtMostTwoCalls(c) && MembersTakeNoCall(c, index)
  }

  ghost predicate WellFormed(c: Conference) {
    && c.host in c.members
    && |c.members| == 3
    && forall n | n in c.members :: c.members[n] == Member(if n == c.host then Host else Added, false)
  }

  ghost predicate Holds(t: ConfTable, id: nat, n: Number) {
    id in t.active && n in t.active[id].members
  }

  /** Active conferences have three present members, and the index inverts membership. */
  ghost predicate ConfsOk(t: ConfTable, nextConf: nat) {
    && (forall id | id in t.active :: id < nextConf && WellFormed(t.active[id]))
    && (forall n | n in t.index :: Holds(t, t.index[n], n))
    && (forall id, n | Holds(t, id, n) :: n in t.index && t.index[n] == id)
  }

  ghost predicate MemoryOk(s: State) {
    Roles(s.calls, s.confs.index) && ConfsOk(s.confs, s.nextConf)
  }

  lemma TwoCallsAtMost(c: CallTable, n: Number)
    requires AtMostTwoCalls(c)
    ensures |CallsBy(c, n)| <= 2
  {
    var made := CallsBy(c, n);
    if made != {} {
      var p :| p in made;
      if made - {p} != {} {
        var q :| q in made - {p};
        assert made == {p, q};
      } else {
        assert made == {p};
      }
    }
  }

  lemma OneCallTo(c: CallTable, p: Pair)
    requires OneCallPerCallee(c) && p in c
    ensures CallsTo(c, p.callee) == {p}
  {
  }

  /** The readable form: in a good memory every number plays exactly one of the four roles. */
  lemma EveryNumberHasOneRole(s: State, n: Number)
    requires MemoryOk(s)
    ensures OneRole(s, n)
  {
    var made, taken := CallsBy(s.calls, n), CallsTo(s.calls, n);
    TwoCallsAtMost(s.calls, n);
    if p :| p in taken {
      OneCallTo(s.calls, p);
      assert forall q | q in s.calls :: q.caller != p.callee;
      assert made == {};
    }
    if n in s.confs.index {
      assert made == {} && taken == {};
      assert Holds(s.confs, s.confs.index[n], n);
      forall id | id in s.confs.active
        ensures n in s.confs.active[id].members <==> id == s.confs.index[n]
      {
        assert n in s.confs.active[id].members ==> Holds(s.confs, id, n);
      }
    }
  }

  /** At merge time the two in-call tests settle everything: the host dialled both peers,
      those are its only calls, and no other call touches the three numbers. */
  lemma MergeShape(c: CallTable, index: map<Number, nat>, host: Number, held: Number, active: Number)
    requires Roles(c, index) && held != active
    requires TableInCall(c, host, held) && TableInCall(c, host, active)
    ensures Pair(host, held) in c && Pair(host, active) in c
    ensures CallsBy(c, host) == {Pair(host, held), Pair(host, active)} && CallsTo(c, host) == {}
    ensures host != held && host != active
    ensures {host, held, active} !! index.Keys
    ensures forall p | p in c ::
      p.caller in {host, held, active} || p.callee in {host, held, active}
      <==> p == Pair(host, held) || p == Pair(host, active)
  {
    assert Pair(host, held) in c && Pair(host, active) in c;
    forall p | p in c && p.caller == host ensures p == Pair(host, held) || p == Pair(host, active) {
      assert AtMostTwoCalls(c);
    }
  }

  lemma OneRoleOneCall(s: State, p: Pair, q: Pair)
    requires p in s.calls && q in s.calls && p.callee == q.callee
    requires OneRole(s, p.callee)
    ensures p == q
  {
    assert p in CallsTo(s.calls, p.callee) && q in CallsTo(s.calls, p.callee);
    SingletonSize(CallsTo(s.calls, p.callee), p);
  }

  lemma OneRoleTwoCalls(s: State, p: Pair, q: Pair, r: Pair)
    requires p in s.calls && q in s.calls && r in s.calls && p.caller == q.caller == r.caller
    requires OneRole(s, p.caller)
    ensures p == q || p == r || q == r
  {
    var made := CallsBy(s.calls, p.caller);
    assert p in made && q in made && r in made;
    assert made == (made - {p, q, r}) + {p, q, r};
    assert p != q && p != r && q != r ==> |{p, q, r}| == 3;
  }

  lemma OneRoleOneSide(s: State, p: Pair, q: Pair)
    requires p in s.calls && q in s.calls
    requires OneRole(s, p.caller) && OneRole(s, p.callee)
    ensures p.caller != q.callee
    ensures p.caller !in s.confs.index && p.callee !in s.confs.index
  {
    assert p in CallsBy(s.calls, p.caller) && p in CallsTo(s.calls, p.callee);
    assert p.caller == q.callee ==> q in CallsTo(s.calls, p.caller);
  }

  /** Conversely, if every number plays one of the roles, the facts call by call hold. */
  lemma RolesFromEachNumber(s: State)
    requires forall n :: OneRole(s, n)
    ensures Roles(s.calls, s.confs.index)
  {
    forall p, q | p in s.calls && q in s.calls
      ensures p.callee == q.callee ==> p == q
      ensures p.caller != q.callee && p.caller !in s.confs.index && p.callee !in s.confs.index
    {
      assert OneRole(s, p.callee) && OneRole(s, p.caller);
      OneRoleOneSide(s, p, q);
      if p.callee == q.callee { OneRoleOneCall(s, p, q); }
    }
    assert OneCallPerCallee(s.calls) && CallersTakeNoCall(s.calls);
    forall p, q, r | p in s.calls && q in s.calls && r in s.calls && p.caller == q.caller == r.caller
      ensures p == q || p == r || q == r
    {
      assert OneRole(s, p.caller);
      OneRoleTwoCalls(s, p, q, r);
    }
    assert AtMostTwoCalls(s.calls);
    assert MembersTakeNoCall(s.calls, s.confs.index);
  }

  // ---- what each operation keeps ----

  lemma FewerCallsKeepRoles(c: CallTable, index: map<Number, nat>, c': CallTable, index': map<Number, nat>)
    requires Roles(c, index)
    requires c'.Keys <= c.Keys && index'.Keys <= index.Keys
    ensures Roles(c', index')
  {
    assert forall p | p in c' :: p in c.Keys;
    assert forall n | n in index' :: n in index.Keys;
  }

  /** What handleCall's guards establish about the two ends. */
  ghost predicate MayStart(c: CallTable, index: map<Number, nat>, p: Pair) {
    && !TableBusy(c, p.callee) && p.callee !in index
    && p.caller !in index
    && CallsTo(c, p.caller) == {} && |CallsBy(c, p.caller)| <= 1
  }

  lemma OnlyOneBefore(c: CallTable, index: map<Number, nat>, p: Pair, q: Pair, r: Pair)
    requires MayStart(c, index, p) && q in c && r in c
    ensures !Involves(q, p.callee) && q.callee != p.caller
    ensures q.caller == r.caller == p.caller ==> q == r
  {
    assert q.callee == p.caller ==> q in CallsTo(c, p.caller);
    if q.caller == r.caller == p.caller {
      assert q in CallsBy(c, p.caller) && r in CallsBy(c, p.caller);
      SingletonSize(CallsBy(c, p.caller), q);
    }
  }

  lemma StartKeepsRoles(c: CallTable, index: map<Number, nat>, p: Pair, id: nat)
    requires Roles(c, index) && MayStart(c, index, p) && p.caller != p.callee
    ensures Roles(c[p := id], index)
  {
    var c' := c[p := id];
    forall q, r | q in c' && r in c'
      ensures q.callee == r.callee ==> q == r
      ensures q.caller != r.callee
      ensures q.caller !in index && q.callee !in index
    {
      if q in c { OnlyOneBefore(c, index, p, q, q); }
      if r in c { OnlyOneBefore(c, index, p, r, r); }
    }
    forall q, r, t | q in c' && r in c' && t in c' && q.caller == r.caller == t.caller
      ensures q == r || q == t || r == t
    {
      if q in c && r in c { OnlyOneBefore(c, index, p, q, r); }
      if q in c && t in c { OnlyOneBefore(c, index, p, q, t); }
      if r in c && t in c { OnlyOneBefore(c, index, p, r, t); }
    }
    assert OneCallPerCallee(c') && CallersTakeNoCall(c') && AtMostTwoCalls(c') && MembersTakeNoCall(c', index);
  }

  lemma RemoveConferenceKeeps(t: ConfTable, nextConf: nat, id: nat)
    requires ConfsOk(t, nextConf) && id in t.active
    ensures ConfsOk(RemoveConference(t, id), nextConf)
    ensures RemoveConference(t, id).index.Keys == t.index.Keys - t.active[id].members.Keys
  {
    var t' := RemoveConference(t, id);
    forall n | n in t'.index ensures Holds(t', t'.index[n], n) {
      assert Holds(t, t.index[n], n);
    }
    forall i, n | Holds(t', i, n) ensures n in t'.index && t'.index[n] == i {
      assert Holds(t, i, n);
      assert n in t.active[id].members ==> Holds(t, id, n);
    }
  }

  /** With nobody gone before, a drop frees exactly the three members. */
  lemma DropIsRemove(t: ConfTable, nextConf: nat, id: nat, phone: Number)
    requires ConfsOk(t, nextConf) && id in t.active && phone in t.active[id].members
    ensures DropConference(t, id, phone) == RemoveConference(t, id)
    ensures |Remaining(t.active[id], phone)| == 2
  {
    var c := t.active[id];
    assert WellFormed(c);
    assert Present(c) == c.members.Keys;
    assert {phone} + Remaining(c, phone) == c.members.Keys;
  }

  lemma SurvivorPairOf(who: set<Number>, x: Number, y: Number)
    requires |who| == 2 && x in who && y in who && x != y
    ensures SurvivorPair(who) == SortedPair(x, y) == SortedPair(y, x)
  {
    assert who == {x, y} by {
      assert |who - {x, y}| == 0;
    }
    LessTotal(x, y);
  }

  lemma SurvivorsAre(who: set<Number>)
    requires |who| == 2
    ensures who == {SurvivorPair(who).caller, SurvivorPair(who).callee}
    ensures SurvivorPair(who).caller != SurvivorPair(who).callee
  {
    var x :| x in who;
    assert |who - {x}| == 1;
    var y :| y in who - {x};
    SurvivorPairOf(who, x, y);
    assert |who - {x, y}| == 0;
  }

  lemma ThreeMembers(host: Number, originating: nat, a: Number, b: Number)
    requires host != a && host != b && a != b
    ensures WellFormed(NewConference(host, originating, [a, b]))
    ensures NewConference(host, originating, [a, b]).members.Keys == {host, a, b}
  {
    var c := NewConference(host, originating, [a, b]);
    assert c.members.Keys == {host, a, b};
    assert |c.members| == |c.members.Keys| == |{host, a, b}| == 3;
  }

  lemma TwoMembersWhenMergedWithOne(host: Number, originating: nat, a: Number)
    ensures NewConference(host, originating, [a, a]).members.Keys == {host, a}
    ensures |NewConference(host, originating, [a, a]).members| <= 2
  {
    var c := NewConference(host, originating, [a, a]);
    assert c.members.Keys == {host, a};
    assert |c.members| == |c.members.Keys| == |{host, a}|;
  }

  lemma AddConferenceKeeps(t: ConfTable, nextConf: nat, c: Conference)
    requires ConfsOk(t, nextConf) && WellFormed(c)
    requires forall n | n in c.members :: n !in t.index
    ensures ConfsOk(AddConference(t, nextConf, c), nextConf + 1)
  {
    var t' := AddConference(t, nextConf, c);
    forall n | n in t'.index ensures Holds(t', t'.index[n], n) {
      if n !in c.members { assert Holds(t, t.index[n], n); }
    }
    forall i, n | Holds(t', i, n) ensures n in t'.index && t'.index[n] == i {
      if i != nextConf { assert Holds(t, i, n); }
    }
  }

  /** Creating a conference and ending it again restores both maps exactly. */
  lemma CreateThenEndRestores(t: ConfTable, nextConf: nat, c: Conference)
    requires ConfsOk(t, nextConf)
    requires forall n | n in c.members :: n !in t.index
    ensures RemoveConference(AddConference(t, nextConf, c), nextConf) == t
  {
    var t' := RemoveConference(AddConference(t, nextConf, c), nextConf);
    assert t'.active == t.active;
    assert t'.index == t.index;
  }
}
