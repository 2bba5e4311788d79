/** The Redis mirror refines the in-memory tables: what it stores for every pair of
    numbers, and that all queries answer alike. */
module CallMirror {
  import opened Basics
  import opened CallModel
  import opened CallSteps
  import opened CallRoles

  /** What Redis stores in a's hash under field b. */
  ghost function EntryAt(h: CallHash, a: Number, b: Number): Option<Entry> {
    if HashInCall(h, a, b) then Some(h[a][b]) else None
  }

  /** What it should store, given the in-memory calls. */
  ghost function Expected(c: CallTable, a: Number, b: Number): Option<Entry> {
    if Pair(a, b) in c then Some(Entry(c[Pair(a, b)], AsCaller))
    else if Pair(b, a) in c then Some(Entry(c[Pair(b, a)], AsCallee))
    else None
  }

  ghost predicate NoEmptyHash(h: CallHash) {
    forall a | a in h :: h[a] != map[]
  }

  ghost predicate Mirrors(c: CallTable, h: CallHash) {
    NoEmptyHash(h) && forall a, b :: EntryAt(h, a, b) == Expected(c, a, b)
  }

  ghost function DetailOf(c: Conference): ConfDetail {
    ConfDetail(c.host, c.originating, c.members.Keys)
  }

  ghost predicate ConfsMirrored(t: ConfTable, k: ConfKeys) {
    k.members == t.index && k.details == map id | id in t.active :: DetailOf(t.active[id])
  }

  ghost predicate MirrorOk(s: State) {
    s.redis.Some? ==> Mirrors(s.calls, s.redis.value.calls) && ConfsMirrored(s.confs, s.redis.value.confs)
  }

  // ---- the primitive Redis commands, field by field ----

  lemma HSetAt(h: CallHash, key: Number, field: Number, e: Entry, a: Number, b: Number)
    ensures EntryAt(HSet(h, key, field, e), a, b) == if (a, b) == (key, field) then Some(e) else EntryAt(h, a, b)
  {
  }

  lemma HDelAt(h: CallHash, key: Number, field: Number, a: Number, b: Number)
    ensures EntryAt(HDel(h, key, field), a, b) == if (a, b) == (key, field) then None else EntryAt(h, a, b)
  {
  }

  lemma HashStartAt(h: CallHash, id: nat, x: Number, y: Number, a: Number, b: Number)
    requires x != y
    ensures EntryAt(HashStart(h, id, x, y), a, b) ==
            if (a, b) == (x, y) then Some(Entry(id, AsCaller))
            else if (a, b) == (y, x) then Some(Entry(id, AsCallee))
            else EntryAt(h, a, b)
  {
    var h1 := HSet(h, x, y, Entry(id, AsCaller));
    HSetAt(h, x, y, Entry(id, AsCaller), a, b);
    HSetAt(h1, y, x, Entry(id, AsCallee), a, b);
  }

  lemma HashEndAt(h: CallHash, x: Number, y: Number, a: Number, b: Number)
    ensures EntryAt(HashEnd(h, x, y), a, b) ==
            if (a, b) == (x, y) || (a, b) == (y, x) then None else EntryAt(h, a, b)
  {
    var h1 := HDel(h, x, y);
    var h2 := HDel(h1, y, x);
    HDelAt(h, x, y, a, b);
    HDelAt(h1, y, x, a, b);
    assert EntryAt(DeleteIfEmpty(h2, x), a, b) == EntryAt(h2, a, b);
  }

  lemma HashEndPrunes(h: CallHash, x: Number, y: Number)
    requires NoEmptyHash(h)
    ensures NoEmptyHash(HashEnd(h, x, y))
  {
    var h2 := HDel(HDel(h, x, y), y, x);
    forall a | a in HashEnd(h, x, y) ensures HashEnd(h, x, y)[a] != map[] {
      if a != x && a != y { assert h2[a] == h[a]; }
    }
  }

  ghost predicate Symmetric(h: CallHash) {
    forall a, b | HashInCall(h, a, b) :: HashInCall(h, b, a)
  }

  lemma HashClearAt(h: CallHash, n: Number, a: Number, b: Number)
    requires Symmetric(h)
    ensures EntryAt(HashClear(h, n), a, b) == if a == n || b == n then None else EntryAt(h, a, b)
  {
    if HashInCall(h, a, n) { assert HashInCall(h, n, a); }
    if n in h && a in h && a != n && a in h[n] && b != n {
      assert b in h[a] ==> b in h[a] - {n};
    }
  }

  // ---- each change of the calls is mirrored ----

  lemma StartMirrored(c: CallTable, h: CallHash, p: Pair, id: nat)
    requires Mirrors(c, h) && p.caller != p.callee && Reverse(p) !in c
    ensures Mirrors(c[p := id], HashStart(h, id, p.caller, p.callee))
  {
    var h' := HashStart(h, id, p.caller, p.callee);
    forall a | a in h' ensures h'[a] != map[] {
      assert a != p.caller && a != p.callee ==> a in h && h'[a] == h[a];
      assert a == p.caller ==> p.callee in h'[a];
      assert a == p.callee ==> p.caller in h'[a];
    }
    forall a, b ensures EntryAt(h', a, b) == Expected(c[p := id], a, b) {
      HashStartAt(h, id, p.caller, p.callee, a, b);
      assert EntryAt(h, a, b) == Expected(c, a, b);
    }
  }

  lemma EndMirrored(c: CallTable, h: CallHash, x: Number, y: Number)
    requires Mirrors(c, h)
    ensures Mirrors(c - {Pair(x, y), Pair(y, x)}, HashEnd(h, x, y))
  {
    HashEndPrunes(h, x, y);
    forall a, b ensures EntryAt(HashEnd(h, x, y), a, b) == Expected(c - {Pair(x, y), Pair(y, x)}, a, b) {
      HashEndAt(h, x, y, a, b);
      assert EntryAt(h, a, b) == Expected(c, a, b);
    }
  }

  lemma MirrorIsSymmetric(c: CallTable, h: CallHash)
    requires Mirrors(c, h)
    ensures Symmetric(h)
  {
    forall a, b | HashInCall(h, a, b) ensures HashInCall(h, b, a) {
      assert EntryAt(h, a, b) == Expected(c, a, b) && EntryAt(h, b, a) == Expected(c, b, a);
    }
  }

  lemma ClearMirrored(c: CallTable, h: CallHash, n: Number)
    requires Mirrors(c, h)
    ensures Mirrors(map p | p in c && !Involves(p, n) :: c[p], HashClear(h, n))
  {
    var c' := map p | p in c && !Involves(p, n) :: c[p];
    MirrorIsSymmetric(c, h);
    forall a, b ensures EntryAt(HashClear(h, n), a, b) == Expected(c', a, b) {
      HashClearAt(h, n, a, b);
      assert EntryAt(h, a, b) == Expected(c, a, b);
    }
  }

  ghost function WithoutMembers(c: CallTable, members: set<Number>): CallTable {
    map p | p in c && p.caller !in members && p.callee !in members :: c[p]
  }

  lemma OnlyTheTwoGo(c: CallTable, host: Number, held: Number, active: Number)
    requires forall p | p in c ::
      p.caller in {host, held, active} || p.callee in {host, held, active}
      <==> p == Pair(host, held) || p == Pair(host, active)
    ensures WithoutMembers(c, {host, held, active})
         == c - {Pair(host, held), Pair(held, host)} - {Pair(host, active), Pair(active, host)}
  {
  }

  lemma MergeRemovesTwoCalls(c: CallTable, index: map<Number, nat>, host: Number, held: Number, active: Number)
    requires Roles(c, index) && held != active
    requires TableInCall(c, host, held) && TableInCall(c, host, active)
    ensures WithoutMembers(c, {host, held, active})
         == c - {Pair(host, held), Pair(held, host)} - {Pair(host, active), Pair(active, host)}
  {
    MergeShape(c, index, host, held, active);
    OnlyTheTwoGo(c, host, held, active);
  }

  /** Merging: memory drops every call of every member, Redis only the host's two links.
      Only the roles make these the same. */
  lemma MergeMirrored(c: CallTable, index: map<Number, nat>, h: CallHash, host: Number, held: Number, active: Number)
    requires Mirrors(c, h) && Roles(c, index) && held != active
    requires TableInCall(c, host, held) && TableInCall(c, host, active)
    ensures Mirrors(WithoutMembers(c, {host, held, active}), HashEndEach(h, host, [held, active]))
  {
    MergeRemovesTwoCalls(c, index, host, held, active);
    var c1 := c - {Pair(host, held), Pair(held, host)};
    EndMirrored(c, h, host, held);
    EndMirrored(c1, HashEnd(h, host, held), host, active);
    HashEndTwo(h, host, held, active);
  }

  lemma HashEndTwo(h: CallHash, host: Number, a: Number, b: Number)
    ensures HashEndEach(h, host, [a, b]) == HashEnd(HashEnd(h, host, a), host, b)
  {
    var h1 := HashEnd(h, host, a);
    assert [a, b][1..] == [b] && [b][1..] == [];
    assert HashEndEach(h1, host, [b]) == HashEndEach(HashEnd(h1, host, b), host, []);
  }

  lemma CreateMirrored(t: ConfTable, k: ConfKeys, id: nat, c: Conference)
    requires ConfsMirrored(t, k)
    ensures ConfsMirrored(AddConference(t, id, c), KeysCreate(k, id, DetailOf(c)))
  {
  }

  lemma RemoveMirrored(t: ConfTable, nextConf: nat, k: ConfKeys, id: nat)
    requires ConfsMirrored(t, k) && ConfsOk(t, nextConf) && id in t.active
    ensures ConfsMirrored(RemoveConference(t, id), KeysEnd(k, id, Present(t.active[id])))
  {
    assert WellFormed(t.active[id]);
    assert Present(t.active[id]) == t.active[id].members.Keys;
  }

  lemma DropMirrored(t: ConfTable, nextConf: nat, k: ConfKeys, id: nat, phone: Number)
    requires ConfsMirrored(t, k) && ConfsOk(t, nextConf) && id in t.active && phone in t.active[id].members
    ensures ConfsMirrored(DropConference(t, id, phone),
                          KeysEnd(KeysRemoveMember(k, phone), id, Remaining(t.active[id], phone)))
  {
  }

  // ---- the queries answer alike ----

  lemma BusyAgrees(c: CallTable, h: CallHash, n: Number)
    requires Mirrors(c, h)
    ensures HashBusy(h, n) <==> TableBusy(c, n)
    ensures HashPeers(h, n) == TablePeers(c, n)
    ensures TableBusy(c, n) <==> TablePeers(c, n) != {}
  {
    forall b ensures HashInCall(h, n, b) <==> b in TablePeers(c, n) {
      assert EntryAt(h, n, b) == Expected(c, n, b);
      if b in TablePeers(c, n) {
        assert Pair(n, b) in c || Pair(b, n) in c;
      } else {
        assert Pair(n, b) !in c && (b != n ==> Pair(b, n) !in c);
      }
    }
    assert HashPeers(h, n) == TablePeers(c, n);
    if n in h {
      var b :| b in h[n].Keys;
      assert b in TablePeers(c, n);
    }
    if p :| p in c && Involves(p, n) {
      assert (if p.caller == n then p.callee else p.caller) in TablePeers(c, n);
    }
  }

  lemma InCallAgrees(c: CallTable, h: CallHash, a: Number, b: Number)
    requires Mirrors(c, h)
    ensures HashInCall(h, a, b) <==> TableInCall(c, a, b)
    ensures HashCallID(h, a, b) == TableCallID(c, a, b)
  {
    assert EntryAt(h, a, b) == Expected(c, a, b) && EntryAt(h, b, a) == Expected(c, b, a);
  }

  lemma CanAddAgrees(c: CallTable, h: CallHash, n: Number)
    requires Mirrors(c, h) && CallersTakeNoCall(c)
    ensures HashCanAdd(h, n) <==> TableCanAdd(c, n)
  {
    if TableCanAdd(c, n) {
      var p :| p in CallsBy(c, n);
      SingletonSize(CallsBy(c, n), p);
      forall b ensures HashInCall(h, n, b) <==> b == p.callee {
        assert EntryAt(h, n, b) == Expected(c, n, b);
        assert Pair(n, b) in c ==> Pair(n, b) in CallsBy(c, n);
        assert Pair(b, n) in c ==> Pair(b, n) in CallsTo(c, n);
      }
      assert HashInCall(h, n, p.callee);
      assert forall b :: b in h[n] ==> HashInCall(h, n, b);
      assert h[n].Keys == {p.callee};
      assert EntryAt(h, n, p.callee) == Expected(c, n, p.callee);
    }
    if HashCanAdd(h, n) {
      var q :| q in h[n].Keys;
      SingletonSize(h[n].Keys, q);
      assert EntryAt(h, n, q) == Expected(c, n, q);
      assert Pair(n, q) in c;
      forall p | p in c && p.caller == n ensures p == Pair(n, q) {
        assert EntryAt(h, n, p.callee) == Expected(c, n, p.callee);
        assert p.callee in h[n].Keys;
      }
      assert CallsBy(c, n) == {Pair(n, q)};
      assert CallsTo(c, n) == {};
    }
  }

  /** The calls Redis knows, read off every field of every hash. */
  ghost function HashCalls(h: CallHash): set<(Pair, nat)> {
    set a, b | a in h && b in h[a] ::
      (if h[a][b].side == AsCaller then Pair(a, b) else Pair(b, a), h[a][b].id)
  }

  ghost function TableCalls(c: CallTable): set<(Pair, nat)> {
    set p | p in c :: (p, c[p])
  }

  lemma ActiveAgrees(c: CallTable, h: CallHash)
    requires Mirrors(c, h)
    ensures HashCalls(h) == TableCalls(c)
  {
    forall x | x in HashCalls(h) ensures x in TableCalls(c) {
      var a, b :| a in h && b in h[a] && x == (if h[a][b].side == AsCaller then Pair(a, b) else Pair(b, a), h[a][b].id);
      assert EntryAt(h, a, b) == Expected(c, a, b);
    }
    forall p | p in c ensures (p, c[p]) in HashCalls(h) {
      assert EntryAt(h, p.caller, p.callee) == Expected(c, p.caller, p.callee);
    }
  }

  /** Any field of n's hash names a number that shares a call with n, and that call's id. */
  lemma AnyPeerIsLegitimate(c: CallTable, h: CallHash, n: Number, peer: Number)
    requires Mirrors(c, h) && n in h && peer in h[n]
    ensures peer in TablePeers(c, n)
    ensures exists p | p in c :: Involves(p, n) && Involves(p, peer) && c[p] == h[n][peer].id
  {
    BusyAgrees(c, h, n);
    assert EntryAt(h, n, peer) == Expected(c, n, peer);
    var p := if Pair(n, peer) in c then Pair(n, peer) else Pair(peer, n);
    assert p in c && Involves(p, n) && Involves(p, peer) && c[p] == h[n][peer].id;
  }

  // ---- conference queries ----

  ghost predicate TableContains(t: ConfTable, id: nat, a: Number, b: Number) {
    id in t.active && a in t.active[id].members && b in t.active[id].members
  }

  ghost predicate KeysContain(k: ConfKeys, id: nat, a: Number, b: Number) {
    id in k.details && a in k.details[id].members && b in k.details[id].members
  }

  lemma ConferencesAgree(t: ConfTable, k: ConfKeys, id: nat, a: Number, b: Number)
    requires ConfsMirrored(t, k)
    ensures KeysContain(k, id, a, b) <==> TableContains(t, id, a, b)
    ensures a in k.members <==> a in t.index
    ensures a in t.index ==> k.members[a] == t.index[a]
  {
  }

  /** Every handler query gives the same answer with Redis attached as from memory alone. */
  lemma QueriesAgree(s: State, n: Number, m: Number)
    requires MemoryOk(s) && MirrorOk(s)
    ensures var alone := s.(redis := None);
      && Busy(s, n) == Busy(alone, n)
      && CanAddAsHost(s, n) == CanAddAsHost(alone, n)
      && InCall(s, n, m) == InCall(alone, n, m)
      && CallIDForPair(s, n, m) == CallIDForPair(alone, n, m)
      && PeersOf(s, n) == PeersOf(alone, n)
      && ConfBusy(s, n) == ConfBusy(alone, n)
      && ConferenceByPhone(s, n) == ConferenceByPhone(alone, n)
  {
    if s.redis.Some? {
      var h, k := s.redis.value.calls, s.redis.value.confs;
      BusyAgrees(s.calls, h, n);
      CanAddAgrees(s.calls, h, n);
      InCallAgrees(s.calls, h, n, m);
    }
  }
}
