/** ConferenceTracker and Tracker: the in-memory tables, updated in place, with the Redis
    stores and the database beside them. */
module CallTracker {
  import opened Basics
  import opened CallModel
  import opened CallSteps
  import opened CallRoles
  import opened CallStores

  class ConferenceTracker {
    var active: map<nat, Conference>
    var memberIndex: map<Number, nat>
    var nextID: nat
    const state: ConfState?

    constructor (state: ConfState?)
      ensures Table() == ConfTable(map[], map[]) && nextID == 0 && this.state == state
    {
      active, memberIndex, nextID := map[], map[], 0;
      this.state := state;
    }

    ghost function Table(): ConfTable
      reads this
    {
      ConfTable(active, memberIndex)
    }

    /** None when the size is wrong, the host is hosting, or a member is elsewhere. */
    method CreateConference(host: Number, originating: nat, added: seq<Number>) returns (id: Option<nat>)
      modifies this, state
      ensures id.None? <==> |added| != 2 || host in old(memberIndex) || exists m | m in added :: m in old(memberIndex)
      ensures id.None? ==> Table() == old(Table()) && nextID == old(nextID) && (state != null ==> state.keys == old(state.keys))
      ensures id.Some? ==>
        && id.value == old(nextID) && nextID == old(nextID) + 1
        && Table() == AddConference(old(Table()), id.value, NewConference(host, originating, added))
        && (state != null ==> state.keys == KeysCreate(old(state.keys), id.value,
              ConfDetail(host, originating, NewConference(host, originating, added).members.Keys)))
    {
      if |added| != 2 || host in memberIndex {
        return None;
      }
      for i := 0 to |added|
        invariant forall m | m in added[..i] :: m !in memberIndex
      {
        if added[i] in memberIndex {
          return None;
        }
      }
      assert added[..|added|] == added;
      var members := BuildMembers(host, added);
      var c := Conference(host, originating, members);
      id := Some(nextID);
      nextID := nextID + 1;
      active := active[id.value := c];
      IndexMembers(id.value, host, added);
      assert c.members.Keys == {host} + Elements(added) == Elements([host] + added);
      if state != null {
        state.Create(id.value, host, originating, [host] + added);
      }
    }

    method BuildMembers(host: Number, added: seq<Number>) returns (members: map<Number, Member>)
      ensures members == NewConference(host, 0, added).members
      ensures members.Keys == {host} + Elements(added)
    {
      members := map[host := Member(Host, false)];
      for i := 0 to |added|
        invariant AddMembers(members, added[i..]) == NewConference(host, 0, added).members
      {
        assert added[i..][0] == added[i] && added[i..][1..] == added[i + 1..];
        members := members[added[i] := Member(Added, false)];
      }
    }

    method IndexMembers(id: nat, host: Number, added: seq<Number>)
      modifies this`memberIndex
      ensures memberIndex == IndexAll(old(memberIndex), {host} + Elements(added), id)
    {
      memberIndex := memberIndex[host := id];
      for i := 0 to |added|
        invariant memberIndex == IndexedUpTo(old(memberIndex), host, added, i, id)
      {
        memberIndex := memberIndex[added[i] := id];
      }
      IndexedUpToIs(old(memberIndex), host, added, |added|, id);
      assert added[..|added|] == added;
    }

    /** The index after the host and the first i members. */
    ghost function IndexedUpTo(index: map<Number, nat>, host: Number, added: seq<Number>, i: nat, id: nat): map<Number, nat>
      requires i <= |added|
    {
      if i == 0 then index[host := id] else IndexedUpTo(index, host, added, i - 1, id)[added[i - 1] := id]
    }

    lemma {:induction false} IndexedUpToIs(index: map<Number, nat>, host: Number, added: seq<Number>, i: nat, id: nat)
      requires i <= |added|
      ensures IndexedUpTo(index, host, added, i, id) == IndexAll(index, {host} + Elements(added[..i]), id)
    {
      if i == 0 {
        assert {host} + Elements(added[..0]) == {host};
      } else {
        IndexedUpToIs(index, host, added, i - 1, id);
        ElementsStep(added, i - 1);
        IndexOneMore(index, {host} + Elements(added[..i - 1]), added[i - 1], id);
        assert {host} + Elements(added[..i]) == {host} + Elements(added[..i - 1]) + {added[i - 1]};
      }
    }

    /** Marks phone as left, collects who remains, and ends the conference. */
    method DropMember(id: nat, phone: Number) returns (remaining: Option<seq<Number>>)
      modifies this, state
      ensures nextID == old(nextID)
      ensures remaining.None? <==> id !in old(active) || phone !in old(active)[id].members
      ensures remaining.None? ==> Table() == old(Table()) && (state != null ==> state.keys == old(state.keys))
      ensures remaining.Some? ==>
        && Elements(remaining.value) == Remaining(old(active)[id], phone)
        && (forall i, j | 0 <= i < j < |remaining.value| :: remaining.value[i] != remaining.value[j])
        && Table() == DropConference(old(Table()), id, phone)
        && (state != null ==> state.keys == KeysEnd(KeysRemoveMember(old(state.keys), phone), id, Remaining(old(active)[id], phone)))
    {
      if id !in active || phone !in active[id].members {
        return None;
      }
      var members := active[id].members[phone := active[id].members[phone].(left := true)];
      ghost var who := Remaining(active[id], phone);
      memberIndex := memberIndex - {phone};
      var left: seq<Number> := [];
      var todo := members.Keys;
      while todo != {}
        invariant todo <= members.Keys
        invariant Elements(left) == who - todo
        invariant forall i, j | 0 <= i < j < |left| :: left[i] != left[j]
      {
        var p :| p in todo;
        assert p !in left by { assert p !in Elements(left); }
        if !members[p].left {
          left := left + [p];
          assert Elements(left) == (who - todo) + {p};
        }
        todo := todo - {p};
      }
      active := active - {id};
      for i := 0 to |left|
        invariant memberIndex == old(memberIndex) - {phone} - Elements(left[..i])
        invariant active == old(active) - {id} && nextID == old(nextID)
        invariant state != null ==> state.keys == old(state.keys)
      {
        memberIndex := memberIndex - {left[i]};
        ElementsStep(left, i);
      }
      assert left[..|left|] == left;
      assert memberIndex == old(memberIndex) - ({phone} + who);
      if state != null {
        state.RemoveMember(phone);
        state.End(id, left);
      }
      remaining := Some(left);
    }

    /** Ends the conference; the index entries of all its members go. */
    method EndConference(id: nat) returns (known: bool)
      modifies this, state
      ensures nextID == old(nextID)
      ensures known <==> id in old(active)
      ensures !known ==> Table() == old(Table()) && (state != null ==> state.keys == old(state.keys))
      ensures known ==>
        && Table() == RemoveConference(old(Table()), id)
        && (state != null ==> state.keys == KeysEnd(old(state.keys), id, Present(old(active)[id])))
    {
      if id !in active {
        return false;
      }
      var c := active[id];
      var present: seq<Number> := [];
      var todo := c.members.Keys;
      while todo != {}
        invariant todo <= c.members.Keys
        invariant Elements(present) == Present(c) - todo
        invariant memberIndex == old(memberIndex) - (c.members.Keys - todo)
        invariant active == old(active) && nextID == old(nextID)
        invariant state != null ==> state.keys == old(state.keys)
      {
        var p :| p in todo;
        if !c.members[p].left {
          present := present + [p];
          assert Elements(present) == (Present(c) - todo) + {p};
        }
        memberIndex := memberIndex - {p};
        todo := todo - {p};
      }
      active := active - {id};
      if state != null {
        state.End(id, present);
      }
      known := true;
    }
  }

  class Tracker {
    var active: CallTable
    var db: Database
    const conferences: ConferenceTracker
    const state: CallState?

    constructor (conferences: ConferenceTracker, state: CallState?)
      requires (state == null) == (conferences.state == null)
      requires conferences.Table() == ConfTable(map[], map[]) && conferences.nextID == 0
      requires state != null ==> state.hash == map[] && conferences.state.keys == ConfKeys(map[], map[])
      ensures this.conferences == conferences && this.state == state
      ensures Wired() && View() == Empty(state != null)
    {
      active, db := map[], Database(map[], 1, map[]);
      this.conferences, this.state := conferences, state;
    }

    /** Both stores are attached, or neither is. */
    ghost predicate Wired() {
      (state == null) == (conferences.state == null)
    }

    ghost function View(): State
      requires Wired()
      reads this, conferences, state, conferences.state
    {
      State(active, conferences.Table(),
            if state == null then None else Some(Mirror(state.hash, conferences.state.keys)),
            db, conferences.nextID)
    }

    // ---- queries ----

    method ConfBusy(n: Number) returns (busy: bool)
      requires Wired()
      ensures busy == CallSteps.ConfBusy(View(), n)
    {
      if n in conferences.memberIndex {
        return true;
      }
      return conferences.state != null && n in conferences.state.keys.members;
    }

    method Busy(n: Number) returns (busy: bool)
      requires Wired()
      ensures busy == CallSteps.Busy(View(), n)
    {
      busy := ConfBusy(n);
      if busy {
        return;
      }
      if state != null {
        busy := state.Busy(n);
        return;
      }
      busy := TableBusy(n);
    }

    method TableBusy(n: Number) returns (busy: bool)
      ensures busy == CallModel.TableBusy(active, n)
    {
      var todo := active.Keys;
      while todo != {}
        invariant todo <= active.Keys
        invariant forall p | p in active && p !in todo :: !Involves(p, n)
      {
        var p :| p in todo;
        if p.caller == n || p.callee == n {
          assert Involves(p, n);
          return true;
        }
        todo := todo - {p};
      }
      return false;
    }

    method CanAddAsHost(n: Number) returns (can: bool)
      requires Wired()
      ensures can == CallSteps.CanAddAsHost(View(), n)
    {
      var inConf := ConfBusy(n);
      if inConf {
        return false;
      }
      if state != null {
        can := state.CanAddAsHost(n);
        return;
      }
      can := TableCanAdd(n);
    }

    method TableCanAdd(n: Number) returns (can: bool)
      ensures can == CallModel.TableCanAdd(active, n)
    {
      var callerCount := 0;
      ghost var counted: set<Pair> := {};
      var todo := active.Keys;
      while todo != {}
        invariant todo <= active.Keys
        invariant forall p | p in active && p !in todo :: p.callee != n
        invariant counted == set p | p in active && p !in todo && p.caller == n
        invariant callerCount == |counted|
      {
        var p :| p in todo;
        if p.callee == n {
          assert p in CallsTo(active, n);
          return false;
        }
        if p.caller == n {
          callerCount := callerCount + 1;
          counted := counted + {p};
        }
        todo := todo - {p};
      }
      assert counted == CallsBy(active, n) && CallsTo(active, n) == {};
      return callerCount == 1;
    }

    method InCall(a: Number, b: Number) returns (yes: bool)
      requires Wired()
      ensures yes == CallSteps.InCall(View(), a, b)
    {
      if state != null {
        return a in state.hash && b in state.hash[a];
      }
      return Pair(a, b) in active || Pair(b, a) in active;
    }

    method CallIDForPair(a: Number, b: Number) returns (id: nat)
      requires Wired()
      ensures id == CallSteps.CallIDForPair(View(), a, b)
    {
      if state != null {
        return HashCallID(state.hash, a, b);
      }
      if Pair(a, b) in active {
        return active[Pair(a, b)];
      }
      if Pair(b, a) in active {
        return active[Pair(b, a)];
      }
      return 0;
    }

    /** All peers, each once as long as the roles hold. */
    method AllPeersOf(n: Number) returns (peers: seq<Number>)
      requires Wired() && CallersTakeNoCall(active)
      ensures Lists(peers, PeersOf(View(), n))
    {
      if state != null {
        peers := state.AllPeersOf(n);
        return;
      }
      peers := TablePeers(n);
    }

    method TablePeers(n: Number) returns (peers: seq<Number>)
      requires CallersTakeNoCall(active)
      ensures Lists(peers, CallModel.TablePeers(active, n))
    {
      peers := [];
      var todo := active.Keys;
      while todo != {}
        invariant todo <= active.Keys
        invariant forall q :: q in peers <==> (Pair(n, q) in active.Keys - todo) || (Pair(q, n) in active.Keys - todo)
        invariant forall i, j | 0 <= i < j < |peers| :: peers[i] != peers[j]
      {
        var p :| p in todo;
        if p.caller == n {
          assert Pair(p.callee, n) !in active;
          assert p == Pair(n, p.callee) && p.callee !in peers;
          peers := peers + [p.callee];
        } else if p.callee == n {
          assert Pair(n, p.caller) !in active;
          assert p == Pair(p.caller, n) && p.caller !in peers;
          peers := peers + [p.caller];
        }
        todo := todo - {p};
      }
      forall q ensures q in peers <==> q in CallModel.TablePeers(active, n) {
        assert Pair(q, n) in active ==> Pair(n, n) !in active;
      }
    }

    // ---- changes ----

    method OnCallInitiated(from: Number, to: Number, dbOk: bool) returns (id: Option<nat>)
      requires Wired()
      modifies this, conferences, state, conferences.state
      ensures View() == if dbOk then StartCall(old(View()), Pair(from, to)) else old(View())
      ensures id == if dbOk then Some(old(db).nextID) else None
    {
      if !dbOk {
        return None;
      }
      var newID := db.nextID;
      db := InsertCall(db, from, to);
      active := active[Pair(from, to) := newID];
      if state != null {
        state.OnCallInitiated(newID, from, to);
      }
      id := Some(newID);
    }

    method OnCallEnded(caller: Number, callee: Number, dbOk: bool)
      requires Wired()
      modifies this, conferences, state, conferences.state
      ensures View() == EndCall(old(View()), caller, callee, dbOk)
    {
      active := active - {Pair(caller, callee)};
      active := active - {Pair(callee, caller)};
      assert active == old(active) - {Pair(caller, callee), Pair(callee, caller)};
      if state != null {
        state.OnCallEnded(caller, callee);
      }
      if dbOk {
        db := EndLatest(db, caller, callee);
      }
    }

    method ClearByNumber(n: Number, dbOk: bool)
      requires Wired()
      modifies this, conferences, state, conferences.state
      ensures View() == CallSteps.ClearByNumber(old(View()), n, dbOk)
    {
      var toDelete: set<Pair> := {};
      var todo := active.Keys;
      while todo != {}
        invariant todo <= active.Keys
        invariant toDelete == set p | p in active && p !in todo && Involves(p, n)
      {
        var p :| p in todo;
        if p.caller == n || p.callee == n {
          toDelete := toDelete + {p};
        }
        todo := todo - {p};
      }
      DeleteKeys(toDelete);
      assert active == map p | p in old(active) && !Involves(p, n) :: old(active)[p];
      if state != null {
        state.ClearByNumber(n);
      }
      if dbOk {
        db := EndAllOf(db, n);
      }
    }

    method DeleteKeys(keys: set<Pair>)
      modifies this`active
      ensures active == old(active) - keys
    {
      var todo := keys;
      while todo != {}
        invariant todo <= keys
        invariant active == old(active) - (keys - todo)
      {
        var p :| p in todo;
        active := active - {p};
        todo := todo - {p};
      }
    }

    method EndConferencePersistent(id: nat, dbOk: bool)
      requires Wired()
      modifies this, conferences, state, conferences.state
      ensures View() == CallSteps.EndConferencePersistent(old(View()), id, dbOk)
    {
      var known := conferences.EndConference(id);
      if known && dbOk {
        db := CloseConf(db, id);
      }
    }

    method CreateConferencePersistent(host: Number, originating: nat, added: seq<Number>, txOk: bool) returns (conf: Option<nat>)
      requires Wired()
      modifies this, conferences, state, conferences.state
      ensures View() == CallSteps.CreateConferencePersistent(old(View()), host, originating, added, txOk)
    {
      var ids := CallIDsWith(host, added);
      if ids.None? {
        return None;
      }
      conf := Create(host, originating, added);
      if conf.None? {
        return;
      }
      if !txOk {
        Undo(conf.value);
        return None;
      }
      Commit(conf.value, host, added, {originating} + ids.value);
    }

    /** The conference in memory and Redis, before the transaction. */
    method Create(host: Number, originating: nat, added: seq<Number>) returns (conf: Option<nat>)
      requires Wired()
      modifies conferences, conferences.state
      ensures conf.None? <==> CreateRefused(old(View()), host, added)
      ensures conf.None? ==> View() == old(View())
      ensures conf.Some? ==>
        && conf.value == old(View()).nextConf && conf.value in View().confs.active
        && View() == CallSteps.CreateConference(old(View()), host, originating, added)
    {
      conf := conferences.CreateConference(host, originating, added);
    }

    /** The rollback of a failed transaction. */
    method Undo(id: nat)
      requires Wired() && id in View().confs.active
      modifies conferences, conferences.state
      ensures View() == CallSteps.EndConference(old(View()), id)
    {
      var known := conferences.EndConference(id);
    }

    /** The committed transaction, and the members' calls leaving memory and Redis. */
    method Commit(id: nat, host: Number, added: seq<Number>, merged: set<nat>)
      requires Wired() && id in View().confs.active
      modifies this, state
      ensures View() == CommitMerge(old(View()), id, host, added, merged)
    {
      var c := conferences.active[id];
      db := CloseRows(InsertConf(db, id, c), merged);
      DeleteCallsOf(c.members.Keys);
      if state != null {
        EndLinks(host, added);
      }
    }

    /** The id of host's call with every added member, or None if one is missing. */
    method CallIDsWith(host: Number, added: seq<Number>) returns (ids: Option<set<nat>>)
      requires Wired()
      ensures ids.None? <==> exists m | m in added :: CallSteps.CallIDForPair(View(), host, m) == 0
      ensures ids.Some? ==> ids.value == set m | m in added :: CallSteps.CallIDForPair(View(), host, m)
    {
      var found: set<nat> := {};
      for i := 0 to |added|
        invariant forall m | m in added[..i] :: CallSteps.CallIDForPair(View(), host, m) != 0
        invariant found == set m | m in added[..i] :: CallSteps.CallIDForPair(View(), host, m)
      {
        var cid := CallIDForPair(host, added[i]);
        if cid == 0 {
          assert added[i] in added;
          return None;
        }
        assert added[..i + 1] == added[..i] + [added[i]];
        found := found + {cid};
      }
      assert added[..|added|] == added;
      ids := Some(found);
    }

    method EndLinks(host: Number, added: seq<Number>)
      requires state != null
      modifies state
      ensures state.hash == HashEndEach(old(state.hash), host, added)
    {
      for i := 0 to |added|
        invariant HashEndEach(state.hash, host, added[i..]) == HashEndEach(old(state.hash), host, added)
      {
        assert added[i..][0] == added[i] && added[i..][1..] == added[i + 1..];
        state.OnCallEnded(host, added[i]);
      }
    }

    method DeleteCallsOf(members: set<Number>)
      modifies this`active
      ensures active == map p | p in old(active) && p.caller !in members && p.callee !in members :: old(active)[p]
    {
      var todo := active.Keys;
      while todo != {}
        invariant todo <= old(active).Keys
        invariant active == map p | p in old(active) && (p in todo || (p.caller !in members && p.callee !in members)) :: old(active)[p]
      {
        var p :| p in todo;
        if p.caller in members || p.callee in members {
          active := active - {p};
        }
        todo := todo - {p};
      }
    }

    method ConferenceByPhone(n: Number) returns (found: Option<(nat, Number)>)
      requires Wired()
      ensures found == CallSteps.ConferenceByPhone(View(), n)
    {
      if n in conferences.memberIndex {
        var id := conferences.memberIndex[n];
        return if id in conferences.active then Some((id, conferences.active[id].host)) else None;
      }
      if conferences.state != null && n in conferences.state.keys.members {
        var id := conferences.state.keys.members[n];
        return if id in conferences.state.keys.details then Some((id, conferences.state.keys.details[id].host)) else None;
      }
      return None;
    }

    method DropMemberPersistent(id: nat, phone: Number, txOk: bool) returns (remaining: Option<seq<Number>>)
      requires Wired()
      modifies this, conferences, state, conferences.state
      ensures View() == CallSteps.DropMemberPersistent(old(View()), id, phone, txOk)
    {
      var found := ConferenceByPhone(phone);
      if found.None? {
        return None;
      }
      remaining := conferences.DropMember(id, phone);
      if remaining.None? {
        return;
      }
      ghost var who := Remaining(old(View()).confs.active[id], phone);
      ListSize(remaining.value, who);
      assert View() == CallSteps.DropMember(old(View()), id, phone);
      if !txOk {
        return None;
      }
      db := CloseConf(db, id);
      if |remaining.value| == 2 {
        var pair := SortedPair(remaining.value[0], remaining.value[1]);
        SurvivorPairOf(who, remaining.value[0], remaining.value[1]);
        var newID := db.nextID;
        db := InsertCall(db, pair.caller, pair.callee);
        active := active[pair := newID];
        if state != null {
          state.OnCallInitiated(newID, pair.caller, pair.callee);
        }
      }
    }

    lemma {:induction false} ListSize(s: seq<Number>, who: set<Number>)
      requires Elements(s) == who
      requires forall i, j | 0 <= i < j < |s| :: s[i] != s[j]
      ensures |s| == |who|
      ensures forall i | 0 <= i < |s| :: s[i] in who
      decreases |s|
    {
      if s == [] {
        assert who == {};
      } else {
        var last := s[|s| - 1];
        assert s == s[..|s| - 1] + [last];
        assert last in who && Elements(s[..|s| - 1]) == who - {last};
        ListSize(s[..|s| - 1], who - {last});
      }
      assert forall i | 0 <= i < |s| :: s[i] in Elements(s);
    }
  }
}
