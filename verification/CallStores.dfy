/** The two Redis stores, command by command. */
module CallStores {
  import opened Basics
  import opened CallModel
  import opened CallRoles
  import opened CallMirror

  class CallState {
    var hash: CallHash

    constructor ()
      ensures hash == map[]
    {
      hash := map[];
    }

    method OnCallInitiated(id: nat, caller: Number, callee: Number)
      modifies this
      ensures hash == HashStart(old(hash), id, caller, callee)
    {
      hash := HSet(hash, caller, callee, Entry(id, AsCaller));
      hash := HSet(hash, callee, caller, Entry(id, AsCallee));
    }

    method OnCallEnded(caller: Number, callee: Number)
      modifies this
      ensures hash == HashEnd(old(hash), caller, callee)
    {
      hash := HDel(hash, caller, callee);
      hash := HDel(hash, callee, caller);
      hash := DeleteIfEmpty(hash, caller);
      hash := DeleteIfEmpty(hash, callee);
    }

    method ClearByNumber(n: Number)
      modifies this
      ensures hash == HashClear(old(hash), n)
    {
      if n !in hash {
        return;
      }
      var peers := hash[n].Keys;
      hash := hash - {n};
      DropField(peers, n);
      Prune(peers);
    }

    /** Deletes field n in the hash of every peer. */
    method DropField(peers: set<Number>, n: Number)
      modifies this
      ensures hash == map k | k in old(hash) :: if k in peers then old(hash)[k] - {n} else old(hash)[k]
    {
      var todo := peers;
      while todo != {}
        invariant todo <= peers
        invariant hash == map k | k in old(hash) ::
                            if k in peers && k !in todo then old(hash)[k] - {n} else old(hash)[k]
      {
        var peer :| peer in todo;
        hash := HDel(hash, peer, n);
        todo := todo - {peer};
      }
    }

    method Prune(peers: set<Number>)
      modifies this
      ensures hash == map k | k in old(hash) && !(k in peers && old(hash)[k] == map[]) :: old(hash)[k]
    {
      var todo := peers;
      while todo != {}
        invariant todo <= peers
        invariant hash == map k | k in old(hash) && !(k in peers && k !in todo && old(hash)[k] == map[]) :: old(hash)[k]
      {
        var peer :| peer in todo;
        hash := DeleteIfEmpty(hash, peer);
        todo := todo - {peer};
      }
    }

    method Busy(n: Number) returns (busy: bool)
      ensures busy == HashBusy(hash, n)
    {
      busy := n in hash;
    }

    /** Some peer of n, when there is one. */
    method PeerOf(n: Number) returns (peer: Option<Number>)
      ensures peer.Some? ==> peer.value in HashPeers(hash, n)
      ensures peer.None? ==> HashPeers(hash, n) == {}
    {
      peer := None;
      if n in hash && hash[n] != map[] {
        var p :| p in hash[n];
        peer := Some(p);
      }
    }

    method AllPeersOf(n: Number) returns (peers: seq<Number>)
      ensures forall p :: p in peers <==> p in HashPeers(hash, n)
      ensures forall i, j | 0 <= i < j < |peers| :: peers[i] != peers[j]
    {
      peers := [];
      var todo := if n in hash then hash[n].Keys else {};
      while todo != {}
        invariant todo <= HashPeers(hash, n)
        invariant forall p :: p in peers <==> p in HashPeers(hash, n) - todo
        invariant forall i, j | 0 <= i < j < |peers| :: peers[i] != peers[j]
      {
        var p :| p in todo;
        assert p !in peers;
        peers := peers + [p];
        todo := todo - {p};
      }
    }

    /** The id of some call n takes part in. */
    method CallIDFor(n: Number) returns (id: Option<nat>)
      ensures id.Some? ==> n in hash && exists p | p in hash[n] :: hash[n][p].id == id.value
      ensures id.None? <==> HashPeers(hash, n) == {}
    {
      id := None;
      if n in hash && hash[n] != map[] {
        var p :| p in hash[n];
        id := Some(hash[n][p].id);
      }
    }

    method CanAddAsHost(n: Number) returns (can: bool)
      ensures can == HashCanAdd(hash, n)
    {
      if n !in hash || |hash[n]| != 1 {
        return false;
      }
      assert hash[n].Keys != {};
      var p :| p in hash[n];
      SingletonSize(hash[n].Keys, p);
      return hash[n][p].side == AsCaller;
    }

    /** The scan over all keys, one result per call id. c are the calls the hash mirrors;
        the result lists them, each once. */
    method Active(ghost c: CallTable) returns (calls: seq<(Pair, nat)>)
      requires Mirrors(c, hash)
      requires forall p, q | p in c && q in c && c[p] == c[q] :: p == q
      ensures forall x :: x in calls <==> x in TableCalls(c)
      ensures forall i, j | 0 <= i < j < |calls| :: calls[i] != calls[j]
    {
      calls := [];
      var seen: set<nat> := {};
      forall p | p in c ensures p.caller in hash && p.callee in hash[p.caller] {
        assert EntryAt(hash, p.caller, p.callee) == Expected(c, p.caller, p.callee);
      }
      var keys := hash.Keys;
      while keys != {}
        invariant keys <= hash.Keys
        invariant forall x | x in calls :: x in TableCalls(c)
        invariant forall x | x in TableCalls(c) :: x in calls <==> x.1 in seen
        invariant forall p | p in c && p.caller !in keys :: c[p] in seen
        invariant seen <= c.Values
        invariant forall i, j | 0 <= i < j < |calls| :: calls[i] != calls[j]
      {
        var number :| number in keys;
        var peers := hash[number].Keys;
        while peers != {}
          invariant peers <= hash[number].Keys
          invariant forall x | x in calls :: x in TableCalls(c)
          invariant forall x | x in TableCalls(c) :: x in calls <==> x.1 in seen
          invariant forall p | p in c && p.caller !in keys :: c[p] in seen
          invariant forall p | p in c && p.caller == number && p.callee !in peers :: c[p] in seen
          invariant seen <= c.Values
          invariant forall i, j | 0 <= i < j < |calls| :: calls[i] != calls[j]
        {
          var peer :| peer in peers;
          var e := hash[number][peer];
          assert EntryAt(hash, number, peer) == Expected(c, number, peer);
          if e.id !in seen {
            var p := if e.side == AsCaller then Pair(number, peer) else Pair(peer, number);
            assert (p, e.id) in TableCalls(c) && c[p] == e.id;
            calls := calls + [(p, e.id)];
            seen := seen + {e.id};
          }
          peers := peers - {peer};
        }
        keys := keys - {number};
      }
      forall x | x in TableCalls(c) ensures x in calls {
        assert c[x.0] in seen;
      }
    }
  }

  class ConfState {
    var keys: ConfKeys

    constructor ()
      ensures keys == ConfKeys(map[], map[])
    {
      keys := ConfKeys(map[], map[]);
    }

    method Create(id: nat, host: Number, originating: nat, members: seq<Number>)
      modifies this
      ensures keys == KeysCreate(old(keys), id, ConfDetail(host, originating, Elements(members)))
    {
      keys := keys.(details := keys.details[id := ConfDetail(host, originating, Elements(members))]);
      for i := 0 to |members|
        invariant keys.details == old(keys).details[id := ConfDetail(host, originating, Elements(members))]
        invariant keys.members == IndexAll(old(keys).members, Elements(members[..i]), id)
      {
        keys := keys.(members := keys.members[members[i] := id]);
        ElementsStep(members, i);
        IndexOneMore(old(keys).members, Elements(members[..i]), members[i], id);
      }
      assert members[..|members|] == members;
    }

    method RemoveMember(phone: Number)
      modifies this
      ensures keys == KeysRemoveMember(old(keys), phone)
    {
      keys := keys.(members := keys.members - {phone});
    }

    method End(id: nat, members: seq<Number>)
      modifies this
      ensures keys == KeysEnd(old(keys), id, Elements(members))
    {
      keys := keys.(details := keys.details - {id});
      for i := 0 to |members|
        invariant keys.details == old(keys).details - {id}
        invariant keys.members == old(keys).members - Elements(members[..i])
      {
        keys := keys.(members := keys.members - {members[i]});
      }
      assert members[..|members|] == members;
    }

    method Contains(id: nat, a: Number, b: Number) returns (both: bool)
      ensures both == KeysContain(keys, id, a, b)
    {
      both := id in keys.details && a in keys.details[id].members && b in keys.details[id].members;
    }
  }
}
