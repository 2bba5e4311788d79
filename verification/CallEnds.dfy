/** What can end a call, and that every other step leaves it up. */
module CallEnds {
  import opened Basics
  import opened CallModel
  import opened CallSteps
  import opened CallRoles
  import opened CallRuns
  import opened CallTheorems

  /** The handler events that end a call: a hang-up or a clearing of one of its numbers, a
      merge of it, or its forced end. A grace expiry of one of its numbers does too. */
  predicate Ends(e: Event, p: Pair) {
    match e
    case HangUp(n, _, _, _) => Involves(p, n)
    case Merge(host, held, active, _) => p == Pair(host, held) || p == Pair(host, active)
    case GraceExpired(n, _, _) => Involves(p, n)
    case ForceEnd(a, b, _) => p == Pair(a, b) || p == Pair(b, a)
    case Clear(n, _) => Involves(p, n)
    case _ => false
  }

  ghost predicate StillUp(s: State, s': State, p: Pair)
    requires p in s.calls
  {
    p in s'.calls && s'.calls[p] == s.calls[p]
  }

  lemma DropSpares(s: State, id: nat, n: Number, txOk: bool, p: Pair)
    requires Inv(s) && Holds(s.confs, id, n) && p in s.calls
    ensures StillUp(s, DropMemberPersistent(s, id, n, txOk), p)
  {
    assert WellFormed(s.confs.active[id]);
    OtherTwo(s.confs.active[id], n);
    var x, y :| s.confs.active[id].members.Keys == {n, x, y} && n !in {x, y} && x != y;
    DropFreesTheLeaver(s, id, n, x, y, txOk);
  }

  lemma HangUpSpares(s: State, n: Number, peers: seq<Number>, fails: set<Number>, txOk: bool, p: Pair)
    requires Inv(s) && Lists(peers, PeersOf(s, n)) && p in s.calls && !Involves(p, n)
    ensures StillUp(s, HandleHangup(s, n, peers, fails, txOk), p)
  {
    FoundConferenceIsActive(s, n);
    if n !in s.confs.index {
      HangUpEndsAllCalls(s, n, peers, fails, txOk);
    } else {
      var id := s.confs.index[n];
      if s.confs.active[id].host == n {
        HostHangUpFreesAll(s, n, peers, fails, txOk, n);
      } else {
        LeavingIsADrop(s, id, n, peers, fails, txOk);
        DropSpares(s, id, n, txOk, p);
      }
    }
  }

  lemma StaysUp(s: State, s': State, gone: set<Pair>, p: Pair)
    requires p in s.calls && s'.calls == s.calls - gone && p !in gone
    ensures StillUp(s, s', p)
  {
  }

  lemma RefusedMerge(s: State, host: Number, held: Number, active: Number, txOk: bool)
    requires !InCall(s, host, held) || !InCall(s, host, active)
    ensures HandleMerge(s, host, held, active, txOk) == s
  {
  }

  /** A committed merge removes the host's two calls. */
  lemma CommittedMerge(s: State, host: Number, held: Number, active: Number) returns (s': State)
    requires Inv(s) && held != active && InCall(s, host, held) && InCall(s, host, active)
    ensures s' == HandleMerge(s, host, held, active, true)
    ensures s'.calls == s.calls - {Pair(host, held), Pair(host, active)}
  {
    MergedCalls(s, host, held, active);
    s' := HandleMerge(s, host, held, active, true);
  }

  /** A rolled-back one removes none. */
  lemma FailedMerge(s: State, host: Number, held: Number, active: Number) returns (s': State)
    requires Inv(s)
    ensures s' == HandleMerge(s, host, held, active, false)
    ensures s'.calls == s.calls - {}
  {
    FailedMergeRestores(s, host, held, active);
    s' := HandleMerge(s, host, held, active, false);
  }

  lemma MergeSpares(s: State, host: Number, held: Number, active: Number, txOk: bool, p: Pair)
    requires Inv(s) && held != active && p in s.calls && p != Pair(host, held) && p != Pair(host, active)
    ensures StillUp(s, HandleMerge(s, host, held, active, txOk), p)
  {
    if !InCall(s, host, held) || !InCall(s, host, active) {
      RefusedMerge(s, host, held, active, txOk);
    } else if txOk {
      var s' := CommittedMerge(s, host, held, active);
      StaysUp(s, s', {Pair(host, held), Pair(host, active)}, p);
    } else {
      var s' := FailedMerge(s, host, held, active);
      StaysUp(s, s', {}, p);
    }
  }

  /** A call outlives every step that is not one of those that end it, with its id. */
  lemma OnlyItsEndsEndACall(s: State, e: Event, p: Pair)
    requires Inv(s) && Enabled(s, e) && Sensible(e) && p in s.calls && !Ends(e, p)
    ensures StillUp(s, Step(s, e), p)
  {
    match e
    case Dial(from, to, online, allowed, dbOk) => DialIff(s, from, to, online, allowed, dbOk);
    case HangUp(n, peers, fails, txOk) => HangUpSpares(s, n, peers, fails, txOk, p);
    case Merge(host, held, active, txOk) => MergeSpares(s, host, held, active, txOk, p);
    case Kick(id, phone, txOk) =>
      if Holds(s.confs, id, phone) {
        LeavingIsADrop(s, id, phone, [], {}, txOk);
        DropSpares(s, id, phone, txOk, p);
      }
    case Disconnect(n, siblings, dbOk) => DisconnectEndsOnlyConferences(s, n, dbOk);
    case GraceExpired(n, peers, fails) => EndingAllPeers(s, n, peers, fails);
    case ForceEnd(_, _, _) =>
    case Clear(_, _) =>
  }
}
