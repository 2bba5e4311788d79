/** The relay handlers as sequences of tracker calls. Message sends have no effect on the
    state and are not part of these methods. */
module CallRelay {
  import opened Basics
  import opened CallModel
  import CallSteps
  import CallRoles
  import CallRuns
  import opened CallTracker

  class Relay {
    const tracker: Tracker

    constructor (tracker: Tracker)
      ensures this.tracker == tracker
    {
      this.tracker := tracker;
    }

    method HandleCall(from: Number, to: Number, online: bool, allowed: bool, dbOk: bool)
      requires tracker.Wired()
      modifies tracker, tracker.conferences, tracker.state, tracker.conferences.state
      ensures tracker.View() == CallSteps.HandleCall(old(tracker.View()), from, to, online, allowed, dbOk)
    {
      if !online || !allowed {
        return;
      }
      var busyTo := tracker.Busy(to);
      if busyTo {
        return;
      }
      var busyFrom := tracker.Busy(from);
      if busyFrom {
        var can := tracker.CanAddAsHost(from);
        if !can {
          return;
        }
      }
      var id := tracker.OnCallInitiated(from, to, dbOk);
    }

    /** Walks the peers found at the start; `order` is the order they came in. */
    method EndActiveCallsAsHangup(n: Number, fails: set<Number>) returns (ghost order: seq<Number>)
      requires tracker.Wired() && CallRuns.Inv(tracker.View())
      modifies tracker, tracker.conferences, tracker.state, tracker.conferences.state
      ensures CallSteps.Lists(order, CallSteps.PeersOf(old(tracker.View()), n))
      ensures tracker.View() == CallSteps.EndEach(old(tracker.View()), n, order, fails)
    {
      var peers := tracker.AllPeersOf(n);
      order := peers;
      for i := 0 to |peers|
        invariant tracker.View() == CallSteps.EndEach(old(tracker.View()), n, peers[..i], fails)
      {
        assert peers[..i + 1][..i] == peers[..i];
        tracker.OnCallEnded(n, peers[i], peers[i] !in fails);
      }
      assert peers[..|peers|] == peers;
    }

    method EndConference(id: nat, dbOk: bool)
      requires tracker.Wired()
      modifies tracker, tracker.conferences, tracker.state, tracker.conferences.state
      ensures tracker.View() == CallSteps.EndConferencePersistent(old(tracker.View()), id, dbOk)
    {
      if id !in tracker.conferences.active {
        return;
      }
      tracker.EndConferencePersistent(id, dbOk);
    }

    method DropMemberFromConference(id: nat, phone: Number, txOk: bool)
      requires tracker.Wired()
      modifies tracker, tracker.conferences, tracker.state, tracker.conferences.state
      ensures tracker.View() == CallSteps.KickMember(old(tracker.View()), id, phone, txOk)
    {
      if id !in tracker.conferences.active {
        return;
      }
      var remaining := tracker.DropMemberPersistent(id, phone, txOk);
    }

    method HandleHangup(n: Number, fails: set<Number>, txOk: bool) returns (ghost order: seq<Number>)
      requires tracker.Wired() && CallRuns.Inv(tracker.View())
      modifies tracker, tracker.conferences, tracker.state, tracker.conferences.state
      ensures CallSteps.Lists(order, CallSteps.PeersOf(old(tracker.View()), n))
      ensures tracker.View() == CallSteps.HandleHangup(old(tracker.View()), n, order, fails, txOk)
    {
      var conf := tracker.ConferenceByPhone(n);
      if conf.Some? {
        order := tracker.AllPeersOf(n);
        if conf.value.1 == n {
          EndConference(conf.value.0, txOk);
        } else {
          DropMemberFromConference(conf.value.0, n, txOk);
        }
        return;
      }
      order := EndActiveCallsAsHangup(n, fails);
    }

    method HandleConferenceMerge(host: Number, held: Number, active: Number, txOk: bool)
      requires tracker.Wired()
      modifies tracker, tracker.conferences, tracker.state, tracker.conferences.state
      ensures tracker.View() == CallSteps.HandleMerge(old(tracker.View()), host, held, active, txOk)
    {
      var withHeld := tracker.InCall(host, held);
      var withActive := tracker.InCall(host, active);
      if !withHeld || !withActive {
        return;
      }
      var heldBusy := tracker.ConfBusy(held);
      if heldBusy {
        return;
      }
      var activeBusy := tracker.ConfBusy(active);
      if activeBusy {
        return;
      }
      var callID := tracker.CallIDForPair(host, held);
      if callID == 0 {
        return;
      }
      var conf := tracker.CreateConferencePersistent(host, callID, [held, active], txOk);
    }

    /** The cleanup when a line's connection closes; a 2-party call stays for the grace window. */
    method OnDisconnect(n: Number, siblings: bool, dbOk: bool)
      requires tracker.Wired() && CallRuns.Inv(tracker.View())
      modifies tracker, tracker.conferences, tracker.state, tracker.conferences.state
      ensures tracker.View() == CallSteps.OnDisconnect(old(tracker.View()), n, siblings, dbOk)
    {
      if siblings {
        return;
      }
      var conf := tracker.ConferenceByPhone(n);
      if conf.Some? {
        EndConference(conf.value.0, dbOk);
        tracker.ClearByNumber(n, dbOk);
        return;
      }
      var peers := tracker.AllPeersOf(n);
      if peers != [] {
        assert peers[0] in CallSteps.PeersOf(old(tracker.View()), n);
        return;
      }
      tracker.ClearByNumber(n, dbOk);
    }
  }
}
