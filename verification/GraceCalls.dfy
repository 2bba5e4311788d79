/** The grace timers of one pod acting on that replica's calls: which calls a timer can end,
    and that a device back on its line before the recheck keeps its call. */
module GraceCalls {
  import opened Basics
  import opened CallModel
  import CallSteps
  import CallRuns
  import CallTheorems
  import CallEnds
  import Presence
  import Grace

  /** The fleet's timers and presence, and the calls of the replica on pod `home`. */
  datatype Joint = Joint(home: Grace.Pod, grace: Grace.World, calls: CallSteps.State)

  /** A teardown lists its number's peers in some order; `fails` loses their database updates. */
  datatype Event =
    | OfGrace(event: Grace.Event, peers: seq<Number>, fails: set<Number>)
    | OfCalls(handler: CallSteps.Event)

  function Start(home: Grace.Pod, attached: bool): Joint {
    Joint(home, Grace.Start, CallSteps.Empty(attached))
  }

  /** The event is the third step of a callback on this pod, and goes ahead. */
  predicate TearsDown(j: Joint, g: Grace.Event) {
    g.Teardown? && g.entry in j.grace.entries
    && j.grace.entries[g.entry].phase == Grace.Expired && j.grace.entries[g.entry].pod == j.home
  }

  function Expiry(j: Joint, e: Event): CallSteps.Event
    requires e.OfGrace? && TearsDown(j, e.event)
  {
    CallSteps.GraceExpired(j.grace.entries[e.event.entry].number, e.peers, e.fails)
  }

  ghost function Step(j: Joint, e: Event): Joint {
    match e
    case OfGrace(g, _, _) =>
      j.(grace := Grace.Step(j.grace, g), calls := if TearsDown(j, g) then CallSteps.Step(j.calls, Expiry(j, e)) else j.calls)
    case OfCalls(c) => j.(calls := CallSteps.Step(j.calls, c))
  }

  ghost predicate Enabled(j: Joint, e: Event) {
    match e
    case OfGrace(g, _, _) => Grace.Enabled(g) && (TearsDown(j, g) ==> CallSteps.Enabled(j.calls, Expiry(j, e)))
    case OfCalls(c) => !c.GraceExpired? && CallSteps.Enabled(j.calls, c) && CallTheorems.Sensible(c)
  }

  ghost function Run(j: Joint, events: seq<Event>): Joint
    decreases |events|
  {
    if events == [] then j else Run(Step(j, events[0]), events[1..])
  }

  ghost predicate AllEnabled(j: Joint, events: seq<Event>)
    decreases |events|
  {
    events == [] || (Enabled(j, events[0]) && AllEnabled(Step(j, events[0]), events[1..]))
  }

  ghost predicate Inv(j: Joint) {
    Grace.Inv(j.grace) && CallRuns.Inv(j.calls)
  }

  lemma StepKeeps(j: Joint, e: Event)
    requires Inv(j) && Enabled(j, e)
    ensures Inv(Step(j, e))
  {
    match e
    case OfGrace(g, _, _) =>
      Grace.StepKeeps(j.grace, g);
      if TearsDown(j, g) { CallTheorems.StepKeeps(j.calls, Expiry(j, e)); }
    case OfCalls(c) => CallTheorems.StepKeeps(j.calls, c);
  }

  lemma {:induction false} RunKeeps(j: Joint, events: seq<Event>)
    requires Inv(j) && AllEnabled(j, events)
    ensures Inv(Run(j, events))
    decreases |events|
  {
    if events != [] {
      StepKeeps(j, events[0]);
      RunKeeps(Step(j, events[0]), events[1..]);
    }
  }

  lemma StartIsGood(home: Grace.Pod, attached: bool)
    ensures Inv(Start(home, attached))
  {
    CallTheorems.EmptyIsGood(attached);
  }

  // ---- the timers alone ----

  function Timers(events: seq<Event>): seq<Grace.Event> {
    if events == [] then []
    else if events[0].OfGrace? then [events[0].event] + Timers(events[1..])
    else Timers(events[1..])
  }

  /** The calls never influence the timers. */
  lemma {:induction false} TimersRunAlone(j: Joint, events: seq<Event>)
    requires AllEnabled(j, events)
    ensures Run(j, events).grace == Grace.Run(j.grace, Timers(events)) && Run(j, events).home == j.home
    ensures forall g | g in Timers(events) :: Grace.Enabled(g)
    decreases |events|
  {
    if events != [] {
      TimersRunAlone(Step(j, events[0]), events[1..]);
      if events[0].OfGrace? {
        assert Timers(events)[1..] == Timers(events[1..]);
      }
    }
  }

  // ---- what a teardown does to the calls ----

  /** A teardown on this pod ends exactly its number's calls. */
  lemma TeardownEndsItsCalls(j: Joint, e: Event)
    requires Inv(j) && Enabled(j, e) && e.OfGrace? && TearsDown(j, e.event)
    ensures Step(j, e).calls.calls == CallTheorems.WithoutNumber(j.calls.calls, j.grace.entries[e.event.entry].number)
    ensures Step(j, e).calls.confs == j.calls.confs
  {
    CallTheorems.EndingAllPeers(j.calls, j.grace.entries[e.event.entry].number, e.peers, e.fails);
  }

  /** Over every run: a timer step ends a call only by the teardown of an entry for one of the
      call's two numbers, whose own earlier recheck found the device not back on that line, on
      any pod, or could not read presence. */
  lemma TimersEndOnlyOfflineCalls(home: Grace.Pod, attached: bool, events: seq<Event>, e: Event, p: Pair)
    requires AllEnabled(Start(home, attached), events) && Enabled(Run(Start(home, attached), events), e)
    requires e.OfGrace? && p in Run(Start(home, attached), events).calls.calls
    requires p !in Step(Run(Start(home, attached), events), e).calls.calls
    ensures e.event.Teardown? && e.event.entry in Run(Start(home, attached), events).grace.entries
    ensures Involves(p, Run(Start(home, attached), events).grace.entries[e.event.entry].number)
    ensures exists k :: Grace.SawOffline(Timers(events), k, e.event.entry)
  {
    var j0 := Start(home, attached);
    StartIsGood(home, attached);
    RunKeeps(j0, events);
    TimersRunAlone(j0, events);
    TeardownEndsItsCalls(Run(j0, events), e);
    Grace.ExpiredSawOffline(Timers(events), e.event.entry);
  }

  // ---- a device that is back in time ----

  /** The device of entry x is back on its line, and x's callback is about to recheck. */
  ghost predicate BackInTime(j: Joint, x: nat) {
    && x in j.grace.entries && j.grace.entries[x].phase == Grace.Fired && j.grace.entries[x].hw != ""
    && Grace.BackOnLine(j.grace.fleet, j.grace.entries[x].number, j.grace.entries[x].hw)
  }

  lemma RecheckKeeps(j: Joint, x: nat)
    requires Inv(j) && BackInTime(j, x)
    ensures var j' := Step(j, OfGrace(Grace.Recheck(x, false), [], {}));
      Inv(j') && x in j'.grace.entries && j'.grace.entries[x].phase == Grace.Kept && j'.calls == j.calls
  {
    assert Presence.NewestOk(j.grace.fleet, j.grace.entries[x].hw);
    StepKeeps(j, OfGrace(Grace.Recheck(x, false), [], {}));
  }

  /** Neither a handler ends the call nor a timer other than x's tears down either end of it. */
  ghost predicate LeavesTo(j: Joint, events: seq<Event>, p: Pair, x: nat)
    decreases |events|
  {
    events == []
    || (&& Enabled(j, events[0])
        && (match events[0]
            case OfGrace(g, _, _) => TearsDown(j, g) && g.entry != x ==> !Involves(p, j.grace.entries[g.entry].number)
            case OfCalls(c) => !CallEnds.Ends(c, p))
        && LeavesTo(Step(j, events[0]), events[1..], p, x))
  }

  lemma {:induction false} KeptEntrySpares(j: Joint, events: seq<Event>, p: Pair, x: nat)
    requires Inv(j) && LeavesTo(j, events, p, x) && p in j.calls.calls
    requires x in j.grace.entries && j.grace.entries[x].phase == Grace.Kept
    ensures p in Run(j, events).calls.calls && Run(j, events).calls.calls[p] == j.calls.calls[p]
    decreases |events|
  {
    if events != [] {
      var e := events[0];
      StepKeeps(j, e);
      match e {
        case OfGrace(g, _, _) =>
          Grace.OneStepForward(j.grace, g, x);
          if TearsDown(j, g) { TeardownEndsItsCalls(j, e); }
        case OfCalls(c) => CallEnds.OnlyItsEndsEndACall(j.calls, c, p);
      }
      KeptEntrySpares(Step(j, e), events[1..], p, x);
    }
  }

  /** A device back on its line before the recheck keeps its call, amid any timers, dials,
      merges, kicks, disconnects and hang-ups of others: the call stays, with its id, until a
      handler ends it or another timer for one of its two numbers tears down (and then
      TimersEndOnlyOfflineCalls says why). */
  lemma BackInTimeKeepsTheCall(home: Grace.Pod, attached: bool, before: seq<Event>, later: seq<Event>, x: nat, p: Pair)
    requires AllEnabled(Start(home, attached), before) && BackInTime(Run(Start(home, attached), before), x)
    requires p in Run(Start(home, attached), before).calls.calls
    requires LeavesTo(Step(Run(Start(home, attached), before), OfGrace(Grace.Recheck(x, false), [], {})), later, p, x)
    ensures var j := Run(Start(home, attached), before);
      var j' := Run(Step(j, OfGrace(Grace.Recheck(x, false), [], {})), later);
      p in j'.calls.calls && j'.calls.calls[p] == j.calls.calls[p]
  {
    var j0 := Start(home, attached);
    StartIsGood(home, attached);
    RunKeeps(j0, before);
    RecheckKeeps(Run(j0, before), x);
    KeptEntrySpares(Step(Run(j0, before), OfGrace(Grace.Recheck(x, false), [], {})), later, p, x);
  }
}
