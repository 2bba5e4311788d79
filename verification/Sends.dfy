/** SendTo and SendToWithTimeout across the fleet: local passes, one published envelope, and
    the other pods' deliveries, interleaved with anything else. */
module Sends {
  import opened Basics
  import opened Presence
  import Hub

  type Message = nat

  /** A registered connection, with every message its buffer ever took (history). */
  datatype Ear = Ear(pod: Pod, number: Number, capacity: nat, queue: seq<Message>, took: seq<Message>)

  /** A send still at work on its own pod; `delivered` are the connections that took it. */
  datatype Sender = Sender(pod: Pod, number: Number, redis: bool, delivered: set<nat>)

  /** An envelope one other pod has yet to receive. */
  datatype Envelope = Envelope(pod: Pod, message: Message, number: Number)

  datatype Net = Net(ears: map<nat, Ear>, senders: map<Message, Sender>, inFlight: set<Envelope>,
                     nextEar: nat, nextMessage: nat)

  const Quiet := Net(map[], map[], {}, 0, 0)

  datatype Outcome = Sent | NotConnected | TimedOut | Retrying

  datatype Event =
    | Join(pod: Pod, number: Number, capacity: nat)
    | Leave(ear: nat)
    | Drain(ear: nat)
    | Begin(pod: Pod, number: Number, subscribers: set<Pod>, redis: bool)
    | Pass(message: Message)
    | Finish(message: Message)
    | Receive(envelope: Envelope)
    | Lose(envelope: Envelope)

  function Take(e: Ear, m: Message): Ear {
    if |e.queue| < e.capacity then
      e.(queue := Hub.Offered(e.queue, e.capacity, m), took := e.took + [m])
    else e
  }

  predicate OnLine(e: Ear, pod: Pod, number: Number) {
    e.pod == pod && e.number == number
  }

  predicate HasRoom(e: Ear) {
    |e.queue| < e.capacity
  }

  /** The non-blocking loop over a line, skipping the connections in `skip`. */
  function OfferLine(ears: map<nat, Ear>, pod: Pod, number: Number, m: Message, skip: set<nat>): map<nat, Ear> {
    map c | c in ears :: if OnLine(ears[c], pod, number) && c !in skip then Take(ears[c], m) else ears[c]
  }

  function PassOver(n: Net, m: Message): Net
    requires m in n.senders
  {
    var s := n.senders[m];
    var took := set c | c in n.ears && OnLine(n.ears[c], s.pod, s.number) && c !in s.delivered && HasRoom(n.ears[c]);
    n.(ears := OfferLine(n.ears, s.pod, s.number, m, s.delivered),
       senders := n.senders[m := s.(delivered := s.delivered + took)])
  }

  /** What the pass concludes from the state it left. */
  ghost function Conclude(n: Net, m: Message, pastDeadline: bool): Outcome
    requires m in n.senders
  {
    var s := n.senders[m];
    if !(exists c :: c in n.ears && OnLine(n.ears[c], s.pod, s.number)) then
      if s.redis then Sent else NotConnected
    else if forall c | c in n.ears && OnLine(n.ears[c], s.pod, s.number) :: c in s.delivered then Sent
    else if pastDeadline then TimedOut
    else Retrying
  }

  function Step(n: Net, e: Event): Net {
    match e
    case Join(pod, number, capacity) =>
      n.(ears := n.ears[n.nextEar := Ear(pod, number, capacity, [], [])], nextEar := n.nextEar + 1)
    case Leave(c) => n.(ears := n.ears - {c})
    case Drain(c) =>
      if c in n.ears && n.ears[c].queue != [] then
        n.(ears := n.ears[c := n.ears[c].(queue := n.ears[c].queue[1..])])
      else n
    case Begin(pod, number, subscribers, redis) =>
      // Every other subscribed pod gets the envelope at most once; a pod skips its own.
      n.(senders := n.senders[n.nextMessage := Sender(pod, number, redis, {})],
         inFlight := n.inFlight + if redis then (set p | p in subscribers && p != pod :: Envelope(p, n.nextMessage, number)) else {},
         nextMessage := n.nextMessage + 1)
    case Pass(m) => if m in n.senders then PassOver(n, m) else n
    case Finish(m) => n.(senders := n.senders - {m})
    case Receive(v) =>
      if v in n.inFlight then
        n.(ears := OfferLine(n.ears, v.pod, v.number, v.message, {}), inFlight := n.inFlight - {v})
      else n
    case Lose(v) => n.(inFlight := n.inFlight - {v})
  }

  function Run(n: Net, events: seq<Event>): Net
    decreases |events|
  {
    if events == [] then n else Run(Step(n, events[0]), events[1..])
  }

  /** No connection took a message twice, and none that may still come was taken before. */
  ghost predicate EarOk(n: Net, c: nat)
    requires c in n.ears
  {
    var e := n.ears[c];
    && c < n.nextEar
    && NoRepeats(e.took)
    && (forall m | m in e.took :: m < n.nextMessage)
    && (forall v | v in n.inFlight && v.pod == e.pod :: v.message !in e.took)
    && (forall m | m in n.senders && n.senders[m].pod == e.pod && m in e.took :: c in n.senders[m].delivered)
  }

  ghost predicate Tracked(n: Net, m: Message)
    requires m in n.senders
  {
    var s := n.senders[m];
    && m < n.nextMessage
    && (forall c | c in s.delivered :: c < n.nextEar && (c in n.ears ==> m in n.ears[c].took))
    && (forall v | v in n.inFlight && v.message == m :: v.pod != s.pod)
  }

  ghost predicate Inv(n: Net) {
    && (forall c | c in n.ears :: EarOk(n, c))
    && (forall m | m in n.senders :: Tracked(n, m))
    && (forall v | v in n.inFlight :: v.message < n.nextMessage)
    && (forall v, w | v in n.inFlight && w in n.inFlight && v.pod == w.pod && v.message == w.message :: v == w)
  }

  lemma PassKeeps(n: Net, m: Message)
    requires Inv(n) && m in n.senders
    ensures Inv(PassOver(n, m))
  {
    var n' := PassOver(n, m);
    assert Tracked(n, m);
    forall c | c in n'.ears ensures EarOk(n', c) {
      assert EarOk(n, c);
    }
    forall k | k in n'.senders ensures Tracked(n', k) {
      assert Tracked(n, k);
    }
  }

  /** An ear of the receiving pod's line that has room takes the message; no other changes. */
  lemma ReceivedEar(n: Net, v: Envelope, c: nat)
    requires Inv(n) && v in n.inFlight && c in n.ears
    ensures EarOk(Step(n, Receive(v)), c)
  {
    assert EarOk(n, c);
    if v.message in n.senders { assert Tracked(n, v.message); }
  }

  lemma ReceiveKeeps(n: Net, v: Envelope)
    requires Inv(n) && v in n.inFlight
    ensures Inv(Step(n, Receive(v)))
  {
    var n' := Step(n, Receive(v));
    forall c | c in n'.ears ensures EarOk(n', c) {
      ReceivedEar(n, v, c);
    }
    forall k | k in n'.senders ensures Tracked(n', k) {
      assert Tracked(n, k);
    }
  }

  lemma OtherEar(n: Net, e: Event, c: nat)
    requires Inv(n) && !e.Pass? && !e.Receive? && c in Step(n, e).ears
    ensures EarOk(Step(n, e), c)
  {
    if c in n.ears {
      assert EarOk(n, c);
    }
  }

  lemma OtherStepKeeps(n: Net, e: Event)
    requires Inv(n) && !e.Pass? && !e.Receive?
    ensures Inv(Step(n, e))
  {
    var n' := Step(n, e);
    forall c | c in n'.ears ensures EarOk(n', c) {
      OtherEar(n, e, c);
    }
    forall k | k in n'.senders ensures Tracked(n', k) {
      if k in n.senders { assert Tracked(n, k); }
    }
  }

  lemma StepKeeps(n: Net, e: Event)
    requires Inv(n)
    ensures Inv(Step(n, e))
  {
    if e.Pass? {
      if e.message in n.senders { PassKeeps(n, e.message); }
    } else if e.Receive? {
      if e.envelope in n.inFlight { ReceiveKeeps(n, e.envelope); }
    } else {
      OtherStepKeeps(n, e);
    }
  }

  lemma {:induction false} RunKeeps(n: Net, events: seq<Event>)
    requires Inv(n)
    ensures Inv(Run(n, events))
    decreases |events|
  {
    if events != [] {
      StepKeeps(n, events[0]);
      RunKeeps(Step(n, events[0]), events[1..]);
    }
  }

  /** Whatever is sent, retried, published, drained or lost, and in whatever order, no
      connection anywhere takes two copies of one send. */
  lemma AtMostOneCopy(events: seq<Event>, c: nat, m: Message)
    requires c in Run(Quiet, events).ears
    ensures multiset(Run(Quiet, events).ears[c].took)[m] <= 1
  {
    RunKeeps(Quiet, events);
    var n := Run(Quiet, events);
    assert EarOk(n, c);
    CountOnce(n.ears[c].took, m);
  }

  /** A pass puts exactly one copy on each local connection of the line that has room and
      has none yet, and none on any other connection. */
  lemma PassDelivers(events: seq<Event>, m: Message, c: nat)
    requires m in Run(Quiet, events).senders && c in Run(Quiet, events).ears
    ensures var n := Run(Quiet, events);
      var s := n.senders[m];
      var n' := Step(n, Pass(m));
      var wanted := OnLine(n.ears[c], s.pod, s.number) && m !in n.ears[c].took && HasRoom(n.ears[c]);
      && multiset(n'.ears[c].took)[m] == multiset(n.ears[c].took)[m] + (if wanted then 1 else 0)
      && (n'.ears[c] != n.ears[c] <==> wanted)
  {
    var n := Run(Quiet, events);
    RunKeeps(Quiet, events);
    StepKeeps(n, Pass(m));
    assert EarOk(n, c) && Tracked(n, m);
    var n' := Step(n, Pass(m));
    assert n'.ears[c] != n.ears[c] ==> n'.ears[c].took == n.ears[c].took + [m];
  }

  /** On a nil return every local connection of the last pass has exactly one copy; a
      timeout is reported only while some full local connection has none; retrying only if
      one is missing too; and ErrNotConnected means the line has nobody here and no Redis. */
  lemma OutcomeIsTruth(events: seq<Event>, m: Message, pastDeadline: bool)
    requires m in Run(Quiet, events).senders
    ensures var n := Step(Run(Quiet, events), Pass(m));
      var s := n.senders[m];
      match Conclude(n, m, pastDeadline)
      case Sent => forall c | c in n.ears && OnLine(n.ears[c], s.pod, s.number) :: multiset(n.ears[c].took)[m] == 1
      case NotConnected => !s.redis && forall c | c in n.ears :: !OnLine(n.ears[c], s.pod, s.number)
      case TimedOut => pastDeadline && Starved(n, m)
      case Retrying => !pastDeadline && Starved(n, m)
  {
    AfterAPass(events, m);
  }

  /** Who took the frame has one copy, and who did not is full and has none. */
  lemma AfterAPass(events: seq<Event>, m: Message)
    requires m in Run(Quiet, events).senders
    ensures var n := Step(Run(Quiet, events), Pass(m));
      && (forall c | c in n.ears && c in n.senders[m].delivered :: multiset(n.ears[c].took)[m] == 1)
      && ((exists c :: c in n.ears && OnLine(n.ears[c], n.senders[m].pod, n.senders[m].number) && c !in n.senders[m].delivered)
          ==> Starved(n, m))
  {
    var before := Run(Quiet, events);
    RunKeeps(Quiet, events);
    StepKeeps(before, Pass(m));
    var n := Step(before, Pass(m));
    forall c | c in n.ears && c in n.senders[m].delivered ensures multiset(n.ears[c].took)[m] == 1 {
      DeliveredHasOne(n, m, c);
    }
    forall c | c in n.ears && OnLine(n.ears[c], n.senders[m].pod, n.senders[m].number) && c !in n.senders[m].delivered
      ensures Starved(n, m)
    {
      UndeliveredIsFull(before, m, c);
    }
  }

  lemma DeliveredHasOne(n: Net, m: Message, c: nat)
    requires Inv(n) && m in n.senders && c in n.ears && c in n.senders[m].delivered
    ensures multiset(n.ears[c].took)[m] == 1
  {
    assert Tracked(n, m) && EarOk(n, c);
    CountOnce(n.ears[c].took, m);
  }

  lemma UndeliveredIsFull(before: Net, m: Message, c: nat)
    requires Inv(before) && m in before.senders && c in before.ears
    requires OnLine(before.ears[c], before.senders[m].pod, before.senders[m].number)
    requires c !in PassOver(before, m).senders[m].delivered
    ensures Missing(PassOver(before, m), m, c)
  {
    assert EarOk(before, c);
  }

  ghost predicate Missing(n: Net, m: Message, c: nat) {
    m in n.senders && c in n.ears
    && OnLine(n.ears[c], n.senders[m].pod, n.senders[m].number) && !HasRoom(n.ears[c]) && m !in n.ears[c].took
  }

  ghost predicate Starved(n: Net, m: Message) {
    exists c :: Missing(n, m, c)
  }

  /** Another pod's delivery puts exactly one copy on each of its connections of the line
      that has room, and none elsewhere. */
  lemma ReceiveDelivers(events: seq<Event>, v: Envelope, c: nat)
    requires v in Run(Quiet, events).inFlight && c in Run(Quiet, events).ears
    ensures var n := Run(Quiet, events);
      var n' := Step(n, Receive(v));
      var wanted := OnLine(n.ears[c], v.pod, v.number) && HasRoom(n.ears[c]);
      && (wanted ==> multiset(n'.ears[c].took)[v.message] == 1)
      && (n'.ears[c] != n.ears[c] <==> wanted)
  {
    var n := Run(Quiet, events);
    RunKeeps(Quiet, events);
    StepKeeps(n, Receive(v));
    assert EarOk(n, c);
    var n' := Step(n, Receive(v));
    assert EarOk(n', c);
    CountOnce(n'.ears[c].took, v.message);
    assert n'.ears[c] != n.ears[c] ==> n'.ears[c].took == n.ears[c].took + [v.message];
  }

  // ---- amid anything else ----

  lemma StepKeepsWhatWasTaken(n: Net, e: Event, c: nat)
    requires Inv(n) && c < n.nextEar
    ensures c < Step(n, e).nextEar
    ensures c in Step(n, e).ears ==> c in n.ears && n.ears[c].took <= Step(n, e).ears[c].took
  {
    assert n.nextEar !in n.ears by { assert n.nextEar in n.ears ==> EarOk(n, n.nextEar); }
  }

  lemma {:induction false} TakenStays(n: Net, events: seq<Event>, c: nat)
    requires Inv(n) && c < n.nextEar
    ensures c in Run(n, events).ears ==> c in n.ears && n.ears[c].took <= Run(n, events).ears[c].took
    decreases |events|
  {
    if events != [] {
      StepKeeps(n, events[0]);
      StepKeepsWhatWasTaken(n, events[0], c);
      TakenStays(Step(n, events[0]), events[1..], c);
    }
  }

  /** The step offers message m to connection c, which has room. */
  ghost predicate OffersTo(n: Net, e: Event, c: nat, m: Message) {
    && c in n.ears && HasRoom(n.ears[c])
    && match e
       case Pass(k) => k == m && m in n.senders && OnLine(n.ears[c], n.senders[m].pod, n.senders[m].number)
       case Receive(v) => v.message == m && v in n.inFlight && OnLine(n.ears[c], v.pod, v.number)
       case _ => false
  }

  lemma OfferIsTaken(n: Net, e: Event, c: nat, m: Message)
    requires Inv(n) && OffersTo(n, e, c, m)
    ensures c in Step(n, e).ears && m in Step(n, e).ears[c].took
  {
    assert EarOk(n, c);
    assert e.Pass? ==> Tracked(n, m);
  }

  /** Whatever happens before, between and after, joins, leaves, drains, losses and other
      sends included, and whether the publication comes before or after the local pass: a
      connection of the line that has room when its own pod passes or receives the send has
      exactly one copy from then on. */
  lemma RoomAtTheOfferMeansOneCopy(before: seq<Event>, e: Event, later: seq<Event>, c: nat, m: Message)
    requires OffersTo(Run(Quiet, before), e, c, m)
    ensures var n := Run(Step(Run(Quiet, before), e), later);
      c in n.ears ==> multiset(n.ears[c].took)[m] == 1
  {
    var n := Run(Quiet, before);
    RunKeeps(Quiet, before);
    StepKeeps(n, e);
    OfferIsTaken(n, e, c, m);
    assert EarOk(Step(n, e), c);
    TakenStays(Step(n, e), later, c);
    RunKeeps(Step(n, e), later);
    var n' := Run(Step(n, e), later);
    if c in n'.ears {
      assert EarOk(n', c);
      CountOnce(n'.ears[c].took, m);
    }
  }

  // ---- one SendTo carried to the end ----

  /** SendTo, and then every other pod in `pods` receiving its envelope. */
  function ReceiveAll(n: Net, pods: seq<Pod>, m: Message, number: Number): Net
    decreases |pods|
  {
    if pods == [] then n else ReceiveAll(Step(n, Receive(Envelope(pods[0], m, number))), pods[1..], m, number)
  }

  lemma {:induction false} ReceiveAllReaches(n: Net, pods: seq<Pod>, m: Message, number: Number, c: nat)
    requires c in n.ears
    requires NoRepeats(pods)
    requires forall p | p in pods :: Envelope(p, m, number) in n.inFlight
    ensures var n' := ReceiveAll(n, pods, m, number);
      c in n'.ears && n'.ears[c] == if n.ears[c].pod in pods && n.ears[c].number == number then Take(n.ears[c], m) else n.ears[c]
    decreases |pods|
  {
    if pods != [] {
      ReceiveAllReaches(Step(n, Receive(Envelope(pods[0], m, number))), pods[1..], m, number, c);
    }
  }

  /** Across the fleet one SendTo, received everywhere, puts one copy on each connection of
      the line whose buffer has room, and touches no other connection. */
  lemma SendToReachesTheLine(n: Net, pod: Pod, number: Number, others: seq<Pod>, c: nat)
    requires Inv(n) && c in n.ears
    requires pod !in others && NoRepeats(others)
    requires n.ears[c].pod == pod || n.ears[c].pod in others
    ensures var m := n.nextMessage;
      var n1 := Step(Step(n, Begin(pod, number, set p | p in others, true)), Pass(m));
      var n' := ReceiveAll(n1, others, m, number);
      && c in n'.ears
      && n'.ears[c] == (if n.ears[c].number == number then Take(n.ears[c], m) else n.ears[c])
      && multiset(n'.ears[c].took)[m] == (if n.ears[c].number == number && HasRoom(n.ears[c]) then 1 else 0)
  {
    var m := n.nextMessage;
    var n0 := Step(n, Begin(pod, number, set p | p in others, true));
    var n1 := Step(n0, Pass(m));
    assert n0.ears == n.ears && n0.senders[m] == Sender(pod, number, true, {});
    assert EarOk(n, c);
    ReceiveAllReaches(n1, others, m, number, c);
    assert m !in n.ears[c].took;
  }
}
