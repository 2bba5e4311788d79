/** Link-health telemetry across pods: every sample is kept in a bounded ring on each pod,
    fanned out over Redis, and flushed to the database by the pod that ingested it. */
module LinkHealth {
  import opened Basics

  type Pod = string

  datatype Key = CallKey(call: nat) | ConferenceKey(conference: nat)

  datatype Endpoint = Endpoint(from: string, peer: string)

  /** A sample at a nanosecond instant; `data` stands for its measurements. */
  datatype Sample = Sample(ts: int, data: int)

  const RingCapacity: nat := 60

  /** Go's zero time, in nanoseconds before 1970. */
  const ZeroTime: int := -62_135_596_800_000_000_000

  datatype Ring = Ring(samples: seq<Sample>, lastFlushed: int)

  const EmptyRing := Ring([], ZeroTime)

  function LastOf(s: seq<Sample>): seq<Sample> {
    if |s| <= RingCapacity then s else s[|s| - RingCapacity..]
  }

  function Append(r: Ring, s: Sample, remote: bool): Ring {
    Ring(if |r.samples| < RingCapacity then r.samples + [s] else r.samples[1..] + [s],
         if remote && s.ts > r.lastFlushed then s.ts else r.lastFlushed)
  }

  /** What a phone reports: milliseconds since 1970. */
  datatype Report = Report(ms: int, data: int)

  /** The relay's handler builds every sample it records with time.UnixMilli. */
  function Received(r: Report): Sample {
    Sample(r.ms * 1_000_000, r.data)
  }

  /** The wire form has a millisecond timestamp. */
  function Wire(s: Sample): Sample {
    s.(ts := s.ts / 1_000_000 * 1_000_000)
  }

  /** So the fan-out loses nothing: a remote pod gets the very sample. */
  lemma WireKeepsReceived(r: Report)
    ensures Wire(Received(r)) == Received(r)
  {
  }

  /** A call's samples name no peer, a conference's always do. */
  predicate Routed(key: Key, ep: Endpoint) {
    key.CallKey? <==> ep.peer == ""
  }

  /** One life of a session on one pod; eviction detaches it, and a later sample opens a new one. */
  datatype Session = Session(pod: Pod, key: Key)

  datatype Fact = Fact(pod: Pod, key: Key, ep: Endpoint, sample: Sample)

  datatype Row = Row(key: Key, ep: Endpoint, sample: Sample)

  /** A pod's flush of one session between its two critical sections. */
  datatype Flush = Flush(session: nat, todo: seq<(Endpoint, Sample)>, written: nat)

  datatype World = World(
    sessions: map<nat, Session>,
    next: nat,
    current: map<(Pod, Key), nat>,
    rings: map<(nat, Endpoint), Ring>,
    flushing: map<Pod, Flush>,
    rows: set<Row>,
    delivered: map<(nat, Endpoint), seq<Sample>>,   // history: what each ring was given
    ingested: set<Fact>,                            // history: by which pod
    published: set<Fact>,                           // history: on the Redis channel, by which pod
    wrote: set<Fact>)                               // history: which pod sent which row

  const Start := World(map[], 0, map[], map[], map[], {}, map[], {}, {}, {})

  datatype Event =
    | Open(pod: Pod, key: Key)
    | Ingest(session: nat, ep: Endpoint, report: Report, redis: bool)
    | Apply(session: nat, envelope: Fact)
    | Evict(pod: Pod, key: Key)
    | BeginFlush(pod: Pod, session: nat, todo: seq<(Endpoint, Sample)>)
    | WriteOne(pod: Pod, ok: bool)
    | FinishFlush(pod: Pod)

  function RingAt(w: World, k: (nat, Endpoint)): Ring {
    if k in w.rings then w.rings[k] else EmptyRing
  }

  function GivenTo(w: World, k: (nat, Endpoint)): seq<Sample> {
    if k in w.delivered then w.delivered[k] else []
  }

  function Deliver(w: World, k: (nat, Endpoint), s: Sample, remote: bool): World {
    w.(rings := w.rings[k := Append(RingAt(w, k), s, remote)], delivered := w.delivered[k := GivenTo(w, k) + [s]])
  }

  /** An endpoint of the session has a sample newer than its last flush. */
  predicate Due(w: World, sid: nat, ep: Endpoint) {
    var r := RingAt(w, (sid, ep));
    r.samples != [] && r.samples[|r.samples| - 1].ts > r.lastFlushed
  }

  /** The first critical section of flushSession collects exactly the due endpoints' latest. */
  ghost predicate Collects(w: World, sid: nat, todo: seq<(Endpoint, Sample)>) {
    && DistinctEndpoints(todo)
    && (forall t | t in todo :: Due(w, sid, t.0) && t.1 == RingAt(w, (sid, t.0)).samples[|RingAt(w, (sid, t.0)).samples| - 1])
    && (forall ep | Due(w, sid, ep) :: exists t :: t in todo && t.0 == ep)
  }

  /** INSERT ... ON CONFLICT DO NOTHING over the unique index on key, endpoint and time. */
  function Insert(rows: set<Row>, r: Row): set<Row> {
    if exists q | q in rows :: q.key == r.key && q.ep == r.ep && q.sample.ts == r.sample.ts then rows else rows + {r}
  }

  function Advance(rings: map<(nat, Endpoint), Ring>, sid: nat, todo: seq<(Endpoint, Sample)>): map<(nat, Endpoint), Ring> {
    if todo == [] then rings
    else
      var k := (sid, todo[0].0);
      Advance(if k in rings then rings[k := rings[k].(lastFlushed := todo[0].1.ts)] else rings, sid, todo[1..])
  }

  ghost predicate Enabled(w: World, e: Event) {
    match e
    case BeginFlush(pod, sid, todo) =>
      pod !in w.flushing && sid in w.sessions && w.sessions[sid].pod == pod && Collects(w, sid, todo)
    case _ => true
  }

  function Step(w: World, e: Event): World {
    match e
    case Open(pod, key) =>
      if (pod, key) in w.current then w
      else w.(sessions := w.sessions[w.next := Session(pod, key)], current := w.current[(pod, key) := w.next], next := w.next + 1)
    case Ingest(sid, ep, report, redis) =>
      if sid in w.sessions && Routed(w.sessions[sid].key, ep) then
        var at, sample := w.sessions[sid], Received(report);
        Deliver(w, (sid, ep), sample, false).(
          ingested := w.ingested + {Fact(at.pod, at.key, ep, sample)},
          published := w.published + if redis then {Fact(at.pod, at.key, ep, Wire(sample))} else {})
      else w
    case Apply(sid, v) =>
      // A pod skips its own envelopes.
      if sid in w.sessions && v in w.published && v.pod != w.sessions[sid].pod && v.key == w.sessions[sid].key then
        Deliver(w, (sid, v.ep), v.sample, true)
      else w
    case Evict(pod, key) => w.(current := w.current - {(pod, key)})
    case BeginFlush(pod, sid, todo) => w.(flushing := w.flushing[pod := Flush(sid, todo, 0)])
    case WriteOne(pod, ok) =>
      if pod in w.flushing && w.flushing[pod].written < |w.flushing[pod].todo| && w.flushing[pod].session in w.sessions then
        var f := w.flushing[pod];
        var key, (ep, sample) := w.sessions[f.session].key, f.todo[f.written];
        if ok && !(key.ConferenceKey? && ep.peer == "") then
          w.(rows := Insert(w.rows, Row(key, ep, sample)),
             wrote := w.wrote + {Fact(pod, key, ep, sample)},
             flushing := w.flushing[pod := f.(written := f.written + 1)])
        else w.(flushing := w.flushing - {pod})   // a failed write abandons the flush
      else w
    case FinishFlush(pod) =>
      if pod in w.flushing && w.flushing[pod].written == |w.flushing[pod].todo| then
        w.(rings := Advance(w.rings, w.flushing[pod].session, w.flushing[pod].todo), flushing := w.flushing - {pod})
      else w
  }

  ghost predicate AllEnabled(w: World, events: seq<Event>)
    decreases |events|
  {
    events == [] || (Enabled(w, events[0]) && AllEnabled(Step(w, events[0]), events[1..]))
  }

  function Run(w: World, events: seq<Event>): World
    decreases |events|
  {
    if events == [] then w else Run(Step(w, events[0]), events[1..])
  }

  // ---- the invariant ----

  ghost predicate Ingests(w: World, pod: Pod, key: Key, ep: Endpoint) {
    exists s :: Fact(pod, key, ep, s) in w.ingested
  }

  /** The pod ingested the sample itself, or another pod published it. */
  ghost predicate Sourced(w: World, pod: Pod, key: Key, ep: Endpoint, s: Sample) {
    Fact(pod, key, ep, s) in w.ingested || exists q :: q != pod && Fact(q, key, ep, s) in w.published
  }

  ghost predicate RingOk(w: World, k: (nat, Endpoint)) {
    k in w.rings ==>
      && k.0 in w.sessions
      && w.rings[k].samples == LastOf(GivenTo(w, k))
      && (Ingests(w, w.sessions[k.0].pod, w.sessions[k.0].key, k.1)
          || forall s | s in w.rings[k].samples :: s.ts <= w.rings[k].lastFlushed)
  }

  ghost predicate GivenOk(w: World, k: (nat, Endpoint)) {
    k in w.delivered ==>
      && k.0 in w.sessions && k in w.rings
      && forall s | s in w.delivered[k] :: Sourced(w, w.sessions[k.0].pod, w.sessions[k.0].key, k.1, s)
  }

  predicate DistinctEndpoints(todo: seq<(Endpoint, Sample)>) {
    forall i, j | 0 <= i < j < |todo| :: todo[i].0 != todo[j].0
  }

  ghost predicate FlushOk(w: World, pod: Pod)
    requires pod in w.flushing
  {
    var f := w.flushing[pod];
    && f.session in w.sessions && w.sessions[f.session].pod == pod
    && DistinctEndpoints(f.todo)
    && forall t | t in f.todo ::
      && Ingests(w, pod, w.sessions[f.session].key, t.0)
      && Sourced(w, pod, w.sessions[f.session].key, t.0, t.1)
  }

  ghost predicate HistoryOk(w: World) {
    && (forall v | v in w.ingested :: Routed(v.key, v.ep))
    && w.published <= w.ingested
    && (forall v | v in w.wrote :: Ingests(w, v.pod, v.key, v.ep) && Sourced(w, v.pod, v.key, v.ep, v.sample))
    && (forall r | r in w.rows :: exists pod :: Fact(pod, r.key, r.ep, r.sample) in w.wrote)
  }

  ghost predicate NoDuplicateRows(rows: set<Row>) {
    forall q, r | q in rows && r in rows && q.key == r.key && q.ep == r.ep && q.sample.ts == r.sample.ts :: q == r
  }

  ghost predicate Inv(w: World) {
    && (forall sid | sid in w.sessions :: sid < w.next)
    && (forall k :: RingOk(w, k))
    && (forall k :: GivenOk(w, k))
    && (forall pod | pod in w.flushing :: FlushOk(w, pod))
    && HistoryOk(w)
    && NoDuplicateRows(w.rows)
  }

  /** Histories only grow, so what is known of a sample stays known. */
  lemma Grows(w: World, w': World, pod: Pod, key: Key, ep: Endpoint, s: Sample)
    requires w.ingested <= w'.ingested && w.published <= w'.published
    ensures Ingests(w, pod, key, ep) ==> Ingests(w', pod, key, ep)
    ensures Sourced(w, pod, key, ep, s) ==> Sourced(w', pod, key, ep, s)
  {
  }

  lemma RingAppends(r: Ring, given: seq<Sample>, s: Sample, remote: bool)
    requires r.samples == LastOf(given)
    ensures Append(r, s, remote).samples == LastOf(given + [s])
  {
  }

  lemma UntouchedRings(w: World, w': World)
    requires Inv(w) && w'.rings == w.rings && w'.delivered == w.delivered
    requires w.ingested <= w'.ingested && w.published <= w'.published
    requires forall sid | sid in w.sessions :: sid in w'.sessions && w'.sessions[sid] == w.sessions[sid]
    ensures forall k :: RingOk(w', k) && GivenOk(w', k)
  {
    forall k ensures RingOk(w', k) && GivenOk(w', k) {
      assert RingOk(w, k) && GivenOk(w, k);
      if k in w.delivered {
        forall s | s in w.delivered[k] ensures Sourced(w', w.sessions[k.0].pod, w.sessions[k.0].key, k.1, s) {
          Grows(w, w', w.sessions[k.0].pod, w.sessions[k.0].key, k.1, s);
        }
      }
    }
  }

  lemma UntouchedFlushes(w: World, w': World)
    requires forall pod | pod in w.flushing :: FlushOk(w, pod)
    requires forall pod | pod in w'.flushing :: pod in w.flushing && w'.flushing[pod].session == w.flushing[pod].session && w'.flushing[pod].todo == w.flushing[pod].todo
    requires w.ingested <= w'.ingested && w.published <= w'.published
    requires forall sid | sid in w.sessions :: sid in w'.sessions && w'.sessions[sid] == w.sessions[sid]
    ensures forall pod | pod in w'.flushing :: FlushOk(w', pod)
  {
    forall pod | pod in w'.flushing ensures FlushOk(w', pod) {
      assert FlushOk(w, pod);
      forall t | t in w'.flushing[pod].todo
        ensures Ingests(w', pod, w.sessions[w.flushing[pod].session].key, t.0)
          && Sourced(w', pod, w.sessions[w.flushing[pod].session].key, t.0, t.1)
      {
        Grows(w, w', pod, w.sessions[w.flushing[pod].session].key, t.0, t.1);
      }
    }
  }

  lemma UntouchedHistory(w: World, w': World)
    requires HistoryOk(w) && w'.rows == w.rows && w'.wrote == w.wrote && w'.published == w.published && w'.ingested == w.ingested
    ensures HistoryOk(w')
  {
    forall v | v in w.wrote ensures Ingests(w', v.pod, v.key, v.ep) && Sourced(w', v.pod, v.key, v.ep, v.sample) {
      Grows(w, w', v.pod, v.key, v.ep, v.sample);
    }
  }

  lemma DeliverKeeps(w: World, w': World, k: (nat, Endpoint), s: Sample, remote: bool)
    requires Inv(w) && k.0 in w.sessions
    requires w'.rings == Deliver(w, k, s, remote).rings && w'.delivered == Deliver(w, k, s, remote).delivered
    requires w'.sessions == w.sessions && w.ingested <= w'.ingested && w.published <= w'.published
    requires Sourced(w', w.sessions[k.0].pod, w.sessions[k.0].key, k.1, s)
    requires !remote ==> Ingests(w', w.sessions[k.0].pod, w.sessions[k.0].key, k.1)
    ensures forall j :: RingOk(w', j) && GivenOk(w', j)
  {
    forall j ensures RingOk(w', j) && GivenOk(w', j) {
      assert RingOk(w, j) && GivenOk(w, j);
      if j == k {
        DeliveredRing(w, w', k, s, remote);
        DeliveredHistory(w, w', k, s);
      } else if j in w.delivered {
        forall x | x in w.delivered[j] ensures Sourced(w', w.sessions[j.0].pod, w.sessions[j.0].key, j.1, x) {
          Grows(w, w', w.sessions[j.0].pod, w.sessions[j.0].key, j.1, x);
        }
      }
    }
  }

  lemma DeliveredRing(w: World, w': World, k: (nat, Endpoint), s: Sample, remote: bool)
    requires RingOk(w, k) && GivenOk(w, k) && k.0 in w.sessions && w'.sessions == w.sessions && w.ingested <= w'.ingested
    requires k in w'.rings && w'.rings[k] == Append(RingAt(w, k), s, remote) && GivenTo(w', k) == GivenTo(w, k) + [s]
    requires !remote ==> Ingests(w', w.sessions[k.0].pod, w.sessions[k.0].key, k.1)
    ensures RingOk(w', k)
  {
    RingIsGiven(w, k);
    RingAppends(RingAt(w, k), GivenTo(w, k), s, remote);
  }

  lemma DeliveredHistory(w: World, w': World, k: (nat, Endpoint), s: Sample)
    requires GivenOk(w, k) && k.0 in w.sessions && w'.sessions == w.sessions
    requires w.ingested <= w'.ingested && w.published <= w'.published
    requires k in w'.rings && GivenTo(w', k) == GivenTo(w, k) + [s]
    requires Sourced(w', w.sessions[k.0].pod, w.sessions[k.0].key, k.1, s)
    ensures GivenOk(w', k)
  {
    forall x | x in GivenTo(w, k) ensures Sourced(w', w.sessions[k.0].pod, w.sessions[k.0].key, k.1, x) {
      Grows(w, w', w.sessions[k.0].pod, w.sessions[k.0].key, k.1, x);
    }
  }

  lemma RingIsGiven(w: World, k: (nat, Endpoint))
    requires RingOk(w, k) && GivenOk(w, k)
    ensures RingAt(w, k).samples == LastOf(GivenTo(w, k))
  {
  }

  lemma IngestKeeps(w: World, sid: nat, ep: Endpoint, report: Report, redis: bool)
    requires Inv(w) && sid in w.sessions && Routed(w.sessions[sid].key, ep)
    ensures Inv(Step(w, Ingest(sid, ep, report, redis)))
  {
    var w' := Step(w, Ingest(sid, ep, report, redis));
    assert Fact(w.sessions[sid].pod, w.sessions[sid].key, ep, Received(report)) in w'.ingested;
    WireKeepsReceived(report);
    DeliverKeeps(w, w', (sid, ep), Received(report), false);
    UntouchedFlushes(w, w');
    forall v | v in w'.wrote ensures Ingests(w', v.pod, v.key, v.ep) && Sourced(w', v.pod, v.key, v.ep, v.sample) {
      Grows(w, w', v.pod, v.key, v.ep, v.sample);
    }
  }

  lemma ApplyKeeps(w: World, sid: nat, v: Fact)
    requires Inv(w)
    ensures Inv(Step(w, Apply(sid, v)))
  {
    var w' := Step(w, Apply(sid, v));
    if w' != w {
      DeliverKeeps(w, w', (sid, v.ep), v.sample, true);
      UntouchedFlushes(w, w');
      UntouchedHistory(w, w');
    }
  }

  lemma BeginFlushKeeps(w: World, pod: Pod, sid: nat, todo: seq<(Endpoint, Sample)>)
    requires Inv(w) && Enabled(w, BeginFlush(pod, sid, todo))
    ensures Inv(Step(w, BeginFlush(pod, sid, todo)))
  {
    var w' := Step(w, BeginFlush(pod, sid, todo));
    UntouchedRings(w, w');
    forall p | p in w'.flushing ensures FlushOk(w', p) {
      if p == pod {
        forall t | t in todo ensures Ingests(w', pod, w.sessions[sid].key, t.0) && Sourced(w', pod, w.sessions[sid].key, t.0, t.1) {
          assert Due(w, sid, t.0) && RingOk(w, (sid, t.0)) && GivenOk(w, (sid, t.0));
          var given := w.delivered[(sid, t.0)];
          assert t.1 == given[|given| - 1];
          assert Sourced(w, pod, w.sessions[sid].key, t.0, t.1);
        }
      } else {
        assert FlushOk(w, p);
      }
    }
    UntouchedHistory(w, w');
  }

  lemma WriteOneKeeps(w: World, pod: Pod, ok: bool)
    requires Inv(w)
    ensures Inv(Step(w, WriteOne(pod, ok)))
  {
    var w' := Step(w, WriteOne(pod, ok));
    UntouchedRings(w, w');
    UntouchedFlushes(w, w');
    WriteOneHistory(w, pod, ok);
  }

  lemma WriteOneHistory(w: World, pod: Pod, ok: bool)
    requires HistoryOk(w) && NoDuplicateRows(w.rows) && (pod in w.flushing ==> FlushOk(w, pod))
    ensures HistoryOk(Step(w, WriteOne(pod, ok))) && NoDuplicateRows(Step(w, WriteOne(pod, ok)).rows)
  {
    var w' := Step(w, WriteOne(pod, ok));
    if w'.wrote != w.wrote || w'.rows != w.rows {
      var f := w.flushing[pod];
      assert f.todo[f.written] in f.todo;
      WroteKeeps(w, w', Fact(pod, w.sessions[f.session].key, f.todo[f.written].0, f.todo[f.written].1));
    } else {
      UntouchedHistory(w, w');
    }
  }

  lemma WroteKeeps(w: World, w': World, v: Fact)
    requires HistoryOk(w) && NoDuplicateRows(w.rows)
    requires Ingests(w, v.pod, v.key, v.ep) && Sourced(w, v.pod, v.key, v.ep, v.sample)
    requires w'.ingested == w.ingested && w'.published == w.published && w'.wrote == w.wrote + {v}
    requires w'.rows == Insert(w.rows, Row(v.key, v.ep, v.sample))
    ensures HistoryOk(w') && NoDuplicateRows(w'.rows)
  {
    forall x | x in w'.wrote ensures Ingests(w', x.pod, x.key, x.ep) && Sourced(w', x.pod, x.key, x.ep, x.sample) {
      Grows(w, w', x.pod, x.key, x.ep, x.sample);
    }
    forall r | r in w'.rows ensures exists p :: Fact(p, r.key, r.ep, r.sample) in w'.wrote {
      if r in w.rows {
        var p :| Fact(p, r.key, r.ep, r.sample) in w.wrote;
        assert Fact(p, r.key, r.ep, r.sample) in w'.wrote;
      } else {
        assert Fact(v.pod, r.key, r.ep, r.sample) in w'.wrote;
      }
    }
  }

  lemma {:induction false} AdvanceOnlyFlushed(rings: map<(nat, Endpoint), Ring>, sid: nat, todo: seq<(Endpoint, Sample)>, k: (nat, Endpoint))
    ensures var rings' := Advance(rings, sid, todo);
      && (k in rings' <==> k in rings)
      && (k in rings ==> rings'[k].samples == rings[k].samples)
      && (k in rings && (k.0 != sid || forall t | t in todo :: t.0 != k.1) ==> rings'[k] == rings[k])
    decreases |todo|
  {
    if todo != [] {
      var j := (sid, todo[0].0);
      AdvanceOnlyFlushed(if j in rings then rings[j := rings[j].(lastFlushed := todo[0].1.ts)] else rings, sid, todo[1..], k);
    }
  }

  lemma FinishFlushKeeps(w: World, pod: Pod)
    requires Inv(w)
    ensures Inv(Step(w, FinishFlush(pod)))
  {
    var w' := Step(w, FinishFlush(pod));
    if w' != w {
      var f := w.flushing[pod];
      assert FlushOk(w, pod);
      forall k ensures RingOk(w', k) && GivenOk(w', k) {
        assert RingOk(w, k) && GivenOk(w, k);
        AdvanceOnlyFlushed(w.rings, f.session, f.todo, k);
      }
      UntouchedFlushes(w, w');
      UntouchedHistory(w, w');
    }
  }

  lemma StepKeeps(w: World, e: Event)
    requires Inv(w) && Enabled(w, e)
    ensures Inv(Step(w, e))
  {
    var w' := Step(w, e);
    match e
    case Ingest(sid, ep, report, redis) => if w' != w { IngestKeeps(w, sid, ep, report, redis); }
    case Apply(sid, v) => ApplyKeeps(w, sid, v);
    case BeginFlush(pod, sid, todo) => BeginFlushKeeps(w, pod, sid, todo);
    case WriteOne(pod, ok) => WriteOneKeeps(w, pod, ok);
    case FinishFlush(pod) => FinishFlushKeeps(w, pod);
    case _ =>
      UntouchedRings(w, w');
      UntouchedFlushes(w, w');
      UntouchedHistory(w, w');
  }

  lemma {:induction false} RunKeeps(w: World, events: seq<Event>)
    requires Inv(w) && AllEnabled(w, events)
    ensures Inv(Run(w, events))
    decreases |events|
  {
    if events != [] {
      StepKeeps(w, events[0]);
      RunKeeps(Step(w, events[0]), events[1..]);
    }
  }

  // ---- the promises ----

  /** Every ring is the last at most 60 samples it was given since its session opened, in order. */
  lemma RingIsTheLastSixty(events: seq<Event>, k: (nat, Endpoint))
    requires AllEnabled(Start, events)
    ensures var w := Run(Start, events);
      && RingAt(w, k).samples == LastOf(GivenTo(w, k))
      && |RingAt(w, k).samples| <= RingCapacity
  {
    RunKeeps(Start, events);
    assert RingOk(Run(Start, events), k) && GivenOk(Run(Start, events), k);
  }

  /** A pod that never ingests an endpoint never writes a row for it. */
  lemma OnlyIngestingPodsWrite(events: seq<Event>, v: Fact)
    requires AllEnabled(Start, events) && v in Run(Start, events).wrote
    ensures Ingests(Run(Start, events), v.pod, v.key, v.ep)
  {
    RunKeeps(Start, events);
  }

  /** Every row is a sample some pod ingested, to the nanosecond; and no two rows share an
      endpoint and a time. */
  lemma RowsAreIngestedSamples(events: seq<Event>, r: Row)
    requires AllEnabled(Start, events) && r in Run(Start, events).rows
    ensures exists pod :: Fact(pod, r.key, r.ep, r.sample) in Run(Start, events).ingested
    ensures NoDuplicateRows(Run(Start, events).rows)
  {
    RunKeeps(Start, events);
    var w := Run(Start, events);
    var p :| Fact(p, r.key, r.ep, r.sample) in w.wrote;
    assert Sourced(w, p, r.key, r.ep, r.sample);
  }

  /** While one pod ingests an endpoint, no other pod writes it, and that one writes only what
      it ingested. */
  lemma OnePublisherWritesItsOwn(events: seq<Event>, v: Fact, pod: Pod)
    requires AllEnabled(Start, events) && v in Run(Start, events).wrote
    requires forall u | u in Run(Start, events).ingested && u.key == v.key && u.ep == v.ep :: u.pod == pod
    ensures v.pod == pod && v in Run(Start, events).ingested
  {
    RunKeeps(Start, events);
    var w := Run(Start, events);
    assert Ingests(w, v.pod, v.key, v.ep) && Sourced(w, v.pod, v.key, v.ep, v.sample);
  }

  /** A retry after a partial failure sends the rows that got through once more, and adds
      nothing for them. */
  lemma RetryAddsNoDuplicate(w: World, pod: Pod)
    requires pod in w.flushing && w.flushing[pod].written < |w.flushing[pod].todo| && w.flushing[pod].session in w.sessions
    requires var f := w.flushing[pod];
      Row(w.sessions[f.session].key, f.todo[f.written].0, f.todo[f.written].1) in w.rows
    ensures Step(w, WriteOne(pod, true)).rows == w.rows
  {
  }

  /** Applying another pod's sample publishes nothing. */
  lemma OnlyIngestPublishes(w: World, e: Event)
    ensures Step(w, e).published != w.published ==> e.Ingest? && e.redis
    ensures forall v | v in Step(w, e).published - w.published ::
      e.Ingest? && e.session in w.sessions && v == Fact(w.sessions[e.session].pod, w.sessions[e.session].key, e.ep, Received(e.report))
  {
  }

  // ---- who writes whose samples ----

  lemma {:induction false} AdvanceAt(rings: map<(nat, Endpoint), Ring>, sid: nat, todo: seq<(Endpoint, Sample)>, i: nat)
    requires DistinctEndpoints(todo) && i < |todo| && (sid, todo[i].0) in rings
    ensures (sid, todo[i].0) in Advance(rings, sid, todo)
    ensures Advance(rings, sid, todo)[(sid, todo[i].0)] == rings[(sid, todo[i].0)].(lastFlushed := todo[i].1.ts)
    decreases |todo|
  {
    var j := (sid, todo[0].0);
    var rings' := if j in rings then rings[j := rings[j].(lastFlushed := todo[0].1.ts)] else rings;
    if i == 0 {
      AdvanceOnlyFlushed(rings', sid, todo[1..], j);
    } else {
      AdvanceAt(rings', sid, todo[1..], i - 1);
    }
  }

  /** Finishing a flush writes back the collected times even when the fan-out has moved them on
      meanwhile: each flushed endpoint is then due exactly if its ring's latest sample is newer
      than the collected one, whichever pod ingested it. */
  lemma DueAfterFlushIff(w: World, pod: Pod, i: nat)
    requires pod in w.flushing && w.flushing[pod].written == |w.flushing[pod].todo| && i < |w.flushing[pod].todo|
    requires DistinctEndpoints(w.flushing[pod].todo)
    requires (w.flushing[pod].session, w.flushing[pod].todo[i].0) in w.rings
    ensures var (sid, t) := (w.flushing[pod].session, w.flushing[pod].todo[i]);
      var samples := w.rings[(sid, t.0)].samples;
      Due(Step(w, FinishFlush(pod)), sid, t.0) <==> samples != [] && samples[|samples| - 1].ts > t.1.ts
  {
    AdvanceAt(w.rings, w.flushing[pod].session, w.flushing[pod].todo, i);
  }

  /** The ring's latest sample is one the ring's own pod did not ingest. */
  ghost predicate LatestIsForeign(w: World, k: (nat, Endpoint)) {
    && k in w.rings && k.0 in w.sessions && w.rings[k].samples != []
    && Fact(w.sessions[k.0].pod, w.sessions[k.0].key, k.1, w.rings[k].samples[|w.rings[k].samples| - 1]) !in w.ingested
  }

  ghost predicate OwnRing(w: World, k: (nat, Endpoint)) {
    LatestIsForeign(w, k) ==> !Due(w, k.0, k.1)
  }

  ghost predicate OwnFlush(w: World, pod: Pod)
    requires pod in w.flushing && w.flushing[pod].session in w.sessions
  {
    forall t | t in w.flushing[pod].todo :: Fact(pod, w.sessions[w.flushing[pod].session].key, t.0, t.1) in w.ingested
  }

  /** Only own samples are due, collected or written. */
  ghost predicate OwnWork(w: World) {
    && (forall k :: OwnRing(w, k))
    && (forall pod | pod in w.flushing :: w.flushing[pod].session in w.sessions && OwnFlush(w, pod))
    && w.wrote <= w.ingested
  }

  /** A flush finishes while another pod's newer sample is the latest of a flushed ring. */
  ghost predicate Rewinds(w: World, e: Event) {
    && e.FinishFlush? && e.pod in w.flushing && w.flushing[e.pod].written == |w.flushing[e.pod].todo|
    && exists t :: t in w.flushing[e.pod].todo && Overtaken(w, w.flushing[e.pod].session, t)
  }

  ghost predicate Overtaken(w: World, sid: nat, t: (Endpoint, Sample)) {
    LatestIsForeign(w, (sid, t.0)) && w.rings[(sid, t.0)].samples[|w.rings[(sid, t.0)].samples| - 1].ts > t.1.ts
  }

  /** Steps that leave rings alone leave foreign samples where they are. */
  lemma OwnRingsStay(w: World, w': World)
    requires Inv(w) && OwnWork(w) && w'.rings == w.rings && w.ingested <= w'.ingested
    requires forall sid | sid in w.sessions :: sid in w'.sessions && w'.sessions[sid] == w.sessions[sid]
    ensures forall k :: OwnRing(w', k)
  {
    forall k ensures OwnRing(w', k) {
      assert OwnRing(w, k) && RingOk(w, k);
    }
  }

  lemma IngestKeepsOwn(w: World, sid: nat, ep: Endpoint, report: Report, redis: bool)
    requires Inv(w) && OwnWork(w)
    ensures OwnWork(Step(w, Ingest(sid, ep, report, redis)))
  {
    var w' := Step(w, Ingest(sid, ep, report, redis));
    AppendedLast(RingAt(w, (sid, ep)), Received(report), false);
    forall k ensures OwnRing(w', k) {
      assert OwnRing(w, k) && RingOk(w, k);
    }
    forall pod | pod in w'.flushing ensures OwnFlush(w', pod) { assert OwnFlush(w, pod); }
  }

  lemma ApplyKeepsOwn(w: World, sid: nat, v: Fact)
    requires Inv(w) && OwnWork(w)
    ensures OwnWork(Step(w, Apply(sid, v)))
  {
    var w' := Step(w, Apply(sid, v));
    AppendedLast(RingAt(w, (sid, v.ep)), v.sample, true);
    forall k ensures OwnRing(w', k) {
      assert OwnRing(w, k) && RingOk(w, k);
    }
    forall pod | pod in w'.flushing ensures OwnFlush(w', pod) { assert OwnFlush(w, pod); }
  }

  lemma AppendedLast(r: Ring, s: Sample, remote: bool)
    ensures var r' := Append(r, s, remote);
      r'.samples != [] && r'.samples[|r'.samples| - 1] == s && (remote ==> s.ts <= r'.lastFlushed)
  {
  }

  lemma BeginKeepsOwn(w: World, pod: Pod, sid: nat, todo: seq<(Endpoint, Sample)>)
    requires Inv(w) && OwnWork(w) && Enabled(w, BeginFlush(pod, sid, todo))
    ensures OwnWork(Step(w, BeginFlush(pod, sid, todo)))
  {
    var w' := Step(w, BeginFlush(pod, sid, todo));
    OwnRingsStay(w, w');
    forall p | p in w'.flushing ensures w'.flushing[p].session in w'.sessions && OwnFlush(w', p) {
      if p == pod {
        forall t | t in todo ensures Fact(pod, w.sessions[sid].key, t.0, t.1) in w.ingested {
          assert Due(w, sid, t.0) && OwnRing(w, (sid, t.0));
        }
      } else {
        assert OwnFlush(w, p);
      }
    }
  }

  lemma WriteKeepsOwn(w: World, pod: Pod, ok: bool)
    requires Inv(w) && OwnWork(w)
    ensures OwnWork(Step(w, WriteOne(pod, ok)))
  {
    var w' := Step(w, WriteOne(pod, ok));
    OwnRingsStay(w, w');
    forall p | p in w'.flushing ensures w'.flushing[p].session in w'.sessions && OwnFlush(w', p) {
      assert OwnFlush(w, p);
    }
    if w'.wrote != w.wrote {
      assert OwnFlush(w, pod) && w.flushing[pod].todo[w.flushing[pod].written] in w.flushing[pod].todo;
    }
  }

  predicate Collected(todo: seq<(Endpoint, Sample)>, ep: Endpoint) {
    exists t | t in todo :: t.0 == ep
  }

  lemma FinishKeepsOwnIff(w: World, pod: Pod)
    requires Inv(w) && OwnWork(w)
    ensures OwnWork(Step(w, FinishFlush(pod))) <==> !Rewinds(w, FinishFlush(pod))
  {
    var w' := Step(w, FinishFlush(pod));
    if w' != w {
      var f := w.flushing[pod];
      assert FlushOk(w, pod);
      forall k: (nat, Endpoint) | k.0 != f.session || !Collected(f.todo, k.1) ensures OwnRing(w', k) {
        assert OwnRing(w, k);
        AdvanceOnlyFlushed(w.rings, f.session, f.todo, k);
      }
      forall t | t in f.todo ensures OwnRing(w', (f.session, t.0)) <==> !Overtaken(w, f.session, t) {
        var i: nat :| i < |f.todo| && f.todo[i] == t;
        FlushedRingIff(w, pod, i);
      }
      forall p | p in w'.flushing ensures OwnFlush(w', p) {
        assert OwnFlush(w, p);
      }
    }
  }

  lemma FlushedRingIff(w: World, pod: Pod, i: nat)
    requires pod in w.flushing && w.flushing[pod].written == |w.flushing[pod].todo| && i < |w.flushing[pod].todo|
    requires DistinctEndpoints(w.flushing[pod].todo)
    ensures var (sid, t) := (w.flushing[pod].session, w.flushing[pod].todo[i]);
      OwnRing(Step(w, FinishFlush(pod)), (sid, t.0)) <==> !Overtaken(w, sid, t)
  {
    var (sid, t) := (w.flushing[pod].session, w.flushing[pod].todo[i]);
    AdvanceOnlyFlushed(w.rings, sid, w.flushing[pod].todo, (sid, t.0));
    if (sid, t.0) in w.rings { DueAfterFlushIff(w, pod, i); }
  }

  /** "Only the ingesting pod writes a sample" is kept by a step exactly if the step does not
      finish a flush that another pod's newer sample has overtaken. */
  lemma OwnWorkIff(w: World, e: Event)
    requires Inv(w) && OwnWork(w) && Enabled(w, e)
    ensures OwnWork(Step(w, e)) <==> !Rewinds(w, e)
  {
    match e
    case Ingest(sid, ep, report, redis) => IngestKeepsOwn(w, sid, ep, report, redis);
    case Apply(sid, v) => ApplyKeepsOwn(w, sid, v);
    case BeginFlush(pod, sid, todo) => BeginKeepsOwn(w, pod, sid, todo);
    case WriteOne(pod, ok) => WriteKeepsOwn(w, pod, ok);
    case FinishFlush(pod) => FinishKeepsOwnIff(w, pod);
    case _ =>
      OwnRingsStay(w, Step(w, e));
      forall pod | pod in w.flushing ensures OwnFlush(Step(w, e), pod) { assert OwnFlush(w, pod); }
  }

  ghost predicate NeverRewinds(w: World, events: seq<Event>)
    decreases |events|
  {
    events == [] || (!Rewinds(w, events[0]) && NeverRewinds(Step(w, events[0]), events[1..]))
  }

  lemma {:induction false} OwnWorkRuns(w: World, events: seq<Event>)
    requires Inv(w) && OwnWork(w) && AllEnabled(w, events) && NeverRewinds(w, events)
    ensures OwnWork(Run(w, events))
    decreases |events|
  {
    if events != [] {
      StepKeeps(w, events[0]);
      OwnWorkIff(w, events[0]);
      OwnWorkRuns(Step(w, events[0]), events[1..]);
    }
  }

  /** In a run that never rewinds, every pod writes only samples it ingested itself. */
  lemma WithoutRewindsPodsWriteTheirOwn(events: seq<Event>)
    requires AllEnabled(Start, events) && NeverRewinds(Start, events)
    ensures Run(Start, events).wrote <= Run(Start, events).ingested
  {
    OwnWorkRuns(Start, events);
  }

  // ---- and a rewinding flush does lead to a foreign write ----

  lemma {:induction false} Listed(eps: set<Endpoint>) returns (s: seq<Endpoint>)
    ensures forall ep :: ep in s <==> ep in eps
    ensures forall i, j | 0 <= i < j < |s| :: s[i] != s[j]
  {
    s := [];
    if eps != {} {
      var ep :| ep in eps;
      var rest := Listed(eps - {ep});
      s := [ep] + rest;
    }
  }

  /** Some order of the due endpoints is what the next flush collects. */
  lemma SomethingCollects(w: World, sid: nat) returns (todo: seq<(Endpoint, Sample)>)
    ensures Collects(w, sid, todo)
  {
    var eps := set k | k in w.rings && k.0 == sid && Due(w, sid, k.1) :: k.1;
    forall ep | Due(w, sid, ep) ensures ep in eps {
      assert (sid, ep) in w.rings;
    }
    var s := Listed(eps);
    todo := seq(|s|, i requires 0 <= i < |s| => LatestOf(w, sid, s[i]));
    forall ep | Due(w, sid, ep) ensures exists t :: t in todo && t.0 == ep {
      var i :| 0 <= i < |s| && s[i] == ep;
      assert todo[i] in todo && todo[i].0 == ep;
    }
    forall t | t in todo ensures Due(w, sid, t.0) && t == LatestOf(w, sid, t.0) {
      var i :| 0 <= i < |todo| && todo[i] == t;
      assert s[i] in s;
    }
  }

  ghost function LatestOf(w: World, sid: nat, ep: Endpoint): (Endpoint, Sample) {
    var samples := RingAt(w, (sid, ep)).samples;
    (ep, if samples == [] then Sample(0, 0) else samples[|samples| - 1])
  }

  function Writes(pod: Pod, n: nat): seq<Event> {
    if n == 0 then [] else [WriteOne(pod, true)] + Writes(pod, n - 1)
  }

  /** A flush of endpoints that all can be written. */
  predicate Writable(w: World, pod: Pod) {
    && pod in w.flushing && w.flushing[pod].session in w.sessions
    && forall t | t in w.flushing[pod].todo :: Routed(w.sessions[w.flushing[pod].session].key, t.0)
  }

  function WrittenBy(w: World, pod: Pod, i: nat): Fact
    requires Writable(w, pod) && i < |w.flushing[pod].todo|
  {
    Fact(pod, w.sessions[w.flushing[pod].session].key, w.flushing[pod].todo[i].0, w.flushing[pod].todo[i].1)
  }

  lemma OneWrite(w: World, pod: Pod)
    requires Writable(w, pod) && w.flushing[pod].written < |w.flushing[pod].todo|
    ensures var w' := Step(w, WriteOne(pod, true));
      && Writable(w', pod)
      && w'.flushing[pod] == w.flushing[pod].(written := w.flushing[pod].written + 1)
      && w'.sessions == w.sessions && w'.ingested == w.ingested
      && w'.wrote == w.wrote + {WrittenBy(w, pod, w.flushing[pod].written)}
  {
    assert w.flushing[pod].todo[w.flushing[pod].written] in w.flushing[pod].todo;
  }

  /** Once collected, everything is written if no write fails. */
  lemma {:induction false} WritesAll(w: World, pod: Pod, n: nat, i: nat)
    requires Writable(w, pod) && w.flushing[pod].written + n == |w.flushing[pod].todo|
    requires i < |w.flushing[pod].todo|
    ensures AllEnabled(w, Writes(pod, n))
    ensures var w' := Run(w, Writes(pod, n));
      && w'.ingested == w.ingested && w.wrote <= w'.wrote
      && (i >= w.flushing[pod].written ==> WrittenBy(w, pod, i) in w'.wrote)
    decreases n
  {
    if n > 0 {
      var w1 := Step(w, WriteOne(pod, true));
      OneWrite(w, pod);
      WritesAll(w1, pod, n - 1, i);
      assert WrittenBy(w1, pod, i) == WrittenBy(w, pod, i);
      RunCons(w, WriteOne(pod, true), Writes(pod, n - 1));
    }
  }

  lemma RunCons(w: World, e: Event, rest: seq<Event>)
    ensures Run(w, [e] + rest) == Run(Step(w, e), rest)
    ensures AllEnabled(w, [e] + rest) <==> Enabled(w, e) && AllEnabled(Step(w, e), rest)
  {
    assert ([e] + rest)[1..] == rest;
  }

  ghost predicate ForeignWrite(w: World, v: Fact) {
    v in w.wrote && v !in w.ingested
  }

  ghost predicate Leads(w: World, next: seq<Event>, v: Fact) {
    AllEnabled(w, next) && ForeignWrite(Run(w, next), v)
  }

  lemma WholeFlush(w: World, pod: Pod, sid: nat, todo: seq<(Endpoint, Sample)>, i: nat) returns (next: seq<Event>)
    requires Enabled(w, BeginFlush(pod, sid, todo)) && i < |todo|
    requires Writable(Step(w, BeginFlush(pod, sid, todo)), pod)
    ensures AllEnabled(w, next)
    ensures Run(w, next).ingested == w.ingested
    ensures Fact(pod, w.sessions[sid].key, todo[i].0, todo[i].1) in Run(w, next).wrote
  {
    var begin := BeginFlush(pod, sid, todo);
    WritesAll(Step(w, begin), pod, |todo|, i);
    next := [begin] + Writes(pod, |todo|);
    RunCons(w, begin, Writes(pod, |todo|));
  }

  lemma NextFlushWritesIt(w: World, pod: Pod, sid: nat, ep: Endpoint) returns (next: seq<Event>, v: Fact)
    requires Inv(w) && pod !in w.flushing && sid in w.sessions && w.sessions[sid].pod == pod
    requires Due(w, sid, ep) && LatestIsForeign(w, (sid, ep))
    ensures Leads(w, next, v) && v == Fact(pod, w.sessions[sid].key, ep, LatestOf(w, sid, ep).1)
  {
    var todo := SomethingCollects(w, sid);
    var i: nat :| i < |todo| && todo[i].0 == ep;
    assert todo[i] in todo;
    CollectedIsWritable(w, pod, sid, todo);
    next := WholeFlush(w, pod, sid, todo, i);
    v := Fact(pod, w.sessions[sid].key, ep, todo[i].1);
  }

  lemma CollectedIsWritable(w: World, pod: Pod, sid: nat, todo: seq<(Endpoint, Sample)>)
    requires Inv(w) && Enabled(w, BeginFlush(pod, sid, todo))
    ensures Writable(Step(w, BeginFlush(pod, sid, todo)), pod)
  {
    var w' := Step(w, BeginFlush(pod, sid, todo));
    BeginFlushKeeps(w, pod, sid, todo);
    assert FlushOk(w', pod) && HistoryOk(w');
  }

  /** After a rewinding step the pod's next flush of that session, if it is not evicted first
      and no write fails, writes a sample the pod did not ingest. */
  lemma RewindingLeadsToAForeignWrite(w: World, e: Event)
    requires Inv(w) && Rewinds(w, e)
    ensures exists next, v :: Leads(Step(w, e), next, v)
  {
    var f := w.flushing[e.pod];
    assert FlushOk(w, e.pod);
    var i: nat :| i < |f.todo| && Overtaken(w, f.session, f.todo[i]);
    FinishFlushKeeps(w, e.pod);
    DueAfterFlushIff(w, e.pod, i);
    AdvanceOnlyFlushed(w.rings, f.session, f.todo, (f.session, f.todo[i].0));
    var next, v := NextFlushWritesIt(Step(w, e), e.pod, f.session, f.todo[i].0);
  }

  // ---- a run that does it ----

  const TheCall: Key := CallKey(1)
  const Phone: Endpoint := Endpoint("3140001", "")
  const First: Sample := Received(Report(1, 0))
  const Second: Sample := Received(Report(2, 1))

  /** Pod a ingests a sample and starts to flush it; the phone moves to pod b, whose sample
      reaches a before a's flush ends and rewinds lastFlushed. */
  const Moved: seq<Event> := [
    Open("a", TheCall), Open("b", TheCall),
    Ingest(0, Phone, Report(1, 0), true), BeginFlush("a", 0, [(Phone, First)]),
    Ingest(1, Phone, Report(2, 1), true), Apply(0, Fact("b", TheCall, Phone, Second)),
    WriteOne("a", true), FinishFlush("a")]

  const TwoSessions: map<nat, Session> := map[0 := Session("a", TheCall), 1 := Session("b", TheCall)]

  lemma RunTakes(w: World, events: seq<Event>, k: nat)
    requires k < |events|
    requires Enabled(w, events[k])
    ensures Run(w, events[k..]) == Run(Step(w, events[k]), events[k + 1..])
    ensures AllEnabled(w, events[k..]) <==> AllEnabled(Step(w, events[k]), events[k + 1..])
  {
    assert events[k..][1..] == events[k + 1..];
  }

  ghost predicate OnlyPhoneOnA(w: World) {
    w.sessions == TwoSessions && w.current == map[("a", TheCall) := 0, ("b", TheCall) := 1] && forall ep | ep != Phone :: (0, ep) !in w.rings
  }

  lemma FirstIsIngested() returns (w: World)
    ensures Run(Start, Moved) == Run(w, Moved[3..]) && (AllEnabled(Start, Moved) <==> AllEnabled(w, Moved[3..]))
    ensures OnlyPhoneOnA(w) && w.flushing == map[] && w.rows == {}
    ensures RingAt(w, (0, Phone)) == Ring([First], ZeroTime) && w.ingested == {Fact("a", TheCall, Phone, First)}
  {
    var w1 := Step(Start, Moved[0]);
    var w2 := Step(w1, Moved[1]);
    w := Step(w2, Moved[2]);
    assert w2.sessions == TwoSessions;
    RunTakes(Start, Moved, 0);
    RunTakes(w1, Moved, 1);
    RunTakes(w2, Moved, 2);
    assert Moved[0..] == Moved;
  }

  lemma FirstIsCollected(w: World) returns (w': World)
    requires OnlyPhoneOnA(w) && w.flushing == map[] && RingAt(w, (0, Phone)) == Ring([First], ZeroTime)
    ensures Run(w, Moved[3..]) == Run(w', Moved[4..]) && (AllEnabled(w, Moved[3..]) <==> AllEnabled(w', Moved[4..]))
    ensures w' == w.(flushing := map["a" := Flush(0, [(Phone, First)], 0)])
  {
    OnlyThePhoneIsDue(w, First);
    w' := Step(w, Moved[3]);
    RunTakes(w, Moved, 3);
  }

  lemma SecondIsIngested(w: World) returns (w': World)
    requires OnlyPhoneOnA(w) && w.rows == {}
    requires RingAt(w, (0, Phone)) == Ring([First], ZeroTime) && w.ingested == {Fact("a", TheCall, Phone, First)}
    ensures Run(w, Moved[4..]) == Run(w', Moved[5..]) && (AllEnabled(w, Moved[4..]) <==> AllEnabled(w', Moved[5..]))
    ensures OnlyPhoneOnA(w') && w'.flushing == w.flushing && w'.rows == {}
    ensures RingAt(w', (0, Phone)) == Ring([First], ZeroTime) && Fact("b", TheCall, Phone, Second) in w'.published
    ensures w'.ingested == {Fact("a", TheCall, Phone, First), Fact("b", TheCall, Phone, Second)}
  {
    w' := Step(w, Moved[4]);
    RunTakes(w, Moved, 4);
  }

  lemma SecondIsApplied(w: World) returns (w': World)
    requires OnlyPhoneOnA(w) && w.rows == {}
    requires RingAt(w, (0, Phone)) == Ring([First], ZeroTime) && Fact("b", TheCall, Phone, Second) in w.published
    ensures Run(w, Moved[5..]) == Run(w', Moved[6..]) && (AllEnabled(w, Moved[5..]) <==> AllEnabled(w', Moved[6..]))
    ensures OnlyPhoneOnA(w') && w'.flushing == w.flushing && w'.rows == {} && w'.ingested == w.ingested
    ensures (0, Phone) in w'.rings && w'.rings[(0, Phone)].samples == [First, Second]
  {
    w' := Step(w, Moved[5]);
    RunTakes(w, Moved, 5);
  }

  lemma FirstIsWritten(w: World) returns (w': World)
    requires OnlyPhoneOnA(w) && w.rows == {} && w.flushing == map["a" := Flush(0, [(Phone, First)], 0)]
    ensures Run(w, Moved[6..]) == Run(w', Moved[7..]) && (AllEnabled(w, Moved[6..]) <==> AllEnabled(w', Moved[7..]))
    ensures OnlyPhoneOnA(w') && w'.flushing == map["a" := Flush(0, [(Phone, First)], 1)]
    ensures w'.rows == {Row(TheCall, Phone, First)} && w'.ingested == w.ingested && w'.rings == w.rings
  {
    w' := Step(w, Moved[6]);
    RunTakes(w, Moved, 6);
  }

  lemma MovedWorlds()
    ensures AllEnabled(Start, Moved)
    ensures var w := Run(Start, Moved);
      && OnlyPhoneOnA(w) && w.flushing == map[]
      && RingAt(w, (0, Phone)) == Ring([First, Second], First.ts)
      && w.ingested == {Fact("a", TheCall, Phone, First), Fact("b", TheCall, Phone, Second)}
      && w.rows == {Row(TheCall, Phone, First)}
  {
    var w3 := FirstIsIngested();
    var w4 := FirstIsCollected(w3);
    var w5 := SecondIsIngested(w4);
    var w6 := SecondIsApplied(w5);
    var w7 := FirstIsWritten(w6);
    RunTakes(w7, Moved, 7);
    FinishedFlush(w7);
  }

  lemma FinishedFlush(w: World)
    requires "a" in w.flushing && w.flushing["a"] == Flush(0, [(Phone, First)], 1) && (0, Phone) in w.rings
    ensures Step(w, FinishFlush("a")) ==
      w.(rings := w.rings[(0, Phone) := w.rings[(0, Phone)].(lastFlushed := First.ts)], flushing := w.flushing - {"a"})
  {
    var rings := w.rings[(0, Phone) := w.rings[(0, Phone)].(lastFlushed := First.ts)];
    assert [(Phone, First)][1..] == [] && Advance(rings, 0, []) == rings;
  }

  lemma OnlyThePhoneIsDue(w: World, s: Sample)
    requires Due(w, 0, Phone) && forall ep | ep != Phone :: (0, ep) !in w.rings
    requires RingAt(w, (0, Phone)).samples[|RingAt(w, (0, Phone)).samples| - 1] == s
    ensures Collects(w, 0, [(Phone, s)])
  {
    assert (Phone, s) in [(Phone, s)];
  }

  /** After it and a's next flush, a has sent a row for the sample only b ingested. */
  lemma AForeignWrite()
    ensures var next := [BeginFlush("a", 0, [(Phone, Second)]), WriteOne("a", true)];
      var w := Run(Run(Start, Moved), next);
      && AllEnabled(Start, Moved) && AllEnabled(Run(Start, Moved), next)
      && w.current == map[("a", TheCall) := 0, ("b", TheCall) := 1]
      && Fact("a", TheCall, Phone, Second) in w.wrote
      && w.ingested == {Fact("a", TheCall, Phone, First), Fact("b", TheCall, Phone, Second)}
  {
    MovedWorlds();
    var w := Run(Start, Moved);
    var next := [BeginFlush("a", 0, [(Phone, Second)]), WriteOne("a", true)];
    OnlyThePhoneIsDue(w, Second);
    var w1 := Step(w, next[0]);
    RunTakes(w, next, 0);
    RunTakes(w1, next, 1);
    assert next[0..] == next && next[2..] == [];
  }
}
