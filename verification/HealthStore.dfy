/** One pod's in-memory health sessions: sample rings, live subscribers and their channels,
    and the idle sweep. */
module HealthStore {
  import opened Basics
  import opened LinkHealth
  import Uuids

  datatype Notice = SampleNotice(ep: Endpoint, sample: Sample) | DisconnectNotice(endedBy: string) | EndedNotice

  const SubscriberBuffer: nat := 16
  const IdleSessionTTL: int := 15 * 60
  const SubscribedSessionTTL: int := 4 * IdleSessionTTL

  function Offered(queue: seq<Notice>, n: Notice): seq<Notice> {
    if |queue| < SubscriberBuffer then queue + [n] else queue
  }

  predicate DueRing(r: Ring) {
    r.samples != [] && r.samples[|r.samples| - 1].ts > r.lastFlushed
  }

  // ---- the ring, shifted in place ----

  class RingBuffer {
    const samples: array<Sample>
    var len: nat

    constructor ()
      ensures Valid() && Contents() == [] && fresh(samples)
    {
      samples := new Sample[RingCapacity](_ => Sample(0, 0));
      len := 0;
    }

    ghost predicate Valid()
      reads this
    {
      samples.Length == RingCapacity && len <= RingCapacity
    }

    ghost function Contents(): seq<Sample>
      reads this, samples
      requires Valid()
    {
      samples[..len]
    }

    /** At capacity the oldest sample makes room; the ring stays the last samples given. */
    method Append(s: Sample)
      requires Valid()
      modifies this`len, samples
      ensures Valid()
      ensures Contents() == LinkHealth.Append(Ring(old(Contents()), ZeroTime), s, false).samples
    {
      if len < RingCapacity {
        samples[len] := s;
        len := len + 1;
        return;
      }
      for i := 0 to RingCapacity - 1
        invariant len == RingCapacity
        invariant forall j | 0 <= j < i :: samples[j] == old(samples[j + 1])
        invariant forall j | i <= j < RingCapacity :: samples[j] == old(samples[j])
      {
        samples[i] := samples[i + 1];
      }
      samples[RingCapacity - 1] := s;
      assert Contents() == old(Contents())[1..] + [s];
    }

    method Latest() returns (s: Sample, found: bool)
      requires Valid()
      ensures found <==> Contents() != []
      ensures found ==> s == Contents()[|Contents()| - 1]
    {
      if len == 0 {
        return Sample(0, 0), false;
      }
      s, found := samples[len - 1], true;
    }
  }

  // ---- subscribers ----

  class Subscriber {
    const session: HealthSession
    var open: bool
    var queue: seq<Notice>
    var dropped: nat

    constructor (session: HealthSession)
      ensures this.session == session && open && queue == [] && dropped == 0
    {
      this.session, open, queue, dropped := session, true, [], 0;
    }

    /** A non-blocking send; on a closed channel it would panic. */
    method Offer(n: Notice)
      requires open
      modifies this`queue, this`dropped
      ensures queue == Offered(old(queue), n)
      ensures dropped == old(dropped) + if |old(queue)| < SubscriberBuffer then 0 else 1
    {
      if |queue| < SubscriberBuffer {
        queue := queue + [n];
      } else {
        dropped := dropped + 1;
      }
    }

    /** Closing twice would panic. */
    method Close()
      requires open
      modifies this`open
      ensures !open
    {
      open := false;
    }
  }

  // ---- one session ----

  class HealthSession {
    const key: Key
    var rings: map<Endpoint, Ring>
    var subscribers: set<Subscriber>
    var lastActivity: int
    ghost var all: set<Subscriber>   // every subscriber this session ever had

    constructor (key: Key, now: int)
      ensures this.key == key && Valid() && rings == map[] && all == {} && subscribers == {} && lastActivity == now
    {
      this.key := key;
      rings, subscribers, lastActivity, all := map[], {}, now, {};
    }

    /** A subscriber is registered exactly while its channel is open. */
    ghost predicate Valid()
      reads this, all
    {
      && subscribers <= all
      && forall s | s in all :: s.session == this && (s.open <==> s in subscribers)
    }

    method Broadcast(n: Notice)
      requires Valid()
      modifies all`queue, all`dropped
      ensures Valid()
      ensures forall s | s in all :: s.queue == (if s in subscribers then Offered(old(s.queue), n) else old(s.queue))
    {
      var todo := subscribers;
      while todo != {}
        invariant todo <= subscribers
        invariant forall s | s in all ::
          s.queue == (if s in subscribers - todo then Offered(old(s.queue), n) else old(s.queue))
      {
        var s :| s in todo;
        s.Offer(n);
        todo := todo - {s};
      }
    }

    /** recordSession under the session lock. */
    method Record(ep: Endpoint, sample: Sample, remote: bool)
      requires Valid()
      modifies this`rings, all`queue, all`dropped
      ensures Valid()
      ensures rings == old(rings)[ep := LinkHealth.Append(if ep in old(rings) then old(rings)[ep] else EmptyRing, sample, remote)]
      ensures forall s | s in all ::
          s.queue == (if s in subscribers then Offered(old(s.queue), SampleNotice(ep, sample)) else old(s.queue))
    {
      var r := if ep in rings then rings[ep] else EmptyRing;
      rings := rings[ep := LinkHealth.Append(r, sample, remote)];
      Broadcast(SampleNotice(ep, sample));
    }

    /** The end of an eviction: a last notice to every subscriber, and its channel closed. */
    method CloseAll()
      requires Valid()
      modifies this`subscribers, all
      ensures Valid() && subscribers == {}
      ensures forall s | s in all ::
          !s.open && s.queue == (if s in old(subscribers) then Offered(old(s.queue), EndedNotice) else old(s.queue))
    {
      var todo := subscribers;
      while todo != {}
        invariant subscribers == old(subscribers) && todo <= subscribers
        invariant forall s | s in all :: s.session == this && (s.open <==> s in todo)
        invariant forall s | s in all ::
          s.queue == (if s in subscribers - todo then Offered(old(s.queue), EndedNotice) else old(s.queue))
      {
        var s :| s in todo;
        s.Offer(EndedNotice);
        s.Close();
        todo := todo - {s};
      }
      subscribers := {};
    }

    /** Registers a subscriber, even on a session that has been evicted meanwhile. */
    method Attach() returns (s: Subscriber)
      requires Valid()
      modifies this`subscribers, this`all
      ensures Valid() && fresh(s) && s.open && s.session == this && s.queue == []
      ensures subscribers == old(subscribers) + {s} && all == old(all) + {s}
    {
      s := new Subscriber(this);
      subscribers := subscribers + {s};
      all := all + {s};
    }

    /** Subscription.Close: any number of times, before or after an eviction. */
    method Detach(s: Subscriber)
      requires Valid() && s in all
      modifies this`subscribers, s`open
      ensures Valid() && !s.open
      ensures subscribers == old(subscribers) - {s}
    {
      var stillRegistered := s in subscribers;
      subscribers := subscribers - {s};
      if stillRegistered {
        s.Close();
      }
    }

    /** The first critical section of a flush. */
    method CollectDue() returns (todo: map<Endpoint, Sample>)
      ensures forall ep :: ep in todo <==> ep in rings && DueRing(rings[ep])
      ensures forall ep | ep in todo :: ep in rings && rings[ep].samples != [] && todo[ep] == rings[ep].samples[|rings[ep].samples| - 1]
    {
      todo := map[];
      var eps := rings.Keys;
      while eps != {}
        invariant eps <= rings.Keys
        invariant forall ep :: ep in todo <==> ep in rings && ep !in eps && DueRing(rings[ep])
        invariant forall ep | ep in todo :: ep in rings && rings[ep].samples != [] && todo[ep] == rings[ep].samples[|rings[ep].samples| - 1]
      {
        var ep :| ep in eps;
        eps := eps - {ep};
        var r := rings[ep];
        if |r.samples| > 0 && r.samples[|r.samples| - 1].ts > r.lastFlushed {
          todo := todo[ep := r.samples[|r.samples| - 1]];
        }
      }
    }

    /** The second, after every write succeeded. */
    method AdvanceFlushed(written: map<Endpoint, Sample>)
      modifies this`rings
      ensures rings.Keys == old(rings).Keys
      ensures forall ep | ep in rings ::
          rings[ep] == if ep in written then old(rings)[ep].(lastFlushed := written[ep].ts) else old(rings)[ep]
    {
      var eps := written.Keys;
      while eps != {}
        invariant eps <= written.Keys && rings.Keys == old(rings).Keys
        invariant forall ep | ep in rings ::
          rings[ep] == if ep in written && ep !in eps then old(rings)[ep].(lastFlushed := written[ep].ts) else old(rings)[ep]
      {
        var ep :| ep in eps;
        eps := eps - {ep};
        if ep in rings {
          rings := rings[ep := rings[ep].(lastFlushed := written[ep].ts)];
        }
      }
    }
  }

  // ---- the store ----

  class Store {
    var sessions: map<Key, HealthSession>
    ghost var all: set<HealthSession>   // every session, evicted ones included
    ghost var known: set<Subscriber>    // every subscriber of theirs

    constructor ()
      ensures Valid() && sessions == map[] && all == {} && known == {}
    {
      sessions, all, known := map[], {}, {};
    }

    /** Every session's subscribers are registered exactly while open; evicted sessions too. */
    ghost predicate Valid()
      reads this, all, known
    {
      && (forall k | k in sessions :: sessions[k] in all && sessions[k].key == k)
      && (forall h | h in all :: h.all <= known && h.Valid())
    }

    method GetOrCreate(key: Key, now: int) returns (h: HealthSession)
      requires Valid()
      modifies this`sessions, this`all, all`lastActivity
      ensures Valid() && h in all && h.key == key && h.lastActivity == now
      ensures sessions == old(sessions)[key := h]
      ensures key in old(sessions) ==> h == old(sessions)[key] && all == old(all)
      ensures key !in old(sessions) ==> fresh(h) && all == old(all) + {h} && h.rings == map[] && h.all == {}
    {
      if key in sessions {
        h := sessions[key];
        h.lastActivity := now;
        assert sessions == sessions[key := h];
        assert forall g | g in all :: g.Valid();
      } else {
        h := new HealthSession(key, now);
        sessions := sessions[key := h];
        all := all + {h};
        assert forall g | g in all :: g.Valid();
      }
    }

    /** Idempotent: an unknown key changes nothing. */
    method EvictSession(key: Key)
      requires Valid()
      modifies this`sessions, all`subscribers, known
      ensures Valid() && all == old(all)
      ensures sessions == old(sessions) - {key}
      ensures key !in old(sessions) ==> forall h | h in all :: h.subscribers == old(h.subscribers)
      ensures forall h | h in all && (key !in old(sessions) || h != old(sessions)[key]) ::
        h.subscribers == old(h.subscribers)
      ensures key in old(sessions) ==> old(sessions)[key].subscribers == {}
    {
      if key !in sessions {
        assert sessions - {key} == sessions;
        return;
      }
      var h := sessions[key];
      sessions := sessions - {key};
      h.CloseAll();
      OthersStayValid(h);
    }

    /** A subscriber belongs to one session, so closing one session's touches no other's. */
    twostate lemma OthersStayValid(h: HealthSession)
      requires h in all && h.Valid() && all == old(all)
      requires old(forall g | g in all :: g.Valid())
      requires forall g | g in all && g != h :: unchanged(g)
      requires forall s: Subscriber | old(allocated(s)) && s !in old(h.all) :: unchanged(s)
      ensures forall g | g in all :: g.Valid()
    {
    }

    /** recordSession: opens the session if this pod has not seen it, keeps the sample, and
        tells that session's subscribers only. */
    method RecordSession(key: Key, ep: Endpoint, sample: Sample, remote: bool, now: int)
      requires Valid()
      modifies this`sessions, this`all, all`lastActivity, all`rings, known`queue, known`dropped
      ensures Valid() && key in sessions && sessions[key].lastActivity == now
      ensures forall k | k in old(sessions) :: k in sessions && sessions[k] == old(sessions)[k]
      ensures sessions[key].rings == (if key in old(sessions) then old(sessions[key].rings) else map[])
        [ep := LinkHealth.Append(
                 if key in old(sessions) && ep in old(sessions[key].rings) then old(sessions[key].rings)[ep] else EmptyRing,
                 sample, remote)]
      ensures forall s | s in old(known) ::
          s.queue == (if key in old(sessions) && s in old(sessions[key].subscribers) then Offered(old(s.queue), SampleNotice(ep, sample)) else old(s.queue))
    {
      var h := GetOrCreate(key, now);
      h.Record(ep, sample, remote);
      assert forall g | g in all :: g.Valid();
    }

    method NotifyDisconnected(key: Key, endedBy: string)
      requires Valid()
      modifies known`queue, known`dropped
      ensures Valid()
      ensures forall s | s in known ::
          s.queue == (if key in sessions && s in sessions[key].subscribers then Offered(old(s.queue), DisconnectNotice(endedBy)) else old(s.queue))
    {
      if key in sessions {
        sessions[key].Broadcast(DisconnectNotice(endedBy));
        assert forall g | g in all :: g.Valid();
      }
    }

    /** A subscribe whose session is evicted in between registers on the detached session. */
    method Register(h: HealthSession) returns (s: Subscriber)
      requires Valid() && h in all
      modifies this`known, h`subscribers, h`all
      ensures Valid() && fresh(s) && s.open && s in h.subscribers
    {
      s := h.Attach();
      known := known + {s};
      assert forall g | g in all :: g.Valid();
    }

    method SubscribeSession(key: Key, now: int) returns (s: Subscriber)
      requires Valid()
      modifies this, all
      ensures Valid() && fresh(s) && s.open
      ensures key in sessions && s in sessions[key].subscribers && sessions[key].lastActivity == now
    {
      var h := GetOrCreate(key, now);
      s := h.Attach();
      known := known + {s};
      assert forall g | g in all :: g.Valid();
    }

    /** What the sweep looks at: each live session's last activity and its subscribers. */
    ghost function Live(): map<Key, (int, set<Subscriber>)>
      reads this, sessions.Values
    {
      map k | k in sessions :: (sessions[k].lastActivity, sessions[k].subscribers)
    }

    /** The sweep: sessions long idle without subscribers, or silent far longer, are evicted
        and their channels closed; every other session stays as it is. */
    method SweepIdleSessions(now: int)
      requires Valid()
      modifies this`sessions, all`subscribers, known
      ensures Valid() && all == old(all)
      ensures sessions == old(sessions) - Dead(old(Live()), now)
      ensures Live() == old(Live()) - Dead(old(Live()), now)
      ensures forall k | k in Dead(old(Live()), now) :: old(sessions)[k].subscribers == {}
    {
      ghost var live, dead := Live(), Dead(Live(), now);
      var keys := sessions.Keys;
      while keys != {}
        invariant Valid() && all == old(all)
        invariant keys <= live.Keys && sessions == old(sessions) - (dead - keys) && Live() == live - (dead - keys)
        invariant forall k | k in dead - keys :: old(sessions)[k].subscribers == {}
      {
        var k :| k in keys;
        OneSwept(old(sessions), dead, keys, k);
        OneSwept(live, dead, keys, k);
        ghost var before := Live();
        assert k in sessions && before[k] == live[k];
        keys := keys - {k};
        SweepOne(k, now);
      }
    }

    method SweepOne(k: Key, now: int)
      requires Valid() && k in sessions
      modifies this`sessions, all`subscribers, known
      ensures Valid() && all == old(all)
      ensures var gone := if Expired(now, old(Live())[k]) then {k} else {};
        && sessions == old(sessions) - gone && Live() == old(Live()) - gone
        && (gone != {} ==> old(sessions)[k].subscribers == {})
      ensures forall h | h in all && old(h.subscribers) == {} :: h.subscribers == {}
    {
      var h := sessions[k];
      if Expired(now, (h.lastActivity, h.subscribers)) {
        EvictSession(k);
      } else {
        assert sessions - {} == sessions && Live() - {} == Live();
      }
    }
  }

  lemma OneSwept<V>(m: map<Key, V>, dead: set<Key>, keys: set<Key>, k: Key)
    requires k in keys
    ensures m - (dead - keys) - (if k in dead then {k} else {}) == m - (dead - (keys - {k}))
    ensures dead - (keys - {k}) == (dead - keys) + if k in dead then {k} else {}
    ensures k in m <==> k in m - (dead - keys)
    ensures k in m ==> (m - (dead - keys))[k] == m[k]
  {
  }

  ghost function Dead(live: map<Key, (int, set<Subscriber>)>, now: int): set<Key> {
    set k | k in live && Expired(now, live[k])
  }

  /** Idle without subscribers, or silent for so long that they do not count. */
  predicate Expired(now: int, session: (int, set<Subscriber>)) {
    (session.0 < now - IdleSessionTTL && session.1 == {}) || session.0 < now - SubscribedSessionTTL
  }

  // ---- envelopes ----

  /** Zero is no id, as in the source. */
  datatype SessionKey = SessionKey(callID: int, confID: nat)

  datatype EnvelopeKey = EnvelopeKey(callID: int, confID: string)

  function EnvelopeForKey(k: SessionKey): EnvelopeKey {
    if k.confID != 0 then EnvelopeKey(0, Uuids.Text(k.confID)) else EnvelopeKey(k.callID, "")
  }

  function SessionKeyFromEnvelope(e: EnvelopeKey): Option<SessionKey> {
    if e.callID != 0 then Some(SessionKey(e.callID, 0))
    else if e.confID != "" then
      var id := Uuids.ParseText(e.confID);
      if id.None? then None else Some(SessionKey(0, id.value))
    else None
  }

  /** A session key survives the wire exactly when it names one thing, a call or a conference. */
  lemma KeyRoundTrip(k: SessionKey)
    requires k.confID < Uuids.Pow16(32)
    ensures SessionKeyFromEnvelope(EnvelopeForKey(k)) == Some(k) <==> (k.callID != 0) != (k.confID != 0)
  {
    Uuids.TextRoundTrip(k.confID);
    assert |Uuids.Text(k.confID)| == 36;
  }
}
