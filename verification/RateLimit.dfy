/** The fixed-window rate limiter: the in-process backend with its lazy sweep, and the
    shared Redis counter. Time is a number of milliseconds. */
module RateLimit {
  import opened Basics

  type IP = string

  datatype Bucket = Bucket(tokens: int, lastReset: nat)

  datatype Memory = Memory(buckets: map<IP, Bucket>, lastEvict: nat)

  /** A counter key and the moment its TTL removes it. */
  datatype Counter = Counter(count: nat, expires: nat)

  datatype Request = Request(ip: IP, at: nat)

  datatype Config = Config(limit: int, window: nat)

  const EvictInterval: nat := 5 * 60 * 1000

  function Fresh(started: nat): Memory {
    Memory(map[], started)
  }

  // ---- one request ----

  predicate Lapsed(c: Config, b: Bucket, now: nat) {
    now - b.lastReset >= c.window
  }

  function Unlapsed(c: Config, buckets: map<IP, Bucket>, now: nat): map<IP, Bucket> {
    map ip | ip in buckets && !Lapsed(c, buckets[ip], now) :: buckets[ip]
  }

  /** What a request does to its address's bucket, and whether it is allowed. */
  function Hit(c: Config, b: Option<Bucket>, now: nat): (Bucket, bool) {
    if b.None? || Lapsed(c, b.value, now) then (Bucket(c.limit - 1, now), true)
    else if b.value.tokens <= 0 then (b.value, false)
    else (b.value.(tokens := b.value.tokens - 1), true)
  }

  function Get<V>(m: map<IP, V>, ip: IP): Option<V> {
    if ip in m then Some(m[ip]) else None
  }

  function MemoryAllow(c: Config, m: Memory, r: Request): (Memory, bool) {
    var swept := if r.at - m.lastEvict >= EvictInterval then Memory(Unlapsed(c, m.buckets, r.at), r.at) else m;
    var hit := Hit(c, Get(swept.buckets, r.ip), r.at);
    (swept.(buckets := swept.buckets[r.ip := hit.0]), hit.1)
  }

  /** INCR on an expired or missing key starts a new counter with a fresh TTL. */
  function Incr(c: Config, k: Option<Counter>, now: nat): Counter {
    if k.None? || now >= k.value.expires then Counter(1, now + c.window) else k.value.(count := k.value.count + 1)
  }

  function RedisAllow(c: Config, counters: map<IP, Counter>, r: Request): (map<IP, Counter>, bool) {
    var k := Incr(c, Get(counters, r.ip), r.at);
    (counters[r.ip := k], k.count <= c.limit)
  }

  // ---- traces ----

  ghost predicate Timed(trace: seq<Request>) {
    forall i, j | 0 <= i < j < |trace| :: trace[i].at <= trace[j].at
  }

  ghost predicate NotBefore(trace: seq<Request>, now: nat) {
    forall r | r in trace :: now <= r.at
  }

  function MemoryDecisions(c: Config, m: Memory, trace: seq<Request>): seq<bool>
    decreases |trace|
  {
    if trace == [] then []
    else [MemoryAllow(c, m, trace[0]).1] + MemoryDecisions(c, MemoryAllow(c, m, trace[0]).0, trace[1..])
  }

  function RedisDecisions(c: Config, counters: map<IP, Counter>, trace: seq<Request>): seq<bool>
    decreases |trace|
  {
    if trace == [] then []
    else [RedisAllow(c, counters, trace[0]).1] + RedisDecisions(c, RedisAllow(c, counters, trace[0]).0, trace[1..])
  }

  /** The same backend without the sweep. */
  function UnsweptDecisions(c: Config, buckets: map<IP, Bucket>, trace: seq<Request>): seq<bool>
    decreases |trace|
  {
    if trace == [] then []
    else
      var hit := Hit(c, Get(buckets, trace[0].ip), trace[0].at);
      [hit.1] + UnsweptDecisions(c, buckets[trace[0].ip := hit.0], trace[1..])
  }

  // ---- the sweep never matters ----

  /** Equal up to buckets whose window has lapsed. */
  ghost predicate SameButLapsed(c: Config, a: map<IP, Bucket>, b: map<IP, Bucket>, now: nat) {
    forall ip :: SameBucket(c, Get(a, ip), Get(b, ip), now)
  }

  predicate SameBucket(c: Config, a: Option<Bucket>, b: Option<Bucket>, now: nat) {
    a == b || ((a.None? || Lapsed(c, a.value, now)) && (b.None? || Lapsed(c, b.value, now)))
  }

  lemma SameLater(c: Config, a: map<IP, Bucket>, b: map<IP, Bucket>, now: nat, later: nat)
    requires SameButLapsed(c, a, b, now) && now <= later
    ensures SameButLapsed(c, a, b, later)
  {
    forall ip ensures SameBucket(c, Get(a, ip), Get(b, ip), later) {
      assert SameBucket(c, Get(a, ip), Get(b, ip), now);
    }
  }

  lemma {:induction false} SweepDecidesNothing(c: Config, m: Memory, buckets: map<IP, Bucket>, trace: seq<Request>, now: nat)
    requires Timed(trace) && NotBefore(trace, now) && SameButLapsed(c, m.buckets, buckets, now)
    ensures MemoryDecisions(c, m, trace) == UnsweptDecisions(c, buckets, trace)
    decreases |trace|
  {
    if trace != [] {
      var r := trace[0];
      SameLater(c, m.buckets, buckets, now, r.at);
      var m' := MemoryAllow(c, m, r).0;
      var hit := Hit(c, Get(buckets, r.ip), r.at);
      var buckets' := buckets[r.ip := hit.0];
      assert SameBucket(c, Get(m.buckets, r.ip), Get(buckets, r.ip), r.at);
      forall ip ensures SameBucket(c, Get(m'.buckets, ip), Get(buckets', ip), r.at) {
        assert SameBucket(c, Get(m.buckets, ip), Get(buckets, ip), r.at);
      }
      SweepDecidesNothing(c, m', buckets', trace[1..], r.at);
    }
  }

  /** Whatever the traffic, and whenever the sweeps fall, the decisions are those of a
      limiter that never sweeps. */
  lemma SweepNeverChangesADecision(c: Config, started: nat, trace: seq<Request>)
    requires Timed(trace)
    ensures MemoryDecisions(c, Fresh(started), trace) == UnsweptDecisions(c, map[], trace)
  {
    SweepDecidesNothing(c, Fresh(started), map[], trace, 0);
  }

  // ---- the two backends agree ----

  function Positive(n: int): nat {
    if n > 0 then n else 0
  }

  /** A live bucket has a live counter over the same window, and its tokens are the positive
      part of limit minus count; without one there is no live counter. */
  predicate Matches(c: Config, b: Option<Bucket>, k: Option<Counter>, now: nat) {
    if b.None? || Lapsed(c, b.value, now) then k.None? || now >= k.value.expires
    else
      && k.Some? && k.value.expires == b.value.lastReset + c.window
      && b.value.tokens == Positive(c.limit - k.value.count)
  }

  ghost predicate AllMatch(c: Config, buckets: map<IP, Bucket>, counters: map<IP, Counter>, now: nat) {
    forall ip :: Matches(c, Get(buckets, ip), Get(counters, ip), now)
  }

  lemma OneHitMatches(c: Config, b: Option<Bucket>, k: Option<Counter>, now: nat)
    requires c.limit >= 1 && Matches(c, b, k, now)
    ensures Hit(c, b, now).1 == (Incr(c, k, now).count <= c.limit)
    ensures Matches(c, Some(Hit(c, b, now).0), Some(Incr(c, k, now)), now)
  {
  }

  lemma {:induction false} BackendsAgreeFrom(c: Config, buckets: map<IP, Bucket>, counters: map<IP, Counter>, trace: seq<Request>, now: nat)
    requires c.limit >= 1 && Timed(trace) && NotBefore(trace, now) && AllMatch(c, buckets, counters, now)
    ensures UnsweptDecisions(c, buckets, trace) == RedisDecisions(c, counters, trace)
    decreases |trace|
  {
    if trace != [] {
      var r := trace[0];
      var b, k := Hit(c, Get(buckets, r.ip), r.at).0, Incr(c, Get(counters, r.ip), r.at);
      forall ip ensures Matches(c, Get(buckets, ip), Get(counters, ip), r.at) {
        assert Matches(c, Get(buckets, ip), Get(counters, ip), now);
      }
      OneHitMatches(c, Get(buckets, r.ip), Get(counters, r.ip), r.at);
      var buckets', counters' := buckets[r.ip := b], counters[r.ip := k];
      forall ip ensures Matches(c, Get(buckets', ip), Get(counters', ip), r.at) {
        assert Matches(c, Get(buckets, ip), Get(counters, ip), r.at);
      }
      BackendsAgreeFrom(c, buckets', counters', trace[1..], r.at);
    }
  }

  // ---- their states over a trace ----

  function MemoryAfter(c: Config, m: Memory, trace: seq<Request>): Memory
    decreases |trace|
  {
    if trace == [] then m else MemoryAfter(c, MemoryAllow(c, m, trace[0]).0, trace[1..])
  }

  function RedisAfter(c: Config, counters: map<IP, Counter>, trace: seq<Request>): map<IP, Counter>
    decreases |trace|
  {
    if trace == [] then counters else RedisAfter(c, RedisAllow(c, counters, trace[0]).0, trace[1..])
  }

  lemma MatchLater(c: Config, buckets: map<IP, Bucket>, counters: map<IP, Counter>, now: nat, later: nat)
    requires AllMatch(c, buckets, counters, now) && now <= later
    ensures AllMatch(c, buckets, counters, later)
  {
    forall ip ensures Matches(c, Get(buckets, ip), Get(counters, ip), later) {
      assert Matches(c, Get(buckets, ip), Get(counters, ip), now);
    }
  }

  lemma SweptMatch(c: Config, buckets: map<IP, Bucket>, counters: map<IP, Counter>, now: nat)
    requires AllMatch(c, buckets, counters, now)
    ensures AllMatch(c, Unlapsed(c, buckets, now), counters, now)
  {
    forall ip ensures Matches(c, Get(Unlapsed(c, buckets, now), ip), Get(counters, ip), now) {
      assert Matches(c, Get(buckets, ip), Get(counters, ip), now);
    }
  }

  lemma OneRequestMatches(c: Config, m: Memory, counters: map<IP, Counter>, r: Request)
    requires c.limit >= 1 && AllMatch(c, m.buckets, counters, r.at)
    ensures AllMatch(c, MemoryAllow(c, m, r).0.buckets, RedisAllow(c, counters, r).0, r.at)
  {
    SweptMatch(c, m.buckets, counters, r.at);
    var swept := if r.at - m.lastEvict >= EvictInterval then Unlapsed(c, m.buckets, r.at) else m.buckets;
    assert Matches(c, Get(swept, r.ip), Get(counters, r.ip), r.at);
    OneHitMatches(c, Get(swept, r.ip), Get(counters, r.ip), r.at);
    var buckets', counters' := MemoryAllow(c, m, r).0.buckets, RedisAllow(c, counters, r).0;
    forall ip ensures Matches(c, Get(buckets', ip), Get(counters', ip), r.at) {
      assert Matches(c, Get(swept, ip), Get(counters, ip), r.at);
    }
  }

  lemma {:induction false} TokensMatchFrom(c: Config, m: Memory, counters: map<IP, Counter>, trace: seq<Request>, since: nat, now: nat)
    requires c.limit >= 1 && Timed(trace) && NotBefore(trace, since) && AllMatch(c, m.buckets, counters, since)
    requires since <= now && forall r | r in trace :: r.at <= now
    ensures AllMatch(c, MemoryAfter(c, m, trace).buckets, RedisAfter(c, counters, trace), now)
    decreases |trace|
  {
    if trace == [] {
      MatchLater(c, m.buckets, counters, since, now);
    } else {
      var r := trace[0];
      MatchLater(c, m.buckets, counters, since, r.at);
      OneRequestMatches(c, m, counters, r);
      TokensMatchFrom(c, MemoryAllow(c, m, r).0, RedisAllow(c, counters, r).0, trace[1..], r.at, now);
    }
  }

  /** After every trace, and so after every prefix of one, sweeps included: for every address
      the remaining tokens are the positive part of limit minus count, over the same window. */
  lemma TokensAreLimitMinusCount(c: Config, started: nat, trace: seq<Request>, now: nat)
    requires c.limit >= 1 && Timed(trace) && forall r | r in trace :: r.at <= now
    ensures AllMatch(c, MemoryAfter(c, Fresh(started), trace).buckets, RedisAfter(c, map[], trace), now)
  {
    TokensMatchFrom(c, Fresh(started), map[], trace, 0, now);
  }

  // ---- and their decisions ----

  ghost predicate AlwaysAgree(c: Config) {
    forall started, trace | Timed(trace) :: SameDecisions(c, started, trace)
  }

  predicate SameDecisions(c: Config, started: nat, trace: seq<Request>) {
    MemoryDecisions(c, Fresh(started), trace) == RedisDecisions(c, map[], trace)
  }

  /** The backends decide every trace alike exactly when the limit is at least one: below
      that the in-process backend still lets the first request of a window through. */
  lemma BackendsAgreeIff(c: Config)
    ensures AlwaysAgree(c) <==> c.limit >= 1
  {
    if c.limit >= 1 {
      forall started, trace | Timed(trace)
        ensures SameDecisions(c, started, trace)
      {
        SweepNeverChangesADecision(c, started, trace);
        BackendsAgreeFrom(c, map[], map[], trace, 0);
      }
    } else {
      var one := [Request("", 0)];
      assert Timed(one) && one[1..] == [];
      assert MemoryDecisions(c, Fresh(0), one) == [true];
      assert RedisDecisions(c, map[], one) == [false];
      assert !SameDecisions(c, 0, one);
    }
  }

  // ---- how much gets through ----

  /** The requests of one address allowed at times from <= t < from + window. */
  function AllowedWithin(c: Config, b: Option<Bucket>, trace: seq<Request>, ip: IP, from: nat): nat
    decreases |trace|
  {
    if trace == [] then 0
    else if trace[0].ip != ip then AllowedWithin(c, b, trace[1..], ip, from)
    else
      var hit := Hit(c, b, trace[0].at);
      (if hit.1 && from <= trace[0].at < from + c.window then 1 else 0) + AllowedWithin(c, Some(hit.0), trace[1..], ip, from)
  }

  /** Within one interval an old bucket's remaining tokens can be spent, and one reset. */
  lemma {:induction false} AllowedFromHere(c: Config, b: Option<Bucket>, trace: seq<Request>, ip: IP, from: nat, now: nat)
    requires c.limit >= 1 && Timed(trace) && NotBefore(trace, now) && from <= now
    ensures b.Some? && b.value.lastReset >= from ==> AllowedWithin(c, b, trace, ip, from) <= Positive(b.value.tokens)
    ensures AllowedWithin(c, b, trace, ip, from) <= (if b.Some? then Positive(b.value.tokens) else 0) + c.limit
    decreases |trace|
  {
    if trace != [] {
      if trace[0].ip != ip {
        AllowedFromHere(c, b, trace[1..], ip, from, now);
      } else {
        var hit := Hit(c, b, trace[0].at);
        AllowedFromHere(c, Some(hit.0), trace[1..], ip, from, trace[0].at);
        if trace[0].at >= from + c.window { NothingMore(c, Some(hit.0), trace[1..], ip, from, trace[0].at); }
      }
    }
  }

  lemma {:induction false} NothingMore(c: Config, b: Option<Bucket>, trace: seq<Request>, ip: IP, from: nat, now: nat)
    requires NotBefore(trace, now) && now >= from + c.window
    ensures AllowedWithin(c, b, trace, ip, from) == 0
    decreases |trace|
  {
    if trace != [] {
      NothingMore(c, if trace[0].ip == ip then Some(Hit(c, b, trace[0].at).0) else b, trace[1..], ip, from, now);
    }
  }

  /** Any half-open interval one window long sees less than twice the limit allowed: the
      request that reset an older window spent one of its tokens before the interval. */
  lemma {:induction false} LessThanTwiceTheLimit(c: Config, b: Option<Bucket>, trace: seq<Request>, ip: IP, from: nat)
    requires c.limit >= 1 && Timed(trace) && (b.Some? ==> b.value.tokens < c.limit)
    ensures AllowedWithin(c, b, trace, ip, from) <= 2 * c.limit - 1
    decreases |trace|
  {
    if trace != [] {
      if trace[0].at >= from {
        AllowedFromHere(c, b, trace, ip, from, trace[0].at);
      } else {
        LessThanTwiceTheLimit(c, if trace[0].ip == ip then Some(Hit(c, b, trace[0].at).0) else b, trace[1..], ip, from);
      }
    }
  }

  /** AllowedWithin counts the true decisions of the limiter. */
  function CountAllowed(c: Config, trace: seq<Request>, decisions: seq<bool>, ip: IP, from: nat): nat
    requires |trace| == |decisions|
    decreases |trace|
  {
    if trace == [] then 0
    else (if decisions[0] && trace[0].ip == ip && from <= trace[0].at < from + c.window then 1 else 0)
         + CountAllowed(c, trace[1..], decisions[1..], ip, from)
  }

  lemma {:induction false} CountIsAllowedWithin(c: Config, buckets: map<IP, Bucket>, trace: seq<Request>, ip: IP, from: nat)
    ensures |UnsweptDecisions(c, buckets, trace)| == |trace|
    ensures CountAllowed(c, trace, UnsweptDecisions(c, buckets, trace), ip, from) == AllowedWithin(c, Get(buckets, ip), trace, ip, from)
    decreases |trace|
  {
    if trace != [] {
      var r := trace[0];
      var hit := Hit(c, Get(buckets, r.ip), r.at);
      CountIsAllowedWithin(c, buckets[r.ip := hit.0], trace[1..], ip, from);
      assert UnsweptDecisions(c, buckets, trace)[1..] == UnsweptDecisions(c, buckets[r.ip := hit.0], trace[1..]);
    }
  }

  /** For every trace, address and interval: less than twice the limit gets through. */
  lemma BurstBound(c: Config, started: nat, trace: seq<Request>, ip: IP, from: nat)
    requires c.limit >= 1 && Timed(trace)
    ensures |MemoryDecisions(c, Fresh(started), trace)| == |trace|
    ensures CountAllowed(c, trace, MemoryDecisions(c, Fresh(started), trace), ip, from) <= 2 * c.limit - 1
  {
    SweepNeverChangesADecision(c, started, trace);
    CountIsAllowedWithin(c, map[], trace, ip, from);
    LessThanTwiceTheLimit(c, None, trace, ip, from);
  }

  function Burst(ip: IP, n: nat, at: nat): seq<Request> {
    if n == 0 then [] else [Request(ip, at)] + Burst(ip, n - 1, at)
  }

  lemma {:induction false} BurstIsAt(ip: IP, n: nat, at: nat)
    ensures forall r | r in Burst(ip, n, at) :: r.at == at
  {
    if n > 0 { BurstIsAt(ip, n - 1, at); }
  }

  lemma {:induction false} BurstIsAllowed(c: Config, b: Bucket, ip: IP, n: nat, at: nat, rest: seq<Request>, from: nat)
    requires !Lapsed(c, b, at) && b.tokens >= n && from <= at < from + c.window
    ensures AllowedWithin(c, Some(b), Burst(ip, n, at) + rest, ip, from)
         == n + AllowedWithin(c, Some(b.(tokens := b.tokens - n)), rest, ip, from)
    decreases n
  {
    var trace := Burst(ip, n, at) + rest;
    if n > 0 {
      assert trace[0] == Request(ip, at) && trace[1..] == Burst(ip, n - 1, at) + rest;
      BurstIsAllowed(c, b.(tokens := b.tokens - 1), ip, n - 1, at, rest, from);
    } else {
      assert trace == rest;
    }
  }

  /** One window's first request, the rest of its tokens at its end, and the next window's at
      its start. */
  function WorstTrace(limit: nat, window: nat, ip: IP): seq<Request>
    requires limit >= 1 && window >= 1
  {
    [Request(ip, 0)] + (Burst(ip, limit - 1, window - 1) + ([Request(ip, window)] + (Burst(ip, limit - 1, window) + [])))
  }

  lemma WorstTraceIsTimed(limit: nat, window: nat, ip: IP)
    requires limit >= 1 && window >= 1
    ensures Timed(WorstTrace(limit, window, ip))
  {
    BurstIsAt(ip, limit - 1, window);
    BurstIsAt(ip, limit - 1, window - 1);
    var third := [Request(ip, window)] + (Burst(ip, limit - 1, window) + []);
    assert forall r | r in third :: r.at == window;
    var second := Burst(ip, limit - 1, window - 1) + third;
    assert Timed(second) && forall r | r in second :: r.at >= 0;
    assert WorstTrace(limit, window, ip) == [Request(ip, 0)] + second;
  }

  lemma WorstTraceCount(limit: nat, window: nat, ip: IP)
    requires limit >= 1 && window >= 2
    ensures AllowedWithin(Config(limit, window), None, WorstTrace(limit, window, ip), ip, window - 1) == 2 * limit - 1
  {
    var c := Config(limit, window);
    var fourth := Burst(ip, limit - 1, window) + [];
    var third := [Request(ip, window)] + fourth;
    var second := Burst(ip, limit - 1, window - 1) + third;
    var first := [Request(ip, 0)] + second;
    assert first[1..] == second && third[1..] == fourth;
    BurstIsAllowed(c, Bucket(limit - 1, 0), ip, limit - 1, window - 1, third, window - 1);
    BurstIsAllowed(c, Bucket(limit - 1, window), ip, limit - 1, window, [], window - 1);
  }

  /** The bound is reached, for every limit, by a time-ordered trace. */
  lemma BurstBoundIsTight(limit: nat, window: nat, ip: IP)
    requires limit >= 1 && window >= 2
    ensures var c, trace := Config(limit, window), WorstTrace(limit, window, ip);
      && Timed(trace)
      && |MemoryDecisions(c, Fresh(0), trace)| == |trace|
      && CountAllowed(c, trace, MemoryDecisions(c, Fresh(0), trace), ip, window - 1) == 2 * limit - 1
  {
    var c, trace := Config(limit, window), WorstTrace(limit, window, ip);
    WorstTraceIsTimed(limit, window, ip);
    WorstTraceCount(limit, window, ip);
    SweepNeverChangesADecision(c, 0, trace);
    CountIsAllowedWithin(c, map[], trace, ip, window - 1);
  }

  // ---- resets ----

  /** When the address's bucket was reset. */
  function Resets(c: Config, b: Option<Bucket>, trace: seq<Request>, ip: IP): seq<nat>
    decreases |trace|
  {
    if trace == [] then []
    else if trace[0].ip != ip then Resets(c, b, trace[1..], ip)
    else if b.None? || Lapsed(c, b.value, trace[0].at) then
      [trace[0].at] + Resets(c, Some(Hit(c, b, trace[0].at).0), trace[1..], ip)
    else Resets(c, Some(Hit(c, b, trace[0].at).0), trace[1..], ip)
  }

  ghost predicate Apart(times: seq<nat>, window: nat) {
    forall i, j | 0 <= i < j < |times| :: times[j] - times[i] >= window
  }

  ghost predicate AllPast(times: seq<nat>, from: int) {
    forall i | 0 <= i < |times| :: times[i] >= from
  }

  /** Successive resets are at least one window apart. */
  lemma {:induction false} ResetsAreAWindowApart(c: Config, b: Option<Bucket>, trace: seq<Request>, ip: IP)
    requires Timed(trace)
    ensures Apart(Resets(c, b, trace, ip), c.window)
    ensures b.Some? ==> AllPast(Resets(c, b, trace, ip), b.value.lastReset + c.window)
    decreases |trace|
  {
    if trace != [] {
      var b' := if trace[0].ip == ip then Some(Hit(c, b, trace[0].at).0) else b;
      ResetsAreAWindowApart(c, b', trace[1..], ip);
      var rest := Resets(c, b', trace[1..], ip);
      if trace[0].ip == ip && (b.None? || Lapsed(c, b.value, trace[0].at)) {
        assert Resets(c, b, trace, ip) == [trace[0].at] + rest;
        assert AllPast(rest, trace[0].at + c.window);
      } else {
        assert Resets(c, b, trace, ip) == rest;
      }
    }
  }

  // ---- the backends ----

  class MemoryChecker {
    var buckets: map<IP, Bucket>
    var lastEvict: nat
    const c: Config

    constructor (c: Config, now: nat)
      ensures this.c == c && buckets == map[] && lastEvict == now
    {
      this.c, buckets, lastEvict := c, map[], now;
    }

    method Allow(ip: IP, now: nat) returns (allowed: bool)
      modifies this
      ensures (Memory(buckets, lastEvict), allowed) == MemoryAllow(c, old(Memory(buckets, lastEvict)), Request(ip, now))
    {
      if now - lastEvict >= EvictInterval {
        EvictExpired(now);
        lastEvict := now;
      }
      if ip !in buckets || now - buckets[ip].lastReset >= c.window {
        buckets := buckets[ip := Bucket(c.limit - 1, now)];
        return true;
      }
      var b := buckets[ip];
      if b.tokens <= 0 {
        assert buckets[ip := b] == buckets;
        return false;
      }
      buckets := buckets[ip := b.(tokens := b.tokens - 1)];
      allowed := true;
    }

    method EvictExpired(now: nat)
      modifies this`buckets
      ensures buckets == Unlapsed(c, old(buckets), now)
    {
      var todo := buckets.Keys;
      while todo != {}
        invariant todo <= buckets.Keys <= old(buckets).Keys
        invariant forall ip | ip in buckets :: buckets[ip] == old(buckets)[ip]
        invariant forall ip | ip in old(buckets) ::
          ip in buckets <==> ip in todo || !Lapsed(c, old(buckets)[ip], now)
      {
        var ip :| ip in todo;
        if now - buckets[ip].lastReset >= c.window {
          buckets := buckets - {ip};
        }
        todo := todo - {ip};
      }
    }
  }

  /** The counters live in Redis; `failed` is a round-trip that errors or times out. */
  class RedisChecker {
    var counters: map<IP, Counter>
    const c: Config

    constructor (c: Config)
      ensures this.c == c && counters == map[]
    {
      this.c, counters := c, map[];
    }

    method Allow(ip: IP, now: nat, failed: bool) returns (allowed: bool)
      modifies this
      ensures failed ==> allowed && counters == old(counters)
      ensures !failed ==> (counters, allowed) == RedisAllow(c, old(counters), Request(ip, now))
    {
      if failed {
        return true;
      }
      var current := 1;
      if ip in counters && now < counters[ip].expires {
        current := counters[ip].count + 1;
        counters := counters[ip := Counter(current, counters[ip].expires)];
      } else {
        counters := counters[ip := Counter(current, now + c.window)];
      }
      allowed := current <= c.limit;
    }
  }
}
