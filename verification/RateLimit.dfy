/** The per-client token buckets of pkg/api/middleware_ratelimit.go.
    Time is in nanoseconds and passed in; token counts are reals. */
module RateLimit {

  const SECOND: int := 1_000_000_000
  const IDLE_LIMIT: int := 300 * SECOND
  const CLEAN_INTERVAL: int := 60

  datatype Bucket = Bucket(tokens: real, lastTime: int)

  datatype Params = Params(rate: real, burst: int)

  /** Buckets by client, and the second of the last cleanup. */
  datatype Limiter = Limiter(buckets: map<string, Bucket>, lastClean: int)

  datatype Event = Event(key: string, time: int)

  predicate Sane(p: Params) { p.rate >= 0.0 && p.burst >= 0 }

  /** Tokens earned in `dt` nanoseconds. */
  function Gain(p: Params, dt: int): real
  {
    dt as real / SECOND as real * p.rate
  }

  function Cap(p: Params, tokens: real): real
  {
    if tokens > p.burst as real then p.burst as real else tokens
  }

  // ---------------------------------------------------------------- one request

  /** The bucket a client's request sees: its own, or a fresh full one. */
  function BucketOf(p: Params, buckets: map<string, Bucket>, e: Event): Bucket
  {
    if e.key in buckets then buckets[e.key] else Bucket(p.burst as real, e.time)
  }

  /** Replenish, then take a token if there is one. */
  function Take(p: Params, b: Bucket, now: int): (Bucket, bool)
  {
    var tokens := Cap(p, b.tokens + Gain(p, now - b.lastTime));
    if tokens >= 1.0 then (Bucket(tokens - 1.0, now), true) else (Bucket(tokens, now), false)
  }

  /** Drops every bucket idle for more than five minutes. */
  function Cleaned(buckets: map<string, Bucket>, now: int): (r: map<string, Bucket>)
    ensures forall k :: k in r <==> k in buckets && now - buckets[k].lastTime <= 300_000_000_000
    ensures forall k :: k in r ==> r[k] == buckets[k]
  {
    map k | k in buckets && buckets[k].lastTime >= now - IDLE_LIMIT :: buckets[k]
  }

  /** Lazily, at most about once a minute. */
  function MaybeClean(l: Limiter, now: int): (r: Limiter)
    ensures now / 1_000_000_000 - l.lastClean <= 60 ==> r == l
    ensures now / 1_000_000_000 - l.lastClean > 60 ==>
              (forall k :: k in r.buckets ==> now - r.buckets[k].lastTime <= 300_000_000_000)
  {
    if now / SECOND - l.lastClean > CLEAN_INTERVAL then Limiter(Cleaned(l.buckets, now), now / SECOND) else l
  }

  function Allow(p: Params, l: Limiter, e: Event): (Limiter, bool)
  {
    var l' := MaybeClean(l, e.time);
    var (b, ok) := Take(p, BucketOf(p, l'.buckets, e), e.time);
    (l'.(buckets := l'.buckets[e.key := b]), ok)
  }

  /** The same limiter without eviction. */
  function IdealAllow(p: Params, buckets: map<string, Bucket>, e: Event): (map<string, Bucket>, bool)
  {
    var (b, ok) := Take(p, BucketOf(p, buckets, e), e.time);
    (buckets[e.key := b], ok)
  }

  class RateLimiter {
    const p: Params
    var buckets: map<string, Bucket>
    var lastClean: int

    ghost function State(): Limiter
      reads this
    {
      Limiter(buckets, lastClean)
    }

    constructor (rate: real, burst: int, now: int)
      ensures p == Params(rate, burst) && State() == Limiter(map[], now / SECOND)
    {
      p, buckets, lastClean := Params(rate, burst), map[], now / SECOND;
    }

    method Cleanup(now: int)
      modifies this
      ensures State() == Limiter(Cleaned(old(buckets), now), now / SECOND)
    {
      var threshold := now - IDLE_LIMIT;
      var todo := buckets.Keys;
      while todo != {}
        invariant todo <= buckets.Keys <= old(buckets).Keys
        invariant forall k :: k in buckets ==> buckets[k] == old(buckets)[k]
        invariant forall k :: k in old(buckets) && k !in todo ==>
                    (k in buckets <==> old(buckets)[k].lastTime >= threshold)
        invariant forall k :: k in todo ==> k in buckets
        decreases todo
      {
        var k :| k in todo;
        if buckets[k].lastTime < threshold {
          buckets := buckets - {k};
        }
        todo := todo - {k};
      }
      lastClean := now / SECOND;
    }

    method Request(key: string, now: int) returns (ok: bool)
      modifies this
      ensures (State(), ok) == Allow(p, old(State()), Event(key, now))
    {
      if now / SECOND - lastClean > CLEAN_INTERVAL {
        Cleanup(now);
      }
      assert State() == MaybeClean(old(State()), now);
      var b := if key in buckets then buckets[key] else Bucket(p.burst as real, now);
      var elapsed := (now - b.lastTime) as real / SECOND as real;
      var tokens := b.tokens + elapsed * p.rate;
      if tokens > p.burst as real {
        tokens := p.burst as real;
      }
      assert b == BucketOf(p, buckets, Event(key, now));
      assert tokens == Cap(p, b.tokens + Gain(p, now - b.lastTime));
      if tokens >= 1.0 {
        buckets := buckets[key := Bucket(tokens - 1.0, now)];
        return true;
      }
      buckets := buckets[key := Bucket(tokens, now)];
      return false;
    }
  }

  // ---------------------------------------------------------------- runs

  ghost predicate Ordered(start: int, es: seq<Event>)
  {
    && (forall i :: 0 <= i < |es| ==> start <= es[i].time)
    && (forall i, j :: 0 <= i < j < |es| ==> es[i].time <= es[j].time)
  }

  function Decisions(p: Params, l: Limiter, es: seq<Event>): (r: seq<bool>)
    ensures |r| == |es|
    decreases |es|
  {
    if es == [] then []
    else var (l', ok) := Allow(p, l, es[0]); [ok] + Decisions(p, l', es[1..])
  }

  function IdealDecisions(p: Params, buckets: map<string, Bucket>, es: seq<Event>): (r: seq<bool>)
    ensures |r| == |es|
    decreases |es|
  {
    if es == [] then []
    else var (b', ok) := IdealAllow(p, buckets, es[0]); [ok] + IdealDecisions(p, b', es[1..])
  }

  // ---------------------------------------------------------------- arithmetic of gains

  lemma GainAdds(p: Params, a: int, b: int)
    ensures Gain(p, a + b) == Gain(p, a) + Gain(p, b)
  {
    assert (a + b) as real == a as real + b as real;
  }

  lemma GainNonNegative(p: Params, dt: int)
    requires p.rate >= 0.0 && dt >= 0
    ensures Gain(p, dt) >= 0.0
  {
  }

  lemma GainMonotone(p: Params, a: int, b: int)
    requires p.rate >= 0.0 && a <= b
    ensures Gain(p, a) <= Gain(p, b)
  {
    GainAdds(p, a, b - a);
    GainNonNegative(p, b - a);
  }

  // ---------------------------------------------------------------- eviction is not observable

  /** A bucket idle past the limit has refilled completely: the shortest such idle time is
      one nanosecond over five minutes. */
  predicate RefillsWhileIdle(p: Params)
  {
    300_000_000_001.0 / 1_000_000_000.0 * p.rate >= p.burst as real
  }

  /** Buckets hold between 0 and burst tokens and come from the past. */
  ghost predicate Plausible(p: Params, buckets: map<string, Bucket>, now: int)
  {
    forall k :: k in buckets ==> 0.0 <= buckets[k].tokens <= p.burst as real && buckets[k].lastTime <= now
  }

  /** The evicting limiter agrees with the ideal one on the buckets it still has, and lacks
      only buckets that were idle past the limit. */
  ghost predicate Simulates(l: map<string, Bucket>, ideal: map<string, Bucket>, now: int)
  {
    && (forall k :: k in l ==> k in ideal && l[k] == ideal[k])
    && (forall k :: k in ideal && k !in l ==> ideal[k].lastTime < now - IDLE_LIMIT)
  }

  lemma TakeKeepsPlausible(p: Params, buckets: map<string, Bucket>, e: Event, now: int)
    requires Sane(p) && Plausible(p, buckets, now) && now <= e.time
    ensures Plausible(p, IdealAllow(p, buckets, e).0, e.time)
  {
    var b := BucketOf(p, buckets, e);
    GainNonNegative(p, e.time - b.lastTime);
  }

  /** An evicted bucket answers like the fresh one that replaces it. */
  lemma EvictedAnswersAsFresh(p: Params, b: Bucket, now: int)
    requires Sane(p) && RefillsWhileIdle(p) && 0.0 <= b.tokens && b.lastTime < now - IDLE_LIMIT
    ensures Take(p, b, now) == Take(p, Bucket(p.burst as real, now), now)
  {
    assert Gain(p, IDLE_LIMIT + 1) == 300_000_000_001.0 / 1_000_000_000.0 * p.rate;
    GainMonotone(p, IDLE_LIMIT + 1, now - b.lastTime);
  }

  lemma StepSimulates(p: Params, l: Limiter, ideal: map<string, Bucket>, e: Event, now: int)
    requires Sane(p) && RefillsWhileIdle(p) && now <= e.time
    requires Plausible(p, ideal, now) && Simulates(l.buckets, ideal, now)
    ensures Allow(p, l, e).1 == IdealAllow(p, ideal, e).1
    ensures Simulates(Allow(p, l, e).0.buckets, IdealAllow(p, ideal, e).0, e.time)
  {
    var l' := MaybeClean(l, e.time);
    assert Simulates(l'.buckets, ideal, e.time);
    if e.key in ideal && e.key !in l'.buckets {
      EvictedAnswersAsFresh(p, ideal[e.key], e.time);
    }
    assert Take(p, BucketOf(p, l'.buckets, e), e.time) == Take(p, BucketOf(p, ideal, e), e.time);
  }

  /** Dropping idle buckets never changes any decision of any run. */
  lemma {:induction false} EvictionUnobservable(p: Params, l: Limiter, ideal: map<string, Bucket>,
                                                es: seq<Event>, now: int)
    requires Sane(p) && RefillsWhileIdle(p) && Ordered(now, es)
    requires Plausible(p, ideal, now) && Simulates(l.buckets, ideal, now)
    ensures Decisions(p, l, es) == IdealDecisions(p, ideal, es)
    decreases |es|
  {
    if es != [] {
      StepSimulates(p, l, ideal, es[0], now);
      TakeKeepsPlausible(p, ideal, es[0], now);
      EvictionUnobservable(p, Allow(p, l, es[0]).0, IdealAllow(p, ideal, es[0]).0, es[1..], es[0].time);
    }
  }

  // ---------------------------------------------------------------- the rate bound

  /** Requests of `key` among `es` that were allowed. */
  function Allowed(ds: seq<bool>, es: seq<Event>, key: string): nat
    requires |ds| == |es|
  {
    if es == [] then 0 else (if ds[0] && es[0].key == key then 1 else 0) + Allowed(ds[1..], es[1..], key)
  }

  /** Tokens `key` could spend at time `now`. */
  function Available(p: Params, buckets: map<string, Bucket>, key: string, now: int): (r: real)
    ensures r <= p.burst as real
  {
    if key in buckets then Cap(p, buckets[key].tokens + Gain(p, now - buckets[key].lastTime)) else p.burst as real
  }

  lemma AvailableGrows(p: Params, buckets: map<string, Bucket>, key: string, t: int, t': int)
    requires Sane(p) && t <= t'
    ensures Available(p, buckets, key, t') <= Available(p, buckets, key, t) + Gain(p, t' - t)
  {
    GainNonNegative(p, t' - t);
    if key in buckets {
      GainAdds(p, t - buckets[key].lastTime, t' - t);
    }
  }

  lemma RequestSpends(p: Params, buckets: map<string, Bucket>, e: Event, key: string)
    requires Sane(p)
    ensures var (b', ok) := IdealAllow(p, buckets, e);
            Available(p, b', key, e.time) + (if ok && e.key == key then 1.0 else 0.0)
            == Available(p, buckets, key, e.time)
  {
  }

  /** Tokens earned in `dt`, written out. */
  lemma GainIs(p: Params, dt: int)
    ensures Gain(p, dt) == dt as real / 1_000_000_000.0 * p.rate
  {
  }

  lemma {:induction false} SpendBound(p: Params, buckets: map<string, Bucket>, es: seq<Event>, key: string,
                                      t0: int, t1: int)
    requires Sane(p) && Plausible(p, buckets, t0) && Ordered(t0, es) && t0 <= t1
    requires forall i :: 0 <= i < |es| ==> es[i].time <= t1
    ensures Allowed(IdealDecisions(p, buckets, es), es, key) as real
            <= Available(p, buckets, key, t0) + Gain(p, t1 - t0)
    decreases |es|
  {
    if es == [] {
      GainNonNegative(p, t1 - t0);
      if key in buckets { GainNonNegative(p, t0 - buckets[key].lastTime); }
    } else {
      var e := es[0];
      var (b', ok) := IdealAllow(p, buckets, e);
      TakeKeepsPlausible(p, buckets, e, t0);
      SpendBound(p, b', es[1..], key, e.time, t1);
      RequestSpends(p, buckets, e, key);
      AvailableGrows(p, buckets, key, t0, e.time);
      GainAdds(p, e.time - t0, t1 - e.time);
      assert IdealDecisions(p, buckets, es)[1..] == IdealDecisions(p, b', es[1..]);
    }
  }

  lemma SpendWithinBurst(p: Params, buckets: map<string, Bucket>, es: seq<Event>, key: string, t0: int, t1: int)
    requires Sane(p) && Plausible(p, buckets, t0) && Ordered(t0, es) && t0 <= t1
    requires forall i :: 0 <= i < |es| ==> es[i].time <= t1
    ensures Allowed(IdealDecisions(p, buckets, es), es, key) as real <= p.burst as real + Gain(p, t1 - t0)
  {
    SpendBound(p, buckets, es, key, t0, t1);
  }

  /** Whatever the state it starts from, a client gets at most its burst plus what the rate
      has earned since. */
  lemma IdealBound(p: Params, buckets: map<string, Bucket>, es: seq<Event>, key: string, t0: int, t1: int)
    requires Sane(p) && Plausible(p, buckets, t0) && Ordered(t0, es) && t0 <= t1
    requires forall i :: 0 <= i < |es| ==> es[i].time <= t1
    ensures Allowed(IdealDecisions(p, buckets, es), es, key) as real
            <= p.burst as real + (t1 - t0) as real / 1_000_000_000.0 * p.rate
  {
    SpendWithinBurst(p, buckets, es, key, t0, t1);
    GainIs(p, t1 - t0);
  }

  /** The limiter and its ideal twin after a run. */
  function After(p: Params, l: Limiter, es: seq<Event>): Limiter
    decreases |es|
  {
    if es == [] then l else After(p, Allow(p, l, es[0]).0, es[1..])
  }

  function IdealAfter(p: Params, buckets: map<string, Bucket>, es: seq<Event>): map<string, Bucket>
    decreases |es|
  {
    if es == [] then buckets else IdealAfter(p, IdealAllow(p, buckets, es[0]).0, es[1..])
  }

  lemma {:induction false} RunSimulates(p: Params, l: Limiter, ideal: map<string, Bucket>, es: seq<Event>,
                                        now: int, end: int)
    requires Sane(p) && RefillsWhileIdle(p) && Ordered(now, es) && now <= end
    requires forall i :: 0 <= i < |es| ==> es[i].time <= end
    requires Plausible(p, ideal, now) && Simulates(l.buckets, ideal, now)
    ensures Plausible(p, IdealAfter(p, ideal, es), end)
    ensures Simulates(After(p, l, es).buckets, IdealAfter(p, ideal, es), end)
    decreases |es|
  {
    if es != [] {
      StepSimulates(p, l, ideal, es[0], now);
      TakeKeepsPlausible(p, ideal, es[0], now);
      RunSimulates(p, Allow(p, l, es[0]).0, IdealAllow(p, ideal, es[0]).0, es[1..], es[0].time, end);
    }
  }

  /** Over any stretch of any run of the evicting limiter, from its creation on, a client is
      allowed at most burst + rate * (t1 - t0) requests. */
  lemma RateBound(p: Params, start: int, before: seq<Event>, stretch: seq<Event>, key: string, t0: int, t1: int)
    requires Sane(p) && RefillsWhileIdle(p) && start <= t0 <= t1
    requires Ordered(start, before) && (forall i :: 0 <= i < |before| ==> before[i].time <= t0)
    requires Ordered(t0, stretch) && (forall i :: 0 <= i < |stretch| ==> stretch[i].time <= t1)
    ensures var l := After(p, Limiter(map[], start / SECOND), before);
            Allowed(Decisions(p, l, stretch), stretch, key) as real
            <= p.burst as real + (t1 - t0) as real / 1_000_000_000.0 * p.rate
  {
    var l := After(p, Limiter(map[], start / SECOND), before);
    var ideal := IdealAfter(p, map[], before);
    RunSimulates(p, Limiter(map[], start / SECOND), map[], before, start, t0);
    EvictionUnobservable(p, l, ideal, stretch, t0);
    IdealBound(p, ideal, stretch, key, t0, t1);
  }

  // ---------------------------------------------------------------- and no less

  /** `n` requests of one client at one instant. */
  function Burst(n: nat, key: string, time: int): (r: seq<Event>)
    ensures |r| == n && forall i :: 0 <= i < n ==> r[i] == Event(key, time)
  {
    seq(n, i => Event(key, time))
  }

  /** Of `n` requests at one instant all are allowed exactly if there are `n` tokens. */
  lemma {:induction false} BurstNeedsTokens(p: Params, l: Limiter, key: string, time: int, n: nat)
    requires time / SECOND - l.lastClean <= CLEAN_INTERVAL
    requires key in l.buckets && l.buckets[key].lastTime == time && 0.0 <= l.buckets[key].tokens <= p.burst as real
    ensures var es := Burst(n, key, time);
            Allowed(Decisions(p, l, es), es, key) <= n
            && (Allowed(Decisions(p, l, es), es, key) == n <==> n as real <= l.buckets[key].tokens)
    decreases n
  {
    var es := Burst(n, key, time);
    if n > 0 {
      var (l', ok) := Allow(p, l, es[0]);
      assert Gain(p, 0) == 0.0;
      assert ok <==> l.buckets[key].tokens >= 1.0;
      assert es[1..] == Burst(n - 1, key, time);
      BurstNeedsTokens(p, l', key, time, n - 1);
      assert Decisions(p, l, es)[1..] == Decisions(p, l', es[1..]);
    }
  }

  /** The first of a burst starts from what has been earned. */
  lemma BurstFrom(p: Params, l: Limiter, key: string, time: int, n: nat, tokens: real)
    requires Sane(p) && 0.0 <= tokens <= p.burst as real && n > 0
    requires var b := BucketOf(p, MaybeClean(l, time).buckets, Event(key, time));
             Cap(p, b.tokens + Gain(p, time - b.lastTime)) == tokens
    ensures var es := Burst(n, key, time);
            Allowed(Decisions(p, l, es), es, key) == n <==> n as real <= tokens
  {
    var es := Burst(n, key, time);
    var (l', ok) := Allow(p, l, es[0]);
    assert ok <==> tokens >= 1.0;
    assert l'.buckets[key] == Bucket(if ok then tokens - 1.0 else tokens, time);
    assert es[1..] == Burst(n - 1, key, time);
    BurstNeedsTokens(p, l', key, time, n - 1);
    assert Decisions(p, l, es)[1..] == Decisions(p, l', es[1..]);
  }

  lemma RefillsByGain(p: Params, l: Limiter, key: string, t: int, dt: int, n: nat)
    requires Sane(p) && dt >= 0 && key in l.buckets && l.buckets[key] == Bucket(0.0, t)
    requires dt <= 300_000_000_000 || RefillsWhileIdle(p)
    ensures var es := Burst(n, key, t + dt);
            Allowed(Decisions(p, l, es), es, key) == n <==> n as real <= p.burst as real && n as real <= Gain(p, dt)
  {
    GainNonNegative(p, dt);
    if n > 0 {
      EarnedSinceEmpty(p, l, key, t, dt);
      BurstFrom(p, l, key, t + dt, n, Cap(p, Gain(p, dt)));
    }
  }

  /** A client whose bucket was empty at `t` gets `n` requests through at `t + dt` exactly if
      `n` is within the burst and within what the rate has earned in `dt`. */
  lemma EmptyBucketRefills(p: Params, l: Limiter, key: string, t: int, dt: int, n: nat)
    requires Sane(p) && dt >= 0 && key in l.buckets && l.buckets[key] == Bucket(0.0, t)
    requires dt <= 300_000_000_000 || RefillsWhileIdle(p)
    ensures var es := Burst(n, key, t + dt);
            Allowed(Decisions(p, l, es), es, key) == n <==>
            n <= p.burst && n as real <= dt as real / 1_000_000_000.0 * p.rate
  {
    RefillsByGain(p, l, key, t, dt, n);
    GainIs(p, dt);
    assert n <= p.burst <==> n as real <= p.burst as real;
  }

  /** The tokens the first request after `dt` finds, evicted or not. */
  lemma EarnedSinceEmpty(p: Params, l: Limiter, key: string, t: int, dt: int)
    requires Sane(p) && dt >= 0 && key in l.buckets && l.buckets[key] == Bucket(0.0, t)
    requires dt <= 300_000_000_000 || RefillsWhileIdle(p)
    ensures var b := BucketOf(p, MaybeClean(l, t + dt).buckets, Event(key, t + dt));
            Cap(p, b.tokens + Gain(p, t + dt - b.lastTime)) == Cap(p, Gain(p, dt))
  {
    if key !in MaybeClean(l, t + dt).buckets {
      assert dt > IDLE_LIMIT;
      GainIs(p, IDLE_LIMIT + 1);
      GainMonotone(p, IDLE_LIMIT + 1, dt);
      assert Gain(p, 0) == 0.0;
    }
  }

  /** A new client gets exactly its burst. */
  lemma NewClientGetsBurst(p: Params, l: Limiter, key: string, time: int, n: nat)
    requires Sane(p) && key !in l.buckets
    ensures var es := Burst(n, key, time);
            Allowed(Decisions(p, l, es), es, key) == n <==> n <= p.burst
  {
    if n > 0 {
      assert Gain(p, 0) == 0.0;
      BurstFrom(p, l, key, time, n, p.burst as real);
    }
  }

  /** Both configured limiters refill within the idle limit: 5 per minute with burst 5,
      and 60 per second with burst 120. */
  lemma ConfiguredLimitersRefill()
    ensures var login := Params(5.0 / 60.0, 5); Sane(login) && RefillsWhileIdle(login)
    ensures var api := Params(60.0, 120); Sane(api) && RefillsWhileIdle(api)
  {
  }

  // ---------------------------------------------------------------- the condition is exact

  /** A client with `n` tokens in hand gets `n` requests through at once. */
  lemma {:induction false} BurstAllowed(p: Params, l: Limiter, key: string, time: int, n: nat)
    requires Sane(p) && time / SECOND - l.lastClean <= CLEAN_INTERVAL
    requires key in l.buckets && l.buckets[key].lastTime == time
    requires n as real <= l.buckets[key].tokens <= p.burst as real
    ensures var es := Burst(n, key, time);
            Allowed(Decisions(p, l, es), es, key) == n
    ensures var l' := After(p, l, Burst(n, key, time));
            l'.lastClean == l.lastClean && key in l'.buckets
            && l'.buckets[key] == Bucket(l.buckets[key].tokens - n as real, time)
    decreases n
  {
    var es := Burst(n, key, time);
    if n > 0 {
      var (l', ok) := Allow(p, l, es[0]);
      assert Gain(p, 0) == 0.0;
      assert ok && l'.buckets[key] == Bucket(l.buckets[key].tokens - 1.0, time);
      assert es[1..] == Burst(n - 1, key, time);
      BurstAllowed(p, l', key, time, n - 1);
      assert Decisions(p, l, es)[1..] == Decisions(p, l', es[1..]);
    }
  }

  /** The first of a burst meets no bucket, so it starts from a full one. */
  lemma FreshBurstAllowed(p: Params, l: Limiter, key: string, time: int)
    requires Sane(p) && p.burst >= 1 && key !in MaybeClean(l, time).buckets
    ensures var es := Burst(p.burst, key, time);
            && Allowed(Decisions(p, l, es), es, key) == p.burst
            && After(p, l, es).lastClean == MaybeClean(l, time).lastClean
            && key in After(p, l, es).buckets && After(p, l, es).buckets[key] == Bucket(0.0, time)
  {
    var es := Burst(p.burst, key, time);
    var (l', ok) := Allow(p, l, es[0]);
    assert Gain(p, 0) == 0.0;
    assert ok && l'.buckets[key] == Bucket(p.burst as real - 1.0, time);
    assert es[1..] == Burst(p.burst - 1, key, time);
    BurstAllowed(p, l', key, time, p.burst - 1);
    assert Decisions(p, l, es)[1..] == Decisions(p, l', es[1..]);
  }

  /** Without the refill condition eviction breaks the bound: spend a burst, stay idle one
      nanosecond past the limit, and spend a second one. */
  lemma BoundFailsWithoutRefill(p: Params, key: string)
    requires Sane(p) && p.burst >= 1 && !RefillsWhileIdle(p)
    ensures var l0, t := Limiter(map[], 0), IDLE_LIMIT + 1;
            var first, second := Burst(p.burst, key, 0), Burst(p.burst, key, t);
            var l1 := After(p, l0, first);
            Allowed(Decisions(p, l0, first), first, key) + Allowed(Decisions(p, l1, second), second, key) == 2 * p.burst
            && 2.0 * p.burst as real > p.burst as real + t as real / 1_000_000_000.0 * p.rate
  {
    TwoBurstsPass(p, key);
    TwoBurstsExceed(p);
  }

  lemma TwoBurstsPass(p: Params, key: string)
    requires Sane(p) && p.burst >= 1
    ensures var l0, t := Limiter(map[], 0), IDLE_LIMIT + 1;
            var first, second := Burst(p.burst, key, 0), Burst(p.burst, key, t);
            var l1 := After(p, l0, first);
            Allowed(Decisions(p, l0, first), first, key) + Allowed(Decisions(p, l1, second), second, key) == 2 * p.burst
  {
    var l0, t := Limiter(map[], 0), IDLE_LIMIT + 1;
    var first := Burst(p.burst, key, 0);
    assert 0 / SECOND == 0 && t / SECOND == 300;
    FreshBurstAllowed(p, l0, key, 0);
    var l1 := After(p, l0, first);
    assert MaybeClean(l1, t) == Limiter(Cleaned(l1.buckets, t), 300);
    FreshBurstAllowed(p, l1, key, t);
  }

  lemma TwoBurstsExceed(p: Params)
    requires !RefillsWhileIdle(p)
    ensures 2.0 * p.burst as real > p.burst as real + (IDLE_LIMIT + 1) as real / 1_000_000_000.0 * p.rate
  {
  }
}
