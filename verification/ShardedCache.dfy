/** The sharded response cache of pkg/cache/sharded_cache.go.  The hash enters as a
    function: nothing below depends on it being FNV-1a. */
module ShardedCache {
  import opened Wrappers
  import opened CacheKey
  import opened Cache

  type Hash = string -> nat

  const MIN_PER_SHARD: nat := 10
  const DEFAULT_SHARDS: nat := 4

  type Shards = seq<Entries>

  function ShardOf(hash: Hash, n: nat, key: string): (i: nat)
    requires n >= 1
    ensures i < n
  {
    hash(key) % n
  }

  /** NewSharded's sizing. */
  function PerShard(maxEntries: nat, n: nat): (r: nat)
    requires n >= 1
    ensures r >= 10 && n * r <= (if maxEntries > 10 * n then maxEntries else 10 * n)
    ensures maxEntries < n * (r + 1)
  {
    var share := maxEntries / n;
    assert n * share <= maxEntries < n * (share + 1);
    if share < MIN_PER_SHARD then
      assert n * (share + 1) <= n * (MIN_PER_SHARD + 1);
      MIN_PER_SHARD
    else share
  }

  // ---------------------------------------------------------------- one operation

  /** The map a question lives in. */
  function Home(hash: Hash, shards: Shards, q: Question): Entries
    requires |shards| >= 1
  {
    shards[ShardOf(hash, |shards|, Key(q))]
  }

  ghost predicate ShardEnabled(hash: Hash, shards: Shards, max: nat, op: Op)
    requires |shards| >= 1
  {
    op.Put? ==> Enabled(Home(hash, shards, op.q), max, op)
  }

  /** A lookup or a store works on one shard as the plain cache does; cleaning and clearing
      go through all of them. */
  ghost function ShardStep(hash: Hash, shards: Shards, max: nat, op: Op): (Shards, Option<Payload>)
    requires |shards| >= 1 && ShardEnabled(hash, shards, max, op)
  {
    match op
    case Get(q, _) =>
      var (m, r) := PlainStep(Home(hash, shards, q), max, op);
      (shards[ShardOf(hash, |shards|, Key(q)) := m], r)
    case Put(q, _, _, _, _) =>
      var (m, r) := PlainStep(Home(hash, shards, q), max, op);
      (shards[ShardOf(hash, |shards|, Key(q)) := m], r)
    case Cleanup(now) => (seq(|shards|, i requires 0 <= i < |shards| => CleanStep(shards[i], now)), None)
    case Clear => (seq(|shards|, i => map[]), None)
  }

  // ---------------------------------------------------------------- invariants

  /** Every key lives only in the shard its hash names, and no shard is over its limit. */
  ghost predicate WellPlaced(hash: Hash, shards: Shards, max: nat)
  {
    && |shards| >= 1
    && (forall i, k :: 0 <= i < |shards| && k in shards[i] ==> hash(k) % |shards| == i)
    && (forall i :: 0 <= i < |shards| ==> |shards[i]| <= max)
  }

  ghost predicate ShardsSub(hash: Hash, shards: Shards, ideal: Ideal)
    requires |shards| >= 1
  {
    forall q :: Key(q) in Home(hash, shards, q) ==>
                  q in ideal && Home(hash, shards, q)[Key(q)] == ideal[q]
  }

  ghost predicate ShardsComplete(hash: Hash, shards: Shards, ideal: Ideal, now: int)
    requires |shards| >= 1
  {
    forall q :: q in ideal && now <= ideal[q].expiresAt ==> Key(q) in Home(hash, shards, q)
  }

  lemma PlacementKept(hash: Hash, shards: Shards, max: nat, op: Op)
    requires max >= 1 && WellPlaced(hash, shards, max) && ShardEnabled(hash, shards, max, op)
    ensures WellPlaced(hash, ShardStep(hash, shards, max, op).0, max)
  {
    var shards' := ShardStep(hash, shards, max, op).0;
    if op.Get? || op.Put? {
      SizeKept(Home(hash, shards, op.q), max, op);
    } else if op.Cleanup? {
      forall i | 0 <= i < |shards| ensures |shards'[i]| <= max {
        CleanSize(shards[i], op.now);
      }
    }
  }

  /** Only the questions of one shard are touched by a lookup or a store. */
  lemma HomeAfter(hash: Hash, shards: Shards, max: nat, op: Op, q: Question)
    requires WellPlaced(hash, shards, max) && ShardEnabled(hash, shards, max, op) && (op.Get? || op.Put?)
    ensures var shards' := ShardStep(hash, shards, max, op).0;
            && |shards'| == |shards|
            && Home(hash, shards', q) ==
               if ShardOf(hash, |shards|, Key(q)) == ShardOf(hash, |shards|, Key(op.q))
               then PlainStep(Home(hash, shards, op.q), max, op).0 else Home(hash, shards, q)
  {
  }

  lemma ShardsSubKept(hash: Hash, shards: Shards, max: nat, ideal: Ideal, op: Op)
    requires WellPlaced(hash, shards, max) && ShardEnabled(hash, shards, max, op) && ShardsSub(hash, shards, ideal)
    ensures |ShardStep(hash, shards, max, op).0| == |shards|
    ensures ShardsSub(hash, ShardStep(hash, shards, max, op).0, IdealStep(ideal, op).0)
    ensures var r := ShardStep(hash, shards, max, op).1; r.Some? ==> r == IdealStep(ideal, op).1
  {
    var shards', ideal' := ShardStep(hash, shards, max, op).0, IdealStep(ideal, op).0;
    forall q | Key(q) in Home(hash, shards', q)
      ensures q in ideal' && Home(hash, shards', q)[Key(q)] == ideal'[q]
    {
      if op.Get? || op.Put? {
        HomeAfter(hash, shards, max, op, q);
        if Key(q) == Key(op.q) { KeyInjective(q, op.q); }
      }
    }
  }

  lemma ShardsCompleteKept(hash: Hash, shards: Shards, max: nat, ideal: Ideal, op: Op, now: int)
    requires WellPlaced(hash, shards, max) && ShardEnabled(hash, shards, max, op)
    requires ShardsSub(hash, shards, ideal) && ShardsComplete(hash, shards, ideal, now)
    requires now <= Time(op, now) && (op.Put? ==> |Home(hash, shards, op.q)| < max)
    ensures |ShardStep(hash, shards, max, op).0| == |shards|
    ensures ShardsComplete(hash, ShardStep(hash, shards, max, op).0, IdealStep(ideal, op).0, Time(op, now))
    ensures ShardStep(hash, shards, max, op).1 == IdealStep(ideal, op).1
  {
    var shards', ideal', now' := ShardStep(hash, shards, max, op).0, IdealStep(ideal, op).0, Time(op, now);
    forall q | q in ideal' && now' <= ideal'[q].expiresAt ensures Key(q) in Home(hash, shards', q) {
      if op.Get? || op.Put? {
        HomeAfter(hash, shards, max, op, q);
        if Key(q) == Key(op.q) { KeyInjective(q, op.q); }
      }
    }
  }

  // ---------------------------------------------------------------- whole runs

  ghost predicate ValidShardRun(hash: Hash, shards: Shards, max: nat, ops: seq<Op>)
    decreases |ops|
  {
    |shards| >= 1 &&
    (ops == [] || (ShardEnabled(hash, shards, max, ops[0]) &&
                   ValidShardRun(hash, ShardStep(hash, shards, max, ops[0]).0, max, ops[1..])))
  }

  ghost function ShardRun(hash: Hash, shards: Shards, max: nat, ops: seq<Op>): (Shards, seq<Option<Payload>>)
    requires ValidShardRun(hash, shards, max, ops)
    decreases |ops|
  {
    if ops == [] then (shards, [])
    else
      var (shards', r) := ShardStep(hash, shards, max, ops[0]);
      var (last, rs) := ShardRun(hash, shards', max, ops[1..]);
      (last, [r] + rs)
  }

  /** Over every run a hit is what the ideal cache answers, keys stay in their shard and
      shards within their limit. */
  lemma {:induction false} ShardRunIsSound(hash: Hash, shards: Shards, max: nat, ideal: Ideal, ops: seq<Op>)
    requires max >= 1 && WellPlaced(hash, shards, max) && ShardsSub(hash, shards, ideal)
    requires ValidShardRun(hash, shards, max, ops)
    ensures var (shards', rs) := ShardRun(hash, shards, max, ops);
            var ideals := IdealRun(ideal, ops).1;
            && WellPlaced(hash, shards', max) && |rs| == |ideals| == |ops|
            && ShardsSub(hash, shards', IdealRun(ideal, ops).0)
            && forall i :: 0 <= i < |ops| && rs[i].Some? ==> rs[i] == ideals[i]
    decreases |ops|
  {
    if ops != [] {
      PlacementKept(hash, shards, max, ops[0]);
      ShardsSubKept(hash, shards, max, ideal, ops[0]);
      ShardRunIsSound(hash, ShardStep(hash, shards, max, ops[0]).0, max, IdealStep(ideal, ops[0]).0, ops[1..]);
    }
  }

  /** No store ever finds its shard full. */
  ghost predicate ShardNeverFull(hash: Hash, shards: Shards, max: nat, ops: seq<Op>)
    requires ValidShardRun(hash, shards, max, ops)
    decreases |ops|
  {
    ops == [] || ((ops[0].Put? ==> |Home(hash, shards, ops[0].q)| < max) &&
                  ShardNeverFull(hash, ShardStep(hash, shards, max, ops[0]).0, max, ops[1..]))
  }

  lemma {:induction false} ShardRunIsExact(hash: Hash, shards: Shards, max: nat, ideal: Ideal, ops: seq<Op>, now: int)
    requires max >= 1 && WellPlaced(hash, shards, max) && TimeOrdered(now, ops)
    requires ShardsSub(hash, shards, ideal) && ShardsComplete(hash, shards, ideal, now)
    requires ValidShardRun(hash, shards, max, ops) && ShardNeverFull(hash, shards, max, ops)
    ensures ShardRun(hash, shards, max, ops).1 == IdealRun(ideal, ops).1
    decreases |ops|
  {
    if ops != [] {
      PlacementKept(hash, shards, max, ops[0]);
      ShardsSubKept(hash, shards, max, ideal, ops[0]);
      ShardsCompleteKept(hash, shards, max, ideal, ops[0], now);
      ShardRunIsExact(hash, ShardStep(hash, shards, max, ops[0]).0, max, IdealStep(ideal, ops[0]).0, ops[1..],
                      Time(ops[0], now));
    }
  }

  function Empty(n: nat): (r: Shards)
    ensures |r| == n && forall i :: 0 <= i < n ==> r[i] == map[]
  {
    seq(n, i => map[])
  }

  /** With caching enabled and no capacity reached, plain and sharded cache answer every
      lookup of every run identically. */
  lemma PlainAndShardedAgree(hash: Hash, n: nat, plainMax: nat, shardMax: nat, ops: seq<Op>, now: int)
    requires n >= 1 && shardMax >= 1 && TimeOrdered(now, ops)
    requires ValidRun(map[], plainMax, ops) && NeverFull(map[], plainMax, ops)
    requires ValidShardRun(hash, Empty(n), shardMax, ops) && ShardNeverFull(hash, Empty(n), shardMax, ops)
    ensures PlainRun(map[], plainMax, ops).1 == ShardRun(hash, Empty(n), shardMax, ops).1
  {
    PlainRunIsExact(map[], plainMax, map[], ops, now);
    ShardRunIsExact(hash, Empty(n), shardMax, map[], ops, now);
  }

  // ---------------------------------------------------------------- total size

  function TotalSize(shards: Shards): nat
  {
    if shards == [] then 0 else TotalSize(shards[..|shards| - 1]) + |shards[|shards| - 1]|
  }

  lemma {:induction false} TotalWithin(shards: Shards, max: nat)
    requires forall i :: 0 <= i < |shards| ==> |shards[i]| <= max
    ensures TotalSize(shards) <= |shards| * max
  {
    if shards != [] {
      TotalWithin(shards[..|shards| - 1], max);
    }
  }

  /** The whole cache never exceeds the larger of the configured size and ten per shard. */
  lemma CapacityBound(hash: Hash, shards: Shards, maxEntries: nat)
    requires |shards| >= 1 && WellPlaced(hash, shards, PerShard(maxEntries, |shards|))
    ensures TotalSize(shards) <=
            if maxEntries > 10 * |shards| then maxEntries else 10 * |shards|
  {
    TotalWithin(shards, PerShard(maxEntries, |shards|));
  }

  lemma {:induction false} TotalAfterUpdate(shards: Shards, i: nat, m: Entries)
    requires i < |shards|
    ensures TotalSize(shards[i := m]) == TotalSize(shards) - |shards[i]| + |m|
  {
    var last := |shards| - 1;
    if i < last {
      TotalAfterUpdate(shards[..last], i, m);
      assert shards[i := m][..last] == shards[..last][i := m];
    } else {
      assert shards[i := m][..last] == shards[..last];
    }
  }

  lemma {:induction false} TotalOfEmpty(shards: Shards)
    requires forall i :: 0 <= i < |shards| ==> shards[i] == map[]
    ensures TotalSize(shards) == 0
  {
    if shards != [] {
      TotalOfEmpty(shards[..|shards| - 1]);
    }
  }

  /** The cleanup pass over the shards, with the number of entries it drops. */
  method CleanShards(was: Shards, now: int) returns (shards: Shards, totalRemoved: nat)
    ensures |shards| == |was| && forall j :: 0 <= j < |was| ==> shards[j] == CleanStep(was[j], now)
    ensures TotalSize(shards) + totalRemoved == TotalSize(was)
  {
    shards, totalRemoved := was, 0;
    for i := 0 to |was|
      invariant |shards| == |was|
      invariant forall j :: 0 <= j < i ==> shards[j] == CleanStep(was[j], now)
      invariant forall j :: i <= j < |was| ==> shards[j] == was[j]
      invariant TotalSize(shards) + totalRemoved == TotalSize(was)
    {
      var m := CleanStep(was[i], now);
      CleanSize(was[i], now);
      TotalAfterUpdate(shards, i, m);
      totalRemoved := totalRemoved + (|was[i]| - |m|);
      shards := shards[i := m];
    }
  }

  // ---------------------------------------------------------------- the sharded cache object

  class ShardedCache {
    const hash: Hash
    const maxPerShard: nat
    const ttls: TTLConfig
    var shards: Shards
    var gauge: int

    ghost predicate Valid()
      reads this
    {
      maxPerShard >= 1 && WellPlaced(hash, shards, maxPerShard) && gauge == TotalSize(shards)
    }

    constructor (hash: Hash, maxEntries: nat, shardCount: int, ttls: TTLConfig)
      requires maxEntries >= 1
      ensures Valid()
      ensures var n := if shardCount <= 0 then 4 else shardCount;
              shards == Empty(n) && maxPerShard == PerShard(maxEntries, n)
      ensures this.hash == hash && this.ttls == ttls
    {
      var n := if shardCount <= 0 then DEFAULT_SHARDS else shardCount;
      this.hash, this.ttls := hash, ttls;
      maxPerShard := PerShard(maxEntries, n);
      shards, gauge := Empty(n), 0;
      TotalOfEmpty(Empty(n));
    }

    method GetWithTrace(request: Option<Question>, now: int) returns (r: Option<Payload>)
      requires Valid() && (request.Some? ==> request.value.qtype < QTYPE_RANGE)
      modifies this
      ensures Valid()
      ensures if request.Some?
              then (shards, r) == ShardStep(hash, old(shards), maxPerShard, Get(request.value, now))
              else shards == old(shards) && r == None
    {
      if request == None {
        return None;
      }
      PlacementKept(hash, shards, maxPerShard, Get(request.value, now));
      var key := CacheKey.CacheKey(request.value);
      var i := ShardOf(hash, |shards|, key);
      var shard := shards[i];
      if key !in shard {
        assert shards[i := shard] == shards;
        return None;
      }
      var entry := shard[key];
      if now > entry.expiresAt {
        RemoveSize(shard, key);
        TotalAfterUpdate(shards, i, shard - {key});
        shards := shards[i := shard - {key}];
        gauge := gauge - 1;
        return None;
      }
      PutSize(shard, key, entry.(lastAccess := now));
      TotalAfterUpdate(shards, i, shard[key := entry.(lastAccess := now)]);
      shards := shards[i := shard[key := entry.(lastAccess := now)]];
      return Some(entry.payload);
    }

    /** The part the three setters share. */
    method Store(request: Option<Question>, payload: Payload, ttl: int, now: int, order: seq<string>)
      requires Valid() && (request.Some? ==> request.value.qtype < QTYPE_RANGE)
      requires request.Some? ==> Enumerates(order, Home(hash, shards, request.value))
      modifies this
      ensures Valid()
      ensures shards == if request.Some?
                        then ShardStep(hash, old(shards), maxPerShard, Put(request.value, payload, ttl, now, order)).0
                        else old(shards)
    {
      if request == None {
        return;
      }
      PlacementKept(hash, shards, maxPerShard, Put(request.value, payload, ttl, now, order));
      var key := CacheKey.CacheKey(request.value);
      var i := ShardOf(hash, |shards|, key);
      if ttl <= 0 {
        assert shards[i := shards[i]] == shards;
        return;
      }
      var m, change := Insert(shards[i], maxPerShard, key, Entry(payload, now + ttl, now), order);
      TotalAfterUpdate(shards, i, m);
      shards := shards[i := m];
      gauge := gauge + change;
    }

    /** Set and SetWithTrace: the TTL comes from the response. */
    method SetWithTrace(request: Option<Question>, resp: Response, now: int, order: seq<string>)
      requires Valid() && (request.Some? ==> request.value.qtype < QTYPE_RANGE)
      requires request.Some? ==> Enumerates(order, Home(hash, shards, request.value))
      modifies this
      ensures Valid()
      ensures shards == if request.Some?
                        then ShardStep(hash, old(shards), maxPerShard,
                                       Put(request.value, resp.payload,
                                           ResponseTTL(ttls, resp.nxdomain, resp.answerTTLs), now, order)).0
                        else old(shards)
    {
      var ttl := DetermineTTL(ttls, resp.nxdomain, resp.answerTTLs);
      Store(request, resp.payload, ttl, now, order);
    }

    method SetBlocked(request: Option<Question>, payload: Payload, now: int, order: seq<string>)
      requires Valid() && (request.Some? ==> request.value.qtype < QTYPE_RANGE)
      requires request.Some? ==> Enumerates(order, Home(hash, shards, request.value))
      modifies this
      ensures Valid()
      ensures shards == if request.Some?
                        then ShardStep(hash, old(shards), maxPerShard,
                                       Put(request.value, payload, ttls.blockedTTL, now, order)).0
                        else old(shards)
    {
      Store(request, payload, ttls.blockedTTL, now, order);
    }

    /** Removes expired entries shard by shard; the gauge moves once, by the total. */
    method Cleanup(now: int)
      requires Valid()
      modifies this
      ensures Valid() && shards == ShardStep(hash, old(shards), maxPerShard, Op.Cleanup(now)).0
    {
      PlacementKept(hash, shards, maxPerShard, Op.Cleanup(now));
      var cleaned, totalRemoved := CleanShards(shards, now);
      assert cleaned == ShardStep(hash, shards, maxPerShard, Op.Cleanup(now)).0;
      shards := cleaned;
      if totalRemoved > 0 {
        gauge := gauge - totalRemoved;
      }
    }

    /** Clear and ClearBlocklistDecisions both empty every shard. */
    method Clear()
      requires Valid()
      modifies this
      ensures Valid() && shards == ShardStep(hash, old(shards), maxPerShard, Op.Clear).0
    {
      ghost var was := shards;
      PlacementKept(hash, shards, maxPerShard, Op.Clear);
      for i := 0 to |shards|
        invariant |shards| == |was| && gauge == TotalSize(shards)
        invariant forall j :: 0 <= j < i ==> shards[j] == map[]
      {
        TotalAfterUpdate(shards, i, map[]);
        gauge := gauge - |shards[i]|;
        shards := shards[i := map[]];
      }
      TotalOfEmpty(shards);
      assert shards == seq(|was|, i => map[]);
    }
  }
}
