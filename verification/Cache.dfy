/** The DNS response cache: pkg/cache/cache.go, and the parts of
    pkg/cache/sharded_cache.go a single shard shares with it. */
module Cache {
  import opened Wrappers
  import opened CacheKey

  /** A response message and the block trace kept with it. */
  datatype Payload = Payload(msg: string, trace: seq<string>)

  datatype Entry = Entry(payload: Payload, expiresAt: int, lastAccess: int)

  type Entries = map<string, Entry>

  const SAMPLE_SIZE: nat := 5

  // ---------------------------------------------------------------- sampled eviction

  /** `order` is an iteration order of the map: every key once. */
  ghost predicate Enumerates(order: seq<string>, m: Entries)
  {
    && (forall k :: k in order <==> k in m)
    && (forall i, j :: 0 <= i < j < |order| ==> order[i] != order[j])
  }

  function Sample(order: seq<string>): seq<string>
  {
    if |order| <= SAMPLE_SIZE then order else order[..SAMPLE_SIZE]
  }

  /** `v` was used least recently among the first five keys of the iteration. */
  ghost predicate LeastRecent(m: Entries, order: seq<string>, v: string)
  {
    && v in m && (exists i :: 0 <= i < |order| && i < 5 && order[i] == v)
    && forall i :: 0 <= i < |order| && i < 5 && order[i] in m ==> m[v].lastAccess <= m[order[i]].lastAccess
  }

  /** The key evictLRU removes: the first one with the least last access. */
  function Victim(m: Entries, sample: seq<string>): (v: string)
    requires sample != [] && forall k :: k in sample ==> k in m
    ensures v in sample && forall k :: k in sample ==> m[v].lastAccess <= m[k].lastAccess
  {
    if |sample| == 1 then sample[0]
    else
      var last := |sample| - 1;
      assert sample == sample[..last] + [sample[last]];
      var v := Victim(m, sample[..last]);
      if m[sample[last]].lastAccess < m[v].lastAccess then sample[last] else v
  }

  method OldestOf(m: Entries, candidates: seq<string>) returns (v: string)
    requires candidates != [] && forall k :: k in candidates ==> k in m
    ensures v == Victim(m, candidates)
  {
    var oldest := 0;
    for j := 1 to |candidates|
      invariant 0 <= oldest < j
      invariant candidates[oldest] == Victim(m, candidates[..j])
    {
      assert candidates[..j + 1][..j] == candidates[..j];
      if m[candidates[j]].lastAccess < m[candidates[oldest]].lastAccess {
        oldest := j;
      }
    }
    assert candidates[..|candidates|] == candidates;
    return candidates[oldest];
  }

  /** What evictLRU leaves. */
  function AfterEviction(m: Entries, order: seq<string>): Entries
    requires Enumerates(order, m)
  {
    if order == [] then m else m - {Victim(m, Sample(order))}
  }

  method EvictLRU(m: Entries, order: seq<string>) returns (r: Entries)
    requires Enumerates(order, m)
    ensures r == AfterEviction(m, order)
    ensures m != map[] ==> |r| == |m| - 1 && exists v :: LeastRecent(m, order, v) && r == m - {v}
  {
    var candidates := Sample(order);
    if |candidates| == 0 {
      assert forall k :: k in m <==> k in order;
      assert m == map[];
      return m;
    }
    var v := OldestOf(m, candidates);
    SampleIsFirstFive(m, order, v);
    r := m - {v};
    RemoveSize(m, v);
  }

  lemma SampleIsFirstFive(m: Entries, order: seq<string>, v: string)
    requires Enumerates(order, m) && v in Sample(order)
    requires forall k :: k in Sample(order) ==> m[v].lastAccess <= m[k].lastAccess
    ensures LeastRecent(m, order, v)
  {
    var i :| 0 <= i < |Sample(order)| && Sample(order)[i] == v;
    assert order[i] == v;
    forall j | 0 <= j < |order| && j < 5 ensures m[v].lastAccess <= m[order[j]].lastAccess {
      assert Sample(order)[j] == order[j];
    }
  }

  lemma RemoveSize(m: Entries, k: string)
    requires k in m
    ensures |m - {k}| == |m| - 1
  {
    assert (m - {k}).Keys == m.Keys - {k};
  }

  lemma PutSize(m: Entries, k: string, e: Entry)
    ensures |m[k := e]| == |m| + if k in m then 0 else 1
  {
    assert m[k := e].Keys == m.Keys + {k};
  }

  // ---------------------------------------------------------------- what each operation does

  function GetStep(m: Entries, k: string, now: int): (Entries, Option<Payload>)
  {
    if k !in m then (m, None)
    else if now > m[k].expiresAt then (m - {k}, None)
    else (m[k := m[k].(lastAccess := now)], Some(m[k].payload))
  }

  /** After a lookup an entry of that key is there only if it has not expired, and then it has
      just been used. */
  lemma LookupRefreshesOrDrops(m: Entries, k: string, now: int)
    ensures var r := GetStep(m, k, now).0;
            && (k in r <==> k in m && m[k].expiresAt >= now)
            && (k in r ==> r[k] == m[k].(lastAccess := now))
            && (forall j :: j != k ==> (j in r <==> j in m) && (j in m ==> r[j] == m[j]))
  {
  }

  predicate Full(m: Entries, max: nat) { |m| >= max }

  function Evicted(m: Entries, max: nat, order: seq<string>): Entries
    requires Full(m, max) && max >= 1 ==> Enumerates(order, m)
  {
    if Full(m, max) && max >= 1 then AfterEviction(m, order) else m
  }

  function PutStep(m: Entries, max: nat, k: string, payload: Payload, ttl: int, now: int, order: seq<string>): Entries
    requires Full(m, max) && max >= 1 ==> Enumerates(order, m)
  {
    if ttl <= 0 then m else Evicted(m, max, order)[k := Entry(payload, now + ttl, now)]
  }

  method MakeRoom(m: Entries, max: nat, order: seq<string>) returns (r: Entries, change: int)
    requires max >= 1 && |m| <= max && Enumerates(order, m)
    ensures r == Evicted(m, max, order) && |r| < max && change == |r| - |m|
  {
    r, change := m, 0;
    if |m| >= max {
      r := EvictLRU(m, order);
      change := -1;
    }
  }

  /** Evict if full, then insert; `change` is what the size gauge is moved by. */
  method Insert(m: Entries, max: nat, key: string, entry: Entry, order: seq<string>)
    returns (r: Entries, change: int)
    requires max >= 1 && |m| <= max && Enumerates(order, m)
    ensures r == Evicted(m, max, order)[key := entry]
    ensures |r| <= max && change == |r| - |m|
  {
    r, change := MakeRoom(m, max, order);
    PutSize(r, key, entry);
    if key !in r {
      change := change + 1;
    }
    r := r[key := entry];
  }

  function CleanStep(m: Entries, now: int): (r: Entries)
    ensures forall k :: k in r <==> k in m && m[k].expiresAt >= now
    ensures forall k :: k in r ==> r[k] == m[k]
  {
    map k | k in m && now <= m[k].expiresAt :: m[k]
  }

  // ---------------------------------------------------------------- runs, and the ideal cache

  /** One call; `order` is the map's iteration order should an eviction be due. */
  datatype Op =
    | Get(q: Question, now: int)
    | Put(q: Question, payload: Payload, ttl: int, now: int, order: seq<string>)
    | Cleanup(now: int)
    | Clear

  function Time(op: Op, before: int): int
  {
    match op
    case Get(_, now) => now
    case Put(_, _, _, now, _) => now
    case Cleanup(now) => now
    case Clear => before
  }

  /** The unbounded cache: the latest accepted store of each question since the last clear,
      with the time of its latest use. */
  type Ideal = map<Question, Entry>

  function IdealStep(m: Ideal, op: Op): (Ideal, Option<Payload>)
  {
    match op
    case Get(q, now) =>
      if q in m && now <= m[q].expiresAt then (m[q := m[q].(lastAccess := now)], Some(m[q].payload)) else (m, None)
    case Put(q, payload, ttl, now, _) => (if ttl > 0 then m[q := Entry(payload, now + ttl, now)] else m, None)
    case Cleanup(_) => (m, None)
    case Clear => (map[], None)
  }

  ghost predicate Enabled(m: Entries, max: nat, op: Op)
  {
    op.Put? && |m| >= max >= 1 ==> Enumerates(op.order, m)
  }

  ghost function PlainStep(m: Entries, max: nat, op: Op): (Entries, Option<Payload>)
    requires Enabled(m, max, op)
  {
    match op
    case Get(q, now) => GetStep(m, Key(q), now)
    case Put(q, payload, ttl, now, order) => (PutStep(m, max, Key(q), payload, ttl, now, order), None)
    case Cleanup(now) => (CleanStep(m, now), None)
    case Clear => (map[], None)
  }

  /** Everything cached is what the ideal cache holds for that question. */
  ghost predicate SubMap(m: Entries, ideal: Ideal)
  {
    forall q :: Key(q) in m ==> q in ideal && m[Key(q)] == ideal[q]
  }

  /** Nothing the ideal cache would still answer is missing. */
  ghost predicate Complete(m: Entries, ideal: Ideal, now: int)
  {
    forall q :: q in ideal && now <= ideal[q].expiresAt ==> Key(q) in m
  }

  lemma SubMapKept(m: Entries, max: nat, ideal: Ideal, op: Op)
    requires Enabled(m, max, op) && SubMap(m, ideal)
    ensures SubMap(PlainStep(m, max, op).0, IdealStep(ideal, op).0)
    ensures PlainStep(m, max, op).1.Some? ==> PlainStep(m, max, op).1 == IdealStep(ideal, op).1
  {
    var m', ideal' := PlainStep(m, max, op).0, IdealStep(ideal, op).0;
    forall q | Key(q) in m' ensures q in ideal' && m'[Key(q)] == ideal'[q] {
      if (op.Put? || op.Get?) && Key(q) == Key(op.q) {
        KeyInjective(q, op.q);
      }
    }
  }

  /** Without eviction nothing alive is missing either, so a lookup answers as the ideal. */
  lemma CompleteKept(m: Entries, max: nat, ideal: Ideal, op: Op, now: int)
    requires Enabled(m, max, op) && SubMap(m, ideal) && Complete(m, ideal, now)
    requires now <= Time(op, now) && (op.Put? ==> |m| < max)
    ensures Complete(PlainStep(m, max, op).0, IdealStep(ideal, op).0, Time(op, now))
    ensures PlainStep(m, max, op).1 == IdealStep(ideal, op).1
  {
    var m', ideal', now' := PlainStep(m, max, op).0, IdealStep(ideal, op).0, Time(op, now);
    forall q | q in ideal' && now' <= ideal'[q].expiresAt ensures Key(q) in m' {
      if op.Get? && Key(q) == Key(op.q) {
        KeyInjective(q, op.q);
      }
    }
  }

  /** Capacity: stores never push a map past its limit, other operations only shrink it. */
  lemma SizeKept(m: Entries, max: nat, op: Op)
    requires max >= 1 && |m| <= max && Enabled(m, max, op)
    ensures |PlainStep(m, max, op).0| <= max
  {
    match op
    case Get(q, now) =>
      if Key(q) in m {
        RemoveSize(m, Key(q));
        PutSize(m, Key(q), m[Key(q)].(lastAccess := now));
      }
    case Put(q, payload, ttl, now, order) =>
      if ttl > 0 {
        if Full(m, max) {
          EvictedSize(m, max, order);
        }
        PutSize(Evicted(m, max, order), Key(q), Entry(payload, now + ttl, now));
      }
    case Cleanup(now) => CleanSize(m, now);
    case Clear =>
  }

  lemma EvictedSize(m: Entries, max: nat, order: seq<string>)
    requires Full(m, max) && max >= 1 && Enumerates(order, m)
    ensures |Evicted(m, max, order)| == |m| - 1
  {
    var k :| k in m;
    assert k in order;
    RemoveSize(m, Victim(m, Sample(order)));
  }

  lemma CleanSize(m: Entries, now: int)
    ensures |CleanStep(m, now)| <= |m|
  {
    var gone := set k | k in m && now > m[k].expiresAt;
    assert CleanStep(m, now).Keys == m.Keys - gone;
    assert |m.Keys - gone| <= |m.Keys|;
  }

  // ---------------------------------------------------------------- whole runs of the plain cache

  ghost predicate ValidRun(m: Entries, max: nat, ops: seq<Op>)
    decreases |ops|
  {
    ops == [] || (Enabled(m, max, ops[0]) && ValidRun(PlainStep(m, max, ops[0]).0, max, ops[1..]))
  }

  ghost function PlainRun(m: Entries, max: nat, ops: seq<Op>): (Entries, seq<Option<Payload>>)
    requires ValidRun(m, max, ops)
    decreases |ops|
  {
    if ops == [] then (m, [])
    else
      var (m', r) := PlainStep(m, max, ops[0]);
      var (last, rs) := PlainRun(m', max, ops[1..]);
      (last, [r] + rs)
  }

  ghost function IdealRun(m: Ideal, ops: seq<Op>): (Ideal, seq<Option<Payload>>)
    decreases |ops|
  {
    if ops == [] then (m, [])
    else
      var (m', r) := IdealStep(m, ops[0]);
      var (last, rs) := IdealRun(m', ops[1..]);
      (last, [r] + rs)
  }

  /** Over every run a hit is what the ideal cache answers, the cache stays within its
      limit, and what it holds at the end is a sub-map of the ideal. */
  lemma {:induction false} PlainRunIsSound(m: Entries, max: nat, ideal: Ideal, ops: seq<Op>)
    requires max >= 1 && |m| <= max && SubMap(m, ideal) && ValidRun(m, max, ops)
    ensures var (m', rs) := PlainRun(m, max, ops);
            var (ideal', ideals) := IdealRun(ideal, ops);
            && |m'| <= max && SubMap(m', ideal') && |rs| == |ideals| == |ops|
            && forall i :: 0 <= i < |ops| && rs[i].Some? ==> rs[i] == ideals[i]
    decreases |ops|
  {
    if ops != [] {
      SubMapKept(m, max, ideal, ops[0]);
      SizeKept(m, max, ops[0]);
      PlainRunIsSound(PlainStep(m, max, ops[0]).0, max, IdealStep(ideal, ops[0]).0, ops[1..]);
    }
  }

  ghost predicate TimeOrdered(now: int, ops: seq<Op>)
    decreases |ops|
  {
    ops == [] || (now <= Time(ops[0], now) && TimeOrdered(Time(ops[0], now), ops[1..]))
  }

  /** No store ever finds the map full. */
  ghost predicate NeverFull(m: Entries, max: nat, ops: seq<Op>)
    requires ValidRun(m, max, ops)
    decreases |ops|
  {
    ops == [] || ((ops[0].Put? ==> |m| < max) && NeverFull(PlainStep(m, max, ops[0]).0, max, ops[1..]))
  }

  /** While capacity is not reached the plain cache answers exactly as the ideal one. */
  lemma {:induction false} PlainRunIsExact(m: Entries, max: nat, ideal: Ideal, ops: seq<Op>, now: int)
    requires SubMap(m, ideal) && Complete(m, ideal, now) && TimeOrdered(now, ops)
    requires ValidRun(m, max, ops) && NeverFull(m, max, ops)
    ensures PlainRun(m, max, ops).1 == IdealRun(ideal, ops).1
    decreases |ops|
  {
    if ops != [] {
      SubMapKept(m, max, ideal, ops[0]);
      CompleteKept(m, max, ideal, ops[0], now);
      PlainRunIsExact(PlainStep(m, max, ops[0]).0, max, IdealStep(ideal, ops[0]).0, ops[1..], Time(ops[0], now));
    }
  }

  // ---------------------------------------------------------------- TTL of a response

  /** The answer-section loop of determineTTL, in which zero doubles as "unset". */
  function ScanTTLs(ttls: seq<nat>): nat
  {
    if ttls == [] then 0
    else
      var min, ttl := ScanTTLs(ttls[..|ttls| - 1]), ttls[|ttls| - 1];
      if min == 0 || ttl < min then ttl else min
  }

  ghost predicate IsMinimum(ttls: seq<nat>, m: nat)
  {
    m in ttls && forall t :: t in ttls ==> m <= t
  }

  /** The loop finds the minimum if, and only if, no zero is followed by another TTL. */
  lemma {:induction false} ScanIsMinimum(ttls: seq<nat>)
    requires ttls != []
    ensures IsMinimum(ttls, ScanTTLs(ttls)) <==> (0 !in ttls || ttls[|ttls| - 1] == 0)
    ensures ScanTTLs(ttls) in ttls
  {
    var last := |ttls| - 1;
    assert ttls == ttls[..last] + [ttls[last]];
    if last > 0 {
      ScanIsMinimum(ttls[..last]);
    }
    if ttls[last] == 0 {
      assert ScanTTLs(ttls) == 0;
    } else if 0 in ttls {
      assert 0 in ttls[..last];
      assert ScanTTLs(ttls) != 0;
    } else {
      assert ScanTTLs(ttls[..last]) != 0 || last == 0;
    }
  }

  /** The TTLs after the last zero. */
  function AfterZero(ttls: seq<nat>): seq<nat>
  {
    if ttls == [] || ttls[|ttls| - 1] == 0 then [] else AfterZero(ttls[..|ttls| - 1]) + [ttls[|ttls| - 1]]
  }

  /** What the loop finds in any case: the minimum since the last zero, or zero. */
  lemma {:induction false} ScanSinceZero(ttls: seq<nat>)
    ensures if AfterZero(ttls) == [] then ScanTTLs(ttls) == 0
            else ScanTTLs(ttls) > 0 && IsMinimum(AfterZero(ttls), ScanTTLs(ttls))
  {
    if ttls != [] {
      ScanSinceZero(ttls[..|ttls| - 1]);
    }
  }

  datatype TTLConfig = TTLConfig(minTTL: int, maxTTL: int, negativeTTL: int, blockedTTL: int)

  function Clamped(c: TTLConfig, ttl: int): (r: int)
    ensures r <= c.maxTTL && (c.minTTL <= c.maxTTL ==> c.minTTL <= r)
    ensures c.minTTL <= ttl <= c.maxTTL ==> r == ttl
    ensures r == ttl || r == c.maxTTL || (r == c.minTTL && ttl < c.minTTL)
  {
    var t := if ttl < c.minTTL then c.minTTL else ttl;
    if t > c.maxTTL then c.maxTTL else t
  }

  /** The part of a response that decides its TTL. */
  datatype Response = Response(payload: Payload, nxdomain: bool, answerTTLs: seq<nat>)

  function ResponseTTL(c: TTLConfig, nxdomain: bool, ttls: seq<nat>): int
  {
    if nxdomain || ScanTTLs(ttls) == 0 then c.negativeTTL else Clamped(c, ScanTTLs(ttls))
  }

  method DetermineTTL(c: TTLConfig, nxdomain: bool, ttls: seq<nat>) returns (ttl: int)
    ensures ttl == ResponseTTL(c, nxdomain, ttls)
    ensures nxdomain || AfterZero(ttls) == [] ==> ttl == c.negativeTTL
    ensures !nxdomain && AfterZero(ttls) != [] ==>
              exists m: nat :: IsMinimum(AfterZero(ttls), m) && ttl == Clamped(c, m)
  {
    if nxdomain || |ttls| == 0 {
      return c.negativeTTL;
    }
    var minTTL := 0;
    for i := 0 to |ttls|
      invariant minTTL == ScanTTLs(ttls[..i])
    {
      assert ttls[..i + 1][..i] == ttls[..i];
      if minTTL == 0 || ttls[i] < minTTL {
        minTTL := ttls[i];
      }
    }
    assert ttls[..|ttls|] == ttls;
    ScanSinceZero(ttls);
    if minTTL == 0 {
      return c.negativeTTL;
    }
    ttl := minTTL;
    if ttl < c.minTTL {
      ttl := c.minTTL;
    }
    if ttl > c.maxTTL {
      ttl := c.maxTTL;
    }
  }

  // ---------------------------------------------------------------- the plain cache object

  class PlainCache {
    const enabled: bool
    const maxEntries: nat
    const ttls: TTLConfig
    var entries: Entries
    var statsEntries: int   // stats.entries
    var gauge: int          // the CacheSize metric

    /** Both counters equal the real entry count, which respects the limit. */
    ghost predicate Valid()
      reads this
    {
      maxEntries >= 1 && |entries| <= maxEntries && statsEntries == |entries| && gauge == |entries|
    }

    constructor (enabled: bool, maxEntries: nat, ttls: TTLConfig)
      requires maxEntries >= 1
      ensures Valid() && entries == map[]
      ensures this.enabled == enabled && this.maxEntries == maxEntries && this.ttls == ttls
    {
      this.enabled, this.maxEntries, this.ttls := enabled, maxEntries, ttls;
      entries, statsEntries, gauge := map[], 0, 0;
    }

    /** A message without a question section is `None`. */
    method GetWithTrace(request: Option<Question>, now: int) returns (r: Option<Payload>)
      requires Valid() && (request.Some? ==> request.value.qtype < QTYPE_RANGE)
      modifies this
      ensures Valid()
      ensures if enabled && request.Some? then (entries, r) == GetStep(old(entries), Key(request.value), now)
              else entries == old(entries) && r == None
    {
      if !enabled {
        return None;
      }
      if request == None {
        return None;
      }
      var key := CacheKey.CacheKey(request.value);
      if key !in entries {
        return None;
      }
      var entry := entries[key];
      if now > entry.expiresAt {
        RemoveSize(entries, key);
        entries := entries - {key};
        statsEntries := statsEntries - 1;
        gauge := gauge - 1;
        return None;
      }
      PutSize(entries, key, entry.(lastAccess := now));
      entries := entries[key := entry.(lastAccess := now)];
      return Some(entry.payload);
    }

    /** The part the three setters share. */
    method Store(request: Option<Question>, payload: Payload, ttl: int, now: int, order: seq<string>)
      requires Valid() && (request.Some? ==> request.value.qtype < QTYPE_RANGE) && Enumerates(order, entries)
      modifies this
      ensures Valid()
      ensures entries == if enabled && request.Some?
                         then PutStep(old(entries), maxEntries, Key(request.value), payload, ttl, now, order)
                         else old(entries)
    {
      if !enabled {
        return;
      }
      if request == None {
        return;
      }
      var key := CacheKey.CacheKey(request.value);
      if ttl <= 0 {
        return;
      }
      var change;
      entries, change := Insert(entries, maxEntries, key, Entry(payload, now + ttl, now), order);
      statsEntries := |entries|;
      gauge := gauge + change;
    }

    /** Set and SetWithTrace: the TTL comes from the response. */
    method SetWithTrace(request: Option<Question>, resp: Response, now: int, order: seq<string>)
      requires Valid() && (request.Some? ==> request.value.qtype < QTYPE_RANGE) && Enumerates(order, entries)
      modifies this
      ensures Valid()
      ensures entries == if enabled && request.Some?
                         then PutStep(old(entries), maxEntries, Key(request.value), resp.payload,
                                      ResponseTTL(ttls, resp.nxdomain, resp.answerTTLs), now, order)
                         else old(entries)
    {
      var ttl := DetermineTTL(ttls, resp.nxdomain, resp.answerTTLs);
      Store(request, resp.payload, ttl, now, order);
    }

    method SetBlocked(request: Option<Question>, payload: Payload, now: int, order: seq<string>)
      requires Valid() && (request.Some? ==> request.value.qtype < QTYPE_RANGE) && Enumerates(order, entries)
      modifies this
      ensures Valid()
      ensures entries == if enabled && request.Some?
                         then PutStep(old(entries), maxEntries, Key(request.value), payload, ttls.blockedTTL,
                                      now, order)
                         else old(entries)
    {
      Store(request, payload, ttls.blockedTTL, now, order);
    }

    method Cleanup(now: int)
      requires Valid()
      modifies this
      ensures Valid() && entries == CleanStep(old(entries), now)
    {
      var removed := 0;
      var todo := entries.Keys;
      while todo != {}
        invariant todo <= entries.Keys <= old(entries).Keys
        invariant forall k :: k in entries ==> entries[k] == old(entries)[k]
        invariant forall k :: k in old(entries) && k !in todo ==> (k in entries <==> now <= old(entries)[k].expiresAt)
        invariant |entries| + removed == |old(entries)|
        invariant statsEntries == old(statsEntries) && gauge == old(gauge)
        decreases todo
      {
        var k :| k in todo;
        if now > entries[k].expiresAt {
          RemoveSize(entries, k);
          entries := entries - {k};
          removed := removed + 1;
        }
        todo := todo - {k};
      }
      if removed > 0 {
        statsEntries := |entries|;
        gauge := gauge - removed;
      }
      assert entries == CleanStep(old(entries), now);
    }

    /** Clear and ClearBlocklistDecisions both drop everything. */
    method Clear()
      requires Valid()
      modifies this
      ensures Valid() && entries == map[]
    {
      var oldSize := |entries|;
      entries, statsEntries := map[], 0;
      if oldSize > 0 {
        gauge := gauge - oldSize;
      }
    }
  }
}
