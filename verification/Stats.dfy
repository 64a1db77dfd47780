/** The incrementally kept summary tables of pkg/storage/sqlite.go: domain_stats,
    client_stats and hourly_stats.  A SQL table is a map from its key to its row. */
module Stats {
  import opened Wrappers
  const NXDOMAIN := 3
  const HOUR := 3600

  datatype Query = Query(timestamp: int, clientIP: string, domain: string, responseCode: int,
                         blocked: bool, cached: bool, responseTimeMs: real)

  datatype ClientRow = ClientRow(total: nat, blocked: nat, nxdomain: nat, first: int, last: int)

  datatype HourRow = HourRow(total: nat, blocked: nat, cached: nat, nxdomain: nat, responseTime: real,
                             uniqueDomains: nat, uniqueClients: nat)

  /** What a batch says about one hour, with the sets the unique counts come from. */
  datatype HourGroup = HourGroup(total: nat, blocked: nat, cached: nat, nxdomain: nat, responseTime: real,
                                 domains: set<string>, clients: set<string>)

  datatype DomainRow = DomainRow(count: nat, last: int, first: int, blocked: bool)

  function Get<K, V>(table: map<K, V>, k: K): Option<V>
  {
    if k in table then Some(table[k]) else None
  }

  function One(b: bool): nat { if b then 1 else 0 }

  function Min(a: int, b: int): int { if b < a then b else a }

  function Max(a: int, b: int): int { if b > a then b else a }

  function MaxNat(a: nat, b: nat): nat { if b > a then b else a }

  function HourOf(q: Query): int { q.timestamp / HOUR }

  // ---------------------------------------------------------------- the reference: a recount

  /** The row of `ip` counted from scratch, one query after the other. */
  function ClientRecount(h: seq<Query>, ip: string): Option<ClientRow>
  {
    if h == [] then None
    else
      var q, prev := h[|h| - 1], ClientRecount(h[..|h| - 1], ip);
      if q.clientIP != ip then prev else Some(ClientPlus(prev, q))
  }

  function ClientPlus(prev: Option<ClientRow>, q: Query): ClientRow
  {
    match prev
    case None => ClientRow(1, One(q.blocked), One(q.responseCode == NXDOMAIN), q.timestamp, q.timestamp)
    case Some(r) => ClientRow(r.total + 1, r.blocked + One(q.blocked), r.nxdomain + One(q.responseCode == NXDOMAIN),
                              Min(r.first, q.timestamp), Max(r.last, q.timestamp))
  }

  function HourRecount(h: seq<Query>, hour: int): Option<HourGroup>
  {
    if h == [] then None
    else
      var q, prev := h[|h| - 1], HourRecount(h[..|h| - 1], hour);
      if HourOf(q) != hour then prev else Some(HourPlus(prev, q))
  }

  function HourPlus(prev: Option<HourGroup>, q: Query): HourGroup
  {
    match prev
    case None => HourGroup(1, One(q.blocked), One(q.cached), One(q.responseCode == NXDOMAIN), q.responseTimeMs,
                           {q.domain}, {q.clientIP})
    case Some(g) => HourGroup(g.total + 1, g.blocked + One(q.blocked), g.cached + One(q.cached),
                              g.nxdomain + One(q.responseCode == NXDOMAIN), g.responseTime + q.responseTimeMs,
                              g.domains + {q.domain}, g.clients + {q.clientIP})
  }

  /** The grouping loop of updateDomainStats on one batch; `first` repeats `last`. */
  function DomainGroup(h: seq<Query>, d: string): Option<DomainRow>
  {
    if h == [] then None
    else
      var q, prev := h[|h| - 1], DomainGroup(h[..|h| - 1], d);
      if q.domain != d then prev else Some(DomainPlus(prev, q))
  }

  function DomainPlus(prev: Option<DomainRow>, q: Query): DomainRow
  {
    match prev
    case None => DomainRow(1, q.timestamp, q.timestamp, q.blocked)
    case Some(r) => DomainRow(r.count + 1, Max(r.last, q.timestamp), Max(r.last, q.timestamp), r.blocked)
  }

  // ---------------------------------------------------------------- INSERT ... ON CONFLICT DO UPDATE

  function ClientUpsert(row: Option<ClientRow>, excluded: Option<ClientRow>): Option<ClientRow>
  {
    match (row, excluded)
    case (_, None) => row
    case (None, Some(_)) => excluded
    case (Some(r), Some(e)) =>
      Some(ClientRow(r.total + e.total, r.blocked + e.blocked, r.nxdomain + e.nxdomain,
                     Min(r.first, e.first), Max(r.last, e.last)))
  }

  function HourUpsert(row: Option<HourRow>, excluded: Option<HourGroup>): Option<HourRow>
  {
    match (row, excluded)
    case (_, None) => row
    case (None, Some(g)) =>
      Some(HourRow(g.total, g.blocked, g.cached, g.nxdomain, g.responseTime, |g.domains|, |g.clients|))
    case (Some(r), Some(g)) =>
      Some(HourRow(r.total + g.total, r.blocked + g.blocked, r.cached + g.cached, r.nxdomain + g.nxdomain,
                   r.responseTime + g.responseTime, MaxNat(r.uniqueDomains, |g.domains|),
                   MaxNat(r.uniqueClients, |g.clients|)))
  }

  function DomainUpsert(row: Option<DomainRow>, excluded: Option<DomainRow>): Option<DomainRow>
  {
    match (row, excluded)
    case (_, None) => row
    case (None, Some(_)) => excluded
    case (Some(r), Some(e)) => Some(DomainRow(r.count + e.count, Max(r.last, e.last), r.first, r.blocked))
  }

  lemma ClientUpsertPlus(row: Option<ClientRow>, excluded: Option<ClientRow>, q: Query)
    ensures ClientUpsert(row, Some(ClientPlus(excluded, q))) == Some(ClientPlus(ClientUpsert(row, excluded), q))
  {
  }

  /** Two groups of the same hour put together. */
  function HourJoin(a: Option<HourGroup>, b: Option<HourGroup>): Option<HourGroup>
  {
    match (a, b)
    case (_, None) => a
    case (None, _) => b
    case (Some(g), Some(h)) =>
      Some(HourGroup(g.total + h.total, g.blocked + h.blocked, g.cached + h.cached, g.nxdomain + h.nxdomain,
                     g.responseTime + h.responseTime, g.domains + h.domains, g.clients + h.clients))
  }

  lemma HourJoinPlus(a: Option<HourGroup>, b: Option<HourGroup>, q: Query)
    ensures HourJoin(a, Some(HourPlus(b, q))) == Some(HourPlus(HourJoin(a, b), q))
  {
    if a.Some? && b.Some? {
      assert a.value.domains + (b.value.domains + {q.domain}) == (a.value.domains + b.value.domains) + {q.domain};
      assert a.value.clients + (b.value.clients + {q.clientIP}) == (a.value.clients + b.value.clients) + {q.clientIP};
    }
  }

  /** Folding a batch into a recount gives the recount of both together. */
  lemma {:induction false} ClientConcat(h: seq<Query>, batch: seq<Query>, ip: string)
    ensures ClientRecount(h + batch, ip) == ClientUpsert(ClientRecount(h, ip), ClientRecount(batch, ip))
  {
    if batch == [] {
      assert h + batch == h;
    } else {
      ClientConcat(h, batch[..|batch| - 1], ip);
      ClientUpsertPlus(ClientRecount(h, ip), ClientRecount(batch[..|batch| - 1], ip), batch[|batch| - 1]);
      assert (h + batch)[..|h + batch| - 1] == h + batch[..|batch| - 1];
    }
  }

  lemma {:induction false} HourConcat(h: seq<Query>, batch: seq<Query>, hour: int)
    ensures HourRecount(h + batch, hour) == HourJoin(HourRecount(h, hour), HourRecount(batch, hour))
  {
    if batch == [] {
      assert h + batch == h;
    } else {
      HourConcat(h, batch[..|batch| - 1], hour);
      HourJoinPlus(HourRecount(h, hour), HourRecount(batch[..|batch| - 1], hour), batch[|batch| - 1]);
      assert (h + batch)[..|h + batch| - 1] == h + batch[..|batch| - 1];
    }
  }

  /** All columns but first_queried. */
  ghost predicate SameDomainRow(a: Option<DomainRow>, b: Option<DomainRow>)
  {
    a.Some? == b.Some? &&
    (a.Some? ==> a.value.count == b.value.count && a.value.last == b.value.last && a.value.blocked == b.value.blocked)
  }

  lemma {:induction false} DomainConcat(h: seq<Query>, batch: seq<Query>, d: string)
    ensures SameDomainRow(DomainGroup(h + batch, d), DomainUpsert(DomainGroup(h, d), DomainGroup(batch, d)))
  {
    if batch == [] {
      assert h + batch == h;
    } else {
      DomainConcat(h, batch[..|batch| - 1], d);
      assert (h + batch)[..|h + batch| - 1] == h + batch[..|batch| - 1];
    }
  }

  /** The row's blocked and NXDOMAIN counts never exceed its total, nor first its last. */
  lemma {:induction false} ClientRowSane(h: seq<Query>, ip: string)
    ensures match ClientRecount(h, ip)
            case None => true
            case Some(r) => 0 < r.total && r.blocked <= r.total && r.nxdomain <= r.total && r.first <= r.last
  {
    if h != [] {
      ClientRowSane(h[..|h| - 1], ip);
    }
  }

  // ---------------------------------------------------------------- what the recounts count

  type Test = Query -> bool

  /** How many of the queries of a group pass a test. */
  function Count(h: seq<Query>, group: Test, test: Test): nat
  {
    if h == [] then 0
    else Count(h[..|h| - 1], group, test) + One(group(h[|h| - 1]) && test(h[|h| - 1]))
  }

  function OfClient(ip: string): Test { (q: Query) => q.clientIP == ip }
  function OfHour(hour: int): Test { (q: Query) => 3600 * hour <= q.timestamp < 3600 * hour + 3600 }
  function OfDomain(d: string): Test { (q: Query) => q.domain == d }
  function Any(): Test { (q: Query) => true }
  function Blocked(): Test { (q: Query) => q.blocked }
  function Cached(): Test { (q: Query) => q.cached }
  function NxDomain(): Test { (q: Query) => q.responseCode == 3 }

  /** `time` is that of some query of the group. */
  ghost predicate Among(h: seq<Query>, group: Test, time: int)
  {
    exists q :: q in h && group(q) && q.timestamp == time
  }

  ghost predicate Latest(h: seq<Query>, group: Test, time: int)
  {
    Among(h, group, time) && forall q :: q in h && group(q) ==> q.timestamp <= time
  }

  ghost predicate Earliest(h: seq<Query>, group: Test, time: int)
  {
    Among(h, group, time) && forall q :: q in h && group(q) ==> time <= q.timestamp
  }

  lemma AmongGrows(h: seq<Query>, q: Query, group: Test, time: int)
    ensures Among(h, group, time) || (group(q) && q.timestamp == time) ==> Among(h + [q], group, time)
  {
    assert q in h + [q];
    if p :| p in h && group(p) && p.timestamp == time {
      assert p in h + [q];
    }
  }

  lemma LatestGrows(h: seq<Query>, q: Query, group: Test, time: int)
    requires group(q)
    ensures Latest(h, group, time) ==> Latest(h + [q], group, Max(time, q.timestamp))
    ensures Earliest(h, group, time) ==> Earliest(h + [q], group, Min(time, q.timestamp))
  {
    AmongGrows(h, q, group, Max(time, q.timestamp));
    AmongGrows(h, q, group, Min(time, q.timestamp));
  }

  lemma OtherGroup(h: seq<Query>, q: Query, group: Test, time: int)
    requires !group(q)
    ensures Latest(h, group, time) ==> Latest(h + [q], group, time)
    ensures Earliest(h, group, time) ==> Earliest(h + [q], group, time)
  {
    AmongGrows(h, q, group, time);
  }

  lemma FirstOfGroup(h: seq<Query>, q: Query, group: Test)
    requires group(q) && Count(h, group, Any()) == 0
    ensures Latest(h + [q], group, q.timestamp) && Earliest(h + [q], group, q.timestamp)
  {
    AmongGrows(h, q, group, q.timestamp);
    CountZero(h, group);
  }

  lemma {:induction false} CountZero(h: seq<Query>, group: Test)
    ensures Count(h, group, Any()) == 0 <==> forall q :: q in h ==> !group(q)
  {
    if h != [] {
      CountZero(h[..|h| - 1], group);
      assert h == h[..|h| - 1] + [h[|h| - 1]];
    }
  }

  lemma {:induction false} NoneCounted(h: seq<Query>, group: Test, test: Test)
    requires Count(h, group, Any()) == 0
    ensures Count(h, group, test) == 0
  {
    if h != [] {
      NoneCounted(h[..|h| - 1], group, test);
    }
  }

  lemma {:induction false} CountConcat(a: seq<Query>, b: seq<Query>, group: Test, test: Test)
    ensures Count(a + b, group, test) == Count(a, group, test) + Count(b, group, test)
  {
    if b == [] {
      assert a + b == a;
    } else {
      assert (a + b)[..|a + b| - 1] == a + b[..|b| - 1];
      CountConcat(a, b[..|b| - 1], group, test);
    }
  }

  /** A client's row: how many queries are its own, how many of these were blocked or
      answered NXDOMAIN, and the earliest and the latest of their times. */
  lemma {:induction false} ClientRecountMeans(h: seq<Query>, ip: string)
    ensures var mine := OfClient(ip);
            match ClientRecount(h, ip)
            case None => Count(h, mine, Any()) == 0
            case Some(r) => r.total == Count(h, mine, Any()) > 0 && r.blocked == Count(h, mine, Blocked())
                            && r.nxdomain == Count(h, mine, NxDomain())
                            && Earliest(h, mine, r.first) && Latest(h, mine, r.last)
  {
    if h != [] {
      var mine, before, q := OfClient(ip), h[..|h| - 1], h[|h| - 1];
      assert h == before + [q];
      ClientRecountMeans(before, ip);
      match ClientRecount(before, ip)
      case None =>
        NoneCounted(before, mine, Blocked());
        NoneCounted(before, mine, NxDomain());
        if mine(q) { FirstOfGroup(before, q, mine); }
      case Some(r) =>
        if mine(q) {
          LatestGrows(before, q, mine, r.first);
          LatestGrows(before, q, mine, r.last);
        } else {
          OtherGroup(before, q, mine, r.first);
          OtherGroup(before, q, mine, r.last);
        }
    }
  }

  /** A query falls in the row of the 3600 seconds it is in. */
  lemma HourMeans(q: Query, hour: int)
    ensures HourOf(q) == hour <==> OfHour(hour)(q)
  {
  }

  /** The response times of a group, added up. */
  function TotalTime(h: seq<Query>, group: Test): real
  {
    if h == [] then 0.0
    else TotalTime(h[..|h| - 1], group) + if group(h[|h| - 1]) then h[|h| - 1].responseTimeMs else 0.0
  }

  lemma {:induction false} NoTime(h: seq<Query>, group: Test)
    requires Count(h, group, Any()) == 0
    ensures TotalTime(h, group) == 0.0
  {
    if h != [] {
      NoTime(h[..|h| - 1], group);
    }
  }

  ghost function DomainsIn(h: seq<Query>, hour: int): set<string>
  {
    set q | q in h && OfHour(hour)(q) :: q.domain
  }

  ghost function ClientsIn(h: seq<Query>, hour: int): set<string>
  {
    set q | q in h && OfHour(hour)(q) :: q.clientIP
  }

  lemma NamesInSnoc(h: seq<Query>, q: Query, hour: int)
    ensures DomainsIn(h + [q], hour) == DomainsIn(h, hour) + if OfHour(hour)(q) then {q.domain} else {}
    ensures ClientsIn(h + [q], hour) == ClientsIn(h, hour) + if OfHour(hour)(q) then {q.clientIP} else {}
  {
  }

  /** An hour's group counts the queries of that hour and adds their response times. */
  lemma {:induction false} HourRecountMeans(h: seq<Query>, hour: int)
    ensures var those := OfHour(hour);
            match HourRecount(h, hour)
            case None => Count(h, those, Any()) == 0
            case Some(g) => g.total == Count(h, those, Any()) > 0 && g.blocked == Count(h, those, Blocked())
                            && g.cached == Count(h, those, Cached()) && g.nxdomain == Count(h, those, NxDomain())
                            && g.responseTime == TotalTime(h, those)
  {
    if h != [] {
      var those, before := OfHour(hour), h[..|h| - 1];
      HourRecountMeans(before, hour);
      HourMeans(h[|h| - 1], hour);
      if HourRecount(before, hour).None? {
        NoneCounted(before, those, Blocked());
        NoneCounted(before, those, Cached());
        NoneCounted(before, those, NxDomain());
        NoTime(before, those);
      }
    }
  }

  /** It names the domains and clients of that hour. */
  lemma {:induction false} HourNamesMean(h: seq<Query>, hour: int)
    ensures var g := HourRecount(h, hour);
            && DomainsIn(h, hour) == (if g.None? then {} else g.value.domains)
            && ClientsIn(h, hour) == (if g.None? then {} else g.value.clients)
  {
    if h != [] {
      var before, q := h[..|h| - 1], h[|h| - 1];
      HourNamesMean(before, hour);
      assert h == before + [q];
      NamesInSnoc(before, q, hour);
      HourMeans(q, hour);
    }
  }

  /** The flag of the first query of the group. */
  function FirstFlag(h: seq<Query>, group: Test): Option<bool>
  {
    if h == [] then None
    else if group(h[0]) then Some(h[0].blocked)
    else FirstFlag(h[1..], group)
  }

  lemma {:induction false} FirstFlagSnoc(h: seq<Query>, q: Query, group: Test)
    ensures FirstFlag(h + [q], group) ==
            if FirstFlag(h, group).Some? then FirstFlag(h, group) else if group(q) then Some(q.blocked) else None
  {
    if h != [] {
      assert (h + [q])[1..] == h[1..] + [q];
      FirstFlagSnoc(h[1..], q, group);
    } else {
      assert (h + [q])[1..] == [];
    }
  }

  /** What one batch says about a domain: how often it was queried, the latest time in both
      time columns, and the blocked flag of its first query. */
  lemma {:induction false} DomainGroupMeans(h: seq<Query>, d: string)
    ensures match DomainGroup(h, d)
            case None => Count(h, OfDomain(d), Any()) == 0
            case Some(r) => r.count == Count(h, OfDomain(d), Any()) > 0 && Latest(h, OfDomain(d), r.last)
                            && r.first == r.last
    ensures FirstFlag(h, OfDomain(d)) == if DomainGroup(h, d).None? then None else Some(DomainGroup(h, d).value.blocked)
  {
    if h != [] {
      var those, before, q := OfDomain(d), h[..|h| - 1], h[|h| - 1];
      assert h == before + [q];
      DomainGroupMeans(before, d);
      FirstFlagSnoc(before, q, those);
      match DomainGroup(before, d)
      case None => if those(q) { FirstOfGroup(before, q, those); }
      case Some(r) =>
        if those(q) { LatestGrows(before, q, those, r.last); } else { OtherGroup(before, q, those, r.last); }
    }
  }

  // ---------------------------------------------------------------- batch by batch

  type Batch = seq<Query>

  function Flatten(batches: seq<Batch>): seq<Query>
  {
    if batches == [] then [] else Flatten(batches[..|batches| - 1]) + batches[|batches| - 1]
  }

  lemma FlattenSnoc(batches: seq<Batch>, batch: Batch)
    ensures Flatten(batches + [batch]) == Flatten(batches) + batch
  {
    assert (batches + [batch])[..|batches|] == batches;
  }

  lemma {:induction false} InFlatten(batches: seq<Batch>, q: Query)
    ensures q in Flatten(batches) <==> exists m :: 0 <= m < |batches| && q in batches[m]
  {
    if batches != [] {
      var last := |batches| - 1;
      InFlatten(batches[..last], q);
      if m :| 0 <= m < last && q in batches[..last][m] { assert q in batches[m]; }
      if m :| 0 <= m < |batches| && q in batches[m] { assert m < last ==> q in batches[..last][m]; }
    }
  }

  /** The row of `d` after updateDomainStats has processed `batches` in turn. */
  function FoldDomain(batches: seq<Batch>, d: string): Option<DomainRow>
  {
    if batches == [] then None
    else DomainUpsert(FoldDomain(batches[..|batches| - 1], d), DomainGroup(batches[|batches| - 1], d))
  }

  /** The row of `hour` after updateHourlyStats has processed `batches` in turn. */
  function FoldHour(batches: seq<Batch>, hour: int): Option<HourRow>
  {
    if batches == [] then None
    else HourUpsert(FoldHour(batches[..|batches| - 1], hour), HourRecount(batches[|batches| - 1], hour))
  }

  /** Batch boundaries do not show in count, last_queried and blocked. */
  lemma {:induction false} FoldDomainIsGroup(batches: seq<Batch>, d: string)
    ensures SameDomainRow(FoldDomain(batches, d), DomainGroup(Flatten(batches), d))
  {
    if batches != [] {
      var last := |batches| - 1;
      FoldDomainIsGroup(batches[..last], d);
      DomainConcat(Flatten(batches[..last]), batches[last], d);
    }
  }

  /** All columns but the two unique counts. */
  ghost predicate SameHourRow(row: Option<HourRow>, g: Option<HourGroup>)
  {
    row.Some? == g.Some? &&
    (row.Some? ==> row.value.total == g.value.total && row.value.blocked == g.value.blocked
                   && row.value.cached == g.value.cached && row.value.nxdomain == g.value.nxdomain
                   && row.value.responseTime == g.value.responseTime)
  }

  /** Nor in the sums of an hour. */
  lemma {:induction false} FoldHourIsRecount(batches: seq<Batch>, hour: int)
    ensures SameHourRow(FoldHour(batches, hour), HourRecount(Flatten(batches), hour))
  {
    if batches != [] {
      var last := |batches| - 1;
      FoldHourIsRecount(batches[..last], hour);
      HourConcat(Flatten(batches[..last]), batches[last], hour);
    }
  }

  // ---------------------------------------------------------------- first_queried

  /** The first batch that holds a query of `d`, or their number. */
  function FirstHolding(batches: seq<Batch>, d: string): (k: nat)
    ensures k <= |batches|
  {
    if batches == [] then 0
    else
      var last := |batches| - 1;
      var k := FirstHolding(batches[..last], d);
      if k < last || DomainGroup(batches[last], d).Some? then k else last + 1
  }

  /** first_queried holds the latest time of the domain in the first batch that holds it. */
  lemma {:induction false} FirstQueriedMeans(batches: seq<Batch>, d: string)
    ensures FoldDomain(batches, d).Some? <==> FirstHolding(batches, d) < |batches|
    ensures var k := FirstHolding(batches, d);
            && (forall m, q :: 0 <= m < k && q in batches[m] ==> q.domain != d)
            && (k < |batches| ==> Latest(batches[k], OfDomain(d), FoldDomain(batches, d).value.first))
  {
    if batches != [] {
      var last := |batches| - 1;
      FirstQueriedMeans(batches[..last], d);
      DomainGroupMeans(batches[last], d);
      CountZero(batches[last], OfDomain(d));
      var k := FirstHolding(batches, d);
      forall m, q | 0 <= m < k && q in batches[m] ensures q.domain != d {
        if m < last { assert q in batches[..last][m]; } else { assert OfDomain(d)(q) <==> q.domain == d; }
      }
    }
  }

  /** All queries of `d` in a batch have one time stamp. */
  ghost predicate OneTime(batch: Batch, d: string)
  {
    forall p, q :: p in batch && q in batch && p.domain == q.domain == d ==> p.timestamp == q.timestamp
  }

  ghost predicate NoneBefore(batches: seq<Batch>, from: nat, d: string, time: int)
  {
    forall m, q :: from <= m < |batches| && q in batches[m] && q.domain == d ==> time <= q.timestamp
  }

  /** It is the time of the first query exactly if that batch holds one time stamp only and
      no later batch an earlier one. */
  lemma FirstQueriedIsFirst(batches: seq<Batch>, d: string)
    requires FirstHolding(batches, d) < |batches|
    ensures FoldDomain(batches, d).Some?
    ensures var k, first := FirstHolding(batches, d), FoldDomain(batches, d).value.first;
            Earliest(Flatten(batches), OfDomain(d), first) <==>
            OneTime(batches[k], d) && NoneBefore(batches, k + 1, d, first)
  {
    FirstQueriedMeans(batches, d);
    var k, first := FirstHolding(batches, d), FoldDomain(batches, d).value.first;
    if Earliest(Flatten(batches), OfDomain(d), first) {
      EarliestShows(batches, d, k, first);
    }
    if OneTime(batches[k], d) && NoneBefore(batches, k + 1, d, first) {
      EarliestFollows(batches, d, k, first);
    }
  }

  lemma EarliestShows(batches: seq<Batch>, d: string, k: nat, first: int)
    requires k < |batches| && Latest(batches[k], OfDomain(d), first) && Earliest(Flatten(batches), OfDomain(d), first)
    ensures OneTime(batches[k], d) && NoneBefore(batches, k + 1, d, first)
  {
    forall m, q | k <= m < |batches| && q in batches[m] && q.domain == d ensures first <= q.timestamp {
      InFlatten(batches, q);
      assert OfDomain(d)(q);
    }
    forall q | q in batches[k] && q.domain == d ensures q.timestamp == first {
      assert OfDomain(d)(q);
    }
  }

  lemma EarliestFollows(batches: seq<Batch>, d: string, k: nat, first: int)
    requires k < |batches| && (forall m, q :: 0 <= m < k && q in batches[m] ==> q.domain != d)
    requires Latest(batches[k], OfDomain(d), first) && OneTime(batches[k], d) && NoneBefore(batches, k + 1, d, first)
    ensures Earliest(Flatten(batches), OfDomain(d), first)
  {
    var e :| e in batches[k] && OfDomain(d)(e) && e.timestamp == first;
    InFlatten(batches, e);
    forall q | q in Flatten(batches) && OfDomain(d)(q) ensures first <= q.timestamp {
      InFlatten(batches, q);
      var m :| 0 <= m < |batches| && q in batches[m];
    }
  }

  /** So it depends on where the batches were cut: one batch stores the later time stamp of
      two queries, two batches the earlier one. */
  lemma FirstQueriedDependsOnBatches(q1: Query, q2: Query)
    requires q1.domain == q2.domain && q1.timestamp < q2.timestamp
    ensures Flatten([[q1, q2]]) == Flatten([[q1], [q2]])
    ensures FoldDomain([[q1, q2]], q1.domain).value.first == q2.timestamp
    ensures FoldDomain([[q1], [q2]], q1.domain).value.first == q1.timestamp
  {
    assert [q1, q2][..1] == [q1] && [q1][..0] == [] && [q2][..0] == [];
    assert [[q1, q2]][..0] == [] && [[q1], [q2]][..1] == [[q1]] && [[q1]][..0] == [];
    assert DomainGroup([q1], q1.domain) == Some(DomainRow(1, q1.timestamp, q1.timestamp, q1.blocked));
    assert FoldDomain([[q1]], q1.domain) == DomainGroup([q1], q1.domain);
    assert Flatten([[q1]]) == [q1];
  }

  // ---------------------------------------------------------------- unique_domains and unique_clients

  lemma SubsetSize<T>(a: set<T>, b: set<T>)
    requires a <= b
    ensures |a| <= |b| && (|a| == |b| ==> a == b)
  {
    assert b == a + (b - a);
    assert a !! b - a;
  }

  lemma NamesInFlatten(batches: seq<Batch>, hour: int, m: nat)
    requires m < |batches|
    ensures DomainsIn(batches[m], hour) <= DomainsIn(Flatten(batches), hour)
    ensures ClientsIn(batches[m], hour) <= ClientsIn(Flatten(batches), hour)
  {
    forall q | q in batches[m] ensures q in Flatten(batches) { InFlatten(batches, q); }
  }

  /** `size` is the largest value `f` has on a batch. */
  ghost predicate IsLargest(batches: seq<Batch>, f: Batch -> nat, size: nat)
  {
    && (exists m :: 0 <= m < |batches| && f(batches[m]) == size)
    && (forall m :: 0 <= m < |batches| ==> f(batches[m]) <= size)
  }

  lemma LargestGrows(batches: seq<Batch>, batch: Batch, f: Batch -> nat, size: nat)
    requires IsLargest(batches, f, size) || (size == 0 && forall m :: 0 <= m < |batches| ==> f(batches[m]) == 0)
    ensures IsLargest(batches + [batch], f, MaxNat(size, f(batch)))
  {
    var all := batches + [batch];
    assert all[|batches|] == batch;
    if m :| 0 <= m < |batches| && f(batches[m]) == size { assert f(all[m]) == size; }
  }

  ghost function DomainCount(hour: int): Batch -> nat { (b: Batch) => |DomainsIn(b, hour)| }
  ghost function ClientCount(hour: int): Batch -> nat { (b: Batch) => |ClientsIn(b, hour)| }

  /** The columns hold the largest number of distinct names any one batch had. */
  lemma {:induction false} UniqueIsLargest(batches: seq<Batch>, hour: int)
    requires FoldHour(batches, hour).Some?
    ensures var r := FoldHour(batches, hour).value;
            && IsLargest(batches, DomainCount(hour), r.uniqueDomains)
            && IsLargest(batches, ClientCount(hour), r.uniqueClients)
  {
    var last := |batches| - 1;
    var before := batches[..last];
    assert batches == before + [batches[last]];
    HourNamesMean(batches[last], hour);
    if FoldHour(before, hour).Some? {
      UniqueIsLargest(before, hour);
      LargestGrows(before, batches[last], DomainCount(hour), FoldHour(before, hour).value.uniqueDomains);
      LargestGrows(before, batches[last], ClientCount(hour), FoldHour(before, hour).value.uniqueClients);
    } else {
      NothingYet(before, hour);
      LargestGrows(before, batches[last], DomainCount(hour), 0);
      LargestGrows(before, batches[last], ClientCount(hour), 0);
    }
  }

  lemma {:induction false} NothingYet(batches: seq<Batch>, hour: int)
    requires FoldHour(batches, hour).None?
    ensures forall m :: 0 <= m < |batches| ==> DomainsIn(batches[m], hour) == {} == ClientsIn(batches[m], hour)
  {
    if batches != [] {
      var last := |batches| - 1;
      NothingYet(batches[..last], hour);
      HourNamesMean(batches[last], hour);
      assert forall m :: 0 <= m < last ==> batches[..last][m] == batches[m];
    }
  }

  /** unique_domains never exceeds the true number, and reaches it exactly if one batch held
      every domain of the hour; likewise unique_clients. */
  lemma UniqueIsLowerBound(batches: seq<Batch>, hour: int)
    requires FoldHour(batches, hour).Some?
    ensures var r, domains := FoldHour(batches, hour).value, DomainsIn(Flatten(batches), hour);
            && r.uniqueDomains <= |domains|
            && (r.uniqueDomains == |domains| <==>
                exists m :: 0 <= m < |batches| && DomainsIn(batches[m], hour) == domains)
    ensures var r, clients := FoldHour(batches, hour).value, ClientsIn(Flatten(batches), hour);
            && r.uniqueClients <= |clients|
            && (r.uniqueClients == |clients| <==>
                exists m :: 0 <= m < |batches| && ClientsIn(batches[m], hour) == clients)
  {
    UniqueIsLargest(batches, hour);
    var r := FoldHour(batches, hour).value;
    assert forall m :: 0 <= m < |batches| ==> DomainCount(hour)(batches[m]) == |DomainsIn(batches[m], hour)|;
    assert forall m :: 0 <= m < |batches| ==> ClientCount(hour)(batches[m]) == |ClientsIn(batches[m], hour)|;
    forall m | 0 <= m < |batches|
      ensures |DomainsIn(batches[m], hour)| <= |DomainsIn(Flatten(batches), hour)|
      ensures |DomainsIn(batches[m], hour)| == |DomainsIn(Flatten(batches), hour)| ==>
              DomainsIn(batches[m], hour) == DomainsIn(Flatten(batches), hour)
    {
      NamesInFlatten(batches, hour, m);
      SubsetSize(DomainsIn(batches[m], hour), DomainsIn(Flatten(batches), hour));
    }
    forall m | 0 <= m < |batches|
      ensures |ClientsIn(batches[m], hour)| <= |ClientsIn(Flatten(batches), hour)|
      ensures |ClientsIn(batches[m], hour)| == |ClientsIn(Flatten(batches), hour)| ==>
              ClientsIn(batches[m], hour) == ClientsIn(Flatten(batches), hour)
    {
      NamesInFlatten(batches, hour, m);
      SubsetSize(ClientsIn(batches[m], hour), ClientsIn(Flatten(batches), hour));
    }
  }

  // ---------------------------------------------------------------- totals

  ghost function Pick<K>(s: set<K>): (k: K)
    requires s != {}
    ensures k in s
  {
    var k :| k in s; k
  }

  /** The sum of a column over the rows in `keys`. */
  ghost function Sum<K>(column: K -> nat, keys: set<K>): nat
  {
    if keys == {} then 0 else var k := Pick(keys); column(k) + Sum(column, keys - {k})
  }

  lemma {:induction false} SumRemove<K>(column: K -> nat, keys: set<K>, k: K)
    requires k in keys
    ensures Sum(column, keys) == column(k) + Sum(column, keys - {k})
  {
    var c := Pick(keys);
    if c != k {
      SumRemove(column, keys - {c}, k);
      SumRemove(column, keys - {k}, c);
      assert keys - {c} - {k} == keys - {k} - {c};
    }
  }

  lemma {:induction false} SumSame<K>(a: K -> nat, b: K -> nat, keys: set<K>)
    requires forall k :: k in keys ==> a(k) == b(k)
    ensures Sum(a, keys) == Sum(b, keys)
  {
    if keys != {} {
      SumSame(a, b, keys - {Pick(keys)});
    }
  }

  /** The total column of a client_stats (hourly_stats) table that is a recount. */
  function ClientTotal(h: seq<Query>): string -> nat
  {
    ip => match ClientRecount(h, ip) case None => 0 case Some(r) => r.total
  }

  function HourTotal(h: seq<Query>): int -> nat
  {
    hour => match HourRecount(h, hour) case None => 0 case Some(r) => r.total
  }

  lemma {:induction false} HourRowSane(h: seq<Query>, hour: int)
    ensures match HourRecount(h, hour)
            case None => true
            case Some(r) => 0 < r.total && r.blocked <= r.total && r.cached <= r.total && r.nxdomain <= r.total
  {
    if h != [] {
      HourRowSane(h[..|h| - 1], hour);
    }
  }

  /** Adding one to the column at one key adds one to the sum. */
  lemma SumBump<K>(a: K -> nat, b: K -> nat, keys: set<K>, k: K)
    requires k in keys && b(k) == a(k) + 1
    requires forall x :: x in keys && x != k ==> b(x) == a(x)
    ensures Sum(b, keys) == Sum(a, keys) + 1
  {
    SumRemove(a, keys, k);
    SumRemove(b, keys, k);
    SumSame(a, b, keys - {k});
  }

  lemma {:induction false} SumZero<K>(a: K -> nat, keys: set<K>)
    requires forall k :: k in keys ==> a(k) == 0
    ensures Sum(a, keys) == 0
  {
    if keys != {} {
      SumZero(a, keys - {Pick(keys)});
    }
  }

  /** Over the rows of the table, client totals add up to the number of queries. */
  lemma {:induction false} ClientTotalsAddUp(h: seq<Query>, keys: set<string>)
    requires forall ip :: ClientRecount(h, ip).Some? ==> ip in keys
    ensures Sum(ClientTotal(h), keys) == |h|
  {
    if h == [] {
      SumZero(ClientTotal(h), keys);
    } else {
      var q, before := h[|h| - 1], h[..|h| - 1];
      forall ip | ClientRecount(before, ip).Some? ensures ip in keys {
        assert ClientRecount(h, ip).Some?;
      }
      ClientTotalsAddUp(before, keys);
      assert ClientRecount(h, q.clientIP).Some?;
      SumBump(ClientTotal(before), ClientTotal(h), keys, q.clientIP);
    }
  }

  /** Hour totals add up to the same number. */
  lemma {:induction false} HourTotalsAddUp(h: seq<Query>, keys: set<int>)
    requires forall hour :: HourRecount(h, hour).Some? ==> hour in keys
    ensures Sum(HourTotal(h), keys) == |h|
  {
    if h == [] {
      SumZero(HourTotal(h), keys);
    } else {
      var q, before := h[|h| - 1], h[..|h| - 1];
      forall hour | HourRecount(before, hour).Some? ensures hour in keys {
        assert HourRecount(h, hour).Some?;
      }
      HourTotalsAddUp(before, keys);
      assert HourRecount(h, HourOf(q)).Some?;
      SumBump(HourTotal(before), HourTotal(h), keys, HourOf(q));
    }
  }

  // ---------------------------------------------------------------- the tables

  /** The grouping loop of updateHourlyStats. */
  method GroupHours(queries: seq<Query>) returns (updates: map<int, HourGroup>)
    ensures forall hour :: Get(updates, hour) == HourRecount(queries, hour)
  {
    updates := map[];
    for i := 0 to |queries|
      invariant forall hour :: Get(updates, hour) == HourRecount(queries[..i], hour)
    {
      var q := queries[i];
      assert queries[..i + 1][..i] == queries[..i];
      var hour := HourOf(q);
      if hour in updates {
        var u := updates[hour];
        updates := updates[hour := HourGroup(
            u.total + 1, if q.blocked then u.blocked + 1 else u.blocked, if q.cached then u.cached + 1 else u.cached,
            if q.responseCode == NXDOMAIN then u.nxdomain + 1 else u.nxdomain, u.responseTime + q.responseTimeMs,
            u.domains + {q.domain}, u.clients + {q.clientIP})];
      } else {
        updates := updates[hour := HourGroup(
            1, if q.blocked then 1 else 0, if q.cached then 1 else 0,
            if q.responseCode == NXDOMAIN then 1 else 0, q.responseTimeMs, {q.domain}, {q.clientIP})];
      }
    }
    assert queries[..|queries|] == queries;
  }

  /** The next key of a Go map iteration: any one that is left. */
  method NextKey<K(==)>(todo: set<K>) returns (k: K)
    requires todo != {}
    ensures k in todo
  {
    k :| k in todo;
  }

  lemma GetDetermines<K, V>(a: map<K, V>, b: map<K, V>)
    requires forall k :: Get(a, k) == Get(b, k)
    ensures a == b
  {
    forall k ensures k in a <==> k in b { assert Get(a, k) == Get(b, k); }
    forall k | k in a ensures a[k] == b[k] { assert Get(a, k) == Get(b, k); }
  }

  /** The three summary tables; `batches` is everything the stats worker has processed. */
  class SummaryTables {
    var domains: map<string, DomainRow>
    var clients: map<string, ClientRow>
    var hours: map<int, HourRow>
    ghost var batches: seq<Batch>

    /** Client rows equal a recount over the processed queries, domain and hour rows are what
        the batches fold to. */
    ghost predicate Valid()
      reads this
    {
      && (forall d :: Get(domains, d) == FoldDomain(batches, d))
      && (forall ip :: Get(clients, ip) == ClientRecount(Flatten(batches), ip))
      && (forall hour :: Get(hours, hour) == FoldHour(batches, hour))
    }

    constructor ()
      ensures Valid() && batches == []
    {
      domains, clients, hours, batches := map[], map[], map[], [];
    }

    method UpdateDomainStats(queries: seq<Query>)
      modifies this`domains
      ensures forall d :: Get(domains, d) == DomainUpsert(Get(old(domains), d), DomainGroup(queries, d))
    {
      if |queries| == 0 {
        return;
      }
      var updates: map<string, DomainRow> := map[];
      for i := 0 to |queries|
        invariant forall d :: Get(updates, d) == DomainGroup(queries[..i], d)
      {
        var query := queries[i];
        assert queries[..i + 1][..i] == queries[..i];
        if query.domain in updates {
          var existing := updates[query.domain];
          var last := if query.timestamp > existing.last then query.timestamp else existing.last;
          updates := updates[query.domain := DomainRow(existing.count + 1, last, last, existing.blocked)];
        } else {
          updates := updates[query.domain := DomainRow(1, query.timestamp, query.timestamp, query.blocked)];
        }
      }
      assert queries[..|queries|] == queries;
      var todo := updates.Keys;
      while todo != {}
        invariant todo <= updates.Keys
        invariant forall d :: Get(domains, d) ==
                    if d in todo then Get(old(domains), d) else DomainUpsert(Get(old(domains), d), Get(updates, d))
        decreases todo
      {
        var d := NextKey(todo);
        var u := updates[d];
        if d in domains {
          var r := domains[d];
          domains := domains[d := DomainRow(r.count + u.count, Max(r.last, u.last), r.first, r.blocked)];
        } else {
          domains := domains[d := u];
        }
        todo := todo - {d};
      }
    }

    method UpdateClientStats(queries: seq<Query>)
      modifies this`clients
      ensures forall ip :: Get(clients, ip) == ClientUpsert(Get(old(clients), ip), ClientRecount(queries, ip))
    {
      if |queries| == 0 {
        return;
      }
      var updates: map<string, ClientRow> := map[];
      for i := 0 to |queries|
        invariant forall ip :: Get(updates, ip) == ClientRecount(queries[..i], ip)
      {
        var q := queries[i];
        assert queries[..i + 1][..i] == queries[..i];
        if q.clientIP in updates {
          var u := updates[q.clientIP];
          updates := updates[q.clientIP := ClientRow(
              u.total + 1, if q.blocked then u.blocked + 1 else u.blocked,
              if q.responseCode == NXDOMAIN then u.nxdomain + 1 else u.nxdomain,
              if q.timestamp < u.first then q.timestamp else u.first,
              if q.timestamp > u.last then q.timestamp else u.last)];
        } else {
          updates := updates[q.clientIP := ClientRow(
              1, if q.blocked then 1 else 0, if q.responseCode == NXDOMAIN then 1 else 0, q.timestamp, q.timestamp)];
        }
      }
      assert queries[..|queries|] == queries;
      var todo := updates.Keys;
      while todo != {}
        invariant todo <= updates.Keys
        invariant forall ip :: Get(clients, ip) ==
                    if ip in todo then Get(old(clients), ip) else ClientUpsert(Get(old(clients), ip), Get(updates, ip))
        decreases todo
      {
        var ip := NextKey(todo);
        var u := updates[ip];
        if ip in clients {
          var r := clients[ip];
          clients := clients[ip := ClientRow(r.total + u.total, r.blocked + u.blocked, r.nxdomain + u.nxdomain,
                                             Min(r.first, u.first), Max(r.last, u.last))];
        } else {
          clients := clients[ip := u];
        }
        todo := todo - {ip};
      }
    }

    method UpdateHourlyStats(queries: seq<Query>)
      modifies this`hours
      ensures forall hour :: Get(hours, hour) == HourUpsert(Get(old(hours), hour), HourRecount(queries, hour))
    {
      if |queries| == 0 {
        return;
      }
      var updates := GroupHours(queries);
      var todo := updates.Keys;
      while todo != {}
        invariant todo <= updates.Keys
        invariant forall hour :: Get(hours, hour) ==
                    if hour in todo then Get(old(hours), hour)
                    else HourUpsert(Get(old(hours), hour), Get(updates, hour))
        decreases todo
      {
        var hour := NextKey(todo);
        var u := updates[hour];
        if hour in hours {
          var r := hours[hour];
          hours := hours[hour := HourRow(r.total + u.total, r.blocked + u.blocked, r.cached + u.cached,
                                         r.nxdomain + u.nxdomain, r.responseTime + u.responseTime,
                                         MaxNat(r.uniqueDomains, |u.domains|), MaxNat(r.uniqueClients, |u.clients|))];
        } else {
          hours := hours[hour := HourRow(u.total, u.blocked, u.cached, u.nxdomain, u.responseTime,
                                         |u.domains|, |u.clients|)];
        }
        todo := todo - {hour};
      }
    }

    /** One turn of the stats worker, whatever the batch. */
    method ProcessBatch(batch: Batch)
      requires Valid()
      modifies this
      ensures Valid() && batches == old(batches) + [batch]
    {
      ghost var h := Flatten(batches);
      UpdateDomainStats(batch);
      UpdateClientStats(batch);
      UpdateHourlyStats(batch);
      batches := batches + [batch];
      assert batches[..|batches| - 1] == old(batches);
      forall ip ensures Get(clients, ip) == ClientRecount(Flatten(batches), ip) { ClientConcat(h, batch, ip); }
    }

    /** domainStatsWorker over the batches it receives until its channel is closed. */
    method DomainStatsWorker(received: seq<Batch>)
      requires Valid()
      modifies this
      ensures Valid() && batches == old(batches) + received
    {
      for i := 0 to |received|
        invariant Valid() && batches == old(batches) + received[..i]
      {
        ProcessBatch(received[i]);
      }
    }
  }

  /** Apart from first_queried and the unique counts, the tables depend on the queries
      processed, not on the batches. */
  lemma BatchBoundariesDoNotMatter(a: SummaryTables, b: SummaryTables)
    requires a.Valid() && b.Valid() && Flatten(a.batches) == Flatten(b.batches)
    ensures a.clients == b.clients
    ensures forall d :: SameDomainRow(Get(a.domains, d), Get(b.domains, d))
    ensures forall hour :: SameHourRow(Get(a.hours, hour), HourRecount(Flatten(b.batches), hour))
                           && SameHourRow(Get(b.hours, hour), HourRecount(Flatten(b.batches), hour))
  {
    forall ip ensures Get(a.clients, ip) == Get(b.clients, ip) { }
    GetDetermines(a.clients, b.clients);
    forall d ensures SameDomainRow(Get(a.domains, d), Get(b.domains, d)) {
      FoldDomainIsGroup(a.batches, d);
      FoldDomainIsGroup(b.batches, d);
    }
    forall hour ensures SameHourRow(Get(a.hours, hour), HourRecount(Flatten(b.batches), hour))
                        && SameHourRow(Get(b.hours, hour), HourRecount(Flatten(b.batches), hour)) {
      FoldHourIsRecount(a.batches, hour);
      FoldHourIsRecount(b.batches, hour);
    }
  }

  /** The total column of a table. */
  function ClientColumn(rows: map<string, ClientRow>): string -> nat
  {
    ip => if ip in rows then rows[ip].total else 0
  }

  function HourColumn(rows: map<int, HourRow>): int -> nat
  {
    hour => if hour in rows then rows[hour].total else 0
  }

  /** In every processed state the total columns of both tables add up to the number of
      queries processed. */
  lemma TotalsAgree(t: SummaryTables)
    requires t.Valid()
    ensures Sum(ClientColumn(t.clients), t.clients.Keys) == Sum(HourColumn(t.hours), t.hours.Keys)
            == |Flatten(t.batches)|
  {
    var h := Flatten(t.batches);
    forall ip ensures ip in t.clients <==> ClientRecount(h, ip).Some?
              ensures ClientColumn(t.clients)(ip) == ClientTotal(h)(ip) {
      assert Get(t.clients, ip) == ClientRecount(h, ip);
    }
    forall hour ensures hour in t.hours <==> HourRecount(h, hour).Some?
                ensures HourColumn(t.hours)(hour) == HourTotal(h)(hour) {
      assert Get(t.hours, hour) == FoldHour(t.batches, hour);
      FoldHourIsRecount(t.batches, hour);
    }
    ClientTotalsAddUp(h, t.clients.Keys);
    HourTotalsAddUp(h, t.hours.Keys);
    SumSame(ClientColumn(t.clients), ClientTotal(h), t.clients.Keys);
    SumSame(HourColumn(t.hours), HourTotal(h), t.hours.Keys);
  }
}
