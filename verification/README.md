# Glory-Hole: a verified model of the resolver's core

Glory-Hole is a DNS sinkhole. This project models the parts of it whose correctness does not
follow from reading one function, and proves for each what it is for:

| module | what it models | main theorem |
|---|---|---|
| `FlatList`, `Merge`, `Downloads`, `Sources`, `Bits` | the packed blocklist, from downloaded lines to the sources reported for a blocked name | bytes, merge cursors, binary search and masks agree with a plain map; `Sources.UpdateThenMatch` is end to end |
| `QueryLog`, `Logging`, `Closing` | `LogQuery`, the flush worker, the stats worker and any number of `Close` calls as interleaved steps | no send on a closed channel, nothing accepted is lost, Close can always finish (`QueryLog.NothingIsLost`, `QueryLog.DomainStatsAreComplete`, `Closing.CloseCanFinish`) |
| `Stats` | the incrementally kept summary tables | they equal a recount whatever the batch boundaries, and where a column does not, what it holds instead |
| `PolicyExpr`, `Upstreams`, `DomainMatch`, `PolicyStore`, `PolicyEngine`, `ForwardMigration` | conditional-forwarding rules compiled to policy expressions, stored, sorted, loaded and evaluated first-match | `ForwardMigration.FirstBoot`: every query goes to the upstreams of the rule the old configuration would have chosen |
| `MigrationRuns`, `WhitelistMigration`, `PolicyText` | both startup migrations across boots that go wrong anywhere, and what the migrated whitelist means | `MigrationRuns.Confluence`, `MigrationRuns.SameRulesIffDelivered`, `WhitelistMigration.WhitelistIsPreserved` |
| `CacheKey`, `Cache`, `ShardedCache` | both response caches | always a sub-map of an ideal unbounded cache; identical answers while capacity is not reached |
| `Breaker`, `BreakerConcurrent` | the circuit breaker, called sequentially and concurrently | counters refine a history automaton, which is a hysteresis on the outcomes; when exactly the half-open counter is right and its bound holds |
| `RateLimit` | token buckets with lazy eviction | rate bound over any stretch of any run; eviction is unobservable |
| `LocalRecords` | CNAME resolution with a visited set | it succeeds exactly when the plain chain does |

`Text`, `Fields`, `Lists` and `Wrappers` hold the string and list functions and the `Option` type the
others share.

Conventions. A Go string or byte slice is a `string` with one character per byte, ordered as Go
orders bytes. Masks are natural numbers with bit operations on binary digits. Clock readings,
map iteration orders, storage and file-system outcomes, `extractDomain`, the pattern matcher, the
shard hash, `net.SplitHostPort`, `net.ParseIP` and the CIDR test are parameters: every theorem holds for all
of them. Code that updates objects in place is a class or a method with loops, proved against a
function of the old state; the theorems about whole runs are lemmas about these functions.

Where the code does less than it promises, the model follows the code, and an if-and-only-if says
when it does meet the promise: `Merge.LookupAgreesWithMap` (names with a NUL byte),
`Merge.AgreesIffOffsetsFit` (32-bit offsets), `Sources.EffectiveIffLower` (upper-case list entries),
`Cache.ScanIsMinimum` (zero TTLs), `Stats.FirstQueriedIsFirst` and `Stats.UniqueIsLowerBound` (columns
that depend on the batches), `Upstreams.RoundTrip`, `WhitelistMigration.EntryReads` (quotes in
entries), `MigrationRuns.SameRulesIffDelivered` (failing inserts),
`ForwardMigration.NoStorageKeepsPriority` and `BreakerConcurrent.CounterExactIffQuiet`. The rate bound
holds for every limiter that refills while idle (`RateLimit.RateBound`) and fails for every other
(`RateLimit.BoundFailsWithoutRefill`).

## Model

| member | source | states |
|---|---|---|
| `FlatList.CmpDomainAt` | pkg/blocklist/flatlist.go:184-214 | the byte-wise comparison is the string order of the stored name and the target, in all three outcomes |
| `FlatList.EntryOfPacked` | pkg/blocklist/flatlist.go:151-162 | reading at a stored offset up to the terminator gives back the packed name |
| `FlatList.Lookup` | pkg/blocklist/flatlist.go:166-179 | the search loop finds what binary search on the stored names defines, on any table |
| `FlatList.SearchFinds` | pkg/blocklist/flatlist.go:171-175 | on an increasing table binary search returns the index of the name, wherever it is |
| `FlatList.FindInPacked` | pkg/blocklist/flatlist.go:166-214 | lookup in the packed image of an increasing list succeeds exactly for its members, with their masks |
| `Merge.FindMin` | pkg/blocklist/flatlist.go:101-116 | the smallest name under any cursor, empty exactly when all lists are exhausted |
| `Merge.TakeMin` | pkg/blocklist/flatlist.go:118-125 | the mask is the OR over the lists holding the name, and exactly their cursors advance |
| `Merge.MergeStep` | pkg/blocklist/flatlist.go:101-132 | one round of the merge keeps: output increasing, output is what the cursors passed, everything ahead is larger |
| `Merge.BuildFromSortedLists` | pkg/blocklist/flatlist.go:78-139 | the result is the packed image of the union of all lists in increasing order, each name with the OR of its lists' masks |
| `Merge.LookupAgreesWithMap` | pkg/blocklist/flatlist.go:78-179 | `Lookup` on the merged list equals the naive map for every string if and only if no listed name holds a NUL |
| `FlatList.ReadsSuffix` | pkg/blocklist/flatlist.go:151-162 | what is read at any position is the end of the name packed there |
| `FlatList.FoundInPlace` | pkg/blocklist/flatlist.go:166-179 | on any table with as many entries as names, if every name is found then each is stored at its own index |
| `Merge.AgreesIffReadsBack` | pkg/blocklist/flatlist.go:78-179 | whatever its size and names, the merged list answers as the plain map exactly if every name reads back from its stored offset |
| `Merge.AgreesIffOffsetsFit` | pkg/blocklist/flatlist.go:127-131 | 32-bit offsets: for NUL-free names of which none ends another, lookup equals the plain map if and only if the last name starts below 2^32 |
| `Merge.CollectKeys` | pkg/blocklist/flatlist.go:36-42 | every key of the map once |
| `Merge.SortDistinct` | pkg/blocklist/flatlist.go:44-45 | sorting distinct names gives a strictly increasing list of the same names |
| `Merge.BuildFlatBlocklist` | pkg/blocklist/flatlist.go:30-64 | the packed image of the map's keys in increasing order with the map's masks |
| `Merge.MergeEqualsMapBuild` | pkg/blocklist/flatlist.go:30-139 | merging lists and packing their merged map give the same bytes, offsets and masks |
| `Merge.WalkParents` | pkg/blocklist/flatlist.go:254-270 | the parent walk finds the longest listed proper ancestor at a dot boundary, and fails only if there is none |
| `Merge.LookupSubdomains` | pkg/blocklist/flatlist.go:244-271 | the mask of the longest listed ancestor, "exact" exactly when that is the name itself; no match only if no ancestor is listed |
| `Merge.ScanFindsHits` | pkg/blocklist/flatlist.go:244-271 | some ancestor is listed exactly when a naive scan of every entry finds a match |
| `Merge.MergeThenLookup` | pkg/blocklist/flatlist.go:78-271 | merge, pack and walk match exactly when a scan of every list finds the name or an ancestor, and return the OR of the masks of the lists holding the longest one |
| `Downloads.NameOfMeans` | pkg/blocklist/blocklist.go:157-172 | a line yields `d` exactly if, trimmed, it is not empty and not a comment, has a name in it, and `d` is that name with a dot added unless it ends in one |
| `Downloads.ParseToSlice` | pkg/blocklist/blocklist.go:152-179 | the names the lines yield, in file order with repetitions and none missing, or the error of the scanner |
| `Downloads.ParseHostsFile` | pkg/blocklist/blocklist.go:187-225 | the set of the names the lines yield, or the same error |
| `Downloads.Dedup` | pkg/blocklist/blocklist.go:129-139 | the in-place deduplication leaves a strictly increasing prefix with the same elements |
| `Downloads.DownloadSorted` | pkg/blocklist/blocklist.go:92-148 | an error, or strictly increasing and exactly the names the lines yield, as the map-based parser |
| `Bits.BitOfOr` | pkg/blocklist/flatlist.go:122 | a bit of an OR is set exactly when it is set in an operand |
| `Bits.ClearLowest` | pkg/blocklist/manager.go:462-464 | clearing the lowest set bit lowers the number of set bits by one |
| `Bits.PopCountMeans` | pkg/blocklist/manager.go:461-465 | the number counted is that of the bits that are set |
| `Bits.CountBits` | pkg/blocklist/manager.go:461-465 | the loop terminates with the number of set bits |
| `Sources.DownloadAndMerge` | pkg/blocklist/manager.go:230-280 | after an update a name is listed exactly when a line of a downloaded list yields it, and bit b of its mask is set exactly when list b < 64 has such a line |
| `Sources.SourcesFromMask` | pkg/blocklist/manager.go:452-481 | the names at the set bits in order, or "additional sources" for an empty mask |
| `Sources.DecodedIsReported` | pkg/blocklist/manager.go:452-481 | decoding the mask of an entry gives exactly the first-64 sources whose list holds it, in configured order, or the placeholder |
| `Sources.Match` | pkg/blocklist/manager.go:346-382 | list match by longest ancestor first, then pattern, else no match; empty name never matches |
| `Sources.UpdateIsFaithful` | pkg/blocklist/manager.go:230-280 | after an update the packed list holds exactly the downloaded names, each attributed to its true holders |
| `Sources.UpdateThenMatch` | pkg/blocklist/manager.go:230-382 | an update followed by a query: kind and sources are those of the longest ancestor held by a downloaded list |
| `Sources.BlockedIff` | pkg/blocklist/manager.go:346-382 | a query is blocked exactly if the name or an ancestor is listed, or a pattern matches |
| `Sources.EffectiveIffLower` | pkg/blocklist/manager.go:353-368 | queries are lower-cased and lists are not: a listed name matches under some query if and only if it has no upper-case letter |
| `Stats.SummaryTables.UpdateDomainStats` | pkg/storage/sqlite.go:424-480 | the new table is the upsert, per domain, of the batch's group into the old row |
| `Stats.SummaryTables.UpdateClientStats` | pkg/storage/sqlite.go:484-559 | the same for clients, with the batch's own recount |
| `Stats.GroupHours` | pkg/storage/sqlite.go:577-617 | per hour, the recount of the batch with its sets of domains and clients |
| `Stats.SummaryTables.UpdateHourlyStats` | pkg/storage/sqlite.go:562-651 | the same for hours, the two unique counts by maximum |
| `Stats.SummaryTables.ProcessBatch` | pkg/storage/sqlite.go:397-401 | after any batch client rows equal a recount over everything processed, and domain and hour rows are what the batches fold to, in every column |
| `Stats.SummaryTables.DomainStatsWorker` | pkg/storage/sqlite.go:394-402 | the same over all batches received |
| `Stats.ClientConcat` | pkg/storage/sqlite.go:484-559 | upserting a batch's recount into a recount gives the recount of both together |
| `Stats.HourConcat` | pkg/storage/sqlite.go:562-651 | the same for hours, the sets of names included |
| `Stats.FoldDomainIsGroup` | pkg/storage/sqlite.go:424-480 | count, last_queried and blocked of the folded row equal a recount over all batches together |
| `Stats.FoldHourIsRecount` | pkg/storage/sqlite.go:562-651 | the sums of the folded hour row equal a recount over all batches together |
| `Stats.DomainConcat` | pkg/storage/sqlite.go:424-480 | the same for domains, all columns but `first_queried` |
| `Stats.ClientRecountMeans` | pkg/storage/sqlite.go:484-559 | a client's row holds the numbers of its queries, of the blocked and of the NXDOMAIN ones, and their earliest and latest times |
| `Stats.HourRecountMeans` | pkg/storage/sqlite.go:562-651 | an hour's row holds the numbers of its queries, blocked, cached and NXDOMAIN ones, and the sum of their response times |
| `Stats.HourNamesMean` | pkg/storage/sqlite.go:562-651 | the sets behind the unique counts are the domains and clients of the hour |
| `Stats.HourMeans` | pkg/storage/sqlite.go:579 | a query falls in the row of the 3600 seconds it is in |
| `Stats.DomainGroupMeans` | pkg/storage/sqlite.go:424-480 | what one batch stores for a domain: the number of its queries, the latest of their times in both time columns, the blocked flag of the first |
| `Stats.ClientRowSane` | pkg/storage/sqlite.go:484-559 | blocked and NXDOMAIN counts never exceed the total, first never exceeds last |
| `Stats.HourRowSane` | pkg/storage/sqlite.go:562-651 | blocked, cached and NXDOMAIN counts never exceed the total |
| `Stats.BatchBoundariesDoNotMatter` | pkg/storage/sqlite.go:394-402 | tables that processed the same queries agree however the batches were cut, but for first_queried and the unique counts |
| `Stats.ClientTotalsAddUp` | pkg/storage/sqlite.go:484-559 | client totals add up to the number of queries |
| `Stats.HourTotalsAddUp` | pkg/storage/sqlite.go:562-651 | hour totals add up to the number of queries |
| `Stats.TotalsAgree` | pkg/storage/sqlite.go:484-651 | in every processed state the total columns of the client and the hour table both add up to the number of queries |
| `Stats.FirstQueriedMeans` | pkg/storage/sqlite.go:424-480 | after any batches first_queried is the latest time of the domain in the first batch that holds it |
| `Stats.FirstQueriedIsFirst` | pkg/storage/sqlite.go:417-480 | it is the time of the first query if and only if that batch holds one time stamp of the domain and no later batch an earlier one |
| `Stats.FirstQueriedDependsOnBatches` | pkg/storage/sqlite.go:424-480 | so the same two queries give two values, depending on the cut |
| `Stats.UniqueIsLargest` | pkg/storage/sqlite.go:626-646 | the unique counts are the largest number of distinct names any one batch had |
| `Stats.UniqueIsLowerBound` | pkg/storage/sqlite.go:626-646 | they never exceed the true numbers, and reach them if and only if one batch held every name |
| `QueryLog.EveryRunIsSafe` | pkg/storage/sqlite.go:179-402 | in every interleaving no send hits a closed channel and no channel is closed twice |
| `QueryLog.ProducerKeeps` | pkg/storage/sqlite.go:179-222 | every step of LogQuery keeps the invariant |
| `Logging.AcceptedGrows` | pkg/storage/sqlite.go:203-221 | the accepted log grows by exactly the queries sent while the buffer has room: a send is dropped only if it is full |
| `Logging.LogQueryAccepts` | pkg/storage/sqlite.go:179-222 | from every reachable open state with room in the buffer a LogQuery call ends with its query accepted and queued, and nothing else changed |
| `Logging.LoggedIsFlushed` | pkg/storage/sqlite.go:179-299 | that query is in a flushed batch once any closing call has returned |
| `Logging.ChannelsWithinCapacity` | pkg/storage/sqlite.go:203-221 | in every reachable state neither channel holds more than its capacity |
| `QueryLog.FlushKeeps` | pkg/storage/sqlite.go:236-391 | every step of flushWorker and flushBatch keeps it |
| `Logging.TickFlushes` | pkg/storage/sqlite.go:236-299 | a tick flushes whatever the worker holds |
| `Logging.StatsAreQueued` | pkg/storage/sqlite.go:358-391 | with storage open and room in the channel a committed batch is queued for the stats worker, not processed in place |
| `QueryLog.StatsKeeps` | pkg/storage/sqlite.go:394-402 | every step of domainStatsWorker keeps it |
| `QueryLog.CloserKeeps` | pkg/storage/sqlite.go:1361-1394 | every step of any Close call keeps it |
| `QueryLog.NothingIsLost` | pkg/storage/sqlite.go:1361-1394 | when the closing call returns, accepted queries are the flushed batches in order, batches are non-empty and within BatchSize, committed batches were folded once each |
| `QueryLog.AllFlushesCommit` | pkg/storage/sqlite.go:315-391 | with storage succeeding the committed batches are the flushed ones |
| `QueryLog.FoldCounts` | pkg/storage/sqlite.go:424-480 | folding batches one by one counts each domain's queries over all of them |
| `QueryLog.OrderDoesNotMatter` | pkg/storage/sqlite.go:371-402 | the order in which batches are folded does not change the counts |
| `QueryLog.DomainStatsAreComplete` | pkg/storage/sqlite.go:236-402 | with storage succeeding `domain_stats` counts every accepted query exactly once after the closing call |
| `Closing.CloseCanFinish` | pkg/storage/sqlite.go:1361-1394 | from every reachable state in which a Close call has set the flag, some continuation lets that call return |
| `Fields.SplitJoin` | cmd/glory-hole/main.go:243 | splitting undoes joining exactly for non-empty lists of separator-free fields |
| `DomainMatch.DomainMatchesOnLabels` | pkg/policy/engine.go:451-490 | DomainMatches is the label match for all strings: label suffix, or one bare label among the labels |
| `DomainMatch.LabelSuffix` | pkg/policy/engine.go:455-468 | a label suffix is equality or a suffix after a dot |
| `DomainMatch.DomainEndsWithMeans` | pkg/policy/engine.go:493-495 | DomainEndsWith compares the end of the name letter by letter, in whatever case |
| `Upstreams.ParseUpstreams` | pkg/policy/engine.go:696-731 | blank fields skipped, one bad field an error, default port added, empty input an error |
| `Upstreams.ParsedMeans` | pkg/policy/engine.go:696-731 | refused exactly if empty or with a field that has a colon but no host or no port; otherwise the filled fields in order, each with its own port or 53 |
| `Upstreams.RoundTrip` | pkg/policy/engine.go:696-731 | parsing the joined list gives the list back if and only if it is non-empty and every entry is a comma-free, trimmed, valid host:port |
| `PolicyExpr.LogicMeansRule` | cmd/glory-hole/main.go:315-359 | the printed tokens parse with conjunction binding tighter than disjunction, evaluate without error, and mean the AND over present kinds of the OR within each |
| `PolicyExpr.EmptyLogic` | cmd/glory-hole/main.go:315-359 | nothing is printed exactly when the rule has no matchers |
| `PolicyExpr.GroupIsAtom` | cmd/glory-hole/main.go:331-335 | alternatives, bare or in parentheses, parse as one operand whatever follows |
| `PolicyExpr.FoldEvaluates` | cmd/glory-hole/main.go:331-358 | a chain of one operator evaluates to the disjunction or conjunction of its operands, short circuit included |
| `PolicyStore.PolicyStore.CreatePolicyRule` | pkg/storage/sqlite_policies.go:41-57 | stored with the next id, a duplicate name, or another error; the table changes in the first case only |
| `PolicyStore.PolicyStore.GetPolicyRules` | pkg/storage/sqlite_policies.go:11-38 | a permutation of the rows ordered by sort_order, then id |
| `PolicyStore.StartOver` | cmd/glory-hole/main.go:105-150 | starting a list of inserts over after any number of them ends where going on would have |
| `PolicyEngine.Engine.AddRule` | pkg/policy/engine.go:295-318 | appends the compiled rule exactly if its action is valid and its logic parses; the count follows |
| `PolicyEngine.AcceptedActions` | pkg/policy/engine.go:650-690 | which actions are accepted: BLOCK and ALLOW always, REDIRECT with an IP address, FORWARD with upstreams, nothing else |
| `PolicyEngine.Engine.Evaluate` | pkg/policy/engine.go:322-351 | the first enabled rule that evaluates to true; errors skip the rule |
| `PolicyEngine.Engine.RemoveRule` | pkg/policy/engine.go:354-367 | the first rule of that name is cut out of the list, the others stay in order |
| `PolicyEngine.Engine.UpdateRule` | pkg/policy/engine.go:371-398 | replaces one rule in place, or changes nothing on a bad rule or index |
| `PolicyEngine.Engine.Rebuild` | pkg/api/handlers_policy.go:89-118 | whatever the engine held, it is then as one freshly loaded from the stored rows |
| `PolicyEngine.Engine.Load` | cmd/glory-hole/main.go:828-858 | stored rows, or the YAML rules without storage, are added in order, unacceptable ones skipped |
| `ForwardMigration.Convert` | cmd/glory-hole/main.go:224-252 | skipped exactly if disabled, without matchers or without upstreams; otherwise an enabled FORWARD rule with sort_order 1100 minus the priority, 0 read as 50 |
| `ForwardMigration.MigrateConditionalForwarding` | cmd/glory-hole/main.go:198-310 | what a boot with storage leaves on disk and in memory, dying before any durable step and with any read or write failing |
| `ForwardMigration.MigrateInMemory` | cmd/glory-hole/main.go:262-310 | without storage the eligible rules are appended to the configured policies, in configuration order |
| `ForwardMigration.MigratedHolds` | cmd/glory-hole/main.go:224-281 | the table holds, with increasing ids, exactly the eligible rules whose name no earlier eligible rule has |
| `ForwardMigration.ChoiceIsPreserved` | cmd/glory-hole/main.go:224-281 | for every query the loaded engine picks the migrated matching rule whose configured priority (0 read as 50) is largest, first listed on ties, and none only if there is none |
| `ForwardMigration.UpstreamsAreRecovered` | cmd/glory-hole/main.go:243 | the upstream list comes back unchanged through join and ParseUpstreams |
| `ForwardMigration.FirstBoot` | cmd/glory-hole/main.go:224-281 | migrate, read back in order, load: the chosen rule and its upstreams are those of the enabled matching rule of highest priority, first listed on ties |
| `ForwardMigration.RestartsForward` | cmd/glory-hole/main.go:198-310 | the same after any interrupted boots, lost sentinels and restored YAML, once a boot has got through, and whatever happens later |
| `ForwardMigration.NoStorageFollowsListing` | cmd/glory-hole/main.go:262-281 | without storage the first listed usable rule wins, whatever its priority |
| `ForwardMigration.NoStorageKeepsPriority` | cmd/glory-hole/main.go:262-281 | that is the choice by priority if and only if no usable rule has a higher one |
| `WhitelistMigration.EntryReads` | cmd/glory-hole/main.go:109-119 | the stored text reads as the intended tokens if and only if the entry holds no quote and no backslash |
| `WhitelistMigration.EntryAllows` | cmd/glory-hole/main.go:109-130 | the engine accepts the stored rule of such an entry as an enabled ALLOW rule that hits exactly the names the entry stands for |
| `WhitelistMigration.NameInjective` | cmd/glory-hole/main.go:109-119 | distinct entries get distinct names |
| `WhitelistMigration.MigrateWhitelist` | cmd/glory-hole/main.go:76-183 | what a boot with storage leaves on disk and in memory, dying before any durable step and with any read or write failing |
| `WhitelistMigration.MigrateWhitelistInMemory` | cmd/glory-hole/main.go:140-183 | without storage every entry's rule is appended to the configured policies |
| `MigrationRuns.InsertWork` | cmd/glory-hole/main.go:105-150 | the insert loop of both migrations: exactly the inserts reached and not failing take effect |
| `MigrationRuns.Confluence` | cmd/glory-hole/main.go:76-183 | both migrations: after any interrupted boots, lost sentinels and restored YAML without a failing insert, one boot through the list leaves the table of a clean boot, and nothing later changes it, not even failing inserts |
| `MigrationRuns.SameRulesIffDelivered` | cmd/glory-hole/main.go:131-138 | with inserts failing for other reasons than a duplicate, a run leaves the rules of a clean boot if and only if every insert was carried out by some boot before the sentinel or the emptied YAML stopped the migration |
| `MigrationRuns.FailedInsertIsLost` | cmd/glory-hole/main.go:136-138 | a boot that fails one insert, gets through and saves the YAML loses that rule for good |
| `WhitelistMigration.WhitelistIsPreserved` | cmd/glory-hole/main.go:76-183 | once every insert was carried out, the table read back in order and loaded decides every query: an enabled ALLOW rule if some entry stands for the name, no rule otherwise |
| `WhitelistMigration.WhitelistInMemory` | cmd/glory-hole/main.go:140-149 | the same for the rules appended without storage |
| `WhitelistMigration.NoEntryDropped` | pkg/storage/migrations.go:293-307 | with distinct entries the unique index drops none: every entry has its row |
| `CacheKey.FormatType` | pkg/cache/cache.go:359-370 | the digit loop writes the decimal notation and stays in its five bytes |
| `CacheKey.CacheKey` | pkg/cache/cache.go:358-378 | name, type and flags in the documented format |
| `CacheKey.KeyFormat` | pkg/cache/cache.go:356-378 | name, colon, the type in decimal without leading zero, `:D` and `:C` for the flags |
| `CacheKey.KeyInjective` | pkg/cache/cache.go:358-378 | equal keys mean equal name, type, DO and CD bits, even for names with colons |
| `Cache.EvictLRU` | pkg/cache/cache.go:419-465 | removes one entry, least recently used among at most five sampled ones |
| `Cache.Insert` | pkg/cache/cache.go:199-219 | evict if full, insert; size within the limit; the gauge moves by the real change |
| `Cache.LookupRefreshesOrDrops` | pkg/cache/cache.go:146-168 | after a lookup an entry is there only if it has not expired, and then it has just been used |
| `Cache.DetermineTTL` | pkg/cache/cache.go:381-412 | negative TTL, or the clamped minimum of the TTLs since the last zero |
| `Cache.ScanIsMinimum` | pkg/cache/cache.go:388-399 | the loop finds the minimum if and only if no zero TTL is followed by another |
| `Cache.PlainCache.GetWithTrace` | pkg/cache/cache.go:124-169 | hit, miss or lazy expiry, with both size counters kept exact |
| `Cache.PlainCache.Store` | pkg/cache/cache.go:199-219 | the part the three setters share: evict if full, store, both size counters kept exact |
| `Cache.PlainCache.SetWithTrace` | pkg/cache/cache.go:172-281 | Set and SetWithTrace store with the TTL determined from the response, or nothing if it is not positive |
| `Cache.PlainCache.SetBlocked` | pkg/cache/cache.go:284-339 | stores with the configured blocked TTL |
| `Cache.PlainCache.Cleanup` | pkg/cache/cache.go:486-511 | exactly the expired entries go, both counters stay exact |
| `Cache.PlainCache.Clear` | pkg/cache/cache.go:543-579 | everything goes, both counters are zero |
| `Cache.SubMapKept` | pkg/cache/cache.go:124-339 | every operation keeps the cache a sub-map of the ideal one, expiry and last use included, and a hit is the ideal answer |
| `Cache.CompleteKept` | pkg/cache/cache.go:124-339 | while not full, nothing the ideal cache would answer is missing |
| `Cache.SizeKept` | pkg/cache/cache.go:199-219 | every operation keeps the size within the limit |
| `Cache.PlainRunIsSound` | pkg/cache/cache.go:124-579 | over every run every hit is the ideal answer and the size stays within the limit |
| `Cache.PlainRunIsExact` | pkg/cache/cache.go:124-579 | over every run that never fills the cache all answers are the ideal ones |
| `ShardedCache.PerShard` | pkg/cache/sharded_cache.go:84-88 | the even share of the configured size but at least ten, so together at most the larger of that size and ten per shard |
| `ShardedCache.ShardedCache.GetWithTrace` | pkg/cache/sharded_cache.go:138-181 | the plain lookup on the key's shard, gauge exact |
| `ShardedCache.ShardedCache.Store` | pkg/cache/sharded_cache.go:205-229 | the plain store on the key's shard, gauge exact |
| `ShardedCache.ShardedCache.SetWithTrace` | pkg/cache/sharded_cache.go:184-272 | Set and SetWithTrace do so with the TTL determined from the response |
| `ShardedCache.ShardedCache.SetBlocked` | pkg/cache/sharded_cache.go:275-320 | SetBlocked does so with the configured blocked TTL |
| `ShardedCache.ShardedCache.Cleanup` | pkg/cache/sharded_cache.go:487-536 | exactly the expired entries of all shards go, the gauge moves once by their number |
| `ShardedCache.ShardedCache.Clear` | pkg/cache/sharded_cache.go:400-439 | all shards are empty, gauge zero |
| `ShardedCache.PlacementKept` | pkg/cache/sharded_cache.go:125-372 | every key lives only in its hash shard and no shard exceeds its limit |
| `ShardedCache.ShardsSubKept` | pkg/cache/sharded_cache.go:138-372 | every operation keeps the shards together a sub-map of the ideal cache |
| `ShardedCache.ShardRunIsSound` | pkg/cache/sharded_cache.go:125-536 | over every run every hit is the ideal answer, placement and limits hold |
| `ShardedCache.ShardRunIsExact` | pkg/cache/sharded_cache.go:125-536 | over every run that never fills a shard all answers are the ideal ones |
| `ShardedCache.PlainAndShardedAgree` | pkg/cache/sharded_cache.go:125-536 | with no capacity reached plain and sharded cache answer identically |
| `ShardedCache.CapacityBound` | pkg/cache/sharded_cache.go:84-107 | the whole cache never exceeds max(MaxEntries, 10 * shardCount) |
| `Breaker.CircuitBreaker.Call` | pkg/forwarder/circuit_breaker.go:74-115 | refused exactly while open and within the timeout; counters keep representing the history |
| `Breaker.CircuitBreaker.OnFailure` | pkg/forwarder/circuit_breaker.go:118-141 | the counters after a failure |
| `Breaker.CircuitBreaker.OnSuccess` | pkg/forwarder/circuit_breaker.go:144-156 | the counters after a success |
| `Breaker.CircuitBreaker.Reset` | pkg/forwarder/circuit_breaker.go:174-179 | the breaker stands for an empty history again |
| `Breaker.CallRefinesHistory` | pkg/forwarder/circuit_breaker.go:74-156 | every call keeps state, counters and time stamps a representation of the call history |
| `Breaker.PhaseIsHysteresis` | pkg/forwarder/circuit_breaker.go:74-156 | the state, from outcomes alone: not closed exactly if failureThreshold failures in a row have happened and never since successThreshold successes in a row; then open exactly after a failure |
| `Breaker.OpensOnThreshold` | pkg/forwarder/circuit_breaker.go:124-131 | a closed breaker opens exactly on the threshold-th consecutive failure (the first one for thresholds below one) |
| `Breaker.ClosesOnThreshold` | pkg/forwarder/circuit_breaker.go:133-156 | it closes exactly on the threshold-th success in a row, with no failure counted; one failure reopens it |
| `Breaker.NothingRunsWhileOpen` | pkg/forwarder/circuit_breaker.go:79-93 | whatever begins within the timeout after an opening is refused |
| `BreakerConcurrent.CounterExactIffQuiet` | pkg/forwarder/circuit_breaker.go:84-98 | in every run the half-open counter is the number of counted calls in flight in all states if and only if none is in flight whenever a half-open period begins |
| `BreakerConcurrent.AdmitsIffRoom` | pkg/forwarder/circuit_breaker.go:95-103 | while the counter is right a half-open breaker admits a call exactly if fewer than three counted ones are in flight |
| `BreakerConcurrent.StartKeepsInv` | pkg/forwarder/circuit_breaker.go:76-103 | an admission keeps the invariant of overlapping calls |
| `BreakerConcurrent.EndKeepsInv` | pkg/forwarder/circuit_breaker.go:97-141 | a completion keeps it |
| `BreakerConcurrent.QuietIsBounded` | pkg/forwarder/circuit_breaker.go:76-115 | in every state of such a run at most halfOpenMax + 1 calls of one half-open period are in flight |
| `BreakerConcurrent.HalfOpenIsBounded` | pkg/forwarder/circuit_breaker.go:76-115 | both hold in every reachable state if no request outlives the timeout |
| `BreakerConcurrent.BriefIsBounded` | pkg/forwarder/circuit_breaker.go:144-156 | with a success threshold of at most one the bound holds in every run, whatever the requests do |
| `BreakerConcurrent.NoisyBreaksBound` | pkg/forwarder/circuit_breaker.go:84-103 | with a larger threshold every half-open period that begins with a counted call in flight can be continued past the bound |
| `BreakerConcurrent.BoundFailsForSlowRequests` | pkg/forwarder/circuit_breaker.go:76-115 | such a beginning is reachable: a request that outlives its period |
| `RateLimit.RateLimiter.Request` | pkg/api/middleware_ratelimit.go:36-67 | clean lazily, replenish, cap, take a token if there is one |
| `RateLimit.RateLimiter.Cleanup` | pkg/api/middleware_ratelimit.go:70-88 | exactly the buckets idle for over five minutes go |
| `RateLimit.EvictionUnobservable` | pkg/api/middleware_ratelimit.go:36-88 | dropping idle buckets changes no decision of any run if a bucket refills while idle |
| `RateLimit.IdealBound` | pkg/api/middleware_ratelimit.go:53-66 | from any state a client gets at most its burst plus seconds times rate |
| `RateLimit.RateBound` | pkg/api/middleware_ratelimit.go:36-88 | over any stretch of any run a client is allowed at most burst plus the seconds of the stretch times the rate |
| `RateLimit.EmptyBucketRefills` | pkg/api/middleware_ratelimit.go:53-66 | and no less: from an empty bucket n requests are allowed after a while exactly if n is within the burst and within those seconds times the rate |
| `RateLimit.NewClientGetsBurst` | pkg/api/middleware_ratelimit.go:44-66 | a new client gets exactly its burst |
| `RateLimit.ConfiguredLimitersRefill` | pkg/api/middleware_ratelimit.go:93-96 | both configured limiters refill while idle |
| `RateLimit.BoundFailsWithoutRefill` | pkg/api/middleware_ratelimit.go:69-88 | for every limiter that does not, two bursts break the bound |
| `LocalRecords.FollowChain` | pkg/localrecords/records.go:434-473 | the walk with its visited set succeeds exactly when the plain chain ends in fewer hops than the bound at a name with an address, with the least TTL on the path |
| `LocalRecords.ResolveCname` | pkg/localrecords/records.go:428-474 | the same for a table, the default bound being ten |
| `LocalRecords.LookupCnameMeans` | pkg/localrecords/records.go:171-194 | the first enabled exact CNAME, or else the first enabled matching wildcard, or none |
| `LocalRecords.LookupIPsMeans` | pkg/localrecords/records.go:138-168 | a name with exact records answers from the enabled ones of the type alone, any other from the first enabled matching wildcard |
| `LocalRecords.AddressPrefersIPv4` | pkg/localrecords/records.go:453-466 | IPv6 addresses only if there is no IPv4 address |
| `LocalRecords.WildcardMeans` | pkg/localrecords/util.go:23-49 | `*.suffix` matches the suffix with something in front of it in which only the last character may be a dot |
| `LocalRecords.ClosedNeverEnds` | pkg/localrecords/records.go:438-442 | a chain that comes back to a visited name never ends, so the check refuses nothing that would resolve |

## Left out

- Network, HTTP, TLS, telemetry, the dashboard, Unbound, dnstap and file watching: I/O and library wrappers.
- `extractDomain` (pkg/blocklist/blocklist.go:228-286) and the pattern matcher: parameters, so which names a line or a pattern stands for is not modelled.
- The FNV-1a hash of the sharded cache is an arbitrary function, so how evenly it spreads keys is not modelled.
- Floating-point rounding in the rate limiter: tokens are real numbers.
- Case mapping and white space outside ASCII.
- Hit, miss, set and eviction counters of the caches, and the deep copies of messages.
- PlainCache.constructor: does not model the error returns of `New` for a nil configuration or a non-positive size; the constructor requires a positive size, and so does ShardedCache.constructor.
- Races inside one cache lookup, one breaker step or the limiter's concurrent cleanup: operations are atomic as stated in each module.
- The parallel shard cleanup is a sequential pass; shards do not share state.
- DomainConcat: leaves out `first_queried`, whose value after any batches is stated by `FirstQueriedMeans` and `FirstQueriedIsFirst`.
- BatchBoundariesDoNotMatter: leaves out `first_queried` and the two unique counts, which do depend on the batches.
- Client and hour tables on the synchronous fallback of `flushBatch`: only `domain_stats` is updated there.
- `LogUnboundQuery`, which releases the lock before sending, and the Unbound flush worker.
- Writer preference of the read-write lock: the model allows every interleaving the lock's exclusion allows.
- SQL, YAML and expr-lang syntax: forwarding rules are printed and parsed as tokens, quoting a literal and reading it back being the identity; whitelist rules are read from text by a lexer in which a backslash is an error.
- Regex-looking forwarding domains become `DomainMatches` calls, as in the code; their intended meaning as a regular expression is not modelled.
- Ids after failing inserts: `SameRulesIffDelivered` compares rules, and a rule inserted by a later boot gets a later id, which decides ties of sort_order.
- A YAML rule has no sort_order of its own; in the paths without storage the model keeps the one it computed, and nothing reads it.
- The first-boot seeding of the policy table from YAML rules, and the policy API but for the engine rebuild; `Engine.Clear`, which the program does not call.
- Recovery of an open upstream through `Forward`: only `Call` is modelled.
- Record scans inside one local lookup are recursive functions instead of loops; adding and removing records is not modelled.
- MX, SRV and the other record types, and their sorting.
