# Netspy: a verified model of its bookkeeping

Netspy is a crawler framework. What makes it hard is not the crawling but the bookkeeping that
has to survive failures: tasks leased from Redis by nodes that crash, data that may be
acknowledged only after it has been persisted, duplicate filters that must agree across nodes,
rate limits shared by processes, and bounded caches that depend on each other.

This project models those parts in Dafny and proves what they promise, over every run.

| component | files | main results |
|---|---|---|
| Session caches | `SessionCache`, `SessionSharing`, `SessionThreads`, `SessionRetention` | exactly when every live shard of a proxy keeps its cached jar, for calls one after the other and for threads whose calls overlap; no client leaks |
| Layered Bloom filters | `BloomSpec`, `BloomFilters`, `BloomStack`, `BloomRedis`, `BloomRefinement` | the counter-derived Redis filter refines the in-memory stack; no false negatives; any number of nodes act as one filter |
| Leased task queue | `TaskQueue`, `LeaseProtocol`, `LeaseRuns`, `Shutdown` | exactly when a task is lost, when it is in two places, how often a node must renew, and when a shutdown may stop anywhere |
| Request buffer | `RequestBuffer`, `RequestHistory` | conservation, at-most-once enqueueing, a witness for every drop, under overlapping flushes and failing calls |
| Item pipeline | `ItemBuffer`, `ItemOverlap`, `ItemOnce`, `ItemSinks`, `ItemFlush`, `PersistHooks` | overlapping flushes settle what they complete, record only what was written and count every item once; hooks are never stranded |
| Acknowledgement | `AckPipeline`, `AckProgress`, `EndToEnd` | acknowledged means settled, on any nodes with crashes; with the queue: a task leaves Redis only after what it put has been settled |
| Throttles and breaker | `GlobalThrottle`, `LocalThrottle` | spacing of starts despite rounding; key expiry is unobservable; penalties hold everybody back |
| Proxy pool | `ProxyBans`, `ProxyPool` | bans double, pruning is invisible, round robin, bounded use per stay |
| Retry budget | `RetryBudget` | every attempt of a worker is counted once; no chain outruns its budget |
| Batch master | `MonitorLock`, `BatchStore`, `BatchMonitor` | one master if and only if identities are distinct, a punctual master never loses the lock, settled tasks stay settled, claims are spaced |

Objects whose methods change fields are classes with the same fields; each method is tied to a
function of the old state, and the theorems are about those functions. Protocols between
processes are state machines whose steps are the atomic sections of the code: a Lua script, one
Redis command, or one critical section. Calls that may raise take their outcome from a
parameter, so every theorem holds for every pattern of failures. Clocks, random factors and
hash functions are parameters about which nothing is assumed except what a lemma states.

Where a promise of the code holds only under a condition, the condition is exact: an
if-and-only-if, with the failing half built as a run from the initial state
(`SharedIffProxiesFit`, `SequentialSharedIff`, `EachIsServedIff`, `NeverLostIff`,
`NeverInTwoPlacesIff`, `KeepsItsTasksIff`, `StoppingIsSafeIff`, `AckedMeansSettledIff`,
`StaysInBudgetIff`, `OneMasterIffDistinctIds`), or a lemma that shows what happens without it
(`CheckThenRegisterStrands`, `TwoMillisecondsAreNeeded`, `PruningShowsAtTimeZero`).

Where code and comments disagree the model follows the code. The comment at
`netspy/core/redis_scheduler.py:289-295` speaks of everything a node holds; a renewal covers what
`held_requests` lists, and a task between the take and that list is not in it. The lease
theorem therefore counts the hand-over time, and the time from the look at the list to the script. `Collector.done` asks nobody whether the request is
still in progress, so an acknowledgement may come again; `NeverLostIff` says when that loses a
task.

## Model

| member | source | states |
|---|---|---|
| SessionCache.ProxyClientCache.GetOrCreate | netspy/network/downloader/_common.py:189-220 | a hit moves the entry to the newest end, a miss stores the new object and keeps the newest entries up to the capacity; exactly what left the cache is handed back for closing, oldest first |
| SessionCache.HttpxDownloader.SessionClient | netspy/network/downloader/_httpx.py:135-157 | touches the jar, then the client, with one capacity; closes what was evicted |
| SessionCache.KeyCollision | netspy/network/downloader/_httpx.py:142 | two shard keys are equal if and only if index and proxy agree, or the direct connection meets a proxy named "None" |
| SessionRetention.ConfiguredProxiesAreKept | netspy/network/downloader/_httpx.py:143-157 | after any run of calls over at most max(1, SESSION_CACHE_SIZE) proxies nothing has been closed, and every client and jar ever built is still cached |
| SessionRetention.OneKeyMoreEvicts | netspy/network/downloader/_httpx.py:143-157 | a run that asks for more distinct client keys than max(1, SESSION_CACHE_SIZE) times the shards has closed a client |
| SessionSharing.CoversTrim | netspy/network/downloader/_common.py:214-219 | evicting from both caches down to one common capacity keeps the order relation between jars and clients |
| SessionSharing.NoClientLeaks | netspy/network/downloader/_httpx.py:153-156 | after any run, every client ever built is cached or closed, never both |
| SessionThreads.SharedIffProxiesFit | netspy/network/downloader/_httpx.py:114-157 | over every interleaving of the jar and client phases of any threads, each cached client's jar is the cached jar of its proxy whenever no call is open, if and only if at most as many proxies are in use as the caches have room for |
| SessionThreads.SequentialSharedIff | netspy/network/downloader/_httpx.py:141-157 | over every run of calls one after the other the same holds if and only if there is one shard, or not both the direct connection and a proxy named "None" are in use, or every proxy has room |
| SessionThreads.LiveShardsShareOneJar | netspy/network/downloader/_httpx.py:114-157 | under that exact condition, after any run of calls all cached clients of a proxy carry one jar, which is the cached one |
| SessionThreads.EachIsServedIff | netspy/network/downloader/_httpx.py:142-157 | in every run of calls one after the other each call is answered with a client of the proxy it asked for, if and only if there is one shard or not both the direct connection and a proxy named "None" are in use |
| BloomFilters.MemoryBloomFilter.Add | netspy/dedup/bloom_filter.py:84-98 | answers new if and only if some bit of the key was clear; the bits become the union; count and saturation warning follow |
| BloomFilters.ErrorRatesConverge | netspy/dedup/bloom_filter.py:110-119 | the error rates of any number of layers add up to less than error_rate / (1 - ratio) |
| BloomFilters.PositionsWalk | netspy/dedup/bloom_filter.py:43-48 | the first position of a key is its md5 number modulo the size, and each next one is the odd sha1 number further round |
| BloomFilters.PositionsAreDistinct | netspy/dedup/bloom_filter.py:43-48 | when the size is a power of two, the first `size` positions of a key are pairwise different |
| BloomFilters.OneHashTellsResidues | netspy/dedup/bloom_filter.py:43-48 | with one hash a key is taken for another exactly when their md5 numbers agree modulo the size |
| BloomFilters.LayersGrow | netspy/dedup/bloom_filter.py:110-119 | the first layer has the configured capacity, and each next one is the growth factor larger up to rounding |
| BloomStack.ScalableBloomFilter.Add | netspy/dedup/bloom_filter.py:186-204 | the list of layer objects with its bit arrays behaves as the abstract stack |
| BloomStack.ScalableBloomFilter.Contains | netspy/dedup/bloom_filter.py:206-208 | present if and only if some layer holds all bits of the key |
| BloomSpec.StackAddShaped | netspy/dedup/bloom_filter.py:186-204 | after every add all layers below the top hold exactly their capacity, there are never more than max_layers, and the warning is up if and only if the total exceeds the total capacity |
| BloomRedis.RedisBits.AddScript | netspy/dedup/redis_filter.py:53-81 | the script finds the top layer from the counter, tests all layers up to it, and writes bits and counter only for a new key |
| BloomRedis.RedisBloomFilter.constructor | netspy/dedup/redis_filter.py:96-131 | the cumulative capacities the script receives are the sums of the layer capacities |
| BloomRedis.RedisBloomFilter.Add | netspy/dedup/redis_filter.py:152-170 | one call performs one add on the shared state as this node sees it |
| BloomRedis.RedisBloomFilter.Contains | netspy/dedup/redis_filter.py:172-183 | reads every layer, also those above the current top |
| BloomRefinement.TopIsGrownTop | netspy/dedup/redis_filter.py:66-70 | the layer the counter selects is the layer the stack writes, also at the add at which the stack grows |
| BloomRefinement.AddRefines | netspy/dedup/redis_filter.py:53-81 | from related states one add gives the same answer, related states, and the same saturation warning |
| BloomRefinement.RunRefines | netspy/dedup/redis_filter.py:119-131 | for every add sequence both filters give the same answers and hold the same bits and count |
| BloomRefinement.ContainsRefines | netspy/dedup/redis_filter.py:172-183 | membership in Redis, which reads all layers, equals membership in the stack, which reads the grown ones |
| BloomRefinement.CountIsFreshAnswers | netspy/dedup/bloom_filter.py:183-204 | the count is the number of fresh answers, and both filters exceed their capacity at the same add |
| BloomRefinement.NoFalseNegatives | netspy/dedup/bloom_filter.py:206-208 | every key ever added is found by both filters from then on |
| BloomRefinement.FreshImpliesExactFresh | netspy/dedup/lite_filter.py:16-26 | whatever a Bloom filter calls fresh was not added before: it over-approximates the exact filter |
| BloomRefinement.NodesShareOneFilter | netspy/dedup/redis_filter.py:161-170 | any interleaving of adds by any nodes gives the answers, bits and count of one node adding the same keys |
| BloomRefinement.NodesActAsOneFilter | netspy/dedup/redis_filter.py:161-170 | together the nodes answer like one in-memory filter |
| TaskQueue.RedisTaskQueue.TakeScript | netspy/core/task_queue.py:102-127 | pops the lowest scores and, with a lease, records the deadline of exactly the popped members in the same step |
| TaskQueue.RedisTaskQueue.RenewScript | netspy/core/task_queue.py:63-73 | moves the deadline of members that are in flight, adds none, and returns how many it changed |
| TaskQueue.RedisTaskQueue.ReclaimScript | netspy/core/task_queue.py:80-90 | moves the earliest expired members, up to the limit, back to the head of the queue |
| TaskQueue.ReclaimedGoFirst | netspy/core/task_queue.py:80-90 | a take that takes a member with a positive score takes every reclaimed one too |
| LeaseProtocol.QueueScores | netspy/core/task_queue.py:136-138 | a put gives its own score, a reclaimed member score zero, and nobody else's score changes |
| LeaseProtocol.NeverLostIff | netspy/core/task_queue.py:63-127 | in every interleaving of any nodes, with crashes anywhere and acknowledgements repeated, a member ever put is at every moment queued, in flight, acknowledged since its last put, or in an unfinished blocking pop, if and only if no delivery older than its last put acknowledges it while it is in flight only |
| LeaseProtocol.NeverLost | netspy/core/collector.py:44-54 | the member is never lost if no put of it falls between a delivery and an acknowledgement by that delivery |
| LeaseProtocol.PutOnceNeverLost | netspy/core/task_queue.py:136-187 | a member put only once is never lost, however often it is delivered and acknowledged |
| LeaseRuns.SecondAckLosesTheTask | netspy/core/collector.py:44-54 | a run from the initial state in which a second acknowledgement removes another node's lease and the member is recorded nowhere |
| LeaseProtocol.NeverInTwoPlacesIff | netspy/core/task_queue.py:136-187 | in every run queue, in-flight set and blocking pops are disjoint on a member at every moment if and only if it is never put while in flight or being popped |
| LeaseProtocol.LeasesAreExact | netspy/core/task_queue.py:140-165 | at every moment a lease runs out exactly one lease after it was last written |
| LeaseProtocol.WhoWritesLeases | netspy/core/task_queue.py:225-251 | only a take, a recorded pop or the renewal of what a live node held when it looked writes a lease; renewing adds no member |
| LeaseProtocol.ReclaimReturnsExactlyTheExpired | netspy/core/task_queue.py:198-223 | a reclaim takes only members whose lease was last written a lease ago or longer, and all of them if its limit allows |
| LeaseProtocol.CrashedNodesTasksComeBack | netspy/core/task_queue.py:198-223 | from one lease after a crash on, a reclaim whose limit suffices returns every member that no node has a delivery of or is about to renew |
| LeaseProtocol.RenewingNodeKeepsItsTasks | netspy/core/redis_scheduler.py:289-300 | if the gap between two looks at the held list, the hand-over time and the renewal latency together are below the lease, no reclaim takes a task the node holds or is receiving |
| LeaseRuns.KeepsItsTasksIff | netspy/core/redis_scheduler.py:86-95 | a node that looks at its list within `gap`, renews within `latency` of each look and lists what it takes within `delay` keeps its tasks in every run if and only if gap + delay + min(latency, gap) is below the lease |
| Shutdown.PushBack | netspy/core/redis_scheduler.py:481-505 | puts and acknowledges in order up to the first failing put, swallowing failed acknowledgements; each pushed request is queued at its own priority and no other score changes; with working dumps, pushed prefix and dumped suffix are the drained list |
| Shutdown.StoppingIsSafeIff | netspy/core/redis_scheduler.py:485-495 | whatever Redis holds and whichever acknowledgements fail, stopping between two requests or between put and acknowledgement keeps every drained leased request queued or in flight, if and only if a token leased to two drained requests is covered by an earlier put |
| Shutdown.AckBeforePutLoses | netspy/core/redis_scheduler.py:491-494 | in the opposite order a stop in between loses the request |
| RequestBuffer.RequestBuffer.Flush | netspy/buffer/request_buffer.py:65-112 | a flush under any failures is a run of the atomic steps; on a failure the rest of the batch is back in front of the pending list and nothing is missing |
| RequestHistory.NothingIsLost | netspy/buffer/request_buffer.py:45-118 | after any history with overlapping flushes and drains, each put is counted once among pending, in a flush, enqueued, dropped and drained |
| RequestHistory.EnqueuedAtMostOnce | netspy/buffer/request_buffer.py:80-97 | each fingerprint is enqueued at most once by requests put with deduplication on |
| RequestHistory.HistoryIsWitnessed | netspy/buffer/request_buffer.py:80-112 | every recorded fingerprint belongs to a request that was enqueued, or that waits or was drained without being deduplicated again |
| RequestHistory.DroppedHasWitness | netspy/buffer/request_buffer.py:88-90 | every dropped request has such a witness with the same fingerprint |
| RequestHistory.NeverDroppedByItself | netspy/buffer/request_buffer.py:76-112 | no request is dropped for the fingerprint it recorded itself, however often enqueueing it fails |
| RequestHistory.RetryIsNeverSwallowed | netspy/buffer/request_buffer.py:51-54 | a request put without deduplication is never dropped: after any history it is pending, in a flush, enqueued or drained, once |
| RequestHistory.OrderIsKept | netspy/buffer/request_buffer.py:99-112 | with flushes one after the other, whatever fails, what is enqueued and what still waits stays in the order of the puts |
| ItemBuffer.InsertFlat | netspy/buffer/item_buffer.py:231 | grouping adds exactly the one row |
| ItemBuffer.InsertGrouped | netspy/buffer/item_buffer.py:231-233 | every group holds rows of one key, and no key has two groups |
| ItemOverlap.CompletedFlushIsSettled | netspy/buffer/item_buffer.py:210-264 | however the lookups, writes, records and dumps of any flushes interleave and fail, every item of a completed flush is written or dumped, or a duplicate of a row written before or dumped by the same flush, and the filter holds fingerprints of rows that every pipeline of their group accepted |
| ItemOverlap.CountersAddUp | netspy/buffer/item_buffer.py:210-264 | at every moment item + item_failed + item_dedup_dropped is what the flushes have dropped, written and dumped so far |
| ItemOverlap.CountersCountItems | netspy/buffer/item_buffer.py:210-264 | the sum lies between the items of completed and of all flushes, and is their number when every flush has completed |
| ItemOnce.EachCounterCounts | netspy/buffer/item_buffer.py:228-242 | at every moment item is the number of written rows, item_failed of dumped rows, item_dedup_dropped of duplicates |
| ItemOnce.RecordedIsDropped | netspy/buffer/item_buffer.py:217-231 | a row whose fingerprint a working lookup finds recorded joins no group, so its flush never writes or dumps it, and counts as one duplicate |
| ItemOnce.WrittenAtMostOnce | netspy/buffer/item_buffer.py:210-252 | with working lookups and records and flushes one after the other, no two written rows carry the same fingerprint, whatever else fails |
| ItemSinks.ItemSink.GroupBatch | netspy/buffer/item_buffer.py:215-231 | the grouping loop is a run of lookup steps and leaves well-formed groups |
| ItemSinks.ItemSink.SaveGroup | netspy/buffer/item_buffer.py:233-259 | saving a group is a run of load, write, record and dump steps: all its rows are written, or all dumped, or the call raises and nothing changes |
| ItemSinks.AcceptedByEveryPipeline | netspy/buffer/item_buffer.py:236-242 | a group counts as written only after each of its pipelines, one after the other, has accepted it |
| ItemSinks.ItemSink.Persist | netspy/buffer/item_buffer.py:210-264 | persisting a batch is one flush of the overlapping machine from beginning to end; a completed batch has every item counted once and settled |
| ItemFlush.Collector.PopBuffered | netspy/core/collector.py:28-42 | hands out the first buffered request without letting go of any held one; what the queue gives is held only after its own critical sections |
| ItemFlush.Buffer.AfterPersistIfPending | netspy/buffer/item_buffer.py:113-125 | registers the hook if and only if the owner still has a pending item |
| ItemFlush.Buffer.Flush | netspy/buffer/item_buffer.py:167-189 | when persisting raises nobody is acknowledged and no hook runs; otherwise the batch is settled and exactly its owners are acknowledged, in order, and their hooks run |
| ItemFlush.OwnersOfExact | netspy/buffer/item_buffer.py:175 | the owners of a batch are collected once each, and none is missed |
| ItemFlush.HooksOfExact | netspy/buffer/item_buffer.py:191-208 | acknowledging runs exactly the hooks registered for the owners, those of one owner in order |
| AckPipeline.RunInvariant | netspy/core/parser_control.py:74-96 | in every run of any nodes: a request is in progress until its first acknowledgement, and each acknowledgement has its reason |
| AckPipeline.WorkerAcksOnlyItemless | netspy/core/parser_control.py:94-95 | a worker acknowledges only requests that have put no item and that no worker is processing any more |
| AckPipeline.DeferredStaysHeld | netspy/core/parser_control.py:225-237 | a request that put an item stays in progress until a completed flush that carried one of its items acknowledges it |
| AckProgress.NobodyIsForgotten | netspy/core/parser_control.py:74-96 | in every run a request started and not yet acknowledged is being processed, waits for its worker's acknowledgement, or has a row in a buffer or in a flush that will acknowledge it on completion |
| AckPipeline.AckImpliesSettled | netspy/buffer/item_buffer.py:181-189 | if all rows of a request travel in one batch, then once it is acknowledged every row is written or dumped, or a duplicate of a row written before or dumped with it |
| AckPipeline.FlushBetweenItemsAcksEarly | netspy/buffer/item_buffer.py:167-189 | a run from the initial state in which a request that puts two items is acknowledged while the second waits in the buffer, carried by no flush, neither written nor dumped |
| AckPipeline.AckedMeansSettledIff | netspy/buffer/item_buffer.py:167-189 | in every run an acknowledged request that puts only rows of a given set has each of them settled in a flush that carried it, if and only if the set has at most one row |
| EndToEnd.TasksAreAccountedFor | netspy/core/parser_control.py:74-96 | queue and pipeline together, any nodes, crashes anywhere: a task ever put is queued, in flight, in an unfinished pop, or was acknowledged by a delivery later than its last put after every row of that delivery was settled in a flush that carried it, if nothing harmful acknowledges it and no acknowledged request is spread over two batches |
| EndToEnd.TasksPutOnceAreAccountedFor | netspy/core/task_queue.py:136-260 | the same for a task put once, with no hypothesis about acknowledgements |
| EndToEnd.OneRowTasksAreAccountedFor | netspy/buffer/item_buffer.py:167-189 | the same with no hypothesis about batches, when no acknowledged request has put two rows |
| PersistHooks.NeverStranded | netspy/buffer/item_buffer.py:113-125 | while a hook is registered its owner is pending, in a flush in progress, or was in a flush that raised |
| PersistHooks.HookRunsAtMostOnce | netspy/buffer/item_buffer.py:201-208 | in every interleaving a hook runs at most once, and not while it is registered |
| PersistHooks.WhenAHookRuns | netspy/buffer/item_buffer.py:113-125 | a hook runs only when a flush reaches the owner it is registered with, or when it was refused because the owner has nothing pending |
| PersistHooks.ReachedHooksRun | netspy/buffer/item_buffer.py:201-208 | every hook registered with an owner runs when a flush reaches that owner |
| PersistHooks.CheckThenRegisterStrands | netspy/buffer/item_buffer.py:90-111 | a run from the initial state in which asking first and registering in a second step strands the hook |
| PersistHooks.StrandedStays | netspy/buffer/item_buffer.py:98-111 | a stranded hook stays registered and is not run, whatever happens short of a new item of its owner |
| GlobalThrottle.Throttle.TakeTicket | netspy/network/global_throttle.py:34-82 | one ticket on one domain; an unreachable Redis changes nothing and is reported |
| GlobalThrottle.StartsAreSpaced | netspy/network/global_throttle.py:34-47 | any two starts are apart by all delays between them, less a millisecond each and one more |
| GlobalThrottle.ConsecutiveStartsAreSpaced | netspy/network/global_throttle.py:34-47 | consecutive starts are more than the delay minus two milliseconds apart despite three roundings |
| GlobalThrottle.NotLaterThanNeeded | netspy/network/global_throttle.py:34-47 | the first ticket is free at once, and each next one no later than the delay after the one before, or at once if that is over |
| GlobalThrottle.TwoMillisecondsAreNeeded | netspy/network/global_throttle.py:43-46 | the bound cannot be tightened to one millisecond |
| GlobalThrottle.SameReservation | netspy/network/global_throttle.py:39-45 | a key with a TTL holds the value of one without, or a value of the past |
| GlobalThrottle.ExpiryIsUnobservable | netspy/network/global_throttle.py:34-47 | with and without key expiry exactly the same waits are granted |
| LocalThrottle.DomainThrottle.TakeTicket | netspy/network/throttle.py:57-89 | the wait lasts until the reserved start; only this domain's reservation moves, by the interval |
| LocalThrottle.NextNeverDecreases | netspy/network/throttle.py:78-89 | the reservation of a domain never goes back |
| LocalThrottle.StartsAreSpaced | netspy/network/throttle.py:78-89 | any two starts are apart by all intervals and penalties between them |
| LocalThrottle.StartIsExact | netspy/network/throttle.py:78-89 | a ticket starts exactly at the later of its own moment and the start before it plus that event's interval or penalty |
| LocalThrottle.IntervalCoversBoth | netspy/network/throttle.py:63-69 | without jitter the interval is the larger of the setting and the domain's own delay, with a jitter of at least one half at least half of each |
| LocalThrottle.SecondTicketWaitsOneInterval | netspy/network/throttle.py:57-89 | of two tickets of a free domain at one moment the first waits for nothing and the second exactly one interval |
| LocalThrottle.PenaltyHoldsEveryoneBack | netspy/network/throttle.py:109-126 | every later ticket starts no earlier than the end of a penalty, also with no delay configured |
| LocalThrottle.WindowHoldsFewStarts | netspy/network/throttle.py:57-89 | a window W holds at most W / d + 1 starts when every ticket's interval is at least d, whatever penalties fall between |
| LocalThrottle.CircuitBreaker.RecordFailure | netspy/network/circuit.py:73-95 | counts, trips at the threshold, starts over and penalizes only this domain |
| LocalThrottle.CountIsStreakModulo | netspy/network/circuit.py:73-85 | the count is the number of failures since the last success, modulo the threshold |
| LocalThrottle.TripsExactlyAtThreshold | netspy/network/circuit.py:67-95 | the breaker trips exactly when the failures since the last success reach a multiple of the threshold |
| ProxyBans.RunsAlike | netspy/network/proxy_pool/api.py:57-90 | a run with pruning anywhere and the same run without it leave books no later operation can tell apart |
| ProxyBans.PruningIsInvisible | netspy/network/proxy_pool/api.py:57-90 | pruning at any moments never changes whether or until when a proxy is banned, on a positive clock that does not go back |
| ProxyBans.PruningShowsAtTimeZero | netspy/network/proxy_pool/api.py:228-232 | a clock that reads zero would make pruning visible |
| ProxyBans.PruneKeepsExactlyTheLive | netspy/network/proxy_pool/api.py:78-86 | pruning keeps exactly the bans that still hold and the tallies that can still count |
| ProxyBans.CountedIsRecent | netspy/network/proxy_pool/api.py:228-234 | failures that still count were reported within the longest ban and not followed by a success |
| ProxyBans.SeriesTally | netspy/network/proxy_pool/api.py:224-234 | the tally is the number of bad reports of the unbroken series, whatever else happens in between |
| ProxyBans.BansDouble | netspy/network/proxy_pool/api.py:163-168 | the k-th bad report of an unbroken series bans both spellings of the proxy for min(base * 2^(k-1), max), or forever when the base is zero |
| ProxyBans.EachBanDoubles | netspy/network/proxy_pool/api.py:163-168 | the first ban lasts the base time and each next one twice the one before, up to the maximum |
| ProxyBans.SuspicionsTip | netspy/network/proxy_pool/api.py:207-222 | a series of suspicions tips at exactly max(1, PROXY_SUSPECT_BAN_AFTER) and not before |
| ProxyBans.ReportsForget | netspy/network/proxy_pool/api.py:192-197 | a success forgets both tallies of its proxy and no other, and leaves the bans; a bad report forgets the suspicions |
| ProxyPool.ApiProxyPool.GetProxy | netspy/network/proxy_pool/api.py:139-157 | the rotate-and-drop loop returns the first unbanned proxy in rotation order, drops the banned ones it met, moves the returned one to the end or drops it at its use limit |
| ProxyPool.ApiProxyPool.Refill | netspy/network/proxy_pool/api.py:119-123 | appends what is neither banned nor present, in order |
| ProxyPool.ApiProxyPool.PruneBooks | netspy/network/proxy_pool/api.py:57-90 | removes ended bans, stale tallies, and use counts of proxies neither in the pool nor banned |
| ProxyPool.ApiProxyPool.ReportBad | netspy/network/proxy_pool/api.py:224-240 | one more consecutive failure, a ban under both spellings, out of the pool |
| ProxyPool.ApiProxyPool.ReportSuspect | netspy/network/proxy_pool/api.py:199-222 | counts suspicion; exactly at the threshold it clears the tally and, with a clock reading of its own, reports the proxy bad |
| ProxyPool.RawOfHandedOut | netspy/network/proxy_pool/api.py:135-136 | stripping the scheme from what is handed out gives the bare proxy the pool holds |
| ProxyPool.ReportedStaysAway | netspy/network/proxy_pool/api.py:224-240 | what is reported bad as it was handed out leaves the pool, is banned, and is handed out by no later call before the ban ends, also after refills that offer it |
| ProxyPool.RefillTakes | netspy/network/proxy_pool/api.py:120-123 | what is offered and not banned when looked at is in the pool afterwards |
| ProxyPool.WornOutStartsAfresh | netspy/network/proxy_pool/api.py:87-90 | a proxy out of the pool and not banned comes back with no uses, while proxies in the pool keep their counts |
| ProxyPool.PoolStaysDuplicateFree | netspy/network/proxy_pool/api.py:120-161 | in every run the pool holds no proxy twice |
| ProxyPool.NothingLeft | netspy/network/proxy_pool/api.py:146-157 | nothing is handed out if and only if every proxy is found banned, and then the pool is empty |
| ProxyPool.UsesPerStayAreBounded | netspy/network/proxy_pool/api.py:153-155 | in every run a proxy is handed out at most max(1, PROXY_MAX_USE_TIMES) times per stay in the pool |
| ProxyPool.RoundRobin | netspy/network/proxy_pool/api.py:146-157 | until a proxy wears out, the n-th call returns live proxy n modulo k, whatever banned ones lie between them |
| RetryBudget.ParserWorker.Process | netspy/core/parser_control.py:99-167 | an attempt adds to exactly the counter of its outcome and hands a retry back with the next count and deduplication off |
| RetryBudget.ParserWorker.RetryReplacement | netspy/core/parser_control.py:273-298 | the replacing request continues the budget of the request it replaces |
| RetryBudget.SucceedsIff | netspy/core/parser_control.py:99-167 | an attempt succeeds if and only if no stage raises, a needed download is allowed and made, the response passes every check, and the callback returns |
| RetryBudget.TooLargeIsNeverRetried | netspy/core/parser_control.py:248-253 | a response that is too large fails at once, whatever budget is left |
| RetryBudget.GivingUpIsDropped | netspy/core/parser_control.py:114-129 | robots, content type, refused validation and a callback that gives up are drops |
| RetryBudget.FailureIsRetried | netspy/core/parser_control.py:240-271 | while budget is left a failed download, a retryable status, a failed validation and a raising callback are retried with one more on the count the stages left |
| RetryBudget.ResponsesDecide | netspy/core/parser_control.py:134-143 | a response middleware that asks for another request hands on the count plus one within the budget; a final status or a too long wait fails at once |
| RetryBudget.CountersByKind | netspy/core/parser_control.py:165-167 | each counter is the number of attempts of its own kind |
| RetryBudget.ParserWorker.Work | netspy/core/parser_control.py:74-96 | over any history of attempts of a worker, ok + failed + dropped + retry plus the attempts that raised without handing back a retry is the number of attempts, and every counted retry was handed back |
| RetryBudget.ChainIsBounded | netspy/core/parser_control.py:240-298 | a chain of attempts, through retries and replacements, has at most 1 + SPIDER_MAX_RETRY_TIMES attempts when no stage lowers the count |
| RetryBudget.ChainUsesWholeBudget | netspy/core/parser_control.py:240-271 | the bound is reached |
| RetryBudget.StaysInBudgetIff | netspy/core/parser_control.py:254-259 | with the other stages neutral, every chain of a fresh request stays within 1 + the limit if and only if the exception hook does not lower the count |
| MonitorLock.AtMostOneMaster | netspy/core/batch_monitor.py:166-186 | with distinct identities, at any moment of any timed run at most one monitor is within its lifetime |
| MonitorLock.OneMasterIffDistinctIds | netspy/core/batch_monitor.py:81 | this holds in every run if and only if no two monitors share an identity |
| MonitorLock.RenewSucceedsIff | netspy/core/batch_monitor.py:171-186 | a renewal succeeds if and only if it comes within the lifetime of the monitor's previous success, whatever others do |
| MonitorLock.PatrolKeepsTheLock | netspy/core/batch_monitor.py:74-112 | a master whose renewals are less than three intervals apart (work below two intervals, a wait of one) never loses the lock |
| MonitorLock.DeadMasterIsReplaced | netspy/core/batch_monitor.py:166-169 | after the last success on the lock, the next monitor that asks gets it if and only if the lifetime is over |
| MonitorLock.TtlIsTight | netspy/core/batch_monitor.py:74-80 | the lifetime is at least a minute and three intervals, and less than a second more |
| BatchStore.MemoryBatchStore.CountTasks | netspy/core/batch_store.py:179-187 | counts by state; finished if and only if there are rows and all are done or failed |
| BatchStore.MemoryBatchStore.ResetLostTasks | netspy/core/batch_store.py:195-209 | exactly the rows in progress and untouched long enough wait again; the result is their number |
| BatchStore.MemoryBatchStore.ClaimTasks | netspy/core/batch_store.py:211-224 | claims exactly the first waiting rows up to the limit, in table order, and stamps each with its own clock reading |
| BatchStore.MemoryBatchStore.MarkTask | netspy/core/batch_store.py:226-234 | sets any given state and stamps, on the first row with the id and no other |
| BatchStore.FinishedIff | netspy/core/batch_store.py:57-63 | the counters say finished if and only if the table is not empty and every row is settled |
| BatchMonitor.ClaimTakesUpToTheLimit | netspy/core/batch_store.py:217-223 | a claim returns min(waiting, max(1, limit)) rows |
| BatchMonitor.Monitor.Tick | netspy/core/batch_monitor.py:136-157 | one patrol frees, claims, pushes and counts; it closes the batch if and only if every row is settled |
| BatchMonitor.SettledStays | netspy/core/batch_store.py:195-234 | in every run of master and workers a settled task stays settled until a full reset, or a mark that is neither done nor failed |
| BatchMonitor.DoneWaitsOnlyAfterReset | netspy/core/spiders/batch_spider.py:105-131 | with marks as `update_task` makes them, a task that was done and waits again went through a full reset |
| BatchMonitor.FinishedBatchIsSettled | netspy/core/batch_monitor.py:146-157 | once the counters say finished, every task is settled, and remains so whatever workers do before the batch is closed |
| BatchMonitor.ClaimsAreSpaced | netspy/core/batch_store.py:195-224 | within a batch no task is claimed twice in less than the staleness limit |
| BatchMonitor.MarkIsKept | netspy/core/batch_store.py:226-234 | a mark sets state and stamp of the first row with the id, and nothing else |
| BatchMonitor.DoneIsNeverClaimed | netspy/core/batch_store.py:211-234 | a task marked done is never claimed again before it is reopened |
| BatchMonitor.StuckTasksWaitAgain | netspy/core/batch_store.py:195-209 | a task in progress waits again exactly when it was not touched for the staleness limit |
| BatchMonitor.WaitingTaskIsClaimed | netspy/core/batch_store.py:211-224 | a waiting task within the limit is in progress after the next claim, stamped, and handed on |
| BatchMonitor.ResetOpensAll | netspy/core/batch_store.py:189-193 | after a full reset every row waits and no stamp is left |
| BatchMonitor.CountersCountRows | netspy/core/batch_store.py:179-187 | each counter is the number of rows in its state |

## Left out

- HTTP, TLS, curl, Playwright, asyncio transport, signals and thread start or join: foreign libraries and I/O.
- The asynchronous and the curl downloader's caches: the first keeps its caches per event loop, so the order argument does not carry over; the second repeats the httpx scheme.
- SessionThreads.LiveShardsShareOneJar: calls one after the other; SharedIffProxiesFit has the condition for calls that overlap.
- Choice of the shard count and index (`shard_count`, `shard_index`): the count is a fixed parameter and the index of a call is arbitrary.
- Numeric values of `optimal_size` and `optimal_hashes`, and false-positive probabilities: only size at least 8 and at least one hash function are used.
- ScalableBloomFilter and RedisBloomFilter constructors: the refusal of bad parameters is a precondition; the two accept different parameters, and the refinement is stated for layer geometries both can have.
- TaskQueue.RedisTaskQueue.TakeScript: deadlines are exact reals, not text rounded to milliseconds, and members that cannot be decoded are not modelled.
- LeaseRuns.KeepsItsTasksIff: all nodes read one clock; skew between nodes is not modelled, and a deadline is computed at the moment its script runs.
- RequestHistory.NothingIsLost: each put is an occurrence of its own; one object that sits in the buffer twice at the same time, and so shares its flag, is not modelled.
- ItemSinks.ItemSink.Persist: the handler mode, which passes items to a user function instead of pipelines, is not modelled; a dump that fails half way counts as not done.
- ItemOverlap.CountersCountItems: a flush that raises may have added part of its items to the counters, so the exact number is stated only when every flush completes; CountersAddUp has the exact sum at every moment.
- AckPipeline.AckImpliesSettled: assumes that middleware returns the request object it was given.
- LocalThrottle.DomainThrottle.TakeTicket: the process-local mode; the path that asks Redis first is GlobalThrottle, and the per-domain semaphore is not modelled.
- GlobalThrottle.Throttle.TakeTicket: Lua numbers are exact reals, and the text form of the stored value is not modelled.
- ProxyPool.ApiProxyPool.Refill: the HTTP fetch, the parsing of its answer and the minimum interval between fetches; the list it offers is arbitrary.
- RetryBudget.ChainIsBounded: a chain follows hand-overs from attempt to retry; a second delivery of the same task after a lost lease starts another chain. What callbacks put into the buffers is in AckPipeline and RequestHistory.
- The MySQL batch store.
- BatchMonitor.Monitor.Tick: batch intervals and the age of a batch are not modelled; runs with workers in between are the lemmas beside it.
- Termination detection across nodes (`_is_done`, `_all_nodes_idle`): a heuristic over stale heartbeats, not a safety property.
- `RedisUserPool`: its construction re-adds borrowed accounts, so exclusivity is not a property it keeps.
- Pipelines' SQL, CSV, Mongo, Elasticsearch and Kafka writers, alerts, metrics, logging, command line, templates, settings: plumbing.
