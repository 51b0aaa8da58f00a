# Foundry: verified model of the agent runtime's stateful core

Dafny 4.11 proofs about the parts of the agent runtime that coordinate concurrent work, survive
crashes, hand out shared resources, cache answers and do exact arithmetic. `dafny verify
dfyconfig.toml` checks the whole project.

Code that works by changing state is modelled three times over. A *specification function* on
values says what one uninterrupted stretch of code, from one suspension point to the next, does.
A *class or loop* in the form of the source is proved equal to that function. And *lemmas over
runs* speak about every sequence of such steps, whoever takes them: a step that is not enabled
changes nothing, so a run is an arbitrary list of actions. `History` fields and parameters exist
for the statements only.

| files | what they model |
|---|---|
| `Events`, `EventLog` | `events.jsonl` byte by byte: appends, kills, the torn-tail repair, the replay |
| `Streaming`, `StreamProtocol`, `StreamDelivery` | the live run and its subscriber; every interleaving of the two; when a stream is whole |
| `SseReconnect` | the SSE wire and reconnecting by last event id (WHATWG HTML Standard, section 9.2.4) |
| `Batch`, `BatchProtocol`, `BatchTheorems` | the batch executor's items sharing limiter, cost counter, flags and counters |
| `Pool`, `PoolProtocol`, `PoolTheorems`, `PoolEvictions` | the connection pool, the calls waiting in it, evictions under way, accessors' slots |
| `Ulid` | run ids: encoding, validation, minting (ULID specification, sections "Encoding", "Sorting", "Monotonicity") |
| `Envelope` | cutting memory contributions down to the envelope cap |
| `Cosine`, `CacheKeys`, `SemanticCache`, `SemanticCacheTheorems`, `SemanticCacheRecency`, `RedisIndex` | similarity, key strings, and the two semantic cache backends |
| `RedisRace` | a store and an invalidation of the Redis backend, command by command |
| `ToolRetry`, `ToolCache` | the retry loop and the cached dispatch of tool calls |
| `Forge` | the configurator's improvement loop |
| `Multiples` | n times a cost, for the bounds on totals |
| `EvalHalt`, `Eval`, `Compare` | the cost halt of an evaluation, weighted scores, failure clusters, run comparison |

## Where the code does not do what it is said to

Each is proved: as the exact condition for the property, or with a concrete input on which it
fails, mostly both.

- `subscribe_events` promises every event from `from_sequence` on (`src/foundry/api/streaming.py:58`).
  Unless there is none, a stream that ends has them all if and only if nothing was emitted out of its
  reach: nothing since it read the disk, or only events of the LiveRun it joined, and that LiveRun was
  registered before anything else was emitted. So it skips events when the run is resumed twice while
  a client reads the replay, and ends early when the run is resumed, closes and is pruned meanwhile. A
  client that reconnects by its last event id never gets a skipped event.
- Sequence numbers survive every crash, but a kill during the repair's own rewrite
  (`src/foundry/observability/artifacts.py:80-82`) can lose persisted events.
- `docs/85-batch-and-throughput.md:311` expects the budget to hold to within one in-flight item's
  cost; the code allows `max_parallel` of them, so it does if and only if `max_parallel` is 1 (and the
  budget is not negative).
  Invariant 8 of that document (line 293), the breach event before the cancellations it causes, fails
  when the item's timeout is delivered at that send.
- An item already in the admission loop may start its run after the batch was aborted, although
  `src/foundry/api/batch.py:183-186` means to prevent such runs.
- `dispatch` says that every path emits `tool.completed` and no arbitrary exception escapes
  (`src/foundry/core/tool.py:265-267`). It emits `tool.completed` if and only if the name is allowed and
  known, the input fits its schema, no cached row answers, and no handler run is interrupted by a pause
  for approval, by a cancellation or by a connection refresh that raises. The last breaks the other
  promise too, for tools that ask for auth retries and only for those; and `evict` does raise `KeyError`
  when two evictions collide (`src/foundry/connections/pool.py:176`).
- The failure rate stops the batch once it is reached, for every policy but one whose rate is 0, which
  `stop_on_failure_rate` admits: an item cancelled before its run reaches that rate and does not trip
  the batch (`src/foundry/api/batch.py:210-217`).
- A slot got again while its connection is live leaks a permit, and one got again while its
  connection is being evicted may; a caller waiting on an evicted
  connection without permits can only time out.
- Ids sort in generation order (`src/foundry/core/types.py:36-38`) only until the 80-bit counter wraps.
- A cluster's impact is the score gained by fixing it (`src/foundry/eval/failure_clustering.py:19-20`)
  only if every case that ran is in the spec or the cluster has no deficit; and clusters keep tags and
  failing scorers apart (lines 11-16) only if no tag begins with `scorer:`.
- `threshold_met` of a forge run is false although its final score reaches the threshold when the step
  of its last turn is cut after a passing evaluation, or when nothing was scored and the threshold is 0;
  if the result files of earlier turns cannot be trusted, also when a turn without a score leaves a
  passing one standing; and only then.
- `docs/24-caching-and-optimisation.md:206` relies on `invalidate("*")` to wipe the cache. The in-process backend
  does so (`src/foundry/cache/semantic.py:231`); the Redis one takes the star for an agent's name.
- An invalidation of the Redis cache that runs among the commands of a store for the same agent can
  miss its entry: exactly when the store was not over before the invalidation read the agent's set,
  and the bucket was new to the agent or its set was deleted before the entry was added to it. If
  besides the store ended before the agent's set was deleted, no later invalidation finds the entry
  either.

## Model

| member | source | states |
|---|---|---|
| `EventLog.ReplayReturnsTheLog` | src/foundry/api/runs.py:542-562 | replaying a file that holds a numbered log, torn tail or not, returns exactly the events after the given sequence |
| `EventLog.LinesBreak` | src/foundry/api/runs.py:552 | on any file, a line ends at \n, at \r or at both together |
| `EventLog.LinesAreReadOneByOne` | src/foundry/api/runs.py:552-561 | on any lines: blank ones, ones that do not parse and events not after the given sequence are passed over, every other event is returned in order |
| `EventLog.RepairIsHarmless` | src/foundry/observability/artifacts.py:65-85 | on any bytes: the repair leaves whole lines only, changes nothing a replay returns, and a second repair changes nothing |
| `EventLog.RepairCountsEvents` | src/foundry/observability/artifacts.py:65-85 | on a file the writer produced, next_sequence returns the number of events a replay returns |
| `EventLog.NumberingSurvivesCrashes` | src/foundry/observability/artifacts.py:65-89 | over any appends, kills at any byte and restarts: the k-th whole line carries sequence k, and a running process goes on with exactly the next number on a file without a torn tail |
| `EventLog.AppendAddsOneEvent` | src/foundry/observability/artifacts.py:87-89 | in every run: a running process that appends adds exactly that event to what a replay returns, numbered next |
| `EventLog.RestartGoesOn` | src/foundry/observability/artifacts.py:65-85 | a restart numbers on from what a replay returns and loses none of it; a kill changes nothing on disk |
| `EventLog.PersistedEventsStay` | src/foundry/observability/artifacts.py:79-89 | no step loses a persisted event, except a kill inside the repair's own rewrite, and that one exactly when it comes before all whole lines are written back |
| `EventLog.RepairCanLoseEvents` | src/foundry/observability/artifacts.py:80-82 | that loss on concrete files: one event and a torn line, killed right after the file was emptied |
| `EventLog.RunArtifactWriter.NextSequence` | src/foundry/observability/artifacts.py:65-85 | returns the count and leaves the file as the specified repair of any bytes, missing and empty files included |
| `EventLog.RunArtifactWriter.RecordEvent` | src/foundry/observability/artifacts.py:87-89 | appends exactly one line holding the event |
| `Streaming.LiveRun.Sink` | src/foundry/api/runs.py:109-126 | persists and mirrors the event and puts it at the end of every subscribing queue, in one step |
| `Streaming.LiveRun.Broadcast` | src/foundry/api/runs.py:125-130 | the item goes to the end of every subscribing queue |
| `Streaming.LiveRun.Finish` | src/foundry/api/runs.py:456-457 | puts the close sentinel at the end of every queue and marks the run done, in one step |
| `Streaming.LiveRun.EventAt` | src/foundry/api/runs.py:132-136 | the mirrored event with that sequence, if the mirror holds it |
| `Streaming.RunManager.ReadArtifactEvents` | src/foundry/api/runs.py:542-562 | the logged events after a sequence, in order |
| `Streaming.Subscription.Next` | src/foundry/api/streaming.py:62-91 | one turn of the generator from any point it can be suspended at: the next yield, wait or end, and the new position |
| `Streaming.Subscription.Attach` | src/foundry/api/streaming.py:69-77 | the handover: queue registered first, then the mirror is searched |
| `Streaming.Subscription.RunCatchUp` | src/foundry/api/streaming.py:77-81 | yields from the mirror while it has the next event, ends if the run is over, else turns to the queue |
| `Streaming.Subscription.RunDrain` | src/foundry/api/streaming.py:82-89 | skips queued events already yielded, stops at the sentinel |
| `Streaming.Subscription.Leave` | src/foundry/api/streaming.py:90-91 | the queue is taken off the LiveRun |
| `StreamProtocol.DeliveredInOrder` | src/foundry/api/streaming.py:53-91 | for every interleaving of emits, closes, prunes, resumes and pulls: events are yielded in strictly rising order, each as logged, none before from_sequence |
| `StreamProtocol.GapExactlyWhenSkipped` | src/foundry/api/streaming.py:62-91 | in every state of every run what has been yielded is from_sequence, from_sequence + 1, … without a gap if and only if no handover met a LiveRun based past the subscriber's position; otherwise what is missing is exactly the stretch between the two |
| `StreamProtocol.SameLiveRunNoGap` | src/foundry/api/streaming.py:62-73 | no further LiveRun registered since the artifact was read: no gap |
| `StreamProtocol.ParkedOnlyWhileRunning` | src/foundry/api/streaming.py:80-85 | a pull waits on its queue only while the newest LiveRun is still running |
| `StreamDelivery.NoLostClose` | src/foundry/api/streaming.py:72-91 | after the close, whatever resumes, emits or prunes the run in between, each pull brings the subscriber closer to its end: a number of pulls known at the close ends the stream wherever they fall, and it has then yielded exactly the log from the start to its LiveRun's last event, less the stretch skipped on joining if there was one |
| `StreamDelivery.EndedStreams` | src/foundry/api/streaming.py:70-91 | what every ended stream has yielded, exactly: the log up to the end of the LiveRun it joined, less the stretch skipped on joining, or what was on disk when it was read |
| `StreamDelivery.WholeIffNothingOutOfReach` | src/foundry/api/streaming.py:53-91 | an ended stream has every event from from_sequence on (line 58) if and only if nothing was emitted out of its reach: nothing since the disk was read, or only events of the LiveRun it joined, registered before anything else was emitted |
| `StreamDelivery.ResumedTwiceSkips` | src/foundry/api/streaming.py:62-73 | a run resumed twice while a client still reads the replay: an event is skipped (the docstring promises every event) |
| `StreamDelivery.PrunedRunLosesItsTail` | src/foundry/api/streaming.py:69-71 | a run resumed, closed and pruned while a client still reads the replay: the stream ends early |
| `SseReconnect.SseStopsAtTerminal` | src/foundry/api/streaming.py:94-111 | the frames are the events up to and including the first terminal one |
| `SseReconnect.ServesPastBoth` | src/foundry/api/routes.py:321-343 | what is served starts right after the later of from_sequence and Last-Event-ID |
| `SseReconnect.ReconnectsExactlyOnce` | src/foundry/api/routes.py:321-343 | over any number of connections, each any run of the protocol cut at any frame and each asking for what follows the last id received: frames come in rising order, each once; the client has every event from the first one on if and only if no connection lasted past a handover that skipped, and then asks next for the first event it lacks |
| `SseReconnect.SkippedForGood` | src/foundry/api/routes.py:321-343 | an event such a handover skipped is never received, however often the client reconnects |
| `Batch.BatchExecutor.RecordItemCost` | src/foundry/api/batch.py:158-178 | adds the cost; at the first breach raises the flag and sends the frame, unless that send is cut by the item's timeout |
| `Batch.BatchExecutor.Begin` | src/foundry/api/batch.py:180-201 | from the limiter to the admission loop: skip, fast-fail or go on |
| `Batch.BatchExecutor.Refuse` | src/foundry/api/batch.py:194-201 | an item that ends without a run is counted, its frame sent, or the closed stream met |
| `Batch.BatchExecutor.AfterAdmission` | src/foundry/api/batch.py:202-229 | the end of the admission loop, in an aborted batch too: run, or cancel for drain or timeout |
| `Batch.BatchExecutor.OnEvent` | src/foundry/api/batch.py:236-250 | one event of an item's run: cost first, then the forwarded frame, then the end on a terminal event; a closed stream ends the item where it is met |
| `Batch.BatchExecutor.OnTimeout` | src/foundry/api/batch.py:251-255 | an item whose run is given up is counted as cancelled |
| `Batch.BatchExecutor.SendTimeout` | src/foundry/api/batch.py:256-275 | its frame is sent and the item completed, or the closed stream met |
| `Batch.BatchExecutor.AfterRun` | src/foundry/api/batch.py:251-275 | the outcome is counted, the item completed, the failure rate checked |
| `BatchTheorems.BreachPrecedesCancellations` | src/foundry/api/batch.py:158-201 | in every run at most one batch.budget_exceeded; it precedes every budget cancellation, if and only if its own send was not cut |
| `BatchTheorems.UnannouncedCancellation` | src/foundry/api/batch.py:170-177 | a run in which it was cut: an item is cancelled for a breach the client never hears of |
| `BatchTheorems.FewStartsAfterTrip` | src/foundry/api/batch.py:188-229 | once a flag is up at most max_parallel - 1 further runs start |
| `BatchTheorems.LateItemsNeverStart` | src/foundry/api/batch.py:188-201 | an item still queued when a flag goes up never starts a run; unless the batch is aborted it can only end as a synthetic cancel |
| `BatchTheorems.Conservation` | src/foundry/api/batch.py:180-275 | in every state: at most max_parallel runs in flight, every permit free or held, outcomes counted ahead of completed_items by exactly the items between their two counts, one terminal frame per finished item and none for others |
| `BatchTheorems.UndisturbedEnd` | src/foundry/api/batch.py:297-336 | an undisturbed batch ends with succeeded + failed + cancelled = completed_items = items, one terminal frame each, all permits back |
| `BatchTheorems.TripsWhenTheRateIsReached` | src/foundry/api/batch.py:98-102 | for every policy: in all runs the failure flag is up just when its one frame was sent, and down only below the rate, if and only if the rate is unset or positive |
| `BatchTheorems.TripPrecedesCancellations` | src/foundry/api/batch.py:188-201 | under every policy the failure breach is sent at most once, if and only if its flag is up, and ahead of every cancellation it triggers |
| `BatchTheorems.BreachIffBudgetReached` | src/foundry/api/batch.py:92-96 | in every run of every policy: the cost is the sum of the costs recorded; the budget flag is up if and only if stop_on_budget_exceeded is set and at some point they had reached max_cost_usd; and batch.budget_exceeded is sent exactly then, unless that send is cut |
| `BatchTheorems.BreachIffCostReachesBudget` | src/foundry/api/batch.py:158-178 | with costs that are not negative: the flag is up if and only if something was recorded and the total is at least max_cost_usd |
| `BatchTheorems.TerminalCountsAsNamed` | src/foundry/api/batch.py:261-266 | run.completed, run.failed and run.cancelled count as succeeded, failed and cancelled |
| `BatchTheorems.RefusedForTheReason` | src/foundry/api/batch.py:188-229 | a refused item is told why: budget before failure rate at the limiter, worker_drain or timeout in admission |
| `BatchTheorems.OvershootBound` | src/foundry/api/batch.py:158-178 | for any budget: if no item costs more than m, the batch stays within the budget, or 0 if that is negative, plus max_parallel times m, and below that if the budget is positive |
| `BatchTheorems.WithinOneItemIffSequential` | src/foundry/api/batch.py:158-178 | the bound docs/85 gives, budget plus one item's cost, holds in all runs if and only if max_parallel is 1 and the budget is not negative |
| `BatchTheorems.StartsAfterAbort` | src/foundry/api/batch.py:183-229 | in an aborted batch a run can still start exactly for the items that were already in the admission loop, against the comment at line 184 |
| `BatchTheorems.AbortedIsSilent` | src/foundry/api/batch.py:152-156 | once the client is gone nothing is sent, and an item refused then is still counted |
| `BatchTheorems.AbortTakesHold` | src/foundry/api/batch.py:183-187 | an abort holds for good: an item let in afterwards does nothing, and the teardown ends any other with its permit back |
| `Pool.InProcessConnectionPool.Lookup` | src/foundry/connections/pool.py:100-106 | under the build lock: the warm entry and a hit counted, or nothing |
| `Pool.InProcessConnectionPool.AddBuilt` | src/foundry/connections/pool.py:145-154 | enters a built connection in table and index with a full semaphore |
| `Pool.InProcessConnectionPool.ReleaseConn` | src/foundry/connections/pool.py:156-163 | a permit back to the entry that holds this very object, else nothing |
| `Pool.InProcessConnectionPool.Pop` | src/foundry/connections/pool.py:175-185 | one turn of evict or close_all, the missing key included |
| `Pool.SlotConnectionAccessor.ReleaseAll` | src/foundry/connections/pool.py:306-309 | every live connection gets back as many permits as slots hold it, dead ones none |
| `PoolTheorems.IndexAndCounts` | src/foundry/connections/pool.py:86-185 | over every interleaving: _by_conn_id is the exact inverse of _entries; one build per key at a time and only while it is cold; builds = live entries + evictions + entries closed; acquires = hits + builds + early calls |
| `PoolTheorems.CallsMoveOn` | src/foundry/connections/pool.py:97-131 | a call waits for nobody but a call that builds its own key, then takes the warm entry or builds, and gets its slot as soon as there is a permit |
| `PoolTheorems.RebuiltOnlyAfterRemoval` | src/foundry/connections/pool.py:100-106 | between two builds of a key lies a removal of it |
| `PoolTheorems.PermitsAreConserved` | src/foundry/connections/pool.py:108-163 | for each live entry free permits + holders + the times a handle of it was overwritten or dropped while it was live = max_concurrent, over every run; that never happens unless a slot is got again while what it holds is live, or while it is being evicted |
| `PoolTheorems.ReleaseReachesItsOwnEntry` | src/foundry/connections/pool.py:156-163 | a release frees a permit of the entry it was taken from if that entry lives, and of no other; object ids may be reused |
| `PoolTheorems.EvictedWaitersStarve` | src/foundry/connections/pool.py:108-121 | a call waiting on an evicted entry without permits never gets one, whatever happens later |
| `PoolEvictions.EvictsOnlyItsScope` | src/foundry/connections/pool.py:169-185 | whatever the step, in every run: an entry that leaves the table is the next key of the eviction that ran and has the reference, and the project if one was given, that it was asked for; every other entry stays in table and index |
| `PoolEvictions.EvictionListsItsScope` | src/foundry/connections/pool.py:169-174 | evict lists exactly the entries with that reference and project, close_all every entry, each once |
| `PoolEvictions.EvictionCanStart` | src/foundry/connections/pool.py:169-174 | in every run an eviction can start, and pops its first key at once |
| `PoolEvictions.EndedEvictionTookAll` | src/foundry/connections/pool.py:169-185 | an eviction that has come to its end has removed every key it listed |
| `PoolTheorems.KeyErrorMeansRemovedMeanwhile` | src/foundry/connections/pool.py:169-185 | evict and close_all raise KeyError exactly when the last thing that happened to their next key since they listed it is a removal |
| `PoolTheorems.SingleKeyEvictionsNeverFail` | src/foundry/connections/pool.py:169-179 | evictions of at most one key never raise |
| `PoolTheorems.ConcurrentEvictionsCollide` | src/foundry/connections/pool.py:169-179 | a reachable table on which two evictions of one reference make the first raise |
| `PoolTheorems.SlotGotTwiceLosesAPermit` | src/foundry/connections/pool.py:247-264 | a reachable run in which a slot got twice loses a permit for good |
| `Ulid.EncodeUlid` | src/foundry/core/types.py:23-33 | fails on anything but 10 bytes, else the 26 base-32 digits of 48 bits of time and 80 of randomness |
| `Ulid.Validate` | src/foundry/core/types.py:61-68 | accepts exactly 26 characters of the alphabet |
| `Ulid.RunIdMinter.New` | src/foundry/core/types.py:48-59 | the new last id and the string of it, for any clock reading |
| `Ulid.UlidIsOrderIsomorphism` | src/foundry/core/types.py:23-33 | below 2^128 the string decodes back to the number, validates, and strings compare as numbers do |
| `Ulid.ValidIsMintableIffFirstDigitSmall` | src/foundry/core/types.py:61-68 | a valid string encodes an id if and only if its first character is at most 7 |
| `Ulid.MintAscendsIffNoWrap` | src/foundry/core/types.py:48-59 | the next id sorts after the last one if and only if the 80-bit counter does not wrap |
| `Ulid.MintedIdDecodes` | src/foundry/core/types.py:48-59 | decoded, an id holds the clock reading and the randomness if the clock has moved on, else the last milliseconds and the next count |
| `Ulid.FullCounterSortsBack` | src/foundry/core/types.py:52-55 | a full counter and a clock that stands still: the next id sorts before the last one |
| `Ulid.MintedIdsAscend` | src/foundry/core/types.py:48-59 | over any clock readings every id sorts after every earlier one, as long as no call between wraps |
| `Envelope.TruncateContribution` | src/foundry/memory/_text.py:68-100 | unchanged if its declared tokens fit, else cut down to the limit: head of a text, longest fitting suffix of messages, longest fitting prefix of documents |
| `Envelope.KeepRecent` | src/foundry/memory/_text.py:84-88 | the message loop keeps the longest suffix that fits: a suffix fits if and only if it is no longer |
| `Envelope.KeepFirst` | src/foundry/memory/_text.py:89-93 | the document loop keeps the longest prefix that fits |
| `Envelope.TokensCountCharacters` | src/foundry/memory/_text.py:20-66 | the estimate in the lengths of the texts: a quarter of all characters, roles, ids and line breaks included, rounded down and at least 1 |
| `Envelope.ApplyEnvelopeCap` | src/foundry/memory/coordinator.py:103-127 | total at most the cap; layers before one index untouched, that one cut to just what the others leave, none left of those after; the names of the layers handled; a text layer with an accurate estimate fills the cap |
| `Envelope.CutBack` | src/foundry/memory/coordinator.py:112-127 | the loop over the layers from the last one back |
| `Envelope.CappingIsDetermined` | src/foundry/memory/coordinator.py:103-127 | shape, frugality and the cap leave exactly one result |
| `Envelope.ReapplyingChangesNothing` | src/foundry/memory/coordinator.py:103-127 | applying the cap to its result changes nothing |
| `Cosine.CauchySchwarz` | src/foundry/cache/keys.py:110-119 | the dot product's square is at most the product of the squared norms, for any length |
| `Cosine.CosineInRange` | src/foundry/cache/keys.py:110-119 | similarities lie between -1 and 1 |
| `Cosine.CosineSymmetric` | src/foundry/cache/keys.py:110-119 | similarity is symmetric |
| `Cosine.ParallelIsOne` | src/foundry/cache/keys.py:110-119 | similarity of a vector to a positive multiple of itself is 1, or -1 for the zero vector |
| `Cosine.SelfIsOne` | src/foundry/cache/keys.py:110-119 | a vector other than zero has similarity 1 to itself |
| `Cosine.CosineTimesNorms` | src/foundry/cache/keys.py:110-119 | similarity times the two norms is the dot product, for nonzero vectors of one length |
| `Cosine.OtherwiseMinusOne` | src/foundry/cache/keys.py:110-119 | -1 for zero vectors and for vectors of different lengths |
| `Cosine.DotByCoordinate` | src/foundry/cache/keys.py:113-115 | the dot product is the sum over the coordinates |
| `Cosine.OppositeSign` | src/foundry/cache/keys.py:110-119 | turning one vector round turns the sign |
| `Cosine.OneIffParallel` | src/foundry/cache/keys.py:110-119 | nonzero vectors have similarity 1 if and only if one is a positive multiple of the other |
| `CacheKeys.BucketIsInjective` | src/foundry/core/cache.py:33-39 | two keys share a bucket if and only if all five parts agree, whatever the agent's name holds |
| `CacheKeys.ScopedKeysAreInjective` | src/foundry/core/cache.py:107-119 | two calls share a key if and only if their hashes agree and so do scope, project and agent as far as the scope goes |
| `CacheKeys.SlashInNameCollides` | src/foundry/core/cache.py:113-114 | with a slash in an agent's name two agents of two projects share a key |
| `SemanticCache.InProcessSemanticCache.Lookup` | src/foundry/cache/semantic.py:124-189 | expired rows go, the best row of the bucket answers if it reaches the threshold and is touched, the top similarity is kept |
| `SemanticCache.InProcessSemanticCache.Search` | src/foundry/cache/semantic.py:146-159 | the loop finds the first most similar row |
| `SemanticCache.InProcessSemanticCache.Store` | src/foundry/cache/semantic.py:191-226 | inserts the row and trims the scope |
| `SemanticCache.InProcessSemanticCache.Trim` | src/foundry/cache/semantic.py:213-219 | what goes is as many rows of the scope as exceed the limit, none accessed later than one that stays |
| `SemanticCache.InProcessSemanticCache.Invalidate` | src/foundry/cache/semantic.py:228-242 | removes exactly the scope's rows of the agent, or all of them for "*" |
| `SemanticCacheTheorems.LookupIsExact` | src/foundry/cache/semantic.py:124-170 | a lookup misses if and only if no row of its bucket reaches the threshold, and else answers with the oldest of the most similar rows |
| `SemanticCacheTheorems.HitsDoNotCross` | src/foundry/cache/semantic.py:124-248 | in every run a hit is an unexpired answer stored in the same scope for the same agent, version, model, tools and structure, not invalidated since |
| `SemanticCacheTheorems.StoredKeyHits` | src/foundry/cache/semantic.py:124-226 | a stored key hits at similarity 1 while its row is there; with its own answer if and only if no older row of the bucket points the same way |
| `SemanticCacheTheorems.StoreKeepsLimit` | src/foundry/cache/semantic.py:213-219 | a store leaves at most max_entries rows in its scope and touches no other scope |
| `SemanticCacheTheorems.EvictedOnlyAfterOthers` | src/foundry/cache/semantic.py:213-219 | a row goes only if max_entries others of its scope were accessed since |
| `SemanticCacheRecency.HitTouchesItsRow` | src/foundry/cache/semantic.py:124-189 | a hit sets the access time of the row that answers to the time of the lookup and changes no other row; expired rows go |
| `SemanticCacheRecency.AccessIsLastUse` | src/foundry/cache/semantic.py:178-181 | in every run a row's access time is when it was last stored or last answered a lookup |
| `SemanticCacheRecency.EvictedIsLeastRecentlyUsed` | src/foundry/cache/semantic.py:213-219 | over the operations of a run: a store evicts a row only if max_entries others of its scope were stored or answered no earlier than it was |
| `SemanticCacheRecency.TopSimilarityIsTheMaximum` | src/foundry/cache/semantic.py:146-165 | the similarity kept is the highest in the bucket, or 0 if it is empty |
| `SemanticCacheRecency.InvalidationTakesItsRows` | src/foundry/cache/semantic.py:228-242 | exactly the rows of the scope with that agent go, or all of the scope for "*" |
| `SemanticCacheRecency.InvalidationReachesItsAgent` | src/foundry/cache/semantic.py:228-242 | in every run the agent invalidated finds nothing, and other agents and scopes find what they found before |
| `SemanticCacheTheorems.NewestRowStays` | src/foundry/cache/semantic.py:197-219 | with a clock that moves on, the row just stored stays |
| `SemanticCacheTheorems.OlderParallelRowAnswers` | src/foundry/cache/semantic.py:146-170 | two answers under parallel vectors: the second key gets the first answer |
| `RedisIndex.RedisSemanticCache.Lookup` | src/foundry/cache/semantic.py:322-366 | some most similar live entry of the bucket, if it reaches the threshold; stale names leave the set |
| `RedisIndex.RedisSemanticCache.StoreResponse` | src/foundry/cache/semantic.py:368-388 | entry, bucket set and agent set after the three commands |
| `RedisIndex.RedisSemanticCache.InvalidateAgent` | src/foundry/cache/semantic.py:396-406 | everything the agent's set names is deleted, and the set |
| `RedisIndex.RunCoherent` | src/foundry/cache/semantic.py:322-406 | in every run of whole operations each entry a bucket lists is listed by its agent, and agents list nothing of each other's |
| `RedisIndex.LookupDropsOnlyStaleNames` | src/foundry/cache/semantic.py:322-340 | a lookup takes just the names without an entry out of its bucket's set; an expiry just its entry; what any key finds is otherwise the same |
| `RedisIndex.StoredKeyHits` | src/foundry/cache/semantic.py:322-388 | after a store its key hits at similarity 1; the stored response is the only possible answer if and only if every live entry of the bucket pointing the same way holds it |
| `RedisIndex.InvalidatedAgentMisses` | src/foundry/cache/semantic.py:396-406 | after an invalidation every lookup for the agent misses until the next store for it |
| `RedisIndex.OtherAgentsKeepTheirAnswers` | src/foundry/cache/semantic.py:396-406 | an invalidation changes no answer of another agent |
| `RedisIndex.StarIsAnAgentName` | src/foundry/cache/semantic.py:396-406 | invalidate("*") changes no answer of any agent not named "*", so it wipes the cache if and only if no such agent has a live entry |
| `RedisRace.EntryFoundExactly` | src/foundry/cache/semantic.py:368-406 | for a store and an invalidation of one agent whose commands fall in any order, on any coherent data: the entry is found afterwards if and only if the store was not over when the agent's set was read and its bucket was either new to the agent or deleted before the entry was added to it |
| `RedisRace.IndexLostExactly` | src/foundry/cache/semantic.py:368-406 | the index is coherent afterwards unless such an entry was entered in the agent's set before that set was deleted; exactly then a later invalidation does not remove it either |
| `RedisRace.InSequence` | src/foundry/cache/semantic.py:368-406 | run one after the other the commands are the two whole operations of the runs above |
| `RedisRace.InvalidationCanMissAStore` | src/foundry/cache/semantic.py:385-406 | an invalidation between the two SADDs of a store misses the entry exactly when its bucket is new to the agent |
| `RedisRace.StoreInsideAnInvalidation` | src/foundry/cache/semantic.py:385-406 | a store between an invalidation's SMEMBERS and its DELs is out of reach of later invalidations exactly when its bucket is new to the agent |
| `ToolRetry.RunHandler` | src/foundry/core/tool.py:503-545 | the retry loop for any behaviour of handler, accessor and cancellation |
| `ToolRetry.DelaysGrowToTheLimit` | src/foundry/core/tool.py:80-88 | delays are positive and at most max_delay_s; below it they start at the initial delay and stay, grow by it, or double, as the strategy says |
| `ToolRetry.RunsAreBounded` | src/foundry/core/tool.py:503-545 | at most max_attempts runs, one more if and only if the auth retry follows the last of them; retry_count is runs less one; every run but the last is one to be retried and the last decides |
| `ToolRetry.LastRunDecides` | src/foundry/core/tool.py:503-545 | the result is the one that a run which takes place ends with, told from the environment alone, and only one run does |
| `ToolRetry.EscapesExactly` | src/foundry/core/tool.py:521-534 | what is no FoundryError escapes if and only if the tool asks for auth retries and the first auth failure, after failures that were retried, finds its refresh raising |
| `ToolRetry.BackoffIsBounded` | src/foundry/core/tool.py:80-88 | total backoff at most (max_attempts - 1) times max_delay_s |
| `ToolRetry.BackoffIsTheDelays` | src/foundry/core/tool.py:503-545 | the backoff asked for is the sum of delay_for over the runs tried again, the auth retry excepted, and over the last one if its pause was cut short |
| `ToolCache.ToolRegistry.Dispatch` | src/foundry/core/tool.py:293-398 | result, cache rows and events of a dispatch: the three refusals, then the cache, then the retry loop |
| `ToolCache.ToolRegistry.CacheLookup` | src/foundry/core/tool.py:400-460 | a valid unexpired row answers; errors and invalid outputs fall through with a warning |
| `ToolCache.ToolRegistry.CacheStore` | src/foundry/core/tool.py:462-501 | stores under the scoped key, or warns |
| `ToolCache.InProcessResultCache.Lookup` | src/foundry/cache/tool_result.py:65-97 | drops what has expired and returns the row of the key |
| `ToolCache.InProcessResultCache.Store` | src/foundry/cache/tool_result.py:99-124 | inserts or replaces the row of the key |
| `ToolCache.EveryStartCompletes` | src/foundry/core/tool.py:303-398 | one tool.started if and only if the name is allowed and known, the input fits and no cached row answers, and one tool.completed if and only if besides no handler run that takes place asks for approval, is cancelled in the run, its backoff or its refresh, or has a refresh that raises; otherwise none |
| `ToolCache.RaisingRefreshNeverCompletes` | src/foundry/core/tool.py:523-534 | a dispatch lets an exception that is no FoundryError out, after tool.started and without tool.completed, if and only if its handler runs, the tool asks for auth retries and the refresh after the first auth failure raises |
| `ToolCache.OutputsAreValid` | src/foundry/core/tool.py:360-398 | a value that comes out fits the output schema; what the handler returned otherwise is ToolOutputValidationError, reported as a failure and not cached; values that fit and the handler's errors come out and are reported as they are |
| `ToolCache.StoredOutputsAreValid` | src/foundry/core/tool.py:363-398 | in every history each cached row holds what a handler returned, and it fitted the output schema |
| `ToolCache.StoredOutputAnswers` | src/foundry/core/tool.py:339-501 | what a dispatch stores answers every later call with its key, as a hit, until it expires or is stored over, whatever other dispatches do |
| `ToolCache.DispatchLooksAndPuts` | src/foundry/core/tool.py:341-398 | a dispatch undisturbed is its lookup and, unless that answers, its store |
| `ToolCache.ExpiredRowsGo` | src/foundry/cache/tool_result.py:65-97 | a lookup takes exactly the expired rows out |
| `ToolCache.RefusedForTheReason` | src/foundry/core/tool.py:303-336 | allowlist before registry before input schema, each with its error, no event and no change to the cache |
| `ToolCache.LookupTells` | src/foundry/core/tool.py:341-349 | which event goes with which lookup: a hit answers and nothing else is emitted; a miss or a warning comes before tool.started; stored if and only if a value then comes out and the store does not fail |
| `ToolCache.CachedAnswersAreEarlierRuns` | src/foundry/core/tool.py:339-501 | in every history of lookups and stores, those of concurrent dispatches in any order, a cached output is what the handler returned to an earlier call of the same tool version and input within the scope, within its time to live |
| `ToolCache.CachingIsTransparent` | src/foundry/core/tool.py:339-398 | after any such history, for a deterministic handler, the output is what the handler stands for, and what the uncached dispatch would return |
| `Forge.RunForge` | src/foundry/configurator/session.py:444-601 | the result of the loop for any turns |
| `Forge.OneIteration` | src/foundry/configurator/session.py:650-768 | score, delta and stop reason of one iteration |
| `Forge.JudgeRecord` | src/foundry/configurator/session.py:536-555 | stop, threshold, plateau or go on |
| `Forge.Baseline` | src/foundry/configurator/session.py:462-476 | score, best score and reason before the loop |
| `Forge.EveryRunEnds` | src/foundry/configurator/session.py:478-584 | every run ends with a reason after at most one bootstrap and max_iter iterations; all records but the last are below the threshold; threshold_met, plateau and max_iter mean what they say |
| `Forge.BestIsTheMaximum` | src/foundry/configurator/session.py:533-601 | the reported best_score bounds every score and the final score, and is one of them, the baseline's or 0 |
| `Forge.DeltasTelescope` | src/foundry/configurator/session.py:526-561 | with faithful loads the deltas add up to the final score less the first |
| `Forge.PassingScores` | src/foundry/configurator/session.py:462-572 | for every threshold and however results load: final_score reaches it with threshold_met false if and only if a turn that takes place (told from the baseline and the turns alone) is broken off with a passing score to show, or nothing is evaluated and the threshold is at most 0 |
| `Forge.PassingScoresWhenLoaded` | src/foundry/configurator/session.py:462-572 | with faithful loads: if and only if the step of such a turn was cut after a passing evaluation, or nothing was scored and the threshold is at most 0 |
| `Forge.StopReasons` | src/foundry/configurator/session.py:462-584 | told from the baseline and the turns: the run ends with the reason of the first turn that does not go on, iteration cap before wall time before cost, then the step's own exception, the evaluation's, threshold_met or plateau; or with the baseline's |
| `Forge.PassingRunNotMet` | src/foundry/configurator/session.py:661-698 | a run that ends above the threshold with threshold_met false |
| `Eval.MeanIsBounded` | src/foundry/eval/harness.py:784-795 | a case score lies between any bounds of its scorers' scores |
| `Eval.ScoresCountByWeight` | src/foundry/eval/harness.py:784-795 | score times total weight is the weighted sum, in which each score counts by its weight; 0 without weight |
| `Eval.AggregateIsBounded` | src/foundry/eval/harness.py:833-840 | a run whose cases lie between two bounds does too: if all reach the threshold, it does |
| `Eval.AggregateIsWeightedMean` | src/foundry/eval/harness.py:833-840 | aggregate times the weight of what ran is its weighted score; skipped results add nothing, unknown ones weigh 1 |
| `EvalHalt.EvalRun.Begin` | src/foundry/eval/harness.py:592-605 | a case let in is skipped as marked, skipped as halted, or starts |
| `EvalHalt.EvalRun.AfterRun` | src/foundry/eval/harness.py:606-617 | its cost is added and the run halted if the total exceeds the cap |
| `EvalHalt.HaltsExactlyOverTheCap` | src/foundry/eval/harness.py:586-617 | in every state the run is halted if and only if what finished cases cost exceeds the cap, by at most max_parallel cases; skips have their reasons, marked cases never run |
| `EvalHalt.NoStartAfterHalt` | src/foundry/eval/harness.py:599-602 | once halted, no waiting case ever starts |
| `EvalHalt.CasesMoveOn` | src/foundry/eval/harness.py:592-617 | a case let in is skipped as marked, skipped as halted, or starts; one that ends frees its place |
| `Eval.ClusterFailures` | src/foundry/eval/failure_clustering.py:98-151 | one cluster for each key some failed case has, holding exactly the failed cases with that key in order; the keyless ones apart |
| `Eval.KeysTellApart` | src/foundry/eval/failure_clustering.py:8-16 | keys made of tags from a set tell both coordinates apart if and only if no tag of the set begins with "scorer:" |
| `Eval.SameClusterIffBothAgree` | src/foundry/eval/failure_clustering.py:11-16 | without such tags two failed cases share a cluster exactly when tags and failing scorers agree |
| `Eval.EachFailureOnce` | src/foundry/eval/failure_clustering.py:98-116 | clusters and unclustered list hold every failed result exactly as often as the run does, and no other |
| `Eval.ImpactIsTheGain` | src/foundry/eval/failure_clustering.py:124-129 | raising a cluster's scores to 1 raises the aggregate by its impact if and only if every case that ran is in the spec or the cluster has no deficit |
| `Eval.UnknownCaseOverstatesImpact` | src/foundry/eval/failure_clustering.py:92-96 | a run with a case the spec does not know: impact 1, gain one half |
| `Compare.CompareRuns` | src/foundry/eval/compare.py:58-110 | refused exactly for fewer than two runs, a wrong number of labels or differing specs; else one delta per id and both counts |
| `Compare.CollectIds` | src/foundry/eval/compare.py:78-82 | ids of the first run, then those only later runs have |
| `Compare.Tally` | src/foundry/eval/compare.py:84-110 | deltas, regressions and fixes along the ids |
| `Compare.LookedUpById` | src/foundry/eval/compare.py:77-95 | a score and a pass are those of the last result with the id |
| `Compare.MissingCase` | src/foundry/eval/compare.py:84-95 | a case that is not in a run scores 0 there and does not pass |
| `Compare.FlipsAreFromFirstToLast` | src/foundry/eval/compare.py:95-104 | a regression passes in the first run and not in the last, a fix the other way round |
| `Compare.FixesLessRegressions` | src/foundry/eval/compare.py:84-110 | with distinct ids in the first run, fixes less regressions is the gain in passing cases from the first run to the last |
| `Compare.RepeatedIdCountsTwice` | src/foundry/eval/compare.py:77-101 | an id the first run lists twice is counted twice |

## Left out

- LangGraph, `run_project`, providers, memory layers and scorers: a run is any producer that numbers
  its events with `next_sequence`, and then closes, pauses or fails; handlers, steps and evaluations
  return whatever the environment decides.
- FastAPI routing, WebSocket framing, authentication, CLI, studio, exporters, metrics and artifacts
  other than `events.jsonl`: plumbing.
- Wall clocks are inputs; timeouts and cancellations are steps that may happen at any suspension point.
- SHA-256, JSON and pydantic: digests are injective, serialisation is lossless and its output holds
  neither a newline nor a carriage return.
- Floating point: scores, costs, delays and vectors are exact reals, so rounding is not modelled;
  `math.sqrt` is any function with the property of a square root.
- SQLite and Redis: a table is a sequence or map of rows, each command is one step, rows without
  `ORDER BY` come in insertion order, ties in `last_access` go either way. Corrupted rows, database
  errors of the semantic cache and the pgvector backend are not modelled.
- The registry of runs is cut down to one run id; token, cost and node counters of `LiveRun`, its
  approval inbox and the admission of runs are not modelled. Exactly one terminal event per run is
  not claimed: it depends on runtime code outside this model.
- StreamProtocol.GapExactlyWhenSkipped: the log is written by this process's LiveRuns only. A run that
  another worker drives, appending to the same artifact while `subscribe_events` reads it here, is not
  modelled.
- StreamProtocol.DeliveredInOrder: the runs follow one subscriber; subscribers share nothing but the
  LiveRun they read, and Streaming.LiveRun.Sink serves all their queues.
- SseReconnect.ReconnectsExactlyOnce: the logs after two connections are only related by the first
  being a prefix of the second; a crash that loses the tail of the log in between is not covered.
- Pool.InProcessConnectionPool.Lookup: the build lock, the semaphores' waiting lists and the close of
  a connection are steps of the runs in `Pool`, not objects; semaphores live in one map by connection.
- Batch.BatchExecutor.Begin: the limiter is a number of permits; who gets the next one is any item.
- SemanticCacheTheorems.StoredKeyHits: over exact reals; with floating point the similarity may fall
  short of 1 by a rounding error.
- Envelope.ApplyEnvelopeCap: layer kinds and metadata other than the truncation mark are not modelled.
- Eval.ClusterFailures: labels, diagnoses, slugs, the rounding of impacts and the final sorting of
  clusters and of the cases in them are not modelled; cases keep the order of the run. Tags and
  failing scorers are taken as already sorted.
- RedisRace.EntryFoundExactly: one store against one invalidation. A lookup's removal of stale names
  is one step of the runs in `RedisIndex`; it removes no name that is still in use.
- ToolRetry.DelaysGrowToTheLimit: `RetryPolicy.jitter` is not modelled; `delay_for` and the tool
  retries do not use it.
- Forge.RunForge: reports, directives, rollbacks, artifacts and events of an iteration are not modelled.
- Git, catalog promotion, YAML loading, secret scanning, redaction and configuration schemas.
