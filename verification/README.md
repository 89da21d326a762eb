# A verified model of the share service

The service hands out short codes for student submissions, shows a submission to
whoever opens its code, and counts the views. This project models the parts of it
where several processes, two stores and a clock interfere, and proves what they
keep. It is checked with `dafny verify dfyconfig.toml`.

## What is modelled

**The view-counting pipeline** (`ViewPipeline`, `ViewConservation`, `ViewLoss`,
`ViewMarks`, `ViewStranded`, `ViewShutdown`, `ViewEvents`, `ViewProgress`,
`ViewClosing`, `ViewDedupe`, `Dedupe`, `FlushTrace`, `FlushLoop`, `FlushTermination`). A labelled transition system with any number of API
instances, workers and flushers over one Redis and one database. Every step is one
channel operation, one Redis command or one database statement, and every command may
succeed, fail without effect, or fail after taking effect (the lost reply). `FlushLoop`
is the flush loop as it is written. Between any two of its commands the shared state
may be replaced by an arbitrary one; its commands are proved to be the moves of one
flusher, and if what happened in between are legal steps of other processes, call and
steps together are a run of the transition system, so all invariants cover it
(`FlushLoop.CallAmongOthers`). Run alone it is proved to move counters to the store.
`total`, `err` and the number of SPOPs are part of its contract.

**Cache coherence** (`CacheAside`, `SingleDelete`, `Coherence`, `RedisStore`,
`ShareService`, `Answers`, `Keys`). `CacheAside` is one cached document, the flights that load it
(one per instance, which is what singleflight leaves), and the writers that commit and
then delete the cached copy once or twice, over a clock. The link cache and the
snapshot cache are two configurations of it. `ShareService` is the sequential view: the
service, its link cache, the snapshot cache, both in one Redis with rendered keys, as
classes whose methods are proved to give the answers of a service without any cache.
`Coherence` says what it means that the cached values are true, `Answers` what the
answer is in terms of the link's fields, its owner's operations and the submission.

**Links and codes** (`Repository`, `MemStore`, `PgStore`, `Allocation`, `Codes`,
`Domain`, `Limits`). One table specification, the in-memory and the database repository
proved against it, concurrent Create over it, and code generation from a stream of
random bytes.

**The rate limiter** (`RateLimit`).

## Assumptions

- One Redis command, one script and one database statement are atomic. In the
  pipeline, in `Allocation` and in `RateLimit` a failed command may or may not have
  taken effect; where a result needs "an error means no effect", it says so
  (`AnyDoubles`, `AnyLoses`, `Tame`). In `ShareService` and `PgStore` a failed command
  has no effect.
- `counted`, `lost`, `doubled`, `tracked`, `dropped`, `finished` in the pipeline and
  `ver`, `readAt` in the cache are history: no step reads them.
- All instances, Redis and the database share one clock. `time.Now` is a parameter.
- A load that misses its two-second deadline writes and returns nothing.
- The order in which Go ranges over a map, the ids SPOP picks, the codes drawn, the
  TTL jitter and the outcome of each command are arbitrary.
- `flush` does not always terminate. `FlushLoop.ViewCounter.Flush` asks that from some
  batch on nobody refills the dirty set and fewer than 1000 of the ids that can be dirty
  fail their GETDEL in any one batch. For a call that runs alone, fix the ids whose GETDEL
  may fail, now and then or always: `FlushTermination.TerminatesIff` proves that it
  terminates in every such environment if and only if fewer than 1000 of them are dirty.
- The JSON codec is the identity on records; the hash of a visitor id and the search
  for crawler signatures are fields of `Viewer`; a member of the dirty set parses as
  an id, because only ids are ever added.
- Every theorem about runs starts from a state described by `Initial` or by the
  invariant itself; in the class models any sequence of method calls is a run, because
  each method requires and ensures `Valid()`.
- Integers are unbounded: 2^63 views, ids or seconds are out of reach.
- Strings are sequences of bytes written as characters.

## Where the code falls short of its comments

- `internal/adapter/redisstore/view_counter.go:162` says that no view is lost because
  a failed batch is put back. `restore` runs on the context of the flush it repairs,
  so a shutdown in the middle of a ticker flush loses the batch:
  `ViewLoss.CutFlushLosesItsBatch`. `ViewLoss.CutFlushLosesWhatItHeld` and
  `ViewLoss.LossIsExact` say exactly how much is lost.
- Five faults forget to mark a counter: a lost reply of the script, a refused SADD after
  it, a lost reply of SPOP, a refused SADD for ids to retry, and a refused SADD of restore.
  Each of them can strand a counter, and without them none is stranded:
  `ViewStranded.NeverStrandsIff`. No flush finds a stranded counter:
  `ViewStranded.StrandedStays`.
- `internal/usecase/share/ports.go:41` requires Invalidate to remove an old value
  that a concurrent reader writes back. The second delete comes after half a second
  but a load may last two: `CacheAside.DoubleDeleteThreshold` proves that half a second
  is exactly the load time up to which the promise holds.
- `internal/usecase/submission/service.go:28` says that all links of a deleted submission
  are gone at once. One delete cannot promise that to a load that is under way:
  `SingleDelete.OneDeleteIsEnoughIff` and `SingleDelete.DeletedSnapshotReturns`. The
  bound is the ten minutes of the snapshot's lifetime plus one load.
- Create does not clear a "not found" that an earlier visit cached, so a new link may
  answer 404 for up to a minute: `ShareService.VisitedTooEarly`.
- An owner's statistics may be short by what is on its way or lost, less what was persisted
  twice (`ViewConservation.StatsShortfall`). They are too high if and only if more was persisted
  twice than that (`ViewConservation.StatsOverReportsIff`), which takes an AddViews that
  commits and still reports an error: `ViewLoss.StatsCanOverReport`.

## Model

| member | source | states |
|---|---|---|
| ViewConservation.ConservedStep | internal/adapter/redisstore/view_counter.go:144-232 | Every step of any process, whatever its outcome, keeps every link's balance |
| ViewConservation.ViewsAreConserved | internal/adapter/redisstore/view_counter.go:144-232 | In every reachable state, for every link: counted + persisted twice = stored + in Redis + held by flushers + lost; no id is read twice in a batch |
| ViewConservation.RunGrows | internal/adapter/redisstore/view_counter.go:204-231 | Over every run stored and counted views never fall; lost grows only by a refused INCRBY or a lost GETDEL reply, doubled only by an AddViews that commits and reports an error |
| ViewConservation.NothingLostOrPersistedTwice | internal/adapter/redisstore/view_counter.go:159-221 | From the start, without those faults, no view is persisted twice and every counted view is stored, in Redis or held, whatever ids two flushers pop |
| ViewConservation.StatsShortfall | internal/usecase/share/manage.go:39-50 | Stored views read first plus pending views read later differ from the counted views and those persisted twice by exactly what was flushed in between, is held, or is lost |
| ViewConservation.StatsOverReportsIff | internal/usecase/share/manage.go:39-50 | The total shown exceeds the views counted by the second read if and only if more views were persisted twice than were flushed in between, held or lost; it equals them if and only if the two amounts are equal |
| ViewConservation.StatsNeverOverReports | internal/usecase/share/manage.go:39-50 | In runs in which no AddViews commits and reports an error, the total never exceeds the views counted by the second read, and equals them if and only if nothing was flushed in between, nothing is held and nothing lost |
| ViewLoss.RunHistory | internal/adapter/redisstore/view_counter.go:204-231 | What a run adds to lost and doubled is the sum of what its faulty steps had in hand |
| ViewLoss.LossIsExact | internal/adapter/redisstore/view_counter.go:159-232 | Conservation for every run from the start, with the lost and doubled views computed from the labels of the run |
| ViewLoss.CutFlushLosesWhatItHeld | internal/adapter/redisstore/view_counter.go:113-120 | If from some instant on the commands of one ticker flush fail, as on a cancelled context, and nobody else loses anything, then once it has returned the views lost are exactly those it held at that instant, plus those a GETDEL in flight took, less those an INCRBY of restore in flight put back |
| ViewLoss.CutFlushLosesItsBatch | internal/adapter/redisstore/view_counter.go:113-120 | A concrete run: shutdown cancels a ticker flush before AddViews, restore fails on the same context, and a counted view is nowhere |
| ViewLoss.StatsCanOverReport | internal/adapter/redisstore/view_counter.go:203-208 | A concrete run: AddViews commits and reports an error, restore puts the view back, and one counted view is shown as two |
| ViewMarks.CoveredStep | internal/adapter/redisstore/view_counter.go:144-232 | A worker that raises a counter is about to mark it, and a flusher that takes an id off the dirty set answers for it until the counter is zero or marked again |
| ViewMarks.NoCounterIsStranded | internal/adapter/redisstore/view_counter.go:148-232 | In every run in which no mark is forgotten, a positive counter is dirty, or a worker or flusher is about to mark it |
| ViewStranded.EachFaultStrands | internal/adapter/redisstore/view_counter.go:148-232 | For each of the five faults that forget a mark there is a run from the start with that mark fault only that ends with a stranded counter |
| ViewStranded.NeverStrandsIff | internal/adapter/redisstore/view_counter.go:148-232 | If marks are forgotten by faults of a given set only, no run of any system strands a counter if and only if the set is empty |
| ViewStranded.StrandedStep | internal/adapter/redisstore/view_counter.go:163-232 | A step keeps a stranded counter stranded and unchanged unless it is a script that counts a view of the link or an INCRBY of restore for it |
| ViewStranded.StrandedStays | internal/adapter/redisstore/view_counter.go:163-232 | Over every run without such steps the counter stays stranded with the same views: no flush finds it |
| ViewShutdown.EveryEventIsAccounted | internal/adapter/redisstore/view_counter.go:72-141 | In every state of every instance, each tracked event is dropped, queued, being handled or finished, as often as it was tracked, and the queue never exceeds 10,000 |
| ViewEvents.DropIff | internal/adapter/redisstore/view_counter.go:72-79 | A step drops an event if and only if it is a Track of that instance while 10,000 events are queued; then the queue stays as it is |
| ViewEvents.EventsAreExact | internal/adapter/redisstore/view_counter.go:72-79 | Over every run an event is tracked as often as Track was called with it, and dropped as often as that happened with a full buffer |
| ViewEvents.QueueIsFifo | internal/adapter/redisstore/view_counter.go:72-104 | The events received by the workers of an instance, followed by its queue, are those accepted, in their order |
| ViewEvents.ScriptsAreExact | internal/adapter/redisstore/view_counter.go:135-157 | Over every run an event is finished, or between script and mark, as often as the script was run for it |
| ViewEvents.ClockIsExact | internal/adapter/redisstore/view_counter.go:145 | The clock advances by the ticks of the run and by nothing else |
| ViewShutdown.WindingRun | internal/adapter/redisstore/view_counter.go:82-133 | In any number of instances, through a graceful run: workers exit only after cancellation with an empty queue, a final flush starts only after the workers of its instance, and while ids are dirty some flusher has an SPOP to come |
| ViewShutdown.GracefulShutdownPersistsEverything | internal/adapter/redisstore/view_counter.go:124-133 | When Run has returned in every instance after a graceful shutdown, all queues and the dirty set are empty, every undropped event was handled once, no counter is positive and the store holds exactly the counted views. Ticker flushes before may have failed, so long as restore and the marks took effect |
| ViewEvents.GracefulShutdownHandlesEveryTrack | internal/adapter/redisstore/view_counter.go:72-133 | After a graceful shutdown in which no Track found a full buffer, the script was run for every event exactly as often as it was tracked |
| ViewEvents.GracefulShutdownStoresWhatPassed | internal/adapter/redisstore/view_counter.go:124-133 | After a graceful shutdown the store has grown by exactly the views the dedupe window let through |
| ViewProgress.WorkersNeverStuck | internal/adapter/redisstore/view_counter.go:85-105 | In every reachable state a worker with a queued event, or told to stop, can move |
| ViewProgress.FlushersNeverStuck | internal/adapter/redisstore/view_counter.go:107-133 | In every reachable state a flusher that has not stopped and does not wait for workers can move, with a command that works |
| ViewProgress.ShutdownNeverStuck | internal/adapter/redisstore/view_counter.go:82-133 | In every reachable state with all instances cancelled, some process can move until every flusher has stopped |
| ViewClosing.GracefulShutdownHappens | internal/adapter/redisstore/view_counter.go:82-133 | A concrete graceful run from the start to the end of Run, after which the one view is stored |
| Dedupe.CountedIsSeparated | internal/adapter/redisstore/view_counter.go:34-43 | Counted views of one visitor are at least thirty minutes apart |
| Dedupe.UncountedIsCovered | internal/adapter/redisstore/view_counter.go:34-43 | A view that does not count lies within thirty minutes after one that did |
| Dedupe.CountedIsLargest | internal/adapter/redisstore/view_counter.go:34-43 | No other choice of views thirty minutes apart is larger |
| ViewDedupe.RunsDedupe | internal/adapter/redisstore/view_counter.go:144-157 | In every interleaving, the executions of the script that raise a counter are those of the greedy window over all its executions for that visitor |
| ViewDedupe.CountsAreExact | internal/adapter/redisstore/view_counter.go:34-43 | Over every run the views counted for a link grow by exactly the number of script executions, over all visitors, whose seen key had expired |
| ViewDedupe.CountsAreBest | internal/adapter/redisstore/view_counter.go:32-43 | In every run from the start, the views counted for a visitor are thirty minutes apart, the uncounted ones fall within thirty minutes after a counted one, and no such choice is larger |
| FlushTrace.AloneIsLegal | internal/adapter/redisstore/view_counter.go:163-232 | The commands of an undisturbed call of flush are a run of the whole system that changes one flusher and the shared stores |
| FlushTrace.AloneConserves | internal/adapter/redisstore/view_counter.go:163-232 | Whatever fails, the commands of a call conserve every link's views |
| FlushTrace.WovenIsLegal | internal/adapter/redisstore/view_counter.go:163-232 | The moves of a call of flush, with legal steps of others between them, are a run of the whole system that leaves the flusher and the shared state where the call left them |
| FlushLoop.CallAmongOthers | internal/adapter/redisstore/view_counter.go:163-232 | Whatever the loop did among other processes is such a run, and conserves every link |
| FlushLoop.ProgressTrans | internal/adapter/redisstore/view_counter.go:166-220 | Batches compose: moving one set of counters and then another moves their union, and the sums add up |
| FlushLoop.CommitProgress | internal/adapter/redisstore/view_counter.go:203-215 | A batch that AddViews accepts moves exactly the positive counters of its ids |
| FlushLoop.SumDeltas | internal/adapter/redisstore/view_counter.go:209-212 | The loop over the deltas returns their sum |
| FlushLoop.ViewCounter.ReadBatch | internal/adapter/redisstore/view_counter.go:175-198 | Alone and unless a reply is lost, GETDEL empties exactly the counters it reads; deltas are the positive ones, and only ids whose command failed are to retry |
| FlushLoop.ViewCounter.Restore | internal/adapter/redisstore/view_counter.go:223-232 | Makes the moves of the flusher among any others; alone and unless a command fails, puts every delta back and marks its id |
| FlushLoop.ViewCounter.Persist | internal/adapter/redisstore/view_counter.go:203-215 | Stores a batch and returns its sum, or restores it and fails; alone, if marks and restore do not fail and no reply is lost, positive counters never leave the dirty set without being stored |
| FlushLoop.ViewCounter.Batch | internal/adapter/redisstore/view_counter.go:166-220 | One turn: moves counters only with their ids (alone, if marks and restore do not fail and no reply is lost); a turn that goes on takes 1000 ids out of the dirty set but for those whose GETDEL fails |
| FlushLoop.ViewCounter.Flush | internal/adapter/redisstore/view_counter.go:163-221 | Among any others it makes the moves of the flusher, returns exactly what its AddViews stored, and an error if and only if an SPOP or AddViews of the call failed. Alone it conserves every link; if marks and restore do not fail and no reply is lost it moves exactly the counters that left the dirty set, and the batch that fails is put back; without read errors or failures it empties the dirty set in ⌊dirty/1000⌋ + 1 SPOPs |
| FlushTermination.StepRemaining | internal/adapter/redisstore/view_counter.go:163-232 | While fewer than 1000 dirty ids have a GETDEL that may fail, every command uses up one of the remaining moves |
| FlushTermination.FailingBatchLoops | internal/adapter/redisstore/view_counter.go:195-220 | With 1000 dirty ids whose GETDEL fails, and no other fault, the loop can come back to the very same state |
| FlushTermination.TerminatesIff | internal/adapter/redisstore/view_counter.go:163-221 | Run alone, whatever SPOP picks and whatever other commands fail, flush makes a bounded number of moves if and only if fewer than 1000 dirty ids have a GETDEL that may fail |
| CacheAside.SoundRun | internal/adapter/redisstore/link_cache.go:96-122 | In every run each entry was committed when it was read, was read at most one load before it was written and expires its lifetime later, and second deletes keep their distance from the commit |
| CacheAside.HistoryIsCommits | internal/usecase/share/manage.go:10-29 | The history of the document is what the run committed, in its order and at its instants |
| CacheAside.FlightsNeverStuck | internal/usecase/share/resolve.go:63-82 | A load within its deadline can take its next step, and caches a found row, or an absence where there are negative entries |
| CacheAside.FlightsEnd | internal/usecase/share/resolve.go:63-86 | A load that returns or fails makes room for the next and leaves the entry as it is |
| CacheAside.WritersNeverStuck | internal/adapter/redisstore/link_cache.go:109-122 | A writer can delete right after its commit, and again once half a second has passed since |
| CacheAside.HitIsFresh | internal/usecase/share/resolve.go:52-61 | Whatever deletes fail, a cache hit was the committed document at some instant within one lifetime plus one load |
| CacheAside.LoadIsFresh | internal/usecase/share/resolve.go:63-86 | What a flight returns, to whoever started or joined it, was committed within one load |
| CacheAside.LinkStaleness | internal/adapter/redisstore/link_cache.go:19-31 | In every run a cached link was the committed row after now - (66 min + 2 s) and a cached 404 was true after now - (60 s + 2 s) |
| CacheAside.SnapshotStaleness | internal/adapter/redisstore/content_cache.go:19-22 | In every run a cached snapshot was the committed one after now - (10 min + 2 s), and no absence is ever cached |
| CacheAside.CoherentRun | internal/adapter/redisstore/link_cache.go:109-122 | With loads under 500 ms, no writer that committed after the entry was read has ever finished its deletes, over every run |
| CacheAside.DoubleDeleteIsCoherent | internal/adapter/redisstore/link_cache.go:109-122 | In every interleaving with loads under 500 ms, a stale entry means a delete still to come; once all have run the cache holds the latest version, or a "not found" from before the creation |
| CacheAside.SlowLoadIsStale | internal/usecase/share/service.go:14 | For every load time from 500 ms to the deadline there is a run in which both deletes succeed and the old link stays cached |
| CacheAside.DoubleDeleteThreshold | internal/adapter/redisstore/link_cache.go:109-122 | For any two documents that differ, the cached value is always the stored one after all deletes (or a "not found" from before the creation) if and only if loads take less than 500 ms |
| CacheAside.CachedNotFoundHidesCreation | internal/usecase/share/create.go:33-43 | A concrete run: an absence is cached, the link is created, and the 404 is still visible |
| SingleDelete.NothingVisibleUntilWritten | internal/adapter/redisstore/link_cache.go:109-111 | Whatever was cached: after a first or second delete that works, nothing is visible until a load writes the cache |
| SingleDelete.OneDeleteIsEnoughIff | internal/adapter/redisstore/content_cache.go:94-97 | From any sound state with a writer that has committed: after its delete works, only the value committed last is visible in every continuation if and only if no load may still write another |
| SingleDelete.DeletedSnapshotReturns | internal/usecase/submission/service.go:28-35 | A concrete run: the snapshot of a deleted submission is visible again after its delete, however fast loads are |
| Coherence.OpenOfRecord | internal/adapter/redisstore/link_cache.go:33-60 | The cached record determines the answer of Resolve, although it drops the view count |
| Coherence.CreatedLink | internal/usecase/share/create.go:38-43 | Creating a link keeps the cache coherent: a "not found" that is still cached is older than the link |
| Coherence.ViewsKeepCoherence | internal/adapter/redisstore/link_cache.go:46-60 | Flushing views needs no invalidation |
| Coherence.InvalidatedLink | internal/usecase/share/manage.go:10-37 | After a change to a link, its delete keeps the cached links true; a delete that fails leaves only that code in doubt |
| Coherence.LinksAge | internal/adapter/redisstore/link_cache.go:111-122 | Time and late deletes keep the cached links true, and after the longest lifetime of an entry no code is in doubt |
| Coherence.RepairsRun | internal/adapter/redisstore/link_cache.go:114-120 | Every code in doubt has a second delete to come unless that failed too, and after half a second only codes remain in doubt whose second delete failed |
| RedisStore.LinkCache.Get | internal/adapter/redisstore/link_cache.go:73-94 | Hit, negative hit, miss or error, as the live key says |
| RedisStore.LinkCache.Set | internal/adapter/redisstore/link_cache.go:96-102 | Stores the record for an hour plus jitter |
| RedisStore.LinkCache.Invalidate | internal/adapter/redisstore/link_cache.go:109-122 | Deletes now unless the command fails, reports that, and in either case schedules the delete half a second later |
| RedisStore.Redis.RunDue | internal/adapter/redisstore/link_cache.go:114-120 | Runs exactly the scheduled deletes that are due; those that fail have no effect and are not tried again |
| RedisStore.Content.Snapshot | internal/adapter/redisstore/content_cache.go:59-92 | The answer is that of the submissions table, whatever cache command fails, unless a failed delete left the snapshot in doubt; unless SET fails it is cached afterwards; cached links are untouched and the cache stays coherent |
| ShareService.Service.Load | internal/usecase/share/resolve.go:63-82 | A flight returns the repository's answer, caches it unless SET fails, a link for 60 to 66 minutes and an absence for one, and keeps the cache coherent |
| ShareService.Service.GetLink | internal/usecase/share/resolve.go:52-87 | Returns the repository's record or its absence, except a cached "not found" older than the link, or for a code in doubt an earlier status of the same link; caches the answer exactly when it was loaded and SET works |
| ShareService.Service.Resolve | internal/usecase/share/resolve.go:14-49 | With Get, Set and SetNotFound failing at will, answer and tracked view are those of a Resolve without cache, except a 404 exactly when a readable "not found" predates the link; only a failed delete suspends this. The cache stays coherent and no owner is tracked |
| Answers.AnswerOverRuns | internal/usecase/share/resolve.go:14-49 | After any operations a request without cache succeeds if and only if the link was not deleted before, its owner did not delete it since, the status its owner set last is active, it has not expired, and its submission exists undeleted with an active author; it then shows that link and submission and tracks one view, or none for the owner and crawlers; otherwise it answers that the link is gone and tracks none |
| Answers.CreatedLinkAnswers | internal/usecase/share/create.go:33-43 | The same of a link from its creation on, in terms of the fields it was created with |
| Answers.UnknownCodes | internal/usecase/share/resolve.go:15-17 | Codes that are not eight Base62 characters, or that no link has, are not found, and no view is tracked |
| ShareService.Service.InsertLink | internal/usecase/share/create.go:38-45 | A taken code is refused and nothing changes; a free one gets the next id, the present time and exactly the given fields |
| ShareService.Service.Create | internal/usecase/share/create.go:12-55 | One caller at a time: an unknown type and a caller who is not the author of the undeleted submission are refused; an existing link is returned unchanged, and it is the caller's; a created one is the first free of three drawn codes, active, with the caller, submission and expiry asked for; each error has exactly its cause, and nothing else changes |
| ShareService.Service.SetStatus | internal/usecase/share/manage.go:10-20 | Accepts "active" and "disabled" only; updates exactly the owned, undeleted link, drops its cache entry and keeps the cache coherent; if the delete fails the call succeeds and the code is in doubt; otherwise nothing changes |
| ShareService.Service.Delete | internal/usecase/share/manage.go:23-29 | Deletes exactly the owned link and drops its entry, with the same treatment of a failed delete; after any later operations no request without cache opens the code |
| ShareService.Service.DeleteSubmission | internal/usecase/submission/service.go:28-35 | Nobody but the author deletes a submission, and only once. After it every link to the submission answers 410; if the delete of the snapshot fails, the call fails although the submission is deleted, and the snapshot is in doubt; otherwise nothing changes |
| ShareService.Service.Wait | internal/adapter/redisstore/link_cache.go:111-122 | Passing time and second deletes keep the cache coherent; after half a second a code is in doubt only if its second delete failed, after 66 minutes none is, and after ten minutes no snapshot |
| ShareService.VisitedTooEarly | internal/usecase/share/create.go:33-43 | A concrete run: a visit, then Create with the same code, then a visit that gets 404 although the link can be opened |
| Coherence.OwnersStayUncounted | internal/usecase/share/resolve.go:35-37 | No later change of the table makes a tracked view an owner's view |
| Coherence.NoViewIsTheOwners | internal/domain/link.go:69-72 | In every state of the service no tracked view of a link carries its owner's key |
| Coherence.AuthorsStay | internal/usecase/share/create.go:17-24 | Every operation keeps that each link was created by the author of its submission, of the same type, given that inserts are of authors |
| Keys.DecNatRoundTrip | internal/adapter/redisstore/view_counter.go:27-30 | Reading a rendered number gives the number back |
| Keys.CounterKeyFormats | internal/adapter/redisstore/view_counter.go:27-30 | The formats of the counter keys, by example |
| Keys.OtherKeyFormats | internal/adapter/redisstore/link_cache.go:26 | The formats of the other keys, by example |
| Keys.KeysNeverAlias | internal/adapter/redisstore/view_counter.go:22-30 | All Redis keys of the service, for all ids, codes, visitors, days and clients, are equal only if they stand for the same thing |
| Keys.SnapshotInjective | internal/adapter/redisstore/content_cache.go:24-26 | Snapshot keys determine type and id |
| Keys.LimiterInjective | internal/adapter/redisstore/rate_limiter.go:18 | Limiter keys determine client and bucket |
| Keys.PairKeyInjective | internal/adapter/memstore/memstore.go:258 | The in-memory dedupe key determines link and visitor |
| Keys.OwnersNeverCount | internal/domain/link.go:69-72 | A view that counts never has the owner's key |
| Keys.ViewerKeysInjective | internal/domain/viewer.go:18-24 | Two viewers share a key if and only if they are the same user, or both anonymous with the same digest |
| Codes.NewCode | internal/domain/code.go:14-33 | The code depends only on the stream of bytes, not on its chunks: it is the image of the first eight bytes below 248; it fails if the source fails before |
| Codes.TakeFrom | internal/domain/code.go:22-30 | Reading one buffer extends the code by the accepted bytes of the buffer and stops at eight |
| Codes.NewCodesAreValid | internal/domain/code.go:12-47 | Every generated code passes ValidCode |
| Codes.ValidCode | internal/domain/code.go:35-47 | Accepts exactly the strings of eight Base62 characters |
| Codes.PreimagesAre | internal/domain/code.go:22-26 | The enumerated byte strings are exactly the accepted ones that map to the code |
| Codes.EveryTextIsEquallyLikely | internal/domain/code.go:8-13 | Every Base62 text of n characters comes from exactly 4^n accepted byte strings |
| Codes.EveryCodeIsEquallyLikely | internal/domain/code.go:8-33 | Each code is the result of exactly 4^8 = 65536 of the strings of eight accepted bytes, so sampling is unbiased |
| Repository.StepConsistent | migrations/001_init.sql:27-48 | Every operation keeps codes and ids unique and one undeleted link per resource, and only ages existing links |
| Repository.RunsEvolve | internal/adapter/pgstore/link_repository.go:43-112 | Over every run: uniqueness, growing ids, immutable owner, code and resource, final deletion, and view counts that never fall for non-negative deltas |
| Repository.DeletionIsForever | internal/usecase/share/manage.go:22-29 | After any run from a state where a link is deleted, no Insert with its code, SetStatus or Delete succeeds and the link is never accessible |
| Repository.AccessOverRuns | internal/domain/link.go:58-67 | After any run of operations by anybody, a link opens if and only if it was not deleted before, its owner did not delete it in the run, the status its owner set last is active, and it has not expired |
| Repository.ViewsOverRuns | internal/adapter/pgstore/link_repository.go:98-112 | After any operations a link has the views it had plus the sum of the deltas added for its id |
| Repository.CreatedLinkOpens | internal/domain/link.go:47-67 | From its creation on, through any run, a link opens until its expiry inclusive unless its owner deletes it or last disabled it |
| PgStore.Columns | internal/adapter/pgstore/link_repository.go:100-105 | The two slices hold every id of the map once, each beside its delta |
| PgStore.StatementAddsDeltas | internal/adapter/pgstore/link_repository.go:106-110 | Although a joined row is updated by one matching row only, the statement's one possible result adds every delta |
| PgStore.ErrorsByName | internal/adapter/pgstore/link_repository.go:51-58 | The mapping by constraint name tells the two violations apart, and both from any other error |
| PgStore.LinkRepository.Execute | migrations/001_init.sql:41-48 | The statement inserts if no constraint is violated, otherwise reports one that is, or fails for another reason; it changes no other row and uses up an id |
| PgStore.LinkRepository.Insert | internal/adapter/pgstore/link_repository.go:43-59 | Each of the two domain errors means that constraint is violated, any other error that the statement failed; on error no link changes |
| PgStore.LinkRepository.AddViews | internal/adapter/pgstore/link_repository.go:98-112 | Executes the statement with those slices and thereby the batched update of the specification, or fails and changes nothing |
| MemStore.LinkRepository.Insert | internal/adapter/memstore/memstore.go:37-52 | Refines the table's Insert, and reports a taken code before a shared resource |
| MemStore.LinkRepository.FindByResource | internal/adapter/memstore/memstore.go:67-76 | Finds the undeleted link of the resource if and only if there is one |
| MemStore.LinkRepository.UpdateStatus | internal/adapter/memstore/memstore.go:92-101 | Refines the table's guarded update and returns the updated link |
| MemStore.LinkRepository.SoftDelete | internal/adapter/memstore/memstore.go:103-113 | Refines the table's guarded soft delete |
| MemStore.AddEach | internal/adapter/memstore/memstore.go:121-123 | The loop adds to every link its own delta, whatever the order |
| MemStore.LinkRepository.AddViews | internal/adapter/memstore/memstore.go:115-125 | Refines the table's AddViews, or fails and changes nothing |
| MemStore.LinkCache.Get | internal/adapter/memstore/memstore.go:152-165 | Reads the one slot that the two maps represent |
| MemStore.LinkCache.Set | internal/adapter/memstore/memstore.go:167-176 | The last write wins in that slot, and no other slot changes |
| MemStore.LinkCache.SetNotFound | internal/adapter/memstore/memstore.go:178-186 | A negative entry hides a positive one, and no other slot changes |
| MemStore.LinkCache.Invalidate | internal/adapter/memstore/memstore.go:188-194 | Empties the slot even while the cache is failing |
| MemStore.ViewTracker.Track | internal/adapter/memstore/memstore.go:250-263 | Adds the visitor to the link's visitors, and keeps the pending count equal to their number |
| MemStore.ViewTracker.Pending | internal/adapter/memstore/memstore.go:265-269 | Pending and unique are both the number of distinct visitors |
| Allocation.AgreementStep | internal/usecase/share/create.go:12-55 | Every step of any caller, and any other operation that spares the link, keeps the agreement below |
| Allocation.CreatesAgree | internal/usecase/share/create.go:33-53 | In any interleaving, even with inserts that commit and report an error, at most one Create reports created, all that succeed return the same code, owned by the caller, as the row in the table, and the loser's second lookup always finds the winner's link |
| Allocation.ExhaustionNeedsThreeTakenCodes | internal/usecase/share/create.go:44-54 | ErrCodeExhausted means that three drawn codes were all taken |
| Allocation.RefusalsHaveCauses | internal/usecase/share/create.go:12-55 | Every refusal has its cause among the steps of the call itself: an unknown type, a negative ownership check, a failure, a taken code, or a link that is gone at the second lookup |
| Allocation.CallsNeverStuck | internal/usecase/share/create.go:12-55 | Whatever the table, the next step of a call has an answer; an author passes the check, and a free code for an unshared submission is inserted |
| RateLimit.BucketAdmitsLimit | internal/adapter/redisstore/rate_limiter.go:17-26 | Of n counted requests in a bucket exactly min(n, limit) pass within the limit; besides these only requests pass that got an error, and without errors none do |
| RateLimit.WindowAdmitsTwiceLimit | internal/adapter/redisstore/rate_limiter.go:16-27 | Any window of consecutive time admits at most twice the limit, plus one for each error in it |
| RateLimit.InsideBucket | internal/adapter/redisstore/rate_limiter.go:20-22 | A key touched inside its bucket outlives the bucket |
| RateLimit.RateLimiter.Allow | internal/adapter/redisstore/rate_limiter.go:16-27 | The counter of each bucket is the number of its INCRs, even if replies are lost or EXPIRE is not reached; a request passes if and only if it is among the first `limit` or got an error |

## Left out

- HTTP routes, handlers, DTOs, middleware and the table of status codes: each fact is settled by one branch.
- JWT, configuration, logging, metrics, migrations, the retry helper, container files and scripts.
- Unique visitors today in the Redis tracker (PFADD and PFCOUNT): HyperLogLog is an estimate; the in-memory count is modelled.
- The error returns of the Redis `Pending`: it either returns the counter the model reads or an error.
- `FindOwned`: the read half of the guard that SetStatus and Delete are proved with.
- The in-memory ContentReader and RateLimiter: fixtures with sample data and no window.
- SHA-256, `crypto/rand`, JSON and the internals of pgx, go-redis and singleflight.
- Status of a user account: a locked author's submissions have no snapshot (`ownerActive`), but no use case locks an account.
- `updated_at` and `last_viewed_at`: columns that nothing reads.
- ViewShutdown.GracefulShutdownPersistsEverything: needs that nothing was lost, persisted twice or left unmarked before, and that the commands of the final flush succeed; the configuration rejects fewer than one worker.
- FlushLoop.ViewCounter.Flush: the exact amounts of Redis and the store are stated for a call that runs alone; among others it is covered by the transition system's invariants.
- FlushLoop.ViewCounter.Issue: the pipelines of GETDEL and of restore are sent one command at a time, in any order the loop picks; Redis does not promise more.
- ShareService.Service.Resolve: one call at a time and instantaneous; interleavings are the subject of CacheAside and Allocation.
- MemStore.LinkRepository.AddViews: the loop runs on a copy of the map that is then assigned, which the mutex makes indistinguishable; links are values, so the defensive copies of `clone` have nothing to show.
- RateLimit.RateLimiter.Allow: windows are whole seconds.
