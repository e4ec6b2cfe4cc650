# RAM-A: models and proofs

Dafny models of six components of the repository and proofs of the properties they exist for.

* **KV-cache reference counting** (`Refcounts`, `KvCacheManager`, `LockSteps`, `LockHandlers`, `LockInvariant`,
  `LockProperties`, `LockRaces`, `LockExamples`, `LockLeak`, `LockProgress`, `Daemon`, `SaveRaces`). The coordinator
  keeps one ordered chunk-hash list per session, a table of reference counts that is updated from set differences, and
  fork snapshots that outlive changes to their parent. `KvCacheManager` has each handler atomic: the class invariant
  says that the table *is* the recount, and every handler evicts precisely what lost its last holder. `LockSteps` takes
  the handlers apart at every lock acquisition and release and lets any number of them interleave; `LockHandlers` proves
  that a request which nothing interrupts does what its atomic handler does. `LockInvariant` is what each step keeps,
  `LockProperties` what follows for every run (exactness, safe evictions, freedom from deadlock), `LockRaces` when a
  `fork_end` may overtake a `fork`, `LockExamples` and `LockLeak` the runs that go wrong and what becomes of them,
  `LockProgress` that requests end. `Daemon` adds the session store, pins, suspend, restore and restart, each event as a
  whole; `SaveRaces` takes the events apart between memory and store.
* **Document chunking** (`Chunker`, with theorems in `ChunkMerging`, `ChunkSentences`, `ChunkContent`, `ChunkTokens`,
  `ChunkPieces`, `ChunkPacking` and `ChunkSources`). Trim, merge, split, pack: nothing is lost or reordered, token
  budgets hold, packing is optimal, and every chunk knows exactly the nodes it came from. The token counter is an
  arbitrary function; where a theorem needs something of it, it says so.
* **Streaming responses** (`EventStream`, `StreamGrammar`, `StreamTransport`, `StreamMeaning`, `ResponseStream`). An
  incremental line parser (a subset of server-sent events, sections 9.2.5 and 9.2.6 of the WHATWG HTML Living Standard),
  a state machine that builds the message and queues events, and the consumer's pull. `StreamTransport` is the machine
  as a value, `StreamMeaning` what a message says in terms of the chunks alone; `ResponseStream` is the iterator with
  its mutable fields, proved to follow it.
* **Resumable stages** (`Stages`, `StageChain`). Hash-checked memoisation over a file system, with a crash possible before
  every change: an arm restarted over and over ends as one clean run would.
* **Context budgets** (`ContextBudget`). Sharing a token budget, and the search for the longest prefix that fits.
* **Ranking metrics** (`Ranking`, `Provenance`). Why nDCG stays within 1, and exactly when.

`Basics`, `FirstSeen` and `Trimming` hold what several components share. `dafny verify dfyconfig.toml` checks everything.

## Where the code and its promises part

* `on_session_fork` counts its snapshot in a third critical section after publishing it. A `fork_end`, with or without a
  fork id, can consume the snapshot in between. It then either takes away references that others hold, and a chunk that
  a session still lists is evicted (`LockExamples.OvertakenForkLosesALiveChunk`), or finds nothing to take away, and the
  fork's own increments afterwards are never undone (`LockExamples.OvertakenForkLeaksACount`, `LockLeak.LeakIsForEver`).
  The exact condition, over everything that may follow, is `LockRaces.EndingStaysExactIff`: the list is empty, or the fork
  is not waiting for `refcounts`. A fork that already holds `refcounts` will count before the `fork_end` can get at the
  table, so it need not have returned; but its caller cannot see the difference, and can rely on exactly this: a fork that
  has returned is safe to end (`LockRaces.ReturnedForksAreSafe`), any other with something to count was unsafe at some
  moment since it was published, and nothing has told its caller that the moment is over
  (`LockRaces.UnreturnedForksWereUnsafe`). The theorems about all interleavings are about runs in which no `fork_end`
  overtakes a fork waiting for `refcounts`; freedom from deadlock needs no such condition.
* `on_session_fork` reads its parent's list in a first section and counts it in that third one. Even without overtaking,
  the parent can give the chunks up in between: the fork then lists and counts a chunk whose eviction was already ordered
  (`LockExamples.ForkOfAnEvictedChunk`); this happens to a chunk if and only if at some moment in between the table has no
  entry for it (`LockExamples.ForkedChunkEvictedIff`).
* Fork ids start at 1 again in every process and snapshots are not stored, so an id from before a restart ends a new fork
  if and only if the fork that got its number is one of the same session, whoever else forks (`Daemon.StaleForkId`,
  `Daemon.StaleForkIdExample`).
* `on_snapshot_restore` is documented to preserve the turn count. A restore that finds a list does so if and only if the
  session is still in memory or the count is zero (`Daemon.RestoreKeepsTurnCountIff`). A session that was suspended, or
  closed while pinned, gets the turn count of its row if the daemon restarted since, and nought if it did not
  (`Daemon.LeaveThenRestore`); after a refused save even the former is not what it had (`Daemon.RefusedSaveIsLost`).
* `handle_event` reads the list, reads the turn count and saves the row with no lock across the three. A `session_close`
  in between removes the row and the late save puts it back, so that a closed, unpinned session returns after a restart
  (`SaveRaces.ClosedSessionReturns`), in exactly this way and no other (`SaveRaces.ClosedReturnsIffSavedTooLate`).
* A comment in `processChunk` says that the published deltas match the stored text after truncation. The delta that
  crosses the limit is stored and not published (`StreamTransport.OnlyTheCrossingDeltaIsHeldBack`), so the two agree if
  and only if the limit is not crossed (`StreamTransport.PublishedIsStoredIff`, `StreamTransport.OneDeltaTooLong`).
* `_stage_is_complete` compares expected keys only, so a key that the manifest has lost goes unnoticed
  (`Stages.HitIsRightExactlyWithSameKeys`, `Stages.HitUnderLostKey`). The manifests of `run_arm` always have the same keys.
* `apply_context_token_budget` gives every context at least one token and so can spend n tokens on a smaller budget
  (`ContextBudget.OneTokenEachIsSpent`); it keeps every positive budget if and only if that is at least n
  (`ContextBudget.BudgetIsKeptExactly`).
* `ndcg_at_k` exceeds 1 for rankings with repeats; only the upstream deduplication keeps it in range
  (`Ranking.NdcgIsBoundedExactlyWithoutRepeats`). For a negative k the metrics disagree, and removing repeats can lower
  recall (`Ranking.NdcgAndRecallAgree`, `Ranking.UniqueKeepsRecall`).

## Model

| member | source | states |
|---|---|---|
| `FirstSeen.Unique` | ram-a-kv/crates/manager-core/src/manager.rs:85-94 | the elements of a list, each exactly once, nothing lost |
| `FirstSeen.FirstSeenOrder` | ram-a-kv/crates/manager-core/src/manager.rs:84-94 | the kept elements stand in the order of their first occurrences |
| `KvCacheManager.UniqueHashes` | ram-a-kv/crates/manager-core/src/manager.rs:85-94 | the loop with its `seen` set computes exactly that list |
| `Refcounts.DecrementMeaning` | ram-a-kv/crates/manager-core/src/manager.rs:601-621 | on any table and any list, repeats included: each count falls by the occurrences and stops at zero; exactly the entries that reach zero are dropped and listed, once each; asking for more than the table holds takes a warning branch |
| `Refcounts.IncrementMeaning` | ram-a-kv/crates/manager-core/src/manager.rs:230-232 | each count rises by the occurrences and nothing else changes |
| `Refcounts.ReferencedIffCounted` | ram-a-kv/crates/manager-core/src/manager.rs:531-536 | a hash has a holder if and only if its number of holders is positive |
| `Refcounts.TablesAgree` | ram-a-kv/crates/manager-core/src/manager.rs:531-555 | two exact tables over the same holders are equal, so the incremental table can only be the recount |
| `Refcounts.Exchange` | ram-a-kv/crates/manager-core/src/manager.rs:210-237 | decrementing and incrementing by two disjoint lists turns the exact table of one family of holders into the exact table of the next; no warning branch is taken; the eviction list is without repeats and is precisely what had a holder before and has none after |
| `Refcounts.ExchangeSession` | ram-a-kv/crates/manager-core/src/manager.rs:210-235 | the same for one session whose list changes, with the set differences the handlers compute |
| `Refcounts.ExchangeFork` | ram-a-kv/crates/manager-core/src/manager.rs:427-456 | the same for one fork snapshot |
| `Refcounts.ExchangeClosing` | ram-a-kv/crates/manager-core/src/manager.rs:388-401 | the same for a session that goes away |
| `Refcounts.ExchangeReleasing` | ram-a-kv/crates/manager-core/src/manager.rs:497-503 | the same for a fork snapshot that goes away |
| `KvCacheManager.Manager.DecrementRefcounts` | ram-a-kv/crates/manager-core/src/manager.rs:601-621 | the loop over the table returns the specified table, eviction list and number of warnings |
| `KvCacheManager.Manager.IncrementRefcounts` | ram-a-kv/crates/manager-core/src/manager.rs:230-232 | the increment loop returns the specified table |
| `KvCacheManager.Manager.ApplyDifference` | ram-a-kv/crates/manager-core/src/manager.rs:211-233 | from an exact table, moving by old-minus-new and new-minus-old gives the exact table for the new list, evicts exactly what lost its last holder, logs no warning |
| `KvCacheManager.Manager.OnTurnEnd` | ram-a-kv/crates/manager-core/src/manager.rs:177-271 | counts stay exact and positive; new map in the given order or unchanged, turn count up by one modulo 2^32; evicted if and only if referenced before and by nobody after; the outcome of the backend call and of the debug file, whose failure comes after everything has been done |
| `KvCacheManager.Manager.OnSnapshotRestore` | ram-a-kv/crates/manager-core/src/manager.rs:282-365 | counts stay exact; the map is replaced in order and the turn count kept; eviction is exact; prefetch outcome |
| `KvCacheManager.Manager.OnSessionClose` | ram-a-kv/crates/manager-core/src/manager.rs:388-418 | counts stay exact; the session is gone; chunks a fork still holds are not evicted, all others it alone held are |
| `KvCacheManager.Manager.OnSessionFork` | ram-a-kv/crates/manager-core/src/manager.rs:427-456 | a fresh id, a snapshot of the parent without repeats, counts exact with it; nothing gains or loses its last holder; unknown sessions change nothing |
| `KvCacheManager.Manager.LatestFork` | ram-a-kv/crates/manager-core/src/manager.rs:486-495 | the highest fork id of the session, or none |
| `KvCacheManager.Manager.ReleaseFork` | ram-a-kv/crates/manager-core/src/manager.rs:497-503 | releasing a snapshot evicts exactly what nobody else holds, whatever became of the parent |
| `KvCacheManager.Manager.OnSessionForkEnd` | ram-a-kv/crates/manager-core/src/manager.rs:464-520 | which snapshot is consumed (named and owned, or the latest, or none), exact eviction, and nothing at all changes when none is found |
| `KvCacheManager.Manager.RestoreSession` | ram-a-kv/crates/manager-core/src/manager.rs:522-529 | one session is put back as given; the table is not touched |
| `KvCacheManager.CountSession` | ram-a-kv/crates/manager-core/src/manager.rs:540-547 | each distinct hash of one session is counted once more |
| `KvCacheManager.Recount` | ram-a-kv/crates/manager-core/src/manager.rs:537-548 | the recount is exact for the sessions |
| `KvCacheManager.Manager.RebuildRefcounts` | ram-a-kv/crates/manager-core/src/manager.rs:537-555 | afterwards the table is the recount; without live forks any table becomes valid and a valid one is unchanged |
| `KvCacheManager.NextTurnMeaning` | ram-a-kv/crates/manager-core/src/manager.rs:201 | the turn count goes up by one below 2^32 - 1 and from there to nought |
| `KvCacheManager.OutcomeMeaning` | ram-a-kv/crates/manager-core/src/manager.rs:325-365 | evictions are counted if accepted, prefetches even if refused, and an outcome is degraded if and only if some call that was made was refused |
| `KvCacheManager.DebugMeaning` | ram-a-kv/crates/manager-core/src/manager.rs:254-270 | an operation succeeds if and only if no debug file failed to be written, and says whether one was |
| `LockProperties.StepKeepsInv` | ram-a-kv/crates/manager-core/src/manager.rs:177-520 | every step of every request keeps mutual exclusion, the exactness of the table for the lists it accounts for, and each writer's and fork's local facts |
| `LockProperties.EveryStateOfARun` | ram-a-kv/crates/manager-core/src/manager.rs:177-520 | so every state of every interleaving has them |
| `LockProperties.StepMovesCounts` | ram-a-kv/crates/manager-core/src/manager.rs:228-233 | each step that moves counts keeps them exact, takes no warning branch and lists exactly what loses its last holder |
| `LockProperties.ExactInEveryInterleaving` | ram-a-kv/crates/manager-core/src/manager.rs:185-239 | in every interleaving, whenever no writer is inside its section, each count is the number of sessions listing the hash plus the number of live forks whose increments are done |
| `LockProperties.SettledWhenLocksAreFree` | ram-a-kv/crates/manager-core/src/manager.rs:130-136 | that is so whenever `sessions` and `snapshots` are free |
| `LockProperties.EvictionsAreSafeInEveryInterleaving` | ram-a-kv/crates/manager-core/src/manager.rs:210-237 | whatever is handed to the backend has no holder left in any interleaving, the list about to be stored included |
| `LockProperties.NoDeadlock` | ram-a-kv/crates/manager-core/src/manager.rs:471-555 | in any state whatever, reachable or not, and with recounts under way too: while some request is under way, some request can step, since `refcounts` is always the last lock taken |
| `LockHandlers.TurnEndAlone` | ram-a-kv/crates/manager-core/src/manager.rs:177-240 | a `turn_end` that nothing interrupts, in any state and with any other requests under way that hold no lock: the session's list as given or kept, its count one up, forks untouched, the table exact if it was, exactly what loses its last holder ordered to be evicted; without hashes neither table nor eviction list move |
| `LockHandlers.RestoreAlone` | ram-a-kv/crates/manager-core/src/manager.rs:282-336 | so for a `snapshot_restore`: the list in order, the turn count kept |
| `LockHandlers.CloseAlone` | ram-a-kv/crates/manager-core/src/manager.rs:388-401 | so for a `session_close`: the session gone |
| `LockHandlers.ForkAlone` | ram-a-kv/crates/manager-core/src/manager.rs:427-456 | so for a `fork`: one snapshot more, under the next id, nothing evicted; nothing at all for an unknown session |
| `LockHandlers.ForkEndAlone` | ram-a-kv/crates/manager-core/src/manager.rs:464-503 | so for a `fork_end`: the snapshot that is chosen gone, or nothing at all if there is none |
| `LockHandlers.RebuildAlone` | ram-a-kv/crates/manager-core/src/manager.rs:537-555 | so for a recount: the table is exact for the sessions alone |
| `LockHandlers.TurnEndIsTheHandler` | ram-a-kv/crates/manager-core/src/manager.rs:177-240 | on its own, the request taken apart at its locks and the atomic handler leave the same sessions, table, forks and next id, and evict the same |
| `LockHandlers.RestoreIsTheHandler` | ram-a-kv/crates/manager-core/src/manager.rs:282-336 | so for restoring |
| `LockHandlers.CloseIsTheHandler` | ram-a-kv/crates/manager-core/src/manager.rs:388-401 | so for closing |
| `LockHandlers.ForkIsTheHandler` | ram-a-kv/crates/manager-core/src/manager.rs:427-456 | so for forking |
| `LockHandlers.ForkEndIsTheHandler` | ram-a-kv/crates/manager-core/src/manager.rs:464-503 | so for ending a fork |
| `LockHandlers.EvictionsAreOrdered` | ram-a-kv/crates/manager-core/src/manager.rs:228-237 | the eviction list of a step is what the request then orders the backend to evict |
| `LockProgress.SchedulesAreBounded` | ram-a-kv/crates/manager-core/src/manager.rs:177-555 | from any state whatever, no schedule of the requests under way is longer than the work they have left |
| `LockProgress.StuckMeansAllIdle` | ram-a-kv/crates/manager-core/src/manager.rs:177-555 | and a schedule that cannot go on has ended every request |
| `LockProgress.EveryRequestCanEnd` | ram-a-kv/crates/manager-core/src/manager.rs:177-520 | every run in which no fork is overtaken can go on, without overtaking, until every request has ended |
| `LockRaces.EndingStaysExactIff` | ram-a-kv/crates/manager-core/src/manager.rs:437-503 | for a `fork_end` about to consume a snapshot in any run: the table stays exact in every continuation, the increments of the snapshot's own fork included, if and only if the list is empty or that fork is not waiting for `refcounts` |
| `LockRaces.ReturnedForksAreSafe` | ram-a-kv/crates/manager-core/src/manager.rs:437-456 | so a fork that has returned is safe to end at any time |
| `LockRaces.UnreturnedForksWereUnsafe` | ram-a-kv/crates/manager-core/src/manager.rs:437-456 | and one that has not returned, with anything to count, was unsafe to end at some moment since it was published, and has been under way ever since |
| `LockExamples.OvertakenForkLosesALiveChunk` | ram-a-kv/crates/manager-core/src/manager.rs:486-495 | a run in which a `fork_end` without id overtakes the session's own `fork` and evicts a chunk the session still lists |
| `LockExamples.OvertakenForkLeaksACount` | ram-a-kv/crates/manager-core/src/manager.rs:437-503 | a run in which the session closes first: the `fork_end` finds nothing to decrement, the fork counts afterwards, and with every request done and no holder left a count of 1 stays |
| `LockLeak.LeakIsForEver` | ram-a-kv/crates/manager-core/src/manager.rs:437-503 | whatever callers who overtake no fork do after that run: whenever counts are settled, the leaked chunk has exactly one more than it has holders, and every other chunk exactly its holders |
| `LockLeak.LeakIsNeverEvicted` | ram-a-kv/crates/manager-core/src/manager.rs:601-621 | and no step hands the leaked chunk to the backend |
| `LockExamples.EvictedMeanwhileIff` | ram-a-kv/crates/manager-core/src/manager.rs:210-237 | in any run: a chunk that a session or a counted fork holds at one moment is evicted by a later one if and only if in between nothing holds it |
| `LockExamples.ForkedChunkEvictedIff` | ram-a-kv/crates/manager-core/src/manager.rs:427-455 | in any run: a chunk of the list that a fork is about to read is evicted before any later moment if and only if at some moment in between the table has no entry for it |
| `LockExamples.ForkOfAnEvictedChunk` | ram-a-kv/crates/manager-core/src/manager.rs:427-455 | a run without overtaking in which the parent closes between the reading and the counting of a fork: a live, counted fork lists a chunk whose eviction was ordered |
| `Daemon.SessionStore.Save` | ram-a-kv/crates/ram-a-kv/src/session_store.rs:70-83 | insert or replace of one row |
| `Daemon.SessionStore.Remove` | ram-a-kv/crates/ram-a-kv/src/session_store.rs:128-136 | the row is gone, pins stay |
| `Daemon.SessionStore.PinSession` | ram-a-kv/crates/ram-a-kv/src/session_store.rs:162-175 | the pin is set, rows stay |
| `Daemon.Service.HandleTurnEnd` | ram-a-kv/crates/ram-a-kv/src/api.rs:137-157 | memory and store after a `turn_end`: refused for a payload that does not parse, an empty id or an oversized list; stored exactly as in memory when the store accepts, and not stored, though kept in memory, when the debug file cannot be written |
| `Daemon.OversizedAtTheLimits` | ram-a-kv/crates/ram-a-kv/src/handlers/turn_end.rs:23-110 | 4096 hashes of 100 characters are accepted; one hash more, or any of 101, refuses the event |
| `Daemon.RefusedChangesNothing` | ram-a-kv/crates/ram-a-kv/src/handlers/turn_end.rs:79-110 | an event without a session id, or an oversized one, changes neither memory nor store |
| `Daemon.Service.HandleSessionClose` | ram-a-kv/crates/ram-a-kv/src/api.rs:158-169 | gone from memory; the row goes too unless pinned |
| `Daemon.Service.HandleSessionSuspend` | ram-a-kv/crates/ram-a-kv/src/handlers/session_suspend.rs:31-51 | pinned, then gone from memory, row kept |
| `Daemon.Service.HandleSnapshotRestore` | ram-a-kv/crates/ram-a-kv/src/handlers/snapshot_restore.rs:31-80 | restores from memory first, then the store, never an empty list; pins; otherwise fails and changes nothing |
| `Daemon.Service.RestartDaemon` | ram-a-kv/crates/ram-a-kv/src/main.rs:177-190 | a new coordinator holds exactly the stored rows and its table is their recount |
| `Daemon.Rehydrate` | ram-a-kv/crates/ram-a-kv/src/main.rs:177-187 | the startup loop restores every row |
| `Daemon.RowsAreLastSaves` | ram-a-kv/crates/ram-a-kv/src/api.rs:137-169 | after any history a row exists if and only if some save of it was not forgotten since, and it is the state just after the last such save |
| `Daemon.RestartBringsBackLastSaves` | ram-a-kv/crates/ram-a-kv/src/main.rs:177-190 | a restart after any history brings back exactly those sessions, each as it was just after its last save |
| `Daemon.TurnEndSurvivesRestart` | ram-a-kv/crates/ram-a-kv/src/api.rs:137-157 | a session whose last event was a stored `turn_end` returns with the same ordered map and turn count |
| `Daemon.ClosedReturnsOnlyIfPinned` | ram-a-kv/crates/ram-a-kv/src/api.rs:158-169 | a closed session returns if and only if it was pinned and stored, and then with its stored row |
| `Daemon.PinnedRowsStay` | ram-a-kv/crates/ram-a-kv/src/session_store.rs:160-175 | a pinned row is never lost again |
| `Daemon.SuspendedRowsStay` | ram-a-kv/crates/ram-a-kv/src/handlers/session_suspend.rs:31-51 | so a stored session that is suspended, or restored, is never lost again, whatever comes after |
| `Daemon.RestoreKeepsTurnCountIff` | ram-a-kv/crates/ram-a-kv/src/handlers/snapshot_restore.rs:37-71 | in any state of the daemon, whether or not memory and store agree: a restore that finds a list leaves the turn count (memory's, or else the row's) if and only if the session is in memory or that count is zero, and the list if and only if it was not empty |
| `Daemon.RestoreInMemoryKeepsCount` | ram-a-kv/crates/ram-a-kv/src/handlers/snapshot_restore.rs:37-71 | after any history a session still in memory keeps its turn count, and its list unless that is empty |
| `Daemon.GoneUntilRestart` | ram-a-kv/crates/ram-a-kv/src/main.rs:177-190 | whatever happens to other sessions, one that has left memory has the row it had, and is in memory again, as its row, if and only if the daemon restarted |
| `Daemon.LeaveThenRestore` | ram-a-kv/crates/ram-a-kv/src/handlers/snapshot_restore.rs:37-71 | after any history, refused saves included, for suspension and closing, and with anything happening to other sessions meanwhile: whether the session comes back, with the list of its row, and with the row's turn count or nought depending on a restart |
| `Daemon.LeavingLosesTurnCountUnless` | ram-a-kv/crates/ram-a-kv/src/handlers/snapshot_restore.rs:37-71 | so the turn count it had in memory comes back if and only if the daemon restarted and the row had it, or did not restart and it was zero |
| `Daemon.RefusedSaveIsLost` | ram-a-kv/crates/ram-a-kv/src/api.rs:137-157 | a history on which even a restart brings back neither the list nor the count: the last save was refused |
| `Daemon.StaleForkId` | ram-a-kv/crates/manager-core/src/manager.rs:104-112 | a fork id from before a restart consumes a snapshot of the new process if and only if the fork that was given that number again, among all sessions' forks, is one of the same session |
| `Daemon.StaleForkIdExample` | ram-a-kv/crates/manager-core/src/manager.rs:104-112 | two orders of forking after a restart: in one the stale id consumes the session's only new fork, in the other nothing |
| `SaveRaces.Uninterrupted` | ram-a-kv/crates/ram-a-kv/src/api.rs:128-169 | whatever other requests are in the middle of, an event that is not interrupted does what the event does whole |
| `SaveRaces.OrphanWasSavedTooLate` | ram-a-kv/crates/ram-a-kv/src/api.rs:137-169 | after any interleaving of event handlers, a row whose session is neither in memory nor pinned nor being closed was saved by a `turn_end` that had read the session before a close |
| `SaveRaces.ClosedReturnsIffSavedTooLate` | ram-a-kv/crates/ram-a-kv/src/api.rs:137-169 | after any interleaving, a session that is not in memory, not pinned and not being closed comes back at a restart if and only if a `turn_end` read its list, a close took it out of memory, the `turn_end` saved, and no close has removed the row since |
| `SaveRaces.ClosedSessionReturns` | ram-a-kv/crates/ram-a-kv/src/api.rs:137-169 | such an interleaving of one `turn_end` and one close: the closed session returns with its list and a turn count of nought |
| `Chunker.MergeAdjacentTextNodes` | ram-a-mem/crates/memory-cases/src/chunker.rs:114-144 | the loop over the growing vector is the step-by-step merge the theorems are about, unless a count fails |
| `Chunker.ExtendUniqueInPlace` | ram-a-mem/crates/memory-cases/src/chunker.rs:267-273 | the loop appends exactly the missing values in order |
| `Chunker.SplitSentences` | ram-a-mem/crates/memory-cases/src/chunker.rs:275-307 | the scanning loop yields the specified sentences |
| `Chunker.TakeTokenPrefix` | ram-a-mem/crates/memory-cases/src/chunker.rs:333-368 | the halving loop yields the specified prefix, of which `ChunkTokens.TokenPrefixIsLongest` says that it is the longest |
| `Chunker.SplitNodeIntoBudgetedSentences` | ram-a-mem/crates/memory-cases/src/chunker.rs:188-219 | both loops terminate and yield the specified pieces |
| `Chunker.CutIntoPrefixes` | ram-a-mem/crates/memory-cases/src/chunker.rs:207-216 | the inner loop terminates, for any counter, and yields the specified prefixes |
| `Chunker.PackSentences` | ram-a-mem/crates/memory-cases/src/chunker.rs:164-182 | the inner loop over one node's pieces |
| `Chunker.SplitTextNodes` | ram-a-mem/crates/memory-cases/src/chunker.rs:146-186 | the packing loop with its pending chunk yields the specified chunks |
| `Chunker.ChunkParseResult` | ram-a-mem/crates/memory-cases/src/chunker.rs:68-98 | the four stages composed: it fails only if the counter fails, and otherwise the parts are those of every counter that agrees with the one given wherever that one answers; each part has the topology of the parse result and exactly the count made for it |
| `Chunker.TokenPrefixLength` | ram-a-mem/crates/memory-cases/src/chunker.rs:207-216 | a prefix is never longer than the rest, so the prefix loop shrinks it |
| `ChunkSentences.CutsAreTheCuts` | ram-a-mem/crates/memory-cases/src/chunker.rs:309-331 | the cut positions are the start and every position after a boundary character, in increasing order |
| `ChunkSentences.SentencesLieBetweenCuts` | ram-a-mem/crates/memory-cases/src/chunker.rs:275-307 | the sentences are the non-blank stretches between successive cuts, and nothing else |
| `ChunkContent.ProcessKeepsInk` | ram-a-mem/crates/memory-cases/src/chunker.rs:100-112 | trimming and filtering lose only whitespace |
| `ChunkContent.MergeKeepsInk` | ram-a-mem/crates/memory-cases/src/chunker.rs:114-144 | merging loses and reorders nothing but whitespace |
| `ChunkContent.SentencesKeepInk` | ram-a-mem/crates/memory-cases/src/chunker.rs:275-307 | so does sentence splitting; no sentence is blank or untrimmed |
| `ChunkContent.TokenPrefixIsPrefix` | ram-a-mem/crates/memory-cases/src/chunker.rs:333-368 | the prefix of a trimmed text is a non-empty trimmed prefix of it |
| `ChunkContent.PrefixesKeepInk` | ram-a-mem/crates/memory-cases/src/chunker.rs:207-216 | cutting an over-long sentence loses only whitespace |
| `ChunkContent.PiecesKeepInk` | ram-a-mem/crates/memory-cases/src/chunker.rs:188-219 | so does making the pieces of a node |
| `ChunkContent.PackNodesKeepsInk` | ram-a-mem/crates/memory-cases/src/chunker.rs:146-186 | so does packing |
| `ChunkContent.ChunkingKeepsTheText` | ram-a-mem/crates/memory-cases/src/chunker.rs:68-98 | for every node list, budget and counter: without whitespace, the chunks in order are the nodes in order |
| `ChunkTokens.CutMeaning` | ram-a-mem/crates/memory-cases/src/chunker.rs:347-356 | the halving search ends at a position that fits next to one that does not |
| `ChunkTokens.CutIsLongest` | ram-a-mem/crates/memory-cases/src/chunker.rs:333-368 | for a counter monotone along prefixes it is the longest prefix that fits |
| `ChunkTokens.TokenPrefixIsLongest` | ram-a-mem/crates/memory-cases/src/chunker.rs:333-368 | of a trimmed text and with a counter that never falls along its prefixes: the result fits or is one character, and no trimmed prefix that fits is longer |
| `ChunkPieces.PrefixesCutUp` | ram-a-mem/crates/memory-cases/src/chunker.rs:207-216 | an over-long sentence is cut into pieces each of which is the longest cut of what the ones before it left, until nothing is left |
| `ChunkPieces.PiecesAreSentences` | ram-a-mem/crates/memory-cases/src/chunker.rs:188-219 | the pieces of a node are its sentences in order, each whole if it fits and cut up if not |
| `ChunkPieces.TenLetters` | ram-a-mem/crates/memory-cases/src/chunker.rs:406-411 | ten letters with a budget of two tokens of four letters are cut after the eighth |
| `ChunkMerging.MergeMakesRuns` | ram-a-mem/crates/memory-cases/src/chunker.rs:114-144 | merged nodes are maximal runs of text nodes: each prefix of a run fitted, and no run ends that could have taken the next node |
| `ChunkMerging.NodeSpacingMeaning` | ram-a-mem/crates/memory-cases/src/chunker.rs:257-265 | between merged texts stands a newline or a space if the second asks for one, and else nothing |
| `ChunkMerging.BudgetedJoinMeaning` | ram-a-mem/crates/memory-cases/src/chunker.rs:231-255 | between packed pieces stands a newline, unless the first ends with a mark that may end a sentence |
| `ChunkSentences.BoundaryMeaning` | ram-a-mem/crates/memory-cases/src/chunker.rs:309-331 | a character is a boundary if and only if it is a hard mark, or a full stop at the end or before whitespace where no protected abbreviation ends |
| `ChunkTokens.TokenPrefixIsGood` | ram-a-mem/crates/memory-cases/src/chunker.rs:333-368 | the prefix fits the budget or is a single character that does not |
| `ChunkTokens.ChunksAreWithinBudget` | ram-a-mem/crates/memory-cases/src/chunker.rs:68-98 | if trimming never raises the count: each text chunk's reported count is its own and at most the budget, unless the chunk is one character over budget by itself |
| `ChunkPacking.GreedyIsAPartition` | ram-a-mem/crates/memory-cases/src/chunker.rs:161-181 | the greedy starts cut the pieces into contiguous runs that fit or are one piece |
| `ChunkPacking.GreedyIsFewest` | ram-a-mem/crates/memory-cases/src/chunker.rs:161-181 | no such partition has fewer runs, if sub-runs of fitting runs fit |
| `ChunkPacking.SplitIsGreedy` | ram-a-mem/crates/memory-cases/src/chunker.rs:146-186 | on text nodes the packer makes exactly the greedy runs |
| `ChunkPacking.TextRunsArePackedOptimally` | ram-a-mem/crates/memory-cases/src/chunker.rs:146-186 | so its chunks are those runs and the fewest possible |
| `ChunkPacking.SplitAtOtherNode` | ram-a-mem/crates/memory-cases/src/chunker.rs:154-159 | what stands before and after a node that is not text is packed independently, and that node is one chunk unchanged |
| `ChunkSources.ExtendRun` | ram-a-mem/crates/memory-cases/src/chunker.rs:267-273 | extending one run of node ids by the next gives the joined run |
| `ChunkSources.ProcessedIds` | ram-a-mem/crates/memory-cases/src/chunker.rs:100-112 | the ids kept are exactly those of the nodes that are not blank |
| `ChunkSources.MergedSpans` | ram-a-mem/crates/memory-cases/src/chunker.rs:114-144 | merged nodes stand for runs that tile the non-blank nodes |
| `ChunkSources.ChunksStandForRuns` | ram-a-mem/crates/memory-cases/src/chunker.rs:68-98 | each chunk stands for a contiguous run of non-blank text nodes or for one other node; the runs begin at the first node, end at the last, leave no gap and overlap only between text chunks |
| `ChunkSources.SourcesCoverTheNodes` | ram-a-mem/crates/memory-cases/src/chunker.rs:68-98 | strictly increasing sources, none empty, none outside; every non-blank node is in some chunk |
| `ChunkSources.OtherNodesAreAlone` | ram-a-mem/crates/memory-cases/src/chunker.rs:154-159 | a node that is not text is alone in exactly one chunk, content and type unchanged |
| `EventStream.YieldsOfConcat` | ram-a-kv/openclaw-plugin/src/stream-transport.ts:112-124 | the yields of more lines are the yields so far and, unless a `[DONE]` came, those of the new lines |
| `EventStream.LinesOfConcat` | ram-a-kv/openclaw-plugin/src/stream-transport.ts:109-114 | more text continues the unterminated line and adds lines after it |
| `EventStream.NothingAfterDone` | ram-a-kv/openclaw-plugin/src/stream-transport.ts:119 | text after a `[DONE]` line changes nothing |
| `EventStream.TakeLines` | ram-a-kv/openclaw-plugin/src/stream-transport.ts:112-125 | the inner loop yields what the complete lines so far yield |
| `EventStream.IterateSse` | ram-a-kv/openclaw-plugin/src/stream-transport.ts:94-130 | for every cut into fragments, exactly the payloads of the newline-terminated lines of the whole text up to the first `[DONE]`: some increasing list of lines before it, one for each value yielded, carries it, and no other line before it carries any |
| `EventStream.LineMeaning` | ram-a-kv/openclaw-plugin/src/stream-transport.ts:115-124 | a line gives a value if and only if it trims to `data:` and something that trims to a payload, other than `[DONE]`, that parses to it; it ends the stream if and only if that payload is `[DONE]` |
| `EventStream.YieldsMeaning` | ram-a-kv/openclaw-plugin/src/stream-transport.ts:112-125 | what lines yield is what they give, in order, before the first that ends the stream |
| `EventStream.TextIsItsLines` | ram-a-kv/openclaw-plugin/src/stream-transport.ts:112-114 | the lines are the text cut at its newlines, and what follows the last is left over |
| `StreamGrammar.StartIsFirst` | ram-a-kv/openclaw-plugin/src/stream-transport.ts:374-377 | in an accepted stream `start` comes once, first |
| `StreamGrammar.StartsAreNumbered` | ram-a-kv/openclaw-plugin/src/stream-transport.ts:383-385 | block starts carry 0, 1, 2, ... in order |
| `StreamGrammar.DeltasFollowTheirStart` | ram-a-kv/openclaw-plugin/src/stream-transport.ts:400-402 | each delta and each end follows the start of its own block and kind |
| `StreamGrammar.EveryBlockEndsOnce` | ram-a-kv/openclaw-plugin/src/stream-transport.ts:455-492 | before `done` each block has exactly one end, of its own kind, after all its deltas |
| `StreamGrammar.NothingAfterTerminal` | ram-a-kv/openclaw-plugin/src/stream-transport.ts:561-585 | the terminal event is the last |
| `StreamTransport.OnlyTheCrossingDeltaIsHeldBack` | ram-a-kv/openclaw-plugin/src/stream-transport.ts:387-403 | stored and published text are equal up to the limit; beyond it they differ by exactly the one delta that crossed it |
| `StreamTransport.PublishedIsStoredIff` | ram-a-kv/openclaw-plugin/src/stream-transport.ts:387-403 | stored and published text are equal if and only if the stored text is within the limit |
| `StreamTransport.OneDeltaTooLong` | ram-a-kv/openclaw-plugin/src/stream-transport.ts:387-403 | an input on which they are not: one delta of a character over the limit, stored whole and not published at all |
| `StreamTransport.GrowTextOk` | ram-a-kv/openclaw-plugin/src/stream-transport.ts:387-403 | a text delta keeps the machine's invariant and adds to stored and published text what it should |
| `StreamTransport.GrowThinkingOk` | ram-a-kv/openclaw-plugin/src/stream-transport.ts:406-416 | so for thinking |
| `StreamTransport.GrowToolOk` | ram-a-kv/openclaw-plugin/src/stream-transport.ts:429-445 | so for one tool call: its own arguments grow, those of no other call |
| `StreamTransport.CallsStepAdds` | ram-a-kv/openclaw-plugin/src/stream-transport.ts:418-447 | however tool indices interleave, each call grows by its own deltas |
| `StreamTransport.ChunkStepAdds` | ram-a-kv/openclaw-plugin/src/stream-transport.ts:342-448 | what one chunk adds to text, thinking and each call |
| `StreamTransport.HistoryIsCaught` | ram-a-kv/openclaw-plugin/src/stream-transport.ts:342-448 | after any chunks the machine holds and has told exactly what they said |
| `StreamTransport.DeltasRebuildBlocks` | ram-a-kv/openclaw-plugin/src/stream-transport.ts:381-447 | each block is rebuilt by its deltas: text but for the crossing delta, thinking, and arguments as the parse of the call's own deltas |
| `StreamMeaning.ChunkMeaning` | ram-a-kv/openclaw-plugin/src/stream-transport.ts:364-407 | what one chunk adds: its content, and what it thinks, where `reasoning_content` hides `reasoning` even if empty |
| `StreamMeaning.PartialJsonMeaning` | ram-a-kv/openclaw-plugin/src/stream-transport.ts:56-70 | arguments are the parsed object of the trimmed text, and none if there is no such object yet |
| `StreamMeaning.GatheredInOrder` | ram-a-kv/openclaw-plugin/src/stream-transport.ts:381-445 | what chunks add is put together in their order |
| `StreamMeaning.SaidInOrder` | ram-a-kv/openclaw-plugin/src/stream-transport.ts:381-445 | thoughts and the arguments of each call are so put together |
| `StreamMeaning.CallsInOrder` | ram-a-kv/openclaw-plugin/src/stream-transport.ts:418-445 | so are the arguments within one chunk; a delta without index belongs to call 0 |
| `StreamMeaning.StoredUpToTheCrossing` | ram-a-kv/openclaw-plugin/src/stream-transport.ts:387-403 | text is stored in full up to and including the delta that crosses 2000000 characters, and published up to the one before |
| `StreamMeaning.ToolsAreAsSaid` | ram-a-kv/openclaw-plugin/src/stream-transport.ts:418-428 | after any chunks the tool calls are those the chunks named, in first-seen order, each with the id and the name of its first delta |
| `StreamMeaning.EveryBlockWasSaid` | ram-a-kv/openclaw-plugin/src/stream-transport.ts:381-447 | every block is one the chunks spoke of and says all they said of it: a tool call has the id and name of its first delta and the arguments of all of them |
| `StreamMeaning.EveryToolHasItsBlock` | ram-a-kv/openclaw-plugin/src/stream-transport.ts:418-447 | every tool call spoken of has its block |
| `StreamMeaning.TextsHaveTheirBlocks` | ram-a-kv/openclaw-plugin/src/stream-transport.ts:381-416 | so have text and thinking |
| `StreamTransport.EndOrderIsComplete` | ram-a-kv/openclaw-plugin/src/stream-transport.ts:455-492 | the order of ends names every block once |
| `StreamTransport.DoneIsAccepted` | ram-a-kv/openclaw-plugin/src/stream-transport.ts:494-544 | ending every block and then `done` is a well-formed end |
| `ResponseStream.HeaderIsLastWord` | ram-a-kv/openclaw-plugin/src/stream-transport.ts:343-372 | each header field is what the last chunk with anything to say about it says |
| `ResponseStream.HeaderWithoutWord` | ram-a-kv/openclaw-plugin/src/stream-transport.ts:333-337 | and its initial value when no chunk does |
| `ResponseStream.StoryIsHistory` | ram-a-kv/openclaw-plugin/src/stream-transport.ts:342-448 | the states the iterator went through are those of the pure machine |
| `ResponseStream.Transport.ProcessChunk` | ram-a-kv/openclaw-plugin/src/stream-transport.ts:342-448 | the mutable message, maps, flags and queue follow the machine chunk by chunk |
| `ResponseStream.Transport.EmitToolEnds` | ram-a-kv/openclaw-plugin/src/stream-transport.ts:478-491 | one end for each tool call in first-seen order |
| `ResponseStream.Transport.EmitBlockEnds` | ram-a-kv/openclaw-plugin/src/stream-transport.ts:455-492 | the ends queued are those of text, thinking and tool calls in that order |
| `ResponseStream.Transport.SynchronizeTools` | ram-a-kv/openclaw-plugin/src/stream-transport.ts:503-515 | re-parsing the buffers at the end changes nothing |
| `ResponseStream.Transport.CloseBlocks` | ram-a-kv/openclaw-plugin/src/stream-transport.ts:499-519 | the ends of every block, or the one empty text block of a stream without a choice |
| `ResponseStream.Transport.FinalizeStream` | ram-a-kv/openclaw-plugin/src/stream-transport.ts:494-544 | the final message, its resolution, and the ends before it |
| `ResponseStream.Transport.Fill` | ram-a-kv/openclaw-plugin/src/stream-transport.ts:549-559 | chunks are read only while the queue is empty; no chunk is lost |
| `ResponseStream.Transport.Fail` | ram-a-kv/openclaw-plugin/src/stream-transport.ts:586-601 | a failing body delivers one error event with what had been built |
| `ResponseStream.Transport.Next` | ram-a-kv/openclaw-plugin/src/stream-transport.ts:547-603 | each pull delivers the next event in order, or nothing for ever once all is delivered |
| `ResponseStream.Transport.Consume` | ram-a-kv/openclaw-plugin/src/stream-transport.ts:547-603 | a consumer that keeps pulling ends and has seen exactly the queued events of all chunks |
| `ResponseStream.Transport.WholeStream` | ram-a-kv/openclaw-plugin/src/stream-transport.ts:547-603 | the whole stream is well formed, its only terminal event is the last and carries the message `result()` resolves to, and it is `error` if and only if the body failed |
| `ResponseStream.Transport.MessageSaysWhatWasSaid` | ram-a-kv/openclaw-plugin/src/stream-transport.ts:455-544 | the message `result()` resolves to has exactly the blocks the chunks spoke of, with all they said of each; every block end a consumer sees carries the block of the message at its index |
| `ResponseStream.Transport.MessageCarriesLastWords` | ram-a-kv/openclaw-plugin/src/stream-transport.ts:343-372 | its id, model, KV parameters, usage and reason are the last word of any chunk on them; a message that broke off has its usage, the reason `error` and the blocks built |
| `Stages.CompleteIsUpToDate` | ram-a-mem/evaluation/common/memory_ab_stage.py:96-111 | a resume hit is never wrong: a truthful marker that matches means outputs equal to the command's result on the inputs as they are |
| `Stages.HitIsRightExactlyWithSameKeys` | ram-a-mem/evaluation/common/memory_ab_stage.py:107-109 | a matching marker vouches for the outputs, whatever commands compute, if and only if it was written under the same manifest keys |
| `Stages.HitUnderLostKey` | ram-a-mem/evaluation/common/memory_ab_stage.py:107-109 | an input on which it does not: a truthful marker of a manifest with a key more matches, and the command would now make something else |
| `Stages.ChangesAreNoticed` | ram-a-mem/evaluation/common/memory_ab_stage.py:96-111 | given the marker of a complete stage, a later check is a hit if and only if command, inputs, outputs and everything the manifest still names are as they were |
| `Stages.FreshMarkerIsTruthful` | ram-a-mem/evaluation/common/memory_ab_stage.py:81-93 | the marker written after a successful command is truthful |
| `Stages.FreshMarkerIsComplete` | ram-a-mem/evaluation/common/memory_ab_stage.py:81-93 | and makes the next check a hit |
| `Stages.Workspace.WriteMarker` | ram-a-mem/evaluation/common/memory_ab_stage.py:114-121 | write beside, then rename: after a crash there is no new marker |
| `Stages.Workspace.CleanOutputs` | ram-a-mem/evaluation/common/memory_ab_stage.py:63-67 | unless the process dies, all outputs and both SQLite companions of each are gone, and everything else is as it was |
| `Stages.Workspace.Rerun` | ram-a-mem/evaluation/common/memory_ab_stage.py:62-93 | marker removed first and written last: a crash anywhere leaves only truthful markers, a return leaves the stage done, and its command found, if the stage cleans, none of its outputs and leaves no SQLite companion from before |
| `Stages.Workspace.RunAndMark` | ram-a-mem/evaluation/common/memory_ab_stage.py:69-93 | a return means up to date and complete; a command that makes all its outputs is marked and returned from in three file changes |
| `Stages.Workspace.RunStage` | ram-a-mem/evaluation/common/memory_ab_stage.py:32-93 | missing inputs or no outputs raise and change nothing; a hit changes nothing; a return means up to date, and one that was no hit that the command found the cleaned files; every crash leaves truthful markers; and with its inputs there, a command that does not fail and makes its outputs, and enough steps before the process dies, it does return |
| `StageChain.RunArm` | ram-a-mem/evaluation/locomo/locomo_run.py:538-710 | a normal return means every stage is up to date and complete, and it does return if the outside inputs are there, no command fails and the process lives long enough; a second run changes nothing; only the stages' own files are touched |
| `StageChain.Restarts` | ram-a-mem/evaluation/locomo/locomo_run.py:538-710 | any number of attempts, with commands, manifests and files changing in between: if the last returns, every output is its command's result; and it returns if nothing stands in its way |
| `StageChain.SameOutputsFromSameDataset` | ram-a-mem/evaluation/locomo/locomo_run.py:538-710 | up-to-date stages over the same dataset have the same outputs, however they came about |
| `StageChain.ArmIsWellFormed` | ram-a-mem/evaluation/locomo/locomo_run.py:538-710 | the stages of both modes keep out of each other's files and inputs |
| `StageChain.ArmIsSupplied` | ram-a-mem/evaluation/locomo/locomo_run.py:538-710 | the dataset is all that has to be there |
| `StageChain.ArmIsFed` | ram-a-mem/evaluation/locomo/locomo_run.py:538-710 | each stage reads only the dataset and outputs of earlier stages |
| `StageChain.ArmIsWired` | ram-a-mem/evaluation/locomo/locomo_run.py:538-710 | the stages of each mode in order, each with its own command and the inputs that command is given; only the store is cleaned |
| `StageChain.RestartedAsUninterrupted` | ram-a-mem/evaluation/locomo/locomo_run.py:538-710 | an arm restarted over and over ends with the results of one clean run, and both return when nothing stands in their way |
| `ContextBudget.EstimateIsMonotone` | ram-a-mem/evaluation/personalmem/run.py:2452-2457 | a longer prefix never has a smaller estimate |
| `ContextBudget.EstimateMeaning` | ram-a-mem/evaluation/personalmem/run.py:2452-2457 | the words, the characters beyond ASCII and a quarter of the others, at least one unless the text is empty: counted as positions of the text |
| `ContextBudget.RStripIsMonotone` | ram-a-mem/evaluation/personalmem/run.py:1866 | right-stripping a longer prefix never gives a shorter text |
| `ContextBudget.TrimTextToTokenBudget` | ram-a-mem/evaluation/personalmem/run.py:1855-1873 | the whole text if it fits, else the longest right-stripped prefix that fits, else nothing |
| `ContextBudget.TrimmedIsUnique` | ram-a-mem/evaluation/personalmem/run.py:1855-1873 | that leaves no choice |
| `ContextBudget.ApplyContextTokenBudget` | ram-a-mem/evaluation/personalmem/run.py:1831-1852 | each context in order is trimmed to its share of what is left and otherwise unchanged; the total is at most max(B, n) |
| `ContextBudget.SharedOutIsUnique` | ram-a-mem/evaluation/personalmem/run.py:1841-1850 | that leaves no choice |
| `ContextBudget.RemainingIsTheRest` | ram-a-mem/evaluation/personalmem/run.py:1842-1850 | what is left is the budget less what the results so far cost, or nought |
| `ContextBudget.CostsAdd` | ram-a-mem/evaluation/personalmem/run.py:1842-1850 | results cost the sum of their estimates |
| `ContextBudget.ShareIsOfTheRest` | ram-a-mem/evaluation/personalmem/run.py:1842-1850 | a share is an equal part, rounded down, of what is left for the contexts still to come, and at least one |
| `ContextBudget.CostIsBounded` | ram-a-mem/evaluation/personalmem/run.py:1842-1850 | what was paid and what is left never exceed max(B, n) |
| `ContextBudget.SharesNeverFall` | ram-a-mem/evaluation/personalmem/run.py:1842-1850 | with B at least n, the share never falls from one context to the next and is at least B div n |
| `ContextBudget.SmallContextsAreKept` | ram-a-mem/evaluation/personalmem/run.py:1842-1850 | with B at least n, whatever fits in B div n is kept whole |
| `ContextBudget.BudgetIsKeptExactly` | ram-a-mem/evaluation/personalmem/run.py:1831-1852 | n contexts never cost more than a positive budget B, whatever they hold, if and only if B is at least n |
| `ContextBudget.OneTokenEachIsSpent` | ram-a-mem/evaluation/personalmem/run.py:1842-1850 | the bound n is met: one-token contexts are all served however small the budget |
| `Ranking.NdcgAtK` | ram-a-mem/evaluation/common/metrics.py:32-43 | the accumulating loop computes gain over ideal gain, nought without relevant ids or ranks |
| `Ranking.GainOfOneHit` | ram-a-mem/evaluation/common/metrics.py:36-40 | a single hit gains the discount of its rank |
| `Ranking.GainsAdd` | ram-a-mem/evaluation/common/metrics.py:36-40 | gains of disjoint sets of relevant ids add up |
| `Ranking.GainAtMostIdeal` | ram-a-mem/evaluation/common/metrics.py:36-40 | wherever hits stand, moving them to the front gains no less |
| `Ranking.HitsBound` | ram-a-mem/evaluation/common/metrics.py:33-40 | without repeats there are at most min(relevant, k) hits |
| `Ranking.NdcgIsBounded` | ram-a-mem/evaluation/common/metrics.py:32-43 | a ranking without repeats scores between 0 and 1 |
| `Ranking.RepeatsOverscore` | ram-a-mem/evaluation/common/metrics.py:32-43 | for every ranking with a repeat, relevant ids and a k with a score above 1 |
| `Ranking.NdcgIsBoundedExactlyWithoutRepeats` | ram-a-mem/evaluation/common/metrics.py:32-43 | a ranking never scores above 1 if and only if it has no repeats |
| `Ranking.PerfectScore` | ram-a-mem/evaluation/common/metrics.py:32-43 | without repeats the score is 1 if and only if the first min(relevant, k) ids are all relevant |
| `Ranking.RecallMeaning` | ram-a-mem/evaluation/common/metrics.py:16-21 | recall is a fraction, 1 if and only if every relevant id is among the first k, positive if and only if one is |
| `Ranking.RecallCounts` | ram-a-mem/evaluation/common/metrics.py:16-21 | recall times the number of relevant ids is the number of them, repeats counted, among the first k |
| `Ranking.NdcgAndRecallAgree` | ram-a-mem/evaluation/common/metrics.py:16-43 | for every k: nDCG is positive if and only if recall is and k is not negative; for a negative k, which cuts the ranking short at its end, nDCG is nought |
| `Ranking.Mrr` | ram-a-mem/evaluation/common/metrics.py:24-29 | the reciprocal of the first rank holding a relevant id, nought if and only if there is none |
| `Ranking.UniqueKeepsFront` | ram-a-mem/evaluation/longmemeval/provenance.py:35-59 | removing repeats keeps every id among the first k, for k of at least nought |
| `Ranking.UniqueKeepsRecall` | ram-a-mem/evaluation/longmemeval/provenance.py:35-59 | for every k: removing repeats never lowers recall, whatever is relevant, if and only if k is not negative, or the results it drops from the end are everything or each there for the first time |
| `Provenance.CandidatesMeaning` | ram-a-mem/evaluation/longmemeval/provenance.py:40-53 | a result stands for exactly the messages its own evidence names; only if there are none, for those its observations name; only if there are none either and it was not extracted, for itself |
| `Provenance.CandidatesAreNotEmpty` | ram-a-mem/evaluation/longmemeval/provenance.py:81-99 | no result stands for an empty id |
| `Provenance.CandidatesInOrder` | ram-a-mem/evaluation/longmemeval/provenance.py:40-53 | in the order of the evidence they come from |
| `Provenance.EvidenceInOrder` | ram-a-mem/evaluation/longmemeval/provenance.py:81-89 | one id for each entry that has one, in the order of the entries |
| `Provenance.NestedInOrder` | ram-a-mem/evaluation/longmemeval/provenance.py:92-99 | the evidence of each observation, in the order of the observations |
| `Provenance.TurnsByRank` | ram-a-mem/evaluation/longmemeval/provenance.py:35-59 | the turns the first n results stand for come before all others, for every n |
| `Provenance.TurnsOfResults` | ram-a-mem/evaluation/longmemeval/provenance.py:35-59 | a turn is retrieved if and only if some result stands for it |
| `Provenance.TurnsOfOneResult` | ram-a-mem/evaluation/longmemeval/provenance.py:54-57 | those of one result are in its own order |
| `Provenance.ObservationMessageIds` | ram-a-mem/evaluation/longmemeval/provenance.py:92-99 | nested evidence in order |
| `Provenance.AddUnseen` | ram-a-mem/evaluation/longmemeval/provenance.py:54-57 | the inner loop adds exactly the candidates not seen before |
| `Provenance.RetrievedSourceTurnIds` | ram-a-mem/evaluation/longmemeval/provenance.py:35-59 | the named turns, each once, in first-seen order |
| `Provenance.RetrievedSourceSessionIds` | ram-a-mem/evaluation/longmemeval/provenance.py:62-78 | their sessions, each once, in first-seen order, or the error of the first turn without one |
| `Provenance.SessionLookupIsUnique` | ram-a-mem/evaluation/longmemeval/provenance.py:62-78 | that leaves no choice; it succeeds if and only if every turn has a session |
| `Provenance.RetrievedScoresAreBounded` | ram-a-mem/evaluation/longmemeval/provenance.py:35-78 | nDCG over retrieved turns and over retrieved sessions lies between 0 and 1, whatever was retrieved and whatever is relevant |

## Left out

- KvCacheManager.Manager.OnTurnEnd: of the debug file only whether it could be written is modelled; the turn count wraps as in a release build, where a debug build would panic.
- KvCacheManager.Manager.RebuildRefcounts: says nothing useful about a table with live forks, which the recount does not count; `set_refcounts` and `on_turn_start` are not modelled.
- KvCacheManager.Manager.OnSessionFork: fork ids and counts are unbounded natural numbers rather than 64-bit ones.
- LockProperties.EvictionsAreSafeInEveryInterleaving: speaks of the moment the eviction list is computed; the backend call comes after the locks are released and may find the chunk in use again. A fork that has not finished its increments is not yet a holder.
- LockProperties.ExactInEveryInterleaving: says nothing about runs with a recount in the middle; `rebuild_refcounts` runs at startup, before any request, and is among the lock steps for the order of the locks alone.
- Daemon.Service.HandleTurnEnd: of the payload only whether it parses and what the handler reads of it, the relay of captures and tracing are not modelled; hash lengths are those of strings of one-byte characters; store errors other than a refused save are not modelled.
- SaveRaces.ClosedReturnsIffSavedTooLate: each operation of the coordinator is one step here, interleaved with those of the store; its own locks are the matter of the lock modules.
- LockLeak.LeakIsForEver: is about what follows the one run that `OvertakenForkLeaksACount` builds, where the leaked list is a single chunk.
- Chunker.ChunkParseResult: says that the counter failed on some text, not on which one; positions are characters where the code uses byte offsets at character boundaries.
- EventStream.IterateSse: decoding of bytes, aborts and the release of the reader are not modelled; strings are sequences of characters where JavaScript counts UTF-16 code units; JSON parsing is any function.
- ResponseStream.Transport.WholeStream: a stream that ends without any choice delivers an end and `done` without a `start`, so it is stated as the exception; timing, callbacks, `clonePartial` snapshots, `return()`, `throw()` and exceptions inside `processChunk` are not modelled.
- Stages.Workspace.RunCommand: a command is a deterministic function of its arguments, the manifest and its declared inputs, and writes only its declared outputs; the environment, caches and anything else a command reads are not hashed by the code and not modelled.
- Stages.Workspace.RunStage: file and command hashes are injective; directories, timestamps in the marker and manifest keys that a marker overwrites with them are not modelled.
- StageChain.ArmIsWellFormed: holds for a dataset and a store that are not named like one of the arm's own files; the preparations of `run_arm` before its first stage are not modelled.
- Ranking.NdcgAtK: real numbers and an arbitrary positive, strictly decreasing discount instead of floating point and the logarithm.
- Provenance.RetrievedSourceSessionIds: the metadata is a map from turn to session id; how it is built is not modelled.
- HTTP, authentication, configuration, logging, the language-model clients, the markdown parser, memory-core and memory-pipeline, reports and dashboards: no property beyond plumbing.
- `JsonCache`, `ChunkStore`: a lookup by key in files and in a table, with no rule that ties one entry to another; `GraphFactContextRenderer`: a capped list without repeats, whose point is its text format.
