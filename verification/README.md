# AgentBus in Dafny

A model of the durable core of AgentBus, with proofs: the workflow runtime (an event log folded
into executions, a scheduling store, a coordinator that leases attempts), the two write-ahead logs
and their group commit, shard replication with its high-water mark, and the fast structures that
stand for simple ones (ring-buffer topic, token bucket with idle eviction, consistent-hash ring,
codecs).

`dafny verify dfyconfig.toml` checks the whole project.

## How it is laid out

| files | what they hold |
|---|---|
| Fold, History | one execution: the fold of its events, fencing of stale attempts, redelivery, and what its history tells |
| Store, Redelivery, Lagging, TaskTypes | the store and its indexes on values, live state against replayed state, redelivery of whole logs and of suffixes, what retention does to task types |
| StoreObjects, CoordinatorObjects | the same store and coordinator as objects that change in place, each method proved against its function |
| Coordinator, Outcomes, Leasing, Sweeping | the calls, with publishes failing anywhere: invariants over runs, and what each call does to every execution, written out and not in terms of the call |
| Scheduling, WorkOrder, Stranded | lease order, rebuilt order, executions nobody retries |
| CompletionGate, Claims, CompletionFate, Forgetting | completion claims interleaved step by step, who gets through, what becomes of an accepted one, and what retention does to it |
| ShardCommit, ShardReturns, WalCommit, WalReturns | group commit as a step machine over any number of writers: what nil means, when it is returned, and that every append can return |
| ShardSubscribe, ShardDelivery, ShardExposure | a subscription beside appends, flushes and syncs, that it can always catch up, and when it sends what is not synced |
| HighWater, Following, Replication, ReplicationRuns, CatchingUp, Sessions | the high-water mark, the cluster as a step machine, that followers and the mark can always catch up, several sessions to one follower |
| Replicating, FollowerSteps | one follower's stream, entry by entry, and that the cluster's steps are its turns |
| Options, Bytes, Scanning, ShardLog, WalCodec, WireCodec, Layouts, Readable | shared types, big-endian fields, reading an append-only file record by record, the formats, where each field lies, and exactly which bytes are read as a record |
| Topic, FilteredFetch, FilteredPaging | the ring against the full history, the filtered fetch and what going on page by page misses or repeats |
| Poller, PolledStore | the poller's cursors, and the store it rebuilds over all partitions |
| RateLimit, RateLimitRuns, RateLimitSweeps, RateLimitEviction, RateLimitBounds | the limiter as an object, runs of it against a bucket that is never evicted, who is forgotten when, when eviction shows, and when the rate is kept |
| HashRing | the ring as an object, minimal movement, joins and leaves in any order |

Code that only computes is functions and lemmas. Objects of the source are classes whose methods
state their new value as a function of the old one. Code whose point is interleaving (locks,
goroutines, sessions) is a step machine: one step per critical section or system call, with the
failures a step can have as part of the step, and the theorems hold for every enabled sequence of
steps.

Envelopes carry parsed payloads; `Unusable` is any envelope that is dropped before the state is
looked at. Publishing takes a clock reading and whether the log took the envelope. The checksums,
the hash of the ring, the session filter, the callback of replay and the parsing of envelopes are
parameters, so every statement holds for all of them. Tokens and seconds of the limiter are real
numbers. Integers are unbounded except where a codec stores them in a field.

## Where the code does not do what it says

Each point has a lemma with a concrete run or input, and one that says exactly when the code does
what is said.

- Redelivery of a log (state.go, apply; poller.go): it can reopen a lease of a second or later attempt. `RefoldIsHarmlessIff`, `RedeliveryIsHarmlessIff`, `LagIsHarmlessIff`, `RedeliveryCanReopenALease`.
- A rebuilt store "schedules identically" (store.go): it orders retried work by submission. `RebuildKeepsOrderIff`, `RebuildCanReorder`.
- A reservation is of the type asked for (store.go, ReserveNext): not of an id that retention forgot while it had a queue entry. `TypesAreKeptIff`, `EvictionCanMixTaskTypes`; waiting work is still found, `WaitingWorkIsFound`.
- A failed attempt is retried or buried (coordinator.go, Fail): not when the second publish fails. `LostRetryLeavesRetryingIff`, `RetryingIff`, `RetryCanBeLost`; and nothing retries it later, `RetryingIsStranded`.
- A completion that returns accepted was recorded (coordinator.go, Complete): not when the attempt was overtaken between the gate and the fold. `AcceptedTakesEffectIff`, `AcceptedIsCompletedIff`, `AcceptedWithoutEffect`, `AcceptedButLiveIsWedged`.
- At most one completion is accepted (store.go, BeginComplete): not of an id that retention forgot. `AcceptedAtMostOnceIff`, `RetentionForgetsAcceptance`; what then holds is `AcceptedPerSubmission`.
- A poisoned log refuses appends (wal.go): not when an fsync that was in flight succeeds after the failed write. `ClearedIffOverlapped`, `AfterPoison`, `AppendCanBeLost`.
- A partial tail is tolerated (wal.go, replay): not when the cut falls between two reads. `TornTailIsToleratedIff`, `TornTailCanFail`.
- The tail of a shard is recovered on open (shardwal.go): not from a torn file. `TailIsRecoveredIff`, `TailCanBeLost`, `TornRecordSwallows`.
- A subscription exposes only what is synced (shardwal.go, Subscribe): not during its backfill. `SendsUnsyncedIff`, `SyncedWhenSentIff`, `BackfillCanSendUnsynced`.
- A follower's ack means fsynced (server.go, Replicate): not after a failed fsync. `DurableIff`, `FsyncedIff`, `AckIsDurableIff`, `MarkIsFsyncedIff`, `AckWithoutFsync`.
- Reconnects heal a follower (server.go, Replicate): held offsets are skipped unread. `RestreamingHealsIff`, `PrefixIsKeptIff`, `DivergedFollowerIsCounted`.
- Sessions to one follower do not disturb each other (server.go, Replicate): not when one appends between the other's reading of the tail and its append. `PrefixUnderSessionsIff`, `FitsIffTailStands`, `TwoSessionsCanDuplicate`.
- Eviction of idle buckets "never makes the limiter stricter" (ratelimit.go): true in all, not call by call, unless rate * ttl reaches the burst. `EvictionNeverAllowsFewer`, `EvictionIsNeverStricterIff`, `EvictionCanBeStricter`.
- A key has a bucket of its own, with its burst and rate (ratelimit.go): sweeps that other keys bring about can give it more, unless rate * ttl reaches the burst. `KeysAreIndependentIff`, `RateIsKeptIff`, `RateCanBeExceeded`.
- LeaderFor is empty only without nodes (ring.go): not when every position was taken by a node that left. `NobodyLeadsIff`, `MembersCanLeadNothing`.
- next_offset resumes a filtered fetch (server.go): it passes over matches of an overfull page. `MatchIsPassedOverIff`, `AMatchCanBePassedOver`.
- A filtered fetch from a dropped offset (server.go): its pages can overlap. `DroppedOffsetRepeatsIff`, `DroppedOffsetRepeats`.

## Model

| member | source | states |
|---|---|---|
| `Fold.LeasesAreNumberedInOrder` | internal/workflow/state.go:93-185 | For any events in any order, the accepted leases of an execution carry the attempts 1, 2, ..., Attempt in order, its history has at most 3*Attempt + 2 entries, and it completed at most once and never without a lease |
| `Fold.HistoryBoundIsTight` | internal/workflow/state.go:76-86 | That bound is attained for every attempt count |
| `Fold.StepRecords` | internal/workflow/state.go:76-86 | Every accepted event except a heartbeat appends exactly one history entry, and a lease entry carries the next attempt |
| `Fold.AttemptNeverFalls` | internal/workflow/state.go:93-112 | No sequence of events lowers the attempt |
| `Fold.ZombiesAreErased` | internal/workflow/state.go:125-142 | Once a later attempt is leased, a lease, heartbeat, completion or failure of an older attempt can be inserted anywhere without changing the result |
| `Fold.TerminalAbsorbs` | internal/workflow/state.go:71-74 | A completed or failed execution is left exactly as it is by every further sequence of events |
| `Fold.HistoryGrows` | internal/workflow/state.go:76-86 | The history is append-only |
| `History.HistoryTellsTheState` | internal/workflow/state.go:76-185 | After any events in any order, the entries of the history alone tell the status, attempt, worker and error, and each entry carries the status and attempt told up to it; the first is the submission |
| `Fold.MeasureFalls` | internal/workflow/state.go:93-185 | Every recorded transition strictly lowers (limit - attempt, rank of status); heartbeats leave it alone |
| `Fold.ApplyTwice` | internal/workflow/state.go:88-93 | Applying a delivered event again at once changes nothing |
| `Fold.RefoldIsHarmlessIff` | internal/workflow/state.go:88-93 | The comment promises that redelivery converges: redelivering a whole accepted log over its own result changes nothing if and only if the result is not running or retrying on a second or later attempt |
| `Fold.RedeliveryCanReopenALease` | internal/workflow/state.go:154-166 | The log submit, lease, fail, retry, lease, redelivered, takes a running execution back to pending |
| `Store.IndexesAgree` | internal/workflow/store.go:15-31 | Over any sequence of store operations, with any events and any retention, the counts, the running set, the terminal queue and the pending queues agree with the executions, and no pending execution is lost |
| `Store.ApplyKeepsIndex` | internal/workflow/store.go:47-126 | Folding any envelope keeps all of that, eviction included |
| `Store.ReserveKeepsIndex` | internal/workflow/store.go:131-149 | So does a reservation |
| `Store.UnreserveKeepsIndex` | internal/workflow/store.go:153-164 | So does releasing one |
| `Store.ReserveFindsWork` | internal/workflow/store.go:128-149 | With retention off, a reservation finds work if and only if some pending unreserved execution has that type, and skips only entries that cannot be leased |
| `Store.WaitingWorkIsFound` | internal/workflow/store.go:128-149 | With any retention a reservation hands out the first entry of the queue that can be leased, and finds one whenever work of the asked-for type is waiting |
| `TaskTypes.TypesAreKeptIff` | internal/workflow/store.go:97-149 | After any store operations a reservation hands out only work of the type asked for, if and only if retention is off |
| `TaskTypes.EvictionCanMixTaskTypes` | internal/workflow/store.go:97-112 | For every positive retention there are operations after which it hands out work of another type |
| `Store.ApplyTouchesOneKey` | internal/workflow/store.go:47-92 | An envelope changes the execution of its own key by one fold step and no other execution |
| `Store.LiveStays` | internal/workflow/store.go:94-112 | Eviction never removes a live execution |
| `Store.ApplyTwiceIsApplyOnce` | internal/workflow/store.go:45-92 | Delivering an envelope to the store twice in a row is delivering it once |
| `Store.ReplayIsPointwise` | internal/workflow/store.go:9-14 | With retention off, a store rebuilt from a log holds, for each key, the fold of its own events |
| `Store.LiveMirrorsReplay` | internal/workflow/store.go:9-14 | However reservations, releases and completion fences interleave with applied events, folding those events alone gives the same executions up to the two runtime flags, and the same counts, running set and terminal queue |
| `Store.WorkIsWhatIsPending` | internal/workflow/store.go:115-126 | With retention off the leasable queue entries of a type are exactly its pending unreserved executions |
| `StoreObjects.Execution.constructor` | internal/workflow/state.go:188-211 | A submit envelope becomes the execution NewExec gives |
| `StoreObjects.Execution.Note` | internal/workflow/state.go:76-86 | record appends one entry and sets the update time |
| `StoreObjects.Execution.Take` | internal/workflow/state.go:93-185 | apply, in place, does the step of the fold and answers whether the event was accepted |
| `StoreObjects.StoreTable.Fold` | internal/workflow/store.go:47-92 | Apply, in place, brings the store to the state Apply gives and answers whether anything changed |
| `StoreObjects.StoreTable.EvictTerminal` | internal/workflow/store.go:97-112 | The eviction loop forgets the oldest terminal executions beyond the cap |
| `StoreObjects.StoreTable.ReconcileQueue` | internal/workflow/store.go:117-126 | A pending execution that is not queued is appended to its queue |
| `StoreObjects.StoreTable.ReserveNext` | internal/workflow/store.go:131-149 | The pop loop reserves the first leasable entry and drops stale ones before it |
| `StoreObjects.StoreTable.Release` | internal/workflow/store.go:153-164 | A reserved execution goes back to the front of its queue |
| `StoreObjects.StoreTable.Begin` | internal/workflow/store.go:194-209 | The completion claim is let through, and fenced, only for the live current attempt; a completed execution is reported as a duplicate |
| `Claims.BeginOutcome` | internal/workflow/store.go:194-209 | A claim passes exactly when the execution is pending, running or retrying on its attempt, which is not 0, and no other claim is inside; it is called a duplicate exactly when the execution is completed; only the fence changes |
| `StoreObjects.StoreTable.Abort` | internal/workflow/store.go:212-218 | The fence is taken down |
| `StoreObjects.StoreTable.ExpiredLeases` | internal/workflow/store.go:224-239 | Copies of exactly the expired running executions, each once; stale keys leave the running index |
| `Sweeping.SweptIffRanOut` | internal/workflow/store.go:224-239 | Between calls, what is expired is exactly the executions that are running with a deadline before now |
| `Redelivery.RedeliveryPerKey` | internal/workflow/store.go:47-92 | Redelivering the events of one key of a taken log leaves that execution alone if and only if it is safe to refold |
| `Redelivery.RedeliveryIsHarmlessIff` | internal/workflow/poller.go:15-19 | Folding a whole log again over the store it built leaves every execution as it was if and only if none is running or retrying on a second or later attempt |
| `Lagging.SuffixIsHarmlessIff` | internal/workflow/state.go:88-93 | Redelivering any suffix of an accepted log over its result changes nothing if and only if the result is neither running nor retrying, or the suffix holds no retry |
| `Lagging.LagIsHarmlessIff` | internal/workflow/store.go:47-92 | Folding the events of a log from any point on again over the store that all of it built leaves every execution as it was if and only if none that is running or retrying was retried since then |
| `Coordinator.MakeSettles` | internal/workflow/coordinator.go:132-387 | Every call, with publishes failing anywhere, keeps the indexes in agreement, leaves no runtime flag behind, keeps attempts within MaxAttempts and keeps the store equal to the replay of its log |
| `Coordinator.LiveEqualsReplay` | internal/workflow/coordinator.go:130-141 | After every run of calls, a fresh store that folds the published log has the same executions, counts, running set and terminal queue as the live one |
| `Coordinator.RebuiltStoreHasTheSameWork` | internal/workflow/store.go:9-14 | With retention off the rebuilt store can hand out exactly the same work |
| `Coordinator.AttemptsAreBounded` | internal/workflow/coordinator.go:326-387 | In every run attempts stay within MaxAttempts, strictly so while pending, and histories stay bounded |
| `Coordinator.FinishIsOneAppend` | internal/workflow/coordinator.go:306-324 | A completion that was fenced and published leaves the state that publishing alone leaves |
| `CoordinatorObjects.Process.Publish` | internal/workflow/coordinator.go:132-141 | The envelope is folded exactly when the log took it |
| `CoordinatorObjects.Process.SubmitSpec` | internal/workflow/coordinator.go:156-179 | Submit publishes one envelope with defaults filled in, or reports that the id exists |
| `Outcomes.SubmitOutcome` | internal/workflow/coordinator.go:156-179 | A submit founds exactly the execution it describes, defaults filled in, if the id is free and the log takes it, and otherwise changes nothing |
| `CoordinatorObjects.Process.LeaseUpTo` | internal/workflow/coordinator.go:208-251 | The batch loop grants what the function LeaseBatch grants, for any pattern of failing publishes, and returns an error exactly when the first grant could not be published |
| `CoordinatorObjects.Process.GrantReserved` | internal/workflow/coordinator.go:255-278 | The lease is on the log before it is returned, with the next attempt and the stored deadline |
| `Leasing.LeaseOutcome` | internal/workflow/coordinator.go:208-278 | A batch hands out distinct pending executions of the store, one per publish taken, each then running on the next attempt under the worker until its lease time has passed, with its type and input; nobody else is touched |
| `Leasing.ReplayKeepsTerms` | internal/workflow/state.go:188-211 | Whatever is folded, every execution keeps the type, input, limit and lease time of a submit on the log |
| `Leasing.LeaseIsAsSubmitted` | internal/workflow/coordinator.go:255-278 | After every run a lease carries the type and input of a submit of its id on the log, and its deadline is that lease time after the grant |
| `CoordinatorObjects.Process.Heartbeat` | internal/workflow/coordinator.go:282-301 | A heartbeat is published only for the holder of the current attempt, and reports the stored deadline; an unknown execution, a lease that is not held and a failed publish are told apart |
| `Outcomes.HeartbeatOutcome` | internal/workflow/coordinator.go:282-301 | A heartbeat by the holder of the lease moves the deadline to the lease time from now and changes nothing else; from anybody else nothing changes |
| `CoordinatorObjects.Process.Complete` | internal/workflow/coordinator.go:306-324 | accepted holds exactly when the claim passed the gate and the log took it; the error is that of a publish that failed behind the gate |
| `Outcomes.CompleteOutcome` | internal/workflow/coordinator.go:306-324 | After any run: if the log takes it and the execution is pending, running or retrying on the attempt, which is not 0, then it is completed with that result, worker and time and one more history entry, and nobody else is touched save by retention; otherwise nothing changes |
| `Outcomes.CompletedIff` | internal/workflow/coordinator.go:306-324 | An execution is completed with the result afterwards if and only if it was so before or was live on the attempt and the log took it |
| `CoordinatorObjects.Process.Fail` | internal/workflow/coordinator.go:328-358 | A recorded failure is followed by a retry or a burial, by the attempts left and the retryable flag; an unknown execution and a failed publish, first or second, are reported |
| `Outcomes.FailOutcome` | internal/workflow/coordinator.go:328-358 | A failure by the holder of the lease leaves the execution pending if it may be retried and attempts are left, and failed otherwise, with the error, the reasons and both history entries; nobody else is touched save by retention; without the lease nothing changes |
| `CoordinatorObjects.Process.SweepExpired` | internal/workflow/coordinator.go:371-387 | Every expired lease is retried or buried once, in some order, and counted |
| `Sweeping.SweepOutcome` | internal/workflow/coordinator.go:371-387 | Each execution that is running with a deadline before now, if its publish is taken, is pending again while it has attempts left and failed otherwise; every other one, and every one whose publish fails, stays as it was |
| `Sweeping.FullSweep` | internal/workflow/coordinator.go:371-387 | With retention off and every publish taken, the status and attempt of every execution after a sweep |
| `CoordinatorObjects.Serve` | internal/workflow/coordinator.go:132-387 | Any call on the object is the corresponding call on its value and keeps the invariant of all runs |
| `Scheduling.RunOrders` | internal/workflow/coordinator.go:208-251 | In every run with retention off each queue is ordered by when its executions became pending |
| `Scheduling.RefusedGoesBackToTheFront` | internal/workflow/coordinator.go:239-246 | A grant whose publish failed leaves the queue from the reserved entry on: it is back at the front |
| `Scheduling.RefusedIsNextAgain` | internal/workflow/store.go:151-164 | The next reservation finds the same execution again |
| `WorkOrder.LeasesAreFifo` | internal/workflow/coordinator.go:193-251 | Whatever run came before, a lease call hands out the executions that have waited longest, oldest first, and as many as the least of what was asked for, what is waiting and how many publishes in a row succeed |
| `WorkOrder.RebuiltByBirth` | internal/workflow/store.go:115-126 | A store that only replays a log keeps every queue in order of submission |
| `WorkOrder.RebuildKeepsOrderIff` | internal/workflow/store.go:11-14 | The comment promises identical scheduling: a rebuilt store hands out the same work in the same order if and only if, among the pending executions of a type, becoming pending earlier means having been submitted earlier |
| `WorkOrder.RebuildCanReorder` | internal/workflow/store.go:11-14 | There is a run after which the rebuilt order differs |
| `WorkOrder.RedeliveryAfterARun` | internal/workflow/poller.go:50-64 | Redelivering the log of any run to the store it built restores the live executions if and only if each is safe to refold |
| `Lagging.LagAfterARun` | internal/workflow/poller.go:50-64 | After any run, a poller that is n events into the log leaves the live executions as they are if and only if none that is running or retrying was retried since then |
| `Stranded.RetryingIsStranded` | internal/workflow/coordinator.go:326-358 | Once an execution is retrying between calls, no further call changes it except the completion of that very attempt |
| `Stranded.LostRetryLeavesRetryingIff` | internal/workflow/coordinator.go:328-358 | After a published failure the execution is left retrying if and only if the publish of the retry or burial failed |
| `Stranded.RetryingIff` | internal/workflow/coordinator.go:328-387 | After every run of calls, with any retention, an execution is retrying if and only if some call recorded its failure, lost the publish that should follow, and no completion of that attempt came since |
| `Stranded.RetryCanBeLost` | internal/workflow/coordinator.go:341-347 | Such a run exists: submit, lease, and a failure whose retry is not published |
| `CompletionGate.AcceptedAtMostOnce` | internal/workflow/store.go:190-218 | Under every interleaving of claims, publishes and folds, with retention off, at most one claim per execution returns accepted |
| `Claims.OpenClaimCompletes` | internal/workflow/coordinator.go:306-324 | After any interleaving, a claim on an execution open to it that is published and folded undisturbed is accepted and leaves the execution completed with its result |
| `Claims.ClaimCanReturn` | internal/workflow/coordinator.go:306-324 | From every point of every interleaving a claim behind the gate can return: accepted if its publish is taken, with an error otherwise |
| `Claims.FailedClaimCanBeRepeated` | internal/workflow/coordinator.go:314-322 | After any interleaving, a claim whose publish failed takes its fence down, and another on the same attempt is then accepted and completes the execution, if that is still live |
| `CompletionGate.AcceptedTakesEffectIff` | internal/workflow/coordinator.go:302-324 | When the fold comes, an accepted claim leaves the execution completed on its attempt with its result if and only if it is live and still on that attempt, or was already completed so |
| `CompletionFate.AcceptedIsCompletedIff` | internal/workflow/coordinator.go:302-324 | Over every run with retention off: after a claim was accepted, the execution is completed on its attempt with its result if and only if no applied event took the execution away between the gate and the fold |
| `CompletionFate.AcceptedPerSubmission` | internal/workflow/store.go:190-218 | With any retention, the claims accepted on an id never exceed the submits that founded it |
| `CompletionGate.AcceptedButLiveIsWedged` | internal/workflow/store.go:194-239 | An execution whose accepted claim had no effect lets no later claim through and is never swept |
| `CompletionGate.AcceptedWithoutEffect` | internal/workflow/coordinator.go:306-324 | Such a run exists |
| `Forgetting.RetentionForgetsAcceptance` | internal/workflow/store.go:97-112 | For every positive retention there is a run in which an id that was forgotten and submitted again is accepted again |
| `Forgetting.AcceptedAtMostOnceIff` | internal/workflow/store.go:190-218 | No run accepts two claims on one id if and only if retention is off |
| `ShardCommit.NilMeansDurable` | internal/cluster/shardwal/shardwal.go:136-217 | For any writers and any write, flush and fsync failures, an append that returned nil is below the synced mark and the durable end, no two share an offset, and one writer at most is inside fsync |
| `ShardReturns.ReturnIsNilIff` | internal/cluster/shardwal/shardwal.go:172-217 | In every run a writer whose generation is through returns its own offset, and nil if and only if the last round of flush and fsync succeeded |
| `ShardReturns.CleanAppendsSucceed` | internal/cluster/shardwal/shardwal.go:136-217 | In a run without failures every append that has returned has returned nil |
| `ShardReturns.AppendHasItsPlace` | internal/cluster/shardwal/shardwal.go:136-170 | An append keeps, through every later step, the offset that counts the records taken before it |
| `ShardReturns.AppendCanReturn` | internal/cluster/shardwal/shardwal.go:172-217 | From every point of every run each append can still return with its offset, and with nil if the last round did not fail and the buffer is not broken |
| `ShardCommit.MarksNeverFall` | internal/cluster/shardwal/shardwal.go:172-217 | The synced count, the synced generation and the tail never go back |
| `ShardSubscribe.SubscriptionIsAnExactSlice` | internal/cluster/shardwal/shardwal.go:268-328 | A subscription sends the records from, from+1, ... of the log with no gap or repeat across the handover from backfill to live, and live records were synced |
| `ShardDelivery.SubscriptionCatchesUp` | internal/cluster/shardwal/shardwal.go:268-328 | From every point of every run that was not stopped, the subscription by itself can send every synced record from its offset on |
| `ShardExposure.SendsUnsyncedIff` | internal/cluster/shardwal/shardwal.go:276-318 | A step sends a record that is not synced if and only if it is a read of the backfill at or above both the synced mark and the offset asked for |
| `ShardExposure.SyncedWhenSentIff` | internal/cluster/shardwal/shardwal.go:268-328 | The live loop promises that a consumer never reads what a failed fsync could lose: over any run, every record was synced when it was sent if and only if there was no such read |
| `ShardExposure.BackfillCanSendUnsynced` | internal/cluster/shardwal/shardwal.go:276-287 | Whatever the file and the offset, some run sends a record that is not synced |
| `ShardLog.RecoverTail` | internal/cluster/shardwal/shardwal.go:100-131 | The loop counts the records of a file that ends on a record, leaves the tail at zero for a torn one, and fails on a bad one |
| `ShardLog.Replay` | internal/cluster/shardwal/shardwal.go:227-263 | The callback gets offset and payload of every record from the given offset on, up to its first error |
| `Layouts.ShardRecord` | internal/cluster/shardwal/shardwal.go:136-170 | Byte by byte: the length at 0, the checksum of the payload at 4, the payload from 8 |
| `ShardLog.ReplayOfAnyPrefix` | internal/cluster/shardwal/shardwal.go:227-263 | For every prefix of a log file, exactly the whole records are replayed, without an error |
| `Readable.ShardReadsExactly` | internal/cluster/shardwal/shardwal.go:240-262 | On any bytes, a payload is taken off the input if and only if it is at most 64 MiB and the input starts with its length, its checksum and itself |
| `ShardLog.TailIsRecoveredIff` | internal/cluster/shardwal/shardwal.go:98-131 | The recovered tail counts the records that replay delivers if and only if the file was cut on a record boundary or holds no whole record |
| `ShardLog.TailCanBeLost` | internal/cluster/shardwal/shardwal.go:108-114 | A torn second record resets the tail of a file with one whole record |
| `ShardLog.TornRecordSwallows` | internal/cluster/shardwal/shardwal.go:85-94 | Appends behind a torn record are not found by replay while they are shorter than what the torn record lacks |
| `HighWater.HighWaterMark.constructor` | internal/cluster/shardwal/hwm.go:22-29 | A new mark tracks only itself, at zero |
| `HighWater.HighWaterMark.SetReplicas` | internal/cluster/shardwal/hwm.go:34-53 | Declared replicas keep their offsets, new ones start at zero, others are dropped, and the mark is the minimum |
| `HighWater.HighWaterMark.Update` | internal/cluster/shardwal/hwm.go:56-69 | An ack raises one tracked offset or does nothing, and the mark is the minimum |
| `HighWater.HighWaterMark.Reached` | internal/cluster/shardwal/hwm.go:79-101 | The wait is over when the mark is at the offset |
| `HighWater.AckNeverLowersTheMark` | internal/cluster/shardwal/hwm.go:55-69 | No ack lowers the mark or any tracked offset |
| `HighWater.DeclaringKeepsOffsets` | internal/cluster/shardwal/hwm.go:34-53 | Declaring replicas keeps the offsets of tracked ones and drops the rest; the mark falls only if one is new, and then to zero |
| `HighWater.MinIsUnique` | internal/cluster/shardwal/hwm.go:104-118 | The minimum is unique, so the relations that describe declaring replicas and acks determine the mark |
| `ReplicationRuns.QuorumSafety` | internal/cluster/replicator/replicator.go:187-257 | Under any reconnects, failed appends and delayed, repeated or lost acks, with one live session per follower and elections that pick a longest log: every log is a prefix of the leader's, no handler meets a gap, and once WaitFor(k) can succeed every tracked replica holds the leader's first k records |
| `CatchingUp.FollowerCanCatchUp` | internal/cluster/replicator/replicator.go:187-257 | After every run in which only longest logs were elected, one more session can bring any follower to exactly the leader's log, acknowledged to its end |
| `CatchingUp.MarkCanReachTheEnd` | internal/cluster/shardwal/hwm.go:79-101 | After every such run the high-water mark can still reach the end of the leader's log, so no wait need last for ever |
| `ReplicationRuns.CommittedStays` | internal/cluster/transport/server.go:38-74 | Those k records stay on those nodes through any later steps, with any elections and any sessions |
| `ReplicationRuns.ElectionKeepsPrefixIff` | internal/cluster/replicator/replicator.go:165-184 | A change of leader keeps every log a prefix of the leader's if and only if no log is longer than the new leader's |
| `ReplicationRuns.PrefixIsKeptIff` | internal/cluster/replicator/replicator.go:165-184 | Throughout a run every log is a prefix of the leader's if and only if every election picked a longest log |
| `ReplicationRuns.DurableIff` | internal/cluster/transport/server.go:51-62 | In any run, with any sessions and elections, a node has fsynced all it holds if and only if the last record written to it was not left behind by a failed fsync |
| `ReplicationRuns.AckIsDurableIff` | internal/cluster/transport/server.go:52-72 | All that an ack claims is fsynced when it is sent if and only if it is for the record just stored, or no failed fsync is outstanding on the follower |
| `ReplicationRuns.AcksAreDurable` | internal/cluster/transport/server.go:52-72 | While no failed fsync is outstanding on a node, everything it ever acked is fsynced |
| `ReplicationRuns.FsyncedIff` | internal/cluster/transport/server.go:51-62 | In any run the first k records of a node are fsynced if and only if at some point it held that many and had fsynced all it held |
| `ReplicationRuns.MarkIsFsyncedIff` | internal/cluster/shardwal/hwm.go:79-101 | Once the mark is at k every tracked replica holds k records, and has fsynced them if and only if at some point it held that many with no failed fsync outstanding |
| `ReplicationRuns.DivergedFollowerIsCounted` | internal/cluster/transport/server.go:28-37 | There is a run with one session at a time in which an election picks the shorter log and WaitFor then succeeds over two different records |
| `ReplicationRuns.AckWithoutFsync` | internal/cluster/transport/server.go:53-58 | After a failed fsync the next session acks a record that was never fsynced |
| `ReplicationRuns.TwoSessionsCanDuplicate` | internal/cluster/transport/server.go:51-58 | With two live sessions to one follower both can append the same record |
| `Sessions.PrefixUnderSessionsIff` | internal/cluster/transport/server.go:51-58 | With any number of sessions and one leader, every log stays a prefix of the leader's throughout if and only if every append is of the record that the leader holds at the follower's tail |
| `Sessions.FitsIffTailStands` | internal/cluster/transport/server.go:51-58 | While the leader's records differ, an append is of that record if and only if the tail has not moved since the handler read it |
| `Replicating.Follower.Replicate` | internal/cluster/transport/server.go:38-74 | The handler's loop does what Served does, for any stream and any failing call, a failed fsync that leaves its record counted included |
| `Replicating.ServedStream` | internal/cluster/transport/server.go:38-74 | A gapless stream with no failing call leaves the follower's log followed by the records it lacked, and acknowledges entry by entry the last offset then held |
| `Replicating.ServedIsTraced` | internal/cluster/transport/server.go:38-74 | For any stream and any failing calls, entry by entry: what each does to its shard, and that its ack is the length of the shard after it less one |
| `FollowerSteps.TakeAndActIsServed` | internal/cluster/transport/server.go:44-72 | The two steps of a follower in the cluster, taken together, are one turn of that loop: same log, same ack, same ending |
| `Replicating.GapIff` | internal/cluster/transport/server.go:28-37 | A stream from offset j ends in a gap if and only if the follower's tail is below j, and then nothing is applied |
| `Replicating.RestreamingIsIdempotent` | internal/cluster/transport/server.go:28-37 | Streaming the same again changes nothing |
| `Replicating.RestreamingHealsIff` | internal/cluster/transport/server.go:28-33 | The comment calls reconnects self-healing: after streaming m records the follower agrees with the leader on them if and only if it agreed on those it already held |
| `Replicating.ServedOnlyAppends` | internal/cluster/transport/server.go:38-74 | No stream removes or changes a record, and shards it does not name are untouched |
| `Replicating.AcksAreHeld` | internal/cluster/transport/server.go:62-72 | Every ack names an offset of a record the follower holds |
| `WalCommit.NilMeansDurable` | internal/wal/wal.go:171-276 | With fsync on every append, an append that returned nil is durable unless a write failed while an fsync was in flight that then succeeded |
| `WalReturns.ReturnIsNilIff` | internal/wal/wal.go:227-276 | In every run a writer whose generation is through gets nil if and only if nothing failed since the last fsync that succeeded, and always while the log is not poisoned |
| `WalReturns.HealthyAppends` | internal/wal/wal.go:171-276 | While nothing has failed, every append that returned got nil for a record it wrote, and the next takes the next place |
| `WalReturns.AppendCanReturn` | internal/wal/wal.go:227-276 | From every point of every run each append can still return, and with nil if nothing has failed |
| `WalCommit.ClearedIffOverlapped` | internal/wal/wal.go:227-283 | A poisoned log has lost its error if and only if there was such an overlap |
| `WalCommit.AfterPoison` | internal/wal/wal.go:171-175 | After poisoning, an append returns nil if and only if there was such an overlap, and nothing is written |
| `WalCommit.AppendCanBeLost` | internal/wal/wal.go:227-283 | Such a run exists: an append is told nil and its record is nowhere |
| `WalCommit.MarksNeverFall` | internal/wal/wal.go:227-276 | The synced generation and the durable end never go back, poisoning is for good, one writer at most is inside fsync |
| `WalCodec.EncodeRecord` | internal/wal/wal.go:127-169 | A record is refused as corrupt exactly for a partition below -1, partition 0 without a topic, or a topic or key over 65535 bytes, then as too large exactly over 64 MiB; otherwise its bytes are those of the format |
| `Layouts.WalRecord` | internal/wal/wal.go:150-169 | Byte by byte: magic 71 87, version 3, a zero, the timestamp at 4, the partition at 12, the three lengths at 16, 18 and 20, topic, key and payload from 24, and last the checksum of everything behind the magic |
| `Layouts.FirstByteCountsMost` | internal/wal/wal.go:154-158 | Stored numbers are big-endian |
| `WalCodec.Replay` | internal/wal/wal.go:327-376 | The callback gets the records of the file in order, up to its first error or the end, and the result follows from how the file ends |
| `WalCodec.WholeRecordReads` | internal/wal/wal.go:378-434 | A whole record, followed by anything, is read back as it was |
| `Readable.WalReadsExactly` | internal/wal/wal.go:339-467 | On any bytes, a record is taken off the input if and only if the input starts with the bytes of that record, in version 2 or 3 or in the first layout and not looking like a later one, and what follows is left |
| `WalCodec.ReplayOfAnyPrefix` | internal/wal/wal.go:327-434 | For every prefix of a log file replay finds exactly its whole records |
| `WalCodec.ReplayOfWholeFile` | internal/wal/wal.go:323-376 | A log written in full is replayed in full |
| `WalCodec.TornTailIsToleratedIff` | internal/wal/wal.go:337-347 | A torn tail is tolerated, when allowed, if and only if the cut does not fall between two reads; when not allowed it is an error |
| `WalCodec.TornTailCanFail` | internal/wal/wal.go:380-386 | A record cut after its magic makes a tolerant replay fail |
| `WalCodec.DamageIsCaughtIff` | internal/wal/wal.go:406-424 | Changed record bytes are refused if and only if their checksum differs |
| `WalCodec.Version2Reads` | internal/wal/wal.go:387-391 | Records written without a checksum are still read |
| `TopicLog.Topic.constructor` | internal/broker/topic.go:42-51 | A new topic is empty; a capacity that is not positive becomes the default |
| `TopicLog.Topic.Publish` | internal/broker/topic.go:54-73 | The message is appended to the full history, and the ring keeps exactly the last messages: head = max(0, tail - capacity) = evictions |
| `TopicLog.Topic.Fetch` | internal/broker/topic.go:76-101 | The ring answers with the slice of the full history from the offset asked for, or from the oldest kept, and panics exactly on a negative count with messages to return |
| `TopicLog.FetchedIsASlice` | internal/broker/topic.go:75-101 | Fetched messages have consecutive offsets |
| `Polling.Poller.constructor` | internal/workflow/poller.go:33-46 | Every cursor starts at zero |
| `Polling.Poller.DrainOnce` | internal/workflow/poller.go:50-64 | One pass drains every partition once and ingests exactly the recognised envelopes, in order |
| `Polling.DrainShape` | internal/workflow/poller.go:50-64 | A drain visits consecutive offsets from its cursor, or from the oldest kept: 512 of them, or as many as there are |
| `Polling.OffsetsIncrease` | internal/workflow/poller.go:50-64 | Under any mix of publishes and drains the poller visits strictly increasing offsets, with the messages as published |
| `Polling.SkippedOnlyIfEvicted` | internal/workflow/poller.go:50-64 | An offset behind the cursor was visited, or had been evicted before the drain that passed it |
| `Polling.NothingMissedIff` | internal/workflow/poller.go:15-19 | The poller has visited everything up to its cursor if and only if every drain found its cursor still in the ring |
| `PolledStore.OrderAcrossKeysIsFree` | internal/workflow/store.go:9-14 | Two logs with the same events in the same order for each execution rebuild the same executions |
| `PolledStore.PolledIsAPrefix` | internal/workflow/poller.go:50-64 | While the drains of a partition keep up with its ring, the poller has of each of its executions the first so many events published, in order, and all of them at the end of the partition |
| `PolledStore.PolledEqualsReplayed` | internal/workflow/poller.go:15-19 | Over every interleaving of publishes and drains of the partitions: at the end of all of them, with every drain in time, the polled executions are those of replaying the log in the order of publication |
| `PolledStore.PolledEqualsLive` | internal/workflow/poller.go:15-19 | So the polled executions are the live ones of the coordinator that published the log |
| `FilteredFetch.Fetch` | internal/grpcapi/server.go:338-379 | The nested loops compute the pages of the specification, for any offset, limits and filter, and end |
| `FilteredFetch.LimitsInForce` | internal/grpcapi/server.go:308-352 | Whatever is asked for, at most 4096 messages, 65536 scanned and 1024 a page; 256 and 16384 when nothing is |
| `FilteredFetch.FilteredFetchIsExact` | internal/grpcapi/server.go:338-392 | From an offset between head and tail, the answer is the first max_count matches of [from, next), all of them when fewer, and the scan stops early only for a full answer or a spent budget |
| `FilteredPaging.MatchIsPassedOverIff` | internal/grpcapi/server.go:338-379 | Going on from next_offset passes over a match if and only if some page within the budget starts with fewer than max_count matches before it and has more than max_count with its own |
| `FilteredPaging.AMatchCanBePassedOver` | internal/grpcapi/server.go:374-379 | Two matches with a limit of one: the second is passed over |
| `FilteredPaging.DroppedOffsetRepeatsIff` | internal/grpcapi/server.go:355-379 | From any offset the ring has dropped, a message comes twice if and only if the scan goes on after its first page and a match lies in the part of that page that the second visits again |
| `FilteredPaging.DroppedOffsetRepeats` | internal/grpcapi/server.go:355-379 | A ring that keeps one of two messages: from offset 0 it comes twice |
| `RateLimit.Limiter.constructor` | internal/ratelimit/ratelimit.go:51-62 | A positive rate gets a burst of at least one |
| `RateLimit.Limiter.AllowKey` | internal/ratelimit/ratelimit.go:71-104 | Allow, in place: the counted sweep, the refill and the charge; a disabled limiter allows everything and changes nothing |
| `RateLimit.Limiter.SweepIdle` | internal/ratelimit/ratelimit.go:106-112 | The sweep drops exactly the buckets idle for longer than the limit |
| `RateLimitSweeps.RememberedIff` | internal/ratelimit/ratelimit.go:71-112 | After any run with a clock that does not run backwards, a key has a bucket if and only if some call of it is not older than the limit at any later call whose number is a multiple of 1024 |
| `RateLimitRuns.EvictionIsInvisible` | internal/ratelimit/ratelimit.go:18-21 | With rate * ttl at least burst and a clock that does not run backwards, every answer is that of a bucket of the key's own that is never evicted |
| `RateLimitRuns.KeysAreIndependent` | internal/ratelimit/ratelimit.go:1-5 | With rate * ttl at least burst, calls of other keys never change a key's answers |
| `RateLimitBounds.KeysAreIndependentIff` | internal/ratelimit/ratelimit.go:1-5 | In every two runs in which a key calls at the same times it is told the same, if and only if rate * ttl is at least burst |
| `RateLimitRuns.RateIsKept` | internal/ratelimit/ratelimit.go:69-104 | With rate * ttl at least burst, in any stretch of calls a key is allowed at most burst plus rate times the time spanned |
| `RateLimitBounds.RateIsKeptIff` | internal/ratelimit/ratelimit.go:69-104 | That bound holds of every stretch of every run if and only if rate * ttl is at least burst |
| `RateLimitBounds.RateCanBeExceeded` | internal/ratelimit/ratelimit.go:106-112 | For every rate, burst and limit below that, there is a run that exceeds the bound |
| `RateLimitRuns.EvictionNeverAllowsFewer` | internal/ratelimit/ratelimit.go:18-21 | For every rate, burst and limit, eviction never allows a key fewer calls in all |
| `RateLimitEviction.EvictionIsInvisibleIff` | internal/ratelimit/ratelimit.go:18-21 | Every answer in every run is that of a bucket that is never evicted if and only if rate * ttl is at least burst |
| `RateLimitEviction.EvictionIsNeverStricterIff` | internal/ratelimit/ratelimit.go:18-21 | The comment promises never stricter: no run refuses a call that the kept bucket allows if and only if rate * ttl is at least burst |
| `RateLimitEviction.EvictionCanBeSeen` | internal/ratelimit/ratelimit.go:106-112 | For every rate, burst and limit below that, there is a run in which eviction allows a call that the kept bucket refuses |
| `RateLimitEviction.EvictionCanBeStricter` | internal/ratelimit/ratelimit.go:18-21 | And one in which it refuses a call that the kept bucket allows |
| `HashRing.RingTable.constructor` | internal/cluster/ring/ring.go:30-39 | A new ring is empty; vnodes that are not positive become 128 |
| `HashRing.RingTable.AddNode` | internal/cluster/ring/ring.go:42-54 | A node that is not registered claims its positions; the position slice is sorted and agrees with the owners |
| `HashRing.RingTable.RemoveNode` | internal/cluster/ring/ring.go:57-70 | A registered node loses the positions it owns |
| `HashRing.RingTable.RebuildPositions` | internal/cluster/ring/ring.go:102-110 | The position slice is strictly sorted and has exactly the owned positions |
| `HashRing.RingTable.LeaderFor` | internal/cluster/ring/ring.go:74-88 | The binary search returns the owner of the first position at or after the key, around the ring, for any hash function |
| `HashRing.RemoveMovesOnlyItsOwn` | internal/cluster/ring/ring.go:56-70 | Removing a node moves only the keys it led |
| `HashRing.AddMovesOnlyToIt` | internal/cluster/ring/ring.go:41-54 | Adding a node moves keys only to it |
| `HashRing.LeaderIsRegistered` | internal/cluster/ring/ring.go:72-88 | Whatever joined and left, a leader is empty or registered |
| `HashRing.JoinsCommuteIff` | internal/cluster/ring/ring.go:42-54 | Two nodes may join in either order if and only if none of their positions collide |
| `HashRing.LeavingUndoesJoiningIff` | internal/cluster/ring/ring.go:42-70 | Leaving undoes joining if and only if the node took no position from another |
| `HashRing.MembersDecide` | internal/cluster/ring/ring.go:42-70 | Without collisions the ring depends on its members alone, not on who joined or left when |
| `HashRing.OwnedIff` | internal/cluster/ring/ring.go:42-70 | After any history, collisions included, a position is on the ring if and only if the last node to claim it is still registered, and then it is that node's |
| `HashRing.EmptyIff` | internal/cluster/ring/ring.go:72-79 | After any history the ring is empty if and only if every position of every member was later claimed by a node that has left since |
| `HashRing.NobodyLeadsIff` | internal/cluster/ring/ring.go:72-88 | And LeaderFor answers nobody if and only if that is so |
| `HashRing.LeaderIsFirstAtOrAfter` | internal/cluster/ring/ring.go:74-88 | The leader is the owner of the lowest position at or after the key, and past the last position of the lowest of all |
| `HashRing.MembersCanLeadNothing` | internal/cluster/ring/ring.go:72-79 | With a collision a registered node can lead nothing and the answer be empty |
| `WireCodec.Encode` | internal/protocol/protocol.go:51-63 | The buffer is filled with the bytes of the frame |
| `WireCodec.Decode` | internal/protocol/protocol.go:66-91 | A frame is returned if and only if the input starts with the bytes of one, and then it is that frame and the rest |
| `WireCodec.FrameRoundTrip` | internal/protocol/protocol.go:51-91 | A frame followed by any bytes comes back with the rest if and only if its lengths fit |
| `WireCodec.FrameIsUnique` | internal/protocol/protocol.go:51-91 | No input starts with two different frames |
| `Layouts.WireFrame` | internal/protocol/protocol.go:51-63 | Byte by byte: magic 0x474B, the operation at 2, the topic length at 3, the payload length at 4, topic and payload from 8 |
| `Layouts.WireList` | internal/protocol/protocol.go:101-116 | Byte by byte: the count at 0, then for each item its head, its length in four bytes and its payload, and nothing behind |
| `WireCodec.EncodeList` | internal/protocol/protocol.go:101-116 | The list encoders fill count, heads, lengths and payloads in order |
| `WireCodec.DecodeList` | internal/protocol/protocol.go:118-141 | A list is returned if and only if the input is the encoding of one, and then it is that list: what the decoder accepts encodes back to the same bytes |
| `WireCodec.ListIsUnique` | internal/protocol/protocol.go:118-141 | No input encodes two different lists |
| `WireCodec.BatchRoundTrip` | internal/protocol/protocol.go:99-141 | A batch comes back as it was if and only if its count fits 16 bits and its lengths 32 |
| `WireCodec.DecodeFetchResponse` | internal/protocol/protocol.go:223-251 | An accepted fetch response encodes back to the same bytes; a refused one is no encoding |
| `WireCodec.FetchRoundTrip` | internal/protocol/protocol.go:181-251 | A fetch response comes back as it was, negative offsets included, if and only if its count and lengths fit |

## Left out

- CompletionGate.AcceptedAtMostOnce: retention off only; with retention on it is false, as AcceptedAtMostOnceIff says; AcceptedPerSubmission is what then holds.
- Store.ReserveFindsWork: retention off only; with retention on a queue entry can outlive its execution, as TypesAreKeptIff says; WaitingWorkIsFound is what then holds.
- WorkOrder.LeasesAreFifo: retention off only, for the same reason.
- ReplicationRuns.QuorumSafety: assumes one live session per follower, and none while a leader is elected; PrefixUnderSessionsIff and PrefixIsKeptIff say what happens otherwise.
- FilteredFetch.Fetch: no publish during the call.
- CoordinatorObjects.Process.LeaseUpTo: does not wait when nothing is pending; wake-up channels and timeouts are not part of this model.
- The batch acknowledgement, fetch request and keyed payload codecs: fixed fields like those of a frame.
- The order in which Go ranges over a map: any order will do.
- Raft membership, gossip, the control plane and leader election: only their effect on logs, as one Elect step.
- gRPC services, generated protobuf, client, command line, dashboard, metrics and tracing.
- JSON payloads and session keys: an envelope carries its parsed payload and its key.
- The log modes without fsync and with interval fsync, and closing the write-ahead log.
- PolledStore.PolledEqualsReplayed: retention off only, and where a key is routed is any function of it.
- Subscriptions of the broker (notification channels) and publishing without a key.
- 64-bit overflow of offsets, counters and timestamps.
- Listing and counting calls of the store, which only read the indexes proved to agree.
- Appends behind a torn shard record that are longer than what it lacks: what replay makes of them depends on the checksum.
