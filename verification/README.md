# Shoebox: a verified model

Shoebox is an embedded message queue: a broker with one dispatcher per queue hands messages to
handlers, and a store keeps them through retries, dead letters, replays and crashes. This project
models the parts that have to fit together for that and proves what they promise over whole runs.
`dafny verify dfyconfig.toml` checks everything.

The model has four layers.

1. **The status-table store.** `SqlMachine` is the table of pending, processing and dead rows with
   its per-queue counters; every transaction of the SQLite and Postgres stores is one step of it.
   `SqlStore` runs the transactions statement by statement, with their loops and rollbacks, and each
   is proved to be that one step. On the machine: what each transaction writes, column by column
   (`SqlEffects`), conservation (`Conservation`, `Counters`) and durable deduplication
   (`DurableDedupe`).
2. **The Memory store.** `MemoryStore` is the class with its lazily sorted slices, dirty flags,
   in-place compaction and in-flight sets, proved against arrival-ordered lists that are sorted
   afresh for every dequeue (`DeliveryOrder`). `MemoryEffects` says what each call appends, field by
   field; `MemoryRefinement` and `MemoryConservation` show that it keeps in step with the status
   table, call by call and over runs.
3. **The broker.** `Delivery`, `AtLeastOnce`, `OnTime`, `DeadLetters`, `DeliveryClaims`,
   `RetryBudget`, `RetryLimits`, `ReclaimBudget`, `RetryTermination`: the life of messages under
   every interleaving of deliveries, buffered acknowledgements, failures, replays, reclaims and
   crashes. `DeliveryStore` shows that the table behind it is that of a run of the status machine.
   `AckBuffer` and `AckFlush`: the acknowledgement buffer, as a machine and as the code runs it.
   `Dispatcher`, `DispatcherSafety`, `DispatcherClaims`, `DrainQuiescence`, `DrainChannel`,
   `DrainRaces`, `ResumeEffect`, `DrainSignal`, `PauseEffect`, `DispatcherHistory`: one queue's
   dispatcher loop with its program counter, workers, semaphore, in-flight count, Pause, Drain and
   Resume. `QueueView` connects the two: each step of the broker on its rows is, for every queue, a
   step of the dispatcher's machine on where its messages are; `ReclaimView` says which reclaims
   preserve that. `Shutdown`, `ShutdownHistory`: the wait group, the ack loop and the closing of the
   store.
4. **Self-contained pieces.** `Dedupe`, `DedupeTtl`, `DedupeLru`, `EnqueueBatch`, `Cadence`,
   `Periodic`, `Recreation`, `Backoff`, `Naming`, `Messages`, `Arithmetic`.

Concurrency is modelled by steps: a goroutine's program points, or a transaction, are atomic, and any
step that is enabled may come next. A store call that can fail, the clock, fresh ids, and which due
rows a claim picks are part of the event, so they are arbitrary. Theorems about runs quantify over
every sequence of such events.

## Where the code does not keep a plausible promise

Each of these fails in a way a caller can run into, and comes with the exact condition under which it
holds.

- **A Drain channel can be closed twice** (in Go, a panic). It is not enough to put a Resume between
  a completed Drain and a later Register: a Resume clears the drain flag and starts the dispatcher in
  two separate steps, and a Drain that runs in between leads to the same second close
  (`RegisterAfterDrainClosesTwice`, `ResumeRaceClosesTwice`). A channel can come to be closed twice if
  and only if a loop starts while the flag is up and the current channel closed, and no abort has
  begun (`ClosesTwiceIffDirty`); what is pending then, or a shutdown under way, makes no difference.
  Callers keep clear of it by the discipline of `OrderlyRunsCloseOnce`. The comment on
  `signalDrainDone` says the close is always the first.
- **A waiting Drain can be lost.** All Drains of a queue share one flag. An earlier Drain's channel is
  replaced and never signalled (`OvertakenIsNeverClosed`); and when the earlier one times out, it takes
  the flag down for the later one too (`TimeoutStrandsOther`). A channel can still be closed if and
  only if it is the current one, and the flag is up and no abort has begun, or a loop is heading for the
  close: it has passed the drain check, or nothing is pending and it is in that check, or with the flag
  up past its last look for an abort (`CanBeClosedIff`). Any other channel is as it is for good
  (`LostForGood`).
- **A Resume can be lost** (`ResumeCanBeLost` is a run of it). On a queue that is registered and not
  draining, stopping or closed, it takes effect, and the queue keeps a loop until the next drain, stop
  or abort, if and only if it finds no loop, or one that is not on its way out: outside the drain
  check, or inside it with something pending (`ResumeTakesEffectIff`).
- **The retry budget** of n + 1 recorded failures holds if and only if MaxRetries is positive
  (`BoundedIffPositive`), and a reclaim of a running queue leaves it intact if and only if no delivery
  with attempts to spare has its row claimed (`ReclaimKeepsBudgetIff`). The dispatchers do not notice it
  if and only if it takes no row from a delivery or from an acknowledgement that waits
  (`ReclaimIsUnnoticedIff`).
- **A paused queue's loop can still leave**: a Pause holds it if and only if it has not passed a drain
  check, and either comes by the pause check first or something is pending (`PauseHoldsIff`).
- **The store can be closed under a running dispatcher** if and only if one is started after the wait
  group had been seen at zero (`ClosesEarlyIffLateStart`).
- **Memory and SQL differ** on Retry and DeadLetter of a message that is not in flight
  (`InStepIffInFlight`). SQLite has no dedupe index, so keys stay unique in a run if and only if every
  insert finds its key free (`UniqueWithoutIndexIff`; `SQLiteAdmitsTwoHolders` is a run where one
  does not).
- **Backoff**: the comment promises min(base * 2^(attempt-1), max); the shift is capped, so past attempt
  31 that holds only if the cap is reached, and before it only if no overflow reads as a positive
  number below the cap (`DocumentedDelayIff`). That second condition is also exactly when the delay
  never falls from one attempt to a later one (`DelayNeverFallsIff`); every base up to 2^34 ns meets
  it (`DelayIsCappedProduct`, `DelayNeverFalls`), and 2^34 + 1 with the largest cap does not
  (`DelayCanFall`).
- **Recreating a schedule** can make slots repeat or go back (`RecreationRepeatsSlot`): it can if and only
  if the new start is at or before the last slot used (`RecreationBreaksIff`).

## Model

| member | source | states |
|---|---|---|
| Naming.ShadowNames | internal/naming/queue.go:10-21 | names ending in ".dlq" are exactly the shadow names, `Dlq` and `Source` are inverse, and no valid queue name is a shadow name |
| Naming.ValidNamesAre | internal/naming/queue.go:10-21 | the valid names are exactly the words of 1 to 128 letters, digits, points, hyphens and underscores, by their codes, that are nothing's shadow name |
| Naming.PurgePrefixIsExact | internal/broker/dedupe.go:79-88 | the prefix test of a purge matches exactly the purged queue's keys |
| Naming.DedupeKeyInjective | internal/broker/broker.go:287-298 | different (queue, key) pairs of valid queues never share a dedupe entry |
| Messages.ReplayRestores | internal/storage/storage.go:64-82 | dead-lettering and replaying gives the same message back under the letter's id, due now; attempts, payload, key and priority survive |
| SqlMachine.RunsKeyed | internal/storage/sqlite.go:247-286 | in every reachable table each row is stored under its own message id |
| SqlMachine.RollbackIsTotal | internal/storage/sqlite.go:419-529 | a transaction that reports anything but success left rows and counters untouched |
| SqlEffects.EnqueueWrites | internal/storage/sqlite.go:247-286 | column by column: the one row an enqueue inserts, and exactly when it is skipped or refused instead |
| SqlEffects.BatchWrites | internal/storage/postgres.go:283-327 | each row a batch inserts, with its timestamps spread over microseconds; what is missing was skipped for its key; nothing else changed |
| SqlEffects.ClaimsOnlyDue | internal/storage/sqlite.go:290-342 | a claim takes at most `limit` rows, each pending in the queue with scheduled_at at or before the clock, and changes only their status |
| SqlEffects.NotDueStays | internal/storage/sqlite.go:297-305 | a row that is not yet due, of another queue or not pending is as it was |
| SqlEffects.DueCanBeClaimed | internal/storage/sqlite.go:297-305 | a row pending in the queue and due can be claimed |
| SqlEffects.AckRemoves | internal/storage/sqlite.go:345-415 | exactly the claimed rows of the queue that are named go |
| SqlEffects.RetryWrites | internal/storage/postgres.go:532-558 | the claimed row is rewritten as the message handed in, attempts and time included, and no other row |
| SqlEffects.DeadLetterWrites | internal/storage/storage.go:64-73 | the letter: q.dlq, new id, the text of the error, dead and due now, all else of the message; the tombstone: the same error and time; no other row |
| SqlEffects.ReplayWrites | internal/storage/storage.go:75-82 | the letter's row goes back to its queue, due now, without error, all else kept |
| SqlEffects.ReclaimUnclaims | internal/storage/sqlite.go:567-575 | claimed rows of the queue, or on opening of every queue, are pending; nothing else of any row changes |
| SqlStore.Store.InsertRow | internal/storage/postgres.go:339-385 | the conflict-aware insert: inserted, skipped by the partial index, or a primary-key error, with the table it leaves |
| SqlStore.Store.AddStats | internal/storage/sqlite.go:364-367 | insert-or-update of a counter row adds to exactly one queue's counters |
| SqlStore.Store.Enqueue | internal/storage/sqlite.go:191-194 | one enqueue is one step of the status machine |
| SqlStore.Store.EnqueueBatch | internal/storage/postgres.go:283-327 | the insert loop stores the whole batch, passing over skipped keys, or rolls all of it back |
| SqlStore.Store.Dequeue | internal/storage/sqlite.go:290-342 | the claim loop turns exactly the selected rows to processing |
| SqlStore.Store.DeleteRow | internal/storage/sqlite.go:352-359 | a guarded delete removes the row and reports 1, or removes nothing and reports 0 |
| SqlStore.Store.Ack | internal/storage/sqlite.go:345-373 | delete and count together, or nothing for a row that is not claimed |
| SqlStore.Store.AckBatch | internal/storage/sqlite.go:376-415 | the loop with its `processed` sum removes each claimed row named once and counts exactly those |
| SqlStore.Store.Retry | internal/storage/postgres.go:532-558 | delete, insert and counters as one step; a missing row or a conflict rolls back |
| SqlStore.Store.DeadLetter | internal/storage/postgres.go:562-591 | letter, tombstone and counter as one step, or rolled back |
| SqlStore.Store.Replay | internal/storage/postgres.go:594-637 | the dead letter moves or nothing changes |
| SqlStore.Store.RunSchedule | internal/storage/postgres.go:854-877 | compare-and-set of the slot and insert of an occurrence of the job, with its payload, both or neither |
| SqlStore.Store.Reclaim | internal/storage/sqlite.go:567-575 | every claimed row of the queue is pending again, no other row changes |
| Conservation.StepKeeps | internal/storage/sqlite.go:345-529 | every transaction, on any arguments, keeps the balance of every queue |
| Conservation.RunsBalance | internal/storage/sqlite.go:247-529 | over every run of arbitrary, stale or repeated calls with reclaims at any time, the balance sheet of every queue name holds |
| Conservation.QueueConservation | internal/storage/sqlite.go:247-575 | inserted + replayed = pending + processing + processed + dead; dead rows = dead counter; each is matched in the shadow queue; no shadow row is ever pending or processing |
| Conservation.UserConservation | internal/storage/sqlite.go:247-575 | on valid queue names alone: inserted + replayed = pending + processing + processed + dead; dead rows = dead counter = dead letters in the shadow queue + replayed |
| Counters.CountersCount | internal/storage/sqlite.go:345-529 | in every run each counter of a queue is the number of its events: rows acked away or letters replayed out, successful retries (errors and retries alike), successful dead-letterings |
| DurableDedupe.OneLiveRowPerKey | migrations/0004_durable_dedupe.postgres.up.sql:3-5 | in every reachable Postgres state at most one live row carries a given key in a queue |
| DurableDedupe.EnqueueLeavesOneHolder | internal/storage/postgres.go:339-385 | after an accepted or skipped keyed enqueue exactly one live row has the key |
| DurableDedupe.RetryIsNeverSkipped | internal/storage/postgres.go:532-558 | Retry succeeds iff the row is claimed and no other live row has the key; under its own key it is never skipped |
| DurableDedupe.ReplayMovesOrDoesNothing | internal/storage/postgres.go:594-637 | Replay succeeds iff the letter exists and its key is free, moves exactly that row, and otherwise changes nothing |
| DurableDedupe.SQLiteAdmitsTwoHolders | internal/storage/sqlite.go:275-286 | without the index two live rows with one key are reachable |
| DurableDedupe.UniqueWithoutIndexIff | internal/storage/sqlite.go:247-286 | over every run without the index, keys are unique at every moment up to i iff every insert by then (enqueue, batch, retry, replay) found its key free |
| DeliveryOrder.StableSortSorts | internal/storage/memory.go:109-117 | the sort orders by priority descending then creation ascending and keeps arrival order among equals |
| DeliveryOrder.SortOrder | internal/storage/memory.go:109-114 | on the fields: priority descending, creation ascending within a priority, same messages |
| DeliveryOrder.SortIsUnique | internal/storage/memory.go:105-117 | a sorted list is determined by its per-key subsequences |
| DeliveryOrder.SortsAgree | internal/storage/memory.go:105-117 | re-sorting a slice that was sorted before, with arrivals appended, gives the stable sort of all arrivals |
| DeliveryOrder.ScanTakesFirstDue | internal/storage/memory.go:120-135 | the scan takes exactly the first `limit` due messages |
| DeliveryOrder.ScanKeepsOthers | internal/storage/memory.go:120-135 | what the scan keeps is the list without the taken messages; if fewer than `limit` went, nothing due stayed |
| DeliveryOrder.ScanStaysSorted | internal/storage/memory.go:120-137 | compaction leaves a sorted slice sorted, so it needs no re-sort |
| MemoryStore.Memory.Enqueue | internal/storage/memory.go:47-59 | appends the stamped message to the arrivals and keeps "not dirty implies sorted" |
| MemoryStore.Memory.EnqueueBatch | internal/storage/memory.go:62-85 | the loop appends the whole stamped batch in order |
| MemoryStore.Memory.Pop | internal/storage/memory.go:98-137 | lazy sort, scan and store-back deliver the first due of a fresh stable sort of all arrivals |
| MemoryStore.Memory.Dequeue | internal/storage/memory.go:94-146 | delivers what an eager sort would, keeps all others, and puts exactly the delivered ids in flight |
| MemoryStore.Memory.Ack | internal/storage/memory.go:149-158 | an id in flight lands and counts, any other changes nothing |
| MemoryStore.Memory.AckBatch | internal/storage/memory.go:161-179 | repeated and unknown ids count nothing; each id in flight counts once |
| MemoryStore.Memory.Retry | internal/storage/memory.go:183-194 | the message is appended and its id lands, without a check that it was in flight |
| MemoryStore.Memory.DeadLetter | internal/storage/memory.go:198-207 | the letter joins the shadow queue, the id lands, dead counts one |
| MemoryStore.Memory.Replay | internal/storage/memory.go:211-227 | the first letter with the id moves to its queue, or nothing changes |
| MemoryStore.Memory.RunSchedule | internal/storage/memory.go:319-333 | the new slot and one new occurrence of the job, with its payload, at the end of its queue, iff the schedule is enabled, due and still at the snapshot's slot |
| MemoryStore.Memory.GetStats | internal/storage/memory.go:230-236 | counters and depth; depth is the number of arrivals still waiting, whatever order the slice is in |
| MemoryStore.Compact | internal/storage/memory.go:119-137 | writing kept messages over the front of the slice being read is the functional scan |
| MemoryStore.DeliveryIsFair | internal/storage/memory.go:88-146 | at most `limit`, all due, highest priority first and oldest first within it; no waiting due message has a higher priority than one that went, or the same and an earlier creation; earliest arrivals first among equals |
| MemoryEffects.EnqueueAdds | internal/storage/memory.go:47-59 | field by field, the one message appended and its filled-in times |
| MemoryEffects.BatchAdds | internal/storage/memory.go:62-85 | the same for each message of a batch, in order |
| MemoryEffects.RetryAdds | internal/storage/memory.go:183-194 | the message appended as handed in; its id leaves flight |
| MemoryEffects.DeadLetterAdds | internal/storage/storage.go:64-73 | the letter appended to q.dlq: new id, the text of the error, dead and due now, all else kept |
| MemoryEffects.ReplayMoves | internal/storage/storage.go:75-82 | the letter leaves q.dlq and is appended to q, due now, without error, all else kept |
| MemoryRefinement.StepRelated | internal/storage/memory.go:47-236 | on fresh ids and in-flight messages, each call keeps slices, in-flight sets and counters equal to the table's rows and counters, and reports the same outcome |
| MemoryRefinement.EnqueueBatchAgrees | internal/storage/memory.go:62-85 | a batch lands in both stores with the same timestamps and in the same queue |
| MemoryRefinement.DequeueLegal | internal/storage/memory.go:94-146 | what Memory delivers is a legal claim of the table |
| MemoryRefinement.DequeueAgrees | internal/storage/memory.go:94-146 | after a dequeue in-flight ids are the claimed rows |
| MemoryRefinement.AckBatchAgrees | internal/storage/memory.go:161-179 | batch acks agree on arbitrary ids |
| MemoryRefinement.RetryAgrees | internal/storage/memory.go:183-194 | retry agrees for a message in flight |
| MemoryRefinement.DeadLetterAgrees | internal/storage/memory.go:198-207 | dead-lettering agrees for a message in flight; the table's tombstone has no counterpart |
| MemoryRefinement.ReplayAgrees | internal/storage/memory.go:211-227 | replay agrees, found or not |
| MemoryConservation.RunsRelated | internal/storage/memory.go:47-236 | every proper Memory run is matched by a legal table run with the same outcomes, related at every moment |
| MemoryConservation.MemoryConserves | internal/storage/memory.go:47-236 | accepted = waiting + in flight + processed + dead letters; ids waiting are distinct and none is also in flight |
| MemoryConservation.ReplayIsFind | internal/storage/memory.go:215-219 | lookup order does not matter: distinct ids make the first match the only one |
| MemoryConservation.InStepIffInFlight | internal/storage/memory.go:183-207 | Retry and DeadLetter keep the stores in step iff the message is in flight |
| AckBuffer.RunsAccount | internal/broker/broker.go:563-628 | over every interleaving, as multisets: passed to ack = buffered + being flushed + handed to a successful AckBatch |
| AckBuffer.BatchCountsRemovedRows | internal/storage/sqlite.go:376-415 | processed grows by exactly the rows removed, and exactly the claimed rows named are removed |
| AckFlush.Buffer.Ack | internal/broker/broker.go:563-576 | unbatched goes to the store; batched is appended, and flushed when the slice is full |
| AckFlush.Buffer.FlushAcks | internal/broker/broker.go:595-611 | take, AckBatch, and put back in front on failure |
| AckFlush.Buffer.FlushAllAcks | internal/broker/broker.go:613-628 | every buffered queue is tried, going on after a failure, and any failure is reported |
| AckFlush.FlushAllEmpties | internal/broker/broker.go:613-628 | afterwards a queue whose call succeeded has no buffered id and no such row claimed; a failed one keeps its ids; no failure means an empty buffer |
| Delivery.ClaimsCompose | internal/storage/sqlite.go:290-342 | after a claim another due row is still due, claiming it too is claiming both at once, and it counts one towards the limit |
| Delivery.BatchIsFetches | internal/broker/broker.go:392-446 | a batch claim is that many single claims with nothing in between: same table, and each row claimed with one new worker |
| AtLeastOnce.StepKeeps | internal/broker/broker.go:507-611 | every broker step, with any store call failing, keeps each message's row faithful, unique and present until completed |
| AtLeastOnce.AtLeastOnce | internal/broker/broker.go:507-611 | in every reachable state, crashes included, an accepted message no handler completed has exactly one live copy with its content: pending or claimed in its queue, or dead in its shadow queue |
| AtLeastOnce.AcksAccounted | internal/broker/broker.go:563-628 | the acknowledgement account holds inside the whole broker |
| OnTime.NotBeforeItsTime | internal/storage/sqlite.go:297-305 | in every run, from any moment a row is pending for a time, the first event to hand it out has a clock at or past that time |
| OnTime.AcceptSchedules | internal/storage/sqlite.go:247-286 | an accepted message is pending for the time it asked for, or the store's clock |
| OnTime.BackoffIsKept | internal/broker/broker.go:545-561 | a message retried with a delay is in no worker's hands before the delay is over |
| OnTime.WorkersAreOnTime | internal/broker/broker.go:392-446 | at every moment each worker's message was handed to it by a clock at or past its scheduled time |
| DeadLetters.OutcomeDecides | internal/broker/broker.go:523-561 | a delivery that succeeded is only acknowledged, one that failed only resolved, and one whose handler has not run runs it unless over a positive cap |
| DeadLetters.HandlerRuns | internal/broker/broker.go:527-541 | a handler run changes only its delivery, and on success completes the message |
| DeadLetters.CompletedIff | internal/broker/broker.go:523-541 | in every run a message counts as completed iff a handler succeeded on it |
| DeadLetters.FlushEnds | internal/broker/broker.go:595-611 | a flush that goes through ends and hands its ids over; a failed one ends with them back in front |
| DeadLetters.DeadMeansExhausted | internal/broker/broker.go:523-553 | in every run a dead letter has more than MaxRetries attempts; where the budget holds, exactly MaxRetries + 1 recorded failures |
| DeliveryStore.StepIsCall | internal/broker/broker.go:507-611 | every broker step makes at most one store call, legal there, and leaves the table that call leaves |
| DeliveryStore.RunsAreStoreRuns | internal/broker/broker.go:507-611 | the table behind every broker run is reached by a run of the store alone, so that what holds there holds here |
| DeliveryClaims.RunsKeepClaims | internal/broker/broker.go:507-611 | every delivery has its row claimed and to itself, and no ack waits for a row that is up for delivery or with a worker, in runs whose reclaims leave claimed rows of workers and waiting acks alone |
| RetryBudget.RunsKeepBudget | internal/broker/broker.go:523-561 | attempts on the live copy equal the recorded failures, and two deliveries of one row are in progress only on its last attempt, over all runs whose reclaims are harmless |
| RetryBudget.FailuresBounded | internal/broker/broker.go:523-561 | with MaxRetries n > 0 at most n + 1 failures are recorded over a message's whole life, replays, crashes and harmless reclaims included |
| RetryTermination.StepFalls | internal/broker/broker.go:507-561 | from any state each step without new work lowers what is left for any chosen messages, an invocation of one of them by at least one |
| RetryTermination.InvocationsBounded | internal/broker/broker.go:507-561 | on any stretch without enqueues, replays, reclaims and crashes, for one message, some or all: invocations + what is left after = at most what was left before |
| RetryTermination.RunsLeft | internal/broker/broker.go:523-561 | within the budget, a pending row without a delivery can cause at most n + 1 - (failures on record) handler runs until something brings it back |
| RetryLimits.NoBoundWithoutRetries | internal/broker/broker.go:523-526 | with MaxRetries 0, for every k some run without a reclaim records k failures of one message |
| RetryLimits.BoundedIffPositive | internal/broker/broker.go:523-561 | a bound on recorded failures exists iff MaxRetries is positive, and then n + 1 is one |
| ReclaimBudget.HarmfulReclaimBreaks | internal/storage/sqlite.go:567-575 | after every run within the budget, at every MaxRetries, a reclaim that is not harmless goes on, with no other reclaim, to n + 2 failures of some message |
| ReclaimBudget.ReclaimKeepsBudgetIff | internal/storage/sqlite.go:567-575 | a reclaim leaves all messages within the budget for good iff no delivery of the queue, with attempts to spare, has its row claimed |
| DispatcherSafety.StepKeeps | internal/broker/broker.go:364-446 | every step keeps: one loop, its semaphore counting exactly the slots its workers hold, the in-flight count exact |
| DispatcherSafety.OneLoopAndFewHandlers | internal/broker/broker.go:364-446 | at every moment, through drains, restarts, re-registration and abort, at most one loop and at most `concurrency` handlers |
| DispatcherSafety.PausedLoopWaits | internal/broker/broker.go:383-390 | while a queue stays paused and nothing aborts, a loop at its top or at the pause check stays there, whatever drain or shutdown was requested |
| PauseEffect.HeldLoopWaits | internal/broker/broker.go:366-417 | until the pause is lifted or an abort begins, every loop that has the pause check ahead of it, or anything pending, is there at every moment |
| PauseEffect.PauseHoldsIff | internal/broker/broker.go:366-417 | a paused queue's loop stays in every such continuation iff it is one of these, neither about to signal nor leaving |
| DispatcherClaims.RunsExclusive | internal/broker/broker.go:418-446 | at every moment each message in a loop's batch or with a running handler is claimed, and no two of these have the same one |
| DispatcherHistory.StartsIff | internal/broker/broker.go:188-202 | a call starts a loop iff there is none and it is a Register, or the second half of a Resume of a registered queue on an open broker |
| DispatcherHistory.NewMessagesCome | internal/broker/broker.go:364-446 | a message new to the queue comes from outside or from a handler while it runs, and may at any such moment |
| DispatcherHistory.OwnFlushLands | internal/broker/broker.go:613-628 | a loop's own flush lands its acknowledgements iff it goes through |
| DispatcherHistory.AbortIsSeen | internal/broker/broker.go:376-408 | once an abort has begun, a loop that looks for it, at its top, before a drain or in a wait, leaves |
| DispatcherHistory.OwnIff | internal/broker/broker.go:507-561 | a message counts as the handlers' own iff one of them put it there, by enqueue or retry, and no replay has since |
| DrainQuiescence.EmptyMeansSettled | internal/broker/broker.go:452-469 | what the passing check sees: depth 0 and no worker means every message is settled |
| DrainQuiescence.DrainedMeansQuiescent | internal/broker/broker.go:400-417 | a loop leaving through its drain check had an instant with an empty queue and no handler since; all its handlers put into the queue is settled |
| DrainQuiescence.DrainedWithoutFailures | internal/broker/broker.go:452-502 | if all transitions succeeded, settled means acked, buffered for an ack, or dead-lettered |
| DrainQuiescence.ClosedMeansQuiescent | internal/broker/broker.go:808-857 | behind every closed Drain channel is such an instant |
| DrainChannel.CleanRunsCloseOnce | internal/broker/broker.go:892-898 | no channel is closed twice in a run whose loops start clean |
| DrainChannel.OrderlyRunsCloseOnce | internal/broker/broker.go:775-898 | nor in a run whose callers never register on a completed drain nor drain between the halves of a Resume, with Drains overlapping or timing out |
| DrainSignal.LostForGood | internal/broker/broker.go:817-851 | a channel that is not current, or whose flag is down with no loop heading for the close, keeps its close count for ever |
| DrainSignal.CanBeClosedIff | internal/broker/broker.go:808-898 | in every run: some continuation closes a given channel once more iff it is current and the flag is up before an abort, or a loop has passed the drain check, is in it, or is on its way there with the flag up, with nothing pending |
| DrainSignal.FlagDownStrands | internal/broker/broker.go:846-851 | after a Drain timed out, or a Resume, the current channel can still be closed iff a loop has passed the drain check or is in it with nothing pending |
| DrainSignal.TimeoutStrandsOther | internal/broker/broker.go:846-851 | Register, two Drains, and the first times out: the second one's channel is current, open and closed in no continuation |
| DrainRaces.DirtyStartClosesAgain | internal/broker/broker.go:196-202 | every loop that starts dirty before an abort can close the closed channel once more, with any messages pending, shutting down or not |
| DrainRaces.ClosesTwiceIffDirty | internal/broker/broker.go:196-202 | after any run of clean starts, the next start can lead to a second close, without a further start, iff it is dirty and no abort has begun |
| DrainRaces.RegisterAfterDrainClosesTwice | internal/broker/broker.go:196-202 | Drain then Register closes a channel twice |
| DrainRaces.ResumeRaceClosesTwice | internal/broker/broker.go:775-788 | a Drain between the two halves of a Resume does too |
| ResumeEffect.StaysLive | internal/broker/broker.go:364-417 | a loop outside the drain check, or inside it with something pending, is there at every later moment until the next drain, stop or abort |
| ResumeEffect.CanLeave | internal/broker/broker.go:400-417 | every other loop can leave, without any call |
| ResumeEffect.ResumeTakesEffectIff | internal/broker/broker.go:775-788 | a Resume in calm keeps the queue with a loop in every continuation until the next drain, stop or abort iff it finds no loop or one that stays |
| QueueView.StepIsSeen | internal/broker/broker.go:364-611 | where every delivery has its row claimed and to itself and no ack waits for another's row, every broker step but a reclaim or a crash is, for the dispatcher of any queue, a step its machine allows, and puts the queue's messages where that machine puts them |
| QueueView.RunsAreSeen | internal/broker/broker.go:364-611 | so in every run whose reclaims take no row from a delivery or a waiting ack, step by step; a crash or reclaim makes the messages whose rows were claimed pending again |
| ReclaimView.ReclaimIsUnnoticedIff | internal/storage/sqlite.go:567-575 | after any such run, a reclaim leaves every later step one of the dispatcher's machine, in every continuation, iff it takes no row from a delivery or a waiting ack |
| QueueView.DepthIsPendingRows | internal/broker/broker.go:452-469 | the dispatcher's depth is zero iff the store has no pending row of the queue |
| Shutdown.StoreClosedAtMostOnce | internal/broker/broker.go:674-719 | in every run, with any number of Shutdown calls, the store is closed at most once |
| Shutdown.ClosedLast | internal/broker/broker.go:674-719 | on both paths the store is closed only after all tasks and the ack loop ended, no flush is in flight, and buffered acks remain only for queues whose final flush failed |
| Shutdown.ClosedEarlyMeansLateStart | internal/broker/broker.go:188-202 | a store closed under a running task implies a start after the wait group was seen at zero |
| Shutdown.LateStartClosesEarly | internal/broker/broker.go:188-202 | every start after the wait group was seen at zero can go on to a store closed while the started task runs |
| Shutdown.ClosesEarlyIffLateStart | internal/broker/broker.go:188-202 | after any run without a late start, the next start can lead to a store closed under a running task iff the wait group had been seen at zero |
| ShutdownHistory.NoneDropped | internal/broker/broker.go:595-628 | over every run an acknowledgement that is buffered or in a flush stays so until a flush with it goes through |
| ShutdownHistory.BufferingHolds | internal/broker/broker.go:563-576 | buffering an acknowledgement is what makes it held |
| ShutdownHistory.LandedIsGone | internal/broker/broker.go:595-611 | a flush that goes through takes its acknowledgements along and moves nothing else |
| ShutdownHistory.FailedIff | internal/broker/broker.go:674-719 | the queues noted as failed are exactly those whose final flush failed |
| ShutdownHistory.LandedOrFailed | internal/broker/broker.go:674-719 | when the store is closed, every acknowledgement ever buffered has landed, or a final flush of its queue failed |
| ShutdownHistory.EntersIff | internal/broker/broker.go:674-680 | the first Shutdown call goes on, later ones change nothing |
| ShutdownHistory.AckLoopRuns | internal/broker/broker.go:578-593 | with batching the ack loop runs until the close, past its wait for the tasks, tells it to stop |
| ShutdownHistory.FlagsAre | internal/broker/broker.go:674-719 | stop is requested from the first step on, abort iff the context expired, never on the graceful path |
| ShutdownHistory.CanFinish | internal/broker/broker.go:674-719 | a shutdown that has begun can be completed from wherever it is |
| Cadence.CatchUp | internal/broker/broker.go:921-924 | the catch-up loop terminates and equals its closed form |
| Cadence.NextSlotIsEarliest | internal/broker/broker.go:921-924 | the next slot is on the cadence, past the clock and the old slot, and the earliest such |
| Periodic.RunKeeps | internal/storage/memory.go:319-333 | a run that sends for the job moves its slot strictly forward along the cadence; any other run leaves it as it is |
| Periodic.RunsKeepCadence | internal/storage/postgres.go:854-877 | across brokers, clocks and stale snapshots the slot stays on the grid and never moves back |
| Periodic.CadenceIsKept | internal/broker/broker.go:917-930 | unless the job is created a second time, each slot yields at most one message, and clocks up to T send at most floor((T - start)/interval) + 1, also after the job was removed |
| Recreation.RunsStayAhead | internal/storage/memory.go:262-333 | over every run whose creations of an id start past the slots used by then, its slots rise strictly, deletions, recreations and stale snapshots included |
| Recreation.RecreationBreaksIff | shoebox.go:273-301 | after any such run, one more creation can make the slots repeat or go back, with no further creation, iff it starts at or before the last slot used |
| Recreation.RecreationRepeatsSlot | internal/storage/memory.go:262-287 | every schedule, deleted and created again as it was, can send for its first slot twice |
| Periodic.Tick | internal/broker/broker.go:917-930 | one tick runs each due snapshot through the compare-and-set, skipping non-positive intervals: exactly the runs that take move their slot and append their message |
| Periodic.TickIsRuns | internal/broker/broker.go:917-930 | a tick is a stretch of the machine: same schedules, same sendings recorded, and every queue grows by exactly the messages sent to it |
| Periodic.TickSendsOccurrences | internal/storage/storage.go:84-92 | each message a tick adds to a queue is an occurrence of a due job of that queue: its id, payload and queue, created and due now, not attempted, no key |
| Periodic.RunAppends | internal/storage/memory.go:319-333 | a taken run appends one occurrence of the job to its list and nothing else |
| Periodic.RunInserts | internal/storage/postgres.go:854-877 | and inserts it as one new pending row, which no dedupe key holds back |
| Periodic.SendsIffDue | internal/storage/memory.go:319-333 | a run sends, once and for that slot, iff its schedule exists, is enabled, has come due and is still at the snapshot's slot |
| Periodic.DisabledSendsNothing | internal/storage/memory.go:319-333 | from the moment a schedule is disabled nothing is sent for it, by any broker or old snapshot, until it is enabled or created again |
| DedupeTtl.Store.SeenOrAdd | internal/broker/dedupe.go:49-65 | the answer and the map, with the sweep loop equal to dropping everything expired |
| DedupeTtl.Store.PurgeQueue | internal/broker/dedupe.go:79-88 | the loop removes exactly the queue's keys |
| DedupeTtl.SweepIsUnobservable | internal/broker/dedupe.go:49-65 | under a clock that does not go back, as the monotonic readings of one process do not, every answer is that of a never-swept map |
| DedupeTtl.AcceptancesAreApart | internal/broker/dedupe.go:49-88 | two acceptances of a key with no deletion or purge between are at least one TTL apart |
| DedupeTtl.LivenessAfter | internal/broker/dedupe.go:49-88 | in every run, for every key and later time: an accepted key is a duplicate until its TTL is over, a Delete and a purge make exactly their keys new, and nothing else changes any answer |
| DedupeTtl.OthersAreKept | internal/broker/dedupe.go:67-88 | a Delete or purge leaves every other key as it was at every time |
| DedupeTtl.ForgottenIsAccepted | internal/broker/dedupe.go:67-88 | a key that a Delete or a purge of its queue forgot is accepted when next presented |
| DedupeTtl.SweepsAboveThreshold | internal/broker/dedupe.go:57-63 | an acceptance drops no key while at most 1024 are held, and above that exactly the expired ones |
| DedupeLru.Store.constructor | internal/broker/dedupe.go:103-113 | a capacity that is not positive becomes the default |
| DedupeLru.Store.SeenOrAdd | internal/broker/dedupe.go:115-141 | answer, order and eviction; index and list keep the same keys once each, within capacity; eviction exactly for a new key in a full store |
| DedupeLru.Store.Delete | internal/broker/dedupe.go:143-150 | the key leaves index and list |
| DedupeLru.Store.PurgeQueue | internal/broker/dedupe.go:158-168 | exactly the queue's keys leave, the rest keep their order |
| DedupeLru.AfterFits | internal/broker/dedupe.go:115-141 | keys stay unique and the size within capacity |
| DedupeLru.Retention | internal/broker/dedupe.go:115-141 | a key left alone answers by its own expiry while fewer than `capacity` distinct other keys were presented; without deletions, from that many on it is forgotten |
| DedupeLru.HitKeepsExpiry | internal/broker/dedupe.go:119-124 | a hit changes no key's expiry; a miss sets its own and at most evicts another |
| DedupeLru.ForgetLeavesOthers | internal/broker/dedupe.go:143-168 | a Delete or purge makes exactly its keys new and leaves every other answer as it was |
| DedupeLru.ForgottenIsAccepted | internal/broker/dedupe.go:143-168 | such a key is accepted when next presented |
| EnqueueBatch.AdmitAll | internal/broker/broker.go:244-253 | the loop over the items against the TTL store gives the messages and the keys added |
| EnqueueBatch.RollbackDedupe | internal/broker/broker.go:276-285 | exactly the given keys are removed |
| EnqueueBatch.Run | internal/broker/broker.go:235-262 | the whole call against a store: nothing for an empty result, the store's batch insert otherwise, and keys and store as before if that is down or refuses |
| EnqueueBatch.StoresKeylessAndFirsts | internal/broker/broker.go:235-334 | handed over are exactly the keyless items and the first item of each key not live, in order, each with its own payload, priority, delay and key, creation times strictly increasing even in whole microseconds |
| EnqueueBatch.StoreHoldsKeylessAndFirsts | internal/storage/sqlite.go:247-286 | a store without the index then holds its old rows and one row for each of these, exactly as handed over, and nothing else |
| EnqueueBatch.FailureLeavesNoKeys | internal/broker/broker.go:276-285 | after a failed store call the live keys are as if it had not happened |
| Backoff.DelayIsInRange | internal/retry/backoff.go:36-50 | for a positive cap the delay is positive and within it, for every base and attempt |
| Backoff.DelayIsCappedProductIff | internal/retry/backoff.go:36-50 | the delay is the capped product iff no overflow reads as a positive number below the cap |
| Backoff.NoOverflowIff | internal/retry/backoff.go:40-45 | no attempt overflows iff base < 2^33 |
| Backoff.DelayIsCappedProduct | internal/retry/backoff.go:36-50 | up to base 2^34 no overflow goes unnoticed and the delay is the capped product |
| Backoff.DelayNeverFalls | internal/retry/backoff.go:36-50 | up to base 2^34, for every cap, the delay never falls with the attempt |
| Backoff.DelayNeverFallsIff | internal/retry/backoff.go:36-50 | the delay never falls with the attempt iff it is the capped product at every attempt |
| Backoff.DocumentedDelayIff | internal/retry/backoff.go:24-30 | for every base and cap: the documented formula holds iff no overflow goes unnoticed and attempt <= 31 or the cap is reached |

## Left out

- The HTTP API, dashboard, webhooks, configuration, metrics, logging and typed-task codecs: no queue logic.
- SQL drivers, isolation levels and locking: a transaction is one atomic step, and SKIP LOCKED is any
  choice of due unclaimed rows. A commit whose outcome the caller cannot learn is not modelled.
- Timestamp text in SQLite, which does not sort chronologically in general: time is an integer, and no
  delivery order is claimed for the SQL stores.
- Schema migrations, metadata, enqueue options of schedules, id generation (ids are fresh values) and
  payload contents (opaque bytes).
- Real time: polls, timeouts and deadlines are steps that may happen at any moment; that a dispatcher
  makes progress is not claimed.
- The order in which List shows dead letters, and List itself.
- The branch of `handleOne` that re-enqueues when no handler is registered
  (internal/broker/broker.go:512-521): a dispatcher exists only for a registered queue and handlers
  are never removed. Handler panics are not modelled.
- QueueView.RunsAreSeen: for runs whose reclaims are as `ReclaimIsUnnoticedIff` says. It connects where messages are, not the dispatcher's loops and semaphore, which
  `Delivery` does not have; and while a flush is under way the dispatcher's machine still counts its
  acknowledgements as buffered. `Shutdown` has tasks only as a set.
- DrainQuiescence.DrainedMeansQuiescent: speaks of what the queue's own handlers put into it. A handler of
  another queue may enqueue after the dispatcher has left, and a message whose transition failed stays
  claimed (`Stuck`) without being counted by Depth.
- RetryBudget.FailuresBounded: for one fixed MaxRetries of a handler; that it is positive, and that a
  reclaim is harmless, are the conditions of `BoundedIffPositive` and `ReclaimKeepsBudgetIff`.
- MemoryConservation.MemoryConserves: for calls on user-visible queue names, fresh ids, and messages in
  flight, which is what the broker makes; `InStepIffInFlight` says what happens otherwise.
- EnqueueBatch.Run: the in-process TTL policy; a single Enqueue is its one-item case. Under the durable
  policy the key is checked by the store (`DurableDedupe`).
- Recreation.RecreationBreaksIff: for creations with a positive interval, which is all that RegisterPeriodic
  makes.
- Periodic.CadenceIsKept: UpdateSchedule with a changed interval or an earlier slot is not modelled; no
  caller in the repository makes it.
- UpdateSchedule, ListSchedules, and the limit of 100 on DueSchedules.
