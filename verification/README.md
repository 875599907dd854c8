# State sync engine: a verified model

The repository's Go service replicates a local PostgreSQL database to a cloud copy and decides which of
the two is active. This project models that service in Dafny and proves what its parts guarantee together.

**Replication.** `Subscription` decodes the replication stream into change events. `DmlBuilder` turns an
event into SQL text with arguments, using the source's loops; `SqlSyntax` is the statement tree, its text
and a reader for the text; `SqlExec` is what the database does with a statement, with SQL's three-valued
logic. `DmlMeaning` and `DmlFacts` prove that the text means the change. `Publishing` commits a batch in
chunks, each a transaction in which any request may fail and in which a commit that reports failure may
have been applied.

**The engine.** `EngineModel` is the engine as a state machine with one step for each critical section,
request and file operation; `EngineOrder`, `EngineOutage`, `EngineCheckpoint` and `EngineCloud` prove what
holds over all its runs. `Engine` is the engine itself, a class over a mutable buffer, state, breaker,
publisher, checkpoint file and subscriber; its ghost history is a run of that state machine, so the results
about runs are results about the class. `EngineTurns` says which steps one input of its loop stands for. `Backoff`, `Circuits` and `StateStore` are the parts it leans on.

**Why the replica ends right.** `Source` sees both databases as sets of rows. `Replay` shows that, when
batches are sent again after partial commits, each key of the replica always has the rows it had at some
point of its own history, that each change of a replay leaves no key behind it, and that a replay without
an error ends level with the source. Updates may move rows to other keys as long as the batch is
*move-safe*: no earlier change of the unflushed stretch would take effect on what the key holds after the
move. `EngineCloud` carries this through all runs of the engine, `Rebuild` through the wire format, and
`Pipeline` joins them. `ReplayLimits` and `EngineLimits` show that move-safety is needed.

**Where it stops.** `Refusals` says exactly when a replay of a move-safe batch is refused, and that it is then
refused again whatever part of it has been committed; `EngineStuck` that on move-safe histories the engine can
make progress exactly when what it has to send can be applied now. `Redelivery` follows the replication slot over
crashes and restarts and says exactly which events come again.

**The lock and the failover manager.** `LeaseLock` is the lock with whole operations, a shared clock and
expiry times cut to whole seconds; `LockInterleaving` is the same lock with the single requests of any
number of nodes interleaved, failing and crashing. `Failover` is the failover manager over an unreliable
view of the lock and an unreliable coordinator.

Where the source meets something outside itself, the answer is a parameter or is chosen arbitrarily: the
database, the object store, the file system, the clock, the network and the scheduler may do anything that
their interfaces allow. The classes for the cloud, the file system, the connection and the bucket carry a flag
`reliable`: when it is set every request is answered, and the contracts then say exactly how an operation ends.

## Results

- Every SQL text the publisher sends parses back to its statement, its placeholders are exactly
  `$1 … $n` although NULLs take none, and running it does to every database exactly what the change event
  says (`DmlMeaning.TextMeaning`). Two events share a text exactly when they share operation, table,
  assigned columns, and predicate columns with the same ones NULL (`DmlFacts.SameTextIff`).
- Over every run with arbitrary failures nothing is lost, duplicated or reordered before it is committed
  (`EngineOrder.Conservation`, `EngineOrder.CommittedLog`). On keyed tables with full old rows and move-safe
  batches the replica equals the source as of the last flushed change at the end of every successful flush
  (`EngineCloud.ReplicaEqualsSource`, `Pipeline.FlushedReplica`, and for the engine object
  `Pipeline.DrainedReplica`), and the engine can get further exactly when what it has to send can be applied
  to the cloud as it is (`EngineStuck.ProgressIff`).
- The loop flushes exactly when a flush is due (`Engine.Engine.Loop`), a flush is not blocked while fewer than
  five have failed since the last success (`EngineOutage.FewFailuresPass`), and a buffer that can be applied is
  flushed when the breaker grants and all requests are answered (`Engine.Engine.Flush`).
- A clean shutdown means drained: committed, nothing buffered, saved (`Engine.Engine.ShutdownWork`).
- Calls to a dead cloud are bounded (`EngineOutage.OutageBound`), checkpoints survive any crash
  (`StateStore.CrashSafe`, `EngineCheckpoint.PersistedBound`).
- The lock excludes other nodes until the lease's whole second (`LeaseLock.LeaseGuarantee`), and under any
  interleaving as long as nobody sees an expired lease (`LockInterleaving.MutualExclusion`); once two nodes
  do, both can be granted (`LockInterleaving.ExpiryBreaksExclusion`).
- The failover manager fences the local database from any state and keeps it fenced
  (`Failover.SelfStabilises`), and the mode each cycle leaves is known exactly (`Failover.FailoverModeIff`,
  `Failover.RecoveryModeIff`, `Failover.ModeStays`); its failovers and recoveries alternate (`Failover.Alternate`).

## Where code and expectations part

The model follows the code. These lemmas state what the code does where a reader of its comments and
design might expect something else.

- An UPDATE event without an old row never changes the replica: its WHERE clause selects rows that are
  already as the update wants them (`DmlFacts.UpdateWithoutOldRowChangesNothing`).
- A DELETE under a replica identity that sends only the key deletes the row exactly when its other columns
  are all NULL (`DmlFacts.KeyOnlyDelete`).
- A column sent as unchanged TOAST is replaced by the text `unchanged_toast`; a row arrives as it was exactly
  when its unchanged columns held that text (`Rebuild.FaithfulIff`).
- An update that moves a row to another key can be lost when its batch is sent again although the flush
  succeeds (`EngineLimits.SuccessfulFlushLosesRow`). It is not lost when its batch is move-safe
  (`EngineCloud.ReplicaEqualsSource`), in particular when it moves only into keys that the unflushed
  stretch has not touched before (`Replay.FreshKeysAreSafe`).
- An insert that was committed while its commit was reported as failed blocks replication for good
  (`EngineLimits.AppliedInsertBlocks`), and so may an update that moves a row, even in a move-safe batch
  (`EngineLimits.AppliedMoveBlocks`). In general, on move-safe histories the engine can get further exactly when
  no unflushed change is refused (`EngineStuck.ProgressIff`, with `Refusals.RefusedIff` for when that is); and on
  every history it is stuck for good once the cloud refuses the first unflushed event
  (`EngineStuck.HeadRefusedForever`).
- An event that cannot be turned into SQL stops replication for good: neither it nor anything after it is ever
  counted as processed (`EngineOrder.UnpublishableBlocks`). The decoder emits such events for unknown
  relations, for columns such as `created-at` and for deletes without an old tuple
  (`Pipeline.UnusableMessageStops`, `Subscription.PublishableIff`).
- A lease of one second can end after a nanosecond (`LeaseLock.LeaseCanEndEarly`); it keeps its whole time exactly
  when it ends on a whole second (`LeaseLock.LeaseEndsAtBound`).
- An absent lock is an error to the failover manager, not an empty holder, so the manager does not recover
  when the cloud's lock disappears (`Failover.NoRecoveryWithoutLock`); and a `SetReadWrite` without effect is
  not repeated (`Failover.LostRecovery`).
- The comments on `Run` (`engine.go:74`) say that replication resumes from the persisted LSN. The stream starts
  from the acknowledged LSN, which `Connect` sets to 0 (`subscriber.go:90,119`), so the server resumes
  from what its slot has confirmed; and commits are acknowledged before the engine has flushed them
  (`subscriber.go:314-316`). Events received and not flushed when the process dies come again exactly when no
  acknowledgement covers their transaction (`Redelivery.ComesAgainIff`), and for every log there is a run
  that loses all of them but at most those of the last transaction (`Redelivery.UnflushedAreLost`).

## Model

| member | source | states |
|---|---|---|
| Text.AscendingUnique | state-sync-engine/internal/replication/publisher.go:239-246 | sorted keys depend on the key set alone, so Go's random map order cannot change a statement |
| Text.AtoiItoa | state-sync-engine/internal/replication/publisher.go:157 | decimal parameter numbers read back to themselves, whatever non-digits or digits follow |
| Text.SplitQualified | state-sync-engine/internal/replication/subscriber.go:494-505 | splitting `a.b` at dots gives back the two dot-free parts |
| SqlSyntax.IdentRoundTrip | state-sync-engine/internal/replication/subscriber.go:510-512 | a quoted identifier with any characters, quotes included, reads back to the identifier |
| SqlSyntax.PrintParse | state-sync-engine/internal/replication/publisher.go:142-237 | print/parse round trip for every insert, update and delete statement |
| SqlSyntax.PrintInjective | state-sync-engine/internal/replication/publisher.go:142-237 | one SQL text stands for one statement only |
| Rows.NamePartsInjective | state-sync-engine/internal/replication/subscriber.go:493-508 | two accepted table names never denote the same quoted table |
| Rows.QualifiedParts | state-sync-engine/internal/replication/subscriber.go:366-369 | the name a relation message stores is accepted by the publisher and splits into schema and table |
| Rows.AllAppliedPublishable | state-sync-engine/internal/replication/publisher.go:67-78 | a batch can be applied only if each of its events can be turned into SQL |
| DmlBuilder.SortedKeys | state-sync-engine/internal/replication/publisher.go:239-246 | returns the map's keys, each once, in byte order |
| DmlBuilder.QuoteQualifiedTable | state-sync-engine/internal/replication/subscriber.go:493-508 | the quoted text of a one- or two-part safe name, an error for every other string |
| DmlBuilder.BuildInsertSQL | state-sync-engine/internal/replication/publisher.go:142-168 | the loop's text and arguments are those of the insert statement, or the first unsafe column or missing row is reported |
| DmlBuilder.BuildWhereClause | state-sync-engine/internal/replication/publisher.go:216-237 | the loop's text is the conjunction over all keys, its arguments the non-NULL values in order |
| DmlBuilder.BuildUpdateSQL | state-sync-engine/internal/replication/publisher.go:170-200 | text and arguments are those of the update statement, with WHERE numbered on from SET, or the error the source reports first |
| DmlBuilder.BuildDeleteSQL | state-sync-engine/internal/replication/publisher.go:202-214 | text and arguments are those of the delete statement, or its error |
| DmlBuilder.BuildDML | state-sync-engine/internal/replication/publisher.go:117-140 | every event gives the query of its compiled statement or the error of its first fault |
| DmlMeaning.CompilesIff | state-sync-engine/internal/replication/publisher.go:117-237 | an event is turned into SQL exactly when its table and columns are safe, its needed rows are there and its operation is known |
| DmlMeaning.PlaceholdersInOrder | state-sync-engine/internal/replication/publisher.go:177-233 | placeholders read left to right are exactly $1 to $n for n arguments, despite skipped NULLs |
| DmlMeaning.WhereMeaning | state-sync-engine/internal/replication/publisher.go:216-237 | under three-valued logic the WHERE clause selects a row iff it agrees with the predicate row on every column, NULL matching NULL |
| DmlMeaning.UpdateMeaning | state-sync-engine/internal/replication/publisher.go:170-200 | the update statement overwrites exactly the agreeing rows with the new row, on every table |
| DmlMeaning.DeleteMeaning | state-sync-engine/internal/replication/publisher.go:202-214 | the delete statement removes exactly the agreeing rows, on every table |
| DmlMeaning.InsertMeaning | state-sync-engine/internal/replication/publisher.go:142-168 | the insert statement adds the new row, absent columns NULL, or fits no such table |
| DmlMeaning.CompiledMeaning | state-sync-engine/internal/replication/publisher.go:117-237 | executing the compiled statement equals applying the change, on every database, errors included |
| DmlMeaning.TextMeaning | state-sync-engine/internal/replication/publisher.go:117-237 | the text as sent, parsed and executed with its arguments, equals applying the change; an event without text cannot be applied |
| DmlFacts.SameTextIff | state-sync-engine/internal/replication/publisher.go:142-237 | two events have the same text iff they share operation, table, assigned columns, predicate columns and their NULLs |
| DmlFacts.UpdateWithoutOldRowChangesNothing | state-sync-engine/internal/replication/publisher.go:135-140 | an update that falls back to the new row as predicate changes no database |
| DmlFacts.KeyOnlyDelete | state-sync-engine/internal/replication/publisher.go:135-140 | a delete that carries the key only removes its row iff all other columns are NULL, and never another row |
| Source.ApplyIsFire | state-sync-engine/internal/replication/publisher.go:67-78 | on a keyed replica in any state a full change has the effect, or the error, that its row set predicts |
| Replay.InOrderRebuild | state-sync-engine/internal/replication/publisher.go:47-92 | a replica that applies an accepted history once in order accepts every change and equals the source |
| Replay.FireAt | state-sync-engine/internal/replication/publisher.go:117-140 | a change leaves each key as it was or brings it level with the source, and keeps a level key level unless a moving row does not arrive |
| Replay.Advance | state-sync-engine/internal/replication/publisher.go:117-140 | one change of a replay that is not refused leaves no key behind it: each key stays at a later point of its history or becomes level |
| Replay.ReplayAdvances | state-sync-engine/internal/replication/publisher.go:55-89 | a replay that runs up to m without an error leaves no key behind m |
| Replay.PartialReplay | state-sync-engine/internal/replication/publisher.go:55-89 | sending any part of a batch again leaves every key at some point of its own history, when the batch is move-safe |
| Replay.FullReplay | state-sync-engine/internal/replication/publisher.go:47-92 | sending a whole move-safe batch again without an error ends equal to the source, whatever was committed before |
| Replay.FreshKeysAreSafe | state-sync-engine/internal/replication/publisher.go:135-140 | a batch is move-safe if its updates move rows only into keys that it has not touched before |
| Refusals.KeyKeepingIsSafe | state-sync-engine/internal/replication/publisher.go:135-140 | updates that keep the key are move-safe |
| Refusals.KeptOrLevel | state-sync-engine/internal/replication/publisher.go:47-92 | after a replay that met no error each key has the rows it had, or those of the source |
| Refusals.RefusedIff | state-sync-engine/internal/replication/publisher.go:67-78 | when updates keep their keys or the batch is move-safe and every key within its history, a replay is refused iff some change of it stores a row under a key filled with a row that no earlier change of the replay clears, the moving row being there if it moves one |
| Refusals.RefusalStays | state-sync-engine/internal/replication/publisher.go:55-89 | under the same conditions, a batch that is refused is refused again after any part of it has been committed |
| ReplayLimits.MoveIsLegal | state-sync-engine/internal/replication/publisher.go:135-140 | a delete followed by a key-changing update is a history any source may have |
| ReplayLimits.MoveIsUnsafe | state-sync-engine/internal/replication/publisher.go:135-140 | that history is not move-safe |
| ReplayLimits.MovedRowIsLost | state-sync-engine/internal/replication/publisher.go:55-89 | executing that history again on its own outcome meets no error and empties the table |
| EngineLimits.SuccessfulFlushLosesRow | state-sync-engine/internal/engine/engine.go:206-275 | an engine run that ends in a successful flush, both events processed, with the replica empty where the source keeps a row |
| EngineLimits.AppliedInsertBlocks | state-sync-engine/internal/engine/engine.go:206-238 | one insert committed by a call of Publish that reports an error: whatever comes after it and however the run goes on, nothing is ever flushed |
| EngineLimits.MoveThenAdd | state-sync-engine/internal/replication/publisher.go:135-140 | an update to a fresh key and an insert of the old row form a move-safe history whose repetition is refused at the update |
| EngineLimits.AppliedMoveBlocks | state-sync-engine/internal/engine/engine.go:206-238 | committed once and reported as failed, that history blocks the engine for good |
| Publishing.ApplyAllShaped | state-sync-engine/internal/replication/publisher.go:67-78 | no batch changes the columns of any stored row |
| Publishing.Publisher.constructor | state-sync-engine/internal/replication/publisher.go:36-43 | a batch size that is not positive becomes 100 |
| Publishing.Publisher.PublishChunk | state-sync-engine/internal/replication/publisher.go:61-84 | a chunk takes effect whole or not at all; success means it did; after an error it may or may not have; when every request is answered, it succeeds iff all its events can be applied, and otherwise has no effect |
| Publishing.Publisher.Publish | state-sync-engine/internal/replication/publisher.go:46-92 | whatever fails, the cloud holds the effect of a prefix of whole chunks, of all events when nil is returned; when every request is answered, nil iff the events can be applied, and an error comes from the first chunk that cannot, with the chunks before it committed; without a pool it is an error |
| Backoff.DelaysMonotoneIff | state-sync-engine/internal/retry/backoff.go:36-45 | delays never decrease iff the initial delay is within the cap |
| Backoff.CapReached | state-sync-engine/internal/retry/backoff.go:41-43 | every positive initial delay reaches the cap |
| Backoff.TotalWait | state-sync-engine/internal/retry/backoff.go:36-45 | total wait after n failures: initial·(2^n−1) up to the cap index m, then initial·(2^m−1) + (n−m)·max |
| Backoff.Do | state-sync-engine/internal/retry/backoff.go:53-78 | at most N calls and N−1 full waits for N attempts, waits are the backoff delays, stops at the first success, after the last attempt or at a cancelled wait, and says which |
| Circuits.CircuitBreaker.constructor | state-sync-engine/internal/retry/circuitbreaker.go:54-67 | closed at first, with 5 failures and 5 minutes for values that are not positive |
| Circuits.CircuitBreaker.Allow | state-sync-engine/internal/retry/circuitbreaker.go:71-90 | grants when closed, or as one probe when the interval has passed since the last failure |
| Circuits.CircuitBreaker.RecordSuccess | state-sync-engine/internal/retry/circuitbreaker.go:93-99 | closes the circuit and forgets the failures |
| Circuits.CircuitBreaker.RecordFailure | state-sync-engine/internal/retry/circuitbreaker.go:102-112 | counts the failure, stamps its time, opens at the threshold |
| Circuits.ClosedIff | state-sync-engine/internal/retry/circuitbreaker.go:71-112 | after every call sequence the circuit is closed iff fewer failures than the threshold came since the last success |
| Circuits.GrantedIff | state-sync-engine/internal/retry/circuitbreaker.go:71-112 | after every call sequence a request is let through iff fewer failures than the threshold came since the last success, or the interval has passed since the last failure with no probe let through since |
| Circuits.ProbesAreSpaced | state-sync-engine/internal/retry/circuitbreaker.go:78-86 | two granted probes without a success between are at least the retry interval apart |
| StateStore.DiskInvariant | state-sync-engine/internal/state/state.go:59-83 | at every cut the checkpoint file is the snapshot renamed last, whole, and a complete temporary file is the snapshot being saved |
| StateStore.CrashSafe | state-sync-engine/internal/state/state.go:59-106 | wherever a sequence of saves is cut, loading gives the snapshot renamed last or the fresh state |
| StateStore.Store.WriteTmp | state-sync-engine/internal/state/state.go:70-74 | success leaves the whole snapshot in the temporary file, failure perhaps a part of it; the checkpoint is not touched |
| StateStore.Store.RenameTmp | state-sync-engine/internal/state/state.go:76-80 | success puts the temporary file in the checkpoint's place, failure leaves the checkpoint as it was |
| StateStore.Store.Save | state-sync-engine/internal/state/state.go:56-83 | success puts this snapshot in place; any failure leaves the checkpoint as it was; its file operations are steps of the file system model; it succeeds and leaves no temporary file when no system call fails |
| StateStore.Store.Load | state-sync-engine/internal/state/state.go:85-106 | no file gives the fresh state, a whole file its state, anything else an error, and only a failing read another one |
| EngineModel.RunSave | state-sync-engine/internal/engine/engine.go:292-296 | a whole save inside a run touches the disk only |
| EngineModel.FlushedStateIs | state-sync-engine/internal/engine/engine.go:239-276 | a flush records the highest LSN of its batch, its time, the slot and the count; the lag is the time since the latest event with a timestamp and stays when none has one; nothing else changes |
| EngineOrder.Conservation | state-sync-engine/internal/engine/engine.go:180-239 | in every reachable state received = flushed ++ batch in flight ++ buffer, even if events arrive during a publish |
| EngineOrder.CommittedLog | state-sync-engine/internal/engine/engine.go:206-238 | over every run, executing the logged events in order takes the cloud from its start to what it holds; their first occurrences are a prefix of the received stream in order that covers all processed events |
| EngineOrder.ProcessedIsCommitted | state-sync-engine/internal/engine/engine.go:221-275 | every event counted as processed is among the events the cloud has executed, in order, repeats aside |
| EngineOrder.Counters | state-sync-engine/internal/engine/engine.go:221-275 | processed grows by the flushed count, failed by the sizes of failed batches, neither by blocked flushes |
| EngineOrder.LsnAccounting | state-sync-engine/internal/engine/engine.go:241-275 | flushed events have LSN ≤ LastLSN; the cloud has executed every received event up to any with LSN below it |
| EngineOrder.LastLsnMonotone | state-sync-engine/internal/engine/engine.go:266-270 | LastLSN never decreases from a run's first flush on |
| EngineOrder.UnpublishableBlocks | state-sync-engine/internal/engine/engine.go:221-238 | nothing at or after an event without SQL is ever counted as processed |
| EngineOutage.Shapes | state-sync-engine/internal/engine/engine.go:193-239 | in every run the breaker's failures are the failed flushes since the last success and probes are spaced by the interval |
| EngineOutage.NeverStuck | state-sync-engine/internal/retry/circuitbreaker.go:71-90 | the breaker is never half-open while no flush is in progress, and grants again once the interval has passed |
| EngineOutage.FewFailuresPass | state-sync-engine/internal/engine/engine.go:193-239 | over every run a flush is let through, and never blocked, while fewer than five flushes have failed since the last success |
| EngineOutage.OutageBound | state-sync-engine/internal/engine/engine.go:193-222 | without a successful publish, Publish is called at most 3·(5 + ⌊D / 5 min⌋) times, D since the breaker opened |
| EngineCheckpoint.DiskShapeRun | state-sync-engine/internal/engine/engine.go:264-296 | in every run the checkpoint parses and persisted ≤ being saved ≤ in-memory processed counts |
| EngineCheckpoint.PersistedBound | state-sync-engine/internal/engine/engine.go:264-296 | over any crashes and restarts persisted and in-memory processed counts never exceed the flushed total |
| EngineCheckpoint.PersistedMonotone | state-sync-engine/internal/engine/engine.go:79-93 | the persisted processed count never decreases across restarts |
| EngineCloud.KeyKeepingWindows | state-sync-engine/internal/engine/engine.go:180-239 | when updates keep their keys every batch of every run is move-safe |
| EngineCloud.CloudInvariant | state-sync-engine/internal/engine/engine.go:180-239 | in every state of a run with move-safe batches each key of the replica is at some point of its history between the flushed position and the next batch's end |
| EngineCloud.ReplicaEqualsSource | state-sync-engine/internal/engine/engine.go:212-239 | on keyed tables with full old rows and move-safe batches, the replica equals the source after the flushed events at the end of every successful flush |
| EngineCloud.KeysWithinHistory | state-sync-engine/internal/engine/engine.go:212-239 | under the same conditions each key shows at every moment rows the source had there, not older than the flushed position |
| EngineStuck.StuckAttempt | state-sync-engine/internal/replication/publisher.go:55-89 | a call of Publish on a batch that cannot be applied fails, and whatever part it commits the batch still cannot be applied |
| EngineStuck.StuckForever | state-sync-engine/internal/engine/engine.go:206-238 | on move-safe histories, once the unflushed events cannot be applied to the cloud the flushed position never moves again, over every continuation |
| EngineStuck.HeadRefusedForever | state-sync-engine/internal/engine/engine.go:206-238 | on every history: when the cloud refuses the first unflushed event, neither the flushed position nor the cloud ever changes again |
| EngineStuck.StuckIff | state-sync-engine/internal/engine/engine.go:180-239 | an idle engine's buffer cannot be applied iff some unflushed change is refused |
| EngineStuck.ProgressIff | state-sync-engine/internal/engine/engine.go:180-239 | on move-safe histories an idle engine with something to send can get further, in some continuation, iff its buffer can be applied to the cloud as it is now, iff no unflushed change is refused |
| Engine.Engine.constructor | state-sync-engine/internal/engine/engine.go:50-93 | starts with an empty buffer, the loaded state and a breaker of 5 failures and 5 minutes |
| Engine.Engine.Enqueue | state-sync-engine/internal/engine/engine.go:151-154 | appends one event and changes nothing else |
| Engine.Engine.TakeBatch | state-sync-engine/internal/engine/engine.go:186-189 | the batch is the whole buffer, which becomes empty |
| Engine.Engine.AskBreaker | state-sync-engine/internal/engine/engine.go:193-204 | when refused the batch is back in front of the buffer and no counter has moved; never refused when the breaker grants |
| Engine.Engine.CallPublish | state-sync-engine/internal/engine/engine.go:218-220 | one call of Publish: published, or one more failed call behind the batch; with all requests answered published iff the batch can be applied |
| Engine.Engine.PublishWithRetry | state-sync-engine/internal/engine/engine.go:206-220 | behaves as the retry loop with three attempts and delays of one and two seconds: one to three calls of Publish, the clock moved by the waits, less only if a wait is cancelled, which needs a context that can end; with all requests answered an applicable batch goes out at the first call |
| Engine.FlushWaits | state-sync-engine/internal/engine/engine.go:207-212 | a flush that fails waits one second, then two, and no more |
| Engine.Engine.RecordBatchFailure | state-sync-engine/internal/engine/engine.go:221-238 | the batch is back in front of the buffer in order and failed grows by its size |
| Engine.Highest | state-sync-engine/internal/engine/engine.go:241-251 | the batch's highest LSN and latest timestamp |
| Engine.Engine.RecordBatchSuccess | state-sync-engine/internal/engine/engine.go:239-275 | the state records the batch; at most its highest LSN is acknowledged, and the acknowledged position is not below it when the connection answers |
| Engine.Engine.SaveState | state-sync-engine/internal/engine/engine.go:292-296 | success leaves exactly the in-memory state on disk, failure the previous checkpoint; no failure when the file system answers |
| Engine.Engine.Finish | state-sync-engine/internal/engine/engine.go:239-298 | the end of a successful flush: batch recorded, LSN acknowledged, state saved |
| Engine.Engine.Send | state-sync-engine/internal/engine/engine.go:193-298 | the three outcomes of a flush for a batch already taken |
| Engine.Engine.Flush | state-sync-engine/internal/engine/engine.go:178-299 | flushed: nothing is left and all of it is counted; blocked: nothing has changed and Publish was not called; failed: the buffer is as it was, in order, it counts as failed, and Publish was called one to three times, three if the context cannot end; with a granting breaker and all requests answered, a buffer that can be applied is flushed, the cloud has its effect, the state is saved and a live connection has acknowledged its LSN |
| Engine.Engine.ShutdownWork | state-sync-engine/internal/engine/engine.go:332-362 | nil means the cloud has executed everything received, the buffer is empty and the saved state is the one in memory; the subscriber ends closed; nil is certain when the breaker grants, all requests are answered and the buffer can be applied |
| Engine.Engine.OneInput | state-sync-engine/internal/engine/engine.go:151-173 | one arm of the select: an arrival is received and flushed at once iff the buffer has reached the batch size; a tick flushes iff the buffer is not empty; after the flush the buffer is empty unless it was blocked or failed, and a failed one has called Publish three times |
| Engine.Engine.Loop | state-sync-engine/internal/engine/engine.go:129-176 | receives exactly what arrives, in order; between inputs it takes exactly the steps of `OneInput`, so flushes exactly when one is due; nil at the end means drained |
| Engine.Drained | state-sync-engine/internal/engine/engine.go:332-362 | the cloud of an idle engine with an empty buffer is where it started plus received events that begin, repeats aside, with all of them in order |
| Subscription.ExtractTuple | state-sync-engine/internal/replication/subscriber.go:398-462 | the loop gives the row of the tuple: named columns, `col_i` for blank names, NULLs, TOAST marker, absent columns skipped |
| Subscription.UnnamedColumns | state-sync-engine/internal/replication/subscriber.go:398-462 | columns without a name, or of an unknown relation, are kept apart: the i-th is `col_i`, with its value |
| Subscription.Subscriber.Acknowledge | state-sync-engine/internal/replication/subscriber.go:142-166 | the acknowledged LSN moves only forward and only when the update was sent, which a reliable connection always does |
| Subscription.Subscriber.Connect | state-sync-engine/internal/replication/subscriber.go:54-94 | a second connect is an error; a first one forgets relations and the acknowledged position, and succeeds when every request does |
| Subscription.Subscriber.Subscribe | state-sync-engine/internal/replication/subscriber.go:97-139 | the stream starts at the acknowledged position, 0 after Connect; exactly when there is a connection, a slot name and no active stream, as long as every request succeeds |
| Subscription.Subscriber.Close | state-sync-engine/internal/replication/subscriber.go:168-200 | afterwards there is neither stream nor connection |
| Subscription.Subscriber.StoreRelation | state-sync-engine/internal/replication/subscriber.go:329-372 | the relation's qualified name and column names, empty for nil or nameless columns, replace what was stored under its id |
| Subscription.Subscriber.Handle | state-sync-engine/internal/replication/subscriber.go:254-318 | one turn of the loop: a message changes the decoder as specified; commits and keepalives that ask for a reply are answered, nothing else is; an answered commit is acknowledged |
| Subscription.Subscriber.ConsumeStream | state-sync-engine/internal/replication/subscriber.go:242-320 | emits exactly the decoded events in order; the acknowledged position follows exactly the commits whose status update went out; only commits and keepalives that ask for a reply get one, and on a reliable connection all of them do |
| Subscription.AckedIsHighest | state-sync-engine/internal/replication/subscriber.go:314-316 | the acknowledged position is the highest such commit, or the one before the stream |
| Subscription.PublishableIff | state-sync-engine/internal/replication/subscriber.go:287-313 | a change message becomes an event with SQL iff its relation's name is safe, the tuple it needs carries a column, and all columns it carries have safe names |
| Subscription.EmittedInOrder | state-sync-engine/internal/replication/subscriber.go:283-317 | transactions with nondecreasing final LSNs give events with nondecreasing LSNs |
| Rebuild.DecodeEncode | state-sync-engine/internal/replication/subscriber.go:398-462 | decoding the tuple of a full row gives the row with the marker in unchanged TOAST columns |
| Rebuild.FaithfulIff | state-sync-engine/internal/replication/subscriber.go:444-451 | a row arrives as it was iff every column sent as unchanged held the marker text |
| Rebuild.DecodedHistory | state-sync-engine/internal/replication/subscriber.go:242-320 | decoding an encoded source history gives its changes in order with their transactions' LSNs and times |
| Rebuild.ReplicateIsApply | state-sync-engine/internal/replication/publisher.go:117-237 | sending events one by one as SQL text equals applying them |
| Rebuild.EndToEnd | state-sync-engine/internal/replication/subscriber.go:242-320 | messages, events, SQL text and execution in order rebuild the source's tables exactly |
| Pipeline.FlushedReplica | state-sync-engine/internal/engine/engine.go:129-239 | an engine fed by the decoder has the source's rows in the replica at the end of every successful flush, for every accepted source history and every run with move-safe batches |
| Pipeline.DrainedReplica | state-sync-engine/internal/engine/engine.go:332-362 | an idle engine object with nothing buffered has a replica equal to the source after everything received, under the conditions of `ReplicaEqualsSource` |
| Pipeline.OrderedAccounting | state-sync-engine/internal/engine/engine.go:241-275 | LSN accounting holds for every framed stream of transactions with nondecreasing LSNs |
| Subscription.UnannouncedName | state-sync-engine/internal/replication/subscriber.go:374-383 | a relation that was never announced has no usable name |
| Pipeline.UnusableMessageStops | state-sync-engine/internal/replication/subscriber.go:287-313 | any change message without SQL stops the engine: nothing at or after its event is ever flushed |
| Pipeline.UnusableExamples | state-sync-engine/internal/replication/subscriber.go:289-313 | an insert with a column `created-at` and a delete without an old tuple are such messages |
| Redelivery.DecodeTxns | state-sync-engine/internal/replication/subscriber.go:242-320 | a session that announces each relation before its first use delivers exactly the events of the transactions it sends, wherever in the log it starts |
| Redelivery.LinkAlwaysOk | state-sync-engine/internal/replication/subscriber.go:265-271 | only received events are flushed and the acknowledged position never exceeds the confirmed one, so keepalive replies confirm nothing new |
| Redelivery.ComesAgainIff | state-sync-engine/internal/replication/subscriber.go:283-317 | after a crash at any moment an event comes again iff no acknowledgement that reached the server, of a commit seen or a batch flushed, covers its transaction; being flushed plays no part |
| Redelivery.NeverAgain | state-sync-engine/internal/replication/subscriber.go:119-126 | what one crash does not bring back no later one does |
| Redelivery.DeliveriesCanRun | state-sync-engine/internal/replication/subscriber.go:314-316 | for every log the run that receives it whole, acknowledges its commits and flushes nothing can be taken |
| Redelivery.UnflushedAreLost | state-sync-engine/internal/replication/subscriber.go:314-316 | after that run and a crash no event of any transaction but the last ever comes again, nor of the last unless the server sends it again |
| LeaseLock.GuardLasts | state-sync-engine/internal/lock/gcslock.go:77-113 | until its bound a lease's node stays the stored holder with an expiry not before the bound |
| LeaseLock.LeaseGuarantee | state-sync-engine/internal/lock/gcslock.go:52-143 | after Acquire or Renew at t no other node's Acquire succeeds before t+ttl cut to the second, later than t+ttl−1s, unless released |
| LeaseLock.LeaseCanEndEarly | state-sync-engine/internal/lock/gcslock.go:164-169 | the cut is real: a lease of one second ends after one nanosecond |
| LeaseLock.LeaseEndsAtBound | state-sync-engine/internal/lock/gcslock.go:77-88 | a lease is free to others exactly from its bound on, which is the whole lease iff it ends on a whole second |
| LeaseLock.GCSLock.TryCreate | state-sync-engine/internal/lock/gcslock.go:161-195 | writes this node's lease only where there was no object; true only if it did |
| LeaseLock.GCSLock.ReadMeta | state-sync-engine/internal/lock/gcslock.go:197-216 | returns the stored metadata, or an error that tells absence from failure |
| LeaseLock.GCSLock.Acquire | state-sync-engine/internal/lock/gcslock.go:52-89 | a permitted step under any request failures; when all are answered it is granted iff the lock is absent or its expiry has come, and then stored with this node, its acquisition time and expiry; an unreadable lock is an error and otherwise nothing changes |
| LeaseLock.GCSLock.Renew | state-sync-engine/internal/lock/gcslock.go:91-118 | only the holder's lease changes, to a new expiry with the old acquisition time; when all requests are answered it succeeds iff this node holds the lock, an absent lock, another holder and an unreadable lock are told apart, and an error changes nothing |
| LeaseLock.GCSLock.Release | state-sync-engine/internal/lock/gcslock.go:120-143 | nil means no lock is left and it was this node's if there was one; no other node's lock is ever removed; when all requests are answered nil iff the lock is absent or this node's |
| LeaseLock.GCSLock.GetHolder | state-sync-engine/internal/lock/gcslock.go:145-159 | the stored holder; an absent lock is an error, told apart from an unreadable one |
| LockInterleaving.HolderInvariant | state-sync-engine/internal/lock/gcslock.go:55-143 | in every interleaving without a seen expiry the nodes inside are exactly the stored holder, who alone is about to overwrite or delete |
| LockInterleaving.BetweenIsInside | state-sync-engine/internal/lock/gcslock.go:161-195 | a node is inside iff a create of its own took effect with no delete of its own after it |
| LockInterleaving.MutualExclusion | state-sync-engine/internal/lock/gcslock.go:55-143 | at most one node lies between its create and its delete, and it is the stored holder |
| LockInterleaving.ExpiryBreaksExclusion | state-sync-engine/internal/lock/gcslock.go:83-88 | when two nodes see the same lease expired both can be granted the lock |
| Failover.Manager.constructor | state-sync-engine/internal/failover/failover.go:32-52 | starts local-active with nothing counted |
| Failover.Manager.Check | state-sync-engine/internal/failover/failover.go:78-100 | one cycle for every answer of lock, coordinator and cloud, with the calls that these record, in order |
| Failover.Manager.HandleCloudActive | state-sync-engine/internal/failover/failover.go:102-133 | a local-active manager fails over once and the local database is asked for read-only mode; a cloud-active one does nothing |
| Failover.Manager.HandleLocalActive | state-sync-engine/internal/failover/failover.go:135-156 | a cloud-active manager recovers once; a local-active one does nothing |
| Failover.Manager.RecoverLocal | state-sync-engine/internal/failover/failover.go:158-191 | health check, then read-write mode, then release only if that was done |
| Failover.Manager.DetectSplitBrain | state-sync-engine/internal/failover/failover.go:193-229 | counts and resolves split brain exactly when another holder is seen while local takes writes |
| Failover.SelfStabilises | state-sync-engine/internal/failover/failover.go:79-229 | from any state one readable cycle with another holder ends cloud-active and read-only, and stays so until its own id or an empty holder is seen |
| Failover.LastFailover | state-sync-engine/internal/failover/failover.go:103-111 | over every run the failover time is that of the last cycle which turned the local-active manager to the cloud |
| Failover.FailoverIff | state-sync-engine/internal/failover/failover.go:84-133 | a cycle fails over iff local was active and another holder is seen; only then do time and count change, and its first call asks for read-only mode |
| Failover.FailoverModeIff | state-sync-engine/internal/failover/failover.go:102-229 | a cycle that sees another holder ends read-only iff local was so before, or SetReadOnly had an effect, reported or not, at the failover or after split brain was seen |
| Failover.ModeStays | state-sync-engine/internal/failover/failover.go:78-229 | a cycle that neither sees another holder nor recovers leaves the mode alone |
| Failover.SplitBrainIff | state-sync-engine/internal/failover/failover.go:193-229 | split brain is counted iff another holder is seen, local can be read and takes writes, and no demotion of the same cycle had an effect |
| Failover.LooksIff | state-sync-engine/internal/failover/failover.go:194-228 | local is looked at iff a holder is seen; a counted split brain ends the cycle with that look and a call for read-only mode |
| Failover.Alternate | state-sync-engine/internal/failover/failover.go:102-191 | over every run failovers minus recoveries is 1 when cloud-active and 0 otherwise |
| Failover.RecoveryIff | state-sync-engine/internal/failover/failover.go:90-191 | a cycle recovers iff the cloud was active and its own id or an empty holder is seen; read-write mode is asked for iff it recovers, release iff that was done |
| Failover.RecoveryModeIff | state-sync-engine/internal/failover/failover.go:158-191 | after a recovering cycle, split-brain check included, local takes writes iff it did before or SetReadWrite had an effect, reported or not |
| Failover.RecoveryOrder | state-sync-engine/internal/failover/failover.go:158-191 | over every run read-write mode is asked for right after a health check, and the release right after read-write mode was done; lockHeld is never set |
| Failover.WritesComeFromRecovery | state-sync-engine/internal/failover/failover.go:158-191 | over every run each SetReadWrite and Release belongs to a cloud-to-local transition that saw its own id or an empty holder |
| Failover.NoRecoveryWithoutLock | state-sync-engine/internal/failover/failover.go:80-96 | while the lock is absent, unreadable or another node's, the manager never recovers |
| Failover.LostRecovery | state-sync-engine/internal/failover/failover.go:138-176 | a SetReadWrite without effect is never repeated: local stays read-only until another holder is seen |

## Left out

- PostgreSQL itself beyond tables with columns, a primary key and NULLs: types and conversions, column
  defaults, foreign keys, triggers, other constraints, `search_path`. Text values compare as text.
- Key checks inside a multi-row statement: a statement is judged by the table it leaves, where PostgreSQL checks
  row by row. With full old rows on keyed tables a statement touches one row and the two agree.
- Unicode and bytes: strings are sequences of characters and key order is by character.
- pgx, pgconn, GCS and HTTP: every request is atomic and may fail before or after it took effect. A request
  that arrives after its caller has given up is not modelled.
- Reflection over pglogrepl structs: messages are data with the fields the code reads.
- Creating the slot and the publication, and connection strings: `Connect` and `Subscribe` succeed or fail.
- The stream's cancellation: an event dropped by `emitEvent` after the context ended is not received.
- Integer widths: 64-bit LSNs, counters and nanoseconds, 32-bit relation ids are unbounded here.
- Delay: floating point is left out; the multiplier is 2 and arithmetic is exact.
- JSON text: a stored snapshot or lock is a whole value or unreadable. RFC 3339 text is its whole second, for
  years that the format can write.
- Signals, the 30-second shutdown limit and goroutine scheduling. The state machine lets events arrive at any
  moment of a flush; the class runs one operation at a time.
- ReplicaEqualsSource: assumes keyed tables, full old rows and move-safe batches. Move-safety is sufficient and
  strictly weaker than keeping keys; some batches that are not move-safe survive a replay all the same.
- ProgressIff: assumes keyed tables, full old rows and, from the flushed position on, a move-safe history, as do
  StuckForever and StuckIff. Other histories have HeadRefusedForever.
- RefusedIff: assumes updates that keep their keys, or a move-safe batch with every key within its history.
- ComesAgainIff: the slot is modelled by its confirmed position, which no acknowledgement lowers, even one of a batch
  flushed after a later commit was acknowledged; whether a transaction that committed right at that position is
  sent again is a parameter, since the server decides both. A session announces a relation before its first
  change and when its definition has changed. Other clients of the slot are left out.
- CrashSafe: a written file is durable before it is renamed; `Save` does not sync it, and a machine that loses power
  may keep the rename and lose the data.
- MutualExclusion: without exclusion through expiry, which the code does not give; node ids are distinct and a node
  runs one operation at a time.
- `SetReadOnly` and `SetReadWrite` internals: each call succeeds with the verified mode, or fails with or without
  effect.
- Configuration, logging, metrics registration, the status server, Terraform and scripts. The failover and
  split-brain counters are kept.
