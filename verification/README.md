# Deterministic batch schedulers of a sharded metadata store

A file-system metadata store is split over shards by key. A sequencer turns submitted
operations into batches, and every shard executes every batch under one of three
deterministic schedulers. Each scheduler runs concurrently on all shards, and each promises
the outcome of one fixed serial order. This project models the three schedulers as transition
systems in which any shard or worker whose guard holds may move and messages are an unordered
bag, and proves the promise for every interleaving.

- **Calvin locking** fills one first-in-first-out queue for each key in batch order. The
  promise is the plain fold of the operations.
- **SCC**, the semantic scheduler, speculates on a partial prefix of a write-once commit
  sequence, guided by a hand-written commutativity table; what fails is run again at the end
  under locking. The promise is "successes in batch order, then failures in batch order".
- **Aria**, the optimistic scheduler, executes everything on the store of the batch start,
  finds the losers after a barrier and runs them again under locking. The promise has the same
  form.

`dafny verify dfyconfig.toml` checks the whole project.

## Layout

| file | contents |
|---|---|
| `Model.dfy`, `Executor.dfy`, `Router.dfy` | values, operation semantics, ownership |
| `Namespace.dfy`, `Delta.dfy`, `SemanticTable.dfy`, `Plan.dfy` | the tree invariant, mergeable deltas, the commutativity table and its soundness, the batch plan |
| `LockTable.dfy`, `Locking.dfy`, `LockingRuns.dfy`, `Calvin.dfy`, `Worker.dfy` | the lock table, the locking engine, its runs, file-system batches on it, a worker's receive loops |
| `DagRuntime.dfy`, `CommitSequence.dfy` | readiness signals, write-once slots, materialized reads, installation |
| `SccProtocol.dfy`, `SccSystem.dfy`, `SccRuns.dfy`, `SccSight.dfy`, `SccSerial.dfy`, `SccBatch.dfy` | what SCC shards must agree on, the steps and their invariant, every run, when runs meet an error, serializability of the speculation, a whole batch with its fallback |
| `AriaState.dfy`, `AriaProtocol.dfy`, `AriaRuns.dfy`, `AriaBatch.dfy` | one shard's tables, the steps and their invariant, barriers and progress, a whole batch with its fallback |
| `Fallback.dfy`, `Sessions.dfy`, `Checker.dfy`, `Acceptance.dfy` | the hand-over to the fallback, sequences of batches, the serial references and the report checks, the end-to-end check of a session |
| `Sequencer.dfy`, `Paths.dfy`, `ConditionCheck.dfy` | batching and validation, path strings and their order, the condition check |
| `Anomalies.dfy`, `LateSender.dfy` | two promises that hold only under a condition, with runs that break each |
| `Sums.dfy` | finite sums for the termination measures |

## Conditions the code needs

- **No rename of an empty directory to a path directly below itself.** `exec_rename`
  (`src/executor.rs:248-302`) accepts it, although the design text (`SCC_DESIGN.md:626`) and
  `check_rename_success` (`src/scc.rs:895-918`) rule it out; that check is in a phase no batch
  ever enters. `Namespace.StepKeepsNamespace` shows that such a rename, when it takes effect,
  is exactly what breaks the child counts. `Anomalies.SelfNestingBreaksSpeculation` takes a
  four-operation batch on a well-formed store and shows that every SCC run of it ends, without
  an error or a failure, with another count than the serial order;
  `Anomalies.SelfNestingBreaksLaterBatch` shows the same for a later batch that moves nothing.
  The SCC theorems exclude these renames; the Calvin and Aria theorems do not need to.
- **No transaction that spans shards sees a lost one.** In the source a worker that has seen a
  failure settles without waiting for the others and drops its mailbox, and a participant that
  sends later gets an error. `SccSight.NoSight` is the condition under which this cannot
  happen: no transaction with participants on two shards has, on one of them, a lost
  transaction in the prefix it reads. It speaks of the batch, the layout and the starting store
  alone, and it holds in particular on one shard and when nothing is lost
  (`SccSight.PlainlySafe`). `SccBatch.CompletesIff` shows that a batch completes in every run if
  and only if it holds: otherwise the first transaction that breaks it can be driven into the
  error (`SccSight.FirstOffender`). `LateSender.LateSenderErrs` spells out one such run of a
  two-operation batch. If mailboxes went on accepting messages (`absorbing`, which the source
  does not do) every run would complete. SCC safety needs none of this.

Where the namespace matters the theorems also ask for room: the entries of the store and the
operations of the batch together stay below 2^64, so that a child count cannot wrap.

## Model

| member | source | states |
|---|---|---|
| `Executor.ExecuteFootprint` | src/executor.rs:70-302 | an operation writes only keys of its derived write set, writes nothing unless its result is Ok, and reads all it writes |
| `Executor.SerialAppend` | src/checker.rs:10-18 | running one sequence and then another is running their concatenation |
| `Executor.SelectStep` | src/checker.rs:33-39 | one more transaction extends the serial run of a chosen sub-sequence exactly if it is chosen |
| `Model.FilterWritesVal` | src/executor.rs:88-97 | the writes a shard keeps leave its own keys as the whole write list does, repeated keys included |
| `Namespace.StepKeepsNamespace` | src/executor.rs:99-302 | a step keeps every entry under a present directory and every directory's count equal to its present children, if and only if it does not move an existing empty directory directly below itself |
| `Namespace.SelfNestingBreaks` | src/executor.rs:253-300 | every successful rename of a directory directly below itself leaves a directory its parent does not count |
| `Namespace.SerialKeepsNamespace` | src/executor.rs:99-302 | every sequence of operations without such a rename keeps the namespace, from any well-formed store |
| `Namespace.DecrementNeverSaturates` | src/executor.rs:195-210 | in a well-formed store an entry that is unlinked, removed or moved away is counted by its parent and has no children, so the saturating subtraction never saturates and nothing is orphaned |
| `Namespace.ResultMeaning` | src/executor.rs:99-302 | in a well-formed store every operation answers exactly what the tree says: presence, kinds and children, not counters, decide among the six results |
| `Namespace.AddEffect` | src/executor.rs:99-170 | a successful create or mkdir below the root adds one entry, an empty file or an empty directory, under a present directory, whose count goes up by one and wraps at 2^64 |
| `Namespace.DropEffect` | src/executor.rs:179-246 | a successful unlink or rmdir removes one present entry of the right kind, childless by its count, and takes one off its parent's count, stopping at zero |
| `Namespace.RenameEffect` | src/executor.rs:248-302 | exactly when a rename succeeds and the store it leaves |
| `Namespace.UndoAdd` | src/executor.rs:99-246 | after a successful create, unlink succeeds and restores the store, rmdir answers that it is no directory and nothing can be created below it; after a successful mkdir it is rmdir that restores the store, and unlink that is refused |
| `Namespace.ParentsFirst` | src/executor.rs:120-290 | on any store, well formed or not, a missing parent is reported before anything else and a parent that is a file comes next |
| `Namespace.EveryReadMatters` | src/executor.rs:11-51 | no key is read in vain: for every key of the derived read set of an operation that can do anything there are two stores differing there alone on which it answers differently |
| `Namespace.HopelessIsInvalid` | src/executor.rs:11-51 | the remaining operations are invalid on every store and lock only the paths they name |
| `Router.ParticipantsForSets` | src/router.rs:29-54 | a shard takes part exactly if it owns a read or written key and is active exactly if it owns a written one; if nothing is written the owner of the first read key in string order is active |
| `Router.MergeRestores` | src/checker.rs:127-150 | shard stores that each hold their own part of a store merge back into it |
| `Calvin.ParticipantsOf` | src/router.rs:56-58 | a shard takes part in an operation exactly if it owns a key of it, and is active exactly if it owns a written key, or the only key of a stat |
| `LockTables.EnqueueAllQueue` | src/lock.rs:28-43 | filling the queues in batch order leaves each queue increasing and holding exactly the transactions that lock its key |
| `LockTables.LockTable.Enqueue` | src/lock.rs:28-43 | every key's queue gets the transaction at its end, and no grant is sent |
| `LockTables.LockTable.GrantInitialHeads` | src/lock.rs:45-52 | afterwards each key has been granted to its queue head and to nobody else |
| `LockTables.LockTable.ReleaseAndGrantNext` | src/lock.rs:54-78 | succeeds exactly if the transaction heads all its queues; queues lose their heads; grants stay the arrivals in order up to the current head |
| `LockTables.PopConsistent` | src/lock.rs:72-75 | after a pop the queue is the arrivals not yet released and the grants are the arrivals through the new head, for every key |
| `LockTables.RunBatch` | src/lock.rs:28-78 | over a filled table, the initial grants and any order of releases: the releases are carried out exactly as long as each next transaction has reached the front of every one of its keys, so a legal order is carried out in full; each key is granted to its lockers one by one in batch order, each only after all earlier ones released it, and nobody gets more grants than it has keys |
| `LockTables.GrantsFitChannel` | src/engine.rs:417-418 | grants without repetition per key never exceed the number of local keys, so the bounded channel cannot block |
| `Locking.ReleaseHeads` | src/engine.rs:455-463 | a worker that is done heads all its local queues, so its release cannot fail |
| `Locking.LocalView` | src/engine.rs:1765-1782 | what a worker reads once it holds its locks is what the serial prefix before it gives |
| `Locking.FullReads` | src/engine.rs:1881-1967 | the full reads a worker executes on are those of the serial prefix |
| `Locking.ExecuteValue` | src/engine.rs:1799-1804 | applying only owned writes moves each locked key to its value after the transaction |
| `Locking.NextInv` | src/engine.rs:360-478 | every step of every worker on every shard keeps the invariant: queues, locks, stored values, collected reads and messages all match the serial execution, and no worker meets an error |
| `Locking.RunInv` | src/engine.rs:346-492 | the invariant holds in every state of every interleaving |
| `LockingRuns.LowestHeads` | src/lock.rs:54-78 | the lowest transaction not released everywhere heads every queue it still waits in |
| `LockingRuns.HeadsCanRead` | src/engine.rs:1829-1852 | locks are all that a worker waits for before it reads: one that heads every local queue can go on |
| `LockingRuns.Progress` | src/engine.rs:455-478 | deadlock freedom: until the batch is complete some step is enabled |
| `LockingRuns.NextDrops` | src/engine.rs:1829-1967 | every step strictly decreases the remaining work |
| `LockingRuns.RunsEnd` | src/engine.rs:455-478 | no run is longer than the work of the initial state |
| `LockingRuns.CompleteIsSerial` | src/engine.rs:480-491 | a complete batch has empty queues, no message left, merged stores equal to the serial store, and the serial result on every active shard and no result elsewhere |
| `Calvin.BatchIsSerial` | src/engine.rs:346-492 | a run that can go no further is complete, merges into the serial fold of the operations, and exactly the active shards reported, each the serial result |
| `Calvin.RestartIsExact` | src/engine.rs:3252-3307 | a batch starts from exactly the stores the previous batch left on the shards |
| `Calvin.BatchesAreSerial` | src/checker.rs:10-18 | any sequence of locking batches ends in the reference store |
| `Workers.WaitForLockGrants` | src/engine.rs:1829-1852 | succeeds exactly if the first grants are the local keys, each once |
| `Workers.CollectFullReads` | src/engine.rs:1881-1967 | succeeds exactly if the first arrivals are one proper result from each other source, in any order, and then holds every owner's values for the whole read set |
| `Workers.CollectedView` | src/engine.rs:1958-1966 | values sent from one store add up to that store's reads |
| `Deltas.ApplyDeltaToState` | src/scc.rs:614-648 | the key-by-key edit fails exactly if some change does not apply and otherwise gives every key its changed value |
| `Deltas.ApplyDeltaMeans` | src/scc.rs:614-648 | a delta applies exactly if every counter it moves belongs to a present directory and stays within 64 bits; then those counters move by their amounts, put and removed keys are as put or removed, and all others stay |
| `Deltas.KeyChangeRoundTrip` | src/scc.rs:703-741 | a change computed from two values turns the first into the second; there is none exactly if a counter moves further than an i64 |
| `Deltas.DeltaRoundTrip` | src/scc.rs:570-612 | converting an Ok output fails exactly if some child count moves further than an i64; otherwise applying the delta to the store it was computed from succeeds and equals applying the writes in order |
| `SemanticTables.BuildSemanticTables` | src/scc.rs:255-338 | after the insertion loops both tables declare a pair of operations free of conflict exactly if neither is a rename or at the root and either both are stats or neither path is the other or above it |
| `SemanticTables.ConflictMeans` | src/scc.rs:542-568 | table and mask together mean exactly that condition on the two paths |
| `SemanticTables.CommutingKeys` | src/scc.rs:542-568 | two operations the table lets commute, not both stats, have disjoint keys in independent subtrees and share only the parent otherwise |
| `SemanticTables.SuccessDelta` | src/scc.rs:570-612 | in a well-formed store a success other than a rename has a delta that depends on the operation alone, and applying it is executing it |
| `SemanticTables.TableSound` | src/scc.rs:255-338 | for every non-conflicting ordered pair whose first operation succeeds, the second succeeds after it exactly if before it, both keep their deltas, and both orders of applying them equal the serial execution |
| `SemanticTables.ConflictSymmetric` | src/scc.rs:542-568 | although one mask depends on the order of the pair, the conflict verdict never does |
| `Plans.BuildSccBatchPlan` | src/scc.rs:340-379 | edges are exactly the pairs in batch order that are not independent on their paths, the bound of a transaction is the largest such predecessor or none, and its worker goes by that bound; both graphs and both bounds coincide, so the effect prefix covers the condition prefix and the skipped read would have been the same read; each predicted path is that of its operation |
| `SccSerial.WorkerPlan` | src/engine.rs:617-672 | a worker goes by the keys its operation derives, waits for exactly the earlier operations that are not independent of its own on their paths, and looks at the slots up to the last of them |
| `DagRuntimes.DagRuntime.Start` | src/scc.rs:473-484 | signals exactly the vertices without unfinished predecessors, none twice |
| `DagRuntimes.DagRuntime.FinishVertex` | src/scc.rs:486-513 | fails exactly for an unknown or finished vertex; keeps indegree equal to the number of unfinished predecessors and signalled equal to ready; underflow is unreachable |
| `DagRuntimes.FinishAll` | src/scc.rs:445-525 | finishing all vertices in any order signals every vertex exactly once |
| `DagRuntimes.PlannedWaits` | src/engine.rs:549-551 | on the graph of a plan a vertex waits exactly for its unfinished conflicting predecessors, all of which come before it in the batch |
| `CommitSequences.CommitSequence.SetTerminalOnce` | src/scc.rs:181-195 | a slot changes once, from pending to a terminal state; every other call fails and changes nothing |
| `CommitSequences.MaterializedLocalRead` | src/scc.rs:650-690 | the loop computes the scan: wait at a pending slot, fail at a failed one, skip deltas that miss the read keys, project the others |
| `CommitSequences.ScanStable` | src/scc.rs:167-179 | filling pending slots never changes a scan that did not wait, so slots read one by one are as good as a snapshot |
| `CommitSequences.ScanStopsFirst` | src/scc.rs:660-690 | the first slot that is pending or failed decides: the scan waits exactly if it is pending and fails exactly if it has failed |
| `CommitSequences.ScanRefinesReplay` | src/scc.rs:650-701 | over a terminal prefix whose deltas apply, the scan fails exactly if a slot failed and otherwise agrees on the read keys with replaying every delta |
| `CommitSequences.InstallSuccesses` | src/engine.rs:2448-2477 | an unfinished or unlisted failed slot is an error; otherwise the deltas are replayed in batch order |
| `SccProtocol.SlotsReplay` | src/engine.rs:2448-2477 | replaying one shard's finished slots gives that shard's part of the agreed store |
| `SccProtocol.ScanSpec` | src/scc.rs:650-690 | a scan that did not wait fails exactly if the shard sees a lost transaction in the prefix and otherwise reads the agreed prefix |
| `SccSystem.ScanMeans` | src/engine.rs:2046-2069 | in every reachable state a worker's materialized read is the agreed one, whatever has settled beyond it |
| `SccSystem.DecideMeans` | src/engine.rs:2096-2112 | whoever executes does so on identical full reads, having seen no failed slot on any participant |
| `SccSystem.InstallStore` | src/engine.rs:2448-2477 | installing never fails and leaves the shard with its part of the agreed store |
| `SccSystem.NextInv` | src/engine.rs:2034-2112 | every step keeps the invariant: slots hold their agreed state or are pending, and sends, messages and collected reads match the agreed prefix |
| `SccSystem.RunInv` | src/engine.rs:592-687 | the invariant holds in every state of every interleaving, with or without absorbing mailboxes |
| `SccRuns.VerdictAgreement` | src/engine.rs:2203-2236 | participants that have settled a transaction agree on success or failure, a success was reached only if no participant saw a failed slot, and non-participants hold a no-op |
| `SccRuns.SettledSlot` | src/engine.rs:2203-2214 | a settled success leaves in a participant's slot exactly the part of its delta that the shard owns, and a no-op exactly if there is none |
| `SccRuns.LowestReads` | src/engine.rs:2034-2069 | the lowest unfinished transaction never waits: its predecessors have finished and its scan is over settled slots |
| `SccRuns.ReadsWhenSettled` | src/engine.rs:2034-2069 | a worker waits for its conflicting predecessors on its shard and for the slots of the prefix it reads, and for nothing else |
| `SccRuns.InstallsAlone` | src/engine.rs:674-717 | a shard installs as soon as its own workers are finished |
| `SccRuns.Progress` | src/engine.rs:592-687 | until every shard has installed, some step is enabled as long as no worker met an error |
| `SccRuns.NextDrops` | src/engine.rs:674-687 | every step strictly decreases the remaining work |
| `SccRuns.OnlyLateSendsErr` | src/engine.rs:2544-2557 | a worker meets an error only by sending to a participant whose mailbox is already closed |
| `SccRuns.ErrorIsFinal` | src/engine.rs:674-687 | an error is final and its shard never installs |
| `SccSight.SafeRuns` | src/engine.rs:2544-2557 | if no transaction that spans shards sees a lost one, no run meets an error although mailboxes close: whoever is done has been told by all the others |
| `SccSight.FirstOffender` | src/engine.rs:2390-2398 | for the first transaction that spans shards and sees a lost one there is a run that drives everything before it to its end and then meets a closed mailbox |
| `SccSight.PlainlySafe` | src/engine.rs:2046-2069 | batches on one shard and batches that lose nothing are safe |
| `SccSight.ErrorFreeIff` | src/engine.rs:592-687 | with closing mailboxes, no run of a batch meets an error if and only if no transaction that spans shards sees a lost one |
| `SccSight.CompletesIff` | src/engine.rs:674-717 | with closing mailboxes, every run of the speculation that can go no further has installed everywhere if and only if no transaction that spans shards sees a lost one |
| `SccSight.MaximalRunIsSpecified` | src/engine.rs:688-717 | in a safe batch such a run ends in the agreed store, and the shards' failed sets add up to the lost transactions |
| `SccSerial.StepDelta` | src/engine.rs:2109-2110 | in a well-formed store every success, renames included, has a delta that applies and equals its serial step |
| `SccSerial.Climb` | src/scc.rs:650-690 | past transactions that do not conflict with it an operation keeps its result and its delta, so reading only up to the bound is enough |
| `SccSerial.LostMeans` | src/scc.rs:650-690 | exactly which transactions are lost: those that do not succeed after the earlier successes, and those that share a shard with a lost one and conflict with it or with a later one before them |
| `SccSerial.ConfigSound` | src/engine.rs:2096-2110 | no execution breaks and every speculative delta applies to the prefix before it |
| `SccSerial.SpecIsSerial` | src/checker.rs:20-42 | every agreed prefix store is the serial execution of the successes of the prefix |
| `SccSerial.SuccessIsSerial` | src/engine.rs:2203-2236 | every speculative success is Ok in that serial run |
| `SccBatch.HandsOverInstalled` | src/engine.rs:721-734 | the store a shard hands to the fallback is its part of the fallback's starting store |
| `SccBatch.OwnIsLost` | src/engine.rs:2479-2493 | a fallback that a shard builds from its own failed slots queues and runs exactly what the fallback of all lost transactions gives that shard |
| `AriaBatch.HandsOverInstalled` | src/engine.rs:880-895 | the store a shard hands to the fallback is its part of the fallback's starting store |
| `SccBatch.LocalFallback` | src/engine.rs:2440-2493 | the fallback a shard builds from its own failed slots holds exactly the lost transactions it takes part in |
| `SccBatch.BatchIsSerial` | src/engine.rs:494-754 | in every interleaving in which all shards return Ok the merged store is that of the transactions outside the union of the failed sets in batch order, then those inside it in batch order |
| `SccBatch.FallsBack` | src/engine.rs:494-754 | in every finished batch the union of the shards' failed sets holds exactly these transactions, with conflicts stated on the paths |
| `SccBatch.EntersAlone` | src/engine.rs:711-734 | a shard enters its fallback as soon as its own installation is over |
| `SccBatch.FallbackResult` | src/engine.rs:721-737 | exactly the active shards of a fallback transaction report, each the result of that serial order |
| `SccBatch.CompletesIff` | src/engine.rs:494-754 | with closing mailboxes, every run of a whole batch that can go no further is complete, fallback included, if and only if no transaction that spans shards sees a lost one |
| `SccBatch.RunsEnd` | src/engine.rs:494-754 | every run of a batch, speculation and fallback interleaved across shards, ends |
| `AriaStates.AriaBatchState.StageOutcome` | src/engine.rs:2658-2689 | an outcome is staged once, and its writers are recorded only then |
| `AriaStates.AriaBatchState.RecordLocalFailures` | src/engine.rs:2713-2737 | accepts each existing shard's failure report once |
| `AriaStates.AriaBatchState.LocalFailedIndices` | src/engine.rs:2775-2805 | the loops find exactly the transactions that write or read a key an earlier one writes |
| `AriaStates.AriaBatchState.InstallSuccesses` | src/engine.rs:1146-1175 | applies the staged writes of the committed transactions in index order and returns the results staged here for them |
| `AriaStates.FailedOnKey` | src/engine.rs:2788-2802 | on one key all writers but the first fail, and all readers after it |
| `AriaProtocol.CommittedIsSerial` | src/engine.rs:2775-2805 | a transaction outside the failed set would read and write the same after the committed ones before it |
| `AriaProtocol.OneCommittedWriter` | src/engine.rs:2788-2795 | no key is written by two committed transactions |
| `AriaProtocol.FirstCommits` | src/engine.rs:2788-2802 | the first transaction of a batch never fails |
| `AriaProtocol.SnapshotReads` | src/engine.rs:2613-2617 | while any transaction is unfinished every store is the one the batch began with |
| `AriaProtocol.BarrierPassed` | src/engine.rs:829-832 | all done reports at one shard mean every transaction of the batch is staged everywhere |
| `AriaProtocol.CompleteTables` | src/engine.rs:2658-2687 | once all transactions are staged an owner's tables hold exactly the readers and writers of the whole batch |
| `AriaProtocol.UnionIsFailedSet` | src/engine.rs:2752-2773 | the union of all reports at any one shard is the rule over the whole batch, not one shard's keys |
| `AriaProtocol.NextInv` | src/engine.rs:787-917 | every step keeps the invariant: reads are snapshot reads, tables and reports are exact, stores are untouched until installed |
| `AriaProtocol.RunInv` | src/engine.rs:756-917 | the invariant holds in every state of every interleaving |
| `AriaRuns.TablesFrozen` | src/engine.rs:829-842 | once a shard has every done report no step changes any reader, writer or staged outcome, and each local failed set is the rule on its keys |
| `AriaRuns.NoEarlyWrite` | src/engine.rs:880-882 | no store is written while a transaction still reads or stages |
| `AriaRuns.OneFailedSet` | src/engine.rs:854-858 | all shards act on the same failed set, and it is the rule over the whole batch |
| `AriaRuns.ReaderMoves` | src/engine.rs:918-990 | before the barrier no transaction waits for another |
| `AriaRuns.Progress` | src/engine.rs:809-882 | until every shard has installed, some guard is open |
| `AriaRuns.NextDrops` | src/engine.rs:809-882 | every step strictly decreases the remaining work |
| `AriaBatch.InstalledIsSerial` | src/engine.rs:1146-1175 | what is installed is the serial run of the committed transactions in batch order |
| `AriaBatch.CommittedResult` | src/engine.rs:1159-1171 | a committed transaction has on the store of the batch start the result of that serial run |
| `AriaBatch.FailedMeans` | src/engine.rs:2775-2805 | exactly which transactions fail: those that read or write a key that an earlier one writes on the store of the batch start |
| `AriaBatch.ReportedResult` | src/engine.rs:959-979 | on every shard that has installed, in every run, exactly the transactions it coordinates or whose writes it owns are staged, with exactly the owned writes, with a result only where it coordinates, and for a committed one that is the result of the serial run |
| `AriaBatch.ReportedAnswers` | src/engine.rs:1146-1175 | so an installing shard answers, once each and in batch order, exactly the committed transactions it coordinates |
| `AriaBatch.FallbackExecutors` | src/engine.rs:1278-1282 | the executors of a failed transaction are the owners of its written keys and the shard that coordinates it |
| `AriaBatch.EntersAlone` | src/engine.rs:880-895 | a shard enters its fallback as soon as its own installation is over |
| `AriaBatch.BatchIsSerial` | src/engine.rs:756-917 | a complete batch agreed on one failed set and merged into the committed transactions in batch order, then the failed ones in batch order |
| `AriaBatch.FallbackResult` | src/engine.rs:1177-1276 | exactly the executors of a fallback transaction report, each the result of that serial order |
| `AriaBatch.MaximalIsComplete` | src/engine.rs:756-917 | a batch that can go no further is complete |
| `AriaBatch.RunsEnd` | src/engine.rs:756-917 | every run of a batch, both phases interleaved across shards, ends |
| `Sessions.SccSessionIsSerial` | src/checker.rs:20-42 | from the empty store any sequence of SCC batches ends in the serial run of each batch's operations, those that no shard failed first and then those that some shard failed, and keeps the namespace well formed |
| `Sessions.AriaSessionIsSerial` | src/checker.rs:20-42 | from the empty store any sequence of Aria batches ends in the reordered serial store |
| `Sessions.ReferenceIsReordered` | src/checker.rs:20-42 | with records made from the failed sets, the checker's reordered reference is that serial store |
| `Sessions.ReferenceIsFold` | src/checker.rs:10-18 | the checker's plain reference is the fold that a sequence of locking batches computes |
| `Checker.TxFoldIsSerial` | src/checker.rs:250-265 | on transactions that carry their derived sets the reference's steps are the serial execution of the operations |
| `Checker.ReferenceExecuteBatches` | src/checker.rs:10-18 | the loops compute the fold of all transactions of all batches |
| `Checker.ReferenceExecuteReordered` | src/checker.rs:20-42 | fails exactly if some batch has no valid record and otherwise runs each batch in its recorded order |
| `Checker.ValidateReorderRecord` | src/checker.rs:213-248 | accepts exactly the records that list every index of the batch once |
| `Checker.RecordForIsReordered` | src/engine.rs:2410-2438 | the record built from a failed set is valid and lists successes in batch order, then failures in batch order |
| `Checker.AssertReordersConsistent` | src/checker.rs:44-125 | accepts exactly if every shard reports every batch once with a valid record, and then fails in each batch the union of what the shards failed |
| `Checker.MergeShardStates` | src/checker.rs:127-150 | fails exactly for a misplaced or repeated key and otherwise holds every dumped entry |
| `Checker.DumpsMerge` | src/checker.rs:127-150 | dumps of shards that hold their own keys merge into the union of their stores |
| `Acceptance.CheckSession` | tests/madsim_cluster.rs:522-533 | reconciling the reports, running the reference in that order, merging the dumps and comparing succeeds exactly if every shard reported every batch once and validly and the dumps merge into the reordered serial store |
| `Acceptance.SccSessionAccepted` | tests/madsim_cluster.rs:522-533 | every finished SCC session passes that check, each shard handing in records of its own failed slots and a dump of its own store |
| `Acceptance.AriaSessionAccepted` | src/engine.rs:868-895 | every finished Aria session passes that check, each shard recording the agreed failed sets |
| `Sequencer.ValidateBatchOrder` | src/engine.rs:993-1010 | accepts exactly batches numbered from zero without repeated ids |
| `Sequencer.ValidateBatch` | src/engine.rs:506-520 | accepts exactly the batches that are numbered from zero, repeat no id and carry in every transaction the sets its operation derives |
| `Sequencer.FallbackAdmissible` | src/engine.rs:2479-2493 | a renumbered fallback batch passes validation and holds the failed operations in batch order |
| `Sequencer.SequencerActor.SubmitTx` | src/engine.rs:3095-3123 | the operation joins the open batch, or a new one, under the next id; the batch is dispatched after all earlier ones exactly if that fills it; the books stay balanced |
| `Sequencer.SequencerActor.SubmitBatch` | src/engine.rs:3125-3172 | refuses an oversized submission without any effect; otherwise seals the open batch first and then dispatches exactly the submitted operations as one last batch under consecutive ids |
| `Sequencer.SequencerActor.FlushOpen` | src/engine.rs:3081-3089 | a live timer seals the open batch, a stale one does nothing |
| `Sequencer.RunSequencer` | src/engine.rs:3071-3232 | for every sequence of commands each accepted operation appears exactly once, in id order, across the dispatched batches and the open one; batch ids increase, sizes stay within the limit, and every batch passes validation |
| `Paths.ValidatedIsRendered` | src/model.rs:64-80 | validation accepts exactly the renderings of chains of valid segments |
| `Paths.SegmentsRefused` | src/model.rs:64-80 | an empty segment, a dot or two dots are refused wherever they stand behind the first slash, a trailing slash included |
| `Paths.StringOrder` | src/model.rs:10-11 | keys are ordered lexicographically |
| `Paths.RoundTrip` | src/model.rs:14-26 | parsing undoes rendering, so different chains are different strings |
| `Paths.ParentDropsLast` | src/model.rs:28-41 | the parent found by searching the last slash drops exactly the last segment, and fails exactly at the root |
| `Paths.AncestorOnStrings` | src/scc.rs:812-821 | the string prefix test is the strict segment-prefix test |
| `Paths.MaskOnStrings` | src/scc.rs:542-568 | on validated paths the conflict mask computed from strings never fails and is the structural one |
| `ConditionCheck.CheckMatchesExecution` | src/scc.rs:831-918 | on full reads the condition check is exactly success of the execution, except that it accepts creating a missing root and refuses every rename below its own source |
| `Anomalies.SelfNestingBreaksSpeculation` | src/executor.rs:253-300 | every SCC run of one four-operation batch on a well-formed store, for every layout, completes without failures and ends with another child count than the serial order |
| `Anomalies.SelfNestingBreaksLaterBatch` | src/executor.rs:195-246 | from the store that a self-nesting rename and a removal leave, every SCC run of a later create and rmdir completes without failures and ends with another child count than the serial order |
| `LateSender.LateSenderErrs` | src/engine.rs:2390-2398 | a two-operation batch on an empty store whose second transaction spans both shards and sees the lost first reaches a state in which a worker has met a closed mailbox |

## Left out

- SccBatch.BatchIsSerial: not stated for batches with a rename of a directory directly below itself, nor for starting stores in which some count is wrong; `Anomalies.SelfNestingBreaksSpeculation` and `Anomalies.SelfNestingBreaksLaterBatch` show that it fails there.
- SccRuns.Progress: not stated for states in which a worker has met an error, because then its shard's batch returns an error; `SccSight.ErrorFreeIff` says exactly which batches have such states.
- SccBatch.CompletesIff: also covers mailboxes that go on accepting messages (`absorbing`), which the source does not have; with `absorbing` false it is the statement about the source.
- AriaRuns.Progress: speaks of guards, not of thread wake-ups; a missed notification in `src/engine.rs:2741-2749` is not excluded.
- Machine integers: child counts are u64 with the wrap of an optimised build on increment, and delta amounts are i64; transaction and batch ids are unbounded.
- A delta is a map from keys to changes; the source's list holds at most one change for each key of a sorted set.
- Messages are delivered after any delay and in any order; a remote call's acknowledgement, connection errors and the wire format are not modelled. A Calvin worker's sends count as done when it has read, which only adds interleavings.
- Stores are maps; the database, its transactions and serialization are not modelled.
- The condition phase of SCC is not part of the protocol, because no plan enters it (`Plans.BuildSccBatchPlan`); its check is compared with execution in `ConditionCheck`.
- A shard whose batch has returned an error goes on in the model, which only adds interleavings to the safety theorems.
- Mailbox and channel capacities other than the grant channel's, and closed dispatch queues.
- The registry that answers waiting clients, `assert_tx_results_consistent`, and profile counters and timings.
- The hash that maps keys to shards is any total function.
- `src/service.rs`, `src/convert.rs`, `src/workload.rs`, the protocol definition, scripts and the benchmark harness.
