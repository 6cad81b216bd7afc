# Verified model of the kstream engine

kstream is a Kafka streams library for Go. This project models its stateful core in Dafny and proves what that core is
for. The centre is the exactly-once task engine: a task takes records off a channel, runs user processors over them,
writes sink messages and changelog records inside a lazily begun transaction, keeps store writes in a cache until the
transaction commits, and after any failure aborts and replays its commit buffer.

| file | component |
|---|---|
| `Changelog.dfy` | tables, writes, changelog replay, log compaction, crash recovery of one store |
| `AtomicRun.dfy` | the specification: run the delivered records one by one, each atomically, skip those that fail |
| `TxProducer.dfy` | the librdkafka transactional producer adaptor over an abstract broker with a script of faults |
| `StateStore.dfy` | base backend and write cache, the changelog-first dual write, restore |
| `CommitBuffer.dfy` | buffered records, offsets, commit, reset, recovery from producer errors |
| `Ledger.dfy` | the invariants of a run, on values, and what every step does to them |
| `Schedules.dfy` | what may befall a task, what it delivers, what the atomic run keeps of it, and what the task gets through |
| `Task.dfy` | the processing loop, replay, shutdown, restart of a process |
| `Runs.dfy` | whole histories of many process lives |
| `Departures.dfy`, `Histories.dfy` | where the engine breaks its promise: the exact conditions, and a history for each |
| `KeyRange.dfy`, `Indexes.dfy`, `ChangelogSyncer.dfy` | prefix ranges, secondary indexes, the sync loop that fills them |
| `TopologyGraph.dfy` | the topology builder: node ids, merges, the wiring of built graphs |
| `Order.dfy`, `Text.dfy`, `Assigner.dfy`, `Generator.dfy` | canonical task generation, assignment of tasks to consumers |
| `Partitions.dfy` | partition counts of auto created topics, the co-partitioning check |
| `TableJoin.dfy`, `JoinTask.dfy` | incremental table-table joins; such a join as the processors of a task |
| `RunGroup.dfy` | the run group's readiness and shutdown protocol, over all interleavings |

`Basics.dfy` holds the shared types. `dafny verify dfyconfig.toml` checks everything.

## How the engine is modelled

The broker is abstract, as KIP-98 and KIP-447 describe it: commit is atomic, abort discards, and initialising
transactions again fences and discards what the transactional id left. Every call to it, and every flush of a store,
takes the next entry of an arbitrary finite script: success, a retriable error, an abortable error, a fatal error, a
fatal answer to a commit that took effect, a plain client error, a store that cannot flush, or the death of the process
before or after the call took effect.

A history is any number of process lives. Each life begins with a restore from the changelog topics, as log compaction
has left them, onto the bases that the previous life left. Of each key compaction keeps the last record at least, but a
tombstone may be gone once its retention is over (`Changelog.Cleaned`); both backends say that they are not
persistent (`backend/pebble/pebble.go:99`, `backend/memory/memory.go:135`), so a restore starts at the earliest offset.
It may be cut off after any number of records of each store. Then comes any schedule of timer ticks, arrivals and a
close request, each with a fault script of its own. `Runs.LiveThrough` is the main theorem. What it grants the engine, a
caller can check beforehand:

- The ghost flag `tainted` voids it. It stays false if three things hold. No flush fails after its transaction was
  committed. Nothing goes wrong once a close was requested: no faults, and every record that arrives succeeds on the
  state it meets (`Schedules.Calm`), from the state that the request finds. `Runs.ClosesCalmly` asks this of every
  state that it can find: the views that the atomic run of the kept deliveries leaves, with the consumer behind them
  (`Schedules.Meets`). In a life without denials that is one state, which inputs and schedule determine
  (`Runs.ClosesCalmlyFrom`). And no restore goes through after the tombstone of a key that a base still holds is gone:
  the changelogs mention every key of the bases, as they do while tombstones are retained (`Runs.OneLife`).
- Every record handed to the processors has a verdict: kept, failed on records delivered before it, or denied by a
  refused produce. Denials are at most as many as the plain client errors in the scripts (the task takes such an
  error for a poison record); without them the committed records are the delivered ones that succeed where they stand.

The theorem also says what is reached, not only what is never done. A task gets through any number of errors that abort
its transaction or restart its client, as long as three calls succeed after each (`TxProducer.Mild`): at a timer tick
(`StreamTask.Task.OnTick`) and at the arrival of a record that succeeds (`StreamTask.Task.OnArrive`) it dies of them if
and only if a call that would begin a transaction meets one, which panics. It lives on after a record that fails if the
errors come after the writes of that record and two calls more. A life in which no transaction fails to begin, and in
which errors come that late with records that fail, thrives (`Runs.Thrives`). Over lives that
thrive and meet no errors at their flushes, what is committed is exactly what the atomic run keeps of the arrivals up to
the last flush of each life: the final one if it was told to close, and else the last tick (`Runs.CommittingAll`).

User processors are any function of the record and of the stores as the record finds them; they may write anything
before they fail. Encoded keys and values are byte sequences, and an empty value is a tombstone.

## What the code does not promise

These follow the code where it departs from its own aims; each is proved.

- A closing task replays nothing, so the final flush commits whatever transaction and caches hold. As long as what was
  committed before is as the atomic run commits it, the next commit keeps it so if and only if transaction and caches
  are *made good*: they hold just what the buffered records, run atomically on the bases, make
  (`Departures.CommitIsExactIff`; event by event over all closing schedules in `Departures.ClosingRun`: what is
  committed is as atomic at every event if and only if every batch is made good when it is committed). A record that
  fails keeps them
  made good if and only if it wrote nothing (`Departures.ArrivesWhileClosing`; a history in
  `Histories.ClosingCommitsHalfProcessed`).
- While a task is closing, a failed fetch of group metadata aborts the transaction, and the next flush commits offsets
  and stores without the messages. In whatever state the closing task is, that is as atomic if and only if the buffered
  records, run atomically, write nothing and nothing is cached of them; where transaction and caches were made good, if
  and only if the transaction had held nothing (`Departures.MetadataFailsWhileClosing`; histories in
  `Histories.ClosingLosesBatch` and, after a producer error that left the transaction empty,
  `Histories.ClosingLosesUnwritten`).
- A transaction is begun lazily, at the first write or with the offsets, and a begin that fails panics. So the error
  that a task mends when it answers a commit (`Histories.AbortedCommitIsMended`) ends the process when it answers a
  begin (`Histories.BeginFailureKills`). For a tick that takes a batch that wrote nothing, and an error at the second
  call of the flush (`StreamTask.Task.OnTick`).
- A store that fails to flush after the commit, or a commit that is answered with an error though it took effect, makes
  the task replay a batch that is already committed. The next commit
  keeps the records once each if and only if that replay keeps none of them
  (`Departures.StoreFailsAfterCommit`; a history in `Histories.StoreFailureCommitsTwice`).
- Changelog topics have no policy but compaction, so tombstones go. A restore then gives the committed state if and only
  if what is left mentions every key of the bases (`Departures.RestoresCleaned`; a deleted key that comes back in
  `Histories.TombstoneResurrects`). Whatever the bases are, that takes the last record of every key, tombstones
  included, and nothing less (`Changelog.ForgetsAllBasesIffCompacted`).
- A base that a restore left half way need not be the replay of any prefix of its changelog: if it had `a` records and
  was cut off after `n`, it is one, for every changelog, if and only if `n == 0` or `n + 1 >= a`
  (`Changelog.InterruptedRestoreIsPrefixIff`). It holds only keys that the changelog mentions, which is what the next
  restore needs.
- An index stays in agreement with its store if and only if the value that is set is neither nil nor encoded empty
  (`Indexes.SetKeepsAgreement`), and non-empty values keep every agreement if and only if no two keys can share an
  entry, which is for the caller's hash to see to (`Indexes.SetsKeepAgreementIffSeparates`,
  `Indexes.AmbiguousHashLosesRecord`).
- Joined topic names are hashed without a separator. Consumers are sure to agree on the numbering of tasks if and only
  if no two joined lists collide (`Assigner.AgreementIffNoCollision`), topics disjoint across sub-topologies do not
  rule a collision out (`Assigner.JoinedNamesCollide`), and each of the lists can come out of the code
  (`Generator.CanonicalCanComeOut`).
- Each join overwrites the mark that its table's source had, and the co-partitioning check keeps one source per topic,
  the last, so mismatches can pass (`Partitions.OverwrittenJoinIsSkipped`, `Partitions.ShadowedJoinIsSkipped`). For all
  counts that setup finds, passing means that all drawn joins match if and only if every join is implied by those that
  are checked: a chain of them links its sources, or one is auto created and all existing sources are linked with the
  other (`Partitions.PassingMeansMatchingIffImplied`). If a nominated topic is itself auto created, setup dereferences
  nil, and there are no counts to check.
- A tombstone keeps a joined table exact if and only if the row is still demanded, or the record is not handed to the
  mapper, or the mapper answers nil (`TableJoin.UpdateMovesOneRow`; an inner join that goes on showing a row in
  `TableJoin.TombstoneLeavesRow`).
- Functions handed to `NewRunGroup`, instead of `Add`, drive the readiness wait group negative
  (`RunGroup.ReadinessPanicsIffConstructedWithFunctions`), and `Ready` may pass before they are ready
  (`RunGroup.ReadyWaitsIffNothingConstructed`).

## Model

| member | source | states |
|---|---|---|
| Runs.LiveThrough | streams/tasks/ktask.go:323-417 | over any history of lives, whatever the broker's faults, poison records, crashes, compaction (tombstones that are gone included) and cut-off restores: committed messages and restored stores are those of the atomic run over the committed records, which come once each and in order; the committed offsets are theirs; every input record below an offset was delivered, each partition in log order; every delivered record that was not kept failed on earlier deliveries or was denied, with at most as many denials as refused produces, and without one the committed records are exactly the delivered ones that succeed where they stand; the run is untainted if no flush fails after its commit, what follows a close request is calm from every state that the request can find, and compaction has kept its tombstones; without a close request no producer of any life is misused; and over lives that thrive and flush without errors the committed records are exactly what the atomic run keeps of the arrivals up to each life's last flush |
| Runs.OneLife | streams/tasks/ktask.go:164-224 | one life, its changelogs compacted, tombstones gone or not, and its restore cut off anywhere, leaves a state that the next life can start from; it is untainted if no flush fails after its commit, what follows a close request is calm from every state that the request can find, or, in a life without denials, from the one state that inputs and schedule determine, and the changelogs mention every key of the bases, as they do while no tombstone is gone; from whatever state the lives before it left, a life that thrives commits what the atomic run keeps of the arrivals before its last flush, after which no tick without errors came, and which is the final flush of a task told to close |
| Runs.UnfailingClosesCalmly | streams/tasks/ktask.go:386-390 | a schedule whose first close request is followed by no faults, and by no arrivals but of records that fail on no state, closes calmly from whatever state the request finds |
| Runs.UnfailingIsCalm | streams/tasks/ktask.go:386-390 | a rest of the schedule without faults, whose records fail on no state, is calm from every state: nothing goes wrong in it |
| Departures.ArrivesWhileClosing | streams/tasks/ktask.go:352-390 | for every state of a closing task whose committed part is as atomic, whatever failed before, every record and all scripts: if the final flush succeeds, offsets are right, and messages and stores are those of the atomic run over the committed records if and only if the transaction with the attempt is made good; where it was made good before, if and only if the attempt succeeded or wrote nothing |
| Departures.MetadataFailsWhileClosing | streams/tasks/buffer.go:136-151 | for every such state whose metadata fetch fails and whose abort succeeds: a later flush commits the offsets without the messages, as the atomic run does if and only if the batch run on the bases writes nothing and nothing is cached; where transaction and caches were made good, if and only if the transaction had held nothing |
| Departures.ClosingRun | streams/tasks/ktask.go:323-390 | over every closing schedule in which no flush fails after its commit, whatever else goes wrong: the states that the events find follow one another from the task's first to its last, each a commit of just what transaction and caches held, a failed flush, or an arrival that keeps its record in the batch; what is committed is as atomic in all of them if and only if every batch is made good when it is committed; a death leaves the event's commit whole or undone, and takes a fault or a transaction that cannot be committed |
| Departures.EventWhileClosing | streams/tasks/ktask.go:323-390 | each event of a closing task, from any state of it: a faultless tick commits, unless an earlier error left a transaction that cannot be committed; any other tick commits all or nothing; an arrival advances the consumer and keeps the record |
| Departures.GroundedIffMadeGood | streams/tasks/buffer.go:158-168 | over every sequence of such events, what is committed is as atomic at each of them if and only if every batch that is committed was made good |
| Departures.TickWhileClosing | streams/tasks/ktask.go:343-346 | a tick of a closing task commits nothing, or whatever transaction and caches hold, which keeps what is committed as atomic if and only if they are made good |
| Departures.ArrivalWhileClosing | streams/tasks/ktask.go:352-390 | an arrival at a closing task changes nothing that is committed, and leaves the record in the batch and in the transaction what it wrote, or a transaction that no flush can commit unless it is aborted |
| Departures.StoreFailsAfterCommit | streams/tasks/buffer.go:162-168 | for every batch whose commit is followed by a store that cannot flush, or is answered with an error: the next commit keeps the records once each if and only if the replay on the partly flushed bases keeps none; without a refusal that replay is the atomic run of the batch on those bases, whose messages are committed besides |
| Departures.RestoresCleaned | streams/tasks/ktask.go:164-195 | for every recoverable state and whatever compaction left: the restored stores are the committed state, and the run untainted, if and only if the changelogs mention every key of the bases |
| Departures.CommitIsExactIff | streams/tasks/buffer.go:158-168 | over an as-atomic history, committing any batch with any transaction and caches is as atomic if and only if they are what the batch run on the bases makes |
| Departures.LossIsExactIff | streams/tasks/buffer.go:142-151 | committing a batch without its messages is as atomic if and only if run on the bases it writes nothing and nothing is cached |
| Departures.HalfProcessedIsMadeGoodIff | streams/tasks/ktask.go:386-390 | a record left in the batch with what it wrote keeps transaction and caches made good if and only if it succeeded or wrote nothing |
| Departures.RepeatedIsOnceEach | streams/tasks/buffer.go:162-166 | what a replay keeps of a batch that is already in the history can be appended in order if and only if it is nothing |
| Histories.AbortedCommitIsMended | streams/tasks/buffer.go:158-160 | a history in which an abortable error answers a commit: the task lives, and the next tick commits the batch |
| Histories.BeginFailureKills | kafka/adaptors/librd/transactional_producer.go:97-101 | a history in which the same error answers the begin that sending offsets takes: the process dies, and can be recovered |
| Histories.ClosingCommitsHalfProcessed | streams/tasks/ktask.go:386-390 | a history in which a failing record's message is committed because the buffer was closing, though run atomically it leaves none |
| Histories.ClosingLosesBatch | streams/tasks/buffer.go:142-151 | a history in which a metadata failure while closing commits an offset and loses the message that belongs to it |
| Histories.ClosingLosesUnwritten | streams/tasks/ktask.go:355-390 | a history in which a producer error ends an attempt before its first write while closing, and a metadata failure then commits the offset: the transaction had held nothing, and the record is lost |
| Histories.StoreFailureCommitsTwice | streams/tasks/buffer.go:162-168 | a history in which a store that fails to flush after the commit makes one record be committed twice |
| Histories.TombstoneResurrects | streams/state_stores/changelog_builder.go:73-74 | a history in which a deleted key comes back: a restore cut off between put and tombstone, both compacted away, and a restore after |
| StreamTask.Task.constructor | streams/tasks/ktask.go:209-224 | a first start over empty topics and stores is a recoverable state |
| StreamTask.Task.RunEffect | streams/state_stores/loggable_state_store.go:17-54 | one write: pending in the transaction and visible in the views together, or neither; base stores untouched |
| StreamTask.Task.RunEffects | streams/tasks/ktask.go:243-287 | the writes of an attempt up to the first that fails: just these are pending and cached; in step with the broker the process survives unless the script is deadly |
| StreamTask.Task.Process | streams/tasks/ktask.go:243-287 | one attempt: exactly the writes made before it ended are pending and cached; success means all of them; a record is marked ignored exactly when it failed for a reason that is not a producer error |
| StreamTask.Task.ReplayOne | streams/tasks/ktask.go:403-416 | a replayed record joins the rebuilt batch, or the failure leaves committed state untouched and flags only this record, and a poisoned one fails on the state its live predecessors leave |
| StreamTask.Task.ReplayPass | streams/tasks/ktask.go:403-416 | a pass that succeeds rebuilds the transaction and the caches from exactly the records not ignored; one that fails changes nothing committed and flags at most one more record |
| StreamTask.Task.ReplayRound | streams/tasks/ktask.go:392-417 | abort, forget, then one pass, with the same guarantees |
| StreamTask.Task.Replay | streams/tasks/ktask.go:383-417 | the replay terminates (faults left, then live records), and survives mild errors if abort and begin succeed and every record does; what it keeps is the batch without the records it drops, each of which failed on the state its kept predecessors leave or was denied, with at most as many denials as refusals met; the open transaction is what the atomic run makes of what is kept; nothing committed changes |
| StreamTask.Task.ReProcess | streams/tasks/ktask.go:383-417 | replay of the buffer as it stands, with the transaction back in step with the adaptor's flag |
| StreamTask.Task.AfterFailedFlush | streams/tasks/ktask.go:343-346 | a failed flush is followed by a replay that restores the exact state, unless the buffer is closing or the batch had been committed |
| StreamTask.Task.OnTick | streams/tasks/ktask.go:343-346 | the timer: the whole batch moves into the committed history, or history and batch are as before; the batch stays after a commit only if a store failed to flush or the commit was answered with an error, and is then what the replay on the partly flushed bases keeps; a crash leaves a recoverable state; without faults it always commits; where the transaction was begun it commits exactly as metadata, offsets and commit are answered, and dies only of a death; of mild errors an untainted task dies if and only if nothing is pending of the batch and the call that would begin its transaction fails |
| StreamTask.Task.OnArrive | streams/tasks/ktask.go:347-372 | the record at the consumer's position is taken and handled; the run stays exact or, after a crash, recoverable; of mild errors an untainted task dies on a record that succeeds if and only if its first write cannot begin a transaction, and on no record if the errors come after its writes and two calls more |
| StreamTask.Task.Handle | streams/tasks/ktask.go:352-371 | after an arrival the batch has gained the record exactly if its attempt succeeds on the state it met, unless a produce was refused; committed state is untouched; while closing the record stays with what it wrote |
| StreamTask.Task.Failing | streams/tasks/ktask.go:354-363 | a failed record is always buffered (the outer record's flag is tested) and dropped by the replay; while closing it stays, with what it wrote |
| StreamTask.Task.FailedAndReplayed | streams/tasks/ktask.go:362-363 | the replay after a failed attempt leaves the batch without the poison record, or with it if only the producer had failed |
| StreamTask.Task.AfterSuccess | streams/tasks/ktask.go:369-371 | a processed record joins the batch and the run stays exact |
| StreamTask.Task.Close | streams/tasks/ktask.go:435-456 | the last flush: committed, with all of the batch, or not; what is left is recoverable |
| StreamTask.Task.Start | streams/tasks/ktask.go:323-381 | the loop over any schedule ends recoverable; untainted if no flush fails after its commit and all is calm from the state in which the first close request found the task, which is the arrivals before it behind the consumer and the atomic run of those that were kept, of all of them if none was denied; untainted also if all is calm from where it starts, closing or not, and then what is committed is what the atomic run keeps of the arrivals before the last flush: that of a tick after which no tick without errors came, or the final one, which a closing task makes; in transaction discipline without a close request; refused produces bound the denials |
| StreamTask.Task.Step | streams/tasks/ktask.go:323-372 | one event: consumer and deliveries advance by the record that arrives, if one does; outside of closing only a flush that fails after its commit taints the run, and on calm ground nothing does, nobody dies, and calm goes on; without taint, denial and death the atomic run goes on over what arrived, and a tick commits the whole batch or leaves it, and commits it if it meets no errors; a crash is recoverable |
| StreamTask.Task.Loop | streams/tasks/ktask.go:323-372 | over any schedule without taint, denial and death the committed and buffered records are what the atomic run keeps of all arrivals, and the committed ones what it keeps of those before the last flush, after which no tick without errors came |
| StreamTask.Task.Finish | streams/tasks/ktask.go:435-456 | the final flush of a closing task commits all that the run kept, if it meets no errors |
| Schedules.CalmRefusesNothing | streams/tasks/ktask.go:323-372 | a calm schedule holds no error that the task takes for a poison record |
| Schedules.FaultlessIsCalm | streams/tasks/ktask.go:323-372 | a schedule without errors and without a close request is calm from every state, whatever records fail in it |
| Schedules.SoundMeets | streams/tasks/ktask.go:323-372 | an untainted task stands in a state that an event can find: its views are the atomic run of the kept deliveries, and of all deliveries if none was denied |
| StreamTask.Task.Restart | streams/tasks/ktask.go:164-224 | a new process over whatever compaction has left: restored stores, fenced transaction, consumer at the committed offsets, nothing buffered; exact again, or tainted, exactly if the tombstone of a key of a base is gone; cut off anywhere in the restore, it is recoverable again |
| StreamTask.Task.RestoreStores | streams/tasks/ktask.go:170-195 | every store becomes the replay of as much of its changelog as the restore got to, over what its base held |
| StreamTask.DroppedFromReplay | streams/tasks/ktask.go:403-406 | marking one live record ignored drops it alone from the next replay, as a failure on the state its live predecessors leave or as a denial |
| Ledger.AtomicConcat | streams/tasks/ktask.go:403-416 | running a batch after a history is running it on the state the history left: kept records and messages concatenate |
| Ledger.Rebatch | streams/tasks/ktask.go:383-417 | a transaction rebuilt from the bases keeps messages, stores and offsets faithful to the atomic run |
| Ledger.DropsExplained | streams/tasks/ktask.go:392-416 | after a replay every delivery still has a verdict: each dropped record failed on deliveries before it, against the whole history, or is one more denial |
| Ledger.DropsLeaveNoTrace | streams/tasks/ktask.go:262-281 | dropping records that fail where they stand, one after another, does not change the atomic run of the batch |
| Ledger.FaithfulBooksAreDetermined | streams/tasks/ktask.go:403-416 | a replay that keeps the same records reproduces the same messages, offsets, caches and base stores |
| Ledger.CommitKeepsFaith | streams/tasks/buffer.go:158-172 | a commit moves the batch into the history, with caches becoming bases and offsets merging, faithfully |
| Ledger.CrashInCommitIsDurable | streams/tasks/buffer.go:158-168 | a crash after the commit took effect, wherever the store flushes got to, leaves every base the replay of a prefix of its changelog, holding only keys the changelog mentions |
| Ledger.RestoreIsFaithful | streams/state_stores/changelog_syncer.go:105-151 | restoring bases that hold only mentioned keys from the earliest offset gives exactly the committed state if and only if what compaction left mentions every key of the bases |
| Ledger.InterruptedRestoreIsDurable | streams/state_stores/changelog_syncer.go:105-151 | a restore cut off after any number of records of each store can be restored from again |
| Ledger.CommitSettles | streams/tasks/buffer.go:93-156 | committed offsets lie above exactly the committed records, and no input record below them was passed over or out of order |
| Ledger.ArrivalIsAccounted | streams/tasks/ktask.go:347-371 | an arrival keeps the kept records in order, delivered, and below the consumer's position |
| Ledger.ResumeIsAccounted | streams/tasks/buffer.go:153-156 | a consumer resumed at the committed offsets misses and repeats nothing that was kept |
| Ledger.SoundAfterReplay | streams/tasks/ktask.go:383-417 | a replay keeps the run's whole invariant, verdicts included, and keeps the very same batch if no produce was refused |
| Ledger.SoundAfterArrival | streams/tasks/ktask.go:352-371 | an arrival, with its batch extended or replayed, keeps the invariant |
| Ledger.SoundAfterCommit | streams/tasks/buffer.go:158-172 | a commit keeps the invariant |
| Ledger.SafeAfterCommit | streams/tasks/buffer.go:158-168 | a crash inside an applied commit leaves what a restart needs |
| Ledger.SoundAfterRestart | streams/tasks/ktask.go:164-224 | a restart that remembers every key of the bases re-establishes the invariant from what survived |
| Ledger.SafeAfterInterruptedRestore | streams/tasks/ktask.go:170-195 | a crash inside a restore leaves what a restart needs |
| CommitBuffer.Buffer.Init | streams/tasks/buffer.go:85-91 | transactions are initialised, what was pending is discarded, nothing committed changes; mild errors are survived |
| CommitBuffer.Buffer.Add | streams/tasks/buffer.go:93-107 | the record is appended and the offset map stays one past the last buffered record per partition |
| CommitBuffer.Buffer.Flush | streams/tasks/buffer.go:113-133 | an empty buffer is untouched; otherwise success commits messages, offsets and caches together, failure or crash leaves all of the transaction or none of it and each base before or after; a store failure and an error answered to an applied commit are the only failures after a commit; where the transaction was begun success follows the answers of metadata, offsets and commit, and only a death ends the process; a failed metadata fetch loses the open transaction but not buffer and caches |
| CommitBuffer.Buffer.Commit | streams/tasks/buffer.go:135-179 | the same for the ordered steps: metadata, offsets, commit, store flushes |
| CommitBuffer.Buffer.CommitTransaction | streams/tasks/buffer.go:136-160 | offsets and messages reach the broker in one transaction or not at all, and not at all on an error, unless the error answers a commit that took effect; where the transaction was begun it commits if and only if its calls are answered so, and only a death ends the process; a failed metadata fetch leaves the transaction aborted |
| CommitBuffer.Buffer.SendOffsets | streams/tasks/buffer.go:136-156 | the batch's offsets join the open transaction, or nothing is committed and what was pending still is or is discarded; a failed metadata fetch aborts |
| CommitBuffer.Buffer.FlushAndEmpty | streams/tasks/buffer.go:162-172 | after the transaction committed: every base becomes its view and the buffer is emptied, or the batch stays and each base is before or after |
| CommitBuffer.Buffer.FlushStores | streams/tasks/buffer.go:162-168 | views are kept and become the bases, and the caches are empty; it ends as the first store that cannot flush, or a death, has it; interrupted, each store is as before or as after |
| CommitBuffer.Buffer.ResetCaches | streams/tasks/buffer.go:188-192 | every view falls back to its base |
| CommitBuffer.Buffer.Reset | streams/tasks/buffer.go:181-204 | nothing is pending, cached or buffered, nothing committed changed, and a transaction may be begun; mild errors are survived |
| CommitBuffer.Buffer.HandleTxError | streams/tasks/buffer.go:206-236 | ends with transactions freshly initialised, or a crash; which of the two, and what is left of the script, is a function of error and script (`TxProducer.Recovers`): a plain error crashes, a restart that fails crashes, mild errors do not if three calls succeed first; a closing buffer does nothing |
| TxProducer.MildIff | streams/tasks/buffer.go:206-236 | the mild scripts are exactly those in which each error demands an abort or a restart and the next three calls succeed |
| TxProducer.MildAnswers | kafka/adaptors/librd/transactional_producer.go:164-194 | a call that meets mild errors succeeds at once or fails recoverably, and after a failure three calls succeed |
| TxProducer.Producer.InitTransactions | kafka/adaptors/librd/transactional_producer.go:40-54 | retries until the script answers; success fences and discards the old transaction |
| TxProducer.Producer.BeginTransaction | kafka/adaptors/librd/transactional_producer.go:56-66 | begins only with none open and transactions initialised; anything else is a state error, recorded as misuse |
| TxProducer.Producer.EnsureBegun | kafka/adaptors/librd/transactional_producer.go:97-101 | a write or offset commit goes on exactly if a transaction is open already or beginning one succeeds; a failing begin panics |
| TxProducer.Producer.ProduceAsync | kafka/adaptors/librd/transactional_producer.go:136-162 | the message is pending in an open transaction, or nothing changed; a retriable error has no retry to call and is a crash; in step with the broker it is never misused |
| TxProducer.Producer.SendOffsetsToTransaction | kafka/adaptors/librd/transactional_producer.go:86-112 | offsets are pending in the open transaction, or nothing changed |
| TxProducer.Producer.CommitTransaction | kafka/adaptors/librd/transactional_producer.go:68-84 | all pending messages and offsets become committed, or none, whatever is answered: an error may answer a commit that took effect, and a process may die after one; the begun flag is reset either way |
| TxProducer.Producer.AbortTransaction | kafka/adaptors/librd/transactional_producer.go:114-130 | an open transaction is discarded, a missing one counts as aborted |
| TxProducer.Producer.Restart | kafka/adaptors/librd/producer.go:265-281 | a new client without initialised transactions; the broker's state stays |
| StateStore.PatchWrite | streams/stores/cache.go:35-52 | a cached write changes the combined view as a direct write would |
| StateStore.PatchDelete | streams/stores/cache.go:54-61 | a cached delete hides a base entry |
| StateStore.Store.Get | streams/stores/cache.go:63-84 | reads the cache over the base; an empty value is absent |
| StateStore.Store.Set | streams/stores/cache.go:35-52 | the view is updated, the base is not touched |
| StateStore.Store.Delete | streams/stores/cache.go:54-61 | the view loses the key, the base is not touched |
| StateStore.Store.SetLogged | streams/state_stores/loggable_state_store.go:17-37 | the changelog record is pending and the view updated, or neither |
| StateStore.Store.DeleteLogged | streams/state_stores/loggable_state_store.go:39-54 | the tombstone is pending and the key gone from the view, or neither |
| StateStore.Store.Flush | streams/state_stores/state_store.go:38-40 | the base becomes the view, which does not change |
| StateStore.Store.ResetCache | streams/state_stores/state_store.go:42-44 | the view becomes the base |
| StateStore.Store.Restore | streams/state_stores/changelog_syncer.go:223-237 | the base becomes the replay of the changelog over it |
| Changelog.ReplayIsLastWrite | streams/state_stores/changelog_syncer.go:223-237 | after a replay each key holds its last logged value, tombstones included, or what it held before |
| Changelog.RecoveryRebuildsCommittedState | streams/state_stores/offset_store.go:28-43 | a base that is a prefix's replay becomes the whole log's replay, from any offset at or before that prefix's end, full or compacted |
| Changelog.EarliestReplayForgetsBase | streams/state_stores/offset_store.go:28-40 | so with all tombstones a replay from the earliest offset gives the whole log's table, whatever the base held |
| Changelog.EarliestReplayIsExactIff | streams/state_stores/offset_store.go:28-40 | over a base that holds only keys the log mentions, a replay of what compaction left gives the whole log's table if and only if that mentions them too |
| Changelog.ForgetsAllBasesIffCompacted | streams/state_stores/changelog_builder.go:73-74 | of what mentions no other keys than the log, exactly that which keeps the last record of every key, tombstones included, restores over every base |
| Changelog.InterruptedRestoreIsMentioned | streams/state_stores/changelog_syncer.go:103-151 | a restore of a compacted log, stopped after any number of records, leaves only keys that the log mentions |
| Changelog.InterruptedRestoreIsPrefixIff | streams/state_stores/offset_store.go:28-40 | a base that had a records and whose restore is cut off after n is a prefix replay, for every log, if and only if n == 0 or n + 1 >= a |
| Changelog.InterruptedRestoreIsNoPrefix | streams/state_stores/offset_store.go:28-40 | for all other a and n, any two keys and any value: a log for which it is none |
| Changelog.DroppedTombstoneResurrects | streams/state_stores/changelog_builder.go:73-74 | a put and its tombstone, both gone after compaction: over a base that had the put the key comes back |
| AtomicRun.FailedRecordLeavesNoTrace | streams/tasks/ktask.go:262-281 | removing a record that fails where it stands changes neither the kept records nor the messages |
| AtomicRun.RerunOfKept | streams/tasks/ktask.go:392-416 | processing only the kept records again gives the same messages |
| AtomicRun.OffsetsMerge | streams/tasks/buffer.go:136-156 | the offsets of successive transactions merge to those of the whole history |
| AtomicRun.OffsetsAreLastPlusOne | streams/tasks/buffer.go:98-102 | a partition's offset is one past some buffered record of it, and absent only if there is none |
| AtomicRun.RecordsLieBelowOffset | streams/tasks/buffer.go:98-102 | every buffered record lies below its partition's offset |
| KeyRange.BumpedRange | backend/pebble/pebble.go:131-136 | between a prefix and the prefix with its last non-0xFF byte bumped lie exactly the keys with that prefix |
| KeyRange.SaturatedTail | backend/pebble/pebble.go:137 | at or above a run of 0xFF bytes lie exactly the keys that begin with it |
| KeyRange.KeyUpperBound | backend/pebble/pebble.go:128-138 | for every prefix the scanned range holds exactly the keys that have it, without an upper bound exactly for all-0xFF prefixes |
| Indexes.FixedWidthSeparates | streams/stores/index.go:65-72 | hashes of one width make entries of different keys differ |
| Indexes.AgreementIsUnique | streams/stores/index_utils.go:8-21 | a store determines its index |
| Indexes.SetKeepsAgreement | streams/stores/index_utils.go:40-69 | under a mapper that separates keys, updating an index for a set keeps agreement if and only if the value is neither nil nor empty |
| Indexes.SetsKeepAgreementIffSeparates | streams/stores/index.go:65-72 | sets of non-empty values keep the agreement of every store and index if and only if no two keys can share an entry |
| Indexes.SharedEntryBreaksAgreement | streams/stores/index.go:70-71 | for any two records that share an entry there is an agreeing store and index that one set makes disagree |
| Indexes.DeleteKeepsAgreement | streams/stores/index_utils.go:23-38 | removing the old value's entry keeps agreement for a delete |
| Indexes.AmbiguousHashLosesRecord | streams/stores/index.go:70-71 | for any two records that share an entry, setting and deleting one leaves the other unindexed |
| Indexes.Index.Refresh | streams/stores/index_utils.go:40-69 | the index moves from the old value's entry to the new one's |
| Indexes.Index.Values | streams/stores/index.go:126-138 | the keys behind exactly the entries that start with the hash, in rising order of the entries |
| Indexes.IndexedStore.UpdateIndexes | streams/stores/index_utils.go:8-21 | every index is refreshed against the stored value |
| Indexes.IndexedStore.DeleteIndexes | streams/stores/index_utils.go:23-38 | every index drops the stored value's entry, if there is one |
| Indexes.IndexedStore.Set | streams/stores/indexed_store.go:78-87 | store and indexes stay in agreement exactly for values neither nil nor empty |
| Indexes.IndexedStore.Delete | streams/stores/indexed_store.go:89-98 | store and indexes stay in agreement |
| Indexes.IndexedStore.RebuildIndexes | streams/stores/indexed_store.go:144-179 | whatever the indexes held, they agree with a store of non-empty values afterwards; fails exactly on an empty key |
| Indexes.IndexedStore.GetIndexedRecords | streams/stores/indexed_store.go:121-142 | a lookup under a hash of the index's width finds exactly the records that map to it, in key order |
| ChangelogSyncer.UpdateStoreWithIndex | streams/state_stores/changelog_syncer.go:189-221 | a live record or tombstone keeps every index in agreement |
| ChangelogSyncer.StartSync | streams/state_stores/changelog_syncer.go:103-177 | over any events the store is their fold; after the end mark the indexes agree, if neither store nor events hold an empty key; the remembered offset is that of an applied record, and of none while an indexed store is catching up |
| ChangelogSyncer.BulkEqualsIncremental | streams/state_stores/changelog_syncer.go:120-140 | bulk load plus rebuild gives the same store and the same index tables as record-by-record updates |
| TopologyGraph.RelistingKeepsRising | streams/ktable_stream.go:136-141 | listing a node again keeps ids rising along edges if and only if it has no outgoing edge |
| TopologyGraph.NewEdgeKeepsRising | streams/ksub_topology_builder.go:55-58 | listing a node again below a parent keeps ids rising along edges if and only if the parent is listed, is another node, and the node has no outgoing edge |
| TopologyGraph.MergeKeepsFlows | streams/ksub_topology_builder.go:113-127 | in the merged graph a record entering any node visits the same nodes in the same order as before |
| TopologyGraph.BuildKeepsFlow | streams/ksub_topology_builder.go:202-206 | forwarding in the graph wired by ids is the flow of the graph that was drawn |
| TopologyGraph.Builder.AddNode | streams/ksub_topology_builder.go:26-30 | every listed node is found at its id, its last position, also when listed twice |
| TopologyGraph.Builder.AddNodeWithEdge | streams/ksub_topology_builder.go:55-58 | a DSL step keeps ids positions always, and edges rising exactly for a node that leads nowhere yet, below a listed parent |
| TopologyGraph.Builder.MergeSubTopology | streams/ksub_topology_builder.go:113-127 | nodes and edges are concatenated, ids of the merged nodes shift, all flows stay, the stores are joined, the other builder is emptied |
| TopologyGraph.Builder.Build | streams/ksub_topology_builder.go:180-225 | the built graph is wired by id, children in edge order and always later, and forwards as drawn from every node's id |
| TopologyGraph.Builder.Parent | streams/ksub_topology_builder.go:60-68 | a parent along some edge, none exactly if no edge leads to the node |
| TopologyGraph.Builder.NodeSource | streams/ksub_topology_builder.go:70-85 | terminates with the source, or a parentless root, at the end of a path of edges |
| TopologyGraph.DrawJoin | streams/ktable_stream.go:127-143 | a join, within one graph or taking another over, draws two joiners and a merger listed twice, and the graph stays acyclic |
| TopologyGraph.DrawMerge | streams/kstream.go:498-514 | merging streams of one graph or of two lists the merger below both nodes, and the graph stays acyclic |
| TopologyGraph.JoinChildren | streams/ktable_stream.go:133-141 | each side keeps its children and gains its joiner, and both joiners hand on to the merger |
| Text.SeparatedInjective | streams/tasks/assigner.go:158 | a text, a separator and a decimal number can be told apart again, as hashes, group labels and partition names need |
| Text.SortBy | streams/tasks/assigner.go:157 | an ordered rearrangement of the input |
| Text.SortedUnique | streams/tasks/assigner.go:181-183 | strictly ordered lists of the same elements are equal |
| Assigner.CanonicalUnique | streams/tasks/assigner.go:97-198 | with collision-free joined names a generation is determined, ids included, by the sets of partitions and topics |
| Assigner.AgreementIffNoCollision | streams/tasks/assigner.go:153-183 | all canonical generations are equal if and only if no joined names collide |
| Assigner.JoinedNamesCollide | streams/tasks/assigner.go:158 | disjoint sub-topologies whose joined names collide at every partition |
| Assigner.ExactlyOneTask | streams/tasks/assigner.go:114-126 | a partition belongs to a task exactly if it is a source partition, and to one only |
| Generator.Place | streams/tasks/assigner.go:137-149 | one visit of a partition by a sub-topology keeps the grouping by (sub-topology, partition) exact |
| Generator.GroupPartitions | streams/tasks/assigner.go:134-151 | for every order of the nested walks each group holds exactly its topics |
| Generator.HashGroups | streams/tasks/assigner.go:155-159 | every group's topics are sorted and its hash describes them |
| Generator.MapGroups | streams/tasks/assigner.go:166-178 | one mapping per group, for every walk order |
| Generator.Generate | streams/tasks/assigner.go:97-198 | for every order of its input and of its map walks the result is a canonical generation |
| Generator.GenerateTwice | streams/tasks/assigner.go:153-154 | two consumers listing the same partitions in different orders generate the same tasks and ids, if no joined names collide |
| Generator.CanonicalCanComeOut | streams/tasks/assigner.go:153-183 | every canonical list, so also each of two that disagree, comes out for some order of the walks |
| Generator.Assign | streams/tasks/assigner.go:64-91 | panics exactly if a touched task is not wholly assigned; otherwise takes each touched task once and no other |
| Generator.FindMappingByTP | streams/tasks/assigner.go:52-62 | the first task that reads the partition, none exactly if none does |
| Generator.AssignedPartitions | streams/tasks/assigner.go:64-91 | the partitions of the tasks taken are exactly the assigned ones the generation knows |
| Generator.Claim | streams/stream_consumer_instance.go:105-109 | the mapping found for an assigned known partition is a task of this assignment |
| Generator.EachTaskRunsOnce | streams/stream_consumer_instance.go:44-46 | if the group's partitions are shared out and nobody panics, every task runs at exactly one consumer |
| Partitions.MaxPartitions | streams/ktopology_builder.go:164-216 | the largest count of an existing source, else of a nominated topic; fails exactly if metadata is missing |
| Partitions.MaxBoundsCreated | streams/ksource.go:144-175 | no source topic is created or exists with more partitions than the maximum, whatever its nomination |
| Partitions.CoPartitioned | streams/ksub_topology_builder.go:153-168 | passes exactly if the last source of each topic matches the source it is joined with |
| Partitions.PassingMeansMatchingIffImplied | streams/ksub_topology_builder.go:153-168 | for all counts that setup finds, passing means that every join that was drawn matches if and only if each, overwritten and shadowed ones included, is implied by those that are checked, or a topic whose count is needed is itself auto created, so that setup finds none |
| Partitions.OverwrittenJoinIsSkipped | streams/ksource.go:222-224 | two streams joined with one table, and counts that setup finds: the second join overwrites the mark of the first, which mismatches and passes |
| Partitions.ShadowedJoinIsSkipped | streams/ksub_topology_builder.go:153-157 | a joined source shadowed by a later one of its topic, and counts that setup finds: the join mismatches and passes |
| Partitions.ChangelogPartitionExists | streams/state_stores/changelog_builder.go:154-167 | a generated task's partition id is below its created changelog's partition count |
| Partitions.JoinedPartitionsMeet | streams/ksub_topology_builder.go:159-168 | a task reads a partition of a source exactly if it reads the same partition of the source joined with it |
| TableJoin.StreamJoiner.Run | streams/processors/stream_joiner.go:66-113 | wired for a kind of join, a value is ignored exactly if that join demands no row for its key and is otherwise forwarded as the row of the two tables; a tombstone that leaves a row is forwarded as that row; the mapper gets the joiner's own value first on the left side and second on the right one |
| TableJoin.RowIsOfLeftAndRight | streams/processors/stream_joiner.go:95-103 | a mapper that answers its first argument gives the left table's value wherever the row is demanded, one that answers its second the right table's, and any mapper what it makes of the two |
| TableJoin.UpdateMovesOneRow | streams/processors/table_converter.go:40-46 | an update leaves every other row, and keeps the joined table exact if and only if it is a value, or a tombstone after which the row is still demanded, or is not handed to the mapper, or is mapped to nil |
| TableJoin.TombstoneLeavesRow | streams/processors/stream_joiner.go:95-112 | an inner join and two records after which a tombstone leaves a row showing |
| TableJoin.Join.constructor | streams/ktable_stream.go:109-125 | for each kind of join the sides that are required |
| TableJoin.Join.Accept | streams/ktable_stream.go:133-141 | an update is refused exactly if the mapper fails on it, changing nothing; any other keeps the latest outputs equal to the rows the two tables make if and only if it fits |
| TableJoin.Join.AcceptAll | streams/ktable_stream.go:100-144 | over any interleaving of values and tombstones that fit, the latest outputs are the inner, left, right or outer join of the tables that the updates not refused make; values always fit, and none is refused under a mapper that never fails |
| TableJoin.InterleavingDoesNotShow | streams/ktable_stream.go:100-144 | how the two sides' updates interleave does not show in the joined table |
| JoinTask.OneRecordJoins | streams/processors/table_converter.go:40-46 | a record's value is in its table whatever becomes of it then; the attempt succeeds if and only if the join accepts the update, and emits what that puts out |
| JoinTask.TablesAreOfTheirTopics | streams/ktable_stream.go:127-136 | the left table holds the last value of each key among the left topic's records, the right table among the others |
| JoinTask.AtomicIsJoin | streams/ktable_stream.go:100-144 | converters and joiners as processors of a task: run atomically they keep exactly the updates that the join does not refuse, the stores are the two tables, and the messages to the output topic are the output of the join, and there are none to any other |
| JoinTask.JoinLivesThrough | streams/ktable_stream.go:100-144 | over every history of such a task the stores are the tables of the committed updates and what was put out last for each key is their row, if these fit, as they do without tombstones; without a denial they are the delivered updates that the join does not refuse |
| RunGroup.InvKept | pkg/async/run_group.go:72-142 | every atomic step of any goroutine keeps the protocol's invariant |
| RunGroup.GroupIsSafe | pkg/async/run_group.go:72-142 | the stopping channel closes at most once; Run and Stop return only after every function; Run returns an error exactly if a function failed |
| RunGroup.ReadyIsHonest | pkg/async/run_group.go:129-135 | where every function came through Add: Ready passes only when each function signalled or returned, and reports an error if one failed before it had signalled |
| RunGroup.ReadyTells | pkg/async/run_group.go:129-135 | over all runs and groups: a Ready that has not yet looked when the group is told to stop answers that it was interrupted, or the error of a function that failed; one that has not yet looked when an error is known answers that error |
| RunGroup.ReadyWaitsIffNothingConstructed | pkg/async/run_group.go:52-70 | that a Ready that has passed finds every function ready holds over all runs if and only if no function came through the constructor |
| RunGroup.ReadinessPanicsIffConstructedWithFunctions | pkg/async/run_group.go:52-70 | once all functions have passed, the readiness counter is negative if and only if some came through the constructor; with none it never is |
| RunGroup.RunsAreBounded | pkg/async/run_group.go:72-142 | every run is finite, bounded by a rank of its first state |
| RunGroup.StuckMeansSettled | pkg/async/run_group.go:72-142 | no deadlock, for any mix of functions: where only the functions themselves can go on, once none is running Run, every Stop and every Ready have returned, or the readiness count is negative, which takes constructor functions; and if Stop was called or a function failed, all have been told to stop |

## Left out

- StreamTask.Task.Start: the close request takes effect between two events; the source sets the flag from another goroutine. Record expiry, the flush interval and buffer sizes are not modelled.
- StreamTask.Task.Restart: the restore of one store is its records in order, each applied whole; offsets are never resumed from, as both backends say that they are not persistent.
- StreamTask.Task.OnArrive: where errors come amid the writes of a record that fails, whether a later begin meets one depends on how many writes the batch makes; for that case survival is not stated.
- StreamTask.Task.Process: the failed-message handler, interceptors and logging have no effect on the model, and a processor is assumed to hand a producer error on to the task.
- TxProducer.Producer.CommitTransaction: of the errors that answer a commit which took effect, only the fatal one has a fault of its own; on a plain one the buffer panics, which is a death after the commit, and while closing no error is handled at all.
- TxProducer.Producer.ProduceAsync: delivery reports, partitioning of messages and message preparation are not modelled; `ProduceSync` only panics.
- StateStore.Store.Restore: stores without a changelog are not part of this model; neither are the iterators over the cache.
- Runs.LiveThrough: one task. Rebalances, zombie consumers and the global table tasks are not part of this model.
- Indexes.Index.Values: index locks are not modelled; DeleteAll is taken to meet its interface, though the Pebble backend's own implementation is not part of this model.
- ChangelogSyncer.StartSync: the owner's index rebuild happens at the end mark, before later records; a rebuild that races with live records is not modelled. Decode and backend errors are logged and skipped by the source and do not occur here.
- TopologyGraph.Builder: `RemoveNode`, which breaks the id invariant and which no DSL step calls, the stores that `join` registers, and stream handles left pointing at an emptied builder.
- TopologyGraph.Builder.Build: the children of a node are positions in the built list; the error path of `Forward` is part of a processor's attempt in the task model.
- Generator.Generate: base64 is any encoding that can be read back; partition numbers are not negative.
- Partitions.MaxPartitions: one sub-topology; sinks, topic name formatters and replication settings are left out; whether a topic is auto created is read off each source, while the source keeps one answer per topic; a nominated topic's own source is taken to have been set up.
- TableJoin.StreamJoiner.Run: filters of the other side, custom lookup functions and lookup errors are not modelled.
- TableJoin.Join.Accept: what a refused update wrote is taken back by the task, as JoinTask.AtomicIsJoin has it. Encodings are the identity there: keys and values are bytes, and an empty one is nil.
- RunGroup.GroupIsSafe: modelled on values, as a state machine over interleaved atomic steps; a function that panics, and functions added while the group runs, are not modelled.
- `MultiStoreIterator`, window joins, aggregations, filters and mappers would only add easy members.
- Encoders, metrics, HTTP endpoints, the store registry, configuration, the sarama and franz-go adaptors, and the internals of Kafka, librdkafka and Pebble.
