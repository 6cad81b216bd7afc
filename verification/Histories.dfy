/**
 Histories in which the engine breaks its promise, each driven through the task's own steps.
 */
module Histories {
  import opened Basics
  import opened Changelog
  import opened AtomicRun
  import opened TxProducer
  import opened StateStore
  import opened CommitBuffer
  import opened Ledger
  import opened Schedules
  import opened StreamTask
  import opened Departures

  const IN: TopicPartition := TopicPartition("in", 0)
  const MESSAGE: Effect := Emit("out", [1], [2])

  function OneRecord(): Record {
    Record(IN, 0, [1], [2])
  }

  // A processor that makes some writes, and fails after doing so if `ok` is false
  function Writer(es: seq<Effect>, ok: bool): Processors {
    (r: Record, vs: Views) => Attempt(es, ok)
  }

  ghost predicate Fits(es: seq<Effect>, stores: seq<Store>)
    reads stores
  {
    && (forall e | e in es :: !e.Emit? ==> e.store < |stores|)
    && Distinct(stores) && forall s | s in stores :: s.BaseView() == map[]
  }

  lemma WriterFits(es: seq<Effect>, ok: bool, n: nat)
    requires forall e | e in es :: !e.Emit? ==> e.store < n
    ensures UsesStores(Writer(es, ok), n) && PartitionLogs(map[IN := [OneRecord()]]) && Seek([OneRecord()], 0) == 0
  {
  }

  // A first start
  method Opened(es: seq<Effect>, ok: bool, stores: seq<Store>) returns (t: Task)
    requires Fits(es, stores)
    modifies stores
    ensures fresh(t) && fresh(t.producer) && fresh(t.buffer) && t.stores == stores
    ensures t.processors == Writer(es, ok) && t.inputs == map[IN := [OneRecord()]] && t.position == map[IN := 0]
    ensures t.AtHead() && !t.buffer.closing && !t.tainted && t.buffer.records == [] && t.buffer.history == []
    ensures t.producer.faults == [] && t.producer.cluster == Cluster([], map[], [], map[])
    ensures UsesStores(t.processors, |t.stores|) && PartitionLogs(t.inputs)
  {
    hide Atomic, ApplyAll, UsesStores, PartitionLogs, Sound, Safe, Seek, Held, Remember, Restores, Writer, OneRecord,
      Distinct;
    WriterFits(es, ok, |stores|);
    t := new Task(Writer(es, ok), stores, map[IN := [OneRecord()]]);
    NothingToRestore(stores);
    var died := t.Restart(seq(|stores|, _ => []), None, []);
  }

  lemma NothingToRestore(stores: seq<Store>)
    requires forall s | s in stores :: s.BaseView() == map[]
    ensures Held([], seq(|stores|, _ => [])) && Remember(seq(|stores|, _ => []), BaseViewsOf(stores))
  {
    forall i | 0 <= i < |stores| ensures Mentions(i, [], BaseViewsOf(stores)[i]) {
      assert stores[i] in stores;
    }
  }

  lemma OneAtomic(es: seq<Effect>, ok: bool, bases: Views)
    ensures Atomic(Writer(es, ok), bases, [OneRecord()]) == if ok then Run([OneRecord()], es) else Run([], [])
  {
    AtomicSnoc(Writer(es, ok), bases, [], OneRecord());
    assert [] + [OneRecord()] == [OneRecord()] && [] + es == es;
  }

  // A first start, and the record processed with success
  method OneBuffered(es: seq<Effect>, stores: seq<Store>) returns (t: Task)
    requires Fits(es, stores)
    modifies stores
    ensures fresh(t) && fresh(t.producer) && fresh(t.buffer) && t.stores == stores && t.processors == Writer(es, true)
    ensures t.AtHead() && !t.buffer.closing && !t.tainted && t.buffer.history == []
    ensures |t.buffer.records| == 1 && fresh(t.buffer.records[0]) && Recs(t.buffer.records) == [OneRecord()]
    ensures t.producer.cluster == Cluster([], map[], es, map[])
    ensures ViewsOf(t.stores) == ApplyAll(EmptyViews(|stores|), es)
    ensures UsesStores(t.processors, |t.stores|) && PartitionLogs(t.inputs)
  {
    hide Atomic, ApplyAll, UsesStores, PartitionLogs, Sound, Safe, Distinct, OffsetsAfter, Spends, Task.AtHead, Fits;
    t := Opened(es, true, stores);
    HeadIsFaithful(t);
    assert t.NextOf(IN) == Some(OneRecord());
    ghost var before := t.TheBooks();
    assert before.cluster == Cluster([], map[], [], map[]) && before.buffered == [];
    NoViews(before.bases, before.views);
    var died := t.OnArrive(IN);
    assert [] + es == es && [] + [OneRecord()] == [OneRecord()];
    assert |Recs(t.buffer.records)| == |t.buffer.records|;
    assert t.buffer.records[0] in t.buffer.records;
  }

  lemma NoViews(bases: Views, views: Views)
    requires bases == ApplyAll(EmptyViews(|bases|), []) && views == ApplyAll(bases, [])
    ensures views == EmptyViews(|bases|)
  {
  }

  /** An abortable error answers the commit: the batch is replayed, and the next tick commits it. */
  method AbortedCommitIsMended() returns (t: Task, survived: bool)
    ensures survived && t.buffer.history == [OneRecord()] && t.producer.cluster.messages == [MESSAGE]
  {
    hide Atomic, ApplyAll, UsesStores, PartitionLogs, OffsetsAfter, Task.AtHead, Task.Recoverable;
    t := OneBuffered([MESSAGE], []);
    var script := [Fine, Fine, NeedsAbort];
    OneErrorIsMild(script);
    ghost var views := ViewsOf(t.stores);
    NothingRun(t.processors, views);
    assert t.KeptNow() == [OneRecord()] && [OneRecord()] + [] == [OneRecord()];
    ghost var held := t.buffer.records;
    var died := t.TickStep(script);
    assert forall x | x in held :: fresh(x);
    forall j | 0 <= j < |t.buffer.records| ensures fresh(t.buffer.records[j]) {
      assert t.buffer.records[j] in t.buffer.records;
    }
    died := t.TickStep([]);
    survived := !died;
    assert t.buffer.history == t.KeptNow();
    OneAtomic([MESSAGE], true, EmptyViews(0));
    HeadIsFaithful(t);
  }

  lemma OneErrorIsMild(script: seq<Fault>)
    requires script == [Fine, Fine, NeedsAbort]
    ensures Bearable(script, false, 2) && Refusals(script) == 0 && Bearable([], false, 2) && Refusals([]) == 0
  {
    var rest, last := script[1..], script[2..];
    assert rest == [Fine, NeedsAbort] && last == rest[1..] == [NeedsAbort] && last[1..] == [];
    assert Mild(last) && Mild(rest) && Mild(script) && Clear(rest, 1);
    MildIsHarmless(script);
  }

  /** The same error where a batch that wrote nothing begins its transaction, to send its offset: the process dies. */
  method BeginFailureKills() returns (t: Task, died: bool)
    ensures died && t.Recoverable()
  {
    hide Atomic, ApplyAll, UsesStores, PartitionLogs, OffsetsAfter, Task.AtHead, Task.TickTold;
    t := OneBuffered([], []);
    var script := [Fine, NeedsAbort];
    assert script[1..] == [NeedsAbort] && [NeedsAbort][1..] == [];
    t.Meet(script);
    ghost var o, drops;
    died, o, drops := t.OnTick();
  }

  /** A record that fails after a write, while the task is closing: its write is committed. */
  method ClosingCommitsHalfProcessed() returns (t: Task)
    ensures t.producer.cluster.messages == [MESSAGE]
    ensures Atomic(t.processors, EmptyViews(0), t.buffer.history) == Run([], [])
  {
    hide Atomic, ApplyAll, UsesStores, PartitionLogs, AsAtomic, Grounded, MadeGood, OffsetsAfter, Task.AtHead;
    t := Opened([MESSAGE], false, []);
    HeadIsFaithful(t);
    RequestClose(t);
    assert t.NextOf(IN) == Some(OneRecord());
    var done;
    ghost var r, attempt, exact;
    done, r, attempt, exact := ArrivesWhileClosing(t, IN, [], []);
    OneAtomic([MESSAGE], false, EmptyViews(0));
    assert t.buffer.history == [OneRecord()];
  }

  /** A record that succeeds, then a failed metadata fetch while closing: its offset is committed, its message lost. */
  method ClosingLosesBatch() returns (t: Task)
    ensures t.producer.cluster.messages == [] && t.producer.cluster.offsets == OffsetsAfter(map[], [OneRecord()])
    ensures Atomic(t.processors, EmptyViews(0), [OneRecord()]) == Run([OneRecord()], [MESSAGE])
  {
    hide Atomic, ApplyAll, UsesStores, PartitionLogs, AsAtomic, Grounded, MadeGood, OffsetsAfter, Task.AtHead;
    t := OneBuffered([MESSAGE], []);
    HeadIsFaithful(t);
    RequestClose(t);
    var done;
    ghost var exact;
    done, exact := MetadataFailsWhileClosing(t, [NeedsAbort], []);
    OneAtomic([MESSAGE], true, EmptyViews(0));
    assert t.buffer.history == [OneRecord()];
  }

  /**
   A producer error ends the attempt at its first write while the task is closing, and then a metadata fetch
   fails: the transaction had held nothing, and yet the record is lost.
   */
  method ClosingLosesUnwritten() returns (t: Task)
    ensures t.producer.cluster.messages == [] && t.producer.cluster.offsets == OffsetsAfter(map[], [OneRecord()])
    ensures Atomic(t.processors, EmptyViews(0), [OneRecord()]) == Run([OneRecord()], [MESSAGE])
  {
    hide Atomic, ApplyAll, UsesStores, PartitionLogs, AsAtomic, Grounded, MadeGood, OffsetsAfter, Task.AtHead;
    t := Opened([MESSAGE], true, []);
    HeadIsFaithful(t);
    RequestClose(t);
    assert t.NextOf(IN) == Some(OneRecord());
    assert Survivable([Fine, NeedsAbort]);
    var died := ArrivalWhileClosing(t, IN, [Fine, NeedsAbort]);
    assert [] + [OneRecord()] == [OneRecord()];
    assert forall i :: 0 <= i < |t.buffer.records| ==> t.buffer.records[i] in t.buffer.records;
    var done;
    ghost var exact;
    done, exact := MetadataFailsWhileClosing(t, [NeedsAbort], []);
    OneAtomic([MESSAGE], true, EmptyViews(0));
    assert t.buffer.history == [OneRecord()];
  }

  /** A store that fails to flush after the commit: the message is committed twice. */
  method StoreFailureCommitsTwice() returns (t: Task)
    ensures t.producer.cluster.messages == [Put(0, [1], [2]), Put(0, [1], [2])]
    ensures t.buffer.history == [OneRecord(), OneRecord()] && !InOrder(t.buffer.history)
  {
    hide Atomic, ApplyAll, UsesStores, PartitionLogs, Sound, Safe, OffsetsAfter, InOrder, Distinct, Task.AtHead, Spends;
    var e := Put(0, [1], [2]);
    var store := new Store(map[]);
    OneIsDistinct(store);
    t := OneBuffered([e], [store]);
    var script := [Fine, Fine, Fine, StoreFails];
    ScriptFailsAfterCommit(script);
    ghost var again, bases, kept;
    again, bases, kept := StoreFailsAfterCommit(t, script, []);
    OneAtomic([e], true, bases);
    assert [] + [OneRecord()] + [OneRecord()] == [OneRecord(), OneRecord()];
    assert [] + [e] + [e] == [e, e];
  }

  lemma OneIsDistinct(store: Store)
    ensures Distinct([store])
  {
  }

  lemma ScriptFailsAfterCommit(script: seq<Fault>)
    requires script == [Fine, Fine, Fine, StoreFails]
    ensures FailsAfterCommit(script) && Refusals(script) == 0
  {
    assert script[1..] == [Fine, Fine, StoreFails];
    assert Rest(script[1..]) == [Fine, StoreFails];
    assert Rest(Rest(script[1..])) == [StoreFails];
    assert Refusals([StoreFails]) == 0;
    assert [Fine, StoreFails][1..] == [StoreFails] && Refusals([Fine, StoreFails]) == 0;
    assert [Fine, Fine, StoreFails][1..] == [Fine, StoreFails];
  }

  // A first start, and the record processed and committed
  method OneCommitted(es: seq<Effect>, stores: seq<Store>) returns (t: Task)
    requires Fits(es, stores)
    modifies stores
    ensures fresh(t) && fresh(t.producer) && fresh(t.buffer) && t.stores == stores && t.processors == Writer(es, true)
    ensures !t.tainted && t.Recoverable() && t.buffer.history == [OneRecord()]
    ensures t.producer.cluster.messages == es && BaseViewsOf(t.stores) == ApplyAll(EmptyViews(|stores|), es)
    ensures UsesStores(t.processors, |t.stores|) && PartitionLogs(t.inputs)
  {
    hide Atomic, ApplyAll, UsesStores, PartitionLogs, Distinct, OffsetsAfter, Faithful, MadeGood, Task.AtHead,
      Task.Recoverable, Fits, FailsAfterCommit;
    t := OneBuffered(es, stores);
    assert |Recs(t.buffer.records)| == |t.buffer.records|;
    var died;
    ghost var o, drops;
    died, o, drops := Departures.Tick(t, []);
    HeadIsFaithful(t);
    t.HeadIsRecoverable();
    assert [] + es == es && [] + [OneRecord()] == [OneRecord()];
    OneAtomic(es, true, EmptyViews(|stores|));
  }

  // What a put and its tombstone make, and the put alone
  lemma PutAndRemoved(k: Bytes, v: Bytes, log: seq<Effect>)
    requires log == [Put(0, k, v), Remove(0, k)] && v != []
    ensures Replay(map[], 0, log) == map[] && Replay(map[], 0, log[..1]) == map[k := v]
    ensures Held(log, [log]) && Held(log, [[]]) && Within([1], [log]) && UpTo([log], [1]) == [log[..1]]
  {
    DroppedTombstoneResurrects(k, v);
    assert Replay(Replay(map[], 0, log[..1]), 0, []) == Replay(map[], 0, log[..1]);
    hide LastWrite, Replay;
    assert Cleaned(0, log, log);
  }

  lemma OneTable(changelog: seq<Effect>, base: Table, left: Views)
    requires Restores([changelog], [base], left)
    ensures left == [Replay(base, 0, changelog)]
  {
  }

  /**
   A record puts a key and removes it again. A restore is cut off after the put; then compaction takes both
   away, the tombstone once its retention is over. The next restore leaves the key where it was.
   */
  method TombstoneResurrects() returns (t: Task)
    ensures ViewsOf(t.stores) == [map[[1] := [2]]] && t.buffer.history == [OneRecord()]
    ensures Atomic(t.processors, EmptyViews(1), t.buffer.history).messages == t.producer.cluster.messages
    ensures ApplyAll(EmptyViews(1), t.producer.cluster.messages) == [map[]]
  {
    hide Atomic, UsesStores, PartitionLogs, Sound, Safe, OffsetsAfter, Spends, Held, Remember, Restores, Within, UpTo,
      Seek, Changelog.Replay, Task.AtHead, Task.Recoverable;
    var log := [Put(0, [1], [2]), Remove(0, [1])];
    PutAndRemoved([1], [2], log);
    var store := new Store(map[]);
    OneIsDistinct(store);
    t := OneCommitted(log, [store]);
    assert BaseViewsOf(t.stores) == [map[]];
    var died := t.Restart([log], Some([1]), []);
    OneTable(log[..1], map[], BaseViewsOf(t.stores));
    died := t.Restart([[]], None, []);
    OneTable([], map[[1] := [2]], ViewsOf(t.stores));
    assert Changelog.Replay(map[[1] := [2]], 0, []) == map[[1] := [2]] by {
      NothingReplayed(map[[1] := [2]]);
    }
    OneAtomic(log, true, EmptyViews(1));
  }

  lemma NothingReplayed(t: Table)
    ensures Replay(t, 0, []) == t
  {
  }
}
