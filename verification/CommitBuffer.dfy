/**
 The commit buffer of a task: the processed records of the open transaction, the offsets they
 stand for, and the ordered steps of a commit, a reset, and the recovery from producer errors.
 */
module CommitBuffer {
  import opened Basics
  import opened Changelog
  import opened AtomicRun
  import opened TxProducer
  import opened StateStore
  import opened Ledger

  // A record on its way through the task; ignored once it failed for good
  class TaskRecord {
    const rec: Record
    var ignore: bool

    constructor (rec: Record)
      ensures this.rec == rec && !ignore
    {
      this.rec, ignore := rec, false;
    }
  }

  function Recs(rs: seq<TaskRecord>): seq<Record> {
    seq(|rs|, i requires 0 <= i < |rs| => rs[i].rec)
  }

  class Buffer {
    const producer: Producer
    const stores: seq<Store>
    var records: seq<TaskRecord>
    var offsetMap: map<TopicPartition, nat>
    var closing: bool
    ghost var history: seq<Record>  // the records whose transaction committed

    constructor (producer: Producer, stores: seq<Store>, ghost history: seq<Record>)
      ensures this.producer == producer && this.stores == stores && this.history == history
      ensures records == [] && offsetMap == map[] && !closing
    {
      this.producer, this.stores, this.history := producer, stores, history;
      records, offsetMap, closing := [], map[], false;
    }

    ghost predicate Valid()
      reads this, producer
    {
      && producer.Valid() && producer.inited
      && Distinct(stores)
      && offsetMap == OffsetsAfter(map[], Recs(records))
    }

    // Transactions are initialised and no transaction is left open
    ghost predicate Fresh()
      reads producer
    {
      producer.Valid() && producer.inited && !producer.open && !producer.txBegin
    }

    ghost predicate Left(crashed: bool, left: Option<seq<Fault>>)
      reads producer
    {
      if crashed then left.None? else left == Some(producer.faults)
    }

    method Init() returns (crashed: bool)
      requires producer.Valid() && !producer.txBegin && !closing
      modifies producer
      ensures producer.Valid() && !producer.txBegin && producer.misused == old(producer.misused)
      ensures Spends(old(producer.faults), producer.faults) && (crashed ==> |producer.faults| < |old(producer.faults)|)
      ensures !crashed ==> Fresh() && producer.cluster == old(producer.cluster).Discarded()
      ensures Left(crashed, Settles(old(producer.faults)))
      ensures Mild(old(producer.faults)) ==> !crashed && (Clear(old(producer.faults), 2) ==> Clear(producer.faults, 1))
      ensures producer.cluster.messages == old(producer.cluster).messages
      ensures producer.cluster.offsets == old(producer.cluster).offsets
      decreases |producer.faults|, 0
    {
      hide Spends, Answer, Rest, Clear, Mild, Lethal, Recovers;
      ghost var first := producer.faults;
      if Mild(first) {
        MildAnswers(first);
      }
      var o := producer.InitTransactions();
      ghost var left := producer.faults;
      match o
      case Done => crashed := false;
      case Crashed => crashed := true;
      case Failed(e) =>
        crashed := HandleTxError(e);
        SpendsTrans(first, left, producer.faults);
    }

    method Add(record: TaskRecord)
      requires Valid()
      modifies this`records, this`offsetMap
      ensures Valid() && records == old(records) + [record]
    {
      assert Recs(records + [record]) == Recs(records) + [record.rec];
      OffsetsSnoc(map[], Recs(records), record.rec);
      records := records + [record];
      offsetMap := offsetMap[record.rec.tp := record.rec.offset + 1];
    }

    ghost function TheBooks(): Books
      reads this, producer, stores
    {
      Books(history, Recs(records), producer.cluster, BaseViewsOf(stores), ViewsOf(stores))
    }

    /** What a flush makes of the books: all of the transaction or none of it, and every base before or after. */
    ghost predicate FlushTold(o: Outcome, before: Books, inStep: bool, faults: seq<Fault>)
      reads this, producer, stores
    {
      && (before.buffered == [] ==> o.Done? && TheBooks() == before)
      && (o.Done? && before.buffered != [] ==>
            && Committed(before.cluster, before.buffered, before.history)
            && BaseViewsOf(stores) == ViewsOf(stores) == before.views
            && records == [] && Fresh())
      && (o.Failed? ==>
            && Recs(records) == before.buffered && !producer.txBegin && ViewsOf(stores) == before.views
            && LeftPending(before.cluster, before.buffered))
      && (!o.Done? ==>
            || Unaffected(before.cluster, before.bases, before.history)
            || (&& Committed(before.cluster, before.buffered, before.history)
                && PartlyFlushed(before.bases, before.views)))
      && (o.Failed? && history != before.history ==> Repeats(faults))
      // a failed metadata fetch aborts the transaction
      && (before.buffered != [] && faults != [] && MetaFails(faults[0]) && Answer(faults[1..]).Done? ==>
            o.Failed? && MetaLost(before.cluster, before.views, before.bases, before.history))
      // the transaction commits, and the first store cannot flush
      && (inStep && before.buffered != [] && before.cluster.pending != [] && stores != []
          && FailsAfterCommit(faults) ==>
            && o.Failed? && history == before.history + before.buffered && |producer.faults| + 4 <= |faults|)
    }

    // Commit: group metadata, offsets, transaction, then the stores, in that order
    method Flush() returns (o: Outcome)
      requires Valid()
      modifies this, producer, stores
      ensures Valid() && closing == old(closing)
      ensures Spends(old(producer.faults), producer.faults)
      ensures old(producer.InStep()) ==> !producer.misused && (!o.Done? ==> |producer.faults| < |old(producer.faults)|)
      ensures old(producer.txBegin == producer.open && producer.faults == []) ==> o.Done?
      ensures old(records) == [] ==>
                o.Done? && producer.txBegin == old(producer.txBegin) && producer.open == old(producer.open)
      // a transaction that is open while the adaptor believes it is not is never committed
      ensures old(records) != [] && o.Done? ==> Fresh() && old(producer.txBegin || !producer.open)
      ensures records == [] || records == old(records)
      ensures o.Failed? ==> records == old(records)
      ensures FlushTold(o, old(TheBooks()), old(producer.InStep()), old(producer.faults))
      ensures old(records) != [] ==> Answered(o, old(producer.txBegin), old(producer.Steady()), old(producer.faults))
    {
      if |records| < 1 {
        return Done;
      }
      o := Commit();
    }

    /**
     What a commit makes of the answers that it gets. Where the transaction was begun only a process that dies
     ends; of mild errors it ends in a transaction that cannot be begun, which panics, and in nothing else.
     */
    ghost predicate Answered(o: Outcome, begun: bool, steady: bool, faults: seq<Fault>)
      reads producer
    {
      && (begun && o.Crashed? ==> Lethal(faults))
      && (begun && o.Done? ==> GoesThrough(faults))
      && (begun && GoesThrough(faults) && !Lethal(faults) && !Repeats(faults) ==> o.Done?)
      && (steady ==>
            && (o.Crashed? <==> !begun && Clear(faults, 1) && !Clear(faults, 2))
            && (o.Failed? ==> Clear(producer.faults, 2)))
    }

    // Nothing durable happened
    ghost predicate Unaffected(cluster: Cluster, bases: Views, past: seq<Record>)
      reads this, producer, stores
    {
      && producer.cluster.messages == cluster.messages && producer.cluster.offsets == cluster.offsets
      && BaseViewsOf(stores) == bases && history == past
    }

    // The transaction was aborted, and buffer, caches and offsets were left as they were
    ghost predicate MetaLost(cluster: Cluster, views: Views, bases: Views, past: seq<Record>)
      reads this, producer, stores
    {
      && Fresh() && producer.cluster == cluster.Discarded()
      && ViewsOf(stores) == views && BaseViewsOf(stores) == bases && history == past
    }

    // The messages that were pending still are, or none; and no offsets but those there were and those of the batch
    ghost predicate LeftPending(before: Cluster, batch: seq<Record>)
      reads producer`cluster
    {
      && (producer.cluster.pending == before.pending || producer.cluster.pending == [])
      && producer.cluster.pendingOffsets.Keys <= before.pendingOffsets.Keys + OffsetsAfter(map[], batch).Keys
    }

    // The transaction reached the topics and the group offsets, all of it
    ghost predicate Committed(cluster: Cluster, batch: seq<Record>, past: seq<Record>)
      reads this`history, producer`cluster
    {
      && producer.cluster.messages == cluster.messages + cluster.pending
      && producer.cluster.offsets == cluster.offsets + (cluster.pendingOffsets + OffsetsAfter(map[], batch))
      && history == past + batch
    }

    // Each store's base is as before the flush or as after it
    ghost predicate PartlyFlushed(bases: Views, views: Views)
      reads stores
    {
      && |bases| == |views| == |stores|
      && forall i :: 0 <= i < |stores| ==> stores[i].BaseView() == bases[i] || stores[i].BaseView() == views[i]
    }

    method Commit() returns (o: Outcome)
      requires Valid() && records != []
      modifies this, producer, stores
      ensures Valid() && closing == old(closing)
      ensures Spends(old(producer.faults), producer.faults)
      ensures old(producer.InStep()) ==> !producer.misused && (!o.Done? ==> |producer.faults| < |old(producer.faults)|)
      ensures records == [] || records == old(records)
      ensures o.Failed? ==> records == old(records)
      ensures o.Done? ==> old(producer.txBegin || !producer.open)
      ensures old(producer.txBegin == producer.open && producer.faults == []) ==> o.Done?
      ensures FlushTold(o, old(TheBooks()), old(producer.InStep()), old(producer.faults))
      ensures Answered(o, old(producer.txBegin), old(producer.Steady()), old(producer.faults))
    {
      hide Spends, FailsAfterCommit, GoesThrough, Answer, Rest, MetaFails, FlushTold, Committed, PartlyFlushed,
        Unaffected, MetaLost, LeftPending, Clear, Mild, Lethal, Repeats;
      ghost var before, inStep, start := TheBooks(), producer.InStep(), producer.faults;
      if FailsAfterCommit(start) {
        LeftAfterCommit(start);
      }
      MildIsHarmless(start);
      o := CommitTransaction();
      if !o.Done? {
        NotCommittedTold(o, before, inStep, start);
        return;
      }
      ghost var left := producer.faults;
      o := FlushAndEmpty(before, inStep, start);
      SpendsTrans(start, left, producer.faults);
    }

    // After the transaction: flush the stores, and empty the buffer if all of them took it
    method FlushAndEmpty(ghost before: Books, ghost inStep: bool, ghost faults: seq<Fault>) returns (o: Outcome)
      requires Valid() && Fresh() && TheBooks() == before.(history := history, cluster := producer.cluster)
      requires before.buffered != [] && Committed(before.cluster, before.buffered, before.history)
      requires Spends(faults, producer.faults)
      requires !(faults != [] && MetaFails(faults[0]) && Answer(faults[1..]).Done?)
      requires inStep && before.cluster.pending != [] && FailsAfterCommit(faults) ==>
                 producer.faults != [] && producer.faults[0].StoreFails? && |producer.faults| + 3 <= |faults|
      modifies producer`faults, stores, `records, `offsetMap
      ensures Valid() && Spends(old(producer.faults), producer.faults)
      ensures !o.Done? ==> |producer.faults| < |old(producer.faults)|
      ensures records == if o.Done? then [] else old(records)
      ensures (o.Crashed? ==> Lethal(old(producer.faults))) && (o.Failed? ==> Repeats(old(producer.faults)))
      ensures FlushTold(o, before, inStep, faults)
    {
      hide Spends, FailsAfterCommit, Answer, MetaFails, FlushTold, Committed, PartlyFlushed;
      ghost var left := producer.faults;
      o := FlushStores();
      SpendsTrans(faults, left, producer.faults);
      if o.Done? {
        offsetMap, records := map[], [];
      }
      CommittedTold(o, before, inStep, faults);
    }

    lemma NotCommittedTold(o: Outcome, before: Books, inStep: bool, faults: seq<Fault>)
      requires !o.Done? && before.buffered != [] && Recs(records) == before.buffered
      requires faults != [] && MetaFails(faults[0]) && Answer(faults[1..]).Done? ==>
                 o.Failed? && MetaLost(before.cluster, before.views, before.bases, before.history)
      requires !(inStep && before.cluster.pending != [] && FailsAfterCommit(faults))
      requires BaseViewsOf(stores) == before.bases && |before.views| == |stores|
      requires o.Failed? ==>
                 && !producer.txBegin && (history != before.history ==> Repeats(faults))
                 && ViewsOf(stores) == before.views && LeftPending(before.cluster, before.buffered)
      requires || Unaffected(before.cluster, before.bases, before.history)
               || Committed(before.cluster, before.buffered, before.history)
      ensures FlushTold(o, before, inStep, faults)
    {
      hide FailsAfterCommit, Answer, MetaFails;
    }

    lemma CommittedTold(o: Outcome, before: Books, inStep: bool, faults: seq<Fault>)
      requires before.buffered != [] && Committed(before.cluster, before.buffered, before.history)
      requires PartlyFlushed(before.bases, before.views)
      requires !(faults != [] && MetaFails(faults[0]) && Answer(faults[1..]).Done?)
      requires inStep && before.cluster.pending != [] && stores != [] && FailsAfterCommit(faults) ==>
                 o.Failed? && |producer.faults| + 4 <= |faults|
      requires o.Done? ==> BaseViewsOf(stores) == ViewsOf(stores) == before.views && records == [] && Fresh()
      requires o.Failed? ==>
                 && Repeats(faults) && Recs(records) == before.buffered && !producer.txBegin
                 && ViewsOf(stores) == before.views && producer.cluster.Idle()
      ensures FlushTold(o, before, inStep, faults)
    {
      hide FailsAfterCommit, Answer, MetaFails, PartlyFlushed;
    }

    // Group metadata and offsets; a failed fetch of the metadata aborts the transaction
    method SendOffsets() returns (o: Outcome)
      requires Valid() && records != []
      modifies producer
      ensures Valid() && Spends(old(producer.faults), producer.faults)
      ensures !o.Done? && old(producer.InStep()) ==> !producer.misused && |producer.faults| < |old(producer.faults)|
      ensures o.Done? && old(producer.InStep()) ==> producer.InStep()
      ensures o.Done? ==>
                && producer.txBegin && old(producer.txBegin || !producer.open)
                && producer.cluster == old(producer.cluster).(
                     pendingOffsets := old(producer.cluster.pendingOffsets) + OffsetsAfter(map[], Recs(records)))
      ensures !o.Done? ==>
                && producer.cluster.messages == old(producer.cluster.messages)
                && producer.cluster.offsets == old(producer.cluster.offsets)
      ensures o.Failed? ==> !producer.txBegin && LeftPending(old(producer.cluster), Recs(records))
      ensures var faults := old(producer.faults);
              faults != [] && MetaFails(faults[0]) && Answer(faults[1..]).Done? ==>
                o.Failed? && Fresh() && producer.cluster == old(producer.cluster).Discarded()
      ensures old(producer.txBegin) ==>
                var faults := old(producer.faults);
                && (GoesThrough(faults) ==> o.Done?)
                && (o.Done? ==>
                      && producer.faults == (if faults == [] then [] else Rest(faults[1..]))
                      && (GoesThrough(faults) <==> Answer(producer.faults).Done?))
                && (o.Crashed? ==> Lethal(faults))
      ensures old(producer.Steady()) ==>
                var faults := old(producer.faults);
                && (o.Crashed? <==> !old(producer.txBegin) && Clear(faults, 1) && !Clear(faults, 2))
                && (o.Failed? ==> Clear(producer.faults, 2) || Clear(producer.faults, 3))
      ensures old(producer.txBegin == producer.open && producer.faults == []) ==> o.Done? && producer.faults == []
    {
      assert Recs(records)[|records| - 1].tp in offsetMap;
      hide Spends, OffsetsAfter, Lethal;
      ghost var first := producer.faults;
      o := Done;
      if offsetMap != map[] {
        o := producer.GroupMeta();
        ghost var second := producer.faults;
        if o.Done? {
          o := producer.SendOffsetsToTransaction(offsetMap);
        } else if o.Failed? {
          if Mild(second) {
            MildAnswers(second);
          }
          var aborted := producer.AbortTransaction();
          if !aborted.Done? {
            o := aborted;
          }
        }
        SpendsTrans(first, second, producer.faults);
      }
    }

    // The transactional part of a commit
    method CommitTransaction() returns (o: Outcome)
      requires Valid() && records != []
      modifies producer, `history
      ensures Valid()
      ensures Spends(old(producer.faults), producer.faults)
      ensures old(producer.InStep()) ==> !producer.misused && (!o.Done? ==> |producer.faults| < |old(producer.faults)|)
      ensures var faults := old(producer.faults);
              faults != [] && MetaFails(faults[0]) && Answer(faults[1..]).Done? ==>
                && o.Failed?
                && MetaLost(old(producer.cluster), old(ViewsOf(stores)), old(BaseViewsOf(stores)), old(history))
      ensures old(producer.txBegin) ==>
                var faults := old(producer.faults);
                && (o.Done? <==> GoesThrough(faults))
                && (o.Done? ==> producer.faults == if faults == [] then [] else Rest(Rest(faults[1..])))
                && (o.Crashed? ==> Lethal(faults))
      ensures old(producer.Steady()) ==>
                var faults := old(producer.faults);
                && (o.Crashed? <==> !old(producer.txBegin) && Clear(faults, 1) && !Clear(faults, 2))
                && (o.Failed? ==> Clear(producer.faults, 2))
      ensures o.Done? ==> Fresh() && Committed(old(producer.cluster), Recs(records), old(history))
      ensures o.Done? ==> old(producer.txBegin || !producer.open)
      ensures o.Failed? ==> !producer.txBegin && LeftPending(old(producer.cluster), Recs(records))
      ensures o.Failed? && history != old(history) ==> Repeats(old(producer.faults))
      ensures old(producer.txBegin == producer.open && producer.faults == []) ==> o.Done? && producer.faults == []
      ensures !o.Done? ==>
                || Unaffected(old(producer.cluster), old(BaseViewsOf(stores)), old(history))
                || Committed(old(producer.cluster), Recs(records), old(history))
    {
      hide Spends, OffsetsAfter, Answer, Rest, Clear, Mild, Lethal, Repeats, MetaFails;
      ghost var first := producer.faults;
      o := SendOffsets();
      if !o.Done? {
        if Clear(producer.faults, 3) {
          ClearLess(producer.faults, 3, 2);
        }
        return;
      }
      ghost var sent, second := producer.cluster, producer.faults;
      if Mild(second) {
        MildAnswers(second);
      }
      o := producer.CommitTransaction();
      SpendsTrans(first, second, producer.faults);
      if o.Done? || producer.cluster != sent {
        history := history + Recs(records);
      }
    }

    // How the flushes of n stores end, one after another
    ghost function FirstFailure(faults: seq<Fault>, n: nat): Outcome {
      if n == 0 || faults == [] then Done
      else if faults[0].Dies? || faults[0].DiesApplied? then Crashed
      else if faults[0].StoreFails? then Failed(Plain)
      else FirstFailure(faults[1..], n - 1)
    }

    // Flush and reset every store; a backend may fail, or the process may die between two of them
    method FlushStores() returns (o: Outcome)
      requires Valid()
      modifies producer`faults, stores
      ensures Valid()
      ensures Spends(old(producer.faults), producer.faults) && (!o.Done? ==> |producer.faults| < |old(producer.faults)|)
      ensures o.Done? ==> BaseViewsOf(stores) == ViewsOf(stores) == old(ViewsOf(stores))
      ensures PartlyFlushed(old(BaseViewsOf(stores)), old(ViewsOf(stores)))
      ensures o.Failed? ==> Repeats(old(producer.faults)) && ViewsOf(stores) == old(ViewsOf(stores))
      ensures o.Crashed? ==> Lethal(old(producer.faults))
      ensures o == FirstFailure(old(producer.faults), |stores|)
      ensures o.Done? ==> forall s | s in stores :: s.overlay == map[]
      ensures stores != [] && old(producer.faults) != [] && old(producer.faults)[0].StoreFails? ==>
                o.Failed? && producer.faults == old(producer.faults)[1..]
    {
      hide Patch, Readable, Spends, OffsetsAfter;
      SpendsNothing(producer.faults);
      for n := 0 to |stores|
        modifies producer`faults, stores
        invariant producer.Valid() && producer.inited
        invariant Spends(old(producer.faults), producer.faults)
        invariant n == 0 ==> producer.faults == old(producer.faults)
        invariant n > 0 && old(producer.faults) != [] ==> !old(producer.faults)[0].StoreFails?
        invariant FirstFailure(old(producer.faults), |stores|) == FirstFailure(producer.faults, |stores| - n)
        invariant forall i :: 0 <= i < n ==>
                    && stores[i].BaseView() == stores[i].View() == old(stores[i].View()) && stores[i].overlay == map[]
        invariant forall i :: n <= i < |stores| ==>
                                stores[i].base == old(stores[i].base) && stores[i].overlay == old(stores[i].overlay)
      {
        ghost var left := producer.faults;
        var f := producer.NextFault();
        SpendsTrans(old(producer.faults), left, producer.faults);
        if f.Dies? || f.DiesApplied? {
          return Crashed;
        } else if f.StoreFails? {
          return Failed(Plain);
        }
        stores[n].Flush();
        stores[n].ResetCache();
      }
      o := Done;
    }

    method ResetCaches()
      requires Distinct(stores)
      modifies stores
      ensures BaseViewsOf(stores) == ViewsOf(stores) == old(BaseViewsOf(stores))
    {
      for n := 0 to |stores|
        modifies stores
        invariant forall i :: 0 <= i < |stores| ==> stores[i].base == old(stores[i].base)
        invariant forall i :: 0 <= i < n ==> stores[i].View() == stores[i].BaseView()
      {
        stores[n].ResetCache();
      }
    }

    // Purge the caches and abort: what the transaction and the stores held in memory is gone
    method Reset() returns (crashed: bool)
      requires Valid() && !closing
      modifies this`records, this`offsetMap, producer, stores
      ensures Distinct(stores) && producer.misused == old(producer.misused)
      ensures Spends(old(producer.faults), producer.faults) && (crashed ==> |producer.faults| < |old(producer.faults)|)
      ensures Unaffected(old(producer.cluster), old(BaseViewsOf(stores)), history)
      ensures !crashed ==> Valid() && Fresh() && records == [] && producer.cluster.Idle()
      ensures !crashed ==> ViewsOf(stores) == BaseViewsOf(stores)
      ensures Left(crashed, Settles(old(producer.faults)))
      ensures Mild(old(producer.faults)) ==> !crashed && (Clear(old(producer.faults), 2) ==> Clear(producer.faults, 1))
    {
      hide Spends, Answer, Rest, Clear, Mild, Lethal, Recovers;
      ResetCaches();
      ghost var first := producer.faults;
      if Mild(first) {
        MildAnswers(first);
      }
      var o := producer.AbortTransaction();
      ghost var left := producer.faults;
      match o {
        case Done => crashed := false;
        case Crashed => crashed := true;
        case Failed(e) =>
          crashed := HandleTxError(e);
          SpendsTrans(first, left, producer.faults);
      }
      offsetMap, records := map[], [];
    }

    // Abort or restart as the error demands, then initialise transactions again, until it works.
    // An error that is not one of the adaptor's two kinds panics.
    method HandleTxError(error: ProducerError) returns (crashed: bool)
      requires producer.Valid() && !producer.txBegin
      modifies producer
      ensures producer.Valid() && !producer.txBegin && producer.misused == old(producer.misused)
      ensures Spends(old(producer.faults), producer.faults)
      ensures crashed ==> error.Plain? || |producer.faults| < |old(producer.faults)|
      ensures producer.cluster.messages == old(producer.cluster).messages
      ensures producer.cluster.offsets == old(producer.cluster).offsets
      ensures closing ==> !crashed && producer.cluster == old(producer.cluster)
      ensures !closing && !crashed ==> Fresh() && producer.cluster == old(producer.cluster).Discarded()
      ensures !closing ==> Left(crashed, Recovers(error, old(producer.faults)))
      ensures !closing && !error.Plain? && Mild(old(producer.faults)) && Clear(old(producer.faults), 3) ==>
                !crashed && Clear(producer.faults, 1)
      decreases |producer.faults|, 1
    {
      hide Spends, Answer, Rest, Clear, Mild, Lethal;
      SpendsNothing(producer.faults);
      if closing {
        return false;
      }
      if error.Plain? {
        return true;
      }
      ghost var first := producer.faults;
      if Mild(first) {
        MildAnswers(first);
      }
      crashed := false;
      if error.AbortRequired? {
        var o := producer.AbortTransaction();
        ghost var left := producer.faults;
        match o {
          case Done =>
          case Crashed => crashed := true;
          case Failed(e) =>
            crashed := HandleTxError(e);
            SpendsTrans(first, left, producer.faults);
        }
      }
      if !crashed && error.RestartRequired? {
        var o := producer.Restart();
        crashed := o.Crashed?;
      }
      if !crashed {
        ghost var left := producer.faults;
        crashed := Init();
        SpendsTrans(first, left, producer.faults);
      }
    }

    method MarkAsClosing()
      modifies this`closing
      ensures closing
    {
      closing := true;
    }
  }
}
