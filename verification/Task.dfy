/**
 A stream task: the processing loop, the replay of the commit buffer after any failure,
 shutdown, and the restart of a crashed process.
 */
module StreamTask {
  import opened Basics
  import opened Changelog
  import opened AtomicRun
  import opened TxProducer
  import opened StateStore
  import opened CommitBuffer
  import opened Ledger
  import opened Schedules

  // How one attempt to process a record ended
  datatype Processed =
    | Succeeded
    | Poisoned                      // failed for good: marked ignored
    | ProducerFault(error: ProducerError)  // to be retried
    | Died

  ghost function Flags(rs: seq<TaskRecord>): (fs: seq<bool>)
    reads rs
    ensures |fs| == |rs|
  {
    seq(|rs|, i requires 0 <= i < |rs| reads rs => rs[i].ignore)
  }

  // The records not marked ignored
  ghost function Live(rs: seq<TaskRecord>): seq<Record>
    reads rs
  {
    Unflagged(Recs(rs), Flags(rs))
  }

  // Marking the live record at `i` ignored drops it, and only it, from the replay
  lemma DroppedFromReplay(p: Processors, bases: Views, recs: seq<Record>, flags: seq<bool>, i: nat, denied: bool,
                          rest: seq<Drop>, kept: seq<Record>) returns (drops: seq<Drop>)
    requires |recs| == |flags| && i < |recs| && !flags[i]
    requires Thins(p, bases, Unflagged(recs, flags[i := true]), rest, kept)
    requires var before := Unflagged(recs[..i], flags[..i]);
             !denied ==>
               && Atomic(p, bases, before).kept == before
               && !p(recs[i], ApplyAll(bases, Atomic(p, bases, before).messages)).ok
    ensures Thins(p, bases, Unflagged(recs, flags), drops, kept)
    ensures DropDenials(drops) == DropDenials(rest) + if denied then 1 else 0
  {
    hide Atomic, ApplyAll;
    UnflaggedSplit(recs, flags, i);
    hide Unflagged;
    var live, before := Unflagged(recs, flags), Unflagged(recs[..i], flags[..i]);
    assert live[..|before|] == before && live[|before|] == recs[i];
    FlaggedOut(recs, flags, i, |before|);
    drops := [Drop(|before|, denied)] + rest;
    assert drops[1..] == rest;
  }

  lemma LiveSucceeds(p: Processors, bases: Views, recs: seq<Record>, flags: seq<bool>, i: nat)
    requires |recs| == |flags| && i < |recs| && !flags[i]
    requires Atomic(p, bases, Unflagged(recs, flags)).kept == Unflagged(recs, flags)
    ensures p(recs[i], ApplyAll(bases, Atomic(p, bases, Unflagged(recs[..i], flags[..i])).messages)).ok
  {
    UnflaggedSplit(recs, flags, i);
    KeptWhole(p, bases, Unflagged(recs[..i], flags[..i]), recs[i], Unflagged(recs[i + 1..], flags[i + 1..]));
  }

  // All of them are among the first n
  ghost predicate TakenFrom(rs: seq<TaskRecord>, records: seq<TaskRecord>, n: nat) {
    n <= |records| && forall r | r in rs :: r in records[..n]
  }

  lemma NoneTaken(records: seq<TaskRecord>)
    ensures TakenFrom([], records, 0)
  {
  }

  lemma TakenStep(rs: seq<TaskRecord>, records: seq<TaskRecord>, n: nat)
    requires TakenFrom(rs, records, n) && n < |records| && Distinct(records)
    ensures records[n] !in rs && TakenFrom(rs, records, n + 1) && TakenFrom(rs + [records[n]], records, n + 1)
  {
    assert records[..n + 1] == records[..n] + [records[n]];
  }

  lemma TakenAll(rs: seq<TaskRecord>, records: seq<TaskRecord>, n: nat)
    requires TakenFrom(rs, records, n)
    ensures forall r | r in rs :: r in records
  {
  }

  // It is one live record less
  lemma FewerLive(recs: seq<Record>, flags: seq<bool>, i: nat)
    requires |recs| == |flags| && i < |recs| && !flags[i]
    ensures |Unflagged(recs, flags[i := true])| < |Unflagged(recs, flags)|
  {
    UnflaggedSplit(recs, flags, i);
    UnflaggedSplit(recs, flags[i := true], i);
    assert flags[i := true][..i] == flags[..i] && flags[i := true][i + 1..] == flags[i + 1..];
  }

  class Task {
    const processors: Processors
    const stores: seq<Store>
    const inputs: Inputs
    var producer: Producer
    var buffer: Buffer
    var position: map<TopicPartition, nat>

    ghost var delivered: seq<Record>    // what was handed to the processors, but for batches that a crash undid
    ghost var verdicts: seq<Verdict>    // what became of each of these
    ghost var deliveredAtCommit: seq<Record>
    ghost var verdictsAtCommit: seq<Verdict>
    ghost var misusedBefore: bool  // a producer of an earlier process was called in a state that forbids it
    ghost var tainted: bool  // an attempt or a flush failed while closing, or a flush after its commit

    // A first start: empty topics, empty stores
    constructor (processors: Processors, stores: seq<Store>, inputs: Inputs)
      requires UsesStores(processors, |stores|) && Distinct(stores) && PartitionLogs(inputs)
      requires forall s | s in stores :: s.BaseView() == map[]
      ensures this.processors == processors && this.stores == stores && this.inputs == inputs
      ensures fresh(producer) && fresh(buffer)
      ensures Recoverable() && !tainted && deliveredAtCommit == [] && buffer.history == [] && Denied() == 0
      ensures producer.cluster == Cluster([], map[], [], map[]) && !producer.misused && !misusedBefore
    {
      this.processors, this.stores, this.inputs := processors, stores, inputs;
      var producer := new Producer(Cluster([], map[], [], map[]), []);
      this.producer := producer;
      buffer := new Buffer(producer, stores, []);
      position := map[];
      delivered, verdicts, deliveredAtCommit, verdictsAtCommit, tainted := [], [], [], [], false;
      misusedBefore := false;
      new;
      forall i | 0 <= i < |stores| ensures Mentions(i, producer.cluster.messages, BaseViewsOf(stores)[i]) {
        assert stores[i] in stores;
      }
    }

    ghost predicate Ready()
      reads this, buffer, producer
    {
      && buffer.producer == producer && buffer.stores == stores
      && buffer.Valid()
      && UsesStores(processors, |stores|)
      && Distinct(buffer.records)
      && PartitionLogs(inputs)
      && position.Keys == inputs.Keys
      && (!buffer.closing ==> !producer.misused)
    }

    ghost function TheBooks(): Books
      reads this, buffer, producer, stores
    {
      Books(buffer.history, Recs(buffer.records), producer.cluster, BaseViewsOf(stores), ViewsOf(stores))
    }

    ghost function TheTrack(): Track
      reads this, buffer, producer, stores
    {
      Track(TheBooks(), position, delivered, verdicts, deliveredAtCommit, verdictsAtCommit)
    }

    // Deliveries lost to refused produces
    ghost function Denied(): nat
      reads this
    {
      if Denials(verdicts) < Denials(verdictsAtCommit) then Denials(verdictsAtCommit) else Denials(verdicts)
    }

    /** Between two events of a run without taint. */
    ghost predicate Exact()
      reads this, buffer, producer, stores, buffer.records
    {
      && producer.InStep() && producer.OpenHolds()
      && (forall r | r in buffer.records :: !r.ignore)
      && Sound(processors, |stores|, inputs, TheTrack())
    }

    // Where the processing loop waits for the next event
    ghost predicate AtHead()
      reads this, buffer, producer, stores, buffer.records
    {
      Ready() && (!buffer.closing ==> producer.InStep()) && (tainted || Exact())
    }

    /** After a crash, wherever it struck. */
    ghost predicate Recoverable()
      reads this, buffer, producer, stores
    {
      Safe(processors, |stores|, inputs, buffer.history, producer.cluster, BaseViewsOf(stores),
           deliveredAtCommit, verdictsAtCommit)
    }

    // One write of the processors: produced, logged before cached, or both in the case of a store write
    method RunEffect(e: Effect) returns (o: Outcome)
      requires producer.Valid() && Distinct(stores) && (!e.Emit? ==> e.store < |stores|)
      modifies producer, stores
      ensures producer.Valid() && producer.inited == old(producer.inited)
      ensures Spends(old(producer.faults), producer.faults)
      ensures (o.Failed? ==> |producer.faults| < |old(producer.faults)|)
      ensures old(producer.InStep()) ==> !producer.misused && (!o.Done? ==> |producer.faults| < |old(producer.faults)|)
      ensures o.Done? ==> producer.txBegin && producer.open && producer.cluster ==
                          old(producer.cluster).(pending := old(producer.cluster).pending + [e])
      ensures o.Done? ==> ViewsOf(stores) == ApplyAll(old(ViewsOf(stores)), [e])
      ensures !o.Done? ==> producer.cluster == old(producer.cluster) && ViewsOf(stores) == old(ViewsOf(stores))
      ensures BaseViewsOf(stores) == old(BaseViewsOf(stores))
      ensures o.Failed? ==> !producer.txBegin && producer.open
      ensures o.Failed? && o.error.Plain? ==> Refusals(producer.faults) < Refusals(old(producer.faults))
      ensures o.Crashed? && old(producer.txBegin) ==> Deadly(old(producer.faults))
      ensures o.Crashed? && old(producer.inited && producer.txBegin == producer.open) ==>
                !Survivable(old(producer.faults))
      ensures old(producer.Steady()) ==>
                && (o.Crashed? <==> !old(producer.txBegin) && !Clear(old(producer.faults), 1))
                && (o.Failed? ==> Clear(producer.faults, 3))
      ensures old(producer.Steady()) && Clear(old(producer.faults), Writes(old(producer.txBegin))) ==>
                o.Done? && producer.faults == After(old(producer.faults), Writes(old(producer.txBegin)))
    {
      hide ApplyAll, Update, Readable, Patch;
      ghost var before := ViewsOf(stores);
      match e {
        case Emit(_, _, _) =>
          o := producer.ProduceAsync(e);
        case Put(id, key, value) =>
          o := stores[id].SetLogged(id, key, value, producer);
        case Remove(id, key) =>
          o := stores[id].DeleteLogged(id, key, producer);
      }
      ApplyOne(before, e);
      assert forall i :: 0 <= i < |stores| && (e.Emit? || i != e.store) ==> ViewsOf(stores)[i] == before[i];
    }

    // One write of `m` that are to come
    method RunNext(e: Effect, ghost m: nat, ghost start: seq<Fault>, ghost late: bool) returns (o: Outcome)
      requires producer.Valid() && Distinct(stores) && (!e.Emit? ==> e.store < |stores|) && m > 0
      requires Spends(start, producer.faults)
      requires late ==> producer.Steady() && Clear(producer.faults, m + 1 + Writes(producer.txBegin))
      modifies producer, stores
      ensures producer.Valid() && producer.inited == old(producer.inited) && Spends(start, producer.faults)
      ensures o.Failed? ==> |producer.faults| < |start|
      ensures old(producer.InStep()) ==> !producer.misused && (!o.Done? ==> |producer.faults| < |start|)
      ensures o.Done? ==> producer.txBegin && producer.open && producer.cluster ==
                          old(producer.cluster).(pending := old(producer.cluster).pending + [e])
      ensures o.Done? ==> ViewsOf(stores) == ApplyAll(old(ViewsOf(stores)), [e])
      ensures !o.Done? ==> producer.cluster == old(producer.cluster) && ViewsOf(stores) == old(ViewsOf(stores))
      ensures BaseViewsOf(stores) == old(BaseViewsOf(stores))
      ensures o.Failed? ==> !producer.txBegin && producer.open
      ensures o.Failed? && o.error.Plain? ==> Refusals(producer.faults) < Refusals(start)
      ensures o.Crashed? && old(producer.txBegin) ==> !Survivable(start)
      ensures o.Crashed? && old(producer.inited && producer.txBegin == producer.open && producer.faults == start) ==>
                !Survivable(start)
      ensures old(producer.inited && producer.txBegin == producer.open) && Mild(start) ==>
                && (o.Crashed? <==> !old(producer.txBegin) && !Clear(old(producer.faults), 1))
                && (o.Failed? ==> Clear(producer.faults, 3))
      ensures late ==> o.Done? && Clear(producer.faults, m + 1)
    {
      hide Spends, ApplyAll, Refusals, Deadly, Survivable, Clear, Mild, After;
      ghost var now := producer.faults;
      StaysMild(start, now);
      if late {
        ClearWrite(now, m, producer.txBegin);
      }
      o := RunEffect(e);
      SpendsNothing(now);
      SpendsTrans(start, now, now);
      SpendsTrans(start, now, producer.faults);
      DeadlyEndsIt(start);
    }

    // The writes of an attempt, one after another; `ran` of them were made before it ended
    method RunEffects(effects: seq<Effect>) returns (o: Outcome, ghost ran: nat)
      requires producer.Valid() && Distinct(stores) && forall e | e in effects :: !e.Emit? ==> e.store < |stores|
      modifies producer, stores
      ensures producer.Valid() && producer.inited == old(producer.inited)
      ensures Spends(old(producer.faults), producer.faults)
      ensures o.Failed? ==> |producer.faults| < |old(producer.faults)|
      ensures old(producer.InStep()) ==>
                && !producer.misused && (!o.Done? ==> |producer.faults| < |old(producer.faults)|)
                && (o.Done? ==> producer.InStep())
      ensures o.Done? && old(producer.txBegin == producer.open) ==> producer.txBegin == producer.open
      ensures o.Done? ==> (producer.txBegin <==> old(producer.txBegin) || effects != [])
      ensures o.Crashed? && old(producer.inited && producer.txBegin == producer.open) ==>
                !Survivable(old(producer.faults))
      ensures old(producer.Steady()) ==>
                && (o.Crashed? <==> effects != [] && !old(producer.txBegin) && !Clear(old(producer.faults), 1))
                && (o.Failed? ==> Clear(producer.faults, 3))
      ensures old(producer.CanWrite()) && o.Done? ==> producer.CanWrite()
      ensures old(producer.Steady()) && Clear(old(producer.faults), |effects| + 3) ==>
                o.Done? && Clear(producer.faults, 2)
      ensures BaseViewsOf(stores) == old(BaseViewsOf(stores))
      ensures ran <= |effects| && (o.Done? ==> ran == |effects|)
      ensures producer.cluster == old(producer.cluster).(pending := old(producer.cluster).pending + effects[..ran])
      ensures ViewsOf(stores) == ApplyAll(old(ViewsOf(stores)), effects[..ran])
      ensures o.Failed? ==> !producer.txBegin && producer.open
      ensures o.Failed? && o.error.Plain? ==> Refusals(producer.faults) < Refusals(old(producer.faults))
    {
      ghost var before, start := ViewsOf(stores), producer.faults;
      SpendsNothing(start);
      hide Spends, ApplyAll, Refusals, Deadly, Survivable, Clear, Mild, After;
      NothingApplied(before);
      ghost var late := producer.Steady() && Clear(start, |effects| + 3);
      if late {
        ClearLess(start, |effects| + 3, |effects| + 1 + Writes(producer.txBegin));
      }
      var i := 0;
      o, ran := Done, 0;
      while i < |effects|
        modifies producer, stores
        invariant i <= |effects| && ran == i && o.Done?
        invariant producer.Valid() && producer.inited == old(producer.inited)
        invariant Spends(start, producer.faults)
        invariant old(producer.InStep()) ==> producer.InStep()
        invariant if i > 0 then producer.txBegin
                  else
                    && producer.faults == start
                    && producer.txBegin == old(producer.txBegin) && producer.open == old(producer.open)
        invariant i > 0 && old(producer.Steady()) ==> old(producer.txBegin) || Clear(start, 1)
        invariant late ==> Clear(producer.faults, |effects| - i + 1 + Writes(producer.txBegin))
        invariant BaseViewsOf(stores) == old(BaseViewsOf(stores))
        invariant producer.cluster == old(producer.cluster).(pending := old(producer.cluster).pending + effects[..i])
        invariant ViewsOf(stores) == ApplyAll(before, effects[..i])
      {
        o := RunNext(effects[i], |effects| - i, start, late);
        if !o.Done? {
          return;
        }
        OneMoreEffect(old(producer.cluster.pending), effects, i);
        ApplyAllConcat(before, effects[..i], [effects[i]]);
        i, ran := i + 1, ran + 1;
      }
      if late {
        ClearLess(producer.faults, 1 + Writes(producer.txBegin), 2);
      }
    }

    // One attempt at a record
    method Process(record: TaskRecord) returns (res: Processed, ghost ran: nat, ghost plain: bool)
      requires producer.Valid() && Distinct(stores) && UsesStores(processors, |stores|)
      modifies record`ignore, producer, stores
      ensures producer.Valid() && producer.inited == old(producer.inited)
      ensures Spends(old(producer.faults), producer.faults)
      ensures res.ProducerFault? ==> |producer.faults| < |old(producer.faults)|
      ensures old(producer.InStep()) ==>
                && !producer.misused
                && (res.Died? ==> |producer.faults| < |old(producer.faults)|)
                && (res.Succeeded? || (res.Poisoned? && !plain) ==> producer.InStep())
      ensures (res.Succeeded? || (res.Poisoned? && !plain)) && old(producer.txBegin == producer.open) ==>
                producer.txBegin == producer.open
      ensures res.Succeeded? || (res.Poisoned? && !plain) ==>
                (producer.txBegin <==>
                 old(producer.txBegin) || processors(record.rec, old(ViewsOf(stores))).effects != [])
      ensures res.Died? && old(producer.inited && producer.txBegin == producer.open) ==>
                !Survivable(old(producer.faults))
      ensures old(producer.Steady()) ==>
                && (res.Died? <==>
                    && processors(record.rec, old(ViewsOf(stores))).effects != []
                    && !old(producer.txBegin) && !Clear(old(producer.faults), 1))
                && (res.ProducerFault? ==> Clear(producer.faults, 3))
                && !plain
      ensures old(producer.Steady())
              && Clear(old(producer.faults), |processors(record.rec, old(ViewsOf(stores))).effects| + 3) ==>
                !res.Died? && !res.ProducerFault? && Clear(producer.faults, 2)
      ensures old(producer.CanWrite()) ==>
                !res.Died? && if res.ProducerFault? then Clear(producer.faults, 3) else producer.CanWrite()
      ensures BaseViewsOf(stores) == old(BaseViewsOf(stores))
      ensures var attempt := processors(record.rec, old(ViewsOf(stores)));
              && ran <= |attempt.effects|
              && producer.cluster ==
                 old(producer.cluster).(pending := old(producer.cluster).pending + attempt.effects[..ran])
              && ViewsOf(stores) == ApplyAll(old(ViewsOf(stores)), attempt.effects[..ran])
              && (res.Succeeded? ==> attempt.ok && ran == |attempt.effects|)
              && (res.Poisoned? && !plain ==> !attempt.ok && ran == |attempt.effects|)
      ensures record.ignore == (old(record.ignore) || res.Poisoned?)
      ensures res.ProducerFault? || plain ==> !producer.txBegin && producer.open
      ensures plain ==> res.Poisoned? && Refusals(producer.faults) < Refusals(old(producer.faults))
    {
      hide Spends, ApplyAll, Refusals, Survivable;
      MildIsHarmless(producer.faults);
      var attempt := processors(record.rec, ViewsOf(stores));
      var o;
      o, ran := RunEffects(attempt.effects);
      plain := false;
      match o {
        case Crashed =>
          res := Died;
        case Failed(e) =>
          plain := e.Plain?;
          res := if e.Plain? then Poisoned else ProducerFault(e);
        case Done =>
          res := if attempt.ok then Succeeded else Poisoned;
      }
      if res.Poisoned? {
        record.ignore := true;
      }
    }

    // --- Replay of the commit buffer ---

    ghost function ToReplay(passed: seq<TaskRecord>): seq<TaskRecord>
      reads this, buffer
    {
      if passed == [] then buffer.records else passed
    }

    // The open transaction and the caches are what the buffered records make of the bases
    ghost predicate Rebuilt(bases: Views, messages: seq<Effect>, offsets: map<TopicPartition, nat>)
      reads this, buffer, producer, stores, buffer.records
    {
      && producer.InStep() && producer.OpenHolds()
      && (forall r | r in buffer.records :: !r.ignore)
      && Atomic(processors, bases, Recs(buffer.records)) == Run(Recs(buffer.records), producer.cluster.pending)
      && producer.cluster.messages == messages && producer.cluster.offsets == offsets
      && producer.cluster.pendingOffsets == map[]
      && BaseViewsOf(stores) == bases
      && ViewsOf(stores) == ApplyAll(bases, producer.cluster.pending)
    }

    // One record of a replay: processed, and buffered if that succeeded
    method ReplayOne(record: TaskRecord, ghost records: seq<TaskRecord>, ghost i: nat,
                     ghost bases: Views, ghost messages: seq<Effect>, ghost offsets: map<TopicPartition, nat>)
      returns (res: Processed, ghost plain: bool)
      requires Ready() && !buffer.closing && Rebuilt(bases, messages, offsets)
      requires Distinct(records) && i < |records| && record == records[i]
      requires !record.ignore && record !in buffer.records
      modifies buffer`records, buffer`offsetMap, producer, stores, record`ignore
      ensures Spends(old(producer.faults), producer.faults)
      ensures res.Died? || res.ProducerFault? ==> |producer.faults| < |old(producer.faults)|
      ensures res.Succeeded? ==> Ready() && Rebuilt(bases, messages, offsets)
      ensures res.Succeeded? ==> buffer.records == old(buffer.records) + [record]
      ensures res.Succeeded? ==> Recs(buffer.records) == old(Recs(buffer.records)) + [record.rec]
      ensures !res.Succeeded? ==> Ready() && buffer.records == old(buffer.records)
      ensures !res.Succeeded? ==> buffer.Unaffected(old(producer.cluster), bases, old(buffer.history))
      ensures Flags(records) == if res.Poisoned? then old(Flags(records))[i := true] else old(Flags(records))
      ensures old(producer.CanWrite()) ==>
                && !res.Died? && (res.Succeeded? ==> producer.CanWrite())
                && (res.ProducerFault? ==> Clear(producer.faults, 3))
      ensures plain ==> res.Poisoned? && Refusals(producer.faults) < Refusals(old(producer.faults))
      ensures res.Poisoned? && !plain ==>
                var before := Atomic(processors, bases, old(Recs(buffer.records)));
                !processors(record.rec, ApplyAll(bases, before.messages)).ok
    {
      hide OffsetsAfter, UsesStores, PartitionLogs, Atomic, Mild, Clear, Producer.CanWrite, Producer.Steady,
        Spends, Refusals;
      ghost var done, pending, rec := Recs(buffer.records), producer.cluster.pending, record.rec;
      ghost var ran;
      res, ran, plain := Process(record);
      if res.Succeeded? {
        ghost var effects := processors(rec, ApplyAll(bases, pending)).effects;
        assert effects[..ran] == effects;
        AtomicSnoc(processors, bases, done, rec);
        ApplyAllConcat(bases, pending, effects);
        buffer.Add(record);
        assert Recs(buffer.records) == done + [rec];
      }
    }

    lemma NothingRebuilt()
      requires buffer.producer == producer && buffer.stores == stores && buffer.records == []
      requires buffer.Fresh() && producer.cluster.Idle() && !producer.misused && ViewsOf(stores) == BaseViewsOf(stores)
      ensures Rebuilt(BaseViewsOf(stores), producer.cluster.messages, producer.cluster.offsets)
    {
      NothingRun(processors, BaseViewsOf(stores));
    }

    lemma RebuiltStands(bases: Views, messages: seq<Effect>, offsets: map<TopicPartition, nat>)
      requires Rebuilt(bases, messages, offsets)
      ensures producer.cluster.messages == messages && producer.cluster.offsets == offsets
      ensures BaseViewsOf(stores) == bases
      ensures Atomic(processors, bases, Recs(buffer.records)).kept == Recs(buffer.records)
    {
    }

    // One pass over the batch into the freshly reset buffer, up to the first failure
    method ReplayPass(records: seq<TaskRecord>) returns (res: Processed, ghost at: nat, ghost plain: bool)
      requires Ready() && !buffer.closing && Distinct(records) && buffer.records == []
      requires buffer.Fresh() && producer.cluster.Idle() && !producer.misused && ViewsOf(stores) == BaseViewsOf(stores)
      modifies buffer`records, buffer`offsetMap, producer, stores, records
      ensures Spends(old(producer.faults), producer.faults)
      ensures res.Died? || res.ProducerFault? ==> |producer.faults| < |old(producer.faults)|
      ensures old(producer.CanWrite()) ==> !res.Died? && (res.ProducerFault? ==> Clear(producer.faults, 3))
      ensures Ready()
      ensures buffer.Unaffected(old(producer.cluster), old(BaseViewsOf(stores)), old(buffer.history))
      ensures forall r | r in buffer.records :: r in records
      ensures res.Succeeded? ==> Flags(records) == old(Flags(records)) && Recs(buffer.records) == old(Live(records))
      ensures res.Succeeded? ==>
                Rebuilt(old(BaseViewsOf(stores)), old(producer.cluster.messages), old(producer.cluster.offsets))
      ensures res.Died? || res.ProducerFault? ==> records != [] && Flags(records) == old(Flags(records))
      ensures res.Poisoned? ==> at < |records| && !old(records[at].ignore)
                                && Flags(records) == old(Flags(records))[at := true]
      ensures plain ==> res.Poisoned? && Refusals(producer.faults) < Refusals(old(producer.faults))
      ensures res.Poisoned? && !plain ==>
                var before := Unflagged(Recs(records)[..at], old(Flags(records))[..at]);
                var bases := old(BaseViewsOf(stores));
                && Atomic(processors, bases, before).kept == before
                && !processors(records[at].rec, ApplyAll(bases, Atomic(processors, bases, before).messages)).ok
    {
      hide Atomic, ApplyAll, OffsetsAfter, UsesStores, PartitionLogs, Unflagged, Spends, Refusals, Distinct, TakenFrom,
        Mild, Clear, Producer.CanWrite, Task.Rebuilt;
      ghost var bases, recs, flags, start := BaseViewsOf(stores), Recs(records), Flags(records), producer.faults;
      NothingRun(processors, bases);
      NothingRebuilt();
      SpendsNothing(start);
      NoneTaken(records);
      var i := 0;
      at, plain := 0, false;
      assert recs[..0] == [] && flags[..0] == [] && Recs(buffer.records) == [];
      assert Unflagged(recs[..0], flags[..0]) == [];
      while i < |records|
        modifies buffer`records, buffer`offsetMap, producer, stores, records
        invariant i <= |records| && !plain
        invariant Ready()
        invariant Flags(records) == flags
        invariant Spends(start, producer.faults)
        invariant old(producer.CanWrite()) ==> producer.CanWrite()
        invariant Rebuilt(bases, old(producer.cluster.messages), old(producer.cluster.offsets))
        invariant Recs(buffer.records) == Unflagged(recs[..i], flags[..i])
        invariant TakenFrom(buffer.records, records, i)
      {
        UnflaggedStep(recs, flags, i);
        TakenStep(buffer.records, records, i);
        RebuiltStands(bases, old(producer.cluster.messages), old(producer.cluster.offsets));
        assert Flags(records)[i] == flags[i];
        if !records[i].ignore {
          ghost var now := producer.faults;
          res, plain := ReplayOne(records[i], records, i, bases,
                                  old(producer.cluster.messages), old(producer.cluster.offsets));
          SpendsTrans(start, now, producer.faults);
          if !res.Succeeded? {
            TakenAll(buffer.records, records, i);
            at := i;
            return;
          }
        }
        i := i + 1;
      }
      TakenAll(buffer.records, records, i);
      RebuiltStands(bases, old(producer.cluster.messages), old(producer.cluster.offsets));
      assert recs[..i] == recs && flags[..i] == flags;
      res := Succeeded;
    }

    // Abort and forget, then one pass over the batch
    method ReplayRound(records: seq<TaskRecord>) returns (res: Processed, ghost at: nat, ghost plain: bool)
      requires Ready() && !buffer.closing && Distinct(records)
      requires forall r | r in buffer.records :: r in records
      modifies buffer`records, buffer`offsetMap, producer, stores, records
      ensures Spends(old(producer.faults), producer.faults)
      ensures res.Died? || res.ProducerFault? ==> |producer.faults| < |old(producer.faults)|
      ensures Mild(old(producer.faults)) && Clear(old(producer.faults), 2) ==>
                !res.Died? && (res.ProducerFault? ==> Clear(producer.faults, 3))
      ensures !res.Died? ==> Ready() && forall r | r in buffer.records :: r in records
      ensures !producer.misused
      ensures buffer.Unaffected(old(producer.cluster), old(BaseViewsOf(stores)), old(buffer.history))
      ensures res.Succeeded? ==> Flags(records) == old(Flags(records)) && Recs(buffer.records) == old(Live(records))
      ensures res.Succeeded? ==>
                Rebuilt(old(BaseViewsOf(stores)), old(producer.cluster.messages), old(producer.cluster.offsets))
      ensures res.ProducerFault? ==> records != [] && Flags(records) == old(Flags(records))
      ensures res.Poisoned? ==> at < |records| && !old(records[at].ignore)
                                && Flags(records) == old(Flags(records))[at := true]
      ensures plain ==> res.Poisoned? && Refusals(producer.faults) < Refusals(old(producer.faults))
      ensures res.Poisoned? && !plain ==>
                var before := Unflagged(Recs(records)[..at], old(Flags(records))[..at]);
                var bases := old(BaseViewsOf(stores));
                && Atomic(processors, bases, before).kept == before
                && !processors(records[at].rec, ApplyAll(bases, Atomic(processors, bases, before).messages)).ok
    {
      hide Mild, Clear;
      var died := buffer.Reset();
      if died {
        return Died, 0, false;
      }
      res, at, plain := ReplayPass(records);
    }

    /**
     Abort, forget, and process again every record not marked ignored; start over at each further
     failure. Terminates: each round uses up a fault or marks a record ignored. A batch of which every
     record succeeds survives errors that are mild.
     */
    method Replay(passed: seq<TaskRecord>) returns (died: bool, ghost drops: seq<Drop>)
      requires Ready() && !buffer.closing && Distinct(ToReplay(passed))
      requires forall r | r in buffer.records :: r in ToReplay(passed)
      modifies buffer`records, buffer`offsetMap, producer, stores, ToReplay(passed)
      ensures (Ready() || died) && !producer.misused
      ensures Spends(old(producer.faults), producer.faults) && (died ==> |producer.faults| < |old(producer.faults)|)
      ensures !died ==> forall r | r in buffer.records :: r in old(ToReplay(passed))
      ensures buffer.Unaffected(old(producer.cluster), old(BaseViewsOf(stores)), old(buffer.history))
      ensures !died ==>
                && Rebuilt(old(BaseViewsOf(stores)), old(producer.cluster.messages), old(producer.cluster.offsets))
                && Thins(processors, old(BaseViewsOf(stores)), old(Live(ToReplay(passed))), drops, Recs(buffer.records))
                && DropDenials(drops) + Refusals(producer.faults) <= Refusals(old(producer.faults))
      ensures Mends(old(producer.faults), old(BaseViewsOf(stores)), old(Live(ToReplay(passed)))) ==> !died
      decreases |producer.faults|, |Live(ToReplay(passed))|
    {
      hide Atomic, ApplyAll, OffsetsAfter, UsesStores, PartitionLogs, Unflagged, Mild, Clear, Task.Mends, Task.Rebuilt,
        Refusals, DropDenials, Spends, Distinct;
      drops := [];
      var records := passed;
      if |records| < 1 {
        records := buffer.records;
      }
      ghost var bases, recs, flags := BaseViewsOf(stores), Recs(records), Flags(records);
      ghost var live, start := Unflagged(recs, flags), producer.faults;
      assert live == Live(ToReplay(passed));
      var res;
      ghost var at, plain;
      MendsNow(start, bases, live);
      NothingDropped();
      res, at, plain := ReplayRound(records);
      SpendsNothing(start);
      SpendsTrans(start, start, producer.faults);
      match res {
        case Died =>
          died := true;
        case Succeeded =>
          died := false;
        case ProducerFault(_) =>
          assert Live(records) == live;
          ghost var left := producer.faults;
          MendsOn(start, left, bases, live);
          died, drops := Replay(records);
          SpendsTrans(start, left, producer.faults);
        case Poisoned =>
          assert Live(records) == Unflagged(recs, flags[at := true]);
          FewerLive(recs, flags, at);
          ghost var left := producer.faults;
          NotWhole(start, Refusals(left), bases, recs, flags, at, plain);
          died, drops := Replay(records);
          SpendsTrans(start, left, producer.faults);
          if !died {
            drops := DroppedFromReplay(processors, bases, recs, flags, at, plain, drops, Recs(buffer.records));
          }
      }
    }

    // A replay goes through: abort and begin succeed, what comes then is mild, and no record fails by itself
    ghost predicate Mends(faults: seq<Fault>, bases: Views, live: seq<Record>) {
      Mild(faults) && Clear(faults, 2) && Atomic(processors, bases, live).kept == live
    }

    lemma MendsNow(faults: seq<Fault>, bases: Views, live: seq<Record>)
      ensures Mends(faults, bases, live) ==> Mild(faults) && Clear(faults, 2)
    {
    }

    lemma MendsOn(faults: seq<Fault>, left: seq<Fault>, bases: Views, live: seq<Record>)
      requires Spends(faults, left)
      ensures Mends(faults, bases, live) && Clear(left, 3) ==> Mends(left, bases, live)
    {
      if Clear(left, 3) {
        ClearLess(left, 3, 2);
      }
    }

    // A batch with a record that fails, or that was denied
    lemma NotWhole(faults: seq<Fault>, refusals: nat, bases: Views, recs: seq<Record>, flags: seq<bool>, at: nat,
                   plain: bool)
      requires |recs| == |flags| && at < |recs| && !flags[at]
      requires plain ==> refusals < Refusals(faults)
      requires !plain ==>
                 !processors(recs[at],
                             ApplyAll(bases, Atomic(processors, bases, Unflagged(recs[..at], flags[..at])).messages)).ok
      ensures !Mends(faults, bases, Unflagged(recs, flags))
    {
      if Mends(faults, bases, Unflagged(recs, flags)) {
        MildIsHarmless(faults);
        LiveSucceeds(processors, bases, recs, flags, at);
      }
    }

    // Replay of the commit buffer
    method ReProcess() returns (died: bool, ghost drops: seq<Drop>)
      requires Ready() && !buffer.closing
      modifies buffer`records, buffer`offsetMap, producer, stores, buffer.records
      ensures !died ==> Ready() && forall r | r in buffer.records :: r in old(buffer.records)
      ensures Spends(old(producer.faults), producer.faults) && (died ==> |producer.faults| < |old(producer.faults)|)
      ensures buffer.Unaffected(old(producer.cluster), old(BaseViewsOf(stores)), old(buffer.history))
      ensures !producer.misused
      ensures !died ==>
                && producer.InStep() && producer.OpenHolds() && (forall r | r in buffer.records :: !r.ignore)
                && Rebatched(processors, old(BaseViewsOf(stores)), old(Live(buffer.records)),
                             old(producer.cluster.messages), old(producer.cluster.offsets), drops,
                             Recs(buffer.records), producer.cluster, ViewsOf(stores))
                && DropDenials(drops) + Refusals(producer.faults) <= Refusals(old(producer.faults))
      ensures died ==> drops == []
      ensures Mends(old(producer.faults), old(BaseViewsOf(stores)), old(Live(buffer.records))) ==> !died
    {
      hide Task.Mends;
      died, drops := Replay([]);
      if died {
        drops := [];
      }
    }

    // --- A flush, and what follows it ---

    // What a flush means for the run: nothing yet, if it failed before the commit
    ghost method NoteFlush(t: Track, o: Outcome, faults: seq<Fault>)
      requires buffer.producer == producer && buffer.stores == stores && Sound(processors, |stores|, inputs, t)
      requires t.position == position && t.delivered == delivered && t.verdicts == verdicts
      requires t.deliveredAtCommit == deliveredAtCommit && t.verdictsAtCommit == verdictsAtCommit
      requires buffer.FlushTold(o, t.books, true, faults) && !producer.misused
      modifies this`deliveredAtCommit, this`verdictsAtCommit
      ensures Recoverable()
      ensures buffer.history == t.books.history ==>
                deliveredAtCommit == old(deliveredAtCommit) && verdictsAtCommit == old(verdictsAtCommit)
      ensures buffer.history != t.books.history ==> deliveredAtCommit == delivered && verdictsAtCommit == verdicts
      ensures o.Done? && t.books.buffered != [] ==> Exact() && buffer.history != t.books.history
      ensures o.Done? && t.books.buffered == [] ==> TheTrack() == t
      ensures o.Failed? && buffer.history == t.books.history ==>
                && buffer.Unaffected(t.books.cluster, t.books.bases, t.books.history)
                && Recs(buffer.records) == t.books.buffered
    {
      hide Sound, Safe, Answer, MetaFails, FailsAfterCommit;
      SoundIsSafe(processors, |stores|, inputs, t);
      assert t.books.buffered != [] ==> t.books.history + t.books.buffered != t.books.history;
      if buffer.history == t.books.history {
        SafeIgnoresPending(processors, |stores|, inputs, buffer.history, t.books.cluster, producer.cluster,
                           t.books.bases, deliveredAtCommit, verdictsAtCommit);
      } else {
        deliveredAtCommit, verdictsAtCommit := delivered, verdicts;
        if o.Done? {
          var t' := SoundAfterCommit(processors, |stores|, inputs, t, producer.cluster);
          assert TheTrack() == t';
          SoundIsSafe(processors, |stores|, inputs, t');
        } else {
          SafeAfterCommit(processors, |stores|, inputs, t, producer.cluster, BaseViewsOf(stores));
        }
      }
    }

    // The replay after a flush that was undone
    ghost method NoteReplay(t: Track, died: bool, drops: seq<Drop>)
      requires buffer.producer == producer && buffer.stores == stores && Sound(processors, |stores|, inputs, t)
      requires t.position == position && t.delivered == delivered && t.verdicts == verdicts
      requires t.deliveredAtCommit == deliveredAtCommit && t.verdictsAtCommit == verdictsAtCommit
      requires buffer.Unaffected(t.books.cluster, t.books.bases, t.books.history)
      requires !died ==>
                 && producer.InStep() && producer.OpenHolds() && (forall r | r in buffer.records :: !r.ignore)
                 && Rebatched(processors, t.books.bases, t.books.buffered,
                              t.books.cluster.messages, t.books.cluster.offsets,
                              drops, Recs(buffer.records), producer.cluster, ViewsOf(stores))
      modifies this`verdicts
      ensures if died then Recoverable() && verdicts == old(verdicts)
              else Exact() && Denials(verdicts) == Denials(t.verdicts) + DropDenials(drops)
                   && (DropDenials(drops) == 0 ==> Recs(buffer.records) == t.books.buffered)
    {
      hide Sound, Safe, Rebatched;
      if died {
        SoundIsSafe(processors, |stores|, inputs, t);
        SafeIgnoresPending(processors, |stores|, inputs, buffer.history, t.books.cluster, producer.cluster,
                           t.books.bases, deliveredAtCommit, verdictsAtCommit);
      } else {
        var t' := SoundAfterReplay(processors, |stores|, inputs, t, drops,
                                   Recs(buffer.records), producer.cluster, ViewsOf(stores));
        verdicts := t'.verdicts;
        assert TheTrack() == t';
      }
    }

    // The committed batch is in the buffer once more, replayed on bases of which some have it already
    ghost predicate Repeated(before: Books, drops: seq<Drop>)
      reads this, buffer, producer, stores, buffer.stores, buffer.producer
    {
      && producer.cluster.messages == before.cluster.messages + before.cluster.pending
      && buffer.history == before.history + before.buffered
      && buffer.PartlyFlushed(before.bases, before.views)
      && Rebatched(processors, BaseViewsOf(stores), before.buffered,
                   producer.cluster.messages, producer.cluster.offsets,
                   drops, Recs(buffer.records), producer.cluster, ViewsOf(stores))
    }

    // What became of a tick
    ghost predicate TickTold(before: Books, wasTainted: bool, wereDenials: nat, faults: seq<Fault>, died: bool,
                             drops: seq<Drop>)
      reads this, buffer, producer, stores, buffer.stores, buffer.producer
    {
      && (tainted && !wasTainted ==>
            buffer.closing || (Repeats(faults) && buffer.history == before.history + before.buffered))
      && (tainted && !wasTainted && !buffer.closing && !died ==> Repeated(before, drops))
      && (!tainted && !died && Refusals(faults) == 0 ==> Denials(verdicts) == wereDenials)
      && (!tainted && !died && Denials(verdicts) == wereDenials ==>
            || (buffer.history == before.history + before.buffered && Recs(buffer.records) == [])
            || (buffer.history == before.history && Recs(buffer.records) == before.buffered))
      && (!wasTainted && faults == [] ==>
            && !tainted && !died && Denials(verdicts) == wereDenials
            && buffer.history == before.history + before.buffered && Recs(buffer.records) == []
            && ViewsOf(stores) == before.views)
      && (!wasTainted && !buffer.closing && before.buffered != [] && before.cluster.pending != [] && stores != []
          && FailsAfterCommit(faults) ==>
            tainted && (|faults| == 4 ==> !died))
    }

    lemma TickMild(before: Books, wereDenials: nat, faults: seq<Fault>, died: bool, drops: seq<Drop>)
      requires TickTold(before, false, wereDenials, faults, died, drops) && !buffer.closing && !Repeats(faults)
      ensures !tainted
    {
    }

    // A tick whose flush succeeded, or during which the process died
    lemma TickFlushed(o: Outcome, before: Books, wereDenials: nat, faults: seq<Fault>, wasTainted: bool)
      requires buffer.producer == producer && buffer.stores == stores && tainted == wasTainted
      requires !wasTainted ==> buffer.FlushTold(o, before, true, faults) && Denials(verdicts) == wereDenials
      requires o.Done? || (o.Crashed? && (wasTainted || faults != []))
      ensures TickTold(before, wasTainted, wereDenials, faults, o.Crashed?, [])
    {
      hide Answer, MetaFails, FailsAfterCommit, Rebatched, ApplyAll;
    }

    // A tick whose flush failed while the buffer was closing
    lemma TickClosing(o: Outcome, before: Books, wereDenials: nat, faults: seq<Fault>, wasTainted: bool)
      requires buffer.producer == producer && buffer.stores == stores && tainted && buffer.closing
      requires !wasTainted ==> faults != []
      requires !wasTainted ==> o.Failed? && buffer.FlushTold(o, before, true, faults)
      ensures TickTold(before, wasTainted, wereDenials, faults, false, [])
    {
      hide Answer, MetaFails, FailsAfterCommit, Rebatched, ApplyAll;
    }

    // A tick whose flush failed, after which the batch was replayed or the process died
    lemma TickReplayed(before: Books, wereDenials: nat, faults: seq<Fault>, wasTainted: bool, committed: bool,
                       died: bool, drops: seq<Drop>)
      requires !buffer.closing && (wasTainted || faults != []) && tainted == (wasTainted || committed)
      requires committed && !wasTainted ==>
                 && Repeats(faults) && buffer.history == before.history + before.buffered
                 && (!died ==> Repeated(before, drops))
                 && (before.cluster.pending != [] && stores != [] && FailsAfterCommit(faults) && |faults| == 4 ==>
                       !died)
      requires !committed && !wasTainted ==>
                 && buffer.history == before.history
                 && (before.cluster.pending != [] && stores != [] ==> !FailsAfterCommit(faults))
                 && (!died && Refusals(faults) == 0 ==> Denials(verdicts) == wereDenials)
                 && (!died && Denials(verdicts) == wereDenials ==> Recs(buffer.records) == before.buffered)
      ensures TickTold(before, wasTainted, wereDenials, faults, died, drops)
    {
      hide Answer, MetaFails, FailsAfterCommit, Rebatched, ApplyAll, Repeated, Refusals;
    }

    // A replay of an exact batch goes through
    lemma BatchMends(t: Track, faults: seq<Fault>)
      requires Sound(processors, |stores|, inputs, t) && Mild(faults) && Clear(faults, 2)
      ensures Mends(faults, t.books.bases, t.books.buffered)
    {
      BatchOnBases(processors, |stores|, t.books);
    }

    lemma LongerBatchMends(t: Track, r: Record, faults: seq<Fault>)
      requires Sound(processors, |stores|, inputs, t) && processors(r, t.books.views).ok
      requires Mild(faults) && Clear(faults, 3)
      ensures Mends(faults, t.books.bases, t.books.buffered + [r])
    {
      BatchOnBases(processors, |stores|, t.books);
      AtomicSnoc(processors, t.books.bases, t.books.buffered, r);
      ClearLess(faults, 3, 2);
    }

    // What a failed flush tells that found an exact run
    lemma FailedFlush(o: Outcome, before: Books, faults: seq<Fault>)
      requires buffer.producer == producer && buffer.stores == stores
      requires o.Failed? && buffer.FlushTold(o, before, true, faults)
      ensures Recs(buffer.records) == before.buffered && before.buffered != []
      ensures buffer.history == before.history ==>
                buffer.Unaffected(before.cluster, before.bases, before.history)
                && (before.cluster.pending != [] && stores != [] ==> !FailsAfterCommit(faults))
      ensures buffer.history != before.history ==>
                && Repeats(faults)
                && buffer.Committed(before.cluster, before.buffered, before.history)
                && buffer.PartlyFlushed(before.bases, before.views)
                && (before.cluster.pending != [] && stores != [] && FailsAfterCommit(faults) ==>
                      |producer.faults| + 4 <= |faults|)
    {
      hide Answer, MetaFails, FailsAfterCommit;
      assert before.buffered != [] ==> before.history + before.buffered != before.history;
    }

    // What its replay goes over
    lemma FailedBatch(o: Outcome, t: Track, faults: seq<Fault>)
      requires buffer.producer == producer && buffer.stores == stores && Sound(processors, |stores|, inputs, t)
      requires o.Failed? && buffer.FlushTold(o, t.books, true, faults) && Spends(faults, producer.faults)
      requires forall r | r in buffer.records :: !r.ignore
      ensures Live(buffer.records) == t.books.buffered && Refusals(producer.faults) <= Refusals(faults)
      ensures Mild(faults) ==> buffer.history == t.books.history
      ensures Mild(faults) && Clear(producer.faults, 2) ==> Mends(producer.faults, t.books.bases, t.books.buffered)
    {
      hide Sound, Mild, Clear, Task.Mends, Buffer.FlushTold, Spends, Refusals;
      FailedFlush(o, t.books, faults);
      NothingFlagged(Recs(buffer.records), Flags(buffer.records));
      StaysMild(faults, producer.faults);
      MildIsHarmless(faults);
      if Mild(faults) && Clear(producer.faults, 2) {
        BatchMends(t, producer.faults);
      }
    }

    /** After a failed flush the buffer is replayed, unless it is closing. */
    method AfterFailedFlush(ghost t: Track, ghost o: Outcome, ghost inStep: bool, ghost faults: seq<Fault>)
      returns (died: bool, ghost drops: seq<Drop>)
      requires Ready() && o.Failed? && buffer.FlushTold(o, t.books, inStep, faults) && Spends(faults, producer.faults)
      requires !tainted ==>
                 && inStep && |producer.faults| < |faults|
                 && (forall r | r in buffer.records :: !r.ignore)
                 && Recoverable() && Sound(processors, |stores|, inputs, t)
                 && t.position == position && t.delivered == delivered && t.verdicts == verdicts
                 && (buffer.history == t.books.history ==>
                       t.deliveredAtCommit == deliveredAtCommit && t.verdictsAtCommit == verdictsAtCommit)
      modifies this`tainted, this`verdicts, buffer`records, buffer`offsetMap, producer, stores, buffer.records
      ensures Spends(old(producer.faults), producer.faults)
      ensures !died ==> AtHead() && forall r | r in buffer.records :: r in old(buffer.records)
      ensures died ==> tainted || Recoverable()
      ensures old(tainted) ==> tainted
      ensures !buffer.closing ==> !producer.misused
      ensures Denials(verdicts) <= old(Denials(verdicts)) + Refusals(old(producer.faults))
      ensures TickTold(t.books, old(tainted), old(Denials(verdicts)), faults, died, drops)
      ensures DropDenials(drops) <= Refusals(old(producer.faults))
      ensures !old(tainted) && Mild(faults) && Clear(old(producer.faults), 2) ==> !died
      ensures buffer.closing ==>
                !died && buffer.FlushTold(o, t.books, inStep, faults) && buffer.records == old(buffer.records)
    {
      hide Sound, Safe, OffsetsAfter, UsesStores, PartitionLogs, Distinct, Spends, Answer, MetaFails, FailsAfterCommit,
        Thins, Denials, Refusals, Task.TickTold, Task.Recoverable, Buffer.FlushTold, Rebatched, Repeats,
        Mild, Clear, Lethal, Task.Mends, DropDenials, Recs, Flags, Live;
      ghost var wasTainted, were, committed := tainted, Denials(verdicts), buffer.history != t.books.history;
      died, drops := false, [];
      NothingDropped();
      SpendsNothing(producer.faults);
      if !tainted {
        FailedFlush(o, t.books, faults);
        FailedBatch(o, t, faults);
      }
      if committed || buffer.closing {
        tainted := true;
      }
      if buffer.closing {
        TickClosing(o, t.books, were, faults, wasTainted);
      } else {
        died, drops := ReProcess();
        if !tainted {
          NoteReplay(t, died, drops);
        }
        TickReplayed(t.books, were, faults, wasTainted, committed, died, drops);
      }
    }

    /**
     The flush timer fired. Outside of closing the whole batch commits, or everything is as before, or
     the process dies; or the flush failed after its commit, and the batch is there once more.
     */
    method OnTick() returns (died: bool, ghost o: Outcome, ghost drops: seq<Drop>)
      requires AtHead()
      modifies this, buffer, producer, stores, buffer.records
      ensures buffer == old(buffer) && producer == old(producer) && position == old(position)
      ensures delivered == old(delivered) && misusedBefore == old(misusedBefore)
      ensures buffer.closing == old(buffer.closing) && Spends(old(producer.faults), producer.faults)
      ensures !died ==> AtHead() && forall r | r in buffer.records :: r in old(buffer.records)
      ensures died ==> tainted || Recoverable()
      ensures old(tainted) ==> tainted
      ensures !buffer.closing ==> !producer.misused
      ensures Denied() <= old(Denied()) + Refusals(old(producer.faults))
      ensures TickTold(old(TheBooks()), old(tainted), old(Denials(verdicts)), old(producer.faults), died, drops)
      ensures DropDenials(drops) <= Refusals(old(producer.faults))
      ensures o.Done? || buffer.closing ==>
                buffer.FlushTold(o, old(TheBooks()), old(producer.InStep()), old(producer.faults))
      ensures !buffer.closing && old(producer.faults) == [] ==> o.Done?
      // of mild errors the process dies in a transaction that cannot be begun, and in nothing else
      ensures !old(tainted || buffer.closing) && Mild(old(producer.faults)) ==>
                && !tainted
                && (died <==> && old(buffer.records != [] && producer.cluster.pending == [])
                              && Clear(old(producer.faults), 1) && !Clear(old(producer.faults), 2))
      ensures old(buffer.records != [] && producer.txBegin) ==>
                var faults := old(producer.faults);
                && (o.Crashed? ==> Lethal(faults)) && (o.Done? ==> GoesThrough(faults))
                && (GoesThrough(faults) && !Lethal(faults) && !Repeats(faults) ==> o.Done?)
      ensures buffer.closing ==>
                && (died <==> o.Crashed?)
                && (old(producer.txBegin == producer.open && producer.faults == []) ==>
                      o.Done? && producer.txBegin == producer.open)
                && (buffer.records == [] || buffer.records == old(buffer.records))
                && (o.Done? && old(buffer.records) != [] ==> old(producer.txBegin || !producer.open))
    {
      hide Sound, Safe, OffsetsAfter, UsesStores, PartitionLogs, Distinct, Spends, Answer, MetaFails, FailsAfterCommit,
        Thins, Denials, Refusals, Recs, Rebatched, Task.TickTold, Task.Repeated, Task.Recoverable, Task.AtHead,
        Task.Ready, Task.Exact, Buffer.FlushTold, Mild, Clear, Lethal, Repeats, GoesThrough;
      ghost var t, start, wasTainted, were := TheTrack(), producer.faults, tainted, Denials(verdicts);
      ghost var inStep := producer.InStep();
      HeadIsExact();
      MildIsHarmless(start);
      drops := [];
      var outcome := FlushAndNote();
      o := outcome;
      died := outcome.Crashed?;
      if outcome.Failed? {
        ghost var flushed := producer.faults;
        died, drops := AfterFailedFlush(t, o, inStep, start);
        SpendsTrans(start, flushed, producer.faults);
      } else {
        TickFlushed(o, t.books, were, start, wasTainted);
      }
      if !wasTainted && !buffer.closing && Mild(start) {
        TickMild(t.books, were, start, died, drops);
      }
    }

    lemma HeadIsExact()
      requires AtHead()
      ensures buffer.producer == producer && buffer.stores == stores
      ensures !buffer.closing ==> producer.InStep()
      ensures !tainted ==> producer.InStep() && Sound(processors, |stores|, inputs, TheTrack())
      ensures !tainted ==> (producer.txBegin <==> producer.cluster.pending != [])
    {
    }

    // A flush, and what it settles of an exact run
    method FlushAndNote() returns (o: Outcome)
      requires AtHead()
      modifies this`deliveredAtCommit, this`verdictsAtCommit, buffer, producer, stores
      ensures Ready() && buffer.closing == old(buffer.closing) && (!buffer.closing ==> !producer.misused)
      ensures Spends(old(producer.faults), producer.faults)
      ensures old(producer.InStep()) && !o.Done? ==> |producer.faults| < |old(producer.faults)|
      ensures old(producer.txBegin == producer.open && producer.faults == []) ==>
                o.Done? && producer.txBegin == producer.open
      ensures buffer.records == [] || buffer.records == old(buffer.records)
      ensures o.Done? ==> AtHead() && (old(buffer.records) != [] ==> old(producer.txBegin || !producer.open))
      ensures buffer.FlushTold(o, old(TheBooks()), old(producer.InStep()), old(producer.faults))
      ensures if old(buffer.records) != [] then
                buffer.Answered(o, old(producer.txBegin), old(producer.Steady()), old(producer.faults))
              else o.Done?
      ensures !tainted ==> Recoverable() && forall r | r in buffer.records :: !r.ignore
      ensures !tainted && buffer.history == old(buffer.history) ==>
                deliveredAtCommit == old(deliveredAtCommit) && verdictsAtCommit == old(verdictsAtCommit)
      ensures Denied() <= old(Denied())
    {
      hide Sound, Safe, OffsetsAfter, UsesStores, PartitionLogs, Distinct, Spends, Answer, MetaFails, FailsAfterCommit,
        Denials, Refusals, Recs, Task.Recoverable, Buffer.FlushTold, Buffer.Answered, Mild, Clear;
      ghost var t, start := TheTrack(), producer.faults;
      assert buffer.TheBooks() == t.books;
      o := buffer.Flush();
      DistinctNothing();
      if !tainted {
        NoteFlush(t, o, start);
      }
    }

    // --- An arrival ---

    // The replay after a failed attempt at `r`, which is left out if it was marked ignored
    ghost method NoteArrivalReplay(t: Track, t': Track, tp: TopicPartition, r: Record, flagged: bool, plain: bool,
                                   died: bool, drops: seq<Drop>)
      requires buffer.producer == producer && buffer.stores == stores && Sound(processors, |stores|, inputs, t)
      requires t' == Track(t.books, position, delivered, verdicts, deliveredAtCommit, verdictsAtCommit)
      requires Arrives(inputs, t, tp, r, t')
      requires (flagged ==> plain || !processors(r, t.books.views).ok) && (plain ==> flagged)
      requires buffer.Unaffected(t.books.cluster, t.books.bases, t.books.history)
      requires !died ==>
                 && producer.InStep() && producer.OpenHolds() && (forall x | x in buffer.records :: !x.ignore)
                 && Rebatched(processors, t.books.bases, if flagged then t.books.buffered else t.books.buffered + [r],
                              t.books.cluster.messages, t.books.cluster.offsets,
                              drops, Recs(buffer.records), producer.cluster, ViewsOf(stores))
      modifies this`verdicts
      ensures died ==> Recoverable() && verdicts == old(verdicts)
      ensures !died ==>
                Exact() && Denials(verdicts) == Denials(t.verdicts) + DropDenials(drops) + if plain then 1 else 0
      ensures !died && Denials(verdicts) == Denials(t.verdicts) ==>
                Recs(buffer.records) == t.books.buffered + (if processors(r, t.books.views).ok then [r] else [])
    {
      hide Sound, Safe, Rebatched, Arrives;
      ArrivesCounts(inputs, t, tp, r, t');
      if died {
        SoundIsSafe(processors, |stores|, inputs, t);
        SafeIgnoresPending(processors, |stores|, inputs, buffer.history, t.books.cluster, producer.cluster,
                           t.books.bases, deliveredAtCommit, verdictsAtCommit);
      } else {
        var after := ArrivalReplayed(processors, |stores|, inputs, t, tp, r, t', flagged, plain, drops,
                                     Recs(buffer.records), producer.cluster, ViewsOf(stores));
        verdicts := after.verdicts;
        assert TheTrack() == after;
      }
    }

    // A record taken from the channel
    method OnArrive(tp: TopicPartition) returns (died: bool)
      requires AtHead()
      modifies this, buffer, producer, stores, buffer.records
      ensures buffer == old(buffer) && producer == old(producer) && buffer.closing == old(buffer.closing)
      ensures misusedBefore == old(misusedBefore)
      ensures Spends(old(producer.faults), producer.faults)
      ensures !died ==> AtHead() && forall x | x in buffer.records :: x in old(buffer.records) || fresh(x)
      ensures died ==> tainted || Recoverable()
      ensures old(tainted) ==> tainted
      ensures !buffer.closing ==> !producer.misused
      ensures Denied() <= old(Denied()) + Refusals(old(producer.faults))
      ensures buffer.history == old(buffer.history)
      ensures old(buffer.closing && producer.txBegin == producer.open) && Survivable(old(producer.faults)) ==> !died
      ensures old(buffer.closing && producer.txBegin == producer.open && producer.faults == []) ==>
                producer.txBegin == producer.open
      // of mild errors, and a record that succeeds, the process dies where that cannot begin its transaction; and of
      // none that come after all its writes, and an abort and a begin, whether it succeeds or not
      ensures old(NextOf(tp)).Some? && !old(tainted || buffer.closing) && Mild(old(producer.faults)) ==>
                var r, views := old(NextOf(tp)).value, old(ViewsOf(stores));
                && (processors(r, views).ok ==>
                      (died <==> StopsAtBegin(r, views, old(producer.cluster.pending) != [], old(producer.faults))))
                && (Clear(old(producer.faults), |processors(r, views).effects| + 3) ==> !died)
      ensures old(NextOf(tp)).None? ==>
                && !died && tainted == old(tainted)
                && buffer.records == old(buffer.records) && position == old(position) && delivered == old(delivered)
                && TheBooks() == old(TheBooks())
      ensures old(NextOf(tp)).Some? ==>
                && position == old(position)[tp := old(position)[tp] + 1]
                && delivered == old(delivered) + [old(NextOf(tp)).value]
                && Handled(old(NextOf(tp)).value, old(TheBooks()), old(tainted), old(Denials(verdicts)),
                           old(producer.faults), died)
    {
      hide Sound, Safe, OffsetsAfter, UsesStores, PartitionLogs, Distinct, Handled, Spends, Denials, Refusals, Recs,
        Survivable, Mild, Clear, Task.Taking, Task.Recoverable, Task.StopsAtBegin;
      died := false;
      if tp !in inputs || position[tp] >= |inputs[tp]| {
        SpendsNothing(producer.faults);
        return;
      }
      var record;
      ghost var t;
      record, t := Take(tp);
      died := Handle(record, t, TheTrack(), tp);
    }

    // The consumer hands its next record over
    method Take(tp: TopicPartition) returns (record: TaskRecord, ghost t: Track)
      requires AtHead() && position.Keys == inputs.Keys && NextOf(tp).Some?
      modifies this`position, this`delivered, this`verdicts
      ensures fresh(record) && record.rec == old(NextOf(tp)).value && !record.ignore
      ensures Ready() && t == old(TheTrack()) && TheBooks() == t.books && Taking(t, TheTrack(), tp, record.rec)
      ensures position == old(position)[tp := old(position)[tp] + 1] && delivered == old(delivered) + [record.rec]
      ensures Denials(verdicts) == old(Denials(verdicts))
    {
      hide Sound, Safe, OffsetsAfter, UsesStores, PartitionLogs, Distinct, Denials, Recs, Task.Recoverable;
      record := new TaskRecord(inputs[tp][position[tp]]);
      t := TheTrack();
      position := position[tp := position[tp] + 1];
      delivered, verdicts := delivered + [record.rec], verdicts + [Kept];
      DeliveryDenies(t.verdicts);
    }

    // What became of an arrival
    ghost predicate Handled(r: Record, before: Books, wasTainted: bool, wereDenials: nat, faults: seq<Fault>,
                            died: bool)
      reads this, buffer, producer, stores
    {
      var attempt := processors(r, before.views);
      && (tainted && !wasTainted ==> buffer.closing)
      && (!wasTainted && faults == [] ==> !died && (!tainted ==> Denials(verdicts) == wereDenials))
      && (!wasTainted && buffer.closing && Survivable(faults) ==> !died)
      && (!tainted && !died && Refusals(faults) == 0 ==> Denials(verdicts) == wereDenials)
      && (!tainted && !died && Denials(verdicts) == wereDenials ==>
            Recs(buffer.records) == before.buffered + (if attempt.ok then [r] else []))
      && producer.cluster.messages == before.cluster.messages && producer.cluster.offsets == before.cluster.offsets
      && BaseViewsOf(stores) == before.bases
      && (attempt.ok && faults == [] && !wasTainted ==>
            && !tainted
            && producer.cluster == before.cluster.(pending := before.cluster.pending + attempt.effects)
            && ViewsOf(stores) == ApplyAll(before.views, attempt.effects))
      // replay is skipped while closing: what a failing record wrote stays in the transaction and in the caches
      && (buffer.closing && !died ==>
            && Recs(buffer.records) == before.buffered + [r] && buffer.history == before.history
            && producer.cluster.pendingOffsets == before.cluster.pendingOffsets
            && (|| (producer.open && !producer.txBegin)
                || (&& (tainted <==> wasTainted || !attempt.ok)
                    && producer.cluster == before.cluster.(pending := before.cluster.pending + attempt.effects)
                    && ViewsOf(stores) == ApplyAll(before.views, attempt.effects))))
      && (buffer.closing && !wasTainted && faults == [] ==> producer.InStep())
    }

    // The attempt ended after `ran` writes
    ghost predicate Attempted(res: Processed, ran: nat, plain: bool, r: Record, before: Books)
      reads this, producer, stores
    {
      var attempt := processors(r, before.views);
      && ran <= |attempt.effects|
      && producer.cluster == before.cluster.(pending := before.cluster.pending + attempt.effects[..ran])
      && BaseViewsOf(stores) == before.bases && ViewsOf(stores) == ApplyAll(before.views, attempt.effects[..ran])
      && (res.Succeeded? ==> attempt.ok && ran == |attempt.effects|)
      && (res.Poisoned? && !plain ==> !attempt.ok && ran == |attempt.effects|)
    }

    lemma WholeAttempt(res: Processed, ran: nat, plain: bool, r: Record, before: Books)
      requires Attempted(res, ran, plain, r, before) && (res.Succeeded? || (res.Poisoned? && !plain))
      ensures var attempt := processors(r, before.views);
              && attempt.ok == res.Succeeded?
              && producer.cluster == before.cluster.(pending := before.cluster.pending + attempt.effects)
              && ViewsOf(stores) == ApplyAll(before.views, attempt.effects)
    {
      var effects := processors(r, before.views).effects;
      assert effects[..|effects|] == effects;
    }

    lemma DiedTold(r: Record, before: Books, wasTainted: bool, were: nat, faults: seq<Fault>)
      requires tainted == wasTainted && (wasTainted || (faults != [] && !(buffer.closing && Survivable(faults))))
      requires producer.cluster.messages == before.cluster.messages
      requires producer.cluster.offsets == before.cluster.offsets
      requires BaseViewsOf(stores) == before.bases
      ensures Handled(r, before, wasTainted, were, faults, true)
    {
    }

    lemma SuccessTold(r: Record, before: Books, wasTainted: bool, were: nat, faults: seq<Fault>)
      requires tainted == wasTainted
      requires var attempt := processors(r, before.views);
               && attempt.ok && BaseViewsOf(stores) == before.bases
               && producer.cluster == before.cluster.(pending := before.cluster.pending + attempt.effects)
               && ViewsOf(stores) == ApplyAll(before.views, attempt.effects)
      requires Recs(buffer.records) == before.buffered + [r]
      requires (!tainted ==> Denials(verdicts) == were && producer.InStep())
      requires buffer.history == before.history
      ensures Handled(r, before, wasTainted, were, faults, false)
    {
      hide ApplyAll;
    }

    lemma FailureTold(res: Processed, ran: nat, plain: bool, r: Record, before: Books, wasTainted: bool, were: nat,
                      faults: seq<Fault>, died: bool)
      requires tainted == (wasTainted || buffer.closing) && (buffer.closing ==> !died)
      requires producer.cluster.messages == before.cluster.messages
      requires producer.cluster.offsets == before.cluster.offsets
      requires BaseViewsOf(stores) == before.bases
      requires !wasTainted && faults == [] ==>
                 && !died && res.Poisoned? && !plain && !processors(r, before.views).ok
                 && (if buffer.closing then producer.InStep() else Denials(verdicts) == were)
      requires buffer.closing ==>
                 && Recs(buffer.records) == before.buffered + [r] && buffer.history == before.history
                 && producer.cluster.pendingOffsets == before.cluster.pendingOffsets
                 && ((producer.open && !producer.txBegin)
                     || (res.Poisoned? && !plain && Attempted(res, ran, plain, r, before)))
      requires !tainted && !died && Refusals(faults) == 0 ==> Denials(verdicts) == were
      requires !tainted && !died && Denials(verdicts) == were ==>
                 Recs(buffer.records) == before.buffered + (if processors(r, before.views).ok then [r] else [])
      ensures Handled(r, before, wasTainted, were, faults, died)
    {
      if buffer.closing && !(producer.open && !producer.txBegin) {
        WholeAttempt(res, ran, plain, r, before);
      }
      hide ApplyAll, Refusals;
    }

    // The run an arrival finds, and the record with it
    ghost predicate Taking(t: Track, t': Track, tp: TopicPartition, r: Record)
      reads this
    {
      && t' == Track(t.books, position, delivered, verdicts, deliveredAtCommit, verdictsAtCommit)
      && Denials(verdicts) == Denials(t.verdicts)
      && (!tainted ==> Sound(processors, |stores|, inputs, t) && Arrives(inputs, t, tp, r, t'))
    }

    // Its first write finds no transaction, and cannot begin one
    ghost predicate StopsAtBegin(r: Record, views: Views, begun: bool, faults: seq<Fault>) {
      processors(r, views).effects != [] && !begun && !Clear(faults, 1)
    }

    // One attempt, as the loop makes it
    method Try(record: TaskRecord, ghost before: Books) returns (res: Processed, ghost ran: nat, ghost plain: bool)
      requires Ready() && (!buffer.closing ==> producer.InStep()) && before == TheBooks() && !record.ignore
      modifies record`ignore, producer, stores
      ensures Ready() || res.Died?
      ensures Attempted(res, ran, plain, record.rec, before) && Spends(old(producer.faults), producer.faults)
      ensures !buffer.closing ==> !producer.misused && (!res.Died? ==> producer.InStep() || !res.Succeeded?)
      ensures old(producer.InStep()) ==>
                && (res.Died? || res.ProducerFault? ==> |producer.faults| < |old(producer.faults)|)
                && (res.Succeeded? || (res.Poisoned? && !plain) ==> producer.InStep())
      ensures res.Died? && old(producer.txBegin == producer.open) ==> !Survivable(old(producer.faults))
      ensures old(producer.txBegin == producer.open && producer.faults == []) ==> producer.txBegin == producer.open
      ensures (res.Succeeded? || (res.Poisoned? && !plain)) && old(producer.OpenHolds()) ==>
                producer.InStep() ==> producer.OpenHolds()
      ensures res.ProducerFault? || plain ==> !producer.txBegin && producer.open
      ensures res.Poisoned? && !plain ==> !processors(record.rec, before.views).ok
      ensures old(producer.Steady()) ==>
                && (res.Died? <==> StopsAtBegin(record.rec, before.views, old(producer.txBegin), old(producer.faults)))
                && (res.ProducerFault? ==> Clear(producer.faults, 3)) && !plain
                && (Clear(old(producer.faults), |processors(record.rec, before.views).effects| + 3) ==>
                      !res.Died? && !res.ProducerFault? && Clear(producer.faults, 2))
      ensures plain ==> res.Poisoned? && Refusals(producer.faults) < Refusals(old(producer.faults))
      ensures record.ignore == res.Poisoned?
      ensures |producer.faults| <= |old(producer.faults)| && Refusals(producer.faults) <= Refusals(old(producer.faults))
    {
      hide OffsetsAfter, UsesStores, PartitionLogs, Distinct, Atomic, ApplyAll, Refusals, Mild, Clear;
      res, ran, plain := Process(record);
    }

    method Handle(record: TaskRecord, ghost t: Track, ghost t': Track, ghost tp: TopicPartition) returns (died: bool)
      requires Ready() && !record.ignore && (!buffer.closing ==> producer.InStep())
      requires t.books == TheBooks() && Taking(t, t', tp, record.rec)
      requires buffer.producer == producer && buffer.stores == stores
      requires !tainted ==> producer.InStep() && producer.OpenHolds() && forall x | x in buffer.records :: !x.ignore
      modifies this`verdicts, this`tainted, buffer, producer, stores, buffer.records
      ensures buffer.closing == old(buffer.closing)
      ensures Spends(old(producer.faults), producer.faults)
      ensures !died ==> AtHead() && forall x | x in buffer.records :: x in old(buffer.records) || fresh(x)
      ensures died ==> tainted || Recoverable()
      ensures old(tainted) ==> tainted
      ensures !buffer.closing ==> !producer.misused
      ensures Denials(verdicts) <= old(Denials(verdicts)) + Refusals(old(producer.faults))
      ensures buffer.history == old(buffer.history)
      ensures Handled(record.rec, t.books, old(tainted), old(Denials(verdicts)), old(producer.faults), died)
      ensures old(buffer.closing && producer.txBegin == producer.open) && Survivable(old(producer.faults)) ==> !died
      ensures old(buffer.closing && producer.txBegin == producer.open && producer.faults == []) ==>
                producer.txBegin == producer.open
      ensures !old(tainted || buffer.closing) && Mild(old(producer.faults))
              && Clear(old(producer.faults), |processors(record.rec, t.books.views).effects| + 3) ==>
                !died
      ensures !old(tainted || buffer.closing) && Mild(old(producer.faults))
              && processors(record.rec, t.books.views).ok ==>
                (died <==> StopsAtBegin(record.rec, t.books.views, old(producer.txBegin), old(producer.faults)))
    {
      hide Sound, Safe, Arrives, OffsetsAfter, UsesStores, PartitionLogs, Distinct, Atomic, ApplyAll, Unflagged, Spends,
        Thins, Denials, Refusals, Mild, Clear, Task.Handled, Task.Attempted, Task.Taking, Task.Ready, Task.AtHead,
        Task.Recoverable, Task.StopsAtBegin;
      var taskRecord := new TaskRecord(record.rec);
      ghost var start := producer.faults;
      var res;
      ghost var ran, plain;
      res, ran, plain := Try(taskRecord, t.books);
      died := res.Died?;
      if died {
        DiedInProcess(res, ran, plain, t, t', tp, record.rec, start);
      } else if res.Succeeded? {
        AfterSuccess(taskRecord, ran, plain, t, t', tp, start);
      } else {
        ghost var tried := producer.faults;
        died := Failing(record, taskRecord, res, ran, plain, t, t', tp, start);
        SpendsTrans(start, tried, producer.faults);
      }
    }

    // The attempt succeeded: the record joins the batch
    method AfterSuccess(taskRecord: TaskRecord, ghost ran: nat, ghost plain: bool, ghost t: Track, ghost t': Track,
                        ghost tp: TopicPartition, ghost faults: seq<Fault>)
      requires Ready() && !taskRecord.ignore && taskRecord !in buffer.records
      requires !buffer.closing ==> producer.InStep()
      requires Taking(t, t', tp, taskRecord.rec) && Attempted(Succeeded, ran, plain, taskRecord.rec, t.books)
      requires Recs(buffer.records) == t.books.buffered && buffer.history == t.books.history
      requires !tainted ==> producer.InStep() && producer.OpenHolds() && forall x | x in buffer.records :: !x.ignore
      modifies this`verdicts, buffer`records, buffer`offsetMap
      ensures AtHead() && buffer.records == old(buffer.records) + [taskRecord]
      ensures Denials(verdicts) == old(Denials(verdicts))
      ensures Handled(taskRecord.rec, t.books, tainted, old(Denials(verdicts)), faults, false)
    {
      hide Sound, Arrives, OffsetsAfter, UsesStores, PartitionLogs, Distinct, Atomic, ApplyAll, Denials, Task.Handled,
        Task.Attempted;
      ghost var r, before, were := taskRecord.rec, Recs(buffer.records), Denials(verdicts);
      WholeAttempt(Succeeded, ran, plain, r, t.books);
      AttemptTold(Succeeded, ran, plain, r, t.books);
      DistinctSnoc(buffer.records, taskRecord);
      buffer.Add(taskRecord);
      assert Recs(buffer.records) == before + [r];
      if !tainted {
        ghost var after := SuccessSettled(processors, |stores|, inputs, t, tp, r, t', producer.cluster,
                                          ViewsOf(stores));
        verdicts := after.verdicts;
        assert TheTrack() == after;
      }
      SuccessTold(r, t.books, tainted, were, faults);
    }

    // A crash between two writes of a record
    lemma DiedInProcess(res: Processed, ran: nat, plain: bool, t: Track, t': Track, tp: TopicPartition, r: Record,
                        faults: seq<Fault>)
      requires buffer.producer == producer && buffer.stores == stores && buffer.history == t.books.history
      requires Taking(t, t', tp, r) && Attempted(res, ran, plain, r, t.books)
      requires tainted || (faults != [] && !Survivable(faults))
      ensures tainted || Recoverable()
      ensures Handled(r, t.books, tainted, Denials(verdicts), faults, true)
    {
      hide Sound, Safe, Arrives, ApplyAll, Denials;
      AttemptTold(res, ran, plain, r, t.books);
      if !tainted {
        ArrivesCounts(inputs, t, tp, r, t');
        SoundIsSafe(processors, |stores|, inputs, t);
        SafeIgnoresPending(processors, |stores|, inputs, buffer.history, t.books.cluster, producer.cluster,
                           t.books.bases, deliveredAtCommit, verdictsAtCommit);
      }
      hide Task.Attempted, Task.Taking;
      DiedTold(r, t.books, tainted, Denials(verdicts), faults);
    }

    // A failed attempt: the record is buffered, so that the replay decides about it
    method Failing(record: TaskRecord, taskRecord: TaskRecord, ghost res: Processed, ghost ran: nat, ghost plain: bool,
                   ghost t: Track, ghost t': Track, ghost tp: TopicPartition, ghost faults: seq<Fault>)
      returns (died: bool)
      requires Ready() && !record.ignore && record.rec == taskRecord.rec && taskRecord !in buffer.records
      requires Taking(t, t', tp, record.rec) && Attempted(res, ran, plain, record.rec, t.books)
      requires (res.Poisoned? || res.ProducerFault?) && taskRecord.ignore == res.Poisoned? && (plain ==> res.Poisoned?)
      requires Recs(buffer.records) == t.books.buffered && buffer.history == t.books.history
      requires Refusals(producer.faults) + (if plain then 1 else 0) <= Refusals(faults)
      requires Spends(faults, producer.faults)
      requires !tainted ==>
                 && (forall x | x in buffer.records :: !x.ignore) && (faults == [] ==> producer.faults == [])
                 && (if res.Poisoned? && !plain then producer.InStep() else faults != [])
      requires res.ProducerFault? || plain ==> !producer.txBegin && producer.open
      modifies this`tainted, this`verdicts, buffer`records, buffer`offsetMap, producer, stores, buffer.records
      modifies taskRecord
      ensures Spends(old(producer.faults), producer.faults) && (!buffer.closing ==> !producer.misused)
      ensures !died ==> AtHead() && forall x | x in buffer.records :: x in old(buffer.records) || x == taskRecord
      ensures buffer.closing ==>
                !died && producer.txBegin == old(producer.txBegin) && producer.open == old(producer.open)
      ensures !old(tainted) && Mild(faults) && res.ProducerFault? && Clear(old(producer.faults), 3) ==>
                processors(record.rec, t.books.views).ok ==> !died
      ensures !old(tainted) && Mild(faults) && res.Poisoned? && Clear(old(producer.faults), 2) ==> !died
      ensures died ==> tainted || Recoverable()
      ensures old(tainted) ==> tainted
      ensures Denials(verdicts) <= old(Denials(verdicts)) + Refusals(faults)
      ensures buffer.history == old(buffer.history)
      ensures Handled(record.rec, t.books, old(tainted), old(Denials(verdicts)), faults, died)
    {
      hide Sound, Safe, Arrives, OffsetsAfter, UsesStores, PartitionLogs, Distinct, Atomic, ApplyAll, Unflagged, Thins,
        Spends, Denials, Refusals, Mild, Clear, Task.Handled, Task.Attempted, Task.Taking, Task.Recoverable;
      died := false;
      SpendsNothing(producer.faults);
      assert Recs(buffer.records + [taskRecord]) == t.books.buffered + [record.rec];
      DistinctSnoc(buffer.records, taskRecord);
      if !record.ignore {
        buffer.Add(taskRecord);
      }
      if buffer.closing {
        // a closing buffer is not replayed
        FailedWhileClosing(res, ran, plain, record.rec, t.books, faults);
      } else {
        died := FailedAndReplayed(taskRecord, res, ran, plain, t, t', tp, faults);
      }
    }

    // The record stays in the buffer, with what it wrote
    ghost method FailedWhileClosing(res: Processed, ran: nat, plain: bool, r: Record, before: Books, faults: seq<Fault>)
      requires buffer.closing && Attempted(res, ran, plain, r, before)
      requires Recs(buffer.records) == before.buffered + [r] && buffer.history == before.history
      requires !tainted ==> if res.Poisoned? && !plain then producer.InStep() else faults != []
      requires res.Poisoned? || (!producer.txBegin && producer.open)
      requires plain ==> !producer.txBegin && producer.open
      modifies this`tainted
      ensures tainted && Handled(r, before, old(tainted), Denials(verdicts), faults, false)
    {
      hide ApplyAll, Denials;
      ghost var wasTainted := tainted;
      AttemptTold(res, ran, plain, r, before);
      if res.Poisoned? && !plain {
        WholeAttempt(res, ran, plain, r, before);
      }
      tainted := true;
      FailureTold(res, ran, plain, r, before, wasTainted, Denials(verdicts), faults, false);
    }

    // The buffer is replayed: without the record if it was marked ignored, with it otherwise
    method FailedAndReplayed(taskRecord: TaskRecord, ghost res: Processed, ghost ran: nat, ghost plain: bool,
                             ghost t: Track, ghost t': Track, ghost tp: TopicPartition, ghost faults: seq<Fault>)
      returns (died: bool)
      requires Ready() && !buffer.closing && buffer.records != [] && buffer.records[|buffer.records| - 1] == taskRecord
      requires Taking(t, t', tp, taskRecord.rec) && Attempted(res, ran, plain, taskRecord.rec, t.books)
      requires (res.Poisoned? || res.ProducerFault?) && taskRecord.ignore == res.Poisoned? && (plain ==> res.Poisoned?)
      requires Recs(buffer.records) == t.books.buffered + [taskRecord.rec] && buffer.history == t.books.history
      requires Refusals(producer.faults) + (if plain then 1 else 0) <= Refusals(faults)
      requires Spends(faults, producer.faults)
      requires !tainted ==>
                 && (forall i :: 0 <= i < |buffer.records| - 1 ==> !buffer.records[i].ignore)
                 && (faults == [] ==> producer.faults == [] && res.Poisoned? && !plain)
      modifies this`verdicts, buffer`records, buffer`offsetMap, producer, stores, buffer.records
      ensures Spends(old(producer.faults), producer.faults) && !producer.misused
      ensures !died ==> AtHead() && forall x | x in buffer.records :: x in old(buffer.records)
      ensures died ==> tainted || Recoverable()
      ensures Denials(verdicts) <= old(Denials(verdicts)) + Refusals(faults)
      ensures buffer.history == old(buffer.history)
      ensures Handled(taskRecord.rec, t.books, tainted, old(Denials(verdicts)), faults, died)
      ensures !tainted && Mild(faults) && res.ProducerFault? && Clear(old(producer.faults), 3) ==>
                processors(taskRecord.rec, t.books.views).ok ==> !died
      ensures !tainted && Mild(faults) && res.Poisoned? && Clear(old(producer.faults), 2) ==> !died
    {
      hide Sound, Safe, Arrives, OffsetsAfter, UsesStores, PartitionLogs, Distinct, Atomic, ApplyAll, Unflagged, Thins,
        Spends, Denials, Refusals, Rebatched, Mild, Clear, Task.Handled, Task.Recoverable, Task.Exact, Task.Mends;
      ghost var r, were, flagged := taskRecord.rec, Denials(verdicts), taskRecord.ignore;
      AttemptTold(res, ran, plain, r, t.books);
      hide Task.Attempted;
      if !tainted {
        LiveWithLast(t.books.buffered, r, Recs(buffer.records), Flags(buffer.records));
        StaysMild(faults, producer.faults);
        if Mild(faults) && flagged && Clear(producer.faults, 2) {
          BatchMends(t, producer.faults);
        } else if Mild(faults) && !flagged && processors(r, t.books.views).ok && Clear(producer.faults, 3) {
          LongerBatchMends(t, r, producer.faults);
        }
      }
      ghost var drops;
      NothingIsMild();
      MildIsHarmless(faults);
      died, drops := ReProcess();
      if !tainted {
        NoteArrivalReplay(t, t', tp, r, flagged, plain, died, drops);
        if !died {
          ExactIsInStep();
        }
      }
      FailureTold(res, ran, plain, r, t.books, tainted, were, faults, died);
    }

    lemma ExactIsInStep()
      requires Exact()
      ensures producer.InStep()
    {
    }

    lemma AttemptTold(res: Processed, ran: nat, plain: bool, r: Record, before: Books)
      requires Attempted(res, ran, plain, r, before)
      ensures producer.cluster.messages == before.cluster.messages && producer.cluster.offsets == before.cluster.offsets
      ensures BaseViewsOf(stores) == before.bases
      ensures res.Poisoned? && !plain ==> !processors(r, before.views).ok
      ensures res.Succeeded? ==> processors(r, before.views).ok
    {
    }

    // Shutdown: the last flush. Whatever comes of it, nothing runs after it.
    method Close() returns (done: bool)
      requires AtHead()
      modifies this, buffer, producer, stores
      ensures buffer == old(buffer) && producer == old(producer) && tainted == old(tainted)
      ensures misusedBefore == old(misusedBefore) && buffer.closing == old(buffer.closing)
      ensures tainted || Recoverable()
      ensures Denied() <= old(Denied())
      ensures done && old(buffer.records) != [] ==>
                && buffer.Committed(old(producer.cluster), old(Recs(buffer.records)), old(buffer.history))
                && BaseViewsOf(stores) == ViewsOf(stores) == old(ViewsOf(stores))
                && old(producer.txBegin || !producer.open)
      ensures old(producer.txBegin == producer.open && producer.faults == []) ==> done
      ensures buffer.history == old(KeptNow()) || (!done && buffer.history == old(buffer.history))
    {
      hide Safe, OffsetsAfter, UsesStores, PartitionLogs, Distinct, Spends, Answer, MetaFails, FailsAfterCommit,
        Denials, Task.Recoverable, Task.AtHead, Task.Ready;
      HeadIsExact();
      assert |Recs(buffer.records)| == |buffer.records|;
      var o := FlushAndNote();
      done := o.Done?;
      assert buffer.history + [] == buffer.history;
    }

    // The environment settles what will go wrong next
    method Meet(faults: seq<Fault>)
      requires AtHead()
      modifies producer`faults
      ensures AtHead() && producer.faults == faults
      ensures TheBooks() == old(TheBooks()) && Flags(buffer.records) == old(Flags(buffer.records))
    {
      hide Sound, OffsetsAfter, UsesStores, PartitionLogs, Distinct;
      ghost var t := TheTrack();
      producer.faults := faults;
      assert TheTrack() == t;
    }

    // The state in which the close request found the task
    ghost function TheMark(at: nat): Mark
      reads this, stores
    {
      Mark(at, ViewsOf(stores), position, delivered)
    }

    // From a mark on, if all is calm, nothing has gone wrong and all that is left is calm
    ghost predicate StillCalm(mark: Mark, schedule: seq<Event>, i: nat)
      requires mark.at < |schedule| && i <= |schedule|
      reads this, stores
    {
      Calm(processors, inputs, mark.views, mark.position, true, schedule[mark.at + 1..]) ==>
        !tainted && Calm(processors, inputs, ViewsOf(stores), position, true, schedule[i..])
    }

    // `mark` is where the first close request found the task
    ghost predicate IsMark(mark: Mark, schedule: seq<Event>, start: map<TopicPartition, nat>, before: seq<Record>)
    {
      && mark.at < |schedule| && schedule[mark.at].CloseRequested? && CloseRequested !in schedule[..mark.at]
      && mark.position == Advance(inputs, start, schedule[..mark.at])
      && mark.delivered == before + Arrivals(inputs, start, schedule[..mark.at])
    }

    /**
     Its views are those that the atomic run of some deliveries with their verdicts leaves; without a denial,
     those that the atomic run of all deliveries leaves.
     */
    ghost predicate MarkMeets(mark: Mark, denied: nat)
    {
      && Meets(processors, |stores|, inputs, mark.delivered, mark.views, mark.position)
      && (denied == 0 ==> mark.views == ViewsAfter(processors, |stores|, mark.delivered))
    }

    /**
     The processing loop over whatever the environment schedules, then the end of the process. The run
     is tainted only by a flush that fails after its commit, or by something that goes wrong
     once a close was requested; so not at all if all is calm from the state the first request found, and
     not if the task is closing already and all is calm from where it stands.
     */
    method Start(schedule: seq<Event>, last: seq<Fault>) returns (ghost mark: Option<Mark>, ghost flushed: Option<nat>)
      requires AtHead()
      modifies this, buffer, producer, stores, buffer.records
      ensures buffer == old(buffer) && producer == old(producer) && misusedBefore == old(misusedBefore)
      ensures old(tainted) ==> tainted
      ensures tainted || Recoverable()
      ensures mark.Some? ==> IsMark(mark.value, schedule, old(position), old(delivered))
      ensures mark.Some? && NoneFails(schedule) && !old(buffer.closing || tainted) ==>
                MarkMeets(mark.value, old(Denied()) + ScheduleRefusals(schedule))
      ensures NoneFails(schedule) && CalmFrom(schedule, mark) && !old(buffer.closing || tainted) ==> !tainted
      ensures !old(tainted)
              && Calm(processors, inputs, old(ViewsOf(stores)), old(position), old(buffer.closing), schedule) ==>
                && !tainted && (buffer.closing <==> old(buffer.closing) || CloseRequested in schedule)
                && EndsAt(old(KeptNow()), old(buffer.history), old(position), schedule, last, flushed)
      ensures !old(buffer.closing) && CloseRequested !in schedule ==> !producer.misused
      ensures Denied() <= old(Denied()) + ScheduleRefusals(schedule)
    {
      hide Sound, Safe, OffsetsAfter, UsesStores, PartitionLogs, Distinct, Spends, ScheduleRefusals, Calm, NoneFails,
        Task.IsMark, Task.MarkMeets, Task.CalmFrom, Task.RanTo, Task.EndsAt, Task.Denied, Task.AtHead, Task.Ready,
        Task.Exact, Task.Recoverable;
      ghost var kept, was, start := KeptNow(), buffer.history, position;
      ghost var calm := !tainted && Calm(processors, inputs, ViewsOf(stores), position, buffer.closing, schedule);
      if calm {
        CalmRefusesNothing(processors, inputs, ViewsOf(stores), position, buffer.closing, schedule);
      }
      var died;
      died, mark, flushed := Loop(schedule);
      if died {
        return;
      }
      flushed := Finish(last, kept, was, start, schedule, flushed);
    }

    // The end of the process: the final flush of a closing task
    method Finish(last: seq<Fault>, ghost kept: seq<Record>, ghost was: seq<Record>,
                  ghost start: map<TopicPartition, nat>, ghost schedule: seq<Event>, ghost flushed: Option<nat>)
      returns (ghost end: Option<nat>)
      requires AtHead()
      modifies this, buffer, producer, stores
      ensures buffer == old(buffer) && producer == old(producer) && misusedBefore == old(misusedBefore)
      ensures tainted == old(tainted) && (tainted || Recoverable()) && buffer.closing == old(buffer.closing)
      ensures Denied() <= old(Denied()) && (!buffer.closing ==> !producer.misused)
      ensures !tainted && old(RanTo(kept, was, start, schedule, |schedule|, flushed)) ==>
                EndsAt(kept, was, start, schedule, last, end)
    {
      hide Sound, Safe, OffsetsAfter, UsesStores, PartitionLogs, Distinct, Spends, KeptAfter, CommittedUpTo, LastFlush,
        Recs, Task.EndsAt, Task.Denied, Task.AtHead, Task.Ready, Task.Exact, Task.Recoverable;
      HeadIsDisciplined();
      if !tainted {
        HeadIsExact();
      }
      Meet(last);
      end := flushed;
      if buffer.closing {
        ghost var now, history := KeptNow(), buffer.history;
        var done := Close();
        if !tainted && old(RanTo(kept, was, start, schedule, |schedule|, flushed)) {
          EndsClosed(kept, was, start, schedule, last, flushed, now, history, done);
        }
        if buffer.history == now {
          end := Some(|schedule|);
        }
      } else {
        HeadIsRecoverable();
        if !tainted && RanTo(kept, was, start, schedule, |schedule|, flushed) {
          EndsOpen(kept, was, start, schedule, last, flushed);
        }
      }
    }

    /**
     What a run without taint, denial, or death leaves committed: all that came before its last flush, which is
     the final one of a closing task, unless that failed, or a tick after which no tick without errors came.
     */
    ghost predicate EndsAt(kept: seq<Record>, was: seq<Record>, start: map<TopicPartition, nat>, schedule: seq<Event>,
                           last: seq<Fault>, flushed: Option<nat>)
      reads this, buffer
    {
      && CommittedUpTo(processors, |stores|, inputs, kept, was, start, schedule, flushed, buffer.history)
      && ((buffer.closing && flushed == Some(|schedule|)) || LastFlush(schedule, |schedule|, flushed))
      && (buffer.closing && last == [] ==> flushed == Some(|schedule|))
    }

    lemma EndsOpen(kept: seq<Record>, was: seq<Record>, start: map<TopicPartition, nat>, schedule: seq<Event>,
                   last: seq<Fault>, flushed: Option<nat>)
      requires RanTo(kept, was, start, schedule, |schedule|, flushed) && !buffer.closing
      ensures EndsAt(kept, was, start, schedule, last, flushed)
    {
    }

    // The final flush of a run that came to keep `now`, with `history` committed
    lemma EndsClosed(kept: seq<Record>, was: seq<Record>, start: map<TopicPartition, nat>, schedule: seq<Event>,
                     last: seq<Fault>, flushed: Option<nat>, now: seq<Record>, history: seq<Record>, done: bool)
      requires buffer.closing && (last == [] ==> done) && LastFlush(schedule, |schedule|, flushed)
      requires now == KeptAfter(processors, |stores|, inputs, kept, start, schedule[..|schedule|])
      requires CommittedUpTo(processors, |stores|, inputs, kept, was, start, schedule, flushed, history)
      requires buffer.history == now || (!done && buffer.history == history)
      ensures EndsAt(kept, was, start, schedule, last, if buffer.history == now then Some(|schedule|) else flushed)
    {
    }

    // From the close request on all is calm
    ghost predicate CalmFrom(schedule: seq<Event>, mark: Option<Mark>)
    {
      mark.Some? && mark.value.at < |schedule| ==>
        Calm(processors, inputs, mark.value.views, mark.value.position, true, schedule[mark.value.at + 1..])
    }

    // The mark that the first close request leaves
    ghost function Noted(mark: Option<Mark>, here: Mark, e: Event): Option<Mark> {
      if mark.None? && e.CloseRequested? then Some(here) else mark
    }

    // The first i events have been met
    ghost predicate Passed(mark: Option<Mark>, position: map<TopicPartition, nat>, delivered: seq<Record>,
                           schedule: seq<Event>, i: nat, start: map<TopicPartition, nat>, before: seq<Record>,
                           denied: nat, clean: bool)
    {
      && i <= |schedule|
      && position == Advance(inputs, start, schedule[..i])
      && delivered == before + Arrivals(inputs, start, schedule[..i])
      && (mark.None? ==> CloseRequested !in schedule[..i])
      && (mark.Some? ==>
            && mark.value.at < i && IsMark(mark.value, schedule, start, before)
            && (clean ==> MarkMeets(mark.value, denied)))
    }

    lemma NothingPassed(schedule: seq<Event>, denied: nat, clean: bool)
      ensures Passed(None, position, delivered, schedule, 0, position, delivered, denied, clean)
    {
      assert schedule[..0] == [];
    }

    lemma PassesOn(mark: Option<Mark>, here: Mark, schedule: seq<Event>, start: map<TopicPartition, nat>,
                   before: seq<Record>, denied: nat, clean: bool)
      requires here.at < |schedule|
      requires Passed(mark, here.position, here.delivered, schedule, here.at, start, before, denied, clean)
      requires clean && mark.None? && schedule[here.at].CloseRequested? ==> MarkMeets(here, denied)
      ensures Passed(Noted(mark, here, schedule[here.at]), Moved(inputs, here.position, schedule[here.at]),
                     here.delivered + Arrival(inputs, here.position, schedule[here.at]), schedule, here.at + 1, start,
                     before, denied, clean)
    {
      hide MarkMeets, Moved, Arrival;
      AdvanceStep(inputs, start, schedule, here.at);
      assert schedule[..here.at + 1] == schedule[..here.at] + [schedule[here.at]];
    }

    lemma Ended(mark: Option<Mark>, position: map<TopicPartition, nat>, delivered: seq<Record>, schedule: seq<Event>,
                i: nat, start: map<TopicPartition, nat>, before: seq<Record>, denied: nat, clean: bool)
      requires Passed(mark, position, delivered, schedule, i, start, before, denied, clean)
      requires clean ==> TaintTold(mark, schedule, i)
      ensures mark.Some? ==> CloseRequested in schedule && IsMark(mark.value, schedule, start, before)
      ensures mark.Some? && clean ==> MarkMeets(mark.value, denied)
      ensures i == |schedule| && mark.None? ==> CloseRequested !in schedule
      ensures clean && CalmFrom(schedule, mark) ==> !tainted
    {
      hide MarkMeets, Calm, Advance, Arrivals;
      assert schedule[..|schedule|] == schedule;
      if mark.Some? {
        assert schedule[mark.value.at] in schedule;
      }
    }

    lemma PassedTo(mark: Option<Mark>, position: map<TopicPartition, nat>, delivered: seq<Record>,
                   schedule: seq<Event>, i: nat, start: map<TopicPartition, nat>, before: seq<Record>, denied: nat,
                   clean: bool)
      requires Passed(mark, position, delivered, schedule, i, start, before, denied, clean)
      ensures position == Advance(inputs, start, schedule[..i])
    {
    }

    // No taint before the close request, nor after it while all is calm
    ghost predicate TaintTold(mark: Option<Mark>, schedule: seq<Event>, i: nat)
      reads this, stores
    {
      if mark.Some? then mark.value.at < i <= |schedule| && StillCalm(mark.value, schedule, i) else !tainted
    }

    lemma UntaintedIsTold(schedule: seq<Event>)
      ensures !tainted ==> TaintTold(None, schedule, 0)
    {
    }

    // What the first i events have made of the run, without taint, denial, or death
    ghost predicate RanTo(kept: seq<Record>, was: seq<Record>, start: map<TopicPartition, nat>, schedule: seq<Event>,
                          i: nat, flushed: Option<nat>)
      reads this, buffer
    {
      && LastFlush(schedule, i, flushed)
      && KeptNow() == KeptAfter(processors, |stores|, inputs, kept, start, schedule[..i])
      && CommittedUpTo(processors, |stores|, inputs, kept, was, start, schedule, flushed, buffer.history)
    }

    // A tick that left the buffer empty has flushed it
    ghost function FlushedBy(e: Event, i: nat, flushed: Option<nat>): Option<nat>
      reads this, buffer
    {
      if e.Tick? && buffer.records == [] then Some(i + 1) else flushed
    }

    lemma RunBegins(start: map<TopicPartition, nat>, schedule: seq<Event>)
      requires AtHead()
      ensures !tainted ==> RanTo(KeptNow(), buffer.history, start, schedule, 0, None)
    {
      hide Sound;
      if !tainted {
        KeptAtFirst(processors, |stores|, inputs, TheTrack(), start);
        assert schedule[..0] == [];
      }
    }

    lemma HeadViews()
      requires AtHead() && !tainted
      ensures ViewsOf(stores) == ViewsAfter(processors, |stores|, KeptNow())
    {
      hide Sound, ViewsAfter;
      KeptAtFirst(processors, |stores|, inputs, TheTrack(), map[]);
    }

    lemma RunsOn(kept: seq<Record>, was: seq<Record>, start: map<TopicPartition, nat>, schedule: seq<Event>, i: nat,
                 flushed: Option<nat>, before: seq<Record>, history: seq<Record>, views: Views)
      requires i < |schedule| && LastFlush(schedule, i, flushed)
      requires before == KeptAfter(processors, |stores|, inputs, kept, start, schedule[..i])
      requires CommittedUpTo(processors, |stores|, inputs, kept, was, start, schedule, flushed, history)
      requires views == ViewsAfter(processors, |stores|, before)
      requires Moves(schedule[i], before, history, views,
                     Arrival(inputs, Advance(inputs, start, schedule[..i]), schedule[i]))
      ensures RanTo(kept, was, start, schedule, i + 1, FlushedBy(schedule[i], i, flushed))
    {
      hide KeptAfter, ViewsAfter, Atomic, ApplyAll, Advance, Arrival;
      KeptStep(processors, |stores|, inputs, kept, start, schedule, i);
      if buffer.records == [] {
        assert KeptNow() == buffer.history;
      }
    }

    // One event of the loop, and the mark that it may leave
    method StepOn(schedule: seq<Event>, i: nat, ghost mark: Option<Mark>, ghost flushed: Option<nat>,
                  ghost start: map<TopicPartition, nat>, ghost before: seq<Record>, ghost denied: nat,
                  ghost clean: bool, ghost kept: seq<Record>, ghost was: seq<Record>)
      returns (died: bool, ghost marked: Option<Mark>, ghost flush: Option<nat>)
      requires AtHead() && i < |schedule| && (clean ==> NoneFails(schedule) && (buffer.closing <==> mark.Some?))
      requires clean ==> TaintTold(mark, schedule, i)
      requires Passed(mark, position, delivered, schedule, i, start, before, denied, clean) && Denied() <= denied
      modifies this, buffer, producer, stores, buffer.records
      ensures buffer == old(buffer) && producer == old(producer) && misusedBefore == old(misusedBefore)
      ensures Passed(marked, position, delivered, schedule, i + 1, start, before, denied, clean)
      ensures buffer.closing == (old(buffer.closing) || schedule[i].CloseRequested?)
      ensures !died ==> AtHead() && forall x | x in buffer.records :: x in old(buffer.records) || fresh(x)
      ensures died ==> tainted || Recoverable()
      ensures old(tainted) ==> tainted
      ensures !buffer.closing ==> !producer.misused
      ensures Denied() <= old(Denied()) + Refusals(schedule[i].Script())
      ensures marked.Some? <==> mark.Some? || schedule[i].CloseRequested?
      ensures clean ==> TaintTold(marked, schedule, i + 1)
      ensures !old(tainted)
              && Calm(processors, inputs, old(ViewsOf(stores)), old(position), old(buffer.closing), schedule[i..]) ==>
                !died && !tainted
                && Calm(processors, inputs, ViewsOf(stores), position, buffer.closing, schedule[i + 1..])
      ensures old(RanTo(kept, was, start, schedule, i, flushed)) && Refusals(schedule[i].Script()) == 0 ==>
                !died && !tainted ==> RanTo(kept, was, start, schedule, i + 1, flush)
    {
      hide Calm, Moved, Arrival, Refusals, Atomic, ApplyAll, Advance, KeptAfter, ViewsAfter, CommittedUpTo, LastFlush,
        NoneFails, Repeats, Task.Passed, Task.AtHead, Task.Denied, Task.Recoverable, Task.Moves;
      ghost var now, history, views, here := KeptNow(), buffer.history, ViewsOf(stores), TheMark(i);
      ghost var ran := RanTo(kept, was, start, schedule, i, flushed) && Refusals(schedule[i].Script()) == 0;
      if !tainted {
        HeadViews();
      }
      NoneFailsAt(schedule, i);
      if clean && mark.None? && schedule[i].CloseRequested? {
        HeadMeets(here, denied, schedule);
      }
      PassedTo(mark, position, delivered, schedule, i, start, before, denied, clean);
      PassesOn(mark, here, schedule, start, before, denied, clean);
      marked := Noted(mark, here, schedule[i]);
      assert schedule[i..][1..] == schedule[i + 1..];
      died := Step(schedule[i], schedule[i..]);
      flush := FlushedBy(schedule[i], i, flushed);
      if ran && !died && !tainted {
        RunsOn(kept, was, start, schedule, i, flushed, now, history, views);
      }
    }

    method Loop(schedule: seq<Event>) returns (died: bool, ghost mark: Option<Mark>, ghost flushed: Option<nat>)
      requires AtHead()
      modifies this, buffer, producer, stores, buffer.records
      ensures buffer == old(buffer) && producer == old(producer) && misusedBefore == old(misusedBefore)
      ensures !died ==> AtHead()
      ensures died ==> tainted || Recoverable()
      ensures old(tainted) ==> tainted
      ensures mark.Some? ==> CloseRequested in schedule && IsMark(mark.value, schedule, old(position), old(delivered))
      ensures mark.Some? && NoneFails(schedule) && !old(buffer.closing || tainted) ==>
                MarkMeets(mark.value, old(Denied()) + ScheduleRefusals(schedule))
      ensures !died ==> (buffer.closing <==> old(buffer.closing) || CloseRequested in schedule)
      ensures !died && !tainted && ScheduleRefusals(schedule) == 0 ==>
                RanTo(old(KeptNow()), old(buffer.history), old(position), schedule, |schedule|, flushed)
      ensures NoneFails(schedule) && CalmFrom(schedule, mark) && !old(buffer.closing || tainted) ==> !tainted
      ensures !old(tainted)
              && Calm(processors, inputs, old(ViewsOf(stores)), old(position), old(buffer.closing), schedule) ==>
                !died && !tainted
      ensures !old(buffer.closing) && CloseRequested !in schedule ==> !producer.misused
      ensures Denied() <= old(Denied()) + ScheduleRefusals(schedule)
    {
      hide Sound, Safe, OffsetsAfter, UsesStores, PartitionLogs, Distinct, Spends, Calm, ApplyAll, Refusals,
        ScheduleRefusals, NoneFails, Moved, Arrival, Recs, Task.Passed, Task.IsMark, Task.MarkMeets, Task.CalmFrom,
        Task.TaintTold, Task.RanTo, Task.KeptNow, Task.Denied, Task.AtHead, Task.Ready, Task.Exact, Task.Recoverable;
      var i := 0;
      died, mark, flushed := false, None, None;
      ghost var kept, was := KeptNow(), buffer.history;
      RunBegins(position, schedule);
      ghost var start, before, most := position, delivered, Denied() + ScheduleRefusals(schedule);
      ghost var calm := !tainted && Calm(processors, inputs, ViewsOf(stores), position, buffer.closing, schedule);
      ghost var clean := NoneFails(schedule) && !buffer.closing && !tainted;
      assert schedule[..0] == [] && schedule[0..] == schedule;
      NoRefusals();
      NothingPassed(schedule, most, clean);
      assert clean ==> TaintTold(None, schedule, 0) by {
        UntaintedIsTold(schedule);
      }
      HeadIsDisciplined();
      while i < |schedule|
        invariant i <= |schedule|
        invariant buffer == old(buffer) && producer == old(producer) && misusedBefore == old(misusedBefore)
        invariant AtHead() && (old(tainted) ==> tainted) && (!buffer.closing ==> !producer.misused)
        invariant Passed(mark, position, delivered, schedule, i, start, before, most, clean)
        invariant buffer.closing <==> old(buffer.closing) || mark.Some?
        invariant calm ==>
                    !tainted && Calm(processors, inputs, ViewsOf(stores), position, buffer.closing, schedule[i..])
        invariant clean ==> TaintTold(mark, schedule, i)
        invariant !tainted && ScheduleRefusals(schedule[..i]) == 0 ==> RanTo(kept, was, start, schedule, i, flushed)
        invariant Denied() <= old(Denied()) + ScheduleRefusals(schedule[..i])
        invariant forall j :: 0 <= j < |buffer.records| ==>
                                buffer.records[j] in old(buffer.records) || fresh(buffer.records[j])
      {
        ghost var held := buffer.records;
        assert forall r | r in held :: r in old(buffer.records) || fresh(r);
        RefusalsStep(schedule, i);
        RefusalsUpTo(schedule, i);
        RefusalsUpTo(schedule, i + 1);
        died, mark, flushed := StepOn(schedule, i, mark, flushed, start, before, most, clean, kept, was);
        if died {
          Ended(mark, position, delivered, schedule, i + 1, start, before, most, clean);
          return;
        }
        i := i + 1;
      }
      Ended(mark, position, delivered, schedule, i, start, before, most, clean);
      assert schedule[..i] == schedule;
    }

    lemma HeadMeets(mark: Mark, denied: nat, schedule: seq<Event>)
      requires AtHead() && TaintTold(None, schedule, mark.at) && mark == TheMark(mark.at) && Denied() <= denied
      ensures MarkMeets(mark, denied)
    {
      hide Sound, Meets, ViewsAfter;
      SoundMeets(processors, |stores|, inputs, TheTrack());
    }

    lemma HeadIsDisciplined()
      requires AtHead()
      ensures !buffer.closing ==> !producer.misused
    {
    }

    lemma HeadIsRecoverable()
      requires AtHead()
      ensures tainted || Recoverable()
    {
      hide Sound, Safe;
      if !tainted {
        SoundIsSafe(processors, |stores|, inputs, TheTrack());
      }
    }

    lemma HeadMoves(e: Event)
      requires AtHead()
      ensures position.Keys == inputs.Keys
      ensures Arrival(inputs, position, e)
              == if e.Arrive? && NextOf(e.tp).Some? then [NextOf(e.tp).value] else []
      ensures Moved(inputs, position, e)
              == if e.Arrive? && NextOf(e.tp).Some? then position[e.tp := position[e.tp] + 1] else position
    {
    }

    // What calm means for the event and for what follows
    lemma CalmAhead(e: Event, ahead: seq<Event>)
      requires AtHead() && ahead != [] && ahead[0] == e
      requires Calm(processors, inputs, ViewsOf(stores), position, buffer.closing, ahead)
      ensures var views, arrival := ViewsOf(stores), Arrival(inputs, position, e);
              && Bearable(e.Script(), buffer.closing, if e.Tick? then 2 else 1)
              && Refusals(e.Script()) == 0
              && (arrival != [] && !processors(arrival[0], views).ok ==>
                    !buffer.closing && Clear(e.Script(), |processors(arrival[0], views).effects| + 3))
              && Calm(processors, inputs, ApplyAll(views, Atomic(processors, views, arrival).messages),
                      Moved(inputs, position, e), buffer.closing || e.CloseRequested?, ahead[1..])
    {
      CalmBears(processors, inputs, ViewsOf(stores), position, buffer.closing, ahead, 0);
    }

    // The committed records and those in the buffer
    ghost function KeptNow(): seq<Record>
      reads this, buffer
    {
      buffer.history + Recs(buffer.records)
    }

    /**
     What an event makes of a run without taint, denial, or death. The atomic run goes on over what arrived; a tick
     commits the whole batch or leaves it, and commits it if it meets no errors.
     */
    ghost predicate Moves(e: Event, kept: seq<Record>, history: seq<Record>, views: Views, arrival: seq<Record>)
      reads this, buffer, stores
    {
      && KeptNow() == kept + Atomic(processors, views, arrival).kept
      && ViewsOf(stores) == ApplyAll(views, Atomic(processors, views, arrival).messages)
      && (buffer.history == history || (e.Tick? && buffer.history == kept && buffer.records == []))
      && (e.Tick? && e.faults == [] ==> buffer.records == [])
    }

    lemma TickMoves(t: Track, faults: seq<Fault>, drops: seq<Drop>)
      requires AtHead() && !tainted && Sound(processors, |stores|, inputs, t) && Refusals(faults) == 0
      requires TickTold(t.books, false, Denials(t.verdicts), faults, false, drops)
      ensures Moves(Tick(faults), t.Kept(), t.books.history, t.books.views, [])
    {
      hide Sound, Atomic, ApplyAll, Denials, Refusals;
      KeptAtFirst(processors, |stores|, inputs, t, map[]);
      KeptAtFirst(processors, |stores|, inputs, TheTrack(), map[]);
      NothingRun(processors, t.books.views);
      assert |Recs(buffer.records)| == |buffer.records|;
      assert t.Kept() + [] == t.Kept() && KeptNow() == TheTrack().Kept() == t.Kept();
    }

    lemma ArrivalMoves(t: Track, r: Record, e: Event, died: bool)
      requires AtHead() && !tainted && Sound(processors, |stores|, inputs, t) && Refusals(e.Script()) == 0 && !died
      requires e.Arrive? && buffer.history == t.books.history
      requires Handled(r, t.books, false, Denials(t.verdicts), e.Script(), died)
      ensures Moves(e, t.Kept(), t.books.history, t.books.views, [r])
    {
      hide Sound, Atomic, ApplyAll, Denials, Refusals;
      KeptAtFirst(processors, |stores|, inputs, t, map[]);
      KeptAtFirst(processors, |stores|, inputs, TheTrack(), map[]);
      KeptStands(t);
      OneAttempt(processors, t.books.views, r);
      ViewsStep(processors, |stores|, t.Kept(), [r]);
      assert t.Kept() + [] == t.Kept() && KeptNow() == TheTrack().Kept();
      assert t.books.history + (t.books.buffered + [r]) == t.Kept() + [r];
      assert t.books.buffered + [] == t.books.buffered;
    }

    lemma KeptStands(t: Track)
      requires Sound(processors, |stores|, inputs, t)
      ensures Atomic(processors, EmptyViews(|stores|), t.Kept()).kept == t.Kept()
    {
    }

    // A tick of the loop
    method TickStep(faults: seq<Fault>) returns (died: bool)
      requires AtHead()
      modifies this, buffer, producer, stores, buffer.records
      ensures buffer == old(buffer) && producer == old(producer) && misusedBefore == old(misusedBefore)
      ensures position == old(position) && delivered == old(delivered) && buffer.closing == old(buffer.closing)
      ensures !died ==> AtHead() && forall x | x in buffer.records :: x in old(buffer.records)
      ensures died ==> tainted || Recoverable()
      ensures old(tainted) ==> tainted
      ensures !buffer.closing ==> !producer.misused
      ensures Denied() <= old(Denied()) + Refusals(faults)
      ensures !old(tainted) && !buffer.closing && !Repeats(faults) ==> !tainted
      ensures !old(tainted) && Bearable(faults, buffer.closing, 2) ==> !died && !tainted
      ensures !died && !tainted && Refusals(faults) == 0 ==>
                Moves(Tick(faults), old(KeptNow()), old(buffer.history), old(ViewsOf(stores)), [])
    {
      hide Sound, Safe, OffsetsAfter, UsesStores, PartitionLogs, Distinct, Spends, Atomic, ApplyAll, Answer, MetaFails,
        FailsAfterCommit, Repeated, Denials, Refusals, Recs, GoesThrough, Mild, Clear, Lethal, Repeats,
        Task.Recoverable, Task.AtHead, Task.Moves, Task.Denied;
      ghost var t, wasTainted := TheTrack(), tainted;
      HeadIsExact();
      Meet(faults);
      ghost var o, drops;
      died, o, drops := OnTick();
      if !died && !tainted && Refusals(faults) == 0 {
        TickMoves(t, faults, drops);
      }
    }

    // An arrival at the loop
    method ArriveStep(tp: TopicPartition, faults: seq<Fault>) returns (died: bool)
      requires AtHead()
      modifies this, buffer, producer, stores, buffer.records
      ensures buffer == old(buffer) && producer == old(producer) && misusedBefore == old(misusedBefore)
      ensures position == Moved(inputs, old(position), Arrive(tp, faults))
      ensures delivered == old(delivered) + Arrival(inputs, old(position), Arrive(tp, faults))
      ensures buffer.closing == old(buffer.closing)
      ensures !died ==> AtHead() && forall x | x in buffer.records :: x in old(buffer.records) || fresh(x)
      ensures died ==> tainted || Recoverable()
      ensures old(tainted) ==> tainted
      ensures !buffer.closing ==> !producer.misused
      ensures Denied() <= old(Denied()) + Refusals(faults)
      ensures !old(tainted) && !buffer.closing ==> !tainted
      ensures var views, arrival := old(ViewsOf(stores)), Arrival(inputs, old(position), Arrive(tp, faults));
              !old(tainted) && Bearable(faults, buffer.closing, 1)
              && (arrival != [] && !processors(arrival[0], views).ok ==>
                    !buffer.closing && Clear(faults, |processors(arrival[0], views).effects| + 3)) ==>
                !died && !tainted
      ensures !died && !tainted && Refusals(faults) == 0 ==>
                Moves(Arrive(tp, faults), old(KeptNow()), old(buffer.history), old(ViewsOf(stores)),
                      Arrival(inputs, old(position), Arrive(tp, faults)))
    {
      hide Sound, Safe, OffsetsAfter, UsesStores, PartitionLogs, Distinct, Spends, Atomic, ApplyAll, Denials, Refusals,
        Recs, Moved, Arrival, Mild, Clear, Survivable, Task.Recoverable, Task.AtHead, Task.Moves, Task.Denied;
      ghost var t, wasTainted, arrival := TheTrack(), tainted, Arrival(inputs, position, Arrive(tp, faults));
      HeadIsExact();
      HeadMoves(Arrive(tp, faults));
      Meet(faults);
      died := OnArrive(tp);
      if !died && !tainted && Refusals(faults) == 0 {
        if arrival == [] {
          NothingMoves(Arrive(tp, faults), t);
        } else {
          ArrivalMoves(t, arrival[0], Arrive(tp, faults), died);
        }
      }
    }

    lemma NothingMoves(e: Event, t: Track)
      requires !e.Tick? && TheBooks() == t.books
      ensures Moves(e, t.Kept(), t.books.history, t.books.views, [])
    {
      hide Atomic, ApplyAll;
      NothingRun(processors, t.books.views);
      assert t.Kept() + [] == t.Kept();
    }

    // One event of the loop
    method Step(e: Event, ghost ahead: seq<Event>) returns (died: bool)
      requires AtHead() && ahead != [] && ahead[0] == e
      modifies this, buffer, producer, stores, buffer.records
      ensures buffer == old(buffer) && producer == old(producer) && misusedBefore == old(misusedBefore)
      ensures position == Moved(inputs, old(position), e)
      ensures delivered == old(delivered) + Arrival(inputs, old(position), e)
      ensures buffer.closing == (old(buffer.closing) || e.CloseRequested?)
      ensures !died ==> AtHead() && forall x | x in buffer.records :: x in old(buffer.records) || fresh(x)
      ensures died ==> (tainted || Recoverable()) && !e.CloseRequested?
      ensures old(tainted) ==> tainted
      ensures !buffer.closing ==> !producer.misused
      ensures Denied() <= old(Denied()) + Refusals(e.Script())
      ensures !old(tainted) && !buffer.closing && !Repeats(e.Script()) ==> !tainted
      ensures e.CloseRequested? ==>
                tainted == old(tainted) && ViewsOf(stores) == old(ViewsOf(stores)) && position == old(position)
      ensures !died && !tainted && Refusals(e.Script()) == 0 ==>
                Moves(e, old(KeptNow()), old(buffer.history), old(ViewsOf(stores)), Arrival(inputs, old(position), e))
      ensures !old(tainted) && e.Tick? && e.faults == [] ==> !died && !tainted
      ensures !old(tainted)
              && Calm(processors, inputs, old(ViewsOf(stores)), old(position), old(buffer.closing), ahead) ==>
                !died && !tainted && Calm(processors, inputs, ViewsOf(stores), position, buffer.closing, ahead[1..])
    {
      hide Sound, Safe, OffsetsAfter, UsesStores, PartitionLogs, Distinct, Spends, Atomic, ApplyAll, Denials, Refusals,
        Recs, Calm, Repeats, Mild, Clear, Task.Recoverable, Task.Denied;
      ghost var t := TheTrack();
      died := false;
      HeadMoves(e);
      NothingIsBorne(buffer.closing);
      if Calm(processors, inputs, ViewsOf(stores), position, buffer.closing, ahead) {
        CalmAhead(e, ahead);
      }
      match e {
        case Tick(faults) =>
          died := TickStep(faults);
        case Arrive(tp, faults) =>
          died := ArriveStep(tp, faults);
        case CloseRequested =>
          buffer.MarkAsClosing();
          NothingMoves(e, t);
      }
    }

    /**
     A new process over what the old one left: stores restored from their changelog topics, a new
     producer whose initialisation fences the old transaction, the consumer at the committed offsets.
     The process may die while it restores, after any number of records of each store. The run is
     tainted by a restore that goes through though the tombstone of a key that a base has is gone.
     */
    method Restart(changelogs: seq<seq<Effect>>, cutAt: Option<seq<nat>>, faults: seq<Fault>) returns (died: bool)
      requires UsesStores(processors, |stores|) && Distinct(stores) && PartitionLogs(inputs)
      requires |changelogs| == |stores| && Held(producer.cluster.messages, changelogs)
      requires cutAt.Some? ==> Within(cutAt.value, changelogs)
      requires tainted || Recoverable()
      modifies this, stores
      ensures fresh(producer) && fresh(buffer) && buffer.records == [] && !buffer.closing && !producer.misused
      ensures misusedBefore == old(misusedBefore || producer.misused)
      ensures tainted == (old(tainted) || (!died && !Remember(changelogs, old(BaseViewsOf(stores)))))
      ensures Denied() <= old(Denied())
      ensures producer.cluster.messages == old(producer.cluster.messages)
      ensures producer.cluster.offsets == old(producer.cluster.offsets) && (!died ==> producer.cluster.Idle())
      ensures !died ==> AtHead()
      ensures died ==> tainted || Recoverable()
      ensures buffer.history == old(buffer.history) && ViewsOf(stores) == BaseViewsOf(stores)
      ensures !died ==> Restores(changelogs, old(BaseViewsOf(stores)), ViewsOf(stores))
      ensures cutAt.Some? ==>
                died && Restores(UpTo(changelogs, cutAt.value), old(BaseViewsOf(stores)), BaseViewsOf(stores))
      ensures delivered == deliveredAtCommit && verdicts == verdictsAtCommit && Spends(faults, producer.faults)
      ensures deliveredAtCommit == old(deliveredAtCommit) && verdictsAtCommit == old(verdictsAtCommit)
      ensures position == map tp | tp in inputs :: Seek(inputs[tp], CommittedOffset(producer.cluster.offsets, tp))
      ensures cutAt.None? && Mild(faults) ==> !died
    {
      ghost var bases, cluster, history := BaseViewsOf(stores), producer.cluster, buffer.history;
      assert !tainted ==>
          Safe(processors, |stores|, inputs, history, cluster, bases, deliveredAtCommit, verdictsAtCommit);
      hide Sound, Safe, UsesStores, PartitionLogs, Held, Remember, Restores, Within, UpTo, Seek, Atomic, ApplyAll,
        Spends, Denials, Refusals, Answer, Changelog.Replay, Distinct, Task.AtHead, Task.Recoverable;
      NewProcess(faults);
      SpendsNothing(faults);
      if cutAt.Some? {
        RestoreStores(changelogs, cutAt.value);
        if !tainted {
          CutOff(bases, cluster, history, changelogs, cutAt.value);
        }
        died := true;
      } else {
        died := Revive(changelogs, bases, cluster, history);
      }
    }

    // The restore of a new process goes through, and its transactions are initialised
    method Revive(changelogs: seq<seq<Effect>>, ghost bases: Views, ghost cluster: Cluster, ghost history: seq<Record>)
      returns (died: bool)
      requires UsesStores(processors, |stores|) && Distinct(stores) && PartitionLogs(inputs)
      requires buffer.producer == producer && buffer.stores == stores && buffer.history == history && !buffer.closing
      requires buffer.records == [] && buffer.offsetMap == map[]
      requires producer.Valid() && !producer.txBegin && !producer.misused && producer.cluster == cluster
      requires bases == BaseViewsOf(stores) && |changelogs| == |stores| && Held(cluster.messages, changelogs)
      requires delivered == deliveredAtCommit && verdicts == verdictsAtCommit
      requires position == map tp | tp in inputs :: Seek(inputs[tp], CommittedOffset(cluster.offsets, tp))
      requires !tainted ==>
                 Safe(processors, |stores|, inputs, history, cluster, bases, deliveredAtCommit, verdictsAtCommit)
      modifies this`tainted, producer, stores
      ensures !producer.misused && Spends(old(producer.faults), producer.faults)
      ensures tainted == (old(tainted) || (!died && !Remember(changelogs, bases)))
      ensures producer.cluster.messages == cluster.messages && producer.cluster.offsets == cluster.offsets
      ensures ViewsOf(stores) == BaseViewsOf(stores) && Restores(changelogs, bases, ViewsOf(stores))
      ensures !died ==> AtHead() && producer.cluster.Idle()
      ensures died ==> tainted || Recoverable()
      ensures Mild(old(producer.faults)) ==> !died
    {
      hide Sound, Safe, UsesStores, PartitionLogs, Held, Remember, Restores, Seek, Atomic, ApplyAll, Spends, Refusals,
        Answer, Changelog.Replay, Distinct, Task.AtHead, Task.Recoverable;
      RestoreWhole(changelogs);
      died := buffer.Init();
      if !died && !Remember(changelogs, bases) {
        tainted := true;
      }
      if !tainted {
        Restarted(bases, cluster, history, changelogs, died);
      }
      if !died {
        AtHeadAgain();
      }
    }

    lemma AtHeadAgain()
      requires UsesStores(processors, |stores|) && Distinct(stores) && PartitionLogs(inputs)
      requires buffer.producer == producer && buffer.stores == stores && buffer.Fresh() && !producer.misused
      requires buffer.records == [] && buffer.offsetMap == map[] && position.Keys == inputs.Keys
      requires !tainted ==> Sound(processors, |stores|, inputs, TheTrack())
      ensures AtHead()
    {
      hide Sound;
      DistinctNothing();
    }

    // A restore that was cut off
    lemma CutOff(bases: Views, cluster: Cluster, history: seq<Record>, changelogs: seq<seq<Effect>>, reached: seq<nat>)
      requires Safe(processors, |stores|, inputs, history, cluster, bases, deliveredAtCommit, verdictsAtCommit)
      requires buffer.history == history && producer.cluster == cluster
      requires Held(cluster.messages, changelogs) && Within(reached, changelogs)
      requires Restores(UpTo(changelogs, reached), bases, BaseViewsOf(stores))
      ensures Recoverable()
    {
      hide Safe, Held, Restores, Within, UpTo;
      SafeAfterInterruptedRestore(processors, |stores|, inputs, history, cluster, bases, deliveredAtCommit,
                                  verdictsAtCommit, changelogs, reached, BaseViewsOf(stores));
    }

    // Producer, buffer and consumer of a new process; the stores are still what they were
    method NewProcess(faults: seq<Fault>)
      requires UsesStores(processors, |stores|) && Distinct(stores) && PartitionLogs(inputs)
      modifies this
      ensures fresh(producer) && fresh(buffer) && buffer.records == [] && !buffer.closing && buffer.offsetMap == map[]
      ensures buffer.producer == producer && buffer.stores == stores && buffer.history == old(buffer.history)
      ensures producer.Valid() && !producer.txBegin && !producer.misused
      ensures producer.cluster == old(producer.cluster) && producer.faults == faults
      ensures misusedBefore == old(misusedBefore || producer.misused)
      ensures tainted == old(tainted) && deliveredAtCommit == old(deliveredAtCommit)
      ensures verdictsAtCommit == old(verdictsAtCommit) && delivered == deliveredAtCommit
      ensures verdicts == verdictsAtCommit
      ensures position == map tp | tp in inputs :: Seek(inputs[tp], CommittedOffset(producer.cluster.offsets, tp))
    {
      hide UsesStores, PartitionLogs, Distinct, Seek, CommittedOffset;
      misusedBefore := misusedBefore || producer.misused;
      producer := new Producer(producer.cluster, faults);
      buffer := new Buffer(producer, stores, buffer.history);
      position := map tp | tp in inputs :: Seek(inputs[tp], CommittedOffset(producer.cluster.offsets, tp));
      delivered, verdicts := deliveredAtCommit, verdictsAtCommit;
    }

    // The stores are restored side by side, so at a crash each has got to a point of its own
    method RestoreStores(changelogs: seq<seq<Effect>>, reached: seq<nat>)
      requires Distinct(stores) && |changelogs| == |stores| && Within(reached, changelogs)
      modifies stores
      ensures ViewsOf(stores) == BaseViewsOf(stores)
      ensures Restores(UpTo(changelogs, reached), old(BaseViewsOf(stores)), BaseViewsOf(stores))
    {
      for n := 0 to |stores|
        modifies stores
        invariant forall i :: 0 <= i < n ==>
                    && stores[i].View() == stores[i].BaseView()
                    && stores[i].BaseView()
                       == Changelog.Replay(old(stores[i].BaseView()), i, changelogs[i][..reached[i]])
        invariant forall i :: n <= i < |stores| ==> stores[i].base == old(stores[i].base)
      {
        stores[n].Restore(n, changelogs[n][..reached[n]]);
      }
    }

    method RestoreWhole(changelogs: seq<seq<Effect>>)
      requires Distinct(stores) && |changelogs| == |stores|
      modifies stores
      ensures ViewsOf(stores) == BaseViewsOf(stores) && Restores(changelogs, old(BaseViewsOf(stores)), ViewsOf(stores))
    {
      var all := seq(|stores|, i requires 0 <= i < |stores| => |changelogs[i]|);
      RestoreStores(changelogs, all);
      assert UpTo(changelogs, all) == changelogs by {
        assert forall i :: 0 <= i < |stores| ==> changelogs[i][..all[i]] == changelogs[i];
      }
    }

    lemma Restarted(bases: Views, cluster: Cluster, history: seq<Record>, changelogs: seq<seq<Effect>>, died: bool)
      requires Safe(processors, |stores|, inputs, history, cluster, bases, deliveredAtCommit, verdictsAtCommit)
      requires buffer.history == history && buffer.records == [] && |changelogs| == |stores|
      requires producer.cluster.messages == cluster.messages && producer.cluster.offsets == cluster.offsets
      requires Held(cluster.messages, changelogs) && Restores(changelogs, bases, BaseViewsOf(stores))
      requires ViewsOf(stores) == BaseViewsOf(stores)
      requires !died ==> producer.cluster.Idle() && Remember(changelogs, bases)
      requires delivered == deliveredAtCommit && verdicts == verdictsAtCommit
      requires position == map tp | tp in inputs :: Seek(inputs[tp], CommittedOffset(cluster.offsets, tp))
      ensures !died ==> Sound(processors, |stores|, inputs, TheTrack())
      ensures Recoverable()
    {
      hide Sound, Safe, Held, Remember, Changelog.Replay;
      var fenced, restored := cluster.Discarded(), BaseViewsOf(stores);
      var all := seq(|stores|, i requires 0 <= i < |stores| => |changelogs[i]|);
      assert UpTo(changelogs, all) == changelogs by {
        assert forall i :: 0 <= i < |stores| ==> changelogs[i][..all[i]] == changelogs[i];
      }
      SafeAfterInterruptedRestore(processors, |stores|, inputs, history, cluster, bases, deliveredAtCommit,
                                  verdictsAtCommit, changelogs, all, restored);
      SafeIgnoresPending(processors, |stores|, inputs, history, cluster, producer.cluster, restored,
                         deliveredAtCommit, verdictsAtCommit);
      if !died {
        assert producer.cluster == fenced;
        SafeIgnoresPending(processors, |stores|, inputs, history, cluster, fenced, bases, deliveredAtCommit,
                           verdictsAtCommit);
        var t := SoundAfterRestart(processors, |stores|, inputs, history, fenced, bases, deliveredAtCommit,
                                   verdictsAtCommit, changelogs, restored);
        assert TheTrack() == t;
      }
    }

    function NextOf(tp: TopicPartition): Option<Record>
      reads this
      requires position.Keys == inputs.Keys
    {
      if tp in inputs && position[tp] < |inputs[tp]| then Some(inputs[tp][position[tp]]) else None
    }
  }

  // A record that succeeded joins the batch
  lemma SuccessSettled(p: Processors, n: nat, inputs: Inputs, t: Track, tp: TopicPartition, r: Record, t': Track,
                       cluster: Cluster, views: Views) returns (after: Track)
    requires Sound(p, n, inputs, t) && Arrives(inputs, t, tp, r, t')
    requires p(r, t.books.views).ok
    requires cluster == t.books.cluster.(pending := t.books.cluster.pending + p(r, t.books.views).effects)
    requires views == ApplyAll(t.books.views, p(r, t.books.views).effects)
    ensures after == t'.(books := Books(t.books.history, t.books.buffered + [r], cluster, t.books.bases, views),
                         verdicts := after.verdicts)
    ensures Denials(after.verdicts) == Denials(t.verdicts)
    ensures Sound(p, n, inputs, after)
  {
    ExtendedBatch(p, n, t.books, r, cluster, views);
    hide Sound, Arrives, Rebatched;
    after := SoundAfterArrival(p, n, inputs, t, tp, r, t', [], t.books.buffered + [r], cluster, views);
  }

  lemma ArrivesCounts(inputs: Inputs, t: Track, tp: TopicPartition, r: Record, t': Track)
    requires Arrives(inputs, t, tp, r, t')
    ensures t'.deliveredAtCommit == t.deliveredAtCommit && t'.verdictsAtCommit == t.verdictsAtCommit
  {
  }

  lemma DeliveryDenies(verdicts: seq<Verdict>)
    ensures Denials(verdicts + [Kept]) == Denials(verdicts)
  {
    assert (verdicts + [Kept])[..|verdicts|] == verdicts;
  }

  lemma NothingApplied(vs: Views)
    ensures ApplyAll(vs, []) == vs
  {
  }

  lemma OneMoreEffect(pending: seq<Effect>, effects: seq<Effect>, i: nat)
    requires i < |effects|
    ensures effects[..i + 1] == effects[..i] + [effects[i]]
    ensures pending + effects[..i + 1] == pending + effects[..i] + [effects[i]]
  {
  }

  lemma DistinctNothing()
    ensures Distinct<TaskRecord>([])
  {
  }

  lemma DistinctSnoc(rs: seq<TaskRecord>, r: TaskRecord)
    requires Distinct(rs) && r !in rs
    ensures Distinct(rs + [r])
  {
  }

  lemma LiveWithLast(batch: seq<Record>, r: Record, recs: seq<Record>, flags: seq<bool>)
    requires |recs| == |flags| == |batch| + 1 && recs == batch + [r]
    requires forall i :: 0 <= i < |batch| ==> !flags[i]
    ensures Unflagged(recs, flags) == if flags[|batch|] then batch else batch + [r]
  {
    assert recs[..|batch|] == batch;
    NothingFlagged(batch, flags[..|batch|]);
  }

  // The replay after a failed attempt at `r`: of the batch without it if it was marked ignored, with it otherwise
  lemma ArrivalReplayed(p: Processors, n: nat, inputs: Inputs, t: Track, tp: TopicPartition, r: Record, t': Track,
                        flagged: bool, plain: bool, drops: seq<Drop>,
                        kept: seq<Record>, cluster: Cluster, views: Views) returns (after: Track)
    requires Sound(p, n, inputs, t) && Arrives(inputs, t, tp, r, t')
    requires flagged ==> plain || !p(r, t.books.views).ok
    requires plain ==> flagged
    requires Rebatched(p, t.books.bases, if flagged then t.books.buffered else t.books.buffered + [r],
                       t.books.cluster.messages, t.books.cluster.offsets, drops, kept, cluster, views)
    ensures after == t'.(books := Books(t.books.history, kept, cluster, t.books.bases, views),
                         verdicts := after.verdicts)
    ensures Denials(after.verdicts) == Denials(t.verdicts) + DropDenials(drops) + if plain then 1 else 0
    ensures Sound(p, n, inputs, after)
    ensures !plain && DropDenials(drops) == 0 ==>
              kept == t.books.buffered + (if p(r, t.books.views).ok then [r] else [])
  {
    var b := t.books;
    BatchOnBases(p, n, b);
    AtomicSnoc(p, b.bases, b.buffered, r);
    var batch, all := if flagged then b.buffered else b.buffered + [r], drops;
    if DropDenials(drops) == 0 {
      DropsLeaveNoTrace(p, b.bases, batch, drops, kept);
    }
    hide Sound, Arrives;
    if flagged {
      FailedRecordInBatch(p, b.bases, b.buffered, r, plain, b.cluster.messages, b.cluster.offsets, drops,
                          kept, cluster, views);
      all := [Drop(|b.buffered|, plain)] + drops;
    }
    after := SoundAfterArrival(p, n, inputs, t, tp, r, t', all, kept, cluster, views);
  }
}
