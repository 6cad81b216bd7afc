/**
 Where the engine breaks its promise, and exactly when: what a closing task commits, a flush that
 fails after its commit, and a restore after a tombstone is gone. Each statement is over all
 states and scripts; the histories that show them are in Histories.
 */
module Departures {
  import opened Basics
  import opened Changelog
  import opened AtomicRun
  import opened TxProducer
  import opened StateStore
  import opened CommitBuffer
  import opened Ledger
  import opened Schedules
  import opened StreamTask

  // The committed messages and the stores are those of the atomic run over the committed records
  ghost predicate AsAtomic(p: Processors, n: nat, committed: seq<Record>, messages: seq<Effect>, views: Views) {
    var run := Atomic(p, EmptyViews(n), committed);
    messages == run.messages && views == ApplyAll(EmptyViews(n), run.messages)
  }

  /** What was committed is as atomic, whatever the open transaction and the caches hold. */
  ghost predicate Grounded(p: Processors, n: nat, b: Books) {
    && AsAtomic(p, n, b.history, b.cluster.messages, b.bases)
    && b.cluster.offsets == OffsetsAfter(map[], b.history)
    && b.cluster.pendingOffsets.Keys <= OffsetsAfter(map[], b.buffered).Keys
  }

  /** Transaction and caches hold just what the batch, run atomically on the bases, makes. */
  ghost predicate MadeGood(p: Processors, b: Books) {
    && Atomic(p, b.bases, b.buffered).messages == b.cluster.pending
    && b.views == ApplyAll(b.bases, b.cluster.pending)
  }

  lemma FaithfulIsMadeGood(p: Processors, n: nat, b: Books)
    requires Faithful(p, n, b)
    ensures Grounded(p, n, b) && MadeGood(p, b)
  {
    BatchOnBases(p, n, b);
  }

  /** Committing whatever transaction and caches hold is as atomic if and only if they are made good. */
  lemma CommitIsExactIff(p: Processors, n: nat, b: Books)
    requires Grounded(p, n, b)
    ensures AsAtomic(p, n, b.history + b.buffered, b.cluster.messages + b.cluster.pending, b.views) <==> MadeGood(p, b)
  {
    hide Atomic, ApplyAll;
    AtomicConcat(p, EmptyViews(n), b.history, b.buffered);
    var batch := Atomic(p, b.bases, b.buffered).messages;
    SamePrefix(b.cluster.messages, b.cluster.pending, batch);
    ApplyAllConcat(EmptyViews(n), b.cluster.messages, batch);
  }

  lemma SamePrefix<T>(a: seq<T>, b: seq<T>, c: seq<T>)
    ensures a + b == a + c <==> b == c
  {
    assert (a + b)[|a|..] == b && (a + c)[|a|..] == c;
  }

  /** Committing the batch without its messages is so if and only if it has none, and no cached writes. */
  lemma LossIsExactIff(p: Processors, n: nat, b: Books)
    requires Grounded(p, n, b)
    ensures AsAtomic(p, n, b.history + b.buffered, b.cluster.messages, b.views)
            <==> Atomic(p, b.bases, b.buffered).messages == [] && b.views == b.bases
    ensures MadeGood(p, b) ==>
              (AsAtomic(p, n, b.history + b.buffered, b.cluster.messages, b.views) <==> b.cluster.pending == [])
  {
    hide Atomic;
    assert b.cluster.messages + [] == b.cluster.messages;
    assert ApplyAll(b.bases, []) == b.bases;
    hide ApplyAll, AsAtomic, Grounded;
    CommitIsExactIff(p, n, b.(cluster := b.cluster.(pending := [])));
  }

  // The books with one more record in the batch, and with what it wrote
  ghost function Attempting(b: Books, r: Record, effects: seq<Effect>): Books {
    b.(buffered := b.buffered + [r], cluster := b.cluster.(pending := b.cluster.pending + effects),
       views := ApplyAll(b.views, effects))
  }

  /**
   A record that stays in the batch with what it wrote keeps it made good if and only if it succeeded or wrote
   nothing.
   */
  lemma HalfProcessedIsMadeGoodIff(p: Processors, b: Books, r: Record)
    requires MadeGood(p, b)
    ensures var attempt := p(r, b.views);
            MadeGood(p, Attempting(b, r, attempt.effects)) <==> attempt.ok || attempt.effects == []
  {
    hide Atomic, ApplyAll;
    var attempt := p(r, b.views);
    AtomicSnoc(p, b.bases, b.buffered, r);
    ApplyAllConcat(b.bases, b.cluster.pending, attempt.effects);
    SamePrefix(b.cluster.pending, attempt.effects, []);
    assert b.cluster.pending + [] == b.cluster.pending;
  }

  // --- Closing ---

  ghost predicate OnGround(t: Task)
    reads t, t.buffer, t.producer, t.stores
  {
    Grounded(t.processors, |t.stores|, t.TheBooks())
  }

  lemma HeadIsFaithful(t: Task)
    requires t.AtHead() && !t.tainted
    ensures Faithful(t.processors, |t.stores|, t.TheBooks()) && t.producer.InStep()
    ensures OnGround(t) && MadeGood(t.processors, t.TheBooks())
    ensures InOrder(t.buffer.history + Recs(t.buffer.records))
    ensures t.position.Keys == t.inputs.Keys
  {
    FaithfulIsMadeGood(t.processors, |t.stores|, t.TheBooks());
  }

  lemma HeadIsWired(t: Task)
    requires t.AtHead()
    ensures t.buffer.producer == t.producer && t.buffer.stores == t.stores && t.position.Keys == t.inputs.Keys
    ensures t.producer.Valid()
  {
  }

  // The committed offsets, when the offsets of a batch join them; they replace any that were sent for it before
  lemma OffsetsJoin(history: seq<Record>, batch: seq<Record>, offsets: map<TopicPartition, nat>,
                    sent: map<TopicPartition, nat>)
    requires offsets == OffsetsAfter(map[], history) && sent.Keys <= OffsetsAfter(map[], batch).Keys
    ensures offsets + (sent + OffsetsAfter(map[], batch)) == OffsetsAfter(map[], history + batch)
  {
    OffsetsMerge(history, batch);
    assert sent + OffsetsAfter(map[], batch) == OffsetsAfter(map[], batch);
  }

  // A commit from the ground, on the books: offsets are right, and messages and stores if and only if made good
  lemma GroundedAfterCommit(p: Processors, n: nat, b: Books, after: Books)
    requires Grounded(p, n, b)
    requires after.history == b.history + b.buffered && after.buffered == []
    requires after.cluster.messages == b.cluster.messages + b.cluster.pending
    requires after.cluster.offsets == b.cluster.offsets + (b.cluster.pendingOffsets + OffsetsAfter(map[], b.buffered))
    requires after.cluster.pendingOffsets == map[] && after.bases == b.views
    ensures after.cluster.offsets == OffsetsAfter(map[], after.history)
    ensures Grounded(p, n, after) <==> MadeGood(p, b)
  {
    CommitIsExactIff(p, n, b);
    OffsetsJoin(b.history, b.buffered, b.cluster.offsets, b.cluster.pendingOffsets);
    hide AsAtomic;
  }

  // The final flush, whatever goes wrong
  method FinalFlush(t: Task, last: seq<Fault>) returns (done: bool)
    requires t.AtHead()
    modifies t, t.buffer, t.producer, t.stores
    ensures t.buffer == old(t.buffer) && t.producer == old(t.producer)
    ensures done && old(t.buffer.records) != [] ==>
              && t.buffer.Committed(old(t.producer.cluster), old(Recs(t.buffer.records)), old(t.buffer.history))
              && ViewsOf(t.stores) == old(ViewsOf(t.stores))
              && old(t.producer.txBegin || !t.producer.open)
    ensures old(t.producer.txBegin == t.producer.open) && last == [] ==> done
  {
    hide Spends, Task.AtHead, Task.Recoverable, Buffer.FlushTold;
    t.Meet(last);
    done := t.Close();
  }

  /**
   A tick of a closing task whose committed part is as atomic. It stays so unless the tick commits, and
   then it does if and only if transaction and caches were made good.
   */
  method TickWhileClosing(t: Task, faults: seq<Fault>) returns (died: bool, ghost o: Outcome)
    requires t.AtHead() && t.buffer.closing
    modifies t, t.buffer, t.producer, t.stores, t.buffer.records
    ensures t.buffer == old(t.buffer) && t.producer == old(t.producer) && t.buffer.closing
    ensures t.position == old(t.position)
    ensures !died ==> t.AtHead() && forall r | r in t.buffer.records :: r in old(t.buffer.records)
    ensures t.buffer.FlushTold(o, old(t.TheBooks()), old(t.producer.InStep()), faults)
    ensures o.Done? || !died ==> t.buffer.records == [] || t.buffer.records == old(t.buffer.records)
    ensures !died && !Repeats(faults) && old(OnGround(t)) ==>
              if o.Done? && old(t.buffer.records) != [] then OnGround(t) <==> old(MadeGood(t.processors, t.TheBooks()))
              else OnGround(t) && t.buffer.history == old(t.buffer.history)
    ensures o.Done? && old(t.buffer.records) != [] ==> old(t.producer.txBegin || !t.producer.open)
    ensures old(t.tainted) ==> t.tainted
    ensures died <==> o.Crashed?
    ensures old(t.producer.txBegin == t.producer.open) && faults == [] ==>
              o.Done? && t.producer.txBegin == t.producer.open
  {
    hide Spends, Denials, Grounded, MadeGood, Task.AtHead, Task.Recoverable, Task.TickTold, MetaFails, FailsAfterCommit,
      Answer, Buffer.FlushTold;
    ghost var before, inStep := t.TheBooks(), t.producer.InStep();
    HeadIsWired(t);
    t.Meet(faults);
    assert |Recs(t.buffer.records)| == |t.buffer.records|;
    ghost var drops;
    died, o, drops := t.OnTick();
    if !died && !Repeats(faults) && Grounded(t.processors, |t.stores|, before) {
      AfterClosingTick(t, before, inStep, faults, o);
    }
  }

  lemma AfterClosingTick(t: Task, before: Books, inStep: bool, faults: seq<Fault>, o: Outcome)
    requires t.buffer.producer == t.producer && t.buffer.stores == t.stores
    requires t.buffer.FlushTold(o, before, inStep, faults) && !o.Crashed? && !Repeats(faults)
    requires Grounded(t.processors, |t.stores|, before) && |before.views| == |t.stores|
    ensures if o.Done? && before.buffered != [] then OnGround(t) <==> MadeGood(t.processors, before)
            else OnGround(t) && t.buffer.history == before.history
  {
    hide Answer, MetaFails, FailsAfterCommit, MadeGood, AsAtomic, OffsetsAfter;
    if o.Done? && before.buffered != [] {
      hide Grounded;
      GroundedAfterCommit(t.processors, |t.stores|, before, t.TheBooks());
    }
  }

  /** An arrival at such a task, whatever goes wrong: the record stays in the batch, with what it wrote. */
  method ArrivalWhileClosing(t: Task, tp: TopicPartition, faults: seq<Fault>) returns (died: bool)
    requires t.AtHead() && t.buffer.closing && t.position.Keys == t.inputs.Keys
    modifies t, t.buffer, t.producer, t.stores, t.buffer.records
    ensures t.buffer == old(t.buffer) && t.producer == old(t.producer) && t.buffer.closing
    ensures !died ==> t.AtHead() && (old(OnGround(t)) ==> OnGround(t))
    ensures !died ==> forall x | x in t.buffer.records :: x in old(t.buffer.records) || fresh(x)
    ensures old(t.producer.txBegin == t.producer.open) && Survivable(faults) ==> !died
    ensures old(t.producer.txBegin == t.producer.open) && faults == [] ==> t.producer.txBegin == t.producer.open
    ensures !old(t.tainted) && Survivable(faults) ==> !died
    ensures !old(t.tainted) && faults == [] && old(t.NextOf(tp)).Some? ==> t.producer.InStep()
    ensures t.buffer.history == old(t.buffer.history) && (old(t.tainted) ==> t.tainted)
    ensures t.producer.cluster.messages == old(t.producer.cluster.messages)
    ensures t.producer.cluster.offsets == old(t.producer.cluster.offsets)
    ensures old(t.NextOf(tp)).None? ==> !died && t.TheBooks() == old(t.TheBooks()) && t.position == old(t.position)
    ensures old(t.NextOf(tp)).Some? ==> t.position == old(t.position)[tp := old(t.position)[tp] + 1]
    ensures !died && old(t.NextOf(tp)).Some? ==>
              && t.buffer.history == old(t.buffer.history) && BaseViewsOf(t.stores) == old(BaseViewsOf(t.stores))
              && t.producer.cluster.pendingOffsets == old(t.producer.cluster.pendingOffsets)
    ensures !died && old(t.NextOf(tp)).Some? ==>
              var r, attempt := old(t.NextOf(tp)).value, t.processors(old(t.NextOf(tp)).value, old(ViewsOf(t.stores)));
              && t.buffer.records != [] && Recs(t.buffer.records) == old(Recs(t.buffer.records)) + [r]
              && (t.producer.txBegin || !t.producer.open ==>
                    t.TheBooks() == Attempting(old(t.TheBooks()), r, attempt.effects))
  {
    hide Spends, ApplyAll, Denials, Grounded, Survivable, OffsetsAfter, Task.AtHead, Task.Recoverable, Task.Handled;
    ghost var before, were, clean := t.TheBooks(), Denials(t.verdicts), !t.tainted;
    if clean {
      HeadIsFaithful(t);
    }
    t.Meet(faults);
    died := t.OnArrive(tp);
    if old(t.NextOf(tp)).Some? {
      ghost var r := old(t.NextOf(tp)).value;
      LeftToCommit(t, r, before, !clean, were, faults, died);
      if !died {
        OffsetsSnoc(map[], before.buffered, r);
        if Grounded(t.processors, |t.stores|, before) {
          StillGrounded(t.processors, |t.stores|, before, t.TheBooks());
        }
        assert |Recs(t.buffer.records)| == |t.buffer.records|;
      }
    }
  }

  lemma StillGrounded(p: Processors, n: nat, before: Books, b: Books)
    requires Grounded(p, n, before) && b.history == before.history && b.bases == before.bases
    requires b.cluster.messages == before.cluster.messages && b.cluster.offsets == before.cluster.offsets
    requires b.cluster.pendingOffsets == before.cluster.pendingOffsets
    requires OffsetsAfter(map[], before.buffered).Keys <= OffsetsAfter(map[], b.buffered).Keys
    ensures Grounded(p, n, b)
  {
  }

  // What the arrival left for the final flush, unless a producer error ended the attempt
  lemma LeftToCommit(t: Task, r: Record, before: Books, wasTainted: bool, were: nat, faults: seq<Fault>, died: bool)
    requires t.Handled(r, before, wasTainted, were, faults, died) && t.buffer.closing && |before.views| == |t.stores|
    ensures !wasTainted && Survivable(faults) ==> !died
    ensures !wasTainted && faults == [] ==> t.producer.InStep()
    ensures t.producer.cluster.messages == before.cluster.messages
    ensures t.producer.cluster.offsets == before.cluster.offsets
    ensures BaseViewsOf(t.stores) == before.bases
    ensures !died ==>
              && t.buffer.history == before.history && Recs(t.buffer.records) == before.buffered + [r]
              && t.producer.cluster.pendingOffsets == before.cluster.pendingOffsets
              && (t.producer.txBegin || !t.producer.open ==>
                    t.TheBooks() == Attempting(before, r, t.processors(r, before.views).effects))
  {
    hide ApplyAll;
  }

  // A close request, the first or another one
  method RequestClose(t: Task)
    requires t.AtHead()
    modifies t.buffer`closing
    ensures t.AtHead() && t.buffer.closing && t.TheBooks() == old(t.TheBooks()) && t.position == old(t.position)
    ensures t.buffer.records == old(t.buffer.records)
  {
    hide Sound, UsesStores, PartitionLogs, Distinct, OffsetsAfter;
    ghost var track := t.TheTrack();
    t.buffer.MarkAsClosing();
    assert t.TheTrack() == track;
  }

  // --- A closing task over any schedule ---

  /** What an event finds; `stuck` is a transaction that a producer error left, which no flush can commit. */
  datatype Head = Head(books: Books, position: map<TopicPartition, nat>, stuck: bool)

  ghost function TheHead(t: Task): Head
    reads t, t.buffer, t.producer, t.stores
  {
    Head(t.TheBooks(), t.position, t.producer.open && !t.producer.txBegin)
  }

  // The books once transaction, offsets and caches are committed, just as they are
  ghost function CommittedBooks(b: Books): Books {
    Books(b.history + b.buffered, [],
          Cluster(b.cluster.messages + b.cluster.pending,
                  b.cluster.offsets + (b.cluster.pendingOffsets + OffsetsAfter(map[], b.buffered)), [], map[]),
          b.views, b.views)
  }

  // The tick between them committed the batch
  ghost predicate Commits(h: Head, h': Head) {
    h.books.buffered != [] && h'.books.history == h.books.history + h.books.buffered
  }

  // A flush that failed
  ghost predicate KeptBy(b: Books, b': Books) {
    && b' == b.(cluster := b'.cluster)
    && b'.cluster.messages == b.cluster.messages && b'.cluster.offsets == b.cluster.offsets
    && (b'.cluster.pending == b.cluster.pending || b'.cluster.pending == [])
    && b'.cluster.pendingOffsets.Keys <= b.cluster.pendingOffsets.Keys + OffsetsAfter(map[], b.buffered).Keys
  }

  // The record stays in the batch; with all it wrote, unless a producer error ended the attempt
  ghost predicate TakesIn(p: Processors, b: Books, h': Head, r: Record) {
    var b' := h'.books;
    && b'.history == b.history && b'.buffered == b.buffered + [r] && b'.bases == b.bases
    && b'.cluster == b.cluster.(pending := b'.cluster.pending)
    && (!h'.stuck ==> b' == Attempting(b, r, p(r, b.views).effects))
  }

  /** One event of a closing task, whatever goes wrong but a flush that fails after its commit. */
  ghost predicate Follows(p: Processors, inputs: Inputs, e: Event, h: Head, h': Head) {
    && h'.position == Moved(inputs, h.position, e) && (h'.stuck ==> h.stuck || e.Script() != [])
    && match e
       case CloseRequested => h' == h
       case Tick(faults) =>
         if h.books.buffered == [] then h'.books == h.books
         else if Commits(h, h') then !h.stuck && !h'.stuck && h'.books == CommittedBooks(h.books)
         else KeptBy(h.books, h'.books) && (h.stuck || faults != [])
       case Arrive(_, _) =>
         var arrival := Arrival(inputs, h.position, e);
         if arrival == [] then h'.books == h.books else TakesIn(p, h.books, h', arrival[0])
  }

  lemma GroundFollows(p: Processors, n: nat, inputs: Inputs, e: Event, h: Head, h': Head)
    requires Grounded(p, n, h.books) && Follows(p, inputs, e, h, h')
    ensures if Commits(h, h') then Grounded(p, n, h'.books) <==> MadeGood(p, h.books) else Grounded(p, n, h'.books)
  {
    hide AsAtomic, MadeGood, Moved;
    if e.Tick? && Commits(h, h') {
      GroundedAfterCommit(p, n, h.books, h'.books);
    } else if e.Arrive? && Arrival(inputs, h.position, e) != [] {
      OffsetsSnoc(map[], h.books.buffered, Arrival(inputs, h.position, e)[0]);
      assert |h'.books.history| == |h.books.history|;
    }
  }

  /** What the events of a schedule find, one after another. */
  ghost predicate RunsThrough(p: Processors, inputs: Inputs, schedule: seq<Event>, heads: seq<Head>) {
    && 0 < |heads| <= |schedule| + 1
    && forall k :: 0 <= k < |heads| - 1 ==> Follows(p, inputs, schedule[k], heads[k], heads[k + 1])
  }

  ghost predicate AllGrounded(p: Processors, n: nat, heads: seq<Head>) {
    forall k :: 0 <= k < |heads| ==> Grounded(p, n, heads[k].books)
  }

  ghost predicate AllMadeGood(p: Processors, heads: seq<Head>) {
    forall k :: 0 <= k < |heads| - 1 && Commits(heads[k], heads[k + 1]) ==> MadeGood(p, heads[k].books)
  }

  /** What is committed is as atomic at every event if and only if every batch is made good when it is committed. */
  lemma {:induction false} GroundedIffMadeGood(p: Processors, n: nat, inputs: Inputs, schedule: seq<Event>,
                                               heads: seq<Head>)
    requires RunsThrough(p, inputs, schedule, heads) && Grounded(p, n, heads[0].books)
    ensures AllGrounded(p, n, heads) <==> AllMadeGood(p, heads)
    decreases |heads|
  {
    hide Grounded, MadeGood, Follows, Commits;
    if |heads| > 1 {
      var m := |heads| - 1;
      var front := heads[..m];
      GroundedIffMadeGood(p, n, inputs, schedule, front);
      assert front[m - 1] == heads[m - 1];
      assert AllGrounded(p, n, heads) <==> AllGrounded(p, n, front) && Grounded(p, n, heads[m].books);
      assert AllMadeGood(p, heads)
        <==> AllMadeGood(p, front) && (Commits(heads[m - 1], heads[m]) ==> MadeGood(p, heads[m - 1].books));
      if AllGrounded(p, n, front) {
        assert Follows(p, inputs, schedule[m - 1], heads[m - 1], heads[m]);
        GroundFollows(p, n, inputs, schedule[m - 1], heads[m - 1], heads[m]);
      }
    }
  }

  // The process died in an event that found `h`: nothing was committed, or all that was to be
  ghost predicate DiedAfter(t: Task, h: Head)
    reads t, t.buffer, t.producer
  {
    var b, c := h.books, t.producer.cluster;
    || (t.buffer.history == b.history && c.messages == b.cluster.messages && c.offsets == b.cluster.offsets)
    || (&& t.buffer.history == CommittedBooks(b).history && c.messages == CommittedBooks(b).cluster.messages
        && c.offsets == CommittedBooks(b).cluster.offsets)
  }

  lemma TickFollows(t: Task, h: Head, inStep: bool, e: Event, o: Outcome)
    requires t.buffer.producer == t.producer && t.buffer.stores == t.stores
    requires e.Tick? && !Repeats(e.faults) && t.buffer.FlushTold(o, h.books, inStep, e.faults)
    requires o.Done? && h.books.buffered != [] ==> !h.stuck
    requires !h.stuck && e.faults == [] ==> o.Done? && !TheHead(t).stuck
    requires t.position == h.position && |h.books.views| == |t.stores|
    ensures !o.Crashed? ==> Follows(t.processors, t.inputs, e, h, TheHead(t))
    ensures o.Crashed? ==> DiedAfter(t, h)
  {
    hide Answer, MetaFails, FailsAfterCommit, OffsetsAfter;
    assert h.books.buffered != [] ==> h.books.history + h.books.buffered != h.books.history;
  }

  // One event
  method EventWhileClosing(t: Task, e: Event) returns (died: bool)
    requires t.AtHead() && t.buffer.closing && !Repeats(e.Script())
    modifies t, t.buffer, t.producer, t.stores, t.buffer.records
    ensures t.buffer == old(t.buffer) && t.producer == old(t.producer) && t.buffer.closing
    ensures !died ==> t.AtHead() && Follows(t.processors, t.inputs, e, old(TheHead(t)), TheHead(t))
    ensures !died ==> forall x | x in t.buffer.records :: x in old(t.buffer.records) || fresh(x)
    ensures died ==> DiedAfter(t, old(TheHead(t))) && (e.Script() != [] || old(TheHead(t)).stuck)
  {
    hide Grounded, MadeGood, OffsetsAfter, ApplyAll, Buffer.FlushTold, Task.AtHead;
    assert Survivable([]);
    ghost var h, inStep := TheHead(t), t.producer.InStep();
    HeadIsWired(t);
    match e {
      case Tick(faults) =>
        hide Follows, DiedAfter;
        assert |Recs(t.buffer.records)| == |t.buffer.records|;
        ghost var o;
        died, o := TickWhileClosing(t, faults);
        assert t.buffer.producer == t.producer && t.buffer.stores == t.stores;
        TickFollows(t, h, inStep, e, o);
      case Arrive(tp, faults) =>
        died := ArrivalWhileClosing(t, tp, faults);
      case CloseRequested =>
        RequestClose(t);
        died := false;
    }
  }

  /**
   A closing task over any schedule, whatever goes wrong but a flush that fails after its commit, event by
   event. What is committed is as atomic throughout if and only if each batch is made good when it is committed.
   */
  method ClosingRun(t: Task, schedule: seq<Event>) returns (died: bool, ghost heads: seq<Head>)
    requires t.AtHead() && t.buffer.closing && OnGround(t) && NoneFails(schedule)
    modifies t, t.buffer, t.producer, t.stores, t.buffer.records
    ensures RunsThrough(t.processors, t.inputs, schedule, heads) && heads[0] == old(TheHead(t))
    ensures !died ==> t.AtHead() && |heads| == |schedule| + 1 && heads[|schedule|] == TheHead(t)
    ensures died ==>
              && |heads| <= |schedule| && DiedAfter(t, heads[|heads| - 1])
              && (schedule[|heads| - 1].Script() != [] || heads[|heads| - 1].stuck)
    ensures AllGrounded(t.processors, |t.stores|, heads) <==> AllMadeGood(t.processors, heads)
  {
    hide Grounded, MadeGood, Follows, DiedAfter, Commits, Task.AtHead;
    died, heads := false, [TheHead(t)];
    var n := 0;
    while n < |schedule|
      invariant n <= |schedule| && |heads| == n + 1
      invariant t.buffer == old(t.buffer) && t.producer == old(t.producer)
      invariant t.AtHead() && t.buffer.closing && heads[n] == TheHead(t) && heads[0] == old(TheHead(t))
      invariant RunsThrough(t.processors, t.inputs, schedule, heads)
      invariant forall j :: 0 <= j < |t.buffer.records| ==>
                              t.buffer.records[j] in old(t.buffer.records) || fresh(t.buffer.records[j])
    {
      NoneFailsAt(schedule, n);
      assert forall x | x in t.buffer.records :: x in old(t.buffer.records) || fresh(x);
      died := EventWhileClosing(t, schedule[n]);
      if died {
        break;
      }
      heads := heads + [TheHead(t)];
      n := n + 1;
    }
    GroundedIffMadeGood(t.processors, |t.stores|, t.inputs, schedule, heads);
  }

  // --- What the final flush of a closing task commits ---

  /**
   A record arrives while the task is closing, whatever went wrong before and goes wrong now, if only what
   was committed is as atomic. If the final flush then succeeds, what it commits is as atomic if and only
   if it is made good; and where it was so before the arrival, if and only if the attempt succeeded or
   wrote nothing.
   */
  method ArrivesWhileClosing(t: Task, tp: TopicPartition, faults: seq<Fault>, last: seq<Fault>)
    returns (done: bool, ghost r: Record, ghost attempt: Attempt, ghost exact: bool)
    requires t.AtHead() && t.buffer.closing && OnGround(t) && t.position.Keys == t.inputs.Keys && t.NextOf(tp).Some?
    modifies t, t.buffer, t.producer, t.stores, t.buffer.records
    ensures r == old(t.NextOf(tp)).value && attempt == t.processors(r, old(ViewsOf(t.stores)))
    ensures done ==>
              && t.buffer.history == old(t.buffer.history) + (old(Recs(t.buffer.records)) + [r])
              && t.producer.cluster.offsets == OffsetsAfter(map[], t.buffer.history)
              && t.producer.cluster.messages
                 == old(t.producer.cluster.messages + t.producer.cluster.pending) + attempt.effects
    ensures exact == AsAtomic(t.processors, |t.stores|, t.buffer.history, t.producer.cluster.messages,
                              ViewsOf(t.stores))
    ensures done ==> (exact <==> MadeGood(t.processors, Attempting(old(t.TheBooks()), r, attempt.effects)))
    ensures done && old(MadeGood(t.processors, t.TheBooks())) ==> (exact <==> attempt.ok || attempt.effects == [])
    ensures !old(t.tainted) && faults == [] && last == [] ==> done
  {
    hide ApplyAll, AsAtomic, OffsetsAfter, Grounded, MadeGood, Task.AtHead;
    ghost var before := t.TheBooks();
    HeadIsWired(t);
    r, attempt, done := t.NextOf(tp).value, t.processors(t.NextOf(tp).value, ViewsOf(t.stores)), false;
    var died := ArrivalWhileClosing(t, tp, faults);
    if !died {
      ghost var left := t.TheBooks();
      HeadIsWired(t);
      done := FinalFlush(t, last);
      if done {
        assert left == Attempting(before, r, attempt.effects);
        CommitIsExactIff(t.processors, |t.stores|, left);
        OffsetsOfGround(t.processors, |t.stores|, left);
        assert before.cluster.messages + (before.cluster.pending + attempt.effects)
            == before.cluster.messages + before.cluster.pending + attempt.effects;
        if MadeGood(t.processors, before) {
          HalfProcessedIsMadeGoodIff(t.processors, before, r);
        }
      }
    }
    exact := AsAtomic(t.processors, |t.stores|, t.buffer.history, t.producer.cluster.messages, ViewsOf(t.stores));
  }

  lemma OffsetsOfGround(p: Processors, n: nat, b: Books)
    requires Grounded(p, n, b)
    ensures b.cluster.offsets + (b.cluster.pendingOffsets + OffsetsAfter(map[], b.buffered))
            == OffsetsAfter(map[], b.history + b.buffered)
            == b.cluster.offsets + (map[] + OffsetsAfter(map[], b.buffered))
  {
    OffsetsJoin(b.history, b.buffered, b.cluster.offsets, b.cluster.pendingOffsets);
    OffsetsJoin(b.history, b.buffered, b.cluster.offsets, map[]);
  }

  /**
   The metadata fetch of a flush fails while the task is closing, and the transaction is aborted; if the
   final flush then succeeds, offsets and stores are committed without the batch's messages. That is as
   atomic if and only if the batch, run atomically, writes nothing and nothing is cached of it; and where
   transaction and caches were made good, if and only if the transaction had held nothing.
   */
  method MetadataFailsWhileClosing(t: Task, faults: seq<Fault>, last: seq<Fault>) returns (done: bool,
                                   ghost exact: bool)
    requires t.AtHead() && t.buffer.closing && OnGround(t) && t.buffer.records != []
    requires faults != [] && MetaFails(faults[0]) && Answer(faults[1..]).Done?
    modifies t, t.buffer, t.producer, t.stores, t.buffer.records
    ensures done ==>
              && t.buffer.history == old(t.buffer.history) + old(Recs(t.buffer.records))
              && t.producer.cluster.offsets == OffsetsAfter(map[], t.buffer.history)
              && t.producer.cluster.messages == old(t.producer.cluster.messages)
    ensures exact == AsAtomic(t.processors, |t.stores|, t.buffer.history, t.producer.cluster.messages,
                              ViewsOf(t.stores))
    ensures var bases, batch := old(BaseViewsOf(t.stores)), old(Recs(t.buffer.records));
            done ==>
              (exact <==> Atomic(t.processors, bases, batch).messages == [] && old(ViewsOf(t.stores)) == bases)
    ensures done && old(MadeGood(t.processors, t.TheBooks())) ==> (exact <==> old(t.producer.cluster.pending) == [])
    ensures last == [] ==> done
  {
    hide Atomic, ApplyAll, AsAtomic, OffsetsAfter, Grounded, MadeGood, Spends, Task.AtHead;
    ghost var before := t.TheBooks();
    HeadIsWired(t);
    assert |before.buffered| == |t.buffer.records|;
    var died;
    ghost var o;
    died, o := TickWhileClosing(t, faults);
    HeadIsWired(t);
    LostByTick(t, before, old(t.producer.InStep()), faults, o);
    done := FinalFlush(t, last);
    if done {
      LossIsExactIff(t.processors, |t.stores|, before);
      OffsetsOfGround(t.processors, |t.stores|, before);
      assert before.cluster.messages + [] == before.cluster.messages;
    }
    exact := AsAtomic(t.processors, |t.stores|, t.buffer.history, t.producer.cluster.messages, ViewsOf(t.stores));
  }

  lemma LostByTick(t: Task, before: Books, inStep: bool, faults: seq<Fault>, o: Outcome)
    requires t.buffer.FlushTold(o, before, inStep, faults) && before.buffered != []
    requires faults != [] && MetaFails(faults[0]) && Answer(faults[1..]).Done?
    ensures o.Failed? && t.buffer.MetaLost(before.cluster, before.views, before.bases, before.history)
    ensures Recs(t.buffer.records) == before.buffered
  {
    hide Answer, MetaFails, FailsAfterCommit;
  }

  // --- A flush that fails after its commit ---

  lemma RepeatedIsOnceEach(history: seq<Record>, batch: seq<Record>, again: seq<Record>)
    requires InOrder(history + batch) && Subsequence(again, batch)
    ensures InOrder(history + batch + again) <==> again == []
  {
    if again == [] {
      assert history + batch + again == history + batch;
    } else {
      var at := SubsequencePositions(again, batch);
      var all := history + batch + again;
      assert all[|history| + at[0]] == again[0] == all[|history| + |batch|];
    }
  }

  // A tick, whatever goes wrong
  method Tick(t: Task, faults: seq<Fault>) returns (died: bool, ghost o: Outcome, ghost drops: seq<Drop>)
    requires t.AtHead() && !t.buffer.closing
    modifies t, t.buffer, t.producer, t.stores, t.buffer.records
    ensures t.buffer == old(t.buffer) && t.producer == old(t.producer) && !t.buffer.closing
    ensures old(t.tainted) ==> t.tainted
    ensures !died ==> t.AtHead() && forall r | r in t.buffer.records :: r in old(t.buffer.records)
    ensures t.TickTold(old(t.TheBooks()), old(t.tainted), Denials(old(t.verdicts)), faults, died, drops)
    ensures DropDenials(drops) <= Refusals(faults) && (faults == [] ==> o.Done?)
    ensures o.Done? && old(t.buffer.records) != [] ==>
              && t.buffer.Committed(old(t.producer.cluster), old(Recs(t.buffer.records)), old(t.buffer.history))
    ensures o.Done? && old(t.buffer.records) == [] ==> t.TheBooks() == old(t.TheBooks())
  {
    hide Spends, Denials, Task.AtHead, Task.Recoverable, Task.TickTold, MetaFails, FailsAfterCommit, Answer;
    HeadIsWired(t);
    t.Meet(faults);
    assert |Recs(t.buffer.records)| == |t.buffer.records|;
    died, o, drops := t.OnTick();
  }

  /**
   A tick commits the batch, and then a store fails to flush or the commit is answered with an error, so the
   batch is replayed on bases of which some may have it already. When the next tick commits, the committed
   records come once each if and only if that replay kept none of them, as an atomic run of the batch on
   those bases tells.
   */
  method StoreFailsAfterCommit(t: Task, faults: seq<Fault>, next: seq<Fault>)
    returns (ghost again: bool, ghost bases: Views, ghost kept: seq<Record>)
    requires t.AtHead() && !t.tainted && !t.buffer.closing && t.buffer.records != []
    modifies t, t.buffer, t.producer, t.stores, t.buffer.records
    ensures again ==>
              && t.tainted && Repeats(faults)
              && |bases| == |t.stores|
              && (forall i :: 0 <= i < |bases| ==>
                    bases[i] == old(t.stores[i].BaseView()) || bases[i] == old(t.stores[i].View()))
              && t.buffer.history == old(t.buffer.history + Recs(t.buffer.records)) + kept
              && (InOrder(t.buffer.history) <==> kept == [])
              && (Refusals(faults) == 0 ==>
                    && kept == Atomic(t.processors, bases, old(Recs(t.buffer.records))).kept
                    && t.producer.cluster.messages
                       == old(t.producer.cluster.messages + t.producer.cluster.pending)
                          + Atomic(t.processors, bases, old(Recs(t.buffer.records))).messages)
    ensures (old(t.producer.cluster.pending) != [] && t.stores != [] && FailsAfterCommit(faults) && |faults| == 4
             && next == []) ==> again
  {
    hide Atomic, ApplyAll, OffsetsAfter, Thins, InOrder, Faithful, FailsAfterCommit, MetaFails, Answer, Task.AtHead;
    ghost var before := t.TheBooks();
    HeadIsFaithful(t);
    HeadIsWired(t);
    assert |before.buffered| == |t.buffer.records|;
    var died;
    ghost var o, drops;
    died, o, drops := Tick(t, faults);
    bases, kept, again := BaseViewsOf(t.stores), Recs(t.buffer.records), false;
    if died {
      return;
    }
    ghost var repeated, between := t.tainted, t.TheBooks();
    HeadIsWired(t);
    assert forall i :: 0 <= i < |t.buffer.records| ==> t.buffer.records[i] in old(t.buffer.records);
    ghost var o', drops';
    died, o', drops' := Tick(t, next);
    again := repeated && o'.Done?;
    if again {
      ThinsToSubsequence(t.processors, bases, before.buffered, drops, kept);
      RepeatedIsOnceEach(before.history, before.buffered, kept);
      if Refusals(faults) == 0 {
        DropsLeaveNoTrace(t.processors, bases, before.buffered, drops, kept);
      }
      if kept == [] {
        assert between.history + [] == between.history;
        assert between.cluster.messages + [] == between.cluster.messages;
        NothingRun(t.processors, bases);
      }
    }
  }

  // --- A restore after a tombstone is gone ---

  /**
   A new process restores its stores from what compaction has left. They are the committed state if and only
   if the changelogs mention every key that the bases held, so that a lost tombstone does not matter.
   */
  method RestoresCleaned(t: Task, changelogs: seq<seq<Effect>>, faults: seq<Fault>) returns (died: bool)
    requires UsesStores(t.processors, |t.stores|) && Distinct(t.stores) && PartitionLogs(t.inputs)
    requires !t.tainted && t.Recoverable()
    requires |changelogs| == |t.stores| && Held(t.producer.cluster.messages, changelogs)
    modifies t, t.stores
    ensures fresh(t.producer) && fresh(t.buffer)
    ensures !died ==>
              && t.AtHead() && (t.tainted <==> !Remember(changelogs, old(BaseViewsOf(t.stores))))
              && (AsAtomic(t.processors, |t.stores|, t.buffer.history, t.producer.cluster.messages, ViewsOf(t.stores))
                  <==> Remember(changelogs, old(BaseViewsOf(t.stores))))
    ensures faults == [] ==> !died
  {
    hide UsesStores, PartitionLogs, Distinct, Held, Remember, Restores, Mentions, Atomic, ApplyAll, Sound, Settled,
      Told, Spends, Task.AtHead;
    ghost var bases, history, cluster := BaseViewsOf(t.stores), t.buffer.history, t.producer.cluster;
    died := t.Restart(changelogs, None, faults);
    if !died {
      DurableIgnoresPending(t.processors, |t.stores|, history, cluster, bases);
      RestoreIsFaithful(t.processors, |t.stores|, history, cluster.Discarded(), bases, changelogs, ViewsOf(t.stores));
    }
  }

  lemma DurableIgnoresPending(p: Processors, n: nat, history: seq<Record>, cluster: Cluster, bases: Views)
    requires Durable(p, n, history, cluster, bases)
    ensures Durable(p, n, history, cluster.Discarded(), bases)
  {
  }
}
