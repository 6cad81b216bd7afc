/**
 Whole histories of one task: any number of process lives, each with its own faults and its own
 schedule, each ended by a crash, by a shutdown, or by being killed between two events.
 */
module Runs {
  import opened Basics
  import opened Changelog
  import opened AtomicRun
  import opened TxProducer
  import opened StateStore
  import opened Ledger
  import opened Schedules
  import opened StreamTask

  // What a changelog topic still holds of its log, store by store
  type Compaction = (nat, seq<Effect>) -> seq<Effect>

  /**
   A life: the faults its start meets, what compaction has left of the changelogs by then, after how
   many records of each store its restore is cut off if it is, and what it lives through afterwards.
   */
  datatype Life = Life(faults: seq<Fault>, compaction: Compaction, cutOff: Option<nat -> nat>, schedule: seq<Event>,
                       last: seq<Fault>)

  ghost predicate Cleans(c: Compaction) {
    forall i, log :: Cleaned(i, log, c(i, log))
  }

  // No tombstone is gone yet
  ghost predicate Compacts(c: Compaction) {
    forall i, log :: Compacted(i, log, c(i, log))
  }

  ghost function LivesRefusals(lives: seq<Life>): nat {
    if lives == [] then 0
    else LivesRefusals(lives[..|lives| - 1]) + ScheduleRefusals(lives[|lives| - 1].schedule)
  }

  // The first close request
  ghost predicate FirstClose(schedule: seq<Event>, i: nat) {
    i < |schedule| && schedule[i].CloseRequested? && CloseRequested !in schedule[..i]
  }

  /** Once a close was requested nothing goes wrong any more, from whatever state the request can find the task in. */
  ghost predicate ClosesCalmly(p: Processors, n: nat, inputs: Inputs, schedule: seq<Event>) {
    forall i: nat, delivered, views, position ::
      FirstClose(schedule, i) && Meets(p, n, inputs, delivered, views, position) ==>
        Calm(p, inputs, views, position, true, schedule[i + 1..])
  }

  /** The same of a run without denials from a given state: there is one state that the request finds. */
  ghost predicate ClosesCalmlyFrom(p: Processors, n: nat, inputs: Inputs, delivered: seq<Record>,
                                   start: map<TopicPartition, nat>, schedule: seq<Event>)
  {
    forall i: nat :: FirstClose(schedule, i) ==>
      Calm(p, inputs, ViewsAfter(p, n, delivered + Arrivals(inputs, start, schedule[..i])),
           Advance(inputs, start, schedule[..i]), true, schedule[i + 1..])
  }

  // A record that no state of the stores makes fail
  ghost predicate NeverFails(p: Processors, r: Record) {
    forall views :: p(r, views).ok
  }

  ghost predicate Unfailing(p: Processors, inputs: Inputs, e: Event) {
    && e.Script() == []
    && (e.Arrive? && e.tp in inputs ==> forall k :: 0 <= k < |inputs[e.tp]| ==> NeverFails(p, inputs[e.tp][k]))
  }

  lemma {:induction false} UnfailingIsCalm(p: Processors, inputs: Inputs, views: Views,
                                           position: map<TopicPartition, nat>, closing: bool,
                                           schedule: seq<Event>)
    requires forall e | e in schedule :: Unfailing(p, inputs, e)
    ensures Calm(p, inputs, views, position, closing, schedule)
    decreases |schedule|
  {
    hide ApplyAll, Atomic;
    if schedule != [] {
      var e, arrival := schedule[0], Arrival(inputs, position, schedule[0]);
      assert Unfailing(p, inputs, e);
      if arrival != [] {
        assert NeverFails(p, arrival[0]) && p(arrival[0], views).ok;
      }
      UnfailingIsCalm(p, inputs, ApplyAll(views, Atomic(p, views, arrival).messages), Moved(inputs, position, e),
                      closing || e.CloseRequested?, schedule[1..]);
    }
  }

  /** So it is if no fault is left then and only records that fail on no state arrive, or if the request comes last. */
  lemma UnfailingClosesCalmly(p: Processors, n: nat, inputs: Inputs, schedule: seq<Event>)
    requires forall i: nat, j :: FirstClose(schedule, i) && i < j < |schedule| ==> Unfailing(p, inputs, schedule[j])
    ensures ClosesCalmly(p, n, inputs, schedule)
  {
    hide Meets, Calm, Unfailing;
    forall i: nat, delivered, views, position
      | FirstClose(schedule, i) && Meets(p, n, inputs, delivered, views, position)
      ensures Calm(p, inputs, views, position, true, schedule[i + 1..])
    {
      var rest := schedule[i + 1..];
      forall e | e in rest ensures Unfailing(p, inputs, e) {
        var k :| 0 <= k < |rest| && rest[k] == e;
        assert schedule[i + 1 + k] == e;
      }
      UnfailingIsCalm(p, inputs, views, position, true, rest);
    }
  }

  // Where the consumer resumes
  function Resumed(inputs: Inputs, offsets: map<TopicPartition, nat>): map<TopicPartition, nat> {
    map tp | tp in inputs :: Seek(inputs[tp], CommittedOffset(offsets, tp))
  }

  /**
   A life that over this history nothing ends before its time: its start meets mild errors, and its schedule is
   calm.
   */
  ghost predicate Thrives(p: Processors, n: nat, inputs: Inputs, history: seq<Record>, l: Life) {
    && Mild(l.faults) && l.cutOff.None?
    && Calm(p, inputs, ViewsAfter(p, n, history), Resumed(inputs, OffsetsAfter(map[], history)), false, l.schedule)
  }

  // Its flushes meet no errors at all
  ghost predicate Prompt(l: Life) {
    && (forall e | e in l.schedule :: e.Tick? ==> e.faults == [])
    && (CloseRequested in l.schedule ==> l.last == [])
  }

  /**
   What such a life commits: the history, then what the atomic run keeps of the arrivals up to the last flush. That is
   the final one if the task is told to close, and else the last tick.
   */
  ghost function Committing(p: Processors, n: nat, inputs: Inputs, history: seq<Record>, l: Life): seq<Record> {
    var start := Resumed(inputs, OffsetsAfter(map[], history));
    if CloseRequested in l.schedule then KeptAfter(p, n, inputs, history, start, l.schedule)
    else
      match LastTick(l.schedule)
      case None => history
      case Some(k) => KeptAfter(p, n, inputs, history, start, l.schedule[..k])
  }

  ghost function CommittingAll(p: Processors, n: nat, inputs: Inputs, history: seq<Record>, lives: seq<Life>)
    : seq<Record>
  {
    if lives == [] then history
    else
      var m := |lives| - 1;
      Committing(p, n, inputs, CommittingAll(p, n, inputs, history, lives[..m]), lives[m])
  }

  ghost predicate AllThrive(p: Processors, n: nat, inputs: Inputs, history: seq<Record>, lives: seq<Life>) {
    forall i :: 0 <= i < |lives| ==>
      Prompt(lives[i]) && Thrives(p, n, inputs, CommittingAll(p, n, inputs, history, lives[..i]), lives[i])
  }

  lemma CommittingStep(p: Processors, n: nat, inputs: Inputs, history: seq<Record>, lives: seq<Life>, i: nat)
    requires i < |lives|
    ensures CommittingAll(p, n, inputs, history, lives[..i + 1])
            == Committing(p, n, inputs, CommittingAll(p, n, inputs, history, lives[..i]), lives[i])
  {
    assert lives[..i + 1][..i] == lives[..i];
  }

  // The last flush of a life without errors at its flushes
  lemma EndsPromptly(t: Task, history: seq<Record>, life: Life, flushed: Option<nat>)
    requires Prompt(life) && (t.buffer.closing <==> CloseRequested in life.schedule)
    requires t.EndsAt(history, history, Resumed(t.inputs, OffsetsAfter(map[], history)), life.schedule, life.last,
                      flushed)
    ensures t.buffer.history == Committing(t.processors, |t.stores|, t.inputs, history, life)
  {
    hide KeptAfter;
    assert life.schedule[..|life.schedule|] == life.schedule;
    if !t.buffer.closing {
      LastFlushIsLastTick(life.schedule, flushed);
    }
  }

  ghost predicate Clean(t: Task, l: Life) {
    NoneFails(l.schedule) && ClosesCalmly(t.processors, |t.stores|, t.inputs, l.schedule)
  }

  /**
   Exactly once over every history. The committed messages and the restored stores are those of
   the atomic run over the committed records, which come once each and in offset order; every
   input record below a committed offset was delivered, each partition in the order of its log;
   every delivered record that was not kept failed on records delivered before it, or was denied by
   a refused produce, of which there are as many as refusals at most; with none, the committed
   records are the delivered ones minus those that failed where they stood.
   Whatever else the broker does, and wherever a restore is cut off, a history is untainted if no flush
   fails after its commit, nothing goes wrong once a close was requested, and compaction keeps its tombstones;
   and without a close request no call to the producer is made in a transaction state that forbids it.
   */
  method LiveThrough(t: Task, lives: seq<Life>)
    requires UsesStores(t.processors, |t.stores|) && Distinct(t.stores) && PartitionLogs(t.inputs)
    requires t.tainted || t.Recoverable()
    requires forall l | l in lives :: Cleans(l.compaction)
    modifies t, t.stores
    ensures fresh(t.producer) && fresh(t.buffer)
    ensures old(t.tainted) ==> t.tainted
    ensures !old(t.tainted) && (forall l | l in lives :: Clean(t, l) && Compacts(l.compaction)) ==> !t.tainted
    ensures (forall l | l in lives :: CloseRequested !in l.schedule) ==>
              t.misusedBefore == old(t.misusedBefore || t.producer.misused)
    ensures t.Denied() <= old(t.Denied()) + LivesRefusals(lives)
    ensures !old(t.tainted) && AllThrive(t.processors, |t.stores|, t.inputs, old(t.buffer.history), lives)
            && (forall l | l in lives :: Compacts(l.compaction)) ==>
              && !t.tainted
              && t.buffer.history
                 == CommittingAll(t.processors, |t.stores|, t.inputs, old(t.buffer.history), lives)
    ensures !t.tainted ==>
              var kept, committed := t.buffer.history, t.producer.cluster;
              && Atomic(t.processors, EmptyViews(|t.stores|), kept) == Run(kept, committed.messages)
              && ViewsOf(t.stores) == ApplyAll(EmptyViews(|t.stores|), committed.messages)
              && committed.offsets == OffsetsAfter(map[], kept)
              && Settled(t.inputs, t.delivered, kept, committed.offsets)
              && Explained(t.processors, |t.stores|, t.delivered, t.verdicts, kept)
              && (t.Denied() == 0 ==>
                    Atomic(t.processors, EmptyViews(|t.stores|), t.delivered) == Run(kept, committed.messages))
  {
    hide UsesStores, PartitionLogs, Sound, Safe, Settled, Atomic, ApplyAll, Explained, Clean, Cleans, Compacts,
      Distinct, Held, Remember, LivesRefusals, NoneFails, CalmLife, Task.Denied;
    NoLives();
    ghost var p, n, inputs, history := t.processors, |t.stores|, t.inputs, t.buffer.history;
    ghost var thrive := !t.tainted && AllThrive(p, n, inputs, history, lives)
                        && forall l | l in lives :: Compacts(l.compaction);
    assert lives[..0] == [];
    for i := 0 to |lives|
      modifies t, t.stores
      invariant t.tainted || t.Recoverable()
      invariant old(t.tainted) ==> t.tainted
      invariant !old(t.tainted) && (forall l | l in lives :: Clean(t, l) && Compacts(l.compaction)) ==> !t.tainted
      invariant (forall l | l in lives :: CloseRequested !in l.schedule) ==>
                  (t.misusedBefore || t.producer.misused) == old(t.misusedBefore || t.producer.misused)
      invariant t.Denied() <= old(t.Denied()) + LivesRefusals(lives[..i])
      invariant thrive ==> !t.tainted && t.buffer.history == CommittingAll(p, n, inputs, history, lives[..i])
    {
      assert lives[i] in lives;
      CleanIsCalm(t, lives[i]);
      ghost var flushed := OneLife(t, lives[i]);
      LivesStep(lives, i);
      CommittingStep(p, n, inputs, history, lives, i);
    }
    assert lives[..|lives|] == lives;
    var log := t.producer.cluster.messages;
    NothingCompacted(t, log);
    var _ := t.Restart(seq(|t.stores|, _ => log), None, []);
    if !t.tainted {
      FinalAccount(t.processors, |t.stores|, t.inputs, t.TheTrack());
    }
    assert t.Denied() == 0 ==> Denials(t.verdicts) == 0 by {
      FewestDenials(t);
    }
  }

  // What the changelog topics hold when a life begins
  function Changelogs(t: Task, c: Compaction): seq<seq<Effect>>
    reads t, t.producer
  {
    seq(|t.stores|, i requires 0 <= i < |t.stores| reads t, t.producer => c(i, t.producer.cluster.messages))
  }

  // How far the restore of each store gets, if it is cut off
  function CutAt(life: Life, changelogs: seq<seq<Effect>>): (reached: Option<seq<nat>>)
    ensures reached.Some? ==> Within(reached.value, changelogs)
  {
    if life.cutOff.None? then None
    else
      Some(seq(|changelogs|, i requires 0 <= i < |changelogs| =>
        if life.cutOff.value(i) < |changelogs[i]| then life.cutOff.value(i) else |changelogs[i]|))
  }

  /** What befalls a life, known before it: is it calm once its close was requested? */
  ghost predicate CalmLife(t: Task, life: Life)
    reads t, t.producer
  {
    || ClosesCalmly(t.processors, |t.stores|, t.inputs, life.schedule)
    || (&& t.Denied() + ScheduleRefusals(life.schedule) == 0
        && ClosesCalmlyFrom(t.processors, |t.stores|, t.inputs, t.deliveredAtCommit,
                            Resumed(t.inputs, t.producer.cluster.offsets), life.schedule))
  }

  /**
   One life, from whatever the last one left. It is untainted if no flush fails after its commit, if nothing
   goes wrong after a close request from the state that it finds, and if no tombstone that matters is gone.
   */
  method OneLife(t: Task, life: Life) returns (ghost flushed: Option<nat>)
    requires UsesStores(t.processors, |t.stores|) && Distinct(t.stores) && PartitionLogs(t.inputs)
    requires (t.tainted || t.Recoverable()) && Cleans(life.compaction)
    modifies t, t.stores
    ensures t.tainted || t.Recoverable()
    ensures old(t.tainted) ==> t.tainted
    ensures var remembered := Remember(old(Changelogs(t, life.compaction)), old(BaseViewsOf(t.stores)));
            !old(t.tainted) && NoneFails(life.schedule) && old(CalmLife(t, life))
            && (Compacts(life.compaction) || remembered) ==>
              !t.tainted
    ensures var history, remembered := old(t.buffer.history),
                                       Remember(old(Changelogs(t, life.compaction)), old(BaseViewsOf(t.stores)));
            !old(t.tainted) && (Compacts(life.compaction) || remembered)
            && Thrives(t.processors, |t.stores|, t.inputs, history, life) ==>
              && !t.tainted
              && t.EndsAt(history, history, Resumed(t.inputs, OffsetsAfter(map[], history)), life.schedule, life.last,
                          flushed)
              && (Prompt(life) ==>
                    t.buffer.history == Committing(t.processors, |t.stores|, t.inputs, history, life))
    ensures CloseRequested !in life.schedule ==> !t.producer.misused
    ensures t.misusedBefore == old(t.misusedBefore || t.producer.misused)
    ensures t.Denied() <= old(t.Denied()) + ScheduleRefusals(life.schedule)
    ensures fresh(t.producer) && fresh(t.buffer)
  {
    hide UsesStores, PartitionLogs, Sound, Safe, Held, Remember, Distinct, Calm, ClosesCalmly, ClosesCalmlyFrom,
      NoneFails, ScheduleRefusals, Seek, Within, UpTo, Restores, CutAt, Thrives, Prompt, Committing, Compacts, Mild,
      Task.EndsAt, Task.Denied, Task.Recoverable;
    ghost var history, thrives := t.buffer.history,
      !t.tainted && (Compacts(life.compaction) || Remember(Changelogs(t, life.compaction), BaseViewsOf(t.stores)))
      && Thrives(t.processors, |t.stores|, t.inputs, t.buffer.history, life);
    flushed := None;
    CleansHeld(t, life.compaction);
    var changelogs := Changelogs(t, life.compaction);
    if thrives {
      ThrivesFromStart(t, history, life, changelogs);
    }
    var died := t.Restart(changelogs, CutAt(life, changelogs), life.faults);
    if !died {
      assert t.position == Resumed(t.inputs, t.producer.cluster.offsets);
      flushed := LiveOn(t, life);
    }
  }

  // The rest of a life, once its process has started
  method LiveOn(t: Task, life: Life) returns (ghost flushed: Option<nat>)
    requires t.AtHead() && t.buffer.records == [] && !t.buffer.closing
    requires t.position == Resumed(t.inputs, t.producer.cluster.offsets)
    modifies t, t.buffer, t.producer, t.stores
    ensures t.buffer == old(t.buffer) && t.producer == old(t.producer) && t.misusedBefore == old(t.misusedBefore)
    ensures (t.tainted || t.Recoverable()) && (old(t.tainted) ==> t.tainted)
    ensures var calm := old(|| ClosesCalmly(t.processors, |t.stores|, t.inputs, life.schedule)
                            || (&& t.Denied() + ScheduleRefusals(life.schedule) == 0
                                && ClosesCalmlyFrom(t.processors, |t.stores|, t.inputs, t.delivered, t.position,
                                                    life.schedule)));
            !old(t.tainted) && NoneFails(life.schedule) && calm ==> !t.tainted
    ensures var history := old(t.buffer.history);
            !old(t.tainted) && Thrives(t.processors, |t.stores|, t.inputs, history, life) ==>
              && !t.tainted
              && t.EndsAt(history, history, Resumed(t.inputs, OffsetsAfter(map[], history)), life.schedule, life.last,
                          flushed)
              && (Prompt(life) ==>
                    t.buffer.history == Committing(t.processors, |t.stores|, t.inputs, history, life))
    ensures CloseRequested !in life.schedule ==> !t.producer.misused
    ensures t.Denied() <= old(t.Denied()) + ScheduleRefusals(life.schedule)
  {
    hide Calm, ClosesCalmly, ClosesCalmlyFrom, NoneFails, ScheduleRefusals, Seek, ViewsAfter, Prompt, Committing,
      Thrives, Task.IsMark, Task.MarkMeets, Task.CalmFrom, Task.Denied, Task.EndsAt, Task.AtHead, Task.Recoverable;
    ghost var start, delivered, now, history := t.position, t.delivered, t.Denied(), t.buffer.history;
    ghost var thrives := !t.tainted && Thrives(t.processors, |t.stores|, t.inputs, history, life);
    if thrives {
      HeadThrives(t, life);
    }
    ghost var mark;
    mark, flushed := t.Start(life.schedule, life.last);
    CalmMark(t, life.schedule, mark, start, delivered, now + ScheduleRefusals(life.schedule));
    if thrives && Prompt(life) {
      EndsPromptly(t, history, life, flushed);
    }
  }

  // Where such a life starts it is calm
  lemma HeadThrives(t: Task, life: Life)
    requires t.AtHead() && !t.tainted && t.buffer.records == []
    requires t.position == Resumed(t.inputs, t.producer.cluster.offsets)
    requires Thrives(t.processors, |t.stores|, t.inputs, t.buffer.history, life)
    ensures t.KeptNow() == t.buffer.history
    ensures t.position == Resumed(t.inputs, OffsetsAfter(map[], t.buffer.history))
    ensures Calm(t.processors, t.inputs, ViewsOf(t.stores), t.position, false, life.schedule)
  {
    hide Calm, ViewsAfter, Seek, CommittedOffset;
    t.HeadViews();
    OffsetsOfHead(t);
    assert t.KeptNow() == t.buffer.history;
  }

  lemma ThrivesFromStart(t: Task, history: seq<Record>, life: Life, changelogs: seq<seq<Effect>>)
    requires Thrives(t.processors, |t.stores|, t.inputs, history, life)
    ensures Mild(life.faults) && CutAt(life, changelogs).None?
  {
    hide Calm;
  }

  lemma OffsetsOfHead(t: Task)
    requires t.AtHead() && !t.tainted
    ensures t.producer.cluster.offsets == OffsetsAfter(map[], t.buffer.history)
  {
  }

  lemma CleanIsCalm(t: Task, life: Life)
    ensures Clean(t, life) ==> NoneFails(life.schedule) && CalmLife(t, life)
  {
  }

  // What a life was known to be, on the mark of its run
  lemma CalmMark(t: Task, schedule: seq<Event>, mark: Option<Mark>, start: map<TopicPartition, nat>,
                 delivered: seq<Record>, denied: nat)
    requires mark.Some? ==> t.IsMark(mark.value, schedule, start, delivered)
    ensures (mark.Some? ==> t.MarkMeets(mark.value, denied))
            && (|| ClosesCalmly(t.processors, |t.stores|, t.inputs, schedule)
                || (denied == 0
                    && ClosesCalmlyFrom(t.processors, |t.stores|, t.inputs, delivered, start, schedule))) ==>
              t.CalmFrom(schedule, mark)
  {
    hide Meets, Calm, ViewsAfter, Advance, Arrivals;
    if mark.Some? {
      assert FirstClose(schedule, mark.value.at);
    }
  }

  lemma NoLives()
    ensures LivesRefusals([]) == 0
  {
  }

  lemma LivesStep(lives: seq<Life>, i: nat)
    requires i < |lives|
    ensures LivesRefusals(lives[..i + 1]) == LivesRefusals(lives[..i]) + ScheduleRefusals(lives[i].schedule)
  {
    assert lives[..i + 1][..i] == lives[..i];
  }

  lemma CleansHeld(t: Task, c: Compaction)
    requires Cleans(c) && (t.tainted || t.Recoverable())
    ensures Held(t.producer.cluster.messages, Changelogs(t, c))
    ensures Compacts(c) && !t.tainted ==> Remember(Changelogs(t, c), BaseViewsOf(t.stores))
  {
    hide Cleaned, Settled, Told;
    if Compacts(c) && !t.tainted {
      CompactedRemember(t.producer.cluster.messages, Changelogs(t, c), BaseViewsOf(t.stores));
    }
  }

  lemma NothingCompacted(t: Task, log: seq<Effect>)
    requires log == t.producer.cluster.messages && (t.tainted || t.Recoverable())
    ensures Held(log, seq(|t.stores|, _ => log))
    ensures !t.tainted ==> Remember(seq(|t.stores|, _ => log), BaseViewsOf(t.stores))
  {
    hide LastWrite, Settled, Told;
    if !t.tainted {
      CompactedRemember(log, seq(|t.stores|, _ => log), BaseViewsOf(t.stores));
    }
  }

  lemma FewestDenials(t: Task)
    ensures t.Denied() == 0 ==> Denials(t.verdicts) == 0
  {
  }

  lemma FinalAccount(p: Processors, n: nat, inputs: Inputs, t: Track)
    requires Sound(p, n, inputs, t) && t.books.buffered == [] && t.books.views == t.books.bases
    requires t.delivered == t.deliveredAtCommit && t.verdicts == t.verdictsAtCommit
    ensures Atomic(p, EmptyViews(n), t.books.history) == Run(t.books.history, t.books.cluster.messages)
    ensures t.books.views == ApplyAll(EmptyViews(n), t.books.cluster.messages)
    ensures t.books.cluster.offsets == OffsetsAfter(map[], t.books.history)
    ensures Settled(inputs, t.delivered, t.books.history, t.books.cluster.offsets)
    ensures Explained(p, n, t.delivered, t.verdicts, t.books.history)
    ensures Denials(t.verdicts) == 0 ==>
              Atomic(p, EmptyViews(n), t.delivered) == Run(t.books.history, t.books.cluster.messages)
  {
  }
}
