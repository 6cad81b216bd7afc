/**
 What may befall a task, event by event: the schedules of its loop, what they deliver, what the atomic run keeps
 of that, and which of them it gets through without a death.
 */
module Schedules {
  import opened Basics
  import opened Changelog
  import opened AtomicRun
  import opened TxProducer
  import opened Ledger

  // What the loop may be told to do next, and the script of what goes wrong while it does
  datatype Event = Tick(faults: seq<Fault>) | Arrive(tp: TopicPartition, faults: seq<Fault>) | CloseRequested
  {
    function Script(): seq<Fault> {
      if CloseRequested? then [] else faults
    }
  }

  ghost function ScheduleRefusals(schedule: seq<Event>): nat {
    if schedule == [] then 0
    else ScheduleRefusals(schedule[..|schedule| - 1]) + Refusals(schedule[|schedule| - 1].Script())
  }

  lemma {:induction false} RefusalsUpTo(schedule: seq<Event>, i: nat)
    requires i <= |schedule|
    ensures ScheduleRefusals(schedule[..i]) <= ScheduleRefusals(schedule)
    decreases |schedule|
  {
    if i < |schedule| {
      var n := |schedule| - 1;
      assert schedule[..n][..i] == schedule[..i];
      RefusalsUpTo(schedule[..n], i);
    } else {
      assert schedule[..i] == schedule;
    }
  }

  lemma NoRefusals()
    ensures ScheduleRefusals([]) == 0
  {
  }

  lemma RefusalsStep(schedule: seq<Event>, i: nat)
    requires i < |schedule|
    ensures ScheduleRefusals(schedule[..i + 1]) == ScheduleRefusals(schedule[..i]) + Refusals(schedule[i].Script())
  {
    assert schedule[..i + 1][..i] == schedule[..i];
  }

  // No flush fails after its transaction was committed
  ghost predicate NoneFails(schedule: seq<Event>) {
    forall e | e in schedule :: !Repeats(e.Script())
  }

  lemma NoneFailsAt(schedule: seq<Event>, i: nat)
    requires i < |schedule|
    ensures NoneFails(schedule) ==> !Repeats(schedule[i].Script())
  {
    assert schedule[i] in schedule;
  }

  // --- What a schedule delivers ---

  // The record that an event takes from the channel, if it takes one
  function Arrival(inputs: Inputs, position: map<TopicPartition, nat>, e: Event): seq<Record> {
    if e.Arrive? && e.tp in inputs && e.tp in position && position[e.tp] < |inputs[e.tp]|
    then [inputs[e.tp][position[e.tp]]] else []
  }

  function Moved(inputs: Inputs, position: map<TopicPartition, nat>, e: Event): map<TopicPartition, nat> {
    if Arrival(inputs, position, e) == [] then position else position[e.tp := position[e.tp] + 1]
  }

  // Where the consumer stands after a schedule, whatever goes wrong but a crash
  function Advance(inputs: Inputs, start: map<TopicPartition, nat>, schedule: seq<Event>): map<TopicPartition, nat> {
    if schedule == [] then start
    else Moved(inputs, Advance(inputs, start, schedule[..|schedule| - 1]), schedule[|schedule| - 1])
  }

  function Arrivals(inputs: Inputs, start: map<TopicPartition, nat>, schedule: seq<Event>): seq<Record> {
    if schedule == [] then []
    else
      var front := schedule[..|schedule| - 1];
      Arrivals(inputs, start, front) + Arrival(inputs, Advance(inputs, start, front), schedule[|schedule| - 1])
  }

  lemma AdvanceStep(inputs: Inputs, start: map<TopicPartition, nat>, schedule: seq<Event>, i: nat)
    requires i < |schedule|
    ensures Advance(inputs, start, schedule[..i + 1])
            == Moved(inputs, Advance(inputs, start, schedule[..i]), schedule[i])
    ensures Arrivals(inputs, start, schedule[..i + 1])
            == Arrivals(inputs, start, schedule[..i])
               + Arrival(inputs, Advance(inputs, start, schedule[..i]), schedule[i])
  {
    assert schedule[..i + 1][..i] == schedule[..i];
  }

  // What the atomic run of these records leaves in the stores
  ghost function ViewsAfter(p: Processors, n: nat, rs: seq<Record>): Views {
    ApplyAll(EmptyViews(n), Atomic(p, EmptyViews(n), rs).messages)
  }

  /**
   A state in which an event can find the task: every delivery has its verdict, the consumer stands behind
   them, and the stores are what the atomic run of the kept ones leaves.
   */
  ghost predicate Meets(p: Processors, n: nat, inputs: Inputs, delivered: seq<Record>, views: Views,
                        position: map<TopicPartition, nat>)
  {
    exists verdicts, kept :: Explained(p, n, delivered, verdicts, kept)
                             && Accounted(inputs, position, delivered, kept) && views == ViewsAfter(p, n, kept)
  }

  lemma SoundMeets(p: Processors, n: nat, inputs: Inputs, t: Track)
    requires Sound(p, n, inputs, t)
    ensures Meets(p, n, inputs, t.delivered, t.books.views, t.position)
    ensures Denials(t.verdicts) == 0 ==> t.books.views == ViewsAfter(p, n, t.delivered)
  {
    hide Atomic, ApplyAll, Explained, Accounted, Safe;
    ApplyAllConcat(EmptyViews(n), t.books.cluster.messages, t.books.cluster.pending);
    assert Explained(p, n, t.delivered, t.verdicts, t.Kept());
  }

  // What the atomic run keeps once a schedule has delivered what it delivers
  ghost function KeptAfter(p: Processors, n: nat, inputs: Inputs, kept: seq<Record>, start: map<TopicPartition, nat>,
                           schedule: seq<Event>): seq<Record>
  {
    Atomic(p, EmptyViews(n), kept + Arrivals(inputs, start, schedule)).kept
  }

  lemma KeptAtFirst(p: Processors, n: nat, inputs: Inputs, t: Track, start: map<TopicPartition, nat>)
    requires Sound(p, n, inputs, t)
    ensures KeptAfter(p, n, inputs, t.Kept(), start, []) == t.Kept()
    ensures t.books.views == ViewsAfter(p, n, t.Kept())
  {
    hide Atomic, ApplyAll, Told, Safe, Accounted;
    assert t.Kept() + [] == t.Kept();
    ApplyAllConcat(EmptyViews(n), t.books.cluster.messages, t.books.cluster.pending);
  }

  lemma NothingRun(p: Processors, bases: Views)
    ensures Atomic(p, bases, []) == Run([], []) && ApplyAll(bases, []) == bases
    ensures Unflagged([], []) == []
  {
    assert ApplyAll(bases, []) == bases;
  }

  lemma OneAttempt(p: Processors, views: Views, r: Record)
    ensures Atomic(p, views, [r]) == if p(r, views).ok then Run([r], p(r, views).effects) else Run([], [])
  {
    NothingRun(p, views);
    AtomicSnoc(p, views, [], r);
    assert [] + [r] == [r] && [] + p(r, views).effects == p(r, views).effects;
  }

  // An arrival on the state that the kept records leave
  lemma KeptStep(p: Processors, n: nat, inputs: Inputs, kept: seq<Record>, start: map<TopicPartition, nat>,
                 schedule: seq<Event>, i: nat)
    requires i < |schedule|
    ensures var now := KeptAfter(p, n, inputs, kept, start, schedule[..i]);
            var arrival := Arrival(inputs, Advance(inputs, start, schedule[..i]), schedule[i]);
            KeptAfter(p, n, inputs, kept, start, schedule[..i + 1])
            == now + Atomic(p, ViewsAfter(p, n, now), arrival).kept
  {
    hide Atomic, ApplyAll, Arrivals, Advance;
    AdvanceStep(inputs, start, schedule, i);
    var all := kept + Arrivals(inputs, start, schedule[..i]);
    var arrival := Arrival(inputs, Advance(inputs, start, schedule[..i]), schedule[i]);
    assert kept + Arrivals(inputs, start, schedule[..i + 1]) == all + arrival;
    RerunOfKept(p, EmptyViews(n), all);
    var views := ViewsAfter(p, n, Atomic(p, EmptyViews(n), all).kept);
    NothingRun(p, views);
    if arrival == [] {
      assert all + arrival == all;
    } else {
      OneAttempt(p, views, arrival[0]);
      AtomicSnoc(p, EmptyViews(n), all, arrival[0]);
      assert arrival == [arrival[0]];
    }
  }

  // The kept records with an arrival, and the state they leave
  lemma ViewsStep(p: Processors, n: nat, kept: seq<Record>, arrival: seq<Record>)
    requires Atomic(p, EmptyViews(n), kept).kept == kept && |arrival| <= 1
    ensures var run := Atomic(p, ViewsAfter(p, n, kept), arrival);
            ViewsAfter(p, n, kept + run.kept) == ApplyAll(ViewsAfter(p, n, kept), run.messages)
  {
    hide Atomic, ApplyAll;
    var views := ViewsAfter(p, n, kept);
    NothingRun(p, views);
    if arrival == [] {
      assert kept + [] == kept;
    } else {
      OneAttempt(p, views, arrival[0]);
      AtomicSnoc(p, EmptyViews(n), kept, arrival[0]);
      assert kept + [] == kept && arrival == [arrival[0]];
      ApplyAllConcat(EmptyViews(n), Atomic(p, EmptyViews(n), kept).messages, p(arrival[0], views).effects);
    }
  }

  /**
   What is committed: what was, or, once there was a flush, what the atomic run keeps of the arrivals before the
   last one.
   */
  ghost predicate CommittedUpTo(p: Processors, n: nat, inputs: Inputs, kept: seq<Record>, was: seq<Record>,
                                start: map<TopicPartition, nat>, schedule: seq<Event>, flushed: Option<nat>,
                                history: seq<Record>)
  {
    match flushed
    case None => history == was
    case Some(k) => k <= |schedule| && history == KeptAfter(p, n, inputs, kept, start, schedule[..k])
  }

  // Among the first i events the last flush was that of a tick, and no tick without errors came after it
  ghost predicate LastFlush(schedule: seq<Event>, i: nat, flushed: Option<nat>) {
    && i <= |schedule|
    && (flushed.Some? ==> 0 < flushed.value <= i && schedule[flushed.value - 1].Tick?)
    && forall k :: 0 <= k < i && schedule[k].Tick? && schedule[k].faults == [] ==>
         flushed.Some? && k < flushed.value
  }

  // One past the last tick
  function LastTick(schedule: seq<Event>): (past: Option<nat>)
    ensures past.Some? ==> 0 < past.value <= |schedule| && schedule[past.value - 1].Tick?
  {
    if schedule == [] then None
    else if schedule[|schedule| - 1].Tick? then Some(|schedule|)
    else LastTick(schedule[..|schedule| - 1])
  }

  // Where no tick meets errors each of them flushes
  lemma {:induction false} LastFlushIsLastTick(schedule: seq<Event>, flushed: Option<nat>)
    requires LastFlush(schedule, |schedule|, flushed)
    requires forall e | e in schedule :: e.Tick? ==> e.faults == []
    ensures flushed == LastTick(schedule)
  {
    if schedule != [] {
      var n := |schedule| - 1;
      assert schedule[n] in schedule;
      if !schedule[n].Tick? {
        LastFlushIsLastTick(schedule[..n], flushed);
      }
    }
  }

  // What a close request found: its place in the schedule, and the task's views, positions and deliveries
  datatype Mark = Mark(at: nat, views: Views, position: map<TopicPartition, nat>, delivered: seq<Record>)

  // What the task recovers from: while it is closing nothing, otherwise mild errors that leave `n` calls alone
  predicate Bearable(faults: seq<Fault>, closing: bool, n: nat) {
    if closing then faults == [] else Mild(faults) && Clear(faults, n)
  }

  lemma NothingIsBorne(closing: bool)
    ensures Bearable([], closing, 2)
  {
  }

  /**
   Nothing goes wrong from here on that a replay does not mend. Errors are mild, and no transaction fails to
   begin; with a record that fails, on the state its predecessors leave, they come after its writes, and an
   abort and a begin. While the task is closing there is no replay: no errors, then, and no record fails.
   */
  ghost predicate Calm(p: Processors, inputs: Inputs, views: Views, position: map<TopicPartition, nat>,
                       closing: bool, schedule: seq<Event>)
    decreases |schedule|
  {
    if schedule == [] then true
    else
      var e, arrival := schedule[0], Arrival(inputs, position, schedule[0]);
      && Bearable(e.Script(), closing, if e.Tick? then 2 else 1)
      && (arrival != [] && !p(arrival[0], views).ok ==>
            !closing && Clear(e.Script(), |p(arrival[0], views).effects| + 3))
      && Calm(p, inputs, ApplyAll(views, Atomic(p, views, arrival).messages), Moved(inputs, position, e),
              closing || e.CloseRequested?, schedule[1..])
  }

  /** Without errors nothing goes wrong, whatever records fail, unless the task is told to close. */
  lemma {:induction false} FaultlessIsCalm(p: Processors, inputs: Inputs, views: Views,
                                           position: map<TopicPartition, nat>, schedule: seq<Event>)
    requires forall e | e in schedule :: e.Script() == [] && !e.CloseRequested?
    ensures Calm(p, inputs, views, position, false, schedule)
    decreases |schedule|
  {
    hide ApplyAll, Atomic;
    if schedule != [] {
      assert schedule[0] in schedule;
      FaultlessIsCalm(p, inputs, ApplyAll(views, Atomic(p, views, Arrival(inputs, position, schedule[0])).messages),
                      Moved(inputs, position, schedule[0]), schedule[1..]);
    }
  }

  lemma {:induction false} CalmBears(p: Processors, inputs: Inputs, views: Views, position: map<TopicPartition, nat>,
                                     closing: bool, schedule: seq<Event>, i: nat)
    requires Calm(p, inputs, views, position, closing, schedule) && i < |schedule|
    ensures Refusals(schedule[i].Script()) == 0
    decreases |schedule|
  {
    hide ApplyAll, Atomic, Refusals, Clear;
    NothingIsMild();
    MildIsHarmless(schedule[0].Script());
    if i > 0 {
      CalmBears(p, inputs, ApplyAll(views, Atomic(p, views, Arrival(inputs, position, schedule[0])).messages),
                Moved(inputs, position, schedule[0]), closing || schedule[0].CloseRequested?, schedule[1..], i - 1);
    }
  }

  lemma {:induction false} NoneRefuses(schedule: seq<Event>)
    requires forall i :: 0 <= i < |schedule| ==> Refusals(schedule[i].Script()) == 0
    ensures ScheduleRefusals(schedule) == 0
  {
    if schedule != [] {
      NoneRefuses(schedule[..|schedule| - 1]);
    }
  }

  lemma CalmRefusesNothing(p: Processors, inputs: Inputs, views: Views, position: map<TopicPartition, nat>,
                           closing: bool, schedule: seq<Event>)
    requires Calm(p, inputs, views, position, closing, schedule)
    ensures ScheduleRefusals(schedule) == 0
  {
    hide Calm, Refusals, ScheduleRefusals;
    forall i: nat | i < |schedule| ensures Refusals(schedule[i].Script()) == 0 {
      CalmBears(p, inputs, views, position, closing, schedule, i);
    }
    NoneRefuses(schedule);
  }
}
