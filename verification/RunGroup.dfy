/**
 The run group (pkg/async/run_group.go) as a state machine over its atomic steps: every function
 has a goroutine that runs it and one that waits for its ready channel; callers of Run, Stop and
 Ready step in between. A run is any sequence of enabled steps.
 */
module RunGroup {

  import opened Basics

  // Where the goroutine of a function stands
  datatype Phase =
    | Idle        // not launched
    | Running     // inside the function
    | Erred       // the function returned an error
    | Noted       // past notifyErrOnce
    | Closing     // inside shutDownOnce
    | Returned    // past the error handling
    | Signalled   // past opts.Ready
    | Gone        // past wg.Done

  // ready: its channel is closed; passed: its watcher called readyWg.Done; early: it failed before it was ready
  datatype Worker = Worker(phase: Phase, ready: bool, passed: bool, failed: bool, early: bool)

  datatype Once = Fresh | Entered | Finished

  datatype Runner = NotRun | Launching | Awaiting | Closed | RunReturned(err: Option<nat>)

  datatype Stopper = StopCalled | StopClosing | StopWaiting | StopReturned

  // The answer of Ready: nothing, an interruption, or the error of a function
  datatype Answer = Fine | Interrupted | Error(worker: nat)

  // Ready reads err, then shuttingDown if it saw no error, then err again to answer with it
  datatype Reader = ReadyCalled | ReadyPassed | SawNone | Answering | ReadyReturned(answer: Answer)

  datatype State = State(
    workers: seq<Worker>, launched: nat, runner: Runner, stoppers: seq<Stopper>, readers: seq<Reader>,
    wg: int, readyWg: int, err: Option<nat>, once: Once, shuttingDown: bool,
    stoppingClosed: nat, stoppedClosed: nat)

  datatype Step =
    | Begin | Launch | Await | CloseStopped | RunReturn
    | Signal(i: nat) | Succeed(i: nat) | Fail(i: nat) | Note(i: nat) | Enter(i: nat) | Skip(i: nat) | Close(i: nat)
    | Mark(i: nat) | Leave(i: nat) | Pass(i: nat)
    | StopEnter(j: nat) | StopSkip(j: nat) | StopClose(j: nat) | StopReturn(j: nat)
    | ReadyStep(j: nat)

  // Functions given to NewRunGroup are not counted in readyWg; those given to Add are
  function Init(constructed: nat, added: nat, stops: nat, readies: nat): State {
    State(seq(constructed + added, _ => Worker(Idle, false, false, false, false)), 0, NotRun,
          seq(stops, _ => StopCalled), seq(readies, _ => ReadyCalled),
          0, added, None, Fresh, false, 0, 0)
  }

  predicate At(s: State, i: nat, phase: Phase) {
    i < |s.workers| && s.workers[i].phase == phase
  }

  predicate Enabled(s: State, step: Step) {
    match step
    case Begin => s.runner == NotRun
    case Launch => s.runner == Launching && At(s, s.launched, Idle)
    case Await => s.runner == Launching && s.launched == |s.workers|
    case CloseStopped => s.runner == Awaiting && s.wg == 0
    case RunReturn => s.runner == Closed
    case Signal(i) => At(s, i, Running) && !s.workers[i].ready
    case Succeed(i) => At(s, i, Running)
    case Fail(i) => At(s, i, Running)
    case Note(i) => At(s, i, Erred)
    case Enter(i) => At(s, i, Noted) && s.once == Fresh
    case Skip(i) => At(s, i, Noted) && s.once == Finished
    case Close(i) => At(s, i, Closing)
    case Mark(i) => At(s, i, Returned)
    case Leave(i) => At(s, i, Signalled)
    case Pass(i) => i < |s.workers| && s.workers[i].ready && !s.workers[i].passed
    case StopEnter(j) => j < |s.stoppers| && s.stoppers[j] == StopCalled && s.once == Fresh
    case StopSkip(j) => j < |s.stoppers| && s.stoppers[j] == StopCalled && s.once == Finished
    case StopClose(j) => j < |s.stoppers| && s.stoppers[j] == StopClosing
    case StopReturn(j) => j < |s.stoppers| && s.stoppers[j] == StopWaiting && s.stoppedClosed > 0
    case ReadyStep(j) =>
      j < |s.readers| && !s.readers[j].ReadyReturned? && (s.readers[j] == ReadyCalled ==> s.readyWg == 0)
  }

  function Put(s: State, i: nat, w: Worker): State
    requires i < |s.workers|
  {
    s.(workers := s.workers[i := w])
  }

  function To(s: State, i: nat, phase: Phase): State
    requires i < |s.workers|
  {
    Put(s, i, s.workers[i].(phase := phase))
  }

  // Where the next step of a caller of Ready takes it
  function Read(s: State, r: Reader): Reader {
    match r
    case ReadyCalled => ReadyPassed
    case ReadyPassed => if s.err.None? then SawNone else Answering
    case SawNone => if s.shuttingDown then ReadyReturned(Interrupted) else Answering
    case Answering => ReadyReturned(if s.err.Some? then Error(s.err.value) else Fine)
    case ReadyReturned(_) => r
  }

  function Apply(s: State, step: Step): State
    requires Enabled(s, step)
  {
    match step
    case Begin => s.(runner := Launching, wg := |s.workers|)
    case Launch => To(s, s.launched, Running).(launched := s.launched + 1)
    case Await => s.(runner := Awaiting)
    case CloseStopped => s.(runner := Closed, stoppedClosed := s.stoppedClosed + 1)
    case RunReturn => s.(runner := RunReturned(s.err))
    case Signal(i) => Put(s, i, s.workers[i].(ready := true))
    case Succeed(i) => To(s, i, Returned)
    case Fail(i) => Put(s, i, s.workers[i].(phase := Erred, failed := true, early := !s.workers[i].ready))
    case Note(i) => To(s, i, Noted).(err := if s.err.None? then Some(i) else s.err)
    case Enter(i) => To(s, i, Closing).(once := Entered, shuttingDown := true)
    case Skip(i) => To(s, i, Returned)
    case Close(i) => To(s, i, Returned).(once := Finished, stoppingClosed := s.stoppingClosed + 1)
    case Mark(i) => Put(s, i, s.workers[i].(phase := Signalled, ready := true))
    case Leave(i) => To(s, i, Gone).(wg := s.wg - 1)
    case Pass(i) => Put(s, i, s.workers[i].(passed := true)).(readyWg := s.readyWg - 1)
    case StopEnter(j) => s.(stoppers := s.stoppers[j := StopClosing], once := Entered, shuttingDown := true)
    case StopSkip(j) => s.(stoppers := s.stoppers[j := StopWaiting])
    case StopClose(j) =>
      s.(stoppers := s.stoppers[j := StopWaiting], once := Finished, stoppingClosed := s.stoppingClosed + 1)
    case StopReturn(j) => s.(stoppers := s.stoppers[j := StopReturned])
    case ReadyStep(j) => s.(readers := s.readers[j := Read(s, s.readers[j])])
  }

  // ---- Sums over the goroutines ----

  function Sum<T>(xs: seq<T>, weight: T -> nat): nat {
    if xs == [] then 0 else weight(xs[0]) + Sum(xs[1..], weight)
  }

  lemma {:induction false} SumUpdate<T>(xs: seq<T>, i: nat, x: T, weight: T -> nat)
    requires i < |xs|
    ensures Sum(xs[i := x], weight) == Sum(xs, weight) - weight(xs[i]) + weight(x)
  {
    if i == 0 {
      assert xs[0 := x][1..] == xs[1..];
    } else {
      SumUpdate(xs[1..], i - 1, x, weight);
      assert xs[i := x][1..] == xs[1..][i - 1 := x];
    }
  }

  lemma {:induction false} SumHolds<T>(xs: seq<T>, i: nat, weight: T -> nat)
    requires i < |xs|
    ensures weight(xs[i]) <= Sum(xs, weight)
  {
    if i > 0 {
      SumHolds(xs[1..], i - 1, weight);
    }
  }

  lemma {:induction false} SumZero<T>(xs: seq<T>, weight: T -> nat)
    requires forall i :: 0 <= i < |xs| ==> weight(xs[i]) == 0
    ensures Sum(xs, weight) == 0
  {
    if xs != [] {
      SumZero(xs[1..], weight);
    }
  }

  lemma {:induction false} SumFull<T>(xs: seq<T>, weight: T -> nat)
    requires forall i :: 0 <= i < |xs| ==> weight(xs[i]) <= 1
    ensures Sum(xs, weight) <= |xs|
    ensures Sum(xs, weight) == |xs| <==> forall i :: 0 <= i < |xs| ==> weight(xs[i]) == 1
  {
    if xs != [] {
      SumFull(xs[1..], weight);
      assert forall i :: 0 <= i < |xs[1..]| ==> xs[1..][i] == xs[i + 1];
      if forall i :: 0 <= i < |xs[1..]| ==> weight(xs[1..][i]) == 1 {
        assert forall i :: 0 < i < |xs| ==> xs[i] == xs[1..][i - 1];
      }
    }
  }

  function Busy(w: Worker): nat {
    if w.phase == Gone then 0 else 1
  }

  function HasPassed(w: Worker): nat {
    if w.passed then 1 else 0
  }

  function InOnce(w: Worker): nat {
    if w.phase == Closing then 1 else 0
  }

  function StopsInOnce(p: Stopper): nat {
    if p == StopClosing then 1 else 0
  }

  // ---- The invariant ----

  ghost predicate WorkerSound(s: State, w: Worker) {
    && (w.passed ==> w.ready)
    && (w.ready ==> w.phase != Idle)
    && (w.phase in {Signalled, Gone} ==> w.ready)
    && (w.early ==> w.failed)
    && (w.phase in {Erred, Noted, Closing} ==> w.failed)
    && (w.phase in {Idle, Running} ==> !w.failed)
    && (w.early && w.ready ==> w.phase in {Signalled, Gone})
    && (w.failed && w.phase != Erred ==> s.err.Some?)
    && (w.failed && w.phase in {Returned, Signalled, Gone} ==> s.once == Finished)
  }

  ghost predicate WorkersSound(s: State) {
    && (forall i :: 0 <= i < |s.workers| ==> WorkerSound(s, s.workers[i]))
    && (s.err.Some? ==> s.err.value < |s.workers| && s.workers[s.err.value].failed)
    && s.launched <= |s.workers|
    && (forall i :: 0 <= i < |s.workers| ==> (s.workers[i].phase == Idle <==> i >= s.launched))
  }

  // The wait groups count the functions that have yet to go, and to pass
  ghost predicate CountsSound(s: State, constructed: nat) {
    && (s.runner == NotRun ==> s.launched == 0 && s.wg == 0)
    && (s.runner != NotRun ==> s.wg == Sum(s.workers, Busy))
    && (s.runner !in {NotRun, Launching} ==> s.launched == |s.workers|)
    && s.readyWg == |s.workers| - constructed - Sum(s.workers, HasPassed)
  }

  // Nobody is past a wait for the functions that has not been granted
  ghost predicate WaitsSound(s: State) {
    && (s.runner.Closed? || s.runner.RunReturned? <==> s.stoppedClosed > 0)
    && s.stoppedClosed <= 1
    && (s.stoppedClosed > 0 ==> s.wg == 0)
    && (s.runner.RunReturned? ==> s.runner.err == s.err)
    && (forall j :: 0 <= j < |s.stoppers| && s.stoppers[j] == StopReturned ==> s.stoppedClosed > 0)
  }

  // At most one goroutine is inside shutDownOnce, and it closes the channel once
  ghost predicate OnceSound(s: State) {
    && Sum(s.workers, InOnce) + Sum(s.stoppers, StopsInOnce) == (if s.once == Entered then 1 else 0)
    && s.stoppingClosed == (if s.once == Finished then 1 else 0)
    && (s.shuttingDown <==> s.once != Fresh)
    && (forall j :: 0 <= j < |s.stoppers| && s.stoppers[j] in {StopWaiting, StopReturned} ==> s.once == Finished)
  }

  // A Ready that was answered told of every function that failed before it was ready
  ghost predicate ReaderSound(s: State, r: Reader) {
    match r
    case ReadyCalled => true
    case ReadyPassed => s.readyWg == 0
    case SawNone => s.readyWg == 0 && NoneEarly(s)
    case Answering => s.readyWg == 0
    case ReadyReturned(Error(i)) => s.readyWg == 0 && s.err == Some(i)
    case ReadyReturned(Interrupted) => s.readyWg == 0 && s.shuttingDown && NoneEarly(s)
    case ReadyReturned(Fine) => s.readyWg == 0 && NoneEarly(s)
  }

  ghost predicate NoneEarly(s: State) {
    forall i :: 0 <= i < |s.workers| ==> !s.workers[i].early
  }

  ghost predicate AnswersSound(s: State) {
    forall j :: 0 <= j < |s.readers| ==> ReaderSound(s, s.readers[j])
  }

  ghost predicate Inv(s: State, constructed: nat) {
    WorkersSound(s) && CountsSound(s, constructed) && WaitsSound(s) && OnceSound(s)
    && (constructed == 0 ==> AnswersSound(s))
  }

  // The worker that a step moves
  function Mover(s: State, step: Step): Option<nat> {
    match step
    case Launch => Some(s.launched)
    case Signal(i) => Some(i)
    case Succeed(i) => Some(i)
    case Fail(i) => Some(i)
    case Note(i) => Some(i)
    case Enter(i) => Some(i)
    case Skip(i) => Some(i)
    case Close(i) => Some(i)
    case Mark(i) => Some(i)
    case Leave(i) => Some(i)
    case Pass(i) => Some(i)
    case _ => None
  }

  lemma OneMoves(s: State, step: Step)
    requires Enabled(s, step)
    ensures var t, m := Apply(s, step), Mover(s, step);
            |t.workers| == |s.workers|
            && if m.Some? then m.value < |s.workers| && t.workers == s.workers[m.value := t.workers[m.value]]
               else t.workers == s.workers
  {
    var t, m := Apply(s, step), Mover(s, step);
    if m.Some? {
      assert forall k :: 0 <= k < |s.workers| && k != m.value ==> t.workers[k] == s.workers[k];
    }
  }

  lemma SumMoves(s: State, step: Step, weight: Worker -> nat)
    requires Enabled(s, step)
    ensures var t, m := Apply(s, step), Mover(s, step);
            |t.workers| == |s.workers|
            && if m.Some? then m.value < |s.workers|
                               && Sum(t.workers, weight) == Sum(s.workers, weight)
                                                            - weight(s.workers[m.value]) + weight(t.workers[m.value])
               else Sum(t.workers, weight) == Sum(s.workers, weight)
  {
    OneMoves(s, step);
    hide Apply, Enabled;
    var t, m := Apply(s, step), Mover(s, step);
    if m.Some? {
      SumUpdate(s.workers, m.value, t.workers[m.value], weight);
    }
  }

  lemma WorkerKept(s: State, step: Step, k: nat)
    requires WorkersSound(s) && Enabled(s, step) && k < |s.workers|
    ensures |Apply(s, step).workers| == |s.workers| && WorkerSound(Apply(s, step), Apply(s, step).workers[k])
  {
    OneMoves(s, step);
    assert WorkerSound(s, s.workers[k]);
  }

  lemma WorkersKept(s: State, step: Step)
    requires WorkersSound(s) && Enabled(s, step)
    ensures WorkersSound(Apply(s, step))
  {
    assert forall k :: 0 <= k < |s.workers| && s.workers[k].phase == Erred ==> s.workers[k].failed by {
      assert forall k :: 0 <= k < |s.workers| ==> WorkerSound(s, s.workers[k]);
    }
    hide WorkerSound;
    OneMoves(s, step);
    forall k: nat | k < |s.workers| ensures WorkerSound(Apply(s, step), Apply(s, step).workers[k]) {
      WorkerKept(s, step, k);
    }
  }

  // A granted wait for the functions means that all have gone, and one for readiness that all have passed
  lemma AllGone(s: State)
    requires Sum(s.workers, Busy) == 0
    ensures forall i :: 0 <= i < |s.workers| ==> s.workers[i].phase == Gone
  {
    forall i | 0 <= i < |s.workers| ensures s.workers[i].phase == Gone {
      SumHolds(s.workers, i, Busy);
    }
  }

  lemma AllPassed(s: State)
    requires Sum(s.workers, HasPassed) == |s.workers|
    ensures forall i :: 0 <= i < |s.workers| ==> s.workers[i].passed
  {
    SumFull(s.workers, HasPassed);
    forall i | 0 <= i < |s.workers| ensures s.workers[i].passed {
      assert HasPassed(s.workers[i]) == 1;
    }
  }

  // What a step does to the worker that it moves
  lemma MoverWeighs(s: State, step: Step)
    requires Enabled(s, step)
    ensures var t, m := Apply(s, step), Mover(s, step);
            |t.workers| == |s.workers|
            && (m.None? ==> !step.Leave? && !step.Pass?)
            && (m.Some? ==>
                  && m.value < |s.workers|
                  && Busy(t.workers[m.value]) == Busy(s.workers[m.value]) - (if step.Leave? then 1 else 0)
                  && HasPassed(t.workers[m.value]) == HasPassed(s.workers[m.value]) + (if step.Pass? then 1 else 0))
  {
  }

  // Only Leave takes a function out of the wait group, and only Pass one out of the readiness group
  lemma BusyMoves(s: State, step: Step)
    requires Enabled(s, step)
    ensures |Apply(s, step).workers| == |s.workers|
    ensures Sum(Apply(s, step).workers, Busy) == Sum(s.workers, Busy) - if step.Leave? then 1 else 0
    ensures Sum(Apply(s, step).workers, HasPassed) == Sum(s.workers, HasPassed) + if step.Pass? then 1 else 0
  {
    hide Sum, Apply, Enabled, Mover, Busy, HasPassed;
    MoverWeighs(s, step);
    SumMoves(s, step, Busy);
    SumMoves(s, step, HasPassed);
  }

  // What a step does to the counts
  lemma CountsMove(s: State, step: Step)
    requires Enabled(s, step)
    ensures var t := Apply(s, step);
            && t.wg == (if step.Begin? then |s.workers| else s.wg - if step.Leave? then 1 else 0)
            && t.readyWg == s.readyWg - (if step.Pass? then 1 else 0)
            && t.launched == s.launched + (if step.Launch? then 1 else 0)
            && (t.runner == NotRun ==> s.runner == NotRun && !step.Begin?)
            && (t.runner != NotRun && s.runner == NotRun ==> step.Begin?)
            && (t.runner !in {NotRun, Launching} ==> s.runner !in {NotRun, Launching} || s.launched == |s.workers|)
            && (step.Launch? ==> s.runner == Launching && t.runner == Launching && s.launched < |s.workers|)
            && (step.Leave? ==> step.i < |s.workers| && s.workers[step.i].phase != Idle)
  {
  }

  lemma CountsKept(s: State, step: Step, constructed: nat)
    requires WorkersSound(s) && CountsSound(s, constructed) && Enabled(s, step)
    ensures CountsSound(Apply(s, step), constructed)
  {
    CountsMove(s, step);
    BusyMoves(s, step);
    if s.runner == NotRun {
      SumFull(s.workers, Busy);
    }
    hide Apply, Enabled, WorkerSound, Sum, HasPassed;
  }

  lemma WaitsKept(s: State, step: Step, constructed: nat)
    requires WorkersSound(s) && CountsSound(s, constructed) && WaitsSound(s) && Enabled(s, step)
    ensures WaitsSound(Apply(s, step))
  {
    if s.stoppedClosed > 0 {
      AllGone(s);
    }
    hide Sum, WorkersSound, Busy, HasPassed;
  }

  lemma OnceKept(s: State, step: Step)
    requires OnceSound(s) && Enabled(s, step)
    ensures OnceSound(Apply(s, step))
  {
    SumMoves(s, step, InOnce);
    match step
    case Close(i) => SumHolds(s.workers, i, InOnce);
    case StopEnter(j) => SumUpdate(s.stoppers, j, StopClosing, StopsInOnce);
    case StopSkip(j) => SumUpdate(s.stoppers, j, StopWaiting, StopsInOnce);
    case StopClose(j) =>
      SumHolds(s.stoppers, j, StopsInOnce);
      SumUpdate(s.stoppers, j, StopWaiting, StopsInOnce);
    case StopReturn(j) => SumUpdate(s.stoppers, j, StopReturned, StopsInOnce);
    case _ =>
  }

  // Once readiness has been granted, whoever failed early is known, and nobody will
  lemma NobodyFailsEarly(s: State, step: Step)
    requires WorkersSound(s) && Sum(s.workers, HasPassed) == |s.workers| && Enabled(s, step)
    ensures |Apply(s, step).workers| == |s.workers|
    ensures forall i :: 0 <= i < |s.workers| && s.workers[i].early ==> s.err.Some?
    ensures forall i :: 0 <= i < |s.workers| && Apply(s, step).workers[i].early ==> s.workers[i].early
  {
    AllPassed(s);
    OneMoves(s, step);
    assert forall i :: 0 <= i < |s.workers| ==> WorkerSound(s, s.workers[i]);
  }

  lemma ErrorStays(s: State, step: Step)
    requires Enabled(s, step)
    ensures s.err.Some? ==> Apply(s, step).err == s.err
    ensures s.shuttingDown ==> Apply(s, step).shuttingDown
    ensures step.ReadyStep? ==> Apply(s, step).err == s.err && Apply(s, step).workers == s.workers
  {
  }

  // What a step does to one caller of Ready
  lemma ReaderMoves(s: State, step: Step, j: nat)
    requires Enabled(s, step) && j < |s.readers|
    ensures var t := Apply(s, step);
            |t.readers| == |s.readers|
            && (t.readers[j] == s.readers[j]
                || (step.ReadyStep? && t.readers[j] == Read(s, s.readers[j])
                    && (s.readers[j] == ReadyCalled ==> s.readyWg == 0)))
  {
  }

  // A granted wait for readiness stays granted: everyone has passed
  lemma ReadinessStays(s: State, step: Step)
    requires Sum(s.workers, HasPassed) == |s.workers| && Enabled(s, step)
    ensures Apply(s, step).readyWg == s.readyWg
  {
    AllPassed(s);
    hide Sum;
  }

  lemma AnswerKept(s: State, step: Step, j: nat)
    requires Inv(s, 0) && Enabled(s, step) && j < |s.readers|
    ensures |Apply(s, step).readers| == |s.readers| && ReaderSound(Apply(s, step), Apply(s, step).readers[j])
  {
    hide Apply, Sum, Enabled, WorkersSound, WaitsSound, OnceSound;
    ErrorStays(s, step);
    ReaderMoves(s, step, j);
    assert ReaderSound(s, s.readers[j]);
    if s.readyWg == 0 {
      NobodyFailsEarly(s, step);
      ReadinessStays(s, step);
    }
  }

  lemma AnswersKept(s: State, step: Step)
    requires Inv(s, 0) && Enabled(s, step)
    ensures AnswersSound(Apply(s, step))
  {
    forall j: nat | j < |Apply(s, step).readers| ensures ReaderSound(Apply(s, step), Apply(s, step).readers[j]) {
      assert |Apply(s, step).readers| == |s.readers|;
      hide *;
      AnswerKept(s, step, j);
    }
    hide *;
  }

  lemma InvKept(s: State, step: Step, constructed: nat)
    requires Inv(s, constructed) && Enabled(s, step)
    ensures Inv(Apply(s, step), constructed)
  {
    hide WorkersSound, CountsSound, WaitsSound, OnceSound, AnswersSound, Apply;
    WorkersKept(s, step);
    CountsKept(s, step, constructed);
    WaitsKept(s, step, constructed);
    OnceKept(s, step);
    if constructed == 0 {
      AnswersKept(s, step);
    }
  }

  // ---- Runs ----

  ghost predicate RunsTo(s: State, steps: seq<Step>, t: State)
    decreases |steps|
  {
    if steps == [] then s == t else Enabled(s, steps[0]) && RunsTo(Apply(s, steps[0]), steps[1..], t)
  }

  lemma InitSound(constructed: nat, added: nat, stops: nat, readies: nat)
    ensures Inv(Init(constructed, added, stops, readies), constructed)
  {
    var s := Init(constructed, added, stops, readies);
    SumZero(s.workers, HasPassed);
    SumZero(s.workers, InOnce);
    SumZero(s.stoppers, StopsInOnce);
    hide Sum;
  }

  lemma {:induction false} RunKeepsInv(s: State, steps: seq<Step>, t: State, constructed: nat)
    requires Inv(s, constructed) && RunsTo(s, steps, t)
    ensures Inv(t, constructed)
    decreases |steps|
  {
    hide Inv, Enabled, Apply;
    if steps != [] {
      InvKept(s, steps[0], constructed);
      RunKeepsInv(Apply(s, steps[0]), steps[1..], t, constructed);
    }
  }

  /**
   The protocol over all interleavings. The stopping channel is closed at most once; when Run or a
   Stop has returned, every function has; Run returns an error exactly when a function failed.
   */
  lemma GroupIsSafe(constructed: nat, added: nat, stops: nat, readies: nat, steps: seq<Step>, t: State)
    requires RunsTo(Init(constructed, added, stops, readies), steps, t)
    ensures t.stoppingClosed <= 1 && t.stoppedClosed <= 1
    ensures t.runner.RunReturned? || StopReturned in t.stoppers ==>
              forall i :: 0 <= i < |t.workers| ==> t.workers[i].phase == Gone
    ensures t.runner.RunReturned? ==>
              (t.runner.err.Some? <==> exists i :: 0 <= i < |t.workers| && t.workers[i].failed)
              && (t.runner.err.Some? ==> t.runner.err.value < |t.workers| && t.workers[t.runner.err.value].failed)
  {
    InitSound(constructed, added, stops, readies);
    RunKeepsInv(Init(constructed, added, stops, readies), steps, t, constructed);
    hide Init, RunsTo, Enabled, Apply;
    if t.stoppedClosed > 0 {
      AllGone(t);
    }
    assert forall i :: 0 <= i < |t.workers| ==> WorkerSound(t, t.workers[i]);
  }

  /**
   Ready, where every function came through Add: it passes only when each function has signalled or
   returned, and it reports an error if one of them failed before it had signalled.
   */
  lemma ReadyIsHonest(added: nat, stops: nat, readies: nat, steps: seq<Step>, t: State, j: nat)
    requires RunsTo(Init(0, added, stops, readies), steps, t) && j < |t.readers| && t.readers[j] != ReadyCalled
    ensures forall i :: 0 <= i < |t.workers| ==> t.workers[i].ready
    ensures t.readers[j].ReadyReturned? && (exists i :: 0 <= i < |t.workers| && t.workers[i].early) ==>
              t.readers[j].answer.Error? && t.readers[j].answer.worker < |t.workers|
              && t.workers[t.readers[j].answer.worker].failed
    ensures t.readers[j] == ReadyReturned(Interrupted) ==> t.shuttingDown
  {
    InitSound(0, added, stops, readies);
    RunKeepsInv(Init(0, added, stops, readies), steps, t, 0);
    hide Init, RunsTo, Enabled, Apply;
    AllPassed(t);
    assert forall i :: 0 <= i < |t.workers| ==> WorkerSound(t, t.workers[i]);
    assert ReaderSound(t, t.readers[j]);
  }

  // A caller of Ready that has yet to look whether the group was stopped, or has seen that it was
  ghost predicate MeetsStop(s: State, r: Reader) {
    && s.shuttingDown
    && match r
       case ReadyCalled | ReadyPassed | SawNone => true
       case Answering => s.err.Some?
       case ReadyReturned(Fine) => false
       case ReadyReturned(Interrupted) => true
       case ReadyReturned(Error(i)) => s.err == Some(i)
  }

  // A caller of Ready that has yet to look for an error, or tells this one
  ghost predicate MeetsError(s: State, r: Reader, i: nat) {
    s.err == Some(i) && (r in {ReadyCalled, ReadyPassed, Answering} || r == ReadyReturned(Error(i)))
  }

  lemma {:induction false} MeetingStays(s: State, steps: seq<Step>, t: State, j: nat)
    requires RunsTo(s, steps, t) && j < |s.readers|
    ensures |t.readers| == |s.readers|
    ensures MeetsStop(s, s.readers[j]) ==> MeetsStop(t, t.readers[j])
    ensures s.err.Some? && MeetsError(s, s.readers[j], s.err.value) ==> MeetsError(t, t.readers[j], s.err.value)
    decreases |steps|
  {
    hide Enabled, Apply;
    if steps != [] {
      ErrorStays(s, steps[0]);
      ReaderMoves(s, steps[0], j);
      MeetingStays(Apply(s, steps[0]), steps[1..], t, j);
    }
  }

  /**
   What Ready has to tell, over all interleavings and whatever came through the constructor. A caller that
   has not looked yet when the group is told to stop is answered that it was interrupted, or the error of a
   function that failed; one that has not looked yet, or is about to answer, when an error is known is
   answered that error.
   */
  lemma ReadyTells(constructed: nat, added: nat, stops: nat, readies: nat, before: seq<Step>, s: State,
                   steps: seq<Step>, t: State, j: nat)
    requires RunsTo(Init(constructed, added, stops, readies), before, s) && RunsTo(s, steps, t)
    requires j < |s.readers|
    ensures j < |t.readers|
    ensures s.shuttingDown && s.readers[j] in {ReadyCalled, ReadyPassed, SawNone} && t.readers[j].ReadyReturned? ==>
              || t.readers[j].answer == Interrupted
              || exists i: nat :: t.readers[j].answer == Error(i) && i < |t.workers| && t.workers[i].failed
    ensures s.err.Some? && s.readers[j] in {ReadyCalled, ReadyPassed, Answering} && t.readers[j].ReadyReturned? ==>
              t.readers[j].answer == Error(s.err.value)
  {
    InitSound(constructed, added, stops, readies);
    RunKeepsInv(Init(constructed, added, stops, readies), before, s, constructed);
    RunKeepsInv(s, steps, t, constructed);
    hide Init, RunsTo, Enabled, Apply, Sum;
    MeetingStays(s, steps, t, j);
  }

  ghost predicate AllReady(s: State) {
    forall i :: 0 <= i < |s.workers| ==> s.workers[i].ready
  }

  // Run has launched the first k functions, and they have signalled and passed
  function Passing(constructed: nat, added: nat, stops: nat, readies: nat, k: nat): State
    requires k <= added
  {
    Init(constructed, added, stops, readies).(
      workers := seq(constructed + added, i requires 0 <= i =>
                     if i < k then Worker(Running, true, true, false, false)
                     else Worker(Idle, false, false, false, false)),
      launched := k, runner := Launching, wg := constructed + added, readyWg := added - k)
  }

  lemma RunsFirst(s: State, step: Step, steps: seq<Step>, t: State)
    requires Enabled(s, step) && RunsTo(Apply(s, step), steps, t)
    ensures RunsTo(s, [step] + steps, t)
  {
    assert ([step] + steps)[1..] == steps;
  }

  lemma NextPasses(constructed: nat, added: nat, stops: nat, readies: nat, k: nat)
    requires k < added
    ensures var s := Passing(constructed, added, stops, readies, k);
            && Enabled(s, Launch)
            && Enabled(Apply(s, Launch), Signal(k))
            && Enabled(Apply(Apply(s, Launch), Signal(k)), Pass(k))
            && Apply(Apply(Apply(s, Launch), Signal(k)), Pass(k)) == Passing(constructed, added, stops, readies, k + 1)
  {
    var s := Passing(constructed, added, stops, readies, k);
    var t := Apply(Apply(Apply(s, Launch), Signal(k)), Pass(k));
    assert t.workers == Passing(constructed, added, stops, readies, k + 1).workers;
  }

  lemma OnePasses(constructed: nat, added: nat, stops: nat, readies: nat, k: nat, steps: seq<Step>, t: State)
    requires k < added && RunsTo(Passing(constructed, added, stops, readies, k + 1), steps, t)
    ensures RunsTo(Passing(constructed, added, stops, readies, k), [Launch] + ([Signal(k)] + ([Pass(k)] + steps)), t)
  {
    hide RunsTo, Passing, Enabled, Apply;
    NextPasses(constructed, added, stops, readies, k);
    var s := Passing(constructed, added, stops, readies, k);
    RunsFirst(Apply(Apply(s, Launch), Signal(k)), Pass(k), steps, t);
    RunsFirst(Apply(s, Launch), Signal(k), [Pass(k)] + steps, t);
    RunsFirst(s, Launch, [Signal(k)] + ([Pass(k)] + steps), t);
  }

  lemma {:induction false} AddedPass(constructed: nat, added: nat, stops: nat, readies: nat, k: nat, steps: seq<Step>,
                                     t: State) returns (all: seq<Step>)
    requires k <= added && RunsTo(Passing(constructed, added, stops, readies, added), steps, t)
    ensures RunsTo(Passing(constructed, added, stops, readies, k), all, t)
    decreases added - k
  {
    hide RunsTo, Passing;
    if k == added {
      all := steps;
    } else {
      all := AddedPass(constructed, added, stops, readies, k + 1, steps, t);
      OnePasses(constructed, added, stops, readies, k, all, t);
      all := [Launch] + ([Signal(k)] + ([Pass(k)] + all));
    }
  }

  // Whichever way the group runs, a Ready that has passed finds every function ready
  ghost predicate ReadyWaits(s: State) {
    forall steps, t, j: nat :: RunsTo(s, steps, t) && j < |t.readers| && t.readers[j] != ReadyCalled ==> AllReady(t)
  }

  lemma BothEndsOfPassing(constructed: nat, added: nat, stops: nat, readies: nat)
    requires constructed > 0 && readies > 0
    ensures var s, p := Init(constructed, added, stops, readies), Passing(constructed, added, stops, readies, added);
            && Enabled(s, Begin) && Apply(s, Begin) == Passing(constructed, added, stops, readies, 0)
            && Enabled(p, ReadyStep(0)) && Apply(p, ReadyStep(0)).readers == p.readers[0 := ReadyPassed]
            && !AllReady(Apply(p, ReadyStep(0)))
  {
    var s, p := Init(constructed, added, stops, readies), Passing(constructed, added, stops, readies, added);
    assert Apply(s, Begin).workers == Passing(constructed, added, stops, readies, 0).workers;
    assert !Apply(p, ReadyStep(0)).workers[added].ready;
  }

  // A function given to NewRunGroup is not waited for
  lemma ReadyPassesEarly(constructed: nat, added: nat, stops: nat, readies: nat)
    requires constructed > 0 && readies > 0
    ensures !ReadyWaits(Init(constructed, added, stops, readies))
  {
    BothEndsOfPassing(constructed, added, stops, readies);
    var s, p := Init(constructed, added, stops, readies), Passing(constructed, added, stops, readies, added);
    var t := Apply(p, ReadyStep(0));
    assert p.readers == s.readers && |t.readers| == readies && t.readers[0] == ReadyPassed;
    assert RunsTo(t, [], t);
    hide RunsTo, Enabled, Apply, Passing, Init, AllReady;
    RunsFirst(p, ReadyStep(0), [], t);
    var steps := AddedPass(constructed, added, stops, readies, 0, [ReadyStep(0)] + [], t);
    RunsFirst(s, Begin, steps, t);
  }

  /** That Ready waits for every function holds of exactly the groups whose functions all came through Add. */
  lemma ReadyWaitsIffNothingConstructed(constructed: nat, added: nat, stops: nat, readies: nat)
    requires readies > 0
    ensures ReadyWaits(Init(constructed, added, stops, readies)) <==> constructed == 0
  {
    if constructed > 0 {
      ReadyPassesEarly(constructed, added, stops, readies);
    } else {
      hide RunsTo, Init;
      forall steps, t, j: nat
        | RunsTo(Init(0, added, stops, readies), steps, t) && j < |t.readers| && t.readers[j] != ReadyCalled
        ensures AllReady(t)
      {
        ReadyIsHonest(added, stops, readies, steps, t, j);
      }
    }
  }

  /** A negative wait group panics. That happens in the end exactly if NewRunGroup was given functions. */
  lemma ReadinessPanicsIffConstructedWithFunctions(constructed: nat, added: nat, stops: nat, readies: nat,
                                                   steps: seq<Step>, t: State)
    requires RunsTo(Init(constructed, added, stops, readies), steps, t)
    ensures constructed == 0 ==> t.readyWg >= 0
    ensures (forall i :: 0 <= i < |t.workers| ==> t.workers[i].passed) ==> (t.readyWg < 0 <==> constructed > 0)
  {
    InitSound(constructed, added, stops, readies);
    RunKeepsInv(Init(constructed, added, stops, readies), steps, t, constructed);
    hide Init, RunsTo, Enabled, Apply, Sum;
    SumFull(t.workers, HasPassed);
  }

  // ---- Every run ends, and ends with everyone returned ----

  function PhaseRank(p: Phase): nat {
    match p
    case Idle => 7
    case Running => 6
    case Erred => 5
    case Noted => 4
    case Closing => 3
    case Returned => 2
    case Signalled => 1
    case Gone => 0
  }

  function WorkerRank(w: Worker): nat {
    PhaseRank(w.phase) + (if w.ready then 0 else 1) + if w.passed then 0 else 1
  }

  function StopperRank(p: Stopper): nat {
    match p
    case StopCalled => 3
    case StopClosing => 2
    case StopWaiting => 1
    case StopReturned => 0
  }

  function ReaderRank(r: Reader): nat {
    match r
    case ReadyCalled => 4
    case ReadyPassed => 3
    case SawNone => 2
    case Answering => 1
    case ReadyReturned(_) => 0
  }

  function RunnerRank(r: Runner): nat {
    match r
    case NotRun => 4
    case Launching => 3
    case Awaiting => 2
    case Closed => 1
    case RunReturned(_) => 0
  }

  function Rank(s: State): nat {
    RunnerRank(s.runner) + Sum(s.workers, WorkerRank) + Sum(s.stoppers, StopperRank) + Sum(s.readers, ReaderRank)
  }

  lemma MoverRankDrops(s: State, step: Step)
    requires Enabled(s, step)
    ensures var t, m := Apply(s, step), Mover(s, step);
            m.Some? ==> m.value < |s.workers| == |t.workers|
                        && WorkerRank(t.workers[m.value]) < WorkerRank(s.workers[m.value])
  {
  }

  lemma WorkersRankDrops(s: State, step: Step)
    requires Enabled(s, step)
    ensures var t := Apply(s, step);
            if Mover(s, step).Some? then Sum(t.workers, WorkerRank) < Sum(s.workers, WorkerRank)
            else Sum(t.workers, WorkerRank) == Sum(s.workers, WorkerRank)
  {
    hide Sum, Apply, Enabled, Mover, WorkerRank;
    MoverRankDrops(s, step);
    SumMoves(s, step, WorkerRank);
  }

  lemma CallersRankDrops(s: State, step: Step)
    requires Enabled(s, step)
    ensures var t := Apply(s, step);
            Sum(t.stoppers, StopperRank) + Sum(t.readers, ReaderRank) + RunnerRank(t.runner)
            <= Sum(s.stoppers, StopperRank) + Sum(s.readers, ReaderRank) + RunnerRank(s.runner)
               - if Mover(s, step).Some? then 0 else 1
  {
    match step
    case StopEnter(j) => SumUpdate(s.stoppers, j, StopClosing, StopperRank);
    case StopSkip(j) => SumUpdate(s.stoppers, j, StopWaiting, StopperRank);
    case StopClose(j) => SumUpdate(s.stoppers, j, StopWaiting, StopperRank);
    case StopReturn(j) => SumUpdate(s.stoppers, j, StopReturned, StopperRank);
    case ReadyStep(j) => SumUpdate(s.readers, j, Read(s, s.readers[j]), ReaderRank);
    case _ =>
  }

  lemma RankDrops(s: State, step: Step)
    requires Enabled(s, step)
    ensures Rank(Apply(s, step)) < Rank(s)
  {
    hide Apply, Enabled, Sum, Mover;
    WorkersRankDrops(s, step);
    CallersRankDrops(s, step);
  }

  lemma {:induction false} RunsAreBounded(s: State, steps: seq<Step>, t: State)
    requires RunsTo(s, steps, t)
    ensures |steps| + Rank(t) <= Rank(s)
    decreases |steps|
  {
    hide Rank, Enabled, Apply;
    if steps != [] {
      RankDrops(s, steps[0]);
      RunsAreBounded(Apply(s, steps[0]), steps[1..], t);
    }
  }

  // Run, every Stop and every Ready have returned, and no goroutine is left
  ghost predicate Settled(s: State) {
    && s.runner.RunReturned?
    && (forall i :: 0 <= i < |s.workers| ==> s.workers[i].phase == Gone && s.workers[i].passed)
    && (forall j :: 0 <= j < |s.stoppers| ==> s.stoppers[j] == StopReturned)
    && (forall j :: 0 <= j < |s.readers| ==> s.readers[j].ReadyReturned?)
  }

  // Somebody inside the once can leave it
  lemma OnceIsLeft(s: State) returns (step: Step)
    requires OnceSound(s) && s.once == Entered
    ensures Enabled(s, step) && (step.Close? || step.StopClose?)
  {
    if i: nat :| At(s, i, Closing) {
      step := Close(i);
    } else {
      forall k | 0 <= k < |s.workers| ensures InOnce(s.workers[k]) == 0 {
        assert !At(s, k, Closing);
      }
      SumZero(s.workers, InOnce);
      if forall j :: 0 <= j < |s.stoppers| ==> s.stoppers[j] != StopClosing {
        SumZero(s.stoppers, StopsInOnce);
        assert false;
      }
      var j: nat :| j < |s.stoppers| && s.stoppers[j] == StopClosing;
      step := StopClose(j);
    }
  }

  lemma WorkerCanStep(s: State, constructed: nat, i: nat) returns (step: Step)
    requires WorkersSound(s) && CountsSound(s, constructed) && OnceSound(s)
    requires i < |s.workers| && s.workers[i].phase != Running && !(s.workers[i].phase == Gone && s.workers[i].passed)
    ensures Enabled(s, step) && !Own(step)
  {
    assert WorkerSound(s, s.workers[i]);
    match s.workers[i].phase
    case Idle => step := if s.runner == NotRun then Begin else Launch;
    case Erred => step := Note(i);
    case Noted =>
      if s.once == Entered {
        step := OnceIsLeft(s);
      } else {
        step := if s.once == Fresh then Enter(i) else Skip(i);
      }
    case Closing => step := Close(i);
    case Returned => step := Mark(i);
    case Signalled => step := Leave(i);
    case Gone => step := Pass(i);
  }

  // What the functions do themselves; the rest is the group's
  predicate Own(step: Step) {
    step.Signal? || step.Succeed? || step.Fail?
  }

  lemma RunnerCanStep(s: State, constructed: nat) returns (step: Step)
    requires WorkersSound(s) && CountsSound(s, constructed) && !s.runner.RunReturned?
    requires forall i :: 0 <= i < |s.workers| ==> s.workers[i].phase == Gone
    ensures Enabled(s, step) && !Own(step)
  {
    SumZero(s.workers, Busy);
    assert !At(s, s.launched, Idle);
    hide Sum;
    step := match s.runner
      case NotRun => Begin
      case Launching => Await
      case Awaiting => CloseStopped
      case Closed => RunReturn;
  }

  lemma StopperCanStep(s: State, j: nat) returns (step: Step)
    requires OnceSound(s) && j < |s.stoppers|
    requires s.stoppers[j] in {StopCalled, StopClosing} || (s.stoppers[j] == StopWaiting && s.stoppedClosed > 0)
    ensures Enabled(s, step) && !Own(step)
  {
    if s.stoppers[j] == StopCalled && s.once == Entered {
      step := OnceIsLeft(s);
    } else {
      hide OnceSound;
      step := match s.stoppers[j]
        case StopCalled => if s.once == Fresh then StopEnter(j) else StopSkip(j)
        case StopClosing => StopClose(j)
        case StopWaiting => StopReturn(j);
    }
  }

  lemma CallerCanStep(s: State) returns (step: Step)
    requires Inv(s, 0) && !Settled(s)
    requires forall i :: 0 <= i < |s.workers| ==> s.workers[i].phase == Gone && s.workers[i].passed
    ensures Enabled(s, step) && !Own(step)
  {
    hide AnswersSound, OnceSound, WorkersSound;
    if !s.runner.RunReturned? {
      step := RunnerCanStep(s, 0);
    } else if j: nat :| j < |s.stoppers| && s.stoppers[j] != StopReturned {
      step := StopperCanStep(s, j);
    } else {
      var j: nat :| j < |s.readers| && !s.readers[j].ReadyReturned?;
      SumFull(s.workers, HasPassed);
      assert forall i :: 0 <= i < |s.workers| ==> HasPassed(s.workers[i]) == 1;
      step := ReadyStep(j);
    }
  }

  ghost predicate Stuck(s: State) {
    forall step :: Enabled(s, step) ==> Own(step)
  }

  lemma StuckGroupHasSettled(s: State, constructed: nat)
    requires Inv(s, constructed) && Stuck(s) && forall i :: 0 <= i < |s.workers| ==> !At(s, i, Running)
    ensures if constructed == 0 then Settled(s) else s.readyWg < 0
  {
    hide WaitsSound, AnswersSound, OnceSound, Enabled, Own;
    forall i: nat | i < |s.workers| ensures s.workers[i].phase == Gone && s.workers[i].passed {
      if !(s.workers[i].phase == Gone && s.workers[i].passed) {
        assert !At(s, i, Running);
        var step := WorkerCanStep(s, constructed, i);
      }
    }
    if constructed > 0 {
      SumFull(s.workers, HasPassed);
      assert forall i :: 0 <= i < |s.workers| ==> HasPassed(s.workers[i]) == 1;
    } else if !Settled(s) {
      var step := CallerCanStep(s);
    }
  }

  lemma StuckGroupWasTold(s: State, constructed: nat)
    requires Inv(s, constructed) && Stuck(s)
    requires s.stoppers != [] || exists i :: 0 <= i < |s.workers| && s.workers[i].failed
    ensures s.stoppingClosed == 1
  {
    hide WaitsSound, AnswersSound, Enabled, Own;
    if s.stoppers != [] {
      if s.stoppers[0] in {StopCalled, StopClosing} {
        var step := StopperCanStep(s, 0);
      }
    } else {
      var i: nat :| i < |s.workers| && s.workers[i].failed;
      assert WorkerSound(s, s.workers[i]);
      if s.workers[i].phase != Gone {
        var step := WorkerCanStep(s, constructed, i);
      }
    }
  }

  /**
   No deadlock. Where nothing can happen but what the functions do themselves, then: once no function
   is running, everyone has returned, or else the readiness group has panicked, which takes functions
   given to NewRunGroup; and if Stop was called or a function has failed, all have been told to stop.
   */
  lemma StuckMeansSettled(constructed: nat, added: nat, stops: nat, readies: nat, steps: seq<Step>, t: State)
    requires RunsTo(Init(constructed, added, stops, readies), steps, t)
    requires forall step :: Enabled(t, step) ==> Own(step)
    ensures (forall i :: 0 <= i < |t.workers| ==> !At(t, i, Running)) ==>
              if constructed == 0 then Settled(t) else t.readyWg < 0
    ensures t.stoppers != [] || (exists i :: 0 <= i < |t.workers| && t.workers[i].failed) ==> t.stoppingClosed == 1
  {
    InitSound(constructed, added, stops, readies);
    RunKeepsInv(Init(constructed, added, stops, readies), steps, t, constructed);
    assert Stuck(t);
    hide RunsTo, Enabled, Inv, Settled, At, Init, Own;
    if t.stoppers != [] || exists i :: 0 <= i < |t.workers| && t.workers[i].failed {
      StuckGroupWasTold(t, constructed);
    }
    if forall i :: 0 <= i < |t.workers| ==> !At(t, i, Running) {
      StuckGroupHasSettled(t, constructed);
    }
  }
}
