/**
 The transactional producer adaptor over an abstract broker.

 The broker commits a transaction atomically, discards it on abort, and fences and discards
 whatever the same transactional id left behind when transactions are initialised again.
 What may go wrong at each call is an arbitrary finite script of faults, one per call.
 */
module TxProducer {
  import opened Basics
  import opened Changelog

  datatype Fault =
    | Fine         // the call succeeds
    | Retriable    // retriable or timed out: the adaptor calls again
    | NeedsAbort   // the transaction has to be aborted, or the queue is full
    | Fatal        // the client has to be restarted
    | LateFails    // the same, but a commit took effect
    | Refused      // any other client error
    | StoreFails   // a store's backend fails to flush; calls to the broker succeed
    | Dies         // the process dies before the call takes effect
    | DiesApplied  // the process dies after the call took effect

  // The errors that reach the buffer: the adaptor's two kinds, or a plain client error
  datatype ProducerError = AbortRequired | RestartRequired | Plain

  datatype Outcome = Done | Failed(error: ProducerError) | Crashed

  // What a call that retries by itself answers, given the faults it meets
  ghost function Answer(faults: seq<Fault>): Outcome {
    if faults == [] then Done
    else match faults[0]
      case Fine | StoreFails => Done
      case Retriable => Answer(faults[1..])
      case NeedsAbort => Failed(AbortRequired)
      case Fatal | LateFails => Failed(RestartRequired)
      case Refused => Failed(Plain)
      case Dies | DiesApplied => Crashed
  }

  // A commit takes effect, whatever is answered
  ghost predicate Applied(faults: seq<Fault>) {
    if faults == [] then true
    else match faults[0]
      case Retriable => Applied(faults[1..])
      case Fine | StoreFails | LateFails | DiesApplied => true
      case _ => false
  }

  // What such a call leaves of the script
  ghost function Rest(faults: seq<Fault>): seq<Fault> {
    if faults == [] then [] else if faults[0].Retriable? then Rest(faults[1..]) else faults[1..]
  }

  lemma {:induction false} RestIsShorter(faults: seq<Fault>)
    ensures if faults == [] then Rest(faults) == [] && Answer(faults).Done? else |Rest(faults)| < |faults|
  {
    if faults != [] {
      RestIsShorter(faults[1..]);
    }
  }

  // What is left after a call whose error, if it answers one, is recovered from; nothing if the process ends in it
  ghost function Settles(faults: seq<Fault>): (left: Option<seq<Fault>>)
    ensures left.Some? ==> |left.value| <= |faults|
    decreases |faults|, 0
  {
    RestIsShorter(faults);
    match Answer(faults)
    case Done => Some(Rest(faults))
    case Failed(error) => Recovers(error, Rest(faults))
    case Crashed => None
  }

  // What recovery from an error leaves: an abort or a restart, and then transactions are initialised
  ghost function Recovers(error: ProducerError, faults: seq<Fault>): (left: Option<seq<Fault>>)
    ensures left.Some? ==> |left.value| <= |faults|
    decreases |faults|, 1
  {
    match error
    case AbortRequired =>
      var aborted := Settles(faults);
      if aborted.Some? then Settles(aborted.value) else None
    case RestartRequired =>
      if faults == [] then Settles([])
      else if faults[0].Fine? || faults[0].StoreFails? then Settles(faults[1..])
      else None
    case Plain => None
  }

  function Refusals(faults: seq<Fault>): nat {
    if faults == [] then 0 else (if faults[0].Refused? then 1 else 0) + Refusals(faults[1..])
  }

  lemma {:induction false} RefusalsAreRefused(faults: seq<Fault>)
    ensures Refusals(faults) > 0 <==> Refused in faults
  {
    if faults != [] {
      RefusalsAreRefused(faults[1..]);
      assert faults == [faults[0]] + faults[1..];
    }
  }

  // A produce that meets one of these ends the process
  predicate Deadly(faults: seq<Fault>) {
    Retriable in faults || Dies in faults || DiesApplied in faults
  }

  // Processing a record survives these: the transaction is begun, and then nothing deadly comes
  predicate Survivable(faults: seq<Fault>) {
    !Deadly(faults) && (faults == [] || faults[0].Fine?)
  }

  lemma DeadlyEndsIt(faults: seq<Fault>)
    ensures Deadly(faults) ==> !Survivable(faults)
  {
  }

  // A flush that meets one of these may fail although its transaction was committed
  predicate Repeats(faults: seq<Fault>) {
    StoreFails in faults || LateFails in faults
  }

  // The process dies of these wherever it meets them
  predicate Lethal(faults: seq<Fault>) {
    Dies in faults || DiesApplied in faults
  }

  // The next n calls succeed
  predicate Clear(faults: seq<Fault>, n: nat) {
    n == 0 || faults == [] || (faults[0].Fine? && Clear(faults[1..], n - 1))
  }

  lemma {:induction false} ClearLess(faults: seq<Fault>, n: nat, m: nat)
    requires Clear(faults, n) && m <= n
    ensures Clear(faults, m)
  {
    if m > 0 && faults != [] {
      ClearLess(faults[1..], n - 1, m - 1);
    }
  }

  /**
   Errors that abort the transaction or restart the client, as many as there are, if three calls succeed after
   each.
   */
  predicate Mild(faults: seq<Fault>) {
    || faults == []
    || (&& (faults[0].Fine? || ((faults[0].NeedsAbort? || faults[0].Fatal?) && Clear(faults[1..], 3)))
        && Mild(faults[1..]))
  }

  // What is left after k calls, each of which takes one entry
  function After(faults: seq<Fault>, k: nat): seq<Fault> {
    if k <= |faults| then faults[k..] else []
  }

  lemma {:induction false} ClearAfter(faults: seq<Fault>, k: nat, n: nat)
    requires Clear(faults, k + n)
    ensures Clear(After(faults, k), n)
  {
    ClearIff(faults, k + n);
    ClearIff(After(faults, k), n);
  }

  lemma {:induction false} ClearIff(faults: seq<Fault>, n: nat)
    ensures Clear(faults, n) <==> forall i :: 0 <= i < |faults| && i < n ==> faults[i].Fine?
  {
    if n > 0 && faults != [] {
      ClearIff(faults[1..], n - 1);
      assert forall i :: 0 < i < |faults| ==> faults[i] == faults[1..][i - 1];
      if forall i :: 0 <= i < |faults| && i < n ==> faults[i].Fine? {
        assert forall i :: 0 <= i < |faults[1..]| ==> faults[1..][i] == faults[i + 1];
      }
    }
  }

  // The error at i, if there is one, is of the two kinds, and three calls after it succeed
  ghost predicate MildAt(faults: seq<Fault>, i: nat)
    requires i < |faults|
  {
    || faults[i].Fine?
    || ((faults[i].NeedsAbort? || faults[i].Fatal?) && forall j :: i < j < |faults| && j <= i + 3 ==> faults[j].Fine?)
  }

  lemma {:induction false} MildIff(faults: seq<Fault>)
    ensures Mild(faults) <==> forall i :: 0 <= i < |faults| ==> MildAt(faults, i)
  {
    if faults != [] {
      var rest := faults[1..];
      MildIff(rest);
      ClearIff(rest, 3);
      assert MildAt(faults, 0)
        <==> faults[0].Fine? || ((faults[0].NeedsAbort? || faults[0].Fatal?) && Clear(rest, 3)) by {
        assert forall j :: 0 < j < |faults| ==> faults[j] == rest[j - 1];
        assert forall j :: 0 <= j < |rest| ==> rest[j] == faults[j + 1];
      }
      forall i | 0 <= i < |rest| ensures MildAt(rest, i) <==> MildAt(faults, i + 1) {
        assert forall j :: i + 1 < j < |faults| ==> faults[j] == rest[j - 1];
        assert forall j :: i < j < |rest| ==> rest[j] == faults[j + 1];
      }
      if Mild(faults) {
        forall i | 0 <= i < |faults| ensures MildAt(faults, i) {
          assert i > 0 ==> MildAt(rest, i - 1);
        }
      }
      if forall i :: 0 <= i < |faults| ==> MildAt(faults, i) {
        forall i | 0 <= i < |rest| ensures MildAt(rest, i) {
          assert MildAt(faults, i + 1);
        }
      }
    }
  }

  lemma NothingIsMild()
    ensures Mild([])
  {
  }

  lemma {:induction false} MildIsHarmless(faults: seq<Fault>)
    ensures Mild(faults) ==> !Deadly(faults) && !Repeats(faults) && !Lethal(faults) && Refusals(faults) == 0
  {
    if faults != [] {
      MildIsHarmless(faults[1..]);
      assert faults == [faults[0]] + faults[1..];
    }
  }

  // What a call that retries by itself makes of them, and what is left
  lemma MildAnswers(faults: seq<Fault>)
    requires Mild(faults)
    ensures !Answer(faults).Crashed? && Answer(faults) != Failed(Plain)
    ensures Answer(faults).Done? <==> Clear(faults, 1)
    ensures var left := Rest(faults);
            && Mild(left)
            && (Clear(faults, 2) ==> Clear(left, 1)) && (Clear(faults, 3) ==> Clear(faults, 2) && Clear(left, 2))
            && (Clear(faults, 2) ==> Clear(faults, 1))
            && (!Answer(faults).Done? ==> Clear(left, 3) && Clear(left, 2) && Clear(left, 1))
  {
    var left := Rest(faults);
    if Clear(left, 3) {
      ClearLess(left, 3, 2);
      ClearLess(left, 3, 1);
    }
    if Clear(faults, 3) {
      ClearLess(faults, 3, 2);
    }
    if Clear(left, 2) {
      ClearLess(left, 2, 1);
    }
  }

  // The calls that a first write makes, or any other
  function Writes(begun: bool): nat {
    if begun then 1 else 2
  }

  // A write among m that are to come, and two calls after them
  lemma ClearWrite(faults: seq<Fault>, m: nat, begun: bool)
    requires m > 0 && Clear(faults, m + 1 + Writes(begun))
    ensures Clear(faults, Writes(begun)) && Clear(After(faults, Writes(begun)), m + 1)
  {
    ClearLess(faults, m + 1 + Writes(begun), Writes(begun));
    ClearAfter(faults, Writes(begun), m + 1);
  }

  lemma FirstCalls(faults: seq<Fault>, begun: bool)
    requires Clear(faults, Writes(begun))
    ensures Answer(faults).Done? && Rest(faults) == After(faults, 1) && (faults == [] || faults[0].Fine?)
    ensures !begun ==>
              var left := After(faults, 1);
              (left == [] || left[0].Fine?) && After(left, 1) == After(faults, 2)
  {
    if !begun {
      ClearAfter(faults, 1, 1);
    }
  }

  // Faults are used up, and nothing worse comes in from elsewhere
  predicate Spends(before: seq<Fault>, after: seq<Fault>) {
    && |after| <= |before|
    && (Deadly(after) ==> Deadly(before))
    && (Lethal(after) ==> Lethal(before))
    && (Repeats(after) ==> Repeats(before))
    && (Mild(before) ==> Mild(after))
    && Refusals(after) <= Refusals(before)
  }

  lemma SpendsNothing(faults: seq<Fault>)
    ensures Spends(faults, faults)
  {
  }

  lemma StaysMild(before: seq<Fault>, after: seq<Fault>)
    requires Spends(before, after)
    ensures (Mild(before) ==> Mild(after)) && Refusals(after) <= Refusals(before)
  {
  }

  lemma SpendsTrans(a: seq<Fault>, b: seq<Fault>, c: seq<Fault>)
    requires Spends(a, b) && Spends(b, c)
    ensures Spends(a, c) && |c| <= |b| <= |a| && Refusals(c) <= Refusals(b) <= Refusals(a)
    ensures (Repeats(b) ==> Repeats(a)) && (Deadly(b) ==> Deadly(a)) && (Lethal(b) ==> Lethal(a))
    ensures Mild(a) ==> Mild(b)
  {
  }

  // The metadata are fetched, offsets are sent and the transaction commits
  ghost predicate GoesThrough(faults: seq<Fault>) {
    || faults == []
    || (&& !MetaFails(faults[0]) && !faults[0].Dies? && !faults[0].DiesApplied?
        && Answer(faults[1..]).Done? && Answer(Rest(faults[1..])).Done?)
  }

  // So it goes, and then the first store fails to flush
  ghost predicate FailsAfterCommit(faults: seq<Fault>) {
    faults != [] && GoesThrough(faults) && var left := Rest(Rest(faults[1..])); left != [] && left[0].StoreFails?
  }

  predicate MetaFails(f: Fault) {
    f.Retriable? || f.NeedsAbort? || f.Fatal? || f.LateFails? || f.Refused?
  }

  // Committed topics and group offsets, and the transaction the transactional id has pending
  datatype Cluster = Cluster(
    messages: seq<Effect>,
    offsets: map<TopicPartition, nat>,
    pending: seq<Effect>,
    pendingOffsets: map<TopicPartition, nat>)
  {
    function Committed(): Cluster {
      Cluster(messages + pending, offsets + pendingOffsets, [], map[])
    }

    function Discarded(): Cluster {
      Cluster(messages, offsets, [], map[])
    }

    predicate Idle() {
      pending == [] && pendingOffsets == map[]
    }
  }

  lemma LeftAfterCommit(faults: seq<Fault>)
    requires FailsAfterCommit(faults)
    ensures var left := Rest(Rest(faults[1..]));
            GoesThrough(faults) && left != [] && left[0].StoreFails? && |left[1..]| + 4 <= |faults|
  {
    RestIsShorter(faults[1..]);
    RestIsShorter(Rest(faults[1..]));
  }

  class Producer {
    var cluster: Cluster
    var open: bool       // the client's transaction is open
    var inited: bool     // transactions were initialised since the client was created
    var txBegin: bool    // the adaptor's own record of an open transaction
    var faults: seq<Fault>
    ghost var misused: bool  // a call was made in a transaction state that forbids it

    ghost predicate Valid()
      reads this
    {
      && (open ==> inited)
      && (txBegin ==> open)
      && (inited && !open ==> cluster.Idle())
    }

    // The adaptor's flag tells the truth
    ghost predicate InStep()
      reads this
    {
      Valid() && inited && txBegin == open && !misused
    }

    // A transaction was begun only to write
    ghost predicate OpenHolds()
      reads this
    {
      open ==> cluster.pending != []
    }

    // The flag tells the truth, and what comes is mild
    ghost predicate Steady()
      reads this
    {
      Valid() && inited && txBegin == open && Mild(faults)
    }

    // A write is made in a transaction that is open, or can be begun
    ghost predicate CanWrite()
      reads this
    {
      Steady() && (txBegin || Clear(faults, 1))
    }

    // A new process: the client is not initialised, the broker keeps what the old one left
    constructor (cluster: Cluster, faults: seq<Fault>)
      ensures Valid() && !inited && !txBegin && !open && !misused
      ensures this.cluster == cluster && this.faults == faults
    {
      this.cluster, this.faults := cluster, faults;
      open, inited, txBegin, misused := false, false, false, false;
    }

    method NextFault() returns (f: Fault)
      modifies this`faults
      ensures old(faults) == [] ==> f == Fine && faults == []
      ensures old(faults) != [] ==> f == old(faults)[0] && faults == old(faults)[1..]
      ensures Spends(old(faults), faults) && (f.Fine? || f in old(faults))
      ensures f.Refused? ==> Refusals(faults) < Refusals(old(faults))
    {
      f := Fine;
      if faults != [] {
        f, faults := faults[0], faults[1..];
      }
    }

    method HandleTxError(f: Fault) returns (error: ProducerError)
      requires f.NeedsAbort? || f.Fatal? || f.LateFails? || f.Refused?
      modifies this`txBegin
      ensures !txBegin
      ensures f.NeedsAbort? <==> error.AbortRequired?
      ensures f.Fatal? || f.LateFails? <==> error.RestartRequired?
    {
      txBegin := false;
      error := match f
        case NeedsAbort => AbortRequired
        case Fatal | LateFails => RestartRequired
        case _ => Plain;
    }

    method InitTransactions() returns (o: Outcome)
      requires Valid() && !txBegin
      modifies this
      ensures Valid() && !txBegin && misused == old(misused)
      ensures o == Answer(old(faults)) && faults == Rest(old(faults))
      ensures Spends(old(faults), faults) && (!o.Done? ==> |faults| < |old(faults)|)
      ensures o.Crashed? ==> Lethal(old(faults))
      ensures o.Done? ==> inited && !open && cluster == old(cluster).Discarded()
      ensures o.Failed? ==> cluster == old(cluster) && open == old(open) && inited == old(inited)
      ensures o.Crashed? ==> cluster.messages == old(cluster).messages && cluster.offsets == old(cluster).offsets
      decreases |faults|
    {
      var f := NextFault();
      match f {
        case Fine | StoreFails =>
          cluster, open, inited := cluster.Discarded(), false, true;
          o := Done;
        case Retriable =>
          o := InitTransactions();
        case Dies | DiesApplied =>
          o := Crashed;
        case _ =>
          var e := HandleTxError(f);
          o := Failed(e);
      }
    }

    method BeginTransaction() returns (o: Outcome)
      requires Valid() && !txBegin
      modifies this
      ensures Valid() && cluster == old(cluster) && inited == old(inited)
      ensures Spends(old(faults), faults)
      ensures misused == (old(misused) || old(open) || !old(inited))
      ensures o == if old(open || !inited) then Failed(RestartRequired) else Answer(old(faults))
      ensures old(inited && !open) ==> faults == Rest(old(faults))
      ensures o.Done? ==> txBegin && open && !old(open) && old(inited)
      ensures !o.Done? && old(inited && !open) ==> |faults| < |old(faults)|
      decreases |faults|
    {
      if open || !inited {
        misused := true;
        o := Failed(RestartRequired);  // the client answers with a state error
        return;
      }
      var f := NextFault();
      match f {
        case Fine | StoreFails =>
          open, txBegin := true, true;
          o := Done;
        case Retriable =>
          o := BeginTransaction();
        case Dies | DiesApplied =>
          o := Crashed;
        case _ =>
          var e := HandleTxError(f);
          o := Failed(e);
      }
    }

    // A transaction is begun at the first produce or send-offsets; a failing begin panics
    method EnsureBegun() returns (begun: bool)
      requires Valid()
      modifies this
      ensures Valid() && cluster == old(cluster) && inited == old(inited)
      ensures Spends(old(faults), faults)
      ensures begun ==> txBegin && open
      ensures begun <==> old(txBegin) || (old(inited && !open) && Answer(old(faults)).Done?)
      ensures old(txBegin) ==> begun && misused == old(misused) && faults == old(faults)
      ensures begun && !old(txBegin) ==> faults == Rest(old(faults))
      ensures !old(txBegin) ==> misused == (old(misused) || old(open) || !old(inited))
      ensures !begun && old(InStep()) ==> |faults| < |old(faults)|
    {
      begun := true;
      if !txBegin {
        var o := BeginTransaction();
        begun := o.Done?;
      }
    }

    method ProduceAsync(message: Effect) returns (o: Outcome)
      requires Valid()
      modifies this
      ensures Valid() && inited == old(inited)
      ensures Spends(old(faults), faults) && (o.Failed? ==> |faults| < |old(faults)|)
      ensures old(InStep()) ==> !misused && (!o.Done? ==> |faults| < |old(faults)|)
      ensures old(txBegin) ==> o == if old(faults) != [] && old(faults)[0].Retriable? then Crashed
                                    else Answer(old(faults))
      ensures o.Done? ==> txBegin && open && cluster == old(cluster).(pending := old(cluster).pending + [message])
      ensures !o.Done? ==> cluster == old(cluster)
      ensures o.Failed? ==> !txBegin && open && (o.error.Plain? ==> Refusals(faults) < Refusals(old(faults)))
      ensures o.Crashed? && old(txBegin) ==> Deadly(old(faults))
      ensures o.Crashed? && old(inited && txBegin == open) ==> !Survivable(old(faults))
      ensures old(Steady()) ==>
                && (o.Crashed? <==> !old(txBegin) && !Clear(old(faults), 1))
                && (o.Failed? ==> Clear(faults, 3))
      ensures old(Steady()) && Clear(old(faults), Writes(old(txBegin))) ==>
                o.Done? && faults == After(old(faults), Writes(old(txBegin)))
    {
      if Clear(faults, Writes(txBegin)) {
        FirstCalls(faults, txBegin);
      }
      var begun := EnsureBegun();
      if !begun {
        return Crashed;
      }
      var f := NextFault();
      match f {
        case Fine | StoreFails =>
          cluster := cluster.(pending := cluster.pending + [message]);
          o := Done;
        case Retriable | Dies | DiesApplied =>
          o := Crashed;  // there is no retry to call for a retriable produce error
        case _ =>
          var e := HandleTxError(f);
          o := Failed(e);
      }
    }

    method SendOffsetsToTransaction(offsets: map<TopicPartition, nat>) returns (o: Outcome)
      requires Valid()
      modifies this
      ensures Valid() && inited == old(inited)
      ensures Spends(old(faults), faults) && (o.Failed? ==> |faults| < |old(faults)|)
      ensures old(InStep()) ==> !misused && (!o.Done? ==> |faults| < |old(faults)|)
      ensures old(txBegin) ==> o == Answer(old(faults)) && faults == Rest(old(faults))
      ensures o.Done? ==> old(txBegin || !open)
      ensures old(inited && txBegin == open && faults == []) ==> o.Done? && faults == []
      ensures o.Crashed? && old(txBegin) ==> Lethal(old(faults))
      ensures old(inited && !txBegin && !open) ==>
                o == if Answer(old(faults)).Done? then Answer(Rest(old(faults))) else Crashed
      ensures old(Steady()) ==>
                && (o.Crashed? <==> !old(txBegin) && !Clear(old(faults), 1))
                && (o.Failed? ==> Clear(faults, 3))
      ensures o.Done? ==> txBegin && open && cluster ==
                          old(cluster).(pendingOffsets := old(cluster).pendingOffsets + offsets)
      ensures !o.Done? ==> cluster == old(cluster)
      ensures o.Failed? ==> !txBegin && open
      decreases |faults|
    {
      var begun := EnsureBegun();
      if !begun {
        return Crashed;
      }
      var f := NextFault();
      match f {
        case Fine | StoreFails =>
          cluster := cluster.(pendingOffsets := cluster.pendingOffsets + offsets);
          o := Done;
        case Retriable =>
          o := SendOffsetsToTransaction(offsets);
        case Dies | DiesApplied =>
          o := Crashed;
        case _ =>
          var e := HandleTxError(f);
          o := Failed(e);
      }
    }

    method CommitTransaction() returns (o: Outcome)
      requires Valid()
      modifies this
      ensures Valid() && inited == old(inited) && !txBegin
      ensures Spends(old(faults), faults) && (old(open) && !o.Done? ==> |faults| < |old(faults)|)
      ensures misused == (old(misused) || !old(open))
      ensures o == if old(open) then Answer(old(faults)) else Failed(RestartRequired)
      ensures old(open) ==> faults == Rest(old(faults))
      ensures o.Done? ==> old(open) && !open && cluster == old(cluster).Committed()
      ensures o.Failed? ==>
                || (cluster == old(cluster) && open == old(open))
                || (cluster == old(cluster).Committed() && old(open) && !open && Repeats(old(faults)))
      ensures cluster == if old(open) && Applied(old(faults)) then old(cluster).Committed() else old(cluster)
      ensures o.Crashed? ==> Lethal(old(faults))
      decreases |faults|
    {
      if !open {
        misused, txBegin := true, false;
        return Failed(RestartRequired);
      }
      var f := NextFault();
      match f {
        case Fine | StoreFails =>
          cluster, open := cluster.Committed(), false;
          o := Done;
        case Retriable =>
          o := CommitTransaction();
        case Dies =>
          o := Crashed;
        case DiesApplied =>
          cluster, open := cluster.Committed(), false;
          o := Crashed;
        case LateFails =>
          cluster, open := cluster.Committed(), false;
          var e := HandleTxError(f);
          o := Failed(e);
        case _ =>
          var e := HandleTxError(f);
          o := Failed(e);
      }
      txBegin := false;  // the deferred state reset
    }

    method AbortTransaction() returns (o: Outcome)
      requires Valid()
      modifies this
      ensures Valid() && inited == old(inited) && !txBegin && misused == old(misused)
      ensures o == Answer(old(faults)) && faults == Rest(old(faults))
      ensures Spends(old(faults), faults) && (!o.Done? ==> |faults| < |old(faults)|)
      ensures o.Crashed? ==> Lethal(old(faults))
      ensures o.Done? ==> !open && cluster == if old(open) then old(cluster).Discarded() else old(cluster)
      ensures o.Failed? ==> cluster == old(cluster) && open == old(open)
      ensures o.Crashed? ==> cluster.messages == old(cluster).messages && cluster.offsets == old(cluster).offsets
      decreases |faults|
    {
      var f := NextFault();
      match f {
        case Fine | StoreFails =>
          // with no transaction open the client reports a state error, which counts as done
          if open {
            cluster, open := cluster.Discarded(), false;
          }
          o := Done;
        case Retriable =>
          o := AbortTransaction();
        case Dies | DiesApplied =>
          o := Crashed;
        case _ =>
          var e := HandleTxError(f);
          o := Failed(e);
      }
      txBegin := false;  // the deferred state reset
    }

    // Closes the client and creates a new one; the broker-side transaction stays until re-init
    method Restart() returns (o: Outcome)
      requires Valid() && !txBegin
      modifies this
      ensures Valid() && !txBegin && misused == old(misused) && cluster == old(cluster)
      ensures Spends(old(faults), faults) && (!o.Done? ==> |faults| < |old(faults)|)
      ensures o.Done? || o.Crashed?
      ensures o.Done? ==> !open && !inited
      ensures Clear(old(faults), 1) ==> o.Done? && faults == Rest(old(faults))
      ensures o.Done? <==> old(faults) == [] || old(faults)[0].Fine? || old(faults)[0].StoreFails?
      ensures faults == if old(faults) == [] then [] else old(faults)[1..]
    {
      var f := NextFault();
      if f.Fine? || f.StoreFails? {
        open, inited := false, false;
        return Done;
      }
      o := Crashed;
    }

    // Consumer-group metadata for the offset commit: fetched, failed, or the process dies
    method GroupMeta() returns (o: Outcome)
      requires Valid()
      modifies this`faults
      ensures Valid()
      ensures Spends(old(faults), faults) && (!o.Done? ==> |faults| < |old(faults)|)
      ensures if old(faults) == [] then o.Done? && faults == [] else faults == old(faults)[1..]
      ensures old(faults) != [] ==> (o.Failed? <==> MetaFails(old(faults)[0]))
      ensures old(faults) != [] ==> (o.Crashed? <==> old(faults)[0].Dies? || old(faults)[0].DiesApplied?)
      ensures Mild(old(faults)) ==>
                && !o.Crashed? && Mild(faults) && (if o.Done? then Clear(old(faults), 1) else Clear(faults, 3))
                && (Clear(old(faults), 1) ==> o.Done? && (Clear(old(faults), 2) <==> Clear(faults, 1)))
    {
      var f := NextFault();
      o := if f.Dies? || f.DiesApplied? then Crashed else if MetaFails(f) then Failed(Plain) else Done;
    }
  }
}
