/**
 What a task's run amounts to, as values: the records whose effects are committed or pending,
 the topics and stores they left behind, and the input records they account for.
 The invariants of the task are stated here and each step is shown to keep them.
 */
module Ledger {
  import opened Basics
  import opened Changelog
  import opened AtomicRun
  import opened TxProducer

  datatype Books = Books(history: seq<Record>, buffered: seq<Record>, cluster: Cluster, bases: Views, views: Views)

  /**
   Exactly once, as a refinement: committed messages are those of the atomic run over the
   committed records; with the open transaction added they are those of the run that also has
   the buffered records; the bases hold the committed changelog and the caches the rest.
   */
  ghost predicate Faithful(p: Processors, n: nat, b: Books) {
    && Atomic(p, EmptyViews(n), b.history) == Run(b.history, b.cluster.messages)
    && Atomic(p, EmptyViews(n), b.history + b.buffered)
       == Run(b.history + b.buffered, b.cluster.messages + b.cluster.pending)
    && b.bases == ApplyAll(EmptyViews(n), b.cluster.messages)
    && b.views == ApplyAll(b.bases, b.cluster.pending)
    && b.cluster.offsets == OffsetsAfter(map[], b.history)
    && b.cluster.pendingOffsets == map[]
  }

  /** What has to survive a crash: every store holds only keys that its changelog mentions. */
  ghost predicate Durable(p: Processors, n: nat, history: seq<Record>, cluster: Cluster, bases: Views) {
    && Atomic(p, EmptyViews(n), history) == Run(history, cluster.messages)
    && cluster.offsets == OffsetsAfter(map[], history)
    && |bases| == n
    && forall i :: 0 <= i < n ==> Mentions(i, cluster.messages, bases[i])
  }

  // The base is the replay of a prefix of its changelog: so it is at every crash outside a restore
  ghost predicate BehindBy(base: Table, store: nat, messages: seq<Effect>) {
    exists applied: nat :: applied <= |messages| && base == Replay(map[], store, messages[..applied])
  }

  /** The delivered records, run atomically one by one, give exactly the kept ones and their messages. */
  ghost predicate Mirrors(p: Processors, n: nat, delivered: seq<Record>, kept: seq<Record>, messages: seq<Effect>) {
    Atomic(p, EmptyViews(n), delivered) == Run(kept, messages)
  }

  // --- What became of each delivery ---

  /**
   A delivered record was kept, or it failed on the state that `met` left, or the client refused a
   produce of it with a plain error, which the task takes for a failure of the record.
   */
  datatype Verdict = Kept | FailedOn(met: seq<Record>) | Denied

  // The records whose flag is not set, in order
  ghost function Unflagged(recs: seq<Record>, flags: seq<bool>): (r: seq<Record>)
    requires |recs| == |flags|
    ensures |r| <= |recs|
  {
    if recs == [] then []
    else
      var n := |recs| - 1;
      var front := Unflagged(recs[..n], flags[..n]);
      if flags[n] then front else front + [recs[n]]
  }

  lemma {:induction false} UnflaggedConcat(a: seq<Record>, fa: seq<bool>, b: seq<Record>, fb: seq<bool>)
    requires |a| == |fa| && |b| == |fb|
    ensures Unflagged(a + b, fa + fb) == Unflagged(a, fa) + Unflagged(b, fb)
    decreases |b|
  {
    if b == [] {
      assert a + b == a && fa + fb == fa;
    } else {
      var n := |b| - 1;
      assert (a + b)[..|a + b| - 1] == a + b[..n] && (fa + fb)[..|a + b| - 1] == fa + fb[..n];
      UnflaggedConcat(a, fa, b[..n], fb[..n]);
    }
  }

  lemma UnflaggedStep(recs: seq<Record>, flags: seq<bool>, i: nat)
    requires |recs| == |flags| && i < |recs|
    ensures Unflagged(recs[..i + 1], flags[..i + 1])
            == (if flags[i] then Unflagged(recs[..i], flags[..i]) else Unflagged(recs[..i], flags[..i]) + [recs[i]])
  {
    assert recs[..i + 1][..i] == recs[..i] && flags[..i + 1][..i] == flags[..i];
  }

  lemma UnflaggedSplit(recs: seq<Record>, flags: seq<bool>, i: nat)
    requires |recs| == |flags| && i < |recs|
    ensures Unflagged(recs, flags)
            == (if flags[i] then Unflagged(recs[..i], flags[..i]) else Unflagged(recs[..i], flags[..i]) + [recs[i]])
               + Unflagged(recs[i + 1..], flags[i + 1..])
  {
    hide Unflagged;
    UnflaggedStep(recs, flags, i);
    UnflaggedConcat(recs[..i + 1], flags[..i + 1], recs[i + 1..], flags[i + 1..]);
    assert recs[..i + 1] + recs[i + 1..] == recs;
    assert flags[..i + 1] + flags[i + 1..] == flags;
  }

  lemma {:induction false} NothingFlagged(recs: seq<Record>, flags: seq<bool>)
    requires |recs| == |flags| && forall i :: 0 <= i < |flags| ==> !flags[i]
    ensures Unflagged(recs, flags) == recs
  {
    if recs != [] {
      NothingFlagged(recs[..|recs| - 1], flags[..|recs| - 1]);
    }
  }

  lemma {:induction false} UnflaggedIsSubsequence(recs: seq<Record>, flags: seq<bool>)
    requires |recs| == |flags|
    ensures Subsequence(Unflagged(recs, flags), recs)
  {
    if recs != [] {
      var n := |recs| - 1;
      UnflaggedIsSubsequence(recs[..n], flags[..n]);
      var front := Unflagged(recs[..n], flags[..n]);
      assert (front + [recs[n]])[..|front|] == front;
    }
  }

  // The position behind the k-th unflagged record
  lemma {:induction false} UnflaggedAt(recs: seq<Record>, flags: seq<bool>, k: nat) returns (i: nat)
    requires |recs| == |flags| && k < |Unflagged(recs, flags)|
    ensures i < |recs| && !flags[i] && recs[i] == Unflagged(recs, flags)[k]
    ensures Unflagged(recs[..i], flags[..i]) == Unflagged(recs, flags)[..k]
    decreases |recs|
  {
    var n := |recs| - 1;
    var front := Unflagged(recs[..n], flags[..n]);
    if k < |front| {
      i := UnflaggedAt(recs[..n], flags[..n], k);
      assert recs[..n][..i] == recs[..i] && flags[..n][..i] == flags[..i];
    } else {
      i := n;
    }
  }

  // Flagging it takes it out
  lemma FlaggedOut(recs: seq<Record>, flags: seq<bool>, i: nat, k: nat)
    requires |recs| == |flags| && i < |recs| && !flags[i] && k < |Unflagged(recs, flags)|
    requires Unflagged(recs[..i], flags[..i]) == Unflagged(recs, flags)[..k]
    ensures Unflagged(recs, flags[i := true]) == Unflagged(recs, flags)[..k] + Unflagged(recs, flags)[k + 1..]
  {
    hide Unflagged;
    UnflaggedSplit(recs, flags, i);
    UnflaggedSplit(recs, flags[i := true], i);
    assert flags[i := true][..i] == flags[..i] && flags[i := true][i + 1..] == flags[i + 1..];
    var all, rest := Unflagged(recs, flags), Unflagged(recs[i + 1..], flags[i + 1..]);
    assert all == all[..k] + [recs[i]] + rest;
    assert rest == all[k + 1..];
  }

  ghost function NotKept(verdicts: seq<Verdict>): (flags: seq<bool>)
    ensures |flags| == |verdicts|
  {
    seq(|verdicts|, i requires 0 <= i < |verdicts| => !verdicts[i].Kept?)
  }

  ghost function KeptOf(delivered: seq<Record>, verdicts: seq<Verdict>): seq<Record>
    requires |delivered| == |verdicts|
  {
    Unflagged(delivered, NotKept(verdicts))
  }

  ghost function Denials(verdicts: seq<Verdict>): nat {
    if verdicts == [] then 0
    else
      var n := |verdicts| - 1;
      Denials(verdicts[..n]) + if verdicts[n].Denied? then 1 else 0
  }

  // Every record of `met` is kept when they run alone, and `r` fails on the state they leave
  ghost predicate FailsOn(p: Processors, n: nat, met: seq<Record>, r: Record) {
    && Atomic(p, EmptyViews(n), met).kept == met
    && !p(r, ApplyAll(EmptyViews(n), Atomic(p, EmptyViews(n), met).messages)).ok
  }

  /** No record is lost without a reason: each that was not kept failed on some earlier deliveries, or was denied. */
  ghost predicate Explained(p: Processors, n: nat, delivered: seq<Record>, verdicts: seq<Verdict>, kept: seq<Record>) {
    && |delivered| == |verdicts|
    && KeptOf(delivered, verdicts) == kept
    && forall i :: 0 <= i < |verdicts| && verdicts[i].FailedOn? ==>
         Subsequence(verdicts[i].met, delivered[..i]) && FailsOn(p, n, verdicts[i].met, delivered[i])
  }

  lemma {:induction false} DenialsUpdate(verdicts: seq<Verdict>, i: nat, v: Verdict)
    requires i < |verdicts| && !verdicts[i].Denied?
    ensures Denials(verdicts[i := v]) == Denials(verdicts) + if v.Denied? then 1 else 0
    decreases |verdicts|
  {
    var n := |verdicts| - 1;
    if i < n {
      DenialsUpdate(verdicts[..n], i, v);
      assert verdicts[i := v][..n] == verdicts[..n][i := v];
    } else {
      assert verdicts[i := v][..n] == verdicts[..n];
    }
  }

  lemma DeliveryKept(p: Processors, n: nat, delivered: seq<Record>, verdicts: seq<Verdict>, kept: seq<Record>,
                     r: Record)
    requires Explained(p, n, delivered, verdicts, kept)
    ensures Explained(p, n, delivered + [r], verdicts + [Kept], kept + [r])
    ensures Denials(verdicts + [Kept]) == Denials(verdicts)
  {
    hide FailsOn, Subsequence;
    var ds, vs := delivered + [r], verdicts + [Kept];
    assert ds[..|ds| - 1] == delivered && vs[..|vs| - 1] == verdicts;
    assert NotKept(vs)[..|vs| - 1] == NotKept(verdicts);
    forall i | 0 <= i < |verdicts| ensures ds[..i] == delivered[..i] {
    }
  }

  // --- The records a replay drops ---

  // One record of the batch goes, for one of the two reasons
  datatype Drop = Drop(at: nat, denied: bool)

  function Without(batch: seq<Record>, at: nat): seq<Record>
    requires at < |batch|
  {
    batch[..at] + batch[at + 1..]
  }

  ghost function DropDenials(drops: seq<Drop>): nat {
    if drops == [] then 0 else (if drops[0].denied then 1 else 0) + DropDenials(drops[1..])
  }

  lemma NothingDropped()
    ensures DropDenials([]) == 0
  {
  }

  // Dropping one record after another leaves `kept`, and each drop has its reason
  ghost predicate Thins(p: Processors, bases: Views, batch: seq<Record>, drops: seq<Drop>, kept: seq<Record>)
    decreases |drops|
  {
    if drops == [] then kept == batch
    else
      var at := drops[0].at;
      && at < |batch|
      && (!drops[0].denied ==>
            && Atomic(p, bases, batch[..at]).kept == batch[..at]
            && !p(batch[at], ApplyAll(bases, Atomic(p, bases, batch[..at]).messages)).ok)
      && Thins(p, bases, Without(batch, at), drops[1..], kept)
  }

  lemma {:induction false} ThinsToSubsequence(p: Processors, bases: Views, batch: seq<Record>, drops: seq<Drop>,
                                              kept: seq<Record>)
    requires Thins(p, bases, batch, drops, kept)
    ensures Subsequence(kept, batch)
    decreases |drops|
  {
    hide Subsequence;
    if drops == [] {
      SubsequenceRefl(batch);
    } else {
      var at := drops[0].at;
      ThinsToSubsequence(p, bases, Without(batch, at), drops[1..], kept);
      SubsequenceSkipsOne(batch[..at], batch[at], batch[at + 1..]);
      assert batch == batch[..at] + [batch[at]] + batch[at + 1..];
      SubsequenceTrans(kept, Without(batch, at), batch);
    }
  }

  // Without a denial the drops do not show in the atomic run
  lemma {:induction false} DropsLeaveNoTrace(p: Processors, bases: Views, batch: seq<Record>, drops: seq<Drop>,
                                             kept: seq<Record>)
    requires Thins(p, bases, batch, drops, kept) && DropDenials(drops) == 0
    ensures Atomic(p, bases, kept) == Atomic(p, bases, batch)
    decreases |drops|
  {
    if drops != [] {
      var at := drops[0].at;
      DropsLeaveNoTrace(p, bases, Without(batch, at), drops[1..], kept);
      FailedRecordLeavesNoTrace(p, bases, batch[..at], batch[at], batch[at + 1..]);
      assert batch == batch[..at] + [batch[at]] + batch[at + 1..];
    }
  }

  // A batch that is kept whole loses nothing without a denial
  lemma KeptBatchStays(p: Processors, bases: Views, batch: seq<Record>, drops: seq<Drop>, kept: seq<Record>)
    requires Thins(p, bases, batch, drops, kept) && DropDenials(drops) == 0
    requires Atomic(p, bases, batch).kept == batch && Atomic(p, bases, kept).kept == kept
    ensures kept == batch
  {
    DropsLeaveNoTrace(p, bases, batch, drops, kept);
  }

  // The reason for a drop, against the whole history
  lemma DropFailsOn(p: Processors, n: nat, history: seq<Record>, messages: seq<Effect>, batch: seq<Record>, at: nat)
    requires Atomic(p, EmptyViews(n), history) == Run(history, messages) && at < |batch|
    requires var bases := ApplyAll(EmptyViews(n), messages);
             && Atomic(p, bases, batch[..at]).kept == batch[..at]
             && !p(batch[at], ApplyAll(bases, Atomic(p, bases, batch[..at]).messages)).ok
    ensures FailsOn(p, n, history + batch[..at], batch[at])
  {
    hide Atomic, ApplyAll;
    var bases := ApplyAll(EmptyViews(n), messages);
    AtomicConcat(p, EmptyViews(n), history, batch[..at]);
    ApplyAllConcat(EmptyViews(n), messages, Atomic(p, bases, batch[..at]).messages);
  }

  /** After a replay every delivery still has its verdict, with as many more denials as there were denied drops. */
  lemma {:induction false} DropsExplained(p: Processors, n: nat, delivered: seq<Record>, verdicts: seq<Verdict>,
                                          history: seq<Record>, messages: seq<Effect>, batch: seq<Record>,
                                          drops: seq<Drop>, kept: seq<Record>) returns (verdicts': seq<Verdict>)
    requires Atomic(p, EmptyViews(n), history) == Run(history, messages)
    requires Explained(p, n, delivered, verdicts, history + batch)
    requires Thins(p, ApplyAll(EmptyViews(n), messages), batch, drops, kept)
    ensures Explained(p, n, delivered, verdicts', history + kept)
    ensures Denials(verdicts') == Denials(verdicts) + DropDenials(drops)
    decreases |drops|
  {
    hide Atomic, ApplyAll, Unflagged, Denials, FailsOn, Subsequence;
    if drops == [] {
      verdicts' := verdicts;
    } else {
      var at := drops[0].at;
      var k := |history| + at;
      var i := UnflaggedAt(delivered, NotKept(verdicts), k);
      var met := history + batch[..at];
      assert met == (history + batch)[..k];
      var v := if drops[0].denied then Denied else FailedOn(met);
      FlaggedOut(delivered, NotKept(verdicts), i, k);
      DenialsUpdate(verdicts, i, v);
      assert NotKept(verdicts[i := v]) == NotKept(verdicts)[i := true];
      assert (history + batch)[..k] + (history + batch)[k + 1..] == history + Without(batch, at);
      if !drops[0].denied {
        DropFailsOn(p, n, history, messages, batch, at);
        UnflaggedIsSubsequence(delivered[..i], NotKept(verdicts)[..i]);
      }
      verdicts' := DropsExplained(p, n, delivered, verdicts[i := v], history, messages,
                                  Without(batch, at), drops[1..], kept);
    }
  }

  // --- The engine's steps on the books ---

  // Running a batch after a history is running it on the state the history left
  lemma {:induction false} AtomicConcat(p: Processors, vs: Views, h: seq<Record>, rs: seq<Record>)
    ensures var first := Atomic(p, vs, h);
            var batch := Atomic(p, ApplyAll(vs, first.messages), rs);
            Atomic(p, vs, h + rs) == Run(first.kept + batch.kept, first.messages + batch.messages)
    decreases |rs|
  {
    var first := Atomic(p, vs, h);
    var mid := ApplyAll(vs, first.messages);
    if rs == [] {
      assert h + rs == h;
      assert first.kept + [] == first.kept && first.messages + [] == first.messages;
    } else {
      var front, r := rs[..|rs| - 1], rs[|rs| - 1];
      AtomicConcat(p, vs, h, front);
      var batch := Atomic(p, mid, front);
      AtomicSnoc(p, vs, h + front, r);
      assert h + rs == h + front + [r];
      ApplyAllConcat(vs, first.messages, batch.messages);
      var a := p(r, ApplyAll(mid, batch.messages));
      assert first.kept + batch.kept + [r] == first.kept + (batch.kept + [r]);
      assert first.messages + batch.messages + a.effects == first.messages + (batch.messages + a.effects);
    }
  }

  // After a replay, or after one more record: the open transaction is what the batch makes of the bases
  lemma Rebatch(p: Processors, n: nat, b: Books, batch: seq<Record>, cluster: Cluster, views: Views)
    requires Faithful(p, n, b)
    requires Atomic(p, b.bases, batch) == Run(batch, cluster.pending)
    requires cluster.messages == b.cluster.messages && cluster.offsets == b.cluster.offsets
    requires cluster.pendingOffsets == map[]
    requires views == ApplyAll(b.bases, cluster.pending)
    ensures Faithful(p, n, Books(b.history, batch, cluster, b.bases, views))
  {
    AtomicConcat(p, EmptyViews(n), b.history, batch);
  }

  lemma BatchOnBases(p: Processors, n: nat, b: Books)
    requires Faithful(p, n, b)
    ensures Atomic(p, b.bases, b.buffered) == Run(b.buffered, b.cluster.pending)
  {
    AtomicConcat(p, EmptyViews(n), b.history, b.buffered);
    var batch := Atomic(p, b.bases, b.buffered);
    assert (b.history + batch.kept)[|b.history|..] == batch.kept;
    assert (b.history + b.buffered)[|b.history|..] == b.buffered;
    assert (b.cluster.messages + batch.messages)[|b.cluster.messages|..] == batch.messages;
    assert (b.cluster.messages + b.cluster.pending)[|b.cluster.messages|..] == b.cluster.pending;
  }

  /** A replay that keeps the same records reproduces everything: the books are determined by their records. */
  lemma FaithfulBooksAreDetermined(p: Processors, n: nat, a: Books, b: Books)
    requires Faithful(p, n, a) && Faithful(p, n, b)
    requires a.history == b.history && a.buffered == b.buffered
    ensures a == b
  {
    var done := a.cluster.messages;
    assert a.cluster.pending == (done + a.cluster.pending)[|done|..];
    assert b.cluster.pending == (done + b.cluster.pending)[|done|..];
  }

  // A committed transaction moves the buffered records into the history
  lemma CommitKeepsFaith(p: Processors, n: nat, b: Books, cluster: Cluster)
    requires Faithful(p, n, b)
    requires cluster.messages == b.cluster.messages + b.cluster.pending
    requires cluster.offsets == b.cluster.offsets + OffsetsAfter(map[], b.buffered)
    requires cluster.Idle()
    ensures Faithful(p, n, Books(b.history + b.buffered, [], cluster, b.views, b.views))
  {
    OffsetsMerge(b.history, b.buffered);
    ApplyAllConcat(EmptyViews(n), b.cluster.messages, b.cluster.pending);
    assert b.history + b.buffered + [] == b.history + b.buffered;
    assert cluster.messages + cluster.pending == cluster.messages;
  }

  // At the loop head everything is durable
  lemma FaithfulIsDurable(p: Processors, n: nat, b: Books, cluster: Cluster)
    requires Faithful(p, n, b)
    requires cluster.messages == b.cluster.messages && cluster.offsets == b.cluster.offsets
    ensures Durable(p, n, b.history, cluster, b.bases)
  {
    forall i | 0 <= i < n ensures Mentions(i, cluster.messages, b.bases[i]) {
      ReplayIsMentioned(i, cluster.messages);
    }
  }

  /** Any crash inside a commit after the broker applied it, wherever the store flushes got to. */
  lemma CrashInCommitIsDurable(p: Processors, n: nat, b: Books, cluster: Cluster, bases: Views)
    requires Faithful(p, n, b)
    requires cluster.messages == b.cluster.messages + b.cluster.pending
    requires cluster.offsets == b.cluster.offsets + OffsetsAfter(map[], b.buffered)
    requires |bases| == n && forall i :: 0 <= i < n ==> bases[i] == b.bases[i] || bases[i] == b.views[i]
    ensures Durable(p, n, b.history + b.buffered, cluster, bases)
    ensures forall i :: 0 <= i < n ==> BehindBy(bases[i], i, cluster.messages)
  {
    OffsetsMerge(b.history, b.buffered);
    ApplyAllConcat(EmptyViews(n), b.cluster.messages, b.cluster.pending);
    var before, after := |b.cluster.messages|, |cluster.messages|;
    assert cluster.messages[..before] == b.cluster.messages;
    assert cluster.messages[..after] == cluster.messages;
    forall i | 0 <= i < n ensures BehindBy(bases[i], i, cluster.messages) {
      assert bases[i] == Replay(map[], i, cluster.messages[..before])
          || bases[i] == Replay(map[], i, cluster.messages[..after]);
    }
    forall i | 0 <= i < n ensures Mentions(i, cluster.messages, bases[i]) {
      PrefixIsMentioned(i, cluster.messages, bases[i]);
    }
  }

  lemma PrefixIsMentioned(store: nat, messages: seq<Effect>, base: Table)
    requires BehindBy(base, store, messages)
    ensures Mentions(store, messages, base)
  {
    hide Replay;
    var applied: nat :| applied <= |messages| && base == Replay(map[], store, messages[..applied]);
    ReplayIsMentioned(store, messages[..applied]);
    LongerLogMentions(store, messages[..applied], messages[applied..], base);
    assert messages == messages[..applied] + messages[applied..];
  }

  // What the changelog topics may hold of the committed messages, store by store
  ghost predicate Held(messages: seq<Effect>, changelogs: seq<seq<Effect>>) {
    forall i :: 0 <= i < |changelogs| ==> Cleaned(i, messages, changelogs[i])
  }

  // They still mention every key of the bases
  ghost predicate Remember(changelogs: seq<seq<Effect>>, bases: Views) {
    |changelogs| == |bases| && forall i :: 0 <= i < |bases| ==> Mentions(i, changelogs[i], bases[i])
  }

  // So they do while they have all their tombstones
  lemma CompactedRemember(messages: seq<Effect>, changelogs: seq<seq<Effect>>, bases: Views)
    requires |changelogs| == |bases|
    requires forall i :: 0 <= i < |bases| ==> Compacted(i, messages, changelogs[i]) && Mentions(i, messages, bases[i])
    ensures Remember(changelogs, bases)
  {
    forall i | 0 <= i < |bases| ensures Mentions(i, changelogs[i], bases[i]) {
      assert forall key | key in bases[i] :: LastWrite(i, changelogs[i], key) == LastWrite(i, messages, key);
    }
  }

  ghost predicate Restores(changelogs: seq<seq<Effect>>, bases: Views, restored: Views) {
    && |changelogs| == |bases| == |restored|
    && forall i :: 0 <= i < |bases| ==> restored[i] == Replay(bases[i], i, changelogs[i])
  }

  // A point in each changelog
  ghost predicate Within(reached: seq<nat>, changelogs: seq<seq<Effect>>) {
    |reached| == |changelogs| && forall i :: 0 <= i < |reached| ==> reached[i] <= |changelogs[i]|
  }

  function UpTo(changelogs: seq<seq<Effect>>, reached: seq<nat>): seq<seq<Effect>>
    requires Within(reached, changelogs)
  {
    seq(|reached|, i requires 0 <= i < |reached| => changelogs[i][..reached[i]])
  }

  /**
   Restoring every store from what its changelog topic holds gives back the committed state, if and only
   if no tombstone is gone of a key that a base still has.
   */
  lemma RestoreIsFaithful(p: Processors, n: nat, history: seq<Record>, cluster: Cluster, bases: Views,
                          changelogs: seq<seq<Effect>>, restored: Views)
    requires Durable(p, n, history, cluster, bases)
    requires Held(cluster.messages, changelogs) && Restores(changelogs, bases, restored)
    requires cluster.Idle()
    ensures Faithful(p, n, Books(history, [], cluster, restored, restored)) <==> Remember(changelogs, bases)
    ensures restored == ApplyAll(EmptyViews(n), cluster.messages) <==> Remember(changelogs, bases)
  {
    hide Mentions, Cleaned, Atomic;
    var want := ApplyAll(EmptyViews(n), cluster.messages);
    forall i | 0 <= i < n ensures restored[i] == want[i] <==> Mentions(i, changelogs[i], bases[i]) {
      EarliestReplayIsExactIff(i, cluster.messages, bases[i], changelogs[i]);
    }
    assert history + [] == history && cluster.messages + [] == cluster.messages;
  }

  /** A crash inside a restore, after any number of records of each store, can be restored from again. */
  lemma InterruptedRestoreIsDurable(p: Processors, n: nat, history: seq<Record>, cluster: Cluster, bases: Views,
                                    changelogs: seq<seq<Effect>>, reached: seq<nat>, left: Views)
    requires Durable(p, n, history, cluster, bases)
    requires Held(cluster.messages, changelogs) && Within(reached, changelogs)
    requires Restores(UpTo(changelogs, reached), bases, left)
    ensures Durable(p, n, history, cluster, left)
  {
    hide Mentions, Cleaned;
    forall i | 0 <= i < n ensures Mentions(i, cluster.messages, left[i]) {
      InterruptedRestoreIsMentioned(i, cluster.messages, bases[i], changelogs[i], reached[i]);
    }
  }

  // --- Which input records a history accounts for ---

  type Inputs = map<TopicPartition, seq<Record>>

  // A partition log: its own records, offsets rising (not necessarily without gaps)
  ghost predicate PartitionLogs(inputs: Inputs) {
    forall tp | tp in inputs ::
      && (forall i :: 0 <= i < |inputs[tp]| ==> inputs[tp][i].tp == tp)
      && (forall i, j :: 0 <= i < j < |inputs[tp]| ==> inputs[tp][i].offset < inputs[tp][j].offset)
  }

  ghost predicate Among(r: Record, rs: seq<Record>) {
    r in rs
  }

  /** Each partition is delivered in the order of its log: all that lies before a record came before it. */
  ghost predicate InLogOrder(inputs: Inputs, delivered: seq<Record>) {
    forall j :: 0 <= j < |delivered| ==>
      && delivered[j].tp in inputs && delivered[j] in inputs[delivered[j].tp]
      && ComesAfter(inputs[delivered[j].tp], delivered[..j], delivered[j].offset)
  }

  ghost predicate ComesAfter(log: seq<Record>, before: seq<Record>, offset: nat) {
    forall k :: 0 <= k < |log| && log[k].offset < offset ==> log[k] in before
  }

  lemma NextInLogOrder(inputs: Inputs, delivered: seq<Record>, r: Record)
    requires InLogOrder(inputs, delivered)
    requires r.tp in inputs && r in inputs[r.tp] && ComesAfter(inputs[r.tp], delivered, r.offset)
    ensures InLogOrder(inputs, delivered + [r])
  {
    hide ComesAfter;
    var ds := delivered + [r];
    forall j | 0 <= j < |ds|
      ensures ds[j].tp in inputs && ds[j] in inputs[ds[j].tp] && ComesAfter(inputs[ds[j].tp], ds[..j], ds[j].offset)
    {
      assert ds[..j] == if j < |delivered| then delivered[..j] else delivered;
    }
  }

  // The consumer stands at `position`: what it passed was delivered, what was kept it passed
  ghost predicate Accounted(inputs: Inputs, position: map<TopicPartition, nat>, delivered: seq<Record>,
                            kept: seq<Record>) {
    && PartitionLogs(inputs)
    && position.Keys == inputs.Keys
    && (forall tp | tp in inputs :: position[tp] <= |inputs[tp]|)
    && InLogOrder(inputs, delivered)
    && InOrder(kept)
    && KeptBelow(inputs, position, kept)
    && Passed(inputs, position, delivered)
  }

  ghost predicate KeptBelow(inputs: Inputs, position: map<TopicPartition, nat>, kept: seq<Record>)
    requires position.Keys == inputs.Keys && forall tp | tp in inputs :: position[tp] <= |inputs[tp]|
  {
    forall r | r in kept :: r.tp in inputs && Among(r, inputs[r.tp][..position[r.tp]])
  }

  ghost predicate Passed(inputs: Inputs, position: map<TopicPartition, nat>, delivered: seq<Record>)
    requires position.Keys == inputs.Keys && forall tp | tp in inputs :: position[tp] <= |inputs[tp]|
  {
    forall tp, i :: tp in inputs && 0 <= i < position[tp] ==> inputs[tp][i] in delivered
  }

  function CommittedOffset(offsets: map<TopicPartition, nat>, tp: TopicPartition): nat {
    if tp in offsets then offsets[tp] else 0
  }

  /**
   Offset safety. The committed records come once each and in order per partition, all of them
   below the committed offset; no input record below it was passed over undelivered, and each
   partition was delivered in the order of its log.
   */
  ghost predicate Settled(inputs: Inputs, delivered: seq<Record>, history: seq<Record>,
                          offsets: map<TopicPartition, nat>) {
    && PartitionLogs(inputs)
    && InLogOrder(inputs, delivered)
    && InOrder(history)
    && (forall r | r in history :: r.tp in inputs && r in inputs[r.tp] && r.offset < CommittedOffset(offsets, r.tp))
    && (forall tp, i :: tp in inputs && 0 <= i < |inputs[tp]| && inputs[tp][i].offset < CommittedOffset(offsets, tp)
                        ==> inputs[tp][i] in delivered)
  }

  lemma CommitSettles(inputs: Inputs, position: map<TopicPartition, nat>, delivered: seq<Record>, kept: seq<Record>)
    requires Accounted(inputs, position, delivered, kept)
    ensures Settled(inputs, delivered, kept, OffsetsAfter(map[], kept))
  {
    hide InLogOrder;
    var offsets := OffsetsAfter(map[], kept);
    forall r | r in kept
      ensures r.tp in inputs && r in inputs[r.tp] && r.offset < CommittedOffset(offsets, r.tp)
    {
      var i :| 0 <= i < |kept| && kept[i] == r;
      RecordsLieBelowOffset(kept, r.tp, i);
      assert Among(r, inputs[r.tp][..position[r.tp]]);
    }
    forall tp, i | tp in inputs && 0 <= i < |inputs[tp]| && inputs[tp][i].offset < CommittedOffset(offsets, tp)
      ensures inputs[tp][i] in delivered
    {
      OffsetsAreLastPlusOne(kept, tp);
      var last :| last in kept && last.tp == tp && last.offset + 1 == offsets[tp];
      assert Among(last, inputs[tp][..position[tp]]);
      var k :| 0 <= k < position[tp] && inputs[tp][k] == last;
      assert i <= k;
    }
  }

  ghost predicate Subsequence<T(!new)>(a: seq<T>, b: seq<T>) {
    if b == [] then a == []
    else
      || Subsequence(a, b[..|b| - 1])
      || (a != [] && a[|a| - 1] == b[|b| - 1] && Subsequence(a[..|a| - 1], b[..|b| - 1]))
  }

  lemma {:induction false} SubsequenceRefl<T(!new)>(a: seq<T>)
    ensures Subsequence(a, a)
  {
    if a != [] {
      SubsequenceRefl(a[..|a| - 1]);
    }
  }

  // The subsequence as a rising choice of positions
  lemma {:induction false} SubsequencePositions<T(!new)>(a: seq<T>, b: seq<T>) returns (at: seq<nat>)
    requires Subsequence(a, b)
    ensures |at| == |a|
    ensures forall i :: 0 <= i < |a| ==> at[i] < |b| && b[at[i]] == a[i]
    ensures forall i, j :: 0 <= i < j < |a| ==> at[i] < at[j]
    decreases |b|
  {
    if b == [] {
      at := [];
    } else if Subsequence(a, b[..|b| - 1]) {
      at := SubsequencePositions(a, b[..|b| - 1]);
    } else {
      at := SubsequencePositions(a[..|a| - 1], b[..|b| - 1]);
      at := at + [|b| - 1];
    }
  }

  lemma {:induction false} SubsequenceTrans<T(!new)>(a: seq<T>, b: seq<T>, c: seq<T>)
    requires Subsequence(a, b) && Subsequence(b, c)
    ensures Subsequence(a, c)
    decreases |c|
  {
    if c != [] {
      var c' := c[..|c| - 1];
      if Subsequence(b, c') {
        SubsequenceTrans(a, b, c');
      } else if Subsequence(a, b[..|b| - 1]) {
        SubsequenceTrans(a, b[..|b| - 1], c');
      } else {
        SubsequenceTrans(a[..|a| - 1], b[..|b| - 1], c');
      }
    }
  }

  lemma {:induction false} SubsequenceSkipsOne<T(!new)>(a: seq<T>, x: T, c: seq<T>)
    ensures Subsequence(a + c, a + [x] + c)
    decreases |c|
  {
    if c == [] {
      assert a + c == a && a + [x] + c == a + [x];
      assert (a + [x])[..|a + [x]| - 1] == a;
      SubsequenceRefl(a);
    } else {
      SubsequenceSkipsOne(a, x, c[..|c| - 1]);
      assert (a + c)[..|a + c| - 1] == a + c[..|c| - 1];
      assert (a + [x] + c)[..|a + [x] + c| - 1] == a + [x] + c[..|c| - 1];
    }
  }

  // A record past everything its partition delivered goes last
  lemma AppendKeepsOrder(rs: seq<Record>, r: Record)
    requires InOrder(rs) && forall i :: 0 <= i < |rs| && rs[i].tp == r.tp ==> rs[i].offset < r.offset
    ensures InOrder(rs + [r])
  {
  }

  lemma PositionBounds(log: seq<Record>, at: nat, x: Record, tp: TopicPartition, inputs: Inputs)
    requires PartitionLogs(inputs) && tp in inputs && log == inputs[tp]
    requires at < |log| && Among(x, log[..at])
    ensures x.offset < log[at].offset
    ensures Among(x, log[..at + 1])
  {
    var k :| 0 <= k < at && log[k] == x;
    assert log[..at + 1][k] == x;
  }

  lemma NextComesAfter(inputs: Inputs, position: map<TopicPartition, nat>, delivered: seq<Record>, tp: TopicPartition)
    requires PartitionLogs(inputs) && position.Keys == inputs.Keys
    requires forall t | t in inputs :: position[t] <= |inputs[t]|
    requires Passed(inputs, position, delivered) && tp in inputs && position[tp] < |inputs[tp]|
    ensures ComesAfter(inputs[tp], delivered, inputs[tp][position[tp]].offset)
    ensures inputs[tp][position[tp]].tp == tp
  {
    var log, at := inputs[tp], position[tp];
    forall k | 0 <= k < |log| && log[k].offset < log[at].offset ensures log[k] in delivered {
      assert k < at;
    }
  }

  /** The record at the consumer's position arrives; of the batch with it, a subsequence is kept. */
  lemma ArrivalIsAccounted(inputs: Inputs, position: map<TopicPartition, nat>, delivered: seq<Record>,
                           history: seq<Record>, buffered: seq<Record>, tp: TopicPartition, kept: seq<Record>)
    requires Accounted(inputs, position, delivered, history + buffered)
    requires tp in inputs && position[tp] < |inputs[tp]|
    requires Subsequence(kept, buffered + [inputs[tp][position[tp]]])
    ensures Accounted(inputs, position[tp := position[tp] + 1], delivered + [inputs[tp][position[tp]]], history + kept)
  {
    hide InOrder, PartitionLogs, Subsequence, InLogOrder, ComesAfter, KeptBelow, Passed;
    var r := inputs[tp][position[tp]];
    PassedIsDelivered(inputs, position, delivered, tp);
    NextComesAfter(inputs, position, delivered, tp);
    NextInLogOrder(inputs, delivered, r);
    NewRecordInOrder(inputs, position, delivered, history + buffered, tp);
    assert history + buffered + [r] == history + (buffered + [r]);
    KeptPart(history, buffered + [r], kept);
    FewerKeptBelow(inputs, position[tp := position[tp] + 1], history + buffered + [r], history + kept);
  }

  lemma FewerKeptBelow(inputs: Inputs, position: map<TopicPartition, nat>, kept: seq<Record>, fewer: seq<Record>)
    requires position.Keys == inputs.Keys && forall tp | tp in inputs :: position[tp] <= |inputs[tp]|
    requires KeptBelow(inputs, position, kept) && forall r :: r in fewer ==> r in kept
    ensures KeptBelow(inputs, position, fewer)
  {
    hide Among;
  }

  lemma PassedIsDelivered(inputs: Inputs, position: map<TopicPartition, nat>, delivered: seq<Record>,
                          tp: TopicPartition)
    requires position.Keys == inputs.Keys && forall t | t in inputs :: position[t] <= |inputs[t]|
    requires Passed(inputs, position, delivered) && tp in inputs && position[tp] < |inputs[tp]|
    ensures Passed(inputs, position[tp := position[tp] + 1], delivered + [inputs[tp][position[tp]]])
  {
    var r, position' := inputs[tp][position[tp]], position[tp := position[tp] + 1];
    forall t, i | t in inputs && 0 <= i < position'[t] ensures inputs[t][i] in delivered + [r] {
      assert i < position[t] || inputs[t][i] == r;
    }
  }

  lemma NewRecordInOrder(inputs: Inputs, position: map<TopicPartition, nat>, delivered: seq<Record>,
                         kept: seq<Record>, tp: TopicPartition)
    requires Accounted(inputs, position, delivered, kept)
    requires tp in inputs && position[tp] < |inputs[tp]|
    ensures var r := inputs[tp][position[tp]];
            var position' := position[tp := position[tp] + 1];
            InOrder(kept + [r]) && KeptBelow(inputs, position', kept + [r])
  {
    hide InOrder, InLogOrder;
    var r := inputs[tp][position[tp]];
    var position' := position[tp := position[tp] + 1];
    forall x | x in kept ensures Among(x, inputs[x.tp][..position'[x.tp]]) && (x.tp == tp ==> x.offset < r.offset) {
      assert Among(x, inputs[x.tp][..position[x.tp]]);
      if x.tp == tp {
        PositionBounds(inputs[tp], position[tp], x, tp, inputs);
      }
    }
    assert inputs[tp][..position'[tp]][position[tp]] == r;
    AppendKeepsOrder(kept, r);
  }

  // Replaying without an arrival
  lemma ReplayIsAccounted(inputs: Inputs, position: map<TopicPartition, nat>, delivered: seq<Record>,
                          history: seq<Record>, buffered: seq<Record>, kept: seq<Record>)
    requires Accounted(inputs, position, delivered, history + buffered)
    requires Subsequence(kept, buffered)
    ensures Accounted(inputs, position, delivered, history + kept)
  {
    hide InOrder, PartitionLogs, Subsequence, InLogOrder, KeptBelow, Passed;
    KeptPart(history, buffered, kept);
    FewerKeptBelow(inputs, position, history + buffered, history + kept);
  }

  // Order and membership carry over to the part that is kept
  lemma KeptPart(history: seq<Record>, batch: seq<Record>, kept: seq<Record>)
    requires Subsequence(kept, batch)
    ensures forall r :: r in history + kept ==> r in history + batch
    ensures InOrder(history + batch) ==> InOrder(history + kept)
  {
    var at := SubsequencePositions(kept, batch);
    var h := |history|;
    forall r | r in history + kept ensures r in history + batch {
      if r !in history {
        var i :| 0 <= i < |kept| && kept[i] == r;
        assert (history + batch)[h + at[i]] == r;
      }
    }
    if InOrder(history + batch) {
      forall i, j | 0 <= i < j < |history + kept| && (history + kept)[i].tp == (history + kept)[j].tp
        ensures (history + kept)[i].offset < (history + kept)[j].offset
      {
        var i' := if i < h then i else h + at[i - h];
        var j' := if j < h then j else h + at[j - h];
        assert (history + kept)[i] == (history + batch)[i'];
        assert (history + kept)[j] == (history + batch)[j'];
        assert i' < j';
      }
    }
  }

  // Where a consumer resumes: the first record at or past the committed offset
  function Seek(log: seq<Record>, offset: nat): (at: nat)
    ensures at <= |log|
    ensures forall i :: 0 <= i < at ==> log[i].offset < offset
    ensures at < |log| ==> log[at].offset >= offset
  {
    if log == [] || log[0].offset >= offset then 0 else 1 + Seek(log[1..], offset)
  }

  /** After a restart the consumer resumes from the committed offsets, with nothing lost or repeated. */
  lemma ResumeIsAccounted(inputs: Inputs, delivered: seq<Record>, history: seq<Record>,
                          offsets: map<TopicPartition, nat>, position: map<TopicPartition, nat>)
    requires Settled(inputs, delivered, history, offsets)
    requires position == map tp | tp in inputs :: Seek(inputs[tp], CommittedOffset(offsets, tp))
    ensures Accounted(inputs, position, delivered, history)
  {
    hide InLogOrder, InOrder;
    forall r | r in history ensures r.tp in inputs && Among(r, inputs[r.tp][..position[r.tp]]) {
      SeekPasses(inputs[r.tp], CommittedOffset(offsets, r.tp), r);
    }
  }

  lemma SeekPasses(log: seq<Record>, offset: nat, r: Record)
    requires r in log && r.offset < offset
    requires forall i, j :: 0 <= i < j < |log| ==> log[i].offset < log[j].offset
    ensures Among(r, log[..Seek(log, offset)])
  {
    var k :| 0 <= k < |log| && log[k] == r;
    var at := Seek(log, offset);
    assert at < |log| ==> log[at].offset >= offset;
    assert log[..at][k] == r;
  }

  // --- The whole state of a run, and its steps ---

  datatype Track = Track(
    books: Books,
    position: map<TopicPartition, nat>,
    delivered: seq<Record>,          // what was handed to the processors, but for batches that a crash undid
    verdicts: seq<Verdict>,          // what became of each of these
    deliveredAtCommit: seq<Record>,  // both as they were when the last transaction committed
    verdictsAtCommit: seq<Verdict>)
  {
    ghost function Kept(): seq<Record> {
      books.history + books.buffered
    }
  }

  // Every delivery has its verdict, and without a denial the atomic run tells the same
  ghost predicate Told(p: Processors, n: nat, delivered: seq<Record>, verdicts: seq<Verdict>, kept: seq<Record>,
                       messages: seq<Effect>)
  {
    && Explained(p, n, delivered, verdicts, kept)
    && (Denials(verdicts) == 0 ==> Mirrors(p, n, delivered, kept, messages))
  }

  /** Between two events. */
  ghost predicate Sound(p: Processors, n: nat, inputs: Inputs, t: Track) {
    && Faithful(p, n, t.books)
    && Accounted(inputs, t.position, t.delivered, t.Kept())
    && Told(p, n, t.delivered, t.verdicts, t.Kept(), t.books.cluster.messages + t.books.cluster.pending)
    && Safe(p, n, inputs, t.books.history, t.books.cluster, t.books.bases, t.deliveredAtCommit, t.verdictsAtCommit)
  }

  /** At any moment a crash may strike. */
  ghost predicate Safe(p: Processors, n: nat, inputs: Inputs, history: seq<Record>, cluster: Cluster, bases: Views,
                       delivered: seq<Record>, verdicts: seq<Verdict>)
  {
    && Durable(p, n, history, cluster, bases)
    && Settled(inputs, delivered, history, cluster.offsets)
    && Told(p, n, delivered, verdicts, history, cluster.messages)
  }

  // What a replay of `batch` leaves behind, starting from the bases: the batch without the drops
  ghost predicate Rebatched(p: Processors, bases: Views, batch: seq<Record>,
                            messages: seq<Effect>, offsets: map<TopicPartition, nat>, drops: seq<Drop>,
                            kept: seq<Record>, cluster: Cluster, views: Views)
  {
    && Thins(p, bases, batch, drops, kept)
    && Atomic(p, bases, kept) == Run(kept, cluster.pending)
    && cluster.messages == messages && cluster.offsets == offsets && cluster.pendingOffsets == map[]
    && views == ApplyAll(bases, cluster.pending)
  }

  lemma SoundIsSafe(p: Processors, n: nat, inputs: Inputs, t: Track)
    requires Sound(p, n, inputs, t)
    ensures Safe(p, n, inputs, t.books.history, t.books.cluster, t.books.bases, t.deliveredAtCommit, t.verdictsAtCommit)
    ensures t.books.cluster.pendingOffsets == map[]
  {
  }

  // What a crash needs does not depend on the open transaction
  lemma SafeIgnoresPending(p: Processors, n: nat, inputs: Inputs, history: seq<Record>, before: Cluster,
                           cluster: Cluster,
                           bases: Views, delivered: seq<Record>, verdicts: seq<Verdict>)
    requires Safe(p, n, inputs, history, before, bases, delivered, verdicts)
    requires cluster.messages == before.messages && cluster.offsets == before.offsets
    ensures Safe(p, n, inputs, history, cluster, bases, delivered, verdicts)
  {
  }

  // The batch with a record more, or as it was; in either case kept by the deliveries so far
  lemma BatchReplayed(p: Processors, n: nat, b: Books, delivered: seq<Record>, verdicts: seq<Verdict>,
                      batch: seq<Record>, drops: seq<Drop>, kept: seq<Record>, cluster: Cluster, views: Views)
    returns (verdicts': seq<Verdict>)
    requires Faithful(p, n, b)
    requires Explained(p, n, delivered, verdicts, b.history + batch)
    requires Rebatched(p, b.bases, batch, b.cluster.messages, b.cluster.offsets, drops, kept, cluster, views)
    requires Denials(verdicts) == 0 ==>
               Mirrors(p, n, delivered, b.history + Atomic(p, b.bases, batch).kept,
                       b.cluster.messages + Atomic(p, b.bases, batch).messages)
    ensures Faithful(p, n, Books(b.history, kept, cluster, b.bases, views))
    ensures Told(p, n, delivered, verdicts', b.history + kept, cluster.messages + cluster.pending)
    ensures Denials(verdicts') == Denials(verdicts) + DropDenials(drops)
  {
    Rebatch(p, n, b, kept, cluster, views);
    hide Atomic, ApplyAll, Explained;
    verdicts' := DropsExplained(p, n, delivered, verdicts, b.history, b.cluster.messages, batch, drops, kept);
    if Denials(verdicts') == 0 {
      DropsLeaveNoTrace(p, b.bases, batch, drops, kept);
    }
  }

  /** A replay keeps the run sound; without a denial it keeps the very same batch. */
  lemma SoundAfterReplay(p: Processors, n: nat, inputs: Inputs, t: Track, drops: seq<Drop>,
                         kept: seq<Record>, cluster: Cluster, views: Views) returns (t': Track)
    requires Sound(p, n, inputs, t)
    requires Rebatched(p, t.books.bases, t.books.buffered, t.books.cluster.messages, t.books.cluster.offsets, drops,
                       kept, cluster, views)
    ensures t' == t.(books := Books(t.books.history, kept, cluster, t.books.bases, views), verdicts := t'.verdicts)
    ensures Denials(t'.verdicts) == Denials(t.verdicts) + DropDenials(drops)
    ensures Sound(p, n, inputs, t')
    ensures DropDenials(drops) == 0 ==> kept == t.books.buffered
  {
    hide Accounted, Safe, Atomic, ApplyAll, Explained, Thins;
    var b := t.books;
    BatchOnBases(p, n, b);
    var verdicts' := BatchReplayed(p, n, b, t.delivered, t.verdicts, b.buffered, drops, kept, cluster, views);
    t' := t.(books := Books(b.history, kept, cluster, b.bases, views), verdicts := verdicts');
    ThinsToSubsequence(p, b.bases, b.buffered, drops, kept);
    ReplayIsAccounted(inputs, t.position, t.delivered, b.history, b.buffered, kept);
    SafeIgnoresPending(p, n, inputs, b.history, b.cluster, cluster, b.bases, t.deliveredAtCommit, t.verdictsAtCommit);
    if DropDenials(drops) == 0 {
      KeptBatchStays(p, b.bases, b.buffered, drops, kept);
    }
  }

  // `r` is what the consumer delivers next from `tp`, and `t'` is `t` with it delivered
  ghost predicate Arrives(inputs: Inputs, t: Track, tp: TopicPartition, r: Record, t': Track) {
    && tp in inputs && tp in t.position && t.position[tp] < |inputs[tp]| && r == inputs[tp][t.position[tp]]
    && t' == t.(position := t.position[tp := t.position[tp] + 1], delivered := t.delivered + [r],
                verdicts := t.verdicts + [Kept])
  }

  /** An arrival, however it went: the batch with the new record, replayed or simply extended. */
  lemma SoundAfterArrival(p: Processors, n: nat, inputs: Inputs, t: Track, tp: TopicPartition, r: Record, t': Track,
                          drops: seq<Drop>, kept: seq<Record>, cluster: Cluster, views: Views) returns (after: Track)
    requires Sound(p, n, inputs, t) && Arrives(inputs, t, tp, r, t')
    requires Rebatched(p, t.books.bases, t.books.buffered + [r],
                       t.books.cluster.messages, t.books.cluster.offsets, drops, kept, cluster, views)
    ensures after == t'.(books := Books(t.books.history, kept, cluster, t.books.bases, views),
                         verdicts := after.verdicts)
    ensures Denials(after.verdicts) == Denials(t.verdicts) + DropDenials(drops)
    ensures Sound(p, n, inputs, after)
  {
    hide Accounted, Safe, Mirrors, Faithful, Atomic, Subsequence, ApplyAll, Thins, Explained;
    var b := t.books;
    ThinsToSubsequence(p, b.bases, b.buffered + [r], drops, kept);
    ArrivalIsAccounted(inputs, t.position, t.delivered, b.history, b.buffered, tp, kept);
    DeliveryKept(p, n, t.delivered, t.verdicts, t.Kept(), r);
    assert t.Kept() + [r] == b.history + (b.buffered + [r]);
    if Denials(t.verdicts) == 0 {
      MirrorsArrival(p, n, t, r);
    }
    var verdicts' := BatchReplayed(p, n, b, t'.delivered, t'.verdicts, b.buffered + [r], drops, kept, cluster, views);
    after := t'.(books := Books(b.history, kept, cluster, b.bases, views), verdicts := verdicts');
    SafeIgnoresPending(p, n, inputs, b.history, b.cluster, cluster, b.bases, t.deliveredAtCommit, t.verdictsAtCommit);
  }

  // The delivered records with one more still explain what an atomic run of the batch with it keeps
  lemma MirrorsArrival(p: Processors, n: nat, t: Track, r: Record)
    requires Faithful(p, n, t.books)
    requires Mirrors(p, n, t.delivered, t.Kept(), t.books.cluster.messages + t.books.cluster.pending)
    ensures var batch := Atomic(p, t.books.bases, t.books.buffered + [r]);
            Mirrors(p, n, t.delivered + [r], t.books.history + batch.kept, t.books.cluster.messages + batch.messages)
  {
    hide Atomic, ApplyAll;
    var b := t.books;
    AtomicConcat(p, EmptyViews(n), b.history, b.buffered + [r]);
    AtomicCongruence(p, EmptyViews(n), t.delivered, t.Kept(), [r]);
    assert b.history + b.buffered + [r] == b.history + (b.buffered + [r]);
  }

  // A record that succeeded extends the batch as a replay of it would
  lemma ExtendedBatch(p: Processors, n: nat, b: Books, r: Record, cluster: Cluster, views: Views)
    requires Faithful(p, n, b)
    requires p(r, b.views).ok
    requires cluster == b.cluster.(pending := b.cluster.pending + p(r, b.views).effects)
    requires views == ApplyAll(b.views, p(r, b.views).effects)
    ensures Rebatched(p, b.bases, b.buffered + [r], b.cluster.messages, b.cluster.offsets, [],
                      b.buffered + [r], cluster, views)
  {
    BatchOnBases(p, n, b);
    AtomicSnoc(p, b.bases, b.buffered, r);
    ApplyAllConcat(b.bases, b.cluster.pending, p(r, b.views).effects);
  }

  // A replay that left out a record that failed is also a replay of the batch with that record
  lemma FailedRecordInBatch(p: Processors, bases: Views, batch: seq<Record>, r: Record, denied: bool,
                            messages: seq<Effect>, offsets: map<TopicPartition, nat>, drops: seq<Drop>,
                            kept: seq<Record>, cluster: Cluster, views: Views)
    requires Rebatched(p, bases, batch, messages, offsets, drops, kept, cluster, views)
    requires Atomic(p, bases, batch).kept == batch
    requires denied || !p(r, ApplyAll(bases, Atomic(p, bases, batch).messages)).ok
    ensures Rebatched(p, bases, batch + [r], messages, offsets, [Drop(|batch|, denied)] + drops, kept, cluster, views)
    ensures DropDenials([Drop(|batch|, denied)] + drops) == DropDenials(drops) + if denied then 1 else 0
  {
    hide Atomic, ApplyAll;
    var all := [Drop(|batch|, denied)] + drops;
    assert all[1..] == drops;
    assert (batch + [r])[..|batch|] == batch && Without(batch + [r], |batch|) == batch;
  }

  lemma SoundAfterCommit(p: Processors, n: nat, inputs: Inputs, t: Track, cluster: Cluster) returns (t': Track)
    requires Sound(p, n, inputs, t)
    requires cluster.messages == t.books.cluster.messages + t.books.cluster.pending
    requires cluster.offsets == t.books.cluster.offsets + OffsetsAfter(map[], t.books.buffered)
    requires cluster.Idle()
    ensures t' == Track(Books(t.Kept(), [], cluster, t.books.views, t.books.views),
                        t.position, t.delivered, t.verdicts, t.delivered, t.verdicts)
    ensures Sound(p, n, inputs, t')
  {
    hide Atomic, ApplyAll, Settled, Accounted, Explained;
    var b := t.books;
    t' := Track(Books(t.Kept(), [], cluster, b.views, b.views), t.position, t.delivered, t.verdicts,
                t.delivered, t.verdicts);
    CommitKeepsFaith(p, n, b, cluster);
    FaithfulIsDurable(p, n, t'.books, cluster);
    CommitSettles(inputs, t.position, t.delivered, t.Kept());
    assert t'.Kept() == t.Kept();
    assert cluster.messages + cluster.pending == cluster.messages;
  }

  /** A crash inside a commit the broker applied. */
  lemma SafeAfterCommit(p: Processors, n: nat, inputs: Inputs, t: Track, cluster: Cluster, bases: Views)
    requires Sound(p, n, inputs, t)
    requires cluster.messages == t.books.cluster.messages + t.books.cluster.pending
    requires cluster.offsets == t.books.cluster.offsets + OffsetsAfter(map[], t.books.buffered)
    requires |bases| == n && forall i :: 0 <= i < n ==> bases[i] == t.books.bases[i] || bases[i] == t.books.views[i]
    ensures Safe(p, n, inputs, t.Kept(), cluster, bases, t.delivered, t.verdicts)
  {
    hide Atomic, ApplyAll, Settled, Accounted, Explained;
    CrashInCommitIsDurable(p, n, t.books, cluster, bases);
    OffsetsMerge(t.books.history, t.books.buffered);
    CommitSettles(inputs, t.position, t.delivered, t.Kept());
  }

  /** A restart: stores restored from their changelogs, consumer at the committed offsets, nothing buffered. */
  lemma SoundAfterRestart(p: Processors, n: nat, inputs: Inputs, history: seq<Record>, cluster: Cluster, bases: Views,
                          delivered: seq<Record>, verdicts: seq<Verdict>, changelogs: seq<seq<Effect>>, restored: Views)
    returns (t: Track)
    requires Safe(p, n, inputs, history, cluster, bases, delivered, verdicts)
    requires Held(cluster.messages, changelogs) && Remember(changelogs, bases) && Restores(changelogs, bases, restored)
    requires cluster.Idle()
    ensures t == Track(Books(history, [], cluster, restored, restored),
                       map tp | tp in inputs :: Seek(inputs[tp], CommittedOffset(cluster.offsets, tp)),
                       delivered, verdicts, delivered, verdicts)
    ensures Sound(p, n, inputs, t)
  {
    hide Atomic, ApplyAll, Settled, Accounted, Faithful, Durable, Seek, Explained, Held, Remember, Restores;
    t := Track(Books(history, [], cluster, restored, restored),
               map tp | tp in inputs :: Seek(inputs[tp], CommittedOffset(cluster.offsets, tp)),
               delivered, verdicts, delivered, verdicts);
    RestoreIsFaithful(p, n, history, cluster, bases, changelogs, restored);
    FaithfulIsDurable(p, n, t.books, cluster);
    ResumeIsAccounted(inputs, delivered, history, cluster.offsets, t.position);
    assert t.Kept() == history && cluster.messages + cluster.pending == cluster.messages;
  }

  /** A restore that is cut off leaves what the next restart needs. */
  lemma SafeAfterInterruptedRestore(p: Processors, n: nat, inputs: Inputs, history: seq<Record>, cluster: Cluster,
                                    bases: Views, delivered: seq<Record>, verdicts: seq<Verdict>,
                                    changelogs: seq<seq<Effect>>, reached: seq<nat>, left: Views)
    requires Safe(p, n, inputs, history, cluster, bases, delivered, verdicts)
    requires Held(cluster.messages, changelogs) && Within(reached, changelogs)
    requires Restores(UpTo(changelogs, reached), bases, left)
    ensures Safe(p, n, inputs, history, cluster, left, delivered, verdicts)
  {
    hide Held, Within, UpTo, Restores, Settled, Told;
    InterruptedRestoreIsDurable(p, n, history, cluster, bases, changelogs, reached, left);
  }
}
