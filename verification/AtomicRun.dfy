/**
 The specification the task engine is measured against: take the delivered records one by
 one, run each atomically against the state its predecessors left, and skip those that fail.
 */
module AtomicRun {
  import opened Basics
  import opened Changelog

  datatype Record = Record(tp: TopicPartition, offset: nat, key: Bytes, value: Bytes)

  // What the user's processors do with a record: the writes they make, in order, and whether
  // they finish. A failing attempt has made the writes listed before it failed.
  datatype Attempt = Attempt(effects: seq<Effect>, ok: bool)

  // Deterministic in the record and in the stores as they are when it starts
  type Processors = (Record, Views) -> Attempt

  datatype Run = Run(kept: seq<Record>, messages: seq<Effect>)

  // Processors name only stores of their sub-topology
  ghost predicate UsesStores(p: Processors, n: nat) {
    forall r, vs, i :: 0 <= i < |p(r, vs).effects| && !p(r, vs).effects[i].Emit?
                       ==> p(r, vs).effects[i].store < n
  }

  ghost function Atomic(p: Processors, vs: Views, rs: seq<Record>): Run {
    if rs == [] then Run([], [])
    else
      var before := Atomic(p, vs, rs[..|rs| - 1]);
      var r := rs[|rs| - 1];
      var attempt := p(r, ApplyAll(vs, before.messages));
      if attempt.ok then Run(before.kept + [r], before.messages + attempt.effects) else before
  }

  // The offsets a batch of processed records stands for: per partition, one past the last
  function OffsetsAfter(start: map<TopicPartition, nat>, rs: seq<Record>): map<TopicPartition, nat> {
    if rs == [] then start
    else
      var r := rs[|rs| - 1];
      OffsetsAfter(start, rs[..|rs| - 1])[r.tp := r.offset + 1]
  }

  /** Within every partition, records come once and in offset order. */
  ghost predicate InOrder(rs: seq<Record>) {
    forall i, j :: 0 <= i < j < |rs| && rs[i].tp == rs[j].tp ==> rs[i].offset < rs[j].offset
  }

  lemma AtomicSnoc(p: Processors, vs: Views, rs: seq<Record>, r: Record)
    ensures Atomic(p, vs, rs + [r]) ==
            var before := Atomic(p, vs, rs);
            var attempt := p(r, ApplyAll(vs, before.messages));
            if attempt.ok then Run(before.kept + [r], before.messages + attempt.effects) else before
  {
    assert (rs + [r])[..|rs + [r]| - 1] == rs;
  }

  // Two histories with the same outcome stay alike whatever follows
  lemma {:induction false} AtomicCongruence(p: Processors, vs: Views, a: seq<Record>, b: seq<Record>, c: seq<Record>)
    requires Atomic(p, vs, a) == Atomic(p, vs, b)
    ensures Atomic(p, vs, a + c) == Atomic(p, vs, b + c)
    decreases |c|
  {
    if c == [] {
      assert a + c == a && b + c == b;
    } else {
      var front := c[..|c| - 1];
      AtomicCongruence(p, vs, a, b, front);
      assert (a + c)[..|a + c| - 1] == a + front && (a + c)[|a + c| - 1] == c[|c| - 1];
      assert (b + c)[..|b + c| - 1] == b + front && (b + c)[|b + c| - 1] == c[|c| - 1];
    }
  }

  /** A record that fails where it stands leaves no trace: removing it changes nothing. */
  lemma FailedRecordLeavesNoTrace(p: Processors, vs: Views, a: seq<Record>, r: Record, c: seq<Record>)
    requires !p(r, ApplyAll(vs, Atomic(p, vs, a).messages)).ok
    ensures Atomic(p, vs, a + [r] + c) == Atomic(p, vs, a + c)
  {
    AtomicSnoc(p, vs, a, r);
    AtomicCongruence(p, vs, a + [r], a, c);
  }

  lemma {:induction false} NoMoreKept(p: Processors, vs: Views, rs: seq<Record>)
    ensures |Atomic(p, vs, rs).kept| <= |rs|
  {
    if rs != [] {
      NoMoreKept(p, vs, rs[..|rs| - 1]);
    }
  }

  // In a batch that is kept whole every record succeeds where it stands
  lemma KeptWhole(p: Processors, vs: Views, a: seq<Record>, r: Record, c: seq<Record>)
    requires Atomic(p, vs, a + [r] + c).kept == a + [r] + c
    ensures p(r, ApplyAll(vs, Atomic(p, vs, a).messages)).ok
  {
    if !p(r, ApplyAll(vs, Atomic(p, vs, a).messages)).ok {
      FailedRecordLeavesNoTrace(p, vs, a, r, c);
      NoMoreKept(p, vs, a + c);
    }
  }

  /** Running again only the records that were kept gives the same messages: replay reproduces. */
  lemma {:induction false} RerunOfKept(p: Processors, vs: Views, rs: seq<Record>)
    ensures Atomic(p, vs, Atomic(p, vs, rs).kept) == Atomic(p, vs, rs)
  {
    if rs != [] {
      var front := rs[..|rs| - 1];
      RerunOfKept(p, vs, front);
      if Atomic(p, vs, rs) != Atomic(p, vs, front) {
        AtomicSnoc(p, vs, Atomic(p, vs, front).kept, rs[|rs| - 1]);
      }
    }
  }

  lemma OffsetsSnoc(start: map<TopicPartition, nat>, rs: seq<Record>, r: Record)
    ensures OffsetsAfter(start, rs + [r]) == OffsetsAfter(start, rs)[r.tp := r.offset + 1]
  {
    assert (rs + [r])[..|rs + [r]| - 1] == rs;
  }

  lemma MergeUpdate(a: map<TopicPartition, nat>, b: map<TopicPartition, nat>, tp: TopicPartition, offset: nat)
    ensures (a + b)[tp := offset] == a + b[tp := offset]
  {
  }

  // A transaction's offsets, merged into the committed ones, are those of the longer history
  lemma {:induction false} OffsetsMerge(a: seq<Record>, b: seq<Record>)
    ensures OffsetsAfter(map[], a + b) == OffsetsAfter(map[], a) + OffsetsAfter(map[], b)
    decreases |b|
  {
    if b == [] {
      assert a + b == a;
    } else {
      var front, last := b[..|b| - 1], b[|b| - 1];
      OffsetsMerge(a, front);
      OffsetsSnoc(map[], a + front, last);
      OffsetsSnoc(map[], front, last);
      assert b == front + [last];
      assert a + b == a + front + [last];
      MergeUpdate(OffsetsAfter(map[], a), OffsetsAfter(map[], front), last.tp, last.offset + 1);
    }
  }

  /** The offset a batch leaves for a partition is one past its last record there. */
  lemma {:induction false} OffsetsAreLastPlusOne(rs: seq<Record>, tp: TopicPartition)
    ensures tp !in OffsetsAfter(map[], rs) ==> forall r | r in rs :: r.tp != tp
    ensures tp in OffsetsAfter(map[], rs) ==>
              exists r :: r in rs && r.tp == tp && r.offset + 1 == OffsetsAfter(map[], rs)[tp]
  {
    if rs != [] {
      var front, last := rs[..|rs| - 1], rs[|rs| - 1];
      assert rs == front + [last];
      OffsetsAreLastPlusOne(front, tp);
      if last.tp == tp {
        assert last in rs;
      } else if tp in OffsetsAfter(map[], front) {
        var r :| r in front && r.tp == tp && r.offset + 1 == OffsetsAfter(map[], front)[tp];
        assert r in rs;
      }
    }
  }

  lemma {:induction false} RecordsLieBelowOffset(rs: seq<Record>, tp: TopicPartition, i: nat)
    requires InOrder(rs) && i < |rs| && rs[i].tp == tp
    ensures tp in OffsetsAfter(map[], rs) && rs[i].offset < OffsetsAfter(map[], rs)[tp]
  {
    var n := |rs| - 1;
    if i < n {
      if rs[n].tp == tp {
        assert rs[i].offset < rs[n].offset;
      } else {
        var front := rs[..n];
        assert InOrder(front) by {
          forall j, k | 0 <= j < k < |front| && front[j].tp == front[k].tp ensures front[j].offset < front[k].offset {
            assert rs[j].offset < rs[k].offset;
          }
        }
        RecordsLieBelowOffset(front, tp, i);
      }
    }
  }
}
