/**
 A table-table join run by a task: what the two table converters and the two joiners of kTableStream.join do
 with a record, as the processors of a stream task with the two tables for its stores. Run atomically it is
 the join of TableJoin; so the joined table stands whatever befalls the task.
 */
module JoinTask {
  import opened Basics
  import opened Changelog
  import opened AtomicRun
  import opened StateStore
  import opened Ledger
  import opened StreamTask
  import TableJoin
  import Runs

  type Mapper = TableJoin.Mapper<Bytes, Bytes>
  type TableUpdate = TableJoin.Update<Bytes, Bytes>

  // The join as the DSL draws it: records of `leftTopic` are the left table's, all others the right one's
  datatype Join = Join(typ: TableJoin.JoinerType, mapper: Mapper, leftTopic: string, out: string)
  {
    // A joined value that is encoded empty is a tombstone downstream
    function Encoded(): Mapper {
      (l, r) => if mapper(l, r) == TableJoin.Value(Some([])) then TableJoin.Value(None) else mapper(l, r)
    }

    function UpdateOf(r: Record): TableUpdate {
      TableJoin.Update(if r.tp.topic == leftTopic then TableJoin.LeftSide else TableJoin.RightSide, r.key,
                       if r.value == [] then None else Some(r.value))
    }

    function Updates(rs: seq<Record>): (us: seq<TableUpdate>)
      ensures |us| == |rs|
    {
      seq(|rs|, i requires 0 <= i < |rs| => UpdateOf(rs[i]))
    }

    // The two tables once the converter has taken the record in
    function LeftAfter(vs: Views, u: TableUpdate): Table {
      TableJoin.After(if |vs| == 2 then vs[0] else map[], u, TableJoin.LeftSide)
    }

    function RightAfter(vs: Views, u: TableUpdate): Table {
      TableJoin.After(if |vs| == 2 then vs[1] else map[], u, TableJoin.RightSide)
    }

    // The converter sets its store; then the joiner of that side ignores, forwards, or fails
    function Process(r: Record, vs: Views): Attempt {
      var u := UpdateOf(r);
      var write := Put(if u.side == TableJoin.LeftSide then 0 else 1, r.key, r.value);
      if !TableJoin.IsMapped(typ, u.side, LeftAfter(vs, u), RightAfter(vs, u), u.key) then Attempt([write], true)
      else
        match TableJoin.Joining(Encoded(), LeftAfter(vs, u), RightAfter(vs, u), u.key)
        case Value(joined) => Attempt([write, Emit(out, r.key, if joined.Some? then joined.value else [])], true)
        case MapperFailed => Attempt([write], false)
    }

    function Processors(): Processors {
      (r, vs) => Process(r, vs)
    }

    ghost predicate Survives(before: seq<TableUpdate>, u: TableUpdate) {
      TableJoin.AcceptedAfter(typ, Encoded(), before, u)
    }
  }

  // What a table downstream of a topic is told
  function PutOut(topic: string, messages: seq<Effect>): seq<(Bytes, Option<Bytes>)> {
    if messages == [] then []
    else
      var e := messages[|messages| - 1];
      var before := PutOut(topic, messages[..|messages| - 1]);
      if e.Emit? && e.topic == topic then before + [(e.key, if e.value == [] then None else Some(e.value))] else before
  }

  // Nothing goes to any other topic
  ghost predicate OnlyTo(topic: string, messages: seq<Effect>) {
    forall e | e in messages :: e.Emit? ==> e.topic == topic
  }

  lemma {:induction false} PutOutConcat(topic: string, a: seq<Effect>, b: seq<Effect>)
    ensures PutOut(topic, a + b) == PutOut(topic, a) + PutOut(topic, b)
    decreases |b|
  {
    if b == [] {
      assert a + b == a;
    } else {
      assert (a + b)[..|a + b| - 1] == a + b[..|b| - 1];
      PutOutConcat(topic, a, b[..|b| - 1]);
    }
  }

  // The last value among the records of one topic, or of all others
  ghost function LastOf(rs: seq<Record>, topic: string, ofTopic: bool, key: Bytes): Option<Bytes> {
    if rs == [] then None
    else
      var r := rs[|rs| - 1];
      if (r.tp.topic == topic) == ofTopic && r.key == key then if r.value == [] then None else Some(r.value)
      else LastOf(rs[..|rs| - 1], topic, ofTopic, key)
  }

  // The left table is that of the left topic, the right one that of the others
  lemma {:induction false} TablesAreOfTheirTopics(j: Join, rs: seq<Record>, key: Bytes)
    ensures TableJoin.Get(TableJoin.TableOf(j.Updates(rs), TableJoin.LeftSide), key)
            == LastOf(rs, j.leftTopic, true, key)
    ensures TableJoin.Get(TableJoin.TableOf(j.Updates(rs), TableJoin.RightSide), key)
            == LastOf(rs, j.leftTopic, false, key)
  {
    if rs != [] {
      var front := rs[..|rs| - 1];
      TablesAreOfTheirTopics(j, front, key);
      assert j.Updates(rs)[..|rs| - 1] == j.Updates(front);
    }
  }

  lemma UsesBothStores(j: Join)
    ensures UsesStores(j.Processors(), 2)
  {
  }

  // Stores and messages are the tables that the updates make, and the output of their join
  ghost predicate Stands(j: Join, us: seq<TableUpdate>, messages: seq<Effect>) {
    && ApplyAll(EmptyViews(2), messages)
       == [TableJoin.TableOf(us, TableJoin.LeftSide), TableJoin.TableOf(us, TableJoin.RightSide)]
    && (TableJoin.AllFit(j.typ, j.Encoded(), us) ==>
          TableJoin.Joins(j.typ, j.Encoded(), TableJoin.TableOf(us, TableJoin.LeftSide),
                          TableJoin.TableOf(us, TableJoin.RightSide), PutOut(j.out, messages)))
    && OnlyTo(j.out, messages)
  }

  lemma NothingStands(j: Join)
    ensures Stands(j, [], [])
  {
    assert EmptyViews(2) == [map[], map[]];
    assert ApplyAll(EmptyViews(2), []) == EmptyViews(2);
  }

  /**
   One record on the tables that stand. The converter writes it to its table, whatever becomes of it then; it
   succeeds exactly if its update is accepted, and emits what that outputs.
   */
  lemma OneRecordJoins(j: Join, us: seq<TableUpdate>, vs: Views, r: Record)
    requires vs == [TableJoin.TableOf(us, TableJoin.LeftSide), TableJoin.TableOf(us, TableJoin.RightSide)]
    ensures var u, attempt := j.UpdateOf(r), j.Process(r, vs);
            && (attempt.ok <==> j.Survives(us, u))
            && ApplyAll(vs, attempt.effects) == [j.LeftAfter(vs, u), j.RightAfter(vs, u)]
            && (attempt.ok ==>
                  && OnlyTo(j.out, attempt.effects)
                  && PutOut(j.out, attempt.effects)
                     == TableJoin.Output(j.typ, j.Encoded(), j.LeftAfter(vs, u), j.RightAfter(vs, u), u))
  {
    hide TableJoin.TableOf;
    var u, attempt := j.UpdateOf(r), j.Process(r, vs);
    var write := attempt.effects[0];
    ApplyOne(vs, write);
    assert PutOut(j.out, [write]) == [] by {
      assert [write][..0] == [];
    }
    if attempt.ok {
      if |attempt.effects| == 1 {
        assert attempt.effects == [write];
      } else {
        var emit := attempt.effects[1];
        assert attempt.effects == [write] + [emit] && [write, emit][..1] == [write];
        ApplyAllSnoc(vs, [write], emit);
      }
    }
  }

  lemma StandsStep(j: Join, us: seq<TableUpdate>, messages: seq<Effect>, r: Record)
    requires Stands(j, us, messages)
    ensures var attempt := j.Process(r, ApplyAll(EmptyViews(2), messages));
            && (attempt.ok <==> j.Survives(us, j.UpdateOf(r)))
            && (attempt.ok ==> Stands(j, us + [j.UpdateOf(r)], messages + attempt.effects))
  {
    hide Join.Process, Join.UpdateOf, Join.Encoded, TableJoin.TableOf, TableJoin.Output, TableJoin.AllFit,
      TableJoin.Joins, PutOut, ApplyAll, TableJoin.After;
    var u, vs := j.UpdateOf(r), ApplyAll(EmptyViews(2), messages);
    var attempt := j.Process(r, vs);
    OneRecordJoins(j, us, vs, r);
    if attempt.ok {
      ApplyAllConcat(EmptyViews(2), messages, attempt.effects);
      TableJoin.TableOfSnoc(us, u, TableJoin.LeftSide);
      TableJoin.TableOfSnoc(us, u, TableJoin.RightSide);
      PutOutConcat(j.out, messages, attempt.effects);
      TableJoin.AllFitSnoc(j.typ, j.Encoded(), us, u);
      if TableJoin.AllFit(j.typ, j.Encoded(), us) {
        TableJoin.UpdateMovesOneRow(j.typ, j.Encoded(), vs[0], vs[1], PutOut(j.out, messages), u);
      }
    }
  }

  lemma StoresStand(j: Join, us: seq<TableUpdate>, messages: seq<Effect>)
    requires Stands(j, us, messages)
    ensures ApplyAll(EmptyViews(2), messages)
            == [TableJoin.TableOf(us, TableJoin.LeftSide), TableJoin.TableOf(us, TableJoin.RightSide)]
  {
  }

  /**
   Run atomically, the join's processors keep exactly the updates that TableJoin does not refuse, and put out
   its join.
   */
  lemma {:induction false} AtomicIsJoin(j: Join, rs: seq<Record>)
    ensures var run := Atomic(j.Processors(), EmptyViews(2), rs);
            && j.Updates(run.kept) == TableJoin.Survivors(j.typ, j.Encoded(), j.Updates(rs))
            && Stands(j, j.Updates(run.kept), run.messages)
            && var stores := ApplyAll(EmptyViews(2), run.messages);
               |stores| == 2
               && forall key :: TableJoin.Get(stores[0], key) == LastOf(run.kept, j.leftTopic, true, key)
                                && TableJoin.Get(stores[1], key) == LastOf(run.kept, j.leftTopic, false, key)
  {
    hide Join.Process, Join.UpdateOf, Join.Encoded, Stands, TableJoin.AcceptedAfter;
    if rs == [] {
      NothingStands(j);
      assert j.Updates([]) == [];
    } else {
      var front, r := rs[..|rs| - 1], rs[|rs| - 1];
      AtomicIsJoin(j, front);
      var before := Atomic(j.Processors(), EmptyViews(2), front);
      assert j.Updates(rs)[..|rs| - 1] == j.Updates(front);
      assert j.Updates(before.kept + [r]) == j.Updates(before.kept) + [j.UpdateOf(r)];
      StandsStep(j, j.Updates(before.kept), before.messages, r);
    }
    var run := Atomic(j.Processors(), EmptyViews(2), rs);
    assert Stands(j, j.Updates(run.kept), run.messages);
    StoresStand(j, j.Updates(run.kept), run.messages);
    forall key
      ensures TableJoin.Get(ApplyAll(EmptyViews(2), run.messages)[0], key) == LastOf(run.kept, j.leftTopic, true, key)
      ensures TableJoin.Get(ApplyAll(EmptyViews(2), run.messages)[1], key) == LastOf(run.kept, j.leftTopic, false, key)
    {
      TablesAreOfTheirTopics(j, run.kept, key);
    }
  }

  // Without tombstones every update fits
  lemma ValuesFit(j: Join, rs: seq<Record>)
    requires forall r | r in rs :: r.value != []
    ensures TableJoin.AllFit(j.typ, j.Encoded(), j.Updates(rs))
  {
    hide TableJoin.FitsAfter, Join.Encoded;
    var us := j.Updates(rs);
    forall n | 0 <= n < |us| ensures TableJoin.FitsAfter(j.typ, j.Encoded(), us[..n], us[n]) {
      assert rs[n] in rs;
      TableJoin.ValueFits(j.typ, j.Encoded(), us[..n], us[n]);
    }
  }

  /**
   The joined table over every history of the task: the stores are the tables that the committed updates make,
   and what was put out for each key last is their row, if the committed updates fit, as values always do.
   Without a denial the committed updates are the delivered ones that the join does not refuse.
   */
  method JoinLivesThrough(j: Join, t: Task, lives: seq<Runs.Life>)
    requires t.processors == j.Processors() && |t.stores| == 2
    requires Distinct(t.stores) && PartitionLogs(t.inputs)
    requires t.tainted || t.Recoverable()
    requires forall l | l in lives :: Runs.Cleans(l.compaction)
    modifies t, t.stores
    ensures !old(t.tainted) && (forall l | l in lives :: Runs.Clean(t, l) && Runs.Compacts(l.compaction)) ==> !t.tainted
    ensures !t.tainted ==>
              var us := j.Updates(t.buffer.history);
              && ViewsOf(t.stores)
                 == [TableJoin.TableOf(us, TableJoin.LeftSide), TableJoin.TableOf(us, TableJoin.RightSide)]
              && (TableJoin.AllFit(j.typ, j.Encoded(), us) ==>
                    forall k :: TableJoin.Latest(PutOut(j.out, t.producer.cluster.messages), k)
                                == TableJoin.Row(j.typ, j.Encoded(), ViewsOf(t.stores)[0], ViewsOf(t.stores)[1], k))
              && OnlyTo(j.out, t.producer.cluster.messages)
              && ((forall r | r in t.buffer.history :: r.value != []) ==> TableJoin.AllFit(j.typ, j.Encoded(), us))
              && (t.Denied() == 0 ==> us == TableJoin.Survivors(j.typ, j.Encoded(), j.Updates(t.delivered)))
  {
    hide Join.Process, Join.UpdateOf, Join.Encoded, Join.Updates, Runs.Clean, Runs.Cleans, Runs.Compacts, Distinct,
      PartitionLogs, Atomic, ApplyAll, UsesStores, Settled, Explained, PutOut, Task.Denied, Task.Recoverable,
      TableJoin.TableOf, TableJoin.AllFit, TableJoin.Survivors;
    UsesBothStores(j);
    Runs.LiveThrough(t, lives);
    if !t.tainted {
      AtomicIsJoin(j, t.buffer.history);
      AtomicIsJoin(j, t.delivered);
      if forall r | r in t.buffer.history :: r.value != [] {
        ValuesFit(j, t.buffer.history);
      }
    }
  }
}
