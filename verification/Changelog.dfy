/**
 The contents of a state store, the writes a record makes while it is processed, and
 what replaying a changelog means.

 A changelog record with an empty value is a tombstone, and a stored empty value reads
 as absent, so both are the same update of the table a reader sees.
 */
module Changelog {
  import opened Basics

  type Table = map<Bytes, Bytes>

  // One table per state store of the sub-topology
  type Views = seq<Table>

  /** One write made while a record runs: a sink message, or a store write with its changelog record. */
  datatype Effect =
    | Emit(topic: string, key: Bytes, value: Bytes)
    | Put(store: nat, key: Bytes, value: Bytes)
    | Remove(store: nat, key: Bytes)

  function Update(t: Table, key: Bytes, value: Bytes): Table {
    if value == [] then t - {key} else t[key := value]
  }

  // Reading an empty value answers "absent"
  function Readable(t: Table): Table {
    map k | k in t && t[k] != [] :: t[k]
  }

  lemma ReadableUpdate(t: Table, key: Bytes, value: Bytes)
    ensures Readable(Update(t, key, value)) == Update(Readable(t), key, value)
  {
  }

  // Writing an empty value is, to a reader, a delete
  lemma ReadableSet(t: Table, key: Bytes, value: Bytes)
    ensures Readable(t[key := value]) == Update(Readable(t), key, value)
  {
  }

  predicate WritesTo(e: Effect, store: nat) {
    !e.Emit? && e.store == store
  }

  // The value the changelog record carries; a delete logs an empty one
  function LoggedValue(e: Effect): Bytes
    requires !e.Emit?
  {
    if e.Put? then e.value else []
  }

  /** Applies to one table every write that goes to it, oldest first. */
  function Replay(t: Table, store: nat, log: seq<Effect>): Table {
    if log == [] then t
    else
      var before := Replay(t, store, log[..|log| - 1]);
      var e := log[|log| - 1];
      if WritesTo(e, store) then Update(before, e.key, LoggedValue(e)) else before
  }

  function ApplyAll(vs: Views, log: seq<Effect>): Views {
    seq(|vs|, i requires 0 <= i < |vs| => Replay(vs[i], i, log))
  }

  // The stores before the first record: empty
  function EmptyViews(n: nat): Views {
    seq(n, _ => map[])
  }

  lemma {:induction false} ReplayConcat(t: Table, store: nat, a: seq<Effect>, b: seq<Effect>)
    ensures Replay(t, store, a + b) == Replay(Replay(t, store, a), store, b)
    decreases |b|
  {
    if b == [] {
      assert a + b == a;
    } else {
      var front := b[..|b| - 1];
      assert (a + b)[..|a + b| - 1] == a + front;
      ReplayConcat(t, store, a, front);
    }
  }

  lemma ApplyAllConcat(vs: Views, a: seq<Effect>, b: seq<Effect>)
    ensures ApplyAll(vs, a + b) == ApplyAll(ApplyAll(vs, a), b)
  {
    forall i | 0 <= i < |vs| ensures ApplyAll(vs, a + b)[i] == ApplyAll(ApplyAll(vs, a), b)[i] {
      ReplayConcat(vs[i], i, a, b);
    }
  }

  lemma ApplyAllSnoc(vs: Views, log: seq<Effect>, e: Effect)
    ensures ApplyAll(vs, log + [e]) ==
            var before := ApplyAll(vs, log);
            if !e.Emit? && e.store < |vs|
            then before[e.store := Update(before[e.store], e.key, LoggedValue(e))]
            else before
  {
    assert (log + [e])[..|log + [e]| - 1] == log;
  }

  lemma ApplyOne(vs: Views, e: Effect)
    ensures ApplyAll(vs, [e]) ==
            if !e.Emit? && e.store < |vs| then vs[e.store := Update(vs[e.store], e.key, LoggedValue(e))] else vs
  {
    ApplyAllSnoc(vs, [], e);
    assert [] + [e] == [e];
    assert ApplyAll(vs, []) == vs;
  }

  // --- What a reader sees for one key after a replay ---

  // The last value logged for the key, if the log writes it at all
  ghost function LastWrite(store: nat, log: seq<Effect>, key: Bytes): Option<Bytes> {
    if log == [] then None
    else
      var e := log[|log| - 1];
      if WritesTo(e, store) && e.key == key then Some(LoggedValue(e))
      else LastWrite(store, log[..|log| - 1], key)
  }

  // What a table holds for a key: nothing, or a value
  ghost function Lookup(t: Table, key: Bytes): Option<Bytes> {
    if key in t then Some(t[key]) else None
  }

  /** Only the last write to a key matters: last-writer-wins, tombstones included. */
  lemma {:induction false} ReplayIsLastWrite(t: Table, store: nat, log: seq<Effect>, key: Bytes)
    ensures Lookup(Replay(t, store, log), key) ==
            match LastWrite(store, log, key)
            case None => Lookup(t, key)
            case Some(v) => if v == [] then None else Some(v)
  {
    if log != [] {
      ReplayIsLastWrite(t, store, log[..|log| - 1], key);
    }
  }

  lemma {:induction false} LastWriteConcat(store: nat, a: seq<Effect>, b: seq<Effect>, key: Bytes)
    ensures LastWrite(store, a + b, key) ==
            if LastWrite(store, b, key).Some? then LastWrite(store, b, key) else LastWrite(store, a, key)
    decreases |b|
  {
    if b == [] {
      assert a + b == a;
    } else {
      assert (a + b)[..|a + b| - 1] == a + b[..|b| - 1];
      LastWriteConcat(store, a, b[..|b| - 1], key);
    }
  }

  lemma SameLookups(a: Table, b: Table)
    requires forall k :: Lookup(a, k) == Lookup(b, k)
    ensures a == b
  {
    forall k | k in a ensures k in b && a[k] == b[k] {
      assert Lookup(a, k) == Lookup(b, k);
    }
    forall k | k in b ensures k in a {
      assert Lookup(a, k) == Lookup(b, k);
    }
  }

  /** What log compaction leaves at first: for every key at least its last record, tombstones too. */
  ghost predicate Compacted(store: nat, log: seq<Effect>, kept: seq<Effect>) {
    forall key :: LastWrite(store, kept, key) == LastWrite(store, log, key)
  }

  /** What it leaves for good: once its retention is over, a tombstone may be gone too. */
  ghost predicate Cleaned(store: nat, log: seq<Effect>, kept: seq<Effect>) {
    forall key :: SameOrGone(LastWrite(store, kept, key), LastWrite(store, log, key))
  }

  predicate SameOrGone(left: Option<Bytes>, last: Option<Bytes>) {
    left == last || (left.None? && last == Some([]))
  }

  /**
   Crash recovery. A base table that is the replay of any prefix of the changelog becomes the
   replay of the whole changelog once everything from any offset at or before that prefix's end
   is replayed onto it, from the full suffix or from a compacted one.
   */
  lemma RecoveryRebuildsCommittedState(store: nat, log: seq<Effect>, applied: nat, from: nat, kept: seq<Effect>)
    requires from <= applied <= |log|
    requires Compacted(store, log[from..], kept)
    ensures Replay(Replay(map[], store, log[..applied]), store, kept) == Replay(map[], store, log)
  {
    hide Replay, LastWrite;
    var base := Replay(map[], store, log[..applied]);
    var done := Replay(base, store, kept);
    var want := Replay(map[], store, log);
    forall key ensures Lookup(done, key) == Lookup(want, key) {
      ReplayIsLastWrite(base, store, kept, key);
      ReplayIsLastWrite(map[], store, log, key);
      ReplayIsLastWrite(map[], store, log[..applied], key);
      assert LastWrite(store, kept, key) == LastWrite(store, log[from..], key);
      assert log == log[..from] + log[from..];
      LastWriteConcat(store, log[..from], log[from..], key);
      assert log[from..] == log[from..applied] + log[applied..];
      LastWriteConcat(store, log[from..applied], log[applied..], key);
      assert log[..applied] == log[..from] + log[from..applied];
      LastWriteConcat(store, log[..from], log[from..applied], key);
    }
    SameLookups(done, want);
  }

  /** The log mentions every key of the table, deletes included. */
  ghost predicate Mentions(store: nat, log: seq<Effect>, t: Table) {
    forall key | key in t :: LastWrite(store, log, key).Some?
  }

  lemma ReplayIsMentioned(store: nat, log: seq<Effect>)
    ensures Mentions(store, log, Replay(map[], store, log))
  {
    forall key | key in Replay(map[], store, log) ensures LastWrite(store, log, key).Some? {
      ReplayIsLastWrite(map[], store, log, key);
    }
  }

  lemma LongerLogMentions(store: nat, log: seq<Effect>, more: seq<Effect>, t: Table)
    requires Mentions(store, log, t)
    ensures Mentions(store, log + more, t)
  {
    hide LastWrite;
    forall key | key in t ensures LastWrite(store, log + more, key).Some? {
      LastWriteConcat(store, log, more, key);
    }
  }

  /** A restore that stops after any number of records leaves only keys that the log mentions. */
  lemma InterruptedRestoreIsMentioned(store: nat, log: seq<Effect>, base: Table, kept: seq<Effect>, n: nat)
    requires Cleaned(store, log, kept) && Mentions(store, log, base) && n <= |kept|
    ensures Mentions(store, log, Replay(base, store, kept[..n]))
  {
    hide Replay, LastWrite;
    forall key | key in Replay(base, store, kept[..n]) ensures LastWrite(store, log, key).Some? {
      ReplayIsLastWrite(base, store, kept[..n], key);
      LastWriteConcat(store, kept[..n], kept[n..], key);
      assert kept == kept[..n] + kept[n..];
      assert SameOrGone(LastWrite(store, kept, key), LastWrite(store, log, key));
    }
  }

  // --- When such a base is still the replay of a prefix ---

  lemma ReplayOfPrefix(store: nat, log: seq<Effect>, a: nat, n: nat)
    requires n <= a <= |log|
    requires Mentions(store, log[..n], Replay(map[], store, log[..a]))
    ensures Replay(Replay(map[], store, log[..a]), store, log[..n]) == Replay(map[], store, log[..n])
  {
    hide LastWrite, Replay;
    EarliestReplayForgetsBase(store, log[..n], Replay(map[], store, log[..a]), log[..n]);
  }

  // One record less than the base had: its last record alone is missing, and does not have to be
  lemma ReplayUpToLast(store: nat, log: seq<Effect>, n: nat)
    requires n < |log|
    ensures var base := Replay(map[], store, log[..n + 1]);
            Replay(base, store, log[..n]) == base || Replay(base, store, log[..n]) == Replay(map[], store, log[..n])
  {
    var e, base := log[n], Replay(map[], store, log[..n + 1]);
    assert log[..n + 1][..n] == log[..n];
    if !WritesTo(e, store) || LastWrite(store, log[..n], e.key).Some? {
      forall key | key in base ensures LastWrite(store, log[..n], key).Some? {
        ReplayIsLastWrite(map[], store, log[..n + 1], key);
      }
      ReplayOfPrefix(store, log, n + 1, n);
    } else {
      var done := Replay(base, store, log[..n]);
      forall key ensures Lookup(done, key) == Lookup(base, key) {
        ReplayIsLastWrite(base, store, log[..n], key);
        ReplayIsLastWrite(map[], store, log[..n + 1], key);
        ReplayIsLastWrite(map[], store, log[..n], key);
      }
      SameLookups(done, base);
    }
  }

  ghost predicate IsPrefixReplay(t: Table, store: nat, log: seq<Effect>) {
    exists m :: 0 <= m <= |log| && t == Replay(map[], store, log[..m])
  }

  // Whatever the log: the replay of its first n records onto the replay of its first a is that of a prefix
  ghost predicate StaysPrefix(store: nat, a: nat, n: nat) {
    forall log: seq<Effect> :: a <= |log| && n <= |log| ==>
      IsPrefixReplay(Replay(Replay(map[], store, log[..a]), store, log[..n]), store, log)
  }

  lemma PrefixStays(store: nat, log: seq<Effect>, a: nat, n: nat)
    requires a <= |log| && n <= |log| && (n == 0 || n + 1 >= a)
    ensures IsPrefixReplay(Replay(Replay(map[], store, log[..a]), store, log[..n]), store, log)
  {
    var base := Replay(map[], store, log[..a]);
    if n == 0 {
      assert Replay(base, store, log[..0]) == base;
    } else if n >= a {
      hide Replay;
      ReplayIsMentioned(store, log[..a]);
      LongerLogMentions(store, log[..a], log[a..n], base);
      assert log[..n] == log[..a] + log[a..n];
      EarliestReplayForgetsBase(store, log[..n], base, log[..n]);
    } else {
      hide Replay;
      ReplayUpToLast(store, log, n);
      assert n + 1 == a;
    }
  }

  // A key put n times and then removed, and another one put at last
  function TwoKeys(store: nat, k: Bytes, j: Bytes, v: Bytes, a: nat, n: nat): (log: seq<Effect>)
    ensures |log| == a
  {
    seq(a, i => if i < n then Put(store, k, v) else if i < a - 1 then Remove(store, k) else Put(store, j, v))
  }

  lemma {:induction false} TwoKeysWrites(store: nat, k: Bytes, j: Bytes, v: Bytes, a: nat, n: nat, m: nat)
    requires k != j && 0 < n < n + 1 < a && m <= a
    ensures var log := TwoKeys(store, k, j, v, a, n);
            && LastWrite(store, log[..m], k) == (if m == 0 then None else if m <= n then Some(v) else Some([]))
            && LastWrite(store, log[..m], j) == (if m == a then Some(v) else None)
    decreases m
  {
    if m > 0 {
      var log := TwoKeys(store, k, j, v, a, n);
      TwoKeysWrites(store, k, j, v, a, n, m - 1);
      assert log[..m][..m - 1] == log[..m - 1];
      if m == a {
        assert log[..m][m - 1] == Put(store, j, v);
      }
    }
  }

  /**
   A base restored anew from the start of its log, cut off where two more of its records are missing: no prefix
   gives it.
   */
  lemma InterruptedRestoreIsNoPrefix(store: nat, k: Bytes, j: Bytes, v: Bytes, a: nat, n: nat)
    requires k != j && v != [] && 0 < n < n + 1 < a
    ensures var log := TwoKeys(store, k, j, v, a, n);
            !IsPrefixReplay(Replay(Replay(map[], store, log[..a]), store, log[..n]), store, log)
  {
    hide Replay, LastWrite, TwoKeys;
    var log := TwoKeys(store, k, j, v, a, n);
    var base := Replay(map[], store, log[..a]);
    var left := Replay(base, store, log[..n]);
    forall m | 0 <= m <= a ensures left != Replay(map[], store, log[..m]) {
      forall key | key in {k, j} ensures Lookup(left, key) == Some(v) {
        ReplayIsLastWrite(map[], store, log[..a], key);
        ReplayIsLastWrite(base, store, log[..n], key);
        TwoKeysWrites(store, k, j, v, a, n, a);
        TwoKeysWrites(store, k, j, v, a, n, n);
      }
      TwoKeysWrites(store, k, j, v, a, n, m);
      ReplayIsLastWrite(map[], store, log[..m], k);
      ReplayIsLastWrite(map[], store, log[..m], j);
    }
  }

  /**
   A base that had a records of its log, restored anew and cut off after n: it is the replay of some
   prefix, for every log, if and only if nothing was replayed or at most one of its records is missing.
   */
  lemma InterruptedRestoreIsPrefixIff(store: nat, a: nat, n: nat)
    ensures StaysPrefix(store, a, n) <==> n == 0 || n + 1 >= a
  {
    hide IsPrefixReplay, Replay;
    if n == 0 || n + 1 >= a {
      forall log: seq<Effect> | a <= |log| && n <= |log|
        ensures IsPrefixReplay(Replay(Replay(map[], store, log[..a]), store, log[..n]), store, log)
      {
        PrefixStays(store, log, a, n);
      }
    } else {
      InterruptedRestoreIsNoPrefix(store, [0], [1], [0], a, n);
    }
  }

  // --- What a restore from the earliest offset gives ---

  /** Over a base of which the whole log mentions every key, what is left of the log need only mention them too. */
  lemma EarliestReplayIsExactIff(store: nat, log: seq<Effect>, base: Table, kept: seq<Effect>)
    requires Cleaned(store, log, kept) && Mentions(store, log, base)
    ensures Replay(base, store, kept) == Replay(map[], store, log) <==> Mentions(store, kept, base)
  {
    hide Replay, LastWrite;
    var done, want := Replay(base, store, kept), Replay(map[], store, log);
    forall key
      ensures Lookup(done, key) == Lookup(want, key) <==> key in base ==> LastWrite(store, kept, key).Some?
    {
      ReplayIsLastWrite(base, store, kept, key);
      ReplayIsLastWrite(map[], store, log, key);
      assert SameOrGone(LastWrite(store, kept, key), LastWrite(store, log, key));
    }
    if Mentions(store, kept, base) {
      SameLookups(done, want);
    }
  }

  /**
   With its tombstones a compacted log forgets whatever the base held: an interrupted restore is simply done
   again.
   */
  lemma EarliestReplayForgetsBase(store: nat, log: seq<Effect>, base: Table, kept: seq<Effect>)
    requires Compacted(store, log, kept) && Mentions(store, log, base)
    ensures Replay(base, store, kept) == Replay(map[], store, log)
  {
    hide Replay, LastWrite;
    assert Mentions(store, kept, base) by {
      assert forall key | key in base :: LastWrite(store, kept, key) == LastWrite(store, log, key);
    }
    EarliestReplayIsExactIff(store, log, base, kept);
  }

  // Whatever readable table the base is, as long as the log mentions its keys
  ghost predicate ForgetsAllBases(store: nat, log: seq<Effect>, kept: seq<Effect>) {
    forall base: Table :: Readable(base) == base && Mentions(store, log, base) ==>
                            Replay(base, store, kept) == Replay(map[], store, log)
  }

  /** Of what mentions no other keys than the log, exactly that which keeps each last record forgets every base. */
  lemma ForgetsAllBasesIffCompacted(store: nat, log: seq<Effect>, kept: seq<Effect>)
    requires forall key :: LastWrite(store, kept, key).Some? ==> LastWrite(store, log, key).Some?
    ensures ForgetsAllBases(store, log, kept) <==> Compacted(store, log, kept)
  {
    hide Replay, LastWrite;
    if Compacted(store, log, kept) {
      forall base: Table | Readable(base) == base && Mentions(store, log, base)
        ensures Replay(base, store, kept) == Replay(map[], store, log)
      {
        EarliestReplayForgetsBase(store, log, base, kept);
      }
    } else {
      var key :| LastWrite(store, kept, key) != LastWrite(store, log, key);
      var one: Table := map[key := [0]];
      assert Readable(one) == one && Readable(map[]) == map[];
      ReplayIsLastWrite(map[], store, log, key);
      ReplayIsLastWrite(map[], store, kept, key);
      ReplayIsLastWrite(one, store, kept, key);
      var want := Replay(map[], store, log);
      assert Replay(one, store, kept) != want || Replay(map[], store, kept) != want;
      assert Mentions(store, log, one);
    }
  }

  /** A base that holds a key whose tombstone is gone: the restore brings it back. */
  lemma DroppedTombstoneResurrects(key: Bytes, value: Bytes)
    requires value != []
    ensures var log := [Put(0, key, value), Remove(0, key)];
            && Cleaned(0, log, []) && !Compacted(0, log, [])
            && Replay(Replay(map[], 0, log[..1]), 0, []) == map[key := value] && Replay(map[], 0, log) == map[]
  {
    var log := [Put(0, key, value), Remove(0, key)];
    assert log[..1] == [log[0]] && log[..|log| - 1] == [log[0]] && [log[0]][..0] == [];
    assert Replay(map[], 0, [log[0]]) == map[key := value];
    forall k ensures LastWrite(0, log, k) == if k == key then Some([]) else None {
      assert LastWrite(0, [log[0]], k) == if k == key then Some(value) else None;
    }
    assert LastWrite(0, [], key) == None;
  }
}
