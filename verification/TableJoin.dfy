/**
 Joining two tables (streams/ktable_stream.go): each side's update is written to its store
 (streams/processors/table_converter.go), then looked up in the other side's store and joined
 (streams/processors/stream_joiner.go), and both joiners feed one merger.
 */
module TableJoin {

  import opened Basics

  datatype Side = LeftSide | RightSide

  datatype JoinerType = InnerJoin | LeftJoin | RightJoin | OuterJoin

  // A record without a value is a tombstone
  datatype Update<K, V> = Update(side: Side, key: K, value: Option<V>)

  // What a value mapper answers: a joined value, which may be nil, or an error
  datatype Mapped<W> = Value(value: Option<W>) | MapperFailed

  type Mapper<!V, !W> = (Option<V>, Option<V>) -> Mapped<W>

  // What a joiner does with a record: join it, ignore it, or fail on its value mapper
  datatype Joined<W> = Forwarded(value: Option<W>) | Ignored | Failed

  function Get<K, V>(table: map<K, V>, key: K): Option<V> {
    if key in table then Some(table[key]) else None
  }

  // The rows each kind of join has
  predicate Demanded(typ: JoinerType, inLeft: bool, inRight: bool) {
    match typ
    case InnerJoin => inLeft && inRight
    case LeftJoin => inLeft
    case RightJoin => inRight
    case OuterJoin => inLeft || inRight
  }

  predicate HasRow<K, V>(typ: JoinerType, left: map<K, V>, right: map<K, V>, key: K) {
    Demanded(typ, key in left, key in right)
  }

  function Joining<K, V, W>(mapper: Mapper<V, W>, left: map<K, V>, right: map<K, V>, key: K): Mapped<W> {
    mapper(Get(left, key), Get(right, key))
  }

  /** A row of the joined table, straight from the two tables: no order of updates takes part. */
  function Row<K, V, W>(typ: JoinerType, mapper: Mapper<V, W>, left: map<K, V>, right: map<K, V>, key: K): Option<W> {
    var joined := Joining(mapper, left, right, key);
    if HasRow(typ, left, right, key) && joined.Value? then joined.value else None
  }

  /**
   What a row is made of. A mapper that answers its first argument gives the left table, one that answers its
   second the right one, wherever the row is demanded; any mapper gives what it makes of those two.
   */
  lemma RowIsOfLeftAndRight<K, V, W>(typ: JoinerType, mapper: Mapper<V, W>, left: map<K, V>, right: map<K, V>, key: K)
    ensures var first := Row(typ, (l: Option<V>, r: Option<V>) => Value(l), left, right, key);
            var second := Row(typ, (l: Option<V>, r: Option<V>) => Value(r), left, right, key);
            if HasRow(typ, left, right, key) then
              && (first == if key in left then Some(left[key]) else None)
              && (second == if key in right then Some(right[key]) else None)
              && (Row(typ, mapper, left, right, key)
                  == match mapper(first, second)
                     case Value(joined) => joined
                     case MapperFailed => None)
            else Row(typ, mapper, left, right, key) == None
  {
  }

  // Where the other side of a record has to be there
  predicate RequiresOther(typ: JoinerType, side: Side) {
    typ == InnerJoin || typ == if side == LeftSide then RightJoin else LeftJoin
  }

  // A record is handed to the mapper
  predicate IsMapped<K, V>(typ: JoinerType, side: Side, left: map<K, V>, right: map<K, V>, key: K) {
    !RequiresOther(typ, side) || key in if side == LeftSide then right else left
  }

  // A record on which the mapper fails is refused
  predicate Accepted<K, V, W>(typ: JoinerType, mapper: Mapper<V, W>, side: Side, left: map<K, V>, right: map<K, V>,
                              key: K) {
    IsMapped(typ, side, left, right, key) ==> Joining(mapper, left, right, key).Value?
  }

  // The value a downstream table holds for a key after the merger's output
  function Latest<K(==), W>(out: seq<(K, Option<W>)>, key: K): Option<W> {
    if out == [] then None
    else if out[|out| - 1].0 == key then out[|out| - 1].1
    else Latest(out[..|out| - 1], key)
  }

  lemma LatestSnoc<K, W>(out: seq<(K, Option<W>)>, key: K, value: Option<W>, k: K)
    ensures Latest(out + [(key, value)], k) == if k == key then value else Latest(out, k)
  {
    var longer := out + [(key, value)];
    assert longer[..|longer| - 1] == out;
  }

  // A table after an update of one of the sides
  function After<K, V>(table: map<K, V>, u: Update<K, V>, side: Side): map<K, V> {
    if u.side != side then table
    else if u.value.Some? then table[u.key := u.value.value]
    else table - {u.key}
  }

  // The table that one side's updates make
  function TableOf<K, V>(updates: seq<Update<K, V>>, side: Side): map<K, V> {
    if updates == [] then map[] else After(TableOf(updates[..|updates| - 1], side), updates[|updates| - 1], side)
  }

  lemma TableOfSnoc<K, V>(updates: seq<Update<K, V>>, u: Update<K, V>, side: Side)
    ensures TableOf(updates + [u], side) == After(TableOf(updates, side), u, side)
  {
    assert (updates + [u])[..|updates|] == updates;
  }

  ghost predicate Joins<K(!new), V, W>(typ: JoinerType, mapper: Mapper<V, W>, left: map<K, V>, right: map<K, V>,
                                       out: seq<(K, Option<W>)>)
  {
    forall k :: Latest(out, k) == Row(typ, mapper, left, right, k)
  }

  /**
   What an update has to meet to keep the joined table exact: a value does so always; a tombstone that
   is handed to the mapper must take a row away if the join has none there any more.
   */
  predicate Fits<K, V, W>(typ: JoinerType, mapper: Mapper<V, W>, left: map<K, V>, right: map<K, V>, u: Update<K, V>) {
    u.value.None? && IsMapped(typ, u.side, left, right, u.key) && !HasRow(typ, left, right, u.key) ==>
      Joining(mapper, left, right, u.key) == Value(None)
  }

  // What the joiners and the merger put out for an accepted update
  function Output<K, V, W>(typ: JoinerType, mapper: Mapper<V, W>, left: map<K, V>, right: map<K, V>, u: Update<K, V>)
    : seq<(K, Option<W>)>
    requires Accepted(typ, mapper, u.side, left, right, u.key)
  {
    if IsMapped(typ, u.side, left, right, u.key) then [(u.key, Joining(mapper, left, right, u.key).value)] else []
  }

  /** One update moves one row. The joined table stays exact if and only if the update fits. */
  lemma UpdateMovesOneRow<K(!new), V, W>(typ: JoinerType, mapper: Mapper<V, W>, left: map<K, V>, right: map<K, V>,
                                         out: seq<(K, Option<W>)>, u: Update<K, V>)
    requires Joins(typ, mapper, left, right, out)
    requires Accepted(typ, mapper, u.side, After(left, u, LeftSide), After(right, u, RightSide), u.key)
    ensures var l, r := After(left, u, LeftSide), After(right, u, RightSide);
            && (forall k :: k != u.key ==> Latest(out + Output(typ, mapper, l, r, u), k) == Row(typ, mapper, l, r, k))
            && (Joins(typ, mapper, l, r, out + Output(typ, mapper, l, r, u)) <==> Fits(typ, mapper, l, r, u))
  {
    var l, r := After(left, u, LeftSide), After(right, u, RightSide);
    var after := out + Output(typ, mapper, l, r, u);
    forall k ensures k != u.key ==> Latest(after, k) == Row(typ, mapper, l, r, k) {
      OthersStay(typ, mapper, left, right, out, u, k);
    }
    MovedRow(typ, mapper, left, right, out, u);
  }

  lemma OthersStay<K(!new), V, W>(typ: JoinerType, mapper: Mapper<V, W>, left: map<K, V>, right: map<K, V>,
                                  out: seq<(K, Option<W>)>, u: Update<K, V>, k: K)
    requires Joins(typ, mapper, left, right, out)
    requires Accepted(typ, mapper, u.side, After(left, u, LeftSide), After(right, u, RightSide), u.key)
    ensures var l, r := After(left, u, LeftSide), After(right, u, RightSide);
            k != u.key ==> Latest(out + Output(typ, mapper, l, r, u), k) == Row(typ, mapper, l, r, k)
  {
    var l, r := After(left, u, LeftSide), After(right, u, RightSide);
    var put := Output(typ, mapper, l, r, u);
    if k != u.key {
      assert Get(l, k) == Get(left, k) && Get(r, k) == Get(right, k);
      if put == [] {
        assert out + put == out;
      } else {
        LatestSnoc(out, u.key, put[0].1, k);
      }
    }
  }

  // Where a value leaves no row, or a tombstone is ignored, there was none before
  lemma MovedRow<K(!new), V, W>(typ: JoinerType, mapper: Mapper<V, W>, left: map<K, V>, right: map<K, V>,
                                out: seq<(K, Option<W>)>, u: Update<K, V>)
    requires Joins(typ, mapper, left, right, out)
    requires Accepted(typ, mapper, u.side, After(left, u, LeftSide), After(right, u, RightSide), u.key)
    ensures var l, r := After(left, u, LeftSide), After(right, u, RightSide);
            Latest(out + Output(typ, mapper, l, r, u), u.key) == Row(typ, mapper, l, r, u.key)
            <==> Fits(typ, mapper, l, r, u)
  {
    var l, r := After(left, u, LeftSide), After(right, u, RightSide);
    var put := Output(typ, mapper, l, r, u);
    if put == [] {
      assert out + put == out;
      assert !HasRow(typ, left, right, u.key);
    } else {
      LatestSnoc(out, u.key, put[0].1, u.key);
    }
  }

  /** The updates that are not refused, each met by the tables that its surviving predecessors left. */
  ghost function Survivors<K, V, W>(typ: JoinerType, mapper: Mapper<V, W>,
                                    updates: seq<Update<K, V>>): seq<Update<K, V>> {
    if updates == [] then []
    else
      var u, before := updates[|updates| - 1], Survivors(typ, mapper, updates[..|updates| - 1]);
      if AcceptedAfter(typ, mapper, before, u) then before + [u] else before
  }

  ghost predicate AcceptedAfter<K, V, W>(typ: JoinerType, mapper: Mapper<V, W>, before: seq<Update<K, V>>,
                                         u: Update<K, V>) {
    Accepted(typ, mapper, u.side, After(TableOf(before, LeftSide), u, LeftSide),
             After(TableOf(before, RightSide), u, RightSide), u.key)
  }

  ghost predicate FitsAfter<K, V, W>(typ: JoinerType, mapper: Mapper<V, W>, before: seq<Update<K, V>>,
                                     u: Update<K, V>) {
    Fits(typ, mapper, After(TableOf(before, LeftSide), u, LeftSide), After(TableOf(before, RightSide), u, RightSide), u)
  }

  // Every update that survives fits
  ghost predicate AllFit<K, V, W>(typ: JoinerType, mapper: Mapper<V, W>, applied: seq<Update<K, V>>) {
    forall n :: 0 <= n < |applied| ==> FitsAfter(typ, mapper, applied[..n], applied[n])
  }

  lemma {:induction false} AllSurvive<K, V, W>(typ: JoinerType, mapper: Mapper<V, W>, updates: seq<Update<K, V>>)
    requires forall l, r :: mapper(l, r).Value?
    ensures Survivors(typ, mapper, updates) == updates
  {
    if updates != [] {
      AllSurvive(typ, mapper, updates[..|updates| - 1]);
    }
  }

  lemma SurvivorsStep<K, V, W>(typ: JoinerType, mapper: Mapper<V, W>, updates: seq<Update<K, V>>, n: nat)
    requires n < |updates|
    ensures var u, before := updates[n], Survivors(typ, mapper, updates[..n]);
            Survivors(typ, mapper, updates[..n + 1])
            == if AcceptedAfter(typ, mapper, before, u) then before + [u] else before
  {
    assert updates[..n + 1][..n] == updates[..n];
  }

  lemma AllFitSnoc<K, V, W>(typ: JoinerType, mapper: Mapper<V, W>, applied: seq<Update<K, V>>, u: Update<K, V>)
    ensures AllFit(typ, mapper, applied + [u]) <==> AllFit(typ, mapper, applied) && FitsAfter(typ, mapper, applied, u)
  {
    hide FitsAfter;
    var longer := applied + [u];
    assert longer[..|applied|] == applied && longer[|applied|] == u;
    assert forall n :: 0 <= n < |applied| ==> longer[..n] == applied[..n] && longer[n] == applied[n];
  }

  lemma NothingApplied<K, V, W>(typ: JoinerType, mapper: Mapper<V, W>)
    ensures Survivors<K, V, W>(typ, mapper, []) == [] && AllFit<K, V, W>(typ, mapper, [])
  {
  }

  lemma ValueFits<K, V, W>(typ: JoinerType, mapper: Mapper<V, W>, before: seq<Update<K, V>>, u: Update<K, V>)
    ensures u.value.Some? ==> FitsAfter(typ, mapper, before, u)
  {
  }

  // A mapper that answers a value for a lost side, too
  function Always(): Mapper<int, int> {
    (l, r) => Value(Some(0))
  }

  /** A tombstone after which an inner join still shows the row: its joiner has put out another value for it. */
  lemma TombstoneLeavesRow() returns (before: seq<Update<int, int>>, u: Update<int, int>)
    ensures u.value.None? && AllFit(InnerJoin, Always(), before) && !FitsAfter(InnerJoin, Always(), before, u)
  {
    before, u := [Update(LeftSide, 0, Some(1)), Update(RightSide, 0, Some(1))], Update(LeftSide, 0, None);
    assert before[..1] == [before[0]];
    TableOfSnoc([], before[0], RightSide);
    TableOfSnoc([before[0]], before[1], RightSide);
    assert [] + [before[0]] == [before[0]] && [before[0]] + [before[1]] == before;
  }

  class StreamJoiner<K(==), V, W> {
    const otherSideRequired: bool
    const side: Side

    constructor (side: Side, otherSideRequired: bool)
      ensures this.side == side && this.otherSideRequired == otherSideRequired
    {
      this.side := side;
      this.otherSideRequired := otherSideRequired;
    }

    /**
     What a joiner wired for a kind of join makes of a record that its own table has taken in. A value is
     ignored exactly if that join demands no row for the key, and otherwise forwarded as the row; a
     tombstone that leaves a row is forwarded as that row.
     */
    method Run(ghost typ: JoinerType, ghost own: map<K, V>, other: map<K, V>, key: K, value: Option<V>,
               mapper: Mapper<V, W>)
      returns (r: Joined<W>)
      requires otherSideRequired == RequiresOther(typ, side) && Get(own, key) == value
      ensures var (left, right) := if side == LeftSide then (own, other) else (other, own);
              && (value.Some? ==> (r.Ignored? <==> !HasRow(typ, left, right, key)))
              && (HasRow(typ, left, right, key) ==> !r.Ignored?)
              && (HasRow(typ, left, right, key) && r.Forwarded? ==> r.value == Row(typ, mapper, left, right, key))
              && (r.Forwarded? ==> Joining(mapper, left, right, key) == Value(r.value))
              && (r.Ignored? <==> !IsMapped(typ, side, left, right, key))
              && (r.Failed? <==> !Accepted(typ, mapper, side, left, right, key))
      // its own value comes first on the left side, and second on the right one
      ensures r.Forwarded? ==>
                var (first, second) :=
                  if side == LeftSide then (value, if key in other then Some(other[key]) else None)
                  else (if key in other then Some(other[key]) else None, value);
                mapper(first, second) == Value(r.value)
    {
      var found := Get(other, key);
      if found.None? && otherSideRequired {
        return Ignored;
      }
      var l, o;
      match side {
        case LeftSide => l, o := value, found;
        case RightSide => l, o := found, value;
      }
      var joined := mapper(l, o);
      r := if joined.Value? then Forwarded(joined.value) else Failed;
    }
  }

  /** The wiring that kTableStream.join makes, and its run. */
  class Join<K(==, !new), V(!new), W(!new)> {
    const typ: JoinerType
    const mapper: Mapper<V, W>
    const leftJoiner: StreamJoiner<K, V, W>
    const rightJoiner: StreamJoiner<K, V, W>
    var left: map<K, V>
    var right: map<K, V>
    var out: seq<(K, Option<W>)>
    // The updates that were not refused
    ghost var applied: seq<Update<K, V>>

    constructor (typ: JoinerType, mapper: Mapper<V, W>)
      ensures Valid() && Exact() && applied == [] && out == [] && this.typ == typ && this.mapper == mapper
    {
      this.typ := typ;
      this.mapper := mapper;
      leftJoiner := new StreamJoiner(LeftSide, typ == RightJoin || typ == InnerJoin);
      rightJoiner := new StreamJoiner(RightSide, typ == LeftJoin || typ == InnerJoin);
      left, right, out, applied := map[], map[], [], [];
    }

    ghost predicate Valid()
      reads this
    {
      && leftJoiner.side == LeftSide && leftJoiner.otherSideRequired == RequiresOther(typ, LeftSide)
      && rightJoiner.side == RightSide && rightJoiner.otherSideRequired == RequiresOther(typ, RightSide)
      && left == TableOf(applied, LeftSide)
      && right == TableOf(applied, RightSide)
    }

    /** The latest output for each key is the row that the two tables make at this moment. */
    ghost predicate Exact()
      reads this
    {
      Joins(typ, mapper, left, right, out)
    }

    /**
     One record. A record whose mapper fails is refused: the task takes its writes back, as JoinTask shows.
     Any other keeps the joined table exact if and only if it fits.
     */
    method Accept(u: Update<K, V>) returns (ok: bool)
      requires Valid()
      modifies this
      ensures Valid()
      ensures ok <==> AcceptedAfter(typ, mapper, old(applied), u)
      ensures !ok ==> applied == old(applied) && out == old(out)
      ensures ok ==> applied == old(applied) + [u] && out == old(out) + Output(typ, mapper, left, right, u)
      ensures old(Exact()) ==> (Exact() <==> !ok || FitsAfter(typ, mapper, old(applied), u))
    {
      hide Joins, Latest, TableOf, Fits, HasRow, Row, Joining;
      TableOfSnoc(applied, u, LeftSide);
      TableOfSnoc(applied, u, RightSide);
      var l, r := left, right;
      var joined;
      match u.side {
        case LeftSide =>
          l := if u.value.Some? then left[u.key := u.value.value] else left - {u.key};
          joined := leftJoiner.Run(typ, l, right, u.key, u.value, mapper);
        case RightSide =>
          r := if u.value.Some? then right[u.key := u.value.value] else right - {u.key};
          joined := rightJoiner.Run(typ, r, left, u.key, u.value, mapper);
      }
      if joined.Failed? {
        return false;
      }
      if Exact() {
        UpdateMovesOneRow(typ, mapper, left, right, out, u);
      }
      left, right := l, r;
      applied := applied + [u];
      if joined.Forwarded? {
        out := out + [(u.key, joined.value)];
      }
      ok := true;
      assert joined.Ignored? ==> out + [] == out;
    }

    /** Over any interleaving: the output's latest values are the join of the tables that the surviving updates make. */
    method AcceptAll(updates: seq<Update<K, V>>)
      requires Valid() && Exact() && applied == []
      modifies this
      ensures Valid() && applied == Survivors(typ, mapper, updates)
      ensures AllFit(typ, mapper, applied) ==>
                forall k :: Latest(out, k)
                            == Row(typ, mapper, TableOf(applied, LeftSide), TableOf(applied, RightSide), k)
      ensures (forall l, r :: mapper(l, r).Value?) ==> applied == updates
      ensures (forall u | u in updates :: u.value.Some?) ==> AllFit(typ, mapper, applied)
    {
      hide AcceptedAfter, FitsAfter, AllFit, Survivors, TableOf, Row, Latest;
      NothingApplied<K, V, W>(typ, mapper);
      assert updates[..0] == [];
      for n := 0 to |updates|
        invariant Valid()
        invariant applied == Survivors(typ, mapper, updates[..n])
        invariant AllFit(typ, mapper, applied) ==> Exact()
        invariant (forall u | u in updates :: u.value.Some?) ==> AllFit(typ, mapper, applied)
      {
        hide Joins;
        ValueFits(typ, mapper, applied, updates[n]);
        assert updates[n] in updates;
        SurvivorsStep(typ, mapper, updates, n);
        AllFitSnoc(typ, mapper, applied, updates[n]);
        var ok := Accept(updates[n]);
      }
      assert updates[..|updates|] == updates;
      if forall l, r :: mapper(l, r).Value? {
        AllSurvive(typ, mapper, updates);
      }
    }
  }

  // One side's updates, in their order
  function Of<K, V>(updates: seq<Update<K, V>>, side: Side): seq<Update<K, V>> {
    if updates == [] then []
    else
      var u := updates[|updates| - 1];
      Of(updates[..|updates| - 1], side) + if u.side == side then [u] else []
  }

  lemma {:induction false} TableOfSide<K, V>(updates: seq<Update<K, V>>, side: Side)
    ensures TableOf(Of(updates, side), side) == TableOf(updates, side)
  {
    if updates != [] {
      var u := updates[|updates| - 1];
      var before := Of(updates[..|updates| - 1], side);
      TableOfSide(updates[..|updates| - 1], side);
      TableOfSnoc(before, u, side);
      assert before + [] == before;
    }
  }

  /** How the two sides' updates interleave does not show in the joined table. */
  lemma InterleavingDoesNotShow<K, V, W>(typ: JoinerType, mapper: Mapper<V, W>,
                                         us: seq<Update<K, V>>, vs: seq<Update<K, V>>, key: K)
    requires Of(us, LeftSide) == Of(vs, LeftSide) && Of(us, RightSide) == Of(vs, RightSide)
    ensures Row(typ, mapper, TableOf(us, LeftSide), TableOf(us, RightSide), key)
            == Row(typ, mapper, TableOf(vs, LeftSide), TableOf(vs, RightSide), key)
  {
    TableOfSide(us, LeftSide);
    TableOfSide(us, RightSide);
    TableOfSide(vs, LeftSide);
    TableOfSide(vs, RightSide);
  }
}
