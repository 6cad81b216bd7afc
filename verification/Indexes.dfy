/**
 Secondary indexes of a store. An index maps `hash + key` to `key` for every record of the store,
 where the hash is what the index's mapper makes of the record; the two are simply concatenated.

 Keys and values are their encodings. A nil value is None; an empty one reads as absent.
 */
module Indexes {
  import opened Basics
  import opened Changelog
  import opened KeyRange

  type Mapper = (Bytes, Option<Bytes>) -> Bytes

  type IndexTable = map<Bytes, Bytes>

  function EntryKey(mapper: Mapper, key: Bytes, value: Option<Bytes>): Bytes {
    mapper(key, value) + key
  }

  function Stored(t: Table, key: Bytes): Option<Bytes> {
    if key in t && t[key] != [] then Some(t[key]) else None
  }

  /** What is asked of a mapper: no two keys share an entry, whatever non-empty values they have. */
  ghost predicate Separates(mapper: Mapper) {
    forall k: Bytes, v: Bytes, k': Bytes, v': Bytes ::
      (v != [] && v' != [] && EntryKey(mapper, k, Some(v)) == EntryKey(mapper, k', Some(v'))) ==> k == k'
  }

  ghost predicate FixedWidth(mapper: Mapper, width: nat) {
    forall k, v :: |mapper(k, v)| == width
  }

  lemma FixedWidthSeparates(mapper: Mapper, width: nat)
    requires FixedWidth(mapper, width)
    ensures Separates(mapper)
  {
    forall k: Bytes, v: Bytes, k': Bytes, v': Bytes
      | v != [] && v' != [] && EntryKey(mapper, k, Some(v)) == EntryKey(mapper, k', Some(v'))
      ensures k == k'
    {
      assert EntryKey(mapper, k, Some(v))[width..] == k;
      assert EntryKey(mapper, k', Some(v'))[width..] == k';
    }
  }

  /** The index is { hash + key -> key | record in the store }, no more and no less. */
  ghost predicate Agrees(mapper: Mapper, t: Table, index: IndexTable) {
    && (forall k | k in t :: var e := EntryKey(mapper, k, Some(t[k])); e in index && index[e] == k)
    && (forall e | e in index :: index[e] in t && EntryKey(mapper, index[e], Some(t[index[e]])) == e)
  }

  lemma AgreementIsUnique(mapper: Mapper, t: Table, a: IndexTable, b: IndexTable)
    requires Agrees(mapper, t, a) && Agrees(mapper, t, b)
    ensures a == b
  {
    forall e | e in a ensures e in b && a[e] == b[e] {
      assert EntryKey(mapper, a[e], Some(t[a[e]])) == e;
    }
    forall e | e in b ensures e in a {
      assert EntryKey(mapper, b[e], Some(t[b[e]])) == e;
    }
  }

  // The index after a record changed from `before` to `after`
  function Reindexed(mapper: Mapper, index: IndexTable, key: Bytes, before: Option<Bytes>,
                     after: Option<Bytes>): IndexTable
  {
    var was, now := EntryKey(mapper, key, before), EntryKey(mapper, key, after);
    if before.None? then index[now := key]
    else if was in index && index[was] != [] && was == now then index
    else (index - {was})[now := key]
  }

  function Unindexed(mapper: Mapper, index: IndexTable, key: Bytes, before: Option<Bytes>): IndexTable {
    if before.None? then index else index - {EntryKey(mapper, key, before)}
  }

  function Written(t: Table, key: Bytes, value: Option<Bytes>): Table {
    if value.None? then t - {key} else t[key := value.value]
  }

  lemma PresentKeepsAgreement(mapper: Mapper, t: Table, index: IndexTable, key: Bytes, value: Bytes)
    requires Separates(mapper) && Agrees(mapper, Readable(t), index) && value != []
    ensures Agrees(mapper, Readable(t[key := value]), Reindexed(mapper, index, key, Stored(t, key), Some(value)))
  {
    hide EntryKey;
    var t', index' := Readable(t[key := value]), Reindexed(mapper, index, key, Stored(t, key), Some(value));
    var now := EntryKey(mapper, key, Some(value));
    assert now in index' && index'[now] == key;
    forall k | k in t' ensures var e := EntryKey(mapper, k, Some(t'[k])); e in index' && index'[e] == k {
      if k != key {
        assert k in Readable(t) && t'[k] == Readable(t)[k];
      }
    }
    forall e | e in index' ensures index'[e] in t' && EntryKey(mapper, index'[e], Some(t'[index'[e]])) == e {
      if e != now {
        assert e in index && index'[e] == index[e];
        assert index[e] == key ==> e == EntryKey(mapper, key, Stored(t, key));
      }
    }
  }

  /** Setting a record keeps the agreement exactly when its value is neither nil nor encoded empty. */
  lemma SetKeepsAgreement(mapper: Mapper, t: Table, index: IndexTable, key: Bytes, value: Option<Bytes>)
    requires Separates(mapper) && Agrees(mapper, Readable(t), index)
    ensures Agrees(mapper, Readable(Written(t, key, value)), Reindexed(mapper, index, key, Stored(t, key), value))
            <==> value.Some? && value.value != []
  {
    hide EntryKey;
    if value.Some? && value.value != [] {
      PresentKeepsAgreement(mapper, t, index, key, value.value);
    } else {
      var index' := Reindexed(mapper, index, key, Stored(t, key), value);
      assert EntryKey(mapper, key, value) in index' && index'[EntryKey(mapper, key, value)] == key;
      assert key !in Readable(Written(t, key, value));
    }
  }

  lemma DeleteKeepsAgreement(mapper: Mapper, t: Table, index: IndexTable, key: Bytes)
    requires Separates(mapper) && Agrees(mapper, Readable(t), index)
    ensures Agrees(mapper, Readable(t - {key}), Unindexed(mapper, index, key, Stored(t, key)))
  {
    var t', index' := Readable(t - {key}), Unindexed(mapper, index, key, Stored(t, key));
    forall k | k in t' ensures var e := EntryKey(mapper, k, Some(t'[k])); e in index' && index'[e] == k {
      assert k in Readable(t) && t'[k] == Readable(t)[k];
    }
    forall e | e in index' ensures index'[e] in t' && EntryKey(mapper, index'[e], Some(t'[index'[e]])) == e {
      assert e in index;
      assert index[e] == key ==> e == EntryKey(mapper, key, Stored(t, key));
    }
  }

  // Two records whose entries are one: the index that agrees with the second alone is wrong once the first is set
  lemma SharedEntryBreaksAgreement(mapper: Mapper, k: Bytes, v: Bytes, k': Bytes, v': Bytes)
    returns (t: Table, index: IndexTable)
    requires k != k' && v != [] && v' != [] && EntryKey(mapper, k, Some(v)) == EntryKey(mapper, k', Some(v'))
    ensures t == map[k' := v'] && Agrees(mapper, Readable(t), index)
    ensures !Agrees(mapper, Readable(t[k := v]), Reindexed(mapper, index, k, Stored(t, k), Some(v)))
  {
    hide EntryKey;
    var e := EntryKey(mapper, k', Some(v'));
    t, index := map[k' := v'], map[e := k'];
    assert Readable(t) == t;
    var t', index' := Readable(t[k := v]), Reindexed(mapper, index, k, Stored(t, k), Some(v));
    assert k' in t' && t'[k'] == v' && index'[e] == k;
  }

  /** Setting non-empty values keeps the agreement of every store and index if and only if the mapper separates. */
  lemma SetsKeepAgreementIffSeparates(mapper: Mapper)
    ensures Separates(mapper) <==>
            forall t: Table, index: IndexTable, key: Bytes, value: Bytes ::
              (value != [] && Agrees(mapper, Readable(t), index)) ==>
              Agrees(mapper, Readable(Written(t, key, Some(value))),
                     Reindexed(mapper, index, key, Stored(t, key), Some(value)))
  {
    hide Agrees, Reindexed, EntryKey;
    if Separates(mapper) {
      forall t: Table, index: IndexTable, key: Bytes, value: Bytes | value != [] && Agrees(mapper, Readable(t), index)
        ensures Agrees(mapper, Readable(Written(t, key, Some(value))),
                       Reindexed(mapper, index, key, Stored(t, key), Some(value)))
      {
        SetKeepsAgreement(mapper, t, index, key, Some(value));
      }
    } else {
      var k: Bytes, v: Bytes, k': Bytes, v': Bytes :|
        v != [] && v' != [] && EntryKey(mapper, k, Some(v)) == EntryKey(mapper, k', Some(v')) && k != k';
      var t, index := SharedEntryBreaksAgreement(mapper, k, v, k', v');
      assert t[k := v] == Written(t, k, Some(v));
    }
  }

  /** Where two records share an entry, deleting one unindexes the other. */
  lemma AmbiguousHashLosesRecord(mapper: Mapper, k: Bytes, v: Bytes, k': Bytes, v': Bytes, index: IndexTable)
    requires k != k' && v != [] && v' != [] && EntryKey(mapper, k, Some(v)) == EntryKey(mapper, k', Some(v'))
    ensures var after := Unindexed(mapper, Reindexed(mapper, index, k, None, Some(v)), k, Some(v));
            EntryKey(mapper, k', Some(v')) !in after && !Agrees(mapper, map[k' := v'], after)
  {
    hide EntryKey;
    var t: Table := map[k' := v'];
    assert k' in t;
  }

  class Index {
    const mapper: Mapper
    var data: IndexTable

    constructor (mapper: Mapper)
      ensures this.mapper == mapper && data == map[]
    {
      this.mapper, data := mapper, map[];
    }

    method Write(key: Bytes, value: Option<Bytes>)
      modifies this
      ensures data == old(data)[EntryKey(mapper, key, value) := key]
    {
      data := data[mapper(key, value) + key := key];
    }

    // Whether the record is indexed and both values index it under the same hash
    method Compare(key: Bytes, before: Option<Bytes>, after: Option<Bytes>) returns (same: bool)
      ensures same <==> var was := EntryKey(mapper, key, before);
                        was in data && data[was] != [] && was == EntryKey(mapper, key, after)
    {
      var was := mapper(key, before) + key;
      if was !in data || |data[was]| < 1 {
        return false;
      }
      same := was == mapper(key, after) + key;
    }

    method Delete(key: Bytes, value: Option<Bytes>)
      modifies this
      ensures data == old(data) - {EntryKey(mapper, key, value)}
    {
      data := data - {mapper(key, value) + key};
    }

    method DeleteAll()
      modifies this
      ensures data == map[]
    {
      data := map[];
    }

    // One index brought up to date with a changed record
    method Refresh(key: Bytes, before: Option<Bytes>, after: Option<Bytes>)
      modifies this
      ensures data == Reindexed(mapper, old(data), key, before, after)
    {
      if before.Some? {
        var same := Compare(key, before, after);
        if same {
          return;
        }
        Delete(key, before);
      }
      Write(key, after);
    }

    // What a scan of the entries that begin with `hash` yields, in the order of the backend
    ghost predicate Scanned(hash: Bytes, entries: seq<Bytes>, keys: seq<Bytes>)
      reads this
    {
      && |entries| == |keys| && Rising(entries)
      && (forall e :: e in entries <==> e in data && hash <= e)
      && forall i :: 0 <= i < |entries| ==> entries[i] in data && keys[i] == data[entries[i]]
    }

    /** The keys found under a hash, entry by entry in rising order. */
    method Values(hash: Bytes) returns (keys: seq<Bytes>)
      ensures exists entries :: Scanned(hash, entries, keys)
    {
      var upper := KeyUpperBound(hash);
      var todo := set e | e in data && InRange(e, hash, upper);
      keys := [];
      ghost var entries: seq<Bytes> := [];
      while todo != {}
        invariant forall e :: e in entries || e in todo <==> e in data && hash <= e
        invariant |entries| == |keys| && Rising(entries) && forall x, e :: x in entries && e in todo ==> Less(x, e)
        invariant forall i :: 0 <= i < |entries| ==> entries[i] in data && keys[i] == data[entries[i]]
        decreases todo
      {
        var e := First(todo);
        RisingSnoc(entries, e);
        todo, entries := todo - {e}, entries + [e];
        keys := keys + [data[e]];
      }
      assert Scanned(hash, entries, keys);
    }
  }

  ghost predicate Rising(keys: seq<Bytes>) {
    forall i, j :: 0 <= i < j < |keys| ==> Less(keys[i], keys[j])
  }

  lemma RisingSnoc(keys: seq<Bytes>, key: Bytes)
    requires Rising(keys) && forall x | x in keys :: Less(x, key)
    ensures Rising(keys + [key])
  {
  }

  // The entry at which an iterator stands first
  method First(entries: set<Bytes>) returns (first: Bytes)
    requires entries != {}
    ensures first in entries && forall e | e in entries - {first} :: Less(first, e)
  {
    hide Less;
    first :| first in entries;
    var todo := entries - {first};
    while todo != {}
      invariant first in entries && todo <= entries - {first}
      invariant forall e | e in entries - todo - {first} :: Less(first, e)
      decreases todo
    {
      var e :| e in todo;
      todo := todo - {e};
      LessTotal(first, e);
      if Less(e, first) {
        forall x | x in entries - todo - {first} && Less(first, x) ensures Less(e, x) {
          LessTransitive(e, first, x);
        }
        first := e;
      }
    }
  }

  class IndexedStore {
    var data: Table
    const indexes: seq<Index>

    constructor (indexes: seq<Index>)
      ensures this.indexes == indexes && data == map[]
    {
      this.indexes, data := indexes, map[];
    }

    ghost predicate Valid() {
      && (forall i, j :: 0 <= i < j < |indexes| ==> indexes[i] != indexes[j])
      && (forall i :: 0 <= i < |indexes| ==> Separates(indexes[i].mapper))
    }

    ghost predicate Agreement()
      reads this, indexes
    {
      forall i :: 0 <= i < |indexes| ==> Agrees(indexes[i].mapper, Readable(data), indexes[i].data)
    }

    method Get(key: Bytes) returns (value: Option<Bytes>)
      ensures value == Stored(data, key)
    {
      value := if key in data && data[key] != [] then Some(data[key]) else None;
    }

    method UpdateIndexes(key: Bytes, value: Option<Bytes>)
      requires Valid()
      modifies indexes
      ensures forall i :: 0 <= i < |indexes| ==>
                indexes[i].data == Reindexed(indexes[i].mapper, old(indexes[i].data), key, Stored(data, key), value)
    {
      var before := Get(key);
      for n := 0 to |indexes|
        invariant forall i :: 0 <= i < n ==>
                    indexes[i].data == Reindexed(indexes[i].mapper, old(indexes[i].data), key, before, value)
        invariant forall i :: n <= i < |indexes| ==> indexes[i].data == old(indexes[i].data)
      {
        indexes[n].Refresh(key, before, value);
      }
    }

    method DeleteIndexes(key: Bytes)
      requires Valid()
      modifies indexes
      ensures forall i :: 0 <= i < |indexes| ==>
                indexes[i].data == Unindexed(indexes[i].mapper, old(indexes[i].data), key, Stored(data, key))
    {
      var before := Get(key);
      if before.Some? {
        for n := 0 to |indexes|
          invariant forall i :: 0 <= i < n ==>
                      indexes[i].data == Unindexed(indexes[i].mapper, old(indexes[i].data), key, before)
          invariant forall i :: n <= i < |indexes| ==> indexes[i].data == old(indexes[i].data)
        {
          indexes[n].Delete(key, before);
        }
      }
    }

    /** Keeps the agreement exactly for values that are neither nil nor empty (with at least one index). */
    method Set(key: Bytes, value: Option<Bytes>)
      requires Valid()
      modifies this, indexes
      ensures data == Written(old(data), key, value)
      ensures old(Agreement()) && indexes != [] ==> (Agreement() <==> value.Some? && value.value != [])
    {
      UpdateIndexes(key, value);
      data := Written(data, key, value);
      if old(Agreement()) {
        forall i | 0 <= i < |indexes|
          ensures Agrees(indexes[i].mapper, Readable(data), indexes[i].data) <==> value.Some? && value.value != []
        {
          SetKeepsAgreement(indexes[i].mapper, old(data), old(indexes[i].data), key, value);
        }
        assert indexes != [] && !(value.Some? && value.value != []) ==>
            !Agrees(indexes[0].mapper, Readable(data), indexes[0].data);
      }
    }

    method Delete(key: Bytes)
      requires Valid()
      modifies this, indexes
      ensures data == old(data) - {key}
      ensures old(Agreement()) ==> Agreement()
    {
      DeleteIndexes(key);
      data := data - {key};
      if old(Agreement()) {
        forall i | 0 <= i < |indexes| ensures Agrees(indexes[i].mapper, Readable(data), indexes[i].data) {
          DeleteKeepsAgreement(indexes[i].mapper, old(data), old(indexes[i].data), key);
        }
      }
    }

    /**
     Drops every index entry and indexes each stored record again. Fails on an empty key, which the
     iterator hands over as nil.
     */
    method RebuildIndexes() returns (ok: bool)
      requires Valid()
      modifies indexes
      ensures ok <==> [] !in data
      ensures ok && (forall k | k in data :: data[k] != []) ==> Agreement()
    {
      for n := 0 to |indexes|
        invariant forall i :: 0 <= i < n ==> indexes[i].data == map[]
      {
        indexes[n].DeleteAll();
      }
      var todo, done := data.Keys, {};
      while todo != {}
        invariant todo !! done && todo + done == data.Keys && [] !in done
        invariant (forall k | k in data :: data[k] != []) ==>
                    forall i :: 0 <= i < |indexes| ==> Agrees(indexes[i].mapper, Part(done), indexes[i].data)
        decreases todo
      {
        var key :| key in todo;
        if |key| < 1 {
          return false;
        }
        ghost var before := Part(done);
        label indexing:
        UpdateIndexes(key, if data[key] == [] then None else Some(data[key]));
        todo, done := todo - {key}, done + {key};
        if forall k | k in data :: data[k] != [] {
          assert Readable(before) == before && Part(done) == before[key := data[key]] == Readable(Part(done));
          forall i | 0 <= i < |indexes| ensures Agrees(indexes[i].mapper, Part(done), indexes[i].data) {
            FirstIndexing(indexes[i].mapper, before, old@indexing(indexes[i].data), key, data[key]);
          }
        }
      }
      assert done == data.Keys;
      if forall k | k in data :: data[k] != [] {
        assert Part(done) == data == Readable(data);
      }
      ok := true;
    }

    // The records already iterated over
    ghost function Part(keys: set<Bytes>): Table
      reads this
    {
      map k | k in data && k in keys :: data[k]
    }

    /**
     The records found under a hash of the index's width are exactly those that map to it, in the order of their
     keys.
     */
    method GetIndexedRecords(n: nat, hash: Bytes) returns (records: seq<(Bytes, Bytes)>)
      requires n < |indexes| && FixedWidth(indexes[n].mapper, |hash|) && Agreement()
      ensures forall i, j :: 0 <= i < j < |records| ==> Less(records[i].0, records[j].0)
      ensures forall k, v :: (k, v) in records <==>
                               k in Readable(data) && v == data[k] && indexes[n].mapper(k, Some(v)) == hash
    {
      hide Less;
      var idx := indexes[n];
      var keys := idx.Values(hash);
      ghost var entries :| idx.Scanned(hash, entries, keys);
      EntriesOfRecords(idx.mapper, Readable(data), idx.data, hash, entries, keys);
      records := [];
      for i := 0 to |keys|
        invariant |records| == i
        invariant forall j :: 0 <= j < i ==> keys[j] in Readable(data) && records[j] == (keys[j], data[keys[j]])
      {
        var value := Get(keys[i]);
        assert keys[i] in keys;
        records := records + [(keys[i], value.value)];
      }
      forall k, v ensures (k, v) in records <==> k in Readable(data) && v == data[k] && idx.mapper(k, Some(v)) == hash {
        if k in Readable(data) && v == data[k] && idx.mapper(k, Some(v)) == hash {
          assert k in keys;
          var i :| 0 <= i < |keys| && keys[i] == k;
          assert records[i] == (k, v);
        }
        if (k, v) in records {
          var i :| 0 <= i < |records| && records[i] == (k, v);
          assert keys[i] in keys;
        }
      }
    }
  }

  // The entries under a hash of the index's width stand for exactly the records that map to it
  lemma EntriesOfRecords(mapper: Mapper, t: Table, index: IndexTable, hash: Bytes, entries: seq<Bytes>,
                         keys: seq<Bytes>)
    requires FixedWidth(mapper, |hash|) && Agrees(mapper, t, index)
    requires |entries| == |keys| && Rising(entries) && forall e :: e in entries <==> e in index && hash <= e
    requires forall i :: 0 <= i < |entries| ==> entries[i] in index && keys[i] == index[entries[i]]
    ensures forall k :: k in keys <==> k in t && mapper(k, Some(t[k])) == hash
    ensures Rising(keys)
  {
    hide Less;
    forall i | 0 <= i < |keys|
      ensures keys[i] in t && mapper(keys[i], Some(t[keys[i]])) == hash && entries[i] == hash + keys[i]
    {
      var k := keys[i];
      assert entries[i] in entries && entries[i] == mapper(k, Some(t[k])) + k;
      assert entries[i][..|hash|] == mapper(k, Some(t[k])) == hash;
    }
    forall k | k in t && mapper(k, Some(t[k])) == hash ensures k in keys {
      var e := EntryKey(mapper, k, Some(t[k]));
      assert e in index && hash <= e && index[e] == k && e in entries;
      var i :| 0 <= i < |entries| && entries[i] == e;
      assert keys[i] == k;
    }
    forall i, j | 0 <= i < j < |keys| ensures Less(keys[i], keys[j]) {
      LessAfterPrefix(hash, keys[i], keys[j]);
    }
  }

  // Indexing a record while the index already agrees without it, whatever the store says of it
  lemma FirstIndexing(mapper: Mapper, t: Table, index: IndexTable, key: Bytes, value: Bytes)
    requires Separates(mapper) && Agrees(mapper, t, index) && key !in t && value != []
    requires forall k | k in t :: t[k] != []
    ensures Agrees(mapper, t[key := value], Reindexed(mapper, index, key, Some(value), Some(value)))
  {
    var e := EntryKey(mapper, key, Some(value));
    assert e !in index;
    assert index - {e} == index;
  }
}
