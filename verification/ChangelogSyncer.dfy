/**
 The loop that feeds a store from its changelog partition: first catching up, when an indexed
 store is only loaded and its indexes are rebuilt at the end, then live, record by record.
 */
module ChangelogSyncer {
  import opened Basics
  import opened Changelog
  import opened Indexes

  // What the partition consumer hands over; an empty value is a tombstone
  datatype Event = Logged(offset: nat, key: Bytes, value: Bytes) | PartitionEnd | ConsumerError

  ghost function Fold(t: Table, events: seq<Event>): Table {
    if events == [] then t
    else
      var before, e := Fold(t, events[..|events| - 1]), events[|events| - 1];
      if e.Logged? then Update(before, e.key, e.value) else before
  }

  // Stored values are never empty, and keys are never empty
  ghost predicate Clean(t: Table) {
    forall k | k in t :: k != [] && t[k] != []
  }

  ghost predicate CleanEvents(events: seq<Event>) {
    forall e | e in events && e.Logged? :: e.key != []
  }

  method UpdateStore(store: IndexedStore, key: Bytes, value: Bytes)
    modifies store
    ensures store.data == Update(old(store.data), key, value)
  {
    if |value| < 1 {
      store.data := store.data - {key};
    } else {
      store.data := store.data[key := value];
    }
  }

  /** A live changelog record, tombstones included, keeps every index in agreement. */
  method UpdateStoreWithIndex(store: IndexedStore, key: Bytes, value: Bytes)
    requires store.Valid()
    modifies store, store.indexes
    ensures store.data == Update(old(store.data), key, value)
    ensures old(store.Agreement()) ==> store.Agreement()
  {
    ghost var n := |store.indexes|;
    if |value| < 1 {
      store.DeleteIndexes(key);
      store.data := store.data - {key};
      if old(store.Agreement()) {
        forall i | 0 <= i < n ensures Agrees(store.indexes[i].mapper, Readable(store.data), store.indexes[i].data) {
          DeleteKeepsAgreement(store.indexes[i].mapper, old(store.data), old(store.indexes[i].data), key);
        }
      }
    } else {
      store.UpdateIndexes(key, Some(value));
      store.data := store.data[key := value];
      if old(store.Agreement()) {
        forall i | 0 <= i < n ensures Agrees(store.indexes[i].mapper, Readable(store.data), store.indexes[i].data) {
          SetKeepsAgreement(store.indexes[i].mapper, old(store.data), old(store.indexes[i].data), key, Some(value));
        }
      }
    }
  }

  /**
   Any changelog, wherever its end mark falls: the store is the fold of the records, and once the
   end mark was seen its indexes agree with it, if no key was empty. The remembered offset is that of a record already
   applied, and of the last one unless an indexed store was still catching up.
   */
  method StartSync(store: IndexedStore, events: seq<Event>, persistent: bool, resumed: Option<nat>)
    returns (committed: Option<nat>)
    requires store.Valid()
    modifies store, store.indexes
    ensures store.data == Fold(old(store.data), events)
    ensures PartitionEnd in events && old(Clean(store.data)) && CleanEvents(events) ==> store.Agreement()
    ensures !persistent ==> committed == resumed
    ensures committed == resumed || exists e :: e in events && e.Logged? && committed == Some(e.offset)
    ensures persistent && (store.indexes == [] || PartitionEnd !in events) && (exists e :: e in events && e.Logged?) ==>
              committed == if store.indexes == [] then LastOffset(events) else resumed
  {
    hide Agrees, Reindexed, Separates;
    committed := resumed;
    var syncing := true;
    for i := 0 to |events|
      invariant store.data == Fold(old(store.data), events[..i])
      invariant old(Clean(store.data)) && CleanEvents(events) ==> Clean(store.data) && (!syncing ==> store.Agreement())
      invariant !syncing <==> PartitionEnd in events[..i]
      invariant !persistent ==> committed == resumed
      invariant committed == resumed || exists e :: e in events[..i] && e.Logged? && committed == Some(e.offset)
      invariant persistent && store.indexes == [] && (exists e :: e in events[..i] && e.Logged?) ==>
                  committed == LastOffset(events[..i])
      invariant store.indexes != [] && syncing ==> committed == resumed
    {
      assert events[..i + 1][..i] == events[..i];
      assert events[..i + 1] == events[..i] + [events[i]];
      match events[i] {
        case Logged(offset, key, value) =>
          assert events[i] in events[..i + 1];
          if |store.indexes| > 0 {
            if syncing {
              UpdateStore(store, key, value);
              continue;
            }
            UpdateStoreWithIndex(store, key, value);
          } else {
            UpdateStore(store, key, value);
          }
          if persistent {
            committed := Some(offset);
          }
        case PartitionEnd =>
          if syncing {
            // the owner of the store rebuilds its indexes when told that it is synced
            var ok := store.RebuildIndexes();
            syncing := false;
          }
        case ConsumerError =>
      }
    }
    assert events[..|events|] == events;
  }

  ghost function LastOffset(events: seq<Event>): Option<nat> {
    if events == [] then None
    else
      var e := events[|events| - 1];
      if e.Logged? then Some(e.offset) else LastOffset(events[..|events| - 1])
  }

  /**
   Bulk equals incremental: loading a changelog and then rebuilding gives the same store and, index
   for index, the same tables as applying it record by record to a store whose indexes agree.
   */
  method BulkEqualsIncremental(bulk: IndexedStore, live: IndexedStore, events: seq<Event>)
    requires bulk.Valid() && live.Valid() && bulk != live
    requires bulk.data == live.data && Clean(bulk.data) && CleanEvents(events) && live.Agreement()
    requires |bulk.indexes| == |live.indexes|
    requires forall i :: 0 <= i < |bulk.indexes| ==> bulk.indexes[i].mapper == live.indexes[i].mapper
    requires forall i, j :: 0 <= i < |bulk.indexes| && 0 <= j < |live.indexes| ==> bulk.indexes[i] != live.indexes[j]
    modifies bulk, live, bulk.indexes, live.indexes
    ensures bulk.data == live.data
    ensures forall i :: 0 <= i < |bulk.indexes| ==> bulk.indexes[i].data == live.indexes[i].data
  {
    for i := 0 to |events|
      modifies bulk, live, live.indexes
      invariant bulk.data == live.data && Clean(bulk.data) && live.Agreement()
    {
      if events[i].Logged? {
        UpdateStore(bulk, events[i].key, events[i].value);
        UpdateStoreWithIndex(live, events[i].key, events[i].value);
      }
    }
    var ok := bulk.RebuildIndexes();
    forall i | 0 <= i < |bulk.indexes| ensures bulk.indexes[i].data == live.indexes[i].data {
      AgreementIsUnique(bulk.indexes[i].mapper, Readable(bulk.data), bulk.indexes[i].data, live.indexes[i].data);
    }
  }
}
