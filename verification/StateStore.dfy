/**
 One state store of a task: the base backend and the write cache in front of it.

 Reads go through the cache; a flush moves the cache into the base, a reset empties it. A
 logged write appends to the changelog first and touches the cache only if that succeeded.
 */
module StateStore {
  import opened Basics
  import opened Changelog
  import opened TxProducer

  // What the cache holds for a key it has been told about
  datatype Cell = Deleted | Written(value: Bytes)

  type Overlay = map<Bytes, Cell>

  // The indexed batch: the base seen through the pending writes
  function Patch(base: Table, overlay: Overlay): Table {
    map k | k in base.Keys + overlay.Keys && (k in overlay ==> overlay[k].Written?)
      :: if k in overlay then overlay[k].value else base[k]
  }

  lemma PatchWrite(base: Table, overlay: Overlay, key: Bytes, value: Bytes)
    ensures Readable(Patch(base, overlay[key := Written(value)])) == Update(Readable(Patch(base, overlay)), key, value)
  {
    assert Patch(base, overlay[key := Written(value)]) == Patch(base, overlay)[key := value];
    ReadableSet(Patch(base, overlay), key, value);
  }

  lemma PatchDelete(base: Table, overlay: Overlay, key: Bytes)
    ensures Readable(Patch(base, overlay[key := Deleted])) == Update(Readable(Patch(base, overlay)), key, [])
  {
    assert Patch(base, overlay[key := Deleted]) == Update(Patch(base, overlay), key, []);
    ReadableUpdate(Patch(base, overlay), key, []);
  }

  class Store {
    var base: Table
    var overlay: Overlay

    // What the processors read
    function View(): Table
      reads this
    {
      Readable(Patch(base, overlay))
    }

    // What is left when the cache is lost
    function BaseView(): Table
      reads this
    {
      Readable(base)
    }

    constructor (base: Table)
      ensures this.base == base && overlay == map[]
      ensures View() == BaseView()
    {
      this.base, overlay := base, map[];
      new;
      assert Patch(base, map[]) == base;
    }

    method Get(key: Bytes) returns (value: Option<Bytes>)
      ensures value == if key in View() then Some(View()[key]) else None
    {
      if key in overlay {
        value := if overlay[key].Written? && overlay[key].value != [] then Some(overlay[key].value) else None;
      } else {
        value := if key in base && base[key] != [] then Some(base[key]) else None;
      }
    }

    method Set(key: Bytes, value: Bytes)
      modifies this`overlay
      ensures View() == Update(old(View()), key, value)
    {
      PatchWrite(base, overlay, key, value);
      overlay := overlay[key := Written(value)];
    }

    method Delete(key: Bytes)
      modifies this`overlay
      ensures View() == Update(old(View()), key, [])
    {
      PatchDelete(base, overlay, key);
      overlay := overlay[key := Deleted];
    }

    /** The dual write: changelog first, cache only after it succeeded. */
    method SetLogged(id: nat, key: Bytes, value: Bytes, producer: Producer) returns (o: Outcome)
      requires producer.Valid()
      modifies this`overlay, producer
      ensures producer.Valid() && producer.inited == old(producer.inited)
      ensures Spends(old(producer.faults), producer.faults)
      ensures (o.Failed? ==> |producer.faults| < |old(producer.faults)|)
      ensures old(producer.InStep()) ==> !producer.misused && (!o.Done? ==> |producer.faults| < |old(producer.faults)|)
      ensures o.Done? ==> producer.txBegin && producer.open
      ensures o.Done? ==> producer.cluster ==
                          old(producer.cluster).(pending := old(producer.cluster).pending + [Put(id, key, value)])
      ensures o.Done? ==> View() == Update(old(View()), key, value)
      ensures !o.Done? ==> producer.cluster == old(producer.cluster) && overlay == old(overlay)
      ensures o.Failed? ==> !producer.txBegin && producer.open
      ensures o.Failed? && o.error.Plain? ==> Refusals(producer.faults) < Refusals(old(producer.faults))
      ensures o.Crashed? && old(producer.txBegin) ==> Deadly(old(producer.faults))
      ensures o.Crashed? && old(producer.inited && producer.txBegin == producer.open) ==>
                !Survivable(old(producer.faults))
      ensures old(producer.Steady()) ==>
                && (o.Crashed? <==> !old(producer.txBegin) && !Clear(old(producer.faults), 1))
                && (o.Failed? ==> Clear(producer.faults, 3))
      ensures old(producer.Steady()) && Clear(old(producer.faults), Writes(old(producer.txBegin))) ==>
                o.Done? && producer.faults == After(old(producer.faults), Writes(old(producer.txBegin)))
    {
      o := producer.ProduceAsync(Put(id, key, value));
      if o.Done? {
        Set(key, value);
      }
    }

    method DeleteLogged(id: nat, key: Bytes, producer: Producer) returns (o: Outcome)
      requires producer.Valid()
      modifies this`overlay, producer
      ensures producer.Valid() && producer.inited == old(producer.inited)
      ensures Spends(old(producer.faults), producer.faults)
      ensures (o.Failed? ==> |producer.faults| < |old(producer.faults)|)
      ensures old(producer.InStep()) ==> !producer.misused && (!o.Done? ==> |producer.faults| < |old(producer.faults)|)
      ensures o.Done? ==> producer.txBegin && producer.open
      ensures o.Done? ==> producer.cluster ==
                          old(producer.cluster).(pending := old(producer.cluster).pending + [Remove(id, key)])
      ensures o.Done? ==> View() == Update(old(View()), key, [])
      ensures !o.Done? ==> producer.cluster == old(producer.cluster) && overlay == old(overlay)
      ensures o.Failed? ==> !producer.txBegin && producer.open
      ensures o.Failed? && o.error.Plain? ==> Refusals(producer.faults) < Refusals(old(producer.faults))
      ensures o.Crashed? && old(producer.txBegin) ==> Deadly(old(producer.faults))
      ensures o.Crashed? && old(producer.inited && producer.txBegin == producer.open) ==>
                !Survivable(old(producer.faults))
      ensures old(producer.Steady()) ==>
                && (o.Crashed? <==> !old(producer.txBegin) && !Clear(old(producer.faults), 1))
                && (o.Failed? ==> Clear(producer.faults, 3))
      ensures old(producer.Steady()) && Clear(old(producer.faults), Writes(old(producer.txBegin))) ==>
                o.Done? && producer.faults == After(old(producer.faults), Writes(old(producer.txBegin)))
    {
      o := producer.ProduceAsync(Remove(id, key));
      if o.Done? {
        Delete(key);
      }
    }

    // Commits the batch to the base. The batch itself is emptied by ResetCache.
    method Flush()
      modifies this`base
      ensures base == Patch(old(base), overlay)
      ensures View() == BaseView() == old(View())
    {
      base := Patch(base, overlay);
      assert Patch(base, overlay) == base;
    }

    method ResetCache()
      modifies this`overlay
      ensures overlay == map[] && View() == BaseView()
    {
      overlay := map[];
      assert Patch(base, map[]) == base;
    }

    /** Applies changelog records to the base, as the syncer does while a task is restored. */
    method Restore(id: nat, log: seq<Effect>)
      modifies this
      ensures overlay == map[] && View() == BaseView()
      ensures BaseView() == Replay(old(BaseView()), id, log)
    {
      overlay := map[];
      for i := 0 to |log|
        invariant overlay == map[]
        invariant Readable(base) == Replay(old(Readable(base)), id, log[..i])
      {
        assert log[..i + 1][..i] == log[..i];
        if WritesTo(log[i], id) {
          ReadableUpdate(base, log[i].key, LoggedValue(log[i]));
          base := if LoggedValue(log[i]) == [] then base - {log[i].key} else base[log[i].key := LoggedValue(log[i])];
        }
      }
      assert log[..|log|] == log;
      assert Patch(base, map[]) == base;
    }
  }

  // --- All stores of a task together ---

  function ViewsOf(stores: seq<Store>): (vs: Views)
    reads stores
    ensures |vs| == |stores|
    ensures forall i :: 0 <= i < |vs| ==> vs[i] == stores[i].View()
  {
    seq(|stores|, i requires 0 <= i < |stores| reads stores => stores[i].View())
  }

  ghost function BaseViewsOf(stores: seq<Store>): (vs: Views)
    reads stores
    ensures |vs| == |stores|
    ensures forall i :: 0 <= i < |vs| ==> vs[i] == stores[i].BaseView()
  {
    seq(|stores|, i requires 0 <= i < |stores| reads stores => stores[i].BaseView())
  }
}
