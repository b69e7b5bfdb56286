/** One tier of pending traces: an LRU cache of references to trace objects, together with the
    value it stands for. */
module PendingTier {
  import opened Pdata
  import opened TraceValues
  import opened TraceObjects
  import opened Lru
  import opened LruCache

  /** `td` is an object of trace `x`, within `owned`, and has the value `e`. */
  ghost predicate HasValue(td: TraceData, x: TraceID, e: Entry, owned: set<object>)
    reads owned
  {
    td.BelongsTo(x) && td.Repr() <= owned && td.View() == e
  }

  /** The cache of references `c` stands for the cache of values `l`. */
  ghost predicate Models(c: Lru<TraceData>, l: Lru<Entry>, owned: set<object>)
    reads owned
  {
    && c.Valid() && l.Valid()
    && c.order == l.order && c.cap == l.cap && c.vals.Keys == l.vals.Keys
    && (forall x :: x in c.vals ==> HasValue(c.vals[x], x, l.vals[x], owned))
  }

  ghost predicate SameVictim(c: Option<(TraceID, TraceData)>, l: Option<(TraceID, Entry)>)
    reads if c.Some? then c.value.1.Repr() else {}
  {
    if c.None? then l.None? else l == Some((c.value.0, c.value.1.View()))
  }

  /** `SameVictim` for every entry that a resize evicts. */
  ghost predicate SameVictims(evicted: seq<(TraceID, TraceData)>, victims: seq<(TraceID, Entry)>, owned: set<object>)
    reads owned
  {
    && |evicted| == |victims|
    && (forall i :: 0 <= i < |evicted| ==>
          evicted[i].1.Repr() <= owned && SameVictim(Some(evicted[i]), Some(victims[i])))
  }

  lemma TouchedModels(c: Lru<TraceData>, l: Lru<Entry>, owned: set<object>, id: TraceID)
    requires Models(c, l, owned)
    ensures Models(c.Touched(id), l.Touched(id), owned)
  {
    TouchedValid(c, id);
    TouchedValid(l, id);
  }

  lemma RemovedModels(c: Lru<TraceData>, l: Lru<Entry>, owned: set<object>, id: TraceID)
    requires Models(c, l, owned)
    ensures Models(c.Removed(id), l.Removed(id), owned)
  {
    RemovedValid(c, id);
    RemovedValid(l, id);
  }

  lemma AddedModels(c: Lru<TraceData>, l: Lru<Entry>, owned: set<object>, id: TraceID, td: TraceData)
    requires Models(c, l, owned) && td.BelongsTo(id)
    ensures Models(c.Added(id, td), l.Added(id, td.View()), owned + td.Repr())
  {
    AddedValid(c, id, td);
    AddedValid(l, id, td.View());
    var c', l' := c.Added(id, td), l.Added(id, td.View());
    forall x | x in c'.vals ensures HasValue(c'.vals[x], x, l'.vals[x], owned + td.Repr()) {
      if x != id { assert HasValue(c.vals[x], x, l.vals[x], owned); }
    }
  }

  /** What an eviction hands to the callback has the value that the model evicts. */
  lemma VictimModels(c: Lru<TraceData>, l: Lru<Entry>, owned: set<object>, id: TraceID, td: TraceData)
    requires Models(c, l, owned)
    ensures SameVictim(c.Victim(id, td), l.Victim(id, td.View()))
    ensures c.Victim(id, td).Some? ==> c.Victim(id, td).value.1.Repr() <= owned + td.Repr()
  {
    if c.Victim(id, td).Some? && c.order != [] {
      assert c.order[0] in c.vals;
      assert HasValue(c.vals[c.order[0]], c.order[0], l.vals[c.order[0]], owned);
    }
  }

  lemma ResizedModels(c: Lru<TraceData>, l: Lru<Entry>, owned: set<object>, n: nat)
    requires Models(c, l, owned)
    ensures Models(c.Resized(n), l.Resized(n), owned)
  {
    ResizedValid(c, n);
    ResizedValid(l, n);
  }

  lemma VictimsModel(c: Lru<TraceData>, l: Lru<Entry>, owned: set<object>, n: nat)
    requires Models(c, l, owned)
    ensures SameVictims(c.Victims(n), l.Victims(n), owned)
  {
    forall i | 0 <= i < |c.Victims(n)|
      ensures c.Victims(n)[i].1.Repr() <= owned && SameVictim(Some(c.Victims(n)[i]), Some(l.Victims(n)[i]))
    {
      assert c.order[i] in c.vals;
      assert HasValue(c.vals[c.order[i]], c.order[i], l.vals[c.order[i]], owned);
    }
  }

  /** `Models`, except that the value of the entry of `id` is not the recorded one. */
  ghost predicate ModelsExcept(c: Lru<TraceData>, l: Lru<Entry>, owned: set<object>, id: TraceID)
    reads owned
  {
    && c.Valid() && l.Valid()
    && c.order == l.order && c.cap == l.cap && c.vals.Keys == l.vals.Keys
    && (forall x :: x in c.vals && x != id ==> HasValue(c.vals[x], x, l.vals[x], owned))
    && (id in c.vals ==> c.vals[id].BelongsTo(id) && c.vals[id].Repr() <= owned)
  }

  /** Resizing to the present capacity changes nothing. */
  lemma SameSize<V>(c: Lru<V>)
    requires c.Valid()
    ensures c.Resized(c.cap) == c && c.Victims(c.cap) == []
  {
    ResizedValid(c, c.cap);
    assert c.order[..0] == [];
    assert c.Resized(c.cap).vals == c.vals;
  }

  class PendingTier {
    const cache: LruCache<TraceData>
    ghost var entries: Lru<Entry>
    /** The objects of every entry that is, or was, held. */
    ghost var owned: set<object>

    ghost predicate Valid()
      reads this, cache, owned
    {
      && this !in owned && cache !in owned
      && Models(cache.View(), entries, owned)
    }

    constructor (size: nat)
      requires size > 0
      ensures Valid() && fresh(cache) && entries == Empty(size) && owned == {}
    {
      cache := new LruCache<TraceData>(size);
      entries, owned := Empty(size), {};
    }

    method Get(id: TraceID) returns (r: Option<TraceData>)
      requires Valid()
      modifies this`entries, cache
      ensures Valid() && entries == old(entries).Touched(id)
      ensures cache.items == old(cache.items)
      ensures r == if id in cache.items then Some(cache.items[id]) else None
      ensures r.Some? <==> id in entries.vals
      ensures r.Some? ==> HasValue(r.value, id, entries.vals[id], owned)
    {
      TouchedModels(cache.View(), entries, owned, id);
      r := cache.Get(id);
      entries := entries.Touched(id);
    }

    method Delete(id: TraceID) returns (removed: Option<TraceData>)
      requires Valid()
      modifies this`entries, cache
      ensures Valid() && entries == old(entries).Removed(id)
      ensures removed.Some? <==> id in old(entries).vals
      ensures removed.Some? ==> removed.value.Repr() <= owned && removed.value.View() == old(entries).vals[id]
    {
      if id in cache.items { assert HasValue(cache.items[id], id, entries.vals[id], owned); }
      RemovedModels(cache.View(), entries, owned, id);
      removed := cache.Delete(id);
      entries := entries.Removed(id);
    }

    method Put(id: TraceID, td: TraceData) returns (evicted: Option<(TraceID, TraceData)>)
      requires Valid() && td.BelongsTo(id)
      requires this !in td.Repr() && cache !in td.Repr()
      modifies this`entries, this`owned, cache
      ensures Valid() && entries == old(entries).Added(id, td.View())
      ensures owned == old(owned) + td.Repr()
      ensures SameVictim(evicted, old(entries).Victim(id, td.View()))
      ensures evicted.Some? ==> evicted.value.1.Repr() <= owned
    {
      AddedModels(cache.View(), entries, owned, id, td);
      VictimModels(cache.View(), entries, owned, id, td);
      ghost var c, l, o := cache.View().Added(id, td), entries.Added(id, td.View()), owned + td.Repr();
      assert Models(c, l, o);
      assert cache !in o;
      evicted := cache.Put(id, td);
      assert cache.View() == c;
      assert Models(c, l, o);
      assert Models(cache.View(), l, o);
      owned, entries := o, l;
      assert Models(cache.View(), entries, owned);
    }

    /** The victims are for the caller's callbacks. */
    method Resize(n: nat) returns (evicted: seq<(TraceID, TraceData)>)
      requires Valid()
      modifies this`entries, cache
      ensures Valid() && entries == old(entries).Resized(n)
      ensures SameVictims(evicted, old(entries).Victims(n), owned)
    {
      ResizedModels(cache.View(), entries, owned, n);
      VictimsModel(cache.View(), entries, owned, n);
      ghost var l := entries.Resized(n);
      evicted := cache.Resize(n);
      entries := l;
    }

    /** The part of `RegulateCacheSize` that applies a new size, if it is one. */
    method ResizeTo(n: nat) returns (evicted: seq<(TraceID, TraceData)>)
      requires Valid()
      modifies this`entries, cache
      ensures Valid() && entries == old(entries).Resized(n) && cache.size == n
      ensures SameVictims(evicted, old(entries).Victims(n), owned)
    {
      evicted := [];
      if n != cache.size {
        evicted := Resize(n);
      } else {
        SameSize(entries);
      }
    }

    /** Entries of other traces share nothing with the two objects that are about to be merged. */
    lemma Untouched(id: TraceID, held: TraceData, td: TraceData)
      requires Valid() && held.BelongsTo(id) && td.Repr() !! owned
      ensures forall x :: x in cache.items && x != id ==> cache.items[x].Repr() !! held.Repr() + td.Repr()
    {
      forall x | x in cache.items && x != id ensures cache.items[x].Repr() !! held.Repr() + td.Repr() {
        assert HasValue(cache.items[x], x, entries.vals[x], owned);
        DifferentTracesApart(cache.items[x], held, x, id);
      }
    }

    /** The recorded values once the object of trace `id` has been merged with another. */
    ghost function AfterMerge(id: TraceID, held: TraceData): Lru<Entry>
      reads this, cache, held.Repr()
    {
      if id in cache.items && id in entries.vals then entries.Mutated(id, held.View()) else entries
    }

    /** Records a merge. */
    ghost method NoteMerge(id: TraceID, held: TraceData)
      requires this !in owned && cache !in owned && this !in held.Repr()
      requires ModelsExcept(cache.View(), entries, owned, id)
      requires id in cache.items ==> cache.items[id] == held
      modifies this`entries
      ensures Valid() && entries == old(AfterMerge(id, held))
    {
      entries := AfterMerge(id, held);
    }
  }
}
