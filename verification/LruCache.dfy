/** The cache object of lru_cache.go over the LRU library: a recency list, a table and a size. The
    library runs the eviction callback after an entry has left, so every method that can remove
    entries returns them, for its caller to run the callback on. */
module LruCache {
  import opened Pdata
  import opened Lru

  class LruCache<V> {
    var order: seq<TraceID>
    var items: map<TraceID, V>
    var size: nat
    var hits: nat
    var misses: nat

    ghost function View(): Lru<V>
      reads this
    {
      Lru(order, items, size)
    }

    ghost predicate Valid()
      reads this
    {
      View().Valid()
    }

    constructor (n: nat)
      requires n > 0
      ensures Valid() && View() == Empty(n)
      ensures hits == 0 && misses == 0
    {
      order, items, size, hits, misses := [], map[], n, 0, 0;
    }

    method Get(id: TraceID) returns (r: Option<V>)
      requires Valid()
      modifies this
      ensures Valid() && View() == old(View()).Touched(id)
      ensures r == old(View()).Lookup(id)
      ensures hits + misses == old(hits + misses) + 1 && (hits == old(hits) + 1 <==> r.Some?)
    {
      TouchedValid(View(), id);
      if id in items {
        order := Without(order, id) + [id];
        hits := hits + 1;
        r := Some(items[id]);
      } else {
        misses := misses + 1;
        r := None;
      }
    }

    /** `Put`, returning the entry that fell off the end, if any. */
    method Put(id: TraceID, v: V) returns (evicted: Option<(TraceID, V)>)
      requires Valid()
      modifies this`order, this`items
      ensures Valid() && View() == old(View()).Added(id, v)
      ensures evicted == old(View()).Victim(id, v)
    {
      AddedValid(View(), id, v);
      if id in items {
        order, items := Without(order, id) + [id], items[id := v];
        return None;
      }
      order, items := order + [id], items[id := v];
      if |order| > size {
        var oldest := order[0];
        evicted := Some((oldest, items[oldest]));
        order, items := order[1..], items - {oldest};
      } else {
        evicted := None;
      }
    }

    /** `Delete`, returning the value removed, if any. */
    method Delete(id: TraceID) returns (removed: Option<V>)
      requires Valid()
      modifies this`order, this`items
      ensures Valid() && View() == old(View()).Removed(id)
      ensures removed == old(View()).Lookup(id)
    {
      RemovedValid(View(), id);
      if id in items {
        removed := Some(items[id]);
        order, items := Without(order, id), items - {id};
      } else {
        removed := None;
      }
    }

    /** Least recently used first. */
    method Keys() returns (r: seq<TraceID>)
      ensures r == View().order
    {
      r := order;
    }

    method Clear()
      modifies this`order, this`items
      ensures View() == Empty(old(size))
    {
      order, items := [], map[];
    }

    /** `Resize`: all the victims leave before any callback runs. */
    method Resize(n: nat) returns (evicted: seq<(TraceID, V)>)
      requires Valid()
      modifies this`order, this`items, this`size
      ensures Valid() && View() == old(View()).Resized(n)
      ensures evicted == old(View()).Victims(n)
    {
      ResizedValid(View(), n);
      evicted := RemoveOldest(if |order| > n then |order| - n else 0);
      size := n;
    }

    method RemoveOldest(k: nat) returns (evicted: seq<(TraceID, V)>)
      requires Valid() && k <= |order|
      modifies this`order, this`items
      ensures order == old(order)[k..] && items == DropOldest(old(View()), k)
      ensures |evicted| == k
      ensures forall i :: 0 <= i < k ==>
                old(order)[i] in old(items) && evicted[i] == (old(order)[i], old(items)[old(order)[i]])
    {
      ghost var was := View();
      evicted := [];
      DropNone(was);
      var i := 0;
      while i < k
        invariant i <= k && |evicted| == i
        invariant order == was.order[i..] && items == DropOldest(was, i)
        invariant forall j :: 0 <= j < i ==>
                    was.order[j] in was.vals && evicted[j] == (was.order[j], was.vals[was.order[j]])
      {
        var oldest := order[0];
        DropNext(was, i);
        evicted := evicted + [(oldest, items[oldest])];
        order, items := order[1..], items - {oldest};
        i := i + 1;
      }
    }
  }

  /** The table of `c` without its `k` oldest entries. */
  ghost function DropOldest<V>(c: Lru<V>, k: nat): map<TraceID, V>
    requires k <= |c.order|
  {
    map x | x in c.vals && x !in c.order[..k] :: c.vals[x]
  }

  lemma DropNone<V>(c: Lru<V>)
    ensures DropOldest(c, 0) == c.vals
  {
  }

  lemma DropNext<V>(c: Lru<V>, k: nat)
    requires c.Valid() && k < |c.order|
    ensures c.order[k] in DropOldest(c, k) && DropOldest(c, k)[c.order[k]] == c.vals[c.order[k]]
    ensures DropOldest(c, k + 1) == DropOldest(c, k) - {c.order[k]}
  {
    SplitDisjoint(c.order, k, c.order[k]);
    assert c.order[k] in c.order[k..];
    assert c.order[..k + 1] == c.order[..k] + [c.order[k]];
  }

  /** `NewLRUCache` refuses a size that is not positive. */
  method NewLRUCache<V>(size: int) returns (r: Result<LruCache<V>>)
    ensures r.Ok? <==> size > 0
    ensures r.Ok? ==> fresh(r.value) && r.value.Valid() && r.value.View() == Empty(size)
  {
    if size <= 0 {
      return Err("must provide a positive size");
    }
    var c := new LruCache<V>(size);
    r := Ok(c);
  }
}
