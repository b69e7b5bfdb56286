/** The least-recently-used cache as a value: `order` is the recency list, oldest key first, and
    `vals` the table. This is the specification of the library class behind lru_cache.go. */
module Lru {
  import opened Pdata

  ghost predicate NoDup(s: seq<TraceID>) {
    forall i, j :: 0 <= i < j < |s| ==> s[i] != s[j]
  }

  function IndexOf(s: seq<TraceID>, x: TraceID): (i: nat)
    requires x in s
    ensures i < |s| && s[i] == x
  {
    if s[0] == x then 0 else 1 + IndexOf(s[1..], x)
  }

  /** `s` with an occurrence of `x` taken out. */
  function Without(s: seq<TraceID>, x: TraceID): seq<TraceID> {
    if x in s then s[..IndexOf(s, x)] + s[IndexOf(s, x) + 1..] else s
  }

  datatype Lru<V> = Lru(order: seq<TraceID>, vals: map<TraceID, V>, cap: nat) {

    ghost predicate Valid() {
      && NoDup(order)
      && (forall x :: x in order <==> x in vals)
      && |order| <= cap
    }

    /** What `Get` does to the recency order: a hit becomes the newest entry. */
    function Touched(id: TraceID): Lru<V> {
      if id in vals then this.(order := Without(order, id) + [id]) else this
    }

    function Lookup(id: TraceID): Option<V> {
      if id in vals then Some(vals[id]) else None
    }

    function Removed(id: TraceID): Lru<V> {
      if id in vals then Lru(Without(order, id), vals - {id}, cap) else this
    }

    /** `Add`: an existing key is overwritten and becomes newest, without an eviction; a new key
        is pushed as newest and, if the list is now too long, the oldest entry leaves. */
    function Added(id: TraceID, v: V): Lru<V> {
      if id in vals then Lru(Without(order, id) + [id], vals[id := v], cap)
      else if |order| + 1 > cap then
        Lru((order + [id])[1..], vals[id := v] - {(order + [id])[0]}, cap)
      else Lru(order + [id], vals[id := v], cap)
    }

    /** The entry that `Added` evicts: with capacity 0 that is the new entry itself. */
    function Victim(id: TraceID, v: V): Option<(TraceID, V)>
      requires Valid()
    {
      if id in vals || |order| + 1 <= cap then None
      else if order == [] then Some((id, v))
      else Some((order[0], vals[order[0]]))
    }

    /** Overwrites the value held for `id` where it is: what mutating a held object amounts to. */
    function Mutated(id: TraceID, v: V): Lru<V>
      requires id in vals
    {
      this.(vals := vals[id := v])
    }

    function Excess(n: nat): nat {
      if |order| > n then |order| - n else 0
    }

    /** The entries that `Resized` evicts, oldest first. */
    function Victims(n: nat): seq<(TraceID, V)>
      requires Valid()
    {
      seq(Excess(n), i requires 0 <= i < Excess(n) => (order[i], vals[order[i]]))
    }

    /** `Resize`: the oldest entries leave until at most `n` remain. */
    function Resized(n: nat): Lru<V> {
      Lru(order[Excess(n)..], map x | x in vals && x !in order[..Excess(n)] :: vals[x], n)
    }
  }

  function Empty<V>(cap: nat): Lru<V> {
    Lru([], map[], cap)
  }

  // ----- Without -----

  lemma WithoutProps(s: seq<TraceID>, x: TraceID)
    requires NoDup(s)
    ensures NoDup(Without(s, x))
    ensures forall y :: y in Without(s, x) <==> y in s && y != x
    ensures |Without(s, x)| == if x in s then |s| - 1 else |s|
  {
    if x in s {
      var k := IndexOf(s, x);
      var w := Without(s, x);
      forall y | y in s && y != x ensures y in w {
        var i :| 0 <= i < |s| && s[i] == y;
        assert w[if i < k then i else i - 1] == y;
      }
    }
  }

  // ----- every operation keeps the cache well formed -----

  lemma TouchedValid<V>(c: Lru<V>, id: TraceID)
    requires c.Valid()
    ensures c.Touched(id).Valid()
  {
    WithoutProps(c.order, id);
  }

  lemma RemovedValid<V>(c: Lru<V>, id: TraceID)
    requires c.Valid()
    ensures c.Removed(id).Valid()
    ensures c.Removed(id).vals.Keys == c.vals.Keys - {id}
  {
    WithoutProps(c.order, id);
  }

  /** `Added` keeps the cache within capacity; it holds the new entry unless capacity is 0, loses
      at most the victim, and changes no other value. */
  lemma AddedValid<V>(c: Lru<V>, id: TraceID, v: V)
    requires c.Valid()
    ensures c.Added(id, v).Valid()
    ensures c.Added(id, v).vals ==
            (if c.Victim(id, v).Some? then c.vals[id := v] - {c.Victim(id, v).value.0} else c.vals[id := v])
    ensures c.cap > 0 ==> id in c.Added(id, v).vals
    ensures c.Victim(id, v).Some? ==> id !in c.vals && c.Victim(id, v).value.0 !in c.Added(id, v).vals
    ensures c.Victim(id, v).Some? && c.cap > 0 ==>
              c.Victim(id, v).value.0 in c.vals && c.Victim(id, v).value.0 != id
  {
    if id in c.vals {
      WithoutProps(c.order, id);
    } else if |c.order| + 1 > c.cap {
      var o := c.order + [id];
      assert NoDup(o);
      OldestLeaves(o);
      assert c.order != [] ==> o[0] == c.order[0] && c.order[0] in c.order;
    }
  }

  /** What is left without an entry: those before it and those after it. */
  lemma WithoutSplits(s: seq<TraceID>, k: nat)
    requires NoDup(s) && k < |s|
    ensures Without(s, s[k]) == s[..k] + s[k + 1..]
  {
    assert IndexOf(s, s[k]) == k;
  }

  /** The recency order: the entry is the newest afterwards, whether it was new or overwritten, and the
      others keep their order; only a new entry in a full cache evicts, and that is the oldest. */
  lemma AddedOrder<V>(c: Lru<V>, id: TraceID, v: V)
    requires c.Valid() && c.cap > 0
    ensures var full := |c.order| == c.cap;
            var rest := if id in c.vals then Without(c.order, id) else if full then c.order[1..] else c.order;
            && c.Added(id, v).order == rest + [id]
            && (id !in c.vals && full ==>
                  c.order[0] in c.vals && c.Victim(id, v) == Some((c.order[0], c.vals[c.order[0]])))
            && (id in c.vals || !full ==> c.Victim(id, v).None?)
  {
    if id !in c.vals && |c.order| == c.cap {
      assert c.order[0] in c.order;
      assert (c.order + [id])[1..] == c.order[1..] + [id];
    }
  }

  lemma OldestLeaves(o: seq<TraceID>)
    requires NoDup(o) && o != []
    ensures NoDup(o[1..])
    ensures forall x :: x in o[1..] <==> x in o && x != o[0]
  {
    assert o == [o[0]] + o[1..];
  }

  /** `Resized` drops exactly the oldest entries, in order, and keeps the rest as they were. */
  lemma ResizedValid<V>(c: Lru<V>, n: nat)
    requires c.Valid()
    ensures c.Resized(n).Valid()
    ensures forall x :: x in c.Resized(n).vals <==> x in c.vals && x !in c.order[..c.Excess(n)]
    ensures forall x :: x in c.Resized(n).vals ==> c.Resized(n).vals[x] == c.vals[x]
  {
    var k := c.Excess(n);
    forall x ensures x in c.order[k..] <==> x in c.order && x !in c.order[..k] {
      SplitDisjoint(c.order, k, x);
    }
  }

  lemma SplitDisjoint(s: seq<TraceID>, k: nat, x: TraceID)
    requires NoDup(s) && k <= |s|
    ensures x in s[k..] <==> x in s && x !in s[..k]
  {
    assert s == s[..k] + s[k..];
  }

  // ----- room: a cache that can hold every ID of a universe never forgets -----

  /** All keys come from `u`, and the cache could hold all of `u`. */
  ghost predicate Roomy<V>(c: Lru<V>, u: set<TraceID>) {
    c.Valid() && c.vals.Keys <= u && |u| <= c.cap
  }

  lemma {:induction false} NoDupCard(s: seq<TraceID>, u: set<TraceID>)
    requires NoDup(s)
    requires forall x :: x in s ==> x in u
    ensures |s| <= |u|
  {
    if s != [] {
      var n := |s| - 1;
      assert s[..n] + [s[n]] == s;
      forall x | x in s[..n] ensures x in u - {s[n]} {
        var i :| 0 <= i < n && s[..n][i] == x;
      }
      NoDupCard(s[..n], u - {s[n]});
    }
  }

  lemma AddRoomy<V>(c: Lru<V>, id: TraceID, v: V, u: set<TraceID>)
    requires Roomy(c, u) && id in u
    ensures Roomy(c.Added(id, v), u)
    ensures c.Victim(id, v) == None
    ensures c.Added(id, v).vals == c.vals[id := v]
  {
    AddedValid(c, id, v);
    if id !in c.vals {
      NoDupCard(c.order, u - {id});
    }
  }

  // ----- adding several keys -----

  function AddAll(c: Lru<()>, ids: seq<TraceID>): Lru<()> {
    if ids == [] then c else AddAll(c, ids[..|ids| - 1]).Added(ids[|ids| - 1], ())
  }

  lemma {:induction false} AddAllKeys(c: Lru<()>, ids: seq<TraceID>)
    requires c.Valid()
    ensures AddAll(c, ids).Valid() && AddAll(c, ids).cap == c.cap
    ensures forall x :: x in AddAll(c, ids).vals ==> x in c.vals || x in ids
  {
    if ids != [] {
      var n := |ids| - 1;
      AddAllKeys(c, ids[..n]);
      AddedValid(AddAll(c, ids[..n]), ids[n], ());
    }
  }

  lemma {:induction false} AddAllFits(c: Lru<()>, ids: seq<TraceID>)
    requires c.Valid() && NoDup(c.order + ids) && |c.order| + |ids| <= c.cap
    ensures AddAll(c, ids).Valid() && AddAll(c, ids).order == c.order + ids && AddAll(c, ids).cap == c.cap
  {
    if ids == [] {
      assert c.order + ids == c.order;
    } else {
      var n := |ids| - 1;
      AppendLast(c.order, ids);
      assert (c.order + ids)[..|c.order| + n] == c.order + ids[..n];
      AddAllFits(c, ids[..n]);
      var c1 := AddAll(c, ids[..n]);
      AddedValid(c1, ids[n], ());
      LastIsNew(c1.order, ids[n]);
    }
  }

  lemma LastIsNew(s: seq<TraceID>, x: TraceID)
    requires NoDup(s + [x])
    ensures x !in s
  {
    forall i | 0 <= i < |s| ensures s[i] != x {
      assert (s + [x])[i] == s[i] && (s + [x])[|s|] == x;
    }
  }

  /** With new keys only, what remains is the end of the old keys followed by the new ones. */
  lemma {:induction false} AddAllSuffix(c: Lru<()>, ids: seq<TraceID>) returns (k: nat)
    requires c.Valid() && NoDup(c.order + ids)
    ensures k <= |c.order + ids|
    ensures AddAll(c, ids).Valid() && AddAll(c, ids).order == (c.order + ids)[k..] && AddAll(c, ids).cap == c.cap
  {
    if ids == [] {
      k := 0;
      assert c.order + ids == c.order;
    } else {
      var n := |ids| - 1;
      AppendLast(c.order, ids);
      NoDupPrefix(c.order + ids[..n], ids[n]);
      k := AddAllSuffix(c, ids[..n]);
      k := SuffixNext(AddAll(c, ids[..n]), c.order + ids[..n], k, ids[n]);
    }
  }

  lemma SuffixNext(c: Lru<()>, all: seq<TraceID>, k: nat, x: TraceID) returns (m: nat)
    requires k <= |all| && c.Valid() && c.order == all[k..] && x !in all
    ensures m <= |all| + 1
    ensures c.Added(x, ()).Valid() && c.Added(x, ()).order == (all + [x])[m..] && c.Added(x, ()).cap == c.cap
  {
    AddedValid(c, x, ());
    assert x !in c.order;
    assert (all + [x])[k..] == c.order + [x];
    m := k;
    if |c.order| + 1 > c.cap {
      m := k + 1;
      assert (all + [x])[k..][1..] == (all + [x])[m..];
    }
  }

  lemma NoDupPrefix(s: seq<TraceID>, x: TraceID)
    requires NoDup(s + [x])
    ensures NoDup(s) && x !in s
  {
    LastIsNew(s, x);
    forall i, j | 0 <= i < j < |s| ensures s[i] != s[j] {
      assert (s + [x])[i] == s[i] && (s + [x])[j] == s[j];
    }
  }

  // ----- recency -----

  /** The order lists keys by nondecreasing `time`. */
  ghost predicate OrderedBy(s: seq<TraceID>, time: map<TraceID, nat>) {
    && (forall x :: x in s ==> x in time)
    && (forall i, j :: 0 <= i < j < |s| ==> time[s[i]] <= time[s[j]])
  }

  /** Taking a key out keeps the order of the others. */
  lemma WithoutOrdered(s: seq<TraceID>, x: TraceID, time: map<TraceID, nat>)
    requires NoDup(s) && OrderedBy(s, time)
    ensures OrderedBy(Without(s, x), time)
  {
    WithoutProps(s, x);
  }

  lemma TailOrdered(s: seq<TraceID>, k: nat, time: map<TraceID, nat>)
    requires OrderedBy(s, time) && k <= |s|
    ensures OrderedBy(s[k..], time)
  {
    forall x | x in s[k..] ensures x in time { assert x in s; }
  }
}
