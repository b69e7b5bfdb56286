/** Splitting one ResourceSpans by trace ID, and moving one trace's spans back under a copy of the
    resource (processor_copied.go). */
module Grouping {
  import opened Pdata

  /** The instrumentation scope is shared by pointer; `ptr` is that identity, and two references
      with the same pointer see the same scope. */
  datatype ScopeRef = ScopeRef(ptr: nat, scope: Scope)

  datatype SpanAndScope = SpanAndScope(span: Span, scope: ScopeRef)

  // ----- grouping -----

  function ScopeRefs(j: nat, ss: ScopeSpans): seq<SpanAndScope> {
    seq(|ss.spans|, k requires 0 <= k < |ss.spans| => SpanAndScope(ss.spans[k], ScopeRef(j, ss.scope)))
  }

  /** All spans of the first `n` scopes, in order, each with a pointer to its scope. */
  function Refs(scopes: seq<ScopeSpans>, n: nat): seq<SpanAndScope>
    requires n <= |scopes|
  {
    if n == 0 then [] else Refs(scopes, n - 1) + ScopeRefs(n - 1, scopes[n - 1])
  }

  function Filter(refs: seq<SpanAndScope>, id: TraceID): (r: seq<SpanAndScope>)
  {
    if refs == [] then []
    else
      var last := refs[|refs| - 1];
      Filter(refs[..|refs| - 1], id) + (if last.span.traceID == id then [last] else [])
  }

  lemma FilterSnoc(refs: seq<SpanAndScope>, x: SpanAndScope, id: TraceID)
    ensures Filter(refs + [x], id) == Filter(refs, id) + (if x.span.traceID == id then [x] else [])
  {
    assert (refs + [x])[..|refs|] == refs;
  }

  ghost predicate IsGrouping(m: map<TraceID, seq<SpanAndScope>>, refs: seq<SpanAndScope>) {
    && (forall id :: id in m ==> m[id] == Filter(refs, id) && m[id] != [])
    && (forall x :: x in refs ==> x.span.traceID in m)
  }

  lemma AppendKeepsGrouping(m: map<TraceID, seq<SpanAndScope>>, refs: seq<SpanAndScope>, x: SpanAndScope)
    requires IsGrouping(m, refs)
    ensures var id := x.span.traceID;
            IsGrouping(m[id := (if id in m then m[id] else []) + [x]], refs + [x])
  {
    var id := x.span.traceID;
    var m' := m[id := (if id in m then m[id] else []) + [x]];
    if id !in m { FilterNone(refs, id); }
    forall k | k in m' ensures m'[k] == Filter(refs + [x], k) && m'[k] != [] {
      FilterSnoc(refs, x, k);
      if k != id { assert k in m; }
    }
    forall y | y in refs + [x] ensures y.span.traceID in m' {
      if y in refs { assert y.span.traceID in m; }
    }
  }

  lemma {:induction false} FilterNone(refs: seq<SpanAndScope>, id: TraceID)
    requires forall x :: x in refs ==> x.span.traceID != id
    ensures Filter(refs, id) == []
  {
    if refs != [] { FilterNone(refs[..|refs| - 1], id); }
  }

  /** `groupSpansByTraceID`: one bucket per trace ID present, each the filter of the spans by that
      ID, in order, with the pointer to the scope each span came from. */
  method GroupSpansByTraceID(rs: ResourceSpans) returns (idToSpans: map<TraceID, seq<SpanAndScope>>)
    ensures IsGrouping(idToSpans, Refs(rs.scopeSpans, |rs.scopeSpans|))
  {
    idToSpans := map[];
    ghost var seen := [];
    var j := 0;
    while j < |rs.scopeSpans|
      invariant j <= |rs.scopeSpans|
      invariant seen == Refs(rs.scopeSpans, j)
      invariant IsGrouping(idToSpans, seen)
    {
      idToSpans, seen := GroupScope(j, rs.scopeSpans[j], idToSpans, seen);
      j := j + 1;
    }
  }

  /** The inner loop: adds the spans of scope `j` to the buckets. */
  method GroupScope(j: nat, ss: ScopeSpans, m: map<TraceID, seq<SpanAndScope>>, ghost before: seq<SpanAndScope>)
    returns (idToSpans: map<TraceID, seq<SpanAndScope>>, ghost seen: seq<SpanAndScope>)
    requires IsGrouping(m, before)
    ensures seen == before + ScopeRefs(j, ss)
    ensures IsGrouping(idToSpans, seen)
  {
    idToSpans, seen := m, before;
    var k := 0;
    while k < |ss.spans|
      invariant k <= |ss.spans|
      invariant seen == before + ScopeRefs(j, ss)[..k]
      invariant IsGrouping(idToSpans, seen)
    {
      var span := ss.spans[k];
      var key := span.traceID;
      var x := SpanAndScope(span, ScopeRef(j, ss.scope));
      AppendKeepsGrouping(idToSpans, seen, x);
      idToSpans := idToSpans[key := (if key in idToSpans then idToSpans[key] else []) + [x]];
      seen := seen + [x];
      k := k + 1;
    }
  }

  // ----- moving -----

  /** `appendAndMoveToTraces` for one destination: the scopes built so far, with the source
      pointer of each. */
  datatype Moved = Moved(ptrs: seq<nat>, scopes: seq<ScopeSpans>)

  /** Some position of `p` in `ptrs`, or `|ptrs|`. */
  function Find(ptrs: seq<nat>, p: nat): (i: nat)
    ensures i <= |ptrs|
    ensures i < |ptrs| ==> ptrs[i] == p
    ensures i == |ptrs| <==> p !in ptrs
  {
    if ptrs == [] then 0
    else if ptrs[|ptrs| - 1] == p then |ptrs| - 1
    else
      var i := Find(ptrs[..|ptrs| - 1], p);
      assert p in ptrs ==> p in ptrs[..|ptrs| - 1];
      if i == |ptrs| - 1 then |ptrs| else i
  }

  function MoveOne(m: Moved, x: SpanAndScope): Moved
    requires |m.ptrs| == |m.scopes|
  {
    var i := Find(m.ptrs, x.scope.ptr);
    if i == |m.ptrs| then
      Moved(m.ptrs + [x.scope.ptr], m.scopes + [ScopeSpans(x.scope.scope, [x.span])])
    else
      m.(scopes := m.scopes[i := m.scopes[i].(spans := m.scopes[i].spans + [x.span])])
  }

  function Move(refs: seq<SpanAndScope>): (m: Moved)
    ensures |m.ptrs| == |m.scopes|
  {
    if refs == [] then Moved([], [])
    else MoveOne(Move(refs[..|refs| - 1]), refs[|refs| - 1])
  }

  /** The Traces that `appendAndMoveToTraces` builds from an empty destination. */
  function MoveToTraces(resource: Resource, refs: seq<SpanAndScope>): Traces {
    [ResourceSpans(resource, Move(refs).scopes)]
  }

  method AppendAndMoveToTraces(dest: Traces, resource: Resource, refs: seq<SpanAndScope>)
    returns (r: Traces)
    ensures r == dest + MoveToTraces(resource, refs)
  {
    var scopes: seq<ScopeSpans> := [];
    var scopePointerToNewScope: map<nat, nat> := map[];
    ghost var ptrs: seq<nat> := [];
    var i := 0;
    while i < |refs|
      invariant i <= |refs|
      invariant Move(refs[..i]) == Moved(ptrs, scopes)
      invariant Indexes(scopePointerToNewScope, ptrs)
    {
      assert refs[..i + 1] == refs[..i] + [refs[i]];
      MoveSnoc(refs[..i], refs[i]);
      scopes, scopePointerToNewScope, ptrs := MoveSpan(refs[i], scopes, scopePointerToNewScope, ptrs);
      i := i + 1;
    }
    assert refs[..i] == refs;
    r := dest + [ResourceSpans(resource, scopes)];
  }

  /** The body of the loop: moves one span into the copy of its scope, which it creates at need. */
  method MoveSpan(x: SpanAndScope, before: seq<ScopeSpans>, m: map<nat, nat>, ghost at: seq<nat>)
    returns (scopes: seq<ScopeSpans>, scopePointerToNewScope: map<nat, nat>, ghost ptrs: seq<nat>)
    requires |at| == |before| && Indexes(m, at)
    ensures |ptrs| == |scopes| && Moved(ptrs, scopes) == MoveOne(Moved(at, before), x)
    ensures Indexes(scopePointerToNewScope, ptrs)
  {
    scopes, scopePointerToNewScope, ptrs := before, m, at;
    var ptr := x.scope.ptr;
    if ptr !in scopePointerToNewScope {
      IndexesNext(scopePointerToNewScope, ptrs, ptr);
      scopes := scopes + [ScopeSpans(x.scope.scope, [x.span])];
      scopePointerToNewScope := scopePointerToNewScope[ptr := |scopes| - 1];
      ptrs := ptrs + [ptr];
    } else {
      var k := scopePointerToNewScope[ptr];
      assert k == Find(ptrs, ptr) < |ptrs|;
      scopes := scopes[k := scopes[k].(spans := scopes[k].spans + [x.span])];
    }
  }

  /** The table from source pointers to positions in the destination. */
  ghost predicate Indexes(m: map<nat, nat>, ptrs: seq<nat>) {
    && (forall p :: p in m <==> p in ptrs)
    && (forall p :: p in m ==> m[p] < |ptrs| && ptrs[m[p]] == p)
    && NoDuplicates(ptrs)
  }

  lemma IndexesNext(m: map<nat, nat>, ptrs: seq<nat>, p: nat)
    requires Indexes(m, ptrs) && p !in m
    ensures Indexes(m[p := |ptrs|], ptrs + [p]) && Find(ptrs, p) == |ptrs|
  {
  }

  // ----- what moving preserves -----

  ghost predicate NoDuplicates(s: seq<nat>) {
    forall a, b :: 0 <= a < b < |s| ==> s[a] != s[b]
  }

  /** The spans of `refs` that point at scope `p`, in order. */
  function SpansAt(refs: seq<SpanAndScope>, p: nat): seq<Span> {
    if refs == [] then []
    else
      var last := refs[|refs| - 1];
      SpansAt(refs[..|refs| - 1], p) + (if last.scope.ptr == p then [last.span] else [])
  }

  ghost predicate Coherent(refs: seq<SpanAndScope>) {
    forall x, y :: x in refs && y in refs && x.scope.ptr == y.scope.ptr ==> x.scope == y.scope
  }

  lemma {:induction false} SpansAtNone(refs: seq<SpanAndScope>, p: nat)
    requires forall x :: x in refs ==> x.scope.ptr != p
    ensures SpansAt(refs, p) == []
  {
    if refs != [] { SpansAtNone(refs[..|refs| - 1], p); }
  }

  /** Every scope that `refs` points at appears exactly once among `m.ptrs`, and its output scope
      is a copy that holds exactly its own spans in their original order. */
  ghost predicate StablePartition(m: Moved, refs: seq<SpanAndScope>) {
    && |m.ptrs| == |m.scopes|
    && NoDuplicates(m.ptrs)
    && (forall x :: x in refs ==> x.scope.ptr in m.ptrs)
    && (forall i :: 0 <= i < |m.ptrs| ==> IsCopyOf(m.scopes[i], refs, m.ptrs[i]))
  }

  ghost predicate IsCopyOf(ss: ScopeSpans, refs: seq<SpanAndScope>, p: nat) {
    && ss.spans == SpansAt(refs, p)
    && (exists x :: x in refs && x.scope == ScopeRef(p, ss.scope))
  }

  lemma SpansAtSnoc(refs: seq<SpanAndScope>, x: SpanAndScope, p: nat)
    ensures SpansAt(refs + [x], p) == SpansAt(refs, p) + (if x.scope.ptr == p then [x.span] else [])
  {
    assert (refs + [x])[..|refs|] == refs;
  }

  lemma MoveNewScope(m: Moved, refs: seq<SpanAndScope>, x: SpanAndScope)
    requires StablePartition(m, refs)
    requires x.scope.ptr !in m.ptrs
    ensures StablePartition(MoveOne(m, x), refs + [x])
  {
    var m', p := MoveOne(m, x), x.scope.ptr;
    SpansAtNone(refs, p);
    assert x in refs + [x];
    forall i | 0 <= i < |m'.ptrs| ensures IsCopyOf(m'.scopes[i], refs + [x], m'.ptrs[i]) {
      SpansAtSnoc(refs, x, m'.ptrs[i]);
      if i < |m.ptrs| { assert IsCopyOf(m.scopes[i], refs, m.ptrs[i]); }
    }
  }

  lemma MoveOldScope(m: Moved, refs: seq<SpanAndScope>, x: SpanAndScope)
    requires StablePartition(m, refs)
    requires x.scope.ptr in m.ptrs
    ensures StablePartition(MoveOne(m, x), refs + [x])
  {
    var m', k := MoveOne(m, x), Find(m.ptrs, x.scope.ptr);
    forall i | 0 <= i < |m'.ptrs| ensures IsCopyOf(m'.scopes[i], refs + [x], m'.ptrs[i]) {
      SpansAtSnoc(refs, x, m'.ptrs[i]);
      assert IsCopyOf(m.scopes[i], refs, m.ptrs[i]);
      if i != k { assert m.ptrs[i] != m.ptrs[k]; }
    }
  }

  /** For spans in ANY order, moving is a stable partition by source scope. */
  lemma {:induction false} MoveIsStablePartition(refs: seq<SpanAndScope>)
    ensures StablePartition(Move(refs), refs)
    decreases |refs|, 0
  {
    if refs == [] {
      assert Move(refs) == Moved([], []);
    } else {
      var n := |refs| - 1;
      MoveIsStablePartition(refs[..n]);
      var init, x := refs[..n], refs[n];
      assert init + [x] == refs;
      MoveIsStableSnoc(init, x);
    }
  }

  lemma {:induction false} MoveIsStableSnoc(init: seq<SpanAndScope>, x: SpanAndScope)
    ensures StablePartition(Move(init + [x]), init + [x])
    decreases |init|, 1
  {
    MoveIsStablePartition(init);
    MoveSnoc(init, x);
    MoveStep(Move(init), init, x);
  }

  lemma MoveStep(m: Moved, refs: seq<SpanAndScope>, x: SpanAndScope)
    requires StablePartition(m, refs)
    ensures StablePartition(MoveOne(m, x), refs + [x])
  {
    if x.scope.ptr in m.ptrs {
      MoveOldScope(m, refs, x);
    } else {
      MoveNewScope(m, refs, x);
    }
  }

  ghost predicate Sorted(refs: seq<SpanAndScope>) {
    forall i, j :: 0 <= i < j < |refs| ==> refs[i].scope.ptr <= refs[j].scope.ptr
  }

  function Tagged(r: Resource, refs: seq<SpanAndScope>): seq<SpanItem> {
    seq(|refs|, i requires 0 <= i < |refs| => SpanItem(r, refs[i].scope.scope, refs[i].span))
  }

  ghost predicate LastScope(m: Moved, refs: seq<SpanAndScope>) {
    refs == [] || (m.ptrs != [] && m.ptrs[|m.ptrs| - 1] == refs[|refs| - 1].scope.ptr)
  }

  lemma MoveSortedOne(r: Resource, m: Moved, refs: seq<SpanAndScope>, x: SpanAndScope)
    requires StablePartition(m, refs) && LastScope(m, refs)
    requires Coherent(refs + [x]) && Sorted(refs + [x])
    ensures ScopesItems(r, MoveOne(m, x).scopes) == ScopesItems(r, m.scopes) + [SpanItem(r, x.scope.scope, x.span)]
    ensures LastScope(MoveOne(m, x), refs + [x])
  {
    if x.scope.ptr !in m.ptrs {
      AppendScope(r, m.scopes, x);
    } else {
      SameScopeAsLast(m, refs, x);
      ExtendLastScope(r, m.scopes, x);
    }
  }

  lemma AppendScope(r: Resource, scopes: seq<ScopeSpans>, x: SpanAndScope)
    ensures ScopesItems(r, scopes + [ScopeSpans(x.scope.scope, [x.span])])
            == ScopesItems(r, scopes) + [SpanItem(r, x.scope.scope, x.span)]
  {
    var all := scopes + [ScopeSpans(x.scope.scope, [x.span])];
    assert all[..|scopes|] == scopes;
    assert ScopeItems(r, all[|scopes|]) == [SpanItem(r, x.scope.scope, x.span)];
  }

  lemma ExtendLastScope(r: Resource, scopes: seq<ScopeSpans>, x: SpanAndScope)
    requires scopes != [] && scopes[|scopes| - 1].scope == x.scope.scope
    ensures var n := |scopes| - 1;
            ScopesItems(r, scopes[n := scopes[n].(spans := scopes[n].spans + [x.span])])
            == ScopesItems(r, scopes) + [SpanItem(r, x.scope.scope, x.span)]
  {
    var n := |scopes| - 1;
    var more := scopes[n].(spans := scopes[n].spans + [x.span]);
    var init := ScopesItems(r, scopes[..n]);
    assert scopes[n := more][..n] == scopes[..n];
    assert ScopeItems(r, more) == ScopeItems(r, scopes[n]) + [SpanItem(r, x.scope.scope, x.span)];
    assert init + (ScopeItems(r, scopes[n]) + [SpanItem(r, x.scope.scope, x.span)])
           == (init + ScopeItems(r, scopes[n])) + [SpanItem(r, x.scope.scope, x.span)];
  }

  /** In sorted order a scope that was met before is the one met last. */
  lemma SameScopeAsLast(m: Moved, refs: seq<SpanAndScope>, x: SpanAndScope)
    requires StablePartition(m, refs) && LastScope(m, refs)
    requires Coherent(refs + [x]) && Sorted(refs + [x])
    requires x.scope.ptr in m.ptrs
    ensures m.ptrs != [] && Find(m.ptrs, x.scope.ptr) == |m.ptrs| - 1
    ensures m.scopes[|m.ptrs| - 1].scope == x.scope.scope
  {
    var i := Find(m.ptrs, x.scope.ptr);
    assert IsCopyOf(m.scopes[i], refs, m.ptrs[i]);
    var y :| y in refs && y.scope == ScopeRef(m.ptrs[i], m.scopes[i].scope);
    var j :| 0 <= j < |refs| && refs[j] == y;
    LastIsMax(refs, x, j);
    assert y in refs + [x] && x in refs + [x];
  }

  lemma LastIsMax(refs: seq<SpanAndScope>, x: SpanAndScope, j: nat)
    requires Sorted(refs + [x]) && j < |refs| && refs[j].scope.ptr == x.scope.ptr
    ensures refs[|refs| - 1].scope.ptr == x.scope.ptr
  {
    var all, n := refs + [x], |refs|;
    assert all[j].scope.ptr <= all[n - 1].scope.ptr || j == n - 1;
    assert all[n - 1].scope.ptr <= all[n].scope.ptr;
  }

  /** When spans arrive scope by scope, flattening the output gives them back in order, each under
      a copy of its own scope and resource. */
  lemma {:induction false} MoveKeepsOrder(r: Resource, refs: seq<SpanAndScope>)
    requires Coherent(refs) && Sorted(refs)
    ensures ScopesItems(r, Move(refs).scopes) == Tagged(r, refs)
    ensures LastScope(Move(refs), refs)
    decreases |refs|, 0
  {
    if refs == [] {
      assert Move(refs).scopes == [] && Tagged(r, refs) == [];
    } else {
      var n := |refs| - 1;
      var init, x := refs[..n], refs[n];
      assert init + [x] == refs;
      MoveKeepsOrderSnoc(r, init, x);
    }
  }

  lemma {:induction false} MoveKeepsOrderSnoc(r: Resource, init: seq<SpanAndScope>, x: SpanAndScope)
    requires Coherent(init + [x]) && Sorted(init + [x])
    ensures ScopesItems(r, Move(init + [x]).scopes) == Tagged(r, init + [x])
    ensures LastScope(Move(init + [x]), init + [x])
    decreases |init|, 1
  {
    PrefixIsSorted(init, x);
    MoveKeepsOrder(r, init);
    MoveIsStablePartition(init);
    MoveSortedOne(r, Move(init), init, x);
    MoveSnoc(init, x);
    TaggedSnoc(r, init, x);
  }

  lemma MoveSnoc(init: seq<SpanAndScope>, x: SpanAndScope)
    ensures Move(init + [x]) == MoveOne(Move(init), x)
  {
    assert (init + [x])[..|init|] == init;
  }

  lemma TaggedSnoc(r: Resource, init: seq<SpanAndScope>, x: SpanAndScope)
    ensures Tagged(r, init + [x]) == Tagged(r, init) + [SpanItem(r, x.scope.scope, x.span)]
  {
  }

  lemma PrefixIsSorted(init: seq<SpanAndScope>, x: SpanAndScope)
    requires Coherent(init + [x]) && Sorted(init + [x])
    ensures Coherent(init) && Sorted(init)
  {
    var all := init + [x];
    forall y, z | y in init && z in init && y.scope.ptr == z.scope.ptr ensures y.scope == z.scope {
      assert y in all && z in all;
    }
    forall i, j | 0 <= i < j < |init| ensures init[i].scope.ptr <= init[j].scope.ptr {
      assert all[i] == init[i] && all[j] == init[j];
    }
  }

  // ----- group, then move -----

  lemma {:induction false} RefsAreSorted(scopes: seq<ScopeSpans>, n: nat)
    requires n <= |scopes|
    ensures Sorted(Refs(scopes, n)) && Coherent(Refs(scopes, n))
    ensures forall x :: x in Refs(scopes, n) ==> x.scope.ptr < n && x.scope.scope == scopes[x.scope.ptr].scope
  {
    if n > 0 {
      RefsAreSorted(scopes, n - 1);
      var before, last := Refs(scopes, n - 1), ScopeRefs(n - 1, scopes[n - 1]);
      forall x: SpanAndScope | x in before + last
        ensures x.scope.ptr < n && x.scope.scope == scopes[x.scope.ptr].scope
      {
        if x !in before { assert x in last; }
      }
      SortedConcat(before, last, n - 1);
    }
  }

  lemma SortedConcat(a: seq<SpanAndScope>, b: seq<SpanAndScope>, p: nat)
    requires Sorted(a) && (forall x :: x in a ==> x.scope.ptr <= p) && (forall x :: x in b ==> x.scope.ptr == p)
    ensures Sorted(a + b)
  {
    forall i, j | 0 <= i < j < |a + b| ensures (a + b)[i].scope.ptr <= (a + b)[j].scope.ptr {
      if j >= |a| {
        assert b[j - |a|] in b;
        if i < |a| { assert a[i] in a; } else { assert b[i - |a|] in b; }
      }
    }
  }

  lemma {:induction false} RefsFlatten(r: Resource, scopes: seq<ScopeSpans>, n: nat)
    requires n <= |scopes|
    ensures Tagged(r, Refs(scopes, n)) == ScopesItems(r, scopes[..n])
  {
    if n > 0 {
      RefsFlatten(r, scopes, n - 1);
      assert scopes[..n][..n - 1] == scopes[..n - 1];
      assert Tagged(r, Refs(scopes, n)) == Tagged(r, Refs(scopes, n - 1)) + ScopeItems(r, scopes[n - 1]);
    }
  }

  lemma {:induction false} FilterMembers(refs: seq<SpanAndScope>, id: TraceID)
    ensures forall x :: x in Filter(refs, id) <==> x in refs && x.span.traceID == id
  {
    if refs != [] {
      var n := |refs| - 1;
      FilterMembers(refs[..n], id);
      assert refs == refs[..n] + [refs[n]];
    }
  }

  lemma {:induction false} FilterSorted(refs: seq<SpanAndScope>, id: TraceID)
    requires Sorted(refs)
    ensures Sorted(Filter(refs, id))
  {
    if refs != [] {
      var n := |refs| - 1;
      FilterSorted(refs[..n], id);
      FilterMembers(refs[..n], id);
      if refs[n].span.traceID == id {
        var before := Filter(refs[..n], id);
        forall x | x in before ensures x.scope.ptr <= refs[n].scope.ptr {
          assert x in refs[..n];
        }
        SortedConcat(before, [refs[n]], refs[n].scope.ptr);
      }
    }
  }

  lemma FilterKeepsSorted(refs: seq<SpanAndScope>, id: TraceID)
    requires Sorted(refs) && Coherent(refs)
    ensures Sorted(Filter(refs, id)) && Coherent(Filter(refs, id))
    ensures forall x :: x in Filter(refs, id) <==> x in refs && x.span.traceID == id
  {
    FilterSorted(refs, id);
    FilterMembers(refs, id);
  }

  function FilterItems(items: seq<SpanItem>, id: TraceID): seq<SpanItem> {
    if items == [] then []
    else
      var last := items[|items| - 1];
      FilterItems(items[..|items| - 1], id) + (if last.span.traceID == id then [last] else [])
  }

  lemma {:induction false} FilterTagged(r: Resource, refs: seq<SpanAndScope>, id: TraceID)
    ensures Tagged(r, Filter(refs, id)) == FilterItems(Tagged(r, refs), id)
  {
    if refs != [] {
      var n := |refs| - 1;
      FilterTagged(r, refs[..n], id);
      assert Tagged(r, refs)[..n] == Tagged(r, refs[..n]);
    }
  }

  /** The buckets of a ResourceSpans come scope by scope. */
  lemma BucketIsSorted(rs: ResourceSpans, id: TraceID)
    ensures var bucket := Filter(Refs(rs.scopeSpans, |rs.scopeSpans|), id);
            Sorted(bucket) && Coherent(bucket)
  {
    RefsAreSorted(rs.scopeSpans, |rs.scopeSpans|);
    FilterKeepsSorted(Refs(rs.scopeSpans, |rs.scopeSpans|), id);
  }

  /** Flattening what is moved for a sorted bucket gives its spans back in order. */
  lemma MovedItems(r: Resource, refs: seq<SpanAndScope>)
    requires Sorted(refs) && Coherent(refs)
    ensures Items(MoveToTraces(r, refs)) == Tagged(r, refs)
  {
    MoveKeepsOrder(r, refs);
    ItemsOne(ResourceSpans(r, Move(refs).scopes));
  }

  lemma ResourceItems(rs: ResourceSpans)
    ensures Items([rs]) == Tagged(rs.resource, Refs(rs.scopeSpans, |rs.scopeSpans|))
  {
    ItemsOne(rs);
    RefsFlatten(rs.resource, rs.scopeSpans, |rs.scopeSpans|);
    assert rs.scopeSpans[..|rs.scopeSpans|] == rs.scopeSpans;
  }

  /** Group-then-move is an order-preserving filter: flattening what is moved for one trace gives
      exactly the items of that trace, in order, under their own scope and resource. */
  lemma GroupThenMoveIsFilter(rs: ResourceSpans, m: map<TraceID, seq<SpanAndScope>>, id: TraceID)
    requires IsGrouping(m, Refs(rs.scopeSpans, |rs.scopeSpans|))
    requires id in m
    ensures Items(MoveToTraces(rs.resource, m[id])) == FilterItems(Items([rs]), id)
  {
    var refs := Refs(rs.scopeSpans, |rs.scopeSpans|);
    BucketIsSorted(rs, id);
    MovedItems(rs.resource, Filter(refs, id));
    ResourceItems(rs);
    FilterTagged(rs.resource, refs, id);
  }

  // ----- the buckets partition the spans -----

  function BucketBag(m: map<TraceID, seq<SpanAndScope>>, keys: seq<TraceID>): multiset<SpanAndScope>
    requires forall k :: k in keys ==> k in m
  {
    if keys == [] then multiset{}
    else BucketBag(m, keys[..|keys| - 1]) + multiset(m[keys[|keys| - 1]])
  }

  lemma {:induction false} FilterCount(refs: seq<SpanAndScope>, id: TraceID, x: SpanAndScope)
    ensures multiset(Filter(refs, id))[x] == if x.span.traceID == id then multiset(refs)[x] else 0
  {
    if refs != [] {
      var n := |refs| - 1;
      FilterCount(refs[..n], id, x);
      assert refs == refs[..n] + [refs[n]];
    }
  }

  lemma {:induction false} BucketCount(m: map<TraceID, seq<SpanAndScope>>, refs: seq<SpanAndScope>,
                                       keys: seq<TraceID>, x: SpanAndScope)
    requires IsGrouping(m, refs)
    requires forall k :: k in keys ==> k in m
    requires forall i, j :: 0 <= i < j < |keys| ==> keys[i] != keys[j]
    ensures BucketBag(m, keys)[x] == if x.span.traceID in keys then multiset(refs)[x] else 0
  {
    if keys != [] {
      var n := |keys| - 1;
      BucketCount(m, refs, keys[..n], x);
      FilterCount(refs, keys[n], x);
      assert keys == keys[..n] + [keys[n]];
    }
  }

  /** Visiting every bucket once, in any order, meets every span exactly as often as it came. */
  lemma BucketsPartition(m: map<TraceID, seq<SpanAndScope>>, refs: seq<SpanAndScope>, keys: seq<TraceID>)
    requires IsGrouping(m, refs)
    requires forall k :: k in keys <==> k in m
    requires forall i, j :: 0 <= i < j < |keys| ==> keys[i] != keys[j]
    ensures BucketBag(m, keys) == multiset(refs)
  {
    forall x ensures BucketBag(m, keys)[x] == multiset(refs)[x] {
      BucketCount(m, refs, keys, x);
      if x in multiset(refs) { assert x in refs; }
    }
  }
}
