/** The span iterator: three nested index loops that stop as soon as the consumer says so. */
module Iterator {
  import opened Pdata

  /** The part of `Items(td)` before resource `i`, scope `j`, span `k`. */
  ghost function Before(td: Traces, i: nat, j: nat, k: nat): seq<SpanItem>
    requires i < |td| && j < |td[i].scopeSpans| && k <= |td[i].scopeSpans[j].spans|
  {
    var r := td[i].resource;
    Items(td[..i]) + ScopesItems(r, td[i].scopeSpans[..j]) + ScopeItems(r, td[i].scopeSpans[j])[..k]
  }

  lemma {:induction false} ItemsPrefix(td: Traces, i: nat)
    requires i <= |td|
    ensures Items(td[..i]) <= Items(td)
  {
    ItemsConcat(td[..i], td[i..]);
    assert td == td[..i] + td[i..];
  }

  lemma {:induction false} BeforeIsPrefix(td: Traces, i: nat, j: nat, k: nat)
    requires i < |td| && j < |td[i].scopeSpans| && k <= |td[i].scopeSpans[j].spans|
    ensures Before(td, i, j, k) <= Items(td)
  {
    var r, scopes := td[i].resource, td[i].scopeSpans;
    ItemsPrefix(td, i + 1);
    assert td[..i + 1][..i] == td[..i];
    ScopesPrefix(r, scopes, j);
    assert ScopeItems(r, scopes[j])[..k] <= ScopeItems(r, scopes[j]);
  }

  lemma ScopesPrefix(r: Resource, scopes: seq<ScopeSpans>, j: nat)
    requires j < |scopes|
    ensures ScopesItems(r, scopes[..j]) + ScopeItems(r, scopes[j]) <= ScopesItems(r, scopes)
  {
    var ss := scopes[..j + 1];
    assert ss[..j] == scopes[..j];
    ScopesItemsConcat(r, ss, scopes[j + 1..]);
    assert scopes == ss + scopes[j + 1..];
  }

  lemma StopsAt(items: seq<SpanItem>, was: seq<SpanItem>, item: SpanItem, more: SpanItem -> bool)
    requires was + [item] <= items && !more(item) && forall x :: x in was ==> more(x)
    ensures TakeThrough(items, more) == was + [item] && item in items
  {
    var rest := items[|was| + 1..];
    TakeThroughStop(was, item, rest, more);
    assert items[..|was| + 1] == was + [item];
    assert items == was + [item] + rest;
    assert items[|was|] == item;
  }

  /** Visits the spans of `td` in order while `more` holds of the visited item. */
  method TraceIterator(td: Traces, more: SpanItem -> bool) returns (visited: seq<SpanItem>)
    ensures visited == TakeThrough(Items(td), more)
    ensures (forall x :: x in Items(td) ==> more(x)) ==> visited == Items(td)
  {
    visited := [];
    var i := 0;
    while i < |td|
      invariant i <= |td|
      invariant visited == Items(td[..i])
      invariant forall x :: x in visited ==> more(x)
    {
      var rs := td[i];
      var ii := 0;
      while ii < |rs.scopeSpans|
        invariant ii <= |rs.scopeSpans|
        invariant visited == Items(td[..i]) + ScopesItems(rs.resource, rs.scopeSpans[..ii])
        invariant forall x :: x in visited ==> more(x)
      {
        var ss := rs.scopeSpans[ii];
        var iii := 0;
        while iii < |ss.spans|
          invariant iii <= |ss.spans|
          invariant visited == Before(td, i, ii, iii)
          invariant forall x :: x in visited ==> more(x)
        {
          var item := SpanItem(rs.resource, ss.scope, ss.spans[iii]);
          ghost var was := visited;
          visited := visited + [item];
          assert ScopeItems(rs.resource, ss)[..iii + 1] == ScopeItems(rs.resource, ss)[..iii] + [item];
          assert visited == Before(td, i, ii, iii + 1);
          if !more(item) {
            BeforeIsPrefix(td, i, ii, iii + 1);
            StopsAt(Items(td), was, item, more);
            return;
          }
          iii := iii + 1;
        }
        assert rs.scopeSpans[..ii + 1][..ii] == rs.scopeSpans[..ii];
        assert ScopeItems(rs.resource, ss)[..iii] == ScopeItems(rs.resource, ss);
        ii := ii + 1;
      }
      assert rs.scopeSpans[..ii] == rs.scopeSpans;
      assert td[..i + 1][..i] == td[..i];
      i := i + 1;
    }
    assert td[..i] == td;
    AllTaken(visited, more);
  }

  lemma AllTaken(items: seq<SpanItem>, more: SpanItem -> bool)
    requires forall x :: x in items ==> more(x)
    ensures TakeThrough(items, more) == items
  {
    if items != [] {
      var n := |items| - 1;
      TakeThroughExtend(items[..n], items[n], more);
      assert items == items[..n] + [items[n]];
    }
  }
}
