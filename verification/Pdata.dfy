/** The trace data model: spans grouped by scope, scopes grouped by resource, and the order in
    which an iterator visits them. Values here stand for what a `ptrace` structure holds. */
module Pdata {

  datatype Option<+T> = None | Some(value: T)

  datatype Result<+T> = Ok(value: T) | Err(message: string)

  type Byte = b: int | 0 <= b < 256

  /** A trace ID is an array of 16 bytes; evaluators that index it ask for `WellFormed`. */
  datatype TraceID = TraceID(bytes: seq<Byte>) {
    predicate WellFormed() { |bytes| == 16 }
  }

  /** `threshold` is the string value of the `sampling.tail.threshold` attribute, if it is set
      (an attribute of another type reads as the empty string). `payload` is all other content. */
  datatype Span = Span(traceID: TraceID, parentID: seq<Byte>, start: nat, end: nat,
                       threshold: Option<string>, payload: nat)

  datatype Scope = Scope(name: string)

  /** `decision` is the value of `atlassiansampling.decision`, `flushes` that of
      `atlassiansampling.flushes`; `attributes` stands for all the others. */
  datatype Resource = Resource(decision: Option<bool>, flushes: Option<int>, attributes: nat)

  datatype ScopeSpans = ScopeSpans(scope: Scope, spans: seq<Span>)

  datatype ResourceSpans = ResourceSpans(resource: Resource, scopeSpans: seq<ScopeSpans>)

  type Traces = seq<ResourceSpans>

  datatype SpanItem = SpanItem(resource: Resource, scope: Scope, span: Span)

  lemma AppendLast<T>(a: seq<T>, b: seq<T>)
    requires b != []
    ensures var n := |b| - 1;
            b == b[..n] + [b[n]] && a + b == (a + b[..n]) + [b[n]]
  {
  }

  // ----- the order of iteration -----

  function ScopeItems(r: Resource, ss: ScopeSpans): seq<SpanItem> {
    seq(|ss.spans|, i requires 0 <= i < |ss.spans| => SpanItem(r, ss.scope, ss.spans[i]))
  }

  function ScopesItems(r: Resource, scopes: seq<ScopeSpans>): seq<SpanItem> {
    if scopes == [] then []
    else ScopesItems(r, scopes[..|scopes| - 1]) + ScopeItems(r, scopes[|scopes| - 1])
  }

  /** Every span of `td` with its resource and scope, in iteration order. */
  function Items(td: Traces): seq<SpanItem> {
    if td == [] then []
    else
      var last := td[|td| - 1];
      Items(td[..|td| - 1]) + ScopesItems(last.resource, last.scopeSpans)
  }

  function SpansOf(items: seq<SpanItem>): seq<Span> {
    seq(|items|, i requires 0 <= i < |items| => items[i].span)
  }

  function Spans(td: Traces): seq<Span> {
    SpansOf(Items(td))
  }

  lemma {:induction false} ItemsConcat(a: Traces, b: Traces)
    ensures Items(a + b) == Items(a) + Items(b)
    ensures Spans(a + b) == Spans(a) + Spans(b)
  {
    if b == [] {
      assert a + b == a;
      assert Items(a) + [] == Items(a);
    } else {
      var init, last := b[..|b| - 1], b[|b| - 1];
      ItemsConcat(a, init);
      assert (a + b)[..|a + b| - 1] == a + init;
      var x, y, z := Items(a), Items(init), ScopesItems(last.resource, last.scopeSpans);
      assert (x + y) + z == x + (y + z);
    }
    SpansOfConcat(Items(a), Items(b));
  }

  lemma SpansOfConcat(a: seq<SpanItem>, b: seq<SpanItem>)
    ensures SpansOf(a + b) == SpansOf(a) + SpansOf(b)
  {
  }

  lemma ItemsOne(rs: ResourceSpans)
    ensures Items([rs]) == ScopesItems(rs.resource, rs.scopeSpans)
  {
    assert [rs][..0] == [];
  }

  lemma {:induction false} ScopesItemsConcat(r: Resource, a: seq<ScopeSpans>, b: seq<ScopeSpans>)
    ensures ScopesItems(r, a + b) == ScopesItems(r, a) + ScopesItems(r, b)
  {
    if b == [] {
      assert a + b == a;
    } else {
      ScopesItemsConcat(r, a, b[..|b| - 1]);
      assert (a + b)[..|a + b| - 1] == a + b[..|b| - 1];
    }
  }

  /** The prefix of `s` up to and including the first element on which `more` is false. */
  function TakeThrough<T>(s: seq<T>, more: T -> bool): seq<T> {
    if s == [] then []
    else if more(s[0]) then [s[0]] + TakeThrough(s[1..], more)
    else [s[0]]
  }

  lemma {:induction false} TakeThroughExtend<T>(s: seq<T>, x: T, more: T -> bool)
    requires forall y :: y in s ==> more(y)
    ensures TakeThrough(s, more) == s
    ensures TakeThrough(s + [x], more) == s + [x]
  {
    if s == [] {
      assert s + [x] == [x];
      assert TakeThrough([x][1..], more) == [];
    } else {
      TakeThroughExtend(s[1..], x, more);
      assert (s + [x])[1..] == s[1..] + [x];
      assert s == [s[0]] + s[1..];
    }
  }

  lemma {:induction false} TakeThroughStop<T>(s: seq<T>, x: T, rest: seq<T>, more: T -> bool)
    requires forall y :: y in s ==> more(y)
    requires !more(x)
    ensures TakeThrough(s + [x] + rest, more) == s + [x]
  {
    if s == [] {
      assert s + [x] + rest == [x] + rest;
    } else {
      TakeThroughStop(s[1..], x, rest, more);
      assert (s + [x] + rest)[1..] == s[1..] + [x] + rest;
      assert s == [s[0]] + s[1..];
    }
  }
}
