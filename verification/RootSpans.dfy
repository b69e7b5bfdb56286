/** The `root_spans` evaluator, and what it can return when the processor calls it. */
module RootSpans {
  import opened Pdata
  import opened TraceValues
  import opened Decider

  function FirstSpan(td: Traces): Option<Span> {
    if Items(td) == [] then None else Some(Items(td)[0].span)
  }

  lemma ItemsOfPrefix(td: Traces, i: nat, j: nat)
    requires i < |td| && j <= |td[i].scopeSpans|
    ensures Items(td[..i]) + ScopesItems(td[i].resource, td[i].scopeSpans[..j]) <= Items(td)
  {
    ItemsConcat(td[..i + 1], td[i + 1..]);
    assert td == td[..i + 1] + td[i + 1..];
    assert td[..i + 1][..i] == td[..i];
    ScopesItemsConcat(td[i].resource, td[i].scopeSpans[..j], td[i].scopeSpans[j..]);
    assert td[i].scopeSpans == td[i].scopeSpans[..j] + td[i].scopeSpans[j..];
  }

  /** `findOnlySpan`: the first span, skipping empty resources and scopes. */
  method FindOnlySpan(trace: Traces) returns (r: Option<Span>)
    ensures r == FirstSpan(trace)
  {
    var i := 0;
    while i < |trace|
      invariant i <= |trace|
      invariant Items(trace[..i]) == []
    {
      var ss := trace[i].scopeSpans;
      var j := 0;
      while j < |ss|
        invariant j <= |ss|
        invariant ScopesItems(trace[i].resource, ss[..j]) == []
      {
        var spans := ss[j].spans;
        assert ss[..j + 1][..j] == ss[..j];
        if |spans| > 0 {
          ItemsOfPrefix(trace, i, j + 1);
          assert ScopeItems(trace[i].resource, ss[j])[0].span == spans[0];
          return Some(spans[0]);
        }
        j := j + 1;
      }
      assert ss[..j] == ss;
      assert trace[..i + 1][..i] == trace[..i];
      i := i + 1;
    }
    assert trace[..i] == trace;
    r := None;
  }

  /** A root span has no parent ID, or the right half of its trace ID as parent. */
  predicate IsRootSpan(s: Span)
    requires s.traceID.WellFormed()
  {
    s.parentID == [0, 0, 0, 0, 0, 0, 0, 0] || s.parentID == s.traceID.bytes[8..16]
  }

  ghost predicate WellFormedBatch(batch: Traces) {
    forall s :: s in Spans(batch) ==> s.traceID.WellFormed()
  }

  function Evaluate(sub: Evaluator, env: nat, id: TraceID, batch: Traces, merged: Meta): Outcome
    requires WellFormedBatch(batch)
  {
    var defaultDecision := if merged.priority == Low then LowPriority else Pending;
    var s := sub(env, id, batch, merged);
    if s.failed then Outcome(Unevaluated, true)
    else if s.decision == Sampled then Outcome(Pending, false)
    else if merged.count != 1 then Outcome(defaultDecision, false)
    else
      match FirstSpan(batch)
      case None => Outcome(Unevaluated, true)
      case Some(span) =>
        assert span == Spans(batch)[0];
        if IsRootSpan(span) then Outcome(LowPriority, false) else Outcome(defaultDecision, false)
  }

  /** The priority evaluators see is never Low, whatever the held trace's is. */
  lemma MergedPriorityNeverLow(now: int, batch: Traces, held: Option<Entry>)
    ensures MergedMeta(now, batch, held).priority == Priority.Unspecified
  {
  }

  /** Exactly when `root_spans` lowers a trace: the (32-bit) span count seen so far is 1, the first
      span of this batch is a root span, and the sub-policy neither failed nor sampled. */
  lemma LowersExactlyWhen(sub: Evaluator, env: nat, id: TraceID, now: int, batch: Traces, held: Option<Entry>)
    requires WellFormedBatch(batch) && Items(batch) != []
    ensures var merged := MergedMeta(now, batch, held);
            var s := sub(env, id, batch, merged);
            var total := |Spans(batch)| + if held.None? then 0 else held.value.meta.count;
            Evaluate(sub, env, id, batch, merged).decision == LowPriority <==>
            !s.failed && s.decision != Sampled && Wrap32(total) == 1 && IsRootSpan(Spans(batch)[0])
  {
    if held.Some? { WrapMod(|Spans(batch)|, held.value.meta.count); }
    else { WrapMod(|Spans(batch)|, 0); }
  }

  lemma WrapMod(x: int, y: int)
    ensures Wrap32(Wrap32(x) + y) == Wrap32(x + y) && Wrap32(Wrap32(x)) == Wrap32(x)
  {
  }

  /** As composed with the processor, `root_spans` lowers a trace only at first sight: with data
      already held (and counts that fit in 31 bits) it never returns LowPriority, whatever the
      held trace's priority, and without it only for a batch that is one root span. */
  lemma OnlyLowersFirstSight(sub: Evaluator, env: nat, id: TraceID, now: int, batch: Traces, held: Option<Entry>)
    requires WellFormedBatch(batch) && Items(batch) != []
    requires held.Some? ==> held.value.meta.count >= 1
    requires |Spans(batch)| + (if held.None? then 0 else held.value.meta.count) < 0x8000_0000
    ensures var merged := MergedMeta(now, batch, held);
            var s := sub(env, id, batch, merged);
            Evaluate(sub, env, id, batch, merged).decision == LowPriority <==>
            held.None? && |Spans(batch)| == 1 && IsRootSpan(Spans(batch)[0]) && !s.failed && s.decision != Sampled
  {
    LowersExactlyWhen(sub, env, id, now, batch, held);
  }

  /** Every result of `root_spans` with the metadata that the processor merges: it never samples or
      rejects; it fails exactly when the sub-policy does, or when there is no span where the count
      says one; a sub-policy that samples makes it Pending; and whatever is not lowered is Pending. */
  lemma EveryResult(sub: Evaluator, env: nat, id: TraceID, now: int, batch: Traces, held: Option<Entry>)
    requires WellFormedBatch(batch)
    ensures var merged := MergedMeta(now, batch, held);
            var s, o := sub(env, id, batch, merged), Evaluate(sub, env, id, batch, merged);
            && (!s.failed && s.decision == Sampled ==> o == Outcome(Pending, false))
            && (o.failed <==> s.failed || (s.decision != Sampled && merged.count == 1 && Items(batch) == []))
            && (o.failed ==> o.decision == Unevaluated)
            && (!o.failed ==> o.decision == Pending || o.decision == LowPriority)
  {
    MergedPriorityNeverLow(now, batch, held);
  }

  /** The parent of a root span is eight zero bytes or the last eight of its trace ID. */
  lemma RootSpanParents(s: Span)
    requires s.traceID.WellFormed()
    ensures IsRootSpan(s) <==>
            && |s.parentID| == 8
            && ((forall i :: 0 <= i < 8 ==> s.parentID[i] == 0)
                || (forall i :: 0 <= i < 8 ==> s.parentID[i] == s.traceID.bytes[8 + i]))
  {
    var right := s.traceID.bytes[8..16];
    assert forall i :: 0 <= i < 8 ==> right[i] == s.traceID.bytes[8 + i];
    if |s.parentID| == 8 {
      var zeros: seq<Byte> := [0, 0, 0, 0, 0, 0, 0, 0];
      if forall i :: 0 <= i < 8 ==> s.parentID[i] == 0 { assert s.parentID == zeros; }
      if forall i :: 0 <= i < 8 ==> s.parentID[i] == s.traceID.bytes[8 + i] { assert s.parentID == right; }
    }
  }
}
