/** Where what is held comes from: every batch in a trace's history is the moved bucket of a group
    that was received. What is known of received groups is thereby known of held data. */
module Provenance {
  import opened Pdata
  import opened Grouping
  import opened TraceValues
  import opened Decider
  import opened Lru
  import opened Engine
  import opened Invariant
  import opened AllOrNothing
  import opened History
  import opened Outcomes

  ghost predicate IsBatchOf(r: Rec, g: Group, id: TraceID) {
    g.id == id && g.resource.decision.None? && r.batch == BatchOf(g)
  }

  /** Every batch of the history is that of a group for which `ok` holds. */
  ghost predicate FromGroups(recs: seq<Rec>, id: TraceID, ok: Group -> bool) {
    forall r :: r in recs ==> exists g :: ok(g) && IsBatchOf(r, g, id)
  }

  ghost predicate Sourced(s: State, log: Log, ok: Group -> bool) {
    && (forall g :: g in s.inflight ==> ok(g))
    && (forall id :: id in log ==> FromGroups(log[id], id, ok))
  }

  ghost predicate Receives(steps: seq<Step>, ok: Group -> bool) {
    forall i :: 0 <= i < |steps| && steps[i].Receive? ==> ok(steps[i].g)
  }

  lemma LogGroupSourced(cfg: Config, s: State, log: Log, g: Group, now: int, env: nat, ok: Group -> bool)
    requires Sourced(s, log, ok) && ok(g)
    ensures Sourced(s, LogGroup(cfg, s, log, g, now, env), ok)
  {
    if Holds(cfg, s, g, now, env) {
      assert IsBatchOf(Rec(BatchOf(g), now, VerdictFor(cfg, s, g, now, env)), g, g.id);
    }
  }

  lemma NextSourced(cfg: Config, s: State, log: Log, step: Step, ok: Group -> bool)
    requires Inv(s) && Sourced(s, log, ok) && (step.Receive? ==> ok(step.g))
    ensures Sourced(Next(cfg, s, step), LogNext(cfg, s, log, step), ok)
  {
    match step
    case Receive(g) =>
    case Process(i, now, env) =>
      if i < |s.inflight| { LogGroupSourced(cfg, s, log, s.inflight[i], now, env, ok); }
    case Regulate(size) =>
  }

  lemma {:induction false} RunSourced(cfg: Config, start: State, steps: seq<Step>, ok: Group -> bool)
    requires Inv(start) && start.inflight == [] && Receives(steps, ok)
    ensures Sourced(Run(cfg, start, steps), RunLog(cfg, start, steps), ok)
  {
    if steps != [] {
      var init := steps[..|steps| - 1];
      assert forall i :: 0 <= i < |init| ==> init[i] == steps[i];
      RunSourced(cfg, start, init, ok);
      NextSourced(cfg, Run(cfg, start, init), RunLog(cfg, start, init), steps[|steps| - 1], ok);
    }
  }

  function SpansIn(g: Group): seq<Span> {
    seq(|g.spans|, i requires 0 <= i < |g.spans| => g.spans[i].span)
  }

  /** The batch of a bucket has the spans of the bucket. */
  lemma BatchSpans(g: Group)
    requires WellFormedGroup(g)
    ensures Spans(BatchOf(g)) == SpansIn(g)
  {
    MovedItems(g.resource, g.spans);
  }

  ghost predicate StartsLater(g: Group) {
    WellFormedGroup(g) && forall x :: x in g.spans ==> x.span.start != 0
  }

  lemma SourcedStarts(recs: seq<Rec>, id: TraceID, ok: Group -> bool)
    requires FromGroups(recs, id, ok) && forall g :: ok(g) ==> StartsLater(g)
    ensures NonzeroStarts(recs)
  {
    forall i | 0 <= i < |recs| ensures Spans(recs[i].batch) != [] && !HasZeroStart(Spans(recs[i].batch)) {
      assert recs[i] in recs;
      var g :| ok(g) && IsBatchOf(recs[i], g, id);
      BatchSpans(g);
      forall x | x in Spans(recs[i].batch) ensures x.start != 0 {
        var k :| 0 <= k < |SpansIn(g)| && SpansIn(g)[k] == x;
        assert g.spans[k] in g.spans;
      }
    }
  }

  /** Over every run in which no received span starts at time 0, what is held for a trace has the
      metadata that one pass over all its spans computes, and these are the spans it decodes to. */
  lemma HeldMetadataIsSinglePass(cfg: Config, p: nat, q: nat, y: nat, n: nat, steps: seq<Step>, id: TraceID)
    requires cfg.compress ==> Lossless(cfg.codec)
    requires y > 0 && n > 0 && forall i :: 0 <= i < |steps| && steps[i].Receive? ==> StartsLater(steps[i].g)
    ensures Inv(Initial(p, q, y, n))
    ensures var s, log := Run(cfg, Initial(p, q, y, n), steps), RunLog(cfg, Initial(p, q, y, n), steps);
            TierLookup(s, id).Some? ==>
              var e := TierLookup(s, id).value;
              && id in log && log[id] != []
              && e.meta == MetaOf(FirstArrival(log[id]), Spans(Decoded(cfg, e)), e.meta.priority, e.meta.lastLow)
  {
    InitialInv(p, q, y, n);
    var start := Initial(p, q, y, n);
    var log := RunLog(cfg, start, steps);
    var ok := (g: Group) => StartsLater(g);
    HeldIsHistory(cfg, p, q, y, n, steps, id);
    RunSourced(cfg, start, steps, ok);
    if TierLookup(Run(cfg, start, steps), id).Some? {
      SourcedStarts(log[id], id, ok);
      LogMetaIsSinglePass(log[id]);
    }
  }

  // ----- what is sent -----

  /** `rs` is the moved bucket of the group as it is sent: its scopes and spans, its resource without the
      flush count, and no decision. */
  ghost predicate IsSentGroup(rs: ResourceSpans, g: Group, id: TraceID) {
    && g.id == id && g.resource.decision.None?
    && BatchOf(g) == [ResourceSpans(g.resource, rs.scopeSpans)]
    && rs.resource == Resource(None, None, g.resource.attributes)
  }

  ghost predicate SentFrom(rs: ResourceSpans, id: TraceID, ok: Group -> bool) {
    exists g :: ok(g) && IsSentGroup(rs, g, id)
  }

  ghost predicate AllSentFrom(bs: seq<Batch>, ok: Group -> bool) {
    forall b, rs :: b in bs && rs in b.traces ==> SentFrom(rs, b.id, ok)
  }

  lemma AllSentConcat(a: seq<Batch>, b: seq<Batch>, ok: Group -> bool)
    requires AllSentFrom(a, ok) && AllSentFrom(b, ok)
    ensures AllSentFrom(a + b, ok)
  {
  }

  lemma {:induction false} InConcat(recs: seq<Rec>, rs: ResourceSpans)
    requires rs in Concat(recs)
    ensures exists r :: r in recs && rs in r.batch
  {
    var n := |recs| - 1;
    if rs in recs[n].batch {
      assert recs[n] in recs;
    } else {
      InConcat(recs[..n], rs);
      var r :| r in recs[..n] && rs in r.batch;
      assert r in recs;
    }
  }

  lemma BatchSentFrom(g: Group, ok: Group -> bool)
    requires ok(g) && g.resource.decision.None?
    ensures AllSentFrom([Batch(g.id, StripFlushes(BatchOf(g)))], ok)
  {
    StripIsSent(BatchOf(g), StripFlushes(BatchOf(g)));
    var sent := StripFlushes(BatchOf(g))[0];
    assert IsSentOf(BatchOf(g)[0], sent);
    assert IsSentGroup(sent, g, g.id);
    forall rs | rs in StripFlushes(BatchOf(g)) ensures SentFrom(rs, g.id, ok) {
      assert rs == sent;
    }
  }

  lemma HistorySentFrom(recs: seq<Rec>, id: TraceID, ok: Group -> bool)
    requires FromGroups(recs, id, ok)
    ensures AllSentFrom([Batch(id, StripFlushes(Concat(recs)))], ok)
  {
    var t := Concat(recs);
    forall rs | rs in StripFlushes(t) ensures SentFrom(rs, id, ok) {
      var i :| 0 <= i < |t| && StripFlushes(t)[i] == rs;
      assert t[i] in t;
      InConcat(recs, t[i]);
      var r :| r in recs && t[i] in r.batch;
      var g :| ok(g) && IsBatchOf(r, g, id);
      assert t[i] == BatchOf(g)[0];
      assert IsSentGroup(rs, g, id);
    }
  }

  lemma HeldSentFrom(cfg: Config, s: State, log: Log, id: TraceID, always: bool, ok: Group -> bool)
    requires AllExplained(cfg, s, log) && Sourced(s, log, ok)
    ensures AllSentFrom(HeldSent(cfg, s, id, always), ok)
  {
    if TierLookup(s, id).Some? {
      assert Explained(cfg, TierLookup(s, id).value, log[id]);
      HistorySentFrom(log[id], id, ok);
    }
  }

  /** What processing one group sends comes from that group or from the history of its trace. */
  lemma ProcessSendsFrom(cfg: Config, s: State, log: Log, g: Group, now: int, env: nat, ok: Group -> bool)
    requires cfg.compress ==> Lossless(cfg.codec)
    requires Inv(s) && AllExplained(cfg, s, log) && Sourced(s, log, ok) && ok(g) && AllSentFrom(s.exported, ok)
    ensures AllSentFrom(ProcessGroup(cfg, s, g, now, env).exported, ok)
  {
    if Effective(s, g.id) != Unevaluated {
      if g.resource.decision.None? {
        BatchFollowsDecision(cfg, s, g, now, env);
        BatchSentFrom(g, ok);
      } else {
        LateDecisionIsIgnored(cfg, s, g, now, env);
      }
    } else if g.resource.decision.Some? {
      DecisionSpanOutputs(cfg, s, g, now, env);
      HeldSentFrom(cfg, s, log, g.id, true, ok);
    } else {
      EvaluationSendsFrom(cfg, s, log, g, now, env, ok);
    }
  }

  lemma EvaluationSendsFrom(cfg: Config, s: State, log: Log, g: Group, now: int, env: nat, ok: Group -> bool)
    requires cfg.compress ==> Lossless(cfg.codec)
    requires Inv(s) && AllExplained(cfg, s, log) && Sourced(s, log, ok) && ok(g) && AllSentFrom(s.exported, ok)
    requires Effective(s, g.id) == Unevaluated && g.resource.decision.None?
    ensures AllSentFrom(ProcessGroup(cfg, s, g, now, env).exported, ok)
  {
    NewRepresents(cfg, now, BatchOf(g));
    var merged := MergedMeta(now, BatchOf(g), TierLookup(s, g.id));
    var d := VerdictFor(cfg, s, g, now, env).decision;
    VerdictIff(cfg.policies, env, g.id, BatchOf(g), merged, d);
    if d == Sampled {
      var i: nat :| FirstToSettle(cfg.policies, i, env, g.id, BatchOf(g), merged)
                    && Returned(cfg.policies[i], env, g.id, BatchOf(g), merged) == d;
      BatchIsSampled(cfg, s, g, now, env, i);
      HeldSentFrom(cfg, s, log, g.id, false, ok);
      BatchSentFrom(g, ok);
    } else if d == NotSampled {
      var i: nat :| FirstToSettle(cfg.policies, i, env, g.id, BatchOf(g), merged)
                    && Returned(cfg.policies[i], env, g.id, BatchOf(g), merged) == d;
      BatchIsRejected(cfg, s, g, now, env, i);
    } else {
      BatchIsHeld(cfg, s, g, now, env);
    }
  }

  lemma NextSendsFrom(cfg: Config, s: State, log: Log, step: Step, ok: Group -> bool)
    requires cfg.compress ==> Lossless(cfg.codec)
    requires Inv(s) && AllExplained(cfg, s, log) && Sourced(s, log, ok) && AllSentFrom(s.exported, ok)
    requires step.Receive? ==> ok(step.g)
    ensures AllSentFrom(Next(cfg, s, step).exported, ok)
  {
    match step
    case Receive(g) =>
      if g.resource.decision.None? && Effective(s, g.id) != Unevaluated {
        BatchFollowsDecision(cfg, s, g, 0, 0);
        BatchSentFrom(g, ok);
      }
    case Process(i, now, env) =>
      if i < |s.inflight| {
        var s0 := s.(inflight := WithoutIndex(s.inflight, i));
        assert s.inflight[i] in s.inflight;
        ProcessSendsFrom(cfg, s0, log, s.inflight[i], now, env, ok);
      }
    case Regulate(size) => ResizeOutputs(cfg, s, size);
  }

  lemma {:induction false} RunSendsFrom(cfg: Config, start: State, steps: seq<Step>, ok: Group -> bool)
    requires cfg.compress ==> Lossless(cfg.codec)
    requires Inv(start) && AllExplained(cfg, start, map[]) && start.inflight == [] && start.exported == []
    requires Receives(steps, ok)
    ensures AllSentFrom(Run(cfg, start, steps).exported, ok)
  {
    if steps != [] {
      var init := steps[..|steps| - 1];
      assert forall i :: 0 <= i < |init| ==> init[i] == steps[i];
      RunSendsFrom(cfg, start, init, ok);
      RunExplained(cfg, start, init);
      RunSourced(cfg, start, init, ok);
      NextSendsFrom(cfg, Run(cfg, start, init), RunLog(cfg, start, init), steps[|steps| - 1], ok);
    }
  }

  /** Over every run, whatever is exported for a trace is the moved bucket of a received group of that
      trace that was no decision span, under that group's resource without its flush count. */
  lemma ExportsAreReceivedGroups(cfg: Config, p: nat, q: nat, y: nat, n: nat, steps: seq<Step>, b: Batch,
      rs: ResourceSpans)
    requires cfg.compress ==> Lossless(cfg.codec)
    requires y > 0 && n > 0
    ensures Inv(Initial(p, q, y, n))
    ensures b in Run(cfg, Initial(p, q, y, n), steps).exported && rs in b.traces ==>
              exists i :: 0 <= i < |steps| && steps[i].Receive? && IsSentGroup(rs, steps[i].g, b.id)
  {
    InitialInv(p, q, y, n);
    var ok := (g: Group) => exists i :: 0 <= i < |steps| && steps[i] == Receive(g);
    RunSendsFrom(cfg, Initial(p, q, y, n), steps, ok);
    if b in Run(cfg, Initial(p, q, y, n), steps).exported && rs in b.traces {
      assert SentFrom(rs, b.id, ok);
      var g :| ok(g) && IsSentGroup(rs, g, b.id);
      var i :| 0 <= i < |steps| && steps[i] == Receive(g);
      assert steps[i].g == g;
    }
  }
}
