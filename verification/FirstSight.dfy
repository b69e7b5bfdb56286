/** The `root_spans` evaluator inside the processor: it sends a trace to the secondary tier only at
    first sight, and never keeps it there. */
module FirstSight {
  import opened Pdata
  import opened Grouping
  import opened TraceValues
  import opened Decider
  import opened Lru
  import opened Engine
  import opened Invariant
  import opened AllOrNothing
  import opened History
  import opened Outcomes
  import opened Provenance
  import RootSpans

  // ----- policies -----

  ghost predicate Wraps(p: Policy, sub: Evaluator) {
    forall env, id, batch, merged ::
      RootSpans.WellFormedBatch(batch) ==>
        p.evaluate(env, id, batch, merged) == RootSpans.Evaluate(sub, env, id, batch, merged)
  }

  /** The policy is `root_spans` around some sub-policy. */
  ghost predicate IsRootSpans(p: Policy) {
    exists sub :: Wraps(p, sub)
  }

  ghost predicate AllRootSpans(policies: seq<Policy>) {
    forall i :: 0 <= i < |policies| ==> IsRootSpans(policies[i])
  }

  ghost predicate OneRootSpan(spans: seq<Span>) {
    |spans| == 1 && spans[0].traceID.WellFormed() && RootSpans.IsRootSpan(spans[0])
  }

  /** A nonempty batch of spans with trace IDs of full length, and counts that do not overflow. */
  ghost predicate Countable(batch: Traces, held: Option<Entry>) {
    && RootSpans.WellFormedBatch(batch) && Spans(batch) != []
    && (held.Some? ==> held.value.meta.count >= 1)
    && |Spans(batch)| + (if held.None? then 0 else held.value.meta.count) < 0x8000_0000
  }

  lemma LowMeansFirstSight(p: Policy, env: nat, id: TraceID, now: int, batch: Traces, held: Option<Entry>)
    requires IsRootSpans(p) && Countable(batch, held)
    requires p.evaluate(env, id, batch, MergedMeta(now, batch, held)).decision == LowPriority
    ensures held.None? && OneRootSpan(Spans(batch))
  {
    var sub :| Wraps(p, sub);
    RootSpans.OnlyLowersFirstSight(sub, env, id, now, batch, held);
    assert Spans(batch)[0] in Spans(batch);
  }

  /** A low-priority verdict on anything but the first sight of a single root span was made by a
      policy that is not `root_spans`. */
  lemma {:induction false} OtherPolicyLowers(policies: seq<Policy>, env: nat, id: TraceID, now: int, batch: Traces,
      held: Option<Entry>)
    requires Countable(batch, held) && (held.None? ==> !OneRootSpan(Spans(batch)))
    requires Decide(policies, env, id, batch, MergedMeta(now, batch, held)).decision == LowPriority
    ensures exists i :: 0 <= i < |policies| && !IsRootSpans(policies[i])
                        && Decide(policies, env, id, batch, MergedMeta(now, batch, held)).policy ==
                            Some(policies[i].name)
  {
    var merged := MergedMeta(now, batch, held);
    if Decisive(Opinion(policies[0], env, id, batch, merged)) {
      if IsRootSpans(policies[0]) { LowMeansFirstSight(policies[0], env, id, now, batch, held); }
    } else {
      var rest := policies[1..];
      OtherPolicyLowers(rest, env, id, now, batch, held);
      var i :| 0 <= i < |rest| && !IsRootSpans(rest[i])
               && Decide(rest, env, id, batch, merged).policy == Some(rest[i].name);
      assert policies[i + 1] == rest[i];
    }
  }

  lemma NoneLowersAgain(policies: seq<Policy>, env: nat, id: TraceID, now: int, batch: Traces, held: Option<Entry>)
    requires AllRootSpans(policies) && Countable(batch, held)
    requires Decide(policies, env, id, batch, MergedMeta(now, batch, held)).decision == LowPriority
    ensures held.None? && OneRootSpan(Spans(batch))
  {
    if held.Some? || !OneRootSpan(Spans(batch)) { OtherPolicyLowers(policies, env, id, now, batch, held); }
  }

  lemma RootSpansReturns(p: Policy, env: nat, id: TraceID, now: int, batch: Traces, held: Option<Entry>)
    requires IsRootSpans(p) && RootSpans.WellFormedBatch(batch)
    ensures var d := Returned(p, env, id, batch, MergedMeta(now, batch, held));
            d == Pending || d == LowPriority || d == Unevaluated
  {
    var sub :| Wraps(p, sub);
    RootSpans.EveryResult(sub, env, id, now, batch, held);
  }

  /** With `root_spans` policies only, no verdict samples or rejects. */
  lemma NoneDecides(policies: seq<Policy>, env: nat, id: TraceID, now: int, batch: Traces, held: Option<Entry>)
    requires AllRootSpans(policies) && RootSpans.WellFormedBatch(batch)
    ensures var d := Decide(policies, env, id, batch, MergedMeta(now, batch, held)).decision;
            d == Pending || d == LowPriority
  {
    var merged := MergedMeta(now, batch, held);
    var v := Decide(policies, env, id, batch, merged);
    VerdictShape(policies, env, id, batch, merged);
    VerdictIff(policies, env, id, batch, merged, v.decision);
    if v.decision == Sampled || v.decision == NotSampled {
      var i: nat :| FirstToSettle(policies, i, env, id, batch, merged)
                    && Returned(policies[i], env, id, batch, merged) == v.decision;
      RootSpansReturns(policies[i], env, id, now, batch, held);
    }
  }

  // ----- one step -----

  /** Processing any group of a trace that is held, in either tier, leaves nothing of that trace in
      the secondary tier. */
  lemma NeverKeptSecondary(cfg: Config, s: State, g: Group, now: int, env: nat)
    requires cfg.compress ==> Lossless(cfg.codec)
    requires Inv(s) && g.id in Held(s)
    requires AllRootSpans(cfg.policies) && Countable(BatchOf(g), TierLookup(s, g.id))
    ensures g.id !in ProcessGroup(cfg, s, g, now, env).secondary.vals
  {
    assert g.id !in Decided(s);
    CheckedNotes(s, g.id);
    var s1 := Checked(s, g.id);
    if g.resource.decision.None? {
      NewRepresents(cfg, now, BatchOf(g));
      EvaluateKeeps(cfg, s1, g, now, env);
      RaisedNow(cfg, s1, g, now, env);
    } else if g.resource.decision.value {
      DecisionTrueKeeps(cfg, s1, g.id);
    } else {
      ReleaseNotSampledKeeps(cfg, s1, g.id, None);
    }
  }

  /** Processing a batch of an undecided trace never sends or drops it by a verdict: it is held, unless
      the tier it belongs in has no room at all. */
  lemma NeverDecidedByRootSpans(cfg: Config, s: State, g: Group, now: int, env: nat)
    requires Evaluates(cfg, s, g) && AllRootSpans(cfg.policies) && RootSpans.WellFormedBatch(BatchOf(g))
    ensures var v := VerdictFor(cfg, s, g, now, env).decision;
            v == Pending || v == LowPriority
    ensures Holding(cfg, s, g, now, env).Some?
    ensures Keeps(cfg, s, ProcessGroup(cfg, s, g, now, env), g.id, Holding(cfg, s, g, now, env).value)
  {
    NoneDecides(cfg.policies, env, g.id, now, BatchOf(g), TierLookup(s, g.id));
    BatchIsHeld(cfg, s, g, now, env);
  }

  lemma RaisedNow(cfg: Config, s: State, g: Group, now: int, env: nat)
    requires g.id in Held(s) && AllRootSpans(cfg.policies) && Countable(BatchOf(g), TierLookup(s, g.id))
    ensures Holding(cfg, s, g, now, env).Some? ==> Holding(cfg, s, g, now, env).value.meta.priority != Low
  {
    var v := VerdictFor(cfg, s, g, now, env);
    if v.decision == LowPriority {
      NoneLowersAgain(cfg.policies, env, g.id, now, BatchOf(g), TierLookup(s, g.id));
    }
  }

  // ----- counting spans over a run -----

  /** The spans of `id` among the groups of `q` that are not decision spans. */
  function QueuedSpans(q: seq<Group>, id: TraceID): nat {
    if q == [] then 0 else QueuedSpans(q[..|q| - 1], id) + GroupSpans(q[|q| - 1], id)
  }

  function GroupSpans(g: Group, id: TraceID): nat {
    if g.id == id && g.resource.decision.None? then |g.spans| else 0
  }

  function ReceivedSpans(steps: seq<Step>, id: TraceID): nat {
    if steps == [] then 0
    else
      var last := steps[|steps| - 1];
      ReceivedSpans(steps[..|steps| - 1], id) + (if last.Receive? then GroupSpans(last.g, id) else 0)
  }

  lemma QueuedSnoc(q: seq<Group>, g: Group, id: TraceID)
    ensures QueuedSpans(q + [g], id) == QueuedSpans(q, id) + GroupSpans(g, id)
  {
    assert (q + [g])[..|q|] == q;
  }

  lemma {:induction false} QueuedConcat(a: seq<Group>, b: seq<Group>, id: TraceID)
    ensures QueuedSpans(a + b, id) == QueuedSpans(a, id) + QueuedSpans(b, id)
  {
    if b == [] {
      assert a + b == a;
    } else {
      var n := |b| - 1;
      AppendLast(a, b);
      QueuedConcat(a, b[..n], id);
      QueuedSnoc(a + b[..n], b[n], id);
    }
  }

  lemma QueuedWithout(q: seq<Group>, i: nat, id: TraceID)
    requires i < |q|
    ensures QueuedSpans(q, id) == QueuedSpans(WithoutIndex(q, i), id) + GroupSpans(q[i], id)
  {
    assert q == q[..i + 1] + q[i + 1..] && q[..i + 1] == q[..i] + [q[i]];
    QueuedConcat(q[..i + 1], q[i + 1..], id);
    QueuedSnoc(q[..i], q[i], id);
    QueuedConcat(q[..i], q[i + 1..], id);
  }

  function LoggedSpans(recs: seq<Rec>): nat {
    |Spans(Concat(recs))|
  }

  lemma LoggedSnoc(recs: seq<Rec>, r: Rec)
    ensures LoggedSpans(recs + [r]) == LoggedSpans(recs) + |Spans(r.batch)|
  {
    assert (recs + [r])[..|recs|] == recs;
    ItemsConcat(Concat(recs), r.batch);
  }

  /** The stored count is the number of spans held, as an int32. */
  lemma {:induction false} CountOfLog(recs: seq<Rec>)
    requires recs != []
    ensures LogMeta(recs).count == Wrap32(LoggedSpans(recs))
  {
    var n := |recs| - 1;
    var init, r := recs[..n], recs[n];
    assert init + [r] == recs;
    LoggedSnoc(init, r);
    if n == 0 {
      assert LoggedSpans(init) == 0 && LogMeta(recs) == RecMeta(r);
    } else {
      CountOfLog(init);
      CountStep(LogMeta(init), r, LoggedSpans(init));
      assert LogMeta(recs) == MergeMeta(LogMeta(init), RecMeta(r));
    }
  }

  lemma CountStep(m: Meta, r: Rec, k: nat)
    requires m.count == Wrap32(k)
    ensures MergeMeta(m, RecMeta(r)).count == Wrap32(k + |Spans(r.batch)|)
  {
    WrapAdd(k, |Spans(r.batch)|);
  }

  lemma WrapSmall(k: nat)
    requires k < 0x8000_0000
    ensures Wrap32(k) == k
  {
  }

  // ----- every run -----

  /** Only the first batch of a history can have been decided LowPriority, and then it was a single
      root span. */
  ghost predicate LowOnlyFirst(recs: seq<Rec>) {
    && (forall i :: 0 <= i < |recs| && recs[i].verdict.decision == LowPriority ==> i == 0)
    && (recs != [] && recs[0].verdict.decision == LowPriority ==> OneRootSpan(Spans(recs[0].batch)))
  }

  ghost predicate FullLength(g: Group) {
    WellFormedGroup(g) && g.id.WellFormed()
  }

  lemma FullLengthBatch(g: Group)
    requires FullLength(g)
    ensures Spans(BatchOf(g)) != [] && |Spans(BatchOf(g))| == |g.spans| && RootSpans.WellFormedBatch(BatchOf(g))
  {
    BatchSpans(g);
    forall x | x in Spans(BatchOf(g)) ensures x.traceID.WellFormed() {
      var k :| 0 <= k < |SpansIn(g)| && SpansIn(g)[k] == x;
      assert g.spans[k] in g.spans;
    }
  }

  /** What the steps so far leave for `id`: its spans are waiting, held, or gone. */
  ghost predicate Accounted(s: State, log: Log, id: TraceID, received: nat) {
    && (forall g :: g in s.inflight ==> FullLength(g))
    && QueuedSpans(s.inflight, id) <= received
    && (id in log ==> log[id] != [] && LoggedSpans(log[id]) > 0
                      && QueuedSpans(s.inflight, id) + LoggedSpans(log[id]) <= received
                      && LowOnlyFirst(log[id]))
  }

  lemma HoldAccounted(cfg: Config, s: State, log: Log, g: Group, now: int, env: nat, room: nat)
    requires AllRootSpans(cfg.policies) && FullLength(g) && Holds(cfg, s, g, now, env)
    requires AllExplained(cfg, s, log)
    requires g.id in log ==> LowOnlyFirst(log[g.id]) && 0 < LoggedSpans(log[g.id]) <= room - |g.spans|
    requires |g.spans| <= room < 0x8000_0000
    ensures var recs := LogGroup(cfg, s, log, g, now, env)[g.id];
            recs != [] && 0 < LoggedSpans(recs) <= room && LowOnlyFirst(recs)
  {
    var held, v := TierLookup(s, g.id), VerdictFor(cfg, s, g, now, env);
    var before := if held.Some? && g.id in log then log[g.id] else [];
    var r := Rec(BatchOf(g), now, v);
    FullLengthBatch(g);
    LoggedSnoc(before, r);
    assert LoggedSpans([]) == 0;
    if held.Some? { HeldCount(cfg, held.value, log[g.id]); }
    assert Countable(BatchOf(g), held);
    if v.decision == LowPriority { NoneLowersAgain(cfg.policies, env, g.id, now, BatchOf(g), held); }
    LowOnlyFirstSnoc(before, r, held.Some?);
  }

  lemma HeldCount(cfg: Config, e: Entry, recs: seq<Rec>)
    requires Explained(cfg, e, recs) && LoggedSpans(recs) < 0x8000_0000
    ensures e.meta.count == LoggedSpans(recs)
  {
    CountOfLog(recs);
    WrapSmall(LoggedSpans(recs));
  }

  lemma LowOnlyFirstSnoc(recs: seq<Rec>, r: Rec, held: bool)
    requires LowOnlyFirst(recs) && (held <==> recs != [])
    requires r.verdict.decision == LowPriority ==> !held && OneRootSpan(Spans(r.batch))
    ensures LowOnlyFirst(recs + [r])
  {
  }

  lemma ProcessAccounted(cfg: Config, s: State, log: Log, i: nat, now: int, env: nat, id: TraceID, received: nat)
    requires AllRootSpans(cfg.policies) && received < 0x8000_0000
    requires AllExplained(cfg, s, log) && Accounted(s, log, id, received) && i < |s.inflight|
    ensures Accounted(s.(inflight := WithoutIndex(s.inflight, i)), LogGroup(cfg, s, log, s.inflight[i], now, env),
                      id, received)
  {
    var g, left := s.inflight[i], WithoutIndex(s.inflight, i);
    assert g in s.inflight;
    QueuedWithout(s.inflight, i, id);
    if g.id == id && Holds(cfg, s, g, now, env) {
      HoldAccounted(cfg, s, log, g, now, env, received - QueuedSpans(left, id));
    }
  }

  lemma ReceiveAccounted(s: State, log: Log, g: Group, id: TraceID, received: nat)
    requires Accounted(s, log, id, received) && FullLength(g)
    ensures Accounted(EarlyCheck(s, g), log, id, received + GroupSpans(g, id))
  {
    QueuedSnoc(s.inflight, g, id);
  }

  lemma NextAccounted(cfg: Config, s: State, log: Log, step: Step, id: TraceID, received: nat)
    requires AllRootSpans(cfg.policies) && Inv(s) && AllExplained(cfg, s, log)
    requires step.Receive? ==> FullLength(step.g)
    requires received + (if step.Receive? then GroupSpans(step.g, id) else 0) < 0x8000_0000
    requires Accounted(s, log, id, received)
    ensures Accounted(Next(cfg, s, step), LogNext(cfg, s, log, step), id,
                      received + (if step.Receive? then GroupSpans(step.g, id) else 0))
  {
    match step
    case Receive(g) => ReceiveAccounted(s, log, g, id, received);
    case Process(i, now, env) =>
      if i < |s.inflight| { ProcessAccounted(cfg, s, log, i, now, env, id, received); }
    case Regulate(size) =>
  }

  lemma {:induction false} RunAccounted(cfg: Config, start: State, steps: seq<Step>, id: TraceID)
    requires cfg.compress ==> Lossless(cfg.codec)
    requires AllRootSpans(cfg.policies) && Inv(start) && Held(start) == {} && start.inflight == []
    requires forall i :: 0 <= i < |steps| && steps[i].Receive? ==> FullLength(steps[i].g)
    requires ReceivedSpans(steps, id) < 0x8000_0000
    ensures Accounted(Run(cfg, start, steps), RunLog(cfg, start, steps), id, ReceivedSpans(steps, id))
  {
    if steps != [] {
      var init, last := steps[..|steps| - 1], steps[|steps| - 1];
      assert forall i :: 0 <= i < |init| ==> init[i] == steps[i];
      RunAccounted(cfg, start, init, id);
      NothingExplained(cfg, start);
      RunExplained(cfg, start, init);
      NextAccounted(cfg, Run(cfg, start, init), RunLog(cfg, start, init), last, id, ReceivedSpans(init, id));
    }
  }

  lemma NothingExplained(cfg: Config, s: State)
    requires Held(s) == {}
    ensures AllExplained(cfg, s, map[])
  {
    forall x ensures x !in s.primary.vals && x !in s.secondary.vals { assert x !in Held(s); }
  }

  /** With `root_spans` policies only, in every run of a fresh processor, what the secondary tier holds
      for a trace is one batch, which is one root span: any further batch has moved it on. */
  lemma SecondaryIsOneRootSpan(cfg: Config, p: nat, q: nat, y: nat, n: nat, steps: seq<Step>, id: TraceID)
    requires cfg.compress ==> Lossless(cfg.codec)
    requires AllRootSpans(cfg.policies) && y > 0 && n > 0
    requires forall i :: 0 <= i < |steps| && steps[i].Receive? ==> FullLength(steps[i].g)
    requires ReceivedSpans(steps, id) < 0x8000_0000
    ensures Inv(Initial(p, q, y, n))
    ensures var s, log := Run(cfg, Initial(p, q, y, n), steps), RunLog(cfg, Initial(p, q, y, n), steps);
            id in s.secondary.vals ==>
              id in log && |log[id]| == 1 && OneRootSpan(Spans(Decoded(cfg, s.secondary.vals[id])))
  {
    InitialInv(p, q, y, n);
    var start := Initial(p, q, y, n);
    RunAccounted(cfg, start, steps, id);
    SecondaryHoldsOneStreak(cfg, p, q, y, n, steps, id);
    HeldIsHistory(cfg, p, q, y, n, steps, id);
    var s, log := Run(cfg, start, steps), RunLog(cfg, start, steps);
    if id in s.secondary.vals {
      assert id !in s.primary.vals;
      var recs := log[id];
      assert AllLow(recs) && LowOnlyFirst(recs);
      OnlyOneLow(recs);
      assert Concat(recs) == recs[0].batch by {
        assert recs[..0] == [] && Concat(recs) == Concat(recs[..0]) + recs[0].batch;
      }
    }
  }

  lemma OnlyOneLow(recs: seq<Rec>)
    requires recs != [] && AllLow(recs) && LowOnlyFirst(recs)
    ensures |recs| == 1
  {
    assert recs[|recs| - 1].verdict.decision == LowPriority;
  }
}
