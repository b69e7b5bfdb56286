/** How much the decision caches must remember: all-or-nothing holds of every run exactly when each
    of them has room for every trace ID that is received. */
module Capacity {
  import opened Pdata
  import opened Grouping
  import opened TraceValues
  import opened Decider
  import opened Lru
  import opened Engine
  import opened Invariant
  import opened AllOrNothing
  import opened Overlap
  import opened Handoff

  /** Some trace has both an exported and a dropped span. */
  ghost predicate Splits(s: State) {
    exists b, d, x, y ::
      b in s.exported && d in s.dropped && x in Spans(b.traces) && y in Spans(d.traces) && x.traceID == y.traceID
  }

  ghost predicate StepsOf(steps: seq<Step>, u: set<TraceID>) {
    forall i :: 0 <= i < |steps| ==> StepOf(steps[i], u)
  }

  // ----- runs in pieces -----

  lemma {:induction false} RunConcat(cfg: Config, s: State, a: seq<Step>, b: seq<Step>)
    requires Inv(s)
    ensures Run(cfg, s, a + b) == Run(cfg, Run(cfg, s, a), b)
  {
    if b == [] {
      assert a + b == a;
    } else {
      var n := |b| - 1;
      RunConcat(cfg, s, a, b[..n]);
      AppendLast(a, b);
      assert (a + b)[..|a + b| - 1] == a + b[..n];
    }
  }

  lemma RunOne(cfg: Config, s: State, step: Step)
    requires Inv(s)
    ensures Run(cfg, s, [step]) == Next(cfg, s, step)
  {
    var none: seq<Step> := [step][..0];
    assert none == [];
  }

  // ----- one span, as a batch or as a decision -----

  /** A group of one span, of a decision span if there is a decision. */
  function SpanGroup(id: TraceID, decision: Option<bool>): Group {
    Group(id, Resource(decision, None, 0), [SpanAndScope(Span(id, [], 0, 0, None, 0), ScopeRef(0, Scope("")))])
  }

  lemma SpanGroupIsOf(id: TraceID, decision: Option<bool>, u: set<TraceID>)
    requires id in u
    ensures GroupOf(SpanGroup(id, decision), u)
  {
  }

  lemma OneSpan(id: TraceID)
    ensures var t := BatchOf(SpanGroup(id, None));
            && Span(id, [], 0, 0, None, 0) in Spans(t) && Span(id, [], 0, 0, None, 0) in Spans(StripFlushes(t))
  {
    var g := SpanGroup(id, None);
    SpanGroupIsOf(id, None, {id});
    MovedItems(g.resource, g.spans);
    StripKeepsSpans(BatchOf(g));
    assert Spans(BatchOf(g))[0] == Span(id, [], 0, 0, None, 0);
  }

  /** Nothing is pending or waiting. */
  ghost predicate Idle(s: State) {
    Inv(s) && Held(s) == {} && s.inflight == []
  }

  /** A decision span arrives and is processed. */
  function DecisionSteps(id: TraceID, d: bool): seq<Step> {
    [Receive(SpanGroup(id, Some(d))), Process(0, 0, 0)]
  }

  function Recorded(s: State, id: TraceID, d: bool): State {
    if d then s.(sampled := s.sampled.Added(id, ())) else s.(notSampled := s.notSampled.Added(id, ()))
  }

  lemma RecordDecision(cfg: Config, s: State, id: TraceID, d: bool)
    requires Idle(s) && id !in Decided(s)
    ensures Run(cfg, s, DecisionSteps(id, d)) == Recorded(s, id, d) && Idle(Recorded(s, id, d))
  {
    ReceiveAndProcess(cfg, s, SpanGroup(id, Some(d)));
    DeliverEffect(cfg, s, SpanGroup(id, Some(d)));
  }

  // ----- filling a cache -----

  function RecordedAll(s: State, ids: seq<TraceID>, d: bool): State {
    if d then s.(sampled := AddAll(s.sampled, ids)) else s.(notSampled := AddAll(s.notSampled, ids))
  }

  function AllDecisionSteps(ids: seq<TraceID>, d: bool): seq<Step> {
    if ids == [] then [] else AllDecisionSteps(ids[..|ids| - 1], d) + DecisionSteps(ids[|ids| - 1], d)
  }

  lemma {:induction false} RecordAll(cfg: Config, s: State, ids: seq<TraceID>, d: bool)
    requires Idle(s) && NoDup(ids) && forall i :: 0 <= i < |ids| ==> ids[i] !in Decided(s)
    ensures Run(cfg, s, AllDecisionSteps(ids, d)) == RecordedAll(s, ids, d) && Idle(RecordedAll(s, ids, d))
  {
    if ids != [] {
      var n := |ids| - 1;
      var s1 := RecordedAll(s, ids[..n], d);
      RecordAll(cfg, s, ids[..n], d);
      AddAllKeys(if d then s.sampled else s.notSampled, ids[..n]);
      assert ids[n] !in Decided(s1);
      RecordDecision(cfg, s1, ids[n], d);
      RunConcat(cfg, s, AllDecisionSteps(ids[..n], d), DecisionSteps(ids[n], d));
    }
  }

  /** As many new keys as there is room push the only old one out. */
  lemma PushOut(c: Lru<()>, a: TraceID, ids: seq<TraceID>)
    requires c.Valid() && c.order == [a] && NoDup([a] + ids) && |ids| == c.cap > 0
    ensures a !in AddAll(c, ids).vals
  {
    var n := |ids| - 1;
    AppendLast([a], ids);
    assert ([a] + ids)[..1 + n] == [a] + ids[..n];
    AddAllFits(c, ids[..n]);
    var c1 := AddAll(c, ids[..n]);
    LastIsNew(c1.order, ids[n]);
    assert c1.order[0] == a;
    AddedValid(c1, ids[n], ());
  }

  lemma {:induction false} Pick(u: set<TraceID>, k: nat) returns (ids: seq<TraceID>)
    requires k <= |u|
    ensures |ids| == k && NoDup(ids) && forall i :: 0 <= i < k ==> ids[i] in u
  {
    ids := [];
    if k > 0 {
      var x :| x in u;
      var rest := Pick(u - {x}, k - 1);
      ids := rest + [x];
    }
  }

  // ----- a run that splits a trace -----

  /** A decision for `a`, and a batch of `a`. */
  function DecidedBatch(a: TraceID, d: bool): seq<Step> {
    DecisionSteps(a, d) + [Receive(SpanGroup(a, None))]
  }

  /** Decisions for `others`, the opposite one for `a`, and a batch of `a`. */
  function ReversedBatch(a: TraceID, others: seq<TraceID>, d: bool): seq<Step> {
    AllDecisionSteps(others, d) + DecidedBatch(a, !d)
  }

  lemma {:induction false} AllDecisionStepsOf(ids: seq<TraceID>, d: bool, u: set<TraceID>)
    requires forall i :: 0 <= i < |ids| ==> ids[i] in u
    ensures StepsOf(AllDecisionSteps(ids, d), u)
  {
    if ids != [] {
      AllDecisionStepsOf(ids[..|ids| - 1], d, u);
      SpanGroupIsOf(ids[|ids| - 1], Some(d), u);
    }
  }

  lemma SplittingStepsOf(a: TraceID, others: seq<TraceID>, d: bool, u: set<TraceID>)
    requires a in u && forall i :: 0 <= i < |others| ==> others[i] in u
    ensures StepsOf(DecidedBatch(a, d) + ReversedBatch(a, others, d), u)
  {
    SpanGroupIsOf(a, Some(d), u);
    SpanGroupIsOf(a, Some(!d), u);
    SpanGroupIsOf(a, None, u);
    AllDecisionStepsOf(others, d, u);
  }

  /** A batch of `a` has gone where the decision `d` says, and nothing else. */
  ghost predicate Sent(s: State, s': State, a: TraceID, d: bool) {
    var t := BatchOf(SpanGroup(a, None));
    && s'.exported == s.exported + (if d then [Batch(a, StripFlushes(t))] else [])
    && s'.dropped == s.dropped + (if d then [] else [Batch(a, t)])
  }

  lemma BatchArrives(cfg: Config, s: State, a: TraceID, d: bool)
    requires Idle(s) && Effective(s, a) == if d then Sampled else NotSampled
    ensures var s' := Run(cfg, s, [Receive(SpanGroup(a, None))]);
            && Idle(s') && Sent(s, s', a, d)
            && s'.sampled.vals == s.sampled.vals && s'.notSampled.vals == s.notSampled.vals
            && s'.sampled.cap == s.sampled.cap && s'.notSampled.cap == s.notSampled.cap
  {
    RunOne(cfg, s, Receive(SpanGroup(a, None)));
    CheckedNotes(s, a);
  }

  /** After the first two pieces: `a` is the only entry of one decision cache, the other is empty. */
  ghost predicate OnlyEntry(s: State, a: TraceID, d: bool) {
    && Idle(s)
    && (if d then s.sampled.order == [a] && s.notSampled.order == []
        else s.notSampled.order == [a] && s.sampled.order == [])
  }

  lemma OneKey(c: Lru<()>, a: TraceID)
    requires c.Valid() && c.vals.Keys == {a}
    ensures c.order == [a]
  {
    assert a in c.order;
    NoDupCard(c.order, {a});
    assert c.order[0] in c.vals;
  }

  lemma FirstHalf(cfg: Config, p: nat, q: nat, y: nat, n: nat, a: TraceID, d: bool)
    requires y > 0 && n > 0
    ensures Inv(Initial(p, q, y, n))
    ensures var s := Run(cfg, Initial(p, q, y, n), DecidedBatch(a, d));
            && OnlyEntry(s, a, d) && Sent(Initial(p, q, y, n), s, a, d)
            && s.sampled.cap == y && s.notSampled.cap == n
  {
    InitialInv(p, q, y, n);
    var start := Initial(p, q, y, n);
    RecordDecision(cfg, start, a, d);
    RunConcat(cfg, start, DecisionSteps(a, d), [Receive(SpanGroup(a, None))]);
    var s1 := Recorded(start, a, d);
    FirstEntry(start, a, d);
    BatchArrives(cfg, s1, a, d);
    var s := Run(cfg, s1, [Receive(SpanGroup(a, None))]);
    OneKey(if d then s.sampled else s.notSampled, a);
  }

  lemma FirstEntry(s: State, a: TraceID, d: bool)
    requires Decided(s) == {} && s.sampled.cap > 0 && s.notSampled.cap > 0
    requires s.sampled.order == [] && s.notSampled.order == []
    ensures var s1 := Recorded(s, a, d);
            && Effective(s1, a) == (if d then Sampled else NotSampled)
            && (if d then
                  s1.sampled.vals.Keys == {a} && s1.notSampled == s.notSampled && s1.sampled.cap == s.sampled.cap
                else s1.notSampled.vals.Keys == {a} && s1.sampled == s.sampled && s1.notSampled.cap == s.notSampled.cap)
  {
    assert a !in Decided(s);
  }

  lemma SecondHalf(cfg: Config, s: State, a: TraceID, others: seq<TraceID>, d: bool)
    requires OnlyEntry(s, a, d) && NoDup([a] + others) && |others| == (if d then s.sampled.cap else s.notSampled.cap)
    ensures var s' := Run(cfg, s, ReversedBatch(a, others, d));
            Sent(s, s', a, !d)
  {
    OthersAreNew(s, a, others);
    RecordAll(cfg, s, others, d);
    var s1 := RecordedAll(s, others, d);
    PushOut(if d then s.sampled else s.notSampled, a, others);
    RecordDecision(cfg, s1, a, !d);
    var s2 := Recorded(s1, a, !d);
    AddedValid(if d then s1.notSampled else s1.sampled, a, ());
    BatchArrives(cfg, s2, a, !d);
    RunConcat(cfg, s1, DecisionSteps(a, !d), [Receive(SpanGroup(a, None))]);
    RunConcat(cfg, s, AllDecisionSteps(others, d), DecidedBatch(a, !d));
  }

  lemma OutputsSplit(s0: State, s1: State, s2: State, a: TraceID, d: bool)
    requires s0.exported == [] && s0.dropped == []
    requires Sent(s0, s1, a, d) && Sent(s1, s2, a, !d)
    ensures Splits(s2)
  {
    var t := BatchOf(SpanGroup(a, None));
    OneSpan(a);
    var x := Span(a, [], 0, 0, None, 0);
    assert Batch(a, StripFlushes(t)) in s2.exported && Batch(a, t) in s2.dropped;
    assert x in Spans(Batch(a, StripFlushes(t)).traces) && x in Spans(Batch(a, t).traces);
  }

  lemma PiecesSplit(cfg: Config, s0: State, xs: seq<Step>, ys: seq<Step>, a: TraceID, d: bool)
    requires Inv(s0) && s0.exported == [] && s0.dropped == []
    requires Sent(s0, Run(cfg, s0, xs), a, d) && Sent(Run(cfg, s0, xs), Run(cfg, Run(cfg, s0, xs), ys), a, !d)
    ensures Splits(Run(cfg, s0, xs + ys))
  {
    RunConcat(cfg, s0, xs, ys);
    OutputsSplit(s0, Run(cfg, s0, xs), Run(cfg, s0, xs + ys), a, d);
  }

  lemma SplittingStepsSplit(cfg: Config, p: nat, q: nat, y: nat, n: nat, a: TraceID, others: seq<TraceID>, d: bool)
    requires y > 0 && n > 0 && NoDup([a] + others) && |others| == (if d then y else n)
    ensures Inv(Initial(p, q, y, n))
    ensures Splits(Run(cfg, Initial(p, q, y, n), DecidedBatch(a, d) + ReversedBatch(a, others, d)))
  {
    var start := Initial(p, q, y, n);
    FirstHalf(cfg, p, q, y, n, a, d);
    var s := Run(cfg, start, DecidedBatch(a, d));
    SecondHalf(cfg, s, a, others, d);
    PiecesSplit(cfg, start, DecidedBatch(a, d), ReversedBatch(a, others, d), a, d);
  }

  /** With more trace IDs than one of the decision caches can hold there is a run that splits a
      trace, whatever the policies are. */
  lemma SplittingRun(cfg: Config, p: nat, q: nat, y: nat, n: nat, u: set<TraceID>) returns (steps: seq<Step>)
    requires y > 0 && n > 0 && (|u| > y || |u| > n)
    ensures Inv(Initial(p, q, y, n))
    ensures StepsOf(steps, u) && Splits(Run(cfg, Initial(p, q, y, n), steps))
  {
    var d := |u| > y;
    var a :| a in u;
    var others := Pick(u - {a}, if d then y else n);
    assert NoDup([a] + others);
    InitialInv(p, q, y, n);
    steps := DecidedBatch(a, d) + ReversedBatch(a, others, d);
    SplittingStepsOf(a, others, d, u);
    SplittingStepsSplit(cfg, p, q, y, n, a, others, d);
  }

  /** All or nothing, exactly: every run over the trace IDs `u` exports or drops each trace as a
      whole if and only if both decision caches can hold all of `u`. */
  lemma WholeIffRoom(cfg: Config, p: nat, q: nat, y: nat, n: nat, u: set<TraceID>)
    requires cfg.compress ==> Lossless(cfg.codec)
    requires y > 0 && n > 0
    ensures Inv(Initial(p, q, y, n))
    ensures (forall steps :: StepsOf(steps, u) ==> !Splits(Run(cfg, Initial(p, q, y, n), steps)))
            <==> |u| <= y && |u| <= n
  {
    InitialInv(p, q, y, n);
    if |u| <= y && |u| <= n {
      forall steps | StepsOf(steps, u) ensures !Splits(Run(cfg, Initial(p, q, y, n), steps)) {
        NoTraceIsSplit(cfg, p, q, y, n, steps, u);
      }
    } else {
      var steps := SplittingRun(cfg, p, q, y, n, u);
      assert StepsOf(steps, u);
    }
  }

  // ----- a run through an overlap -----

  /** A batch of `a` arrives and is processed. */
  function BatchSteps(a: TraceID): seq<Step> {
    [Receive(SpanGroup(a, None)), Process(0, 0, 0)]
  }

  /** A batch of `a` that stays pending, and then a true decision span for `a`. */
  function PendingThenSampled(a: TraceID): seq<Step> {
    BatchSteps(a) + DecisionSteps(a, true)
  }

  /** Sampled decisions for `others`, and another batch of `a`. */
  function OthersThenBatch(a: TraceID, others: seq<TraceID>): seq<Step> {
    AllDecisionSteps(others, true) + [Receive(SpanGroup(a, None))]
  }

  /** The state after a first batch of `a` that no policy decides. */
  ghost predicate HoldsOneBatch(cfg: Config, s0: State, s: State, a: TraceID) {
    && Inv(s) && s == s0.(primary := s.primary) && a in s.primary.vals && Held(s) == {a}
    && GetTraces(cfg.codec, s.primary.vals[a].data) == Ok(BatchOf(SpanGroup(a, None)))
  }

  lemma BatchStepsProcess(cfg: Config, s: State, a: TraceID)
    requires Idle(s) && Effective(s, a) == Unevaluated
    ensures Run(cfg, s, BatchSteps(a)) == ProcessGroup(cfg, s, SpanGroup(a, None), 0, 0)
  {
    var g := SpanGroup(a, None);
    assert EarlyCheck(s, g) == s.(inflight := s.inflight + [g]);
    ReceiveAndProcess(cfg, s, g);
  }

  /** A group that is queued in an idle state and then processed. */
  lemma ReceiveAndProcess(cfg: Config, s: State, g: Group)
    requires Inv(s) && s.inflight == [] && EarlyCheck(s, g) == s.(inflight := s.inflight + [g])
    ensures Run(cfg, s, [Receive(g), Process(0, 0, 0)]) == ProcessGroup(cfg, s, g, 0, 0)
  {
    assert [Receive(g)] + [Process(0, 0, 0)] == [Receive(g), Process(0, 0, 0)];
    RunConcat(cfg, s, [Receive(g)], [Process(0, 0, 0)]);
    RunOne(cfg, s, Receive(g));
    var s1 := s.(inflight := s.inflight + [g]);
    RunOne(cfg, s1, Process(0, 0, 0));
    assert s1.(inflight := WithoutIndex(s1.inflight, 0)) == s;
  }

  lemma PendingBatch(cfg: Config, p: nat, q: nat, y: nat, n: nat, a: TraceID)
    requires cfg.policies == [] && (cfg.compress ==> Lossless(cfg.codec)) && p > 0 && y > 0 && n > 0
    ensures Inv(Initial(p, q, y, n))
    ensures HoldsOneBatch(cfg, Initial(p, q, y, n), Run(cfg, Initial(p, q, y, n), BatchSteps(a)), a)
  {
    InitialInv(p, q, y, n);
    var start := Initial(p, q, y, n);
    assert a !in Decided(start);
    BatchStepsProcess(cfg, start, a);
    FirstPending(cfg, start, SpanGroup(a, None));
  }

  lemma FirstPending(cfg: Config, s: State, g: Group)
    requires cfg.policies == [] && (cfg.compress ==> Lossless(cfg.codec))
    requires Idle(s) && Decided(s) == {} && s.primary.cap > 0 && g.resource.decision.None?
    ensures var s' := ProcessGroup(cfg, s, g, 0, 0);
            && Inv(s') && s' == s.(primary := s'.primary) && g.id in s'.primary.vals && Held(s') == {g.id}
            && GetTraces(cfg.codec, s'.primary.vals[g.id].data) == Ok(BatchOf(g))
  {
    assert g.id !in Decided(s) && g.id !in Held(s);
    if cfg.compress { NewStandsFor(cfg.codec, BatchOf(g)); }
    ProcessGroupKeeps(cfg, s, g, 0, 0);
    assert s.primary.vals == map[] by { assert s.primary.vals.Keys == {}; }
    var e := NewEntry(cfg.compress, cfg.codec, 0, BatchOf(g)).value;
    assert VerdictFor(cfg, s, g, 0, 0).decision == Pending;
    assert Hold(cfg, s, g.id, e, None) == PrimaryPut(cfg, s, g.id, e);
  }

  lemma ReleasePending(cfg: Config, s0: State, s: State, a: TraceID)
    requires HoldsOneBatch(cfg, s0, s, a) && s.inflight == [] && Decided(s) == {}
    ensures var s' := Run(cfg, s, DecisionSteps(a, true));
            && Idle(s') && a in Both(s') && s'.dropped == s.dropped
            && s'.sampled == s.sampled.Added(a, ()) && s'.notSampled == s.notSampled.Added(a, ())
            && s'.exported == s.exported + [Batch(a, StripFlushes(BatchOf(SpanGroup(a, None))))]
  {
    var g := SpanGroup(a, Some(true));
    ReceiveAndProcess(cfg, s, g);
    assert a !in Decided(s);
    DecisionTrueKeeps(cfg, s, a);
    DecisionTrueCaches(cfg, s, a);
    assert Checked(s, a) == s && ProcessGroup(cfg, s, g, 0, 0) == DecisionTrue(cfg, s, a);
  }

  /** An input that puts an ID into both decision caches: a batch that no policy decides, then a true
      decision span. The spans of the batch are exported. */
  lemma OverlappingRun(cfg: Config, p: nat, q: nat, y: nat, n: nat, a: TraceID)
    requires cfg.policies == [] && (cfg.compress ==> Lossless(cfg.codec)) && p > 0 && y > 0 && n > 0
    ensures Inv(Initial(p, q, y, n))
    ensures var s := Run(cfg, Initial(p, q, y, n), PendingThenSampled(a));
            && Idle(s) && a in Both(s) && s.dropped == []
            && s.sampled.order == [a] && s.sampled.cap == y && s.notSampled.order == [a]
            && s.exported == [Batch(a, StripFlushes(BatchOf(SpanGroup(a, None))))]
  {
    InitialInv(p, q, y, n);
    var start := Initial(p, q, y, n);
    PendingBatch(cfg, p, q, y, n, a);
    var s := Run(cfg, start, BatchSteps(a));
    ReleasePending(cfg, start, s, a);
    RunConcat(cfg, start, BatchSteps(a), DecisionSteps(a, true));
  }

  /** The second way to split a trace: exported from pending, pushed out of the sampled cache by other
      sampled traces while the mark of its deletion stays, and dropped from then on. */
  lemma OverlapSplits(cfg: Config, p: nat, q: nat, y: nat, n: nat, a: TraceID, others: seq<TraceID>)
    requires cfg.policies == [] && (cfg.compress ==> Lossless(cfg.codec)) && p > 0 && y > 0 && n > 0
    requires NoDup([a] + others) && |others| == y
    ensures Inv(Initial(p, q, y, n))
    ensures Splits(Run(cfg, Initial(p, q, y, n), PendingThenSampled(a) + OthersThenBatch(a, others)))
  {
    var start := Initial(p, q, y, n);
    OverlappingRun(cfg, p, q, y, n, a);
    var s := Run(cfg, start, PendingThenSampled(a));
    assert Sent(start, s, a, true) && s.sampled.cap == y;
    FlipAndDrop(cfg, s, a, others);
    PiecesSplit(cfg, start, PendingThenSampled(a), OthersThenBatch(a, others), a, true);
  }

  lemma FlipAndDrop(cfg: Config, s: State, a: TraceID, others: seq<TraceID>)
    requires Idle(s) && a in Both(s) && s.sampled.order == [a] && s.notSampled.order == [a]
    requires NoDup([a] + others) && |others| == s.sampled.cap
    ensures Sent(s, Run(cfg, s, OthersThenBatch(a, others)), a, false)
  {
    OthersAreNew(s, a, others);
    RecordAll(cfg, s, others, true);
    PushOut(s.sampled, a, others);
    BatchArrives(cfg, RecordedAll(s, others, true), a, false);
    RunConcat(cfg, s, AllDecisionSteps(others, true), [Receive(SpanGroup(a, None))]);
  }

  lemma OthersAreNew(s: State, a: TraceID, others: seq<TraceID>)
    requires NoDup([a] + others) && Decided(s) <= {a}
    ensures NoDup(others) && forall i :: 0 <= i < |others| ==> others[i] !in Decided(s)
  {
    forall i | 0 <= i < |others| ensures others[i] !in Decided(s) {
      assert ([a] + others)[0] == a && ([a] + others)[1 + i] == others[i];
    }
    forall i, j | 0 <= i < j < |others| ensures others[i] != others[j] {
      assert ([a] + others)[1 + i] == others[i] && ([a] + others)[1 + j] == others[j];
    }
  }
}
