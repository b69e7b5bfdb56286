/** Which traces can be recorded as sampled and as not sampled at the same time, and what that
    means for later spans. */
module Overlap {
  import opened Pdata
  import opened TraceValues
  import opened Decider
  import opened Lru
  import opened Engine
  import opened Invariant

  /** The IDs whose pending data a true decision span has released during a run. */
  ghost function ReleasedBySpan(cfg: Config, s: State, steps: seq<Step>): set<TraceID>
    requires Inv(s)
  {
    if steps == [] then {}
    else
      var init, step := steps[..|steps| - 1], steps[|steps| - 1];
      var t := Run(cfg, s, init);
      ReleasedBySpan(cfg, s, init) +
      (if step.Process? && step.i < |t.inflight| && ReleasesByDecisionSpan(t, t.inflight[step.i])
       then {t.inflight[step.i].id} else {})
  }

  lemma {:induction false} BothOnlyByDecisionSpan(cfg: Config, s: State, steps: seq<Step>)
    requires Inv(s)
    ensures Both(Run(cfg, s, steps)) <= Both(s) + ReleasedBySpan(cfg, s, steps)
  {
    if steps != [] {
      var init := steps[..|steps| - 1];
      BothOnlyByDecisionSpan(cfg, s, init);
      NextKeeps(cfg, Run(cfg, s, init), steps[|steps| - 1]);
    }
  }

  /** Over every run of a fresh processor, an ID is in both decision caches only if a true decision
      span released pending data of that ID; and then its effective decision is Sampled. */
  lemma OverlapComesFromDecisionSpans(cfg: Config, p: nat, q: nat, y: nat, n: nat, steps: seq<Step>, id: TraceID)
    requires y > 0 && n > 0
    ensures Inv(Initial(p, q, y, n))
    ensures var s := Run(cfg, Initial(p, q, y, n), steps);
            id in s.sampled.vals && id in s.notSampled.vals ==>
              id in ReleasedBySpan(cfg, Initial(p, q, y, n), steps) && Effective(s, id) == Sampled
  {
    InitialInv(p, q, y, n);
    BothOnlyByDecisionSpan(cfg, Initial(p, q, y, n), steps);
    var s := Run(cfg, Initial(p, q, y, n), steps);
    if id in s.sampled.vals && id in s.notSampled.vals { assert id in Both(s); }
  }

  /** And that is exactly when it happens: processing a decision span or batch puts its own ID into
      both caches if, and for an ID that was not in both before only if, it is such a span. */
  lemma OverlapExactly(cfg: Config, s: State, g: Group, now: int, env: nat)
    requires Inv(s) && g.id !in Both(s)
    ensures g.id in Both(ProcessGroup(cfg, s, g, now, env)) <==> ReleasesByDecisionSpan(s, g)
  {
    ProcessGroupKeeps(cfg, s, g, now, env);
    if ReleasesByDecisionSpan(s, g) {
      CheckedNotes(s, g.id);
      DecisionTrueKeeps(cfg, Checked(s, g.id), g.id);
    }
  }

  // ----- a decision that flips -----

  /** The group records its ID as sampled: it is a true decision span, or a batch that a policy
      samples, of an undecided trace. */
  ghost predicate SamplesGroup(cfg: Config, s: State, g: Group, now: int, env: nat) {
    && Effective(s, g.id) == Unevaluated
    && match g.resource.decision
       case Some(decision) => decision
       case None =>
         NewEntry(cfg.compress, cfg.codec, now, BatchOf(g)).Ok? && VerdictFor(cfg, s, g, now, env).decision == Sampled
  }

  ghost predicate Samples(cfg: Config, s: State, step: Step) {
    step.Process? && step.i < |s.inflight| && SamplesGroup(cfg, s, s.inflight[step.i], step.now, step.env)
  }

  ghost predicate Releases(s: State, step: Step) {
    step.Process? && step.i < |s.inflight| && ReleasesByDecisionSpan(s, s.inflight[step.i])
  }

  lemma DecisionTrueCaches(cfg: Config, s: State, id: TraceID)
    requires Inv(s) && id !in Decided(s)
    ensures var s' := DecisionTrue(cfg, s, id);
            && s'.sampled == s.sampled.Added(id, ())
            && s'.notSampled == if id in Held(s) then s.notSampled.Added(id, ()) else s.notSampled
  {
    if TierLookup(s, id).Some? {
      var t := TierTouched(s, id);
      TierTouchedKeeps(s, id);
      var u := SendHeld(cfg, t, id, TierLookup(s, id).value, true);
      if id in s.primary.vals {
        assert PrimaryDelete(u, id).notSampled == s.notSampled.Added(id, ());
      } else {
        assert t.secondary.vals[id].meta.priority == Low;
        assert SecondaryDelete(u, id).notSampled == s.notSampled.Added(id, ());
      }
    }
  }

  lemma ReleaseSampledCaches(cfg: Config, s: State, id: TraceID, batch: Traces)
    requires Inv(s) && id !in Decided(s)
    ensures var s' := ReleaseSampled(cfg, s, id, TierLookup(s, id), batch);
            s'.sampled.vals == s.sampled.Added(id, ()).vals && s'.notSampled.vals == s.notSampled.vals
  {
    ReleaseSampledKeeps(cfg, s, id, TierLookup(s, id), batch);
    AddSampledKeeps(s, id);
    if TierLookup(s, id).Some? {
      var s1 := s.(sampled := s.sampled.Added(id, ()));
      TierDeleteEffect(SendHeld(cfg, s1, id, TierLookup(s, id).value, false), id);
    }
  }

  lemma EvaluateCaches(cfg: Config, s: State, g: Group, now: int, env: nat)
    requires Inv(s) && Effective(s, g.id) == Unevaluated && g.resource.decision.None?
    ensures var s' := Evaluate(cfg, s, g, now, env);
            if SamplesGroup(cfg, s, g, now, env) then
              s'.sampled.vals == s.sampled.Added(g.id, ()).vals && s'.notSampled.vals == s.notSampled.vals
            else s'.sampled.vals == s.sampled.vals
  {
    var batch, held, s1 := BatchOf(g), TierLookup(s, g.id), TierTouched(s, g.id);
    TierTouchedKeeps(s, g.id);
    match NewEntry(cfg.compress, cfg.codec, now, batch)
    case Err(_) =>
    case Ok(td) =>
      var v := VerdictFor(cfg, s, g, now, env);
      if v.decision == Sampled {
        ReleaseSampledCaches(cfg, s1, g.id, batch);
      } else if v.decision == NotSampled {
        ReleaseNotSampledKeeps(cfg, s1, g.id, if v.emit then v.policy else None);
      } else {
        HoldKeeps(cfg, s1, g.id, Lowered(td, MergedMeta(now, batch, held), v), held);
      }
  }

  /** What processing one group does to the keys of the decision caches, as far as a recorded
      Sampled decision is concerned. */
  lemma GroupCaches(cfg: Config, s: State, g: Group, now: int, env: nat)
    requires Inv(s)
    ensures var s' := ProcessGroup(cfg, s, g, now, env);
            if SamplesGroup(cfg, s, g, now, env) then
              && s'.sampled.vals == s.sampled.Added(g.id, ()).vals
              && s'.notSampled.vals ==
                 (if ReleasesByDecisionSpan(s, g) then s.notSampled.Added(g.id, ()) else s.notSampled).vals
            else s'.sampled.vals == s.sampled.vals
  {
    CheckedNotes(s, g.id);
    if Effective(s, g.id) == Unevaluated {
      assert Checked(s, g.id) == s;
      if g.resource.decision.None? {
        EvaluateCaches(cfg, s, g, now, env);
      } else if g.resource.decision.value {
        DecisionTrueCaches(cfg, s, g.id);
      } else {
        ReleaseNotSampledKeeps(cfg, s, g.id, None);
      }
    }
  }

  ghost predicate OldestOfFull(c: Lru<()>, id: TraceID) {
    |c.order| == c.cap && c.cap > 0 && c.order[0] == id
  }

  lemma AddedDropsOldest(c: Lru<()>, x: TraceID, id: TraceID)
    requires c.Valid() && c.cap > 0 && x !in c.vals && id in c.vals
    ensures id !in c.Added(x, ()).vals <==> OldestOfFull(c, id)
  {
    AddedValid(c, x, ());
  }

  /** A trace that is in both caches loses its Sampled decision in a step exactly when the step
      records another trace as sampled while this one is the oldest entry of a full sampled cache.
      It then counts as not sampled, unless the same step, by releasing pending data, pushes it out
      of the other cache as well. */
  lemma OverlapFlipsIff(cfg: Config, s: State, step: Step, id: TraceID)
    requires Inv(s) && id in Both(s)
    ensures Effective(s, id) == Sampled
    ensures Effective(Next(cfg, s, step), id) != Sampled <==> Samples(cfg, s, step) && OldestOfFull(s.sampled, id)
    ensures Effective(Next(cfg, s, step), id) == NotSampled <==>
            && Samples(cfg, s, step) && OldestOfFull(s.sampled, id)
            && !(Releases(s, step) && OldestOfFull(s.notSampled, id))
  {
    match step
    case Receive(g) => CheckedNotes(s, g.id);
    case Process(i, now, env) =>
      if i < |s.inflight| {
        var s0, g := s.(inflight := WithoutIndex(s.inflight, i)), s.inflight[i];
        GroupCaches(cfg, s0, g, now, env);
        if SamplesGroup(cfg, s, g, now, env) {
          AddedDropsOldest(s.sampled, g.id, id);
          AddedDropsOldest(s.notSampled, g.id, id);
        }
      }
    case Regulate(size) => PrimaryResizeKeeps(cfg, s, size);
  }

  /** And the next batch of a trace that has flipped is dropped on arrival. */
  lemma FlippedTraceIsDropped(cfg: Config, s: State, step: Step, later: Group)
    requires Inv(s) && later.id in Both(s) && later.resource.decision.None?
    requires Samples(cfg, s, step) && OldestOfFull(s.sampled, later.id)
    requires !(Releases(s, step) && OldestOfFull(s.notSampled, later.id))
    ensures var s' := Next(cfg, s, step);
            EarlyCheck(s', later).dropped == s'.dropped + [Batch(later.id, BatchOf(later))]
  {
    OverlapFlipsIff(cfg, s, step, later.id);
  }
}
