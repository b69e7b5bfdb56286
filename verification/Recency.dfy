/** Least recently used means: whose last batch arrived longest ago. */
module Recency {
  import opened Pdata
  import opened TraceValues
  import opened Decider
  import opened Lru
  import opened Engine
  import opened Invariant
  import opened History
  import opened Tiered

  type Times = map<TraceID, nat>

  /** The times after a group was evaluated. */
  ghost function Stamp(cfg: Config, s: State, g: Group, now: int, env: nat, time: Times, clock: nat): Times {
    if Holds(cfg, s, g, now, env) then time[g.id := clock] else time
  }

  ghost function StampNext(cfg: Config, s: State, step: Step, time: Times, clock: nat): Times {
    if step.Process? && step.i < |s.inflight| then Stamp(cfg, s, s.inflight[step.i], step.now, step.env, time, clock)
    else time
  }

  /** The number of the step that last held a batch for each trace. */
  ghost function LastHeld(cfg: Config, s: State, steps: seq<Step>): Times
    requires Inv(s)
  {
    if steps == [] then map[]
    else
      var init := steps[..|steps| - 1];
      StampNext(cfg, Run(cfg, s, init), steps[|steps| - 1], LastHeld(cfg, s, init), |init|)
  }

  /** Both tiers list their traces in the order of `time`. */
  ghost predicate InOrder(s: State, time: Times) {
    && s.primary.Valid() && s.secondary.Valid()
    && OrderedBy(s.primary.order, time) && OrderedBy(s.secondary.order, time)
  }

  /** `id` carries the newest time of all. */
  ghost predicate Newest(id: TraceID, time: Times) {
    id in time && forall x :: x in time ==> time[x] <= time[id]
  }

  // ----- cache operations on `id` keep the order, once `id` carries the newest time -----

  lemma AppendInOrder(o: seq<TraceID>, id: TraceID, time: Times)
    requires OrderedBy(o, time) && Newest(id, time)
    ensures OrderedBy(o + [id], time)
  {
  }

  lemma TouchedInOrder<V>(c: Lru<V>, id: TraceID, time: Times)
    requires c.Valid() && OrderedBy(Without(c.order, id), time) && Newest(id, time)
    ensures c.Touched(id).Valid() && OrderedBy(c.Touched(id).order, time)
  {
    TouchedValid(c, id);
    AppendInOrder(Without(c.order, id), id, time);
  }

  lemma RemovedInOrder<V>(c: Lru<V>, id: TraceID, time: Times)
    requires c.Valid() && OrderedBy(c.order, time)
    ensures c.Removed(id).Valid() && OrderedBy(c.Removed(id).order, time)
  {
    RemovedValid(c, id);
    WithoutOrdered(c.order, id, time);
  }

  lemma AddedInOrder<V>(c: Lru<V>, id: TraceID, v: V, time: Times)
    requires c.Valid() && OrderedBy(c.order, time) && Newest(id, time)
    ensures c.Added(id, v).Valid() && OrderedBy(c.Added(id, v).order, time)
  {
    AddedValid(c, id, v);
    WithoutOrdered(c.order, id, time);
    AppendInOrder(Without(c.order, id), id, time);
    AppendInOrder(c.order, id, time);
    TailOrdered(c.order + [id], 1, time);
  }

  lemma PrimaryDeleteInOrder(s: State, id: TraceID, time: Times)
    requires InOrder(s, time)
    ensures InOrder(PrimaryDelete(s, id), time)
  {
    RemovedInOrder(s.primary, id, time);
  }

  lemma SecondaryDeleteInOrder(s: State, id: TraceID, time: Times)
    requires InOrder(s, time)
    ensures InOrder(SecondaryDelete(s, id), time)
  {
    RemovedInOrder(s.secondary, id, time);
  }

  lemma TierDeleteInOrder(s: State, id: TraceID, time: Times)
    requires InOrder(s, time)
    ensures InOrder(TierDelete(s, id), time)
  {
    PrimaryDeleteInOrder(s, id, time);
    SecondaryDeleteInOrder(PrimaryDelete(s, id), id, time);
  }

  lemma PrimaryPutInOrder(cfg: Config, s: State, id: TraceID, e: Entry, time: Times)
    requires InOrder(s, time) && Newest(id, time)
    ensures InOrder(PrimaryPut(cfg, s, id, e), time)
  {
    AddedInOrder(s.primary, id, e, time);
  }

  lemma SecondaryPutInOrder(cfg: Config, s: State, id: TraceID, e: Entry, time: Times)
    requires InOrder(s, time) && Newest(id, time)
    ensures InOrder(SecondaryPut(cfg, s, id, e), time)
  {
    AddedInOrder(s.secondary, id, e, time);
  }

  lemma TierPutInOrder(cfg: Config, s: State, id: TraceID, e: Entry, time: Times)
    requires InOrder(s, time) && Newest(id, time)
    ensures InOrder(TierPut(cfg, s, id, e), time)
  {
    if e.meta.priority == Low {
      PrimaryDeleteInOrder(s, id, time);
      SecondaryPutInOrder(cfg, PrimaryDelete(s, id), id, e, time);
    } else {
      SecondaryDeleteInOrder(s, id, time);
      PrimaryPutInOrder(cfg, SecondaryDelete(s, id), id, e, time);
    }
  }

  // ----- steps -----

  lemma HoldInOrder(cfg: Config, s: State, id: TraceID, td: Entry, time: Times)
    requires Inv(s) && InOrder(s, time) && Newest(id, time)
    ensures InOrder(Hold(cfg, s, id, td, TierLookup(s, id)), time)
  {
    if TierLookup(s, id).None? {
      TierPutInOrder(cfg, s, id, td, time);
    } else {
      var e := AbsorbEntry(TierLookup(s, id).value, td);
      TierMutatedKeeps(s, id, td);
      TierPutInOrder(cfg, TierMutated(s, id, e), id, e, time);
    }
  }

  lemma ReleaseNotSampledInOrder(cfg: Config, s: State, id: TraceID, p: Option<string>, time: Times)
    requires InOrder(s, time)
    ensures InOrder(ReleaseNotSampled(cfg, s, id, p), time)
  {
    var s1 := if p.Some? then s.(placeholders := s.placeholders + [Placeholder(id, p.value)]) else s;
    TierDeleteInOrder(DropHeld(cfg, s1.(notSampled := s1.notSampled.Added(id, ())), id), id, time);
  }

  lemma ExportHeldInOrder(cfg: Config, s: State, id: TraceID, e: Entry, always: bool, time: Times)
    requires InOrder(s, time)
    ensures InOrder(ExportHeld(cfg, s, id, e, always), time)
  {
    var s1 := SendHeld(cfg, s, id, e, always);
    TierDeleteInOrder(s1, id, time);
  }

  /** Restamping an ID that is not listed changes nothing. */
  lemma RestampAbsent(o: seq<TraceID>, id: TraceID, time: Times, now: nat)
    requires id !in o
    ensures OrderedBy(o, time) <==> OrderedBy(o, time[id := now])
  {
    if OrderedBy(o, time[id := now]) {
      forall x | x in o ensures x in time { assert x in time[id := now]; }
    }
  }

  ghost predicate NoneAfter(time: Times, now: nat) {
    forall x :: x in time ==> time[x] <= now
  }

  lemma TouchedTier<V>(c: Lru<V>, id: TraceID, time: Times, now: nat)
    requires c.Valid() && OrderedBy(c.order, time) && NoneAfter(time, now)
    ensures c.Touched(id).Valid() && OrderedBy(c.Touched(id).order, time[id := now])
  {
    WithoutProps(c.order, id);
    WithoutOrdered(c.order, id, time);
    RestampAbsent(Without(c.order, id), id, time, now);
    TouchedInOrder(c, id, time[id := now]);
  }

  /** A lookup makes the trace the newest of its tier before its batch is stamped: from here to the
      end of the step the order is that of the times with `id` moved to now. */
  lemma TierTouchedInOrder(s: State, id: TraceID, time: Times, now: nat)
    requires Inv(s) && InOrder(s, time) && NoneAfter(time, now)
    ensures InOrder(TierTouched(s, id), time[id := now])
  {
    TouchedTier(s.primary, id, time, now);
    TouchedTier(s.secondary, id, time, now);
    if id in s.primary.vals { RestampAbsent(s.secondary.order, id, time, now); }
    else { RestampAbsent(s.primary.order, id, time, now); }
  }

  /** Once the trace has left, its new stamp does not matter. */
  lemma GoneInOrder(s: State, id: TraceID, time: Times, now: nat)
    requires InOrder(s, time[id := now]) && id !in Held(s)
    ensures InOrder(s, time)
  {
    RestampAbsent(s.primary.order, id, time, now);
    RestampAbsent(s.secondary.order, id, time, now);
  }

  lemma DecisionTrueInOrder(cfg: Config, s: State, id: TraceID, time: Times, now: nat)
    requires Inv(s) && InOrder(s, time) && NoneAfter(time, now) && id !in Decided(s)
    ensures InOrder(DecisionTrue(cfg, s, id), time)
  {
    DecisionTrueKeeps(cfg, s, id);
    if TierLookup(s, id).Some? {
      TierTouchedInOrder(s, id, time, now);
      ExportHeldInOrder(cfg, TierTouched(s, id), id, TierLookup(s, id).value, true, time[id := now]);
      GoneInOrder(DecisionTrue(cfg, s, id), id, time, now);
    }
  }

  lemma ReleaseSampledInOrder(cfg: Config, s: State, id: TraceID, batch: Traces, time: Times)
    requires InOrder(s, time)
    ensures InOrder(ReleaseSampled(cfg, s, id, TierLookup(s, id), batch), time)
  {
    if TierLookup(s, id).Some? {
      ExportHeldInOrder(cfg, s.(sampled := s.sampled.Added(id, ())), id, TierLookup(s, id).value, false, time);
    }
  }

  lemma EvaluateInOrder(cfg: Config, s: State, g: Group, now: int, env: nat, time: Times, clock: nat)
    requires Inv(s) && InOrder(s, time) && NoneAfter(time, clock)
    requires Effective(s, g.id) == Unevaluated && g.resource.decision.None?
    ensures InOrder(Evaluate(cfg, s, g, now, env), Stamp(cfg, s, g, now, env, time, clock))
  {
    var td := NewEntry(cfg.compress, cfg.codec, now, BatchOf(g));
    if td.Ok? {
      var s1, v, t' := TierTouched(s, g.id), VerdictFor(cfg, s, g, now, env), time[g.id := clock];
      TierTouchedInOrder(s, g.id, time, clock);
      TierTouchedKeeps(s, g.id);
      if v.decision == Sampled {
        ReleaseSampledInOrder(cfg, s1, g.id, BatchOf(g), t');
      } else if v.decision == NotSampled {
        ReleaseNotSampledInOrder(cfg, s1, g.id, if v.emit then v.policy else None, t');
      } else {
        HoldInOrder(cfg, s1, g.id, Lowered(td.value, MergedMeta(now, BatchOf(g), TierLookup(s, g.id)), v), t');
      }
      EvaluateKeeps(cfg, s, g, now, env);
      if !Holds(cfg, s, g, now, env) { GoneInOrder(Evaluate(cfg, s, g, now, env), g.id, time, clock); }
    }
  }

  lemma ProcessInOrder(cfg: Config, s: State, g: Group, now: int, env: nat, time: Times, clock: nat)
    requires Inv(s) && InOrder(s, time) && NoneAfter(time, clock)
    ensures InOrder(ProcessGroup(cfg, s, g, now, env), Stamp(cfg, s, g, now, env, time, clock))
  {
    CheckedNotes(s, g.id);
    var s1 := Checked(s, g.id);
    if Effective(s, g.id) == Unevaluated {
      if g.resource.decision.None? {
        EvaluateInOrder(cfg, s1, g, now, env, time, clock);
      } else if g.resource.decision.value {
        DecisionTrueInOrder(cfg, s1, g.id, time, clock);
      } else {
        ReleaseNotSampledInOrder(cfg, s1, g.id, None, time);
      }
    }
  }

  lemma StampFrame(cfg: Config, s: State, t: State, g: Group, now: int, env: nat, time: Times, clock: nat)
    requires t.primary == s.primary && t.secondary == s.secondary && Effective(t, g.id) == Effective(s, g.id)
    ensures Stamp(cfg, s, g, now, env, time, clock) == Stamp(cfg, t, g, now, env, time, clock)
  {
  }

  lemma ResizeInOrder(cfg: Config, s: State, n: nat, time: Times)
    requires Inv(s) && InOrder(s, time)
    ensures InOrder(PrimaryResize(cfg, s, n), time)
  {
    PrimaryResizeKeeps(cfg, s, n);
    TailOrdered(s.primary.order, s.primary.Excess(n), time);
  }

  /** Nothing that order depends on has changed. */
  lemma SameTiersInOrder(s: State, s': State, time: Times)
    requires InOrder(s, time) && s'.primary == s.primary && s'.secondary == s.secondary
    ensures InOrder(s', time)
  {
  }

  lemma NextInOrder(cfg: Config, s: State, step: Step, time: Times, clock: nat)
    requires Inv(s) && InOrder(s, time) && NoneAfter(time, clock)
    ensures InOrder(Next(cfg, s, step), StampNext(cfg, s, step, time, clock))
  {
    match step
    case Receive(g) => SameTiersInOrder(s, EarlyCheck(s, g), time);
    case Process(i, now, env) =>
      if i < |s.inflight| {
        NextProcessInOrder(cfg, s, i, now, env, time, clock);
      }
    case Regulate(size) => ResizeInOrder(cfg, s, size, time);
  }

  lemma NextProcessInOrder(cfg: Config, s: State, i: nat, now: int, env: nat, time: Times, clock: nat)
    requires Inv(s) && InOrder(s, time) && NoneAfter(time, clock) && i < |s.inflight|
    ensures InOrder(ProcessGroup(cfg, s.(inflight := WithoutIndex(s.inflight, i)), s.inflight[i], now, env),
                    Stamp(cfg, s, s.inflight[i], now, env, time, clock))
  {
    var s0 := s.(inflight := WithoutIndex(s.inflight, i));
    ProcessInOrder(cfg, s0, s.inflight[i], now, env, time, clock);
    StampFrame(cfg, s, s0, s.inflight[i], now, env, time, clock);
  }

  lemma {:induction false} RunInOrder(cfg: Config, start: State, steps: seq<Step>)
    requires Inv(start) && start.primary.order == [] && start.secondary.order == []
    ensures var time := LastHeld(cfg, start, steps);
            InOrder(Run(cfg, start, steps), time) && (forall x :: x in time ==> time[x] < |steps|)
  {
    if steps != [] {
      var init := steps[..|steps| - 1];
      RunInOrder(cfg, start, init);
      NextInOrder(cfg, Run(cfg, start, init), steps[|steps| - 1], LastHeld(cfg, start, init), |init|);
    }
  }

  // ----- the theorems -----

  /** Over every run, each tier lists its traces in the order in which they last received a batch. */
  lemma RecencyIsArrivalOrder(cfg: Config, p: nat, q: nat, y: nat, n: nat, steps: seq<Step>)
    requires y > 0 && n > 0
    ensures Inv(Initial(p, q, y, n))
    ensures var s, time := Run(cfg, Initial(p, q, y, n), steps), LastHeld(cfg, Initial(p, q, y, n), steps);
            && (forall x :: x in Held(s) ==> x in time)
            && (forall i, j :: 0 <= i < j < |s.primary.order| ==> time[s.primary.order[i]] <= time[s.primary.order[j]])
            && (forall i, j :: 0 <= i < j < |s.secondary.order| ==>
                time[s.secondary.order[i]] <= time[s.secondary.order[j]])
  {
    InitialInv(p, q, y, n);
    RunInOrder(cfg, Initial(p, q, y, n), steps);
  }

  // ----- who leaves in a step -----

  /** Of the traces other than `id`, at most the oldest of each tier has left it, and that only if
      `id` was not in that tier. */
  ghost predicate OnlyOldestLeaves(c: Lru<Entry>, c': Lru<Entry>, id: TraceID) {
    forall x :: x in c.vals && x !in c'.vals && x != id ==> c.order != [] && x == c.order[0] && id !in c.vals
  }

  ghost predicate OnlyOldestLeave(s: State, s': State, id: TraceID) {
    OnlyOldestLeaves(s.primary, s'.primary, id) && OnlyOldestLeaves(s.secondary, s'.secondary, id)
  }

  lemma TierPutLeavers(cfg: Config, s: State, id: TraceID, e: Entry)
    requires CachesValid(s)
    ensures OnlyOldestLeave(s, TierPut(cfg, s, id, e), id)
  {
    if e.meta.priority == Low {
      PrimaryDeleteContents(s, id);
      PrimaryDeleteEffect(s, id);
      SecondaryPutContents(cfg, PrimaryDelete(s, id), id, e);
    } else {
      SecondaryDeleteContents(s, id);
      SecondaryDeleteEffect(s, id);
      PrimaryPutContents(cfg, SecondaryDelete(s, id), id, e);
    }
  }

  lemma HoldLeavers(cfg: Config, s: State, id: TraceID, td: Entry)
    requires Inv(s)
    ensures OnlyOldestLeave(s, Hold(cfg, s, id, td, TierLookup(s, id)), id)
  {
    if TierLookup(s, id).None? {
      TierPutLeavers(cfg, s, id, td);
    } else {
      var e := AbsorbEntry(TierLookup(s, id).value, td);
      TierMutatedKeeps(s, id, td);
      TierPutLeavers(cfg, TierMutated(s, id, e), id, e);
    }
  }

  /** Only `id` has left. */
  ghost predicate OthersStay(s: State, s': State, id: TraceID) {
    s'.primary.vals.Keys == s.primary.vals.Keys - {id} && s'.secondary.vals.Keys == s.secondary.vals.Keys - {id}
  }

  lemma TierDeleteOthers(s: State, id: TraceID)
    requires CachesValid(s)
    ensures OthersStay(s, TierDelete(s, id), id)
  {
    PrimaryDeleteContents(s, id);
    PrimaryDeleteEffect(s, id);
    SecondaryDeleteContents(PrimaryDelete(s, id), id);
  }

  lemma DecisionTrueOthers(cfg: Config, s: State, id: TraceID)
    requires Inv(s)
    ensures OnlyOldestLeave(s, DecisionTrue(cfg, s, id), id)
  {
    if TierLookup(s, id).Some? {
      TierTouchedKeeps(s, id);
      TierDeleteOthers(SendHeld(cfg, TierTouched(s, id), id, TierLookup(s, id).value, true), id);
    }
  }

  lemma ReleaseSampledOthers(cfg: Config, s: State, id: TraceID, batch: Traces)
    requires Inv(s)
    ensures OnlyOldestLeave(s, ReleaseSampled(cfg, s, id, TierLookup(s, id), batch), id)
  {
    if TierLookup(s, id).Some? {
      AddSampledKeeps(s, id);
      TierDeleteOthers(SendHeld(cfg, s.(sampled := s.sampled.Added(id, ())), id, TierLookup(s, id).value, false), id);
    }
  }

  lemma ReleaseNotSampledOthers(cfg: Config, s: State, id: TraceID, p: Option<string>)
    requires Inv(s)
    ensures OnlyOldestLeave(s, ReleaseNotSampled(cfg, s, id, p), id)
  {
    var s1 := if p.Some? then s.(placeholders := s.placeholders + [Placeholder(id, p.value)]) else s;
    AddedValid(s.notSampled, id, ());
    TierDeleteOthers(DropHeld(cfg, s1.(notSampled := s1.notSampled.Added(id, ())), id), id);
  }

  lemma ActLeavers(cfg: Config, s: State, id: TraceID, batch: Traces, td: Entry, v: Verdict)
    requires Inv(s)
    ensures OnlyOldestLeave(s, Act(cfg, s, id, batch, td, TierLookup(s, id), v), id)
  {
    if v.decision == Sampled {
      ReleaseSampledOthers(cfg, s, id, batch);
    } else if v.decision == NotSampled {
      ReleaseNotSampledOthers(cfg, s, id, if v.emit then v.policy else None);
    } else {
      HoldLeavers(cfg, s, id, td);
    }
  }

  /** A lookup of `id` moves nothing but `id`. */
  lemma AfterTouch(s: State, s1: State, s': State, id: TraceID)
    requires s1 == TierTouched(s, id) && s.primary.Valid() && s.secondary.Valid() && OnlyOldestLeave(s1, s', id)
    ensures OnlyOldestLeave(s, s', id)
  {
    TouchedKeeps(s, id);
  }

  lemma EvaluateLeavers(cfg: Config, s: State, g: Group, now: int, env: nat)
    requires Inv(s)
    ensures OnlyOldestLeave(s, Evaluate(cfg, s, g, now, env), g.id)
  {
    var batch, s1 := BatchOf(g), TierTouched(s, g.id);
    TierTouchedKeeps(s, g.id);
    match NewEntry(cfg.compress, cfg.codec, now, batch)
    case Err(_) =>
    case Ok(td) =>
      var v := VerdictFor(cfg, s, g, now, env);
      var low := Lowered(td, MergedMeta(now, batch, TierLookup(s, g.id)), v);
      EvaluateIsAct(cfg, s, g, now, env, td, low);
      ActLeavers(cfg, s1, g.id, batch, low, v);
      AfterTouch(s, s1, Evaluate(cfg, s, g, now, env), g.id);
  }

  /** Processing a group evicts, besides taking its own trace away, at most the oldest of a tier that
      does not hold its trace. */
  lemma ProcessLeavers(cfg: Config, s: State, g: Group, now: int, env: nat)
    requires Inv(s)
    ensures OnlyOldestLeave(s, ProcessGroup(cfg, s, g, now, env), g.id)
  {
    CheckedNotes(s, g.id);
    var s1 := Checked(s, g.id);
    if Effective(s, g.id) == Unevaluated {
      if g.resource.decision.None? {
        EvaluateLeavers(cfg, s1, g, now, env);
      } else if g.resource.decision.value {
        DecisionTrueOthers(cfg, s1, g.id);
      } else {
        ReleaseNotSampledOthers(cfg, s1, g.id, None);
      }
    }
  }

  // ----- victims -----

  /** So the victim of an overflow is the trace of its tier that received a batch longest ago. */
  lemma VictimIsOldest(c: Lru<Entry>, time: Times, id: TraceID, e: Entry)
    requires c.Valid() && c.cap > 0 && OrderedBy(c.order, time)
    requires c.Victim(id, e).Some?
    ensures var x := c.Victim(id, e).value.0;
            x in c.vals && forall y :: y in c.vals ==> x in time && y in time && time[x] <= time[y]
  {
    forall y | y in c.vals ensures y in time && time[c.order[0]] <= time[y] {
      var i :| 0 <= i < |c.order| && c.order[i] == y;
    }
  }

  /** And every victim of a resize is at least as old as every survivor. */
  lemma ResizeVictimsAreOldest(c: Lru<Entry>, time: Times, n: nat, v: TraceID, k: TraceID)
    requires c.Valid() && OrderedBy(c.order, time)
    requires v in c.vals && v !in c.Resized(n).vals && k in c.Resized(n).vals
    ensures v in time && k in time && time[v] <= time[k]
  {
    ResizedValid(c, n);
    var d := c.Excess(n);
    assert v in c.order[..d] && k in c.Resized(n).order;
    BeforeAndAfter(c.order, d, v, k, time);
  }

  lemma BeforeAndAfter(o: seq<TraceID>, d: nat, v: TraceID, k: TraceID, time: Times)
    requires OrderedBy(o, time) && d <= |o| && v in o[..d] && k in o[d..]
    ensures v in time && k in time && time[v] <= time[k]
  {
    var i :| 0 <= i < d && o[..d][i] == v;
    var j :| 0 <= j < |o| - d && o[d..][j] == k;
    assert o[i] == v && o[d + j] == k;
  }

  /** `x` has left a tier in which `z` was too; in a resize `z` stays. */
  ghost predicate EvictedBefore(c: Lru<Entry>, c': Lru<Entry>, step: Step, x: TraceID, z: TraceID) {
    && x in c.vals && x !in c'.vals && z in c.vals
    && (step.Regulate? ==> z in c'.vals)
  }

  ghost predicate IsAbout(s: State, step: Step, x: TraceID) {
    step.Process? && step.i < |s.inflight| && s.inflight[step.i].id == x
  }

  lemma OldestFirst(c: Lru<Entry>, time: Times, z: TraceID)
    requires c.Valid() && OrderedBy(c.order, time) && z in c.vals
    ensures c.order != [] && c.order[0] in time && z in time && time[c.order[0]] <= time[z]
  {
    var i :| 0 <= i < |c.order| && c.order[i] == z;
    assert c.order[0] in c.order;
  }

  lemma NextEvictsOldest(cfg: Config, s: State, step: Step, time: Times, x: TraceID, z: TraceID)
    requires Inv(s) && InOrder(s, time) && !IsAbout(s, step, x)
    ensures var s' := Next(cfg, s, step);
            && (EvictedBefore(s.primary, s'.primary, step, x, z) ==> x in time && z in time && time[x] <= time[z])
            && (EvictedBefore(s.secondary, s'.secondary, step, x, z) ==> x in time && z in time && time[x] <= time[z])
  {
    var s' := Next(cfg, s, step);
    match step
    case Receive(g) =>
    case Process(i, now, env) =>
      if i < |s.inflight| {
        ProcessLeavers(cfg, s.(inflight := WithoutIndex(s.inflight, i)), s.inflight[i], now, env);
        if EvictedBefore(s.primary, s'.primary, step, x, z) { OldestFirst(s.primary, time, z); }
        if EvictedBefore(s.secondary, s'.secondary, step, x, z) { OldestFirst(s.secondary, time, z); }
      }
    case Regulate(size) =>
      PrimaryResizeKeeps(cfg, s, size);
      if EvictedBefore(s.primary, s'.primary, step, x, z) { ResizeVictimsAreOldest(s.primary, time, size, x, z); }
  }

  /** In every run of a fresh processor, a trace that leaves a tier in a step about another trace had
      its last batch no later than any trace of that tier; one that a resize evicts, no later than
      any that stays. */
  lemma EvictedTracesAreOldest(cfg: Config, p: nat, q: nat, y: nat, n: nat, steps: seq<Step>, step: Step, x: TraceID,
      z: TraceID)
    requires y > 0 && n > 0
    ensures Inv(Initial(p, q, y, n))
    ensures var s, time := Run(cfg, Initial(p, q, y, n), steps), LastHeld(cfg, Initial(p, q, y, n), steps);
            var s' := Next(cfg, s, step);
            !IsAbout(s, step, x) ==>
              && (EvictedBefore(s.primary, s'.primary, step, x, z) ==> x in time && z in time && time[x] <= time[z])
              && (EvictedBefore(s.secondary, s'.secondary, step, x, z) ==> x in time && z in time && time[x] <= time[z])
  {
    InitialInv(p, q, y, n);
    var start := Initial(p, q, y, n);
    RunInOrder(cfg, start, steps);
    var s := Run(cfg, start, steps);
    if !IsAbout(s, step, x) { NextEvictsOldest(cfg, s, step, LastHeld(cfg, start, steps), x, z); }
  }
}
