/** What is held for a trace is exactly its history since it was admitted, and its tier and stored
    policy name tell that history's verdicts. */
module History {
  import opened Pdata
  import opened TraceValues
  import opened Decider
  import opened Lru
  import opened Engine
  import opened Invariant

  /** One batch that was held, with the time and the verdict of its evaluation. */
  datatype Rec = Rec(batch: Traces, now: int, verdict: Verdict)

  type Log = map<TraceID, seq<Rec>>

  // ----- recording a run -----

  /** The group is evaluated, because its trace is undecided, and stays pending. */
  ghost predicate Holds(cfg: Config, s: State, g: Group, now: int, env: nat) {
    && Effective(s, g.id) == Unevaluated && g.resource.decision.None?
    && Holding(cfg, s, g, now, env).Some?
  }

  /** A trace's log starts afresh whenever it is admitted without data being held. */
  ghost function LogGroup(cfg: Config, s: State, log: Log, g: Group, now: int, env: nat): Log {
    if Holds(cfg, s, g, now, env) then
      var before := if TierLookup(s, g.id).Some? && g.id in log then log[g.id] else [];
      log[g.id := before + [Rec(BatchOf(g), now, VerdictFor(cfg, s, g, now, env))]]
    else log
  }

  ghost function LogNext(cfg: Config, s: State, log: Log, step: Step): Log {
    if step.Process? && step.i < |s.inflight| then LogGroup(cfg, s, log, s.inflight[step.i], step.now, step.env)
    else log
  }

  ghost function RunLog(cfg: Config, s: State, steps: seq<Step>): Log
    requires Inv(s)
  {
    if steps == [] then map[]
    else
      var init := steps[..|steps| - 1];
      LogNext(cfg, Run(cfg, s, init), RunLog(cfg, s, init), steps[|steps| - 1])
  }

  // ----- what a log says should be held -----

  function Concat(recs: seq<Rec>): Traces {
    if recs == [] then [] else Concat(recs[..|recs| - 1]) + recs[|recs| - 1].batch
  }

  /** The metadata of one recorded batch, as it is absorbed. */
  function RecMeta(r: Rec): Meta {
    if r.verdict.decision == LowPriority then MetaOf(r.now, Spans(r.batch), Low, r.verdict.policy)
    else MetaOf(r.now, Spans(r.batch), Unspecified, None)
  }

  function LogMeta(recs: seq<Rec>): Meta
    requires recs != []
  {
    var last := RecMeta(recs[|recs| - 1]);
    if |recs| == 1 then last else MergeMeta(LogMeta(recs[..|recs| - 1]), last)
  }

  /** The facade holds `t`, in the representation the configuration asks for. */
  ghost predicate Represents(cfg: Config, f: Facade, t: Traces) {
    if cfg.compress then f.Snappy? && DecodeAll(cfg.codec, f.blobs) == Ok(t) else f == Plain(t)
  }

  ghost predicate PendingVerdict(v: Verdict) {
    v.decision == Pending || (v.decision == LowPriority && v.policy.Some?)
  }

  ghost predicate SameStreak(before: Verdict, after: Verdict) {
    before.decision == LowPriority && after.decision == LowPriority ==> after.policy == before.policy
  }

  /** Verdicts are pending ones, and a low-priority verdict right after another is by a policy of
      the same name. */
  ghost predicate Streaks(recs: seq<Rec>) {
    && (forall i :: 0 <= i < |recs| ==> PendingVerdict(recs[i].verdict))
    && (forall i :: 0 < i < |recs| ==> SameStreak(recs[i - 1].verdict, recs[i].verdict))
  }

  ghost predicate Explained(cfg: Config, e: Entry, recs: seq<Rec>) {
    recs != [] && Streaks(recs) && e.meta == LogMeta(recs) && Represents(cfg, e.data, Concat(recs))
  }

  ghost predicate TierExplained(cfg: Config, c: Lru<Entry>, log: Log) {
    forall x :: x in c.vals ==> x in log && Explained(cfg, c.vals[x], log[x])
  }

  ghost predicate AllExplained(cfg: Config, s: State, log: Log) {
    TierExplained(cfg, s.primary, log) && TierExplained(cfg, s.secondary, log)
  }

  // ----- one batch -----

  lemma FirstExplained(cfg: Config, td: Entry, r: Rec)
    requires PendingVerdict(r.verdict) && td.meta == RecMeta(r) && Represents(cfg, td.data, r.batch)
    ensures Explained(cfg, td, [r])
  {
    var none: seq<Rec> := [r][..0];
    assert none == [];
    assert Concat([r]) == [] + r.batch == r.batch;
  }

  lemma AbsorbExplained(cfg: Config, e: Entry, td: Entry, recs: seq<Rec>, r: Rec)
    requires Explained(cfg, e, recs)
    requires PendingVerdict(r.verdict) && td.meta == RecMeta(r) && Represents(cfg, td.data, r.batch)
    requires r.verdict.decision == LowPriority && e.meta.lastLow.Some? ==> r.verdict.policy == e.meta.lastLow
    ensures Explained(cfg, AbsorbEntry(e, td), recs + [r])
  {
    var all := recs + [r];
    assert all[..|recs|] == recs;
    if cfg.compress { DecodeConcat(cfg.codec, e.data.blobs, td.data.blobs); }
    LastLowOfLog(recs);
  }

  /** The stored name is present exactly when the last verdict was LowPriority, and names its policy. */
  lemma LastLowOfLog(recs: seq<Rec>)
    requires recs != []
    ensures var v := recs[|recs| - 1].verdict;
            LogMeta(recs).lastLow == if v.decision == LowPriority then v.policy else None
  {
  }

  /** The stored priority is Low exactly when every verdict was LowPriority. */
  lemma {:induction false} PriorityOfLog(recs: seq<Rec>)
    requires recs != []
    ensures LogMeta(recs).priority == Low <==> forall i :: 0 <= i < |recs| ==> recs[i].verdict.decision == LowPriority
  {
    if |recs| > 1 {
      PriorityOfLog(recs[..|recs| - 1]);
      assert forall i :: 0 <= i < |recs| - 1 ==> recs[..|recs| - 1][i] == recs[i];
    }
  }

  /** An unbroken streak belongs to one policy name. */
  lemma {:induction false} StreakHasOnePolicy(recs: seq<Rec>, i: nat)
    requires Streaks(recs) && i < |recs|
    requires forall j :: 0 <= j < |recs| ==> recs[j].verdict.decision == LowPriority
    ensures recs[i].verdict.policy == recs[0].verdict.policy
  {
    if i > 0 { StreakHasOnePolicy(recs, i - 1); }
  }

  // ----- one step -----

  lemma NewRepresents(cfg: Config, now: int, t: Traces)
    requires cfg.compress ==> Lossless(cfg.codec)
    ensures NewEntry(cfg.compress, cfg.codec, now, t).Ok?
    ensures Represents(cfg, NewEntry(cfg.compress, cfg.codec, now, t).value.data, t)
  {
    if cfg.compress { NewStandsFor(cfg.codec, t); }
  }

  /** The verdict and the batch that `processTraces` holds fit the record of them. */
  lemma HoldingExplained(cfg: Config, s: State, g: Group, now: int, env: nat, log: Log)
    requires cfg.compress ==> Lossless(cfg.codec)
    requires AllExplained(cfg, s, log)
    requires Holding(cfg, s, g, now, env).Some?
    ensures var held := TierLookup(s, g.id);
            var r := Rec(BatchOf(g), now, VerdictFor(cfg, s, g, now, env));
            && (held.Some? ==> g.id in log)
            && Explained(cfg, Holding(cfg, s, g, now, env).value, (if held.Some? then log[g.id] else []) + [r])
  {
    var held, v, merged := TierLookup(s, g.id), VerdictFor(cfg, s, g, now, env),
        MergedMeta(now, BatchOf(g), TierLookup(s, g.id));
    var r := Rec(BatchOf(g), now, v);
    NewRepresents(cfg, now, BatchOf(g));
    VerdictShape(cfg.policies, env, g.id, BatchOf(g), merged);
    var low := Lowered(NewEntry(cfg.compress, cfg.codec, now, BatchOf(g)).value, merged, v);
    assert low.meta == RecMeta(r);
    if held.Some? {
      AbsorbExplained(cfg, held.value, low, log[g.id], r);
    } else {
      FirstExplained(cfg, low, r);
      assert [] + [r] == [r];
    }
  }

  lemma KeptExplained(cfg: Config, s: State, s': State, id: TraceID, e: Option<Entry>, log: Log, log': Log)
    requires AllExplained(cfg, s, log) && Kept(s, s', id, e)
    requires forall x :: x in log && x != id ==> x in log' && log'[x] == log[x]
    requires e.Some? ==> id in log' && Explained(cfg, e.value, log'[id])
    ensures AllExplained(cfg, s', log')
  {
  }

  lemma LogGroupOnlyAdds(cfg: Config, s: State, log: Log, g: Group, now: int, env: nat)
    requires cfg.compress ==> Lossless(cfg.codec)
    requires AllExplained(cfg, s, log)
    ensures var log' := LogGroup(cfg, s, log, g, now, env);
            && (forall x :: x in log && x != g.id ==> x in log' && log'[x] == log[x])
            && (Holds(cfg, s, g, now, env) ==>
                  g.id in log' && Explained(cfg, Holding(cfg, s, g, now, env).value, log'[g.id]))
  {
    if Holds(cfg, s, g, now, env) { HoldingExplained(cfg, s, g, now, env, log); }
  }

  /** The log of a step depends on the tiers and the decision, not on the rest of the state. */
  lemma LogGroupFrame(cfg: Config, s: State, t: State, log: Log, g: Group, now: int, env: nat)
    requires t.primary == s.primary && t.secondary == s.secondary && Effective(t, g.id) == Effective(s, g.id)
    ensures LogGroup(cfg, s, log, g, now, env) == LogGroup(cfg, t, log, g, now, env)
  {
  }

  lemma EvaluateExplained(cfg: Config, s: State, log: Log, g: Group, now: int, env: nat)
    requires cfg.compress ==> Lossless(cfg.codec)
    requires Inv(s) && AllExplained(cfg, s, log)
    requires Effective(s, g.id) == Unevaluated && g.resource.decision.None?
    ensures AllExplained(cfg, Evaluate(cfg, s, g, now, env), LogGroup(cfg, s, log, g, now, env))
  {
    NewRepresents(cfg, now, BatchOf(g));
    EvaluateKeeps(cfg, s, g, now, env);
    LogGroupOnlyAdds(cfg, s, log, g, now, env);
    var s', e, log' := Evaluate(cfg, s, g, now, env), Holding(cfg, s, g, now, env), LogGroup(cfg, s, log, g, now, env);
    assert Kept(s, s', g.id, e);
    KeptExplained(cfg, s, s', g.id, e, log, log');
  }

  /** A decision span only removes. */
  lemma DecisionSpanExplained(cfg: Config, s: State, log: Log, id: TraceID)
    requires Inv(s) && AllExplained(cfg, s, log) && id !in Decided(s)
    ensures AllExplained(cfg, DecisionTrue(cfg, s, id), log)
    ensures AllExplained(cfg, ReleaseNotSampled(cfg, s, id, None), log)
  {
    DecisionTrueKeeps(cfg, s, id);
    KeptExplained(cfg, s, DecisionTrue(cfg, s, id), id, None, log, log);
    ReleaseNotSampledKeeps(cfg, s, id, None);
    KeptExplained(cfg, s, ReleaseNotSampled(cfg, s, id, None), id, None, log, log);
  }

  /** Checking the decision caches changes neither the tiers nor the decisions. */
  lemma CheckedExplained(cfg: Config, s: State, log: Log, g: Group, now: int, env: nat)
    requires Inv(s) && AllExplained(cfg, s, log)
    ensures var s1 := Checked(s, g.id);
            Inv(s1) && AllExplained(cfg, s1, log) && Effective(s1, g.id) == Effective(s, g.id)
            && LogGroup(cfg, s1, log, g, now, env) == LogGroup(cfg, s, log, g, now, env)
  {
    CheckedNotes(s, g.id);
    LogGroupFrame(cfg, s, Checked(s, g.id), log, g, now, env);
  }

  lemma ProcessExplained(cfg: Config, s: State, log: Log, g: Group, now: int, env: nat)
    requires cfg.compress ==> Lossless(cfg.codec)
    requires Inv(s) && AllExplained(cfg, s, log)
    ensures AllExplained(cfg, ProcessGroup(cfg, s, g, now, env), LogGroup(cfg, s, log, g, now, env))
  {
    CheckedExplained(cfg, s, log, g, now, env);
    var s1 := Checked(s, g.id);
    if Effective(s, g.id) == Unevaluated {
      if g.resource.decision.None? {
        EvaluateExplained(cfg, s1, log, g, now, env);
      } else {
        DecisionSpanExplained(cfg, s1, log, g.id);
      }
    }
  }

  lemma NextExplained(cfg: Config, s: State, log: Log, step: Step)
    requires cfg.compress ==> Lossless(cfg.codec)
    requires Inv(s) && AllExplained(cfg, s, log)
    ensures AllExplained(cfg, Next(cfg, s, step), LogNext(cfg, s, log, step))
  {
    match step
    case Receive(g) =>
    case Process(i, now, env) =>
      if i < |s.inflight| {
        var s0 := s.(inflight := WithoutIndex(s.inflight, i));
        ProcessExplained(cfg, s0, log, s.inflight[i], now, env);
        LogGroupFrame(cfg, s, s0, log, s.inflight[i], now, env);
      }
    case Regulate(size) =>
      ResizedValid(s.primary, size);
      PrimaryResizeKeeps(cfg, s, size);
  }

  lemma {:induction false} RunExplained(cfg: Config, start: State, steps: seq<Step>)
    requires cfg.compress ==> Lossless(cfg.codec)
    requires Inv(start) && AllExplained(cfg, start, map[])
    ensures AllExplained(cfg, Run(cfg, start, steps), RunLog(cfg, start, steps))
  {
    if steps != [] {
      var init := steps[..|steps| - 1];
      RunExplained(cfg, start, init);
      NextExplained(cfg, Run(cfg, start, init), RunLog(cfg, start, init), steps[|steps| - 1]);
    }
  }

  // ----- the theorems -----

  /** Pending history: over every run of a fresh processor, what is held for a trace decodes to the
      concatenation, in order, of the batches since it was admitted, and its metadata is the merge
      of theirs. */
  lemma HeldIsHistory(cfg: Config, p: nat, q: nat, y: nat, n: nat, steps: seq<Step>, id: TraceID)
    requires cfg.compress ==> Lossless(cfg.codec)
    requires y > 0 && n > 0
    ensures Inv(Initial(p, q, y, n))
    ensures var s, log := Run(cfg, Initial(p, q, y, n), steps), RunLog(cfg, Initial(p, q, y, n), steps);
            var held := TierLookup(s, id);
            held.Some? ==>
              id in log && log[id] != []
              && Decoded(cfg, held.value) == Concat(log[id])
              && held.value.meta == LogMeta(log[id])
  {
    InitialInv(p, q, y, n);
    RunExplained(cfg, Initial(p, q, y, n), steps);
  }

  ghost predicate AllLow(recs: seq<Rec>) {
    forall i :: 0 <= i < |recs| ==> recs[i].verdict.decision == LowPriority
  }

  ghost predicate AllBy(recs: seq<Rec>, policy: Option<string>) {
    policy.Some? && forall i :: 0 <= i < |recs| ==> recs[i].verdict.policy == policy
  }

  /** What the metadata of an explained entry tells about its history. */
  lemma MetadataTellsStreak(cfg: Config, e: Entry, recs: seq<Rec>)
    requires Explained(cfg, e, recs)
    ensures e.meta.priority == Low <==> AllLow(recs)
    ensures e.meta.priority == Low ==> e.meta.lastLow.Some? && AllBy(recs, e.meta.lastLow)
    ensures var v := recs[|recs| - 1].verdict;
            e.meta.lastLow == if v.decision == LowPriority then v.policy else None
  {
    PriorityOfLog(recs);
    LastLowOfLog(recs);
    if AllLow(recs) {
      StreakHasOnePolicy(recs, |recs| - 1);
      forall i | 0 <= i < |recs| ensures recs[i].verdict.policy == e.meta.lastLow {
        StreakHasOnePolicy(recs, i);
      }
    }
  }

  /** A trace is in the secondary tier exactly when every batch since it was admitted was decided
      LowPriority, and then by policies of one name, the stored one; and the stored name is present
      exactly when the last batch was LowPriority, and names the policy that said so. */
  lemma SecondaryHoldsOneStreak(cfg: Config, p: nat, q: nat, y: nat, n: nat, steps: seq<Step>, id: TraceID)
    requires cfg.compress ==> Lossless(cfg.codec)
    requires y > 0 && n > 0
    ensures Inv(Initial(p, q, y, n))
    ensures var s, log := Run(cfg, Initial(p, q, y, n), steps), RunLog(cfg, Initial(p, q, y, n), steps);
            TierLookup(s, id).Some? ==>
              && id in log && log[id] != []
              && (id in s.secondary.vals <==> AllLow(log[id]))
              && (id in s.secondary.vals ==> AllBy(log[id], s.secondary.vals[id].meta.lastLow))
              && (TierLookup(s, id).value.meta.lastLow
                  == var v := log[id][|log[id]| - 1].verdict;
                     if v.decision == LowPriority then v.policy else None)
  {
    InitialInv(p, q, y, n);
    RunExplained(cfg, Initial(p, q, y, n), steps);
    var s, log := Run(cfg, Initial(p, q, y, n), steps), RunLog(cfg, Initial(p, q, y, n), steps);
    if TierLookup(s, id).Some? {
      MetadataTellsStreak(cfg, TierLookup(s, id).value, log[id]);
    }
  }

  // ----- the metadata is a single pass over the history -----

  ghost predicate NonzeroStarts(recs: seq<Rec>) {
    forall i :: 0 <= i < |recs| ==> Spans(recs[i].batch) != [] && !HasZeroStart(Spans(recs[i].batch))
  }

  function FirstArrival(recs: seq<Rec>): int
    requires recs != []
  {
    var last := recs[|recs| - 1].now;
    if |recs| == 1 then last else Min(FirstArrival(recs[..|recs| - 1]), last)
  }

  lemma {:induction false} FirstArrivalIsLeast(recs: seq<Rec>)
    requires recs != []
    ensures forall i :: 0 <= i < |recs| ==> FirstArrival(recs) <= recs[i].now
    ensures exists i :: 0 <= i < |recs| && FirstArrival(recs) == recs[i].now
    ensures LogMeta(recs).arrival == FirstArrival(recs)
  {
    if |recs| > 1 {
      var init := recs[..|recs| - 1];
      FirstArrivalIsLeast(init);
      forall i | 0 <= i < |recs| ensures FirstArrival(recs) <= recs[i].now {
        if i < |init| { assert init[i] == recs[i]; }
      }
      var k :| 0 <= k < |init| && FirstArrival(init) == init[k].now;
      assert FirstArrival(recs) == recs[k].now || FirstArrival(recs) == recs[|init|].now;
    } else {
      assert FirstArrival(recs) == recs[0].now;
    }
  }

  /** For batches whose spans all have a nonzero start, the stored metadata is what one pass over
      all the spans held would compute: their number (as an int32), their earliest start, latest
      end, and the earliest arrival. */
  lemma {:induction false} LogMetaIsSinglePass(recs: seq<Rec>)
    requires recs != [] && NonzeroStarts(recs)
    ensures Spans(Concat(recs)) != [] && !HasZeroStart(Spans(Concat(recs)))
    ensures var m := LogMeta(recs);
            m == MetaOf(FirstArrival(recs), Spans(Concat(recs)), m.priority, m.lastLow)
  {
    var n := |recs| - 1;
    var init, r := recs[..n], recs[n];
    if n == 0 {
      assert Concat(init) == [];
      assert Concat(recs) == Concat(init) + r.batch == r.batch;
      assert LogMeta(recs) == RecMeta(r) && FirstArrival(recs) == r.now;
    } else {
      assert forall i :: 0 <= i < n ==> init[i] == recs[i];
      LogMetaIsSinglePass(init);
      ConcatSpans(Concat(init), r.batch);
      var a, b := LogMeta(init), RecMeta(r);
      MergeIsSinglePass(FirstArrival(init), Spans(Concat(init)), a.priority, r.now, Spans(r.batch), b.priority,
          a.lastLow, b.lastLow);
      assert LogMeta(recs) == MergeMeta(a, b) && Concat(recs) == Concat(init) + r.batch;
    }
  }

  lemma ConcatSpans(a: Traces, b: Traces)
    requires Spans(a) != [] && !HasZeroStart(Spans(a)) && !HasZeroStart(Spans(b))
    ensures Spans(a + b) == Spans(a) + Spans(b) && Spans(a + b) != [] && !HasZeroStart(Spans(a + b))
  {
    ItemsConcat(a, b);
    forall x | x in Spans(a) + Spans(b) ensures x.start != 0 {
      assert x in Spans(a) || x in Spans(b);
    }
  }
}
