/** What the decision caches forget: every lookup that finds an ID and every recording make it the
    newest, so it is the decision that has not been used for longest. */
module Lookups {
  import opened Pdata
  import opened TraceValues
  import opened Decider
  import opened Lru
  import opened Engine
  import opened Invariant
  import opened Recency
  import opened Overlap
  import opened Outcomes
  import opened Tiered

  // ----- a lookup -----

  /** `id` has moved to the end; the others keep their order. */
  ghost predicate MovedToEnd(o: seq<TraceID>, o': seq<TraceID>, id: TraceID) {
    exists k :: 0 <= k < |o| && o[k] == id && o' == o[..k] + o[k + 1..] + [id]
  }

  lemma TouchedMoves(c: Lru<()>, id: TraceID)
    requires c.Valid() && id in c.vals
    ensures MovedToEnd(c.order, c.Touched(id).order, id)
  {
    var k := IndexOf(c.order, id);
    assert c.Touched(id).order == c.order[..k] + c.order[k + 1..] + [id];
  }

  /** A group of a decided trace refreshes the decision that is found, when it arrives unless it is a
      decision span, and when it is processed. The other decision cache is not asked. */
  lemma LookupRefreshes(cfg: Config, s: State, g: Group, now: int, env: nat)
    requires Inv(s)
    ensures var r, p := EarlyCheck(s, g), ProcessGroup(cfg, s, g, now, env);
            && (g.id in s.sampled.vals ==>
                  && MovedToEnd(s.sampled.order, p.sampled.order, g.id) && p.notSampled == s.notSampled
                  && (g.resource.decision.None? ==>
                        MovedToEnd(s.sampled.order, r.sampled.order, g.id) && r.notSampled == s.notSampled))
            && (g.id !in s.sampled.vals && g.id in s.notSampled.vals ==>
                  && MovedToEnd(s.notSampled.order, p.notSampled.order, g.id) && p.sampled == s.sampled
                  && (g.resource.decision.None? ==>
                        MovedToEnd(s.notSampled.order, r.notSampled.order, g.id) && r.sampled == s.sampled))
            && (g.resource.decision.Some? ==> r.sampled == s.sampled && r.notSampled == s.notSampled)
  {
    if g.id in s.sampled.vals {
      TouchedMoves(s.sampled, g.id);
    } else if g.id in s.notSampled.vals {
      TouchedMoves(s.notSampled, g.id);
    }
  }

  // ----- what is recorded, exactly -----

  /** `id` is the newest entry. */
  ghost predicate IsNewest(c: Lru<()>, id: TraceID) {
    c.Valid() && c.order != [] && c.order[|c.order| - 1] == id
  }

  lemma TouchNewest(c: Lru<()>, id: TraceID)
    requires c.Valid() && (id in c.vals ==> IsNewest(c, id))
    ensures c.Touched(id) == c
  {
    if id in c.vals {
      var k := |c.order| - 1;
      WithoutSplits(c.order, k);
      assert c.order[..k] + c.order[k + 1..] == c.order[..k];
      assert c.order[..k] + [id] == c.order;
    }
  }

  lemma AddedIsNewest(c: Lru<()>, id: TraceID)
    requires c.Valid() && c.cap > 0 && id !in c.vals
    ensures IsNewest(c.Added(id, ()), id) && id in c.Added(id, ()).vals
  {
    AddedValid(c, id, ());
  }

  /** The eviction callback asks both decision caches, whichever of them knows the trace, and records it as
      the newest rejected one if neither does. */
  lemma CallbackRefreshes(s: State, id: TraceID)
    requires CachesValid(s) && s.notSampled.cap > 0
    ensures var r := CacheEviction(s, id);
            && r == s.(sampled := r.sampled, notSampled := r.notSampled)
            && r.sampled.vals == s.sampled.vals
            && (if id in s.sampled.vals then MovedToEnd(s.sampled.order, r.sampled.order, id)
                else r.sampled == s.sampled)
            && (if id in s.notSampled.vals then
                  MovedToEnd(s.notSampled.order, r.notSampled.order, id) && r.notSampled.vals == s.notSampled.vals
                else if id in s.sampled.vals then r.notSampled == s.notSampled
                else IsNewest(r.notSampled, id) && r.notSampled == s.notSampled.Added(id, ()))
  {
    if id in s.sampled.vals { TouchedMoves(s.sampled, id); }
    if id in s.notSampled.vals { TouchedMoves(s.notSampled, id); }
    if id !in Decided(s) { AddedIsNewest(s.notSampled, id); }
  }

  lemma EvictionSilent(s: State, id: TraceID)
    requires s.sampled.Valid() && s.notSampled.Valid() && id in Decided(s)
    requires id in s.sampled.vals ==> IsNewest(s.sampled, id)
    requires id in s.notSampled.vals ==> IsNewest(s.notSampled, id)
    ensures CacheEviction(s, id) == s
  {
    TouchNewest(s.sampled, id);
    TouchNewest(s.notSampled, id);
  }

  /** A deletion of a trace that has just been decided leaves the decision caches as they are. */
  lemma TierDeleteSilent(s: State, id: TraceID)
    requires CachesValid(s) && id in Decided(s)
    requires id in s.sampled.vals ==> IsNewest(s.sampled, id)
    requires id in s.notSampled.vals ==> IsNewest(s.notSampled, id)
    ensures TierDelete(s, id).sampled == s.sampled && TierDelete(s, id).notSampled == s.notSampled
  {
    EvictionSilent(s.(primary := s.primary.Removed(id)), id);
    var p := PrimaryDelete(s, id);
    assert p.sampled == s.sampled && p.notSampled == s.notSampled;
    EvictionSilent(p.(secondary := p.secondary.Removed(id)), id);
  }

  /** The sampled cache afterwards is as before, or with `id` added. The other one is as before, or
      with one undecided ID added: `id`, or a trace that has lost its place in a tier. */
  ghost predicate Records(s: State, s': State, id: TraceID, samples: bool) {
    && s'.sampled == (if samples then s.sampled.Added(id, ()) else s.sampled)
    && (|| s'.notSampled == s.notSampled
        || exists x :: Notes(s, s', id, x))
  }

  ghost predicate Notes(s: State, s': State, id: TraceID, x: TraceID) {
    x !in Decided(s) && (x == id || (x in Held(s) && x !in Held(s'))) && s'.notSampled == s.notSampled.Added(x, ())
  }

  lemma ReleaseNotSampledRecords(cfg: Config, s: State, id: TraceID, p: Option<string>)
    requires Inv(s) && id !in Decided(s)
    ensures Records(s, ReleaseNotSampled(cfg, s, id, p), id, false)
  {
    var s1 := if p.Some? then s.(placeholders := s.placeholders + [Placeholder(id, p.value)]) else s;
    var s2 := DropHeld(cfg, s1.(notSampled := s1.notSampled.Added(id, ())), id);
    AddedIsNewest(s.notSampled, id);
    TierDeleteSilent(s2, id);
    assert Notes(s, ReleaseNotSampled(cfg, s, id, p), id, id);
  }

  lemma ReleaseSampledRecords(cfg: Config, s: State, id: TraceID, batch: Traces)
    requires Inv(s) && id !in Decided(s)
    ensures Records(s, ReleaseSampled(cfg, s, id, TierLookup(s, id), batch), id, true)
  {
    AddedIsNewest(s.sampled, id);
    if TierLookup(s, id).Some? {
      TierDeleteSilent(SendHeld(cfg, s.(sampled := s.sampled.Added(id, ())), id, TierLookup(s, id).value, false), id);
    }
  }

  lemma DecisionTrueRecords(cfg: Config, s: State, id: TraceID)
    requires Inv(s) && id !in Decided(s)
    ensures Records(s, DecisionTrue(cfg, s, id), id, true)
  {
    DecisionTrueCaches(cfg, s, id);
    if id in Held(s) { assert Notes(s, DecisionTrue(cfg, s, id), id, id); }
  }

  /** A put records its victim, and nothing else. */
  lemma TierPutRecords(cfg: Config, s: State, id: TraceID, e: Entry)
    requires CachesValid(s) && TiersDisjoint(s) && TiersAgree(s, {id}) && Exclusive(s) && id !in Decided(s)
    requires TierLookup(s, id).Some? ==> TierLookup(s, id).value == e
    requires id in s.primary.vals ==> e.meta.priority != Low
    ensures Records(s, TierPut(cfg, s, id, e), id, false)
  {
    TierPutKeeps(cfg, s, id, e);
    PutRecordsVictim(cfg, s, id, e);
    if PutVictim(s, id, e).Some? {
      var x := PutVictim(s, id, e).value.0;
      PutVictimIsHeld(s, id, e);
      PutIsMapPut(cfg, s, id, e);
      LookupIsMapLookup(TierPut(cfg, s, id, e), x);
      assert Notes(s, TierPut(cfg, s, id, e), id, x);
    }
  }

  lemma PutRecordsVictim(cfg: Config, s: State, id: TraceID, e: Entry)
    requires CachesValid(s) && TiersDisjoint(s) && TiersAgree(s, {id}) && Exclusive(s) && id !in Decided(s)
    requires TierLookup(s, id).Some? ==> TierLookup(s, id).value == e
    requires id in s.primary.vals ==> e.meta.priority != Low
    ensures var s', victim := TierPut(cfg, s, id, e), PutVictim(s, id, e);
            && s'.sampled == s.sampled
            && s'.notSampled == (if victim.Some? then s.notSampled.Added(victim.value.0, ()) else s.notSampled)
            && (victim.Some? ==> victim.value.0 !in Decided(s))
  {
    TierPutKeeps(cfg, s, id, e);
    if PutVictim(s, id, e).Some? {
      PutVictimIsHeld(s, id, e);
      if e.meta.priority == Low { VictimIsLow(s, id, e); }
      var x := PutVictim(s, id, e).value.0;
      assert x !in Decided(s);
    }
  }

  lemma VictimIsLow(s: State, id: TraceID, e: Entry)
    requires CachesValid(s) && TiersDisjoint(s) && TiersAgree(s, {id}) && e.meta.priority == Low
    requires PutVictim(s, id, e).Some?
    ensures PutVictim(s, id, e).value.1.meta.priority == Low
  {
    PutVictimIsHeld(s, id, e);
    AddedValid(s.secondary, id, e);
  }

  lemma HoldRecords(cfg: Config, s: State, id: TraceID, td: Entry)
    requires Inv(s) && id !in Decided(s)
    ensures Records(s, Hold(cfg, s, id, td, TierLookup(s, id)), id, false)
  {
    if TierLookup(s, id).None? {
      TierPutRecords(cfg, s, id, td);
    } else {
      var e := AbsorbEntry(TierLookup(s, id).value, td);
      TierMutatedKeeps(s, id, td);
      var m := TierMutated(s, id, e);
      TierPutRecords(cfg, m, id, e);
      RecordsFrom(s, m, TierPut(cfg, m, id, e), id, false);
    }
  }

  lemma RecordsFrom(s: State, m: State, s': State, id: TraceID, samples: bool)
    requires Records(m, s', id, samples) && Held(m) == Held(s)
    requires m.sampled == s.sampled && m.notSampled == s.notSampled
    ensures Records(s, s', id, samples)
  {
    if s'.notSampled != m.notSampled {
      var x :| Notes(m, s', id, x);
      assert Notes(s, s', id, x);
    }
  }

  lemma ActRecords(cfg: Config, s: State, id: TraceID, batch: Traces, td: Entry, v: Verdict)
    requires Inv(s) && id !in Decided(s)
    ensures Records(s, Act(cfg, s, id, batch, td, TierLookup(s, id), v), id, v.decision == Sampled)
  {
    if v.decision == Sampled {
      ReleaseSampledRecords(cfg, s, id, batch);
    } else if v.decision == NotSampled {
      var p := if v.emit then v.policy else None;
      ReleaseNotSampledRecords(cfg, s, id, p);
      DropRecords(s, ReleaseNotSampled(cfg, s, id, p), id, batch);
    } else {
      HoldRecords(cfg, s, id, td);
    }
  }

  lemma DropRecords(s: State, s': State, id: TraceID, t: Traces)
    requires Records(s, s', id, false)
    ensures Records(s, Drop(s', id, t), id, false)
  {
    if s'.notSampled != s.notSampled {
      var x :| Notes(s, s', id, x);
      assert Notes(s, Drop(s', id, t), id, x);
    }
  }

  lemma EvaluateRecords(cfg: Config, s: State, g: Group, now: int, env: nat)
    requires Inv(s) && Effective(s, g.id) == Unevaluated && g.resource.decision.None?
    ensures Records(s, Evaluate(cfg, s, g, now, env), g.id, SamplesGroup(cfg, s, g, now, env))
  {
    UndecidedIsUnchecked(s, g.id);
    var s1 := TierTouched(s, g.id);
    TierTouchedKeeps(s, g.id);
    match NewEntry(cfg.compress, cfg.codec, now, BatchOf(g))
    case Err(_) =>
    case Ok(td) =>
      var v := VerdictFor(cfg, s, g, now, env);
      var low := Lowered(td, MergedMeta(now, BatchOf(g), TierLookup(s, g.id)), v);
      EvaluateIsAct(cfg, s, g, now, env, td, low);
      ActRecords(cfg, s1, g.id, BatchOf(g), low, v);
      RecordsFrom(s, s1, Evaluate(cfg, s, g, now, env), g.id, v.decision == Sampled);
  }

  /** What processing a group of an undecided trace does to the decision caches, order included. */
  lemma GroupRecords(cfg: Config, s: State, g: Group, now: int, env: nat)
    requires Inv(s) && Effective(s, g.id) == Unevaluated
    ensures Records(s, ProcessGroup(cfg, s, g, now, env), g.id, SamplesGroup(cfg, s, g, now, env))
  {
    UndecidedIsUnchecked(s, g.id);
    if g.resource.decision.None? {
      EvaluateRecords(cfg, s, g, now, env);
    } else if g.resource.decision.value {
      DecisionTrueRecords(cfg, s, g.id);
    } else {
      ReleaseNotSampledRecords(cfg, s, g.id, None);
    }
  }

  // ----- a resize -----

  ghost function VictimIDs(victims: seq<(TraceID, Entry)>): seq<TraceID> {
    seq(|victims|, i requires 0 <= i < |victims| => victims[i].0)
  }

  lemma {:induction false} EvictAllRecords(cfg: Config, s: State, victims: seq<(TraceID, Entry)>)
    requires CachesValid(s) && NoDup(VictimIDs(victims))
    requires forall i :: 0 <= i < |victims| ==> victims[i].0 !in Decided(s)
    ensures var s' := EvictAll(cfg, s, victims);
            s'.sampled == s.sampled && s'.notSampled == AddAll(s.notSampled, VictimIDs(victims))
  {
    if victims != [] {
      var n := |victims| - 1;
      var ids := VictimIDs(victims);
      assert VictimIDs(victims[..n]) == ids[..n];
      EvictAllRecords(cfg, s, victims[..n]);
      AddAllKeys(s.notSampled, ids[..n]);
      var s1 := EvictAll(cfg, s, victims[..n]);
      assert ids[n] !in s1.notSampled.vals && ids[n] !in s1.sampled.vals;
    }
  }

  /** A resize records its victims as not sampled in the order in which they leave, oldest first. */
  lemma ResizeRecords(cfg: Config, s: State, n: nat)
    requires Inv(s)
    ensures var s' := PrimaryResize(cfg, s, n);
            s'.sampled == s.sampled && s'.notSampled == AddAll(s.notSampled, s.primary.order[..s.primary.Excess(n)])
    ensures NoDup(s.notSampled.order + s.primary.order[..s.primary.Excess(n)])
  {
    var victims, ids := s.primary.Victims(n), s.primary.order[..s.primary.Excess(n)];
    ResizedValid(s.primary, n);
    assert VictimIDs(victims) == ids;
    forall i | 0 <= i < |ids| ensures ids[i] in Held(s) && ids[i] !in Decided(s) {
      assert s.primary.order[i] in s.primary.order;
    }
    EvictAllRecords(cfg, s.(primary := s.primary.Resized(n)), victims);
    NoDupConcat(s.notSampled.order, ids);
  }

  lemma NoDupConcat(a: seq<TraceID>, b: seq<TraceID>)
    requires NoDup(a) && NoDup(b) && forall i :: 0 <= i < |b| ==> b[i] !in a
    ensures NoDup(a + b)
  {
    forall i, j | 0 <= i < j < |a + b| ensures (a + b)[i] != (a + b)[j] {
      if i < |a| <= j { assert b[j - |a|] !in a; }
    }
  }

  // ----- when a decision was last used -----

  /** The trace whose decision a step looks up. */
  ghost function About(s: State, step: Step): Option<TraceID> {
    match step
    case Receive(g) => if g.resource.decision.None? then Some(g.id) else None
    case Process(i, _, _) => if i < |s.inflight| then Some(s.inflight[i].id) else None
    case Regulate(_) => None
  }

  /** The IDs that a step looks up or records in the sampled cache. */
  ghost function SampledUses(s: State, step: Step): set<TraceID> {
    match About(s, step)
    case None => {}
    case Some(id) => {id}
  }

  /** The IDs that it looks up or records in the not-sampled cache: the one that it is about, unless the
      sampled cache has the answer, and the traces it evicts. */
  ghost function NotSampledUses(cfg: Config, s: State, step: Step): set<TraceID>
    requires Inv(s)
  {
    (match About(s, step)
     case None => {}
     case Some(id) => if id in s.sampled.vals then {} else {id})
    + (Held(s) - Held(Next(cfg, s, step)))
  }

  ghost function Restamp(time: Times, ids: set<TraceID>, now: nat): Times {
    time + map x | x in ids :: now
  }

  /** The number of the step that last used each sampled decision, and each other one. */
  ghost function SampledTimes(cfg: Config, s: State, steps: seq<Step>): Times
    requires Inv(s)
  {
    if steps == [] then map[]
    else
      var init := steps[..|steps| - 1];
      Restamp(SampledTimes(cfg, s, init), SampledUses(Run(cfg, s, init), steps[|steps| - 1]), |init|)
  }

  ghost function NotSampledTimes(cfg: Config, s: State, steps: seq<Step>): Times
    requires Inv(s)
  {
    if steps == [] then map[]
    else
      var init := steps[..|steps| - 1];
      Restamp(NotSampledTimes(cfg, s, init), NotSampledUses(cfg, Run(cfg, s, init), steps[|steps| - 1]), |init|)
  }

  // ----- operations keep the order of use -----

  lemma UnusedInOrder(o: seq<TraceID>, time: Times, ids: set<TraceID>, now: nat)
    requires OrderedBy(o, time) && forall x :: x in o ==> x !in ids
    ensures OrderedBy(o, Restamp(time, ids, now))
  {
  }

  lemma UsedIsNewest(time: Times, ids: set<TraceID>, now: nat, id: TraceID)
    requires NoneAfter(time, now) && id in ids
    ensures Newest(id, Restamp(time, ids, now)) && NoneAfter(Restamp(time, ids, now), now)
  {
  }

  lemma TouchedUse(c: Lru<()>, id: TraceID, time: Times, ids: set<TraceID>, now: nat)
    requires c.Valid() && OrderedBy(c.order, time) && NoneAfter(time, now) && id in ids
    requires forall x :: x in c.order && x in ids ==> x == id
    ensures OrderedBy(c.Touched(id).order, Restamp(time, ids, now))
  {
    WithoutProps(c.order, id);
    WithoutOrdered(c.order, id, time);
    UnusedInOrder(Without(c.order, id), time, ids, now);
    UsedIsNewest(time, ids, now, id);
    if id in c.vals { AppendInOrder(Without(c.order, id), id, Restamp(time, ids, now)); }
  }

  lemma AddedUse(c: Lru<()>, id: TraceID, time: Times, ids: set<TraceID>, now: nat)
    requires c.Valid() && OrderedBy(c.order, time) && NoneAfter(time, now) && id in ids
    requires forall x :: x in c.order ==> x !in ids
    ensures OrderedBy(c.Added(id, ()).order, Restamp(time, ids, now))
  {
    UnusedInOrder(c.order, time, ids, now);
    UsedIsNewest(time, ids, now, id);
    AddedInOrder(c, id, (), Restamp(time, ids, now));
  }

  lemma {:induction false} AddAllInOrder(c: Lru<()>, ids: seq<TraceID>, time: Times)
    requires c.Valid() && OrderedBy(c.order, time) && forall i :: 0 <= i < |ids| ==> Newest(ids[i], time)
    ensures AddAll(c, ids).Valid() && OrderedBy(AddAll(c, ids).order, time)
  {
    if ids != [] {
      var n := |ids| - 1;
      AddAllInOrder(c, ids[..n], time);
      AddedInOrder(AddAll(c, ids[..n]), ids[n], (), time);
    }
  }

  lemma DecidedUses(cfg: Config, s: State, g: Group, ids: set<TraceID>, jds: set<TraceID>, time: Times, other: Times,
      now: nat)
    requires Inv(s) && OrderedBy(s.sampled.order, time) && OrderedBy(s.notSampled.order, other)
    requires NoneAfter(time, now) && NoneAfter(other, now)
    requires ids == {g.id} && jds == if g.id in s.sampled.vals then {} else {g.id}
    ensures var t := Checked(s, g.id);
            && OrderedBy(t.sampled.order, Restamp(time, ids, now))
            && OrderedBy(t.notSampled.order, Restamp(other, jds, now))
  {
    TouchedUse(s.sampled, g.id, time, ids, now);
    if g.id in s.sampled.vals {
      UnusedInOrder(s.notSampled.order, other, jds, now);
    } else {
      TouchedUse(s.notSampled, g.id, other, jds, now);
      UnusedInOrder(s.sampled.order, time, ids, now);
    }
  }

  lemma RecordedUses(s: State, s': State, id: TraceID, samples: bool, time: Times, other: Times, now: nat)
    requires Inv(s) && id !in Decided(s) && Records(s, s', id, samples)
    requires OrderedBy(s.sampled.order, time) && OrderedBy(s.notSampled.order, other)
    requires NoneAfter(time, now) && NoneAfter(other, now)
    ensures OrderedBy(s'.sampled.order, Restamp(time, {id}, now))
    ensures OrderedBy(s'.notSampled.order, Restamp(other, {id} + (Held(s) - Held(s')), now))
  {
    var jds := {id} + (Held(s) - Held(s'));
    forall x | x in s.notSampled.order ensures x !in jds { assert x in Decided(s); }
    if samples {
      AddedUse(s.sampled, id, time, {id}, now);
    } else {
      UnusedInOrder(s.sampled.order, time, {id}, now);
    }
    UnusedInOrder(s.notSampled.order, other, jds, now);
    if s'.notSampled != s.notSampled {
      var x :| Notes(s, s', id, x);
      AddedUse(s.notSampled, x, other, jds, now);
    }
  }

  lemma ResizeUses(cfg: Config, s: State, n: nat, other: Times, now: nat)
    requires Inv(s) && OrderedBy(s.notSampled.order, other) && NoneAfter(other, now)
    ensures var s' := PrimaryResize(cfg, s, n);
            OrderedBy(s'.notSampled.order, Restamp(other, Held(s) - Held(s'), now))
  {
    var s', ids := PrimaryResize(cfg, s, n), s.primary.order[..s.primary.Excess(n)];
    ResizeRecords(cfg, s, n);
    PrimaryResizeKeeps(cfg, s, n);
    ResizedValid(s.primary, n);
    var jds := Held(s) - Held(s');
    forall x | x in s.notSampled.order ensures x !in jds { assert x in Decided(s); }
    UnusedInOrder(s.notSampled.order, other, jds, now);
    forall i | 0 <= i < |ids| ensures Newest(ids[i], Restamp(other, jds, now)) {
      assert ids[i] in ids && ids[i] in s.primary.order;
      UsedIsNewest(other, jds, now, ids[i]);
    }
    AddAllInOrder(s.notSampled, ids, Restamp(other, jds, now));
  }

  /** Both decision caches list their IDs in the order of last use. */
  ghost predicate InUseOrder(s: State, time: Times, other: Times) {
    OrderedBy(s.sampled.order, time) && OrderedBy(s.notSampled.order, other)
  }

  lemma NextUses(cfg: Config, s: State, step: Step, time: Times, other: Times, now: nat)
    requires Inv(s) && InUseOrder(s, time, other) && NoneAfter(time, now) && NoneAfter(other, now)
    ensures InUseOrder(Next(cfg, s, step), Restamp(time, SampledUses(s, step), now),
                       Restamp(other, NotSampledUses(cfg, s, step), now))
  {
    match step
    case Receive(g) => ReceiveUses(cfg, s, g, time, other, now);
    case Process(i, at, env) =>
      if i < |s.inflight| {
        ProcessUses(cfg, s, i, at, env, time, other, now);
      } else {
        NothingUsed(s, time, other, now);
      }
    case Regulate(size) =>
      NothingUsed(s, time, other, now);
      ResizeRecords(cfg, s, size);
      ResizeUses(cfg, s, size, other, now);
      assert {} + (Held(s) - Held(PrimaryResize(cfg, s, size))) == Held(s) - Held(PrimaryResize(cfg, s, size));
  }

  lemma NothingUsed(s: State, time: Times, other: Times, now: nat)
    requires InUseOrder(s, time, other)
    ensures InUseOrder(s, Restamp(time, {}, now), Restamp(other, {}, now))
    ensures {} + (Held(s) - Held(s)) == {}
  {
  }

  lemma ReceiveUses(cfg: Config, s: State, g: Group, time: Times, other: Times, now: nat)
    requires Inv(s) && InUseOrder(s, time, other) && NoneAfter(time, now) && NoneAfter(other, now)
    ensures InUseOrder(EarlyCheck(s, g), Restamp(time, SampledUses(s, Receive(g)), now),
                       Restamp(other, NotSampledUses(cfg, s, Receive(g)), now))
  {
    var jds := if g.id in s.sampled.vals then {} else {g.id};
    if g.resource.decision.None? {
      assert NotSampledUses(cfg, s, Receive(g)) == jds;
      DecidedUses(cfg, s, g, {g.id}, jds, time, other, now);
    } else {
      NothingUsed(s, time, other, now);
    }
  }

  lemma ProcessUses(cfg: Config, s: State, i: nat, at: int, env: nat, time: Times, other: Times, now: nat)
    requires Inv(s) && InUseOrder(s, time, other) && NoneAfter(time, now) && NoneAfter(other, now) && i < |s.inflight|
    ensures InUseOrder(Next(cfg, s, Process(i, at, env)), Restamp(time, SampledUses(s, Process(i, at, env)), now),
                       Restamp(other, NotSampledUses(cfg, s, Process(i, at, env)), now))
  {
    var s0, g, step := s.(inflight := WithoutIndex(s.inflight, i)), s.inflight[i], Process(i, at, env);
    if Effective(s, g.id) == Unevaluated {
      GroupRecords(cfg, s0, g, at, env);
      RecordedUses(s0, ProcessGroup(cfg, s0, g, at, env), g.id, SamplesGroup(cfg, s0, g, at, env), time, other, now);
    } else {
      DecidedUses(cfg, s0, g, {g.id}, NotSampledUses(cfg, s, step), time, other, now);
    }
  }

  lemma {:induction false} RunUses(cfg: Config, start: State, steps: seq<Step>)
    requires Inv(start) && start.sampled.order == [] && start.notSampled.order == []
    ensures InUseOrder(Run(cfg, start, steps), SampledTimes(cfg, start, steps), NotSampledTimes(cfg, start, steps))
    ensures forall x :: x in SampledTimes(cfg, start, steps) ==> SampledTimes(cfg, start, steps)[x] < |steps|
    ensures forall x :: x in NotSampledTimes(cfg, start, steps) ==> NotSampledTimes(cfg, start, steps)[x] < |steps|
  {
    if steps != [] {
      var init := steps[..|steps| - 1];
      RunUses(cfg, start, init);
      NextUses(cfg, Run(cfg, start, init), steps[|steps| - 1], SampledTimes(cfg, start, init),
               NotSampledTimes(cfg, start, init), |init|);
    }
  }

  // ----- what is forgotten -----

  /** Nothing that is forgotten was used after something that is kept. */
  ghost predicate ForgetsOldest(c: Lru<()>, c': Lru<()>, time: Times) {
    forall x, z :: x in c.vals && x !in c'.vals && z in c.vals && z in c'.vals ==>
      x in time && z in time && time[x] <= time[z]
  }

  lemma SuffixForgets(c: Lru<()>, c': Lru<()>, ids: seq<TraceID>, k: nat, time: Times)
    requires c.Valid() && c'.Valid() && OrderedBy(c.order, time)
    requires NoDup(c.order + ids) && k <= |c.order + ids| && c'.order == (c.order + ids)[k..]
    ensures ForgetsOldest(c, c', time)
  {
    var all := c.order + ids;
    forall x, z | x in c.vals && x !in c'.vals && z in c.vals && z in c'.vals
      ensures x in time && z in time && time[x] <= time[z]
    {
      var i :| 0 <= i < |c.order| && c.order[i] == x;
      var j :| 0 <= j < |c.order| && c.order[j] == z;
      assert all[i] == x && all[j] == z;
      SuffixMember(all, k, i);
      SuffixMember(all, k, j);
    }
  }

  lemma SuffixMember(s: seq<TraceID>, k: nat, i: nat)
    requires NoDup(s) && k <= |s| && i < |s|
    ensures s[i] in s[k..] <==> i >= k
  {
    if i >= k {
      assert s[k..][i - k] == s[i];
    } else {
      forall m | 0 <= m < |s| - k ensures s[k..][m] != s[i] { assert s[k..][m] == s[k + m]; }
    }
  }

  lemma AddAllForgets(c: Lru<()>, ids: seq<TraceID>, time: Times)
    requires c.Valid() && OrderedBy(c.order, time) && NoDup(c.order + ids)
    ensures ForgetsOldest(c, AddAll(c, ids), time)
  {
    var k := AddAllSuffix(c, ids);
    SuffixForgets(c, AddAll(c, ids), ids, k, time);
  }

  lemma AddedForgets(c: Lru<()>, id: TraceID, time: Times)
    requires c.Valid() && OrderedBy(c.order, time) && id !in c.vals
    ensures ForgetsOldest(c, c.Added(id, ()), time)
  {
    var none: seq<TraceID> := [id][..0];
    assert none == [] && AddAll(c, [id]) == AddAll(c, none).Added(id, ());
    AddAllForgets(c, [id], time);
  }

  lemma NextForgets(cfg: Config, s: State, step: Step, time: Times, other: Times)
    requires Inv(s) && InUseOrder(s, time, other)
    ensures ForgetsOldest(s.sampled, Next(cfg, s, step).sampled, time)
    ensures ForgetsOldest(s.notSampled, Next(cfg, s, step).notSampled, other)
  {
    match step
    case Receive(g) => ReceiveForgets(s, g, time, other);
    case Process(i, now, env) =>
      if i < |s.inflight| {
        GroupForgets(cfg, s.(inflight := WithoutIndex(s.inflight, i)), s.inflight[i], now, env, time, other);
      }
    case Regulate(size) => ResizeForgets(cfg, s, size, time, other);
  }

  lemma ReceiveForgets(s: State, g: Group, time: Times, other: Times)
    requires Inv(s)
    ensures ForgetsOldest(s.sampled, EarlyCheck(s, g).sampled, time)
    ensures ForgetsOldest(s.notSampled, EarlyCheck(s, g).notSampled, other)
  {
    CheckedNotes(s, g.id);
  }

  lemma ResizeForgets(cfg: Config, s: State, size: nat, time: Times, other: Times)
    requires Inv(s) && InUseOrder(s, time, other)
    ensures ForgetsOldest(s.sampled, PrimaryResize(cfg, s, size).sampled, time)
    ensures ForgetsOldest(s.notSampled, PrimaryResize(cfg, s, size).notSampled, other)
  {
    ResizeRecords(cfg, s, size);
    AddAllForgets(s.notSampled, s.primary.order[..s.primary.Excess(size)], other);
  }

  lemma GroupForgets(cfg: Config, s: State, g: Group, now: int, env: nat, time: Times, other: Times)
    requires Inv(s) && InUseOrder(s, time, other)
    ensures var s' := ProcessGroup(cfg, s, g, now, env);
            ForgetsOldest(s.sampled, s'.sampled, time) && ForgetsOldest(s.notSampled, s'.notSampled, other)
  {
    if Effective(s, g.id) == Unevaluated {
      GroupRecords(cfg, s, g, now, env);
      RecordsForget(s, ProcessGroup(cfg, s, g, now, env), g.id, SamplesGroup(cfg, s, g, now, env), time, other);
    } else {
      CheckedNotes(s, g.id);
    }
  }

  lemma RecordsForget(s: State, s': State, id: TraceID, samples: bool, time: Times, other: Times)
    requires Inv(s) && InUseOrder(s, time, other) && id !in Decided(s) && Records(s, s', id, samples)
    ensures ForgetsOldest(s.sampled, s'.sampled, time) && ForgetsOldest(s.notSampled, s'.notSampled, other)
  {
    if samples { AddedForgets(s.sampled, id, time); }
    if s'.notSampled != s.notSampled {
      var x :| Notes(s, s', id, x);
      AddedForgets(s.notSampled, x, other);
    }
  }

  /** Over every run of a fresh processor, each decision cache lists its IDs in the order in which they
      were last looked up or recorded there, and no step forgets a decision that was used after one
      that it keeps. */
  lemma DecisionsAreLeastRecentlyUsed(cfg: Config, p: nat, q: nat, y: nat, n: nat, steps: seq<Step>, step: Step)
    requires y > 0 && n > 0
    ensures Inv(Initial(p, q, y, n))
    ensures var start := Initial(p, q, y, n);
            var s := Run(cfg, start, steps);
            && InUseOrder(s, SampledTimes(cfg, start, steps), NotSampledTimes(cfg, start, steps))
            && ForgetsOldest(s.sampled, Next(cfg, s, step).sampled, SampledTimes(cfg, start, steps))
            && ForgetsOldest(s.notSampled, Next(cfg, s, step).notSampled, NotSampledTimes(cfg, start, steps))
  {
    InitialInv(p, q, y, n);
    var start := Initial(p, q, y, n);
    RunUses(cfg, start, steps);
    NextForgets(cfg, Run(cfg, start, steps), step, SampledTimes(cfg, start, steps), NotSampledTimes(cfg, start, steps));
  }
}
