/** What every step of the engine keeps: pending and decided traces never overlap, and the tier a
    trace is held in agrees with its priority, although both are broken and restored inside a step. */
module Invariant {
  import opened Pdata
  import opened TraceValues
  import opened Decider
  import opened Lru
  import opened Engine

  ghost function Held(s: State): set<TraceID> {
    s.primary.vals.Keys + s.secondary.vals.Keys
  }

  ghost function Decided(s: State): set<TraceID> {
    s.sampled.vals.Keys + s.notSampled.vals.Keys
  }

  /** The IDs recorded as sampled and as not sampled at once. */
  ghost function Both(s: State): set<TraceID> {
    s.sampled.vals.Keys * s.notSampled.vals.Keys
  }

  ghost predicate CachesValid(s: State) {
    && s.primary.Valid() && s.secondary.Valid() && s.sampled.Valid() && s.notSampled.Valid()
    && s.sampled.cap > 0 && s.notSampled.cap > 0
  }

  ghost predicate TiersDisjoint(s: State) {
    s.primary.vals.Keys !! s.secondary.vals.Keys
  }

  /** Outside `except`, the tier of an entry is that of its priority. */
  ghost predicate TiersAgree(s: State, except: set<TraceID>) {
    && (forall x :: x in s.primary.vals && x !in except ==> s.primary.vals[x].meta.priority != Low)
    && (forall x :: x in s.secondary.vals && x !in except ==> s.secondary.vals[x].meta.priority == Low)
  }

  ghost predicate Exclusive(s: State) {
    Held(s) !! Decided(s)
  }

  ghost predicate Inv(s: State) {
    CachesValid(s) && TiersDisjoint(s) && TiersAgree(s, {}) && Exclusive(s)
  }

  // ----- the effect of each operation on the four caches -----

  /** Only the decision caches changed, and all they did is note `id` as not sampled unless it was
      already decided. */
  ghost predicate Noted(s: State, s': State, id: TraceID) {
    && s' == s.(sampled := s'.sampled, notSampled := s'.notSampled)
    && MayNote(s, s', id)
    && id in Decided(s')
  }

  ghost predicate MayNote(s: State, s': State, id: TraceID) {
    && s'.sampled.Valid() && s'.notSampled.Valid()
    && s'.sampled.cap == s.sampled.cap && s'.notSampled.cap == s.notSampled.cap
    && s'.sampled.vals == s.sampled.vals
    && (id in Decided(s) ==> s'.notSampled.vals == s.notSampled.vals)
    && s'.notSampled.vals.Keys <= s.notSampled.vals.Keys + {id}
  }

  lemma CacheEvictionNotes(s: State, id: TraceID)
    requires CachesValid(s)
    ensures Noted(s, CacheEviction(s, id), id)
  {
    TouchedValid(s.sampled, id);
    TouchedValid(s.notSampled, id);
    AddedValid(s.notSampled.Touched(id), id, ());
  }

  lemma CheckedNotes(s: State, id: TraceID)
    requires CachesValid(s)
    ensures var s' := Checked(s, id);
            && s' == s.(sampled := s'.sampled, notSampled := s'.notSampled)
            && CachesValid(s') && s'.sampled.vals == s.sampled.vals && s'.notSampled.vals == s.notSampled.vals
            && s'.sampled.cap == s.sampled.cap && s'.notSampled.cap == s.notSampled.cap
  {
    TouchedValid(s.sampled, id);
    TouchedValid(s.notSampled, id);
  }

  lemma PrimaryDeleteEffect(s: State, id: TraceID)
    requires CachesValid(s)
    ensures var s' := PrimaryDelete(s, id);
            if id in s.primary.vals then Noted(s.(primary := s.primary.Removed(id)), s', id) else s' == s
    ensures CachesValid(PrimaryDelete(s, id))
  {
    RemovedValid(s.primary, id);
    CacheEvictionNotes(s.(primary := s.primary.Removed(id)), id);
  }

  lemma SecondaryDeleteEffect(s: State, id: TraceID)
    requires CachesValid(s)
    ensures var s' := SecondaryDelete(s, id);
            var s1 := s.(secondary := s.secondary.Removed(id));
            if id !in s.secondary.vals then s' == s
            else if s.secondary.vals[id].meta.priority == Low then Noted(s1, s', id)
            else s' == s1
    ensures CachesValid(SecondaryDelete(s, id))
  {
    RemovedValid(s.secondary, id);
    CacheEvictionNotes(s.(secondary := s.secondary.Removed(id)), id);
  }

  /** Deleting from both tiers: the entry is gone, and unless the ID was decided before, a Low or
      primary entry leaves a not-sampled mark. */
  lemma TierDeleteEffect(s: State, id: TraceID)
    requires CachesValid(s)
    ensures var s' := TierDelete(s, id);
            && CachesValid(s') && MayNote(s, s', id)
            && s' == s.(primary := s.primary.Removed(id), secondary := s.secondary.Removed(id),
                        sampled := s'.sampled, notSampled := s'.notSampled)
            && (TiersAgree(s, {}) && id in Held(s) ==> id in Decided(s'))
  {
    PrimaryDeleteEffect(s, id);
    SecondaryDeleteEffect(PrimaryDelete(s, id), id);
  }

  // ----- entries after a step -----

  /** Every entry of `s'` is an entry of `s` in the same tier, or it is `e`, held for `id` in the
      tier of its priority. */
  ghost predicate Kept(s: State, s': State, id: TraceID, e: Option<Entry>) {
    && (forall x :: x in s'.primary.vals ==>
          if x == id then e.Some? && e.value.meta.priority != Low && s'.primary.vals[x] == e.value
          else x in s.primary.vals && s'.primary.vals[x] == s.primary.vals[x])
    && (forall x :: x in s'.secondary.vals ==>
          if x == id then e.Some? && e.value.meta.priority == Low && s'.secondary.vals[x] == e.value
          else x in s.secondary.vals && s'.secondary.vals[x] == s.secondary.vals[x])
  }

  /** The state between a removal and its callback: `x` has left both tiers. */
  lemma NotedKeepsInv(s: State, s': State, x: TraceID)
    requires Inv(s) && x !in Held(s) && Noted(s, s', x)
    ensures Inv(s') && s'.primary == s.primary && s'.secondary == s.secondary && Both(s') <= Both(s)
  {
  }

  /** The cache operation of a primary put, without its callback. */
  lemma PrimaryAdded(s: State, id: TraceID, e: Entry)
    requires CachesValid(s) && TiersDisjoint(s) && TiersAgree(s, {id}) && Exclusive(s)
    requires id !in s.secondary.vals && id !in Decided(s) && e.meta.priority != Low
    ensures var s1 := s.(primary := s.primary.Added(id, e));
            Inv(s1) && Kept(s, s1, id, Some(e))
    ensures s.primary.Victim(id, e).Some? ==>
              s.primary.Victim(id, e).value.0 !in Held(s.(primary := s.primary.Added(id, e)))
  {
    AddedValid(s.primary, id, e);
  }

  lemma SecondaryAdded(s: State, id: TraceID, e: Entry)
    requires CachesValid(s) && TiersDisjoint(s) && TiersAgree(s, {id}) && Exclusive(s)
    requires id !in s.primary.vals && id !in Decided(s) && e.meta.priority == Low
    ensures var s1 := s.(secondary := s.secondary.Added(id, e));
            Inv(s1) && Kept(s, s1, id, Some(e))
    ensures s.secondary.Victim(id, e).Some? ==>
              var (x, v) := s.secondary.Victim(id, e).value;
              x !in Held(s.(secondary := s.secondary.Added(id, e))) && v.meta.priority == Low
  {
    AddedValid(s.secondary, id, e);
  }

  /** A put into the primary tier of an ID that the secondary tier does not hold. */
  lemma PrimaryPutKeeps(cfg: Config, s: State, id: TraceID, e: Entry)
    requires CachesValid(s) && TiersDisjoint(s) && TiersAgree(s, {id}) && Exclusive(s)
    requires id !in s.secondary.vals && id !in Decided(s) && e.meta.priority != Low
    ensures var s' := PrimaryPut(cfg, s, id, e);
            Inv(s') && Kept(s, s', id, Some(e)) && s'.sampled.vals == s.sampled.vals && Both(s') <= Both(s)
  {
    PrimaryAdded(s, id, e);
    match s.primary.Victim(id, e)
    case None =>
    case Some((x, v)) =>
      var s2 := Drop(s.(primary := s.primary.Added(id, e)), x, Decoded(cfg, v));
      CacheEvictionNotes(s2, x);
      NotedKeepsInv(s2, CacheEviction(s2, x), x);
  }

  lemma SecondaryPutKeeps(cfg: Config, s: State, id: TraceID, e: Entry)
    requires CachesValid(s) && TiersDisjoint(s) && TiersAgree(s, {id}) && Exclusive(s)
    requires id !in s.primary.vals && id !in Decided(s) && e.meta.priority == Low
    ensures var s' := SecondaryPut(cfg, s, id, e);
            Inv(s') && Kept(s, s', id, Some(e)) && s'.sampled.vals == s.sampled.vals && Both(s') <= Both(s)
  {
    SecondaryAdded(s, id, e);
    match s.secondary.Victim(id, e)
    case None =>
    case Some((x, v)) =>
      var s2 := Drop(s.(secondary := s.secondary.Added(id, e)), x, Decoded(cfg, v));
      CacheEvictionNotes(s2, x);
      NotedKeepsInv(s2, CacheEviction(s2, x), x);
  }

  /** `TierPut` in the middle of a step: whatever is held for `id` is already `e`, which may have
      been raised while it still sits in the secondary tier. Promotion does not note the trace as
      not sampled, and the delete in the Low branch finds nothing. */
  lemma TierPutKeeps(cfg: Config, s: State, id: TraceID, e: Entry)
    requires CachesValid(s) && TiersDisjoint(s) && TiersAgree(s, {id}) && Exclusive(s)
    requires id !in Decided(s)
    requires TierLookup(s, id).Some? ==> TierLookup(s, id).value == e
    requires id in s.primary.vals ==> e.meta.priority != Low
    ensures var s' := TierPut(cfg, s, id, e);
            Inv(s') && Kept(s, s', id, Some(e)) && s'.sampled.vals == s.sampled.vals && Both(s') <= Both(s)
    ensures e.meta.priority == Low ==> PrimaryDelete(s, id) == s
    ensures e.meta.priority != Low ==> SecondaryDelete(s, id) == s.(secondary := s.secondary.Removed(id))
  {
    if e.meta.priority == Low {
      SecondaryPutKeeps(cfg, s, id, e);
    } else {
      RemovedValid(s.secondary, id);
      SecondaryDeleteEffect(s, id);
      PrimaryPutKeeps(cfg, SecondaryDelete(s, id), id, e);
    }
  }

  /** Absorbing into the object that is held may raise it in place, in either tier. */
  lemma TierMutatedKeeps(s: State, id: TraceID, td: Entry)
    requires Inv(s) && TierLookup(s, id).Some?
    ensures var e := AbsorbEntry(TierLookup(s, id).value, td);
            var m := TierMutated(s, id, e);
            && CachesValid(m) && TiersDisjoint(m) && TiersAgree(m, {id}) && Exclusive(m)
            && TierLookup(m, id) == Some(e)
            && (id in m.primary.vals ==> e.meta.priority != Low)
  {
    var e := AbsorbEntry(TierLookup(s, id).value, td);
    if id in s.primary.vals {
      assert s.primary.vals[id := e].Keys == s.primary.vals.Keys;
    } else {
      assert s.secondary.vals[id := e].Keys == s.secondary.vals.Keys;
    }
  }

  lemma KeptThroughMutation(s: State, s': State, id: TraceID, e: Entry)
    requires TierLookup(s, id).Some?
    requires Kept(TierMutated(s, id, e), s', id, Some(e))
    ensures Kept(s, s', id, Some(e))
  {
  }

  lemma HoldKeeps(cfg: Config, s: State, id: TraceID, td: Entry, held: Option<Entry>)
    requires Inv(s) && id !in Decided(s) && held == TierLookup(s, id)
    ensures var s' := Hold(cfg, s, id, td, held);
            var e := if held.None? then td else AbsorbEntry(held.value, td);
            Inv(s') && Kept(s, s', id, Some(e)) && s'.sampled.vals == s.sampled.vals && Both(s') <= Both(s)
  {
    match held
    case None => TierPutKeeps(cfg, s, id, td);
    case Some(h) =>
      var e := AbsorbEntry(h, td);
      TierMutatedKeeps(s, id, td);
      TierPutKeeps(cfg, TierMutated(s, id, e), id, e);
      KeptThroughMutation(s, TierPut(cfg, TierMutated(s, id, e), id, e), id, e);
  }

  lemma DropHeldKeeps(cfg: Config, s: State, id: TraceID)
    ensures DropHeld(cfg, s, id) == s.(dropped := DropHeld(cfg, s, id).dropped)
  {
  }

  /** A deletion from both tiers of an ID that is decided, if at all, for this step only. */
  lemma TierDeleteKeeps(s: State, id: TraceID)
    requires CachesValid(s) && TiersDisjoint(s) && TiersAgree(s, {}) && Held(s) !! (Decided(s) - {id})
    ensures var s' := TierDelete(s, id);
            && Inv(s') && Kept(s, s', id, None) && MayNote(s, s', id)
            && (id in Held(s) ==> id in Decided(s'))
  {
    TierDeleteEffect(s, id);
    RemovedValid(s.primary, id);
    RemovedValid(s.secondary, id);
  }

  lemma ReleaseNotSampledKeeps(cfg: Config, s: State, id: TraceID, p: Option<string>)
    requires Inv(s) && id !in Decided(s)
    ensures var s' := ReleaseNotSampled(cfg, s, id, p);
            && Inv(s') && Kept(s, s', id, None)
            && s'.sampled.vals == s.sampled.vals
            && id in s'.notSampled.vals && s'.notSampled.vals.Keys <= s.notSampled.vals.Keys + {id}
  {
    var s1 := if p.Some? then s.(placeholders := s.placeholders + [Placeholder(id, p.value)]) else s;
    var s2 := s1.(notSampled := s1.notSampled.Added(id, ()));
    AddedValid(s.notSampled, id, ());
    DropHeldKeeps(cfg, s2, id);
    TierDeleteKeeps(DropHeld(cfg, s2, id), id);
  }

  /** Sending and deleting what is held for `id`. If the ID was undecided, the deletion leaves a
      not-sampled mark. */
  lemma ExportHeldKeeps(cfg: Config, s: State, id: TraceID, e: Entry, always: bool)
    requires CachesValid(s) && TiersDisjoint(s) && TiersAgree(s, {}) && Held(s) !! (Decided(s) - {id})
    ensures var s' := ExportHeld(cfg, s, id, e, always);
            && Inv(s') && Kept(s, s', id, None) && MayNote(s, s', id)
            && (id in Held(s) ==> id in Decided(s'))
  {
    var s1 := SendHeld(cfg, s, id, e, always);
    TierDeleteKeeps(s1, id);
  }

  lemma AddSampledKeeps(s: State, id: TraceID)
    requires CachesValid(s)
    ensures var s' := s.(sampled := s.sampled.Added(id, ()));
            CachesValid(s') && id in s'.sampled.vals && s'.sampled.vals.Keys <= s.sampled.vals.Keys + {id}
  {
    AddedValid(s.sampled, id, ());
  }

  lemma ReleaseSampledKeeps(cfg: Config, s: State, id: TraceID, held: Option<Entry>, batch: Traces)
    requires Inv(s) && id !in Decided(s) && held == TierLookup(s, id)
    ensures var s' := ReleaseSampled(cfg, s, id, held, batch);
            && Inv(s') && Kept(s, s', id, None)
            && id in s'.sampled.vals && s'.sampled.vals.Keys <= s.sampled.vals.Keys + {id}
            && s'.notSampled.vals == s.notSampled.vals
  {
    AddSampledKeeps(s, id);
    if held.Some? {
      ExportHeldKeeps(cfg, s.(sampled := s.sampled.Added(id, ())), id, held.value, false);
    }
  }

  lemma TierTouchedKeeps(s: State, id: TraceID)
    requires Inv(s)
    ensures Inv(TierTouched(s, id))
    ensures var s' := TierTouched(s, id);
            && s' == s.(primary := s'.primary, secondary := s'.secondary)
            && s'.primary.vals == s.primary.vals && s'.secondary.vals == s.secondary.vals
            && TierLookup(s', id) == TierLookup(s, id)
  {
    TouchedKeeps(s, id);
  }

  /** A true decision span for an undecided ID. With data pending, the ID ends up in BOTH decision
      caches; its effective decision is Sampled either way. */
  lemma DecisionTrueKeeps(cfg: Config, s: State, id: TraceID)
    requires Inv(s) && id !in Decided(s)
    ensures var s' := DecisionTrue(cfg, s, id);
            && Inv(s') && Kept(s, s', id, None)
            && id in s'.sampled.vals && s'.sampled.vals.Keys <= s.sampled.vals.Keys + {id}
            && s'.notSampled.vals.Keys <= s.notSampled.vals.Keys + {id}
            && (id in Held(s) <==> id in s'.notSampled.vals)
            && Effective(s', id) == Sampled
  {
    if TierLookup(s, id).Some? {
      var t := TierTouched(s, id);
      TierTouchedKeeps(s, id);
      ExportHeldKeeps(cfg, t, id, TierLookup(s, id).value, true);
      AddSampledKeeps(ExportHeld(cfg, t, id, TierLookup(s, id).value, true), id);
    } else {
      AddSampledKeeps(s, id);
    }
  }

  // ----- whole steps -----

  /** What `processTraces` holds for the trace of `g` afterwards, if its verdict is still pending. */
  function Holding(cfg: Config, s: State, g: Group, now: int, env: nat): Option<Entry> {
    var v := VerdictFor(cfg, s, g, now, env);
    var td := NewEntry(cfg.compress, cfg.codec, now, BatchOf(g));
    if td.Err? || v.decision == Sampled || v.decision == NotSampled then None
    else
      var held := TierLookup(s, g.id);
      var low := Lowered(td.value, MergedMeta(now, BatchOf(g), held), v);
      Some(if held.None? then low else AbsorbEntry(held.value, low))
  }

  lemma EvaluateKeeps(cfg: Config, s: State, g: Group, now: int, env: nat)
    requires Inv(s) && g.id !in Decided(s)
    ensures var s' := Evaluate(cfg, s, g, now, env);
            && Inv(s') && Both(s') <= Both(s)
            && (NewEntry(cfg.compress, cfg.codec, now, BatchOf(g)).Ok? ==>
                  Kept(s, s', g.id, Holding(cfg, s, g, now, env)))
            && (NewEntry(cfg.compress, cfg.codec, now, BatchOf(g)).Err? ==> s' == s)
  {
    var batch := BatchOf(g);
    var held := TierLookup(s, g.id);
    var s1 := TierTouched(s, g.id);
    TierTouchedKeeps(s, g.id);
    match NewEntry(cfg.compress, cfg.codec, now, batch)
    case Err(_) =>
    case Ok(td) =>
      var v := VerdictFor(cfg, s, g, now, env);
      if v.decision == Sampled {
        ReleaseSampledKeeps(cfg, s1, g.id, held, batch);
      } else if v.decision == NotSampled {
        ReleaseNotSampledKeeps(cfg, s1, g.id, if v.emit then v.policy else None);
      } else {
        HoldKeeps(cfg, s1, g.id, Lowered(td, MergedMeta(now, batch, held), v), held);
      }
  }

  /** The group is a true decision span for an undecided trace that has data pending. */
  ghost predicate ReleasesByDecisionSpan(s: State, g: Group) {
    g.resource.decision == Some(true) && g.id !in Decided(s) && g.id in Held(s)
  }

  lemma ProcessGroupKeeps(cfg: Config, s: State, g: Group, now: int, env: nat)
    requires Inv(s)
    ensures var s' := ProcessGroup(cfg, s, g, now, env);
            Inv(s') && Both(s') <= Both(s) + (if ReleasesByDecisionSpan(s, g) then {g.id} else {})
  {
    CheckedNotes(s, g.id);
    var s1 := Checked(s, g.id);
    if Effective(s, g.id) == Unevaluated {
      if g.resource.decision.None? {
        EvaluateKeeps(cfg, s1, g, now, env);
      } else if g.resource.decision.value {
        DecisionTrueKeeps(cfg, s1, g.id);
      } else {
        ReleaseNotSampledKeeps(cfg, s1, g.id, None);
      }
    }
  }

  lemma EarlyCheckKeeps(s: State, g: Group)
    requires Inv(s)
    ensures Inv(EarlyCheck(s, g)) && Both(EarlyCheck(s, g)) == Both(s)
  {
    CheckedNotes(s, g.id);
  }

  /** The callbacks of a resize run one by one over entries that have all left already. Right after
      its own callback each victim that was not sampled counts as not sampled, before a later one can
      push it out. */
  lemma {:induction false} EvictAllKeeps(cfg: Config, s: State, victims: seq<(TraceID, Entry)>)
    requires Inv(s)
    requires forall i :: 0 <= i < |victims| ==> victims[i].0 !in Held(s)
    ensures var s' := EvictAll(cfg, s, victims);
            && Inv(s') && s'.primary == s.primary && s'.secondary == s.secondary && Both(s') <= Both(s)
            && s'.sampled.vals == s.sampled.vals
            && (victims != [] && victims[|victims| - 1].0 !in s.sampled.vals ==>
                  Effective(s', victims[|victims| - 1].0) == NotSampled)
  {
    if victims != [] {
      var n := |victims| - 1;
      EvictAllKeeps(cfg, s, victims[..n]);
      var s1 := EvictAll(cfg, s, victims[..n]);
      var (x, v) := victims[n];
      var s2 := Drop(s1, x, Decoded(cfg, v));
      CacheEvictionNotes(s2, x);
      NotedKeepsInv(s2, CacheEviction(s2, x), x);
    }
  }

  lemma ResizeVictimsLeave(s: State, n: nat, i: nat)
    requires Inv(s) && i < |s.primary.Victims(n)|
    ensures var x := s.primary.Victims(n)[i].0;
            x in Held(s) && x !in Held(s.(primary := s.primary.Resized(n)))
  {
    ResizedValid(s.primary, n);
    assert s.primary.Victims(n)[i].0 == s.primary.order[i];
    assert s.primary.order[i] in s.primary.order[..s.primary.Excess(n)];
  }

  lemma PrimaryResizeKeeps(cfg: Config, s: State, n: nat)
    requires Inv(s)
    ensures var s' := PrimaryResize(cfg, s, n);
            && Inv(s') && Both(s') <= Both(s) && s'.sampled.vals == s.sampled.vals
            && s'.primary == s.primary.Resized(n) && s'.secondary == s.secondary
  {
    ResizedValid(s.primary, n);
    forall i | 0 <= i < |s.primary.Victims(n)|
      ensures s.primary.Victims(n)[i].0 !in Held(s.(primary := s.primary.Resized(n)))
    {
      ResizeVictimsLeave(s, n, i);
    }
    EvictAllKeeps(cfg, s.(primary := s.primary.Resized(n)), s.primary.Victims(n));
  }

  /** At the moment it leaves, each trace that a resize evicts is recorded as not sampled. */
  lemma ResizeVictimIsRecorded(cfg: Config, s: State, n: nat, k: nat)
    requires Inv(s) && k < |s.primary.Victims(n)|
    ensures var s1 := s.(primary := s.primary.Resized(n));
            Effective(EvictAll(cfg, s1, s.primary.Victims(n)[..k + 1]), s.primary.Victims(n)[k].0) == NotSampled
  {
    ResizedValid(s.primary, n);
    var s1 := s.(primary := s.primary.Resized(n));
    var victims := s.primary.Victims(n)[..k + 1];
    forall i | 0 <= i < |victims| ensures victims[i].0 !in Held(s1) {
      assert victims[i] == s.primary.Victims(n)[i];
      ResizeVictimsLeave(s, n, i);
    }
    ResizeVictimsLeave(s, n, k);
    EvictAllKeeps(cfg, s1, victims);
  }

  /** Every step keeps the invariant; and only a true decision span that releases pending data can
      put an ID into both decision caches. */
  lemma NextKeeps(cfg: Config, s: State, step: Step)
    requires Inv(s)
    ensures Inv(Next(cfg, s, step))
    ensures Both(Next(cfg, s, step)) <= Both(s) + (
              if step.Process? && step.i < |s.inflight| && ReleasesByDecisionSpan(s, s.inflight[step.i])
              then {s.inflight[step.i].id} else {})
  {
    match step
    case Receive(g) => EarlyCheckKeeps(s, g);
    case Process(i, now, env) =>
      if i < |s.inflight| {
        ProcessGroupKeeps(cfg, s.(inflight := WithoutIndex(s.inflight, i)), s.inflight[i], now, env);
      }
    case Regulate(size) => PrimaryResizeKeeps(cfg, s, size);
  }

  // ----- runs -----

  /** The state after `steps`, starting from a state that satisfies the invariant. */
  ghost function Run(cfg: Config, s: State, steps: seq<Step>): (s': State)
    requires Inv(s)
    ensures Inv(s')
  {
    if steps == [] then s
    else
      var s1 := Run(cfg, s, steps[..|steps| - 1]);
      NextKeeps(cfg, s1, steps[|steps| - 1]);
      Next(cfg, s1, steps[|steps| - 1])
  }

  lemma RunNext(cfg: Config, s: State, steps: seq<Step>, i: nat)
    requires Inv(s) && i < |steps|
    ensures Run(cfg, s, steps[..i + 1]) == Next(cfg, Run(cfg, s, steps[..i]), steps[i])
  {
    assert steps[..i + 1][..i] == steps[..i];
  }

  /** What one call of `processTraces` works through: each group with the clock and the outside
      inputs its evaluation sees. */
  datatype Work = Work(g: Group, now: int, env: nat)

  ghost function ProcessAll(cfg: Config, s: State, work: seq<Work>): (s': State)
    requires Inv(s)
    ensures Inv(s')
  {
    if work == [] then s
    else
      var s1, w := ProcessAll(cfg, s, work[..|work| - 1]), work[|work| - 1];
      ProcessGroupKeeps(cfg, s1, w.g, w.now, w.env);
      ProcessGroup(cfg, s1, w.g, w.now, w.env)
  }

  lemma ProcessAllNext(cfg: Config, s: State, work: seq<Work>, i: nat)
    requires Inv(s) && i < |work|
    ensures var s1 := ProcessAll(cfg, s, work[..i]);
            ProcessAll(cfg, s, work[..i + 1]) == ProcessGroup(cfg, s1, work[i].g, work[i].now, work[i].env)
  {
    assert work[..i + 1][..i] == work[..i];
  }

  ghost function ReceiveAll(s: State, gs: seq<Group>): State {
    if gs == [] then s else EarlyCheck(ReceiveAll(s, gs[..|gs| - 1]), gs[|gs| - 1])
  }

  lemma ReceiveOneMore(s: State, gs: seq<Group>, g: Group)
    ensures ReceiveAll(s, gs + [g]) == EarlyCheck(ReceiveAll(s, gs), g)
  {
    assert (gs + [g])[..|gs|] == gs;
  }

  lemma {:induction false} ReceiveAllConcat(s: State, a: seq<Group>, b: seq<Group>)
    ensures ReceiveAll(s, a + b) == ReceiveAll(ReceiveAll(s, a), b)
  {
    if b == [] {
      assert a + b == a;
    } else {
      var n := |b| - 1;
      AppendLast(a, b);
      ReceiveAllConcat(s, a, b[..n]);
      ReceiveOneMore(s, a + b[..n], b[n]);
    }
  }

  lemma InitialInv(p: nat, q: nat, y: nat, n: nat)
    requires y > 0 && n > 0
    ensures Inv(Initial(p, q, y, n))
  {
  }

  /** Over every run of a fresh processor: no pending ID is in a decision cache, no ID is in both
      tiers, and the secondary tier holds exactly Low entries. */
  lemma PendingAndDecidedNeverOverlap(cfg: Config, p: nat, q: nat, y: nat, n: nat, steps: seq<Step>)
    requires y > 0 && n > 0
    ensures Inv(Initial(p, q, y, n))
    ensures var s := Run(cfg, Initial(p, q, y, n), steps);
            && (forall x :: x in s.primary.vals || x in s.secondary.vals ==>
                  x !in s.sampled.vals && x !in s.notSampled.vals)
            && (forall x :: x in s.primary.vals ==> x !in s.secondary.vals && s.primary.vals[x].meta.priority != Low)
            && (forall x :: x in s.secondary.vals ==> s.secondary.vals[x].meta.priority == Low)
            && |s.primary.order| <= s.primary.cap && |s.secondary.order| <= s.secondary.cap
  {
    InitialInv(p, q, y, n);
    var s := Run(cfg, Initial(p, q, y, n), steps);
    assert Exclusive(s);
  }
}
