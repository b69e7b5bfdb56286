/** What one step hands to the next consumer, lets go of and keeps, case by case, in terms of what the
    evaluators return and of what is held. */
module Outcomes {
  import opened Pdata
  import opened TraceValues
  import opened Decider
  import opened Lru
  import opened Engine
  import opened Invariant
  import opened Recency
  import opened Overlap
  import opened Tiered

  // ----- what is sent -----

  /** `sent` is `t` with the flush count taken off every resource, and nothing else. */
  ghost predicate IsSent(t: Traces, sent: Traces) {
    && |sent| == |t|
    && (forall i :: 0 <= i < |t| ==> IsSentOf(t[i], sent[i]))
  }

  ghost predicate IsSentOf(rs: ResourceSpans, sent: ResourceSpans) {
    && sent.scopeSpans == rs.scopeSpans && sent.resource.flushes == None
    && sent.resource.decision == rs.resource.decision && sent.resource.attributes == rs.resource.attributes
  }

  lemma StripIsSent(t: Traces, sent: Traces)
    ensures IsSent(t, sent) <==> sent == StripFlushes(t)
  {
  }

  /** The outputs of a step. */
  ghost predicate Outputs(s: State, s': State, exported: seq<Batch>, dropped: seq<Batch>,
      placeholders: seq<Placeholder>)
  {
    && s'.exported == s.exported + exported
    && s'.dropped == s.dropped + dropped
    && s'.placeholders == s.placeholders + placeholders
  }

  ghost predicate SameOutputs(s: State, s': State) {
    s'.exported == s.exported && s'.dropped == s.dropped && s'.placeholders == s.placeholders
  }

  /** What is sent of the data held for `id`: if it does not decode, nothing, or an empty batch. */
  ghost function HeldSent(cfg: Config, s: State, id: TraceID, always: bool): seq<Batch> {
    match TierLookup(s, id)
    case None => []
    case Some(e) =>
      match GetTraces(cfg.codec, e.data)
      case Ok(t) => [Batch(id, StripFlushes(t))]
      case Err(_) => if always then [Batch(id, [])] else []
  }

  ghost function HeldDropped(cfg: Config, s: State, id: TraceID): seq<Batch> {
    match TierLookup(s, id)
    case None => []
    case Some(e) =>
      match GetTraces(cfg.codec, e.data)
      case Ok(t) => [Batch(id, t)]
      case Err(_) => [Batch(id, [])]
  }

  /** Nothing of `id` is held any more, and everything else as before. */
  ghost predicate Gone(s: State, s': State, id: TraceID) {
    && OthersStay(s, s', id)
    && (forall x :: x in s'.primary.vals ==> x in s.primary.vals && s'.primary.vals[x] == s.primary.vals[x])
    && (forall x :: x in s'.secondary.vals ==> x in s.secondary.vals && s'.secondary.vals[x] == s.secondary.vals[x])
  }

  lemma TierDeleteOutputs(s: State, id: TraceID)
    requires CachesValid(s)
    ensures SameOutputs(s, TierDelete(s, id)) && Gone(s, TierDelete(s, id), id)
  {
    TierDeleteOthers(s, id);
    TierDeleteEffect(s, id);
  }

  lemma NotHeldIsGone(s: State, s': State, id: TraceID)
    requires s'.primary == s.primary && s'.secondary == s.secondary && TierLookup(s, id).None?
    ensures Gone(s, s', id)
  {
  }

  lemma ExportHeldOutputs(cfg: Config, s: State, id: TraceID, always: bool)
    requires CachesValid(s) && TierLookup(s, id).Some?
    ensures var s' := ExportHeld(cfg, s, id, TierLookup(s, id).value, always);
            Outputs(s, s', HeldSent(cfg, s, id, always), [], []) && Gone(s, s', id)
  {
    var sent := SendHeld(cfg, s, id, TierLookup(s, id).value, always);
    assert StripFlushes([]) == [];
    assert sent.exported == s.exported + HeldSent(cfg, s, id, always);
    TierDeleteOutputs(sent, id);
  }

  lemma DecisionTrueOutputs(cfg: Config, s: State, id: TraceID)
    requires Inv(s) && id !in Decided(s)
    ensures var s' := DecisionTrue(cfg, s, id);
            && Outputs(s, s', HeldSent(cfg, s, id, true), [], []) && Gone(s, s', id)
            && Effective(s', id) == Sampled
  {
    DecisionTrueKeeps(cfg, s, id);
    if TierLookup(s, id).Some? {
      var t := TierTouched(s, id);
      TierTouchedKeeps(s, id);
      ExportHeldOutputs(cfg, t, id, true);
      GoneAfterTouch(s, t, ExportHeld(cfg, t, id, TierLookup(s, id).value, true), id);
    } else {
      NotHeldIsGone(s, DecisionTrue(cfg, s, id), id);
    }
  }

  lemma ReleaseSampledOutputs(cfg: Config, s: State, id: TraceID, batch: Traces)
    requires Inv(s) && id !in Decided(s)
    ensures var s' := ReleaseSampled(cfg, s, id, TierLookup(s, id), batch);
            && Outputs(s, s', HeldSent(cfg, s, id, false) + [Batch(id, StripFlushes(batch))], [], []) && Gone(s, s', id)
            && Effective(s', id) == Sampled
  {
    ReleaseSampledKeeps(cfg, s, id, TierLookup(s, id), batch);
    var s1 := s.(sampled := s.sampled.Added(id, ()));
    var s2 := if TierLookup(s, id).Some? then ExportHeld(cfg, s1, id, TierLookup(s, id).value, false) else s1;
    HeldThenRecorded(cfg, s, s1, s2, id);
    assert ReleaseSampled(cfg, s, id, TierLookup(s, id), batch) == Export(s2, id, batch);
    assert s2.exported + [Batch(id, StripFlushes(batch))]
           == s.exported + (HeldSent(cfg, s, id, false) + [Batch(id, StripFlushes(batch))]);
  }

  lemma HeldThenRecorded(cfg: Config, s: State, s1: State, s2: State, id: TraceID)
    requires Inv(s) && s1 == s.(sampled := s.sampled.Added(id, ()))
    requires s2 == if TierLookup(s, id).Some? then ExportHeld(cfg, s1, id, TierLookup(s, id).value, false) else s1
    ensures Outputs(s, s2, HeldSent(cfg, s, id, false), [], []) && Gone(s, s2, id)
  {
    AddSampledKeeps(s, id);
    if TierLookup(s, id).Some? {
      ExportHeldOutputs(cfg, s1, id, false);
    } else {
      NotHeldIsGone(s, s2, id);
    }
  }

  lemma ReleaseNotSampledOutputs(cfg: Config, s: State, id: TraceID, p: Option<string>)
    requires Inv(s) && id !in Decided(s)
    ensures var s' := ReleaseNotSampled(cfg, s, id, p);
            && Outputs(s, s', [], HeldDropped(cfg, s, id), if p.Some? then [Placeholder(id, p.value)] else [])
            && Gone(s, s', id) && Effective(s', id) == NotSampled
  {
    ReleaseNotSampledKeeps(cfg, s, id, p);
    AddedValid(s.notSampled, id, ());
    var s1 := if p.Some? then s.(placeholders := s.placeholders + [Placeholder(id, p.value)]) else s;
    TierDeleteOutputs(DropHeld(cfg, s1.(notSampled := s1.notSampled.Added(id, ())), id), id);
  }

  // ----- a batch of an undecided trace -----

  /** A batch, not a decision span, of an undecided trace, that can be encoded. */
  ghost predicate Evaluates(cfg: Config, s: State, g: Group) {
    && Inv(s) && Effective(s, g.id) == Unevaluated && g.resource.decision.None?
    && (cfg.compress ==> cfg.codec.encode(BatchOf(g)).Some?)
  }

  /** Policy `i` is the first to settle the matter for the group, and returns `d`. */
  ghost predicate SettledAs(cfg: Config, s: State, g: Group, now: int, env: nat, i: nat, d: Decision) {
    var merged := MergedMeta(now, BatchOf(g), TierLookup(s, g.id));
    && FirstToSettle(cfg.policies, i, env, g.id, BatchOf(g), merged)
    && Returned(cfg.policies[i], env, g.id, BatchOf(g), merged) == d
  }

  lemma UndecidedIsUnchecked(s: State, id: TraceID)
    requires Effective(s, id) == Unevaluated
    ensures Checked(s, id) == s && id !in Decided(s)
  {
  }

  lemma GoneAfterTouch(s: State, s1: State, s': State, id: TraceID)
    requires Inv(s) && s1 == TierTouched(s, id) && Gone(s1, s', id)
    ensures Gone(s, s', id)
  {
    TierTouchedKeeps(s, id);
  }

  /** If a policy samples the trace, what is held is sent, then the batch; the trace is decided and no
      longer held. */
  lemma BatchIsSampled(cfg: Config, s: State, g: Group, now: int, env: nat, i: nat)
    requires Evaluates(cfg, s, g) && SettledAs(cfg, s, g, now, env, i, Sampled)
    ensures var s' := ProcessGroup(cfg, s, g, now, env);
            && Outputs(s, s', HeldSent(cfg, s, g.id, false) + [Batch(g.id, StripFlushes(BatchOf(g)))], [], [])
            && Gone(s, s', g.id) && Effective(s', g.id) == Sampled
  {
    var s1 := TierTouched(s, g.id);
    UndecidedIsUnchecked(s, g.id);
    VerdictIsReturned(cfg.policies, i, env, g.id, BatchOf(g), MergedMeta(now, BatchOf(g), TierLookup(s, g.id)));
    TierTouchedKeeps(s, g.id);
    ReleaseSampledOutputs(cfg, s1, g.id, BatchOf(g));
    GoneAfterTouch(s, s1, ProcessGroup(cfg, s, g, now, env), g.id);
  }

  /** If a policy rejects it, what is held is dropped, then the batch; a placeholder with the policy's
      name is sent exactly if the policy asks for it. */
  lemma BatchIsRejected(cfg: Config, s: State, g: Group, now: int, env: nat, i: nat)
    requires Evaluates(cfg, s, g) && SettledAs(cfg, s, g, now, env, i, NotSampled)
    ensures var s' := ProcessGroup(cfg, s, g, now, env);
            && Outputs(s, s', [], HeldDropped(cfg, s, g.id) + [Batch(g.id, BatchOf(g))],
                       if cfg.policies[i].emitSingleSpan then [Placeholder(g.id, cfg.policies[i].name)] else [])
            && Gone(s, s', g.id) && Effective(s', g.id) == NotSampled
  {
    var s1 := TierTouched(s, g.id);
    UndecidedIsUnchecked(s, g.id);
    VerdictIsReturned(cfg.policies, i, env, g.id, BatchOf(g), MergedMeta(now, BatchOf(g), TierLookup(s, g.id)));
    TierTouchedKeeps(s, g.id);
    var p := if cfg.policies[i].emitSingleSpan then Some(cfg.policies[i].name) else None;
    ReleaseNotSampledOutputs(cfg, s1, g.id, p);
    assert ProcessGroup(cfg, s, g, now, env) == Drop(ReleaseNotSampled(cfg, s1, g.id, p), g.id, BatchOf(g));
    GoneAfterTouch(s, s1, ProcessGroup(cfg, s, g, now, env), g.id);
  }

  /** No policy samples or rejects the group. */
  ghost predicate Undecisive(cfg: Config, s: State, g: Group, now: int, env: nat) {
    var v := VerdictFor(cfg, s, g, now, env).decision;
    v != Sampled && v != NotSampled
  }

  /** The one trace that a put into a full tier lets go of. */
  ghost predicate LetsGo(cfg: Config, s: State, s': State, x: TraceID) {
    && x in Held(s) && x !in Held(s')
    && s'.dropped == s.dropped + [Batch(x, Decoded(cfg, TierLookup(s, x).value))]
  }

  /** `e` is held for `id`; at most one other trace has been let go of. If the tier has no room at all,
      it is `e` that has been. */
  ghost predicate Keeps(cfg: Config, s: State, s': State, id: TraceID, e: Entry) {
    && s'.exported == s.exported && s'.placeholders == s.placeholders
    && (|| (s'.dropped == s.dropped && TierLookup(s', id) == Some(e))
        || (TierLookup(s', id) == Some(e) && exists x :: x != id && LetsGo(cfg, s, s', x))
        || (s'.dropped == s.dropped + [Batch(id, Decoded(cfg, e))] && id !in Held(s')
            && (if e.meta.priority == Low then s.secondary.cap == 0 else s.primary.cap == 0)))
  }

  lemma TierPutKeepsEntry(cfg: Config, s: State, id: TraceID, e: Entry)
    requires CachesValid(s) && TiersDisjoint(s)
    ensures Keeps(cfg, s, TierPut(cfg, s, id, e), id, e)
  {
    var s' := TierPut(cfg, s, id, e);
    PutIsMapPut(cfg, s, id, e);
    LookupIsMapLookup(s', id);
    TierPutDrops(cfg, s, id, e);
    if PutVictim(s, id, e).Some? {
      var (x, v) := PutVictim(s, id, e).value;
      PutVictimIsHeld(s, id, e);
      LookupIsMapLookup(s', x);
      if x != id { assert LetsGo(cfg, s, s', x); }
    }
  }

  lemma PutVictimIsHeld(s: State, id: TraceID, e: Entry)
    requires CachesValid(s) && TiersDisjoint(s) && PutVictim(s, id, e).Some?
    ensures var (x, v) := PutVictim(s, id, e).value;
            if x == id then v == e && (if e.meta.priority == Low then s.secondary.cap == 0 else s.primary.cap == 0)
            else x in Held(s) && TierLookup(s, x) == Some(v)
  {
    var c := if e.meta.priority == Low then s.secondary else s.primary;
    AddedValid(c, id, e);
    if c.order != [] { assert c.order[0] in c.order; }
  }

  lemma TierPutDrops(cfg: Config, s: State, id: TraceID, e: Entry)
    requires CachesValid(s)
    ensures var s', victim := TierPut(cfg, s, id, e), PutVictim(s, id, e);
            Outputs(s, s', [], if victim.Some? then [Batch(victim.value.0, Decoded(cfg, victim.value.1))] else [], [])
  {
    if e.meta.priority == Low {
      PrimaryDeleteEffect(s, id);
      SecondaryPutDrops(cfg, PrimaryDelete(s, id), id, e);
    } else {
      SecondaryDeleteEffect(s, id);
      PrimaryPutDrops(cfg, SecondaryDelete(s, id), id, e);
    }
  }

  lemma PrimaryPutDrops(cfg: Config, s: State, id: TraceID, e: Entry)
    requires s.primary.Valid()
    ensures var victim := s.primary.Victim(id, e);
            Outputs(s, PrimaryPut(cfg, s, id, e), [],
                    if victim.Some? then [Batch(victim.value.0, Decoded(cfg, victim.value.1))] else [], [])
  {
  }

  lemma SecondaryPutDrops(cfg: Config, s: State, id: TraceID, e: Entry)
    requires s.secondary.Valid()
    ensures var victim := s.secondary.Victim(id, e);
            Outputs(s, SecondaryPut(cfg, s, id, e), [],
                    if victim.Some? then [Batch(victim.value.0, Decoded(cfg, victim.value.1))] else [], [])
  {
  }

  /** If none samples or rejects it, the batch is held, after what was held before; nothing is sent. */
  lemma BatchIsHeld(cfg: Config, s: State, g: Group, now: int, env: nat)
    requires Evaluates(cfg, s, g) && Undecisive(cfg, s, g, now, env)
    ensures Holding(cfg, s, g, now, env).Some?
    ensures Keeps(cfg, s, ProcessGroup(cfg, s, g, now, env), g.id, Holding(cfg, s, g, now, env).value)
  {
    UndecidedIsUnchecked(s, g.id);
    var s1, held := TierTouched(s, g.id), TierLookup(s, g.id);
    TierTouchedKeeps(s, g.id);
    var td := NewEntry(cfg.compress, cfg.codec, now, BatchOf(g)).value;
    var low := Lowered(td, MergedMeta(now, BatchOf(g), held), VerdictFor(cfg, s, g, now, env));
    HoldKeepsEntry(cfg, s1, g.id, low);
    KeepsAfterTouch(cfg, s, s1, ProcessGroup(cfg, s, g, now, env), g.id, Holding(cfg, s, g, now, env).value);
  }

  lemma HoldKeepsEntry(cfg: Config, s: State, id: TraceID, td: Entry)
    requires Inv(s)
    ensures var held := TierLookup(s, id);
            Keeps(cfg, s, Hold(cfg, s, id, td, held), id, if held.None? then td else AbsorbEntry(held.value, td))
  {
    if TierLookup(s, id).None? {
      TierPutKeepsEntry(cfg, s, id, td);
    } else {
      var e := AbsorbEntry(TierLookup(s, id).value, td);
      TierMutatedKeeps(s, id, td);
      TierPutKeepsEntry(cfg, TierMutated(s, id, e), id, e);
      KeepsAfterMutation(cfg, s, id, e);
    }
  }

  lemma KeepsAfterMutation(cfg: Config, s: State, id: TraceID, e: Entry)
    requires Inv(s) && TierLookup(s, id).Some?
    requires CachesValid(TierMutated(s, id, e))
    requires Keeps(cfg, TierMutated(s, id, e), TierPut(cfg, TierMutated(s, id, e), id, e), id, e)
    ensures Keeps(cfg, s, TierPut(cfg, TierMutated(s, id, e), id, e), id, e)
  {
    var m := TierMutated(s, id, e);
    var s' := TierPut(cfg, m, id, e);
    if x :| x != id && LetsGo(cfg, m, s', x) {
      LetsGoAfterMutation(cfg, s, s', id, e, x);
    }
  }

  lemma LetsGoAfterMutation(cfg: Config, s: State, s': State, id: TraceID, e: Entry, x: TraceID)
    requires TierLookup(s, id).Some? && x != id && LetsGo(cfg, TierMutated(s, id, e), s', x)
    ensures LetsGo(cfg, s, s', x)
  {
    var m := TierMutated(s, id, e);
    assert TierLookup(m, x) == TierLookup(s, x) && m.dropped == s.dropped;
  }

  lemma KeepsAfterTouch(cfg: Config, s: State, s1: State, s': State, id: TraceID, e: Entry)
    requires Inv(s) && s1 == TierTouched(s, id) && Keeps(cfg, s1, s', id, e)
    ensures Keeps(cfg, s, s', id, e)
  {
    TierTouchedKeeps(s, id);
    if x :| x != id && LetsGo(cfg, s1, s', x) {
      assert LetsGo(cfg, s, s', x);
    }
  }

  /** A batch that cannot be encoded is lost, and nothing else happens. */
  lemma BatchIsLost(cfg: Config, s: State, g: Group, now: int, env: nat)
    requires Inv(s) && Effective(s, g.id) == Unevaluated && g.resource.decision.None?
    requires cfg.compress && cfg.codec.encode(BatchOf(g)).None?
    ensures ProcessGroup(cfg, s, g, now, env) == s
  {
  }

  // ----- groups of decided traces, and decision spans -----

  /** A batch of a decided trace is sent or dropped, whether it is checked on arrival or when it is
      processed; the tiers and the decisions stay. */
  lemma BatchFollowsDecision(cfg: Config, s: State, g: Group, now: int, env: nat)
    requires Inv(s) && Effective(s, g.id) != Unevaluated && g.resource.decision.None?
    ensures var s' := ProcessGroup(cfg, s, g, now, env);
            && s' == EarlyCheck(s, g)
            && (Effective(s, g.id) == Sampled ==> Outputs(s, s', [Batch(g.id, StripFlushes(BatchOf(g)))], [], []))
            && (Effective(s, g.id) == NotSampled ==> Outputs(s, s', [], [Batch(g.id, BatchOf(g))], []))
            && s'.primary == s.primary && s'.secondary == s.secondary && s'.inflight == s.inflight
            && s'.sampled.vals == s.sampled.vals && s'.notSampled.vals == s.notSampled.vals
  {
    CheckedNotes(s, g.id);
  }

  /** On arrival, a decision span and a batch of an undecided trace are queued, untouched. */
  lemma ArrivalIsQueued(s: State, g: Group)
    requires g.resource.decision.Some? || Effective(s, g.id) == Unevaluated
    ensures EarlyCheck(s, g) == s.(inflight := s.inflight + [g])
  {
  }

  /** A decision span for a decided trace sends, drops, keeps and decides nothing. */
  lemma LateDecisionIsIgnored(cfg: Config, s: State, g: Group, now: int, env: nat)
    requires Inv(s) && Effective(s, g.id) != Unevaluated && g.resource.decision.Some?
    ensures var s' := ProcessGroup(cfg, s, g, now, env);
            && Outputs(s, s', [], [], []) && s'.primary == s.primary && s'.secondary == s.secondary
            && s'.sampled.vals == s.sampled.vals && s'.notSampled.vals == s.notSampled.vals
  {
    CheckedNotes(s, g.id);
  }

  /** A decision span for an undecided trace sends what is held, or drops it, without a placeholder. */
  lemma DecisionSpanOutputs(cfg: Config, s: State, g: Group, now: int, env: nat)
    requires Inv(s) && Effective(s, g.id) == Unevaluated && g.resource.decision.Some?
    ensures var s' := ProcessGroup(cfg, s, g, now, env);
            && Gone(s, s', g.id)
            && (if g.resource.decision.value then
                  Outputs(s, s', HeldSent(cfg, s, g.id, true), [], []) && Effective(s', g.id) == Sampled
                else Outputs(s, s', [], HeldDropped(cfg, s, g.id), []) && Effective(s', g.id) == NotSampled)
  {
    UndecidedIsUnchecked(s, g.id);
    if g.resource.decision.value {
      DecisionTrueOutputs(cfg, s, g.id);
    } else {
      ReleaseNotSampledOutputs(cfg, s, g.id, None);
    }
  }

  // ----- a resize -----

  ghost function VictimBatches(cfg: Config, victims: seq<(TraceID, Entry)>): seq<Batch> {
    seq(|victims|, i requires 0 <= i < |victims| => Batch(victims[i].0, Decoded(cfg, victims[i].1)))
  }

  lemma {:induction false} EvictAllOutputs(cfg: Config, s: State, victims: seq<(TraceID, Entry)>)
    ensures Outputs(s, EvictAll(cfg, s, victims), [], VictimBatches(cfg, victims), [])
  {
    if victims != [] {
      var n := |victims| - 1;
      EvictAllOutputs(cfg, s, victims[..n]);
      assert VictimBatches(cfg, victims) == VictimBatches(cfg, victims[..n])
                                            + [Batch(victims[n].0, Decoded(cfg, victims[n].1))];
    }
  }

  /** A resize lets go of the oldest traces, oldest first, and sends nothing. */
  lemma ResizeOutputs(cfg: Config, s: State, n: nat)
    requires Inv(s)
    ensures var k := if |s.primary.order| > n then |s.primary.order| - n else 0;
            var s' := PrimaryResize(cfg, s, n);
            && s'.exported == s.exported && s'.placeholders == s.placeholders
            && |s'.dropped| == |s.dropped| + k && s'.dropped[..|s.dropped|] == s.dropped
            && (forall i :: 0 <= i < k ==>
                  s.primary.order[i] in s.primary.vals
                  && s'.dropped[|s.dropped| + i]
                     == Batch(s.primary.order[i], Decoded(cfg, s.primary.vals[s.primary.order[i]])))
  {
    EvictAllOutputs(cfg, s.(primary := s.primary.Resized(n)), s.primary.Victims(n));
    forall i | 0 <= i < |s.primary.order| ensures s.primary.order[i] in s.primary.vals {
      assert s.primary.order[i] in s.primary.order;
    }
  }
}
