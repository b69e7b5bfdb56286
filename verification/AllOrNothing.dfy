/** No trace is half exported and half dropped, as long as the decision caches can remember every
    trace ID seen. */
module AllOrNothing {
  import opened Pdata
  import opened Grouping
  import opened TraceValues
  import opened Decider
  import opened Lru
  import opened Engine
  import opened Invariant
  import opened LockStep

  /** What grouping produces: a nonempty bucket, scope by scope, of the spans of one trace. */
  ghost predicate WellFormedGroup(g: Group) {
    && g.spans != [] && Sorted(g.spans) && Coherent(g.spans)
    && (forall x :: x in g.spans ==> x.span.traceID == g.id)
  }

  /** A group of a decision span or of ordinary spans whose ID belongs to `u`. */
  ghost predicate GroupOf(g: Group, u: set<TraceID>) {
    WellFormedGroup(g) && g.id in u
  }

  /** Every group produced by `groupSpansByTraceID` is well formed. */
  lemma BucketsAreWellFormed(rs: ResourceSpans, m: map<TraceID, seq<SpanAndScope>>, id: TraceID)
    requires IsGrouping(m, Refs(rs.scopeSpans, |rs.scopeSpans|)) && id in m
    ensures WellFormedGroup(Group(id, rs.resource, m[id]))
  {
    BucketIsSorted(rs, id);
    RefsAreSorted(rs.scopeSpans, |rs.scopeSpans|);
    FilterKeepsSorted(Refs(rs.scopeSpans, |rs.scopeSpans|), id);
  }

  ghost predicate AllOfTrace(t: Traces, id: TraceID) {
    forall s :: s in Spans(t) ==> s.traceID == id
  }

  lemma BatchIsOfTrace(g: Group)
    requires WellFormedGroup(g)
    ensures AllOfTrace(BatchOf(g), g.id)
  {
    MovedItems(g.resource, g.spans);
    forall s | s in Spans(BatchOf(g)) ensures s.traceID == g.id {
      var i :| 0 <= i < |Spans(BatchOf(g))| && Spans(BatchOf(g))[i] == s;
      assert g.spans[i] in g.spans;
    }
  }

  lemma {:induction false} StripKeepsSpans(t: Traces)
    ensures Spans(StripFlushes(t)) == Spans(t)
  {
    if t != [] {
      var n := |t| - 1;
      StripKeepsSpans(t[..n]);
      var last := StripFlushes(t)[n];
      assert StripFlushes(t)[..n] == StripFlushes(t[..n]);
      SameSpans(last.resource, t[n].resource, t[n].scopeSpans);
      SpansOfConcat(Items(t[..n]), ScopesItems(t[n].resource, t[n].scopeSpans));
      SpansOfConcat(Items(StripFlushes(t[..n])), ScopesItems(last.resource, last.scopeSpans));
    }
  }

  lemma {:induction false} SameSpans(r: Resource, q: Resource, scopes: seq<ScopeSpans>)
    ensures SpansOf(ScopesItems(r, scopes)) == SpansOf(ScopesItems(q, scopes))
  {
    if scopes != [] {
      var n := |scopes| - 1;
      SameSpans(r, q, scopes[..n]);
      SpansOfConcat(ScopesItems(r, scopes[..n]), ScopeItems(r, scopes[n]));
      SpansOfConcat(ScopesItems(q, scopes[..n]), ScopeItems(q, scopes[n]));
      assert SpansOf(ScopeItems(r, scopes[n])) == SpansOf(ScopeItems(q, scopes[n]));
    }
  }

  lemma ConcatOfTrace(a: Traces, b: Traces, id: TraceID)
    requires AllOfTrace(a, id) && AllOfTrace(b, id)
    ensures AllOfTrace(a + b, id)
  {
    ItemsConcat(a, b);
  }

  // ----- the invariant, for a processor that holds plain traces -----

  /** Everything held for `id` is plain and consists of spans of `id`. */
  ghost predicate HoldsOwn(e: Entry, id: TraceID) {
    e.data.Plain? && AllOfTrace(e.data.traces, id)
  }

  ghost predicate TierHoldsOwn(c: Lru<Entry>) {
    forall x :: x in c.vals ==> HoldsOwn(c.vals[x], x)
  }

  ghost predicate OutputOf(b: Batch, ids: set<TraceID>) {
    b.id in ids && AllOfTrace(b.traces, b.id)
  }

  /** Exported traces are remembered as sampled, dropped ones as not sampled and not as sampled. */
  ghost predicate Ledger(s: State) {
    && (forall b :: b in s.exported ==> OutputOf(b, s.sampled.vals.Keys))
    && (forall b :: b in s.dropped ==> OutputOf(b, s.notSampled.vals.Keys - s.sampled.vals.Keys))
  }

  ghost predicate Remembers(s: State, u: set<TraceID>) {
    && Roomy(s.sampled, u) && Roomy(s.notSampled, u) && Held(s) <= u
    && TierHoldsOwn(s.primary) && TierHoldsOwn(s.secondary)
  }

  ghost predicate WholeTraces(s: State, u: set<TraceID>) {
    && Inv(s) && Remembers(s, u) && Ledger(s)
    && (forall g :: g in s.inflight ==> GroupOf(g, u))
  }

  // ----- callbacks -----

  lemma TouchRoomy(c: Lru<()>, id: TraceID, u: set<TraceID>)
    requires Roomy(c, u)
    ensures Roomy(c.Touched(id), u)
  {
    TouchedValid(c, id);
  }

  /** With room, a callback adds exactly its ID, and only if it was undecided. */
  lemma EvictionExact(s: State, x: TraceID, u: set<TraceID>)
    requires CachesValid(s) && Roomy(s.sampled, u) && Roomy(s.notSampled, u) && x in u
    ensures var s' := CacheEviction(s, x);
            && s' == s.(sampled := s'.sampled, notSampled := s'.notSampled)
            && Roomy(s'.sampled, u) && Roomy(s'.notSampled, u)
            && s'.sampled.vals == s.sampled.vals
            && s'.notSampled.vals.Keys == s.notSampled.vals.Keys + (if x in Decided(s) then {} else {x})
  {
    TouchRoomy(s.sampled, x, u);
    TouchRoomy(s.notSampled, x, u);
    AddRoomy(s.notSampled.Touched(x), x, (), u);
  }

  /** The callback of an undecided, dropped victim keeps the ledger. */
  lemma VictimLedger(cfg: Config, s: State, x: TraceID, v: Entry, u: set<TraceID>)
    requires CachesValid(s) && Remembers(s, u) && Ledger(s)
    requires x in u && x !in Decided(s) && HoldsOwn(v, x)
    ensures var s' := CacheEviction(Drop(s, x, Decoded(cfg, v)), x);
            && Remembers(s', u) && Ledger(s') && s'.inflight == s.inflight
  {
    var s1 := Drop(s, x, Decoded(cfg, v));
    EvictionExact(s1, x, u);
    var s' := CacheEviction(s1, x);
    forall b | b in s'.dropped ensures OutputOf(b, s'.notSampled.vals.Keys - s'.sampled.vals.Keys) {
      if b in s.dropped { assert OutputOf(b, s.notSampled.vals.Keys - s.sampled.vals.Keys); }
    }
  }

  /** Between two states that differ in their decision caches, which only grow, without a dropped
      trace becoming sampled. */
  lemma LedgerGrows(s: State, s': State, x: TraceID)
    requires Ledger(s)
    requires s'.exported == s.exported && s'.dropped == s.dropped
    requires s.sampled.vals.Keys <= s'.sampled.vals.Keys <= s.sampled.vals.Keys + {x}
    requires s.notSampled.vals.Keys <= s'.notSampled.vals.Keys
    requires x in s'.sampled.vals && x !in s.sampled.vals ==> x !in s.notSampled.vals
    ensures Ledger(s')
  {
    forall b | b in s'.exported ensures OutputOf(b, s'.sampled.vals.Keys) {
      assert OutputOf(b, s.sampled.vals.Keys);
    }
    forall b | b in s'.dropped ensures OutputOf(b, s'.notSampled.vals.Keys - s'.sampled.vals.Keys) {
      assert OutputOf(b, s.notSampled.vals.Keys - s.sampled.vals.Keys);
    }
  }

  lemma ExportLedger(s: State, id: TraceID, t: Traces)
    requires Ledger(s) && id in s.sampled.vals && AllOfTrace(t, id)
    ensures Ledger(Export(s, id, t))
  {
    StripKeepsSpans(t);
  }

  lemma DropLedger(s: State, id: TraceID, t: Traces)
    requires Ledger(s) && id in s.notSampled.vals && id !in s.sampled.vals && AllOfTrace(t, id)
    ensures Ledger(Drop(s, id, t))
  {
  }

  // ----- deletions -----

  lemma TierDeleteWhole(s: State, id: TraceID, u: set<TraceID>)
    requires CachesValid(s) && Remembers(s, u) && id in u
    ensures var s' := TierDelete(s, id);
            && CachesValid(s') && Remembers(s', u)
            && s' == s.(primary := s.primary.Removed(id), secondary := s.secondary.Removed(id),
                        sampled := s'.sampled, notSampled := s'.notSampled)
            && s'.sampled.vals == s.sampled.vals
            && s.notSampled.vals.Keys <= s'.notSampled.vals.Keys <= s.notSampled.vals.Keys + {id}
            && (id in Decided(s) ==> s'.notSampled.vals == s.notSampled.vals)
  {
    TierDeleteEffect(s, id);
    PrimaryDeleteRoomy(s, id, u);
    SecondaryDeleteRoomy(PrimaryDelete(s, id), id, u);
    PrimaryDeleteEffect(s, id);
    RemovedValid(s.primary, id);
    RemovedValid(s.secondary, id);
  }

  lemma PrimaryDeleteRoomy(s: State, id: TraceID, u: set<TraceID>)
    requires CachesValid(s) && Roomy(s.sampled, u) && Roomy(s.notSampled, u) && id in u
    ensures var s' := PrimaryDelete(s, id);
            && Roomy(s'.sampled, u) && Roomy(s'.notSampled, u)
            && s.notSampled.vals.Keys <= s'.notSampled.vals.Keys
  {
    RemovedValid(s.primary, id);
    EvictionExact(s.(primary := s.primary.Removed(id)), id, u);
  }

  lemma SecondaryDeleteRoomy(s: State, id: TraceID, u: set<TraceID>)
    requires CachesValid(s) && Roomy(s.sampled, u) && Roomy(s.notSampled, u) && id in u
    ensures var s' := SecondaryDelete(s, id);
            && Roomy(s'.sampled, u) && Roomy(s'.notSampled, u)
            && s.notSampled.vals.Keys <= s'.notSampled.vals.Keys
  {
    RemovedValid(s.secondary, id);
    EvictionExact(s.(secondary := s.secondary.Removed(id)), id, u);
  }

  // ----- puts -----

  lemma PrimaryPutWhole(cfg: Config, s: State, id: TraceID, e: Entry, u: set<TraceID>)
    requires CachesValid(s) && Remembers(s, u) && Ledger(s) && Exclusive(s)
    requires id in u && id !in Decided(s) && HoldsOwn(e, id)
    ensures var s' := PrimaryPut(cfg, s, id, e);
            Remembers(s', u) && Ledger(s') && s'.inflight == s.inflight
  {
    AddedValid(s.primary, id, e);
    var s1 := s.(primary := s.primary.Added(id, e));
    match s.primary.Victim(id, e)
    case None =>
    case Some((x, v)) =>
      assert x == id || x in Held(s);
      VictimLedger(cfg, s1, x, v, u);
  }

  lemma SecondaryPutWhole(cfg: Config, s: State, id: TraceID, e: Entry, u: set<TraceID>)
    requires CachesValid(s) && Remembers(s, u) && Ledger(s) && Exclusive(s)
    requires id in u && id !in Decided(s) && HoldsOwn(e, id)
    requires e.meta.priority == Low && TiersAgree(s, {id})
    ensures var s' := SecondaryPut(cfg, s, id, e);
            Remembers(s', u) && Ledger(s') && s'.inflight == s.inflight
  {
    AddedValid(s.secondary, id, e);
    var s1 := s.(secondary := s.secondary.Added(id, e));
    match s.secondary.Victim(id, e)
    case None =>
    case Some((x, v)) =>
      assert x == id || x in Held(s);
      assert v.meta.priority == Low;
      VictimLedger(cfg, s1, x, v, u);
  }

  lemma TierPutWhole(cfg: Config, s: State, id: TraceID, e: Entry, u: set<TraceID>)
    requires CachesValid(s) && TiersDisjoint(s) && TiersAgree(s, {id}) && Exclusive(s)
    requires Remembers(s, u) && Ledger(s)
    requires id in u && id !in Decided(s) && HoldsOwn(e, id)
    requires TierLookup(s, id).Some? ==> TierLookup(s, id).value == e
    requires id in s.primary.vals ==> e.meta.priority != Low
    ensures var s' := TierPut(cfg, s, id, e);
            Remembers(s', u) && Ledger(s') && s'.inflight == s.inflight
  {
    TierPutKeeps(cfg, s, id, e);
    if e.meta.priority == Low {
      SecondaryPutWhole(cfg, s, id, e, u);
    } else {
      RemovedValid(s.secondary, id);
      PrimaryPutWhole(cfg, s.(secondary := s.secondary.Removed(id)), id, e, u);
    }
  }

  // ----- steps -----

  lemma MutatedWhole(s: State, id: TraceID, e: Entry, u: set<TraceID>)
    requires WholeTraces(s, u) && TierLookup(s, id).Some? && HoldsOwn(e, id)
    ensures Remembers(TierMutated(s, id, e), u) && Ledger(TierMutated(s, id, e))
  {
    assert Held(TierMutated(s, id, e)) == Held(s);
  }

  lemma HoldWhole(cfg: Config, s: State, id: TraceID, td: Entry, u: set<TraceID>)
    requires WholeTraces(s, u) && id in u && id !in Decided(s) && HoldsOwn(td, id)
    ensures WholeTraces(Hold(cfg, s, id, td, TierLookup(s, id)), u)
  {
    var held := TierLookup(s, id);
    HoldKeeps(cfg, s, id, td, held);
    match held
    case None => TierPutWhole(cfg, s, id, td, u);
    case Some(h) =>
      var e := AbsorbEntry(h, td);
      ConcatOfTrace(h.data.traces, td.data.traces, id);
      TierMutatedKeeps(s, id, td);
      MutatedWhole(s, id, e, u);
      TierPutWhole(cfg, TierMutated(s, id, e), id, e, u);
  }

  lemma ReleaseNotSampledWhole(cfg: Config, s: State, id: TraceID, p: Option<string>, u: set<TraceID>)
    requires WholeTraces(s, u) && id in u && id !in Decided(s)
    ensures var s' := ReleaseNotSampled(cfg, s, id, p);
            WholeTraces(s', u) && id in s'.notSampled.vals && id !in s'.sampled.vals
  {
    ReleaseNotSampledKeeps(cfg, s, id, p);
    var s1 := if p.Some? then s.(placeholders := s.placeholders + [Placeholder(id, p.value)]) else s;
    var s2 := s1.(notSampled := s1.notSampled.Added(id, ()));
    AddRoomy(s.notSampled, id, (), u);
    LedgerGrows(s, s2, id);
    var s3 := DropHeld(cfg, s2, id);
    if TierLookup(s2, id).Some? {
      DropLedger(s2, id, Decoded(cfg, TierLookup(s2, id).value));
    }
    TierDeleteWhole(s3, id, u);
    LedgerGrows(s3, TierDelete(s3, id), id);
  }

  /** Exporting what is held. The decision may be recorded before the deletion, or right after it. */
  lemma ExportHeldWhole(cfg: Config, s: State, id: TraceID, always: bool, u: set<TraceID>)
    requires CachesValid(s) && Remembers(s, u) && Ledger(s) && id in u && TierLookup(s, id).Some?
    requires id in s.sampled.vals
    ensures var s' := ExportHeld(cfg, s, id, TierLookup(s, id).value, always);
            && CachesValid(s') && Remembers(s', u) && Ledger(s') && s'.inflight == s.inflight
            && s'.sampled.vals == s.sampled.vals && s'.notSampled.vals == s.notSampled.vals
  {
    var e := TierLookup(s, id).value;
    ExportLedger(s, id, e.data.traces);
    var s1 := Export(s, id, e.data.traces);
    TierDeleteWhole(s1, id, u);
    LedgerGrows(s1, TierDelete(s1, id), id);
  }

  lemma ReleaseSampledWhole(cfg: Config, s: State, id: TraceID, batch: Traces, u: set<TraceID>)
    requires WholeTraces(s, u) && id in u && id !in Decided(s) && AllOfTrace(batch, id)
    ensures WholeTraces(ReleaseSampled(cfg, s, id, TierLookup(s, id), batch), u)
  {
    ReleaseSampledKeeps(cfg, s, id, TierLookup(s, id), batch);
    var s1 := s.(sampled := s.sampled.Added(id, ()));
    AddRoomy(s.sampled, id, (), u);
    LedgerGrows(s, s1, id);
    var s2 := s1;
    if TierLookup(s, id).Some? {
      ExportHeldWhole(cfg, s1, id, false, u);
      s2 := ExportHeld(cfg, s1, id, TierLookup(s, id).value, false);
    }
    ExportLedger(s2, id, batch);
  }

  /** A true decision span exports first and records afterwards; the not-sampled mark its deletion
      leaves does no harm, because nothing of this trace has been or will be dropped. */
  lemma DecisionTrueWhole(cfg: Config, s: State, id: TraceID, u: set<TraceID>)
    requires WholeTraces(s, u) && id in u && id !in Decided(s)
    ensures WholeTraces(DecisionTrue(cfg, s, id), u)
  {
    DecisionTrueKeeps(cfg, s, id);
    if TierLookup(s, id).None? {
      AddRoomy(s.sampled, id, (), u);
      LedgerGrows(s, DecisionTrue(cfg, s, id), id);
    } else {
      var t := TierTouched(s, id);
      TierTouchedKeeps(s, id);
      var e := TierLookup(s, id).value;
      var t1 := Export(t, id, e.data.traces);
      TierDeleteWhole(t1, id, u);
      var t2 := TierDelete(t1, id);
      AddRoomy(t2.sampled, id, (), u);
      var t3 := t2.(sampled := t2.sampled.Added(id, ()));
      assert t3 == DecisionTrue(cfg, s, id);
      LedgerGrows(s, t3.(exported := s.exported), id);
      ExportLedger(t3.(exported := s.exported), id, e.data.traces);
    }
  }

  lemma TouchedWhole(s: State, id: TraceID, u: set<TraceID>)
    requires WholeTraces(s, u)
    ensures WholeTraces(TierTouched(s, id), u)
  {
    TierTouchedKeeps(s, id);
    LedgerGrows(s, TierTouched(s, id), id);
  }

  lemma CheckedWhole(s: State, id: TraceID, u: set<TraceID>)
    requires WholeTraces(s, u)
    ensures WholeTraces(Checked(s, id), u)
  {
    CheckedNotes(s, id);
    TouchRoomy(s.sampled, id, u);
    TouchRoomy(s.notSampled, id, u);
    LedgerGrows(s, Checked(s, id), id);
  }

  lemma EvaluateWhole(cfg: Config, s: State, g: Group, now: int, env: nat, u: set<TraceID>)
    requires !cfg.compress && WholeTraces(s, u) && GroupOf(g, u) && g.id !in Decided(s)
    ensures WholeTraces(Evaluate(cfg, s, g, now, env), u)
  {
    var batch, held, s1 := BatchOf(g), TierLookup(s, g.id), TierTouched(s, g.id);
    BatchIsOfTrace(g);
    TouchedWhole(s, g.id, u);
    TierTouchedKeeps(s, g.id);
    var v := VerdictFor(cfg, s, g, now, env);
    if v.decision == Sampled {
      ReleaseSampledWhole(cfg, s1, g.id, batch, u);
    } else if v.decision == NotSampled {
      var p := if v.emit then v.policy else None;
      ReleaseNotSampledWhole(cfg, s1, g.id, p, u);
      DropLedger(ReleaseNotSampled(cfg, s1, g.id, p), g.id, batch);
    } else {
      var td := NewEntry(false, cfg.codec, now, batch).value;
      HoldWhole(cfg, s1, g.id, Lowered(td, MergedMeta(now, batch, held), v), u);
    }
  }

  /** A batch for a decided trace follows the decision. */
  lemma KnownWhole(s: State, g: Group, u: set<TraceID>)
    requires WholeTraces(s, u) && GroupOf(g, u)
    ensures Effective(s, g.id) == Sampled ==> WholeTraces(Export(Checked(s, g.id), g.id, BatchOf(g)), u)
    ensures Effective(s, g.id) == NotSampled ==> WholeTraces(Drop(Checked(s, g.id), g.id, BatchOf(g)), u)
  {
    BatchIsOfTrace(g);
    CheckedWhole(s, g.id, u);
    CheckedNotes(s, g.id);
    if Effective(s, g.id) == Sampled {
      ExportLedger(Checked(s, g.id), g.id, BatchOf(g));
    } else if Effective(s, g.id) == NotSampled {
      DropLedger(Checked(s, g.id), g.id, BatchOf(g));
    }
  }

  lemma ProcessGroupWhole(cfg: Config, s: State, g: Group, now: int, env: nat, u: set<TraceID>)
    requires !cfg.compress && WholeTraces(s, u) && GroupOf(g, u)
    ensures WholeTraces(ProcessGroup(cfg, s, g, now, env), u)
  {
    CheckedWhole(s, g.id, u);
    CheckedNotes(s, g.id);
    var s1 := Checked(s, g.id);
    if Effective(s, g.id) != Unevaluated {
      KnownWhole(s, g, u);
    } else if g.resource.decision.None? {
      EvaluateWhole(cfg, s1, g, now, env, u);
    } else if g.resource.decision.value {
      DecisionTrueWhole(cfg, s1, g.id, u);
    } else {
      ReleaseNotSampledWhole(cfg, s1, g.id, None, u);
    }
  }

  ghost predicate Spared(y: TraceID, victims: seq<(TraceID, Entry)>) {
    forall i :: 0 <= i < |victims| ==> victims[i].0 != y
  }

  lemma VictimWhole(cfg: Config, s: State, x: TraceID, v: Entry, u: set<TraceID>)
    requires WholeTraces(s, u) && x in u && x !in Held(s) && x !in Decided(s) && HoldsOwn(v, x)
    ensures var s' := CacheEviction(Drop(s, x, Decoded(cfg, v)), x);
            && WholeTraces(s', u) && s'.primary == s.primary && s'.secondary == s.secondary
            && Decided(s') == Decided(s) + {x}
  {
    VictimLedger(cfg, s, x, v, u);
    var s1 := Drop(s, x, Decoded(cfg, v));
    EvictionExact(s1, x, u);
    CacheEvictionNotes(s1, x);
    NotedKeepsInv(s1, CacheEviction(s1, x), x);
  }

  lemma {:induction false} EvictAllWhole(cfg: Config, s: State, victims: seq<(TraceID, Entry)>, u: set<TraceID>)
    requires WholeTraces(s, u)
    requires forall i, j :: 0 <= i < j < |victims| ==> victims[i].0 != victims[j].0
    requires forall i :: 0 <= i < |victims| ==>
               victims[i].0 in u && victims[i].0 !in Held(s) && victims[i].0 !in Decided(s)
                   && HoldsOwn(victims[i].1, victims[i].0)
    ensures var s' := EvictAll(cfg, s, victims);
            && WholeTraces(s', u) && s'.primary == s.primary && s'.secondary == s.secondary
            && (forall y :: y !in Decided(s) && Spared(y, victims) ==> y !in Decided(s'))
  {
    if victims != [] {
      var n := |victims| - 1;
      EvictAllWhole(cfg, s, victims[..n], u);
      var s1 := EvictAll(cfg, s, victims[..n]);
      var (x, v) := victims[n];
      assert Spared(x, victims[..n]);
      VictimWhole(cfg, s1, x, v, u);
      forall y | y !in Decided(s) && Spared(y, victims) ensures y !in Decided(EvictAll(cfg, s, victims)) {
        assert victims[n].0 != y && Spared(y, victims[..n]);
      }
    }
  }

  lemma PrimaryResizeWhole(cfg: Config, s: State, n: nat, u: set<TraceID>)
    requires WholeTraces(s, u)
    ensures WholeTraces(PrimaryResize(cfg, s, n), u)
  {
    ResizedValid(s.primary, n);
    var s1, victims := s.(primary := s.primary.Resized(n)), s.primary.Victims(n);
    LedgerGrows(s, s1, TraceID([]));
    forall i | 0 <= i < |victims|
      ensures victims[i].0 in u && victims[i].0 !in Held(s1) && victims[i].0 !in Decided(s1)
              && HoldsOwn(victims[i].1, victims[i].0)
    {
      assert s.primary.order[i] in s.primary.order[..s.primary.Excess(n)];
      assert s.primary.order[i] in s.primary.vals;
      assert victims[i].0 in Held(s);
    }
    EvictAllWhole(cfg, s1, victims, u);
  }

  ghost predicate StepOf(step: Step, u: set<TraceID>) {
    step.Receive? ==> GroupOf(step.g, u)
  }

  lemma NextWhole(cfg: Config, s: State, step: Step, u: set<TraceID>)
    requires !cfg.compress && WholeTraces(s, u) && StepOf(step, u)
    ensures WholeTraces(Next(cfg, s, step), u)
  {
    match step
    case Receive(g) =>
      EarlyCheckKeeps(s, g);
      CheckedWhole(s, g.id, u);
      KnownWhole(s, g, u);
    case Process(i, now, env) =>
      if i < |s.inflight| {
        ProcessGroupWhole(cfg, s.(inflight := WithoutIndex(s.inflight, i)), s.inflight[i], now, env, u);
      }
    case Regulate(size) => PrimaryResizeWhole(cfg, s, size, u);
  }

  lemma {:induction false} RunWhole(cfg: Config, s: State, steps: seq<Step>, u: set<TraceID>)
    requires !cfg.compress && WholeTraces(s, u)
    requires forall i :: 0 <= i < |steps| ==> StepOf(steps[i], u)
    ensures WholeTraces(Run(cfg, s, steps), u)
  {
    if steps != [] {
      RunWhole(cfg, s, steps[..|steps| - 1], u);
      NextWhole(cfg, Run(cfg, s, steps[..|steps| - 1]), steps[|steps| - 1], u);
    }
  }

  /** All or nothing: over every run from a fresh processor, compressing or not, whose decision
      caches can hold every trace ID received, no exported span and no dropped span ever belong to
      the same trace. */
  lemma NoTraceIsSplit(cfg: Config, p: nat, q: nat, y: nat, n: nat, steps: seq<Step>, u: set<TraceID>)
    requires cfg.compress ==> Lossless(cfg.codec)
    requires y > 0 && n > 0 && |u| <= y && |u| <= n
    requires forall i :: 0 <= i < |steps| ==> StepOf(steps[i], u)
    ensures Inv(Initial(p, q, y, n))
    ensures var s := Run(cfg, Initial(p, q, y, n), steps);
            forall b, d, a, c :: b in s.exported && d in s.dropped && a in Spans(b.traces) && c in Spans(d.traces) ==>
              a.traceID != c.traceID
  {
    var start := Initial(p, q, y, n);
    InitialInv(p, q, y, n);
    RunWhole(Plainly(cfg), start, steps, u);
    if cfg.compress {
      assert Compressing(cfg) == cfg;
      CompressionIsTransparent(cfg, start, steps);
    } else {
      assert Plainly(cfg) == cfg;
    }
    var s, plain := Run(cfg, start, steps), Run(Plainly(cfg), start, steps);
    forall b, d, a, c | b in s.exported && d in s.dropped && a in Spans(b.traces) && c in Spans(d.traces)
      ensures a.traceID != c.traceID
    {
      assert OutputOf(b, plain.sampled.vals.Keys);
      assert OutputOf(d, plain.notSampled.vals.Keys - plain.sampled.vals.Keys);
    }
  }
}
