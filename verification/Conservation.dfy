/** Every span received is queued, held, exported or dropped, exactly as often as it was received. */
module Conservation {
  import opened Pdata
  import opened Grouping
  import opened TraceValues
  import opened Decider
  import opened Lru
  import opened Engine
  import opened Invariant
  import opened LockStep
  import opened AllOrNothing

  // ----- counting one span -----

  /** How often the span `x` occurs in `t`. */
  ghost function Count(t: Traces, x: Span): nat {
    multiset(Spans(t))[x]
  }

  lemma CountConcat(a: Traces, b: Traces, x: Span)
    ensures Count(a + b, x) == Count(a, x) + Count(b, x)
  {
    ItemsConcat(a, b);
  }

  ghost function EntryCount(cfg: Config, e: Entry, x: Span): nat {
    Count(Decoded(cfg, e), x)
  }

  ghost function OrderCount(cfg: Config, order: seq<TraceID>, vals: map<TraceID, Entry>, x: Span): nat
    requires forall k :: k in order ==> k in vals
  {
    if order == [] then 0
    else
      var k := order[|order| - 1];
      assert forall j :: j in order[..|order| - 1] ==> j in order;
      OrderCount(cfg, order[..|order| - 1], vals, x) + EntryCount(cfg, vals[k], x)
  }

  /** How often `x` is held in a tier. */
  ghost function TierCount(cfg: Config, c: Lru<Entry>, x: Span): nat
    requires c.Valid()
  {
    OrderCount(cfg, c.order, c.vals, x)
  }

  ghost function BatchesCount(bs: seq<Batch>, x: Span): nat {
    if bs == [] then 0 else BatchesCount(bs[..|bs| - 1], x) + Count(bs[|bs| - 1].traces, x)
  }

  /** Decision spans carry no trace data, so they are not counted. */
  ghost function GroupCount(g: Group, x: Span): nat {
    if g.resource.decision.Some? then 0 else Count(BatchOf(g), x)
  }

  ghost function QueueCount(q: seq<Group>, x: Span): nat {
    if q == [] then 0 else QueueCount(q[..|q| - 1], x) + GroupCount(q[|q| - 1], x)
  }

  ghost function HeldCount(cfg: Config, s: State, x: Span): nat
    requires Inv(s)
  {
    TierCount(cfg, s.primary, x) + TierCount(cfg, s.secondary, x)
  }

  /** The span `x` over the pending tiers, the exported and the dropped batches. */
  ghost function Settled(cfg: Config, s: State, x: Span): nat
    requires s.primary.Valid() && s.secondary.Valid()
  {
    TierCount(cfg, s.primary, x) + TierCount(cfg, s.secondary, x)
    + BatchesCount(s.exported, x) + BatchesCount(s.dropped, x)
  }

  // ----- counting over the cache operations -----

  lemma {:induction false} OrderCountConcat(cfg: Config, a: seq<TraceID>, b: seq<TraceID>, vals: map<TraceID, Entry>,
      x: Span)
    requires forall k :: k in a || k in b ==> k in vals
    ensures forall k :: k in a + b ==> k in vals
    ensures OrderCount(cfg, a + b, vals, x) == OrderCount(cfg, a, vals, x) + OrderCount(cfg, b, vals, x)
  {
    if b == [] {
      assert a + b == a;
    } else {
      var n := |b| - 1;
      assert forall k :: k in b[..n] ==> k in b;
      OrderCountConcat(cfg, a, b[..n], vals, x);
      OrderCountSnoc(cfg, a + b[..n], b[n], vals, x);
      OrderCountSnoc(cfg, b[..n], b[n], vals, x);
      AppendLast(a, b);
    }
  }

  lemma OrderCountSnoc(cfg: Config, order: seq<TraceID>, k: TraceID, vals: map<TraceID, Entry>, x: Span)
    requires k in vals && forall j :: j in order ==> j in vals
    ensures OrderCount(cfg, order + [k], vals, x) == OrderCount(cfg, order, vals, x) + EntryCount(cfg, vals[k], x)
  {
    assert (order + [k])[..|order|] == order;
  }

  lemma {:induction false} OrderCountFrame(cfg: Config, order: seq<TraceID>, v: map<TraceID, Entry>,
      w: map<TraceID, Entry>, x: Span)
    requires forall k :: k in order ==> k in v && k in w && EntryCount(cfg, v[k], x) == EntryCount(cfg, w[k], x)
    ensures OrderCount(cfg, order, v, x) == OrderCount(cfg, order, w, x)
  {
    if order != [] {
      var n := |order| - 1;
      assert forall k :: k in order[..n] ==> k in order;
      OrderCountFrame(cfg, order[..n], v, w, x);
    }
  }

  lemma OrderCountOne(cfg: Config, k: TraceID, vals: map<TraceID, Entry>, x: Span)
    requires k in vals
    ensures OrderCount(cfg, [k], vals, x) == EntryCount(cfg, vals[k], x)
  {
    var none: seq<TraceID> := [k][..0];
    assert none == [];
  }

  /** Taking a key out of the order takes its entry out of the count. */
  lemma WithoutCount(cfg: Config, order: seq<TraceID>, id: TraceID, vals: map<TraceID, Entry>, x: Span)
    requires NoDup(order) && id in order && (forall k :: k in order ==> k in vals)
    ensures forall k :: k in Without(order, id) ==> k in vals
    ensures OrderCount(cfg, order, vals, x) ==
            OrderCount(cfg, Without(order, id), vals, x) + EntryCount(cfg, vals[id], x)
  {
    var i := IndexOf(order, id);
    var a, b := order[..i], order[i + 1..];
    WithoutProps(order, id);
    assert order == a + ([id] + b);
    OrderCountConcat(cfg, a, [id] + b, vals, x);
    OrderCountConcat(cfg, [id], b, vals, x);
    OrderCountConcat(cfg, a, b, vals, x);
    OrderCountOne(cfg, id, vals, x);
  }

  lemma AppendCount(cfg: Config, order: seq<TraceID>, id: TraceID, vals: map<TraceID, Entry>, x: Span)
    requires (forall k :: k in order ==> k in vals) && id in vals
    ensures OrderCount(cfg, order + [id], vals, x) == OrderCount(cfg, order, vals, x) + EntryCount(cfg, vals[id], x)
  {
    OrderCountConcat(cfg, order, [id], vals, x);
    OrderCountOne(cfg, id, vals, x);
  }

  lemma TouchedCount(cfg: Config, c: Lru<Entry>, id: TraceID, x: Span)
    requires c.Valid()
    ensures c.Touched(id).Valid() && TierCount(cfg, c.Touched(id), x) == TierCount(cfg, c, x)
  {
    TouchedValid(c, id);
    if id in c.vals {
      WithoutCount(cfg, c.order, id, c.vals, x);
      AppendCount(cfg, Without(c.order, id), id, c.vals, x);
    }
  }

  lemma RemovedCount(cfg: Config, c: Lru<Entry>, id: TraceID, x: Span)
    requires c.Valid()
    ensures c.Removed(id).Valid()
    ensures TierCount(cfg, c, x) ==
            TierCount(cfg, c.Removed(id), x) + (if id in c.vals then EntryCount(cfg, c.vals[id], x) else 0)
  {
    RemovedValid(c, id);
    if id in c.vals {
      WithoutCount(cfg, c.order, id, c.vals, x);
      WithoutProps(c.order, id);
      OrderCountFrame(cfg, Without(c.order, id), c.vals, c.vals - {id}, x);
    }
  }

  lemma MutatedCount(cfg: Config, c: Lru<Entry>, id: TraceID, e: Entry, x: Span)
    requires c.Valid() && id in c.vals
    ensures c.Mutated(id, e).Valid()
    ensures TierCount(cfg, c.Mutated(id, e), x) + EntryCount(cfg, c.vals[id], x) ==
            TierCount(cfg, c, x) + EntryCount(cfg, e, x)
  {
    var w := c.vals[id := e];
    WithoutProps(c.order, id);
    WithoutCount(cfg, c.order, id, c.vals, x);
    WithoutCount(cfg, c.order, id, w, x);
    OrderCountFrame(cfg, Without(c.order, id), c.vals, w, x);
  }

  /** An added entry replaces the old one of its key, or pushes out the victim, or is simply added. */
  lemma AddedCount(cfg: Config, c: Lru<Entry>, id: TraceID, e: Entry, x: Span)
    requires c.Valid()
    ensures c.Added(id, e).Valid()
    ensures TierCount(cfg, c.Added(id, e), x)
            + (if id in c.vals then EntryCount(cfg, c.vals[id], x) else 0)
            + (if c.Victim(id, e).Some? then EntryCount(cfg, c.Victim(id, e).value.1, x) else 0)
            == TierCount(cfg, c, x) + EntryCount(cfg, e, x)
  {
    AddedValid(c, id, e);
    if id in c.vals {
      MutatedCount(cfg, c, id, e, x);
      TouchedCount(cfg, c.Mutated(id, e), id, x);
      assert c.Mutated(id, e).Touched(id) == c.Added(id, e);
    } else {
      NewCount(cfg, c, id, e, x);
    }
  }

  lemma NewCount(cfg: Config, c: Lru<Entry>, id: TraceID, e: Entry, x: Span)
    requires c.Valid() && c.Added(id, e).Valid() && id !in c.vals
    ensures TierCount(cfg, c.Added(id, e), x)
            + (if c.Victim(id, e).Some? then EntryCount(cfg, c.Victim(id, e).value.1, x) else 0)
            == TierCount(cfg, c, x) + EntryCount(cfg, e, x)
  {
    var w, o := c.vals[id := e], c.order + [id];
    OrderCountFrame(cfg, c.order, c.vals, w, x);
    AppendCount(cfg, c.order, id, w, x);
    if |o| > c.cap {
      OldestCount(cfg, o, w, x);
    }
  }

  lemma OldestCount(cfg: Config, o: seq<TraceID>, w: map<TraceID, Entry>, x: Span)
    requires o != [] && NoDup(o) && (forall k :: k in o ==> k in w)
    ensures forall k :: k in o[1..] ==> k in w - {o[0]}
    ensures OrderCount(cfg, o, w, x) == OrderCount(cfg, o[1..], w - {o[0]}, x) + EntryCount(cfg, w[o[0]], x)
  {
    OldestLeaves(o);
    assert o == [o[0]] + o[1..];
    OrderCountConcat(cfg, [o[0]], o[1..], w, x);
    OrderCountOne(cfg, o[0], w, x);
    OrderCountFrame(cfg, o[1..], w, w - {o[0]}, x);
  }

  ghost function VictimsCount(cfg: Config, vs: seq<(TraceID, Entry)>, x: Span): nat {
    if vs == [] then 0 else VictimsCount(cfg, vs[..|vs| - 1], x) + EntryCount(cfg, vs[|vs| - 1].1, x)
  }

  lemma {:induction false} VictimsOfOrder(cfg: Config, vs: seq<(TraceID, Entry)>, order: seq<TraceID>,
      vals: map<TraceID, Entry>, x: Span)
    requires |vs| == |order| && (forall k :: k in order ==> k in vals)
    requires forall i :: 0 <= i < |vs| ==> vs[i] == (order[i], vals[order[i]])
    ensures VictimsCount(cfg, vs, x) == OrderCount(cfg, order, vals, x)
  {
    if vs != [] {
      var n := |vs| - 1;
      assert forall k :: k in order[..n] ==> k in order;
      VictimsOfOrder(cfg, vs[..n], order[..n], vals, x);
    }
  }

  lemma ResizedCount(cfg: Config, c: Lru<Entry>, n: nat, x: Span)
    requires c.Valid()
    ensures c.Resized(n).Valid()
    ensures TierCount(cfg, c, x) == TierCount(cfg, c.Resized(n), x) + VictimsCount(cfg, c.Victims(n), x)
  {
    ResizedValid(c, n);
    var k := c.Excess(n);
    var a, b := c.order[..k], c.order[k..];
    assert c.order == a + b;
    OrderCountConcat(cfg, a, b, c.vals, x);
    VictimsOfOrder(cfg, c.Victims(n), a, c.vals, x);
    OrderCountFrame(cfg, b, c.vals, c.Resized(n).vals, x);
  }

  // ----- counting over outputs -----

  lemma ExportCount(cfg: Config, s: State, id: TraceID, t: Traces, x: Span)
    requires s.primary.Valid() && s.secondary.Valid()
    ensures Settled(cfg, Export(s, id, t), x) == Settled(cfg, s, x) + Count(t, x)
  {
    StripKeepsSpans(t);
    var b := Batch(id, StripFlushes(t));
    assert (s.exported + [b])[..|s.exported|] == s.exported;
  }

  lemma DropCount(cfg: Config, s: State, id: TraceID, t: Traces, x: Span)
    requires s.primary.Valid() && s.secondary.Valid()
    ensures Settled(cfg, Drop(s, id, t), x) == Settled(cfg, s, x) + Count(t, x)
  {
    assert (s.dropped + [Batch(id, t)])[..|s.dropped|] == s.dropped;
  }

  // ----- counting over the tier operations -----

  ghost predicate TiersValid(s: State) {
    s.primary.Valid() && s.secondary.Valid()
  }

  lemma EvictionCount(cfg: Config, s: State, id: TraceID, e: Entry, x: Span)
    requires TiersValid(s)
    ensures var s' := SecondaryEvicted(s, id, e);
            s'.primary == s.primary && s'.secondary == s.secondary && Settled(cfg, s', x) == Settled(cfg, s, x)
    ensures var s' := PrimaryEvicted(s, id, e);
            s'.primary == s.primary && s'.secondary == s.secondary && Settled(cfg, s', x) == Settled(cfg, s, x)
  {
  }

  lemma PrimaryDeleteCount(cfg: Config, s: State, id: TraceID, x: Span)
    requires TiersValid(s)
    ensures TiersValid(PrimaryDelete(s, id)) && PrimaryDelete(s, id).secondary == s.secondary
    ensures Settled(cfg, s, x) == Settled(cfg, PrimaryDelete(s, id), x)
                                  + (if id in s.primary.vals then EntryCount(cfg, s.primary.vals[id], x) else 0)
  {
    RemovedCount(cfg, s.primary, id, x);
    if id in s.primary.vals {
      EvictionCount(cfg, s.(primary := s.primary.Removed(id)), id, s.primary.vals[id], x);
    }
  }

  lemma SecondaryDeleteCount(cfg: Config, s: State, id: TraceID, x: Span)
    requires TiersValid(s)
    ensures TiersValid(SecondaryDelete(s, id)) && SecondaryDelete(s, id).primary == s.primary
    ensures Settled(cfg, s, x) == Settled(cfg, SecondaryDelete(s, id), x)
                                  + (if id in s.secondary.vals then EntryCount(cfg, s.secondary.vals[id], x) else 0)
  {
    RemovedCount(cfg, s.secondary, id, x);
    if id in s.secondary.vals {
      EvictionCount(cfg, s.(secondary := s.secondary.Removed(id)), id, s.secondary.vals[id], x);
    }
  }

  ghost function LookupCount(cfg: Config, s: State, id: TraceID, x: Span): nat {
    if TierLookup(s, id).None? then 0 else EntryCount(cfg, TierLookup(s, id).value, x)
  }

  lemma TierDeleteCount(cfg: Config, s: State, id: TraceID, x: Span)
    requires TiersValid(s) && TiersDisjoint(s)
    ensures TiersValid(TierDelete(s, id))
    ensures Settled(cfg, s, x) == Settled(cfg, TierDelete(s, id), x) + LookupCount(cfg, s, id, x)
  {
    PrimaryDeleteCount(cfg, s, id, x);
    SecondaryDeleteCount(cfg, PrimaryDelete(s, id), id, x);
  }

  lemma PrimaryPutCount(cfg: Config, s: State, id: TraceID, e: Entry, x: Span)
    requires TiersValid(s)
    ensures TiersValid(PrimaryPut(cfg, s, id, e))
    ensures Settled(cfg, PrimaryPut(cfg, s, id, e), x)
            + (if id in s.primary.vals then EntryCount(cfg, s.primary.vals[id], x) else 0)
            == Settled(cfg, s, x) + EntryCount(cfg, e, x)
  {
    AddedCount(cfg, s.primary, id, e, x);
    if s.primary.Victim(id, e).Some? {
      var (y, v) := s.primary.Victim(id, e).value;
      var s1 := s.(primary := s.primary.Added(id, e));
      DropCount(cfg, s1, y, Decoded(cfg, v), x);
      EvictionCount(cfg, Drop(s1, y, Decoded(cfg, v)), y, v, x);
    }
  }

  lemma SecondaryPutCount(cfg: Config, s: State, id: TraceID, e: Entry, x: Span)
    requires TiersValid(s)
    ensures TiersValid(SecondaryPut(cfg, s, id, e))
    ensures Settled(cfg, SecondaryPut(cfg, s, id, e), x)
            + (if id in s.secondary.vals then EntryCount(cfg, s.secondary.vals[id], x) else 0)
            == Settled(cfg, s, x) + EntryCount(cfg, e, x)
  {
    AddedCount(cfg, s.secondary, id, e, x);
    if s.secondary.Victim(id, e).Some? {
      var (y, v) := s.secondary.Victim(id, e).value;
      var s1 := s.(secondary := s.secondary.Added(id, e));
      DropCount(cfg, s1, y, Decoded(cfg, v), x);
      EvictionCount(cfg, Drop(s1, y, Decoded(cfg, v)), y, v, x);
    }
  }

  /** A put replaces whatever is held for the ID, in whichever tier. */
  lemma TierPutCount(cfg: Config, s: State, id: TraceID, e: Entry, x: Span)
    requires TiersValid(s) && TiersDisjoint(s)
    ensures TiersValid(TierPut(cfg, s, id, e))
    ensures Settled(cfg, TierPut(cfg, s, id, e), x) + LookupCount(cfg, s, id, x) ==
            Settled(cfg, s, x) + EntryCount(cfg, e, x)
  {
    if e.meta.priority == Low {
      PrimaryDeleteCount(cfg, s, id, x);
      SecondaryPutCount(cfg, PrimaryDelete(s, id), id, e, x);
    } else {
      SecondaryDeleteCount(cfg, s, id, x);
      PrimaryPutCount(cfg, SecondaryDelete(s, id), id, e, x);
    }
  }

  lemma TierTouchedCount(cfg: Config, s: State, id: TraceID, x: Span)
    requires TiersValid(s)
    ensures TiersValid(TierTouched(s, id)) && Settled(cfg, TierTouched(s, id), x) == Settled(cfg, s, x)
  {
    TouchedCount(cfg, s.primary, id, x);
    TouchedCount(cfg, s.secondary, id, x);
  }

  lemma TierMutatedCount(cfg: Config, s: State, id: TraceID, e: Entry, x: Span)
    requires TiersValid(s) && TierLookup(s, id).Some?
    ensures TiersValid(TierMutated(s, id, e)) && TierLookup(TierMutated(s, id, e), id) == Some(e)
    ensures Settled(cfg, TierMutated(s, id, e), x) + LookupCount(cfg, s, id, x) ==
            Settled(cfg, s, x) + EntryCount(cfg, e, x)
  {
    if id in s.primary.vals {
      MutatedCount(cfg, s.primary, id, e, x);
    } else {
      MutatedCount(cfg, s.secondary, id, e, x);
    }
  }

  // ----- steps, for a processor that holds plain traces -----

  ghost predicate HoldsPlain(s: State) {
    && (forall k :: k in s.primary.vals ==> s.primary.vals[k].data.Plain?)
    && (forall k :: k in s.secondary.vals ==> s.secondary.vals[k].data.Plain?)
  }

  lemma LookupIsPlain(s: State, id: TraceID)
    requires HoldsPlain(s)
    ensures TierLookup(s, id).Some? ==> TierLookup(s, id).value.data.Plain?
  {
  }

  /** A batch that is held adds its spans. */
  lemma HoldCount(cfg: Config, s: State, id: TraceID, td: Entry, x: Span)
    requires Inv(s) && HoldsPlain(s) && td.data.Plain?
    ensures TiersValid(Hold(cfg, s, id, td, TierLookup(s, id)))
    ensures Settled(cfg, Hold(cfg, s, id, td, TierLookup(s, id)), x) == Settled(cfg, s, x) + EntryCount(cfg, td, x)
  {
    if TierLookup(s, id).None? {
      TierPutCount(cfg, s, id, td, x);
    } else {
      var h := TierLookup(s, id).value;
      var e := AbsorbEntry(h, td);
      LookupIsPlain(s, id);
      CountConcat(h.data.traces, td.data.traces, x);
      TierMutatedKeeps(s, id, td);
      TierMutatedCount(cfg, s, id, e, x);
      TierPutCount(cfg, TierMutated(s, id, e), id, e, x);
    }
  }

  /** Releasing a trace as not sampled moves what is held for it to the dropped batches. */
  lemma ReleaseNotSampledCount(cfg: Config, s: State, id: TraceID, p: Option<string>, x: Span)
    requires Inv(s)
    ensures TiersValid(ReleaseNotSampled(cfg, s, id, p))
    ensures Settled(cfg, ReleaseNotSampled(cfg, s, id, p), x) == Settled(cfg, s, x)
  {
    var s1 := if p.Some? then s.(placeholders := s.placeholders + [Placeholder(id, p.value)]) else s;
    var s2 := s1.(notSampled := s1.notSampled.Added(id, ()));
    assert Settled(cfg, s2, x) == Settled(cfg, s, x);
    DropHeldCount(cfg, s2, id, x);
    TierDeleteCount(cfg, DropHeld(cfg, s2, id), id, x);
  }

  lemma DropHeldCount(cfg: Config, s: State, id: TraceID, x: Span)
    requires TiersValid(s) && TiersDisjoint(s)
    ensures var s' := DropHeld(cfg, s, id);
            && TiersValid(s') && TiersDisjoint(s') && LookupCount(cfg, s', id, x) == LookupCount(cfg, s, id, x)
            && Settled(cfg, s', x) == Settled(cfg, s, x) + LookupCount(cfg, s, id, x)
  {
    if TierLookup(s, id).Some? {
      DropCount(cfg, s, id, Decoded(cfg, TierLookup(s, id).value), x);
    }
  }

  /** Sending what is held moves it to the exported batches. */
  lemma ExportHeldCount(cfg: Config, s: State, id: TraceID, always: bool, x: Span)
    requires TiersValid(s) && TiersDisjoint(s) && HoldsPlain(s) && TierLookup(s, id).Some?
    ensures TiersValid(ExportHeld(cfg, s, id, TierLookup(s, id).value, always))
    ensures Settled(cfg, ExportHeld(cfg, s, id, TierLookup(s, id).value, always), x) == Settled(cfg, s, x)
  {
    LookupIsPlain(s, id);
    var t := TierLookup(s, id).value.data.traces;
    ExportCount(cfg, s, id, t, x);
    TierDeleteCount(cfg, Export(s, id, t), id, x);
  }

  lemma DecisionTrueCount(cfg: Config, s: State, id: TraceID, x: Span)
    requires Inv(s) && HoldsPlain(s)
    ensures TiersValid(DecisionTrue(cfg, s, id))
    ensures Settled(cfg, DecisionTrue(cfg, s, id), x) == Settled(cfg, s, x)
  {
    if TierLookup(s, id).Some? {
      var t := TierTouched(s, id);
      TierTouchedKeeps(s, id);
      TierTouchedCount(cfg, s, id, x);
      ExportHeldCount(cfg, t, id, true, x);
      SampledNotCounted(cfg, ExportHeld(cfg, t, id, TierLookup(t, id).value, true), id, x);
    } else {
      SampledNotCounted(cfg, s, id, x);
    }
  }

  lemma SampledNotCounted(cfg: Config, s: State, id: TraceID, x: Span)
    requires TiersValid(s)
    ensures var s' := s.(sampled := s.sampled.Added(id, ()));
            TiersValid(s') && Settled(cfg, s', x) == Settled(cfg, s, x)
  {
  }

  lemma ReleaseSampledCount(cfg: Config, s: State, id: TraceID, batch: Traces, x: Span)
    requires Inv(s) && HoldsPlain(s)
    ensures TiersValid(ReleaseSampled(cfg, s, id, TierLookup(s, id), batch))
    ensures Settled(cfg, ReleaseSampled(cfg, s, id, TierLookup(s, id), batch), x) ==
            Settled(cfg, s, x) + Count(batch, x)
  {
    var s1 := s.(sampled := s.sampled.Added(id, ()));
    var s2 := s1;
    if TierLookup(s, id).Some? {
      ExportHeldCount(cfg, s1, id, false, x);
      s2 := ExportHeld(cfg, s1, id, TierLookup(s, id).value, false);
    }
    ExportCount(cfg, s2, id, batch, x);
  }

  lemma EvaluateCount(cfg: Config, s: State, g: Group, now: int, env: nat, x: Span)
    requires !cfg.compress && Inv(s) && HoldsPlain(s)
    ensures TiersValid(Evaluate(cfg, s, g, now, env))
    ensures Settled(cfg, Evaluate(cfg, s, g, now, env), x) == Settled(cfg, s, x) + Count(BatchOf(g), x)
  {
    var batch, held, s1 := BatchOf(g), TierLookup(s, g.id), TierTouched(s, g.id);
    TierTouchedKeeps(s, g.id);
    TierTouchedCount(cfg, s, g.id, x);
    var v := VerdictFor(cfg, s, g, now, env);
    if v.decision == Sampled {
      ReleaseSampledCount(cfg, s1, g.id, batch, x);
    } else if v.decision == NotSampled {
      var p := if v.emit then v.policy else None;
      ReleaseNotSampledCount(cfg, s1, g.id, p, x);
      DropCount(cfg, ReleaseNotSampled(cfg, s1, g.id, p), g.id, batch, x);
    } else {
      var td := NewEntry(false, cfg.codec, now, batch).value;
      HoldCount(cfg, s1, g.id, Lowered(td, MergedMeta(now, batch, held), v), x);
    }
  }

  lemma ProcessGroupCount(cfg: Config, s: State, g: Group, now: int, env: nat, x: Span)
    requires !cfg.compress && Inv(s) && HoldsPlain(s)
    ensures TiersValid(ProcessGroup(cfg, s, g, now, env))
    ensures Settled(cfg, ProcessGroup(cfg, s, g, now, env), x) == Settled(cfg, s, x) + GroupCount(g, x)
  {
    CheckedNotes(s, g.id);
    var s1, known := Checked(s, g.id), Effective(s, g.id);
    if known == Sampled {
      ExportCount(cfg, s1, g.id, BatchOf(g), x);
    } else if known == NotSampled {
      DropCount(cfg, s1, g.id, BatchOf(g), x);
    } else if g.resource.decision.None? {
      EvaluateCount(cfg, s1, g, now, env, x);
    } else if g.resource.decision.value {
      DecisionTrueCount(cfg, s1, g.id, x);
    } else {
      ReleaseNotSampledCount(cfg, s1, g.id, None, x);
    }
  }

  lemma {:induction false} EvictAllCount(cfg: Config, s: State, vs: seq<(TraceID, Entry)>, x: Span)
    requires TiersValid(s)
    ensures var s' := EvictAll(cfg, s, vs);
            && s'.primary == s.primary && s'.secondary == s.secondary
            && Settled(cfg, s', x) == Settled(cfg, s, x) + VictimsCount(cfg, vs, x)
  {
    if vs != [] {
      var n := |vs| - 1;
      EvictAllCount(cfg, s, vs[..n], x);
      DropCount(cfg, EvictAll(cfg, s, vs[..n]), vs[n].0, Decoded(cfg, vs[n].1), x);
    }
  }

  lemma PrimaryResizeCount(cfg: Config, s: State, n: nat, x: Span)
    requires TiersValid(s)
    ensures TiersValid(PrimaryResize(cfg, s, n))
    ensures Settled(cfg, PrimaryResize(cfg, s, n), x) == Settled(cfg, s, x)
  {
    ResizedCount(cfg, s.primary, n, x);
    EvictAllCount(cfg, s.(primary := s.primary.Resized(n)), s.primary.Victims(n), x);
  }

  // ----- the queue -----

  lemma {:induction false} QueueCountConcat(a: seq<Group>, b: seq<Group>, x: Span)
    ensures QueueCount(a + b, x) == QueueCount(a, x) + QueueCount(b, x)
  {
    if b == [] {
      assert a + b == a;
    } else {
      QueueCountConcat(a, b[..|b| - 1], x);
      assert (a + b)[..|a + b| - 1] == a + b[..|b| - 1];
    }
  }

  lemma WithoutIndexCount(q: seq<Group>, i: nat, x: Span)
    requires i < |q|
    ensures QueueCount(q, x) == QueueCount(WithoutIndex(q, i), x) + GroupCount(q[i], x)
  {
    assert q == q[..i] + ([q[i]] + q[i + 1..]);
    QueueCountConcat(q[..i], [q[i]] + q[i + 1..], x);
    QueueCountConcat([q[i]], q[i + 1..], x);
    QueueCountConcat(q[..i], q[i + 1..], x);
    assert QueueCount([q[i]], x) == GroupCount(q[i], x) by {
      var none: seq<Group> := [q[i]][..0];
      assert none == [];
    }
  }

  ghost function Received(steps: seq<Step>, x: Span): nat {
    if steps == [] then 0
    else
      var last := steps[|steps| - 1];
      Received(steps[..|steps| - 1], x) + (if last.Receive? then GroupCount(last.g, x) else 0)
  }

  lemma EarlyCheckCount(cfg: Config, s: State, g: Group, x: Span)
    requires Inv(s)
    ensures var s' := EarlyCheck(s, g);
            TiersValid(s') &&
            Settled(cfg, s', x) + QueueCount(s'.inflight, x) ==
                Settled(cfg, s, x) + QueueCount(s.inflight, x) + GroupCount(g, x)
  {
    CheckedNotes(s, g.id);
    var s1, known := Checked(s, g.id), Effective(s, g.id);
    if g.resource.decision.None? && known == Sampled {
      ExportCount(cfg, s1, g.id, BatchOf(g), x);
    } else if g.resource.decision.None? && known == NotSampled {
      DropCount(cfg, s1, g.id, BatchOf(g), x);
    } else {
      assert (s.inflight + [g])[..|s.inflight|] == s.inflight;
    }
  }

  lemma NextCount(cfg: Config, s: State, step: Step, x: Span)
    requires !cfg.compress && Inv(s) && HoldsPlain(s)
    ensures var s' := Next(cfg, s, step);
            TiersValid(s') &&
            Settled(cfg, s', x) + QueueCount(s'.inflight, x)
            == Settled(cfg, s, x) + QueueCount(s.inflight, x) + (if step.Receive? then GroupCount(step.g, x) else 0)
  {
    match step
    case Receive(g) => EarlyCheckCount(cfg, s, g, x);
    case Process(i, now, env) =>
      if i < |s.inflight| {
        var s1 := s.(inflight := WithoutIndex(s.inflight, i));
        WithoutIndexCount(s.inflight, i, x);
        ProcessGroupCount(cfg, s1, s.inflight[i], now, env, x);
      }
    case Regulate(size) => PrimaryResizeCount(cfg, s, size, x);
  }

  // ----- runs -----

  lemma NextHoldsPlain(cfg: Config, s: State, step: Step)
    requires !cfg.compress && Inv(s) && HoldsPlain(s)
    ensures HoldsPlain(Next(cfg, s, step))
  {
    match step
    case Receive(g) =>
    case Process(i, now, env) =>
      if i < |s.inflight| {
        ProcessHoldsPlain(cfg, s.(inflight := WithoutIndex(s.inflight, i)), s.inflight[i], now, env);
      }
    case Regulate(size) =>
      ResizedValid(s.primary, size);
      PrimaryResizeKeeps(cfg, s, size);
  }

  lemma KeptHoldsPlain(s: State, s': State, id: TraceID, e: Option<Entry>)
    requires HoldsPlain(s) && Kept(s, s', id, e) && (e.Some? ==> e.value.data.Plain?)
    ensures HoldsPlain(s')
  {
  }

  lemma ProcessHoldsPlain(cfg: Config, s: State, g: Group, now: int, env: nat)
    requires !cfg.compress && Inv(s) && HoldsPlain(s)
    ensures HoldsPlain(ProcessGroup(cfg, s, g, now, env))
  {
    CheckedNotes(s, g.id);
    var s1, s' := Checked(s, g.id), ProcessGroup(cfg, s, g, now, env);
    if Effective(s, g.id) == Unevaluated {
      if g.resource.decision.None? {
        LookupIsPlain(s1, g.id);
        EvaluateKeeps(cfg, s1, g, now, env);
        KeptHoldsPlain(s1, s', g.id, Holding(cfg, s1, g, now, env));
      } else {
        if g.resource.decision.value { DecisionTrueKeeps(cfg, s1, g.id); }
        else { ReleaseNotSampledKeeps(cfg, s1, g.id, None); }
        KeptHoldsPlain(s1, s', g.id, None);
      }
    }
  }

  lemma {:induction false} RunCount(cfg: Config, s: State, steps: seq<Step>, x: Span)
    requires !cfg.compress && Inv(s) && HoldsPlain(s)
    ensures var s' := Run(cfg, s, steps);
            HoldsPlain(s') &&
            Settled(cfg, s', x) + QueueCount(s'.inflight, x) ==
                Settled(cfg, s, x) + QueueCount(s.inflight, x) + Received(steps, x)
  {
    if steps != [] {
      var init := steps[..|steps| - 1];
      RunCount(cfg, s, init, x);
      NextCount(cfg, Run(cfg, s, init), steps[|steps| - 1], x);
      NextHoldsPlain(cfg, Run(cfg, s, init), steps[|steps| - 1]);
    }
  }

  lemma {:induction false} TwinCount(cfg: Config, order: seq<TraceID>, v: map<TraceID, Entry>,
      w: map<TraceID, Entry>, x: Span)
    requires forall k :: k in order ==> k in v && k in w && TwinEntry(cfg.codec, v[k], w[k])
    ensures OrderCount(Compressing(cfg), order, v, x) == OrderCount(Plainly(cfg), order, w, x)
  {
    if order != [] {
      var n := |order| - 1;
      assert forall k :: k in order[..n] ==> k in order;
      TwinCount(cfg, order[..n], v, w, x);
      TwinDecoded(cfg, v[order[n]], w[order[n]]);
    }
  }

  /** Conservation: over every run from a fresh processor, compressing or not, every span value has
      been received (outside decision spans) exactly as often as it now is queued, held, exported
      or dropped, all taken together. In particular nothing is duplicated, nothing vanishes, and a
      decision span is never held or exported. */
  lemma SpansAreConserved(cfg: Config, p: nat, q: nat, y: nat, n: nat, steps: seq<Step>, x: Span)
    requires cfg.compress ==> Lossless(cfg.codec)
    requires y > 0 && n > 0
    ensures Inv(Initial(p, q, y, n))
    ensures var s := Run(cfg, Initial(p, q, y, n), steps);
            Received(steps, x) == QueueCount(s.inflight, x) + HeldCount(cfg, s, x)
                                  + BatchesCount(s.exported, x) + BatchesCount(s.dropped, x)
  {
    var start := Initial(p, q, y, n);
    InitialInv(p, q, y, n);
    RunCount(Plainly(cfg), start, steps, x);
    if cfg.compress {
      assert Compressing(cfg) == cfg;
      CompressionIsTransparent(cfg, start, steps);
      var s, t := Run(cfg, start, steps), Run(Plainly(cfg), start, steps);
      TwinCount(cfg, s.primary.order, s.primary.vals, t.primary.vals, x);
      TwinCount(cfg, s.secondary.order, s.secondary.vals, t.secondary.vals, x);
    } else {
      assert Plainly(cfg) == cfg;
    }
  }

  /** A group's count is that of the spans in its bucket. */
  lemma GroupCountIsBucket(g: Group, x: Span)
    requires WellFormedGroup(g) && g.resource.decision.None?
    ensures GroupCount(g, x) == multiset(seq(|g.spans|, i requires 0 <= i < |g.spans| => g.spans[i].span))[x]
  {
    MovedItems(g.resource, g.spans);
    assert Spans(BatchOf(g)) == seq(|g.spans|, i requires 0 <= i < |g.spans| => g.spans[i].span);
  }
}
