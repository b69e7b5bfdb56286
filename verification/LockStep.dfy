/** Compression is transparent: a processor that compresses what it holds and one that does not
    stay in lock step on the same inputs. */
module LockStep {
  import opened Pdata
  import opened TraceValues
  import opened Decider
  import opened Lru
  import opened Engine
  import opened Invariant

  // ----- compressed and plain entries that stand for the same trace -----

  ghost predicate TwinEntry(c: Codec, e: Entry, f: Entry) {
    e.meta == f.meta && StandsFor(c, e.data, f.data)
  }

  ghost predicate TwinLru(c: Codec, a: Lru<Entry>, b: Lru<Entry>) {
    && a.order == b.order && a.cap == b.cap && a.vals.Keys == b.vals.Keys
    && (forall x :: x in a.vals ==> TwinEntry(c, a.vals[x], b.vals[x]))
  }

  /** The two processors agree on everything but the representation of what they hold. */
  ghost predicate Twin(c: Codec, s: State, p: State) {
    && TwinLru(c, s.primary, p.primary) && TwinLru(c, s.secondary, p.secondary)
    && s.sampled == p.sampled && s.notSampled == p.notSampled
    && s.exported == p.exported && s.dropped == p.dropped
    && s.placeholders == p.placeholders && s.inflight == p.inflight
  }

  function Compressing(cfg: Config): Config { cfg.(compress := true) }

  function Plainly(cfg: Config): Config { cfg.(compress := false) }

  lemma TwinDecoded(cfg: Config, e: Entry, f: Entry)
    requires TwinEntry(cfg.codec, e, f)
    ensures GetTraces(cfg.codec, e.data) == Ok(f.data.traces)
    ensures Decoded(Compressing(cfg), e) == Decoded(Plainly(cfg), f) == f.data.traces
  {
  }

  lemma TwinAbsorb(c: Codec, e: Entry, f: Entry, d: Entry, g: Entry)
    requires TwinEntry(c, e, f) && TwinEntry(c, d, g)
    ensures TwinEntry(c, AbsorbEntry(e, d), AbsorbEntry(f, g))
  {
    AbsorbStandsFor(c, e.data, f.data, d.data, g.data);
  }

  // ----- cache operations -----

  lemma TwinAdded(c: Codec, a: Lru<Entry>, b: Lru<Entry>, id: TraceID, e: Entry, f: Entry)
    requires TwinLru(c, a, b) && TwinEntry(c, e, f) && a.Valid()
    ensures b.Valid() && TwinLru(c, a.Added(id, e), b.Added(id, f))
    ensures a.Victim(id, e).Some? <==> b.Victim(id, f).Some?
    ensures a.Victim(id, e).Some? ==>
              a.Victim(id, e).value.0 == b.Victim(id, f).value.0
              && TwinEntry(c, a.Victim(id, e).value.1, b.Victim(id, f).value.1)
  {
  }

  lemma TwinEviction(c: Codec, s: State, p: State, id: TraceID)
    requires Twin(c, s, p)
    ensures Twin(c, CacheEviction(s, id), CacheEviction(p, id))
  {
  }

  lemma TwinDrop(cfg: Config, s: State, p: State, id: TraceID, e: Entry, f: Entry)
    requires Twin(cfg.codec, s, p) && TwinEntry(cfg.codec, e, f)
    ensures Twin(cfg.codec, Drop(s, id, Decoded(Compressing(cfg), e)), Drop(p, id, Decoded(Plainly(cfg), f)))
  {
    TwinDecoded(cfg, e, f);
  }

  lemma TwinPrimaryDelete(c: Codec, s: State, p: State, id: TraceID)
    requires Twin(c, s, p)
    ensures Twin(c, PrimaryDelete(s, id), PrimaryDelete(p, id))
  {
    TwinEviction(c, s.(primary := s.primary.Removed(id)), p.(primary := p.primary.Removed(id)), id);
  }

  lemma TwinSecondaryDelete(c: Codec, s: State, p: State, id: TraceID)
    requires Twin(c, s, p)
    ensures Twin(c, SecondaryDelete(s, id), SecondaryDelete(p, id))
  {
    TwinEviction(c, s.(secondary := s.secondary.Removed(id)), p.(secondary := p.secondary.Removed(id)), id);
  }

  lemma TwinTierDelete(c: Codec, s: State, p: State, id: TraceID)
    requires Twin(c, s, p)
    ensures Twin(c, TierDelete(s, id), TierDelete(p, id))
  {
    TwinPrimaryDelete(c, s, p, id);
    TwinSecondaryDelete(c, PrimaryDelete(s, id), PrimaryDelete(p, id), id);
  }

  lemma TwinPrimaryPut(cfg: Config, s: State, p: State, id: TraceID, e: Entry, f: Entry)
    requires Twin(cfg.codec, s, p) && TwinEntry(cfg.codec, e, f) && s.primary.Valid()
    ensures p.primary.Valid()
    ensures Twin(cfg.codec, PrimaryPut(Compressing(cfg), s, id, e), PrimaryPut(Plainly(cfg), p, id, f))
  {
    TwinAdded(cfg.codec, s.primary, p.primary, id, e, f);
    if s.primary.Victim(id, e).Some? {
      var (x, v) := s.primary.Victim(id, e).value;
      var (_, w) := p.primary.Victim(id, f).value;
      var s1, p1 := s.(primary := s.primary.Added(id, e)), p.(primary := p.primary.Added(id, f));
      TwinDrop(cfg, s1, p1, x, v, w);
      TwinEviction(cfg.codec, Drop(s1, x, Decoded(Compressing(cfg), v)), Drop(p1, x, Decoded(Plainly(cfg), w)), x);
    }
  }

  lemma TwinSecondaryPut(cfg: Config, s: State, p: State, id: TraceID, e: Entry, f: Entry)
    requires Twin(cfg.codec, s, p) && TwinEntry(cfg.codec, e, f) && s.secondary.Valid()
    ensures p.secondary.Valid()
    ensures Twin(cfg.codec, SecondaryPut(Compressing(cfg), s, id, e), SecondaryPut(Plainly(cfg), p, id, f))
  {
    TwinAdded(cfg.codec, s.secondary, p.secondary, id, e, f);
    if s.secondary.Victim(id, e).Some? {
      var (x, v) := s.secondary.Victim(id, e).value;
      var (_, w) := p.secondary.Victim(id, f).value;
      var s1, p1 := s.(secondary := s.secondary.Added(id, e)), p.(secondary := p.secondary.Added(id, f));
      TwinDrop(cfg, s1, p1, x, v, w);
      TwinEviction(cfg.codec, Drop(s1, x, Decoded(Compressing(cfg), v)), Drop(p1, x, Decoded(Plainly(cfg), w)), x);
    }
  }

  lemma TwinTierPut(cfg: Config, s: State, p: State, id: TraceID, e: Entry, f: Entry)
    requires Twin(cfg.codec, s, p) && TwinEntry(cfg.codec, e, f) && CachesValid(s) && CachesValid(p)
    ensures Twin(cfg.codec, TierPut(Compressing(cfg), s, id, e), TierPut(Plainly(cfg), p, id, f))
  {
    if e.meta.priority == Low {
      TwinPrimaryDelete(cfg.codec, s, p, id);
      PrimaryDeleteEffect(s, id);
      TwinSecondaryPut(cfg, PrimaryDelete(s, id), PrimaryDelete(p, id), id, e, f);
    } else {
      TwinSecondaryDelete(cfg.codec, s, p, id);
      SecondaryDeleteEffect(s, id);
      TwinPrimaryPut(cfg, SecondaryDelete(s, id), SecondaryDelete(p, id), id, e, f);
    }
  }

  lemma TwinLookup(c: Codec, s: State, p: State, id: TraceID)
    requires Twin(c, s, p)
    ensures TierLookup(s, id).Some? <==> TierLookup(p, id).Some?
    ensures TierLookup(s, id).Some? ==> TwinEntry(c, TierLookup(s, id).value, TierLookup(p, id).value)
    ensures Twin(c, TierTouched(s, id), TierTouched(p, id))
  {
  }

  lemma TwinMutated(c: Codec, s: State, p: State, id: TraceID, e: Entry, f: Entry)
    requires Twin(c, s, p) && TierLookup(s, id).Some? && TierLookup(p, id).Some? && TwinEntry(c, e, f)
    ensures Twin(c, TierMutated(s, id, e), TierMutated(p, id, f))
  {
  }

  // ----- steps -----

  lemma TwinExportHeld(cfg: Config, s: State, p: State, id: TraceID, e: Entry, f: Entry, always: bool)
    requires Twin(cfg.codec, s, p) && TwinEntry(cfg.codec, e, f)
    ensures Twin(cfg.codec, ExportHeld(Compressing(cfg), s, id, e, always), ExportHeld(Plainly(cfg), p, id, f, always))
  {
    TwinDecoded(cfg, e, f);
    TwinTierDelete(cfg.codec, Export(s, id, f.data.traces), Export(p, id, f.data.traces), id);
  }

  lemma TwinReleaseNotSampled(cfg: Config, s: State, p: State, id: TraceID, ph: Option<string>)
    requires Twin(cfg.codec, s, p)
    ensures Twin(cfg.codec, ReleaseNotSampled(Compressing(cfg), s, id, ph), ReleaseNotSampled(Plainly(cfg), p, id, ph))
  {
    var s1 := if ph.Some? then s.(placeholders := s.placeholders + [Placeholder(id, ph.value)]) else s;
    var p1 := if ph.Some? then p.(placeholders := p.placeholders + [Placeholder(id, ph.value)]) else p;
    var s2 := s1.(notSampled := s1.notSampled.Added(id, ()));
    var p2 := p1.(notSampled := p1.notSampled.Added(id, ()));
    TwinLookup(cfg.codec, s2, p2, id);
    if TierLookup(s2, id).Some? {
      TwinDrop(cfg, s2, p2, id, TierLookup(s2, id).value, TierLookup(p2, id).value);
    }
    TwinTierDelete(cfg.codec, DropHeld(Compressing(cfg), s2, id), DropHeld(Plainly(cfg), p2, id), id);
  }

  lemma TwinDecisionTrue(cfg: Config, s: State, p: State, id: TraceID)
    requires Twin(cfg.codec, s, p)
    ensures Twin(cfg.codec, DecisionTrue(Compressing(cfg), s, id), DecisionTrue(Plainly(cfg), p, id))
  {
    TwinLookup(cfg.codec, s, p, id);
    if TierLookup(s, id).Some? {
      TwinExportHeld(cfg, TierTouched(s, id), TierTouched(p, id), id, TierLookup(s, id).value,
          TierLookup(p, id).value, true);
    }
  }

  lemma TwinHold(cfg: Config, s: State, p: State, id: TraceID, td: Entry, tp: Entry)
    requires Twin(cfg.codec, s, p) && TwinEntry(cfg.codec, td, tp) && Inv(s) && Inv(p)
    ensures Twin(cfg.codec, Hold(Compressing(cfg), s, id, td, TierLookup(s, id)),
            Hold(Plainly(cfg), p, id, tp, TierLookup(p, id)))
  {
    TwinLookup(cfg.codec, s, p, id);
    if TierLookup(s, id).None? {
      TwinTierPut(cfg, s, p, id, td, tp);
    } else {
      var e, f := AbsorbEntry(TierLookup(s, id).value, td), AbsorbEntry(TierLookup(p, id).value, tp);
      TwinAbsorb(cfg.codec, TierLookup(s, id).value, TierLookup(p, id).value, td, tp);
      TwinMutated(cfg.codec, s, p, id, e, f);
      TierMutatedKeeps(s, id, td);
      TierMutatedKeeps(p, id, tp);
      TwinTierPut(cfg, TierMutated(s, id, e), TierMutated(p, id, f), id, e, f);
    }
  }

  lemma TwinAct(cfg: Config, s: State, p: State, id: TraceID, batch: Traces, td: Entry, tp: Entry, v: Verdict)
    requires Twin(cfg.codec, s, p) && TwinEntry(cfg.codec, td, tp) && Inv(s) && Inv(p)
    ensures Twin(cfg.codec, Act(Compressing(cfg), s, id, batch, td, TierLookup(s, id), v),
                 Act(Plainly(cfg), p, id, batch, tp, TierLookup(p, id), v))
  {
    TwinLookup(cfg.codec, s, p, id);
    var held, heldP := TierLookup(s, id), TierLookup(p, id);
    if v.decision == Sampled {
      if held.Some? {
        TwinExportHeld(cfg, s.(sampled := s.sampled.Added(id, ())), p.(sampled := p.sampled.Added(id, ())),
                       id, held.value, heldP.value, false);
      }
    } else if v.decision == NotSampled {
      TwinReleaseNotSampled(cfg, s, p, id, if v.emit then v.policy else None);
    } else {
      TwinHold(cfg, s, p, id, td, tp);
    }
  }

  lemma TwinEvaluate(cfg: Config, s: State, p: State, g: Group, now: int, env: nat)
    requires Lossless(cfg.codec) && Twin(cfg.codec, s, p) && Inv(s) && Inv(p)
    ensures VerdictFor(Compressing(cfg), s, g, now, env) == VerdictFor(Plainly(cfg), p, g, now, env)
    ensures Twin(cfg.codec, Evaluate(Compressing(cfg), s, g, now, env), Evaluate(Plainly(cfg), p, g, now, env))
  {
    var c, batch, id := cfg.codec, BatchOf(g), g.id;
    NewStandsFor(c, batch);
    TwinLookup(c, s, p, id);
    TierTouchedKeeps(s, id);
    TierTouchedKeeps(p, id);
    var s1, p1, held, heldP := TierTouched(s, id), TierTouched(p, id), TierLookup(s, id), TierLookup(p, id);
    var merged := MergedMeta(now, batch, held);
    assert merged == MergedMeta(now, batch, heldP);
    var v := VerdictFor(Compressing(cfg), s, g, now, env);
    var td, tp := NewEntry(true, c, now, batch).value, NewEntry(false, c, now, batch).value;
    EvaluateIsAct(Compressing(cfg), s, g, now, env, td, Lowered(td, merged, v));
    EvaluateIsAct(Plainly(cfg), p, g, now, env, tp, Lowered(tp, merged, v));
    TwinAct(cfg, s1, p1, id, batch, Lowered(td, merged, v), Lowered(tp, merged, v), v);
  }

  lemma TwinProcessGroup(cfg: Config, s: State, p: State, g: Group, now: int, env: nat)
    requires Lossless(cfg.codec) && Twin(cfg.codec, s, p) && Inv(s) && Inv(p)
    ensures Twin(cfg.codec, ProcessGroup(Compressing(cfg), s, g, now, env), ProcessGroup(Plainly(cfg), p, g, now, env))
  {
    CheckedNotes(s, g.id);
    CheckedNotes(p, g.id);
    var s1, p1 := Checked(s, g.id), Checked(p, g.id);
    if Effective(s, g.id) == Unevaluated {
      if g.resource.decision.None? {
        TwinEvaluate(cfg, s1, p1, g, now, env);
      } else if g.resource.decision.value {
        TwinDecisionTrue(cfg, s1, p1, g.id);
      } else {
        TwinReleaseNotSampled(cfg, s1, p1, g.id, None);
      }
    }
  }

  lemma TwinResized(c: Codec, a: Lru<Entry>, b: Lru<Entry>, n: nat)
    requires TwinLru(c, a, b) && a.Valid()
    ensures b.Valid() && TwinLru(c, a.Resized(n), b.Resized(n))
    ensures |a.Victims(n)| == |b.Victims(n)|
    ensures forall i :: 0 <= i < |a.Victims(n)| ==>
              a.Victims(n)[i].0 == b.Victims(n)[i].0 && TwinEntry(c, a.Victims(n)[i].1, b.Victims(n)[i].1)
  {
  }

  lemma {:induction false} TwinEvictAll(cfg: Config, s: State, p: State, u: seq<(TraceID, Entry)>,
      w: seq<(TraceID, Entry)>)
    requires Twin(cfg.codec, s, p) && |u| == |w|
    requires forall i :: 0 <= i < |u| ==> u[i].0 == w[i].0 && TwinEntry(cfg.codec, u[i].1, w[i].1)
    ensures Twin(cfg.codec, EvictAll(Compressing(cfg), s, u), EvictAll(Plainly(cfg), p, w))
  {
    if u != [] {
      var n := |u| - 1;
      TwinEvictAll(cfg, s, p, u[..n], w[..n]);
      var s1, p1 := EvictAll(Compressing(cfg), s, u[..n]), EvictAll(Plainly(cfg), p, w[..n]);
      TwinDrop(cfg, s1, p1, u[n].0, u[n].1, w[n].1);
      TwinEviction(cfg.codec, Drop(s1, u[n].0, Decoded(Compressing(cfg), u[n].1)),
          Drop(p1, u[n].0, Decoded(Plainly(cfg), w[n].1)), u[n].0);
    }
  }

  lemma TwinPrimaryResize(cfg: Config, s: State, p: State, n: nat)
    requires Twin(cfg.codec, s, p) && s.primary.Valid() && p.primary.Valid()
    ensures Twin(cfg.codec, PrimaryResize(Compressing(cfg), s, n), PrimaryResize(Plainly(cfg), p, n))
  {
    TwinResized(cfg.codec, s.primary, p.primary, n);
    TwinEvictAll(cfg, s.(primary := s.primary.Resized(n)), p.(primary := p.primary.Resized(n)),
                 s.primary.Victims(n), p.primary.Victims(n));
  }

  lemma TwinEarlyCheck(c: Codec, s: State, p: State, g: Group)
    requires Twin(c, s, p)
    ensures Twin(c, EarlyCheck(s, g), EarlyCheck(p, g))
  {
    SameTiers(c, s, p, EarlyCheck(s, g), EarlyCheck(p, g));
  }

  lemma SameTiers(c: Codec, s: State, p: State, s': State, p': State)
    requires Twin(c, s, p)
    requires s'.primary == s.primary && s'.secondary == s.secondary
    requires p' == s'.(primary := p.primary, secondary := p.secondary)
    ensures Twin(c, s', p')
  {
  }

  lemma TwinNext(cfg: Config, s: State, p: State, step: Step)
    requires Lossless(cfg.codec) && Twin(cfg.codec, s, p) && Inv(s) && Inv(p)
    ensures Twin(cfg.codec, Next(Compressing(cfg), s, step), Next(Plainly(cfg), p, step))
  {
    match step
    case Receive(g) => TwinEarlyCheck(cfg.codec, s, p, g);
    case Process(i, now, env) =>
      if i < |s.inflight| {
        var q := WithoutIndex(s.inflight, i);
        TwinProcessGroup(cfg, s.(inflight := q), p.(inflight := q), s.inflight[i], now, env);
      }
    case Regulate(size) => TwinPrimaryResize(cfg, s, p, size);
  }

  lemma {:induction false} TwinRun(cfg: Config, s: State, p: State, steps: seq<Step>)
    requires Lossless(cfg.codec) && Twin(cfg.codec, s, p) && Inv(s) && Inv(p)
    ensures Twin(cfg.codec, Run(Compressing(cfg), s, steps), Run(Plainly(cfg), p, steps))
  {
    if steps != [] {
      var init := steps[..|steps| - 1];
      TwinRun(cfg, s, p, init);
      TwinNext(cfg, Run(Compressing(cfg), s, init), Run(Plainly(cfg), p, init), steps[|steps| - 1]);
    }
  }

  /** With a lossless codec, a compressing and a plain processor fed the same steps from the start
      make the same decisions: after every run they have exported and dropped the same batches in
      the same order, hold the same traces in the same recency order, with the same metadata, and
      every compressed trace decodes to the plain one. */
  lemma CompressionIsTransparent(cfg: Config, start: State, steps: seq<Step>)
    requires Lossless(cfg.codec)
    requires Inv(start) && Held(start) == {}
    ensures Twin(cfg.codec, Run(Compressing(cfg), start, steps), Run(Plainly(cfg), start, steps))
  {
    assert start.primary.vals == map[] && start.secondary.vals == map[] by {
      assert start.primary.vals.Keys <= Held(start) && start.secondary.vals.Keys <= Held(start);
    }
    TwinRun(cfg, start, start, steps);
  }
}
