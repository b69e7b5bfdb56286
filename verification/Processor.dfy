/** The processor as an object: the tiers hold references to pending traces, which are merged in
    place while they are held. Every method refines the step function of the same name. */
module Processor {
  import opened Pdata
  import opened Grouping
  import opened TraceValues
  import opened TraceObjects
  import opened Decider
  import opened Lru
  import opened LruCache
  import opened PendingTier
  import Engine
  import Invariant
  import Handoff
  import opened Regulator

  /** The cache operations of an eviction callback. */
  method RecordEviction(sampled: LruCache<()>, notSampled: LruCache<()>, id: TraceID)
    requires sampled != notSampled && sampled.Valid() && notSampled.Valid()
    modifies sampled, notSampled
    ensures sampled.Valid() && notSampled.Valid()
    ensures sampled.View() == old(sampled.View()).Touched(id)
    ensures notSampled.View() ==
            if id in old(sampled.items) || id in old(notSampled.items) then old(notSampled.View()).Touched(id)
            else old(notSampled.View()).Touched(id).Added(id, ())
  {
    var s := sampled.Get(id);
    var n := notSampled.Get(id);
    if s.None? && n.None? {
      var _ := notSampled.Put(id, ());
    }
  }

  /** The cache operations of `safeCheckDecisionCaches`: the sampled cache is asked first. */
  method CheckCaches(sampled: LruCache<()>, notSampled: LruCache<()>, id: TraceID) returns (d: Decision)
    requires sampled != notSampled && sampled.Valid() && notSampled.Valid()
    modifies sampled, notSampled
    ensures sampled.Valid() && notSampled.Valid()
    ensures sampled.View() == old(sampled.View()).Touched(id)
    ensures notSampled.View() == if d == Sampled then old(notSampled.View()) else old(notSampled.View()).Touched(id)
    ensures d == if id in old(sampled.items) then Sampled
                 else if id in old(notSampled.items) then NotSampled else Unevaluated
  {
    var s := sampled.Get(id);
    if s.Some? {
      return Sampled;
    }
    var n := notSampled.Get(id);
    d := if n.Some? then NotSampled else Unevaluated;
  }

  class Processor {
    const cfg: Engine.Config
    const primary: PendingTier
    const secondary: PendingTier
    const sampled: LruCache<()>
    const notSampled: LruCache<()>

    /** What the next consumer was handed. */
    var exported: seq<Engine.Batch>
    var placeholders: seq<Engine.Placeholder>
    /** The groups that wait in the channel of the shard. */
    var inflight: seq<Engine.Group>
    /** What was let go of; the code keeps no record of it. */
    ghost var dropped: seq<Engine.Batch>

    ghost function View(): Engine.State
      reads this, primary, secondary, sampled, notSampled
    {
      Engine.State(primary.entries, secondary.entries, sampled.View(), notSampled.View(),
                   exported, dropped, placeholders, inflight)
    }

    ghost function Owned(): set<object>
      reads primary, secondary
    {
      primary.owned + secondary.owned
    }

    /** The objects of the processor itself, as opposed to those of pending traces. */
    ghost function Objects(): set<object> {
      {this, primary, primary.cache, secondary, secondary.cache, sampled, notSampled}
    }

    ghost predicate Valid()
      reads this, primary, primary.cache, secondary, secondary.cache, sampled, notSampled, Owned()
    {
      && primary != secondary && primary.cache != secondary.cache && sampled != notSampled
      && Objects() !! Owned()
      && primary.Valid() && secondary.Valid() && sampled.Valid() && notSampled.Valid()
    }

    constructor (c: Engine.Config, primaryCap: nat, secondaryCap: nat, sampledCap: nat, notSampledCap: nat)
      requires primaryCap > 0 && secondaryCap > 0 && sampledCap > 0 && notSampledCap > 0
      ensures Valid() && cfg == c
      ensures View() == Engine.Initial(primaryCap, secondaryCap, sampledCap, notSampledCap)
      ensures primary.cache.size == primaryCap && secondary.cache.size == secondaryCap
      ensures sampled.size == sampledCap && notSampled.size == notSampledCap
      ensures View().exported == [] && View().inflight == []
    {
      cfg := c;
      primary := new PendingTier(primaryCap);
      secondary := new PendingTier(secondaryCap);
      sampled := new LruCache<()>(sampledCap);
      notSampled := new LruCache<()>(notSampledCap);
      exported, dropped, placeholders, inflight := [], [], [], [];
    }

    /** `cacheEvictionCallback`. */
    method CacheEviction(id: TraceID)
      requires Valid()
      modifies sampled, notSampled
      ensures Valid() && View() == Engine.CacheEviction(old(View()), id)
    {
      RecordEviction(sampled, notSampled, id);
    }

    /** `safeCheckDecisionCaches`. */
    method CheckDecisionCaches(id: TraceID) returns (d: Decision)
      requires Valid()
      modifies sampled, notSampled
      ensures Valid() && View() == Engine.Checked(old(View()), id)
      ensures d == Engine.Effective(old(View()), id)
    {
      d := CheckCaches(sampled, notSampled, id);
    }

    // ----- one cache operation together with its callback -----

    method PrimaryDelete(id: TraceID)
      requires Valid()
      modifies primary`entries, primary.cache, sampled, notSampled
      ensures Valid() && View() == Engine.PrimaryDelete(old(View()), id)
    {
      var removed := primary.Delete(id);
      if removed.Some? {
        CacheEviction(id);
      }
    }

    method SecondaryDelete(id: TraceID)
      requires Valid()
      modifies secondary`entries, secondary.cache, sampled, notSampled
      ensures Valid() && View() == Engine.SecondaryDelete(old(View()), id)
    {
      var removed := secondary.Delete(id);
      if removed.Some? {
        SecondaryCallback(id, removed.value);
      }
    }

    method PrimaryPut(id: TraceID, td: TraceData)
      requires Valid() && td.BelongsTo(id) && Objects() !! td.Repr()
      modifies this`dropped, primary`entries, primary`owned, primary.cache, sampled, notSampled
      ensures Owned() == old(Owned()) + td.Repr()
      ensures Valid() && View() == Engine.PrimaryPut(cfg, old(View()), id, old(td.View()))
    {
      ghost var s, e := View(), td.View();
      var evicted := PrimaryInsert(id, td);
      AfterPrimaryEviction(evicted, s.primary.Victim(id, e));
    }

    method AfterPrimaryEviction(evicted: Option<(TraceID, TraceData)>, ghost victim: Option<(TraceID, Entry)>)
      requires Valid() && SameVictim(evicted, victim)
      modifies this`dropped, sampled, notSampled
      ensures Valid()
      ensures View() == match victim
                        case None => old(View())
                        case Some((x, v)) =>
                          Engine.PrimaryEvicted(Engine.Drop(old(View()), x, Engine.Decoded(cfg, v)), x, v)
    {
      if evicted.Some? {
        PrimaryEvicted(evicted.value.0, evicted.value.1);
      }
    }

    /** The cache's part of a `Put`, before the callback runs on what it evicts. */
    method PrimaryInsert(id: TraceID, td: TraceData) returns (evicted: Option<(TraceID, TraceData)>)
      requires Valid() && td.BelongsTo(id) && Objects() !! td.Repr()
      modifies primary`entries, primary`owned, primary.cache
      ensures Owned() == old(Owned()) + td.Repr()
      ensures Valid() && View() == old(View()).(primary := old(View()).primary.Added(id, td.View()))
      ensures SameVictim(evicted, old(View()).primary.Victim(id, td.View()))
    {
      evicted := primary.Put(id, td);
    }

    method SecondaryInsert(id: TraceID, td: TraceData) returns (evicted: Option<(TraceID, TraceData)>)
      requires Valid() && td.BelongsTo(id) && Objects() !! td.Repr()
      modifies secondary`entries, secondary`owned, secondary.cache
      ensures Owned() == old(Owned()) + td.Repr()
      ensures Valid() && View() == old(View()).(secondary := old(View()).secondary.Added(id, td.View()))
      ensures SameVictim(evicted, old(View()).secondary.Victim(id, td.View()))
    {
      evicted := secondary.Put(id, td);
    }

    method SecondaryPut(id: TraceID, td: TraceData)
      requires Valid() && td.BelongsTo(id) && Objects() !! td.Repr()
      modifies this`dropped, secondary`entries, secondary`owned, secondary.cache, sampled, notSampled
      ensures Owned() == old(Owned()) + td.Repr()
      ensures Valid() && View() == Engine.SecondaryPut(cfg, old(View()), id, old(td.View()))
    {
      ghost var s, e := View(), td.View();
      var evicted := SecondaryInsert(id, td);
      AfterSecondaryEviction(evicted, s.secondary.Victim(id, e));
    }

    /** The callback, if anything was evicted. */
    method AfterSecondaryEviction(evicted: Option<(TraceID, TraceData)>, ghost victim: Option<(TraceID, Entry)>)
      requires Valid() && SameVictim(evicted, victim)
      modifies this`dropped, sampled, notSampled
      ensures Valid()
      ensures View() == match victim
                        case None => old(View())
                        case Some((x, v)) =>
                          Engine.SecondaryEvicted(Engine.Drop(old(View()), x, Engine.Decoded(cfg, v)), x, v)
    {
      if evicted.Some? {
        SecondaryEvicted(evicted.value.0, evicted.value.1);
      }
    }

    /** The primary cache has evicted `td`: what it held is let go of and the callback runs. */
    method PrimaryEvicted(id: TraceID, td: TraceData)
      requires Valid()
      modifies this`dropped, sampled, notSampled
      ensures Valid()
      ensures View() == Engine.PrimaryEvicted(Engine.Drop(old(View()), id, Engine.Decoded(cfg, old(td.View()))),
                                              id, old(td.View()))
    {
      Drop(id, td);
      CacheEviction(id);
    }

    /** The secondary cache has evicted `td`. */
    method SecondaryEvicted(id: TraceID, td: TraceData)
      requires Valid()
      modifies this`dropped, sampled, notSampled
      ensures Valid()
      ensures View() == Engine.SecondaryEvicted(Engine.Drop(old(View()), id, Engine.Decoded(cfg, old(td.View()))),
                                                id, old(td.View()))
    {
      Drop(id, td);
      SecondaryCallback(id, td);
    }

    /** `secondaryEvictionCallback`. */
    method SecondaryCallback(id: TraceID, td: TraceData)
      requires Valid()
      modifies sampled, notSampled
      ensures Valid() && View() == Engine.SecondaryEvicted(old(View()), id, old(td.View()))
    {
      if td.metadata.priority == Low {
        CacheEviction(id);
      }
    }

    method RecordSampled(id: TraceID)
      requires Valid()
      modifies sampled`order, sampled`items
      ensures Valid() && View() == old(View()).(sampled := old(View()).sampled.Added(id, ()))
    {
      var _ := sampled.Put(id, ());
    }

    method RecordNotSampled(id: TraceID)
      requires Valid()
      modifies notSampled`order, notSampled`items
      ensures Valid() && View() == old(View()).(notSampled := old(View()).notSampled.Added(id, ()))
    {
      var _ := notSampled.Put(id, ());
    }

    /** Records what an evicted object held. */
    ghost method Drop(x: TraceID, v: TraceData)
      requires Valid()
      modifies this`dropped
      ensures Valid() && View() == Engine.Drop(old(View()), x, Engine.Decoded(cfg, old(v.View())))
    {
      dropped := dropped + [Engine.Batch(x, Engine.Decoded(cfg, v.View()))];
    }

    ghost method DropHeld(id: TraceID)
      requires Valid()
      modifies this`dropped
      ensures Valid() && View() == Engine.DropHeld(cfg, old(View()), id)
    {
      dropped := Engine.DropHeld(cfg, View(), id).dropped;
    }

    // ----- the tiered cache -----

    /** The object held for `id`, which becomes the newest of its tier. */
    method TierGet(id: TraceID) returns (r: Option<TraceData>)
      requires Valid()
      modifies primary`entries, primary.cache, secondary`entries, secondary.cache
      ensures Valid() && View() == Engine.TierTouched(old(View()), id)
      ensures r.Some? <==> Engine.TierLookup(old(View()), id).Some?
      ensures r.Some? ==> r.value.View() == Engine.TierLookup(old(View()), id).value && IsHeld(id, r.value)
    {
      r := primary.Get(id);
      if r.None? {
        r := secondary.Get(id);
      }
    }

    /** `td` is the object held for `id`. */
    ghost predicate IsHeld(id: TraceID, td: TraceData)
      reads primary, primary.cache, secondary, secondary.cache
    {
      && td.BelongsTo(id) && td.Repr() <= Owned()
      && (if id in primary.cache.items then primary.cache.items[id] == td
          else id in secondary.cache.items && secondary.cache.items[id] == td)
    }

    method TierPut(id: TraceID, td: TraceData)
      requires Valid() && td.BelongsTo(id) && Objects() !! td.Repr()
      modifies this`dropped
      modifies primary`entries, primary`owned, primary.cache, secondary`entries, secondary`owned, secondary.cache
      modifies sampled, notSampled
      ensures Owned() == old(Owned()) + td.Repr()
      ensures Valid() && View() == Engine.TierPut(cfg, old(View()), id, old(td.View()))
    {
      ghost var s, e := View(), td.View();
      if td.metadata.priority == Low {
        PrimaryDelete(id);
        assert View() == Engine.PrimaryDelete(s, id) && td.View() == e;
        SecondaryPut(id, td);
      } else {
        SecondaryDelete(id);
        assert View() == Engine.SecondaryDelete(s, id) && td.View() == e;
        PrimaryPut(id, td);
      }
    }

    method TierDelete(id: TraceID)
      requires Valid()
      modifies primary`entries, primary.cache, secondary`entries, secondary.cache, sampled, notSampled
      ensures Valid() && View() == Engine.TierDelete(old(View()), id)
    {
      PrimaryDelete(id);
      SecondaryDelete(id);
    }

    /** Absorbs a new batch into the held object, in place, while the object sits in its tier. */
    method Absorb(id: TraceID, held: TraceData, td: TraceData)
      requires Valid() && IsHeld(id, held)
      requires primary.cache.items.Keys !! secondary.cache.items.Keys
      requires td.Repr() !! Owned() && td.Repr() !! Objects()
      modifies held.Repr(), td.Repr(), primary`entries, secondary`entries
      ensures Valid() && IsHeld(id, held)
      ensures held.View() == AbsorbEntry(old(held.View()), old(td.View()))
      ensures View() == Engine.TierMutated(old(View()), id, held.View())
    {
      ghost var s := View();
      primary.Untouched(id, held, td);
      secondary.Untouched(id, held, td);
      var ok := held.AbsorbTraceData(td);
      assert s == View();
      assert ModelsExcept(primary.cache.View(), primary.entries, primary.owned, id);
      assert ModelsExcept(secondary.cache.View(), secondary.entries, secondary.owned, id);
      NoteMerge(id, held);
    }

    ghost method NoteMerge(id: TraceID, held: TraceData)
      requires primary != secondary && primary.cache != secondary.cache && sampled != notSampled
      requires Objects() !! Owned() && sampled.Valid() && notSampled.Valid()
      requires IsHeld(id, held) && primary.cache.items.Keys !! secondary.cache.items.Keys
      requires ModelsExcept(primary.cache.View(), primary.entries, primary.owned, id)
      requires ModelsExcept(secondary.cache.View(), secondary.entries, secondary.owned, id)
      modifies primary`entries, secondary`entries
      ensures Valid() && IsHeld(id, held)
      ensures View() == Engine.TierMutated(old(View()), id, held.View())
    {
      primary.NoteMerge(id, held);
      secondary.NoteMerge(id, held);
    }

    // ----- steps -----

    /** `sendSampledTraceData`: takes the flush count off every resource and sends the traces on. */
    method Send(id: TraceID, td: Traces)
      requires Valid()
      modifies this`exported
      ensures Valid() && View() == Engine.Export(old(View()), id, td)
    {
      var rs: Traces := [];
      var i := 0;
      while i < |td|
        invariant i <= |td|
        invariant rs == Engine.StripFlushes(td)[..i]
      {
        rs := rs + [td[i].(resource := td[i].resource.(flushes := None))];
        i := i + 1;
      }
      assert rs == Engine.StripFlushes(td);
      exported := exported + [Engine.Batch(id, rs)];
    }

    /** `releaseNotSampledTrace`. */
    method ReleaseNotSampled(id: TraceID, placeholder: Option<string>)
      requires Valid()
      modifies this`placeholders, this`dropped
      modifies primary`entries, primary.cache, secondary`entries, secondary.cache, sampled, notSampled
      ensures Valid() && View() == Engine.ReleaseNotSampled(cfg, old(View()), id, placeholder)
    {
      if placeholder.Some? {
        placeholders := placeholders + [Engine.Placeholder(id, placeholder.value)];
      }
      RecordNotSampled(id);
      DropHeld(id);
      TierDelete(id);
    }

    /** Sends what an object holds and deletes its entry. If it does not decode, an empty batch is
        sent if `always`, and nothing otherwise. */
    method ExportHeld(id: TraceID, td: TraceData, always: bool)
      requires Valid()
      modifies this`exported, primary`entries, primary.cache, secondary`entries, secondary.cache, sampled, notSampled
      ensures Valid() && View() == Engine.ExportHeld(cfg, old(View()), id, old(td.View()), always)
    {
      var traces := td.GetTraces(cfg.codec);
      if traces.Ok? {
        Send(id, traces.value);
      } else if always {
        Send(id, []);
      }
      TierDelete(id);
    }

    /** A true decision span for an undecided trace. */
    method DecisionTrue(id: TraceID)
      requires Valid()
      modifies this`exported, primary`entries, primary.cache, secondary`entries, secondary.cache, sampled, notSampled
      ensures Valid() && View() == Engine.DecisionTrue(cfg, old(View()), id)
    {
      ghost var s := View();
      var td := TierGet(id);
      if td.Some? {
        ExportHeld(id, td.value, true);
        assert View() == Engine.ExportHeld(cfg, Engine.TierTouched(s, id), id, Engine.TierLookup(s, id).value, true);
      }
      RecordSampled(id);
    }

    /** Sends the spans of a group of a sampled trace. */
    method SendGroup(g: Engine.Group)
      requires Valid()
      modifies this`exported
      ensures Valid() && View() == Engine.Export(old(View()), g.id, Engine.BatchOf(g))
    {
      var td := MoveGroup(g);
      Send(g.id, td);
    }

    ghost method DropBatch(id: TraceID, t: Traces)
      requires Valid()
      modifies this`dropped
      ensures Valid() && View() == Engine.Drop(old(View()), id, t)
    {
      dropped := dropped + [Engine.Batch(id, t)];
    }

    /** The part of `cachedDecision` that applies what the decision caches say. */
    method ApplyKnown(g: Engine.Group, d: Decision)
      requires Valid()
      modifies this`exported, this`dropped
      ensures Valid() && View() == Engine.ApplyKnown(old(View()), g, d)
    {
      if g.resource.decision.None? {
        if d == Sampled {
          SendGroup(g);
        } else if d == NotSampled {
          DropBatch(g.id, Engine.BatchOf(g));
        }
      }
    }

    /** `cachedDecision`: whether the group was dealt with by a known decision or is one itself. */
    method CachedDecision(g: Engine.Group) returns (handled: bool)
      requires Valid()
      modifies this`exported, this`dropped, this`placeholders
      modifies primary`entries, primary.cache, secondary`entries, secondary.cache, sampled, notSampled
      ensures Valid()
      ensures handled <==> Engine.CachedDecision(cfg, old(View()), g).Some?
      ensures View() == if handled then Engine.CachedDecision(cfg, old(View()), g).value
                        else Engine.Checked(old(View()), g.id)
    {
      ghost var s := View();
      var d := CheckDecisionCaches(g.id);
      if d != Unevaluated {
        ApplyKnown(g, d);
        return true;
      }
      if g.resource.decision.None? {
        return false;
      }
      if g.resource.decision.value {
        DecisionTrue(g.id);
      } else {
        ReleaseNotSampled(g.id, None);
      }
      return true;
    }

    ghost function ValueOf(held: Option<TraceData>): Option<Entry>
      reads if held.Some? then held.value.Repr() else {}
    {
      if held.Some? then Some(held.value.View()) else None
    }

    /** Sampled by a policy. */
    method ReleaseSampled(id: TraceID, held: Option<TraceData>, batch: Traces)
      requires Valid()
      modifies this`exported, primary`entries, primary.cache, secondary`entries, secondary.cache, sampled, notSampled
      ensures Valid() && View() == Engine.ReleaseSampled(cfg, old(View()), id, old(ValueOf(held)), batch)
    {
      ghost var s, e := View(), ValueOf(held);
      RecordSampled(id);
      if held.Some? {
        assert held.value.View() == e.value;
        ExportHeld(id, held.value, false);
      }
      Send(id, batch);
    }

    /** Still pending: `td` is merged into the object already held, if there is one, and the result
        is put into the tier of its priority. */
    method Hold(id: TraceID, td: TraceData, held: Option<TraceData>)
      requires Valid() && Invariant.TiersDisjoint(View())
      requires td.BelongsTo(id) && td.Repr() !! Owned() && td.Repr() !! Objects()
      requires held.Some? ==> IsHeld(id, held.value)
      requires ValueOf(held) == Engine.TierLookup(View(), id)
      modifies if held.Some? then held.value.Repr() else {}
      modifies td.Repr()
      modifies this`dropped
      modifies primary`entries, primary`owned, primary.cache, secondary`entries, secondary`owned, secondary.cache
      modifies sampled, notSampled
      ensures Owned() <= old(Owned()) + td.Repr()
      ensures Valid() && View() == Engine.Hold(cfg, old(View()), id, old(td.View()), old(ValueOf(held)))
    {
      if held.Some? {
        Absorb(id, held.value, td);
        TierPut(id, held.value);
      } else {
        TierPut(id, td);
      }
    }

    /** Copies the batch's metadata and merges that of the held trace, if any, into the copy. */
    method Merged(id: TraceID, td: TraceData) returns (held: Option<TraceData>, merged: Metadata)
      requires Valid() && td.BelongsTo(id) && td.Repr() !! Objects()
      modifies primary`entries, primary.cache, secondary`entries, secondary.cache
      ensures Valid() && View() == Engine.TierTouched(old(View()), id)
      ensures ValueOf(held) == Engine.TierLookup(old(View()), id)
      ensures held.Some? ==> IsHeld(id, held.value)
      ensures fresh(merged) && merged !in Owned() && merged !in Objects() && merged !in td.Repr()
      ensures merged.View() == WithHeld(td.View().meta, Engine.TierLookup(old(View()), id))
    {
      merged := td.metadata.DeepCopy();
      assert merged !in Owned() && merged !in Objects() && merged !in td.Repr();
      held := TierGet(id);
      MergeHeld(id, merged, held);
    }

    method MergeHeld(id: TraceID, merged: Metadata, held: Option<TraceData>)
      requires Valid() && merged !in Owned() && merged !in Objects()
      requires held.Some? ==> IsHeld(id, held.value)
      modifies merged
      ensures Valid() && View() == old(View()) && ValueOf(held) == old(ValueOf(held))
      ensures merged.View() == if held.None? then old(merged.View())
                               else MergeMeta(old(merged.View()), held.value.metadata.View())
    {
      if held.Some? {
        merged.MergeWith(held.value.metadata);
      }
    }

    /** The switch over the final decision. */
    method Act(g: Engine.Group, batch: Traces, td: TraceData, held: Option<TraceData>, v: Verdict)
      requires Valid() && Invariant.TiersDisjoint(View())
      requires td.BelongsTo(g.id) && td.Repr() !! Owned() && td.Repr() !! Objects()
      requires held.Some? ==> IsHeld(g.id, held.value)
      requires ValueOf(held) == Engine.TierLookup(View(), g.id)
      modifies if held.Some? then held.value.Repr() else {}
      modifies td.Repr()
      modifies this`exported, this`dropped, this`placeholders
      modifies primary`entries, primary`owned, primary.cache, secondary`entries, secondary`owned, secondary.cache
      modifies sampled, notSampled
      ensures Owned() <= old(Owned()) + td.Repr()
      ensures Valid() && View() == Engine.Act(cfg, old(View()), g.id, batch, old(td.View()), old(ValueOf(held)), v)
    {
      if v.decision == Sampled {
        ReleaseSampled(g.id, held, batch);
      } else if v.decision == NotSampled {
        ReleaseNotSampled(g.id, if v.emit then v.policy else None);
        DropBatch(g.id, batch);
      } else {
        Hold(g.id, td, held);
      }
    }

    /** Merges metadata, asks the policies, and marks the new batch with what they say. */
    method Judge(id: TraceID, env: nat, batch: Traces, td: TraceData) returns (held: Option<TraceData>, v: Verdict)
      requires Valid() && td.BelongsTo(id) && td.Repr() !! Owned() && td.Repr() !! Objects()
      modifies td.Repr(), primary`entries, primary.cache, secondary`entries, secondary.cache
      ensures Valid() && View() == Engine.TierTouched(old(View()), id)
      ensures ValueOf(held) == Engine.TierLookup(old(View()), id)
      ensures held.Some? ==> IsHeld(id, held.value)
      ensures var m := WithHeld(old(td.View()).meta, Engine.TierLookup(old(View()), id));
              v == Decider.Decide(cfg.policies, env, id, batch, m) && td.View() == Engine.Lowered(old(td.View()), m, v)
    {
      var merged;
      held, merged := Merged(id, td);
      assert td.View() == old(td.View());
      v := MakeDecision(cfg.policies, env, id, batch, merged.View());
      VerdictShape(cfg.policies, env, id, batch, merged.View());
      LowerBatch(id, td, merged, held, v);
    }

    /** Evaluates a new batch against the policies and acts on the verdict. */
    method Decide(g: Engine.Group, now: int, env: nat, batch: Traces, td: TraceData)
      requires Valid() && Invariant.TiersDisjoint(View())
      requires td.BelongsTo(g.id) && td.Repr() !! Owned() && td.Repr() !! Objects()
      requires batch == Engine.BatchOf(g) && Ok(td.View()) == NewEntry(cfg.compress, cfg.codec, now, batch)
      modifies Owned(), td.Repr(), this`exported, this`dropped, this`placeholders
      modifies primary`entries, primary`owned, primary.cache, secondary`entries, secondary`owned, secondary.cache
      modifies sampled, notSampled
      ensures Owned() <= old(Owned()) + td.Repr()
      ensures Valid() && View() == Engine.Evaluate(cfg, old(View()), g, now, env)
    {
      ghost var s, e := View(), td.View();
      var held, v := Judge(g.id, env, batch, td);
      Engine.EvaluateIsAct(cfg, s, g, now, env, e, td.View());
      Act(g, batch, td, held, v);
    }

    /** `Lower`, which changes nothing that is held. */
    method LowerBatch(id: TraceID, td: TraceData, merged: Metadata, held: Option<TraceData>, v: Verdict)
      requires Valid() && merged !in td.Repr() && td.Repr() !! Owned() && td.Repr() !! Objects()
      requires merged !in Owned() && merged !in Objects()
      requires held.Some? ==> IsHeld(id, held.value)
      requires v.decision == LowPriority ==> v.policy.Some?
      modifies td.metadata, merged
      ensures Valid() && View() == old(View()) && ValueOf(held) == old(ValueOf(held))
      ensures held.Some? ==> IsHeld(id, held.value)
      ensures td.View() == Engine.Lowered(old(td.View()), old(merged.View()), v)
    {
      Lower(td, merged, v);
    }

    /** The part of `processTraces` after the decision caches had no answer. */
    method Evaluate(g: Engine.Group, now: int, env: nat)
      requires Valid() && Invariant.TiersDisjoint(View())
      modifies Owned(), this`exported, this`dropped, this`placeholders
      modifies primary`entries, primary`owned, primary.cache, secondary`entries, secondary`owned, secondary.cache
      modifies sampled, notSampled
      ensures forall o :: o in Owned() && o !in old(Owned()) ==> fresh(o)
      ensures Valid() && View() == Engine.Evaluate(cfg, old(View()), g, now, env)
    {
      var batch := MoveGroup(g);
      var created := NewTraceData(g.id, now, batch, cfg.compress, cfg.codec);
      if created.Ok? {
        Decide(g, now, env, batch, created.value);
      }
    }

    /** One group. */
    method ProcessGroup(g: Engine.Group, now: int, env: nat)
      requires Valid() && Invariant.Inv(View())
      modifies Owned(), this`exported, this`dropped, this`placeholders
      modifies primary`entries, primary`owned, primary.cache, secondary`entries, secondary`owned, secondary.cache
      modifies sampled, notSampled
      ensures forall o :: o in Owned() && o !in old(Owned()) ==> fresh(o)
      ensures Valid() && Invariant.Inv(View())
      ensures View() == Engine.ProcessGroup(cfg, old(View()), g, now, env)
    {
      Invariant.ProcessGroupKeeps(cfg, View(), g, now, env);
      var handled := CachedDecision(g);
      if !handled {
        Evaluate(g, now, env);
      }
    }

    /** `processTraces`. */
    method ProcessTraces(work: seq<Invariant.Work>)
      requires Valid() && Invariant.Inv(View())
      modifies Owned(), this`exported, this`dropped, this`placeholders
      modifies primary`entries, primary`owned, primary.cache, secondary`entries, secondary`owned, secondary.cache
      modifies sampled, notSampled
      ensures Valid() && View() == Invariant.ProcessAll(cfg, old(View()), work)
    {
      ghost var s := View();
      var i := 0;
      while i < |work|
        invariant i <= |work|
        invariant Valid() && Invariant.Inv(s) && View() == Invariant.ProcessAll(cfg, s, work[..i])
        invariant forall o :: o in Owned() && o !in old(Owned()) ==> fresh(o)
      {
        Invariant.ProcessAllNext(cfg, s, work, i);
        ProcessGroup(work[i].g, work[i].now, work[i].env);
        i := i + 1;
      }
      assert work[..i] == work;
    }

    /** A shard takes one waiting group and processes it: one step of a run. */
    method ProcessNext(i: nat, now: int, env: nat)
      requires Valid() && Invariant.Inv(View()) && i < |inflight|
      modifies Owned(), this`exported, this`dropped, this`placeholders, this`inflight
      modifies primary`entries, primary`owned, primary.cache, secondary`entries, secondary`owned, secondary.cache
      modifies sampled, notSampled
      ensures forall o :: o in Owned() && o !in old(Owned()) ==> fresh(o)
      ensures Valid() && Invariant.Inv(View())
      ensures View() == Engine.Next(cfg, old(View()), Engine.Process(i, now, env))
    {
      var g := inflight[i];
      Dequeue(i);
      ProcessGroup(g, now, env);
    }

    method Dequeue(i: nat)
      requires Valid() && i < |inflight|
      modifies this`inflight
      ensures Valid() && View() == old(View()).(inflight := Engine.WithoutIndex(old(View()).inflight, i))
    {
      inflight := inflight[..i] + inflight[i + 1..];
    }

    method Enqueue(g: Engine.Group)
      requires Valid()
      modifies this`inflight
      ensures Valid() && View() == old(View()).(inflight := old(View()).inflight + [g])
    {
      inflight := inflight + [g];
    }

    /** `earlyDecisionChecks` for one group; what it does not settle goes to the shard. */
    method EarlyCheck(g: Engine.Group)
      requires Valid()
      modifies this`exported, this`dropped, this`inflight, sampled, notSampled
      ensures Valid() && View() == Engine.EarlyCheck(old(View()), g)
    {
      if g.resource.decision.Some? {
        Enqueue(g);
        return;
      }
      var d := CheckDecisionCaches(g.id);
      if d == Unevaluated {
        Enqueue(g);
      } else {
        ApplyKnown(g, d);
      }
    }

    /** `earlyDecisionChecks`: visits the buckets of one resource in any order, applies known decisions,
        and returns the buckets that are left. */
    method EarlyDecisionChecks(resource: Resource, spansByTraceID: map<TraceID, seq<SpanAndScope>>)
      returns (rest: map<TraceID, seq<SpanAndScope>>, ghost settled: seq<Engine.Group>)
      requires Valid()
      modifies this`exported, this`dropped, sampled, notSampled
      ensures Valid() && View() == Invariant.ReceiveAll(old(View()), settled)
      ensures SameVerdicts(old(View()), View())
      ensures PartOf(rest, spansByTraceID)
      ensures BucketsSoFar(settled, resource, spansByTraceID, spansByTraceID.Keys - rest.Keys)
      ensures AllWait(View(), rest.Keys, resource)
    {
      ghost var s := View();
      var ids := spansByTraceID.Keys;
      rest, settled := spansByTraceID, [];
      while ids != {}
        invariant Valid() && View() == Invariant.ReceiveAll(s, settled) && SameVerdicts(s, View())
        invariant ids <= rest.Keys
        invariant PartOf(rest, spansByTraceID)
        invariant BucketsSoFar(settled, resource, spansByTraceID, spansByTraceID.Keys - rest.Keys)
        invariant AllWait(View(), rest.Keys - ids, resource)
        decreases |ids|
      {
        var id :| id in ids;
        ghost var waiting := rest.Keys - ids;
        ids := ids - {id};
        if resource.decision.None? {
          var g := Engine.Group(id, resource, spansByTraceID[id]);
          ghost var before := View();
          var isSettled := SettleNow(g);
          StillWait(before, View(), waiting, resource);
          if isSettled {
            BucketsNext(settled, resource, spansByTraceID, rest.Keys, id);
            Invariant.ReceiveOneMore(s, settled, g);
            rest, settled := rest - {id}, settled + [g];
            assert rest.Keys - ids == waiting;
          }
        }
      }
    }

    /** The check of one bucket: whether its trace is decided, and if so, its spans are sent or not. */
    method SettleNow(g: Engine.Group) returns (settled: bool)
      requires Valid() && g.resource.decision.None?
      modifies this`exported, this`dropped, sampled, notSampled
      ensures Valid() && SameVerdicts(old(View()), View())
      ensures settled <==> Engine.Effective(old(View()), g.id) != Unevaluated
      ensures View() == if settled then Engine.EarlyCheck(old(View()), g) else old(View())
    {
      var d := CheckDecisionCaches(g.id);
      settled := d != Unevaluated;
      if settled {
        ApplyKnown(g, d);
      }
    }

    /** One resource: its spans are grouped and checked; the groups to wait are returned. */
    method ConsumeResource(rs: ResourceSpans) returns (waiting: seq<Engine.Group>, ghost settled: seq<Engine.Group>)
      requires Valid()
      modifies this`exported, this`dropped, sampled, notSampled
      ensures Valid() && View() == Invariant.ReceiveAll(old(View()), settled) && SameVerdicts(old(View()), View())
      ensures MustAllWait(View(), waiting)
      ensures AreBucketsOf(settled + waiting, rs)
    {
      var spansByTraceID := GroupSpansByTraceID(rs);
      var rest;
      rest, settled := EarlyDecisionChecks(rs.resource, spansByTraceID);
      waiting := RestGroups(rs.resource, rest);
      BucketsJoin(settled, waiting, rs.resource, spansByTraceID, rest);
    }

    /** `ConsumeTraces`: every resource is grouped and checked, then what is left goes to the shards.
        `buckets` are the groups of each resource, `groups` all of them in the order they took effect. */
    method ConsumeTraces(td: Traces) returns (ghost groups: seq<Engine.Group>, ghost buckets: seq<seq<Engine.Group>>)
      requires Valid()
      modifies this`exported, this`dropped, this`inflight, sampled, notSampled
      ensures Valid() && View() == Invariant.ReceiveAll(old(View()), groups)
      ensures AreAllBuckets(buckets, td)
      ensures multiset(groups) == multiset(Flatten(buckets))
    {
      ghost var s := View();
      var waiting: seq<Engine.Group> := [];
      ghost var settled: seq<Engine.Group> := [];
      buckets := [];
      var k := 0;
      while k < |td|
        invariant k <= |td|
        invariant Valid() && View() == Invariant.ReceiveAll(s, settled)
        invariant MustAllWait(View(), waiting)
        invariant AreAllBuckets(buckets, td[..k])
        invariant multiset(settled) + multiset(waiting) == multiset(Flatten(buckets))
      {
        ghost var now;
        var more;
        more, now := ConsumeResource(td[k]);
        Invariant.ReceiveAllConcat(s, settled, now);
        BagOfBuckets(settled, waiting, now, more, buckets);
        OneMoreResource(buckets, td, k, now + more);
        settled, waiting, buckets := settled + now, waiting + more, buckets + [now + more];
        k := k + 1;
      }
      assert td[..k] == td;
      EnqueueAll(waiting);
      Invariant.ReceiveAllConcat(s, settled, waiting);
      groups := settled + waiting;
    }

    method EnqueueAll(waiting: seq<Engine.Group>)
      requires Valid() && MustAllWait(View(), waiting)
      modifies this`inflight
      ensures Valid() && View() == Invariant.ReceiveAll(old(View()), waiting)
    {
      ghost var s := View();
      var i := 0;
      while i < |waiting|
        invariant i <= |waiting|
        invariant Valid() && View() == Invariant.ReceiveAll(s, waiting[..i]) && SameVerdicts(s, View())
      {
        assert waiting[..i + 1] == waiting[..i] + [waiting[i]];
        Invariant.ReceiveOneMore(s, waiting[..i], waiting[i]);
        Enqueue(waiting[i]);
        i := i + 1;
      }
      assert waiting[..i] == waiting;
    }

    // ----- the memory regulator -----

    /** `RegulateCacheSize` with the callbacks of the primary cache on what it resizes out. */
    method Regulate(r: Params, heap: nat) returns (newSize: nat)
      requires Valid() && r.Valid()
      modifies this`dropped, primary`entries, primary.cache, sampled, notSampled
      ensures newSize == r.NewSize(old(View()).primary.cap, heap)
      ensures Valid() && View() == Engine.PrimaryResize(cfg, old(View()), newSize)
    {
      newSize := r.NewSize(primary.cache.size, heap);
      ResizeTo(newSize);
    }

    method ResizeTo(n: nat)
      requires Valid()
      modifies this`dropped, primary`entries, primary.cache, sampled, notSampled
      ensures Valid() && View() == Engine.PrimaryResize(cfg, old(View()), n)
    {
      ghost var s := View();
      var evicted := ResizePrimary(n);
      RunCallbacks(evicted, s.primary.Victims(n));
    }

    /** The cache's part, before the callbacks. */
    method ResizePrimary(n: nat) returns (evicted: seq<(TraceID, TraceData)>)
      requires Valid()
      modifies primary`entries, primary.cache
      ensures Valid() && View() == old(View()).(primary := old(View()).primary.Resized(n))
      ensures SameVictims(evicted, old(View()).primary.Victims(n), primary.owned)
    {
      evicted := primary.ResizeTo(n);
    }

    method RunCallbacks(evicted: seq<(TraceID, TraceData)>, ghost victims: seq<(TraceID, Entry)>)
      requires Valid() && SameVictims(evicted, victims, primary.owned)
      modifies this`dropped, sampled, notSampled
      ensures Valid() && View() == Engine.EvictAll(cfg, old(View()), victims)
    {
      ghost var s := View();
      var i := 0;
      while i < |evicted|
        invariant i <= |evicted|
        invariant Valid() && View() == Engine.EvictAll(cfg, s, victims[..i])
        invariant SameVictims(evicted, victims, primary.owned)
      {
        assert victims[..i + 1][..i] == victims[..i];
        assert SameVictim(Some(evicted[i]), Some(victims[i]));
        AfterPrimaryEviction(Some(evicted[i]), Some(victims[i]));
        i := i + 1;
      }
      assert victims[..i] == victims;
    }

    // ----- runs -----

    method Perform(step: Engine.Step)
      requires Valid() && Invariant.Inv(View())
      modifies Owned(), this`exported, this`dropped, this`placeholders, this`inflight
      modifies primary`entries, primary`owned, primary.cache, secondary`entries, secondary`owned, secondary.cache
      modifies sampled, notSampled
      ensures forall o :: o in Owned() && o !in old(Owned()) ==> fresh(o)
      ensures Valid() && View() == Engine.Next(cfg, old(View()), step)
    {
      match step
      case Receive(g) => EarlyCheck(g);
      case Process(i, now, env) =>
        if i < |inflight| {
          ProcessNext(i, now, env);
        }
      case Regulate(size) => ResizeTo(size);
    }

    /** Performing any steps one after another is a run of the engine, so every theorem about runs
        is one about this object. */
    method Run(steps: seq<Engine.Step>)
      requires Valid() && Invariant.Inv(View())
      modifies Owned(), this`exported, this`dropped, this`placeholders, this`inflight
      modifies primary`entries, primary`owned, primary.cache, secondary`entries, secondary`owned, secondary.cache
      modifies sampled, notSampled
      ensures Valid() && View() == Invariant.Run(cfg, old(View()), steps)
    {
      ghost var s := View();
      var i := 0;
      while i < |steps|
        invariant i <= |steps|
        invariant Valid() && Invariant.Inv(s) && View() == Invariant.Run(cfg, s, steps[..i])
        invariant forall o :: o in Owned() && o !in old(Owned()) ==> fresh(o)
      {
        Invariant.RunNext(cfg, s, steps, i);
        Perform(steps[i]);
        i := i + 1;
      }
      assert steps[..i] == steps;
    }

    // ----- shutdown -----

    /** The decision half of `flushAll`. */
    method FlushDecisions() returns (decisions: Traces)
      requires Valid()
      modifies sampled`order, sampled`items, notSampled`order, notSampled`items
      ensures decisions == Handoff.FlushDecisions(old(View()))
      ensures Valid() && View() == old(View()).(sampled := Empty(old(View()).sampled.cap),
              notSampled := Empty(old(View()).notSampled.cap))
    {
      var sampledIDs := TakeSampled();
      var nonSampledIDs := TakeNotSampled();
      var yes := DecisionSpans(true, sampledIDs);
      var no := DecisionSpans(false, nonSampledIDs);
      decisions := [yes, no];
    }

    method TakeSampled() returns (ids: seq<TraceID>)
      requires Valid()
      modifies sampled`order, sampled`items
      ensures ids == old(View()).sampled.order
      ensures Valid() && View() == old(View()).(sampled := Empty(old(View()).sampled.cap))
    {
      ids := sampled.Keys();
      sampled.Clear();
    }

    method TakeNotSampled() returns (ids: seq<TraceID>)
      requires Valid()
      modifies notSampled`order, notSampled`items
      ensures ids == old(View()).notSampled.order
      ensures Valid() && View() == old(View()).(notSampled := Empty(old(View()).notSampled.cap))
    {
      ids := notSampled.Keys();
      notSampled.Clear();
    }

    /** The data half of `flushAll`: everything held that decodes, tier by tier. */
    method FlushHeld() returns (sent: seq<Engine.Batch>)
      requires Valid()
      ensures sent == Handoff.FlushHeld(cfg, View())
    {
      var first := FlushTier(cfg, primary);
      var second := FlushTier(cfg, secondary);
      sent := first + second;
    }
  }

  /** A low-priority verdict marks the new batch; any other verdict forgets the policy that last
      lowered the trace, in the copy only. */
  method Lower(td: TraceData, merged: Metadata, v: Verdict)
    requires merged !in td.Repr()
    requires v.decision == LowPriority ==> v.policy.Some?
    modifies td.metadata, merged
    ensures td.View() == Engine.Lowered(old(td.View()), old(merged.View()), v)
  {
    if merged.lastLowPriorityDecisionName.Some? && v.decision != LowPriority {
      merged.lastLowPriorityDecisionName := None;
    }
    if v.decision == LowPriority {
      td.metadata.priority := Low;
      if merged.lastLowPriorityDecisionName.None? {
        merged.lastLowPriorityDecisionName := v.policy;
      }
      td.metadata.lastLowPriorityDecisionName := merged.lastLowPriorityDecisionName;
    }
  }

  /** The spans of the group, moved into a batch of their own. */
  method MoveGroup(g: Engine.Group) returns (batch: Traces)
    ensures batch == Engine.BatchOf(g)
  {
    batch := AppendAndMoveToTraces([], g.resource, g.spans);
    assert [] + MoveToTraces(g.resource, g.spans) == MoveToTraces(g.resource, g.spans);
  }

  /** `groups` holds one group for each ID in `done`, with its bucket. */
  ghost predicate BucketsSoFar(groups: seq<Engine.Group>, r: Resource, m: map<TraceID, seq<SpanAndScope>>,
      done: set<TraceID>)
  {
    && (forall i :: 0 <= i < |groups| ==>
          groups[i].id in done && groups[i].id in m && groups[i] == Engine.Group(groups[i].id, r, m[groups[i].id]))
    && (forall i, j :: 0 <= i < j < |groups| ==> groups[i].id != groups[j].id)
    && (forall x :: x in done ==> exists i :: 0 <= i < |groups| && groups[i].id == x)
  }

  lemma BucketsNext(groups: seq<Engine.Group>, r: Resource, m: map<TraceID, seq<SpanAndScope>>, left: set<TraceID>,
      id: TraceID)
    requires id in left && left <= m.Keys && BucketsSoFar(groups, r, m, m.Keys - left)
    ensures BucketsSoFar(groups + [Engine.Group(id, r, m[id])], r, m, m.Keys - (left - {id}))
  {
    var gs := groups + [Engine.Group(id, r, m[id])];
    forall x | x in m.Keys - (left - {id}) ensures exists i :: 0 <= i < |gs| && gs[i].id == x {
      if x == id {
        assert gs[|groups|].id == x;
      } else {
        assert x in m.Keys - left;
        var i :| 0 <= i < |groups| && groups[i].id == x;
        assert gs[i].id == x;
      }
    }
  }

  /** The two states hold the same decisions. */
  ghost predicate SameVerdicts(s: Engine.State, s': Engine.State) {
    s'.sampled.vals == s.sampled.vals && s'.notSampled.vals == s.notSampled.vals
  }

  /** The early check has no answer for the group: it is a decision span, or its trace is undecided. */
  ghost predicate MustWait(s: Engine.State, id: TraceID, r: Resource) {
    r.decision.Some? || Engine.Effective(s, id) == Unevaluated
  }

  ghost predicate AllWait(s: Engine.State, ids: set<TraceID>, r: Resource) {
    forall id :: id in ids ==> MustWait(s, id, r)
  }

  lemma StillWait(s: Engine.State, s': Engine.State, ids: set<TraceID>, r: Resource)
    requires AllWait(s, ids, r) && SameVerdicts(s, s')
    ensures AllWait(s', ids, r)
  {
    forall id | id in ids ensures MustWait(s', id, r) { assert MustWait(s, id, r); }
  }

  ghost predicate MustAllWait(s: Engine.State, waiting: seq<Engine.Group>) {
    forall g :: g in waiting ==> MustWait(s, g.id, g.resource)
  }

  ghost predicate AreAllBuckets(buckets: seq<seq<Engine.Group>>, td: Traces) {
    |buckets| == |td| && forall k :: 0 <= k < |td| ==> AreBucketsOf(buckets[k], td[k])
  }

  lemma OneMoreResource(buckets: seq<seq<Engine.Group>>, td: Traces, k: nat, last: seq<Engine.Group>)
    requires k < |td| && AreAllBuckets(buckets, td[..k]) && AreBucketsOf(last, td[k])
    ensures AreAllBuckets(buckets + [last], td[..k + 1])
  {
  }

  /** The groups of the buckets that are left, in any order. */
  method RestGroups(resource: Resource, rest: map<TraceID, seq<SpanAndScope>>) returns (groups: seq<Engine.Group>)
    ensures BucketsSoFar(groups, resource, rest, rest.Keys)
  {
    groups := [];
    var ids := rest.Keys;
    while ids != {}
      invariant ids <= rest.Keys && BucketsSoFar(groups, resource, rest, rest.Keys - ids)
      decreases |ids|
    {
      var id :| id in ids;
      BucketsNext(groups, resource, rest, ids, id);
      groups, ids := groups + [Engine.Group(id, resource, rest[id])], ids - {id};
    }
    assert rest.Keys - ids == rest.Keys;
  }

  ghost predicate PartOf(rest: map<TraceID, seq<SpanAndScope>>, m: map<TraceID, seq<SpanAndScope>>) {
    forall id :: id in rest ==> id in m && rest[id] == m[id]
  }

  lemma BucketsJoin(a: seq<Engine.Group>, b: seq<Engine.Group>, r: Resource, m: map<TraceID, seq<SpanAndScope>>,
      rest: map<TraceID, seq<SpanAndScope>>)
    requires PartOf(rest, m)
    requires BucketsSoFar(a, r, m, m.Keys - rest.Keys) && BucketsSoFar(b, r, rest, rest.Keys)
    ensures BucketsSoFar(a + b, r, m, m.Keys)
  {
    var gs := a + b;
    forall x | x in m.Keys ensures exists i :: 0 <= i < |gs| && gs[i].id == x {
      if x in rest {
        var i :| 0 <= i < |b| && b[i].id == x;
        assert gs[|a| + i].id == x;
      } else {
        assert x in m.Keys - rest.Keys;
        var i :| 0 <= i < |a| && a[i].id == x;
        assert gs[i].id == x;
      }
    }
  }

  function Flatten(buckets: seq<seq<Engine.Group>>): seq<Engine.Group> {
    if buckets == [] then [] else Flatten(buckets[..|buckets| - 1]) + buckets[|buckets| - 1]
  }

  lemma FlattenSnoc(buckets: seq<seq<Engine.Group>>, last: seq<Engine.Group>)
    ensures Flatten(buckets + [last]) == Flatten(buckets) + last
  {
    var all := buckets + [last];
    assert all[..|all| - 1] == buckets && all[|all| - 1] == last;
  }

  /** `groups` are the buckets of the spans of `rs`, each exactly once, in some order. */
  ghost predicate AreBucketsOf(groups: seq<Engine.Group>, rs: ResourceSpans) {
    exists m :: IsGrouping(m, Refs(rs.scopeSpans, |rs.scopeSpans|)) && BucketsSoFar(groups, rs.resource, m, m.Keys)
  }

  lemma BagOfBuckets(settled: seq<Engine.Group>, waiting: seq<Engine.Group>, now: seq<Engine.Group>,
      more: seq<Engine.Group>,
                     buckets: seq<seq<Engine.Group>>)
    requires multiset(settled) + multiset(waiting) == multiset(Flatten(buckets))
    ensures multiset(settled + now) + multiset(waiting + more) == multiset(Flatten(buckets + [now + more]))
  {
    FlattenSnoc(buckets, now + more);
  }

  /** One resource of decision spans. */
  method DecisionSpans(decision: bool, ids: seq<TraceID>) returns (rs: ResourceSpans)
    ensures rs == Handoff.DecisionResource(decision, ids)
  {
    var spans: seq<Span> := [];
    var i := 0;
    while i < |ids|
      invariant i <= |ids| && |spans| == i
      invariant forall j :: 0 <= j < i ==> spans[j] == Handoff.DecisionSpan(ids[j])
    {
      spans := spans + [Span(ids[i], [], 0, 0, None, 0)];
      i := i + 1;
    }
    assert spans == Handoff.DecisionResource(decision, ids).scopeSpans[0].spans;
    rs := ResourceSpans(Resource(Some(decision), None, 0), [ScopeSpans(Scope(""), spans)]);
  }

  /** Counts one more flush on every resource. */
  method CountFlush(t: Traces) returns (r: Traces)
    ensures r == Handoff.BumpFlushes(t)
  {
    r := [];
    var i := 0;
    while i < |t|
      invariant i <= |t| && |r| == i
      invariant forall j :: 0 <= j < i ==> r[j] == Handoff.BumpFlushes(t)[j]
    {
      var res := t[i].resource;
      var flushes := if res.flushes.Some? then res.flushes.value else 0;
      assert res.(flushes := Some(flushes + 1)) == Handoff.OneMoreFlush(res);
      r := r + [t[i].(resource := res.(flushes := Some(flushes + 1)))];
      i := i + 1;
    }
  }

  /** What a flush sends of one tier. */
  method FlushTier(cfg: Engine.Config, tier: PendingTier) returns (sent: seq<Engine.Batch>)
    requires tier.Valid()
    ensures sent == Handoff.FlushTier(cfg, tier.entries.order, tier.entries.vals)
  {
    var keys := tier.cache.Keys();
    sent := [];
    var i := 0;
    while i < |keys|
      invariant i <= |keys|
      invariant forall k :: k in keys[..i] ==> k in tier.entries.vals
      invariant sent == Handoff.FlushTier(cfg, keys[..i], tier.entries.vals)
    {
      var k := keys[i];
      assert keys[..i + 1][..i] == keys[..i];
      assert HasValue(tier.cache.items[k], k, tier.entries.vals[k], tier.owned);
      var traces := tier.cache.items[k].GetTraces(cfg.codec);
      if traces.Ok? {
        var t := CountFlush(traces.value);
        sent := sent + [Engine.Batch(k, t)];
      }
      i := i + 1;
    }
    assert keys[..i] == keys;
  }
}
