/** The tiered cache as one map (internal/cache/tiered_cache.go): what its operations mean for the
    traces held, whichever tier they are in, and which of its cache operations really do something. */
module Tiered {
  import opened Pdata
  import opened TraceValues
  import opened Decider
  import opened Lru
  import opened Engine
  import opened Invariant

  /** Everything held, by trace ID. */
  ghost function Contents(s: State): map<TraceID, Entry> {
    s.secondary.vals + s.primary.vals
  }

  /** The entry that a put pushes out: the oldest of the tier it goes to, if that tier is full. */
  ghost function PutVictim(s: State, id: TraceID, e: Entry): Option<(TraceID, Entry)>
    requires s.primary.Valid() && s.secondary.Valid()
  {
    if e.meta.priority == Low then s.secondary.Victim(id, e) else s.primary.Victim(id, e)
  }

  lemma LookupIsMapLookup(s: State, id: TraceID)
    ensures TierLookup(s, id) == if id in Contents(s) then Some(Contents(s)[id]) else None
  {
  }

  lemma PrimaryDeleteContents(s: State, id: TraceID)
    requires CachesValid(s)
    ensures PrimaryDelete(s, id).primary.vals == s.primary.vals - {id}
    ensures PrimaryDelete(s, id).secondary == s.secondary
  {
    PrimaryDeleteEffect(s, id);
  }

  lemma SecondaryDeleteContents(s: State, id: TraceID)
    requires CachesValid(s)
    ensures SecondaryDelete(s, id).secondary.vals == s.secondary.vals - {id}
    ensures SecondaryDelete(s, id).primary == s.primary
  {
    SecondaryDeleteEffect(s, id);
  }

  /** `Put` overwrites the entry of its key in whichever tier it is and loses, of everything else,
      at most the one victim of the tier that the new entry goes to. */
  lemma PutIsMapPut(cfg: Config, s: State, id: TraceID, e: Entry)
    requires CachesValid(s) && TiersDisjoint(s)
    ensures var victim := PutVictim(s, id, e);
            Contents(TierPut(cfg, s, id, e)) ==
            if victim.None? then Contents(s)[id := e] else Contents(s)[id := e] - {victim.value.0}
  {
    if e.meta.priority == Low { PutLowIsMapPut(cfg, s, id, e); } else { PutHighIsMapPut(cfg, s, id, e); }
  }

  lemma PutLowIsMapPut(cfg: Config, s: State, id: TraceID, e: Entry)
    requires CachesValid(s) && TiersDisjoint(s) && e.meta.priority == Low
    ensures Contents(TierPut(cfg, s, id, e)) == Contents(s)[id := e] - Out(PutVictim(s, id, e))
  {
    var s1 := PrimaryDelete(s, id);
    PrimaryDeleteContents(s, id);
    PrimaryDeleteEffect(s, id);
    SecondaryPutContents(cfg, s1, id, e);
    PutLow(s.secondary.vals, s.primary.vals, id, e, Out(s.secondary.Victim(id, e)));
  }

  lemma PutHighIsMapPut(cfg: Config, s: State, id: TraceID, e: Entry)
    requires CachesValid(s) && TiersDisjoint(s) && e.meta.priority != Low
    ensures Contents(TierPut(cfg, s, id, e)) == Contents(s)[id := e] - Out(PutVictim(s, id, e))
  {
    var s1 := SecondaryDelete(s, id);
    SecondaryDeleteContents(s, id);
    SecondaryDeleteEffect(s, id);
    PrimaryPutContents(cfg, s1, id, e);
    PutHigh(s.secondary.vals, s.primary.vals, id, e, Out(s.primary.Victim(id, e)));
  }

  /** The key of a victim, if there is one. */
  ghost function Out(victim: Option<(TraceID, Entry)>): set<TraceID> {
    if victim.Some? then {victim.value.0} else {}
  }

  lemma PrimaryPutContents(cfg: Config, s: State, id: TraceID, e: Entry)
    requires CachesValid(s)
    ensures var s', victim := PrimaryPut(cfg, s, id, e), s.primary.Victim(id, e);
            && s'.secondary == s.secondary
            && s'.primary.vals == s.primary.vals[id := e] - Out(victim)
    ensures s.primary.Victim(id, e).Some? ==> s.primary.Victim(id, e).value.0 in s.primary.vals.Keys + {id}
  {
    AddedValid(s.primary, id, e);
    if s.primary.Victim(id, e).Some? && s.primary.order != [] { assert s.primary.order[0] in s.primary.order; }
  }

  lemma SecondaryPutContents(cfg: Config, s: State, id: TraceID, e: Entry)
    requires CachesValid(s)
    ensures var s', victim := SecondaryPut(cfg, s, id, e), s.secondary.Victim(id, e);
            && s'.primary == s.primary
            && s'.secondary.vals == s.secondary.vals[id := e] - Out(victim)
    ensures s.secondary.Victim(id, e).Some? ==> s.secondary.Victim(id, e).value.0 in s.secondary.vals.Keys + {id}
  {
    AddedValid(s.secondary, id, e);
    if s.secondary.Victim(id, e).Some? && s.secondary.order != [] { assert s.secondary.order[0] in s.secondary.order; }
  }

  lemma PutLow(low: map<TraceID, Entry>, high: map<TraceID, Entry>, id: TraceID, e: Entry, out: set<TraceID>)
    requires low.Keys !! high.Keys && out <= low.Keys + {id}
    ensures (low[id := e] - out) + (high - {id}) == (low + high)[id := e] - out
  {
  }

  lemma PutHigh(low: map<TraceID, Entry>, high: map<TraceID, Entry>, id: TraceID, e: Entry, out: set<TraceID>)
    requires low.Keys !! high.Keys && out <= high.Keys + {id}
    ensures (low - {id}) + (high[id := e] - out) == (low + high)[id := e] - out
  {
  }

  lemma DeleteIsMapDelete(s: State, id: TraceID)
    requires CachesValid(s)
    ensures Contents(TierDelete(s, id)) == Contents(s) - {id}
  {
    PrimaryDeleteContents(s, id);
    PrimaryDeleteEffect(s, id);
    SecondaryDeleteContents(PrimaryDelete(s, id), id);
  }

  /** The victim of a put is on record as not sampled when the put returns. */
  lemma PutVictimIsRecorded(cfg: Config, s: State, id: TraceID, e: Entry)
    requires CachesValid(s) && TiersDisjoint(s) && TiersAgree(s, {id}) && Exclusive(s) && id !in Decided(s)
    requires id in s.primary.vals ==> e.meta.priority != Low
    requires id in s.secondary.vals ==> s.secondary.vals[id] == e
    requires PutVictim(s, id, e).Some?
    ensures Effective(TierPut(cfg, s, id, e), PutVictim(s, id, e).value.0) == NotSampled
  {
    var (x, v) := PutVictim(s, id, e).value;
    if e.meta.priority == Low {
      assert PrimaryDelete(s, id) == s;
      var s1 := Drop(s.(secondary := s.secondary.Added(id, e)), x, Decoded(cfg, v));
      if s.secondary.order != [] { assert x in s.secondary.order; }
      AddedValid(s.secondary, id, e);
      CacheEvictionNotes(s1, x);
    } else {
      SecondaryDeleteEffect(s, id);
      var s0 := SecondaryDelete(s, id);
      assert s0.primary == s.primary && s0.sampled == s.sampled && s0.notSampled == s.notSampled;
      var s1 := Drop(s0.(primary := s.primary.Added(id, e)), x, Decoded(cfg, v));
      if s.primary.order != [] { assert x in s.primary.order; }
      AddedValid(s.primary, id, e);
      CacheEvictionNotes(s1, x);
    }
  }

  /** Absorbing a batch while the object still sits in its tier never leads to a demotion; in the
      Low branch of `Put` the deletion from the primary cache does nothing; and in the other branch
      the deletion from the secondary cache, a promotion, records no decision. */
  lemma PromotionIsSilent(s: State, id: TraceID, td: Entry)
    requires Inv(s) && TierLookup(s, id).Some?
    ensures var e := AbsorbEntry(TierLookup(s, id).value, td);
            var s1 := TierMutated(s, id, e);
            && (id in s.primary.vals ==> e.meta.priority != Low)
            && (e.meta.priority == Low ==> id in s.secondary.vals && PrimaryDelete(s1, id) == s1)
            && (e.meta.priority != Low ==>
                  SecondaryDelete(s1, id) == s1.(secondary := s1.secondary.Removed(id)))
  {
    if id in s.primary.vals { assert id !in s.secondary.vals; }
  }

  /** So a trace moves up at most once and never down: whatever is held afterwards for a trace that
      was in the primary cache is in the primary cache. */
  lemma NeverDemoted(cfg: Config, s: State, g: Group, now: int, env: nat)
    requires Inv(s) && g.id in s.primary.vals
    ensures g.id !in ProcessGroup(cfg, s, g, now, env).secondary.vals
  {
    CheckedNotes(s, g.id);
    if Effective(s, g.id) == Unevaluated {
      var s1 := Checked(s, g.id);
      if g.resource.decision.None? {
        EvaluateKeeps(cfg, s1, g, now, env);
      } else if g.resource.decision.value {
        DecisionTrueKeeps(cfg, s1, g.id);
      } else {
        ReleaseNotSampledKeeps(cfg, s1, g.id, None);
      }
    }
  }
}
