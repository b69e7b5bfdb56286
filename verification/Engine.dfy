/** The tail-sampling engine as a state machine over values: two tiers of pending traces, two
    decision caches, and the steps of processor.go that change them. Every function follows the
    code in the order of its cache operations; the eviction callbacks run where the cache library
    runs them, after the entry has left. */
module Engine {
  import opened Pdata
  import opened Grouping
  import opened TraceValues
  import opened Decider
  import opened Lru

  datatype Config = Config(compress: bool, codec: Codec, policies: seq<Policy>)

  /** The spans of one trace within one ResourceSpans. */
  datatype Group = Group(id: TraceID, resource: Resource, spans: seq<SpanAndScope>)

  datatype Batch = Batch(id: TraceID, traces: Traces)

  datatype Placeholder = Placeholder(id: TraceID, policy: string)

  /** `exported` is what the next consumer was handed, `dropped` what was let go of for good (it is
      recorded here for the theorems; the code just forgets it), `inflight` the groups that have
      been checked early and wait for a shard. */
  datatype State = State(
    primary: Lru<Entry>, secondary: Lru<Entry>,
    sampled: Lru<()>, notSampled: Lru<()>,
    exported: seq<Batch>, dropped: seq<Batch>, placeholders: seq<Placeholder>,
    inflight: seq<Group>)

  // ----- outputs -----

  /** `sendSampledTraceData` takes the flush count off every resource. */
  function StripFlushes(t: Traces): Traces {
    seq(|t|, i requires 0 <= i < |t| => t[i].(resource := t[i].resource.(flushes := None)))
  }

  function Export(s: State, id: TraceID, t: Traces): State {
    s.(exported := s.exported + [Batch(id, StripFlushes(t))])
  }

  function Drop(s: State, id: TraceID, t: Traces): State {
    s.(dropped := s.dropped + [Batch(id, t)])
  }

  function Decoded(cfg: Config, e: Entry): Traces {
    match GetTraces(cfg.codec, e.data)
    case Ok(t) => t
    case Err(_) => []
  }

  // ----- decision caches and eviction callbacks -----

  /** `safeCheckDecisionCaches`: the sampled cache is asked first. */
  function Effective(s: State, id: TraceID): Decision {
    if id in s.sampled.vals then Sampled
    else if id in s.notSampled.vals then NotSampled
    else Unevaluated
  }

  /** A check also makes the entry it finds the newest. */
  function Checked(s: State, id: TraceID): State {
    if id in s.sampled.vals then s.(sampled := s.sampled.Touched(id))
    else s.(notSampled := s.notSampled.Touched(id))
  }

  /** `cacheEvictionCallback`: an ID that no decision cache knows is recorded as not sampled. */
  function CacheEviction(s: State, id: TraceID): (r: State)
    ensures r.inflight == s.inflight
  {
    var s1 := s.(sampled := s.sampled.Touched(id), notSampled := s.notSampled.Touched(id));
    if id in s.sampled.vals || id in s.notSampled.vals then s1
    else s1.(notSampled := s1.notSampled.Added(id, ()))
  }

  function PrimaryEvicted(s: State, id: TraceID, e: Entry): (r: State)
    ensures r.inflight == s.inflight
  {
    CacheEviction(s, id)
  }

  /** `secondaryEvictionCallback`: an entry whose priority is no longer Low is being promoted. */
  function SecondaryEvicted(s: State, id: TraceID, e: Entry): (r: State)
    ensures r.inflight == s.inflight
  {
    if e.meta.priority == Low then CacheEviction(s, id) else s
  }

  // ----- one cache operation together with its callback -----

  function PrimaryDelete(s: State, id: TraceID): (r: State)
    ensures r.inflight == s.inflight
  {
    if id in s.primary.vals then
      PrimaryEvicted(s.(primary := s.primary.Removed(id)), id, s.primary.vals[id])
    else s
  }

  function SecondaryDelete(s: State, id: TraceID): (r: State)
    ensures r.inflight == s.inflight
  {
    if id in s.secondary.vals then
      SecondaryEvicted(s.(secondary := s.secondary.Removed(id)), id, s.secondary.vals[id])
    else s
  }

  function PrimaryPut(cfg: Config, s: State, id: TraceID, e: Entry): (r: State)
    requires s.primary.Valid()
    ensures r.inflight == s.inflight
  {
    var s1 := s.(primary := s.primary.Added(id, e));
    match s.primary.Victim(id, e)
    case None => s1
    case Some((x, v)) => PrimaryEvicted(Drop(s1, x, Decoded(cfg, v)), x, v)
  }

  function SecondaryPut(cfg: Config, s: State, id: TraceID, e: Entry): (r: State)
    requires s.secondary.Valid()
    ensures r.inflight == s.inflight
  {
    var s1 := s.(secondary := s.secondary.Added(id, e));
    match s.secondary.Victim(id, e)
    case None => s1
    case Some((x, v)) => SecondaryEvicted(Drop(s1, x, Decoded(cfg, v)), x, v)
  }

  /** The callbacks of a resize, oldest victim first. */
  function EvictAll(cfg: Config, s: State, victims: seq<(TraceID, Entry)>): (r: State)
    ensures r.inflight == s.inflight
  {
    if victims == [] then s
    else
      var s1 := EvictAll(cfg, s, victims[..|victims| - 1]);
      var (x, v) := victims[|victims| - 1];
      PrimaryEvicted(Drop(s1, x, Decoded(cfg, v)), x, v)
  }

  function PrimaryResize(cfg: Config, s: State, n: nat): (r: State)
    requires s.primary.Valid()
    ensures r.inflight == s.inflight
  {
    EvictAll(cfg, s.(primary := s.primary.Resized(n)), s.primary.Victims(n))
  }

  // ----- the tiered cache -----

  function TierLookup(s: State, id: TraceID): Option<Entry> {
    if id in s.primary.vals then Some(s.primary.vals[id])
    else if id in s.secondary.vals then Some(s.secondary.vals[id])
    else None
  }

  function TierTouched(s: State, id: TraceID): (r: State)
    ensures r.inflight == s.inflight
  {
    if id in s.primary.vals then s.(primary := s.primary.Touched(id))
    else s.(secondary := s.secondary.Touched(id))
  }

  /** Mutating the object that `TierLookup` returned changes it where it is held. */
  function TierMutated(s: State, id: TraceID, e: Entry): (r: State)
    requires TierLookup(s, id).Some?
    ensures r.inflight == s.inflight
  {
    if id in s.primary.vals then s.(primary := s.primary.Mutated(id, e))
    else s.(secondary := s.secondary.Mutated(id, e))
  }

  function TierPut(cfg: Config, s: State, id: TraceID, e: Entry): (r: State)
    requires s.primary.Valid() && s.secondary.Valid()
    ensures r.inflight == s.inflight
  {
    if e.meta.priority == Low then SecondaryPut(cfg, PrimaryDelete(s, id), id, e)
    else PrimaryPut(cfg, SecondaryDelete(s, id), id, e)
  }

  function TierDelete(s: State, id: TraceID): (r: State)
    ensures r.inflight == s.inflight
  {
    SecondaryDelete(PrimaryDelete(s, id), id)
  }

  // ----- steps -----

  function DropHeld(cfg: Config, s: State, id: TraceID): (r: State)
    ensures r.inflight == s.inflight
  {
    match TierLookup(s, id)
    case None => s
    case Some(e) => Drop(s, id, Decoded(cfg, e))
  }

  /** `releaseNotSampledTrace`: the decision is recorded first, so that the callbacks of the
      deletion find it. */
  function ReleaseNotSampled(cfg: Config, s: State, id: TraceID, placeholder: Option<string>): (r: State)
    ensures r.inflight == s.inflight
  {
    var s1 := if placeholder.Some? then s.(placeholders := s.placeholders + [Placeholder(id, placeholder.value)])
        else s;
    var s2 := s1.(notSampled := s1.notSampled.Added(id, ()));
    TierDelete(DropHeld(cfg, s2, id), id)
  }

  /** Sends the traces held for `id`. If they do not decode, nothing is sent, or an empty batch if
      `always`. */
  function SendHeld(cfg: Config, s: State, id: TraceID, e: Entry, always: bool): (r: State)
    ensures r == s.(exported := r.exported)
  {
    match GetTraces(cfg.codec, e.data)
    case Ok(t) => Export(s, id, t)
    case Err(_) => if always then Export(s, id, []) else s
  }

  /** Sends the traces held for `id` and deletes the entry. */
  function ExportHeld(cfg: Config, s: State, id: TraceID, e: Entry, always: bool): (r: State)
    ensures r.inflight == s.inflight
  {
    TierDelete(SendHeld(cfg, s, id, e, always), id)
  }

  /** A true decision span: pending data is sent and deleted BEFORE the decision is recorded, so
      the deletion's callback takes it for a natural eviction. */
  function DecisionTrue(cfg: Config, s: State, id: TraceID): (r: State)
    ensures r.inflight == s.inflight
  {
    var s1 := match TierLookup(s, id)
              case None => s
              case Some(e) => ExportHeld(cfg, TierTouched(s, id), id, e, true);
    s1.(sampled := s1.sampled.Added(id, ()))
  }

  /** Sampled by a policy: the decision is recorded first. */
  function ReleaseSampled(cfg: Config, s: State, id: TraceID, held: Option<Entry>, batch: Traces): (r: State)
    ensures r.inflight == s.inflight
  {
    var s1 := s.(sampled := s.sampled.Added(id, ()));
    var s2 := match held
              case None => s1
              case Some(e) => ExportHeld(cfg, s1, id, e, false);
    Export(s2, id, batch)
  }

  /** What a low-priority verdict does to the new batch before it is held. */
  function Lowered(td: Entry, merged: Meta, v: Verdict): Entry {
    if v.decision == LowPriority then
      td.(meta := td.meta.(priority := Low, lastLow := if merged.lastLow.None? then v.policy else merged.lastLow))
    else td
  }

  /** Still pending: the batch is absorbed by the object that is already held, where it is held,
      and that object is then put into the tier of its priority. */
  function Hold(cfg: Config, s: State, id: TraceID, td: Entry, held: Option<Entry>): (r: State)
    requires held == TierLookup(s, id)
    requires s.primary.Valid() && s.secondary.Valid()
    ensures r.inflight == s.inflight
  {
    match held
    case None => TierPut(cfg, s, id, td)
    case Some(e) =>
      var merged := AbsorbEntry(e, td);
      TierPut(cfg, TierMutated(s, id, merged), id, merged)
  }

  /** The switch over the final decision: `td` is the new batch, `held` what is held already. */
  function Act(cfg: Config, s: State, id: TraceID, batch: Traces, td: Entry, held: Option<Entry>,
      v: Verdict): (r: State)
    requires held == TierLookup(s, id)
    requires s.primary.Valid() && s.secondary.Valid()
    ensures r.inflight == s.inflight
  {
    if v.decision == Sampled then ReleaseSampled(cfg, s, id, held, batch)
    else if v.decision == NotSampled then
      Drop(ReleaseNotSampled(cfg, s, id, if v.emit then v.policy else None), id, batch)
    else Hold(cfg, s, id, td, held)
  }

  function BatchOf(g: Group): Traces {
    MoveToTraces(g.resource, g.spans)
  }

  function VerdictFor(cfg: Config, s: State, g: Group, now: int, env: nat): Verdict {
    Decide(cfg.policies, env, g.id, BatchOf(g), MergedMeta(now, BatchOf(g), TierLookup(s, g.id)))
  }

  /** The part of `processTraces` after the decision caches had no answer. */
  function Evaluate(cfg: Config, s: State, g: Group, now: int, env: nat): (r: State)
    requires s.primary.Valid() && s.secondary.Valid()
    ensures r.inflight == s.inflight
  {
    var batch := BatchOf(g);
    match NewEntry(cfg.compress, cfg.codec, now, batch)
    case Err(_) => s
    case Ok(td) =>
      var held := TierLookup(s, g.id);
      var s1 := TierTouched(s, g.id);
      var merged := MergedMeta(now, batch, held);
      var v := VerdictFor(cfg, s, g, now, env);
      TouchedKeeps(s, g.id);
      Act(cfg, s1, g.id, batch, Lowered(td, merged, v), held, v)
  }

  lemma EvaluateIsAct(cfg: Config, s: State, g: Group, now: int, env: nat, td: Entry, lowered: Entry)
    requires s.primary.Valid() && s.secondary.Valid()
    requires NewEntry(cfg.compress, cfg.codec, now, BatchOf(g)) == Ok(td)
    requires lowered == Lowered(td, MergedMeta(now, BatchOf(g), TierLookup(s, g.id)), VerdictFor(cfg, s, g, now, env))
    ensures var s1 := TierTouched(s, g.id);
            && s1.primary.Valid() && s1.secondary.Valid() && TierLookup(s1, g.id) == TierLookup(s, g.id)
            && s1.primary.vals == s.primary.vals && s1.secondary.vals == s.secondary.vals
            && Evaluate(cfg, s, g, now, env)
               == Act(cfg, s1, g.id, BatchOf(g), lowered, TierLookup(s1, g.id), VerdictFor(cfg, s, g, now, env))
  {
    TouchedKeeps(s, g.id);
  }

  lemma TouchedKeeps(s: State, id: TraceID)
    requires s.primary.Valid() && s.secondary.Valid()
    ensures var s' := TierTouched(s, id);
            && s'.primary.Valid() && s'.secondary.Valid()
            && s'.primary.vals == s.primary.vals && s'.secondary.vals == s.secondary.vals
            && TierLookup(s', id) == TierLookup(s, id)
  {
    TouchedValid(s.primary, id);
    TouchedValid(s.secondary, id);
  }

  /** A group of a decided trace is sent on or let go of; a decision span of one is ignored. */
  function ApplyKnown(s: State, g: Group, d: Decision): (r: State)
    ensures r.inflight == s.inflight
  {
    if g.resource.decision.Some? then s
    else if d == Sampled then Export(s, g.id, BatchOf(g))
    else if d == NotSampled then Drop(s, g.id, BatchOf(g))
    else s
  }

  /** `cachedDecision`: the state after it, if it deals with the group. */
  function CachedDecision(cfg: Config, s: State, g: Group): (r: Option<State>)
    ensures r.Some? ==> r.value.inflight == s.inflight
  {
    var s1 := Checked(s, g.id);
    var known := Effective(s, g.id);
    if known != Unevaluated then Some(ApplyKnown(s1, g, known))
    else if g.resource.decision.None? then None
    else if g.resource.decision.value then Some(DecisionTrue(cfg, s1, g.id))
    else Some(ReleaseNotSampled(cfg, s1, g.id, None))
  }

  /** One group in `processTraces`: `cachedDecision`, then the evaluation. */
  function ProcessGroup(cfg: Config, s: State, g: Group, now: int, env: nat): (r: State)
    requires s.primary.Valid() && s.secondary.Valid()
    ensures r.inflight == s.inflight
  {
    match CachedDecision(cfg, s, g)
    case Some(s1) => s1
    case None => Evaluate(cfg, Checked(s, g.id), g, now, env)
  }

  /** `earlyDecisionChecks` for one group: a known decision is applied at once, anything else, and
      every decision span, goes to a shard. */
  function EarlyCheck(s: State, g: Group): State {
    if g.resource.decision.Some? then s.(inflight := s.inflight + [g])
    else
      var s1 := Checked(s, g.id);
      var known := Effective(s, g.id);
      if known == Sampled then Export(s1, g.id, BatchOf(g))
      else if known == NotSampled then Drop(s1, g.id, BatchOf(g))
      else s1.(inflight := s1.inflight + [g])
  }

  /** A run receives groups, processes any group in flight (a channel's order is one choice among
      these), and resizes the primary cache. The decision-affecting inputs `now` and `env` and the
      new size are arbitrary. */
  datatype Step = Receive(g: Group) | Process(i: nat, now: int, env: nat) | Regulate(size: nat)

  function WithoutIndex(q: seq<Group>, i: nat): seq<Group>
    requires i < |q|
  {
    q[..i] + q[i + 1..]
  }

  function Next(cfg: Config, s: State, step: Step): State
    requires s.primary.Valid() && s.secondary.Valid()
  {
    match step
    case Receive(g) => EarlyCheck(s, g)
    case Process(i, now, env) =>
      if i < |s.inflight| then
        ProcessGroup(cfg, s.(inflight := WithoutIndex(s.inflight, i)), s.inflight[i], now, env)
      else s
    case Regulate(size) => PrimaryResize(cfg, s, size)
  }

  function Initial(primaryCap: nat, secondaryCap: nat, sampledCap: nat, notSampledCap: nat): State {
    State(Empty(primaryCap), Empty(secondaryCap), Empty(sampledCap), Empty(notSampledCap), [], [], [], [])
  }
}
