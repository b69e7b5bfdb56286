/** Shutdown flush and decision hand-off: a fresh processor that is fed another's decision spans
    makes the same decisions. */
module Handoff {
  import opened Pdata
  import opened Grouping
  import opened TraceValues
  import opened Decider
  import opened Lru
  import opened Engine
  import opened Invariant
  import opened AllOrNothing
  import opened Conservation

  // ----- what a flush sends -----

  function DecisionSpan(id: TraceID): Span {
    Span(id, [], 0, 0, None, 0)
  }

  /** One resource whose attribute is the decision, with one span per trace ID. */
  function DecisionResource(decision: bool, ids: seq<TraceID>): ResourceSpans {
    ResourceSpans(Resource(Some(decision), None, 0),
                  [ScopeSpans(Scope(""), seq(|ids|, i requires 0 <= i < |ids| => DecisionSpan(ids[i])))])
  }

  /** The sampled decisions, then the not-sampled ones, each oldest first. */
  function FlushDecisions(s: State): Traces {
    [DecisionResource(true, s.sampled.order), DecisionResource(false, s.notSampled.order)]
  }

  function BumpFlushes(t: Traces): Traces {
    seq(|t|, i requires 0 <= i < |t| => t[i].(resource := OneMoreFlush(t[i].resource)))
  }

  function OneMoreFlush(r: Resource): Resource {
    r.(flushes := Some((if r.flushes.Some? then r.flushes.value else 0) + 1))
  }

  /** The pending traces of a tier that decode, oldest first, each with its flush count incremented. */
  function FlushTier(cfg: Config, order: seq<TraceID>, vals: map<TraceID, Entry>): seq<Batch>
    requires forall k :: k in order ==> k in vals
  {
    if order == [] then []
    else
      var k := order[|order| - 1];
      assert forall j :: j in order[..|order| - 1] ==> j in order;
      FlushEntry(cfg, FlushTier(cfg, order[..|order| - 1], vals), k, vals[k])
  }

  /** Adds what is sent for one entry to `before`. */
  function FlushEntry(cfg: Config, before: seq<Batch>, k: TraceID, e: Entry): seq<Batch> {
    match GetTraces(cfg.codec, e.data)
    case Ok(t) => before + [Batch(k, BumpFlushes(t))]
    case Err(_) => before
  }

  function FlushHeld(cfg: Config, s: State): seq<Batch>
    requires s.primary.Valid() && s.secondary.Valid()
  {
    FlushTier(cfg, s.primary.order, s.primary.vals) + FlushTier(cfg, s.secondary.order, s.secondary.vals)
  }

  lemma {:induction false} BumpKeepsSpans(t: Traces)
    ensures Spans(BumpFlushes(t)) == Spans(t)
  {
    if t != [] {
      var n := |t| - 1;
      BumpKeepsSpans(t[..n]);
      var last := BumpFlushes(t)[n];
      assert BumpFlushes(t)[..n] == BumpFlushes(t[..n]);
      SameSpans(last.resource, t[n].resource, t[n].scopeSpans);
      SpansOfConcat(Items(t[..n]), ScopesItems(t[n].resource, t[n].scopeSpans));
      SpansOfConcat(Items(BumpFlushes(t[..n])), ScopesItems(last.resource, last.scopeSpans));
    }
  }

  lemma {:induction false} FlushTierCount(cfg: Config, order: seq<TraceID>, vals: map<TraceID, Entry>, x: Span)
    requires forall k :: k in order ==> k in vals
    ensures BatchesCount(FlushTier(cfg, order, vals), x) == OrderCount(cfg, order, vals, x)
  {
    if order != [] {
      var n := |order| - 1;
      assert forall j :: j in order[..n] ==> j in order;
      FlushTierCount(cfg, order[..n], vals, x);
      FlushEntryCount(cfg, FlushTier(cfg, order[..n], vals), order[n], vals[order[n]], x);
    }
  }

  lemma FlushEntryCount(cfg: Config, before: seq<Batch>, k: TraceID, e: Entry, x: Span)
    ensures BatchesCount(FlushEntry(cfg, before, k, e), x) == BatchesCount(before, x) + EntryCount(cfg, e, x)
  {
    match GetTraces(cfg.codec, e.data)
    case Ok(t) =>
      BatchesCountSnoc(before, Batch(k, BumpFlushes(t)), x);
      BumpKeepsSpans(t);
    case Err(_) =>
      assert EntryCount(cfg, e, x) == Count([], x) == 0;
  }

  lemma BatchesCountSnoc(a: seq<Batch>, b: Batch, x: Span)
    ensures BatchesCount(a + [b], x) == BatchesCount(a, x) + Count(b.traces, x)
  {
    assert (a + [b])[..|a|] == a;
  }

  lemma {:induction false} BatchesCountConcat(a: seq<Batch>, b: seq<Batch>, x: Span)
    ensures BatchesCount(a + b, x) == BatchesCount(a, x) + BatchesCount(b, x)
  {
    if b == [] {
      assert a + b == a;
    } else {
      BatchesCountConcat(a, b[..|b| - 1], x);
      assert (a + b)[..|a + b| - 1] == a + b[..|b| - 1];
    }
  }

  /** A flush sends every held span exactly as often as it is held. */
  lemma FlushSendsAllHeld(cfg: Config, s: State, x: Span)
    requires Inv(s)
    ensures BatchesCount(FlushHeld(cfg, s), x) == HeldCount(cfg, s, x)
  {
    FlushTierCount(cfg, s.primary.order, s.primary.vals, x);
    FlushTierCount(cfg, s.secondary.order, s.secondary.vals, x);
    BatchesCountConcat(FlushTier(cfg, s.primary.order, s.primary.vals),
        FlushTier(cfg, s.secondary.order, s.secondary.vals), x);
  }

  /** `sent` is `t` with the flush count of every resource raised by one, from 0 if it had none, and
      nothing else changed. */
  ghost predicate IsFlushed(t: Traces, sent: Traces) {
    && |sent| == |t|
    && (forall i :: 0 <= i < |t| ==> IsFlushedOf(t[i], sent[i]))
  }

  ghost predicate IsFlushedOf(rs: ResourceSpans, sent: ResourceSpans) {
    && sent.scopeSpans == rs.scopeSpans
    && sent.resource.decision == rs.resource.decision && sent.resource.attributes == rs.resource.attributes
    && (match rs.resource.flushes
        case None => sent.resource.flushes == Some(1)
        case Some(n) => sent.resource.flushes == Some(n + 1))
  }

  lemma BumpIsFlushed(t: Traces, sent: Traces)
    ensures IsFlushed(t, sent) <==> sent == BumpFlushes(t)
  {
  }

  /** The batch that a flush sends for an entry. */
  ghost predicate IsFlushOf(cfg: Config, e: Entry, b: Batch) {
    GetTraces(cfg.codec, e.data).Ok? && IsFlushed(GetTraces(cfg.codec, e.data).value, b.traces)
  }

  ghost predicate FlushesOf(cfg: Config, ids: seq<TraceID>, vals: map<TraceID, Entry>, sent: seq<Batch>) {
    && (forall i :: 0 <= i < |sent| ==>
          sent[i].id in ids && sent[i].id in vals && IsFlushOf(cfg, vals[sent[i].id], sent[i]))
    && (forall i, j :: 0 <= i < j < |sent| ==> sent[i].id != sent[j].id)
    && (forall k :: k in ids && k in vals && GetTraces(cfg.codec, vals[k].data).Ok? ==> HasBatch(sent, k))
  }

  ghost predicate HasBatch(sent: seq<Batch>, k: TraceID) {
    exists i :: 0 <= i < |sent| && sent[i].id == k
  }

  lemma {:induction false} FlushTierIs(cfg: Config, order: seq<TraceID>, vals: map<TraceID, Entry>)
    requires (forall k :: k in order ==> k in vals) && NoDup(order)
    ensures FlushesOf(cfg, order, vals, FlushTier(cfg, order, vals))
  {
    if order != [] {
      var init, k := order[..|order| - 1], order[|order| - 1];
      assert forall j :: j in init ==> j in order;
      FlushTierIs(cfg, init, vals);
      FlushEntryIs(cfg, init, vals, FlushTier(cfg, init, vals), k);
      assert order == init + [k];
    }
  }

  lemma FlushEntryIs(cfg: Config, ids: seq<TraceID>, vals: map<TraceID, Entry>, before: seq<Batch>, k: TraceID)
    requires FlushesOf(cfg, ids, vals, before) && k !in ids && k in vals
    ensures FlushesOf(cfg, ids + [k], vals, FlushEntry(cfg, before, k, vals[k]))
  {
    var sent := FlushEntry(cfg, before, k, vals[k]);
    var t := GetTraces(cfg.codec, vals[k].data);
    if t.Ok? {
      BumpIsFlushed(t.value, BumpFlushes(t.value));
      assert sent[|before|].id == k;
    }
    forall j | j in ids + [k] && j in vals && GetTraces(cfg.codec, vals[j].data).Ok? ensures HasBatch(sent, j) {
      if j in ids {
        var i :| 0 <= i < |before| && before[i].id == j;
        assert sent[i] == before[i];
      }
    }
  }

  /** A flush sends one batch for every held trace that decodes, and no other: what it decodes to, with
      the flush counts raised. */
  lemma FlushHeldIs(cfg: Config, s: State)
    requires Inv(s)
    ensures FlushesOf(cfg, s.primary.order + s.secondary.order, s.primary.vals + s.secondary.vals, FlushHeld(cfg, s))
  {
    FlushTierIs(cfg, s.primary.order, s.primary.vals);
    FlushTierIs(cfg, s.secondary.order, s.secondary.vals);
    FlushesConcat(cfg, s.primary.order, s.primary.vals, FlushTier(cfg, s.primary.order, s.primary.vals),
        s.secondary.order, s.secondary.vals, FlushTier(cfg, s.secondary.order, s.secondary.vals));
  }

  lemma FlushesConcat(cfg: Config, o1: seq<TraceID>, v1: map<TraceID, Entry>, b1: seq<Batch>,
                      o2: seq<TraceID>, v2: map<TraceID, Entry>, b2: seq<Batch>)
    requires FlushesOf(cfg, o1, v1, b1) && FlushesOf(cfg, o2, v2, b2)
    requires v1.Keys !! v2.Keys && (forall k :: k in o1 ==> k in v1) && (forall k :: k in o2 ==> k in v2)
    ensures FlushesOf(cfg, o1 + o2, v1 + v2, b1 + b2)
  {
    forall k | k in o1 + o2 && k in v1 + v2 && GetTraces(cfg.codec, (v1 + v2)[k].data).Ok?
      ensures HasBatch(b1 + b2, k)
    {
      if k in o1 {
        var i :| 0 <= i < |b1| && b1[i].id == k;
        assert (b1 + b2)[i] == b1[i];
      } else {
        var i :| 0 <= i < |b2| && b2[i].id == k;
        assert (b1 + b2)[|b1| + i] == b2[i];
      }
    }
  }

  // ----- receiving decision spans -----

  /** Processing decision-span groups one after another. */
  ghost function Deliver(cfg: Config, s: State, gs: seq<Group>): (s': State)
    requires Inv(s)
    ensures Inv(s')
  {
    if gs == [] then s
    else
      var s1 := Deliver(cfg, s, gs[..|gs| - 1]);
      ProcessGroupKeeps(cfg, s1, gs[|gs| - 1], 0, 0);
      ProcessGroup(cfg, s1, gs[|gs| - 1], 0, 0)
  }

  /** The decision of the first group for `id`, if any. */
  ghost function FirstDecision(gs: seq<Group>, id: TraceID): Option<bool> {
    if gs == [] then None
    else
      var before, last := FirstDecision(gs[..|gs| - 1], id), gs[|gs| - 1];
      if before.Some? then before else if last.id == id then last.resource.decision else None
  }

  ghost predicate Follows(d: Decision, first: Option<bool>) {
    match first
    case None => d == Unevaluated
    case Some(b) => d == if b then Sampled else NotSampled
  }

  /** A processor with nothing pending, with room for all of `u` among the sampled decisions and for
      all of `w` among the others. */
  ghost predicate Blank(s: State, u: set<TraceID>, w: set<TraceID>) {
    Inv(s) && Held(s) == {} && Roomy(s.sampled, u) && Roomy(s.notSampled, w)
  }

  /** Decision spans: true ones for IDs of `u`, false ones for IDs of `w` or after a true one for the
      same ID. */
  ghost predicate Fit(gs: seq<Group>, u: set<TraceID>, w: set<TraceID>) {
    forall i :: 0 <= i < |gs| ==> gs[i].resource.decision.Some? && FitsAt(gs, i, u, w)
  }

  ghost predicate FitsAt(gs: seq<Group>, i: nat, u: set<TraceID>, w: set<TraceID>)
    requires i < |gs|
  {
    if gs[i].resource.decision == Some(true) then gs[i].id in u
    else gs[i].id in w || Delivers(gs[..i], gs[i].id, true)
  }

  ghost predicate Delivers(gs: seq<Group>, id: TraceID, d: bool) {
    exists i :: 0 <= i < |gs| && gs[i].id == id && gs[i].resource.decision == Some(d)
  }

  /** The effective decision after `first` has arrived for a trace decided as `d` before. */
  ghost function Resolved(d: Decision, first: Option<bool>): Decision {
    if d != Unevaluated || first.None? then d else if first.value then Sampled else NotSampled
  }

  /** A decision span for a decided trace is ignored; for an undecided one, with nothing pending, it
      only adds to the cache of its decision. */
  lemma DeliverEffect(cfg: Config, s: State, g: Group)
    requires Inv(s) && Held(s) == {} && g.resource.decision.Some?
    ensures ProcessGroup(cfg, s, g, 0, 0) ==
            if Effective(s, g.id) != Unevaluated then Checked(s, g.id)
            else if g.resource.decision.value then s.(sampled := s.sampled.Added(g.id, ()))
            else s.(notSampled := s.notSampled.Added(g.id, ()))
  {
    assert g.id !in s.primary.vals && g.id !in s.secondary.vals by {
      assert g.id !in Held(s);
    }
  }

  lemma DeliverOne(cfg: Config, s: State, g: Group, u: set<TraceID>, w: set<TraceID>)
    requires Blank(s, u, w) && g.resource.decision.Some?
    requires Effective(s, g.id) == Unevaluated ==> g.id in if g.resource.decision.value then u else w
    ensures var s' := ProcessGroup(cfg, s, g, 0, 0);
            && Blank(s', u, w) && Both(s') <= Both(s)
            && (forall x :: x != g.id ==> Effective(s', x) == Effective(s, x))
            && Effective(s', g.id) == Resolved(Effective(s, g.id), g.resource.decision)
  {
    ProcessGroupKeeps(cfg, s, g, 0, 0);
    DeliverEffect(cfg, s, g);
    if Effective(s, g.id) != Unevaluated {
      TouchRoomy(s.sampled, g.id, u);
      TouchRoomy(s.notSampled, g.id, w);
    } else if g.resource.decision.value {
      AddRoomy(s.sampled, g.id, (), u);
    } else {
      AddRoomy(s.notSampled, g.id, (), w);
    }
  }

  lemma {:induction false} FirstOfDelivered(gs: seq<Group>, id: TraceID, d: bool)
    requires (forall i :: 0 <= i < |gs| ==> gs[i].resource.decision.Some?) && Delivers(gs, id, d)
    ensures FirstDecision(gs, id).Some?
  {
    var k := FirstDecisionAt(gs, id);
  }

  /** Whatever the order of delivery, each undecided trace gets the decision that is delivered first,
      and each decided one keeps its own. */
  lemma {:induction false} FirstDecisionWins(cfg: Config, s: State, gs: seq<Group>, u: set<TraceID>, w: set<TraceID>)
    requires Blank(s, u, w) && Fit(gs, u, w)
    ensures var s' := Deliver(cfg, s, gs);
            && Blank(s', u, w) && Both(s') <= Both(s)
            && (forall id :: Effective(s', id) == Resolved(Effective(s, id), FirstDecision(gs, id)))
  {
    if gs != [] {
      var n := |gs| - 1;
      FitPrefix(gs, u, w);
      FirstDecisionWins(cfg, s, gs[..n], u, w);
      var s1 := Deliver(cfg, s, gs[..n]);
      DeliverOne(cfg, s1, gs[n], u, w);
      forall id ensures Effective(Deliver(cfg, s, gs), id) == Resolved(Effective(s, id), FirstDecision(gs, id)) {
        ResolvedNext(gs, id, Effective(s, id), Effective(s1, id));
      }
    }
  }

  lemma FitPrefix(gs: seq<Group>, u: set<TraceID>, w: set<TraceID>)
    requires gs != [] && Fit(gs, u, w)
    ensures var n := |gs| - 1;
            && Fit(gs[..n], u, w)
            && (FirstDecision(gs[..n], gs[n].id).None? ==> gs[n].id in if gs[n].resource.decision.value then u else w)
  {
    var n := |gs| - 1;
    var init := gs[..n];
    forall i | 0 <= i < n ensures init[i].resource.decision.Some? && FitsAt(init, i, u, w) {
      assert gs[..i] == init[..i] && FitsAt(gs, i, u, w);
    }
    assert FitsAt(gs, n, u, w);
    if gs[n].resource.decision == Some(false) && gs[n].id !in w { FirstOfDelivered(init, gs[n].id, true); }
  }

  lemma ResolvedNext(gs: seq<Group>, id: TraceID, d: Decision, d1: Decision)
    requires gs != [] && gs[|gs| - 1].resource.decision.Some?
    requires d1 == Resolved(d, FirstDecision(gs[..|gs| - 1], id))
    ensures (if id == gs[|gs| - 1].id then Resolved(d1, gs[|gs| - 1].resource.decision) else d1)
            == Resolved(d, FirstDecision(gs, id))
  {
  }

  // ----- the round trip -----

  /** `gs` are the groups of a sender's decision spans, in an order in which no false decision for
      an ID overtakes a true one for the same ID. */
  ghost predicate DecisionsOf(gs: seq<Group>, s: State) {
    && (forall i :: 0 <= i < |gs| ==> gs[i].resource.decision.Some?)
    && (forall i :: 0 <= i < |gs| ==>
          gs[i].id in if gs[i].resource.decision.value then s.sampled.vals.Keys else s.notSampled.vals.Keys)
    && (forall id :: id in s.sampled.vals ==> Delivers(gs, id, true))
    && (forall id :: id in s.notSampled.vals ==> Delivers(gs, id, false))
    && (forall i, j :: 0 <= i < j < |gs| && gs[i].id == gs[j].id && gs[j].resource.decision == Some(true) ==>
          gs[i].resource.decision == Some(true))
  }

  /** The first decision is that of some group, and every group for the ID comes at or after it. */
  lemma {:induction false} FirstDecisionAt(gs: seq<Group>, id: TraceID) returns (k: nat)
    requires forall i :: 0 <= i < |gs| ==> gs[i].resource.decision.Some?
    ensures FirstDecision(gs, id).None? ==> forall i :: 0 <= i < |gs| ==> gs[i].id != id
    ensures FirstDecision(gs, id).Some? ==>
              k < |gs| && gs[k].id == id && FirstDecision(gs, id) == gs[k].resource.decision
              && forall i :: 0 <= i < k ==> gs[i].id != id
  {
    k := 0;
    if gs != [] {
      var n := |gs| - 1;
      k := FirstDecisionAt(gs[..n], id);
      if FirstDecision(gs[..n], id).None? { k := n; }
    }
  }

  lemma HandedOver(gs: seq<Group>, sender: State, id: TraceID)
    requires DecisionsOf(gs, sender)
    ensures Effective(sender, id) == Resolved(Unevaluated, FirstDecision(gs, id))
  {
    var k := FirstDecisionAt(gs, id);
    if id in sender.sampled.vals {
      assert Delivers(gs, id, true);
      var i :| 0 <= i < |gs| && gs[i].id == id && gs[i].resource.decision == Some(true);
      assert k <= i;
    } else if id in sender.notSampled.vals {
      assert Delivers(gs, id, false);
    }
  }

  /** What the receiver must be able to remember: the sampled IDs, and the not-sampled ones that are
      not sampled as well. */
  ghost function OnlyNotSampled(s: State): set<TraceID> {
    s.notSampled.vals.Keys - s.sampled.vals.Keys
  }

  lemma DecisionsFit(gs: seq<Group>, sender: State)
    requires DecisionsOf(gs, sender)
    ensures Fit(gs, sender.sampled.vals.Keys, OnlyNotSampled(sender))
  {
    forall i | 0 <= i < |gs| ensures FitsAt(gs, i, sender.sampled.vals.Keys, OnlyNotSampled(sender)) {
      var id := gs[i].id;
      if gs[i].resource.decision == Some(false) && id in sender.sampled.vals {
        assert Delivers(gs, id, true);
        var j :| 0 <= j < |gs| && gs[j].id == id && gs[j].resource.decision == Some(true);
        assert j < i && gs[..i][j] == gs[j];
      }
    }
  }

  lemma {:induction false} DeliverKeepsCaps(cfg: Config, s: State, gs: seq<Group>)
    requires Inv(s) && Held(s) == {} && forall i :: 0 <= i < |gs| ==> gs[i].resource.decision.Some?
    ensures var s' := Deliver(cfg, s, gs);
            Held(s') == {} && s'.sampled.cap == s.sampled.cap && s'.notSampled.cap == s.notSampled.cap
  {
    if gs != [] {
      var n := |gs| - 1;
      DeliverKeepsCaps(cfg, s, gs[..n]);
      var s1 := Deliver(cfg, s, gs[..n]);
      DeliverOneKeepsCaps(cfg, s1, gs[n]);
      assert Deliver(cfg, s, gs) == ProcessGroup(cfg, s1, gs[n], 0, 0);
    }
  }

  lemma DeliverOneKeepsCaps(cfg: Config, s: State, g: Group)
    requires Inv(s) && Held(s) == {} && g.resource.decision.Some?
    ensures var s' := ProcessGroup(cfg, s, g, 0, 0);
            Held(s') == {} && s'.sampled.cap == s.sampled.cap && s'.notSampled.cap == s.notSampled.cap
  {
    DeliverEffect(cfg, s, g);
  }

  /** Two states with the same effective decisions for every ID hold the same decisions. */
  lemma SameDecisions(s: State, t: State)
    requires forall id :: Effective(s, id) == Effective(t, id)
    ensures s.sampled.vals.Keys == t.sampled.vals.Keys && OnlyNotSampled(s) == OnlyNotSampled(t)
  {
    forall id ensures id in s.sampled.vals <==> id in t.sampled.vals {
      assert Effective(s, id) == Effective(t, id);
    }
    forall id ensures id in OnlyNotSampled(s) <==> id in OnlyNotSampled(t) {
      assert Effective(s, id) == Effective(t, id);
    }
  }

  lemma CacheIsWithinCap(c: Lru<()>, ids: set<TraceID>)
    requires c.Valid() && ids <= c.vals.Keys
    ensures |ids| <= c.cap
  {
    var keys := set x | x in c.order;
    assert ids <= keys;
    SubsetCard(ids, keys);
    KeysCard(c.order);
  }

  lemma {:induction false} KeysCard(s: seq<TraceID>)
    ensures |set x | x in s| <= |s|
  {
    if s != [] {
      var n := |s| - 1;
      KeysCard(s[..n]);
      assert (set x | x in s) == (set x | x in s[..n]) + {s[n]};
    }
  }

  lemma {:induction false} SubsetCard(a: set<TraceID>, b: set<TraceID>)
    requires a <= b
    ensures |a| <= |b|
  {
    if a != {} {
      var x :| x in a;
      SubsetCard(a - {x}, b - {x});
    }
  }

  /** Decision hand-off: delivering a sender's flushed decisions to a fresh processor reproduces the
      sender's effective decision for EVERY trace ID if and only if its caches have room for the
      sender's sampled IDs and for those that are only not sampled. The receiver's caches are then
      disjoint even if the sender's overlapped. */
  lemma HandoffReproducesDecisions(cfg: Config, sender: State, gs: seq<Group>, p: nat, q: nat, y: nat, n: nat)
    requires Inv(sender) && DecisionsOf(gs, sender)
    requires y > 0 && n > 0
    ensures Inv(Initial(p, q, y, n))
    ensures (forall id :: Effective(Deliver(cfg, Initial(p, q, y, n), gs), id) == Effective(sender, id)) <==>
            |sender.sampled.vals.Keys| <= y && |OnlyNotSampled(sender)| <= n
    ensures |sender.sampled.vals.Keys| <= y && |OnlyNotSampled(sender)| <= n ==>
              Both(Deliver(cfg, Initial(p, q, y, n), gs)) == {}
  {
    InitialInv(p, q, y, n);
    var start := Initial(p, q, y, n);
    var receiver := Deliver(cfg, start, gs);
    if |sender.sampled.vals.Keys| <= y && |OnlyNotSampled(sender)| <= n {
      DecisionsFit(gs, sender);
      FirstDecisionWins(cfg, start, gs, sender.sampled.vals.Keys, OnlyNotSampled(sender));
      forall id ensures Effective(receiver, id) == Effective(sender, id) {
        HandedOver(gs, sender, id);
        assert Effective(start, id) == Unevaluated;
      }
    }
    if forall id :: Effective(receiver, id) == Effective(sender, id) {
      SameDecisions(receiver, sender);
      DeliverKeepsCaps(cfg, start, gs);
      CacheIsWithinCap(receiver.sampled, sender.sampled.vals.Keys);
      CacheIsWithinCap(receiver.notSampled, OnlyNotSampled(sender));
    }
  }

  /** In particular a restart with the same configuration always reproduces them. */
  lemma SameSizesSuffice(cfg: Config, sender: State, gs: seq<Group>, p: nat, q: nat)
    requires Inv(sender) && DecisionsOf(gs, sender)
    ensures Inv(Initial(p, q, sender.sampled.cap, sender.notSampled.cap))
    ensures var receiver := Deliver(cfg, Initial(p, q, sender.sampled.cap, sender.notSampled.cap), gs);
            Both(receiver) == {} && forall id :: Effective(receiver, id) == Effective(sender, id)
  {
    CacheIsWithinCap(sender.sampled, sender.sampled.vals.Keys);
    CacheIsWithinCap(sender.notSampled, OnlyNotSampled(sender));
    HandoffReproducesDecisions(cfg, sender, gs, p, q, sender.sampled.cap, sender.notSampled.cap);
  }

  // ----- the groups that a receiver makes of the flushed traces -----

  lemma DecisionRefs(d: bool, ids: seq<TraceID>, id: TraceID)
    ensures var rs := DecisionResource(d, ids);
            (exists x :: x in Refs(rs.scopeSpans, 1) && x.span.traceID == id) <==> id in ids
  {
    var rs := DecisionResource(d, ids);
    OneScopeRefs(rs.scopeSpans);
    ScopeRefsIDs(rs.scopeSpans[0], ids, id);
  }

  lemma ScopeRefsIDs(ss: ScopeSpans, ids: seq<TraceID>, id: TraceID)
    requires |ss.spans| == |ids| && forall i :: 0 <= i < |ids| ==> ss.spans[i].traceID == ids[i]
    ensures (exists x :: x in ScopeRefs(0, ss) && x.span.traceID == id) <==> id in ids
  {
    var refs := ScopeRefs(0, ss);
    if id in ids {
      var i :| 0 <= i < |ids| && ids[i] == id;
      assert refs[i] in refs && refs[i].span.traceID == id;
    }
    if x :| x in refs && x.span.traceID == id {
      var i :| 0 <= i < |refs| && refs[i] == x;
      assert ids[i] == id;
    }
  }

  lemma OneScopeRefs(scopes: seq<ScopeSpans>)
    requires |scopes| == 1
    ensures Refs(scopes, 1) == ScopeRefs(0, scopes[0])
  {
    assert Refs(scopes, 0) == [];
  }

  /** Grouping a decision resource gives one bucket for each of its trace IDs. */
  lemma DecisionBuckets(d: bool, ids: seq<TraceID>, m: map<TraceID, seq<SpanAndScope>>)
    requires IsGrouping(m, Refs(DecisionResource(d, ids).scopeSpans, 1))
    ensures forall id :: id in m <==> id in ids
  {
    var refs := Refs(DecisionResource(d, ids).scopeSpans, 1);
    RefsAreSorted(DecisionResource(d, ids).scopeSpans, 1);
    forall id ensures id in m <==> id in ids {
      DecisionRefs(d, ids, id);
      if id in m {
        FilterKeepsSorted(refs, id);
        assert m[id][0] in Filter(refs, id);
      }
    }
  }

  /** The groups of one decision resource, its buckets visited in the order `keys`. */
  ghost function GroupsOf(rs: ResourceSpans, m: map<TraceID, seq<SpanAndScope>>, keys: seq<TraceID>): seq<Group>
    requires forall k :: k in keys ==> k in m
  {
    seq(|keys|, i requires 0 <= i < |keys| => assert keys[i] in keys; Group(keys[i], rs.resource, m[keys[i]]))
  }

  /** Groups `g` all carry decision `d` and are exactly for `ids`. */
  ghost predicate GroupsFor(g: seq<Group>, d: bool, ids: set<TraceID>) {
    && (forall i :: 0 <= i < |g| ==> g[i].resource.decision == Some(d) && g[i].id in ids)
    && (forall id :: id in ids ==> Delivers(g, id, d))
  }

  lemma DecisionGroups(d: bool, ids: seq<TraceID>, m: map<TraceID, seq<SpanAndScope>>, keys: seq<TraceID>)
    requires IsGrouping(m, Refs(DecisionResource(d, ids).scopeSpans, 1))
    requires forall k :: k in keys <==> k in m
    ensures GroupsFor(GroupsOf(DecisionResource(d, ids), m, keys), d, set id | id in ids)
  {
    DecisionBuckets(d, ids, m);
    var g := GroupsOf(DecisionResource(d, ids), m, keys);
    forall id | id in ids ensures Delivers(g, id, d) {
      assert id in keys;
      var i :| 0 <= i < |keys| && keys[i] == id;
      assert g[i].id == id;
    }
    forall i | 0 <= i < |g| ensures g[i].resource.decision == Some(d) && g[i].id in ids {
      assert keys[i] in keys;
    }
  }

  lemma TrueThenFalse(s: State, g1: seq<Group>, g2: seq<Group>)
    requires GroupsFor(g1, true, s.sampled.vals.Keys) && GroupsFor(g2, false, s.notSampled.vals.Keys)
    ensures DecisionsOf(g1 + g2, s)
  {
    var gs := g1 + g2;
    forall id | id in s.sampled.vals ensures Delivers(gs, id, true) {
      assert Delivers(g1, id, true);
      var i :| 0 <= i < |g1| && g1[i].id == id && g1[i].resource.decision == Some(true);
      assert gs[i] == g1[i];
    }
    forall id | id in s.notSampled.vals ensures Delivers(gs, id, false) {
      assert Delivers(g2, id, false);
      var i :| 0 <= i < |g2| && g2[i].id == id && g2[i].resource.decision == Some(false);
      assert gs[|g1| + i] == g2[i];
    }
  }

  /** The decision spans of a flush, grouped by the receiver, are decisions of the sender: its two
      resources are visited in order, each in any order of its buckets. */
  lemma FlushIsDelivered(s: State, m1: map<TraceID, seq<SpanAndScope>>, m2: map<TraceID, seq<SpanAndScope>>,
                         k1: seq<TraceID>, k2: seq<TraceID>)
    requires Inv(s)
    requires IsGrouping(m1, Refs(FlushDecisions(s)[0].scopeSpans, 1))
             && IsGrouping(m2, Refs(FlushDecisions(s)[1].scopeSpans, 1))
    requires (forall k :: k in k1 <==> k in m1) && (forall k :: k in k2 <==> k in m2)
    ensures DecisionsOf(GroupsOf(FlushDecisions(s)[0], m1, k1) + GroupsOf(FlushDecisions(s)[1], m2, k2), s)
  {
    DecisionGroups(true, s.sampled.order, m1, k1);
    DecisionGroups(false, s.notSampled.order, m2, k2);
    assert (set id | id in s.sampled.order) == s.sampled.vals.Keys;
    assert (set id | id in s.notSampled.order) == s.notSampled.vals.Keys;
    TrueThenFalse(s, GroupsOf(FlushDecisions(s)[0], m1, k1), GroupsOf(FlushDecisions(s)[1], m2, k2));
  }

  /** The whole round trip: a flush, grouped by a receiver of the same sizes and processed in the
      order of its resources, each in any order of its buckets, reproduces every decision. */
  lemma FlushReproducesDecisions(cfg: Config, s: State, m1: map<TraceID, seq<SpanAndScope>>,
                                 m2: map<TraceID, seq<SpanAndScope>>, k1: seq<TraceID>, k2: seq<TraceID>,
                                 p: nat, q: nat)
    requires Inv(s)
    requires IsGrouping(m1, Refs(FlushDecisions(s)[0].scopeSpans, 1))
             && IsGrouping(m2, Refs(FlushDecisions(s)[1].scopeSpans, 1))
    requires (forall k :: k in k1 <==> k in m1) && (forall k :: k in k2 <==> k in m2)
    ensures Inv(Initial(p, q, s.sampled.cap, s.notSampled.cap))
    ensures var gs := GroupsOf(FlushDecisions(s)[0], m1, k1) + GroupsOf(FlushDecisions(s)[1], m2, k2);
            var receiver := Deliver(cfg, Initial(p, q, s.sampled.cap, s.notSampled.cap), gs);
            Both(receiver) == {} && forall id :: Effective(receiver, id) == Effective(s, id)
  {
    FlushIsDelivered(s, m1, m2, k1, k2);
    SameSizesSuffice(cfg, s, GroupsOf(FlushDecisions(s)[0], m1, k1) + GroupsOf(FlushDecisions(s)[1], m2, k2), p, q);
  }
}
