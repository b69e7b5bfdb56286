/** What is held for a pending trace, as values: its metadata, its spans behind a facade that is
    either plain or compressed, and how two of them merge (internal/tracedata). */
module TraceValues {
  import opened Pdata

  // ----- metadata -----

  datatype Priority = Low | Unspecified

  function MaxPriority(a: Priority, b: Priority): Priority {
    if a == Unspecified || b == Unspecified then Unspecified else Low
  }

  /** `lastLow` names the policy that last made a low-priority decision. `count` is an int32. */
  datatype Meta = Meta(arrival: int, earliest: nat, latest: nat, count: int,
                       priority: Priority, lastLow: Option<string>)

  /** An integer truncated to a signed 32-bit value. */
  function Wrap32(x: int): int {
    (x + 0x8000_0000) % 0x1_0000_0000 - 0x8000_0000
  }

  function Min(a: int, b: int): int { if b < a then b else a }

  function Max(a: int, b: int): int { if b > a then b else a }

  /** `MergeWith`: every field is combined except `lastLow`, which is taken from `o`. */
  function MergeMeta(m: Meta, o: Meta): Meta {
    Meta(Min(m.arrival, o.arrival), Min(m.earliest, o.earliest), Max(m.latest, o.latest),
         Wrap32(m.count + o.count), MaxPriority(m.priority, o.priority), o.lastLow)
  }

  /** One step of the scan for the earliest start: 0 stands for "none seen yet". */
  function EarliestStep(e: nat, start: nat): nat {
    if start < e || e == 0 then start else e
  }

  function Earliest(spans: seq<Span>): nat {
    if spans == [] then 0
    else EarliestStep(Earliest(spans[..|spans| - 1]), spans[|spans| - 1].start)
  }

  function Latest(spans: seq<Span>): nat {
    if spans == [] then 0 else Max(Latest(spans[..|spans| - 1]), spans[|spans| - 1].end)
  }

  /** The metadata of one batch, by a single pass over its spans. */
  function MetaOf(arrival: int, spans: seq<Span>, p: Priority, lastLow: Option<string>): Meta {
    Meta(arrival, Earliest(spans), Latest(spans), Wrap32(|spans|), p, lastLow)
  }

  // ----- merging two passes against one pass over everything -----

  ghost predicate HasZeroStart(spans: seq<Span>) {
    exists x :: x in spans && x.start == 0
  }

  lemma {:induction false} EarliestConcat(a: seq<Span>, b: seq<Span>)
    ensures !HasZeroStart(b) && b != [] ==>
              Earliest(b) > 0 &&
              Earliest(a + b) == (if Earliest(a) == 0 then Earliest(b) else Min(Earliest(a), Earliest(b)))
    ensures HasZeroStart(b) ==> Earliest(a + b) == Earliest(b)
    ensures Latest(a + b) == Max(Latest(a), Latest(b))
  {
    if b == [] {
      assert a + b == a;
    } else {
      var init, last := b[..|b| - 1], b[|b| - 1];
      EarliestConcat(a, init);
      AppendLast(a, b);
      StartSnoc(a + init, last);
      StartSnoc(init, last);
      ZeroStartSnoc(init, last);
      if init == [] { assert a + init == a; }
    }
  }

  lemma StartSnoc(spans: seq<Span>, x: Span)
    ensures Earliest(spans + [x]) == EarliestStep(Earliest(spans), x.start)
    ensures Latest(spans + [x]) == Max(Latest(spans), x.end)
  {
    assert (spans + [x])[..|spans|] == spans;
  }

  lemma ZeroStartSnoc(spans: seq<Span>, x: Span)
    ensures HasZeroStart(spans + [x]) <==> HasZeroStart(spans) || x.start == 0
  {
    assert x in spans + [x];
    assert forall y :: y in spans ==> y in spans + [x];
  }

  /** The merge of two batches' earliest starts agrees with one pass over both EXACTLY when the
      sentinel 0 does not get in the way: if the second batch has a span that starts at 0, its own
      earliest must not exceed the first's; if it has none, the first must have seen a start; and
      an empty second batch must meet an empty result. */
  lemma EarliestMergeIff(a: seq<Span>, b: seq<Span>)
    ensures Earliest(a + b) == Min(Earliest(a), Earliest(b)) <==>
            if b == [] then Earliest(a) == 0
            else if HasZeroStart(b) then Earliest(b) <= Earliest(a)
            else Earliest(a) != 0
  {
    EarliestConcat(a, b);
    if b == [] { assert a + b == a; }
  }

  /** An input for which they differ: a span that starts at 0, then one that starts at 5. */
  lemma ZeroStartIsForgotten(a: Span, b: Span, now: int)
    requires a.start == 0 && b.start == 5
    ensures MetaOf(now, [a] + [b], Unspecified, None).earliest == 5
    ensures MergeMeta(MetaOf(now, [a], Unspecified, None), MetaOf(now, [b], Unspecified, None)).earliest == 0
  {
    var none: seq<Span> := [];
    assert none + [a] == [a] && none + [b] == [b];
    StartSnoc(none, a);
    StartSnoc(none, b);
    StartSnoc([a], b);
  }

  lemma EarliestPositive(a: seq<Span>)
    requires a != [] && !HasZeroStart(a)
    ensures Earliest(a) > 0
  {
    EarliestConcat([], a);
  }

  /** With nonzero starts, the earliest start is the least one. */
  lemma {:induction false} EarliestIsLeast(spans: seq<Span>)
    requires spans != [] && !HasZeroStart(spans)
    ensures forall x :: x in spans ==> Earliest(spans) <= x.start
    ensures exists x :: x in spans && x.start == Earliest(spans)
  {
    var init, last := spans[..|spans| - 1], spans[|spans| - 1];
    assert spans == init + [last] && last in spans;
    assert forall x :: x in init ==> x in spans;
    StartSnoc(init, last);
    ZeroStartSnoc(init, last);
    if init != [] {
      EarliestIsLeast(init);
      EarliestPositive(init);
    }
  }

  /** A span that starts at 0 has everything before it forgotten: what counts are the spans after the
      last such span. */
  lemma EarliestAfterZero(a: seq<Span>, x: Span, b: seq<Span>)
    requires x.start == 0 && !HasZeroStart(b)
    ensures Earliest(a + [x] + b) == if b == [] then 0 else Earliest(b)
  {
    StartSnoc(a, x);
    if b == [] {
      assert a + [x] + b == a + [x];
    } else {
      EarliestConcat(a + [x], b);
    }
  }

  /** The latest end bounds every end, and is one of them unless it is 0. */
  lemma {:induction false} LatestIsGreatest(spans: seq<Span>)
    ensures forall x :: x in spans ==> x.end <= Latest(spans)
    ensures Latest(spans) > 0 ==> exists x :: x in spans && x.end == Latest(spans)
  {
    if spans != [] {
      var init, last := spans[..|spans| - 1], spans[|spans| - 1];
      LatestIsGreatest(init);
      assert spans == init + [last] && last in spans;
      assert forall x :: x in init ==> x in spans;
    }
  }

  /** The span count is congruent to the true one, as a signed 32-bit value. */
  lemma WrapIsInt32(x: int)
    ensures -0x8000_0000 <= Wrap32(x) < 0x8000_0000 && (x - Wrap32(x)) % 0x1_0000_0000 == 0
    ensures -0x8000_0000 <= x < 0x8000_0000 ==> Wrap32(x) == x
  {
    var q := (x + 0x8000_0000) / 0x1_0000_0000;
    assert x - Wrap32(x) == q * 0x1_0000_0000;
  }

  lemma WrapAdd(x: int, y: int)
    ensures Wrap32(Wrap32(x) + Wrap32(y)) == Wrap32(x + y)
  {
  }

  /** For batches whose spans all have a nonzero start, merging their metadata is the same as one
      pass over the concatenation. */
  lemma MergeIsSinglePass(t1: int, a: seq<Span>, p1: Priority, t2: int, b: seq<Span>, p2: Priority,
      low1: Option<string>, low2: Option<string>)
    requires a != [] && b != [] && !HasZeroStart(a) && !HasZeroStart(b)
    ensures MergeMeta(MetaOf(t1, a, p1, low1), MetaOf(t2, b, p2, low2))
            == MetaOf(Min(t1, t2), a + b, MaxPriority(p1, p2), low2)
  {
    EarliestConcat(a, b);
    EarliestPositive(a);
    WrapAdd(|a|, |b|);
  }

  // ----- the facade over the spans -----

  type Blob = seq<Byte>

  /** Marshalling composed with compression, and its inverse. Either may fail. */
  datatype Codec = Codec(encode: Traces -> Option<Blob>, decode: Blob -> Option<Traces>)

  ghost predicate Lossless(c: Codec) {
    forall t :: c.encode(t).Some? && c.decode(c.encode(t).value) == Some(t)
  }

  datatype Facade = Plain(traces: Traces) | Snappy(blobs: seq<Blob>)

  /** Decodes the blobs in order and appends their ResourceSpans. */
  function DecodeAll(c: Codec, blobs: seq<Blob>): Result<Traces> {
    if blobs == [] then Ok([])
    else
      match DecodeAll(c, blobs[..|blobs| - 1])
      case Err(e) => Err(e)
      case Ok(sofar) =>
        match c.decode(blobs[|blobs| - 1])
        case None => Err("error decoding")
        case Some(t) => Ok(sofar + t)
  }

  function GetTraces(c: Codec, f: Facade): Result<Traces> {
    match f
    case Plain(t) => Ok(t)
    case Snappy(blobs) => DecodeAll(c, blobs)
  }

  function NewFacade(compress: bool, c: Codec, t: Traces): Result<Facade> {
    if compress then
      match c.encode(t)
      case None => Err("error encoding")
      case Some(b) => Ok(Snappy([b]))
    else Ok(Plain(t))
  }

  /** The facade after absorbing `g`: unchanged, with an error, if the kinds differ. */
  function AbsorbFacade(f: Facade, g: Facade): Result<Facade> {
    match (f, g)
    case (Plain(t), Plain(u)) => Ok(Plain(t + u))
    case (Snappy(b), Snappy(d)) => Ok(Snappy(b + d))
    case _ => Err("cannot absorb incompatible trace data")
  }

  lemma {:induction false} DecodeConcat(c: Codec, a: seq<Blob>, b: seq<Blob>)
    requires DecodeAll(c, a).Ok? && DecodeAll(c, b).Ok?
    ensures DecodeAll(c, a + b) == Ok(DecodeAll(c, a).value + DecodeAll(c, b).value)
  {
    if b == [] {
      assert a + b == a;
      assert DecodeAll(c, a).value + [] == DecodeAll(c, a).value;
    } else {
      var init := b[..|b| - 1];
      DecodeConcat(c, a, init);
      assert (a + b)[..|a + b| - 1] == a + init;
      var x, y, z := DecodeAll(c, a).value, DecodeAll(c, init).value, c.decode(b[|b| - 1]).value;
      assert (x + y) + z == x + (y + z);
    }
  }

  /** Decoding succeeds if and only if every blob decodes. */
  lemma {:induction false} DecodesIff(c: Codec, blobs: seq<Blob>)
    ensures DecodeAll(c, blobs).Ok? <==> forall b :: b in blobs ==> c.decode(b).Some?
  {
    if blobs != [] {
      var init, last := blobs[..|blobs| - 1], blobs[|blobs| - 1];
      DecodesIff(c, init);
      assert blobs == init + [last] && last in blobs;
      assert forall b :: b in init ==> b in blobs;
    }
  }

  /** A compressed facade that decodes stands for the plain facade with the same traces. */
  ghost predicate StandsFor(c: Codec, f: Facade, plain: Facade) {
    f.Snappy? && plain.Plain? && DecodeAll(c, f.blobs) == Ok(plain.traces)
  }

  lemma NewStandsFor(c: Codec, t: Traces)
    requires Lossless(c)
    ensures NewFacade(true, c, t).Ok? && StandsFor(c, NewFacade(true, c, t).value, NewFacade(false, c, t).value)
  {
    var b := c.encode(t).value;
    var none: seq<Blob> := [b][..0];
    assert none == [];
    assert DecodeAll(c, none) == Ok([]);
    assert [] + t == t;
  }

  lemma AbsorbStandsFor(c: Codec, f: Facade, p: Facade, g: Facade, q: Facade)
    requires StandsFor(c, f, p) && StandsFor(c, g, q)
    ensures AbsorbFacade(f, g).Ok? && AbsorbFacade(p, q).Ok?
    ensures StandsFor(c, AbsorbFacade(f, g).value, AbsorbFacade(p, q).value)
  {
    DecodeConcat(c, f.blobs, g.blobs);
  }

  // ----- a pending trace -----

  datatype Entry = Entry(meta: Meta, data: Facade)

  function NewEntry(compress: bool, c: Codec, now: int, t: Traces): Result<Entry> {
    match NewFacade(compress, c, t)
    case Err(e) => Err(e)
    case Ok(f) => Ok(Entry(MetaOf(now, Spans(t), Unspecified, None), f))
  }

  /** Building an entry fails exactly if compression is on and encoding fails; its data then is that one
      blob, and otherwise the traces themselves. */
  lemma NewEntryIff(compress: bool, c: Codec, now: int, t: Traces)
    ensures NewEntry(compress, c, now, t).Ok? <==> !compress || c.encode(t).Some?
    ensures NewEntry(compress, c, now, t).Ok? ==>
              && NewEntry(compress, c, now, t).value.data
                 == (if compress then Snappy([c.encode(t).value]) else Plain(t))
              && NewEntry(compress, c, now, t).value.meta.arrival == now
              && NewEntry(compress, c, now, t).value.meta.priority == Unspecified
  {
  }

  /** The metadata that the processor hands to evaluators: that of the batch, built with priority
      Unspecified, merged with that of the held trace if there is one. */
  function MergedMeta(now: int, batch: Traces, held: Option<Entry>): Meta {
    WithHeld(MetaOf(now, Spans(batch), Unspecified, None), held)
  }

  function WithHeld(m: Meta, held: Option<Entry>): Meta {
    if held.None? then m else MergeMeta(m, held.value.meta)
  }

  /** `AbsorbTraceData`: the metadata merges first, whether or not the facades fit together. */
  function AbsorbEntry(p: Entry, o: Entry): Entry {
    var f := AbsorbFacade(p.data, o.data);
    Entry(MergeMeta(p.meta, o.meta), if f.Ok? then f.value else p.data)
  }
}
