/** The objects of internal/tracedata: they are shared by reference and merged in place. Each carries
    the ID of the trace it belongs to as a ghost constant, so objects of different traces differ. */
module TraceObjects {
  import opened Pdata
  import opened TraceValues
  import opened Iterator

  class Metadata {
    ghost const trace: TraceID
    var arrivalTime: int
    var earliestStartTime: nat
    var latestEndTime: nat
    var spanCount: int
    var priority: Priority
    var lastLowPriorityDecisionName: Option<string>

    function View(): Meta
      reads this
    {
      Meta(arrivalTime, earliestStartTime, latestEndTime, spanCount, priority, lastLowPriorityDecisionName)
    }

    constructor (ghost id: TraceID, arrival: int, count: int, p: Priority)
      ensures View() == Meta(arrival, 0, 0, count, p, None) && trace == id
    {
      trace := id;
      arrivalTime, earliestStartTime, latestEndTime := arrival, 0, 0;
      spanCount, priority, lastLowPriorityDecisionName := count, p, None;
    }

    /** Merges `other` into this object and leaves `other` alone. */
    method MergeWith(other: Metadata)
      modifies this
      ensures View() == MergeMeta(old(View()), old(other.View()))
    {
      spanCount := Wrap32(spanCount + other.spanCount);
      if other.arrivalTime < arrivalTime {
        arrivalTime := other.arrivalTime;
      }
      earliestStartTime := Min(earliestStartTime, other.earliestStartTime);
      latestEndTime := Max(latestEndTime, other.latestEndTime);
      priority := MaxPriority(priority, other.priority);
      lastLowPriorityDecisionName := other.lastLowPriorityDecisionName;
    }

    method DeepCopy() returns (dup: Metadata)
      ensures fresh(dup) && dup.View() == View()
    {
      dup := new Metadata(trace, arrivalTime, spanCount, priority);
      dup.earliestStartTime := earliestStartTime;
      dup.latestEndTime := latestEndTime;
      dup.lastLowPriorityDecisionName := lastLowPriorityDecisionName;
    }
  }

  class SnappyTraceData {
    ghost const trace: TraceID
    var compressedBlobs: seq<Blob>

    constructor (ghost id: TraceID, blob: Blob)
      ensures compressedBlobs == [blob] && trace == id
    {
      trace := id;
      compressedBlobs := [blob];
    }

    method GetTraces(c: Codec) returns (r: Result<Traces>)
      ensures r == TraceValues.GetTraces(c, Snappy(compressedBlobs))
    {
      var traces: Traces := [];
      var i := 0;
      while i < |compressedBlobs|
        invariant i <= |compressedBlobs|
        invariant DecodeAll(c, compressedBlobs[..i]) == Ok(traces)
      {
        var decoded := c.decode(compressedBlobs[i]);
        assert compressedBlobs[..i + 1][..i] == compressedBlobs[..i];
        if decoded.None? {
          DecodeFails(c, compressedBlobs, i + 1);
          return Err("error decoding");
        }
        traces := traces + decoded.value;
        i := i + 1;
      }
      assert compressedBlobs[..i] == compressedBlobs;
      r := Ok(traces);
    }
  }

  lemma {:induction false} DecodeFails(c: Codec, blobs: seq<Blob>, n: nat)
    requires n <= |blobs|
    requires DecodeAll(c, blobs[..n]) == Err("error decoding")
    ensures DecodeAll(c, blobs) == Err("error decoding")
    decreases |blobs| - n
  {
    if n == |blobs| {
      assert blobs[..n] == blobs;
    } else {
      assert blobs[..n + 1][..n] == blobs[..n];
      DecodeFails(c, blobs, n + 1);
    }
  }

  class UncompressedTraceData {
    ghost const trace: TraceID
    var traces: Traces

    constructor (ghost id: TraceID, t: Traces)
      ensures traces == t && trace == id
    {
      trace := id;
      traces := t;
    }
  }

  /** The facade interface: one of its two implementations. */
  datatype TraceFacade = SnappyFacade(snappy: SnappyTraceData) | PlainFacade(plain: UncompressedTraceData) {

    ghost function Object(): object {
      match this
      case SnappyFacade(s) => s
      case PlainFacade(p) => p
    }

    ghost function Trace(): TraceID {
      match this
      case SnappyFacade(s) => s.trace
      case PlainFacade(p) => p.trace
    }

    ghost function View(): Facade
      reads Object()
    {
      match this
      case SnappyFacade(s) => Snappy(s.compressedBlobs)
      case PlainFacade(p) => Plain(p.traces)
    }
  }

  class TraceData {
    ghost const trace: TraceID
    const metadata: Metadata
    const underlying: TraceFacade

    /** The objects this one owns: they never change, only their fields do. */
    ghost function Repr(): set<object> {
      {this, metadata, underlying.Object()}
    }

    ghost function View(): Entry
      reads Repr()
    {
      Entry(metadata.View(), underlying.View())
    }

    /** All three objects belong to the trace `id`. */
    ghost predicate BelongsTo(id: TraceID) {
      trace == id && metadata.trace == id && underlying.Trace() == id
    }

    constructor (ghost id: TraceID, m: Metadata, u: TraceFacade)
      ensures metadata == m && underlying == u && trace == id
    {
      trace, metadata, underlying := id, m, u;
    }

    method GetTraces(c: Codec) returns (r: Result<Traces>)
      ensures r == TraceValues.GetTraces(c, View().data)
    {
      match underlying
      case SnappyFacade(s) => r := s.GetTraces(c);
      case PlainFacade(p) => r := Ok(p.traces);
    }

    /** Moves the data of `other` into this object; `other` must not be used afterwards, because a
        plain facade is left empty. Returns whether the facades were compatible. */
    method AbsorbTraceData(other: TraceData) returns (ok: bool)
      requires Repr() !! other.Repr()
      modifies Repr(), other.Repr()
      ensures View() == AbsorbEntry(old(View()), old(other.View()))
      ensures ok <==> AbsorbFacade(old(View()).data, old(other.View()).data).Ok?
      ensures other.View().meta == old(other.View()).meta
    {
      metadata.MergeWith(other.metadata);
      match (underlying, other.underlying)
      case (SnappyFacade(s), SnappyFacade(o)) =>
        s.compressedBlobs := s.compressedBlobs + o.compressedBlobs;
        ok := true;
      case (PlainFacade(p), PlainFacade(o)) =>
        p.traces := p.traces + o.traces;
        o.traces := [];
        ok := true;
      case _ =>
        ok := false;
    }
  }

  lemma DifferentTracesApart(a: TraceData, b: TraceData, x: TraceID, y: TraceID)
    requires a.BelongsTo(x) && b.BelongsTo(y) && x != y
    ensures a.Repr() !! b.Repr()
  {
  }

  lemma EarliestSnoc(items: seq<SpanItem>, i: nat)
    requires i < |items|
    ensures Earliest(SpansOf(items[..i + 1])) == EarliestStep(Earliest(SpansOf(items[..i])), items[i].span.start)
    ensures Latest(SpansOf(items[..i + 1])) == Max(Latest(SpansOf(items[..i])), items[i].span.end)
  {
    assert SpansOf(items[..i + 1])[..i] == SpansOf(items[..i]);
  }

  /** The metadata part of `NewTraceData`: one scan over the spans. */
  method ScanMetadata(ghost id: TraceID, arrival: int, items: seq<SpanItem>) returns (m: Metadata)
    ensures fresh(m) && m.trace == id && m.View() == MetaOf(arrival, SpansOf(items), Unspecified, None)
  {
    m := new Metadata(id, arrival, Wrap32(|items|), Unspecified);
    var i := 0;
    while i < |items|
      invariant i <= |items|
      invariant m.View() == Meta(arrival, Earliest(SpansOf(items[..i])), Latest(SpansOf(items[..i])), Wrap32(|items|),
                Unspecified, None)
    {
      var span := items[i].span;
      EarliestSnoc(items, i);
      if span.start < m.earliestStartTime || m.earliestStartTime == 0 {
        m.earliestStartTime := span.start;
      }
      if span.end > m.latestEndTime {
        m.latestEndTime := span.end;
      }
      i := i + 1;
    }
    assert items[..i] == items;
  }

  /** `NewTraceData`: the metadata of the batch, and the batch itself behind a new facade. */
  method NewTraceData(ghost id: TraceID, arrival: int, traces: Traces, compress: bool, c: Codec)
      returns (r: Result<TraceData>)
    ensures r.Ok? <==> NewEntry(compress, c, arrival, traces).Ok?
    ensures r.Ok? ==> fresh(r.value.Repr()) && r.value.BelongsTo(id)
    ensures r.Ok? ==> r.value.View() == NewEntry(compress, c, arrival, traces).value
  {
    var items := TraceIterator(traces, _ => true);
    var m := ScanMetadata(id, arrival, items);
    if compress {
      var blob := c.encode(traces);
      if blob.None? { return Err("failed to create tracedata"); }
      var s := new SnappyTraceData(id, blob.value);
      var td := new TraceData(id, m, SnappyFacade(s));
      return Ok(td);
    }
    var p := new UncompressedTraceData(id, traces);
    var td := new TraceData(id, m, PlainFacade(p));
    return Ok(td);
  }
}
