/** Consistent threshold sampling over 56 bits (OTEP-235). */
module Threshold {
  import opened Pdata
  import opened TraceValues
  import opened Decider
  import opened Iterator

  const MAX_THRESHOLD: nat := 0xff_ffff_ffff_ffff
  const THRESH_ATTR_MAX_LEN: nat := 14

  // ----- hexadecimal -----

  function HexDigit(c: char): Option<nat> {
    if '0' <= c <= '9' then Some((c - '0') as nat)
    else if 'a' <= c <= 'f' then Some((c - 'a') as nat + 10)
    else if 'A' <= c <= 'F' then Some((c - 'A') as nat + 10)
    else None
  }

  ghost predicate IsHex(s: string) {
    forall i :: 0 <= i < |s| ==> HexDigit(s[i]).Some?
  }

  function Pow16(n: nat): (p: nat)
    ensures p > 0
  {
    if n == 0 then 1 else 16 * Pow16(n - 1)
  }

  /** The value of the hexadecimal digits of `s`, most significant first. */
  function HexValue(s: string): Option<nat> {
    if s == "" then Some(0)
    else
      match (HexValue(s[..|s| - 1]), HexDigit(s[|s| - 1]))
      case (Some(hi), Some(lo)) => Some(16 * hi + lo)
      case _ => None
  }

  function Zeros(n: nat): string {
    seq(n, _ => '0')
  }

  lemma {:induction false} HexBounds(s: string)
    ensures HexValue(s).Some? <==> IsHex(s)
    ensures HexValue(s).Some? ==> HexValue(s).value < Pow16(|s|)
  {
    if s != "" { HexBounds(s[..|s| - 1]); }
  }

  /** Right padding with zeros multiplies by a power of 16. */
  lemma {:induction false} HexPad(s: string, n: nat)
    ensures HexValue(s + Zeros(n)) == match HexValue(s) case None => None case Some(v) => Some(v * Pow16(n))
  {
    if n == 0 {
      assert s + Zeros(0) == s;
    } else {
      HexPad(s, n - 1);
      HexSnocZero(s + Zeros(n - 1));
      assert s + Zeros(n) == s + Zeros(n - 1) + "0";
      if HexValue(s).Some? { Times16(HexValue(s).value, Pow16(n - 1)); }
    }
  }

  /** The sixteen digits, in either case, and nothing else. */
  lemma HexDigitsAre(c: char, v: nat)
    ensures HexDigit(c) == Some(v) <==> v < 16 && ("0123456789abcdef"[v] == c || "0123456789ABCDEF"[v] == c)
  {
  }

  /** The last digit counts once, every other one sixteen times what it counts without it. */
  lemma HexLastDigit(s: string, c: char)
    ensures HexValue(s + [c]) ==
            match (HexValue(s + "0"), HexDigit(c))
            case (Some(v), Some(d)) => Some(v + d)
            case _ => None
  {
    HexSnocZero(s);
    assert (s + [c])[..|s|] == s;
  }

  lemma HexSnocZero(s: string)
    ensures HexValue(s + "0") == match HexValue(s) case None => None case Some(v) => Some(16 * v)
  {
    assert (s + "0")[..|s|] == s;
  }

  lemma Times16(v: nat, q: nat)
    ensures 16 * (v * q) == v * (16 * q)
  {
  }

  // ----- the attribute -----

  /** `getThreshold`: a string "0x" followed by at most 14 hexadecimal digits, right padded. */
  function GetThreshold(span: Span): Option<nat> {
    if span.threshold.None? then None
    else
      var s := span.threshold.value;
      if !("0x" <= s) then None
      else
        var digits := s[2..];
        if |digits| > THRESH_ATTR_MAX_LEN then None
        else HexValue(digits + Zeros(THRESH_ATTR_MAX_LEN - |digits|))
  }

  lemma Pow16At14()
    ensures Pow16(14) == MAX_THRESHOLD + 1
  {
    assert Pow16(7) == 0x1000_0000;
    assert Pow16(14) == 16 * 16 * 16 * 16 * 16 * 16 * 16 * Pow16(7);
  }

  /** A threshold is valid exactly for "0x" and at most 14 hexadecimal digits; its value is theirs
      times 16 to the number of missing digits, at most 2^56 - 1. */
  lemma ThresholdValue(span: Span, digits: string)
    requires span.threshold == Some("0x" + digits)
    ensures GetThreshold(span).Some? <==> |digits| <= 14 && IsHex(digits)
    ensures GetThreshold(span).Some? ==>
              HexValue(digits).Some?
              && GetThreshold(span).value == HexValue(digits).value * Pow16(14 - |digits|)
              && GetThreshold(span).value <= MAX_THRESHOLD
  {
    assert ("0x" + digits)[2..] == digits;
    HexBounds(digits);
    if |digits| <= 14 {
      var n := 14 - |digits|;
      var padded := digits + Zeros(n);
      assert GetThreshold(span) == HexValue(padded);
      HexPad(digits, n);
      HexBounds(padded);
      assert |padded| == 14;
      Pow16At14();
    }
  }

  /** The attribute is set to "0x" and at most 14 hexadecimal digits. */
  ghost predicate Carries(span: Span, digits: string) {
    span.threshold == Some("0x" + digits) && |digits| <= 14 && IsHex(digits)
  }

  /** The number that such digits stand for, right padded. */
  function PaddedValue(digits: string): nat
    requires IsHex(digits) && |digits| <= 14
  {
    HexBounds(digits);
    HexValue(digits).value * Pow16(14 - |digits|)
  }

  /** For every span: it has a threshold exactly if its attribute is such a string, and then the
      threshold is the number of the digits. */
  lemma ThresholdIff(span: Span)
    ensures GetThreshold(span).Some? <==> exists digits :: Carries(span, digits)
    ensures forall digits :: Carries(span, digits) ==> GetThreshold(span) == Some(PaddedValue(digits))
  {
    if GetThreshold(span).Some? {
      var digits := span.threshold.value[2..];
      assert span.threshold.value == "0x" + digits;
      ThresholdValue(span, digits);
      assert Carries(span, digits);
    }
    forall digits | Carries(span, digits) ensures GetThreshold(span) == Some(PaddedValue(digits)) {
      ThresholdValue(span, digits);
    }
  }

  /** Writing a trailing zero digit does not change the threshold while 14 digits suffice. */
  lemma TrailingZero(a: Span, b: Span, digits: string)
    requires |digits| < 14
    requires a.threshold == Some("0x" + digits) && b.threshold == Some("0x" + digits + "0")
    ensures GetThreshold(a) == GetThreshold(b)
  {
    var n := 14 - |digits|;
    assert ("0x" + digits)[2..] == digits;
    assert ("0x" + digits + "0")[2..] == digits + "0";
    assert digits + "0" + Zeros(n - 1) == digits + Zeros(n);
  }

  /** The big-endian value of a byte string. */
  function BigEndian(bytes: seq<Byte>): nat {
    if bytes == [] then 0 else 256 * BigEndian(bytes[..|bytes| - 1]) + bytes[|bytes| - 1]
  }

  /** `getRv`: bytes 9 to 15 of the trace ID, assembled by shifts. */
  function GetRv(id: TraceID): nat
    requires id.WellFormed()
  {
    var b: seq<int> := id.bytes;
    b[15] + b[14] * 0x100 + b[13] * 0x1_0000 + b[12] * 0x100_0000 + b[11] * 0x1_0000_0000
    + b[10] * 0x100_0000_0000 + b[9] * 0x1_0000_0000_0000
  }

  lemma BigEndianSnoc(bytes: seq<Byte>, b: Byte)
    ensures BigEndian(bytes + [b]) == 256 * BigEndian(bytes) + b
  {
    assert (bytes + [b])[..|bytes|] == bytes;
  }

  lemma RvIsBigEndian(id: TraceID)
    requires id.WellFormed()
    ensures GetRv(id) == BigEndian(id.bytes[9..16])
    ensures GetRv(id) <= MAX_THRESHOLD
  {
    var b := id.bytes;
    NextByte(b, 9);
    NextByte(b, 10);
    NextByte(b, 11);
    NextByte(b, 12);
    NextByte(b, 13);
    NextByte(b, 14);
    NextByte(b, 15);
  }

  lemma NextByte(b: seq<Byte>, k: nat)
    requires 9 <= k < |b|
    ensures BigEndian(b[9..k + 1]) == 256 * (if k == 9 then 0 else BigEndian(b[9..k])) + b[k]
  {
    BigEndianSnoc(b[9..k], b[k]);
    assert b[9..k + 1] == b[9..k] + [b[k]];
  }

  // ----- the evaluator -----

  ghost predicate LetsPass(span: Span, digits: string, rv: nat) {
    Carries(span, digits) && PaddedValue(digits) < MAX_THRESHOLD && PaddedValue(digits) <= rv
  }

  /** Some span carries a valid threshold below 2^56 - 1 that is at most `rv`. */
  ghost predicate Passes(spans: seq<Span>, rv: nat) {
    exists s, digits :: s in spans && LetsPass(s, digits, rv)
  }

  /** A batch in which no span carries such a string never passes. */
  lemma NothingCarried(spans: seq<Span>, rv: nat)
    requires forall s, digits :: s in spans ==> !Carries(s, digits)
    ensures !Passes(spans, rv)
  {
  }

  /** `m` is the least of the thresholds below 2^56 - 1, or 2^56 - 1 if there is none. */
  ghost predicate IsMinThreshold(spans: seq<Span>, m: nat) {
    && m <= MAX_THRESHOLD
    && (forall s :: s in spans && GetThreshold(s).Some? ==>
        m <= GetThreshold(s).value || GetThreshold(s).value > MAX_THRESHOLD)
    && (m < MAX_THRESHOLD ==> exists s :: s in spans && GetThreshold(s) == Some(m))
  }

  lemma MinThresholdNext(spans: seq<Span>, x: Span, m: nat)
    requires IsMinThreshold(spans, m)
    ensures var t := GetThreshold(x);
            IsMinThreshold(spans + [x], if t.Some? && t.value < m then t.value else m)
  {
    assert x in spans + [x];
    assert forall s :: s in spans ==> s in spans + [x];
  }

  lemma MinThresholdDecides(spans: seq<Span>, m: nat, rv: nat)
    requires IsMinThreshold(spans, m)
    ensures Passes(spans, rv) <==> m < MAX_THRESHOLD && m <= rv
  {
    if Passes(spans, rv) {
      var s, digits :| s in spans && LetsPass(s, digits, rv);
      ThresholdIff(s);
    }
    if m < MAX_THRESHOLD && m <= rv {
      var s :| s in spans && GetThreshold(s) == Some(m);
      ThresholdIff(s);
      var digits :| Carries(s, digits);
      assert LetsPass(s, digits, rv);
    }
  }

  /** `Evaluate`: Sampled exactly when some span's threshold lets the trace ID pass. */
  method Evaluate(id: TraceID, batch: Traces) returns (d: Decision)
    requires id.WellFormed()
    ensures d == Sampled <==> Passes(Spans(batch), BigEndian(id.bytes[9..16]))
    ensures d == Sampled || d == Pending
  {
    var minThreshold := FindMinThreshold(batch);
    if minThreshold == MAX_THRESHOLD {
      MinThresholdDecides(Spans(batch), minThreshold, BigEndian(id.bytes[9..16]));
      return Pending;
    }
    RvIsBigEndian(id);
    MinThresholdDecides(Spans(batch), minThreshold, GetRv(id));
    d := if GetRv(id) >= minThreshold then Sampled else Pending;
  }

  /** The scan over the spans. */
  method FindMinThreshold(batch: Traces) returns (minThreshold: nat)
    ensures IsMinThreshold(Spans(batch), minThreshold)
  {
    minThreshold := MAX_THRESHOLD;
    var items := TraceIterator(batch, _ => true);
    ghost var spans := SpansOf(items);
    var i := 0;
    while i < |items|
      invariant i <= |items|
      invariant IsMinThreshold(spans[..i], minThreshold)
    {
      var threshold := GetThreshold(items[i].span);
      MinThresholdNext(spans[..i], items[i].span, minThreshold);
      assert spans[..i + 1] == spans[..i] + [items[i].span];
      if threshold.Some? && threshold.value < minThreshold {
        minThreshold := threshold.value;
      }
      i := i + 1;
    }
    assert spans[..i] == spans;
  }

  /** More spans can only help: a batch that passes still passes inside a larger one. */
  lemma MoreSpansStillSampled(a: Traces, b: Traces, c: Traces, rv: nat)
    requires Passes(Spans(b), rv)
    ensures Passes(Spans(a + b + c), rv)
  {
    ItemsConcat(a, b);
    ItemsConcat(a + b, c);
    SpansOfConcat(Items(a), Items(b));
    SpansOfConcat(Items(a + b), Items(c));
    var s, digits :| s in Spans(b) && LetsPass(s, digits, rv);
    assert s in Spans(a + b + c);
  }
}
