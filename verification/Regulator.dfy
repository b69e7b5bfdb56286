/** The heap regulator: a modal controller over the capacity of the primary cache
    (internal/memory/regulator.go), in exact arithmetic. */
module Regulator {
  import opened Pdata

  const GROW_THRESHOLD: real := 0.85
  const MODERATE_PRESSURE_THRESHOLD: real := 1.0
  const HIGH_PRESSURE_THRESHOLD: real := 1.15
  const EMERGENCY_THRESHOLD: real := 1.3
  const GROW_MULTIPLIER: real := 1.02

  datatype Mode = Emergency | HighPressure | ModeratePressure | Grow | Steady

  datatype Params = Params(minSize: nat, maxSize: nat, targetHeap: nat) {
    predicate Valid() { targetHeap > 0 && minSize < maxSize }

    /** The mode, by the ratio of the heap to its target. */
    function ModeAt(heap: nat): (m: Mode)
      requires Valid()
      ensures m == ModeByProduct(heap as real, targetHeap as real)
    {
      var ratio := heap as real / targetHeap as real;
      RatioIsProduct(heap as real, targetHeap as real);
      if ratio > EMERGENCY_THRESHOLD then Emergency
      else if ratio > HIGH_PRESSURE_THRESHOLD then HighPressure
      else if ratio > MODERATE_PRESSURE_THRESHOLD then ModeratePressure
      else if ratio < GROW_THRESHOLD then Grow
      else Steady
    }

    /** The capacity asked for before clamping. */
    function Proposed(currSize: nat, heap: nat): int
      requires Valid()
    {
      match ModeAt(heap)
      case Emergency => minSize
      case HighPressure => HighSize(currSize as real, targetHeap as real / heap as real)
      case ModeratePressure => ModerateSize(currSize as real, targetHeap as real, heap as real)
      case Grow => (currSize as real * GROW_MULTIPLIER).Floor
      case Steady => currSize
    }

    function Clamp(x: int): int {
      if x > maxSize then maxSize else if x < minSize then minSize else x
    }

    function NewSize(currSize: nat, heap: nat): (n: nat)
      requires Valid()
      ensures minSize <= n <= maxSize
    {
      Clamp(Proposed(currSize, heap))
    }
  }

  function HighSize(size: real, scale: real): int {
    (size * scale * scale).Floor
  }

  function ModerateSize(size: real, target: real, heap: real): int
    requires heap > 0.0
  {
    (size * target / heap).Floor
  }

  /** The same comparisons without a division. */
  function ModeByProduct(heap: real, target: real): Mode {
    if heap > EMERGENCY_THRESHOLD * target then Emergency
    else if heap > HIGH_PRESSURE_THRESHOLD * target then HighPressure
    else if heap > MODERATE_PRESSURE_THRESHOLD * target then ModeratePressure
    else if heap < GROW_THRESHOLD * target then Grow
    else Steady
  }

  lemma RatioIsProduct(heap: real, target: real)
    requires target > 0.0
    ensures heap / target > EMERGENCY_THRESHOLD <==> heap > EMERGENCY_THRESHOLD * target
    ensures heap / target > HIGH_PRESSURE_THRESHOLD <==> heap > HIGH_PRESSURE_THRESHOLD * target
    ensures heap / target > MODERATE_PRESSURE_THRESHOLD <==> heap > MODERATE_PRESSURE_THRESHOLD * target
    ensures heap / target < GROW_THRESHOLD <==> heap < GROW_THRESHOLD * target
  {
    DivAtMost(heap, target, EMERGENCY_THRESHOLD);
    DivAtMost(heap, target, HIGH_PRESSURE_THRESHOLD);
    DivAtMost(heap, target, MODERATE_PRESSURE_THRESHOLD);
    DivAtLeast(heap, target, GROW_THRESHOLD);
  }

  lemma DivAtMost(a: real, b: real, c: real)
    requires b > 0.0
    ensures a / b <= c <==> a <= c * b
  {
  }

  lemma DivAtLeast(a: real, b: real, c: real)
    requires b > 0.0
    ensures a / b >= c <==> a >= c * b
  {
  }

  /** `NewRegulator`'s validation of its sizes. */
  function NewRegulator(minSize: int, maxSize: int, targetHeap: nat): (r: Result<Params>)
    ensures r.Ok? <==> 0 <= minSize < maxSize && targetHeap > 0
    ensures r.Ok? ==> r.value.Valid() && r.value.minSize == minSize && r.value.maxSize == maxSize
  {
    if minSize < 0 || maxSize <= 0 || targetHeap <= 0 then Err("invalid input values")
    else if maxSize <= minSize then Err("maxSize must be larger than minSize")
    else Ok(Params(minSize, maxSize, targetHeap))
  }

  // ----- each mode scales the size by a factor and truncates -----

  /** `n` is `c` scaled by `f` and truncated. */
  ghost predicate Scaled(n: int, c: nat, f: real) {
    0.0 <= f && n == Truncated(c as real, f)
  }

  function Truncated(c: real, f: real): int {
    (c * f).Floor
  }

  function Square(s: real): real {
    s * s
  }

  /** The factor of each mode. It never grows with the heap, across the modes and within them. */
  function Factor(mode: Mode, scale: real): real {
    match mode
    case Emergency => 0.0
    case HighPressure => Square(scale)
    case ModeratePressure => scale
    case Grow => GROW_MULTIPLIER
    case Steady => 1.0
  }

  function Scale(r: Params, heap: nat): real {
    if heap == 0 then 1.0 else r.targetHeap as real / heap as real
  }

  lemma ScaleRange(t: real, h: real)
    requires 0.0 < t < h
    ensures 0.0 < t / h < 1.0
  {
    DivAtMost(t, h, 0.0);
    DivAtLeast(t, h, 1.0);
  }

  lemma ScaleAntitone(t: real, h1: real, h2: real)
    requires 0.0 < t && 0.0 < h1 <= h2
    ensures t / h2 <= t / h1
  {
    var x := t / h1;
    assert x > 0.0 by { DivAtMost(t, h1, 0.0); }
    MulMono(x, h1, h2);
    assert x * h1 == t;
    DivAtMost(t, h2, x);
  }

  lemma MulMono(c: real, x: real, y: real)
    requires 0.0 <= c && x <= y
    ensures c * x <= c * y
  {
  }

  lemma ProductMono(x: real, y: real)
    requires 0.0 <= x <= y <= 1.0
    ensures 0.0 <= x * x <= y * y <= y
  {
    MulMono(x, 0.0, x);
    MulMono(x, x, y);
    MulMono(y, x, y);
    MulMono(y, y, 1.0);
  }

  lemma SquareIs(x: real, p: real)
    requires p == x * x
    ensures Square(x) == p
  {
  }

  lemma SquareMono(x: real, y: real)
    requires 0.0 <= x <= y <= 1.0
    ensures 0.0 <= Square(x) <= Square(y) <= y
  {
    ProductMono(x, y);
    var p, q := x * x, y * y;
    SquareIs(x, p);
    SquareIs(y, q);
    assert 0.0 <= p <= q <= y;
  }

  lemma HighIsScaled(c: real, s: real)
    ensures HighSize(c, s) == Truncated(c, Square(s))
  {
    assert HighSize(c, s) == (c * s * s).Floor;
    assert Square(s) == s * s;
    assert c * s * s == c * (s * s) == c * Square(s);
  }

  lemma TruncatedIs(c: real, s: real, y: real)
    requires y == c * s
    ensures Truncated(c, s) == y.Floor
  {
  }

  lemma ModerateSizeIs(c: real, t: real, h: real, x: real)
    requires h > 0.0 && x == c * t / h
    ensures ModerateSize(c, t, h) == x.Floor
  {
  }

  lemma ModerateProducts(c: real, t: real, h: real, s: real)
    requires h > 0.0 && s * h == t
    ensures c * t / h == c * s
  {
    assert c * t == c * (s * h) == (c * s) * h;
    DivMul(c * s, h);
  }

  lemma ModerateIsScaled(c: real, t: real, h: real, s: real)
    requires h > 0.0 && s * h == t
    ensures ModerateSize(c, t, h) == Truncated(c, s)
  {
    var x := c * t / h;
    ModerateProducts(c, t, h, s);
    ModerateSizeIs(c, t, h, x);
    TruncatedIs(c, s, x);
  }

  lemma DivTimes(t: real, h: real)
    requires h > 0.0
    ensures t / h * h == t
  {
  }

  lemma DivMul(x: real, h: real)
    requires h > 0.0
    ensures x * h / h == x
  {
  }

  lemma ProposedIsScaled(r: Params, c: nat, heap: nat)
    requires r.Valid() && r.ModeAt(heap) != Emergency
    ensures Scaled(r.Proposed(c, heap), c, Factor(r.ModeAt(heap), Scale(r, heap)))
  {
    match r.ModeAt(heap)
    case HighPressure => HighMode(r, c, heap);
    case ModeratePressure => ModerateMode(r, c, heap);
    case _ =>
  }

  lemma HighMode(r: Params, c: nat, heap: nat)
    requires r.Valid() && r.ModeAt(heap) == HighPressure
    ensures Scaled(r.Proposed(c, heap), c, Factor(HighPressure, Scale(r, heap)))
  {
    ScaleRange(r.targetHeap as real, heap as real);
    HighIsScaled(c as real, Scale(r, heap));
    SquareMono(Scale(r, heap), Scale(r, heap));
  }

  lemma ModerateMode(r: Params, c: nat, heap: nat)
    requires r.Valid() && r.ModeAt(heap) == ModeratePressure
    ensures Scaled(r.Proposed(c, heap), c, Factor(ModeratePressure, Scale(r, heap)))
  {
    var t, h := r.targetHeap as real, heap as real;
    ScaleRange(t, h);
    DivTimes(t, h);
    ModerateIsScaled(c as real, t, h, Scale(r, heap));
  }

  // ----- the same controller in integers -----

  lemma RealProduct(a: int, b: int)
    ensures (a * b) as real == a as real * b as real
  {
  }

  lemma StrictProduct(x: real, y: real, b: real)
    requires b > 0.0 && x < y
    ensures x * b < y * b
  {
  }

  lemma ByProduct(x: real, y: real, b: real)
    requires b > 0.0
    ensures x * b < y * b ==> x < y
    ensures x * b <= y * b ==> x <= y
  {
    if x > y { StrictProduct(y, x, b); }
  }

  lemma FloorIs(y: real, q: int)
    requires q as real <= y < (q + 1) as real
    ensures y.Floor == q
  {
  }

  lemma FloorBetween(y: real, b: real, q: int)
    requires b > 0.0 && q as real * b <= y * b < (q + 1) as real * b
    ensures y.Floor == q
  {
    ByProduct(q as real, y, b);
    ByProduct(y, (q + 1) as real, b);
    FloorIs(y, q);
  }

  lemma DivBounds(a: nat, b: nat)
    requires b > 0
    ensures (a / b) as real * b as real <= a as real < (a / b + 1) as real * b as real
  {
    var q := a / b;
    assert q * b <= a < (q + 1) * b;
    RealProduct(q, b);
    RealProduct(q + 1, b);
  }

  /** Truncating a quotient is dividing the integers. */
  lemma FloorIsDiv(y: real, a: nat, b: nat)
    requires b > 0 && y * b as real == a as real
    ensures y.Floor == a / b
  {
    DivBounds(a, b);
    FloorBetween(y, b as real, a / b);
  }

  ghost function ModeByIntegers(heap: nat, target: nat): Mode {
    if 10 * heap > 13 * target then Emergency
    else if 100 * heap > 115 * target then HighPressure
    else if heap > target then ModeratePressure
    else if 100 * heap < 85 * target then Grow
    else Steady
  }

  /** The size that a mode asks for: the minimum in an emergency, the size scaled by the square of the
      target-to-heap ratio or by that ratio under pressure, and 2% more when there is slack. */
  ghost function SizeByIntegers(mode: Mode, min: nat, c: nat, heap: nat, target: nat): nat
    requires mode == HighPressure || mode == ModeratePressure ==> heap > 0
  {
    match mode
    case Emergency => min
    case HighPressure => Quotient(c * target * target, heap * heap)
    case ModeratePressure => Quotient(c * target, heap)
    case Grow => Quotient(102 * c, 100)
    case Steady => c
  }

  ghost function Quotient(a: nat, b: nat): nat {
    if b == 0 then 0 else a / b
  }

  lemma HighQuotient(c: nat, t: nat, h: nat)
    requires h > 0
    ensures HighSize(c as real, t as real / h as real) == Quotient(c * t * t, h * h)
  {
    var s, y := t as real / h as real, Square(t as real / h as real);
    HighIsScaled(c as real, s);
    DivTimes(t as real, h as real);
    ProductOfSquares(c as real, s, t as real, h as real);
    RealProduct(c, t);
    RealProduct(c * t, t);
    RealProduct(h, h);
    var x := c as real * y;
    TruncatedIs(c as real, y, x);
    FloorIsDiv(x, c * t * t, h * h);
  }

  lemma ProductOfSquares(c: real, s: real, t: real, h: real)
    requires s * h == t
    ensures c * Square(s) * (h * h) == c * t * t
  {
    assert Square(s) * (h * h) == (s * h) * (s * h);
  }

  lemma ModerateQuotient(c: nat, t: nat, h: nat)
    requires h > 0
    ensures ModerateSize(c as real, t as real, h as real) == Quotient(c * t, h)
  {
    var x := c as real * t as real / h as real;
    RealProduct(c, t);
    DivTimes(c as real * t as real, h as real);
    ModerateSizeIs(c as real, t as real, h as real, x);
    FloorIsDiv(x, c * t, h);
  }

  /** For every heap and every size, with the comparisons and the divisions done in integers. */
  lemma NewSizeByIntegers(r: Params, c: nat, heap: nat)
    requires r.Valid()
    ensures r.ModeAt(heap) == ModeByIntegers(heap, r.targetHeap)
    ensures var x := SizeByIntegers(ModeByIntegers(heap, r.targetHeap), r.minSize, c, heap, r.targetHeap);
            && (x < r.minSize ==> r.NewSize(c, heap) == r.minSize)
            && (r.minSize <= x <= r.maxSize ==> r.NewSize(c, heap) == x)
            && (x > r.maxSize ==> r.NewSize(c, heap) == r.maxSize)
  {
    match r.ModeAt(heap)
    case HighPressure => HighQuotient(c, r.targetHeap, heap);
    case ModeratePressure => ModerateQuotient(c, r.targetHeap, heap);
    case Grow => FloorIsDiv(c as real * GROW_MULTIPLIER, 102 * c, 100);
    case _ =>
  }

  // ----- monotone in the heap -----

  /** The scales of two heaps, above the target and in that order. */
  lemma ScalesMono(t: real, h1: real, h2: real)
    requires 0.0 < t < h1 <= h2
    ensures 0.0 < t / h2 <= t / h1 < 1.0
  {
    ScaleRange(t, h1);
    ScaleRange(t, h2);
    ScaleAntitone(t, h1, h2);
  }

  lemma FactorsMono(m1: Mode, s1: real, m2: Mode, s2: real)
    requires m1 == m2 || m2 == Emergency || m1 == Grow || (m1 == Steady && m2 != Grow)
             || (m1 == ModeratePressure && m2 == HighPressure)
    requires 0.0 < s2 <= s1 <= 1.0
    ensures Factor(m2, s2) <= Factor(m1, s1)
  {
    SquareMono(s2, s1);
  }

  lemma FactorMono(r: Params, h1: nat, h2: nat)
    requires r.Valid() && h1 <= h2
    ensures Factor(r.ModeAt(h2), Scale(r, h2)) <= Factor(r.ModeAt(h1), Scale(r, h1))
  {
    if h2 > r.targetHeap {
      ScalesMono(r.targetHeap as real, h2 as real, h2 as real);
      if h1 > r.targetHeap {
        ScalesMono(r.targetHeap as real, h1 as real, h2 as real);
        FactorsMono(r.ModeAt(h1), Scale(r, h1), r.ModeAt(h2), Scale(r, h2));
      } else {
        FactorsMono(r.ModeAt(h1), 1.0, r.ModeAt(h2), Scale(r, h2));
      }
    }
  }

  lemma ScaledMono(n: int, m: int, c: nat, f: real, g: real)
    requires Scaled(n, c, f) && Scaled(m, c, g) && f <= g
    ensures n <= m
  {
    MulMono(c as real, f, g);
  }

  /** More heap never means a larger cache, across all five modes and their boundaries. */
  lemma NewSizeAntitone(r: Params, c: nat, h1: nat, h2: nat)
    requires r.Valid() && h1 <= h2
    ensures r.NewSize(c, h2) <= r.NewSize(c, h1)
  {
    if r.ModeAt(h2) != Emergency {
      ProposedIsScaled(r, c, h1);
      ProposedIsScaled(r, c, h2);
      FactorMono(r, h1, h2);
      ScaledMono(r.Proposed(c, h2), r.Proposed(c, h1), c,
                 Factor(r.ModeAt(h2), Scale(r, h2)), Factor(r.ModeAt(h1), Scale(r, h1)));
    }
  }

  // ----- convergence at a fixed heap -----

  function Iterate(r: Params, c: nat, heap: nat, n: nat): nat
    requires r.Valid()
  {
    if n == 0 then c else r.NewSize(Iterate(r, c, heap, n - 1), heap)
  }

  lemma ScaledBelow(n: int, c: nat, f: real)
    requires Scaled(n, c, f) && f < 1.0
    ensures n <= c && (c > 0 ==> n < c)
  {
    MulMono(c as real, f, 1.0);
    if c > 0 { StrictMul(c as real, f); }
  }

  lemma StrictMul(c: real, f: real)
    requires c > 0.0 && f < 1.0
    ensures c * f < c
  {
  }

  lemma PressureFactor(r: Params, heap: nat)
    requires r.Valid() && heap > r.targetHeap
    ensures Factor(r.ModeAt(heap), Scale(r, heap)) < 1.0
  {
    var t, h := r.targetHeap as real, heap as real;
    ScaleRange(t, h);
    SquareMono(t / h, t / h);
  }

  lemma ShrinkStep(r: Params, c: nat, heap: nat)
    requires r.Valid() && heap > r.targetHeap && r.minSize <= c <= r.maxSize
    ensures r.minSize <= r.NewSize(c, heap)
    ensures if c > r.minSize then r.NewSize(c, heap) < c else r.NewSize(c, heap) == c
  {
    if r.ModeAt(heap) != Emergency {
      ProposedIsScaled(r, c, heap);
      PressureFactor(r, heap);
      ScaledBelow(r.Proposed(c, heap), c, Factor(r.ModeAt(heap), Scale(r, heap)));
    }
  }

  lemma GrowStep(r: Params, c: nat, heap: nat)
    requires r.Valid() && r.ModeAt(heap) == Grow && r.minSize <= c <= r.maxSize
    ensures c >= 50 && c < r.maxSize ==> c < r.NewSize(c, heap)
    ensures c < 50 || c == r.maxSize ==> r.NewSize(c, heap) == c
  {
  }

  /** Above target the size reaches the minimum, within as many steps as it was above it, and then
      stays there. */
  lemma {:induction false} PressureReachesMin(r: Params, c: nat, heap: nat, n: nat)
    requires r.Valid() && heap > r.targetHeap && r.minSize <= c <= r.maxSize
    ensures r.minSize <= Iterate(r, c, heap, n) <= (if c - n > r.minSize then c - n else r.minSize)
    ensures n >= c - r.minSize ==> Iterate(r, c, heap, n) == r.minSize
  {
    if n > 0 {
      PressureReachesMin(r, c, heap, n - 1);
      ShrinkStep(r, Iterate(r, c, heap, n - 1), heap);
    }
  }

  /** Below 85% of the target the size reaches the maximum if it is at least 50, and otherwise never
      moves: a cache that an emergency shrank below 50 entries stays that small. */
  lemma {:induction false} SlackReachesMaxIff50(r: Params, c: nat, heap: nat, n: nat)
    requires r.Valid() && heap as real < GROW_THRESHOLD * r.targetHeap as real && r.minSize <= c <= r.maxSize
    ensures c < 50 ==> Iterate(r, c, heap, n) == c
    ensures c >= 50 ==> (if c + n < r.maxSize then c + n else r.maxSize) <= Iterate(r, c, heap, n) <= r.maxSize
    ensures c >= 50 && n >= r.maxSize - c ==> Iterate(r, c, heap, n) == r.maxSize
  {
    if n > 0 {
      SlackReachesMaxIff50(r, c, heap, n - 1);
      GrowStep(r, Iterate(r, c, heap, n - 1), heap);
    }
  }

  /** Between the two thresholds, bounds included, nothing moves. */
  lemma {:induction false} SteadyZoneIsFixed(r: Params, c: nat, heap: nat, n: nat)
    requires r.Valid() && r.minSize <= c <= r.maxSize
    requires GROW_THRESHOLD * r.targetHeap as real <= heap as real <= r.targetHeap as real
    ensures Iterate(r, c, heap, n) == c
  {
    if n > 0 { SteadyZoneIsFixed(r, c, heap, n - 1); }
  }

  // ----- the capacity of the primary cache over a whole life -----

  /** 60% of the configured size, truncated. */
  function InitialSize(p: nat): nat {
    (0.6 * p as real).Floor
  }

  lemma InitialSizeIs(p: nat)
    ensures InitialSize(p) == 6 * p / 10
  {
    FloorIsDiv(0.6 * p as real, 6 * p, 10);
  }

  function After(r: Params, c: nat, heaps: seq<nat>): nat
    requires r.Valid()
  {
    if heaps == [] then c else r.NewSize(After(r, c, heaps[..|heaps| - 1]), heaps[|heaps| - 1])
  }

  /** From the 60% start, and whatever the heap does, the capacity stays within a quarter of the
      configured size and the configured size. */
  lemma {:induction false} CapacityStaysInRange(p: nat, target: nat, heaps: seq<nat>)
    requires p >= 2 && target > 0
    ensures NewRegulator(p / 4, p, target).Ok?
    ensures InitialSize(p) > 0
    ensures p / 4 <= After(NewRegulator(p / 4, p, target).value, InitialSize(p), heaps) <= p
  {
    if heaps != [] { CapacityStaysInRange(p, target, heaps[..|heaps| - 1]); }
  }
}
