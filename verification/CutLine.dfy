// The smooth cut line and the solver for the moment the predicted weight meets
// it, in integers.
module CutLine {
  import opened Bytes

  const MIN_PREDICTION_RATE_X100: int := 300
  const MAX_LEAD_DG: int := 40
  const SOLVER_SPAN_MS: int := 65536
  const SOLVER_HALVINGS: nat := 16

  datatype Params = Params(
    goalDg: int, fastMarginDg: int, slowMarginDg: int, fastOn: bool, slowOn: bool,
    delayMs: int, fastBeforeMs: int, slowAfterMs: int, wallMs: int, rampMs: int)

  function CeilingDg(p: Params): int {
    p.goalDg + if p.fastOn then p.fastMarginDg else 0
  }

  function FloorDg(p: Params): int {
    p.goalDg - if p.slowOn then p.slowMarginDg else 0
  }

  function FastRampStartMs(p: Params): (a: int)
    ensures a <= p.fastBeforeMs
  {
    var a := if p.fastBeforeMs - p.rampMs > p.delayMs then p.fastBeforeMs - p.rampMs else p.delayMs;
    if a < p.fastBeforeMs then a else p.fastBeforeMs
  }

  function SlowRampEndMs(p: Params): (b: int)
    ensures b >= p.slowAfterMs
  {
    var b := if p.slowAfterMs + p.rampMs < p.wallMs then p.slowAfterMs + p.rampMs else p.wallMs;
    if b > p.slowAfterMs then b else p.slowAfterMs
  }

  // Part of a smoothstep over d behind its point n, out of d * d * d.
  function Smooth(n: int, d: int): int {
    3 * n * n * d - 2 * n * n * n
  }

  function Cube(d: int): int {
    d * d * d
  }

  // What is left of a margin n into a ramp of length d, rounded down.
  function RampDown(margin: int, n: int, d: int): int
    requires 0 <= n < d && margin >= 0
  {
    CubePositive(d);
    SmoothRange(n, d);
    TruncDiv(margin * (d * d * d - 3 * n * n * d + 2 * n * n * n), Cube(d))
  }

  // What has been given of a margin n into a ramp of length d, rounded down.
  function RampGiven(margin: int, n: int, d: int): int
    requires 0 <= n < d && margin >= 0
  {
    CubePositive(d);
    TruncDiv(margin * Smooth(n, d), Cube(d))
  }

  predicate Ordered(p: Params) {
    && p.fastMarginDg >= 0 && p.slowMarginDg >= 0
    && p.fastBeforeMs <= p.slowAfterMs && p.rampMs >= 0
  }

  function CutLineDg(p: Params, t: int): int
    requires Ordered(p)
  {
    var a := FastRampStartMs(p);
    if t < p.fastBeforeMs then
      if t < a then CeilingDg(p)
      else p.goalDg + RampDown(CeilingDg(p) - p.goalDg, t - a, p.fastBeforeMs - a)
    else if t < p.slowAfterMs || (t == p.slowAfterMs && p.rampMs > 0) then p.goalDg
    else
      var b := SlowRampEndMs(p);
      if t >= b then FloorDg(p)
      else p.goalDg - RampGiven(p.goalDg - FloorDg(p), t - p.slowAfterMs, b - p.slowAfterMs)
  }

  // ----- the smoothstep -----

  lemma CubePositive(d: int)
    requires d > 0
    ensures Cube(d) > 0
  {
    assert d * d > 0;
    assert d * d * d > 0;
  }

  // One step into a ramp gives 6n(d - n - 1) + 3d - 2 more.
  lemma SmoothStep(n: int, d: int)
    requires 0 <= n < d
    ensures Smooth(n, d) < Smooth(n + 1, d)
  {
    assert Smooth(n + 1, d) - Smooth(n, d) == 6 * (n * (d - n - 1)) + 3 * d - 2;
    NonNegative(n, d - n - 1);
  }

  lemma NonNegative(x: int, y: int)
    requires x >= 0 && y >= 0
    ensures x * y >= 0
  {
  }

  lemma {:induction false} SmoothRises(n: int, m: int, d: int)
    requires 0 <= n <= m <= d
    ensures Smooth(n, d) <= Smooth(m, d)
    decreases m - n
  {
    hide Smooth;
    if n < m {
      SmoothRises(n, m - 1, d);
      SmoothStep(m - 1, d);
    }
  }

  lemma SmoothEnds(d: int)
    ensures Smooth(0, d) == 0 && Smooth(d, d) == Cube(d)
  {
  }

  lemma SmoothRange(n: int, d: int)
    requires 0 <= n <= d
    ensures 0 <= Smooth(n, d) <= Cube(d)
  {
    hide Smooth, Cube;
    SmoothEnds(d);
    SmoothRises(0, n, d);
    SmoothRises(n, d, d);
  }

  // ----- rounding -----

  lemma DivMonotone(x: int, y: int, c: int)
    requires 0 <= x <= y && c > 0
    ensures 0 <= TruncDiv(x, c) <= TruncDiv(y, c)
  {
    DivOrder(x, y, c);
  }

  lemma AboveMinusOne(k: int, c: int)
    requires c > 0 && k * c > -c
    ensures k >= 0
  {
  }

  lemma DivOrder(x: int, y: int, c: int)
    requires x <= y && c > 0
    ensures x / c <= y / c
  {
    var q, r := x / c, y / c;
    assert x == q * c + x % c && y == r * c + y % c;
    assert (r - q) * c == r * c - q * c;
    AboveMinusOne(r - q, c);
  }

  lemma MulMonotone(m: int, x: int, y: int)
    requires m >= 0 && x <= y
    ensures m * x <= m * y
  {
  }

  lemma DivOfMultiple(m: int, c: int)
    requires m >= 0 && c > 0
    ensures TruncDiv(m * c, c) == m
  {
    NonNegative(m, c);
    QuotientOfProduct(m, c);
  }

  lemma SmallMultiple(k: int, c: int)
    requires 0 <= k * c < c
    ensures k == 0
  {
  }

  lemma QuotientOfProduct(m: int, c: int)
    requires c > 0
    ensures m * c / c == m
  {
    var x := m * c;
    var q := x / c;
    assert x == q * c + x % c;
    assert (m - q) * c == m * c - q * c;
    SmallMultiple(m - q, c);
  }

  lemma RampDownIs(margin: int, n: int, d: int)
    requires 0 <= n < d && margin >= 0
    ensures Cube(d) > 0
    ensures RampDown(margin, n, d) == TruncDiv(margin * (Cube(d) - Smooth(n, d)), Cube(d))
  {
    CubePositive(d);
    assert d * d * d - 3 * n * n * d + 2 * n * n * n == Cube(d) - Smooth(n, d);
  }

  lemma RampDownFalls(margin: int, n: int, m: int, d: int)
    requires 0 <= n <= m < d && margin >= 0
    ensures 0 <= RampDown(margin, m, d) <= RampDown(margin, n, d) <= margin
  {
    hide Smooth, Cube, RampDown, TruncDiv;
    RampDownIs(margin, n, d);
    RampDownIs(margin, m, d);
    SmoothRises(n, m, d);
    SmoothRange(n, d);
    SmoothRange(m, d);
    var c := Cube(d);
    NonNegative(margin, c - Smooth(m, d));
    MulMonotone(margin, c - Smooth(m, d), c - Smooth(n, d));
    MulMonotone(margin, c - Smooth(n, d), c);
    DivMonotone(margin * (c - Smooth(m, d)), margin * (c - Smooth(n, d)), c);
    DivMonotone(margin * (c - Smooth(n, d)), margin * c, c);
    DivOfMultiple(margin, c);
  }

  lemma RampGivenRises(margin: int, n: int, m: int, d: int)
    requires 0 <= n <= m < d && margin >= 0
    ensures 0 <= RampGiven(margin, n, d) <= RampGiven(margin, m, d) <= margin
  {
    hide Smooth, Cube, TruncDiv;
    CubePositive(d);
    SmoothRises(n, m, d);
    SmoothRange(n, d);
    SmoothRange(m, d);
    var c := Cube(d);
    NonNegative(margin, Smooth(n, d));
    MulMonotone(margin, Smooth(n, d), Smooth(m, d));
    MulMonotone(margin, Smooth(m, d), c);
    DivMonotone(margin * Smooth(n, d), margin * Smooth(m, d), c);
    DivMonotone(margin * Smooth(m, d), margin * c, c);
    DivOfMultiple(margin, c);
  }

  // ----- shape of the line -----

  // Which of the five pieces of the line a time is on.
  function Piece(p: Params, t: int): nat {
    if t < p.fastBeforeMs then (if t < FastRampStartMs(p) then 0 else 1)
    else if t < p.slowAfterMs || (t == p.slowAfterMs && p.rampMs > 0) then 2
    else if t < SlowRampEndMs(p) then 3 else 4
  }

  // Each piece has its own bounds, and they do not overlap.
  lemma PieceBounds(p: Params, t: int)
    requires Ordered(p)
    ensures match Piece(p, t)
            case 0 => CutLineDg(p, t) == CeilingDg(p)
            case 1 => p.goalDg <= CutLineDg(p, t) <= CeilingDg(p)
            case 2 => CutLineDg(p, t) == p.goalDg
            case 3 => FloorDg(p) <= CutLineDg(p, t) <= p.goalDg
            case _ => CutLineDg(p, t) == FloorDg(p)
  {
    hide RampDown, RampGiven;
    if Piece(p, t) == 1 {
      var a := FastRampStartMs(p);
      RampDownFalls(CeilingDg(p) - p.goalDg, t - a, t - a, p.fastBeforeMs - a);
    } else if Piece(p, t) == 3 {
      var n, d := t - p.slowAfterMs, SlowRampEndMs(p) - p.slowAfterMs;
      RampGivenRises(p.goalDg - FloorDg(p), n, n, d);
    }
  }

  // The line never rises.
  lemma CutLineFalls(p: Params, t: int, u: int)
    requires Ordered(p) && t <= u
    ensures CutLineDg(p, t) >= CutLineDg(p, u)
  {
    hide RampDown, RampGiven;
    PieceBounds(p, t);
    PieceBounds(p, u);
    assert Piece(p, t) <= Piece(p, u);
    if Piece(p, t) == 1 == Piece(p, u) {
      var a := FastRampStartMs(p);
      RampDownFalls(CeilingDg(p) - p.goalDg, t - a, u - a, p.fastBeforeMs - a);
    } else if Piece(p, t) == 3 == Piece(p, u) {
      RampGivenRises(p.goalDg - FloorDg(p), t - p.slowAfterMs, u - p.slowAfterMs,
                     SlowRampEndMs(p) - p.slowAfterMs);
    }
  }

  lemma CutLineBounds(p: Params, t: int)
    requires Ordered(p)
    ensures FloorDg(p) <= CutLineDg(p, t) <= CeilingDg(p)
  {
    PieceBounds(p, t);
  }

  // Without a ramp the line is the ceiling, the target and the floor in steps.
  lemma NoRampIsSteps(p: Params, t: int)
    requires Ordered(p) && p.rampMs == 0
    ensures CutLineDg(p, t) ==
      if t < p.fastBeforeMs then CeilingDg(p) else if t < p.slowAfterMs then p.goalDg else FloorDg(p)
  {
    PieceBounds(p, t);
  }

  predicate Int64(x: int) {
    -0x8000_0000_0000_0000 <= x <= 0x7FFF_FFFF_FFFF_FFFF
  }

  const RAMP_LIMIT_MS := 25500

  // Every product and sum of the two ramp cubics, in the order they are formed.
  predicate CubicFits(margin: int, n: int, d: int) {
    && Int64(d * d) && Int64(d * d * d) && Int64(3 * n) && Int64(3 * n * n) && Int64(3 * n * n * d)
    && Int64(2 * n) && Int64(2 * n * n) && Int64(2 * n * n * n)
    && Int64(d * d * d - 3 * n * n * d) && Int64(d * d * d - 3 * n * n * d + 2 * n * n * n)
    && Int64(3 * n * n * d - 2 * n * n * n)
    && Int64(margin * (d * d * d - 3 * n * n * d + 2 * n * n * n))
    && Int64(margin * (3 * n * n * d - 2 * n * n * n))
  }

  lemma ProductRange(x: int, y: int, m: int, l: int)
    requires 0 <= x <= m && 0 <= y <= l
    ensures 0 <= x * y <= m * l
  {
    MulMonotone(x, y, l);
    MulMonotone(l, x, m);
    NonNegative(x, y);
  }

  lemma CubeRange(x: int, y: int, z: int)
    requires 0 <= x <= RAMP_LIMIT_MS && 0 <= y <= RAMP_LIMIT_MS && 0 <= z <= RAMP_LIMIT_MS
    ensures 0 <= x * y <= 650_250_000
    ensures 0 <= x * y * z <= 16_581_375_000_000
  {
    ProductRange(x, y, RAMP_LIMIT_MS, RAMP_LIMIT_MS);
    ProductRange(x * y, z, 650_250_000, RAMP_LIMIT_MS);
  }

  lemma TimesCube(k: int, x: int, y: int, z: int)
    ensures k * x * y * z == k * (x * y * z) && k * x * y == k * (x * y)
  {
  }

  lemma CubicsFit(margin: int, n: int, d: int)
    requires 0 <= n <= d <= RAMP_LIMIT_MS && 0 <= margin <= 0xFFFF
    ensures CubicFits(margin, n, d)
  {
    CubeRange(d, d, d);
    CubeRange(n, n, d);
    CubeRange(n, n, n);
    TimesCube(3, n, n, d);
    TimesCube(2, n, n, n);
    SmoothRange(n, d);
    ProductRange(margin, Smooth(n, d), 0xFFFF, 16_581_375_000_000);
    ProductRange(margin, Cube(d) - Smooth(n, d), 0xFFFF, 16_581_375_000_000);
    assert d * d * d - 3 * n * n * d + 2 * n * n * n == Cube(d) - Smooth(n, d);
  }

  // Whatever the time, nothing the line computes on its ramps leaves a signed
  // 64-bit integer: margins fit 16 bits and a ramp the byte that records it.
  lemma CutLineFitsInt64(p: Params, t: int)
    requires Ordered(p) && p.rampMs <= RAMP_LIMIT_MS && p.fastMarginDg <= 0xFFFF && p.slowMarginDg <= 0xFFFF
    ensures var a := FastRampStartMs(p);
            a <= t < p.fastBeforeMs ==> CubicFits(CeilingDg(p) - p.goalDg, t - a, p.fastBeforeMs - a)
    ensures var b := SlowRampEndMs(p);
            p.slowAfterMs <= t < b ==> CubicFits(p.goalDg - FloorDg(p), t - p.slowAfterMs, b - p.slowAfterMs)
  {
    hide CubicFits;
    var a, b := FastRampStartMs(p), SlowRampEndMs(p);
    if a <= t < p.fastBeforeMs {
      CubicsFit(CeilingDg(p) - p.goalDg, t - a, p.fastBeforeMs - a);
    }
    if p.slowAfterMs <= t < b {
      CubicsFit(p.goalDg - FloorDg(p), t - p.slowAfterMs, b - p.slowAfterMs);
    }
  }
  // ----- when the predicted weight meets the line -----

  function LeadDg(rateX100: int, tau: int): int {
    var lead := TruncDiv(rateX100 * tau, 100000);
    if lead > MAX_LEAD_DG then MAX_LEAD_DG else lead
  }

  function Ahead(rateX100: int, ms: int): int {
    TruncDiv(rateX100 * ms, 100000)
  }

  predicate Met(p: Params, tk: int, weight: int, rateX100: int, reach: int, t: int)
    requires Ordered(p)
  {
    weight + Ahead(rateX100, t - tk) + reach >= CutLineDg(p, t)
  }

  lemma AheadRises(rateX100: int, x: int, y: int)
    requires rateX100 >= 0 && 0 <= x <= y
    ensures Ahead(rateX100, x) <= Ahead(rateX100, y)
  {
    hide TruncDiv;
    NonNegative(rateX100, x);
    MulMonotone(rateX100, x, y);
    DivMonotone(rateX100 * x, rateX100 * y, 100000);
  }

  // Once met, the line stays met.
  lemma MetStays(p: Params, tk: int, weight: int, rateX100: int, reach: int, t: int, u: int)
    requires Ordered(p) && rateX100 >= 0 && tk <= t <= u
    requires Met(p, tk, weight, rateX100, reach, t)
    ensures Met(p, tk, weight, rateX100, reach, u)
  {
    hide CutLineDg, Ahead;
    CutLineFalls(p, t, u);
    AheadRises(rateX100, t - tk, u - tk);
  }

  // The answer: now when the line is already met or the wall is past, the wall
  // when it is never met, else the first millisecond that meets it.
  predicate Crossing(p: Params, tk: int, weight: int, rateX100: int, reach: int, out: int)
    requires Ordered(p)
  {
    if tk >= p.wallMs || Met(p, tk, weight, rateX100, reach, tk) then out == tk
    else if !Met(p, tk, weight, rateX100, reach, p.wallMs) then out == p.wallMs
    else
      && tk < out <= p.wallMs && Met(p, tk, weight, rateX100, reach, out)
      && forall t :: tk <= t < out ==> !Met(p, tk, weight, rateX100, reach, t)
  }

  function Half(n: nat): nat {
    if n == 0 then 1 else 2 * Half(n - 1)
  }

  method CrossingMs(p: Params, tk: int, weight: int, rateX100: int, tau: int, offset: int)
    returns (found: bool, out: int, ghost halvings: nat)
    requires Ordered(p)
    ensures found <==> rateX100 >= MIN_PREDICTION_RATE_X100
    ensures found ==> Crossing(p, tk, weight, rateX100, LeadDg(rateX100, tau) + offset, out)
    ensures p.wallMs - tk < SOLVER_SPAN_MS ==> halvings <= SOLVER_HALVINGS
  {
    hide Met, LeadDg;
    halvings := 0;
    if rateX100 < MIN_PREDICTION_RATE_X100 {
      return false, 0, 0;
    }
    var reach := LeadDg(rateX100, tau) + offset;
    if tk >= p.wallMs || Met(p, tk, weight, rateX100, reach, tk) {
      return true, tk, 0;
    }
    if !Met(p, tk, weight, rateX100, reach, p.wallMs) {
      return true, p.wallMs, 0;
    }
    var lo, hi := tk, p.wallMs;
    assert Half(16) == SOLVER_SPAN_MS by {
      assert Half(8) == 256;
    }
    while hi - lo > 1
      invariant tk <= lo < hi <= p.wallMs
      invariant !Met(p, tk, weight, rateX100, reach, lo) && Met(p, tk, weight, rateX100, reach, hi)
      invariant p.wallMs - tk < SOLVER_SPAN_MS ==>
        halvings <= SOLVER_HALVINGS && hi - lo <= Half(SOLVER_HALVINGS - halvings)
      decreases hi - lo
    {
      var mid := lo + (hi - lo) / 2;
      if Met(p, tk, weight, rateX100, reach, mid) {
        hi := mid;
      } else {
        lo := mid;
      }
      halvings := halvings + 1;
    }
    forall t | tk <= t < hi
      ensures !Met(p, tk, weight, rateX100, reach, t)
    {
      if Met(p, tk, weight, rateX100, reach, t) {
        MetStays(p, tk, weight, rateX100, reach, t, lo);
      }
    }
    return true, hi, halvings;
  }
}
