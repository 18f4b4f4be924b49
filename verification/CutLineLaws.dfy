// The ramps of the cut line against the curve they stand for: within one tenth
// of a gram of a smoothstep between their ends, rounded toward the target.
module CutLineLaws {
  import opened Bytes
  import opened CutLine

  // From 0 at 0 to 1 at 1, flat at both ends.
  function Smoothstep(x: real): real {
    x * x * (3.0 - 2.0 * x)
  }

  // It treats both ends alike.
  lemma SmoothstepMirrors(x: real)
    ensures Smoothstep(0.0) == 0.0 && Smoothstep(1.0) == 1.0
    ensures Smoothstep(x) + Smoothstep(1.0 - x) == 1.0
  {
    var y := 1.0 - x;
    assert y * y == 1.0 - 2.0 * x + x * x;
    assert y * y * (3.0 - 2.0 * y) == (1.0 - 2.0 * x + x * x) * (1.0 + 2.0 * x);
    assert (1.0 - 2.0 * x + x * x) * (1.0 + 2.0 * x) == 1.0 - 3.0 * (x * x) + 2.0 * (x * x * x);
    assert x * x * (3.0 - 2.0 * x) == 3.0 * (x * x) - 2.0 * (x * x * x);
  }

  lemma RealCube(n: int, d: int)
    ensures Cube(d) as real == d as real * d as real * d as real
    ensures Smooth(n, d) as real
         == 3.0 * (n as real * n as real * d as real) - 2.0 * (n as real * n as real * n as real)
  {
    RealProduct(d, d);
    RealProduct(d * d, d);
    RealProduct(n, n);
    RealProduct(n * n, d);
    RealProduct(n * n, n);
    assert 3 * n * n * d == 3 * (n * n * d) && 2 * n * n * n == 2 * (n * n * n);
  }

  lemma ScaledSmoothstep(z: real, n: real, d: real)
    requires z * d == n
    ensures Smoothstep(z) * (d * d * d) == 3.0 * (n * n * d) - 2.0 * (n * n * n)
  {
    assert z * z * (3.0 - 2.0 * z) * (d * d * d) == (z * d) * (z * d) * (3.0 * d - 2.0 * (z * d)) by {
      Regroup(z, d);
    }
    assert n * n * (3.0 * d - 2.0 * n) == 3.0 * (n * n * d) - 2.0 * (n * n * n);
  }

  lemma Regroup(z: real, d: real)
    ensures z * z * (3.0 - 2.0 * z) * (d * d * d) == (z * d) * (z * d) * (3.0 * d - 2.0 * (z * d))
  {
    var w := 3.0 - 2.0 * z;
    assert w * d == 3.0 * d - 2.0 * (z * d);
    assert z * z * w * (d * d * d) == z * z * d * d * (w * d);
    assert z * z * d * d == (z * d) * (z * d);
  }

  // The cubic of the ramps is the smoothstep times the cube.
  lemma SmoothIs(n: int, d: int)
    requires d > 0
    ensures Smoothstep(n as real / d as real) * Cube(d) as real == Smooth(n, d) as real
  {
    hide Smoothstep, Smooth, Cube;
    QuotientTimes(n as real, d as real);
    ScaledSmoothstep(n as real / d as real, n as real, d as real);
    RealCube(n, d);
  }

  lemma Associate(m: real, s: real, c: real)
    ensures m * s * c == m * (s * c)
    ensures m * (1.0 - s) * c == m * (c - s * c)
  {
    assert (1.0 - s) * c == c - s * c;
    Group(m, 1.0 - s, c);
    Group(m, s, c);
  }

  lemma Group(x: real, y: real, z: real)
    ensures x * y * z == x * (y * z)
  {
  }

  lemma GivenFollows(margin: int, n: int, d: int)
    requires 0 <= n < d && margin >= 0
    ensures var z := margin as real * Smoothstep(n as real / d as real);
            RampGiven(margin, n, d) as real <= z < RampGiven(margin, n, d) as real + 1.0
  {
    hide Smoothstep, Smooth, Cube, TruncDiv;
    var s := Smoothstep(n as real / d as real);
    CubePositive(d);
    SmoothIs(n, d);
    SmoothRange(n, d);
    Associate(margin as real, s, Cube(d) as real);
    RealProduct(margin, Smooth(n, d));
    TruncBetween(margin * Smooth(n, d), Cube(d), margin as real * s);
    NonNegative(margin, Smooth(n, d));
    RealOrder(0.0, margin as real * s, Cube(d) as real);
  }

  lemma LeftFollows(margin: int, n: int, d: int)
    requires 0 <= n < d && margin >= 0
    ensures var z := margin as real * (1.0 - Smoothstep(n as real / d as real));
            RampDown(margin, n, d) as real <= z < RampDown(margin, n, d) as real + 1.0
  {
    hide Smoothstep, Smooth, Cube, TruncDiv, RampDown;
    var s := Smoothstep(n as real / d as real);
    RampDownIs(margin, n, d);
    SmoothIs(n, d);
    SmoothRange(n, d);
    Associate(margin as real, s, Cube(d) as real);
    RealProduct(margin, Cube(d) - Smooth(n, d));
    TruncBetween(margin * (Cube(d) - Smooth(n, d)), Cube(d), margin as real * (1.0 - s));
    NonNegative(margin, Cube(d) - Smooth(n, d));
    RealOrder(0.0, margin as real * (1.0 - s), Cube(d) as real);
  }

  // Both ramps have the set length, cut to what lies between the delay and the
  // wall.
  function FastRampMs(p: Params): int {
    if p.fastBeforeMs - p.delayMs < p.rampMs then p.fastBeforeMs - p.delayMs else p.rampMs
  }

  function SlowRampMs(p: Params): int {
    if p.wallMs - p.slowAfterMs < p.rampMs then p.wallMs - p.slowAfterMs else p.rampMs
  }

  // Before its ramp the line is at the ceiling and after the other at the floor.
  lemma LineIsFlatOutside(p: Params, t: int)
    requires Ordered(p)
    ensures t < p.fastBeforeMs && t <= p.fastBeforeMs - FastRampMs(p) ==> CutLineDg(p, t) == CeilingDg(p)
    ensures t > p.slowAfterMs && t >= p.slowAfterMs + SlowRampMs(p) ==> CutLineDg(p, t) == FloorDg(p)
    ensures p.fastBeforeMs <= t < p.slowAfterMs ==> CutLineDg(p, t) == p.goalDg
  {
    hide TruncDiv, Smooth, Cube;
    PieceBounds(p, t);
    if t < p.fastBeforeMs && t == FastRampStartMs(p) {
      StartsWhole(CeilingDg(p) - p.goalDg, p.fastBeforeMs - t);
    }
  }

  lemma StartsWhole(margin: int, d: int)
    requires 0 < d && margin >= 0
    ensures RampDown(margin, 0, d) == margin
  {
    hide TruncDiv, Smooth, Cube;
    RampDownIs(margin, 0, d);
    SmoothEnds(d);
    DivOfMultiple(margin, Cube(d));
  }

  // On the way down to the target the line is a smoothstep from the ceiling.
  lemma FastRampIsSmooth(p: Params, t: int)
    requires Ordered(p) && p.fastBeforeMs - FastRampMs(p) <= t < p.fastBeforeMs
    ensures var d := FastRampMs(p);
            var x := (t - (p.fastBeforeMs - d)) as real / d as real;
            var exact := p.goalDg as real + (CeilingDg(p) - p.goalDg) as real * (1.0 - Smoothstep(x));
            CutLineDg(p, t) as real <= exact < CutLineDg(p, t) as real + 1.0
  {
    hide Smoothstep, RampDown;
    LeftFollows(CeilingDg(p) - p.goalDg, t - FastRampStartMs(p), p.fastBeforeMs - FastRampStartMs(p));
  }

  // And below the target it is one down to the floor.
  lemma SlowRampIsSmooth(p: Params, t: int)
    requires Ordered(p) && p.slowAfterMs <= t < p.slowAfterMs + SlowRampMs(p)
    ensures var d := SlowRampMs(p);
            var x := (t - p.slowAfterMs) as real / d as real;
            var exact := p.goalDg as real - (p.goalDg - FloorDg(p)) as real * Smoothstep(x);
            CutLineDg(p, t) as real - 1.0 < exact <= CutLineDg(p, t) as real
  {
    hide RampGiven;
    if t == p.slowAfterMs {
      assert (t - p.slowAfterMs) as real / SlowRampMs(p) as real == 0.0;
    } else {
      hide Smoothstep;
      GivenFollows(p.goalDg - FloorDg(p), t - p.slowAfterMs, SlowRampEndMs(p) - p.slowAfterMs);
    }
  }

  // A guard that is off never bends the line, and one that is on gives the whole
  // of its margin before the ramp or after it.
  lemma GuardsBendTheLine(p: Params, t: int)
    requires Ordered(p)
    ensures !p.fastOn ==> CutLineDg(p, t) <= p.goalDg
    ensures !p.slowOn ==> CutLineDg(p, t) >= p.goalDg
    ensures p.fastOn && t < p.fastBeforeMs && t <= p.fastBeforeMs - FastRampMs(p) ==>
      CutLineDg(p, t) == p.goalDg + p.fastMarginDg
    ensures p.slowOn && t > p.slowAfterMs && t >= p.slowAfterMs + SlowRampMs(p) ==>
      CutLineDg(p, t) == p.goalDg - p.slowMarginDg
  {
    hide CutLineDg;
    CutLineBounds(p, t);
    LineIsFlatOutside(p, t);
  }

  // ----- the crossing -----

  // What a flow adds in a time, and ahead of the cut, at most 4 g of that.
  lemma PredictionFollowsFlow(rateX100: nat, ms: nat)
    ensures var exact := rateX100 as real * ms as real / 100000.0;
            && Ahead(rateX100, ms) as real <= exact < Ahead(rateX100, ms) as real + 1.0
            && LeadDg(rateX100, ms) == if exact >= 40.0 then 40 else Ahead(rateX100, ms)
  {
    hide TruncDiv;
    RealProduct(rateX100, ms);
    var exact := rateX100 as real * ms as real / 100000.0;
    TruncBetween(rateX100 * ms, 100000, exact);
    NonNegative(rateX100, ms);
  }

  // The line counts as met exactly when the weight, the reach and the unrounded
  // flow since tk come up to it.
  lemma MetIsExact(p: Params, tk: int, weight: int, rateX100: nat, reach: int, t: int)
    requires Ordered(p) && tk <= t
    ensures Met(p, tk, weight, rateX100, reach, t) <==>
      weight as real + rateX100 as real * (t - tk) as real / 100000.0 + reach as real >= CutLineDg(p, t) as real
  {
    hide CutLineDg, Ahead;
    PredictionFollowsFlow(rateX100, t - tk);
  }

  // A cup that is heavier, or a longer reach, never stops later; so there is one
  // answer.
  lemma HeavierStopsSooner(
    p: Params, tk: int, weight: int, heavier: int, rateX100: int, reach: int, longer: int, out: int, sooner: int)
    requires Ordered(p) && rateX100 >= 0 && weight <= heavier && reach <= longer
    requires Crossing(p, tk, weight, rateX100, reach, out) && Crossing(p, tk, heavier, rateX100, longer, sooner)
    ensures sooner <= out
  {
    hide CutLineDg, Ahead;
    if tk < p.wallMs && out > tk {
      assert Met(p, tk, weight, rateX100, reach, out) ==> Met(p, tk, heavier, rateX100, longer, out);
    }
  }
}
