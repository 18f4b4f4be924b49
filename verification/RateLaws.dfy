// What the fitted flow is: exact on a steady pour, and otherwise the slope of
// the straight line with the least squared error.
module RateLaws {
  import opened Bytes
  import opened RateFit
  import opened RateEstimator

  // ----- a steady pour -----

  // Weights that rise by r/100000 dg with every millisecond.
  ghost predicate Steady(a: seq<int>, b: seq<int>, r: int)
    requires |a| == |b|
  {
    forall i, j :: 0 <= i < |a| && 0 <= j < |a| ==> 100000 * (b[i] - b[j]) == r * (a[i] - a[j])
  }

  lemma SteadyProduct(x: int, y: int, r: int)
    requires 100000 * y == r * x
    ensures 100000 * (x * y) == r * (x * x)
  {
    assert 100000 * (x * y) == x * (100000 * y);
  }

  lemma {:induction false} SteadyPairs(a: seq<int>, b: seq<int>, r: int, m: nat, k: nat)
    requires k <= |a| == |b| && m < |a| && Steady(a, b, r)
    ensures 100000 * PairsTo(a, b, m, k) == r * PairsTo(a, a, m, k)
  {
    if k > 0 {
      SteadyPairs(a, b, r, m, k - 1);
      SteadyProduct(a[k - 1] - a[m], b[k - 1] - b[m], r);
      Spread(r, PairsTo(a, a, m, k - 1), (a[k - 1] - a[m]) * (a[k - 1] - a[m]));
    }
  }

  lemma Spread(r: int, x: int, y: int)
    ensures r * (x + y) == r * x + r * y
  {
  }

  lemma {:induction false} SteadyAllPairs(a: seq<int>, b: seq<int>, r: int, k: nat)
    requires k <= |a| == |b| && Steady(a, b, r)
    ensures 100000 * AllPairs(a, b, k) == r * AllPairs(a, a, k)
  {
    if k > 0 {
      SteadyAllPairs(a, b, r, k - 1);
      SteadyPairs(a, b, r, k - 1, k - 1);
      Spread(r, AllPairs(a, a, k - 1), PairsTo(a, a, k - 1, k - 1));
    }
  }

  lemma SteadyCross(a: seq<int>, b: seq<int>, r: int)
    requires |a| == |b| && Steady(a, b, r)
    ensures Cross(a, b) * 100000 == r * Cross(a, a)
  {
    hide Steady;
    var n := |a|;
    CrossIsPairs(a, b);
    CrossIsPairs(a, a);
    SteadyAllPairs(a, b, r, n);
    Rearrange(n, AllPairs(a, b, n), AllPairs(a, a, n), r);
  }

  lemma Rearrange(n: int, x: int, y: int, r: int)
    requires 100000 * x == r * y
    ensures n * x * 100000 == r * (n * y)
  {
    assert n * x * 100000 == n * (100000 * x);
    assert n * (r * y) == r * (n * y);
  }

  lemma TruncOfMultiple(r: int, c: int)
    requires c > 0
    ensures TruncDiv(r * c, c) == r
  {
    hide TruncDiv;
    TruncBounds(r * c, c);
    var q := TruncDiv(r * c, c);
    if q < r {
      ScaledOrder(q + 1, r, c);
      OneMore(q, c);
    } else if q > r {
      ScaledOrder(r + 1, q, c);
      OneMore(r, c);
    }
    SignOfProduct(r, c);
  }

  lemma SignOfProduct(r: int, c: int)
    requires c > 0
    ensures r > 0 ==> r * c >= c
    ensures r < 0 ==> r * c <= -c
  {
    if r > 0 {
      ScaledOrder(1, r, c);
    } else if r < 0 {
      ScaledOrder(r, -1, c);
    }
  }

  // On samples of a steady pour of r (dg/s x 100) the fitted flow is r itself.
  lemma SteadyPourIsMeasured(samples: seq<Sample>, r: int)
    requires Cross(Times(samples), Times(samples)) > 0 && -RAW_BOUND <= r <= RAW_BOUND
    requires forall i, j :: 0 <= i < |samples| && 0 <= j < |samples| ==>
      100000 * (samples[i].weight - samples[j].weight) == r * (samples[i].at - samples[j].at)
    ensures RawRate(samples) == r
  {
    hide Cross, TruncDiv;
    assert Steady(Times(samples), Weights(samples), r);
    SteadyCross(Times(samples), Weights(samples), r);
    TruncOfMultiple(r, Cross(Times(samples), Times(samples)));
  }

  // And the flow in use is r, held between none and the greatest plausible one.
  lemma SteadyPourIsUsed(e: Estimator, r: int)
    requires Inv(e) && Fits(e.samples) && -RAW_BOUND <= r <= RAW_BOUND
    requires forall i, j :: 0 <= i < |e.samples| && 0 <= j < |e.samples| ==>
      100000 * (e.samples[i].weight - e.samples[j].weight) == r * (e.samples[i].at - e.samples[j].at)
    ensures Fit(e).valid && Fit(e).raw == r
    ensures Fit(e).rate == if r < 0 then 0 else if r > 4000 then 4000 else r
  {
    hide RawRate, Cross, Times;
    GuardMakesDenominatorPositive(e.samples);
    SteadyPourIsMeasured(e.samples, r);
  }

  // ----- least squares -----

  // Error of the line through `offset` with slope `slope` at one sample.
  function Miss(x: int, y: int, slope: real, offset: real): real {
    y as real - slope * x as real - offset
  }

  function SquaresTo(a: seq<int>, b: seq<int>, slope: real, offset: real, k: nat): real
    requires k <= |a| == |b|
  {
    if k == 0 then 0.0
    else
      var m := Miss(a[k - 1], b[k - 1], slope, offset);
      SquaresTo(a, b, slope, offset, k - 1) + m * m
  }

  function MissesTo(a: seq<int>, b: seq<int>, slope: real, offset: real, k: nat): real
    requires k <= |a| == |b|
  {
    if k == 0 then 0.0 else MissesTo(a, b, slope, offset, k - 1) + Miss(a[k - 1], b[k - 1], slope, offset)
  }

  function MomentsTo(a: seq<int>, b: seq<int>, slope: real, offset: real, k: nat): real
    requires k <= |a| == |b|
  {
    if k == 0 then 0.0
    else MomentsTo(a, b, slope, offset, k - 1) + Miss(a[k - 1], b[k - 1], slope, offset) * a[k - 1] as real
  }

  lemma SquareOfSum(m: real, d: real)
    ensures (m + d) * (m + d) == m * m + 2.0 * (m * d) + d * d && d * d >= 0.0
  {
  }

  // The miss of another line differs by a straight line.
  lemma OtherMiss(x: int, y: int, slope: real, offset: real, p: real, q: real)
    ensures var d := (slope - p) * x as real + (offset - q);
            && Miss(x, y, p, q) == Miss(x, y, slope, offset) + d
            && Miss(x, y, slope, offset) * d
               == (slope - p) * (Miss(x, y, slope, offset) * x as real) + (offset - q) * Miss(x, y, slope, offset)
  {
    var z, m := x as real, Miss(x, y, slope, offset);
    Distribute(m, slope - p, z, offset - q);
    assert (slope - p) * z == slope * z - p * z;
  }

  lemma Distribute(m: real, u: real, z: real, v: real)
    ensures m * (u * z + v) == u * (m * z) + v * m
  {
    assert m * (u * z + v) == m * (u * z) + m * v;
  }

  lemma Factor(u: real, x: real, y: real)
    ensures u * (x + y) == u * x + u * y
  {
  }

  lemma {:induction false} OtherLineMissesMore(
    a: seq<int>, b: seq<int>, slope: real, offset: real, p: real, q: real, k: nat)
    requires k <= |a| == |b|
    ensures SquaresTo(a, b, p, q, k) >=
      SquaresTo(a, b, slope, offset, k)
      + 2.0 * ((slope - p) * MomentsTo(a, b, slope, offset, k) + (offset - q) * MissesTo(a, b, slope, offset, k))
  {
    hide Miss;
    if k > 0 {
      OtherLineMissesMore(a, b, slope, offset, p, q, k - 1);
      var x, y := a[k - 1], b[k - 1];
      var m, d := Miss(x, y, slope, offset), (slope - p) * x as real + (offset - q);
      OtherMiss(x, y, slope, offset, p, q);
      SquareOfSum(m, d);
      Factor(slope - p, MomentsTo(a, b, slope, offset, k - 1), m * x as real);
      Factor(offset - q, MissesTo(a, b, slope, offset, k - 1), m);
    }
  }

  lemma {:induction false} MissesAre(a: seq<int>, b: seq<int>, slope: real, offset: real, k: nat)
    requires k <= |a| == |b|
    ensures MissesTo(a, b, slope, offset, k)
         == SumTo(b, k) as real - slope * SumTo(a, k) as real - k as real * offset
  {
    if k > 0 {
      MissesAre(a, b, slope, offset, k - 1);
      Factor(slope, SumTo(a, k - 1) as real, a[k - 1] as real);
      Factor(offset, (k - 1) as real, 1.0);
      assert k as real * offset == (k - 1) as real * offset + offset;
    }
  }

  lemma {:induction false} MomentsAre(a: seq<int>, b: seq<int>, slope: real, offset: real, k: nat)
    requires k <= |a| == |b|
    ensures MomentsTo(a, b, slope, offset, k)
         == ProductsTo(a, b, k) as real - slope * ProductsTo(a, a, k) as real - offset * SumTo(a, k) as real
  {
    hide Miss;
    if k > 0 {
      MomentsAre(a, b, slope, offset, k - 1);
      var x, y := a[k - 1], b[k - 1];
      RealSum(ProductsTo(a, b, k - 1), x * y);
      RealSum(ProductsTo(a, a, k - 1), x * x);
      MomentOfOne(x, y, slope, offset);
      Factor(slope, ProductsTo(a, a, k - 1) as real, (x * x) as real);
      Factor(offset, SumTo(a, k - 1) as real, x as real);
    }
  }

  lemma MomentOfOne(x: int, y: int, slope: real, offset: real)
    ensures Miss(x, y, slope, offset) * x as real
         == (x * y) as real - slope * (x * x) as real - offset * x as real
  {
    var u, v := x as real, y as real;
    RealProduct(x, y);
    RealProduct(x, x);
    assert (v - slope * u - offset) * u == v * u - slope * u * u - offset * u;
    assert slope * u * u == slope * (u * u);
  }

  lemma RealSum(x: int, y: int)
    ensures (x + y) as real == x as real + y as real
  {
  }

  // The unrounded slope of the fit and the line through the mean with it.
  function Slope(a: seq<int>, b: seq<int>): real
    requires |a| == |b| && Cross(a, a) > 0
  {
    Cross(a, b) as real / Cross(a, a) as real
  }

  function Offset(a: seq<int>, b: seq<int>): real
    requires |a| == |b| && Cross(a, a) > 0
  {
    if a == [] then 0.0
    else (SumTo(b, |a|) as real - Slope(a, b) * SumTo(a, |a|) as real) / |a| as real
  }

  lemma Cancel(n: real, x: real, y: real)
    requires n != 0.0 && n * x == n * y
    ensures x == y
  {
  }

  // The fit's slope in sums over pairs.
  lemma SlopeOfPairs(a: seq<int>, b: seq<int>)
    requires |a| == |b| && Cross(a, a) > 0
    ensures Slope(a, b) * AllPairs(a, a, |a|) as real == AllPairs(a, b, |a|) as real
  {
    hide Cross, AllPairs;
    var n, s := |a|, Slope(a, b);
    CrossIsPairs(a, b);
    CrossIsPairs(a, a);
    var x, y := AllPairs(a, b, n), AllPairs(a, a, n);
    QuotientTimes((n * x) as real, (n * y) as real);
    RealProduct(n, x);
    RealProduct(n, y);
    assert s * (n as real * y as real) == n as real * (s * y as real);
    Cancel(n as real, s * y as real, x as real);
  }

  lemma NormalIdentity(n: real, xy: real, xx: real, x: real, y: real, s: real, t: real)
    requires n * t == y - s * x
    ensures n * (xy - s * xx - t * x) == (n * xy - x * y) - s * (n * xx - x * x)
  {
    assert n * (xy - s * xx - t * x) == n * xy - n * (s * xx) - n * (t * x);
    assert n * (t * x) == (n * t) * x;
    assert (y - s * x) * x == y * x - s * x * x;
    assert s * (n * xx - x * x) == s * (n * xx) - s * (x * x);
  }

  lemma RealPairs(a: seq<int>, b: seq<int>, k: nat)
    requires k <= |a| == |b|
    ensures AllPairs(a, b, k) as real
         == k as real * ProductsTo(a, b, k) as real - SumTo(a, k) as real * SumTo(b, k) as real
  {
    hide AllPairs, ProductsTo, SumTo;
    AllPairsAre(a, b, k);
    RealProduct(k, ProductsTo(a, b, k));
    RealProduct(SumTo(a, k), SumTo(b, k));
  }

  // Its misses and their moments cancel out.
  lemma FitIsBalanced(a: seq<int>, b: seq<int>)
    requires |a| == |b| && a != [] && Cross(a, a) > 0
    ensures MissesTo(a, b, Slope(a, b), Offset(a, b), |a|) == 0.0
    ensures MomentsTo(a, b, Slope(a, b), Offset(a, b), |a|) == 0.0
  {
    hide Cross, Slope, MissesTo, MomentsTo, AllPairs, ProductsTo, SumTo;
    var n, s, t := |a|, Slope(a, b), Offset(a, b);
    var x, y := SumTo(a, n) as real, SumTo(b, n) as real;
    QuotientTimes(y - s * x, n as real);
    assert n as real * t == y - s * x;
    MissesAre(a, b, s, t, n);
    MomentsAre(a, b, s, t, n);
    RealPairs(a, b, n);
    RealPairs(a, a, n);
    SlopeOfPairs(a, b);
    var m := MomentsTo(a, b, s, t, n);
    NormalIdentity(n as real, ProductsTo(a, b, n) as real, ProductsTo(a, a, n) as real, x, y, s, t);
    Cancel(n as real, m, 0.0);
  }

  // No straight line has a smaller sum of squared misses.
  lemma LeastSquares(a: seq<int>, b: seq<int>, p: real, q: real)
    requires |a| == |b| && a != [] && Cross(a, a) > 0
    ensures SquaresTo(a, b, Slope(a, b), Offset(a, b), |a|) <= SquaresTo(a, b, p, q, |a|)
  {
    hide Cross, Slope, Offset, MissesTo, MomentsTo, SquaresTo;
    FitIsBalanced(a, b);
    OtherLineMissesMore(a, b, Slope(a, b), Offset(a, b), p, q, |a|);
  }

  // The fitted flow is that slope in dg/s x 100, cut off toward zero.
  lemma RateIsTheSlope(samples: seq<Sample>)
    requires Cross(Times(samples), Times(samples)) > 0
    requires var slope := Slope(Times(samples), Weights(samples)) * 100000.0;
             -RAW_BOUND as real <= slope <= RAW_BOUND as real
    ensures var slope := Slope(Times(samples), Weights(samples)) * 100000.0; var rate := RawRate(samples) as real;
            if slope >= 0.0 then rate <= slope < rate + 1.0 else rate - 1.0 < slope <= rate
  {
    hide Cross, TruncDiv, Times, Weights;
    var x, y := Cross(Times(samples), Weights(samples)), Cross(Times(samples), Times(samples));
    QuotientBetween(x, y, TruncDiv(x * 100000, y));
  }

  lemma QuotientBetween(x: int, y: int, quotient: int)
    requires y > 0 && quotient == TruncDiv(x * 100000, y)
    ensures var slope := x as real / y as real * 100000.0;
            if slope >= 0.0 then quotient as real <= slope < quotient as real + 1.0
            else quotient as real - 1.0 < slope <= quotient as real
  {
    hide TruncDiv;
    QuotientTimes(x as real, y as real);
    Hundredfold(x as real / y as real, y as real, x as real);
    TruncBetween(x * 100000, y, x as real / y as real * 100000.0);
  }

  lemma Hundredfold(z: real, y: real, x: real)
    requires z * y == x
    ensures z * 100000.0 * y == x * 100000.0
  {
  }
}
