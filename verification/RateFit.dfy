// The sums behind the flow fit: sample times against weights, least squares in
// integers scaled by the number of samples.
module RateFit {
  import opened Bytes

  function SumTo(s: seq<int>, k: nat): int
    requires k <= |s|
  {
    if k == 0 then 0 else SumTo(s, k - 1) + s[k - 1]
  }

  function ProductsTo(a: seq<int>, b: seq<int>, k: nat): int
    requires k <= |a| == |b|
  {
    if k == 0 then 0 else ProductsTo(a, b, k - 1) + a[k - 1] * b[k - 1]
  }

  // A value's distance from the mean, scaled by n.
  function Deviation(x: int, n: int, sum: int): int {
    x * n - sum
  }

  // The fit's numerator and denominator: products of scaled deviations.
  function CrossTo(a: seq<int>, b: seq<int>, n: int, sumA: int, sumB: int, k: nat): int
    requires k <= |a| == |b|
  {
    if k == 0 then 0
    else CrossTo(a, b, n, sumA, sumB, k - 1) + Deviation(a[k - 1], n, sumA) * Deviation(b[k - 1], n, sumB)
  }

  function Cross(a: seq<int>, b: seq<int>): int
    requires |a| == |b|
  {
    CrossTo(a, b, |a|, SumTo(a, |a|), SumTo(b, |b|), |a|)
  }

  // ----- the same number as a sum over pairs of samples -----

  // Products of the differences of the first k samples to sample m.
  function PairsTo(a: seq<int>, b: seq<int>, m: nat, k: nat): int
    requires k <= |a| == |b| && m < |a|
  {
    if k == 0 then 0 else PairsTo(a, b, m, k - 1) + (a[k - 1] - a[m]) * (b[k - 1] - b[m])
  }

  // Sum over all pairs among the first k samples.
  function AllPairs(a: seq<int>, b: seq<int>, k: nat): int
    requires k <= |a| == |b|
  {
    if k == 0 then 0 else AllPairs(a, b, k - 1) + PairsTo(a, b, k - 1, k - 1)
  }

  lemma CrossStep(x: int, y: int, n: int, p: int, q: int, s: int, a: int, b: int, k: int)
    ensures n * n * s - n * q * a - n * p * b + (k - 1) * (p * q) + (x * n - p) * (y * n - q)
         == n * n * (s + x * y) - n * q * (a + x) - n * p * (b + y) + k * (p * q)
  {
  }

  lemma {:induction false} CrossExpands(a: seq<int>, b: seq<int>, n: int, p: int, q: int, k: nat)
    requires k <= |a| == |b|
    ensures CrossTo(a, b, n, p, q, k)
         == n * n * ProductsTo(a, b, k) - n * q * SumTo(a, k) - n * p * SumTo(b, k) + k * (p * q)
  {
    if k > 0 {
      CrossExpands(a, b, n, p, q, k - 1);
      CrossStep(a[k - 1], b[k - 1], n, p, q, ProductsTo(a, b, k - 1), SumTo(a, k - 1), SumTo(b, k - 1), k);
    }
  }

  lemma PairStep(x: int, y: int, u: int, v: int, s: int, p: int, q: int, k: int)
    ensures s - v * p - u * q + (k - 1) * (u * v) + (x - u) * (y - v)
         == (s + x * y) - v * (p + x) - u * (q + y) + k * (u * v)
  {
  }

  lemma {:induction false} PairsExpand(a: seq<int>, b: seq<int>, m: nat, k: nat)
    requires k <= |a| == |b| && m < |a|
    ensures PairsTo(a, b, m, k)
         == ProductsTo(a, b, k) - b[m] * SumTo(a, k) - a[m] * SumTo(b, k) + k * (a[m] * b[m])
  {
    if k > 0 {
      PairsExpand(a, b, m, k - 1);
      PairStep(a[k - 1], b[k - 1], a[m], b[m], ProductsTo(a, b, k - 1), SumTo(a, k - 1), SumTo(b, k - 1), k);
    }
  }

  lemma AllStep(x: int, y: int, s: int, p: int, q: int, m: int)
    ensures m * s - p * q + (s - y * p - x * q + m * (x * y)) == (m + 1) * (s + x * y) - (p + x) * (q + y)
  {
  }

  lemma {:induction false} AllPairsAre(a: seq<int>, b: seq<int>, k: nat)
    requires k <= |a| == |b|
    ensures AllPairs(a, b, k) == k * ProductsTo(a, b, k) - SumTo(a, k) * SumTo(b, k)
  {
    if k > 0 {
      AllPairsAre(a, b, k - 1);
      PairsExpand(a, b, k - 1, k - 1);
      AllStep(a[k - 1], b[k - 1], ProductsTo(a, b, k - 1), SumTo(a, k - 1), SumTo(b, k - 1), k - 1);
    }
  }

  lemma Collect(n: int, s: int, p: int, q: int)
    ensures n * n * s - n * q * p - n * p * q + n * (p * q) == n * (n * s - p * q)
  {
  }

  // The scaled cross sum is n times the sum over pairs of products of
  // differences.
  lemma CrossIsPairs(a: seq<int>, b: seq<int>)
    requires |a| == |b|
    ensures Cross(a, b) == |a| * AllPairs(a, b, |a|)
  {
    var n := |a|;
    CrossExpands(a, b, n, SumTo(a, n), SumTo(b, n), n);
    AllPairsAre(a, b, n);
    Collect(n, ProductsTo(a, b, n), SumTo(a, n), SumTo(b, n));
  }

  // ----- sign -----

  // Ordered alike: newest sample first, so neither sequence ever increases.
  predicate NeverRises(s: seq<int>) {
    forall i, j :: 0 <= i < j < |s| ==> s[i] >= s[j]
  }

  lemma {:induction false} PairsNotNegative(a: seq<int>, b: seq<int>, m: nat, k: nat)
    requires k <= m < |a| == |b| && NeverRises(a) && NeverRises(b)
    ensures PairsTo(a, b, m, k) >= 0
  {
    if k > 0 {
      PairsNotNegative(a, b, m, k - 1);
      ProductNotNegative(a[k - 1] - a[m], b[k - 1] - b[m]);
    }
  }

  lemma ProductNotNegative(x: int, y: int)
    requires x >= 0 && y >= 0
    ensures x * y >= 0
  {
  }

  lemma {:induction false} AllPairsNotNegative(a: seq<int>, b: seq<int>, k: nat)
    requires k <= |a| == |b| && NeverRises(a) && NeverRises(b)
    ensures AllPairs(a, b, k) >= 0
  {
    if k > 0 {
      AllPairsNotNegative(a, b, k - 1);
      PairsNotNegative(a, b, k - 1, k - 1);
    }
  }

  lemma {:induction false} FirstPairCounts(a: seq<int>, m: nat, k: nat)
    requires 0 < k <= m < |a| && NeverRises(a) && a[0] > a[m]
    ensures PairsTo(a, a, m, k) > 0
  {
    if k == 1 {
      assert PairsTo(a, a, m, 0) == 0;
      SquarePositive(a[0] - a[m]);
    } else {
      FirstPairCounts(a, m, k - 1);
      ProductNotNegative(a[k - 1] - a[m], a[k - 1] - a[m]);
    }
  }

  lemma SquarePositive(x: int)
    requires x != 0
    ensures x * x > 0
  {
  }

  // Two different sample times make the denominator positive.
  lemma DenominatorPositive(a: seq<int>)
    requires |a| > 1 && NeverRises(a) && a[0] > a[|a| - 1]
    ensures Cross(a, a) > 0
  {
    var n := |a|;
    CrossIsPairs(a, a);
    AllPairsNotNegative(a, a, n - 1);
    FirstPairCounts(a, n - 1, n - 1);
    assert AllPairs(a, a, n) > 0;
    assert n * AllPairs(a, a, n) > 0 by {
      PositiveProduct(n, AllPairs(a, a, n));
    }
  }

  lemma PositiveProduct(x: int, y: int)
    requires x > 0 && y > 0
    ensures x * y > 0
  {
  }

  lemma NumeratorNotNegative(a: seq<int>, b: seq<int>)
    requires |a| == |b| && NeverRises(a) && NeverRises(b)
    ensures Cross(a, b) >= 0
  {
    CrossIsPairs(a, b);
    AllPairsNotNegative(a, b, |a|);
    ProductNotNegative(|a|, AllPairs(a, b, |a|));
  }

  // ----- adding a constant to every weight -----

  function Shift(b: seq<int>, c: int): (r: seq<int>)
    ensures |r| == |b|
  {
    seq(|b|, i requires 0 <= i < |b| => b[i] + c)
  }

  lemma {:induction false} SumShifts(b: seq<int>, c: int, k: nat)
    requires k <= |b|
    ensures SumTo(Shift(b, c), k) == SumTo(b, k) + k * c
  {
    if k > 0 {
      SumShifts(b, c, k - 1);
      assert k * c == (k - 1) * c + c;
    }
  }

  lemma ShiftedDeviation(y: int, c: int, n: int, q: int)
    ensures Deviation(y + c, n, q + n * c) == Deviation(y, n, q)
  {
  }

  lemma {:induction false} CrossShifts(a: seq<int>, b: seq<int>, c: int, n: int, p: int, q: int, k: nat)
    requires k <= |a| == |b|
    ensures CrossTo(a, Shift(b, c), n, p, q + n * c, k) == CrossTo(a, b, n, p, q, k)
  {
    hide Deviation;
    if k > 0 {
      CrossShifts(a, b, c, n, p, q, k - 1);
      ShiftedDeviation(b[k - 1], c, n, q);
    }
  }

  lemma ShiftedCross(a: seq<int>, b: seq<int>, c: int)
    requires |a| == |b|
    ensures Cross(a, Shift(b, c)) == Cross(a, b)
  {
    SumShifts(b, c, |b|);
    CrossShifts(a, b, c, |a|, SumTo(a, |a|), SumTo(b, |b|), |a|);
  }

  // ----- magnitude -----

  lemma {:induction false} SumBounded(s: seq<int>, low: int, high: int, k: nat)
    requires k <= |s| && forall i :: 0 <= i < |s| ==> low <= s[i] <= high
    ensures k * low <= SumTo(s, k) <= k * high
  {
    if k > 0 {
      SumBounded(s, low, high, k - 1);
      assert k * low == (k - 1) * low + low && k * high == (k - 1) * high + high;
    }
  }

  lemma ProductOfSizes(x: nat, y: nat, m: int, l: int)
    requires x <= m && y <= l
    ensures x * y <= m * l
  {
    assert x * y <= x * l;
    assert x * l <= m * l;
  }

  lemma ProductOfSigns(x: int, y: int)
    ensures (-x) * y == -(x * y) && x * (-y) == -(x * y) && (-x) * (-y) == x * y
  {
  }

  lemma ProductBounded(x: int, y: int, m: int, l: int)
    requires -m <= x <= m && -l <= y <= l
    ensures -(m * l) <= x * y <= m * l
  {
    ProductOfSizes(if x < 0 then -x else x, if y < 0 then -y else y, m, l);
    ProductOfSigns(x, y);
  }

  lemma {:induction false} CrossBounded(a: seq<int>, b: seq<int>, n: int, p: int, q: int, m: int, l: int, k: nat)
    requires k <= |a| == |b| && m >= 0 && l >= 0
    requires forall i :: 0 <= i < |a| ==> -m <= a[i] * n - p <= m && -l <= b[i] * n - q <= l
    ensures -(k * (m * l)) <= CrossTo(a, b, n, p, q, k) <= k * (m * l)
  {
    if k > 0 {
      CrossBounded(a, b, n, p, q, m, l, k - 1);
      ProductBounded(a[k - 1] * n - p, b[k - 1] * n - q, m, l);
      assert k * (m * l) == (k - 1) * (m * l) + m * l;
    }
  }
}
