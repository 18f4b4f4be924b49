// The flow estimator: a time window of samples, an outlier gate on innovations
// and a least-squares fit, in integers.
module RateEstimator {
  import opened Bytes
  import opened CorridorSort
  import opened RateFit

  const CAPACITY: nat := 32
  const RATE_WINDOW_MS: int := 3000
  const RATE_MIN_SAMPLES: nat := 4
  const RATE_MIN_SPAN_MS: int := 2000
  const MAX_RATE_X100: int := 4000
  const MAD_FLOOR_DG: int := 3
  const MAD_MIN_INNOVATIONS: nat := 4
  const MAX_CONSECUTIVE_REJECTIONS: nat := 2
  const CHANNELING_RATE_X100: int := 3000
  const CHANNELING_BASE_RATE_X100: int := 500
  const CHANNELING_LOOKBACK_MS: int := 1000
  const CHANNELING_CONFIRM_SAMPLES: nat := 2
  const NO_RATE: int := -0x8000_0000
  const RAW_BOUND: int := 0x3FFF_FFFF

  datatype Sample = Sample(at: int, weight: int, innovation: int, raw: int)

  // Samples newest first, as `index(age)` reads the ring.
  datatype Estimator = Estimator(
    samples: seq<Sample>, rejectedRun: nat, channelingRun: nat, valid: bool, channeling: bool,
    rate: int, raw: int, onset: int)

  datatype PushResult = ACCEPTED | REJECTED | IGNORED

  function Clamp16(x: int): (r: int)
    ensures -0x8000 <= r <= 0x7FFF
  {
    if x > 0x7FFF then 0x7FFF else if x < -0x8000 then -0x8000 else x
  }

  // Samples at most RATE_WINDOW_MS old at time t; the oldest ones leave first.
  function Recent(samples: seq<Sample>, t: int): (r: seq<Sample>)
    ensures |r| <= |samples| && r == samples[..|r|]
    ensures r != [] ==> r[|r| - 1].at > t - RATE_WINDOW_MS
  {
    if samples == [] || samples[|samples| - 1].at > t - RATE_WINDOW_MS then samples
    else Recent(samples[..|samples| - 1], t)
  }

  // Distance from the weight the last flow predicts.
  function Innovation(e: Estimator, t: int, weight: int): int {
    if e.samples == [] then 0
    else weight - (e.samples[0].weight + if e.valid then TruncDiv(e.rate * (t - e.samples[0].at), 100000) else 0)
  }

  function Innovations(kept: seq<Sample>): (s: seq<int>)
    requires kept != []
    ensures |s| == |kept| - 1
  {
    seq(|kept| - 1, i requires 0 <= i < |kept| - 1 => kept[i].innovation)
  }

  // More than 4.5 times the scaled MAD, or 13.5 dg, away from the median.
  predicate Outlier(s: seq<int>, innovation: int) {
    var median := Median(s);
    var scaled := Mad(s, median) * 66717;
    var limit := if scaled > 45000 * MAD_FLOOR_DG then scaled else 45000 * MAD_FLOOR_DG;
    (if innovation > median then innovation - median else median - innovation) * 10000 > limit
  }

  predicate Gated(kept: seq<Sample>, innovation: int) {
    |kept| >= MAD_MIN_INNOVATIONS && Outlier(Innovations(kept), innovation)
  }

  function Reset(e: Estimator): Estimator {
    Estimator([], 0, 0, false, e.channeling, 0, 0, e.onset)
  }

  // ----- the fit -----

  function Times(samples: seq<Sample>): (a: seq<int>)
    ensures |a| == |samples|
  {
    seq(|samples|, i requires 0 <= i < |samples| => samples[i].at - samples[0].at)
  }

  function Weights(samples: seq<Sample>): (b: seq<int>)
    ensures |b| == |samples|
  {
    seq(|samples|, i requires 0 <= i < |samples| => samples[i].weight)
  }

  predicate Fits(samples: seq<Sample>) {
    |samples| >= RATE_MIN_SAMPLES && samples[0].at - samples[|samples| - 1].at >= RATE_MIN_SPAN_MS
  }

  // Flow of the window, dg/s x 100, rounded toward zero and bounded.
  function RawRate(samples: seq<Sample>): (r: int)
    requires Cross(Times(samples), Times(samples)) > 0
    ensures -RAW_BOUND <= r <= RAW_BOUND
  {
    var raw := TruncDiv(Cross(Times(samples), Weights(samples)) * 100000, Cross(Times(samples), Times(samples)));
    if raw > RAW_BOUND then RAW_BOUND else if raw < -RAW_BOUND then -RAW_BOUND else raw
  }

  function ClampRate(raw: int): (r: int)
    ensures 0 <= r <= MAX_RATE_X100
  {
    if raw < 0 then 0 else if raw > MAX_RATE_X100 then MAX_RATE_X100 else raw
  }

  function Fit(e: Estimator): Estimator {
    if !Fits(e.samples) || Cross(Times(e.samples), Times(e.samples)) <= 0 then e.(valid := false)
    else
      var raw := RawRate(e.samples);
      e.(valid := true, raw := raw, rate := ClampRate(raw))
  }

  // ----- channeling -----

  // First sample from `age` on at least the look-back older than the newest.
  function LookBack(samples: seq<Sample>, age: nat): (k: nat)
    requires samples != []
    ensures k >= age
    decreases |samples| - age
  {
    if age >= |samples| || samples[age].at <= samples[0].at - CHANNELING_LOOKBACK_MS then age
    else LookBack(samples, age + 1)
  }

  predicate Surge(e: Estimator)
    requires e.samples != []
  {
    && e.valid && e.raw >= CHANNELING_RATE_X100
    && var k := LookBack(e.samples, 1);
       && k < |e.samples| && e.samples[k].at - RATE_WINDOW_MS >= e.onset && e.samples[k].raw != NO_RATE
       && e.samples[k].raw >= CHANNELING_BASE_RATE_X100 && e.raw * 2 >= e.samples[k].raw * 3
  }

  function UpdateChanneling(e: Estimator): Estimator
    requires e.samples != []
  {
    var run := if !Surge(e) then 0 else if e.channelingRun == 255 then 0 else e.channelingRun + 1;
    e.(channelingRun := run, channeling := e.channeling || run >= CHANNELING_CONFIRM_SAMPLES)
  }

  // ----- one push -----

  function Stored(kept: seq<Sample>, sample: Sample): seq<Sample> {
    [sample] + if |kept| < CAPACITY then kept else kept[..CAPACITY - 1]
  }

  function Accept(e: Estimator, t: int, weight: int, innovation: int): Estimator {
    var fitted := Fit(e.(rejectedRun := 0,
                         samples := Stored(e.samples, Sample(t, weight, Clamp16(innovation), NO_RATE))));
    var newest := fitted.samples[0].(raw := if fitted.valid then fitted.raw else NO_RATE);
    UpdateChanneling(fitted.(samples := fitted.samples[0 := newest]))
  }

  datatype Pushed = Pushed(estimator: Estimator, result: PushResult)

  function Push(e: Estimator, t: int, rawWeight: int): Pushed {
    if e.samples != [] && t <= e.samples[0].at then Pushed(e, IGNORED)
    else
      var weight := Clamp16(rawWeight);
      var kept := e.(samples := Recent(e.samples, t));
      var innovation := Innovation(kept, t, weight);
      if !Gated(kept.samples, innovation) then Pushed(Accept(kept, t, weight, innovation), ACCEPTED)
      else if e.rejectedRun + 1 <= MAX_CONSECUTIVE_REJECTIONS
      then Pushed(kept.(rejectedRun := e.rejectedRun + 1), REJECTED)
      else Pushed(Accept(Reset(kept), t, weight, 0), ACCEPTED)
  }

  // ----- invariants of every push -----

  predicate InOrder(samples: seq<Sample>) {
    forall i, j :: 0 <= i < j < |samples| ==> samples[i].at > samples[j].at
  }

  predicate Int16Weights(samples: seq<Sample>) {
    forall i :: 0 <= i < |samples| ==> -0x8000 <= samples[i].weight <= 0x7FFF
  }

  predicate Inv(e: Estimator) {
    && |e.samples| <= CAPACITY && InOrder(e.samples) && Int16Weights(e.samples)
    && e.rejectedRun <= MAX_CONSECUTIVE_REJECTIONS && 0 <= e.rate <= MAX_RATE_X100
  }

  lemma AcceptKeepsInv(e: Estimator, t: int, weight: int, innovation: int)
    requires Inv(e) && -0x8000 <= weight <= 0x7FFF && (e.samples != [] ==> t > e.samples[0].at)
    ensures var r := Accept(e, t, weight, innovation);
            && Inv(r) && r.rejectedRun == 0 && |r.samples| > 0 && r.samples[0].at == t
            && forall i :: 0 < i < |r.samples| ==> i - 1 < |e.samples| && r.samples[i] == e.samples[i - 1]
  {
    hide Fits, RawRate, Surge, Clamp16, Times, Cross;
    var s := Stored(e.samples, Sample(t, weight, Clamp16(innovation), NO_RATE));
    assert forall i :: 0 < i < |s| ==> s[i] == e.samples[i - 1];
  }

  predicate Within(samples: seq<Sample>, t: int) {
    forall i :: 0 <= i < |samples| ==> t - RATE_WINDOW_MS < samples[i].at <= t
  }

  lemma AcceptStaysWithin(e: Estimator, t: int, weight: int, innovation: int)
    requires Inv(e) && -0x8000 <= weight <= 0x7FFF && (e.samples != [] ==> t > e.samples[0].at)
    requires Within(e.samples, t)
    ensures var r := Accept(e, t, weight, innovation);
            Inv(r) && r.samples != [] && r.samples[0].at == t && Within(r.samples, t)
  {
    hide Accept, Inv;
    AcceptKeepsInv(e, t, weight, innovation);
  }

  // After any push the times in the window strictly increase toward the
  // newest; after an accepted one they all lie within 3 s of it.
  lemma PushKeepsInv(e: Estimator, t: int, weight: int)
    requires Inv(e)
    ensures Inv(Push(e, t, weight).estimator)
    ensures Push(e, t, weight).result == ACCEPTED ==>
      var s := Push(e, t, weight).estimator.samples;
      s != [] && s[0].at == t && Within(s, t)
  {
    hide Accept, Gated, Clamp16, Innovation, Within, Recent, InOrder, Int16Weights;
    if !(e.samples != [] && t <= e.samples[0].at) {
      var w := Clamp16(weight);
      assert -0x8000 <= w <= 0x7FFF;
      var kept := e.(samples := Recent(e.samples, t));
      var innovation := Innovation(kept, t, w);
      KeptInv(e, t);
      AcceptStaysWithin(kept, t, w, innovation);
      ResetInv(kept, t);
      AcceptStaysWithin(Reset(kept), t, w, 0);
    }
  }

  lemma ResetInv(e: Estimator, t: int)
    ensures Inv(Reset(e)) && Within(Reset(e).samples, t)
  {
  }

  lemma KeptInv(e: Estimator, t: int)
    requires Inv(e) && (e.samples != [] ==> t > e.samples[0].at)
    ensures var kept := e.(samples := Recent(e.samples, t));
            Inv(kept) && Within(kept.samples, t) && (kept.samples != [] ==> t > kept.samples[0].at)
    ensures Inv(e.(samples := Recent(e.samples, t)).(rejectedRun := 0))
  {
    RecentIsRecent(e.samples, t);
  }

  lemma RecentIsRecent(samples: seq<Sample>, t: int)
    requires InOrder(samples) && (samples != [] ==> t > samples[0].at)
    ensures var r := Recent(samples, t);
            InOrder(r) && forall i :: 0 <= i < |r| ==> t - RATE_WINDOW_MS < r[i].at < t
  {
    var r := Recent(samples, t);
    forall i | 0 <= i < |r|
      ensures t - RATE_WINDOW_MS < r[i].at < t
    {
      assert r[i] == samples[i] && r[|r| - 1] == samples[|r| - 1];
    }
  }

  // ----- runs of pushes -----

  datatype Reading = Reading(at: int, weight: int)

  function AfterPushes(e: Estimator, rs: seq<Reading>): Estimator
    decreases |rs|
  {
    if rs == [] then e else AfterPushes(Push(e, rs[0].at, rs[0].weight).estimator, rs[1..])
  }

  function CountOf(e: Estimator, rs: seq<Reading>, result: PushResult): nat
    decreases |rs|
  {
    if rs == [] then 0
    else
      var p := Push(e, rs[0].at, rs[0].weight);
      (if p.result == result then 1 else 0) + CountOf(p.estimator, rs[1..], result)
  }

  // A stretch of pushes without an accepted one rejects at most two, however
  // many it ignores.
  lemma {:induction false} AtMostTwoRejectedInARow(e: Estimator, rs: seq<Reading>)
    requires e.rejectedRun <= MAX_CONSECUTIVE_REJECTIONS && CountOf(e, rs, ACCEPTED) == 0
    ensures e.rejectedRun + CountOf(e, rs, REJECTED) <= MAX_CONSECUTIVE_REJECTIONS
    decreases |rs|
  {
    hide Accept, Outlier, Innovation, Clamp16, Recent;
    if rs != [] {
      AtMostTwoRejectedInARow(Push(e, rs[0].at, rs[0].weight).estimator, rs[1..]);
    }
  }

  lemma {:induction false} RunKeepsInv(e: Estimator, rs: seq<Reading>)
    requires Inv(e)
    ensures Inv(AfterPushes(e, rs))
    decreases |rs|
  {
    hide Inv, Push;
    if rs != [] {
      PushKeepsInv(e, rs[0].at, rs[0].weight);
      RunKeepsInv(Push(e, rs[0].at, rs[0].weight).estimator, rs[1..]);
    }
  }

  // ----- the fit's arithmetic -----

  lemma TimesNeverRise(samples: seq<Sample>)
    requires InOrder(samples)
    ensures NeverRises(Times(samples))
  {
  }

  // The guard on the number and span of samples already makes the denominator
  // positive, so the division is always defined and the second guard is idle.
  lemma GuardMakesDenominatorPositive(samples: seq<Sample>)
    requires InOrder(samples) && Fits(samples)
    ensures Cross(Times(samples), Times(samples)) > 0
  {
    TimesNeverRise(samples);
    DenominatorPositive(Times(samples));
  }

  lemma FitIsValidExactly(e: Estimator)
    requires Inv(e)
    ensures Fit(e).valid <==> Fits(e.samples)
    ensures Fit(e).valid <==>
      |e.samples| >= 4 && e.samples[0].at - e.samples[|e.samples| - 1].at >= 2000
  {
    if Fits(e.samples) {
      GuardMakesDenominatorPositive(e.samples);
    }
  }

  predicate Int64(x: int) {
    -0x8000_0000_0000_0000 <= x <= 0x7FFF_FFFF_FFFF_FFFF
  }

  // The fit's loops after k samples: the sums so far, and sample k's products.
  predicate FitStepFits(a: seq<int>, b: seq<int>, k: nat)
    requires |a| == |b| && k <= |a|
  {
    var n, sumA, sumB := |a|, SumTo(a, |a|), SumTo(b, |b|);
    && Int64(SumTo(a, k)) && Int64(SumTo(b, k))
    && Int64(CrossTo(a, a, n, sumA, sumA, k)) && Int64(CrossTo(a, b, n, sumA, sumB, k))
    && (k < n ==>
          var dt, dw := Deviation(a[k], n, sumA), Deviation(b[k], n, sumB);
          && Int64(a[k] * n) && Int64(b[k] * n) && Int64(dt) && Int64(dw) && Int64(dt * dt) && Int64(dt * dw))
  }

  // Inside the window every product and every partial sum of the fit fits a
  // signed 64-bit integer, and so does the numerator it divides.
  lemma FitFitsInt64(samples: seq<Sample>)
    requires InOrder(samples) && Int16Weights(samples) && 0 < |samples| <= CAPACITY
    requires samples[0].at - samples[|samples| - 1].at < RATE_WINDOW_MS
    ensures forall k :: 0 <= k <= |samples| ==> FitStepFits(Times(samples), Weights(samples), k)
    ensures Int64(Cross(Times(samples), Weights(samples)) * 100000)
  {
    hide FitStepFits;
    var a, b, n := Times(samples), Weights(samples), |samples|;
    forall i | 0 <= i < n
      ensures -RATE_WINDOW_MS <= a[i] <= 0 && -0x8000 <= b[i] <= 0x8000
    {
      assert i > 0 ==> samples[0].at > samples[i].at;
      assert i < n - 1 ==> samples[i].at > samples[n - 1].at;
    }
    forall k | 0 <= k <= n
      ensures FitStepFits(a, b, k)
    {
      PrefixFits(a, b, k);
    }
    DeviationsBounded(a, b);
    CrossBounded(a, b, n, SumTo(a, n), SumTo(b, n), 96000, 0x20_0000, n);
  }

  lemma DeviationsBounded(a: seq<int>, b: seq<int>)
    requires |a| == |b| <= CAPACITY
    requires forall i :: 0 <= i < |a| ==> -RATE_WINDOW_MS <= a[i] <= 0 && -0x8000 <= b[i] <= 0x8000
    ensures forall i :: 0 <= i < |a| ==>
      && -96000 <= a[i] * |a| <= 96000 && -0x10_0000 <= b[i] * |a| <= 0x10_0000
      && -96000 <= Deviation(a[i], |a|, SumTo(a, |a|)) <= 96000
      && -0x20_0000 <= Deviation(b[i], |a|, SumTo(b, |b|)) <= 0x20_0000
  {
    var n := |a|;
    SumBounded(a, -RATE_WINDOW_MS, 0, n);
    SumBounded(b, -0x8000, 0x8000, n);
    forall i | 0 <= i < n
      ensures -96000 <= a[i] * n <= 96000 && -0x10_0000 <= b[i] * n <= 0x10_0000
      ensures -96000 <= Deviation(a[i], n, SumTo(a, n)) <= 96000
      ensures -0x20_0000 <= Deviation(b[i], n, SumTo(b, n)) <= 0x20_0000
    {
      ScaledBound(a[i], n, -RATE_WINDOW_MS, 0);
      ScaledBound(b[i], n, -0x8000, 0x8000);
    }
  }

  lemma PrefixFits(a: seq<int>, b: seq<int>, k: nat)
    requires k <= |a| == |b| <= CAPACITY
    requires forall i :: 0 <= i < |a| ==> -RATE_WINDOW_MS <= a[i] <= 0 && -0x8000 <= b[i] <= 0x8000
    ensures FitStepFits(a, b, k)
  {
    hide SumTo, CrossTo, Int64;
    var n := |a|;
    DeviationsBounded(a, b);
    PrefixSumFits(a, -RATE_WINDOW_MS, 0, k);
    PrefixSumFits(b, -0x8000, 0x8000, k);
    PrefixCrossFits(a, a, n, SumTo(a, n), SumTo(a, n), 96000, k);
    PrefixCrossFits(a, b, n, SumTo(a, n), SumTo(b, n), 0x20_0000, k);
    if k < n {
      ProductsFit(Deviation(a[k], n, SumTo(a, n)), Deviation(b[k], n, SumTo(b, n)));
      SmallFits(a[k] * n);
      SmallFits(b[k] * n);
    }
  }

  lemma SmallFits(x: int)
    requires -0x20_0000 <= x <= 0x20_0000
    ensures Int64(x)
  {
  }

  lemma PrefixSumFits(s: seq<int>, low: int, high: int, k: nat)
    requires k <= |s| <= CAPACITY && -0x8000 <= low <= 0 <= high <= 0x8000
    requires forall i :: 0 <= i < |s| ==> low <= s[i] <= high
    ensures Int64(SumTo(s, k))
  {
    hide SumTo;
    SumBounded(s, low, high, k);
    ScaledBound(low, k, low, high);
    ScaledBound(high, k, low, high);
  }

  lemma PrefixCrossFits(a: seq<int>, b: seq<int>, n: int, sumA: int, sumB: int, wide: int, k: nat)
    requires k <= |a| == |b| <= CAPACITY && 0 <= wide <= 0x20_0000
    requires forall i :: 0 <= i < |a| ==> -96000 <= Deviation(a[i], n, sumA) <= 96000
    requires forall i :: 0 <= i < |b| ==> -wide <= Deviation(b[i], n, sumB) <= wide
    ensures Int64(CrossTo(a, b, n, sumA, sumB, k))
  {
    hide CrossTo;
    CrossBounded(a, b, n, sumA, sumB, 96000, wide, k);
    ScaledBound(96000 * wide, k, 0, 96000 * wide);
  }

  lemma ProductsFit(dt: int, dw: int)
    requires -96000 <= dt <= 96000 && -0x20_0000 <= dw <= 0x20_0000
    ensures Int64(dt) && Int64(dw) && Int64(dt * dt) && Int64(dt * dw)
  {
    ProductBounded(dt, dt, 96000, 96000);
    ProductBounded(dt, dw, 96000, 0x20_0000);
  }

  // The outlier gate's products, for 32-bit innovations and spreads.
  lemma GateFitsInt64(mad: int, innovation: int, median: int)
    requires 0 <= mad <= 0xFFFF_FFFF && -0x8000_0000 <= innovation <= 0x7FFF_FFFF
    requires -0x8000 <= median <= 0x7FFF
    ensures Int64(mad * 66717) && Int64(innovation - median) && Int64((innovation - median) * 10000)
  {
  }

  lemma ScaledBound(x: int, n: nat, low: int, high: int)
    requires low <= x <= high && n <= CAPACITY && low <= 0 <= high
    ensures CAPACITY * low <= n * low <= x * n <= n * high <= CAPACITY * high
  {
  }

  // The flow does not depend on where the scale's zero is.
  lemma RateIgnoresTare(samples: seq<Sample>, shifted: seq<Sample>, c: int)
    requires |shifted| == |samples|
    requires forall i :: 0 <= i < |samples| ==>
      shifted[i].at == samples[i].at && shifted[i].weight == samples[i].weight + c
    requires Cross(Times(samples), Times(samples)) > 0
    ensures Times(shifted) == Times(samples)
    ensures RawRate(shifted) == RawRate(samples)
  {
    assert Times(shifted) == Times(samples);
    assert Weights(shifted) == Shift(Weights(samples), c);
    ShiftedCross(Times(samples), Weights(samples), c);
  }

  // A cup that never gets lighter never shows a negative flow.
  lemma RateNotNegative(samples: seq<Sample>)
    requires InOrder(samples) && Fits(samples)
    requires forall i, j :: 0 <= i < j < |samples| ==> samples[i].weight >= samples[j].weight
    ensures Cross(Times(samples), Times(samples)) > 0 && RawRate(samples) >= 0
  {
    hide Cross;
    GuardMakesDenominatorPositive(samples);
    TimesNeverRise(samples);
    NumeratorNotNegative(Times(samples), Weights(samples));
    QuotientNotNegative(Cross(Times(samples), Weights(samples)), Cross(Times(samples), Times(samples)));
  }

  lemma QuotientNotNegative(x: int, d: int)
    requires x >= 0 && d > 0
    ensures TruncDiv(x * 100000, d) >= 0
  {
  }
}
