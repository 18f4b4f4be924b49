// The estimator as it keeps its samples in a ring of 32 and updates its fields.
module RateRing {
  import opened Bytes
  import opened CorridorSort
  import opened RateFit
  import opened RateEstimator

  // Ring position of the sample with the given age.
  function Index(head: nat, age: nat): (k: nat)
    requires head < CAPACITY && age <= CAPACITY
    ensures k < CAPACITY
  {
    if head >= age then head - age else head + CAPACITY - age
  }

  // The ring read newest first.
  function WindowOf(cells: seq<Sample>, head: nat, count: nat): (s: seq<Sample>)
    requires |cells| == CAPACITY && head < CAPACITY && count <= CAPACITY
    ensures |s| == count
    ensures forall age :: 0 <= age < count ==> s[age] == cells[Index(head, age)]
  {
    seq(count, age requires 0 <= age < count => cells[Index(head, age)])
  }

  class RateEstimatorRing {
    const ring: array<Sample>
    var head: nat
    var count: nat
    var rejectedRun: nat
    var channelingRun: nat
    var valid: bool
    var channeling: bool
    var rateX100: int
    var rawX100: int
    var onsetMs: int

    ghost predicate Sound()
      reads this
    {
      ring.Length == CAPACITY && head < CAPACITY && count <= CAPACITY && rejectedRun <= MAX_CONSECUTIVE_REJECTIONS
    }

    ghost function Samples(): (s: seq<Sample>)
      requires Sound()
      reads this, ring
      ensures |s| == count
    {
      WindowOf(ring[..], head, count)
    }

    ghost function View(): Estimator
      requires Sound()
      reads this, ring
    {
      Estimator(Samples(), rejectedRun, channelingRun, valid, channeling, rateX100, rawX100, onsetMs)
    }

    constructor (onsetMs: int)
      ensures Sound() && fresh(ring)
      ensures View() == Estimator([], 0, 0, false, false, 0, 0, onsetMs)
    {
      var samples := new Sample[CAPACITY](i => Sample(0, 0, 0, 0));
      ring := samples;
      head, count, rejectedRun, channelingRun := 0, 0, 0, 0;
      valid, channeling, rateX100, rawX100 := false, false, 0, 0;
      this.onsetMs := onsetMs;
    }

    method Age(age: nat) returns (s: Sample)
      requires Sound() && age < count
      ensures s == Samples()[age]
    {
      s := ring[(head + CAPACITY - age) % CAPACITY];
      assert (head + CAPACITY - age) % CAPACITY == Index(head, age);
    }

    method ResetSamples()
      requires Sound()
      modifies this
      ensures Sound() && View() == Reset(old(View())) && onsetMs == old(onsetMs)
      ensures Samples() == [] && !valid && rateX100 == rawX100 == 0 && channeling == old(channeling)
    {
      head, count, rejectedRun, channelingRun := 0, 0, 0, 0;
      valid, rateX100, rawX100 := false, 0, 0;
      assert Samples() == [];
    }

    method DropOld(t: int)
      requires Sound()
      modifies this`count
      ensures Sound() && View() == old(View()).(samples := Recent(old(Samples()), t))
    {
      hide WindowOf, Recent;
      ghost var s := Samples();
      assert s[..count] == s;
      var trimming := true;
      while count > 0 && trimming
        invariant Sound() && count <= |s| && Samples() == s[..count]
        invariant Recent(s[..count], t) == Recent(s, t)
        invariant !trimming ==> count > 0 && s[count - 1].at > t - RATE_WINDOW_MS
        decreases trimming, count
      {
        var oldest := Age(count - 1);
        RecentStep(s[..count], t);
        WindowPrefix(ring[..], head, count, count - 1);
        assert s[..count][..count - 1] == s[..count - 1];
        if oldest.at > t - RATE_WINDOW_MS {
          trimming := false;
        } else {
          count := count - 1;
        }
      }
      RecentStep(s[..count], t);
    }

    method Predict(t: int, weight: int) returns (innovation: int)
      requires Sound()
      ensures innovation == Innovation(View(), t, weight)
    {
      innovation := 0;
      if count > 0 {
        var newest := Age(0);
        var predicted := newest.weight + if valid then TruncDiv(rateX100 * (t - newest.at), 100000) else 0;
        innovation := weight - predicted;
      }
    }

    // The outlier gate over the innovations of all samples but the oldest.
    method Gate(innovation: int) returns (gated: bool)
      requires Sound()
      ensures gated == Gated(Samples(), innovation)
    {
      hide Sorted;
      if count < MAD_MIN_INNOVATIONS {
        return false;
      }
      ghost var s := Innovations(Samples());
      var n := count - 1;
      var values := new int[n];
      var deviations := new int[n];
      for age := 0 to n
        invariant Innovations(Samples()) == s && forall k :: 0 <= k < age ==> values[k] == s[k]
      {
        var sample := Age(age);
        values[age] := sample.innovation;
      }
      assert values[..n] == s;
      SortSmall(values, n);
      var median := MedianOfSorted(values[..n]);
      for i := 0 to n
        invariant Innovations(Samples()) == s && values[..n] == Sorted(s)
        invariant forall k :: 0 <= k < i ==> deviations[k] == Deviations(Sorted(s), median)[k]
      {
        deviations[i] := if values[i] > median then values[i] - median else median - values[i];
      }
      assert deviations[..n] == Deviations(Sorted(s), median);
      SortSmall(deviations, n);
      MadIgnoresOrder(s, median);
      var scaled := MedianOfSorted(deviations[..n]) * 66717;
      var limit := if scaled > 45000 * MAD_FLOOR_DG then scaled else 45000 * MAD_FLOOR_DG;
      var deviation := if innovation > median then innovation - median else median - innovation;
      return deviation * 10000 > limit;
    }

    method Store(t: int, weight: int, innovation: int)
      requires Sound()
      modifies this`head, this`count, this`rejectedRun, ring
      ensures Sound()
      ensures View() == old(View()).(rejectedRun := 0,
                          samples := Stored(old(Samples()), Sample(t, weight, Clamp16(innovation), NO_RATE)))
    {
      hide Clamp16;
      ghost var s := Samples();
      rejectedRun := 0;
      head := (head + 1) % CAPACITY;
      if count < CAPACITY {
        count := count + 1;
      }
      ring[head] := Sample(t, weight, Clamp16(innovation), NO_RATE);
      forall age | 0 < age < count
        ensures Samples()[age] == s[age - 1]
      {
        assert Index(head, age) == old(Index(head, age - 1));
      }
    }

    method Sums() returns (sumT: int, sumW: int)
      requires Sound() && count > 0
      ensures sumT == SumTo(Times(Samples()), count) && sumW == SumTo(Weights(Samples()), count)
    {
      ghost var a, b := Times(Samples()), Weights(Samples());
      sumT, sumW := 0, 0;
      var newest := Age(0);
      for age := 0 to count
        invariant sumT == SumTo(a, age) && sumW == SumTo(b, age)
      {
        var sample := Age(age);
        sumT := sumT + (sample.at - newest.at);
        sumW := sumW + sample.weight;
      }
    }

    method CrossSums(sumT: int, sumW: int) returns (sxx: int, sxy: int)
      requires Sound() && count > 0
      requires sumT == SumTo(Times(Samples()), count) && sumW == SumTo(Weights(Samples()), count)
      ensures sxx == Cross(Times(Samples()), Times(Samples())) && sxy == Cross(Times(Samples()), Weights(Samples()))
    {
      ghost var a, b := Times(Samples()), Weights(Samples());
      sxx, sxy := 0, 0;
      var newest := Age(0);
      for age := 0 to count
        invariant sxx == CrossTo(a, a, count, sumT, sumT, age) && sxy == CrossTo(a, b, count, sumT, sumW, age)
      {
        var sample := Age(age);
        var dt := (sample.at - newest.at) * count - sumT;
        var dw := sample.weight * count - sumW;
        assert dt == Deviation(a[age], count, sumT) && dw == Deviation(b[age], count, sumW);
        sxx := sxx + dt * dt;
        sxy := sxy + dt * dw;
      }
    }

    method SpanFits() returns (fits: bool)
      requires Sound()
      ensures fits == Fits(Samples()) && (fits ==> count > 0)
    {
      fits := false;
      if count >= RATE_MIN_SAMPLES {
        var newest := Age(0);
        var oldest := Age(count - 1);
        fits := newest.at - oldest.at >= RATE_MIN_SPAN_MS;
      }
    }

    method FitWindow()
      requires Sound()
      modifies this`valid, this`rawX100, this`rateX100
      ensures Sound() && View() == Fit(old(View()))
    {
      hide Cross, Fits, WindowOf;
      valid := false;
      var fits := SpanFits();
      if !fits {
        return;
      }
      var sumT, sumW := Sums();
      var sxx, sxy := CrossSums(sumT, sumW);
      if sxx <= 0 {
        return;
      }
      var raw := TruncDiv(sxy * 100000, sxx);
      rawX100 := if raw > RAW_BOUND then RAW_BOUND else if raw < -RAW_BOUND then -RAW_BOUND else raw;
      rateX100 := if rawX100 < 0 then 0 else if rawX100 > MAX_RATE_X100 then MAX_RATE_X100 else rawX100;
      valid := true;
    }

    method FindSurge() returns (surge: bool)
      requires Sound() && count > 0
      ensures surge == Surge(View())
    {
      surge := false;
      if !valid || rawX100 < CHANNELING_RATE_X100 {
        return;
      }
      ghost var s := Samples();
      var newest := Age(0);
      var age := 1;
      while age < count
        invariant 1 <= age <= count && LookBack(s, age) == LookBack(s, 1)
      {
        var sample := Age(age);
        if sample.at <= newest.at - CHANNELING_LOOKBACK_MS {
          surge := sample.at - RATE_WINDOW_MS >= onsetMs && sample.raw != NO_RATE &&
                   sample.raw >= CHANNELING_BASE_RATE_X100 && rawX100 * 2 >= sample.raw * 3;
          return;
        }
        age := age + 1;
      }
    }

    method LatchChanneling()
      requires Sound() && count > 0
      modifies this`channelingRun, this`channeling
      ensures Sound() && View() == UpdateChanneling(old(View()))
    {
      hide Surge;
      var surge := FindSurge();
      channelingRun := if !surge then 0 else if channelingRun == 255 then 0 else channelingRun + 1;
      if channelingRun >= CHANNELING_CONFIRM_SAMPLES {
        channeling := true;
      }
    }

    method AcceptSample(t: int, weight: int, innovation: int)
      requires Sound()
      modifies this, ring
      ensures Sound() && View() == Accept(old(View()), t, weight, innovation)
    {
      hide Fit, UpdateChanneling, Clamp16;
      Store(t, weight, innovation);
      FitWindow();
      FitKeepsSamples(old(View()).(rejectedRun := 0,
                        samples := Stored(old(Samples()), Sample(t, weight, Clamp16(innovation), NO_RATE))));
      StampRate();
      LatchChanneling();
    }

    // The newest sample remembers the flow fitted on its arrival.
    method StampRate()
      requires Sound() && count > 0
      modifies ring
      ensures Sound()
      ensures var e := old(View());
              View() == e.(samples := e.samples[0 := e.samples[0].(raw := if e.valid then e.raw else NO_RATE)])
    {
      ghost var s := Samples();
      ring[head] := ring[head].(raw := if valid then rawX100 else NO_RATE);
      forall age | 0 < age < count
        ensures Samples()[age] == s[age]
      {
        assert Index(head, age) != head;
      }
    }

    method PushReading(t: int, reading: int) returns (result: PushResult)
      requires Sound()
      modifies this, ring
      ensures Sound() && Pushed(View(), result) == Push(old(View()), t, reading)
    {
      hide Accept, Gated, Clamp16, Innovation, Recent;
      if count > 0 {
        var newest := Age(0);
        if t <= newest.at {
          return IGNORED;
        }
      }
      var weight := Clamp16(reading);
      DropOld(t);
      var innovation := Predict(t, weight);
      var gated := Gate(innovation);
      if gated {
        rejectedRun := rejectedRun + 1;
        if rejectedRun <= MAX_CONSECUTIVE_REJECTIONS {
          return REJECTED;
        }
        rejectedRun := 0;
        ResetSamples();
        innovation := 0;
      }
      AcceptSample(t, weight, innovation);
      return ACCEPTED;
    }
  }

  lemma RecentStep(s: seq<Sample>, t: int)
    ensures Recent(s, t) ==
      if s == [] || s[|s| - 1].at > t - RATE_WINDOW_MS then s else Recent(s[..|s| - 1], t)
  {
  }

  lemma WindowPrefix(cells: seq<Sample>, head: nat, count: nat, n: nat)
    requires |cells| == CAPACITY && head < CAPACITY && n <= count <= CAPACITY
    ensures WindowOf(cells, head, n) == WindowOf(cells, head, count)[..n]
  {
  }

  lemma FitKeepsSamples(e: Estimator)
    ensures Fit(e).samples == e.samples
  {
  }

  // Sorting the values first does not change their MAD.
  lemma MadIgnoresOrder(s: seq<int>, m: int)
    ensures Sorted(Deviations(Sorted(s), m)) == Sorted(Deviations(s, m))
  {
    hide Sorted;
    SortedSorts(s);
    DeviationsOfSame(Sorted(s), s, m);
    SortedIgnoresOrder(Deviations(Sorted(s), m), Deviations(s, m));
  }

  lemma {:induction false} DeviationsOfSame(s: seq<int>, t: seq<int>, m: int)
    requires multiset(s) == multiset(t)
    ensures multiset(Deviations(s, m)) == multiset(Deviations(t, m))
  {
    SameSize(s, t);
    if s != [] {
      var x := s[0];
      assert x in multiset(t);
      var k :| 0 <= k < |t| && t[k] == x;
      RemoveOne(s, 0);
      RemoveOne(t, k);
      var s', t' := s[..0] + s[1..], t[..k] + t[k + 1..];
      SameRest(multiset(s'), multiset(t'), x);
      DeviationsOfSame(s', t', m);
      DeviationsWithout(s, 0, m);
      DeviationsWithout(t, k, m);
    }
  }

  lemma RemoveOne(s: seq<int>, k: nat)
    requires k < |s|
    ensures multiset(s) == multiset(s[..k] + s[k + 1..]) + multiset{s[k]}
  {
    assert s == s[..k] + [s[k]] + s[k + 1..];
  }

  lemma DeviationsWithout(s: seq<int>, k: nat, m: int)
    requires k < |s|
    ensures multiset(Deviations(s, m))
         == multiset(Deviations(s[..k] + s[k + 1..], m)) + multiset{Deviations([s[k]], m)[0]}
  {
    var d := Deviations(s, m);
    RemoveOne(d, k);
    assert Deviations(s[..k] + s[k + 1..], m) == d[..k] + d[k + 1..];
  }
}
