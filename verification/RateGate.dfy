// What reaches the fit: which samples the window keeps, which readings the gate
// refuses, and that a steady pour is never refused.
module RateGate {
  import opened Bytes
  import opened CorridorSort
  import opened RateFit
  import opened RateEstimator
  import opened RateLaws

  // ----- the window -----

  // A reading drops exactly the samples at least 3 s older.
  lemma {:induction false} RecentIsExactly(samples: seq<Sample>, t: int)
    requires InOrder(samples)
    ensures forall i :: 0 <= i < |samples| ==> (i < |Recent(samples, t)| <==> samples[i].at > t - 3000)
  {
    if samples != [] && samples[|samples| - 1].at <= t - 3000 {
      RecentIsExactly(samples[..|samples| - 1], t);
    }
  }

  // ----- the gate -----

  function Distance(x: int, y: int): int {
    if x > y then x - y else y - x
  }

  // An outlier is at least 14 dg and more than 4.5 scaled MADs from the median.
  lemma OutlierExactly(s: seq<int>, innovation: int)
    ensures var d := Distance(innovation, Median(s));
            Outlier(s, innovation) <==> d >= 14 && d * 10000 > Mad(s, Median(s)) * 66717
  {
    hide Median, Mad;
  }

  predicate Ignored(e: Estimator, t: int) {
    e.samples != [] && t <= e.samples[0].at
  }

  // Refused is exactly an outlier among the innovations of at least four samples
  // still in the window, the oldest one's aside, unless two were refused before.
  lemma RejectedExactly(e: Estimator, t: int, raw: int)
    ensures var kept := Recent(e.samples, t);
            Push(e, t, raw).result == REJECTED <==>
              && !Ignored(e, t) && e.rejectedRun < 2 && |kept| >= 4
              && var s := seq(|kept| - 1, i requires 0 <= i < |kept| - 1 => kept[i].innovation);
                 Outlier(s, Innovation(e.(samples := kept), t, Clamp16(raw)))
  {
    hide Outlier, Innovation, Clamp16, Accept, Recent;
  }

  // A refused reading leaves the fit as it was.
  lemma RejectedKeepsTheFit(e: Estimator, t: int, raw: int)
    requires Push(e, t, raw).result == REJECTED
    ensures var r := Push(e, t, raw).estimator;
            r == e.(samples := Recent(e.samples, t), rejectedRun := e.rejectedRun + 1)
  {
    hide Outlier, Innovation, Clamp16, Accept, Recent;
  }

  // The third one in a row starts over from itself.
  lemma ThirdOutlierRestarts(e: Estimator, t: int, raw: int)
    requires !Ignored(e, t) && e.rejectedRun == 2
    requires var kept := e.(samples := Recent(e.samples, t));
             Gated(kept.samples, Innovation(kept, t, Clamp16(raw)))
    ensures var p := Push(e, t, raw); var r := p.estimator;
            && p.result == ACCEPTED && r.samples == [Sample(t, Clamp16(raw), 0, NO_RATE)]
            && r == Estimator(r.samples, 0, 0, false, e.channeling, 0, 0, e.onset)
  {
    hide Outlier, Innovation, Recent, Gated;
    var weight := Clamp16(raw);
    var s := Stored([], Sample(t, weight, Clamp16(0), NO_RATE));
    assert s == [Sample(t, weight, 0, NO_RATE)];
    assert !Fits(s);
  }

  // An accepted reading joins the newest 31 samples of the window, with the flow
  // fitted to them.
  lemma AcceptedJoins(e: Estimator, t: int, weight: int, innovation: int)
    ensures var r := Accept(e, t, weight, innovation);
            && |r.samples| == (if |e.samples| < 32 then |e.samples| + 1 else 32)
            && r.samples[0] == Sample(t, weight, Clamp16(innovation), if r.valid then r.raw else NO_RATE)
            && r.samples[1..] == e.samples[..|r.samples| - 1]
            && r.rejectedRun == 0 && r.onset == e.onset
  {
    hide Fits, RawRate, Surge, Clamp16, Cross;
    var s := Stored(e.samples, Sample(t, weight, Clamp16(innovation), NO_RATE));
    assert s[1..] == e.samples[..|s| - 1];
  }

  // ----- a steady pour -----

  // Every sample lies on one line of r/100000 dg per millisecond, none was a
  // surprise, and the flow in use is r.
  ghost predicate OnLine(e: Estimator, r: int) {
    && e.samples != [] && e.valid && e.rate == r
    && (forall i :: 0 <= i < |e.samples| ==> e.samples[i].innovation == 0)
    && forall i, j :: 0 <= i < |e.samples| && 0 <= j < |e.samples| ==>
         100000 * (e.samples[i].weight - e.samples[j].weight) == r * (e.samples[i].at - e.samples[j].at)
  }

  predicate Follows(e: Estimator, reading: Reading, r: int)
    requires e.samples != []
  {
    && -0x8000 <= reading.weight <= 0x7FFF && e.samples[0].at < reading.at < e.samples[0].at + 3000
    && 100000 * (reading.weight - e.samples[0].weight) == r * (reading.at - e.samples[0].at)
  }

  lemma NoSurprise(e: Estimator, reading: Reading, r: int)
    requires OnLine(e, r) && Follows(e, reading, r)
    ensures Innovation(e, reading.at, reading.weight) == 0
  {
    hide TruncDiv;
    TruncOfMultiple(reading.weight - e.samples[0].weight, 100000);
  }

  lemma {:induction false} NoInnovations(s: seq<int>)
    requires forall i :: 0 <= i < |s| ==> s[i] == 0
    ensures !Outlier(s, 0)
  {
    hide Sorted, Mad;
    if s == [] {
      MedianOfNone();
    } else {
      MedianBetween(s, 0, 0);
    }
    hide Median;
    OutlierExactly(s, 0);
  }

  // The samples kept of a line lie on it, and so does the next reading.
  lemma KeptOnLine(e: Estimator, reading: Reading, r: int)
    requires Inv(e) && OnLine(e, r) && Follows(e, reading, r)
    ensures var kept := e.(samples := Recent(e.samples, reading.at));
            Inv(kept) && OnLine(kept, r) && Follows(kept, reading, r)
  {
    hide Recent;
    RecentIsExactly(e.samples, reading.at);
    KeptInv(e, reading.at);
    assert 0 < |Recent(e.samples, reading.at)|;
  }

  lemma LineJoined(e: Estimator, reading: Reading, r: int, i: nat)
    requires OnLine(e, r) && Follows(e, reading, r) && i < |e.samples|
    ensures 100000 * (reading.weight - e.samples[i].weight) == r * (reading.at - e.samples[i].at)
    ensures 100000 * (e.samples[i].weight - reading.weight) == r * (e.samples[i].at - reading.at)
  {
    var x, y := reading.at - e.samples[0].at, e.samples[0].at - e.samples[i].at;
    Spread(r, x, y);
    Spread(r, -x, -y);
    assert 100000 * (e.samples[0].weight - e.samples[i].weight) == r * y;
    assert r * -x == -(r * x) && r * -y == -(r * y);
  }

  // A reading on the line is accepted as no surprise, and the flow stays r as
  // long as the window still allows a fit.
  lemma SteadyPush(e: Estimator, reading: Reading, r: int)
    requires Inv(e) && OnLine(e, r) && Follows(e, reading, r) && 0 <= r <= 4000
    ensures var p := Push(e, reading.at, reading.weight);
            p.result == ACCEPTED && Inv(p.estimator) && (Fits(p.estimator.samples) ==> OnLine(p.estimator, r))
  {
    hide Recent, Accept, Fits, Outlier, Innovation, Inv;
    PushKeepsInv(e, reading.at, reading.weight);
    var kept := e.(samples := Recent(e.samples, reading.at));
    KeptOnLine(e, reading, r);
    NoSurprise(kept, reading, r);
    NoInnovations(Innovations(kept.samples));
    AcceptedOnLine(kept, reading, r);
  }

  lemma AcceptedOnLine(e: Estimator, reading: Reading, r: int)
    requires Inv(e) && OnLine(e, r) && Follows(e, reading, r) && 0 <= r <= 4000
    ensures var a := Accept(e, reading.at, reading.weight, 0);
            Fits(a.samples) ==> OnLine(a, r)
  {
    hide Fits, RawRate, Cross, Times, Surge, Inv;
    var t, w := reading.at, reading.weight;
    var next := e.(rejectedRun := 0, samples := Stored(e.samples, Sample(t, w, Clamp16(0), NO_RATE)));
    StoredOnLine(e, reading, r);
    var a := Accept(e, t, w, 0);
    SameTimes(next.samples, a.samples);
    if Fits(a.samples) {
      SteadyPourIsUsed(next, r);
      AcceptedSamples(e, reading, r);
    }
  }

  lemma SameTimes(s: seq<Sample>, u: seq<Sample>)
    requires |s| == |u| && forall i :: 0 <= i < |s| ==> s[i].at == u[i].at
    ensures Fits(s) == Fits(u)
  {
  }

  lemma StoredKeepsInv(e: Estimator, reading: Reading)
    requires Inv(e) && e.samples != [] && e.samples[0].at < reading.at && -0x8000 <= reading.weight <= 0x7FFF
    ensures var s := Stored(e.samples, Sample(reading.at, reading.weight, Clamp16(0), NO_RATE));
            Inv(e.(rejectedRun := 0, samples := s)) && forall i :: 0 < i < |s| ==> s[i] == e.samples[i - 1]
  {
  }

  lemma StoredOnLine(e: Estimator, reading: Reading, r: int)
    requires Inv(e) && OnLine(e, r) && Follows(e, reading, r)
    ensures var s := Stored(e.samples, Sample(reading.at, reading.weight, Clamp16(0), NO_RATE));
            && Inv(e.(rejectedRun := 0, samples := s))
            && forall i, j :: 0 <= i < |s| && 0 <= j < |s| ==>
                 100000 * (s[i].weight - s[j].weight) == r * (s[i].at - s[j].at)
  {
    hide Inv;
    StoredKeepsInv(e, reading);
    var s := Stored(e.samples, Sample(reading.at, reading.weight, Clamp16(0), NO_RATE));
    forall i, j | 0 <= i < |s| && 0 <= j < |s|
      ensures 100000 * (s[i].weight - s[j].weight) == r * (s[i].at - s[j].at)
    {
      hide Stored;
      PairOnLine(e, reading, r, s, i, j);
    }
  }

  lemma PairOnLine(e: Estimator, reading: Reading, r: int, s: seq<Sample>, i: nat, j: nat)
    requires OnLine(e, r) && Follows(e, reading, r) && i < |s| <= |e.samples| + 1 && j < |s|
    requires s[0].at == reading.at && s[0].weight == reading.weight
    requires i > 0 ==> s[i] == e.samples[i - 1]
    requires j > 0 ==> s[j] == e.samples[j - 1]
    ensures 100000 * (s[i].weight - s[j].weight) == r * (s[i].at - s[j].at)
  {
    if i == 0 && j > 0 {
      LineJoined(e, reading, r, j - 1);
    } else if i > 0 && j == 0 {
      LineJoined(e, reading, r, i - 1);
    }
  }

  lemma AcceptedSamples(e: Estimator, reading: Reading, r: int)
    requires Inv(e) && OnLine(e, r) && Follows(e, reading, r)
    ensures var a := Accept(e, reading.at, reading.weight, 0);
            && a.samples != []
            && (forall i :: 0 <= i < |a.samples| ==> a.samples[i].innovation == 0)
            && forall i, j :: 0 <= i < |a.samples| && 0 <= j < |a.samples| ==>
                 100000 * (a.samples[i].weight - a.samples[j].weight) == r * (a.samples[i].at - a.samples[j].at)
  {
    hide Accept, Inv;
    AcceptedJoins(e, reading.at, reading.weight, 0);
    StoredOnLine(e, reading, r);
    var a := Accept(e, reading.at, reading.weight, 0);
    var s := Stored(e.samples, Sample(reading.at, reading.weight, Clamp16(0), NO_RATE));
    assert forall i :: 0 < i < |a.samples| ==> a.samples[i] == a.samples[1..][i - 1] == e.samples[i - 1];
    assert forall i :: 0 <= i < |a.samples| ==> a.samples[i].at == s[i].at && a.samples[i].weight == s[i].weight;
  }

  // ----- over runs -----

  // The readings go on along the line, close enough together for a fit each time.
  predicate SteadyRun(e: Estimator, rs: seq<Reading>, r: int)
    decreases |rs|
  {
    rs != [] ==>
      && e.samples != [] && Follows(e, rs[0], r)
      && var next := Push(e, rs[0].at, rs[0].weight).estimator;
         Fits(next.samples) && SteadyRun(next, rs[1..], r)
  }

  // Once measured, a steady pour is measured on: over every run along the line no
  // reading is refused and the flow in use stays exactly r.
  lemma {:induction false} SteadyPourStaysMeasured(e: Estimator, rs: seq<Reading>, r: int)
    requires Inv(e) && OnLine(e, r) && 0 <= r <= 4000 && SteadyRun(e, rs, r)
    ensures CountOf(e, rs, REJECTED) == 0 && CountOf(e, rs, ACCEPTED) == |rs|
    ensures AfterPushes(e, rs).valid && AfterPushes(e, rs).rate == r
    decreases |rs|
  {
    hide Inv, Push, Follows, Fits;
    if rs != [] {
      SteadyPush(e, rs[0], r);
      SteadyPourStaysMeasured(Push(e, rs[0].at, rs[0].weight).estimator, rs[1..], r);
    }
  }

  // ----- channeling -----

  // The sample compared with is the newest one at least a second old.
  lemma {:induction false} LookBackIsTheFirst(samples: seq<Sample>, age: nat)
    requires samples != []
    ensures var k := LookBack(samples, age);
            && k >= age && (k < |samples| ==> samples[k].at <= samples[0].at - 1000)
            && forall j :: age <= j < k && j < |samples| ==> samples[j].at > samples[0].at - 1000
    decreases |samples| - age
  {
    if age < |samples| && samples[age].at > samples[0].at - 1000 {
      LookBackIsTheFirst(samples, age + 1);
    }
  }

  // A surge: at least 30 dg/s now, and half as much again as a second ago, when
  // that was a fitted flow of at least 5 dg/s from wholly after the first drop.
  lemma SurgeExactly(e: Estimator, k: nat)
    requires e.samples != [] && InOrder(e.samples)
    requires 1 <= k < |e.samples| && e.samples[k].at <= e.samples[0].at - 1000
    requires forall j :: 1 <= j < k ==> e.samples[j].at > e.samples[0].at - 1000
    ensures Surge(e) <==>
      && e.valid && e.raw >= 3000 && e.samples[k].at >= e.onset + 3000
      && e.samples[k].raw != NO_RATE && e.samples[k].raw >= 500 && 2 * e.raw >= 3 * e.samples[k].raw
  {
    LookBackIsTheFirst(e.samples, 1);
  }

  // Two accepted surges in a row raise the mark, and nothing lowers it.
  lemma ChannelingCounts(e: Estimator, t: int, weight: int, innovation: int)
    ensures var r := Accept(e, t, weight, innovation);
            && (r.channelingRun == if !Surge(r) then 0 else if e.channelingRun == 255 then 0 else e.channelingRun + 1)
            && (r.channeling <==> e.channeling || r.channelingRun >= 2)
  {
    hide Fits, RawRate, Clamp16, Cross, Times;
  }

  lemma {:induction false} ChannelingStays(e: Estimator, rs: seq<Reading>)
    ensures e.channeling ==> AfterPushes(e, rs).channeling
    decreases |rs|
  {
    hide Fits, RawRate, Clamp16, Cross, Times, Surge, Gated, Innovation, Recent;
    if rs != [] {
      ChannelingStays(Push(e, rs[0].at, rs[0].weight).estimator, rs[1..]);
    }
  }
}
