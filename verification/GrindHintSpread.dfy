// What the grind hint takes for the spread of shots: which differences it looks
// at, what it makes of them, and how it blends them over time.
module GrindHintSpread {
  import opened Bytes
  import opened CorridorSort
  import opened CorridorMedian
  import opened GrindHint

  // ----- from differences to a spread -----

  // 1.0486 times the distance that half of the differences keep to their median:
  // 1.4826 for a MAD, over the root of two for a difference.
  lemma SpreadSplits(differences: seq<int>, x: int)
    requires differences != [] && x >= 0
    ensures var sigma := DifferenceSigmaMs(differences); var m := Median(differences);
            && (x * 10486293 >= (sigma + 2) * 10000000 ==> 2 * Within(differences, m, x) >= |differences|)
            && (x * 10486293 <= sigma * 10000000 ==> 2 * Beyond(differences, m, x) >= |differences|)
  {
    hide Sorted, Median, Mad, TruncDiv, Within, Beyond;
    var sorted, m := Sorted(differences), Median(differences);
    var mad := Mad(sorted, m);
    MadIsNatural(sorted, m);
    Rounded(mad);
    MadSplits(sorted, m);
    SpreadOfSorted(differences, m, x);
    if x >= mad {
      SpreadRises(sorted, m, mad, x);
    }
    if x <= mad {
      SpreadRises(sorted, m, x, mad);
    }
  }

  lemma MadIsNatural(s: seq<int>, m: int)
    ensures Mad(s, m) >= 0
  {
    hide Median;
    if s == [] {
      MedianOfNone();
    } else {
      var d := Deviations(s, m);
      MedianAtLeast(d, 0);
    }
  }

  lemma MedianAtLeast(s: seq<int>, low: int)
    requires s != [] && forall i :: 0 <= i < |s| ==> low <= s[i]
    ensures low <= Median(s)
  {
    hide Sorted;
    SortedSorts(s);
    forall i | 0 <= i < |s|
      ensures low <= Sorted(s)[i]
    {
      SortedComesFrom(s, i);
    }
  }

  // Both roundings together take off less than two.
  lemma Rounded(mad: int)
    requires mad >= 0
    ensures var sigma := TruncDiv(TruncDiv(mad * 1483, 1000) * 7071, 10000);
            sigma * 10000000 <= mad * 10486293 < (sigma + 2) * 10000000
  {
    hide TruncDiv;
    TruncBounds(mad * 1483, 1000);
    TruncBounds(TruncDiv(mad * 1483, 1000) * 7071, 10000);
  }

  // ----- the differences of the newest shots -----

  // Where the segment of shot j ends.
  function SegmentEnd(shots: seq<Shot>, j: nat): (e: nat)
    requires j < |shots|
    ensures j < e <= |shots|
    decreases |shots| - j
  {
    if j + 1 == |shots| || shots[j + 1].segment != shots[j].segment then j + 1 else SegmentEnd(shots, j + 1)
  }

  // Shots j - 1 and j were both measured, in one segment of at least three.
  predicate Compares(shots: seq<Shot>, j: nat)
    requires 0 < j < |shots|
  {
    && shots[j - 1].segment == shots[j].segment && SegmentEnd(shots, j) - shots[j].segment >= 3
    && shots[j - 1].key < HINT_CENSORED_KEY && shots[j].key < HINT_CENSORED_KEY
  }

  // The differences to compare among shots 1 to k - 1 of the newest ten, newest
  // first.
  function Comparisons(shots: seq<Shot>, k: nat): seq<int>
    requires k <= |shots|
  {
    if k <= 1 || k + 9 <= |shots| then []
    else
      (if Compares(shots, k - 1) then [shots[k - 1].key - shots[k - 2].key] else []) + Comparisons(shots, k - 1)
  }

  predicate Looks(pushed: nat, k: nat) {
    k > 1 && k + 9 > pushed
  }

  lemma RecentStep(shots: seq<Shot>, k: nat, end: nat, so: seq<int>)
    requires Looks(|shots|, k) && k <= |shots| && (k < |shots| ==> end == SegmentEnd(shots, k))
    requires k == |shots| ==> end == k
    ensures RecentDifferences(shots, k, end, so)
         == RecentDifferences(shots, k - 1, SegmentEnd(shots, k - 1),
              if Compares(shots, k - 1) then so + [shots[k - 1].key - shots[k - 2].key] else so)
  {
  }

  lemma RecentDone(shots: seq<Shot>, k: nat, end: nat, so: seq<int>)
    requires k <= |shots| && !Looks(|shots|, k)
    ensures RecentDifferences(shots, k, end, so) == so && Comparisons(shots, k) == []
  {
  }

  lemma ComparisonsStep(shots: seq<Shot>, k: nat)
    requires Looks(|shots|, k) && k <= |shots|
    ensures Comparisons(shots, k)
         == (if Compares(shots, k - 1) then [shots[k - 1].key - shots[k - 2].key] else []) + Comparisons(shots, k - 1)
  {
  }

  lemma {:induction false} RecentAreComparisons(shots: seq<Shot>, k: nat, end: nat, so: seq<int>)
    requires k <= |shots| && (k < |shots| ==> end == SegmentEnd(shots, k)) && (k == |shots| ==> end == k)
    ensures RecentDifferences(shots, k, end, so) == so + Comparisons(shots, k)
    decreases k
  {
    hide RecentDifferences, Comparisons, Compares, SegmentEnd;
    if !Looks(|shots|, k) {
      RecentDone(shots, k, end, so);
    } else {
      var one := if Compares(shots, k - 1) then [shots[k - 1].key - shots[k - 2].key] else [];
      RecentStep(shots, k, end, so);
      ComparisonsStep(shots, k);
      RecentAreComparisons(shots, k - 1, SegmentEnd(shots, k - 1), so + one);
      assert so + [] == so;
      assert so + one + Comparisons(shots, k - 1) == so + (one + Comparisons(shots, k - 1));
    }
  }

  // The recent spread is that of exactly those differences, once there are six.
  lemma RecentSpreadIs(shots: seq<Shot>)
    ensures var d := Comparisons(shots, |shots|);
            RecentSigma(shots) == if |d| >= 6 then DifferenceSigmaMs(d) else 0
  {
    hide DifferenceSigmaMs;
    RecentAreComparisons(shots, |shots|, |shots|, []);
    assert [] + Comparisons(shots, |shots|) == Comparisons(shots, |shots|);
  }

  // ----- over time -----

  // A segment feeds the long-run spread once, at its fifth measured shot: the
  // first one sets it, later ones move it a quarter of the way, up to 3 s.
  lemma SpreadIsBlended(r: Replay)
    requires r.segmentStart <= |r.shots|
    ensures var s := SeedSigma(r); var spread := SegmentSpread(r.shots, r.segmentStart, Spread(0, []));
            var segment := DifferenceSigmaMs(spread.differences);
            if r.segmentCounted || spread.counted < 5 then s == r
            else && s.sigmaSeeded && s.segmentCounted && s.sigmaLongMs <= 3000
                 && (!r.sigmaSeeded ==> s.sigmaLongMs == if segment < 3000 then segment else 3000)
                 && (r.sigmaSeeded && 0 <= r.sigmaLongMs && 0 <= segment && s.sigmaLongMs < 3000 ==>
                       4 * s.sigmaLongMs <= 3 * r.sigmaLongMs + segment < 4 * s.sigmaLongMs + 4)
  {
    hide SegmentSpread, DifferenceSigmaMs;
  }

  // The spread in use is the largest of a second, the long-run and the recent one.
  lemma SpreadInUseIsLargest(r: Replay)
    requires r.segmentStart <= |r.shots|
    ensures var u := UpdateSigma(r);
            && u.sigmaMs >= 1000 && u.sigmaMs >= u.sigmaLongMs && u.sigmaMs >= RecentSigma(r.shots)
            && (u.sigmaMs == 1000 || u.sigmaMs == u.sigmaLongMs || u.sigmaMs == RecentSigma(r.shots))
            && u == SeedSigma(r).(sigmaMs := u.sigmaMs)
  {
    hide SegmentSpread, RecentSigma, DifferenceSigmaMs;
  }
}
