// Which way the hint points and how strongly, in terms of the shots alone: the
// level they have, its side of the window and its distance from it.
module GrindHintLaws {
  import opened Bytes
  import opened CorridorSort
  import opened ArrivalRecords
  import opened GrindHint
  import opened GrindHintProofs

  // ----- direction -----

  // A level nearer to the slow end of the window than to the fast one. The ends
  // are milliseconds since the shot began, so never negative.
  predicate OnSlowSide(levelMs: int, w: StatsScope) {
    levelMs - w.fastBeforeMs > w.slowAfterMs - levelMs
  }

  function Side(levelMs: int, w: StatsScope): HintDirection {
    if OnSlowSide(levelMs, w) then COARSER else FINER
  }

  lemma SlowSideExactly(levelMs: int, w: StatsScope)
    requires w.fastBeforeMs + w.slowAfterMs >= 0
    ensures OnSlowSide(levelMs, w) <==> levelMs > MiddleMs(w)
  {
  }

  // Slow shots are answered with coarser and others with finer.
  lemma DirectionIsTheSide(e: Evidence, w: StatsScope)
    requires 0 < e.n <= HINT_LEVEL_SHOTS && e.sigmaMs >= HINT_SIGMA_FLOOR_MS && w.fastBeforeMs + w.slowAfterMs >= 0
    ensures HintDecision(e, w).direction == Side(e.levelMs, w)
  {
    hide TruncDiv, EvidenceTier, BandHalfMs, BinOf, MiddleMs, HalfMs;
    SlowSideExactly(e.levelMs, w);
  }

  // ----- strength -----

  // How far the level is from the middle.
  function Past(e: Evidence, w: StatsScope): int {
    if e.levelMs > MiddleMs(w) then e.levelMs - MiddleMs(w) else MiddleMs(w) - e.levelMs
  }

  // z is the distance past the comfort band in thousandths of the standard
  // error, cut off toward zero.
  lemma ZCountsErrors(e: Evidence, w: StatsScope, k: int)
    requires 0 < e.n <= HINT_LEVEL_SHOTS && e.sigmaMs >= HINT_SIGMA_FLOOR_MS && k > 0
    ensures HintDecision(e, w).z >= k
       <==> (Past(e, w) - BandHalfMs(HalfMs(w), e.sigmaMs)) * 1000 >= k * StandardErrorMs(e, e.n)
    ensures HintDecision(e, w).z < 0 ==> Past(e, w) < BandHalfMs(HalfMs(w), e.sigmaMs)
  {
    hide TruncDiv, EvidenceTier, BandHalfMs, BinOf, MiddleMs, HalfMs, StandardErrorMs;
    var beyond := (Past(e, w) - BandHalfMs(HalfMs(w), e.sigmaMs)) * 1000;
    TruncAtLeast(beyond, StandardErrorMs(e, e.n), k);
    TruncBounds(beyond, StandardErrorMs(e, e.n));
  }

  // From three shots on, and none of the exceptions, a tier takes that many
  // standard errors beyond the band: 1, 1.645 or 2.33, and outside dialling in
  // nothing less than 1.645.
  lemma TierCountsErrors(e: Evidence, w: StatsScope)
    requires 3 <= e.n <= HINT_LEVEL_SHOTS && e.sigmaMs >= HINT_SIGMA_FLOOR_MS && e.advised == NoDirection
    requires e.lastThreeMs == 0 && e.censored < 2 && 10 * e.sigmaLongMs <= 8 * HalfMs(w)
    ensures var tier := HintDecision(e, w).tier; var se := StandardErrorMs(e, e.n);
            var beyond := (Past(e, w) - BandHalfMs(HalfMs(w), e.sigmaMs)) * 1000;
            && (tier == CONFIDENT <==> beyond >= 2330 * se) && (tier >= LIKELY <==> beyond >= 1645 * se)
            && (tier >= TENTATIVE <==> beyond >= (if e.dialIn then 1000 else 1645) * se) && tier <= CONFIDENT
  {
    hide TruncDiv, BandHalfMs, BinOf, MiddleMs, HalfMs, StandardErrorMs;
    ZCountsErrors(e, w, 2330);
    ZCountsErrors(e, w, 1645);
    ZCountsErrors(e, w, 1000);
  }

  // The comfort band never reaches past the window's ends, unless the window is
  // narrower than its floor, and shrinks as shots vary more.
  lemma BandShrinks(halfMs: int, sigmaMs: int, wider: int)
    requires halfMs >= 0 && 0 <= sigmaMs <= wider
    ensures BandHalfMs(halfMs, wider) <= BandHalfMs(halfMs, sigmaMs)
    ensures BandHalfMs(halfMs, sigmaMs) <= halfMs || BandHalfMs(halfMs, sigmaMs) == HINT_BAND_FLOOR_MS
    ensures halfMs <= 2 * BandHalfMs(halfMs, sigmaMs) + 1
  {
  }

  lemma TierRises(y: int, z: int)
    requires y <= z
    ensures TierOf(y) <= TierOf(z)
  {
  }

  lemma BinRises(near: int, far: int, middleMs: int, halfMs: int)
    requires near <= far
    ensures BinOf(near, middleMs, halfMs) <= BinOf(far, middleMs, halfMs)
  {
    hide TruncDiv;
  }

  lemma LevelTierRises(e: Evidence, f: Evidence, past: int, farther: int, half: int, y: int, z: int)
    requires f == e.(levelMs := f.levelMs) && past <= farther && y <= z
    ensures LevelTier(e, past, half, y) <= LevelTier(f, farther, half, z)
  {
    TierRises(y, z);
  }

  lemma SameError(e: Evidence, f: Evidence, n: nat)
    requires 0 < n <= HINT_LEVEL_SHOTS && e.sigmaMs >= HINT_SIGMA_FLOOR_MS && f == e.(levelMs := f.levelMs)
    ensures StandardErrorMs(f, n) == StandardErrorMs(e, n)
  {
  }

  lemma EvidenceTierRises(e: Evidence, f: Evidence, w: StatsScope, slow: bool, past: int, farther: int, y: int, z: int)
    requires 0 < e.n <= HINT_LEVEL_SHOTS && e.sigmaMs >= HINT_SIGMA_FLOOR_MS
    requires f == e.(levelMs := f.levelMs) && past <= farther && y <= z
    ensures EvidenceTier(e, w, slow, past, y) <= EvidenceTier(f, w, slow, farther, z)
  {
    hide TruncDiv, TierOf, LevelTier, StandardErrorMs, HalfMs;
    var half := HalfMs(w);
    SameError(e, f, e.n);
    SameError(e, f, 3);
    LevelTierRises(e, f, past, farther, half, y, z);
    TruncMonotone((past - half) * 1000, (farther - half) * 1000, StandardErrorMs(e, e.n));
  }

  // Of two levels on one side, the one farther from the middle gives no less of
  // anything: standard errors, tier and size.
  lemma FartherIsStronger(e: Evidence, f: Evidence, w: StatsScope)
    requires 0 < e.n <= HINT_LEVEL_SHOTS && e.sigmaMs >= HINT_SIGMA_FLOOR_MS
    requires f == e.(levelMs := f.levelMs) && w.fastBeforeMs + w.slowAfterMs >= 0
    requires Side(e.levelMs, w) == Side(f.levelMs, w) && Past(e, w) <= Past(f, w)
    ensures var c, d := HintDecision(e, w), HintDecision(f, w);
            c.direction == d.direction && c.z <= d.z && c.tier <= d.tier && c.bin <= d.bin
  {
    hide TruncDiv, EvidenceTier, BandHalfMs, BinOf, MiddleMs, HalfMs, StandardErrorMs;
    SlowSideExactly(e.levelMs, w);
    SlowSideExactly(f.levelMs, w);
    var se, past, farther := StandardErrorMs(e, e.n), Past(e, w), Past(f, w);
    SameError(e, f, e.n);
    var band := BandHalfMs(HalfMs(w), e.sigmaMs);
    TruncMonotone((past - band) * 1000, (farther - band) * 1000, se);
    EvidenceTierRises(e, f, w, e.levelMs > MiddleMs(w), past, farther,
                      TruncDiv((past - band) * 1000, se), TruncDiv((farther - band) * 1000, se));
    var cut := if e.dialIn then 0 else TruncDiv(Z_LIKELY * se, 1000);
    var near, far := past - cut, farther - cut;
    BinRises(if near > 0 then near else 0, if far > 0 then far else 0, MiddleMs(w), HalfMs(w));
  }

  // Middle and half-width give back the window's ends, to the millisecond an odd
  // window loses.
  lemma WindowHalves(w: StatsScope)
    requires 0 <= w.fastBeforeMs <= w.slowAfterMs
    ensures 0 <= MiddleMs(w) - HalfMs(w) - w.fastBeforeMs <= 1
    ensures 0 <= w.slowAfterMs - MiddleMs(w) - HalfMs(w) <= 1
  {
  }

  // The standard error of one shot is the spread, and more shots only lower it.
  lemma ErrorShrinks(e: Evidence, n: nat)
    requires 0 < n < HINT_LEVEL_SHOTS && e.sigmaMs >= HINT_SIGMA_FLOOR_MS
    ensures StandardErrorMs(e, 1) == e.sigmaMs && StandardErrorMs(e, n + 1) <= StandardErrorMs(e, n)
  {
    assert HINT_F[n] <= HINT_F[n - 1];
    ScaledOrder(HINT_F[n], HINT_F[n - 1], e.sigmaMs);
    TruncMonotone(e.sigmaMs * HINT_F[n], e.sigmaMs * HINT_F[n - 1], 1000);
  }

  // A distance is small within the half-width, and large from twice that or a
  // fifth of the middle on, whichever is more.
  lemma SizeExactly(distanceMs: int, middleMs: nat, halfMs: nat)
    ensures BinOf(distanceMs, middleMs, halfMs) == SMALL <==> distanceMs < halfMs
    ensures BinOf(distanceMs, middleMs, halfMs) == LARGE <==>
      distanceMs >= halfMs && distanceMs >= 2 * halfMs && 5 * distanceMs > middleMs - 5
    ensures SMALL <= BinOf(distanceMs, middleMs, halfMs) <= LARGE
  {
  }

  predicate Varies(e: Evidence, w: StatsScope) {
    10 * e.sigmaLongMs > 8 * HalfMs(w)
  }

  // The first shots of dialling in advise tentatively: one only far outside the
  // window, two from one standard error beyond the band. Otherwise they are too
  // few.
  lemma FirstShotsAreTentative(e: Evidence, w: StatsScope)
    requires 1 <= e.n <= 2 && e.sigmaMs >= HINT_SIGMA_FLOOR_MS && e.advised == NoDirection
    requires e.lastThreeMs == 0 && e.censored < 2 && !Varies(e, w)
    ensures var tier := HintDecision(e, w).tier;
            && (!e.dialIn ==> tier == TIER_NONE)
            && (e.dialIn && e.n == 1 ==>
                  tier == if Past(e, w) - HalfMs(w) >= 3000 && Past(e, w) - HalfMs(w) >= 2 * e.sigmaMs
                          then TENTATIVE else TIER_NONE)
            && (e.dialIn && e.n == 2 ==>
                  tier == if (Past(e, w) - BandHalfMs(HalfMs(w), e.sigmaMs)) * 1000 >= 1000 * StandardErrorMs(e, 2)
                          then TENTATIVE else TIER_NONE)
  {
    hide TruncDiv, BandHalfMs, BinOf, MiddleMs, HalfMs, StandardErrorMs;
    ZCountsErrors(e, w, 1000);
  }

  // Likely or better takes the level, or the last three shots outside the window
  // by more than their standard error, or two slow shots cut short; where shots
  // vary more than the window is wide, a level far outside.
  lemma LikelyExactly(e: Evidence, w: StatsScope)
    requires 0 < e.n <= HINT_LEVEL_SHOTS && e.sigmaMs >= HINT_SIGMA_FLOOR_MS && e.advised == NoDirection
    ensures var d := HintDecision(e, w); var slow := e.levelMs > MiddleMs(w);
            var outside := if slow then e.lastThreeMs - w.slowAfterMs else w.fastBeforeMs - e.lastThreeMs;
            d.tier >= LIKELY <==>
              || (e.censored >= 2 && slow)
              || (if Varies(e, w) then (Past(e, w) - HalfMs(w)) * 1000 >= 2330 * StandardErrorMs(e, e.n)
                  else || LevelTier(e, Past(e, w), HalfMs(w), d.z) >= LIKELY
                       || (e.lastThreeMs > 0 && outside > StandardErrorMs(e, 3)))
  {
    hide TruncDiv, BandHalfMs, BinOf, MiddleMs, HalfMs, StandardErrorMs, LevelTier;
    TruncAtLeast((Past(e, w) - HalfMs(w)) * 1000, StandardErrorMs(e, e.n), 2330);
  }

  // ----- announcements -----

  // Advice is announced on any tier unless the shot just moved: as fresh when none
  // stands, again when it got stronger or larger, and once more after three shots.
  lemma AnnouncedExactly(r: Replay, d: Decision)
    ensures var a := AnnouncementOf(r, d); var speaks := d.tier > TIER_NONE && r.movedPermille < 1250;
            var more := d.tier > r.announcedTier || d.bin > r.announcedBin;
            && (a == Fresh <==> speaks && r.hint == NoDirection)
            && (a == Escalated <==> speaks && r.hint != NoDirection && more)
            && (a == Repeated <==> speaks && r.hint != NoDirection && !more
                                   && r.sinceAnnounce >= 3 && d.tier >= LIKELY && r.repeats == 0)
  {
  }

  // Standing advice is announced again only after it grew, so what was announced
  // never shrinks while it stands.
  lemma AnnouncementsGrow(r: Replay, d: Decision, id: u32)
    ensures var a := AnnouncementOf(r, d); var s := Announce(r, d, a, id);
            && (a == Fresh ==> s.announcedTier == d.tier && s.announcedBin == d.bin)
            && (a != Fresh ==> s.announcedTier >= r.announcedTier && s.announcedBin >= r.announcedBin)
            && (a == Escalated ==> s.announcedTier > r.announcedTier || s.announcedBin > r.announcedBin)
            && (a != Quiet ==> s.sinceAnnounce == 0 && s.armedLeft == 3 && !s.armedPending
                               && s.candidate == |r.shots| && s.announceId == id)
            && (a == Quiet ==> s == r)
  {
  }

  // Advice stands until the level changes sides or comes back inside the band,
  // and a shot that just moved never ends it.
  lemma AdviceStands(r: Replay, d: Decision)
    ensures var s := Standing(r, d);
            && (s.hint == r.hint || s.hint == NoDirection)
            && (r.hint != NoDirection ==>
                  (s.hint == NoDirection <==> r.movedPermille < 1250 && (d.direction != r.hint || d.z < 0)))
            && s.sinceAnnounce == (if r.sinceAnnounce < 255 then r.sinceAnnounce + 1 else r.sinceAnnounce)
  {
  }

  // ----- shots after advice -----

  // After advice, a shot counts as moved exactly if it came out on the side of
  // its level that leads back toward the middle, by enough standard errors.
  lemma MovedMeansTowardMiddle(e: Evidence, w: StatsScope, level: Level, arrivalMs: int, k: int)
    requires 0 < e.n <= HINT_LEVEL_SHOTS && e.sigmaMs >= HINT_SIGMA_FLOOR_MS && w.fastBeforeMs + w.slowAfterMs >= 0
    requires 0 < level.n <= HINT_LEVEL_SHOTS && level.ms == e.levelMs && k > 0
    ensures var moved := AdvisedSide(HintDecision(e, w).direction, Residual(e.sigmaMs, arrivalMs, level));
            var back := if OnSlowSide(level.ms, w) then level.ms - arrivalMs else arrivalMs - level.ms;
            moved >= k <==> back * 1000000 >= k * (e.sigmaMs * HINT_G[level.n - 1])
  {
    hide TruncDiv, HintDecision, OnSlowSide;
    DirectionIsTheSide(e, w);
    DivisorPositive(e.sigmaMs, level.n);
    var off, unit := (arrivalMs - level.ms) * 1000000, e.sigmaMs * HINT_G[level.n - 1];
    TruncAtLeast(off, unit, k);
    TruncAtLeast(-off, unit, k);
    TruncNegates(off, unit);
  }

  lemma TruncNegates(a: int, b: int)
    requires b > 0
    ensures TruncDiv(-a, b) == -TruncDiv(a, b)
  {
  }

  // Without advice nothing counts as moved.
  lemma NoAdviceNoMove(residual: int)
    ensures AdvisedSide(NoDirection, residual) == 0
  {
  }

  // ----- change points -----

  // Without advice a segment starts at the second of two shots in a row that lie
  // 2.5 standard errors off their level on one side, given four shots before.
  lemma TwoShotsStartASegment(r: Replay, level: Level, residual: int)
    requires r.shots != [] && -1 <= r.unarmedSide <= 1
    ensures var s := DetectUnarmed(r, level, residual);
            if level.n >= 4 && ((residual >= 2500 && r.unarmedSide == 1) || (residual <= -2500 && r.unarmedSide == -1))
            then s == StartSegment(r, |r.shots| - 1)
            else s == r.(unarmedSide := s.unarmedSide)
                 && (s.unarmedSide == 1 <==> level.n >= 4 && residual >= 2500)
                 && (s.unarmedSide == -1 <==> level.n >= 4 && residual <= -2500) && -1 <= s.unarmedSide <= 1
  {
    hide StartSegment;
  }

  // For three shots after advice one that moved by two standard errors starts a
  // segment at once, and two by 1.25 at the first of them; any later shot that
  // moved leaves the second rule open for one more.
  lemma AdviceStartsSegments(r: Replay, level: Level, residual: int)
    requires r.shots != [] && (r.armedPending ==> r.armedLeft > 0)
    ensures var k := |r.shots|; var moved := AdvisedSide(r.advised, residual); var s := DetectWith(r, level, residual);
            && (r.armedLeft > 0 && moved >= 2000 ==> s.segmentStart == k && s.advised == NoDirection)
            && (r.armedPending && 1250 <= moved < 2000 ==> s.segmentStart == k - 1 && s.advised == NoDirection)
            && (r.armedLeft > 1 && moved < 2000 && !(r.armedPending && moved >= 1250) && UnarmedSide(level, residual) == 0
                ==> s.segmentStart == r.segmentStart && s.armedLeft == r.armedLeft - 1
                    && (s.armedPending <==> moved >= 1250))
            && (r.armedLeft == 1 && moved < 2000 && !(r.armedPending && moved >= 1250) && UnarmedSide(level, residual) == 0
                ==> s.segmentStart == r.segmentStart && s.armedLeft == (if moved >= 1250 then 1 else 0)
                    && (s.armedPending <==> moved >= 1250))
  {
    hide Relabelled, AdvisedSide, UnarmedSide;
  }

  // A new segment forgets what the old one was told and where it was going.
  lemma NewSegmentIsClean(r: Replay, first: nat)
    ensures var s := StartSegment(r, first);
            && s.segmentStart == first && s.hint == s.advised == NoDirection && s.candidate == NO_SHOT
            && !s.segmentCounted && !s.armedPending && s.unarmedSide == 0 && s.armedLeft == 0 && s.repeats == 0
            && forall k :: InRing(|r.shots|, k) && k >= first ==> s.shots[k].segment == first
  {
  }

  // ----- the level of a segment -----

  // Where the shots of a level begin: the newest six of the stretch that the
  // ring still holds.
  function LevelStart(pushed: nat, from: nat, end: nat, room: nat): (k: nat)
    requires end <= pushed
    ensures k <= end
  {
    var held := if from + RING < pushed then pushed - RING else from;
    if end <= held then end else if held + room < end then end - room else held
  }

  // With none left out, the level is of exactly the newest of them.
  lemma {:induction false} LevelIsOfTheNewest(shots: seq<Shot>, from: nat, end: nat, room: nat)
    requires end <= |shots|
    ensures var l := LevelShots(shots, from, end, NO_SHOT, room); var k := LevelStart(|shots|, from, end, room);
            |l| == end - k && forall i :: 0 <= i < |l| ==> l[i] == shots[end - 1 - i]
    decreases end
  {
    if end > from && InRing(|shots|, end - 1) && room > 0 {
      LevelIsOfTheNewest(shots, from, end - 1, room - 1);
    }
  }

  lemma {:induction false} NothingToLeaveOut(shots: seq<Shot>, from: nat, end: nat, skip: int, room: nat)
    requires end <= |shots| && end <= skip
    ensures LevelShots(shots, from, end, skip, room) == LevelShots(shots, from, end, NO_SHOT, room)
    decreases end
  {
    if end > from && InRing(|shots|, end - 1) && room > 0 {
      NothingToLeaveOut(shots, from, end - 1, skip, room - 1);
    }
  }

  // With the shot before last on trial, it is of the newest six before that one.
  lemma ShotOnTrialIsLeftOut(shots: seq<Shot>, from: nat, end: nat, room: nat)
    requires 0 < end <= |shots|
    ensures var l := LevelShots(shots, from, end, end - 1, room);
            var k := LevelStart(|shots|, from, end - 1, room);
            |l| == end - 1 - k && forall i :: 0 <= i < |l| ==> l[i] == shots[end - 2 - i]
  {
    NothingToLeaveOut(shots, from, end - 1, end - 1, room);
    LevelIsOfTheNewest(shots, from, end - 1, room);
    assert end <= from || !InRing(|shots|, end - 1) || room == 0 ==> LevelShots(shots, from, end, end - 1, room) == [];
  }

  // It is marked as a lower bound exactly if one of them was clamped or cut short.
  lemma LevelIsAtLeast(shots: seq<Shot>, from: nat, end: nat)
    requires end <= |shots|
    ensures LevelOf(shots, from, end, NO_SHOT).atLeast <==>
      exists k :: LevelStart(|shots|, from, end, HINT_LEVEL_SHOTS) <= k < end
                  && (shots[k].clamped || shots[k].key >= HINT_CENSORED_KEY)
    ensures LevelOf(shots, from, end, NO_SHOT).n == end - LevelStart(|shots|, from, end, HINT_LEVEL_SHOTS)
  {
    hide LevelShots, TrimmedLevelMs, CountCensored;
    LevelIsOfTheNewest(shots, from, end, HINT_LEVEL_SHOTS);
    var l, start := LevelShots(shots, from, end, NO_SHOT, HINT_LEVEL_SHOTS), LevelStart(|shots|, from, end, HINT_LEVEL_SHOTS);
    forall k | start <= k < end
      ensures l[end - 1 - k] == shots[k]
    {
    }
  }

  lemma {:induction false} SumOfParts(a: seq<int>, b: seq<int>)
    ensures SumOfLevels(a + b) == SumOfLevels(a) + SumOfLevels(b)
  {
    hide TruncMod;
    if b == [] {
      assert a + b == a;
    } else {
      SumOfParts(a, b[..|b| - 1]);
      assert (a + b)[..|a + b| - 1] == a + b[..|b| - 1];
    }
  }

  lemma SumOfOne(x: int)
    ensures SumOfLevels([x]) == TruncMod(x, HINT_CENSORED_KEY)
  {
    hide TruncMod;
    assert [x][..0] == [];
    assert SumOfLevels([]) == 0;
  }

  lemma {:induction false} InsertAdds(s: seq<int>, v: int)
    ensures SumOfLevels(Insert(s, v)) == SumOfLevels(s) + TruncMod(v, HINT_CENSORED_KEY)
  {
    hide TruncMod;
    if s == [] || s[|s| - 1] <= v {
      SumOfParts(s, [v]);
      SumOfOne(v);
    } else {
      InsertAdds(s[..|s| - 1], v);
      SumOfParts(Insert(s[..|s| - 1], v), [s[|s| - 1]]);
      SumOfOne(s[|s| - 1]);
    }
  }

  lemma {:induction false} SortingKeepsTheSum(s: seq<int>)
    ensures SumOfLevels(Sorted(s)) == SumOfLevels(s)
  {
    hide TruncMod, Insert;
    if s != [] {
      SortingKeepsTheSum(s[..|s| - 1]);
      InsertAdds(Sorted(s[..|s| - 1]), s[|s| - 1]);
    }
  }

  // The fastest and the slowest shot drop out of a level of three or more, and
  // the rest are averaged; one or two are averaged as they are.
  lemma LevelDropsExtremes(keys: seq<int>, low: int, high: int)
    requires keys != [] && low in keys && high in keys && forall k :: k in keys ==> low <= k <= high
    ensures TrimmedLevelMs(keys) ==
      if |keys| <= 2 then TruncDiv(SumOfLevels(keys), |keys|)
      else TruncDiv(SumOfLevels(keys) - TruncMod(low, HINT_CENSORED_KEY) - TruncMod(high, HINT_CENSORED_KEY), |keys| - 2)
  {
    hide TrimmedLevelMs, TruncMod, TruncDiv, Sorted, SumOfLevels;
    TrimmedOf(keys);
    SortedEnds(keys, low, high);
  }

  lemma TrimmedOf(keys: seq<int>)
    requires keys != []
    ensures var n := |keys|; var sorted := Sorted(keys);
            TrimmedLevelMs(keys) ==
              if n <= 2 then TruncDiv(SumOfLevels(keys), n)
              else TruncDiv(SumOfLevels(keys) - TruncMod(sorted[0], HINT_CENSORED_KEY)
                            - TruncMod(sorted[n - 1], HINT_CENSORED_KEY), n - 2)
  {
    hide TrimmedLevelMs, TruncMod, TruncDiv, Sorted, SumOfLevels;
    var n, sorted := |keys|, Sorted(keys);
    SortingKeepsTheSum(keys);
    TrimmedCases(keys);
    if n > 2 {
      SumWithoutEnds(sorted);
    }
  }

  lemma TrimmedCases(keys: seq<int>)
    requires keys != []
    ensures |keys| <= 2 ==> TrimmedLevelMs(keys) == TruncDiv(SumOfLevels(Sorted(keys)), |keys|)
    ensures |keys| > 2 ==>
      TrimmedLevelMs(keys) == TruncDiv(SumOfLevels(Sorted(keys)[1..|keys| - 1]), |keys| - 2)
  {
    hide TruncMod, TruncDiv, Sorted, SumOfLevels;
  }

  lemma SumWithoutEnds(s: seq<int>)
    requires |s| > 2
    ensures SumOfLevels(s[1..|s| - 1])
         == SumOfLevels(s) - TruncMod(s[0], HINT_CENSORED_KEY) - TruncMod(s[|s| - 1], HINT_CENSORED_KEY)
  {
    hide TruncMod, SumOfLevels;
    var n := |s|;
    SumOfParts([s[0]], s[1..n - 1]);
    SumOfParts([s[0]] + s[1..n - 1], [s[n - 1]]);
    assert s == [s[0]] + s[1..n - 1] + [s[n - 1]];
    SumOfOne(s[0]);
    SumOfOne(s[n - 1]);
  }

  lemma SortedEnds(keys: seq<int>, low: int, high: int)
    requires keys != [] && low in keys && high in keys && forall k :: k in keys ==> low <= k <= high
    ensures Sorted(keys)[0] == low && Sorted(keys)[|keys| - 1] == high
  {
    hide Sorted;
    SortedSorts(keys);
    SortedComesFrom(keys, 0);
    SortedComesFrom(keys, |keys| - 1);
    assert low in multiset(Sorted(keys)) && high in multiset(Sorted(keys));
    var i :| 0 <= i < |keys| && Sorted(keys)[i] == low;
    var j :| 0 <= j < |keys| && Sorted(keys)[j] == high;
  }

  // ----- over whole streams -----

  // Level of the shots kept of the segment a replay is in.
  function SegmentLevel(r: Replay): Level
    requires r.segmentStart <= |r.shots|
  {
    LevelOf(r.shots, r.segmentStart, |r.shots|, NO_SHOT)
  }

  // An announced direction is the side the segment's level is on, and so is the
  // offset shown with it.
  lemma EvaluationPoints(r: Replay, w: StatsScope, id: u32)
    requires Inv(r) && r.shots != [] && w.fastBeforeMs + w.slowAfterMs >= 0
    ensures var e := Evaluate(r, w, id); var level := SegmentLevel(r);
            && e.replay.shots == r.shots && e.replay.segmentStart == r.segmentStart
            && (e.announcement != Quiet ==>
                  && level.n > 0 && e.replay.hint == e.replay.advised == Side(level.ms, w)
                  && (e.replay.epochStart != NO_SHOT ==>
                        && e.shown.direction == e.replay.advised
                        && (e.shown.offsetMs > 0 <==> e.shown.direction == COARSER)))
  {
    hide Labelled, HintDecision, LevelOf, BandHalfMs, HintVaries, TierOf, MiddleMs, Side;
    EvaluateKeeps(r, w, id);
    var level := SegmentLevel(r);
    var lastThree := if |r.shots| - r.segmentStart >= 3 then LevelOf(r.shots, |r.shots| - 3, |r.shots|, NO_SHOT).ms else 0;
    var e := Evidence(r.dialIn, level.n, level.censored, level.ms, lastThree, r.sigmaMs, r.sigmaLongMs, r.advised);
    SlowSideExactly(level.ms, w);
    if level.n > 0 {
      DirectionIsTheSide(e, w);
    } else {
      NothingToSay(e, w);
    }
    SideIsCoarser(level.ms, w);
  }

  lemma NothingToSay(e: Evidence, w: StatsScope)
    requires e.n == 0 && e.sigmaMs >= HINT_SIGMA_FLOOR_MS
    ensures HintDecision(e, w).tier == TIER_NONE
  {
  }

  lemma SideIsCoarser(levelMs: int, w: StatsScope)
    ensures Side(levelMs, w) == COARSER <==> OnSlowSide(levelMs, w)
  {
  }

  // Over every stream, whatever is announced after a shot points to the side of
  // the window on which the newest shots of the segment lie.
  lemma AdvicePointsAtTheShots(records: seq<ArrivalRecord>, w: StatsScope, record: ArrivalRecord)
    requires w.fastBeforeMs + w.slowAfterMs >= 0
    ensures Inv(FRESH)
    ensures var e := Push(ReplayFrom(FRESH, records, w), record, w);
            e.announcement != Quiet ==>
              && SegmentLevel(e.replay).n > 0
              && e.replay.hint == e.replay.advised == Side(SegmentLevel(e.replay).ms, w)
  {
    hide Prepare, Store, UpdateSigma, Reverse, Evaluate, Labelled, Side, SegmentLevel;
    FreshInv();
    var r := ReplayFrom(FRESH, records, w);
    PushSteps(r, record, w);
    var last := Reverse(UpdateSigma(Store(Prepare(r, record, w), record)), w);
    EvaluationPoints(last, w, record.recordId);
    SameLevel(last, Evaluate(last, w, record.recordId).replay);
  }

  lemma SameLevel(r: Replay, s: Replay)
    requires r.segmentStart <= |r.shots| && s.shots == r.shots && s.segmentStart == r.segmentStart
    ensures SegmentLevel(s) == SegmentLevel(r)
  {
  }
}
