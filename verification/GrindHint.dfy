// The grind hint as functions over the shots so far, oldest first: where a
// segment starts, how much shots vary, what is advised and when it is shown.
module GrindHint {
  import opened Bytes
  import opened CorridorSort
  import opened ArrivalRecords

  const RING: nat := 16
  const HINT_LEVEL_SHOTS: nat := 6
  const HINT_F: seq<int> := [1000, 709, 669, 548, 478, 432]
  const HINT_G: seq<int> := [1414, 1226, 1203, 1140, 1108, 1089]
  const HINT_SIGMA_SHOTS: nat := 10
  const HINT_SIGMA_MIN_DIFFERENCES: nat := 6
  const HINT_SIGMA_SEGMENT_SHOTS: nat := 5
  const HINT_DIAL_IN_SHOTS: nat := 12
  const HINT_REPEAT_SHOTS: nat := 3
  const HINT_VARY_SHOTS: nat := 6
  const CP_ARMED_SHOTS: nat := 3
  const HINT_SIGMA_FLOOR_MS: int := 1000
  const HINT_SIGMA_PRIOR_MS: int := 2000
  const HINT_SIGMA_CAP_MS: int := 3000
  const HINT_BAND_FLOOR_MS: int := 750
  const HINT_FIRST_SHOT_MS: int := 3000
  const Z_TENTATIVE: int := 1000
  const Z_LIKELY: int := 1645
  const Z_CONFIDENT: int := 2330
  const R_MOVED: int := 1250
  const R_SINGLE: int := 2000
  const R_UNARMED: int := 2500
  const HINT_CENSORED_KEY: int := 16777216
  const NO_SHOT: int := -1
  const UINT8_MAX: nat := 255

  datatype HintDirection = NoDirection | FINER | COARSER
  datatype HintState = NoHint | DIAL_IN | MAINTENANCE | CHECKING | VARY

  // Tiers and bins compare as numbers.
  const TIER_NONE: nat := 0
  const TENTATIVE: nat := 1
  const LIKELY: nat := 2
  const CONFIDENT: nat := 3
  const BIN_NONE: nat := 0
  const SMALL: nat := 1
  const MEDIUM: nat := 2
  const LARGE: nat := 3

  datatype Shot = Shot(id: u32, segment: nat, key: int, clamped: bool)

  // `shots` lists every shot pushed; only the newest RING of them are ever read
  // or relabelled.
  datatype Replay = Replay(
    shots: seq<Shot>, segmentStart: nat, segmentStartId: u32, epochStart: int, candidate: int, announceId: u32,
    sigmaLongMs: int, sigmaMs: int, movedPermille: int, sigmaSeeded: bool, segmentCounted: bool, dialIn: bool,
    armedPending: bool, unarmedSide: int, dialInShots: nat, armedLeft: nat, sinceAnnounce: nat, repeats: nat,
    hint: HintDirection, advised: HintDirection, announcedTier: nat, announcedBin: nat)

  const FRESH := Replay(
    [], 0, 0, NO_SHOT, NO_SHOT, 0, HINT_SIGMA_PRIOR_MS, HINT_SIGMA_PRIOR_MS, 0, false, false, true,
    false, 0, 0, 0, 0, 0, NoDirection, NoDirection, TIER_NONE, BIN_NONE)

  // Shot k is still in the ring of a replay that has pushed `pushed` shots.
  predicate InRing(pushed: nat, k: int) {
    0 <= k < pushed && k + RING >= pushed
  }

  function At(shots: seq<Shot>, k: int): Shot
    requires InRing(|shots|, k)
  {
    shots[k]
  }

  predicate Censored(s: Shot) {
    s.key >= HINT_CENSORED_KEY
  }

  // ----- level of the newest shots -----

  // The newest shots in [from, end) still in the ring, one left out, at most
  // `room` of them, newest first.
  function LevelShots(shots: seq<Shot>, from: nat, end: nat, skip: int, room: nat): (l: seq<Shot>)
    requires end <= |shots|
    ensures |l| <= room
    decreases end
  {
    if end <= from || !InRing(|shots|, end - 1) || room == 0 then []
    else if end - 1 == skip then LevelShots(shots, from, end - 1, skip, room)
    else [At(shots, end - 1)] + LevelShots(shots, from, end - 1, skip, room - 1)
  }

  function Keys(l: seq<Shot>): (k: seq<int>)
    ensures |k| == |l|
  {
    seq(|l|, i requires 0 <= i < |l| => l[i].key)
  }

  function SumOfLevels(keys: seq<int>): int {
    if keys == [] then 0 else SumOfLevels(keys[..|keys| - 1]) + TruncMod(keys[|keys| - 1], HINT_CENSORED_KEY)
  }

  // A mean of the levels; of three or more, both extremes are dropped first.
  function TrimmedLevelMs(keys: seq<int>): int
    requires keys != []
  {
    var sorted := Sorted(keys);
    var kept := if |keys| > 2 then sorted[1..|keys| - 1] else sorted;
    TruncDiv(SumOfLevels(kept), |kept|)
  }

  function CountCensored(l: seq<Shot>): (n: nat)
    ensures n <= |l|
  {
    if l == [] then 0 else CountCensored(l[..|l| - 1]) + if Censored(l[|l| - 1]) then 1 else 0
  }

  predicate AnyAtLeast(l: seq<Shot>) {
    exists i :: 0 <= i < |l| && (l[i].clamped || Censored(l[i]))
  }

  datatype Level = Level(n: nat, censored: nat, atLeast: bool, ms: int)

  function LevelOf(shots: seq<Shot>, from: nat, end: nat, skip: int): (l: Level)
    requires end <= |shots|
    ensures l.n <= HINT_LEVEL_SHOTS
  {
    var l := LevelShots(shots, from, end, skip, HINT_LEVEL_SHOTS);
    Level(|l|, CountCensored(l), AnyAtLeast(l), if l == [] then 0 else TrimmedLevelMs(Keys(l)))
  }

  // ----- segments -----

  function Relabelled(shots: seq<Shot>, first: nat): (r: seq<Shot>)
    ensures |r| == |shots|
  {
    seq(|shots|, k requires 0 <= k < |shots| =>
      if first <= k && InRing(|shots|, k) then shots[k].(segment := first) else shots[k])
  }

  function StartSegment(r: Replay, first: nat): Replay {
    r.(shots := Relabelled(r.shots, first), segmentStart := first, candidate := NO_SHOT,
       hint := NoDirection, advised := NoDirection, segmentCounted := false, armedPending := false,
       unarmedSide := 0, armedLeft := 0, repeats := 0)
  }

  // The new shot's distance from its segment in permille of its standard error.
  function Residual(sigmaMs: int, arrivalMs: int, level: Level): int
    requires 0 < level.n <= HINT_LEVEL_SHOTS && sigmaMs >= HINT_SIGMA_FLOOR_MS
  {
    DivisorPositive(sigmaMs, level.n);
    TruncDiv((arrivalMs - level.ms) * 1000000, sigmaMs * HINT_G[level.n - 1])
  }

  lemma DivisorPositive(sigmaMs: int, n: nat)
    requires sigmaMs >= HINT_SIGMA_FLOOR_MS && 0 < n <= HINT_LEVEL_SHOTS
    ensures sigmaMs * HINT_G[n - 1] > 0
    ensures TruncDiv(sigmaMs * HINT_F[n - 1], 1000) > 0
  {
    assert HINT_F[n - 1] >= 432 && HINT_G[n - 1] >= 1089;
    ProductAtLeast(sigmaMs, HINT_F[n - 1]);
    ProductAtLeast(sigmaMs, HINT_G[n - 1]);
  }

  lemma ProductAtLeast(x: int, y: int)
    requires x >= 1000 && y >= 1
    ensures x * y >= 1000
  {
  }

  // Finer makes shots slower.
  function AdvisedSide(advised: HintDirection, residual: int): int {
    if advised == FINER then residual else if advised == COARSER then -residual else 0
  }

  function UnarmedSide(level: Level, residual: int): int {
    if level.n < 4 then 0 else if residual >= R_UNARMED then 1 else if residual <= -R_UNARMED then -1 else 0
  }

  // Change points without armed advice.
  function DetectUnarmed(r: Replay, level: Level, residual: int): Replay
    requires r.shots != []
  {
    var side := UnarmedSide(level, residual);
    if side != 0 && side == r.unarmedSide then StartSegment(r, |r.shots| - 1) else r.(unarmedSide := side)
  }

  // The armed shot count after one more shot that started nothing.
  function StillArmed(armedLeft: nat, pending: bool): nat {
    if armedLeft > 1 then armedLeft - 1 else if pending then 1 else 0
  }

  // Change points from a residual against the segment's level.
  function DetectWith(r: Replay, level: Level, residual: int): Replay
    requires r.shots != []
  {
    var k := |r.shots|;
    var advisedR := AdvisedSide(r.advised, residual);
    var seen := if r.hint != NoDirection then r.(movedPermille := advisedR) else r;
    if !(r.armedLeft > 0 || seen.movedPermille >= R_MOVED) then DetectUnarmed(seen, level, residual)
    else if r.armedLeft > 0 && advisedR >= R_SINGLE then StartSegment(seen, k)
    else if r.armedPending && advisedR >= R_MOVED then StartSegment(seen, k - 1)
    else
      var pending := advisedR >= R_MOVED;
      DetectUnarmed(seen.(armedPending := pending, armedLeft := StillArmed(r.armedLeft, pending)), level, residual)
  }

  // The residual leaves out a pending first shot of a pair.
  function DetectChange(r: Replay, arrivalMs: int): Replay
    requires r.shots != [] && r.sigmaMs >= HINT_SIGMA_FLOOR_MS
  {
    var k := |r.shots|;
    var level := LevelOf(r.shots, r.segmentStart, k, if r.armedPending || r.unarmedSide != 0 then k - 1 else NO_SHOT);
    if level.n == 0 then r else DetectWith(r, level, Residual(r.sigmaMs, arrivalMs, level))
  }

  // ----- spread -----

  function DifferenceSigmaMs(differences: seq<int>): int {
    TruncDiv(TruncDiv(Mad(Sorted(differences), Median(differences)) * 1483, 1000) * 7071, 10000)
  }

  // What a segment's first five measured shots, read from shot k on, differ by
  // from one to the next; `counted` of the five came before k.
  datatype Spread = Spread(counted: nat, differences: seq<int>)

  function SegmentSpread(shots: seq<Shot>, k: nat, so: Spread): (s: Spread)
    requires k <= |shots| && (so.counted > 0 ==> k > 0 && InRing(|shots|, k - 1))
    requires so.counted <= HINT_SIGMA_SEGMENT_SHOTS
    ensures s.counted <= HINT_SIGMA_SEGMENT_SHOTS
    decreases |shots| - k
  {
    if k == |shots| || so.counted == HINT_SIGMA_SEGMENT_SHOTS then so
    else if !InRing(|shots|, k) || Censored(At(shots, k)) then SegmentSpread(shots, k + 1, so)
    else
      SegmentSpread(shots, k + 1, Spread(so.counted + 1,
        if so.counted > 0 && !Censored(At(shots, k - 1))
        then so.differences + [At(shots, k).key - At(shots, k - 1).key] else so.differences))
  }

  // Differences inside one segment of at least three shots over the newest ten
  // shots; `end` is where the segment of the shots at hand ends.
  function RecentDifferences(shots: seq<Shot>, k: nat, end: nat, so: seq<int>): seq<int>
    requires k <= |shots|
    decreases k
  {
    if k <= 1 || k - 1 + HINT_SIGMA_SHOTS <= |shots| then so
    else
      var j := k - 1;
      var a, b := At(shots, j - 1), At(shots, j);
      var end' := if j + 1 < |shots| && At(shots, j + 1).segment != b.segment then j + 1 else end;
      RecentDifferences(shots, j, end',
        if a.segment == b.segment && end' - b.segment >= 3 && !Censored(a) && !Censored(b)
        then so + [b.key - a.key] else so)
  }

  function SeedSigma(r: Replay): Replay
    requires r.segmentStart <= |r.shots|
  {
    var spread := SegmentSpread(r.shots, r.segmentStart, Spread(0, []));
    if r.segmentCounted || spread.counted != HINT_SIGMA_SEGMENT_SHOTS then r
    else
      var segment := DifferenceSigmaMs(spread.differences);
      var long := if r.sigmaSeeded then TruncDiv(3 * r.sigmaLongMs + segment, 4) else segment;
      r.(sigmaLongMs := if long > HINT_SIGMA_CAP_MS then HINT_SIGMA_CAP_MS else long,
         sigmaSeeded := true, segmentCounted := true)
  }

  function RecentSigma(shots: seq<Shot>): int {
    var differences := RecentDifferences(shots, |shots|, |shots|, []);
    if |differences| >= HINT_SIGMA_MIN_DIFFERENCES then DifferenceSigmaMs(differences) else 0
  }

  // max(1 s, long-run spread, recent spread).
  function UpdateSigma(r: Replay): (u: Replay)
    requires r.segmentStart <= |r.shots|
    ensures u.sigmaMs >= HINT_SIGMA_FLOOR_MS
  {
    var s := SeedSigma(r);
    var recent := RecentSigma(r.shots);
    var sigma := if s.sigmaLongMs > HINT_SIGMA_FLOOR_MS then s.sigmaLongMs else HINT_SIGMA_FLOOR_MS;
    s.(sigmaMs := if recent > sigma then recent else sigma)
  }

  // ----- decision -----

  function TierOf(z: int): nat {
    if z >= Z_CONFIDENT then CONFIDENT else if z >= Z_LIKELY then LIKELY
    else if z >= Z_TENTATIVE then TENTATIVE else TIER_NONE
  }

  function BandHalfMs(halfMs: int, sigmaMs: int): (b: int)
    ensures b >= HINT_BAND_FLOOR_MS
  {
    var b := if halfMs - 2 * sigmaMs > TruncDiv(halfMs, 2) then halfMs - 2 * sigmaMs else TruncDiv(halfMs, 2);
    if b > HINT_BAND_FLOOR_MS then b else HINT_BAND_FLOOR_MS
  }

  predicate HintVaries(sigmaLongMs: int, halfMs: int) {
    10 * sigmaLongMs > 8 * halfMs
  }

  function BinOf(distanceMs: int, middleMs: int, halfMs: int): nat {
    if distanceMs < halfMs then SMALL
    else if distanceMs < (if 2 * halfMs > TruncDiv(middleMs, 5) then 2 * halfMs else TruncDiv(middleMs, 5)) then MEDIUM
    else LARGE
  }

  function MiddleMs(w: StatsScope): int {
    TruncDiv(w.fastBeforeMs + w.slowAfterMs, 2)
  }

  function HalfMs(w: StatsScope): int {
    TruncDiv(w.slowAfterMs - w.fastBeforeMs, 2)
  }

  datatype Evidence = Evidence(
    dialIn: bool, n: nat, censored: nat, levelMs: int, lastThreeMs: int, sigmaMs: int, sigmaLongMs: int,
    advised: HintDirection)

  datatype Decision = Decision(direction: HintDirection, tier: nat, bin: nat, z: int)

  const NO_DECISION := Decision(NoDirection, TIER_NONE, BIN_NONE, 0)

  function StandardErrorMs(e: Evidence, n: nat): (se: int)
    requires 0 < n <= HINT_LEVEL_SHOTS && e.sigmaMs >= HINT_SIGMA_FLOOR_MS
    ensures se > 0
  {
    DivisorPositive(e.sigmaMs, n);
    TruncDiv(e.sigmaMs * HINT_F[n - 1], 1000)
  }

  // Tier from the level alone.
  function LevelTier(e: Evidence, past: int, half: int, z: int): nat {
    if !e.dialIn then (if e.n >= 3 && z >= Z_LIKELY then TierOf(z) else TIER_NONE)
    else if e.n == 1 then
      (if past >= half + (if 2 * e.sigmaMs > HINT_FIRST_SHOT_MS then 2 * e.sigmaMs else HINT_FIRST_SHOT_MS)
       then TENTATIVE else TIER_NONE)
    else if e.n == 2 && z >= Z_TENTATIVE then TENTATIVE
    else TierOf(z)
  }

  // Tier before the limits that advice already given sets.
  function EvidenceTier(e: Evidence, w: StatsScope, slow: bool, past: int, z: int): nat
    requires 0 < e.n <= HINT_LEVEL_SHOTS && e.sigmaMs >= HINT_SIGMA_FLOOR_MS
  {
    var half := HalfMs(w);
    var se := StandardErrorMs(e, e.n);
    var tier :=
      if HintVaries(e.sigmaLongMs, half) then
        (if TruncDiv((past - half) * 1000, se) >= Z_CONFIDENT then CONFIDENT else TIER_NONE)
      else
        var t := LevelTier(e, past, half, z);
        if e.lastThreeMs > 0 && t < LIKELY &&
           (if slow then e.lastThreeMs - w.slowAfterMs else w.fastBeforeMs - e.lastThreeMs) > StandardErrorMs(e, 3)
        then LIKELY else t;
    if e.censored >= 2 && slow && tier < LIKELY then LIKELY else tier
  }

  function HintDecision(e: Evidence, w: StatsScope): (d: Decision)
    requires e.n <= HINT_LEVEL_SHOTS && e.sigmaMs >= HINT_SIGMA_FLOOR_MS
    ensures d.tier != TIER_NONE ==> d.direction != NoDirection
    ensures d.tier != TIER_NONE && e.advised != NoDirection ==> d.direction == e.advised
  {
    if e.n == 0 then NO_DECISION
    else
      var middle, half := MiddleMs(w), HalfMs(w);
      var se := StandardErrorMs(e, e.n);
      var slow := e.levelMs > middle;
      var past := if slow then e.levelMs - middle else middle - e.levelMs;
      var direction := if slow then COARSER else FINER;
      var z := TruncDiv((past - BandHalfMs(half, e.sigmaMs)) * 1000, se);
      var tier := if e.advised != NoDirection && direction != e.advised then TIER_NONE
                  else EvidenceTier(e, w, slow, past, z);
      var distance := if e.dialIn then past else past - TruncDiv(Z_LIKELY * se, 1000);
      Decision(direction, tier, BinOf(if distance > 0 then distance else 0, middle, half), z)
  }

  function Decide(r: Replay, w: StatsScope, level: Level, lastThreeMs: int): (d: Decision)
    requires level.n <= HINT_LEVEL_SHOTS && r.sigmaMs >= HINT_SIGMA_FLOOR_MS
    ensures d.tier != TIER_NONE ==> d.direction != NoDirection
    ensures d.tier != TIER_NONE && r.advised != NoDirection ==> d.direction == r.advised
  {
    HintDecision(Evidence(r.dialIn, level.n, level.censored, level.ms, lastThreeMs, r.sigmaMs, r.sigmaLongMs,
                          r.advised), w)
  }

  // ----- lifecycle -----

  datatype Announcement = Quiet | Fresh | Escalated | Repeated

  // New advice is announced, and so is a stronger or larger one; advice that
  // went unheeded for three shots is given one more time.
  function AnnouncementOf(r: Replay, d: Decision): Announcement {
    if d.tier == TIER_NONE || r.movedPermille >= R_MOVED then Quiet
    else if r.hint == NoDirection then Fresh
    else if d.tier > r.announcedTier || d.bin > r.announcedBin then Escalated
    else if r.sinceAnnounce >= HINT_REPEAT_SHOTS && d.tier >= LIKELY && r.repeats == 0 then Repeated
    else Quiet
  }

  function Announce(r: Replay, d: Decision, a: Announcement, id: u32): Replay {
    if a == Quiet then r
    else r.(repeats := if a == Repeated then r.repeats + 1 else r.repeats,
            announcedTier := if a == Fresh || d.tier > r.announcedTier then d.tier else r.announcedTier,
            announcedBin := if a == Fresh || d.bin > r.announcedBin then d.bin else r.announcedBin,
            hint := d.direction, advised := d.direction, armedLeft := CP_ARMED_SHOTS, armedPending := false,
            sinceAnnounce := 0, candidate := |r.shots|, announceId := id)
  }

  // The replay as the evaluation's announcement rules see it.
  function Standing(r: Replay, d: Decision): Replay {
    var checking := r.hint != NoDirection && r.movedPermille >= R_MOVED;
    r.(hint := if r.hint != NoDirection && !checking && (d.direction != r.hint || d.z < 0) then NoDirection else r.hint,
       sinceAnnounce := if r.sinceAnnounce < UINT8_MAX then r.sinceAnnounce + 1 else r.sinceAnnounce,
       segmentStartId := if InRing(|r.shots|, r.segmentStart) then At(r.shots, r.segmentStart).id else r.segmentStartId)
  }

  function SettleDialIn(r: Replay, w: StatsScope, level: Level): Replay
    requires r.segmentStart <= |r.shots|
  {
    var shots := if r.dialInShots < UINT8_MAX then r.dialInShots + 1 else r.dialInShots;
    var middle := MiddleMs(w);
    var fromMiddle := if level.ms > middle then level.ms - middle else middle - level.ms;
    var settled := shots >= HINT_DIAL_IN_SHOTS ||
                   (|r.shots| - r.segmentStart >= 3 && fromMiddle <= BandHalfMs(HalfMs(w), r.sigmaMs));
    r.(dialInShots := shots, dialIn := r.dialIn && !settled)
  }

  datatype Hint = Hint(
    state: HintState, direction: HintDirection, tier: nat, bin: nat, n: nat, atLeast: bool,
    offsetMs: int, bandMs: int, segmentStartId: u32)

  const EMPTY_HINT := Hint(NoHint, NoDirection, TIER_NONE, BIN_NONE, 0, false, 0, 0, 0)

  function Max(a: nat, b: nat): nat {
    if a < b then b else a
  }

  // What is shown after an evaluation.
  function Shown(r: Replay, w: StatsScope, level: Level, d: Decision, checking: bool): Hint
    requires r.segmentStart <= |r.shots|
  {
    if r.epochStart == NO_SHOT then EMPTY_HINT
    else
      var base := Hint(NoHint, NoDirection, TIER_NONE, BIN_NONE, level.n, level.atLeast, level.ms - MiddleMs(w),
                       BandHalfMs(HalfMs(w), r.sigmaMs), r.segmentStartId);
      if r.hint != NoDirection then
        base.(state := if checking then CHECKING else if r.dialIn then DIAL_IN else MAINTENANCE,
              direction := r.hint,
              tier := if d.direction != r.hint then TENTATIVE
                      else Max(d.tier, Max(TENTATIVE, if level.n >= 3 then TierOf(d.z) else TIER_NONE)),
              bin := d.bin)
      else if HintVaries(r.sigmaLongMs, HalfMs(w)) && |r.shots| - r.segmentStart >= HINT_VARY_SHOTS
      then base.(state := VARY)
      else base
  }

  datatype Evaluated = Evaluated(replay: Replay, announcement: Announcement, shown: Hint)

  function Evaluate(r: Replay, w: StatsScope, id: u32): Evaluated
    requires r.segmentStart < |r.shots| && r.sigmaMs >= HINT_SIGMA_FLOOR_MS
  {
    var pushed := |r.shots|;
    var level := LevelOf(r.shots, r.segmentStart, pushed, NO_SHOT);
    var lastThree := if pushed - r.segmentStart >= 3 then LevelOf(r.shots, pushed - 3, pushed, NO_SHOT).ms else 0;
    var d := Decide(r, w, level, lastThree);
    var checking := r.hint != NoDirection && r.movedPermille >= R_MOVED;
    var standing := Standing(r, d);
    var a := AnnouncementOf(standing, d);
    var announced := Announce(standing, d, a, id);
    Evaluated(SettleDialIn(announced, w, level), a, Shown(announced, w, level, d, checking))
  }

  // ----- one shot -----

  // The shot opens the replay, or is the first since the epoch.
  predicate OpensEpoch(r: Replay, record: ArrivalRecord, w: StatsScope) {
    r.shots == [] || (record.recordId >= w.epoch && At(r.shots, |r.shots| - 1).id < w.epoch)
  }

  // Segment bookkeeping before the shot is stored.
  function Prepare(r: Replay, record: ArrivalRecord, w: StatsScope): Replay
    requires r.sigmaMs >= HINT_SIGMA_FLOOR_MS
  {
    var still := r.(movedPermille := 0);
    if OpensEpoch(r, record, w) then
      StartSegment(still.(epochStart := if record.recordId >= w.epoch then |r.shots| else r.epochStart), |r.shots|)
        .(dialIn := true, dialInShots := 0)
    else DetectChange(still, HintArrivalMs(record))
  }

  function Store(r: Replay, record: ArrivalRecord): Replay {
    var arrival := HintArrivalMs(record);
    r.(shots := r.shots + [Shot(record.recordId, r.segmentStart,
                                if CensoredArrival(record) then arrival + HINT_CENSORED_KEY else arrival,
                                ClampedArrival(record))])
  }

  // When at least three shots after an announcement point the other way with
  // confidence, they become a segment of their own.
  function Reverse(r: Replay, w: StatsScope): Replay
    requires r.sigmaMs >= HINT_SIGMA_FLOOR_MS && r.candidate <= |r.shots|
  {
    if r.advised == NoDirection || r.candidate < 0 || |r.shots| - r.candidate < 3 ||
       r.candidate + RING < |r.shots| then r
    else
      var post := Decide(r, w, LevelOf(r.shots, r.candidate, |r.shots|, NO_SHOT), 0);
      if post.direction != r.advised && post.z >= Z_CONFIDENT then StartSegment(r, r.candidate) else r
  }
}
