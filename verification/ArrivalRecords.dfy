// Shot-log rows as the statistics and the grind hint see them, and which of
// them count.
module ArrivalRecords {
  import opened Bytes

  const STATS_GOAL_TOLERANCE_DG: int := 10
  const ARRIVAL_CLAMP_MS: int := 5000

  const ACTIVATOR: u8 := 1
  const SCALE_THRESHOLD: u8 := 3
  const GLOBAL_LIMIT: u8 := 5
  const CONFIGURED_WALL_LIMIT: u8 := 6
  const WEB_STOP: u8 := 9
  const PHYSICAL_OVERRIDE: u8 := 10
  const FAST_EXTRACTION_MAX_WEIGHT: u8 := 13
  const SLOW_EXTRACTION_MAX_TIME: u8 := 15
  const SLOW_EXTRACTION_MIN_WEIGHT: u8 := 16

  const UNCLASSIFIED: int := 3

  datatype ArrivalRecord = ArrivalRecord(
    recordId: u32, presetId: u8, endReason: u8, verdict: u8, arrivalMs: int,
    fastBeforeMs: int, slowAfterMs: int, goalDg: int, durationMs: int, finalWeightDg: int)

  datatype StatsScope = StatsScope(presetId: u8, epoch: u32, fastBeforeMs: int, slowAfterMs: int, goalDg: int)

  // A verdict, its channeling mark and its blind mark share one byte.
  function VerdictOf(packed: u8): int {
    packed % 4
  }

  predicate ChannelingOf(packed: u8) {
    (packed / 4) % 2 == 1
  }

  predicate BlindOf(packed: u8) {
    (packed / 32) % 2 == 1
  }

  // Bits 0 and 1 are the verdict, bit 2 is channeling, bit 5 is blind.
  lemma PackedVerdict(verdict: nat, channeling: bool, middle: nat, blind: bool, high: nat)
    requires verdict < 4 && middle < 4 && high < 4
    ensures var packed := verdict + (if channeling then 4 else 0) + 8 * middle + (if blind then 32 else 0) + 64 * high;
            VerdictOf(packed) == verdict && (ChannelingOf(packed) <==> channeling) && (BlindOf(packed) <==> blind)
  {
  }

  predicate WeightCutReason(reason: u8) {
    reason == SCALE_THRESHOLD || reason == FAST_EXTRACTION_MAX_WEIGHT || reason == SLOW_EXTRACTION_MIN_WEIGHT
  }

  // A slow shot cut short: slow evidence only.
  predicate CensoredArrival(r: ArrivalRecord) {
    && (r.endReason == CONFIGURED_WALL_LIMIT || r.endReason == GLOBAL_LIMIT ||
        r.endReason == SLOW_EXTRACTION_MAX_TIME || r.endReason == ACTIVATOR ||
        r.endReason == WEB_STOP || r.endReason == PHYSICAL_OVERRIDE)
    && r.durationMs > r.slowAfterMs && r.finalWeightDg * 10 >= r.goalDg && r.finalWeightDg < r.goalDg
  }

  function HintArrivalMs(r: ArrivalRecord): int {
    if CensoredArrival(r) && r.durationMs > r.arrivalMs then r.durationMs else r.arrivalMs
  }

  predicate ClampedArrival(r: ArrivalRecord) {
    && r.durationMs > 0 && r.arrivalMs > 0
    && (r.arrivalMs - r.durationMs >= ARRIVAL_CLAMP_MS - 100 || r.durationMs - r.arrivalMs >= ARRIVAL_CLAMP_MS - 100)
  }

  predicate HintAdmissible(r: ArrivalRecord, s: StatsScope) {
    && r.presetId == s.presetId && r.fastBeforeMs == s.fastBeforeMs && r.slowAfterMs == s.slowAfterMs
    && r.goalDg - s.goalDg <= STATS_GOAL_TOLERANCE_DG && s.goalDg - r.goalDg <= STATS_GOAL_TOLERANCE_DG
    && !ChannelingOf(r.verdict) && !BlindOf(r.verdict)
    && (CensoredArrival(r) ||
        (WeightCutReason(r.endReason) && VerdictOf(r.verdict) != UNCLASSIFIED && r.arrivalMs > 0))
  }

  predicate AdmissibleArrival(r: ArrivalRecord, s: StatsScope) {
    r.recordId >= s.epoch && WeightCutReason(r.endReason) && HintAdmissible(r, s)
  }

  // What the statistics count: shots of this preset, window and goal since the
  // epoch that were cut by weight, none of them cut short.
  lemma AdmissionMeans(r: ArrivalRecord, s: StatsScope)
    ensures AdmissibleArrival(r, s) <==>
      && HintAdmissible(r, s) && !CensoredArrival(r) && r.recordId >= s.epoch
    ensures HintAdmissible(r, s) ==>
      && r.presetId == s.presetId && r.fastBeforeMs == s.fastBeforeMs && r.slowAfterMs == s.slowAfterMs
      && -10 <= r.goalDg - s.goalDg <= 10 && (CensoredArrival(r) || r.arrivalMs > 0)
  {
  }

  // A shot cut short is evidence of slow shots only, and never counts as faster
  // than it arrived.
  lemma CutShortCountsAsSlow(r: ArrivalRecord)
    ensures HintArrivalMs(r) >= r.arrivalMs
    ensures if CensoredArrival(r) then HintArrivalMs(r) > r.slowAfterMs else HintArrivalMs(r) == r.arrivalMs
  {
  }
}
