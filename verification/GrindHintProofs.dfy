// What every stream of shots keeps in the replay, and what a segment's advice
// can be over a whole stream.
module GrindHintProofs {
  import opened Bytes
  import opened ArrivalRecords
  import opened GrindHint

  // Labels of the shots in the ring form contiguous runs: each shot belongs to
  // the segment of the one before it or starts its own.
  ghost predicate Contiguous(shots: seq<Shot>) {
    && (forall k :: InRing(|shots|, k) ==> shots[k].segment <= k)
    && (forall k :: InRing(|shots|, k) && InRing(|shots|, k - 1) ==>
          shots[k].segment == shots[k - 1].segment || shots[k].segment == k)
  }

  ghost predicate Labelled(r: Replay) {
    && Contiguous(r.shots)
    && (r.shots != [] && r.segmentStart <= |r.shots| - 1 ==> r.shots[|r.shots| - 1].segment == r.segmentStart)
  }

  ghost predicate Advice(r: Replay) {
    && (r.hint == NoDirection || r.hint == r.advised)
    && (r.advised != NoDirection <==> r.candidate != NO_SHOT)
    && (r.candidate != NO_SHOT ==> r.segmentStart < r.candidate <= |r.shots|)
    && r.repeats <= 1
  }

  // Between two shots.
  ghost predicate Inv(r: Replay) {
    && Labelled(r) && Advice(r) && r.sigmaMs >= HINT_SIGMA_FLOOR_MS
    && (r.shots != [] ==> r.segmentStart < |r.shots|)
    && (r.armedPending || r.unarmedSide != 0 ==> r.shots != [] && r.segmentStart < |r.shots| - 1)
  }

  // ----- starting a segment -----

  lemma RelabelKeepsContiguous(shots: seq<Shot>, first: nat)
    requires Contiguous(shots) && first <= |shots|
    ensures Contiguous(Relabelled(shots, first))
    ensures first < |shots| ==> Relabelled(shots, first)[|shots| - 1].segment == first
  {
  }

  // A segment started inside the stream starts after the old one and ends the
  // advice of the old one.
  ghost predicate Restarted(r: Replay, s: Replay) {
    && s.segmentStart > r.segmentStart && s.advised == NoDirection && s.repeats == 0
  }

  ghost predicate SameSegment(r: Replay, s: Replay) {
    s.segmentStart == r.segmentStart && s.advised == r.advised && s.repeats == r.repeats && s.candidate == r.candidate
  }

  // State while a shot is being pushed: it may start at the next shot.
  ghost predicate Prepared(r: Replay) {
    && Labelled(r) && Advice(r) && r.sigmaMs >= HINT_SIGMA_FLOOR_MS && r.segmentStart <= |r.shots|
    && (r.armedPending || r.unarmedSide != 0 ==> r.segmentStart < |r.shots|)
  }

  lemma StartKeeps(r: Replay, first: nat)
    requires Labelled(r) && r.sigmaMs >= HINT_SIGMA_FLOOR_MS && first <= |r.shots|
    ensures Prepared(StartSegment(r, first))
    ensures StartSegment(r, first).advised == NoDirection && StartSegment(r, first).repeats == 0
    ensures first > r.segmentStart ==> Restarted(r, StartSegment(r, first))
  {
    RelabelKeepsContiguous(r.shots, first);
  }

  // ----- change points -----

  lemma UnarmedKeeps(r: Replay, level: Level, residual: int)
    requires Labelled(r) && Advice(r) && r.sigmaMs >= HINT_SIGMA_FLOOR_MS
    requires r.shots != [] && r.segmentStart < |r.shots|
    requires r.unarmedSide != 0 ==> r.segmentStart < |r.shots| - 1
    ensures var s := DetectUnarmed(r, level, residual);
            Prepared(s) && s.shots != [] && |s.shots| == |r.shots| && (SameSegment(r, s) || Restarted(r, s))
  {
    hide Labelled, UnarmedSide;
    LabelsOnly(r, r.(unarmedSide := UnarmedSide(level, residual)));
    StartKeeps(r, |r.shots| - 1);
    SegmentSize(r, |r.shots| - 1);
  }

  // After the armed rules, the unarmed ones.
  lemma ArmedKeeps(r: Replay, s: Replay, level: Level, residual: int)
    requires Inv(r) && r.shots != [] && SameSegment(r, s) && s.shots == r.shots && s.hint == r.hint
    requires s.sigmaMs == r.sigmaMs && s.unarmedSide == r.unarmedSide
    ensures var u := DetectUnarmed(s, level, residual);
            Prepared(u) && |u.shots| == |r.shots| && (SameSegment(r, u) || Restarted(r, u))
  {
    hide Labelled, DetectUnarmed;
    LabelsOnly(r, s);
    UnarmedKeeps(s, level, residual);
  }

  lemma RestartKeeps(r: Replay, s: Replay, first: nat)
    requires Inv(r) && r.shots != [] && SameSegment(r, s) && s.shots == r.shots && s.sigmaMs == r.sigmaMs
    requires r.segmentStart < first <= |r.shots|
    ensures var u := StartSegment(s, first);
            Prepared(u) && |u.shots| == |r.shots| && Restarted(r, u)
  {
    hide Labelled, StartSegment;
    LabelsOnly(r, s);
    StartKeeps(s, first);
    SegmentSize(s, first);
  }

  lemma DetectWithKeeps(r: Replay, level: Level, residual: int)
    requires Inv(r) && r.shots != []
    ensures var s := DetectWith(r, level, residual);
            Prepared(s) && |s.shots| == |r.shots| && (SameSegment(r, s) || Restarted(r, s))
  {
    hide Labelled, DetectUnarmed, AdvisedSide, StartSegment, Advice, Prepared, Restarted, StillArmed;
    var k := |r.shots|;
    var advisedR := AdvisedSide(r.advised, residual);
    var seen := if r.hint != NoDirection then r.(movedPermille := advisedR) else r;
    var pending := advisedR >= R_MOVED;
    var armed := seen.(armedPending := pending, armedLeft := StillArmed(r.armedLeft, pending));
    RestartKeeps(r, seen, k);
    if r.armedPending {
      RestartKeeps(r, seen, k - 1);
    }
    ArmedKeeps(r, seen, level, residual);
    ArmedKeeps(r, armed, level, residual);
  }

  lemma DetectKeeps(r: Replay, arrivalMs: int)
    requires Inv(r) && r.shots != []
    ensures var s := DetectChange(r, arrivalMs);
            Prepared(s) && |s.shots| == |r.shots| && (SameSegment(r, s) || Restarted(r, s))
  {
    hide Labelled, DetectWith, LevelOf, Residual, Advice, Prepared, Restarted;
    var k := |r.shots|;
    var level := LevelOf(r.shots, r.segmentStart, k, if r.armedPending || r.unarmedSide != 0 then k - 1 else NO_SHOT);
    StillPrepared(r);
    if level.n > 0 {
      DetectWithKeeps(r, level, Residual(r.sigmaMs, arrivalMs, level));
    }
  }

  lemma StillPrepared(r: Replay)
    requires Inv(r) && r.shots != []
    ensures Prepared(r)
  {
  }

  lemma LabelsOnly(r: Replay, s: Replay)
    requires Labelled(r) && s.shots == r.shots && s.segmentStart == r.segmentStart
    ensures Labelled(s)
  {
  }

  lemma SegmentSize(r: Replay, first: nat)
    ensures |StartSegment(r, first).shots| == |r.shots|
  {
  }

  // ----- the steps of a push -----

  lemma PrepareKeeps(r: Replay, record: ArrivalRecord, w: StatsScope)
    requires Inv(r)
    ensures var s := Prepare(r, record, w);
            && Prepared(s) && |s.shots| == |r.shots|
            && (if r.shots == [] then s.advised == NoDirection && s.repeats == 0
                else SameSegment(r, s) || Restarted(r, s))
  {
    hide Labelled, DetectChange, StartSegment, HintArrivalMs;
    var still := r.(movedPermille := 0);
    LabelsOnly(r, still);
    if OpensEpoch(r, record, w) {
      var begun := still.(epochStart := if record.recordId >= w.epoch then |r.shots| else r.epochStart);
      LabelsOnly(r, begun);
      SegmentSize(begun, |r.shots|);
      StartKeeps(begun, |r.shots|);
      var started := StartSegment(begun, |r.shots|);
      LabelsOnly(started, started.(dialIn := true, dialInShots := 0));
    } else {
      DetectKeeps(still, HintArrivalMs(record));
    }
  }

  lemma StoreKeeps(r: Replay, record: ArrivalRecord)
    requires Prepared(r)
    ensures var s := Store(r, record);
            && Labelled(s) && Advice(s) && s.sigmaMs >= HINT_SIGMA_FLOOR_MS
            && s.segmentStart < |s.shots| == |r.shots| + 1
            && (s.armedPending || s.unarmedSide != 0 ==> s.segmentStart < |s.shots| - 1)
            && SameSegment(r, s)
  {
    hide CensoredArrival, HintArrivalMs, ClampedArrival;
    var s := Store(r, record);
    var last := |r.shots|;
    assert s.shots[last].segment == r.segmentStart;
    forall k | InRing(|s.shots|, k) && InRing(|s.shots|, k - 1)
      ensures s.shots[k].segment == s.shots[k - 1].segment || s.shots[k].segment == k
    {
      if k < last {
        assert InRing(|r.shots|, k) && InRing(|r.shots|, k - 1);
      }
    }
    forall k | InRing(|s.shots|, k)
      ensures s.shots[k].segment <= k
    {
      if k < last {
        assert InRing(|r.shots|, k);
      }
    }
  }

  lemma SigmaKeeps(r: Replay)
    requires Inv(r) && r.shots != []
    ensures Inv(UpdateSigma(r)) && SameSegment(r, UpdateSigma(r)) && UpdateSigma(r).shots == r.shots
  {
    hide Labelled, SegmentSpread, RecentSigma, DifferenceSigmaMs;
    LabelsOnly(r, UpdateSigma(r));
  }

  lemma ReverseKeeps(r: Replay, w: StatsScope)
    requires Inv(r) && r.shots != []
    ensures var s := Reverse(r, w);
            Inv(s) && |s.shots| == |r.shots| && (SameSegment(r, s) || Restarted(r, s))
  {
    hide Labelled, Decide, LevelOf, StartSegment;
    if r.candidate != NO_SHOT && |r.shots| - r.candidate >= 3 {
      StartKeeps(r, r.candidate);
      SegmentSize(r, r.candidate);
      CandidateKeeps(r);
    }
  }

  lemma CandidateKeeps(r: Replay)
    requires Inv(r) && r.shots != [] && 0 <= r.candidate < |r.shots| && r.segmentStart < r.candidate
    ensures Inv(StartSegment(r, r.candidate))
  {
    RelabelKeepsContiguous(r.shots, r.candidate);
  }

  // ----- evaluation -----

  // An announcement gives the segment's one direction, and repeats it once.
  lemma AnnounceKeeps(r: Replay, d: Decision, id: u32)
    requires Inv(r) && r.shots != []
    requires d.tier != TIER_NONE ==> d.direction != NoDirection
    requires d.tier != TIER_NONE && r.advised != NoDirection ==> d.direction == r.advised
    ensures var a := AnnouncementOf(r, d); var s := Announce(r, d, a, id);
            && Inv(s) && s.segmentStart == r.segmentStart && s.shots == r.shots
            && (r.advised != NoDirection ==> s.advised == r.advised)
            && (a != Quiet ==> s.advised != NoDirection && s.hint == s.advised)
            && s.repeats == r.repeats + (if a == Repeated then 1 else 0)
  {
    hide Labelled;
    LabelsOnly(r, Announce(r, d, AnnouncementOf(r, d), id));
  }

  lemma StandingKeeps(r: Replay, d: Decision)
    requires Inv(r)
    ensures Inv(Standing(r, d)) && SameSegment(r, Standing(r, d)) && Standing(r, d).shots == r.shots
  {
    hide Labelled;
    LabelsOnly(r, Standing(r, d));
  }

  lemma SettleKeeps(r: Replay, w: StatsScope, level: Level)
    requires Inv(r) && r.shots != []
    ensures var s := SettleDialIn(r, w, level);
            Inv(s) && SameSegment(r, s) && s.shots == r.shots
  {
    hide Labelled, BandHalfMs, MiddleMs, HalfMs;
    LabelsOnly(r, SettleDialIn(r, w, level));
  }

  // A change of the announced direction needs a new segment.
  ghost predicate Transition(r: Replay, s: Replay, a: Announcement) {
    && (r.advised != NoDirection ==> s.advised == r.advised)
    && (a != Quiet ==> s.advised != NoDirection)
    && s.repeats == r.repeats + (if a == Repeated then 1 else 0)
  }

  lemma EvaluateKeeps(r: Replay, w: StatsScope, id: u32)
    requires Inv(r) && r.shots != []
    ensures var e := Evaluate(r, w, id);
            Inv(e.replay) && e.replay.shots == r.shots && e.replay.segmentStart == r.segmentStart
            && Transition(r, e.replay, e.announcement)
  {
    hide Labelled, Decide, LevelOf, Shown, Announce, AnnouncementOf, Standing, SettleDialIn;
    var pushed := |r.shots|;
    var level := LevelOf(r.shots, r.segmentStart, pushed, NO_SHOT);
    var lastThree := if pushed - r.segmentStart >= 3 then LevelOf(r.shots, pushed - 3, pushed, NO_SHOT).ms else 0;
    var d := Decide(r, w, level, lastThree);
    StandingKeeps(r, d);
    var standing := Standing(r, d);
    AnnounceKeeps(standing, d, id);
    SettleKeeps(Announce(standing, d, AnnouncementOf(standing, d), id), w, level);
  }

  // What is shown is the segment's advice or nothing.
  lemma ShownIsAdvised(r: Replay, w: StatsScope, id: u32)
    requires Inv(r) && r.shots != []
    ensures var e := Evaluate(r, w, id);
            e.shown.direction == NoDirection || e.shown.direction == e.replay.advised
  {
    hide Labelled, Decide, LevelOf, BandHalfMs, HintVaries, TierOf;
    EvaluateKeeps(r, w, id);
  }

  // ----- one push -----

  function Push(r: Replay, record: ArrivalRecord, w: StatsScope): (e: Evaluated)
    requires Inv(r)
    ensures Inv(e.replay) && e.replay.shots != []
  {
    PushSteps(r, record, w);
    Evaluate(Reverse(UpdateSigma(Store(Prepare(r, record, w), record)), w), w, record.recordId)
  }

  lemma PushSteps(r: Replay, record: ArrivalRecord, w: StatsScope)
    requires Inv(r)
    ensures var stored := Store(Prepare(r, record, w), record);
            && Inv(stored) && stored.shots != []
            && var u := UpdateSigma(stored);
               && Inv(u) && u.shots != []
               && var v := Reverse(u, w);
                  Inv(v) && v.shots != [] && v.segmentStart < |v.shots|
                  && Inv(Evaluate(v, w, record.recordId).replay)
                  && Evaluate(v, w, record.recordId).replay.shots != []
  {
    hide Labelled, Prepare, Store, UpdateSigma, Reverse, Evaluate;
    PrepareKeeps(r, record, w);
    StoreKeeps(Prepare(r, record, w), record);
    SigmaKeeps(Store(Prepare(r, record, w), record));
    ReverseKeeps(UpdateSigma(Store(Prepare(r, record, w), record)), w);
    EvaluateKeeps(Reverse(UpdateSigma(Store(Prepare(r, record, w), record)), w), w, record.recordId);
  }

  // A push stays in its segment, keeping its advice and counting its repeats,
  // or starts a later one with a clean slate.
  lemma PushStaysOrRestarts(r: Replay, record: ArrivalRecord, w: StatsScope)
    requires Inv(r)
    ensures var e := Push(r, record, w); var s := e.replay;
            && |s.shots| == |r.shots| + 1
            && AnnouncesAdvice(e.announcement, s)
            && (if s.segmentStart == r.segmentStart && r.shots != [] then Transition(r, s, e.announcement)
                else && (r.shots != [] ==> s.segmentStart > r.segmentStart)
                     && s.repeats == (if e.announcement == Repeated then 1 else 0))
  {
    hide Labelled, Prepare, Store, UpdateSigma, Reverse, Evaluate;
    var prepared := Prepare(r, record, w);
    PrepareKeeps(r, record, w);
    StoreKeeps(prepared, record);
    var stored := Store(prepared, record);
    SigmaKeeps(stored);
    ReverseKeeps(UpdateSigma(stored), w);
    EvaluateKeeps(Reverse(UpdateSigma(stored), w), w, record.recordId);
  }

  ghost predicate AnnouncesAdvice(a: Announcement, s: Replay) {
    a != Quiet ==> s.advised != NoDirection
  }

  // ----- whole streams -----

  lemma FreshInv()
    ensures Inv(FRESH)
  {
  }

  // The replay after a stream of shots.
  function ReplayFrom(r: Replay, records: seq<ArrivalRecord>, w: StatsScope): (s: Replay)
    requires Inv(r)
    ensures Inv(s)
    decreases |records|
  {
    if records == [] then r else ReplayFrom(Push(r, records[0], w).replay, records[1..], w)
  }

  datatype Advised = Advised(direction: HintDirection, announcement: Announcement)

  // What was announced while the stream was in the segment that started at
  // shot `segment`.
  function AdviceIn(r: Replay, records: seq<ArrivalRecord>, w: StatsScope, segment: nat): seq<Advised>
    requires Inv(r)
    decreases |records|
  {
    if records == [] then []
    else
      var e := Push(r, records[0], w);
      var rest := AdviceIn(e.replay, records[1..], w, segment);
      if e.replay.segmentStart == segment && e.announcement != Quiet
      then [Advised(e.replay.advised, e.announcement)] + rest else rest
  }

  function Repeats(advice: seq<Advised>): nat {
    if advice == [] then 0 else (if advice[0].announcement == Repeated then 1 else 0) + Repeats(advice[1..])
  }

  predicate InSegment(r: Replay, segment: nat) {
    r.shots != [] && r.segmentStart == segment
  }

  predicate PastSegment(r: Replay, segment: nat) {
    r.shots != [] && r.segmentStart > segment
  }

  ghost predicate OneDirection(advice: seq<Advised>) {
    forall i, j :: 0 <= i < |advice| && 0 <= j < |advice| ==> advice[i].direction == advice[j].direction
  }

  ghost predicate AllToward(advice: seq<Advised>, direction: HintDirection) {
    forall i :: 0 <= i < |advice| ==> advice[i].direction == direction
  }

  lemma {:induction false} SegmentAdvice(r: Replay, records: seq<ArrivalRecord>, w: StatsScope, segment: nat)
    requires Inv(r)
    ensures var advice := AdviceIn(r, records, w, segment);
            && OneDirection(advice)
            && (PastSegment(r, segment) ==> advice == [])
            && (InSegment(r, segment) && r.advised != NoDirection ==> AllToward(advice, r.advised))
            && Repeats(advice) + (if InSegment(r, segment) then r.repeats else 0) <= 1
    decreases |records|
  {
    hide Push, Labelled;
    if records != [] {
      var e := Push(r, records[0], w);
      PushStaysOrRestarts(r, records[0], w);
      SegmentAdvice(e.replay, records[1..], w, segment);
      var rest := AdviceIn(e.replay, records[1..], w, segment);
      if e.replay.segmentStart == segment && e.announcement != Quiet {
        assert ([Advised(e.replay.advised, e.announcement)] + rest)[1..] == rest;
      }
    }
  }

  // Within one segment every announcement gives the same direction, and at most
  // one of them is a repeat.
  lemma OneAdvicePerSegment(records: seq<ArrivalRecord>, w: StatsScope, segment: nat)
    ensures Inv(FRESH)
    ensures OneDirection(AdviceIn(FRESH, records, w, segment)) && Repeats(AdviceIn(FRESH, records, w, segment)) <= 1
  {
    FreshInv();
    SegmentAdvice(FRESH, records, w, segment);
  }

  // After every stream the labels in the ring are contiguous runs, the spread
  // is at least one second, and what is shown agrees with what was announced.
  lemma StreamKeepsReplay(records: seq<ArrivalRecord>, w: StatsScope)
    ensures Inv(FRESH)
    ensures var r := ReplayFrom(FRESH, records, w);
            Contiguous(r.shots) && r.sigmaMs >= HINT_SIGMA_FLOOR_MS && r.repeats <= 1
            && (r.hint == NoDirection || r.hint == r.advised)
  {
    FreshInv();
  }
}
