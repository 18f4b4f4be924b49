// The replay as it runs: sixteen shots in a ring and the fields of the hint's
// lifecycle, updated in place.
module GrindHintReplay {
  import opened Bytes
  import opened CorridorSort
  import opened ArrivalRecords
  import opened GrindHint
  import opened GrindHintProofs

  class GrindHintReplay {
    const scope: StatsScope
    const ring: array<Shot>
    ghost var all: seq<Shot>
    var pushed: nat
    var segmentStart: nat
    var segmentStartId: u32
    var epochStart: int
    var candidate: int
    var announceId: u32
    var sigmaLongMs: int
    var sigmaMs: int
    var movedPermille: int
    var sigmaSeeded: bool
    var segmentCounted: bool
    var dialIn: bool
    var armedPending: bool
    var unarmedSide: int
    var dialInShots: nat
    var armedLeft: nat
    var sinceAnnounce: nat
    var repeats: nat
    var hint: HintDirection
    var advised: HintDirection
    var announcedTier: nat
    var announcedBin: nat
    var shown: Hint

    // The ring's cells hold the newest shots of the whole stream.
    ghost predicate Sound()
      reads this`pushed, this`all, ring
      ensures Sound() ==> |all| == pushed
    {
      && ring.Length == RING && |all| == pushed
      && forall k :: InRing(pushed, k) ==> ring[k % RING] == all[k]
    }

    ghost function View(): Replay
      reads this
    {
      Replay(all, segmentStart, segmentStartId, epochStart, candidate, announceId, sigmaLongMs, sigmaMs,
             movedPermille, sigmaSeeded, segmentCounted, dialIn, armedPending, unarmedSide, dialInShots, armedLeft,
             sinceAnnounce, repeats, hint, advised, announcedTier, announcedBin)
    }

    constructor (scope: StatsScope)
      ensures Sound() && fresh(ring) && this.scope == scope && View() == FRESH && shown == EMPTY_HINT
    {
      this.scope := scope;
      var cells := new Shot[RING](i => Shot(0, 0, 0, false));
      ring := cells;
      all := [];
      pushed, segmentStart, segmentStartId, epochStart, candidate, announceId := 0, 0, 0, NO_SHOT, NO_SHOT, 0;
      sigmaLongMs, sigmaMs, movedPermille := HINT_SIGMA_PRIOR_MS, HINT_SIGMA_PRIOR_MS, 0;
      sigmaSeeded, segmentCounted, dialIn, armedPending := false, false, true, false;
      unarmedSide, dialInShots, armedLeft, sinceAnnounce, repeats := 0, 0, 0, 0, 0;
      hint, advised, announcedTier, announcedBin := NoDirection, NoDirection, TIER_NONE, BIN_NONE;
      shown := EMPTY_HINT;
    }

    method ShotAt(k: int) returns (s: Shot)
      requires Sound() && InRing(pushed, k)
      ensures s == At(all, k)
    {
      s := ring[k % RING];
    }

    // ----- levels -----

    method GatherLevel(from: nat, end: nat, skip: int) returns (l: seq<Shot>)
      requires Sound() && end <= pushed
      ensures l == LevelShots(all, from, end, skip, HINT_LEVEL_SHOTS)
    {
      hide LevelShots, Sound;
      l := [];
      var k := end;
      while k > from && k - 1 + RING >= pushed && |l| < HINT_LEVEL_SHOTS
        invariant 0 <= k <= end && |l| <= HINT_LEVEL_SHOTS
        invariant LevelShots(all, from, end, skip, HINT_LEVEL_SHOTS)
               == l + LevelShots(all, from, k, skip, HINT_LEVEL_SHOTS - |l|)
      {
        NextLevelShot(all, from, k, skip, HINT_LEVEL_SHOTS - |l|);
        k := k - 1;
        if k != skip {
          var s := ShotAt(k);
          l := l + [s];
        }
      }
      NoLevelShot(all, from, k, skip, HINT_LEVEL_SHOTS - |l|);
    }

    method ReadLevel(from: nat, end: nat, skip: int) returns (level: Level)
      requires Sound() && end <= pushed
      ensures level == LevelOf(all, from, end, skip)
    {
      hide LevelShots, Sorted, SumOfLevels;
      var l := GatherLevel(from, end, skip);
      var keys := new int[|l|];
      var censored, atLeast := 0, false;
      for i := 0 to |l|
        invariant forall j :: 0 <= j < i ==> keys[j] == l[j].key
        invariant censored == CountCensored(l[..i])
        invariant atLeast <==> exists j :: 0 <= j < i && (l[j].clamped || Censored(l[j]))
      {
        keys[i] := l[i].key;
        assert l[..i + 1][..i] == l[..i];
        if Censored(l[i]) {
          censored := censored + 1;
        }
        atLeast := atLeast || l[i].clamped || Censored(l[i]);
      }
      assert l[..|l|] == l;
      assert keys[..] == Keys(l);
      var ms := 0;
      if |l| > 0 {
        ms := TrimmedLevel(keys, Keys(l));
      }
      level := Level(|l|, censored, atLeast, ms);
    }

    static method TrimmedLevel(keys: array<int>, ghost s: seq<int>) returns (ms: int)
      requires keys[..] == s && keys.Length > 0
      modifies keys
      ensures ms == TrimmedLevelMs(s)
    {
      hide Sorted;
      var n := keys.Length;
      assert keys[..n] == s;
      SortSmall(keys, n);
      var trim := if n > 2 then 1 else 0;
      ghost var kept := keys[trim..n - trim];
      var sum := 0;
      for i := trim to n - trim
        invariant sum == SumOfLevels(kept[..i - trim]) && keys[trim..n - trim] == kept
      {
        assert kept[..i - trim + 1][..i - trim] == kept[..i - trim];
        sum := sum + TruncMod(keys[i], HINT_CENSORED_KEY);
      }
      assert kept[..n - 2 * trim] == kept;
      ms := TruncDiv(sum, n - 2 * trim);
      assert kept == if n > 2 then Sorted(s)[1..n - 1] else Sorted(s);
    }

    // ----- segments and change points -----

    method Relabel(first: nat)
      requires Sound()
      modifies this`all, ring
      ensures Sound() && all == Relabelled(old(all), first)
    {
      var k := if first + RING < pushed then pushed - RING else first;
      while k < pushed
        modifies ring
        invariant k <= pushed || k == first
        invariant forall j :: InRing(pushed, j) ==>
          ring[j % RING] == if first <= j < k then all[j].(segment := first) else all[j]
      {
        ring[k % RING] := ring[k % RING].(segment := first);
        k := k + 1;
      }
      all := Relabelled(all, first);
    }

    method ForgetSegment(first: nat)
      modifies this`segmentStart, this`candidate, this`hint, this`advised, this`segmentCounted,
               this`armedPending, this`unarmedSide, this`armedLeft, this`repeats
      ensures segmentStart == first && candidate == NO_SHOT && hint == advised == NoDirection
      ensures !segmentCounted && !armedPending && unarmedSide == 0 && armedLeft == 0 && repeats == 0
    {
      segmentStart := first;
      candidate := NO_SHOT;
      hint, advised := NoDirection, NoDirection;
      segmentCounted, armedPending := false, false;
      unarmedSide, armedLeft, repeats := 0, 0, 0;
    }

    method StartNewSegment(first: nat)
      requires Sound()
      modifies this`all, this`segmentStart, this`candidate, this`hint, this`advised, this`segmentCounted,
               this`armedPending, this`unarmedSide, this`armedLeft, this`repeats, ring
      ensures Sound() && View() == StartSegment(old(View()), first)
    {
      hide Relabelled, Sound;
      Relabel(first);
      ForgetSegment(first);
    }

    method DetectUnarmedChange(level: Level, residual: int)
      requires Sound() && pushed > 0
      modifies this, ring
      ensures Sound() && pushed == old(pushed) && View() == DetectUnarmed(old(View()), level, residual)
    {
      hide StartSegment;
      var side := UnarmedSide(level, residual);
      if side != 0 && side == unarmedSide {
        StartNewSegment(pushed - 1);
      } else {
        unarmedSide := side;
      }
    }

    method StayArmed(pending: bool)
      modifies this`armedPending, this`armedLeft
      ensures armedPending == pending && armedLeft == StillArmed(old(armedLeft), pending)
    {
      armedPending := pending;
      armedLeft := if armedLeft > 1 then armedLeft - 1 else if armedPending then 1 else 0;
    }

    method DetectFrom(level: Level, residual: int)
      requires Sound() && pushed > 0
      modifies this, ring
      ensures Sound() && pushed == old(pushed) && View() == DetectWith(old(View()), level, residual)
    {
      hide StartSegment, DetectUnarmed, AdvisedSide, Sound;
      var advisedR := AdvisedSide(advised, residual);
      if hint != NoDirection {
        movedPermille := advisedR;
      }
      if armedLeft > 0 || movedPermille >= R_MOVED {
        if armedLeft > 0 && advisedR >= R_SINGLE {
          StartNewSegment(pushed);
          return;
        }
        if armedPending && advisedR >= R_MOVED {
          StartNewSegment(pushed - 1);
          return;
        }
        StayArmed(advisedR >= R_MOVED);
      }
      DetectUnarmedChange(level, residual);
    }

    method DetectChangePoint(arrivalMs: int)
      requires Sound() && pushed > 0 && sigmaMs >= HINT_SIGMA_FLOOR_MS
      modifies this, ring
      ensures Sound() && pushed == old(pushed) && View() == DetectChange(old(View()), arrivalMs)
    {
      hide DetectWith, LevelOf, Residual;
      var level := ReadLevel(segmentStart, pushed, if armedPending || unarmedSide != 0 then pushed - 1 else NO_SHOT);
      if level.n > 0 {
        DetectFrom(level, Residual(sigmaMs, arrivalMs, level));
      }
    }

    // ----- spread -----

    static method DifferenceSigma(differences: seq<int>) returns (sigma: int)
      ensures sigma == DifferenceSigmaMs(differences)
    {
      hide Sorted;
      var n := |differences|;
      var values := new int[n](i requires 0 <= i < n => differences[i]);
      var deviations := new int[n];
      assert values[..n] == differences;
      SortSmall(values, n);
      var median := MedianOfSorted(values[..n]);
      for i := 0 to n
        invariant values[..n] == Sorted(differences)
        invariant forall k :: 0 <= k < i ==> deviations[k] == Deviations(Sorted(differences), median)[k]
      {
        deviations[i] := if values[i] > median then values[i] - median else median - values[i];
      }
      assert deviations[..n] == Deviations(Sorted(differences), median);
      SortSmall(deviations, n);
      var mad := MedianOfSorted(deviations[..n]);
      sigma := TruncDiv(TruncDiv(mad * 1483, 1000) * 7071, 10000);
    }

    method ReadSegmentSpread() returns (counted: nat, differences: seq<int>)
      requires Sound() && segmentStart <= pushed
      ensures Spread(counted, differences) == SegmentSpread(all, segmentStart, Spread(0, []))
    {
      counted, differences := 0, [];
      var k := segmentStart;
      while k < pushed && counted < HINT_SIGMA_SEGMENT_SHOTS
        invariant segmentStart <= k <= pushed && counted <= HINT_SIGMA_SEGMENT_SHOTS
        invariant counted > 0 ==> k > 0 && InRing(pushed, k - 1)
        invariant SegmentSpread(all, k, Spread(counted, differences)) == SegmentSpread(all, segmentStart, Spread(0, []))
      {
        if InRing(pushed, k) {
          var b := ShotAt(k);
          if !Censored(b) {
            if counted > 0 {
              var a := ShotAt(k - 1);
              if !Censored(a) {
                differences := differences + [b.key - a.key];
              }
            }
            counted := counted + 1;
          }
        }
        k := k + 1;
      }
    }

    method ReadRecentDifferences() returns (differences: seq<int>)
      requires Sound()
      ensures differences == RecentDifferences(all, pushed, pushed, [])
    {
      differences := [];
      var k, end := pushed, pushed;
      while k > 1 && k - 1 + HINT_SIGMA_SHOTS > pushed
        invariant 0 <= k <= pushed && end >= 0
        invariant RecentDifferences(all, k, end, differences) == RecentDifferences(all, pushed, pushed, [])
      {
        k := k - 1;
        var a := ShotAt(k - 1);
        var b := ShotAt(k);
        if k + 1 < pushed {
          var next := ShotAt(k + 1);
          if next.segment != b.segment {
            end := k + 1;
          }
        }
        if a.segment == b.segment && end - b.segment >= 3 && !Censored(a) && !Censored(b) {
          differences := differences + [b.key - a.key];
        }
      }
    }

    method SeedSpread()
      requires Sound() && segmentStart <= pushed
      modifies this`sigmaLongMs, this`sigmaSeeded, this`segmentCounted
      ensures Sound() && View() == SeedSigma(old(View()))
    {
      hide SegmentSpread, DifferenceSigmaMs, Sound;
      if !segmentCounted {
        var counted, differences := ReadSegmentSpread();
        if counted == HINT_SIGMA_SEGMENT_SHOTS {
          var segment := DifferenceSigma(differences);
          sigmaLongMs := if sigmaSeeded then TruncDiv(3 * sigmaLongMs + segment, 4) else segment;
          if sigmaLongMs > HINT_SIGMA_CAP_MS {
            sigmaLongMs := HINT_SIGMA_CAP_MS;
          }
          sigmaSeeded, segmentCounted := true, true;
        }
      }
    }

    method RefreshSigma()
      requires Sound() && segmentStart <= pushed
      modifies this`sigmaLongMs, this`sigmaMs, this`sigmaSeeded, this`segmentCounted
      ensures Sound() && View() == UpdateSigma(old(View()))
    {
      hide SegmentSpread, RecentDifferences, DifferenceSigmaMs, SeedSigma, Sound;
      SeedSpread();
      var differences := ReadRecentDifferences();
      var recent := 0;
      if |differences| >= HINT_SIGMA_MIN_DIFFERENCES {
        recent := DifferenceSigma(differences);
      }
      sigmaMs := if sigmaLongMs > HINT_SIGMA_FLOOR_MS then sigmaLongMs else HINT_SIGMA_FLOOR_MS;
      if recent > sigmaMs {
        sigmaMs := recent;
      }
    }

    // ----- decision and lifecycle -----

    method DecideOn(level: Level, lastThreeMs: int) returns (d: Decision)
      requires level.n <= HINT_LEVEL_SHOTS && sigmaMs >= HINT_SIGMA_FLOOR_MS
      ensures d == Decide(View(), scope, level, lastThreeMs)
    {
      d := HintDecision(Evidence(dialIn, level.n, level.censored, level.ms, lastThreeMs, sigmaMs, sigmaLongMs, advised),
                        scope);
    }

    method Stand(d: Decision)
      requires Sound()
      modifies this`hint, this`sinceAnnounce, this`segmentStartId
      ensures Sound() && View() == Standing(old(View()), d)
    {
      if segmentStart < pushed && segmentStart + RING >= pushed {
        var first := ShotAt(segmentStart);
        segmentStartId := first.id;
      }
      var checking := hint != NoDirection && movedPermille >= R_MOVED;
      if hint != NoDirection && !checking && (d.direction != hint || d.z < 0) {
        hint := NoDirection;
      }
      if sinceAnnounce < UINT8_MAX {
        sinceAnnounce := sinceAnnounce + 1;
      }
    }

    method AnnounceOn(d: Decision, id: u32) returns (a: Announcement)
      requires Sound()
      modifies this`repeats, this`announcedTier, this`announcedBin, this`hint, this`advised, this`armedLeft,
               this`armedPending, this`sinceAnnounce, this`candidate, this`announceId
      ensures Sound() && a == AnnouncementOf(old(View()), d) && View() == Announce(old(View()), d, a, id)
    {
      hide At, Sound;
      a := Quiet;
      if d.tier != TIER_NONE && movedPermille < R_MOVED {
        var isFresh := hint == NoDirection;
        var escalated := !isFresh && (d.tier > announcedTier || d.bin > announcedBin);
        var repeated := !isFresh && !escalated && sinceAnnounce >= HINT_REPEAT_SHOTS && d.tier >= LIKELY && repeats == 0;
        if isFresh || escalated || repeated {
          a := if isFresh then Fresh else if escalated then Escalated else Repeated;
          Advise(d, a, id);
        }
      }
    }

    method Advise(d: Decision, a: Announcement, id: u32)
      modifies this`repeats, this`announcedTier, this`announcedBin, this`hint, this`advised, this`armedLeft,
               this`armedPending, this`sinceAnnounce, this`candidate, this`announceId
      ensures repeats == if a == Repeated then old(repeats) + 1 else old(repeats)
      ensures announcedTier == if a == Fresh || d.tier > old(announcedTier) then d.tier else old(announcedTier)
      ensures announcedBin == if a == Fresh || d.bin > old(announcedBin) then d.bin else old(announcedBin)
      ensures hint == advised == d.direction && armedLeft == CP_ARMED_SHOTS && !armedPending && sinceAnnounce == 0
      ensures candidate == pushed && announceId == id
    {
      if a == Repeated {
        repeats := repeats + 1;
      }
      if a == Fresh || d.tier > announcedTier {
        announcedTier := d.tier;
      }
      if a == Fresh || d.bin > announcedBin {
        announcedBin := d.bin;
      }
      hint, advised := d.direction, d.direction;
      armedLeft, armedPending, sinceAnnounce := CP_ARMED_SHOTS, false, 0;
      candidate, announceId := pushed, id;
    }

    method ShowHint(level: Level, d: Decision, checking: bool) returns (h: Hint)
      requires Sound() && segmentStart <= pushed
      ensures h == Shown(View(), scope, level, d, checking)
    {
      hide TierOf, BandHalfMs, HintVaries;
      h := EMPTY_HINT;
      if epochStart != NO_SHOT {
        h := h.(n := level.n, atLeast := level.atLeast, offsetMs := level.ms - MiddleMs(scope),
                bandMs := BandHalfMs(HalfMs(scope), sigmaMs), segmentStartId := segmentStartId);
        if hint != NoDirection {
          h := h.(state := if checking then CHECKING else if dialIn then DIAL_IN else MAINTENANCE,
                  direction := hint, tier := TENTATIVE, bin := d.bin);
          if d.direction == hint {
            if level.n >= 3 && TierOf(d.z) > h.tier {
              h := h.(tier := TierOf(d.z));
            }
            if d.tier > h.tier {
              h := h.(tier := d.tier);
            }
          }
        } else if HintVaries(sigmaLongMs, HalfMs(scope)) && pushed - segmentStart >= HINT_VARY_SHOTS {
          h := h.(state := VARY);
        }
      }
    }

    method SettlePhase(level: Level)
      requires Sound() && segmentStart <= pushed
      modifies this`dialIn, this`dialInShots
      ensures Sound() && View() == SettleDialIn(old(View()), scope, level)
    {
      hide BandHalfMs;
      if dialInShots < UINT8_MAX {
        dialInShots := dialInShots + 1;
      }
      var middle := MiddleMs(scope);
      var fromMiddle := if level.ms > middle then level.ms - middle else middle - level.ms;
      if dialIn && (dialInShots >= HINT_DIAL_IN_SHOTS ||
                    (pushed - segmentStart >= 3 && fromMiddle <= BandHalfMs(HalfMs(scope), sigmaMs))) {
        dialIn := false;
      }
    }

    method ReadLastThree() returns (ms: int)
      requires Sound() && segmentStart <= pushed
      ensures ms == if pushed - segmentStart >= 3 then LevelOf(all, pushed - 3, pushed, NO_SHOT).ms else 0
    {
      hide LevelOf;
      ms := 0;
      if pushed - segmentStart >= 3 {
        var three := ReadLevel(pushed - 3, pushed, NO_SHOT);
        ms := three.ms;
      }
    }

    method ShowDecision(level: Level, d: Decision, id: u32) returns (a: Announcement)
      requires Sound() && segmentStart <= pushed
      modifies this
      ensures Sound() && pushed == old(pushed) && segmentStart == old(segmentStart)
      ensures var standing := Standing(old(View()), d);
              && a == AnnouncementOf(standing, d) && View() == Announce(standing, d, a, id)
              && shown == Shown(View(), scope, level, d, old(hint) != NoDirection && old(movedPermille) >= R_MOVED)
    {
      hide Standing, AnnouncementOf, Announce, Shown, Sound;
      var checking := hint != NoDirection && movedPermille >= R_MOVED;
      Stand(d);
      a := AnnounceOn(d, id);
      shown := ShowHint(level, d, checking);
    }

    method EvaluateShot(id: u32) returns (a: Announcement)
      requires Sound() && segmentStart < pushed && sigmaMs >= HINT_SIGMA_FLOOR_MS
      modifies this
      ensures Sound() && pushed == old(pushed)
      ensures Evaluated(View(), a, shown) == Evaluate(old(View()), scope, id)
    {
      hide LevelOf, Decide, Standing, AnnouncementOf, Announce, Shown, SettleDialIn, Sound;
      var level := ReadLevel(segmentStart, pushed, NO_SHOT);
      var lastThree := ReadLastThree();
      var d := DecideOn(level, lastThree);
      a := ShowDecision(level, d, id);
      SettlePhase(level);
    }

    // ----- one shot -----

    method OpenEpoch(inEpoch: bool)
      requires Sound()
      modifies this, ring
      ensures Sound() && pushed == old(pushed)
      ensures var r := old(View());
              View() == StartSegment(r.(epochStart := if inEpoch then |r.shots| else r.epochStart), |r.shots|)
                          .(dialIn := true, dialInShots := 0)
    {
      hide Relabelled, Sound;
      if inEpoch {
        epochStart := pushed;
      }
      StartNewSegment(pushed);
      dialIn := true;
      dialInShots := 0;
    }

    method PrepareShot(record: ArrivalRecord)
      requires Sound() && sigmaMs >= HINT_SIGMA_FLOOR_MS
      modifies this, ring
      ensures Sound() && pushed == old(pushed) && View() == Prepare(old(View()), record, scope)
    {
      hide StartSegment, DetectChange, HintArrivalMs, Sound;
      movedPermille := 0;
      var opens := pushed == 0;
      if !opens {
        var newest := ShotAt(pushed - 1);
        opens := record.recordId >= scope.epoch && newest.id < scope.epoch;
      }
      if opens {
        OpenEpoch(record.recordId >= scope.epoch);
      } else {
        DetectChangePoint(HintArrivalMs(record));
      }
    }

    method StoreShot(record: ArrivalRecord)
      requires Sound()
      modifies this`pushed, this`all, ring
      ensures Sound() && pushed == old(pushed) + 1 && View() == Store(old(View()), record)
    {
      hide HintArrivalMs, CensoredArrival, ClampedArrival;
      var arrival := HintArrivalMs(record);
      var shot := Shot(record.recordId, segmentStart,
                       if CensoredArrival(record) then arrival + HINT_CENSORED_KEY else arrival,
                       ClampedArrival(record));
      ring[pushed % RING] := shot;
      all := all + [shot];
      pushed := pushed + 1;
    }

    method ReverseIfConfident()
      requires Sound() && sigmaMs >= HINT_SIGMA_FLOOR_MS && candidate <= pushed
      modifies this, ring
      ensures Sound() && pushed == old(pushed) && View() == Reverse(old(View()), scope)
    {
      hide StartSegment, LevelOf, Decide;
      if advised != NoDirection && candidate >= 0 && pushed - candidate >= 3 && candidate + RING >= pushed {
        var level := ReadLevel(candidate, pushed, NO_SHOT);
        var post := DecideOn(level, 0);
        if post.direction != advised && post.z >= Z_CONFIDENT {
          StartNewSegment(candidate);
        }
      }
    }

    method PushShot(record: ArrivalRecord) returns (a: Announcement)
      requires Sound() && Inv(View())
      modifies this, ring
      ensures Sound() && Inv(View())
      ensures Evaluated(View(), a, shown) == Push(old(View()), record, scope)
    {
      hide Prepare, Store, UpdateSigma, Reverse, Evaluate, Labelled;
      PushSteps(View(), record, scope);
      PrepareShot(record);
      StoreShot(record);
      RefreshSigma();
      ReverseIfConfident();
      a := EvaluateShot(record.recordId);
    }
  }

  // The rows that feed the hint: admissible, each newer than the one before.
  function HintRows(rows: seq<ArrivalRecord>, w: StatsScope): (kept: seq<ArrivalRecord>)
    ensures |kept| <= |rows|
  {
    if rows == [] then []
    else
      var before := HintRows(rows[..|rows| - 1], w);
      var r := rows[|rows| - 1];
      if !HintAdmissible(r, w) || (before != [] && r.recordId <= before[|before| - 1].recordId) then before
      else before + [r]
  }

  lemma {:induction false} ReplayExtends(r: Replay, records: seq<ArrivalRecord>, record: ArrivalRecord, w: StatsScope)
    requires Inv(r)
    ensures ReplayFrom(r, records + [record], w) == Push(ReplayFrom(r, records, w), record, w).replay
    decreases |records|
  {
    hide Push, Inv;
    if records == [] {
      assert [record][1..] == [];
      assert [] + [record] == [record];
    } else {
      assert (records + [record])[1..] == records[1..] + [record];
      ReplayExtends(Push(r, records[0], w).replay, records[1..], record, w);
    }
  }

  // The preset's hint from its log, in log order.
  method GrindHintOf(rows: seq<ArrivalRecord>, scope: StatsScope) returns (h: Hint, replay: GrindHintReplay)
    ensures fresh(replay) && replay.Sound() && Inv(FRESH) && h == replay.shown
    ensures replay.View() == ReplayFrom(FRESH, HintRows(rows, scope), scope)
    ensures h.direction == NoDirection || h.direction == replay.advised
  {
    hide HintAdmissible, Push, Inv;
    FreshInv();
    replay := new GrindHintReplay(scope);
    var newest: u32 := 0;
    for i := 0 to |rows|
      invariant replay.Sound() && fresh(replay) && fresh(replay.ring) && replay.scope == scope
      invariant replay.View() == ReplayFrom(FRESH, HintRows(rows[..i], scope), scope)
      invariant var kept := HintRows(rows[..i], scope);
                (replay.pushed > 0 <==> kept != []) && (kept != [] ==> newest == kept[|kept| - 1].recordId)
      invariant replay.shown.direction == NoDirection || replay.shown.direction == replay.advised
    {
      assert rows[..i + 1][..i] == rows[..i];
      var r := rows[i];
      if HintAdmissible(r, scope) && (replay.pushed == 0 || r.recordId > newest) {
        newest := r.recordId;
        ReplayExtends(FRESH, HintRows(rows[..i], scope), r, scope);
        PushShows(replay.View(), r, scope);
        var _ := replay.PushShot(r);
      }
    }
    assert rows[..|rows|] == rows;
    h := replay.shown;
  }

  // What a push shows is the advice of the segment it ends in, or nothing.
  lemma PushShows(r: Replay, record: ArrivalRecord, w: StatsScope)
    requires Inv(r)
    ensures var e := Push(r, record, w);
            && (e.shown.direction == NoDirection || e.shown.direction == e.replay.advised)
            && |e.replay.shots| == |r.shots| + 1
  {
    hide Prepare, Store, UpdateSigma, Reverse, Evaluate, Labelled;
    PushSteps(r, record, w);
    PushStaysOrRestarts(r, record, w);
    ShownIsAdvised(Reverse(UpdateSigma(Store(Prepare(r, record, w), record)), w), w, record.recordId);
  }

  lemma NextLevelShot(shots: seq<Shot>, from: nat, k: nat, skip: int, room: nat)
    requires from < k <= |shots| && InRing(|shots|, k - 1) && room > 0
    ensures LevelShots(shots, from, k, skip, room)
         == if k - 1 == skip then LevelShots(shots, from, k - 1, skip, room)
            else [At(shots, k - 1)] + LevelShots(shots, from, k - 1, skip, room - 1)
  {
  }

  lemma NoLevelShot(shots: seq<Shot>, from: nat, k: nat, skip: int, room: nat)
    requires k <= |shots| && (k <= from || !InRing(|shots|, k - 1) || room == 0)
    ensures LevelShots(shots, from, k, skip, room) == []
  {
  }
}
