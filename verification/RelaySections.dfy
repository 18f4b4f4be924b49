// The relay's shared state and its critical sections. Each section is a
// function of the state; the class performs them in place.
module RelaySections {
  import opened Bytes

  const HARD_MAX_CIRCUIT_CLOSED_MS: u32 := 60000
  const BACKFLUSH_MAX_CIRCUIT_CLOSED_MS: u32 := 180000

  datatype RelaySafetyState = BOOT_SAFE | OPEN | ARMING | CLOSED | TRIPPED | LOCKOUT
  datatype RelaySafetyFault =
    | NONE | INITIALIZATION_FAILED | WATCHDOG_UNAVAILABLE | INVALID_LIMIT | TIMER_ARM_FAILED
    | HARD_LIMIT | OPERATIONAL_LIMIT | TASK_WATCHDOG_FAILURE | GPIO_DESYNC
  datatype RelayPurpose = NORMAL | BACKFLUSH_CANDIDATE | BACKFLUSH_CONFIRMED

  // pinClosed is the level of the output that drives K1.
  datatype Relay = Relay(
    state: RelaySafetyState, fault: RelaySafetyFault, circuitClosed: bool, generation: u32,
    purpose: RelayPurpose, hardLimitMs: u32, operationalLimitMs: u32, closedAtMs: u32,
    hardTripped: bool, operationalTripped: bool, pinClosed: bool)

  const AT_BOOT := Relay(BOOT_SAFE, NONE, false, 0, NORMAL, HARD_MAX_CIRCUIT_CLOSED_MS,
                         HARD_MAX_CIRCUIT_CLOSED_MS, 0, false, false, false)

  // Difference of two millisecond counters that wrap at 2^32.
  function Elapsed(now: u32, since: u32): u32 {
    if now >= since then now - since else now - since + 0x1_0000_0000
  }

  predicate CommandedClosed(r: Relay) {
    r.state == ARMING || r.state == CLOSED
  }

  predicate AnyTrip(r: Relay) {
    r.hardTripped || r.operationalTripped
  }

  // ----- the critical sections -----

  function TripLocked(r: Relay, fault: RelaySafetyFault, hard: bool, operational: bool, lockout: bool): Relay {
    r.(pinClosed := false, circuitClosed := false, generation := Successor(r.generation),
       state := if lockout then LOCKOUT else TRIPPED, fault := fault,
       hardTripped := r.hardTripped || hard, operationalTripped := r.operationalTripped || operational)
  }

  // Deadline interrupt: opens first, then latches exactly one flag.
  function DeadlineIsr(r: Relay): Relay {
    if r.hardLimitMs == 0 || !CommandedClosed(r) then r
    else
      var operational := r.operationalLimitMs < r.hardLimitMs;
      r.(pinClosed := false, circuitClosed := false, generation := Successor(r.generation), state := TRIPPED,
         fault := if operational then OPERATIONAL_LIMIT else HARD_LIMIT,
         hardTripped := !operational, operationalTripped := operational)
  }

  predicate HardTimeout(r: Relay, callbackAtMs: u32) {
    r.hardLimitMs != 0 && CommandedClosed(r) && Elapsed(callbackAtMs, r.closedAtMs) >= r.hardLimitMs
  }

  function HardCallback(r: Relay, callbackAtMs: u32): Relay {
    if HardTimeout(r, callbackAtMs) then TripLocked(r, HARD_LIMIT, true, false, false) else r
  }

  predicate OperationalTimeout(r: Relay, callbackAtMs: u32) {
    && r.operationalLimitMs != 0 && CommandedClosed(r) && r.operationalLimitMs < r.hardLimitMs
    && Elapsed(callbackAtMs, r.closedAtMs) >= r.operationalLimitMs
  }

  function OperationalCallback(r: Relay, callbackAtMs: u32): Relay {
    if OperationalTimeout(r, callbackAtMs) then TripLocked(r, OPERATIONAL_LIMIT, false, true, false) else r
  }

  // Opens the arming window.
  function EnterArming(r: Relay, closingAtMs: u32, limit: u32, purpose: RelayPurpose, preserve: bool): Relay {
    r.(generation := Successor(r.generation), closedAtMs := closingAtMs, purpose := purpose,
       hardLimitMs := HARD_MAX_CIRCUIT_CLOSED_MS, operationalLimitMs := limit,
       hardTripped := preserve && r.hardTripped, operationalTripped := preserve && r.operationalTripped,
       fault := if preserve then r.fault else NONE, state := ARMING, circuitClosed := false)
  }

  predicate MayCommit(r: Relay, generation: u32, closingAtMs: u32, nowMs: u32, limit: u32) {
    r.generation == generation && r.state == ARMING && Elapsed(nowMs, closingAtMs) < limit
  }

  function Commit(r: Relay, generation: u32, closingAtMs: u32, nowMs: u32, limit: u32): Relay {
    if MayCommit(r, generation, closingAtMs, nowMs, limit)
    then r.(pinClosed := true, circuitClosed := true, state := CLOSED) else r
  }

  function OpenCircuit(r: Relay): Relay {
    var alreadyOpened := !r.circuitClosed && (r.state == TRIPPED || r.state == LOCKOUT);
    r.(pinClosed := if alreadyOpened then r.pinClosed else false, circuitClosed := false,
       generation := Successor(r.generation),
       state := if r.state == TRIPPED || r.state == LOCKOUT then r.state else OPEN)
  }

  predicate Expired(r: Relay, nowMs: u32) {
    r.circuitClosed && r.operationalLimitMs != 0 && Elapsed(nowMs, r.closedAtMs) >= r.operationalLimitMs
  }

  // Re-drives the pin of a live close; `follows` is whether the pin obeys.
  function Reassert(r: Relay, nowMs: u32, follows: bool): Relay {
    if Expired(r, nowMs) then
      var operational := r.operationalLimitMs < r.hardLimitMs;
      TripLocked(r, if operational then OPERATIONAL_LIMIT else HARD_LIMIT, !operational, operational, false)
    else if r.circuitClosed && r.state == CLOSED && !r.pinClosed then r.(pinClosed := follows)
    else r
  }

  predicate MayPromote(r: Relay, generation: u32, closedAtMs: u32, nowMs: u32) {
    && r.circuitClosed && r.state == CLOSED && r.generation == generation && r.purpose == BACKFLUSH_CANDIDATE
    && !AnyTrip(r) && Elapsed(nowMs, closedAtMs) < HARD_MAX_CIRCUIT_CLOSED_MS
  }

  function Promote(r: Relay): Relay {
    r.(purpose := BACKFLUSH_CONFIRMED, hardLimitMs := BACKFLUSH_MAX_CIRCUIT_CLOSED_MS,
       operationalLimitMs := BACKFLUSH_MAX_CIRCUIT_CLOSED_MS)
  }

  function Consume(r: Relay, hard: bool): Relay {
    if hard then r.(hardTripped := false) else r.(operationalTripped := false)
  }

  // ----- facts about single sections -----

  // The pin is driven closed only while the published state says closed.
  predicate PinSafe(r: Relay) {
    (r.pinClosed ==> r.circuitClosed) && (r.circuitClosed <==> r.state == CLOSED)
  }

  lemma SectionsKeepPinSafe(r: Relay, fault: RelaySafetyFault, hard: bool, operational: bool, lockout: bool,
                            at: u32, now: u32, limit: u32, purpose: RelayPurpose, flag: bool, generation: u32)
    requires PinSafe(r)
    ensures PinSafe(TripLocked(r, fault, hard, operational, lockout))
    ensures PinSafe(DeadlineIsr(r)) && PinSafe(HardCallback(r, at)) && PinSafe(OperationalCallback(r, at))
    ensures !r.circuitClosed ==> PinSafe(EnterArming(r, at, limit, purpose, flag))
    ensures PinSafe(Commit(r, generation, at, now, limit)) && PinSafe(OpenCircuit(r))
    ensures PinSafe(Reassert(r, now, flag)) && PinSafe(Promote(r)) && PinSafe(Consume(r, flag))
  {
  }

  // Only a commit of the arming generation, inside its limit, closes the circuit.
  lemma OnlyCommitCloses(r: Relay, generation: u32, at: u32, now: u32, limit: u32)
    requires PinSafe(r) && !r.circuitClosed
    ensures Commit(r, generation, at, now, limit).pinClosed
         <==> r.state == ARMING && r.generation == generation && Elapsed(now, at) < limit
  {
  }

  // A task-timer callback trips a close exactly when its time stamp is at
  // least a limit after the close, counted modulo 2^32: a stamp taken before
  // the close passes that test, because the difference wraps.
  lemma StaleHardCallbackTrips(r: Relay, stamp: nat, closingAt: nat)
    requires CommandedClosed(r) && 0 < r.hardLimitMs && r.closedAtMs == closingAt % 0x1_0000_0000
    requires stamp < closingAt + 0x1_0000_0000 && closingAt <= stamp + 0x8000_0000 && r.hardLimitMs <= 0x8000_0000
    ensures HardCallback(r, stamp % 0x1_0000_0000) != r
         <==> stamp < closingAt || stamp - closingAt >= r.hardLimitMs
  {
    ElapsedOf(stamp, closingAt);
    assert TripLocked(r, HARD_LIMIT, true, false, false).state != r.state;
  }

  // The operational callback likewise, for closes with a limit of their own.
  lemma StaleOperationalCallbackTrips(r: Relay, stamp: nat, closingAt: nat)
    requires CommandedClosed(r) && 0 < r.operationalLimitMs && r.closedAtMs == closingAt % 0x1_0000_0000
    requires stamp < closingAt + 0x1_0000_0000 && closingAt <= stamp + 0x8000_0000
    requires r.operationalLimitMs <= 0x8000_0000
    ensures OperationalCallback(r, stamp % 0x1_0000_0000) != r
         <==> r.operationalLimitMs < r.hardLimitMs && (stamp < closingAt || stamp - closingAt >= r.operationalLimitMs)
  {
    ElapsedOf(stamp, closingAt);
    assert TripLocked(r, OPERATIONAL_LIMIT, false, true, false).state != r.state;
  }

  lemma ElapsedOf(now: nat, since: nat)
    requires now < since + 0x1_0000_0000 && since <= now + 0x1_0000_0000
    ensures Elapsed(now % 0x1_0000_0000, since % 0x1_0000_0000)
         == if now >= since then now - since
            else if since - now == 0x1_0000_0000 then 0 else now - since + 0x1_0000_0000
  {
    var a, b := now / 0x1_0000_0000, since / 0x1_0000_0000;
    assert now == a * 0x1_0000_0000 + now % 0x1_0000_0000;
    assert since == b * 0x1_0000_0000 + since % 0x1_0000_0000;
  }

  // ----- what a section means for the others -----

  // The relay is open, and no close stamped earlier can commit any more.
  ghost predicate Withdrawn(before: Relay, after: Relay) {
    && !after.pinClosed && !after.circuitClosed && after.generation == Successor(before.generation)
    && forall generation, at, now, limit :: !MayCommit(after, generation, at, now, limit)
  }

  // The deadlines of the close are as they were.
  predicate SameDeadlines(before: Relay, after: Relay) {
    && after.hardLimitMs == before.hardLimitMs && after.operationalLimitMs == before.operationalLimitMs
    && after.closedAtMs == before.closedAtMs && after.purpose == before.purpose
  }

  predicate KeepsTrips(before: Relay, after: Relay) {
    (before.hardTripped ==> after.hardTripped) && (before.operationalTripped ==> after.operationalTripped)
  }

  // ----- the sections in place -----

  class RelayState {
    var state: RelaySafetyState
    var fault: RelaySafetyFault
    var circuitClosed: bool
    var generation: u32
    var purpose: RelayPurpose
    var hardLimitMs: u32
    var operationalLimitMs: u32
    var closedAtMs: u32
    var hardTripped: bool
    var operationalTripped: bool
    var pinClosed: bool

    function View(): Relay
      reads this
    {
      Relay(state, fault, circuitClosed, generation, purpose, hardLimitMs, operationalLimitMs, closedAtMs,
            hardTripped, operationalTripped, pinClosed)
    }

    constructor ()
      ensures View() == AT_BOOT
    {
      state, fault, circuitClosed, generation := BOOT_SAFE, NONE, false, 0;
      purpose, hardLimitMs, operationalLimitMs := NORMAL, HARD_MAX_CIRCUIT_CLOSED_MS, HARD_MAX_CIRCUIT_CLOSED_MS;
      closedAtMs, hardTripped, operationalTripped, pinClosed := 0, false, false, false;
    }

    // The electrical action comes first.
    method TripRelaySafetyLocked(why: RelaySafetyFault, hard: bool, operational: bool, lockout: bool)
      modifies this
      ensures View() == TripLocked(old(View()), why, hard, operational, lockout)
      ensures Withdrawn(old(View()), View()) && PinSafe(View()) && KeepsTrips(old(View()), View())
    {
      pinClosed := false;
      circuitClosed := false;
      generation := Successor(generation);
      state := if lockout then LOCKOUT else TRIPPED;
      fault := why;
      hardTripped := hardTripped || hard;
      operationalTripped := operationalTripped || operational;
    }

    method IndependentSafetyTimerCallback()
      modifies this
      ensures View() == DeadlineIsr(old(View()))
      ensures View() != old(View()) ==> Withdrawn(old(View()), View()) && PinSafe(View())
      ensures old(hardLimitMs) != 0 && old(CommandedClosed(View())) ==>
        && operationalTripped == (old(operationalLimitMs) < old(hardLimitMs)) && hardTripped == !operationalTripped
        && fault == if old(operationalLimitMs) < old(hardLimitMs) then OPERATIONAL_LIMIT else HARD_LIMIT
      ensures View() == old(View()) ==> hardLimitMs == 0 || !CommandedClosed(View())
    {
      if hardLimitMs != 0 && (state == ARMING || state == CLOSED) {
        var operational := operationalLimitMs < hardLimitMs;
        pinClosed := false;
        circuitClosed := false;
        generation := Successor(generation);
        state := TRIPPED;
        fault := if operational then OPERATIONAL_LIMIT else HARD_LIMIT;
        hardTripped := !operational;
        operationalTripped := operational;
      }
    }

    method RelaySafetyTimerCallback(callbackAtMs: u32) returns (tripped: bool)
      modifies this
      ensures View() == HardCallback(old(View()), callbackAtMs) && tripped == HardTimeout(old(View()), callbackAtMs)
      ensures tripped ==> Withdrawn(old(View()), View()) && KeepsTrips(old(View()), View())
      ensures tripped ==> hardTripped && operationalTripped == old(operationalTripped) && fault == HARD_LIMIT
      ensures tripped ==> state == TRIPPED
      ensures !tripped ==> View() == old(View())
    {
      tripped := hardLimitMs != 0 && (state == ARMING || state == CLOSED) &&
                 Elapsed(callbackAtMs, closedAtMs) >= hardLimitMs;
      if tripped {
        TripRelaySafetyLocked(HARD_LIMIT, true, false, false);
      }
    }

    method OperationalLimitTimerCallback(callbackAtMs: u32) returns (tripped: bool)
      modifies this
      ensures View() == OperationalCallback(old(View()), callbackAtMs)
      ensures tripped == OperationalTimeout(old(View()), callbackAtMs)
      ensures tripped ==> Withdrawn(old(View()), View()) && KeepsTrips(old(View()), View())
      ensures tripped ==> operationalTripped && hardTripped == old(hardTripped) && fault == OPERATIONAL_LIMIT
      ensures tripped ==> state == TRIPPED
      ensures !tripped ==> View() == old(View())
    {
      tripped := operationalLimitMs != 0 && (state == ARMING || state == CLOSED) &&
                 operationalLimitMs < hardLimitMs && Elapsed(callbackAtMs, closedAtMs) >= operationalLimitMs;
      if tripped {
        TripRelaySafetyLocked(OPERATIONAL_LIMIT, false, true, false);
      }
    }

    method BeginArming(closingAtMs: u32, limit: u32, why: RelayPurpose, preserve: bool) returns (stamped: u32)
      modifies this
      ensures View() == EnterArming(old(View()), closingAtMs, limit, why, preserve) && stamped == generation
      ensures stamped != old(generation)
      ensures forall at, now, within :: MayCommit(View(), stamped, at, now, within) <==> Elapsed(now, at) < within
      ensures forall other, at, now, within :: MayCommit(View(), other, at, now, within) ==> other == stamped
      ensures if preserve then KeepsTrips(old(View()), View()) && fault == old(fault)
              else !AnyTrip(View()) && fault == NONE
    {
      generation := Successor(generation);
      stamped := generation;
      closedAtMs := closingAtMs;
      purpose := why;
      hardLimitMs := HARD_MAX_CIRCUIT_CLOSED_MS;
      operationalLimitMs := limit;
      if !preserve {
        hardTripped := false;
        operationalTripped := false;
        fault := NONE;
      }
      state := ARMING;
      circuitClosed := false;
    }

    method CommitClose(stamped: u32, closingAtMs: u32, nowMs: u32, limit: u32) returns (committed: bool)
      modifies this
      ensures View() == Commit(old(View()), stamped, closingAtMs, nowMs, limit)
      ensures committed == MayCommit(old(View()), stamped, closingAtMs, nowMs, limit)
      ensures committed ==> circuitClosed && pinClosed && PinSafe(View())
      ensures SameDeadlines(old(View()), View()) && generation == old(generation)
      ensures committed ==> forall other, at, now, within :: !MayCommit(View(), other, at, now, within)
    {
      committed := false;
      if generation == stamped && state == ARMING && Elapsed(nowMs, closingAtMs) < limit {
        pinClosed := true;
        circuitClosed := true;
        state := CLOSED;
        committed := true;
      }
    }

    method Open()
      modifies this
      ensures View() == OpenCircuit(old(View()))
      ensures PinSafe(old(View())) ==> Withdrawn(old(View()), View()) && PinSafe(View())
      ensures KeepsTrips(old(View()), View()) && fault == old(fault)
      ensures state == if old(state) == TRIPPED || old(state) == LOCKOUT then old(state) else OPEN
    {
      var alreadyOpenedBySafety := !circuitClosed && (state == TRIPPED || state == LOCKOUT);
      if !alreadyOpenedBySafety {
        pinClosed := false;
      }
      circuitClosed := false;
      generation := Successor(generation);
      if state != TRIPPED && state != LOCKOUT {
        state := OPEN;
      }
    }

    method ReassertPin(nowMs: u32, follows: bool) returns (expired: bool, live: bool, closed: bool)
      modifies this
      ensures View() == Reassert(old(View()), nowMs, follows)
      ensures expired == Expired(old(View()), nowMs)
      ensures live == (!expired && old(circuitClosed) && old(state) == CLOSED)
      ensures closed == (live && pinClosed)
      ensures SameDeadlines(old(View()), View()) && KeepsTrips(old(View()), View())
      ensures pinClosed ==> old(pinClosed) || (old(circuitClosed) && old(state) == CLOSED)
      ensures expired ==> Withdrawn(old(View()), View()) && state == TRIPPED
      ensures expired ==>
        var own := old(operationalLimitMs) < old(hardLimitMs);
        && operationalTripped == (old(operationalTripped) || own) && hardTripped == (old(hardTripped) || !own)
        && fault == if own then OPERATIONAL_LIMIT else HARD_LIMIT
      ensures !expired ==> generation == old(generation) && circuitClosed == old(circuitClosed)
    {
      expired := circuitClosed && operationalLimitMs != 0 && Elapsed(nowMs, closedAtMs) >= operationalLimitMs;
      if expired {
        var operational := operationalLimitMs < hardLimitMs;
        TripRelaySafetyLocked(if operational then OPERATIONAL_LIMIT else HARD_LIMIT, !operational, operational, false);
      }
      live := circuitClosed && state == CLOSED &&
              (operationalLimitMs == 0 || Elapsed(nowMs, closedAtMs) < operationalLimitMs);
      if live && !pinClosed {
        pinClosed := follows;
      }
      closed := live && pinClosed;
    }

    method CommitPromotion(armed: bool, stamped: u32, closedAt: u32, nowMs: u32) returns (committed: bool)
      modifies this
      ensures committed == (armed && MayPromote(old(View()), stamped, closedAt, nowMs))
      ensures View() == if committed then Promote(old(View())) else old(View())
      ensures pinClosed == old(pinClosed) && circuitClosed == old(circuitClosed) && generation == old(generation)
      ensures committed ==> circuitClosed && !AnyTrip(View()) && generation == stamped
      ensures !committed ==> SameDeadlines(old(View()), View())
    {
      committed := armed && circuitClosed && state == CLOSED && generation == stamped &&
                   purpose == BACKFLUSH_CANDIDATE && !hardTripped && !operationalTripped &&
                   Elapsed(nowMs, closedAt) < HARD_MAX_CIRCUIT_CLOSED_MS;
      if committed {
        purpose := BACKFLUSH_CONFIRMED;
        hardLimitMs := BACKFLUSH_MAX_CIRCUIT_CLOSED_MS;
        operationalLimitMs := BACKFLUSH_MAX_CIRCUIT_CLOSED_MS;
      }
    }

    method ConsumeTripFlag(hard: bool) returns (tripped: bool, open: bool)
      modifies this
      ensures View() == Consume(old(View()), hard) && open == !circuitClosed
      ensures tripped == if hard then old(hardTripped) else old(operationalTripped)
      ensures old(AnyTrip(View())) ==> tripped || AnyTrip(View())
      ensures if hard then !hardTripped && operationalTripped == old(operationalTripped)
              else !operationalTripped && hardTripped == old(hardTripped)
      ensures fault == old(fault) && circuitClosed == old(circuitClosed) && generation == old(generation)
      ensures SameDeadlines(old(View()), View()) && pinClosed == old(pinClosed) && state == old(state)
    {
      tripped := if hard then hardTripped else operationalTripped;
      open := !circuitClosed;
      if hard {
        hardTripped := false;
      } else {
        operationalTripped := false;
      }
    }
  }
}
