// The relay transaction as a concurrent step system: the control task, the
// deadline interrupt, the two task timers and the clock, interleaved at the
// boundaries of the critical sections.
module RelayProtocol {
  import opened Bytes
  import opened RelaySections

  function Millis(t: nat): u32 {
    t % 0x1_0000_0000
  }

  // ----- the other actors -----

  // The hardware one-shot: running to a due time, its alarm taken but the
  // interrupt body not run yet, or the body run and the callback returning.
  datatype HwTimer = Stopped | Running(due: nat) | Firing(due: nat) | Returning

  datatype TaskTimer = Idle | Armed(due: nat)

  // The timer service task: at rest, calling back a timer that expired, or
  // past the read of its time stamp and waiting for the lock.
  datatype Service = Resting | Dispatched(hard: bool) | Stamped(hard: bool, at: nat)

  // Where the control task stands between two of its atomic steps.
  datatype Pc =
    | Ready
    | Stopping(left: nat)
    | PreStop(left: nat, limit: u32, purpose: RelayPurpose, preserve: bool)
    | ReadClock(limit: u32, purpose: RelayPurpose, preserve: bool)
    | AtArming(limit: u32, purpose: RelayPurpose, preserve: bool, at: nat)
    | HwStop(limit: u32, generation: u32, at: nat)
    | HwStart(limit: u32, generation: u32, at: nat)
    | HardStart(limit: u32, generation: u32, at: nat, armed: bool)
    | OperationalStart(limit: u32, generation: u32, at: nat, armed: bool)
    | AtCommit(limit: u32, generation: u32, at: nat, armed: bool)
    | PromoteArgument(generation: u32, closedAt: u32)
    | PromoteHwStop(generation: u32, closedAt: u32, timeout: u32, readAt: nat)
    | PromoteHwStart(generation: u32, closedAt: u32, timeout: u32, readAt: nat)
    | PromoteHardStop(generation: u32, closedAt: u32)
    | PromoteHardStart(generation: u32, closedAt: u32)
    | PromoteCommit(generation: u32, closedAt: u32, armed: bool, hwOff: bool, readAt: nat)
    | AtTrip(fault: RelaySafetyFault, hard: bool, operational: bool, lockout: bool, hwOff: bool, readAt: nat)
    | ServiceReassert(seen: Relay)
    | ServiceCheck(seen: Relay)

  // `closingAt` is when the last arming read the clock and `energizedAt` when the
  // pin was last driven closed by a commit; `extended` and `slip` describe the
  // last restart of the hardware timer by a promotion: slip is the time between
  // computing its timeout and starting it.
  datatype World = World(
    now: nat, relay: Relay, hw: HwTimer, hard: TaskTimer, operational: TaskTimer, service: Service, pc: Pc,
    closingAt: nat, energizedAt: nat, extended: bool, slip: nat)

  const POWER_UP := World(0, AT_BOOT, Stopped, Idle, Idle, Resting, Ready, 0, 0, false, 0)

  datatype Step =
    | Tick(ms: nat)
    | HwAlarm | HwBody | HwReturn
    | Dispatch(ofHard: bool) | ReadStamp | CallbackSection
    | PinGlitch                       // the pin drops on its own
    | ForeignTrip(lockout: bool)      // a trip section of another task
    | BeginClose(limit: u32, purpose: RelayPurpose, supervised: bool)
    | BeginOpen
    | BeginPromote(ofGeneration: u32)
    | BeginTrip(fault: RelaySafetyFault, asHard: bool, asOperational: bool, lockout: bool)
    | BeginReassert(follows: bool)
    | BeginService
    | BeginConsume(flagHard: bool)
    | Continue(ok: bool)              // the control task's next step; ok is what a driver call returns

  // A deadline interrupt is served before the clock moves on.
  predicate ClockMay(w: World, ms: nat) {
    match w.hw
    case Running(due) => w.now + ms <= due
    case Firing(_) => ms == 0
    case _ => true
  }

  predicate Enabled(w: World, s: Step) {
    match s
    case Tick(ms) => ClockMay(w, ms)
    case HwAlarm => w.hw.Running? && w.now >= w.hw.due
    case HwBody => w.hw.Firing?
    case HwReturn => w.hw.Returning?
    case Dispatch(ofHard) =>
      w.service.Resting? && (var t := if ofHard then w.hard else w.operational; t.Armed? && w.now >= t.due)
    case ReadStamp => w.service.Dispatched?
    case CallbackSection => w.service.Stamped?
    case PinGlitch => true
    case ForeignTrip(_) => true
    case Continue(_) => w.pc != Ready
    case _ => w.pc == Ready
  }

  // ----- the control task -----

  // stopRelayDeadlineTimers, one timer per step; the hardware stop is refused
  // while its callback is in flight, or by the driver.
  function StopOne(w: World, left: nat, ok: bool): World {
    if left == 3 then w.(hw := if ok && !w.hw.Firing? && !w.hw.Returning? then Stopped else w.hw)
    else if left == 2 then w.(hard := Idle)
    else w.(operational := Idle)
  }

  predicate HwStops(w: World, ok: bool) {
    ok && !w.hw.Firing? && !w.hw.Returning?
  }

  predicate ValidRequest(limit: u32, purpose: RelayPurpose) {
    && 1 <= limit <= HARD_MAX_CIRCUIT_CLOSED_MS && purpose != BACKFLUSH_CONFIRMED
    && (purpose == BACKFLUSH_CANDIDATE ==> limit == HARD_MAX_CIRCUIT_CLOSED_MS)
  }

  function AfterReassert(w: World, follows: bool, then': Pc): World {
    var expired := Expired(w.relay, Millis(w.now));
    var live := !expired && w.relay.circuitClosed && w.relay.state == CLOSED;
    var relay := Reassert(w.relay, Millis(w.now), follows);
    w.(relay := relay,
       pc := if expired then Stopping(3)
             else if live && !relay.pinClosed then AtTrip(GPIO_DESYNC, true, false, false, false, 0)
             else if live then then' else Ready)
  }

  function Close(w: World, limit: u32, purpose: RelayPurpose, supervised: bool): World {
    // A close while closed only reasserts the pin; no deadline check follows.
    if w.relay.circuitClosed then w.(pc := ServiceReassert(w.relay.(operationalLimitMs := 0)))
    else if !ValidRequest(limit, purpose) then w.(pc := AtTrip(INVALID_LIMIT, false, false, true, false, 0))
    else if w.relay.state == LOCKOUT then w
    else if !supervised then w.(pc := AtTrip(INITIALIZATION_FAILED, false, false, true, false, 0))
    else w.(pc := PreStop(3, limit, purpose, AnyTrip(w.relay)))
  }

  function BeginPromotion(w: World, generation: u32): World {
    if MayPromote(w.relay, generation, w.relay.closedAtMs, Millis(w.now))
    then w.(pc := PromoteArgument(generation, w.relay.closedAtMs)) else w
  }

  // serviceRelaySafety's own deadline check, on the snapshot it took.
  predicate SnapshotExpired(seen: Relay, nowMs: u32) {
    && seen.operationalLimitMs != 0 && (seen.state == ARMING || seen.circuitClosed)
    && Elapsed(nowMs, seen.closedAtMs) >= seen.operationalLimitMs
  }

  function TripNow(w: World, fault: RelaySafetyFault, hard: bool, operational: bool, lockout: bool): World {
    w.(relay := TripLocked(w.relay, fault, hard, operational, lockout), pc := Stopping(3))
  }

  function StartHw(w: World, timeout: nat): World {
    w.(hw := Running(w.now + timeout))
  }

  // The next step of a close being armed.
  function ContinueClose(w: World, ok: bool): World
    requires w.pc.PreStop? || w.pc.ReadClock? || w.pc.AtArming? || w.pc.HwStop? || w.pc.HwStart?
          || w.pc.HardStart? || w.pc.OperationalStart? || w.pc.AtCommit?
  {
    match w.pc
    case PreStop(left, limit, purpose, preserve) =>
      StopOne(w, left, ok).(pc := if left <= 1 then ReadClock(limit, purpose, preserve)
                                  else PreStop(left - 1, limit, purpose, preserve))
    case ReadClock(limit, purpose, preserve) => w.(pc := AtArming(limit, purpose, preserve, w.now))
    case AtArming(limit, purpose, preserve, at) =>
      var relay := EnterArming(w.relay, Millis(at), limit, purpose, preserve);
      w.(relay := relay, pc := HwStop(limit, relay.generation, at),
         closingAt := at, extended := false, slip := 0)
    case HwStop(limit, generation, at) =>
      if HwStops(w, ok) then w.(hw := Stopped, pc := HwStart(limit, generation, at))
      else w.(pc := HardStart(limit, generation, at, false))
    case HwStart(limit, generation, at) =>
      (if ok then StartHw(w, limit) else w).(pc := HardStart(limit, generation, at, ok))
    case HardStart(limit, generation, at, armed) =>
      var starts := ok && w.hard.Idle?;
      w.(hard := if starts then Armed(w.now + HARD_MAX_CIRCUIT_CLOSED_MS) else w.hard,
         pc := OperationalStart(limit, generation, at, armed && starts))
    case OperationalStart(limit, generation, at, armed) =>
      if limit == HARD_MAX_CIRCUIT_CLOSED_MS then w.(pc := AtCommit(limit, generation, at, armed))
      else
        var starts := ok && w.operational.Idle?;
        w.(operational := if starts then Armed(w.now + limit) else w.operational,
           pc := AtCommit(limit, generation, at, armed && starts))
    case AtCommit(limit, generation, at, armed) =>
      if !armed then w.(pc := AtTrip(TIMER_ARM_FAILED, false, false, true, false, 0))
      else
        var relay := RelaySections.Commit(w.relay, generation, Millis(at), Millis(w.now), limit);
        w.(relay := relay,
           energizedAt := if relay.circuitClosed then w.now else w.energizedAt,
           pc := if relay.circuitClosed then Ready else Stopping(3))
  }

  // What remains of the confirmed-backflush limit, as unsigned arithmetic.
  function BackflushRest(elapsed: u32): u32 {
    if elapsed <= BACKFLUSH_MAX_CIRCUIT_CLOSED_MS then BACKFLUSH_MAX_CIRCUIT_CLOSED_MS - elapsed
    else BACKFLUSH_MAX_CIRCUIT_CLOSED_MS - elapsed + 0x1_0000_0000
  }

  // The next step of a backflush promotion.
  function ContinuePromote(w: World, ok: bool): World
    requires w.pc.PromoteArgument? || w.pc.PromoteHwStop? || w.pc.PromoteHwStart? || w.pc.PromoteHardStop?
          || w.pc.PromoteHardStart? || w.pc.PromoteCommit?
  {
    match w.pc
    case PromoteArgument(generation, closedAt) =>
      w.(pc := PromoteHwStop(generation, closedAt, BackflushRest(Elapsed(Millis(w.now), closedAt)), w.now))
    case PromoteHwStop(generation, closedAt, timeout, readAt) =>
      if timeout != 0 && HwStops(w, ok)
      then w.(hw := Stopped, pc := PromoteHwStart(generation, closedAt, timeout, readAt))
      else w.(pc := PromoteCommit(generation, closedAt, false, false, readAt))
    case PromoteHwStart(generation, closedAt, timeout, readAt) =>
      if ok then StartHw(w, timeout).(pc := PromoteHardStop(generation, closedAt), extended := true,
                                      slip := if w.now >= readAt then w.now - readAt else 0)
      else w.(pc := PromoteCommit(generation, closedAt, false, true, readAt))
    case PromoteHardStop(generation, closedAt) =>
      if ok && w.hard.Armed? then w.(hard := Idle, pc := PromoteHardStart(generation, closedAt))
      else w.(pc := PromoteCommit(generation, closedAt, false, false, w.now))
    case PromoteHardStart(generation, closedAt) =>
      var elapsed := Elapsed(Millis(w.now), closedAt);
      var starts := ok && elapsed < HARD_MAX_CIRCUIT_CLOSED_MS;
      w.(hard := if starts then Armed(w.now + BackflushRest(elapsed)) else w.hard,
         pc := PromoteCommit(generation, closedAt, starts, false, w.now))
    case PromoteCommit(generation, closedAt, armed, hwOff, readAt) =>
      if armed && MayPromote(w.relay, generation, closedAt, Millis(w.now))
      then w.(relay := Promote(w.relay), pc := Ready)
      else w.(pc := AtTrip(TIMER_ARM_FAILED, false, false, true, hwOff, readAt))
  }

  function ContinueRest(w: World, ok: bool): World
    requires w.pc.Stopping? || w.pc.AtTrip? || w.pc.ServiceReassert? || w.pc.ServiceCheck?
  {
    match w.pc
    case Stopping(left) => StopOne(w, left, ok).(pc := if left <= 1 then Ready else Stopping(left - 1))
    case AtTrip(fault, hard, operational, lockout, _, _) => TripNow(w, fault, hard, operational, lockout)
    case ServiceReassert(seen) => AfterReassert(w, ok, ServiceCheck(seen))
    case ServiceCheck(seen) =>
      if SnapshotExpired(seen, Millis(w.now)) then
        var operational := seen.operationalLimitMs < seen.hardLimitMs;
        w.(pc := AtTrip(if operational then OPERATIONAL_LIMIT else HARD_LIMIT, !operational, operational, false,
                         false, 0))
      else w.(pc := Ready)
  }

  predicate Arming(pc: Pc) {
    || pc.PreStop? || pc.ReadClock? || pc.AtArming? || pc.HwStop? || pc.HwStart?
    || pc.HardStart? || pc.OperationalStart? || pc.AtCommit?
  }

  predicate Promoting(pc: Pc) {
    || pc.PromoteArgument? || pc.PromoteHwStop? || pc.PromoteHwStart? || pc.PromoteHardStop?
    || pc.PromoteHardStart? || pc.PromoteCommit?
  }

  function Control(w: World, s: Step): World
    requires Enabled(w, s)
  {
    match s
    case BeginClose(limit, purpose, supervised) => Close(w, limit, purpose, supervised)
    case BeginOpen => w.(relay := OpenCircuit(w.relay), pc := Stopping(3))
    case BeginPromote(generation) => BeginPromotion(w, generation)
    case BeginTrip(fault, hard, operational, lockout) => TripNow(w, fault, hard, operational, lockout)
    case BeginReassert(follows) => AfterReassert(w, follows, Ready)
    case BeginService =>
      w.(pc := if w.relay.circuitClosed && w.relay.state != TRIPPED && w.relay.state != LOCKOUT
               then ServiceReassert(w.relay) else ServiceCheck(w.relay))
    case BeginConsume(hard) =>
      var tripped := if hard then w.relay.hardTripped else w.relay.operationalTripped;
      w.(relay := Consume(w.relay, hard), pc := if tripped && !w.relay.circuitClosed then Stopping(3) else Ready)
    case Continue(ok) =>
      if Arming(w.pc) then ContinueClose(w, ok)
      else if Promoting(w.pc) then ContinuePromote(w, ok)
      else ContinueRest(w, ok)
    case _ => w
  }

  // ----- the environment -----

  function Environment(w: World, s: Step): World
    requires Enabled(w, s)
  {
    match s
    case Tick(ms) => w.(now := w.now + ms)
    case HwAlarm => w.(hw := Firing(w.hw.due))
    case HwBody => w.(relay := DeadlineIsr(w.relay), hw := Returning)
    case HwReturn => w.(hw := Stopped)
    case Dispatch(ofHard) =>
      (if ofHard then w.(hard := Idle) else w.(operational := Idle)).(service := Dispatched(ofHard))
    case ReadStamp => w.(service := Stamped(w.service.hard, w.now))
    case CallbackSection =>
      w.(relay := if w.service.hard then HardCallback(w.relay, Millis(w.service.at))
                  else OperationalCallback(w.relay, Millis(w.service.at)),
         service := Resting)
    case PinGlitch => w.(relay := w.relay.(pinClosed := false))
    case ForeignTrip(lockout) => w.(relay := TripLocked(w.relay, TASK_WATCHDOG_FAILURE, false, false, lockout))
    case _ => w
  }

  predicate IsControl(s: Step) {
    || s.BeginClose? || s.BeginOpen? || s.BeginPromote? || s.BeginTrip? || s.BeginReassert?
    || s.BeginService? || s.BeginConsume? || s.Continue?
  }

  function Next(w: World, s: Step): World
    requires Enabled(w, s)
  {
    if IsControl(s) then Control(w, s) else Environment(w, s)
  }
}
