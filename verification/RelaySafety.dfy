// What every interleaving of the relay's actors keeps: an energized relay has
// a timer that will open it, and the deadlines bound how long it stays closed.
module RelaySafety {
  import opened Bytes
  import opened RelaySections
  import opened RelayProtocol

  // The interrupt is armed, or its body is about to run.
  predicate HwWillOpen(w: World) {
    w.hw.Running? || w.hw.Firing?
  }

  // The hard-limit task timer is armed for the close, or its callback is on
  // the way with a stamp that counts.
  predicate HardWillOpen(w: World) {
    var deadline := w.closingAt + HARD_MAX_CIRCUIT_CLOSED_MS;
    || (w.hard.Armed? && w.hard.due >= deadline)
    || (w.service == Dispatched(true) && w.now >= deadline)
    || (w.service.Stamped? && w.service.hard && w.service.at >= deadline)
  }

  // Inside a promotion the hardware timer is briefly off.
  predicate HwOff(pc: Pc) {
    pc.PromoteHwStart? || ((pc.PromoteCommit? || pc.AtTrip?) && pc.hwOff)
  }

  // How long the close had been armed, by its own clock, when it energized.
  function Age(w: World): u32 {
    Elapsed(Millis(w.energizedAt), w.relay.closedAtMs)
  }

  // When an extended close is due to open.
  function ExtendedDue(w: World): int {
    w.energizedAt + BACKFLUSH_MAX_CIRCUIT_CLOSED_MS + w.slip - Age(w)
  }

  predicate LimitsOk(r: Relay) {
    if r.purpose == BACKFLUSH_CONFIRMED
    then r.hardLimitMs == BACKFLUSH_MAX_CIRCUIT_CLOSED_MS == r.operationalLimitMs
    else && r.hardLimitMs == HARD_MAX_CIRCUIT_CLOSED_MS && 1 <= r.operationalLimitMs <= HARD_MAX_CIRCUIT_CLOSED_MS
         && (r.purpose == BACKFLUSH_CANDIDATE ==> r.operationalLimitMs == HARD_MAX_CIRCUIT_CLOSED_MS)
  }

  predicate Common(w: World) {
    && PinSafe(w.relay) && LimitsOk(w.relay) && w.relay.closedAtMs == Millis(w.closingAt)
    && (HwWillOpen(w) ==> w.now <= w.hw.due)
    && (w.relay.circuitClosed ==> !Arming(w.pc) && !w.pc.Stopping?)
    && (w.service.Stamped? ==> w.service.at <= w.now)
  }

  // ----- inside the arming window -----

  predicate InWindow(pc: Pc) {
    pc.HwStop? || pc.HwStart? || pc.HardStart? || pc.OperationalStart? || pc.AtCommit?
  }

  predicate ClosePc(pc: Pc, now: nat) {
    match pc
    case PreStop(_, limit, purpose, _) => ValidRequest(limit, purpose)
    case ReadClock(limit, purpose, _) => ValidRequest(limit, purpose)
    case AtArming(limit, purpose, _, at) => ValidRequest(limit, purpose) && at <= now
    case HwStop(limit, _, at) => 1 <= limit <= HARD_MAX_CIRCUIT_CLOSED_MS && at <= now
    case HwStart(limit, _, at) => 1 <= limit <= HARD_MAX_CIRCUIT_CLOSED_MS && at <= now
    case HardStart(limit, _, at, _) => 1 <= limit <= HARD_MAX_CIRCUIT_CLOSED_MS && at <= now
    case OperationalStart(limit, _, at, _) => 1 <= limit <= HARD_MAX_CIRCUIT_CLOSED_MS && at <= now
    case AtCommit(limit, _, at, _) => 1 <= limit <= HARD_MAX_CIRCUIT_CLOSED_MS && at <= now
    case _ => true
  }

  // While the arming it started stands, the window's own variables agree with
  // the published state.
  predicate Window(w: World) {
    && ClosePc(w.pc, w.now)
    && (InWindow(w.pc) ==> !w.extended && w.relay.purpose != BACKFLUSH_CONFIRMED && w.pc.at == w.closingAt)
    && (InWindow(w.pc) && w.relay.state == ARMING ==>
          w.relay.generation == w.pc.generation && w.relay.operationalLimitMs == w.pc.limit)
  }

  // A transaction that may still commit has started both timers.
  predicate WindowTimers(w: World) {
    && ((w.pc.HardStart? || w.pc.OperationalStart? || w.pc.AtCommit?) && w.pc.armed && w.relay.state == ARMING ==>
          HwWillOpen(w) && w.hw.due <= w.now + w.pc.limit)
    && ((w.pc.OperationalStart? || w.pc.AtCommit?) && w.pc.armed && w.relay.state == ARMING ==> HardWillOpen(w))
  }

  // ----- while closed -----

  predicate MidPromotion(pc: Pc) {
    pc.PromoteHardStop? || pc.PromoteHardStart? || pc.PromoteCommit? || pc.AtTrip?
  }

  predicate ClosedPurpose(w: World) {
    w.relay.circuitClosed ==>
      && (w.relay.purpose == NORMAL ==> !w.extended && !Promoting(w.pc))
      && (w.relay.purpose == BACKFLUSH_CONFIRMED ==> w.extended && !Promoting(w.pc))
      && (w.relay.purpose == BACKFLUSH_CANDIDATE && !MidPromotion(w.pc) ==> !w.extended)
      && (w.pc.PromoteHardStop? || w.pc.PromoteHardStart? ==> w.extended)
      && (w.pc.PromoteCommit? && w.pc.armed ==> w.extended && !w.pc.hwOff)
      && (Promoting(w.pc) ==> w.pc.closedAt == w.relay.closedAtMs)
      && (HwOff(w.pc) ==> w.relay.purpose == BACKFLUSH_CANDIDATE)
  }

  predicate ClosedClock(w: World) {
    w.relay.circuitClosed ==>
      && w.energizedAt <= w.now
      && Age(w) < HARD_MAX_CIRCUIT_CLOSED_MS
      && (w.pc.PromoteHwStop? || w.pc.PromoteHwStart? ==>
            && w.energizedAt <= w.pc.readAt <= w.energizedAt + HARD_MAX_CIRCUIT_CLOSED_MS
            && w.pc.readAt <= w.now
            && w.pc.readAt + w.pc.timeout == w.energizedAt + BACKFLUSH_MAX_CIRCUIT_CLOSED_MS - Age(w))
      && ((w.pc.PromoteCommit? || w.pc.AtTrip?) && w.pc.hwOff ==>
            w.pc.readAt <= w.energizedAt + HARD_MAX_CIRCUIT_CLOSED_MS && w.pc.readAt <= w.now)
  }

  predicate ClosedTimers(w: World) {
    w.relay.circuitClosed ==>
      && (!HwOff(w.pc) ==> HwWillOpen(w))
      && (!HwOff(w.pc) && !w.extended ==> w.hw.due <= w.energizedAt + w.relay.operationalLimitMs)
      && (!HwOff(w.pc) && w.extended ==> w.hw.due == ExtendedDue(w))
      && (w.relay.purpose == BACKFLUSH_CONFIRMED || w.pc.PromoteHardStart? ||
          ((w.pc.PromoteCommit? || w.pc.AtTrip?) && !w.pc.hwOff) || HardWillOpen(w))
  }

  predicate Inv(w: World) {
    && Common(w) && Window(w) && WindowTimers(w)
    && ClosedPurpose(w) && ClosedClock(w) && ClosedTimers(w)
  }

  // ----- clock arithmetic -----

  lemma ElapsedAdvances(c: u32, t0: nat, t: nat)
    requires t0 <= t && Elapsed(Millis(t0), c) + (t - t0) < 0x1_0000_0000
    ensures Elapsed(Millis(t), c) == Elapsed(Millis(t0), c) + (t - t0)
  {
    var e := Elapsed(Millis(t0), c);
    var q0, q := t0 / 0x1_0000_0000, t / 0x1_0000_0000;
    assert t0 == q0 * 0x1_0000_0000 + Millis(t0) && t == q * 0x1_0000_0000 + Millis(t);
  }

  // A hard-limit stamp less than 2^32 ms after the close counts in full.
  lemma HardStampCounts(w: World)
    requires w.relay.closedAtMs == Millis(w.closingAt) && w.service.Stamped?
    requires w.closingAt + HARD_MAX_CIRCUIT_CLOSED_MS <= w.service.at < w.closingAt + 0x1_0000_0000
    ensures Elapsed(Millis(w.service.at), w.relay.closedAtMs) >= HARD_MAX_CIRCUIT_CLOSED_MS
  {
    ElapsedOf(w.service.at, w.closingAt);
  }

  // The one scheduling assumption: a task-timer callback is not held up for the
  // 49.7 days after which its stamp would wrap.
  predicate Timely(w: World, s: Step) {
    s.CallbackSection? && w.service.Stamped? ==> w.service.at < w.closingAt + 0x1_0000_0000
  }

  // ----- environment steps -----

  lemma TickKeepsInv(w: World, ms: nat)
    requires Inv(w) && Enabled(w, Tick(ms))
    ensures Inv(Next(w, Tick(ms)))
  {
    hide PinSafe, LimitsOk, Elapsed, Millis;
  }

  lemma HwStepsKeepInv(w: World, s: Step)
    requires Inv(w) && Enabled(w, s) && (s.HwAlarm? || s.HwBody? || s.HwReturn?)
    ensures Inv(Next(w, s))
  {
  }

  lemma DispatchKeepsInv(w: World, ofHard: bool)
    requires Inv(w) && Enabled(w, Dispatch(ofHard))
    ensures Inv(Next(w, Dispatch(ofHard)))
  {
    hide PinSafe, LimitsOk, Elapsed, Millis, ClosePc;
  }

  lemma ReadStampKeepsInv(w: World)
    requires Inv(w) && Enabled(w, ReadStamp)
    ensures Inv(Next(w, ReadStamp))
  {
    hide PinSafe, LimitsOk, Elapsed, Millis, ClosePc;
  }

  lemma HardCallbackKeepsInv(w: World)
    requires Inv(w) && w.service.Stamped? && w.service.hard && Timely(w, CallbackSection)
    ensures Inv(Next(w, CallbackSection))
  {
    hide Millis, ClosePc;
    if w.service.at >= w.closingAt + HARD_MAX_CIRCUIT_CLOSED_MS {
      HardStampCounts(w);
    }
  }

  lemma OperationalCallbackKeepsInv(w: World)
    requires Inv(w) && w.service.Stamped? && !w.service.hard
    ensures Inv(Next(w, CallbackSection))
  {
    hide Millis, ClosePc;
  }

  lemma ForeignStepsKeepInv(w: World, s: Step)
    requires Inv(w) && Enabled(w, s) && (s.PinGlitch? || s.ForeignTrip?)
    ensures Inv(Next(w, s))
  {
  }

  // ----- control-task steps -----

  lemma BeginMotionKeepsInv(w: World, s: Step)
    requires Inv(w) && Enabled(w, s) && (s.BeginClose? || s.BeginOpen? || s.BeginPromote? || s.BeginTrip?)
    ensures Inv(Next(w, s))
  {
    hide Millis, Elapsed;
  }

  lemma BeginCareKeepsInv(w: World, s: Step)
    requires Inv(w) && Enabled(w, s) && (s.BeginReassert? || s.BeginService? || s.BeginConsume?)
    ensures Inv(Next(w, s))
  {
    hide Millis;
  }

  lemma PreparingKeepsInv(w: World, ok: bool)
    requires Inv(w) && (w.pc.PreStop? || w.pc.ReadClock? || w.pc.AtArming?)
    ensures Inv(ContinueClose(w, ok))
  {
  }

  lemma HwArmKeepsInv(w: World, ok: bool)
    requires Inv(w) && (w.pc.HwStop? || w.pc.HwStart?)
    ensures Inv(ContinueClose(w, ok))
  {
  }

  lemma TaskArmKeepsInv(w: World, ok: bool)
    requires Inv(w) && (w.pc.HardStart? || w.pc.OperationalStart?)
    ensures Inv(ContinueClose(w, ok))
  {
  }

  lemma CommitKeepsInv(w: World, ok: bool)
    requires Inv(w) && w.pc.AtCommit?
    ensures Inv(ContinueClose(w, ok))
  {
  }

  lemma PromoteHwKeepsInv(w: World, ok: bool)
    requires Inv(w) && (w.pc.PromoteArgument? || w.pc.PromoteHwStop? || w.pc.PromoteHwStart?)
    ensures Inv(ContinuePromote(w, ok))
  {
    if w.pc.PromoteArgument? && w.relay.circuitClosed {
      ElapsedAdvances(w.relay.closedAtMs, w.energizedAt, w.now);
    }
  }

  lemma PromoteHardKeepsInv(w: World, ok: bool)
    requires Inv(w) && (w.pc.PromoteHardStop? || w.pc.PromoteHardStart? || w.pc.PromoteCommit?)
    ensures Inv(ContinuePromote(w, ok))
  {
  }

  lemma StoppingKeepsInv(w: World, ok: bool)
    requires Inv(w) && w.pc.Stopping?
    ensures Inv(ContinueRest(w, ok))
  {
    hide Millis, Elapsed, LimitsOk;
  }

  lemma TripKeepsInv(w: World, ok: bool)
    requires Inv(w) && w.pc.AtTrip?
    ensures Inv(ContinueRest(w, ok))
  {
    hide Millis, Elapsed;
  }

  lemma ServiceKeepsInv(w: World, ok: bool)
    requires Inv(w) && (w.pc.ServiceReassert? || w.pc.ServiceCheck?)
    ensures Inv(ContinueRest(w, ok))
  {
    hide Millis;
  }

  lemma NextKeepsInv(w: World, s: Step)
    requires Inv(w) && Enabled(w, s) && Timely(w, s)
    ensures Inv(Next(w, s))
  {
    hide Inv, ContinueClose, ContinuePromote, ContinueRest;
    match s
    case Tick(ms) => TickKeepsInv(w, ms);
    case HwAlarm => HwStepsKeepInv(w, s);
    case HwBody => HwStepsKeepInv(w, s);
    case HwReturn => HwStepsKeepInv(w, s);
    case Dispatch(ofHard) => DispatchKeepsInv(w, ofHard);
    case ReadStamp => ReadStampKeepsInv(w);
    case CallbackSection =>
      if w.service.hard {
        HardCallbackKeepsInv(w);
      } else {
        OperationalCallbackKeepsInv(w);
      }
    case PinGlitch => ForeignStepsKeepInv(w, s);
    case ForeignTrip(_) => ForeignStepsKeepInv(w, s);
    case Continue(ok) => ContinueKeepsInv(w, ok);
    case BeginReassert(_) => BeginCareKeepsInv(w, s);
    case BeginService => BeginCareKeepsInv(w, s);
    case BeginConsume(_) => BeginCareKeepsInv(w, s);
    case _ => BeginMotionKeepsInv(w, s);
  }

  lemma ContinueKeepsInv(w: World, ok: bool)
    requires Inv(w) && w.pc != Ready
    ensures Inv(Next(w, Continue(ok)))
  {
    hide Inv, ContinueClose, ContinuePromote, ContinueRest;
    match w.pc
    case PreStop(_, _, _, _) => PreparingKeepsInv(w, ok);
    case ReadClock(_, _, _) => PreparingKeepsInv(w, ok);
    case AtArming(_, _, _, _) => PreparingKeepsInv(w, ok);
    case HwStop(_, _, _) => HwArmKeepsInv(w, ok);
    case HwStart(_, _, _) => HwArmKeepsInv(w, ok);
    case HardStart(_, _, _, _) => TaskArmKeepsInv(w, ok);
    case OperationalStart(_, _, _, _) => TaskArmKeepsInv(w, ok);
    case AtCommit(_, _, _, _) => CommitKeepsInv(w, ok);
    case PromoteArgument(_, _) => PromoteHwKeepsInv(w, ok);
    case PromoteHwStop(_, _, _, _) => PromoteHwKeepsInv(w, ok);
    case PromoteHwStart(_, _, _, _) => PromoteHwKeepsInv(w, ok);
    case PromoteHardStop(_, _) => PromoteHardKeepsInv(w, ok);
    case PromoteHardStart(_, _) => PromoteHardKeepsInv(w, ok);
    case PromoteCommit(_, _, _, _, _) => PromoteHardKeepsInv(w, ok);
    case Stopping(_) => StoppingKeepsInv(w, ok);
    case AtTrip(_, _, _, _, _, _) => TripKeepsInv(w, ok);
    case _ => ServiceKeepsInv(w, ok);
  }

  // ----- whole runs -----

  predicate Run(w: World, ss: seq<Step>)
    decreases |ss|
  {
    ss != [] ==> Enabled(w, ss[0]) && Timely(w, ss[0]) && Run(Next(w, ss[0]), ss[1..])
  }

  function After(w: World, ss: seq<Step>): World
    requires Run(w, ss)
    decreases |ss|
  {
    if ss == [] then w else After(Next(w, ss[0]), ss[1..])
  }

  lemma {:induction false} RunKeepsInv(w: World, ss: seq<Step>)
    requires Inv(w) && Run(w, ss)
    ensures Inv(After(w, ss))
    decreases |ss|
  {
    hide Inv, Next, Enabled, Timely;
    if ss != [] {
      NextKeepsInv(w, ss[0]);
      RunKeepsInv(Next(w, ss[0]), ss[1..]);
    }
  }

  // Time by which the restart of the hardware timer inside a promotion lags the
  // computation of its timeout, so far.
  function Slip(w: World): nat {
    if HwOff(w.pc) then (if w.now >= w.pc.readAt then w.now - w.pc.readAt else 0)
    else if w.extended then w.slip else 0
  }

  // Outside a promotion the interrupt itself is armed; inside one, at least the
  // hard-limit task timer is.
  predicate SomeTimerWillOpen(w: World) {
    HwWillOpen(w) || (HwOff(w.pc) && HardWillOpen(w))
  }

  // The deadlines of an energized relay.
  predicate WithinDeadline(w: World) {
    && (w.relay.purpose == NORMAL || (!w.extended && !HwOff(w.pc)) ==>
          w.now - w.energizedAt <= w.relay.operationalLimitMs <= HARD_MAX_CIRCUIT_CLOSED_MS)
    && w.now - w.energizedAt <= BACKFLUSH_MAX_CIRCUIT_CLOSED_MS + Slip(w) - Age(w)
  }

  lemma InvMeansSafe(w: World)
    requires Inv(w)
    ensures PinSafe(w.relay)
    ensures w.relay.pinClosed ==> SomeTimerWillOpen(w) && WithinDeadline(w)
  {
  }

  // In every interleaving since power-up: the pin is closed only under a
  // published CLOSED state, some running timer will open it, a close no
  // promotion has touched stays energized at most its operational limit, and any
  // close at most 180 s plus the slip of a promotion.
  lemma RelayDeadline(ss: seq<Step>)
    requires Run(POWER_UP, ss)
    ensures var w := After(POWER_UP, ss);
            PinSafe(w.relay) && (w.relay.pinClosed ==> SomeTimerWillOpen(w) && WithinDeadline(w))
  {
    RunKeepsInv(POWER_UP, ss);
    InvMeansSafe(After(POWER_UP, ss));
  }

  // An extended close can still be energized past 180 s exactly if its promotion
  // slipped by more than its arming had taken.
  lemma OverrunsExactly(w: World)
    requires Inv(w) && w.relay.circuitClosed && w.extended && w.hw.Running? && !HwOff(w.pc)
    ensures w.hw.due == ExtendedDue(w)
    ensures (exists ms :: ClockMay(w, ms) && w.now + ms - w.energizedAt > BACKFLUSH_MAX_CIRCUIT_CLOSED_MS)
       <==> w.slip > Age(w)
  {
    assert ClockMay(w, w.hw.due - w.now);
  }

  // The timers that will open do open.
  lemma InterruptOpens(w: World)
    requires Inv(w) && w.hw.Firing?
    ensures !Next(w, HwBody).relay.pinClosed && !Next(w, HwBody).relay.circuitClosed
  {
  }

  lemma HardCallbackOpens(w: World)
    requires Inv(w) && w.service.Stamped? && w.service.hard && w.relay.circuitClosed
    requires w.relay.purpose != BACKFLUSH_CONFIRMED
    requires w.closingAt + HARD_MAX_CIRCUIT_CLOSED_MS <= w.service.at < w.closingAt + 0x1_0000_0000
    ensures !Next(w, CallbackSection).relay.pinClosed
  {
    HardStampCounts(w);
  }

  // ----- closing again -----

  // A close of a closed circuit leaves every timer and limit as it was; at most
  // it re-drives the pin or opens.
  lemma ReCloseNeverExtends(w: World, limit: u32, purpose: RelayPurpose, supervised: bool, ok: bool)
    requires Inv(w) && w.pc == Ready && w.relay.circuitClosed
    ensures var w1 := Next(w, BeginClose(limit, purpose, supervised));
            && w1.pc != Ready
            && var w2 := Next(w1, Continue(ok));
               && w2.hw == w.hw && w2.hard == w.hard && w2.operational == w.operational
               && w2.energizedAt == w.energizedAt && w2.closingAt == w.closingAt
               && w2.extended == w.extended && w2.slip == w.slip
               && w2.relay.operationalLimitMs == w.relay.operationalLimitMs
               && w2.relay.hardLimitMs == w.relay.hardLimitMs && w2.relay.closedAtMs == w.relay.closedAtMs
               && (w2.relay.circuitClosed ==> w2.relay.generation == w.relay.generation)
  {
  }

  // ----- cancelled transactions -----

  // A trip has landed between the arming section and the commit.
  predicate Cancelled(w: World) {
    InWindow(w.pc) && w.relay.state != ARMING
  }

  lemma TripsCancel(w: World, s: Step)
    requires Inv(w) && InWindow(w.pc) && Enabled(w, s) && !IsControl(s)
    ensures Next(w, s).relay.generation != w.relay.generation ==> Cancelled(Next(w, s))
    ensures s.ForeignTrip? || (s.HwBody? && CommandedClosed(w.relay)) ==> Cancelled(Next(w, s))
  {
  }

  // From there on the transaction never energizes the relay: every step stays
  // cancelled or leaves the window open-circuit.
  lemma CancelledNeverEnergizes(w: World, s: Step)
    requires Inv(w) && Cancelled(w) && Enabled(w, s)
    ensures var w' := Next(w, s);
            !w'.relay.pinClosed && !w'.relay.circuitClosed && (Cancelled(w') || !InWindow(w'.pc))
  {
  }

  // A cancelled transaction, up to the control task's return.
  predicate Abandoned(w: World) {
    && !w.relay.pinClosed && !w.relay.circuitClosed
    && (Cancelled(w) || w.pc.AtTrip? || w.pc.Stopping? || w.pc == Ready)
  }

  lemma AbandonedStays(w: World, s: Step)
    requires Inv(w) && Abandoned(w) && w.pc != Ready && Enabled(w, s)
    ensures Abandoned(Next(w, s))
  {
    hide Millis;
  }

  // The control task has not returned before the end of the run.
  predicate UpToReady(w: World, ss: seq<Step>)
    requires Run(w, ss)
    decreases |ss|
  {
    ss != [] ==> w.pc != Ready && UpToReady(Next(w, ss[0]), ss[1..])
  }

  // From a cancelled window, whatever the other actors do, the relay stays open
  // until the control task returns.
  lemma {:induction false} CancelledStaysOpen(w: World, ss: seq<Step>)
    requires Inv(w) && Abandoned(w) && Run(w, ss) && UpToReady(w, ss)
    ensures var w' := After(w, ss);
            Abandoned(w') && !w'.relay.pinClosed && !w'.relay.circuitClosed
    decreases |ss|
  {
    hide Inv, Next, Enabled, Timely, Cancelled;
    if ss != [] {
      NextKeepsInv(w, ss[0]);
      AbandonedStays(w, ss[0]);
      CancelledStaysOpen(Next(w, ss[0]), ss[1..]);
    }
  }

  // ----- trip flags -----

  // The arming section that clears the flags.
  predicate ClearsFlags(w: World, s: Step) {
    w.pc.AtArming? && s.Continue? && !w.pc.preserve
  }

  // A latched trip stays in one of the two flags over every step but a
  // consumption, except exactly over an arming whose snapshot saw no trip.
  lemma TripFlagsStay(w: World, s: Step)
    requires Inv(w) && Enabled(w, s) && AnyTrip(w.relay) && !s.BeginConsume?
    ensures AnyTrip(Next(w, s).relay) <==> !ClearsFlags(w, s)
  {
    hide Inv, Millis, Elapsed, ContinuePromote, ContinueRest;
    if s.Continue? && !Arming(w.pc) {
      TripFlagsStayWhenIdle(w, s.ok);
    }
  }

  lemma TripFlagsStayWhenIdle(w: World, ok: bool)
    requires Inv(w) && AnyTrip(w.relay) && w.pc != Ready && !Arming(w.pc)
    ensures AnyTrip(Next(w, Continue(ok)).relay)
  {
    hide Inv, Millis, Elapsed, ContinueClose;
  }

  // Between the snapshot of a close and its arming section.
  predicate Preparing(pc: Pc) {
    pc.PreStop? || pc.ReadClock? || pc.AtArming?
  }

  // The exception needs an arming that was left standing: while the state is
  // neither ARMING nor CLOSED no callback latches anything.
  lemma NoTripWhileOpen(w: World, s: Step)
    requires Inv(w) && Enabled(w, s) && !CommandedClosed(w.relay)
    requires Preparing(w.pc) && !(w.pc.AtArming? && s.Continue?)
    ensures var w' := Next(w, s);
            && w'.relay.hardTripped == w.relay.hardTripped
            && w'.relay.operationalTripped == w.relay.operationalTripped
            && !CommandedClosed(w'.relay)
  {
  }

  // The close being prepared began with no arming standing, and its snapshot is
  // still right.
  predicate SnapshotHolds(w: World) {
    Preparing(w.pc) ==> !CommandedClosed(w.relay) && w.pc.preserve == AnyTrip(w.relay)
  }

  // What a caller of a close can check: no arming was left standing.
  predicate BeginsClean(w: World, s: Step) {
    s.BeginClose? ==> w.relay.state != ARMING
  }

  lemma SnapshotStays(w: World, s: Step)
    requires Inv(w) && SnapshotHolds(w) && Enabled(w, s) && BeginsClean(w, s)
    ensures SnapshotHolds(Next(w, s))
  {
    hide Inv, Next, CommandedClosed, AnyTrip;
    if Preparing(w.pc) {
      PreparationKeepsSnapshot(w, s);
      if !(w.pc.AtArming? && s.Continue?) {
        NoTripWhileOpen(w, s);
        FlagsMakeTrips(w.relay, Next(w, s).relay);
      }
    } else if Preparing(Next(w, s).pc) {
      InvSafePin(w);
      PreparationBegins(w, s);
    }
  }

  lemma FlagsMakeTrips(r: Relay, t: Relay)
    requires t.hardTripped == r.hardTripped && t.operationalTripped == r.operationalTripped
    ensures AnyTrip(t) == AnyTrip(r)
  {
  }

  // Preparation carries its snapshot up to the arming section and ends with it.
  lemma PreparationKeepsSnapshot(w: World, s: Step)
    requires Enabled(w, s) && Preparing(w.pc)
    ensures var pc := Next(w, s).pc;
            if w.pc.AtArming? && s.Continue? then !Preparing(pc)
            else Preparing(pc) && pc.preserve == w.pc.preserve
  {
    hide Millis, Elapsed, ContinuePromote, ContinueRest, EnterArming;
  }

  lemma OnlyBeginsPrepare(w: World, ok: bool)
    requires w.pc != Ready && !Preparing(w.pc)
    ensures !Preparing(Next(w, Continue(ok)).pc)
  {
    hide Millis, Elapsed, EnterArming, MayPromote, TripLocked;
  }

  // Only a close of an open circuit begins one, and its snapshot is of the flags.
  lemma PreparationBegins(w: World, s: Step)
    requires Enabled(w, s) && !Preparing(w.pc) && Preparing(Next(w, s).pc) && BeginsClean(w, s) && PinSafe(w.relay)
    ensures SnapshotHolds(Next(w, s))
  {
    hide Millis, Elapsed, ContinueClose, ContinuePromote, ContinueRest;
    if s.Continue? {
      OnlyBeginsPrepare(w, s.ok);
    }
  }

  lemma InvSafePin(w: World)
    requires Inv(w)
    ensures PinSafe(w.relay)
  {
  }

  ghost predicate ClosesBeginClean(w: World, ss: seq<Step>)
    requires Run(w, ss)
    decreases |ss|
  {
    ss != [] ==> BeginsClean(w, ss[0]) && !ss[0].BeginConsume? && ClosesBeginClean(Next(w, ss[0]), ss[1..])
  }

  // As long as no close begins over a standing arming, a latched trip stays
  // latched over every run that does not consume it.
  lemma {:induction false} TripsWaitToBeConsumed(w: World, ss: seq<Step>)
    requires Inv(w) && SnapshotHolds(w) && AnyTrip(w.relay) && Run(w, ss) && ClosesBeginClean(w, ss)
    ensures AnyTrip(After(w, ss).relay)
    decreases |ss|
  {
    hide Inv, Next, Enabled, Timely, AnyTrip;
    if ss != [] {
      NextKeepsInv(w, ss[0]);
      SnapshotStays(w, ss[0]);
      NotCleared(w, ss[0]);
      TripFlagsStay(w, ss[0]);
      TripsWaitToBeConsumed(Next(w, ss[0]), ss[1..]);
    }
  }

  lemma NotCleared(w: World, s: Step)
    requires SnapshotHolds(w) && AnyTrip(w.relay)
    ensures !ClearsFlags(w, s)
  {
  }
}
