// Runs of the relay protocol that meet the exact conditions of RelaySafety: a
// stale stamp cancelling a later close, a flag lost to an arming, and a
// promotion overrunning by its slip.
module RelayWitness {
  import opened Bytes
  import opened RelaySections
  import opened RelayProtocol
  import opened RelaySafety

  ghost predicate Reachable(w: World) {
    exists ss :: Run(POWER_UP, ss) && After(POWER_UP, ss) == w
  }

  lemma {:induction false} RunExtends(w: World, ss: seq<Step>, s: Step)
    requires Run(w, ss) && Enabled(After(w, ss), s) && Timely(After(w, ss), s)
    ensures Run(w, ss + [s]) && After(w, ss + [s]) == Next(After(w, ss), s)
    decreases |ss|
  {
    hide Next, Enabled, Timely;
    if ss == [] {
      assert [] + [s] == [s];
      assert [s][1..] == [];
      assert Run(Next(w, s), []);
    } else {
      RunExtends(Next(w, ss[0]), ss[1..], s);
      assert (ss + [s])[1..] == ss[1..] + [s];
    }
  }

  lemma Reach(w: World, s: Step)
    requires Reachable(w) && Enabled(w, s) && Timely(w, s)
    ensures Reachable(Next(w, s))
  {
    hide Next, Enabled, Timely;
    var ss :| Run(POWER_UP, ss) && After(POWER_UP, ss) == w;
    RunExtends(POWER_UP, ss, s);
  }

  lemma Continues(w: World) returns (w': World)
    requires Reachable(w) && w.pc != Ready
    ensures Reachable(w') && w' == Next(w, Continue(true))
  {
    hide Reachable;
    Reach(w, Continue(true));
    w' := Next(w, Continue(true));
  }

  lemma Continues3(w: World) returns (w': World)
    requires Reachable(w) && (w.pc.PreStop? || w.pc.Stopping?) && w.pc.left == 3
    requires w.hw == Stopped || w.hw.Running?
    ensures Reachable(w')
    ensures w' == w.(hw := Stopped, hard := Idle, operational := Idle,
                     pc := if w.pc.Stopping? then Ready else ReadClock(w.pc.limit, w.pc.purpose, w.pc.preserve))
  {
    hide Reachable;
    var w1 := Continues(w);
    var w2 := Continues(w1);
    w' := Continues(w2);
  }

  // An undisturbed close up to its arming section, at the current time.
  lemma Arms(w: World, limit: u32, purpose: RelayPurpose) returns (w': World)
    requires Reachable(w) && w.pc == Ready && !w.relay.circuitClosed && w.relay.state != LOCKOUT
    requires ValidRequest(limit, purpose) && (w.hw == Stopped || w.hw.Running?)
    ensures Reachable(w')
    ensures var relay := EnterArming(w.relay, Millis(w.now), limit, purpose, AnyTrip(w.relay));
            w' == w.(hw := Stopped, hard := Idle, operational := Idle, relay := relay,
                     pc := HwStop(limit, relay.generation, w.now), closingAt := w.now, extended := false, slip := 0)
  {
    hide Reachable;
    Reach(w, BeginClose(limit, purpose, true));
    var w1 := Continues3(Next(w, BeginClose(limit, purpose, true)));
    var w2 := Continues(w1);
    w' := Continues(w2);
  }

  lemma StartsHw(w: World) returns (w': World)
    requires Reachable(w) && w.pc.HwStop? && w.hw == Stopped && 1 <= w.pc.limit
    ensures Reachable(w')
    ensures w' == w.(hw := Running(w.now + w.pc.limit), pc := HardStart(w.pc.limit, w.pc.generation, w.pc.at, true))
  {
    hide Reachable;
    var w1 := Continues(w);
    w' := Continues(w1);
  }

  lemma StartsTaskTimers(w: World) returns (w': World)
    requires Reachable(w) && w.pc.HardStart? && w.pc.armed && w.hard == Idle && w.operational == Idle
    requires w.pc.limit <= HARD_MAX_CIRCUIT_CLOSED_MS
    ensures Reachable(w')
    ensures w' == w.(hard := Armed(w.now + HARD_MAX_CIRCUIT_CLOSED_MS),
                     operational := if w.pc.limit < HARD_MAX_CIRCUIT_CLOSED_MS then Armed(w.now + w.pc.limit) else Idle,
                     pc := AtCommit(w.pc.limit, w.pc.generation, w.pc.at, true))
  {
    hide Reachable;
    var w1 := Continues(w);
    w' := Continues(w1);
  }

  // The rest of the close up to its commit.
  lemma StartsTimers(w: World) returns (w': World)
    requires Reachable(w) && w.pc.HwStop? && w.hw == Stopped && w.hard == Idle && w.operational == Idle
    requires 1 <= w.pc.limit <= HARD_MAX_CIRCUIT_CLOSED_MS
    ensures Reachable(w')
    ensures w' == w.(hw := Running(w.now + w.pc.limit), hard := Armed(w.now + HARD_MAX_CIRCUIT_CLOSED_MS),
                     operational := if w.pc.limit < HARD_MAX_CIRCUIT_CLOSED_MS then Armed(w.now + w.pc.limit) else Idle,
                     pc := AtCommit(w.pc.limit, w.pc.generation, w.pc.at, true))
  {
    hide Reachable;
    var w1 := StartsHw(w);
    w' := StartsTaskTimers(w1);
  }

  lemma Ticks(w: World, ms: nat) returns (w': World)
    requires Reachable(w) && ClockMay(w, ms)
    ensures Reachable(w') && w' == w.(now := w.now + ms)
  {
    hide Reachable;
    Reach(w, Tick(ms));
    w' := Next(w, Tick(ms));
  }

  // The operational timer expires and its callback stamps the time.
  lemma Stamps(w: World) returns (w': World)
    requires Reachable(w) && w.service == Resting && w.operational.Armed? && w.now >= w.operational.due
    ensures Reachable(w') && w' == w.(operational := Idle, service := Stamped(false, w.now))
  {
    hide Reachable;
    Reach(w, Dispatch(false));
    Reach(Next(w, Dispatch(false)), ReadStamp);
    w' := Next(Next(w, Dispatch(false)), ReadStamp);
  }

  // The callback gets the lock.
  lemma CallsBack(w: World) returns (w': World)
    requires Reachable(w) && w.service.Stamped? && !w.service.hard
    requires w.service.at < w.closingAt + 0x1_0000_0000
    ensures Reachable(w')
    ensures w' == w.(relay := OperationalCallback(w.relay, Millis(w.service.at)), service := Resting)
  {
    hide Reachable;
    Reach(w, CallbackSection);
    w' := Next(w, CallbackSection);
  }

  lemma PowerUpIsReachable()
    ensures Reachable(POWER_UP)
  {
    assert Run(POWER_UP, []) && After(POWER_UP, []) == POWER_UP;
  }

  const LIMIT: u32 := 1000

  lemma ClosesFromPowerUp(limit: u32, purpose: RelayPurpose) returns (w: World)
    requires ValidRequest(limit, purpose)
    ensures Reachable(w) && w.pc == Ready && w.now == 0 && w.relay.pinClosed && w.relay.state == CLOSED
    ensures w.relay.circuitClosed && !AnyTrip(w.relay) && w.relay.generation == 1
    ensures w.relay.closedAtMs == 0 && w.closingAt == 0 && w.energizedAt == 0 && w.relay.purpose == purpose
    ensures w.relay.operationalLimitMs == limit && w.relay.hardLimitMs == HARD_MAX_CIRCUIT_CLOSED_MS
    ensures w.hw == Running(limit) && w.hard == Armed(HARD_MAX_CIRCUIT_CLOSED_MS) && w.service == Resting
    ensures w.operational == if limit < HARD_MAX_CIRCUIT_CLOSED_MS then Armed(limit) else Idle
  {
    hide Reachable;
    PowerUpIsReachable();
    var w1 := Arms(POWER_UP, limit, purpose);
    var w2 := StartsTimers(w1);
    w := Continues(w2);
  }

  // A callback that stamped the time for the first close, and waited for the
  // lock until a second close was arming, cancels the second one at its age 0.
  lemma StaleStampCancelsLaterClose() returns (w: World)
    ensures Reachable(w) && w.pc.HwStop? && w.closingAt == w.now
    ensures w.relay.state == TRIPPED && w.relay.operationalTripped && w.relay.fault == OPERATIONAL_LIMIT
  {
    hide Reachable;
    var w1 := ClosesFromPowerUp(LIMIT, NORMAL);
    var w2 := Ticks(w1, LIMIT);
    var w3 := Stamps(w2);
    var w4 := DeadlinePasses(w3);
    var w5 := Ticks(w4, 1);
    var w6 := Arms(w5, LIMIT, NORMAL);
    w := CallsBack(w6);
  }

  // The interrupt fires and the control task consumes its flag.
  lemma DeadlinePasses(w: World) returns (w': World)
    requires Reachable(w) && w.pc == Ready && w.hw == Running(w.now) && w.relay.circuitClosed
    requires CommandedClosed(w.relay) && 0 < w.relay.operationalLimitMs < w.relay.hardLimitMs
    ensures Reachable(w') && w'.pc == Ready && w'.hw == Stopped && !AnyTrip(w'.relay)
    ensures !w'.relay.circuitClosed && w'.relay.state == TRIPPED
    ensures w'.now == w.now && w'.service == w.service
  {
    hide Reachable;
    Reach(w, HwAlarm);
    var w1 := Next(w, HwAlarm);
    Reach(w1, HwBody);
    var w2 := Next(w1, HwBody);
    Reach(w2, HwReturn);
    var w3 := Next(w2, HwReturn);
    Reach(w3, BeginConsume(false));
    w' := Continues3(Next(w3, BeginConsume(false)));
  }

  // A close that runs out of time before its commit leaves ARMING standing; a
  // trip its callback latches after the next close took its snapshot is
  // cleared by that close, and nobody consumes it.
  lemma ArmingClearsALaterTrip() returns (before: World, after: World)
    ensures Reachable(before) && AnyTrip(before.relay) && before.pc.AtArming? && !before.pc.preserve
    ensures after == Next(before, Continue(true)) && !AnyTrip(after.relay)
  {
    hide Reachable;
    var w1 := LeavesArmingStanding();
    var w2 := BeginsClose(w1);
    before := CallsBack(w2);
    after := Next(before, Continue(true));
  }

  // A lockout that another task trips while a close is being armed does not stop
  // that close: its arming section ends the lockout.
  lemma ArmingEndsALockout() returns (before: World, after: World)
    ensures Reachable(before) && before.relay.state == LOCKOUT && before.pc.AtArming?
    ensures after == Next(before, Continue(true)) && after.relay.state == ARMING && after.relay.fault == NONE
  {
    hide Reachable;
    PowerUpIsReachable();
    var w1 := BeginsClose(POWER_UP);
    Reach(w1, ForeignTrip(true));
    before := Next(w1, ForeignTrip(true));
    after := Next(before, Continue(true));
  }

  lemma MissesCommit(w: World) returns (w': World)
    requires Reachable(w) && w.pc.AtCommit? && w.pc.armed && !w.relay.circuitClosed
    requires Elapsed(Millis(w.now), Millis(w.pc.at)) >= w.pc.limit
    ensures Reachable(w') && w' == w.(pc := Stopping(3))
  {
    hide Reachable;
    w' := Continues(w);
  }

  lemma LeavesArmingStanding() returns (w: World)
    ensures Reachable(w) && w.pc == Ready && w.hw == Stopped && w.now == 1 && w.closingAt == 0
    ensures w.relay == EnterArming(AT_BOOT, 0, 1, NORMAL, false) && w.service == Stamped(false, 1)
  {
    hide Reachable;
    PowerUpIsReachable();
    var w1 := Arms(POWER_UP, 1, NORMAL);
    var w2 := StartsTimers(w1);
    var w3 := Ticks(w2, 1);
    var w4 := MissesCommit(w3);
    var w5 := Stamps(w4);
    w := Continues3(w5);
  }

  lemma BeginsClose(w: World) returns (w': World)
    requires Reachable(w) && w.pc == Ready && !w.relay.circuitClosed && w.relay.state != LOCKOUT && w.hw == Stopped
    ensures Reachable(w')
    ensures w' == w.(hard := Idle, operational := Idle, pc := AtArming(LIMIT, NORMAL, AnyTrip(w.relay), w.now))
  {
    hide Reachable;
    Reach(w, BeginClose(LIMIT, NORMAL, true));
    var w1 := Continues3(Next(w, BeginClose(LIMIT, NORMAL, true)));
    w' := Continues(w1);
  }

  lemma PromotesToRestart(w: World) returns (w': World)
    requires Reachable(w) && w.pc == Ready && w.now == 0 && w.hw.Running?
    requires MayPromote(w.relay, w.relay.generation, 0, 0) && w.relay.closedAtMs == 0
    ensures Reachable(w')
    ensures w' == w.(hw := Stopped,
                     pc := PromoteHwStart(w.relay.generation, 0, BACKFLUSH_MAX_CIRCUIT_CLOSED_MS, 0))
  {
    hide Reachable;
    Reach(w, BeginPromote(w.relay.generation));
    var w1 := Continues(Next(w, BeginPromote(w.relay.generation)));
    w' := Continues(w1);
  }

  lemma PromotesOn(w: World) returns (w': World)
    requires Reachable(w) && w.pc == PromoteHwStart(w.relay.generation, 0, BACKFLUSH_MAX_CIRCUIT_CLOSED_MS, 0)
    requires w.hard.Armed?
    ensures Reachable(w')
    ensures w' == w.(hw := Running(BACKFLUSH_MAX_CIRCUIT_CLOSED_MS + w.now), hard := Idle, extended := true,
                     slip := w.now, pc := PromoteHardStart(w.relay.generation, 0))
  {
    hide Reachable;
    var w1 := Continues(w);
    w' := Continues(w1);
  }

  lemma PromotesToTheEnd(w: World) returns (w': World)
    requires Reachable(w) && w.pc == PromoteHardStart(w.relay.generation, 0) && w.now < HARD_MAX_CIRCUIT_CLOSED_MS
    requires MayPromote(w.relay, w.relay.generation, 0, w.now)
    ensures Reachable(w') && w'.pc == Ready && w'.relay == Promote(w.relay) && w'.hw == w.hw && w'.now == w.now
    ensures w'.energizedAt == w.energizedAt && w'.extended == w.extended && w'.slip == w.slip
  {
    hide Reachable;
    var w1 := Continues(w);
    w' := Continues(w1);
  }

  // A promotion held up between computing its timeout and starting the timer,
  // for any time short of the hard limit, lets the relay stay energized that
  // much past 180 s.
  lemma PromotionOverrunsBySlip(slip: nat) returns (w: World)
    requires slip < HARD_MAX_CIRCUIT_CLOSED_MS
    ensures Reachable(w) && w.relay.pinClosed && Slip(w) == slip && Age(w) == 0
    ensures w.now - w.energizedAt == BACKFLUSH_MAX_CIRCUIT_CLOSED_MS + slip
  {
    hide Reachable;
    var w1 := ClosesFromPowerUp(HARD_MAX_CIRCUIT_CLOSED_MS, BACKFLUSH_CANDIDATE);
    var w2 := PromotesToRestart(w1);
    var w3 := Ticks(w2, slip);
    var w4 := PromotesOn(w3);
    var w5 := PromotesToTheEnd(w4);
    w := Ticks(w5, BACKFLUSH_MAX_CIRCUIT_CLOSED_MS);
  }
}
