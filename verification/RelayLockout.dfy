// When the relay locks out, what ends a lockout, and that one stands over every
// run in which nobody ends it; what opening, arming and consuming leave latched.
module RelayLockout {
  import opened Bytes
  import opened RelaySections
  import opened RelayProtocol
  import opened RelaySafety

  // The step is the trip section of some task, with or without lockout.
  predicate TripsWith(w: World, s: Step, lockout: bool) {
    || (s.BeginTrip? && s.lockout == lockout) || (s.ForeignTrip? && s.lockout == lockout)
    || (s.Continue? && w.pc.AtTrip? && w.pc.lockout == lockout)
  }

  predicate EntersArming(w: World, s: Step) {
    s.Continue? && w.pc.AtArming?
  }

  predicate LocksOutExactly(w: World, s: Step)
    requires Enabled(w, s)
  {
    Next(w, s).relay.state == LOCKOUT <==>
      TripsWith(w, s, true) || (w.relay.state == LOCKOUT && !TripsWith(w, s, false) && !EntersArming(w, s))
  }

  lemma ClosingLockout(w: World, ok: bool)
    requires Arming(w.pc)
    ensures LocksOutExactly(w, Continue(ok))
  {
    hide Millis, Elapsed, ContinuePromote, ContinueRest;
  }

  lemma PromotingLockout(w: World, ok: bool)
    requires Promoting(w.pc)
    ensures LocksOutExactly(w, Continue(ok))
  {
    hide Millis, Elapsed, ContinueClose, ContinueRest;
  }

  lemma RestLockout(w: World, ok: bool)
    requires w.pc != Ready && !Arming(w.pc) && !Promoting(w.pc) && PinSafe(w.relay)
    ensures LocksOutExactly(w, Continue(ok))
  {
    hide Millis, Elapsed, ContinueClose, ContinuePromote;
  }

  lemma OtherLockout(w: World, s: Step)
    requires !s.Continue? && Enabled(w, s) && PinSafe(w.relay)
    ensures LocksOutExactly(w, s)
  {
    hide Millis, Elapsed, ContinueClose, ContinuePromote, ContinueRest, ValidRequest, MayPromote;
  }

  // Only a trip that asks for it locks out, no deadline does; and a lockout ends
  // exactly at a trip without lockout or at an arming section.
  lemma LockoutExactly(w: World, s: Step)
    requires Enabled(w, s) && PinSafe(w.relay)
    ensures w.relay.state != LOCKOUT ==> (Next(w, s).relay.state == LOCKOUT <==> TripsWith(w, s, true))
    ensures w.relay.state == LOCKOUT ==>
      (Next(w, s).relay.state != LOCKOUT <==> TripsWith(w, s, false) || EntersArming(w, s))
  {
    hide Next;
    if !s.Continue? {
      OtherLockout(w, s);
    } else if Arming(w.pc) {
      ClosingLockout(w, s.ok);
    } else if Promoting(w.pc) {
      PromotingLockout(w, s.ok);
    } else {
      RestLockout(w, s.ok);
    }
  }

  // ----- a lockout over runs -----

  // The control task is on no way that leads to an arming or to a trip without
  // lockout.
  predicate Harmless(pc: Pc) {
    match pc
    case Ready => true
    case Stopping(_) => true
    case AtTrip(_, _, _, lockout, _, _) => lockout
    case ServiceCheck(seen) => seen.state == LOCKOUT && !seen.circuitClosed
    case _ => false
  }

  predicate LockedOut(w: World) {
    w.relay.state == LOCKOUT && PinSafe(w.relay) && Harmless(w.pc)
  }

  lemma LockoutStep(w: World, s: Step)
    requires LockedOut(w) && Enabled(w, s) && !TripsWith(w, s, false)
    ensures LockedOut(Next(w, s))
  {
    hide Millis, Elapsed, ValidRequest, BackflushRest;
  }

  predicate NoMilderTrip(w: World, ss: seq<Step>)
    requires RelaySafety.Run(w, ss)
    decreases |ss|
  {
    ss != [] ==> !TripsWith(w, ss[0], false) && NoMilderTrip(Next(w, ss[0]), ss[1..])
  }

  // Locked out at rest, the relay stays locked out and open over every run of
  // closes, opens, promotions, timers and glitches without a trip that says otherwise.
  lemma {:induction false} LockoutStands(w: World, ss: seq<Step>)
    requires w.relay.state == LOCKOUT && PinSafe(w.relay) && Harmless(w.pc)
    requires RelaySafety.Run(w, ss) && NoMilderTrip(w, ss)
    ensures var r := After(w, ss).relay; r.state == LOCKOUT && !r.pinClosed && !r.circuitClosed
    decreases |ss|
  {
    hide Next, Enabled, Timely, Harmless, TripsWith;
    if ss != [] {
      LockoutStep(w, ss[0]);
      LockoutStands(Next(w, ss[0]), ss[1..]);
    }
  }

  // ----- opening, arming, consuming -----

  // An open leaves a trip or lockout standing, with its fault and flags.
  lemma OpenKeepsTheTrip(w: World)
    requires w.pc == Ready && PinSafe(w.relay)
    ensures var r := Next(w, BeginOpen).relay;
            && r.hardTripped == w.relay.hardTripped && r.operationalTripped == w.relay.operationalTripped
            && r.fault == w.relay.fault && !r.pinClosed && !r.circuitClosed && SameDeadlines(w.relay, r)
            && (r.state == w.relay.state
                <==> w.relay.state == TRIPPED || w.relay.state == LOCKOUT || w.relay.state == OPEN)
            && (r.state != w.relay.state ==> r.state == OPEN)
  {
  }

  // An arming forgets every flag and fault, or none.
  lemma ArmingForgetsAllOrNothing(w: World, ok: bool)
    requires w.pc.AtArming?
    ensures var r := Next(w, Continue(ok)).relay;
            if w.pc.preserve then r.hardTripped == w.relay.hardTripped && r.fault == w.relay.fault
                                  && r.operationalTripped == w.relay.operationalTripped
            else !r.hardTripped && !r.operationalTripped && r.fault == NONE
  {
  }

  // A consumption takes its own flag and nothing else, so a second one finds none.
  lemma ConsumedOnce(w: World, hard: bool)
    requires w.pc == Ready
    ensures var r := Next(w, BeginConsume(hard)).relay;
            && !(if hard then r.hardTripped else r.operationalTripped)
            && (if hard then r.operationalTripped == w.relay.operationalTripped
                else r.hardTripped == w.relay.hardTripped)
            && r.(hardTripped := w.relay.hardTripped, operationalTripped := w.relay.operationalTripped) == w.relay
  {
  }
}
