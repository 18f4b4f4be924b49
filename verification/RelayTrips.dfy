// Which limit a trip names: the flag and the fault that each of the relay's
// deadlines latches, and the limit the close was asked for.
module RelayTrips {
  import opened Bytes
  import opened RelaySections
  import opened RelayProtocol
  import opened RelaySafety

  // ----- single steps -----

  // The interrupt on a commanded close latches the flag of the limit that was
  // due, alone: the close's own if it was given one below the hard limit.
  lemma InterruptNamesTheLimit(w: World)
    requires w.hw.Firing? && CommandedClosed(w.relay) && w.relay.hardLimitMs != 0
    ensures var own := w.relay.operationalLimitMs < w.relay.hardLimitMs; var r := Next(w, HwBody).relay;
            && (r.operationalTripped <==> own) && (r.hardTripped <==> !own) && r.state == TRIPPED
            && r.fault == if own then OPERATIONAL_LIMIT else HARD_LIMIT
  {
  }

  // A re-drive that finds the close expired adds the same flag.
  lemma ReassertNamesTheLimit(w: World, follows: bool)
    requires w.pc == Ready && w.relay.circuitClosed && w.relay.operationalLimitMs != 0
    requires Elapsed(Millis(w.now), w.relay.closedAtMs) >= w.relay.operationalLimitMs
    ensures var own := w.relay.operationalLimitMs < w.relay.hardLimitMs; var r := Next(w, BeginReassert(follows)).relay;
            && (r.operationalTripped <==> w.relay.operationalTripped || own)
            && (r.hardTripped <==> w.relay.hardTripped || !own)
            && r.fault == (if own then OPERATIONAL_LIMIT else HARD_LIMIT) && !r.pinClosed && !r.circuitClosed
  {
  }

  // So does the deadline check of the control task, on the state it has seen.
  lemma ServiceNamesTheLimit(w: World, ok: bool, okAgain: bool)
    requires w.pc.ServiceCheck? && (w.pc.seen.state == ARMING || w.pc.seen.circuitClosed)
    requires w.pc.seen.operationalLimitMs != 0
    requires Elapsed(Millis(w.now), w.pc.seen.closedAtMs) >= w.pc.seen.operationalLimitMs
    ensures var own := w.pc.seen.operationalLimitMs < w.pc.seen.hardLimitMs;
            var checked := Next(w, Continue(ok)); var r := Next(checked, Continue(okAgain)).relay;
            && (r.operationalTripped <==> w.relay.operationalTripped || own)
            && (r.hardTripped <==> w.relay.hardTripped || !own)
            && r.fault == (if own then OPERATIONAL_LIMIT else HARD_LIMIT) && !r.pinClosed && !r.circuitClosed
  {
  }

  // A task timer's callback latches its own flag or changes nothing.
  lemma CallbackNamesItsLimit(w: World)
    requires w.service.Stamped?
    ensures var hard := w.service.hard; var r := Next(w, CallbackSection).relay;
            r != w.relay ==>
              && (r.hardTripped <==> w.relay.hardTripped || hard)
              && (r.operationalTripped <==> w.relay.operationalTripped || !hard)
              && r.fault == if hard then HARD_LIMIT else OPERATIONAL_LIMIT
  {
  }

  // ----- where the limits come from -----

  predicate LimitsStay(before: Relay, r: Relay) {
    r.operationalLimitMs == before.operationalLimitMs && r.hardLimitMs == before.hardLimitMs
    && r.purpose == before.purpose
  }

  predicate LimitsPromoted(before: Relay, r: Relay) {
    before.purpose == BACKFLUSH_CANDIDATE && r.purpose == BACKFLUSH_CONFIRMED
    && r.operationalLimitMs == r.hardLimitMs == BACKFLUSH_MAX_CIRCUIT_CLOSED_MS
  }

  lemma SectionsKeepLimits(r: Relay, fault: RelaySafetyFault, hard: bool, operational: bool, lockout: bool, at: u32,
                           now: u32, limit: u32, flag: bool, generation: u32)
    ensures LimitsStay(r, TripLocked(r, fault, hard, operational, lockout)) && LimitsStay(r, DeadlineIsr(r))
    ensures LimitsStay(r, HardCallback(r, at)) && LimitsStay(r, OperationalCallback(r, at))
    ensures LimitsStay(r, Commit(r, generation, at, now, limit)) && LimitsStay(r, OpenCircuit(r))
    ensures LimitsStay(r, Reassert(r, now, flag)) && LimitsStay(r, Consume(r, flag))
  {
  }

  lemma ClosingLimits(w: World, ok: bool)
    requires Arming(w.pc)
    ensures var r := Next(w, Continue(ok)).relay;
            if w.pc.AtArming? then
              r.operationalLimitMs == w.pc.limit && r.hardLimitMs == HARD_MAX_CIRCUIT_CLOSED_MS
              && r.purpose == w.pc.purpose
            else LimitsStay(w.relay, r)
  {
    hide Millis, Elapsed, ContinuePromote, ContinueRest, RelaySections.Commit;
    if w.pc.AtCommit? {
      SectionsKeepLimits(w.relay, NONE, false, false, false, Millis(w.pc.at), Millis(w.now), w.pc.limit, false,
                         w.pc.generation);
    }
  }

  lemma PromotingLimits(w: World, ok: bool)
    requires Promoting(w.pc)
    ensures LimitsStay(w.relay, Next(w, Continue(ok)).relay) || LimitsPromoted(w.relay, Next(w, Continue(ok)).relay)
  {
    hide Millis, Elapsed, ContinueClose, ContinueRest;
  }

  lemma RestLimits(w: World, ok: bool)
    requires w.pc != Ready && !Arming(w.pc) && !Promoting(w.pc)
    ensures LimitsStay(w.relay, Next(w, Continue(ok)).relay)
  {
    hide Millis, Elapsed, ContinueClose, ContinuePromote;
  }

  lemma OtherLimits(w: World, s: Step)
    requires !s.Continue? && Enabled(w, s)
    ensures LimitsStay(w.relay, Next(w, s).relay)
  {
    hide Millis, Elapsed, ContinueClose, ContinuePromote, ContinueRest, ValidRequest, MayPromote;
  }

  // The limits are those of the request the last arming section was for, until
  // a promotion replaces both.
  lemma LimitsAreRequested(w: World, s: Step)
    requires Enabled(w, s)
    ensures var r := Next(w, s).relay;
            if w.pc.AtArming? && s.Continue? then
              r.operationalLimitMs == w.pc.limit && r.hardLimitMs == HARD_MAX_CIRCUIT_CLOSED_MS
              && r.purpose == w.pc.purpose
            else LimitsStay(w.relay, r) || LimitsPromoted(w.relay, r)
  {
    hide Next, LimitsStay, LimitsPromoted;
    if !s.Continue? {
      OtherLimits(w, s);
    } else if Arming(w.pc) {
      ClosingLimits(w, s.ok);
    } else if Promoting(w.pc) {
      PromotingLimits(w, s.ok);
    } else {
      RestLimits(w, s.ok);
    }
  }

  // No close is armed on the way.
  predicate NoArming(w: World, ss: seq<Step>)
    requires RelaySafety.Run(w, ss)
    decreases |ss|
  {
    ss != [] ==> !(w.pc.AtArming? && ss[0].Continue?) && NoArming(Next(w, ss[0]), ss[1..])
  }

  lemma {:induction false} RequestStands(w: World, ss: seq<Step>)
    requires RelaySafety.Run(w, ss) && NoArming(w, ss) && w.relay.purpose != BACKFLUSH_CANDIDATE
    ensures var r := After(w, ss).relay;
            && r.operationalLimitMs == w.relay.operationalLimitMs && r.hardLimitMs == w.relay.hardLimitMs
            && r.purpose == w.relay.purpose
    decreases |ss|
  {
    hide Next, Enabled, Timely;
    if ss != [] {
      LimitsAreRequested(w, ss[0]);
      RequestStands(Next(w, ss[0]), ss[1..]);
    }
  }

  // ----- over runs -----

  // In every run since power-up an interrupt that opens a close latches the hard
  // flag exactly if the close had no shorter limit of its own.
  lemma InterruptFlagOverRuns(ss: seq<Step>)
    requires RelaySafety.Run(POWER_UP, ss)
    ensures var w := After(POWER_UP, ss);
            w.hw.Firing? && CommandedClosed(w.relay) ==>
              var r := Next(w, HwBody).relay;
              && (r.hardTripped <==> w.relay.operationalLimitMs == w.relay.hardLimitMs)
              && (r.operationalTripped <==> w.relay.operationalLimitMs < w.relay.hardLimitMs)
  {
    hide Next;
    var w := After(POWER_UP, ss);
    RunKeepsInv(POWER_UP, ss);
    LimitsOfInv(w);
    if w.hw.Firing? && CommandedClosed(w.relay) {
      InterruptNamesTheLimit(w);
    }
  }

  lemma LimitsOfInv(w: World)
    requires Inv(w)
    ensures 0 < w.relay.operationalLimitMs <= w.relay.hardLimitMs
  {
  }

  // A normal close opened by the interrupt reports the limit it was asked for,
  // whatever ran since its arming.
  lemma InterruptNamesTheRequest(w: World, ok: bool, ss: seq<Step>)
    requires w.pc.AtArming? && w.pc.purpose == NORMAL && Enabled(w, Continue(ok))
    requires RelaySafety.Run(Next(w, Continue(ok)), ss) && NoArming(Next(w, Continue(ok)), ss)
    ensures var v := After(Next(w, Continue(ok)), ss);
            v.hw.Firing? && CommandedClosed(v.relay) ==>
              var r := Next(v, HwBody).relay;
              && (r.operationalTripped <==> w.pc.limit < HARD_MAX_CIRCUIT_CLOSED_MS)
              && (r.hardTripped <==> w.pc.limit >= HARD_MAX_CIRCUIT_CLOSED_MS)
              && r.fault == if w.pc.limit < HARD_MAX_CIRCUIT_CLOSED_MS then OPERATIONAL_LIMIT else HARD_LIMIT
  {
    hide Next;
    var armed := Next(w, Continue(ok));
    LimitsAreRequested(w, Continue(ok));
    RequestStands(armed, ss);
    var v := After(armed, ss);
    if v.hw.Firing? && CommandedClosed(v.relay) {
      InterruptNamesTheLimit(v);
    }
  }
}
