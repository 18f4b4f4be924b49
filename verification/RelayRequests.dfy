// What the control task's calls come to when nothing interferes: which closes
// are refused and how, what re-driving the pin does, and how a promotion goes.
module RelayRequests {
  import opened Bytes
  import opened RelaySections
  import opened RelayProtocol
  import opened RelaySafety

  // ----- closing -----

  predicate WellRequested(limit: u32, purpose: RelayPurpose) {
    match purpose
    case NORMAL => 1 <= limit <= 60000
    case BACKFLUSH_CANDIDATE => limit == 60000
    case BACKFLUSH_CONFIRMED => false
  }

  // A close of the open circuit goes on to stop the timers exactly if its
  // request is sound, the relay is not locked out and its supervisors are there.
  // A locked-out relay changes nothing on a sound request; any other refusal
  // locks out, with its reason and no trip flag.
  lemma CloseGoesOnExactly(w: World, limit: u32, purpose: RelayPurpose, supervised: bool, ok: bool)
    requires w.pc == Ready && !w.relay.circuitClosed
    ensures var v := Next(w, BeginClose(limit, purpose, supervised));
            && (v.pc.PreStop? <==> WellRequested(limit, purpose) && w.relay.state != LOCKOUT && supervised)
            && (v.pc.PreStop? ==> v.(pc := Ready) == w && v.pc.left == 3 && v.pc.limit == limit
                                  && v.pc.purpose == purpose && (v.pc.preserve <==> AnyTrip(w.relay)))
            && (v == w <==> WellRequested(limit, purpose) && w.relay.state == LOCKOUT)
            && (!v.pc.PreStop? && v != w ==>
                  var r := Next(v, Continue(ok)).relay;
                  && r.state == LOCKOUT && !r.pinClosed && !r.circuitClosed
                  && r.fault == (if WellRequested(limit, purpose) then INITIALIZATION_FAILED else INVALID_LIMIT)
                  && r.hardTripped == w.relay.hardTripped && r.operationalTripped == w.relay.operationalTripped)
  {
  }

  // ----- re-driving the pin -----

  predicate Live(w: World) {
    && w.relay.circuitClosed && w.relay.state == CLOSED && w.relay.operationalLimitMs != 0
    && Elapsed(Millis(w.now), w.relay.closedAtMs) < w.relay.operationalLimitMs
  }

  // A re-drive of a live close leaves the pin closed if it obeys; a pin that does
  // not trips the relay with the hard flag and no lockout.
  lemma ReassertKeepsOrTrips(w: World, follows: bool, ok: bool)
    requires w.pc == Ready && Live(w)
    ensures var v := Next(w, BeginReassert(follows));
            if w.relay.pinClosed || follows then v == w.(relay := w.relay.(pinClosed := true))
            else
              var r := Next(v, Continue(ok)).relay;
              && r.state == TRIPPED && r.fault == GPIO_DESYNC && !r.pinClosed && !r.circuitClosed
              && r.hardTripped && r.operationalTripped == w.relay.operationalTripped
  {
  }

  // The service call re-drives a live close before it checks the deadline, and
  // leaves one that is in time as it is.
  lemma ServiceKeepsALiveClose(w: World, ok: bool)
    requires w.pc == Ready && Live(w)
    ensures var v := Next(Next(Next(w, BeginService), Continue(true)), Continue(ok));
            v == w.(relay := w.relay.(pinClosed := true))
  {
  }

  // Closing the closed circuit is a re-drive too.
  lemma CloseReassertsALiveClose(w: World, limit: u32, purpose: RelayPurpose, supervised: bool, ok: bool)
    requires w.pc == Ready && Live(w)
    ensures var v := Next(Next(Next(w, BeginClose(limit, purpose, supervised)), Continue(true)), Continue(ok));
            v == w.(relay := w.relay.(pinClosed := true))
  {
  }

  // ----- promoting -----

  // A promotion with every driver call granted restarts both timers for what is
  // left of 180 s and raises both limits.
  lemma PromotionTakesThreeMinutes(w: World)
    requires w.pc == Ready && MayPromote(w.relay, w.relay.generation, w.relay.closedAtMs, Millis(w.now))
    requires !w.hw.Firing? && !w.hw.Returning? && w.hard.Armed?
    ensures var left := 180000 - Elapsed(Millis(w.now), w.relay.closedAtMs);
            var v := Continued(Next(w, BeginPromote(w.relay.generation)), 6);
            && v.pc == Ready && v.hw == Running(w.now + left) && v.hard == Armed(w.now + left)
            && v.relay == w.relay.(purpose := BACKFLUSH_CONFIRMED, hardLimitMs := 180000, operationalLimitMs := 180000)
  {
    var w0 := Next(w, BeginPromote(w.relay.generation));
    var w1 := Next(w0, Continue(true));
    var closedAt := w.relay.closedAtMs;
    assert w1.pc == PromoteHwStop(w.relay.generation, closedAt, 180000 - Elapsed(Millis(w.now), closedAt), w.now);
    RestOfPromotion(w1);
    ContinuedFirst(w0, 6);
  }

  function Continued(w: World, n: nat): World
    decreases n
  {
    if n == 0 || w.pc == Ready then w else Continued(Next(w, Continue(true)), n - 1)
  }

  lemma RestOfPromotion(w: World)
    requires w.pc.PromoteHwStop? && w.pc.timeout != 0 && !w.hw.Firing? && !w.hw.Returning? && w.hard.Armed?
    requires MayPromote(w.relay, w.pc.generation, w.pc.closedAt, Millis(w.now))
    ensures var left := 180000 - Elapsed(Millis(w.now), w.pc.closedAt); var v := Continued(w, 5);
            && v.pc == Ready && v.hw == Running(w.now + w.pc.timeout) && v.hard == Armed(w.now + left)
            && v.relay == w.relay.(purpose := BACKFLUSH_CONFIRMED, hardLimitMs := 180000, operationalLimitMs := 180000)
  {
    hide Millis, Elapsed, Continued, MayPromote;
    var w1 := Next(w, Continue(true));
    var w2 := Next(w1, Continue(true));
    assert w2.pc == PromoteHardStop(w.pc.generation, w.pc.closedAt) && w2.hw == Running(w.now + w.pc.timeout);
    assert w2.relay == w.relay && w2.now == w.now && w2.hard == w.hard;
    LastOfPromotion(w2);
    ContinuedFirst(w, 5);
    ContinuedFirst(w1, 4);
  }

  lemma LastOfPromotion(w: World)
    requires w.pc.PromoteHardStop? && w.hard.Armed?
    requires MayPromote(w.relay, w.pc.generation, w.pc.closedAt, Millis(w.now))
    ensures var left := 180000 - Elapsed(Millis(w.now), w.pc.closedAt); var v := Continued(w, 3);
            && v.pc == Ready && v.hw == w.hw && v.hard == Armed(w.now + left)
            && v.relay == w.relay.(purpose := BACKFLUSH_CONFIRMED, hardLimitMs := 180000, operationalLimitMs := 180000)
  {
    hide Millis, Elapsed, Continued;
    var w1 := Next(w, Continue(true));
    var w2 := Next(w1, Continue(true));
    var w3 := Next(w2, Continue(true));
    ContinuedFirst(w, 3);
    ContinuedFirst(w1, 2);
    ContinuedFirst(w2, 1);
    assert Continued(w3, 0) == w3 by {
      ContinuedNone(w3);
    }
  }

  lemma ContinuedFirst(w: World, n: nat)
    requires w.pc != Ready && n > 0
    ensures Continued(w, n) == Continued(Next(w, Continue(true)), n - 1)
  {
  }

  lemma ContinuedNone(w: World)
    ensures Continued(w, 0) == w
  {
  }

  // One that finds no time left, or is refused a timer, or whose close was
  // interfered with, opens the relay and locks it out.
  lemma PromotionFailsOpen(w: World, ok: bool, okAgain: bool)
    requires w.pc.PromoteCommit?
    requires !w.pc.armed || !MayPromote(w.relay, w.pc.generation, w.pc.closedAt, Millis(w.now))
    ensures var r := Next(Next(w, Continue(ok)), Continue(okAgain)).relay;
            && r.state == LOCKOUT && r.fault == TIMER_ARM_FAILED && !r.pinClosed && !r.circuitClosed
            && r.hardTripped == w.relay.hardTripped && r.operationalTripped == w.relay.operationalTripped
  {
    hide Millis, Elapsed, ContinueClose;
  }

  lemma PromotionArmsExactly(w: World, ok: bool)
    requires w.pc.PromoteHwStop? || w.pc.PromoteHwStart? || w.pc.PromoteHardStop? || w.pc.PromoteHardStart?
    ensures var v := Next(w, Continue(ok));
            (v.pc.PromoteCommit? && !v.pc.armed) <==>
              match w.pc
              case PromoteHwStop(_, _, timeout, _) => timeout == 0 || !ok || w.hw.Firing? || w.hw.Returning?
              case PromoteHwStart(_, _, _, _) => !ok
              case PromoteHardStop(_, _) => !ok || w.hard.Idle?
              case _ => !ok || Elapsed(Millis(w.now), w.pc.closedAt) >= 60000
  {
  }
}
