// The task timers around a close: stopped before they are started, so that
// arming fails only when a driver call does.
module RelayTimers {
  import opened Bytes
  import opened RelaySections
  import opened RelayProtocol
  import opened RelaySafety

  // What the stops so far have left idle, up to where the timers are started.
  predicate StoppedSoFar(w: World) {
    match w.pc
    case Stopping(left) => 1 <= left <= 3 && (left == 1 ==> w.hard.Idle?)
    case PreStop(left, _, _, _) => 1 <= left <= 3 && (left == 1 ==> w.hard.Idle?)
    case ReadClock(_, _, _) => w.hard.Idle? && w.operational.Idle?
    case AtArming(_, _, _, _) => w.hard.Idle? && w.operational.Idle?
    case HwStop(_, _, _) => w.hard.Idle? && w.operational.Idle?
    case HwStart(_, _, _) => w.hard.Idle? && w.operational.Idle?
    case HardStart(_, _, _, _) => w.hard.Idle? && w.operational.Idle?
    case OperationalStart(_, _, _, _) => w.operational.Idle?
    case _ => true
  }

  lemma ControlKeepsStops(w: World, s: Step)
    requires StoppedSoFar(w) && Enabled(w, s) && IsControl(s) && !s.Continue?
    ensures StoppedSoFar(Next(w, s))
  {
    hide Millis, Elapsed, ContinueClose, ContinuePromote, ContinueRest, ValidRequest, MayPromote;
  }

  lemma EnvironmentKeepsStops(w: World, s: Step)
    requires StoppedSoFar(w) && Enabled(w, s) && !IsControl(s)
    ensures StoppedSoFar(Next(w, s))
  {
    hide Millis, Elapsed, ContinueClose, ContinuePromote, ContinueRest;
  }

  lemma ContinueKeepsStops(w: World, ok: bool)
    requires StoppedSoFar(w) && Enabled(w, Continue(ok))
    ensures StoppedSoFar(Next(w, Continue(ok)))
  {
    hide Millis, Elapsed, MayPromote, EnterArming, RelaySections.Commit;
  }

  lemma {:induction false} RunKeepsStops(w: World, ss: seq<Step>)
    requires StoppedSoFar(w) && RelaySafety.Run(w, ss)
    ensures StoppedSoFar(After(w, ss))
    decreases |ss|
  {
    hide Next, Enabled, Timely, StoppedSoFar;
    if ss != [] {
      if ss[0].Continue? {
        ContinueKeepsStops(w, ss[0].ok);
      } else if IsControl(ss[0]) {
        ControlKeepsStops(w, ss[0]);
      } else {
        EnvironmentKeepsStops(w, ss[0]);
      }
      RunKeepsStops(Next(w, ss[0]), ss[1..]);
    }
  }

  // In every run since power-up a close finds its task timers idle when it starts
  // them, so each start fails exactly if the driver refuses it; and the timers
  // then run for the hard limit and the close's own.
  lemma StartsFailOnlyInTheDriver(ss: seq<Step>, ok: bool)
    requires RelaySafety.Run(POWER_UP, ss)
    ensures var w := After(POWER_UP, ss);
            && (w.pc.HardStart? ==>
                  var v := Next(w, Continue(ok));
                  v.pc.armed == (w.pc.armed && ok) && v.hard == if ok then Armed(w.now + 60000) else Idle)
            && (w.pc.OperationalStart? && w.pc.limit < 60000 ==>
                  var v := Next(w, Continue(ok));
                  v.pc.armed == (w.pc.armed && ok) && v.operational == if ok then Armed(w.now + w.pc.limit) else Idle)
            && (w.pc.OperationalStart? && w.pc.limit == 60000 ==>
                  Next(w, Continue(ok)).operational == Idle && Next(w, Continue(ok)).pc.armed == w.pc.armed)
  {
    hide Millis, Elapsed, RelaySafety.Run, After;
    RunKeepsStops(POWER_UP, ss);
  }

  // Every way of opening ends with both task timers stopped.
  lemma StoppingEndsIdle(ss: seq<Step>, ok: bool)
    requires RelaySafety.Run(POWER_UP, ss)
    ensures var w := After(POWER_UP, ss);
            w.pc == Stopping(1) ==>
              var v := Next(w, Continue(ok)); v.pc == Ready && v.hard == Idle && v.operational == Idle
  {
    hide Millis, Elapsed, RelaySafety.Run, After;
    RunKeepsStops(POWER_UP, ss);
  }
}
