// The one-shot deadline behind the relay's interrupt, and the timer states of
// the step system that its fields stand for.
module HardwareTimer {
  import opened RelayProtocol

  class IndependentSafetyTimer {
    var ready: bool
    var running: bool
    var callbackInFlight: bool
    var due: nat
    ghost var bodyRun: bool

    ghost predicate Sound()
      reads this
    {
      !(running && callbackInFlight) && (!ready ==> !running && !callbackInFlight)
    }

    ghost function View(): HwTimer
      reads this
    {
      if running then Running(due)
      else if !callbackInFlight then Stopped
      else if bodyRun then Returning else Firing(due)
    }

    constructor ()
      ensures Sound() && !ready && View() == Stopped
    {
      ready, running, callbackInFlight, due, bodyRun := false, false, false, 0, false;
    }

    method Begin(driverOk: bool) returns (ok: bool)
      requires Sound()
      modifies this`ready
      ensures Sound() && View() == old(View())
      ensures ok == (!old(ready) && driverOk) && ready == (old(ready) || ok)
    {
      ok := !ready && driverOk;
      if ok {
        ready := true;
      }
    }

    // Refused while the callback is in flight, or by the driver.
    method Stop(driverOk: bool) returns (ok: bool)
      requires Sound()
      modifies this`running
      ensures Sound()
      ensures ok == (!ready || (driverOk && !callbackInFlight))
      ensures View() == if ok then Stopped else old(View())
    {
      if !ready {
        return true;
      }
      if callbackInFlight || !driverOk {
        return false;
      }
      running := false;
      return true;
    }

    // Restarts the deadline `timeout` from now; a refused stop keeps the old one.
    method Arm(now: nat, timeout: nat, stops: bool, configures: bool, starts: bool) returns (ok: bool)
      requires Sound()
      modifies this
      ensures Sound() && ready == old(ready)
      ensures var stopped := ready && timeout != 0 && stops && !(old(View()).Firing? || old(View()).Returning?);
              && ok == (stopped && configures && starts)
              && View() == if ok then Running(now + timeout) else if stopped then Stopped else old(View())
    {
      if !ready || timeout == 0 {
        return false;
      }
      var stopped := Stop(stops);
      if !stopped || !configures {
        return false;
      }
      due := now + timeout;
      running := true;
      if !starts {
        running := false;
        return false;
      }
      return true;
    }

    // First half of the alarm interrupt: a timer no longer running is ignored.
    method AlarmEnters() returns (calls: bool)
      requires Sound()
      modifies this
      ensures Sound() && calls == old(View()).Running?
      ensures View() == if calls then Firing(old(due)) else old(View())
    {
      calls := running;
      if calls {
        running := false;
        callbackInFlight := true;
        bodyRun := false;
      }
    }

    method BodyRuns()
      requires Sound() && View().Firing?
      modifies this`bodyRun
      ensures Sound() && View() == Returning
    {
      bodyRun := true;
    }

    method AlarmReturns()
      requires Sound() && View().Returning?
      modifies this`callbackInFlight
      ensures Sound() && View() == Stopped
    {
      callbackInFlight := false;
    }
  }
}
