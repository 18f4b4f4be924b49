// What a run of observations guarantees: when the gain may switch and why, by
// which trajectory it is judged, and what the learnt offset predicts.
module EwmaRuns {
  import opened Ewma

  datatype Call = Call(observation: real, seed: real, alpha: nat)

  // A run from no evidence: the evidence, the gain each eligible call came with,
  // and the history lengths at which a call answered with another gain.
  datatype Run = Run(evidence: Evidence, alphas: seq<nat>, switches: seq<nat>) {
    function Length(): nat {
      |evidence.log.history|
    }

    function LastSwitch(): nat {
      if switches == [] then 0 else switches[|switches| - 1]
    }
  }

  function After(r: Run, call: Call): Run {
    var judged := Observe(r.evidence, call.observation, call.seed, call.alpha);
    Run(judged.evidence,
        if Eligible(call.observation, call.alpha) then r.alphas + [call.alpha] else r.alphas,
        if judged.alpha != call.alpha then r.switches + [|judged.evidence.log.history|] else r.switches)
  }

  function RunOf(calls: seq<Call>): Run {
    if calls == [] then Run(NO_EVIDENCE, [], [])
    else After(RunOf(calls[..|calls| - 1]), calls[|calls| - 1])
  }

  // The log as it stood after its first n observations.
  function FirstOf(log: Log, n: nat): Log
    requires n <= |log.history|
  {
    log.(history := log.history[..n])
  }

  // The challenger beat the incumbent trajectory at the evaluation after n
  // observations.
  ghost predicate WonAt(log: Log, alphas: seq<nat>, n: nat, challenger: nat)
    ensures WonAt(log, alphas, n, challenger) ==> WINDOW <= n <= |log.history|
  {
    WINDOW <= n <= |log.history| && n <= |alphas| && Beats(FirstOf(log, n), alphas[n - 1], challenger)
  }

  ghost predicate Spaced(switches: seq<nat>) {
    && (forall i :: 0 <= i < |switches| ==> switches[i] % CADENCE == 0 && switches[i] >= WINDOW + CADENCE)
    && (forall i :: 0 < i < |switches| ==> switches[i] >= switches[i - 1] + SETTLED + CADENCE)
  }

  // Observations since the last switch, as far as the evidence counts them.
  function Since(r: Run): int {
    var n := r.Length() - r.LastSwitch();
    if n < SETTLED then n else SETTLED
  }

  ghost predicate Inv(r: Run) {
    var n := r.Length();
    var evaluated := n - n % CADENCE;
    && |r.alphas| == n && r.LastSwitch() <= n
    && r.evidence.sinceSwitch == Since(r) && r.evidence.wins < WINS_TO_SWITCH
    && (r.evidence.wins == 1 ==>
          evaluated >= r.LastSwitch() + SETTLED && WonAt(r.evidence.log, r.alphas, evaluated, r.evidence.challenger))
    && Spaced(r.switches)
  }

  // A win stays a win when the log grows.
  lemma WinStays(log: Log, longer: Log, alphas: seq<nat>, more: seq<nat>, n: nat, challenger: nat)
    requires WonAt(log, alphas, n, challenger)
    requires longer.seed == log.seed && longer.initialAlpha == log.initialAlpha
    requires log.history <= longer.history && alphas <= more
    ensures WonAt(longer, more, n, challenger)
  {
    hide Beats;
    assert FirstOf(longer, n) == FirstOf(log, n);
  }

  lemma {:induction false} AfterKeepsInv(r: Run, call: Call)
    requires Inv(r)
    ensures Inv(After(r, call))
  {
    hide Beats, Judge;
    if Eligible(call.observation, call.alpha) {
      var e := Extended(r.evidence, call.observation, call.seed, call.alpha);
      if r.evidence.wins == 1 {
        var n := r.Length();
        WinStays(r.evidence.log, e.log, r.alphas, r.alphas + [call.alpha], n - n % CADENCE, r.evidence.challenger);
      }
      JudgeKeepsInv(r, e, call.alpha);
    }
  }

  // One evaluation, from the observation before it.
  lemma {:induction false} JudgeKeepsInv(r: Run, e: Evidence, alpha: nat)
    requires Inv(r) && |e.log.history| == r.Length() + 1
    requires e.challenger == r.evidence.challenger && e.wins == r.evidence.wins
    requires e.sinceSwitch == if r.evidence.sinceSwitch < SETTLED then r.evidence.sinceSwitch + 1 else SETTLED
    requires e.wins == 1 ==>
      WonAt(e.log, r.alphas + [alpha], r.Length() - r.Length() % CADENCE, e.challenger)
    ensures var j := Judge(e, alpha);
            Inv(Run(j.evidence, r.alphas + [alpha],
                    if j.alpha != alpha then r.switches + [|e.log.history|] else r.switches))
  {
    hide Beats, Winner, WonAt;
    var n := |e.log.history|;
    if n >= WINDOW && n % CADENCE == 0 {
      WinnerWins(e.log, r.alphas, alpha);
      WinnerIsNotInUse(e.log, alpha);
    }
  }

  // What a winner at the end of a log has won.
  lemma WinnerWins(log: Log, alphas: seq<nat>, alpha: nat)
    requires |log.history| >= WINDOW && |alphas| + 1 == |log.history|
    ensures Winner(log, alpha) < NO_WINNER ==> WonAt(log, alphas + [alpha], |log.history|, Winner(log, alpha))
  {
    hide Beats, Winner;
    assert FirstOf(log, |log.history|) == log;
  }

  lemma WinnerIsNotInUse(log: Log, alpha: nat)
    requires |log.history| >= WINDOW
    ensures Winner(log, alpha) < NO_WINNER ==> CANDIDATES[Winner(log, alpha)] != alpha
  {
    hide Score, Winner;
    var c := Winner(log, alpha);
    if c < NO_WINNER {
      assert Beats(log, alpha, c);
    }
  }

  lemma {:induction false} RunKeepsInv(calls: seq<Call>)
    ensures Inv(RunOf(calls))
  {
    hide Inv, After;
    if calls == [] {
      EmptyRunInv();
    } else {
      RunKeepsInv(calls[..|calls| - 1]);
      AfterKeepsInv(RunOf(calls[..|calls| - 1]), calls[|calls| - 1]);
    }
  }

  lemma EmptyRunInv()
    ensures Inv(Run(NO_EVIDENCE, [], []))
  {
  }

  // Whatever is observed, a gain switches only at every fifth observation, never
  // before the 25th, and at least fifteen observations after the last switch.
  lemma {:induction false} SwitchesAreSpaced(calls: seq<Call>)
    ensures Spaced(RunOf(calls).switches)
  {
    RunKeepsInv(calls);
  }

  // A call answers with another gain only after the same candidate beat the
  // incumbent trajectory at this evaluation and at the one five observations
  // earlier.
  lemma {:induction false} SwitchNeedsTwoWins(calls: seq<Call>, call: Call)
    ensures var before := RunOf(calls);
            var after := After(before, call);
            var answer := Observe(before.evidence, call.observation, call.seed, call.alpha).alpha;
            var n := after.Length();
            answer != call.alpha ==>
              exists c :: 0 <= c < |CANDIDATES| && answer == CANDIDATES[c] && n >= CADENCE
                       && WonAt(after.evidence.log, after.alphas, n, c)
                       && WonAt(after.evidence.log, after.alphas, n - CADENCE, c)
  {
    hide Beats, Winner, RunOf, WonAt;
    RunKeepsInv(calls);
    var before := RunOf(calls);
    var answer := Observe(before.evidence, call.observation, call.seed, call.alpha).alpha;
    if answer != call.alpha {
      var e := Extended(before.evidence, call.observation, call.seed, call.alpha);
      var n := |e.log.history|;
      var c := Winner(e.log, call.alpha);
      WinnerWins(e.log, before.alphas, call.alpha);
      WinStays(before.evidence.log, e.log, before.alphas, before.alphas + [call.alpha], n - CADENCE, c);
    }
  }

  // ----- the incumbent trajectory -----

  // The incumbent trajectory is the one of the gain in use exactly if that gain
  // is a candidate or the gain of the first observation.
  lemma JudgedByItselfExactly(initialAlpha: nat, alpha: nat)
    ensures Gain(initialAlpha, Incumbent(alpha)) == alpha <==> alpha in CANDIDATES || alpha == initialAlpha
  {
  }

  // Any other gain that evidence is kept over is judged by the first one.
  lemma AnotherGainIsJudgedByTheFirst()
    ensures var r := RunOf([Call(1.0, 1.0, 20), Call(1.0, 1.0, 40)]);
            && r.alphas == [20, 40] && r.evidence.log.initialAlpha == 20
            && Gain(r.evidence.log.initialAlpha, Incumbent(40)) == 20
  {
    var first, second := Call(1.0, 1.0, 20), Call(1.0, 1.0, 40);
    assert [first, second][..1] == [first];
    assert [first][..0] == [];
    assert RunOf([first]) == After(RunOf([]), first);
  }

  // ----- learning shot by shot -----

  // An observation learnt from, with the gain it was learnt with.
  datatype Learnt = Learnt(alpha: nat, observation: real)

  // The offset and gain in use, the evidence, and what was learnt so far.
  datatype Learning = Learning(offset: real, alpha: nat, evidence: Evidence, learnt: seq<Learnt>)

  // One finished shot: the offset moves by the gain in use, and the evidence may
  // answer with another gain for the next one.
  function Finished(l: Learning, shot: Shot): Learning {
    if !Learns(l.offset, shot, l.alpha) then l
    else
      var observation := ObservationOf(l.offset, shot);
      var judged := Observe(l.evidence, observation, l.offset, l.alpha);
      Learning(LearnedOffset(l.offset, shot, l.alpha), judged.alpha, judged.evidence,
               l.learnt + [Learnt(l.alpha, observation)])
  }

  function LearningAfter(offset: real, alpha: nat, shots: seq<Shot>): Learning {
    if shots == [] then Learning(offset, alpha, NO_EVIDENCE, [])
    else Finished(LearningAfter(offset, alpha, shots[..|shots| - 1]), shots[|shots| - 1])
  }

  // What a series of gains predicts, each for its own observation.
  function MixedPrediction(seed: real, learnt: seq<Learnt>): real {
    if learnt == [] then seed
    else
      var last := learnt[|learnt| - 1];
      Step(last.alpha, MixedPrediction(seed, learnt[..|learnt| - 1]), last.observation)
  }

  function Observations(learnt: seq<Learnt>): (o: seq<real>)
    ensures |o| == |learnt|
  {
    seq(|learnt|, i requires 0 <= i < |learnt| => learnt[i].observation)
  }

  lemma LearningIsAStep(offset: real, shot: Shot, alpha: nat)
    requires Learns(offset, shot, alpha)
    ensures LearnedOffset(offset, shot, alpha) == Step(alpha, offset, ObservationOf(offset, shot))
  {
    hide Clamp, Share;
    assert ObservationOf(offset, shot) - offset == shot.final - shot.goal;
  }

  // What the offset and the evidence have in common after a run of shots.
  predicate InStep(l: Learning, offset: real, alpha: nat) {
    && l.offset == MixedPrediction(offset, l.learnt)
    && l.evidence.log.history == Observations(l.learnt)
    && (if l.learnt == [] then l.alpha == alpha
        else l.evidence.log.seed == offset && l.evidence.log.initialAlpha == alpha)
    && (l.alpha in CANDIDATES || l.alpha == alpha)
  }

  lemma FinishedStaysInStep(l: Learning, shot: Shot, offset: real, alpha: nat)
    requires InStep(l, offset, alpha)
    ensures InStep(Finished(l, shot), offset, alpha)
  {
    hide Step, Clamp, Share, Winner, LearnedOffset;
    if Learns(l.offset, shot, l.alpha) {
      LearningIsAStep(l.offset, shot, l.alpha);
      var learnt := l.learnt + [Learnt(l.alpha, ObservationOf(l.offset, shot))];
      assert learnt[..|l.learnt|] == l.learnt;
      assert Observations(learnt) == Observations(l.learnt) + [ObservationOf(l.offset, shot)];
    }
  }

  // However the gain switches and whatever shots are refused in between: the
  // offset in use is the prediction of the gains in use after the observations
  // learnt from, the evidence holds those observations from the first offset on,
  // and the gain in use is judged by its own trajectory.
  lemma {:induction false} OffsetFollowsItsGains(offset: real, alpha: nat, shots: seq<Shot>)
    ensures var l := LearningAfter(offset, alpha, shots);
            && InStep(l, offset, alpha)
            && (l.learnt != [] ==> Gain(l.evidence.log.initialAlpha, Incumbent(l.alpha)) == l.alpha)
  {
    hide InStep, Finished;
    if shots != [] {
      OffsetFollowsItsGains(offset, alpha, shots[..|shots| - 1]);
      FinishedStaysInStep(LearningAfter(offset, alpha, shots[..|shots| - 1]), shots[|shots| - 1], offset, alpha);
    } else {
      NothingLearnt(offset, alpha);
    }
    InStepIsJudgedByItself(LearningAfter(offset, alpha, shots), offset, alpha);
  }

  lemma NothingLearnt(offset: real, alpha: nat)
    ensures InStep(Learning(offset, alpha, NO_EVIDENCE, []), offset, alpha)
  {
  }

  lemma InStepIsJudgedByItself(l: Learning, offset: real, alpha: nat)
    requires InStep(l, offset, alpha)
    ensures l.learnt != [] ==> Gain(l.evidence.log.initialAlpha, Incumbent(l.alpha)) == l.alpha
  {
    JudgedByItselfExactly(alpha, l.alpha);
  }

  // Without a switch that is the trajectory of the one gain.
  lemma {:induction false} OneGainPredicts(seed: real, alpha: nat, learnt: seq<Learnt>)
    requires forall i :: 0 <= i < |learnt| ==> learnt[i].alpha == alpha
    ensures MixedPrediction(seed, learnt) == Prediction(alpha, seed, Observations(learnt))
  {
    hide Step;
    if learnt != [] {
      var before := learnt[..|learnt| - 1];
      OneGainPredicts(seed, alpha, before);
      assert Observations(learnt)[..|before|] == Observations(before);
    }
  }
}
