// Learning the drip offset: the exponentially weighted update, and the evidence
// that decides when another gain would have predicted the observations better.
// Here the evidence is a value over the whole history of eligible observations;
// grams are exact.
module Ewma {

  const MAX_OFFSET_G := 5.0
  const WINDOW: nat := 20
  const CADENCE: nat := 5
  const SETTLED: nat := 10
  const WINS_TO_SWITCH: nat := 2
  const CANDIDATES: seq<nat> := [10, 30, 50, 100]
  // Index of the trajectory with the gain that was in use at the first observation.
  const CUSTOM: nat := 4
  const NO_WINNER: nat := 4

  function Clamp(grams: real): (c: real)
    ensures 0.0 <= c <= MAX_OFFSET_G
    ensures 0.0 <= grams <= MAX_OFFSET_G ==> c == grams
  {
    var capped := if grams < MAX_OFFSET_G then grams else MAX_OFFSET_G;
    if capped > 0.0 then capped else 0.0
  }

  predicate ValidAlpha(alpha: nat) {
    1 <= alpha <= 100
  }

  predicate Eligible(observation: real, alpha: nat) {
    -MAX_OFFSET_G <= observation <= MAX_OFFSET_G && ValidAlpha(alpha)
  }

  // The gain is in hundredths.
  function Share(gain: nat, error: real): real {
    gain as real / 100.0 * error
  }

  // One update of a prediction by an observation.
  function Step(gain: nat, prediction: real, observation: real): (p: real)
    ensures 0.0 <= p <= MAX_OFFSET_G
  {
    Clamp(prediction + Share(gain, observation - prediction))
  }

  // ----- the offset in use -----

  // A shot that stopped `offset` grams early and ended at `final` for `goal`.
  datatype Shot = Shot(final: real, goal: real, accepted: bool)

  function ObservationOf(offset: real, shot: Shot): real {
    offset + (shot.final - shot.goal)
  }

  predicate Learns(offset: real, shot: Shot, alpha: nat) {
    shot.accepted && Eligible(ObservationOf(offset, shot), alpha)
  }

  function LearnedOffset(offset: real, shot: Shot, alpha: nat): real {
    if Learns(offset, shot, alpha) then Clamp(offset + Share(alpha, shot.final - shot.goal)) else offset
  }

  // ----- trajectories -----

  // What a gain predicts after a history, from the seed.
  function Prediction(gain: nat, seed: real, history: seq<real>): real {
    if history == [] then seed
    else Step(gain, Prediction(gain, seed, history[..|history| - 1]), history[|history| - 1])
  }

  function Square(x: real): real {
    x * x
  }

  // Squared one-step errors of the observations from index `from` on.
  function ErrorsSince(gain: nat, seed: real, history: seq<real>, from: nat): real
    requires from <= |history|
  {
    if from == |history| then 0.0
    else
      var before := history[..|history| - 1];
      ErrorsSince(gain, seed, before, from) + Square(history[|history| - 1] - Prediction(gain, seed, before))
  }

  // ----- evidence -----

  // The eligible observations since the seed, and the gain in use at the first.
  datatype Log = Log(seed: real, initialAlpha: nat, history: seq<real>)

  datatype Evidence = Evidence(log: Log, sinceSwitch: nat, challenger: nat, wins: nat)

  const NO_EVIDENCE := Evidence(Log(0.0, 0, []), 0, 0, 0)

  function Gain(initialAlpha: nat, i: nat): nat
    requires i <= CUSTOM
  {
    if i < CUSTOM then CANDIDATES[i] else initialAlpha
  }

  // The trajectory a gain is judged by: its own if it is a candidate, otherwise
  // the one of the gain the first observation came with.
  function Incumbent(alpha: nat): (i: nat)
    ensures i <= CUSTOM && (i < CUSTOM <==> alpha in CANDIDATES) && (i < CUSTOM ==> CANDIDATES[i] == alpha)
  {
    if alpha == 10 then 0 else if alpha == 30 then 1 else if alpha == 50 then 2 else if alpha == 100 then 3 else CUSTOM
  }

  function Score(log: Log, i: nat): real
    requires i <= CUSTOM && |log.history| >= WINDOW
  {
    ErrorsSince(Gain(log.initialAlpha, i), log.seed, log.history, |log.history| - WINDOW)
  }

  // A candidate strictly below every other candidate and the incumbent, by at
  // least a tenth of the incumbent's score.
  predicate Beats(log: Log, alpha: nat, c: nat)
    requires |log.history| >= WINDOW
  {
    && c < CUSTOM && c != Incumbent(alpha)
    && (forall i :: 0 <= i < CUSTOM && i != c ==> Score(log, c) < Score(log, i))
    && Score(log, c) < Score(log, Incumbent(alpha))
    && Score(log, c) <= Score(log, Incumbent(alpha)) * 0.9
  }

  function Winner(log: Log, alpha: nat): (c: nat)
    requires |log.history| >= WINDOW
    ensures c <= NO_WINNER && (c < NO_WINNER ==> Beats(log, alpha, c))
  {
    if Beats(log, alpha, 0) then 0 else if Beats(log, alpha, 1) then 1
    else if Beats(log, alpha, 2) then 2 else if Beats(log, alpha, 3) then 3 else NO_WINNER
  }

  lemma {:induction false} WinnerIsUnique(log: Log, alpha: nat, c: nat)
    requires |log.history| >= WINDOW
    ensures Beats(log, alpha, c) <==> c < NO_WINNER && c == Winner(log, alpha)
  {
    hide Score;
  }

  datatype Judged = Judged(evidence: Evidence, alpha: nat)

  // Every fifth observation is an evaluation; a challenger that wins two in a
  // row, with the last switch ten observations back, becomes the gain in use.
  function Judge(e: Evidence, alpha: nat): (j: Judged)
    ensures j.evidence.log == e.log
  {
    if |e.log.history| < WINDOW || |e.log.history| % CADENCE != 0 then Judged(e, alpha)
    else
      var c := Winner(e.log, alpha);
      if c == NO_WINNER || e.sinceSwitch < SETTLED then Judged(e.(wins := 0), alpha)
      else
        var wins := if e.challenger == c then e.wins + 1 else 1;
        if wins < WINS_TO_SWITCH then Judged(e.(wins := wins, challenger := c), alpha)
        else Judged(e.(wins := 0, challenger := c, sinceSwitch := 0), CANDIDATES[c])
  }

  // The evidence with one more observation; the first one sets the seed.
  function Extended(e: Evidence, observation: real, seed: real, alpha: nat): Evidence {
    var log := if e.log.history == [] then Log(seed, alpha, []) else e.log;
    e.(log := log.(history := log.history + [observation]),
       sinceSwitch := if e.sinceSwitch < SETTLED then e.sinceSwitch + 1 else e.sinceSwitch)
  }

  function Observe(e: Evidence, observation: real, seed: real, alpha: nat): Judged {
    if !Eligible(observation, alpha) then Judged(e, alpha)
    else Judge(Extended(e, observation, seed, alpha), alpha)
  }
}
