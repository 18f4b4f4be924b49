// What a gain means: the share of an error that one observation closes.
module EwmaLaws {
  import opened Ewma

  predicate InRange(grams: real) {
    0.0 <= grams <= MAX_OFFSET_G
  }

  // Nothing beyond the range is ever predicted, and what is in it stays.
  lemma ClampExactly(grams: real)
    ensures Clamp(grams) == if grams < 0.0 then 0.0 else if grams > 5.0 then 5.0 else grams
  {
  }

  // At gain 100 the prediction is the observation itself.
  lemma FullGainPredictsTheLast(prediction: real, observation: real)
    ensures Step(100, prediction, observation)
         == if observation < 0.0 then 0.0 else if observation > 5.0 then 5.0 else observation
  {
  }

  function Left(gain: nat): real {
    (100 - gain) as real / 100.0
  }

  lemma LeftOver(gain: nat, error: real)
    ensures error - Share(gain, error) == Left(gain) * error
  {
    assert Left(gain) == 1.0 - gain as real / 100.0;
    assert (1.0 - gain as real / 100.0) * error == error - gain as real / 100.0 * error;
  }

  lemma ShareBetween(gain: nat, error: real)
    requires gain <= 100
    ensures error >= 0.0 ==> 0.0 <= Share(gain, error) <= error
    ensures error <= 0.0 ==> error <= Share(gain, error) <= 0.0
  {
    var g := gain as real / 100.0;
    assert 0.0 <= g <= 1.0;
    ProductBetween(g, error);
  }

  lemma ProductBetween(g: real, error: real)
    requires 0.0 <= g <= 1.0
    ensures error >= 0.0 ==> 0.0 <= g * error <= error
    ensures error <= 0.0 ==> error <= g * error <= 0.0
  {
  }

  // Within the range an observation leaves exactly (100 - gain)/100 of the error.
  lemma StepClosesItsShare(gain: nat, prediction: real, observation: real)
    requires gain <= 100 && InRange(prediction) && InRange(observation)
    ensures observation - Step(gain, prediction, observation) == Left(gain) * (observation - prediction)
  {
    hide Share;
    ShareBetween(gain, observation - prediction);
    LeftOver(gain, observation - prediction);
  }

  function Power(x: real, k: nat): real {
    if k == 0 then 1.0 else Power(x, k - 1) * x
  }

  lemma Regroup(x: real, y: real, z: real)
    ensures y * (x * z) == x * y * z
  {
  }

  // A drip that stays the same is learnt geometrically: after k observations of
  // it, (100 - gain)/100 to the power k of the first error is left.
  lemma {:induction false} SteadyDripIsLearnt(gain: nat, seed: real, drip: real, history: seq<real>)
    requires gain <= 100 && InRange(seed) && InRange(drip)
    requires forall i :: 0 <= i < |history| ==> history[i] == drip
    ensures drip - Prediction(gain, seed, history) == Power(Left(gain), |history|) * (drip - seed)
    ensures InRange(Prediction(gain, seed, history))
  {
    hide Step, Left;
    if history != [] {
      var before := history[..|history| - 1];
      SteadyDripIsLearnt(gain, seed, drip, before);
      StepClosesItsShare(gain, Prediction(gain, seed, before), drip);
      Regroup(Power(Left(gain), |before|), Left(gain), drip - seed);
    }
  }

  // The offset in use moves as the predictions do: a shot that ended off its goal
  // changes it by gain/100 of that miss, within the range.
  lemma LearningClosesItsShare(offset: real, shot: Shot, alpha: nat)
    requires Learns(offset, shot, alpha) && InRange(offset) && InRange(ObservationOf(offset, shot))
    ensures var next := LearnedOffset(offset, shot, alpha);
            next - offset == alpha as real / 100.0 * (shot.final - shot.goal)
            && (shot.final > shot.goal ==> next > offset) && (shot.final < shot.goal ==> next < offset)
  {
    hide Share;
    ShareBetween(alpha, shot.final - shot.goal);
    ShareMoves(alpha, shot.final - shot.goal);
  }

  lemma ShareMoves(gain: nat, error: real)
    requires gain > 0
    ensures Share(gain, error) == gain as real / 100.0 * error
    ensures error > 0.0 ==> Share(gain, error) > 0.0
    ensures error < 0.0 ==> Share(gain, error) < 0.0
  {
    assert gain as real / 100.0 > 0.0;
    Positive(gain as real / 100.0, error);
  }

  lemma Positive(g: real, error: real)
    requires g > 0.0
    ensures error > 0.0 ==> g * error > 0.0
    ensures error < 0.0 ==> g * error < 0.0
  {
  }

  // ----- what a score says -----

  lemma SignOfProduct(g: real, error: real, product: real)
    requires g > 0.0 && product == g * error
    ensures error > 0.0 ==> product > 0.0
    ensures error < 0.0 ==> product < 0.0
  {
  }

  lemma SignOfSquare(x: real, square: real)
    requires square == x * x
    ensures square >= 0.0 && (square == 0.0 <==> x == 0.0)
  {
    if x > 0.0 {
      SignOfProduct(x, x, square);
    } else if x < 0.0 {
      SignOfProduct(-x, -x, square);
    }
  }

  lemma SignOfError(x: real)
    ensures Square(x) >= 0.0 && (Square(x) == 0.0 <==> x == 0.0)
  {
    SignOfSquare(x, Square(x));
  }

  // The gain predicted observation i.
  predicate Predicted(gain: nat, seed: real, history: seq<real>, i: nat)
    requires i < |history|
  {
    Prediction(gain, seed, history[..i]) == history[i]
  }

  // A gain's score is never negative, and 0 exactly if it predicted every
  // observation it is judged by.
  lemma {:induction false} PerfectScoreExactly(gain: nat, seed: real, history: seq<real>, from: nat)
    requires from <= |history|
    ensures ErrorsSince(gain, seed, history, from) >= 0.0
    ensures ErrorsSince(gain, seed, history, from) == 0.0
       <==> forall i :: from <= i < |history| ==> Predicted(gain, seed, history, i)
  {
    hide Square, Prediction;
    if from < |history| {
      var n := |history| - 1;
      var before := history[..n];
      PerfectScoreExactly(gain, seed, before, from);
      SignOfError(history[n] - Prediction(gain, seed, before));
      assert Predicted(gain, seed, history, n) <==> history[n] - Prediction(gain, seed, before) == 0.0;
      forall i | from <= i < n
        ensures Predicted(gain, seed, history, i) <==> Predicted(gain, seed, before, i)
      {
        assert before[..i] == history[..i];
      }
    }
  }

  // A gain that was never wrong is never replaced.
  lemma PerfectGainStays(log: Log, alpha: nat, c: nat)
    requires |log.history| >= WINDOW
    requires forall i :: |log.history| - WINDOW <= i < |log.history| ==>
      Predicted(Gain(log.initialAlpha, Incumbent(alpha)), log.seed, log.history, i)
    ensures !Beats(log, alpha, c)
  {
    hide ErrorsSince, Prediction;
    var from := |log.history| - WINDOW;
    PerfectScoreExactly(Gain(log.initialAlpha, Incumbent(alpha)), log.seed, log.history, from);
    if c < CUSTOM {
      PerfectScoreExactly(Gain(log.initialAlpha, c), log.seed, log.history, from);
    }
  }

  // Any gain from 1 to 100 learns from an accepted observation of at most 5 g.
  lemma LearnsExactly(offset: real, shot: Shot, alpha: nat)
    ensures Learns(offset, shot, alpha) <==>
      && shot.accepted && 1 <= alpha <= 100
      && -5.0 <= offset + shot.final - shot.goal <= 5.0
  {
  }
}
