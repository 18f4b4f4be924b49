// The evidence as it is kept: five anchors and the newest twenty observations in
// a ring. The anchors stand for everything the ring has dropped.
module EwmaEvidence {
  import opened Ewma

  // Observations already dropped from the ring.
  function Dropped(n: nat): nat {
    if n < WINDOW then 0 else n - WINDOW
  }

  lemma CellOfTail(n: nat, j: nat)
    requires n >= WINDOW && j < WINDOW
    ensures (n % WINDOW + j) % WINDOW == (n - WINDOW + j) % WINDOW
  {
  }

  lemma CellsDiffer(n: nat, k: nat)
    requires Dropped(n + 1) <= k < n
    ensures k % WINDOW != n % WINDOW
  {
  }

  lemma NextCell(n: nat)
    ensures (n % WINDOW + 1) % WINDOW == (n + 1) % WINDOW
  {
  }

  lemma NextInCadence(n: nat)
    ensures (n % CADENCE + 1) % CADENCE == (n + 1) % CADENCE
  {
  }

  class EwmaEvidence {
    const anchors: array<real>
    const observations: array<real>
    ghost var log: Log
    var initialAlpha: nat
    var count: nat
    var position: nat
    var cadence: nat
    var sinceSwitch: nat
    var challenger: nat
    var wins: nat

    ghost predicate Sound()
      reads this, anchors, observations
    {
      && anchors.Length == CUSTOM + 1 && observations.Length == WINDOW && anchors != observations
      && sinceSwitch <= SETTLED && Filled(|log.history|)
      && (log.history != [] ==> Anchored(Dropped(|log.history|)))
    }

    // The ring and its counters after n observations, the newest ones in place.
    ghost predicate Filled(n: nat)
      reads this`log, this`initialAlpha, this`count, this`position, this`cadence, observations
      requires n <= |log.history| && observations.Length == WINDOW
      ensures Filled(n) && n > 0 ==> initialAlpha == log.initialAlpha
    {
      && count == (if n < WINDOW then n else WINDOW) && position == n % WINDOW && cadence == n % CADENCE
      && (n > 0 ==> initialAlpha == log.initialAlpha)
      && forall k :: Dropped(n) <= k < n ==> observations[k % WINDOW] == log.history[k]
    }

    // Each anchor is its gain's prediction after the first `dropped` observations.
    ghost predicate Anchored(dropped: nat)
      reads this`log, anchors
      requires dropped <= |log.history| && anchors.Length == CUSTOM + 1
    {
      forall i :: 0 <= i <= CUSTOM ==>
        anchors[i] == Prediction(Gain(log.initialAlpha, i), log.seed, log.history[..dropped])
    }

    ghost function View(): Evidence
      reads this
    {
      Evidence(log, sinceSwitch, challenger, wins)
    }

    constructor ()
      ensures Sound() && fresh(anchors) && fresh(observations) && View() == NO_EVIDENCE
    {
      anchors := new real[CUSTOM + 1](i => 0.0);
      observations := new real[WINDOW](i => 0.0);
      log := Log(0.0, 0, []);
      initialAlpha, count, position, cadence, sinceSwitch, challenger, wins := 0, 0, 0, 0, 0, 0, 0;
    }

    method StartAt(seed: real, alpha: nat)
      requires Sound() && log.history == []
      modifies this`log, this`initialAlpha, anchors
      ensures Filled(0) && Anchored(0) && initialAlpha == alpha && log == Log(seed, alpha, [])
    {
      for i := 0 to CUSTOM + 1
        modifies anchors
        invariant forall k :: 0 <= k < i ==> anchors[k] == seed
      {
        anchors[i] := seed;
      }
      initialAlpha := alpha;
      log := Log(seed, alpha, []);
    }

    // The observation about to be overwritten moves into the anchors.
    method MoveAnchors()
      requires Sound() && |log.history| >= WINDOW
      modifies anchors
      ensures Anchored(|log.history| - WINDOW + 1)
    {
      hide Step;
      ghost var n := |log.history|;
      CellOfTail(n, 0);
      assert log.history[..n - WINDOW + 1][..n - WINDOW] == log.history[..n - WINDOW];
      for i := 0 to CUSTOM + 1
        invariant forall k :: i <= k <= CUSTOM ==>
          anchors[k] == Prediction(Gain(initialAlpha, k), log.seed, log.history[..n - WINDOW])
        invariant forall k :: 0 <= k < i ==>
          anchors[k] == Prediction(Gain(initialAlpha, k), log.seed, log.history[..n - WINDOW + 1])
      {
        anchors[i] := Step(Gain(initialAlpha, i), anchors[i], observations[position]);
      }
    }

    method PutCell(observation: real)
      requires observations.Length == WINDOW && position < WINDOW
      modifies this`count, this`position, this`cadence, observations
      ensures observations[..] == old(observations[..])[old(position) := observation]
      ensures position == (old(position) + 1) % WINDOW && cadence == (old(cadence) + 1) % CADENCE
      ensures count == if old(count) < WINDOW then old(count) + 1 else old(count)
    {
      observations[position] := observation;
      position := (position + 1) % WINDOW;
      if count < WINDOW {
        count := count + 1;
      }
      cadence := (cadence + 1) % CADENCE;
    }

    method StoreObservation(observation: real)
      requires anchors.Length == CUSTOM + 1 && observations.Length == WINDOW && anchors != observations
      requires Filled(|log.history|) && initialAlpha == log.initialAlpha
      requires Dropped(|log.history| + 1) <= |log.history| && Anchored(Dropped(|log.history| + 1))
      modifies this`log, this`count, this`position, this`cadence, observations
      ensures log == old(log).(history := old(log.history) + [observation])
      ensures Filled(|log.history|) && Anchored(Dropped(|log.history|))
    {
      hide Prediction;
      ghost var n, dropped := |log.history|, Dropped(|log.history| + 1);
      assert (log.history + [observation])[..dropped] == log.history[..dropped];
      PutCell(observation);
      log := log.(history := log.history + [observation]);
      NextCell(n);
      NextInCadence(n);
      forall k | dropped <= k <= n
        ensures observations[k % WINDOW] == log.history[k]
      {
        if k < n {
          CellsDiffer(n, k);
          assert observations[..][k % WINDOW] == old(observations[..])[k % WINDOW];
        } else {
          assert observations[..][n % WINDOW] == observation;
        }
      }
    }

    // The j-th oldest observation still in the ring.
    method Retained(j: nat) returns (o: real)
      requires observations.Length == WINDOW && |log.history| >= WINDOW && Filled(|log.history|) && j < WINDOW
      ensures o == log.history[|log.history| - WINDOW + j]
    {
      CellOfTail(|log.history|, j);
      o := observations[(position + j) % WINDOW];
    }

    method ScoreOf(i: nat) returns (score: real)
      requires Sound() && i <= CUSTOM && |log.history| >= WINDOW
      ensures score == Score(log, i)
    {
      hide Step, Square, Filled;
      ghost var n := |log.history|;
      var gain := Gain(initialAlpha, i);
      var prediction := anchors[i];
      score := 0.0;
      for j := 0 to WINDOW
        invariant prediction == Prediction(gain, log.seed, log.history[..n - WINDOW + j])
        invariant score == ErrorsSince(gain, log.seed, log.history[..n - WINDOW + j], n - WINDOW)
      {
        var seen := Retained(j);
        assert log.history[..n - WINDOW + j + 1][..n - WINDOW + j] == log.history[..n - WINDOW + j];
        score := score + Square(seen - prediction);
        prediction := Step(gain, prediction, seen);
      }
      assert log.history[..n] == log.history;
    }

    method ScoreAll() returns (scores: seq<real>)
      requires Sound() && |log.history| >= WINDOW
      ensures |scores| == CUSTOM + 1 && forall i :: 0 <= i <= CUSTOM ==> scores[i] == Score(log, i)
    {
      hide Score;
      scores := [];
      for i := 0 to CUSTOM + 1
        invariant |scores| == i && forall k :: 0 <= k < i ==> scores[k] == Score(log, k)
      {
        var score := ScoreOf(i);
        scores := scores + [score];
      }
    }

    // The candidate strictly below every other score and far enough below the
    // incumbent's, or none.
    static method PickWinner(scores: seq<real>, ghost log: Log, alpha: nat) returns (c: nat)
      requires |log.history| >= WINDOW
      requires |scores| == CUSTOM + 1 && forall i :: 0 <= i <= CUSTOM ==> scores[i] == Score(log, i)
      ensures c == Winner(log, alpha)
    {
      hide Score, Winner;
      var incumbent := Incumbent(alpha);
      var best: nat, tied := incumbent, false;
      for i := 0 to CUSTOM
        invariant best <= CUSTOM && (best == incumbent || best < i)
        invariant scores[best] <= scores[incumbent] && (best != incumbent ==> scores[best] < scores[incumbent])
        invariant forall k :: 0 <= k < i ==> scores[best] <= scores[k]
        invariant tied <==> exists k :: 0 <= k < i && k != best && scores[k] == scores[best]
      {
        if scores[i] < scores[best] {
          best, tied := i, false;
        } else if i != best && scores[i] == scores[best] {
          tied := true;
        }
      }
      if tied || best == incumbent || !(scores[best] <= scores[incumbent] * 0.9) {
        c := NO_WINNER;
      } else {
        c := best;
      }
      WinnerIsUnique(log, alpha, Winner(log, alpha));
      WinnerIsUnique(log, alpha, best);
    }

    method Evaluate(alpha: nat) returns (next: nat)
      requires Sound() && |log.history| >= WINDOW && |log.history| % CADENCE == 0
      modifies this`wins, this`challenger, this`sinceSwitch
      ensures Sound() && Judged(View(), next) == Judge(old(View()), alpha)
    {
      hide Score, Winner, Beats;
      var scores := ScoreAll();
      var best := PickWinner(scores, log, alpha);
      if best == NO_WINNER || sinceSwitch < SETTLED {
        wins := 0;
        return alpha;
      }
      wins := if challenger == best then wins + 1 else 1;
      challenger := best;
      if wins < WINS_TO_SWITCH {
        return alpha;
      }
      wins := 0;
      sinceSwitch := 0;
      return CANDIDATES[best];
    }

    method Admit(observation: real, seed: real, alpha: nat)
      requires Sound()
      modifies this`log, this`initialAlpha, this`count, this`position, this`cadence, this`sinceSwitch, anchors,
               observations
      ensures Sound() && View() == Extended(old(View()), observation, seed, alpha)
    {
      hide Step, Prediction;
      if count == 0 {
        StartAt(seed, alpha);
      }
      if count == WINDOW {
        MoveAnchors();
      }
      StoreObservation(observation);
      if sinceSwitch < SETTLED {
        sinceSwitch := sinceSwitch + 1;
      }
    }

    method Observe(observation: real, seed: real, alpha: nat) returns (next: nat)
      requires Sound()
      modifies this, anchors, observations
      ensures Sound() && Judged(View(), next) == Ewma.Observe(old(View()), observation, seed, alpha)
    {
      hide Score, Winner, Beats, Step, Prediction;
      if !Eligible(observation, alpha) {
        return alpha;
      }
      Admit(observation, seed, alpha);
      if count < WINDOW || cadence != 0 {
        return alpha;
      }
      next := Evaluate(alpha);
    }
  }
}
