/** Choices, rounds and the fixed payoff table of the iterated Prisoner's Dilemma. */
module Rounds {

  datatype Choice = Cooperate | Steal

  /** One round as an ordered pair of choices. Seen from one player's side, `first` is that
      player's own choice and `second` is the opponent's. */
  datatype Round = Round(first: Choice, second: Choice)

  const BothCooperate: Round := Round(Cooperate, Cooperate)
  const FirstPlayerSteals: Round := Round(Steal, Cooperate)
  const SecondPlayerSteals: Round := Round(Cooperate, Steal)
  const BothSteal: Round := Round(Steal, Steal)

  /** The same round seen from the other player's side. */
  function Flip(round: Round): (f: Round)
    ensures f.first == round.second && f.second == round.first
  {
    match round
    case Round(Cooperate, Cooperate) => BothCooperate
    case Round(Steal, Cooperate) => SecondPlayerSteals
    case Round(Cooperate, Steal) => FirstPlayerSteals
    case Round(Steal, Steal) => BothSteal
  }

  lemma FlipInvolutive(round: Round)
    ensures Flip(Flip(round)) == round
    ensures Flip(round) == round <==> round.first == round.second
  {
  }

  /** Every round of a history, seen from the other side. */
  function FlipAll(rounds: seq<Round>): (f: seq<Round>)
    ensures |f| == |rounds|
    ensures forall i :: 0 <= i < |rounds| ==> f[i].first == rounds[i].second && f[i].second == rounds[i].first
  {
    seq(|rounds|, i requires 0 <= i < |rounds| => Flip(rounds[i]))
  }

  lemma FlipAllInvolutive(rounds: seq<Round>)
    ensures FlipAll(FlipAll(rounds)) == rounds
  {
  }

  lemma FlipAllAppend(a: seq<Round>, b: seq<Round>)
    ensures FlipAll(a + b) == FlipAll(a) + FlipAll(b)
  {
  }

  /** Reference payoff: the points a player earns for its own choice `mine` against the
      opponent's `theirs` (temptation 5, reward 3, punishment 1, sucker 0). */
  function Points(mine: Choice, theirs: Choice): int
  {
    match (mine, theirs)
    case (Steal, Cooperate) => 5
    case (Cooperate, Cooperate) => 3
    case (Steal, Steal) => 1
    case (Cooperate, Steal) => 0
  }

  /** The payoff pair of a round, looked up in the table of the four canonical rounds. */
  function Outcome(round: Round): (p: (int, int))
    ensures p == (Points(round.first, round.second), Points(round.second, round.first))
    ensures 0 <= p.0 <= 5 && 0 <= p.1 <= 5
  {
    match round
    case Round(Cooperate, Cooperate) => (3, 3)
    case Round(Steal, Cooperate) => (5, 0)
    case Round(Cooperate, Steal) => (0, 5)
    case Round(Steal, Steal) => (1, 1)
  }

  /** The payoff of a flipped round is the swapped payoff; stealing always earns a player
      strictly more than cooperating would have, yet mutual cooperation earns the most in total. */
  lemma OutcomeOfFlip(round: Round)
    ensures Outcome(Flip(round)) == (Outcome(round).1, Outcome(round).0)
    ensures Outcome(Round(Steal, round.second)).0 > Outcome(Round(Cooperate, round.second)).0
    ensures Outcome(round).0 + Outcome(round).1 <= Outcome(BothCooperate).0 + Outcome(BothCooperate).1
  {
  }

  /** The summed payoffs of a history, folded from the oldest round to the newest. */
  function Scores(rounds: seq<Round>): (s: (int, int))
    ensures 0 <= s.0 <= 5 * |rounds| && 0 <= s.1 <= 5 * |rounds|
    ensures 2 * |rounds| <= s.0 + s.1 <= 6 * |rounds|
  {
    if rounds == [] then (0, 0)
    else
      var before := Scores(rounds[..|rounds| - 1]);
      var last := Outcome(rounds[|rounds| - 1]);
      (before.0 + last.0, before.1 + last.1)
  }

  lemma ScoresOfEmpty()
    ensures Scores([]) == (0, 0)
  {
  }

  /** Appending one round adds exactly that round's payoff pair. */
  lemma ScoresPush(rounds: seq<Round>, round: Round)
    ensures Scores(rounds + [round]).0 == Scores(rounds).0 + Outcome(round).0
    ensures Scores(rounds + [round]).1 == Scores(rounds).1 + Outcome(round).1
  {
    assert (rounds + [round])[..|rounds|] == rounds;
  }

  /** Scoring is additive over concatenated histories. */
  lemma {:induction false} ScoresAppend(a: seq<Round>, b: seq<Round>)
    ensures Scores(a + b).0 == Scores(a).0 + Scores(b).0
    ensures Scores(a + b).1 == Scores(a).1 + Scores(b).1
  {
    if b == [] {
      assert a + b == a;
    } else {
      var k := |b| - 1;
      ScoresAppend(a, b[..k]);
      assert (a + b)[..|a + b| - 1] == a + b[..k];
      assert (a + b)[|a + b| - 1] == b[k];
    }
  }

  /** Scoring the flipped history gives the swapped totals. */
  lemma {:induction false} ScoresOfFlipped(rounds: seq<Round>)
    ensures Scores(FlipAll(rounds)) == (Scores(rounds).1, Scores(rounds).0)
  {
    if rounds != [] {
      var k := |rounds| - 1;
      ScoresOfFlipped(rounds[..k]);
      assert FlipAll(rounds)[..k] == FlipAll(rounds[..k]);
      OutcomeOfFlip(rounds[k]);
    }
  }

  /** A history that repeats one round k times scores k times that round's payoff. */
  lemma {:induction false} ScoresOfRepeated(round: Round, k: nat)
    ensures Scores(seq(k, _ => round)) == (k * Outcome(round).0, k * Outcome(round).1)
  {
    if k > 0 {
      ScoresOfRepeated(round, k - 1);
      assert seq(k, _ => round)[..k - 1] == seq(k - 1, _ => round);
    }
  }
}
