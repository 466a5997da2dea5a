/** Rounds and 200-round matches between two players. */
module Matches {
  import opened Rounds
  import opened Players

  /** The draws of one round: player 0's draw, then player 1's. */
  type RoundDraws = (Draw, Draw)

  /** The draws of a whole match, by round index. */
  type MatchDraws = nat -> RoundDraws

  const MatchLength: nat := 200

  /** One round: player 0 decides on the history as it is, player 1 on the history with
      every round flipped, so that each sees its own choice first. */
  function PlayRound(players: (Player, Player), rounds: seq<Round>, draws: RoundDraws): (r: Round)
    ensures r.first == Decide(players.0.strategyType, rounds, draws.0)
    ensures r.second == Decide(players.1.strategyType, FlipAll(rounds), draws.1)
  {
    var flipped := FlipAll(rounds);
    Round(Decide(players.0.strategyType, rounds, draws.0),
          Decide(players.1.strategyType, flipped, draws.1))
  }

  /** The game is symmetric: exchanging the two players (with their draws) and flipping the
      history yields the flipped round. */
  lemma PlayRoundSwap(players: (Player, Player), rounds: seq<Round>, draws: RoundDraws)
    ensures PlayRound((players.1, players.0), FlipAll(rounds), (draws.1, draws.0))
         == Flip(PlayRound(players, rounds, draws))
  {
    FlipAllInvolutive(rounds);
  }

  /** The first `k` rounds of a match: each round is played on the rounds before it. */
  function MatchHistory(players: (Player, Player), draws: MatchDraws, k: nat): (h: seq<Round>)
    ensures |h| == k
  {
    if k == 0 then []
    else
      var before := MatchHistory(players, draws, k - 1);
      before + [PlayRound(players, before, draws(k - 1))]
  }

  /** The score pair of a full match. */
  function MatchScore(players: (Player, Player), draws: MatchDraws): (s: (int, int))
    ensures 0 <= s.0 <= 5 * MatchLength && 0 <= s.1 <= 5 * MatchLength
  {
    Scores(MatchHistory(players, draws, MatchLength))
  }

  /** Plays the 200 rounds of a match, growing the history one round at a time, and
      scores it. */
  method PlayMatch(players: (Player, Player), draws: MatchDraws) returns (score: (int, int))
    ensures score == Scores(MatchHistory(players, draws, MatchLength))
    ensures 0 <= score.0 <= 1000 && 0 <= score.1 <= 1000
  {
    var rounds: seq<Round> := [];
    for i := 0 to MatchLength
      invariant rounds == MatchHistory(players, draws, i)
    {
      var round := PlayRound(players, rounds, draws(i));
      rounds := rounds + [round];
    }
    score := Scores(rounds);
  }

  /** No lookahead: a longer match starts with the shorter one, and round k is decided from
      the first k rounds and the k-th draws alone. */
  lemma {:induction false} MatchNoLookahead(players: (Player, Player), draws: MatchDraws, k: nat, m: nat)
    requires k < m
    ensures MatchHistory(players, draws, m)[..k] == MatchHistory(players, draws, k)
    ensures MatchHistory(players, draws, m)[k]
         == PlayRound(players, MatchHistory(players, draws, k), draws(k))
  {
    if m > k + 1 {
      MatchNoLookahead(players, draws, k, m - 1);
      var before := MatchHistory(players, draws, m - 1);
      assert MatchHistory(players, draws, m)[..k] == before[..k];
    }
  }

  /** Draws of later rounds cannot influence earlier ones. */
  lemma {:induction false} MatchDrawsCausal(players: (Player, Player), d1: MatchDraws, d2: MatchDraws, k: nat)
    requires forall i :: 0 <= i < k ==> d1(i) == d2(i)
    ensures MatchHistory(players, d1, k) == MatchHistory(players, d2, k)
  {
    if k > 0 {
      MatchDrawsCausal(players, d1, d2, k - 1);
    }
  }

  /** The draws of a match with the two players exchanged. */
  function SwapDraws(draws: MatchDraws): MatchDraws
  {
    i => (draws(i).1, draws(i).0)
  }

  /** Exchanging the players (with their draws) flips every round of the match. */
  lemma {:induction false} MatchSwap(players: (Player, Player), draws: MatchDraws, k: nat)
    ensures MatchHistory((players.1, players.0), SwapDraws(draws), k)
         == FlipAll(MatchHistory(players, draws, k))
  {
    if k > 0 {
      var swapped := (players.1, players.0);
      MatchSwap(players, draws, k - 1);
      var before := MatchHistory(players, draws, k - 1);
      var round := PlayRound(players, before, draws(k - 1));
      assert SwapDraws(draws)(k - 1) == (draws(k - 1).1, draws(k - 1).0);
      PlayRoundSwap(players, before, draws(k - 1));
      assert MatchHistory(swapped, SwapDraws(draws), k)
          == FlipAll(before) + [PlayRound(swapped, FlipAll(before), (draws(k - 1).1, draws(k - 1).0))];
      FlipAllAppend(before, [round]);
      assert FlipAll([round]) == [Flip(round)];
    }
  }

  /** Exchanging the players exchanges their match scores. */
  lemma MatchScoreSwap(players: (Player, Player), draws: MatchDraws)
    ensures MatchScore((players.1, players.0), SwapDraws(draws))
         == (MatchScore(players, draws).1, MatchScore(players, draws).0)
  {
    MatchSwap(players, draws, MatchLength);
    ScoresOfFlipped(MatchHistory(players, draws, MatchLength));
  }

  /** The choice of a constant policy. */
  function ConstantChoice(kind: StrategyType): Choice
  {
    if kind == AlwaysSteal then Steal else Cooperate
  }

  /** Two constant policies repeat the same round throughout the match. */
  lemma {:induction false} ConstantPolicyHistory(players: (Player, Player), draws: MatchDraws, k: nat)
    requires players.0.strategyType in {AlwaysCooperate, AlwaysSteal}
    requires players.1.strategyType in {AlwaysCooperate, AlwaysSteal}
    ensures MatchHistory(players, draws, k)
         == seq(k, _ => Round(ConstantChoice(players.0.strategyType), ConstantChoice(players.1.strategyType)))
  {
    if k > 0 {
      ConstantPolicyHistory(players, draws, k - 1);
    }
  }

  /** Always-cooperate against itself scores (600, 600), always-steal against itself
      (200, 200), and always-cooperate against always-steal (0, 1000). */
  lemma ConstantPolicyScores(players: (Player, Player), draws: MatchDraws)
    requires players.0.strategyType in {AlwaysCooperate, AlwaysSteal}
    requires players.1.strategyType in {AlwaysCooperate, AlwaysSteal}
    ensures players.0.strategyType == AlwaysCooperate && players.1.strategyType == AlwaysCooperate
            ==> MatchScore(players, draws) == (600, 600)
    ensures players.0.strategyType == AlwaysSteal && players.1.strategyType == AlwaysSteal
            ==> MatchScore(players, draws) == (200, 200)
    ensures players.0.strategyType == AlwaysCooperate && players.1.strategyType == AlwaysSteal
            ==> MatchScore(players, draws) == (0, 1000)
    ensures players.0.strategyType == AlwaysSteal && players.1.strategyType == AlwaysCooperate
            ==> MatchScore(players, draws) == (1000, 0)
  {
    var round := Round(ConstantChoice(players.0.strategyType), ConstantChoice(players.1.strategyType));
    ConstantPolicyHistory(players, draws, MatchLength);
    ScoresOfRepeated(round, MatchLength);
  }

  /** Kinds that never steal first: they cooperate whatever the draw as long as the
      opponent has never stolen. */
  predicate IsNice(kind: StrategyType)
  {
    kind in {AlwaysCooperate, TitForTat, OneBittenTwiceShy, TakesTimeToForgive,
             MaybeRelaliate, MainlyRelaliate, RarelyRelaliate}
  }

  lemma NiceCooperates(kind: StrategyType, rounds: seq<Round>, draw: Draw)
    requires IsNice(kind)
    requires forall i :: 0 <= i < |rounds| ==> rounds[i] == BothCooperate
    ensures Decide(kind, rounds, draw) == Cooperate
  {
  }

  /** Two nice policies cooperate in every round, whatever the draws, and score (600, 600). */
  lemma {:induction false} NiceMatch(players: (Player, Player), draws: MatchDraws, k: nat)
    requires IsNice(players.0.strategyType) && IsNice(players.1.strategyType)
    ensures forall i :: 0 <= i < k ==> MatchHistory(players, draws, k)[i] == BothCooperate
    ensures k == MatchLength ==> MatchScore(players, draws) == (600, 600)
  {
    if k > 0 {
      NiceMatch(players, draws, k - 1);
      var before := MatchHistory(players, draws, k - 1);
      NiceCooperates(players.0.strategyType, before, draws(k - 1).0);
      NiceCooperates(players.1.strategyType, FlipAll(before), draws(k - 1).1);
    }
    if k == MatchLength {
      assert MatchHistory(players, draws, k) == seq(k, _ => BothCooperate);
      ScoresOfRepeated(BothCooperate, k);
    }
  }
}
