/** The ten strategy kinds, their decision policies and the players that carry them. */
module Players {
  import opened Rounds

  /** The strategy kinds, spelled as the program spells them. */
  datatype StrategyType =
    | AlwaysCooperate
    | Random
    | AlwaysSteal
    | TitForTat
    | OneBittenTwiceShy
    | TakesTimeToForgive
    | MostlyGood
    | MaybeRelaliate
    | MainlyRelaliate
    | RarelyRelaliate

  /** One uniform draw from 0..99, the only input of a policy besides its history. */
  type Draw = d: int | 0 <= d < 100

  /** Player names are abstract identifiers. */
  type Name = nat

  /** A player: its name and its strategy kind; its policy is `Decide(kind, ...)`. */
  datatype Player = Player(name: Name, strategyType: StrategyType)

  /** No two players share a name. */
  predicate UniqueNames(players: seq<Player>)
  {
    forall i, j :: 0 <= i < j < |players| ==> players[i].name != players[j].name
  }

  /** The opponent's choice in the newest round, or the opponent's choice in
      `BothCooperate` when there is no round yet. */
  function LastOpponentChoice(rounds: seq<Round>): (c: Choice)
    ensures c == Steal <==> |rounds| > 0 && rounds[|rounds| - 1].second == Steal
  {
    if rounds == [] then BothCooperate.second else rounds[|rounds| - 1].second
  }

  /** Whether any round of the history has the opponent stealing. */
  function AnyOpponentSteal(rounds: seq<Round>): (b: bool)
    ensures b <==> exists i :: 0 <= i < |rounds| && rounds[i].second == Steal
  {
    if rounds == [] then false
    else if rounds[0].second == Steal then true
    else
      var rest := AnyOpponentSteal(rounds[1..]);
      assert forall i :: 1 <= i < |rounds| ==> rounds[i] == rounds[1..][i - 1];
      rest
  }

  function AlwaysCooperateStrategy(rounds: seq<Round>): (c: Choice)
    ensures c == Cooperate
  {
    Cooperate
  }

  function AlwaysStealStrategy(rounds: seq<Round>): (c: Choice)
    ensures c == Steal
  {
    Steal
  }

  function RandomStrategy(rounds: seq<Round>, draw: Draw): (c: Choice)
    ensures c == Steal <==> draw < 50
  {
    if draw < 50 then Steal else Cooperate
  }

  /** Cooperates first, then copies the opponent's previous choice. */
  function TitForTatStrategy(rounds: seq<Round>): (c: Choice)
    ensures c == Steal <==> |rounds| > 0 && rounds[|rounds| - 1].second == Steal
  {
    LastOpponentChoice(rounds)
  }

  /** Cooperates until the opponent has stolen once, then steals for the rest of the match. */
  function OnceBittenTwiceShy(rounds: seq<Round>): (c: Choice)
    ensures c == Steal <==> exists i :: 0 <= i < |rounds| && rounds[i].second == Steal
  {
    if AnyOpponentSteal(rounds) then Steal else Cooperate
  }

  /** Once it steals, it steals on every extension of the history. */
  lemma OnceBittenMonotone(rounds: seq<Round>, more: seq<Round>)
    requires OnceBittenTwiceShy(rounds) == Steal
    ensures OnceBittenTwiceShy(rounds + more) == Steal
  {
    var i :| 0 <= i < |rounds| && rounds[i].second == Steal;
    assert (rounds + more)[i] == rounds[i];
  }

  /** The newest two rounds of a history (all of it when it is shorter). */
  function LastTwo(rounds: seq<Round>): (r: seq<Round>)
    ensures |r| == if |rounds| < 2 then |rounds| else 2
    ensures forall i :: 0 <= i < |r| ==> r[i] == rounds[|rounds| - |r| + i]
  {
    if |rounds| <= 2 then rounds else rounds[|rounds| - 2..]
  }

  /** Steals while the opponent stole in either of the last two rounds. */
  function INeedTimeToForgive(rounds: seq<Round>): (c: Choice)
    ensures c == Steal <==>
      (|rounds| >= 1 && rounds[|rounds| - 1].second == Steal) ||
      (|rounds| >= 2 && rounds[|rounds| - 2].second == Steal)
  {
    var recent := LastTwo(rounds);
    if AnyOpponentSteal(recent) then Steal else Cooperate
  }

  function MostlyGoodStrategy(rounds: seq<Round>, draw: Draw): (c: Choice)
    ensures c == Steal <==> draw < 10
  {
    if draw < 10 then Steal else Cooperate
  }

  /** Shared shape of the three retaliating policies: after an opponent's steal, steal when
      the draw falls below `percent`; otherwise cooperate. */
  function Retaliate(rounds: seq<Round>, draw: Draw, percent: int): (c: Choice)
    ensures c == Steal <==> LastOpponentChoice(rounds) == Steal && draw < percent
  {
    if LastOpponentChoice(rounds) == Steal && draw < percent then Steal else Cooperate
  }

  function MaybeRetaliate(rounds: seq<Round>, draw: Draw): (c: Choice)
    ensures c == Steal <==> |rounds| > 0 && rounds[|rounds| - 1].second == Steal && draw < 50
  {
    Retaliate(rounds, draw, 50)
  }

  function MainlyRetaliate(rounds: seq<Round>, draw: Draw): (c: Choice)
    ensures c == Steal <==> |rounds| > 0 && rounds[|rounds| - 1].second == Steal && draw < 90
  {
    Retaliate(rounds, draw, 90)
  }

  function RarelyRetaliate(rounds: seq<Round>, draw: Draw): (c: Choice)
    ensures c == Steal <==> |rounds| > 0 && rounds[|rounds| - 1].second == Steal && draw < 10
  {
    Retaliate(rounds, draw, 10)
  }

  /** Reference definition: the percentage of draws for which a policy steals on a history. */
  function StealChance(kind: StrategyType, rounds: seq<Round>): (p: int)
    ensures 0 <= p <= 100
  {
    var lastStole := |rounds| > 0 && rounds[|rounds| - 1].second == Steal;
    match kind
    case AlwaysCooperate => 0
    case AlwaysSteal => 100
    case Random => 50
    case MostlyGood => 10
    case TitForTat => if lastStole then 100 else 0
    case OneBittenTwiceShy =>
      if exists i :: 0 <= i < |rounds| && rounds[i].second == Steal then 100 else 0
    case TakesTimeToForgive =>
      if lastStole || (|rounds| >= 2 && rounds[|rounds| - 2].second == Steal) then 100 else 0
    case MaybeRelaliate => if lastStole then 50 else 0
    case MainlyRelaliate => if lastStole then 90 else 0
    case RarelyRelaliate => if lastStole then 10 else 0
  }

  /** The policy bound to a strategy kind (the program's `get_strategy`). Every policy is a
      threshold on the draw: it steals exactly when the draw is below its steal chance. */
  function Decide(kind: StrategyType, rounds: seq<Round>, draw: Draw): (c: Choice)
    ensures c == Steal <==> draw < StealChance(kind, rounds)
  {
    match kind
    case AlwaysCooperate => AlwaysCooperateStrategy(rounds)
    case Random => RandomStrategy(rounds, draw)
    case AlwaysSteal => AlwaysStealStrategy(rounds)
    case TitForTat => TitForTatStrategy(rounds)
    case OneBittenTwiceShy => OnceBittenTwiceShy(rounds)
    case TakesTimeToForgive => INeedTimeToForgive(rounds)
    case MostlyGood => MostlyGoodStrategy(rounds, draw)
    case MaybeRelaliate => MaybeRetaliate(rounds, draw)
    case MainlyRelaliate => MainlyRetaliate(rounds, draw)
    case RarelyRelaliate => RarelyRetaliate(rounds, draw)
  }

  /** Kinds whose choice never depends on the draw. */
  predicate IsDeterministic(kind: StrategyType)
  {
    kind in {AlwaysCooperate, AlwaysSteal, TitForTat, OneBittenTwiceShy, TakesTimeToForgive}
  }

  lemma DeterministicIgnoresDraw(kind: StrategyType, rounds: seq<Round>, d1: Draw, d2: Draw)
    requires IsDeterministic(kind)
    ensures Decide(kind, rounds, d1) == Decide(kind, rounds, d2)
  {
  }

  /** Every kind except the ones that steal unprovoked cooperates on an empty history, and the
      three retaliating kinds cooperate whatever the draw unless the opponent just stole. */
  lemma CooperatesUnprovoked(kind: StrategyType, rounds: seq<Round>, draw: Draw)
    requires kind !in {Random, AlwaysSteal, MostlyGood}
    requires rounds == [] || (kind in {MaybeRelaliate, MainlyRelaliate, RarelyRelaliate, TitForTat}
                              && rounds[|rounds| - 1].second == Cooperate)
    ensures Decide(kind, rounds, draw) == Cooperate
  {
  }

  /** The draws below `p`. */
  function DrawsBelow(p: nat): (s: set<int>)
    ensures forall d :: d in s <==> 0 <= d < p
    ensures |s| == p
  {
    if p == 0 then {} else DrawsBelow(p - 1) + {p - 1}
  }

  /** The set of draws for which a policy steals on a given history. */
  function StealDraws(kind: StrategyType, rounds: seq<Round>): set<int>
  {
    set d: int | 0 <= d < 100 && Decide(kind, rounds, d) == Steal
  }

  /** Out of the 100 equally likely draws, exactly `StealChance` make the policy steal:
      50% for Random, 10% for MostlyGood, and after an opponent's steal 50%, 90% and 10%
      for the three retaliating kinds. */
  lemma StealOdds(kind: StrategyType, rounds: seq<Round>)
    ensures |StealDraws(kind, rounds)| == StealChance(kind, rounds)
  {
    assert StealDraws(kind, rounds) == DrawsBelow(StealChance(kind, rounds));
  }

  /** A freshly created player of a given kind (the program's `new_from_strategy_name`);
      the name stands for the generated one. */
  function NewFromStrategyName(kind: StrategyType, name: Name): (p: Player)
    ensures p.strategyType == kind && p.name == name
  {
    Player(name, kind)
  }
}
