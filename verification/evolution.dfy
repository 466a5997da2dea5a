/** Evolution across seasons: after each season every player whose average per-round score
    beats 2.7 earns its strategy kind one new player, and beating 3.0 earns a second. */
module Evolution {
  import opened Players
  import opened Matches
  import opened Seasons

  /** The average per-round score exceeds 2.7, i.e. total / rounds > 27 / 10. */
  predicate AboveFirstThreshold(f: Fitness)
  {
    10 * f.total > 27 * f.rounds
  }

  /** The average per-round score exceeds 3.0. */
  predicate AboveSecondThreshold(f: Fitness)
  {
    f.total > 3 * f.rounds
  }

  /** How many new players an entry earns: the two threshold checks are independent, and
      the second implies the first, so the count is 0, 1 or 2 by band. */
  function Offspring(f: Fitness): (k: nat)
    ensures k <= 2
    ensures k == 0 <==> 10 * f.total <= 27 * f.rounds
    ensures k == 1 <==> 27 * f.rounds < 10 * f.total <= 30 * f.rounds
    ensures k == 2 <==> f.total > 3 * f.rounds
  {
    (if AboveFirstThreshold(f) then 1 else 0) + (if AboveSecondThreshold(f) then 1 else 0)
  }

  /** Multiplying both sides by a positive factor keeps a strict inequality. */
  lemma ScaleStrict(c: int, x: int, y: int)
    requires c > 0 && x < y
    ensures c * x < c * y
  {
    assert c * y - c * x == c * (y - x);
  }

  /** An average above p / q stays above it for any fitness at least as large. */
  lemma ThresholdTransfer(a: Fitness, b: Fitness, p: int, q: int)
    requires p > 0 && a.rounds > 0 && b.rounds > 0 && AtMost(a, b)
    requires q * a.rounds < p * a.total
    ensures q * b.rounds < p * b.total
  {
    if p * b.total <= q * b.rounds {
      ScaleStrict(b.rounds, q * a.rounds, p * a.total);
      assert p * (a.total * b.rounds) <= p * (b.total * a.rounds) by {
        if a.total * b.rounds < b.total * a.rounds {
          ScaleStrict(p, a.total * b.rounds, b.total * a.rounds);
        }
      }
      if p * b.total < q * b.rounds {
        ScaleStrict(a.rounds, p * b.total, q * b.rounds);
      }
      assert false;
    }
  }

  /** A fitter entry never earns fewer new players. */
  lemma OffspringMonotone(a: Fitness, b: Fitness)
    requires a.rounds > 0 && b.rounds > 0 && AtMost(a, b)
    ensures Offspring(a) <= Offspring(b)
  {
    if AboveFirstThreshold(a) {
      ThresholdTransfer(a, b, 10, 27);
    }
    if AboveSecondThreshold(a) {
      ThresholdTransfer(a, b, 1, 3);
    }
  }

  /** The strategy kinds to add after a season, entry by entry in ranking order: one copy
      per threshold the entry's average beats. */
  function Additions(ranked: seq<Scored>): (kinds: seq<StrategyType>)
    ensures |kinds| <= 2 * |ranked|
    ensures forall k :: 0 <= k < |kinds| ==>
              exists i :: 0 <= i < |ranked| && ranked[i].player.strategyType == kinds[k]
                                            && AboveFirstThreshold(ranked[i].fitness)
  {
    if ranked == [] then []
    else
      var n := |ranked| - 1;
      var before := Additions(ranked[..n]);
      var e := ranked[n];
      var added := seq(Offspring(e.fitness), _ => e.player.strategyType);
      var kinds := before + added;
      assert forall k :: 0 <= k < |kinds| ==>
               exists i :: 0 <= i < |ranked| && ranked[i].player.strategyType == kinds[k]
                                             && AboveFirstThreshold(ranked[i].fitness) by {
        forall k | 0 <= k < |kinds|
          ensures exists i :: 0 <= i < |ranked| && ranked[i].player.strategyType == kinds[k]
                                                && AboveFirstThreshold(ranked[i].fitness)
        {
          if k < |before| {
            var i :| 0 <= i < n && ranked[..n][i].player.strategyType == before[k]
                                && AboveFirstThreshold(ranked[..n][i].fitness);
            assert ranked[i] == ranked[..n][i];
          } else {
            assert ranked[n].player.strategyType == kinds[k] && AboveFirstThreshold(ranked[n].fitness);
          }
        }
      }
      kinds
  }

  /** The additions of a ranking are those of its parts, in order. */
  lemma {:induction false} AdditionsAppend(a: seq<Scored>, b: seq<Scored>)
    ensures Additions(a + b) == Additions(a) + Additions(b)
  {
    if b != [] {
      var n := |b| - 1;
      AdditionsAppend(a, b[..n]);
      assert (a + b)[..|a + b| - 1] == a + b[..n];
      assert (a + b)[|a + b| - 1] == b[n];
    } else {
      assert a + b == a;
    }
  }

  /** A single entry adds its own kind once per threshold it beats. */
  lemma AdditionsOfOne(e: Scored)
    ensures Additions([e]) == seq(Offspring(e.fitness), _ => e.player.strategyType)
  {
    assert [e][..0] == [];
  }

  /** Nobody is added exactly when no entry's average beats 2.7. */
  lemma {:induction false} NoAdditions(ranked: seq<Scored>)
    ensures Additions(ranked) == [] <==> forall i :: 0 <= i < |ranked| ==> !AboveFirstThreshold(ranked[i].fitness)
  {
    if ranked != [] {
      var n := |ranked| - 1;
      NoAdditions(ranked[..n]);
      if forall i :: 0 <= i < n ==> !AboveFirstThreshold(ranked[..n][i].fitness) {
        assert forall i :: 0 <= i < n ==> ranked[i] == ranked[..n][i];
      } else {
        var i :| 0 <= i < n && AboveFirstThreshold(ranked[..n][i].fitness);
        assert ranked[i] == ranked[..n][i];
      }
    }
  }

  /** One more entry of the ranking appends its own additions. */
  lemma AdditionsStep(ranked: seq<Scored>, i: nat)
    requires i < |ranked|
    ensures Additions(ranked[..i + 1])
         == Additions(ranked[..i]) + seq(Offspring(ranked[i].fitness), _ => ranked[i].player.strategyType)
  {
    assert ranked[..i + 1] == ranked[..i] + [ranked[i]];
    AdditionsAppend(ranked[..i], [ranked[i]]);
    AdditionsOfOne(ranked[i]);
  }

  /** Walks the ranking once, pushing the entry's kind when its average beats 2.7 and again
      when it beats 3.0. */
  method CollectAdditions(ranked: seq<Scored>) returns (kinds: seq<StrategyType>)
    ensures kinds == Additions(ranked)
  {
    kinds := [];
    for i := 0 to |ranked|
      invariant kinds == Additions(ranked[..i])
    {
      var e := ranked[i];
      if AboveFirstThreshold(e.fitness) {
        kinds := kinds + [e.player.strategyType];
      }
      if AboveSecondThreshold(e.fitness) {
        kinds := kinds + [e.player.strategyType];
      }
      AdditionsStep(ranked, i);
    }
    assert ranked[..|ranked|] == ranked;
  }

  /** A name no player of the population carries (one past the largest). */
  function NextName(pop: seq<Player>): (nm: Name)
    ensures forall i :: 0 <= i < |pop| ==> pop[i].name < nm
  {
    if pop == [] then 0
    else
      var n := |pop| - 1;
      var rest := NextName(pop[..n]);
      assert forall i :: 0 <= i < n ==> pop[i] == pop[..n][i];
      if pop[n].name < rest then rest else pop[n].name + 1
  }

  /** `next` is `pop` followed by one new player per kind, in order, each new player's name
      differing from every name before it. */
  predicate Extends(pop: seq<Player>, kinds: seq<StrategyType>, next: seq<Player>)
  {
    && |next| == |pop| + |kinds|
    && next[..|pop|] == pop
    && (forall j :: 0 <= j < |kinds| ==> next[|pop| + j].strategyType == kinds[j])
    && (forall i, j :: 0 <= i < j < |next| && |pop| <= j ==> next[i].name != next[j].name)
  }

  /** Growing a population with fresh names keeps its names unique. */
  lemma ExtendsKeepsUnique(pop: seq<Player>, kinds: seq<StrategyType>, next: seq<Player>)
    requires UniqueNames(pop) && Extends(pop, kinds, next)
    ensures UniqueNames(next)
  {
    forall i, j | 0 <= i < j < |next|
      ensures next[i].name != next[j].name
    {
      if j < |pop| {
        assert next[i] == pop[i] && next[j] == pop[j];
      }
    }
  }

  /** Pushes one freshly created player per kind onto the population. */
  method AppendOffspring(pop: seq<Player>, kinds: seq<StrategyType>) returns (next: seq<Player>)
    ensures Extends(pop, kinds, next)
  {
    next := pop;
    for j := 0 to |kinds|
      invariant Extends(pop, kinds[..j], next)
    {
      var player := NewFromStrategyName(kinds[j], NextName(next));
      next := next + [player];
      assert next[..|pop|] == pop by {
        assert next[..|pop|] == (next[..|next| - 1])[..|pop|];
      }
    }
    assert kinds[..|kinds|] == kinds;
  }

  /** One season transforms `before` into `after`: some ranking the season can produce has
      its additions appended with fresh names. */
  ghost predicate SeasonStep(before: seq<Player>, after: seq<Player>, draws: SeasonDraws)
  {
    exists ranked :: IsSeasonRanking(before, draws, ranked) && Extends(before, Additions(ranked), after)
  }

  /** A season in which no entry beats 2.7 leaves the population unchanged. */
  lemma QuietSeason(before: seq<Player>, after: seq<Player>, draws: SeasonDraws, ranked: seq<Scored>)
    requires IsSeasonRanking(before, draws, ranked) && Extends(before, Additions(ranked), after)
    requires forall i :: 0 <= i < |ranked| ==> !AboveFirstThreshold(ranked[i].fitness)
    ensures after == before
  {
    NoAdditions(ranked);
  }

  /* ---------- A population of nice players ---------- */

  predicate AllNice(pop: seq<Player>)
  {
    forall i :: 0 <= i < |pop| ==> IsNice(pop[i].strategyType)
  }

  /** The strategy kinds of a population, in order. */
  function KindsOf(pop: seq<Player>): (kinds: seq<StrategyType>)
    ensures |kinds| == |pop|
  {
    if pop == [] then [] else KindsOf(pop[..|pop| - 1]) + [pop[|pop| - 1].strategyType]
  }

  lemma {:induction false} KindsAt(pop: seq<Player>, i: nat)
    requires i < |pop|
    ensures KindsOf(pop)[i] == pop[i].strategyType
  {
    var n := |pop| - 1;
    if i < n {
      KindsAt(pop[..n], i);
    }
  }

  lemma {:induction false} KindsAppend(a: seq<Player>, b: seq<Player>)
    ensures KindsOf(a + b) == KindsOf(a) + KindsOf(b)
  {
    if b == [] {
      assert a + b == a;
    } else {
      var n := |b| - 1;
      KindsAppend(a, b[..n]);
      assert (a + b)[..|a + b| - 1] == a + b[..n];
    }
  }

  lemma SplitAt<T>(b: seq<T>, p: nat)
    requires p < |b|
    ensures b == b[..p] + [b[p]] + b[p + 1..]
  {
  }

  /** Taking one player out of a population takes its kind out of the kinds. */
  lemma KindsRemove(b: seq<Player>, p: nat)
    requires p < |b|
    ensures multiset(b[..p] + b[p + 1..]) == multiset(b) - multiset{b[p]}
    ensures multiset(KindsOf(b)) == multiset(KindsOf(b[..p] + b[p + 1..])) + multiset{b[p].strategyType}
  {
    var x, front, back := b[p], b[..p], b[p + 1..];
    var t := [x.strategyType];
    SplitAt(b, p);
    assert KindsOf(b) == KindsOf(front) + t + KindsOf(back) by {
      KindsAppend(front + [x], back);
      KindsAppend(front, [x]);
      assert [x][..0] == [];
    }
    assert KindsOf(front + back) == KindsOf(front) + KindsOf(back) by {
      KindsAppend(front, back);
    }
  }

  /** Two populations that are permutations of each other hold the same kinds, counted
      with multiplicity. */
  lemma {:induction false} KindsPermutation(a: seq<Player>, b: seq<Player>)
    requires multiset(a) == multiset(b)
    ensures multiset(KindsOf(a)) == multiset(KindsOf(b))
    decreases |a|
  {
    if a != [] {
      var n := |a| - 1;
      var x := a[n];
      assert a == a[..n] + [x];
      assert x in multiset(b);
      var p :| 0 <= p < |b| && b[p] == x;
      KindsRemove(b, p);
      KindsPermutation(a[..n], b[..p] + b[p + 1..]);
      assert KindsOf(a) == KindsOf(a[..n]) + [x.strategyType];
    }
  }

  /** The kinds of a ranking's players, in ranking order. */
  lemma KindsOfRanked(ranked: seq<Scored>, kinds: seq<StrategyType>)
    requires |kinds| == |ranked|
    requires forall i :: 0 <= i < |ranked| ==> kinds[i] == ranked[i].player.strategyType
    ensures KindsOf(PlayersOf(ranked)) == kinds
  {
    forall i | 0 <= i < |ranked|
      ensures KindsOf(PlayersOf(ranked))[i] == kinds[i]
    {
      KindsAt(PlayersOf(ranked), i);
    }
  }

  /** Between nice players every match of the season ends (600, 600). */
  lemma NiceSeasonScores(players: seq<Player>, draws: SeasonDraws)
    requires AllNice(players)
    ensures forall m :: 0 <= m < |SeasonScores(players, draws)| ==> SeasonScores(players, draws)[m] == (600, 600)
  {
    var ps, scores := Pairs(|players|), SeasonScores(players, draws);
    forall m | 0 <= m < |scores|
      ensures scores[m] == (600, 600)
    {
      var pair := (players[ps[m].0], players[ps[m].1]);
      NiceMatch(pair, draws(m), MatchLength);
      assert scores[m] == MatchScore(pair, draws(m));
    }
  }

  lemma {:induction false} EntriesConstant(players: seq<Player>, ps: seq<(nat, nat)>, scores: seq<(int, int)>,
                                           name: Name, v: int)
    requires |scores| == |ps| && PairsWithin(ps, |players|)
    requires forall m :: 0 <= m < |scores| ==> scores[m] == (v, v)
    ensures forall x :: x in Entries(players, ps, scores, name) ==> x == v
  {
    if ps != [] {
      var m := |ps| - 1;
      EntriesConstant(players, ps[..m], scores[..m], name, v);
    }
  }

  lemma {:induction false} SumConstant(xs: seq<int>, v: int)
    requires forall x :: x in xs ==> x == v
    ensures Sum(xs) == v * |xs|
  {
    if xs != [] {
      var before := xs[..|xs| - 1];
      assert forall x :: x in before ==> x in xs;
      SumConstant(before, v);
      assert xs[|xs| - 1] in xs;
      assert v * |xs| == v * |before| + v;
    }
  }

  /** In an all-nice season every name averages exactly 3.0 per round: above 2.7 but not
      above 3.0, so it earns exactly one new player. */
  lemma NiceFitness(players: seq<Player>, draws: SeasonDraws, name: Name)
    requires AllNice(players) && SeasonFitness(players, draws, name).rounds > 0
    ensures SeasonFitness(players, draws, name).total == 3 * SeasonFitness(players, draws, name).rounds
    ensures Offspring(SeasonFitness(players, draws, name)) == 1
  {
    var e := SeasonEntries(players, draws, name);
    NiceSeasonScores(players, draws);
    EntriesConstant(players, Pairs(|players|), SeasonScores(players, draws), name, 600);
    SumConstant(e, 600);
  }

  /** When every entry earns exactly one new player, the additions are the entries' kinds
      in ranking order. */
  lemma {:induction false} AdditionsOfSingles(ranked: seq<Scored>)
    requires forall i :: 0 <= i < |ranked| ==> Offspring(ranked[i].fitness) == 1
    ensures |Additions(ranked)| == |ranked|
    ensures forall i :: 0 <= i < |ranked| ==> Additions(ranked)[i] == ranked[i].player.strategyType
  {
    if ranked != [] {
      var n := |ranked| - 1;
      var e := ranked[n];
      AdditionsOfSingles(ranked[..n]);
      assert Additions(ranked) == Additions(ranked[..n]) + [e.player.strategyType] by {
        AdditionsStep(ranked, n);
        assert ranked[..n + 1] == ranked;
        assert seq(Offspring(e.fitness), _ => e.player.strategyType) == [e.player.strategyType];
      }
      var kinds, before := Additions(ranked), Additions(ranked[..n]);
      forall i | 0 <= i < |ranked|
        ensures kinds[i] == ranked[i].player.strategyType
      {
        if i < n {
          assert kinds[i] == before[i] && ranked[..n][i] == ranked[i];
        }
      }
    }
  }

  /** A season of nice players with unique names doubles the population: every kind's
      count doubles, the old players stay in place and everyone is still nice. */
  lemma NiceSeasonDoubles(before: seq<Player>, after: seq<Player>, draws: SeasonDraws)
    requires AllNice(before) && UniqueNames(before) && SeasonStep(before, after, draws)
    ensures |after| == 2 * |before| && StartsWith(after, before)
    ensures multiset(KindsOf(after)) == multiset(KindsOf(before)) + multiset(KindsOf(before))
    ensures AllNice(after)
  {
    var ranked: seq<Scored> :| IsSeasonRanking(before, draws, ranked) && Extends(before, Additions(ranked), after);
    NiceRankingSingles(before, draws, ranked);
    AdditionsOfSingles(ranked);
    RankingIsPermutation(before, draws, ranked);
    var kinds := Additions(ranked);
    KindsOfRanked(ranked, kinds);
    NewcomersAreRanked(before, kinds, after, ranked);
  }

  /** Every entry of an all-nice ranking earns exactly one new player. */
  lemma NiceRankingSingles(before: seq<Player>, draws: SeasonDraws, ranked: seq<Scored>)
    requires AllNice(before) && IsSeasonRanking(before, draws, ranked)
    ensures forall i :: 0 <= i < |ranked| ==> Offspring(ranked[i].fitness) == 1
  {
    forall i | 0 <= i < |ranked|
      ensures Offspring(ranked[i].fitness) == 1
    {
      NiceFitness(before, draws, ranked[i].player.name);
    }
  }

  /** The newcomers appended by `Extends` carry the appended kinds, in order. */
  lemma NewcomerKinds(before: seq<Player>, kinds: seq<StrategyType>, after: seq<Player>)
    requires Extends(before, kinds, after)
    ensures after == before + after[|before|..]
    ensures KindsOf(after[|before|..]) == kinds
  {
    var n := |before|;
    var newcomers := after[n..];
    assert after == after[..n] + newcomers;
    forall i | 0 <= i < |kinds|
      ensures KindsOf(newcomers)[i] == kinds[i]
    {
      KindsAt(newcomers, i);
    }
  }

  /** When the newcomers repeat the kinds of a permutation of the population, each kind's
      count doubles, and a nice population stays nice. */
  lemma NewcomersAreRanked(before: seq<Player>, kinds: seq<StrategyType>, after: seq<Player>, ranked: seq<Scored>)
    requires multiset(PlayersOf(ranked)) == multiset(before) && |ranked| == |before|
    requires KindsOf(PlayersOf(ranked)) == kinds
    requires Extends(before, kinds, after)
    requires AllNice(before)
    ensures |after| == 2 * |before| && StartsWith(after, before)
    ensures multiset(KindsOf(after)) == multiset(KindsOf(before)) + multiset(KindsOf(before))
    ensures AllNice(after)
  {
    var n := |before|;
    NewcomerKinds(before, kinds, after);
    KindsPermutation(PlayersOf(ranked), before);
    KindsAppend(before, after[n..]);
    forall j | 0 <= j < |after|
      ensures IsNice(after[j].strategyType)
    {
      if j >= n {
        var i := j - n;
        KindsAt(PlayersOf(ranked), i);
        assert PlayersOf(ranked)[i] in multiset(before);
      }
    }
  }

  /** Every consecutive pair of `populations` is one season apart, season s playing with
      draws(s). */
  ghost predicate Chain(populations: seq<seq<Player>>, draws: nat -> SeasonDraws)
  {
    forall s :: 0 <= s < |populations| - 1 ==> SeasonStep(populations[s], populations[s + 1], draws(s))
  }

  lemma ChainAppend(populations: seq<seq<Player>>, draws: nat -> SeasonDraws, next: seq<Player>)
    requires Chain(populations, draws) && populations != []
    requires SeasonStep(populations[|populations| - 1], next, draws(|populations| - 1))
    ensures Chain(populations + [next], draws)
  {
    var all := populations + [next];
    forall s | 0 <= s < |all| - 1
      ensures SeasonStep(all[s], all[s + 1], draws(s))
    {
      if s + 1 < |populations| {
        assert all[s] == populations[s] && all[s + 1] == populations[s + 1];
      }
    }
  }

  /** A season keeps the names of a population unique. */
  lemma SeasonKeepsUnique(before: seq<Player>, after: seq<Player>, draws: SeasonDraws)
    requires UniqueNames(before) && SeasonStep(before, after, draws)
    ensures UniqueNames(after)
  {
    var ranked: seq<Scored> :| IsSeasonRanking(before, draws, ranked) && Extends(before, Additions(ranked), after);
    ExtendsKeepsUnique(before, Additions(ranked), after);
  }

  function Pow2(s: nat): (p: nat)
    ensures p >= 1
  {
    if s == 0 then 1 else 2 * Pow2(s - 1)
  }

  /** `after` has twice the players of `before`, each kind twice as often, all nice with
      unique names. */
  ghost predicate NiceDoubling(before: seq<Player>, after: seq<Player>)
  {
    && AllNice(after) && UniqueNames(after) && |after| == 2 * |before|
    && forall t :: multiset(KindsOf(after))[t] == 2 * multiset(KindsOf(before))[t]
  }

  /** One all-nice season of a chain, on unique names, doubles the population and each
      kind's count. */
  lemma NiceStep(populations: seq<seq<Player>>, draws: nat -> SeasonDraws, s: nat)
    requires Chain(populations, draws) && s + 1 < |populations|
    requires AllNice(populations[s]) && UniqueNames(populations[s])
    ensures NiceDoubling(populations[s], populations[s + 1])
  {
    var before, after := populations[s], populations[s + 1];
    assert SeasonStep(before, after, draws(s));
    NiceSeasonDoubles(before, after, draws(s));
    SeasonKeepsUnique(before, after, draws(s));
  }

  /** Populations where each nice population with unique names is followed by its
      doubling: after s steps, the population and each kind's count have grown 2^s-fold. */
  lemma {:induction false} NiceGrowth(populations: seq<seq<Player>>, s: nat)
    requires s < |populations|
    requires AllNice(populations[0]) && UniqueNames(populations[0])
    requires forall k :: 0 <= k < |populations| - 1 && AllNice(populations[k]) && UniqueNames(populations[k])
                         ==> NiceDoubling(populations[k], populations[k + 1])
    ensures AllNice(populations[s]) && UniqueNames(populations[s])
    ensures |populations[s]| == Pow2(s) * |populations[0]|
    ensures forall t :: multiset(KindsOf(populations[s]))[t] == Pow2(s) * multiset(KindsOf(populations[0]))[t]
  {
    if s > 0 {
      NiceGrowth(populations, s - 1);
      assert NiceDoubling(populations[s - 1], populations[s]);
      var p := Pow2(s - 1);
      assert Pow2(s) == 2 * p;
      assert |populations[s]| == Pow2(s) * |populations[0]| by {
        DoubleScale(p, |populations[0]|);
      }
      var m0, m1, m2 := multiset(KindsOf(populations[0])), multiset(KindsOf(populations[s - 1])),
                        multiset(KindsOf(populations[s]));
      forall t
        ensures m2[t] == Pow2(s) * m0[t]
      {
        DoubleScale(p, m0[t]);
      }
    } else {
      assert Pow2(0) == 1;
    }
  }

  /** Seasons played from nice players with unique names: after s of them the population
      is 2^s times as large, each kind's count grows 2^s-fold, and all are still nice. */
  lemma NiceSeasons(populations: seq<seq<Player>>, draws: nat -> SeasonDraws, s: nat)
    requires Chain(populations, draws) && s < |populations|
    requires AllNice(populations[0]) && UniqueNames(populations[0])
    ensures AllNice(populations[s]) && UniqueNames(populations[s])
    ensures |populations[s]| == Pow2(s) * |populations[0]|
    ensures forall t :: multiset(KindsOf(populations[s]))[t] == Pow2(s) * multiset(KindsOf(populations[0]))[t]
  {
    forall k | 0 <= k < |populations| - 1 && AllNice(populations[k]) && UniqueNames(populations[k])
      ensures NiceDoubling(populations[k], populations[k + 1])
    {
      NiceStep(populations, draws, k);
    }
    NiceGrowth(populations, s);
  }

  lemma DoubleScale(p: int, x: int)
    ensures 2 * (p * x) == (2 * p) * x
  {
  }

  /** `pop` begins with the players of `pool`, in order. */
  predicate StartsWith(pop: seq<Player>, pool: seq<Player>)
  {
    |pop| >= |pool| && forall k :: 0 <= k < |pool| ==> pop[k] == pool[k]
  }

  lemma StartsWithTransitive(a: seq<Player>, b: seq<Player>, c: seq<Player>)
    requires StartsWith(c, b) && StartsWith(b, a)
    ensures StartsWith(c, a)
  {
  }

  /** One iteration of the season loop: play a season on `pop`, collect the additions and
      append them. */
  method PlayOneSeason(pop: seq<Player>, draws: SeasonDraws) returns (next: seq<Player>)
    ensures SeasonStep(pop, next, draws)
    ensures StartsWith(next, pop)
    ensures UniqueNames(pop) ==> UniqueNames(next)
  {
    var ranked := PlaySeason(pop, draws);
    var kinds := CollectAdditions(ranked);
    next := AppendOffspring(pop, kinds);
    assert forall k :: 0 <= k < |pop| ==> next[k] == next[..|pop|][k];
    assert SeasonStep(pop, next, draws);
    if UniqueNames(pop) {
      ExtendsKeepsUnique(pop, kinds, next);
    }
  }

  /** The state of the season loop after `i` seasons. */
  ghost predicate Grown(players: seq<Player>, draws: nat -> SeasonDraws, i: nat, pop: seq<Player>,
                        populations: seq<seq<Player>>)
  {
    && |populations| == i + 1 && populations[0] == players && populations[i] == pop
    && Chain(populations, draws)
    && StartsWith(pop, players)
    && (UniqueNames(players) ==> UniqueNames(pop))
  }

  lemma GrownStep(players: seq<Player>, draws: nat -> SeasonDraws, i: nat, pop: seq<Player>,
                  populations: seq<seq<Player>>, next: seq<Player>)
    requires Grown(players, draws, i, pop, populations)
    requires SeasonStep(pop, next, draws(i)) && StartsWith(next, pop)
    requires UniqueNames(pop) ==> UniqueNames(next)
    ensures Grown(players, draws, i + 1, next, populations + [next])
  {
    ChainAppend(populations, draws, next);
    StartsWithTransitive(players, pop, next);
  }

  /** Plays `seasonLength` seasons in a row, each on the population grown by the one before;
      `populations` records the population before each season and after the last. */
  method PlayMultiSeason(players: seq<Player>, seasonLength: int, draws: nat -> SeasonDraws)
    returns (pop: seq<Player>, ghost populations: seq<seq<Player>>)
    ensures |populations| == (if seasonLength < 0 then 0 else seasonLength) + 1
    ensures populations[0] == players && populations[|populations| - 1] == pop
    ensures Chain(populations, draws)
    ensures StartsWith(pop, players)
    ensures UniqueNames(players) ==> UniqueNames(pop)
    ensures seasonLength <= 0 ==> pop == players
  {
    pop := players;
    populations := [players];
    var i := 0;
    while i < seasonLength
      invariant 0 <= i && (seasonLength >= 0 ==> i <= seasonLength) && (seasonLength < 0 ==> i == 0)
      invariant Grown(players, draws, i, pop, populations)
    {
      var next := PlayOneSeason(pop, draws(i));
      GrownStep(players, draws, i, pop, populations, next);
      populations := populations + [next];
      pop := next;
      i := i + 1;
    }
  }
}
