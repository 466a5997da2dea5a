/** A season: every pairing of the population with repetition plays one match, each player's
    match scores are averaged per round, and the players are ranked by that fitness. */
module Seasons {
  import opened Rounds
  import opened Players
  import opened Matches

  /** The draws of a season, by match index. */
  type SeasonDraws = nat -> MatchDraws

  /* ---------- The pairings: combinations with replacement of the player indices ---------- */

  /** The pairs (i, j), (i, j + 1), ..., (i, n - 1). */
  function Row(i: nat, j: nat, n: nat): (ps: seq<(nat, nat)>)
    requires j <= n
    ensures |ps| == n - j
    ensures forall m :: 0 <= m < |ps| ==> ps[m] == (i, j + m)
    decreases n - j
  {
    if j == n then [] else [(i, j)] + Row(i, j + 1, n)
  }

  predicate LexLess(a: (nat, nat), b: (nat, nat))
  {
    a.0 < b.0 || (a.0 == b.0 && a.1 < b.1)
  }

  /** All pairs (a, b) with i <= a <= b < n, row by row. */
  function PairsFrom(i: nat, n: nat): (ps: seq<(nat, nat)>)
    requires i <= n
    ensures forall m :: 0 <= m < |ps| ==> i <= ps[m].0 <= ps[m].1 < n
    decreases n - i
  {
    if i == n then [] else Row(i, i, n) + PairsFrom(i + 1, n)
  }

  lemma {:induction false} PairsFromLength(i: nat, n: nat)
    requires i <= n
    ensures 2 * |PairsFrom(i, n)| == (n - i) * (n - i + 1)
    decreases n - i
  {
    if i < n {
      PairsFromLength(i + 1, n);
      var k := n - i;
      assert k * (k + 1) == (k - 1) * k + 2 * k;
    }
  }

  /** The pairs come in strictly increasing lexicographic order, so none repeats. */
  lemma {:induction false} PairsFromOrdered(i: nat, n: nat)
    requires i <= n
    ensures forall m1, m2 :: 0 <= m1 < m2 < |PairsFrom(i, n)| ==> LexLess(PairsFrom(i, n)[m1], PairsFrom(i, n)[m2])
    decreases n - i
  {
    if i < n {
      PairsFromOrdered(i + 1, n);
      var row := Row(i, i, n);
      var rest := PairsFrom(i + 1, n);
      var ps := row + rest;
      assert PairsFrom(i, n) == ps;
      assert forall m :: |row| <= m < |ps| ==> ps[m] == rest[m - |row|];
    }
  }

  /** Every pair (a, b) with i <= a <= b < n is enumerated. */
  lemma {:induction false} PairsFromComplete(i: nat, n: nat, a: nat, b: nat)
    requires i <= a <= b < n
    ensures (a, b) in PairsFrom(i, n)
    decreases n - i
  {
    var row := Row(i, i, n);
    var rest := PairsFrom(i + 1, n);
    assert PairsFrom(i, n) == row + rest;
    if a == i {
      assert row[b - i] == (a, b);
    } else {
      PairsFromComplete(i + 1, n, a, b);
    }
  }

  /** The pairings of a season of `n` players, in the order of combinations with
      replacement: n(n+1)/2 index pairs i <= j < n. */
  function Pairs(n: nat): (ps: seq<(nat, nat)>)
    ensures forall m :: 0 <= m < |ps| ==> ps[m].0 <= ps[m].1 < n
  {
    PairsFrom(0, n)
  }

  /** A season of n players plays n(n+1)/2 matches, and every index pair i <= j < n is
      played exactly once: all are enumerated, and in strictly increasing order. */
  lemma PairsExactlyOnce(n: nat)
    ensures 2 * |Pairs(n)| == n * (n + 1)
    ensures forall a, b :: 0 <= a <= b < n ==> (a, b) in Pairs(n)
    ensures forall m1, m2 :: 0 <= m1 < m2 < |Pairs(n)| ==> LexLess(Pairs(n)[m1], Pairs(n)[m2])
  {
    PairsFromLength(0, n);
    PairsFromOrdered(0, n);
    forall a, b | 0 <= a <= b < n
      ensures (a, b) in Pairs(n)
    {
      PairsFromComplete(0, n, a, b);
    }
  }

  /** How many slots of the pairs hold index k (a self-pairing holds it twice). */
  function Count(ps: seq<(nat, nat)>, k: nat): nat
  {
    if ps == [] then 0
    else
      var m := |ps| - 1;
      Count(ps[..m], k) + (if ps[m].0 == k then 1 else 0) + (if ps[m].1 == k then 1 else 0)
  }

  lemma {:induction false} CountAppend(a: seq<(nat, nat)>, b: seq<(nat, nat)>, k: nat)
    ensures Count(a + b, k) == Count(a, k) + Count(b, k)
  {
    if b == [] {
      assert a + b == a;
    } else {
      var m := |b| - 1;
      CountAppend(a, b[..m], k);
      assert (a + b)[..|a + b| - 1] == a + b[..m];
    }
  }

  lemma {:induction false} RowCount(i: nat, j: nat, n: nat, k: nat)
    requires j <= n
    ensures Count(Row(i, j, n), k) == (if i == k then n - j else 0) + (if j <= k < n then 1 else 0)
    decreases n - j
  {
    if j < n {
      RowCount(i, j + 1, n, k);
      CountAppend([(i, j)], Row(i, j + 1, n), k);
      assert [(i, j)][..0] == [];
    }
  }

  lemma {:induction false} PairsFromCount(i: nat, n: nat, k: nat)
    requires i <= n && k < n
    ensures Count(PairsFrom(i, n), k) == if i <= k then n - i + 1 else 0
    decreases n - i
  {
    if i < n {
      var row := Row(i, i, n);
      var rest := PairsFrom(i + 1, n);
      assert PairsFrom(i, n) == row + rest;
      CountAppend(row, rest, k);
      RowCount(i, i, n, k);
      PairsFromCount(i + 1, n, k);
      var c, d := Count(row, k), Count(rest, k);
      assert c == (if i == k then n - i else 0) + (if i <= k then 1 else 0);
      assert d == if i + 1 <= k then n - i else 0;
    }
  }

  /** Each of the n players takes part in n + 1 match slots: one per other player and two
      in its self-pairing. */
  lemma PairsCount(n: nat, k: nat)
    requires k < n
    ensures Count(Pairs(n), k) == n + 1
  {
    PairsFromCount(0, n, k);
  }

  /* ---------- Collecting each player's match scores ---------- */

  predicate PairsWithin(ps: seq<(nat, nat)>, n: nat)
  {
    forall m :: 0 <= m < |ps| ==> ps[m].0 < n && ps[m].1 < n
  }

  /** The scores recorded under `name` after the matches of `ps` (with scores `scores`):
      each match pushes its first score under the first player's name, then its second
      score under the second player's name. */
  function Entries(players: seq<Player>, ps: seq<(nat, nat)>, scores: seq<(int, int)>, name: Name): seq<int>
    requires |scores| == |ps| && PairsWithin(ps, |players|)
  {
    if ps == [] then []
    else
      var m := |ps| - 1;
      var before := Entries(players, ps[..m], scores[..m], name);
      before + (if players[ps[m].0].name == name then [scores[m].0] else [])
             + (if players[ps[m].1].name == name then [scores[m].1] else [])
  }

  /** With unique names, a player's entries are one per slot it holds. */
  lemma {:induction false} EntriesCount(players: seq<Player>, ps: seq<(nat, nat)>, scores: seq<(int, int)>, k: nat)
    requires |scores| == |ps| && PairsWithin(ps, |players|)
    requires UniqueNames(players) && k < |players|
    ensures |Entries(players, ps, scores, players[k].name)| == Count(ps, k)
  {
    if ps != [] {
      var m := |ps| - 1;
      EntriesCount(players, ps[..m], scores[..m], k);
    }
  }

  predicate ScoresWithin(scores: seq<(int, int)>)
  {
    forall m :: 0 <= m < |scores| ==> 0 <= scores[m].0 <= 5 * MatchLength && 0 <= scores[m].1 <= 5 * MatchLength
  }

  lemma {:induction false} EntriesBounded(players: seq<Player>, ps: seq<(nat, nat)>, scores: seq<(int, int)>, name: Name)
    requires |scores| == |ps| && PairsWithin(ps, |players|)
    requires ScoresWithin(scores)
    ensures forall x :: x in Entries(players, ps, scores, name) ==> 0 <= x <= 5 * MatchLength
  {
    if ps != [] {
      var m := |ps| - 1;
      EntriesBounded(players, ps[..m], scores[..m], name);
    }
  }

  function Sum(xs: seq<int>): int
  {
    if xs == [] then 0 else Sum(xs[..|xs| - 1]) + xs[|xs| - 1]
  }

  lemma {:induction false} SumBounds(xs: seq<int>)
    requires forall x :: x in xs ==> 0 <= x <= 5 * MatchLength
    ensures 0 <= Sum(xs) <= 5 * (MatchLength * |xs|)
  {
    if xs != [] {
      var before := xs[..|xs| - 1];
      assert forall x :: x in before ==> x in xs;
      SumBounds(before);
      assert xs[|xs| - 1] in xs;
    }
  }

  /** The scores of the season's matches, in pairing order. */
  function SeasonScores(players: seq<Player>, draws: SeasonDraws): (scores: seq<(int, int)>)
    ensures |scores| == |Pairs(|players|)|
  {
    var ps := Pairs(|players|);
    seq(|ps|, m requires 0 <= m < |ps| => MatchScore((players[ps[m].0], players[ps[m].1]), draws(m)))
  }

  /** Every match score of a season lies in 0..1000. */
  lemma SeasonScoresWithin(players: seq<Player>, draws: SeasonDraws)
    ensures ScoresWithin(SeasonScores(players, draws))
  {
    var ps, scores := Pairs(|players|), SeasonScores(players, draws);
    forall m | 0 <= m < |scores|
      ensures 0 <= scores[m].0 <= 5 * MatchLength && 0 <= scores[m].1 <= 5 * MatchLength
    {
      var s := MatchScore((players[ps[m].0], players[ps[m].1]), draws(m));
      assert scores[m] == s;
    }
  }

  /** Every match score a name collects over the season. */
  function SeasonEntries(players: seq<Player>, draws: SeasonDraws, name: Name): seq<int>
  {
    Entries(players, Pairs(|players|), SeasonScores(players, draws), name)
  }

  lemma SeasonEntriesBounded(players: seq<Player>, draws: SeasonDraws, name: Name)
    ensures forall x :: x in SeasonEntries(players, draws, name) ==> 0 <= x <= 5 * MatchLength
  {
    SeasonScoresWithin(players, draws);
    EntriesBounded(players, Pairs(|players|), SeasonScores(players, draws), name);
  }

  /* ---------- Fitness ---------- */

  /** A fitness as an exact fraction: points scored over rounds played. */
  datatype Fitness = Fitness(total: int, rounds: nat)

  /** Fitness `a` is at most fitness `b` (cross-multiplied, both denominators positive). */
  predicate AtMost(a: Fitness, b: Fitness)
  {
    a.total * b.rounds <= b.total * a.rounds
  }

  /** A name's fitness: its summed match scores over 200 rounds per match; the average
      per-round payoff always lies in [0, 5]. */
  function SeasonFitness(players: seq<Player>, draws: SeasonDraws, name: Name): (f: Fitness)
    ensures 0 <= f.total <= 5 * f.rounds
  {
    var e := SeasonEntries(players, draws, name);
    SeasonEntriesBounded(players, draws, name);
    SumBounds(e);
    Fitness(Sum(e), MatchLength * |e|)
  }

  /** With unique names, every player plays n + 1 matches, so its fitness is its summed
      scores over 200 (n + 1) rounds. */
  lemma PlayerFitness(players: seq<Player>, draws: SeasonDraws, k: nat)
    requires UniqueNames(players) && k < |players|
    ensures |SeasonEntries(players, draws, players[k].name)| == |players| + 1
    ensures SeasonFitness(players, draws, players[k].name).rounds == MatchLength * (|players| + 1)
  {
    EntriesCount(players, Pairs(|players|), SeasonScores(players, draws), k);
    PairsCount(|players|, k);
  }

  /* ---------- Ranking ---------- */

  datatype Scored = Scored(player: Player, fitness: Fitness)

  /** Ascending by fitness, neighbour by neighbour. */
  predicate SortedByFitness(s: seq<Scored>)
  {
    forall i :: 0 < i < |s| ==> AtMost(s[i - 1].fitness, s[i].fitness)
  }

  lemma AtMostTransitive(a: Fitness, b: Fitness, c: Fitness)
    requires a.rounds > 0 && b.rounds > 0 && c.rounds > 0
    requires AtMost(a, b) && AtMost(b, c)
    ensures AtMost(a, c)
  {
    assert a.total * b.rounds * c.rounds <= b.total * a.rounds * c.rounds;
    assert b.total * c.rounds * a.rounds <= c.total * b.rounds * a.rounds;
    assert (a.total * c.rounds) * b.rounds <= (c.total * a.rounds) * b.rounds;
  }

  /** A ranking sorted neighbour by neighbour is sorted between any two positions. */
  lemma {:induction false} SortedIsOrdered(s: seq<Scored>, i: nat, j: nat)
    requires SortedByFitness(s) && forall k :: 0 <= k < |s| ==> s[k].fitness.rounds > 0
    requires i <= j < |s|
    ensures AtMost(s[i].fitness, s[j].fitness)
    decreases j - i
  {
    if i < j {
      SortedIsOrdered(s, i, j - 1);
      AtMostTransitive(s[i].fitness, s[j - 1].fitness, s[j].fitness);
    }
  }

  /** Inserts `x` before the first entry it does not exceed. */
  function Insert(s: seq<Scored>, x: Scored): (r: seq<Scored>)
    ensures multiset(r) == multiset(s) + multiset{x}
    ensures |r| == |s| + 1 && (r[0] == x || (s != [] && r[0] == s[0]))
  {
    if s == [] || AtMost(x.fitness, s[0].fitness) then [x] + s
    else
      assert s == [s[0]] + s[1..];
      [s[0]] + Insert(s[1..], x)
  }

  lemma {:induction false} InsertSorted(s: seq<Scored>, x: Scored)
    requires SortedByFitness(s)
    ensures SortedByFitness(Insert(s, x))
  {
    if s != [] && !AtMost(x.fitness, s[0].fitness) {
      InsertSorted(s[1..], x);
      var rest := Insert(s[1..], x);
      assert Insert(s, x) == [s[0]] + rest;
      assert AtMost(s[0].fitness, rest[0].fitness);
    }
  }

  /** Sorts ascending by fitness, keeping the same entries. */
  method SortByFitness(s: seq<Scored>) returns (r: seq<Scored>)
    ensures multiset(r) == multiset(s)
    ensures SortedByFitness(r)
  {
    r := [];
    for i := 0 to |s|
      invariant multiset(r) == multiset(s[..i])
      invariant SortedByFitness(r)
    {
      InsertSorted(r, s[i]);
      r := Insert(r, s[i]);
      assert s[..i + 1] == s[..i] + [s[i]];
    }
    assert s[..|s|] == s;
  }

  predicate HasName(players: seq<Player>, name: Name)
  {
    exists k :: 0 <= k < |players| && players[k].name == name
  }

  /** The first player with the given name. */
  function FindByName(players: seq<Player>, name: Name): (p: Player)
    requires HasName(players, name)
    ensures p in players && p.name == name
    ensures exists k :: 0 <= k < |players| && players[k] == p && forall j :: 0 <= j < k ==> players[j].name != name
    ensures UniqueNames(players) ==> forall k :: 0 <= k < |players| && players[k].name == name ==> p == players[k]
  {
    if players[0].name == name then players[0]
    else
      assert HasName(players[1..], name) by {
        var k :| 0 <= k < |players| && players[k].name == name;
        assert players[1..][k - 1] == players[k];
      }
      FindByName(players[1..], name)
  }

  predicate DistinctNames(s: seq<Scored>)
  {
    forall i, j :: 0 <= i < j < |s| ==> s[i].player.name != s[j].player.name
  }

  /** Every entry names one of the players, as the first player carrying that name. */
  predicate ReportsPlayers(players: seq<Player>, ranked: seq<Scored>)
  {
    forall i :: 0 <= i < |ranked| ==>
      HasName(players, ranked[i].player.name) && ranked[i].player == FindByName(players, ranked[i].player.name)
  }

  /** Every entry carries its name's season fitness, over a positive number of rounds. */
  predicate ReportsFitness(players: seq<Player>, draws: SeasonDraws, ranked: seq<Scored>)
  {
    forall i :: 0 <= i < |ranked| ==>
      ranked[i].fitness == SeasonFitness(players, draws, ranked[i].player.name) && ranked[i].fitness.rounds > 0
  }

  /** Some entry carries the name `nm`. */
  predicate Mentions(ranked: seq<Scored>, nm: Name)
  {
    exists i :: 0 <= i < |ranked| && ranked[i].player.name == nm
  }

  /** Every player's name has an entry. */
  predicate CoversPlayers(players: seq<Player>, ranked: seq<Scored>)
  {
    forall k :: 0 <= k < |players| ==> Mentions(ranked, players[k].name)
  }

  /** A season's result: one entry per player name, each with that name's fitness, sorted
      ascending by fitness. */
  predicate IsSeasonRanking(players: seq<Player>, draws: SeasonDraws, ranked: seq<Scored>)
  {
    && ReportsPlayers(players, ranked)
    && ReportsFitness(players, draws, ranked)
    && CoversPlayers(players, ranked)
    && DistinctNames(ranked)
    && SortedByFitness(ranked)
  }

  /** Appends a score to the list kept under a name, starting the list when the name is new. */
  function Push(results: map<Name, seq<int>>, name: Name, score: int): (r: map<Name, seq<int>>)
    ensures r.Keys == results.Keys + {name}
    ensures r[name] == (if name in results then results[name] else []) + [score]
    ensures forall nm :: nm in results && nm != name ==> r[nm] == results[nm]
  {
    if name in results then results[name := results[name] + [score]] else results[name := [score]]
  }

  /** `results` holds, under `nm`, exactly the entries of the matches `ps` so far. */
  ghost predicate HoldsEntriesOf(players: seq<Player>, ps: seq<(nat, nat)>, scores: seq<(int, int)>,
                                 results: map<Name, seq<int>>, nm: Name)
    requires |scores| == |ps| && PairsWithin(ps, |players|)
  {
    if nm in results then HasName(players, nm) && results[nm] != [] && results[nm] == Entries(players, ps, scores, nm)
    else Entries(players, ps, scores, nm) == []
  }

  /** `results` holds, under each name, exactly the entries of the matches `ps` so far. */
  ghost predicate HoldsEntries(players: seq<Player>, ps: seq<(nat, nat)>, scores: seq<(int, int)>, results: map<Name, seq<int>>)
    requires |scores| == |ps| && PairsWithin(ps, |players|)
  {
    forall nm :: HoldsEntriesOf(players, ps, scores, results, nm)
  }

  /** Pushing the two scores of the newest match keeps one name's list in step with `Entries`. */
  lemma PushMatchOf(players: seq<Player>, ps: seq<(nat, nat)>, scores: seq<(int, int)>, results: map<Name, seq<int>>, nm: Name)
    requires |scores| == |ps| && PairsWithin(ps, |players|) && ps != []
    requires HoldsEntriesOf(players, ps[..|ps| - 1], scores[..|ps| - 1], results, nm)
    ensures HoldsEntriesOf(players, ps, scores,
              Push(Push(results, players[ps[|ps| - 1].0].name, scores[|ps| - 1].0),
                   players[ps[|ps| - 1].1].name, scores[|ps| - 1].1), nm)
  {
    var m := |ps| - 1;
    var a, b := players[ps[m].0].name, players[ps[m].1].name;
    var r2 := Push(Push(results, a, scores[m].0), b, scores[m].1);
    var before := Entries(players, ps[..m], scores[..m], nm);
    var added := (if a == nm then [scores[m].0] else []) + (if b == nm then [scores[m].1] else []);
    assert Entries(players, ps, scores, nm) == before + added;
    var held := if nm in results then results[nm] else [];
    if nm == a || nm == b {
      assert HasName(players, a) && HasName(players, b);
      assert r2[nm] == held + added;
    }
  }

  /** Pushing the two scores of the newest match keeps the map in step with `Entries`. */
  lemma PushMatch(players: seq<Player>, ps: seq<(nat, nat)>, scores: seq<(int, int)>, results: map<Name, seq<int>>)
    requires |scores| == |ps| && PairsWithin(ps, |players|) && ps != []
    requires HoldsEntries(players, ps[..|ps| - 1], scores[..|ps| - 1], results)
    ensures HoldsEntries(players, ps, scores,
              Push(Push(results, players[ps[|ps| - 1].0].name, scores[|ps| - 1].0),
                   players[ps[|ps| - 1].1].name, scores[|ps| - 1].1))
  {
    var m := |ps| - 1;
    var r2 := Push(Push(results, players[ps[m].0].name, scores[m].0), players[ps[m].1].name, scores[m].1);
    forall nm
      ensures HoldsEntriesOf(players, ps, scores, r2, nm)
    {
      PushMatchOf(players, ps, scores, results, nm);
    }
  }

  /** Every name that played one of the first `m` matches is a key. */
  ghost predicate KeysCover(players: seq<Player>, ps: seq<(nat, nat)>, m: nat, results: map<Name, seq<int>>)
    requires m <= |ps| && PairsWithin(ps, |players|)
  {
    forall m' :: 0 <= m' < m ==> players[ps[m'].0].name in results && players[ps[m'].1].name in results
  }

  lemma KeysCoverStep(players: seq<Player>, ps: seq<(nat, nat)>, m: nat, results: map<Name, seq<int>>, x: int, y: int)
    requires m < |ps| && PairsWithin(ps, |players|) && KeysCover(players, ps, m, results)
    ensures KeysCover(players, ps, m + 1,
              Push(Push(results, players[ps[m].0].name, x), players[ps[m].1].name, y))
  {
  }

  /** The state after the first `m` matches: the map holds every name's entries so far,
      and every name that has played is a key. */
  ghost predicate CollectedUpTo(players: seq<Player>, ps: seq<(nat, nat)>, scores: seq<(int, int)>, m: nat,
                                results: map<Name, seq<int>>)
    requires |scores| == |ps| && PairsWithin(ps, |players|)
  {
    && m <= |ps|
    && HoldsEntries(players, ps[..m], scores[..m], results)
    && KeysCover(players, ps, m, results)
  }

  lemma CollectStep(players: seq<Player>, ps: seq<(nat, nat)>, scores: seq<(int, int)>, m: nat,
                    results: map<Name, seq<int>>)
    requires |scores| == |ps| && PairsWithin(ps, |players|)
    requires m < |ps| && CollectedUpTo(players, ps, scores, m, results)
    ensures CollectedUpTo(players, ps, scores, m + 1,
              Push(Push(results, players[ps[m].0].name, scores[m].0), players[ps[m].1].name, scores[m].1))
  {
    PushMatchAt(players, ps, scores, m, results);
    KeysCoverStep(players, ps, m, results, scores[m].0, scores[m].1);
  }

  /** After all matches, every name holds exactly its entries, and every name that holds a
      self-pairing is a key. */
  lemma CollectedAll(players: seq<Player>, ps: seq<(nat, nat)>, scores: seq<(int, int)>, results: map<Name, seq<int>>)
    requires |scores| == |ps| && PairsWithin(ps, |players|)
    requires CollectedUpTo(players, ps, scores, |ps|, results)
    ensures forall nm :: nm in results ==> HasName(players, nm) && results[nm] != []
    ensures forall nm :: nm in results ==> results[nm] == Entries(players, ps, scores, nm)
    ensures forall nm :: nm !in results ==> Entries(players, ps, scores, nm) == []
    ensures KeysCover(players, ps, |ps|, results)
  {
    assert ps[..|ps|] == ps && scores[..|ps|] == scores;
    forall nm
      ensures nm in results ==> HasName(players, nm) && results[nm] != [] && results[nm] == Entries(players, ps, scores, nm)
      ensures nm !in results ==> Entries(players, ps, scores, nm) == []
    {
      assert HoldsEntriesOf(players, ps[..|ps|], scores[..|ps|], results, nm);
    }
  }

  lemma PushMatchAt(players: seq<Player>, ps: seq<(nat, nat)>, scores: seq<(int, int)>, m: nat, results: map<Name, seq<int>>)
    requires |scores| == |ps| && PairsWithin(ps, |players|) && m < |ps|
    requires HoldsEntries(players, ps[..m], scores[..m], results)
    ensures HoldsEntries(players, ps[..m + 1], scores[..m + 1],
              Push(Push(results, players[ps[m].0].name, scores[m].0), players[ps[m].1].name, scores[m].1))
  {
    assert ps[..m + 1][..m] == ps[..m];
    assert scores[..m + 1][..m] == scores[..m];
    PushMatch(players, ps[..m + 1], scores[..m + 1], results);
  }

  /** Plays one match per pairing and pushes each side's score onto the list kept under
      that player's name; afterwards every name holds exactly its season entries. */
  method CollectResults(players: seq<Player>, draws: SeasonDraws) returns (results: map<Name, seq<int>>)
    ensures forall nm :: nm in results ==> HasName(players, nm) && results[nm] != []
    ensures forall nm :: nm in results ==> results[nm] == SeasonEntries(players, draws, nm)
    ensures forall nm :: nm !in results ==> SeasonEntries(players, draws, nm) == []
    ensures forall k :: 0 <= k < |players| ==> players[k].name in results
  {
    var pairs := Pairs(|players|);
    ghost var scores := SeasonScores(players, draws);
    results := map[];
    for m := 0 to |pairs|
      invariant CollectedUpTo(players, pairs, scores, m, results)
    {
      var game := (players[pairs[m].0], players[pairs[m].1]);
      var result := PlayMatch(game, draws(m));
      assert result == scores[m];
      CollectStep(players, pairs, scores, m, results);
      results := Push(results, game.0.name, result.0);
      results := Push(results, game.1.name, result.1);
    }
    CollectedAll(players, pairs, scores, results);
    forall k | 0 <= k < |players|
      ensures players[k].name in results
    {
      PairsFromComplete(0, |players|, k, k);
      var m :| 0 <= m < |pairs| && pairs[m] == (k, k);
    }
  }

  /** The entries made so far for the names in `done`, one per name. */
  ghost predicate ScoredSoFar(players: seq<Player>, draws: SeasonDraws, done: set<Name>, unsorted: seq<Scored>)
  {
    && (forall i :: 0 <= i < |unsorted| ==> unsorted[i].player.name in done)
    && (forall nm :: nm in done ==> Mentions(unsorted, nm))
    && ReportsPlayers(players, unsorted)
    && ReportsFitness(players, draws, unsorted)
    && DistinctNames(unsorted)
  }

  /** Appending an entry for a name not yet done keeps names distinct and covered. */
  lemma StepNames(done: set<Name>, unsorted: seq<Scored>, entry: Scored)
    requires forall i :: 0 <= i < |unsorted| ==> unsorted[i].player.name in done
    requires forall nm :: nm in done ==> Mentions(unsorted, nm)
    requires DistinctNames(unsorted) && entry.player.name !in done
    ensures forall i :: 0 <= i < |unsorted + [entry]| ==> (unsorted + [entry])[i].player.name in done + {entry.player.name}
    ensures forall nm :: nm in done + {entry.player.name} ==> Mentions(unsorted + [entry], nm)
    ensures DistinctNames(unsorted + [entry])
  {
    var after := unsorted + [entry];
    var n := |unsorted|;
    forall i | 0 <= i < |after|
      ensures after[i].player.name in done + {entry.player.name}
    {
      if i < n {
        assert after[i] == unsorted[i];
      }
    }
    forall i, j | 0 <= i < j < |after|
      ensures after[i].player.name != after[j].player.name
    {
      assert after[i] == unsorted[i];
      if j < n {
        assert after[j] == unsorted[j];
      }
    }
    forall nm | nm in done + {entry.player.name}
      ensures Mentions(after, nm)
    {
      if nm == entry.player.name {
        assert after[n].player.name == nm;
      } else {
        var i :| 0 <= i < n && unsorted[i].player.name == nm;
        assert after[i] == unsorted[i];
      }
    }
  }

  /** Appending a correct entry keeps every entry correct. */
  lemma StepReports(players: seq<Player>, draws: SeasonDraws, unsorted: seq<Scored>, entry: Scored)
    requires ReportsPlayers(players, unsorted) && ReportsFitness(players, draws, unsorted)
    requires HasName(players, entry.player.name) && entry.player == FindByName(players, entry.player.name)
    requires entry.fitness == SeasonFitness(players, draws, entry.player.name) && entry.fitness.rounds > 0
    ensures ReportsPlayers(players, unsorted + [entry]) && ReportsFitness(players, draws, unsorted + [entry])
  {
    var after := unsorted + [entry];
    forall i | 0 <= i < |after|
      ensures HasName(players, after[i].player.name) && after[i].player == FindByName(players, after[i].player.name)
      ensures after[i].fitness == SeasonFitness(players, draws, after[i].player.name) && after[i].fitness.rounds > 0
    {
      if i < |unsorted| {
        assert after[i] == unsorted[i];
      }
    }
  }

  lemma ScoreStep(players: seq<Player>, draws: SeasonDraws, done: set<Name>, unsorted: seq<Scored>, nm: Name, entries: seq<int>)
    requires ScoredSoFar(players, draws, done, unsorted) && nm !in done
    requires HasName(players, nm) && entries != [] && entries == SeasonEntries(players, draws, nm)
    ensures ScoredSoFar(players, draws, done + {nm},
              unsorted + [Scored(FindByName(players, nm), Fitness(Sum(entries), MatchLength * |entries|))])
  {
    var entry := Scored(FindByName(players, nm), Fitness(Sum(entries), MatchLength * |entries|));
    assert entry.fitness == SeasonFitness(players, draws, nm);
    StepNames(done, unsorted, entry);
    StepReports(players, draws, unsorted, entry);
  }

  /** Turns each name's list of match scores into one entry, visiting the names in an
      arbitrary order (the map's iteration order). */
  method ScoreResults(players: seq<Player>, draws: SeasonDraws, results: map<Name, seq<int>>)
    returns (unsorted: seq<Scored>)
    requires forall nm :: nm in results ==> HasName(players, nm) && results[nm] != []
    requires forall nm :: nm in results ==> results[nm] == SeasonEntries(players, draws, nm)
    ensures ReportsPlayers(players, unsorted) && ReportsFitness(players, draws, unsorted)
    ensures DistinctNames(unsorted)
    ensures forall i :: 0 <= i < |unsorted| ==> unsorted[i].player.name in results
    ensures forall nm :: nm in results ==> Mentions(unsorted, nm)
  {
    unsorted := [];
    var remaining := results.Keys;
    ghost var done: set<Name> := {};
    while remaining != {}
      invariant done + remaining == results.Keys && done !! remaining
      invariant ScoredSoFar(players, draws, done, unsorted)
      decreases remaining
    {
      var nm :| nm in remaining;
      var player := FindByName(players, nm);
      var playerResults := results[nm];
      ScoreStep(players, draws, done, unsorted, nm, playerResults);
      unsorted := unsorted + [Scored(player, Fitness(Sum(playerResults), MatchLength * |playerResults|))];
      remaining := remaining - {nm};
      done := done + {nm};
    }
  }

  /** Plays a season: one match per pairing, each name's scores collected, one entry per
      name, sorted ascending by fitness. */
  method PlaySeason(players: seq<Player>, draws: SeasonDraws) returns (ranked: seq<Scored>)
    ensures IsSeasonRanking(players, draws, ranked)
  {
    var results := CollectResults(players, draws);
    var unsorted := ScoreResults(players, draws, results);
    forall k | 0 <= k < |players|
      ensures Mentions(unsorted, players[k].name)
    {
      assert players[k].name in results;
    }
    ranked := SortByFitness(unsorted);
    PermutationKeepsEntries(players, draws, unsorted, ranked);
  }

  /** Reordering the entries keeps every per-entry fact and the coverage of the players. */
  lemma PermutationKeepsEntries(players: seq<Player>, draws: SeasonDraws, s: seq<Scored>, r: seq<Scored>)
    requires multiset(s) == multiset(r)
    requires ReportsPlayers(players, s) && ReportsFitness(players, draws, s)
    requires CoversPlayers(players, s) && DistinctNames(s)
    ensures ReportsPlayers(players, r) && ReportsFitness(players, draws, r)
    ensures CoversPlayers(players, r) && DistinctNames(r)
  {
    forall i | 0 <= i < |r|
      ensures exists j :: 0 <= j < |s| && s[j] == r[i]
    {
      assert r[i] in multiset(r);
      assert r[i] in s;
    }
    forall k | 0 <= k < |players|
      ensures Mentions(r, players[k].name)
    {
      var j :| 0 <= j < |s| && s[j].player.name == players[k].name;
      assert s[j] in multiset(s);
      assert s[j] in r;
      var i :| 0 <= i < |r| && r[i] == s[j];
    }
    PermutationKeepsDistinctNames(s, r);
  }

  /** Removing one entry keeps the names distinct, and the removed name no longer occurs. */
  lemma RemoveKeepsDistinct(s: seq<Scored>, p: nat)
    requires DistinctNames(s) && p < |s|
    ensures DistinctNames(s[..p] + s[p + 1..])
    ensures multiset(s[..p] + s[p + 1..]) == multiset(s) - multiset{s[p]}
    ensures forall e :: e in s[..p] + s[p + 1..] ==> e.player.name != s[p].player.name
  {
    var s' := s[..p] + s[p + 1..];
    assert s == s[..p] + [s[p]] + s[p + 1..];
    forall i | 0 <= i < |s'|
      ensures s'[i] == s[if i < p then i else i + 1]
    {
    }
  }

  lemma {:induction false} PermutationKeepsDistinctNames(s: seq<Scored>, r: seq<Scored>)
    requires multiset(s) == multiset(r) && DistinctNames(s)
    ensures DistinctNames(r)
    decreases |r|
  {
    if r != [] {
      var x := r[|r| - 1];
      var r' := r[..|r| - 1];
      assert r == r' + [x];
      assert x in multiset(s);
      var p :| 0 <= p < |s| && s[p] == x;
      var s' := s[..p] + s[p + 1..];
      RemoveKeepsDistinct(s, p);
      assert multiset(r') == multiset(r) - multiset{x};
      PermutationKeepsDistinctNames(s', r');
      forall i | 0 <= i < |r'|
        ensures r'[i].player.name != x.player.name
      {
        assert r'[i] in multiset(s');
      }
    }
  }

  /** The players of a ranking, in ranking order. */
  function PlayersOf(s: seq<Scored>): (ps: seq<Player>)
    ensures |ps| == |s| && forall i :: 0 <= i < |s| ==> ps[i] == s[i].player
  {
    seq(|s|, i requires 0 <= i < |s| => s[i].player)
  }

  lemma {:induction false} DistinctMultiplicity<T>(s: seq<T>, x: T)
    requires forall i, j :: 0 <= i < j < |s| ==> s[i] != s[j]
    ensures multiset(s)[x] == if x in s then 1 else 0
  {
    if s != [] {
      var s' := s[..|s| - 1];
      assert s == s' + [s[|s| - 1]];
      DistinctMultiplicity(s', x);
    }
  }

  /** Two duplicate-free sequences with the same elements are permutations of each other. */
  lemma SameElementsPermutation<T>(a: seq<T>, b: seq<T>)
    requires forall i, j :: 0 <= i < j < |a| ==> a[i] != a[j]
    requires forall i, j :: 0 <= i < j < |b| ==> b[i] != b[j]
    requires forall x :: x in a <==> x in b
    ensures multiset(a) == multiset(b)
  {
    forall x
      ensures multiset(a)[x] == multiset(b)[x]
    {
      DistinctMultiplicity(a, x);
      DistinctMultiplicity(b, x);
    }
  }

  lemma PlayersPermutation(players: seq<Player>, ranked: seq<Scored>)
    requires UniqueNames(players) && ReportsPlayers(players, ranked)
    requires CoversPlayers(players, ranked) && DistinctNames(ranked)
    ensures multiset(PlayersOf(ranked)) == multiset(players)
  {
    var a := PlayersOf(ranked);
    assert forall x :: x in a ==> x in players;
    forall k | 0 <= k < |players|
      ensures players[k] in a
    {
      var i :| 0 <= i < |ranked| && ranked[i].player.name == players[k].name;
      assert a[i] == players[k];
    }
    SameElementsPermutation(a, players);
  }

  /** With unique names a season ranks every player exactly once. */
  lemma RankingIsPermutation(players: seq<Player>, draws: SeasonDraws, ranked: seq<Scored>)
    requires UniqueNames(players) && IsSeasonRanking(players, draws, ranked)
    ensures multiset(PlayersOf(ranked)) == multiset(players)
    ensures |ranked| == |players|
  {
    PlayersPermutation(players, ranked);
    assert |multiset(PlayersOf(ranked))| == |ranked|;
  }
}
