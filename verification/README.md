# Iterated Prisoner's Dilemma: a Dafny model

This project models the simulation engine of `prisoners_dilemma`, an iterated Prisoner's
Dilemma tournament written in Rust. It covers four parts, and proves properties about each:

- **Rounds** (`rounds.dfy`): two choices, `Cooperate` and `Steal`. A round is an ordered pair
  of choices, and four constant rounds are the only ones there are. `flip_round` swaps the two
  perspectives. The fixed payoff table `round_outcome` scores a round as 3/3, 5/0, 0/5 or 1/1.
  `get_scores` folds the payoffs of a history.
- **Strategies** (`players.rs`, modelled in `players.dfy`): the ten strategy kinds and their
  policies. Each randomised policy receives its uniform draw from 0..99 as a parameter.
  `get_strategy` is modelled as the dispatch `Decide`. Every policy turns out to be a threshold
  on the draw: it steals exactly when the draw is below a history-dependent steal chance.
- **Matches and seasons** (`matches.dfy`, `seasons.dfy`):
  - `play_round` gives player 0 the history as it is and player 1 the flipped history.
  - `play_match` runs a 200-round loop that grows the history.
  - `play_season` plays every pairing with replacement and collects each name's match scores
    in a map. It turns each name's list into an average per round, then sorts the entries
    ascending by that average.
- **Evolution** (`evolution.dfy`): `play_multi_season` runs a given number of seasons. After
  each season, every entry whose average beats 2.7 adds one new player of its kind, and an
  average above 3.0 adds a second. New players are appended at the end.

The source has no noise channel: the only mention of noise is a TODO at `src/main.rs:49-51`. The
model follows the code and leaves noise out.

Random draws enter as parameters:

- a round's draws are a pair `(Draw, Draw)`;
- a match's draws are a function from round index to such a pair;
- a season's draws are a function from match index to match draws;
- a run of seasons takes season draws per season index.

Fitness is the exact fraction `total / rounds`. It is compared by cross-multiplication instead of
as an `f32`.

Points where the model follows the code:

- `rarely_retaliate` retaliates on draws below 10, as the code does at `src/players.rs:80`. The
  comment above it says 90%.
- A pairing of always-cooperate (player 0) with always-steal (player 1) scores (0, 1000) in the
  code. The opposite order scores (1000, 0). `Matches.ConstantPolicyScores` states both orders.

## Model

| member | source | states |
|---|---|---|
| Rounds.Flip | src/common.rs:67-74 | the flipped round has the two choices exchanged |
| Rounds.FlipInvolutive | src/common.rs:67-74 | flipping twice gives back the round; a round is its own flip iff both choices agree |
| Rounds.FlipAll | src/common.rs:77 | the flipped history has the same length and every round's choices exchanged |
| Rounds.FlipAllInvolutive | src/common.rs:77 | flipping a whole history twice gives it back |
| Rounds.FlipAllAppend | src/common.rs:77 | flipping distributes over concatenation of histories |
| Rounds.Outcome | src/common.rs:86-93 | the payoff pair agrees with the reference table (temptation 5, reward 3, punishment 1, sucker 0) for each side; each payoff lies in 0..5 |
| Rounds.OutcomeOfFlip | src/common.rs:86-93 | a flipped round pays the swapped pair; stealing always pays a player more than cooperating against the same opponent choice; mutual cooperation maximises the joint payoff |
| Rounds.Scores | src/common.rs:95-100 | each total of a history of k rounds lies in 0..5k and the joint total in 2k..6k |
| Rounds.ScoresOfEmpty | src/common.rs:95-100 | the empty history scores (0, 0) |
| Rounds.ScoresPush | src/common.rs:95-100 | appending a round adds exactly that round's payoff pair |
| Rounds.ScoresAppend | src/common.rs:95-100 | scoring is additive over concatenated histories |
| Rounds.ScoresOfFlipped | src/common.rs:95-100 | scoring the flipped history gives the swapped totals |
| Rounds.ScoresOfRepeated | src/common.rs:95-100 | a history repeating one round k times scores k times its payoff pair |
| Players.LastOpponentChoice | src/players.rs:21 | steal iff there is a last round and the opponent stole in it (the default round is mutual cooperation) |
| Players.AnyOpponentSteal | src/players.rs:26-28 | true iff some round has the opponent stealing |
| Players.AlwaysCooperateStrategy | src/players.rs:4-6 | cooperates on every history |
| Players.AlwaysStealStrategy | src/players.rs:8-10 | steals on every history |
| Players.RandomStrategy | src/players.rs:12-17 | steals iff the draw is below 50 |
| Players.TitForTatStrategy | src/players.rs:20-22 | steals iff the opponent stole in the last round; cooperates on an empty history |
| Players.OnceBittenTwiceShy | src/players.rs:25-33 | steals iff some past round has the opponent stealing |
| Players.OnceBittenMonotone | src/players.rs:25-33 | once it steals, it steals on every extension of the history |
| Players.LastTwo | src/players.rs:37-41 | the newest min(2, length) rounds, in order |
| Players.INeedTimeToForgive | src/players.rs:36-47 | steals iff the opponent stole in one of the last two rounds; cooperates on an empty history |
| Players.MostlyGoodStrategy | src/players.rs:50-55 | steals iff the draw is below 10 |
| Players.Retaliate | src/players.rs:58-85 | steals iff the opponent's last choice was Steal and the draw is below the given percentage |
| Players.MaybeRetaliate | src/players.rs:58-65 | steals iff the opponent stole last round and the draw is below 50 |
| Players.MainlyRetaliate | src/players.rs:68-75 | steals iff the opponent stole last round and the draw is below 90 |
| Players.RarelyRetaliate | src/players.rs:78-85 | steals iff the opponent stole last round and the draw is below 10 |
| Players.StealChance | src/players.rs:87-100 | every kind's steal chance is a percentage in 0..100 |
| Players.Decide | src/players.rs:87-100 | total over the ten kinds; the chosen policy steals iff the draw is below the kind's steal chance |
| Players.DeterministicIgnoresDraw | src/players.rs:87-100 | the five deterministic kinds make the same choice whatever the draw |
| Players.CooperatesUnprovoked | src/players.rs:58-85 | the retaliating kinds and tit-for-tat cooperate whatever the draw after an opponent's cooperation; every kind except random, always-steal and mostly-good cooperates on an empty history |
| Players.StealOdds | src/players.rs:87-100 | exactly StealChance of the 100 equally likely draws make a policy steal |
| Players.NewFromStrategyName | src/players.rs:102-105 | the new player carries the requested kind (and the given name) |
| Matches.PlayRound | src/common.rs:76-84 | the first slot is player 0's decision on the raw history, the second is player 1's decision on the flipped history |
| Matches.PlayRoundSwap | src/common.rs:76-84 | exchanging the players and their draws on the flipped history gives the flipped round |
| Matches.MatchHistory | src/common.rs:103-108 | after k iterations the history holds exactly k rounds |
| Matches.MatchScore | src/common.rs:102-111 | each side of a match score lies in 0..1000 |
| Matches.PlayMatch | src/common.rs:102-111 | the loop's score is the score of the 200-round history defined round by round, each side in 0..1000 |
| Matches.MatchNoLookahead | src/common.rs:105-108 | a longer match starts with the shorter one, and round k is decided from the first k rounds and round k's draws only |
| Matches.MatchDrawsCausal | src/common.rs:105-108 | draws of later rounds do not affect earlier rounds |
| Matches.MatchSwap | src/common.rs:102-111 | exchanging the two players (with their draws) flips every round of the match |
| Matches.MatchScoreSwap | src/common.rs:102-111 | exchanging the two players exchanges their match scores |
| Matches.ConstantPolicyHistory | src/common.rs:102-111 | two constant policies repeat one round for the whole match |
| Matches.ConstantPolicyScores | src/common.rs:102-111 | always-cooperate pairs score (600, 600), always-steal pairs (200, 200), mixed pairs (0, 1000) or (1000, 0) |
| Matches.NiceCooperates | src/players.rs:20-85 | a kind that never steals first cooperates on an all-cooperation history, whatever the draw |
| Matches.NiceMatch | src/common.rs:102-111 | two nice kinds cooperate in every round and score (600, 600) |
| Seasons.Row | src/common.rs:116-119 | the pairs (i, j) .. (i, n-1), in order |
| Seasons.PairsFrom | src/common.rs:116-119 | every enumerated pair (a, b) has i <= a <= b < n |
| Seasons.PairsFromLength | src/common.rs:116-119 | there are (n-i)(n-i+1)/2 of them |
| Seasons.PairsFromOrdered | src/common.rs:116-119 | they come in strictly increasing lexicographic order |
| Seasons.PairsFromComplete | src/common.rs:116-119 | every pair i <= a <= b < n is enumerated |
| Seasons.Pairs | src/common.rs:116-119 | every pairing indexes two players with the first index at most the second |
| Seasons.PairsExactlyOnce | src/common.rs:116-119 | a season of n players has n(n+1)/2 pairings, each pair a <= b exactly once |
| Seasons.CountAppend | src/common.rs:116-119 | slot counts add up over concatenation |
| Seasons.RowCount | src/common.rs:116-119 | how many slots of one row hold a given index |
| Seasons.PairsFromCount | src/common.rs:116-119 | index k appears in n-i+1 slots of the pairs from row i, when i <= k |
| Seasons.PairsCount | src/common.rs:116-119 | every player index appears in n+1 match slots (twice in its self-pairing) |
| Seasons.Entries | src/common.rs:127-136 | reference for the map: the scores pushed under a name, match by match in pairing order, the first player's score before the second's |
| Seasons.EntriesCount | src/common.rs:127-136 | with unique names a player's list has one entry per slot it holds |
| Seasons.EntriesBounded | src/common.rs:127-136 | every collected entry lies in 0..1000 when every match score does |
| Seasons.SumBounds | src/common.rs:147 | a sum of k entries in 0..1000 lies in 0..1000k |
| Seasons.Sum | src/common.rs:147 | the sum of a name's scores, folded from the oldest to the newest |
| Seasons.SeasonScores | src/common.rs:116-121 | one score pair per pairing |
| Seasons.SeasonScoresWithin | src/common.rs:121 | every match score of the season lies in 0..1000 |
| Seasons.SeasonEntries | src/common.rs:116-136 | the scores one name collects over all the season's pairings |
| Seasons.SeasonEntriesBounded | src/common.rs:116-136 | every score a name collects lies in 0..1000 |
| Seasons.Fitness | src/common.rs:147 | an average as the exact fraction total / rounds |
| Seasons.AtMost | src/common.rs:151 | the ascending order of averages: a/b <= c/d by cross-multiplication with positive round counts |
| Seasons.SeasonFitness | src/common.rs:147 | the average per round lies in [0, 5] |
| Seasons.PlayerFitness | src/common.rs:116-147 | with unique names each player has n+1 entries and is averaged over 200(n+1) rounds |
| Seasons.AtMostTransitive | src/common.rs:151 | the fitness order is transitive |
| Seasons.SortedIsOrdered | src/common.rs:151 | a ranking sorted neighbour by neighbour is ordered between any two positions |
| Seasons.Insert | src/common.rs:151 | inserting adds exactly one entry, and the head is the new entry or the old head |
| Seasons.InsertSorted | src/common.rs:151 | inserting into a sorted ranking keeps it sorted |
| Seasons.SortByFitness | src/common.rs:151 | the result is a permutation of the input, sorted ascending by fitness |
| Seasons.FindByName | src/common.rs:143-146 | the found player is in the population and carries the name, and no earlier player carries it (the first match); with unique names it is the only one |
| Seasons.IsSeasonRanking | src/common.rs:113-153 | what a season returns: one entry per player name, each the first player with that name and its season fitness over a positive number of rounds, sorted ascending |
| Seasons.Push | src/common.rs:127-136 | the key gains the score at the end of its list (a new list when absent); other keys unchanged |
| Seasons.PushMatchOf | src/common.rs:127-136 | pushing a match's two scores keeps one name's list equal to its entries |
| Seasons.PushMatch | src/common.rs:127-136 | pushing a match's two scores keeps every name's list equal to its entries |
| Seasons.KeysCoverStep | src/common.rs:127-136 | every name that has played is a key |
| Seasons.CollectStep | src/common.rs:116-137 | one iteration of the pairs loop preserves the collection invariant |
| Seasons.CollectedAll | src/common.rs:116-137 | after the loop every key holds a non-empty list equal to its entries, and names with no entries are absent |
| Seasons.PushMatchAt | src/common.rs:127-136 | the collection invariant advances by one match |
| Seasons.CollectResults | src/common.rs:114-137 | each key is a player's name with a non-empty list equal to its season entries; every player's name is a key |
| Seasons.StepNames | src/common.rs:141-149 | adding an entry for a new name keeps names distinct and covered |
| Seasons.StepReports | src/common.rs:141-149 | adding a correct entry keeps every entry correct |
| Seasons.ScoreStep | src/common.rs:141-149 | one iteration over the map preserves the scoring invariant |
| Seasons.ScoreResults | src/common.rs:139-149 | one entry per key, in any order: the first player with that name and its average, names distinct |
| Seasons.PlaySeason | src/common.rs:113-153 | the result names every player, each name once, with its season fitness, sorted ascending |
| Seasons.PermutationKeepsEntries | src/common.rs:151 | sorting keeps every entry's player, its fitness and the coverage of the players |
| Seasons.RemoveKeepsDistinct | src/common.rs:151 | removing one entry keeps names distinct and removes that name |
| Seasons.PermutationKeepsDistinctNames | src/common.rs:151 | a permutation of a ranking with distinct names has distinct names |
| Seasons.PlayersOf | src/common.rs:139-153 | the ranked players, in ranking order |
| Seasons.PlayersPermutation | src/common.rs:139-153 | with unique names the ranked players are a permutation of the population |
| Seasons.RankingIsPermutation | src/common.rs:139-153 | with unique names a season ranks every player exactly once |
| Evolution.AboveFirstThreshold | src/main.rs:36 | the average total / rounds exceeds 2.7, as 10·total > 27·rounds |
| Evolution.AboveSecondThreshold | src/main.rs:39 | the average total / rounds exceeds 3.0, as total > 3·rounds |
| Evolution.Offspring | src/main.rs:36-41 | 0 new players at average <= 2.7, 1 in (2.7, 3.0], 2 above 3.0 |
| Evolution.ThresholdTransfer | src/main.rs:36-41 | if an entry's average is above q/p (q·rounds < p·total), so is the average of any entry at least as fit |
| Evolution.OffspringMonotone | src/main.rs:36-41 | a fitter entry never earns fewer new players |
| Evolution.Additions | src/main.rs:33-42 | at most two kinds per entry, each the kind of an entry above 2.7 |
| Evolution.AdditionsAppend | src/main.rs:33-42 | the additions of a ranking are those of its parts, in order |
| Evolution.AdditionsOfOne | src/main.rs:36-41 | a single entry adds its own kind once per threshold it beats |
| Evolution.NoAdditions | src/main.rs:33-42 | nobody is added iff no entry beats 2.7 |
| Evolution.AdditionsStep | src/main.rs:34-42 | one more entry appends its own additions |
| Evolution.CollectAdditions | src/main.rs:33-42 | the loop collects exactly the ranking's additions, in order |
| Evolution.NextName | src/common.rs:30-36 | the new name differs from every name in the population |
| Evolution.ExtendsKeepsUnique | src/main.rs:43-45 | appending fresh names keeps names unique |
| Evolution.AppendOffspring | src/main.rs:43-45 | old players keep their positions; one new player per kind is appended in order with that kind and a fresh name |
| Evolution.SeasonStep | src/main.rs:32-45 | one season turns a population into another: some ranking the season can produce, with its additions appended under fresh names |
| Evolution.QuietSeason | src/main.rs:32-45 | a season with no average above 2.7 leaves the population unchanged |
| Evolution.KindsOf | src/main.rs:43-45 | the strategy kinds of a population, one per player |
| Evolution.KindsAt | src/main.rs:43-45 | the kinds of a population, position by position |
| Evolution.KindsAppend | src/main.rs:43-45 | kinds distribute over concatenation |
| Evolution.KindsRemove | src/main.rs:43-45 | removing a player removes its kind from the kind counts |
| Evolution.KindsPermutation | src/main.rs:43-45 | permuted populations have the same kind counts |
| Evolution.KindsOfRanked | src/main.rs:34-43 | the kinds of a ranking's players are its entries' kinds in order |
| Evolution.NiceSeasonScores | src/common.rs:116-121 | between nice kinds every match of a season scores (600, 600) |
| Evolution.EntriesConstant | src/common.rs:127-136 | when every match scores (v, v), every collected entry is v |
| Evolution.SumConstant | src/common.rs:147 | k entries equal to v sum to vk |
| Evolution.NiceFitness | src/main.rs:36-41 | in an all-nice season every name averages exactly 3.0 and earns exactly one new player |
| Evolution.AdditionsOfSingles | src/main.rs:33-42 | when every entry earns one new player, the additions are the entries' kinds in ranking order |
| Evolution.NiceRankingSingles | src/main.rs:34-42 | every entry of an all-nice ranking earns exactly one new player |
| Evolution.NiceSeasonDoubles | src/main.rs:32-45 | a season of nice players with unique names doubles the population and every kind's count, keeps the old players in place, and everyone stays nice |
| Evolution.NewcomerKinds | src/main.rs:43-45 | the appended players carry the appended kinds, in order |
| Evolution.NewcomersAreRanked | src/main.rs:43-45 | newcomers repeating the kinds of a permutation of the population double every kind's count |
| Evolution.ChainAppend | src/main.rs:30-46 | one more season extends a chain of seasons |
| Evolution.SeasonKeepsUnique | src/main.rs:43-45 | a season keeps the names of a population unique |
| Evolution.NiceStep | src/main.rs:32-45 | one all-nice season of a chain doubles the population and each kind's count |
| Evolution.NiceGrowth | src/main.rs:30-46 | if every nice population is followed by its doubling, then after s steps the population and each kind's count have grown 2^s-fold |
| Evolution.NiceSeasons | src/main.rs:28-47 | from nice players with unique names, after s seasons the population is 2^s times larger, each kind keeps its share, and everyone is nice |
| Evolution.StartsWithTransitive | src/main.rs:43-45 | prefix-preservation composes over seasons |
| Evolution.PlayOneSeason | src/main.rs:32-45 | the new population is one season's growth of the old: old players in place, unique names kept |
| Evolution.GrownStep | src/main.rs:30-46 | one iteration of the season loop preserves the loop state |
| Evolution.PlayMultiSeason | src/main.rs:28-47 | exactly max(0, season_length) seasons, each one season's growth of the one before; the first players keep their positions; a non-positive count leaves the population unchanged; unique names stay unique |

## Left out

- Noise and observation corruption: the source does not implement them (`src/main.rs:49-51` is a TODO), so nothing models them.
- Player names:
  - The source builds names from the kind plus a random seven-character suffix (`src/common.rs:30-36`).
  - The model uses abstract natural-number names. New players get `NextName`, one above the largest name present, so generated names never collide.
  - The source's random suffixes could collide, though rarely. The lemmas that assume unique names do not cover that case.
- Evolution.NextName: models only the freshness of the generated name, not its text.
- Randomness: every `thread_rng` draw inside a strategy becomes a `Draw` parameter. The model says which draws lead to which choice, not how the draws are distributed. `Players.StealOdds` counts the stealing draws out of the 100.
- Floating point:
  - The `f32` division (`src/common.rs:147`), the `total_cmp` sort (`src/common.rs:151`) and the 2.7 and 3.0 comparisons (`src/main.rs:36`, `src/main.rs:39`) use exact rationals.
  - An `f32` average that rounds across a threshold, or two averages that tie only after rounding, are not modelled.
- `i32` arithmetic: sums are unbounded integers. Overflow would need more than two million players in one season.
- HashMap iteration order: `Seasons.ScoreResults` visits the names in an arbitrary order chosen with `:|`. So the model fixes neither the order in which entries are built nor the order of equal-fitness entries after the sort.
- Seasons.SortByFitness: the model sorts a sequence value by insertion. The source uses Rust's in-place stable sort. The model proves the source's promise (sorted and a permutation), not stability.
- `Box<dyn Fn>` closures: a player holds its `StrategyType`, and `Players.Decide` applies the policy.
- Evolution.PlayMultiSeason: returns the final population and, as a ghost value, the population before every season and after the last one. The source returns nothing; it prints each ranking instead.
- `println!` reporting and the hard-coded ten-player pool in `main` (`src/main.rs:5-26`) are not part of this model.
- `Option::unwrap` on the name lookup (`src/common.rs:146`): the model requires the name to be present. `Seasons.CollectResults` proves it always is.
