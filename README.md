# College basketball season engine, modelled in Dafny

This project models the season and tournament engine of a single-page college-basketball
GM game. The engine lives in `cbbgm-netlify/app.js`; `app.js` is a compact copy of the same
functions. It covers:

- **Team generation.** Ten conferences of twelve teams each. Offence and defence ratings are
  the conference average plus noise, rounded. Pace is clamped to 60..75.
- **The schedule.** Teams are grouped by conference. Each conference plays a circle-method
  round robin over a shuffled copy of its teams. The first ten rounds are played, then the
  same rounds with home and away swapped. After that, each team in turn draws opponents from
  other conferences. A turn stops at its eighth added game or its 200th draw, so at most eight
  games per team's turn; a team can also be drawn during other teams' turns.
- **Playing games.** Each side's score is a rounded raw score: average pace, plus the rating
  difference, plus a 2.5-point home edge, plus noise. Both scores are raised to at least 40,
  and a tie is broken by a coin. The winner and loser records are then credited, along with
  the conference columns for a conference game.
- **Season flow.** The engine simulates to a given day or through the whole season.
- **Tournament selection.** One automatic bid per conference goes to its best team by
  conference record, then overall record, then ratings. At-large teams fill the field to 64
  by composite score, and the field is seeded by that score.
- **The bracket.** It has the smallest power-of-two size, with byes padding the end. Seed i
  plays seed size-1-i. Winners are re-paired first against last until one champion remains.
- **HTML escaping.** `escapeHtml` is used for every name the pages show.

The files:

| file | module | what it holds |
|---|---|---|
| `wrappers.dfy` | `Wrappers` | `Option` |
| `seqs.dfy` | `Seqs` | `Distinct`, `Take` (`slice(0, n)`), `Max`, `Min` |
| `teams.dfy` | `Teams` | the team record, `Math.round`, the clamp, the composite score |
| `generator.dfy` | `Generator` | `generateFictionalTeams` |
| `grouping.dfy` | `Grouping` | `groupBy` and the `Object.entries` order of its groups |
| `circle.dfy` | `Circle` | `roundRobin` (the circle method) |
| `games.dfy` | `Games` | `newGame`, the score clamp, the standings implied by a list of games |
| `simulation.dfy` | `Simulation` | the score model of `simGame` and `simNeutral` |
| `schedule.dfy` | `Schedule` | `buildSchedule` |
| `selection.dfy` | `Selection` | the selection and seeding of `maybeStartTournament` |
| `bracket.dfy` | `Tournament` | `makeBracket` and the rounds of `simTournament` |
| `league.dfy` | `Season` | the league object: `newLeague`, `simGame`, `simToDay`, `simSeason`, `maybeStartTournament`, `simTournament` |
| `html.dfy` | `Html` | `escapeHtml` |

### Modelling decisions

**Randomness.** Every random draw is an input, so each operation is a function of its
inputs.
- `Math.random`-based shuffles become a list of swaps, so they are always a permutation.
- The home-or-away coins of the round robin are `coin(c)(round, slot)`.
- The non-conference opponent is `teams[oppDraw(team, try) % |teams|]`, and its home bit is
  `homeDraw(team, try)`.
- The two Gaussian noises and the tie coin of a game are a `GameDraw`.
- Game i of the schedule uses `draw(i)`. Pairing i of tournament round r uses
  `tourneyDraw(r)(i)`.

**Ids.** The source's ids are random strings (`uid()`) and serve only as keys. Here team i
of the league has id i, and games refer to teams by that index. `find(t => t.id === id)` is
then `teams[id]`.

**Scores.** The composite score `(w-l)*3 + (cw-cl)*2 + (off+def)/2` can be a half. It is
compared as the integer `Composite2`, which is twice the score. `Composite2Order` shows that
this orders teams exactly as the real-valued score does.

**Sorts.** JavaScript's sort is stable.
- The conference winner, `[0]` after a descending lexicographic sort, is the first team
  nobody outranks (`ConfWinnerIndex`).
- The at-large pool and the seeds are sorted by a stable insertion sort on the score
  (`SortByScore`).
- The closing sort of `buildSchedule` by day is the identity, because the games are pushed in
  non-decreasing day order (`BuildSchedule` proves `DaysSorted`). Its random tie-break within
  a day is left out (see below).

**Objects.** The league object is a class whose fields the operations update in place.
`league.season` (games, bracket, champion) is folded into the class. Teams, games and the
bracket are values: the source mutates the team and game objects through aliases, and the
model reassigns the sequences that hold them.

## Model

| member | source | states |
|---|---|---|
| Teams.JsRound | cbbgm-netlify/app.js:183-184 | `Math.round` gives the integer within half a unit of x, with halves rounded up |
| Teams.Clamp | cbbgm-netlify/app.js:63 | `Math.max(lo, Math.min(hi, x))` lies in [lo, hi]; it is x inside the range and the nearer bound outside it |
| Teams.Composite2Doubles | cbbgm-netlify/app.js:240-243 | the integer is exactly twice the source's composite score |
| Teams.Composite2Order | cbbgm-netlify/app.js:246-250 | comparing doubled scores orders teams, ties included, exactly as comparing the source's scores does |
| Teams.IdsDistinct | cbbgm-netlify/app.js:58 | teams with distinct ids are distinct, so `includes` and `===` on teams agree with value equality |
| Teams.TeamAtId | cbbgm-netlify/app.js:173-174 | `find` by id returns the team at that index |
| Generator.NewTeam | cbbgm-netlify/app.js:57-65 | a new team carries its id and conference, has a zero record and pace in 60..75, and each rating lies within half a point of the conference average plus its noise |
| Generator.GenerateFictionalTeams | cbbgm-netlify/app.js:37-70 | 120 teams, twelve per conference in conference order; team k is `NewTeam` for conference k/12 with its own draw; all records are zero |
| Grouping.GroupBy | cbbgm-netlify/app.js:133-140 | one group per distinct key, in order of first appearance; each group holds exactly the elements with that key, in input order |
| Grouping.MembersAreKeyed | cbbgm-netlify/app.js:135-138 | x is in the group of k if and only if x is in the input and has key k |
| Grouping.KeysOfExact | cbbgm-netlify/app.js:133-140 | the keys are distinct, and a key is listed if and only if some element has it |
| Grouping.KeysOfFirstSeen | cbbgm-netlify/app.js:83 | `Object.entries` lists keys by first appearance: an earlier key first occurs earlier in the input |
| Grouping.FirstWithKeyPrefix | cbbgm-netlify/app.js:135-138 | a key's first occurrence does not move when the input grows |
| Grouping.MembersAppend | cbbgm-netlify/app.js:135-138 | grouping a concatenation concatenates the groups |
| Circle.RoundRobin | cbbgm-netlify/app.js:142-168 | the loop computes `CircleRounds`: n-1 rounds for n teams, one more when n is odd and a bye is added |
| Circle.InitialLayout | cbbgm-netlify/app.js:149-150 | `left` is the first half and `right` the reversed second half: the layout of round 0 |
| Circle.RotationAdvances | cbbgm-netlify/app.js:162-165 | the rotation keeps `left[0]` in place and moves every other entry one step round the ring: the layout of the next round |
| Circle.PairRound | cbbgm-netlify/app.js:153-160 | the inner loop pairs `left[j]` with `right[j]` for every slot, dropping a pairing with the bye and orienting each kept one by its coin |
| Circle.RoundDistinct | cbbgm-netlify/app.js:153-160 | over a list without repeats, the teams of a round's pairings are pairwise distinct |
| Circle.MeetingUnique | cbbgm-netlify/app.js:152-166 | two pairings that join the same two teams are the same pairing of the same round |
| Circle.CircleRoundsShape | cbbgm-netlify/app.js:152-161 | every team of every round comes from the input |
| Circle.NoTeamTwiceInRound | cbbgm-netlify/app.js:152-166 | for distinct teams, no team plays twice in a round |
| Circle.EachPairMeetsOnce | cbbgm-netlify/app.js:142-168 | two distinct teams meet in exactly one pairing of all the rounds |
| Games.NewGame | cbbgm-netlify/app.js:129-131 | a new game is unplayed with no scores, between the given teams on the given day |
| Games.ClampScores | cbbgm-netlify/app.js:186-188 | the second score is max(40, y); the first is max(40, x) when that differs from the second, and otherwise one more or one less by the coin; so the scores differ, and the first wins if and only if its clamped score is higher, or the two tie and the coin says up |
| Games.WithScores | cbbgm-netlify/app.js:190-192 | the game is played with exactly these scores; day, teams and conference flag are kept |
| Games.Credit | cbbgm-netlify/app.js:194-205 | a game credits at most one per column to a team, and only once played |
| Games.TallyUpdate | cbbgm-netlify/app.js:194-205 | replacing one game changes every team's tally by exactly that game's change in credit |
| Games.TallyUnplayed | cbbgm-netlify/app.js:129-131 | a schedule of unplayed games credits nobody |
| Games.WinsEqualLosses | cbbgm-netlify/app.js:194-205 | total wins = games played = total losses, and total conference wins = conference games played = total conference losses |
| Games.CreditTotalOne | cbbgm-netlify/app.js:196-204 | each played game gives exactly one win and one loss over the league, and one conference win and loss when it is a conference game |
| Simulation.GameScores | cbbgm-netlify/app.js:176-188 | the away score is max(40, the away side's rounded raw score); the home score is max(40, the home side's rounded raw score with the 2.5-point edge), moved one up or down by the tie coin when it equals the away score; the scores differ |
| Simulation.SimNeutral | cbbgm-netlify/app.js:315-327 | b's score is max(40, its rounded raw score with no home edge); a's score is the same for a, moved one up or down by the tie coin when it equals b's; the winner is a if and only if a's score is higher |
| Schedule.ApplySwaps | cbbgm-netlify/app.js:85 | the shuffled copy is a permutation of the conference's teams |
| Schedule.ShuffleKeepsDistinct | cbbgm-netlify/app.js:85 | shuffling keeps the teams distinct |
| Schedule.BuildSchedule | cbbgm-netlify/app.js:77-127 | the conference games come first, exactly as `ConfSchedule` lists them, each between two different teams of one conference; then the teams' turns follow one another, each exactly `Turn` of its draws, the first starting on the day after the conference phase; every later game is a non-conference game between two different known teams that repeats no earlier meeting; all games are unplayed, on day 1 or later, in day order |
| Schedule.ConferencePhase | cbbgm-netlify/app.js:79-103 | the conference loop produces `ConfPhase` of each conference's played rounds, from day 1 |
| Schedule.PlayConferences | cbbgm-netlify/app.js:83-103 | conference by conference, the games and the day are `ConfPhase` of the rounds |
| Schedule.ConferenceTurn | cbbgm-netlify/app.js:85-102 | one conference adds its rounds, then the mirrored rounds, and moves the day on by twice the number of rounds |
| Schedule.PushPass | cbbgm-netlify/app.js:90-95 | one pass adds each round's games on consecutive days, mirrored or not |
| Schedule.NonConference | cbbgm-netlify/app.js:106-122 | team i's turn is `Turn` from the games before it and the day it starts on: the games it adds and the day it ends on are exactly what its draws give; every added game is a non-conference game repeating no earlier meeting; the days stay ordered |
| Schedule.TeamTurn | cbbgm-netlify/app.js:108-121 | the loop computes `Turn` from no games added and no draws made; by `TurnFacts` and `TurnKeeps` that is at most eight games in at most 200 draws, each a new non-conference meeting of that team, with days never decreasing |
| Schedule.TurnGame | cbbgm-netlify/app.js:114-117 | the pushed game is an unplayed non-conference game on the current day against the drawn team, with team i at home exactly when its home draw says so |
| Schedule.Draw | cbbgm-netlify/app.js:109-119 | every draw counts one try and adds at most one game |
| Schedule.TurnFacts | cbbgm-netlify/app.js:107-120 | a turn stops only at its eighth added game or its 200th draw; it adds at most one game per draw and keeps the games it started from; the day moves on once per two added games |
| Schedule.DrawKeeps | cbbgm-netlify/app.js:110-117 | one draw keeps the added games new non-conference meetings of team i on the current day, in day order |
| Schedule.TurnKeeps | cbbgm-netlify/app.js:108-120 | a whole turn keeps the added games new non-conference meetings of team i, in day order |
| Schedule.ConfPhaseDays | cbbgm-netlify/app.js:90-102 | the conference games' days lie between the start day and the returned day, in non-decreasing order |
| Schedule.ConfRoundsOk | cbbgm-netlify/app.js:85-89 | every pairing of a conference's played rounds joins two different teams of that conference |
| Schedule.ConfPhaseFacts | cbbgm-netlify/app.js:83-103 | every conference-phase game is a conference game between two different known teams |
| Schedule.PassMirror | cbbgm-netlify/app.js:96-102 | the second pass is the first with home and away swapped, shifted by the number of rounds |
| Schedule.RoundCount | cbbgm-netlify/app.js:90-95 | the games of a round without repeats give a team one game when it plays in the round and none otherwise |
| Schedule.PassCount | cbbgm-netlify/app.js:90-102 | a pass over a conference's rounds gives a team at most one game per round, and none when it is of another conference |
| Schedule.ConfRoundsKeyed | cbbgm-netlify/app.js:85-89 | a conference plays at most ten rounds, each made of teams of that conference, none twice in a round |
| Schedule.PhaseCount | cbbgm-netlify/app.js:83-103 | over conferences of which at most one is a team's own, the team plays at most twice ten rounds, and none if no conference is its own |
| Schedule.ConfGamesPerTeam | cbbgm-netlify/app.js:83-103 | in the conference phase every team plays at most twenty games |
| Selection.ConfWinnerIndex | cbbgm-netlify/app.js:234 | the chosen team is outranked by nobody in its conference, and it outranks every team listed before it (the stable sort's `[0]`) |
| Selection.ConfWinnerUnique | cbbgm-netlify/app.js:234 | the first team that nobody outranks is the only index with both properties |
| Selection.SortByScorePerm | cbbgm-netlify/app.js:240-243 | sorting by score is a permutation |
| Selection.SortByScoreSorted | cbbgm-netlify/app.js:246-250 | the sorted list is in non-increasing score order |
| Selection.SortByScoreStable | cbbgm-netlify/app.js:246-250 | teams with equal scores keep their relative order |
| Selection.Bid | cbbgm-netlify/app.js:233-235 | a conference's bid is one of that conference's teams |
| Selection.Without | cbbgm-netlify/app.js:238 | the pool holds exactly the teams not already selected |
| Selection.SelectSeeds | cbbgm-netlify/app.js:231-250 | the selection loop, the at-large fill and the seeding sort give `Seeds` |
| Selection.BidsAreWinners | cbbgm-netlify/app.js:233-235 | each automatic bid belongs to its conference, nobody in the conference outranks it, and its group is the whole conference |
| Selection.BidsDistinct | cbbgm-netlify/app.js:232-236 | the automatic bids are distinct teams of the league |
| Selection.AtLargeAreBest | cbbgm-netlify/app.js:238-243 | a pool team left out scores no higher than any at-large team |
| Selection.FieldDistinct | cbbgm-netlify/app.js:244 | the field has no team twice, and every field team is in the league |
| Selection.FieldSize | cbbgm-netlify/app.js:239-244 | the field holds max(number of conferences, min(64, number of teams)) teams |
| Selection.SeedsOrdered | cbbgm-netlify/app.js:246-250 | the seeds are the field in non-increasing score order, with equal scores in field order |
| Tournament.BracketSizeLeast | cbbgm-netlify/app.js:258-259 | the size is a power of two at least the number of seeds, and the least such power |
| Tournament.PairUp | cbbgm-netlify/app.js:264-267 | the pairing loop pairs entry i with entry n-1-i for every i below n/2 |
| Tournament.MakeBracket | cbbgm-netlify/app.js:256-275 | the bracket is round 1, with the padded field paired first against last, no results, incomplete, and no champion |
| Tournament.FirstRoundShape | cbbgm-netlify/app.js:258-267 | for m ≥ 2 seeds: size/2 pairings; seed i in the first slot of pairing i; the second slot is a bye exactly when size-1-i ≥ m, and otherwise seed size-1-i |
| Tournament.EachSeedOnce | cbbgm-netlify/app.js:260-267 | each seed sits in exactly one slot of the first round |
| Tournament.EntrantIsSeed | cbbgm-netlify/app.js:260-267 | every team of the first round is a seed |
| Tournament.PlayPair | cbbgm-netlify/app.js:284-296 | a filled pairing is a neutral game with different scores, won by the higher score; otherwise the present team advances on a bye with no score; a team advances if and only if one is present |
| Tournament.PlayRound | cbbgm-netlify/app.js:281-297 | the pairing loop produces `RoundPlay`: one result per pairing, and the advancing teams in pairing order |
| Tournament.RoundAdvances | cbbgm-netlify/app.js:283-297 | when every first slot is filled, each pairing sends exactly one of its own teams on |
| Tournament.InitialBracketOk | cbbgm-netlify/app.js:268-274 | a fresh bracket for at least two seeds is at round 1, with a power-of-two round whose first slots are all filled |
| Tournament.RunBracket | cbbgm-netlify/app.js:277-313 | the loop ends complete and keeps the earlier rounds; every new round follows the rules with its draws; it adds log2(pairings) rounds; the champion is a team of the current round; a complete bracket is untouched |
| Tournament.NextRoundShape | cbbgm-netlify/app.js:305-311 | the winners of 2^k ≥ 2 pairings form 2^(k-1) pairings of the same teams |
| Tournament.ChampionEntrant | cbbgm-netlify/app.js:299-303 | the single winner of the last round is a team of the first round |
| Tournament.FollowsAfterRound | cbbgm-netlify/app.js:304-311 | appending a played round's results and the re-paired winners keeps every earlier round's record as it was |
| Season.Bump | cbbgm-netlify/app.js:197-203 | `team.wins++` and its siblings add one to one column of one team and change nothing else |
| Season.StandingsBalance | cbbgm-netlify/app.js:194-205 | in a league whose records are the games' tallies, total wins = games played = total losses, and the same for conference games |
| Season.TeamTotalIsColumnTotal | cbbgm-netlify/app.js:194-205 | summing the records column by column gives the games' column totals |
| Season.PlayedGame | cbbgm-netlify/app.js:172-192 | a played game is decided, keeps its day, teams and flag, and the home team wins if and only if its clamped score is higher or the tie coin says up |
| Season.Simulated | cbbgm-netlify/app.js:209-213 | played games and games after the target day are untouched; every other game up to the target day ends decided |
| Season.SimulatedTwice | cbbgm-netlify/app.js:208-216 | simulating to the same day a second time changes no game, whatever the standings and draws then are |
| Season.ScoresIgnoreRecords | cbbgm-netlify/app.js:176-184 | the scores depend only on the two teams' ratings and paces, never on their records |
| Season.Started | cbbgm-netlify/app.js:225-228 | an existing bracket stays; otherwise a bracket appears if and only if every game is played, and then it is `makeBracket` of the seeds |
| Season.SeedCount | cbbgm-netlify/app.js:239-244 | a league of at least two teams seeds at least two teams |
| Season.MaxDay | cbbgm-netlify/app.js:219 | the result is at least every game's day and is some game's day |
| Season.League.constructor | cbbgm-netlify/app.js:23-35 | 120 teams with zero records, team k being `NewTeam` for conference k/12 with its own draw; the games are `ConfSchedule` followed by the teams' `Turn`s, with no repeated non-conference meeting, in day order and all unplayed; day 1, no bracket, no champion; the league invariant holds |
| Season.FreshScheduleOk | cbbgm-netlify/app.js:23-35 | conference games followed by valid non-conference games, all unplayed, over teams with empty records, form a valid league start: every record is the (zero) tally |
| Season.League.SimGame | cbbgm-netlify/app.js:171-206 | a played game is untouched; otherwise it gets `PlayedGame`'s scores and each team's record changes by exactly the new game's credit; ratings are kept and the invariant holds |
| Season.League.RecordResult | cbbgm-netlify/app.js:194-205 | each column of each team grows by exactly what the game credits it |
| Season.CreditedColumns | cbbgm-netlify/app.js:194-205 | crediting a played game adds exactly its credit to every column of every team and changes no rating, pace or name |
| Season.League.SimToDay | cbbgm-netlify/app.js:208-216 | each game becomes `Simulated` with its own draw; the records are the new tallies; the day becomes max(day, target); the bracket becomes `Started` |
| Season.League.PlayUpTo | cbbgm-netlify/app.js:209-213 | the game loop simulates each game in turn with the ratings it started with |
| Season.League.MaybeStartTournament | cbbgm-netlify/app.js:225-254 | the bracket becomes `Started`, and nothing else changes |
| Season.League.SimTournament | cbbgm-netlify/app.js:277-313 | the bracket ends complete and the league's champion is its champion; a complete bracket is untouched; otherwise it follows the rules round by round, adds log2(first-round pairings) rounds, and crowns a seed |
| Season.TournamentKeepsValid | cbbgm-netlify/app.js:277-313 | a bracket played to its end from a valid league keeps the league valid, its champion is the league's champion, and a complete bracket keeps its champion |
| Season.League.SimSeason | cbbgm-netlify/app.js:218-223 | every game ends played, each previously unplayed one with `PlayedGame` under its own draw; ratings are kept; the day becomes max(day, latest game day), or stays with no games; the bracket is complete and its first round is the seeding of the final standings; a complete bracket is untouched, otherwise every round follows the rules with its draws and there are 1 + log2(first-round pairings) rounds; the champion is set and is one of the seeds |
| Html.EscapeChar | cbbgm-netlify/app.js:521 | a special character becomes a reference that starts with `&` and ends with `;`; any other character is kept |
| Html.EscapeHtml | cbbgm-netlify/app.js:521 | the output is never shorter than the input |
| Html.UnescapeChar | cbbgm-netlify/app.js:521 | decoding one escaped character, followed by anything, gives that character first |
| Html.UnescapeEscape | cbbgm-netlify/app.js:521 | decoding the five references recovers the original string |
| Html.EscapedIsInert | cbbgm-netlify/app.js:521 | no `<`, `>`, `"` or `'` survives escaping |
| Html.EscapePlain | cbbgm-netlify/app.js:521 | strings without special characters pass unchanged |
| Html.EscapeAppend | cbbgm-netlify/app.js:521 | escaping a concatenation concatenates the escapes, as a global replace does |

The league invariant `Season.League.Valid` (the predicate `Season.LeagueOk` over the league's fields) is preserved by every league method. It states:
- team i has id i, and there are at least two teams;
- the games refer to known teams and are each unplayed or decided;
- every record equals the tally of the played games;
- a bracket exists only once every game is played;
- the bracket's first round is the seeding of the current standings;
- an incomplete bracket is still at round 1;
- the league's champion is the complete bracket's champion, and is a seed.

## Left out

- Randomness is left out as a mechanism. `Math.random`, `gaussian` (Box–Muller) and `choice` are
  replaced by input draws, and no distribution is modelled (fairness of the shuffle, the 50/50
  coins, the noise spread).
- Ids are not modelled as strings: the random ids of `uid()` become team indices. The league's
  `id`, `name`, `created`, `year` and `history` fields, and the game ids, are left out.
- The random tie-break of the closing day sort in `buildSchedule` is not modelled: games on the
  same day stay in the order they were pushed. The sort by day itself is the identity, as
  proved.
- `escapeHtml`'s `String(s)` conversion of non-strings is not modelled. The model takes a
  string.
- Rendering, the DOM, event handlers, local storage, JSON import and export, and the Netlify
  blob functions are I/O outside the engine.
- Tournament.RunBracket requires a bracket whose current round is a power of two with every
  first slot filled. With no seeds at all, `makeBracket` yields one empty pairing, and
  `simTournament` would then loop forever on empty rounds. A league always has 120 teams, so
  this cannot happen from the league; the league invariant requires at least two teams.
- Tournament.FirstRoundShape and Tournament.InitialBracketOk are stated for at least two seeds.
  With one seed, `makeBracket` pairs that seed with itself, which the model reproduces but does
  not prove anything about.
- Re-pairing an odd number of winners (`i < n/2` pairs the middle team with itself) is
  modelled by `FirstVsLast` but never arises: rounds always have a power-of-two number of
  pairings.
- Score strings `${a}-${b}` and `"—"` are represented by the `Score` datatype rather than
  formatted text.
- The tournament's bracket keeps team values. The source keeps references to the league's team
  objects, but no record changes once the bracket exists, so the two agree.
- `simTournament` on a league without a bracket dereferences null in the source. Here it
  requires a bracket, which is the only way `simSeason` calls it.
