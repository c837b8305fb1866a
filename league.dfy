/**
 * The league object and the season loop: `newLeague` (teams and schedule),
 * `simGame` (play one game, credit the standings), `simToDay`, `simSeason`,
 * `maybeStartTournament` and `simTournament`.
 *
 * The league's fields are updated in place, as in the source; the season
 * record (`league.season`) is flattened into the league.  Every random draw
 * is a parameter: `draw(i)` is what game i of the schedule draws, and
 * `tourneyDraw(r)(i)` what pairing i of tournament round r draws.
 */
module Season {
  import opened Wrappers
  import opened Seqs
  import opened Teams
  import opened Games
  import opened Simulation
  import opened Schedule
  import opened Generator
  import opened Selection
  import opened Tournament

  // ---------- Standings ----------

  /** A team's count under one column of the standings. */
  function Column(t: Team, s: Stat): nat
  {
    match s
    case Wins => t.wins
    case Losses => t.losses
    case ConfWins => t.confWins
    case ConfLosses => t.confLosses
  }

  /** A team with its record erased: what the simulation never changes. */
  function Unrecorded(t: Team): Team
  {
    t.(wins := 0, losses := 0, confWins := 0, confLosses := 0)
  }

  /** `team.wins++` and its siblings: one more in column s for team id, nothing else touched. */
  function Bump(teams: seq<Team>, id: nat, s: Stat): (r: seq<Team>)
    requires id < |teams|
    ensures |r| == |teams|
    ensures forall j :: 0 <= j < |r| ==> Unrecorded(r[j]) == Unrecorded(teams[j])
    ensures forall j, s' :: 0 <= j < |r| ==>
              Column(r[j], s') == Column(teams[j], s') + (if j == id && s' == s then 1 else 0)
  {
    var t := teams[id];
    teams[id := match s
                case Wins => t.(wins := t.wins + 1)
                case Losses => t.(losses := t.losses + 1)
                case ConfWins => t.(confWins := t.confWins + 1)
                case ConfLosses => t.(confLosses := t.confLosses + 1)]
  }

  /** Every team's record is what the played games credit it with. */
  predicate Standings(teams: seq<Team>, games: seq<Game>)
  {
    forall id, s :: 0 <= id < |teams| ==> Column(teams[id], s) == Tally(games, id, s)
  }

  /** Both teams of every game are known, and every game is untouched or decided. */
  predicate GamesOk(teams: seq<Team>, games: seq<Game>)
  {
    IdsBelow(games, |teams|) && forall i :: 0 <= i < |games| ==> WellFormed(games[i])
  }

  /** No game is left to play. */
  predicate AllPlayed(games: seq<Game>)
  {
    forall i :: 0 <= i < |games| ==> games[i].played
  }

  /** Conservation: total wins and total losses both equal the number of games played, and likewise for conference games. */
  lemma {:induction false} StandingsBalance(teams: seq<Team>, games: seq<Game>)
    requires GamesOk(teams, games) && Standings(teams, games)
    ensures TeamTotal(teams, |teams|, Wins) == PlayedCount(games, false) == TeamTotal(teams, |teams|, Losses)
    ensures TeamTotal(teams, |teams|, ConfWins) == PlayedCount(games, true) == TeamTotal(teams, |teams|, ConfLosses)
  {
    WinsEqualLosses(games, |teams|);
    TeamTotalIsColumnTotal(teams, games, |teams|);
  }

  /** Sum of column s over the first n teams. */
  function TeamTotal(teams: seq<Team>, n: nat, s: Stat): int
    requires n <= |teams|
  {
    if n == 0 then 0 else TeamTotal(teams, n - 1, s) + Column(teams[n - 1], s)
  }

  lemma {:induction false} TeamTotalIsColumnTotal(teams: seq<Team>, games: seq<Game>, n: nat)
    requires n <= |teams| && Standings(teams, games)
    ensures forall s :: TeamTotal(teams, n, s) == ColumnTotal(games, n, s)
  {
    if n > 0 {
      TeamTotalIsColumnTotal(teams, games, n - 1);
    }
  }

  /** The standings after game g is credited: a win to its winner and a loss to its loser, and the conference columns too for a conference game. */
  function Credited(teams: seq<Team>, g: Game): seq<Team>
    requires g.homeScore.Some? && g.awayScore.Some? && g.homeId < |teams| && g.awayId < |teams|
  {
    var w, l := WinnerId(g), LoserId(g);
    var t := Bump(Bump(teams, w, Wins), l, Losses);
    if g.confGame then Bump(Bump(t, w, ConfWins), l, ConfLosses) else t
  }

  /** Crediting a played game adds exactly its credit to every column and changes nothing else. */
  lemma {:induction false} CreditedColumns(teams: seq<Team>, g: Game)
    requires g.played && g.homeScore.Some? && g.awayScore.Some? && g.homeId < |teams| && g.awayId < |teams|
    ensures var r := Credited(teams, g);
      |r| == |teams| && (forall id :: 0 <= id < |r| ==> Unrecorded(r[id]) == Unrecorded(teams[id])) &&
      forall id, s :: 0 <= id < |r| ==> Column(r[id], s) == Column(teams[id], s) + Credit(g, id, s)
  {
    var w, l := WinnerId(g), LoserId(g);
    var t1 := Bump(teams, w, Wins);
    var t2 := Bump(t1, l, Losses);
    var r := Credited(teams, g);
    forall id, s | 0 <= id < |r| ensures Column(r[id], s) == Column(teams[id], s) + Credit(g, id, s) {
      assert Column(t2[id], s) == Column(teams[id], s) + (if id == w && s == Wins then 1 else 0)
                                                       + (if id == l && s == Losses then 1 else 0);
    }
  }

  // ---------- What simulating a game does ----------

  /** The game as `simGame` plays it: the scores of `GameScores` for its home and away teams. */
  function PlayedGame(g: Game, teams: seq<Team>, d: GameDraw): (r: Game)
    requires g.homeId < |teams| && g.awayId < |teams|
    ensures Decided(r)
    ensures r.day == g.day && r.homeId == g.homeId && r.awayId == g.awayId && r.confGame == g.confGame
    ensures (r.homeScore.value > r.awayScore.value) <==>
              (var h, a := teams[g.homeId], teams[g.awayId];
               var x, y := Max(40, RawScore(h, a, HomeEdge, d.noiseA)), Max(40, RawScore(a, h, 0.0, d.noiseB));
               x > y || (x == y && d.tieUp))
  {
    var s := GameScores(teams[g.homeId], teams[g.awayId], d);
    WithScores(g, s.0, s.1)
  }

  /** What `simToDay(target)` leaves of game g: played games and later games are untouched, the rest are played. */
  function Simulated(g: Game, teams: seq<Team>, d: GameDraw, target: int): (r: Game)
    requires g.homeId < |teams| && g.awayId < |teams|
    ensures g.played || g.day > target ==> r == g
    ensures g.day <= target ==> r.played
    ensures !g.played && g.day <= target ==> Decided(r)
  {
    if g.played || g.day > target then g else PlayedGame(g, teams, d)
  }

  /** Simulating to the same day twice changes nothing the second time, whatever the standings and draws then are. */
  lemma SimulatedTwice(g: Game, teams: seq<Team>, teams': seq<Team>, d: GameDraw, d': GameDraw, target: int)
    requires g.homeId < |teams| && g.awayId < |teams| && g.homeId < |teams'| && g.awayId < |teams'|
    ensures Simulated(Simulated(g, teams, d, target), teams', d', target) == Simulated(g, teams, d, target)
  {
    var r := Simulated(g, teams, d, target);
    assert r.played || r.day > target;
  }

  /** The scores depend on the ratings and paces only, never on the records. */
  lemma {:induction false} ScoresIgnoreRecords(g: Game, teams: seq<Team>, teams': seq<Team>, d: GameDraw)
    requires g.homeId < |teams| == |teams'| && g.awayId < |teams|
    requires Unrecorded(teams[g.homeId]) == Unrecorded(teams'[g.homeId])
    requires Unrecorded(teams[g.awayId]) == Unrecorded(teams'[g.awayId])
    ensures PlayedGame(g, teams, d) == PlayedGame(g, teams', d)
  {
    var h, a, h', a' := teams[g.homeId], teams[g.awayId], teams'[g.homeId], teams'[g.awayId];
    assert h.pace == h'.pace && h.ratingOff == h'.ratingOff && h.ratingDef == h'.ratingDef by {
      assert Unrecorded(h).pace == Unrecorded(h').pace;
      assert Unrecorded(h).ratingOff == Unrecorded(h').ratingOff && Unrecorded(h).ratingDef == Unrecorded(h').ratingDef;
    }
    assert a.pace == a'.pace && a.ratingOff == a'.ratingOff && a.ratingDef == a'.ratingDef by {
      assert Unrecorded(a).pace == Unrecorded(a').pace;
      assert Unrecorded(a).ratingOff == Unrecorded(a').ratingOff && Unrecorded(a).ratingDef == Unrecorded(a').ratingDef;
    }
    assert RawScore(h, a, HomeEdge, d.noiseA) == RawScore(h', a', HomeEdge, d.noiseA);
    assert RawScore(a, h, 0.0, d.noiseB) == RawScore(a', h', 0.0, d.noiseB);
  }

  /** The bracket after `maybeStartTournament`: an existing one stays; otherwise one is made once every game is played. */
  function Started(b: Option<Bracket>, teams: seq<Team>, games: seq<Game>): (r: Option<Bracket>)
    ensures b.Some? ==> r == b
    ensures b.None? ==> (r.Some? <==> AllPlayed(games))
    ensures b.None? && r.Some? ==> r.value == InitialBracket(Seeds(teams))
  {
    if b.Some? then b
    else if AllPlayed(games) then Some(InitialBracket(Seeds(teams)))
    else None
  }

  /** Some champion is one of the seeds. */
  ghost predicate Crowned(champion: Option<string>, seeds: seq<Team>)
  {
    exists t :: t in seeds && champion == Some(t.name)
  }

  /** A league of at least two teams always seeds at least two teams. */
  lemma {:induction false} SeedCount(teams: seq<Team>)
    requires IdsAreIndices(teams) && |teams| >= 2
    ensures |Seeds(teams)| >= 2
  {
    IdsDistinct(teams);
    FieldSize(teams);
  }

  /** The latest day of a non-empty schedule (`Math.max(...games.map(g => g.day))`). */
  function MaxDay(games: seq<Game>): (m: int)
    requires |games| > 0
    ensures forall i :: 0 <= i < |games| ==> games[i].day <= m
    ensures exists i :: 0 <= i < |games| && games[i].day == m
  {
    if |games| == 1 then games[0].day
    else
      var m := MaxDay(games[..|games| - 1]);
      assert forall i :: 0 <= i < |games| - 1 ==> games[..|games| - 1][i] == games[i];
      Max(m, games[|games| - 1].day)
  }

  /** A schedule of fresh conference games followed by fresh non-conference games, over teams with empty records, is a valid start. */
  lemma {:induction false} FreshScheduleOk(ts: seq<Team>, gs: seq<Game>, n: nat)
    requires n <= |gs| && NonConfFrom(ts, gs, n) && forall i :: 0 <= i < n ==> ConfGame(ts, gs[i])
    requires forall k :: 0 <= k < |ts| ==> ts[k].wins == 0 && ts[k].losses == 0 && ts[k].confWins == 0 && ts[k].confLosses == 0
    ensures GamesOk(ts, gs) && Standings(ts, gs)
    ensures forall id, s :: 0 <= id < |ts| ==> Column(ts[id], s) == 0
    ensures forall i :: 0 <= i < |gs| ==> Unplayed(gs[i])
  {
    forall i | 0 <= i < |gs| ensures Unplayed(gs[i]) && gs[i].homeId < |ts| && gs[i].awayId < |ts| {
      if i >= n {
        assert NonConfGame(ts, gs[i]);
      }
    }
    forall id, s | 0 <= id < |ts| ensures Column(ts[id], s) == Tally(gs, id, s) {
      TallyUnplayed(gs, id, s);
    }
  }

  /**
   * What every league operation keeps: team i has id i and there are at
   * least two teams; the games refer to known teams and are untouched or
   * decided; the records are the tallies of the games; a bracket exists only
   * once every game is played, starts from the current seeding and, until it
   * is complete, is at its first round; the league's champion is the
   * complete bracket's champion, a seed.
   */
  ghost predicate LeagueOk(teams: seq<Team>, games: seq<Game>, bracket: Option<Bracket>, champion: Option<string>)
  {
    IdsAreIndices(teams) && |teams| >= 2 &&
    GamesOk(teams, games) && Standings(teams, games) &&
    (bracket.Some? ==>
       AllPlayed(games) && BracketOk(bracket.value) &&
       bracket.value.rounds[0] == InitialBracket(Seeds(teams)).rounds[0] &&
       (!bracket.value.complete ==> bracket.value.round == 1) &&
       (bracket.value.complete ==> Crowned(bracket.value.champion, Seeds(teams)))) &&
    champion == (if bracket.Some? && bracket.value.complete then bracket.value.champion else None)
  }

  /** Playing a started bracket to its end keeps the league valid and crowns a seed. */
  lemma {:induction false} TournamentKeepsValid(teams: seq<Team>, games: seq<Game>, br0: Bracket, champion: Option<string>, br: Bracket)
    requires LeagueOk(teams, games, Some(br0), champion)
    requires BracketOk(br) && br.complete && br0.rounds <= br.rounds
    requires br0.complete ==> br == br0
    requires !br0.complete ==> exists t :: Entrant(br0.rounds[br0.round - 1], t) && br.champion == Some(t.name)
    ensures LeagueOk(teams, games, Some(br), br.champion)
    ensures br0.complete ==> champion == br.champion
  {
    if !br0.complete {
      var t :| Entrant(br0.rounds[0], t) && br.champion == Some(t.name);
      EntrantIsSeed(Seeds(teams), t);
      assert br.rounds[0] == br0.rounds[0];
    }
  }

  // ---------- The league ----------

  class League {
    var teams: seq<Team>
    var games: seq<Game>
    var currentDay: int
    var bracket: Option<Bracket>
    var champion: Option<string>

    /** What every operation keeps: see `LeagueOk`. */
    ghost predicate Valid()
      reads this
    {
      LeagueOk(teams, games, bracket, champion)
    }

    /** `newLeague`: fresh teams, their schedule, day 1, no bracket, no champion. */
    constructor (teamDraw: (nat, nat) -> TeamDraw, shuffle: nat -> seq<(nat, nat)>, coin: nat -> (nat, nat) -> bool,
                 oppDraw: (nat, nat) -> nat, homeDraw: (nat, nat) -> bool)
      ensures Valid()
      ensures |teams| == 120 && currentDay == 1 && bracket == None && champion == None
      ensures forall id, s :: 0 <= id < |teams| ==> Column(teams[id], s) == 0
      ensures forall i :: 0 <= i < |games| ==> Unplayed(games[i])
      ensures forall k :: 0 <= k < |teams| ==>
                teams[k] == NewTeam(k, Conferences[k / TeamsPerConference], teamDraw(k / TeamsPerConference, k % TeamsPerConference))
      ensures var conf := ConfSchedule(teams, shuffle, coin);
                |conf| <= |games| && games[..|conf|] == conf && NonConfFrom(teams, games, |conf|) &&
                NoRepeatFrom(games, |conf|) && DaysSorted(games)
      ensures exists ends, days :: TurnsFollow(teams, games, ends, days, |teams|, oppDraw, homeDraw) &&
                ends[0] == |ConfSchedule(teams, shuffle, coin)| && days[0] == ConfPhase(AllConfRounds(teams, shuffle, coin), 1).1
    {
      var ts := GenerateFictionalTeams(teamDraw);
      var gs, ends, days := BuildSchedule(ts, shuffle, coin, oppDraw, homeDraw);
      FreshScheduleOk(ts, gs, |ConfSchedule(ts, shuffle, coin)|);
      teams, games := ts, gs;
      currentDay, bracket, champion := 1, None, None;
    }

    /**
     * `simGame`: a played game is left alone; otherwise the game gets the
     * scores of `PlayedGame`, the winner a win and the loser a loss, and,
     * for a conference game, a conference win and a conference loss.
     */
    method SimGame(gi: nat, d: GameDraw)
      requires Valid() && gi < |games|
      modifies this
      ensures Valid()
      ensures games == old(games)[gi := if old(games[gi]).played then old(games[gi]) else PlayedGame(old(games[gi]), old(teams), d)]
      ensures |teams| == |old(teams)| && forall id :: 0 <= id < |teams| ==> Unrecorded(teams[id]) == Unrecorded(old(teams)[id])
      ensures forall id, s :: 0 <= id < |teams| ==>
                Column(teams[id], s) == Column(old(teams)[id], s) + Credit(games[gi], id, s) - Credit(old(games)[gi], id, s)
      ensures currentDay == old(currentDay) && bracket == old(bracket) && champion == old(champion)
    {
      var g := games[gi];
      if g.played {
        return;
      }
      var home, away := teams[g.homeId], teams[g.awayId];
      var scores := GameScores(home, away, d);
      var h, a := scores.0, scores.1;
      var played := WithScores(g, h, a);
      assert bracket.None? && champion.None?;
      ghost var teams0, games0 := teams, games;
      games := games[gi := played];
      RecordResult(played);
      forall id, s | 0 <= id < |teams| ensures Column(teams[id], s) == Tally(games, id, s) {
        TallyUpdate(games0, gi, played, id, s);
      }
    }

    /** The standings part of `simGame`: the winner of game g gets a win and the loser a loss, plus the conference columns for a conference game. */
    method RecordResult(g: Game)
      requires g.played && g.homeScore.Some? && g.awayScore.Some? && g.homeId < |teams| && g.awayId < |teams|
      modifies this
      ensures |teams| == |old(teams)| && forall id :: 0 <= id < |teams| ==> Unrecorded(teams[id]) == Unrecorded(old(teams)[id])
      ensures forall id, s :: 0 <= id < |teams| ==> Column(teams[id], s) == Column(old(teams)[id], s) + Credit(g, id, s)
      ensures games == old(games) && currentDay == old(currentDay) && bracket == old(bracket) && champion == old(champion)
    {
      var hW := g.homeScore.value > g.awayScore.value;
      var w, l := if hW then g.homeId else g.awayId, if hW then g.awayId else g.homeId;
      ghost var t0 := teams;
      teams := Bump(teams, w, Wins);
      teams := Bump(teams, l, Losses);
      if g.confGame { teams := Bump(teams, w, ConfWins); }
      if g.confGame { teams := Bump(teams, l, ConfLosses); }
      assert teams == Credited(t0, g);
      CreditedColumns(t0, g);
    }

    /**
     * `simToDay`: every unplayed game up to the target day is played, in
     * schedule order, with its own draw; the current day moves up to the
     * target; then `maybeStartTournament`.
     */
    method SimToDay(target: int, draw: nat -> GameDraw)
      requires Valid()
      modifies this
      ensures Valid()
      ensures |games| == |old(games)|
      ensures forall i :: 0 <= i < |games| ==> games[i] == Simulated(old(games)[i], old(teams), draw(i), target)
      ensures |teams| == |old(teams)| && forall id :: 0 <= id < |teams| ==> Unrecorded(teams[id]) == Unrecorded(old(teams)[id])
      ensures currentDay == Max(old(currentDay), target)
      ensures bracket == Started(old(bracket), teams, games)
      ensures champion == old(champion)
    {
      PlayUpTo(target, draw);
      currentDay := Max(currentDay, target);
      MaybeStartTournament();
    }

    /** The game loop of `simToDay`. */
    method PlayUpTo(target: int, draw: nat -> GameDraw)
      requires Valid()
      modifies this
      ensures Valid()
      ensures |games| == |old(games)|
      ensures forall i :: 0 <= i < |games| ==> games[i] == Simulated(old(games)[i], old(teams), draw(i), target)
      ensures |teams| == |old(teams)| && forall id :: 0 <= id < |teams| ==> Unrecorded(teams[id]) == Unrecorded(old(teams)[id])
      ensures currentDay == old(currentDay) && bracket == old(bracket) && champion == old(champion)
    {
      ghost var games0, teams0 := games, teams;
      for i := 0 to |games|
        invariant Valid()
        invariant |games| == |games0| && |teams| == |teams0|
        invariant forall id :: 0 <= id < |teams| ==> Unrecorded(teams[id]) == Unrecorded(teams0[id])
        invariant forall j :: 0 <= j < |games| ==> games[j] == if j < i then Simulated(games0[j], teams0, draw(j), target) else games0[j]
        invariant currentDay == old(currentDay) && bracket == old(bracket) && champion == old(champion)
      {
        var g := games[i];
        if !g.played && g.day <= target {
          ghost var teams1 := teams;
          SimGame(i, draw(i));
          ScoresIgnoreRecords(g, teams1, teams0, draw(i));
        }
      }
    }

    /**
     * `maybeStartTournament`: with no bracket yet and every game played,
     * select and seed the field and make the bracket; otherwise nothing.
     */
    method MaybeStartTournament()
      requires Valid()
      modifies this
      ensures Valid()
      ensures bracket == Started(old(bracket), teams, games)
      ensures teams == old(teams) && games == old(games)
      ensures currentDay == old(currentDay) && champion == old(champion)
    {
      if bracket.Some? {
        return;
      }
      if exists i :: 0 <= i < |games| && !games[i].played {
        return;
      }
      var seeds := SelectSeeds(teams);
      SeedCount(teams);
      var br := MakeBracket(seeds);
      InitialBracketOk(seeds);
      bracket := Some(br);
    }

    /**
     * `simTournament`: play the bracket to the end.  A complete bracket is
     * left alone; otherwise every new round follows the rules with its
     * draws, log2(first-round pairings) rounds are added, and the champion
     * is one of the seeds.
     */
    method SimTournament(tourneyDraw: nat -> nat -> GameDraw)
      requires Valid() && bracket.Some?
      modifies this
      ensures Valid()
      ensures bracket.Some? && bracket.value.complete && champion.Some? && champion == bracket.value.champion
      ensures old(bracket.value.complete) ==> bracket == old(bracket)
      ensures !old(bracket.value.complete) ==>
                old(bracket.value.rounds) <= bracket.value.rounds &&
                |bracket.value.rounds| == 1 + Log2(|old(bracket.value.rounds[0])|) &&
                forall r :: 0 <= r < |bracket.value.results| ==> RoundFollows(bracket.value, r, tourneyDraw)
      ensures teams == old(teams) && games == old(games) && currentDay == old(currentDay)
    {
      var br0 := bracket.value;
      var br := RunBracket(br0, tourneyDraw);
      TournamentKeepsValid(teams, games, br0, champion, br);
      bracket := Some(br);
      if !br0.complete {
        champion := br.champion;
      }
    }

    /**
     * `simSeason`: play every game up to the last day of the schedule, start
     * the tournament and play it.  Afterwards every game is played, each
     * previously unplayed game with its own draw, and the champion is a seed.
     */
    method SimSeason(draw: nat -> GameDraw, tourneyDraw: nat -> nat -> GameDraw)
      requires Valid()
      modifies this
      ensures Valid()
      ensures |games| == |old(games)| && AllPlayed(games)
      ensures forall i :: 0 <= i < |games| ==>
                games[i] == if old(games)[i].played then old(games)[i] else PlayedGame(old(games)[i], old(teams), draw(i))
      ensures |teams| == |old(teams)| && forall id :: 0 <= id < |teams| ==> Unrecorded(teams[id]) == Unrecorded(old(teams)[id])
      ensures currentDay == if |old(games)| == 0 then old(currentDay) else Max(old(currentDay), MaxDay(old(games)))
      ensures bracket.Some? && bracket.value.complete && bracket.value.rounds[0] == InitialBracket(Seeds(teams)).rounds[0]
      ensures old(bracket).Some? && old(bracket.value.complete) ==> bracket == old(bracket)
      ensures old(bracket).None? || !old(bracket.value.complete) ==>
                IsPow2(|bracket.value.rounds[0]|) && |bracket.value.rounds| == 1 + Log2(|bracket.value.rounds[0]|) &&
                forall r :: 0 <= r < |bracket.value.results| ==> RoundFollows(bracket.value, r, tourneyDraw)
      ensures champion.Some? && Crowned(champion, Seeds(teams))
    {
      // `Math.max()` of no days is -Infinity, which leaves the current day as it is
      var maxDay := if |games| == 0 then currentDay else MaxDay(games);
      SimToDay(maxDay, draw);
      MaybeStartTournament();
      if bracket.Some? {
        SimTournament(tourneyDraw);
      }
    }
  }
}
