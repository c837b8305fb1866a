/**
 * `buildSchedule`: per conference (in first-seen order) a shuffled circle
 * round-robin cut to its first 10 rounds, played once and then once more with
 * home and away swapped, one day per round; then, team by team, up to 8
 * non-conference games against random opponents from other conferences,
 * drawing at most 200 times; finally the list is ordered by day.
 *
 * The random draws are inputs:
 *   - `shuffle(c)` is the shuffle of conference c, as the list of swaps it amounts to;
 *   - `coin(c)` gives the home coins of conference c's round-robin;
 *   - `oppDraw(i, t)` is the index drawn on try t (1-based) of team i, taken modulo the team count;
 *   - `homeDraw(i, t)` is true when team i is the home side of the game found on try t.
 */
module Schedule {
  import opened Seqs
  import opened Teams
  import opened Games
  import opened Grouping
  import opened Circle

  /** The conference of a team: the key `buildSchedule` groups by. */
  const ConfOf: Team -> string := (t: Team) => t.conf

  /** At most this many rounds of each conference's round-robin are used. */
  const ConfRoundLimit: nat := 10
  /** At most this many non-conference games are added in each team's turn. */
  const NonConfLimit: nat := 8
  /** At most this many opponent draws are made in each team's turn. */
  const TryLimit: nat := 200

  // ---------- The conference shuffle ----------

  /** The permutation `sort(() => Math.random() - 0.5)` produces, written as the swaps that make it. */
  function ApplySwaps<T>(s: seq<T>, swaps: seq<(nat, nat)>): (r: seq<T>)
    ensures |r| == |s| && multiset(r) == multiset(s)
    decreases |swaps|
  {
    if swaps == [] || s == [] then s
    else
      var i, j := swaps[0].0 % |s|, swaps[0].1 % |s|;
      ApplySwaps(s[i := s[j]][j := s[i]], swaps[1..])
  }

  lemma {:induction false} SwapKeepsDistinct<T>(s: seq<T>, i: nat, j: nat)
    requires i < |s| && j < |s| && Distinct(s)
    ensures Distinct(s[i := s[j]][j := s[i]])
  {
    var t := s[i := s[j]][j := s[i]];
    forall a, b | 0 <= a < b < |t| ensures t[a] != t[b] {
      var pa := if a == j then i else if a == i then j else a;
      var pb := if b == j then i else if b == i then j else b;
      assert t[a] == s[pa] && t[b] == s[pb] && pa != pb;
    }
  }

  /** Shuffling a list without repeats gives a list without repeats. */
  lemma {:induction false} ShuffleKeepsDistinct<T>(s: seq<T>, swaps: seq<(nat, nat)>)
    requires Distinct(s)
    ensures Distinct(ApplySwaps(s, swaps))
    decreases |swaps|
  {
    if swaps != [] && s != [] {
      var i, j := swaps[0].0 % |s|, swaps[0].1 % |s|;
      SwapKeepsDistinct(s, i, j);
      ShuffleKeepsDistinct(s[i := s[j]][j := s[i]], swaps[1..]);
    }
  }

  // ---------- The conference phase, as a specification ----------

  /** Conference c's teams, in league order. */
  function GroupOf(teams: seq<Team>, c: nat): seq<Team>
    requires c < |KeysOf(teams, ConfOf)|
  {
    Members(teams, ConfOf, KeysOf(teams, ConfOf)[c])
  }

  /** The rounds a group of teams plays: the first 10 of the round-robin over the group once shuffled. */
  function PlayedRounds(group: seq<Team>, swaps: seq<(nat, nat)>, coin: (nat, nat) -> bool): seq<seq<(Team, Team)>>
  {
    Take(CircleRounds(ApplySwaps(group, swaps), coin), ConfRoundLimit)
  }

  /** The rounds conference c plays. */
  function ConfRounds(teams: seq<Team>, c: nat, shuffle: nat -> seq<(nat, nat)>, coin: nat -> (nat, nat) -> bool)
    : seq<seq<(Team, Team)>>
    requires c < |KeysOf(teams, ConfOf)|
  {
    PlayedRounds(GroupOf(teams, c), shuffle(c), coin(c))
  }

  /** The game pushed for one pairing: home first, or swapped in the mirror pass. */
  function PairGame(p: (Team, Team), day: int, mirrored: bool): Game
  {
    if mirrored then NewGame(day, p.1.id, p.0.id, true) else NewGame(day, p.0.id, p.1.id, true)
  }

  /** The games of one round, all on `day`. */
  function RoundGames(round: seq<(Team, Team)>, day: int, mirrored: bool): (gs: seq<Game>)
    ensures |gs| == |round|
  {
    if round == [] then []
    else RoundGames(round[..|round| - 1], day, mirrored) + [PairGame(round[|round| - 1], day, mirrored)]
  }

  /** One pass over the rounds, round k on day `day + k`. */
  function PassGames(rounds: seq<seq<(Team, Team)>>, day: int, mirrored: bool): seq<Game>
  {
    if rounds == [] then []
    else PassGames(rounds[..|rounds| - 1], day, mirrored) + RoundGames(rounds[|rounds| - 1], day + |rounds| - 1, mirrored)
  }

  /** The rounds of every conference, in first-seen order. */
  function AllConfRounds(teams: seq<Team>, shuffle: nat -> seq<(nat, nat)>, coin: nat -> (nat, nat) -> bool)
    : (rs: seq<seq<seq<(Team, Team)>>>)
    ensures |rs| == |KeysOf(teams, ConfOf)|
  {
    seq(|KeysOf(teams, ConfOf)|, c requires 0 <= c < |KeysOf(teams, ConfOf)| => ConfRounds(teams, c, shuffle, coin))
  }

  /** The conference phase over the rounds `rs` of some conferences, starting on `day`: its games and the day after it. */
  function ConfPhase(rs: seq<seq<seq<(Team, Team)>>>, day: int): (seq<Game>, int)
  {
    if rs == [] then ([], day)
    else
      var R := |rs[0]|;
      var rest := ConfPhase(rs[1..], day + 2 * R);
      (PassGames(rs[0], day, false) + PassGames(rs[0], day + R, true) + rest.0, rest.1)
  }

  /** The conference phase from conference c on is conference c's two passes, then the rest. */
  lemma {:induction false} ConfPhaseStep(rs: seq<seq<seq<(Team, Team)>>>, c: nat, day: int)
    requires c < |rs|
    ensures var R := |rs[c]|; var rest := ConfPhase(rs[c + 1..], day + 2 * R);
      ConfPhase(rs[c..], day) == (PassGames(rs[c], day, false) + PassGames(rs[c], day + R, true) + rest.0, rest.1)
  {
    assert rs[c..][0] == rs[c];
    assert rs[c..][1..] == rs[c + 1..];
  }

  /** The rounds played by the c-th group are conference c's rounds. */
  lemma GroupRounds(teams: seq<Team>, shuffle: nat -> seq<(nat, nat)>, coin: nat -> (nat, nat) -> bool,
                    group: seq<Team>, c: nat)
    requires c < |KeysOf(teams, ConfOf)| && group == Members(teams, ConfOf, KeysOf(teams, ConfOf)[c])
    ensures PlayedRounds(group, shuffle(c), coin(c)) == AllConfRounds(teams, shuffle, coin)[c]
  {
  }

  /** What has been pushed, followed by the phase of the conferences from c on, is the whole phase. */
  predicate Pending(rs: seq<seq<seq<(Team, Team)>>>, c: nat, games: seq<Game>, day: int, full: (seq<Game>, int))
    requires c <= |rs|
  {
    games + ConfPhase(rs[c..], day).0 == full.0 && ConfPhase(rs[c..], day).1 == full.1
  }

  lemma {:induction false} PendingStart(rs: seq<seq<seq<(Team, Team)>>>, day: int)
    ensures Pending(rs, 0, [], day, ConfPhase(rs, day))
  {
    assert rs[0..] == rs;
  }

  lemma {:induction false} PendingEnd(rs: seq<seq<seq<(Team, Team)>>>, games: seq<Game>, day: int, full: (seq<Game>, int))
    requires Pending(rs, |rs|, games, day, full)
    ensures (games, day) == full
  {
    assert rs[|rs|..] == [];
    assert games + [] == games;
  }

  /** One turn of the conference loop keeps `Pending`. */
  lemma {:induction false} PhaseAdvance(rs: seq<seq<seq<(Team, Team)>>>, c: nat, games0: seq<Game>, day0: int,
                                        games: seq<Game>, day: int, full: (seq<Game>, int))
    requires c < |rs| && Pending(rs, c, games0, day0, full)
    requires games == games0 + PassGames(rs[c], day0, false) + PassGames(rs[c], day0 + |rs[c]|, true)
    requires day == day0 + |rs[c]| + |rs[c]|
    ensures Pending(rs, c + 1, games, day, full)
  {
    ConfPhaseStep(rs, c, day0);
  }

  /** The conference games of the whole league, from day 1. */
  function ConfSchedule(teams: seq<Team>, shuffle: nat -> seq<(nat, nat)>, coin: nat -> (nat, nat) -> bool): seq<Game>
  {
    ConfPhase(AllConfRounds(teams, shuffle, coin), 1).0
  }

  /** Days never decrease along the list. */
  predicate DaysSorted(games: seq<Game>)
  {
    forall i, j :: 0 <= i < j < |games| ==> games[i].day <= games[j].day
  }

  /** Every game is unplayed and on day `first` or later. */
  predicate FreshFrom(games: seq<Game>, first: int)
  {
    forall i :: 0 <= i < |games| ==> Unplayed(games[i]) && games[i].day >= first
  }

  /** No game from index `from` on repeats a meeting of an earlier game. */
  predicate NoRepeatFrom(games: seq<Game>, from: nat)
  {
    forall i, j :: 0 <= j < i < |games| && from <= i ==> !SameMeeting(games[j], games[i])
  }

  /** Every game from index `from` on is a non-conference game. */
  predicate NonConfFrom(teams: seq<Team>, games: seq<Game>, from: nat)
  {
    forall i :: from <= i < |games| ==> NonConfGame(teams, games[i])
  }

  // ---------- The source's loops ----------

  /**
   * `buildSchedule`.  The conference games come first, exactly as
   * `ConfSchedule` lists them; every later game is a non-conference game
   * that repeats no earlier meeting.  The list is ordered by day.
   */
  method BuildSchedule(teams: seq<Team>, shuffle: nat -> seq<(nat, nat)>, coin: nat -> (nat, nat) -> bool,
                       oppDraw: (nat, nat) -> nat, homeDraw: (nat, nat) -> bool)
    returns (games: seq<Game>, ghost ends: seq<nat>, ghost days: seq<int>)
    requires IdsAreIndices(teams)
    ensures var conf := ConfSchedule(teams, shuffle, coin);
      |conf| <= |games| && games[..|conf|] == conf && NonConfFrom(teams, games, |conf|) && NoRepeatFrom(games, |conf|) &&
      (forall i :: 0 <= i < |conf| ==> ConfGame(teams, games[i]))
    ensures FreshFrom(games, 1) && DaysSorted(games)
    ensures TurnsFollow(teams, games, ends, days, |teams|, oppDraw, homeDraw)
    ensures ends[0] == |ConfSchedule(teams, shuffle, coin)| && days[0] == ConfPhase(AllConfRounds(teams, shuffle, coin), 1).1
  {
    var day;
    games, day := ConferencePhase(teams, shuffle, coin);
    ghost var rs := AllConfRounds(teams, shuffle, coin);
    ConfPhaseDays(rs, 1);
    AllConfRoundsOk(teams, shuffle, coin);
    ConfPhaseFacts(teams, rs, 1);
    assert DaysSorted(games) && FreshFrom(games, 1) && DaysAtMost(games, day);
    ghost var conf := games;
    games, day, ends, days := NonConference(teams, games, day, oppDraw, homeDraw);
    assert forall i :: 0 <= i < |conf| ==> games[i] == conf[i];
    // `games.sort((a, b) => a.day - b.day || ...)`: the list is already ordered by day
  }

  /** The conference loop of `buildSchedule`: conference by conference, two passes over its rounds. */
  method ConferencePhase(teams: seq<Team>, shuffle: nat -> seq<(nat, nat)>, coin: nat -> (nat, nat) -> bool)
    returns (games: seq<Game>, day: int)
    ensures (games, day) == ConfPhase(AllConfRounds(teams, shuffle, coin), 1)
  {
    var byConf := GroupBy(teams, ConfOf);
    ghost var rs := AllConfRounds(teams, shuffle, coin);
    forall c | 0 <= c < |rs|
      ensures GroupPlays(byConf, rs, c, shuffle, coin)
    {
      GroupRounds(teams, shuffle, coin, byConf[c].1, c);
    }
    games, day := PlayConferences(byConf, rs, shuffle, coin);
  }

  /** The loop itself, over the groups and (as a specification) the rounds each group plays. */
  method PlayConferences(groups: seq<(string, seq<Team>)>, ghost rs: seq<seq<seq<(Team, Team)>>>,
                         shuffle: nat -> seq<(nat, nat)>, coin: nat -> (nat, nat) -> bool)
    returns (games: seq<Game>, day: int)
    requires |groups| == |rs|
    requires forall c :: 0 <= c < |rs| ==> GroupPlays(groups, rs, c, shuffle, coin)
    ensures (games, day) == ConfPhase(rs, 1)
  {
    ghost var full := ConfPhase(rs, 1);
    games := [];
    day := 1;
    var c := 0;
    PendingStart(rs, 1);
    while c < |groups|
      invariant 0 <= c <= |groups|
      invariant Pending(rs, c, games, day, full)
    {
      games, day := ConferenceStep(groups, rs, c, shuffle, coin, games, day, full);
      c := c + 1;
    }
    PendingEnd(rs, games, day, full);
  }

  /** One iteration of the conference loop: conference c's turn keeps `Pending`. */
  method ConferenceStep(groups: seq<(string, seq<Team>)>, ghost rs: seq<seq<seq<(Team, Team)>>>, c: nat,
                        shuffle: nat -> seq<(nat, nat)>, coin: nat -> (nat, nat) -> bool,
                        games0: seq<Game>, day0: int, ghost full: (seq<Game>, int))
    returns (games: seq<Game>, day: int)
    requires c < |groups| == |rs| && GroupPlays(groups, rs, c, shuffle, coin)
    requires Pending(rs, c, games0, day0, full)
    ensures Pending(rs, c + 1, games, day, full)
  {
    games, day := ConferenceTurn(groups[c].1, shuffle(c), coin(c), rs[c], games0, day0);
    PhaseAdvance(rs, c, games0, day0, games, day, full);
  }

  /** Group c plays the rounds `rs[c]`. */
  predicate GroupPlays(groups: seq<(string, seq<Team>)>, rs: seq<seq<seq<(Team, Team)>>>, c: nat,
                       shuffle: nat -> seq<(nat, nat)>, coin: nat -> (nat, nat) -> bool)
    requires c < |groups| == |rs|
  {
    rs[c] == PlayedRounds(groups[c].1, shuffle(c), coin(c))
  }

  /** One conference's turn: shuffle its teams, build the round-robin, keep 10 rounds and push both passes. */
  method ConferenceTurn(group: seq<Team>, swaps: seq<(nat, nat)>, coin: (nat, nat) -> bool, ghost R: seq<seq<(Team, Team)>>,
                        games0: seq<Game>, day0: int)
    returns (games: seq<Game>, day: int)
    requires R == PlayedRounds(group, swaps, coin)
    ensures games == games0 + PassGames(R, day0, false) + PassGames(R, day0 + |R|, true) && day == day0 + |R| + |R|
  {
    var t := ApplySwaps(group, swaps);
    var rr := RoundRobin(t, coin);
    var rounds := Take(rr, ConfRoundLimit);
    games, day := PushPass(games0, rounds, day0, false);
    games, day := PushPass(games, rounds, day, true);
  }

  /** One pass of `buildSchedule`'s conference loop: push every pairing of every round, one day per round. */
  method PushPass(games0: seq<Game>, rounds: seq<seq<(Team, Team)>>, day0: int, mirrored: bool)
    returns (games: seq<Game>, day: int)
    ensures games == games0 + PassGames(rounds, day0, mirrored)
    ensures day == day0 + |rounds|
  {
    games, day := games0, day0;
    var r := 0;
    while r < |rounds|
      invariant 0 <= r <= |rounds|
      invariant games == games0 + PassGames(rounds[..r], day0, mirrored)
      invariant day == day0 + r
    {
      var round := rounds[r];
      var a := 0;
      while a < |round|
        invariant 0 <= a <= |round|
        invariant games == games0 + PassGames(rounds[..r], day0, mirrored) + RoundGames(round[..a], day, mirrored)
      {
        assert round[..a + 1][..a] == round[..a];
        games := games + [PairGame(round[a], day, mirrored)];
        a := a + 1;
      }
      assert round[..a] == round;
      assert rounds[..r + 1][..r] == rounds[..r];
      games := games + [];
      day := day + 1;
      r := r + 1;
    }
    assert rounds[..r] == rounds;
  }

  // ---------- The non-conference phase ----------

  /** Two games between the same two teams, whoever is at home. */
  predicate SameMeeting(g1: Game, g2: Game)
  {
    (g1.homeId == g2.homeId && g1.awayId == g2.awayId) || (g1.homeId == g2.awayId && g1.awayId == g2.homeId)
  }

  /** `games.some(...)`: the two teams already meet in `games`. */
  predicate AlreadyMeet(games: seq<Game>, x: nat, y: nat)
  {
    exists i :: 0 <= i < |games| && ((games[i].homeId == x && games[i].awayId == y) ||
                                     (games[i].awayId == x && games[i].homeId == y))
  }

  /** A non-conference game: two different known teams of different conferences, not yet played. */
  predicate NonConfGame(teams: seq<Team>, g: Game)
  {
    !g.confGame && Unplayed(g) && g.homeId < |teams| && g.awayId < |teams| && g.homeId != g.awayId &&
    teams[g.homeId].conf != teams[g.awayId].conf
  }

  /** A conference game: two different known teams of the same conference, not yet played. */
  predicate ConfGame(teams: seq<Team>, g: Game)
  {
    g.confGame && Unplayed(g) && g.homeId < |teams| && g.awayId < |teams| && g.homeId != g.awayId &&
    teams[g.homeId].conf == teams[g.awayId].conf
  }

  /** Every day in the list is at most `day`. */
  predicate DaysAtMost(games: seq<Game>, day: int)
  {
    forall i :: 0 <= i < |games| ==> games[i].day <= day
  }

  /**
   * The first n turns of the non-conference loop: turn i added the games
   * between `ends[i]` and `ends[i+1]`, at most 8, each involving team i.
   */
  ghost predicate Turns(games: seq<Game>, ends: seq<nat>, n: nat)
  {
    |ends| == n + 1 && ends[n] == |games| &&
    (forall i :: 0 <= i <= n ==> ends[i] <= |games|) &&
    (forall i :: 0 <= i < n ==> ends[i] <= ends[i + 1] <= ends[i] + NonConfLimit) &&
    (forall i, k :: 0 <= i < n && ends[i] <= k < ends[i + 1] ==> games[k].homeId == i || games[k].awayId == i)
  }

  lemma {:induction false} TurnsExtend(games0: seq<Game>, games: seq<Game>, ends: seq<nat>, n: nat)
    requires Turns(games0, ends, n)
    requires |games0| <= |games| <= |games0| + NonConfLimit && games[..|games0|] == games0
    requires forall k :: |games0| <= k < |games| ==> games[k].homeId == n || games[k].awayId == n
    ensures Turns(games, ends + [|games|], n + 1)
  {
    var e := ends + [|games|];
    forall i, k | 0 <= i < n + 1 && e[i] <= k < e[i + 1] ensures games[k].homeId == i || games[k].awayId == i {
      if i < n {
        assert k < |games0| && games[k] == games0[k];
      }
    }
  }

  /** The game that draw t of team i's turn pushes: `newGame` against `teams[oppDraw(i, t) % n]`, team i at home when `homeDraw(i, t)` says so. */
  function TurnGame(teams: seq<Team>, ti: nat, day: int, oppDraw: (nat, nat) -> nat, homeDraw: (nat, nat) -> bool, t: nat): (g: Game)
    requires ti < |teams|
    ensures Unplayed(g) && !g.confGame && g.day == day
    ensures var opp := teams[oppDraw(ti, t) % |teams|];
      (g.homeId, g.awayId) == if homeDraw(ti, t) then (teams[ti].id, opp.id) else (opp.id, teams[ti].id)
  {
    var team, opp := teams[ti], teams[oppDraw(ti, t) % |teams|];
    var home := if homeDraw(ti, t) then team.id else opp.id;
    var away := if home == team.id then opp.id else team.id;
    NewGame(day, home, away, false)
  }

  /** Draw t of team i's turn is passed over: the drawn team is team i itself or of its conference, or the two already meet in `games`. */
  predicate Passed(teams: seq<Team>, ti: nat, games: seq<Game>, oppDraw: (nat, nat) -> nat, t: nat)
    requires ti < |teams|
  {
    var team, opp := teams[ti], teams[oppDraw(ti, t) % |teams|];
    opp.id == team.id || opp.conf == team.conf || AlreadyMeet(games, team.id, opp.id)
  }

  /** Where team i's turn stands: the games so far, the day, the games it added and the draws it made. */
  datatype TurnState = TurnState(games: seq<Game>, day: int, added: nat, tries: nat)

  /**
   * One draw of team i's turn: a draw that is passed over only counts as a
   * try; any other pushes its game and counts as an added game, and every
   * second added game moves the day on.
   */
  function Draw(teams: seq<Team>, ti: nat, s: TurnState, oppDraw: (nat, nat) -> nat, homeDraw: (nat, nat) -> bool): (r: TurnState)
    requires ti < |teams|
    ensures r.tries == s.tries + 1 && s.added <= r.added <= s.added + 1
  {
    var t := s.tries + 1;
    if Passed(teams, ti, s.games, oppDraw, t) then s.(tries := t)
    else
      var added := s.added + 1;
      TurnState(s.games + [TurnGame(teams, ti, s.day, oppDraw, homeDraw, t)], if added % 2 == 0 then s.day + 1 else s.day, added, t)
  }

  /** The rest of team i's turn from state s: draw after draw until the eighth added game or the 200th draw. */
  function Turn(teams: seq<Team>, ti: nat, s: TurnState, oppDraw: (nat, nat) -> nat, homeDraw: (nat, nat) -> bool): TurnState
    requires ti < |teams| && s.added <= NonConfLimit && s.tries <= TryLimit
    decreases TryLimit - s.tries
  {
    if s.added == NonConfLimit || s.tries == TryLimit then s
    else Turn(teams, ti, Draw(teams, ti, s, oppDraw, homeDraw), oppDraw, homeDraw)
  }

  /**
   * A turn stops only at the eighth added game or the 200th draw; it adds
   * at most one game per draw, keeps the games it started from, and moves the
   * day on once per two added games.
   */
  lemma {:induction false} TurnFacts(teams: seq<Team>, ti: nat, s: TurnState, oppDraw: (nat, nat) -> nat, homeDraw: (nat, nat) -> bool)
    requires ti < |teams| && s.added <= NonConfLimit && s.tries <= TryLimit
    ensures var r := Turn(teams, ti, s, oppDraw, homeDraw);
      (r.added == NonConfLimit || r.tries == TryLimit) &&
      s.added <= r.added <= NonConfLimit && s.tries <= r.tries <= TryLimit &&
      r.added - s.added <= r.tries - s.tries &&
      |r.games| == |s.games| + (r.added - s.added) && r.games[..|s.games|] == s.games &&
      r.day == s.day + r.added / 2 - s.added / 2
    decreases TryLimit - s.tries
  {
    if s.added < NonConfLimit && s.tries < TryLimit {
      var s' := Draw(teams, ti, s, oppDraw, homeDraw);
      TurnFacts(teams, ti, s', oppDraw, homeDraw);
      var r := Turn(teams, ti, s', oppDraw, homeDraw);
      assert r.games[..|s.games|] == r.games[..|s'.games|][..|s.games|];
    }
  }

  /** What a turn keeps: the games from `from` on are valid new non-conference meetings, those from `k0` on involve team i, and the days are ordered up to the current day. */
  predicate TurnOk(teams: seq<Team>, ti: nat, from: nat, k0: nat, s: TurnState)
  {
    NonConfFrom(teams, s.games, from) && NoRepeatFrom(s.games, from) &&
    DaysSorted(s.games) && FreshFrom(s.games, 1) && DaysAtMost(s.games, s.day) && 1 <= s.day &&
    forall k :: k0 <= k < |s.games| ==> s.games[k].homeId == ti || s.games[k].awayId == ti
  }

  /** One draw keeps `TurnOk`: a pushed game is a new meeting of team i with a team of another conference, on the current day. */
  lemma {:induction false} DrawKeeps(teams: seq<Team>, ti: nat, from: nat, k0: nat, s: TurnState,
                                     oppDraw: (nat, nat) -> nat, homeDraw: (nat, nat) -> bool)
    requires IdsAreIndices(teams) && ti < |teams| && from <= |s.games| && TurnOk(teams, ti, from, k0, s)
    ensures TurnOk(teams, ti, from, k0, Draw(teams, ti, s, oppDraw, homeDraw))
  {
    var t := s.tries + 1;
    if !Passed(teams, ti, s.games, oppDraw, t) {
      var g := TurnGame(teams, ti, s.day, oppDraw, homeDraw, t);
      var opp := teams[oppDraw(ti, t) % |teams|];
      var games := s.games + [g];
      assert NonConfGame(teams, g);
      forall j | 0 <= j < |s.games| ensures !SameMeeting(games[j], g) {
        if SameMeeting(s.games[j], g) {
          assert AlreadyMeet(s.games, teams[ti].id, opp.id);
        }
      }
      var r := Draw(teams, ti, s, oppDraw, homeDraw);
      assert r.games == games && r.day >= s.day;
    }
  }

  /** A whole turn keeps `TurnOk`. */
  lemma {:induction false} TurnKeeps(teams: seq<Team>, ti: nat, from: nat, k0: nat, s: TurnState,
                                     oppDraw: (nat, nat) -> nat, homeDraw: (nat, nat) -> bool)
    requires IdsAreIndices(teams) && ti < |teams| && from <= |s.games| && TurnOk(teams, ti, from, k0, s)
    requires s.added <= NonConfLimit && s.tries <= TryLimit
    ensures TurnOk(teams, ti, from, k0, Turn(teams, ti, s, oppDraw, homeDraw))
    decreases TryLimit - s.tries
  {
    if s.added < NonConfLimit && s.tries < TryLimit {
      DrawKeeps(teams, ti, from, k0, s, oppDraw, homeDraw);
      TurnKeeps(teams, ti, from, k0, Draw(teams, ti, s, oppDraw, homeDraw), oppDraw, homeDraw);
    }
  }

  /** Before the turn stops, it is one draw followed by the rest. */
  lemma TurnStep(teams: seq<Team>, ti: nat, s: TurnState, oppDraw: (nat, nat) -> nat, homeDraw: (nat, nat) -> bool)
    requires ti < |teams| && s.added < NonConfLimit && s.tries < TryLimit
    ensures Turn(teams, ti, s, oppDraw, homeDraw) == Turn(teams, ti, Draw(teams, ti, s, oppDraw, homeDraw), oppDraw, homeDraw)
  {
  }

  /** The first n turns are `Turn`s: turn i starts on day `days[i]` from the games before `ends[i]` and ends on day `days[i+1]` with the games before `ends[i+1]`. */
  ghost predicate TurnsFollow(teams: seq<Team>, games: seq<Game>, ends: seq<nat>, days: seq<int>, n: nat,
                              oppDraw: (nat, nat) -> nat, homeDraw: (nat, nat) -> bool)
  {
    n <= |teams| && Turns(games, ends, n) && |days| == n + 1 &&
    forall i :: 0 <= i < n ==>
      var r := Turn(teams, i, TurnState(games[..ends[i]], days[i], 0, 0), oppDraw, homeDraw);
      r.games == games[..ends[i + 1]] && r.day == days[i + 1]
  }

  lemma {:induction false} TurnsFollowExtend(teams: seq<Team>, games0: seq<Game>, games: seq<Game>, ends: seq<nat>, days: seq<int>, n: nat,
                                             day: int, oppDraw: (nat, nat) -> nat, homeDraw: (nat, nat) -> bool)
    requires TurnsFollow(teams, games0, ends, days, n, oppDraw, homeDraw) && n < |teams|
    requires Turns(games, ends + [|games|], n + 1) && |games0| <= |games| && games[..|games0|] == games0
    requires var r := Turn(teams, n, TurnState(games0, days[n], 0, 0), oppDraw, homeDraw); r.games == games && r.day == day
    ensures TurnsFollow(teams, games, ends + [|games|], days + [day], n + 1, oppDraw, homeDraw)
  {
    var e, d := ends + [|games|], days + [day];
    forall i | 0 <= i < n + 1
      ensures var r := Turn(teams, i, TurnState(games[..e[i]], d[i], 0, 0), oppDraw, homeDraw);
        r.games == games[..e[i + 1]] && r.day == d[i + 1]
    {
      if i < n {
        assert games[..e[i]] == games0[..ends[i]];
        assert games[..e[i + 1]] == games0[..ends[i + 1]];
      } else {
        assert games[..e[i]] == games0;
        assert games[..e[i + 1]] == games;
      }
    }
  }

  /**
   * The non-conference loop.  Team i's turn adds the games between `ends[i]`
   * and `ends[i+1]`, at most 8 of them, each involving team i; no added game
   * repeats a meeting already in the list.
   */
  method NonConference(teams: seq<Team>, games0: seq<Game>, day0: int,
                       oppDraw: (nat, nat) -> nat, homeDraw: (nat, nat) -> bool)
    returns (games: seq<Game>, day: int, ghost ends: seq<nat>, ghost days: seq<int>)
    requires IdsAreIndices(teams) && day0 >= 1
    requires DaysSorted(games0) && FreshFrom(games0, 1) && DaysAtMost(games0, day0)
    ensures |games0| <= |games| && games[..|games0|] == games0 && day0 <= day
    ensures NonConfFrom(teams, games, |games0|) && NoRepeatFrom(games, |games0|)
    ensures DaysSorted(games) && FreshFrom(games, 1)
    ensures Turns(games, ends, |teams|) && ends[0] == |games0|
    ensures TurnsFollow(teams, games, ends, days, |teams|, oppDraw, homeDraw) && days[0] == day0 && days[|teams|] == day
  {
    games, day := games0, day0;
    ends, days := [|games0|], [day0];
    var ti := 0;
    while ti < |teams|
      invariant 0 <= ti <= |teams|
      invariant |games0| <= |games| && games[..|games0|] == games0 && day0 <= day
      invariant NonConfFrom(teams, games, |games0|) && NoRepeatFrom(games, |games0|)
      invariant DaysSorted(games) && FreshFrom(games, 1) && DaysAtMost(games, day)
      invariant Turns(games, ends, ti) && ends[0] == |games0|
      invariant TurnsFollow(teams, games, ends, days, ti, oppDraw, homeDraw) && days[0] == day0 && days[ti] == day
    {
      ghost var before := games;
      games, day := TeamTurn(teams, ti, games, day, |games0|, oppDraw, homeDraw);
      TurnsExtend(before, games, ends, ti);
      TurnsFollowExtend(teams, before, games, ends, days, ti, day, oppDraw, homeDraw);
      assert games[..|games0|] == before[..|games0|];
      ends, days := ends + [|games|], days + [day];
      ti := ti + 1;
    }
  }

  /** Team i's turn of the non-conference loop: `Turn` from no games added and no draws made, which keeps `TurnOk`. */
  method TeamTurn(teams: seq<Team>, ti: nat, games0: seq<Game>, day0: int, ghost from: nat,
                  oppDraw: (nat, nat) -> nat, homeDraw: (nat, nat) -> bool)
    returns (games: seq<Game>, day: int)
    requires IdsAreIndices(teams) && ti < |teams| && day0 >= 1 && from <= |games0|
    requires NonConfFrom(teams, games0, from) && NoRepeatFrom(games0, from)
    requires DaysSorted(games0) && FreshFrom(games0, 1) && DaysAtMost(games0, day0)
    ensures var r := Turn(teams, ti, TurnState(games0, day0, 0, 0), oppDraw, homeDraw); games == r.games && day == r.day
    ensures |games0| <= |games| <= |games0| + NonConfLimit && games[..|games0|] == games0 && day0 <= day
    ensures NonConfFrom(teams, games, from) && NoRepeatFrom(games, from)
    ensures DaysSorted(games) && FreshFrom(games, 1) && DaysAtMost(games, day)
    ensures forall k :: |games0| <= k < |games| ==> games[k].homeId == ti || games[k].awayId == ti
  {
    ghost var init := TurnState(games0, day0, 0, 0);
    games, day := games0, day0;
    var team := teams[ti];
    var added, tries := 0, 0;
    while added < NonConfLimit && tries < TryLimit
      invariant 0 <= added <= NonConfLimit && 0 <= tries <= TryLimit
      invariant Turn(teams, ti, TurnState(games, day, added, tries), oppDraw, homeDraw) == Turn(teams, ti, init, oppDraw, homeDraw)
      decreases TryLimit - tries
    {
      ghost var s := TurnState(games, day, added, tries);
      TurnStep(teams, ti, s, oppDraw, homeDraw);
      tries := tries + 1;
      var opp := teams[oppDraw(ti, tries) % |teams|];
      if opp.id == team.id || opp.conf == team.conf {
        assert TurnState(games, day, added, tries) == Draw(teams, ti, s, oppDraw, homeDraw);
        continue;
      }
      if AlreadyMeet(games, team.id, opp.id) {
        assert TurnState(games, day, added, tries) == Draw(teams, ti, s, oppDraw, homeDraw);
        continue;
      }
      var home := if homeDraw(ti, tries) then team.id else opp.id;
      var away := if home == team.id then opp.id else team.id;
      var g := NewGame(day, home, away, false);
      ghost var next := TurnState(games + [g], if (added + 1) % 2 == 0 then day + 1 else day, added + 1, tries);
      assert Draw(teams, ti, s, oppDraw, homeDraw) == next by {
        assert !Passed(teams, ti, games, oppDraw, tries);
        assert g == TurnGame(teams, ti, day, oppDraw, homeDraw, tries);
      }
      games := games + [g];
      added := added + 1;
      if added % 2 == 0 {
        day := day + 1;
      }
      assert TurnState(games, day, added, tries) == next;
    }
    TurnFacts(teams, ti, init, oppDraw, homeDraw);
    TurnKeeps(teams, ti, from, |games0|, init, oppDraw, homeDraw);
  }

  // ---------- What the conference phase is ----------

  /** Days of a list lie in [lo, hi) and never decrease. */
  predicate DaysWithin(games: seq<Game>, lo: int, hi: int)
  {
    (forall i :: 0 <= i < |games| ==> lo <= games[i].day < hi) &&
    (forall i, j :: 0 <= i < j < |games| ==> games[i].day <= games[j].day)
  }

  lemma {:induction false} RoundGamesDays(round: seq<(Team, Team)>, day: int, mirrored: bool)
    ensures forall i :: 0 <= i < |RoundGames(round, day, mirrored)| ==> RoundGames(round, day, mirrored)[i].day == day
  {
    if round != [] {
      RoundGamesDays(round[..|round| - 1], day, mirrored);
    }
  }

  lemma {:induction false} PassGamesDays(rounds: seq<seq<(Team, Team)>>, day: int, mirrored: bool)
    ensures DaysWithin(PassGames(rounds, day, mirrored), day, day + |rounds|)
  {
    if rounds != [] {
      var n := |rounds| - 1;
      PassGamesDays(rounds[..n], day, mirrored);
      RoundGamesDays(rounds[n], day + n, mirrored);
    }
  }

  lemma {:induction false} DaysAppend(a: seq<Game>, b: seq<Game>, lo: int, mid: int, hi: int)
    requires DaysWithin(a, lo, mid) && DaysWithin(b, mid, hi) && lo <= mid <= hi
    ensures DaysWithin(a + b, lo, hi)
  {
  }

  lemma {:induction false} DaysAppend3(a: seq<Game>, b: seq<Game>, c: seq<Game>, lo: int, m1: int, m2: int, hi: int)
    requires DaysWithin(a, lo, m1) && DaysWithin(b, m1, m2) && DaysWithin(c, m2, hi) && lo <= m1 <= m2 <= hi
    ensures DaysWithin(a + b + c, lo, hi)
  {
    DaysAppend(a, b, lo, m1, m2);
    DaysAppend(a + b, c, lo, m2, hi);
  }

  /** The conference phase runs from its first day, in day order, and ends on a later or equal day. */
  lemma {:induction false} ConfPhaseDays(rs: seq<seq<seq<(Team, Team)>>>, day: int)
    ensures day <= ConfPhase(rs, day).1
    ensures DaysWithin(ConfPhase(rs, day).0, day, ConfPhase(rs, day).1)
  {
    if rs != [] {
      var R := |rs[0]|;
      var mid, end := day + R, day + 2 * R;
      var a, b := PassGames(rs[0], day, false), PassGames(rs[0], mid, true);
      var rest := ConfPhase(rs[1..], end);
      ConfPhaseDays(rs[1..], end);
      PassGamesDays(rs[0], day, false);
      PassGamesDays(rs[0], mid, true);
      assert mid + R == end;
      DaysAppend3(a, b, rest.0, day, mid, end, rest.1);
    }
  }

  /** The pairings of some rounds join two different teams of one conference. */
  predicate PairsOk(teams: seq<Team>, rounds: seq<seq<(Team, Team)>>)
  {
    forall k, a :: 0 <= k < |rounds| && 0 <= a < |rounds[k]| ==>
      rounds[k][a].0 in teams && rounds[k][a].1 in teams && rounds[k][a].0 != rounds[k][a].1 &&
      rounds[k][a].0.conf == rounds[k][a].1.conf
  }

  lemma {:induction false} RoundGamesOk(teams: seq<Team>, round: seq<(Team, Team)>, day: int, mirrored: bool)
    requires IdsAreIndices(teams)
    requires forall a :: 0 <= a < |round| ==>
               round[a].0 in teams && round[a].1 in teams && round[a].0 != round[a].1 && round[a].0.conf == round[a].1.conf
    ensures forall i :: 0 <= i < |RoundGames(round, day, mirrored)| ==> ConfGame(teams, RoundGames(round, day, mirrored)[i])
  {
    if round != [] {
      var n := |round| - 1;
      RoundGamesOk(teams, round[..n], day, mirrored);
      TeamAtId(teams, round[n].0);
      TeamAtId(teams, round[n].1);
    }
  }

  lemma {:induction false} PassGamesOk(teams: seq<Team>, rounds: seq<seq<(Team, Team)>>, day: int, mirrored: bool)
    requires IdsAreIndices(teams) && PairsOk(teams, rounds)
    ensures forall i :: 0 <= i < |PassGames(rounds, day, mirrored)| ==> ConfGame(teams, PassGames(rounds, day, mirrored)[i])
  {
    if rounds != [] {
      var n := |rounds| - 1;
      assert PairsOk(teams, rounds[..n]);
      PassGamesOk(teams, rounds[..n], day, mirrored);
      RoundGamesOk(teams, rounds[n], day + n, mirrored);
    }
  }

  /** Every pairing of conference c's rounds joins two different teams of conference c. */
  lemma {:induction false} ConfRoundsOk(teams: seq<Team>, c: nat, shuffle: nat -> seq<(nat, nat)>, coin: nat -> (nat, nat) -> bool)
    requires IdsAreIndices(teams) && c < |KeysOf(teams, ConfOf)|
    ensures PairsOk(teams, ConfRounds(teams, c, shuffle, coin))
  {
    var group: seq<Team> := GroupOf(teams, c);
    var key: string := KeysOf(teams, ConfOf)[c];
    var t: seq<Team> := ApplySwaps(group, shuffle(c));
    var all: seq<seq<(Team, Team)>> := CircleRounds(t, coin(c));
    var rounds: seq<seq<(Team, Team)>> := ConfRounds(teams, c, shuffle, coin);
    IdsDistinct(teams);
    MembersDistinct(teams, ConfOf, key);
    ShuffleKeepsDistinct(group, shuffle(c));
    CircleRoundsShape(t, coin(c));
    forall k, a | 0 <= k < |rounds| && 0 <= a < |rounds[k]|
      ensures rounds[k][a].0 in teams && rounds[k][a].1 in teams && rounds[k][a].0 != rounds[k][a].1 &&
              rounds[k][a].0.conf == rounds[k][a].1.conf
    {
      assert rounds[k] == all[k];
      var p: (Team, Team) := all[k][a];
      NoTeamTwiceInRound(t, coin(c), k);
      TeamsOfAt(all[k], a);
      assert TeamsOf(all[k])[2 * a] == p.0 && TeamsOf(all[k])[2 * a + 1] == p.1;
      assert p.0 in t && p.1 in t;
      assert p.0 in multiset(group) && p.1 in multiset(group);
      MembersAreKeyed(teams, ConfOf, key, p.0);
      MembersAreKeyed(teams, ConfOf, key, p.1);
    }
  }

  /** A group of a list without repeats has no repeats. */
  lemma {:induction false} MembersDistinct<T, K>(s: seq<T>, key: T -> K, k: K)
    requires Distinct(s)
    ensures Distinct(Members(s, key, k))
  {
    if s != [] {
      var p, x := s[..|s| - 1], s[|s| - 1];
      assert Distinct(p);
      MembersDistinct(p, key, k);
      MembersAreKeyed(p, key, k, x);
      assert x !in p;
    }
  }

  /** Every game of a conference phase over well-formed rounds is a conference game. */
  lemma {:induction false} ConfPhaseFacts(teams: seq<Team>, rs: seq<seq<seq<(Team, Team)>>>, day: int)
    requires IdsAreIndices(teams)
    requires forall c :: 0 <= c < |rs| ==> PairsOk(teams, rs[c])
    ensures forall i :: 0 <= i < |ConfPhase(rs, day).0| ==> ConfGame(teams, ConfPhase(rs, day).0[i])
  {
    if rs != [] {
      var R := |rs[0]|;
      assert forall c :: 0 <= c < |rs[1..]| ==> rs[1..][c] == rs[c + 1];
      ConfPhaseFacts(teams, rs[1..], day + 2 * R);
      PassGamesOk(teams, rs[0], day, false);
      PassGamesOk(teams, rs[0], day + R, true);
    }
  }

  /** The rounds of every conference are well formed. */
  lemma AllConfRoundsOk(teams: seq<Team>, shuffle: nat -> seq<(nat, nat)>, coin: nat -> (nat, nat) -> bool)
    requires IdsAreIndices(teams)
    ensures forall c :: 0 <= c < |AllConfRounds(teams, shuffle, coin)| ==> PairsOk(teams, AllConfRounds(teams, shuffle, coin)[c])
  {
    forall c | 0 <= c < |AllConfRounds(teams, shuffle, coin)| ensures PairsOk(teams, AllConfRounds(teams, shuffle, coin)[c]) {
      ConfRoundsOk(teams, c, shuffle, coin);
    }
  }

  // ---------- Conference games per team ----------

  /** Team `id` plays in game g. */
  predicate Involves(g: Game, id: nat)
  {
    g.homeId == id || g.awayId == id
  }

  /** The number of games of the list in which team `id` plays. */
  function GamesOf(games: seq<Game>, id: nat): (n: nat)
    ensures n <= |games|
  {
    if games == [] then 0
    else GamesOf(games[..|games| - 1], id) + (if Involves(games[|games| - 1], id) then 1 else 0)
  }

  lemma {:induction false} GamesOfAppend(a: seq<Game>, b: seq<Game>, id: nat)
    ensures GamesOf(a + b, id) == GamesOf(a, id) + GamesOf(b, id)
    decreases |b|
  {
    if b == [] {
      assert a + b == a;
    } else {
      var n := |b| - 1;
      assert (a + b)[..|a + b| - 1] == a + b[..n];
      GamesOfAppend(a, b[..n], id);
    }
  }

  /** A round of a conference with key `key`: every team of the league, of that conference, and none twice. */
  predicate RoundKeyed(teams: seq<Team>, round: seq<(Team, Team)>, key: string)
  {
    Distinct(TeamsOf(round)) &&
    forall a :: 0 <= a < |round| ==>
      round[a].0 in teams && round[a].1 in teams && round[a].0.conf == key && round[a].1.conf == key
  }

  /** Every round of a conference with key `key` is keyed. */
  predicate RoundsKeyed(teams: seq<Team>, rounds: seq<seq<(Team, Team)>>, key: string)
  {
    forall k :: 0 <= k < |rounds| ==> RoundKeyed(teams, rounds[k], key)
  }

  /** Without its last pairing, a round without repeats still has none, and neither team of that pairing is left in it. */
  lemma DistinctFront(round: seq<(Team, Team)>)
    requires round != [] && Distinct(TeamsOf(round))
    ensures var front, p := round[..|round| - 1], round[|round| - 1];
      Distinct(TeamsOf(front)) && p.0 !in TeamsOf(front) && p.1 !in TeamsOf(front)
  {
    var n := |round| - 1;
    var front, p := round[..n], round[n];
    var ts, fs := TeamsOf(round), TeamsOf(front);
    assert ts == fs + [p.0, p.1];
    assert ts[2 * n] == p.0 && ts[2 * n + 1] == p.1;
    forall a | 0 <= a < |fs| ensures fs[a] == ts[a] {
    }
  }

  /** A round's games give team `id` one game when it is in the round and none otherwise. */
  lemma {:induction false} RoundCount(teams: seq<Team>, round: seq<(Team, Team)>, day: int, mirrored: bool, id: nat)
    requires IdsAreIndices(teams) && id < |teams| && Distinct(TeamsOf(round))
    requires forall a :: 0 <= a < |round| ==> round[a].0 in teams && round[a].1 in teams
    ensures GamesOf(RoundGames(round, day, mirrored), id) == if teams[id] in TeamsOf(round) then 1 else 0
  {
    if round != [] {
      var n := |round| - 1;
      var front, p := round[..n], round[n];
      DistinctFront(round);
      RoundCount(teams, front, day, mirrored, id);
      var gs := RoundGames(round, day, mirrored);
      assert gs[..n] == RoundGames(front, day, mirrored);
      TeamAtId(teams, p.0);
      TeamAtId(teams, p.1);
      var x := teams[id];
      assert Involves(gs[n], id) <==> x == p.0 || x == p.1;
      assert TeamsOf(round) == TeamsOf(front) + [p.0, p.1];
    }
  }

  /** A team in a keyed round belongs to that conference. */
  lemma KeyedMember(teams: seq<Team>, round: seq<(Team, Team)>, key: string, x: Team)
    requires RoundKeyed(teams, round, key) && x in TeamsOf(round)
    ensures x.conf == key
  {
    var i :| 0 <= i < |TeamsOf(round)| && TeamsOf(round)[i] == x;
    TeamsOfAt(round, i / 2);
  }

  /** One pass gives team `id` at most one game per round, and none when it is not of the conference. */
  lemma {:induction false} PassCount(teams: seq<Team>, rounds: seq<seq<(Team, Team)>>, day: int, mirrored: bool, id: nat, key: string)
    requires IdsAreIndices(teams) && id < |teams| && RoundsKeyed(teams, rounds, key)
    ensures GamesOf(PassGames(rounds, day, mirrored), id) <= if teams[id].conf == key then |rounds| else 0
  {
    if rounds != [] {
      var n := |rounds| - 1;
      var front, last := rounds[..n], rounds[n];
      assert RoundsKeyed(teams, front, key) by {
        forall k | 0 <= k < |front| ensures RoundKeyed(teams, front[k], key) {
          assert front[k] == rounds[k];
        }
      }
      assert RoundKeyed(teams, last, key);
      PassCount(teams, front, day, mirrored, id, key);
      RoundCount(teams, last, day + n, mirrored, id);
      GamesOfAppend(PassGames(front, day, mirrored), RoundGames(last, day + n, mirrored), id);
      if teams[id] in TeamsOf(last) {
        KeyedMember(teams, last, key, teams[id]);
      }
    }
  }

  /** Team `id`'s games in the two passes of each conference of a phase starting on `day`, summed. */
  ghost function PhaseTally(rs: seq<seq<seq<(Team, Team)>>>, day: int, id: nat): nat
  {
    if rs == [] then 0
    else
      var R := |rs[0]|;
      GamesOf(PassGames(rs[0], day, false), id) + GamesOf(PassGames(rs[0], day + R, true), id) + PhaseTally(rs[1..], day + 2 * R, id)
  }

  /** A conference phase gives team `id` its tally of games. */
  lemma {:induction false} PhaseTallyIs(rs: seq<seq<seq<(Team, Team)>>>, day: int, id: nat)
    ensures GamesOf(ConfPhase(rs, day).0, id) == PhaseTally(rs, day, id)
  {
    if rs != [] {
      PhaseSplit(rs, day, id);
      PhaseTallyIs(rs[1..], day + 2 * |rs[0]|, id);
    }
  }

  /** Over conferences of which at most one, marked in `mine`, is team `id`'s own, the team plays at most twice the rounds of
      its own conference and nothing elsewhere. */
  lemma {:induction false} PhaseCount(rs: seq<seq<seq<(Team, Team)>>>, mine: seq<bool>, day: int, id: nat)
    requires |mine| == |rs| && forall i, j :: 0 <= i < j < |mine| && mine[i] ==> !mine[j]
    requires forall c :: 0 <= c < |rs| ==> |rs[c]| <= ConfRoundLimit
    requires forall c, d, m :: 0 <= c < |rs| ==> GamesOf(PassGames(rs[c], d, m), id) <= if mine[c] then |rs[c]| else 0
    ensures PhaseTally(rs, day, id) <= if true in mine then 2 * ConfRoundLimit else 0
  {
    if rs != [] {
      var R := |rs[0]|;
      var rest, tail := rs[1..], mine[1..];
      assert forall c :: 0 <= c < |rest| ==> rest[c] == rs[c + 1] && tail[c] == mine[c + 1];
      PhaseCount(rest, tail, day + 2 * R, id);
      var x := GamesOf(PassGames(rs[0], day, false), id);
      var y := GamesOf(PassGames(rs[0], day + R, true), id);
      var z := PhaseTally(rest, day + 2 * R, id);
      assert mine == [mine[0]] + tail;
      if mine[0] {
        assert true !in tail;
        assert z == 0 && x + y <= 2 * R;
      } else {
        assert x == 0 && y == 0;
      }
    }
  }

  /** Team `id`'s games in a conference phase are those of the first conference's two passes plus those of the rest. */
  lemma PhaseSplit(rs: seq<seq<seq<(Team, Team)>>>, day: int, id: nat)
    requires rs != []
    ensures var R := |rs[0]|;
      GamesOf(ConfPhase(rs, day).0, id) ==
        GamesOf(PassGames(rs[0], day, false), id) + GamesOf(PassGames(rs[0], day + R, true), id) +
        GamesOf(ConfPhase(rs[1..], day + 2 * R).0, id)
  {
    var R := |rs[0]|;
    var a, b := PassGames(rs[0], day, false), PassGames(rs[0], day + R, true);
    var rest := ConfPhase(rs[1..], day + 2 * R).0;
    GamesOfAppend(a, b, id);
    GamesOfAppend(a + b, rest, id);
  }

  /** The rounds conference c plays are keyed by its conference name and at most ten. */
  lemma {:induction false} ConfRoundsKeyed(teams: seq<Team>, c: nat, shuffle: nat -> seq<(nat, nat)>, coin: nat -> (nat, nat) -> bool)
    requires IdsAreIndices(teams) && c < |KeysOf(teams, ConfOf)|
    ensures var rounds := ConfRounds(teams, c, shuffle, coin);
      |rounds| <= ConfRoundLimit && RoundsKeyed(teams, rounds, KeysOf(teams, ConfOf)[c])
  {
    var group: seq<Team> := GroupOf(teams, c);
    var key: string := KeysOf(teams, ConfOf)[c];
    var t: seq<Team> := ApplySwaps(group, shuffle(c));
    var all: seq<seq<(Team, Team)>> := CircleRounds(t, coin(c));
    var rounds: seq<seq<(Team, Team)>> := ConfRounds(teams, c, shuffle, coin);
    IdsDistinct(teams);
    MembersDistinct(teams, ConfOf, key);
    ShuffleKeepsDistinct(group, shuffle(c));
    CircleRoundsShape(t, coin(c));
    forall k | 0 <= k < |rounds|
      ensures Distinct(TeamsOf(rounds[k])) &&
              forall a :: 0 <= a < |rounds[k]| ==>
                rounds[k][a].0 in teams && rounds[k][a].1 in teams && rounds[k][a].0.conf == key && rounds[k][a].1.conf == key
    {
      assert rounds[k] == all[k];
      NoTeamTwiceInRound(t, coin(c), k);
      forall a | 0 <= a < |rounds[k]|
        ensures rounds[k][a].0 in teams && rounds[k][a].1 in teams && rounds[k][a].0.conf == key && rounds[k][a].1.conf == key
      {
        var p: (Team, Team) := all[k][a];
        TeamsOfAt(all[k], a);
        assert TeamsOf(all[k])[2 * a] == p.0 && TeamsOf(all[k])[2 * a + 1] == p.1;
        assert p.0 in t && p.1 in t;
        assert p.0 in multiset(group) && p.1 in multiset(group);
        MembersAreKeyed(teams, ConfOf, key, p.0);
        MembersAreKeyed(teams, ConfOf, key, p.1);
      }
    }
  }

  /** In the conference phase every team plays at most twenty games: ten rounds at most, once per round, in each of the two passes. */
  lemma {:induction false} ConfGamesPerTeam(teams: seq<Team>, shuffle: nat -> seq<(nat, nat)>, coin: nat -> (nat, nat) -> bool, id: nat)
    requires IdsAreIndices(teams) && id < |teams|
    ensures GamesOf(ConfSchedule(teams, shuffle, coin), id) <= 2 * ConfRoundLimit
  {
    var rs := AllConfRounds(teams, shuffle, coin);
    var keys := KeysOf(teams, ConfOf);
    var mine := seq(|keys|, c requires 0 <= c < |keys| => keys[c] == teams[id].conf);
    KeysOfExact(teams, ConfOf);
    forall c, d, m | 0 <= c < |rs| ensures |rs[c]| <= ConfRoundLimit && GamesOf(PassGames(rs[c], d, m), id) <= if mine[c] then |rs[c]| else 0 {
      ConfRoundsKeyed(teams, c, shuffle, coin);
      PassCount(teams, rs[c], d, m, id, keys[c]);
    }
    PhaseCount(rs, mine, 1, id);
    PhaseTallyIs(rs, 1, id);
  }

  // ---------- The mirror pass ----------

  /** A game with home and away swapped, moved by `shift` days. */
  function Mirror(g: Game, shift: int): Game
  {
    g.(day := g.day + shift, homeId := g.awayId, awayId := g.homeId)
  }

  lemma {:induction false} RoundMirror(round: seq<(Team, Team)>, d: int, e: int)
    ensures |RoundGames(round, e, true)| == |RoundGames(round, d, false)|
    ensures forall i :: 0 <= i < |round| ==> RoundGames(round, e, true)[i] == Mirror(RoundGames(round, d, false)[i], e - d)
  {
    if round != [] {
      RoundMirror(round[..|round| - 1], d, e);
    }
  }

  /**
   * The second pass replays the first: the i-th game of the pass starting on
   * day e is the i-th game of the pass starting on day d with home and away
   * swapped, e - d days later.
   */
  lemma {:induction false} PassMirror(rounds: seq<seq<(Team, Team)>>, d: int, e: int)
    ensures |PassGames(rounds, e, true)| == |PassGames(rounds, d, false)|
    ensures forall i :: 0 <= i < |PassGames(rounds, d, false)| ==>
              PassGames(rounds, e, true)[i] == Mirror(PassGames(rounds, d, false)[i], e - d)
  {
    if rounds != [] {
      var n := |rounds| - 1;
      PassMirror(rounds[..n], d, e);
      RoundMirror(rounds[n], d + n, e + n);
    }
  }
}
