/**
 * Games (`newGame`), the score clamp shared by `simGame` and `simNeutral`,
 * and the standings a list of games implies: how many wins, losses,
 * conference wins and conference losses each team has been credited with.
 */
module Games {
  import opened Wrappers
  import opened Seqs

  /** A scheduled game; the scores are null (None) until it is played. */
  datatype Game = Game(day: int, homeId: nat, awayId: nat, confGame: bool,
                       homeScore: Option<int>, awayScore: Option<int>, played: bool)

  /** A game as `newGame` creates it. */
  predicate Unplayed(g: Game)
  {
    !g.played && g.homeScore == None && g.awayScore == None
  }

  /** A game as `simGame` leaves it: both scores set, different, the away score at least 40 and the home score at least 39. */
  predicate Decided(g: Game)
  {
    g.played && g.homeScore.Some? && g.awayScore.Some? &&
    g.homeScore.value != g.awayScore.value && g.awayScore.value >= 40 && g.homeScore.value >= 39
  }

  /** Every game is either untouched or decided. */
  predicate WellFormed(g: Game)
  {
    Unplayed(g) || Decided(g)
  }

  /** `newGame`: a fresh, unplayed game between the two ids on the given day. */
  function NewGame(day: int, homeId: nat, awayId: nat, confGame: bool): (g: Game)
    ensures Unplayed(g) && WellFormed(g)
    ensures g.day == day && g.homeId == homeId && g.awayId == awayId && g.confGame == confGame
  {
    Game(day, homeId, awayId, confGame, None, None, false)
  }

  /**
   * The clamp and tie-break applied to two rounded raw scores x (home, or
   * slot a) and y: both are raised to at least 40, then on a tie x moves one
   * point up or down as the coin `up` says.
   */
  function ClampScores(x: int, y: int, up: bool): (r: (int, int))
    ensures r.0 != r.1
    ensures r.1 == Max(40, y) && r.1 >= 40 && r.0 >= 39
    ensures Max(40, x) != Max(40, y) ==> r.0 == Max(40, x)
    ensures Max(40, x) == Max(40, y) ==> r.0 == Max(40, x) + (if up then 1 else -1)
    ensures r.0 > r.1 <==> Max(40, x) > Max(40, y) || (Max(40, x) == Max(40, y) && up)
  {
    var a, b := Max(40, x), Max(40, y);
    if a == b then (a + (if up then 1 else -1), b) else (a, b)
  }

  /** The game once played with final scores h (home) and a (away). */
  function WithScores(g: Game, h: int, a: int): (g': Game)
    ensures g'.played && g'.homeScore == Some(h) && g'.awayScore == Some(a)
    ensures g'.day == g.day && g'.homeId == g.homeId && g'.awayId == g.awayId && g'.confGame == g.confGame
  {
    g.(homeScore := Some(h), awayScore := Some(a), played := true)
  }

  /** The id of the team with the higher score (the away team when the home score is not higher). */
  function WinnerId(g: Game): nat
    requires g.homeScore.Some? && g.awayScore.Some?
  {
    if g.homeScore.value > g.awayScore.value then g.homeId else g.awayId
  }

  /** The id of the other team. */
  function LoserId(g: Game): nat
    requires g.homeScore.Some? && g.awayScore.Some?
  {
    if g.homeScore.value > g.awayScore.value then g.awayId else g.homeId
  }

  // ---------- Standings implied by the games ----------

  datatype Stat = Wins | Losses | ConfWins | ConfLosses

  /** What one game credits to team `id` under one column of the standings. */
  function Credit(g: Game, id: nat, s: Stat): (c: nat)
    ensures c <= 1
    ensures c == 1 ==> g.played
  {
    if !(g.played && g.homeScore.Some? && g.awayScore.Some?) then 0
    else
      match s
      case Wins => if WinnerId(g) == id then 1 else 0
      case Losses => if LoserId(g) == id then 1 else 0
      case ConfWins => if g.confGame && WinnerId(g) == id then 1 else 0
      case ConfLosses => if g.confGame && LoserId(g) == id then 1 else 0
  }

  /** The total credited to team `id` under column s by all of `games`. */
  function Tally(games: seq<Game>, id: nat, s: Stat): (n: nat)
    ensures n <= |games|
  {
    if games == [] then 0 else Tally(games[..|games| - 1], id, s) + Credit(games[|games| - 1], id, s)
  }

  /** Replacing one game changes every tally by exactly the difference of that game's credits. */
  lemma {:induction false} TallyUpdate(games: seq<Game>, i: nat, g: Game, id: nat, s: Stat)
    requires i < |games|
    ensures Tally(games[i := g], id, s) == Tally(games, id, s) - Credit(games[i], id, s) + Credit(g, id, s)
  {
    var n := |games| - 1;
    if i < n {
      assert games[i := g][..n] == games[..n][i := g];
      TallyUpdate(games[..n], i, g, id, s);
    } else {
      assert games[i := g][..n] == games[..n];
    }
  }

  /** Unplayed games credit nobody. */
  lemma {:induction false} TallyUnplayed(games: seq<Game>, id: nat, s: Stat)
    requires forall i :: 0 <= i < |games| ==> !games[i].played
    ensures Tally(games, id, s) == 0
  {
    if games != [] {
      TallyUnplayed(games[..|games| - 1], id, s);
    }
  }

  // ---------- Conservation: every decided game is one win and one loss ----------

  /** Both teams of every game are among the first n ids. */
  predicate IdsBelow(games: seq<Game>, n: nat)
  {
    forall i :: 0 <= i < |games| ==> games[i].homeId < n && games[i].awayId < n
  }

  /** Number of games played with both scores set (of conference games only, when `confOnly`). */
  function PlayedCount(games: seq<Game>, confOnly: bool): nat
  {
    if games == [] then 0
    else
      var g := games[|games| - 1];
      PlayedCount(games[..|games| - 1], confOnly) +
        (if g.played && g.homeScore.Some? && g.awayScore.Some? && (g.confGame || !confOnly) then 1 else 0)
  }

  /** Sum of column s over the teams 0 .. n-1. */
  function ColumnTotal(games: seq<Game>, n: nat, s: Stat): int
  {
    if n == 0 then 0 else ColumnTotal(games, n - 1, s) + Tally(games, n - 1, s)
  }

  /** Sum of one game's credits in column s over the teams 0 .. n-1. */
  function CreditTotal(g: Game, n: nat, s: Stat): int
  {
    if n == 0 then 0 else CreditTotal(g, n - 1, s) + Credit(g, n - 1, s)
  }

  /** One game credits exactly one team per column (when the game counts for that column). */
  lemma {:induction false} CreditTotalOne(g: Game, n: nat, s: Stat)
    requires g.homeId < n && g.awayId < n
    ensures CreditTotal(g, n, s) ==
              if g.played && g.homeScore.Some? && g.awayScore.Some? && (g.confGame || s == Wins || s == Losses)
              then 1 else 0
  {
    var scored := g.played && g.homeScore.Some? && g.awayScore.Some?;
    if scored {
      var target := if s == Wins || s == ConfWins then WinnerId(g) else LoserId(g);
      CreditTotalSingle(g, n, s, target);
    } else {
      CreditTotalZero(g, n, s);
    }
  }

  lemma {:induction false} CreditTotalSingle(g: Game, n: nat, s: Stat, target: nat)
    requires g.played && g.homeScore.Some? && g.awayScore.Some?
    requires target == if s == Wins || s == ConfWins then WinnerId(g) else LoserId(g)
    ensures CreditTotal(g, n, s) ==
              if target < n && (g.confGame || s == Wins || s == Losses) then 1 else 0
  {
    if n > 0 {
      CreditTotalSingle(g, n - 1, s, target);
    }
  }

  lemma {:induction false} CreditTotalZero(g: Game, n: nat, s: Stat)
    requires !(g.played && g.homeScore.Some? && g.awayScore.Some?)
    ensures CreditTotal(g, n, s) == 0
  {
    if n > 0 {
      CreditTotalZero(g, n - 1, s);
    }
  }

  /** Adding a game adds its credits to the column total. */
  lemma {:induction false} ColumnTotalAppend(games: seq<Game>, g: Game, n: nat, s: Stat)
    ensures ColumnTotal(games + [g], n, s) == ColumnTotal(games, n, s) + CreditTotal(g, n, s)
  {
    if n > 0 {
      ColumnTotalAppend(games, g, n - 1, s);
      assert (games + [g])[..|games|] == games;
    }
  }

  /**
   * Conservation: over a league of n teams, total wins and total losses both
   * equal the number of played games, and total conference wins and losses
   * both equal the number of played conference games.
   */
  lemma {:induction false} WinsEqualLosses(games: seq<Game>, n: nat)
    requires IdsBelow(games, n)
    ensures ColumnTotal(games, n, Wins) == PlayedCount(games, false) == ColumnTotal(games, n, Losses)
    ensures ColumnTotal(games, n, ConfWins) == PlayedCount(games, true) == ColumnTotal(games, n, ConfLosses)
  {
    if games == [] {
      ColumnTotalEmpty(n);
    } else {
      var p, g := games[..|games| - 1], games[|games| - 1];
      assert games == p + [g];
      WinsEqualLosses(p, n);
      ColumnTotalAppend(p, g, n, Wins);
      ColumnTotalAppend(p, g, n, Losses);
      ColumnTotalAppend(p, g, n, ConfWins);
      ColumnTotalAppend(p, g, n, ConfLosses);
      CreditTotalOne(g, n, Wins);
      CreditTotalOne(g, n, Losses);
      CreditTotalOne(g, n, ConfWins);
      CreditTotalOne(g, n, ConfLosses);
    }
  }

  lemma {:induction false} ColumnTotalEmpty(n: nat)
    ensures forall s :: ColumnTotal([], n, s) == 0
  {
    if n > 0 {
      ColumnTotalEmpty(n - 1);
    }
  }
}
