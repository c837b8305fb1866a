/**
 * The score model of `simGame` and `simNeutral`: a rounded raw score per
 * side from the average pace, the rating difference (plus a 2.5-point edge
 * for the home side of a regular-season game) and a Gaussian noise, then the
 * shared clamp and tie-break.
 *
 * The noises and the tie-break coin are inputs (`GameDraw`): the source draws
 * them from `gaussian` and `Math.random`.
 */
module Simulation {
  import opened Seqs
  import opened Teams
  import opened Games

  /** The random draws of one game: a noise per side and the tie-break coin (true adds a point). */
  datatype GameDraw = GameDraw(noiseA: real, noiseB: real, tieUp: bool)

  /** `Math.round(base + off + noise)` with `base` the average pace of the two teams. */
  function RawScore(x: Team, y: Team, edge: real, noise: real): int
  {
    JsRound((x.pace + y.pace) as real / 2.0 + (x.ratingOff - y.ratingDef) as real + edge + noise)
  }

  /** The home edge of a regular-season game. */
  const HomeEdge: real := 2.5

  /** The final (home, away) score `simGame` assigns. */
  function GameScores(home: Team, away: Team, d: GameDraw): (r: (int, int))
    ensures r.0 != r.1 && r.1 >= 40 && r.0 >= 39
    ensures r.1 == Max(40, RawScore(away, home, 0.0, d.noiseB))
    ensures var h := Max(40, RawScore(home, away, HomeEdge, d.noiseA));
      r.0 == if h == r.1 then h + (if d.tieUp then 1 else -1) else h
  {
    ClampScores(RawScore(home, away, HomeEdge, d.noiseA), RawScore(away, home, 0.0, d.noiseB), d.tieUp)
  }

  /** What `simNeutral` returns: both scores and the winner. */
  datatype NeutralResult = NeutralResult(a: int, b: int, winner: Team)

  /** `simNeutral(a, b)`: a game without home edge; the winner is the side with the strictly higher score. */
  function SimNeutral(a: Team, b: Team, d: GameDraw): (r: NeutralResult)
    ensures r.a != r.b && r.b >= 40 && r.a >= 39
    ensures r.winner == (if r.a > r.b then a else b)
    ensures r.winner == a || r.winner == b
    ensures r.b == Max(40, RawScore(b, a, 0.0, d.noiseB))
    ensures var x := Max(40, RawScore(a, b, 0.0, d.noiseA));
      r.a == if x == r.b then x + (if d.tieUp then 1 else -1) else x
    ensures r.a > r.b <==>
              Max(40, RawScore(a, b, 0.0, d.noiseA)) > Max(40, RawScore(b, a, 0.0, d.noiseB)) ||
              (Max(40, RawScore(a, b, 0.0, d.noiseA)) == Max(40, RawScore(b, a, 0.0, d.noiseB)) && d.tieUp)
  {
    var s := ClampScores(RawScore(a, b, 0.0, d.noiseA), RawScore(b, a, 0.0, d.noiseB), d.tieUp);
    NeutralResult(s.0, s.1, if s.0 > s.1 then a else b)
  }
}
