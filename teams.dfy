/**
 * Teams and the numbers the engine computes from them: JavaScript's
 * `Math.round`, the `Math.max(lo, Math.min(hi, x))` clamp and the composite
 * score `(w-l)*3 + (cw-cl)*2 + (off+def)/2` used for at-large selection and
 * seeding.
 */
module Teams {
  import opened Seqs

  /**
   * A team record.  `id` is the team's index in the league's team list (the
   * source draws a random string; ids only ever serve as unique keys).
   */
  datatype Team = Team(id: nat, name: string, conf: string,
                       ratingOff: int, ratingDef: int, pace: int,
                       wins: nat, losses: nat, confWins: nat, confLosses: nat)

  /** `Math.round`: the nearest integer, halves rounded up. */
  function JsRound(x: real): (r: int)
    ensures x - 0.5 < r as real <= x + 0.5
  {
    (x + 0.5).Floor
  }

  /** `Math.max(lo, Math.min(hi, x))`. */
  function Clamp(lo: int, hi: int, x: int): (r: int)
    requires lo <= hi
    ensures lo <= r <= hi
    ensures lo <= x <= hi ==> r == x
    ensures x < lo ==> r == lo
    ensures hi < x ==> r == hi
  {
    Max(lo, Min(hi, x))
  }

  /** The composite score exactly as the source writes it, halves included. */
  ghost function Composite(t: Team): real
  {
    ((t.wins - t.losses) * 3 + (t.confWins - t.confLosses) * 2) as real + (t.ratingOff + t.ratingDef) as real / 2.0
  }

  /** Twice the composite score, which is always an integer. */
  function Composite2(t: Team): int
  {
    6 * (t.wins - t.losses) + 4 * (t.confWins - t.confLosses) + t.ratingOff + t.ratingDef
  }

  /** The integer is exactly twice the source's score. */
  lemma {:induction false} Composite2Doubles(t: Team)
    ensures Composite2(t) as real == 2.0 * Composite(t)
  {
    var half := (t.ratingOff + t.ratingDef) as real / 2.0;
    assert 2.0 * half == (t.ratingOff + t.ratingDef) as real;
  }

  /** Comparing doubled scores orders teams exactly as comparing the source's scores does. */
  lemma {:induction false} Composite2Order(a: Team, b: Team)
    ensures Composite2(a) <= Composite2(b) <==> Composite(a) <= Composite(b)
    ensures Composite2(a) == Composite2(b) <==> Composite(a) == Composite(b)
  {
    Composite2Doubles(a);
    Composite2Doubles(b);
  }

  /** The team at index i of `teams` carries id i: ids are the keys the games refer to. */
  predicate IdsAreIndices(teams: seq<Team>)
  {
    forall i :: 0 <= i < |teams| ==> teams[i].id == i
  }

  /** Distinct ids make distinct teams. */
  lemma {:induction false} IdsDistinct(teams: seq<Team>)
    requires IdsAreIndices(teams)
    ensures Distinct(teams)
  {
    forall a, b | 0 <= a < b < |teams| ensures teams[a] != teams[b] {
      assert teams[a].id == a && teams[b].id == b;
    }
  }

  /** A team of the list is the one its id indexes. */
  lemma {:induction false} TeamAtId(teams: seq<Team>, t: Team)
    requires IdsAreIndices(teams) && t in teams
    ensures t.id < |teams| && teams[t.id] == t
  {
    var i :| 0 <= i < |teams| && teams[i] == t;
  }
}
