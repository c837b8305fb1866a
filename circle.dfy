/**
 * The circle ("rotation") method of `roundRobin`: the first entry of the
 * padded list stays put, the other n-1 entries turn one step round a ring per
 * round, and in each round the j-th entry of `left` meets the j-th entry of
 * `right`.  Pairings that touch the bye slot are dropped; the home side of a
 * kept pairing is chosen by a coin.
 *
 * The coin flips are an input: `coin(k, j)` is the draw made for slot j of
 * round k (true keeps `left[j]` at home).
 */
module Circle {
  import opened Wrappers
  import opened Seqs

  /** The list the method rotates: every team, then one bye (None) when the count is odd. */
  function Padded<T>(teams: seq<T>): (list: seq<Option<T>>)
    ensures |list| % 2 == 0 && |teams| <= |list| <= |teams| + 1
    ensures forall i :: 0 <= i < |teams| ==> list[i] == Some(teams[i])
    ensures |teams| < |list| ==> list[|teams|] == None
  {
    var somes := seq(|teams|, i requires 0 <= i < |teams| => Some(teams[i]));
    if |teams| % 2 == 1 then somes + [None] else somes
  }

  // ---------- Ring arithmetic ----------
  // With n = 2h entries, entries 1..n-1 sit on a ring of m = n-1 positions.
  // Before round 0, ring position p holds entry p+1; every round moves each
  // entry one position on, so in round k position p holds entry 1 + (p-k mod m).
  // left[0] is entry 0; left[j] (j >= 1) is ring position j-1; right[j] is
  // ring position m-1-j.

  /** Entry of the padded list standing at ring position p in round k. */
  function RingAt(m: nat, k: nat, p: nat): (i: nat)
    requires k <= m && p < m
    ensures 1 <= i <= m
  {
    1 + (if p >= k then p - k else p + m - k)
  }

  /** Index (into the padded list) of `left[j]` in round k. */
  function LeftIdx(h: nat, k: nat, j: nat): (i: nat)
    requires 1 <= h && k <= 2 * h - 1 && j < h
    ensures i < 2 * h
  {
    if j == 0 then 0 else RingAt(2 * h - 1, k, j - 1)
  }

  /** Index (into the padded list) of `right[j]` in round k. */
  function RightIdx(h: nat, k: nat, j: nat): (i: nat)
    requires 1 <= h && k <= 2 * h - 1 && j < h
    ensures 1 <= i < 2 * h
  {
    RingAt(2 * h - 1, k, 2 * h - 2 - j)
  }

  /** The pairing pushed for a kept slot: `[t1, t2]` when the coin says so, else `[t2, t1]`. */
  function Orient<T>(t1: T, t2: T, homeFirst: bool): (T, T)
  {
    if homeFirst then (t1, t2) else (t2, t1)
  }

  /** Slot j of round k holds both of u and v (in either order). */
  predicate SlotHolds(h: nat, k: nat, j: nat, u: nat, v: nat)
    requires 1 <= h && k <= 2 * h - 1 && j < h
  {
    (LeftIdx(h, k, j) == u && RightIdx(h, k, j) == v) ||
    (LeftIdx(h, k, j) == v && RightIdx(h, k, j) == u)
  }

  /** The pairings of round k made from the first J slots, in slot order; a slot holding the bye adds nothing. */
  function Round<T>(list: seq<Option<T>>, k: nat, coin: (nat, nat) -> bool, J: nat): seq<(T, T)>
    requires 2 <= |list| && |list| % 2 == 0 && k < |list| && J <= |list| / 2
  {
    if J == 0 then []
    else
      var h := |list| / 2;
      var t1, t2 := list[LeftIdx(h, k, J - 1)], list[RightIdx(h, k, J - 1)];
      if t1.Some? && t2.Some? then Round(list, k, coin, J - 1) + [Orient(t1.value, t2.value, coin(k, J - 1))]
      else Round(list, k, coin, J - 1)
  }

  /** Rounds 0 .. K-1 over the padded list. */
  function RoundsUpTo<T>(list: seq<Option<T>>, coin: (nat, nat) -> bool, K: nat): (rounds: seq<seq<(T, T)>>)
    requires 2 <= |list| && |list| % 2 == 0 && K < |list|
    ensures |rounds| == K
  {
    if K == 0 then [] else RoundsUpTo(list, coin, K - 1) + [Round(list, K - 1, coin, |list| / 2)]
  }

  /** Every round of the circle method over `teams`: n-1 of them for a padded list of n entries. */
  function CircleRounds<T>(teams: seq<T>, coin: (nat, nat) -> bool): (rounds: seq<seq<(T, T)>>)
  {
    var list := Padded(teams);
    if |list| == 0 then [] else RoundsUpTo(list, coin, |list| - 1)
  }

  lemma {:induction false} RoundsUpToAt<T>(list: seq<Option<T>>, coin: (nat, nat) -> bool, K: nat, k: nat)
    requires 2 <= |list| && |list| % 2 == 0 && k < K < |list|
    ensures RoundsUpTo(list, coin, K)[k] == Round(list, k, coin, |list| / 2)
  {
    if k < K - 1 {
      RoundsUpToAt(list, coin, K - 1, k);
    }
  }

  /** The teams of a round, pairing by pairing: pairing a gives positions 2a and 2a+1. */
  function TeamsOf<T>(r: seq<(T, T)>): (s: seq<T>)
    ensures |s| == 2 * |r|
  {
    if r == [] then [] else TeamsOf(r[..|r| - 1]) + [r[|r| - 1].0, r[|r| - 1].1]
  }

  /** `p` is a meeting of x and y, whoever is at home. */
  predicate Meets<T(==)>(p: (T, T), x: T, y: T)
  {
    (p.0 == x && p.1 == y) || (p.0 == y && p.1 == x)
  }

  // ---------- The source's loop ----------

  /** `left` and `right` as they stand at the start of round k. */
  ghost predicate Layout<T>(list: seq<Option<T>>, k: nat, left: seq<Option<T>>, right: seq<Option<T>>)
    requires 2 <= |list| && |list| % 2 == 0 && k < |list|
  {
    var h := |list| / 2;
    |left| == h && |right| == h &&
    forall j :: 0 <= j < h ==> left[j] == list[LeftIdx(h, k, j)] && right[j] == list[RightIdx(h, k, j)]
  }

  /** How the slot indices of round k+1 relate to those of round k. */
  lemma {:induction false} ShiftIndices(h: nat, k: nat, j: nat)
    requires 1 <= h && k < 2 * h - 1 && j < h
    ensures j == 0 ==> LeftIdx(h, k + 1, j) == LeftIdx(h, k, 0)
    ensures j == 1 ==> LeftIdx(h, k + 1, j) == RightIdx(h, k, 0)
    ensures j >= 2 ==> LeftIdx(h, k + 1, j) == LeftIdx(h, k, j - 1)
    ensures j < h - 1 ==> RightIdx(h, k + 1, j) == RightIdx(h, k, j + 1)
    ensures j == h - 1 && h >= 2 ==> RightIdx(h, k + 1, j) == LeftIdx(h, k, h - 1)
    ensures h == 1 ==> RightIdx(h, k + 1, j) == RightIdx(h, k, 0)
  {
  }

  /** One rotation step (`left = [keep, right[0], ...left.slice(1)]; right = [...right.slice(1), left.pop()]`) moves the layout on a round. */
  lemma {:induction false} RotationAdvances<T>(list: seq<Option<T>>, k: nat, left: seq<Option<T>>, right: seq<Option<T>>,
                                               left': seq<Option<T>>, right': seq<Option<T>>)
    requires 2 <= |list| && |list| % 2 == 0 && k < |list| - 1
    requires Layout(list, k, left, right)
    requires var built := [left[0], right[0]] + left[1..];
      left' == built[..|built| - 1] && right' == right[1..] + [built[|built| - 1]]
    ensures Layout(list, k + 1, left', right')
  {
    var h := |list| / 2;
    var built := [left[0], right[0]] + left[1..];
    assert |built| == h + 1;
    forall j | 0 <= j < h
      ensures left'[j] == list[LeftIdx(h, k + 1, j)]
    {
      ShiftIndices(h, k, j);
      if j >= 2 {
        assert left'[j] == left[j - 1];
      } else if j == 1 {
        assert left'[j] == right[0];
      }
    }
    forall j | 0 <= j < h
      ensures right'[j] == list[RightIdx(h, k + 1, j)]
    {
      ShiftIndices(h, k, j);
      if j < h - 1 {
        assert right'[j] == right[j + 1];
      } else if h >= 2 {
        assert right'[j] == built[h] == left[h - 1];
      } else {
        assert right'[j] == built[1] == right[0];
      }
    }
  }

  /**
   * `roundRobin`: rotate `left` and `right` n-1 times, collecting the
   * pairings of each round that do not involve the bye.
   */
  method RoundRobin<T>(teams: seq<T>, coin: (nat, nat) -> bool) returns (rounds: seq<seq<(T, T)>>)
    ensures |rounds| == if teams == [] then 0 else |Padded(teams)| - 1
    ensures rounds == CircleRounds(teams, coin)
  {
    var list := PadList(teams);
    var n := |list|;
    rounds := [];
    if n == 0 {
      return;
    }
    var half := n / 2;
    var left := list[..half];
    var right := seq(half, j requires 0 <= j < half => list[n - 1 - j]);
    InitialLayout(list, left, right);
    var i := 0;
    while i < n - 1
      invariant i <= n - 1
      invariant Layout(list, i, left, right)
      invariant rounds == RoundsUpTo(list, coin, i)
    {
      var pairings := PairRound(list, i, left, right, coin);
      RoundsUpToStep(list, coin, i);
      rounds := rounds + [pairings];
      left, right := Rotate(list, i, left, right);
      i := i + 1;
    }
  }

  /** `teams.map(...)`, then the bye when the count is odd. */
  method PadList<T>(teams: seq<T>) returns (list: seq<Option<T>>)
    ensures list == Padded(teams)
  {
    list := seq(|teams|, i requires 0 <= i < |teams| => Some(teams[i]));
    if |list| % 2 == 1 {
      list := list + [None];
    }
  }

  /** One more round appended. */
  lemma {:induction false} RoundsUpToStep<T>(list: seq<Option<T>>, coin: (nat, nat) -> bool, K: nat)
    requires 2 <= |list| && |list| % 2 == 0 && K + 1 < |list|
    ensures RoundsUpTo(list, coin, K + 1) == RoundsUpTo(list, coin, K) + [Round(list, K, coin, |list| / 2)]
  {
  }

  /** The rotation between rounds: `left = [keep, right[0], ...left.slice(1)]`, then `right = [...right.slice(1), left.pop()]`. */
  method Rotate<T>(ghost list: seq<Option<T>>, i: nat, left: seq<Option<T>>, right: seq<Option<T>>)
    returns (left': seq<Option<T>>, right': seq<Option<T>>)
    requires 2 <= |list| && |list| % 2 == 0 && i < |list| - 1
    requires Layout(list, i, left, right)
    ensures Layout(list, i + 1, left', right')
  {
    var keep := left[0];
    var built := [keep, right[0]] + left[1..];
    var popped := built[|built| - 1];
    left' := built[..|built| - 1];
    right' := right[1..] + [popped];
    RotationAdvances(list, i, left, right, left', right');
  }

  /** The teams of a concatenation of pairings. */
  lemma {:induction false} TeamsOfConcat<T>(a: seq<(T, T)>, b: seq<(T, T)>)
    ensures TeamsOf(a + b) == TeamsOf(a) + TeamsOf(b)
  {
    var l, r := TeamsOf(a + b), TeamsOf(a) + TeamsOf(b);
    forall i | 0 <= i < |l| ensures l[i] == r[i] {
      var q := i / 2;
      TeamsOfAt(a + b, q);
      if q < |a| {
        TeamsOfAt(a, q);
      } else {
        TeamsOfAt(b, q - |a|);
      }
    }
  }

  /** The inner loop of `roundRobin`: pair `left[j]` with `right[j]`, skipping the bye. */
  method PairRound<T>(ghost list: seq<Option<T>>, i: nat, left: seq<Option<T>>, right: seq<Option<T>>, coin: (nat, nat) -> bool)
    returns (pairings: seq<(T, T)>)
    requires 2 <= |list| && |list| % 2 == 0 && i < |list| - 1
    requires Layout(list, i, left, right)
    ensures pairings == Round(list, i, coin, |list| / 2)
  {
    var half := |left|;
    pairings := [];
    var j := 0;
    while j < half
      invariant 0 <= j <= half
      invariant pairings == Round(list, i, coin, j)
    {
      var t1, t2 := left[j], right[j];
      assert t1 == list[LeftIdx(half, i, j)] && t2 == list[RightIdx(half, i, j)];
      if t1.Some? && t2.Some? {
        if coin(i, j) {
          pairings := pairings + [(t1.value, t2.value)];
        } else {
          pairings := pairings + [(t2.value, t1.value)];
        }
      }
      j := j + 1;
    }
  }

  /** `left = list.slice(0, half)` and `right = list.slice(half).reverse()` is the layout of round 0. */
  lemma {:induction false} InitialLayout<T>(list: seq<Option<T>>, left: seq<Option<T>>, right: seq<Option<T>>)
    requires 2 <= |list| && |list| % 2 == 0
    requires left == list[..|list| / 2]
    requires right == seq(|list| / 2, j requires 0 <= j < |list| / 2 => list[|list| - 1 - j])
    ensures Layout(list, 0, left, right)
  {
  }

  // ---------- Facts about one round ----------

  /** The 2h list indices of a round's slots are pairwise distinct. */
  lemma {:induction false} SlotIndicesDistinct(h: nat, k: nat, j1: nat, j2: nat)
    requires 1 <= h && k < 2 * h - 1 && j1 < h && j2 < h
    ensures LeftIdx(h, k, j1) != RightIdx(h, k, j2)
    ensures j1 != j2 ==> LeftIdx(h, k, j1) != LeftIdx(h, k, j2) && RightIdx(h, k, j1) != RightIdx(h, k, j2)
  {
  }

  /** Every team of a round comes from the list (so no pairing holds the bye). */
  lemma {:induction false} RoundTeamsFromList<T>(list: seq<Option<T>>, k: nat, coin: (nat, nat) -> bool, J: nat)
    requires 2 <= |list| && |list| % 2 == 0 && k < |list| && J <= |list| / 2
    ensures forall x :: x in TeamsOf(Round(list, k, coin, J)) ==> Some(x) in list
  {
    forall x | x in TeamsOf(Round(list, k, coin, J)) ensures Some(x) in list {
      var j := SlotOfTeam(list, k, coin, J, x);
    }
  }

  /** A team playing in the first J slots of round k stands in one of them. */
  lemma {:induction false} SlotOfTeam<T>(list: seq<Option<T>>, k: nat, coin: (nat, nat) -> bool, J: nat, x: T)
    returns (j: nat)
    requires 2 <= |list| && |list| % 2 == 0 && k < |list| && J <= |list| / 2
    requires x in TeamsOf(Round(list, k, coin, J))
    ensures j < J && (list[LeftIdx(|list| / 2, k, j)] == Some(x) || list[RightIdx(|list| / 2, k, j)] == Some(x))
  {
    var r := Round(list, k, coin, J);
    var i :| 0 <= i < |TeamsOf(r)| && TeamsOf(r)[i] == x;
    TeamsOfAt(r, i / 2);
    j := PairFromSlot(list, k, coin, J, i / 2);
  }

  /** A team found at none of the first J slots takes no part in those pairings. */
  lemma {:induction false} NotInRound<T>(list: seq<Option<T>>, k: nat, coin: (nat, nat) -> bool, J: nat, x: T)
    requires 2 <= |list| && |list| % 2 == 0 && k < |list| && J <= |list| / 2
    requires forall j :: 0 <= j < J ==>
               list[LeftIdx(|list| / 2, k, j)] != Some(x) && list[RightIdx(|list| / 2, k, j)] != Some(x)
    ensures x !in TeamsOf(Round(list, k, coin, J))
  {
    if x in TeamsOf(Round(list, k, coin, J)) {
      var j := SlotOfTeam(list, k, coin, J, x);
    }
  }

  /** Over a list without repeats, the two teams of slot J appear in none of the earlier slots' pairings. */
  lemma {:induction false} SlotTeamsFresh<T>(list: seq<Option<T>>, k: nat, coin: (nat, nat) -> bool, J: nat)
    requires 2 <= |list| && |list| % 2 == 0 && k < |list| - 1 && J < |list| / 2
    requires Distinct(list)
    requires list[LeftIdx(|list| / 2, k, J)].Some? && list[RightIdx(|list| / 2, k, J)].Some?
    ensures var t1, t2 := list[LeftIdx(|list| / 2, k, J)].value, list[RightIdx(|list| / 2, k, J)].value;
      t1 != t2 && t1 !in TeamsOf(Round(list, k, coin, J)) && t2 !in TeamsOf(Round(list, k, coin, J))
  {
    var h := |list| / 2;
    var l, rt := LeftIdx(h, k, J), RightIdx(h, k, J);
    var t1, t2 := list[l].value, list[rt].value;
    forall j | 0 <= j < J
      ensures list[LeftIdx(h, k, j)] != Some(t1) && list[RightIdx(h, k, j)] != Some(t1)
      ensures list[LeftIdx(h, k, j)] != Some(t2) && list[RightIdx(h, k, j)] != Some(t2)
    {
      SlotIndicesDistinct(h, k, j, J);
      SlotIndicesDistinct(h, k, J, j);
    }
    NotInRound(list, k, coin, J, t1);
    NotInRound(list, k, coin, J, t2);
    SlotIndicesDistinct(h, k, J, J);
    assert list[l] != list[rt];
  }

  /** Over a list without repeats, no team appears twice in a round. */
  lemma {:induction false} RoundDistinct<T>(list: seq<Option<T>>, k: nat, coin: (nat, nat) -> bool, J: nat)
    requires 2 <= |list| && |list| % 2 == 0 && k < |list| - 1 && J <= |list| / 2
    requires Distinct(list)
    ensures Distinct(TeamsOf(Round(list, k, coin, J)))
  {
    if J == 0 {
      NoSlotsDistinct(list, k, coin);
    } else {
      RoundDistinct(list, k, coin, J - 1);
      ExtendDistinct(list, k, coin, J - 1);
    }
  }

  /** Before any slot, a round has no teams to repeat. */
  lemma {:induction false} NoSlotsDistinct<T>(list: seq<Option<T>>, k: nat, coin: (nat, nat) -> bool)
    requires 2 <= |list| && |list| % 2 == 0 && k < |list|
    ensures Round(list, k, coin, 0) == [] && Distinct(TeamsOf(Round(list, k, coin, 0)))
  {
  }

  /** One more slot keeps a round free of repeats. */
  lemma {:induction false} ExtendDistinct<T>(list: seq<Option<T>>, k: nat, coin: (nat, nat) -> bool, J: nat)
    requires 2 <= |list| && |list| % 2 == 0 && k < |list| - 1 && J < |list| / 2
    requires Distinct(list) && Distinct(TeamsOf(Round(list, k, coin, J)))
    ensures Distinct(TeamsOf(Round(list, k, coin, J + 1)))
  {
    var h := |list| / 2;
    if list[LeftIdx(h, k, J)].Some? && list[RightIdx(h, k, J)].Some? {
      var t1, t2 := list[LeftIdx(h, k, J)].value, list[RightIdx(h, k, J)].value;
      SlotTeamsFresh(list, k, coin, J);
      AppendPairDistinct(Round(list, k, coin, J), t1, t2, coin(k, J));
    }
  }

  /** The teams of a round with one more pairing. */
  lemma {:induction false} TeamsOfAppend<T>(r: seq<(T, T)>, p: (T, T))
    ensures TeamsOf(r + [p]) == TeamsOf(r) + [p.0, p.1]
  {
    AppendHalves(r, [p]);
  }

  /** Appending a pairing of two new, different teams keeps a round free of repeats. */
  lemma {:induction false} AppendPairDistinct<T>(r: seq<(T, T)>, a: T, b: T, homeFirst: bool)
    requires Distinct(TeamsOf(r)) && a != b && a !in TeamsOf(r) && b !in TeamsOf(r)
    ensures Distinct(TeamsOf(r + [Orient(a, b, homeFirst)]))
  {
    var p := Orient(a, b, homeFirst);
    TeamsOfAppend(r, p);
    DistinctAppendTwo(TeamsOf(r), p.0, p.1);
  }

  /** A pairing of a round comes from one of its slots. */
  lemma {:induction false} PairFromSlot<T>(list: seq<Option<T>>, k: nat, coin: (nat, nat) -> bool, J: nat, a: nat)
    returns (j: nat)
    requires 2 <= |list| && |list| % 2 == 0 && k < |list| && J <= |list| / 2
    requires a < |Round(list, k, coin, J)|
    ensures j < J
    ensures var p := Round(list, k, coin, J)[a];
      (list[LeftIdx(|list| / 2, k, j)] == Some(p.0) && list[RightIdx(|list| / 2, k, j)] == Some(p.1)) ||
      (list[LeftIdx(|list| / 2, k, j)] == Some(p.1) && list[RightIdx(|list| / 2, k, j)] == Some(p.0))
  {
    var prev := Round(list, k, coin, J - 1);
    if a < |prev| {
      j := PairFromSlot(list, k, coin, J - 1, a);
    } else {
      j := J - 1;
    }
  }

  /** A slot holding two real teams yields a pairing of the round. */
  lemma {:induction false} SlotInRound<T>(list: seq<Option<T>>, k: nat, coin: (nat, nat) -> bool, J: nat, j: nat)
    requires 2 <= |list| && |list| % 2 == 0 && k < |list| && j < J <= |list| / 2
    requires list[LeftIdx(|list| / 2, k, j)].Some? && list[RightIdx(|list| / 2, k, j)].Some?
    ensures Orient(list[LeftIdx(|list| / 2, k, j)].value, list[RightIdx(|list| / 2, k, j)].value, coin(k, j))
            in Round(list, k, coin, J)
  {
    if j < J - 1 {
      SlotInRound(list, k, coin, J - 1, j);
    }
  }

  // ---------- Facts across rounds: the modular heart of the circle method ----------

  /** Where ring entry q (list entry q+1) stands in round k. */
  function RingPos(m: nat, k: nat, q: nat): (p: nat)
    requires k < m && q < m
    ensures p < m && RingAt(m, k, p) == q + 1
  {
    if q + k < m then q + k else q + k - m
  }

  /** The entry standing at position p of round k is found at p again. */
  lemma {:induction false} RingInverse(m: nat, k: nat, p: nat)
    requires k < m && p < m
    ensures RingPos(m, k, RingAt(m, k, p) - 1) == p
  {
  }

  /** The same two entries never share a slot in two different rounds (m = 2h-1 is odd). */
  lemma {:induction false} SlotUnique(h: nat, k1: nat, j1: nat, k2: nat, j2: nat, u: nat, v: nat)
    requires 1 <= h && k1 < 2 * h - 1 && k2 < 2 * h - 1 && j1 < h && j2 < h && u != v
    requires SlotHolds(h, k1, j1, u, v) && SlotHolds(h, k2, j2, u, v)
    ensures k1 == k2 && j1 == j2
  {
    if j1 == 0 || j2 == 0 {
      HubSlotUnique(h, k1, j1, k2, j2, u, v);
    } else {
      RingSlotRound(h, k1, j1, k2, j2, u, v);
      SameRoundSameSlot(h, k1, j1, j2, u, v);
    }
  }

  /** Two entries sharing ring slots in rounds k1 and k2 force k1 = k2. */
  lemma {:induction false} RingSlotRound(h: nat, k1: nat, j1: nat, k2: nat, j2: nat, u: nat, v: nat)
    requires 1 <= h && k1 < 2 * h - 1 && k2 < 2 * h - 1 && 1 <= j1 < h && 1 <= j2 < h
    requires SlotHolds(h, k1, j1, u, v) && SlotHolds(h, k2, j2, u, v)
    ensures k1 == k2
  {
    RingSlotSum(h, k1, j1, u, v);
    RingSlotSum(h, k2, j2, u, v);
    SumFixesRound(h, u, v, k1, k2);
  }

  /** Ring entries u-1 and v-1 stand, in round k, at positions adding up to m-2. */
  predicate FacingInRound(h: nat, k: nat, u: nat, v: nat)
    requires 1 <= h && k < 2 * h - 1
  {
    1 <= u < 2 * h && 1 <= v < 2 * h &&
    RingPos(2 * h - 1, k, u - 1) + RingPos(2 * h - 1, k, v - 1) == 2 * h - 3
  }

  /** The two ring entries of a slot other than 0 face each other. */
  lemma {:induction false} RingSlotSum(h: nat, k: nat, j: nat, u: nat, v: nat)
    requires 1 <= h && k < 2 * h - 1 && 1 <= j < h
    requires SlotHolds(h, k, j, u, v)
    ensures FacingInRound(h, k, u, v)
  {
    var m := 2 * h - 1;
    RingInverse(m, k, j - 1);
    RingInverse(m, k, m - 1 - j);
  }

  /** Over an odd ring, two entries face each other in one round only. */
  lemma {:induction false} SumFixesRound(h: nat, u: nat, v: nat, k1: nat, k2: nat)
    requires 1 <= h && k1 < 2 * h - 1 && k2 < 2 * h - 1
    requires FacingInRound(h, k1, u, v) && FacingInRound(h, k2, u, v)
    ensures k1 == k2
  {
  }

  /** Within one round, two entries share at most one slot. */
  lemma {:induction false} SameRoundSameSlot(h: nat, k: nat, j1: nat, j2: nat, u: nat, v: nat)
    requires 1 <= h && k < 2 * h - 1 && j1 < h && j2 < h && u != v
    requires SlotHolds(h, k, j1, u, v) && SlotHolds(h, k, j2, u, v)
    ensures j1 == j2
  {
    SlotIndicesDistinct(h, k, j1, j2);
    SlotIndicesDistinct(h, k, j2, j1);
  }

  /** Entry 0 sits only in slot 0, facing ring position m-1, whose entry names the round. */
  lemma {:induction false} HubSlotUnique(h: nat, k1: nat, j1: nat, k2: nat, j2: nat, u: nat, v: nat)
    requires 1 <= h && k1 < 2 * h - 1 && k2 < 2 * h - 1 && j1 < h && j2 < h && u != v
    requires SlotHolds(h, k1, j1, u, v) && SlotHolds(h, k2, j2, u, v)
    requires j1 == 0 || j2 == 0
    ensures k1 == k2 && j1 == j2
  {
    assert u == 0 || v == 0;
    assert j1 == 0 && j2 == 0;
    assert RightIdx(h, k1, 0) == 2 * h - 1 - k1;
    assert RightIdx(h, k2, 0) == 2 * h - 1 - k2;
  }

  /** Any two distinct entries share a slot in some round. */
  lemma {:induction false} SlotExists(h: nat, u: nat, v: nat) returns (k: nat, j: nat)
    requires 1 <= h && u < 2 * h && v < 2 * h && u != v
    ensures k < 2 * h - 1 && j < h && SlotHolds(h, k, j, u, v)
  {
    var m := 2 * h - 1;
    if u == 0 {
      k, j := m - v, 0;
    } else if v == 0 {
      k, j := m - u, 0;
    } else {
      // ring entries qu, qv; choose k with (qu + k) + (qv + k) = m - 2 modulo m
      var qu, qv := u - 1, v - 1;
      var d := m - 2 - qu - qv;
      var t := if d >= 0 then d else d + m;
      k := HalfMod(m, t);
      var pu, pv := RingPos(m, k, qu), RingPos(m, k, qv);
      assert pu + pv == m - 2;
      j := SlotOfPositions(h, k, pu, pv);
    }
  }

  /** Halving modulo an odd m: some k < m has 2k = t (mod m). */
  lemma {:induction false} HalfMod(m: nat, t: nat) returns (k: nat)
    requires m % 2 == 1 && t < m
    ensures k < m && (2 * k == t || 2 * k == t + m)
  {
    k := if t % 2 == 0 then t / 2 else (t + m) / 2;
  }

  /** Two ring positions adding up to m-2 face each other in one slot. */
  lemma {:induction false} SlotOfPositions(h: nat, k: nat, pu: nat, pv: nat) returns (j: nat)
    requires 1 <= h && k < 2 * h - 1 && pu < 2 * h - 1 && pv < 2 * h - 1 && pu + pv == 2 * h - 3
    ensures j < h && SlotHolds(h, k, j, RingAt(2 * h - 1, k, pu), RingAt(2 * h - 1, k, pv))
  {
    if pu < pv {
      j := pu + 1;
      assert LeftIdx(h, k, j) == RingAt(2 * h - 1, k, pu);
      assert RightIdx(h, k, j) == RingAt(2 * h - 1, k, pv);
    } else {
      j := pv + 1;
      assert LeftIdx(h, k, j) == RingAt(2 * h - 1, k, pv);
      assert RightIdx(h, k, j) == RingAt(2 * h - 1, k, pu);
    }
  }

  // ---------- The guarantees of the circle method ----------

  /** n-1 rounds over the padded list; every team in a round is one of the input teams. */
  lemma {:induction false} CircleRoundsShape<T>(teams: seq<T>, coin: (nat, nat) -> bool)
    ensures |CircleRounds(teams, coin)| == if teams == [] then 0 else |Padded(teams)| - 1
    ensures forall k, x :: 0 <= k < |CircleRounds(teams, coin)| && x in TeamsOf(CircleRounds(teams, coin)[k]) ==> x in teams
  {
    var rounds := CircleRounds(teams, coin);
    forall k, x | 0 <= k < |rounds| && x in TeamsOf(rounds[k])
      ensures x in teams
    {
      CircleRoundAt(teams, coin, k);
      RoundTeamsFromList(Padded(teams), k, coin, |Padded(teams)| / 2);
      PaddedSome(teams, x);
    }
  }

  /** The real entries of the padded list are the teams. */
  lemma {:induction false} PaddedSome<T>(teams: seq<T>, x: T)
    requires Some(x) in Padded(teams)
    ensures x in teams
  {
    var list := Padded(teams);
    var i :| 0 <= i < |list| && list[i] == Some(x);
    assert i < |teams| && teams[i] == x;
  }

  /** With distinct teams, no team appears twice within any round. */
  lemma {:induction false} NoTeamTwiceInRound<T>(teams: seq<T>, coin: (nat, nat) -> bool, k: nat)
    requires Distinct(teams) && k < |CircleRounds(teams, coin)|
    ensures Distinct(TeamsOf(CircleRounds(teams, coin)[k]))
  {
    PaddedDistinct(teams);
    CircleRoundAt(teams, coin, k);
    RoundDistinct(Padded(teams), k, coin, |Padded(teams)| / 2);
  }

  /** Padding distinct teams with one bye keeps the entries distinct. */
  lemma {:induction false} PaddedDistinct<T>(teams: seq<T>)
    requires Distinct(teams)
    ensures Distinct(Padded(teams))
  {
    var list := Padded(teams);
    forall a, b | 0 <= a < b < |list| ensures list[a] != list[b] {
      if b < |teams| { assert teams[a] != teams[b]; }
    }
  }

  /** Round k of `CircleRounds` is the round built from the padded list. */
  lemma {:induction false} CircleRoundAt<T>(teams: seq<T>, coin: (nat, nat) -> bool, k: nat)
    requires k < |CircleRounds(teams, coin)|
    ensures 2 <= |Padded(teams)| && k < |Padded(teams)| - 1
    ensures CircleRounds(teams, coin)[k] == Round(Padded(teams), k, coin, |Padded(teams)| / 2)
  {
    CircleRoundsOfTeams(teams, coin);
    RoundsUpToAt(Padded(teams), coin, |Padded(teams)| - 1, k);
  }

  /** With at least one team the padded list has two entries or more, and the rounds are the first n-1. */
  lemma {:induction false} CircleRoundsOfTeams<T>(teams: seq<T>, coin: (nat, nat) -> bool)
    ensures teams == [] ==> CircleRounds(teams, coin) == []
    ensures teams != [] ==>
              2 <= |Padded(teams)| && CircleRounds(teams, coin) == RoundsUpTo(Padded(teams), coin, |Padded(teams)| - 1)
  {
    if teams == [] {
      assert |Padded(teams)| == 0;
    }
  }

  /** Two distinct teams meet in exactly one pairing of exactly one round. */
  lemma {:induction false} EachPairMeetsOnce<T>(teams: seq<T>, coin: (nat, nat) -> bool, x: T, y: T)
    requires Distinct(teams) && x in teams && y in teams && x != y
    ensures exists k, a :: 0 <= k < |CircleRounds(teams, coin)| && 0 <= a < |CircleRounds(teams, coin)[k]| &&
              Meets(CircleRounds(teams, coin)[k][a], x, y)
    ensures forall k1, a1, k2, a2 ::
              0 <= k1 < |CircleRounds(teams, coin)| && 0 <= a1 < |CircleRounds(teams, coin)[k1]| &&
              0 <= k2 < |CircleRounds(teams, coin)| && 0 <= a2 < |CircleRounds(teams, coin)[k2]| &&
              Meets(CircleRounds(teams, coin)[k1][a1], x, y) && Meets(CircleRounds(teams, coin)[k2][a2], x, y)
              ==> k1 == k2 && a1 == a2
  {
    var rounds := CircleRounds(teams, coin);
    var u :| 0 <= u < |teams| && teams[u] == x;
    var v :| 0 <= v < |teams| && teams[v] == y;
    var k, a := MeetingExists(teams, coin, u, v);
    forall k1, a1, k2, a2 |
      0 <= k1 < |rounds| && 0 <= a1 < |rounds[k1]| && 0 <= k2 < |rounds| && 0 <= a2 < |rounds[k2]| &&
      Meets(rounds[k1][a1], x, y) && Meets(rounds[k2][a2], x, y)
      ensures k1 == k2 && a1 == a2
    {
      MeetingUnique(teams, coin, u, v, k1, a1, k2, a2);
    }
  }

  /** The teams at indices u and v meet in some pairing of some round. */
  lemma {:induction false} MeetingExists<T>(teams: seq<T>, coin: (nat, nat) -> bool, u: nat, v: nat) returns (k: nat, a: nat)
    requires u < |teams| && v < |teams| && u != v
    ensures k < |CircleRounds(teams, coin)| && a < |CircleRounds(teams, coin)[k]|
    ensures Meets(CircleRounds(teams, coin)[k][a], teams[u], teams[v])
  {
    var list := Padded(teams);
    var h := |list| / 2;
    var j;
    k, j := SlotExists(h, u, v);
    SlotInRound(list, k, coin, h, j);
    CircleRoundAt(teams, coin, k);
    var r := Round(list, k, coin, h);
    var p := Orient(list[LeftIdx(h, k, j)].value, list[RightIdx(h, k, j)].value, coin(k, j));
    assert p in r;
    a :| 0 <= a < |r| && r[a] == p;
  }

  /** A pairing of round k meeting the teams at indices u and v comes from a slot holding entries u and v. */
  lemma {:induction false} SlotOfMeeting<T>(teams: seq<T>, coin: (nat, nat) -> bool, u: nat, v: nat, k: nat, a: nat)
    returns (j: nat)
    requires Distinct(teams) && u < |teams| && v < |teams| && u != v
    requires 2 <= |Padded(teams)| && k < |Padded(teams)| - 1
    requires a < |Round(Padded(teams), k, coin, |Padded(teams)| / 2)|
    requires Meets(Round(Padded(teams), k, coin, |Padded(teams)| / 2)[a], teams[u], teams[v])
    ensures j < |Padded(teams)| / 2 && SlotHolds(|Padded(teams)| / 2, k, j, u, v)
  {
    var list := Padded(teams);
    var h := |list| / 2;
    j := PairFromSlot(list, k, coin, h, a);
    IndexOfTeam(teams, list, teams[u], u);
    IndexOfTeam(teams, list, teams[v], v);
  }

  /** Two pairings meeting the teams at indices u and v are the same pairing of the same round. */
  lemma {:induction false} MeetingUnique<T>(teams: seq<T>, coin: (nat, nat) -> bool, u: nat, v: nat,
                                            k1: nat, a1: nat, k2: nat, a2: nat)
    requires Distinct(teams) && u < |teams| && v < |teams| && u != v
    requires k1 < |CircleRounds(teams, coin)| && a1 < |CircleRounds(teams, coin)[k1]|
    requires k2 < |CircleRounds(teams, coin)| && a2 < |CircleRounds(teams, coin)[k2]|
    requires Meets(CircleRounds(teams, coin)[k1][a1], teams[u], teams[v])
    requires Meets(CircleRounds(teams, coin)[k2][a2], teams[u], teams[v])
    ensures k1 == k2 && a1 == a2
  {
    var h := |Padded(teams)| / 2;
    CircleRoundAt(teams, coin, k1);
    CircleRoundAt(teams, coin, k2);
    var j1 := SlotOfMeeting(teams, coin, u, v, k1, a1);
    var j2 := SlotOfMeeting(teams, coin, u, v, k2, a2);
    SlotUnique(h, k1, j1, k2, j2, u, v);
    if a1 != a2 {
      NoTeamTwiceInRound(teams, coin, k1);
      DistinctPairsDisjoint(CircleRounds(teams, coin)[k1], a1, a2, teams[u]);
    }
  }

  /** In the padded list of distinct teams, x is found only at its own index. */
  lemma {:induction false} IndexOfTeam<T>(teams: seq<T>, list: seq<Option<T>>, x: T, u: nat)
    requires Distinct(teams) && list == Padded(teams) && u < |teams| && teams[u] == x
    ensures forall i :: 0 <= i < |list| && list[i] == Some(x) ==> i == u
  {
  }

  /** In a round without repeated teams, two different pairings do not share a team. */
  lemma {:induction false} DistinctPairsDisjoint<T>(r: seq<(T, T)>, a1: nat, a2: nat, x: T)
    requires Distinct(TeamsOf(r)) && a1 < |r| && a2 < |r| && a1 != a2
    requires x == r[a1].0 || x == r[a1].1
    ensures x != r[a2].0 && x != r[a2].1
  {
    TeamsOfAt(r, a1);
    TeamsOfAt(r, a2);
    var s := TeamsOf(r);
    var i1 := if x == r[a1].0 then 2 * a1 else 2 * a1 + 1;
    assert s[i1] == x;
    assert s[2 * a2] != s[i1] && s[2 * a2 + 1] != s[i1];
  }

  lemma {:induction false} DistinctAppendTwo<T>(s: seq<T>, a: T, b: T)
    requires Distinct(s) && a !in s && b !in s && a != b
    ensures Distinct(s + [a, b])
  {
  }

  /** Pairing a of a round sits at positions 2a and 2a+1 of its team list. */
  lemma {:induction false} TeamsOfAt<T>(r: seq<(T, T)>, a: nat)
    requires a < |r|
    ensures |TeamsOf(r)| == 2 * |r| && TeamsOf(r)[2 * a] == r[a].0 && TeamsOf(r)[2 * a + 1] == r[a].1
  {
    var front := r[..|r| - 1];
    if a < |front| {
      TeamsOfAt(front, a);
    }
  }
}
