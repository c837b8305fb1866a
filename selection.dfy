/**
 * Tournament selection (`maybeStartTournament`): one automatic bid per
 * conference, the best-ranked team of its conference; then at-large teams by
 * composite score up to a field of 64 (or the whole league when it is
 * smaller); then the field re-sorted by composite score into seed order.
 *
 * The JavaScript sort is stable, so "sort, then take the first" is the first
 * team nobody outranks, and a sort by score keeps teams of equal score in
 * their original order.
 */
module Selection {
  import opened Seqs
  import opened Teams
  import opened Grouping
  import opened Schedule

  /** The largest field. */
  const FieldCap: nat := 64

  // ---------- The conference winner ----------

  /** a ranks strictly above b: conference differential, then overall differential, then offense plus defense. */
  predicate Outranks(a: Team, b: Team)
  {
    var ca, cb := a.confWins - a.confLosses, b.confWins - b.confLosses;
    var wa, wb := a.wins - a.losses, b.wins - b.losses;
    ca > cb || (ca == cb && (wa > wb || (wa == wb && a.ratingOff + a.ratingDef > b.ratingOff + b.ratingDef)))
  }

  /** `[...teams].sort(byRecord)[0]`: the first team that no team of the group outranks. */
  function ConfWinnerIndex(s: seq<Team>): (i: nat)
    requires |s| > 0
    ensures i < |s|
    ensures forall j :: 0 <= j < |s| ==> !Outranks(s[j], s[i])
    ensures forall j :: 0 <= j < i ==> Outranks(s[i], s[j])
  {
    if |s| == 1 then 0
    else
      var p := s[..|s| - 1];
      var i := ConfWinnerIndex(p);
      assert forall j :: 0 <= j < |p| ==> p[j] == s[j];
      if Outranks(s[|s| - 1], s[i]) then |s| - 1 else i
  }

  /** Being first among the teams nobody outranks determines the winner. */
  lemma {:induction false} ConfWinnerUnique(s: seq<Team>, k: nat)
    requires k < |s|
    requires forall j :: 0 <= j < |s| ==> !Outranks(s[j], s[k])
    requires forall j :: 0 <= j < k ==> Outranks(s[k], s[j])
    ensures k == ConfWinnerIndex(s)
  {
    var i := ConfWinnerIndex(s);
    assert !Outranks(s[i], s[k]) && !Outranks(s[k], s[i]);
  }

  // ---------- The stable sort by composite score ----------

  /** The key the at-large and seeding sorts use: twice the composite score. */
  const ScoreOf: Team -> int := (t: Team) => Composite2(t)

  /** Scores never increase along the list. */
  predicate SortedByScore(s: seq<Team>)
  {
    forall i, j :: 0 <= i < j < |s| ==> Composite2(s[i]) >= Composite2(s[j])
  }

  /** Insert x after every team whose score is at least x's. */
  function InsertByScore(sorted: seq<Team>, x: Team): (r: seq<Team>)
    ensures |r| == |sorted| + 1
  {
    if sorted == [] || Composite2(sorted[0]) < Composite2(x) then [x] + sorted
    else [sorted[0]] + InsertByScore(sorted[1..], x)
  }

  /** `sort((a, b) => score(b) - score(a))`, which keeps equal scores in input order. */
  function SortByScore(s: seq<Team>): (r: seq<Team>)
    ensures |r| == |s|
  {
    if s == [] then [] else InsertByScore(SortByScore(s[..|s| - 1]), s[|s| - 1])
  }

  lemma {:induction false} InsertPerm(sorted: seq<Team>, x: Team)
    ensures multiset(InsertByScore(sorted, x)) == multiset(sorted) + multiset{x}
  {
    if !(sorted == [] || Composite2(sorted[0]) < Composite2(x)) {
      InsertPerm(sorted[1..], x);
      SplitFirst(sorted);
    }
  }

  lemma {:induction false} InsertSorted(sorted: seq<Team>, x: Team)
    requires SortedByScore(sorted)
    ensures SortedByScore(InsertByScore(sorted, x))
  {
    if sorted == [] {
      assert InsertByScore(sorted, x) == [x];
    } else if Composite2(sorted[0]) < Composite2(x) {
      assert InsertByScore(sorted, x) == [x] + sorted;
      SortedCons(x, sorted);
    } else {
      var h, t := sorted[0], sorted[1..];
      SortedTail(sorted);
      InsertSorted(t, x);
      InsertPerm(t, x);
      var r := InsertByScore(t, x);
      forall y | y in r ensures Composite2(h) >= Composite2(y) {
        assert y in multiset(r);
        if y != x {
          var k :| 0 <= k < |t| && t[k] == y;
          assert sorted[k + 1] == y;
        }
      }
      assert InsertByScore(sorted, x) == [h] + r;
      SortedCons(h, r);
    }
  }

  /** A team scoring at least every team of a sorted list may go in front of it. */
  lemma {:induction false} SortedCons(h: Team, r: seq<Team>)
    requires SortedByScore(r)
    requires forall y :: y in r ==> Composite2(h) >= Composite2(y)
    ensures SortedByScore([h] + r)
  {
    var s := [h] + r;
    forall i, j | 0 <= i < j < |s| ensures Composite2(s[i]) >= Composite2(s[j]) {
      assert s[j] == r[j - 1];
      if i > 0 {
        assert s[i] == r[i - 1];
      }
    }
  }

  /** The sort is a permutation. */
  lemma {:induction false} SortByScorePerm(s: seq<Team>)
    ensures multiset(SortByScore(s)) == multiset(s)
  {
    if s != [] {
      var p, x := s[..|s| - 1], s[|s| - 1];
      var sp := SortByScore(p);
      SortByScorePerm(p);
      InsertPerm(sp, x);
      SplitLast(s);
    }
  }

  /** The sort orders by score, best first. */
  lemma {:induction false} SortByScoreSorted(s: seq<Team>)
    ensures SortedByScore(SortByScore(s))
  {
    if s != [] {
      SortByScoreSorted(s[..|s| - 1]);
      InsertSorted(SortByScore(s[..|s| - 1]), s[|s| - 1]);
    }
  }

  /** Nobody below the head of a sorted list reaches a score above the head's. */
  lemma {:induction false} BelowTop(sorted: seq<Team>, v: int)
    requires SortedByScore(sorted) && sorted != [] && Composite2(sorted[0]) < v
    ensures !HasKey(sorted, ScoreOf, v)
  {
    forall j | 0 <= j < |sorted| ensures ScoreOf(sorted[j]) != v {
      assert Composite2(sorted[j]) <= Composite2(sorted[0]);
    }
  }

  /** The tail of a sorted list is sorted. */
  lemma {:induction false} SortedTail(sorted: seq<Team>)
    requires SortedByScore(sorted) && sorted != []
    ensures SortedByScore(sorted[1..])
  {
    forall i, j | 0 <= i < j < |sorted| - 1
      ensures Composite2(sorted[1..][i]) >= Composite2(sorted[1..][j])
    {
      assert sorted[1..][i] == sorted[i + 1] && sorted[1..][j] == sorted[j + 1];
    }
  }

  lemma {:induction false} InsertStable(sorted: seq<Team>, x: Team, v: int)
    requires SortedByScore(sorted)
    ensures Members(InsertByScore(sorted, x), ScoreOf, v) ==
            Members(sorted, ScoreOf, v) + (if Composite2(x) == v then [x] else [])
  {
    var extra: seq<Team> := if Composite2(x) == v then [x] else [];
    MembersSingle(x, ScoreOf, v);
    assert Members([x], ScoreOf, v) == extra;
    if sorted == [] {
      assert InsertByScore(sorted, x) == [x];
      EmptyAppend(Members(sorted, ScoreOf, v), extra);
    } else if Composite2(sorted[0]) < Composite2(x) {
      assert InsertByScore(sorted, x) == [x] + sorted;
      MembersAppend([x], sorted, ScoreOf, v);
      if Composite2(x) == v {
        BelowTop(sorted, v);
        MembersNotHasKey(sorted, ScoreOf, v);
      }
      EmptyAppend(extra, Members(sorted, ScoreOf, v));
    } else {
      var h, t := sorted[0], sorted[1..];
      var mh := Members([h], ScoreOf, v);
      SortedTail(sorted);
      InsertStable(t, x, v);
      assert InsertByScore(sorted, x) == [h] + InsertByScore(t, x);
      MembersAppend([h], InsertByScore(t, x), ScoreOf, v);
      MembersAppend([h], t, ScoreOf, v);
      SplitFirst(sorted);
      calc {
        Members(InsertByScore(sorted, x), ScoreOf, v);
        mh + Members(InsertByScore(t, x), ScoreOf, v);
        mh + (Members(t, ScoreOf, v) + extra);
        { AppendAssoc(mh, Members(t, ScoreOf, v), extra); }
        (mh + Members(t, ScoreOf, v)) + extra;
        Members(sorted, ScoreOf, v) + extra;
      }
    }
  }

  /** The sort is stable: the teams of any one score keep their input order. */
  lemma {:induction false} SortByScoreStable(s: seq<Team>, v: int)
    ensures Members(SortByScore(s), ScoreOf, v) == Members(s, ScoreOf, v)
  {
    if s != [] {
      var p := s[..|s| - 1];
      SortByScoreStable(p, v);
      SortByScoreSorted(p);
      InsertStable(SortByScore(p), s[|s| - 1], v);
    }
  }

  // ---------- The field ----------

  /** Every conference has at least one team. */
  lemma {:induction false} GroupNonEmpty(teams: seq<Team>, c: nat)
    requires c < |KeysOf(teams, ConfOf)|
    ensures |GroupOf(teams, c)| > 0
  {
    var k := KeysOf(teams, ConfOf)[c];
    KeysOfExact(teams, ConfOf);
    assert HasKey(teams, ConfOf, k);
    var j :| 0 <= j < |teams| && ConfOf(teams[j]) == k;
    MembersAreKeyed(teams, ConfOf, k, teams[j]);
  }

  /** Conference c's automatic bid. */
  function Bid(teams: seq<Team>, c: nat): (t: Team)
    requires c < |KeysOf(teams, ConfOf)|
    ensures t in GroupOf(teams, c)
  {
    GroupNonEmpty(teams, c);
    GroupOf(teams, c)[ConfWinnerIndex(GroupOf(teams, c))]
  }

  /** The automatic bids, one per conference in first-seen order. */
  function AutoBids(teams: seq<Team>): (bids: seq<Team>)
    ensures |bids| == |KeysOf(teams, ConfOf)|
  {
    seq(|KeysOf(teams, ConfOf)|, c requires 0 <= c < |KeysOf(teams, ConfOf)| => Bid(teams, c))
  }

  /** `teams.filter(t => !selected.includes(t))`. */
  function Without(teams: seq<Team>, selected: seq<Team>): (r: seq<Team>)
    ensures forall t :: t in r <==> t in teams && t !in selected
  {
    if teams == [] then []
    else
      var p := teams[..|teams| - 1];
      SplitLast(teams);
      Without(p, selected) + (if teams[|teams| - 1] in selected then [] else [teams[|teams| - 1]])
  }

  /** `Math.max(0, Math.min(64, n) - bids)`: how many at-large teams are wanted. */
  function Need(n: nat, bids: nat): nat
  {
    Max(0, Min(FieldCap, n) - bids)
  }

  /** The at-large teams: the best `Need` of the rest, by score. */
  function AtLarge(teams: seq<Team>): seq<Team>
  {
    var bids := AutoBids(teams);
    Take(SortByScore(Without(teams, bids)), Need(|teams|, |bids|))
  }

  /** The field: automatic bids, then at-large teams. */
  function Field(teams: seq<Team>): seq<Team>
  {
    AutoBids(teams) + AtLarge(teams)
  }

  /** The seed order: the field sorted by score. */
  function Seeds(teams: seq<Team>): seq<Team>
  {
    SortByScore(Field(teams))
  }

  /** The selection loop of `maybeStartTournament`, then the at-large fill and the seeding sort. */
  method SelectSeeds(teams: seq<Team>) returns (seeds: seq<Team>)
    ensures seeds == Seeds(teams)
  {
    var byConf := GroupBy(teams, ConfOf);
    var selected: seq<Team> := [];
    var c := 0;
    while c < |byConf|
      invariant 0 <= c <= |byConf| == |KeysOf(teams, ConfOf)|
      invariant selected == AutoBids(teams)[..c]
    {
      var group := byConf[c].1;
      GroupNonEmpty(teams, c);
      var winner := group[ConfWinnerIndex(group)];
      PrefixStep(AutoBids(teams), c);
      selected := selected + [winner];
      c := c + 1;
    }
    assert selected == AutoBids(teams);
    var pool := Without(teams, selected);
    var need := Need(|teams|, |selected|);
    var scored := Take(SortByScore(pool), need);
    var field := selected + scored;
    seeds := SortByScore(field);
  }

  // ---------- What the selection guarantees ----------

  /** Each automatic bid belongs to its conference and is that conference's winner. */
  lemma {:induction false} BidsAreWinners(teams: seq<Team>, c: nat)
    requires c < |KeysOf(teams, ConfOf)|
    ensures var b := AutoBids(teams)[c]; var g := GroupOf(teams, c);
      b in teams && b.conf == KeysOf(teams, ConfOf)[c] &&
      (forall t :: t in g ==> !Outranks(t, b)) &&
      (forall t :: t in teams && t.conf == b.conf ==> t in g)
  {
    var k := KeysOf(teams, ConfOf)[c];
    var g := GroupOf(teams, c);
    var b := AutoBids(teams)[c];
    MembersAreKeyed(teams, ConfOf, k, b);
    forall t | t in teams && t.conf == b.conf ensures t in g {
      MembersAreKeyed(teams, ConfOf, k, t);
    }
  }

  /** The automatic bids are distinct teams of the league, from distinct conferences. */
  lemma {:induction false} BidsDistinct(teams: seq<Team>)
    ensures Distinct(AutoBids(teams))
    ensures forall t :: t in AutoBids(teams) ==> t in teams
  {
    var bids := AutoBids(teams);
    var ks := KeysOf(teams, ConfOf);
    KeysOfExact(teams, ConfOf);
    forall c | 0 <= c < |bids| ensures bids[c] in teams && bids[c].conf == ks[c] {
      BidsAreWinners(teams, c);
    }
  }

  /** Every team that did not get a bid and was not picked at large scores no higher than any at-large pick. */
  lemma {:induction false} AtLargeAreBest(teams: seq<Team>, t: Team, u: Team)
    requires t in Without(teams, AutoBids(teams)) && t !in AtLarge(teams)
    requires u in AtLarge(teams)
    ensures Composite2(t) <= Composite2(u)
  {
    var pool := Without(teams, AutoBids(teams));
    var sorted, al := SortByScore(pool), AtLarge(teams);
    SortByScorePerm(pool);
    SortByScoreSorted(pool);
    assert t in multiset(sorted);
    var i :| 0 <= i < |sorted| && sorted[i] == t;
    var j :| 0 <= j < |al| && al[j] == u;
    NotInPrefix(al, sorted, i);
    assert sorted[j] == u;
  }

  /** A list without repeats has every multiplicity at most one. */
  lemma {:induction false} DistinctCount<T>(s: seq<T>, x: T)
    requires Distinct(s)
    ensures multiset(s)[x] <= 1
  {
    if s != [] {
      var p := s[..|s| - 1];
      SplitLast(s);
      DistinctCount(p, x);
      if x == s[|s| - 1] {
        assert x !in p;
      }
    }
  }

  /** A value at two positions occurs at least twice. */
  lemma {:induction false} RepeatCount<T>(b: seq<T>, i: nat, j: nat)
    requires i < j < |b|
    ensures b[i] == b[j] ==> multiset(b)[b[i]] >= 2
  {
    assert b == b[..j] + [b[j]] + b[j + 1..];
    assert b[i] in b[..j];
  }

  /** A permutation of a list without repeats has no repeats. */
  lemma {:induction false} PermDistinct<T>(a: seq<T>, b: seq<T>)
    requires Distinct(a) && multiset(a) == multiset(b)
    ensures Distinct(b)
  {
    forall i, j | 0 <= i < j < |b| ensures b[i] != b[j] {
      DistinctCount(a, b[i]);
      RepeatCount(b, i, j);
    }
  }

  /** A list without repeats has as many distinct elements as entries. */
  lemma {:induction false} DistinctCard<T>(s: seq<T>)
    requires Distinct(s)
    ensures |set x | x in s| == |s|
  {
    if s != [] {
      var p := s[..|s| - 1];
      DistinctCard(p);
      assert s[|s| - 1] !in p;
      assert (set x | x in s) == (set x | x in p) + {s[|s| - 1]};
    }
  }

  /** The pool keeps the other teams once each. */
  lemma {:induction false} WithoutDistinct(teams: seq<Team>, selected: seq<Team>)
    requires Distinct(teams)
    ensures Distinct(Without(teams, selected))
  {
    if teams != [] {
      var p := teams[..|teams| - 1];
      WithoutDistinct(p, selected);
    }
  }

  /** The field has no repeats, and holds teams of the league only. */
  lemma {:induction false} FieldDistinct(teams: seq<Team>)
    requires Distinct(teams)
    ensures Distinct(Field(teams))
    ensures forall t :: t in Field(teams) ==> t in teams
  {
    var bids := AutoBids(teams);
    var pool := Without(teams, bids);
    BidsDistinct(teams);
    WithoutDistinct(teams, bids);
    SortByScorePerm(pool);
    PermDistinct(pool, SortByScore(pool));
    var al := AtLarge(teams);
    forall t | t in al ensures t in pool {
      assert t in SortByScore(pool);
      assert t in multiset(SortByScore(pool));
    }
    var f := bids + al;
    forall i, j | 0 <= i < j < |f| ensures f[i] != f[j] {
      if j < |bids| {
        assert f[i] == bids[i] && f[j] == bids[j];
      } else if i >= |bids| {
        assert f[i] == SortByScore(pool)[i - |bids|] && f[j] == SortByScore(pool)[j - |bids|];
      } else {
        assert f[i] in bids && f[j] in al;
      }
    }
  }

  /** The field holds max(#conferences, min(64, #teams)) teams. */
  lemma {:induction false} FieldSize(teams: seq<Team>)
    requires Distinct(teams)
    ensures |Field(teams)| == Max(|AutoBids(teams)|, Min(FieldCap, |teams|))
  {
    PoolSize(teams);
    var n, b := |teams|, |AutoBids(teams)|;
    assert |AtLarge(teams)| == Min(Need(n, b), n - b);
  }

  /** The teams left after the bids number the league less the bids. */
  lemma {:induction false} PoolSize(teams: seq<Team>)
    requires Distinct(teams)
    ensures |Without(teams, AutoBids(teams))| == |teams| - |AutoBids(teams)|
  {
    var bids := AutoBids(teams);
    var pool := Without(teams, bids);
    BidsDistinct(teams);
    WithoutDistinct(teams, bids);
    DistinctCard(teams);
    DistinctCard(bids);
    DistinctCard(pool);
    var T, B, P := set x | x in teams, set x | x in bids, set x | x in pool;
    SetSplit(T, B, P);
  }

  lemma {:induction false} SetSplit(T: set<Team>, B: set<Team>, P: set<Team>)
    requires B <= T && (forall x :: x in P <==> x in T && x !in B)
    ensures |P| == |T| - |B|
  {
    assert P == T - B;
    assert T == P + B && P * B == {};
  }

  /** The seeds are the field, best score first, equal scores in field order. */
  lemma {:induction false} SeedsOrdered(teams: seq<Team>)
    ensures multiset(Seeds(teams)) == multiset(Field(teams))
    ensures SortedByScore(Seeds(teams))
    ensures forall v :: Members(Seeds(teams), ScoreOf, v) == Members(Field(teams), ScoreOf, v)
  {
    SortByScorePerm(Field(teams));
    SortByScoreSorted(Field(teams));
    forall v ensures Members(Seeds(teams), ScoreOf, v) == Members(Field(teams), ScoreOf, v) {
      SortByScoreStable(Field(teams), v);
    }
  }
}
