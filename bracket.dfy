/**
 * The single-elimination bracket: `makeBracket` (the smallest power-of-two
 * size that holds the field, byes padding the end, seed i against seed
 * size-1-i) and the rounds of `simTournament` (each pairing decided by a
 * neutral-court game or a bye, winners paired first against last).
 *
 * Tournament draws are an input: `draw(r)(i)` is what the source draws for
 * pairing i of round r (counting rounds from 0).
 */
module Tournament {
  import opened Wrappers
  import opened Seqs
  import opened Teams
  import opened Simulation

  /** A pairing; an empty slot is a bye. */
  type Pair = (Option<Team>, Option<Team>)

  /** The score cell of a result: "a-b", or "—" when nothing was played. */
  datatype Score = Final(a: int, b: int) | NoScore

  /** One line of a round's results: both names, the score, the winner's name. */
  datatype MatchResult = MatchResult(a: string, b: string, score: Score, winner: string)

  /** The bracket: the 1-based current round, every round's pairings, every played round's results. */
  datatype Bracket = Bracket(round: nat, rounds: seq<seq<Pair>>, results: seq<seq<MatchResult>>,
                             complete: bool, champion: Option<string>)

  // ---------- Powers of two ----------

  predicate IsPow2(n: nat)
    decreases n
  {
    if n <= 1 then n == 1 else n % 2 == 0 && IsPow2(n / 2)
  }

  function Log2(n: nat): nat
    requires IsPow2(n)
    decreases n
  {
    if n <= 1 then 0 else 1 + Log2(n / 2)
  }

  /** Of two powers of two, the smaller is at most half the larger. */
  lemma {:induction false} Pow2Below(p: nat, q: nat)
    requires IsPow2(p) && IsPow2(q) && p < q
    ensures 2 * p <= q
    decreases q
  {
    if p > 1 {
      Pow2Below(p / 2, q / 2);
    }
  }

  /** `while (size < m) size *= 2`, from a given size. */
  function SizeFrom(m: nat, size: nat): nat
    requires size >= 1
    decreases m - size
  {
    if size >= m then size else SizeFrom(m, 2 * size)
  }

  /** The bracket size for m seeds. */
  function BracketSize(m: nat): nat
  {
    SizeFrom(m, 1)
  }

  lemma {:induction false} SizeFromFacts(m: nat, size: nat)
    requires size >= 1 && IsPow2(size) && (size == 1 || size / 2 < m)
    ensures var r := SizeFrom(m, size); IsPow2(r) && m <= r && (r == 1 || r / 2 < m)
    decreases m - size
  {
    if size < m {
      assert (2 * size) / 2 == size;
      SizeFromFacts(m, 2 * size);
    }
  }

  /** The bracket size is the least power of two that holds every seed. */
  lemma {:induction false} BracketSizeLeast(m: nat)
    ensures IsPow2(BracketSize(m)) && m <= BracketSize(m)
    ensures forall p: nat :: IsPow2(p) && m <= p ==> BracketSize(m) <= p
  {
    var size := BracketSize(m);
    SizeFromFacts(m, 1);
    forall p: nat | IsPow2(p) && m <= p ensures size <= p {
      if p < size {
        Pow2Below(p, size);
      }
    }
  }

  // ---------- Building the first round ----------

  /** `seeds.concat(Array(byes).fill(null))`. */
  function WithByes(seeds: seq<Team>, size: nat): (f: seq<Option<Team>>)
    requires |seeds| <= size
    ensures |f| == size
  {
    seq(size, p requires 0 <= p < size => if p < |seeds| then Some(seeds[p]) else None)
  }

  /** Entry i against entry |f|-1-i, for every i in the first half (rounded up). */
  function FirstVsLast<T>(f: seq<T>): (r: seq<(T, T)>)
    ensures |r| == (|f| + 1) / 2
  {
    seq((|f| + 1) / 2, i requires 0 <= i < (|f| + 1) / 2 => (f[i], f[|f| - 1 - i]))
  }

  /** The pairing loops of `makeBracket` and `simTournament`. */
  method PairUp<T>(f: seq<T>) returns (pairs: seq<(T, T)>)
    ensures pairs == FirstVsLast(f)
  {
    pairs := [];
    var i := 0;
    while 2 * i < |f|
      invariant 0 <= i <= (|f| + 1) / 2
      invariant pairs == FirstVsLast(f)[..i]
    {
      pairs := pairs + [(f[i], f[|f| - 1 - i])];
      i := i + 1;
    }
  }

  /** The bracket `makeBracket` returns: round 1 installed, nothing played. */
  function InitialBracket(seeds: seq<Team>): Bracket
  {
    BracketSizeLeast(|seeds|);
    Bracket(1, [FirstVsLast(WithByes(seeds, BracketSize(|seeds|)))], [], false, None)
  }

  /** `makeBracket`. */
  method MakeBracket(seeds: seq<Team>) returns (br: Bracket)
    ensures br == InitialBracket(seeds)
  {
    var size := 1;
    while size < |seeds|
      invariant size >= 1 && SizeFrom(|seeds|, size) == BracketSize(|seeds|)
      decreases |seeds| - size
    {
      size := size * 2;
    }
    BracketSizeLeast(|seeds|);
    var byes := size - |seeds|;
    var field := seq(|seeds|, i requires 0 <= i < |seeds| => Some(seeds[i])) + seq(byes, _ => None);
    assert field == WithByes(seeds, size);
    var pairs := PairUp(field);
    br := Bracket(1, [pairs], [], false, None);
  }

  /** Every pairing has a team in its first slot. */
  predicate FirstsPresent(pairs: seq<Pair>)
  {
    forall i :: 0 <= i < |pairs| ==> pairs[i].0.Some?
  }

  /**
   * The first round for m >= 2 seeds: size/2 pairings, seed i first against
   * the entry at size-1-i second, which is a bye exactly when size-1-i >= m.
   */
  lemma {:induction false} FirstRoundShape(seeds: seq<Team>)
    requires |seeds| >= 2
    ensures var size := BracketSize(|seeds|); var pairs := InitialBracket(seeds).rounds[0];
      IsPow2(size) && |seeds| <= size < 2 * |seeds| &&
      |pairs| == size / 2 && IsPow2(|pairs|) && FirstsPresent(pairs) &&
      (forall i :: 0 <= i < |pairs| ==> pairs[i].0 == Some(seeds[i])) &&
      (forall i :: 0 <= i < |pairs| ==> (pairs[i].1 == None <==> size - 1 - i >= |seeds|)) &&
      (forall i :: 0 <= i < |pairs| && size - 1 - i < |seeds| ==> pairs[i].1 == Some(seeds[size - 1 - i]))
  {
    var m := |seeds|;
    var size := BracketSize(m);
    BracketSizeLeast(m);
    SizeFromFacts(m, 1);
    assert size != 1;
    assert IsPow2(size / 2);
  }

  /** With distinct seeds, each seed sits in exactly one slot: the first slot of pairing k, or the second slot of pairing size-1-k. */
  lemma {:induction false} EachSeedOnce(seeds: seq<Team>, k: nat, i: nat)
    requires |seeds| >= 2 && Distinct(seeds) && k < |seeds|
    requires i < |InitialBracket(seeds).rounds[0]|
    ensures var size := BracketSize(|seeds|); var pairs := InitialBracket(seeds).rounds[0];
      (pairs[i].0 == Some(seeds[k]) <==> i == k) &&
      (pairs[i].1 == Some(seeds[k]) <==> i == size - 1 - k)
  {
    FirstRoundShape(seeds);
  }

  /** Every team of the first round is a seed: byes are the only padding. */
  lemma {:induction false} EntrantIsSeed(seeds: seq<Team>, t: Team)
    requires Entrant(InitialBracket(seeds).rounds[0], t)
    ensures t in seeds
  {
    var size := BracketSize(|seeds|);
    BracketSizeLeast(|seeds|);
    var f := WithByes(seeds, size);
    var pairs := InitialBracket(seeds).rounds[0];
    assert pairs == FirstVsLast(f);
    var i :| 0 <= i < |pairs| && (pairs[i].0 == Some(t) || pairs[i].1 == Some(t));
    var p := if pairs[i].0 == Some(t) then i else size - 1 - i;
    assert f[p] == Some(t);
  }

  // ---------- Playing a round ----------

  /** `x?.name || "BYE"`: an empty slot, or a team with an empty name, shows as BYE. */
  function NameOr(o: Option<Team>): string
  {
    if o.Some? && o.value.name != "" then o.value.name else "BYE"
  }

  /** One pairing: a neutral-court game when both slots are filled, otherwise the present team (if any) advances on a bye. */
  function PlayPair(p: Pair, d: GameDraw): (r: (MatchResult, Option<Team>))
    ensures r.1.Some? <==> p.0.Some? || p.1.Some?
    ensures r.1.Some? ==> r.1 == p.0 || r.1 == p.1
    ensures p.0.Some? && p.1.Some? ==>
              (r.0.score.Final? && r.0.score.a != r.0.score.b && r.1 == (if r.0.score.a > r.0.score.b then p.0 else p.1))
    ensures !(p.0.Some? && p.1.Some?) ==> r.0.score == NoScore && r.1 == (if p.0.Some? then p.0 else p.1)
  {
    if p.0.Some? && p.1.Some? then
      var res := SimNeutral(p.0.value, p.1.value, d);
      (MatchResult(p.0.value.name, p.1.value.name, Final(res.a, res.b), res.winner.name), Some(res.winner))
    else
      var w := if p.0.Some? then p.0 else p.1;
      (MatchResult(NameOr(p.0), NameOr(p.1), NoScore, NameOr(w)), w)
  }

  /** A round: its results, one per pairing, and the advancing teams in pairing order. */
  function RoundPlay(pairs: seq<Pair>, draw: nat -> GameDraw): (r: (seq<MatchResult>, seq<Team>))
    ensures |r.0| == |pairs| && |r.1| <= |pairs|
  {
    if pairs == [] then ([], [])
    else
      var n := |pairs| - 1;
      var prev := RoundPlay(pairs[..n], draw);
      var play := PlayPair(pairs[n], draw(n));
      (prev.0 + [play.0], prev.1 + (if play.1.Some? then [play.1.value] else []))
  }

  /** The loop over a round's pairings in `simTournament`. */
  method PlayRound(pairs: seq<Pair>, draw: nat -> GameDraw) returns (results: seq<MatchResult>, next: seq<Team>)
    ensures (results, next) == RoundPlay(pairs, draw)
  {
    results, next := [], [];
    for i := 0 to |pairs|
      invariant (results, next) == RoundPlay(pairs[..i], draw)
    {
      assert pairs[..i + 1][..i] == pairs[..i];
      var p := pairs[i];
      ghost var play := PlayPair(p, draw(i));
      ghost var results0, next0 := results, next;
      assert RoundPlay(pairs[..i + 1], draw) ==
             (results + [play.0], next + (if play.1.Some? then [play.1.value] else []));
      if p.0.Some? && p.1.Some? {
        var res := SimNeutral(p.0.value, p.1.value, draw(i));
        results := results + [MatchResult(p.0.value.name, p.1.value.name, Final(res.a, res.b), res.winner.name)];
        next := next + [res.winner];
        assert play.0 == MatchResult(p.0.value.name, p.1.value.name, Final(res.a, res.b), res.winner.name);
        assert play.1 == Some(res.winner);
      } else {
        var winner := if p.0.Some? then p.0 else p.1;
        results := results + [MatchResult(NameOr(p.0), NameOr(p.1), NoScore, NameOr(winner))];
        if winner.Some? {
          next := next + [winner.value];
        }
        assert play.1 == winner;
        assert play.0 == MatchResult(NameOr(p.0), NameOr(p.1), NoScore, NameOr(winner));
      }
      assert results == results0 + [play.0];
      assert next == next0 + (if play.1.Some? then [play.1.value] else []);
      assert (results, next) == RoundPlay(pairs[..i + 1], draw);
    }
    assert pairs[..|pairs|] == pairs;
  }

  /** Team t holds a slot of one of the pairings. */
  predicate Entrant(pairs: seq<Pair>, t: Team)
  {
    exists i :: 0 <= i < |pairs| && (pairs[i].0 == Some(t) || pairs[i].1 == Some(t))
  }

  /** When every pairing has a first team, every pairing sends exactly one team on, and that team is one of its two. */
  lemma {:induction false} RoundAdvances(pairs: seq<Pair>, draw: nat -> GameDraw)
    requires FirstsPresent(pairs)
    ensures |RoundPlay(pairs, draw).1| == |pairs|
    ensures forall i :: 0 <= i < |pairs| ==>
              Some(RoundPlay(pairs, draw).1[i]) == pairs[i].0 || Some(RoundPlay(pairs, draw).1[i]) == pairs[i].1
  {
    if pairs != [] {
      var n := |pairs| - 1;
      assert FirstsPresent(pairs[..n]);
      RoundAdvances(pairs[..n], draw);
    }
  }

  /** `nextSeeds.map(t => t)` as pairing slots. */
  function Somes(s: seq<Team>): (r: seq<Option<Team>>)
    ensures |r| == |s| && forall i :: 0 <= i < |s| ==> r[i] == Some(s[i])
  {
    seq(|s|, i requires 0 <= i < |s| => Some(s[i]))
  }

  // ---------- The tournament ----------

  /**
   * Round r was played as the rules say, with draws `draw(r)`: its results
   * are recorded, and either its winners are paired first against last into
   * the next round, or a single winner is the champion.
   */
  predicate RoundFollows(br: Bracket, r: nat, draw: nat -> nat -> GameDraw)
    requires r < |br.rounds| && r < |br.results|
  {
    var play := RoundPlay(br.rounds[r], draw(r));
    br.results[r] == play.0 &&
    if r + 1 < |br.rounds| then |play.1| != 1 && br.rounds[r + 1] == FirstVsLast(Somes(play.1))
    else |play.1| == 1 && br.complete && br.champion == Some(play.1[0].name)
  }

  /** The shape every bracket keeps: the current round is a power of two of pairings with no empty first slot. */
  predicate BracketOk(br: Bracket)
  {
    1 <= br.round == |br.rounds| &&
    |br.results| == (if br.complete then br.round else br.round - 1) &&
    (br.complete ==> br.champion.Some?) &&
    (!br.complete ==> IsPow2(|br.rounds[br.round - 1]|) && FirstsPresent(br.rounds[br.round - 1]))
  }

  /** A fresh bracket for at least two seeds has that shape. */
  lemma {:induction false} InitialBracketOk(seeds: seq<Team>)
    requires |seeds| >= 2
    ensures BracketOk(InitialBracket(seeds))
  {
    FirstRoundShape(seeds);
  }

  /**
   * `simTournament`'s loop: play the current round, record it, then either
   * crown the single winner or pair the winners into the next round.  From
   * a current round of N pairings it adds log2(N) rounds, and the champion
   * is one of the teams of that round.
   */
  method RunBracket(br0: Bracket, draw: nat -> nat -> GameDraw) returns (br: Bracket)
    requires BracketOk(br0)
    ensures BracketOk(br) && br.complete
    ensures br0.complete ==> br == br0
    ensures br0.rounds <= br.rounds && br0.results <= br.results
    ensures forall r :: |br0.results| <= r < |br.results| ==> RoundFollows(br, r, draw)
    ensures !br0.complete ==> |br.rounds| == |br0.rounds| + Log2(|br0.rounds[br0.round - 1]|)
    ensures !br0.complete ==> exists t :: Entrant(br0.rounds[br0.round - 1], t) && br.champion == Some(t.name)
  {
    br := br0;
    ghost var first := br0.rounds[br0.round - 1];
    while !br.complete
      invariant BracketOk(br)
      invariant br0.complete ==> br == br0
      invariant br0.rounds <= br.rounds && br0.results <= br.results
      invariant forall r :: |br0.results| <= r < |br.results| ==> RoundFollows(br, r, draw)
      invariant !br.complete ==>
                  |br.rounds| + Log2(|br.rounds[br.round - 1]|) == |br0.rounds| + Log2(|first|) &&
                  forall t :: Entrant(br.rounds[br.round - 1], t) ==> Entrant(first, t)
      invariant br.complete && !br0.complete ==>
                  |br.rounds| == |br0.rounds| + Log2(|first|) &&
                  exists t :: Entrant(first, t) && br.champion == Some(t.name)
      decreases if br.complete then 0 else |br.rounds[br.round - 1]| + 1
    {
      ghost var before := br;
      var current := br.rounds[br.round - 1];
      var results, next := PlayRound(current, draw(br.round - 1));
      RoundAdvances(current, draw(br.round - 1));
      br := br.(results := br.results + [results]);
      if |next| == 1 {
        br := br.(complete := true, champion := Some(next[0].name));
        ChampionEntrant(current, draw(br.round - 1), first);
        FollowsAfterFinal(before, br, draw, |br0.results|);
      } else {
        var nextPairs := PairUp(Somes(next));
        br := br.(round := br.round + 1, rounds := br.rounds + [nextPairs]);
        NextRoundShape(current, draw(before.round - 1), first);
        FollowsAfterRound(before, br, draw, |br0.results|);
      }
    }
  }

  /** The single winner of a round whose teams all come from `first` is a team of `first`. */
  lemma {:induction false} ChampionEntrant(current: seq<Pair>, d: nat -> GameDraw, first: seq<Pair>)
    requires FirstsPresent(current) && |RoundPlay(current, d).1| == 1
    requires forall t :: Entrant(current, t) ==> Entrant(first, t)
    ensures Entrant(first, RoundPlay(current, d).1[0])
  {
    RoundAdvances(current, d);
    assert Entrant(current, RoundPlay(current, d).1[0]);
  }

  /** A round of 2^k >= 2 pairings with no empty first slot leads to a round of 2^(k-1) such pairings, of the same teams. */
  lemma {:induction false} NextRoundShape(current: seq<Pair>, d: nat -> GameDraw, first: seq<Pair>)
    requires IsPow2(|current|) && FirstsPresent(current) && |RoundPlay(current, d).1| != 1
    requires forall t :: Entrant(current, t) ==> Entrant(first, t)
    ensures var next := FirstVsLast(Somes(RoundPlay(current, d).1));
      |next| * 2 == |current| && IsPow2(|next|) && FirstsPresent(next) &&
      Log2(|current|) == Log2(|next|) + 1 &&
      forall t :: Entrant(next, t) ==> Entrant(first, t)
  {
    RoundAdvances(current, d);
    var w := RoundPlay(current, d).1;
    var f := Somes(w);
    var next := FirstVsLast(f);
    HalveSize(|current|);
    forall i | 0 <= i < |next| ensures next[i].0.Some? {
      FirstVsLastAt(f, i);
    }
    forall t | Entrant(next, t) ensures Entrant(first, t) {
      var i :| 0 <= i < |next| && (next[i].0 == Some(t) || next[i].1 == Some(t));
      var j := FirstVsLastFrom(f, i, Some(t));
      assert Some(w[j]) == Some(t);
      assert current[j].0 == Some(t) || current[j].1 == Some(t);
    }
  }

  /** Pairing i of `FirstVsLast(f)` is entry i against entry |f|-1-i. */
  lemma {:induction false} FirstVsLastAt<T>(f: seq<T>, i: nat)
    requires i < (|f| + 1) / 2
    ensures |FirstVsLast(f)| == (|f| + 1) / 2 && FirstVsLast(f)[i] == (f[i], f[|f| - 1 - i])
  {
  }

  /** Both entries of a pairing of `FirstVsLast(f)` come from f. */
  lemma {:induction false} FirstVsLastFrom<T>(f: seq<T>, i: nat, x: T) returns (j: nat)
    requires i < |FirstVsLast(f)| && (FirstVsLast(f)[i].0 == x || FirstVsLast(f)[i].1 == x)
    ensures j < |f| && f[j] == x
  {
    FirstVsLastAt(f, i);
    j := if f[i] == x then i else |f| - 1 - i;
  }

  /** A power of two above 1 halves to a power of two, one step down in log2. */
  lemma {:induction false} HalveSize(n: nat)
    requires IsPow2(n) && n != 1
    ensures (n + 1) / 2 * 2 == n && IsPow2((n + 1) / 2) && Log2(n) == Log2((n + 1) / 2) + 1
  {
    assert n % 2 == 0 && (n + 1) / 2 == n / 2;
  }

  /** Recording a round that continues the tournament keeps every earlier round's record valid. */
  lemma {:induction false} FollowsAfterRound(before: Bracket, br: Bracket, draw: nat -> nat -> GameDraw, from: nat)
    requires BracketOk(before) && !before.complete
    requires forall r :: from <= r < |before.results| ==> RoundFollows(before, r, draw)
    requires var play := RoundPlay(before.rounds[before.round - 1], draw(before.round - 1));
      |play.1| != 1 &&
      br == before.(results := before.results + [play.0], round := before.round + 1,
                    rounds := before.rounds + [FirstVsLast(Somes(play.1))])
    ensures forall r :: from <= r < |br.results| ==> RoundFollows(br, r, draw)
  {
    forall r | from <= r < |br.results| ensures RoundFollows(br, r, draw) {
      assert br.rounds[r] == before.rounds[r];
      if r < |before.results| {
        assert RoundFollows(before, r, draw);
        assert br.results[r] == before.results[r];
        assert br.rounds[r + 1] == before.rounds[r + 1];
      }
    }
  }

  /** Recording the final round keeps every earlier round's record valid and records the champion. */
  lemma {:induction false} FollowsAfterFinal(before: Bracket, br: Bracket, draw: nat -> nat -> GameDraw, from: nat)
    requires BracketOk(before) && !before.complete
    requires forall r :: from <= r < |before.results| ==> RoundFollows(before, r, draw)
    requires var play := RoundPlay(before.rounds[before.round - 1], draw(before.round - 1));
      |play.1| == 1 &&
      br == before.(results := before.results + [play.0], complete := true, champion := Some(play.1[0].name))
    ensures forall r :: from <= r < |br.results| ==> RoundFollows(br, r, draw)
  {
    forall r | from <= r < |br.results| ensures RoundFollows(br, r, draw) {
      if r < |before.results| {
        assert RoundFollows(before, r, draw);
        assert br.results[r] == before.results[r];
      }
    }
  }
}
