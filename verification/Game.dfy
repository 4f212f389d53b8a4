/**
 Colored parity games: a game graph, its infinite plays, and what it means for
 a positional strategy to win.  Player 1 (owner `true`) is the controller and
 wins an infinite play when the largest color seen infinitely often is odd;
 player 0 (owner `false`) is the environment.  A player who is stuck loses.
 */
module Game {

  /** A valuation of the atomic propositions: input part and output part. */
  datatype Letter = Letter(inp: nat, out: nat)

  /** An outgoing edge of a colored automaton: exactly one acceptance mark. */
  datatype Edge = Edge(dst: nat, cond: set<Letter>, color: nat)

  /** Edge lists by source state, in creation order, and one owner per state. */
  datatype Game = Game(edges: seq<seq<Edge>>, owner: seq<bool>)

  /** The edge number `idx` of state `src`. */
  datatype Move = Move(src: nat, idx: nat)

  type Strategy = map<nat, nat>
  type Play = nat -> Move

  predicate WellFormed(g: Game) {
    && |g.owner| == |g.edges|
    && forall s, i :: 0 <= s < |g.edges| && 0 <= i < |g.edges[s]| ==> g.edges[s][i].dst < |g.edges|
  }

  predicate IsState(g: Game, s: nat) {
    s < |g.edges|
  }

  function States(g: Game): set<nat> {
    set s: nat | s < |g.edges| && IsState(g, s)
  }

  predicate Valid(g: Game, v: Move) {
    v.src < |g.edges| && v.idx < |g.edges[v.src]|
  }

  function Dst(g: Game, v: Move): nat
    requires Valid(g, v)
  {
    g.edges[v.src][v.idx].dst
  }

  function Color(g: Game, v: Move): nat
    requires Valid(g, v)
  {
    g.edges[v.src][v.idx].color
  }

  predicate Owned(g: Game, s: nat, p: bool) {
    s < |g.owner| && g.owner[s] == p
  }

  /** The parity player `p` wants to see as largest recurring color. */
  function Parity(p: bool): nat {
    if p then 1 else 0
  }

  // ----- subgames: the states of `region`, the edges colored at most `m`

  predicate InSub(g: Game, region: set<nat>, m: nat, v: Move) {
    Valid(g, v) && v.src in region && Dst(g, v) in region && Color(g, v) <= m
  }

  ghost predicate PlayIn(g: Game, region: set<nat>, m: nat, play: Play) {
    forall n: nat :: InSub(g, region, m, play(n)) && play(n + 1).src == Dst(g, play(n))
  }

  ghost predicate Follows(g: Game, p: bool, strat: Strategy, play: Play) {
    forall n: nat :: Owned(g, play(n).src, p) ==>
      play(n).src in strat && play(n).idx == strat[play(n).src]
  }

  /** Move `n` is an edge that leads to the source of the next move. */
  ghost predicate Continues(g: Game, play: Play, n: nat) {
    Valid(g, play(n)) && play(n + 1).src == Dst(g, play(n))
  }

  /** An infinite play of the whole game. */
  ghost predicate IsPlay(g: Game, play: Play) {
    (forall n: nat :: Continues(g, play, n)) && forall n: nat :: Valid(g, play(n))
  }

  // ----- the parity condition

  ghost predicate SeenFrom(g: Game, c: nat, play: Play, n: nat)
    requires forall n: nat :: Valid(g, play(n))
  {
    exists k: nat :: n <= k && Color(g, play(k)) == c
  }

  ghost predicate Recurs(g: Game, c: nat, play: Play)
    requires forall n: nat :: Valid(g, play(n))
  {
    forall n: nat :: SeenFrom(g, c, play, n)
  }

  ghost predicate BelowFrom(g: Game, c: nat, play: Play, n: nat)
    requires forall n: nat :: Valid(g, play(n))
  {
    forall k: nat :: n <= k ==> Color(g, play(k)) <= c
  }

  /** `c` is the largest color that `play` sees infinitely often. */
  ghost predicate Limit(g: Game, c: nat, play: Play)
    requires forall n: nat :: Valid(g, play(n))
  {
    Recurs(g, c, play) && exists n: nat :: BelowFrom(g, c, play, n)
  }

  /** Player `p` wins the infinite play. */
  ghost predicate Wins(g: Game, p: bool, play: Play)
    requires forall n: nat :: Valid(g, play(n))
  {
    exists c: nat :: Limit(g, c, play) && c % 2 == Parity(p)
  }

  /** The two players cannot both win. */
  lemma {:induction false} WinnerUnique(g: Game, play: Play)
    requires forall n: nat :: Valid(g, play(n))
    ensures !(Wins(g, false, play) && Wins(g, true, play))
  {
    if Wins(g, false, play) && Wins(g, true, play) {
      var c: nat :| Limit(g, c, play) && c % 2 == Parity(false);
      var d: nat :| Limit(g, d, play) && d % 2 == Parity(true);
      LimitUnique(g, c, d, play);
    }
  }

  lemma {:induction false} LimitUnique(g: Game, c: nat, d: nat, play: Play)
    requires forall n: nat :: Valid(g, play(n))
    requires Limit(g, c, play) && Limit(g, d, play)
    ensures c == d
  {
    LimitBelow(g, c, d, play);
    LimitBelow(g, d, c, play);
  }

  lemma {:induction false} LimitBelow(g: Game, c: nat, d: nat, play: Play)
    requires forall n: nat :: Valid(g, play(n))
    requires Limit(g, c, play) && Limit(g, d, play)
    ensures d <= c
  {
    var n: nat :| BelowFrom(g, c, play, n);
    assert SeenFrom(g, d, play, n);
  }

  // ----- suffixes

  ghost function Drop(play: Play, n: nat): Play {
    (k: nat) => play(n + k)
  }

  /** A play and its tail have the same largest recurring color. */
  lemma {:induction false} LimitOfTail(g: Game, c: nat, play: Play, n: nat)
    requires forall k: nat :: Valid(g, play(k))
    ensures forall k: nat :: Valid(g, Drop(play, n)(k))
    ensures Limit(g, c, Drop(play, n)) <==> Limit(g, c, play)
  {
    var tail := Drop(play, n);
    assert forall k: nat :: tail(k) == play(n + k);
    if Limit(g, c, tail) {
      LimitFromTail(g, c, play, n);
    }
    if Limit(g, c, play) {
      forall k: nat ensures SeenFrom(g, c, tail, k) {
        assert SeenFrom(g, c, play, n + k);
        var j: nat :| n + k <= j && Color(g, play(j)) == c;
        assert Color(g, tail(j - n)) == c;
      }
      var b: nat :| BelowFrom(g, c, play, b);
      assert BelowFrom(g, c, tail, b);
    }
  }

  lemma {:induction false} LimitFromTail(g: Game, c: nat, play: Play, n: nat)
    requires (forall k: nat :: Valid(g, play(k))) && (forall k: nat :: Valid(g, Drop(play, n)(k)))
    requires Limit(g, c, Drop(play, n))
    ensures Limit(g, c, play)
  {
    var tail := Drop(play, n);
    var b: nat :| BelowFrom(g, c, tail, b);
    forall k: nat ensures SeenFrom(g, c, play, k) {
      assert SeenFrom(g, c, tail, k);
      var j: nat :| k <= j && Color(g, tail(j)) == c;
      assert Color(g, play(n + j)) == c;
    }
    forall k: nat | n + b <= k ensures Color(g, play(k)) <= c {
      assert tail(k - n) == play(k);
      assert Color(g, tail(k - n)) <= c;
    }
    assert BelowFrom(g, c, play, n + b);
  }

  /** The parity condition only looks at the tail of a play. */
  lemma {:induction false} WinsFromSuffix(g: Game, p: bool, play: Play, n: nat)
    requires forall k: nat :: Valid(g, play(k))
    ensures forall k: nat :: Valid(g, Drop(play, n)(k))
    ensures Wins(g, p, Drop(play, n)) <==> Wins(g, p, play)
  {
    forall c: nat
      ensures forall k: nat :: Valid(g, Drop(play, n)(k))
      ensures Limit(g, c, Drop(play, n)) <==> Limit(g, c, play)
    {
      LimitOfTail(g, c, play, n);
    }
  }

  lemma {:induction false} DropPlay(g: Game, region: set<nat>, m: nat, play: Play, n: nat)
    requires PlayIn(g, region, m, play)
    ensures PlayIn(g, region, m, Drop(play, n))
  {
    var tail := Drop(play, n);
    forall k: nat
      ensures InSub(g, region, m, tail(k)) && tail(k + 1).src == Dst(g, tail(k))
    {
      assert tail(k) == play(n + k);
      assert tail(k + 1) == play((n + k) + 1);
    }
  }

  lemma {:induction false} DropFollows(g: Game, p: bool, strat: Strategy, play: Play, n: nat)
    requires Follows(g, p, strat, play)
    ensures Follows(g, p, strat, Drop(play, n))
  {
    var tail := Drop(play, n);
    assert forall k: nat :: tail(k) == play(n + k);
  }

  // ----- winning strategies

  /** Every edge of the subgame that `p`'s opponent may take from `area` stays in
      `area`, and `strat` keeps `p` in `area` (so `p` is never stuck there). */
  ghost predicate Traps(g: Game, region: set<nat>, m: nat, p: bool, area: set<nat>, strat: Strategy) {
    && area <= region
    && (forall s: nat {:trigger Owned(g, s, p)} :: s in area && Owned(g, s, p) ==>
          s in strat && InSub(g, region, m, Move(s, strat[s])) && Dst(g, Move(s, strat[s])) in area)
    && (forall s: nat, i: nat {:trigger InSub(g, region, m, Move(s, i))} ::
          s in area && !Owned(g, s, p) && InSub(g, region, m, Move(s, i)) ==> Dst(g, Move(s, i)) in area)
  }

  ghost predicate WinsPlays(g: Game, region: set<nat>, m: nat, p: bool, area: set<nat>, strat: Strategy) {
    forall play: Play ::
      PlayIn(g, region, m, play) && Follows(g, p, strat, play) && play(0).src in area ==> Wins(g, p, play)
  }

  /** `strat` is a winning positional strategy of `p` from every state of `area`. */
  ghost predicate Winning(g: Game, region: set<nat>, m: nat, p: bool, area: set<nat>, strat: Strategy) {
    Traps(g, region, m, p, area, strat) && WinsPlays(g, region, m, p, area, strat)
  }

  /** A play that follows a trapping strategy never leaves the trap. */
  lemma {:induction false} StaysTrapped(g: Game, region: set<nat>, m: nat, p: bool, area: set<nat>,
                                        strat: Strategy, play: Play, from: nat, n: nat)
    requires Traps(g, region, m, p, area, strat)
    requires PlayIn(g, region, m, play) && Follows(g, p, strat, play)
    requires from <= n && play(from).src in area
    ensures play(n).src in area
    decreases n - from
  {
    if from < n {
      var v := play(from);
      assert InSub(g, region, m, v) && v == Move(v.src, v.idx);
      assert play(from + 1).src == Dst(g, v);
      StaysTrapped(g, region, m, p, area, strat, play, from + 1, n);
    }
  }

  // ----- both strategies at once

  ghost function JointState(g: Game, env: Strategy, con: Strategy, s: nat, n: nat): nat
    decreases n
  {
    if n == 0 then s
    else
      var v := JointMove(g, env, con, JointState(g, env, con, s, n - 1));
      if Valid(g, v) then Dst(g, v) else s
  }

  ghost function JointMove(g: Game, env: Strategy, con: Strategy, s: nat): Move {
    var strat := if Owned(g, s, true) then con else env;
    Move(s, if s in strat then strat[s] else 0)
  }

  lemma {:induction false} JointStays(g: Game, region: set<nat>, m: nat, area: set<nat>, area': set<nat>,
                                      env: Strategy, con: Strategy, s: nat, n: nat)
    requires WellFormed(g) && region <= States(g)
    requires Traps(g, region, m, false, area, env) && Traps(g, region, m, true, area', con)
    requires s in area * area'
    ensures var t := JointState(g, env, con, s, n);
            t in area * area' && InSub(g, region, m, JointMove(g, env, con, t))
            && JointState(g, env, con, s, n + 1) == Dst(g, JointMove(g, env, con, t))
  {
    if n > 0 {
      JointStays(g, region, m, area, area', env, con, s, n - 1);
    }
    var t := JointState(g, env, con, s, n);
    assert IsState(g, t);
    assert Owned(g, t, true) <==> !Owned(g, t, false);
  }

  /** The play the two strategies produce together from `s`. */
  lemma {:induction false} JointPlay(g: Game, region: set<nat>, m: nat, area: set<nat>, area': set<nat>,
                                     env: Strategy, con: Strategy, s: nat)
    returns (play: Play)
    requires WellFormed(g) && region <= States(g)
    requires Traps(g, region, m, false, area, env) && Traps(g, region, m, true, area', con)
    requires s in area * area'
    ensures PlayIn(g, region, m, play) && play(0).src == s
    ensures Follows(g, false, env, play) && Follows(g, true, con, play)
  {
    play := (n: nat) => JointMove(g, env, con, JointState(g, env, con, s, n));
    forall n: nat
      ensures InSub(g, region, m, play(n)) && play(n + 1).src == Dst(g, play(n))
      ensures play(n).src in area * area'
    {
      JointStays(g, region, m, area, area', env, con, s, n);
    }
  }

  /** No state is won by both players. */
  lemma {:induction false} WinningExclusive(g: Game, region: set<nat>, m: nat, area: set<nat>, area': set<nat>,
                                            env: Strategy, con: Strategy)
    requires WellFormed(g) && region <= States(g)
    requires Winning(g, region, m, false, area, env) && Winning(g, region, m, true, area', con)
    ensures area !! area'
  {
    forall s | s in area && s in area' ensures false {
      var play := JointPlay(g, region, m, area, area', env, con, s);
      WinnerUnique(g, play);
    }
  }
}
