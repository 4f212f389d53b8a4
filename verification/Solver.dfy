/**
 The recursive parity-game solver.  Two players, two recursive calls: one with
 the largest color removed, one with the opponent's attractor removed.
 */
module Solver {
  import opened Game
  import opened Attractor
  import opened Wrappers

  /** One value per player: environment (`false`) and controller (`true`). */
  datatype Sides<T> = Sides(env: T, con: T) {
    function At(p: bool): T {
      if p then con else env
    }
  }

  function Pair<T>(p: bool, mine: T, other: T): Sides<T> {
    if p then Sides(other, mine) else Sides(mine, other)
  }

  /** An environment state without any edge in the subgame. */
  ghost predicate EnvStuck(g: Game, region: set<nat>, m: nat, s: nat) {
    s in region && Owned(g, s, false) && forall i: nat :: !InSub(g, region, m, Move(s, i))
  }

  ghost predicate NoEnvStuck(g: Game, region: set<nat>, m: nat) {
    forall s: nat :: s in region ==> !EnvStuck(g, region, m, s)
  }

  /** The subgame is split between the players, each with a winning positional strategy on its part. */
  ghost predicate Solved(g: Game, region: set<nat>, m: nat, w: Sides<set<nat>>, s: Sides<Strategy>) {
    && w.env + w.con == region && w.env !! w.con
    && s.env.Keys <= w.env && s.con.Keys <= w.con
    && Winning(g, region, m, false, w.env, s.env)
    && Winning(g, region, m, true, w.con, s.con)
  }

  // ----- moving winning strategies between subgames

  ghost predicate Agree(g: Game, p: bool, area: set<nat>, strat: Strategy, strat': Strategy) {
    forall s: nat :: s in area && Owned(g, s, p) && s in strat ==> s in strat' && strat'[s] == strat[s]
  }

  /** Only the choices inside the area matter. */
  lemma {:induction false} WinningAgrees(g: Game, region: set<nat>, m: nat, p: bool, area: set<nat>,
                                         strat: Strategy, strat': Strategy)
    requires Winning(g, region, m, p, area, strat) && Agree(g, p, area, strat, strat')
    ensures Winning(g, region, m, p, area, strat')
  {
    assert Traps(g, region, m, p, area, strat');
    forall play: Play | PlayIn(g, region, m, play) && Follows(g, p, strat', play) && play(0).src in area
      ensures Wins(g, p, play)
    {
      forall n: nat ensures play(n).src in area {
        StaysTrapped(g, region, m, p, area, strat', play, 0, n);
      }
      assert Follows(g, p, strat, play);
    }
  }

  /** Every edge the opponent of `p` has in the larger subgame it also has in the smaller one. */
  ghost predicate NoNewEscape(g: Game, region: set<nat>, m: nat, p: bool, area: set<nat>, rest: set<nat>, m': nat) {
    forall s: nat, i: nat :: s in area && !Owned(g, s, p) && InSub(g, region, m, Move(s, i)) ==>
      InSub(g, rest, m', Move(s, i))
  }

  /** A win in a smaller subgame is a win in the larger one if the opponent gains no edge. */
  lemma {:induction false} WinningLifts(g: Game, region: set<nat>, m: nat, p: bool, area: set<nat>,
                                        strat: Strategy, rest: set<nat>, m': nat)
    requires rest <= region && m' <= m
    requires Winning(g, rest, m', p, area, strat) && NoNewEscape(g, region, m, p, area, rest, m')
    ensures Winning(g, region, m, p, area, strat)
  {
    assert Traps(g, region, m, p, area, strat);
    forall play: Play | PlayIn(g, region, m, play) && Follows(g, p, strat, play) && play(0).src in area
      ensures Wins(g, p, play)
    {
      forall n: nat
        ensures InSub(g, rest, m', play(n)) && play(n + 1).src == Dst(g, play(n))
      {
        StaysTrapped(g, region, m, p, area, strat, play, 0, n);
        var v := play(n);
        assert InSub(g, region, m, v) && v == Move(v.src, v.idx);
      }
      assert PlayIn(g, rest, m', play);
    }
  }

  /** Outside `p`'s attractor, every edge of `p` avoids the attractor (and the largest color). */
  lemma {:induction false} SaturatedEscape(g: Game, region: set<nat>, m: nat, p: bool, attrMax: bool,
                                           u: set<nat>, area: set<nat>)
    requires WellFormed(g) && region <= States(g) && u <= region && area <= region - u
    requires Saturated(g, region, m, p, attrMax, u)
    ensures attrMax && m > 0 ==> NoNewEscape(g, region, m, !p, area, region - u, m - 1)
    ensures NoNewEscape(g, region, m, !p, area, region - u, m)
  {
    forall s: nat, i: nat | s in area && !Owned(g, s, !p) && InSub(g, region, m, Move(s, i))
      ensures !Hit(g, m, attrMax, u, Move(s, i))
    {
      assert IsState(g, s);
      assert !Forced(g, region, m, p, attrMax, u, s);
    }
  }

  // ----- the three ways winning regions are put together

  /** A play without the largest color from some point on leaves its attractor for good. */
  lemma {:induction false} LeavesAttractor(g: Game, region: set<nat>, m: nat, p: bool, u: set<nat>, attractor: Strategy,
                        rank: map<nat, nat>, strat: Strategy, play: Play, n: nat)
    requires Attracts(g, region, {}, m, p, true, u, attractor, rank)
    requires PlayIn(g, region, m, play) && Follows(g, p, strat, play)
    requires forall s: nat :: s in attractor ==> s in strat && strat[s] == attractor[s]
    requires !SeenFrom(g, m, play, n)
    ensures m > 0 ==> PlayIn(g, region - u, m - 1, Drop(play, n))
    ensures m > 0
  {
    assert Color(g, play(n)) != m by { assert InSub(g, region, m, play(n)); }
    var tail := Drop(play, n);
    forall k: nat
      ensures InSub(g, region - u, m - 1, tail(k)) && tail(k + 1).src == Dst(g, tail(k))
    {
      assert tail(k) == play(n + k) && tail(k + 1) == play((n + k) + 1);
      assert InSub(g, region, m, play(n + k)) && InSub(g, region, m, play((n + k) + 1));
      forall j: nat | n <= j ensures play(j).src !in u {
        if play(j).src in u {
          var i := AttractedHits(g, region, {}, m, p, true, u, attractor, rank, strat, play, j);
        }
      }
    }
  }

  /** If `p` wins all of the rest, it wins everything: the largest color recurs or the play ends in the rest. */
  lemma {:induction false} WinsEverything(g: Game, region: set<nat>, m: nat, u: set<nat>, attractor: Strategy,
                                          rank: map<nat, nat>, strat: Strategy)
    requires m > 0
    requires Attracts(g, region, {}, m, m % 2 == 1, true, u, attractor, rank)
    requires Winning(g, region - u, m - 1, m % 2 == 1, region - u, strat) && strat.Keys <= region - u
    ensures Winning(g, region, m, m % 2 == 1, region, strat + attractor)
  {
    var p, both := m % 2 == 1, strat + attractor;
    WinningAgrees(g, region - u, m - 1, p, region - u, strat, both);
    EverythingTraps(g, region, m, p, u, attractor, rank, both);
    forall play: Play | PlayIn(g, region, m, play) && Follows(g, p, both, play)
      ensures Wins(g, p, play)
    {
      if n: nat :| !SeenFrom(g, m, play, n) {
        WinsRest(g, region, m, u, attractor, rank, both, play, n);
      } else {
        LargestRecurs(g, region, m, play);
      }
    }
  }

  lemma {:induction false} EverythingTraps(g: Game, region: set<nat>, m: nat, p: bool, u: set<nat>, attractor: Strategy,
                        rank: map<nat, nat>, both: Strategy)
    requires m > 0
    requires Attracts(g, region, {}, m, p, true, u, attractor, rank)
    requires forall s: nat :: s in attractor ==> s in both && both[s] == attractor[s]
    requires Traps(g, region - u, m - 1, p, region - u, both)
    ensures Traps(g, region, m, p, region, both)
  {
    forall s: nat | s in region && Owned(g, s, p)
      ensures s in both && InSub(g, region, m, Move(s, both[s]))
    {
      if s in u {
        assert s in attractor && InSub(g, region, m, Move(s, attractor[s]));
      } else {
        assert InSub(g, region - u, m - 1, Move(s, both[s]));
      }
    }
  }

  lemma {:induction false} LargestRecurs(g: Game, region: set<nat>, m: nat, play: Play)
    requires PlayIn(g, region, m, play)
    requires forall n: nat :: SeenFrom(g, m, play, n)
    ensures Wins(g, m % 2 == 1, play)
  {
    forall n: nat ensures Color(g, play(n)) <= m {
      assert InSub(g, region, m, play(n));
    }
    assert BelowFrom(g, m, play, 0);
    assert Limit(g, m, play);
  }

  lemma {:induction false} WinsRest(g: Game, region: set<nat>, m: nat, u: set<nat>, attractor: Strategy,
                                    rank: map<nat, nat>, both: Strategy, play: Play, n: nat)
    requires m > 0
    requires Attracts(g, region, {}, m, m % 2 == 1, true, u, attractor, rank)
    requires forall s: nat :: s in attractor ==> s in both && both[s] == attractor[s]
    requires WinsPlays(g, region - u, m - 1, m % 2 == 1, region - u, both)
    requires PlayIn(g, region, m, play) && Follows(g, m % 2 == 1, both, play)
    requires !SeenFrom(g, m, play, n)
    ensures Wins(g, m % 2 == 1, play)
  {
    var p := m % 2 == 1;
    LeavesAttractor(g, region, m, p, u, attractor, rank, both, play, n);
    DropFollows(g, p, both, play, n);
    assert InSub(g, region - u, m - 1, Drop(play, n)(0));
    WinsFromSuffix(g, p, play, n);
  }

  /** What `q` wins, everything attracted to it, and what it wins once that is removed. */
  lemma {:induction false} WinsAttracted(g: Game, region: set<nat>, m: nat, q: bool, core: set<nat>, strat0: Strategy,
                      attracted: set<nat>, attractor: Strategy, rank: map<nat, nat>,
                      outer: set<nat>, strat1: Strategy)
    requires WellFormed(g) && region <= States(g)
    requires Winning(g, region, m, q, core, strat0) && strat0.Keys <= core
    requires Attracts(g, region, core, m, q, false, attracted, attractor, rank)
    requires Winning(g, region - attracted, m, q, outer, strat1) && strat1.Keys <= outer
    ensures Winning(g, region, m, q, attracted + outer, strat1 + strat0 + attractor)
  {
    var all := strat1 + strat0 + attractor;
    WinningAgrees(g, region, m, q, core, strat0, all);
    WinningAgrees(g, region - attracted, m, q, outer, strat1, all);
    AttractedTraps(g, region, m, q, core, attracted, attractor, rank, outer, all);
    forall play: Play | PlayIn(g, region, m, play) && Follows(g, q, all, play) && play(0).src in attracted + outer
      ensures Wins(g, q, play)
    {
      if n: nat :| play(n).src in attracted {
        var k := AttractedHits(g, region, core, m, q, false, attracted, attractor, rank, all, play, n);
        DropPlay(g, region, m, play, k);
        DropFollows(g, q, all, play, k);
        assert Drop(play, k)(0).src in core;
        WinsFromSuffix(g, q, play, k);
      } else {
        forall n: nat
          ensures InSub(g, region - attracted, m, play(n)) && play(n + 1).src == Dst(g, play(n))
        {
          assert InSub(g, region, m, play(n)) && InSub(g, region, m, play(n + 1));
        }
        assert PlayIn(g, region - attracted, m, play);
      }
    }
  }

  lemma {:induction false} AttractedTraps(g: Game, region: set<nat>, m: nat, q: bool, core: set<nat>,
                       attracted: set<nat>, attractor: Strategy, rank: map<nat, nat>,
                       outer: set<nat>, all: Strategy)
    requires Traps(g, region, m, q, core, all)
    requires Attracts(g, region, core, m, q, false, attracted, attractor, rank)
    requires forall s: nat :: s in attractor ==> s in all && all[s] == attractor[s]
    requires Traps(g, region - attracted, m, q, outer, all)
    ensures Traps(g, region, m, q, attracted + outer, all)
  {
    forall s: nat, i: nat | s in attracted + outer && !Owned(g, s, q) && InSub(g, region, m, Move(s, i))
      ensures Dst(g, Move(s, i)) in attracted + outer
    {
      if s in outer && Dst(g, Move(s, i)) !in attracted {
        assert InSub(g, region - attracted, m, Move(s, i));
      } else if s in rank {
        assert Nearer(g, m, false, core, rank, rank[s], Move(s, i));
      }
    }
    forall s: nat | s in attracted + outer && Owned(g, s, q)
      ensures s in all && InSub(g, region, m, Move(s, all[s])) && Dst(g, Move(s, all[s])) in attracted + outer
    {
      if s in rank {
        assert s in attractor;
        assert Nearer(g, m, false, core, rank, rank[s], Move(s, all[s]));
      }
    }
  }

  // ----- the base case

  /** With color 0 only, the environment gets every state except its stuck ones, whatever the controller can force. */
  lemma {:induction false} BaseRegion(g: Game, region: set<nat>, u: set<nat>, attractor: Strategy, rank: map<nat, nat>)
    requires WellFormed(g) && region <= States(g)
    requires Attracts(g, region, {}, 0, false, true, u, attractor, rank) && Saturated(g, region, 0, false, true, u)
    ensures forall s: nat :: s in u <==> s in region && !EnvStuck(g, region, 0, s)
  {
    forall s: nat | s in region ensures s in u <==> !EnvStuck(g, region, 0, s) {
      assert s in attractor <==> s in u && Owned(g, s, false);
      assert s !in u ==> !Forced(g, region, 0, false, true, u, s);
      assert forall i: nat :: InSub(g, region, 0, Move(s, i)) ==> Hit(g, 0, true, u, Move(s, i));
    }
  }

  lemma {:induction false} BaseCase(g: Game, region: set<nat>, u: set<nat>, attractor: Strategy, rank: map<nat, nat>)
    requires WellFormed(g) && region <= States(g)
    requires Attracts(g, region, {}, 0, false, true, u, attractor, rank) && Saturated(g, region, 0, false, true, u)
    ensures EnvTakesUnstuck(g, region, Sides(u, {}), Sides(attractor, map[]))
    ensures NoEnvStuck(g, region, 0) ==> Solved(g, region, 0, Sides(u, {}), Sides(attractor, map[]))
  {
    BaseRegion(g, region, u, attractor, rank);
    if NoEnvStuck(g, region, 0) {
      assert u == region;
      BaseWinning(g, region, attractor, rank);
    }
  }

  lemma {:induction false} BaseWinning(g: Game, region: set<nat>, attractor: Strategy, rank: map<nat, nat>)
    requires Attracts(g, region, {}, 0, false, true, region, attractor, rank)
    ensures Winning(g, region, 0, false, region, attractor)
  {
    forall s: nat | s in region && Owned(g, s, false)
      ensures s in attractor && InSub(g, region, 0, Move(s, attractor[s]))
    {
      assert s in attractor;
    }
    forall play: Play | PlayIn(g, region, 0, play) ensures Wins(g, false, play) {
      AllZero(g, region, play);
    }
  }

  lemma {:induction false} AllZero(g: Game, region: set<nat>, play: Play)
    requires PlayIn(g, region, 0, play)
    ensures Wins(g, false, play)
  {
    forall n: nat ensures Color(g, play(n)) == 0 {
      assert InSub(g, region, 0, play(n));
    }
    forall n: nat ensures SeenFrom(g, 0, play, n) {
      assert n <= n && Color(g, play(n)) == 0;
    }
    assert BelowFrom(g, 0, play, 0);
    assert Limit(g, 0, play);
  }

  /** Below color 1 the environment is never stuck: the controller has attracted all its stuck states. */
  lemma {:induction false} StuckAttracted(g: Game, region: set<nat>, u: set<nat>)
    requires WellFormed(g) && region <= States(g) && u <= region
    requires Saturated(g, region, 1, true, true, u)
    ensures NoEnvStuck(g, region - u, 0)
  {
    forall s: nat | s in region - u && Owned(g, s, false)
      ensures exists i: nat :: InSub(g, region - u, 0, Move(s, i))
    {
      assert !Forced(g, region, 1, true, true, u, s);
      var i: nat :| InSub(g, region, 1, Move(s, i)) && !Hit(g, 1, true, u, Move(s, i));
      assert InSub(g, region - u, 0, Move(s, i));
    }
  }

  lemma {:induction false} SubsetSize(a: set<nat>, b: set<nat>)
    requires a <= b
    ensures |a| <= |b|
    ensures |a| == |b| ==> a == b
  {
    assert b == a + (b - a);
    assert |b| == |a| + |b - a|;
  }

  /** Neither part of the second recursive call is enough: put both calls together. */
  lemma {:induction false} Recombine(g: Game, region: set<nat>, m: nat, p: bool, core: set<nat>, strat0: Strategy,
                  attracted: set<nat>, attractor: Strategy, rank: map<nat, nat>,
                  w1: Sides<set<nat>>, s1: Sides<Strategy>)
    requires WellFormed(g) && region <= States(g)
    requires Winning(g, region, m, !p, core, strat0) && strat0.Keys <= core
    requires Attracts(g, region, core, m, !p, false, attracted, attractor, rank)
    requires Saturated(g, region, m, !p, false, attracted)
    requires Solved(g, region - attracted, m, w1, s1)
    ensures Solved(g, region, m, Pair(p, w1.At(p), w1.At(!p) + attracted),
                   Pair(p, s1.At(p), s1.At(!p) + strat0 + attractor))
  {
    var mine, other := w1.At(p), w1.At(!p) + attracted;
    assert Winning(g, region, m, !p, other, s1.At(!p) + strat0 + attractor) by {
      WinsAttracted(g, region, m, !p, core, strat0, attracted, attractor, rank, w1.At(!p), s1.At(!p));
      assert other == attracted + w1.At(!p);
    }
    assert Winning(g, region, m, p, mine, s1.At(p)) by {
      SaturatedEscape(g, region, m, !p, false, attracted, mine);
      WinningLifts(g, region, m, p, mine, s1.At(p), region - attracted, m);
    }
  }

  lemma {:induction false} SolvedSize(g: Game, region: set<nat>, m: nat, w: Sides<set<nat>>, s: Sides<Strategy>)
    requires Solved(g, region, m, w, s)
    ensures |w.env| + |w.con| == |region|
  {
    assert |w.env + w.con| == |w.env| + |w.con|;
  }

  lemma {:induction false} EmptySolved(g: Game, m: nat)
    ensures Solved(g, {}, m, Sides({}, {}), Sides(map[], map[])) && NoEnvStuck(g, {}, m)
  {
  }

  /** The first call leaves the opponent nothing exactly when the sizes add up. */
  lemma {:induction false} FirstCallSizes(region: set<nat>, u: set<nat>, p: bool, w0: Sides<set<nat>>)
    requires u <= region && w0.env + w0.con == region - u && w0.env !! w0.con
    ensures |w0.At(p)| + |u| == |region| <==> w0.At(p) == region - u
    ensures w0.At(p) != region - u ==> w0.At(!p) != {}
  {
    assert |w0.At(p) + u| == |w0.At(p)| + |u|;
    SubsetSize(w0.At(p) + u, region);
    assert w0.At(p) + w0.At(!p) == region - u;
  }

  lemma {:induction false} FirstCallWins(g: Game, region: set<nat>, m: nat, u: set<nat>, attractor: Strategy,
                                         rank: map<nat, nat>, w0: Sides<set<nat>>, s0: Sides<Strategy>)
    requires m > 0
    requires Attracts(g, region, {}, m, m % 2 == 1, true, u, attractor, rank)
    requires Solved(g, region - u, m - 1, w0, s0) && w0.At(m % 2 == 1) == region - u
    ensures Solved(g, region, m, Pair(m % 2 == 1, region, {}), Pair(m % 2 == 1, s0.At(m % 2 == 1) + attractor, map[]))
  {
    var p := m % 2 == 1;
    var strat := s0.At(p) + attractor;
    assert Winning(g, region, m, p, region, strat) by {
      WinsEverything(g, region, m, u, attractor, rank, s0.At(p));
    }
  }

  /** What the opponent wins without the largest color, it wins. */
  lemma {:induction false} FirstCallLifts(g: Game, region: set<nat>, m: nat, p: bool, u: set<nat>,
                                          area: set<nat>, strat: Strategy)
    requires WellFormed(g) && region <= States(g) && u <= region && m > 0
    requires Saturated(g, region, m, p, true, u)
    requires Winning(g, region - u, m - 1, !p, area, strat)
    ensures Winning(g, region, m, !p, area, strat)
  {
    SaturatedEscape(g, region, m, p, true, u, area);
    WinningLifts(g, region, m, !p, area, strat, region - u, m - 1);
  }

  /** With color 0 only, everything but the environment's stuck states goes to the environment. */
  ghost predicate EnvTakesUnstuck(g: Game, region: set<nat>, w: Sides<set<nat>>, s: Sides<Strategy>) {
    && w.con == {} && s.con == map[] && s.env.Keys <= w.env
    && (forall t: nat :: t in w.env <==> t in region && !EnvStuck(g, region, 0, t))
    && (forall t: nat :: t in w.env && Owned(g, t, false) ==>
          t in s.env && InSub(g, region, 0, Move(t, s.env[t])))
  }

  /** So that degenerate answer is a solution exactly when the environment is never stuck. */
  lemma {:induction false} DegenerateAnswer(g: Game, region: set<nat>, w: Sides<set<nat>>, s: Sides<Strategy>)
    requires EnvTakesUnstuck(g, region, w, s)
    ensures Solved(g, region, 0, w, s) <==> NoEnvStuck(g, region, 0)
  {
    assert w.env + w.con == w.env;
    if NoEnvStuck(g, region, 0) {
      assert w.env == region;
      forall play: Play | PlayIn(g, region, 0, play) ensures Wins(g, false, play) {
        AllZero(g, region, play);
      }
    }
  }

  /** Two states of the environment: one loops on color 0, the other is stuck. */
  function StuckGame(): Game {
    Game([[Edge(0, {}, 0)], []], [false, false])
  }

  /** There the stuck state is given to nobody, and the answer is no solution. */
  lemma {:induction false} StuckGameUnsolved(w: Sides<set<nat>>, s: Sides<Strategy>)
    requires EnvTakesUnstuck(StuckGame(), States(StuckGame()), w, s)
    ensures WellFormed(StuckGame()) && IsMaxColor(StuckGame(), 0) && IsState(StuckGame(), 1)
    ensures 1 !in w.env && 1 !in w.con && !Solved(StuckGame(), States(StuckGame()), 0, w, s)
  {
    var g := StuckGame();
    assert Valid(g, Move(0, 0)) && IsState(g, 1);
    assert forall i: nat :: !Valid(g, Move(1, i));
    assert EnvStuck(g, States(g), 0, 1);
    DegenerateAnswer(g, States(g), w, s);
  }

  /** After the first recursive call either its player has won everything, or the opponent has won something. */
  lemma {:induction false} FirstCallOutcome(g: Game, region: set<nat>, m: nat, u: set<nat>, attractor: Strategy,
                                            rank: map<nat, nat>, w0: Sides<set<nat>>, s0: Sides<Strategy>)
    requires WellFormed(g) && region <= States(g) && m > 0
    requires Attracts(g, region, {}, m, m % 2 == 1, true, u, attractor, rank)
    requires Saturated(g, region, m, m % 2 == 1, true, u)
    requires Solved(g, region - u, m - 1, w0, s0)
    ensures |w0.env| + |w0.con| == |region - u|
    ensures var p := m % 2 == 1;
            if |w0.At(p)| + |u| == |region|
            then Solved(g, region, m, Pair(p, region, {}), Pair(p, s0.At(p) + attractor, map[]))
            else w0.At(!p) != {} && s0.At(!p).Keys <= w0.At(!p) && Winning(g, region, m, !p, w0.At(!p), s0.At(!p))
  {
    var p := m % 2 == 1;
    SolvedSize(g, region - u, m - 1, w0, s0);
    FirstCallSizes(region, u, p, w0);
    if w0.At(p) == region - u {
      FirstCallWins(g, region, m, u, attractor, rank, w0, s0);
    } else {
      FirstCallLifts(g, region, m, p, u, w0.At(!p), s0.At(!p));
    }
  }

  /** Solves the subgame made of the states `subgame` and the colors up to `m`.  The size
      checks never throw, and the answer is a solution unless `m` is 0 and the environment can be stuck. */
  method SolveRec(g: Game, subgame: set<nat>, m: nat)
    returns (w: Sides<set<nat>>, s: Sides<Strategy>)
    requires WellFormed(g) && subgame <= States(g)
    ensures m > 0 || NoEnvStuck(g, subgame, m) ==> Solved(g, subgame, m, w, s)
    ensures m == 0 ==> EnvTakesUnstuck(g, subgame, w, s)
    decreases m, |subgame|, 2
  {
    if subgame == {} {
      EmptySolved(g, m);
      return Sides({}, {}), Sides(map[], map[]);
    }
    var p := m % 2 == 1;
    var u, stratU, rankU := Attract(g, subgame, {}, m, p, true);
    if m == 0 {
      BaseCase(g, subgame, u, stratU, rankU);
      return Pair(p, u, {}), Pair(p, stratU, map[]);
    }
    w, s := SolveBelow(g, subgame, m, u, stratU, rankU);
  }

  /** The first recursive call: removes the attractor `u` of color `m` and that color. */
  method SolveBelow(g: Game, subgame: set<nat>, m: nat, u: set<nat>, stratU: Strategy, ghost rankU: map<nat, nat>)
    returns (w: Sides<set<nat>>, s: Sides<Strategy>)
    requires WellFormed(g) && subgame <= States(g) && m > 0
    requires Attracts(g, subgame, {}, m, m % 2 == 1, true, u, stratU, rankU)
    requires Saturated(g, subgame, m, m % 2 == 1, true, u)
    ensures Solved(g, subgame, m, w, s)
    decreases m, |subgame|, 1
  {
    var p := m % 2 == 1;
    var sub := subgame - u;
    if m == 1 {
      StuckAttracted(g, subgame, u);
    }
    var w0, s0 := SolveRec(g, sub, m - 1);
    FirstCallOutcome(g, subgame, m, u, stratU, rankU, w0, s0);
    if |w0.env| + |w0.con| != |sub| {
      assert false; // "size mismatch" is never thrown
    }
    if |w0.At(p)| + |u| == |subgame| {
      return Pair(p, subgame, {}), Pair(p, s0.At(p) + stratU, map[]);
    }
    w, s := SolveRemaining(g, subgame, m, w0.At(!p), s0.At(!p));
  }

  /** The second recursive call: removes what is attracted to `core`, won by the player who does
      not like color `m`, solves what remains and puts the parts together. */
  method SolveRemaining(g: Game, subgame: set<nat>, m: nat, core: set<nat>, strat0: Strategy)
    returns (w: Sides<set<nat>>, s: Sides<Strategy>)
    requires WellFormed(g) && subgame <= States(g) && m > 0
    requires core != {} && strat0.Keys <= core && Winning(g, subgame, m, m % 2 == 0, core, strat0)
    ensures Solved(g, subgame, m, w, s)
    decreases m, |subgame|, 0
  {
    var p := m % 2 == 1;
    var attracted, stratA, rankA := Attract(g, subgame, core, m, !p, false);
    var sub := subgame - attracted;
    SubsetSize(sub, subgame);
    var w1, s1 := SolveRec(g, sub, m);
    SolvedSize(g, sub, m, w1, s1);
    if |w1.env| + |w1.con| != |sub| {
      assert false; // "size mismatch" is never thrown
    }
    w := Pair(p, w1.At(p), w1.At(!p) + attracted);
    s := Pair(p, s1.At(p), s1.At(!p) + strat0 + stratA);
    Recombine(g, subgame, m, p, core, strat0, attracted, stratA, rankA, w1, s1);
  }

  ghost predicate IsMaxColor(g: Game, m: nat) {
    && (forall v: Move :: Valid(g, v) ==> Color(g, v) <= m)
    && (exists v: Move :: Valid(g, v) && Color(g, v) == m)
  }

  lemma {:induction false} WholeGamePlays(g: Game, m: nat, play: Play)
    requires WellFormed(g) && IsMaxColor(g, m)
    ensures PlayIn(g, States(g), m, play) <==> IsPlay(g, play)
  {
    if IsPlay(g, play) {
      forall n: nat ensures InSub(g, States(g), m, play(n)) && play(n + 1).src == Dst(g, play(n)) {
        assert Continues(g, play, n);
        assert IsState(g, play(n).src) && IsState(g, Dst(g, play(n)));
      }
    }
  }

  /** The largest color of the game; the game has an edge. */
  method MaxParity(g: Game) returns (m: nat)
    requires WellFormed(g) && exists v: Move :: Valid(g, v)
    ensures IsMaxColor(g, m)
  {
    m := 0;
    ghost var found: Move :| Valid(g, found);
    ghost var best := None;
    for s := 0 to |g.edges|
      invariant forall v: Move :: Valid(g, v) && v.src < s ==> Color(g, v) <= m
      invariant best.Some? ==> Valid(g, best.value) && Color(g, best.value) == m
      invariant best.None? ==> m == 0
    {
      for i := 0 to |g.edges[s]|
        invariant forall v: Move :: Valid(g, v) && (v.src < s || (v.src == s && v.idx < i)) ==> Color(g, v) <= m
        invariant best.Some? ==> Valid(g, best.value) && Color(g, best.value) == m
        invariant best.None? ==> m == 0
      {
        if m < g.edges[s][i].color {
          m := g.edges[s][i].color;
          best := Some(Move(s, i));
        }
      }
    }
    assert best.Some? || Color(g, found) == m;
  }

  /** Solves the game: a partition of the states with a winning positional strategy for each player
      on its part.  Right for every game but those of color 0 only in which the environment
      can be stuck. */
  method Solve(g: Game) returns (w: Sides<set<nat>>, s: Sides<Strategy>, m: nat)
    requires WellFormed(g) && exists v: Move :: Valid(g, v)
    ensures IsMaxColor(g, m)
    ensures m > 0 || NoEnvStuck(g, States(g), m) <==> Solved(g, States(g), m, w, s)
    ensures m == 0 ==> EnvTakesUnstuck(g, States(g), w, s)
  {
    m := MaxParity(g);
    w, s := SolveRec(g, States(g), m);
    if m == 0 {
      DegenerateAnswer(g, States(g), w, s);
    }
  }
}
