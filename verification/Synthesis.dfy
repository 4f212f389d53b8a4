/**
 Realizability of a synthesis problem, and what the completed and solved arena says about it:
 a winning strategy of the controller yields a machine that realizes the specification.
 */
module Synthesis {
  import opened Game
  import opened Arena
  import opened Solver
  import opened Controller

  /** What splitting an automaton into input and output steps delivers. */
  ghost predicate SplitArena(base: Table, init: nat, sigma: set<Letter>, side: nat -> bool) {
    && Closed(base) && init < |base| && Alternates(base, init, side)
    && forall v: Move :: Reachable(base, init, v.src) && Valid(Bare(base), v) ==>
         && Label(Bare(base), v) != {}
         && if side(v.src) then OutputOnly(sigma, Label(Bare(base), v)) else InputOnly(sigma, Label(Bare(base), v))
  }

  lemma {:induction false} CompletedWellFormed(c: Completion)
    requires Completed(c)
    ensures WellFormed(c.Arena()) && Valid(c.Arena(), Move(|c.base|, 0))
    ensures Reachable(c.base, c.init, c.init)
  {
    assert ReachIn(c.base, c.init, c.init, 0);
  }

  // ----- the controller never wins in a sink

  ghost function SinkPlay(n: nat): Play {
    (k: nat) => Move(if k % 2 == 0 then n + 1 else n, 0)
  }

  lemma {:induction false} SinkPlayIsPlay(c: Completion)
    requires Completed(c)
    ensures IsPlay(c.Arena(), SinkPlay(|c.base|))
  {
    var play := SinkPlay(|c.base|);
    forall k: nat ensures Continues(c.Arena(), play, k) && Valid(c.Arena(), play(k)) {
      assert (k + 1) % 2 == 0 <==> k % 2 == 1;
    }
  }

  lemma {:induction false} SecondSinkLost(c: Completion, m: nat, area: set<nat>, strat: Strategy)
    requires Completed(c) && c.um % 2 == 0 && IsMaxColor(c.Arena(), m) && WellFormed(c.Arena())
    requires Winning(c.Arena(), States(c.Arena()), m, true, area, strat)
    ensures |c.base| + 1 !in area
  {
    var g, n := c.Arena(), |c.base|;
    if n + 1 in area {
      SinkPlayIsPlay(c);
      WholeGamePlays(g, m, SinkPlay(n));
      SinkFollowed(g, m, n, area, strat);
      assert SinkPlay(n)(0).src in area && !Original(c.base, SinkPlay(n)(0));
      AddedEdgeLost(c, SinkPlay(n), 0);
    }
  }

  /** The controller wins from neither sink. */
  lemma {:induction false} SinkLost(c: Completion, m: nat, area: set<nat>, strat: Strategy)
    requires Completed(c) && c.um % 2 == 0 && IsMaxColor(c.Arena(), m)
    requires Winning(c.Arena(), States(c.Arena()), m, true, area, strat)
    ensures |c.base| !in area && |c.base| + 1 !in area
  {
    CompletedWellFormed(c);
    SecondSinkLost(c, m, area, strat);
    if |c.base| in area {
      OnlyMove(c.Arena(), m, |c.base|, |c.base| + 1, area, strat);
    }
  }

  /** A trap holds the only successor of each of its states. */
  lemma {:induction false} OnlyMove(g: Game, m: nat, s: nat, d: nat, area: set<nat>, strat: Strategy)
    requires WellFormed(g) && IsMaxColor(g, m) && Traps(g, States(g), m, true, area, strat) && s in area
    requires s < |g.edges| && |g.edges[s]| == 1 && g.edges[s][0].dst == d
    ensures d in area && (Owned(g, s, true) ==> s in strat && strat[s] == 0)
  {
    assert Valid(g, Move(s, 0)) && IsState(g, s) && IsState(g, d);
    assert InSub(g, States(g), m, Move(s, 0));
  }

  lemma {:induction false} SinkFollowed(g: Game, m: nat, n: nat, area: set<nat>, strat: Strategy)
    requires WellFormed(g) && |g.edges| == n + 2 && |g.edges[n]| == |g.edges[n + 1]| == 1
    requires g.edges[n][0].dst == n + 1 && g.edges[n + 1][0].dst == n
    requires IsMaxColor(g, m) && Traps(g, States(g), m, true, area, strat) && n + 1 in area
    ensures Follows(g, true, strat, SinkPlay(n))
  {
    OnlyMove(g, m, n + 1, n, area, strat);
    OnlyMove(g, m, n, n + 1, area, strat);
  }

  // ----- the winning region contains a controllable area

  /** The setting of the following lemmas: a completed split arena in which the controller is
      trapped in the states `won`, without the sink. */
  ghost predicate Won(c: Completion, side: nat -> bool, m: nat, won: set<nat>, strat: Strategy) {
    && SplitArena(c.base, c.init, c.sigma, side)
    && Completed(c) && WellFormed(c.Arena()) && IsMaxColor(c.Arena(), m)
    && Traps(c.Arena(), States(c.Arena()), m, true, won, strat)
    && |c.base| + 1 !in won
  }

  ghost function Area(c: Completion, won: set<nat>): set<nat> {
    set s | s in won && s in c.visited && s < |c.base|
  }

  /** A won state handles every letter by itself. */
  lemma {:induction false} WonState(c: Completion, side: nat -> bool, m: nat, won: set<nat>, strat: Strategy, s: nat)
    requires Won(c, side, m, won, strat) && s in Area(c, won)
    ensures Reachable(c.base, c.init, s) && c.t[s] == c.base[s] && c.owner[s] == side(s)
    ensures !c.owner[s] ==> Missing(c.sigma, c.base[s]) == {}
  {
    var g := c.Arena();
    var more := Extra(c.base, c.sigma, c.um, s in c.visited && !c.owner[s], s);
    assert more != [] ==> |c.t[s]| > |c.base[s]| && c.t[s][|c.base[s]|].dst == |c.base| + 1;
    forall i: nat | i < |c.t[s]| && !c.owner[s] ensures c.t[s][i].dst != |c.base| + 1 {
      assert Valid(g, Move(s, i)) && IsState(g, s) && IsState(g, Dst(g, Move(s, i)));
      assert InSub(g, States(g), m, Move(s, i)) && !Owned(g, s, true);
    }
  }

  /** Its moves are original moves, to the other player. */
  lemma {:induction false} WonMove(c: Completion, side: nat -> bool, m: nat, won: set<nat>, strat: Strategy, v: Move)
    requires Won(c, side, m, won, strat) && v.src in Area(c, won) && Valid(c.Arena(), v)
    ensures var g := c.Arena();
            && InSub(g, States(g), m, v)
            && Dst(g, v) in c.visited && Dst(g, v) < |c.base| && c.owner[Dst(g, v)] == !c.owner[v.src]
            && Valid(Bare(c.base), v) && Label(g, v) == Label(Bare(c.base), v)
  {
    var g := c.Arena();
    WonState(c, side, m, won, strat, v.src);
    assert IsState(g, v.src) && IsState(g, Dst(g, v));
    assert Step(c.base, v.src, v.idx, Dst(g, v));
    ReachStep(c.base, c.init, v.src, v.idx, Dst(g, v));
    assert Alternates(c.base, c.init, side);
  }

  lemma {:induction false} WonControls(c: Completion, side: nat -> bool, m: nat, won: set<nat>, strat: Strategy)
    requires Won(c, side, m, won, strat)
    ensures Controls(c.Arena(), Area(c, won), strat)
  {
    var g, area := c.Arena(), Area(c, won);
    forall s: nat | s in area && Owned(g, s, true)
      ensures s in strat && Valid(g, Move(s, strat[s])) && Dst(g, Move(s, strat[s])) in area
    {
      assert InSub(g, States(g), m, Move(s, strat[s]));
      WonMove(c, side, m, won, strat, Move(s, strat[s]));
    }
    forall v: Move | v.src in area && Owned(g, v.src, false) && Valid(g, v) ensures Dst(g, v) in area {
      WonMove(c, side, m, won, strat, v);
      assert v == Move(v.src, v.idx);
    }
  }

  lemma {:induction false} WonTurned(c: Completion, side: nat -> bool, m: nat, won: set<nat>, strat: Strategy)
    requires Won(c, side, m, won, strat)
    ensures Turned(c.Arena(), c.sigma, Area(c, won)) && Covered(c.Arena(), c.sigma, Area(c, won))
  {
    var g, area := c.Arena(), Area(c, won);
    forall v: Move | v.src in area && Valid(g, v)
      ensures if Owned(g, v.src, false)
              then InputOnly(c.sigma, Label(g, v)) && Owned(g, Dst(g, v), true)
              else OutputOnly(c.sigma, Label(g, v)) && Label(g, v) != {} && Owned(g, Dst(g, v), false)
    {
      WonState(c, side, m, won, strat, v.src);
      WonMove(c, side, m, won, strat, v);
    }
    forall s: nat, l | s in area && Owned(g, s, false) && l in c.sigma ensures Reads(g, s, l) {
      WonState(c, side, m, won, strat, s);
      assert l !in Missing(c.sigma, c.base[s]);
      var i :| 0 <= i < |c.base[s]| && l in c.base[s][i].cond;
      assert Valid(g, Move(s, i)) && l in Label(g, Move(s, i));
    }
  }

  // ----- realizability

  /** Letter `n` labels moves `2n` (the input step) and `2n + 1` (the output step). */
  ghost predicate LabelsAt(g: Game, word: nat -> Letter, play: Play, n: nat) {
    && Valid(g, play(2 * n)) && word(n) in Label(g, play(2 * n))
    && Valid(g, play(2 * n + 1)) && word(n) in Label(g, play(2 * n + 1))
  }

  /** `play` is a play of the arena from `init`, two moves per letter of `word`, won by the controller. */
  ghost predicate AcceptingPlay(base: Table, init: nat, word: nat -> Letter, play: Play) {
    && play(0).src == init && IsPlay(Bare(base), play)
    && (forall n: nat :: LabelsAt(Bare(base), word, play, n))
    && Wins(Bare(base), true, play)
  }

  ghost predicate Accepts(base: Table, init: nat, word: nat -> Letter) {
    exists play: Play :: AcceptingPlay(base, init, word, play)
  }

  /** The controller reacts to every input in every state, and every word of it is accepted. */
  ghost predicate Realizes(base: Table, init: nat, ni: nat, trans: Machine) {
    && ReceptiveMachine(trans, ni)
    && forall run: nat -> Move, word: nat -> Letter :: IsRun(trans, run, word) ==> Accepts(base, init, word)
  }

  /** A winning controller play of the completed arena is an accepting play of the arena itself. */
  lemma {:induction false} WinningPlayAccepts(c: Completion, word: nat -> Letter, play: Play)
    requires Completed(c) && c.um % 2 == 0
    requires play(0).src == c.init && IsPlay(c.Arena(), play) && Wins(c.Arena(), true, play)
    requires forall n: nat :: LabelsAt(c.Arena(), word, play, n)
    ensures Accepts(c.base, c.init, word)
  {
    CompletionPreservesWins(c, play);
    forall n: nat ensures LabelsAt(Bare(c.base), word, play, n) {
      assert LabelsAt(c.Arena(), word, play, n);
      OriginalMove(c, play(2 * n));
      OriginalMove(c, play(2 * n + 1));
    }
    assert AcceptingPlay(c.base, c.init, word, play);
  }

  /** A controller extracted from a winning strategy realizes the specification. */
  lemma {:induction false} ExtractedRealizes(c: Completion, ni: nat, no: nat, m: nat, area: set<nat>, strat: Strategy,
                          trans: Machine, back: seq<nat>)
    requires Completed(c) && c.um % 2 == 0 && FullAlphabet(c.sigma, ni, no) && no > 0
    requires WellFormed(c.Arena()) && IsMaxColor(c.Arena(), m)
    requires Turned(c.Arena(), c.sigma, area) && Covered(c.Arena(), c.sigma, area) && Controls(c.Arena(), area, strat)
    requires WinsPlays(c.Arena(), States(c.Arena()), m, true, area, strat)
    requires Extracted(c.Arena(), c.sigma, strat, area, c.init, trans, back)
    ensures Realizes(c.base, c.init, ni, trans)
  {
    var g := c.Arena();
    forall q: nat, i: nat | q < |trans| && i < ni ensures Answers(trans, q, i) {
      var k, l := Receptive(g, c.sigma, ni, no, strat, area, c.init, trans, back, q, i);
    }
    forall run: nat -> Move, word: nat -> Letter | IsRun(trans, run, word) ensures Accepts(c.base, c.init, word) {
      var play := RunIsPlay(g, c.sigma, strat, area, c.init, trans, back, run, word);
      forall n: nat ensures LabelsAt(g, word, play, n) {
      }
      WholeGamePlays(g, m, play);
      WinningPlayAccepts(c, word, play);
    }
  }

  // ----- the environment

  /** By `strat` the environment wins the completed game from the states `area`, the initial one included. */
  ghost predicate EnvironmentWinsBy(c: Completion, m: nat, area: set<nat>, strat: Strategy) {
    && Completed(c) && IsMaxColor(c.Arena(), m)
    && Winning(c.Arena(), States(c.Arena()), m, false, area, strat) && c.init in area
  }

  /** The environment wins the completion `t` of `base`. */
  ghost predicate EnvironmentWins(base: Table, init: nat, sigma: set<Letter>, um: nat, t: Table) {
    exists c: Completion, m: nat, area: set<nat>, strat: Strategy ::
      && c.base == base && c.init == init && c.sigma == sigma && c.um == um && c.t == t
      && EnvironmentWinsBy(c, m, area, strat)
  }

  ghost function ReachableArea(c: Completion): (r: set<nat>)
    ensures forall s: nat :: s in r <==> (s < |c.base| && s in c.visited) || s == |c.base| || s == |c.base| + 1
  {
    (set s: nat | s < |c.base| && s in c.visited) + {|c.base|, |c.base| + 1}
  }

  /** The reachable states and the sinks are closed under moves, and the environment always has one. */
  lemma {:induction false} ReachablePart(c: Completion, v: Move)
    requires Completed(c) && c.sigma != {} && v.src in ReachableArea(c)
    ensures Valid(c.Arena(), v) ==> Dst(c.Arena(), v) in ReachableArea(c)
    ensures !c.owner[v.src] ==> Valid(c.Arena(), Move(v.src, 0))
  {
    var g, s := c.Arena(), v.src;
    if s < |c.base| {
      if Valid(g, v) && v.idx < |c.base[s]| {
        assert Step(c.base, s, v.idx, Dst(g, v));
        ReachStep(c.base, c.init, s, v.idx, Dst(g, v));
      }
      if !c.owner[s] {
        ExtraCompletes(c.base, c.sigma, c.um, s);
        var l :| l in c.sigma;
        assert l !in Missing(c.sigma, c.t[s]);
      }
    }
  }

  /** With color 0 only, an environment state of that part has its chosen move inside it. */
  lemma {:induction false} OneColorMove(c: Completion, w: Sides<set<nat>>, s: Sides<Strategy>, r: nat)
    requires Completed(c) && c.sigma != {} && IsMaxColor(c.Arena(), 0)
    requires EnvTakesUnstuck(c.Arena(), States(c.Arena()), w, s)
    requires r in ReachableArea(c) && Owned(c.Arena(), r, false)
    ensures var g := c.Arena();
            r in s.env && InSub(g, States(g), 0, Move(r, s.env[r])) && Dst(g, Move(r, s.env[r])) in ReachableArea(c)
  {
    var g := c.Arena();
    CompletedWellFormed(c);
    ReachablePart(c, Move(r, 0));
    assert IsState(g, r) && IsState(g, Dst(g, Move(r, 0)));
    assert InSub(g, States(g), 0, Move(r, 0));
    assert !EnvStuck(g, States(g), 0, r);
    assert r in w.env;
    ReachablePart(c, Move(r, s.env[r]));
  }

  lemma {:induction false} OneColorTraps(c: Completion, w: Sides<set<nat>>, s: Sides<Strategy>)
    requires Completed(c) && c.sigma != {} && IsMaxColor(c.Arena(), 0)
    requires EnvTakesUnstuck(c.Arena(), States(c.Arena()), w, s)
    ensures Traps(c.Arena(), States(c.Arena()), 0, false, ReachableArea(c), s.env)
  {
    var g, area := c.Arena(), ReachableArea(c);
    forall r: nat | r in area && Owned(g, r, false)
      ensures r in s.env && InSub(g, States(g), 0, Move(r, s.env[r])) && Dst(g, Move(r, s.env[r])) in area
    {
      OneColorMove(c, w, s, r);
    }
    forall r: nat, i: nat | r in area && !Owned(g, r, false) && InSub(g, States(g), 0, Move(r, i))
      ensures Dst(g, Move(r, i)) in area
    {
      ReachablePart(c, Move(r, i));
    }
    assert forall r: nat :: r in area ==> IsState(g, r);
  }

  /** With color 0 only, the environment wins from the initial state whatever happens elsewhere. */
  lemma {:induction false} OneColorLost(c: Completion, w: Sides<set<nat>>, s: Sides<Strategy>)
    requires Completed(c) && c.sigma != {} && IsMaxColor(c.Arena(), 0)
    requires EnvTakesUnstuck(c.Arena(), States(c.Arena()), w, s)
    ensures EnvironmentWinsBy(c, 0, ReachableArea(c), s.env)
  {
    var g := c.Arena();
    CompletedWellFormed(c);
    OneColorTraps(c, w, s);
    forall play: Play | PlayIn(g, States(g), 0, play) ensures Wins(g, false, play) {
      AllZero(g, States(g), play);
    }
    assert c.init in ReachableArea(c);
  }
}
