/**
 The synthesis pipeline: complete the arena, solve the game, extract a controller.
 A positive verdict comes with a controller that realizes the specification, a
 negative one with a winning strategy of the environment; over a deterministic arena
 the verdict is positive exactly when some controller exists.
 */
module Pipeline {
  import opened Game
  import opened Arena
  import opened Solver
  import opened Controller
  import opened Synthesis
  import opened Realizability
  import opened Wrappers

  datatype Verdict = Failed | Realizable(controller: Machine) | Unrealizable

  /** Extracts the controller of a won game. */
  method Extract(pg: Game, init: nat, sigma: set<Letter>, ni: nat, no: nat, won: set<nat>, strat: Strategy,
                 ghost m: nat, ghost c: Completion, ghost side: nat -> bool)
    returns (trans: Machine)
    requires SplitArena(c.base, c.init, c.sigma, side) && c.um % 2 == 0 && Completed(c)
    requires pg == c.Arena() && init == c.init && sigma == c.sigma
    requires FullAlphabet(sigma, ni, no) && no > 0
    requires IsMaxColor(pg, m) && Winning(pg, States(pg), m, true, won, strat) && init in won
    ensures Realizes(c.base, init, ni, trans)
  {
    ghost var area := Area(c, won);
    CompletedWellFormed(c);
    SinkLost(c, m, won, strat);
    WonControls(c, side, m, won, strat);
    WonTurned(c, side, m, won, strat);
    trans := StratToAut(pg, init, strat, sigma, area);
    ghost var back: seq<nat> :| Extracted(pg, sigma, strat, area, init, trans, back);
    ExtractedRealizes(c, ni, no, m, area, strat, trans, back);
  }

  /** Decides realizability of the specification the arena stands for.  Fails exactly when every
      color satisfies the acceptance condition. */
  method SolveFormula(dpa: TwaGraph, sigma: set<Letter>, ni: nat, no: nat, unsat: Option<nat>, ghost side: nat -> bool)
    returns (verdict: Verdict)
    requires SplitArena(dpa.edges, dpa.init, sigma, side)
    requires FullAlphabet(sigma, ni, no) && ni > 0 && no > 0
    requires unsat.Some? ==> unsat.value % 2 == 0
    modifies dpa`edges
    ensures verdict.Failed? <==> unsat.None?
    ensures verdict.Realizable? ==> Realizes(old(dpa.edges), dpa.init, ni, verdict.controller)
    ensures verdict.Unrealizable? ==> EnvironmentWins(old(dpa.edges), dpa.init, sigma, unsat.value, dpa.edges)
    ensures unsat.Some? && Deterministic(old(dpa.edges), dpa.init) ==>
              (verdict.Realizable? <==> exists trans: Machine :: Realizes(old(dpa.edges), dpa.init, ni, trans))
  {
    ghost var base := dpa.edges;
    var owner := CompleteEnv(dpa, sigma, unsat);
    if owner.None? {
      return Failed;
    }
    ghost var visited :| Completed(Completion(base, dpa.init, sigma, unsat.value, dpa.edges, visited, owner.value));
    ghost var c := Completion(base, dpa.init, sigma, unsat.value, dpa.edges, visited, owner.value);
    CompletedWellFormed(c);
    var pg := Game(dpa.edges, owner.value);
    var w, s, m := Solve(pg);
    if dpa.init in w.con {
      var trans := Extract(pg, dpa.init, sigma, ni, no, w.con, s.con, m, c, side);
      return Realizable(trans);
    }
    if m == 0 {
      assert Letter(0, 0) in sigma;
      OneColorLost(c, w, s);
    } else {
      assert IsState(pg, dpa.init);
      assert EnvironmentWinsBy(c, m, w.env, s.env);
    }
    assert EnvironmentWins(base, dpa.init, sigma, unsat.value, dpa.edges);
    if Deterministic(base, dpa.init) {
      forall trans: Machine ensures !Realizes(base, dpa.init, ni, trans) {
        NoController(base, dpa.init, sigma, ni, no, side, unsat.value, dpa.edges, trans);
      }
    }
    verdict := Unrealizable;
  }
}
