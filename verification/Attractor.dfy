/**
 Attractors of a subgame: the states from which a player can force a visit to a
 target set (or, on request, an edge carrying the largest color).
 */
module Attractor {
  import opened Game

  /** Taking `v` reaches the attracted set, or is an edge of color `m` when those count. */
  predicate Hit(g: Game, m: nat, attrMax: bool, attracted: set<nat>, v: Move)
    requires Valid(g, v)
  {
    Dst(g, v) in attracted || (attrMax && Color(g, v) == m)
  }

  /** Some edge of the subgame hits (for the attracting player), every edge hits (for the other). */
  ghost predicate Forced(g: Game, region: set<nat>, m: nat, p: bool, attrMax: bool, attracted: set<nat>, s: nat) {
    if Owned(g, s, p)
    then exists i: nat :: InSub(g, region, m, Move(s, i)) && Hit(g, m, attrMax, attracted, Move(s, i))
    else forall i: nat :: InSub(g, region, m, Move(s, i)) ==> Hit(g, m, attrMax, attracted, Move(s, i))
  }

  /** No state left outside can be forced in. */
  ghost predicate Saturated(g: Game, region: set<nat>, m: nat, p: bool, attrMax: bool, attracted: set<nat>) {
    forall s: nat {:trigger Forced(g, region, m, p, attrMax, attracted, s)} ::
      s in region - attracted ==> !Forced(g, region, m, p, attrMax, attracted, s)
  }

  /** `v` hits the target, or moves to an attracted state of rank below `k`. */
  ghost predicate Nearer(g: Game, m: nat, attrMax: bool, target: set<nat>, rank: map<nat, nat>, k: nat, v: Move)
    requires Valid(g, v)
  {
    Hit(g, m, attrMax, target, v) || (Dst(g, v) in rank && rank[Dst(g, v)] < k)
  }

  /** Following `strategy`, player `p` hits the target from every attracted state within its rank. */
  ghost predicate Attracts(g: Game, region: set<nat>, target: set<nat>, m: nat, p: bool, attrMax: bool,
                           attracted: set<nat>, strategy: Strategy, rank: map<nat, nat>) {
    && target <= attracted <= region
    && rank.Keys == attracted - target
    && (forall s: nat {:trigger s in strategy} :: s in strategy <==> s in rank && Owned(g, s, p))
    && (forall s: nat {:trigger s in strategy} :: s in strategy ==>
          InSub(g, region, m, Move(s, strategy[s]))
          && Nearer(g, m, attrMax, target, rank, rank[s], Move(s, strategy[s])))
    && (forall s: nat, i: nat {:trigger InSub(g, region, m, Move(s, i))} ::
          s in rank && !Owned(g, s, p) && InSub(g, region, m, Move(s, i)) ==>
          Nearer(g, m, attrMax, target, rank, rank[s], Move(s, i)))
  }

  ghost predicate Bounded(rank: map<nat, nat>, k: nat) {
    forall s: nat :: s in rank ==> rank[s] < k
  }

  lemma {:induction false} HitIsNearer(g: Game, m: nat, attrMax: bool, target: set<nat>, attracted: set<nat>,
                    rank: map<nat, nat>, k: nat, v: Move)
    requires Valid(g, v) && rank.Keys == attracted - target && Bounded(rank, k)
    requires Hit(g, m, attrMax, attracted, v)
    ensures Nearer(g, m, attrMax, target, rank, k, v)
  {
  }

  /** One more forced state, ranked above all the others. */
  lemma {:induction false} AttractsStep(g: Game, region: set<nat>, target: set<nat>, m: nat, p: bool, attrMax: bool,
                     attracted: set<nat>, strategy: Strategy, rank: map<nat, nat>, k: nat,
                     s: nat, strategy': Strategy)
    requires Attracts(g, region, target, m, p, attrMax, attracted, strategy, rank) && Bounded(rank, k)
    requires s in region - attracted
    requires if Owned(g, s, p)
             then (exists i: nat :: strategy' == strategy[s := i] && InSub(g, region, m, Move(s, i))
                                    && Hit(g, m, attrMax, attracted, Move(s, i)))
             else strategy' == strategy && Forced(g, region, m, p, attrMax, attracted, s)
    ensures Attracts(g, region, target, m, p, attrMax, attracted + {s}, strategy', rank[s := k])
    ensures Bounded(rank[s := k], k + 1)
  {
    var rank' := rank[s := k];
    assert rank'.Keys == attracted + {s} - target;
    forall v: Move, j: nat | Valid(g, v) && Nearer(g, m, attrMax, target, rank, j, v)
      ensures Nearer(g, m, attrMax, target, rank', j, v)
    {
      assert Dst(g, v) != s || Hit(g, m, attrMax, target, v);
    }
    forall v: Move | Valid(g, v) && Hit(g, m, attrMax, attracted, v)
      ensures Nearer(g, m, attrMax, target, rank', k, v)
    {
      HitIsNearer(g, m, attrMax, target, attracted, rank, k, v);
    }
  }

  /** Whether `s` joins the attractor now, and by which edge: the first that hits when `p` owns `s`. */
  method Scan(g: Game, subgame: set<nat>, m: nat, p: bool, attrMax: bool, attracted: set<nat>, s: nat)
    returns (wins: bool, choice: nat)
    requires WellFormed(g) && IsState(g, s) && s in subgame
    ensures wins <==> Forced(g, subgame, m, p, attrMax, attracted, s)
    ensures wins && Owned(g, s, p) ==>
              && InSub(g, subgame, m, Move(s, choice)) && Hit(g, m, attrMax, attracted, Move(s, choice))
              && forall j: nat :: j < choice && InSub(g, subgame, m, Move(s, j)) ==>
                   !Hit(g, m, attrMax, attracted, Move(s, j))
  {
    var isOwned := g.owner[s] == p;
    wins := !isOwned;
    choice := 0;
    var i := 0;
    while i < |g.edges[s]|
      invariant i <= |g.edges[s]|
      invariant wins == !isOwned
      invariant isOwned ==> forall j: nat :: j < i && InSub(g, subgame, m, Move(s, j)) ==>
                              !Hit(g, m, attrMax, attracted, Move(s, j))
      invariant !isOwned ==> forall j: nat :: j < i && InSub(g, subgame, m, Move(s, j)) ==>
                               Hit(g, m, attrMax, attracted, Move(s, j))
    {
      var e := g.edges[s][i];
      if e.color <= m && e.dst in subgame {
        assert InSub(g, subgame, m, Move(s, i));
        if e.dst in attracted || (attrMax && e.color == m) {
          if isOwned {
            choice := i;
            wins := true;
            return;
          }
        } else {
          if !isOwned {
            wins := false;
            return;
          }
        }
      }
      i := i + 1;
    }
  }

  /** The attractor of `target` in the subgame: sound (every attracted state has a ranked
      strategy to hit the target) and saturated (nothing else can be forced). */
  method Attract(g: Game, subgame: set<nat>, target: set<nat>, m: nat, p: bool, attrMax: bool)
    returns (attracted: set<nat>, strategy: Strategy, ghost rank: map<nat, nat>)
    requires WellFormed(g) && target <= subgame <= States(g)
    ensures Attracts(g, subgame, target, m, p, attrMax, attracted, strategy, rank)
    ensures Saturated(g, subgame, m, p, attrMax, attracted)
  {
    attracted, strategy, rank := target, map[], map[];
    var complement := subgame - target;
    ghost var k := 0;
    var onceMore := true;
    while onceMore
      invariant complement == subgame - attracted
      invariant Attracts(g, subgame, target, m, p, attrMax, attracted, strategy, rank) && Bounded(rank, k)
      invariant onceMore || Saturated(g, subgame, m, p, attrMax, attracted)
      decreases complement, onceMore
    {
      onceMore := false;
      ghost var before := complement;
      for s := 0 to |g.edges|
        invariant complement == subgame - attracted && complement <= before
        invariant onceMore ==> complement < before
        invariant Attracts(g, subgame, target, m, p, attrMax, attracted, strategy, rank) && Bounded(rank, k)
        invariant onceMore || forall t: nat :: t < s && t in complement ==>
                                !Forced(g, subgame, m, p, attrMax, attracted, t)
      {
        if s in complement {
          var wins, choice := Scan(g, subgame, m, p, attrMax, attracted, s);
          if wins {
            ghost var strategyBefore := strategy;
            if g.owner[s] == p {
              strategy := strategy[s := choice];
            }
            AttractsStep(g, subgame, target, m, p, attrMax, attracted, strategyBefore, rank, k, s, strategy);
            rank, k := rank[s := k], k + 1;
            attracted := attracted + {s};
            complement := complement - {s};
            onceMore := true;
          }
        }
      }
      assert forall t: nat :: t in complement ==> IsState(g, t);
    }
  }

  /** A play that follows an attractor strategy hits the target. */
  lemma {:induction false} AttractedHits(g: Game, region: set<nat>, target: set<nat>, m: nat, p: bool, attrMax: bool,
                      attracted: set<nat>, attractor: Strategy, rank: map<nat, nat>,
                      strat: Strategy, play: Play, n: nat)
    returns (k: nat)
    requires Attracts(g, region, target, m, p, attrMax, attracted, attractor, rank)
    requires PlayIn(g, region, m, play) && Follows(g, p, strat, play)
    requires forall s: nat :: s in attractor ==> s in strat && strat[s] == attractor[s]
    requires play(n).src in attracted
    ensures n <= k
    ensures play(k).src in target || (attrMax && Color(g, play(k)) == m)
    decreases if play(n).src in rank then rank[play(n).src] + 1 else 0
  {
    k := n;
    var v := play(n);
    assert InSub(g, region, m, v) && v == Move(v.src, v.idx);
    if v.src !in target && !(attrMax && Color(g, v) == m) {
      assert v.src in attractor <==> Owned(g, v.src, p);
      assert Nearer(g, m, attrMax, target, rank, rank[v.src], v);
      assert play(n + 1).src == Dst(g, v);
      k := AttractedHits(g, region, target, m, p, attrMax, attracted, attractor, rank, strat, play, n + 1);
    }
  }
}
