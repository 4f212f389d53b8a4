/**
 The game arena of a synthesis problem and its completion: environment states
 get an edge to a losing sink for the letters they do not handle, and every state
 gets an owner.
 */
module Arena {
  import opened Game
  import opened Wrappers

  /** Edge lists by source state. */
  type Table = seq<seq<Edge>>

  predicate Closed(t: Table) {
    forall s, i :: 0 <= s < |t| && 0 <= i < |t[s]| ==> t[s][i].dst < |t|
  }

  /** The letters of `sigma` that no edge of the list accepts. */
  function Missing(sigma: set<Letter>, es: seq<Edge>): set<Letter> {
    set l | l in sigma && forall i :: 0 <= i < |es| ==> l !in es[i].cond
  }

  // ----- reachability

  ghost predicate Step(t: Table, r: nat, i: nat, s: nat) {
    r < |t| && i < |t[r]| && t[r][i].dst == s
  }

  ghost predicate ReachIn(t: Table, init: nat, s: nat, n: nat)
    decreases n
  {
    if n == 0 then s == init
    else exists r: nat, i: nat :: ReachIn(t, init, r, n - 1) && Step(t, r, i, s)
  }

  ghost predicate Reachable(t: Table, init: nat, s: nat) {
    exists n: nat :: ReachIn(t, init, s, n)
  }

  lemma {:induction false} ReachStep(t: Table, init: nat, r: nat, i: nat, s: nat)
    requires Reachable(t, init, r) && Step(t, r, i, s)
    ensures Reachable(t, init, s)
  {
    var n: nat :| ReachIn(t, init, r, n);
    assert ReachIn(t, init, s, n + 1);
  }

  /** A set that contains the initial state and is closed under edges contains every reachable state. */
  lemma {:induction false} ReachInvariant(t: Table, init: nat, s: nat, n: nat, inside: set<nat>)
    requires ReachIn(t, init, s, n) && init in inside
    requires forall r: nat, i: nat, d: nat :: r in inside && Step(t, r, i, d) ==> d in inside
    ensures s in inside
    decreases n
  {
    if n > 0 {
      var r: nat, i: nat :| ReachIn(t, init, r, n - 1) && Step(t, r, i, s);
      ReachInvariant(t, init, r, n - 1, inside);
    }
  }

  /** `side` is a 2-coloring of the reachable part that puts the initial state on the environment's side. */
  ghost predicate Alternates(t: Table, init: nat, side: nat -> bool) {
    && !side(init)
    && forall r: nat, i: nat, s: nat :: Reachable(t, init, r) && Step(t, r, i, s) ==> side(s) == !side(r)
  }

  // ----- the automaton object

  /** A graph whose states and edges are only ever added. */
  class TwaGraph {
    var edges: Table
    var init: nat

    constructor ()
      ensures edges == [] && init == 0
    {
      edges, init := [], 0;
    }

    method NewState() returns (s: nat)
      modifies this`edges
      ensures s == |old(edges)| && edges == old(edges) + [[]]
    {
      s := |edges|;
      edges := edges + [[]];
    }

    method NewEdge(src: nat, dst: nat, cond: set<Letter>, color: nat)
      requires src < |edges|
      modifies this`edges
      ensures edges == old(edges)[src := old(edges)[src] + [Edge(dst, cond, color)]]
    {
      edges := edges[src := edges[src] + [Edge(dst, cond, color)]];
    }
  }

  // ----- the completed table

  /** The edges completion adds to state `s`. */
  function Extra(base: Table, sigma: set<Letter>, um: nat, needed: bool, s: nat): seq<Edge>
    requires s < |base|
  {
    if needed && Missing(sigma, base[s]) != {}
    then [Edge(|base| + 1, Missing(sigma, base[s]), um)]
    else []
  }

  /** `t` is `base` plus the two sinks, states `|base|` and `|base| + 1`, looping
      between each other on the unsatisfying color, plus one edge into a sink for each
      incomplete state of the environment among the `visited` ones. */
  ghost predicate Completes(base: Table, t: Table, sigma: set<Letter>, um: nat, visited: set<nat>, owner: seq<bool>) {
    var n := |base|;
    && |t| == |owner| == n + 2
    && t[n] == [Edge(n + 1, sigma, um)]
    && t[n + 1] == [Edge(n, sigma, um)]
    && forall s: nat :: s < n ==> t[s] == base[s] + Extra(base, sigma, um, s in visited && !owner[s], s)
  }

  /** The added edge leaves no letter missing. */
  lemma {:induction false} ExtraCompletes(base: Table, sigma: set<Letter>, um: nat, s: nat)
    requires s < |base|
    ensures Missing(sigma, base[s] + Extra(base, sigma, um, true, s)) == {}
  {
    var es := base[s] + Extra(base, sigma, um, true, s);
    forall l | l in sigma ensures exists i :: 0 <= i < |es| && l in es[i].cond {
      if l in Missing(sigma, base[s]) {
        assert l in es[|base[s]|].cond;
      } else {
        var i :| 0 <= i < |base[s]| && l in base[s][i].cond;
        assert l in es[i].cond;
      }
    }
  }

  // ----- the traversal

  /** The states of a Boolean vector that are set. */
  function Marked(v: seq<bool>): set<nat> {
    set s: nat | s < |v| && v[s]
  }

  function CountMarked(todo: seq<nat>, v: seq<bool>): nat {
    if todo == [] then 0
    else CountMarked(todo[..|todo| - 1], v) + if todo[|todo| - 1] < |v| && v[todo[|todo| - 1]] then 1 else 0
  }

  lemma {:induction false} CountMarkedAppend(todo: seq<nat>, more: seq<nat>, v: seq<bool>)
    requires forall i :: 0 <= i < |more| ==> more[i] < |v| && !v[more[i]]
    ensures CountMarked(todo + more, v) == CountMarked(todo, v)
  {
    if more == [] {
      assert todo + more == todo;
    } else {
      assert (todo + more)[..|todo + more| - 1] == todo + more[..|more| - 1];
      CountMarkedAppend(todo, more[..|more| - 1], v);
    }
  }

  /** Some edge of the list leads to `s`. */
  ghost predicate Leads(es: seq<Edge>, s: nat) {
    exists i :: 0 <= i < |es| && es[i].dst == s
  }

  /** Scans the edges of one state: what they leave uncovered (for an environment state), new owners
      and new work for the states not seen yet. */
  method Visit(es: seq<Edge>, sigma: set<Letter>, seen: seq<bool>, todo: seq<nat>, owner: seq<bool>, mine: bool)
    returns (missing: set<Letter>, todo': seq<nat>, owner': seq<bool>, ghost more: seq<nat>)
    requires |seen| == |owner| && forall i :: 0 <= i < |es| ==> es[i].dst < |seen|
    ensures missing == if mine then sigma else Missing(sigma, es)
    ensures todo' == todo + more
    ensures forall s: nat :: s in more <==> s < |seen| && !seen[s] && Leads(es, s)
    ensures |owner'| == |owner|
    ensures forall s: nat :: s < |owner| ==> owner'[s] == if !seen[s] && Leads(es, s) then !mine else owner[s]
  {
    missing, todo', owner', more := sigma, todo, owner, [];
    for i := 0 to |es|
      invariant missing == if mine then sigma else Missing(sigma, es[..i])
      invariant todo' == todo + more
      invariant forall s: nat :: s in more <==> s < |seen| && !seen[s] && Leads(es[..i], s)
      invariant |owner'| == |owner|
      invariant forall s: nat :: s < |owner| ==> owner'[s] == if !seen[s] && Leads(es[..i], s) then !mine else owner[s]
    {
      var e := es[i];
      assert es[..i + 1] == es[..i] + [e];
      LeadsSnoc(es[..i], e);
      MissingSnoc(sigma, es[..i], e);
      if !mine {
        missing := missing - e.cond;
      }
      if !seen[e.dst] {
        owner' := owner'[e.dst := !mine];
        todo' := todo' + [e.dst];
        more := more + [e.dst];
      }
    }
    assert es[..|es|] == es;
  }

  lemma {:induction false} LeadsSnoc(es: seq<Edge>, e: Edge)
    ensures forall s: nat :: Leads(es + [e], s) <==> Leads(es, s) || s == e.dst
  {
    forall s: nat ensures Leads(es + [e], s) <==> Leads(es, s) || s == e.dst {
      if Leads(es, s) {
        var i :| 0 <= i < |es| && es[i].dst == s;
        assert (es + [e])[i].dst == s;
      }
      assert (es + [e])[|es|] == e;
    }
  }

  lemma {:induction false} MissingSnoc(sigma: set<Letter>, es: seq<Edge>, e: Edge)
    ensures Missing(sigma, es + [e]) == Missing(sigma, es) - e.cond
  {
    var es' := es + [e];
    assert es'[|es|] == e && forall i :: 0 <= i < |es| ==> es'[i] == es[i];
    forall l ensures l in Missing(sigma, es') <==> l in Missing(sigma, es) - e.cond {
      if l in Missing(sigma, es) - e.cond {
        forall i | 0 <= i < |es'| ensures l !in es'[i].cond {}
      }
      if l in Missing(sigma, es') {
        assert l !in es'[|es|].cond;
        forall i | 0 <= i < |es| ensures l !in es[i].cond {
          assert l !in es'[i].cond;
        }
      }
    }
  }

  /** What the traversal knows about the states it has seen or will visit: they are reachable,
      and the successors of the seen ones are among them. */
  ghost predicate Explores(base: Table, init: nat, known: set<nat>, done: set<nat>) {
    && done <= known && init in known
    && (forall s: nat :: s in known ==> s < |base| + 2)
    && (forall s: nat :: s in known && s < |base| ==> Reachable(base, init, s))
    && (forall r: nat, i: nat, s: nat :: r in done && Step(base, r, i, s) ==> s in known)
  }

  /** The known states are owned according to any alternation of the arena. */
  ghost predicate OwnsBySide(base: Table, init: nat, known: set<nat>, owner: seq<bool>) {
    forall side: nat -> bool, s: nat ::
      Alternates(base, init, side) && s in known && s < |base| && s < |owner| ==> owner[s] == side(s)
  }

  function Pending(todo: seq<nat>): set<nat> {
    set s | s in todo
  }

  /** `owner'` differs from `owner` only on the new states, which get the owner opposite to `src`. */
  ghost predicate Reowns(owner: seq<bool>, owner': seq<bool>, src: nat, fresh': set<nat>) {
    && |owner'| == |owner| && src < |owner|
    && forall s: nat :: s < |owner| ==> owner'[s] == if s in fresh' then !owner[src] else owner[s]
  }

  /** An unseen state found from `src` is a successor of `src` in the original arena, unless it is a sink. */
  lemma {:induction false} FoundStep(base: Table, t: Table, sigma: set<Letter>, um: nat, done: set<nat>,
                                     owner: seq<bool>, src: nat, s: nat)
    returns (i: nat)
    requires Closed(base) && Completes(base, t, sigma, um, done, owner) && src < |t|
    requires Leads(t[src], s) && s < |base|
    ensures Step(base, src, i, s)
  {
    var k :| 0 <= k < |t[src]| && t[src][k].dst == s;
    i := k;
  }

  lemma {:induction false} ExploresStep(base: Table, t: Table, sigma: set<Letter>, um: nat, init: nat,
                                        known: set<nat>, done: set<nat>, owner: seq<bool>, src: nat,
                                        more: set<nat>)
    requires Closed(base) && Explores(base, init, known, done)
    requires Completes(base, t, sigma, um, done, owner) && src in known
    requires forall s: nat :: s in more <==> s < |owner| && s !in done && s != src && Leads(t[src], s)
    ensures Explores(base, init, known + more, done + {src})
  {
    forall s: nat | s in more && s < |base| ensures Reachable(base, init, s) {
      var i := FoundStep(base, t, sigma, um, done, owner, src, s);
      ReachStep(base, init, src, i, s);
    }
    forall i: nat, s: nat | Step(base, src, i, s) ensures s in known + more {
      assert t[src][i] == base[src][i];
      assert Leads(t[src], s);
    }
  }

  lemma {:induction false} OwnsBySideStep(base: Table, t: Table, sigma: set<Letter>, um: nat, init: nat,
                                          known: set<nat>, done: set<nat>, owner: seq<bool>, owner': seq<bool>,
                                          src: nat, more: set<nat>)
    requires Closed(base) && Explores(base, init, known, done) && OwnsBySide(base, init, known, owner)
    requires Completes(base, t, sigma, um, done, owner) && src in known
    requires forall s: nat :: s in more <==> s < |owner| && s !in done && s != src && Leads(t[src], s)
    requires Reowns(owner, owner', src, more)
    ensures OwnsBySide(base, init, known + more, owner')
  {
    forall side: nat -> bool, s: nat | Alternates(base, init, side) && s in known + more && s < |base|
      ensures owner'[s] == side(s)
    {
      if s in more {
        var i := FoundStep(base, t, sigma, um, done, owner, src, s);
      }
    }
  }

  /** Visiting `src` adds its missing edge the first time and nothing afterwards. */
  lemma {:induction false} CompletesStep(base: Table, t: Table, sigma: set<Letter>, um: nat, done: set<nat>,
                      owner: seq<bool>, owner': seq<bool>, src: nat, more: set<nat>, t': Table)
    requires Completes(base, t, sigma, um, done, owner) && src < |t|
    requires done !! more && src !in more && Reowns(owner, owner', src, more)
    requires var missing := if owner[src] then sigma else Missing(sigma, t[src]);
             t' == if !owner[src] && missing != {} then t[src := t[src] + [Edge(|base| + 1, missing, um)]] else t
    ensures Completes(base, t', sigma, um, done + {src}, owner')
  {
    if src < |base| {
      if src in done && !owner[src] {
        ExtraCompletes(base, sigma, um, src);
      }
      assert base[src] + [] == base[src];
    } else {
      assert t[src][0].cond == sigma;
      assert Missing(sigma, t[src]) == {};
    }
  }

  /** The invariant of the traversal. */
  ghost predicate Traversing(base: Table, t: Table, sigma: set<Letter>, um: nat, init: nat,
                             seen: seq<bool>, owner: seq<bool>, todo: seq<nat>) {
    && |seen| == |base| + 2
    && Completes(base, t, sigma, um, Marked(seen), owner)
    && Explores(base, init, Marked(seen) + Pending(todo), Marked(seen))
    && OwnsBySide(base, init, Marked(seen) + Pending(todo), owner)
  }

  lemma {:induction false} TraversingStep(base: Table, t: Table, sigma: set<Letter>, um: nat, init: nat,
                                          seen: seq<bool>, owner: seq<bool>, rest: seq<nat>, src: nat,
                                          more: seq<nat>, owner': seq<bool>, t': Table)
    requires Closed(base) && Traversing(base, t, sigma, um, init, seen, owner, rest + [src])
    requires src < |seen|
    requires forall s: nat :: s in more <==> s < |seen| && !seen[src := true][s] && Leads(t[src], s)
    requires Reowns(owner, owner', src, Pending(more))
    requires var missing := if owner[src] then sigma else Missing(sigma, t[src]);
             t' == if !owner[src] && missing != {} then t[src := t[src] + [Edge(|base| + 1, missing, um)]] else t
    ensures Traversing(base, t', sigma, um, init, seen[src := true], owner', rest + more)
  {
    var done, known := Marked(seen), Marked(seen) + Pending(rest + [src]);
    ExploresStep(base, t, sigma, um, init, known, done, owner, src, Pending(more));
    OwnsBySideStep(base, t, sigma, um, init, known, done, owner, owner', src, Pending(more));
    CompletesStep(base, t, sigma, um, done, owner, owner', src, Pending(more), t');
    assert Marked(seen[src := true]) == done + {src};
    assert Marked(seen[src := true]) + Pending(rest + more) == known + Pending(more);
  }

  /** The owners of the sinks, states `n` and `n + 1`, while the second one is unseen, on the stack, or seen: the
      first one is only found from it. */
  predicate SinksOwned(n: nat, seen: seq<bool>, owner: seq<bool>, todo: seq<nat>) {
    && |seen| == |owner| == n + 2
    && (seen[n] || n in todo ==> seen[n + 1])
    && owner[n + 1] == (seen[n + 1] || n + 1 in todo)
    && owner[n] == !seen[n + 1]
  }

  lemma {:induction false} SinksOwnedStep(base: Table, t: Table, sigma: set<Letter>, um: nat, seen: seq<bool>,
                                          owner: seq<bool>, rest: seq<nat>, src: nat, more: seq<nat>,
                                          owner': seq<bool>)
    requires Closed(base) && Completes(base, t, sigma, um, Marked(seen), owner) && src < |seen|
    requires SinksOwned(|base|, seen, owner, rest + [src])
    requires forall s: nat :: s in more <==> s < |seen| && !seen[src := true][s] && Leads(t[src], s)
    requires Reowns(owner, owner', src, Pending(more))
    ensures SinksOwned(|base|, seen[src := true], owner', rest + more)
  {
    var n := |base|;
    if src < n {
      assert forall i :: 0 <= i < |base[src]| ==> base[src][i].dst < n;
      assert !Leads(t[src], n);
      assert Leads(t[src], n + 1) ==> !owner[src];
    } else {
      assert t[src][0].dst == if src == n then n + 1 else n;
      assert Leads(t[src], n) <==> src == n + 1;
      assert Leads(t[src], n + 1) <==> src == n;
    }
  }

  /** Popping `src` and pushing unseen states only makes progress. */
  lemma {:induction false} TraversalShrinks(seen: seq<bool>, rest: seq<nat>, src: nat, more: seq<nat>)
    requires src < |seen|
    requires forall s: nat :: s in more ==> s < |seen| && !seen[src := true][s]
    ensures if seen[src]
            then Unmarked(seen[src := true]) == Unmarked(seen)
                 && CountMarked(rest + more, seen[src := true]) < CountMarked(rest + [src], seen)
            else Unmarked(seen[src := true]) < Unmarked(seen)
  {
    if seen[src] {
      assert seen[src := true] == seen;
      assert forall i :: 0 <= i < |more| ==> more[i] in more;
      CountMarkedAppend(rest, more, seen);
      assert (rest + [src])[..|rest|] == rest;
    } else {
      assert src in Unmarked(seen);
    }
  }

  lemma {:induction false} PendingBound(base: Table, t: Table, sigma: set<Letter>, um: nat, init: nat,
                                        seen: seq<bool>, owner: seq<bool>, rest: seq<nat>, src: nat)
    requires Closed(base) && Traversing(base, t, sigma, um, init, seen, owner, rest + [src])
    ensures src < |seen| == |t| == |owner| && forall i :: 0 <= i < |t[src]| ==> t[src][i].dst < |seen|
  {
    assert src in Pending(rest + [src]);
  }

  /** Visits `src`, just popped: the states left to visit become `todo`, and `src` is completed. */
  method VisitState(arena: TwaGraph, sigma: set<Letter>, um: nat, ghost base: Table,
                    seen: seq<bool>, owner: seq<bool>, rest: seq<nat>, src: nat)
    returns (todo: seq<nat>, owner': seq<bool>, ghost more: seq<nat>)
    requires Closed(base)
    requires Traversing(base, arena.edges, sigma, um, arena.init, seen, owner, rest + [src])
    requires src < |seen| && SinksOwned(|base|, seen, owner, rest + [src])
    modifies arena`edges
    ensures Traversing(base, arena.edges, sigma, um, arena.init, seen[src := true], owner', todo)
    ensures SinksOwned(|base|, seen[src := true], owner', todo)
    ensures todo == rest + more && forall s: nat :: s in more ==> s < |seen| && !seen[src := true][s]
  {
    PendingBound(base, arena.edges, sigma, um, arena.init, seen, owner, rest, src);
    var missing;
    missing, todo, owner', more := Visit(arena.edges[src], sigma, seen[src := true], rest, owner, owner[src]);
    ghost var t := arena.edges;
    if !owner[src] && missing != {} {
      arena.NewEdge(src, |arena.edges| - 1, missing, um);
    }
    SinksOwnedStep(base, t, sigma, um, seen, owner, rest, src, more, owner');
    TraversingStep(base, t, sigma, um, arena.init, seen, owner, rest, src, more, owner', arena.edges);
  }

  /** The traversal of the completed arena.  A state can be on the stack several times, and visiting
      it again can push the sink its own completion has added. */
  method Traverse(arena: TwaGraph, sigma: set<Letter>, um: nat, ghost base: Table, owner0: seq<bool>)
    returns (owner: seq<bool>, ghost visited: set<nat>)
    requires Closed(base) && arena.init < |base|
    requires Completes(base, arena.edges, sigma, um, {}, owner0) && !owner0[arena.init]
    requires owner0[|base|] && !owner0[|base| + 1]
    modifies arena`edges
    ensures Completes(base, arena.edges, sigma, um, visited, owner)
    ensures owner[|base|] == !owner[|base| + 1]
    ensures Explores(base, arena.init, visited, visited) && OwnsBySide(base, arena.init, visited, owner)
  {
    var seen := seq(|arena.edges|, _ => false);
    var todo := [arena.init];
    owner := owner0;
    TraversingStart(base, arena.edges, sigma, um, arena.init, owner);
    while todo != []
      invariant Traversing(base, arena.edges, sigma, um, arena.init, seen, owner, todo)
      invariant SinksOwned(|base|, seen, owner, todo)
      decreases Unmarked(seen), CountMarked(todo, seen)
    {
      var src, rest := todo[|todo| - 1], todo[..|todo| - 1];
      assert todo == rest + [src];
      PendingBound(base, arena.edges, sigma, um, arena.init, seen, owner, rest, src);
      ghost var more;
      todo, owner, more := VisitState(arena, sigma, um, base, seen, owner, rest, src);
      TraversalShrinks(seen, rest, src, more);
      seen := seen[src := true];
    }
    visited := Marked(seen);
    assert visited + Pending(todo) == visited;
  }

  lemma {:induction false} TraversingStart(base: Table, t: Table, sigma: set<Letter>, um: nat, init: nat,
                                           owner: seq<bool>)
    requires init < |base| && Completes(base, t, sigma, um, {}, owner) && !owner[init]
    ensures Traversing(base, t, sigma, um, init, seq(|t|, _ => false), owner, [init])
  {
    var seen := seq(|t|, _ => false);
    assert Marked(seen) == {} && Pending([init]) == {init};
    assert ReachIn(base, init, init, 0);
  }

  function Unmarked(v: seq<bool>): set<nat> {
    set s: nat | s < |v| && !v[s]
  }

  /** An arena, what completing it starts from, and the result. */
  datatype Completion = Completion(base: Table, init: nat, sigma: set<Letter>, um: nat,
                                   t: Table, visited: set<nat>, owner: seq<bool>) {
    function Arena(): Game {
      Game(t, owner)
    }
  }

  /** The completion concerns exactly the states reachable from the initial state, and owns them according
      to every alternation; the sinks belong to different players. */
  ghost predicate Completed(c: Completion) {
    && Closed(c.base) && c.init < |c.base|
    && (forall s: nat :: s < |c.base| ==> (s in c.visited <==> Reachable(c.base, c.init, s)))
    && Completes(c.base, c.t, c.sigma, c.um, c.visited, c.owner)
    && OwnsBySide(c.base, c.init, c.visited, c.owner)
    && c.owner[|c.base|] == !c.owner[|c.base| + 1]
  }

  /** Adds two sinks, completes the environment states reachable from the initial state, and computes
      the owner of every state.  Fails, with the two states added, if no color is unsatisfying. */
  method CompleteEnv(arena: TwaGraph, sigma: set<Letter>, unsat: Option<nat>) returns (r: Option<seq<bool>>)
    requires Closed(arena.edges) && arena.init < |arena.edges|
    modifies arena`edges
    ensures unsat.None? ==> r.None? && arena.edges == old(arena.edges) + [[], []]
    ensures unsat.Some? ==>
              && r.Some?
              && exists visited: set<nat> ::
                   Completed(Completion(old(arena.edges), arena.init, sigma, unsat.value, arena.edges,
                                        visited, r.value))
  {
    ghost var base := arena.edges;
    var sinkEnv := arena.NewState();
    var sinkCon := arena.NewState();
    if unsat.None? {
      return None;
    }
    var um := unsat.value;
    arena.NewEdge(sinkCon, sinkEnv, sigma, um);
    arena.NewEdge(sinkEnv, sinkCon, sigma, um);

    var owner := seq(|arena.edges|, _ => false);
    owner := owner[arena.init := false];
    owner := owner[sinkEnv := true];
    ghost var visited;
    owner, visited := Traverse(arena, sigma, um, base, owner);
    r := Some(owner);
    forall s: nat | s < |base| && Reachable(base, arena.init, s) ensures s in visited {
      var n: nat :| ReachIn(base, arena.init, s, n);
      ReachInvariant(base, arena.init, s, n, visited);
    }
    assert Completed(Completion(base, arena.init, sigma, um, arena.edges, visited, owner));
  }

  // ----- completion preserves meaning

  /** A table as a game whose owners do not matter. */
  function Bare(t: Table): Game {
    Game(t, [])
  }

  /** The move is one of the original arena. */
  predicate Original(base: Table, v: Move) {
    v.src < |base| && v.idx < |base[v.src]|
  }

  /** Once a play has used an added edge it stays in the sinks, on the unsatisfying color. */
  lemma {:induction false} SinksAbsorb(c: Completion, play: Play, from: nat, n: nat)
    requires Completed(c) && IsPlay(c.Arena(), play)
    requires from <= n && !Original(c.base, play(from))
    ensures !Original(c.base, play(n)) && Color(c.Arena(), play(n)) == c.um
    decreases n - from
  {
    assert Continues(c.Arena(), play, from);
    if from < n {
      SinksAbsorb(c, play, from + 1, n);
    }
  }

  /** A play of the completed arena is won by the controller exactly when it is a play of the
      original arena won by the controller. */
  lemma {:induction false} CompletionPreservesWins(c: Completion, play: Play)
    requires Completed(c) && c.um % 2 == 0 && IsPlay(c.Arena(), play)
    ensures Wins(c.Arena(), true, play) <==> IsPlay(Bare(c.base), play) && Wins(Bare(c.base), true, play)
  {
    if n: nat :| !Original(c.base, play(n)) {
      AddedEdgeLost(c, play, n);
    } else {
      OriginalPlay(c, play);
    }
  }

  lemma {:induction false} AddedEdgeLost(c: Completion, play: Play, n: nat)
    requires Completed(c) && c.um % 2 == 0 && IsPlay(c.Arena(), play)
    requires !Original(c.base, play(n))
    ensures !Wins(c.Arena(), true, play) && !IsPlay(Bare(c.base), play)
  {
    assert !Valid(Bare(c.base), play(n));
    forall k: nat | n <= k ensures Color(c.Arena(), play(k)) == c.um {
      SinksAbsorb(c, play, n, k);
    }
    EventuallyConstant(c.Arena(), c.um, play, n);
  }

  lemma {:induction false} OriginalMove(c: Completion, v: Move)
    requires Completed(c) && Original(c.base, v)
    ensures Valid(Bare(c.base), v) && Valid(c.Arena(), v)
    ensures Dst(Bare(c.base), v) == Dst(c.Arena(), v) && Color(Bare(c.base), v) == Color(c.Arena(), v)
    ensures c.base[v.src][v.idx] == c.t[v.src][v.idx]
  {
  }

  lemma {:induction false} OriginalPlay(c: Completion, play: Play)
    requires Completed(c) && IsPlay(c.Arena(), play)
    requires forall n: nat :: Original(c.base, play(n))
    ensures IsPlay(Bare(c.base), play) && (Wins(c.Arena(), true, play) <==> Wins(Bare(c.base), true, play))
  {
    forall n: nat
      ensures Continues(Bare(c.base), play, n) && Color(Bare(c.base), play(n)) == Color(c.Arena(), play(n))
    {
      OriginalMove(c, play(n));
      assert Continues(c.Arena(), play, n);
    }
    assert forall n: nat :: Continues(Bare(c.base), play, n) ==> Valid(Bare(c.base), play(n));
    SameColors(c.Arena(), Bare(c.base), play);
    SameColors(Bare(c.base), c.Arena(), play);
  }

  /** A play that ends on one even color is lost by the controller. */
  lemma {:induction false} EventuallyConstant(g: Game, c: nat, play: Play, n: nat)
    requires forall k: nat :: Valid(g, play(k))
    requires forall k: nat :: n <= k ==> Color(g, play(k)) == c
    requires c % 2 == 0
    ensures !Wins(g, true, play)
  {
    forall k: nat ensures SeenFrom(g, c, play, k) {
      assert Color(g, play(n + k)) == c;
    }
    assert BelowFrom(g, c, play, n);
    assert Limit(g, c, play) && c % 2 == Parity(false);
    assert Wins(g, false, play);
    WinnerUnique(g, play);
  }

  lemma {:induction false} SameColors(g: Game, g': Game, play: Play)
    requires forall n: nat :: Valid(g, play(n)) && Valid(g', play(n)) && Color(g, play(n)) == Color(g', play(n))
    ensures Wins(g, true, play) ==> Wins(g', true, play)
  {
    if Wins(g, true, play) {
      var c: nat :| Limit(g, c, play) && c % 2 == Parity(true);
      var b: nat :| BelowFrom(g, c, play, b);
      assert BelowFrom(g', c, play, b);
      forall n: nat ensures SeenFrom(g', c, play, n) {
        assert SeenFrom(g, c, play, n);
      }
      assert Limit(g', c, play);
    }
  }
}
