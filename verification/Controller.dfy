/**
 From a winning strategy to a controller: an automaton whose transitions fuse one
 environment move with the controller's answer.
 */
module Controller {
  import opened Game

  /** A transition of the controller; it carries no acceptance mark. */
  datatype Trans = Trans(dst: nat, cond: set<Letter>)

  /** Transitions by source state; state 0 is initial. */
  type Machine = seq<seq<Trans>>

  predicate InputOnly(sigma: set<Letter>, cond: set<Letter>) {
    cond <= sigma && forall l, l' :: l in cond && l' in sigma && l.inp == l'.inp ==> l' in cond
  }

  predicate OutputOnly(sigma: set<Letter>, cond: set<Letter>) {
    cond <= sigma && forall l, l' :: l in cond && l' in sigma && l.out == l'.out ==> l' in cond
  }

  function Label(g: Game, v: Move): set<Letter>
    requires Valid(g, v)
  {
    g.edges[v.src][v.idx].cond
  }

  /** In `area`, environment states read inputs and move to controller states, which write
      outputs and move back. */
  ghost predicate Turned(g: Game, sigma: set<Letter>, area: set<nat>) {
    forall v: Move :: v.src in area && Valid(g, v) ==>
      if Owned(g, v.src, false)
      then InputOnly(sigma, Label(g, v)) && Owned(g, Dst(g, v), true)
      else OutputOnly(sigma, Label(g, v)) && Label(g, v) != {} && Owned(g, Dst(g, v), false)
  }

  /** What the extraction needs of the strategy: it keeps the controller inside the winning `area`
      against every move of the environment. */
  ghost predicate Controls(g: Game, area: set<nat>, strat: Strategy) {
    && (forall s: nat :: s in area ==> IsState(g, s))
    && (forall s: nat {:trigger Owned(g, s, true)} :: s in area && Owned(g, s, true) ==>
          s in strat && Valid(g, Move(s, strat[s])) && Dst(g, Move(s, strat[s])) in area)
    && (forall v: Move {:trigger Valid(g, v)} :: v.src in area && Owned(g, v.src, false) && Valid(g, v) ==>
         Dst(g, v) in area)
  }

  /** The controller's answer to the environment move `v`. */
  function Answer(g: Game, strat: Strategy, v: Move): Move
    requires Valid(g, v) && Dst(g, v) in strat
  {
    Move(Dst(g, v), strat[Dst(g, v)])
  }

  /** `t` fuses the environment move `v` with its answer: it reads what `v` reads, writes one
      output the answer allows, and leads to the state the answer leads to. */
  ghost predicate Fuses(g: Game, sigma: set<Letter>, strat: Strategy, back: seq<nat>, v: Move, t: Trans) {
    && Valid(g, v) && Dst(g, v) in strat && Valid(g, Answer(g, strat, v))
    && t.dst < |back| && back[t.dst] == Dst(g, Answer(g, strat, v))
    && exists l :: l in Label(g, Answer(g, strat, v)) && t.cond == Writing(sigma, Label(g, v), l.out)
  }

  /** The letters of `cond` with output `o`. */
  function Writing(sigma: set<Letter>, cond: set<Letter>, o: nat): set<Letter> {
    set l | l in sigma && l.out == o && l in cond
  }

  ghost predicate FusesAll(g: Game, sigma: set<Letter>, strat: Strategy, back: seq<nat>, s: nat, ts: seq<Trans>) {
    && IsState(g, s) && |ts| == |g.edges[s]|
    && forall i: nat :: i < |ts| ==> Fuses(g, sigma, strat, back, Move(s, i), ts[i])
  }

  /** The answer taken from state `c`, reached from `s`: the strategy's edge, except that
      a self loop is taken at once. */
  method ChooseEdge(g: Game, sigma: set<Letter>, strat: Strategy, s: nat, c: nat, ghost area: set<nat>) returns (k: nat)
    requires WellFormed(g) && Turned(g, sigma, area) && Controls(g, area, strat)
    requires s in area && Owned(g, s, false) && c in area && Owned(g, c, true)
    ensures k == strat[c] && Valid(g, Move(c, k))
  {
    k := 0;
    while k < |g.edges[c]|
      invariant k <= strat[c] < |g.edges[c]|
    {
      assert Valid(g, Move(c, k));
      var selfLoop := c == s || g.edges[c][k].dst == c;
      if selfLoop || strat[c] == k {
        return;
      }
      k := k + 1;
    }
  }

  /** The two directions of the state numbering are inverse of each other. */
  ghost predicate Linked(pg2aut: seq<int>, back: seq<nat>) {
    && (forall q: nat :: q < |back| ==> back[q] < |pg2aut| && pg2aut[back[q]] == q)
    && (forall s: nat :: s < |pg2aut| && pg2aut[s] != -1 ==> 0 <= pg2aut[s] < |back| && back[pg2aut[s]] == s)
  }

  lemma {:induction false} FusesGrows(g: Game, sigma: set<Letter>, strat: Strategy, back: seq<nat>,
                                      back': seq<nat>, v: Move, t: Trans)
    requires Fuses(g, sigma, strat, back, v, t) && back <= back'
    ensures Fuses(g, sigma, strat, back', v, t)
  {
  }

  /** The environment states of the area that have a number. */
  ghost predicate Numbered(g: Game, area: set<nat>, pg2aut: seq<int>, back: seq<nat>) {
    && |pg2aut| == |g.edges| && Linked(pg2aut, back)
    && forall q: nat :: q < |back| ==> back[q] in area && Owned(g, back[q], false)
  }

  /** Number of the target of one fused edge, created and scheduled if new. */
  method Number(g: Game, d: nat, pg2aut: seq<int>, todo: seq<nat>, trans: Machine, ghost back: seq<nat>,
                ghost area: set<nat>)
    returns (pg2aut': seq<int>, todo': seq<nat>, trans': Machine, ghost back': seq<nat>)
    requires Numbered(g, area, pg2aut, back) && |trans| == |back|
    requires d < |pg2aut| && d in area && Owned(g, d, false)
    ensures Numbered(g, area, pg2aut', back') && |trans'| == |back'|
    ensures pg2aut'[d] != -1
    ensures if pg2aut[d] == -1
            then back' == back + [d] && todo' == todo + [d] && trans' == trans + [[]] && pg2aut' == pg2aut[d := |back|]
            else back' == back && todo' == todo && trans' == trans && pg2aut' == pg2aut
  {
    pg2aut', todo', trans', back' := pg2aut, todo, trans, back;
    if pg2aut[d] == -1 {
      trans' := trans + [[]];
      pg2aut' := pg2aut[d := |trans|];
      todo' := todo + [d];
      back' := back + [d];
    }
  }

  /** Some transition of the list leads to `r`. */
  ghost predicate Enters(ts: seq<Trans>, r: nat) {
    exists j: nat :: j < |ts| && ts[j].dst == r
  }

  /** The part of the machine built so far, while the transitions of state `q` are added:
      the first `i` moves of the environment are fused, the other states are untouched. */
  ghost predicate Fusing(g: Game, sigma: set<Letter>, strat: Strategy, s: nat, q: nat, i: nat,
                         trans0: Machine, back0: seq<nat>, todo0: seq<nat>,
                         trans: Machine, back: seq<nat>, todo: seq<nat>) {
    && q < |trans0| == |back0| <= |trans| == |back| && back0 <= back
    && todo == todo0 + back[|back0|..]
    && |trans[q]| == i
    && (forall j: nat :: j < i ==> Fuses(g, sigma, strat, back, Move(s, j), trans[q][j]))
    && (forall r: nat :: r < |trans| && r != q ==> trans[r] == if r < |trans0| then trans0[r] else [])
    && (forall r: nat :: |trans0| <= r < |trans| ==> Enters(trans[q], r))
  }

  /** One more fused move keeps everything. */
  lemma {:induction false} FusingStep(g: Game, sigma: set<Letter>, strat: Strategy, s: nat, q: nat, i: nat,
                   trans0: Machine, back0: seq<nat>, todo0: seq<nat>,
                   trans: Machine, back: seq<nat>, todo: seq<nat>,
                   d: nat, isNew: bool, t: Trans)
    requires Fusing(g, sigma, strat, s, q, i, trans0, back0, todo0, trans, back, todo)
    requires var back' := if isNew then back + [d] else back;
             Fuses(g, sigma, strat, back', Move(s, i), t) && (isNew ==> t.dst == |back|)
    ensures var back' := if isNew then back + [d] else back;
            var todo' := if isNew then todo + [d] else todo;
            var trans1 := if isNew then trans + [[]] else trans;
            Fusing(g, sigma, strat, s, q, i + 1, trans0, back0, todo0, trans1[q := trans1[q] + [t]], back', todo')
  {
    var back' := if isNew then back + [d] else back;
    var trans1 := if isNew then trans + [[]] else trans;
    var trans' := trans1[q := trans1[q] + [t]];
    assert back'[|back0|..] == back[|back0|..] + if isNew then [d] else [];
    forall j: nat | j < i ensures Fuses(g, sigma, strat, back', Move(s, j), trans'[q][j]) {
      FusesGrows(g, sigma, strat, back, back', Move(s, j), trans[q][j]);
    }
    forall r: nat | |trans0| <= r < |trans'| ensures Enters(trans'[q], r) {
      if r < |trans| {
        assert Enters(trans[q], r);
        var j: nat :| j < |trans[q]| && trans[q][j].dst == r;
        assert trans'[q][j].dst == r;
      } else {
        assert trans'[q][i].dst == r;
      }
    }
  }

  /** Adds the transitions of one state. */
  method FuseState(g: Game, sigma: set<Letter>, strat: Strategy, s: nat,
                   pg2aut0: seq<int>, todo0: seq<nat>, trans0: Machine, ghost back0: seq<nat>, ghost area: set<nat>)
    returns (pg2aut: seq<int>, todo: seq<nat>, trans: Machine, ghost back: seq<nat>)
    requires WellFormed(g) && Turned(g, sigma, area) && Controls(g, area, strat)
    requires Numbered(g, area, pg2aut0, back0) && |trans0| == |back0|
    requires s in area && Owned(g, s, false) && pg2aut0[s] != -1 && trans0[pg2aut0[s]] == []
    ensures Numbered(g, area, pg2aut, back)
    ensures forall t: nat :: t < |pg2aut0| && pg2aut0[t] != -1 ==> pg2aut[t] == pg2aut0[t]
    ensures Fusing(g, sigma, strat, s, pg2aut0[s], |g.edges[s]|, trans0, back0, todo0, trans, back, todo)
  {
    pg2aut, todo, trans, back := pg2aut0, todo0, trans0, back0;
    var q := pg2aut0[s];
    for i := 0 to |g.edges[s]|
      invariant Numbered(g, area, pg2aut, back)
      invariant forall t: nat :: t < |pg2aut0| && pg2aut0[t] != -1 ==> pg2aut[t] == pg2aut0[t]
      invariant Fusing(g, sigma, strat, s, q, i, trans0, back0, todo0, trans, back, todo)
    {
      var e1 := g.edges[s][i];
      assert Valid(g, Move(s, i));
      var k := ChooseEdge(g, sigma, strat, s, e1.dst, area);
      var e2 := g.edges[e1.dst][k];
      assert Valid(g, Move(e1.dst, k)) && Answer(g, strat, Move(s, i)) == Move(e1.dst, k);
      var l :| l in e2.cond;
      ghost var transBefore, backBefore, todoBefore, isNew := trans, back, todo, pg2aut[e2.dst] == -1;
      pg2aut, todo, trans, back := Number(g, e2.dst, pg2aut, todo, trans, back, area);
      var t := Trans(pg2aut[e2.dst], Writing(sigma, e1.cond, l.out));
      assert Fuses(g, sigma, strat, back, Move(s, i), t);
      FusingStep(g, sigma, strat, s, q, i, trans0, back0, todo0, transBefore, backBefore, todoBefore, e2.dst, isNew, t);
      trans := trans[q := trans[q] + [t]];
    }
  }

  /** The states to do are distinct, numbered, and have no transition yet. */
  ghost predicate Waiting(pg2aut: seq<int>, todo: seq<nat>, trans: Machine) {
    && (forall i: nat :: i < |todo| ==>
          todo[i] < |pg2aut| && 0 <= pg2aut[todo[i]] < |trans| && trans[pg2aut[todo[i]]] == [])
    && (forall i: nat, j: nat :: i < j < |todo| ==> todo[i] != todo[j])
  }

  /** State `r` is initial or entered from an earlier state. */
  ghost predicate HasParent(trans: Machine, r: nat) {
    r > 0 ==> exists q: nat :: q < r && q < |trans| && Enters(trans[q], r)
  }

  /** The machine at any point of the extraction: a state still to do has no transition yet, every other
      state has all of its own, and every state but the first is entered from an earlier one. */
  ghost predicate Building(g: Game, sigma: set<Letter>, strat: Strategy, area: set<nat>, init: nat,
                           pg2aut: seq<int>, todo: seq<nat>, trans: Machine, back: seq<nat>) {
    && Numbered(g, area, pg2aut, back) && |trans| == |back| > 0 && back[0] == init
    && Waiting(pg2aut, todo, trans)
    && (forall q: nat :: q < |back| && back[q] !in todo ==> FusesAll(g, sigma, strat, back, back[q], trans[q]))
    && (forall r: nat :: r < |trans| ==> HasParent(trans, r))
  }

  lemma {:induction false} WaitingStep(g: Game, sigma: set<Letter>, strat: Strategy, area: set<nat>,
                    pg2aut0: seq<int>, rest: seq<nat>, s: nat, n: nat, trans0: Machine, back0: seq<nat>,
                    pg2aut: seq<int>, todo: seq<nat>, trans: Machine, back: seq<nat>)
    requires Numbered(g, area, pg2aut0, back0) && Waiting(pg2aut0, rest + [s], trans0)
    requires Numbered(g, area, pg2aut, back) && s < |pg2aut0| && 0 <= pg2aut0[s]
    requires forall t: nat :: t < |pg2aut0| && pg2aut0[t] != -1 ==> pg2aut[t] == pg2aut0[t]
    requires Fusing(g, sigma, strat, s, pg2aut0[s], n, trans0, back0, rest, trans, back, todo)
    ensures Waiting(pg2aut, todo, trans)
  {
    forall i: nat | i < |todo|
      ensures i < |rest| ==> todo[i] == (rest + [s])[i] && todo[i] != s && 0 <= pg2aut[todo[i]] < |back0|
      ensures i >= |rest| ==> pg2aut[todo[i]] == |back0| + (i - |rest|)
      ensures todo[i] < |pg2aut| && 0 <= pg2aut[todo[i]] < |trans| && trans[pg2aut[todo[i]]] == []
    {
      if i < |rest| {
        assert todo[i] == (rest + [s])[i] && (rest + [s])[|rest|] == s;
        assert back0[pg2aut0[todo[i]]] == todo[i];
      } else {
        assert todo[i] == back[|back0| + (i - |rest|)];
      }
    }
  }

  lemma {:induction false} ParentStep(g: Game, sigma: set<Letter>, strat: Strategy, s: nat, q: nat, n: nat,
                   trans0: Machine, back0: seq<nat>, todo0: seq<nat>, trans: Machine, back: seq<nat>, todo: seq<nat>)
    requires Fusing(g, sigma, strat, s, q, n, trans0, back0, todo0, trans, back, todo) && trans0[q] == []
    requires forall r: nat :: r < |trans0| ==> HasParent(trans0, r)
    ensures forall r: nat :: r < |trans| ==> HasParent(trans, r)
  {
    forall r: nat | 0 < r < |trans| ensures HasParent(trans, r) {
      if r < |trans0| {
        assert HasParent(trans0, r);
        var p: nat :| p < r && p < |trans0| && Enters(trans0[p], r);
        assert trans[p] == trans0[p];
      } else {
        assert q < r && Enters(trans[q], r);
      }
    }
  }

  lemma {:induction false} BuildingStep(g: Game, sigma: set<Letter>, strat: Strategy, area: set<nat>, init: nat,
                     pg2aut0: seq<int>, rest: seq<nat>, s: nat, trans0: Machine, back0: seq<nat>,
                     pg2aut: seq<int>, todo: seq<nat>, trans: Machine, back: seq<nat>)
    requires Building(g, sigma, strat, area, init, pg2aut0, rest + [s], trans0, back0)
    requires Numbered(g, area, pg2aut, back) && IsState(g, s)
    requires forall t: nat :: t < |pg2aut0| && pg2aut0[t] != -1 ==> pg2aut[t] == pg2aut0[t]
    requires 0 <= pg2aut0[s]
    requires Fusing(g, sigma, strat, s, pg2aut0[s], |g.edges[s]|, trans0, back0, rest, trans, back, todo)
    ensures Building(g, sigma, strat, area, init, pg2aut, todo, trans, back)
  {
    var q0 := pg2aut0[s];
    assert (rest + [s])[|rest|] == s;
    WaitingStep(g, sigma, strat, area, pg2aut0, rest, s, |g.edges[s]|, trans0, back0, pg2aut, todo, trans, back);
    ParentStep(g, sigma, strat, s, q0, |g.edges[s]|, trans0, back0, rest, trans, back, todo);
    assert forall q: nat :: |back0| <= q < |back| ==> back[q] == todo[|rest| + (q - |back0|)];
    forall q: nat | q < |back| && back[q] !in todo
      ensures FusesAll(g, sigma, strat, back, back[q], trans[q])
    {
      if q < |back0| && q != q0 {
        assert back[q] !in rest + [s];
        forall i: nat | i < |trans[q]| ensures Fuses(g, sigma, strat, back, Move(back[q], i), trans[q][i]) {
          FusesGrows(g, sigma, strat, back0, back, Move(back[q], i), trans[q][i]);
        }
      }
    }
  }

  ghost function Unnumbered(pg2aut: seq<int>): set<nat> {
    set s: nat | s < |pg2aut| && pg2aut[s] == -1
  }

  /** Either a state has received a number or the list of states to do is shorter. */
  lemma {:induction false} NumberingShrinks(g: Game, area: set<nat>, pg2aut0: seq<int>, back0: seq<nat>,
                                            pg2aut: seq<int>, back: seq<nat>)
    requires Numbered(g, area, pg2aut0, back0) && Numbered(g, area, pg2aut, back) && back0 <= back
    requires forall t: nat :: t < |pg2aut0| && pg2aut0[t] != -1 ==> pg2aut[t] == pg2aut0[t]
    ensures Unnumbered(pg2aut) <= Unnumbered(pg2aut0)
    ensures back != back0 ==> Unnumbered(pg2aut) < Unnumbered(pg2aut0)
  {
    if back != back0 {
      var s := back[|back0|];
      assert s in Unnumbered(pg2aut0) && s !in Unnumbered(pg2aut);
    }
  }

  /** `trans` is the controller extracted from the strategy: its states are numbered copies of the
      environment states `back`, and each has one fused transition per environment move. */
  ghost predicate Extracted(g: Game, sigma: set<Letter>, strat: Strategy, area: set<nat>, init: nat,
                            trans: Machine, back: seq<nat>) {
    && |trans| == |back| > 0 && back[0] == init
    && (forall q: nat, r: nat :: q < r < |back| ==> back[q] != back[r])
    && (forall q: nat :: q < |back| ==> back[q] in area && Owned(g, back[q], false))
    && (forall q: nat :: q < |back| ==> FusesAll(g, sigma, strat, back, back[q], trans[q]))
    && (forall r: nat :: r < |trans| ==> HasParent(trans, r))
  }

  /** Builds the controller; every strategy lookup is defined. */
  method StratToAut(g: Game, init: nat, strat: Strategy, sigma: set<Letter>, ghost area: set<nat>)
    returns (trans: Machine)
    requires WellFormed(g) && Turned(g, sigma, area) && Controls(g, area, strat)
    requires init in area && Owned(g, init, false)
    ensures exists back: seq<nat> :: Extracted(g, sigma, strat, area, init, trans, back)
  {
    assert IsState(g, init);
    var todo := [init];
    var pg2aut := seq(|g.edges|, _ => -1);
    trans := [[]];
    ghost var back := [init];
    pg2aut := pg2aut[init := 0];
    while todo != []
      invariant Building(g, sigma, strat, area, init, pg2aut, todo, trans, back)
      decreases Unnumbered(pg2aut), |todo|
    {
      var s, rest := todo[|todo| - 1], todo[..|todo| - 1];
      assert todo == rest + [s];
      ghost var pg2aut0, trans0, back0 := pg2aut, trans, back;
      assert back[pg2aut[s]] == s;
      pg2aut, todo, trans, back := FuseState(g, sigma, strat, s, pg2aut, rest, trans, back, area);
      BuildingStep(g, sigma, strat, area, init, pg2aut0, rest, s, trans0, back0, pg2aut, todo, trans, back);
      NumberingShrinks(g, area, pg2aut0, back0, pg2aut, back);
    }
    assert Extracted(g, sigma, strat, area, init, trans, back);
  }

  // ----- the runs of the controller are plays of the game

  /** An infinite run (state and transition number at each step) reading and writing `word`. */
  ghost predicate IsRun(trans: Machine, run: nat -> Move, word: nat -> Letter) {
    && run(0).src == 0
    && forall n: nat ::
         && run(n).src < |trans| && run(n).idx < |trans[run(n).src]|
         && word(n) in trans[run(n).src][run(n).idx].cond
         && run(n + 1).src == trans[run(n).src][run(n).idx].dst
  }

  /** The environment move behind step `n` of a run. */
  ghost function EnvMove(back: seq<nat>, run: nat -> Move, n: nat): Move
    requires run(n).src < |back|
  {
    Move(back[run(n).src], run(n).idx)
  }

  /** The play a run stands for: two moves per letter. */
  ghost function PlayOf(g: Game, strat: Strategy, back: seq<nat>, run: nat -> Move): Play
    requires forall n: nat ::
               run(n).src < |back| && Valid(g, EnvMove(back, run, n)) && Dst(g, EnvMove(back, run, n)) in strat
  {
    (n: nat) => if n % 2 == 0 then EnvMove(back, run, n / 2) else Answer(g, strat, EnvMove(back, run, n / 2))
  }

  /** Step `n` of a run fuses an environment move and its answer, both labeled by the letter. */
  ghost predicate Stepped(g: Game, strat: Strategy, area: set<nat>, back: seq<nat>,
                          run: nat -> Move, word: nat -> Letter, n: nat) {
    && run(n).src < |back| && run(n + 1).src < |back|
    && var v := EnvMove(back, run, n);
       && Valid(g, v) && Owned(g, v.src, false) && v.src in area
       && Dst(g, v) in strat && Dst(g, v) in area && Owned(g, Dst(g, v), true)
       && Valid(g, Answer(g, strat, v))
       && Dst(g, Answer(g, strat, v)) == back[run(n + 1).src]
       && word(n) in Label(g, v) && word(n) in Label(g, Answer(g, strat, v))
  }

  lemma {:induction false} RunStep(g: Game, sigma: set<Letter>, strat: Strategy, area: set<nat>, init: nat,
                                   trans: Machine, back: seq<nat>, run: nat -> Move, word: nat -> Letter, n: nat)
    requires WellFormed(g) && Turned(g, sigma, area) && Controls(g, area, strat)
    requires Extracted(g, sigma, strat, area, init, trans, back) && IsRun(trans, run, word)
    ensures Stepped(g, strat, area, back, run, word, n)
  {
    assert run(n).src < |trans| && run(n).idx < |trans[run(n).src]| && run(n + 1).src < |trans|;
    var v, t := EnvMove(back, run, n), trans[run(n).src][run(n).idx];
    assert Fuses(g, sigma, strat, back, v, t);
    var c := Dst(g, v);
    assert v.src in area && Owned(g, v.src, false) && c in area && Owned(g, c, true);
    var answer := Answer(g, strat, v);
    assert OutputOnly(sigma, Label(g, answer));
    var l :| l in Label(g, answer) && t.cond == Writing(sigma, Label(g, v), l.out);
    assert word(n) in t.cond && run(n + 1).src == t.dst;
  }

  /** Move `n` of a play stays in the area and follows the strategy. */
  ghost predicate MovesOn(g: Game, strat: Strategy, area: set<nat>, play: Play, n: nat) {
    && Valid(g, play(n)) && play(n).src in area && play(n + 1).src == Dst(g, play(n))
    && (Owned(g, play(n).src, true) ==> play(n).src in strat && play(n).idx == strat[play(n).src])
  }

  lemma {:induction false} RunMoves(g: Game, strat: Strategy, area: set<nat>, back: seq<nat>,
                                    run: nat -> Move, word: nat -> Letter, n: nat)
    requires forall k: nat :: Stepped(g, strat, area, back, run, word, k)
    requires forall k: nat ::
               run(k).src < |back| && Valid(g, EnvMove(back, run, k)) && Dst(g, EnvMove(back, run, k)) in strat
    ensures var play := PlayOf(g, strat, back, run);
            && MovesOn(g, strat, area, play, 2 * n) && MovesOn(g, strat, area, play, 2 * n + 1)
            && word(n) in Label(g, play(2 * n)) && word(n) in Label(g, play(2 * n + 1))
  {
    var play := PlayOf(g, strat, back, run);
    assert Stepped(g, strat, area, back, run, word, n) && Stepped(g, strat, area, back, run, word, n + 1);
    assert (2 * n) / 2 == n && (2 * n + 1) / 2 == n && (2 * n + 2) / 2 == n + 1 && (2 * n) % 2 == 0;
    assert play(2 * n) == EnvMove(back, run, n) && play(2 * n + 1) == Answer(g, strat, EnvMove(back, run, n));
    assert play(2 * n + 2) == EnvMove(back, run, n + 1);
  }

  /** Every infinite run of the controller labels, two moves per letter, a play from the initial
      state that follows the strategy. */
  lemma {:induction false} RunIsPlay(g: Game, sigma: set<Letter>, strat: Strategy, area: set<nat>, init: nat,
                                     trans: Machine, back: seq<nat>, run: nat -> Move, word: nat -> Letter)
    returns (play: Play)
    requires WellFormed(g) && Turned(g, sigma, area) && Controls(g, area, strat)
    requires Extracted(g, sigma, strat, area, init, trans, back) && IsRun(trans, run, word)
    ensures play(0).src == init
    ensures forall n: nat :: Valid(g, play(n)) && play(n).src in area && play(n + 1).src == Dst(g, play(n))
    ensures Follows(g, true, strat, play)
    ensures forall n: nat :: word(n) in Label(g, play(2 * n)) && word(n) in Label(g, play(2 * n + 1))
  {
    forall n: nat ensures Stepped(g, strat, area, back, run, word, n) {
      RunStep(g, sigma, strat, area, init, trans, back, run, word, n);
    }
    play := SteppedPlay(g, strat, area, back, run, word);
    forall n: nat ensures Valid(g, play(n)) && play(n).src in area && play(n + 1).src == Dst(g, play(n)) {
      assert MovesOn(g, strat, area, play, n);
    }
    forall n: nat ensures word(n) in Label(g, play(2 * n)) && word(n) in Label(g, play(2 * n + 1)) {
      assert LabelsMoves(g, word, play, n);
    }
    assert forall n: nat :: MovesOn(g, strat, area, play, n) ==>
      (Owned(g, play(n).src, true) ==> play(n).src in strat && play(n).idx == strat[play(n).src]);
  }

  /** The play behind the steps of a run. */
  lemma {:induction false} SteppedPlay(g: Game, strat: Strategy, area: set<nat>, back: seq<nat>,
                                       run: nat -> Move, word: nat -> Letter)
    returns (play: Play)
    requires forall k: nat :: Stepped(g, strat, area, back, run, word, k)
    ensures run(0).src < |back| && play(0).src == back[run(0).src]
    ensures forall n: nat :: MovesOn(g, strat, area, play, n)
    ensures forall n: nat :: LabelsMoves(g, word, play, n)
  {
    forall k: nat
      ensures run(k).src < |back| && Valid(g, EnvMove(back, run, k)) && Dst(g, EnvMove(back, run, k)) in strat
    {
      assert Stepped(g, strat, area, back, run, word, k);
    }
    play := PlayOf(g, strat, back, run);
    forall n: nat ensures MovesOn(g, strat, area, play, n) {
      RunMoves(g, strat, area, back, run, word, n / 2);
      assert n == 2 * (n / 2) || n == 2 * (n / 2) + 1;
    }
    forall n: nat ensures LabelsMoves(g, word, play, n) {
      RunMoves(g, strat, area, back, run, word, n);
    }
    assert play(0) == EnvMove(back, run, 0);
  }

  /** Letter `n` labels moves `2n` and `2n + 1`. */
  ghost predicate LabelsMoves(g: Game, word: nat -> Letter, play: Play, n: nat) {
    && Valid(g, play(2 * n)) && Valid(g, play(2 * n + 1))
    && word(n) in Label(g, play(2 * n)) && word(n) in Label(g, play(2 * n + 1))
  }

  // ----- the controller reacts to every input

  /** Every letter made of an input below `ni` and an output below `no`. */
  ghost predicate FullAlphabet(sigma: set<Letter>, ni: nat, no: nat) {
    forall l :: l in sigma <==> l.inp < ni && l.out < no
  }

  /** The environment states of the area accept every letter. */
  ghost predicate Covered(g: Game, sigma: set<Letter>, area: set<nat>) {
    forall s: nat, l :: s in area && Owned(g, s, false) && l in sigma ==> Reads(g, s, l)
  }

  ghost predicate Reads(g: Game, s: nat, l: Letter) {
    exists i: nat :: Valid(g, Move(s, i)) && l in Label(g, Move(s, i))
  }

  /** Transition `k` of state `q` reacts to input `i` by writing `l`. */
  ghost predicate Reacts(trans: Machine, q: nat, i: nat, k: nat, l: Letter) {
    q < |trans| && k < |trans[q]| && l in trans[q][k].cond && l.inp == i
  }

  lemma {:induction false} Receptive(g: Game, sigma: set<Letter>, ni: nat, no: nat, strat: Strategy,
                                     area: set<nat>, init: nat, trans: Machine, back: seq<nat>, q: nat, i: nat)
    returns (k: nat, l: Letter)
    requires Turned(g, sigma, area) && Controls(g, area, strat)
    requires FullAlphabet(sigma, ni, no) && Covered(g, sigma, area)
    requires Extracted(g, sigma, strat, area, init, trans, back)
    requires q < |trans| && i < ni && no > 0
    ensures Reacts(trans, q, i, k, l) && trans[q][k].dst < |trans|
  {
    var s := back[q];
    assert Letter(i, 0) in sigma;
    assert Reads(g, s, Letter(i, 0));
    k :| Valid(g, Move(s, k)) && Letter(i, 0) in Label(g, Move(s, k));
    var v := Move(s, k);
    assert InputOnly(sigma, Label(g, v));
    assert Fuses(g, sigma, strat, back, v, trans[q][k]);
    var c := Dst(g, v);
    assert Owned(g, c, true) && c in area;
    var a :| a in Label(g, Answer(g, strat, v)) && trans[q][k].cond == Writing(sigma, Label(g, v), a.out);
    assert OutputOnly(sigma, Label(g, Answer(g, strat, v)));
    l := Letter(i, a.out);
  }

  ghost predicate ReceptiveMachine(trans: Machine, ni: nat) {
    && |trans| > 0
    && forall q: nat, i: nat :: q < |trans| && i < ni ==> Answers(trans, q, i)
  }

  ghost predicate Answers(trans: Machine, q: nat, i: nat) {
    exists k: nat, l :: Reacts(trans, q, i, k, l) && trans[q][k].dst < |trans|
  }

  ghost function Reaction(trans: Machine, q: nat, i: nat): (r: (nat, Letter))
    requires Answers(trans, q, i)
    ensures Reacts(trans, q, i, r.0, r.1) && trans[q][r.0].dst < |trans|
  {
    var k: nat, l :| Reacts(trans, q, i, k, l) && trans[q][k].dst < |trans|;
    (k, l)
  }

  ghost function StateAfter(trans: Machine, ni: nat, inputs: nat -> nat, n: nat): (q: nat)
    requires ReceptiveMachine(trans, ni) && Inputs(ni, inputs)
    ensures q < |trans|
    decreases n
  {
    if n == 0 then 0
    else
      var q := StateAfter(trans, ni, inputs, n - 1);
      assert Answers(trans, q, inputs(n - 1));
      trans[q][Reaction(trans, q, inputs(n - 1)).0].dst
  }

  ghost predicate Inputs(ni: nat, inputs: nat -> nat) {
    forall n: nat :: inputs(n) < ni
  }

  ghost function StepAfter(trans: Machine, ni: nat, inputs: nat -> nat, n: nat): (r: (nat, Letter))
    requires ReceptiveMachine(trans, ni) && Inputs(ni, inputs)
    ensures Reacts(trans, StateAfter(trans, ni, inputs, n), inputs(n), r.0, r.1)
    ensures StateAfter(trans, ni, inputs, n + 1) == trans[StateAfter(trans, ni, inputs, n)][r.0].dst
  {
    var q := StateAfter(trans, ni, inputs, n);
    assert Answers(trans, q, inputs(n));
    Reaction(trans, q, inputs(n))
  }

  /** A receptive controller has a run for every infinite sequence of inputs. */
  lemma {:induction false} RunExists(trans: Machine, ni: nat, inputs: nat -> nat)
    returns (run: nat -> Move, word: nat -> Letter)
    requires ReceptiveMachine(trans, ni) && Inputs(ni, inputs)
    ensures IsRun(trans, run, word) && forall n: nat :: word(n).inp == inputs(n)
  {
    run := (n: nat) => Move(StateAfter(trans, ni, inputs, n), StepAfter(trans, ni, inputs, n).0);
    word := (n: nat) => StepAfter(trans, ni, inputs, n).1;
    forall n: nat
      ensures Reacts(trans, run(n).src, inputs(n), run(n).idx, word(n))
      ensures run(n + 1).src == trans[run(n).src][run(n).idx].dst
    {
      var step := StepAfter(trans, ni, inputs, n);
    }
    assert run(0).src == 0;
  }

  ghost predicate Reached(trans: Machine, q: nat, n: nat)
    decreases n
  {
    if n == 0 then q == 0
    else exists r: nat :: r < |trans| && Reached(trans, r, n - 1) && Enters(trans[r], q)
  }

  /** Every state of the controller is reachable and has a successor: none is dead. */
  lemma {:induction false} NothingToPurge(trans: Machine, ni: nat, q: nat)
    requires ReceptiveMachine(trans, ni) && ni > 0 && q < |trans|
    requires forall r: nat :: r < |trans| ==> HasParent(trans, r)
    ensures exists n: nat :: Reached(trans, q, n)
    ensures exists r: nat :: r < |trans| && Enters(trans[q], r)
    decreases q
  {
    assert Answers(trans, q, 0);
    var k: nat, l :| Reacts(trans, q, 0, k, l) && trans[q][k].dst < |trans|;
    assert Enters(trans[q], trans[q][k].dst);
    if q == 0 {
      assert Reached(trans, q, 0);
    } else {
      assert HasParent(trans, q);
      var r: nat :| r < q && r < |trans| && Enters(trans[r], q);
      NothingToPurge(trans, ni, r);
      var n: nat :| Reached(trans, r, n);
      assert Reached(trans, q, n + 1);
    }
  }
}
