/**
 The negative verdict is final: over a deterministic arena, if the environment wins the
 game then no controller at all realizes the specification.
 */
module Realizability {
  import opened Game
  import opened Arena
  import opened Solver
  import opened Controller
  import opened Synthesis

  /** No letter labels two edges of a reachable state. */
  ghost predicate Deterministic(base: Table, init: nat) {
    forall v: Move, v': Move, l ::
      && Reachable(base, init, v.src) && v.src == v'.src
      && Valid(Bare(base), v) && Valid(Bare(base), v') && l in Label(Bare(base), v) && l in Label(Bare(base), v')
      ==> v == v'
  }

  // ----- a duel between the environment strategy and a controller

  ghost predicate Suggests(t: Table, strat: Strategy, s: nat, ni: nat, i: nat) {
    i < ni && s in strat && Valid(Bare(t), Move(s, strat[s]))
    && exists l :: l in Label(Bare(t), Move(s, strat[s])) && l.inp == i
  }

  /** An input the environment's edge reads. */
  ghost function InputAt(t: Table, strat: Strategy, ni: nat, s: nat): (i: nat)
    requires ni > 0
    ensures i < ni
  {
    if i: nat :| Suggests(t, strat, s, ni, i) then i else 0
  }

  /** Where letter `l` leads from state `c`. */
  ghost function After(t: Table, c: nat, l: Letter): nat {
    if k: nat :| Valid(Bare(t), Move(c, k)) && l in Label(Bare(t), Move(c, k)) then Dst(Bare(t), Move(c, k)) else 0
  }

  /** Controller state and arena state after `n` rounds. */
  ghost function Round(t: Table, strat: Strategy, trans: Machine, ni: nat, init: nat, n: nat): (r: (nat, nat))
    requires ni > 0 && ReceptiveMachine(trans, ni)
    ensures r.0 < |trans|
    decreases n
  {
    if n == 0 then (0, init)
    else
      var (q, s) := Round(t, strat, trans, ni, init, n - 1);
      var (k, l) := ReactionAt(trans, ni, q, InputAt(t, strat, ni, s));
      var c := if s in strat && Valid(Bare(t), Move(s, strat[s])) then Dst(Bare(t), Move(s, strat[s])) else 0;
      (trans[q][k].dst, After(t, c, l))
  }

  ghost function ReactionAt(trans: Machine, ni: nat, q: nat, i: nat): (r: (nat, Letter))
    requires ReceptiveMachine(trans, ni) && q < |trans| && i < ni
    ensures Reacts(trans, q, i, r.0, r.1) && trans[q][r.0].dst < |trans|
  {
    assert Answers(trans, q, i);
    Reaction(trans, q, i)
  }

  ghost function DuelStep(t: Table, strat: Strategy, trans: Machine, ni: nat, init: nat, n: nat): (r: (nat, Letter))
    requires ni > 0 && ReceptiveMachine(trans, ni)
  {
    var (q, s) := Round(t, strat, trans, ni, init, n);
    ReactionAt(trans, ni, q, InputAt(t, strat, ni, s))
  }

  ghost function DuelRun(t: Table, strat: Strategy, trans: Machine, ni: nat, init: nat): nat -> Move
    requires ni > 0 && ReceptiveMachine(trans, ni)
  {
    (n: nat) => Move(Round(t, strat, trans, ni, init, n).0, DuelStep(t, strat, trans, ni, init, n).0)
  }

  ghost function DuelWord(t: Table, strat: Strategy, trans: Machine, ni: nat, init: nat): nat -> Letter
    requires ni > 0 && ReceptiveMachine(trans, ni)
  {
    (n: nat) => DuelStep(t, strat, trans, ni, init, n).1
  }

  /** The duel is a run of the controller. */
  lemma {:induction false} DuelIsRun(t: Table, strat: Strategy, trans: Machine, ni: nat, init: nat)
    requires ni > 0 && ReceptiveMachine(trans, ni)
    ensures IsRun(trans, DuelRun(t, strat, trans, ni, init), DuelWord(t, strat, trans, ni, init))
  {
    var run, word := DuelRun(t, strat, trans, ni, init), DuelWord(t, strat, trans, ni, init);
    forall n: nat
      ensures run(n).src < |trans| && run(n).idx < |trans[run(n).src]|
      ensures word(n) in trans[run(n).src][run(n).idx].cond
      ensures run(n + 1).src == trans[run(n).src][run(n).idx].dst
    {
      var (q, s) := Round(t, strat, trans, ni, init, n);
      var (k, l) := ReactionAt(trans, ni, q, InputAt(t, strat, ni, s));
    }
  }

  /** One round of the duel, seen from the arena. */
  lemma {:induction false} RoundStep(t: Table, strat: Strategy, trans: Machine, ni: nat, init: nat, n: nat)
    requires ni > 0 && ReceptiveMachine(trans, ni)
    ensures DuelWord(t, strat, trans, ni, init)(n).inp == InputAt(t, strat, ni, Round(t, strat, trans, ni, init, n).1)
    ensures var s := Round(t, strat, trans, ni, init, n).1;
            s in strat && Valid(Bare(t), Move(s, strat[s])) ==>
            Round(t, strat, trans, ni, init, n + 1).1
            == After(t, Dst(Bare(t), Move(s, strat[s])), DuelWord(t, strat, trans, ni, init)(n))
  {
  }

  // ----- the environment's strategy against any controller

  /** A completed arena, the sizes of its alphabet, its sides, and a strategy that keeps the play in `area`. */
  datatype Contest = Contest(c: Completion, ni: nat, no: nat, side: nat -> bool, m: nat, area: set<nat>,
                             strat: Strategy) {
    ghost predicate Hostile() {
      && SplitArena(c.base, c.init, c.sigma, side) && Deterministic(c.base, c.init) && FullAlphabet(c.sigma, ni, no)
      && ni > 0
      && Completed(c) && WellFormed(c.Arena()) && IsMaxColor(c.Arena(), m)
      && Traps(c.Arena(), States(c.Arena()), m, false, area, strat)
    }

    /** A reachable state of the trap, on the given side. */
    ghost predicate At(s: nat, mine: bool) {
      s in area && Reachable(c.base, c.init, s) && side(s) == mine
    }
  }

  /** Original moves are moves of the completed arena, to the other side. */
  lemma {:induction false} OriginalTurn(d: Contest, v: Move)
    requires d.Hostile() && Reachable(d.c.base, d.c.init, v.src) && Valid(Bare(d.c.base), v)
    ensures d.c.owner[v.src] == d.side(v.src)
    ensures InSub(d.c.Arena(), States(d.c.Arena()), d.m, v)
    ensures d.c.t[v.src][v.idx] == d.c.base[v.src][v.idx]
    ensures var s := Dst(Bare(d.c.base), v); Reachable(d.c.base, d.c.init, s) && d.side(s) == !d.side(v.src)
  {
    var g := d.c.Arena();
    OriginalMove(d.c, v);
    assert IsState(g, v.src) && IsState(g, Dst(g, v));
    assert Step(d.c.base, v.src, v.idx, Dst(g, v));
    ReachStep(d.c.base, d.c.init, v.src, v.idx, Dst(g, v));
  }

  /** The strategy's edge reads some input. */
  lemma {:induction false} EdgeReads(d: Contest, s: nat)
    requires d.Hostile() && s < |d.c.base| && Reachable(d.c.base, d.c.init, s)
    requires s in d.strat && Valid(Bare(d.c.t), Move(s, d.strat[s]))
    ensures Label(Bare(d.c.t), Move(s, d.strat[s])) <= d.c.sigma
    ensures exists i: nat :: Suggests(d.c.t, d.strat, s, d.ni, i)
  {
    var e := Move(s, d.strat[s]);
    if e.idx < |d.c.base[s]| {
      assert Valid(Bare(d.c.base), e) && Label(Bare(d.c.base), e) == Label(Bare(d.c.t), e);
    } else {
      assert Label(Bare(d.c.t), e) == Missing(d.c.sigma, d.c.base[s]) != {};
    }
    var x :| x in Label(Bare(d.c.t), e);
    assert Suggests(d.c.t, d.strat, s, d.ni, x.inp);
  }

  /** The environment's strategy, an input it reads, and a letter with that input: the arena can only
      take the strategy's edge, which is then not an added one. */
  lemma {:induction false} EnvRound(d: Contest, v: Move, l: Letter)
    requires d.Hostile() && d.At(v.src, false)
    requires Valid(Bare(d.c.base), v) && l in Label(Bare(d.c.base), v)
    requires l.inp == InputAt(d.c.t, d.strat, d.ni, v.src)
    ensures v.src in d.strat && v.idx == d.strat[v.src] && d.At(Dst(Bare(d.c.base), v), true)
  {
    var g, s := d.c.Arena(), v.src;
    OriginalTurn(d, v);
    assert Owned(g, s, false);
    var e := Move(s, d.strat[s]);
    assert InSub(g, States(g), d.m, e);
    EdgeReads(d, s);
    assert Suggests(d.c.t, d.strat, s, d.ni, l.inp);
    var x :| x in Label(Bare(d.c.t), e) && x.inp == l.inp;
    assert InputOnly(d.c.sigma, Label(Bare(d.c.base), v));
    assert x in Label(Bare(d.c.base), v);
    assert x !in Missing(d.c.sigma, d.c.base[s]);
    assert Valid(Bare(d.c.base), e) && x in Label(Bare(d.c.base), e);
  }

  /** A letter leads to one place. */
  lemma {:induction false} ConRound(d: Contest, v: Move, l: Letter)
    requires d.Hostile() && d.At(v.src, true)
    requires Valid(Bare(d.c.base), v) && l in Label(Bare(d.c.base), v)
    ensures After(d.c.t, v.src, l) == Dst(Bare(d.c.base), v) && d.At(Dst(Bare(d.c.base), v), false)
  {
    var g := d.c.Arena();
    OriginalTurn(d, v);
    assert d.c.t[v.src] == d.c.base[v.src] && !Owned(g, v.src, false);
    assert InSub(g, States(g), d.m, Move(v.src, v.idx));
    forall k: nat | Valid(Bare(d.c.t), Move(v.src, k)) && l in Label(Bare(d.c.t), Move(v.src, k)) ensures k == v.idx {
      assert Valid(Bare(d.c.base), Move(v.src, k)) && l in Label(Bare(d.c.base), Move(v.src, k));
    }
    assert Valid(Bare(d.c.t), Move(v.src, v.idx)) && l in Label(Bare(d.c.t), Move(v.src, v.idx));
  }

  /** The controller's answer leads where the duel says. */
  lemma {:induction false} AnswerStep(d: Contest, u: Move, v: Move, l: Letter)
    requires d.Hostile() && d.At(u.src, false) && Valid(Bare(d.c.base), u)
    requires u.src in d.strat && u.idx == d.strat[u.src] && v.src == Dst(Bare(d.c.base), u) && d.At(v.src, true)
    requires Valid(Bare(d.c.base), v) && l in Label(Bare(d.c.base), v)
    ensures Valid(Bare(d.c.t), u) && After(d.c.t, Dst(Bare(d.c.t), u), l) == Dst(Bare(d.c.base), v)
    ensures d.At(Dst(Bare(d.c.base), v), false)
  {
    OriginalTurn(d, u);
    ConRound(d, v, l);
  }

  /** One round from position `pos(n)`: the letter has an input the strategy's edge reads, and leads from the
      target of that edge to the next position. */
  ghost predicate RoundAt(d: Contest, word: nat -> Letter, pos: nat -> nat, n: nat) {
    && d.ni > 0 && word(n).inp == InputAt(d.c.t, d.strat, d.ni, pos(n))
    && (pos(n) in d.strat && Valid(Bare(d.c.t), Move(pos(n), d.strat[pos(n)])) ==>
          pos(n + 1) == After(d.c.t, Dst(Bare(d.c.t), Move(pos(n), d.strat[pos(n)])), word(n)))
  }

  /** An accepting play for the word of such a sequence of rounds. */
  ghost predicate Dueling(d: Contest, word: nat -> Letter, pos: nat -> nat, play: Play) {
    && d.Hostile() && pos(0) == d.c.init && d.c.init in d.area
    && (forall n: nat :: RoundAt(d, word, pos, n))
    && AcceptingPlay(d.c.base, d.c.init, word, play)
  }

  /** Round `n` is at move `2n` of the play, in the trap. */
  ghost predicate InStep(d: Contest, pos: nat -> nat, play: Play, n: nat) {
    play(2 * n).src == pos(n) && d.At(pos(n), false)
  }

  lemma {:induction false} DuelAttack(d: Contest, word: nat -> Letter, pos: nat -> nat, play: Play, n: nat)
    requires Dueling(d, word, pos, play) && InStep(d, pos, play, n)
    ensures play(2 * n).src in d.strat && play(2 * n).idx == d.strat[play(2 * n).src]
    ensures d.At(play(2 * n + 1).src, true)
  {
    assert Continues(Bare(d.c.base), play, 2 * n) && LabelsAt(Bare(d.c.base), word, play, n);
    assert RoundAt(d, word, pos, n);
    EnvRound(d, play(2 * n), word(n));
  }

  lemma {:induction false} DuelAnswer(d: Contest, word: nat -> Letter, pos: nat -> nat, play: Play, n: nat)
    requires Dueling(d, word, pos, play) && InStep(d, pos, play, n)
    ensures InStep(d, pos, play, n + 1)
  {
    var u, v := play(2 * n), play(2 * n + 1);
    DuelAttack(d, word, pos, play, n);
    assert Continues(Bare(d.c.base), play, 2 * n) && Continues(Bare(d.c.base), play, 2 * n + 1);
    assert LabelsAt(Bare(d.c.base), word, play, n) && RoundAt(d, word, pos, n);
    AnswerStep(d, u, v, word(n));
    assert u == Move(u.src, d.strat[u.src]) && 2 * (n + 1) == (2 * n + 1) + 1;
  }

  lemma {:induction false} DuelFollowed(d: Contest, word: nat -> Letter, pos: nat -> nat, play: Play, n: nat)
    requires Dueling(d, word, pos, play)
    ensures InStep(d, pos, play, n)
  {
    if n == 0 {
      CompletedWellFormed(d.c);
      assert Alternates(d.c.base, d.c.init, d.side);
    } else {
      DuelFollowed(d, word, pos, play, n - 1);
      DuelAnswer(d, word, pos, play, n - 1);
    }
  }

  /** Every move of such a play is one of the completed arena, chosen by the strategy when it is the
      environment's turn. */
  lemma {:induction false} DuelMove(d: Contest, word: nat -> Letter, pos: nat -> nat, play: Play, n: nat)
    requires Dueling(d, word, pos, play)
    ensures d.At(play(n).src, n % 2 == 1)
    ensures n % 2 == 0 ==> play(n).src in d.strat && play(n).idx == d.strat[play(n).src]
  {
    var k := n / 2;
    DuelFollowed(d, word, pos, play, k);
    DuelAttack(d, word, pos, play, k);
    assert n == if n % 2 == 0 then 2 * k else 2 * k + 1;
  }

  lemma {:induction false} DuelMoveInArena(d: Contest, word: nat -> Letter, pos: nat -> nat, play: Play, n: nat)
    requires Dueling(d, word, pos, play)
    ensures InSub(d.c.Arena(), States(d.c.Arena()), d.m, play(n)) && play(n + 1).src == Dst(d.c.Arena(), play(n))
    ensures Color(d.c.Arena(), play(n)) == Color(Bare(d.c.base), play(n))
    ensures Owned(d.c.Arena(), play(n).src, false) ==> play(n).src in d.strat && play(n).idx == d.strat[play(n).src]
  {
    DuelMove(d, word, pos, play, n);
    assert Continues(Bare(d.c.base), play, n);
    OriginalTurn(d, play(n));
  }

  /** So an accepting play would be won by the environment. */
  lemma {:induction false} NoAcceptingDuel(d: Contest, word: nat -> Letter, pos: nat -> nat, play: Play)
    requires WinsPlays(d.c.Arena(), States(d.c.Arena()), d.m, false, d.area, d.strat)
    ensures !Dueling(d, word, pos, play)
  {
    if Dueling(d, word, pos, play) {
      var g := d.c.Arena();
      forall n: nat
        ensures InSub(g, States(g), d.m, play(n)) && play(n + 1).src == Dst(g, play(n))
        ensures Color(g, play(n)) == Color(Bare(d.c.base), play(n))
        ensures Owned(g, play(n).src, false) ==> play(n).src in d.strat && play(n).idx == d.strat[play(n).src]
      {
        DuelMoveInArena(d, word, pos, play, n);
      }
      SameColors(Bare(d.c.base), g, play);
      WinnerUnique(g, play);
    }
  }

  /** If the environment wins, no controller realizes the specification. */
  lemma {:induction false} NoController(base: Table, init: nat, sigma: set<Letter>, ni: nat, no: nat, side: nat -> bool,
                     um: nat, t: Table, trans: Machine)
    requires SplitArena(base, init, sigma, side) && Deterministic(base, init)
    requires FullAlphabet(sigma, ni, no) && ni > 0
    requires EnvironmentWins(base, init, sigma, um, t)
    ensures !Realizes(base, init, ni, trans)
  {
    var c: Completion, m: nat, area: set<nat>, strat: Strategy :|
      && c.base == base && c.init == init && c.sigma == sigma && c.um == um && c.t == t
      && EnvironmentWinsBy(c, m, area, strat);
    if ReceptiveMachine(trans, ni) {
      CompletedWellFormed(c);
      var d := Contest(c, ni, no, side, m, area, strat);
      DuelIsRun(t, strat, trans, ni, init);
      var word := DuelWord(t, strat, trans, ni, init);
      var pos := (n: nat) => Round(t, strat, trans, ni, init, n).1;
      forall n: nat ensures RoundAt(d, word, pos, n) {
        RoundStep(t, strat, trans, ni, init, n);
      }
      forall play: Play ensures !AcceptingPlay(base, init, word, play) {
        NoAcceptingDuel(d, word, pos, play);
      }
      assert !Accepts(base, init, word);
    }
  }
}
