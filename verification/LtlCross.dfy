/**
 Comparison of several translators of one formula.  Tool `t` has translated the formula into
 `pos[t]` and its negation into `neg[t]`; some of these automata could be complemented.  A reduced
 set of intersections is tested for emptiness and the failures are counted.
 */
module LtlCross {
  import opened Wrappers
  import opened Game

  /** An ultimately periodic word, the form in which example words are found and shown. */
  datatype Word = Word(prefix: seq<Letter>, cycle: seq<Letter>)

  type Language = iset<Word>

  /** An automaton: its identity and the sizes the tool looks at. */
  datatype Automaton = Automaton(id: nat, deterministic: bool, states: nat, edges: nat, sets: nat)

  /** What the automata of one round are: the translations, their complements, the reference tools and the
      two reference automata (or -1). */
  datatype Run = Run(pos: seq<Option<Automaton>>, neg: seq<Option<Automaton>>,
                     compPos: seq<Option<Automaton>>, compNeg: seq<Option<Automaton>>,
                     reference: seq<bool>, posRef: int, negRef: int)
  {
    ghost predicate Valid() {
      |pos| == |neg| == |compPos| == |compNeg| == |reference|
    }

    function M(): nat {
      |pos|
    }
  }

  /** The library: emptiness of a product (if it fits in the supported number of acceptance sets), complementation
      (which can give up), and removal of alternation and of unused acceptance sets. */
  datatype Library = Library(meet: (Automaton, Automaton) -> bool, complement: Automaton -> Option<Automaton>,
                             simplify: Automaton -> Automaton, maxSets: nat)
  {
    /** A product with too many sets is not built and counts as no problem. */
    function CheckEmptyProd(a: Automaton, b: Automaton): bool {
      a.sets + b.sets <= maxSets && meet(a, b)
    }
  }

  ghost predicate Intersect(k: Language, l: Language) {
    exists w :: w in k && w in l
  }

  ghost function Complement(k: Language): Language {
    iset w: Word | w !in k
  }

  /** The contract of the library. */
  ghost predicate Sound(lib: Library, lang: Automaton -> Language) {
    && (forall a: Automaton, b: Automaton :: lib.meet(a, b) <==> Intersect(lang(a), lang(b)))
    && (forall a: Automaton :: lib.complement(a).Some? ==> lang(lib.complement(a).value) == Complement(lang(a)))
    && (forall a: Automaton :: lang(lib.simplify(a)) == lang(a))
  }

  // ----- the tests

  /** Whether `pos[i]` is tested against `neg[j]`. */
  predicate TestsPair(r: Run, i: nat, j: nat)
    requires r.Valid() && i < r.M() && j < r.M()
  {
    i == j
    || !((!r.reference[i] && r.negRef >= 0 && r.negRef != j) || (!r.reference[j] && r.posRef >= 0 && r.posRef != i))
  }

  function One(b: bool): nat {
    if b then 1 else 0
  }

  /** The problems found when the loop is at `(i, j)`. */
  function PairProblems(lib: Library, r: Run, i: nat, j: nat): nat
    requires r.Valid() && i < r.M() && j < r.M()
  {
    if r.pos[i].None? || r.neg[j].None? || (r.reference[i] && r.reference[j]) then 0
    else
      One(TestsPair(r, i, j) && lib.CheckEmptyProd(r.pos[i].value, r.neg[j].value))
      + One(i != j && r.compPos[j].Some? && r.compNeg[j].None? && (r.posRef < 0 || i == r.posRef)
            && lib.CheckEmptyProd(r.pos[i].value, r.compPos[j].value))
      + One(i != j && r.compNeg[i].Some? && r.compPos[i].None? && (r.negRef < 0 || j == r.negRef)
            && lib.CheckEmptyProd(r.compNeg[i].value, r.neg[j].value))
      + One(r.compPos[i].Some? && r.compNeg[j].Some? && (i == j || (r.compNeg[i].None? && r.compPos[j].None?))
            && lib.CheckEmptyProd(r.compNeg[j].value, r.compPos[i].value))
  }

  function RowProblems(lib: Library, r: Run, i: nat, j: nat): nat
    requires r.Valid() && i < r.M() && j <= r.M()
  {
    if j == 0 then 0 else RowProblems(lib, r, i, j - 1) + PairProblems(lib, r, i, j - 1)
  }

  function Problems(lib: Library, r: Run, i: nat): nat
    requires r.Valid() && i <= r.M()
  {
    if i == 0 then 0 else Problems(lib, r, i - 1) + RowProblems(lib, r, i - 1, r.M())
  }

  /** The tests of `pos[i]` and `neg[j]`, with their complements. */
  method TestPair(lib: Library, r: Run, i: nat, j: nat) returns (problems: nat)
    requires r.Valid() && i < r.M() && j < r.M() && r.pos[i].Some? && r.neg[j].Some?
    ensures problems == PairProblems(lib, r, i, j)
  {
    var p, n := r.pos[i].value, r.neg[j].value;
    problems := 0;
    // Reference translators are not compared.
    if r.reference[i] && r.reference[j] {
      return;
    }
    // With a reference pair, other tools are only compared to that pair and to themselves.
    if i == j || !((!r.reference[i] && r.negRef >= 0 && r.negRef != j)
                   || (!r.reference[j] && r.posRef >= 0 && r.posRef != i)) {
      problems := problems + One(lib.CheckEmptyProd(p, n));
    }
    if i != j && r.compPos[j].Some? && r.compNeg[j].None? {
      if r.posRef < 0 || i == r.posRef {
        problems := problems + One(lib.CheckEmptyProd(p, r.compPos[j].value));
      }
    }
    if i != j && r.compNeg[i].Some? && r.compPos[i].None? {
      if r.negRef < 0 || j == r.negRef {
        problems := problems + One(lib.CheckEmptyProd(r.compNeg[i].value, n));
      }
    }
    if r.compPos[i].Some? && r.compNeg[j].Some? && (i == j || (r.compNeg[i].None? && r.compPos[j].None?)) {
      problems := problems + One(lib.CheckEmptyProd(r.compNeg[j].value, r.compPos[i].value));
    }
  }

  /** The double loop over positive and negative automata. */
  method IntersectionTests(lib: Library, r: Run) returns (problems: nat)
    requires r.Valid()
    ensures problems == Problems(lib, r, r.M())
  {
    problems := 0;
    for i := 0 to |r.pos|
      invariant problems == Problems(lib, r, i)
    {
      if r.pos[i].Some? {
        for j := 0 to |r.pos|
          invariant problems == Problems(lib, r, i) + RowProblems(lib, r, i, j)
        {
          if r.neg[j].Some? {
            var found := TestPair(lib, r, i, j);
            problems := problems + found;
          }
        }
      } else {
        NoRow(lib, r, i, |r.pos|);
      }
    }
  }

  lemma {:induction false} NoRow(lib: Library, r: Run, i: nat, j: nat)
    requires r.Valid() && i < r.M() && j <= r.M() && r.pos[i].None?
    ensures RowProblems(lib, r, i, j) == 0
  {
    if j > 0 {
      NoRow(lib, r, i, j - 1);
    }
  }

  // ----- counting

  lemma {:induction false} RowZero(lib: Library, r: Run, i: nat, n: nat)
    requires r.Valid() && i < r.M() && n <= r.M()
    ensures RowProblems(lib, r, i, n) == 0 <==> forall j: nat :: j < n ==> PairProblems(lib, r, i, j) == 0
  {
    if n > 0 {
      RowZero(lib, r, i, n - 1);
    }
  }

  /** Nothing is reported exactly when no pair has a problem. */
  lemma {:induction false} ProblemsZero(lib: Library, r: Run, n: nat)
    requires r.Valid() && n <= r.M()
    ensures Problems(lib, r, n) == 0 <==>
            forall i: nat, j: nat :: i < n && j < r.M() ==> PairProblems(lib, r, i, j) == 0
  {
    if n > 0 {
      ProblemsZero(lib, r, n - 1);
      RowZero(lib, r, n - 1, r.M());
    }
  }

  // ----- what a silent comparison means

  /** The automata of a run, as languages; complements are complements of the translation they stand beside. */
  ghost predicate Complemented(lang: Automaton -> Language, r: Run) {
    && r.Valid()
    && forall t: nat :: t < r.M() ==>
         && (r.compPos[t].Some? ==> r.pos[t].Some? && lang(r.compPos[t].value) == Complement(lang(r.pos[t].value)))
         && (r.compNeg[t].Some? ==> r.neg[t].Some? && lang(r.compNeg[t].value) == Complement(lang(r.neg[t].value)))
  }

  /** No product is skipped. */
  ghost predicate Fits(lib: Library, r: Run) {
    forall a: Automaton, b: Automaton :: Present(r, a) && Present(r, b) ==> a.sets + b.sets <= lib.maxSets
  }

  ghost predicate Present(r: Run, a: Automaton) {
    Some(a) in r.pos || Some(a) in r.neg || Some(a) in r.compPos || Some(a) in r.compNeg
  }

  /** Tool `t` has translated both the formula and its negation. */
  predicate Both(r: Run, t: nat) {
    t < |r.pos| && t < |r.neg| && r.pos[t].Some? && r.neg[t].Some?
  }

  /** Tool `t` agrees with `l`: its automata are under `l` and under its complement, and exactly those
      languages when they could be complemented. */
  ghost predicate Agrees(lang: Automaton -> Language, r: Run, t: nat, l: Language)
    requires Complemented(lang, r) && t < r.M()
  {
    && (r.pos[t].Some? ==> lang(r.pos[t].value) <= l)
    && (r.neg[t].Some? ==> lang(r.neg[t].value) <= Complement(l))
    && (r.compPos[t].Some? ==> lang(r.pos[t].value) == l)
    && (r.compNeg[t].Some? ==> lang(r.neg[t].value) == Complement(l))
  }

  /** The tests at `(i, j)`, as facts about languages. */
  ghost predicate PairSilent(lang: Automaton -> Language, r: Run, i: nat, j: nat)
    requires r.Valid() && i < r.M() && j < r.M()
  {
    r.pos[i].Some? && r.neg[j].Some? && !(r.reference[i] && r.reference[j]) ==>
      && (TestsPair(r, i, j) ==> !Intersect(lang(r.pos[i].value), lang(r.neg[j].value)))
      && (i != j && r.compPos[j].Some? && r.compNeg[j].None? && (r.posRef < 0 || i == r.posRef) ==>
            !Intersect(lang(r.pos[i].value), lang(r.compPos[j].value)))
      && (i != j && r.compNeg[i].Some? && r.compPos[i].None? && (r.negRef < 0 || j == r.negRef) ==>
            !Intersect(lang(r.compNeg[i].value), lang(r.neg[j].value)))
      && (r.compPos[i].Some? && r.compNeg[j].Some? && (i == j || (r.compNeg[i].None? && r.compPos[j].None?)) ==>
            !Intersect(lang(r.compNeg[j].value), lang(r.compPos[i].value)))
  }

  lemma {:induction false} PairMeaning(lib: Library, lang: Automaton -> Language, r: Run, i: nat, j: nat)
    requires Sound(lib, lang) && r.Valid() && Fits(lib, r) && i < r.M() && j < r.M()
    ensures PairProblems(lib, r, i, j) == 0 <==> PairSilent(lang, r, i, j)
  {
    forall a | a in {r.pos[i], r.neg[j], r.compPos[i], r.compPos[j], r.compNeg[i], r.compNeg[j]} && a.Some?
      ensures Present(r, a.value)
    {
    }
  }

  lemma {:induction false} SilentMeaning(lib: Library, lang: Automaton -> Language, r: Run)
    requires Sound(lib, lang) && r.Valid() && Fits(lib, r)
    ensures Problems(lib, r, r.M()) == 0
            <==> forall i: nat, j: nat :: i < r.M() && j < r.M() ==> PairSilent(lang, r, i, j)
  {
    ProblemsZero(lib, r, r.M());
    forall i: nat, j: nat | i < r.M() && j < r.M()
      ensures PairProblems(lib, r, i, j) == 0 <==> PairSilent(lang, r, i, j)
    {
      PairMeaning(lib, lang, r, i, j);
    }
  }

  ghost predicate Silent(lang: Automaton -> Language, r: Run)
    requires r.Valid()
  {
    forall i: nat, j: nat :: i < r.M() && j < r.M() ==> PairSilent(lang, r, i, j)
  }

  /** All tools agree with `l`. */
  ghost predicate Consensus(lang: Automaton -> Language, r: Run, l: Language)
    requires Complemented(lang, r)
  {
    forall t: nat :: t < r.M() ==> Agrees(lang, r, t, l)
  }

  /** If all tools agree with one language, nothing is reported, with or without references. */
  lemma {:induction false} AgreementIsSilent(lang: Automaton -> Language, r: Run, l: Language)
    requires Complemented(lang, r) && Consensus(lang, r, l)
    ensures Silent(lang, r)
  {
    forall i: nat, j: nat | i < r.M() && j < r.M() ensures PairSilent(lang, r, i, j) {
      assert Agrees(lang, r, i, l) && Agrees(lang, r, j, l);
    }
  }

  /** No reference pair: no reference tool has translated the formula, or none its negation. */
  ghost predicate NoPair(r: Run) {
    && r.posRef < 0 && r.negRef < 0
    && !((exists i: nat :: IsReference(r.pos, r.reference, i)) && (exists i: nat :: IsReference(r.neg, r.reference, i)))
  }

  /** The tools whose automata are checked: all without a reference pair, and all but the references with one. */
  predicate Judged(r: Run, t: nat)
    requires t < |r.reference|
  {
    r.posRef < 0 || !r.reference[t]
  }

  /** The automata of tool `t`, if it has any, are under `l` and under its complement. */
  ghost predicate Under(lang: Automaton -> Language, r: Run, t: nat, l: Language)
    requires r.Valid() && t < r.M()
  {
    && (r.pos[t].Some? ==> lang(r.pos[t].value) <= l)
    && (r.neg[t].Some? ==> lang(r.neg[t].value) <= Complement(l))
  }

  /** Only the positive automaton of `i` and only the negative one of `j` could be complemented. */
  predicate Crossing(r: Run, i: nat, j: nat)
    requires r.Valid() && i < r.M() && j < r.M()
  {
    r.compPos[i].Some? && r.compNeg[j].Some? && r.compNeg[i].None? && r.compPos[j].None?
  }

  /** All automata that are checked are under `l` or its complement, and the tools with both automata agree with it. */
  ghost predicate ToolsAgree(lang: Automaton -> Language, r: Run, l: Language)
    requires Complemented(lang, r)
  {
    forall t: nat :: t < r.M() && Judged(r, t) ==> Under(lang, r, t, l) && (Both(r, t) ==> Agrees(lang, r, t, l))
  }

  /** `l` explains all automata that are checked; where one tool completes another, exactly. */
  ghost predicate Explained(lang: Automaton -> Language, r: Run, l: Language)
    requires Complemented(lang, r)
  {
    && ToolsAgree(lang, r, l)
    && forall i: nat, j: nat :: i < r.M() && j < r.M() && Crossing(r, i, j) ==>
         lang(r.pos[i].value) == l && lang(r.neg[j].value) == Complement(l)
  }

  lemma {:induction false} DisjointSubset(k: Language, l: Language)
    ensures !Intersect(k, Complement(l)) <==> k <= l
  {
    if !Intersect(k, Complement(l)) {
      forall w | w in k ensures w in l {
        assert w in k && w in Complement(l) ==> Intersect(k, Complement(l));
      }
    }
  }

  /** Without a reference pair every positive automaton is tested against every negative one. */
  lemma {:induction false} AllApart(lang: Automaton -> Language, r: Run, i: nat, j: nat)
    requires Complemented(lang, r) && NoPair(r) && Silent(lang, r) && i < r.M() && j < r.M()
    requires r.pos[i].Some? && r.neg[j].Some?
    ensures !Intersect(lang(r.pos[i].value), lang(r.neg[j].value)) && !(r.reference[i] && r.reference[j])
    ensures lang(r.pos[i].value) <= Complement(lang(r.neg[j].value))
    ensures lang(r.neg[j].value) <= Complement(lang(r.pos[i].value))
  {
    assert PairSilent(lang, r, i, j);
    assert !(IsReference(r.pos, r.reference, i) && IsReference(r.neg, r.reference, j));
  }

  /** A tool with a complemented positive automaton: that automaton is the language. */
  lemma {:induction false} AnchorPositive(lang: Automaton -> Language, r: Run, a: nat)
    requires Complemented(lang, r) && NoPair(r) && Silent(lang, r)
    requires a < r.M() && Both(r, a) && r.compPos[a].Some?
    requires r.compNeg[a].Some? || forall t: nat :: t < r.M() && Both(r, t) ==> r.compPos[t].None? || r.compNeg[t].None?
    ensures ToolsAgree(lang, r, lang(r.pos[a].value))
  {
    var l := lang(r.pos[a].value);
    forall t: nat | t < r.M() ensures Under(lang, r, t, l) && (Both(r, t) ==> Agrees(lang, r, t, l)) {
      if r.pos[t].Some? {
        PositiveUnder(lang, r, a, t);
      }
      if r.neg[t].Some? {
        AllApart(lang, r, a, t);
      }
      if Both(r, t) {
        AllApart(lang, r, t, a);
        AllApart(lang, r, t, t);
        AllApart(lang, r, a, a);
        assert PairSilent(lang, r, a, t) && PairSilent(lang, r, t, a);
        assert PairSilent(lang, r, t, t) && PairSilent(lang, r, a, a);
        DisjointSubset(lang(r.pos[t].value), l);
      }
    }
  }

  lemma {:induction false} PositiveUnder(lang: Automaton -> Language, r: Run, a: nat, t: nat)
    requires Complemented(lang, r) && NoPair(r) && Silent(lang, r) && t < r.M() && r.pos[t].Some?
    requires a < r.M() && Both(r, a) && r.compPos[a].Some?
    ensures lang(r.pos[t].value) <= lang(r.pos[a].value)
  {
    AllApart(lang, r, t, a);
    AllApart(lang, r, a, a);
    assert PairSilent(lang, r, t, a) && PairSilent(lang, r, a, a);
    DisjointSubset(lang(r.pos[t].value), lang(r.pos[a].value));
  }

  /** No positive automaton could be complemented: a complemented negative one is the complement of the language. */
  lemma {:induction false} AnchorNegative(lang: Automaton -> Language, r: Run, a: nat)
    requires Complemented(lang, r) && NoPair(r) && Silent(lang, r)
    requires a < r.M() && Both(r, a) && r.compNeg[a].Some?
    requires forall t: nat :: t < r.M() && Both(r, t) ==> r.compPos[t].None?
    ensures ToolsAgree(lang, r, Complement(lang(r.neg[a].value)))
  {
    var l := Complement(lang(r.neg[a].value));
    forall t: nat | t < r.M() ensures Under(lang, r, t, l) && (Both(r, t) ==> Agrees(lang, r, t, l)) {
      if r.pos[t].Some? {
        AllApart(lang, r, t, a);
      }
      if r.neg[t].Some? {
        AllApart(lang, r, a, t);
        AllApart(lang, r, a, a);
        assert PairSilent(lang, r, a, t) && PairSilent(lang, r, a, a);
      }
      if Both(r, t) {
        assert PairSilent(lang, r, t, a);
      }
    }
  }

  /** The words some tool accepts for the formula. */
  ghost function Union(lang: Automaton -> Language, r: Run): Language {
    iset w: Word | InUnion(lang, r, w)
  }

  ghost predicate InUnion(lang: Automaton -> Language, r: Run, w: Word) {
    exists t: nat :: t < |r.pos| && r.pos[t].Some? && w in lang(r.pos[t].value)
  }

  /** No automaton could be complemented: the union of the positive languages will do. */
  lemma {:induction false} AnchorNone(lang: Automaton -> Language, r: Run)
    requires Complemented(lang, r) && NoPair(r) && Silent(lang, r)
    requires forall t: nat :: t < r.M() && Both(r, t) ==> r.compPos[t].None? && r.compNeg[t].None?
    ensures ToolsAgree(lang, r, Union(lang, r))
  {
    forall t: nat | t < r.M()
      ensures Under(lang, r, t, Union(lang, r)) && (Both(r, t) ==> Agrees(lang, r, t, Union(lang, r)))
    {
      if r.neg[t].Some? {
        forall i: nat | i < r.M() && r.pos[i].Some?
          ensures !Intersect(lang(r.pos[i].value), lang(r.neg[t].value))
        {
          AllApart(lang, r, i, t);
        }
      }
      if r.pos[t].Some? {
        forall w | w in lang(r.pos[t].value) ensures InUnion(lang, r, w) {
        }
      }
    }
  }

  /** Where one tool completes another, silence makes both exact. */
  lemma {:induction false} CrossingExact(lang: Automaton -> Language, r: Run, l: Language, i: nat, j: nat)
    requires Complemented(lang, r) && Silent(lang, r) && i < r.M() && j < r.M() && Crossing(r, i, j)
    requires Under(lang, r, i, l) && Under(lang, r, j, l) && !(r.reference[i] && r.reference[j])
    ensures lang(r.pos[i].value) == l && lang(r.neg[j].value) == Complement(l)
  {
    assert PairSilent(lang, r, i, j);
    var k, m := lang(r.pos[i].value), lang(r.neg[j].value);
    assert !Intersect(Complement(m), Complement(k));
    forall w | w in l ensures w in k {
      assert w !in k ==> w in Complement(k) && w in Complement(m);
    }
    forall w | w in Complement(l) ensures w in m {
      assert w !in m ==> w in Complement(k) && w in Complement(m);
    }
  }

  /** One language explains everything: then nothing is reported. */
  lemma {:induction false} ExplainedIsSilent(lang: Automaton -> Language, r: Run, l: Language)
    requires Complemented(lang, r) && Explained(lang, r, l)
    requires r.posRef < 0 <==> r.negRef < 0
    requires r.posRef >= 0 ==> CorrectReferences(lang, r, l)
    ensures Silent(lang, r)
  {
    forall i: nat, j: nat | i < r.M() && j < r.M() ensures PairSilent(lang, r, i, j) {
      assert Judged(r, i) ==> Under(lang, r, i, l) && (Both(r, i) ==> Agrees(lang, r, i, l));
      assert Judged(r, j) ==> Under(lang, r, j, l) && (Both(r, j) ==> Agrees(lang, r, j, l));
    }
  }

  /** Without a reference pair: nothing is reported exactly when one language explains all the automata, so the
      tests that are skipped would have found nothing more. */
  lemma {:induction false} CrossCheckExact(lib: Library, lang: Automaton -> Language, r: Run)
    requires Sound(lib, lang) && Complemented(lang, r) && Fits(lib, r) && NoPair(r)
    ensures Problems(lib, r, r.M()) == 0 <==> exists l: Language :: Explained(lang, r, l)
  {
    SilentMeaning(lib, lang, r);
    if Silent(lang, r) {
      var l := Anchor(lang, r);
      forall i: nat, j: nat | i < r.M() && j < r.M() && Crossing(r, i, j)
        ensures lang(r.pos[i].value) == l && lang(r.neg[j].value) == Complement(l)
      {
        AllApart(lang, r, i, j);
        assert Judged(r, i) && Judged(r, j);
        CrossingExact(lang, r, l, i, j);
      }
      assert Explained(lang, r, l);
    }
    if l: Language :| Explained(lang, r, l) {
      ExplainedIsSilent(lang, r, l);
    }
  }

  /** The language that silence points to. */
  lemma {:induction false} Anchor(lang: Automaton -> Language, r: Run) returns (l: Language)
    requires Complemented(lang, r) && NoPair(r) && Silent(lang, r)
    ensures ToolsAgree(lang, r, l)
  {
    if a: nat :| a < r.M() && Both(r, a) && r.compPos[a].Some? && r.compNeg[a].Some? {
      AnchorPositive(lang, r, a);
      l := lang(r.pos[a].value);
    } else if a: nat :| a < r.M() && Both(r, a) && r.compPos[a].Some? {
      AnchorPositive(lang, r, a);
      l := lang(r.pos[a].value);
    } else if a: nat :| a < r.M() && Both(r, a) && r.compNeg[a].Some? {
      AnchorNegative(lang, r, a);
      l := Complement(lang(r.neg[a].value));
    } else {
      AnchorNone(lang, r);
      l := Union(lang, r);
    }
  }

  // ----- with a reference pair

  /** Reference automata have been chosen, have the language and its complement, and reference tools are
      not complemented. */
  ghost predicate CorrectReferences(lang: Automaton -> Language, r: Run, l: Language) {
    && r.Valid() && 0 <= r.posRef < r.M() && 0 <= r.negRef < r.M()
    && r.reference[r.posRef] && r.reference[r.negRef]
    && r.pos[r.posRef].Some? && lang(r.pos[r.posRef].value) == l
    && r.neg[r.negRef].Some? && lang(r.neg[r.negRef].value) == Complement(l)
    && forall t: nat :: t < r.M() && r.reference[t] ==> r.compPos[t].None? && r.compNeg[t].None?
  }

  /** What silence says about tool `t` when the references are right. */
  lemma {:induction false} ReferenceJudges(lang: Automaton -> Language, r: Run, l: Language, t: nat)
    requires Complemented(lang, r) && CorrectReferences(lang, r, l) && Silent(lang, r) && t < r.M() && !r.reference[t]
    ensures Under(lang, r, t, l) && (Both(r, t) ==> Agrees(lang, r, t, l))
  {
    assert PairSilent(lang, r, t, r.negRef) && PairSilent(lang, r, r.posRef, t) && PairSilent(lang, r, t, t);
    if r.pos[t].Some? {
      DisjointSubset(lang(r.pos[t].value), l);
    }
  }

  /** With a correct reference pair: nothing is reported exactly when the reference language explains the automata of
      all other tools, although these tools are hardly compared with each other. */
  lemma {:induction false} ReferenceCheckExact(lib: Library, lang: Automaton -> Language, r: Run, l: Language)
    requires Sound(lib, lang) && Complemented(lang, r) && Fits(lib, r) && CorrectReferences(lang, r, l)
    ensures Problems(lib, r, r.M()) == 0 <==> Explained(lang, r, l)
  {
    SilentMeaning(lib, lang, r);
    if Silent(lang, r) {
      forall t: nat | t < r.M() && Judged(r, t)
        ensures Under(lang, r, t, l) && (Both(r, t) ==> Agrees(lang, r, t, l))
      {
        ReferenceJudges(lang, r, l, t);
      }
      forall i: nat, j: nat | i < r.M() && j < r.M() && Crossing(r, i, j)
        ensures lang(r.pos[i].value) == l && lang(r.neg[j].value) == Complement(l)
      {
        assert Judged(r, i) && Judged(r, j);
        CrossingExact(lang, r, l, i, j);
      }
    }
    if Explained(lang, r, l) {
      ExplainedIsSilent(lang, r, l);
    }
  }

  // ----- choosing references and complementing

  const U32_MAX := 0xFFFF_FFFF

  /** Sizes are compared lexicographically, deterministic automata first. */
  datatype Size = Size(nondet: bool, states: nat, edges: nat, sets: nat) {
    predicate Less(b: Size) {
      if nondet != b.nondet then !nondet
      else if states != b.states then states < b.states
      else if edges != b.edges then edges < b.edges
      else sets < b.sets
    }
  }

  function SizeOf(a: Automaton): Size {
    Size(!a.deterministic, a.states, a.edges, a.sets)
  }

  /** The sizes of an automaton are unsigned numbers, and its acceptance sets fit in a bit vector. */
  predicate Representable(a: Automaton) {
    a.states <= U32_MAX && a.edges <= U32_MAX && a.sets < U32_MAX
  }

  predicate IsReference(from: seq<Option<Automaton>>, reference: seq<bool>, i: nat) {
    i < |from| && i < |reference| && reference[i] && from[i].Some?
  }

  /** The first of the smallest automata of the reference tools, or -1 if they have none. */
  method SmallestRef(from: seq<Option<Automaton>>, reference: seq<bool>) returns (smallest: int)
    requires |from| == |reference|
    requires forall i: nat :: i < |from| && from[i].Some? ==> Representable(from[i].value)
    ensures smallest < 0 <==> forall i: nat :: !IsReference(from, reference, i)
    ensures smallest >= 0 ==>
              && IsReference(from, reference, smallest)
              && (forall i: nat :: IsReference(from, reference, i) ==>
                    !SizeOf(from[i].value).Less(SizeOf(from[smallest].value)))
              && (forall i: nat :: IsReference(from, reference, i) && i < smallest ==>
                    SizeOf(from[smallest].value).Less(SizeOf(from[i].value)))
    ensures smallest >= 0 ==> forall i: nat :: IsReference(from, reference, i) ==>
              && (from[i].value.deterministic ==> from[smallest].value.deterministic)
              && (from[i].value.deterministic == from[smallest].value.deterministic ==>
                    from[smallest].value.states <= from[i].value.states)
  {
    smallest := -1;
    var size := Size(true, U32_MAX, U32_MAX, U32_MAX);
    for i := 0 to |from|
      invariant smallest < i && -1 <= smallest
      invariant smallest < 0 ==> size == Size(true, U32_MAX, U32_MAX, U32_MAX)
      invariant smallest < 0 ==> forall k: nat :: k < i ==> !IsReference(from, reference, k)
      invariant smallest >= 0 ==>
                  && IsReference(from, reference, smallest) && size == SizeOf(from[smallest].value)
                  && (forall k: nat :: k < i && IsReference(from, reference, k) ==> !SizeOf(from[k].value).Less(size))
                  && (forall k: nat :: k < smallest && IsReference(from, reference, k) ==>
                       size.Less(SizeOf(from[k].value)))
    {
      if reference[i] && from[i].Some? {
        var s := SizeOf(from[i].value);
        if s.Less(size) {
          smallest := i;
          size := s;
        }
      }
    }
  }

  function SimplifyAll(lib: Library, from: seq<Option<Automaton>>): (r: seq<Option<Automaton>>)
    ensures |r| == |from|
    ensures forall i: nat :: i < |from| ==>
              r[i].Some? == from[i].Some? && (from[i].Some? ==> r[i].value == lib.simplify(from[i].value))
  {
    seq(|from|, i requires 0 <= i < |from| => if from[i].Some? then Some(lib.simplify(from[i].value)) else None)
  }

  /** Complements the automata of one sign; with a reference pair, those of reference tools are left alone. */
  method FillComplements(lib: Library, from: seq<Option<Automaton>>, reference: seq<bool>, paired: bool)
    returns (comp: seq<Option<Automaton>>)
    requires |from| == |reference|
    ensures |comp| == |from|
    ensures forall i: nat :: i < |from| ==>
              comp[i] == if from[i].Some? && !(paired && reference[i]) then lib.complement(from[i].value) else None
  {
    comp := seq(|from|, _ => None);
    for i := 0 to |from|
      invariant |comp| == |from|
      invariant forall k: nat :: k < |from| ==>
                  comp[k] == if k < i && from[k].Some? && !(paired && reference[k])
                             then lib.complement(from[k].value) else None
    {
      if from[i].Some? && comp[i].None? {
        if !(paired && reference[i]) {
          comp := comp[i := lib.complement(from[i].value)];
        }
      }
    }
  }

  ghost predicate Countable(lib: Library, from: seq<Option<Automaton>>) {
    forall i: nat :: i < |from| && from[i].Some? ==>
      Representable(from[i].value) && Representable(lib.simplify(from[i].value))
  }

  ghost predicate SameLanguages(lang: Automaton -> Language, a: seq<Option<Automaton>>, b: seq<Option<Automaton>>) {
    |a| == |b| && forall t: nat :: t < |a| ==>
      a[t].Some? == b[t].Some? && (a[t].Some? ==> lang(a[t].value) == lang(b[t].value))
  }

  /** Simplifying automata does not change which tools are references. */
  lemma {:induction false} SameReferences(a: seq<Option<Automaton>>, b: seq<Option<Automaton>>, reference: seq<bool>)
    requires |a| == |b| && forall t: nat :: t < |a| ==> a[t].Some? == b[t].Some?
    ensures forall t: nat :: IsReference(a, reference, t) <==> IsReference(b, reference, t)
  {
  }

  /** The whole comparison of one round: references, simplification, complements, tests. */
  method Compare(lib: Library, pos0: seq<Option<Automaton>>, neg0: seq<Option<Automaton>>, reference: seq<bool>,
                 ghost lang: Automaton -> Language)
    returns (problems: nat, r: Run)
    requires |pos0| == |neg0| == |reference| && Sound(lib, lang) && Countable(lib, pos0) && Countable(lib, neg0)
    ensures Complemented(lang, r) && r.reference == reference
    ensures SameLanguages(lang, r.pos, pos0) && SameLanguages(lang, r.neg, neg0)
    ensures r.posRef >= 0
            <==> (exists i: nat :: IsReference(pos0, reference, i))
                 && (exists i: nat :: IsReference(neg0, reference, i))
    ensures r.posRef >= 0 <==> r.negRef >= 0
    ensures r.posRef >= 0 ==> IsReference(r.pos, reference, r.posRef) && IsReference(r.neg, reference, r.negRef)
    ensures Fits(lib, r) && r.posRef < 0 ==> (problems == 0 <==> exists l: Language :: Explained(lang, r, l))
    ensures Fits(lib, r) && r.posRef >= 0
            && lang(r.neg[r.negRef].value) == Complement(lang(r.pos[r.posRef].value)) ==>
              (problems == 0 <==> Explained(lang, r, lang(r.pos[r.posRef].value)))
    ensures Fits(lib, r) && (exists l: Language :: Consensus(lang, r, l)) ==> problems == 0
  {
    var posRef := SmallestRef(pos0, reference);
    var negRef := SmallestRef(neg0, reference);
    if posRef < 0 || negRef < 0 {
      posRef, negRef := -1, -1;
    }
    var pos, neg := SimplifyAll(lib, pos0), SimplifyAll(lib, neg0);
    var compPos := FillComplements(lib, pos, reference, posRef >= 0);
    var compNeg := FillComplements(lib, neg, reference, posRef >= 0);
    SameReferences(pos0, pos, reference);
    SameReferences(neg0, neg, reference);
    if posRef >= 0 {
      posRef := SmallestRef(pos, reference);
      negRef := SmallestRef(neg, reference);
    }
    r := Run(pos, neg, compPos, compNeg, reference, posRef, negRef);
    assert r.posRef < 0 ==> NoPair(r);
    problems := IntersectionTests(lib, r);
    CompareMeaning(lib, lang, r, problems);
  }

  lemma {:induction false} CompareMeaning(lib: Library, lang: Automaton -> Language, r: Run, problems: nat)
    requires Sound(lib, lang) && Complemented(lang, r) && problems == Problems(lib, r, r.M())
    requires r.posRef >= 0 <==> r.negRef >= 0
    requires r.posRef >= 0 ==> IsReference(r.pos, r.reference, r.posRef) && IsReference(r.neg, r.reference, r.negRef)
    requires r.posRef >= 0 ==> forall t: nat :: t < r.M() && r.reference[t] ==> r.compPos[t].None? && r.compNeg[t].None?
    ensures Fits(lib, r) && NoPair(r) ==> (problems == 0 <==> exists l: Language :: Explained(lang, r, l))
    ensures Fits(lib, r) && r.posRef >= 0
            && lang(r.neg[r.negRef].value) == Complement(lang(r.pos[r.posRef].value)) ==>
              (problems == 0 <==> Explained(lang, r, lang(r.pos[r.posRef].value)))
    ensures Fits(lib, r) && (exists l: Language :: Consensus(lang, r, l)) ==> problems == 0
  {
    if Fits(lib, r) {
      if NoPair(r) {
        CrossCheckExact(lib, lang, r);
      }
      if r.posRef >= 0 && lang(r.neg[r.negRef].value) == Complement(lang(r.pos[r.posRef].value)) {
        ReferenceCheckExact(lib, lang, r, lang(r.pos[r.posRef].value));
      }
      if l: Language :| Consensus(lang, r, l) {
        AgreementIsSilent(lang, r, l);
        SilentMeaning(lib, lang, r);
      }
    }
  }
}
