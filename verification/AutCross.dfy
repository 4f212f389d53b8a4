/**
 Comparison of several automata that should be equivalent: a circular inclusion check first, and
 all the other inclusions only if it fails.
 */
module AutCross {
  import opened Wrappers
  import opened LtlCross

  /** `neg[i]` is the complement of `pos[i]`, if there is one. */
  ghost predicate ComplementsOf(lang: Automaton -> Language, pos: seq<Option<Automaton>>, neg: seq<Option<Automaton>>) {
    |pos| == |neg| && forall i: nat :: i < |pos| ==>
      pos[i].Some? == neg[i].Some? && (pos[i].Some? ==> lang(neg[i].value) == Complement(lang(pos[i].value)))
  }

  ghost predicate NoSkip(lib: Library, pos: seq<Option<Automaton>>, neg: seq<Option<Automaton>>) {
    forall i: nat, j: nat :: i < |pos| && j < |neg| && pos[i].Some? && neg[j].Some? ==>
      pos[i].value.sets + neg[j].value.sets <= lib.maxSets
  }

  /** The inclusion of `pos[i]` in `pos[j]` can be tested, and fails. */
  predicate Fails(lib: Library, pos: seq<Option<Automaton>>, neg: seq<Option<Automaton>>, i: nat, j: nat)
    requires i < |pos| == |neg| && j < |neg|
  {
    i != j && pos[i].Some? && neg[j].Some? && lib.CheckEmptyProd(pos[i].value, neg[j].value)
  }

  /** Failing inclusions of `pos[i]` in the first `n` automata, leaving out automaton `skip`. */
  function RowFailures(lib: Library, pos: seq<Option<Automaton>>, neg: seq<Option<Automaton>>, i: nat,
                       skip: int, n: nat): nat
    requires i < |pos| == |neg| && n <= |neg|
  {
    if n == 0 then 0
    else RowFailures(lib, pos, neg, i, skip, n - 1) + One(n - 1 != skip && Fails(lib, pos, neg, i, n - 1))
  }

  /** All failing inclusions of the first `n` automata in any other. */
  function Failures(lib: Library, pos: seq<Option<Automaton>>, neg: seq<Option<Automaton>>, n: nat): nat
    requires n <= |pos| == |neg|
  {
    if n == 0 then 0 else Failures(lib, pos, neg, n - 1) + RowFailures(lib, pos, neg, n - 1, -1, |neg|)
  }

  /** The automaton after `i`, around the circle. */
  function Next(i: nat, mi: nat): nat
    requires mi > 0
  {
    (i + 1) % mi
  }

  lemma {:induction false} NextBound(i: nat, mi: nat)
    requires i < mi
    ensures Next(i, mi) < mi && Next(i, mi) == (if i + 1 < mi then i + 1 else 0) && (Next(i, mi) == i <==> mi == 1)
  {
  }

  function CircularFailures(lib: Library, pos: seq<Option<Automaton>>, neg: seq<Option<Automaton>>, n: nat): nat
    requires n <= |pos| == |neg|
  {
    if n == 0 then 0 else CircularFailures(lib, pos, neg, n - 1) + One(Fails(lib, pos, neg, n - 1, Next(n - 1, |pos|)))
  }

  function OtherFailures(lib: Library, pos: seq<Option<Automaton>>, neg: seq<Option<Automaton>>, n: nat): nat
    requires n <= |pos| == |neg|
  {
    if n == 0 then 0
    else OtherFailures(lib, pos, neg, n - 1) + RowFailures(lib, pos, neg, n - 1, Next(n - 1, |pos|), |neg|)
  }

  /** Leaving out one column loses its failure and nothing else. */
  lemma {:induction false} RowSplit(lib: Library, pos: seq<Option<Automaton>>, neg: seq<Option<Automaton>>,
                                    i: nat, k: nat, n: nat)
    requires i < |pos| == |neg| && n <= |neg| && k < |neg|
    ensures RowFailures(lib, pos, neg, i, -1, n)
            == RowFailures(lib, pos, neg, i, k, n) + One(k < n && Fails(lib, pos, neg, i, k))
  {
    if n > 0 {
      RowSplit(lib, pos, neg, i, k, n - 1);
    }
  }

  /** The two passes together test every ordered pair once. */
  lemma {:induction false} PassesCover(lib: Library, pos: seq<Option<Automaton>>, neg: seq<Option<Automaton>>, n: nat)
    requires n <= |pos| == |neg|
    ensures Failures(lib, pos, neg, n) == CircularFailures(lib, pos, neg, n) + OtherFailures(lib, pos, neg, n)
  {
    if n > 0 {
      PassesCover(lib, pos, neg, n - 1);
      RowSplit(lib, pos, neg, n - 1, Next(n - 1, |pos|), |neg|);
    }
  }

  // ----- the circular check

  ghost predicate Included(lang: Automaton -> Language, pos: seq<Option<Automaton>>, i: nat, j: nat) {
    i < |pos| && j < |pos| && pos[i].Some? && pos[j].Some? && lang(pos[i].value) <= lang(pos[j].value)
  }

  /** Every automaton is included in the next one, around the circle. */
  ghost predicate Circle(lang: Automaton -> Language, pos: seq<Option<Automaton>>) {
    forall i: nat :: i < |pos| ==> Included(lang, pos, i, Next(i, |pos|))
  }

  lemma {:induction false} CircleForward(lang: Automaton -> Language, pos: seq<Option<Automaton>>, i: nat, j: nat)
    requires Circle(lang, pos) && i <= j < |pos|
    ensures Included(lang, pos, i, j)
    decreases j - i
  {
    assert Included(lang, pos, i, Next(i, |pos|));
    if i < j {
      assert Next(i, |pos|) == i + 1;
      CircleForward(lang, pos, i + 1, j);
    }
  }

  /** So all the languages are the same. */
  lemma {:induction false} CircleEqual(lang: Automaton -> Language, pos: seq<Option<Automaton>>, i: nat, j: nat)
    requires Circle(lang, pos) && i < |pos| && j < |pos|
    ensures pos[i].Some? && pos[j].Some? && lang(pos[i].value) == lang(pos[j].value)
  {
    var last := |pos| - 1;
    assert Included(lang, pos, last, Next(last, |pos|)) && Next(last, |pos|) == 0;
    CircleForward(lang, pos, 0, i);
    CircleForward(lang, pos, 0, j);
    CircleForward(lang, pos, i, last);
    CircleForward(lang, pos, j, last);
  }

  lemma {:induction false} FailsMeaning(lib: Library, lang: Automaton -> Language, pos: seq<Option<Automaton>>,
                                        neg: seq<Option<Automaton>>, i: nat, j: nat)
    requires Sound(lib, lang) && ComplementsOf(lang, pos, neg) && NoSkip(lib, pos, neg)
    requires i < |pos| && j < |pos| && pos[i].Some? && pos[j].Some?
    ensures Fails(lib, pos, neg, i, j) <==> i != j && !Included(lang, pos, i, j)
  {
    DisjointSubset(lang(pos[i].value), lang(pos[j].value));
  }

  lemma {:induction false} CircleNoFailures(lib: Library, lang: Automaton -> Language,
                                            pos: seq<Option<Automaton>>, neg: seq<Option<Automaton>>, n: nat)
    requires Sound(lib, lang) && ComplementsOf(lang, pos, neg) && NoSkip(lib, pos, neg)
    requires Circle(lang, pos) && n <= |pos|
    ensures Failures(lib, pos, neg, n) == 0
  {
    if n > 0 {
      CircleNoFailures(lib, lang, pos, neg, n - 1);
      CircleNoRowFailures(lib, lang, pos, neg, n - 1, |neg|);
    }
  }

  lemma {:induction false} CircleNoRowFailures(lib: Library, lang: Automaton -> Language,
                                               pos: seq<Option<Automaton>>, neg: seq<Option<Automaton>>, i: nat,
                                               n: nat)
    requires Sound(lib, lang) && ComplementsOf(lang, pos, neg) && NoSkip(lib, pos, neg) && Circle(lang, pos)
    requires i < |pos| && n <= |pos|
    ensures RowFailures(lib, pos, neg, i, -1, n) == 0
  {
    if n > 0 {
      CircleNoRowFailures(lib, lang, pos, neg, i, n - 1);
      CircleEqual(lang, pos, i, n - 1);
      FailsMeaning(lib, lang, pos, neg, i, n - 1);
    }
  }

  ghost predicate CircleUpTo(lang: Automaton -> Language, pos: seq<Option<Automaton>>, n: nat) {
    forall i: nat :: i < n && i < |pos| ==> Included(lang, pos, i, Next(i, |pos|))
  }

  /** One more inclusion around the circle. */
  lemma {:induction false} CircleStep(lang: Automaton -> Language, pos: seq<Option<Automaton>>, i: nat)
    requires i < |pos|
    ensures CircleUpTo(lang, pos, i + 1) <==> CircleUpTo(lang, pos, i) && Included(lang, pos, i, Next(i, |pos|))
  {
    NextBound(i, |pos|);
  }

  /** The test of automaton `i` succeeds exactly when the inclusion in the next one holds. */
  lemma {:induction false} CircleTest(lib: Library, lang: Automaton -> Language, pos: seq<Option<Automaton>>,
                                      neg: seq<Option<Automaton>>, i: nat)
    requires Sound(lib, lang) && ComplementsOf(lang, pos, neg) && NoSkip(lib, pos, neg) && i < |pos|
    ensures var j := Next(i, |pos|);
            && j < |pos| && (i == j <==> |pos| == 1)
            && (Tested(lib, pos, neg, i, j) <==> i != j && Included(lang, pos, i, j))
            && (Fails(lib, pos, neg, i, j) <==> i != j && pos[i].Some? && neg[j].Some? && !Tested(lib, pos, neg, i, j))
  {
    var j := Next(i, |pos|);
    NextBound(i, |pos|);
    if pos[i].Some? && neg[j].Some? && i != j {
      FailsMeaning(lib, lang, pos, neg, i, j);
    }
  }

  /** The inclusion of `pos[i]` in `pos[j]` can be tested, and holds. */
  predicate Tested(lib: Library, pos: seq<Option<Automaton>>, neg: seq<Option<Automaton>>, i: nat, j: nat)
    requires i < |pos| == |neg| && j < |neg|
  {
    i != j && pos[i].Some? && neg[j].Some? && !lib.CheckEmptyProd(pos[i].value, neg[j].value)
  }

  /** First pass: automaton `i` against the next one. */
  method CircularPass(lib: Library, pos: seq<Option<Automaton>>, neg: seq<Option<Automaton>>,
                      ghost lang: Automaton -> Language)
    returns (problems: nat, ok: nat)
    requires Sound(lib, lang) && ComplementsOf(lang, pos, neg) && NoSkip(lib, pos, neg)
    ensures problems == CircularFailures(lib, pos, neg, |pos|)
    ensures ok == |pos| <==> |pos| != 1 && CircleUpTo(lang, pos, |pos|)
  {
    var mi := |pos|;
    problems, ok := 0, 0;
    for i := 0 to mi
      invariant problems == CircularFailures(lib, pos, neg, i)
      invariant ok <= i
      invariant ok == i <==> i == 0 || (mi != 1 && CircleUpTo(lang, pos, i))
    {
      var j := Next(i, mi);
      CircleStep(lang, pos, i);
      CircleTest(lib, lang, pos, neg, i);
      if pos[i].Some? {
        if i != j && neg[j].Some? {
          var res := lib.CheckEmptyProd(pos[i].value, neg[j].value);
          problems := problems + One(res);
          ok := ok + One(!res);
        }
      }
    }
  }

  /** Second pass: automaton `i` against all but itself and the next one. */
  method OtherPass(lib: Library, pos: seq<Option<Automaton>>, neg: seq<Option<Automaton>>) returns (problems: nat)
    requires |pos| == |neg|
    ensures problems == OtherFailures(lib, pos, neg, |pos|)
  {
    var mi := |pos|;
    problems := 0;
    for i := 0 to mi
      invariant problems == OtherFailures(lib, pos, neg, i)
    {
      var k := Next(i, mi);
      if pos[i].Some? {
        for j := 0 to mi
          invariant problems == OtherFailures(lib, pos, neg, i) + RowFailures(lib, pos, neg, i, k, j)
        {
          if i != j && j != k && neg[j].Some? {
            problems := problems + One(lib.CheckEmptyProd(pos[i].value, neg[j].value));
          }
        }
      } else {
        NoRowFailures(lib, pos, neg, i, k, mi);
      }
    }
  }

  /** Runs the circular check and, if it does not succeed all around, the other inclusions.  The problems counted are
      exactly the failing inclusions between the given automata, whichever way it went. */
  method CheckEquivalence(lib: Library, pos: seq<Option<Automaton>>, neg: seq<Option<Automaton>>,
                          ghost lang: Automaton -> Language)
    returns (problems: nat)
    requires Sound(lib, lang) && ComplementsOf(lang, pos, neg) && NoSkip(lib, pos, neg)
    ensures problems == Failures(lib, pos, neg, |pos|)
    ensures problems == 0 <==> AllEqual(lang, pos)
  {
    var ok;
    problems, ok := CircularPass(lib, pos, neg, lang);
    PassesCover(lib, pos, neg, |pos|);
    if ok != |pos| {
      var more := OtherPass(lib, pos, neg);
      problems := problems + more;
    } else {
      CircleNoFailures(lib, lang, pos, neg, |pos|);
    }
    NoFailureMeaning(lib, lang, pos, neg);
  }

  /** All the automata that exist have the same language. */
  ghost predicate AllEqual(lang: Automaton -> Language, pos: seq<Option<Automaton>>) {
    forall i: nat, j: nat :: i < |pos| && j < |pos| && pos[i].Some? && pos[j].Some? ==>
      lang(pos[i].value) == lang(pos[j].value)
  }

  lemma {:induction false} RowFailuresZero(lib: Library, pos: seq<Option<Automaton>>,
                                           neg: seq<Option<Automaton>>, i: nat, n: nat)
    requires i < |pos| == |neg| && n <= |neg|
    ensures RowFailures(lib, pos, neg, i, -1, n) == 0 <==> forall j: nat :: j < n ==> !Fails(lib, pos, neg, i, j)
  {
    if n > 0 {
      RowFailuresZero(lib, pos, neg, i, n - 1);
    }
  }

  lemma {:induction false} FailuresZero(lib: Library, pos: seq<Option<Automaton>>, neg: seq<Option<Automaton>>, n: nat)
    requires n <= |pos| == |neg|
    ensures Failures(lib, pos, neg, n) == 0 <==>
            forall i: nat, j: nat :: i < n && j < |neg| ==> !Fails(lib, pos, neg, i, j)
  {
    if n > 0 {
      FailuresZero(lib, pos, neg, n - 1);
      RowFailuresZero(lib, pos, neg, n - 1, |neg|);
    }
  }

  lemma {:induction false} NoFailureMeaning(lib: Library, lang: Automaton -> Language,
                                            pos: seq<Option<Automaton>>, neg: seq<Option<Automaton>>)
    requires Sound(lib, lang) && ComplementsOf(lang, pos, neg) && NoSkip(lib, pos, neg)
    ensures Failures(lib, pos, neg, |pos|) == 0 <==> AllEqual(lang, pos)
  {
    FailuresZero(lib, pos, neg, |pos|);
    forall i: nat, j: nat | i < |pos| && j < |pos| && pos[i].Some? && pos[j].Some?
      ensures Fails(lib, pos, neg, i, j) <==> i != j && !Included(lang, pos, i, j)
    {
      FailsMeaning(lib, lang, pos, neg, i, j);
    }
    if AllEqual(lang, pos) {
      forall i: nat, j: nat | i < |pos| && j < |neg| ensures !Fails(lib, pos, neg, i, j) {
        assert pos[i].Some? && pos[j].Some? ==> Included(lang, pos, i, j);
      }
    } else {
      var i: nat, j: nat :|
        i < |pos| && j < |pos| && pos[i].Some? && pos[j].Some? && lang(pos[i].value) != lang(pos[j].value);
      assert !Included(lang, pos, i, j) || !Included(lang, pos, j, i);
      assert Fails(lib, pos, neg, i, j) || Fails(lib, pos, neg, j, i);
    }
  }

  lemma {:induction false} NoRowFailures(lib: Library, pos: seq<Option<Automaton>>, neg: seq<Option<Automaton>>,
                                         i: nat, skip: int, n: nat)
    requires i < |pos| == |neg| && n <= |neg| && pos[i].None?
    ensures RowFailures(lib, pos, neg, i, skip, n) == 0
  {
    if n > 0 {
      NoRowFailures(lib, pos, neg, i, skip, n - 1);
    }
  }

  // ----- the count is the number of failing inclusions

  /** The automata in which `pos[i]` is wrongly included, among the first `n`. */
  ghost function FailingRow(lib: Library, pos: seq<Option<Automaton>>, neg: seq<Option<Automaton>>,
                            i: nat, n: nat): set<nat>
    requires i < |pos| == |neg| && n <= |neg|
  {
    set j: nat | j < n && Fails(lib, pos, neg, i, j)
  }

  /** The ordered pairs of different automata whose inclusion can be tested and fails. */
  ghost function FailingPairs(lib: Library, pos: seq<Option<Automaton>>, neg: seq<Option<Automaton>>,
                              n: nat): set<(nat, nat)>
    requires n <= |pos| == |neg|
  {
    set i: nat, j: nat | i < n && j < |neg| && Fails(lib, pos, neg, i, j) :: (i, j)
  }

  lemma {:induction false} RowCounted(lib: Library, pos: seq<Option<Automaton>>, neg: seq<Option<Automaton>>,
                                      i: nat, n: nat)
    requires i < |pos| == |neg| && n <= |neg|
    ensures RowFailures(lib, pos, neg, i, -1, n) == |FailingRow(lib, pos, neg, i, n)|
  {
    if n > 0 {
      RowCounted(lib, pos, neg, i, n - 1);
      var before := FailingRow(lib, pos, neg, i, n - 1);
      if Fails(lib, pos, neg, i, n - 1) {
        assert FailingRow(lib, pos, neg, i, n) == before + {n - 1};
      } else {
        assert FailingRow(lib, pos, neg, i, n) == before;
      }
    }
  }

  ghost function PairedWith(i: nat, row: set<nat>): set<(nat, nat)> {
    set j | j in row :: (i, j)
  }

  lemma {:induction false} PairedCount(i: nat, row: set<nat>)
    ensures |PairedWith(i, row)| == |row|
    decreases row
  {
    if j :| j in row {
      PairedCount(i, row - {j});
      assert PairedWith(i, row) == PairedWith(i, row - {j}) + {(i, j)};
    }
  }

  /** The failing pairs with one more automaton on the left. */
  lemma {:induction false} PairsGrow(lib: Library, pos: seq<Option<Automaton>>, neg: seq<Option<Automaton>>, i: nat)
    requires i < |pos| == |neg|
    ensures |FailingPairs(lib, pos, neg, i + 1)|
         == |FailingPairs(lib, pos, neg, i)| + |PairedWith(i, FailingRow(lib, pos, neg, i, |neg|))|
  {
    var before, added := FailingPairs(lib, pos, neg, i), PairedWith(i, FailingRow(lib, pos, neg, i, |neg|));
    forall j: nat | j < |neg| && Fails(lib, pos, neg, i, j) ensures (i, j) in added {
      assert j in FailingRow(lib, pos, neg, i, |neg|);
    }
    assert FailingPairs(lib, pos, neg, i + 1) == before + added && before !! added;
  }

  /** The problems counted over all ordered pairs are as many as there are failing pairs. */
  lemma {:induction false} FailuresCounted(lib: Library, pos: seq<Option<Automaton>>, neg: seq<Option<Automaton>>,
                                           n: nat)
    requires n <= |pos| == |neg|
    ensures Failures(lib, pos, neg, n) == |FailingPairs(lib, pos, neg, n)|
  {
    if n == 0 {
      assert FailingPairs(lib, pos, neg, 0) == {};
    } else {
      FailuresCounted(lib, pos, neg, n - 1);
      RowCounted(lib, pos, neg, n - 1, |neg|);
      PairedCount(n - 1, FailingRow(lib, pos, neg, n - 1, |neg|));
      PairsGrow(lib, pos, neg, n - 1);
    }
  }
}
