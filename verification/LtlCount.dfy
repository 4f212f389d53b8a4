/**
 The number the comparison reports is the number of failing tests: pairs of translations, each with its four kinds of
 test.
 */
module LtlCount {
  import opened Wrappers
  import opened LtlCross

  /** Test number `k` of `pos[i]` and `neg[j]` is made and fails. */
  predicate TestFails(lib: Library, r: Run, i: nat, j: nat, k: nat)
    requires r.Valid() && i < r.M() && j < r.M()
  {
    && r.pos[i].Some? && r.neg[j].Some? && !(r.reference[i] && r.reference[j])
    && match k
       case 0 => TestsPair(r, i, j) && lib.CheckEmptyProd(r.pos[i].value, r.neg[j].value)
       case 1 => i != j && r.compPos[j].Some? && r.compNeg[j].None? && (r.posRef < 0 || i == r.posRef)
                 && lib.CheckEmptyProd(r.pos[i].value, r.compPos[j].value)
       case 2 => i != j && r.compNeg[i].Some? && r.compPos[i].None? && (r.negRef < 0 || j == r.negRef)
                 && lib.CheckEmptyProd(r.compNeg[i].value, r.neg[j].value)
       case 3 => r.compPos[i].Some? && r.compNeg[j].Some? && (i == j || (r.compNeg[i].None? && r.compPos[j].None?))
                 && lib.CheckEmptyProd(r.compNeg[j].value, r.compPos[i].value)
       case _ => false
  }

  /** The failing tests of the first `n` columns of row `i`. */
  ghost function RowTests(lib: Library, r: Run, i: nat, n: nat): set<(nat, nat)>
    requires r.Valid() && i < r.M() && n <= r.M()
  {
    set j: nat, k: nat | j < n && k < 4 && TestFails(lib, r, i, j, k) :: (j, k)
  }

  /** The failing tests of the first `n` rows. */
  ghost function FailingTests(lib: Library, r: Run, n: nat): set<(nat, nat, nat)>
    requires r.Valid() && n <= r.M()
  {
    set i: nat, j: nat, k: nat | i < n && j < r.M() && k < 4 && TestFails(lib, r, i, j, k) :: (i, j, k)
  }

  ghost function TestsAt(lib: Library, r: Run, i: nat, j: nat): set<nat>
    requires r.Valid() && i < r.M() && j < r.M()
  {
    set k: nat | k < 4 && TestFails(lib, r, i, j, k)
  }

  ghost function TestsBelow(lib: Library, r: Run, i: nat, j: nat, n: nat): set<nat>
    requires r.Valid() && i < r.M() && j < r.M()
  {
    set k: nat | k < n && TestFails(lib, r, i, j, k)
  }

  function FailuresBelow(lib: Library, r: Run, i: nat, j: nat, n: nat): nat
    requires r.Valid() && i < r.M() && j < r.M()
  {
    if n == 0 then 0 else FailuresBelow(lib, r, i, j, n - 1) + One(TestFails(lib, r, i, j, n - 1))
  }

  lemma {:induction false} BelowCounted(lib: Library, r: Run, i: nat, j: nat, n: nat)
    requires r.Valid() && i < r.M() && j < r.M()
    ensures FailuresBelow(lib, r, i, j, n) == |TestsBelow(lib, r, i, j, n)|
  {
    if n > 0 {
      BelowCounted(lib, r, i, j, n - 1);
      var before := TestsBelow(lib, r, i, j, n - 1);
      if TestFails(lib, r, i, j, n - 1) {
        assert TestsBelow(lib, r, i, j, n) == before + {n - 1};
      } else {
        assert TestsBelow(lib, r, i, j, n) == before;
      }
    } else {
      assert TestsBelow(lib, r, i, j, 0) == {};
    }
  }

  lemma {:induction false} PairSummed(lib: Library, r: Run, i: nat, j: nat)
    requires r.Valid() && i < r.M() && j < r.M()
    ensures PairProblems(lib, r, i, j) == FailuresBelow(lib, r, i, j, 4)
  {
    assert FailuresBelow(lib, r, i, j, 1) == One(TestFails(lib, r, i, j, 0));
    assert FailuresBelow(lib, r, i, j, 2) == One(TestFails(lib, r, i, j, 0)) + One(TestFails(lib, r, i, j, 1));
    assert FailuresBelow(lib, r, i, j, 3) == FailuresBelow(lib, r, i, j, 2) + One(TestFails(lib, r, i, j, 2));
  }

  lemma {:induction false} PairCounted(lib: Library, r: Run, i: nat, j: nat)
    requires r.Valid() && i < r.M() && j < r.M()
    ensures PairProblems(lib, r, i, j) == |TestsAt(lib, r, i, j)|
  {
    PairSummed(lib, r, i, j);
    BelowCounted(lib, r, i, j, 4);
    assert TestsAt(lib, r, i, j) == TestsBelow(lib, r, i, j, 4);
  }

  ghost function PairedWith(j: nat, ks: set<nat>): set<(nat, nat)> {
    set k | k in ks :: (j, k)
  }

  lemma {:induction false} PairedCount(j: nat, ks: set<nat>)
    ensures |PairedWith(j, ks)| == |ks|
    decreases ks
  {
    if k :| k in ks {
      PairedCount(j, ks - {k});
      assert PairedWith(j, ks) == PairedWith(j, ks - {k}) + {(j, k)};
    }
  }

  lemma {:induction false} RowGrows(lib: Library, r: Run, i: nat, j: nat)
    requires r.Valid() && i < r.M() && j < r.M()
    ensures |RowTests(lib, r, i, j + 1)| == |RowTests(lib, r, i, j)| + |PairedWith(j, TestsAt(lib, r, i, j))|
  {
    var before, added := RowTests(lib, r, i, j), PairedWith(j, TestsAt(lib, r, i, j));
    forall k: nat | k < 4 && TestFails(lib, r, i, j, k) ensures (j, k) in added {
      assert k in TestsAt(lib, r, i, j);
    }
    assert RowTests(lib, r, i, j + 1) == before + added && before !! added;
  }

  lemma {:induction false} RowCounted(lib: Library, r: Run, i: nat, n: nat)
    requires r.Valid() && i < r.M() && n <= r.M()
    ensures RowProblems(lib, r, i, n) == |RowTests(lib, r, i, n)|
  {
    if n == 0 {
      assert RowTests(lib, r, i, 0) == {};
    } else {
      RowCounted(lib, r, i, n - 1);
      PairCounted(lib, r, i, n - 1);
      PairedCount(n - 1, TestsAt(lib, r, i, n - 1));
      RowGrows(lib, r, i, n - 1);
    }
  }

  ghost function TripledWith(i: nat, row: set<(nat, nat)>): set<(nat, nat, nat)> {
    set jk | jk in row :: (i, jk.0, jk.1)
  }

  lemma {:induction false} TripledCount(i: nat, row: set<(nat, nat)>)
    ensures |TripledWith(i, row)| == |row|
    decreases row
  {
    if jk :| jk in row {
      TripledCount(i, row - {jk});
      assert TripledWith(i, row) == TripledWith(i, row - {jk}) + {(i, jk.0, jk.1)};
    }
  }

  lemma {:induction false} TestsGrow(lib: Library, r: Run, i: nat)
    requires r.Valid() && i < r.M()
    ensures |FailingTests(lib, r, i + 1)| == |FailingTests(lib, r, i)| + |TripledWith(i, RowTests(lib, r, i, r.M()))|
  {
    var before, added := FailingTests(lib, r, i), TripledWith(i, RowTests(lib, r, i, r.M()));
    forall j: nat, k: nat | j < r.M() && k < 4 && TestFails(lib, r, i, j, k) ensures (i, j, k) in added {
      assert (j, k) in RowTests(lib, r, i, r.M());
    }
    assert FailingTests(lib, r, i + 1) == before + added && before !! added;
  }

  /** The problems are as many as the failing tests. */
  lemma {:induction false} ProblemsCounted(lib: Library, r: Run, n: nat)
    requires r.Valid() && n <= r.M()
    ensures Problems(lib, r, n) == |FailingTests(lib, r, n)|
  {
    if n == 0 {
      assert FailingTests(lib, r, 0) == {};
    } else {
      ProblemsCounted(lib, r, n - 1);
      RowCounted(lib, r, n - 1, r.M());
      TripledCount(n - 1, RowTests(lib, r, n - 1, r.M()));
      TestsGrow(lib, r, n - 1);
    }
  }
}
