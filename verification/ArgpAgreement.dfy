/**
 The help and the parser resolve shadowed letters in the same way: the letter shown with an entry is the one
 the parser hands to the entry's group.
 */
module ArgpAgreement {
  import opened Wrappers
  import opened ArgpTables
  import opened ArgpDispatch
  import opened ArgpHelp

  // ----- the help list of a whole tree

  /** The options of the first `n` groups, in pre-order. */
  function Refs(nodes: seq<Node>, base: nat, n: nat): seq<OptRef>
    requires n <= |nodes|
  {
    if n == 0 then [] else Refs(nodes, base, n - 1) + Tag(Options(nodes[n - 1].argp), base + n - 1)
  }

  function AllRefs(nodes: seq<Node>, base: nat): seq<OptRef> {
    Refs(nodes, base, |nodes|)
  }

  lemma {:induction false} RefsFront(xs: seq<Node>, ys: seq<Node>, base: nat, n: nat)
    requires n <= |xs|
    ensures Refs(xs + ys, base, n) == Refs(xs, base, n)
  {
    if n > 0 {
      RefsFront(xs, ys, base, n - 1);
    }
  }

  lemma {:induction false} RefsConcat(xs: seq<Node>, ys: seq<Node>, base: nat, n: nat)
    requires n <= |ys|
    ensures Refs(xs + ys, base, |xs| + n) == AllRefs(xs, base) + Refs(ys, base + |xs|, n)
  {
    if n > 0 {
      RefsConcat(xs, ys, base, n - 1);
      assert (xs + ys)[|xs| + n - 1] == ys[n - 1];
      assert base + |xs| + n - 1 == base + (|xs| + n) - 1;
    } else {
      RefsFront(xs, ys, base, |xs|);
    }
  }

  lemma {:induction false} AllRefsConcat(xs: seq<Node>, ys: seq<Node>, base: nat)
    ensures AllRefs(xs + ys, base) == AllRefs(xs, base) + AllRefs(ys, base + |xs|)
  {
    RefsConcat(xs, ys, base, |ys|);
  }

  /** With the children from number `i` on, the list `done` becomes `goal`, and the numbers used end at `end`. */
  ghost predicate Toward(done: seq<OptRef>, cs: seq<Argp>, i: nat, mine: Option<nat>, next: nat,
                         goal: seq<OptRef>, end: nat) {
    && i <= |cs|
    && done + AllRefs(ChildGroups(cs, i, mine, next), next) == goal
    && next + |ChildGroups(cs, i, mine, next)| == end
  }

  lemma {:induction false} RootRefs(n: Node, rest: seq<Node>, base: nat)
    ensures AllRefs([n] + rest, base) == Tag(Options(n.argp), base) + AllRefs(rest, base + 1)
  {
    AllRefsConcat([n], rest, base);
    assert Refs([n], base, 0) == [];
  }

  lemma {:induction false} TowardStart(a: Argp, parent: Option<nat>, index: nat, base: nat)
    ensures var nodes := Groups(a, parent, index, base);
            Toward(Tag(Options(a), base), a.children, 0, if IsGroup(a) then Some(base) else None,
                   if IsGroup(a) then base + 1 else base, AllRefs(nodes, base), base + |nodes|)
  {
    if IsGroup(a) {
      RootRefs(Node(a, parent, index), ChildGroups(a.children, 0, Some(base), base + 1), base);
    } else {
      assert Tag(Options(a), base) == [];
    }
  }

  lemma {:induction false} TowardStep(done: seq<OptRef>, cs: seq<Argp>, i: nat, mine: Option<nat>, next: nat,
                                      goal: seq<OptRef>, end: nat)
    requires Toward(done, cs, i, mine, next, goal, end) && i < |cs|
    ensures var first := Groups(cs[i], mine, i, next);
            Toward(done + AllRefs(first, next), cs, i + 1, mine, next + |first|, goal, end)
  {
    var first := Groups(cs[i], mine, i, next);
    var rest := ChildGroups(cs, i + 1, mine, next + |first|);
    assert ChildGroups(cs, i, mine, next) == first + rest;
    AllRefsConcat(first, rest, next);
    Associates(done, AllRefs(first, next), AllRefs(rest, next + |first|));
  }

  lemma {:induction false} Associates(x: seq<OptRef>, y: seq<OptRef>, z: seq<OptRef>)
    ensures x + (y + z) == x + y + z
  {
  }

  lemma {:induction false} TowardDone(done: seq<OptRef>, cs: seq<Argp>, mine: Option<nat>, next: nat,
                                      goal: seq<OptRef>, end: nat)
    requires Toward(done, cs, |cs|, mine, next, goal, end)
    ensures done == goal && next == end
  {
    assert done + [] == done;
  }

  /** No argp of the tree starts with an alias. */
  predicate TreeStarts(a: Argp)
    decreases a, 0
  {
    StartsWithOption(a) && ForestStarts(a.children, 0)
  }

  predicate ForestStarts(cs: seq<Argp>, i: nat)
    requires i <= |cs|
    decreases cs, |cs| - i
  {
    i == |cs| || (TreeStarts(cs[i]) && ForestStarts(cs, i + 1))
  }

  /** The help list of a tree is the one of all its options in pre-order. */
  method ArgpHol(a: Argp, base: nat, ghost parent: Option<nat>, ghost index: nat) returns (h: Hol, next: nat)
    requires TreeStarts(a)
    ensures Lists(h, AllRefs(Groups(a, parent, index, base), base))
    ensures next == base + |Groups(a, parent, index, base)|
    decreases a, 0
  {
    h := MakeHol(a, base);
    TowardStart(a, parent, index, base);
    h, next := AppendChildren(h, a.children, if IsGroup(a) then base + 1 else base,
                              Tag(Options(a), base), if IsGroup(a) then Some(base) else None,
                              AllRefs(Groups(a, parent, index, base), base),
                              base + |Groups(a, parent, index, base)|);
  }

  /** Appends the list of child number `i`. */
  method AppendChild(own: Hol, cs: seq<Argp>, i: nat, base: nat, ghost refs: seq<OptRef>, ghost mine: Option<nat>,
                     ghost goal: seq<OptRef>, ghost end: nat)
    returns (h: Hol, next: nat, ghost done: seq<OptRef>)
    requires i < |cs| && Lists(own, refs) && Toward(refs, cs, i, mine, base, goal, end) && TreeStarts(cs[i])
    ensures Lists(h, done) && Toward(done, cs, i + 1, mine, next, goal, end)
    decreases cs, 1
  {
    TowardStep(refs, cs, i, mine, base, goal, end);
    var child, after := ArgpHol(cs[i], base, mine, i);
    ghost var more := AllRefs(Groups(cs[i], mine, i, base), base);
    h := HolAppend(own, child, refs, more);
    next, done := after, refs + more;
  }

  /** Appends the lists of the children, one after the other. */
  method AppendChildren(own: Hol, cs: seq<Argp>, base: nat, ghost refs: seq<OptRef>, ghost mine: Option<nat>,
                        ghost goal: seq<OptRef>, ghost end: nat)
    returns (h: Hol, next: nat)
    requires Lists(own, refs) && Toward(refs, cs, 0, mine, base, goal, end) && ForestStarts(cs, 0)
    ensures Lists(h, goal) && next == end
    decreases cs, 2
  {
    h, next := own, base;
    ghost var done := refs;
    var i := 0;
    while i < |cs|
      invariant i <= |cs| && Lists(h, done) && Toward(done, cs, i, mine, next, goal, end) && ForestStarts(cs, i)
    {
      h, next, done := AppendChild(h, cs, i, next, done, mine, goal, end);
      i := i + 1;
    }
    TowardDone(done, cs, mine, next, goal, end);
  }

  // ----- the letters an entry shows

  /** The letters of the shared string that the first `n` options of an entry take, starting at `pos`. */
  function Walk(opts: seq<OptRef>, short: seq<int>, pos: nat, n: nat): (letters: seq<int>)
    requires n <= |opts|
  {
    if n == 0 then []
    else
      var m := Walk(opts, short, pos, n - 1);
      var o := opts[n - 1].opt;
      if IsShort(o) && pos + |m| < |short| && short[pos + |m|] == o.key then m + [o.key] else m
  }

  /** One more option takes its letter exactly when it leads. */
  lemma {:induction false} WalkStep(refs: seq<OptRef>, f: seq<int>, m: seq<int>, p: nat)
    requires p < |refs| && f + m == Firsts(refs, p)
    ensures var s, o := Firsts(refs, |refs|), refs[p].opt;
            f + (if IsShort(o) && |f| + |m| < |s| && s[|f| + |m|] == o.key then m + [o.key] else m)
            == Firsts(refs, p + 1)
  {
    NextLetter(refs, p);
    assert f + (m + [refs[p].opt.key]) == (f + m) + [refs[p].opt.key];
  }

  lemma {:induction false} WalkKeepsPace(refs: seq<OptRef>, lo: nat, opts: seq<OptRef>, n: nat)
    requires n <= |opts| && lo + |opts| <= |refs| && forall i :: 0 <= i < |opts| ==> opts[i] == refs[lo + i]
    ensures Firsts(refs, lo) + Walk(opts, Firsts(refs, |refs|), |Firsts(refs, lo)|, n) == Firsts(refs, lo + n)
  {
    var f, s := Firsts(refs, lo), Firsts(refs, |refs|);
    if n == 0 {
      assert f + [] == f;
    } else {
      WalkKeepsPace(refs, lo, opts, n - 1);
      assert opts[n - 1] == refs[lo + (n - 1)];
      var m := Walk(opts, s, |f|, n - 1);
      assert f + m == Firsts(refs, lo + (n - 1));
      WalkStep(refs, f, m, lo + (n - 1));
    }
  }

  /** The letters shown with an entry. */
  function Letters(h: Hol, k: nat): seq<int>
    requires k < |h.entries|
  {
    Walk(h.entries[k].opts, h.short, h.entries[k].short, |h.entries[k].opts|)
  }

  /** The entries divide the shared string among them: entry `k` shows what its options add to it. */
  lemma {:induction false} LettersDivide(h: Hol, refs: seq<OptRef>, at: seq<nat>, k: nat)
    requires ListsAt(h, refs, at) && k < |h.entries|
    ensures at[k] < at[k + 1] <= |refs|
    ensures Firsts(refs, at[k]) + Letters(h, k) == Firsts(refs, at[k + 1])
  {
    EntryDivides(h.entries[k], h.short, refs, at[k], at[k + 1]);
  }

  lemma {:induction false} EntryDivides(e: HolEntry, short: seq<int>, refs: seq<OptRef>, lo: nat, hi: nat)
    requires Placed(e, refs, lo, hi) && short == Firsts(refs, |refs|)
    ensures Firsts(refs, lo) + Walk(e.opts, short, e.short, |e.opts|) == Firsts(refs, hi)
  {
    assert lo + |e.opts| == hi;
    WalkKeepsPace(refs, lo, e.opts, |e.opts|);
  }

  method ShortIterate(h: Hol, k: nat) returns (letters: seq<int>)
    requires k < |h.entries|
    ensures letters == Letters(h, k)
  {
    var e := h.entries[k];
    letters := [];
    var i, so := 0, e.short;
    while i < |e.opts|
      invariant i <= |e.opts| && so == e.short + |letters|
      invariant letters == Walk(e.opts, h.short, e.short, i)
    {
      var opt := e.opts[i].opt;
      if IsShort(opt) && so < |h.short| && h.short[so] == opt.key {
        letters := letters + [opt.key];
        so := so + 1;
      }
      i := i + 1;
    }
  }

  // ----- places of options

  lemma {:induction false} RefPlace(nodes: seq<Node>, n: nat, g: nat, j: nat)
    requires g < n <= |nodes| && j < |Options(nodes[g].argp)|
    ensures |Refs(nodes, 0, n)| == OptionCount(nodes, n)
    ensures OptionCount(nodes, g) + j < OptionCount(nodes, n)
    ensures Refs(nodes, 0, n)[OptionCount(nodes, g) + j] == OptRef(g, Options(nodes[g].argp)[j])
  {
    RefsLength(nodes, n);
    if g < n - 1 {
      RefPlace(nodes, n - 1, g, j);
      RefsFurther(nodes, n, OptionCount(nodes, g) + j);
    } else {
      RefsLast(nodes, n, j);
    }
  }

  lemma {:induction false} RefsLast(nodes: seq<Node>, n: nat, j: nat)
    requires 0 < n <= |nodes| && j < |Options(nodes[n - 1].argp)|
    ensures OptionCount(nodes, n - 1) + j < OptionCount(nodes, n) == |Refs(nodes, 0, n)|
    ensures Refs(nodes, 0, n)[OptionCount(nodes, n - 1) + j] == OptRef(n - 1, Options(nodes[n - 1].argp)[j])
  {
    RefsLength(nodes, n - 1);
    assert Refs(nodes, 0, n) == Refs(nodes, 0, n - 1) + Tag(Options(nodes[n - 1].argp), n - 1);
  }

  /** The options of the earlier groups stay in front. */
  lemma {:induction false} RefsFurther(nodes: seq<Node>, n: nat, q: nat)
    requires 0 < n <= |nodes| && q < |Refs(nodes, 0, n - 1)|
    ensures q < |Refs(nodes, 0, n)| && Refs(nodes, 0, n)[q] == Refs(nodes, 0, n - 1)[q]
  {
  }

  lemma {:induction false} RefsLength(nodes: seq<Node>, n: nat)
    requires n <= |nodes|
    ensures |Refs(nodes, 0, n)| == OptionCount(nodes, n)
  {
    if n > 0 {
      RefsLength(nodes, n - 1);
    }
  }

  lemma {:induction false} PlaceOf(nodes: seq<Node>, n: nat, p: nat) returns (g: nat, j: nat)
    requires n <= |nodes| && p < |Refs(nodes, 0, n)|
    ensures g < n && j < |Options(nodes[g].argp)| && p == OptionCount(nodes, g) + j
    ensures Refs(nodes, 0, n)[p] == OptRef(g, Options(nodes[g].argp)[j])
  {
    RefsLength(nodes, n - 1);
    if p < |Refs(nodes, 0, n - 1)| {
      g, j := PlaceOf(nodes, n - 1, p);
    } else {
      g, j := n - 1, p - |Refs(nodes, 0, n - 1)|;
    }
  }

  lemma {:induction false} CountGrows(nodes: seq<Node>, g: nat, n: nat)
    requires g < n <= |nodes|
    ensures OptionCount(nodes, g) + |Options(nodes[g].argp)| <= OptionCount(nodes, n)
  {
    if g < n - 1 {
      CountGrows(nodes, g, n - 1);
    }
  }

  lemma {:induction false} FirstsHas(refs: seq<OptRef>, q: nat, n: nat)
    requires q < n <= |refs| && IsShort(refs[q].opt)
    ensures refs[q].opt.key in Firsts(refs, n)
  {
    if q < n - 1 {
      FirstsHas(refs, q, n - 1);
    }
  }

  lemma {:induction false} LeaderExists(refs: seq<OptRef>, lo: nat, hi: nat, c: int) returns (p: nat)
    requires lo <= hi <= |refs| && c in Firsts(refs, hi) && c !in Firsts(refs, lo)
    ensures lo <= p < hi && Leads(refs, p) && refs[p].opt.key == c
  {
    if c in Firsts(refs, hi - 1) {
      p := LeaderExists(refs, lo, hi - 1, c);
    } else {
      p := hi - 1;
    }
  }

  lemma {:induction false} DeclarationPlace(nodes: seq<Node>, g: nat, c: int) returns (q: nat)
    requires g < |nodes| && Declares(nodes[g], c)
    ensures OptionCount(nodes, g) <= q < OptionCount(nodes, g) + |Options(nodes[g].argp)| && q < |AllRefs(nodes, 0)|
    ensures IsShort(AllRefs(nodes, 0)[q].opt) && AllRefs(nodes, 0)[q].opt.key == c
  {
    var i: nat :| DeclaresAt(Options(nodes[g].argp), i, c);
    RefPlace(nodes, |nodes|, g, i);
    q := OptionCount(nodes, g) + i;
  }

  // ----- agreement

  /** No group before the one of a leading option declares its letter. */
  lemma {:induction false} NoneBefore(nodes: seq<Node>, p: nat, h: nat)
    requires Leads(AllRefs(nodes, 0), p) && h < AllRefs(nodes, 0)[p].group
    ensures h < |nodes| && !Declares(nodes[h], AllRefs(nodes, 0)[p].opt.key)
  {
    var refs := AllRefs(nodes, 0);
    var c := refs[p].opt.key;
    var g, j := PlaceOf(nodes, |nodes|, p);
    if Declares(nodes[h], c) {
      var q := DeclarationPlace(nodes, h, c);
      CountGrows(nodes, h, g);
      FirstsHas(refs, q, p);
    }
  }

  /** The group of a leading option is the first to declare the letter exactly when it declares it at all. */
  lemma {:induction false} LeaderDeclares(nodes: seq<Node>, p: nat)
    requires Leads(AllRefs(nodes, 0), p)
    ensures var r := AllRefs(nodes, 0)[p];
            r.group < |nodes| && (FirstDeclares(nodes, r.group, r.opt.key) <==> Declares(nodes[r.group], r.opt.key))
  {
    var r := AllRefs(nodes, 0)[p];
    var g, j := PlaceOf(nodes, |nodes|, p);
    forall h | 0 <= h < r.group ensures !Declares(nodes[h], r.opt.key) {
      NoneBefore(nodes, p, h);
    }
  }

  /** A letter getopt can return for an option: not the colon, nor the dash that asks for arguments in order. */
  predicate Plain(c: int, inOrder: bool) {
    c != COLON && !(inOrder && c == DASH)
  }

  lemma {:induction false} LeaderOwner(nodes: seq<Node>, inOrder: bool, p: nat)
    requires Leads(AllRefs(nodes, 0), p) && Plain(AllRefs(nodes, 0)[p].opt.key, inOrder)
    ensures AllRefs(nodes, 0)[p].group < |nodes|
    ensures var r := AllRefs(nodes, 0)[p];
            LetterOwner(AddNodes(Empty(inOrder), nodes), r.opt.key) == Some(r.group)
            <==> Declares(nodes[r.group], r.opt.key)
  {
    LeaderDeclares(nodes, p);
    OwnerIsFirst(Empty(inOrder), nodes, AllRefs(nodes, 0)[p].opt.key);
  }

  /** A letter shown with an entry is the letter of one of its options that leads. */
  lemma {:induction false} ShownLeads(h: Hol, refs: seq<OptRef>, at: seq<nat>, k: nat, c: int) returns (p: nat)
    requires ListsAt(h, refs, at) && k < |h.entries| && c in Letters(h, k)
    ensures Leads(refs, p) && refs[p].opt.key == c && refs[p].group == h.entries[k].group && at[k] <= p < at[k + 1]
  {
    LettersDivide(h, refs, at, k);
    FirstsNoDup(refs, at[k + 1]);
    var i :| 0 <= i < |Letters(h, k)| && Letters(h, k)[i] == c;
    var f, s := Firsts(refs, at[k]), Firsts(refs, at[k + 1]);
    assert s[|f| + i] == c;
    assert forall m :: 0 <= m < |f| ==> s[m] == f[m];
    p := LeaderExists(refs, at[k], at[k + 1], c);
    PlacedOptions(h.entries, refs, at, k);
  }

  /**
   A letter shown with an entry is handed to the entry's group exactly when that group has a usable option
   with this letter.
   */
  lemma {:induction false} ShownLetterOwner(h: Hol, nodes: seq<Node>, inOrder: bool, k: nat, c: int)
    requires Lists(h, AllRefs(nodes, 0)) && k < |h.entries| && c in Letters(h, k) && Plain(c, inOrder)
    ensures h.entries[k].group < |nodes|
    ensures LetterOwner(AddNodes(Empty(inOrder), nodes), c) == Some(h.entries[k].group)
            <==> Declares(nodes[h.entries[k].group], c)
  {
    var at: seq<nat> :| ListsAt(h, AllRefs(nodes, 0), at);
    var p := ShownLeads(h, AllRefs(nodes, 0), at, k, c);
    LeaderOwner(nodes, inOrder, p);
  }

  /** No option that only stands for a documentation entry has a letter. */
  predicate NoDocLetters(nodes: seq<Node>) {
    forall g :: 0 <= g < |nodes| ==> DocFree(nodes[g])
  }

  predicate DocFree(n: Node) {
    var opts := Options(n.argp);
    forall i :: 0 <= i < |opts| && IsShort(opts[i]) ==> Usable(opts, i)
  }

  lemma {:induction false} DocFreeDeclares(nodes: seq<Node>, p: nat)
    requires NoDocLetters(nodes) && Leads(AllRefs(nodes, 0), p)
    ensures var r := AllRefs(nodes, 0)[p]; r.group < |nodes| && Declares(nodes[r.group], r.opt.key)
  {
    var g, j := PlaceOf(nodes, |nodes|, p);
    assert DocFree(nodes[g]);
    assert DeclaresAt(Options(nodes[g].argp), j, AllRefs(nodes, 0)[p].opt.key);
  }

  lemma {:induction false} EntryShowing(h: Hol, refs: seq<OptRef>, at: seq<nat>, c: int, n: nat) returns (k: nat)
    requires ListsAt(h, refs, at) && n <= |h.entries| && at[n] <= |refs| && c in Firsts(refs, at[n])
    ensures k < n && c in Letters(h, k)
  {
    LettersDivide(h, refs, at, n - 1);
    if c in Firsts(refs, at[n - 1]) {
      k := EntryShowing(h, refs, at, c, n - 1);
    } else {
      k := n - 1;
    }
  }

  lemma {:induction false} StartsGrow(h: Hol, refs: seq<OptRef>, at: seq<nat>, j: nat, k: nat)
    requires ListsAt(h, refs, at) && j < k <= |h.entries|
    ensures at[j + 1] <= at[k]
  {
    if j + 1 < k {
      StartsGrow(h, refs, at, j, k - 1);
      LettersDivide(h, refs, at, k - 1);
    }
  }

  /** No letter is shown with two entries. */
  lemma {:induction false} ShownOnce(h: Hol, refs: seq<OptRef>, j: nat, k: nat, c: int)
    requires Lists(h, refs) && j < |h.entries| && k < |h.entries| && c in Letters(h, j) && c in Letters(h, k)
    ensures j == k && NoDup(h.short)
  {
    var at: seq<nat> :| ListsAt(h, refs, at);
    FirstsNoDup(refs, |refs|);
    var p := ShownLeads(h, refs, at, j, c);
    var q := ShownLeads(h, refs, at, k, c);
    if p < q {
      FirstsHas(refs, p, q);
    } else if q < p {
      FirstsHas(refs, q, p);
    }
    if j < k {
      StartsGrow(h, refs, at, j, k);
    } else if k < j {
      StartsGrow(h, refs, at, k, j);
    }
  }

  lemma {:induction false} DeclaredIsListed(nodes: seq<Node>, g: nat, c: int)
    requires g < |nodes| && Declares(nodes[g], c)
    ensures var refs := AllRefs(nodes, 0); c in Firsts(refs, |refs|)
  {
    var refs := AllRefs(nodes, 0);
    var q := DeclarationPlace(nodes, g, c);
    FirstsHas(refs, q, |refs|);
  }

  /** Every letter the parser hands to a group is shown with an entry of that group. */
  lemma {:induction false} OwnedIsShown(h: Hol, nodes: seq<Node>, inOrder: bool, at: seq<nat>, g: nat, c: int)
    returns (k: nat)
    requires ListsAt(h, AllRefs(nodes, 0), at) && NoDocLetters(nodes) && Plain(c, inOrder)
    requires LetterOwner(AddNodes(Empty(inOrder), nodes), c) == Some(g)
    ensures k < |h.entries| && c in Letters(h, k) && h.entries[k].group == g
  {
    var refs := AllRefs(nodes, 0);
    OwnerIsFirst(Empty(inOrder), nodes, c);
    DeclaredIsListed(nodes, g, c);
    k := EntryShowing(h, refs, at, c, |h.entries|);
    var p := ShownLeads(h, refs, at, k, c);
    DocFreeDeclares(nodes, p);
    LeaderOwner(nodes, inOrder, p);
  }

  /**
   Help and parser agree: without letters on aliases of documentation entries, a letter is shown with an
   entry of group `g` exactly when the parser hands it to group `g`.
   */
  lemma {:induction false} HelpMatchesParser(h: Hol, a: Argp, inOrder: bool, g: nat, c: int)
    requires Lists(h, AllRefs(Groups(a, None, 0, 0), 0))
    requires NoDocLetters(Groups(a, None, 0, 0)) && Plain(c, inOrder)
    ensures LetterOwner(Converted(a, inOrder), c) == Some(g)
            <==> exists k :: 0 <= k < |h.entries| && c in Letters(h, k) && h.entries[k].group == g
  {
    var nodes := Groups(a, None, 0, 0);
    var at: seq<nat> :| ListsAt(h, AllRefs(nodes, 0), at);
    if LetterOwner(Converted(a, inOrder), c) == Some(g) {
      var k := OwnedIsShown(h, nodes, inOrder, at, g, c);
    }
    if k: nat :| k < |h.entries| && c in Letters(h, k) && h.entries[k].group == g {
      var p := ShownLeads(h, AllRefs(nodes, 0), at, k, c);
      DocFreeDeclares(nodes, p);
      LeaderOwner(nodes, inOrder, p);
    }
  }

  /** The tree of one argp whose documentation entry has an alias with the letter x. */
  function DocAlias(): Argp {
    Argp(Some([Opt(Some("topic"), 0, false, false, false, true, true, 0),
               Opt(None, 120, false, false, true, false, true, 0)]), true, [])
  }

  lemma {:induction false} DocAliasOptions()
    ensures Groups(DocAlias(), None, 0, 0) == [Node(DocAlias(), None, 0)]
    ensures Options(DocAlias()) == DocAlias().options.value
    ensures forall i: nat :: !DeclaresAt(Options(DocAlias()), i, 120)
  {
    var opts := DocAlias().options.value;
    assert Live(opts, 0) == Live(opts, 1) == Live(opts, 2) == 2;
    assert RealAt(opts, 1) == RealAt(opts, 0) == 0;
  }

  /** Every help list of this tree shows the letter with an entry, but no group is ever handed it. */
  lemma {:induction false} DocAliasDisagrees(h: Hol, inOrder: bool)
    requires Lists(h, AllRefs(Groups(DocAlias(), None, 0, 0), 0))
    ensures exists k :: 0 <= k < |h.entries| && 120 in Letters(h, k)
    ensures LetterOwner(Converted(DocAlias(), inOrder), 120) == None
  {
    var nodes := Groups(DocAlias(), None, 0, 0);
    var refs := AllRefs(nodes, 0);
    DocAliasOptions();
    assert !Declares(nodes[0], 120);
    OwnerIsFirst(Empty(inOrder), nodes, 120);
    RefPlace(nodes, 1, 0, 1);
    assert OptionCount(nodes, 0) == 0 && refs[1].opt.key == 120;
    FirstsHas(refs, 1, |refs|);
    var at: seq<nat> :| ListsAt(h, refs, at);
    var k := EntryShowing(h, refs, at, 120, |h.entries|);
  }
}
