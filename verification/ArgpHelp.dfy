/**
 The list of options shown by the help, built from the same tree as the parser's tables.  All entries share
 one string of letters, in which a letter that is already taken does not appear again; walking an entry's
 options beside that string tells which letters are the entry's own.
 */
module ArgpHelp {
  import opened Wrappers
  import opened ArgpTables
  import opened ArgpDispatch

  /** An option and the number of the group it is declared in. */
  datatype OptRef = OptRef(group: nat, opt: Opt)

  /** An option with its aliases; `short` is the place in the shared string where its letters start. */
  datatype HolEntry = HolEntry(group: nat, opts: seq<OptRef>, short: nat)

  datatype Hol = Hol(entries: seq<HolEntry>, short: seq<int>)

  // ----- the letters of a list of options

  /** The letters of the first `n` options, without those that appeared before. */
  function Firsts(refs: seq<OptRef>, n: nat): seq<int>
    requires n <= |refs|
  {
    if n == 0 then []
    else
      var f := Firsts(refs, n - 1);
      if IsShort(refs[n - 1].opt) && refs[n - 1].opt.key !in f then f + [refs[n - 1].opt.key] else f
  }

  /** Option `p` is the first with its letter. */
  predicate Leads(refs: seq<OptRef>, p: nat) {
    p < |refs| && IsShort(refs[p].opt) && refs[p].opt.key !in Firsts(refs, p)
  }

  predicate NoDup(s: seq<int>) {
    forall i, j :: 0 <= i < j < |s| ==> s[i] != s[j]
  }

  lemma {:induction false} FirstsNoDup(refs: seq<OptRef>, n: nat)
    requires n <= |refs|
    ensures NoDup(Firsts(refs, n))
  {
    if n > 0 {
      FirstsNoDup(refs, n - 1);
    }
  }

  lemma {:induction false} FirstsPrefix(refs: seq<OptRef>, p: nat, n: nat)
    requires p <= n <= |refs|
    ensures IsPrefix(Firsts(refs, p), Firsts(refs, n))
  {
    if p < n {
      FirstsPrefix(refs, p, n - 1);
    }
  }

  /** The next letter of the shared string is the option's own exactly when the option leads. */
  lemma {:induction false} NextLetter(refs: seq<OptRef>, p: nat)
    requires p < |refs|
    ensures var s, pos := Firsts(refs, |refs|), |Firsts(refs, p)|;
            Leads(refs, p) <==> IsShort(refs[p].opt) && pos < |s| && s[pos] == refs[p].opt.key
  {
    var s, f := Firsts(refs, |refs|), Firsts(refs, p);
    FirstsNoDup(refs, |refs|);
    FirstsPrefix(refs, p, |refs|);
    FirstsPrefix(refs, p + 1, |refs|);
    if Leads(refs, p) {
      assert Firsts(refs, p + 1)[|f|] == refs[p].opt.key;
    } else if IsShort(refs[p].opt) {
      var i :| 0 <= i < |f| && f[i] == refs[p].opt.key;
      assert s[i] == f[i];
    }
  }

  lemma {:induction false} FirstsFront(xs: seq<OptRef>, ys: seq<OptRef>, n: nat)
    requires n <= |xs|
    ensures Firsts(xs + ys, n) == Firsts(xs, n)
  {
    if n > 0 {
      FirstsFront(xs, ys, n - 1);
    }
  }

  /** One more option adds its letter. */
  lemma {:induction false} FirstsAdd(refs: seq<OptRef>, n: nat, c: int)
    requires n < |refs|
    ensures c in Firsts(refs, n + 1) <==> c in Firsts(refs, n) || (IsShort(refs[n].opt) && refs[n].opt.key == c)
  {
  }

  lemma {:induction false} FirstsBoth(xs: seq<OptRef>, ys: seq<OptRef>, p: nat, c: int)
    requires p <= |ys|
    ensures c in Firsts(xs + ys, |xs| + p) <==> c in Firsts(xs, |xs|) || c in Firsts(ys, p)
  {
    if p == 0 {
      FirstsFront(xs, ys, |xs|);
    } else {
      FirstsBoth(xs, ys, p - 1, c);
      FirstsAdd(ys, p - 1, c);
      FirstsAdd(xs + ys, |xs| + p - 1, c);
      assert (xs + ys)[|xs| + p - 1] == ys[p - 1];
    }
  }

  // ----- entries over a list of options

  /** The entry covers the options from `lo` to `hi`, all of its group, and starts at the right letter: an option and
      all aliases that follow it (the next entry starts with an option again). */
  ghost predicate Placed(e: HolEntry, refs: seq<OptRef>, lo: nat, hi: nat) {
    && lo < hi <= |refs|
    && e.opts == refs[lo..hi]
    && e.short == |Firsts(refs, lo)|
    && (forall i :: lo <= i < hi ==> refs[i].group == e.group)
    && !refs[lo].opt.alias && (forall i :: lo < i < hi ==> refs[i].opt.alias)
  }

  ghost predicate AllPlaced(entries: seq<HolEntry>, refs: seq<OptRef>, at: seq<nat>) {
    && |at| == |entries| + 1 && at[0] == 0
    && forall k {:trigger entries[k]} :: 0 <= k < |entries| ==> Placed(entries[k], refs, at[k], at[k + 1])
  }

  /** The help list is exactly the one of the options `refs`. */
  ghost predicate Lists(h: Hol, refs: seq<OptRef>) {
    exists at: seq<nat> :: ListsAt(h, refs, at)
  }

  /** So it is, with entry `k` starting at option `at[k]`. */
  ghost predicate ListsAt(h: Hol, refs: seq<OptRef>, at: seq<nat>) {
    && AllPlaced(h.entries, refs, at)
    && at[|h.entries|] == |refs|
    && h.short == Firsts(refs, |refs|)
  }

  lemma {:induction false} PlacedOptions(entries: seq<HolEntry>, refs: seq<OptRef>, at: seq<nat>, k: nat)
    requires AllPlaced(entries, refs, at) && k < |entries|
    ensures at[k] < at[k] + |entries[k].opts| == at[k + 1] <= |refs|
    ensures forall i :: 0 <= i < |entries[k].opts| ==> entries[k].opts[i] == refs[at[k] + i]
    ensures entries[k].short == |Firsts(refs, at[k])|
    ensures forall i :: at[k] <= i < at[k + 1] ==> refs[i].group == entries[k].group
  {
  }

  // ----- building

  method FindChar(c: int, s: seq<int>) returns (found: bool)
    ensures found <==> c in s
  {
    var i := 0;
    while i < |s|
      invariant i <= |s| && c !in s[..i]
    {
      if s[i] == c {
        return true;
      }
      i := i + 1;
    }
    return false;
  }

  function Tag(opts: seq<Opt>, group: nat): seq<OptRef> {
    seq(|opts|, i requires 0 <= i < |opts| => OptRef(group, opts[i]))
  }

  lemma {:induction false} AppendEntry(entries: seq<HolEntry>, refs: seq<OptRef>, at: seq<nat>, e: HolEntry, hi: nat)
    requires AllPlaced(entries, refs, at) && Placed(e, refs, at[|entries|], hi)
    ensures AllPlaced(entries + [e], refs, at + [hi])
  {
    var es, bs := entries + [e], at + [hi];
    forall k | 0 <= k < |es| ensures Placed(es[k], refs, bs[k], bs[k + 1]) {
      if k < |entries| {
        assert Placed(entries[k], refs, at[k], at[k + 1]);
      }
    }
  }

  /** The letter of an option, if it has one that is not taken. */
  method TakeLetter(opt: Opt, so0: seq<int>, ghost refs: seq<OptRef>, ghost o: nat) returns (so: seq<int>)
    requires o < |refs| && refs[o].opt == opt && so0 == Firsts(refs, o)
    ensures so == Firsts(refs, o + 1)
  {
    so := so0;
    if IsShort(opt) {
      var found := FindChar(opt.key, so);
      if !found {
        so := so + [opt.key];
      }
    }
  }

  /** An option and the aliases that follow it; takes their letters that are not taken. */
  method MakeEntry(opts: seq<Opt>, first: nat, so0: seq<int>, group: nat, ghost refs: seq<OptRef>)
    returns (e: HolEntry, o: nat, so: seq<int>)
    requires first < |opts| && !IsEnd(opts[first]) && refs == Tag(opts[..Live(opts, 0)], group)
    requires first < |refs| && Live(opts, first) == |refs| && so0 == Firsts(refs, first) && !opts[first].alias
    ensures o < |refs| ==> !opts[o].alias
    ensures Placed(e, refs, first, o) && so == Firsts(refs, o)
    ensures Live(opts, o) == |refs|
  {
    var own := [];
    o, so := first, so0;
    TagIs(opts[..Live(opts, 0)], group);
    while o == first || (o < |opts| && !IsEnd(opts[o]) && opts[o].alias)
      invariant first <= o <= |refs| == Live(opts, o)
      invariant |own| == o - first && forall i :: 0 <= i < |own| ==> own[i] == refs[first + i]
      invariant so == Firsts(refs, o)
      invariant forall i :: first < i < o ==> refs[i].opt.alias
      decreases |opts| - o
    {
      assert refs[o] == OptRef(group, opts[o]);
      so := TakeLetter(opts[o], so, refs, o);
      own := own + [OptRef(group, opts[o])];
      o := o + 1;
    }
    e := HolEntry(group, own, |so0|);
    assert own == refs[first..o];
  }

  lemma {:induction false} TagIs(opts: seq<Opt>, group: nat)
    ensures forall i :: 0 <= i < |opts| ==> Tag(opts, group)[i] == OptRef(group, opts[i])
  {
  }

  /** The first option of an argp must not be an alias. */
  predicate StartsWithOption(a: Argp) {
    Options(a) != [] ==> !Options(a)[0].alias
  }

  /** The entries of one argp. */
  method MakeHol(a: Argp, group: nat) returns (h: Hol)
    requires StartsWithOption(a)
    ensures Lists(h, Tag(Options(a), group))
  {
    ghost var refs := Tag(Options(a), group);
    var entries: seq<HolEntry>, so: seq<int> := [], [];
    ghost var at: seq<nat> := [0];
    if a.options.Some? {
      var opts, o := a.options.value, 0;
      while o < |opts| && !IsEnd(opts[o])
        invariant o <= |refs| == Live(opts, o)
        invariant AllPlaced(entries, refs, at) && at[|entries|] == o && so == Firsts(refs, o)
        invariant o < |refs| ==> !opts[o].alias
        decreases |opts| - o
      {
        var e;
        e, o, so := MakeEntry(opts, o, so, group, refs);
        AppendEntry(entries, refs, at, e, o);
        entries := entries + [e];
        at := at + [o];
      }
    }
    h := Hol(entries, so);
    assert ListsAt(h, refs, at);
  }

  lemma {:induction false} PlacedFront(e: HolEntry, xs: seq<OptRef>, ys: seq<OptRef>, lo: nat, hi: nat)
    requires Placed(e, xs, lo, hi)
    ensures Placed(e, xs + ys, lo, hi)
  {
    FirstsFront(xs, ys, lo);
  }

  lemma {:induction false} AllPlacedFront(entries: seq<HolEntry>, xs: seq<OptRef>, ys: seq<OptRef>, at: seq<nat>)
    requires AllPlaced(entries, xs, at)
    ensures AllPlaced(entries, xs + ys, at)
  {
    forall k | 0 <= k < |entries| ensures Placed(entries[k], xs + ys, at[k], at[k + 1]) {
      PlacedFront(entries[k], xs, ys, at[k], at[k + 1]);
    }
  }

  /** One option of the appended list: its letter is taken over unless an earlier list has it. */
  lemma {:induction false} MergeStep(xs: seq<OptRef>, ys: seq<OptRef>, p: nat)
    requires p < |ys|
    ensures Firsts(xs + ys, |xs| + p + 1)
         == if Leads(ys, p) && ys[p].opt.key !in Firsts(xs, |xs|)
            then Firsts(xs + ys, |xs| + p) + [ys[p].opt.key] else Firsts(xs + ys, |xs| + p)
  {
    FirstsBoth(xs, ys, p, ys[p].opt.key);
    assert (xs + ys)[|xs| + p] == ys[p];
  }

  /** `so` and `moreSo` are the two letter cursors after option `p` of the appended list. */
  ghost predicate Merged(so: seq<int>, moreSo: nat, xs: seq<OptRef>, ys: seq<OptRef>, p: nat) {
    p <= |ys| && so == Firsts(xs + ys, |xs| + p) && moreSo == |Firsts(ys, p)|
  }

  lemma {:induction false} MergedStep(so: seq<int>, moreSo: nat, xs: seq<OptRef>, ys: seq<OptRef>, p: nat)
    requires Merged(so, moreSo, xs, ys, p) && p < |ys|
    ensures var opt, s := ys[p].opt, Firsts(ys, |ys|);
            var own := IsShort(opt) && moreSo < |s| && s[moreSo] == opt.key;
            Merged(if own && opt.key !in Firsts(xs, |xs|) then so + [opt.key] else so,
                   if own then moreSo + 1 else moreSo, xs, ys, p + 1)
  {
    NextLetter(ys, p);
    MergeStep(xs, ys, p);
  }

  /** The letter of one option of the appended list. */
  method MergeOption(holShort: seq<int>, moreShort: seq<int>, opt: Opt, so: seq<int>, moreSo: nat,
                     ghost xs: seq<OptRef>, ghost ys: seq<OptRef>, ghost p: nat)
    returns (so': seq<int>, moreSo': nat)
    requires holShort == Firsts(xs, |xs|) && moreShort == Firsts(ys, |ys|) && p < |ys| && opt == ys[p].opt
    requires Merged(so, moreSo, xs, ys, p)
    ensures Merged(so', moreSo', xs, ys, p + 1)
  {
    so', moreSo' := so, moreSo;
    MergedStep(so, moreSo, xs, ys, p);
    if IsShort(opt) && moreSo < |moreShort| && moreShort[moreSo] == opt.key {
      var found := FindChar(opt.key, holShort);
      if !found {
        so' := so + [opt.key];
      }
      moreSo' := moreSo + 1;
    }
  }

  lemma {:induction false} PlacedBack(r: HolEntry, e: HolEntry, xs: seq<OptRef>, ys: seq<OptRef>, lo: nat, hi: nat)
    requires Placed(e, ys, lo, hi) && r == HolEntry(e.group, e.opts, |Firsts(xs + ys, |xs| + lo)|)
    ensures Placed(r, xs + ys, |xs| + lo, |xs| + hi)
  {
    assert (xs + ys)[|xs| + lo..|xs| + hi] == ys[lo..hi];
  }

  /** Entry `k` of the appended list, moved behind the entries already there. */
  lemma {:induction false} AppendMerged(entries: seq<HolEntry>, ct: seq<nat>, more: seq<HolEntry>, bt: seq<nat>, k: nat,
                     xs: seq<OptRef>, ys: seq<OptRef>, e: HolEntry)
    requires AllPlaced(entries, xs + ys, ct) && AllPlaced(more, ys, bt) && k < |more|
    requires ct[|entries|] == |xs| + bt[k] && bt[k] <= |ys|
    requires e == HolEntry(more[k].group, more[k].opts, |Firsts(xs + ys, |xs| + bt[k])|)
    ensures AllPlaced(entries + [e], xs + ys, ct + [|xs| + bt[k + 1]])
    ensures bt[k] + |e.opts| == bt[k + 1] <= |ys| && forall i :: 0 <= i < |e.opts| ==> e.opts[i] == ys[bt[k] + i]
  {
    assert Placed(more[k], ys, bt[k], bt[k + 1]);
    PlacedBack(e, more[k], xs, ys, bt[k], bt[k + 1]);
    AppendEntry(entries, xs + ys, ct, e, |xs| + bt[k + 1]);
  }

  /** The letters of one entry of the appended list. */
  method MergeEntry(holShort: seq<int>, moreShort: seq<int>, opts: seq<OptRef>, so0: seq<int>, moreSo0: nat,
                    ghost xs: seq<OptRef>, ghost ys: seq<OptRef>, ghost lo: nat)
    returns (so: seq<int>, moreSo: nat)
    requires holShort == Firsts(xs, |xs|) && moreShort == Firsts(ys, |ys|)
    requires lo + |opts| <= |ys| && forall i :: 0 <= i < |opts| ==> opts[i] == ys[lo + i]
    requires Merged(so0, moreSo0, xs, ys, lo)
    ensures Merged(so, moreSo, xs, ys, lo + |opts|)
  {
    so, moreSo := so0, moreSo0;
    var i := 0;
    while i < |opts|
      invariant i <= |opts| && Merged(so, moreSo, xs, ys, lo + i)
    {
      so, moreSo := MergeOption(holShort, moreShort, opts[i].opt, so, moreSo, xs, ys, lo + i);
      i := i + 1;
    }
  }

  /** Both lists have entries: those of `more` are moved behind, with the letters that are not taken. */
  method Merge(hol: Hol, more: Hol, ghost xs: seq<OptRef>, ghost ys: seq<OptRef>, ghost at: seq<nat>,
               ghost bt: seq<nat>)
    returns (r: Hol)
    requires ListsAt(hol, xs, at) && ListsAt(more, ys, bt)
    ensures Lists(r, xs + ys)
  {
    ghost var ct: seq<nat> := at;
    var entries, so, moreSo := hol.entries, hol.short, 0;
    AllPlacedFront(hol.entries, xs, ys, at);
    FirstsFront(xs, ys, |xs|);
    var k := 0;
    while k < |more.entries|
      invariant k <= |more.entries| && AllPlaced(entries, xs + ys, ct)
      invariant ct[|entries|] == |xs| + bt[k] && Merged(so, moreSo, xs, ys, bt[k])
    {
      var e := HolEntry(more.entries[k].group, more.entries[k].opts, |so|);
      AppendMerged(entries, ct, more.entries, bt, k, xs, ys, e);
      so, moreSo := MergeEntry(hol.short, more.short, e.opts, so, moreSo, xs, ys, bt[k]);
      entries := entries + [e];
      ct := ct + [|xs| + bt[k + 1]];
      k := k + 1;
    }
    r := Hol(entries, so);
    assert ListsAt(r, xs + ys, ct);
  }

  /** Appends `more`: the options of `hol` shadow those of `more`. */
  method HolAppend(hol: Hol, more: Hol, ghost xs: seq<OptRef>, ghost ys: seq<OptRef>) returns (r: Hol)
    requires Lists(hol, xs) && Lists(more, ys)
    ensures Lists(r, xs + ys)
  {
    ghost var at: seq<nat> :| ListsAt(hol, xs, at);
    ghost var bt: seq<nat> :| ListsAt(more, ys, bt);
    if |more.entries| == 0 {
      assert xs + ys == xs;
      r := hol;
    } else if |hol.entries| == 0 {
      assert xs + ys == ys;
      r := more;
    } else {
      r := Merge(hol, more, xs, ys, at, bt);
    }
  }
}
