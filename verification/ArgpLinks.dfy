/**
 What the filled tables mean: which declaration a long option stands for, and which slot a group reads
 the input its parent left for it from.
 */
module ArgpLinks {
  import opened Wrappers
  import opened ArgpTables

  // ----- long options

  /** Option `i` of group `g` can be written as `name`. */
  predicate Named(nodes: seq<Node>, g: nat, i: nat, name: Option<string>) {
    && g < |nodes| && Usable(Options(nodes[g].argp), i)
    && Options(nodes[g].argp)[i].name == name && name.Some?
  }

  /** Declarations are ordered by group, then by place in the group. */
  predicate Before(g: nat, i: nat, h: nat, j: nat) {
    g < h || (g == h && i < j)
  }

  ghost predicate FirstNamed(nodes: seq<Node>, g: nat, i: nat, name: Option<string>) {
    && Named(nodes, g, i, name)
    && forall h: nat, j: nat :: Named(nodes, h, j, name) ==> !Before(h, j, g, i)
  }

  /** The entry comes from the first declaration of its name, before option `n` of group `k`. */
  ghost predicate Stands(e: LongOpt, nodes: seq<Node>, k: nat, n: nat) {
    exists g: nat, i: nat ::
      FirstNamed(nodes, g, i, e.name) && Before(g, i, k, n) && e == LongEntry(Options(nodes[g].argp), i, g)
  }

  /** The long options are exactly the first declarations of the names that occur before option `n` of group `k`. */
  ghost predicate Exact(longs: seq<LongOpt>, nodes: seq<Node>, k: nat, n: nat) {
    && (forall e :: 0 <= e < |longs| ==> Stands(longs[e], nodes, k, n))
    && (forall g: nat, i: nat, name :: Named(nodes, g, i, name) && Before(g, i, k, n) ==> HasName(longs, name))
    && (forall d, e :: 0 <= d < e < |longs| ==> longs[d].name != longs[e].name)
  }

  lemma {:induction false} StandsLater(e: LongOpt, nodes: seq<Node>, k: nat, n: nat, l: nat, m: nat)
    requires Stands(e, nodes, k, n) && (k < l || (k == l && n <= m))
    ensures Stands(e, nodes, l, m)
  {
  }

  /** A name that is not entered yet is declared here for the first time. */
  lemma {:induction false} NewStands(longs: seq<LongOpt>, nodes: seq<Node>, k: nat, n: nat)
    requires k < |nodes| && n < |Options(nodes[k].argp)| && Exact(longs, nodes, k, n)
    requires var opts := Options(nodes[k].argp);
             Usable(opts, n) && opts[n].name.Some? && !HasName(longs, opts[n].name)
    ensures Stands(LongEntry(Options(nodes[k].argp), n, k), nodes, k, n + 1)
  {
    var name := Options(nodes[k].argp)[n].name;
    assert Named(nodes, k, n, name) && FirstNamed(nodes, k, n, name);
    assert Before(k, n, k, n + 1);
  }

  /** Every name declared up to here is entered. */
  lemma {:induction false} NamesEntered(longs: seq<LongOpt>, nodes: seq<Node>, k: nat, n: nat,
                                        g: nat, i: nat, name: Option<string>)
    requires k < |nodes| && n < |Options(nodes[k].argp)| && Exact(longs, nodes, k, n)
    requires Named(nodes, g, i, name) && Before(g, i, k, n + 1)
    ensures HasName(AddLong(longs, Options(nodes[k].argp), n, k), name)
  {
    var more := AddLong(longs, Options(nodes[k].argp), n, k);
    if HasName(longs, name) {
      var e :| 0 <= e < |longs| && longs[e].name == name;
      assert more[e] == longs[e];
    } else {
      assert !Before(g, i, k, n);
      assert more[|longs|].name == name;
    }
  }

  lemma {:induction false} ExactStep(longs: seq<LongOpt>, nodes: seq<Node>, k: nat, n: nat)
    requires k < |nodes| && n < |Options(nodes[k].argp)| && Exact(longs, nodes, k, n)
    ensures Exact(AddLong(longs, Options(nodes[k].argp), n, k), nodes, k, n + 1)
  {
    var more := AddLong(longs, Options(nodes[k].argp), n, k);
    forall e | 0 <= e < |more| ensures Stands(more[e], nodes, k, n + 1) {
      if e < |longs| {
        StandsLater(longs[e], nodes, k, n, k, n + 1);
      } else {
        NewStands(longs, nodes, k, n);
      }
    }
    forall g: nat, i: nat, name | Named(nodes, g, i, name) && Before(g, i, k, n + 1) ensures HasName(more, name) {
      NamesEntered(longs, nodes, k, n, g, i, name);
    }
  }

  lemma {:induction false} ExactGroup(longs: seq<LongOpt>, nodes: seq<Node>, k: nat, n: nat)
    requires k < |nodes| && n <= |Options(nodes[k].argp)| && Exact(longs, nodes, k, 0)
    ensures Exact(AddLongs(longs, Options(nodes[k].argp), n, k), nodes, k, n)
  {
    if n > 0 {
      var opts := Options(nodes[k].argp);
      var fewer := AddLongs(longs, opts, n - 1, k);
      ExactGroup(longs, nodes, k, n - 1);
      ExactStep(fewer, nodes, k, n - 1);
      assert AddLongs(longs, opts, n, k) == AddLong(fewer, opts, n - 1, k);
    }
  }

  lemma {:induction false} ExactNext(longs: seq<LongOpt>, nodes: seq<Node>, k: nat)
    requires k < |nodes| && Exact(longs, nodes, k, |Options(nodes[k].argp)|)
    ensures Exact(longs, nodes, k + 1, 0)
  {
    var n := |Options(nodes[k].argp)|;
    forall e | 0 <= e < |longs| ensures Stands(longs[e], nodes, k + 1, 0) {
      StandsLater(longs[e], nodes, k, n, k + 1, 0);
    }
    forall g: nat, i: nat, name | Named(nodes, g, i, name) && Before(g, i, k + 1, 0) ensures HasName(longs, name) {
      assert Before(g, i, k, n);
    }
  }

  lemma {:induction false} ExactFill(t: Tables, nodes: seq<Node>, k: nat)
    requires k <= |nodes| && t.groups == [] && t.longs == []
    ensures Exact(AddFirst(t, nodes, k).longs, nodes, k, 0) && |AddFirst(t, nodes, k).groups| == k
  {
    if k > 0 {
      ExactFill(t, nodes, k - 1);
      var s, opts := AddFirst(t, nodes, k - 1), Options(nodes[k - 1].argp);
      ExactGroup(s.longs, nodes, k - 1, |opts|);
      ExactNext(AddLongs(s.longs, opts, |opts|, k - 1), nodes, k - 1);
      assert AddFirst(t, nodes, k) == AddNode(s, nodes[k - 1]);
    }
  }

  /**
   Looking a declared name up finds an entry, and the value stored there unpacks to the group and the key of
   the first declaration, whatever later groups say.
   */
  lemma {:induction false} LongOptionMeaning(t: Tables, nodes: seq<Node>, g: nat, i: nat, name: Option<string>)
    requires t.groups == [] && t.longs == [] && FirstNamed(nodes, g, i, name)
    requires |nodes| <= 127 && -(USER_RANGE / 2) <= KeyOf(Options(nodes[g].argp), i) < USER_RANGE / 2
    ensures var longs := AddNodes(t, nodes).longs;
            HasName(longs, name) && forall e :: 0 <= e < |longs| && longs[e].name == name ==>
              GroupKey(longs[e].val) == g + 1 && UserKey(longs[e].val) == KeyOf(Options(nodes[g].argp), i)
  {
    var longs := AddNodes(t, nodes).longs;
    ExactFill(t, nodes, |nodes|);
    assert Before(g, i, |nodes|, 0);
    KeyRoundTrip(KeyOf(Options(nodes[g].argp), i), g);
    forall e | 0 <= e < |longs| && longs[e].name == name
      ensures longs[e] == LongEntry(Options(nodes[g].argp), i, g)
    {
      assert Stands(longs[e], nodes, |nodes|, 0);
    }
  }

  // ----- parents and their slots

  /** The parent of group `k` comes before it, and has its argp at the recorded place. */
  predicate Linked(nodes: seq<Node>, base: nat, k: nat)
    requires k < |nodes|
  {
    nodes[k].parent.Some? ==>
      && base <= nodes[k].parent.value < base + k
      && var up := nodes[nodes[k].parent.value - base].argp;
         nodes[k].index < |up.children| && up.children[nodes[k].index] == nodes[k].argp
  }

  /** The same, or the parent is the group `outer` the forest `cs` was handed to. */
  predicate LinkedIn(nodes: seq<Node>, base: nat, k: nat, cs: seq<Argp>, outer: Option<nat>)
    requires k < |nodes|
  {
    Linked(nodes, base, k) ||
    (nodes[k].parent == outer && nodes[k].index < |cs| && cs[nodes[k].index] == nodes[k].argp)
  }

  lemma {:induction false} LinkedShift(xs: seq<Node>, ys: seq<Node>, base: nat, k: nat)
    requires k < |ys| && Linked(ys, base + |xs|, k)
    ensures Linked(xs + ys, base, |xs| + k)
  {
  }

  lemma {:induction false} LinkedPrefix(xs: seq<Node>, ys: seq<Node>, base: nat, k: nat)
    requires k < |xs| && Linked(xs, base, k)
    ensures Linked(xs + ys, base, k)
  {
  }

  lemma {:induction false} ForestLinked(cs: seq<Argp>, i: nat, outer: Option<nat>, base: nat, k: nat)
    requires i <= |cs| && k < |ChildGroups(cs, i, outer, base)|
    ensures LinkedIn(ChildGroups(cs, i, outer, base), base, k, cs, outer)
    decreases cs, |cs| - i
  {
    var first := Groups(cs[i], outer, i, base);
    var rest := ChildGroups(cs, i + 1, outer, base + |first|);
    if k < |first| {
      TreeLinked(cs[i], outer, i, base, k);
      if Linked(first, base, k) {
        LinkedPrefix(first, rest, base, k);
      }
    } else {
      ForestLinked(cs, i + 1, outer, base + |first|, k - |first|);
      if Linked(rest, base + |first|, k - |first|) {
        LinkedShift(first, rest, base, k - |first|);
      }
    }
  }

  /** In the groups of a tree every parent link but the root's leads back to an earlier group. */
  lemma {:induction false} TreeLinked(a: Argp, parent: Option<nat>, index: nat, base: nat, k: nat)
    requires k < |Groups(a, parent, index, base)|
    ensures var nodes := Groups(a, parent, index, base);
            Linked(nodes, base, k) || nodes[k] == Node(a, parent, index)
    decreases a, 0
  {
    if !IsGroup(a) {
      ForestLinked(a.children, 0, None, base, k);
    } else if k > 0 {
      var n, rest := Node(a, parent, index), ChildGroups(a.children, 0, Some(base), base + 1);
      ForestLinked(a.children, 0, Some(base), base + 1, k - 1);
      if Linked(rest, base + 1, k - 1) {
        LinkedShift([n], rest, base, k - 1);
      }
    }
  }

  lemma {:induction false} GroupsFilled(t: Tables, nodes: seq<Node>, k: nat)
    requires k <= |nodes| && t.groups == [] && t.slots == 0
    ensures |AddFirst(t, nodes, k).groups| == k && AddFirst(t, nodes, k).slots == SlotCount(nodes, k)
    ensures forall g :: 0 <= g < k ==> Records(AddFirst(t, nodes, k).groups[g], nodes, g)
  {
    if k > 0 {
      GroupsFilled(t, nodes, k - 1);
      var s := AddFirst(t, nodes, k - 1);
      assert AddFirst(t, nodes, k) == AddNode(s, nodes[k - 1]);
      forall g | 0 <= g < k ensures Records(AddFirst(t, nodes, k).groups[g], nodes, g) {
        if g < k - 1 {
          assert AddFirst(t, nodes, k).groups[g] == s.groups[g];
        }
      }
    }
  }

  /** A group records its argp and parent, and its slots start after those of the earlier groups. */
  predicate Records(x: Group, nodes: seq<Node>, g: nat) {
    && g < |nodes| && x.argp == nodes[g].argp && x.parent == nodes[g].parent && x.parentIndex == nodes[g].index
    && x.inputs == SlotCount(nodes, g)
  }

  lemma {:induction false} SlotsMonotone(nodes: seq<Node>, g: nat, h: nat)
    requires g < h <= |nodes|
    ensures SlotCount(nodes, g) + |nodes[g].argp.children| <= SlotCount(nodes, h)
  {
    if h > g + 1 {
      SlotsMonotone(nodes, g, h - 1);
    }
  }

  /** The slots of a group. */
  predicate Owns(x: Group, slot: nat) {
    x.inputs <= slot < x.inputs + |x.argp.children|
  }

  /**
   When a group is given its input, the slot it is read from exists, belongs to its parent and to no other
   group, and the parent comes earlier in the order in which groups are initialised.
   */
  lemma {:induction false} InputSlots(a: Argp, inOrder: bool, g: nat, h: nat)
    requires g < |Converted(a, inOrder).groups| && h < |Converted(a, inOrder).groups|
    ensures var t := Converted(a, inOrder);
            t.groups[g].parent.Some? ==>
              var p := t.groups[g].parent.value;
              && p < g
              && t.groups[g].parentIndex < |t.groups[p].argp.children|
              && t.groups[p].inputs + t.groups[g].parentIndex < t.slots <= Edges(a)
              && (Owns(t.groups[h], t.groups[p].inputs + t.groups[g].parentIndex) <==> h == p)
              && t.groups[p].argp.children[t.groups[g].parentIndex] == t.groups[g].argp
  {
    var nodes, t := Groups(a, None, 0, 0), Converted(a, inOrder);
    GroupsFilled(Empty(inOrder), nodes, |nodes|);
    TreeLinked(a, None, 0, 0, g);
    SlotsCounted(a, None, 0, 0);
    assert Records(t.groups[g], nodes, g) && Records(t.groups[h], nodes, h);
    if nodes[g].parent.Some? {
      var p := nodes[g].parent.value;
      assert Linked(nodes, 0, g);
      assert Records(t.groups[p], nodes, p);
      SlotsMonotone(nodes, p, |nodes|);
      if h < p {
        SlotsMonotone(nodes, h, p);
      } else if p < h {
        SlotsMonotone(nodes, p, h);
      }
    }
  }

  // ----- the one block of memory the tables share

  /** Byte sizes and alignment of the stored records. */
  datatype Layout = Layout(group: nat, pointer: nat, option: nat, align: nat)

  function AlignTo(n: nat, d: nat): nat
    requires d > 0
  {
    (n + d - 1) / d * d
  }

  lemma {:induction false} AlignedUp(n: nat, d: nat)
    requires d > 0
    ensures n <= AlignTo(n, d) < n + d
  {
    var q := (n + d - 1) / d;
    assert n + d - 1 == q * d + (n + d - 1) % d;
  }

  /** The offsets of the child slots, the long options and the short string, and the size of the block. */
  function Offsets(l: Layout, groups: nat, slots: nat, longs: nat, shorts: nat): (nat, nat, nat, nat)
    requires l.align > 0
  {
    var gsum := (groups + 1) * l.group;
    var csum := AlignTo(gsum + slots * l.pointer, l.align);
    var lsum := csum + (longs + 1) * l.option;
    (gsum, csum, lsum, lsum + shorts + 1)
  }

  /** Records counted for one table lie inside its own part of the block: the parts do not overlap. */
  lemma {:induction false} PartsDisjoint(l: Layout, groups: nat, slots: nat, longs: nat, shorts: nat, i: nat)
    requires l.align > 0
    ensures var (gsum, csum, lsum, size) := Offsets(l, groups, slots, longs, shorts);
            && (i <= groups ==> (i + 1) * l.group <= gsum)
            && (i < slots ==> gsum + (i + 1) * l.pointer <= csum)
            && (i <= longs ==> csum + (i + 1) * l.option <= lsum)
            && (i <= shorts ==> lsum + i + 1 <= size)
  {
    var (gsum, csum, lsum, size) := Offsets(l, groups, slots, longs, shorts);
    AlignedUp(gsum + slots * l.pointer, l.align);
    if i <= groups {
      MulMono(i + 1, groups + 1, l.group);
    }
    if i < slots {
      MulMono(i + 1, slots, l.pointer);
    }
    if i <= longs {
      MulMono(i + 1, longs + 1, l.option);
    }
  }

  lemma {:induction false} MulMono(a: nat, b: nat, c: nat)
    requires a <= b
    ensures a * c <= b * c
  {
  }
}
