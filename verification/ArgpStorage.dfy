/**
 The storage of a parser: sizes counted first, arrays of exactly these sizes, then the recursive fill.
 Every write below is checked against the length of its array.
 */
module ArgpStorage {
  import opened Wrappers
  import opened ArgpTables
  import opened ArgpDispatch

  // ----- counting

  /** The options and the groups of a tree. */
  function TreeOptions(a: Argp): nat
    decreases a, 0
  {
    |Options(a)| + ForestOptions(a.children, 0)
  }

  function ForestOptions(cs: seq<Argp>, i: nat): nat
    requires i <= |cs|
    decreases cs, |cs| - i
  {
    if i == |cs| then 0 else TreeOptions(cs[i]) + ForestOptions(cs, i + 1)
  }

  function TreeGroups(a: Argp): nat
    decreases a, 0
  {
    (if IsGroup(a) then 1 else 0) + ForestGroups(a.children, 0)
  }

  function ForestGroups(cs: seq<Argp>, i: nat): nat
    requires i <= |cs|
    decreases cs, |cs| - i
  {
    if i == |cs| then 0 else TreeGroups(cs[i]) + ForestGroups(cs, i + 1)
  }

  lemma {:induction false} TreeCounts(a: Argp, parent: Option<nat>, index: nat, base: nat)
    ensures TotalOptions(Groups(a, parent, index, base)) == TreeOptions(a)
    ensures |Groups(a, parent, index, base)| == TreeGroups(a)
    decreases a, 0
  {
    if IsGroup(a) {
      ForestCounts(a.children, 0, Some(base), base + 1);
      TotalConcat([Node(a, parent, index)], ChildGroups(a.children, 0, Some(base), base + 1));
      assert OptionCount([Node(a, parent, index)], 1) == |Options(a)|;
    } else {
      ForestCounts(a.children, 0, None, base);
    }
  }

  lemma {:induction false} OptionsConcat(xs: seq<Node>, ys: seq<Node>)
    ensures TotalOptions(xs + ys) == TotalOptions(xs) + TotalOptions(ys)
  {
    TotalConcat(xs, ys);
  }

  /** The groups of the children from number `i` on: those of child `i`, then the others. */
  lemma {:induction false} ForestSplits(cs: seq<Argp>, i: nat, parent: Option<nat>, base: nat)
    requires i < |cs|
    ensures var first := Groups(cs[i], parent, i, base);
            ChildGroups(cs, i, parent, base) == first + ChildGroups(cs, i + 1, parent, base + |first|)
  {
  }

  lemma {:induction false} ForestCounts(cs: seq<Argp>, i: nat, parent: Option<nat>, base: nat)
    requires i <= |cs|
    ensures TotalOptions(ChildGroups(cs, i, parent, base)) == ForestOptions(cs, i)
    ensures |ChildGroups(cs, i, parent, base)| == ForestGroups(cs, i)
    decreases cs, |cs| - i
  {
    if i < |cs| {
      var first := Groups(cs[i], parent, i, base);
      var rest := ChildGroups(cs, i + 1, parent, base + |first|);
      TreeCounts(cs[i], parent, i, base);
      ForestCounts(cs, i + 1, parent, base + |first|);
      ForestSplits(cs, i, parent, base);
      OptionsConcat(first, rest);
      assert ForestOptions(cs, i) == TreeOptions(cs[i]) + ForestOptions(cs, i + 1);
    }
  }

  class Sizes {
    var shortLen: nat
    var longLen: nat
    var numGroups: nat
    var numChildInputs: nat

    constructor ()
      ensures shortLen == 1 && longLen == 0 && numGroups == 0 && numChildInputs == 0
    {
      shortLen, longLen, numGroups, numChildInputs := 1, 0, 0, 0;
    }

    method CalcSizes(a: Argp)
      modifies this
      ensures shortLen == old(shortLen) + 3 * TreeOptions(a) && longLen == old(longLen) + TreeOptions(a)
      ensures numGroups == old(numGroups) + TreeGroups(a) && numChildInputs == old(numChildInputs) + Edges(a)
      decreases a
    {
      if IsGroup(a) {
        numGroups := numGroups + 1;
        if a.options.Some? {
          var numOpts := 0;
          while numOpts < |a.options.value| && !IsEnd(a.options.value[numOpts])
            invariant numOpts <= |a.options.value|
            invariant Live(a.options.value, 0) == Live(a.options.value, numOpts)
          {
            numOpts := numOpts + 1;
          }
          shortLen := shortLen + numOpts * 3;
          longLen := longLen + numOpts;
        }
      }
      ghost var short, long, groups := shortLen, longLen, numGroups;
      assert short == old(shortLen) + 3 * |Options(a)| && long == old(longLen) + |Options(a)|;
      var i := 0;
      while i < |a.children|
        invariant i <= |a.children|
        invariant shortLen + 3 * ForestOptions(a.children, i) == short + 3 * ForestOptions(a.children, 0)
        invariant longLen + ForestOptions(a.children, i) == long + ForestOptions(a.children, 0)
        invariant numGroups + ForestGroups(a.children, i) == groups + ForestGroups(a.children, 0)
        invariant numChildInputs + ChildEdges(a.children, i) == old(numChildInputs) + Edges(a)
      {
        CalcSizes(a.children[i]);
        numChildInputs := numChildInputs + 1;
        i := i + 1;
      }
    }
  }

  // ----- room

  /** How many entries each array has. */
  datatype Capacity = Capacity(short: nat, long: nat, groups: nat, slots: nat)

  /** The groups `nodes` can be added to `t`, with a terminator left in each array. */
  predicate Fits(cap: Capacity, t: Tables, nodes: seq<Node>) {
    && |t.short| + 3 * TotalOptions(nodes) < cap.short
    && |t.longs| + TotalOptions(nodes) < cap.long
    && |t.groups| + |nodes| < cap.groups
    && t.slots + TotalSlots(nodes) <= cap.slots
  }

  lemma {:induction false} FitsConcat(cap: Capacity, t: Tables, xs: seq<Node>, ys: seq<Node>)
    requires Fits(cap, t, xs + ys)
    ensures Fits(cap, t, xs) && Fits(cap, AddNodes(t, xs), ys)
  {
    TotalConcat(xs, ys);
    NodesFit(t, xs, |xs|);
  }

  /** The counted sizes leave room for the whole tree. */
  lemma {:induction false} SizesSuffice(a: Argp, inOrder: bool)
    ensures Fits(Capacity(3 * TreeOptions(a) + 2, TreeOptions(a) + 1, TreeGroups(a) + 1, Edges(a)),
                 Empty(inOrder), Groups(a, None, 0, 0))
  {
    TreeCounts(a, None, 0, 0);
    SlotsCounted(a, None, 0, 0);
  }

  /** `v` is `t` with the first `i` options added. */
  predicate Partial(v: Tables, t: Tables, opts: seq<Opt>, i: nat) {
    && i <= |opts|
    && v.short == t.short + Flatten(Texts(opts), i)
    && v.longs == AddLongs(t.longs, opts, i, |t.groups|)
    && v.groups == t.groups && v.slots == t.slots
  }

  lemma {:induction false} PartialFits(v: Tables, t: Tables, opts: seq<Opt>, i: nat)
    requires Partial(v, t, opts, i)
    ensures |v.short| <= |t.short| + 3 * i && |v.longs| <= |t.longs| + i
  {
    TextsFit(opts, i);
    LongsFit(t.longs, opts, i, |t.groups|);
  }

  lemma {:induction false} PartialStep(w: Tables, v: Tables, t: Tables, opts: seq<Opt>, i: nat)
    requires Partial(v, t, opts, i) && i < |opts|
    requires w.short == v.short + ShortText(opts, i) && w.longs == AddLong(v.longs, opts, i, |t.groups|)
    requires w.groups == v.groups && w.slots == v.slots
    ensures Partial(w, t, opts, i + 1)
  {
    assert Texts(opts)[i] == ShortText(opts, i);
  }

  lemma {:induction false} OneNode(t: Tables, n: Node)
    ensures AddNodes(t, [n]) == AddNode(t, n)
    ensures TotalOptions([n]) == |Options(n.argp)| && TotalSlots([n]) == |n.argp.children|
  {
    assert Fold(AddNode, t, [n], 0) == t;
    assert OptionCount([n], 0) == SlotCount([n], 0) == 0;
  }

  /** The children from number `i` fit, and adding them leads to `goal`. */
  predicate Pending(cap: Capacity, t: Tables, cs: seq<Argp>, i: nat, mine: Option<nat>, goal: Tables) {
    i <= |cs| && Completes(cap, t, ChildGroups(cs, i, mine, |t.groups|), goal)
  }

  /** The groups `nodes` fit, and adding them leads to `goal`. */
  predicate Completes(cap: Capacity, t: Tables, nodes: seq<Node>, goal: Tables) {
    Fits(cap, t, nodes) && AddNodes(t, nodes) == goal
  }

  lemma {:induction false} Split(cap: Capacity, t: Tables, xs: seq<Node>, ys: seq<Node>, goal: Tables)
    requires Completes(cap, t, xs + ys, goal)
    ensures Fits(cap, t, xs) && Completes(cap, AddNodes(t, xs), ys, goal)
    ensures |AddNodes(t, xs).groups| == |t.groups| + |xs|
  {
    FitsConcat(cap, t, xs, ys);
    AddNodesConcat(t, xs, ys);
    NodesFit(t, xs, |xs|);
  }

  lemma {:induction false} GroupStep(cap: Capacity, t: Tables, a: Argp, parent: Option<nat>, index: nat)
    requires IsGroup(a) && Fits(cap, t, Groups(a, parent, index, |t.groups|))
    ensures Fits(cap, t, [Node(a, parent, index)])
    ensures Pending(cap, AddNode(t, Node(a, parent, index)), a.children, 0, Some(|t.groups|),
                    AddNodes(t, Groups(a, parent, index, |t.groups|)))
  {
    Split(cap, t, [Node(a, parent, index)], ChildGroups(a.children, 0, Some(|t.groups|), |t.groups| + 1),
          AddNodes(t, Groups(a, parent, index, |t.groups|)));
    OneNode(t, Node(a, parent, index));
  }

  lemma {:induction false} ChildStep(cap: Capacity, t: Tables, cs: seq<Argp>, i: nat, mine: Option<nat>, goal: Tables)
    requires Pending(cap, t, cs, i, mine, goal) && i < |cs|
    ensures Fits(cap, t, Groups(cs[i], mine, i, |t.groups|))
    ensures Pending(cap, AddNodes(t, Groups(cs[i], mine, i, |t.groups|)), cs, i + 1, mine, goal)
  {
    var first := Groups(cs[i], mine, i, |t.groups|);
    var rest := ChildGroups(cs, i + 1, mine, |t.groups| + |first|);
    ForestSplits(cs, i, mine, |t.groups|);
    assert Completes(cap, t, first + rest, goal);
    Split(cap, t, first, rest, goal);
  }

  lemma {:induction false} Done(cap: Capacity, t: Tables, cs: seq<Argp>, mine: Option<nat>, goal: Tables)
    requires Pending(cap, t, cs, |cs|, mine, goal)
    ensures goal == t
  {
    assert AddNodes(t, []) == t;
  }

  // ----- when only options are wanted

  /** A letter whose argument is optional, which takes three characters. */
  predicate Full(opts: seq<Opt>, i: nat)
    requires i < |opts|
  {
    var entry := opts[RealAt(opts, i)];
    Usable(opts, i) && IsShort(opts[i]) && entry.arg && entry.argOptional
  }

  predicate AllFull(n: Node) {
    var opts := Options(n.argp);
    forall i: nat :: i < |opts| ==> Full(opts, i)
  }

  lemma {:induction false} FlattenFull(texts: seq<seq<int>>, n: nat)
    requires n <= |texts| && forall i :: 0 <= i < n ==> |texts[i]| <= 3
    ensures |Flatten(texts, n)| <= 3 * n
    ensures |Flatten(texts, n)| == 3 * n <==> forall i :: 0 <= i < n ==> |texts[i]| == 3
  {
    if n > 0 {
      FlattenFull(texts, n - 1);
    }
  }

  lemma {:induction false} TextFull(opts: seq<Opt>, i: nat)
    requires i < |opts|
    ensures |ShortText(opts, i)| <= 3 && (|ShortText(opts, i)| == 3 <==> Full(opts, i))
  {
  }

  lemma {:induction false} TextsFull(opts: seq<Opt>)
    ensures |Flatten(Texts(opts), |opts|)| <= 3 * |opts|
    ensures |Flatten(Texts(opts), |opts|)| == 3 * |opts| <==> forall i: nat :: i < |opts| ==> Full(opts, i)
  {
    var texts := Texts(opts);
    forall i: nat | i < |opts| ensures |texts[i]| <= 3 && (|texts[i]| == 3 <==> Full(opts, i)) {
      TextFull(opts, i);
    }
    FlattenFull(texts, |opts|);
  }

  /** The counted characters that the letters of a group leave unused. */
  function Unused(n: Node): int {
    3 * |Options(n.argp)| - |Flatten(Texts(Options(n.argp)), |Options(n.argp)|)|
  }

  function Unuseds(nodes: seq<Node>): seq<int> {
    seq(|nodes|, g requires 0 <= g < |nodes| => Unused(nodes[g]))
  }

  function Sum(xs: seq<int>, k: nat): int
    requires k <= |xs|
  {
    if k == 0 then 0 else Sum(xs, k - 1) + xs[k - 1]
  }

  lemma {:induction false} SumOfNone(xs: seq<int>, k: nat)
    requires k <= |xs| && forall i :: 0 <= i < k ==> xs[i] >= 0
    ensures Sum(xs, k) >= 0 && (Sum(xs, k) == 0 <==> forall i :: 0 <= i < k ==> xs[i] == 0)
  {
    if k > 0 {
      SumOfNone(xs, k - 1);
    }
  }

  lemma {:induction false} UnusedFull(n: Node)
    ensures Unused(n) >= 0 && (Unused(n) == 0 <==> AllFull(n))
  {
    TextsFull(Options(n.argp));
  }

  lemma {:induction false} OneMoreUsed(t: Tables, nodes: seq<Node>, k: nat)
    requires 0 < k <= |nodes|
    ensures |AddFirst(t, nodes, k).short| + Unuseds(nodes)[k - 1] - |AddFirst(t, nodes, k - 1).short|
         == 3 * (OptionCount(nodes, k) - OptionCount(nodes, k - 1))
  {
    assert AddFirst(t, nodes, k) == AddNode(AddFirst(t, nodes, k - 1), nodes[k - 1]);
    assert Unuseds(nodes)[k - 1] == Unused(nodes[k - 1]);
  }

  lemma {:induction false} Telescopes(used: seq<int>, unused: seq<int>, counted: seq<int>, k: nat)
    requires k <= |unused| && |used| == |counted| == |unused| + 1
    requires forall i :: 0 <= i < k ==> used[i + 1] + unused[i] - used[i] == 3 * (counted[i + 1] - counted[i])
    ensures used[k] + Sum(unused, k) == used[0] + 3 * (counted[k] - counted[0])
  {
    if k > 0 {
      Telescopes(used, unused, counted, k - 1);
    }
  }

  /** The lengths after each group, and the options counted up to it. */
  function Lengths(t: Tables, nodes: seq<Node>): (r: seq<int>)
    ensures |r| == |nodes| + 1 && r[0] == |t.short| && r[|nodes|] == |AddNodes(t, nodes).short|
  {
    seq(|nodes| + 1, k requires 0 <= k <= |nodes| => |AddFirst(t, nodes, k).short|)
  }

  function Counts(nodes: seq<Node>): (r: seq<int>)
    ensures |r| == |nodes| + 1 && r[0] == 0 && r[|nodes|] == TotalOptions(nodes)
  {
    seq(|nodes| + 1, k requires 0 <= k <= |nodes| => OptionCount(nodes, k))
  }

  lemma {:induction false} LengthsGrow(t: Tables, nodes: seq<Node>, i: nat)
    requires i < |nodes|
    ensures Lengths(t, nodes)[i + 1] + Unuseds(nodes)[i] - Lengths(t, nodes)[i]
         == 3 * (Counts(nodes)[i + 1] - Counts(nodes)[i])
  {
    assert Lengths(t, nodes)[i + 1] == |AddFirst(t, nodes, i + 1).short|;
    assert Counts(nodes)[i + 1] == OptionCount(nodes, i + 1);
    OneMoreUsed(t, nodes, i + 1);
  }

  /** What is used and what is left unused is what was counted. */
  lemma {:induction false} UsedAndUnused(t: Tables, nodes: seq<Node>)
    ensures |AddNodes(t, nodes).short| + Sum(Unuseds(nodes), |nodes|) == |t.short| + 3 * TotalOptions(nodes)
  {
    var used, unused, counted := Lengths(t, nodes), Unuseds(nodes), Counts(nodes);
    forall i | 0 <= i < |nodes| ensures used[i + 1] + unused[i] - used[i] == 3 * (counted[i + 1] - counted[i]) {
      LengthsGrow(t, nodes, i);
    }
    Telescopes(used, unused, counted, |nodes|);
  }

  const PLUS := 43

  /**
   With ARGP_NO_ARGS no character is counted for the leading sign.  The string and its terminator do not fit in
   what is then allocated exactly when every option of the tree is a letter with an optional argument.
   */
  lemma {:induction false} NoArgsOverflow(a: Argp, sign: int)
    ensures var nodes := Groups(a, None, 0, 0);
            |AddNodes(Tables([sign], [], [], 0), nodes).short| + 1 > 3 * TreeOptions(a) + 1
            <==> forall g: nat :: g < |nodes| ==> AllFull(nodes[g])
  {
    var nodes := Groups(a, None, 0, 0);
    TreeCounts(a, None, 0, 0);
    UsedAndUnused(Tables([sign], [], [], 0), nodes);
    forall g: nat | g < |nodes| ensures Unuseds(nodes)[g] >= 0 && (Unuseds(nodes)[g] == 0 <==> AllFull(nodes[g])) {
      UnusedFull(nodes[g]);
    }
    SumOfNone(Unuseds(nodes), |nodes|);
  }

  /** It happens for an argp without options, with the plus sign. */
  lemma {:induction false} NoOptionsOverflow()
    ensures var a := Argp(Some([]), true, []);
            |AddNodes(Tables([PLUS], [], [], 0), Groups(a, None, 0, 0)).short| + 1 > 3 * TreeOptions(a) + 1
  {
    var a := Argp(Some([]), true, []);
    assert Groups(a, None, 0, 0) == [Node(a, None, 0)];
    assert AllFull(Node(a, None, 0));
    NoArgsOverflow(a, PLUS);
  }

  // ----- filling

  class Parser {
    const shortOpts: array<int>
    const longOpts: array<LongOpt>
    const groups: array<Group>
    const slots: nat
    var shortEnd: nat
    var longEnd: nat
    var egroup: nat
    var slotsEnd: nat

    /** The ends are inside the arrays, and the first free entries hold the terminators. */
    ghost predicate Valid()
      reads this, shortOpts, longOpts, groups
    {
      && shortEnd < shortOpts.Length && shortOpts[shortEnd] == 0
      && longEnd < longOpts.Length && longOpts[longEnd].name.None?
      && egroup < groups.Length && slotsEnd <= slots
      && (forall k :: 0 <= k < shortEnd ==> shortOpts[k] != 0)
      && (forall k :: 0 <= k < longEnd ==> longOpts[k].name.Some?)
    }

    ghost function View(): Tables
      requires shortEnd <= shortOpts.Length && longEnd <= longOpts.Length && egroup <= groups.Length
      reads this, shortOpts, longOpts, groups
    {
      Tables(shortOpts[..shortEnd], longOpts[..longEnd], groups[..egroup], slotsEnd)
    }

    function Room(): Capacity {
      Capacity(shortOpts.Length, longOpts.Length, groups.Length, slots)
    }

    /** Allocates what was counted and fills the tables. */
    constructor (argp: Option<Argp>, inOrder: bool)
      ensures Valid()
      ensures View() == if argp.None? then Empty(inOrder) else Converted(argp.value, inOrder)
    {
      var szs := new Sizes();
      if argp.Some? {
        szs.CalcSizes(argp.value);
      }
      shortOpts := new int[szs.shortLen + 1];
      longOpts := new LongOpt[szs.longLen + 1];
      groups := new Group[szs.numGroups + 1];
      slots := szs.numChildInputs;
      shortEnd, longEnd, egroup, slotsEnd := 0, 0, 0, 0;
      new;
      if inOrder {
        shortOpts[shortEnd] := DASH;
        shortEnd := shortEnd + 1;
      }
      shortOpts[shortEnd] := 0;
      longOpts[longEnd] := LongOpt(None, NoArgument, 0);
      assert View() == Empty(inOrder);
      if argp.Some? {
        SizesSuffice(argp.value, inOrder);
        ConvertOptions(argp.value, None, 0);
      }
    }

    /** The search of a name in the long options, up to the terminator. */
    method FindLongOption(name: string) returns (found: bool)
      requires Valid()
      ensures found <==> HasName(View().longs, Some(name))
    {
      var l := 0;
      while longOpts[l].name.Some? && longOpts[l].name.value != name
        invariant l <= longEnd
        invariant forall k :: 0 <= k < l ==> longOpts[k].name != Some(name)
        decreases longEnd - l
      {
        l := l + 1;
      }
      found := longOpts[l].name.Some?;
      assert found ==> View().longs[l].name == Some(name);
    }

    /** Appends one character and keeps the string terminated. */
    method PushShort(c: int)
      requires Valid() && shortEnd + 1 < shortOpts.Length && c != 0
      modifies this`shortEnd, shortOpts
      ensures shortEnd == old(shortEnd) + 1
      ensures Valid() && View() == old(View()).(short := old(View()).short + [c])
    {
      shortOpts[shortEnd] := c;
      shortEnd := shortEnd + 1;
      shortOpts[shortEnd] := 0;
    }

    method PushLong(o: LongOpt)
      requires Valid() && longEnd + 1 < longOpts.Length && o.name.Some?
      modifies this`longEnd, longOpts
      ensures Valid() && View() == old(View()).(longs := old(View()).longs + [o])
    {
      longOpts[longEnd] := o;
      longEnd := longEnd + 1;
      longOpts[longEnd] := LongOpt(None, NoArgument, 0);
    }

    /** The letter of one option; `entry` is the closest one that is not an alias. */
    method ConvertShort(opt: Opt, entry: Opt, ghost opts: seq<Opt>, ghost i: nat)
      requires Valid() && i < |opts| && opt == opts[i] && entry == opts[RealAt(opts, i)]
      requires shortEnd + 3 < shortOpts.Length && Usable(opts, i)
      modifies this`shortEnd, shortOpts
      ensures Valid() && View() == old(View()).(short := old(View()).short + ShortText(opts, i))
    {
      if IsShort(opt) {
        PushShort(opt.key);
        if entry.arg {
          PushShort(COLON);
          if entry.argOptional {
            PushShort(COLON);
          }
        }
      }
    }

    method ConvertOption(opt: Opt, entry: Opt, ghost opts: seq<Opt>, ghost i: nat)
      requires Valid() && i < |opts| && opt == opts[i] && entry == opts[RealAt(opts, i)]
      requires shortEnd + 3 < shortOpts.Length && longEnd + 1 < longOpts.Length
      modifies this`shortEnd, this`longEnd, shortOpts, longOpts
      ensures Valid()
      ensures View().short == old(View()).short + ShortText(opts, i)
      ensures View().longs == AddLong(old(View()).longs, opts, i, egroup)
      ensures View().groups == old(View()).groups
    {
      if !entry.doc {
        ConvertShort(opt, entry, opts, i);
        if opt.name.Some? {
          var found := FindLongOption(opt.name.value);
          if !found {
            PushLong(LongOpt(opt.name,
                             if entry.arg then if entry.argOptional then OptionalArgument else RequiredArgument
                             else NoArgument,
                             EncodeKey(if opt.key != 0 then opt.key else entry.key, egroup)));
          }
        }
      }
    }

    /** All options of an argp, up to the end marker. */
    method ConvertList(opts: seq<Opt>, ghost used: seq<Opt>)
      requires Valid() && used == opts[..Live(opts, 0)]
      requires shortEnd + 3 * |used| < shortOpts.Length && longEnd + |used| < longOpts.Length
      modifies this`shortEnd, this`longEnd, shortOpts, longOpts
      ensures Valid() && Partial(View(), old(View()), used, |used|)
    {
      var r, i := 0, 0;
      while i < |opts| && !IsEnd(opts[i])
        invariant i <= |used| == Live(opts, i)
        invariant r == if i == 0 then 0 else RealAt(used, i - 1)
        invariant Valid() && Partial(View(), old(View()), used, i)
      {
        if !opts[i].alias {
          r := i;
        }
        assert opts[i] == used[i] && opts[r] == used[RealAt(used, i)];
        PartialFits(View(), old(View()), used, i);
        ghost var before := View();
        ConvertOption(opts[i], opts[r], used, i);
        PartialStep(View(), before, old(View()), used, i);
        i := i + 1;
      }
    }

    /** The options of one argp, then its group. */
    method ConvertGroup(a: Argp, parent: Option<nat>, index: nat)
      requires Valid() && Fits(Room(), View(), [Node(a, parent, index)])
      modifies this, shortOpts, longOpts, groups
      ensures Valid() && View() == AddNode(old(View()), Node(a, parent, index))
    {
      OneNode(View(), Node(a, parent, index));
      if a.options.Some? {
        ConvertList(a.options.value, Options(a));
      }
      assert Partial(View(), old(View()), Options(a), |Options(a)|);
      groups[egroup] := Group(a, shortEnd, parent, index, slotsEnd);
      slotsEnd := slotsEnd + |a.children|;
      egroup := egroup + 1;
    }

    /** The recursive fill: groups are added in pre-order, each linked to the group of its parent. */
    method ConvertOptions(a: Argp, parent: Option<nat>, index: nat)
      requires Valid() && Fits(Room(), View(), Groups(a, parent, index, egroup))
      modifies this, shortOpts, longOpts, groups
      ensures Valid() && View() == AddNodes(old(View()), Groups(a, parent, index, old(egroup)))
      decreases a, 0
    {
      ghost var goal := AddNodes(View(), Groups(a, parent, index, egroup));
      var mine: Option<nat> := None;
      if IsGroup(a) {
        mine := Some(egroup);
        GroupStep(Room(), View(), a, parent, index);
        ConvertGroup(a, parent, index);
      }
      ConvertChildren(a.children, mine, goal);
    }

    /** The children of an argp, in order; `mine` is the group of the argp itself, if it has one. */
    method ConvertChildren(cs: seq<Argp>, mine: Option<nat>, ghost goal: Tables)
      requires Valid() && Pending(Room(), View(), cs, 0, mine, goal)
      modifies this, shortOpts, longOpts, groups
      ensures Valid() && View() == goal
      decreases cs, 1
    {
      var i := 0;
      while i < |cs|
        invariant i <= |cs| && Valid() && Pending(Room(), View(), cs, i, mine, goal)
      {
        ChildStep(Room(), View(), cs, i, mine, goal);
        ConvertOptions(cs[i], mine, i);
        i := i + 1;
      }
      Done(Room(), View(), cs, mine, goal);
    }

    /** The group and the key an option value returned by getopt is for. */
    method Dispatch(opt: int) returns (group: Option<nat>, key: int)
      requires Valid() && 0 <= GroupKey(opt) <= egroup
      ensures GroupKey(opt) == 0 ==> group == LetterOwner(View(), opt) && key == opt
      ensures GroupKey(opt) > 0 ==> group == Some(GroupKey(opt) - 1) && key == UserKey(opt)
    {
      if GroupKey(opt) != 0 {
        return Some(GroupKey(opt) - 1), UserKey(opt);
      }
      group, key := None, opt;
      var pos := 0;
      while shortOpts[pos] != 0 && shortOpts[pos] != opt
        invariant pos <= shortEnd
        invariant Position(View().short, opt, 0) == Position(View().short, opt, pos)
        decreases shortEnd - pos
      {
        pos := pos + 1;
      }
      if shortOpts[pos] != 0 {
        var g := 0;
        while g < egroup && groups[g].shortEnd <= pos
          invariant g <= egroup
          invariant OwnerFrom(View().groups, pos, 0) == OwnerFrom(View().groups, pos, g)
        {
          g := g + 1;
        }
        if g < egroup {
          group := Some(g);
        }
      }
    }
  }
}
