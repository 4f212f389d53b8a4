/**
 The tables an argp tree is converted to before parsing: the short-option string, the long options with
 their packed keys, and one group per argp.  Sizes are computed first, then a recursive walk fills the tables.
 */
module ArgpTables {
  import opened Wrappers

  // ----- options and argps

  /** One entry of an option array (the flags that matter here, and whether it has an argument and a text). */
  datatype Opt = Opt(name: Option<string>, key: int, arg: bool, argOptional: bool, alias: bool, doc: bool,
                     text: bool, group: int)

  /** The entry that ends an option array. */
  predicate IsEnd(o: Opt) {
    o.key == 0 && o.name.None? && !o.text && o.group == 0
  }

  /** The key is a printable character, so the option can be given as a single letter. */
  predicate IsShort(o: Opt) {
    !o.doc && 0 < o.key <= 255 && 32 <= o.key <= 126
  }

  /** A tree of option groups.  An argp without options and without parser only holds its children together. */
  datatype Argp = Argp(options: Option<seq<Opt>>, parser: bool, children: seq<Argp>)

  predicate IsGroup(a: Argp) {
    a.options.Some? || a.parser
  }

  /** The number of entries before the end of the array. */
  function Live(opts: seq<Opt>, i: nat): (n: nat)
    requires i <= |opts|
    ensures i <= n <= |opts|
    ensures forall k :: i <= k < n ==> !IsEnd(opts[k])
    decreases |opts| - i
  {
    if i == |opts| || IsEnd(opts[i]) then i else Live(opts, i + 1)
  }

  /** The options of an argp, up to the end marker. */
  function Options(a: Argp): seq<Opt> {
    if a.options.None? then [] else a.options.value[..Live(a.options.value, 0)]
  }

  /** The closest entry at or before `i` that is not an alias (or the first entry). */
  function RealAt(opts: seq<Opt>, i: nat): (r: nat)
    requires i < |opts|
    ensures r <= i
  {
    if i == 0 || !opts[i].alias then i else RealAt(opts, i - 1)
  }

  /** Option `i` is a real option, not only documentation (an alias follows the entry it stands for). */
  predicate Usable(opts: seq<Opt>, i: nat) {
    i < |opts| && !opts[RealAt(opts, i)].doc
  }

  /** An argp that has options or a parser: its argp, the group of its parent and its place among the children. */
  datatype Node = Node(argp: Argp, parent: Option<nat>, index: nat)

  /** The groups of a tree in pre-order, numbered from `base`. */
  function Groups(a: Argp, parent: Option<nat>, index: nat, base: nat): seq<Node>
    decreases a, 0
  {
    if IsGroup(a) then [Node(a, parent, index)] + ChildGroups(a.children, 0, Some(base), base + 1)
    else ChildGroups(a.children, 0, None, base)
  }

  function ChildGroups(cs: seq<Argp>, i: nat, parent: Option<nat>, base: nat): seq<Node>
    requires i <= |cs|
    decreases cs, |cs| - i
  {
    if i == |cs| then []
    else var first := Groups(cs[i], parent, i, base); first + ChildGroups(cs, i + 1, parent, base + |first|)
  }

  // ----- keys of long options

  const USER_RANGE := 0x100_0000
  const INT_MIN := -0x8000_0000

  /** The value of a 32-bit two's complement word. */
  function Wrap32(x: int): int {
    (x - INT_MIN) % 0x1_0000_0000 + INT_MIN
  }

  /** 24 bits of user key, and the number of the group plus one in the high bits. */
  function EncodeKey(key: int, group: nat): int {
    Wrap32(key % USER_RANGE + (group + 1) * USER_RANGE)
  }

  /** Group number plus one (0 for a short option), rounding down as an arithmetic shift does. */
  function GroupKey(val: int): int {
    (val - val % USER_RANGE) / USER_RANGE
  }

  /** The user key, its sign restored from bit 23. */
  function UserKey(val: int): int {
    var low := val % USER_RANGE;
    if low >= USER_RANGE / 2 then low - USER_RANGE else low
  }

  /** Packing loses nothing exactly for signed 24-bit keys in the first 127 groups. */
  lemma {:induction false} KeyRoundTrip(key: int, group: nat)
    ensures GroupKey(EncodeKey(key, group)) == group + 1 && UserKey(EncodeKey(key, group)) == key
            <==> -(USER_RANGE / 2) <= key < USER_RANGE / 2 && group + 1 <= 127
  {
    var low, hi := key % USER_RANGE, group + 1;
    var v := low + hi * USER_RANGE;
    if hi <= 127 {
      assert 0 <= v < 0x8000_0000;
      assert EncodeKey(key, group) == v;
      assert v % USER_RANGE == low;
    } else {
      var w := EncodeKey(key, group);
      assert w - w % USER_RANGE <= w < 0x8000_0000;
      assert GroupKey(w) <= 127;
    }
  }

  /** In the first 127 groups no packed key can be taken for a letter, an argument, an error or the end. */
  lemma {:induction false} KeysDisjoint(key: int, group: nat)
    requires group + 1 <= 127
    ensures EncodeKey(key, group) > 255 && EncodeKey(key, group) != -1 && GroupKey(EncodeKey(key, group)) != 0
  {
    var v := key % USER_RANGE + (group + 1) * USER_RANGE;
    assert USER_RANGE <= v < 0x8000_0000;
    assert v % USER_RANGE == key % USER_RANGE;
  }

  // ----- the tables as values

  datatype HasArg = NoArgument | RequiredArgument | OptionalArgument

  datatype LongOpt = LongOpt(name: Option<string>, hasArg: HasArg, val: int)

  /** A group: where its letters end in the short-option string, and where its slots for children start. */
  datatype Group = Group(argp: Argp, shortEnd: nat, parent: Option<nat>, parentIndex: nat, inputs: nat)

  datatype Tables = Tables(short: seq<int>, longs: seq<LongOpt>, groups: seq<Group>, slots: nat)

  const COLON := 58

  /** The letter of an option, then one colon for an argument and a second one for an optional argument. */
  function ShortText(opts: seq<Opt>, i: nat): seq<int>
    requires i < |opts|
  {
    var entry := opts[RealAt(opts, i)];
    if !Usable(opts, i) || !IsShort(opts[i]) then []
    else [opts[i].key] + (if !entry.arg then [] else if entry.argOptional then [COLON, COLON] else [COLON])
  }

  /** What the long option made from option `i` of group `group` says. */
  function LongEntry(opts: seq<Opt>, i: nat, group: nat): LongOpt
    requires i < |opts|
  {
    var entry := opts[RealAt(opts, i)];
    LongOpt(opts[i].name,
            if !entry.arg then NoArgument else if entry.argOptional then OptionalArgument else RequiredArgument,
            EncodeKey(KeyOf(opts, i), group))
  }

  /** An option without key of its own answers to the key of the entry it stands for. */
  function KeyOf(opts: seq<Opt>, i: nat): int
    requires i < |opts|
  {
    if opts[i].key != 0 then opts[i].key else opts[RealAt(opts, i)].key
  }

  predicate HasName(longs: seq<LongOpt>, name: Option<string>) {
    exists k :: 0 <= k < |longs| && longs[k].name == name
  }

  /** A name that is already taken keeps its first meaning. */
  function AddLong(longs: seq<LongOpt>, opts: seq<Opt>, i: nat, group: nat): seq<LongOpt>
    requires i < |opts|
  {
    if Usable(opts, i) && opts[i].name.Some? && !HasName(longs, opts[i].name)
    then longs + [LongEntry(opts, i, group)] else longs
  }

  /** The long options after the first `n` options of group number `group`. */
  function AddLongs(longs: seq<LongOpt>, opts: seq<Opt>, n: nat, group: nat): seq<LongOpt>
    requires n <= |opts|
  {
    if n == 0 then longs else AddLong(AddLongs(longs, opts, n - 1, group), opts, n - 1, group)
  }

  /** What each option adds to the short-option string. */
  function Texts(opts: seq<Opt>): seq<seq<int>> {
    seq(|opts|, i requires 0 <= i < |opts| => ShortText(opts, i))
  }

  function Flatten(texts: seq<seq<int>>, n: nat): seq<int>
    requires n <= |texts|
  {
    if n == 0 then [] else Flatten(texts, n - 1) + texts[n - 1]
  }

  function AddNode(t: Tables, n: Node): (r: Tables)
    ensures |r.groups| == |t.groups| + 1 && r.groups[..|t.groups|] == t.groups
    ensures r.groups[|t.groups|].shortEnd == |r.short|
  {
    var opts := Options(n.argp);
    var short := t.short + Flatten(Texts(opts), |opts|);
    Tables(short, AddLongs(t.longs, opts, |opts|, |t.groups|),
           t.groups + [Group(n.argp, |short|, n.parent, n.index, t.slots)], t.slots + |n.argp.children|)
  }

  /** `s` after the first `k` steps. */
  function Fold<S, X>(step: (S, X) -> S, s: S, xs: seq<X>, k: nat): S
    requires k <= |xs|
  {
    if k == 0 then s else step(Fold(step, s, xs, k - 1), xs[k - 1])
  }

  /** The tables after the first `k` groups. */
  function AddFirst(t: Tables, nodes: seq<Node>, k: nat): Tables
    requires k <= |nodes|
  {
    Fold(AddNode, t, nodes, k)
  }

  function AddNodes(t: Tables, nodes: seq<Node>): Tables {
    AddFirst(t, nodes, |nodes|)
  }

  /** The tables before any group is added; a leading dash asks getopt to return arguments in order. */
  function Empty(inOrder: bool): Tables {
    Tables(if inOrder then [DASH] else [], [], [], 0)
  }

  const DASH := 45

  /** The tables of a whole tree. */
  function Converted(a: Argp, inOrder: bool): Tables {
    AddNodes(Empty(inOrder), Groups(a, None, 0, 0))
  }

  lemma {:induction false} FoldConcat<S, X>(step: (S, X) -> S, s: S, xs: seq<X>, ys: seq<X>, k: nat)
    requires k <= |ys|
    ensures Fold(step, s, xs + ys, |xs| + k) == Fold(step, Fold(step, s, xs, |xs|), ys, k)
  {
    if k > 0 {
      FoldConcat(step, s, xs, ys, k - 1);
    } else {
      FoldPrefix(step, s, xs, ys, |xs|);
    }
  }

  lemma {:induction false} FoldPrefix<S, X>(step: (S, X) -> S, s: S, xs: seq<X>, ys: seq<X>, k: nat)
    requires k <= |xs|
    ensures Fold(step, s, xs + ys, k) == Fold(step, s, xs, k)
  {
    if k > 0 {
      FoldPrefix(step, s, xs, ys, k - 1);
    }
  }

  lemma {:induction false} AddNodesConcat(t: Tables, xs: seq<Node>, ys: seq<Node>)
    ensures AddNodes(t, xs + ys) == AddNodes(AddNodes(t, xs), ys)
  {
    FoldConcat(AddNode, t, xs, ys, |ys|);
  }

  // ----- how much is stored

  /** The options of the first `k` groups, and the slots they need for their children. */
  function OptionCount(nodes: seq<Node>, k: nat): nat
    requires k <= |nodes|
  {
    if k == 0 then 0 else OptionCount(nodes, k - 1) + |Options(nodes[k - 1].argp)|
  }

  function SlotCount(nodes: seq<Node>, k: nat): nat
    requires k <= |nodes|
  {
    if k == 0 then 0 else SlotCount(nodes, k - 1) + |nodes[k - 1].argp.children|
  }

  lemma {:induction false} CountConcat(xs: seq<Node>, ys: seq<Node>, k: nat)
    requires k <= |ys|
    ensures OptionCount(xs + ys, |xs| + k) == OptionCount(xs, |xs|) + OptionCount(ys, k)
    ensures SlotCount(xs + ys, |xs| + k) == SlotCount(xs, |xs|) + SlotCount(ys, k)
  {
    if k > 0 {
      CountConcat(xs, ys, k - 1);
    } else {
      CountPrefix(xs, ys, |xs|);
    }
  }

  lemma {:induction false} CountPrefix(xs: seq<Node>, ys: seq<Node>, k: nat)
    requires k <= |xs|
    ensures OptionCount(xs + ys, k) == OptionCount(xs, k) && SlotCount(xs + ys, k) == SlotCount(xs, k)
  {
    if k > 0 {
      CountPrefix(xs, ys, k - 1);
    }
  }

  lemma {:induction false} TextsFit(opts: seq<Opt>, n: nat)
    requires n <= |opts|
    ensures |Flatten(Texts(opts), n)| <= 3 * n
  {
    if n > 0 {
      TextsFit(opts, n - 1);
    }
  }

  lemma {:induction false} LongsFit(longs: seq<LongOpt>, opts: seq<Opt>, n: nat, group: nat)
    requires n <= |opts|
    ensures |AddLongs(longs, opts, n, group)| <= |longs| + n
  {
    if n > 0 {
      LongsFit(longs, opts, n - 1, group);
    }
  }

  lemma {:induction false} NodeFits(t: Tables, n: Node)
    ensures |AddNode(t, n).short| <= |t.short| + 3 * |Options(n.argp)|
    ensures |AddNode(t, n).longs| <= |t.longs| + |Options(n.argp)|
  {
    var opts := Options(n.argp);
    TextsFit(opts, |opts|);
    LongsFit(t.longs, opts, |opts|, |t.groups|);
  }

  /** Three characters and one long option for each counted option are enough; groups and slots are exact. */
  lemma {:induction false} NodesFit(t: Tables, nodes: seq<Node>, k: nat)
    requires k <= |nodes|
    ensures |AddFirst(t, nodes, k).short| <= |t.short| + 3 * OptionCount(nodes, k)
    ensures |AddFirst(t, nodes, k).longs| <= |t.longs| + OptionCount(nodes, k)
    ensures AddFirst(t, nodes, k).slots == t.slots + SlotCount(nodes, k)
    ensures |AddFirst(t, nodes, k).groups| == |t.groups| + k
  {
    if k > 0 {
      NodesFit(t, nodes, k - 1);
      NodeFits(AddFirst(t, nodes, k - 1), nodes[k - 1]);
    }
  }

  /** The number of child entries in a tree. */
  function Edges(a: Argp): nat
    decreases a, 0
  {
    ChildEdges(a.children, 0)
  }

  function ChildEdges(cs: seq<Argp>, i: nat): nat
    requires i <= |cs|
    decreases cs, |cs| - i
  {
    if i == |cs| then 0 else 1 + Edges(cs[i]) + ChildEdges(cs, i + 1)
  }

  function TotalSlots(nodes: seq<Node>): nat {
    SlotCount(nodes, |nodes|)
  }

  function TotalOptions(nodes: seq<Node>): nat {
    OptionCount(nodes, |nodes|)
  }

  lemma {:induction false} TotalConcat(xs: seq<Node>, ys: seq<Node>)
    ensures TotalSlots(xs + ys) == TotalSlots(xs) + TotalSlots(ys)
    ensures TotalOptions(xs + ys) == TotalOptions(xs) + TotalOptions(ys)
  {
    CountConcat(xs, ys, |ys|);
  }

  /** The slots handed out to groups are among the counted child entries. */
  lemma {:induction false} SlotsCounted(a: Argp, parent: Option<nat>, index: nat, base: nat)
    ensures TotalSlots(Groups(a, parent, index, base)) <= Edges(a)
    decreases a, 0
  {
    if IsGroup(a) {
      ChildSlotsCounted(a.children, 0, Some(base), base + 1);
      TotalConcat([Node(a, parent, index)], ChildGroups(a.children, 0, Some(base), base + 1));
      assert SlotCount([Node(a, parent, index)], 1) == |a.children|;
    } else {
      ChildSlotsCounted(a.children, 0, None, base);
    }
  }

  lemma {:induction false} ChildSlotsCounted(cs: seq<Argp>, i: nat, parent: Option<nat>, base: nat)
    requires i <= |cs|
    ensures TotalSlots(ChildGroups(cs, i, parent, base)) + |cs| - i <= ChildEdges(cs, i)
    decreases cs, |cs| - i
  {
    if i < |cs| {
      var first := Groups(cs[i], parent, i, base);
      SlotsCounted(cs[i], parent, i, base);
      ChildSlotsCounted(cs, i + 1, parent, base + |first|);
      TotalConcat(first, ChildGroups(cs, i + 1, parent, base + |first|));
    }
  }
}
