/**
 Which group answers to a letter or to a long option: the one that declares it first in pre-order.
 */
module ArgpDispatch {
  import opened Wrappers
  import opened ArgpTables

  // ----- letters

  /** The first position of `c` at or after `i`, or the length. */
  function Position(s: seq<int>, c: int, i: nat): (p: nat)
    requires i <= |s|
    ensures i <= p <= |s| && (p < |s| ==> s[p] == c) && forall k :: i <= k < p ==> s[k] != c
    decreases |s| - i
  {
    if i == |s| || s[i] == c then i else Position(s, c, i + 1)
  }

  /** The first group at or after `g` whose letters end beyond `pos`. */
  function OwnerFrom(groups: seq<Group>, pos: nat, g: nat): (r: Option<nat>)
    requires g <= |groups|
    ensures r.Some? ==> g <= r.value < |groups| && groups[r.value].shortEnd > pos
    ensures r.Some? ==> forall j :: g <= j < r.value ==> groups[j].shortEnd <= pos
    ensures r.None? ==> forall j :: g <= j < |groups| ==> groups[j].shortEnd <= pos
    decreases |groups| - g
  {
    if g == |groups| then None else if groups[g].shortEnd > pos then Some(g) else OwnerFrom(groups, pos, g + 1)
  }

  /** The group that is handed the letter `c`, found from the position of the letter alone. */
  function LetterOwner(t: Tables, c: int): Option<nat> {
    var pos := Position(t.short, c, 0);
    if pos == |t.short| then None else OwnerFrom(t.groups, pos, 0)
  }

  predicate DeclaresAt(opts: seq<Opt>, i: nat, c: int) {
    Usable(opts, i) && IsShort(opts[i]) && opts[i].key == c
  }

  ghost predicate Declares(n: Node, c: int) {
    exists i: nat :: DeclaresAt(Options(n.argp), i, c)
  }

  /** Node `g` is the first to declare `c`. */
  ghost predicate FirstDeclares(nodes: seq<Node>, g: nat, c: int) {
    g < |nodes| && Declares(nodes[g], c) && forall j :: 0 <= j < g ==> !Declares(nodes[j], c)
  }

  predicate IsPrefix(s: seq<int>, t: seq<int>) {
    |s| <= |t| && forall k :: 0 <= k < |s| ==> t[k] == s[k]
  }

  lemma {:induction false} TextLetters(opts: seq<Opt>, i: nat, c: int)
    requires i < |opts| && c != COLON
    ensures c in ShortText(opts, i) <==> DeclaresAt(opts, i, c)
  {
  }

  lemma {:induction false} FlattenLetters(texts: seq<seq<int>>, n: nat, c: int)
    requires n <= |texts|
    ensures c in Flatten(texts, n) <==> exists i :: 0 <= i < n && c in texts[i]
  {
    if n > 0 {
      FlattenLetters(texts, n - 1, c);
    }
  }

  lemma {:induction false} NodeTexts(n: Node, c: int)
    requires c != COLON
    ensures c in Flatten(Texts(Options(n.argp)), |Options(n.argp)|) <==> Declares(n, c)
  {
    var opts := Options(n.argp);
    FlattenLetters(Texts(opts), |opts|, c);
    forall i | 0 <= i < |opts| ensures c in Texts(opts)[i] <==> DeclaresAt(opts, i, c) {
      TextLetters(opts, i, c);
    }
  }

  /** What one more group does to the letter `c`. */
  ghost predicate Grows(f: Tables, r: Tables, n: Node, c: int) {
    && IsPrefix(f.short, r.short)
    && (c in r.short <==> c in f.short || Declares(n, c))
    && |r.groups| == |f.groups| + 1
    && r.groups[..|f.groups|] == f.groups
    && r.groups[|f.groups|].shortEnd == |r.short|
  }

  lemma {:induction false} NodeGrows(t: Tables, n: Node, c: int)
    requires c != COLON
    ensures Grows(t, AddNode(t, n), n, c)
  {
    NodeTexts(n, c);
  }

  predicate EndsWithin(t: Tables) {
    forall g :: 0 <= g < |t.groups| ==> t.groups[g].shortEnd <= |t.short|
  }

  /** Successive tables, one more group each, with the letter `c` not in front. */
  ghost predicate Chain(ts: seq<Tables>, nodes: seq<Node>, c: int) {
    && |ts| == |nodes| + 1
    && ts[0].groups == [] && c !in ts[0].short
    && forall k :: 0 <= k < |nodes| ==> Grows(ts[k], ts[k + 1], nodes[k], c)
  }

  lemma {:induction false} Undeclared(ts: seq<Tables>, nodes: seq<Node>, c: int, k: nat)
    requires Chain(ts, nodes, c) && k <= |nodes| && forall j :: 0 <= j < k ==> !Declares(nodes[j], c)
    ensures c !in ts[k].short && EndsWithin(ts[k]) && |ts[k].groups| == k
  {
    if k > 0 {
      Undeclared(ts, nodes, c, k - 1);
      assert Grows(ts[k - 1], ts[k], nodes[k - 1], c);
    }
  }

  /** A letter keeps its owner when a further group is added. */
  lemma {:induction false} OwnerStays(f: Tables, r: Tables, n: Node, c: int)
    requires Grows(f, r, n, c) && c in f.short && LetterOwner(f, c).Some?
    ensures LetterOwner(r, c) == LetterOwner(f, c)
  {
    var pos := Position(f.short, c, 0);
    assert Position(r.short, c, 0) == pos;
    var g := OwnerFrom(f.groups, pos, 0).value;
    assert r.groups[g] == f.groups[g] && forall j :: 0 <= j < g ==> r.groups[j] == f.groups[j];
  }

  /** A letter that appears with the last group belongs to it. */
  lemma {:induction false} OwnerIsLast(f: Tables, r: Tables, n: Node, c: int)
    requires Grows(f, r, n, c) && c !in f.short && c in r.short && EndsWithin(f)
    ensures LetterOwner(r, c) == Some(|f.groups|)
  {
    var pos := Position(r.short, c, 0);
    assert |f.short| <= pos < |r.short|;
    assert forall j :: 0 <= j < |f.groups| ==> r.groups[j] == f.groups[j];
  }

  lemma {:induction false} FirstOwns(ts: seq<Tables>, nodes: seq<Node>, g: nat, c: int, k: nat)
    requires Chain(ts, nodes, c) && FirstDeclares(nodes, g, c) && g < k <= |nodes|
    ensures c in ts[k].short && LetterOwner(ts[k], c) == Some(g)
  {
    assert Grows(ts[k - 1], ts[k], nodes[k - 1], c);
    if k - 1 == g {
      Undeclared(ts, nodes, c, g);
      OwnerIsLast(ts[k - 1], ts[k], nodes[k - 1], c);
    } else {
      FirstOwns(ts, nodes, g, c, k - 1);
      OwnerStays(ts[k - 1], ts[k], nodes[k - 1], c);
    }
  }

  ghost function FirstFrom(nodes: seq<Node>, k: nat, c: int): (g: Option<nat>)
    requires k <= |nodes| && forall j :: 0 <= j < k ==> !Declares(nodes[j], c)
    ensures g.Some? ==> FirstDeclares(nodes, g.value, c)
    ensures g.None? ==> forall j :: 0 <= j < |nodes| ==> !Declares(nodes[j], c)
    decreases |nodes| - k
  {
    if k == |nodes| then None else if Declares(nodes[k], c) then Some(k) else FirstFrom(nodes, k + 1, c)
  }

  /** Position and end marks identify the first declaring group, for every letter that is not already in front. */
  lemma {:induction false} OwnerIsFirst(t: Tables, nodes: seq<Node>, c: int)
    requires t.groups == [] && c != COLON && c !in t.short
    ensures LetterOwner(AddNodes(t, nodes), c) == FirstFrom(nodes, 0, c)
  {
    var ts := seq(|nodes| + 1, k requires 0 <= k <= |nodes| => AddFirst(t, nodes, k));
    forall k | 0 <= k < |nodes| ensures Grows(ts[k], ts[k + 1], nodes[k], c) {
      NodeGrows(ts[k], nodes[k], c);
    }
    var g := FirstFrom(nodes, 0, c);
    if g.Some? {
      FirstOwns(ts, nodes, g.value, c, |nodes|);
    } else {
      Undeclared(ts, nodes, c, |nodes|);
    }
  }
}
