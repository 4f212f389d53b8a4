/**
 The portable alloca: blocks come from the heap and carry the stack depth of the call that asked for them; every
 call first frees the blocks that were allocated deeper in the stack than itself.
 */
module Alloca {
  import opened Wrappers

  /** The chain of headers, most recent first: address of the probe, and the block. */
  datatype Headers = Nil | Header(deep: int, block: nat, next: Headers)

  /** Address `a` is deeper in the stack than `b`, for a stack that grows up (1) or down (-1). */
  predicate Deeper(dir: int, a: int, b: int) {
    (dir > 0 && a > b) || (dir < 0 && a < b)
  }

  /** What is left of the chain once the deeper blocks at its front are gone. */
  function Keep(dir: int, hs: Headers, depth: int): Headers {
    if hs.Header? && Deeper(dir, hs.deep, depth) then Keep(dir, hs.next, depth) else hs
  }

  function Blocks(hs: Headers): set<nat> {
    if hs.Nil? then {} else {hs.block} + Blocks(hs.next)
  }

  predicate Distinct(hs: Headers) {
    hs.Header? ==> hs.block !in Blocks(hs.next) && Distinct(hs.next)
  }

  class Allocator {
    const dir: int
    var last: Headers
    /** The heap blocks in use, and the number of the next one. */
    var heap: set<nat>
    var serial: nat

    /** The chain links exactly the blocks in use. */
    ghost predicate Valid()
      reads this
    {
      Distinct(last) && Blocks(last) == heap && forall b: nat :: b in heap ==> b < serial
    }

    constructor (dir: int)
      ensures Valid() && this.dir == dir && last == Nil && serial == 0
    {
      this.dir, last, heap, serial := dir, Nil, {}, 0;
    }

    /** Frees the deeper blocks, then allocates unless nothing is asked for. */
    method Alloca(size: nat, depth: int) returns (r: Option<nat>)
      requires Valid()
      modifies this
      ensures Valid()
      ensures serial == if size == 0 then old(serial) else old(serial) + 1
      ensures r == if size == 0 then None else Some(old(serial))
      ensures last == var kept := Keep(dir, old(last), depth);
                      if size == 0 then kept else Header(depth, old(serial), kept)
    {
      var hp := last;
      while hp != Nil && Deeper(dir, hp.deep, depth)
        invariant last == old(last) && serial == old(serial)
        invariant Keep(dir, last, depth) == Keep(dir, hp, depth)
        invariant Distinct(hp) && Blocks(hp) == heap && heap <= old(heap)
        decreases hp
      {
        heap := heap - {hp.block};
        hp := hp.next;
      }
      last := hp;
      if size == 0 {
        return None;
      }
      r := Some(serial);
      heap := heap + {serial};
      last := Header(depth, serial, last);
      serial := serial + 1;
    }
  }

  // ----- programs

  /** A frame on the stack: how much it takes, and the blocks its alloca calls have returned. */
  datatype Frame = Frame(size: nat, blocks: set<nat>)

  /** A program calls functions, returns from them and calls alloca. */
  datatype Event = Call(size: nat) | Return | Request(size: nat)

  /** The stack (innermost frame last), the allocator, and the blocks freed so far. */
  datatype World = World(stack: seq<Frame>, hs: Headers, serial: nat, freed: set<nat>)

  function Depth(stack: seq<Frame>): nat {
    if stack == [] then 0 else Depth(stack[..|stack| - 1]) + stack[|stack| - 1].size
  }

  /** Where the probe of an alloca call from the innermost frame is, on a stack that starts at `base`. */
  function Probe(dir: int, base: int, stack: seq<Frame>): int {
    if dir > 0 then base + Depth(stack) else base - Depth(stack)
  }

  /** Stack discipline: frames take space, and only a live frame returns or allocates. */
  predicate Possible(w: World, e: Event) {
    match e
    case Call(size) => size > 0
    case Return => w.stack != []
    case Request(_) => w.stack != []
  }

  function Next(dir: int, base: int, w: World, e: Event): World
    requires Possible(w, e)
  {
    match e
    case Call(size) => w.(stack := w.stack + [Frame(size, {})])
    case Return => w.(stack := w.stack[..|w.stack| - 1])
    case Request(size) =>
      var depth := Probe(dir, base, w.stack);
      var kept := Keep(dir, w.hs, depth);
      var freed := w.freed + (Blocks(w.hs) - Blocks(kept));
      if size == 0 then w.(hs := kept, freed := freed)
      else
        var top := |w.stack| - 1;
        World(w.stack[top := w.stack[top].(blocks := w.stack[top].blocks + {w.serial})],
              Header(depth, w.serial, kept), w.serial + 1, freed)
  }

  /** The chain is ordered: no block is deeper than the one before it. */
  predicate Ordered(dir: int, hs: Headers) {
    hs.Header? && hs.next.Header? ==> !Deeper(dir, hs.next.deep, hs.deep) && Ordered(dir, hs.next)
  }

  /** Block `b` is in the chain with probe address `deep`. */
  predicate Holds(hs: Headers, b: nat, deep: int) {
    hs.Header? && ((hs.block == b && hs.deep == deep) || Holds(hs.next, b, deep))
  }

  /** Every block of a live frame is in the chain, at the depth of that frame. */
  ghost predicate LiveHeld(dir: int, base: int, w: World) {
    forall k: nat, b: nat :: k < |w.stack| && b in w.stack[k].blocks ==>
      Holds(w.hs, b, Probe(dir, base, w.stack[..k + 1]))
  }

  ghost predicate Safe(dir: int, base: int, w: World) {
    && dir != 0 && Ordered(dir, w.hs) && Distinct(w.hs) && LiveHeld(dir, base, w)
    && Accounted(Blocks(w.hs), w.freed, w.serial)
  }

  /** Every block handed out is either in use or freed, not both. */
  ghost predicate Accounted(used: set<nat>, freed: set<nat>, serial: nat) {
    && (forall b: nat :: b in used ==> b < serial && b !in freed)
    && (forall b: nat :: b in freed ==> b < serial)
    && (forall b: nat :: b < serial ==> b in used || b in freed)
  }

  lemma {:induction false} DepthMonotone(stack: seq<Frame>, k: nat)
    requires k <= |stack|
    ensures Depth(stack[..k]) <= Depth(stack)
  {
    if k < |stack| {
      DepthMonotone(stack[..|stack| - 1], k);
      assert stack[..|stack| - 1][..k] == stack[..k];
    } else {
      assert stack[..k] == stack;
    }
  }

  lemma {:induction false} HeldInBlocks(hs: Headers, b: nat, deep: int)
    requires Holds(hs, b, deep)
    ensures b in Blocks(hs)
  {
    if !(hs.block == b && hs.deep == deep) {
      HeldInBlocks(hs.next, b, deep);
    }
  }

  /** Reclaiming keeps the order, keeps what is not deeper, and leaves nothing deeper. */
  lemma {:induction false} KeepFacts(dir: int, hs: Headers, depth: int)
    requires Ordered(dir, hs) && Distinct(hs)
    ensures var kept := Keep(dir, hs, depth);
            && Ordered(dir, kept) && Distinct(kept) && Blocks(kept) <= Blocks(hs)
            && (kept.Header? ==> !Deeper(dir, kept.deep, depth))
    ensures forall b: nat, deep: int :: Holds(hs, b, deep) && !Deeper(dir, deep, depth) ==>
          Holds(Keep(dir, hs, depth), b, deep)
  {
    if hs.Header? && Deeper(dir, hs.deep, depth) {
      KeepFacts(dir, hs.next, depth);
    }
  }

  /** In an ordered chain nothing is deeper than the first block. */
  lemma {:induction false} OrderedBelow(dir: int, hs: Headers, depth: int, b: nat, deep: int)
    requires dir != 0 && Ordered(dir, hs) && hs.Header? && !Deeper(dir, hs.deep, depth) && Holds(hs, b, deep)
    ensures !Deeper(dir, deep, depth)
  {
    if !(hs.block == b && hs.deep == deep) {
      OrderedBelow(dir, hs.next, depth, b, deep);
    }
  }

  /** A live frame is not deeper than the innermost one. */
  lemma {:induction false} LiveNotDeeper(dir: int, base: int, stack: seq<Frame>, k: nat)
    requires k <= |stack|
    ensures !Deeper(dir, Probe(dir, base, stack[..k]), Probe(dir, base, stack))
  {
    DepthMonotone(stack, k);
  }

  lemma {:induction false} RequestHeld(dir: int, base: int, w: World, size: nat)
    requires Safe(dir, base, w) && w.stack != []
    ensures LiveHeld(dir, base, Next(dir, base, w, Request(size)))
  {
    var depth, w' := Probe(dir, base, w.stack), Next(dir, base, w, Request(size));
    KeepFacts(dir, w.hs, depth);
    forall k: nat, b: nat | k < |w'.stack| && b in w'.stack[k].blocks
      ensures Holds(w'.hs, b, Probe(dir, base, w'.stack[..k + 1]))
    {
      SameDepth(w.stack, w'.stack, k + 1);
      if b in w.stack[k].blocks {
        LiveNotDeeper(dir, base, w.stack, k + 1);
        assert Holds(Keep(dir, w.hs, depth), b, Probe(dir, base, w.stack[..k + 1]));
      } else {
        assert w.stack[..k + 1] == w.stack;
      }
    }
  }

  lemma {:induction false} AccountedStep(used: set<nat>, kept: set<nat>, freed: set<nat>, serial: nat)
    requires Accounted(used, freed, serial) && kept <= used
    ensures Accounted(kept, freed + (used - kept), serial)
    ensures Accounted(kept + {serial}, freed + (used - kept), serial + 1)
    ensures serial !in kept
  {
  }

  lemma {:induction false} RequestSafe(dir: int, base: int, w: World, size: nat)
    requires Safe(dir, base, w) && w.stack != []
    ensures Safe(dir, base, Next(dir, base, w, Request(size)))
  {
    var depth := Probe(dir, base, w.stack);
    var kept := Keep(dir, w.hs, depth);
    KeepFacts(dir, w.hs, depth);
    RequestHeld(dir, base, w, size);
    AccountedStep(Blocks(w.hs), Blocks(kept), w.freed, w.serial);
    var hs' := Header(depth, w.serial, kept);
    assert Blocks(hs') == Blocks(kept) + {w.serial};
  }

  lemma {:induction false} SameDepth(a: seq<Frame>, b: seq<Frame>, k: nat)
    requires k <= |a| == |b| && forall i :: 0 <= i < k ==> a[i].size == b[i].size
    ensures Depth(a[..k]) == Depth(b[..k])
  {
    if k > 0 {
      SameDepth(a, b, k - 1);
      assert a[..k][..k - 1] == a[..k - 1] && b[..k][..k - 1] == b[..k - 1];
    }
  }

  /** Every event keeps the chain ordered and every block of a live frame allocated. */
  lemma {:induction false} StepSafe(dir: int, base: int, w: World, e: Event)
    requires Safe(dir, base, w) && Possible(w, e)
    ensures Safe(dir, base, Next(dir, base, w, e))
  {
    match e {
      case Request(size) => RequestSafe(dir, base, w, size);
      case Call(size) =>
        var w' := Next(dir, base, w, e);
        forall k: nat, b: nat | k < |w'.stack| && b in w'.stack[k].blocks
          ensures Holds(w'.hs, b, Probe(dir, base, w'.stack[..k + 1]))
        {
          assert w'.stack[..k + 1] == w.stack[..k + 1];
        }
      case Return =>
        var w' := Next(dir, base, w, e);
        forall k: nat, b: nat | k < |w'.stack| && b in w'.stack[k].blocks
          ensures Holds(w'.hs, b, Probe(dir, base, w'.stack[..k + 1]))
        {
          assert w'.stack[..k + 1] == w.stack[..k + 1];
        }
    }
  }

  /** The states a program goes through. */
  ghost predicate IsTrace(dir: int, base: int, ws: seq<World>, es: seq<Event>) {
    && |ws| == |es| + 1 && ws[0] == World([], Nil, 0, {})
    && forall i: nat :: i < |es| ==> Possible(ws[i], es[i]) && ws[i + 1] == Next(dir, base, ws[i], es[i])
  }

  lemma {:induction false} TraceSafe(dir: int, base: int, ws: seq<World>, es: seq<Event>, n: nat)
    requires dir != 0 && IsTrace(dir, base, ws, es) && n < |ws|
    ensures Safe(dir, base, ws[n])
  {
    if n > 0 {
      TraceSafe(dir, base, ws, es, n - 1);
      assert Possible(ws[n - 1], es[n - 1]);
      StepSafe(dir, base, ws[n - 1], es[n - 1]);
    }
  }

  /** Whatever the program does, a block whose frame is still on the stack has not been freed. */
  lemma {:induction false} LiveNeverFreed(dir: int, base: int, ws: seq<World>, es: seq<Event>, n: nat, k: nat, b: nat)
    requires dir != 0 && IsTrace(dir, base, ws, es) && n < |ws|
    requires k < |ws[n].stack| && b in ws[n].stack[k].blocks
    ensures b in Blocks(ws[n].hs) && b !in ws[n].freed
  {
    TraceSafe(dir, base, ws, es, n);
    HeldInBlocks(ws[n].hs, b, Probe(dir, base, ws[n].stack[..k + 1]));
  }

  /** After a call to alloca no block deeper than the caller is left. */
  lemma {:induction false} NothingDeeperLeft(dir: int, base: int, ws: seq<World>, es: seq<Event>, n: nat,
                                             b: nat, deep: int)
    requires dir != 0 && IsTrace(dir, base, ws, es) && n < |es| && es[n].Request?
    requires Holds(ws[n + 1].hs, b, deep)
    ensures !Deeper(dir, deep, Probe(dir, base, ws[n].stack))
  {
    TraceSafe(dir, base, ws, es, n);
    TraceSafe(dir, base, ws, es, n + 1);
    var depth := Probe(dir, base, ws[n].stack);
    assert ws[n + 1] == Next(dir, base, ws[n], es[n]);
    KeepFacts(dir, ws[n].hs, depth);
    OrderedBelow(dir, ws[n + 1].hs, depth, b, deep);
  }
}
