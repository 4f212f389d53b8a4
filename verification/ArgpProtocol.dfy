/**
 The calls argp makes to the parsers of its groups, over whole runs.  What a parser answers, and where it moves
 the next argument to, is arbitrary: a function of all calls made so far.  So is what getopt finds.
 */
module ArgpProtocol {
  import opened Wrappers

  /** `Arg` and `Args` carry the position of the argument that is offered. */
  datatype Key = Init | Opt(key: int) | Arg(index: int) | Args(index: int) | NoArgs | End | Success | Error | Fini

  datatype Call = Call(group: nat, key: Key)

  /** No error, "not understood", or a real error. */
  datatype Err = Fine | Unknown | Failed(code: int)

  const EINVAL := 22

  datatype Reply = Reply(err: Err, next: int)

  /** What getopt returns: the end of the options (and whether it was a "--"), an error, an argument or an option. */
  datatype Found = NoMore(quote: bool) | Bad | Argument | Option(group: Option<nat>, key: int)

  /** The parsers of the program: which groups have one, what they answer, and what the command line holds. */
  datatype Program = Program(parsers: seq<bool>, reply: seq<Call> -> Reply, getopt: (seq<Call>, int) -> (Found, int),
                             argc: int, noArgs: bool)

  predicate HasParser(p: Program, g: nat) {
    g < |p.parsers| && p.parsers[g]
  }

  // ----- the order of calls

  /** The groups below `k` that have a parser and are in `only`, ascending. */
  function Up(p: Program, only: seq<bool>, k: nat): seq<nat> {
    if k == 0 then [] else Up(p, only, k - 1) + (if HasParser(p, k - 1) && Wanted(only, k - 1) then [k - 1] else [])
  }

  /** The groups below `k` that have a parser, descending. */
  function Down(p: Program, k: nat): seq<nat> {
    if k == 0 then [] else (if HasParser(p, k - 1) then [k - 1] else []) + Down(p, k - 1)
  }

  function Calls(groups: seq<nat>, key: Key): seq<Call> {
    seq(|groups|, i requires 0 <= i < |groups| => Call(groups[i], key))
  }

  predicate Wanted(only: seq<bool>, g: nat) {
    g < |only| && only[g]
  }

  function Everyone(p: Program): seq<bool> {
    seq(|p.parsers|, _ => true)
  }

  lemma {:induction false} CallsMore(done: seq<nat>, here: seq<nat>, key: Key)
    ensures Calls(done + here, key) == Calls(done, key) + Calls(here, key)
    ensures |here| == 1 ==> Calls(here, key) == [Call(here[0], key)]
  {
  }

  lemma {:induction false} DownMore(done: seq<nat>, here: seq<nat>, rest: seq<nat>)
    ensures done + (here + rest) == done + here + rest
  {
  }

  // ----- arguments consumed

  /** How many arguments an answer consumes. */
  function Gain(p: Program, key: Key, r: Reply): nat {
    if !r.err.Fine? then 0
    else if key.Arg? && r.next > key.index then r.next - key.index
    else if key.Args? && p.argc > key.index then p.argc - key.index
    else 0
  }

  /** The arguments group `g` consumed in the first `n` calls. */
  function Consumed(p: Program, log: seq<Call>, n: nat, g: nat): nat
    requires n <= |log|
  {
    if n == 0 then 0
    else Consumed(p, log, n - 1, g) + (if log[n - 1].group == g then Gain(p, log[n - 1].key, p.reply(log[..n])) else 0)
  }

  lemma {:induction false} ConsumedPrefix(p: Program, log: seq<Call>, more: seq<Call>, n: nat, g: nat)
    requires n <= |log|
    ensures Consumed(p, log + more, n, g) == Consumed(p, log, n, g)
  {
    if n > 0 {
      ConsumedPrefix(p, log, more, n - 1, g);
      assert (log + more)[..n] == log[..n];
    }
  }

  lemma {:induction false} ConsumedStep(p: Program, log: seq<Call>, c: Call, g: nat)
    ensures Consumed(p, log + [c], |log| + 1, g)
         == Consumed(p, log, |log|, g) + if c.group == g then Gain(p, c.key, p.reply(log + [c])) else 0
  {
    ConsumedPrefix(p, log, [c], |log|, g);
    assert (log + [c])[..|log| + 1] == log + [c];
  }

  /** A call that does not offer an argument consumes none. */
  predicate Quiet(key: Key) {
    !key.Arg? && !key.Args?
  }

  lemma {:induction false} QuietCalls(p: Program, log: seq<Call>, groups: seq<nat>, key: Key, g: nat)
    requires Quiet(key)
    ensures Consumed(p, log + Calls(groups, key), |log| + |groups|, g) == Consumed(p, log, |log|, g)
    decreases |groups|
  {
    if groups == [] {
      assert log + Calls(groups, key) == log;
    } else {
      var front, last := groups[..|groups| - 1], groups[|groups| - 1];
      QuietCalls(p, log, front, key, g);
      ConsumedStep(p, log + Calls(front, key), Call(last, key), g);
      assert log + Calls(groups, key) == log + Calls(front, key) + [Call(last, key)];
    }
  }

  /** The calls that offer the argument at `index` to group `g`. */
  function Offered(p: Program, log: seq<Call>, g: nat, index: int): seq<Call> {
    if !HasParser(p, g) then []
    else if p.reply(log + [Call(g, Arg(index))]).err != Unknown then [Call(g, Arg(index))]
    else [Call(g, Arg(index)), Call(g, Args(index))]
  }

  /** The calls that offer the argument to the groups from `g` on, until one knows what to do with it. */
  function Offers(p: Program, log: seq<Call>, g: nat, index: int): seq<Call>
    decreases |p.parsers| - g
  {
    if g >= |p.parsers| then []
    else
      var here := Offered(p, log, g, index);
      if here != [] && p.reply(log + here).err != Unknown then here else here + Offers(p, log + here, g + 1, index)
  }

  /** After the groups before `g`, `log` is on the way from `start` to the end of the offer. */
  predicate Offering(p: Program, start: seq<Call>, log: seq<Call>, g: nat, index: int, err: Err) {
    start + Offers(p, start, 0, index) == log + if err == Unknown then Offers(p, log, g, index) else []
  }

  /** What follows the calls to group `g` in an offer. */
  lemma {:induction false} OffersFrom(p: Program, log: seq<Call>, g: nat, index: int)
    requires g < |p.parsers|
    ensures var here := Offered(p, log, g, index);
            && (here != [] <==> HasParser(p, g))
            && Offers(p, log, g, index) == here + if here != [] && p.reply(log + here).err != Unknown then []
                                                  else Offers(p, log + here, g + 1, index)
  {
    var here := Offered(p, log, g, index);
    assert here + [] == here;
  }

  lemma {:induction false} Regrouped(x: seq<Call>, y: seq<Call>, z: seq<Call>)
    ensures x + (y + z) == x + y + z
  {
  }

  lemma {:induction false} OfferingStep(p: Program, start: seq<Call>, log: seq<Call>, g: nat, index: int)
    requires g < |p.parsers| && Offering(p, start, log, g, index, Unknown)
    ensures var after := log + Offered(p, log, g, index);
            Offering(p, start, after, g + 1, index, if HasParser(p, g) then p.reply(after).err else Unknown)
  {
    var here := Offered(p, log, g, index);
    var rest := if here != [] && p.reply(log + here).err != Unknown then [] else Offers(p, log + here, g + 1, index);
    OffersFrom(p, log, g, index);
    Regrouped(log, here, rest);
  }

  lemma {:induction false} OfferingDone(p: Program, start: seq<Call>, log: seq<Call>, g: nat, index: int, err: Err)
    requires Offering(p, start, log, g, index, err) && (g >= |p.parsers| || err != Unknown)
    ensures log == start + Offers(p, start, 0, index)
  {
    assert log + [] == log;
  }

  /** The arguments an offer makes group `h` consume: those of its last call, if that is accepted. */
  function OfferGain(p: Program, log: seq<Call>, block: seq<Call>, h: nat): nat {
    if block != [] && block[|block| - 1].group == h then Gain(p, block[|block| - 1].key, p.reply(log + block)) else 0
  }

  lemma {:induction false} OfferedConsumes(p: Program, log: seq<Call>, g: nat, index: int, h: nat)
    ensures var here := Offered(p, log, g, index);
            Consumed(p, log + here, |log + here|, h) == Consumed(p, log, |log|, h) + OfferGain(p, log, here, h)
  {
    var here := Offered(p, log, g, index);
    if here == [] {
      assert log + here == log;
    } else {
      var one := log + [Call(g, Arg(index))];
      ConsumedStep(p, log, Call(g, Arg(index)), h);
      if |here| == 2 {
        ConsumedStep(p, one, Call(g, Args(index)), h);
        assert log + here == one + [Call(g, Args(index))];
      }
    }
  }

  /** An offer that goes on has consumed nothing so far. */
  lemma {:induction false} OfferGoesOn(p: Program, log: seq<Call>, here: seq<Call>, rest: seq<Call>, h: nat)
    requires here == [] || p.reply(log + here).err == Unknown
    ensures OfferGain(p, log, here, h) == 0
    ensures OfferGain(p, log, here + rest, h) == OfferGain(p, log + here, rest, h)
  {
    Regrouped(log, here, rest);
    if rest == [] {
      assert here + rest == here;
    } else {
      assert (here + rest)[|here + rest| - 1] == rest[|rest| - 1];
    }
  }

  lemma {:induction false} OffersConsume(p: Program, log: seq<Call>, g: nat, index: int, h: nat)
    ensures var block := Offers(p, log, g, index);
            Consumed(p, log + block, |log + block|, h) == Consumed(p, log, |log|, h) + OfferGain(p, log, block, h)
    decreases |p.parsers| - g
  {
    if g >= |p.parsers| {
      assert log + [] == log;
    } else {
      var here := Offered(p, log, g, index);
      var rest := Offers(p, log + here, g + 1, index);
      OffersFrom(p, log, g, index);
      OfferedConsumes(p, log, g, index, h);
      if here == [] || p.reply(log + here).err == Unknown {
        OffersConsume(p, log + here, g + 1, index, h);
        OfferGoesOn(p, log, here, rest, h);
        Regrouped(log, here, rest);
      } else {
        assert here + [] == here;
      }
    }
  }

  /** After an offer, exactly the group that accepted has consumed arguments. */
  lemma {:induction false} OfferAccount(p: Program, start: seq<Call>, log: seq<Call>, index: int, err: Err,
                                        g: nat, key: Key, h: nat)
    requires log == start + Offers(p, start, 0, index)
    requires err == if log == start then Unknown else p.reply(log).err
    requires err != Unknown ==> |log| > |start| && log[|log| - 1] == Call(g, key)
    ensures Consumed(p, log, |log|, h)
         == Consumed(p, start, |start|, h) + if err.Fine? && h == g then Gain(p, key, p.reply(log)) else 0
    ensures err != Unknown ==> g < |p.parsers| && (key == Arg(index) || key == Args(index))
  {
    var block := Offers(p, start, 0, index);
    OffersConsume(p, start, 0, index, h);
    OffersInBody(p, start, 0, index);
    if block == [] {
      assert start + [] == start;
    } else {
      assert log[|log| - 1] == block[|block| - 1];
    }
  }

  // ----- answers to a block of calls

  /** None of the first `n` calls of a block really failed. */
  predicate NoFailure(p: Program, start: seq<Call>, calls: seq<Call>, n: nat)
    requires n <= |calls|
  {
    n == 0 || (NoFailure(p, start, calls, n - 1) && !p.reply(start + calls[..n]).err.Failed?)
  }

  lemma {:induction false} NoFailureFront(p: Program, start: seq<Call>, calls: seq<Call>, more: seq<Call>, n: nat)
    requires n <= |calls|
    ensures NoFailure(p, start, calls + more, n) == NoFailure(p, start, calls, n)
  {
    if n > 0 {
      NoFailureFront(p, start, calls, more, n - 1);
      assert (calls + more)[..n] == calls[..n];
    }
  }

  lemma {:induction false} NoFailureMore(p: Program, start: seq<Call>, calls: seq<Call>, c: Call)
    ensures NoFailure(p, start, calls + [c], |calls| + 1)
            <==> NoFailure(p, start, calls, |calls|) && !p.reply(start + calls + [c]).err.Failed?
  {
    NoFailureFront(p, start, calls, [c], |calls|);
    assert (calls + [c])[..|calls| + 1] == calls + [c];
    Regrouped(start, calls, [c]);
  }

  /** One more call of a phase. */
  lemma {:induction false} OneMoreCall(p: Program, start: seq<Call>, done: seq<nat>, g: nat, key: Key)
    ensures start + Calls(done + [g], key) == start + Calls(done, key) + [Call(g, key)]
    ensures Calls(done + [g], key) != []
    ensures NoFailure(p, start, Calls(done + [g], key), |done| + 1)
            <==> NoFailure(p, start, Calls(done, key), |done|)
                 && !p.reply(start + Calls(done, key) + [Call(g, key)]).err.Failed?
  {
    CallsMore(done, [g], key);
    NoFailureMore(p, start, Calls(done, key), Call(g, key));
    Regrouped(start, Calls(done, key), [Call(g, key)]);
  }

  /** Where the next argument is after a block of calls: where the last answer put it. */
  function NextAfter(p: Program, start: seq<Call>, calls: seq<Call>, at: int): int {
    if calls == [] then at else p.reply(start + calls).next
  }

  // ----- turns

  /** The next argument, the start of a quoted region (0 if there is none), and whether getopt is of use. */
  datatype Cursor = Cursor(next: int, quoted: int, tryGetopt: bool)

  /** One round of the main loop: what was found from `from`, the calls made for it, and their outcome. */
  datatype Turn = Turn(log: seq<Call>, from: Cursor, found: Found, seen: Cursor, calls: seq<Call>, err: Err, to: Cursor)

  /** After a "--", up to a point before which a parser may move back. */
  predicate InQuotes(c: Cursor) {
    c.quoted != 0 && c.next >= c.quoted
  }

  predicate AsksGetopt(c: Cursor) {
    c.tryGetopt && !InQuotes(c)
  }

  /** Without getopt: the argument at `at`, if there is one and arguments are wanted. */
  predicate Remains(p: Program, at: int, found: Found, next: int) {
    if at >= p.argc || p.noArgs then found.NoMore? && next == at else found == Argument && next == at + 1
  }

  /** What a turn finds: what getopt reports where getopt is asked, and otherwise the remaining argument. */
  predicate Sees(p: Program, t: Turn) {
    var c, d := t.from, t.seen;
    if AsksGetopt(c) then
      var (f, at) := p.getopt(t.log, c.next);
      if f.NoMore? then
        && !d.tryGetopt && d.quoted == (if at > 1 && f.quote then at else 0)
        && Remains(p, at, t.found, d.next)
      else t.found == f && d == Cursor(at, 0, true)
    else
      && d.tryGetopt == c.tryGetopt && d.quoted == (if InQuotes(c) then c.quoted else 0)
      && Remains(p, c.next, t.found, d.next)
  }

  /** The calls made for what was found. */
  function TurnCalls(p: Program, t: Turn): seq<Call> {
    match t.found
    case Option(g, key) => if g.Some? && HasParser(p, g.value) then [Call(g.value, Opt(key))] else []
    case Argument => Offers(p, t.log, 0, t.seen.next - 1)
    case _ => []
  }

  /** An accepted argument: all that follow are taken with it if it was offered so; moving back wants getopt. */
  function Accepted(p: Program, t: Turn): Cursor
    requires t.calls != []
  {
    var next := if t.calls[|t.calls| - 1].key.Args? then p.argc else p.reply(t.log + t.calls).next;
    Cursor(next, t.seen.quoted, t.seen.tryGetopt || next <= t.seen.next - 1)
  }

  predicate Acts(p: Program, t: Turn) {
    && t.calls == TurnCalls(p, t)
    && t.err == (if t.calls == [] then Unknown else p.reply(t.log + t.calls).err)
    && t.to == if t.found.Argument? && t.err.Fine? then Accepted(p, t)
               else Cursor(NextAfter(p, t.log, t.calls, t.seen.next - if t.found.Argument? then 1 else 0),
                           t.seen.quoted, t.seen.tryGetopt)
  }

  /** Turn `i` follows the one before it; only the last one ends the loop. */
  predicate Links(p: Program, turns: seq<Turn>, i: nat)
    requires i < |turns|
  {
    && Sees(p, turns[i]) && Acts(p, turns[i])
    && (i + 1 < |turns| ==>
          && turns[i].err.Fine?
          && turns[i + 1].log == turns[i].log + turns[i].calls
          && turns[i + 1].from == turns[i].to)
  }

  ghost predicate Chained(p: Program, start: seq<Call>, c: Cursor, turns: seq<Turn>) {
    && (turns != [] ==> turns[0].log == start && turns[0].from == c)
    && forall i: nat :: i < |turns| ==> Links(p, turns, i)
  }

  function Joined(turns: seq<Turn>, n: nat): seq<Call>
    requires n <= |turns|
  {
    if n == 0 then [] else Joined(turns, n - 1) + turns[n - 1].calls
  }

  function EndOf(c: Cursor, turns: seq<Turn>): Cursor {
    if turns == [] then c else turns[|turns| - 1].to
  }

  lemma {:induction false} JoinedFront(turns: seq<Turn>, t: Turn, n: nat)
    requires n <= |turns|
    ensures Joined(turns + [t], n) == Joined(turns, n)
  {
    if n > 0 {
      JoinedFront(turns, t, n - 1);
    }
  }

  lemma {:induction false} JoinedLog(p: Program, start: seq<Call>, c: Cursor, turns: seq<Turn>, i: nat)
    requires Chained(p, start, c, turns) && i < |turns|
    ensures turns[i].log == start + Joined(turns, i)
  {
    if i == 0 {
      assert start + [] == start;
    } else {
      JoinedLog(p, start, c, turns, i - 1);
      assert Links(p, turns, i - 1);
      Regrouped(start, Joined(turns, i - 1), turns[i - 1].calls);
    }
  }

  /** A turn that delivered an option or offered an argument. */
  lemma {:induction false} TurnDone(p: Program, t: Turn, log: seq<Call>)
    requires t.found.Argument? || t.found.Option?
    requires log == t.log + TurnCalls(p, t) && t.calls == TurnCalls(p, t)
    requires t.err == (if log == t.log then Unknown else p.reply(log).err)
    requires t.to.quoted == t.seen.quoted
    requires t.found.Option? ==> t.to.tryGetopt == t.seen.tryGetopt
                                 && t.to.next == if log == t.log then t.seen.next else p.reply(log).next
    requires t.found.Argument? && !t.err.Fine? ==>
               t.to.tryGetopt == t.seen.tryGetopt
               && t.to.next == if log == t.log then t.seen.next - 1 else p.reply(log).next
    requires t.found.Argument? && t.err.Fine? ==>
               log != t.log && t.to.next == (if log[|log| - 1].key.Args? then p.argc else p.reply(log).next)
               && t.to.tryGetopt == (t.seen.tryGetopt || t.to.next <= t.seen.next - 1)
    ensures Acts(p, t) && log == t.log + t.calls
  {
    if t.calls == [] {
      assert t.log + [] == t.log;
    } else {
      assert log[|log| - 1] == t.calls[|t.calls| - 1];
    }
  }

  /** One more turn. */
  lemma {:induction false} ChainMore(p: Program, start: seq<Call>, c: Cursor, turns: seq<Turn>, t: Turn)
    requires Chained(p, start, c, turns) && Sees(p, t) && Acts(p, t)
    requires turns != [] ==> turns[|turns| - 1].err.Fine?
    requires t.log == start + Joined(turns, |turns|) && t.from == EndOf(c, turns)
    ensures Chained(p, start, c, turns + [t])
    ensures t.log + t.calls == start + Joined(turns + [t], |turns| + 1)
  {
    var more := turns + [t];
    JoinedFront(turns, t, |turns|);
    Regrouped(start, Joined(turns, |turns|), t.calls);
    if turns == [] {
      assert start + [] == start;
    } else {
      var last := turns[|turns| - 1];
      JoinedLog(p, start, c, turns, |turns| - 1);
      Regrouped(start, Joined(turns, |turns| - 1), last.calls);
    }
    forall i: nat | i < |more| ensures Links(p, more, i) {
      if i < |turns| {
        assert Links(p, turns, i);
      }
    }
  }

  class Parser {
    const p: Program
    var next: int
    var quoted: int
    var tryGetopt: bool
    var processed: seq<nat>
    var log: seq<Call>

    /** Each group's count is what its answers consumed. */
    ghost predicate Valid()
      reads this
    {
      |processed| == |p.parsers|
      && forall g :: 0 <= g < |processed| ==> processed[g] == Consumed(p, log, |log|, g)
    }

    function Here(): Cursor
      reads this
    {
      Cursor(next, quoted, tryGetopt)
    }

    constructor (p: Program)
      ensures this.p == p && Valid() && log == [] && tryGetopt && quoted == 0 && next == 0
    {
      this.p := p;
      next, quoted, tryGetopt, log := 0, 0, true, [];
      processed := seq(|p.parsers|, _ => 0);
    }

    /** Calls the parser of a group, if it has one. */
    method GroupParse(g: nat, key: Key) returns (err: Err)
      modifies this`next, this`log
      ensures log == old(log) + if HasParser(p, g) then [Call(g, key)] else []
      ensures HasParser(p, g) ==> err == p.reply(log).err && next == p.reply(log).next
      ensures !HasParser(p, g) ==> err == Unknown && next == old(next)
    {
      if g < |p.parsers| && p.parsers[g] {
        log := log + [Call(g, key)];
        var r := p.reply(log);
        next := r.next;
        err := r.err;
      } else {
        err := Unknown;
      }
    }

    /** One more call with the same key, after those to `done`. */
    method CallNext(g: nat, key: Key, ghost start: seq<Call>, ghost at: int, ghost done: seq<nat>)
      returns (err: Err, ghost more: seq<nat>)
      requires log == start + Calls(done, key) && next == NextAfter(p, start, Calls(done, key), at)
      modifies this`next, this`log
      ensures more == done + if HasParser(p, g) then [g] else []
      ensures log == start + Calls(more, key) && next == NextAfter(p, start, Calls(more, key), at)
      ensures NoFailure(p, start, Calls(more, key), |more|)
              <==> NoFailure(p, start, Calls(done, key), |done|) && !err.Failed?
      ensures err.Failed? ==> more != [] && err == p.reply(log).err
    {
      err := GroupParse(g, key);
      more := done + if HasParser(p, g) then [g] else [];
      if HasParser(p, g) {
        OneMoreCall(p, start, done, g, key);
      } else {
        assert done + [] == done && start + Calls(done, key) + [] == start + Calls(done, key);
      }
    }

    /** Calls the groups in ascending order; with `stopping`, until one really fails. */
    method CallUp(only: seq<bool>, key: Key, stopping: bool, err0: Err) returns (err: Err, ghost done: seq<nat>)
      requires |only| == |p.parsers|
      modifies this`next, this`log
      ensures log == old(log) + Calls(done, key) && done <= Up(p, only, |p.parsers|)
      ensures !stopping || !err.Failed? ==> done == Up(p, only, |p.parsers|)
      ensures stopping && err0.Failed? ==> done == [] && err == err0
      ensures stopping && !err0.Failed? ==> (err.Failed? <==> !NoFailure(p, old(log), Calls(done, key), |done|))
      ensures stopping && err.Failed? && !err0.Failed? ==> done != [] && err == p.reply(log).err
      ensures next == NextAfter(p, old(log), Calls(done, key), old(next))
    {
      err, done := err0, [];
      assert old(log) + Calls([], key) == old(log);
      var g := 0;
      while g < |p.parsers| && (!stopping || !err.Failed?)
        invariant g <= |p.parsers| && done == Up(p, only, g)
        invariant log == old(log) + Calls(done, key) && next == NextAfter(p, old(log), Calls(done, key), old(next))
        invariant stopping && err0.Failed? ==> g == 0 && err == err0
        invariant stopping && !err0.Failed? ==> (err.Failed? <==> !NoFailure(p, old(log), Calls(done, key), |done|))
        invariant stopping && err.Failed? && !err0.Failed? ==> done != [] && err == p.reply(log).err
        decreases |p.parsers| - g
      {
        if only[g] {
          err, done := CallNext(g, key, old(log), old(next), done);
        } else {
          assert done + [] == done;
        }
        g := g + 1;
      }
      UpGrows(p, only, g, |p.parsers|);
    }

    /** The same from the last group to the first. */
    method CallDown(key: Key, stopping: bool, err0: Err) returns (err: Err, ghost done: seq<nat>)
      modifies this`next, this`log
      ensures log == old(log) + Calls(done, key) && done <= Down(p, |p.parsers|)
      ensures !stopping || !err.Failed? ==> done == Down(p, |p.parsers|)
      ensures stopping && err0.Failed? ==> done == [] && err == err0
      ensures stopping && !err0.Failed? ==> (err.Failed? <==> !NoFailure(p, old(log), Calls(done, key), |done|))
      ensures stopping && err.Failed? && !err0.Failed? ==> done != [] && err == p.reply(log).err
      ensures next == NextAfter(p, old(log), Calls(done, key), old(next))
    {
      err, done := err0, [];
      assert old(log) + Calls([], key) == old(log);
      var g: nat := |p.parsers|;
      while g > 0 && (!stopping || !err.Failed?)
        invariant g <= |p.parsers| && done + Down(p, g) == Down(p, |p.parsers|)
        invariant log == old(log) + Calls(done, key) && next == NextAfter(p, old(log), Calls(done, key), old(next))
        invariant stopping && err0.Failed? ==> g == |p.parsers| && err == err0 && done == []
        invariant stopping && !err0.Failed? ==> (err.Failed? <==> !NoFailure(p, old(log), Calls(done, key), |done|))
        invariant stopping && err.Failed? && !err0.Failed? ==> done != [] && err == p.reply(log).err
      {
        g := g - 1;
        DownMore(done, if HasParser(p, g) then [g] else [], Down(p, g));
        err, done := CallNext(g, key, old(log), old(next), done);
      }
      assert g == 0 ==> done + Down(p, g) == done;
    }

    /** The first call to each parser. */
    method Start() returns (err: Err, ghost done: seq<nat>)
      requires Valid()
      modifies this`next, this`log
      ensures Valid() && log == old(log) + Calls(done, Init) && done <= Up(p, Everyone(p), |p.parsers|)
      ensures !err.Unknown? && (err.Fine? ==> done == Up(p, Everyone(p), |p.parsers|))
      ensures err.Fine? <==> NoFailure(p, old(log), Calls(done, Init), |done|)
      ensures err.Failed? ==> done != [] && err == p.reply(log).err
      ensures next == NextAfter(p, old(log), Calls(done, Init), old(next))
    {
      err, done := CallUp(Everyone(p), Init, true, Fine);
      forall g | 0 <= g < |processed| ensures processed[g] == Consumed(p, log, |log|, g) {
        QuietCalls(p, old(log), done, Init, g);
      }
      if err.Unknown? {
        err := Fine;
      }
    }

    /** Offers an argument to one group, first by itself and then with all that follow. */
    method Offer(g: nat, index: int) returns (err: Err, key: Key)
      modifies this`next, this`log
      ensures log == old(log) + Offered(p, old(log), g, index)
      ensures if HasParser(p, g) then |log| > |old(log)| else log == old(log)
      ensures err == if HasParser(p, g) then p.reply(log).err else Unknown
      ensures err != Unknown ==> log[|log| - 1] == Call(g, key)
      ensures next == if HasParser(p, g) then p.reply(log).next else old(next)
    {
      next := next + 1;
      key := Arg(index);
      err := GroupParse(g, key);
      if err == Unknown {
        next := next - 1;
        key := Args(index);
        err := GroupParse(g, key);
        assert HasParser(p, g) ==>
          old(log) + [Call(g, Arg(index))] + [Call(g, key)] == old(log) + [Call(g, Arg(index)), Call(g, key)];
      }
    }

    /** Offers an argument to the groups in turn, until group `g` knows what to do with it. */
    method OfferAll(index: int) returns (err: Err, g: nat, key: Key)
      modifies this`next, this`log
      ensures log == old(log) + Offers(p, old(log), 0, index)
      ensures err == if log == old(log) then Unknown else p.reply(log).err
      ensures err != Unknown ==> |log| > |old(log)| && log[|log| - 1] == Call(g, key)
      ensures next == if log == old(log) then old(next) else p.reply(log).next
    {
      err, g, key := Unknown, 0, NoArgs;
      var i := 0;
      while i < |p.parsers| && err == Unknown
        invariant i <= |p.parsers| && |log| >= |old(log)|
        invariant Offering(p, old(log), log, i, index, err)
        invariant err == if log == old(log) then Unknown else p.reply(log).err
        invariant err != Unknown ==> |log| > |old(log)| && log[|log| - 1] == Call(g, key)
        invariant next == if log == old(log) then old(next) else p.reply(log).next
        decreases |p.parsers| - i
      {
        OfferingStep(p, old(log), log, i, index);
        err, key := Offer(i, index);
        g := i;
        i := i + 1;
      }
      OfferingDone(p, old(log), log, i, index, err);
    }

    /**
     Offers the argument before `next` to the groups.  The group that accepts is credited with the arguments the
     position moved over; moving it back asks for getopt again.
     */
    method ParseArg() returns (err: Err)
      requires Valid()
      modifies this`next, this`log, this`processed, this`tryGetopt
      ensures Valid() && log == old(log) + Offers(p, old(log), 0, old(next) - 1)
      ensures err == if log == old(log) then Unknown else p.reply(log).err
      ensures err.Fine? ==> log != old(log)
                            && next == (if log[|log| - 1].key.Args? then p.argc else p.reply(log).next)
                            && tryGetopt == (old(tryGetopt) || next <= old(next) - 1)
      ensures !err.Fine? ==> next == (if log == old(log) then old(next) - 1 else p.reply(log).next)
                             && tryGetopt == old(tryGetopt)
    {
      var index := next - 1;
      next := index;
      var g, key;
      err, g, key := OfferAll(index);
      OfferAccount(p, old(log), log, index, err, g, key, g);
      forall h: nat
        ensures Consumed(p, log, |log|, h) == Consumed(p, old(log), |old(log)|, h)
                  + if err.Fine? && h == g then Gain(p, key, p.reply(log)) else 0
      {
        OfferAccount(p, old(log), log, index, err, g, key, h);
      }
      if err.Fine? {
        Credit(g, key, index, old(log));
      }
    }

    /** Group `g` accepted the argument at `index`. */
    method Credit(g: nat, key: Key, index: int, ghost before: seq<Call>)
      requires |processed| == |p.parsers| && g < |processed| && (key == Arg(index) || key == Args(index))
      requires p.reply(log).err.Fine? && next == p.reply(log).next
      requires forall h :: 0 <= h < |processed| ==> processed[h] == Consumed(p, before, |before|, h)
      requires forall h :: Consumed(p, log, |log|, h)
                        == Consumed(p, before, |before|, h) + if h == g then Gain(p, key, p.reply(log)) else 0
      modifies this`next, this`processed, this`tryGetopt
      ensures Valid() && next == (if key.Args? then p.argc else old(next))
      ensures tryGetopt == (old(tryGetopt) || next <= index)
    {
      if key.Args? {
        next := p.argc;
      }
      if next > index {
        processed := processed[g := processed[g] + (next - index)];
      } else {
        tryGetopt := true;
      }
    }

    /** Hands an option to the group it was declared in. */
    method ParseOpt(group: Option<nat>, key: int) returns (err: Err)
      requires Valid()
      modifies this`next, this`log
      ensures Valid()
      ensures log == old(log) + if group.Some? && HasParser(p, group.value) then [Call(group.value, Opt(key))] else []
      ensures err == if log == old(log) then Unknown else p.reply(log).err
      ensures next == if log == old(log) then old(next) else p.reply(log).next
    {
      err := Unknown;
      if group.Some? {
        err := GroupParse(group.value, Opt(key));
        forall h: nat ensures Consumed(p, log, |log|, h) == Consumed(p, old(log), |old(log)|, h) {
          ConsumedStep(p, old(log), Call(group.value, Opt(key)), h);
          assert old(log) + [] == old(log);
        }
      }
    }

    /** What comes next: the end, an error, an argument (then `next` is after it) or an option. */
    method Look(ghost t: Turn) returns (found: Found)
      requires t.log == log && t.from == Here()
      modifies this`next, this`tryGetopt, this`quoted
      ensures Sees(p, t.(found := found, seen := Here()))
    {
      if quoted != 0 && next < quoted {
        quoted := 0;
      }
      found := NoMore(false);
      if tryGetopt && quoted == 0 {
        var r := p.getopt(log, next);
        found, next := r.0, r.1;
        if found.NoMore? {
          tryGetopt := false;
          if next > 1 && found.quote {
            quoted := next;
          }
        }
      }
      if found.NoMore? && next < p.argc && !p.noArgs {
        found := Argument;
        next := next + 1;
      }
    }

    /** The calls for an option or argument that turn `t` found. */
    method Act(found: Found, ghost t: Turn) returns (err: Err)
      requires Valid() && t.log == log && t.seen == Here() && t.found == found && (found.Argument? || found.Option?)
      modifies this`next, this`log, this`processed, this`tryGetopt
      ensures Valid() && log == old(log) + TurnCalls(p, t)
      ensures Acts(p, t.(calls := TurnCalls(p, t), err := err, to := Here()))
    {
      if found.Argument? {
        err := ParseArg();
        assert TurnCalls(p, t) == Offers(p, old(log), 0, old(next) - 1);
        TurnDone(p, t.(calls := TurnCalls(p, t), err := err, to := Here()), log);
      } else {
        err := ParseOpt(found.group, found.key);
        TurnDone(p, t.(calls := TurnCalls(p, t), err := err, to := Here()), log);
      }
    }

    /** One turn: the next option or argument; `argBad` tells whether an unknown one was an argument. */
    method ParseNext(argBad0: bool) returns (err: Err, argBad: bool, ghost t: Turn)
      requires Valid()
      modifies this`next, this`log, this`processed, this`tryGetopt, this`quoted
      ensures Valid() && t.log == old(log) && t.from == old(Here()) && Sees(p, t) && Acts(p, t)
      ensures log == old(log) + t.calls && Here() == t.to && err == t.err
      ensures argBad == if err.Unknown? then t.found.NoMore? || t.found.Argument? else argBad0
    {
      argBad := argBad0;
      ghost var begun := Turn(log, Here(), NoMore(false), Here(), [], Unknown, Here());
      var found := Look(begun);
      ghost var looked := begun.(found := found, seen := Here(), to := Here());
      if found.Bad? || found.NoMore? {
        return Unknown, found.NoMore?, looked;
      }
      err := Act(found, looked);
      if err == Unknown {
        argBad := found.Argument?;
      }
      t := looked.(calls := TurnCalls(p, looked), err := err, to := Here());
    }

    /** Options and arguments, until something ends the loop or `steps` of them are done. */
    method ParseAll(steps: nat) returns (err: Err, argBad: bool, ghost turns: seq<Turn>)
      requires Valid()
      modifies this`next, this`log, this`processed, this`tryGetopt, this`quoted
      ensures Valid() && Chained(p, old(log), old(Here()), turns)
      ensures log == old(log) + Joined(turns, |turns|) && Here() == EndOf(old(Here()), turns)
      ensures err == if turns == [] then Fine else turns[|turns| - 1].err
      ensures err.Unknown? ==> argBad == var f := turns[|turns| - 1].found; f.NoMore? || f.Argument?
      ensures err.Fine? ==> |log| >= |old(log)| + steps
    {
      err, argBad, turns := Fine, false, [];
      assert old(log) + [] == old(log);
      var i := 0;
      while err.Fine? && i < steps
        invariant i <= steps && Valid() && Chained(p, old(log), old(Here()), turns)
        invariant log == old(log) + Joined(turns, |turns|) && Here() == EndOf(old(Here()), turns)
        invariant err == if turns == [] then Fine else turns[|turns| - 1].err
        invariant err.Unknown? ==> argBad == var f := turns[|turns| - 1].found; f.NoMore? || f.Argument?
        invariant err.Fine? ==> |log| >= |old(log)| + i
        decreases steps - i
      {
        ghost var t;
        err, argBad, t := ParseNext(argBad);
        ChainMore(p, old(log), old(Here()), turns, t);
        turns := turns + [t];
        i := i + 1;
      }
    }

    /** Everything is parsed: NO_ARGS to the groups that consumed nothing, then END in reverse order. */
    method TellEnd() returns (err: Err, ghost noArgs: seq<nat>, ghost ends: seq<nat>)
      requires Valid()
      modifies this`next, this`log
      ensures log == old(log) + (Calls(noArgs, NoArgs) + Calls(ends, End))
      ensures noArgs <= Up(p, Fasting(processed), |p.parsers|) && ends <= Down(p, |p.parsers|)
      ensures ends != [] ==> noArgs == Up(p, Fasting(processed), |p.parsers|)
      ensures !err.Unknown? && (err.Failed? ==> err == p.reply(log).err)
      ensures err.Fine? ==> noArgs == Up(p, Fasting(processed), |p.parsers|) && ends == Down(p, |p.parsers|)
      ensures err.Fine? <==> EndsWell(p, old(log), noArgs, ends)
      ensures next == NextAfter(p, old(log), Calls(noArgs, NoArgs) + Calls(ends, End), old(next))
    {
      err, noArgs := CallUp(Fasting(processed), NoArgs, true, Fine);
      ghost var middle, first, at := log, err, next;
      err, ends := CallDown(End, true, err);
      Regrouped(old(log), Calls(noArgs, NoArgs), Calls(ends, End));
      if ends == [] {
        assert Calls(noArgs, NoArgs) + Calls(ends, End) == Calls(noArgs, NoArgs) && log == middle;
      }
      if err == Unknown {
        err := Fine;
      }
    }

    /** ERROR to all groups, or SUCCESS in reverse order until one fails; then FINI in reverse order. */
    method TellVerdict(err0: Err) returns (err: Err, ghost verdict: seq<nat>, ghost finis: seq<nat>)
      modifies this`next, this`log
      ensures log == old(log) + Calls(verdict, if err0.Fine? then Success else Error) + Calls(finis, Fini)
      ensures finis == Down(p, |p.parsers|) && !err.Unknown?
      ensures !err0.Fine? ==> verdict == Up(p, Everyone(p), |p.parsers|)
                              && err == if err0.Unknown? then Failed(EINVAL) else err0
      ensures err0.Fine? ==> verdict <= Down(p, |p.parsers|)
                             && (err.Fine? <==> NoFailure(p, old(log), Calls(verdict, Success), |verdict|))
                             && (err.Failed? ==> err == p.reply(old(log) + Calls(verdict, Success)).err)
      ensures err.Fine? ==> verdict == Down(p, |p.parsers|)
    {
      err := err0;
      var ignored;
      if !err.Fine? {
        ignored, verdict := CallUp(Everyone(p), Error, false, Fine);
      } else {
        err, verdict := CallDown(Success, true, err);
        if err == Unknown {
          err := Fine;
        }
      }
      ignored, finis := CallDown(Fini, false, Fine);
      if err == Unknown {
        err := Failed(EINVAL);
      }
    }

    /** NO_ARGS and END if everything is parsed; otherwise what is left goes to the caller, or is too much. */
    method Settle(err0: Err, wantIndex: bool)
      returns (err: Err, endIndex: Option<int>, ghost noArgs: seq<nat>, ghost ends: seq<nat>)
      requires Valid()
      modifies this`next, this`log
      ensures log == old(log) + (Calls(noArgs, NoArgs) + Calls(ends, End))
      ensures noArgs <= Up(p, Fasting(processed), |p.parsers|) && ends <= Down(p, |p.parsers|)
      ensures ends != [] ==> noArgs == Up(p, Fasting(processed), |p.parsers|)
      ensures noArgs + ends != [] ==> err0.Fine? && old(next) == p.argc
      ensures err.Fine? && old(next) == p.argc ==>
                noArgs == Up(p, Fasting(processed), |p.parsers|) && ends == Down(p, |p.parsers|)
      ensures err.Fine? <==> err0.Fine? && (old(next) == p.argc || wantIndex) && EndsWell(p, old(log), noArgs, ends)
      ensures !err0.Fine? ==> err == err0
      ensures err0.Fine? && old(next) != p.argc && !wantIndex ==> err == Unknown
      ensures err0.Fine? && old(next) == p.argc && !err.Fine? ==> err.Failed? && err == p.reply(log).err
      ensures endIndex == if err0.Fine? && wantIndex
                          then Some(NextAfter(p, old(log), Calls(noArgs, NoArgs) + Calls(ends, End), old(next)))
                          else None
    {
      err, endIndex, noArgs, ends := err0, None, [], [];
      assert Calls([], NoArgs) + Calls([], End) == [] && old(log) + [] == old(log);
      if err.Fine? {
        if next == p.argc {
          err, noArgs, ends := TellEnd();
          endIndex := if wantIndex then Some(next) else None;
        } else if wantIndex {
          endIndex := Some(next);
        } else {
          err := Unknown;
        }
      }
    }

    /** The last calls; `told` lists them by phase. */
    method Finalize(err0: Err, argBad: bool, wantIndex: bool)
      returns (err: Err, endIndex: Option<int>, ghost told: Phases)
      requires Valid()
      modifies this`next, this`log
      ensures log == old(log) + Flat(told) && Orderly(p, told, processed)
      ensures Concludes(p, old(log), old(next), err0, argBad, wantIndex, told, err, endIndex)
    {
      err := err0;
      if err == Unknown && argBad {
        err := Fine;
      }
      ghost var noArgs, ends, verdict, finis;
      err, endIndex, noArgs, ends := Settle(err, wantIndex);
      ghost var failed := !err.Fine?;
      err, verdict, finis := TellVerdict(err);
      told := Phases(noArgs, ends, failed, verdict, finis);
      Regroup(old(log), told);
    }

    /** A whole run.  It ends, unless the parsers have been called `steps` times and more; so a run of any
        number of calls is complete for a large enough bound. */
    method Parse(steps: nat, wantIndex: bool) returns (finished: bool, err: Err, endIndex: Option<int>, ghost run: Run)
      requires Valid() && log == [] && Here() == Cursor(0, 0, true)
      modifies this
      ensures if run.Refused? then finished && log == Calls(run.inits, Init)
                                   && run.inits <= Up(p, Everyone(p), |p.parsers|)
              else finished ==> Complete(p, log, run)
      ensures run.Refused? ==> run.inits != [] && err.Failed? && err == p.reply(log).err
      ensures run.Ran? ==> NoFailure(p, [], Inits(p), |Inits(p)|)
      ensures !finished ==> |log| >= steps
      ensures finished ==> (err.Fine? <==> Succeeds(p, run, wantIndex)) && !err.Unknown?
      ensures finished ==> endIndex == Remaining(p, run, wantIndex)
    {
      finished, endIndex := true, None;
      ghost var inits;
      err, inits := Start();
      if err.Failed? {
        run := Refused(inits);
        return;
      }
      err, finished, endIndex, run := Continue(steps, wantIndex);
    }

    /** The rest of a run whose parsers have all been initialised. */
    method Continue(steps: nat, wantIndex: bool)
      returns (err: Err, finished: bool, endIndex: Option<int>, ghost run: Run)
      requires Valid() && log == Inits(p) && Here() == Cursor(NextAfter(p, [], Inits(p), 0), 0, true)
      modifies this
      ensures run.Ran? && (finished ==> Complete(p, log, run)) && (!finished ==> |log| >= steps)
      ensures finished ==> (err.Fine? <==> Succeeds(p, run, wantIndex)) && !err.Unknown?
      ensures finished ==> endIndex == Remaining(p, run, wantIndex)
    {
      var argBad;
      ghost var turns;
      err, argBad, turns := ParseAll(steps);
      run := Ran(turns, Phases([], [], false, [], []));
      if err.Fine? {
        return err, false, None, run;
      }
      ghost var before, at, first, eaten := log, next, err, processed;
      BodyCalls(p, Inits(p), old(Here()), turns, |turns|);
      assert before == Before(p, run) && eaten == Eaten(p, run);
      ghost var told;
      err, endIndex, told := Finalize(err, argBad, wantIndex);
      finished, run := true, Ran(turns, told);
      RunConcludes(p, run, first, argBad, wantIndex, err, endIndex);
    }
  }

  /** The outcome of a run, from the outcome of its last turn and of its last calls. */
  lemma {:induction false} RunConcludes(p: Program, run: Run, first: Err, argBad: bool, wantIndex: bool,
                                        err: Err, endIndex: Option<int>)
    requires run.Ran? && run.turns != [] && first == run.turns[|run.turns| - 1].err && !first.Fine?
    requires first.Unknown? ==> argBad == var f := run.turns[|run.turns| - 1].found; f.NoMore? || f.Argument?
    requires Concludes(p, Before(p, run), run.turns[|run.turns| - 1].to.next, first, argBad, wantIndex,
                       run.told, err, endIndex)
    ensures (err.Fine? <==> Succeeds(p, run, wantIndex)) && endIndex == Remaining(p, run, wantIndex)
  {
  }

  /** NO_ARGS and END went without a failure. */
  predicate EndsWell(p: Program, start: seq<Call>, noArgs: seq<nat>, ends: seq<nat>) {
    && NoFailure(p, start, Calls(noArgs, NoArgs), |noArgs|)
    && NoFailure(p, start + Calls(noArgs, NoArgs), Calls(ends, End), |ends|)
  }

  /** The error that is returned and the position that is reported, from what the last calls were answered. */
  ghost predicate Concludes(p: Program, start: seq<Call>, at: int, err0: Err, argBad: bool, wantIndex: bool,
                            told: Phases, err: Err, endIndex: Option<int>) {
    var all := Calls(told.noArgs, NoArgs) + Calls(told.ends, End);
    && !err.Unknown?
    && (err.Fine? <==> Calm(err0, argBad) && (at == p.argc || wantIndex)
                       && EndsWell(p, start, told.noArgs, told.ends)
                       && NoFailure(p, start + all, Calls(told.verdict, Success), |told.verdict|))
    && (told.failed <==> !Calm(err0, argBad) || !(at == p.argc || wantIndex)
                         || !EndsWell(p, start, told.noArgs, told.ends))
    && (told.noArgs + told.ends != [] ==> Calm(err0, argBad) && at == p.argc)
    && (err.Fine? ==> told.verdict == Down(p, |p.parsers|))
    && (err0.Failed? ==> err == err0)
    && (!err0.Failed? && (!Calm(err0, argBad) || !(at == p.argc || wantIndex)) ==> err == Failed(EINVAL))
    && (Calm(err0, argBad) && at == p.argc && told.failed ==> err == p.reply(start + all).err)
    && (!told.failed && err.Failed? ==> err == p.reply(start + all + Calls(told.verdict, Success)).err)
    && endIndex == (if Calm(err0, argBad) && wantIndex then Some(NextAfter(p, start, all, at)) else None)
  }

  /** A run: refused by a parser at the start, or turns for options and arguments followed by the last calls. */
  datatype Run = Refused(inits: seq<nat>) | Ran(turns: seq<Turn>, told: Phases)

  /** The first call to each group. */
  function Inits(p: Program): seq<Call> {
    Calls(Up(p, Everyone(p), |p.parsers|), Init)
  }

  /** The calls for options and arguments. */
  function Body(run: Run): seq<Call>
    requires run.Ran?
  {
    Joined(run.turns, |run.turns|)
  }

  /** The calls before the last ones. */
  function Before(p: Program, run: Run): seq<Call>
    requires run.Ran?
  {
    Inits(p) + Body(run)
  }

  /** What each group had consumed before the last calls. */
  function Eaten(p: Program, run: Run): seq<nat>
    requires run.Ran?
  {
    seq(|p.parsers|, g requires 0 <= g < |p.parsers| => Consumed(p, Before(p, run), |Before(p, run)|, g))
  }

  /** A run that ended: INIT to all, turns of which only the last was not accepted, and the last calls in order. */
  ghost predicate Complete(p: Program, log: seq<Call>, run: Run) {
    && run.Ran? && run.turns != []
    && log == Before(p, run) + Flat(run.told)
    && Chained(p, Inits(p), Cursor(NextAfter(p, [], Inits(p), 0), 0, true), run.turns)
    && !run.turns[|run.turns| - 1].err.Fine?
    && (forall k :: 0 <= k < |Body(run)| ==> InBody(Body(run)[k].key) && HasParser(p, Body(run)[k].group))
    && Orderly(p, run.told, Eaten(p, run))
  }

  /** The loop ended because nothing was left, or with an argument nobody wanted. */
  predicate EndsCalmly(run: Run) {
    run.Ran? && run.turns != [] &&
    var last := run.turns[|run.turns| - 1]; last.err.Unknown? && (last.found.NoMore? || last.found.Argument?)
  }

  /** Nothing failed from the first call to the last, and all arguments were parsed or the caller takes the rest. */
  predicate Succeeds(p: Program, run: Run, wantIndex: bool) {
    && EndsCalmly(run)
    && (run.turns[|run.turns| - 1].to.next == p.argc || wantIndex)
    && EndsWell(p, Before(p, run), run.told.noArgs, run.told.ends)
    && NoFailure(p, Before(p, run) + (Calls(run.told.noArgs, NoArgs) + Calls(run.told.ends, End)),
                 Calls(run.told.verdict, Success), |run.told.verdict|)
  }

  /** The position reported to the caller: where the last answer before the verdict left it. */
  function Remaining(p: Program, run: Run, wantIndex: bool): Option<int> {
    if EndsCalmly(run) && wantIndex
    then Some(NextAfter(p, Before(p, run), Calls(run.told.noArgs, NoArgs) + Calls(run.told.ends, End),
                        run.turns[|run.turns| - 1].to.next))
    else None
  }

  /** The calls of the turns are all for options and arguments. */
  lemma {:induction false} BodyCalls(p: Program, start: seq<Call>, c: Cursor, turns: seq<Turn>, n: nat)
    requires Chained(p, start, c, turns) && n <= |turns|
    ensures forall k :: 0 <= k < |Joined(turns, n)| ==>
              InBody(Joined(turns, n)[k].key) && HasParser(p, Joined(turns, n)[k].group)
  {
    if n > 0 {
      BodyCalls(p, start, c, turns, n - 1);
      var t := turns[n - 1];
      assert Links(p, turns, n - 1);
      OffersInBody(p, t.log, 0, t.seen.next - 1);
    }
  }

  /** Nothing really failed: at most an argument was not recognised. */
  predicate Calm(err: Err, argBad: bool) {
    err.Fine? || (err.Unknown? && argBad)
  }

  lemma {:induction false} Regroup(log: seq<Call>, t: Phases)
    ensures log + (Calls(t.noArgs, NoArgs) + Calls(t.ends, End))
            + Calls(t.verdict, if t.failed then Error else Success) + Calls(t.finis, Fini) == log + Flat(t)
  {
  }

  /** The groups called in each phase at the end, in order; `failed` tells whether they were told ERROR. */
  datatype Phases = Phases(noArgs: seq<nat>, ends: seq<nat>, failed: bool, verdict: seq<nat>, finis: seq<nat>)

  function Flat(t: Phases): seq<Call> {
    Calls(t.noArgs, NoArgs) + Calls(t.ends, End) + Calls(t.verdict, if t.failed then Error else Success)
    + Calls(t.finis, Fini)
  }

  /** The groups with a parser that consumed nothing. */
  function Fasting(processed: seq<nat>): seq<bool> {
    seq(|processed|, g requires 0 <= g < |processed| => processed[g] == 0)
  }

  ghost predicate Orderly(p: Program, t: Phases, processed: seq<nat>) {
    && t.noArgs <= Up(p, Fasting(processed), |p.parsers|)
    && t.ends <= Down(p, |p.parsers|)
    && t.finis == Down(p, |p.parsers|)
    && (if t.failed then t.verdict == Up(p, Everyone(p), |p.parsers|) else t.verdict <= Down(p, |p.parsers|))
    && (t.ends != [] ==> t.noArgs == Up(p, Fasting(processed), |p.parsers|))
    && (!t.failed ==> (t.noArgs == [] && t.ends == [])
                      || (t.noArgs == Up(p, Fasting(processed), |p.parsers|) && t.ends == Down(p, |p.parsers|)))
  }

  /** Calls made while options and arguments are parsed. */
  predicate InBody(key: Key) {
    key.Opt? || key.Arg? || key.Args?
  }

  lemma {:induction false} OffersInBody(p: Program, log: seq<Call>, g: nat, index: int)
    ensures forall i :: 0 <= i < |Offers(p, log, g, index)| ==>
              var c := Offers(p, log, g, index)[i];
              (c.key == Arg(index) || c.key == Args(index)) && HasParser(p, c.group) && g <= c.group
    decreases |p.parsers| - g
  {
    if g < |p.parsers| {
      var here := Offered(p, log, g, index);
      OffersInBody(p, log + here, g + 1, index);
    }
  }

  lemma {:induction false} UpGrows(p: Program, only: seq<bool>, g: nat, k: nat)
    requires g <= k
    ensures Up(p, only, g) <= Up(p, only, k)
  {
    if g < k {
      UpGrows(p, only, g, k - 1);
    }
  }

  // ----- what one group sees

  /** The keys group `g` is called with in the first `n` calls. */
  function Keys(log: seq<Call>, n: nat, g: nat): seq<Key>
    requires n <= |log|
  {
    if n == 0 then [] else Keys(log, n - 1, g) + if log[n - 1].group == g then [log[n - 1].key] else []
  }

  function AllKeys(log: seq<Call>, g: nat): seq<Key> {
    Keys(log, |log|, g)
  }

  lemma {:induction false} KeysFront(xs: seq<Call>, ys: seq<Call>, n: nat, g: nat)
    requires n <= |xs|
    ensures Keys(xs + ys, n, g) == Keys(xs, n, g)
  {
    if n > 0 {
      KeysFront(xs, ys, n - 1, g);
    }
  }

  lemma {:induction false} KeysBoth(xs: seq<Call>, ys: seq<Call>, n: nat, g: nat)
    requires n <= |ys|
    ensures Keys(xs + ys, |xs| + n, g) == AllKeys(xs, g) + Keys(ys, n, g)
  {
    if n > 0 {
      KeysBoth(xs, ys, n - 1, g);
      assert (xs + ys)[|xs| + n - 1] == ys[n - 1];
    } else {
      KeysFront(xs, ys, |xs|, g);
    }
  }

  lemma {:induction false} KeysConcat(xs: seq<Call>, ys: seq<Call>, g: nat)
    ensures AllKeys(xs + ys, g) == AllKeys(xs, g) + AllKeys(ys, g)
  {
    KeysBoth(xs, ys, |ys|, g);
  }

  predicate Distinct(s: seq<nat>) {
    forall i, j :: 0 <= i < j < |s| ==> s[i] != s[j]
  }

  /** `g` is among the first `n` groups. */
  predicate Among(groups: seq<nat>, n: nat, g: nat)
    requires n <= |groups|
  {
    n > 0 && (groups[n - 1] == g || Among(groups, n - 1, g))
  }

  lemma {:induction false} AmongWhere(groups: seq<nat>, n: nat, g: nat)
    requires n <= |groups|
    ensures Among(groups, n, g) <==> exists i :: 0 <= i < n && groups[i] == g
  {
    if n > 0 {
      AmongWhere(groups, n - 1, g);
    }
  }

  lemma {:induction false} KeysOfCalls(groups: seq<nat>, key: Key, n: nat, g: nat)
    requires Distinct(groups) && n <= |groups|
    ensures Keys(Calls(groups, key), n, g) == Once(Among(groups, n, g), key)
  {
    if n > 0 {
      KeysOfCalls(groups, key, n - 1, g);
      AmongWhere(groups, n - 1, g);
      assert Calls(groups, key)[n - 1] == Call(groups[n - 1], key);
    }
  }

  lemma {:induction false} CallsSeen(groups: seq<nat>, key: Key, g: nat)
    requires Distinct(groups)
    ensures AllKeys(Calls(groups, key), g) == Once(g in groups, key)
  {
    KeysOfCalls(groups, key, |groups|, g);
    AmongWhere(groups, |groups|, g);
  }

  function Once(b: bool, key: Key): seq<Key> {
    if b then [key] else []
  }

  /** Ascending order: exactly the wanted groups with a parser. */
  lemma {:induction false} UpMember(p: Program, only: seq<bool>, k: nat, g: nat)
    ensures g in Up(p, only, k) <==> g < k && HasParser(p, g) && Wanted(only, g)
  {
    if k > 0 {
      UpMember(p, only, k - 1, g);
    }
  }

  lemma {:induction false} UpAscends(p: Program, only: seq<bool>, k: nat)
    ensures forall i {:trigger Up(p, only, k)[i]} :: 0 <= i < |Up(p, only, k)| ==> Up(p, only, k)[i] < k
    ensures forall i, j :: 0 <= i < j < |Up(p, only, k)| ==> Up(p, only, k)[i] < Up(p, only, k)[j]
  {
    if k > 0 {
      UpAscends(p, only, k - 1);
    }
  }

  /** Descending order: exactly the groups with a parser. */
  lemma {:induction false} DownMember(p: Program, k: nat, g: nat)
    ensures g in Down(p, k) <==> g < k && HasParser(p, g)
  {
    if k > 0 {
      DownMember(p, k - 1, g);
    }
  }

  lemma {:induction false} DownDescends(p: Program, k: nat)
    ensures forall i {:trigger Down(p, k)[i]} :: 0 <= i < |Down(p, k)| ==> Down(p, k)[i] < k
    ensures forall i, j :: 0 <= i < j < |Down(p, k)| ==> Down(p, k)[i] > Down(p, k)[j]
  {
    if k > 0 {
      DownDescends(p, k - 1);
    }
  }

  lemma {:induction false} KeysInBody(log: seq<Call>, n: nat, g: nat)
    requires n <= |log| && forall k :: 0 <= k < |log| ==> InBody(log[k].key)
    ensures forall i :: 0 <= i < |Keys(log, n, g)| ==> InBody(Keys(log, n, g)[i])
  {
    if n > 0 {
      KeysInBody(log, n - 1, g);
    }
  }

  /** No group is called twice in a phase. */
  lemma {:induction false} OrderlyDistinct(p: Program, t: Phases, eaten: seq<nat>)
    requires Orderly(p, t, eaten)
    ensures Distinct(t.noArgs) && Distinct(t.ends) && Distinct(t.verdict) && Distinct(t.finis)
  {
    UpAscends(p, Fasting(eaten), |p.parsers|);
    UpAscends(p, Everyone(p), |p.parsers|);
    DownDescends(p, |p.parsers|);
  }

  lemma {:induction false} FlatSeen(p: Program, t: Phases, eaten: seq<nat>, g: nat)
    requires Orderly(p, t, eaten) && HasParser(p, g)
    ensures AllKeys(Flat(t), g) == LastKeys(t, g)
  {
    OrderlyDistinct(p, t, eaten);
    DownMember(p, |p.parsers|, g);
    CallsSeen(t.noArgs, NoArgs, g);
    CallsSeen(t.ends, End, g);
    CallsSeen(t.verdict, if t.failed then Error else Success, g);
    CallsSeen(t.finis, Fini, g);
    var a, b, c := Calls(t.noArgs, NoArgs), Calls(t.ends, End), Calls(t.verdict, if t.failed then Error else Success);
    KeysConcat(a, b, g);
    KeysConcat(a + b, c, g);
    KeysConcat(a + b + c, Calls(t.finis, Fini), g);
  }

  /** What a group is told at the end: each phase at most once, FINI always. */
  function LastKeys(t: Phases, g: nat): seq<Key> {
    Once(g in t.noArgs, NoArgs) + Once(g in t.ends, End)
    + Once(g in t.verdict, if t.failed then Error else Success) + [Fini]
  }

  lemma {:induction false} FirstSeen(p: Program, run: Run, g: nat)
    requires run.Ran? && HasParser(p, g)
    ensures AllKeys(Before(p, run), g) == [Init] + AllKeys(Body(run), g)
  {
    var inits := Up(p, Everyone(p), |p.parsers|);
    UpMember(p, Everyone(p), |p.parsers|, g);
    UpAscends(p, Everyone(p), |p.parsers|);
    CallsSeen(inits, Init, g);
    KeysConcat(Calls(inits, Init), Body(run), g);
  }

  /** NO_ARGS goes to the groups that consumed nothing, and to all of them before the first END. */
  lemma {:induction false} FastingSeen(p: Program, run: Run, g: nat)
    requires run.Ran? && HasParser(p, g) && Orderly(p, run.told, Eaten(p, run))
    ensures g in run.told.noArgs ==> Consumed(p, Before(p, run), |Before(p, run)|, g) == 0
    ensures run.told.ends != [] && g !in run.told.noArgs ==> Consumed(p, Before(p, run), |Before(p, run)|, g) > 0
    ensures run.told.failed ==> g in run.told.verdict
  {
    UpMember(p, Fasting(Eaten(p, run)), |p.parsers|, g);
    UpMember(p, Everyone(p), |p.parsers|, g);
  }

  /**
   The protocol, for every behaviour of the parsers: a group with a parser sees INIT, then options and
   arguments, NO_ARGS only if it consumed no argument and only before END, at most one of SUCCESS and ERROR
   (ERROR reaches everyone), and FINI once at the end.
   */
  lemma {:induction false} GroupSees(p: Program, log: seq<Call>, run: Run, g: nat)
    requires Complete(p, log, run) && HasParser(p, g)
    ensures AllKeys(log, g) == [Init] + AllKeys(Body(run), g) + LastKeys(run.told, g)
    ensures forall i :: 0 <= i < |AllKeys(Body(run), g)| ==> InBody(AllKeys(Body(run), g)[i])
    ensures g in run.told.noArgs ==> Consumed(p, Before(p, run), |Before(p, run)|, g) == 0
    ensures run.told.ends != [] && g !in run.told.noArgs ==> Consumed(p, Before(p, run), |Before(p, run)|, g) > 0
    ensures run.told.failed ==> g in run.told.verdict
  {
    KeysInBody(Body(run), |Body(run)|, g);
    FirstSeen(p, run, g);
    FlatSeen(p, run.told, Eaten(p, run), g);
    KeysConcat(Before(p, run), Flat(run.told), g);
    FastingSeen(p, run, g);
  }

  // ----- what a run is made of

  /** An option is only delivered where getopt is asked and reports it, to the group it was reported for. */
  lemma {:induction false} OptionCall(p: Program, start: seq<Call>, c: Cursor, turns: seq<Turn>, i: nat, k: nat)
    requires Chained(p, start, c, turns) && i < |turns| && k < |turns[i].calls| && turns[i].calls[k].key.Opt?
    ensures AsksGetopt(turns[i].from) && |turns[i].calls| == 1
    ensures p.getopt(turns[i].log, turns[i].from.next).0
         == Option(Some(turns[i].calls[k].group), turns[i].calls[k].key.key)
  {
    assert Links(p, turns, i);
    OffersInBody(p, turns[i].log, 0, turns[i].seen.next - 1);
  }

  /** An argument that is offered was reported by getopt, or is the next one where getopt has nothing to say. */
  lemma {:induction false} ArgumentCall(p: Program, start: seq<Call>, c: Cursor, turns: seq<Turn>, i: nat, k: nat)
    requires Chained(p, start, c, turns) && i < |turns| && k < |turns[i].calls| && !turns[i].calls[k].key.Opt?
    ensures turns[i].calls[k].key.Arg? || turns[i].calls[k].key.Args?
    ensures var index, from := turns[i].calls[k].key.index, turns[i].from;
            var (f, at) := p.getopt(turns[i].log, from.next);
            || (AsksGetopt(from) && f.Argument? && index == at - 1)
            || (AsksGetopt(from) && f.NoMore? && index == at < p.argc && !p.noArgs)
            || (!AsksGetopt(from) && index == from.next < p.argc && !p.noArgs)
  {
    assert Links(p, turns, i);
    OffersInBody(p, turns[i].log, 0, turns[i].seen.next - 1);
  }

  /** Until getopt has reported the end, it is always asked. */
  lemma {:induction false} StillAsking(p: Program, start: seq<Call>, c: Cursor, turns: seq<Turn>, i: nat)
    requires Chained(p, start, c, turns) && c.tryGetopt && c.quoted == 0 && i < |turns|
    requires forall j: nat :: j < i ==> !p.getopt(turns[j].log, turns[j].from.next).0.NoMore?
    ensures turns[i].from.tryGetopt && turns[i].from.quoted == 0
  {
    if i > 0 {
      StillAsking(p, start, c, turns, i - 1);
      assert Links(p, turns, i - 1);
    }
  }

  /** So every turn up to the end of the options is what getopt reports: an option goes to its group, by one call. */
  lemma {:induction false} ReportsDelivered(p: Program, start: seq<Call>, c: Cursor, turns: seq<Turn>, i: nat)
    requires Chained(p, start, c, turns) && c.tryGetopt && c.quoted == 0 && i < |turns|
    requires forall j: nat :: j <= i ==> !p.getopt(turns[j].log, turns[j].from.next).0.NoMore?
    ensures var (f, at) := p.getopt(turns[i].log, turns[i].from.next);
            && (f.Option? && f.group.Some? && HasParser(p, f.group.value) ==>
                  turns[i].calls == [Call(f.group.value, Opt(f.key))])
            && (f.Argument? ==> turns[i].calls == Offers(p, turns[i].log, 0, at - 1))
            && (f.Bad? ==> turns[i].calls == [] && i + 1 == |turns|)
  {
    StillAsking(p, start, c, turns, i);
    assert Links(p, turns, i);
  }

  /** The turn at which getopt reports the end leaves it unwanted; a "--" starts a quoted region there. */
  lemma {:induction false} EndReported(p: Program, start: seq<Call>, c: Cursor, turns: seq<Turn>, i: nat)
    requires Chained(p, start, c, turns) && i < |turns| && AsksGetopt(turns[i].from)
    requires p.getopt(turns[i].log, turns[i].from.next).0.NoMore?
    ensures var (f, at) := p.getopt(turns[i].log, turns[i].from.next);
            && (turns[i].to.tryGetopt ==> turns[i].to.next < turns[i].seen.next)
            && turns[i].to.quoted == if f.quote && at > 1 then at else 0
  {
    assert Links(p, turns, i);
  }

  /** In a quoted region the arguments are offered one after the other, without asking getopt. */
  lemma {:induction false} QuotedArguments(p: Program, start: seq<Call>, c: Cursor, turns: seq<Turn>,
                                           i: nat, k: nat, q: int)
    requires Chained(p, start, c, turns) && i < k < |turns| && AsksGetopt(turns[i].from) && q > 1
    requires p.getopt(turns[i].log, turns[i].from.next) == (NoMore(true), q)
    requires forall j: nat :: i < j <= k ==> turns[j].from.next >= q
    ensures turns[k].from.quoted == q && !AsksGetopt(turns[k].from)
    ensures turns[k].from.next < p.argc && !p.noArgs ==>
              turns[k].calls == Offers(p, turns[k].log, 0, turns[k].from.next)
    decreases k
  {
    assert Links(p, turns, k - 1) && Links(p, turns, k);
    if k - 1 > i {
      QuotedArguments(p, start, c, turns, i, k - 1, q);
    }
  }

  /** After the end of the options too, as long as no parser moves back over the argument it was offered. */
  lemma {:induction false} RestOffered(p: Program, start: seq<Call>, c: Cursor, turns: seq<Turn>, i: nat, k: nat)
    requires Chained(p, start, c, turns) && i < k < |turns| && AsksGetopt(turns[i].from)
    requires p.getopt(turns[i].log, turns[i].from.next).0.NoMore?
    requires forall j: nat :: i <= j < k ==> turns[j].to.next >= turns[j].seen.next
    ensures !turns[k].from.tryGetopt
    ensures turns[k].from.next < p.argc && !p.noArgs ==>
              turns[k].calls == Offers(p, turns[k].log, 0, turns[k].from.next)
    decreases k
  {
    assert Links(p, turns, k - 1) && Links(p, turns, k);
    if k - 1 > i {
      RestOffered(p, start, c, turns, i, k - 1);
    }
  }

  /** A parser that moves back over the argument it accepted has getopt asked again, outside a quoted region. */
  lemma {:induction false} MovingBackAsks(p: Program, start: seq<Call>, c: Cursor, turns: seq<Turn>, i: nat)
    requires Chained(p, start, c, turns) && i + 1 < |turns| && turns[i].found.Argument?
    requires turns[i].to.next < turns[i].seen.next && !InQuotes(turns[i].to)
    ensures AsksGetopt(turns[i + 1].from)
  {
    assert Links(p, turns, i);
  }

  // ----- what an offer is made of

  /** The offer to one group: ARG, and after "not understood" ARGS. */
  lemma {:induction false} OneOffer(p: Program, log: seq<Call>, g: nat, index: int)
    ensures var here := Offered(p, log, g, index);
            here == [] || here == [Call(g, Arg(index))] || here == [Call(g, Arg(index)), Call(g, Args(index))]
    ensures |Offered(p, log, g, index)| == 2 ==> p.reply(log + [Call(g, Arg(index))]).err == Unknown
    ensures |Offered(p, log, g, index)| == 1 ==> p.reply(log + [Call(g, Arg(index))]).err != Unknown
  {
  }

  /** Call `i` of a block that offers an argument: only the last call may be understood, and ARGS comes right after
      ARG to the same group. */
  predicate InOrder(p: Program, log: seq<Call>, block: seq<Call>, index: int, i: nat)
    requires i < |block|
  {
    && (i + 1 < |block| ==> p.reply(log + block[..i + 1]).err == Unknown)
    && (block[i].key == Args(index) ==> i > 0 && block[i - 1] == Call(block[i].group, Arg(index)))
    && (block[i].key == Arg(index) && i + 1 < |block| ==> block[i + 1] == Call(block[i].group, Args(index)))
  }

  lemma {:induction false} InOrderLater(p: Program, log: seq<Call>, here: seq<Call>, rest: seq<Call>,
                                        index: int, i: nat)
    requires i < |rest| && InOrder(p, log + here, rest, index, i)
    ensures InOrder(p, log, here + rest, index, |here| + i)
  {
    assert (here + rest)[..|here| + i + 1] == here + rest[..i + 1];
    Regrouped(log, here, rest[..i + 1]);
  }

  lemma {:induction false} InOrderHere(p: Program, log: seq<Call>, g: nat, index: int, i: nat)
    requires g < |p.parsers| && i < |Offered(p, log, g, index)|
    ensures i < |Offers(p, log, g, index)| && InOrder(p, log, Offers(p, log, g, index), index, i)
  {
    var here, block := Offered(p, log, g, index), Offers(p, log, g, index);
    OneOffer(p, log, g, index);
    OffersFrom(p, log, g, index);
    assert block[..i + 1] == here[..i + 1];
    if i == 0 {
      assert here[..1] == [Call(g, Arg(index))];
    } else {
      assert here[..2] == here;
    }
  }

  /** Each call of an offer before the last was not understood, and ARGS comes right after ARG to the same group. */
  lemma {:induction false} OfferOrder(p: Program, log: seq<Call>, g: nat, index: int, i: nat)
    requires i < |Offers(p, log, g, index)|
    ensures InOrder(p, log, Offers(p, log, g, index), index, i)
    decreases |p.parsers| - g
  {
    var here := Offered(p, log, g, index);
    OffersFrom(p, log, g, index);
    if i < |here| {
      InOrderHere(p, log, g, index, i);
    } else {
      var rest := Offers(p, log + here, g + 1, index);
      assert Offers(p, log, g, index) == here + rest;
      OfferOrder(p, log + here, g + 1, index, i - |here|);
      InOrderLater(p, log, here, rest, index, i - |here|);
    }
  }

  /** Some answer before the first `n` calls accepted an argument and moved over it. */
  ghost predicate TookSome(p: Program, log: seq<Call>, n: nat, g: nat)
    requires n <= |log|
  {
    exists k: nat :: k < n && log[k].group == g && p.reply(log[..k + 1]).err.Fine? &&
      ((log[k].key.Arg? && p.reply(log[..k + 1]).next > log[k].key.index)
       || (log[k].key.Args? && p.argc > log[k].key.index))
  }

  /** A group has consumed nothing exactly when it never accepted an argument and moved over it. */
  lemma {:induction false} ConsumedNothing(p: Program, log: seq<Call>, n: nat, g: nat)
    requires n <= |log|
    ensures Consumed(p, log, n, g) == 0 <==> !TookSome(p, log, n, g)
  {
    if n > 0 {
      ConsumedNothing(p, log, n - 1, g);
    }
  }
}
