/**
 What the shell bypass guarantees: its answer is the shell's own splitting of the line, and quoted command
 lines come back word for word.
 */
module ShellProperties {
  import opened Wrappers
  import opened Shell

  // ----- the bypass refines the POSIX tokenizer

  /** Inside a double-quoted string backslashes only escape what they can escape in a shell, and the only spaces
      between words are blanks. */
  predicate Ordinary(s: string) {
    && (forall n: nat :: n < |s| ==> OrdinaryPosition(s, n))
    && (After(Tool, s, |s|).Lexer? ==> !After(Tool, s, |s|).mode.Escaped?)
  }

  predicate OrdinaryPosition(s: string, n: nat)
    requires n < |s|
  {
    OrdinaryAt(After(Tool, s, n), s[n])
  }

  predicate OrdinaryAt(l: Lexer, c: char) {
    l.Lexer? ==>
      && (l.mode.Escaped? ==> IsEscapable(c))
      && (l.mode.Plain? && IsOddSpace(c) ==> c != '\n' && l.word.Some?)
  }

  /** A word of digits only ends with a digit. */
  predicate DigitsEnd(l: Lexer) {
    l.Lexer? && l.word.Some? && l.number ==> l.mode.Plain? && l.afterDigit
  }

  lemma {:induction false} DigitsEndStep(d: Dialect, l: Lexer, c: char)
    requires DigitsEnd(l)
    ensures DigitsEnd(Step(d, l, c))
  {
  }

  /** One character leaves the two dialects together exactly when it is ordinary where it stands. */
  lemma {:induction false} SameStep(l: Lexer, c: char)
    requires DigitsEnd(l) && !Step(Tool, l, c).NeedsShell?
    ensures Step(Posix, l, c) == Step(Tool, l, c) <==> OrdinaryAt(l, c)
  {
    if l.mode.Escaped? && !IsEscapable(c) {
      assert |Step(Tool, l, c).word.value| != |Step(Posix, l, c).word.value|;
    }
  }

  /** The two dialects are together, unless the tool has given up. */
  predicate Together(tool: Lexer, posix: Lexer) {
    DigitsEnd(tool) && (tool.Lexer? ==> posix == tool)
  }

  lemma {:induction false} TogetherStep(tool: Lexer, posix: Lexer, c: char)
    requires Together(tool, posix) && OrdinaryAt(tool, c)
    ensures Together(Step(Tool, tool, c), Step(Posix, posix, c))
  {
    DigitsEndStep(Tool, tool, c);
    if !Step(Tool, tool, c).NeedsShell? {
      SameStep(tool, c);
    }
  }

  /** As long as the line is ordinary the two dialects stay together. */
  lemma {:induction false} SameRun(s: string, n: nat)
    requires n <= |s| && forall k: nat :: k < n ==> OrdinaryPosition(s, k)
    ensures Together(After(Tool, s, n), After(Posix, s, n))
  {
    if n > 0 {
      SameRun(s, n - 1);
      assert OrdinaryPosition(s, n - 1);
      TogetherStep(After(Tool, s, n - 1), After(Posix, s, n - 1), s[n - 1]);
    }
  }

  /** Whenever the bypass accepts an ordinary line, words and targets are those of the shell. */
  lemma {:induction false} BypassRefinesShell(s: string)
    requires Ordinary(s)
    ensures Read(Tool, s).Simple? ==> Read(Posix, s) == Read(Tool, s)
    ensures !Read(Tool, s).Overrun?
  {
    SameRun(s, |s|);
  }

  /** The readings part at the first position that is not ordinary, and nowhere before. */
  lemma {:induction false} PartExactly(s: string, n: nat)
    requires n < |s| && (forall k: nat :: k < n ==> OrdinaryPosition(s, k)) && After(Tool, s, n + 1).Lexer?
    ensures After(Posix, s, n + 1) == After(Tool, s, n + 1) <==> OrdinaryPosition(s, n)
  {
    SameRun(s, n);
    SameStep(After(Tool, s, n), s[n]);
  }

  /** The characters that send a line to the shell when they stand outside quotes. */
  const SPECIAL := "`~|;!?()[]{}$*&#\\"

  /** The characters of the string, one by one. */
  lemma {:induction false} SpecialSpelled(c: char)
    ensures c in SPECIAL <==> IsSpecial(c)
  {
    assert SPECIAL == ['`', '~', '|', ';', '!', '?', '(', ')', '[', ']', '{', '}', '$', '*', '&', '#', '\\'];
  }

  lemma {:induction false} GivesUp(s: string, n: nat)
    requires n < |s| && IsSpecial(s[n])
    requires After(Tool, s, n).Lexer? && After(Tool, s, n).mode.Plain?
    ensures Read(Tool, s) == UseShell
  {
    assert After(Tool, s, n + 1).NeedsShell?;
    UseShellNow(s, n + 1);
  }

  /** Each of them does, wherever it stands. */
  lemma {:induction false} SpecialGoesToShell(s: string, n: nat)
    requires n < |s| && s[n] in SPECIAL
    requires After(Tool, s, n).Lexer? && After(Tool, s, n).mode.Plain?
    ensures Read(Tool, s) == UseShell
  {
    SpecialSpelled(s[n]);
    GivesUp(s, n);
  }

  /** So does an expansion inside double quotes. */
  lemma {:induction false} ExpansionGoesToShell(s: string, n: nat)
    requires n < |s| && (s[n] == '$' || s[n] == '`')
    requires After(Tool, s, n).Lexer? && After(Tool, s, n).mode.InDouble?
    ensures Read(Tool, s) == UseShell
  {
    assert After(Tool, s, n + 1).NeedsShell?;
    UseShellNow(s, n + 1);
  }

  /** An accepted line has none of them outside quotes, and a first word without an equals sign. */
  lemma {:induction false} AcceptedIsPlain(s: string)
    requires Read(Tool, s).Simple?
    ensures forall n: nat :: n < |s| && s[n] in SPECIAL ==>
              After(Tool, s, n).Lexer? && !After(Tool, s, n).mode.Plain?
    ensures Read(Tool, s).cmd.args != [] && '=' !in Read(Tool, s).cmd.args[0]
  {
    forall n: nat | n < |s| && s[n] in SPECIAL ensures After(Tool, s, n).Lexer? && !After(Tool, s, n).mode.Plain? {
      if After(Tool, s, n).NeedsShell? {
        Stuck(Tool, s, n, |s|);
      } else if After(Tool, s, n).mode.Plain? {
        SpecialGoesToShell(s, n);
      }
    }
  }

  // ----- where the two readings part

  /** The line `e "\b"`, read alike up to the backslash. */
  lemma {:induction false} StrayStart(d: Dialect, s: string)
    requires s == "e \"\\b\""
    ensures After(d, s, 4) == Lexer(Escaped, Some(""), false, false, Command(["e"], None, None), None)
  {
    assert After(d, s, 1) == Lexer(Plain, Some("e"), false, false, Command([], None, None), None);
    assert Command([], None, None).args + ["e"] == ["e"];
    assert After(d, s, 2) == Lexer(Plain, None, true, false, Command(["e"], None, None), None);
    assert After(d, s, 3) == Lexer(InDouble, Some(""), false, false, Command(["e"], None, None), None);
  }

  lemma {:induction false} StrayRun(d: Dialect, s: string)
    requires s == "e \"\\b\""
    ensures Read(d, s) == Simple(Command(["e", Unescape(d, 'b')], None, None))
  {
    var e, x := Command(["e"], None, None), Unescape(d, 'b');
    StrayStart(d, s);
    assert "" + x == x && ["e"] + [x] == ["e", x];
    assert After(d, s, 5) == Lexer(InDouble, Some(x), false, false, e, None);
    assert After(d, s, 6) == Lexer(Plain, Some(x), false, false, e, None);
  }

  /** A backslash before an ordinary character of a double-quoted string: the shell keeps it, the tool drops it. */
  lemma {:induction false} StrayBackslashDiffers()
    ensures var s := "e \"\\b\"";
            && Read(Tool, s) == Simple(Command(["e", "b"], None, None))
            && Read(Posix, s) == Simple(Command(["e", "\\b"], None, None))
            && !Ordinary(s)
  {
    var s := "e \"\\b\"";
    StrayRun(Tool, s);
    StrayRun(Posix, s);
    StrayStart(Tool, s);
    assert !OrdinaryPosition(s, 4);
  }

  /** A newline between words: two commands for the shell, a space for the tool. */
  lemma {:induction false} NewlineDiffers()
    ensures var s := "e\nf";
            && Read(Tool, s) == Simple(Command(["e", "f"], None, None))
            && Read(Posix, s) == UseShell && !Ordinary(s)
  {
    var s := "e\nf";
    assert After(Tool, s, 1) == Lexer(Plain, Some("e"), false, false, Command([], None, None), None);
    assert After(Posix, s, 1) == After(Tool, s, 1);
    assert Command([], None, None).args + ["e"] == ["e"];
    assert After(Tool, s, 2) == Lexer(Plain, None, true, false, Command(["e"], None, None), None);
    assert After(Posix, s, 2) == NeedsShell;
    assert After(Tool, s, 3) == Lexer(Plain, Some("f"), false, false, Command(["e"], None, None), None);
    assert After(Posix, s, 3) == NeedsShell;
    assert ["e"] + ["f"] == ["e", "f"];
    assert !OrdinaryPosition(s, 1);
  }

  // ----- quoted command lines

  datatype Quoting = Single | Double

  /** A word to print, with the quotes to use. */
  datatype Quoted = Quoted(text: string, quoting: Quoting) {
    predicate Printable() {
      quoting.Single? ==> '\'' !in text
    }
  }

  function EscapeDouble(t: string): string {
    if t == "" then "" else (if IsEscapable(t[0]) then ['\\', t[0]] else [t[0]]) + EscapeDouble(t[1..])
  }

  function Print(w: Quoted): string {
    if w.quoting.Single? then "'" + w.text + "'" else "\"" + EscapeDouble(w.text) + "\""
  }

  function PrintWords(ws: seq<Quoted>): string {
    if ws == [] then "" else (if |ws| == 1 then "" else PrintWords(ws[..|ws| - 1]) + " ") + Print(ws[|ws| - 1])
  }

  function Texts(ws: seq<Quoted>): seq<string> {
    if ws == [] then [] else Texts(ws[..|ws| - 1]) + [ws[|ws| - 1].text]
  }

  /** The tokenizer started in state `l` on `t`. */
  function Run(d: Dialect, l: Lexer, t: string): Lexer
    decreases |t|
  {
    if t == "" then l else Run(d, Step(d, l, t[0]), t[1..])
  }

  lemma {:induction false} RunConcat(d: Dialect, l: Lexer, a: string, b: string)
    ensures Run(d, l, a + b) == Run(d, Run(d, l, a), b)
    decreases |a|
  {
    if a == "" {
      assert a + b == b;
    } else {
      assert (a + b)[1..] == a[1..] + b;
      RunConcat(d, Step(d, l, a[0]), a[1..], b);
    }
  }

  lemma {:induction false} RunIsAfter(d: Dialect, s: string, n: nat)
    requires n <= |s|
    ensures Run(d, After(d, s, n), s[n..]) == After(d, s, |s|)
    decreases |s| - n
  {
    if n < |s| {
      assert s[n..][1..] == s[n + 1..];
      RunIsAfter(d, s, n + 1);
    } else {
      assert s[n..] == "";
    }
  }

  /** Between quotes: the word under construction over a given command. */
  function Building(mode: Mode, word: string, afterDigit: bool, cmd: Command, pending: Option<Direction>): Lexer {
    Lexer(mode, Some(word), false, afterDigit, cmd, pending)
  }

  lemma {:induction false} RunSingle(d: Dialect, w: string, t: string, ad: bool, cmd: Command, p: Option<Direction>)
    requires '\'' !in t
    ensures Run(d, Building(InSingle, w, ad, cmd, p), t + "'") == Building(Plain, w + t, false, cmd, p)
    decreases |t|
  {
    var s := t + "'";
    if t == "" {
      assert s == "'" && s[1..] == "" && w + t == w;
      assert Run(d, Building(Plain, w, false, cmd, p), "") == Building(Plain, w, false, cmd, p);
    } else {
      assert s[1..] == t[1..] + "'" && w + t == (w + [t[0]]) + t[1..];
      RunSingle(d, w + [t[0]], t[1..], IsDigit(t[0]), cmd, p);
    }
  }

  lemma {:induction false} EscapedSteps(d: Dialect, w: string, c: char, ad: bool, cmd: Command, p: Option<Direction>)
    requires IsEscapable(c)
    ensures Step(d, Step(d, Building(InDouble, w, ad, cmd, p), '\\'), c) == Building(InDouble, w + [c], false, cmd, p)
  {
  }

  lemma {:induction false} RunDouble(d: Dialect, w: string, t: string, ad: bool, cmd: Command, p: Option<Direction>)
    ensures Run(d, Building(InDouble, w, ad, cmd, p), EscapeDouble(t) + "\"") == Building(Plain, w + t, false, cmd, p)
    decreases |t|
  {
    var l, s := Building(InDouble, w, ad, cmd, p), EscapeDouble(t) + "\"";
    if t == "" {
      assert s == "\"" && s[1..] == "" && w + t == w;
      assert Run(d, Building(Plain, w, false, cmd, p), "") == Building(Plain, w, false, cmd, p);
    } else {
      var c, rest := t[0], EscapeDouble(t[1..]) + "\"";
      assert w + t == (w + [c]) + t[1..];
      if IsEscapable(c) {
        EscapedSteps(d, w, c, ad, cmd, p);
        RunDouble(d, w + [c], t[1..], false, cmd, p);
        assert s[0] == '\\' && s[1..][0] == c && s[1..][1..] == rest;
      } else {
        RunDouble(d, w + [c], t[1..], IsDigit(c), cmd, p);
        assert s[0] == c && s[1..] == rest;
      }
    }
  }

  lemma {:induction false} OpenQuote(d: Dialect, number: bool, ad: bool, cmd: Command, p: Option<Direction>)
    ensures Step(d, Lexer(Plain, None, number, ad, cmd, p), '\'') == Building(InSingle, "", false, cmd, p)
    ensures Step(d, Lexer(Plain, None, number, ad, cmd, p), '"') == Building(InDouble, "", false, cmd, p)
  {
    var l := Lexer(Plain, None, number, ad, cmd, p);
  }

  /** A printed word is read as that word. */
  lemma {:induction false} RunQuoted(d: Dialect, w: Quoted, number: bool, ad: bool, cmd: Command, p: Option<Direction>)
    requires w.Printable()
    ensures Run(d, Lexer(Plain, None, number, ad, cmd, p), Print(w)) == Building(Plain, w.text, false, cmd, p)
  {
    var l, s := Lexer(Plain, None, number, ad, cmd, p), Print(w);
    assert "" + w.text == w.text;
    OpenQuote(d, number, ad, cmd, p);
    if w.quoting.Single? {
      assert s[0] == '\'' && s[1..] == w.text + "'";
      RunSingle(d, "", w.text, false, cmd, p);
    } else {
      assert s[0] == '"' && s[1..] == EscapeDouble(w.text) + "\"";
      RunDouble(d, "", w.text, false, cmd, p);
    }
  }

  /** A word after a space. */
  lemma {:induction false} RunNextWord(d: Dialect, w: string, q: Quoted, cmd: Command, p: Option<Direction>)
    requires q.Printable()
    ensures Run(d, Building(Plain, w, false, cmd, p), " " + Print(q))
         == Building(Plain, q.text, false, Deliver(cmd, p, w), None)
  {
    var s := " " + Print(q);
    assert s[0] == ' ' && s[1..] == Print(q);
    assert Step(d, Building(Plain, w, false, cmd, p), ' ') == Lexer(Plain, None, true, false, Deliver(cmd, p, w), None);
    RunQuoted(d, q, true, false, Deliver(cmd, p, w), None);
  }

  function Sign(dir: Direction): char {
    if dir.In? then '<' else '>'
  }

  /** A redirection after a space. */
  lemma {:induction false} RunRedirection(d: Dialect, w: string, dir: Direction, q: Quoted, cmd: Command,
                                          p: Option<Direction>)
    requires q.Printable()
    ensures Run(d, Building(Plain, w, false, cmd, p), [' ', Sign(dir)] + Print(q))
            == Building(Plain, q.text, false, Deliver(cmd, p, w), Some(dir))
  {
    var s, done := [' ', Sign(dir)] + Print(q), Deliver(cmd, p, w);
    assert s[0] == ' ' && s[1..][0] == Sign(dir) && s[1..][1..] == Print(q);
    assert Step(d, Building(Plain, w, false, cmd, p), ' ') == Lexer(Plain, None, true, false, done, None);
    assert Step(d, Lexer(Plain, None, true, false, done, None), Sign(dir))
        == Lexer(Plain, None, true, false, done, Some(dir));
    RunQuoted(d, q, true, false, done, Some(dir));
  }

  /** Three pieces read one after the other. */
  lemma {:induction false} RunThree(d: Dialect, l: Lexer, a: string, b: string, c: string, l1: Lexer, l2: Lexer,
                                    l3: Lexer)
    requires Run(d, l, a) == l1 && Run(d, l1, b) == l2 && Run(d, l2, c) == l3
    ensures Run(d, l, a + b + c) == l3
  {
    RunConcat(d, l, a + b, c);
    RunConcat(d, l, a, b);
  }

  lemma {:induction false} PrintMore(ws: seq<Quoted>)
    requires |ws| > 1
    ensures PrintWords(ws) == PrintWords(ws[..|ws| - 1]) + (" " + Print(ws[|ws| - 1])) + ""
  {
  }

  /** The tokenizer inside the last of the words `ws`. */
  function InLastWord(ws: seq<Quoted>): Lexer
    requires ws != []
  {
    Building(Plain, ws[|ws| - 1].text, false, Command(Texts(ws[..|ws| - 1]), None, None), None)
  }

  lemma {:induction false} RunOneMore(d: Dialect, front: seq<Quoted>, q: Quoted)
    requires front != [] && q.Printable() && Run(d, START, PrintWords(front)) == InLastWord(front)
    ensures Run(d, START, PrintWords(front + [q])) == InLastWord(front + [q])
  {
    var ws, n := front + [q], |front| - 1;
    PrintMore(ws);
    assert ws[..|front|] == front && ws[|front|] == q;
    var cmd := Command(Texts(front[..n]), None, None);
    RunNextWord(d, front[n].text, q, cmd, None);
    assert Deliver(cmd, None, front[n].text) == Command(Texts(front), None, None);
    RunThree(d, START, PrintWords(front), " " + Print(q), "", InLastWord(front), InLastWord(ws), InLastWord(ws));
  }

  lemma {:induction false} RunFirstWord(d: Dialect, q: Quoted)
    requires q.Printable()
    ensures Run(d, START, PrintWords([q])) == InLastWord([q])
  {
    assert PrintWords([q]) == "" + Print(q) == Print(q) && Texts([q][..0]) == [];
    RunQuoted(d, q, true, false, Command([], None, None), None);
  }

  lemma {:induction false} RunWords(d: Dialect, ws: seq<Quoted>)
    requires ws != [] && forall i :: 0 <= i < |ws| ==> ws[i].Printable()
    ensures Run(d, START, PrintWords(ws)) == InLastWord(ws)
    decreases |ws|
  {
    var front, q := ws[..|ws| - 1], ws[|ws| - 1];
    assert ws == front + [q];
    if front == [] {
      RunFirstWord(d, q);
    } else {
      RunWords(d, front);
      RunOneMore(d, front, q);
    }
  }

  /** The words, then the redirections that are wanted. */
  function PrintLine(ws: seq<Quoted>, stdin: Option<Quoted>, stdout: Option<Quoted>): string {
    PrintWords(ws) + PrintTarget(In, stdin) + PrintTarget(Out, stdout)
  }

  function PrintTarget(dir: Direction, q: Option<Quoted>): string {
    if q.Some? then [' ', Sign(dir)] + Print(q.value) else ""
  }

  function TextOf(q: Option<Quoted>): Option<string> {
    if q.Some? then Some(q.value.text) else None
  }

  /** Adds a redirection, if wanted, to a line that ends with a word. */
  lemma {:induction false} RunOptional(d: Dialect, w: string, dir: Direction, q: Option<Quoted>, cmd: Command,
                                       p: Option<Direction>)
    returns (w': string, cmd': Command, p': Option<Direction>)
    requires q.Some? ==> q.value.Printable()
    ensures Run(d, Building(Plain, w, false, cmd, p), PrintTarget(dir, q)) == Building(Plain, w', false, cmd', p')
    ensures Deliver(cmd', p', w')
         == if q.Some? then Deliver(Deliver(cmd, p, w), Some(dir), q.value.text) else Deliver(cmd, p, w)
  {
    if q.Some? {
      RunRedirection(d, w, dir, q.value, cmd, p);
      w', cmd', p' := q.value.text, Deliver(cmd, p, w), Some(dir);
    } else {
      w', cmd', p' := w, cmd, p;
    }
  }

  /** A line that ends with a word. */
  lemma {:induction false} FinishWord(d: Dialect, s: string, w: string, cmd: Command, p: Option<Direction>,
                                      done: Command)
    requires Run(d, START, s) == Building(Plain, w, false, cmd, p) && done == Deliver(cmd, p, w)
    requires done.args != [] && '=' !in done.args[0]
    ensures Read(d, s) == Simple(done)
  {
    RunIsAfter(d, s, 0);
    assert s[0..] == s;
  }

  /** A printed command line parses back to its words and targets, for the tool and for the shell. */
  lemma {:induction false} PrintedLineReads(d: Dialect, ws: seq<Quoted>, stdin: Option<Quoted>, stdout: Option<Quoted>)
    requires ws != [] && (forall i :: 0 <= i < |ws| ==> ws[i].Printable()) && '=' !in ws[0].text
    requires (stdin.Some? ==> stdin.value.Printable()) && (stdout.Some? ==> stdout.value.Printable())
    ensures Read(d, PrintLine(ws, stdin, stdout)) == Simple(Command(Texts(ws), TextOf(stdin), TextOf(stdout)))
  {
    var n := |ws| - 1;
    var cmd := Command(Texts(ws[..n]), None, None);
    RunWords(d, ws);
    var w1, cmd1, p1 := RunOptional(d, ws[n].text, In, stdin, cmd, None);
    var w2, cmd2, p2 := RunOptional(d, w1, Out, stdout, cmd1, p1);
    RunThree(d, START, PrintWords(ws), PrintTarget(In, stdin), PrintTarget(Out, stdout),
             Building(Plain, ws[n].text, false, cmd, None), Building(Plain, w1, false, cmd1, p1),
             Building(Plain, w2, false, cmd2, p2));
    FirstText(ws);
    FinishWord(d, PrintLine(ws, stdin, stdout), w2, cmd2, p2, Command(Texts(ws), TextOf(stdin), TextOf(stdout)));
  }

  lemma {:induction false} FirstText(ws: seq<Quoted>)
    requires ws != []
    ensures |Texts(ws)| == |ws| && Texts(ws)[0] == ws[0].text
    decreases |ws|
  {
    if |ws| > 1 {
      FirstText(ws[..|ws| - 1]);
    } else {
      assert Texts(ws[..0]) == [];
    }
  }
}
