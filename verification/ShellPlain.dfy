/**
 Command lines without quotes: words of ordinary characters with single spaces between them are split at the
 spaces, by the bypass and by the shell.
 */
module ShellPlain {
  import opened Wrappers
  import opened Shell
  import opened ShellProperties

  /** A character that needs no quotes. */
  predicate Safe(c: char) {
    c !in SPECIAL && c !in "'\"<> \t\n\r" && c != '\U{0B}' && c != '\U{0C}'
  }

  predicate SafeWord(w: string) {
    w != "" && forall i :: 0 <= i < |w| ==> Safe(w[i])
  }

  /** The words with a space between any two. */
  function Spaced(ws: seq<string>): string {
    if ws == [] then ""
    else (if |ws| == 1 then "" else Spaced(ws[..|ws| - 1]) + " ") + ws[|ws| - 1]
  }

  /** In the word `w` of a command without redirections. */
  predicate Inside(l: Lexer, w: string, cmd: Command) {
    l.Lexer? && l.mode.Plain? && l.word == Some(w) && l.cmd == cmd && l.pending.None?
  }

  lemma {:induction false} SafeStep(d: Dialect, l: Lexer, w: string, cmd: Command, c: char)
    requires Safe(c)
    requires Inside(l, w, cmd) || (w == "" && l == Lexer(Plain, None, true, false, cmd, None))
    ensures Inside(Step(d, l, c), w + [c], cmd)
  {
    assert "" + [c] == [c];
    SafeIsPlain(c);
  }

  lemma {:induction false} SafeIsPlain(c: char)
    requires Safe(c)
    ensures !IsSpecial(c) && !NeedsQuoting(c) && !IsSpace(c)
    ensures c != '<' && c != '>' && c != '\'' && c != '"'
  {
    var others := "'\"<> \t\n\r";
    assert others[0] == '\'' && others[1] == '"' && others[2] == '<' && others[3] == '>';
    assert others[4] == ' ' && others[5] == '\t' && others[6] == '\n' && others[7] == '\r';
    SpecialSpelled(c);
  }

  lemma {:induction false} SafeRun(d: Dialect, l: Lexer, w: string, cmd: Command, t: string)
    requires Inside(l, w, cmd) && forall i :: 0 <= i < |t| ==> Safe(t[i])
    ensures Inside(Run(d, l, t), w + t, cmd)
    decreases |t|
  {
    if t == "" {
      assert w + t == w;
    } else {
      SafeStep(d, l, w, cmd, t[0]);
      SafeRun(d, Step(d, l, t[0]), w + [t[0]], cmd, t[1..]);
      assert w + [t[0]] + t[1..] == w + t;
    }
  }

  /** A whole word, from between words. */
  lemma {:induction false} WordRun(d: Dialect, cmd: Command, t: string)
    requires SafeWord(t)
    ensures Inside(Run(d, Lexer(Plain, None, true, false, cmd, None), t), t, cmd)
  {
    var l := Lexer(Plain, None, true, false, cmd, None);
    SafeStep(d, l, "", cmd, t[0]);
    assert "" + [t[0]] == [t[0]] && [t[0]] + t[1..] == t;
    SafeRun(d, Step(d, l, t[0]), [t[0]], cmd, t[1..]);
  }

  lemma {:induction false} NextWord(d: Dialect, l: Lexer, w: string, cmd: Command, t: string)
    requires Inside(l, w, cmd) && SafeWord(t)
    ensures Inside(Run(d, l, " " + t), t, Command(cmd.args + [w], cmd.stdin, cmd.stdout))
  {
    assert (" " + t)[0] == ' ' && (" " + t)[1..] == t;
    assert Step(d, l, ' ') == Lexer(Plain, None, true, false, Command(cmd.args + [w], cmd.stdin, cmd.stdout), None);
    WordRun(d, Command(cmd.args + [w], cmd.stdin, cmd.stdout), t);
  }

  lemma {:induction false} SpacedRun(d: Dialect, ws: seq<string>)
    requires ws != [] && forall i :: 0 <= i < |ws| ==> SafeWord(ws[i])
    ensures Inside(Run(d, START, Spaced(ws)), ws[|ws| - 1], Command(ws[..|ws| - 1], None, None))
    decreases |ws|
  {
    var front, t := ws[..|ws| - 1], ws[|ws| - 1];
    if front == [] {
      assert Spaced(ws) == "" + t == t;
      WordRun(d, Command([], None, None), t);
    } else {
      var n := |front| - 1;
      SpacedRun(d, front);
      assert Spaced(ws) == Spaced(front) + " " + t == Spaced(front) + (" " + t);
      RunConcat(d, START, Spaced(front), " " + t);
      NextWord(d, Run(d, START, Spaced(front)), front[n], Command(front[..n], None, None), t);
      assert front[..n] + [front[n]] == front;
    }
  }

  /** The words come back, without a shell. */
  lemma {:induction false} PlainWordsRead(d: Dialect, ws: seq<string>)
    requires ws != [] && (forall i :: 0 <= i < |ws| ==> SafeWord(ws[i])) && '=' !in ws[0]
    ensures Read(d, Spaced(ws)) == Simple(Command(ws, None, None))
  {
    SpacedRun(d, ws);
    RunIsAfter(d, Spaced(ws), 0);
    assert Spaced(ws)[0..] == Spaced(ws) && ws[..|ws| - 1] + [ws[|ws| - 1]] == ws;
  }

  /** A line that ends with a space is left to the shell. */
  lemma {:induction false} TrailingSpaceGoesToShell(s: string)
    requires s != "" && IsBlank(s[|s| - 1])
    requires After(Tool, s, |s| - 1).Lexer? && After(Tool, s, |s| - 1).mode.Plain?
    ensures Read(Tool, s) == UseShell && Read(Tool, "") == UseShell
  {
    assert After(Tool, s, |s|).word.None?;
  }
}
