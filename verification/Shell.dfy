/**
 The shell bypass: a command line simple enough is split into words and redirections without a shell.
 The reference is a character-by-character tokenizer with quote removal after sections 2.2 (Quoting) and
 2.3 (Token Recognition) of the POSIX.1-2017 Shell Command Language, restricted to simple commands; a
 second dialect of it describes what the bypass does on every command.
 */
module Shell {
  import opened Wrappers

  /** A simple command: words, and the last `<` and `>` targets. */
  datatype Command = Command(args: seq<string>, stdin: Option<string>, stdout: Option<string>)

  datatype Direction = In | Out

  /** The two readings of a command line. */
  datatype Dialect = Posix | Tool

  datatype Mode = Plain | InSingle | InDouble | Escaped

  /** The tokenizer: mode, word under construction and whether it is made of unquoted digits only, whether the
      previous character is a digit, the command so far, and a redirection waiting for its target. */
  datatype Lexer =
    | Lexer(mode: Mode, word: Option<string>, number: bool, afterDigit: bool, cmd: Command, pending: Option<Direction>)
    | NeedsShell

  predicate IsDigit(c: char) {
    '0' <= c <= '9'
  }

  /** The characters at which the tool gives a line to the shell when they are not quoted. */
  predicate IsSpecial(c: char) {
    || c == '`' || c == '~' || c == '|' || c == ';' || c == '!' || c == '?' || c == '(' || c == ')'
    || c == '[' || c == ']' || c == '{' || c == '}' || c == '$' || c == '*' || c == '&' || c == '#' || c == '\\'
  }

  /** Section 2.2: operators and expansions always have to be quoted; patterns, comments, tilde and (section 2.4)
      the reserved words made of one character may have to be.  A line with one of them is not simple. */
  predicate NeedsQuoting(c: char) {
    || c == '|' || c == '&' || c == ';' || c == '(' || c == ')' || c == '$' || c == '`' || c == '\\'
    || c == '*' || c == '?' || c == '[' || c == '#' || c == '~'
    || c == '!' || c == '{' || c == '}'
  }

  /** Section 2.2.3: what starts an expansion inside double quotes. */
  predicate StartsExpansion(c: char) {
    c == '$' || c == '`'
  }

  /** Blanks of the POSIX locale. */
  predicate IsBlank(c: char) {
    c == ' ' || c == '\t'
  }

  /** The other characters `isspace` accepts. */
  predicate IsOddSpace(c: char) {
    c == '\n' || c == '\r' || c == '\U{0B}' || c == '\U{0C}'
  }

  predicate IsSpace(c: char) {
    IsBlank(c) || IsOddSpace(c)
  }

  // ----- one character

  /** Hands a finished word to the command: an argument, or the target of the waiting redirection. */
  function Deliver(cmd: Command, pending: Option<Direction>, w: string): Command {
    match pending
    case None => cmd.(args := cmd.args + [w])
    case Some(In) => cmd.(stdin := Some(w))
    case Some(Out) => cmd.(stdout := Some(w))
  }

  function EndWord(l: Lexer): (m: Lexer)
    requires l.Lexer?
    ensures m.Lexer?
  {
    if l.word.None? then l
    else Lexer(l.mode, None, true, l.afterDigit, Deliver(l.cmd, l.pending, l.word.value), None)
  }

  /** Adds `t` to the word, starting one if there is none. */
  function Append(l: Lexer, t: string, mode: Mode, number: bool): Lexer
    requires l.Lexer?
  {
    Lexer(mode, Some(if l.word.Some? then l.word.value + t else t), number, l.afterDigit, l.cmd, l.pending)
  }

  /** An operator ends the word before it.  It is not simple after a number (POSIX) or after a digit (the tool),
      nor when another redirection has no target yet. */
  function Operator(d: Dialect, l: Lexer, dir: Direction): Lexer
    requires l.Lexer?
  {
    if (d.Posix? && l.word.Some? && l.number) || (d.Tool? && l.afterDigit) then NeedsShell
    else
      var m := EndWord(l);
      if m.pending.Some? then NeedsShell else m.(pending := Some(dir))
  }

  /** What a backslash can escape inside double quotes. */
  predicate IsEscapable(c: char) {
    c == '\\' || c == '$' || c == '`' || c == '"'
  }

  /** What an escaped character of a double-quoted string stands for. */
  function Unescape(d: Dialect, c: char): string {
    if IsEscapable(c) || d.Tool? then [c] else if c == '\n' then "" else ['\\', c]
  }

  /** The shell: only blanks end words, and a newline ends the command. */
  function PosixPlain(l: Lexer, c: char): Lexer
    requires l.Lexer?
  {
    if c == '\'' then Append(l, "", InSingle, false)
    else if c == '"' then Append(l, "", InDouble, false)
    else if IsBlank(c) then EndWord(l)
    else if c == '\n' || NeedsQuoting(c) then NeedsShell
    else if c == '<' then Operator(Posix, l, In)
    else if c == '>' then Operator(Posix, l, Out)
    else Append(l, [c], Plain, l.number && IsDigit(c))
  }

  /** The tool: before a word all spaces are skipped, but only some end a word. */
  function ToolPlain(l: Lexer, c: char): Lexer
    requires l.Lexer?
  {
    if IsBlank(c) || c == '\n' then EndWord(l)
    else if IsOddSpace(c) && l.word.None? then l
    else if IsSpecial(c) then NeedsShell
    else if c == '<' then Operator(Tool, l, In)
    else if c == '>' then Operator(Tool, l, Out)
    else if c == '\'' then Append(l, "", InSingle, false)
    else if c == '"' then Append(l, "", InDouble, false)
    else Append(l, [c], Plain, l.number && IsDigit(c))
  }

  function Step(d: Dialect, l: Lexer, c: char): Lexer {
    if l.NeedsShell? then l
    else
      var m := match l.mode
        case Plain => if d.Posix? then PosixPlain(l, c) else ToolPlain(l, c)
        case InSingle => if c == '\'' then l.(mode := Plain) else Append(l, [c], InSingle, false)
        case InDouble =>
          if c == '"' then l.(mode := Plain)
          else if c == '\\' then l.(mode := Escaped)
          else if (d.Posix? && StartsExpansion(c)) || (d.Tool? && (c == '$' || c == '`')) then NeedsShell
          else Append(l, [c], InDouble, false)
        case Escaped => Append(l, Unescape(d, c), InDouble, false);
      if m.NeedsShell? then m else m.(afterDigit := IsDigit(c))
  }

  const START := Lexer(Plain, None, true, false, Command([], None, None), None)

  /** The tokenizer after the first `n` characters. */
  function After(d: Dialect, s: string, n: nat): Lexer
    requires n <= |s|
  {
    if n == 0 then START else Step(d, After(d, s, n - 1), s[n - 1])
  }

  // ----- the whole line

  /** How a line ends: a simple command, something for the shell, or (in the tool) a backslash that hides the end
      of the line from the double-quoted string it is in.  The tool leaves lines that end with a space to the shell. */
  datatype Verdict = Simple(cmd: Command) | UseShell | Overrun

  /** The shell reads a first word with a name before an equals sign as an assignment (section 2.10.2, rule 7). */
  predicate IsAssignment(w: string) {
    exists i: nat :: i < |w| && w[i] == '=' && IsName(w[..i])
  }

  /** Letters, digits and underscores, not starting with a digit. */
  predicate IsName(w: string) {
    w != "" && !IsDigit(w[0]) && forall i: nat :: i < |w| ==>
      'a' <= w[i] <= 'z' || 'A' <= w[i] <= 'Z' || IsDigit(w[i]) || w[i] == '_'
  }

  function Finish(d: Dialect, l: Lexer): Verdict {
    if l.NeedsShell? then UseShell
    else if d.Tool? && l.mode.Escaped? then Overrun
    else if !l.mode.Plain? || (d.Tool? && l.word.None?) then UseShell
    else
      var m := EndWord(l);
      if m.pending.Some? || m.cmd.args == [] then UseShell
      else if (if d.Posix? then IsAssignment(m.cmd.args[0]) else '=' in m.cmd.args[0]) then UseShell
      else Simple(m.cmd)
  }

  function Read(d: Dialect, s: string): Verdict {
    Finish(d, After(d, s, |s|))
  }

  lemma {:induction false} Stuck(d: Dialect, s: string, n: nat, k: nat)
    requires n <= k <= |s| && After(d, s, n).NeedsShell?
    ensures After(d, s, k).NeedsShell?
    decreases k - n
  {
    if n < k {
      Stuck(d, s, n, k - 1);
    }
  }

  // ----- the bypass

  /** `l` reads the word `arg` in mode `mode`, over the command and redirection of `base`. */
  ghost predicate Reading(base: Lexer, l: Lexer, mode: Mode, arg: string) {
    base.Lexer? && l.Lexer? && l.mode == mode && l.word == Some(arg) && l.cmd == base.cmd && l.pending == base.pending
  }

  lemma {:induction false} SingleStep(base: Lexer, l: Lexer, arg: string, c: char)
    requires Reading(base, l, InSingle, arg)
    ensures if c == '\'' then Reading(base, Step(Tool, l, c), Plain, arg)
            else Reading(base, Step(Tool, l, c), InSingle, arg + [c])
  {
  }

  lemma {:induction false} DoubleStep(base: Lexer, l: Lexer, arg: string, c: char)
    requires Reading(base, l, InDouble, arg)
    ensures if c == '"' then Reading(base, Step(Tool, l, c), Plain, arg)
            else if c == '\\' then Reading(base, Step(Tool, l, c), Escaped, arg)
            else if c == '$' || c == '`' then Step(Tool, l, c).NeedsShell?
            else Reading(base, Step(Tool, l, c), InDouble, arg + [c])
  {
  }

  lemma {:induction false} EscapedStep(base: Lexer, l: Lexer, arg: string, c: char)
    requires Reading(base, l, Escaped, arg)
    ensures Reading(base, Step(Tool, l, c), InDouble, arg + [c])
  {
  }

  /** The rest of a single-quoted string; the cursor starts on the opening quote and ends on the closing one. */
  method SingleQuoted(s: string, open: nat, arg0: string, ghost base: Lexer)
    returns (closed: bool, cmd: nat, arg: string)
    requires open < |s| && Reading(base, After(Tool, s, open + 1), InSingle, arg0)
    ensures closed ==> open < cmd < |s| && Reading(base, After(Tool, s, cmd + 1), Plain, arg)
    ensures !closed ==> Read(Tool, s) == UseShell
  {
    cmd, arg, closed := open + 1, arg0, false;
    while cmd < |s|
      invariant open < cmd <= |s| && Reading(base, After(Tool, s, cmd), InSingle, arg)
    {
      SingleStep(base, After(Tool, s, cmd), arg, s[cmd]);
      if s[cmd] == '\'' {
        return true, cmd, arg;
      }
      arg := arg + [s[cmd]];
      cmd := cmd + 1;
    }
  }

  /** How a quoted string ends. */
  datatype Quoted = Closed(cmd: nat, arg: string) | Unclosed | LostEnd

  /** The rest of a double-quoted string.  After a backslash any character is taken, even the end of the line. */
  method DoubleQuoted(s: string, open: nat, arg0: string, ghost base: Lexer) returns (r: Quoted)
    requires open < |s| && Reading(base, After(Tool, s, open + 1), InDouble, arg0)
    ensures r.Closed? ==> open < r.cmd < |s| && Reading(base, After(Tool, s, r.cmd + 1), Plain, r.arg)
    ensures r.Unclosed? ==> Read(Tool, s) == UseShell
    ensures r.LostEnd? ==> Read(Tool, s) == Overrun
  {
    var cmd, arg := open + 1, arg0;
    while cmd < |s|
      invariant open < cmd <= |s| && Reading(base, After(Tool, s, cmd), InDouble, arg)
    {
      DoubleStep(base, After(Tool, s, cmd), arg, s[cmd]);
      if s[cmd] == '"' {
        return Closed(cmd, arg);
      }
      if s[cmd] == '\\' {
        cmd := cmd + 1;
        if cmd == |s| {
          return LostEnd;
        }
        EscapedStep(base, After(Tool, s, cmd), arg, s[cmd]);
      } else if s[cmd] == '$' || s[cmd] == '`' {
        Stuck(Tool, s, cmd + 1, |s|);
        return Unclosed;
      }
      arg := arg + [s[cmd]];
      cmd := cmd + 1;
    }
    r := Unclosed;
  }

  /** Where `get_arg` stops outside quotes. */
  predicate Stops(c: char) {
    IsSpecial(c) || c == '>' || c == '<' || c == ' ' || c == '\n' || c == '\t'
  }

  /** The word started at some point of `base` is `arg`, if it has any character. */
  ghost predicate InWord(base: Lexer, l: Lexer, started: bool, arg: string) {
    && base.Lexer? && base.mode.Plain? && base.word.None? && l.Lexer? && l.mode.Plain?
    && l.cmd == base.cmd && l.pending == base.pending
    && if started then l.word == Some(arg) else l.word.None? && arg == ""
  }

  lemma {:induction false} WordStep(base: Lexer, l: Lexer, started: bool, arg: string, c: char)
    requires InWord(base, l, started, arg) && !Stops(c) && (started || !IsSpace(c))
    ensures if c == '\'' then Reading(base, Step(Tool, l, c), InSingle, arg)
            else if c == '"' then Reading(base, Step(Tool, l, c), InDouble, arg)
            else InWord(base, Step(Tool, l, c), true, arg + [c])
  {
    assert arg + "" == arg && "" + [c] == [c];
  }

  /** `get_arg`: one word, nothing if there is none or it is not simple. */
  datatype Arg = Arg(text: string, next: nat) | NoArg | PastEnd

  method GetArg(s: string, start: nat) returns (r: Arg)
    requires start <= |s| && (start < |s| ==> !IsSpace(s[start]))
    requires start == |s| || Stops(s[start]) || InWord(After(Tool, s, start), After(Tool, s, start), false, "")
    ensures r.Arg? ==> start < r.next <= |s| && (r.next < |s| ==> Stops(s[r.next]))
                       && InWord(After(Tool, s, start), After(Tool, s, r.next), true, r.text)
    ensures r.NoArg? ==> Read(Tool, s) == UseShell || start == |s| || Stops(s[start])
    ensures r.PastEnd? ==> Read(Tool, s) == Overrun
  {
    ghost var base := After(Tool, s, start);
    var cmd, arg := start, "";
    while cmd < |s| && !Stops(s[cmd])
      invariant start <= cmd <= |s|
      invariant start == |s| || Stops(s[start]) || InWord(base, After(Tool, s, cmd), cmd != start, arg)
      invariant start == |s| || Stops(s[start]) ==> cmd == start
    {
      WordStep(base, After(Tool, s, cmd), cmd != start, arg, s[cmd]);
      if s[cmd] == '\'' {
        var closed;
        closed, cmd, arg := SingleQuoted(s, cmd, arg, base);
        if !closed {
          return NoArg;
        }
      } else if s[cmd] == '"' {
        var q := DoubleQuoted(s, cmd, arg, base);
        match q {
          case LostEnd => return PastEnd;
          case Unclosed => return NoArg;
          case Closed(end, text) => cmd, arg := end, text;
        }
      } else {
        arg := arg + [s[cmd]];
      }
      cmd := cmd + 1;
    }
    if cmd == start {
      return NoArg;
    }
    r := Arg(arg, cmd);
  }

  // ----- parse_simple_command

  method SkipWs(s: string, start: nat) returns (cmd: nat)
    requires start <= |s|
    ensures start <= cmd <= |s| && (cmd < |s| ==> !IsSpace(s[cmd]))
    ensures forall k :: start <= k < cmd ==> IsSpace(s[k])
  {
    cmd := start;
    while cmd < |s| && IsSpace(s[cmd])
      invariant start <= cmd <= |s| && forall k :: start <= k < cmd ==> IsSpace(s[k])
    {
      cmd := cmd + 1;
    }
  }

  /** Between words: `res` is the command with the last word, which ends here, delivered. */
  ghost predicate Between(s: string, l: Lexer, cmd: nat, res: Command, pending: Option<Direction>) {
    && cmd <= |s| && l.Lexer? && l.mode.Plain?
    && EndWord(l).cmd == res && EndWord(l).pending == pending
    && (l.word.Some? && cmd < |s| ==> Stops(s[cmd]))
  }

  lemma {:induction false} SpaceStep(s: string, l: Lexer, cmd: nat, res: Command, pending: Option<Direction>)
    requires Between(s, l, cmd, res, pending) && cmd < |s| && IsSpace(s[cmd])
    ensures var m := Step(Tool, l, s[cmd]);
            Between(s, m, cmd + 1, res, pending) && m.word.None? && !m.afterDigit
  {
  }

  lemma {:induction false} SpacesStep(s: string, start: nat, cmd: nat, res: Command, pending: Option<Direction>)
    requires start <= cmd <= |s| && Between(s, After(Tool, s, start), start, res, pending)
    requires forall k :: start <= k < cmd ==> IsSpace(s[k])
    ensures Between(s, After(Tool, s, cmd), cmd, res, pending)
    ensures start < cmd ==> After(Tool, s, cmd).word.None?
    decreases cmd - start
  {
    if start < cmd {
      SpacesStep(s, start, cmd - 1, res, pending);
      SpaceStep(s, After(Tool, s, cmd - 1), cmd - 1, res, pending);
    }
  }

  lemma {:induction false} SpecialStep(s: string, l: Lexer, cmd: nat, res: Command, pending: Option<Direction>)
    requires Between(s, l, cmd, res, pending) && cmd < |s| && IsSpecial(s[cmd])
    ensures Step(Tool, l, s[cmd]).NeedsShell?
  {
  }

  lemma {:induction false} OperatorStep(s: string, l: Lexer, cmd: nat, res: Command)
    requires Between(s, l, cmd, res, None) && cmd < |s| && (s[cmd] == '<' || s[cmd] == '>')
    ensures var m := Step(Tool, l, s[cmd]);
            if l.afterDigit then m.NeedsShell?
            else Between(s, m, cmd + 1, res, Some(if s[cmd] == '<' then In else Out)) && m.word.None?
  {
  }

  /** An operator where a target is expected. */
  lemma {:induction false} MissingTarget(s: string, l: Lexer, cmd: nat, res: Command, dir: Direction)
    requires Between(s, l, cmd, res, Some(dir)) && l.word.None? && cmd < |s| && (s[cmd] == '<' || s[cmd] == '>')
    ensures Step(Tool, l, s[cmd]).NeedsShell?
  {
  }

  lemma {:induction false} AfterDigitIs(s: string, n: nat)
    requires n <= |s| && After(Tool, s, n).Lexer?
    ensures After(Tool, s, n).afterDigit <==> n > 0 && IsDigit(s[n - 1])
  {
  }

  lemma {:induction false} UseShellNow(s: string, n: nat)
    requires n <= |s| && After(Tool, s, n).NeedsShell?
    ensures Read(Tool, s) == UseShell
  {
    Stuck(Tool, s, n, |s|);
  }

  /** No word can start here: at the end, on a special character, or on an operator that needs a target. */
  lemma {:induction false} NoWord(s: string, start: nat, res: Command, pending: Option<Direction>)
    requires start <= |s| && Between(s, After(Tool, s, start), start, res, pending)
    requires start == |s| || IsSpecial(s[start]) || (pending.Some? && (s[start] == '<' || s[start] == '>'))
    requires pending.Some? || start == |s| ==> After(Tool, s, start).word.None?
    ensures Read(Tool, s) == UseShell
  {
    var l := After(Tool, s, start);
    if start < |s| {
      if IsSpecial(s[start]) {
        SpecialStep(s, l, start, res, pending);
      } else {
        MissingTarget(s, l, start, res, pending.value);
      }
      UseShellNow(s, start + 1);
    }
  }

  /** Reads one word at the cursor: an argument or the target of `pending`. */
  method TakeWord(s: string, start: nat, res: Command, pending: Option<Direction>) returns (r: Arg)
    requires start <= |s| && (start < |s| ==> !IsSpace(s[start]))
    requires Between(s, After(Tool, s, start), start, res, pending)
    requires pending.None? && start < |s| ==> s[start] != '<' && s[start] != '>'
    requires pending.Some? || start == |s| ==> After(Tool, s, start).word.None?
    ensures r.Arg? ==>
              start < r.next <= |s| && Between(s, After(Tool, s, r.next), r.next, Deliver(res, pending, r.text), None)
    ensures r.Arg? ==> After(Tool, s, r.next).word.Some?
    ensures r.NoArg? ==> Read(Tool, s) == UseShell
    ensures r.PastEnd? ==> Read(Tool, s) == Overrun
  {
    r := GetArg(s, start);
    if start == |s| || Stops(s[start]) {
      NoWord(s, start, res, pending);
    }
  }

  /** Splits a simple command; exactly the tool's reading of the line. */
  method ParseSimpleCommand(s: string) returns (r: Verdict)
    ensures r == Read(Tool, s)
  {
    var cmd := 0;
    var res := Command([], None, None);
    while cmd < |s|
      invariant cmd <= |s| && Between(s, After(Tool, s, cmd), cmd, res, None)
      invariant After(Tool, s, cmd).word.Some? || cmd == 0
    {
      ghost var before := cmd;
      cmd := SkipWs(s, cmd);
      SpacesStep(s, before, cmd, res, None);
      var pending := None;
      if cmd < |s| && (s[cmd] == '<' || s[cmd] == '>') {
        OperatorStep(s, After(Tool, s, cmd), cmd, res);
        AfterDigitIs(s, cmd);
        if cmd > 0 && IsDigit(s[cmd - 1]) {
          UseShellNow(s, cmd + 1);
          return UseShell;
        }
        pending := Some(if s[cmd] == '<' then In else Out);
        ghost var target := cmd + 1;
        cmd := SkipWs(s, cmd + 1);
        SpacesStep(s, target, cmd, res, pending);
      }
      var arg := TakeWord(s, cmd, res, pending);
      match arg {
        case PastEnd => return Overrun;
        case NoArg => return UseShell;
        case Arg(text, next) =>
          res := Deliver(res, pending, text);
          cmd := next;
      }
    }
    if res.args == [] || '=' in res.args[0] {
      return UseShell;
    }
    r := Simple(res);
  }
}
