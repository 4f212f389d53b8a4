/**
 When the shell bypass reads a line as the shell does: exactly when every character at which the two readings
 part only touches the target of a redirection that a later one of the same kind overwrites.
 */
module ShellExact {
  import opened Wrappers
  import opened Shell
  import opened ShellProperties

  // ----- the condition

  /** Character `n` is an unquoted redirection operator of direction `d`. */
  predicate Redirects(s: string, n: nat, d: Direction)
    requires n < |s|
  {
    var l := After(Tool, s, n);
    l.Lexer? && l.mode.Plain? && s[n] == Sign(d)
  }

  /** Such an operator stands at or after `n`. */
  predicate Later(s: string, n: nat, d: Direction)
    requires n <= |s|
    decreases |s| - n
  {
    n < |s| && (Redirects(s, n, d) || Later(s, n + 1, d))
  }

  /** Character `n` is in the target of a redirection that is overwritten later; it is no newline, and a space
      is directly followed by the rest of the target. */
  predicate Excused(s: string, n: nat)
    requires n < |s|
  {
    var l := After(Tool, s, n);
    && l.Lexer? && l.pending.Some? && Later(s, n, l.pending.value)
    && (l.mode.Plain? ==> s[n] != '\n' && n + 1 < |s| && !IsBlank(s[n + 1]))
  }

  predicate HarmlessAt(s: string, n: nat)
    requires n < |s|
  {
    OrdinaryPosition(s, n) || Excused(s, n)
  }

  predicate Harmless(s: string) {
    forall n: nat :: n < |s| ==> HarmlessAt(s, n)
  }

  // ----- words that can never become equal

  /** The text of a word, none if it has not started. */
  function Text(w: Option<string>): string {
    if w.Some? then w.value else ""
  }

  predicate Mismatch(t: string, p: string) {
    exists i: nat :: i < |t| && i < |p| && t[i] != p[i]
  }

  /** `p` goes on after `t`, without a newline. */
  predicate PosixAhead(t: string, p: string) {
    |t| < |p| && p[..|t|] == t && forall i: nat :: |t| <= i < |p| ==> p[i] != '\n'
  }

  /** `t` goes on after `p`, with newlines only. */
  predicate ToolAhead(t: string, p: string) {
    |p| < |t| && t[..|p|] == p && forall i: nat :: |p| <= i < |t| ==> t[i] == '\n'
  }

  predicate Apart(t: string, p: string) {
    Mismatch(t, p) || PosixAhead(t, p) || ToolAhead(t, p)
  }

  lemma {:induction false} ApartDiffer(t: string, p: string)
    requires Apart(t, p)
    ensures t != p
  {
  }

  lemma {:induction false} MismatchGrows(t: string, p: string, x: string, y: string)
    requires Mismatch(t, p)
    ensures Mismatch(t + x, p + y)
  {
    var i: nat :| i < |t| && i < |p| && t[i] != p[i];
    assert (t + x)[i] == t[i] && (p + y)[i] == p[i];
  }

  /** Adding the same character keeps them apart. */
  lemma {:induction false} ApartSame(t: string, p: string, c: char)
    requires Apart(t, p)
    ensures Apart(t + [c], p + [c])
  {
    var t', p' := t + [c], p + [c];
    if Mismatch(t, p) {
      MismatchGrows(t, p, [c], [c]);
    } else if PosixAhead(t, p) {
      assert t'[|t|] == c && p'[|t|] == p[|t|];
      if c == p[|t|] {
        assert p'[..|t'|] == p[..|t|] + [c];
        assert PosixAhead(t', p');
      }
    } else {
      assert p'[|p|] == c && t'[|p|] == t[|p|];
      if c == '\n' {
        assert t'[..|p'|] == t[..|p|] + [c];
        assert ToolAhead(t', p');
      }
    }
  }

  /** So does an escaped character that only the shell keeps the backslash of. */
  lemma {:induction false} ApartStray(t: string, p: string, c: char)
    requires Apart(t, p) && c != '\n'
    ensures Apart(t + [c], p + ['\\', c])
  {
    var t', p' := t + [c], p + ['\\', c];
    if Mismatch(t, p) {
      MismatchGrows(t, p, [c], ['\\', c]);
    } else if PosixAhead(t, p) {
      assert t'[|t|] == c && p'[|t|] == p[|t|];
      if c == p[|t|] {
        assert p'[..|t'|] == p[..|t|] + [c];
        assert PosixAhead(t', p');
      }
    } else {
      assert p'[|p|] == '\\' && t'[|p|] == '\n';
    }
  }

  /** So does an escaped newline, which the shell drops. */
  lemma {:induction false} ApartContinued(t: string, p: string)
    requires Apart(t, p)
    ensures Apart(t + "\n", p)
  {
    var t' := t + "\n";
    if Mismatch(t, p) {
      MismatchGrows(t, p, "\n", "");
      assert p + "" == p;
    } else if PosixAhead(t, p) {
      assert t'[|t|] == '\n' && p[|t|] != '\n';
    } else {
      assert t'[..|p|] == p;
      assert ToolAhead(t', p);
    }
  }

  /** And an unquoted control space, which the tool drops before a word. */
  lemma {:induction false} ApartSkipped(p: string, c: char)
    requires (p == "" || Apart("", p)) && c != '\n'
    ensures Apart("", p + [c])
  {
    assert PosixAhead("", p + [c]);
  }

  /** One character the two readings take differently drives equal words apart. */
  lemma {:induction false} ApartStart(w: string, c: char)
    requires !IsEscapable(c)
    ensures Apart(w + [c], w + Unescape(Posix, c))
  {
    var t, p := w + [c], w + Unescape(Posix, c);
    if c == '\n' {
      assert p == w && t[..|p|] == p;
      assert ToolAhead(t, p);
    } else {
      assert t[|w|] == c && p[|w|] == '\\';
    }
  }

  // ----- the two tokenizers side by side

  /** Which redirections are still to come. */
  datatype Fate = Fate(input: bool, output: bool) {
    predicate At(d: Direction) {
      if d.In? then input else output
    }
  }

  predicate Turns(f: Fate, f': Fate, tool: Lexer, c: char) {
    tool.Lexer? && forall d: Direction :: f.At(d) <==> f'.At(d) || (tool.mode.Plain? && c == Sign(d))
  }

  function Slot(cmd: Command, d: Direction): Option<string> {
    if d.In? then cmd.stdin else cmd.stdout
  }

  /** What holds of any two readings of the same text: the shell's words are never behind the tool's. */
  predicate Paired(t: Lexer, p: Lexer) {
    && t.Lexer? && p.Lexer? && t.mode == p.mode && t.afterDigit == p.afterDigit && DigitsEnd(p)
    && (t.word.Some? ==> p.word.Some?)
    && (p.pending == t.pending || p.pending.None?)
    && |t.cmd.args| <= |p.cmd.args|
  }

  /** The readings agree, but for targets that will be overwritten.  `glued` tells that the next character is
      no blank. */
  predicate Near(t: Lexer, p: Lexer, f: Fate, glued: bool) {
    && Paired(t, p) && p.pending == t.pending && p.cmd.args == t.cmd.args
    && (forall d: Direction :: Slot(t.cmd, d) == Slot(p.cmd, d) || f.At(d) || t.pending == Some(d))
    && (t.word == p.word || (t.pending.Some? && f.At(t.pending.value) && (t.word.Some? || glued)))
  }

  /** The target of direction `d` differs and is never overwritten. */
  predicate TargetLost(t: Lexer, p: Lexer, f: Fate, d: Direction)
    requires t.Lexer? && p.Lexer?
  {
    Slot(t.cmd, d) != Slot(p.cmd, d) && !f.At(d) && t.pending != Some(d)
  }

  /** Words that end up in the same place, for good, are apart. */
  predicate WordLost(t: Lexer, p: Lexer, f: Fate)
    requires t.Lexer? && p.Lexer?
  {
    && p.pending == t.pending && (t.pending.Some? ==> !f.At(t.pending.value))
    && p.word.Some? && Apart(Text(t.word), p.word.value)
  }

  /** What has gone wrong in the commands. */
  predicate CommandLost(t: Lexer, p: Lexer, f: Fate)
    requires t.Lexer? && p.Lexer?
  {
    || |t.cmd.args| < |p.cmd.args|
    || (t.pending.Some? && p.pending.None?)
    || !(t.cmd.args <= p.cmd.args)
    || TargetLost(t, p, f, In) || TargetLost(t, p, f, Out)
  }

  /** The results will differ.  `blank` tells that the next character is a blank. */
  predicate Gone(t: Lexer, p: Lexer, f: Fate, blank: bool) {
    || p.NeedsShell?
    || (Paired(t, p)
        && (|| CommandLost(t, p, f)
            || WordLost(t, p, f)
            || (blank && t.pending.Some? && t.word.None? && p.word.Some?)))
  }

  // ----- the end of a word

  lemma {:induction false} EndPaired(t: Lexer, p: Lexer)
    requires Paired(t, p)
    ensures Paired(EndWord(t), EndWord(p))
  {
  }

  lemma {:induction false} StillNoPrefix(x: seq<string>, y: seq<string>, a: seq<string>, b: seq<string>)
    requires |x| <= |y| && !(x <= y)
    ensures !(x + a <= y + b)
  {
    assert x != y[..|x|];
    var k :| 0 <= k < |x| && x[k] != y[k];
    assert (x + a)[k] != (y + b)[k];
  }

  lemma {:induction false} EndLost(t: Lexer, p: Lexer, f: Fate)
    requires Paired(t, p) && (CommandLost(t, p, f) || WordLost(t, p, f))
    ensures CommandLost(EndWord(t), EndWord(p), f)
  {
    if WordLost(t, p, f) {
      ApartDiffer(Text(t.word), p.word.value);
      if t.pending.None? && t.word.Some? && |t.cmd.args| == |p.cmd.args| {
        assert EndWord(t).cmd.args[|t.cmd.args|] != EndWord(p).cmd.args[|t.cmd.args|];
      }
    } else if !(t.cmd.args <= p.cmd.args) {
      StillNoPrefix(t.cmd.args, p.cmd.args, EndWord(t).cmd.args[|t.cmd.args|..], EndWord(p).cmd.args[|p.cmd.args|..]);
    }
  }

  lemma {:induction false} EndOwing(t: Lexer, p: Lexer, f: Fate)
    requires Paired(t, p) && t.pending.Some? && t.word.None? && p.word.Some?
    ensures CommandLost(EndWord(t), EndWord(p), f)
  {
  }

  /** Both words end: the command stays near, unless the shell's word ends alone. */
  lemma {:induction false} EndNear(t: Lexer, p: Lexer, f: Fate, glued: bool)
    requires Near(t, p, f, glued) && (t.word.Some? || p.word.None?)
    ensures var t', p' := EndWord(t), EndWord(p);
            && Paired(t', p') && p'.pending == t'.pending && p'.cmd.args == t'.cmd.args
            && t'.word == p'.word
            && forall d: Direction :: Slot(t'.cmd, d) == Slot(p'.cmd, d) || f.At(d) || t'.pending == Some(d)
  {
  }

  // ----- one character of a quoted string

  /** Inside quotes only the words change. */
  lemma {:induction false} QuotedPaired(t: Lexer, p: Lexer, c: char)
    requires Paired(t, p) && !t.mode.Plain? && Step(Tool, t, c).Lexer?
    ensures var t', p' := Step(Tool, t, c), Step(Posix, p, c);
            Paired(t', p') && t'.cmd == t.cmd && p'.cmd == p.cmd && t'.pending == t.pending && p'.pending == p.pending
  {
    DigitsEndStep(Posix, p, c);
  }

  lemma {:induction false} QuotedNear(t: Lexer, p: Lexer, c: char, f: Fate, f': Fate, glued: bool, glued': bool)
    requires Near(t, p, f, glued) && !t.mode.Plain? && Step(Tool, t, c).Lexer? && Turns(f, f', t, c)
    requires t.word.Some?
    requires OrdinaryAt(t, c) || (t.pending.Some? && f.At(t.pending.value))
    ensures Near(Step(Tool, t, c), Step(Posix, p, c), f', glued')
  {
    QuotedPaired(t, p, c);
  }

  lemma {:induction false} QuotedWordLost(t: Lexer, p: Lexer, c: char)
    requires Paired(t, p) && !t.mode.Plain? && t.word.Some? && Step(Tool, t, c).Lexer?
    requires Apart(t.word.value, p.word.value)
    ensures Step(Tool, t, c).word.Some? && Step(Posix, p, c).word.Some?
    ensures Apart(Step(Tool, t, c).word.value, Step(Posix, p, c).word.value)
  {
    var tw, pw := t.word.value, p.word.value;
    if t.mode.Escaped? && !IsEscapable(c) {
      if c == '\n' {
        ApartContinued(tw, pw);
        assert pw + "" == pw;
      } else {
        ApartStray(tw, pw, c);
      }
    } else {
      ApartSame(tw, pw, c);
    }
  }

  lemma {:induction false} QuotedGone(t: Lexer, p: Lexer, c: char, f: Fate, f': Fate, blank: bool, blank': bool)
    requires Gone(t, p, f, blank) && t.Lexer? && !t.mode.Plain? && t.word.Some?
    requires Step(Tool, t, c).Lexer? && Turns(f, f', t, c)
    ensures Gone(Step(Tool, t, c), Step(Posix, p, c), f', blank')
  {
    if p.Lexer? {
      QuotedPaired(t, p, c);
      if WordLost(t, p, f) {
        QuotedWordLost(t, p, c);
      }
    }
  }

  /** A stray backslash in a word that counts. */
  lemma {:induction false} QuotedParts(t: Lexer, p: Lexer, c: char, f: Fate, f': Fate, glued: bool, blank': bool)
    requires Near(t, p, f, glued) && !t.mode.Plain? && t.word.Some? && Step(Tool, t, c).Lexer? && Turns(f, f', t, c)
    requires !OrdinaryAt(t, c) && !(t.pending.Some? && f.At(t.pending.value))
    ensures Gone(Step(Tool, t, c), Step(Posix, p, c), f', blank')
  {
    QuotedPaired(t, p, c);
    ApartStart(t.word.value, c);
  }

  // ----- one unquoted character

  /** A blank ends the words. */
  lemma {:induction false} BlankNear(t: Lexer, p: Lexer, c: char, f: Fate, f': Fate, glued: bool, glued': bool)
    requires Near(t, p, f, glued) && t.mode.Plain? && IsBlank(c) && !glued && Turns(f, f', t, c)
    ensures Near(Step(Tool, t, c), Step(Posix, p, c), f', glued')
  {
    EndNear(t, p, f, glued);
  }

  lemma {:induction false} BlankGone(t: Lexer, p: Lexer, c: char, f: Fate, f': Fate, blank: bool, blank': bool)
    requires Gone(t, p, f, blank) && t.Lexer? && t.mode.Plain? && IsBlank(c) && Turns(f, f', t, c)
    ensures Gone(Step(Tool, t, c), Step(Posix, p, c), f', blank')
  {
    if p.Lexer? {
      EndPaired(t, p);
      if CommandLost(t, p, f) || WordLost(t, p, f) {
        EndLost(t, p, f);
      } else {
        EndOwing(t, p, f);
      }
    }
  }

  /** An operator that the tool accepts. */
  lemma {:induction false} OperatorNear(t: Lexer, p: Lexer, dir: Direction, f: Fate, f': Fate, glued: bool,
                                        glued': bool)
    requires Near(t, p, f, glued) && t.mode.Plain? && Step(Tool, t, Sign(dir)).Lexer? && Turns(f, f', t, Sign(dir))
    ensures Near(Step(Tool, t, Sign(dir)), Step(Posix, p, Sign(dir)), f', glued')
  {
    EndNear(t, p, f, glued);
  }

  lemma {:induction false} OperatorGone(t: Lexer, p: Lexer, dir: Direction, f: Fate, f': Fate, blank: bool,
                                        blank': bool)
    requires Gone(t, p, f, blank) && t.Lexer? && t.mode.Plain? && !blank
    requires Step(Tool, t, Sign(dir)).Lexer? && Turns(f, f', t, Sign(dir))
    ensures Gone(Step(Tool, t, Sign(dir)), Step(Posix, p, Sign(dir)), f', blank')
  {
    if p.Lexer? {
      EndPaired(t, p);
      EndLost(t, p, f);
    }
  }

  /** A control space other than a newline: part of a word, but dropped by the tool before one. */
  lemma {:induction false} SpaceNear(t: Lexer, p: Lexer, c: char, f: Fate, f': Fate, glued: bool, glued': bool)
    requires Near(t, p, f, glued) && t.mode.Plain? && IsOddSpace(c) && c != '\n' && Turns(f, f', t, c)
    requires t.word.Some? || (t.pending.Some? && f.At(t.pending.value) && glued')
    ensures Near(Step(Tool, t, c), Step(Posix, p, c), f', glued')
  {
    DigitsEndStep(Posix, p, c);
  }

  lemma {:induction false} SpaceGone(t: Lexer, p: Lexer, c: char, f: Fate, f': Fate, blank: bool, blank': bool)
    requires Gone(t, p, f, blank) && t.Lexer? && t.mode.Plain? && IsOddSpace(c) && !blank && Turns(f, f', t, c)
    requires Step(Tool, t, c).Lexer?
    ensures Gone(Step(Tool, t, c), Step(Posix, p, c), f', blank')
  {
    if p.Lexer? && c != '\n' {
      DigitsEndStep(Posix, p, c);
      if WordLost(t, p, f) {
        if t.word.Some? {
          ApartSame(t.word.value, p.word.value, c);
        } else {
          ApartSkipped(p.word.value, c);
        }
      }
    }
  }

  /** Before a word that counts, or on its own, it drives the readings apart. */
  lemma {:induction false} SpaceParts(t: Lexer, p: Lexer, c: char, f: Fate, f': Fate, glued: bool, blank': bool)
    requires Near(t, p, f, glued) && t.mode.Plain? && IsOddSpace(c) && Turns(f, f', t, c)
    requires !OrdinaryAt(t, c)
    requires c == '\n' || !(t.pending.Some? && f.At(t.pending.value)) || blank'
    ensures Gone(Step(Tool, t, c), Step(Posix, p, c), f', blank')
  {
    if c != '\n' {
      DigitsEndStep(Posix, p, c);
      if !(t.pending.Some? && f.At(t.pending.value)) {
        ApartSkipped("", c);
        assert "" + [c] == [c];
      }
    }
  }

  /** Any other character that the tool accepts is part of a word for both. */
  predicate WordChar(c: char) {
    !IsSpace(c) && !IsSpecial(c) && c != '<' && c != '>'
  }

  lemma {:induction false} WordNear(t: Lexer, p: Lexer, c: char, f: Fate, f': Fate, glued: bool, glued': bool)
    requires Near(t, p, f, glued) && t.mode.Plain? && WordChar(c) && Turns(f, f', t, c)
    ensures Near(Step(Tool, t, c), Step(Posix, p, c), f', glued')
  {
    DigitsEndStep(Posix, p, c);
  }

  /** What a character adds to a word outside quotes: an opening quote adds nothing. */
  function Added(c: char): string {
    if c == '\'' || c == '"' then "" else [c]
  }

  lemma {:induction false} WordStepText(d: Dialect, l: Lexer, c: char)
    requires l.Lexer? && l.mode.Plain? && WordChar(c)
    ensures var m := Step(d, l, c);
            m.Lexer? && m.word == Some(Text(l.word) + Added(c)) && m.cmd == l.cmd && m.pending == l.pending
  {
    assert Text(l.word) + "" == Text(l.word) && "" + [c] == [c];
  }

  lemma {:induction false} WordGone(t: Lexer, p: Lexer, c: char, f: Fate, f': Fate, blank: bool, blank': bool)
    requires Gone(t, p, f, blank) && t.Lexer? && t.mode.Plain? && WordChar(c) && !blank && Turns(f, f', t, c)
    ensures Gone(Step(Tool, t, c), Step(Posix, p, c), f', blank')
  {
    WordStepText(Tool, t, c);
    if p.Lexer? {
      WordStepText(Posix, p, c);
      WordPaired(t, p, c);
      if WordLost(t, p, f) {
        ApartAdded(Text(t.word), p.word.value, c);
      }
    }
  }

  lemma {:induction false} ApartAdded(t: string, p: string, c: char)
    requires Apart(t, p)
    ensures Apart(t + Added(c), p + Added(c))
  {
    if Added(c) == "" {
      assert t + "" == t && p + "" == p;
    } else {
      ApartSame(t, p, c);
    }
  }

  lemma {:induction false} WordPaired(t: Lexer, p: Lexer, c: char)
    requires Paired(t, p) && t.mode.Plain? && WordChar(c)
    ensures Paired(Step(Tool, t, c), Step(Posix, p, c))
  {
    DigitsEndStep(Posix, p, c);
  }

  // ----- any character

  /** A quoted character is in a word. */
  predicate QuotedInWord(l: Lexer) {
    l.Lexer? && !l.mode.Plain? ==> l.word.Some?
  }

  lemma {:induction false} QuotedInWordStep(d: Dialect, l: Lexer, c: char)
    requires QuotedInWord(l)
    ensures QuotedInWord(Step(d, l, c))
  {
  }

  /** The character is harmless where it stands. */
  predicate Fine(t: Lexer, c: char, f: Fate, glued': bool) {
    t.Lexer? && (OrdinaryAt(t, c)
                 || (t.pending.Some? && f.At(t.pending.value) && (t.mode.Plain? ==> c != '\n' && glued')))
  }

  lemma {:induction false} NearStep(t: Lexer, p: Lexer, c: char, f: Fate, f': Fate, glued': bool)
    requires Near(t, p, f, !IsBlank(c)) && QuotedInWord(t) && Step(Tool, t, c).Lexer? && Turns(f, f', t, c)
    requires Fine(t, c, f, glued')
    ensures Near(Step(Tool, t, c), Step(Posix, p, c), f', glued')
  {
    if !t.mode.Plain? {
      QuotedNear(t, p, c, f, f', !IsBlank(c), glued');
    } else if IsBlank(c) {
      BlankNear(t, p, c, f, f', false, glued');
    } else if IsOddSpace(c) {
      SpaceNear(t, p, c, f, f', true, glued');
    } else if c == '<' {
      OperatorNear(t, p, In, f, f', true, glued');
    } else if c == '>' {
      OperatorNear(t, p, Out, f, f', true, glued');
    } else {
      WordNear(t, p, c, f, f', true, glued');
    }
  }

  lemma {:induction false} GoneStep(t: Lexer, p: Lexer, c: char, f: Fate, f': Fate, blank': bool)
    requires Gone(t, p, f, IsBlank(c)) && QuotedInWord(t) && Step(Tool, t, c).Lexer? && Turns(f, f', t, c)
    ensures Gone(Step(Tool, t, c), Step(Posix, p, c), f', blank')
  {
    if !t.mode.Plain? {
      QuotedGone(t, p, c, f, f', IsBlank(c), blank');
    } else if IsBlank(c) {
      BlankGone(t, p, c, f, f', true, blank');
    } else if IsOddSpace(c) {
      SpaceGone(t, p, c, f, f', false, blank');
    } else if c == '<' {
      OperatorGone(t, p, In, f, f', false, blank');
    } else if c == '>' {
      OperatorGone(t, p, Out, f, f', false, blank');
    } else {
      WordGone(t, p, c, f, f', false, blank');
    }
  }

  lemma {:induction false} PartStep(t: Lexer, p: Lexer, c: char, f: Fate, f': Fate, glued': bool, blank': bool)
    requires Near(t, p, f, !IsBlank(c)) && QuotedInWord(t) && Step(Tool, t, c).Lexer? && Turns(f, f', t, c)
    requires !Fine(t, c, f, glued') && (glued' || blank' || Step(Tool, t, c).word.Some?)
    ensures Gone(Step(Tool, t, c), Step(Posix, p, c), f', blank')
  {
    if t.mode.Plain? {
      SpaceParts(t, p, c, f, f', !IsBlank(c), blank');
    } else {
      QuotedParts(t, p, c, f, f', !IsBlank(c), blank');
    }
  }

  // ----- whole lines

  function FateAt(s: string, n: nat): Fate
    requires n <= |s|
  {
    Fate(Later(s, n, In), Later(s, n, Out))
  }

  predicate BlankAt(s: string, n: nat) {
    n < |s| && IsBlank(s[n])
  }

  predicate GluedAt(s: string, n: nat) {
    n < |s| && !IsBlank(s[n])
  }

  lemma {:induction false} FateTurns(s: string, n: nat)
    requires n < |s| && After(Tool, s, n).Lexer?
    ensures Turns(FateAt(s, n), FateAt(s, n + 1), After(Tool, s, n), s[n])
  {
    var f, f', l := FateAt(s, n), FateAt(s, n + 1), After(Tool, s, n);
    forall d: Direction ensures f.At(d) <==> f'.At(d) || (l.mode.Plain? && s[n] == Sign(d)) {
      assert Later(s, n, d) <==> Redirects(s, n, d) || Later(s, n + 1, d);
    }
  }

  lemma {:induction false} FineIsHarmless(s: string, n: nat)
    requires n < |s| && After(Tool, s, n).Lexer?
    ensures Fine(After(Tool, s, n), s[n], FateAt(s, n), GluedAt(s, n + 1)) <==> HarmlessAt(s, n)
  {
  }

  lemma {:induction false} ToolRuns(s: string, n: nat)
    requires n <= |s| && Read(Tool, s).Simple?
    ensures After(Tool, s, n).Lexer? && QuotedInWord(After(Tool, s, n))
  {
    if n > 0 {
      ToolRuns(s, n - 1);
      QuotedInWordStep(Tool, After(Tool, s, n - 1), s[n - 1]);
    }
    if After(Tool, s, n).NeedsShell? {
      Stuck(Tool, s, n, |s|);
    }
  }

  /** All characters before `n` are harmless. */
  predicate HarmlessBefore(s: string, n: nat)
    requires n <= |s|
  {
    n == 0 || (HarmlessBefore(s, n - 1) && HarmlessAt(s, n - 1))
  }

  lemma {:induction false} HarmlessBeforeAll(s: string, n: nat)
    requires n <= |s|
    ensures HarmlessBefore(s, n) <==> forall k: nat :: k < n ==> HarmlessAt(s, k)
  {
    if n > 0 {
      HarmlessBeforeAll(s, n - 1);
    }
  }

  predicate NearAt(s: string, n: nat)
    requires n <= |s|
  {
    Near(After(Tool, s, n), After(Posix, s, n), FateAt(s, n), GluedAt(s, n))
  }

  predicate GoneAt(s: string, n: nat)
    requires n <= |s|
  {
    Gone(After(Tool, s, n), After(Posix, s, n), FateAt(s, n), BlankAt(s, n))
  }

  lemma {:induction false} NearStart(s: string)
    ensures NearAt(s, 0)
  {
  }

  lemma {:induction false} NearAtStep(s: string, n: nat)
    requires n < |s| && Read(Tool, s).Simple? && NearAt(s, n)
    ensures if HarmlessAt(s, n) then NearAt(s, n + 1) else GoneAt(s, n + 1)
  {
    var t, p, f, f' := After(Tool, s, n), After(Posix, s, n), FateAt(s, n), FateAt(s, n + 1);
    ToolRuns(s, n);
    ToolRuns(s, n + 1);
    FateTurns(s, n);
    FineIsHarmless(s, n);
    if HarmlessAt(s, n) {
      NearStep(t, p, s[n], f, f', GluedAt(s, n + 1));
    } else {
      PartStep(t, p, s[n], f, f', GluedAt(s, n + 1), BlankAt(s, n + 1));
    }
  }

  lemma {:induction false} GoneAtStep(s: string, n: nat)
    requires n < |s| && Read(Tool, s).Simple? && GoneAt(s, n)
    ensures GoneAt(s, n + 1)
  {
    ToolRuns(s, n);
    ToolRuns(s, n + 1);
    FateTurns(s, n);
    GoneStep(After(Tool, s, n), After(Posix, s, n), s[n], FateAt(s, n), FateAt(s, n + 1), BlankAt(s, n + 1));
  }

  /** At every point of a line the tool accepts, the readings are near if all was harmless, and gone otherwise. */
  lemma {:induction false} Track(s: string, n: nat)
    requires n <= |s| && Read(Tool, s).Simple?
    ensures if HarmlessBefore(s, n) then NearAt(s, n) else GoneAt(s, n)
  {
    if n == 0 {
      NearStart(s);
    } else {
      Track(s, n - 1);
      if HarmlessBefore(s, n - 1) {
        NearAtStep(s, n - 1);
      } else {
        GoneAtStep(s, n - 1);
      }
    }
  }

  lemma {:induction false} NearFinish(t: Lexer, p: Lexer)
    requires Near(t, p, Fate(false, false), false) && Finish(Tool, t).Simple?
    ensures Finish(Posix, p) == Finish(Tool, t)
  {
    EndNear(t, p, Fate(false, false), false);
    var a, b := EndWord(t).cmd, EndWord(p).cmd;
    assert Slot(a, In) == Slot(b, In) && Slot(a, Out) == Slot(b, Out);
  }

  lemma {:induction false} GoneFinish(t: Lexer, p: Lexer)
    requires Gone(t, p, Fate(false, false), false) && Finish(Tool, t).Simple?
    ensures Finish(Posix, p) != Finish(Tool, t)
  {
    if p.Lexer? {
      EndLost(t, p, Fate(false, false));
    }
  }

  /**
   On every line the bypass accepts, it reads words and targets as the shell does if and only if every character
   is harmless: it is ordinary where it stands, or only touches a target that is overwritten.
   */
  lemma {:induction false} BypassExact(s: string)
    requires Read(Tool, s).Simple?
    ensures Read(Posix, s) == Read(Tool, s) <==> Harmless(s)
  {
    var t, p := After(Tool, s, |s|), After(Posix, s, |s|);
    Track(s, |s|);
    ToolRuns(s, |s|);
    HarmlessBeforeAll(s, |s|);
    if Harmless(s) {
      NearFinish(t, p);
    } else {
      GoneFinish(t, p);
    }
  }

  // ----- lines with one redirection of each kind

  /** No operator stands where its direction already waits for a target or has one. */
  predicate OneTarget(s: string) {
    forall n: nat, d: Direction :: n < |s| && Redirects(s, n, d) ==> !Taken(After(Tool, s, n), d)
  }

  predicate Taken(l: Lexer, d: Direction) {
    l.Lexer? && (l.pending == Some(d) || Slot(l.cmd, d).Some?)
  }

  lemma {:induction false} TakenStep(l: Lexer, c: char, d: Direction)
    requires Taken(l, d) && Step(Tool, l, c).Lexer?
    ensures Taken(Step(Tool, l, c), d)
  {
  }

  lemma {:induction false} TakenNotLater(s: string, n: nat, d: Direction)
    requires n <= |s| && OneTarget(s) && Read(Tool, s).Simple? && Taken(After(Tool, s, n), d)
    ensures !Later(s, n, d)
    decreases |s| - n
  {
    if n < |s| {
      ToolRuns(s, n + 1);
      TakenStep(After(Tool, s, n), s[n], d);
      TakenNotLater(s, n + 1, d);
    }
  }

  /** There nothing is overwritten, and the bypass is right exactly on the ordinary lines. */
  lemma {:induction false} BypassExactOneTarget(s: string)
    requires Read(Tool, s).Simple? && OneTarget(s)
    ensures Read(Posix, s) == Read(Tool, s) <==> Ordinary(s)
  {
    BypassExact(s);
    forall n: nat | n < |s| ensures HarmlessAt(s, n) <==> OrdinaryPosition(s, n) {
      ToolRuns(s, n);
      var l := After(Tool, s, n);
      if l.pending.Some? {
        TakenNotLater(s, n, l.pending.value);
      }
    }
  }

  lemma {:induction false} OverwrittenStart(d: Dialect, s: string)
    requires s == "e <\"\\b\" <c"
    ensures After(d, s, 5) == Lexer(Escaped, Some(""), false, false, Command(["e"], None, None), Some(In))
  {
    var e := Command(["e"], None, None);
    assert After(d, s, 1) == Lexer(Plain, Some("e"), false, false, Command([], None, None), None);
    assert Command([], None, None).args + ["e"] == ["e"];
    assert After(d, s, 2) == Lexer(Plain, None, true, false, e, None);
    assert After(d, s, 3) == Lexer(Plain, None, true, false, e, Some(In));
    assert After(d, s, 4) == Lexer(InDouble, Some(""), false, false, e, Some(In));
  }

  lemma {:induction false} OverwrittenRun(d: Dialect, s: string)
    requires s == "e <\"\\b\" <c"
    ensures Read(d, s) == Simple(Command(["e"], Some("c"), None))
  {
    var e, x := Command(["e"], None, None), "" + Unescape(d, 'b');
    OverwrittenStart(d, s);
    assert After(d, s, 6) == Lexer(InDouble, Some(x), false, false, e, Some(In));
    assert After(d, s, 7) == Lexer(Plain, Some(x), false, false, e, Some(In));
    assert After(d, s, 8) == Lexer(Plain, None, true, false, Command(["e"], Some(x), None), None);
    assert After(d, s, 9) == Lexer(Plain, None, true, false, Command(["e"], Some(x), None), Some(In));
    assert After(d, s, 10) == Lexer(Plain, Some("c"), false, false, Command(["e"], Some(x), None), Some(In));
  }

  /** A line on which an overwritten target is read differently, and the result is the same. */
  lemma {:induction false} OverwrittenTarget()
    ensures var s := "e <\"\\b\" <c"; !Ordinary(s) && Read(Tool, s).Simple? && Read(Posix, s) == Read(Tool, s)
  {
    var s := "e <\"\\b\" <c";
    OverwrittenRun(Tool, s);
    OverwrittenRun(Posix, s);
    OverwrittenStart(Tool, s);
    assert !OrdinaryPosition(s, 5);
  }

  /** A line that ends with a backslash in an open double quote: the tool reads past its end. */
  lemma {:induction false} OverrunLine()
    ensures Read(Tool, "e \"\\") == Overrun && Read(Posix, "e \"\\") == UseShell
  {
    var s, e := "e \"\\", Command(["e"], None, None);
    forall d: Dialect ensures After(d, s, 4) == Lexer(Escaped, Some(""), false, false, e, None) {
      assert After(d, s, 1) == Lexer(Plain, Some("e"), false, false, Command([], None, None), None);
      assert Command([], None, None).args + ["e"] == ["e"];
      assert After(d, s, 2) == Lexer(Plain, None, true, false, e, None);
      assert After(d, s, 3) == Lexer(InDouble, Some(""), false, false, e, None);
    }
  }
}
