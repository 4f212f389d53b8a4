/**
 Reading one column of a CSV file (the format of section 2 of RFC 4180) and writing the line back with
 that column replaced.
 */
module Csv {
  import opened Wrappers

  // ----- quotes

  /** Whether the first `n` characters of `s` have an odd number of double quotes. */
  function OddAt(s: string, n: nat): bool
    requires n <= |s|
  {
    if n == 0 then false else OddAt(s, n - 1) != (s[n - 1] == '"')
  }

  function Odd(s: string): bool {
    OddAt(s, |s|)
  }

  lemma {:induction false} OddPrefix(a: string, b: string, n: nat)
    requires n <= |a|
    ensures OddAt(a + b, n) == OddAt(a, n)
  {
    if n > 0 {
      OddPrefix(a, b, n - 1);
    }
  }

  lemma {:induction false} OddShift(a: string, b: string, n: nat)
    requires n <= |b|
    ensures OddAt(a + b, |a| + n) == (Odd(a) != OddAt(b, n))
  {
    if n == 0 {
      OddPrefix(a, b, |a|);
    } else {
      OddShift(a, b, n - 1);
    }
  }

  lemma {:induction false} OddConcat(a: string, b: string)
    ensures Odd(a + b) == (Odd(a) != Odd(b))
  {
    OddShift(a, b, |b|);
  }

  // ----- columns, by the parity of the quotes to the left

  /** Position `i` of `s` is a comma outside quotes. */
  predicate Separator(s: string, i: nat) {
    i < |s| && s[i] == ',' && !OddAt(s, i)
  }

  /** The first separator at or after `i`, or the end. */
  function NextSeparator(s: string, i: nat): (j: nat)
    requires i <= |s|
    ensures i <= j <= |s|
    decreases |s| - i
  {
    if i == |s| || Separator(s, i) then i else NextSeparator(s, i + 1)
  }

  lemma {:induction false} NextSeparatorFirst(s: string, i: nat)
    requires i <= |s|
    ensures NextSeparator(s, i) < |s| ==> Separator(s, NextSeparator(s, i))
    ensures forall k: nat :: i <= k < NextSeparator(s, i) ==> !Separator(s, k)
    decreases |s| - i
  {
    if i < |s| && !Separator(s, i) {
      NextSeparatorFirst(s, i + 1);
    }
  }

  lemma {:induction false} NextSeparatorIs(s: string, i: nat, j: nat)
    requires i <= j <= |s| && (j < |s| ==> Separator(s, j))
    requires forall k: nat :: i <= k < j ==> !Separator(s, k)
    ensures NextSeparator(s, i) == j
  {
    NextSeparatorFirst(s, i);
  }

  /** Where column `col` starts (columns are counted from 1), if the record has that many. */
  function ColumnStart(s: string, col: nat): (r: Option<nat>)
    requires col > 0
    ensures r.Some? ==> r.value <= |s|
    ensures r.Some? && col > 1 ==> r.value > 0
  {
    if col == 1 then Some(0)
    else
      var before := ColumnStart(s, col - 1);
      if before.None? || NextSeparator(s, before.value) == |s| then None
      else Some(NextSeparator(s, before.value) + 1)
  }

  lemma {:induction false} ColumnAfterSeparator(s: string, col: nat)
    requires col > 1 && ColumnStart(s, col).Some?
    ensures Separator(s, ColumnStart(s, col).value - 1)
  {
    NextSeparatorFirst(s, ColumnStart(s, col - 1).value);
  }

  lemma {:induction false} NoLaterColumn(s: string, col: nat, col': nat)
    requires 0 < col <= col' && ColumnStart(s, col).None?
    ensures ColumnStart(s, col').None?
  {
    if col < col' {
      NoLaterColumn(s, col, col' - 1);
    }
  }

  /** Removes the quotes of a field; inside a quoted part a doubled quote stands for one. */
  function Unquote(s: string, instring: bool): (r: string)
    ensures |r| <= |s|
  {
    if s == "" then ""
    else if s[0] != '"' then [s[0]] + Unquote(s[1..], instring)
    else if instring && |s| > 1 && s[1] == '"' then ['"'] + Unquote(s[2..], instring)
    else Unquote(s[1..], !instring)
  }

  /** A line with the column taken out: what is before, the text of the field, what is after. */
  datatype Record = Record(prefix: Option<string>, field: string, suffix: Option<string>)

  /** The bounds of column `col`; nothing if there are not enough columns or the column is empty. */
  function Bounds(s: string, col: nat): (r: Option<(nat, nat)>)
    requires col > 0
    ensures r.Some? ==> r.value.0 < r.value.1 <= |s| && (col > 1 ==> r.value.0 > 0)
  {
    var start := ColumnStart(s, col);
    if start.None? || start.value == NextSeparator(s, start.value) then None
    else Some((start.value, NextSeparator(s, start.value)))
  }

  function PrefixAt(s: string, col: nat, start: nat): Option<string>
    requires start <= |s| && (col > 1 ==> start > 0)
  {
    if col <= 1 then None else Some(s[..start - 1])
  }

  function SuffixAt(s: string, end: nat): Option<string>
    requires end <= |s|
  {
    if end < |s| then Some(s[end + 1..]) else None
  }

  /** Column `col` of a record, and what surrounds it without the delimiting commas. */
  function ReadRecord(s: string, col: nat): Option<Record>
    requires col > 0
  {
    var bounds := Bounds(s, col);
    if bounds.None? then None
    else
      var (start, end) := bounds.value;
      Some(Record(PrefixAt(s, col, start), Unquote(s[start..end], false), SuffixAt(s, end)))
  }

  // ----- the scanner

  /** One step of the scanner: a doubled quote inside a string is skipped at once. */
  method ScanStep(s: string, str: nat, instring: bool) returns (str': nat, instring': bool, comma: bool)
    requires str < |s| && instring == OddAt(s, str)
    ensures comma <==> Separator(s, str)
    ensures str < str' <= |s| && instring' == OddAt(s, str')
    ensures comma ==> str' == str + 1
    ensures !comma ==> NextSeparator(s, str) == NextSeparator(s, str')
  {
    str', instring', comma := str + 1, instring, false;
    if s[str] == '"' {
      if instring && str + 1 < |s| && s[str + 1] == '"' {
        assert OddAt(s, str + 1) != OddAt(s, str + 2);
        str' := str + 2;
      } else {
        instring' := !instring;
      }
    } else if s[str] == ',' {
      comma := !instring;
    }
  }

  /** Finds the column in one pass. */
  method ScanColumn(s: string, col: nat) returns (r: Option<(nat, nat)>)
    requires col > 0
    ensures r.None? <==> ColumnStart(s, col).None?
    ensures r.Some? ==> ColumnStart(s, col) == Some(r.value.0) && r.value.1 == NextSeparator(s, r.value.0)
  {
    var str, start := 0, 0;
    var colnum := 1;
    var instring := false;
    ghost var current := 0;
    while str < |s|
      invariant str <= |s| && instring == OddAt(s, str)
      invariant 0 < colnum <= col && ColumnStart(s, colnum) == Some(current)
      invariant current <= str && NextSeparator(s, current) == NextSeparator(s, str)
      invariant colnum == col ==> start == current
    {
      var str', comma;
      str', instring, comma := ScanStep(s, str, instring);
      if comma {
        if col == colnum {
          return Some((start, str));
        }
        colnum := colnum + 1;
        current := str + 1;
        if col == colnum {
          start := str + 1;
        }
      }
      str := str';
    }
    if colnum != col {
      NoLaterColumn(s, colnum + 1, col);
      return None;
    }
    r := Some((start, str));
  }

  /** One step of unquoting: the character to keep, if any, and the new read position. */
  method UnquoteStep(s: string, src: nat, end: nat, instring: bool) returns (src': nat, instring': bool, kept: bool)
    requires src < end <= |s| && (end < |s| ==> s[end] != '"')
    ensures src < src' <= end
    ensures Unquote(s[src..end], instring)
            == (if kept then [s[src' - 1]] else []) + Unquote(s[src'..end], instring')
  {
    src', instring', kept := src + 1, instring, true;
    assert s[src..end][1..] == s[src + 1..end];
    if s[src] == '"' {
      if instring && src + 1 < |s| && s[src + 1] == '"' {
        assert s[src..end][2..] == s[src + 2..end];
        src' := src + 2;
      } else {
        instring', kept := !instring, false;
      }
    }
  }

  /** Rewrites the field in place: `dst` never overtakes the read position, which never passes the end. */
  method UnquoteField(s: string, start: nat, end: nat) returns (field: string)
    requires start <= end <= |s| && (end < |s| ==> s[end] != '"')
    ensures field == Unquote(s[start..end], false)
  {
    field := s[start..end];
    if !HasQuote(field) {
      UnquotePlain(field, false);
      return;
    }
    ghost var whole := Unquote(field, false);
    var src, dst, instring := start, 0, false;
    while src != end
      invariant start <= src <= end && dst <= src - start && |field| == end - start
      invariant whole == field[..dst] + Unquote(s[src..end], instring)
      decreases end - src
    {
      var kept;
      src, instring, kept := UnquoteStep(s, src, end, instring);
      if kept {
        KeepOne(field, dst, s[src - 1], Unquote(s[src..end], instring));
        field := field[dst := s[src - 1]];
        dst := dst + 1;
      } else {
        assert [] + Unquote(s[src..end], instring) == Unquote(s[src..end], instring);
      }
    }
    assert s[src..end] == "";
    field := field[..dst];
  }

  lemma {:induction false} KeepOne(field: string, dst: nat, c: char, rest: string)
    requires dst < |field|
    ensures field[..dst] + ([c] + rest) == field[dst := c][..dst + 1] + rest
  {
    assert field[dst := c][..dst + 1] == field[..dst] + [c];
  }

  predicate HasQuote(s: string) {
    '"' in s
  }

  /** A field without quotes is taken as it is. */
  lemma {:induction false} UnquotePlain(s: string, instring: bool)
    requires '"' !in s
    ensures Unquote(s, instring) == s
  {
    if s != "" {
      UnquotePlain(s[1..], instring);
    }
  }

  /** Extracts column `col` of a complete record. */
  method ExtractColumn(s: string, col: nat) returns (r: Option<Record>)
    requires col > 0
    ensures r == ReadRecord(s, col)
  {
    var bounds := ScanColumn(s, col);
    if bounds.None? || bounds.value.0 == bounds.value.1 {
      return None;
    }
    var (start, end) := bounds.value;
    NextSeparatorFirst(s, start);
    var field := UnquoteField(s, start, end);
    var prefix := if col != 1 then Some(s[..start - 1]) else None;
    var suffix := if end < |s| then Some(s[end + 1..]) else None;
    r := Some(Record(prefix, field, suffix));
  }

  // ----- records that span several physical lines

  /** The record that starts with `full` and takes lines until its quotes are balanced, and the lines after it. */
  function Gather(full: string, lines: seq<string>): Option<(string, seq<string>)>
    decreases |lines|
  {
    if !Odd(full) then Some((full, lines))
    else if lines == [] then None
    else Gather(full + "\n" + lines[0], lines[1..])
  }

  /** An assembled record is balanced. */
  lemma {:induction false} GatherBalanced(full: string, lines: seq<string>)
    ensures Gather(full, lines).Some? ==> !Odd(Gather(full, lines).value.0)
    decreases |lines|
  {
    if Odd(full) && lines != [] {
      GatherBalanced(full + "\n" + lines[0], lines[1..]);
    }
  }

  /** Completes a record whose first line is `line`. */
  method AssembleRecord(first: string, lines: seq<string>) returns (r: Option<(string, seq<string>)>)
    ensures r == Gather(first, lines)
  {
    var line, rest := first, lines;
    var odd := false;
    var fullline := "";
    while true
      invariant odd == Odd(fullline)
      invariant fullline == "" ==> line == first && rest == lines
      invariant fullline != "" ==> odd && Gather(first, lines) == Gather(fullline + "\n" + line, rest)
      decreases |rest|
    {
      var dquotes := CountQuotes(line);
      OddConcat(fullline, "\n");
      OddConcat(fullline + "\n", line);
      odd := odd != (dquotes % 2 == 1);
      if fullline == "" {
        fullline := line;
      } else {
        fullline := fullline + "\n" + line;
      }
      if !odd {
        return Some((fullline, rest));
      }
      if rest == [] {
        return None;
      }
      line, rest := rest[0], rest[1..];
    }
  }

  method CountQuotes(line: string) returns (n: nat)
    ensures n % 2 == 1 <==> Odd(line)
  {
    n := 0;
    for i := 0 to |line|
      invariant n % 2 == 1 <==> OddAt(line, i)
    {
      n := n + if line[i] == '"' then 1 else 0;
    }
  }

  /** One trailing carriage return is dropped. */
  function StripCr(line: string): string {
    if line != "" && line[|line| - 1] == '\r' then line[..|line| - 1] else line
  }

  /** What C sees of a string: everything before the first NUL. */
  function CString(s: string): string {
    if s == "" || s[0] == '\0' then "" else [s[0]] + CString(s[1..])
  }

  /** The records read from a stream, and whether the stream ended inside quotes (which is fatal). */
  datatype Outcome = Outcome(records: seq<Record>, fatal: bool)

  function OptionToSeq<T>(o: Option<T>): seq<T> {
    if o.Some? then [o.value] else []
  }

  function Prepend(records: seq<Record>, o: Outcome): Outcome {
    Outcome(records + o.records, o.fatal)
  }

  lemma {:induction false} PrependTwice(a: seq<Record>, b: seq<Record>, o: Outcome)
    ensures Prepend(a, Prepend(b, o)) == Prepend(a + b, o)
  {
    assert a + (b + o.records) == (a + b) + o.records;
  }

  lemma {:induction false} GatherShrinks(full: string, lines: seq<string>)
    ensures Gather(full, lines).Some? ==> |Gather(full, lines).value.1| <= |lines|
    decreases |lines|
  {
    if Odd(full) && lines != [] {
      GatherShrinks(full + "\n" + lines[0], lines[1..]);
    }
  }

  /** Empty lines are ignored; column 0 stands for the whole line. */
  function ReadLines(lines: seq<string>, col: nat): Outcome
    decreases |lines|
  {
    if lines == [] then Outcome([], false)
    else if lines[0] == "" then ReadLines(lines[1..], col)
    else if col == 0 then Prepend([Record(None, lines[0], None)], ReadLines(lines[1..], col))
    else
      var r := Gather(StripCr(lines[0]), lines[1..]);
      if r.None? then Outcome([], true)
      else
        GatherShrinks(StripCr(lines[0]), lines[1..]);
        Prepend(OptionToSeq(ReadRecord(CString(r.value.0), col)), ReadLines(r.value.1, col))
  }

  /** Reads a whole stream.  A negative column means that the first line is a header. */
  method ProcessStream(stream: seq<string>, col: int) returns (r: Outcome)
    ensures col >= 0 ==> r == ReadLines(stream, col)
    ensures col < 0 ==> r == ReadLines(if stream == [] then [] else stream[1..], -col)
  {
    var lines := stream;
    var colToRead := col;
    if colToRead < 0 {
      if lines != [] {
        lines := lines[1..];
      }
      colToRead := -colToRead;
    }
    r := ReadColumn(lines, colToRead);
  }

  /** Reads from the first line: a field or nothing, and the lines left. */
  method ReadOne(lines: seq<string>, col: nat) returns (found: seq<Record>, rest: seq<string>, fatal: bool)
    requires lines != []
    ensures fatal ==> ReadLines(lines, col) == Outcome([], true)
    ensures !fatal ==> |rest| < |lines| && ReadLines(lines, col) == Prepend(found, ReadLines(rest, col))
  {
    var line := lines[0];
    found, rest, fatal := [], lines[1..], false;
    if line == "" {
      return;
    }
    if col == 0 {
      return [Record(None, line, None)], rest, false;
    }
    var full := AssembleRecord(StripCr(line), rest);
    if full.None? {
      return found, rest, true;
    }
    GatherShrinks(StripCr(line), rest);
    var rec := ExtractColumn(CString(full.value.0), col);
    found, rest := OptionToSeq(rec), full.value.1;
  }

  method ReadColumn(stream: seq<string>, col: nat) returns (r: Outcome)
    ensures r == ReadLines(stream, col)
  {
    var lines, records := stream, [];
    assert Prepend([], ReadLines(stream, col)) == ReadLines(stream, col);
    while lines != []
      invariant ReadLines(stream, col) == Prepend(records, ReadLines(lines, col))
      decreases |lines|
    {
      var found, rest, fatal := ReadOne(lines, col);
      if fatal {
        return Outcome(records, true);
      }
      PrependTwice(records, found, ReadLines(rest, col));
      records, lines := records + found, rest;
    }
    r := Outcome(records, false);
  }
}
