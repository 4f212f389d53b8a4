/**
 Whole CSV files: a file that was read, and whose formulas were replaced one by one in the output, reads
 back as the new formulas inside the old lines, even when records span several physical lines.
 */
module CsvRoundTrip {
  import opened Wrappers
  import opened Csv
  import opened CsvOutput

  /** The text cut at its newlines, as successive calls to getline see it. */
  function PhysicalLines(s: string): (r: seq<string>)
    ensures |r| > 0
  {
    if s == "" then [""]
    else
      var r := PhysicalLines(s[1..]);
      if s[0] == '\n' then [""] + r else [[s[0]] + r[0]] + r[1..]
  }

  /** Every newline of `s` is inside quotes. */
  predicate QuotedNewlines(s: string) {
    forall i: nat :: i < |s| && s[i] == '\n' ==> OddAt(s, i)
  }

  // ----- records are put together again

  /** The parity-based assembly ends exactly at the end of a text whose newlines are quoted. */
  lemma {:induction false} GatherLines(a: string, b: string, rest: seq<string>)
    requires !Odd(a + b)
    requires forall i: nat :: i < |b| && b[i] == '\n' ==> OddAt(a + b, |a| + i)
    ensures Gather(a + PhysicalLines(b)[0], PhysicalLines(b)[1..] + rest) == Some((a + b, rest))
    decreases |b|
  {
    var lines := PhysicalLines(b);
    if b == "" {
      assert a + "" == a && lines[1..] + rest == rest;
    } else {
      var a', b' := a + [b[0]], b[1..];
      assert a' + b' == a + b;
      forall i: nat | i < |b'| && b'[i] == '\n' ensures OddAt(a' + b', |a'| + i) {
        assert b[i + 1] == '\n' && |a'| + i == |a| + (i + 1);
      }
      GatherLines(a', b', rest);
      var lines' := PhysicalLines(b');
      if b[0] == '\n' {
        OddShift(a, b, 0);
        assert a + lines[0] == a && Odd(a);
        assert (lines[1..] + rest)[0] == lines'[0] && (lines[1..] + rest)[1..] == lines'[1..] + rest;
        assert a' + lines'[0] == a + "\n" + lines'[0];
      } else {
        assert a + lines[0] == a' + lines'[0];
        assert lines[1..] == lines'[1..];
      }
    }
  }

  lemma {:induction false} FirstLine(s: string)
    requires s != "" && QuotedNewlines(s)
    ensures PhysicalLines(s)[0] != ""
  {
  }

  /** One record off the front of a stream. */
  lemma {:induction false} ReadStep(lines: seq<string>, col: nat, full: string, rest: seq<string>)
    requires col > 0 && lines != [] && lines[0] != ""
    requires Gather(StripCr(lines[0]), lines[1..]) == Some((full, rest))
    ensures ReadLines(lines, col) == Prepend(OptionToSeq(ReadRecord(CString(full), col)), ReadLines(rest, col))
  {
  }

  lemma {:induction false} GatherText(text: string, rest: seq<string>)
    requires QuotedNewlines(text) && !Odd(text)
    ensures Gather(PhysicalLines(text)[0], PhysicalLines(text)[1..] + rest) == Some((text, rest))
  {
    var first := PhysicalLines(text)[0];
    assert "" + text == text && "" + first == first;
    GatherLines("", text, rest);
  }

  /** Reading a text that is one balanced record. */
  lemma {:induction false} TextReads(text: string, col: nat, rest: seq<string>)
    requires col > 0 && text != "" && QuotedNewlines(text) && !Odd(text) && NoNul(text)
    requires StripCr(PhysicalLines(text)[0]) == PhysicalLines(text)[0]
    ensures ReadLines(PhysicalLines(text) + rest, col)
         == Prepend(OptionToSeq(ReadRecord(text, col)), ReadLines(rest, col))
  {
    var lines := PhysicalLines(text);
    FirstLine(text);
    GatherText(text, rest);
    CStringWhole(text);
    assert (lines + rest)[0] == lines[0] && (lines + rest)[1..] == lines[1..] + rest;
    ReadStep(lines + rest, col, text, rest);
  }

  // ----- what can be written and read again

  /** `p` is made of `col - 1` columns and can stand in a file: balanced, newlines quoted, no NUL. */
  predicate GoodPrefix(p: string, col: nat) {
    col > 1 && !Odd(p) && HasColumns(p, col - 1) && QuotedNewlines(p) && NoNul(p)
  }

  predicate GoodSuffix(q: string) {
    !Odd(q) && QuotedNewlines(q) && NoNul(q)
  }

  /** The record can stand in a file, with its field on one line. */
  predicate Storable(r: Record, col: nat) {
    && col > 0 && (r.prefix.None? <==> col == 1)
    && (r.prefix.Some? ==> GoodPrefix(r.prefix.value, col))
    && (r.suffix.Some? ==> GoodSuffix(r.suffix.value))
    && r.field != "" && '\n' !in r.field && NoNul(r.field)
  }

  lemma {:induction false} EscapeChars(text: string, c: char)
    requires c !in text && c != '"'
    ensures c !in Escape(text)
  {
    if text != "" {
      EscapeChars(text[1..], c);
    }
  }

  lemma {:induction false} FieldChars(text: string, inLine: bool, escapeCsv: bool, c: char)
    requires c !in text && c != '"'
    ensures c !in Field(text, inLine, escapeCsv)
  {
    EscapeChars(text, c);
  }

  lemma {:induction false} QuotedConcat(u: string, v: string)
    requires QuotedNewlines(u) && QuotedNewlines(v) && !Odd(u)
    ensures QuotedNewlines(u + v)
  {
    var s := u + v;
    forall i: nat | i < |s| && s[i] == '\n' ensures OddAt(s, i) {
      if i < |u| {
        OddPrefix(u, v, i);
      } else {
        OddShift(u, v, i - |u|);
      }
    }
  }

  lemma {:induction false} BeforeQuoted(prefix: Option<string>, suffix: Option<string>)
    requires prefix.Some? ==> QuotedNewlines(prefix.value) && !Odd(prefix.value)
    requires suffix.Some? ==> QuotedNewlines(suffix.value)
    ensures QuotedNewlines(Before(prefix)) && QuotedNewlines(After(suffix))
  {
    OddSingle(',');
    if prefix.Some? {
      QuotedConcat(prefix.value, ",");
    }
    if suffix.Some? {
      QuotedConcat(",", suffix.value);
    }
  }

  lemma {:induction false} LineStorable(r: Record, col: nat, escapeCsv: bool)
    requires Storable(r, col) && Delimited(r, escapeCsv)
    ensures QuotedNewlines(Line(r, escapeCsv)) && NoNul(Line(r, escapeCsv)) && Line(r, escapeCsv) != ""
  {
    var inLine := r.prefix.Some? || r.suffix.Some?;
    var u, f, v := Before(r.prefix), Field(r.field, inLine, escapeCsv), After(r.suffix);
    FieldChars(r.field, inLine, escapeCsv, '\n');
    FieldChars(r.field, inLine, escapeCsv, '\0');
    FieldIsColumn(r.field, inLine, escapeCsv);
    BalancedParts(r.prefix, r.suffix);
    BeforeQuoted(r.prefix, r.suffix);
    QuotedConcat(u, f);
    OddConcat(u, f);
    QuotedConcat(u + f, v);
    assert f != "";
  }

  /** The first physical line of the output does not end with a carriage return, which a reader would drop. */
  predicate NoTrailingCr(text: string) {
    StripCr(PhysicalLines(text)[0]) == PhysicalLines(text)[0]
  }

  predicate Rereadable(r: Record, col: nat, escapeCsv: bool) {
    Storable(r, col) && Delimited(r, escapeCsv) && NoTrailingCr(Line(r, escapeCsv))
  }

  /** The physical lines of a whole output. */
  function FileLines(rs: seq<Record>, escapeCsv: bool): seq<string> {
    if rs == [] then [] else PhysicalLines(Line(rs[0], escapeCsv)) + FileLines(rs[1..], escapeCsv)
  }

  /** A line that was printed reads back, on as many physical lines as it takes. */
  lemma {:induction false} RecordReadsBack(r: Record, col: nat, escapeCsv: bool, rest: seq<string>)
    requires Rereadable(r, col, escapeCsv)
    ensures ReadLines(PhysicalLines(Line(r, escapeCsv)) + rest, col) == Prepend([r], ReadLines(rest, col))
  {
    LineStorable(r, col, escapeCsv);
    LineReadsBack(r, col, escapeCsv);
    TextReads(Line(r, escapeCsv), col, rest);
  }

  /** A whole output reads back. */
  lemma {:induction false} FileReadsBack(rs: seq<Record>, col: nat, escapeCsv: bool)
    requires col > 0 && forall i :: 0 <= i < |rs| ==> Rereadable(rs[i], col, escapeCsv)
    ensures ReadLines(FileLines(rs, escapeCsv), col) == Outcome(rs, false)
  {
    if rs != [] {
      FileReadsBack(rs[1..], col, escapeCsv);
      RecordReadsBack(rs[0], col, escapeCsv, FileLines(rs[1..], escapeCsv));
      assert [rs[0]] + rs[1..] == rs;
    }
  }

  // ----- what was read can be written

  /** What getline returns: no newline; and no NUL. */
  predicate CleanLines(lines: seq<string>) {
    forall i :: 0 <= i < |lines| ==> '\n' !in lines[i] && NoNul(lines[i])
  }

  /** An assembled record is balanced, with its newlines quoted. */
  lemma {:induction false} GatherQuoted(full: string, lines: seq<string>)
    requires CleanLines(lines) && QuotedNewlines(full) && NoNul(full) && Gather(full, lines).Some?
    ensures var (text, rest) := Gather(full, lines).value;
            QuotedNewlines(text) && NoNul(text) && !Odd(text) && CleanLines(rest)
    decreases |lines|
  {
    if Odd(full) {
      var next := full + "\n" + lines[0];
      assert next == full + ("\n" + lines[0]);
      assert forall k :: |full| < k < |next| ==> next[k] == lines[0][k - |full| - 1];
      forall i: nat | i < |next| && next[i] == '\n' ensures OddAt(next, i) {
        OddPrefix(full, "\n" + lines[0], i);
      }
      assert CleanLines(lines[1..]);
      GatherQuoted(next, lines[1..]);
    }
  }

  /** The parts around a column of a balanced record are themselves balanced. */
  lemma {:induction false} PartsPlaced(s: string, col: nat, start: nat, end: nat)
    requires col > 0 && !Odd(s) && QuotedNewlines(s) && NoNul(s) && Bounds(s, col) == Some((start, end))
    ensures PrefixAt(s, col, start).Some? ==> GoodPrefix(PrefixAt(s, col, start).value, col)
    ensures SuffixAt(s, end).Some? ==> GoodSuffix(SuffixAt(s, end).value)
  {
    if col > 1 {
      PrefixPlaced(s, col);
    }
    if end < |s| {
      NextSeparatorFirst(s, start);
      SuffixPlaced(s, end);
    }
  }

  lemma {:induction false} RecordPlaced(s: string, col: nat, text: string)
    requires col > 0 && !Odd(s) && QuotedNewlines(s) && NoNul(s) && ReadRecord(s, col).Some?
    requires text != "" && '\n' !in text && NoNul(text)
    ensures Storable(ReadRecord(s, col).value.(field := text), col)
  {
    var (start, end) := Bounds(s, col).value;
    PartsPlaced(s, col, start, end);
    var r := ReadRecord(s, col).value;
    assert r.prefix == PrefixAt(s, col, start) && r.suffix == SuffixAt(s, end);
  }

  lemma {:induction false} SuffixPlaced(s: string, end: nat)
    requires Separator(s, end) && !Odd(s) && QuotedNewlines(s) && NoNul(s)
    ensures GoodSuffix(s[end + 1..])
  {
    var u, v := s[..end + 1], s[end + 1..];
    assert s == u + v;
    OddPrefix(u, v, end + 1);
    OddConcat(u, v);
    assert !Odd(u);
    forall i: nat | i < |v| && v[i] == '\n' ensures OddAt(v, i) {
      assert s[end + 1 + i] == '\n';
      OddShift(u, v, i);
    }
  }

  lemma {:induction false} PrefixPlaced(s: string, col: nat)
    requires col > 1 && QuotedNewlines(s) && NoNul(s) && ColumnStart(s, col).Some?
    ensures GoodPrefix(s[..ColumnStart(s, col).value - 1], col)
  {
    var n := ColumnStart(s, col).value - 1;
    var p := s[..n];
    assert s == p + s[n..];
    ColumnAfterSeparator(s, col);
    OddPrefix(p, s[n..], n);
    forall i: nat | i < |p| && p[i] == '\n' ensures OddAt(p, i) {
      OddPrefix(p, s[n..], i);
    }
    ColumnShrinks(s, col - 1, n);
    var b := ColumnStart(s, col - 1).value;
    NextSeparatorFirst(s, b);
    forall k: nat | b <= k < n ensures !Separator(p, k) {
      SeparatorPrefix(p, s[n..], k);
    }
    NextSeparatorIs(p, b, n);
  }

  /** Columns that end before `n` are those of the first `n` characters. */
  lemma {:induction false} ColumnShrinks(s: string, col: nat, n: nat)
    requires col > 0 && n <= |s| && ColumnStart(s, col).Some? && ColumnStart(s, col).value <= n
    ensures ColumnStart(s[..n], col) == ColumnStart(s, col)
  {
    if col > 1 {
      var b := ColumnStart(s, col - 1).value;
      ColumnShrinks(s, col - 1, n);
      NextShrinks(s, b, n);
    }
  }

  lemma {:induction false} NextShrinks(s: string, b: nat, n: nat)
    requires b <= n <= |s| && NextSeparator(s, b) < n
    ensures NextSeparator(s[..n], b) == NextSeparator(s, b)
  {
    var p, j := s[..n], NextSeparator(s, b);
    assert s == p + s[n..];
    NextSeparatorFirst(s, b);
    forall k: nat | b <= k <= j ensures Separator(p, k) <==> Separator(s, k) {
      SeparatorPrefix(p, s[n..], k);
    }
    NextSeparatorIs(p, b, j);
  }

  /** Every record read from a stream can be written with another formula in its column. */
  lemma {:induction false} ReadIsStorable(lines: seq<string>, col: nat, k: nat, text: string)
    requires col > 0 && CleanLines(lines) && k < |ReadLines(lines, col).records|
    requires text != "" && '\n' !in text && NoNul(text)
    ensures Storable(ReadLines(lines, col).records[k].(field := text), col)
    decreases |lines|
  {
    if lines[0] == "" {
      assert CleanLines(lines[1..]);
      ReadIsStorable(lines[1..], col, k, text);
    } else {
      var first := StripCr(lines[0]);
      assert CleanLines(lines[1..]) && '\n' !in first && NoNul(first);
      GatherQuoted(first, lines[1..]);
      GatherShrinks(first, lines[1..]);
      var (full, rest) := Gather(first, lines[1..]).value;
      CStringWhole(full);
      ReadStep(lines, col, full, rest);
      var found := OptionToSeq(ReadRecord(full, col));
      if k < |found| {
        RecordPlaced(full, col, text);
      } else {
        ReadIsStorable(rest, col, k - |found|, text);
      }
    }
  }

  /** The records with new formulas. */
  function Replace(rs: seq<Record>, texts: seq<string>): (r: seq<Record>)
    requires |rs| == |texts|
    ensures |r| == |rs|
  {
    seq(|rs|, i requires 0 <= i < |rs| => rs[i].(field := texts[i]))
  }

  /** Read a file, print every line with a new formula in the column, read the output at the same column: the new
      formulas come back, inside the old lines. */
  lemma {:induction false} ReprocessedFile(lines: seq<string>, col: nat, texts: seq<string>, escapeCsv: bool)
    requires col > 0 && CleanLines(lines) && !ReadLines(lines, col).fatal
    requires |texts| == |ReadLines(lines, col).records|
    requires forall i :: 0 <= i < |texts| ==> texts[i] != "" && '\n' !in texts[i] && NoNul(texts[i])
    requires forall i :: 0 <= i < |texts| ==>
               var r := Replace(ReadLines(lines, col).records, texts)[i];
               Delimited(r, escapeCsv) && NoTrailingCr(Line(r, escapeCsv))
    ensures var rs := Replace(ReadLines(lines, col).records, texts);
            ReadLines(FileLines(rs, escapeCsv), col) == Outcome(rs, false)
  {
    var rs := Replace(ReadLines(lines, col).records, texts);
    forall i | 0 <= i < |rs| ensures Rereadable(rs[i], col, escapeCsv) {
      ReadIsStorable(lines, col, i, texts[i]);
    }
    FileReadsBack(rs, col, escapeCsv);
  }
}
