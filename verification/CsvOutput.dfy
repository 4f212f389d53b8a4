/**
 Writing a formula back into the CSV line it was read from, and why reading the output again gives
 the same formula, prefix and suffix.
 */
module CsvOutput {
  import opened Wrappers
  import opened Csv

  // ----- writing

  /** One character, escaped. */
  function Escaped(c: char): string {
    if c == '"' then "\"\"" else [c]
  }

  /** The text with every double quote doubled. */
  function Escape(text: string): string {
    if text == "" then "" else Escaped(text[0]) + Escape(text[1..])
  }

  method EscapeRfc4180(text: string) returns (out: string)
    ensures out == Escape(text)
  {
    out := "";
    var i := 0;
    while i < |text|
      invariant i <= |text| && out + Escape(text[i..]) == Escape(text)
    {
      var c := Escaped(text[i]);
      assert text[i..][1..] == text[i + 1..];
      assert out + (c + Escape(text[i + 1..])) == (out + c) + Escape(text[i + 1..]);
      out := out + c;
      i := i + 1;
    }
    assert text[i..] == "";
  }

  predicate NeedsQuotes(text: string) {
    '"' in text || ',' in text
  }

  /** The field as printed: quoted on request, or inside a CSV line if it contains a quote or a comma. */
  function Field(text: string, inLine: bool, escapeCsv: bool): string {
    if escapeCsv || (inLine && NeedsQuotes(text)) then "\"" + Escape(text) + "\"" else text
  }

  function Before(prefix: Option<string>): string {
    if prefix.Some? then prefix.value + "," else ""
  }

  function After(suffix: Option<string>): string {
    if suffix.Some? then "," + suffix.value else ""
  }

  /** The line printed for a formula. */
  function Line(r: Record, escapeCsv: bool): string {
    Before(r.prefix) + Field(r.field, r.prefix.Some? || r.suffix.Some?, escapeCsv) + After(r.suffix)
  }

  /** A field without quote and comma is printed as it is, unless quotes are forced; another one is quoted in a line. */
  lemma {:induction false} FieldQuotes(text: string, inLine: bool)
    ensures '"' !in text && ',' !in text ==> Field(text, inLine, false) == text
    ensures inLine && ('"' in text || ',' in text) ==> Field(text, inLine, false) == "\"" + Escape(text) + "\""
    ensures !inLine ==> Field(text, inLine, false) == text
    ensures Field(text, inLine, true) == "\"" + Escape(text) + "\""
  {
  }

  /** The formula itself, as it goes to the output. */
  method PrintField(text: string, inLine: bool, escapeCsv: bool) returns (out: string)
    ensures out == Field(text, inLine, escapeCsv)
  {
    if escapeCsv || (inLine && NeedsQuotes(text)) {
      out := EscapeRfc4180(text);
      out := "\"" + out + "\"";
    } else {
      out := text;
    }
  }

  method OutputFormula(prefix: Option<string>, text: string, suffix: Option<string>, escapeCsv: bool)
    returns (out: string)
    ensures out == Line(Record(prefix, text, suffix), escapeCsv)
  {
    out := "";
    if prefix.Some? {
      out := out + prefix.value + ",";
    }
    assert out == Before(prefix);
    var field := PrintField(text, prefix.Some? || suffix.Some?, escapeCsv);
    out := out + field;
    ghost var before := out;
    if suffix.Some? {
      out := out + "," + suffix.value;
    }
    assert out == before + After(suffix);
  }

  // ----- a printed field is one column and reads back

  lemma {:induction false} OddSingle(c: char)
    ensures Odd([c]) == (c == '"')
  {
    assert OddAt([c], 0) == false;
  }

  lemma {:induction false} EscapedEven(c: char)
    ensures !Odd(Escaped(c))
  {
    assert OddAt(Escaped(c), 1) == (c == '"');
  }

  lemma {:induction false} EscapeEven(text: string)
    ensures !Odd(Escape(text))
  {
    if text != "" {
      EscapeEven(text[1..]);
      EscapedEven(text[0]);
      OddConcat(Escaped(text[0]), Escape(text[1..]));
    }
  }

  /** Inside quotes, the escaped text reads back as the text. */
  lemma {:induction false} UnquoteEscaped(text: string)
    ensures Unquote(Escape(text) + "\"", true) == text
  {
    var s := Escape(text) + "\"";
    if text == "" {
      assert s == "\"" && s[1..] == "";
    } else {
      UnquoteEscaped(text[1..]);
      var rest := Escape(text[1..]) + "\"";
      if text[0] == '"' {
        assert s == "\"\"" + rest && s[2..] == rest;
      } else {
        assert s == [text[0]] + rest && s[1..] == rest;
      }
      assert text == [text[0]] + text[1..];
    }
  }

  /** A printed field reads back, quoted or not. */
  lemma {:induction false} FieldReadsBack(text: string, inLine: bool, escapeCsv: bool)
    requires escapeCsv || inLine || !NeedsQuotes(text)
    ensures Unquote(Field(text, inLine, escapeCsv), false) == text
  {
    var f := Field(text, inLine, escapeCsv);
    if escapeCsv || NeedsQuotes(text) {
      UnquoteEscaped(text);
      assert f[1..] == Escape(text) + "\"";
    } else {
      UnquotePlain(text, false);
    }
  }

  /** Every comma of the escaped text sits behind an even number of quotes. */
  lemma {:induction false} EscapeCommas(text: string, i: nat)
    requires i < |Escape(text)| && Escape(text)[i] == ','
    ensures !OddAt(Escape(text), i)
  {
    var c, rest := Escaped(text[0]), Escape(text[1..]);
    if i >= |c| {
      EscapeCommas(text[1..], i - |c|);
      EscapedEven(text[0]);
      OddShift(c, rest, i - |c|);
    }
  }

  /** A printed field holds no separator and has balanced quotes. */
  lemma {:induction false} FieldIsColumn(text: string, inLine: bool, escapeCsv: bool)
    requires escapeCsv || inLine || !NeedsQuotes(text)
    ensures var f := Field(text, inLine, escapeCsv); !Odd(f) && forall i: nat :: !Separator(f, i)
  {
    if escapeCsv || NeedsQuotes(text) {
      QuotedIsColumn(text);
    } else {
      PlainEven(text);
    }
  }

  lemma {:induction false} PlainEven(s: string)
    requires '"' !in s
    ensures !Odd(s)
  {
    PlainEvenAt(s, |s|);
  }

  lemma {:induction false} PlainEvenAt(s: string, n: nat)
    requires '"' !in s && n <= |s|
    ensures !OddAt(s, n)
  {
    if n > 0 {
      PlainEvenAt(s, n - 1);
    }
  }

  lemma {:induction false} QuotedIsColumn(text: string)
    ensures var f := "\"" + Escape(text) + "\""; !Odd(f) && forall i: nat :: !Separator(f, i)
  {
    var e := Escape(text);
    var u := "\"" + e;
    var f := u + "\"";
    EscapeEven(text);
    OddSingle('"');
    OddConcat("\"", e);
    OddConcat(u, "\"");
    forall i: nat | i < |f| && f[i] == ',' ensures OddAt(f, i) {
      EscapeCommas(text, i - 1);
      OddPrefix(u, "\"", i);
      OddShift("\"", e, i - 1);
    }
  }

  // ----- separators of a concatenation

  lemma {:induction false} SeparatorShift(u: string, v: string, i: nat)
    requires !Odd(u)
    ensures Separator(u + v, |u| + i) <==> Separator(v, i)
  {
    if i < |v| {
      OddShift(u, v, i);
    }
  }

  lemma {:induction false} SeparatorPrefix(u: string, v: string, i: nat)
    requires i < |u|
    ensures Separator(u + v, i) <==> Separator(u, i)
  {
    OddPrefix(u, v, i);
  }

  /** The separator after a column placed between balanced texts. */
  lemma {:induction false} ColumnEnd(u: string, f: string, v: string)
    requires !Odd(u) && !Odd(f) && (forall i: nat :: !Separator(f, i)) && (v == "" || v[0] == ',')
    ensures NextSeparator(u + f + v, |u|) == |u| + |f|
  {
    var s, end := u + f + v, |u| + |f|;
    OddConcat(u, f);
    forall k: nat | |u| <= k < end ensures !Separator(s, k) {
      SeparatorPrefix(u + f, v, k);
      SeparatorShift(u, f, k - |u|);
    }
    if v != "" {
      SeparatorShift(u + f, v, 0);
    }
    NextSeparatorIs(s, |u|, end);
  }

  /** Adding text does not move a separator that exists. */
  lemma {:induction false} SameNext(p: string, x: string, b: nat)
    requires b <= |p| && NextSeparator(p, b) < |p|
    ensures NextSeparator(p + x, b) == NextSeparator(p, b)
  {
    var j := NextSeparator(p, b);
    NextSeparatorFirst(p, b);
    forall k: nat | b <= k <= j ensures Separator(p + x, k) <==> Separator(p, k) {
      SeparatorPrefix(p, x, k);
    }
    NextSeparatorIs(p + x, b, j);
  }

  /** Adding text after a balanced prefix does not move its columns. */
  lemma {:induction false} ColumnStays(p: string, x: string, col: nat)
    requires col > 0 && ColumnStart(p, col).Some?
    ensures ColumnStart(p + x, col) == ColumnStart(p, col)
  {
    if col > 1 {
      ColumnStays(p, x, col - 1);
      SameNext(p, x, ColumnStart(p, col - 1).value);
    }
  }

  /** `p` consists of exactly `n` columns. */
  predicate HasColumns(p: string, n: nat)
    requires n > 0
  {
    ColumnStart(p, n).Some? && NextSeparator(p, ColumnStart(p, n).value) == |p|
  }

  /** The column after a prefix of `col - 1` columns. */
  lemma {:induction false} ColumnAfterPrefix(p: string, x: string, col: nat)
    requires col > 1 && !Odd(p) && HasColumns(p, col - 1)
    ensures ColumnStart(p + "," + x, col) == Some(|p| + 1)
  {
    var s := p + "," + x;
    assert s == p + ("," + x);
    ColumnStays(p, "," + x, col - 1);
    var b := ColumnStart(p, col - 1).value;
    NextSeparatorFirst(p, b);
    forall k: nat | b <= k < |p| ensures !Separator(s, k) {
      SeparatorPrefix(p, "," + x, k);
    }
    SeparatorShift(p, "," + x, 0);
    NextSeparatorIs(s, b, |p|);
  }

  // ----- one line reads back

  predicate NoNul(s: string) {
    '\0' !in s
  }

  lemma {:induction false} CStringWhole(s: string)
    requires NoNul(s)
    ensures CString(s) == s
  {
    if s != "" {
      CStringWhole(s[1..]);
    }
  }

  /** The prefix and suffix belong around column `col` of a record. */
  predicate Placed(r: Record, col: nat) {
    && col > 0 && r.field != ""
    && (r.prefix.None? <==> col == 1)
    && (r.prefix.Some? ==> !Odd(r.prefix.value) && HasColumns(r.prefix.value, col - 1))
    && (r.suffix.Some? ==> !Odd(r.suffix.value))
  }

  /** The field can be told apart from the rest of the line. */
  predicate Delimited(r: Record, escapeCsv: bool) {
    escapeCsv || r.prefix.Some? || r.suffix.Some? || !NeedsQuotes(r.field)
  }

  /** Where the column of an assembled line is. */
  lemma {:induction false} AssembledBounds(prefix: Option<string>, f: string, suffix: Option<string>, col: nat)
    requires col > 0 && (prefix.None? <==> col == 1)
    requires prefix.Some? ==> !Odd(prefix.value) && HasColumns(prefix.value, col - 1)
    requires suffix.Some? ==> !Odd(suffix.value)
    requires !Odd(f) && forall i: nat :: !Separator(f, i)
    ensures var s, u := Before(prefix) + f + After(suffix), Before(prefix);
            ColumnStart(s, col) == Some(|u|) && NextSeparator(s, |u|) == |u| + |f| && !Odd(s)
  {
    var u, v := Before(prefix), After(suffix);
    BalancedParts(prefix, suffix);
    OddConcat(u, f);
    OddConcat(u + f, v);
    ColumnEnd(u, f, v);
    if prefix.Some? {
      assert u + f + v == prefix.value + "," + (f + v);
      ColumnAfterPrefix(prefix.value, f + v, col);
    }
  }

  /** What such a line reads as. */
  lemma {:induction false} BoundsRead(prefix: Option<string>, f: string, suffix: Option<string>, col: nat)
    requires col > 0 && (prefix.None? <==> col == 1) && f != ""
    requires var s, u := Before(prefix) + f + After(suffix), Before(prefix);
             ColumnStart(s, col) == Some(|u|) && NextSeparator(s, |u|) == |u| + |f|
    ensures ReadRecord(Before(prefix) + f + After(suffix), col) == Some(Record(prefix, Unquote(f, false), suffix))
  {
    var u, v := Before(prefix), After(suffix);
    var s := u + f + v;
    assert Bounds(s, col) == Some((|u|, |u| + |f|));
    assert s[|u|..|u| + |f|] == f;
    CutParts(prefix, f, suffix, col);
  }

  lemma {:induction false} CutParts(prefix: Option<string>, f: string, suffix: Option<string>, col: nat)
    requires col > 0 && (prefix.None? <==> col == 1)
    ensures var s, n := Before(prefix) + f + After(suffix), |Before(prefix)|;
            PrefixAt(s, col, n) == prefix && SuffixAt(s, n + |f|) == suffix
  {
    var u, v := Before(prefix), After(suffix);
    var s := u + f + v;
    assert prefix.Some? ==> s[..|u| - 1] == prefix.value;
    assert suffix.Some? ==> s[|u| + |f| + 1..] == suffix.value;
  }

  lemma {:induction false} PrefixRejoins(s: string, col: nat)
    requires col > 0 && ColumnStart(s, col).Some?
    ensures var start := ColumnStart(s, col).value; Before(PrefixAt(s, col, start)) == s[..start]
  {
    if col > 1 {
      ColumnAfterSeparator(s, col);
    }
  }

  lemma {:induction false} SuffixRejoins(s: string, start: nat)
    requires start <= |s|
    ensures var end := NextSeparator(s, start); After(SuffixAt(s, end)) == s[end..]
  {
    NextSeparatorFirst(s, start);
  }

  /** Prefix, raw field and suffix, joined by their commas, are the whole record. */
  lemma {:induction false} ScanRebuilds(s: string, col: nat)
    requires col > 0 && Bounds(s, col).Some?
    ensures var (start, end) := Bounds(s, col).value;
            s == Before(PrefixAt(s, col, start)) + s[start..end] + After(SuffixAt(s, end))
  {
    var start := ColumnStart(s, col).value;
    var end := NextSeparator(s, start);
    PrefixRejoins(s, col);
    SuffixRejoins(s, start);
    assert s == s[..start] + s[start..end] + s[end..];
  }

  /** Reading the printed line at the same column gives back formula, prefix and suffix. */
  lemma {:induction false} LineReadsBack(r: Record, col: nat, escapeCsv: bool)
    requires Placed(r, col) && Delimited(r, escapeCsv)
    ensures ReadRecord(Line(r, escapeCsv), col) == Some(r) && !Odd(Line(r, escapeCsv))
  {
    var inLine := r.prefix.Some? || r.suffix.Some?;
    var f := Field(r.field, inLine, escapeCsv);
    FieldIsColumn(r.field, inLine, escapeCsv);
    FieldReadsBack(r.field, inLine, escapeCsv);
    AssembledBounds(r.prefix, f, r.suffix, col);
    BoundsRead(r.prefix, f, r.suffix, col);
  }

  lemma {:induction false} BalancedParts(prefix: Option<string>, suffix: Option<string>)
    requires prefix.Some? ==> !Odd(prefix.value)
    requires suffix.Some? ==> !Odd(suffix.value)
    ensures !Odd(Before(prefix)) && !Odd(After(suffix))
  {
    OddSingle(',');
    if prefix.Some? {
      OddConcat(prefix.value, ",");
    }
    if suffix.Some? {
      OddConcat(",", suffix.value);
    }
  }

  // ----- exactly when a printed line reads back

  lemma {:induction false} UnquoteShrinks(s: string, instring: bool)
    requires '"' in s
    ensures |Unquote(s, instring)| < |s|
  {
    if s[0] != '"' {
      assert s == [s[0]] + s[1..];
      UnquoteShrinks(s[1..], instring);
    }
  }

  /** A line without prefix, suffix and forced quotes is printed raw, and then a quote or a comma in the formula
      does not survive: reading back works exactly for the delimited records. */
  lemma {:induction false} ReadsBackExactly(r: Record, col: nat, escapeCsv: bool)
    requires Placed(r, col)
    ensures ReadRecord(Line(r, escapeCsv), col) == Some(r) <==> Delimited(r, escapeCsv)
  {
    if Delimited(r, escapeCsv) {
      LineReadsBack(r, col, escapeCsv);
    } else {
      assert Line(r, escapeCsv) == r.field;
      RawReadsWrong(r.field);
    }
  }

  lemma {:induction false} RawReadsWrong(text: string)
    requires NeedsQuotes(text)
    ensures ReadRecord(text, 1) != Some(Record(None, text, None))
  {
    NextSeparatorFirst(text, 0);
    if '"' in text {
      UnquoteShrinks(text, false);
      assert text[0..|text|] == text;
    } else {
      var i: nat :| i < |text| && text[i] == ',';
      PlainEvenAt(text, i);
      assert Separator(text, i);
    }
  }
}
