/**
 When a printed record reads back from its physical lines: exactly when the field can be told apart from the
 rest of the line and the first physical line does not end with a carriage return.
 */
module CsvExact {
  import opened Wrappers
  import opened Csv
  import opened CsvOutput
  import opened CsvRoundTrip

  // ----- the first physical line

  /** The text is its first physical line, and a newline with the others if there are others. */
  lemma {:induction false} FirstLineSplit(text: string)
    ensures var first := PhysicalLines(text)[0];
            && '\n' !in first && first <= text
            && (|first| < |text| ==> text[|first|] == '\n')
  {
    if text != "" {
      FirstLineSplit(text[1..]);
      assert text == [text[0]] + text[1..];
    }
  }

  lemma {:induction false} LinesAfter(first: string, rest: string)
    requires '\n' !in first && (rest == "" || rest[0] == '\n')
    ensures PhysicalLines(first + rest) == [first] + (if rest == "" then [] else PhysicalLines(rest[1..]))
  {
    if first == "" {
      assert first + rest == rest;
    } else {
      var s, more := first + rest, first[1..] + rest;
      LinesAfter(first[1..], rest);
      assert s[0] == first[0] && s[1..] == more;
      OneMoreChar(s, more);
      assert [first[0]] + first[1..] == first;
    }
  }

  lemma {:induction false} OneMoreChar(s: string, more: string)
    requires s != "" && s[1..] == more && s[0] != '\n'
    ensures PhysicalLines(s) == [[s[0]] + PhysicalLines(more)[0]] + PhysicalLines(more)[1..]
  {
  }

  // ----- dropping the carriage return

  /** `text` without the carriage return before `rest`. */
  lemma {:induction false} DroppedParity(x: string, rest: string)
    requires QuotedNewlines(x + "\r" + rest) && '\n' !in x
    ensures QuotedNewlines(x + rest) && Odd(x + rest) == Odd(x + "\r" + rest)
  {
    OddSingle('\r');
    OddConcat(x, "\r");
    OddConcat(x + "\r", rest);
    OddConcat(x, rest);
    var s, l := x + rest, x + "\r" + rest;
    forall i: nat | i < |s| && s[i] == '\n' ensures OddAt(s, i) {
      assert l[i + 1] == s[i];
      OddShift(x, rest, i - |x|);
      OddShift(x + "\r", rest, i - |x|);
    }
  }

  /** What the reader assembles from a text whose first line ends with a carriage return. */
  lemma {:induction false} DroppedReads(x: string, rest: string, col: nat)
    requires col > 0 && '\n' !in x && (rest == "" || rest[0] == '\n')
    requires var text := x + "\r" + rest; QuotedNewlines(text) && !Odd(text) && NoNul(text)
    ensures ReadLines(PhysicalLines(x + "\r" + rest), col)
         == Outcome(OptionToSeq(ReadRecord(x + rest, col)), false)
  {
    var lines := PhysicalLines(x + "\r" + rest);
    LinesAfter(x + "\r", rest);
    LinesAfter(x, rest);
    DroppedParity(x, rest);
    GatherText(x + rest, []);
    CStringWhole(x + rest);
    assert lines[0] == x + "\r" && StripCr(lines[0]) == x;
    assert PhysicalLines(x + rest)[1..] + [] == lines[1..];
    ReadStep(lines, col, x + rest, []);
    assert OptionToSeq(ReadRecord(x + rest, col)) + [] == OptionToSeq(ReadRecord(x + rest, col));
  }

  /** The carriage return is not in the prefix if the prefix survives ... */
  lemma {:induction false} NotInPrefix(u: string, f: string, raw: string, v: string, x: string, rest: string)
    requires u + f + v == x + "\r" + rest && u + raw + v == x + rest && (rest == "" || rest[0] == '\n')
    ensures |u| <= |x|
  {
    var l, s := x + "\r" + rest, x + rest;
    assert l[|x|] == '\r';
    assert forall i :: 0 <= i < |u| && i < |l| ==> l[i] == u[i];
    assert forall i :: 0 <= i < |u| && i < |s| ==> s[i] == u[i];
    assert |x| < |s| ==> s[|x|] == rest[0];
  }

  /** ... nor in the suffix if the column still ends at a separator ... */
  lemma {:induction false} NotInSuffix(l: string, s: string, x: string, rest: string, start: nat, end: nat)
    requires l == x + "\r" + rest && s == x + rest && start <= end < |s| && Separator(s, end)
    requires NextSeparator(l, start) == end + 1
    ensures |x| <= end
  {
    NextSeparatorFirst(l, start);
    assert !Separator(l, end);
    assert l == x + ("\r" + rest);
    if end <= |x| {
      OddPrefix(x, rest, end);
      OddPrefix(x, "\r" + rest, end);
      assert OddAt(l, end) == OddAt(s, end);
    }
  }

  /** ... so it is the last character of the field. */
  lemma {:induction false} CrEndsField(u: string, f: string, raw: string, v: string, x: string, rest: string)
    requires u + f + v == x + "\r" + rest && u + raw + v == x + rest && raw != "" && '\n' !in f
    requires rest == "" || rest[0] == '\n'
    requires v != "" ==> Separator(x + rest, |u| + |raw|) && NextSeparator(x + "\r" + rest, |u|) == |u| + |f|
    ensures |f| == |raw| + 1 && f[|f| - 1] == '\r'
  {
    PartLengths(u, f, raw, v, x, rest);
    NotInPrefix(u, f, raw, v, x, rest);
    if v != "" {
      NotInSuffix(x + "\r" + rest, x + rest, x, rest, |u|, |u| + |raw|);
    }
    CrPlace(u, f, v, x, rest);
  }

  lemma {:induction false} PartLengths(u: string, f: string, raw: string, v: string, x: string, rest: string)
    requires u + f + v == x + "\r" + rest && u + raw + v == x + rest
    ensures |f| == |raw| + 1 && |x + rest| == |u| + |raw| + |v|
  {
    assert |u + f + v| == |x + rest| + 1;
  }

  lemma {:induction false} CrPlace(u: string, f: string, v: string, x: string, rest: string)
    requires u + f + v == x + "\r" + rest && |u| <= |x| < |u| + |f| && (rest == "" || rest[0] == '\n')
    ensures var i := |x| - |u|; f[i] == '\r' && (i + 1 < |f| ==> f[i + 1] == '\n')
  {
    var l, i := x + "\r" + rest, |x| - |u|;
    assert l[|x|] == '\r' && l[|u| + i] == f[i];
    if i + 1 < |f| {
      assert l[|x| + 1] == f[i + 1] == rest[0];
    }
  }

  /** The field of a printed line, between its separators; a field that ends so is printed without quotes. */
  lemma {:induction false} FieldOfLine(r: Record, col: nat, escapeCsv: bool)
    requires Storable(r, col) && Delimited(r, escapeCsv)
    ensures var u, f := Before(r.prefix), Field(r.field, r.prefix.Some? || r.suffix.Some?, escapeCsv);
            && Line(r, escapeCsv) == u + f + After(r.suffix) && '\n' !in f
            && NextSeparator(Line(r, escapeCsv), |u|) == |u| + |f|
            && (f != "" && f[|f| - 1] == '\r' ==> f == r.field)
  {
    var inLine := r.prefix.Some? || r.suffix.Some?;
    FieldIsColumn(r.field, inLine, escapeCsv);
    FieldChars(r.field, inLine, escapeCsv, '\n');
    AssembledBounds(r.prefix, Field(r.field, inLine, escapeCsv), r.suffix, col);
  }

  /** A prefix and a suffix that survive leave a shorter field. */
  lemma {:induction false} FieldShrinks(r: Record, col: nat, escapeCsv: bool, x: string, rest: string)
    requires Storable(r, col) && Delimited(r, escapeCsv) && Line(r, escapeCsv) == x + "\r" + rest
    requires (rest == "" || rest[0] == '\n') && Bounds(x + rest, col).Some?
    requires var (start, end) := Bounds(x + rest, col).value;
             PrefixAt(x + rest, col, start) == r.prefix && SuffixAt(x + rest, end) == r.suffix
    ensures var (start, end) := Bounds(x + rest, col).value; end - start < |r.field|
  {
    var s, f := x + rest, Field(r.field, r.prefix.Some? || r.suffix.Some?, escapeCsv);
    var (start, end) := Bounds(s, col).value;
    var raw := s[start..end];
    ScanRebuilds(s, col);
    PrefixRejoins(s, col);
    NextSeparatorFirst(s, start);
    FieldOfLine(r, col, escapeCsv);
    CrEndsField(Before(r.prefix), f, raw, After(r.suffix), x, rest);
  }

  /** The record does not survive the loss of the carriage return. */
  lemma {:induction false} DroppedDiffers(r: Record, col: nat, escapeCsv: bool, x: string, rest: string)
    requires Storable(r, col) && Delimited(r, escapeCsv) && Line(r, escapeCsv) == x + "\r" + rest
    requires rest == "" || rest[0] == '\n'
    ensures ReadRecord(x + rest, col) != Some(r)
  {
    var s := x + rest;
    if Bounds(s, col).Some? {
      var (start, end) := Bounds(s, col).value;
      if PrefixAt(s, col, start) == r.prefix && SuffixAt(s, end) == r.suffix {
        FieldShrinks(r, col, escapeCsv, x, rest);
        assert |Unquote(s[start..end], false)| <= end - start;
      }
    }
  }

  lemma {:induction false} TrailingCrLost(r: Record, col: nat, escapeCsv: bool)
    requires Storable(r, col) && Delimited(r, escapeCsv) && !NoTrailingCr(Line(r, escapeCsv))
    ensures ReadLines(PhysicalLines(Line(r, escapeCsv)), col) != Outcome([r], false)
  {
    var x, rest := CrSplit(Line(r, escapeCsv));
    LineStorable(r, col, escapeCsv);
    LineReadsBack(r, col, escapeCsv);
    DroppedReads(x, rest, col);
    DroppedDiffers(r, col, escapeCsv, x, rest);
  }

  lemma {:induction false} CrSplit(l: string) returns (x: string, rest: string)
    requires !NoTrailingCr(l)
    ensures l == x + "\r" + rest && '\n' !in x && (rest == "" || rest[0] == '\n')
  {
    var first := PhysicalLines(l)[0];
    FirstLineSplit(l);
    x, rest := first[..|first| - 1], l[|first|..];
    assert first == x + "\r";
  }

  // ----- fields that are not delimited

  /** A raw field with a quote or a comma, alone on its line, is not read as it is. */
  lemma {:induction false} RawLost(text: string)
    requires NeedsQuotes(text) && '\n' !in text && NoNul(text)
    ensures ReadLines(PhysicalLines(text), 1) != Outcome([Record(None, text, None)], false)
  {
    var line := StripCr(text);
    LinesAfter(text, "");
    assert text + "" == text && PhysicalLines(text) == [text];
    if !Odd(line) {
      assert NoNul(line);
      CStringWhole(line);
      ReadStep([text], 1, line, []);
      var found := OptionToSeq(ReadRecord(line, 1));
      assert found + [] == found;
      if line == text {
        RawReadsWrong(text);
      } else if Bounds(line, 1).Some? {
        var (start, end) := Bounds(line, 1).value;
        assert |Unquote(line[start..end], false)| <= |line| < |text|;
      }
    }
  }

  /**
   A printed record reads back from its physical lines if and only if the field can be told apart from the rest of
   the line and the first physical line does not end with a carriage return.
   */
  lemma {:induction false} RecordReadsBackExactly(r: Record, col: nat, escapeCsv: bool)
    requires Storable(r, col)
    ensures ReadLines(PhysicalLines(Line(r, escapeCsv)), col) == Outcome([r], false)
            <==> Delimited(r, escapeCsv) && NoTrailingCr(Line(r, escapeCsv))
  {
    var l := Line(r, escapeCsv);
    if !Delimited(r, escapeCsv) {
      assert l == r.field;
      RawLost(r.field);
    } else if NoTrailingCr(l) {
      RecordReadsBack(r, col, escapeCsv, []);
      assert PhysicalLines(l) + [] == PhysicalLines(l) && [r] + [] == [r];
    } else {
      TrailingCrLost(r, col, escapeCsv);
    }
  }

  /** A record that loses its carriage return. */
  lemma {:induction false} CarriageReturnLost()
    ensures var r := Record(None, "a\r", None);
            Storable(r, 1) && Delimited(r, false)
            && ReadLines(PhysicalLines(Line(r, false)), 1) == Outcome([Record(None, "a", None)], false)
  {
    var r := Record(None, "a\r", None);
    var l := Line(r, false);
    assert l == "a" + "\r" + "";
    PlainEven(l);
    DroppedReads("a", "", 1);
    assert "a" + "" == "a";
    NextSeparatorIs("a", 0, 1);
    assert "a"[0..1] == "a";
    UnquotePlain("a", false);
  }
}
