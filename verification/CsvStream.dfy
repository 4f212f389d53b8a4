/**
 Streams as a whole: files of formulas without columns, and files read piece by piece.
 */
module CsvStream {
  import opened Wrappers
  import opened Csv

  // ----- a file of formulas

  /** The lines that are not empty, in order. */
  function NonemptyLines(lines: seq<string>): seq<string> {
    if lines == [] then []
    else
      var last := lines[|lines| - 1];
      NonemptyLines(lines[..|lines| - 1]) + if last == "" then [] else [last]
  }

  function Whole(lines: seq<string>): seq<Record> {
    seq(|lines|, i requires 0 <= i < |lines| => Record(None, lines[i], None))
  }

  lemma {:induction false} NonemptyFirst(line: string, rest: seq<string>)
    ensures NonemptyLines([line] + rest) == (if line == "" then [] else [line]) + NonemptyLines(rest)
    decreases |rest|
  {
    var lines := [line] + rest;
    if rest == [] {
      assert lines[..0] == [] && NonemptyLines([]) == [];
    } else {
      NonemptyFirst(line, rest[..|rest| - 1]);
      assert lines[..|lines| - 1] == [line] + rest[..|rest| - 1];
    }
  }

  /** Without a column, the fields are the nonempty lines, whole and in order, and nothing is fatal. */
  lemma {:induction false} WholeLinesRead(lines: seq<string>)
    ensures ReadLines(lines, 0) == Outcome(Whole(NonemptyLines(lines)), false)
    decreases |lines|
  {
    if lines != [] {
      WholeLinesRead(lines[1..]);
      NonemptyFirst(lines[0], lines[1..]);
      assert lines == [lines[0]] + lines[1..];
      var rest := NonemptyLines(lines[1..]);
      assert Whole([lines[0]] + rest) == [Record(None, lines[0], None)] + Whole(rest);
    }
  }

  // ----- reading in pieces

  /** The lines end where a record ends: the quotes of each record are balanced by its last line. */
  predicate EndsBetweenRecords(lines: seq<string>, col: nat)
    decreases |lines|
  {
    lines == [] ||
    if lines[0] == "" || col == 0 then EndsBetweenRecords(lines[1..], col)
    else
      var r := Gather(StripCr(lines[0]), lines[1..]);
      r.Some? && (GatherShrinks(StripCr(lines[0]), lines[1..]); EndsBetweenRecords(r.value.1, col))
  }

  /** More lines do not change a record that is complete. */
  lemma {:induction false} GatherMore(full: string, lines: seq<string>, more: seq<string>)
    requires Gather(full, lines).Some?
    ensures Gather(full, lines + more) == Some((Gather(full, lines).value.0, Gather(full, lines).value.1 + more))
    decreases |lines|
  {
    if Odd(full) {
      assert (lines + more)[0] == lines[0] && (lines + more)[1..] == lines[1..] + more;
      GatherMore(full + "\n" + lines[0], lines[1..], more);
    }
  }

  /** What is read from a stream is what is read from its pieces, if they meet between records. */
  lemma {:induction false} ReadsInPieces(xs: seq<string>, ys: seq<string>, col: nat)
    requires EndsBetweenRecords(xs, col)
    ensures !ReadLines(xs, col).fatal
    ensures ReadLines(xs + ys, col) == Prepend(ReadLines(xs, col).records, ReadLines(ys, col))
    decreases |xs|
  {
    if xs == [] {
      assert xs + ys == ys && [] + ReadLines(ys, col).records == ReadLines(ys, col).records;
    } else {
      assert (xs + ys)[0] == xs[0] && (xs + ys)[1..] == xs[1..] + ys;
      if xs[0] == "" || col == 0 {
        ReadsInPieces(xs[1..], ys, col);
        if xs[0] != "" {
          PrependTwice([Record(None, xs[0], None)], ReadLines(xs[1..], col).records, ReadLines(ys, col));
        }
      } else {
        var first := StripCr(xs[0]);
        var (full, rest) := Gather(first, xs[1..]).value;
        GatherShrinks(first, xs[1..]);
        GatherMore(first, xs[1..], ys);
        ReadsInPieces(rest, ys, col);
        PrependTwice(OptionToSeq(ReadRecord(CString(full), col)), ReadLines(rest, col).records, ReadLines(ys, col));
      }
    }
  }

  /** An empty line between two records changes nothing. */
  lemma {:induction false} EmptyLineIgnored(xs: seq<string>, ys: seq<string>, col: nat)
    requires EndsBetweenRecords(xs, col)
    ensures ReadLines(xs + [""] + ys, col) == ReadLines(xs + ys, col)
  {
    ReadsInPieces(xs, [""] + ys, col);
    ReadsInPieces(xs, ys, col);
    assert xs + [""] + ys == xs + ([""] + ys);
    assert ([""] + ys)[1..] == ys;
  }
}
