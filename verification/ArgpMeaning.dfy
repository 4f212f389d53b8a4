/**
 What one option contributes to the parser's tables, and the tables of the options every program has.
 */
module ArgpMeaning {
  import opened Wrappers
  import opened ArgpTables

  // ----- what an option says

  /** How getopt reads the letter at `p`: one colon after it asks for an argument, two for an optional one. */
  function LetterKind(short: seq<int>, p: nat): HasArg {
    if p + 1 < |short| && short[p + 1] == COLON
    then if p + 2 < |short| && short[p + 2] == COLON then OptionalArgument else RequiredArgument
    else NoArgument
  }

  /** The kind of argument that an entry declares. */
  predicate Declares(entry: Opt, kind: HasArg) {
    match kind
    case NoArgument => !entry.arg
    case RequiredArgument => entry.arg && !entry.argOptional
    case OptionalArgument => entry.arg && entry.argOptional
  }

  /** An option stands for the closest entry before it that is not an alias; only aliases are in between. */
  lemma {:induction false} RealIs(opts: seq<Opt>, i: nat)
    requires i < |opts|
    ensures var r := RealAt(opts, i);
            r <= i && (r > 0 ==> !opts[r].alias) && forall k :: r < k <= i ==> opts[k].alias
  {
    if i > 0 && opts[i].alias {
      RealIs(opts, i - 1);
    }
  }

  /** In the short-option string, getopt finds the letter with the kind of argument its entry declares. */
  lemma {:induction false} LetterMeaning(before: seq<int>, opts: seq<Opt>, i: nat, after: seq<int>)
    requires i < |opts| && Usable(opts, i) && IsShort(opts[i])
    requires after != [] ==> after[0] != COLON
    ensures var short := before + ShortText(opts, i) + after;
            |before| < |short| && short[|before|] == opts[i].key
            && Declares(opts[RealAt(opts, i)], LetterKind(short, |before|))
  {
    var text, short := ShortText(opts, i), before + ShortText(opts, i) + after;
    assert forall k :: 0 <= k < |text| ==> short[|before| + k] == text[k];
    assert after != [] ==> short[|before| + |text|] == after[0];
  }

  /** So does the long option, which carries the option's own key, or that of its entry if it has none. */
  lemma {:induction false} LongMeaning(opts: seq<Opt>, i: nat, group: nat)
    requires i < |opts|
    ensures var e, entry := LongEntry(opts, i, group), opts[RealAt(opts, i)];
            && e.name == opts[i].name && Declares(entry, e.hasArg)
            && (opts[i].key != 0 ==> e.val == EncodeKey(opts[i].key, group))
            && (opts[i].key == 0 ==> e.val == EncodeKey(entry.key, group))
  {
  }

  // ----- the options every program has

  /** The entries of the help, usage, program-name and HANG options, and the end marker. */
  function DefaultOptions(): seq<Opt> {
    [Opt(Some("help"), 63, false, false, false, false, true, -1),
     Opt(Some("usage"), -3, false, false, false, false, true, 0),
     Opt(Some("program-name"), -2, true, false, false, false, true, 0),
     Opt(Some("HANG"), -4, true, true, false, false, true, 0),
     Opt(None, 0, false, false, false, false, false, 0)]
  }

  /** They make one group, one letter and four long options; the end marker makes nothing. */
  lemma {:induction false} DefaultTables(inOrder: bool)
    ensures var a := Argp(Some(DefaultOptions()), true, []);
            && Groups(a, None, 0, 0) == [Node(a, None, 0)]
            && Options(a) == DefaultOptions()[..4]
            && Flatten(Texts(Options(a)), 4) == [63]
            && forall i :: 0 <= i < 4 ==>
                 LongEntry(Options(a), i, 0) == LongOpt(DefaultOptions()[i].name,
                                                        if i < 2 then NoArgument
                                                        else if i == 2 then RequiredArgument else OptionalArgument,
                                                        EncodeKey(DefaultOptions()[i].key, 0))
  {
    var opts := DefaultOptions();
    assert Live(opts, 4) == 4 && Live(opts, 3) == 4 && Live(opts, 2) == 4 && Live(opts, 1) == 4 && Live(opts, 0) == 4;
    var used := opts[..4];
    assert ShortText(used, 0) == [63];
    assert ShortText(used, 1) == [] && ShortText(used, 2) == [] && ShortText(used, 3) == [];
    var texts := Texts(used);
    assert Flatten(texts, 0) == [] && Flatten(texts, 1) == [63];
    assert Flatten(texts, 2) == [63] && Flatten(texts, 3) == [63];
  }
}
