# A verified model of Spot's command-line tools

Spot is a library and a set of tools for linear-time temporal logic and omega-automata. This project models, in
Dafny, the algorithms that the tools implement themselves, and proves what these algorithms are for.

* **Synthesis** (`ltlsynt`). `Game` defines two-player games on colored graphs, infinite plays and the max-odd parity
  condition. `Attractor` and `Solver` are the recursive game solver. `Arena` is `complete_env`, the traversal that adds
  two sinks, completes the environment's states and computes the owners. `Controller` is `strat_to_aut`. `Synthesis`,
  `Realizability` and `Pipeline` put these together: a controller that is printed realizes the specification, and over a
  deterministic arena `REALIZABLE` is printed exactly when some controller exists.
* **Cross-comparison** (`ltlcross`, `autcross`). `LtlCross` and `AutCross` are the reduced sets of emptiness checks,
  and what their silence means for the languages of any number of tools; `LtlCount` is what their count means.
* **CSV columns**. `Csv` is the reader of one column of a CSV stream, `CsvOutput` the writer, `CsvRoundTrip` what
  happens to whole files that are read, changed and read again, `CsvExact` which records survive,
  `CsvStream` streams as a whole. The format is section 2 of RFC 4180.
* **Shell bypass**. `Shell` splits a command line without a shell, and a reference tokenizer after sections 2.2
  (Quoting) and 2.3 (Token Recognition) of the POSIX.1-2017 Shell Command Language does the same one character at a
  time; `ShellProperties` proves the printing round trip, `ShellPlain` the same
  without quotes, and `ShellExact` says on exactly which lines the two agree.
* **argp**. `ArgpTables`, `ArgpMeaning`, `ArgpDispatch`, `ArgpStorage` and `ArgpLinks` are the option tables of the parser, with
  the arrays they are stored in; `ArgpHelp` and `ArgpAgreement` are the list shown by the help and its agreement
  with the parser; `ArgpProtocol` is the sequence of calls made to the user's parsers.
* **Portable alloca**. `Alloca` is the garbage-collecting allocator and its safety over all traces that obey stack
  discipline.

Code that changes objects, arrays or cursors step by step is modelled by classes and methods with loops. Each of them is
tied by its contract to a specification function, or states the property outright; the theorems are lemmas about those
specifications.

## What turned out

* The game solver stops at color 0 without giving the environment's stuck states to anyone (spot/misc/game.cc:168-174).
  `Solver.Solve` states exactly when the answer is a solution: the largest color is positive, or the environment is
  never stuck; `Solver.StuckGameUnsolved` is a game of two states where it is not. `Synthesis.OneColorLost` shows that
  the verdict of the tool does not suffer. The "size mismatch" exceptions of the solver cannot be raised.
* The cross-comparison of `ltlcross` without a reference pair needs no side condition on which complements exist:
  nothing is reported exactly when one language explains all the automata, also those of tools that translated only
  one of the two formulas (`LtlCross.CrossCheckExact`).
* A CSV line printed without prefix and suffix is printed raw, and a carriage return at the end of the first physical
  line of a record is dropped by the reader. `CsvExact.RecordReadsBackExactly` shows that these are the only losses: a
  printed record reads back if and only if its first physical line does not end with a carriage return, and it has a
  prefix or a suffix, its quotes are forced, or its formula has neither quote nor comma.
* The shell bypass tests the backslash itself where it means to test the character after it
  (bin/common_trans.cc:572): inside double quotes it drops every backslash. It also takes a newline for a blank, and
  drops other control spaces between words. `ShellExact.BypassExact` shows that on every line it accepts, its answer is
  the shell's if and only if such characters only occur in the targets of redirections that are overwritten by a later
  one (and, for a control space, directly before the rest of the target). `ShellProperties.StrayBackslashDiffers`,
  `ShellProperties.NewlineDiffers` and `ShellExact.OverwrittenTarget` are concrete lines. A backslash at the very end of
  an open double quote makes the bypass read past the end of the line; the model reports this as `Overrun`
  (`ShellExact.OverrunLine`).
* lib/argp.h:181-185 says that no call follows ERROR. The code calls FINI afterwards (lib/argp-parse.c:647-649), and
  the model follows the code.
* Packed option keys are decoded correctly exactly for signed 24-bit keys in the first 127 groups
  (`ArgpTables.KeyRoundTrip`).
* With ARGP_NO_ARGS one character too few is counted for the short-option string. It then overflows if and only if every
  option of the tree is a letter with an optional argument (`ArgpStorage.NoArgsOverflow`).
* The help shows letters of aliases of documentation entries, which the parser does not accept
  (`ArgpAgreement.DocAliasDisagrees`). `ArgpAgreement.ShownLetterOwner` gives the exact condition for a letter that is
  shown, and `ArgpAgreement.HelpMatchesParser` the agreement without such letters.

## Conventions

* Edges carry exactly one color, as the automata produced for the game do; the unsatisfying mark is an even color.
  Arenas come from a two-step split: environment edges are labeled by inputs, controller edges by outputs, and both
  alphabets are complete. Edge labels are sets of letters instead of BDDs, and "one satisfying output" is any output of
  the label.
* Library calls are parameters with a contract: emptiness of products, complementation, removal of alternation.
  Languages are sets of ultimately periodic words, the form in which the library returns example words. Sizes of
  automata are unsigned 32-bit numbers.
* Strings given to the C code hold no NUL; where the code reads a buffer up to NUL the model does so too (`Csv.CString`).
* The reference tokenizer has its own sets of characters that have to be quoted (sections 2.2 and 2.4) and its own test
  for assignments (section 2.10.2); a line on which it would have to do more than split words is not simple for it.
* User parsers and getopt are arbitrary functions of the calls made so far. A user parser may move the next argument
  position anywhere.
* Every lemma turns Dafny's automatic induction off: its proof is its body.

## Model

| member | source | states |
|---|---|---|
| `Game.WinsFromSuffix` | spot/misc/game.hh:73-80 | A play is won if and only if any of its tails is: the parity condition depends only on the tail. |
| `Game.WinningExclusive` | spot/misc/game.cc:150-219 | No state can be won by both players with positional strategies. |
| `Attractor.Scan` | spot/misc/game.cc:104-134 | A state joins the attractor exactly when it is forced into it, and the recorded edge is the first that hits. |
| `Attractor.Attract` | spot/misc/game.cc:85-148 | The attractor has a ranked strategy to hit the target from every state in it, and no state outside can be forced in. |
| `Attractor.AttractedHits` | spot/misc/game.cc:85-148 | Every infinite play that follows an attractor strategy reaches the target. |
| `Solver.WinsEverything` | spot/misc/game.cc:189-195 | If a player wins everything outside the attractor of its largest color, it wins the whole subgame. |
| `Solver.WinsAttracted` | spot/misc/game.cc:197-216 | A won core, everything attracted to it, and what is won in the rest form one winning region with the combined strategy. |
| `Solver.SolveBelow` | spot/misc/game.cc:176-195 | The first recursive call, on the subgame without the attractor and without the largest color. |
| `Solver.SolveRemaining` | spot/misc/game.cc:197-218 | The second recursive call and the recombination of both regions and strategies. |
| `Solver.SolveRec` | spot/misc/game.cc:150-219 | Every subgame with a positive largest color is split into two regions, each with a winning positional strategy. |
| `Solver.DegenerateAnswer` | spot/misc/game.cc:168-174 | With color 0 only, the answer is a solution exactly when the environment is never stuck. |
| `Solver.StuckGameUnsolved` | spot/misc/game.cc:168-174 | A concrete game of color 0 whose stuck state is given to nobody, so that the answer is no solution. |
| `Solver.MaxParity` | spot/misc/game.hh:73-80 | The largest color that occurs on an edge. |
| `Solver.Solve` | spot/misc/game.cc:76-83 | The answer partitions the states with winning strategies if and only if the largest color is positive or the environment is never stuck. |
| `Arena.TwaGraph.NewEdge` | spot/graph/graph.hh:771-785 | An edge is appended to the list of its source; nothing else changes. |
| `Arena.Visit` | bin/ltlsynt.cc:211-221 | One pass over the edges of a state: what they leave uncovered, the owners and the pushes of unseen successors. |
| `Arena.TraversalShrinks` | bin/ltlsynt.cc:205-224 | The termination measure (unseen states, then stack entries already seen) decreases although a state can be pushed several times. |
| `Arena.VisitState` | bin/ltlsynt.cc:207-223 | Visiting a state keeps the traversal invariant, adds the missing edge once, and makes progress. |
| `Arena.Traverse` | bin/ltlsynt.cc:205-224 | The traversal ends on every finite arena with exactly the reachable states completed. |
| `Arena.ExtraCompletes` | bin/ltlsynt.cc:210-223 | After completion the labels of an environment state cover all letters. |
| `Arena.CompleteEnv` | bin/ltlsynt.cc:188-227 | The arena becomes its completion: two sinks, one added edge per reachable incomplete environment state, owners that agree with every alternation of the arena, and sinks of different players; it fails exactly when no mark is unsatisfying. |
| `Arena.SinksOwnedStep` | bin/ltlsynt.cc:204-221 | The sinks keep opposite owners, also when a source that is visited again makes them change owners. |
| `Arena.SinksAbsorb` | bin/ltlsynt.cc:191-198 | After an added edge a play stays in the sinks and sees only the unsatisfying color. |
| `Arena.CompletionPreservesWins` | bin/ltlsynt.cc:188-227 | A play of the completed arena is won by the controller if and only if it is a play of the original arena won by the controller. |
| `Arena.AddedEdgeLost` | bin/ltlsynt.cc:222-223 | A play that uses an added edge is lost by the controller. |
| `Controller.ChooseEdge` | bin/ltlsynt.cc:272-296 | The answer taken in the inner loop is the strategy's edge, and the lookup is defined. |
| `Controller.Number` | bin/ltlsynt.cc:283-287 | Numbering of game states stays injective; a new number schedules its state once. |
| `Controller.FuseState` | bin/ltlsynt.cc:270-297 | One fused transition per environment move, in order. |
| `Controller.StratToAut` | bin/ltlsynt.cc:256-302 | The extraction ends, all lookups are defined, and the result is the fused machine over a bijective numbering of winning environment states. |
| `Controller.RunIsPlay` | bin/ltlsynt.cc:256-302 | Every infinite run of the controller labels, two moves per letter, a play from the initial state that follows the strategy. |
| `Controller.Receptive` | bin/ltlsynt.cc:270-297 | Every state of the controller has a transition for every input valuation. |
| `Controller.RunExists` | bin/ltlsynt.cc:256-302 | A receptive controller has a run for every infinite input sequence. |
| `Controller.NothingToPurge` | bin/ltlsynt.cc:299 | Every state of the controller is reachable and has a successor, so purging dead states removes nothing. |
| `Synthesis.SinkLost` | bin/ltlsynt.cc:191-198 | Neither sink is in the controller's winning region. |
| `Synthesis.WonMove` | bin/ltlsynt.cc:222-223 | From won states only original edges lead on, to the other player. |
| `Synthesis.WonControls` | bin/ltlsynt.cc:270-281 | The solver's region and strategy give the extraction all it looks up. |
| `Synthesis.ExtractedRealizes` | bin/ltlsynt.cc:568-590 | A controller extracted from a winning strategy reacts to every input forever, and every word of it is accepted by the arena. |
| `Synthesis.OneColorLost` | spot/misc/game.cc:168-174 | With color 0 only, the environment wins from the initial state whatever the solver leaves unassigned. |
| `Realizability.NoAcceptingDuel` | bin/ltlsynt.cc:591-595 | The word on which a controller meets a winning environment strategy has no accepting play. |
| `Realizability.NoController` | bin/ltlsynt.cc:591-595 | If the environment wins the completed game over a deterministic arena, no controller at all realizes the specification. |
| `Pipeline.Extract` | bin/ltlsynt.cc:575-576 | From a won game the controller that comes out realizes the specification. |
| `Pipeline.SolveFormula` | bin/ltlsynt.cc:543-595 | REALIZABLE comes with a realizing controller, UNREALIZABLE with a winning environment strategy; over a deterministic arena REALIZABLE is the answer if and only if a controller exists. |
| `LtlCross.TestPair` | bin/ltlcross.cc:1400-1445 | The four guarded tests of one pair, counted. |
| `LtlCross.IntersectionTests` | bin/ltlcross.cc:1395-1446 | The double loop counts exactly the problems of the pairs the conditions select. |
| `LtlCross.ProblemsZero` | bin/ltlcross.cc:1395-1446 | The count is zero if and only if no selected test fails. |
| `LtlCross.CrossCheckExact` | bin/ltlcross.cc:1394-1446 | Without a reference pair and skipped products, nothing is reported if and only if one language explains all automata: all are under it or its complement, tools with both agree with it, and it is met exactly where one tool completes another. |
| `LtlCross.AgreementIsSilent` | bin/ltlcross.cc:1394-1446 | If all tools agree with one language nothing is reported, with or without references. |
| `LtlCross.ReferenceCheckExact` | bin/ltlcross.cc:1400-1446 | With a correct reference pair, nothing is reported if and only if the reference language explains the automata of all other tools, although these are hardly compared with each other. |
| `LtlCount.ProblemsCounted` | bin/ltlcross.cc:1395-1446 | The number of problems is the number of failing tests. |
| `LtlCross.SmallestRef` | bin/ltlcross.cc:1216-1235 | The first of the smallest reference automata, deterministic ones and then few states first, or -1 if there is none. |
| `LtlCross.FillComplements` | bin/ltlcross.cc:1318-1377 | The complements of one sign; those of reference tools are left out when there is a reference pair. |
| `LtlCross.Compare` | bin/ltlcross.cc:1214-1447 | A whole round keeps the languages, chooses references only as a pair, and reports nothing if and only if one language, or that of the references, explains the automata. |
| `AutCross.CircularPass` | bin/autcross.cc:721-734 | Counts the failing inclusions around the circle, and succeeds all around only if every automaton is there and no inclusion fails. |
| `AutCross.OtherPass` | bin/autcross.cc:735-745 | Counts the failing inclusions of all other ordered pairs. |
| `AutCross.PassesCover` | bin/autcross.cc:721-745 | The two passes together count every ordered pair exactly once. |
| `AutCross.FailuresCounted` | bin/autcross.cc:721-746 | The failing inclusions counted are as many as the pairs whose inclusion fails. |
| `AutCross.CircleEqual` | bin/autcross.cc:721-737 | If all inclusions around the circle hold, all languages are equal. |
| `AutCross.CheckEquivalence` | bin/autcross.cc:721-746 | The problems are exactly the failing inclusions, whichever way the check went; zero, with everything present, if and only if all languages are equal. |
| `Csv.ScanStep` | bin/common_finput.cc:223-248 | `instring` is the parity of the quotes consumed, also over doubled quotes. |
| `Csv.ScanColumn` | bin/common_finput.cc:193-258 | The bounds found are those of the column between separators at even quote parity. |
| `Csv.UnquoteStep` | bin/common_finput.cc:276-285 | One step never reads past the end of the column. |
| `Csv.UnquoteField` | bin/common_finput.cc:270-287 | Unquoting in place computes the unquoted text of the column; the bounds of its reads and writes are checked on the way. |
| `Csv.ExtractColumn` | bin/common_finput.cc:190-287 | Prefix, unquoted field and suffix of the column; nothing for a missing or empty column. |
| `Csv.GatherBalanced` | bin/common_finput.cc:165-188 | An assembled record always ends outside quotes. |
| `Csv.AssembleRecord` | bin/common_finput.cc:168-188 | Lines are joined until the quotes balance; the end of the file inside quotes is fatal. |
| `Csv.CountQuotes` | bin/common_finput.cc:174-176 | The result has the parity of the number of quotes of the line. |
| `Csv.ProcessStream` | bin/common_finput.cc:133-300 | The records of a whole stream; for a negative column those of the stream without its first line. |
| `CsvStream.WholeLinesRead` | bin/common_finput.cc:151-157 | Without a column the fields are the nonempty lines, whole and in order, and nothing is fatal. |
| `CsvStream.ReadsInPieces` | bin/common_finput.cc:151-288 | What is read from a stream is what is read from its pieces, if they meet between records. |
| `CsvStream.EmptyLineIgnored` | bin/common_finput.cc:151-152 | An empty line between two records changes nothing. |
| `CsvOutput.EscapeRfc4180` | spot/misc/escape.cc:31-45 | Doubles every quote. |
| `CsvOutput.PrintField` | bin/common_output.cc:365-388 | The field is quoted when it has a quote or comma inside a line, or when quoting is forced. |
| `CsvOutput.OutputFormula` | bin/common_output.cc:355-391 | The emitted line is prefix, field and suffix with their commas. |
| `CsvOutput.UnquoteEscaped` | spot/misc/escape.cc:31-45 | Unquoting undoes escaping, for every text. |
| `CsvOutput.ScanRebuilds` | bin/common_finput.cc:190-270 | Prefix, raw field and suffix joined by their commas are the whole record. |
| `CsvOutput.LineReadsBack` | bin/common_output.cc:361-391 | Reading the emitted line at the same column gives back field, prefix and suffix. |
| `CsvOutput.ReadsBackExactly` | bin/common_output.cc:361-391 | It does so if and only if the line has a prefix or a suffix, quotes are forced, or the formula has no quote and no comma. |
| `CsvRoundTrip.GatherLines` | bin/common_finput.cc:165-188 | Parity-based assembly ends exactly at the end of a text whose newlines are quoted. |
| `CsvRoundTrip.RecordReadsBack` | bin/common_finput.cc:151-288 | An emitted record reads back from however many physical lines it spans, and the reader goes on after it. |
| `CsvRoundTrip.FileReadsBack` | bin/common_finput.cc:151-288 | A whole emitted file reads back record for record. |
| `CsvRoundTrip.ReadIsStorable` | bin/common_finput.cc:264-270 | Whatever is read from a stream can be written again with another formula in its column. |
| `CsvRoundTrip.ReprocessedFile` | bin/common_output.cc:361-391 | Read a file, print every record with a new formula, read the output: the new formulas come back inside the old lines. |
| `CsvExact.DroppedReads` | bin/common_finput.cc:160-188 | What is read from a text whose first line ends with a carriage return: the record of the text without it. |
| `CsvExact.RecordReadsBackExactly` | bin/common_output.cc:361-391 | A printed record reads back from its physical lines if and only if its field is delimited and its first line does not end with a carriage return. |
| `CsvExact.CarriageReturnLost` | bin/common_finput.cc:160-163 | A concrete record that loses its carriage return. |
| `Shell.SingleQuoted` | bin/common_trans.cc:551-563 | The rest of a single-quoted string, as the tokenizer reads it. |
| `Shell.DoubleQuoted` | bin/common_trans.cc:564-581 | The rest of a double-quoted string with the tool's backslash rule, including the overrun. |
| `Shell.GetArg` | bin/common_trans.cc:518-592 | One word, exactly as the tokenizer reads it, or nothing when there is none or it is not simple. |
| `Shell.SkipWs` | bin/common_trans.cc:594-599 | The cursor moves to the first character that is not a space. |
| `Shell.TakeWord` | bin/common_trans.cc:650-687 | A word at the cursor becomes an argument or the target of the redirection. |
| `Shell.ParseSimpleCommand` | bin/common_trans.cc:642-703 | The result is the tool dialect of the tokenizer, for every line. |
| `ShellProperties.BypassRefinesShell` | bin/common_trans.cc:642-703 | Whenever the bypass accepts an ordinary line, words and last-wins targets are those of the POSIX tokenizer. |
| `ShellProperties.PartExactly` | bin/common_trans.cc:566-577 | The states of the two tokenizers part at the first character that is not ordinary where it stands, and nowhere before. |
| `ShellProperties.SpecialGoesToShell` | bin/common_trans.cc:527-550 | Each of the characters that are spelled out forces the shell wherever it stands outside quotes. |
| `ShellProperties.ExpansionGoesToShell` | bin/common_trans.cc:574-575 | A dollar or backquote inside double quotes forces the shell. |
| `ShellProperties.AcceptedIsPlain` | bin/common_trans.cc:523-550 | An accepted line has none of the spelled-out characters outside quotes, and a first word without an equals sign. |
| `ShellPlain.PlainWordsRead` | bin/common_trans.cc:642-698 | Words of ordinary characters with single spaces between them are accepted and come back, for the tool and the shell. |
| `ShellPlain.TrailingSpaceGoesToShell` | bin/common_trans.cc:648-684 | A line that ends with a space is left to the shell. |
| `ShellProperties.StrayBackslashDiffers` | bin/common_trans.cc:571-573 | A concrete line on which the bypass drops a backslash the shell keeps. |
| `ShellProperties.NewlineDiffers` | bin/common_trans.cc:594-599 | A concrete line whose newline the bypass takes for a blank. |
| `ShellProperties.PrintedLineReads` | bin/common_trans.cc:642-703 | Printed words and targets, in single or escaped double quotes, parse back to exactly themselves, for the tool and the shell. |
| `ShellExact.Track` | bin/common_trans.cc:566-599 | At every point of an accepted line, the two readings are equal up to targets that will be overwritten, or can never give the same result again. |
| `ShellExact.BypassExact` | bin/common_trans.cc:642-703 | On every line the bypass accepts, words and targets are those of the shell if and only if every character is ordinary where it stands or only touches a target that is overwritten. |
| `ShellExact.BypassExactOneTarget` | bin/common_trans.cc:642-703 | With at most one redirection of each kind, if and only if the line is ordinary. |
| `ShellExact.OverwrittenTarget` | bin/common_trans.cc:654-679 | A concrete line that is not ordinary and is read correctly. |
| `ShellExact.OverrunLine` | bin/common_trans.cc:567-577 | A concrete line whose end the bypass runs over, while the shell finds it incomplete. |
| `ArgpTables.KeyRoundTrip` | lib/argp-parse.c:337-345 | Unpacking a packed key gives back group and key if and only if the key is a signed 24-bit value and the group is among the first 127. |
| `ArgpTables.KeysDisjoint` | lib/argp-parse.c:48-62 | No packed key of the first 127 groups equals a letter, an argument, an error or the end. |
| `ArgpMeaning.RealIs` | lib/argp-parse.c:305-307 | An option stands for the closest entry before it that is not an alias. |
| `ArgpMeaning.LetterMeaning` | lib/argp-parse.c:309-323 | In the short-option string getopt finds the letter with the kind of argument its entry declares. |
| `ArgpMeaning.LongMeaning` | lib/argp-parse.c:325-346 | A long option has its entry's kind of argument, and its own key or else the key of its entry. |
| `ArgpMeaning.DefaultTables` | lib/argp-parse.c:83-93 | The options every program has make one group, one letter and four long options. |
| `ArgpTables.NodesFit` | lib/argp-parse.c:289-388 | Filling uses at most three characters and one long option per option, and exactly the counted groups and slots. |
| `ArgpTables.SlotsCounted` | lib/argp-parse.c:364-374 | The child slots handed out are among the counted child entries. |
| `ArgpStorage.TreeCounts` | lib/argp-parse.c:430-460 | The counted options and groups of a tree are those of its groups in pre-order. |
| `ArgpStorage.Sizes.CalcSizes` | lib/argp-parse.c:430-460 | The sizes grow by the options, groups and child entries of the tree. |
| `ArgpStorage.SizesSuffice` | lib/argp-parse.c:463-486 | Arrays of the counted sizes leave room for the whole tree and the terminators. |
| `ArgpStorage.NoArgsOverflow` | lib/argp-parse.c:472-486 | With ARGP_NO_ARGS the short-option string does not fit if and only if every option of the tree is a letter with an optional argument. |
| `ArgpStorage.NoOptionsOverflow` | lib/argp-parse.c:403-405 | It does not fit for an argp without options. |
| `ArgpStorage.Parser.constructor` | lib/argp-parse.c:462-508 | Allocating what was counted and filling it never leaves an array, and ends with the tables of the tree. |
| `ArgpStorage.Parser.FindLongOption` | lib/argp-parse.c:325-326 | A name is found exactly when it is among the terminated long options. |
| `ArgpStorage.Parser.ConvertOption` | lib/argp-parse.c:304-350 | One option: letter with colons, long option unless its name is taken, both terminated. |
| `ArgpStorage.Parser.ConvertGroup` | lib/argp-parse.c:300-377 | The options of one argp and its group record. |
| `ArgpStorage.Parser.ConvertOptions` | lib/argp-parse.c:288-388 | The recursive fill adds exactly the groups of the tree, in pre-order. |
| `ArgpStorage.Parser.Dispatch` | lib/argp-parse.c:716-752 | A letter goes to the group found from its position; a packed key to its group with its key. |
| `ArgpDispatch.OwnerIsFirst` | lib/argp-parse.c:725-741 | Position and end marks identify the group that declares a letter first in pre-order, or none if no group does. |
| `ArgpLinks.ExactFill` | lib/argp-parse.c:325-350 | The long options are exactly the first declarations of the names, each once. |
| `ArgpLinks.LongOptionMeaning` | lib/argp-parse.c:325-350 | A long option unpacks to the group and the key of the first declaration of its name. |
| `ArgpLinks.TreeLinked` | lib/argp-parse.c:353-387 | Parent links lead to an earlier group that has the argp at the recorded place among its children. |
| `ArgpLinks.InputSlots` | lib/argp-parse.c:529-540 | The slot a group's input is read from exists, and belongs to its parent and to no other group. |
| `ArgpLinks.PartsDisjoint` | lib/argp-parse.c:482-508 | In the one allocated block the four tables occupy disjoint parts large enough for what was counted. |
| `ArgpHelp.FindChar` | lib/argp-help.c:338-348 | Whether the character occurs. |
| `ArgpHelp.NextLetter` | lib/argp-help.c:895-913 | The next letter of a list's string belongs to an option exactly when it is the first with that letter. |
| `ArgpHelp.MakeEntry` | lib/argp-help.c:467-494 | An entry takes an option and all aliases after it, and exactly those of their letters that are not taken yet. |
| `ArgpHelp.MakeHol` | lib/argp-help.c:430-499 | The entries cover the options of the argp in order, and the letters are those options' letters without repetition. |
| `ArgpHelp.HolAppend` | lib/argp-help.c:833-925 | Appending gives the list of both lists of options: earlier letters shadow later ones, and every entry points at its own letters. |
| `ArgpAgreement.ArgpHol` | lib/argp-help.c:1366-1387 | The help list of a tree is the one of all its options in pre-order. |
| `ArgpAgreement.ShortIterate` | lib/argp-help.c:547-570 | The letters an entry's walk visits. |
| `ArgpAgreement.LettersDivide` | lib/argp-help.c:547-570 | The entries divide the shared string among them. |
| `ArgpAgreement.ShownOnce` | lib/argp-help.c:833-925 | No letter is shown with two entries, and the shared string has no duplicates. |
| `ArgpAgreement.ShownLetterOwner` | lib/argp-help.c:547-570 | A letter shown with an entry is dispatched to the entry's group if and only if that group has a usable option with it. |
| `ArgpAgreement.HelpMatchesParser` | lib/argp-help.c:1366-1387 | Without letters on aliases of documentation entries, a letter is shown with an entry of a group if and only if the parser dispatches it there. |
| `ArgpAgreement.DocAliasDisagrees` | lib/argp-parse.c:309-312 | A concrete argp: every help list of it shows a letter with an entry that no group is handed. |
| `ArgpProtocol.Parser.GroupParse` | lib/argp-parse.c:224-240 | A group with a parser is called once and its answer taken over; one without is not called and understands nothing. |
| `ArgpProtocol.Parser.Start` | lib/argp-parse.c:522-547 | INIT goes to the groups in order until one really fails. |
| `ArgpProtocol.Parser.ParseArg` | lib/argp-parse.c:665-713 | An argument is offered to the groups in turn, alone and then with all that follow; the count of each group stays what its answers consumed. |
| `ArgpProtocol.OffersConsume` | lib/argp-parse.c:694-710 | An offer makes at most the group of its last call consume arguments, and as many as the position moved over. |
| `ArgpProtocol.Parser.Look` | lib/argp-parse.c:779-845 | Where getopt is asked, what it reports; elsewhere the next argument, or the end when none is left or wanted; with the whole new state. |
| `ArgpProtocol.Parser.ParseNext` | lib/argp-parse.c:774-862 | One turn: what is found, the calls made for it, their outcome, and the whole new state. |
| `ArgpProtocol.Parser.TellEnd` | lib/argp-parse.c:582-602 | NO_ARGS in order to the groups that consumed nothing, then END in reverse order, each until a real error. |
| `ArgpProtocol.Parser.TellVerdict` | lib/argp-parse.c:622-652 | ERROR to all groups in order, or SUCCESS in reverse order until a real error; then FINI to all in reverse order; no error if and only if no SUCCESS call really failed. |
| `ArgpProtocol.Parser.Settle` | lib/argp-parse.c:577-613 | NO_ARGS and END if everything is parsed, otherwise the rest goes to the caller or is too much; and the position reported. |
| `ArgpProtocol.Parser.Finalize` | lib/argp-parse.c:570-657 | The last calls by phase, the error that is returned, exactly when there is none, and the position reported. |
| `ArgpProtocol.Parser.Parse` | lib/argp-parse.c:921-933 | A run is refused at INIT, or consists of INIT to all, turns, and the last calls in order; it returns no error if and only if no call really failed and the loop ended calmly with all arguments parsed or a caller who takes the rest; it is complete unless at least as many calls were made as the bound. |
| `ArgpProtocol.ReportsDelivered` | lib/argp-parse.c:787-860 | Until getopt reports the end, every turn is what it reports: an option goes to its group by one call, an argument is offered. |
| `ArgpProtocol.OptionCall` | lib/argp-parse.c:856-857 | An option is only delivered where getopt is asked and reports it, to the group it was reported for. |
| `ArgpProtocol.ArgumentCall` | lib/argp-parse.c:833-854 | An argument that is offered was reported by getopt, or is the next one where getopt has nothing to say. |
| `ArgpProtocol.EndReported` | lib/argp-parse.c:806-820 | When getopt reports the end it is not asked any more, and a "--" starts a quoted region. |
| `ArgpProtocol.QuotedArguments` | lib/argp-parse.c:780-787 | In a quoted region the arguments are offered one after the other, without asking getopt. |
| `ArgpProtocol.RestOffered` | lib/argp-parse.c:830-845 | So are those after the end of the options, as long as no parser moves back. |
| `ArgpProtocol.MovingBackAsks` | lib/argp-parse.c:703-709 | A parser that moves back over the argument it accepted has getopt asked again. |
| `ArgpProtocol.OfferOrder` | lib/argp-parse.c:677-692 | ARGS comes right after an ARG that was not understood, to the same group, and only the last call of an offer may be understood. |
| `ArgpProtocol.ConsumedNothing` | lib/argp-parse.c:694-710 | A group has consumed nothing if and only if it never accepted an argument and moved over it. |
| `ArgpProtocol.DownDescends` | lib/argp-parse.c:589-592 | The reverse order is strictly descending. |
| `ArgpProtocol.GroupSees` | lib/argp.h:171-185 | In every complete run a group with a parser sees INIT, options and arguments, NO_ARGS only if it consumed nothing and only before END, one of SUCCESS and ERROR at most, and one final FINI. |
| `Alloca.Allocator.Alloca` | lib/alloca.c:139-206 | The deeper blocks at the front of the chain are freed, and a block is linked unless none is asked for. |
| `Alloca.KeepFacts` | lib/alloca.c:150-173 | Reclaiming keeps the order and everything that is not deeper, and leaves nothing deeper. |
| `Alloca.StepSafe` | lib/alloca.c:139-206 | Every call, return and request keeps the chain ordered and all blocks of live frames in it. |
| `Alloca.TraceSafe` | lib/alloca.c:139-206 | So does every trace that obeys stack discipline. |
| `Alloca.LiveNeverFreed` | lib/alloca.c:132-137 | A block whose frame is still on the stack has never been freed. |
| `Alloca.NothingDeeperLeft` | lib/alloca.c:150-173 | After a request no block deeper than the caller is left. |

## Left out

- The library algorithms called by the tools: translation, determinization, splitting, products, complementation, BDD operations. They are parameters with contracts, or preconditions on the arena.
- Arenas whose edges carry no mark or several marks; the automata given to the game are colored.
- Products with too many acceptance sets in the two comparison engines. They are skipped and count as no problem, so the theorems assume that every product is built; the counting loops themselves include the skip.
- The statistics, `cross_check`, `consistency_check`, random state spaces and the determinize options of `ltlcross`, and the decision of `ltlcross` to complement at all.
- Process spawning, temporary files, signals and the timeout escalation of `exec_with_timeout`.
- Line numbers and error codes of `process_stream`, and the `abort_run` flag. Each stream is read by itself: that the column setting loses its sign with the first stream, so that the header of a second file is not skipped, is not modelled.
- Reserved words, aliases and built-ins of the shell: the reference tokenizer splits words and stops there.
- Output formats other than the default one in `output_formula`.
- ArgpStorage.Parser.constructor: fills the tables without ARGP_NO_ARGS, for which `ArgpStorage.NoArgsOverflow` says when they overflow; the four tables are separate arrays here, and `ArgpLinks.PartsDisjoint` says why the shared block makes no difference. The failure of `malloc` is not modelled.
- ArgpDispatch.OwnerIsFirst: is about letters other than the colon, which getopt never returns as an option, and other than the dash when arguments are asked for in order.
- ArgpProtocol.Parser.Parse: takes a bound, and says nothing of the end of a run that makes at least so many calls; runs in which the user's parsers move back forever do not end.
- ArgpProtocol.Parser.Finalize: does not print messages; the help that is printed for an unrecognised option is taken to return.
- User parsers that change other fields of the argp state than the position of the next argument, and the inputs they pass to child parsers.
- getopt's own matching of abbreviated long options, and the error text of `parser_parse_opt`.
- Sorting, clusters, visibility flags and formatting of the help list.
- The storage of help lists: entries and letters are sequences, not the two blocks whose sizes `make_hol` computes.
- The Cray variants of alloca, the detection of the stack direction, and memory exhaustion.
- Option switches, argument matching, path handling and the pipelines of `autfilt`, `ltlfilt` and the generators, which would only add easy members.
