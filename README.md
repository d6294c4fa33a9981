# LL(1) compiler-compiler core, modelled in Dafny

The system is a small compiler-compiler for a PL/0-style language, written in
Python. Its generator reads a BNF grammar and does four things:

- computes FIRST and FOLLOW sets;
- fills an LL(1) predictive table;
- emits a table-driven parser;
- pastes into that parser a fixed set of semantic actions that produce
  three-address code (TAC).

The runtime side consists of these pieces:

- the TAC context that mints temporaries and labels and renders the
  quadruples;
- a token cursor for hand-written parsers;
- source-position helpers and the base compiler error;
- a position-insensitive token record;
- an AST node with a tree printer.

This project models that core and proves properties of the model:

| module | file | models |
|---|---|---|
| `Wrappers` | `wrappers.dfy` | `Option` and `Result` |
| `PyStr` | `pystr.dfy` | the Python `str` builtins the core relies on: `strip`, whitespace `split`, `" ".join`, `find`, `rfind`, `count`, `startswith`/`endswith`, `str(int)` |
| `GrammarSets` | `grammar_sets.dfy` | `is_nonterminal`, `first_of_string`, defaultdict reads of a dict of sets, and the finite bounds used for termination |
| `GrammarText` | `grammar_text.dfy` | the text side of `load_grammar`: comment stripping, grouping of continuation lines, `\|` alternatives, `ε`/`EPSILON` normalisation |
| `YaccSpec` | `yacc_spec.dfy` | the grammar a file denotes, and the table `build_table` writes, as functions |
| `FirstFollow` | `first_follow.dfy` | the `compute_first` and `compute_follow` loops, with their closure, growth and bound invariants |
| `Yacc` | `yacc.dfy` | class `YaccBuilder`: `load_grammar`, `compute_first`, `compute_follow`, `build_table` on its fields |
| `Tac` | `tac.dfy` | class `TACContext`, and the rendering of quadruples |
| `Actions` | `actions.dfy` | the semantic actions and `ACTIONS`; closures become a continuation datatype |
| `Parser` | `parser.dfy` | `parse` as a step function plus an imperative loop; `PARSE_TABLE` |
| `Common` | `common.dfy` | line/column from an offset; `CompilerError.__str__` |
| `UtilToken` | `utoken.dfy` | the lexer token's equality and `__str__` |
| `RuntimeToken` | `rtoken.dfy` | `Token` and the `TokenStream` cursor |
| `Ast` | `ast.dfy` | `ASTNode`'s child list, `__str__` and `print_tree` |

Code that mutates state stays imperative in the model:

- `YaccBuilder`, `TACContext`, `TokenStream` and `ASTNode` are classes whose
  methods update fields.
- `parse` is a `while` loop over explicit stacks.
- Each such method is tied by its postcondition to a pure function of the
  old state. The properties are proved about those functions.

Each parse step changes the TAC context, so each semantic action is given
twice:

- a pure function `Actions.Act` over a value snapshot of the context
  (`Tac.TacState`);
- a method over the live `TACContext` that is proved to agree with it.

Dict iteration order is modelled as an explicit key order:

- A Python dict iterates in insertion order. `YaccBuilder` keeps `order`,
  the keys of `productions` in the order they were first added.
- The `Parse` method takes the table as a parameter; the generated one is
  `Parser.PARSE_TABLE`.
- The generated parser defines `ACTIONS = {}` at its top. It rebinds the name
  to the full action table at its end, before `parse` can run. The model
  therefore dispatches through `Actions.ACTIONS`.

## Model

| member | source | states |
|---|---|---|
| GrammarSets.IsNonterminal | compiler_project/generator/yacc_builder.py:93-94 | a symbol is a nonterminal iff it has at least two characters, starts with `<` and ends with `>` |
| GrammarSets.SpecialSymbolsAreTerminals | compiler_project/generator/yacc_builder.py:14-15 | neither `ε` nor `$` is a nonterminal |
| GrammarSets.FirstOfString | compiler_project/generator/yacc_builder.py:145-155 | every element of FIRST(symbols) other than ε is in the FIRST set of some symbol of the string that is not `ε` |
| GrammarSets.FirstOfStringEpsilon | compiler_project/generator/yacc_builder.py:145-155 | ε is in FIRST(symbols) iff every symbol before some position is nullable, and that position is the end or an explicit `ε` |
| GrammarSets.FirstOfStringMember | compiler_project/generator/yacc_builder.py:145-155 | a non-ε symbol x is in FIRST(symbols) iff some symbol that is not `ε`, reached through a nullable prefix, has x in its FIRST set |
| GrammarSets.FirstOfStringBound | compiler_project/generator/yacc_builder.py:145-155 | FIRST(symbols) holds only elements of the FIRST map plus ε |
| GrammarSets.FirstOfStringMonotone | compiler_project/generator/yacc_builder.py:145-155 | larger FIRST sets give a larger FIRST(symbols) |
| GrammarSets.FirstOfStringCongruent | compiler_project/generator/yacc_builder.py:145-155 | two maps that read the same at every key give the same FIRST(symbols) |
| GrammarSets.NullablePrefixStep | compiler_project/generator/yacc_builder.py:147-153 | a nullable prefix one symbol longer is a nullable first symbol followed by a nullable prefix of the rest |
| GrammarSets.PairsLookup | compiler_project/generator/yacc_builder.py:27-28 | a (key, element) pair is in a map of sets iff the defaultdict read of that key holds the element |
| GrammarSets.SamePairs | compiler_project/generator/yacc_builder.py:111-113 | maps with the same pairs read alike and give the same FIRST of every string |
| GrammarSets.Grow | compiler_project/generator/yacc_builder.py:111-113 | joining a set into one key keeps every pair, leaves other keys alone, and adds a pair exactly when that key's set got larger |
| GrammarSets.AllValuesGrow | compiler_project/generator/yacc_builder.py:112 | a join adds no element other than those of the joined set |
| GrammarSets.InBox | compiler_project/generator/yacc_builder.py:106-114 | a map with bounded keys and bounded elements has its pairs inside the finite product of the two bounds |
| PyStr.Strip | compiler_project/generator/yacc_builder.py:45 | the result is the slice of the input left when the whitespace at both ends is removed, and it neither starts nor ends with whitespace |
| PyStr.LStrip | compiler_project/generator/yacc_builder.py:45 | the result is a suffix of the input, with only whitespace removed in front of it |
| PyStr.RStrip | compiler_project/generator/yacc_builder.py:45 | the result is a prefix of the input, with only whitespace removed after it |
| PyStr.SplitWs | compiler_project/generator/yacc_builder.py:74 | every word of `split()` is non-empty and free of whitespace, and the words written back to back are exactly the input's non-whitespace characters in order |
| PyStr.SplitWsMaximal | compiler_project/generator/yacc_builder.py:74 | every word of `split()` is a maximal run of non-whitespace: it occurs in the input preceded by whitespace or the start and followed by whitespace or the end |
| PyStr.SplitWsAppend | compiler_project/generator/yacc_builder.py:70 | splitting `a + " " + b` gives the words of a followed by the words of b |
| PyStr.SplitJoinRoundTrip | compiler_project/src/runtime/ctx.py:67 | joining non-empty whitespace-free words with spaces and splitting again gives the words back |
| PyStr.Find | compiler_project/generator/yacc_builder.py:55 | `find` returns -1 or an occurrence, and there is no earlier occurrence |
| PyStr.IndexOf | compiler_project/generator/yacc_builder.py:49 | `index` of a present character is its first position |
| PyStr.RFind | compiler_project/src/utils/common.py:188 | `rfind` returns -1 or a position holding the character, with no later one |
| PyStr.Count | compiler_project/src/utils/common.py:173 | `count` is the number of positions holding the character; it is zero exactly when the character is absent |
| PyStr.CountConcat | compiler_project/src/utils/common.py:173 | counts add up over a concatenation |
| PyStr.NatToString | compiler_project/src/runtime/ctx.py:23 | `str(n)` is a non-empty string of decimal digits with no leading zero; it starts with `0` exactly when n is 0 |
| PyStr.ParseNatToString | compiler_project/src/runtime/ctx.py:23 | reading back the digits of `str(n)` gives n |
| PyStr.IntToStringInjective | compiler_project/src/utils/common.py:28 | different integers print differently |
| GrammarText.CleanLine | compiler_project/generator/yacc_builder.py:45-50 | a blank or `#` line is dropped (both directions); a kept line is non-empty and holds no `#`; a line without `#` is kept stripped; a line with `#` keeps exactly the stripped text before its first `#` |
| GrammarText.CleanLines | compiler_project/generator/yacc_builder.py:44-50 | the kept lines are non-empty, free of `#`, and no more numerous than the input lines |
| GrammarText.MarkIndex | compiler_project/generator/yacc_builder.py:59 | the split position is the first occurrence of `::=` |
| GrammarText.ContinuationEnd | compiler_project/generator/yacc_builder.py:69-71 | the continuation run after a rule line ends at the next `::=` line or at the end of the file, and holds no rule line |
| GrammarText.ContinuationEndIs | compiler_project/generator/yacc_builder.py:69-71 | the run is exactly the non-rule lines up to the next rule line |
| GrammarText.OneRulePerRuleLine | compiler_project/generator/yacc_builder.py:52-83 | the rules read are one per `::=` line, in file order, each with the stripped text before its first `::=` as left-hand side |
| GrammarText.NoRuleLinesBetween | compiler_project/generator/yacc_builder.py:55-57 | lines without `::=` contribute no rule |
| GrammarText.ContinuationWords | compiler_project/generator/yacc_builder.py:67-71 | the words of the joined right-hand side are the rule line's words followed by each continuation line's words |
| GrammarText.WordsOfLinesSnoc | compiler_project/generator/yacc_builder.py:69-71 | one more continuation line appends its words |
| GrammarText.Normalize | compiler_project/generator/yacc_builder.py:79-80 | `EPSILON` becomes `ε` and every other token, `ε` included, is kept as it is; so no symbol stays `EPSILON` |
| GrammarText.Alternatives | compiler_project/generator/yacc_builder.py:73-83 | there is always at least one alternative |
| GrammarText.AlternativesCount | compiler_project/generator/yacc_builder.py:74-83 | there is one more alternative than there are `\|` words |
| GrammarText.AlternativesClean | compiler_project/generator/yacc_builder.py:75-81 | no alternative holds `\|` or `EPSILON` |
| GrammarText.AlternativesUnsplit | compiler_project/generator/yacc_builder.py:73-83 | writing the alternatives back with `\|` between them gives the normalised words, so no word is lost or reordered |
| GrammarText.UnsplitExtendLast | compiler_project/generator/yacc_builder.py:81 | appending a word to the last alternative appends it to the written-back words |
| GrammarText.NormalizeAll | compiler_project/generator/yacc_builder.py:79-80 | every word is normalised in place |
| GrammarText.StripKeeps | compiler_project/generator/yacc_builder.py:45 | stripping adds no character |
| GrammarText.CutBeforeHash | compiler_project/generator/yacc_builder.py:45-49 | stripping before cutting at the first `#` changes nothing: a line holds `#` iff its stripped text does, and the text before the first `#` strips to the same either way |
| GrammarText.CutIsClean | compiler_project/generator/yacc_builder.py:48-49 | cutting a non-comment line at `#` leaves non-empty text without `#` |
| GrammarText.RuleLinesFrom | compiler_project/generator/yacc_builder.py:55 | every listed line contains `::=` |
| YaccSpec.AddRule | compiler_project/generator/yacc_builder.py:59-83 | after one rule its left-hand side is a nonterminal with productions, there is a start symbol, and no key of `productions` is lost |
| YaccSpec.LoadSpec | compiler_project/generator/yacc_builder.py:38-83 | reading a file keeps a well-formed builder well formed and keeps a start symbol already chosen |
| YaccSpec.AddRuleWellFormed | compiler_project/generator/yacc_builder.py:62-83 | adding a rule keeps the key order duplicate-free and in step with the production keys; every left-hand side stays a nonterminal and the start symbol keeps productions |
| YaccSpec.AddRulesWellFormed | compiler_project/generator/yacc_builder.py:52-83 | the same after any number of rules |
| YaccSpec.StartIsFirstLhs | compiler_project/generator/yacc_builder.py:62-63 | the start symbol is the first left-hand side ever read, and is never replaced |
| YaccSpec.StartOfFile | compiler_project/generator/yacc_builder.py:44-63 | for a fresh builder, the start symbol is the left-hand side of the file's first `::=` line, and there is none when no line holds `::=` |
| YaccSpec.NonterminalsAreLhss | compiler_project/generator/yacc_builder.py:65 | the nonterminals are exactly the left-hand sides read |
| YaccSpec.ProductionsCollected | compiler_project/generator/yacc_builder.py:76-83 | a nonterminal's productions are the alternatives of all its rules, in file order, even when rules for it are scattered |
| YaccSpec.AddRuleProds | compiler_project/generator/yacc_builder.py:76-83 | one rule appends its alternatives to its own left-hand side only |
| YaccSpec.ContinuationExtendsRule | compiler_project/generator/yacc_builder.py:67-83 | a rule with continuation lines yields the alternatives of all its words together |
| YaccSpec.LastWriter | compiler_project/generator/yacc_builder.py:161-168 | the production that ends up in slot (A, t) is the last of A's productions that writes t; it is None iff none writes it |
| YaccSpec.FillEntry | compiler_project/generator/yacc_builder.py:164-168 | a fill sets the slots of the given lookaheads and leaves every other slot as it was |
| YaccSpec.RowForEntry | compiler_project/generator/yacc_builder.py:162-168 | after A's productions, slot (A, t) holds the last writer of t when there is one; every other slot is unchanged |
| YaccSpec.TableForEntry | compiler_project/generator/yacc_builder.py:161-168 | after the main pass, each slot holds its row's last writer, or its old content when no production writes it |
| YaccSpec.FirstRowIsRowWithoutFollow | compiler_project/generator/yacc_builder.py:171-173 | the start-symbol pass is the main pass for the start symbol with every FOLLOW set empty |
| YaccSpec.BuiltTable | compiler_project/generator/yacc_builder.py:160-173 | `build_table` only writes entries: every key of the old table is still present |
| YaccSpec.BuiltTableEntry | compiler_project/generator/yacc_builder.py:160-173 | a (start, t) slot with t in FIRST of a start production holds the last such production; otherwise a slot holds the main pass's last writer, or its old content |
| YaccSpec.TableEntriesSound | compiler_project/generator/yacc_builder.py:160-173 | every slot of the built table either was there before or holds one of A's own productions `prod`, with t in FIRST(prod) - {ε}, or ε in FIRST(prod) and t in FOLLOW(A) |
| YaccSpec.EpsilonOverwrites | compiler_project/generator/yacc_builder.py:165-168 | no conflict is reported: an ε-production written later overwrites a non-ε production in the same slot |
| FirstFollow.FirstInitAt | compiler_project/generator/yacc_builder.py:100-104 | after the initial loops a nonterminal reads as empty, a terminal that is not a left-hand side reads as itself, and any other key reads as before |
| FirstFollow.InitTerminals | compiler_project/generator/yacc_builder.py:100-101 | every terminal's FIRST is set to itself; other keys are kept |
| FirstFollow.InitNonterminals | compiler_project/generator/yacc_builder.py:103-104 | every nonterminal's FIRST is reset to empty; other keys are kept |
| FirstFollow.SelfSetsIs | compiler_project/generator/yacc_builder.py:100-101 | a map that has set every terminal to itself is the initialised map |
| FirstFollow.EmptySetsIs | compiler_project/generator/yacc_builder.py:103-104 | a map that has emptied every nonterminal is the initialised map |
| FirstFollow.FirstOfSymbols | compiler_project/generator/yacc_builder.py:145-155 | the early-return loop computes FIRST(symbols) |
| FirstFollow.FirstStep | compiler_project/generator/yacc_builder.py:111-114 | one production joins FIRST(prod) into FIRST(A); the change flag is set iff FIRST(A) got larger |
| FirstFollow.FirstUpdateBounded | compiler_project/generator/yacc_builder.py:112 | after the join FIRST(A) contains FIRST(prod), and no key outside the swept ones changes |
| FirstFollow.FirstRowPass | compiler_project/generator/yacc_builder.py:110-114 | one nonterminal's productions only add pairs; with no growth, FIRST(A) contains FIRST of each of them; a growing pass adds a pair |
| FirstFollow.FirstSweep | compiler_project/generator/yacc_builder.py:108-114 | one full pass only adds pairs; a pass without growth leaves every production closed |
| FirstFollow.FirstFixpoint | compiler_project/generator/yacc_builder.py:106-114 | the loop terminates; FIRST only grows; every production is closed (FIRST(A) ⊇ FIRST(prod)); only ε is new |
| FirstFollow.FirstClosedTransfer | compiler_project/generator/yacc_builder.py:106-114 | closedness depends only on the pairs of the map |
| FirstFollow.FirstBoundedTrans | compiler_project/generator/yacc_builder.py:106-114 | the bounds compose across passes |
| FirstFollow.WithEndMarkerAdds | compiler_project/generator/yacc_builder.py:120 | `$` lands in FOLLOW(start); nothing is lost and no ε is added |
| FirstFollow.FollowUpdateCloses | compiler_project/generator/yacc_builder.py:127-137 | after one position's update, FOLLOW(B) ⊇ FIRST(β) - {ε}, and ⊇ FOLLOW(A) when β is empty or nullable |
| FirstFollow.FollowUpdateShape | compiler_project/generator/yacc_builder.py:133-137 | the update joins one set into FOLLOW(B) only |
| FirstFollow.FollowAddedBound | compiler_project/generator/yacc_builder.py:134-137 | what is joined comes from FIRST and FOLLOW sets, and holds no ε when FOLLOW held none |
| FirstFollow.FollowUpdateGrows | compiler_project/generator/yacc_builder.py:133-140 | an update only adds pairs, and adds one exactly when FOLLOW(B) got larger |
| FirstFollow.FollowUpdateBounded | compiler_project/generator/yacc_builder.py:133-137 | an update touches only key B, adds only FIRST/FOLLOW elements, and never adds ε |
| FirstFollow.FollowStep | compiler_project/generator/yacc_builder.py:127-140 | one position of a production: the FOLLOW update, with the change flag set iff FOLLOW(B) got larger |
| FirstFollow.FollowJoinStep | compiler_project/generator/yacc_builder.py:133-140 | the two joins into FOLLOW(B), with the flag comparing B's size before and after |
| FirstFollow.FollowPass | compiler_project/generator/yacc_builder.py:127-140 | one production only adds pairs; with no growth, the FOLLOW rules hold at each of its positions |
| FirstFollow.ClosedTransfer | compiler_project/generator/yacc_builder.py:127-137 | the FOLLOW rules depend only on the pairs of the map |
| FirstFollow.FollowRowPass | compiler_project/generator/yacc_builder.py:126-140 | the same for all productions of one nonterminal |
| FirstFollow.FollowSweep | compiler_project/generator/yacc_builder.py:125-140 | one full pass only adds pairs; a pass without growth leaves the FOLLOW rules holding everywhere |
| FirstFollow.FollowFixpoint | compiler_project/generator/yacc_builder.py:122-140 | the loop terminates; FOLLOW only grows; the FOLLOW rules hold at every position of every production; new elements come from FIRST and FOLLOW; no ε appears |
| FirstFollow.FollowClosedTransfer | compiler_project/generator/yacc_builder.py:122-140 | closedness of a whole pass depends only on the pairs |
| FirstFollow.FollowBoundedTrans | compiler_project/generator/yacc_builder.py:122-140 | the FOLLOW bounds compose across passes |
| FirstFollow.SymbolsOfRow | compiler_project/generator/yacc_builder.py:125-127 | a row's symbols are among the grammar's symbols |
| Yacc.CleanFile | compiler_project/generator/yacc_builder.py:44-50 | the line loop keeps exactly the cleaned lines |
| Yacc.RuleHead | compiler_project/generator/yacc_builder.py:59-60 | the left-hand side is the stripped text before the first `::=` |
| Yacc.ScanContinuation | compiler_project/generator/yacc_builder.py:67-71 | the right-hand side is the rule line's stripped text plus `" " + line` for each continuation line; scanning stops at the next rule line |
| Yacc.FillSlots | compiler_project/generator/yacc_builder.py:164-168 | iterating a set of lookaheads writes the same production into each slot, whatever the order |
| Yacc.FillIs | compiler_project/generator/yacc_builder.py:164-168 | a map whose slots have all been written is the filled table |
| Yacc.RowPass | compiler_project/generator/yacc_builder.py:162-168 | one nonterminal's productions write the specified row |
| Yacc.TablePass | compiler_project/generator/yacc_builder.py:161-168 | the main pass writes the specified table |
| Yacc.StartPass | compiler_project/generator/yacc_builder.py:171-173 | the start-symbol pass writes the specified row |
| Yacc.TerminalsLoop | compiler_project/generator/yacc_builder.py:85-89 | the terminals are exactly the right-hand side symbols that are neither `ε` nor nonterminals |
| Yacc.TerminalsInAll | compiler_project/generator/yacc_builder.py:85-89 | sweeping all keys finds the terminals of the whole grammar |
| Yacc.TerminalsInSnoc | compiler_project/generator/yacc_builder.py:85-89 | one more nonterminal adds the terminals of its productions |
| Yacc.TerminalsOfProdsSnoc | compiler_project/generator/yacc_builder.py:86-89 | one more production adds its terminals |
| Yacc.TerminalsOfProdSnoc | compiler_project/generator/yacc_builder.py:87-89 | one more symbol adds itself exactly when it is a terminal |
| Yacc.FirstSets | compiler_project/generator/yacc_builder.py:99-114 | after the initial loops and the fixpoint: closed under every production; the starting sets only grow; non-left-hand sides keep their initial sets (a terminal's FIRST is itself); only terminals and ε are added |
| Yacc.FirstOfTerminals | compiler_project/generator/yacc_builder.py:100-101 | a terminal that is no left-hand side keeps FIRST = {itself} |
| Yacc.FirstClosedAtKeys | compiler_project/generator/yacc_builder.py:109-113 | closed along the key order means closed at every key |
| Yacc.FollowSets | compiler_project/generator/yacc_builder.py:119-140 | `$` is in FOLLOW(start); FOLLOW only grows; the FOLLOW rules hold for every production; new elements come from FIRST; no ε is added |
| Yacc.FollowClosedAtKeys | compiler_project/generator/yacc_builder.py:125-137 | closed along the key order means closed for every production |
| Yacc.WithAltsSnoc | compiler_project/generator/yacc_builder.py:76 | one more append extends the productions and, for a new key, the key order |
| Yacc.AlternativesStep | compiler_project/generator/yacc_builder.py:74-81 | one more word either closes the current alternative or extends it |
| Yacc.ExtendLast | compiler_project/generator/yacc_builder.py:81 | extending the current alternative extends the last one |
| Yacc.YaccBuilder.constructor | compiler_project/generator/yacc_builder.py:20-31 | everything starts empty and there is no start symbol |
| Yacc.YaccBuilder.LoadGrammar | compiler_project/generator/yacc_builder.py:38-91 | the grammar becomes what the file's rules denote; terminals gain every right-hand side terminal plus `$`; FIRST, FOLLOW and the table are untouched |
| Yacc.YaccBuilder.AddRuleText | compiler_project/generator/yacc_builder.py:62-83 | one rule: sets the start symbol if none, adds the nonterminal, appends the alternatives |
| Yacc.YaccBuilder.AddAlternatives | compiler_project/generator/yacc_builder.py:73-83 | the alternatives of the words are appended to the left-hand side's productions |
| Yacc.YaccBuilder.Append | compiler_project/generator/yacc_builder.py:76 | one production is appended; a new key goes to the end of the key order |
| Yacc.YaccBuilder.CollectTerminals | compiler_project/generator/yacc_builder.py:85-91 | terminals gain every right-hand side terminal plus `$` |
| Yacc.YaccBuilder.ComputeFirst | compiler_project/generator/yacc_builder.py:99-114 | FIRST is closed under every production, grew from the initial sets, holds FIRST(t) = {t} for terminals, and gained nothing but terminals and ε |
| Yacc.YaccBuilder.ComputeFollow | compiler_project/generator/yacc_builder.py:119-140 | `$` is in FOLLOW(start); FOLLOW only grows; the FOLLOW rules hold everywhere; no ε appears |
| Yacc.YaccBuilder.BuildTable | compiler_project/generator/yacc_builder.py:160-173 | the table becomes the last-writer table of the main pass, overwritten by the start symbol's FIRST entries |
| Tac.MintedName | compiler_project/src/runtime/ctx.py:22-31 | the `n`-th temporary (prefix `t`) or label (prefix `L`) is the prefix followed by the decimal digits of `n`, with no leading zero |
| Tac.TempNamesDistinct | compiler_project/src/runtime/ctx.py:22-25 | temporaries minted at different counts are different names, and conversely |
| Tac.LabelNamesDistinct | compiler_project/src/runtime/ctx.py:28-31 | labels minted at different counts are different names, and conversely |
| Tac.TempIsNotLabel | compiler_project/src/runtime/ctx.py:22-31 | no temporary is named like a label |
| Tac.NextTempIsFresh | compiler_project/src/runtime/ctx.py:22-25 | the next temporary differs from every earlier one |
| Tac.NextLabelIsFresh | compiler_project/src/runtime/ctx.py:28-31 | the next label differs from every earlier one |
| Tac.Opt | compiler_project/src/runtime/ctx.py:59-66 | an optional field contributes at most one word |
| Tac.RenderCode | compiler_project/src/runtime/ctx.py:51-78 | one string per quadruple, in order |
| Tac.RenderQuad | compiler_project/src/runtime/ctx.py:52-77 | when every present field is one word, splitting the rendered line on whitespace gives back exactly its fields |
| Tac.Fields | compiler_project/src/runtime/ctx.py:52-77 | with a result the line starts with the result and `=`; every other word is a present field |
| Tac.RenderBinary | compiler_project/src/runtime/ctx.py:54-67 | a full quadruple renders as `res = a1 op a2` |
| Tac.RenderIfFalse | compiler_project/src/runtime/ctx.py:54-67 | `IF_FALSE` renders as `L = cond IF_FALSE` |
| Tac.RenderResultOnly | compiler_project/src/runtime/ctx.py:54-67 | a quadruple with only an op and a result renders as `result = op`, as `LABEL` and `GOTO` do |
| Tac.RenderNoResult | compiler_project/src/runtime/ctx.py:68-77 | without a result the line is the op and the present operands |
| Tac.FieldsOf | compiler_project/src/runtime/ctx.py:52-77 | the parts list of one quadruple, beginning with `res` and `=` when there is a result |
| Tac.TACContext.constructor | compiler_project/src/runtime/ctx.py:10-19 | no code, both counters 0 |
| Tac.TACContext.NewTemp | compiler_project/src/runtime/ctx.py:22-25 | returns `t<count>`, a fresh name; the temporary count goes up by one; nothing else changes |
| Tac.TACContext.NewLabel | compiler_project/src/runtime/ctx.py:28-31 | returns `L<count>`, a fresh name; the label count goes up by one; nothing else changes |
| Tac.TACContext.Emit | compiler_project/src/runtime/ctx.py:34-41 | exactly one quadruple is appended; the counters are unchanged |
| Tac.TACContext.GetInstructions | compiler_project/src/runtime/ctx.py:44-78 | the rendering of the code, one line per quadruple, and the context is unchanged |
| Actions.V | compiler_project/generator/action_builder.py:24-27 | a node's `value` field; the text of anything else |
| Actions.Apply | compiler_project/generator/action_builder.py:55-74 | the identity returns its argument and state untouched; a pending operator that succeeds returns the last temporary it minted |
| Actions.Act | compiler_project/generator/action_builder.py:32-158 | only `if_stmt` and `while_stmt` mint labels, and an action that does not use the context leaves it exactly as it was |
| Actions.VOfString | compiler_project/generator/action_builder.py:24-27 | a temporary's name reads as itself |
| Actions.Field | compiler_project/generator/action_builder.py:43-45 | a value passed to `emit` is absent only for None |
| Actions.ValueAttr | compiler_project/generator/action_builder.py:43 | `.value` exists on tokens and nodes only |
| Actions.ApplyOnlyGrows | compiler_project/generator/action_builder.py:59-100 | calling a continuation only appends code; it appends one quadruple per temporary minted and mints no label |
| Actions.ActOnlyGrows | compiler_project/generator/action_builder.py:32-158 | no action removes code or lowers a counter |
| Actions.Chain | compiler_project/generator/action_builder.py:59-100 | a chain of tails is the identity exactly when it is empty |
| Actions.ChainIsLeftAssociative | compiler_project/generator/action_builder.py:51-100 | n operators emit exactly n quadruples, left-associatively, each on the previous temporary; they mint n temporaries and return the last one |
| Actions.ChainUnfold | compiler_project/generator/action_builder.py:61-64 | a pending operator mints a temporary, emits on it, then calls its tail on it |
| Actions.ChainCodeCons | compiler_project/generator/action_builder.py:61-64 | a chain's code is its first quadruple followed by the rest of the chain's code on the new temporary |
| Actions.AddThenSubCode | compiler_project/generator/action_builder.py:59-74 | `a + b - c` emits `(ADD, a, b, t0)` then `(SUB, t0, c, t1)` |
| Actions.EmptyTailIsIdentity | compiler_project/generator/action_builder.py:51-56 | the empty tails return the identity, and `expr`/`term` with it return the head unchanged and emit nothing |
| Actions.TailsAreDeferred | compiler_project/generator/action_builder.py:59-100 | an operator tail emits nothing when built; it returns a pending operation on its operand and tail |
| Actions.FactorsAndRelop | compiler_project/generator/action_builder.py:103-119 | `factor_id`/`factor_num` return the token's value, `factor_expr` the middle child, `relop` the token's type |
| Actions.AssignShape | compiler_project/generator/action_builder.py:42-46 | `assign` appends exactly `(ASSIGN, v(rhs), None, id)` and touches no counter |
| Actions.ConditionRelShape | compiler_project/generator/action_builder.py:124-128 | three children: one fresh temporary, one `(relop, v(l), v(r), t)`, returns t; any other number fails to unpack and changes nothing |
| Actions.ConditionOddShape | compiler_project/generator/action_builder.py:131-135 | one fresh temporary, one `(ODD, v(e), None, t)`, returns t |
| Actions.IfShape | compiler_project/generator/action_builder.py:140-144 | one fresh label and exactly one `IF_FALSE`; no `LABEL` is emitted |
| Actions.WhileShape | compiler_project/generator/action_builder.py:147-158 | two consecutive distinct labels, and exactly `LABEL Lb`, `IF_FALSE cond Le`, `GOTO Lb`, `LABEL Le` |
| Actions.ApplyCont | compiler_project/generator/action_builder.py:61-64 | calling a continuation on the live context does what `Apply` specifies |
| Actions.AssignAction | compiler_project/generator/action_builder.py:42-46 | on the live context, as specified by `Act` |
| Actions.ConditionRelAction | compiler_project/generator/action_builder.py:124-128 | on the live context, as specified by `Act` |
| Actions.ConditionOddAction | compiler_project/generator/action_builder.py:131-135 | on the live context, as specified by `Act` |
| Actions.IfStmtAction | compiler_project/generator/action_builder.py:140-144 | on the live context, as specified by `Act` |
| Actions.WhileStmtAction | compiler_project/generator/action_builder.py:147-158 | on the live context, as specified by `Act` |
| Actions.RunAction | compiler_project/generator/action_builder.py:163-194 | any registered action on the live context gives the result and state `Act` specifies |
| Parser.TokenTypes | compiler_project/generated_compiler/parser.py:11 | the token types in order, followed by the `$` sentinel |
| Parser.Step | compiler_project/generated_compiler/parser.py:17-62 | one iteration never moves the cursor back and advances it by at most one token; the context only grows |
| Parser.Run | compiler_project/generated_compiler/parser.py:10-64 | code emitted during a parse is never taken back, and the counters never go down |
| Parser.SliceSplit | compiler_project/generated_compiler/parser.py:27-28 | taking the children off and deleting them loses no value, for any slice bound |
| Parser.TakeChildren | compiler_project/generated_compiler/parser.py:26-30 | the values below and the children make up the old value stack; `['ε']` takes no children |
| Parser.NonEps | compiler_project/generated_compiler/parser.py:60-62 | the pushed symbols are symbols of the production and never `ε` |
| Parser.PushOrderPopsInOrder | compiler_project/generated_compiler/parser.py:60-62 | pushing in reverse pops the non-ε symbols in the production's own order |
| Parser.EndMarkerIsTerminal | compiler_project/generated_compiler/parser.py:21-37 | `$` takes the terminal branch |
| Parser.StepKeepsValid | compiler_project/generated_compiler/parser.py:11-62 | every step keeps `$` at the bottom of a non-empty stack and the cursor within `0..len(tokens)` |
| Parser.AcceptsExactly | compiler_project/generated_compiler/parser.py:21-22 | success happens exactly when a popped `$` meets `$`, and returns the top value or None |
| Parser.TerminalShifts | compiler_project/generated_compiler/parser.py:37-41 | a matching terminal pushes the token and advances the cursor by one |
| Parser.TerminalMismatchFails | compiler_project/generated_compiler/parser.py:43-47 | a mismatch fails with the token's line, the expected terminal and the found token; at the sentinel, reading the token fails |
| Parser.FailingActionStops | compiler_project/generated_compiler/parser.py:32-33 | an action that fails ends the step and the whole run with that failure and the context the action leaves; nothing further is pushed |
| Parser.MissingEntryFails | compiler_project/generated_compiler/parser.py:49-56 | a missing entry fails with the found token and exactly the lookaheads the nonterminal has entries for; at the sentinel, reading the token fails |
| Parser.ExpandPushesProduction | compiler_project/generated_compiler/parser.py:58-62 | an expansion pushes the reduce marker, then the non-ε symbols so that they pop in order; values, cursor and context stay |
| Parser.TakeChildrenShape | compiler_project/generated_compiler/parser.py:24-31 | the children are the last len(rhs) values when there are that many, and the whole stack for `[]` or a body longer than the stack |
| Parser.ReducePushesOne | compiler_project/generated_compiler/parser.py:24-35 | a reduction pops the marker and pushes onto the untouched values below the children exactly one value: the registered action's result on the children in order, with the context it leaves, or None with the context unchanged; the stack length changes by 1 - len(rhs) |
| Parser.RunOnce | compiler_project/generated_compiler/parser.py:17-62 | a run is one step followed by the rest of the run |
| Parser.Parse | compiler_project/generated_compiler/parser.py:10-64 | the loop's result and final context are those of the step function run from `['$', '<program>']` |
| Parser.ParseStep | compiler_project/generated_compiler/parser.py:18-62 | one loop iteration on the live stacks and context agrees with the step function |
| Parser.PushReversed | compiler_project/generated_compiler/parser.py:60-62 | the stack gains the production's non-ε symbols, last symbol first |
| Common.LineFromPosition | compiler_project/src/utils/common.py:160-173 | the line is 1 for a negative offset, and otherwise one more than the newlines before the offset |
| Common.ColumnFromPosition | compiler_project/src/utils/common.py:175-191 | the column is at least 1, and 1 for a negative offset |
| Common.LineStep | compiler_project/src/utils/common.py:173 | one more character moves the line by one exactly when it is a newline |
| Common.LinePastEnd | compiler_project/src/utils/common.py:173 | past the end, the line is one more than the text's newlines |
| Common.LineMonotone | compiler_project/src/utils/common.py:171-173 | the line never decreases as the offset grows |
| Common.ColumnAtStart | compiler_project/src/utils/common.py:189-190 | offset 0 is column 1 |
| Common.ColumnStep | compiler_project/src/utils/common.py:186-191 | the column is reset to 1 after a newline, and otherwise moves on by one |
| Common.ColumnPastEnd | compiler_project/src/utils/common.py:186-191 | past the end of the text the column keeps growing by one per offset from its value at the end |
| Common.ColumnCountsSinceNewline | compiler_project/src/utils/common.py:186-191 | the column is the distance from the last newline before the offset, with no newline in between |
| Common.CompilerError.ToString | compiler_project/src/utils/common.py:26-29 | with both line and column the text is `[`, the line's digits, `:`, the column's digits, `] ` and the message, located slice by slice; the message always ends the text; without both it is the message alone |
| Common.LocatedRenderingIsUnambiguous | compiler_project/src/utils/common.py:27-28 | two located errors with the same message render alike iff they name the same line and column |
| Common.NoSeparatorInNumber | compiler_project/src/utils/common.py:28 | a printed number holds no `:` or `]` |
| UtilToken.Equals | compiler_project/src/utils/token.py:18-30 | comparing with a non-Token is False; with a Token it is True iff type and value agree |
| UtilToken.ToString | compiler_project/src/utils/token.py:42-49 | `<type: value>`: `<`, the type, `: `, the value, `>`, and nothing else |
| UtilToken.EqualsIgnoresPosition | compiler_project/src/utils/token.py:30 | tokens that differ only in line and column are equal |
| UtilToken.EqualsIsEquivalence | compiler_project/src/utils/token.py:30 | equality is reflexive, symmetric and transitive |
| UtilToken.EqualTokensPrintAlike | compiler_project/src/utils/token.py:30-49 | equal tokens print the same |
| RuntimeToken.TokenStream.constructor | compiler_project/src/runtime/token.py:66-68 | the tokens are stored and the cursor is 0 |
| RuntimeToken.TokenStream.Peek | compiler_project/src/runtime/token.py:70-74 | the current token, or `Token(EOF, "", -1, -1)` past the end; nothing moves |
| RuntimeToken.TokenStream.Next | compiler_project/src/runtime/token.py:76-80 | what `peek` returned; the cursor moves by one, even past the end; the tokens are untouched |
| RuntimeToken.TokenStream.Expect | compiler_project/src/runtime/token.py:82-91 | a match returns the token and advances; a mismatch reports both types and the position, and the cursor stays |
| Ast.ASTNode.constructor | compiler_project/src/utils/ast.py:15-23 | the fields are stored; no children given means an empty list |
| Ast.ASTNode.AddChild | compiler_project/src/utils/ast.py:25-32 | the child goes at the end; the length grows by one and earlier children stay |
| Ast.ASTNode.GetChildren | compiler_project/src/utils/ast.py:34-41 | a list equal to the children; the node is untouched |
| Ast.Indent | compiler_project/src/utils/ast.py:64 | `2d` spaces |
| Ast.Render | compiler_project/src/utils/ast.py:54-71 | with single-line labels, `__str__` prints exactly one line per node of the subtree |
| Ast.RenderChildren | compiler_project/src/utils/ast.py:68-69 | the children's renderings hold one line per node between them |
| Ast.PrintTree | compiler_project/src/utils/ast.py:73-85 | `print_tree` also prints one line per node |
| Ast.PrintChildren | compiler_project/src/utils/ast.py:82-83 | the same for the children |
| Ast.PrintTreeWithoutTokens | compiler_project/src/utils/ast.py:54-85 | in a subtree without tokens, `print_tree` and `__str__` print the same text |
| Ast.PrintChildrenWithoutTokens | compiler_project/src/utils/ast.py:54-85 | the same for the children |
| Ast.Header | compiler_project/src/utils/ast.py:64-66 | a node's own line in `__str__` ends in a newline, its only one when the type and value hold none |
| Ast.PrintHeader | compiler_project/src/utils/ast.py:75-80 | a node's own line in `print_tree` ends in a newline, its only one when the type and value hold none; the line suffix adds none |

## Left out

- File access in `load_grammar`. The existence check and `FileNotFoundError` (`yacc_builder.py:39-43`) are left out; the model reads a list of lines that were already read.
- `generate_parser` and `run` of `YaccBuilder`. They only write code text and files.
- `ActionBuilder.build`. It pastes source text obtained through `inspect.getsource`.
- `TACContext.dump`/`save`, and the `save` call in the `program` action. These are console and file output; the `program` action is modelled without its `save`.
- The lexer (`lexer.py`, `lex_builder.py`). It is a list of Python regular expressions whose behaviour is that of the `re` library.
- The driver, CLI and test scripts, and the file and console helpers of `common.py`. All of it is I/O.
- `Node`. `action_builder.py:12` and `parser.py:158` import it from `src/runtime/token.py`, which defines no `Node`, so that import fails as written. The model takes the evidently intended node: a kind, the children it was given and an optional `value`.
- Python closures. They are a continuation datatype (`Actions.Cont`). Calling a value that is not callable gives the error `NotCallable`, which stands for Python's `TypeError`.
- `str()` of an object with an address-bearing representation. It is the fixed text `<object>`.
- Reads of a missing key. In Python they insert the key into the defaultdict (e.g. `self.first[sym]` inside `first_of_string`). Here such a read yields the empty set or list and adds no key. No result depends on the inserted empty entries.
- `compute_follow` and `build_table` with no start symbol. Python would touch the key `None`; the model skips the `$` insertion and the start-symbol pass.
- Whitespace for `strip()` and `split()`. It is the set of characters Python treats as whitespace, listed in `PyStr.IsSpace`.
- The expected-token list of the "no entry" error. It is the set of lookaheads, where Python sorts it into a list.
- Error messages. A `SyntaxError` is reduced to the fields its message reports; the Chinese message text is not reproduced.
- Parse: runs for a given number of loop iterations, because Dafny requires termination and an arbitrary table need not parse in bounded steps. A run that would take more ends in `OutOfFuel`.
- Parser.ParseStep: when the iteration does not end the parse, its `r` out-parameter is a placeholder with no meaning.
- Ast.ASTNode.constructor: stores a copy of the given child list. Python keeps the caller's list object (`ast.py:21`), so a list passed to two nodes, or kept by the caller, is shared with the node; that aliasing is not modelled.
- Ast.ASTNode.AddChild: appends to the node's own sequence. In Python it appends in place to that possibly shared list (`ast.py:32`), so every other holder of the list sees the new child too; the model does not capture this.
- `ASTNode` printing. It works on a value snapshot of the tree (`Ast.Tree`), so sharing and cycles among nodes are not modelled. An AST node value is an optional string, while Python also allows numbers.
- Yacc.YaccBuilder.AddRuleText: it reads the continuation lines before it records the start symbol and nonterminal, while the source records them first. The two steps touch different state, so the result is the same.
- Yacc.YaccBuilder.ComputeFirst: states closure, growth and bounds, but not that the result is the least fixpoint. The source promises only the loop.
- Yacc.YaccBuilder.ComputeFollow: the same as `ComputeFirst` (no least-fixpoint statement).
