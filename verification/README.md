# A verified model of an SNTP client and server and of the configuration library they read

The repository holds an SNTP client (`sntpclient.c`), an SNTP server (`sntpserver.c`) and a copy of
libconfig 1.5, through which both read their settings. This project models the two and proves what
they are for:

* **libconfig.** A configuration is written by recursive procedures and read by a flex scanner with
  an include stack and a Bison parser with compressed tables, whose semantic actions build a mutable
  tree. Proved: the tables encode an LR automaton that decides exactly the grammar; the actions
  compute the meaning of the derivation and never dereference a null pointer; the parser's stack
  depends on nesting only; the scanner with its include stack refines recursive expansion and
  terminates on cyclic includes; streams and buffers are returned exactly once on every run; and
  reading a written configuration succeeds exactly under a condition that can be checked before
  writing, and gives the tree back. The tree keeps its invariant under every sequence of operations,
  path lookup inverts path construction, and a deep copy equals its source.
* **SNTP** (RFC 4330). The packets, the timestamp conversions, the client's retry and repeat loops
  against a network that loses, delays, repeats and reorders, and the server's reply. Proved: the
  reply that ends a query answers the request sent last, requests keep their pause over whole runs,
  and the printed interval contains the true offset of the clocks exactly from two microseconds of
  error bound on.

## How it is built

Code that changes state is imperative: `Config`, `ParseContext`, `ScanContext`, `Scanner`, `StrBuf`,
`ChildList`, `Client`, `Server`, `Clock` and `Network` are classes with the fields of the C
structures; `Parsers.Yyparse` is the table-driven loop over two arrays; the writer's procedures
append to a stream. Each method is tied to a function of the old state, and the theorems are about
those functions.

| part | modules, in the order in which they build on each other |
|---|---|
| grammar and tables | `Tokens`, `Grammar`, `LrAutomaton`, `LrDriver`, `LrComplete`, `LrTables` |
| tree and meaning | `Settings`, `Trees`, `Actions`, `Meaning`, `Evaluation`, `ParseTheorem`, `StackHeight`, `Assignments` |
| scanning | `Lexemes`, `Numerals`, `Matching`, `Patterns`, `FlexPatterns`, `Lexing`, `Lexicon`, `Comments`, `HexReader`, `Words` |
| writing and reading back | `WriterSpec`, `WrittenTexts`, `Rescan`, `RescanString`, `TreeTokens`, `Unparse`, `UnparseYield`, `UnparseMeaning`, `UnparseHeight`, `RoundTrip` |
| the running scanner | `StringBuffers`, `Resources`, `ScanContexts`, `Scanners`, `Lines`, `Includes` |
| the running library | `TreeInvariant`, `Operations`, `TreeEffects`, `Configs`, `ChildLists`, `Lookups`, `StrictLookups`, `Copying`, `Writer` |
| the running parser | `ParseContexts`, `NullSafety`, `ParserMoves`, `Parsers`, `Reader` |
| SNTP | `NtpTimes`, `Calendar`, `Packets`, `Wire`, `Accuracy`, `Environment`, `Clients`, `Servers` |

Proofs about the parser, the scanner and the server take the automaton, the rules and the service as
parameters with stated properties, which `LrTables.LibconfigSuits`, `Patterns.FlexIsFlex` and
`Environment.ServerExists` prove of the tables, of the 42 rules and of `create_reply_packet`.

## Where the code is not as expected

* A setting named `true` or `false`, in any casing, can be added and written but the text cannot be
  read (`RoundTrip.ReservedNameIsLost`). `RoundTrip.WrittenConfigurationReadsBack` gives the exact
  condition under which a written tree is read back.
* The text does not show everything: a boolean other than 0 and 1, a null string, a format on a
  setting that is not an integer, and a default format. `RoundTrip.FaithfulIffUnchanged` says exactly
  which trees come back unchanged.
* `config_setting_add` does not check the type of an array's elements (`Operations.AddMixesArrays` is an
  example). `Operations.ApplyKeepsArraysIff` gives the exact condition on the call.
* `config_setting_lookup` does not ask for a number in a bracket: `[x]` and `[.` lead to element 0, like the
  empty index at the end of `a.[`, which leads to `a` itself when that has no elements; an index beyond
  `int` is truncated, so that `[4294967296]` leads to element 0 too
  (`StrictLookups.StrayPathsAreAnswered`, `StrictLookups.NoNumberFinds`).
  `StrictLookups.FindIsStrictIff`: where every bracket holds an index a step that names no setting gives
  NULL; on the other paths it says where the lookup goes. What stands between the number and the next
  separator is ignored, as in `[0x]`.
* A comment that begins with `#` or `//` needs a line end behind it: on a last line without one the first
  character is a garbage token (`Comments.LastLineIsNoComment`) and the text cannot be read.
* `fromhex` wraps around where `strtoull` saturates (`HexReader.AgreesWithStrtoull`); they differ on 2^64
  (`HexReader.SixteenZerosDiffer`).
* The interval that the client prints can miss the true offset when its error bound is below two
  microseconds (`Accuracy.ReliableIffTwoMicros`); the cause is the added microsecond in the
  conversion of timestamps (`NtpTimes.UnixRoundTrip`).
* A reply to an earlier request is trusted when that request was made a multiple of 2^32 seconds before
  the last one (`Clients.TrustedIff`; `Clients.StaleReplyIsTrusted` is such a log).
  `Clients.TickingClock` and `Clients.TwoRecentRequests` show that the conditions of the freshness result
  can be met.

## Model

| member | source | states |
|---|---|---|
| LrTables.TableActionIsTrans | libconfig-1.5/lib/grammar.c:1265-1292 | For every state and every terminal, the lookup in the compressed tables (`yypact`, `yytable`, `yycheck`, `yydefact`) shifts, reduces or fails exactly as the uncompressed transition function of the automaton says |
| LrTables.TableGotoIsTrans | libconfig-1.5/lib/grammar.c:1660-1665 | The lookup in `yypgoto`/`yydefgoto` after a reduction goes to the state that the automaton reaches on the nonterminal |
| LrTables.NoErrorToken | libconfig-1.5/lib/grammar.c:1769-1779 | No state has a move on the error token, so error recovery never finds one |
| LrTables.RuleLength | libconfig-1.5/lib/grammar.c:648-655 | `yyr2` is the length of the right-hand side of every rule of the grammar |
| LrTables.LibconfigSuits | libconfig-1.5/lib/grammar.c:491-655 | The automaton in the tables is an LR automaton for the grammar: items move forward and backward along transitions, completed items reduce on everything that may follow, and no sequence of reductions without reading is endless |
| Grammar.FollowClosed | libconfig-1.5/lib/grammar.c:639-655 | The follow sets are closed under the rules: what may follow a symbol inside a rule is in its follow set |
| Grammar.FirstOf | libconfig-1.5/lib/grammar.c:639-655 | The first token of what a derivation yields is in the first set of its symbol, and only nullable symbols yield nothing |
| LrAutomaton.ItemOnStack | libconfig-1.5/lib/grammar.c:1318-1335 | When the top state has an item with the dot after d symbols, the d topmost stack entries are those symbols and the state below starts the rule: a reduction always finds its handle |
| LrDriver.RunIsSound | libconfig-1.5/lib/grammar.c:1241-1669 | Whatever the machine accepts was derived: the accepted tree is a derivation of the consumed and unread tokens, and the semantic state is the result of evaluating that tree |
| LrComplete.ConsumeTree | libconfig-1.5/lib/grammar.c:1241-1669 | The machine follows every derivation: from a state with the right transition it reads what the tree yields and ends with the tree on the stack and its actions done, and does not accept when the stack limit is reached on the way |
| LrComplete.ParseOfDerivation | libconfig-1.5/lib/grammar.c:1241-1669 | On a sentence of the grammar the outcome is determined by its derivation: accepted with that tree and the result of its actions if they succeed and the stack holds, not accepted otherwise |
| LrComplete.ParseDecides | libconfig-1.5/lib/grammar.c:1241-1669 | For any actions and any stack limit above 3, a token sequence is accepted if and only if it has a derivation whose actions succeed and whose stack height stays under the limit |
| LrComplete.Unambiguous | libconfig-1.5/lib/grammar.c:639-655 | No token sequence has two derivations: the grammar is unambiguous |
| Evaluation.EvalString | libconfig-1.5/lib/grammar.c:1412-1423 | Adjacent string literals are collected into one string, in order |
| Evaluation.SetValueInVector | libconfig-1.5/lib/grammar.c:1424-1601 | Inside an array or list a value is appended as a new element, or the parse aborts exactly when an array has elements of another type |
| Evaluation.SetValueOfSetting | libconfig-1.5/lib/grammar.c:1424-1601 | After a name, the value fills the setting that waits for it and changes nothing else |
| Evaluation.NewSettingRefuses | libconfig-1.5/lib/grammar.c:1340-1353 | A name is refused exactly when it would repeat the name of a member of the same group |
| Evaluation.EvalSimples | libconfig-1.5/lib/grammar.c:1424-1601 | The elements of an array are appended in order, and the parse aborts exactly when they do not have one type |
| Evaluation.EvalValue | libconfig-1.5/lib/grammar.c:1358-1628 | Evaluating the derivation of a value delivers exactly the value that the derivation denotes, or aborts exactly when that value repeats a name in a group or mixes types in an array, at any depth |
| Evaluation.EvalSettings | libconfig-1.5/lib/grammar.c:1340-1628 | Evaluating a setting list appends exactly the denoted settings to the group, in order, or aborts exactly when a name is repeated or one of the values is illegal |
| ParseTheorem.EvalConfiguration | libconfig-1.5/lib/grammar.c:1340-1628 | The semantic actions compute the meaning of the whole derivation: the tree under the root is the recursive denotation and `ctx->parent` is the root again; they abort if and only if the denotation is illegal |
| ParseTheorem.YyParseMeaning | libconfig-1.5/lib/grammar.c:1094-1792 | Parsing succeeds if and only if the tokens have a derivation with no repeated name, no mixed array and a stack height under 10000; the tree is then the denotation of the derivation |
| ParseTheorem.YyParseOfDerivation | libconfig-1.5/lib/grammar.c:1094-1792 | Any such derivation determines the outcome: the parse accepts and builds the tree that this derivation denotes |
| ParseTheorem.ParsedTreeIsComplete | libconfig-1.5/lib/grammar.c:1340-1628 | No setting of a parsed tree is left with type none, at any depth: members have names, elements have none, arrays hold scalars |
| StackHeight.ConfigurationPeak | libconfig-1.5/lib/grammar.c:1167-1234 | The stack never needs more than six entries per level of nesting, whatever the number of settings and elements |
| StackHeight.ShallowInputIsAccepted | libconfig-1.5/lib/grammar.c:829-839 | A legal input nested at most 1666 deep, the root counted, is never refused for lack of stack |
| RoundTrip.DeeperTreesAreLost | libconfig-1.5/lib/grammar.c:829-839 | That bound is exact: for every depth there is a plain tree of that depth that is written and read back if and only if the depth is at most 1666 |
| StackHeight.SettingsPeak | libconfig-1.5/lib/grammar.c:640-655 | A setting list needs six entries per level of the deepest member and six more, however long it is |
| Assignments.AssignmentIsRead | libconfig-1.5/lib/grammar.c:1384-1601 | A name, a sign, a value and possibly a semicolon or a comma are read as one setting of that name: for each kind of number and truth value with its format, and for any number of strings side by side as their concatenation |
| Assignments.StringsAreJoined | libconfig-1.5/lib/grammar.c:1412-1423 | The derivation of strings side by side denotes their concatenation in the order of the tokens |
| Parsers.Grow | libconfig-1.5/lib/grammar.c:1194-1221 | Growing the stacks keeps every entry and never exceeds the limit of 10000 |
| Parsers.LookUp | libconfig-1.5/lib/grammar.c:1280-1292 | The part of `yybackup` with a lookahead computes the table action |
| Parsers.Decide | libconfig-1.5/lib/grammar.c:1246-1293 | `yybackup` leaves the scanner alone in a state with a default reduction and when a token is at hand, and decides as the tables say for the next unread token |
| Parsers.Recover | libconfig-1.5/lib/grammar.c:1763-1792 | After a syntax error every state is popped and the parse aborts: no error token is ever shifted |
| Parsers.Reduce | libconfig-1.5/lib/grammar.c:1318-1669 | A reduction takes the handle off both stacks, runs the action on the value on top and pushes the goto state; it follows the machine exactly and brings the next shift nearer |
| Parsers.Replace | libconfig-1.5/lib/grammar.c:1649-1669 | Popping the handle and pushing the goto state leaves the arrays holding the shorter stack |
| Parsers.SetState | libconfig-1.5/lib/grammar.c:1161-1239 | The stack grows when the pushed state is at its end; the verdict is 2 exactly when the limit is reached, and 0 exactly when the final state was pushed below it |
| Parsers.Loop | libconfig-1.5/lib/grammar.c:1139-1792 | The loop terminates on every input with the result of the machine: 0, 1 or 2 |
| Parsers.Yyparse | libconfig-1.5/lib/grammar.c:1094-1792 | `libconfig_yyparse` on what the scanner delivers returns what the token-level theorem decides, and on success leaves the context of the accepted parse with no included file open |
| ParserMoves.ShiftMove | libconfig-1.5/lib/grammar.c:1294-1307 | A shift that the tables ask for keeps the stacks well linked and does not change what the machine will answer |
| ParserMoves.ReduceMove | libconfig-1.5/lib/grammar.c:1318-1669 | So does a reduction; its action dereferences no null pointer, and it aborts only if the machine aborts |
| ParserMoves.ErrorMove | libconfig-1.5/lib/grammar.c:1672-1792 | Where the tables have no move, the machine aborts |
| ParserMoves.FinalMove | libconfig-1.5/lib/grammar.c:1238-1239 | The end of the input leads only to the final state, with a tree on the stack |
| NullSafety.ReductionIsSafe | libconfig-1.5/lib/grammar.c:1340-1628 | In every reachable configuration the action of the rule to be reduced dereferences only settings that exist: `ctx->setting` is an untyped setting where a value goes to a member, and `ctx->parent` is a live aggregate |
| NullSafety.ShiftAgrees | libconfig-1.5/lib/grammar.c:1294-1307 | Shifting keeps the agreement between the brackets on the state stack and the chain of parents |
| NullSafety.ReduceAgrees | libconfig-1.5/lib/grammar.c:1340-1628 | Reducing keeps it too, for every rule and action |
| ParseContexts.ParseContext.NewSetting | libconfig-1.5/lib/grammar.c:1340-1353 | Rule 11 adds the member to the current group, or fails exactly when the name is taken |
| ParseContexts.ParseContext.Open | libconfig-1.5/lib/grammar.c:1358-1373 | Rules 13, 15 and 38: a list gets a new unnamed aggregate, otherwise the waiting setting becomes the aggregate; either way it is the new parent |
| ParseContexts.ParseContext.Close | libconfig-1.5/lib/grammar.c:1376-1383 | Rules 14, 16 and 39 go back to the parent of the parent |
| ParseContexts.ParseContext.SetValue | libconfig-1.5/lib/grammar.c:1424-1601 | Rules 23 to 29 append the value to the vector or store it in the waiting setting, with its format |
| ParseContexts.ParseContext.Act | libconfig-1.5/lib/grammar.c:1337-1634 | Every rule changes the context and the tree as its action does, on a well-formed tree, and keeps it well formed |
| Matching.Best | libconfig-1.5/lib/scanner.c:911-935 | The rule that is taken matches the longest prefix that any rule matches, and is the first of those that match it |
| Matching.BestIs | libconfig-1.5/lib/scanner.c:911-935 | That rule and length are unique |
| Scanners.MatchLoop | libconfig-1.5/lib/scanner.c:911-935 | The match loop finds exactly that rule and length |
| Patterns.FlexIsFlex | libconfig-1.5/lib/scanner.c:961-1225 | The 42 rules with their patterns and actions satisfy all that the proofs about scanning assume: in every start condition some rule matches a single character, and each rule acts as listed; what the patterns match is the theorem `FlexPatterns.MatchesAreLanguages` |
| FlexPatterns.MatchesAreLanguages | libconfig-1.5/lib/scanner.l:87-180 | For every start condition, position and text, each of the 42 predicates holds exactly of the language of its regular expression, with the expressions transcribed as syntax trees and their languages defined by recursion on the syntax |
| Comments.LineCommentIsSkipped | libconfig-1.5/lib/scanner.c:1191-1198 | For every text w without a line end and every rest, `#` or `//`, then w, a line end and the rest have the tokens and files of the line end and the rest, at any position on a line |
| Comments.CommentIsSkipped | libconfig-1.5/lib/scanner.c:961-985 | For every text w without `*/` and every rest, `/*`, w, `*/` and the rest have the tokens and files of the rest |
| Comments.CommentAfterLines | libconfig-1.5/lib/scanner.c:1191-1198 | The same behind any whole lines that end outside strings, comments and directives |
| Comments.LastLineIsNoComment | libconfig-1.5/lib/scanner.l:96 | On a last line without a line end `#` begins no comment: it is one garbage token, and the text behind it is scanned |
| Lexicon.ScanInteger | libconfig-1.5/lib/scanner.l:90 | Digits after an optional sign are one integer token: the decimal number, with its sign, as `atoi` delivers it for any number of digits |
| Lexicon.ScanInteger64 | libconfig-1.5/lib/scanner.l:91 | With one or two letters L they are a 64-bit token, the number saturated to 64 bits |
| Lexicon.ScanHex | libconfig-1.5/lib/scanner.l:92 | `0x` or `0X` and hexadecimal digits in either case are one token, the number saturated to 64 bits and truncated to `int` |
| Lexicon.ScanHex64 | libconfig-1.5/lib/scanner.l:93 | With one or two letters L they are a 64-bit token |
| Lexicon.ScanPoint | libconfig-1.5/lib/scanner.l:95 | A sign, digits, a point, digits and an exponent, each but the point optional, are one float token with that text |
| Lexicon.ScanExponent | libconfig-1.5/lib/scanner.l:95 | So are a sign, digits and an exponent |
| Lexicon.ScanBoolean | libconfig-1.5/lib/scanner.l:87-88 | The words true and false in any casing are 1 and 0 |
| Lexicon.ScanName | libconfig-1.5/lib/scanner.l:89 | Any other valid name is a name token with that text |
| Lexicon.ScanSigns | libconfig-1.5/lib/scanner.l:159-178 | Each punctuation character is its token: both `=` and `:` assign |
| Lexicon.ScanSpace | libconfig-1.5/lib/scanner.l:156-157 | Line ends, carriage returns, form feeds, blanks and tabs are no tokens |
| Lexicon.ScanStrange | libconfig-1.5/lib/scanner.l:180 | A character that begins nothing is a garbage token |
| Lexicon.ScanString | libconfig-1.5/lib/scanner.l:108-126 | A literal of plain characters, escapes, two-digit codes and stray backslashes, in any order and number, is one string token of what they stand for |
| Numerals.NumberOfDigits | libconfig-1.5/lib/libconfig.c:187-214 | The digits of a number in base 10 or 16 read back as that number |
| Numerals.WrapsModulo | libconfig-1.5/lib/scanner.l:170 | Truncation to 32 or 64 bits gives the signed number with the same remainder |
| Numerals.NumberByPlaces | libconfig-1.5/lib/scanner.l:90-93 | The values of the numerals 7, 407, 1f and Ab0, and 0 for no digit |
| Numerals.ClampIsNearest | libconfig-1.5/lib/scanner.l:168 | Saturation gives the nearest 64-bit number |
| Numerals.IntRoundTrip | libconfig-1.5/lib/libconfig.c:196-198 | Every 32-bit integer, written with `%d`, is matched by the integer pattern and `atoi` reads it back |
| Numerals.Int64RoundTrip | libconfig-1.5/lib/libconfig.c:209-212 | Every 64-bit integer, written with a trailing `L`, is matched by the 64-bit pattern and `atoll` reads it back |
| Numerals.HexRoundTrip | libconfig-1.5/lib/libconfig.c:190-192 | Every 32-bit integer, also a negative one, written as `0x%X` reads back through `strtoul` and the truncation to `int` |
| Numerals.Hex64RoundTrip | libconfig-1.5/lib/libconfig.c:205-207 | Every 64-bit integer written in hexadecimal with a trailing `L` reads back |
| HexReader.FromHex | libconfig-1.5/lib/scanner.c:589-612 | The accumulator loop gives 0 without the prefix, and otherwise the number of the hexadecimal digits, taken modulo 2^64 |
| HexReader.AgreesWithStrtoull | libconfig-1.5/lib/scanner.c:589-620 | The loop and `strtoull` agree exactly when the number fits 64 bits or its low 64 bits are all ones |
| HexReader.SixteenZerosDiffer | libconfig-1.5/lib/scanner.c:589-620 | On `0x1` followed by sixteen zeros the loop gives 0 and `strtoull` the largest value |
| Rescan.BestWord | libconfig-1.5/lib/scanner.c:1123-1165 | A word that some rule matches, followed by a delimiter, is taken whole by the first rule that matches it |
| Rescan.ScanBlanks | libconfig-1.5/lib/scanner.c:1092-1102 | White space yields no token, wherever it stands |
| Rescan.NameIsWord | libconfig-1.5/lib/scanner.c:1123-1137 | A valid name is scanned as a name, except that any casing of true or false is scanned as a boolean |
| Rescan.IntIsWord | libconfig-1.5/lib/scanner.c:1143-1147 | A written integer is scanned by the integer rule, not as a name, a float or a longer numeral |
| Rescan.Int64IsWord | libconfig-1.5/lib/scanner.c:1148-1152 | A written 64-bit integer is scanned by the 64-bit rule |
| Rescan.HexIsWord | libconfig-1.5/lib/scanner.c:1153-1160 | A written hexadecimal is scanned by the hexadecimal rule |
| Rescan.Hex64IsWord | libconfig-1.5/lib/scanner.c:1161-1165 | A written 64-bit hexadecimal is scanned by its rule |
| RescanString.ScanEscapedChar | libconfig-1.5/lib/libconfig.c:259-292 | Whatever the writer prints for a character of a string, the string rules append exactly this character to the buffer |
| RescanString.ScanEscaped | libconfig-1.5/lib/scanner.c:987-1045 | The escaped form of a string, up to the closing quote, adds exactly this string to what the buffer holds |
| RescanString.ScanLiteral | libconfig-1.5/lib/libconfig.c:251-296 | For every string without NUL, the literal that the writer prints is scanned to one string token with exactly this string |
| StringBuffers.StrLen | libconfig-1.5/lib/strbuf.c:44 | The length of a C string is the position of its first NUL |
| StringBuffers.StrBuf.Append | libconfig-1.5/lib/strbuf.c:41-55 | The buffer holds the concatenation of what was appended; its capacity is a multiple of 64 above the length and grows exactly when the text does not fit |
| StringBuffers.StrBuf.Take | libconfig-1.5/lib/strbuf.c:32-37 | Releasing gives the collected text and leaves the buffer empty |
| StringBuffers.StrCpy | libconfig-1.5/lib/strbuf.c:53 | The copy writes the characters and the NUL inside the block and leaves what is before alone |
| Writer.WriteIndent | libconfig-1.5/lib/libconfig.c:159-169 | Indenting prints (depth-1) tabs, or the padded blank of the given width |
| Writer.WriteEscaped | libconfig-1.5/lib/libconfig.c:257-293 | The loop over a string prints its escaped form |
| Writer.WriteScalar | libconfig-1.5/lib/libconfig.c:179-296 | A scalar is printed in its format |
| Writer.WriteElems | libconfig-1.5/lib/libconfig.c:301-321 | The elements are printed in order, with a comma after all but the last |
| Writer.WriteMembers | libconfig-1.5/lib/libconfig.c:374-381 | The members are printed in order, one level deeper |
| Writer.WriteValue | libconfig-1.5/lib/libconfig.c:173-397 | `__config_write_value` prints the text of the value that the tree below the setting represents |
| Writer.WriteSetting | libconfig-1.5/lib/libconfig.c:636-668 | `__config_write_setting` prints the text of the setting, for every option and tab width |
| Writer.ConfigWrite | libconfig-1.5/lib/libconfig.c:672-679 | `config_write` prints the text of the whole tree |
| WrittenTexts.IndentIs | libconfig-1.5/lib/libconfig.c:159-169 | A setting is indented by one tab for each level, or by the tab width in blanks |
| WrittenTexts.DigitsAreShortest | libconfig-1.5/lib/libconfig.c:187-214 | Numerals have no leading zeros, and the letters A to F in capitals |
| WrittenTexts.NumeralIs | libconfig-1.5/lib/libconfig.c:187-214 | An integer is written in decimal with a minus if it is negative, or as `0x` and its value modulo 2^32 or 2^64 in hexadecimal when its format or else the default format is 1; 64-bit integers have an L |
| WrittenTexts.TruthIs | libconfig-1.5/lib/libconfig.c:182-184 | A truth value is written as false when it is 0 and as true otherwise |
| WrittenTexts.EscapeIs | libconfig-1.5/lib/libconfig.c:259-292 | How each character of a string is written: two-character escapes for quote, backslash, line end, return, form feed and tab, `\x` and two digits below blank, and itself otherwise |
| WrittenTexts.EscapeAppends | libconfig-1.5/lib/libconfig.c:257-293 | The characters of a string are written one after the other |
| WrittenTexts.EscapeStops | libconfig-1.5/lib/libconfig.c:257-293 | A string ends at its first NUL |
| WrittenTexts.SequenceIs | libconfig-1.5/lib/libconfig.c:298-354 | An array is `[ ]` or its elements joined by a comma and a blank between `[ ` and ` ]`; a list the same with parentheses |
| WrittenTexts.SettingIs | libconfig-1.5/lib/libconfig.c:636-668 | A member is its indentation, its name, a colon or an equals sign as the option for groups or for other types asks, its value, and a line end after a semicolon if that option is on |
| WrittenTexts.GroupIs | libconfig-1.5/lib/libconfig.c:357-389 | A group is its members one level deeper between braces, the opening one on a line of its own if that option is on, the closing one indented |
| WrittenTexts.RootIs | libconfig-1.5/lib/libconfig.c:672-679 | The root group is its members alone |
| TreeTokens.ScanConfigText | libconfig-1.5/lib/libconfig.c:636-668 | Scanning the written text of any printable tree, in any style, gives exactly the tokens of the tree and ends in the initial condition |
| TreeTokens.ScansValue | libconfig-1.5/lib/libconfig.c:173-397 | The text of any value, followed by a delimiter, is scanned to the tokens of that value |
| Unparse.ConfigurationDerives | libconfig-1.5/lib/grammar.c:639-655 | The tokens of a printable tree have a derivation in the grammar, built by recursion on the tree |
| UnparseYield.ConfigurationYield | libconfig-1.5/lib/grammar.c:639-655 | This derivation yields the tokens of the tree when no member is named like a truth value |
| UnparseMeaning.ConfigurationMeaning | libconfig-1.5/lib/grammar.c:1340-1628 | This derivation denotes the tree, up to what its text cannot tell apart |
| UnparseHeight.ConfigurationPeak | libconfig-1.5/lib/grammar.c:1167-1234 | The exact stack height that reading a written tree needs, by recursion on the tree |
| RoundTrip.DerivationIsNamed | libconfig-1.5/lib/grammar.c:639-655 | In every sentence of the grammar an equals sign follows a name |
| RoundTrip.ReservedIsMisnamed | libconfig-1.5/lib/scanner.c:1123-1132 | A written tree with a member named like a truth value has an equals sign after a boolean |
| RoundTrip.WrittenConfigurationReadsBack | libconfig-1.5/lib/libconfig.c:173-397 | For every printable tree, every option and every tab width, writing, scanning and parsing succeeds if and only if no member is named true or false in any casing and the needed stack is below 10000; the tree that is read is the written one with booleans as 0 or 1, null strings empty and formats as printed |
| RoundTrip.FaithfulIffUnchanged | libconfig-1.5/lib/libconfig.c:173-397 | Reading back changes nothing if and only if booleans are 0 or 1, strings are not null and formats are those that the text shows |
| RoundTrip.DefaultStyleIsFaithful | libconfig-1.5/lib/libconfig.c:1181-1185 | With default format 0 that condition is: booleans 0 or 1, strings not null, formats 0 or 1 on integers and 0 elsewhere |
| RoundTrip.ShallowTreesReadBack | libconfig-1.5/lib/libconfig.c:636-668 | A faithful printable tree without reserved names, nested at most 1666 deep, the root counted, is read back unchanged |
| RoundTrip.ReservedNameIsLost | libconfig-1.5/lib/scanner.c:1123-1127 | A concrete tree that the library accepts and writes but cannot read: one setting named True |
| Reader.WriteAndRead | libconfig-1.5/lib/libconfig.c:556-679 | The program-level round trip: `config_write` to a string and `config_read_string` into another configuration succeed under exactly that condition and rebuild the tree |
| Scanners.PendingInclude | libconfig-1.5/lib/scanner.c:1067-1090 | Entering a file makes what remains the expansion of the file, followed by the rest of the text that included it, with the file entered first |
| Scanners.PendingEnd | libconfig-1.5/lib/scanner.c:1204-1219 | At the end of an included file what remains is that of the text resumed, in the start condition the file ended in |
| Scanners.ProgressIsBelow | libconfig-1.5/lib/scanner.c:1046-1090 | Every step that yields no token makes the eleven remainders, outermost first, lexicographically smaller |
| Scanners.Scanner.Include | libconfig-1.5/lib/scanctx.c:94-136 | The closing quote of a directive saves the current text and enters the file, or reports an error exactly when ten files are open or the file cannot be opened |
| Scanners.Scanner.EndOfText | libconfig-1.5/lib/scanner.c:1204-1219 | At the end of a text the one below is resumed, or the scanner stops when there is none |
| Scanners.Scanner.Act | libconfig-1.5/lib/scanner.c:961-1225 | Each rule consumes its match, changes the string buffer and the start condition, and hands over the token, so that the remaining tokens are those of the recursive expansion |
| Scanners.Scanner.Yylex | libconfig-1.5/lib/scanner.c:897-1225 | On every file map, also with cyclic includes, the scanner returns: the next token of the recursive expansion of all texts, or the end when no token, no file to be entered and no open file is left; the files entered so far and those to come are always all files of the expansion |
| Scanners.Scanner.Finish | libconfig-1.5/lib/libconfig.c:599-612 | After the parse, failed or not, the include stack is unwound to depth 0: the log of the run goes on to where all streams and buffers are given back, and the streams it opened are those of the files the expansion enters, in order, or of the first of them when the parse failed |
| Includes.DirectiveExpands | libconfig-1.5/lib/scanner.c:1046-1090 | At the start of a line an include directive, with any blanks around the key word and any name without NUL, quotes and backslashes escaped, is scanned to the tokens of the file or to one error token, and scanning goes on behind it |
| Includes.DirectiveSplices | libconfig-1.5/lib/scanner.c:1046-1090 | For every text of whole lines that ends outside comments, strings and directives, followed by a directive whose file ends so too and by any rest: the tokens are those of the text before, those of the file, and those of the rest, and so are the files entered |
| Lines.ScanLinesThenRest | libconfig-1.5/lib/scanner.c:897-1225 | Scanning whole lines that end outside comments, strings and directives and then the rest gives the scan of both together |
| Lines.BestBeforeLineEnd | libconfig-1.5/lib/scanner.c:911-935 | The match at the front of a text that ends in a line end does not depend on what follows, unless it is a run to the end of the text inside a string or a directive |
| Includes.SelfIncludeFails | libconfig-1.5/lib/scanctx.c:103-107 | A file that holds nothing but a directive for itself delivers the error token alone, whatever the depth it starts at, after the file has been entered until ten including files are open |
| Includes.FailedDirectiveFailsTheParse | libconfig-1.5/lib/scanner.c:1087 | No token sequence with the error token is accepted |
| ScanContexts.ScanContext.AddFileName | libconfig-1.5/lib/scanctx.c:40-65 | A file name is kept once |
| ScanContexts.ScanContext.TakeString | libconfig-1.5/lib/scanctx.c:156-161 | Taking the string gives all that was collected and empties the buffer |
| ScanContexts.ScanContext.PushInclude | libconfig-1.5/lib/scanctx.c:94-136 | With ten files open nothing is done; otherwise the file, in the include directory if there is one, is opened, logged under its path and the buffer saved, or the stack and the log are unchanged and the error says why |
| ScanContexts.ScanContext.PopInclude | libconfig-1.5/lib/scanctx.c:140-152 | The innermost saved buffer comes back and its stream is closed |
| ScanContexts.ScanContext.Resume | libconfig-1.5/lib/scanner.c:1208-1219 | Resuming deletes the finished buffer and switches to the saved one |
| ScanContexts.ScanContext.Unwind | libconfig-1.5/lib/libconfig.c:607-608 | One round of unwinding closes one stream and deletes the saved buffer |
| ScanContexts.ScanContext.Cleanup | libconfig-1.5/lib/scanctx.c:78-90 | With an empty stack the cleanup adds the deletion of the last buffer to the log; nothing stays open |
| Resources.EveryLogBalances | libconfig-1.5/lib/scanctx.c:94-152 | In every permitted log, streams opened, closed and open balance, and so do buffers created, deleted, discarded and live |
| Resources.ReturnedExactlyOnce | libconfig-1.5/lib/libconfig.c:597-613 | When all is returned, each stream was closed exactly as often as opened and at most once, each buffer deleted exactly once, each saved buffer resumed or discarded exactly once |
| Reader.ConfigRead | libconfig-1.5/lib/libconfig.c:556-618 | Reading a string succeeds if and only if its expanded tokens have an accepted derivation, the tree is then what the derivation denotes; accepted or not, the tree is well formed and the log, which starts with the first buffer, gives everything back; on success it opens exactly the files of the expansion, in order |
| Reader.ReadsBack | libconfig-1.5/lib/libconfig.c:556-618 | What reading a written tree gives, and when it succeeds |
| Configs.ValidateName | libconfig-1.5/lib/libconfig.c:535-552 | The loop accepts exactly the names of letters, digits, stars, underscores and dashes that start with a letter or a star |
| Configs.NameCompare | libconfig-1.5/lib/libconfig.c:133-155 | Two names compare equal exactly when they agree up to the first path token or the end |
| Settings.SegmentOfName | libconfig-1.5/lib/libconfig.c:133-155 | For valid names this is plain equality |
| Configs.Config.ListSearch | libconfig-1.5/lib/libconfig.c:416-441 | The search finds the first child with the name |
| Settings.SearchFrom | libconfig-1.5/lib/libconfig.c:416-441 | The child found has the name and no earlier child has; nothing is found only if no child has |
| Configs.Config.CreateSetting | libconfig-1.5/lib/libconfig.c:802-829 | The new setting is appended to the children of its parent and linked to it; a parent that is no aggregate is refused and nothing changes |
| Configs.Config.Add | libconfig-1.5/lib/libconfig.c:1571-1593 | A setting is added exactly to an aggregate, and to a group only under a valid name that no member has; it is then new, with a zero value, the last child, and everything else is as before; the tree stays well formed |
| Configs.Config.Destroy | libconfig-1.5/lib/libconfig.c:464-508 | Destroying a setting frees exactly the settings of its subtree, each once |
| Configs.Config.Remove | libconfig-1.5/lib/libconfig.c:1597-1615 | A group loses exactly the one member of that name, whose subtree is freed; the others keep their order and nothing else changes; without such a member nothing changes |
| Configs.Config.RemoveElem | libconfig-1.5/lib/libconfig.c:1619-1641 | An aggregate with a child at the index loses exactly that child, whose subtree is freed: the children are then those before it and those after it, and nothing else changes; otherwise nothing changes |
| Configs.Config.Set | libconfig-1.5/lib/libconfig.c:1024-1163 | A setter succeeds exactly on a setting of the type of the value, on one without a type, and for 64-bit integers on an `int`, which becomes 0 if the value does not fit; it changes that record alone and not its format |
| Configs.Config.SetElem | libconfig-1.5/lib/libconfig.c:1306-1501 | With a negative index an element is appended, exactly if the vector is a list, empty, or starts with an element of the type; otherwise exactly the element at the index is set, if there is one and it takes the value |
| Configs.Config.SetFormat | libconfig-1.5/lib/libconfig.c:1167-1177 | Only integers take a format, and only 0 or 1; the result says whether it was taken |
| Configs.Config.Index | libconfig-1.5/lib/libconfig.c:1645-1663 | The index of a setting is its place among the children of its parent |
| Configs.Config.constructor | libconfig-1.5/lib/libconfig.c:755-764 | A new configuration is a root group without name, children and parent |
| TreeEffects.RemovedTakesOut | libconfig-1.5/lib/libconfig.c:445-508 | Taking out the child at position k leaves the children before it and those after it, frees exactly the records below it, and changes no other |
| TreeEffects.NameIsGone | libconfig-1.5/lib/libconfig.c:1597-1615 | After the member is gone no child of the group has its name |
| TreeEffects.AddWhenItMay | libconfig-1.5/lib/libconfig.c:1571-1593 | When adding succeeds, and what the new setting is |
| TreeEffects.MemberIsNamed | libconfig-1.5/lib/libconfig.c:1523-1530 | The member for a valid name is the child with that name, and there is none only if no child has it |
| TreeEffects.SetWhenItTakes | libconfig-1.5/lib/libconfig.c:1024-1163 | When a setter succeeds, and what it leaves |
| TreeEffects.SetElemEffect | libconfig-1.5/lib/libconfig.c:1306-1501 | When an element setter succeeds, and which element it sets or appends |
| TreeEffects.NameCharacters | libconfig-1.5/lib/libconfig.c:535-552 | The characters of a name, by their codes |
| TreeInvariant.CreateKeeps | libconfig-1.5/lib/libconfig.c:802-829 | Creating a child keeps the tree well formed: valid distinct names under groups, none under lists and arrays, parents that own their children |
| TreeInvariant.UpdateKeeps | libconfig-1.5/lib/libconfig.c:1024-1163 | Changing the value of a setting keeps it well formed |
| TreeInvariant.RemoveKeeps | libconfig-1.5/lib/libconfig.c:1597-1641 | Taking out a child and freeing its subtree keeps it well formed: nothing reachable was freed |
| Operations.AddKeeps | libconfig-1.5/lib/libconfig.c:1571-1593 | So does adding, whatever the name |
| Operations.EverySequenceKeepsTheTree | libconfig-1.5/lib/libconfig.c:802-1641 | Every sequence of adds, removes, value and element sets, formats and parser steps keeps the tree well formed |
| Operations.EverySequenceKeepsArrays | libconfig-1.5/lib/libconfig.c:512-531 | Over every sequence of operations the arrays are homogeneous all the time if and only if each `config_setting_add` on an array uses a scalar type, that of the first element if there is one; element sets, removals and parser steps need no condition |
| Operations.ApplyKeepsArraysIff | libconfig-1.5/lib/libconfig.c:1571-1593 | One operation on a tree with homogeneous arrays keeps them so if and only if it is not an add to an array of a type that is no scalar type or not that of its first element |
| Operations.AppendElemKeepsArrays | libconfig-1.5/lib/libconfig.c:1306-1501 | Appending an element keeps an array homogeneous |
| Trees.AbsFrame | libconfig-1.5/lib/libconfig.c:802-829 | The tree below a setting depends only on the settings made at or after it |
| Trees.CreateThenFill | libconfig-1.5/lib/libconfig.c:802-829 | Creating a child and filling it appends exactly one tree to the parent and changes no other child |
| ChildLists.ChildList.Add | libconfig-1.5/lib/libconfig.c:401-412 | Adding appends; the block is replaced by one that is 16 larger than the length exactly when the length is a multiple of 16, otherwise it stays, and it always has room |
| ChildLists.ChildList.Remove | libconfig-1.5/lib/libconfig.c:445-460 | Removing closes the gap and keeps the order; the block stays |
| ChildLists.ChildList.Realloc | libconfig-1.5/lib/libconfig.c:405-407 | Reallocating keeps all that is stored, although the new block may be smaller than the old |
| ChildLists.OneMoreFits | libconfig-1.5/lib/libconfig.c:403-408 | The length rounded up to 16 grows only where the code reallocates |
| Lookups.Lookup | libconfig-1.5/lib/libconfig.c:1189-1218 | The loop finds what the recursive reading of the path finds |
| Lookups.LookupInvertsPath | libconfig-1.5/lib/libconfig.c:1189-1218 | For every setting of a well-formed tree, looking up the path made of its ancestors' names and indices, with any separator, gives exactly this setting |
| Lookups.PathsDiffer | libconfig-1.5/lib/libconfig.c:1189-1218 | Different settings have different paths |
| Lookups.NameFinds | libconfig-1.5/lib/libconfig.c:1523-1530 | A name at the front of a path finds exactly the member with this name |
| Lookups.IndexFinds | libconfig-1.5/lib/libconfig.c:1505-1519 | An index in brackets finds exactly the child at this place |
| StrictLookups.FindIsStrictIff | libconfig-1.5/lib/libconfig.c:1189-1218 | For every path: where each bracket holds an index the lookup gives what a strict lookup gives, which answers NULL at every step that names no setting. Otherwise the strict lookup gives NULL, and the lookup goes on from where the part before the first bracket without an index leads, with the element that `atoi` makes of the bracket; it differs exactly when that leads to a setting |
| StrictLookups.StrayBeginsStep | libconfig-1.5/lib/libconfig.c:1196-1201 | The first bracket whose text does not hold an index begins a step of the path |
| StrictLookups.FindInParts | libconfig-1.5/lib/libconfig.c:1189-1218 | A path that is split where a step begins is looked up in two parts, the second from where the first leads |
| StrictLookups.NoNumberFinds | libconfig-1.5/lib/libconfig.c:1203-1217 | A bracket without a number leads to the first element of the setting before it, or, at the end of the path, to that setting itself when it has none |
| StrictLookups.StrayPathsAreAnswered | libconfig-1.5/lib/libconfig.c:1203-1204 | The paths `[`, `[x]`, `[.` and `[4294967296]` name no setting and lead to the one element of an array |
| StrictLookups.MissingMember | libconfig-1.5/lib/libconfig.c:1189-1218 | A path that begins with the name of no member leads nowhere, whatever follows |
| StrictLookups.MissingElement | libconfig-1.5/lib/libconfig.c:1189-1218 | A path that begins with an index that is too large, or at a setting that is no aggregate, leads nowhere, whatever follows |
| Copying.Copy | libconfig-1.5/contrib/copy_setting.c:84-100 | Copying from the same or another configuration to a group or list appends one child whose tree equals the source (unnamed in a list) and leaves all else as it was; any other target is refused unchanged |
| Copying.CopyAggregate | libconfig-1.5/contrib/copy_setting.c:63-82 | The new aggregate has the type of the source and, after the loop, equal children in order |
| Copying.CopySimple | libconfig-1.5/contrib/copy_setting.c:7-36 | The copy of a member has the name, type, value and format of its source |
| Copying.CopyElem | libconfig-1.5/contrib/copy_setting.c:38-61 | The copy of an element has the type, value and format of its source and no name |
| Copying.NextCanBeCopied | libconfig-1.5/contrib/copy_setting.c:63-82 | While elements are copied, from the same configuration or another one, the next element of the source is still what it was at the start and can be copied, and the copy holds the elements before it in order |
| NtpTimes.Divides | reusedlib.c:16 | The fraction of a microsecond count is an integer exactly when 15625 divides the count |
| NtpTimes.UnixRoundTrip | reusedlib.c:7-17 | For every 32-bit second and every microsecond up to 999998 the seconds come back exactly, also across the wrap of 2036, and the microsecond grows by one exactly when 15625 divides its successor |
| NtpTimes.StrictlyLater | reusedlib.c:13-17 | Within one era the conversion keeps the strict order of times in both directions |
| NtpTimes.SameStamp | reusedlib.c:13-17 | Two times have the same timestamp if and only if they are whole eras of 2^32 seconds apart, with equal microseconds |
| NtpTimes.ToNtp | reusedlib.c:13-17 | Both words fit 32 bits and the fraction is never zero; what they mean is said in `Calendar` |
| Calendar.NtpSeconds | reusedlib.c:13-15 | The seconds are those since the first of January 1900 by the calendar, leap days counted, modulo 2^32 |
| Calendar.UnixSeconds | reusedlib.c:7-9 | The seconds that are recovered count from 1970, so that those from 1900 to 1970 by the calendar make up the difference |
| Calendar.Midnight | reusedlib.c:15 | Midnight d days after the first of January 1970 is that many days and those from 1900 to 1970 after the epoch of NTP |
| Calendar.NewYear | reusedlib.c:15 | The new year of every year from 1970 on is, modulo 2^32, the days since 1900 times 86400 |
| Calendar.EraEnds | reusedlib.c:15 | The seconds wrap 37 days into 2036 |
| Calendar.NtpFraction | reusedlib.c:16 | The fraction is the part of the second up to the next microsecond, rounded down |
| Calendar.UnixMicroseconds | reusedlib.c:10 | The microseconds are the fraction of a million, rounded down |
| Packets.SwapTwice | sntpclient.c:246-247 | Converting to network byte order and back gives the word |
| Wire.SwapIsNetworkOrder | sntpclient.c:246-247 | In the memory of the machine, the converted word is the word with its most significant byte first |
| Wire.RequestOnTheWire | sntpclient.c:237-248 | The 48 bytes of a request: 0x23, 39 zeros, and the seconds since 1900 and the fraction in network byte order |
| Wire.ReplyOnTheWire | sntpserver.c:58-88 | The 48 bytes of a reply: version and mode 4, stratum 2, the poll of the request, precision -5, 20 zeros, the transmit timestamp of the request byte by byte, and the times of arrival and sending in network byte order |
| Packets.HeaderBits | sntpserver.c:65-97 | Version and mode are the middle three and the last three bits of the first byte, whatever the leap indicator |
| Packets.CheckedHeader | sntpserver.c:91-109 | A packet passes the check of the server exactly when its first byte is made of any leap indicator, a version from 1 to 4 and mode 3 |
| Packets.TrustedIffFields | sntpclient.c:569-620 | A packet passes the checks of the client exactly when it returns the transmit timestamp of the request, has a transmit timestamp itself, a stratum up to 15, mode 4 and the version of the request |
| Packets.TransmitIsNotZero | sntpserver.c:83-86 | The transmit timestamp is never zero, also when the seconds wrap to 0 |
| Packets.RequestPasses | sntpclient.c:237-248 | Every request of the client passes the check of the server |
| Packets.ReplyPassesIff | sntpclient.c:569-620 | A reply of the server passes the checks of the client if and only if it answers a request with the same transmit timestamp and version |
| Packets.ExchangeSucceeds | sntpserver.c:58-109 | Client and server agree at all clock readings |
| Packets.SameTransmit | sntpclient.c:245-247 | Two requests have the same transmit timestamp if and only if they were made whole eras apart, at the same microsecond of a second |
| Accuracy.MeasuredIs | sntpclient.c:373-390 | The timestamps that the client recovers are the original ones, each at most one microsecond late |
| Accuracy.OffsetIs | sntpclient.c:200-221 | Offset and error bound in terms of the two path delays and the rounding of the timestamps |
| Accuracy.OffsetIsAccurate | sntpclient.c:189-221 | For every exchange with delays that are not negative, the offset is within half the error bound and one microsecond of the true lead of the server |
| Accuracy.ReportIsAccurate | sntpclient.c:189-221 | So it is for every lead consistent with the four readings at once |
| Accuracy.LargeBoundsContain | sntpclient.c:189-221 | The printed interval contains the true lead whenever the error bound is at least two microseconds |
| Accuracy.ReliableIffTwoMicros | sntpclient.c:189-221 | Two microseconds is exact: for each smaller bound there is an exchange whose interval misses the true lead |
| Accuracy.BoundIsAtLeast | sntpclient.c:212-221 | The error bound is never below minus two microseconds |
| Environment.Clock.GetTimeOfDay | sntpclient.c:626-631 | Each reading of the clock is at least the one before |
| Environment.Network.Receive | sntptools.c:17-34 | A received reply answers some request sent before, the one that the network chooses for this call; the network may lose, delay, repeat and reorder |
| Clients.TimersApart | sntpclient.c:132-140 | The timers of consecutive requests are more than the pause apart |
| Clients.MadeEarlier | sntpclient.c:132-146 | With a pause that is not negative, later requests are made in later seconds |
| Clients.TrustedReplyIsFresh | sntpclient.c:178-186 | With a pause that is not negative and less than 2^32 seconds between the first and the last request, only a reply to the request sent last passes the checks, also across the wrap of 2036 |
| Clients.TrustedIff | sntpclient.c:569-587 | Of the replies to all requests sent so far one passes the checks if and only if no time but whole eras, possibly none, lies between its request and the last one |
| Clients.StaleReplyIsTrusted | sntpclient.c:569-587 | With a clock that ticks once a second and any pause below 2^32 - 1 seconds there is a log of two requests whose second one accepts the reply to the first |
| Clients.Client.ElapsedTime | sntpclient.c:365-370 | The elapsed time is in whole seconds from the start of the timer |
| Clients.Client.Ask | sntpclient.c:142-156 | A request is made, the timer started and the packet sent; the pause from the request before is kept |
| Clients.Client.Judge | sntpclient.c:178-186 | A reply is trusted exactly when it was made for a request with the transmit timestamp of the last one: always when it answers the last request, and only then when the pause is not negative and the requests made so far span less than 2^32 seconds |
| Clients.Client.AwaitReply | sntpclient.c:158-186 | The wait succeeds exactly when the first packet from the server is a reply to a request with the transmit timestamp of the last one; the reply is that packet, with an arrival time read from the clock after the timer was started |
| Clients.Client.Attempt | sntpclient.c:142-186 | One attempt: a request that cannot be sent ends it, and otherwise the first packet from the server or an error; it succeeds exactly on a trusted reply |
| Clients.Client.Listen | sntpclient.c:158-176 | Packets from other senders are skipped; the reply and its arrival time are those of the last packet that came, or there is an error |
| Clients.Client.RetryLoop | sntpclient.c:119-187 | The retry loop ends on every network after at most `max_unicast_retries` attempts. It returns 4 exactly when it has made that many and none ended on a reply made for a request with its transmit timestamp, and 0 exactly when the last attempt did and no earlier one |
| Clients.Client.AttemptsMade | sntpclient.c:126-130 | With no retries allowed a query returns 4 at once; otherwise it makes from one to that many attempts and gives up only after all of them |
| Clients.Client.UnicastMode | sntpclient.c:92-197 | A query returns 4 or 0 in the same cases as the retry loop; on 0 the offset and error bound are computed from the reply that came last, and in a run of less than 2^32 seconds the offset is within half the bound and one microsecond of every lead of the server that is consistent with the exchange |
| Clients.Client.Query | sntpclient.c:43-68 | One query of the repeat loop, with the pause before it, keeps all requests disciplined; it makes at least one request, if any is allowed, and at most `max_unicast_retries` |
| Clients.Client.Pause | sntpclient.c:57 | The wait before a query ends with the first reading of the clock after the pause |
| Clients.Client.Repeat | sntpclient.c:50-68 | Over all queries of the repeat loop any two consecutive requests are more than the pause apart, and there are at least as many requests as queries and at most `max_unicast_retries` times as many |
| Servers.Server.Round | sntpserver.c:27-50 | The server replies exactly to packets whose first byte is any leap indicator, a version from 1 to 4 and mode 3; the first byte of the reply has that version and mode 4, and the times are those of arrival and of sending |
| Servers.OneExchange | sntpserver.c:27-50 | Client and server run together: the reply to a request made by the client passes its checks |

## Left out

- Floating-point values: a float is the text that was read, trees with floats are outside the round trip,
  and automatic conversion between numbers is off.
- The settings of type none that only the API can leave behind: the writer prints `???` for them, the
  round trip and the copy exclude them.
- The compressed automaton and the buffer refilling of flex: the scanner takes the longest match among
  its rules, the first rule on a tie; the patterns are predicates on the matched text.
- Line numbers, file names in error messages and error texts; `CAPTURE_PARSE_POS`.
- Memory: `malloc` does not fail. Settings are records in a store that grows, a pointer is an index
  and freed settings are marked; the value union is one typed field.
- Configs.Config.CreateSetting: the children of a setting are a sequence in its record; that the block of
  pointers under it is always large enough is proved for the class `ChildLists.ChildList`.
- ParseContexts.ParseContext.SetValue: the string that the parser collects is a value here; the buffer under
  it is the class `StringBuffers.StrBuf`, which the scanner uses.
- ScanContexts.ScanContext.AddFileName: the list of file names is a sequence, without its reallocation.
- Reading from a stream and from a named file, and clearing a configuration that was read before: a
  configuration is read from a string into a fresh tree. Files are a map from names to contents.
- The value of an empty rule, which Bison leaves undefined, is a token that no action reads.
- Copying.Copy: the source has no setting without a type and its arrays have one scalar type.
- Lookups.LookupInvertsPath: lists have fewer than 2^31 elements, so that `atoi` can read every index.
- Numerals.HexRoundTrip: `printf`, `atoi`, `atoll`, `strtoul` and `strtoull` are functions that describe
  what the C library does with 32-bit `int` and 64-bit `long`.
- NtpTimes.UnixRoundTrip: clock readings with 999999 microseconds, for which the fraction is 2^32 and
  does not fit its word.
- Accuracy.OffsetIsAccurate: offset and error bound are exact rationals, without the rounding of
  doubles.
- Environment.Clock.GetTimeOfDay: the clock never runs backwards and does not stand still for ever.
- Clients.TrustedReplyIsFresh: runs with a negative pause or of 2^32 seconds and more, where it is false.
- Environment.Network.Receive: packets from other senders do not keep arriving for ever, or the loop
  that skips them would not end; every reply from the address of the server was made by it.
- Clients.Client.UnicastMode: sockets, name lookup, the filter on the sender's address and printing;
  whether a send succeeds and what arrives are parameters of the network.
- Clients.Client.Repeat: the averages over the queries, whose sums start without a value.
- Manycast discovery, command line and settings of the two programs, hooks, the scalar getters, the
  locale, and the bindings for other languages: only easy members.
