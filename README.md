# LASIL front end in Dafny

This project models the front end of the LASIL expression language:
- the scanner (`DecafScanning::Lexer`);
- the recursive-descent parser with precedence climbing (`DecafParsing::Parser`);
- the syntax tree (`AST.hpp`);
- the diagnostics line table of the logger (`setFile` and the line search and caret column of the positional `logMessage`).

Both the scanner and the parser are classes with a cursor. Their methods are
proved against functions that say what a whole scan or sub-parse returns.
Lemmas then state properties of those functions:
- the shape of every token and where its position points;
- left-folding of equal precedences and right-nesting of tighter ones, for chains of any length;
- the end-of-input rules;
- the layout of the line table.

Files and modules:

| file | module | models |
|---|---|---|
| `wrappers.dfy` | `Wrappers` | `Option`, `Result` |
| `tokens.dfy` | `Tokens` | `TokenType` and `Token` of `src/Lexer.hpp` |
| `logger.dfy` | `Logging` | `Line`, `setFile` and the positional `logMessage` of `src/Logger.cpp` |
| `lexer.dfy` | `Scanning` | `Lexer` of `src/Lexer.cpp`: one scanning step as a function, the scan as a function, and the class with its loops |
| `lexer_facts.dfy` | `ScanningFacts` | what every scan guarantees, and worked inputs |
| `ast.dfy` | `Ast` | the tree of `src/AST.hpp`, without `codegen` |
| `grammar.dfy` | `Grammar` | each sub-parser of `src/Parser.cpp` as a function of the tokens and the cursor |
| `parser.dfy` | `Parsing` | the `Parser` class, each method proved equal to its `Grammar` function |
| `parser_facts.dfy` | `ParsingFacts` | precedence, grouping, calls, conditionals, loops, prototypes, definitions |
| `operator_chains.dfy` | `OperatorChains` | the grouping of any chain of numbers and binary operators, against a characterisation that does not mention the algorithm |
| `front_end.dfy` | `FrontEnd` | scanner and parser together on one input |

How the source's behaviour is represented:

- **Exceptions become values.** One of these escapes `tokenize` or a sub-parser in the source:
  - a `peek().value()` on an empty optional;
  - an `out_of_range` from the logger's line search;
  - the `runtime_error` every ERROR message throws.

  The scanner returns `Failure(LexError(cause, cursor))`. A sub-parser returns
  `Built(node)`, `Null` (the source's `nullptr`) or `Raised(error)`, together
  with the cursor it leaves behind.
- **The logger.** Its static state is a `Logger` object. The scanner reads its line table when it logs.
- **Where the cursor is left.** A scan that fails does not reset the cursor: it stays where the exception left it. `TokenizeTwice` shows what a second call then returns.
- **Helper methods.** Some source functions are split into helper methods, each with its own loop or branch and its own function:
  - `tokenize` into `LexWord`, `LexNumber`, `LexRelation` and `SkipComment`;
  - `identifierExpr` into `IdentifierExpr` and `ParseArguments`;
  - the head `kw ( cond ) {`, written out twice in the source, into one `ParseHead` with `ParseCondition`, shared by `conditionalExpr` and `whileExpr`;
  - `conditionalExpr` into `ConditionalExpr`, `ConditionalThen` and `ConditionalElse`;
  - `whileExpr` into `WhileExpr` and `WhileBody`;
  - the body of the loop of `tokenize` into `ScanStep`;
  - the body of the loop of `parseBinaryExpr` into `ParseOperand`.

  `Expect` and `ExpectLast` are the repeated "consume this kind or return null" steps.
- **Termination.** The parser's mutual recursion terminates on the pair (tokens left, syntactic rank).
- **Text-carrying tokens.** The parser dereferences the text of every identifier and number token. It requires `Payloads`: every such token has its text. `TokenizeFacts` proves that every token list the scanner returns satisfies it.

Consequences of the code that are easy to miss:

- **Unrecognised characters.** The branch at src/Lexer.cpp:158-161 logs an ERROR message, and every ERROR message throws. So tokenising stops there with no token list (`UnrecognizedFails`).
- **Reserved words.** The comment at src/Lexer.cpp:53 says they draw a warning, and a WARNING message returns normally. But the warning looks up the word's position in the logger's line table, and throws `out_of_range` when no line holds it. This happens when no file has been set (`ReservedWithoutFileFails`). Once the scanned text is the logger's file, the warning never throws (`ReservedWarnsInFile`).
- **Token positions** are not source offsets for every kind:
  - a keyword records the offset of the first character of its word, with the word's length;
  - a bracket, `=` and `<` record the offset just past the character;
  - `==` and `<=` record the offset just past their second character;
  - identifiers, numbers, `>`, `>=`, `+ - * / , ;` record 0.

  `Anchored` states this for every token.
- **A missing `else`** is not a reported parse error. It yields a null result (`IfWithoutElse`). When the `}` of the then-branch is the last token, it raises on an empty `peek` instead (`IfWithoutElseAtEnd`).
- **Argument errors.** An argument that does not parse throws from the logger, so it escapes the parser instead of being confined to one top-level item (`EmptyCallFails`).

## Model

| member | source | states |
|---|---|---|
| Logging.Contains | src/Logger.cpp:87 | a line holds a position in its inclusive range [start, end], so the caret column position - start is at most end - start |
| Logging.LinesFrom | src/Logger.cpp:21-30 | the lines the `getline` loop records from an offset with a next line number; none exactly when nothing is left to read (the table facts are stated by `LinesFromTable`) |
| Logging.LinesOf | src/Logger.cpp:17-30 | the line table `setFile` builds, empty exactly for the empty file |
| Logging.LineEnd | src/Logger.cpp:25 | the line `getline` reads from offset i ends at the first '\n' at or after i, or at the end of the text, and holds no '\n' |
| Logging.LinesFromLines | src/Logger.cpp:21-30 | every recorded line's content is exactly the text between its start and end offsets, end = start + length, the content holds no '\n' and line k has number num + k |
| Logging.LinesFromChain | src/Logger.cpp:26-28 | the table is empty exactly when nothing is left to read; the first line starts at the read offset, each next line one past the previous end, and the last reaches the end of the text |
| Logging.LinesFromTable | src/Logger.cpp:21-30 | the two facts above together, for a table built from any offset and line number |
| Logging.LinesOfTable | src/Logger.cpp:17-30 | the table of a file starts at offset 0 with number 1, and is empty exactly for the empty file |
| Logging.TableOrdered | src/Logger.cpp:26-28 | any later line starts after any earlier line ends, so line ranges never overlap |
| Logging.LinesFromCover | src/Logger.cpp:21-30 | every offset of the text lies in the range of some line |
| Logging.FindFrom | src/Logger.cpp:86-92 | the search returns the first line at or after k whose inclusive range holds the position, or none when no such line exists |
| Logging.FindLine | src/Logger.cpp:86-92 | the index of the first line whose range holds the position, and none exactly when no line holds it |
| Logging.LogAt | src/Logger.cpp:83-121 | the outcome of the positional `logMessage`: it returns only for a message other than ERROR about a position some line holds, showing a caret exactly for a warning; the out-of-range exception carries the position, when no line holds it |
| Logging.LogAtOutcome | src/Logger.cpp:94-119 | an ERROR always throws; any other message throws exactly when no line holds the position; a warning that returns shows the caret of the first line holding it, at column position - start |
| Logging.CaretInFile | src/Logger.cpp:86-105 | over a file's own table, the line found for an offset is the unique line holding it; the caret column is at most the line's length, points at that offset's character, and equals the length exactly at a '\n' |
| Logging.WarningInFileReturns | src/Logger.cpp:110-119 | over a file's own table, a warning about any offset of the file returns without throwing |
| Logging.Logger.constructor | src/Logger.cpp:14-15 | the logger starts with no text and an empty line table |
| Logging.Logger.SetFile | src/Logger.cpp:17-31 | the logger keeps the given text, and its table is the file's line table, built afresh |
| Logging.Logger.LogMessage | src/Logger.cpp:83-121 | the linear search with its found flag returns exactly the outcome `LogAt` defines |
| Logging.Logger.LogMessageAt | src/Logger.cpp:43-81 | the token overload behaves as the positional one at the token's position |
| Scanning.IsSpace | src/Lexer.cpp:153-156 | the six characters of `std::isspace` in the "C" locale; none of them is part of a word or a number or starts a comment |
| Scanning.Keyword | src/Lexer.cpp:25-52 | the five keyword spellings and their kinds; no reserved word is a keyword, so a keyword never draws the warning |
| Scanning.Bracket | src/Lexer.cpp:78-97 | the six bracket characters and their kinds; none of them belongs to a word, a number, a relation, a comment or white space |
| Scanning.Simple | src/Lexer.cpp:126-145 | the six one-character operators and separators and their kinds; no other branch of the loop claims any of them |
| Scanning.WordEnd | src/Lexer.cpp:21-23 | the word loop stops at the end of the maximal run of letters, digits and underscores |
| Scanning.DigitEnd | src/Lexer.cpp:69-71 | the number loop stops at the end of the maximal run of digits |
| Scanning.CommentEnd | src/Lexer.cpp:148-152 | a comment runs up to, and not including, the first '\n' or '\r' |
| Scanning.StepAt | src/Lexer.cpp:15-161 | an iteration that does not stop consumes at least one character and stays within the source |
| Scanning.ScanFrom | src/Lexer.cpp:14-162 | the `tokenize` loop from a cursor: a successful scan yields at most one token per character left (the token facts are stated by `ScanFacts`) |
| Scanning.Tokenize | src/Lexer.cpp:10-166 | `tokenize` with a fresh lexer: a successful result has no more tokens than the source has characters |
| Scanning.Lexer.constructor | src/Lexer.cpp:7 | a fresh lexer holds the source with its cursor at 0 |
| Scanning.Lexer.Peek | src/Lexer.cpp:169-175 | a character comes back exactly when cursor + offset is within the source, and it is the character there |
| Scanning.Lexer.Consume | src/Lexer.cpp:178-180 | returns the character under the cursor and advances the cursor by one |
| Scanning.Lexer.LexWord | src/Lexer.cpp:17-62 | reads the maximal word and emits the token or failure that one scanning step defines, a reserved word's warning included |
| Scanning.Lexer.LexNumber | src/Lexer.cpp:65-76 | reads the maximal digit run and emits the number token one scanning step defines |
| Scanning.Lexer.LexRelation | src/Lexer.cpp:100-124 | reads `=`, `<` or `>` and its lookahead, producing the token one scanning step defines, or the failure when the lookahead is past the end |
| Scanning.Lexer.SkipComment | src/Lexer.cpp:148-152 | skips exactly the comment that one scanning step skips |
| Scanning.Lexer.ScanStep | src/Lexer.cpp:16-161 | one pass of the loop body does exactly the scanning step the character under the cursor selects (emit, skip, or stop with its failure), leaving the cursor where the scan goes on or where the exception left it |
| Scanning.Lexer.Tokenize | src/Lexer.cpp:10-166 | the loop returns what the scan from the current cursor defines; on success the cursor is reset to 0, on failure it stays where the scan stopped |
| ScanningFacts.WordStepFacts | src/Lexer.cpp:17-62 | a word step reads the maximal word and resumes after it; a keyword becomes the token of its kind at the word's first character with the word's length, any other word an identifier carrying exactly that word; a step that stops does so on a reserved word, past it |
| ScanningFacts.DigitStepFacts | src/Lexer.cpp:65-76 | a digit always emits a number token carrying exactly the maximal run of digits, and the scan resumes after it |
| ScanningFacts.StepFacts | src/Lexer.cpp:15-161 | every emitted token is well formed and anchored, and a step that stops leaves the cursor within the source |
| ScanningFacts.ScanFacts | src/Lexer.cpp:15-162 | a scan from i yields at most as many tokens as characters left, all well formed and anchored; a failed scan stops inside the source |
| ScanningFacts.TokenizeFacts | src/Lexer.cpp:15-165 | a token list from `tokenize` has text on exactly its identifiers and numbers, never holds the unused kinds, is no longer than the source, and points back into it |
| ScanningFacts.ReservedWarnsInFile | src/Lexer.cpp:53-55 | once the logger's file is the scanned text, a reserved word never makes the scan fail |
| ScanningFacts.NumberThenWord | src/Lexer.cpp:65-75 | `12ab` is the number `12` then the identifier `ab` |
| ScanningFacts.CommentSkipped | src/Lexer.cpp:148-156 | a comment and the line break after it produce no tokens |
| ScanningFacts.KeywordAndOperatorPositions | src/Lexer.cpp:41-112 | `if a<=b` gives `if` at 0 with length 2, two identifiers, and `<=` with position 6 and length 2 |
| ScanningFacts.TrailingEqualFails | src/Lexer.cpp:100-107 | a `=` at the end of the source fails on the empty lookahead |
| ScanningFacts.UnrecognizedFails | src/Lexer.cpp:159-161 | an unrecognised character stops the scan: out of range without a file, a runtime error with the caret otherwise |
| ScanningFacts.ReservedWithoutFileFails | src/Lexer.cpp:53-55 | a reserved word scanned before any file is set makes the warning throw |
| ScanningFacts.TokenizeTwice | src/Lexer.cpp:164 | a second `tokenize` on the same lexer repeats a successful first one, and resumes a failed one where it stopped |
| Grammar.PrecedenceInTable | src/Parser.cpp:23-28 | the precedence `Precedence` gives a kind is its entry in the constructor's table, and -1 for a kind the table does not hold |
| Grammar.AtEndWraps | src/Parser.cpp:19-21 | `AtEnd` is the source's unsigned test `size() - 1 <= index`, including the wrap-around of `size() - 1` on an empty list, for every cursor below the largest 64-bit value |
| Grammar.PastStep | src/Parser.cpp:46-49 | the guarded `if (!isAtEnd()) consume();` (`Past`) stays put exactly on the last token, otherwise moves one token on, and from a token never leaves the list |
| Grammar.NumberAt | src/Parser.cpp:42-54 | a number node is built exactly when the current token is a number |
| Grammar.GroupingAt | src/Parser.cpp:56-74 | the cursor only moves forward, and a result that did not raise leaves it on a token |
| Grammar.IdentifierAt | src/Parser.cpp:76-122 | a built result is a variable named by the token, or a call to that name with at least one argument; the name is consumed unless it is the last token |
| Grammar.ArgsFrom | src/Parser.cpp:93-118 | a built result is a call to the callee whose arguments extend the ones already parsed by at least one |
| Grammar.HeadAt | src/Parser.cpp:124-145 | the cursor only moves forward; a built result is the condition with the cursor after `{` and within the input; a null result leaves the cursor on a token |
| Grammar.ConditionAt | src/Parser.cpp:133-145 | the same, from the condition |
| Grammar.IfAt | src/Parser.cpp:124-179 | the cursor only moves forward, and a result that did not raise leaves it on a token |
| Grammar.IfThenAt | src/Parser.cpp:146-162 | the same, from the then-branch |
| Grammar.IfElseAt | src/Parser.cpp:164-178 | the same, from the else-branch |
| Grammar.WhileAt | src/Parser.cpp:181-217 | the cursor only moves forward, and a result that did not raise leaves it on a token |
| Grammar.WhileBodyAt | src/Parser.cpp:203-216 | the same, from the body |
| Grammar.PrimaryAt | src/Parser.cpp:324-340 | a built primary has consumed at least one token, unless it started on the last one |
| Grammar.BinaryAt | src/Parser.cpp:219-222 | the cursor only moves forward, and stays on a token when it started on one; what it builds on a chain is stated by `OperatorChains.ChainExpr` |
| Grammar.BinaryLoop | src/Parser.cpp:223-257 | the operator loop only moves the cursor forward, leaving it on a token unless it raised; what it builds on a chain is stated by `OperatorChains.LoopChain` |
| Grammar.LoopTurn | src/Parser.cpp:234-256 | one turn of the loop takes an operator binding at least as tightly as the current level and its right operand, folds both into the left side, and goes on after the operand |
| Grammar.OperandAt | src/Parser.cpp:238-253 | the right operand only moves the cursor forward, leaving it on a token unless it raised; what it builds on a chain is stated by `OperatorChains.OperandChain` |
| Grammar.ExprAt | src/Parser.cpp:342-351 | a built expression has consumed at least one token, unless it started on the last one |
| Grammar.ParamsFrom | src/Parser.cpp:273-286 | a built prototype has the given name and keeps the parameter names already collected as a prefix |
| Grammar.PrototypeAt | src/Parser.cpp:260-289 | a built prototype needs a name, `(` and `)`, and is named by the first token |
| Grammar.FuncDefAt | src/Parser.cpp:291-322 | a built definition starts with `def`, spans at least six tokens and carries the prototype parsed after `def` |
| Grammar.TopLevelAt | src/Parser.cpp:353-360 | the result is built, null or raised exactly when the expression is, and a built one is the expression under the anonymous prototype without parameters |
| Grammar.ProgramAt | src/Parser.cpp:362-370 | a built result starts on a token; after `def` it is named by the next identifier, otherwise it has the anonymous prototype |
| Parsing.Parser.constructor | src/Parser.cpp:6-17 | a fresh parser holds the tokens and the fixed precedence table with its cursor at 0 |
| Parsing.Parser.IsAtEnd | src/Parser.cpp:19-21 | the cursor is at the end exactly when the list is not empty and no token follows the current one |
| Parsing.Parser.Peek | src/Parser.cpp:30-36 | a token comes back exactly when cursor + offset is before the end, and it is the token there |
| Parsing.Parser.Consume | src/Parser.cpp:38-40 | the cursor advances by exactly one, returning the token it was on |
| Parsing.Parser.GetTokPrecedence | src/Parser.cpp:23-28 | the table's precedence of the current token, -1 for any other kind, and the empty-peek error past the end |
| Parsing.Parser.NumberExpr | src/Parser.cpp:42-54 | result and cursor are those of `NumberAt` |
| Parsing.Parser.GroupingExpr | src/Parser.cpp:56-74 | result and cursor are those of `GroupingAt` |
| Parsing.Parser.IdentifierExpr | src/Parser.cpp:76-122 | result and cursor are those of `IdentifierAt` |
| Parsing.Parser.ParseArguments | src/Parser.cpp:92-118 | the `while (true)` argument loop returns what `ArgsFrom` defines for an empty list |
| Parsing.Parser.Expect | src/Parser.cpp:128-131 | consumes a token of the wanted kind, returns null on another kind, and raises past the end |
| Parsing.Parser.ExpectLast | src/Parser.cpp:168-175 | the same for the closing brace, which stays unconsumed when it is the last token |
| Parsing.Parser.ParseHead | src/Parser.cpp:124-145 | result and cursor are those of `HeadAt` |
| Parsing.Parser.ParseCondition | src/Parser.cpp:133-145 | result and cursor are those of `ConditionAt` |
| Parsing.Parser.ConditionalExpr | src/Parser.cpp:124-179 | result and cursor are those of `IfAt` |
| Parsing.Parser.ConditionalThen | src/Parser.cpp:146-162 | result and cursor are those of `IfThenAt` |
| Parsing.Parser.ConditionalElse | src/Parser.cpp:164-178 | result and cursor are those of `IfElseAt` |
| Parsing.Parser.WhileExpr | src/Parser.cpp:181-217 | result and cursor are those of `WhileAt` |
| Parsing.Parser.WhileBody | src/Parser.cpp:203-216 | result and cursor are those of `WhileBodyAt` |
| Parsing.Parser.ParseBinaryExpr | src/Parser.cpp:219-258 | the precedence-climbing loop returns what `BinaryAt` defines, whose grouping `OperatorChains` characterises |
| Parsing.Parser.ParseOperand | src/Parser.cpp:238-253 | the right operand of one loop turn is what `OperandAt` defines, characterised by `OperatorChains.OperandChain` |
| Parsing.Parser.ParsePrototype | src/Parser.cpp:260-289 | the parameter loop returns what `PrototypeAt` defines |
| Parsing.Parser.ParseFuncDefinition | src/Parser.cpp:291-322 | result and cursor are those of `FuncDefAt` |
| Parsing.Parser.ParsePrimaryExpr | src/Parser.cpp:324-340 | result and cursor are those of `PrimaryAt` |
| Parsing.Parser.ParseExpr | src/Parser.cpp:342-351 | result and cursor are those of `ExprAt` |
| Parsing.Parser.ParseTopLevelExpr | src/Parser.cpp:353-360 | result and cursor are those of `TopLevelAt` |
| Parsing.Parser.Parse | src/Parser.cpp:362-370 | result and cursor are those of `ProgramAt` |
| ParsingFacts.PrecedenceTable | src/Parser.cpp:8-16 | `* /` bind at 4, `+ -` at 3, the four comparisons at 2, `==` at 1, and every other kind at -1 |
| ParsingFacts.PrimaryNumber | src/Parser.cpp:44-50 | a number is a primary, consumed unless it is the last token |
| ParsingFacts.PrimaryVariable | src/Parser.cpp:79-87 | a name not followed by `(` is a variable, consumed unless it is the last token |
| ParsingFacts.BinaryStops | src/Parser.cpp:221-231 | a token that binds looser than the current level ends the loop without moving the cursor |
| ParsingFacts.ExprIsPrimary | src/Parser.cpp:342-351 | a primary followed by a non-operator is the whole expression |
| ParsingFacts.OperandIsPrimary | src/Parser.cpp:245-253 | a right operand followed by an operator binding no tighter is taken as it is |
| ParsingFacts.BinaryTurn | src/Parser.cpp:234-256 | one loop turn folds the operator and its operand into the left side |
| ParsingFacts.GroupIsInner | src/Parser.cpp:58-70 | a parenthesised expression is its inner expression, with no node of its own |
| ParsingFacts.ArgumentThenClose | src/Parser.cpp:102-118 | an argument followed by `)` ends the call with that argument appended |
| ParsingFacts.ArgumentThenComma | src/Parser.cpp:102-112 | an argument followed by `,` goes on to the next argument |
| ParsingFacts.CallStarts | src/Parser.cpp:86-92 | a name followed by `(` starts the argument loop after the parenthesis |
| ParsingFacts.OneParameter | src/Parser.cpp:260-289 | `f ( x )` is the prototype of f with the one parameter x |
| ParsingFacts.DefinitionOf | src/Parser.cpp:291-316 | `def`, a prototype, `{`, a body that parses and `}` make a definition with that prototype and body |
| ParsingFacts.LastNumberStays | src/Parser.cpp:46-49 | a number on the last token leaves the cursor on it |
| ParsingFacts.ThreeOperands | src/Parser.cpp:223-257 | for any two binary operators, a tighter second one nests on the right, and an equal or looser one folds to the left |
| ParsingFacts.TimesNestsRight | src/Parser.cpp:245-253 | `1 + 2 * 3` is `1 + (2 * 3)` |
| ParsingFacts.MinusFoldsLeft | src/Parser.cpp:223-257 | `8 - 3 - 2` is `(8 - 3) - 2` |
| ParsingFacts.SumAt | src/Parser.cpp:223-257 | `a + b` before a non-operator is one addition |
| ParsingFacts.GroupingHasNoNode | src/Parser.cpp:56-74 | `(a + b) * c` multiplies the sum by c, with no node for the parentheses |
| ParsingFacts.CallWithArguments | src/Parser.cpp:86-118 | `f(a, b)` is a call to f with its two arguments in order |
| ParsingFacts.TwoArguments | src/Parser.cpp:93-118 | the argument loop over `a, b)` collects both arguments in order |
| ParsingFacts.EmptyCallFails | src/Parser.cpp:94-100 | `f()` raises the argument error at the `)` |
| ParsingFacts.NumberExpr | src/Parser.cpp:44-50 | a number followed by a token that is no operator is a whole expression |
| ParsingFacts.IfHead | src/Parser.cpp:124-145 | `if ( cond ) {` with the condition parsed leads to the then-branch right after the brace |
| ParsingFacts.ThenElse | src/Parser.cpp:146-162 | a then-branch followed by `} else {` leads to the else-branch |
| ParsingFacts.ThenWithoutElse | src/Parser.cpp:150-156 | a then-branch followed by `}` and a token other than `else` makes the conditional null |
| ParsingFacts.ThenAtEnd | src/Parser.cpp:150-156 | a then-branch closed by the last token raises on the peek for `else` |
| ParsingFacts.ElseClose | src/Parser.cpp:164-178 | an else-branch followed by `}` completes the conditional with condition, then-branch and else-branch |
| ParsingFacts.BothBranches | src/Parser.cpp:146-178 | `t } else { e }` after the head parses to the conditional with both branches, the final brace being the last token |
| ParsingFacts.IfElseExpression | src/Parser.cpp:124-179 | any token list `if (c) { t } else { e }` parses to the conditional with the three parts in order |
| ParsingFacts.IfWithoutElse | src/Parser.cpp:155-156 | any token list `if (c) { t } x` is null |
| ParsingFacts.IfWithoutElseAtEnd | src/Parser.cpp:150-156 | any token list `if (c) { t }` raises on the empty peek for `else` |
| ParsingFacts.WhileOf | src/Parser.cpp:181-216 | `while ( cond ) { body }` with both parts parsed is the loop node, the final brace consumed unless it is the last token |
| ParsingFacts.WhileExpression | src/Parser.cpp:181-217 | any token list `while (c) { b }` has its condition and body; the final `}` as last token stays unconsumed |
| ParsingFacts.ParamsFromRun | src/Parser.cpp:273-286 | the parameter loop reads the whole run of identifiers and commas and keeps the identifiers in order; then `)` gives the prototype, another token null, and the end raises |
| ParsingFacts.DoubledCommas | src/Parser.cpp:273-281 | `f(a,,b)` declares a and b |
| ParsingFacts.MissingCommas | src/Parser.cpp:273-281 | `f(a b)` declares a and b |
| ParsingFacts.EmptyBodyConsumesBrace | src/Parser.cpp:306-318 | `def f() { }` is null, with the closing brace already consumed |
| ParsingFacts.Definition | src/Parser.cpp:291-316 | `def f(x) { x }` is the definition of f with parameter x and body x |
| ParsingFacts.TopLevelExpression | src/Parser.cpp:353-358 | a first token other than `def` makes the expression a function under the anonymous name without parameters |
| ParsingFacts.EmptyInputRaises | src/Parser.cpp:19-36 | with no tokens the cursor is never at the end, and the first peek raises |
| OperatorChains.LeavesCount | src/Parser.cpp:255-256 | every tree the loop merges has one operand more than it has operators |
| OperatorChains.Reach | src/Parser.cpp:224-231 | the run of operators that bind at least as tightly as a level, from a number of a chain, ends at a number of the chain that is followed by a looser operator or ends it |
| OperatorChains.ReachSplit | src/Parser.cpp:245-253 | a run at a tighter level, continued at a looser one, is the run at the looser level |
| OperatorChains.ReachAll | src/Parser.cpp:342-351 | every operator binds at the outermost level, so the run reaches the end of the chain |
| OperatorChains.ChainSplit | src/Parser.cpp:223-257 | two adjoining chains make one chain whose numbers and operators are theirs, in order |
| OperatorChains.FoldTurn | src/Parser.cpp:234-256 | a turn that folds an operator and its right operand into the left side, followed by the rest of the loop, folds the whole chain from before the operator |
| OperatorChains.LoopEnds | src/Parser.cpp:224-231 | the loop returns the left side at once when no operator follows or the next one binds more loosely than its level |
| OperatorChains.LoopChain | src/Parser.cpp:223-257 | on a chain, the loop takes exactly the run of operators that bind at least as tightly as its level, and returns a well-grouped tree over the left side and the run's numbers and operators in order, with the cursor past the last number taken |
| OperatorChains.LoopStep | src/Parser.cpp:234-256 | the loop from before an operator is the turn that takes it and its operand, then the loop after the operand |
| OperatorChains.LoopTaken | src/Parser.cpp:234-256 | after a number, the loop consumes the operator and goes on after its right operand with both folded into the left side |
| OperatorChains.OperandStart | src/Parser.cpp:238-253 | the right operand at a number is that number, or the loop one level tighter after it when the next operator binds more tightly |
| OperatorChains.OperandChain | src/Parser.cpp:238-253 | the right operand of an operator of precedence q takes its number and exactly the run of operators binding more tightly than q, as a well-grouped tree whose root binds more tightly than q |
| OperatorChains.ChainExpr | src/Parser.cpp:342-351 | `parseExpr` on a chain of numbers and binary operators that no operator follows reads the whole chain and builds a well-grouped tree over its numbers and operators, in order |
| OperatorChains.ChainGrouping | src/Parser.cpp:219-258 | that tree is the only one: any well-grouped tree over the chain's numbers and operators is exactly what `parseExpr` returns |
| OperatorChains.OpsBind | src/Parser.cpp:245-253 | every operator inside a well-grouped tree whose root binds at least as tightly as p binds at least as tightly as p |
| OperatorChains.RootSplit | src/Parser.cpp:223-257 | the root of a well-grouped tree is the rightmost of its loosest operators: those before it bind at least as tightly, those after it strictly more tightly |
| OperatorChains.GroupingUnique | src/Parser.cpp:223-257 | two well-grouped trees with the same operands and operators, in order, are equal |
| OperatorChains.FoldLeftGrouped | src/Parser.cpp:223-257 | the left fold of a chain whose operators share one precedence is a well-grouped tree over the chain's numbers and operators |
| OperatorChains.SameLevelFoldsLeft | src/Parser.cpp:223-257 | a chain whose operators all have one precedence, such as `a - b - c - d`, parses to its left fold |
| FrontEnd.ScanSubtraction | src/Lexer.cpp:65-132 | `8-3-2` scans to three numbers and two minus tokens without positions |
| FrontEnd.SubtractionEndToEnd | src/Parser.cpp:353-370 | scanning `8-3-2` gives tokens that meet the parser's requirement, and parsing them gives the anonymous function whose body subtracts from the left |

## Left out

- OperatorChains.ChainExpr: the general grouping theorem covers chains whose operands are number tokens. Operands that are names, calls, parenthesised expressions or conditionals, and chains that raise or return null, are covered only by the worked examples in `ParsingFacts`.

- Floating-point conversion: a number node keeps its digit string. `std::stof`, its rounding and its `out_of_range` for very long digit strings are not modelled.
- Console output is not modelled: the `std::cout` messages, `DEBUG_LOG`, the ANSI escape sequences, `displayToken`, `displayTokenList`, `displayASTExpr` and `stringFormat`.
- The non-positional `logMessage` (src/Logger.cpp:33-41) is not modelled, because no core code calls it. The commented-out overload is also left out.
- Code generation is left out because it is all LLVM calls: `codegen`, `CodeGenerator.cpp`, the JIT and the optimisation passes.
- The JIT driver's recovery (skip one token after a failed item), `main.cpp` and `FileHandler` are drivers and file I/O around the core.
- Integer widths: cursors, offsets and line numbers are unbounded. The one wrap-around that matters, `size() - 1` on an empty token list, is stated in `AtEnd`. Offsets are never negative in any caller, so they are natural numbers.
- Character classes are those of the "C" locale. Non-ASCII letters, digits and spaces are not modelled.
- Undefined behaviour: dereferencing the empty text of an identifier or number token. The parser requires `Payloads` instead, which every scanned token list satisfies.
- Grammar.ArgsFrom: an argument that does not parse raises `ArgumentFailed` at the offending token. Which exception the logger throws (`out_of_range` or `runtime_error`) is not recorded.
- Parsing.Parser.Consume: past the last token the source's `at()` throws after incrementing the cursor. The model returns no token and increments the cursor. No sub-parser calls it there.
