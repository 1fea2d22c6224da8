# Protonium core in Dafny

Protonium (`proto`) is a small tree-walking interpreter written in C++. A
source text goes through four stages:

- the lexer turns it into tokens;
- the recursive-descent parser turns the tokens into a syntax tree;
- the resolver binds each variable use to a scope distance;
- the interpreter evaluates expressions and executes statements against a chain of environments.

This project models those stages, together with the token tables, the
syntax-tree printer, the environment chain, the run-time values and
function calls, and the REPL's "does this need another line" test.

Each stage is modelled in the form the C++ gives it.

- The lexer, the parser, the resolver, the tree printer, the environment
  and the interpreter are objects whose methods update fields. Each becomes
  a `class` whose methods are proved to move the object to the state that a
  reference function gives:
  - `Lexing.Lexer` against `LexSpec`;
  - `Parsing.Parser` against `ParseSpec`;
  - `Resolving.Resolver` against `ResolveSpec`;
  - `Printing.TreePrinter` against `Printing.Render`;
  - `Interpreting.Interpreter` against `InterpSpec`.
- The properties are proved about those reference functions.
- The node constructors, the token helpers and the value helpers are pure,
  and are modelled as datatypes and functions.
- `requireNewLine` is a loop over a string. It is a method with a loop
  invariant, proved against a scan function.

Module layout, one file each:

| file | module | models |
|---|---|---|
| base.dfy | Base | Option, Result, the diagnostic log (`Proto::error`, `Proto::runtimeError`) |
| tokens.dfy | Tokens | `TokenType`, `LiteralType`, `typeStr`, `ltypeStr`, `keywords`, `Token` |
| ast.dfy | Ast | expression and statement nodes, `Literal(Token)` and its `stold` |
| lexspec.dfy | LexSpec | the scanner as functions |
| lexer.dfy | Lexing | `Lexer` |
| printer.dfy | Printing | `TreePrinter` |
| parsespec.dfy | ParseSpec | the parser as functions |
| parser.dfy | Parsing | `Parser` |
| resolvespec.dfy | ResolveSpec | the resolver as functions |
| resolver.dfy | Resolving | `Resolver` |
| values.dfy | Values | run-time values, callables, `RuntimeError`, `stringify` |
| frames.dfy | Frames | the environment chain as a sequence of scope maps |
| environment.dfy | Environments | `Environment` as a linked heap structure |
| interpspec.dfy | InterpSpec | evaluation and execution as functions |
| interpprops.dfy | InterpProps | properties of evaluation and execution |
| interpreter.dfy | Interpreting | `Interpreter` and `ProtoFunction::call` |
| repl.dfy | Repl | `requireNewLine` |

## Model

| member | source | states |
|---|---|---|
| Base.CountNewlines | src/Lexer.cpp:75 | the number of newlines in a text, which is never more than its length; the lexer's line counter moves by exactly this much |
| Tokens.KeywordType | src/Lexer.cpp:106-123 | the keyword lookup of `identifierOrKeyword` never gives the end-of-input or the identifier category |
| Tokens.KeywordTableSize | src/includes/Token.hpp:90-105 | the keyword table has exactly 14 entries |
| Tokens.KeywordEntriesDistinct | src/includes/Token.hpp:90-105 | no keyword is listed twice |
| Tokens.KeywordTypeIsTable | src/includes/Token.hpp:90-105 | the lexer's lookup finds a word exactly when it is a key of the keyword map, and then gives that key's category |
| Tokens.LiteralKeywords | src/includes/Token.hpp:95-97 | `nix`, `true` and `false` are keywords of their own categories |
| Tokens.KeywordExamples | src/includes/Token.hpp:97-98 | `fn` is the function keyword and `nix` the nil keyword |
| Tokens.KeywordsNotEof | src/includes/Token.hpp:90-105 | no keyword maps to the end-of-input category |
| Tokens.TypeNamesInjective | src/includes/Token.hpp:50-88 | two different categories never have the same printable name |
| Tokens.NameTypeRoundTrip | src/includes/Token.hpp:50-88 | every printable name leads back to the category it names |
| Tokens.TypeAsStr | src/Token.cpp:7-9 | `typeAsStr` gives a name exactly for the categories `typeStr` lists, and the name is non-empty; otherwise `at` throws |
| Tokens.LTypeAsStr | src/Token.cpp:11-13 | `ltypeAsStr` gives a non-empty name for every literal subtype |
| Tokens.Show | src/Token.cpp:15-18 | printing a token succeeds exactly when `typeAsStr` does |
| Ast.DigitRun | src/Expressions.cpp:30 | the longest run of digits at the start of a text: everything before it is a digit and the character after it is not |
| Ast.DecimalValue | src/Expressions.cpp:30 | `stold` on a number lexeme gives a non-negative number |
| Ast.DecimalOfDigits | src/Expressions.cpp:30 | a run of digits denotes the integer it spells |
| Ast.DecimalOfFraction | src/Expressions.cpp:30 | `a.b` denotes `a` plus `b` divided by ten to the length of `b` |
| Ast.MakeLiteral | src/Expressions.cpp:27-46 | `Literal(Token)` succeeds exactly when the token has a literal subtype; the node keeps the subtype, and its value agrees with it |
| Ast.MakeLiteralValues | src/Expressions.cpp:28-43 | each subtype yields its value: the number of the lexeme, the lexeme itself, nil, true or false |
| LexSpec.StringBody | src/Lexer.cpp:74-77 | the string loop stops within the text and counts every newline it passes |
| LexSpec.StringBodyStops | src/Lexer.cpp:74-77 | the string loop stops at the first quote, or at the end |
| LexSpec.SkipDigits | src/Lexer.cpp:93 | the digit loop stays within the text |
| LexSpec.SkipDigitsRun | src/Lexer.cpp:93 | the digit loop passes only digits and stops at the first non-digit |
| LexSpec.NumberEnd | src/Lexer.cpp:93-98 | the number loops stay within the text |
| LexSpec.NumberEndChars | src/Lexer.cpp:93-98 | the number loops pass only digits and dots |
| LexSpec.SkipAlphaNumeric | src/Lexer.cpp:103 | the word loop stays within the text |
| LexSpec.SkipAlphaNumericRun | src/Lexer.cpp:103 | the word loop passes only letters, digits and `_`, and stops at the first other character |
| LexSpec.SkipLine | src/Lexer.cpp:171 | the line-comment loop stays within the text |
| LexSpec.SkipLineRun | src/Lexer.cpp:171 | the line-comment loop stops in front of the first newline, or at the end |
| LexSpec.BlockComment | src/Lexer.cpp:174-179 | the block-comment loop stays within the text and counts every newline it passes |
| LexSpec.BlockCommentEnds | src/Lexer.cpp:174-179 | the block-comment loop stops at the end, or just after a `]/` |
| LexSpec.DoubleBracketDoesNotClose | src/Lexer.cpp:174 | a `]` consumed by the first `isNext` is not looked at again, so `]]/` does not close a comment |
| LexSpec.Operator | src/Lexer.cpp:156-167 | a one- or two-character operator moves the cursor forward, never past the end, and its token is on the current line |
| LexSpec.OperatorTokens | src/Lexer.cpp:156-167 | the two-character category exactly when the next character is `=`, which is then part of the lexeme |
| LexSpec.Single | src/Lexer.cpp:129-155 | a one-character token moves the cursor forward, never past the end, and is never end-of-input |
| LexSpec.StringToken | src/Lexer.cpp:73-89 | `string` moves the cursor forward, counts newlines, and any token it adds is on the final line |
| LexSpec.StringTokens | src/Lexer.cpp:73-89 | a terminated literal gives one STRING token whose lexeme is the text between the quotes, with no escape processing |
| LexSpec.UnterminatedStrings | src/Lexer.cpp:79-83 | a literal with no closing quote gives no token and one "Unterminated String" error, and consumes the rest of the input |
| LexSpec.WordToken | src/Lexer.cpp:102-124 | `identifierOrKeyword` moves the cursor forward, and any token it adds is on the current line and never end-of-input |
| LexSpec.WordTokens | src/Lexer.cpp:102-124 | the lexeme is the longest run of letters, digits and `_`; its category comes from the keyword table, otherwise it is an identifier |
| LexSpec.WordSubtypes | src/Lexer.cpp:107-120 | only `nix`, `true` and `false` get a literal subtype, and each gets its own |
| LexSpec.NumberToken | src/Lexer.cpp:91-100 | `number` moves the cursor forward over no newline and leaves the line counter unchanged; any token it adds is on that line and never end-of-input |
| LexSpec.NumberTokens | src/Lexer.cpp:91-100 | a NUMBER token whose lexeme ends in a digit and is followed by a non-digit |
| LexSpec.NumberDots | src/Lexer.cpp:91-100 | after its first character, a number holds only digits and at most one `.`, and a digit follows that `.`; the first character may itself be a `.` (entered at src/Lexer.cpp:194), so `.5.5` is one number with two dots |
| LexSpec.NumberEndDots | src/Lexer.cpp:93-98 | after the first digit the number loops pass only digits and at most one `.`, and a digit follows that `.` |
| LexSpec.OtherToken | src/Lexer.cpp:193-201 | the `default` case moves the cursor forward and never adds an end-of-input token |
| LexSpec.UnexpectedCharacters | src/Lexer.cpp:200 | a character that starts no token reports one "Unexpected character" error naming it, adds no token, and scanning resumes after it |
| LexSpec.SlashToken | src/Lexer.cpp:168-182 | the `/` case moves the cursor forward and counts newlines |
| LexSpec.LineComments | src/Lexer.cpp:169-172 | `//` adds nothing and stops in front of the next newline |
| LexSpec.BlockComments | src/Lexer.cpp:173-180 | `/[` adds nothing, counts newlines, and stops just after a `]/` or at the end |
| LexSpec.ScanOne | src/Lexer.cpp:126-202 | one call of `scanToken` moves the cursor forward, counts the newlines it passes, and adds at most one token, never end-of-input, on the final line |
| LexSpec.ScanOneCases | src/Lexer.cpp:168-192 | a `"` goes to `string` and a `/` to the comment-or-division case |
| LexSpec.ScanOneOperators | src/Lexer.cpp:156-167 | `!`, `=`, `>` and `<` each become their one- or two-character operator |
| LexSpec.ScanOneBlanks | src/Lexer.cpp:183-189 | blanks produce nothing and keep the line; a newline produces nothing and moves to the next line |
| LexSpec.ScanOneDefault | src/Lexer.cpp:193-200 | in the `default` case, digits (or `.` then a digit) start numbers and letters or `_` start words |
| LexSpec.ScanFromLine | src/Lexer.cpp:206-209 | the scan loop ends on its start line plus the number of newlines it passes |
| LexSpec.ScanFromTokens | src/Lexer.cpp:206-209 | the loop's tokens are never end-of-input, and their lines lie between the start line and the final line, in nondecreasing order |
| LexSpec.LexResult | src/Lexer.cpp:204-214 | `scanTokens` ends with exactly one end-of-input token, on line one plus the number of newlines; all lines are nondecreasing and at least 1 |
| Lexing.Lexer.constructor | src/includes/Lexer.hpp:33 | the cursor at 0, on line 1, with no tokens |
| Lexing.Lexer.Advance | src/Lexer.cpp:11-13 | returns the character under the cursor and moves the cursor one step |
| Lexing.Lexer.IsNext | src/Lexer.cpp:38-49 | true exactly when the next character is `c`, and then consumes it; otherwise nothing moves |
| Lexing.Lexer.AddToken | src/Lexer.cpp:15-36 | appends one token whose lexeme is the current text, without its two quotes for a string literal |
| Lexing.Lexer.SkipStringBody | src/Lexer.cpp:74-77 | the cursor and line that `LexSpec.StringBody` gives |
| Lexing.Lexer.ScanString | src/Lexer.cpp:73-89 | the state `LexSpec.StringToken` gives: the token or the error it gives is appended |
| Lexing.Lexer.FinishString | src/Lexer.cpp:80-88 | at the end of the text one unterminated-string error and no token; otherwise the closing quote is consumed and one STRING token holds the text between the quotes |
| Lexing.Lexer.SkipDigitRun | src/Lexer.cpp:93 | the cursor `LexSpec.SkipDigits` gives |
| Lexing.Lexer.ScanNumber | src/Lexer.cpp:91-100 | the state `LexSpec.NumberToken` gives |
| Lexing.Lexer.SkipNumberRest | src/Lexer.cpp:93-98 | the cursor `LexSpec.NumberEnd` gives |
| Lexing.Lexer.ScanWord | src/Lexer.cpp:102-124 | the state `LexSpec.WordToken` gives |
| Lexing.Lexer.SkipWordRun | src/Lexer.cpp:103 | the cursor `LexSpec.SkipAlphaNumeric` gives |
| Lexing.Lexer.SkipBlockComment | src/Lexer.cpp:174-179 | the cursor and line `LexSpec.BlockComment` gives |
| Lexing.Lexer.CommentTurn | src/Lexer.cpp:174-179 | one test and turn of the comment loop, as `Lexing.CommentNext` states it: a `]/` or the end stops it, a newline counts |
| Lexing.BlockCommentStep | src/Lexer.cpp:174-179 | one turn of the comment loop moves forward unless it stops, and the rest of the loop then gives the same result as `LexSpec.BlockComment` from the start |
| Lexing.Lexer.SkipLineComment | src/Lexer.cpp:171 | the cursor `LexSpec.SkipLine` gives |
| Lexing.Lexer.ScanSlash | src/Lexer.cpp:168-182 | the state `LexSpec.SlashToken` gives |
| Lexing.Lexer.ScanBlockOrDivision | src/Lexer.cpp:173-181 | after a `/` not followed by `/`: a `[` starts the comment loop, anything else adds one DIVISION token |
| Lexing.Lexer.ScanSingle | src/Lexer.cpp:129-155 | the state `LexSpec.Single` gives |
| Lexing.Lexer.ScanOperator | src/Lexer.cpp:156-167 | the state `LexSpec.Operator` gives |
| Lexing.Lexer.ScanOther | src/Lexer.cpp:193-201 | the state `LexSpec.OtherToken` gives |
| Lexing.Lexer.ScanToken | src/Lexer.cpp:126-202 | the state `LexSpec.ScanOne` gives |
| Lexing.Lexer.ScanRest | src/Lexer.cpp:168-200 | for the cases after the operators, the state `LexSpec.ScanOne` gives |
| Lexing.Lexer.ScanTokens | src/Lexer.cpp:204-214 | the tokens and errors of `LexSpec.ScanFrom` from the current position, followed by the end-of-input token |
| Lexing.LexSource | src/proto.cpp:15-16 | a fresh lexer over a source text produces exactly `LexSpec.Lex` of it |
| Printing.SpacedSingle | src/includes/Expressions.hpp:120-125 | a node with one child prints as `(name child)` |
| Printing.SpacedPair | src/includes/Expressions.hpp:117-119 | a binary node prints as `(op left right)` |
| Printing.TreePrinter.constructor | src/includes/Expressions.hpp:111 | the printout starts empty |
| Printing.TreePrinter.Tree | src/includes/Expressions.hpp:113-116 | appends the rendering of the expression to what was printed before, and returns the whole printout |
| Printing.TreePrinter.Visit | src/includes/Expressions.hpp:117-144 | each overload appends the rendering of its node |
| Printing.TreePrinter.Parenthesize | src/includes/Expressions.hpp:147-154 | appends `(`, the name, a space before each child's rendering in order, then `)` |
| Printing.RenderBalanced | src/includes/Expressions.hpp:147-154 | when no lexeme or literal holds a bracket, the printout holds one `(` and one `)` per non-literal node |
| ParseSpec.Logged | src/Parser.cpp:57-60 | a failed production has reported exactly one diagnostic when it threw a parse error, and none otherwise |
| ParseSpec.Next | src/Parser.cpp:41-44 | `advance` never moves the cursor past the EOF token |
| ParseSpec.Expect | src/Parser.cpp:62-69 | `matchWithErr` succeeds exactly when the next token has the type, and then consumes it; otherwise it throws the message at the token found, and the cursor stays |
| ParseSpec.OperatorsBinary | src/Parser.cpp:123-161 | every operator a binary level matches is one of its ten binary operators |
| ParseSpec.ExpressionAt | src/Parser.cpp:116-118 | `expression` moves the cursor forward and never past the EOF token |
| ParseSpec.LevelAt | src/Parser.cpp:120-168 | each binary level moves the cursor forward and never past the EOF token |
| ParseSpec.LevelRestAt | src/Parser.cpp:123-130 | the loop of a level moves the cursor forward and never past the EOF token |
| ParseSpec.OperandAt | src/Parser.cpp:121 | the next tighter level moves the cursor forward and never past the EOF token |
| ParseSpec.UnaryAt | src/Parser.cpp:170-178 | `unary` moves the cursor forward and never past the EOF token |
| ParseSpec.PrimaryAt | src/Parser.cpp:180-192 | `primary` moves the cursor forward and never past the EOF token |
| ParseSpec.PrintStmtAt | src/Parser.cpp:104-108 | a parsed print statement has consumed at least one token, and the last one is a `;` |
| ParseSpec.ExprStmtAt | src/Parser.cpp:110-114 | a parsed expression statement has consumed at least one token, and the last one is a `;` |
| ParseSpec.StatementAt | src/Parser.cpp:97-102 | a parsed statement has consumed at least one token, and the last one is a `;` |
| ParseSpec.ProgramFrom | src/Parser.cpp:18-20 | the loop of `parse` moves the cursor forward and never past the EOF token |
| ParseSpec.LeftAssociative | src/Parser.cpp:120-168 | `a op b op' c` at one level parses as `(a op b) op' c` |
| ParseSpec.LevelRestTurn | src/Parser.cpp:123-130 | one turn of a level's loop combines the tree so far with the next operand, under the matched operator |
| ParseSpec.LevelRestEnds | src/Parser.cpp:123 | a token that is not one of the level's operators ends the loop, with the tree so far |
| ParseSpec.LevelRestFails | src/Parser.cpp:125 | an operand that fails ends the level with its failure |
| ParseSpec.LevelOfOperand | src/Parser.cpp:120-131 | an operand not followed by one of the level's operators is the level's whole result |
| ParseSpec.LiteralOperand | src/Parser.cpp:181-183 | a literal token not followed by an operator is an operand on its own, at every level |
| ParseSpec.PrimaryRejects | src/Parser.cpp:191 | a token that starts no expression throws "Expected an expression." at that token |
| ParseSpec.GroupUnwrapped | src/Parser.cpp:185-189 | a parenthesised expression yields the inner tree itself, not a group node |
| ParseSpec.GroupUnclosed | src/Parser.cpp:187 | a missing `)` is reported at the token found instead, which is not consumed |
| ParseSpec.ExpressionProduced | src/Parser.cpp:116-192 | every tree the expression productions yield is built from literals, unary nodes and binary nodes, with the operators the grammar allows |
| ParseSpec.LevelProduced | src/Parser.cpp:120-168 | the same for each binary level |
| ParseSpec.LevelRestProduced | src/Parser.cpp:123-130 | the same for a level's loop |
| ParseSpec.OperandProduced | src/Parser.cpp:121 | the same for an operand |
| ParseSpec.UnaryProduced | src/Parser.cpp:170-178 | the same for `unary` |
| ParseSpec.PrimaryProduced | src/Parser.cpp:180-192 | the same for `primary` |
| ParseSpec.ProgramStopsAtEnd | src/Parser.cpp:18-21 | a successful `parse` stops at the EOF token and keeps every statement it has collected, in order |
| ParseSpec.ProgramFails | src/Parser.cpp:19 | the first statement that fails ends `parse` with its failure |
| ParseSpec.SyncLoop | src/Parser.cpp:74-92 | the corrected loop of `sync` moves forward and never past the EOF token |
| ParseSpec.SyncAt | src/Parser.cpp:71-93 | corrected `sync` never moves past the EOF token |
| ParseSpec.SyncStops | src/Parser.cpp:71-93 | corrected `sync` consumes the erroneous token unless it is EOF, stops at the first statement boundary after it, and skips only tokens that are not boundaries |
| ParseSpec.SyncLoopStops | src/Parser.cpp:74-92 | the corrected loop stops at the first boundary |
| ParseSpec.SyncAsWrittenSpins | src/Parser.cpp:74-92 | as written, the loop never leaves once a turn starts at a token that is not a boundary, whatever bound is given |
| ParseSpec.SyncHangs | src/Parser.cpp:71-93 | `sync` on `a b EOF` never returns as written; the corrected loop stops at EOF |
| ParseSpec.LiteralUnary | src/Parser.cpp:170-183 | a literal token with a value is a whole `primary` and a whole `unary` |
| ParseSpec.SubtractionGroupsLeft | src/Parser.cpp:146-156 | `x - y - z` parses as `(x - y) - z` |
| ParseSpec.ProductBindsTighter | src/Parser.cpp:146-168 | `x + y * z` parses as `x + (y * z)` |
| ParseSpec.NotAnOperator | src/Parser.cpp:46-55 | a token that is not a binary operator never matches a level's operators |
| Parsing.Parser.constructor | src/Parser.cpp:6-8 | the cursor at the first token, with nothing reported |
| Parsing.Parser.IsAtEnd | src/Parser.cpp:24-26 | whether the current token is EOF |
| Parsing.Parser.Peek | src/Parser.cpp:28-30 | the current token |
| Parsing.Parser.Previous | src/Parser.cpp:32-34 | the token before the cursor, which exists exactly when the cursor is not at the start |
| Parsing.Parser.IsNextType | src/Parser.cpp:36-39 | true only for a current token of that type, and never at EOF |
| Parsing.Parser.Advance | src/Parser.cpp:41-44 | the cursor `ParseSpec.Next` gives, and the token before it |
| Parsing.Parser.Match | src/Parser.cpp:46-55 | true exactly when the current token has one of the types, and then consumes that one token |
| Parsing.Parser.Error | src/Parser.cpp:57-60 | reports the token's line and the message, and builds the parse error; the cursor stays |
| Parsing.Parser.MatchWithErr | src/Parser.cpp:62-69 | the outcome and cursor `ParseSpec.Expect` gives, with the diagnostic it reports |
| Parsing.Parser.Sync | src/Parser.cpp:71-93 | the cursor of corrected `sync`, `ParseSpec.SyncAt` |
| Parsing.Parser.ParseExpression | src/Parser.cpp:116-118 | the tree, cursor and diagnostics `ParseSpec.ExpressionAt` gives |
| Parsing.Parser.ParseLevel | src/Parser.cpp:120-168 | the tree, cursor and diagnostics `ParseSpec.LevelAt` gives |
| Parsing.Parser.ParseLevelRest | src/Parser.cpp:123-130 | the tree, cursor and diagnostics `ParseSpec.LevelRestAt` gives |
| Parsing.Parser.ParseOperand | src/Parser.cpp:121 | the tree, cursor and diagnostics `ParseSpec.OperandAt` gives |
| Parsing.Parser.ParseUnary | src/Parser.cpp:170-178 | the tree, cursor and diagnostics `ParseSpec.UnaryAt` gives |
| Parsing.Parser.ParsePrimary | src/Parser.cpp:180-192 | the tree, cursor and diagnostics `ParseSpec.PrimaryAt` gives |
| Parsing.Parser.ParseStatement | src/Parser.cpp:97-102 | the statement, cursor and diagnostics `ParseSpec.StatementAt` gives |
| Parsing.Parser.ParsePrintStmt | src/Parser.cpp:104-108 | the statement, cursor and diagnostics `ParseSpec.PrintStmtAt` gives |
| Parsing.Parser.ParseExprStmt | src/Parser.cpp:110-114 | the statement, cursor and diagnostics `ParseSpec.ExprStmtAt` gives |
| Parsing.Parser.Parse | src/Parser.cpp:10-22 | the statements, cursor and diagnostics of `parse`'s loop; on a fresh parser, those of `ParseSpec.Program` |
| Parsing.ParsedPrintable | src/Parser.cpp:116-192 | what `expression` returns is never a group node, and the tree printer has an overload for every node in it |
| Parsing.ProducedPrintable | src/Parser.cpp:180-189 | no tree the parser builds holds a group node, and every node of it is printable |
| ResolveSpec.Unread | src/Resolver.cpp:13-16 | the names `endScope` warns about are held by the scope and never read |
| ResolveSpec.UnusedWarnings | src/Resolver.cpp:13-16 | one warning per name |
| ResolveSpec.Innermost | src/Resolver.cpp:35-43 | the scope found holds the name |
| ResolveSpec.InnermostFinds | src/Resolver.cpp:35-43 | the search finds the innermost scope holding the name, and finds nothing exactly when no scope holds it |
| ResolveSpec.LocalRecords | src/Resolver.cpp:33-44 | with a hit at scope `i`, `resolveLocal` records distance `size - 1 - i` for the node, marks the entry read only when asked, and changes nothing else; without a hit it changes nothing |
| ResolveSpec.LocalWithoutRead | src/Resolver.cpp:38-40 | resolving without reading marks nothing |
| ResolveSpec.LocalKeeps | src/Resolver.cpp:33-44 | `resolveLocal` keeps the stack depth, the function flag, the log and every scope's walk order |
| ResolveSpec.DefineWrites | src/Resolver.cpp:28-31 | `define` does nothing at the global level; otherwise it writes an unread entry at the name's line into the innermost scope and changes no other entry |
| ResolveSpec.DefineKeeps | src/Resolver.cpp:28-31 | `define` keeps the stack depth, the function flag and the walk orders |
| ResolveSpec.DefineAllKeeps | src/Resolver.cpp:50-52 | defining every parameter keeps the same |
| ResolveSpec.ScopedKeeps | src/Resolver.cpp:7-18 | a `beginScope` … `endScope` pair around a visit that keeps the frame keeps it as well |
| ResolveSpec.RedundantKeeps | src/Resolver.cpp:54-57 | the check for code after a `return` keeps the frame |
| ResolveSpec.UnreadNames | src/Resolver.cpp:13-16 | exactly the unread names of the scope are warned about, and none twice |
| ResolveSpec.EndScopeWarns | src/Resolver.cpp:11-18 | `endScope` pops exactly one scope and appends one "Unused local variable" warning per unread name, at the line that defined it |
| ResolveSpec.ExprKeeps | src/Resolver.cpp:95-178 | every expression visit keeps the stack depth and the function flag, only adds to the log and the resolution table, and keeps every scope's walk order |
| ResolveSpec.CallKeeps | src/Resolver.cpp:117-122 | the same for a call |
| ResolveSpec.RangeKeeps | src/Resolver.cpp:139-145 | the same for a range |
| ResolveSpec.AssignKeeps | src/Resolver.cpp:151-178 | the same for an assignment |
| ResolveSpec.ExprsKeeps | src/Resolver.cpp:119-121 | the same for a list of expressions |
| ResolveSpec.FuncKeeps | src/Resolver.cpp:46-81 | `resolveFunc` leaves the depth of the stack and the function flag as they were |
| ResolveSpec.BodyKeeps | src/Resolver.cpp:53-59 | the same for the body loop |
| ResolveSpec.StmtKeeps | src/Resolver.cpp:183-245 | every statement visit keeps the frame |
| ResolveSpec.ForKeeps | src/Resolver.cpp:200-212 | the same for a `for` |
| ResolveSpec.ForInnerKeeps | src/Resolver.cpp:202-210 | the same inside the scope of a `for` |
| ResolveSpec.StmtsKeeps | src/Resolver.cpp:241-243 | the same for statements in turn |
| ResolveSpec.BareAssignDefines | src/Resolver.cpp:162-169 | a bare `=` to a name the innermost scope lacks defines it there, unread, at the assignment's line, and records distance 0; at the global level it only resolves the value |
| ResolveSpec.AssignOnlyResolves | src/Resolver.cpp:155-176 | a bare `=` to a name the innermost scope holds, and every `:=`, resolves the name without defining anything |
| ResolveSpec.ReturnChecked | src/Resolver.cpp:220-229 | a `return` outside a function reports an error and resolves nothing; inside one it resolves its value and marks its line |
| ResolveSpec.RedundantAfterReturn | src/Resolver.cpp:46-81 | for any body made of a `return` followed by k statements in which nothing returns or opens a function, a `Func` adds exactly one "Redundant code" warning when k >= 1 (the marker is cleared, lines 54-57), and a `Lambda` adds exactly k (it is not, lines 73-75); a marker already set on entry adds one more |
| ResolveSpec.FuncAfterReturn | src/Resolver.cpp:46-81 | the same warning counts for `resolveFunc` of either overload |
| ResolveSpec.BodyAfterReturn | src/Resolver.cpp:53-59 | the body loop after such a `return`: the warning count, and the marker is cleared after the first later statement of a `Func` body but stays at the `return`'s line in a `Lambda` body |
| ResolveSpec.MarkerStmt | src/Resolver.cpp:183-245 | a statement with no `return`, function or lambda inside leaves the marker as it was and adds no "Redundant code" warning |
| ResolveSpec.MarkerExpr | src/Resolver.cpp:95-178 | the same for an expression |
| ResolveSpec.UnusedNotRedundant | src/Resolver.cpp:11-18 | the warnings of `endScope` are never "Redundant code" warnings |
| ResolveSpec.BodySnoc | src/Resolver.cpp:53-59 | the body loop runs the check and then one more statement |
| ResolveSpec.StmtsAppend | src/Resolver.cpp:241-243 | resolving `a + b` is resolving `a` and then `b` |
| ResolveSpec.ForIsOneBlock | src/Resolver.cpp:200-212 | a `for` with a block body opens one scope only: it resolves like one block holding its clauses and then the body's statements |
| ResolveSpec.ClausesResolve | src/Resolver.cpp:202-204 | the clauses, as statements, resolve as the `for` resolves them |
| Resolving.Resolver.constructor | src/includes/Resolver.hpp:14-17 | no scopes, outside any function, no `return` marker, nothing resolved or reported |
| Resolving.Resolver.BeginScope | src/Resolver.cpp:7-9 | the state `ResolveSpec.BeginScope` gives |
| Resolving.Resolver.EndScope | src/Resolver.cpp:11-18 | the state `ResolveSpec.EndScope` gives |
| Resolving.Resolver.WarnUnread | src/Resolver.cpp:13-16 | appends to the diagnostics exactly one warning per unread name of the scope, in its walk order, and changes nothing else |
| Resolving.WarningsForUnread | src/Resolver.cpp:13-16 | the warnings of the walk over a scope are the unused-variable warnings for its unread names, in the same order |
| Resolving.Resolver.Define | src/Resolver.cpp:28-31 | the state `ResolveSpec.Define` gives |
| Resolving.Resolver.ResolveLocal | src/Resolver.cpp:33-44 | the state `ResolveSpec.ResolveLocal` gives |
| Resolving.Resolver.IsInCurrentScope | src/Resolver.cpp:83-86 | whether the innermost scope holds the name; false at the global level |
| Resolving.Resolver.ResolveFunc | src/Resolver.cpp:46-81 | the state `ResolveSpec.ResolveFunc` gives |
| Resolving.Resolver.ResolveBody | src/Resolver.cpp:53-59 | the state `ResolveSpec.ResolveBody` gives |
| Resolving.Resolver.ResolveExpr | src/Resolver.cpp:95-149 | the state `ResolveSpec.ResolveExpr` gives |
| Resolving.Resolver.VisitAssign | src/Resolver.cpp:151-178 | the state `ResolveSpec.ResolveAssign` gives |
| Resolving.Resolver.VisitRange | src/Resolver.cpp:139-145 | the state `ResolveSpec.ResolveExpr` gives for a range: its first value, its step if any, then its end |
| Resolving.Resolver.ResolveExprs | src/Resolver.cpp:119-121 | the state `ResolveSpec.ResolveExprs` gives |
| Resolving.Resolver.ResolveStmt | src/Resolver.cpp:183-245 | the state `ResolveSpec.ResolveStmt` gives |
| Resolving.Resolver.VisitBlock | src/Resolver.cpp:239-245 | the state `ResolveSpec.ResolveStmt` gives for a block: its statements inside a scope of their own |
| Resolving.Resolver.VisitIf | src/Resolver.cpp:187-193 | the state `ResolveSpec.ResolveStmt` gives for an `if` |
| Resolving.Resolver.VisitWhile | src/Resolver.cpp:195-198 | the state `ResolveSpec.ResolveStmt` gives for a `while` |
| Resolving.Resolver.VisitFunc | src/Resolver.cpp:214-218 | the state `ResolveSpec.ResolveStmt` gives for a function declaration: the name is defined before the body |
| Resolving.Resolver.VisitFor | src/Resolver.cpp:200-212 | the state `ResolveSpec.ResolveFor` gives |
| Resolving.Resolver.VisitReturn | src/Resolver.cpp:220-229 | the state `ResolveSpec.ResolveReturn` gives |
| Resolving.Resolver.ResolveStmts | src/Resolver.cpp:241-243 | the state `ResolveSpec.ResolveStmts` gives |
| Values.InfoNamesFunction | src/ProtoFunc.cpp:12-14 | a user function's `info` text is the prefix, its name and `>`, so the name reads back from it, and it differs from the texts of `read` and `print` (src/includes/ForeignFuncs.hpp:11-13, 26-28) |
| Frames.Nearest | src/Environment.cpp:8-18 | the scope found defines the name and no scope inside it does; none is found exactly when no scope defines it |
| Frames.BindingFinds | src/Environment.cpp:8-18 | `get` succeeds exactly when some scope of the chain defines the name, yields the innermost scope's binding, and otherwise fails with "Undefined variable '…'." at the name's token |
| Frames.AssignBinds | src/Environment.cpp:36-38 | after `assign` the name reads back as the new value, every other name reads as before, and the enclosing scopes are unchanged |
| Frames.StrictUpdates | src/Environment.cpp:40-50 | `strictAssign` succeeds exactly when `get` would, and otherwise fails with the error `get` gives |
| Frames.StrictChanges | src/Environment.cpp:41-46 | a successful `strictAssign` keeps every scope's names, changes no scope but the nearest defining one, and the name then reads back as the new value |
| Frames.StrictKeepsOthers | src/Environment.cpp:41-46 | … and every other name reads as before |
| Frames.StrictFailsUndefined | src/Environment.cpp:47-49 | with no scope defining the name, `strictAssign` fails with "Undefined variable '…'." |
| Frames.BindingCons | src/Environment.cpp:9-15 | looking through a chain is looking in its head, then in the rest |
| Frames.StrictCons | src/Environment.cpp:41-46 | assigning through a chain overwrites in the head when it defines the name, otherwise in the rest |
| Environments.Environment.Global | src/Environment.cpp:62-64 | the global scope: no parent and an empty map, so the chain is one empty scope |
| Environments.Environment.Local | src/Environment.cpp:68-70 | a local scope: `env` as parent and an empty map, so the chain is an empty scope in front of `env`'s chain |
| Environments.Environment.Get | src/Environment.cpp:8-18 | the binding `Frames.Binding` gives on the chain, including its error |
| Environments.Environment.ParentAt | src/Environment.cpp:24-30 | the environment `distance` links up, whose chain is the chain less its first `distance` scopes |
| Environments.Environment.GetAt | src/Environment.cpp:20-22 | `get` on the chain less its first `dist` scopes |
| Environments.Environment.IsDefined | src/Environment.cpp:32-34 | whether this scope's own map holds the name |
| Environments.Environment.Assign | src/Environment.cpp:36-38 | the chain `Frames.AssignIn` gives |
| Environments.Environment.StrictAssign | src/Environment.cpp:40-50 | the chain `Frames.StrictUpdate` gives when it succeeds; its error and an unchanged chain when it fails |
| Environments.Environment.AssignAt | src/Environment.cpp:52-54 | only scope `dist` of the chain changes, binding the name to the value |
| Environments.Environment.StrictAssignAt | src/Environment.cpp:56-58 | the first `dist` scopes are untouched and the rest change as `strictAssign` changes them, error included |
| Environments.Environment.AncestorFrames | src/Environment.cpp:24-30 | the chain of the environment `d` links up is the chain less its first `d` scopes |
| Environments.Environment.FramesSplit | src/Environment.cpp:24-30 | the chain is the scopes inside the environment `d` links up, then that environment's chain |
| InterpSpec.NatString | src/Interpreter.cpp:276 | `std::to_string` of a count is a nonempty run of digits |
| InterpSpec.Recast | src/Interpreter.cpp:284-286 | an outcome keeps its kind when its result is dropped |
| InterpSpec.Chain | src/Interpreter.cpp:17-20 | the chain has one scope more than the locals: the global scope ends it |
| InterpSpec.WithChain | src/Interpreter.cpp:253-256 | the state built from a chain has that chain |
| InterpSpec.Bind | src/ProtoFunc.cpp:17-20 | the call's scope binds every parameter that received an argument |
| InterpSpec.EvalArgs | src/Interpreter.cpp:264-268 | evaluating the arguments yields one value per argument |
| InterpSpec.Interpret | src/Interpreter.cpp:335-344 | no `RuntimeError` escapes `interpret` |
| InterpSpec.InterpretExpr | src/Interpreter.cpp:346-358 | no `RuntimeError` escapes `interpret` of an expression |
| InterpProps.NatStringReads | src/Interpreter.cpp:276 | the digits of `to_string(n)` read back as `n` |
| InterpProps.FalseValues | src/Interpreter.cpp:44-55 | a value is false exactly when it equals nil, `false` or zero |
| InterpProps.NumberTruth | src/Interpreter.cpp:51-53 | a number is false exactly when it lies within epsilon of zero |
| InterpProps.EqualityReflexiveSymmetric | src/Interpreter.cpp:61-70 | `isEqual` is reflexive and symmetric |
| InterpProps.EqualitySameKind | src/Interpreter.cpp:61-66 | values of different kinds are never equal, and equal values other than numbers are identical |
| InterpProps.EqualityNotTransitive | src/Interpreter.cpp:68-70 | comparing numbers up to epsilon is not transitive |
| InterpProps.PlusTyping | src/Interpreter.cpp:106-115 | `+` raises exactly when the operands are neither two numbers nor two strings, with the message of line 115, and joins two strings |
| InterpProps.NumericOperands | src/Interpreter.cpp:116-174 | `-`, `*`, `/`, `**` and the comparisons raise "Operands must be numbers." unless both operands are numbers; `==` and `!=` never raise |
| InterpProps.DivisionByZero | src/Interpreter.cpp:128-136 | division raises "Cannot divide by 0!" exactly for a divisor within epsilon of zero and divides otherwise |
| InterpProps.ComparisonAtEpsilon | src/Interpreter.cpp:145-173 | numbers within epsilon of each other are neither less nor greater, but both `<=` and `>=`, `==` and not `!=` |
| InterpProps.ComparisonsMirror | src/Interpreter.cpp:145-168 | `a < b` exactly when `b > a`, and `a <= b` exactly when `b >= a` |
| InterpProps.ComparisonsAgree | src/Interpreter.cpp:145-168 | `<=` is the negation of `>` and `>=` the negation of `<` |
| InterpProps.ComparisonsOrder | src/Interpreter.cpp:157-173 | `!=` is the negation of `==`, and numbers further apart than epsilon are either less or greater |
| InterpProps.NegationTyping | src/Interpreter.cpp:185-190 | unary minus raises "Operand must be a number." exactly for a non-number, and applied twice gives the number back |
| InterpProps.DoubleNot | src/Interpreter.cpp:191-192 | `!` always yields a Boolean, and applied twice yields the truth of its operand |
| InterpProps.BinaryOrder | src/Interpreter.cpp:95-105 | both operands are evaluated, left first, before any operator check; an error in the left one means the right one is never evaluated |
| InterpProps.LogicalBool | src/Interpreter.cpp:209-247 | `or` and `and` yield a Boolean |
| InterpProps.LogicalShortCircuit | src/Interpreter.cpp:209-247 | when the left operand decides, the right one is never evaluated and the result is its truth; otherwise the result is the truth of both combined |
| InterpProps.CallChecks | src/Interpreter.cpp:260-281 | a call evaluates the callee and all arguments, then raises "Provided object is not callable." for a non-callable and the arity message for a wrong count |
| InterpProps.BindKeys | src/ProtoFunc.cpp:17-20 | the call's scope binds exactly the names of the parameters that received an argument |
| InterpProps.BindValues | src/ProtoFunc.cpp:18-20 | each such parameter is bound to the argument of its last occurrence |
| InterpProps.UserCall | src/ProtoFunc.cpp:16-24 | a user function's body runs in its own scope whose parent is the global scope alone; the call yields nil and leaves the caller's scopes as they were |
| InterpProps.ForeignCalls | src/includes/ForeignFuncs.hpp:14-32 | `read` delivers the next input line, or "" once there is none; `print` writes its argument and yields nil |
| InterpProps.InitialGlobals | src/Interpreter.cpp:17-26 | at the start exactly `read` and `print` are defined, in the global scope |
| InterpProps.EvalRestores | src/Interpreter.cpp:95-282 | an expression, finishing normally or by a `RuntimeError`, leaves the scopes it found: as many, each outer one defining exactly the names it did, and the innermost only gaining names (by `=`) |
| InterpProps.EvalArgsRestores | src/Interpreter.cpp:264-268 | the same for the arguments of a call |
| InterpProps.CallRestores | src/ProtoFunc.cpp:16-24 | a call gives the caller back its very scopes, values included, and the global scope defines the names it did |
| InterpProps.ExecRestores | src/Interpreter.cpp:284-314 | the same as for an expression, for a statement |
| InterpProps.WhileRestores | src/Interpreter.cpp:306-309 | the same for the turns of a `while` |
| InterpProps.AssignExtends | src/Environment.cpp:36-38 | `assign` adds the name to the innermost scope and to no other |
| InterpProps.StrictRestores | src/Environment.cpp:40-49 | a successful `strictAssign` changes no scope's names |
| InterpProps.StmtsRestore | src/Interpreter.cpp:323-325 | the same for statements in turn |
| InterpProps.BlockRestores | src/Interpreter.cpp:316-333 | `executeBlock` finishes normally and goes back to the saved chain whether its statements finish or raise: every scope, and the global one, defines exactly the names it did, and a call's caller gets its own scopes back; a `RuntimeError` is reported, not passed on |
| InterpProps.BlockKeepsNames | src/Interpreter.cpp:316-333 | after a block a name is defined exactly when it was before, so a name bound by `=` only inside the block is unbound afterwards |
| InterpProps.BlockStrictAssignPersists | src/Interpreter.cpp:249-258 | a block `{ x := literal }` whose `x` an outer scope defines finishes normally, and `x` reads the new value after the block |
| InterpProps.ExecStmtsAppend | src/Interpreter.cpp:323-325 | running `a + b` is running `a`, then `b` only if `a` finished normally |
| InterpProps.InterpretStops | src/Interpreter.cpp:335-344 | the first `RuntimeError` of a program is reported and nothing after the statement that raised it runs |
| InterpProps.ExprShows | src/Interpreter.cpp:346-358 | an expression shows nothing when it raises (the error is reported) or when it is a call yielding nil; a string shows in double quotes |
| Interpreting.Interpreter.constructor | src/Interpreter.cpp:17-26 | the state `InterpSpec.Initial` gives: `read` and `print` in the global scope, no locals, nothing reported or written |
| Interpreting.Interpreter.Evaluate | src/Interpreter.cpp:197-207 | the outcome and state `InterpSpec.Eval` gives, with `m_val` holding the result |
| Interpreting.Interpreter.VisitBinary | src/Interpreter.cpp:95-179 | the outcome and state `InterpSpec.EvalBinary` gives |
| Interpreting.Interpreter.VisitUnary | src/Interpreter.cpp:181-195 | the outcome and state `InterpSpec.EvalUnary` gives |
| Interpreting.Interpreter.VisitLogical | src/Interpreter.cpp:209-247 | the outcome and state `InterpSpec.EvalLogical` gives |
| Interpreting.Interpreter.VisitAssign | src/Interpreter.cpp:249-258 | the outcome and state `InterpSpec.EvalAssign` gives |
| Interpreting.Interpreter.VisitCall | src/Interpreter.cpp:260-282 | the outcome and state `InterpSpec.EvalCall` gives |
| Interpreting.Interpreter.EvaluateArgs | src/Interpreter.cpp:264-268 | the outcome and state `InterpSpec.EvalArgs` gives |
| Interpreting.Interpreter.CallFunction | src/ProtoFunc.cpp:16-24 | the outcome and state `InterpSpec.CallValue` gives |
| Interpreting.Interpreter.Execute | src/Interpreter.cpp:312-314 | the outcome and state `InterpSpec.Exec` gives |
| Interpreting.Interpreter.VisitIf | src/Interpreter.cpp:292-302 | the outcome and state `InterpSpec.ExecIf` gives |
| Interpreting.Interpreter.VisitWhile | src/Interpreter.cpp:304-310 | the outcome and state `InterpSpec.ExecWhile` gives |
| Interpreting.Interpreter.RunLoop | src/Interpreter.cpp:306-309 | the outcome and state `InterpSpec.WhileFrom` gives for the condition value in `m_val` |
| Interpreting.Interpreter.RunTurn | src/Interpreter.cpp:307-308 | one turn: a body or condition that does not finish normally ends the loop as `WhileFrom` does; otherwise the rest of the loop from the new state is what remained |
| Interpreting.Interpreter.ExecuteStmts | src/Interpreter.cpp:323-325 | the outcome and state `InterpSpec.ExecStmts` gives |
| Interpreting.Interpreter.ExecuteBlock | src/Interpreter.cpp:316-333 | the outcome and state `InterpSpec.ExecBlock` gives |
| Interpreting.Interpreter.InterpretProgram | src/Interpreter.cpp:335-344 | the outcome and state `InterpSpec.Interpret` gives |
| Interpreting.Interpreter.InterpretExpression | src/Interpreter.cpp:346-358 | the text and state `InterpSpec.InterpretExpr` gives |
| Interpreting.WhileTurn | src/Interpreter.cpp:306-309 | a turn of the loop with a true condition runs the body, then the condition, then the rest |
| Interpreting.EvalArgsStop | src/Interpreter.cpp:265-268 | once an argument does not finish normally, the later ones are not evaluated |
| Interpreting.StmtsStop | src/Interpreter.cpp:323-325 | once a statement does not finish normally, the later ones do not run |
| Repl.ScanTo | src/src.cpp:17-31 | a literal can only be open after at least one character |
| Repl.StepCases | src/src.cpp:18-30 | a bracket inside a literal does not count; a quote opens a literal; in one, an escaped quote leaves it open and any other closes it; an opener adds one; a closer takes one off a nonzero count and leaves 0 at 0 |
| Repl.ScanBounds | src/src.cpp:17-31 | the count never exceeds the openers read; without a quote no literal is open and the count is at least openers less closers |
| Repl.OpenBracketCounted | src/src.cpp:17-31 | code without quotes and with more openers than closers ends with a nonzero count, outside any literal |
| Repl.RequireNewLine | src/src.cpp:13-34 | returns what the function returns as written, `count == 0 && withinQuotes` after the scan |
| Repl.AsWrittenIgnoresOpenBlock | src/src.cpp:33 | as written, code without quotes never gets another line, even with a bracket open, though one is evidently needed |
| Repl.AsWrittenRunsOpenBrace | src/src.cpp:33 | `{` alone ends the scan at count 1 outside a literal, so as written it is run at once |
| Repl.NeedsNewLineCases | src/src.cpp:33 | the corrected test asks for another line exactly when a bracket or a literal is still open; it holds whenever the as-written one does, holds with an unclosed bracket and fails for code with no opener and no quote |

## Left out

- File and command-line plumbing (`runFile`, `main`, the `repl` read loop, exit codes, the terminal colours) is not modelled: it is I/O. Only `requireNewLine` of src/src.cpp is.
- Diagnostics are not printed. `Proto::error` and `Proto::runtimeError` become entries appended to a log of (line, message).
- Process-wide singletons (`getInstance`) are not modelled. The state they hold is passed or held explicitly.
- `shared_ptr` ownership and `shared_from_this` are not modelled. `Environments.Environment` is a heap class with a parent link, and the interpreter works on the chain's value view: a sequence of scope maps, innermost first. In this revision a call's scope hangs off the global scope and a block's scope off the current one, so no scope outlives the block or call that made it. Sharing is therefore not observable.
- Numbers are `real`, not `long double`. Rounding is not modelled. `epsilon` is 2^-63, the value of `numeric_limits<long double>::epsilon()` for the 64-bit mantissa of x86 (src/includes/Expressions.hpp:158).
- Ast.DecimalValue: `std::stold` rounds the lexeme to a `long double`, and the model keeps the exact decimal value of its digits. Rounding is not modelled.
- Ast.MakeLiteral: `std::stold` throws `std::out_of_range` for a lexeme beyond the range of `long double` (about 4933 or more integer digits); nothing in the source catches it, so the process aborts. The model gives such a lexeme its exact value instead.
- LexSpec.ScanOne: the source is modelled as a sequence of characters, not of bytes. In src/Lexer.cpp a `char` is one byte of the UTF-8 text, so a non-ASCII character that starts no token (such as `é`) gives one "Unexpected character" error per byte, naming a byte fragment (src/Lexer.cpp:200); the model gives one error naming the whole character.
- `std::powl` is left out: `**` on two numbers ends the run as a stop outside the model, and its type check is kept.
- The text `<<` gives for a number under `setprecision(maxPrecision)` is a parameter `fmt` of the printer and of `stringify`.
- `read` and `print` (src/includes/ForeignFuncs.hpp) read from a list of input lines and append the printed value to an output list. `println` is not registered by the interpreter's constructor and is not modelled.
- Interpreting.Interpreter: src/Interpreter.cpp has no `visit` for `return`, function declarations, `print`, lambdas, lists, indexing, ranges, `for`, `break` or `continue`. These nodes end the run with a stop outside the model.
- Interpreting.Interpreter: loops and calls take a fuel bound. A run out of fuel is a stop outside the model, so the model says nothing about non-terminating programs.
- Interpreting.Interpreter.ExecuteBlock follows the code: `executeBlock` reports a `RuntimeError` and does not pass it on.
- Values: two callables are equal when their contents are equal. The C++ compares the pointers.
- ResolveSpec.EndScope: src/Resolver.cpp walks an `unordered_map`, whose order is unspecified. The model warns in the order the names were first defined.
- ResolveSpec.EndScope on an empty stack leaves the state unchanged. The C++ would pop an empty vector.
- Resolving.Resolver: the `visit` overloads declared for `IndexAssign`, `InExpr` and `RangedFor` (src/includes/Resolver.hpp:56-64) are not part of this model. Those nodes are not in the syntax tree. A `print` statement is resolved as nothing, since Resolver.cpp has no visit for it.
- Resolving.Resolver: the header names the return marker `rtrnWarnLine`, and Resolver.cpp calls it `rtrnLine`. The model follows Resolver.cpp.
- Parsing.Parser: the parser requires a token vector that ends with the EOF token. This is what the lexer hands over, and `isAtEnd` relies on it.
- Parsing.Parser.Sync is the corrected routine, because the one as written never ends (see Findings). Parser.cpp never calls it.
- The older `Interpreter` class embedded in src/includes/Expressions.hpp and the test driver `src/includes/test.cpp` are not part of this model.

## Findings

| source | as written | input that shows it | evidently intended | confidence | as-written member | corrected member |
|---|---|---|---|---|---|---|
| src/Parser.cpp:74-92 | the loop of `sync` tests `previous()` and `peek()` but never calls `advance()`, so unless it stops at once it never ends | the tokens `a b` then EOF, with the cursor at `a`: `a` is consumed and every turn then stays at `b` | move one token forward each turn, and stop after a `;`, before a statement keyword or at EOF | not executed | ParseSpec.SyncHangs | Parsing.Parser.Sync |
| src/src.cpp:33 | `requireNewLine` returns `count == 0 && withinQuotes` | `{`: the count is 1, outside a literal, so as written no further line is read and the block is run unfinished | `count != 0 \|\| withinQuotes`: another line while a bracket or a literal is open | not executed | Repl.AsWrittenRunsOpenBrace | Repl.NeedsNewLineCases |
