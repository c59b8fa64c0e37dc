# Lox pipeline model

A Dafny model of the language core of a TypeScript tree-walking interpreter
for Lox, a small dynamically typed scripting language. It covers the whole
pipeline from source text to output:

- **Scanner** (`scanner.dfy`): turns source text into tokens, one
  `scanToken` step at a time. It handles one- and two-character operators,
  comments, strings without escapes, decimal numbers, identifiers and
  keywords, and line counting. Errors accumulate as line diagnostics.
- **Parser** (`parser.dfy`): recursive descent over the token list, with
  the precedence ladder from assignment down to primary. `for` loops are
  desugared into `while`. Errors are reported with their token, after which
  the parser synchronises at the next statement boundary. A cursor
  (`Cursor`: position plus diagnostics) is threaded through every
  production.
- **Resolver** (`resolver.dfy`): the static pass over the scope stack.
  Names go through two phases, declared and then defined. It records
  scope distances for local references and reports:
  - a read of a local in its own initializer;
  - a duplicate local;
  - a `return` at top level.
- **Environment** (`environment.dfy`): frames live in an arena (a sequence
  of frames, each with an optional parent index). On it the model defines
  `get`/`assign`, which walk the parent chain, `ancestor`, and
  `getAt`/`assignAt`, which use a resolved distance.
- **Values and interpreter** (`values.dfy`, `interpreter.dfy`):
  - truthiness, equality and stringification;
  - unary and binary operators with their runtime type errors;
  - calls with arity checking and closures (`LoxFunction`);
  - blocks, `if`, `while`, `var`, `fun`, `print` and `return`;
  - the top-level `interpret` loop, which reports the first runtime error
    and stops.

`return` is an explicit outcome (`Returned`) rather than an exception, and
`print` appends the printed value to an output sequence. Both the evaluator
and the executor take a `fuel` bound so that every function terminates.

The property modules (`scanner_properties.dfy`, `parser_properties.dfy`,
`parser_statements.dfy`, `parser_examples.dfy`,
`interpreter_properties.dfy`, `resolver_properties.dfy`) state behaviour
that spans several steps: lexing rules, the tokens a parse consumes
(`Yields`: the tokens between two positions spell a tree, the grammar
read backwards), the sub-parses a statement is built from, worked parses
that fix associativity and precedence, short-circuiting, closure frames,
argument order, error propagation and the resolver's diagnostics.

In two places the code does something other than its names and
messages announce, and the model follows the code:
- No 255-argument limit is modelled for calls. The check in `finishCall`
  compares JavaScript's `arguments` object of the enclosing method, not the
  argument list, so it never fires.
- Calling `nil` is a host `TypeError`, not the language's "Can only call
  functions and classes." error, because the code reads `callee.call`
  before checking it.

## Model

| member | source | states |
|---|---|---|
| Scanner.WordKind | src/scanner.ts:126-131 | a scanned word is a keyword exactly when the whole word is in the reserved table, with that table's kind; otherwise it is an identifier |
| Scanner.SkipWhile | src/scanner.ts:127 | the loop stops at the first character outside the run (or the end); every character it passed belongs to the run |
| Scanner.Single | src/scanner.ts:48-77 | a one-character token consumes exactly one character and leaves the line unchanged |
| Scanner.Skip | src/scanner.ts:102-106 | a skipped character consumes exactly one character |
| Scanner.WithEqual | src/scanner.ts:78-93 | a one-or-two-character operator consumes one or two characters and keeps the line count exact |
| Scanner.SkipComment | src/scanner.ts:94-97 | a comment emits no token and no diagnostic, and its line count stays exact |
| Scanner.ScanString | src/scanner.ts:148-165 | a string scan advances and counts the newlines inside the literal |
| Scanner.ScanNumber | src/scanner.ts:133-146 | a number scan advances past at least its first digit without crossing a line |
| Scanner.ScanWord | src/scanner.ts:126-131 | a word scan advances past at least its first letter without crossing a line |
| Scanner.ScanPunctuation | src/scanner.ts:48-93 | each punctuation character always emits a token, never EOF, whose lexeme is exactly the consumed text, on the current line; its kind is given in PunctuationKinds |
| Scanner.ScanToken | src/scanner.ts:45-124 | one step always advances; the line grows by the newlines consumed; a token's lexeme is exactly the consumed text and its line is the current line; never EOF; never both a token and a diagnostic |
| Scanner.ScanFrom | src/scanner.ts:35-40 | the loop's tokens come in source order with non-overlapping spans; each lexeme is its span's text; none is EOF; each token's line counts the newlines before its end; which tokens they are is ScanFromFollowsSteps |
| Scanner.ScanTokens | src/scanner.ts:35-43 | the token list ends with exactly one EOF token, which carries one plus the number of newlines; every line lies between 1 and that; the tokens before it are the scan loop's from the start on line 1, which ScanFromFollowsSteps ties to the successive steps |
| ScannerProperties.NewlinesMonotone | src/scanner.ts:108-110 | the newline count of a prefix never exceeds that of a longer prefix |
| ScannerProperties.SpansOrdered | src/scanner.ts:35-40 | any earlier token ends before any later one starts, not just adjacent ones |
| ScannerProperties.LinesNeverDecrease | src/scanner.ts:35-43 | token line numbers never decrease along the token list |
| ScannerProperties.OperatorLookahead | src/scanner.ts:78-93 | `!`, `=`, `<`, `>` become their own two-character kind from the table (`<=` is LESS_EQUAL, and so on) exactly when `=` follows, consuming two characters, and their one-character kind otherwise |
| ScannerProperties.PunctuationKinds | src/scanner.ts:48-93 | every operator character is in exactly one of two kind tables, and its token is the one the tables give: one character for `(){},.-+;*`, one or two for `!=<>` depending on a following `=` |
| ScannerProperties.SingleCharacterTokens | src/scanner.ts:48-77 | each of `(){},.-+;*` scans to its own kind, one character long, on the current line, with no diagnostic |
| ScannerProperties.ScanFromFollowsSteps | src/scanner.ts:35-40 | the loop's tokens are exactly those of its successive `scanToken` calls: token k is the one the call at its span's start emits, the calls between two tokens and after the last emit nothing, so no token is dropped, invented or reordered |
| ScannerProperties.CommentStopsBeforeNewline | src/scanner.ts:94-97 | `//` skips to the next newline or the end of the source, without consuming the newline and without emitting anything |
| ScannerProperties.LoneSlash | src/scanner.ts:94-100 | a `/` not followed by `/` is a SLASH token of one character |
| ScannerProperties.WhitespaceEmitsNothing | src/scanner.ts:102-110 | blanks emit nothing and consume one character; only a newline advances the line |
| ScannerProperties.StringLiteralValue | src/scanner.ts:148-165 | a terminated string's value is the text strictly between the quotes and it stops at the first closing quote; an unterminated one runs to the end, emits no token and reports "Unterminated string." |
| ScannerProperties.NumberExtent | src/scanner.ts:133-146 | a number is a maximal digit run, optionally followed by `.` and a second non-empty digit run; the `.` is taken only when a digit follows it |
| ScannerProperties.ScanTokenOnDigit | src/scanner.ts:114-116 | a digit always starts a number scan |
| ScannerProperties.NumberRun | src/scanner.ts:133-146 | the number scan ends within the source and has the shape above |
| ScannerProperties.TrailingDotIsSeparate | src/scanner.ts:136 | `1.` scans as NUMBER 1, then DOT, then EOF: a trailing dot is not part of the number |
| ScannerProperties.TrailingDotFirstStep | src/scanner.ts:133-146 | the first step on `1.` emits only the number `1` |
| ScannerProperties.TrailingDotSecondStep | src/scanner.ts:63-65 | the second step on `1.` emits the DOT |
| ScannerProperties.WordExtent | src/scanner.ts:126-131 | a word is the longest alphanumeric run, and it is an identifier exactly when the whole run is not reserved |
| ScannerProperties.KeywordPrefixIsIdentifier | src/scanner.ts:126-131 | `orchid` scans as one identifier, not as the keyword `or` plus `chid` (longest match) |
| ScannerProperties.OrchidIsOneWord | src/scanner.ts:126-131 | one scan step consumes all of `orchid` as an identifier |
| ScannerProperties.UnexpectedCharacterContinues | src/scanner.ts:114-122 | an unrecognised character reports "Unexpected character c" on the current line and the scan goes on with the next character |
| Parser.AtEnd | src/parser.ts:432-434 | not being at EOF guarantees a further token exists |
| Parser.Check | src/parser.ts:418-423 | a successful check never matches the final EOF |
| Parser.CheckAny | src/parser.ts:402-410 | matching any kind of a set never matches the final EOF |
| Parser.Advance | src/parser.ts:425-430 | advancing moves one token forward, except at EOF, where it stays |
| Parser.Consume | src/parser.ts:412-416 | consume succeeds exactly when the current token has the expected kind, returning it and moving past it; otherwise it reports the message at the current token |
| Parser.Tighter | src/parser.ts:183-328 | each binary level's operands are parsed at the next tighter level |
| Parser.Expression | src/parser.ts:57-59 | an expression parse moves forward, reports on failure and yields a tree the grammar admits at assignment level; what the tree is, token by token, is `ParserProperties.ExpressionYields` |
| Parser.Assignment | src/parser.ts:163-181 | assignment yields a grammatical tree; the right-hand side is parsed by a recursive call, so `a = b = c` is `a = (b = c)` (`ParserExamples.AssignGroupsRight`) |
| Parser.AssignTarget | src/parser.ts:170-180 | a variable target gives an `Assign`, a property target gives a `Sett`; any other target reports "Invalid assignment target." and the target expression is kept |
| Parser.Infix | src/parser.ts:183-328 | each binary level yields a tree whose operators are at that level or tighter; its tokens are the tree's text (`ParserProperties.InfixYields`) |
| Parser.Operand | src/parser.ts:183-328 | an operand is parsed at the next tighter level |
| Parser.InfixRest | src/parser.ts:186-192 | the operator loop keeps the accumulated tree at its level, so chains group to the left (`ParserExamples.LoopOverNames`) |
| Parser.UnaryExpr | src/parser.ts:330-338 | `!` and `-` nest to the right over a unary operand; otherwise a call expression |
| Parser.CallExpr | src/parser.ts:359-377 | calls and property accesses chain on a primary expression |
| Parser.CallRest | src/parser.ts:362-375 | call and property suffixes accumulate to the left |
| Parser.Property | src/parser.ts:365-370 | `.name` builds a `Get` on the expression so far; a missing name is reported |
| Parser.FinishCall | src/parser.ts:340-357 | a call consumes its argument list and the closing parenthesis and keeps the callee |
| Parser.Arguments | src/parser.ts:342-352 | arguments are comma-separated expressions appended in order |
| Parser.Grouped | src/parser.ts:393-397 | a parenthesised expression becomes a grouping node |
| Parser.Primary | src/parser.ts:379-400 | a primary is a literal, `this`, an identifier or a group; any other token reports "Expect expression." |
| Parser.Parse | src/parser.ts:46-55 | parsing always completes at EOF and every statement it keeps is grammatical |
| Parser.ParseFrom | src/parser.ts:48-52 | the declaration loop only appends statements and stops at EOF |
| Parser.Declaration | src/parser.ts:61-70 | a declaration always makes progress before EOF; on a parse error it drops the statement, keeps the report and synchronises |
| Parser.DeclarationBody | src/parser.ts:62-66 | `class`, `fun` and `var` give a class, function or variable declaration named by the token after the keyword; anything else is a statement |
| Parser.Synchronize | src/parser.ts:449-469 | recovery skips at least one token, then stops at the first statement boundary (after a `;` or before a statement keyword) or at EOF |
| Parser.SkipToBoundary | src/parser.ts:452-468 | the skipping loop passes no boundary and stops at the first one or at EOF |
| Parser.ClassDeclaration | src/parser.ts:72-84 | a class declaration is a `Class` named by its first token; a missing name reports "Expect class name." |
| Parser.ClassBody | src/parser.ts:74-83 | the class keeps its name and its methods between braces |
| Parser.Methods | src/parser.ts:77-79 | methods are parsed until the closing brace or EOF |
| Parser.FunStatement | src/parser.ts:64 | `fun` gives a function declaration named by its first token; a missing name reports "Expect function name." |
| Parser.Function | src/parser.ts:234-259 | a function declaration keeps its name; a missing name reports "Expect <kind> name." |
| Parser.FunctionRest | src/parser.ts:236-258 | the declaration keeps its name and parses parameters and body |
| Parser.FunctionBody | src/parser.ts:255-258 | the body is a brace-delimited block and the declaration keeps name and parameters |
| Parser.CheckParameterCount | src/parser.ts:243-248 | a parameter list that already holds 255 or more entries reports "Can't have more than 255 parameters." and parsing goes on |
| Parser.Parameters | src/parser.ts:241-254 | parameters are identifiers appended in order; a list grown past the limit has reported |
| Parser.Statement | src/parser.ts:86-94 | `for` gives a desugared loop, `if` an `If`, `print` a `Print`, `return` a `Return` keeping its keyword, `while` a `While`, `{` a `Block`; anything else is an expression statement |
| Parser.BlockStatement | src/parser.ts:92 | a `{` starts a `Block` statement |
| Parser.DesugarFor | src/parser.ts:120-129 | a `for` becomes a `while` over the condition (`true` when omitted) whose body runs the original body then the increment, wrapped in a block with the initializer when there is one |
| Parser.DesugarForGrammatical | src/parser.ts:120-129 | desugaring grammatical clauses gives a grammatical statement |
| Parser.ForStatement | src/parser.ts:96-130 | `for` must be followed by `(` ("Expect '(' after 'for'." otherwise) and gives a desugared loop |
| Parser.ForClauses | src/parser.ts:106-118 | the condition and increment clauses are optional |
| Parser.ForIncrement | src/parser.ts:112-129 | the increment clause is followed by `)` and the body |
| Parser.ForInitializer | src/parser.ts:98-104 | the initializer is absent exactly when the clause is a bare `;`, and a variable declaration exactly when it starts with `var` |
| Parser.OptionalExpression | src/parser.ts:106-116 | an omitted clause (terminator next) parses to nothing without consuming |
| Parser.IfStatement | src/parser.ts:132-135 | `if` must be followed by `(` ("Expect '(' after 'if'." otherwise) and gives an `If` |
| Parser.IfBranches | src/parser.ts:136-143 | the then branch is the statement after the condition, an `else` branch is present exactly when `else` follows it, and the condition is kept |
| Parser.PrintStatement | src/parser.ts:146-150 | `print` gives a `Print` statement |
| Parser.ReturnStatement | src/parser.ts:152-161 | `return` keeps its keyword, and has no value exactly when `;` follows it |
| Parser.VarDeclaration | src/parser.ts:207-217 | `var` gives a `Var` named by the identifier after it, with an initializer exactly when `=` follows the name; a missing name reports "Expect variable name." |
| Parser.VarInitializer | src/parser.ts:210-213 | the initializer is present exactly when `=` is the current token, and is grammatical |
| Parser.WhileStatement | src/parser.ts:219-226 | `while` must be followed by `(` ("Expect '(' after 'while'." otherwise) and gives a `While` |
| Parser.ExpressionStatement | src/parser.ts:228-232 | any other statement gives an expression statement |
| Parser.BlockBody | src/parser.ts:261-273 | a `}` ends the block, is consumed and keeps the statements read so far; EOF instead reports "Expect '}' after block."; statements are only appended and are grammatical |
| ParserProperties.TermLeftAssociative | src/parser.ts:306-316 | the right operand of a parsed `+`/`-` is never an unparenthesised `+`, `-` or looser operator (a fact about tree shapes; the parse of `a - b - c` itself is `ParserExamples.MinusGroupsLeft`) |
| ParserProperties.AssignmentOnlyOnTheRight | src/parser.ts:163-205 | an operand of a parsed binary or logical operator is never an unparenthesised assignment |
| ParserProperties.CallsNestLeft | src/parser.ts:359-377 | the callee of a call and the object of a property access are never operator applications or assignments |
| ParserProperties.VariableIdsAreTokenIndices | src/parser.ts:389-391 | each parsed variable's id is the index of its own identifier token |
| ParserProperties.ExpressionYields | src/parser.ts:57-59 | a parse that reports nothing consumes exactly the source text of the tree it returns: the tokens from the start to the new position spell the tree, leaf by leaf and operator by operator |
| ParserProperties.AssignmentYields | src/parser.ts:163-181 | an assignment spells its target, `=` and the value |
| ParserProperties.InfixYields | src/parser.ts:183-328 | each binary level consumes exactly the text of the tree it builds |
| ParserProperties.InfixRestYields | src/parser.ts:186-192 | each loop iteration appends the operator token and the right operand's text to the text of the tree so far |
| ParserProperties.UnaryYields | src/parser.ts:330-338 | a prefix operator and its operand spell the unary tree |
| ParserProperties.CallExprYields | src/parser.ts:359-377 | a call expression consumes exactly the text of its tree |
| ParserProperties.CallRestYields | src/parser.ts:362-375 | each call or property suffix extends the text of the callee |
| ParserProperties.FinishCallYields | src/parser.ts:340-357 | the arguments and `)` complete the text of the call |
| ParserProperties.ArgumentsYields | src/parser.ts:342-352 | the arguments read are spelled in order, separated by commas |
| ParserProperties.PrimaryYields | src/parser.ts:379-400 | a literal, `this`, a name or a parenthesised expression consumes exactly its text |
| ParserProperties.GroupedYields | src/parser.ts:393-397 | `(`, the inner expression and `)` spell the grouping |
| ParserExamples.LoopOverNames | src/parser.ts:186-192 | a run of operator-name pairs folds to the left, one node per operator, and stops at the first token that does not continue the level |
| ParserExamples.NameRun | src/parser.ts:183-328 | a name followed by such a run parses at that level to the left-nested chain |
| ParserExamples.MinusGroupsLeft | src/parser.ts:306-316 | `a - b - c` parses to `(a - b) - c` |
| ParserExamples.AssignGroupsRight | src/parser.ts:163-181 | `a = b = c` parses to `a = (b = c)` |
| ParserExamples.PrefixBindsTighter | src/parser.ts:330-338 | `-a * b` parses to `(-a) * b` |
| ParserExamples.AndBindsTighter | src/parser.ts:183-205 | `a or b and c` parses to `a or (b and c)` |
| ParserExamples.CallOfProperty | src/parser.ts:359-377 | `a.b(c)` parses to a call of the property `b` of `a` with the argument `c` |
| ParserStatements.BlockBodyClosed | src/parser.ts:261-273 | a block that parsed has just consumed its closing `}` |
| ParserStatements.BlockStatementClosed | src/parser.ts:92 | `{ ... }` is the block of the declarations read up to its `}`, which it consumes |
| ParserStatements.PrintParts | src/parser.ts:146-150 | `print` succeeds exactly when an expression and `;` follow, and prints that expression |
| ParserStatements.ExpressionParts | src/parser.ts:228-232 | an expression statement succeeds exactly when `;` follows the expression, and wraps it |
| ParserStatements.ReturnParts | src/parser.ts:152-161 | `return` succeeds exactly when `;` follows the optional value, and carries that value and its keyword |
| ParserStatements.WhileParts | src/parser.ts:219-226 | the loop's condition is the expression inside the parentheses and its body the statement after them |
| ParserStatements.IfParts | src/parser.ts:132-143 | the condition is the expression inside the parentheses, and the branches are read after the `)` |
| ParserStatements.ElseParts | src/parser.ts:137-143 | an else branch is the statement after the `else` that follows the then branch |
| ParserStatements.VarParts | src/parser.ts:207-217 | the declared name is the token after `var`, the initializer the expression after `=`, and a `;` ends the declaration |
| ParserStatements.ForDesugars | src/parser.ts:96-130 | a `for` is `DesugarFor` of its initializer, its optional condition before the second `;`, its optional increment before `)` and the statement after it |
| ParserStatements.ForClausesParts | src/parser.ts:106-129 | the condition is the optional expression before `;`, then the increment and body follow |
| ParserStatements.ForIncrementParts | src/parser.ts:112-129 | the increment is the optional expression before `)`, and the body the statement after it |
| Values.LiteralValueOf | src/interpreter.ts:66-68 | a number literal evaluates to the rational its digits and scale denote |
| Values.Digit | src/interpreter.ts:223 | a digit character denotes its value |
| Values.NatToString | src/interpreter.ts:223 | a count prints as a non-empty string of digits |
| Values.NatToStringRoundTrip | src/interpreter.ts:223 | reading back the printed digits of a count gives the count |
| Values.Stringify | src/interpreter.ts:143-155 | nil prints `nil`, booleans `true`/`false`, strings verbatim, a function `<fn name>` (its `toString`, loxFunction.ts:27-29), the clock `<native fn>`, and an integral number its decimal digits; only non-integers or integers of magnitude 10^21 or more are left to floating-point formatting |
| Values.IsEqualIsStrictEquals | src/interpreter.ts:137-142 | equality coincides with strict equality once null and undefined are one value |
| Values.NilEqualsOnlyNil | src/interpreter.ts:138-139 | nil is equal only to nil, on either side |
| Values.IsEqualIsIdentity | src/interpreter.ts:137-142 | primitive values are equal when identical; functions when they are the same object |
| Values.IsEqualEquivalence | src/interpreter.ts:137-142 | equality is reflexive, symmetric and transitive |
| Environment.Chain | src/environment.ts:5-9 | the enclosing chain of a frame is a finite path of parent links ending at a root |
| Environment.Bind | src/environment.ts:19 | storing a name changes only that entry of one frame and keeps all parent links |
| Environment.Define | src/environment.ts:28-30 | define creates or overwrites the name in the given frame only |
| Environment.Get | src/environment.ts:10-16 | get fails only with "Undefined variable 'x'." |
| Environment.Assign | src/environment.ts:17-27 | assign fails only with the undefined-variable error and otherwise keeps the frame structure |
| Environment.Ancestor | src/environment.ts:31-38 | ancestor, when defined, is a frame of the arena |
| Environment.AncestorOnChain | src/environment.ts:31-38 | ancestor at distance d is the d-th frame of the enclosing chain, or missing past its end |
| Environment.GetAt | src/environment.ts:39-41 | getAt reads the ancestor's own entry and gives nil when the frame or entry is missing |
| Environment.AssignAt | src/environment.ts:42-44 | assignAt stores into the ancestor's own frame, and does nothing when the ancestor is missing |
| Environment.GetNearest | src/environment.ts:10-16 | get returns the value in the nearest frame of the chain that binds the name |
| Environment.GetUnbound | src/environment.ts:10-16 | get fails exactly when no frame of the chain binds the name |
| Environment.AssignNearest | src/environment.ts:17-27 | assign overwrites the entry in the nearest binding frame |
| Environment.AssignUnbound | src/environment.ts:17-27 | assign fails exactly when no frame of the chain binds the name |
| Environment.GetAtAgreesWithGet | src/environment.ts:39-41 | with the resolved distance of the nearest binding, getAt reads what get would find |
| Environment.AssignAtAgreesWithAssign | src/environment.ts:42-44 | with the resolved distance of the nearest binding, assignAt changes what assign would change |
| Interpreter.UnaryOp | src/interpreter.ts:99-111 | `!` gives the negated truthiness, `-` negates a number; an unknown operator gives nil |
| Interpreter.BinaryOp | src/interpreter.ts:156-202 | comparison and arithmetic operators other than `+` raise "Operands must be numbers." unless both operands are numbers, and on two numbers give the comparison, difference, product or quotient; `+` adds two numbers, joins two strings and otherwise raises "Operands must be two numbers or two strings."; `==`/`!=` are equality and its negation; errors carry the operator token |
| Interpreter.CallError | src/interpreter.ts:203-228 | a call goes ahead exactly for a function with a matching argument count; a non-callable raises "Can only call functions and classes."; a wrong count raises "Expected N args but got M." |
| Interpreter.DefineIn | src/environment.ts:28-30 | defining in the state keeps the state well-formed and changes only that frame |
| Interpreter.PushFrame | src/environment.ts:7-9 | a new frame is empty, encloses the given one, and leaves every older frame untouched |
| Interpreter.DefineParameters | src/loxFunction.ts:11-13 | binding parameters touches only the call frame and keeps its enclosing frame |
| Interpreter.BindKeepsGood | src/environment.ts:28-30 | storing a well-formed value keeps every frame link and stored value well-formed |
| InterpreterProperties.ParametersBound | src/loxFunction.ts:11-13 | parameter i is bound to argument i unless a later parameter has the same name |
| InterpreterProperties.OnlyParametersBound | src/loxFunction.ts:10-13 | the call frame binds nothing but parameter names |
| Interpreter.Eval | src/interpreter.ts:239-241 | evaluation keeps the state invariants; a literal gives its value and a grouping its inner expression's; a property read or write evaluates the object and then raises "Only instances have properties." / "Only instances have fields." at the name, unless the object raised first |
| Interpreter.Lift | src/interpreter.ts:156-202 | an operator's value or error becomes the evaluation's value or raised signal, in the unchanged state |
| Interpreter.EvalBinary | src/interpreter.ts:156-159 | the left operand is evaluated first and a raise there is the result; otherwise the right operand is evaluated from the state the left one left, a raise there is the result, and only then is the operator applied to both values |
| Interpreter.EvalLogical | src/interpreter.ts:69-79 | logical evaluation keeps the state invariants |
| Interpreter.LookUp | src/interpreter.ts:115-122 | a resolved reference reads getAt at its distance from the current frame; an unresolved one reads get from the globals |
| Interpreter.GetFoundOk | src/environment.ts:10-16 | a value found by get is well-formed |
| Interpreter.EvalAssign | src/interpreter.ts:323-332 | the value is evaluated first and is the result; it is stored with `assignAt` at the resolved distance or with `assign` in the globals, where reading the name back finds it; an unbound global raises the undefined-variable error |
| Interpreter.GetAtAfterAssignAt | src/environment.ts:39-44 | reading back at the distance just assigned gives the stored value |
| Interpreter.GetAfterAssign | src/environment.ts:10-27 | after a successful `assign`, `get` of the same name finds the new value |
| Interpreter.AssignAtKeepsGood | src/environment.ts:42-44 | assignAt keeps the state well-formed |
| Interpreter.AssignKeepsGood | src/environment.ts:17-27 | assign keeps the state well-formed |
| Interpreter.EvalCall | src/interpreter.ts:203-228 | the callee first, then the arguments from its state; a raise in either is the call's result; a failed callable or arity check raises its signal after the arguments; otherwise the call's value is the function's `Invoke` result |
| Interpreter.EvalArgs | src/interpreter.ts:206-209 | evaluating the arguments gives one well-formed value per argument, and nothing for no arguments (the value-by-value correspondence is `InterpreterProperties.EvalArgsNth`) |
| Interpreter.Invoke | src/loxFunction.ts:9-22 | the body runs in a fresh frame enclosed by the closure; a `return v` makes `v` the call's value, a body that completes gives nil, and a raised signal propagates unchanged |
| Interpreter.CallFrame | src/loxFunction.ts:10-13 | the call frame is a new frame enclosed by the closure; every older frame and the output are unchanged |
| Interpreter.Exec | src/interpreter.ts:243-245 | execution keeps the state invariants; an expression statement discards its value, `print` appends the value to the output, `return` ends with its value (nil when bare), `fun` binds a new function closed over the current frame, a class is unsupported; a raise in the expression aborts with that signal |
| Interpreter.ExecVar | src/interpreter.ts:307-314 | `var x;` defines x as nil in the current frame; `var x = e` evaluates e first, defines x as its value in the current frame, or propagates its raise without defining x |
| Interpreter.ExecBlock | src/interpreter.ts:263-265 | a block's statements run, as a statement list, in a fresh frame `|st.arena|` whose enclosing frame is the current one |
| Interpreter.ExecIf | src/interpreter.ts:290-296 | a truthy condition runs the then branch, a falsy one the else branch or nothing, each from the state the condition left; a raising condition aborts with its signal |
| Interpreter.ExecWhile | src/interpreter.ts:316-321 | the condition is evaluated before every iteration: falsy completes, truthy runs the body, and a body that completed loops again from the state it left; a return or raise in the body ends the loop with it |
| Interpreter.ExecStmts | src/interpreter.ts:255-257 | a statement sequence keeps the state invariants, and the empty one completes at once; its sequencing is ExecStmtsAppend |
| Interpreter.Interpret | src/interpreter.ts:53-65 | a run starts from the globals holding `clock` and only extends that state |
| Interpreter.InterpretFrom | src/interpreter.ts:55-57 | the statement loop only extends the state |
| InterpreterProperties.NotEqualNegatesEqual | src/interpreter.ts:194-197 | `!=` is always the negation of `==` |
| InterpreterProperties.LogicalShortCircuit | src/interpreter.ts:69-79 | `or`/`and` return the left value when it decides the result, without evaluating the right; otherwise they return the right operand's evaluation |
| InterpreterProperties.BinaryLeftRaises | src/interpreter.ts:157-158 | when the left operand raises, the right operand is never evaluated |
| InterpreterProperties.ArityCheckedBeforeCall | src/interpreter.ts:220-225 | a function called with the wrong number of arguments raises "Expected N args but got M." after evaluating the arguments |
| InterpreterProperties.CallingNonFunction | src/interpreter.ts:211-216 | calling a boolean, number or string raises "Can only call functions and classes." |
| InterpreterProperties.CallFrameEnclosedByClosure | src/loxFunction.ts:10 | a call's frame is enclosed by the closure's frame, not the caller's |
| InterpreterProperties.GetIgnoresNewerFrames | src/environment.ts:10-16 | get from a frame only reads that frame and older ones |
| InterpreterProperties.BlockDeclarationStaysInside | src/interpreter.ts:251-265 | a `var` at the head of any block evaluates its initializer in the block's frame, binds the name there and in no other frame, leaves what the enclosing frame sees unchanged, and the rest of the block runs from there; a raising initializer ends the block |
| InterpreterProperties.ExecStmtsAppend | src/interpreter.ts:251-261 | two statement lists in one frame: the second runs from the first's state exactly when the first completed, otherwise the first's return or raise is the result |
| InterpreterProperties.ResolvedLookUpAgrees | src/interpreter.ts:115-122 | with a correct resolved distance, the fast lookup gives what a chain walk would |
| InterpreterProperties.ReturnSkipsRest | src/interpreter.ts:301-306 | after a `return` the rest of the sequence never runs |
| InterpreterProperties.EmptyReturnYieldsNil | src/loxFunction.ts:14-22 | a function with an empty body or a bare `return` yields nil |
| InterpreterProperties.ReturnValueIsCallResult | src/loxFunction.ts:14-21 | a body starting with `return e` gives the call the value of `e` in the call frame, or propagates the signal `e` raises; the rest of the body never runs |
| InterpreterProperties.WhileFalseSkipsBody | src/interpreter.ts:316-321 | a loop whose condition is falsy never runs its body |
| InterpreterProperties.EvalArgsCons | src/interpreter.ts:206-209 | the first argument is evaluated first; a raise there stops the rest, otherwise the rest are evaluated from the state it left and its value comes first |
| InterpreterProperties.EvalArgsAppend | src/interpreter.ts:206-209 | evaluating `a + b` evaluates `a`, then `b` from the state `a` left, and concatenates the values; a raise in `a` means `b` is never evaluated |
| InterpreterProperties.EvalArgsNth | src/interpreter.ts:206-209 | value `i` passed to a call is the value of argument `i`, evaluated in the state the arguments before it left |
| InterpreterProperties.InterpretAppend | src/interpreter.ts:53-65 | running two statement lists in a row is running the first and, only if it finished, the second from where it left off |
| InterpreterProperties.FirstErrorStops | src/interpreter.ts:58-63 | the first statement that raises is reported and nothing after it runs |
| InterpreterProperties.InitialGlobals | src/interpreter.ts:45-51 | a fresh interpreter's only frame binds only `clock`, a native of arity zero |
| Resolver.Report | src/resolver.ts:59-62 | a report appends one diagnostic and changes nothing else |
| Resolver.BeginScope | src/resolver.ts:46-48 | a new scope is an empty innermost scope |
| Resolver.EndScope | src/resolver.ts:50-52 | ending a scope drops the innermost one, and does nothing on an empty stack |
| Resolver.SetInnermost | src/resolver.ts:64 | marking a name changes only the innermost scope |
| Resolver.Declare | src/resolver.ts:54-65 | at global scope nothing happens; otherwise the name is marked declared-not-defined in the innermost scope, and a name already there is reported as a duplicate |
| Resolver.Define | src/resolver.ts:67-70 | at global scope nothing happens; otherwise the name is marked defined in the innermost scope |
| Resolver.Innermost | src/resolver.ts:72-79 | the search finds the innermost scope binding the name, or none |
| Resolver.ResolveLocal | src/resolver.ts:72-79 | a name in some scope records the distance to the innermost such scope; a name in none records nothing |
| Resolver.ResolveExpr | src/resolver.ts:129-181 | resolving an expression keeps the scope stack and function kind, only appends diagnostics and only adds distances |
| Resolver.ResolveOperands | src/resolver.ts:134-137 | both operands are resolved, left then right |
| Resolver.ResolveExprs | src/resolver.ts:141-143 | arguments are resolved in order |
| Resolver.ResolveVariable | src/resolver.ts:161-173 | a read of a name the innermost scope has declared but not defined reports "Can't read local variable in its own initializer."; the read is resolved either way |
| Resolver.ResolveStmt | src/resolver.ts:81-127 | a statement keeps the depth of the scope stack and all but the innermost scope |
| Resolver.ResolveBlock | src/resolver.ts:81-85 | a block restores the scope stack exactly |
| Resolver.ResolveReturn | src/resolver.ts:107-114 | `return` outside a function reports "Can't return from top-level code."; a bare `return` inside one changes nothing |
| Resolver.ResolveVar | src/resolver.ts:116-122 | after `var x` the name is defined in the innermost scope |
| Resolver.ResolveStmts | src/resolver.ts:40-44 | a statement list keeps the scope stack's depth and outer scopes |
| Resolver.DeclareParameters | src/resolver.ts:187-190 | every parameter ends up defined in the function's scope |
| Resolver.ResolveFunction | src/resolver.ts:183-194 | after a function the scope stack and the enclosing function kind are restored exactly |
| Resolver.Resolve | src/resolver.ts:40-44 | resolving a program ends with an empty scope stack at top level |
| ResolverProperties.OwnInitializerInBlock | src/resolver.ts:116-122 | `{ var a = a; }` reports exactly one own-initializer error and restores the scopes |
| ResolverProperties.OwnInitializerAtGlobalScope | src/resolver.ts:161-173 | the same declaration at global scope is not an error and changes nothing |
| ResolverProperties.LocalRecursion | src/resolver.ts:91-95 | a local function may call itself; the call resolves to distance 1 |
| ResolverProperties.ReturnAtTopLevel | src/resolver.ts:107-110 | a top-level `return` gives exactly the top-level-return error |
| ResolverProperties.ReturnInsideFunction | src/resolver.ts:183-194 | a `return` inside a function is no error and the function kind is restored |
| ResolverProperties.DuplicateLocal | src/resolver.ts:54-65 | declaring a name twice in one block reports the second declaration |
| ResolverProperties.ResolveExprsAppend | src/resolver.ts:141-143 | resolving `a + b` resolves `a` and then `b` from the state `a` left, so every diagnostic of `a` comes before every diagnostic of `b` |

## Left out

- Classes, instances, `this`, `super` and method binding. The resolver
  has no visitor for class statements or for property, `this` and
  `super` expressions, so it gives a failure there. The interpreter
  gives `Unsupported` for class declarations and `super`. Property get
  and set always raise "Only instances have properties." and "Only
  instances have fields.", because no instance can exist.
  `LoxClass.ts` and `LoxInstance.ts` are not part of this model.
- Floating-point arithmetic. Numbers are exact reals, so there is no
  rounding, overflow, Infinity or NaN. Division by zero, which gives an
  Infinity or NaN in the source, is `Unsupported`; any other quotient is
  the exact one. Printing a non-integer number is left out as well
  (`Stringify` gives none).
- The native `clock`: it reads the wall clock, so calling it gives
  `Unsupported`.
- `console.log`: printed values are appended to an output sequence
  instead of being written to the console.
- Reporting diagnostics (`error.ts`): diagnostics are collected in a
  list. The parser imports a `showErrorWithToken` that `error.ts` does not
  export; the model records a diagnostic with that token and message, as
  the name intends. Likewise the interpreter imports and calls a
  `runtimeError` (interpreter.ts:2 and :62) that `error.ts` does not
  export; the model reports the signal as the run's outcome.
- The command-line entry point (`index.ts`), the AST printer and the
  AST generator.
- `Expr.ts` and `LoxFun.ts`: these are older copies. The interpreter
  imports `LoxFun`, but the model follows `loxFunction.ts`.
- `return.ts`: a `return` is an explicit `Returned` outcome, not a
  thrown `ReturnException`.
- JavaScript `null` and `undefined` are one value, `Nil`. Every
  operation in the core treats them alike.
- The enumeration file of token types is not part of this model. The
  keyword lookup assumes that no keyword's kind is a falsy enum value.
- Interpreter.Interpret: a `fuel` bound limits evaluation depth and loop
  iterations. A program that needs more runs out with `OutOfFuel`, which
  the source never raises.
- Interpreter.UnaryOp: `-` on a non-number gives `Unsupported`. It does
  not model JavaScript's `Number()` coercion (`-true`, `-"3"`, `-nil`).
- Interpreter.BinaryOp: arithmetic and comparison results are exact real
  arithmetic, and division by zero is `Unsupported`; floating-point
  rounding is not modelled.
- Values.IsEqualEquivalence: it holds of the exact-real model. In the
  source `nan == nan` is false (NaN arises from `(1/0) - (1/0)`), so
  equality is not reflexive there; the model has no NaN.
- Scanner.ScanTokens: the source walks a JavaScript string by UTF-16 code
  units, the model by Unicode scalar values. A character outside the
  Basic Multilingual Plane is one character here but two code units
  there: an unexpected one gives two diagnostics in the source and one in
  the model, and lexeme offsets differ after it.
- Interpreter.CallError: calling `nil` gives a `HostError` (a JavaScript
  `TypeError`), not a language error.
- Resolver.ResolveReturn: the contract gives the two cases as separate
  implications, not as one equivalence.
- Parser.FinishCall: it does not model a limit on the number of
  arguments. The check in the source tests the enclosing method's own
  `arguments` object, so it never fires.
- InterpreterProperties.ResolvedLookUpAgrees: the agreement between the
  resolver's recorded distance and the frame a chain walk would find is a
  precondition, not derived from `Resolver.Resolve`. Relating the
  resolver's scope stack to the interpreter's frames at run time would
  need a simulation between the two passes, which this model does not
  build.
- Resolver.Report: as written, the resolver imports `Lox` from the
  package index, which exports nothing, so its first `Lox.errorWithToken`
  call (resolver.ts:59, 109, 166) throws a JavaScript `TypeError` and
  resolution stops there. The model follows the evident intent: the
  diagnostic is appended and resolution goes on.
- Scanner.ScanFrom: the diagnostics are tied to the steps one step at a
  time (`UnexpectedCharacterContinues`, `StringLiteralValue`), not as a
  whole list; their order in the loop's result is not stated.
- ParserProperties.ExpressionYields: the tie to the tokens is stated for
  a parse that reported nothing (`Clean`). A parse that reported an
  invalid assignment target keeps the target alone, so its tree does not
  spell all the tokens it consumed.
