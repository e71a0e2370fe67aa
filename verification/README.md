# A verified model of the Lox interpreter pipeline

This project models the final tree-walking interpreter for the Lox language, from
*Crafting Interpreters*, as written in Kotlin under `src/com/sabino/lox/`. It covers
the four passes a program goes through, plus the runtime objects they use:

- **Scanner** (`scanner.dfy`, module `Scanner`). One left-to-right pass from source
  text to tokens. It uses maximal munch for the two-character operators, drops `//`
  comments, and counts lines. It handles strings, numbers, identifiers and keywords,
  and reports unexpected characters and unterminated strings.
- **Parser** (`parser.dfy`, module `Parser`). Recursive descent with one function per
  precedence level. It desugars `for` into `while` and recovers from errors with
  `synchronize`. A thrown `ParserError` is the `Fail` outcome of a grammar function.
  Reported errors are a list that is only ever appended to.
- **Expression round trip** (`roundtrip.dfy`, module `RoundTrip`). Reads the expression
  grammar backwards. `Spells` says which token lists spell a tree, and `Print` lays out
  a tree's tokens in source order. The lemmas prove that the grammar functions read
  back exactly the tree the tokens spell.
- **Resolver** (`resolver.dfy`, module `Resolver`). A static pass over a stack of
  scopes. It records, for every local reference, how many scopes out its binding
  lives. It reports misuse of `this`, `super` and `return`, reads of a variable in its
  own initializer, and a class that inherits from itself. What the pass records in its
  side table is stated against the references a tree holds in `recording.dfy` (module
  `Recording`).
- **Environment chain** (`environment.dfy`, module `Environment`). Frames live in an
  arena keyed by frame id, and each frame points to its enclosing frame. The module
  provides `define`, `get`, `assign`, `ancestor`, `getAt` and `assignAt`.
- **Evaluator** (`interpreter.dfy`, module `Interpreter`). Covers:
  - truthiness, equality and operator type checks;
  - short-circuit logic;
  - calls, arity and the `Return` signal;
  - classes, including the superclass scope, instances, fields, `bind` and `super`.

  Runtime values and the class and instance behaviour of `types/LoxClass.kt`,
  `types/LoxInstance.kt` and `types/LoxFunction.kt` are in `values.dfy` (module
  `Values`).
- **State invariant** (`soundness.dfy`, module `Soundness`). One lemma per evaluator
  function proves that evaluation keeps the state sound (`Interpreter.Sound`). Every
  frame links to an existing, older enclosing frame, and every value held or returned
  reaches only existing frames. So the environment walks follow exactly the links the
  source's `Environment` objects have.
- Shared data lives in three more files:
  - tokens in `tokens.dfy`;
  - the syntax tree in `ast.dfy`, transcribed from `types/Expr.kt` and `types/Stmt.kt`;
  - `Option` and `Result` in `wrappers.dfy`.

Everything is a pure function over immutable data:

- The scanner and the parser take a sequence and a cursor.
- The resolver threads a state holding the scope stack, the current function and class
  kinds, the side table of distances and the error list.
- The evaluator threads a state holding the frame arena, the instance heap, an
  allocation counter, the current frame and the printed output.
- `println` becomes an output trace.
- `Lox.error` and `Lox.runtimeError` become error lists or a run's ending.
- Object identity, which keys the interpreter's side table, is modelled by ids:
  - a reference node carries the index of its name token;
  - a frame, instance or class carries the allocation counter's value at its creation.

## Model

| member | source | states |
|---|---|---|
| Scanner.ScanTokens | src/com/sabino/lox/Scanner.kt:30-37 | The tokens are exactly those the per-lexeme scan `ScanFrom` emits from the start of the source on line 1, followed by one EOF token with empty lexeme, no literal and line 1 + the number of newlines. The errors are exactly the ones that scan reports. No earlier token is EOF, token lines never decrease, and every error line lies between 1 and the final line. |
| Scanner.ScanFrom | src/com/sabino/lox/Scanner.kt:30-34 | The scan from a position on a given line emits only non-EOF tokens, in non-decreasing line order, and every token and error line lies between the starting line and that line plus the newlines still ahead. |
| Scanner.ScanFromStep | src/com/sabino/lox/Scanner.kt:31-34 | The scan from a position is the current lexeme's token and error, if any, followed by the scan from where that lexeme ends, on the line it ends on. So scanning continues after an unexpected character. |
| Scanner.ScanLexemes | src/com/sabino/lox/Scanner.kt:31-34 | The `while (!isAtEnd())` loop collects exactly the tokens and errors of `ScanFrom` from the start on line 1, and ends on line 1 + the number of newlines. |
| Scanner.WholeScan | src/com/sabino/lox/Scanner.kt:30-37 | Over the whole source no scanned token is EOF, every token line is at most the final line, and every error line lies between 1 and the final line. |
| Scanner.ScanToken | src/com/sabino/lox/Scanner.kt:43-69 | Each step consumes at least one character and raises the line by exactly the newlines it consumed. A token it adds is never EOF, its lexeme is exactly the consumed text, and it carries the line current when it was added. An error adds no token. |
| Scanner.ScanOperator | src/com/sabino/lox/Scanner.kt:55-58 | `!`, `=`, `<` and `>` take the next character if and only if it is `=`, giving `BANG_EQUAL`, `EQUAL_EQUAL`, `LESS_EQUAL` or `GREATER_EQUAL`; otherwise they give the one-character token. |
| Scanner.ScanSlash | src/com/sabino/lox/Scanner.kt:100-107 | `//` skips every character up to, but not including, the next newline or the end, and emits no token. A lone `/` emits `SLASH`. |
| Scanner.ScanString | src/com/sabino/lox/Scanner.kt:109-124 | A token is emitted if and only if a closing quote follows. Without one, the rest of the source is consumed and "Unterminated string." is reported. With one, the lexeme includes both quotes and the literal is the text strictly between them. The line grows by the newlines inside the string. |
| Scanner.ScanNumber | src/com/sabino/lox/Scanner.kt:139-147 | A number is a maximal digit run. It continues past a `.` if and only if a digit follows the dot, and it then ends at the end of the second maximal digit run. |
| Scanner.ScanIdentifier | src/com/sabino/lox/Scanner.kt:149-157 | An identifier is the maximal alphanumeric run. It is the keyword token when the text is in the 16-entry table, and `IDENTIFIER` otherwise. |
| Scanner.ScanSimple | src/com/sabino/lox/Scanner.kt:44-67 | Single-character tokens map to their kind. Spaces, tabs and carriage returns add nothing, and a newline only counts the line. Any other character is reported as "Unexpected character 'c'." and skipped, with no token. |
| Parser.Advance | src/com/sabino/lox/Parser.kt:499-506 | The cursor moves one token forward, except at EOF, where it stays. |
| Parser.Consume | src/com/sabino/lox/Parser.kt:472-476 | Succeeds exactly when the next token has the expected kind, so it always fails at EOF. On success it returns that token and moves past it. On failure it reports the message at the next token, throws, and does not move. |
| Parser.Synchronize | src/com/sabino/lox/Parser.kt:521-532 | Away from EOF it always moves forward, and it stops at the first position that is EOF, directly after a `;`, or before a class, fun, var, for, if, while, print or return keyword. It reports nothing. |
| Parser.ParseExpression | src/com/sabino/lox/Parser.kt:306-308 | On success the cursor has moved and the tree is well nested: binary and logical chains nest to the left, and assignment and unary nest to the right. On a throw an error has been reported. Which tree a token list gives is stated by RoundTrip.ParseReadsSpelled and RoundTrip.PrintThenParse. |
| Parser.Assignment | src/com/sabino/lox/Parser.kt:310-325 | An assignment parses to a well-nested expression of binding level at least 1. The right-hand side is parsed recursively, so assignment nests to the right. Its parts are stated by AssignmentParts. |
| Parser.AssignTarget | src/com/sabino/lox/Parser.kt:312-323 | A `Variable` target gives `Assign` and a `Get` target gives `Set`. Any other target reports "Invalid assignment target." at the `=` and returns the left expression without throwing. |
| Parser.AssignmentParts | src/com/sabino/lox/Parser.kt:310-325 | Without a following `=`, the result is the `or` level's expression. With one, the right side is the assignment parsed after the `=`: its throw is the outcome, and otherwise the result is AssignTarget of the left expression, the `=` token and that right side. |
| Parser.Level | src/com/sabino/lox/Parser.kt:327-390 | `or`, `and`, equality, comparison, addition and multiplication each yield a well-nested tree. The left operand of a node binds at least as tightly as the node, and the right operand binds strictly more tightly, so chains nest to the left. Its parts are stated by LevelParts and LevelRestParts. |
| Parser.LevelNode | src/com/sabino/lox/Parser.kt:330-333 | One loop step builds a node whose operands and operator are exactly those parsed. The node is `Logical` for `or` and `and`, and `Binary` for the other levels. |
| Parser.LevelParts | src/com/sabino/lox/Parser.kt:327-390 | A binary level is its first operand, parsed by the next level up or by `unary` after multiplication, folded by the operator loop. A throw in the first operand is the outcome. |
| Parser.LevelRestParts | src/com/sabino/lox/Parser.kt:330-334 | At an operator of the level, the loop parses the operand one level up after it and continues with LevelNode of the tree so far, that operator token and the operand; a throw in the operand is the outcome. At any other token the loop returns the tree so far, with the cursor unmoved. |
| Parser.UnaryExpr | src/com/sabino/lox/Parser.kt:392-399 | `!` and `-` prefix a recursively parsed unary expression, so they nest to the right. The node built is stated by UnaryParts. |
| Parser.UnaryParts | src/com/sabino/lox/Parser.kt:392-399 | After `!` or `-`, the result is `Unary` of that operator token and the unary expression parsed after it, and it throws exactly when that expression does. Otherwise the result is the call expression at the cursor. |
| Parser.CallExpr | src/com/sabino/lox/Parser.kt:401-414 | The postfix chain folds to the left over the primary it starts from: the innermost callee or object of the result is the parsed primary. Its parts are stated by CallExprParts and CallRestParts. |
| Parser.CallExprParts | src/com/sabino/lox/Parser.kt:401-402 | A throw in the primary is the outcome. Otherwise the result is the suffix loop run over the primary, from where the primary ends. |
| Parser.CallRest | src/com/sabino/lox/Parser.kt:403-412 | Each `(...)` or `.name` wraps everything parsed so far. When no suffix follows, the expression is returned unchanged. Each round is stated by CallRestParts. |
| Parser.CallRestParts | src/com/sabino/lox/Parser.kt:403-412 | After `(`, the loop continues with the call FinishCall builds over the expression so far. After `.`, an identifier must follow, and the loop continues with `Get` of the expression so far and that identifier token. A failed suffix throws, and any other token ends the loop with the expression unchanged. |
| Parser.FinishCall | src/com/sabino/lox/Parser.kt:416-428 | Succeeds exactly when the argument list parses and `)` follows it. The node is then `Call` of the callee, that `)` token and the parsed arguments, the cursor is just past the `)`, and no error is added after the arguments. |
| Parser.ArgumentList | src/com/sabino/lox/Parser.kt:417-425 | The argument list is empty exactly when `)` follows the `(`. |
| Parser.Arguments | src/com/sabino/lox/Parser.kt:419-424 | Each loop iteration appends one argument to those already collected, keeping them in order. The argument appended is stated by ArgumentsParts. |
| Parser.ArgumentsParts | src/com/sabino/lox/Parser.kt:419-424 | The argument appended is the expression parsed at the cursor, after the 255-argument check. A `,` after it continues the loop, and otherwise the list ends there. |
| Parser.ArgumentListReportsLimit | src/com/sabino/lox/Parser.kt:420-423 | A successfully parsed list of more than 255 arguments has reported "Cannot have more than 255 arguments." without throwing. |
| Parser.ParameterList | src/com/sabino/lox/Parser.kt:257-265 | Parameters are identifiers, and the list is empty exactly when `)` follows the `(`. |
| Parser.Parameters | src/com/sabino/lox/Parser.kt:259-264 | Each loop iteration appends one identifier to those already collected, keeping them in order. Which tokens are collected is stated by ParametersAt. |
| Parser.ParametersAt | src/com/sabino/lox/Parser.kt:259-264 | The parameters collected are exactly the tokens at every other position from the cursor, with a `,` between each two, and the cursor ends just past the last of them. |
| Parser.ParameterListReportsLimit | src/com/sabino/lox/Parser.kt:260-263 | A successfully parsed list of more than 255 parameters has reported "Cannot have more than 255 parameters." without throwing. |
| Parser.Primary | src/com/sabino/lox/Parser.kt:430-460 | A primary is never a call or property access. A throw always comes after a reported error. The choice of node is stated by PrimaryParts. |
| Parser.PrimaryParts | src/com/sabino/lox/Parser.kt:430-460 | `super` gives the `super.name` expression parsed after it, and `(` gives the grouping parsed after it. A one-token primary gives Atom's node, with the cursor just past its token. Any other token reports "Expected expression" at that token and throws. |
| Parser.Atom | src/com/sabino/lox/Parser.kt:431-452 | A `false`, `true`, `nil`, number or string token gives `Literal` of its value, `this` gives `This` of the token, and an identifier gives `Variable` of the token, both with the token's index as id. Any other token gives nothing. |
| Parser.SuperExpr | src/com/sabino/lox/Parser.kt:439-444 | `super` must be followed by `.` and an identifier. Both are consumed, and the node carries the keyword and the method name. |
| Parser.GroupingExpr | src/com/sabino/lox/Parser.kt:454-458 | Succeeds exactly when an expression parses after the `(` and `)` follows it. The node is then `Grouping` of that expression, and the cursor is just past the `)`. |
| Parser.DesugarFor | src/com/sabino/lox/Parser.kt:199-224 | `for (I; C; U) S` becomes `Block[I, While(C, Block[S, Expression(U)])]`. The outer block is omitted when there is no initializer, the inner block is omitted when there is no increment, and the condition defaults to `Literal(true)`. |
| Parser.DesugarForWellFormed | src/com/sabino/lox/Parser.kt:199-224 | Desugaring well-formed clauses and body gives a well-formed statement. |
| Parser.ForStatement | src/com/sabino/lox/Parser.kt:165-226 | A `for` statement parses to a well-formed `Block` or `While`, moving the cursor, or throws after reporting. Its exact value is stated by ForStatementParts. |
| Parser.ForStatementParts | src/com/sabino/lox/Parser.kt:165-226 | A parsed `for` is exactly `DesugarFor` of the initializer, condition and increment the header parsed and of the body statement parsed after it. The cursor ends where the body ends. |
| Parser.ForHeader | src/com/sabino/lox/Parser.kt:179-197 | The three clauses are parsed in order, and each one present is well formed. |
| Parser.ForInitializer | src/com/sabino/lox/Parser.kt:181-185 | The initializer is absent after `;`, a `var` declaration after `var`, and an expression statement otherwise. |
| Parser.ClauseThen | src/com/sabino/lox/Parser.kt:187-191 | The clause is absent exactly when the terminator comes next, and the terminator is consumed. |
| Parser.IfStatement | src/com/sabino/lox/Parser.kt:294-304 | An `if` statement parses to a well-formed `If` node, moving the cursor, or throws after reporting. Its parts are stated by IfStatementParts. |
| Parser.IfStatementParts | src/com/sabino/lox/Parser.kt:294-304 | A parsed `if` has `(`, then a condition that parses, then `)`. Its condition is that expression, and the rest is what the branches after `)` give. |
| Parser.IfBranches | src/com/sabino/lox/Parser.kt:298-303 | The `If` node carries exactly the condition parsed before the branches. The branches are stated by IfBranchesParts. |
| Parser.IfBranchesParts | src/com/sabino/lox/Parser.kt:298-303 | The then-branch is the statement parsed first, the else-branch is exactly what `ElseBranch` returns after it, and the cursor ends where that does. |
| Parser.ElseBranch | src/com/sabino/lox/Parser.kt:299-302 | The else branch is present exactly when `else` comes next. |
| Parser.ElseBranchParts | src/com/sabino/lox/Parser.kt:299-302 | A present else-branch is the statement parsed after `else`, and the cursor ends where that statement ends. |
| Parser.PrintStatement | src/com/sabino/lox/Parser.kt:228-232 | Succeeds exactly when an expression parses and `;` follows it. The result is then `Print` of that expression, and the cursor is just past the `;`. |
| Parser.ReturnStatement | src/com/sabino/lox/Parser.kt:234-244 | The node carries the `return` keyword. Its value is absent exactly when `;` follows the keyword. |
| Parser.WhileStatement | src/com/sabino/lox/Parser.kt:275-282 | A `while` statement parses to a well-formed `While` node, moving the cursor, or throws after reporting. Its parts are stated by WhileStatementParts. |
| Parser.WhileStatementParts | src/com/sabino/lox/Parser.kt:275-282 | A parsed `while` has `(`, a condition, `)` and a body statement, and is exactly `While` of that condition and body. The cursor ends where the body ends. |
| Parser.ExpressionStatement | src/com/sabino/lox/Parser.kt:246-250 | Succeeds exactly when an expression parses and `;` follows it. The result is then `Expression` of that expression, and the cursor is just past the `;`. |
| Parser.VarDeclaration | src/com/sabino/lox/Parser.kt:127-137 | On success the next token was an identifier, and the result is what the rest of the declaration gives with that token as the name. |
| Parser.VarRest | src/com/sabino/lox/Parser.kt:130-136 | On success `;` follows the optional initializer, and the result is `Var` of the name and exactly that initializer. The cursor is just past the `;`. |
| Parser.VarInitializer | src/com/sabino/lox/Parser.kt:130-133 | An initializer is present exactly when `=` comes next. It is then the expression parsed after `=`. Without one, the cursor does not move. |
| Parser.Statement | src/com/sabino/lox/Parser.kt:139-163 | Every statement form parses to a well-formed statement, moving the cursor, or throws after reporting. `statement` never yields a `var`, class or function declaration. The dispatch is stated by StatementDispatch. |
| Parser.StatementDispatch | src/com/sabino/lox/Parser.kt:139-163 | The first token chooses the form: `for`, `if`, `print`, `return` and `while` give their statement parsed after the keyword, `{` gives `Block` of the block parsed after it, and any other token gives an expression statement parsed from that token. |
| Parser.ParseBlock | src/com/sabino/lox/Parser.kt:284-292 | On success the cursor has moved and every statement of the block is well formed. The statements themselves are stated by ParseBlockRuns. |
| Parser.ParseBlockRuns | src/com/sabino/lox/Parser.kt:284-292 | A block succeeds exactly when the run of `declaration` from its first token stops at `}`. Its statements are then exactly the declarations that run kept, in order, and the cursor is just past the `}`. |
| Parser.BlockRestRuns | src/com/sabino/lox/Parser.kt:286-289 | The block loop appends to what it has collected exactly the declarations that the run from its position keeps, in order. |
| Parser.FunctionDecl | src/com/sabino/lox/Parser.kt:252-273 | On success the function is named by the token after `fun` and is well formed, and the cursor has moved. The parameters and body are stated by FunctionDeclParts and FunctionRestParts. |
| Parser.FunctionDeclParts | src/com/sabino/lox/Parser.kt:252-256 | A parsed function has an identifier and then `(`. It is what the rest of the declaration gives with that identifier as the name. |
| Parser.FunctionRestParts | src/com/sabino/lox/Parser.kt:257-272 | The parameters are exactly the parsed parameter list, and the body is exactly the parsed function body. The cursor ends where the body ends. |
| Parser.FunctionBodyParts | src/com/sabino/lox/Parser.kt:266-270 | A function body has `)` then `{`, and is exactly the block parsed after the `{`. |
| Parser.ClassDeclaration | src/com/sabino/lox/Parser.kt:107-125 | On success the next token was the class name, and the result is `Class` of that name, the parsed superclass and the methods of the parsed class body. The cursor ends where the body ends. |
| Parser.ClassBody | src/com/sabino/lox/Parser.kt:116-123 | A class body has `{`. Its methods are exactly those the method loop collects from an empty list, and `}` follows them. The cursor is just past the `}`. |
| Parser.Superclass | src/com/sabino/lox/Parser.kt:110-114 | A superclass is present exactly when `<` follows the name. It is then a `Variable` for the identifier after `<`. |
| Parser.ClassMethods | src/com/sabino/lox/Parser.kt:118-121 | The methods already collected stay a prefix of the result, and every method is a well-formed function. The loop ends exactly at `}` or EOF, returning what was collected when it starts there. |
| Parser.Declaration | src/com/sabino/lox/Parser.kt:91-105 | `declaration` never throws, and away from EOF it always moves forward. A statement it yields is well formed, and when it yields none an error has been reported. The recovery point is stated by DeclarationRecovers. |
| Parser.DeclarationRecovers | src/com/sabino/lox/Parser.kt:91-105 | When the attempt succeeds, `declaration` yields its statement and stops where it stopped. When it throws, `declaration` yields nothing and the cursor is where `synchronize` leaves it. |
| Parser.DeclarationDispatch | src/com/sabino/lox/Parser.kt:94-99 | `class` gives the class declaration, `fun` gives `Function` of the function parsed after it, `var` gives the variable declaration, and any other token gives `statement`. |
| Parser.DeclarationRun | src/com/sabino/lox/Parser.kt:85-88 | The run of `declaration` stops at EOF, or at `}` inside a block. It is empty exactly when it starts where it stops, and otherwise ends where its last declaration ended. |
| Parser.Parse | src/com/sabino/lox/Parser.kt:84-89 | The statements are exactly the declarations kept, in order, by the run of `declaration` from the first token to EOF, and the errors are those that run reported. There are fewer statements than tokens, and all are well formed. |
| Parser.ParseFrom | src/com/sabino/lox/Parser.kt:85-88 | The loop never withdraws a reported error, and it yields at most one statement per remaining token. |
| Parser.ParseFromRuns | src/com/sabino/lox/Parser.kt:84-89 | The loop's statements are exactly the declarations the run from its position keeps, in order, and its errors are those the run reported. |
| RoundTrip.PrintThenParse | src/com/sabino/lox/Parser.kt:306-460 | Take a well-nested tree whose tokens have the kinds the grammar reads and whose reference ids are the indexes of their tokens. Printing it, adding EOF and parsing an expression gives back exactly that tree, reads every token before EOF and reports nothing. |
| RoundTrip.ParseReadsSpelled | src/com/sabino/lox/Parser.kt:306-308 | When a token list spells a well-nested tree followed by one more token, `expression` from the first token returns exactly that tree, reads every token before the last and reports nothing. |
| RoundTrip.AssignmentReads | src/com/sabino/lox/Parser.kt:310-325 | `assignment` at the tokens of a well-nested tree returns exactly that tree, including `Assign` and `Set` nodes, and stops at the first token after it when that token cannot extend the tree. |
| RoundTrip.LevelReads | src/com/sabino/lox/Parser.kt:327-390 | A binary level at the tokens of a tree that binds at least as tightly returns exactly that tree. Each node's operands and operator token are read back in place, so a left-nested chain comes back as it was. |
| RoundTrip.UnaryReads | src/com/sabino/lox/Parser.kt:392-399 | `unary` at the tokens of a prefix-level tree returns exactly that tree. |
| RoundTrip.CallReads | src/com/sabino/lox/Parser.kt:401-414 | `call` at the tokens of a call-level tree returns exactly that tree, with its calls and property accesses rebuilt in order. |
| RoundTrip.FinishCallReads | src/com/sabino/lox/Parser.kt:416-428 | After the `(`, the tokens of the arguments and then `)` give `Call` of the callee, that `)` token and exactly those arguments, with the cursor just past the `)`. |
| RoundTrip.ArgumentsReads | src/com/sabino/lox/Parser.kt:419-424 | The argument loop reads back comma-separated arguments in order, appends them to those already collected, and stops at the `)`. |
| RoundTrip.PrimaryReads | src/com/sabino/lox/Parser.kt:430-460 | The tokens of a literal, `super.name`, `this`, a variable or a parenthesized tree are read back as exactly that node, each reference node's id being its token's index. |
| Resolver.Lookup | src/com/sabino/lox/Resolver.kt:224-233 | The distance d names the innermost scope holding the name: scope `size-1-d` holds it and no scope inside it does. There is no distance exactly when no scope holds it. |
| Resolver.ResolveLocal | src/com/sabino/lox/Resolver.kt:224-233 | Records that distance under the reference's id. It records nothing when no scope holds the name, so the reference is global. Scopes, kinds and errors are untouched. |
| Resolver.LookupPush | src/com/sabino/lox/Resolver.kt:206-208 | Pushing a scope without the name moves its binding exactly one step further out. |
| Resolver.GlobalExprUnresolved | src/com/sabino/lox/Resolver.kt:232 | With an empty scope stack, no reference inside any expression gets a distance: all are treated as global. |
| Resolver.ResolveExpr | src/com/sabino/lox/Resolver.kt:21-101 | Resolving any expression leaves the scope stack and both kinds unchanged, and never withdraws an error. |
| Resolver.Mark | src/com/sabino/lox/Resolver.kt:214-222 | `declare` (flag false) and `define` (flag true) do nothing at global level. Otherwise they set the name's flag in the innermost scope only. |
| Resolver.Declare | src/com/sabino/lox/Resolver.kt:214-217 | Inside a block, the innermost scope holds the name as not yet defined, every other binding is kept, and the outer scopes are unchanged. At global level nothing happens. |
| Resolver.Define | src/com/sabino/lox/Resolver.kt:219-222 | Inside a block, the innermost scope holds the name as defined, every other binding is kept, and the outer scopes are unchanged. At global level nothing happens. |
| Resolver.DeclareThenDefine | src/com/sabino/lox/Resolver.kt:214-222 | A declared name is found in the innermost scope, and declaring then defining equals defining outright. |
| Resolver.ResolveVariable | src/com/sabino/lox/Resolver.kt:92-101 | "Cannot read local variable in its own initializer." is reported exactly when the innermost scope declares the name but has not finished defining it. The reference is resolved in either case. |
| Resolver.OwnInitializerReported | src/com/sabino/lox/Resolver.kt:185-191 | In a local scope, `var x = x;` reports exactly that error, because `x` is declared before its initializer is resolved. |
| Resolver.ResolveThis | src/com/sabino/lox/Resolver.kt:77-85 | Outside a class, `this` is reported and not resolved. Inside one it is resolved. |
| Resolver.ResolveSuper | src/com/sabino/lox/Resolver.kt:65-75 | Reports nothing exactly in a subclass. Outside any class, and in a class without a superclass, it reports the matching message. The reference is resolved in every case. |
| Resolver.ReturnErrors | src/com/sabino/lox/Resolver.kt:171-183 | "Cannot return from top-level code." is reported exactly outside any function. "Cannot return a value from an initializer." is reported exactly for a value returned inside an initializer. |
| Resolver.ResolveReturn | src/com/sabino/lox/Resolver.kt:171-183 | The `return` errors come first, and then any value is resolved. |
| Resolver.ResolveStmt | src/com/sabino/lox/Resolver.kt:148-196 | Resolving any statement keeps the stack height, every scope but the innermost, the function kind and the class kind, and never withdraws an error. What it records is stated by Recording.StmtCovers. |
| Resolver.ResolveBlock | src/com/sabino/lox/Resolver.kt:103-107 | The block's scope is popped again, so the scope stack is exactly as before. What it records is stated by Recording.BlockCovers. |
| Resolver.ResolveFunction | src/com/sabino/lox/Resolver.kt:235-250 | The scope stack and the function kind are restored after the body. What it records is stated by Recording.FunctionCovers. |
| Resolver.DefineParams | src/com/sabino/lox/Resolver.kt:242-245 | Every parameter is fully defined in the function's scope, and nothing else is resolved or reported. |
| Resolver.ResolveClass | src/com/sabino/lox/Resolver.kt:109-146 | The scope stack and both kinds are restored. A superclass with the class's own name reports "A class cannot inherit from itself.". |
| Resolver.ResolveMethods | src/com/sabino/lox/Resolver.kt:134-138 | Resolving the methods leaves the scope stack as it was. What it records is stated by Recording.MethodsCovers. |
| Resolver.SuperScopeOutsideThis | src/com/sabino/lox/Resolver.kt:117-133 | In a subclass method, `this` resolves one scope out of the method's scope and `super` two: the `super` scope encloses the `this` scope. |
| Resolver.SuperThisLayout | src/com/sabino/lox/Resolver.kt:127-133 | Inside the `super` and `this` scopes plus a method scope, `this` is at distance 1 and `super` at distance 2. |
| Resolver.Resolve | src/com/sabino/lox/Resolver.kt:11-13 | Top-level resolution starts and ends with no scope, no function and no class. What it records is stated by Recording.ResolveRecordsOnlyRefs. |
| Recording.ResolveExprRecords | src/com/sabino/lox/Resolver.kt:21-101 | Resolving an expression gives each reference it holds whose name some scope holds an entry under the reference's own id. When no id of the expression stands for two names, that entry is the distance to the innermost scope holding the name. The references are variables, assignment targets, `super`, and `this` inside a class. Every entry that is new or changed is such a distance, and no entry is dropped. |
| Recording.ResolveExprsRecords | src/com/sabino/lox/Resolver.kt:33-37 | Resolving call arguments one after another records exactly for the references they hold, as ResolveExprRecords states for one. |
| Recording.ExpressionStmtRecords | src/com/sabino/lox/Resolver.kt:148-150 | An expression statement and a `print` record exactly what their expression records. |
| Recording.BlockExpressionRecords | src/com/sabino/lox/Resolver.kt:103-107 | Inside a block, an expression's references are recorded as seen from the block's new scope, so each local distance is one more than outside it. |
| Recording.StmtCovers | src/com/sabino/lox/Resolver.kt:148-196 | Resolving a statement changes or adds entries only for ids of references it holds, including those in nested bodies and methods. Every such reference whose name a scope holds when the statement starts gets an entry, and no scope loses a name. |
| Recording.BlockCovers | src/com/sabino/lox/Resolver.kt:103-107 | A block gives an entry to every reference in it whose name a scope outside the block holds, and changes entries only for ids of its references. |
| Recording.FunctionCovers | src/com/sabino/lox/Resolver.kt:235-250 | A function body gives an entry to every reference in it whose name a scope outside the function holds, and changes entries only for ids of its references. |
| Recording.MethodsCovers | src/com/sabino/lox/Resolver.kt:134-138 | The methods of a class give an entry to every reference in them whose name a scope holds when they start, and change entries only for ids of their references. |
| Recording.ClassCovers | src/com/sabino/lox/Resolver.kt:109-146 | A class declaration resolves its superclass in the enclosing scopes and its methods inside the `super` and `this` scopes. It gives an entry to every reference whose name a scope holds when it starts, and changes entries only for ids of its references. |
| Recording.ResolveRecordsOnlyRefs | src/com/sabino/lox/Resolver.kt:11-13 | After a whole program, the side table holds entries only for ids of references that occur in the program. |
| Environment.HolderWalksChain | src/com/sabino/lox/Environment.kt:24-35 | The nearest binding frame is the first frame of the chain, innermost first, that binds the name. There is none exactly when no frame of the chain binds it. |
| Environment.Define | src/com/sabino/lox/Environment.kt:20-22 | Writes only the given frame, overwriting any binding there. No other frame and no link changes. |
| Environment.Get | src/com/sabino/lox/Environment.kt:24-35 | Returns the binding from the nearest frame of the chain that has the name. It fails, becoming "Undefined variable", exactly when no frame has it. |
| Environment.Assign | src/com/sabino/lox/Environment.kt:46-50 | Updates only the nearest frame that binds the name and never creates a binding. It fails exactly when no frame of the chain binds the name. |
| Environment.Ancestor | src/com/sabino/lox/Environment.kt:67-77 | A distance of 0 or less names the frame itself. |
| Environment.AncestorIndexesChain | src/com/sabino/lox/Environment.kt:67-77 | `ancestor(d)` is the frame exactly `d` enclosing links out, or nothing when the chain is shorter than `d`. |
| Environment.GetAt | src/com/sabino/lox/Environment.kt:37-44 | `getAt(d, n)` is `get(n)` started at `ancestor(d)`, so it can still find the name further out. It fails with the missing-frame error exactly when the ancestor does not exist. |
| Environment.GetAtZero | src/com/sabino/lox/Environment.kt:37-44 | `getAt(0, n)` equals `get(n)`. |
| Environment.AssignAt | src/com/sabino/lox/Environment.kt:52-59 | Writes the name into the ancestor frame at distance `d`, creating it if absent. No other frame and no link changes, and it fails exactly when the ancestor does not exist. |
| Environment.DefineThenGet | src/com/sabino/lox/Environment.kt:20-35 | A name just defined in a frame is what `get` finds from that frame. |
| Environment.AssignThenGet | src/com/sabino/lox/Environment.kt:46-50 | After a successful `assign`, `get` from the same frame finds the new value. |
| Values.FindMethod | src/com/sabino/lox/types/LoxClass.kt:33-44 | A class's own method is returned when present. |
| Values.FindMethodNearest | src/com/sabino/lox/types/LoxClass.kt:33-44 | The method returned comes from the nearest class of the superclass chain that defines the name, so a subclass method shadows an inherited one. |
| Values.FindMethodNone | src/com/sabino/lox/types/LoxClass.kt:33-44 | Nothing is found exactly when no class of the chain defines the name. |
| Values.ClassArity | src/com/sabino/lox/types/LoxClass.kt:12-19 | A class's arity is the parameter count of the `init` that `findMethod` finds, or 0 when the chain has none. |
| Values.Arity | src/com/sabino/lox/types/LoxFunction.kt:12-14 | A function's arity is its parameter count, `clock` has arity 0, and exactly functions, classes and `clock` are callable. |
| Values.InstanceGet | src/com/sabino/lox/types/LoxInstance.kt:10-20 | A field wins over a method with the same name. Otherwise the method from the class chain is returned as it is, unbound. Failure, with "Undefined property", happens exactly when neither exists. |
| Values.InstanceSet | src/com/sabino/lox/types/LoxInstance.kt:22-24 | Creates or overwrites exactly one field and leaves the others unchanged. |
| Values.SetThenGet | src/com/sabino/lox/types/LoxInstance.kt:10-24 | After `set`, `get` of that name returns the value stored, and `get` of any other name is unchanged. |
| Values.Stringify | src/com/sabino/lox/Interpreter.kt:307-318 | nil prints as "nil", a boolean as "true" or "false", a string as itself, `clock` as "<native fun>", a class as its name, an instance as "NAME instance", and a function as "<fn NAME>". Only numbers have a number rendering. |
| Values.ClockAsWritten | src/com/sabino/lox/primitives/Clock.kt:10-12 | As written, `clock()` returns whole seconds as a Long: the milliseconds divided by 1000 and truncated. |
| Values.ClockReading | src/com/sabino/lox/primitives/Clock.kt:10-12 | Corrected, `clock()` returns a Lox number: exactly the milliseconds divided by 1000. |
| Interpreter.Initial | src/com/sabino/lox/Interpreter.kt:12-18 | A run starts in the global frame, with `clock` defined there and no output yet. |
| Interpreter.IsTruthy | src/com/sabino/lox/Interpreter.kt:280-288 | False exactly for nil and `false`, so 0 and "" are truthy. |
| Interpreter.IsEqual | src/com/sabino/lox/Interpreter.kt:290-298 | nil equals nil, nil never equals a non-nil value in either order, and otherwise equality is value equality with no coercion. |
| Interpreter.Sound | src/com/sabino/lox/Environment.kt:8-18 | The state invariant: the global and current frames exist, every id is below the allocation counter, every frame's enclosing frame exists and is older, and every value held in a frame or an instance reaches only existing frames. |
| Interpreter.ParentFollowsLink | src/com/sabino/lox/Environment.kt:24-35 | In a sound state, the chain walk from a frame goes to exactly its enclosing frame, so `get`, `getAt` and `ancestor` follow the source's links. |
| Interpreter.Arithmetic | src/com/sabino/lox/Interpreter.kt:47-77 | With two numbers, only `/` by 0 fails, with "Can not divide by zero". `<` is `x < y` and `>` is `y < x`. `<=` and `>=` are the negations of `>` and `<`. `-` gives the number that added to `y` gives `x`, `*` gives the number that divided by a non-zero `y` gives `x`, and `/` gives the number that multiplied by `y` gives `x`. |
| Interpreter.BinaryOp | src/com/sabino/lox/Interpreter.kt:45-94 | The comparisons and `-`, `*`, `/` fail with "Operands must be a Number." unless both operands are numbers, and on two numbers they are `Arithmetic`. `+` adds two numbers, concatenates two strings, and otherwise fails with "Operand must be a both Strings or Numbers.". `==` and `!=` never fail. Every result is nil, a boolean, a number or a string. |
| Interpreter.ComparisonMirror | src/com/sabino/lox/Interpreter.kt:47-62 | On numbers, `a > b` is `b < a` and `a >= b` is `b <= a`. |
| Interpreter.ComparisonComplement | src/com/sabino/lox/Interpreter.kt:47-62 | On numbers, `a >= b` is the negation of `a < b`, and `a <= b` is the negation of `a > b`. |
| Interpreter.ArithmeticInverse | src/com/sabino/lox/Interpreter.kt:63-80 | On numbers, `(a - b) + b` is `a`, and `(a * b) / b` is `a` when `b` is not 0. |
| Interpreter.UnaryOp | src/com/sabino/lox/Interpreter.kt:182-190 | `-` negates a number and yields nil for anything else. `!` is the negation of truthiness. |
| Interpreter.LookupVariable | src/com/sabino/lox/Interpreter.kt:324-331 | A reference with a recorded distance uses `getAt` at that distance, and one without uses `get` on the globals. An unbound name fails with "Undefined variable". |
| Interpreter.StoreVariable | src/com/sabino/lox/Interpreter.kt:28-39 | An assignment with a recorded distance uses `assignAt`, and one without uses `assign` on the globals. The value assigned is the result. |
| Interpreter.StoreThenLookup | src/com/sabino/lox/Interpreter.kt:28-39 | After an assignment succeeds, reading the same reference yields the value assigned. |
| Interpreter.ParamBindings | src/com/sabino/lox/types/LoxFunction.kt:19-24 | Parameter `i` is bound to argument `i`, and a repeated parameter name keeps its last argument. |
| Interpreter.CallFrameBindsParameters | src/com/sabino/lox/types/LoxFunction.kt:16-24 | A call runs in a new frame whose parent is the closure. The closure frame is unchanged, and from the new frame each parameter reads its argument. |
| Interpreter.CallFunction | src/com/sabino/lox/types/LoxFunction.kt:16-33 | A `Return` signal from the body becomes the call's result, normal completion yields nil, and any other abrupt end propagates. No `Return` escapes a call. |
| Interpreter.MethodTable | src/com/sabino/lox/Interpreter.kt:221-223 | Every method is in the table under its name, closed over the class's frame, and marked as an initializer exactly when named `init`. A later method with the same name wins. |
| Interpreter.Bind | src/com/sabino/lox/Interpreter.kt:173 | `bind` keeps the declaration and gives it a new frame, a child of the closure, in which `this` is the instance. |
| Interpreter.CheckCall | src/com/sabino/lox/Interpreter.kt:102-110 | A call passes the check exactly when the callee is callable and the argument count equals its arity. Otherwise it fails with "Can only call functions and classes." or with "Expected N arguments but got M.". |
| Interpreter.EvalCall | src/com/sabino/lox/Interpreter.kt:97-113 | Keeps the current frame, only appends output, and loses no frame or instance. What it computes is stated by CallChecksAfterArguments. |
| Interpreter.Invoke | src/com/sabino/lox/Interpreter.kt:102-112 | A failed callability or arity check throws its error, with the state unchanged. A passing check runs the callable, as CallDispatches states. |
| Interpreter.CallValue | src/com/sabino/lox/Interpreter.kt:112 | Keeps the current frame, only appends output, and loses no frame or instance. Which callable runs is stated by CallDispatches. |
| Interpreter.CallChecksAfterArguments | src/com/sabino/lox/Interpreter.kt:97-110 | The callee is evaluated first, then the arguments, and only then are callability and arity checked. |
| Interpreter.CallDispatches | src/com/sabino/lox/Interpreter.kt:97-113 | A call whose callee and arguments evaluate and which passes the checks runs the callee on the argument values, from the state the arguments left: a function runs its body, a class constructs an instance, and `clock` answers the reading. |
| Interpreter.EvalArgsInOrder | src/com/sabino/lox/Interpreter.kt:100 | Arguments are evaluated left to right. When all complete, value `i` is what argument `i` gives in the state the earlier arguments left. When one is abrupt, every earlier one completed and its outcome is the outcome. |
| Interpreter.EvalArgs | src/com/sabino/lox/Interpreter.kt:100 | An argument list that completes yields one value per argument. Their order is stated by EvalArgsInOrder. |
| Interpreter.CallClass | src/com/sabino/lox/types/LoxClass.kt:21-31 | Calling a class allocates a new instance with a fresh id and no fields. Without an `init` in the class's lineage, that instance is the result. With one, `init` runs bound to the instance with the call's arguments: its closure is a fresh frame binding `this` to the instance inside `init`'s own closure. A completed `init` yields the instance whatever it returns, and an abrupt one is the outcome. |
| Interpreter.Allocate | src/com/sabino/lox/types/LoxInstance.kt:8 | A new instance has a fresh id and no fields. |
| Interpreter.RunInit | src/com/sabino/lox/types/LoxClass.kt:26-30 | `init` is called with the arguments as a function closing over a fresh frame that binds `this` to the instance inside `init`'s closure. A completed call yields the instance in the state the call left, and an abrupt one is the outcome. |
| Interpreter.DeclareClass | src/com/sabino/lox/Interpreter.kt:214-231 | The name is bound in the current frame to a class with a fresh id, that name and superclass, and the method table of the declarations. With a superclass, every method closes over a new frame that binds `super` to the superclass and encloses the current frame. Without one, every method closes over the current frame. |
| Interpreter.ClassScope | src/com/sabino/lox/Interpreter.kt:216-219 | The `super` frame is pushed only when there is a superclass. |
| Interpreter.AssignClass | src/com/sabino/lox/Interpreter.kt:231 | The class value replaces the nil placeholder in the current frame, and no other frame changes. |
| Interpreter.ClassDeclarationBindsName | src/com/sabino/lox/Interpreter.kt:204-232 | A class declaration whose superclass, if any, evaluates to a class completes and leaves the current frame as it was. It binds the name to a class whose superclass is the evaluated one. With a superclass, the methods close over a new frame binding `super` to the evaluated value inside the current frame; without one, they close over the current frame. |
| Interpreter.BlockRunsInChildFrame | src/com/sabino/lox/Interpreter.kt:200-201 | A block runs its statements with a fresh frame, whose parent is the current frame, as the current frame; the previous current frame is restored however the block ends. |
| Interpreter.FunctionCapturesEnv | src/com/sabino/lox/Interpreter.kt:238-241 | A function declaration completes and binds its name, in the current frame, to a function closing over the current frame; no other frame, instance or output changes. |
| Interpreter.SuperclassMustBeClass | src/com/sabino/lox/Interpreter.kt:207-211 | A superclass value that is not a class fails with "Superclass must be a class.". |
| Interpreter.ExecClass | src/com/sabino/lox/Interpreter.kt:204-232 | Keeps the current frame, only appends output, and loses no frame or instance. What it computes is stated by ClassDeclarationBindsName and SuperclassMustBeClass. |
| Interpreter.EvalSuper | src/com/sabino/lox/Interpreter.kt:157-180 | A `super` the resolver did not record yields nil. A recorded one reads `super` at the recorded distance and `this` one frame nearer. A missing frame crashes, and an unbound name fails as an undefined variable. When both are bound, the result is SuperMethod's. |
| Interpreter.SuperMethod | src/com/sabino/lox/Interpreter.kt:166-176 | The method found on the superclass is bound to the instance. It fails with "Could not map class inheritance scope." when `this` is not an instance, and with "Undefined property" when no method exists. |
| Interpreter.ShortCircuit | src/com/sabino/lox/Interpreter.kt:132-142 | `or` with a truthy left side, and `and` with a falsey one, return the left value itself without evaluating the right side. Otherwise the result is the right side's evaluation. |
| Interpreter.EvalLogical | src/com/sabino/lox/Interpreter.kt:132-142 | Keeps the current frame, only appends output, and loses no frame or instance. What it computes is stated by ShortCircuit. |
| Interpreter.BinaryEvaluatesOperandsFirst | src/com/sabino/lox/Interpreter.kt:41-95 | Both operands are evaluated, left then right, before the operator is applied or raises its error. |
| Interpreter.EvalAssign | src/com/sabino/lox/Interpreter.kt:28-39 | Keeps the current frame, only appends output, and loses no frame or instance. What it computes is stated by AssignStores and AssignThenRead. |
| Interpreter.AssignStores | src/com/sabino/lox/Interpreter.kt:28-39 | An assignment evaluates its value first. An abrupt value is the outcome; otherwise the value is stored through the reference's id and is the result. |
| Interpreter.AssignThenRead | src/com/sabino/lox/Interpreter.kt:28-39 | Reading the assigned variable right after an assignment completes, through the same reference id, yields the value assigned. |
| Interpreter.EvalUnary | src/com/sabino/lox/Interpreter.kt:182-190 | Keeps the current frame, only appends output, and loses no frame or instance. What it computes is stated by UnaryApplies. |
| Interpreter.UnaryApplies | src/com/sabino/lox/Interpreter.kt:182-190 | A unary operator is applied to its operand's value, in the state the operand left. An abrupt operand is the outcome. |
| Interpreter.GetReadsInstance | src/com/sabino/lox/Interpreter.kt:115-122 | A property read on an instance is the instance's `get`. On anything else it fails with "Only instances have properties.". |
| Interpreter.EvalGet | src/com/sabino/lox/Interpreter.kt:115-122 | Keeps the current frame, only appends output, and loses no frame or instance. What it computes is stated by GetReadsInstance. |
| Interpreter.SetRejectsNonInstance | src/com/sabino/lox/Interpreter.kt:144-149 | `Set` on a non-instance fails with "Only instances have properties." before the value is evaluated. |
| Interpreter.EvalSet | src/com/sabino/lox/Interpreter.kt:144-155 | Keeps the current frame, only appends output, and loses no frame or instance. What it computes is stated by SetRejectsNonInstance, SetWritesField and SetThenGetField. |
| Interpreter.SetWritesField | src/com/sabino/lox/Interpreter.kt:144-155 | On an instance, `Set` evaluates the value after the object, writes that field of that instance and yields the value. An abrupt value ends it with the same signal. |
| Interpreter.SetThenGetField | src/com/sabino/lox/Interpreter.kt:144-155 | Right after a property assignment on an existing instance, reading the same property of that instance yields the value assigned. |
| Interpreter.SetField | src/com/sabino/lox/Interpreter.kt:151-152 | The instance's fields are updated by `set`, and no frame changes. |
| Interpreter.ExecBlock | src/com/sabino/lox/Interpreter.kt:333-343 | The previous environment is restored whether the body completes, returns or raises an error. The block ends abruptly exactly when its statements do. |
| Interpreter.ExecPrint | src/com/sabino/lox/Interpreter.kt:251-254 | A completed `print` has appended to the output, and the current frame is unchanged. What it computes is stated by PrintAppendsText. |
| Interpreter.PrintAppendsText | src/com/sabino/lox/Interpreter.kt:251-254 | `print` completes exactly when its expression does. It then appends exactly `Stringify` of the value to the output and changes nothing else. An abrupt expression ends the statement with the same signal. |
| Interpreter.ExecReturn | src/com/sabino/lox/Interpreter.kt:256-258 | `return` always ends abruptly, and without a value it raises the `Return` signal carrying nil, with the state unchanged. What it computes is stated by ReturnCarriesValue. |
| Interpreter.ReturnCarriesValue | src/com/sabino/lox/Interpreter.kt:256-258 | `return` always ends abruptly. Without a value it raises `Return` carrying nil. With one, it raises `Return` carrying the value, or passes on whatever stopped the value's evaluation. |
| Interpreter.ExecVar | src/com/sabino/lox/Interpreter.kt:260-268 | `var` without an initializer defines the name as nil in the current frame. What it computes is stated by VarBindsValue. |
| Interpreter.VarBindsValue | src/com/sabino/lox/Interpreter.kt:260-268 | After `var`, reading the name from the current frame gives nil without an initializer, and the initializer's value with one. The statement completes exactly when the initializer does, and an abrupt initializer passes its signal on. |
| Interpreter.ExpressionDropsValue | src/com/sabino/lox/Interpreter.kt:234-236 | An expression statement ends as its expression does, with the value dropped. |
| Interpreter.ExecExpression | src/com/sabino/lox/Interpreter.kt:234-236 | Keeps the current frame, only appends output, and loses no frame or instance. What it computes is stated by ExpressionDropsValue. |
| Interpreter.IfChoosesByTruthiness | src/com/sabino/lox/Interpreter.kt:243-249 | An abrupt condition ends the `if`. A truthy one runs the then-branch, a falsey one runs the else-branch, and with no else-branch it completes. The branch runs in the state after the condition. |
| Interpreter.ExecIf | src/com/sabino/lox/Interpreter.kt:243-249 | Keeps the current frame, only appends output, and loses no frame or instance. What it computes is stated by IfChoosesByTruthiness. |
| Interpreter.WhileStopsWhenFalsey | src/com/sabino/lox/Interpreter.kt:270-274 | A `while` whose condition evaluates to a falsey value completes in the state after the condition, without running the body. |
| Interpreter.WhileUnrolls | src/com/sabino/lox/Interpreter.kt:270-274 | With a truthy condition, a body that ends abruptly ends the loop with its signal, and a body that completes is followed by the same loop from the body's end state. |
| Interpreter.ExecWhile | src/com/sabino/lox/Interpreter.kt:270-274 | Keeps the current frame, only appends output, and loses no frame or instance. What it computes is stated by WhileStopsWhenFalsey and WhileUnrolls. |
| Interpreter.EvalExpr | src/com/sabino/lox/Interpreter.kt:276-278 | Evaluation leaves the current frame as it was, only appends output, and never loses a frame or an instance. The result of each expression form is stated by the lemmas listed under "## Left out". |
| Interpreter.LiteralEvaluates | src/com/sabino/lox/Interpreter.kt:128-130 | A literal evaluates to the value it denotes (nil, a boolean, a number or a string) and changes nothing. |
| Interpreter.GroupingIsInner | src/com/sabino/lox/Interpreter.kt:124-126 | A grouping has exactly its inner expression's outcome. |
| Interpreter.VariableReads | src/com/sabino/lox/Interpreter.kt:192-198 | A variable and `this` are read by `lookupVariable` with the reference's own id, and reading a variable changes nothing. |
| Interpreter.SuperReads | src/com/sabino/lox/Interpreter.kt:157-180 | A `super` expression evaluates as visitSuperExpr on its id, keyword and method name. |
| Interpreter.ExecStmt | src/com/sabino/lox/Interpreter.kt:320-322 | Execution leaves the current frame as it was, only appends output, and never loses a frame or an instance. |
| Interpreter.Interpret | src/com/sabino/lox/Interpreter.kt:20-26 | A run executes the statements in order from the initial state. It ends in a runtime failure exactly when a `RuntimeError` stopped it, and it completes exactly when every statement completed. |
| Soundness.EvalExprSound | src/com/sabino/lox/Interpreter.kt:276-278 | Evaluating any expression from a sound state ends in a sound state, and its value, or the value a `Return` carries, reaches only existing frames. |
| Soundness.CallFunctionSound | src/com/sabino/lox/types/LoxFunction.kt:16-33 | A call of a function whose closure exists, with arguments that reach only existing frames, ends in a sound state with a reaching result. |
| Soundness.CallClassSound | src/com/sabino/lox/types/LoxClass.kt:21-31 | Calling a class whose methods' closures exist ends in a sound state with a reaching result. |
| Soundness.ExecStmtSound | src/com/sabino/lox/Interpreter.kt:320-322 | Executing any statement from a sound state ends in a sound state, and any `Return` value reaches only existing frames. |
| Soundness.ExecBlockSound | src/com/sabino/lox/Interpreter.kt:333-343 | A block run in an existing frame keeps a sound state sound. |
| Soundness.ExecClassSound | src/com/sabino/lox/Interpreter.kt:204-232 | A class declaration keeps a sound state sound, including its new `super` frame and method closures. |
| Soundness.ExecWhileSound | src/com/sabino/lox/Interpreter.kt:270-274 | Every iteration of a `while` keeps a sound state sound. |
| Soundness.RunStaysSound | src/com/sabino/lox/Interpreter.kt:20-26 | A whole run from the initial state ends in a sound state, so in its final state every frame's chain walk follows exactly its enclosing link. |
| Interpreter.ClockElapsedFails | src/com/sabino/lox/primitives/Clock.kt:10-12 | As written, subtracting two `clock()` readings fails with "Operands must be a Number.". |
| Interpreter.ClockElapsedWorks | src/com/sabino/lox/primitives/Clock.kt:10-12 | Corrected, subtracting two `clock()` readings yields the elapsed time in seconds. |

## Left out

- The driver `Lox.kt` is not part of this model. Where the interpreter's passes call
  Lox's error hooks, the model appends to an error list instead. The command line, file and stdin
  reading, `System.err` formatting and exit codes are left out.
- The earlier snapshots (`src/com/sabino/klox/`, `src/com/klox/`,
  `src/com/sabino/lox/LoxFunction.kt`, `src/com/sabino/lox/LoxCallable.kt`), the code
  generator `GenerateAst.kt`, the demo `AstTester.kt` and the debug `AstPrinter.kt` are
  left out. They are superseded, build-time only, or debugging only.
- Numbers are exact `real` values, not IEEE-754 doubles. A number token's literal is its
  digit value, and `Double.toString` with its ".0" trimming is not modelled, so
  `Values.Stringify` renders a number as an opaque `Number` value.
- Values.Stringify: the text of a number is left abstract, because it depends on Java's
  `Double.toString`.
- Kotlin's lazy `sequence` in `parse` is an eager list, and `println` appends to an
  output trace.
- Non-termination: evaluation carries fuel, and a run that exhausts it ends as
  `Exhausted`. A terminating Lox program is modelled only for a large enough fuel.
- Interpreter.EvalExpr: the contract states only the frame, output and allocation
  invariants. The result of each expression form is stated by a lemma about `EvalExpr`
  on that form:
  - LiteralEvaluates, GroupingIsInner and VariableReads (which also covers `this`);
  - AssignStores and AssignThenRead;
  - UnaryApplies, BinaryEvaluatesOperandsFirst and ShortCircuit;
  - GetReadsInstance, SetRejectsNonInstance, SetWritesField and SetThenGetField;
  - CallChecksAfterArguments, CallDispatches and EvalArgsInOrder.

  `super` is stated by SuperReads together with EvalSuper's and SuperMethod's own
  contracts.
- Interpreter.ExecStmt: the contract states only the same invariants. What each
  statement does is stated by lemmas about `ExecStmt` on that statement:
  ExpressionDropsValue, PrintAppendsText, ReturnCarriesValue, VarBindsValue,
  IfChoosesByTruthiness, WhileStopsWhenFalsey, WhileUnrolls, BlockRunsInChildFrame,
  FunctionCapturesEnv, ClassDeclarationBindsName and SuperclassMustBeClass.
- Interpreter.ExecClass: its own contract states only the frame, output and allocation
  invariants. The class it binds (the name, the evaluated superclass, and the methods
  closing over the `super` frame) is stated by ClassDeclarationBindsName, and the
  rejected superclass by SuperclassMustBeClass.
- Interpreter.ExecExpression, ExecIf, ExecWhile, ExecPrint, ExecReturn and
  ExecVar: their own contracts state only the frame, output and allocation invariants
  (plus the completed-print, abrupt-return and nil-`var` cases). The results are stated
  by the lemmas just listed, which unfold `ExecStmt` through these functions.
- Interpreter.EvalCall, CallValue, EvalLogical, EvalAssign, EvalUnary, EvalGet and
  EvalSet: their own contracts state only the same invariants. What each one computes
  is stated by a lemma about `EvalExpr` on the matching node:
  - EvalCall and CallValue by CallChecksAfterArguments, CallDispatches and
    EvalArgsInOrder;
  - EvalLogical by ShortCircuit;
  - EvalAssign by AssignStores and AssignThenRead;
  - EvalUnary by UnaryApplies;
  - EvalGet by GetReadsInstance;
  - EvalSet by SetRejectsNonInstance, SetWritesField and SetThenGetField.
- Interpreter.Invoke: the contract states only the failed check. The passing case, which
  runs the callable, is stated by CallDispatches.
- Interpreter.EvalArgs: the contract states only the number of values. Their order and
  the states they are evaluated in are stated by EvalArgsInOrder.
- Interpreter.CallValue: `clock()` answers the corrected reading, a Lox number of
  seconds (see Findings), not the `Long` of `primitives/Clock.kt:10-12`. So `print
  clock();` renders as a number and `clock() - t` succeeds in the model.
  ClockAsWritten and ClockElapsedFails model the code as written.
- Parser.ForStatement, IfStatement, IfBranches, WhileStatement, Statement, ParseBlock,
  FunctionDecl and Declaration: their own contracts state the node kind, well-formedness
  and cursor progress. The node's parts are stated by the `...Parts`, `...Runs`,
  `...Dispatch` and `...Recovers` lemmas listed in the Model table.
- Scanner: a Kotlin string is a sequence of UTF-16 units, while a Dafny string is a
  sequence of characters. A character outside the Basic Multilingual Plane, written
  outside a string literal, is reported as one unexpected character here, whereas
  `Scanner.kt:64-67` reports it twice, once per surrogate.
- Interpreter.ExecBlock: what the body computes is not restated. The contract covers
  the environment restore and when the block ends abruptly.
- Frames and instances are never freed, as no collector is modelled.
- Kotlin object identity is modelled by ids. Interpreter.IsEqual compares values
  structurally, so two closures over the same frame, made from identical declarations,
  compare equal here while Kotlin compares the two objects by identity. Instances and
  classes carry fresh ids, so for them structural equality is identity.
- The interpreter calls a 3-argument `LoxFunction(decl, env, isInit)` and
  `LoxFunction.bind`, which `types/LoxFunction.kt` does not define. The model makes two
  assumptions about them:
  - `bind` creates a child frame of the closure with `this` bound to the instance;
  - `isInit` is stored but changes nothing, since the `call` shown never reads it.
- `Stmt.Class` in `types/Stmt.kt` has no `superclass` field, yet the parser builds one
  and the resolver and interpreter read it. The model adds the field.
- The `Return` signal class is not defined in the source. It is modelled as the
  `Returned` outcome.
- The interpreter passes the strings "super" and "this" to `getAt`, which takes a
  token. The model looks them up by name and uses the `super` keyword token for any
  error. The `ParserError` that `getAt` throws for a missing frame is not a
  `RuntimeError`, so it becomes the uncaught `Crashed` outcome.
- Resolver.SuperScopeOutsideThis: the scope layout is proved for one subclass method
  without parameters whose body reads `super.m` and `this`, not for every method.
- Resolver.ResolveClass: only the restored scopes and kinds and the self-inheritance
  report are stated in the contract. The `super`/`this` layout is stated by
  SuperScopeOutsideThis.
- Parser.ParseExpression, Assignment, Level, UnaryExpr and CallExpr: their own contracts
  state only cursor progress, the report before a throw, and the nesting shape of the
  tree. Which tree is built is stated in two ways:
  - the `...Parts` lemmas (AssignmentParts, LevelParts, LevelRestParts, UnaryParts,
    CallExprParts, CallRestParts, PrimaryParts) give each step in terms of the tokens
    and the sub-results;
  - RoundTrip.ParseReadsSpelled and RoundTrip.PrintThenParse state that the whole
    expression grammar reads back exactly the tree the tokens spell.
- Parser.CallRest, Arguments and Parameters: their own contracts state the nesting and
  the kept prefix. The suffix, argument and parameter read at each round are stated by
  CallRestParts, ArgumentsParts and ParametersAt.
- RoundTrip.PrintThenParse: the round trip is stated for well-nested trees whose tokens
  have the kinds the grammar reads, with at most 255 arguments per call and reference
  ids equal to their token indexes (the trees `expression` itself builds). The printer
  it uses puts the tokens of a tree in source order with no added parentheses, since a
  well-nested tree needs none. It is not the source's `AstPrinter.kt`, which prints a
  parenthesized prefix form for debugging and is left out.
- Resolver.ResolveStmt, ResolveBlock, ResolveFunction, ResolveMethods, ResolveClass and
  Resolve: their own contracts state only the scope, kind and error invariants. What they
  record is stated by the Recording lemmas. For a single expression the distances are
  exact (Recording.ResolveExprRecords). For a statement, Recording.StmtCovers and its
  companions state a weaker property:
  - every reference whose name some scope holds when the statement starts gets an entry;
  - entries change only for ids of the statement's references.

  They do not state the exact distance, because a declaration inside the statement can
  shadow a name between the statement's start and a later reference.

## Findings

| source | as written | input that shows it | evidently intended | confidence | as-written member | corrected member |
|---|---|---|---|---|---|---|
| src/com/sabino/lox/primitives/Clock.kt:10-12 | `clock()` returns `currentTimeMillis() / 1000`, a Kotlin `Long`. No Lox operator accepts it, because every numeric operator checks for `Double`. | `var t = clock(); print clock() - t;` fails with "Operands must be a Number." | `clock()` returns the time in seconds as a Lox number (a `Double`), so elapsed times can be computed. | not executed | Values.ClockAsWritten, Interpreter.ClockElapsedFails | Values.ClockReading, Interpreter.ClockElapsedWorks |
