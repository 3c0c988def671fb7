# netl2 in Dafny

A verified model of the netl2 scripting language's pipeline: the scanner that
turns a script into tokens, the recursive-descent parser that turns tokens
into a syntax tree, and the tree-walking interpreter that runs the tree.

- `wrappers.dfy` (`Wrappers`): `Option` and `Result`, with failure propagation.
- `ints.dfy` (`Ints`): `i32` as `Int32`, with Rust's truncating `/` and `%`.
  It also holds decimal rendering (`to_string`) and decimal reading (`parse`).
- `tokenizer.dfy` (`Tokenizer`): the `Token` enum and one turn of the scanning
  loop (`Step`). `LexFrom` and `Tokens` describe a whole scan. `Tokenize` is
  the scanning loop itself, written as a `while` loop with helper loops for
  strings, numbers and words, and proved to compute `Tokens`.
- `tokenizer_properties.dfy` (`TokenizerProperties`): what each kind of
  lexeme scans to.
- `ast.dfy` (`Ast`): the `ASTNode` enum, its `PartialEq` (`NodeEq`) and its
  `PartialOrd` (`NodeCmp`).
- `parser.dfy` (`Parser`): one function per parsing routine. Each takes the
  token list and a cursor position and returns the node and the next cursor,
  or the error. The class `Parser` holds the token list and the mutable
  `current` cursor. Each of its methods is proved to agree with its function:
  it returns the same node or the same error, and on success it leaves the
  cursor where the function's parse ends.
- `parser_properties.dfy` (`ParserProperties`): grouping and associativity,
  a parse round trip for fully parenthesised expressions, and error cases.
- `operators.dfy` (`Operators`): the `evaluate_*` operator helpers and
  `stringify_value`.
- `operator_properties.dfy` (`OperatorProperties`): what the operators
  promise.
- `interpreter.dfy` (`Interpreter`): evaluation (`Eval`) and execution
  (`Exec`, `ExecAll`, `ExecWhile`) as functions. A panic stops the run in
  the state it has reached, so the lines printed before it stay printed.
  The class `Interpreter` holds the environment map and the printed lines,
  and its methods are proved to reach the state the functions describe,
  also when they panic.
- `interpreter_properties.dfy` (`InterpreterProperties`): fuel monotonicity,
  loop exit, sequencing, laziness of declarations and small example scripts.

Every `panic!` and every failed `unwrap` of the Rust code is an explicit error
value here:
- `LexError.NumberOutOfRange` for a digit run that does not fit an `i32`;
- `ParseError` for each of the parser's error strings;
- `RuntimeError` for each panic of the interpreter.

Evaluation and execution take a `fuel` bound, because scripts need not
terminate. `OutOfFuel` is reported when the fuel is spent. The lemmas
`EvalFuelMonotone` and `ExecFuelMonotone` show that a run that does not run
out of fuel gives the same answer with any larger fuel.

Behaviours of the code that the model follows as written:
- `if` and `w` test whether the condition's printed text is `true`. A
  Boolean `true` and the string `"true"` pass. Any other value, a number
  included, skips the body silently; it is not a type error.
- Declarations are lazy. `v b = a` stores the node `a`, not its value, so a
  later assignment to `a` changes what `b` reads (`DeclarationIsLazy`). This
  is observably different from evaluating at declaration time.
- The script-level `==`, `=` and `!=` compare Booleans by value. The syntax
  tree's `PartialEq` never finds two Booleans equal.
- The comparisons `<`, `<=`, `>` and `>=` accept only numbers, although
  `PartialOrd` also orders strings.
- All arithmetic and comparison operators share one flat, left-associative
  tier, so `1 + 2 * 3` is `(1 + 2) * 3`. Unary `-` and `!` take the whole
  expression that follows them, so `-3 + 2` is `-(3 + 2)`.

## Model

| member | source | states |
|---|---|---|
| Ints.TruncDivRem | src/logic/interpeter.rs:186-198 | Rust's `/` and `%` on integers (`TruncDiv`, `TruncRem`) satisfy `a == b * q + r`; `abs(r) < abs(b)`; `r` is zero or has the sign of `a`; `abs(q) * abs(b) <= abs(a)` |
| Ints.TruncDivProduct | src/logic/interpeter.rs:179-191 | dividing `a * b` by a non-zero `b` gives `a` with remainder zero |
| Ints.NatToDecimal | src/logic/interpeter.rs:87 | the decimal text of a natural number is non-empty, all digits, and starts with `0` only for zero |
| Ints.IntToDecimal | src/logic/interpeter.rs:87 | `to_string` of an integer starts with `-` exactly when the integer is negative, and is all digits otherwise |
| Ints.DecimalRoundTrip | src/logic/tokenizer.rs:121-131 | reading back the decimal text of `n` with `DecimalValue` gives `n` |
| Ints.DecimalCanonical | src/logic/tokenizer.rs:121-131 | a digit run without leading zeros is the decimal text of its own value `DecimalValue` |
| Tokenizer.DigitRun | src/logic/tokenizer.rs:121-130 | the length of the longest all-digit prefix: every character before it is a digit and the one at it is not |
| Tokenizer.WordRun | src/logic/tokenizer.rs:133-142 | the length of the longest prefix of letters and `_` |
| Tokenizer.QuoteIndex | src/logic/tokenizer.rs:108-118 | the position of the first `"`, or the end of the input; no `"` comes before it |
| Tokenizer.Keyword | src/logic/tokenizer.rs:143-153 | a word becomes `Identifier(word)` exactly when it is not one of `v w i f true false p r`; `true` and `false` become Booleans |
| Tokenizer.Lookahead | src/logic/tokenizer.rs:44-96 | `!`, `=`, `<` and `>` read two characters exactly when an `=` follows, giving the two-character token; otherwise one character and the one-character token |
| Tokenizer.SymbolLexeme | src/logic/tokenizer.rs:44-107 | an operator or punctuation character gives one token, never `EndOfFile`, reading one or two characters |
| Tokenizer.StringLexeme | src/logic/tokenizer.rs:108-120 | a string literal reads at least its opening quote and no further than the input |
| Tokenizer.NumberLexeme | src/logic/tokenizer.rs:121-132 | a digit run, when it fits an `i32`, reads at least one character |
| Tokenizer.WordLexeme | src/logic/tokenizer.rs:133-154 | a word reads at least one character |
| Tokenizer.Step | src/logic/tokenizer.rs:41-156 | one turn of the scanning loop reads between one character and the whole input |
| Tokenizer.LexFrom | src/logic/tokenizer.rs:41-157 | the scanned tokens number at most the characters; each is well formed (identifiers are non-reserved words, strings hold no `"`, numbers are non-negative, never `EndOfFile`); the only error is an oversized digit run |
| Tokenizer.StepToken | src/logic/tokenizer.rs:41-156 | every token one turn of the loop emits is well formed |
| Tokenizer.Tokens | src/logic/tokenizer.rs:37-161 | the token list is non-empty, at most one longer than the script, ends in `EndOfFile` and has no other `EndOfFile` |
| Tokenizer.ScanString | src/logic/tokenizer.rs:108-120 | the inner string loop returns the literal's text and the position after it, as `StringLexeme` describes |
| Tokenizer.ScanNumber | src/logic/tokenizer.rs:121-132 | the inner digit loop returns the number, or the out-of-range error, and the position after it, as `NumberLexeme` describes |
| Tokenizer.ScanWord | src/logic/tokenizer.rs:133-154 | the inner word loop returns the word and the position after it, as `WordLexeme` describes |
| Tokenizer.ScanSymbol | src/logic/tokenizer.rs:44-107 | the operator branches return the token and the position after it, as `SymbolLexeme` describes |
| Tokenizer.Tokenize | src/logic/tokenizer.rs:37-161 | the scanning loop returns exactly `Tokens(code)` |
| TokenizerProperties.TokensOfEmpty | src/logic/tokenizer.rs:159-160 | the empty script scans to `[EndOfFile]` |
| TokenizerProperties.WhitespaceSkipped | src/logic/tokenizer.rs:43 | a space, tab, CR or LF produces no token |
| TokenizerProperties.TwoCharacterOperator | src/logic/tokenizer.rs:44-96 | `!=`, `==`, `<=` and `>=` scan to one token each |
| TokenizerProperties.OneCharacterOperator | src/logic/tokenizer.rs:44-96 | `!`, `=`, `<` or `>` not followed by `=` scans to its one-character token and leaves the next character to the next turn |
| TokenizerProperties.LogicalOperator | src/logic/tokenizer.rs:97-98 | `&` scans to `And` and `\|` to `Or` |
| TokenizerProperties.DoubledLogicalOperator | src/logic/tokenizer.rs:97-98 | `&&` scans to two `And` tokens and `\|\|` to two `Or` tokens |
| TokenizerProperties.StringLiteral | src/logic/tokenizer.rs:108-120 | a quoted literal scans to `String` of exactly the characters between the quotes |
| TokenizerProperties.UnterminatedStringLiteral | src/logic/tokenizer.rs:108-120 | a literal without a closing quote still scans to a `String` of the rest of the input |
| TokenizerProperties.NumberLiteral | src/logic/tokenizer.rs:121-132 | any maximal digit run, leading zeros included, scans to `Number` of its decimal value when that fits an `i32`, and otherwise to `NumberOutOfRange` of the run; scanning then goes on after the run |
| TokenizerProperties.WordLiteral | src/logic/tokenizer.rs:133-154 | a maximal word scans to its keyword token or to `Identifier(word)` |
| TokenizerProperties.DigitEndsWord | src/logic/tokenizer.rs:136-142 | a digit ends a word and starts a new token |
| TokenizerProperties.UnknownCharacter | src/logic/tokenizer.rs:155 | any other character, `_` included, scans to one `Unknown` |
| Ast.NodeEqIsLeafEquality | src/logic/ast.rs:325-334 | `eq` (`NodeEq`) holds exactly for equal numbers, strings or identifiers; it is symmetric and not reflexive on other nodes |
| Ast.CompareTextProperties | src/logic/ast.rs:313 | the order on strings (`CompareText`) answers `Equal` exactly for equal strings and is antisymmetric |
| Ast.NodeCmpProperties | src/logic/ast.rs:309-317 | `partial_cmp` (`NodeCmp`) is defined exactly on two numbers or two strings, is antisymmetric, and answers `Equal` exactly when `eq` holds and the nodes are not identifiers (`eq` also relates identifiers, `partial_cmp` does not) |
| Parser.ConsumeAt | src/logic/ast.rs:272-283 | `consume(t)` succeeds exactly when the current token is `t`, then steps one token and stays in bounds; otherwise it reports the expected and the found token |
| Parser.NextTokenAt | src/logic/ast.rs:297-304 | `next_token` succeeds exactly when the cursor is before the last token, and steps one |
| Parser.ConsumeIdentifierAt | src/logic/ast.rs:285-295 | `consume_identifier` succeeds exactly on an identifier, returning its name and stepping one |
| Parser.ExpressionAt | src/logic/ast.rs:164-175 | a parsed expression consumes at least one token and stops at a token that is neither a simple-tier nor a logical operator |
| Parser.ExpressionTail | src/logic/ast.rs:166-173 | the `&`/`\|` fold stops at a token that is no operator of either tier |
| Parser.SimpleExpressionAt | src/logic/ast.rs:177-201 | a simple expression consumes at least one token and stops at a token that is not a simple-tier operator |
| Parser.SimpleTail | src/logic/ast.rs:179-199 | the simple-tier fold stops at a token that is not a simple-tier operator |
| Parser.TermAt | src/logic/ast.rs:203-216 | a term consumes at least one token and stops at a token that is neither `=` nor `!=` |
| Parser.TermTail | src/logic/ast.rs:206-213 | the `=`/`!=` fold stops at a token that is neither `=` nor `!=` |
| Parser.FactorAt | src/logic/ast.rs:218-264 | a factor consumes at least one token and leaves the cursor in bounds; any token that starts no factor is rejected, as `RejectedFactor` states |
| Parser.Parenthesised | src/logic/ast.rs:236-244 | a parenthesised factor succeeds only when the inner expression does, and it ends one token after the inner expression, in bounds |
| Parser.Prefixed | src/logic/ast.rs:245-258 | a `-` or `!` factor succeeds only when its operand expression does, and ends where that expression ends |
| Parser.StatementAt | src/logic/ast.rs:45-58 | a statement consumes at least one token and leaves the cursor in bounds; any token that starts no statement is rejected, as `RejectedStatement` states |
| Parser.VariableDeclarationAt | src/logic/ast.rs:60-73 | `v name = expr` consumes at least one token and leaves the cursor in bounds |
| Parser.WhileAt | src/logic/ast.rs:75-92 | `w cond { ... }` consumes at least one token and leaves the cursor in bounds |
| Parser.IfAt | src/logic/ast.rs:94-111 | `i cond { ... }` consumes at least one token and leaves the cursor in bounds |
| Parser.FunctionDeclarationAt | src/logic/ast.rs:113-130 | `f name { ... }` consumes at least one token and leaves the cursor in bounds |
| Parser.PrintAt | src/logic/ast.rs:132-138 | `p expr` consumes at least one token and leaves the cursor in bounds |
| Parser.AssignmentAt | src/logic/ast.rs:140-162 | an identifier-led statement consumes at least one token and leaves the cursor in bounds |
| Parser.BlockAt | src/logic/ast.rs:84-89 | a body loop ends just after a consumed `}` and keeps the statements collected so far as a prefix; reaching `EndOfFile` first fails, as `BlockAtEnd` states |
| Parser.ProgramAt | src/logic/ast.rs:36-39 | the program loop ends exactly at `EndOfFile` and keeps the statements collected so far as a prefix |
| Parser.ProgramNodeAt | src/logic/ast.rs:33-42 | `parse` succeeds only at `EndOfFile`, with a `Program` |
| Parser.Parser.constructor | src/logic/ast.rs:29-31 | the cursor starts at the first token of a list ending in `EndOfFile` |
| Parser.Parser.CurrentToken | src/logic/ast.rs:267-269 | the token under the cursor; at the last position it is `EndOfFile` |
| Parser.Parser.Consume | src/logic/ast.rs:272-283 | the method's result and cursor are those of `ConsumeAt`; the cursor stays in bounds |
| Parser.Parser.NextToken | src/logic/ast.rs:297-304 | the method's result and cursor are those of `NextTokenAt`; the cursor stays in bounds |
| Parser.Parser.ConsumeIdentifier | src/logic/ast.rs:285-295 | the method's result and cursor are those of `ConsumeIdentifierAt` |
| Parser.Parser.ParseExpression | src/logic/ast.rs:164-175 | the fold loop's result and cursor are those of `ExpressionAt` |
| Parser.Parser.ParseSimpleExpression | src/logic/ast.rs:177-201 | the fold loop's result and cursor are those of `SimpleExpressionAt` |
| Parser.Parser.ParseTerm | src/logic/ast.rs:203-216 | the fold loop's result and cursor are those of `TermAt` |
| Parser.Parser.ParseFactor | src/logic/ast.rs:218-264 | the result and cursor are those of `FactorAt` |
| Parser.Parser.ParseParenthesised | src/logic/ast.rs:236-244 | the `(` branch: the result and cursor are those of `Parenthesised` applied to the inner expression |
| Parser.Parser.ParsePrefixed | src/logic/ast.rs:245-258 | the `-` and `!` branches: the result and cursor are those of `Prefixed` applied to the operand expression |
| Parser.Parser.ParseStatement | src/logic/ast.rs:45-58 | the result and cursor are those of `StatementAt` |
| Parser.Parser.ParseVariableDeclaration | src/logic/ast.rs:60-73 | the result and cursor are those of `VariableDeclarationAt` |
| Parser.Parser.ParseWhile | src/logic/ast.rs:75-92 | the result and cursor are those of `WhileAt` |
| Parser.Parser.ParseIf | src/logic/ast.rs:94-111 | the result and cursor are those of `IfAt` |
| Parser.Parser.ParseFunctionDeclaration | src/logic/ast.rs:113-130 | the result and cursor are those of `FunctionDeclarationAt` |
| Parser.Parser.ParsePrint | src/logic/ast.rs:132-138 | the result and cursor are those of `PrintAt` |
| Parser.Parser.ParseAssignment | src/logic/ast.rs:140-162 | the result and cursor are those of `AssignmentAt` |
| Parser.Parser.ParseBlock | src/logic/ast.rs:82-89 | the body loop's result and cursor are those of `BlockAt` |
| Parser.Parser.Parse | src/logic/ast.rs:33-42 | the statement loop's result and cursor are those of `ProgramNodeAt` |
| Parser.Parse | src/logic/ast.rs:336-339 | the public `parse` returns exactly `ParseTokens(tokens)` |
| Parser.ParseTokens | src/logic/ast.rs:336-339 | a successful parse of a token list is a `Program` node |
| ParserProperties.FactorOfLeaf | src/logic/ast.rs:220-235 | a number, string, Boolean or identifier token parses to its leaf and steps one token |
| ParserProperties.FactorOfUnary | src/logic/ast.rs:245-257 | `-` or `!` parses (through `Prefixed`) to `Unary` of the whole expression after it, ending where that expression ends |
| ParserProperties.FactorOfParentheses | src/logic/ast.rs:236-244 | `( e )` parses to `e` itself and consumes the `)` |
| ParserProperties.TermStep | src/logic/ast.rs:206-213 | one turn of the `=`/`!=` fold wraps the left node and the next factor |
| ParserProperties.SimpleStep | src/logic/ast.rs:179-199 | one turn of the simple-tier fold wraps the left node and the next term |
| ParserProperties.ExpressionStep | src/logic/ast.rs:166-173 | one turn of the `&`/`\|` fold wraps the left node and the next simple expression |
| ParserProperties.ExpressionOfFactor | src/logic/ast.rs:164-216 | a factor followed by no operator is the whole expression |
| ParserProperties.RenderParses | src/logic/ast.rs:218-264 | every fully parenthesised expression parses back to itself, consuming exactly its tokens |
| ParserProperties.BinaryParses | src/logic/ast.rs:164-216 | `l op r` followed by `)` parses to `Binary(l, op, r)` for an operator of any tier |
| ParserProperties.UnaryParses | src/logic/ast.rs:245-257 | `( op x )` parses to `Unary(op, x)` |
| ParserProperties.PrintRenderParses | src/logic/ast.rs:33-42 | `p` followed by a fully parenthesised expression parses to a one-statement `Program` |
| ParserProperties.FlatLeftFold | src/logic/ast.rs:177-201 | `a o1 b o2 c` on the simple tier groups as `(a o1 b) o2 c`, so `1 + 2 * 3` is `(1 + 2) * 3` |
| ParserProperties.EqualsBindsTighter | src/logic/ast.rs:203-216 | `a + b = c` groups as `a + (b = c)` |
| ParserProperties.UnaryTakesWholeExpression | src/logic/ast.rs:245-257 | `- a + b` groups as `-(a + b)`, and likewise for `!` |
| ParserProperties.ParenthesesGroup | src/logic/ast.rs:236-244 | `a * (b + c)` groups as written |
| ParserProperties.MissingRightParen | src/logic/ast.rs:241 | `( a` without `)` fails, expecting `)` and finding `EndOfFile` |
| ParserProperties.NameStatement | src/logic/ast.rs:140-162 | an identifier followed by `!` is a call, followed by `=` an assignment, and followed by anything else an error naming that token |
| ParserProperties.UnclosedBody | src/logic/ast.rs:84-87 | the whole script `w a { p a` fails, expecting a statement and finding `EndOfFile` |
| ParserProperties.RejectedStatement | src/logic/ast.rs:53-56 | at any token other than `v`, `w`, `i`, `f`, `p` or a name (`Unknown`, `r`, a number, `)`, `EndOfFile`, ...) a statement fails with `ExpectedStatement` naming that token |
| ParserProperties.RejectedFactor | src/logic/ast.rs:259-262 | at any token other than a literal, a name, `(`, `-` or `!` a factor fails with `ExpectedFactor` naming that token |
| ParserProperties.BlockAtEnd | src/logic/ast.rs:84-85 | a `w`, `i` or `f` body that reaches `EndOfFile` before `}` fails with `ExpectedStatement(EndOfFile)`, whatever statements it has collected |
| ParserProperties.RejectedProgram | src/logic/ast.rs:36-37 | a script whose first token starts no statement and is not `EndOfFile` (one that begins with an unknown character, say) does not parse, and the error names that token |
| Operators.Checked | src/logic/interpeter.rs:164 | an `i32` result succeeds exactly when it is in range, and is otherwise the overflow error |
| Operators.BinaryOp | src/logic/interpeter.rs:126-150 | a binary operation yields a value; the value is a Boolean exactly when the operator is not one of `+ - * / %` |
| Operators.UnaryOp | src/logic/interpeter.rs:152-158 | `-` maps a number to its negation and `!` a Boolean to its negation; nothing else succeeds |
| Operators.Stringify | src/logic/interpeter.rs:85-92 | printing succeeds exactly on numbers, strings and Booleans |
| OperatorProperties.PlusOperands | src/logic/interpeter.rs:162-170 | `+` (`Add`) succeeds exactly on two numbers whose sum fits an `i32` or on two strings; on numbers it gives the sum and on strings their concatenation |
| OperatorProperties.NumericOperands | src/logic/interpeter.rs:172-262 | `-`, `*`, `/`, `%` and the four comparisons succeed only on two numbers; the comparisons always succeed on two numbers; `-` (`Subtract`) and `*` (`Multiply`) on two numbers succeed exactly when the difference or product fits an `i32`, and give it |
| OperatorProperties.DivisionUndoesMultiplication | src/logic/interpeter.rs:179-198 | `*` (`Multiply`) is commutative, and `/` and `%` by `b` take a successful product `a * b` back to `a` with remainder zero |
| OperatorProperties.LogicOperands | src/logic/interpeter.rs:264-277 | `&` and `\|` (`Logic`) succeed exactly on two Booleans and give their conjunction or disjunction |
| OperatorProperties.NotAnOperator | src/logic/interpeter.rs:132-149 | a token outside the fifteen dispatched operators is rejected as an unexpected operator, whatever the operands |
| OperatorProperties.DivisionAndRemainder | src/logic/interpeter.rs:186-198 | `/` (`Divide`) and `%` (`Remainder`) fail exactly on a zero divisor and on `MIN` by `-1`; otherwise they satisfy the division identity with a remainder smaller than the divisor, of the dividend's sign |
| OperatorProperties.InequalityNegatesEquality | src/logic/interpeter.rs:224-234 | `!=` (`Inequality`) succeeds on the same operands as `==` (`Equality`), with the opposite answer |
| OperatorProperties.EqualityIsStructural | src/logic/interpeter.rs:200-222 | `==` (`Equality`) succeeds exactly on two values of one of the four leaf kinds and is then structural equality; off Booleans it agrees with `eq` |
| OperatorProperties.ComparisonsFollowOrdering | src/logic/interpeter.rs:236-262 | the comparisons (`Compare`) succeed exactly on two numbers and agree with `partial_cmp`; `<` is `>` swapped, `<=` is not `>` and `>=` is not `<` |
| OperatorProperties.SubtractionUndoesAddition | src/logic/interpeter.rs:162-177 | addition (`Add`) fails exactly when the sum leaves the `i32` range, and subtraction (`Subtract`) undoes a successful addition |
| OperatorProperties.NegationInvolution | src/logic/interpeter.rs:280-285 | unary `-` (`Negate`) fails only on `MIN`, otherwise gives the negated number, and is its own inverse |
| OperatorProperties.NotInvolution | src/logic/interpeter.rs:287-292 | `!` (`Not`) succeeds exactly on Booleans and is its own inverse |
| OperatorProperties.PrintsAsTrue | src/logic/interpeter.rs:64 | a value passes the `if`/`w` test (`IsTrue`) exactly when it is the Boolean `true` or the string `"true"` |
| OperatorProperties.DigitsScanBack | src/logic/tokenizer.rs:121-132 | any digit run alone, leading zeros included, scans to the one token `Number` of its decimal value when that fits an `i32`, and otherwise to `NumberOutOfRange` of the run |
| OperatorProperties.PrintedNumberScansBack | src/logic/interpeter.rs:87 | a printed number scans back to `Number(n)`, or to `-` and `Number(-n)` when negative, except `MIN`, whose text fails to scan |
| Interpreter.Eval | src/logic/interpeter.rs:94-124 | evaluation yields only numbers, strings and Booleans |
| Interpreter.Exec | src/logic/interpeter.rs:16-83 | a statement only adds or rebinds names and appends printed lines, both when it finishes and in the state a panic stops it in |
| Interpreter.ExecAll | src/logic/interpeter.rs:19-21 | a statement list only adds or rebinds names and appends printed lines; it stops at the first panic, keeping the lines printed so far |
| Interpreter.ExecWhile | src/logic/interpeter.rs:70-80 | a loop only adds or rebinds names and appends printed lines, both when it finishes and when it panics |
| Interpreter.Interpreter.constructor | src/logic/interpeter.rs:10-14 | a new interpreter has no bindings and has printed nothing |
| Interpreter.Interpreter.Interpret | src/logic/interpeter.rs:16-83 | `interpret` leaves the object in the state `Exec` describes and reports `Exec`'s error, also on a panic part-way, when the state reached includes the lines printed before it |
| Interpreter.Interpreter.RunAll | src/logic/interpeter.rs:19-21 | the statement `for` loop leaves the state `ExecAll` describes, with its error, also when a statement panics |
| Interpreter.Interpreter.RunWhile | src/logic/interpeter.rs:70-80 | the `while` loop leaves the state `ExecWhile` describes, with its error, also when it panics |
| Interpreter.Run | src/logic/interpeter.rs:295-298 | the public `interpret` reports, from a fresh interpreter, exactly the printed lines and the error `Outcome` describes |
| Interpreter.Outcome | src/logic/interpeter.rs:295-298 | a run reports no error exactly when `Exec` from the empty state finishes |
| InterpreterProperties.EvalFuelMonotone | src/logic/interpeter.rs:94-124 | evaluation that does not run out of fuel gives the same answer with more fuel |
| InterpreterProperties.ExecFuelMonotone | src/logic/interpeter.rs:16-83 | a statement that does not run out of fuel gives the same answer with more fuel |
| InterpreterProperties.ExecAllFuelMonotone | src/logic/interpeter.rs:19-21 | the same for a statement list |
| InterpreterProperties.ExecWhileFuelMonotone | src/logic/interpeter.rs:70-80 | the same for a loop |
| InterpreterProperties.WhileExit | src/logic/interpeter.rs:72-79 | when a loop finishes, its condition evaluates in the final state and does not print as `true` |
| InterpreterProperties.ExecAllAppend | src/logic/interpeter.rs:19-21 | running `a + b` is running `a` and then `b` from the state it leaves, stopping at the first error |
| InterpreterProperties.StatementEffects | src/logic/interpeter.rs:23-60 | a declaration binds the name to the unevaluated node; an assignment succeeds exactly when the name is bound and the value evaluates, and rebinds it to that value; `p` appends the printed value; nothing else changes |
| InterpreterProperties.CallRunsBody | src/logic/interpeter.rs:42-52 | a call runs the bound function's body in the same state; an unbound name or a non-function binding is an error |
| InterpreterProperties.AssignmentNeedsDeclaration | src/logic/interpeter.rs:26-34 | assigning an undeclared name evaluates the value first and then fails naming the variable |
| InterpreterProperties.NoShortCircuit | src/logic/interpeter.rs:96-100 | `false & y` and `true \| y` still evaluate `y`, and fail when it is unbound |
| InterpreterProperties.ConditionMustPrintTrue | src/logic/interpeter.rs:61-69 | `if` with a number or `"false"` as condition skips the body without error; with `"true"` it runs the body |
| InterpreterProperties.SelfReferenceRunsOut | src/logic/interpeter.rs:108-114 | reading `x` after `v x = x` runs out of every amount of fuel |
| InterpreterProperties.EndlessLoopRunsOut | src/logic/interpeter.rs:74-79 | `w true { }` runs out of every amount of fuel |
| InterpreterProperties.PrintProgram | src/logic/interpeter.rs:57-60 | a one-statement `p e` program prints exactly one line, the printed value of `e`, or prints nothing and fails with `e`'s error |
| InterpreterProperties.PrintScript | src/logic/interpeter.rs:57-60 | `p` and a fully parenthesised expression parse and then print the expression's value, or fail with its error |
| InterpreterProperties.PanicKeepsPrintedLines | src/logic/interpeter.rs:19-34 | `p 1` followed by an assignment to an undeclared `x` prints `1` and then fails naming `x` |
| InterpreterProperties.AssignmentReadsOldValue | src/logic/interpeter.rs:26-34 | `v x = 5; x = x + 1; p x` prints `6` |
| InterpreterProperties.DeclarationIsLazy | src/logic/interpeter.rs:23-25 | after `v a = n; v b = a; a = m`, printing `b` prints `m` |
| InterpreterProperties.FunctionsShareEnvironment | src/logic/interpeter.rs:42-56 | a function body updates the one shared environment: two calls of an incrementing function print `2` |
| InterpreterProperties.CountingLoop | src/logic/interpeter.rs:70-80 | for any counter name `i`, `w i < b { i = i + 1 }` from `i = k <= b` stops with `i = b`, nothing else changed, using one unit of fuel per iteration |

## Left out

- src/main.rs (argument handling, reading the script file, reporting errors) is not part of this model.
- Console output: `p` appends the `stringify_value` text to a list of lines. The `{:?}` quoting and escaping that `println!` applies is not modelled.
- Error messages: the parser's and interpreter's formatted strings are structured error values here. Their text is not modelled.
- `Token::Pow`: the simple-expression loop tests for it at src/logic/ast.rs:184, but the `Token` enum has no such variant, so the model leaves it out.
- Letters: `is_alphabetic` is restricted to ASCII letters. Digits are ASCII in both the code and the model.
- Integer overflow: `+`, `-`, `*` and unary `-` on `i32` report `Overflow` when the result leaves the range. This is a debug build's panic; the wrap-around of a release build is not modelled. `MIN / -1` and `MIN % -1` are `Overflow` in both.
- Termination: evaluation and execution carry fuel and report `OutOfFuel` when it is spent. A script that needs more fuel than given is not described beyond that error.
- `Ord::cmp` (an `unwrap` of `partial_cmp`) and the `Eq` marker are not modelled; only `eq` and `partial_cmp` are.
- Parser.Parser.constructor, Parser.Parse and Parser.ParseTokens: require a token list that ends in `EndOfFile`, as every list `tokenize` produces does; on an empty list the Rust parser would index out of bounds.
- Parser.Parser.Consume: requires the expected token is not `EndOfFile`; no call site in the parser passes it.
- Operators.Compare and Operators.Logic: require one of their own operators; they are reached only through `BinaryOp`'s dispatch, as in the source.
- Interpreter.Eval, Interpreter.Exec, Interpreter.ExecAll, Interpreter.ExecWhile: describe runs only up to the given fuel, see Termination above.
