# Vowel: a Dafny model of the interpreter's front half

Vowel is a small tree-walking interpreter written in C#. It has Luganda-style
keywords: `ne` for and, `oba` for or, `wandika` for print, `albeit` for while
and `nze` for this. This project models, in Dafny, how its front half
behaves, and proves properties of that model. The front half is:

- **the scanner**: a cursor/line state machine over the source text;
- **the expression parser**: recursive descent over equality, comparison,
  term, factor, unary and primary;
- **the expression tree**: with explicit node ids, which stand in for object
  identity;
- **the resolver**: a stack of name→ready scopes that records a distance per
  variable node;
- **expression evaluation**: the operator dispatch, `CheckForDouble`,
  `Power`, `IsEqual`, `IsTruthy` and the length-based `Compare`;
- **the runtime containers**: `VowelEnvironment`, `Snapshot`,
  `VowelInstance`, `VowelClass` and `Function`.

The C# files come from different stages of the project and do not all fit
together. Each is modelled on its own terms. For example, the parser closes a
grouping with a `RIGHT_BRACE` token, which the scanner never emits, because it
maps both `)` and `}` to `RIGHT_PAREN`.

Exceptions become `Result` failures. Each failure is one of these:

- a Vowel `VowelError`;
- a `RuntimeError`;
- a `SystemFault` naming the .NET exception that the code would raise (index
  out of range, duplicate key, empty stack, stack overflow, null reference,
  bad number format).

Mutable objects become immutable datatypes, and each operation returns the
next state.

Where the code evidently does not do what its authors meant, the member
involved takes a reading, `AsWritten` or `Intended`. The scanner calls this
`Cursoring`; the resolver, the interpreter and the snapshot stack call it
`Reading`.
Properties are proved for both readings (see Findings).

Files, one module each:

| file | module | models |
|---|---|---|
| `wrappers.dfy` | `Wrappers` | `Option` and `Result` |
| `values.dfy` | `Values` | the runtime value union and how values print |
| `tokens.dfy` | `Tokens` | token kinds, locations and tokens |
| `errors.dfy` | `Errors` | the faults |
| `scanner.dfy` | `Scanner` | `vScanner/Scanner.cs` |
| `ast.dfy` | `Ast` | `Nodes/Expr.cs`, plus the statement shapes that `Passes/Resolver.cs` reads |
| `parser.dfy` | `Parser` | `vParser/Parser.cs` |
| `parser_properties.dfy` | `ParserProperties` | parsing inverts spelling: associativity and precedence |
| `resolver.dfy` | `Resolver` | `Passes/Resolver.cs` |
| `resolver_properties.dfy` | `ResolverProperties` | properties of the resolver |
| `interpreter.dfy` | `Interpreter` | `Runtime/Interpreter.cs` and `Runtime/InterpreterTools.cs` |
| `environment.dfy` | `Environments` | `Runtime/VowelEnvironment.cs` |
| `snapshot.dfy` | `Snapshots` | `Runtime/Snapshot.cs` |
| `classes.dfy` | `Classes` | `Runtime/VowelClass.cs` and `Runtime/Instance.cs` |
| `function.dfy` | `Functions` | `Runtime/Function.cs` |

## Model

| member | source | states |
|---|---|---|
| Scanner.IsDigitExactlyDigits | vScanner/Scanner.cs:150-153 | `IsDigit` holds of exactly the ten characters `0`..`9` |
| Scanner.IsAlphaExactlyLetters | vScanner/Scanner.cs:155-159 | `IsAlpha` holds of exactly the 52 ASCII letters; in particular `_` is not a letter |
| Scanner.IsAlphaNumericExactlyDigitsAndLetters | vScanner/Scanner.cs:161-164 | `IsAlphaNumeric` holds of exactly the digits together with the letters |
| Scanner.KeywordIsNotEof | vScanner/Scanner.cs:32-50 | no word of the keyword table, the Luganda-style ones included, is given the EOF kind |
| Scanner.Current | vScanner/Scanner.cs:180-187 | succeeds exactly when the cursor is inside the source; it returns the character at the cursor and moves one forward, and otherwise fails with an index fault |
| Scanner.Peek | vScanner/Scanner.cs:214-219 | at or past the end, `'\0'` without moving; inside the source, the same as `Current`; before the start, an index fault |
| Scanner.TrackBack | vScanner/Scanner.cs:198-201 | succeeds exactly inside the source; it returns the character at the cursor and moves one BACK. Outside the source it is an index fault |
| Scanner.Rewind | vScanner/Scanner.cs:193-196 | the cursor moves back by one and nothing else changes |
| Scanner.Match | vScanner/Scanner.cs:166-174 | at the end: false, not moving. Inside the source: true exactly when the character is the expected one. As written: a match does not move, a mismatch moves one forward. Intended: only a match moves |
| Scanner.AddToken | vScanner/Scanner.cs:142-148 | appends one token and keeps the earlier tokens. The location's `line` field holds the cursor offset and its `column` field holds the line counter, because the arguments are passed in the wrong order |
| Scanner.Add | vScanner/Scanner.cs:135-140 | as written: succeeds exactly when the cursor is inside the source; the lexeme is the character AT the cursor (the one after the consumed one) and the cursor moves back. Intended: the lexeme is the consumed text and the cursor stays |
| Scanner.BuildWhile | vScanner/Scanner.cs:225-231 | the peek-then-append loop keeps only the characters that follow an accepted peek. The k-th collected character sits at offset 2k+1 from the start. The loop stops at the first peek, at offset 2n, that finds the end of the source (the cursor stays there) or a character the class rejects (the cursor moves past it) |
| Scanner.TrimQuotes | vScanner/Scanner.cs:288 | the result is a slice of the text that neither starts nor ends with `"` |
| Scanner.ScanComment | vScanner/Scanner.cs:203-212 | a comment emits no token, counts no line and never moves the cursor backward |
| Scanner.ScanIdentifier | vScanner/Scanner.cs:249-273 | emits one token. A word in the keyword table gets that keyword's kind and no literal; any other word is IDENTIFIER whose literal is its own text. The word is the run `BuildWhile` collects from the word's first character, up to where that loop stops |
| Scanner.ScanString | vScanner/Scanner.cs:275-291 | emits one STRING token whose literal is its lexeme |
| Scanner.ScanNumber | vScanner/Scanner.cs:221-247 | emits one NUMBER token whose literal is the number the host's `double.Parse` reads from its lexeme |
| Scanner.ScanOperator | vScanner/Scanner.cs:83-90 | `=`, `!`, `>` and `<` add at most one token, never EOF; with the intended helpers the cursor always moves past the operator |
| Scanner.ScanSlash | vScanner/Scanner.cs:107-118 | `/` adds at most one token, never EOF: a comment or a SLASH |
| Scanner.Dispatch | vScanner/Scanner.cs:55-132 | every branch of the character switch adds at most one token, never EOF, and keeps the earlier tokens |
| Scanner.ScanTokens | vScanner/Scanner.cs:52-133 | one round of the main loop keeps the tokens so far and adds at most one non-EOF token; with the intended helpers it always moves the cursor forward |
| Scanner.ScanLoop | vScanner/Scanner.cs:23-28 | when the main loop ends, the list is the tokens it started with, then tokens none of which is EOF, then one EOF |
| Scanner.ScanSourceCode | vScanner/Scanner.cs:21-30 | a finished scan ends with exactly one EOF token, and no EOF token comes earlier |
| Scanner.ScanLoopIntended | vScanner/Scanner.cs:23-28 | with the intended helpers the main loop terminates on every input, and keeps the one-EOF-at-the-end shape |
| Scanner.ScanSourceIntended | vScanner/Scanner.cs:21-30 | with the intended helpers every successful scan ends with exactly one EOF token and has no earlier one |
| Scanner.LayoutEmitsNothing | vScanner/Scanner.cs:55-106 | a newline adds one to the line counter and emits nothing; `\r` and `\t` emit nothing; each moves the cursor one forward |
| Scanner.BracesAreParens | vScanner/Scanner.cs:59-66 | `{` gives LEFT_PAREN like `(`, and `}` gives RIGHT_PAREN like `)` |
| Scanner.SingleCharRoundDoesNotAdvance | vScanner/Scanner.cs:135-140 | as written, a one-character token leaves the cursor where the round began, with the NEXT character as its lexeme; on the last character it fails with an index fault |
| Scanner.SingleCharSourceNeverFinishes | vScanner/Scanner.cs:23-26 | as written, a source whose current character is a one-character token, with another character after it, never finishes scanning for any number of rounds |
| Scanner.TwoParensNeverFinish | vScanner/Scanner.cs:21-30 | as written, scanning `((` does not finish for any number of rounds |
| Scanner.OperatorEqualSourceNeverFinishes | vScanner/Scanner.cs:83-90 | as written, once the cursor is on one of `= ! > <` followed by `=`, the scan does not finish for any number of rounds |
| Scanner.GreaterEqualNeverFinishes | vScanner/Scanner.cs:166-174 | as written, scanning `>=` does not finish for any number of rounds, because `Match` leaves the cursor on `>` |
| Scanner.OperatorRoundAsWritten | vScanner/Scanner.cs:83-90 | as written, an operator followed by `=` gives the `…_EQUAL` kind with lexeme `=` and does not move. Otherwise it gives the one-character kind, skips one character and leaves the cursor on the character after the operator, which the next round reads; its lexeme is the character after THAT one |
| Scanner.OperatorRoundIntended | vScanner/Scanner.cs:83-90 | intended: an operator followed by `=` gives the `…_EQUAL` kind with both characters as its lexeme and moves past both; otherwise the one-character kind, moving past one |
| Scanner.SingleCharRoundIntended | vScanner/Scanner.cs:135-140 | intended: a one-character token takes its own character as lexeme and moves past it |
| Scanner.TwoParensIntended | vScanner/Scanner.cs:21-30 | intended: `((` scans to two LEFT_PAREN tokens followed by EOF |
| Parser.Check | vParser/Parser.cs:196-206 | false on the EOF token whatever kind is asked; otherwise true exactly when the current token has that kind |
| Parser.MatchTriesEachKind | vParser/Parser.cs:176-188 | `Match` succeeds exactly when `Check` succeeds for one of the listed kinds |
| Parser.TrackBack | vParser/Parser.cs:189-195 | returns the token just consumed, `tokens[current - 1]`, without moving |
| Parser.Consume | vParser/Parser.cs:164-174 | on a kind match, returns the token and moves one forward; otherwise a VowelError carrying the current token and the message |
| Parser.OperatorsOfLevel | vParser/Parser.cs:58-116 | each level's loop matches exactly the operators of its own level: equality `==`/`!=`, comparison, term `+`/`-`, and factor `*`/`/`/`%`/`^` |
| Parser.Expression | vParser/Parser.cs:52-56 | a successful expression consumes at least one token and stops before the end; its only faults are VowelError and "Unexpected token" |
| Parser.BinaryLevel | vParser/Parser.cs:58-116 | a binary level consumes at least one token, stops before the end, and raises only parse faults |
| Parser.Fold | vParser/Parser.cs:62-67 | a level's `while (Match(ops))` loop never moves backward and stops before the end of the list |
| Parser.Unary | vParser/Parser.cs:119-131 | a unary consumes at least one token and stops before the end |
| Parser.Primary | vParser/Parser.cs:135-149 | a primary consumes at least one token, stops before the end, and raises only parse faults |
| Parser.Grouping | vParser/Parser.cs:152-157 | a grouping spans from its opening token and stops before the end; it raises only parse faults, a missing RIGHT_BRACE being `Consume`'s VowelError |
| Parser.ExpressionBuilt | vParser/Parser.cs:52-56 | an expression parse is a well-shaped tree whose node ids run in post-order from the first free id |
| Parser.BinaryLevelBuilt | vParser/Parser.cs:58-116 | a level builds a tree no looser than itself: every operator above a tighter one, and each level folded left |
| Parser.FoldBuilt | vParser/Parser.cs:62-67 | a level's loop keeps the tree built: shaped, no looser than the level, numbered in post-order from the first free id |
| Parser.UnaryBuilt | vParser/Parser.cs:119-131 | a unary parse is a well-shaped, post-order-numbered tree whose root is not a binary node |
| Parser.PrimaryBuilt | vParser/Parser.cs:135-149 | a primary is a well-shaped, post-order-numbered tree whose root is not a binary node |
| Parser.GroupingBuilt | vParser/Parser.cs:152-157 | a grouping is a well-shaped, post-order-numbered tree whose root is not a binary node, whatever the level of the expression inside |
| Parser.ParseFrom | vParser/Parser.cs:34-37 | the loop keeps the expressions done so far and appends well-shaped trees numbered one after another. A loop that ends without a report either started at EOF or parsed at least one more expression. A reported fault is a VowelError; an escaping one is "Unexpected token" |
| Parser.Parse | vParser/Parser.cs:29-45 | `Parse` returns well-shaped trees numbered consecutively from 0. It reports only VowelErrors, and only "Unexpected token" escapes |
| ParserProperties.ParsesLevel | vParser/Parser.cs:58-116 | a binary level parses back exactly the tree spelled at the cursor, up to the first token that is not an operator of that level or a tighter one |
| ParserProperties.ParsesUnary | vParser/Parser.cs:119-131 | `Unary` parses back exactly a spelled prefix-operator chain over a primary |
| ParserProperties.ParsesPrimary | vParser/Parser.cs:135-145 | `Primary` parses back exactly a spelled literal or grouping |
| ParserProperties.ParsesGroup | vParser/Parser.cs:145-157 | an opening token, a spelled expression and a RIGHT_BRACE parse back to exactly that group |
| ParserProperties.ParseInvertsSpell | vParser/Parser.cs:29-45 | every well-shaped tree numbered from 0, spelled out as tokens and followed by EOF, is exactly what `Parse` returns |
| ParserProperties.MinusFoldsLeft | vParser/Parser.cs:87-100 | `a - b - c` parses as `(a - b) - c` |
| ParserProperties.TighterOperatorsSitBelow | vParser/Parser.cs:58-100 | `a + b * c` parses as `a + (b * c)`, and `a == b < c` as `a == (b < c)` |
| Ast.Accept | Nodes/Expr.cs:20-115 | each variant's `Accept` returns the result of the visitor method for that variant |
| Ast.AcceptUsesOnlyOwnMethod | Nodes/Expr.cs:20-115 | `Accept` reads no visitor method but its own variant's: two visitors that agree on it give the same result |
| Ast.PostOrderIdsAreDistinct | Nodes/Expr.cs:21-59 | post-order numbering gives the nodes exactly the ids `first` to `first + size - 1` |
| Ast.PostOrderIdsCount | Nodes/Expr.cs:21-59 | post-order numbering gives every node its own id, standing in for object identity |
| Resolver.BeginScope | Passes/Resolver.cs:161-165 | pushes one empty scope on top and leaves the scopes below, the distances and the warnings alone |
| Resolver.Declare | Passes/Resolver.cs:131-137 | with no scope, does nothing. Otherwise it fails with a duplicate key exactly when the innermost scope has the name; else the name is added there, not ready, and nothing else changes |
| Resolver.Define | Passes/Resolver.cs:138-149 | with no scope, does nothing. Otherwise it raises VowelError "Undefined variable" exactly when the innermost scope lacks the name; else the name is marked ready |
| Resolver.Lookup | Passes/Resolver.cs:167-186 | the loop as written: a distance d >= 0 means scope d + 1 holds the name and no scope further out does; -1 means no scope but possibly the innermost holds it |
| Resolver.Innermost | Passes/Resolver.cs:167-186 | the innermost scope holding the name: no scope nearer the top holds it, and none means no scope holds it |
| Resolver.Distance | Passes/Resolver.cs:167-186 | as written, `Lookup`. Intended: d >= 0 exactly when some scope holds the name, and then d is the innermost scope holding it; otherwise -1, the global marker |
| Resolver.Record | Passes/Resolver.cs:167-186 | records the distance under the node's id, keeping every other recorded distance, the scopes, the warnings and the reading |
| Resolver.ResolveExpr | Passes/Resolver.cs:35-222 | resolving an expression leaves the scopes alone, (re)records distances only for its own nodes and only appends warnings |
| Resolver.ResolveExprs | Passes/Resolver.cs:212-222 | a call's arguments, in order, with the same effect bound |
| Resolver.DeclareDefine | Passes/Resolver.cs:226-233 | `Declare` then `Define` never raises "Undefined variable"; it fails only on a duplicate and otherwise leaves the name ready |
| Resolver.DeclareParameters | Passes/Resolver.cs:230-234 | every parameter ends up ready in the innermost scope and names ready before stay ready; the only fault is a duplicate key |
| Resolver.FunctionHeader | Passes/Resolver.cs:224-234 | the function's name is ready in the enclosing scope and every parameter is ready in the one new scope; the only fault is a duplicate key |
| Resolver.ResolveStmt | Passes/Resolver.cs:49-130 | a statement pushes exactly its own count of scopes, never pops one, leaves the scopes below the old top alone, only grows the old top's names, and faults only with a duplicate key or a null dereference |
| Resolver.ResolveBlock | Passes/Resolver.cs:49-58 | a block pushes one scope, plus those of its statements, and pops none |
| Resolver.ResolveVar | Passes/Resolver.cs:99-110 | after a var statement the name is present and ready in the innermost scope and no scope is pushed; the only fault is a duplicate key |
| Resolver.ResolveIf | Passes/Resolver.cs:119-130 | an if statement pushes exactly the scopes of its branches and faults only with a duplicate key or a null dereference |
| Resolver.ResolveFunction | Passes/Resolver.cs:224-245 | a function declaration pushes one scope for its parameters plus those its body's statements push, and faults only with a duplicate key or a null dereference |
| Resolver.ResolveStmts | Passes/Resolver.cs:52-55 | a statement list pushes the sum of its statements' scopes and faults only with a duplicate key or a null dereference |
| Resolver.CleanUp | Passes/Resolver.cs:257-260 | empties the scope stack and keeps the recorded distances and warnings |
| Resolver.ResolveProgram | Passes/Resolver.cs:15-33 | the stack is empty afterwards however the pass ended. Only a VowelError is reported; every other fault escapes. The pass finishes exactly when all statements resolve |
| ResolverProperties.TopOnlyLooksGlobal | Passes/Resolver.cs:167-186 | a name held only by the top scope is recorded as -1, like a global |
| ResolverProperties.OutermostBindingWins | Passes/Resolver.cs:172-179 | when several scopes hold a name, the one nearest the bottom of the stack is recorded |
| ResolverProperties.ShadowedNameResolvesOutward | Passes/Resolver.cs:167-186 | with `x` in the innermost scope and two scopes out, the loop as written records 1 (the outer binding, off by one) where the innermost-first search records 0 |
| ResolverProperties.InnermostLocalLooksGlobal | Passes/Resolver.cs:167-186 | as written, a local of the innermost of two scopes is recorded as -1, the global marker; the innermost-first search records 0 |
| ResolverProperties.UnshadowedLookupIsOneShort | Passes/Resolver.cs:167-186 | when exactly one scope, not the innermost, holds a name, the loop as written records one less than the distance the innermost-first search records |
| ResolverProperties.GlobalVariableRecordsNothing | Passes/Resolver.cs:89-97 | with an empty stack a variable records nothing, while an assignment records -1 |
| ResolverProperties.LocalVariableRecorded | Passes/Resolver.cs:89-97 | inside some scope a variable records its distance under its own id and leaves the scopes alone |
| ResolverProperties.TernaryWithoutElseWarns | Passes/Resolver.cs:188-203 | a ternary without an else branch resolves the condition and the then-branch and appends exactly the advisory warning |
| ResolverProperties.InitializerSeesUnreadyName | Passes/Resolver.cs:99-110 | the initializer is resolved between `Declare` and `Define`, with the name present but not ready |
| ResolverProperties.VarLeavesNameReady | Passes/Resolver.cs:99-110 | a var statement fails exactly when its name is already in the innermost scope; otherwise the name ends up ready |
| ResolverProperties.RedeclarationEscapes | Passes/Resolver.cs:15-33 | declaring a name twice in one block is a duplicate-key fault that escapes the pass, after `CleanUp` has emptied the stack |
| ResolverProperties.BlockDeepensByOne | Passes/Resolver.cs:49-58 | a block of statements that open no scopes leaves the stack one deeper |
| ResolverProperties.FunctionBodyShareParameterScope | Passes/Resolver.cs:224-245 | a function whose body opens no scopes leaves the stack exactly one deeper: its body does not get a second scope |
| ResolverProperties.FunctionHeaderBindings | Passes/Resolver.cs:224-234 | after the header the function's name is ready one scope out, and every parameter is ready in the new scope |
| ResolverProperties.RepeatedParameterFails | Passes/Resolver.cs:229-234 | a repeated parameter name fails with a duplicate key |
| ResolverProperties.ResolveNeverReports | Passes/Resolver.cs:15-33 | the pass never reports a VowelError, because every `Define` follows a `Declare` of the same name; its faults all escape |
| Interpreter.PowerOfWhole | Runtime/InterpreterTools.cs:10-15 | for a whole exponent n within the stack depth, `Power(v, n)` is v multiplied n times |
| Interpreter.PowerBeyondDepth | Runtime/InterpreterTools.cs:10-15 | a whole exponent deeper than the stack allows overflows the stack |
| Interpreter.PowerOfFractionOverflows | Runtime/InterpreterTools.cs:10-15 | a negative or fractional exponent never reaches 0 and overflows the stack at any depth |
| Interpreter.PowerSucceedsExactly | Runtime/InterpreterTools.cs:10-15 | `Power` succeeds exactly for a whole exponent within the stack depth, and then gives the natural power |
| Interpreter.CheckForDouble | Runtime/InterpreterTools.cs:16-27 | no fault exactly when both operands are doubles. Otherwise a RuntimeError naming the left side if the left operand is not a double, and the right side only when the left one is |
| Interpreter.IsEqual | Runtime/InterpreterTools.cs:29-34 | null equals only null. Otherwise two values are equal exactly when they have the same type and contents, so a boxed int never equals a double |
| Interpreter.IsTruthy | Runtime/InterpreterTools.cs:36-46 | null and `false` are falsy; everything else, 0 and the empty string included, is truthy |
| Interpreter.CompareByMeasure | Runtime/InterpreterTools.cs:48-154 | `Compare` holds exactly when both sides are numbers or strings and the operator's relation holds between their measures: a number is itself, a string is its length |
| Interpreter.ComparisonComplements | Runtime/InterpreterTools.cs:48-154 | on comparable pairs GREATER is the negation of LESS_EQUAL and LESS the negation of GREATER_EQUAL; on any other pair all four are false |
| Interpreter.StringLongerThanNumber | Runtime/InterpreterTools.cs:60-67 | `"class string" > 4` is true |
| Interpreter.RemainderSpec | Runtime/Interpreter.cs:46-52 | `%` leaves `a` less a whole multiple of `b`. The result is smaller than `b` in size and never of the opposite sign to `a` |
| Interpreter.RemainderMultiple | Runtime/Interpreter.cs:46-52 | what `%` takes away from `a` is `b` times the quotient truncated toward zero |
| Interpreter.RemainderSmall | Runtime/Interpreter.cs:46-52 | the remainder is smaller than `b` in size |
| Interpreter.RemainderSign | Runtime/Interpreter.cs:46-52 | the remainder is never of the opposite sign to `a` |
| Interpreter.ZeroPower | Runtime/Interpreter.cs:54-59 | `x ^ 0` gives the double 1 exactly under the intended reading; as written it gives the boxed int 1, which is not a double |
| Interpreter.Arithmetic | Runtime/Interpreter.cs:29-60 | `-`, `*` give the difference and product. `/` and `%` fail with "Zero division" exactly when `b` is 0, and otherwise give the quotient and the truncated remainder. `^` with `b` 0 gives `ZeroPower`; otherwise it succeeds exactly when `Power` does, with its value. No other failure is possible |
| Interpreter.Checked | Runtime/Interpreter.cs:29-56 | the type check comes before the operator: a non-double operand is the check's fault, whatever the other operand or a zero divisor |
| Interpreter.BinaryOp | Runtime/Interpreter.cs:19-82 | `+` adds two doubles and otherwise joins the printed forms. `-*/%^` need doubles, and `/` and `%` fail with "Zero division" exactly on a double left operand and a zero right operand. `==`/`!=` are value equality; `> >= < <=` give the bool `Compare` decides; `-*/%^` on two doubles are exactly `Arithmetic`; anything else is "Could not perform operation" |
| Interpreter.UnaryOp | Runtime/Interpreter.cs:95-111 | minus fails exactly on a non-double. As written it returns the operand unchanged, as intended its negation. Every other operator is "Unknown operator" |
| Interpreter.Eval | Runtime/Interpreter.cs:114-117 | evaluation fails only with a RuntimeError or a stack overflow, never a VowelError |
| Interpreter.Interpret | Runtime/Interpreter.cs:9-12 | no fault escapes exactly when evaluation succeeds, and a fault that escapes is never a VowelError |
| Interpreter.LiteralIsItsValue | Runtime/Interpreter.cs:90-93 | a literal evaluates to its stored value and never fails |
| Interpreter.GroupIsTransparent | Runtime/Interpreter.cs:85-88 | a group has the value of its inner expression |
| Interpreter.LeftOperandFirst | Runtime/Interpreter.cs:14-18 | the left operand is evaluated first: its fault is the whole fault, and the right operand's fault counts only once the left succeeds |
| Interpreter.EvalUnary | Runtime/Interpreter.cs:95-98 | a unary expression applies its operator to its operand's value |
| Interpreter.EvalBinary | Runtime/Interpreter.cs:14-19 | a binary expression applies its operator to both operands' values, left then right |
| Interpreter.EvalIgnoresIds | Runtime/Interpreter.cs:114-117 | values depend on tree structure, not node ids |
| Interpreter.MinusDoesNotNegate | Runtime/Interpreter.cs:101-106 | as written, `-3` evaluates to 3 |
| Interpreter.IntendedMinusNegates | Runtime/Interpreter.cs:101-106 | intended: minus negates, so `x + -x` is 0 for every expression with a double value |
| Interpreter.EvalPower | Runtime/Interpreter.cs:54-60 | `x ^ y` over two numbers is the double operator applied to them |
| Interpreter.ZeroPowerIsNotOne | Runtime/Interpreter.cs:54-59 | as written, `2 ^ 0` is the boxed int 1, so `2 ^ 0 == 1` is false |
| Interpreter.ZeroPowerIsNotADouble | Runtime/Interpreter.cs:54-59 | as written, `2 ^ 0 - 1` is a type error naming the left side, printed as `1` |
| Interpreter.IntendedPowerIsPow | Runtime/Interpreter.cs:54-60 | intended: `x ^ n` is x multiplied n times for every whole n within the stack depth, so `x ^ 0 == 1` |
| Environments.NewEnvironment | Runtime/VowelEnvironment.cs:4-7 | a new environment keeps its enclosing environment and has no bindings |
| Environments.Define | Runtime/VowelEnvironment.cs:9-17 | an unbound name gains exactly that binding. A bound name is left as it was, so the first binding wins. The enclosing environment never changes |
| Environments.Get | Runtime/VowelEnvironment.cs:19-27 | a bound name reads its value; an unbound name reads null |
| Environments.GetAfterDefine | Runtime/VowelEnvironment.cs:9-27 | after `Define`, the name reads its first binding and every other name reads as before |
| Environments.DefineTwiceKeepsFirst | Runtime/VowelEnvironment.cs:11-14 | defining a name twice is the same as defining it once |
| Environments.DefinesCommute | Runtime/VowelEnvironment.cs:9-17 | `Define`s of different names commute |
| Environments.GetCannotSeeOutward | Runtime/VowelEnvironment.cs:19-27 | `Get` does not consult the enclosing environment, and cannot tell an unbound name from one bound to null |
| Snapshots.TakeSnapshot | Runtime/Snapshot.cs:9-29 | pushes one frame and leaves the older frames alone. The frame is the old top with the name bound to the object, or only that binding on an empty stack |
| Snapshots.GetFrame | Runtime/Snapshot.cs:51-54 | the top frame, or an empty-stack fault |
| Snapshots.GetValue | Runtime/Snapshot.cs:31-41 | reads only the top frame. An absent name raises "Undefined variable", and an empty stack is a fault |
| Snapshots.MutateValue | Runtime/Snapshot.cs:43-49 | rebinds only that name in the top frame and leaves the depth and the lower frames alone. An absent name fails. As written, it succeeds exactly when the top frame binds the name to a non-null value, so a name bound to null also fails ("Assignment to undefined variable") |
| Snapshots.PopFrame | Runtime/Snapshot.cs:56-59 | removes exactly the top frame; an empty stack is a fault |
| Snapshots.PopUndoesTake | Runtime/Snapshot.cs:56-59 | popping after a snapshot restores the stack |
| Snapshots.GetAfterTake | Runtime/Snapshot.cs:9-41 | after a snapshot the name reads the new object and every other name reads as in the old top frame |
| Snapshots.GetAfterMutate | Runtime/Snapshot.cs:43-49 | after a mutation the name reads the new value and other names read as before; popping discards the mutation |
| Snapshots.NullBoundCannotBeAssigned | Runtime/Snapshot.cs:46 | as written, a name bound to null reads as defined, yet assigning to it fails |
| Snapshots.IntendedMutateDefined | Runtime/Snapshot.cs:43-49 | intended: every name that reads successfully can be reassigned and reads back the new value |
| Classes.Arity | Runtime/VowelClass.cs:9-12 | a class takes no arguments |
| Classes.Call | Runtime/VowelClass.cs:14-17 | calling a class gives an instance of that class with no fields |
| Classes.ClassText | Runtime/VowelClass.cs:19-22 | a class prints as its name token's lexeme |
| Classes.Get | Runtime/Instance.cs:11-19 | a present field reads its value; an absent one raises "Undefined property <name>" |
| Classes.Set | Runtime/Instance.cs:21-24 | a new field is added and nothing else changes; setting a field already there fails with a duplicate key |
| Classes.InstanceText | Runtime/Instance.cs:25-28 | an instance prints as its class's name followed by " instance" |
| Classes.GetAfterSet | Runtime/Instance.cs:11-24 | a field reads back what `Set` stored, other fields are untouched, and the field cannot be set again |
| Classes.NewInstanceIsEmpty | Runtime/VowelClass.cs:14-17 | every `Get` on a new instance fails and every first `Set` succeeds |
| Classes.CallIgnoresArguments | Runtime/VowelClass.cs:14-17 | the arguments of a class call make no difference |
| Functions.Arity | Runtime/Function.cs:10-13 | a function's arity is its parameter count |
| Functions.BindFrom | Runtime/Function.cs:22-28 | binding succeeds exactly when there are no more arguments than parameters. Arguments are bound in order; a name bound earlier keeps its value; the enclosing environment stays |
| Functions.CallEnvironment | Runtime/Function.cs:21-28 | the call's environment encloses the caller's and binds exactly the parameter names that received arguments |
| Functions.Call | Runtime/Function.cs:15-43 | too many arguments fail on the index. Otherwise a completed body gives null, a `return` gives its value, and a raised fault propagates |
| Functions.ArgumentsBoundInOrder | Runtime/Function.cs:21-28 | with distinct parameter names, parameter j reads argument j, and parameters past the arguments are unbound |
| Functions.RepeatedParameterKeepsFirst | Runtime/Function.cs:22-28 | a repeated parameter name keeps the first argument |
| Functions.TooManyArgumentsFail | Runtime/Function.cs:22-24 | one argument more than the arity fails, whatever the body would do |

## Left out

- Program.cs is not part of this model: it reads the source file, writes to the console, exits the process and sets the global error flag. Vowel's `Error` and `Warning` reporting are modelled only as the outcome values `Completed(…, Some(error))`, `Reported` and the resolver's warning log.
- Strings are sequences of Unicode scalar values, not C#'s UTF-16 code units. For text outside the Basic Multilingual Plane, string lengths in `Interpreter.Compare`, the scanner's cursor offsets and the token columns differ from C#: `"\U0001F600"` is one character here and two in C#.
- Doubles are modelled as reals: rounding, infinities and NaN are not modelled. C#'s formatting of numbers and reference objects is the host's `Printer`, and `double.Parse` in `ScanNumber` is the parameter `parseNumber`.
- `Power` overflowing the call stack is modelled with an explicit depth bound, `Host.stackDepth`. The actual depth of the .NET stack is not known.
- Scanner.ScanLoop: the main loop runs on a `fuel` bound of rounds, because as written a round need not move the cursor. A scan that would run longer than the bound is reported as `Unfinished` and says nothing further.
- Scanner.ScanSourceCode: the same fuel bound applies. Its contract states the one-EOF-at-the-end shape only for scans that finish.
- Scanner.ScanString and Scanner.ScanNumber: their contracts state the token kind, the literal and that the rest of the list is kept. They do not restate the lexeme text; it is built from the runs `BuildWhile` collects, whose contract fixes each run and where it stops.
- Scanner.ScanComment: its contract states that only the cursor moves, forward, and that no token is added. It does not state where the comment ends.
- Parser.Expression, Parser.BinaryLevel, Parser.Unary, Parser.Primary, Parser.Parse, Parser.ParseFrom, Parser.Fold and Parser.Grouping require a token list that ends with an EOF token. Every list the scanner produces does.
- Parser.Fold states only where the cursor goes. The shape of the tree it builds is stated by `Parser.FoldBuilt`, and the exact tree by `ParserProperties.ParsesLevel`.
- Parser.Parse: the parser's own `Statement` stub does nothing and is left out.
- Interpreter.Eval covers only binary, unary, group and literal expressions, the variants whose visitor methods `Runtime/Interpreter.cs` has. The other visitor methods are not in that file.
- Statement execution, closures, `ExecuteBlock`, the `Return` exception class and `interpreter.env` are not part of this model. A function body's outcome is the parameter `execute`, and the caller's environment is an argument.
- The interpreter's `ResolveLocalVariable` is not part of this model. The resolver records its distances in the table `State.distances`, keyed by node id.
- Resolver.ResolveExpr and the statement functions take the distance search from the state's `reading`. Their contracts do not depend on it; the properties of each reading are stated by `Resolver.Distance` and the lemmas about it.
- Resolver.ResolveExpr: the callee of a call is a name token, and `VisitCallExpr` passes it to `Resolve` as well. That call on a token is not modelled, so no distance is recorded for a callee; only the arguments are resolved.
- Resolver.ResolveProgram: when a statement faults, the state is taken from just before that statement. Distances the failing statement recorded before its fault are not kept.
- Nodes/Stmt.cs shows only a print statement. The statement variants are taken from the fields `Passes/Resolver.cs` reads.
- The token kinds include those the scanner uses that the token-type enumeration lacks.
- The C# `Expr.Literal` stores an `object`. Here a literal stores a `Value`, and the parser's `Literal("false")` is the string value `"false"`.

## Findings

| source | as written | input that shows it | evidently intended | confidence | as-written member | corrected member |
|---|---|---|---|---|---|---|
| vScanner/Scanner.cs:135-140 | `Add` calls `TrackBack`, which reads the character AT the cursor (the one after the consumed one) and moves back onto the consumed character, so the main loop re-reads it forever | the source `((` | emit the consumed character as the lexeme and leave the cursor after it | high, not executed | Scanner.TwoParensNeverFinish | Scanner.TwoParensIntended |
| vScanner/Scanner.cs:166-174 | `Match` does not advance on a match and advances on a mismatch | `>=` gives GREATER_EQUAL with lexeme `=` and leaves the cursor on `>`, so the scan of `>=` never finishes; `>x` followed by another character gives GREATER, leaves the cursor on `x` and takes the character after `x` as its lexeme | advance exactly when the character matches | high, not executed | Scanner.GreaterEqualNeverFinishes | Scanner.OperatorRoundIntended |
| Passes/Resolver.cs:167-186 | the loop runs from position `count - 1` (the bottom of the .NET stack) down to 0 (its top), and records `i - 1` | `y` declared only in the innermost of two scopes is recorded as -1, the marker of a global | search from the innermost scope outward, as the comments in the loop say, and record the position found | medium, not executed | ResolverProperties.InnermostLocalLooksGlobal | Resolver.Distance |
| Runtime/Interpreter.cs:101-106 | unary minus returns its operand unchanged | `-3` evaluates to 3 | return the negated double | high, not executed | Interpreter.MinusDoesNotNegate | Interpreter.IntendedMinusNegates |
| Runtime/Interpreter.cs:54-59 | `x ^ 0` returns the boxed `int` 1, not the double 1 | `2 ^ 0 == 1` is false and `2 ^ 0 - 1` is a type error | return the double 1 | high, not executed | Interpreter.ZeroPowerIsNotOne | Interpreter.IntendedPowerIsPow |
| Runtime/Snapshot.cs:46 | `MutateValue` refuses a name bound to null with "Assignment to undefined variable" | snapshot `x` as null, then assign to `x` | refuse only a name that is absent, which `GetValue` already does | medium, not executed | Snapshots.NullBoundCannotBeAssigned | Snapshots.IntendedMutateDefined |
