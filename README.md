# SimpleExpressionParser in Dafny

A verified model of the single-pass expression parser of SimpleExpressionParser. `Parse` turns an
expression string such as `A+B*test(C,-2.5)` into a tree of `SyntaxTreeNode`s. Each node is a
scope, a constant, a variable or a function call. It carries its children, the operators between
them and a negation flag. The parser works in one pass over the characters and keeps a stack of
mutable parsing contexts (`ExpressionParserNode`):

- `(` and a function call push contexts;
- `)` and `,` close contexts;
- a `*`, `/` or `%` that follows a lower-precedence operator opens a raised-precedence context,
  which takes over the last operand;
- a `-` is a binary operator after an operand and toggles a pending negation otherwise;
- at the end of the input every context still open is folded into the one beneath it.

The project has these modules:

- `Wrappers`: `Option` and `Result`. Every exception the parser can raise becomes `Error`.
- `Syntax`: the public result types (`NodeType`, `Operator`, `SyntaxTreeNode`).
- `ParserNode`:
  - the value `ParseNode`, with the node operations as functions (`AddedChild`, `AddedOperator`,
    `PoppedChild`);
  - the class `ExpressionParserNode`, whose fields its methods update in place.
- `ExpressionParser`:
  - the character classes, `readWhile` (`SpanEnd`) and `ConvertTree`;
  - the meaning of one scan step on a value-level state, as functions (`Next`), with the whole
    scan (`Run`), the end-of-input collapse (`Collapsed`) and the result (`Parsed`);
  - the imperative parser, over a stack of `ExpressionParserNode` objects. It is proved to return
    exactly `Parsed`, and every helper method is proved against the step function it carries out.
- `ParserProperties`: the properties of the scan. They cover tokenisation, a structural invariant
  of the stack, when and only when a step fails, minus handling, precedence raising, closing
  parentheses, argument separation, the end-of-input collapse and tree conversion.
- `ParserSteps`: one lemma per kind of character, used to assemble concrete parses.
- `ParserExamples`: the repository's unit-test expressions and a few edge cases, each parsed to its complete tree or shown to fail.
- `ParserCorrected`: corrected versions of the `)` and `,` branches, the scan that uses them, and
  what is proved about them (see "Findings"). The rest of the model follows the code as written.
- `ParserFindings`: the inputs on which the written code and the corrected definitions differ.

The decimal marker (`ParseOptions.DecimalMarker`) is a parameter of `Parse` whose default is `'.'`.
It is `'.'` in the examples.

## Model

| member | source | states |
|---|---|---|
| `ExpressionParser.Parse` | SimpleExpressionParser/ExpressionParser.cs:14-265 | the parser, with its in-place stack of contexts, returns exactly `Parsed(expression, decimalMarker)`; blank input gives the empty scope |
| `ExpressionParser.ScanStep` | SimpleExpressionParser/ExpressionParser.cs:71-250 | one pass of the loop fails exactly when `Next` fails; otherwise the new stack of objects, cursor and pending negation are `Next`'s state |
| `ExpressionParser.ScanReserved` | SimpleExpressionParser/ExpressionParser.cs:75-156 | the `(`, `)`, `,` and `-` cases of the switch agree with `Next`, failure included |
| `ExpressionParser.ScanUnreserved` | SimpleExpressionParser/ExpressionParser.cs:157-249 | the default case (operator, number, white space, name) agrees with `Next`, failure included |
| `ExpressionParser.OpenParenthesis` | SimpleExpressionParser/ExpressionParser.cs:77-87 | `(` pushes a fresh parenthesis context carrying the pending negation; the objects below are untouched |
| `ExpressionParser.CloseParenthesis` | SimpleExpressionParser/ExpressionParser.cs:88-123 | `)` fails exactly when `ParenthesisClosed` fails, and otherwise leaves the stack's values equal to `ParenthesisClosed` of the old values |
| `ExpressionParser.CloseRaisedAndEnclosing` | SimpleExpressionParser/ExpressionParser.cs:89-93 | `)` on a raised context calls `popAndPush` twice, whatever lies beneath: it succeeds exactly when three contexts are open, drops the top two objects, and leaves the values `ParenthesisClosed` gives |
| `ExpressionParser.CloseArgumentAndFunction` | SimpleExpressionParser/ExpressionParser.cs:94-106 | `)` on a context that passes the argument test (an argument container, or a function context left open on top) succeeds exactly when three contexts are open, and closes it and the context beneath it into the next one |
| `ExpressionParser.CloseSingleChild` | SimpleExpressionParser/ExpressionParser.cs:109-115 | a context with one child is dropped and its child moves to the parent, its sign replaced by the context's sign; fails exactly when no parent exists |
| `ExpressionParser.NextArgument` | SimpleExpressionParser/ExpressionParser.cs:124-137 | `,` calls `closeFunctionParameter` on whatever context is on top and pushes a fresh argument container; fails exactly when only the base is open, and otherwise leaves the values of `ArgumentSeparated` |
| `ExpressionParser.ApplyMinus` | SimpleExpressionParser/ExpressionParser.cs:138-156 | `-` agrees with `MinusApplied`: it toggles the pending negation, or it closes a raised context and appends the `-` operator |
| `ExpressionParser.RecordMinus` | SimpleExpressionParser/ExpressionParser.cs:145-153 | binary `-`: a raised context on top is folded into its parent first, then `-` is appended to the top context's operators |
| `ExpressionParser.ScanOperator` | SimpleExpressionParser/ExpressionParser.cs:158-190 | reads the maximal run of operator characters and applies it as `OperatorScanned` says; fails exactly when `OperatorScanned` fails |
| `ExpressionParser.ApplyOperator` | SimpleExpressionParser/ExpressionParser.cs:162-189 | an operator closes a raised context when it is not a raised symbol, then raises or appends; agrees with `OperatorApplied`, failure included |
| `ExpressionParser.CloseRaisedThenRecord` | SimpleExpressionParser/ExpressionParser.cs:163-189 | the close-then-record path of an operator: fails exactly when no parent exists or recording fails |
| `ExpressionParser.RecordOperator` | SimpleExpressionParser/ExpressionParser.cs:170-189 | raises or appends the operator as `OperatorRecorded` says; fails exactly when raising finds no operand to pull |
| `ExpressionParser.PushRaisedContext` | SimpleExpressionParser/ExpressionParser.cs:171-184 | pulls the top context's last child into a fresh raised context with the operator and pushes it; fails exactly when the top context has no child |
| `ExpressionParser.NewRaisedContext` | SimpleExpressionParser/ExpressionParser.cs:173-182 | the new raised context holds exactly the pulled operand and the operator |
| `ExpressionParser.PopChildFromTop` | SimpleExpressionParser/ExpressionParser.cs:181 | removes the top context's last child and returns it, or fails and changes nothing when there is none |
| `ExpressionParser.ScanConstant` | SimpleExpressionParser/ExpressionParser.cs:191-202 | reads the maximal run of digits and decimal markers and adds a constant leaf with the pending negation, which it clears (`ConstantScanned`) |
| `ExpressionParser.ScanName` | SimpleExpressionParser/ExpressionParser.cs:208-248 | reads the maximal run of parameter characters; before `(` it opens a function call, otherwise it adds a variable leaf (`NameScanned`) |
| `ExpressionParser.OpenFunctionCall` | SimpleExpressionParser/ExpressionParser.cs:213-234 | pushes a fresh function context, with the name and the pending negation, and a fresh argument container above it |
| `ExpressionParser.NewLeaf` | SimpleExpressionParser/ExpressionParser.cs:194-199 | a fresh object whose value is the leaf with the given type, text and sign |
| `ExpressionParser.AddChildToTop` | SimpleExpressionParser/ExpressionParser.cs:194 | `stack.Peek().AddChild(...)`: only the top object changes, and it gains exactly that child |
| `ExpressionParser.AddOperatorToTop` | SimpleExpressionParser/ExpressionParser.cs:153 | `stack.Peek().AddOperator(...)`: only the top object changes, and it gains exactly that operator |
| `ExpressionParser.PopAndPush` | SimpleExpressionParser/ExpressionParser.cs:35-39 | `popAndPush` succeeds exactly when two contexts are open; the top is removed and becomes the last child of the new top |
| `ExpressionParser.PopThenAddChild` | SimpleExpressionParser/ExpressionParser.cs:35-56 | removes the top context and adds the given node to the context beneath, which is the only object changed |
| `ExpressionParser.CloseFunctionParameter` | SimpleExpressionParser/ExpressionParser.cs:41-56 | `closeFunctionParameter` succeeds exactly when two contexts are open; a single child is unwrapped into the parent, otherwise the container is |
| `ExpressionParser.ReadWhile` | SimpleExpressionParser/ExpressionParser.cs:58-66 | the loop stops at `SpanEnd`, the end of the maximal run of the class starting at the cursor |
| `ExpressionParser.ReadToken` | SimpleExpressionParser/ExpressionParser.cs:160-161 | `readWhile` then `SubstringFromCharArray`: the end of the run and exactly the characters it spans |
| `ExpressionParser.SubstringFromCharArray` | SimpleExpressionParser/ExpressionParser.cs:287-296 | the copy loop returns exactly the characters `chars[startIndex..startIndex+len]` |
| `ExpressionParser.CollapseStack` | SimpleExpressionParser/ExpressionParser.cs:252-262 | at the end of input the contexts are folded until only the base object remains, whose value is `Collapsed` of the old stack |
| `ExpressionParser.SpanEnd` | SimpleExpressionParser/ExpressionParser.cs:58-66 | the run end lies between the cursor and the end of input, and is past the cursor when the cursor's character is in the class |
| `ExpressionParser.PoppedAndPushed` | SimpleExpressionParser/ExpressionParser.cs:35-39 | value-level `popAndPush`: defined exactly when two contexts are open, and removes one |
| `ExpressionParser.FunctionParameterClosed` | SimpleExpressionParser/ExpressionParser.cs:41-56 | value-level `closeFunctionParameter`: defined exactly when two contexts are open, and removes one |
| `ExpressionParser.ArgumentAndFunctionClosed` | SimpleExpressionParser/ExpressionParser.cs:94-106 | closing an argument and its function is defined exactly when three contexts are open, and removes two |
| `ExpressionParser.ParenthesisClosed` | SimpleExpressionParser/ExpressionParser.cs:88-123 | value-level `)`: a successful close keeps a context open, and on a raised top it succeeds exactly when three contexts are open and removes two; the other branches are stated by the `CloseParenthesis…` lemmas |
| `ExpressionParser.ArgumentSeparated` | SimpleExpressionParser/ExpressionParser.cs:124-137 | value-level `,`: succeeds exactly when two contexts are open, keeps the stack height and leaves an empty argument container on top |
| `ExpressionParser.MinusApplied` | SimpleExpressionParser/ExpressionParser.cs:138-156 | value-level `-`: keeps the base context; see `MinusTogglesOrRecords` |
| `ExpressionParser.OperatorRecorded` | SimpleExpressionParser/ExpressionParser.cs:170-189 | raise-or-append keeps the base context; see `OperatorRaisesOrAppends` |
| `ExpressionParser.OperatorApplied` | SimpleExpressionParser/ExpressionParser.cs:162-189 | an operator keeps the base context; see `OperatorFailsWithoutOperand` |
| `ExpressionParser.OperatorScanned` | SimpleExpressionParser/ExpressionParser.cs:158-190 | an operator step consumes at least one character and keeps the base context |
| `ExpressionParser.ConstantScanned` | SimpleExpressionParser/ExpressionParser.cs:191-202 | a number step always consumes at least one character and keeps the base context |
| `ExpressionParser.NameScanned` | SimpleExpressionParser/ExpressionParser.cs:208-248 | a name step always consumes at least one character and keeps the base context |
| `ExpressionParser.Next` | SimpleExpressionParser/ExpressionParser.cs:71-250 | every successful pass of the loop moves the cursor forward within the input and keeps a context open, so the loop ends |
| `ExpressionParser.Run` | SimpleExpressionParser/ExpressionParser.cs:71-264 | a scan that does not fail stops exactly at the end of the input with the base context still open |
| `ParserNode.ExpressionParserNode.constructor` | SimpleExpressionParser/ExpressionParserNode.cs:9-23 | a new context has no children, no operators, empty text, all flags false and the given type |
| `ParserNode.ExpressionParserNode.AddChild` | SimpleExpressionParser/ExpressionParserNode.cs:41-49 | the node gains exactly the given child at the end of its child list; nothing else about it changes |
| `ParserNode.ExpressionParserNode.AddOperator` | SimpleExpressionParser/ExpressionParserNode.cs:51-59 | the node gains exactly the given operator at the end of its operator list; nothing else changes |
| `ParserNode.ExpressionParserNode.PopChild` | SimpleExpressionParser/ExpressionParserNode.cs:61-74 | with children, the last child is removed and returned and the rest is unchanged; with none, it fails (the source throws) and the node is unchanged |
| `ParserNode.AddedChild` | SimpleExpressionParser/ExpressionParserNode.cs:41-49 | value of AddChild: the old children are a prefix, the new child is last, every other field is kept |
| `ParserNode.AddedOperator` | SimpleExpressionParser/ExpressionParserNode.cs:51-59 | value of AddOperator: the old operators are a prefix, the new operator is last, every other field is kept |
| `ParserNode.PoppedChild` | SimpleExpressionParser/ExpressionParserNode.cs:61-74 | value of PopChild: fails exactly when there is no child; otherwise the remaining children followed by the popped one are the old children |
| `ParserNode.AddChildThenPopChild` | SimpleExpressionParser/ExpressionParserNode.cs:41-74 | PopChild undoes AddChild: it returns the added child and the original node |
| `ParserNode.PopChildThenAddChild` | SimpleExpressionParser/ExpressionParserNode.cs:41-74 | AddChild of the popped child restores the node |
| `ParserProperties.SpanEndIsMaximalRun` | SimpleExpressionParser/ExpressionParser.cs:58-66 | `readWhile` stops at a maximal run: every character it passes is in the class, and the next one is not or the input has ended |
| `ParserProperties.InitialInvariant` | SimpleExpressionParser/ExpressionParser.cs:68-69 | the base context alone meets the stack invariant. The invariant says the bottom is the base scope, every raised context has at least one operator and only `*`, `/`, `%`, and no raised context lies directly on another |
| `ParserProperties.PrefixKeeps` | SimpleExpressionParser/ExpressionParser.cs:35-39 | dropping the top contexts keeps the invariant |
| `ParserProperties.WithTopKeeps` | SimpleExpressionParser/ExpressionParser.cs:41-56 | replacing the top context by one with the same header keeps the invariant |
| `ParserProperties.PushKeeps` | SimpleExpressionParser/ExpressionParser.cs:77-87 | pushing a well-formed context keeps the invariant, provided a raised context is never pushed on a raised one |
| `ParserProperties.ChildAddedKeeps` | SimpleExpressionParser/ExpressionParser.cs:191-202 | adding a child to the top context keeps the invariant |
| `ParserProperties.OperatorAddedKeeps` | SimpleExpressionParser/ExpressionParser.cs:185-189 | adding an operator keeps the invariant, provided a raised context only gains raised symbols |
| `ParserProperties.PoppedAndPushedKeeps` | SimpleExpressionParser/ExpressionParser.cs:35-39 | `popAndPush` keeps the invariant, and whether the new top is raised is whether the old second context was |
| `ParserProperties.FunctionParameterClosedKeeps` | SimpleExpressionParser/ExpressionParser.cs:41-56 | `closeFunctionParameter` keeps the invariant |
| `ParserProperties.ArgumentAndFunctionClosedKeeps` | SimpleExpressionParser/ExpressionParser.cs:94-106 | closing an argument and its function keeps the invariant |
| `ParserProperties.ParenthesisClosedKeeps` | SimpleExpressionParser/ExpressionParser.cs:88-123 | `)` keeps the invariant |
| `ParserProperties.RaisedClosedKeeps` | SimpleExpressionParser/ExpressionParser.cs:89-93 | the two `popAndPush` calls of `)` on a raised context keep the invariant |
| `ParserProperties.SingleChildClosedKeeps` | SimpleExpressionParser/ExpressionParser.cs:109-115 | unwrapping a single child, with its sign replaced, keeps the invariant |
| `ParserProperties.ArgumentSeparatedKeeps` | SimpleExpressionParser/ExpressionParser.cs:124-137 | `,` keeps the invariant |
| `ParserProperties.MinusNeverFails` | SimpleExpressionParser/ExpressionParser.cs:138-156 | on a stack meeting the invariant, `-` never fails |
| `ParserProperties.MinusAppliedKeeps` | SimpleExpressionParser/ExpressionParser.cs:138-156 | `-` keeps the invariant |
| `ParserProperties.OperatorRecordedKeeps` | SimpleExpressionParser/ExpressionParser.cs:170-189 | raising or appending an operator keeps the invariant |
| `ParserProperties.OperatorAppliedKeeps` | SimpleExpressionParser/ExpressionParser.cs:158-190 | an operator keeps the invariant |
| `ParserProperties.NameScannedKeeps` | SimpleExpressionParser/ExpressionParser.cs:208-248 | a variable or function call keeps the invariant |
| `ParserProperties.NextKeeps` | SimpleExpressionParser/ExpressionParser.cs:71-250 | every successful pass of the loop keeps the invariant |
| `ParserProperties.RunKeeps` | SimpleExpressionParser/ExpressionParser.cs:71-264 | the whole scan keeps the invariant |
| `ParserProperties.FailureOnlyAtCloseSeparatorOrOperator` | SimpleExpressionParser/ExpressionParser.cs:71-250 | once the invariant holds, a pass of the loop can fail only at `)`, `,` or an operator character |
| `ParserProperties.NestOfPoppedAndPushed` | SimpleExpressionParser/ExpressionParser.cs:35-39 | `popAndPush` does not change what the stack folds to |
| `ParserProperties.CollapsedIsNest` | SimpleExpressionParser/ExpressionParser.cs:252-258 | the end-of-input loop folds the stack into the base context, each context becoming the last child of the one beneath |
| `ParserProperties.NestHeader` | SimpleExpressionParser/ExpressionParser.cs:252-258 | folding keeps the base context's type, text, sign and flags |
| `ParserProperties.ParsedRootIsBase` | SimpleExpressionParser/ExpressionParser.cs:252-262 | every successful parse returns a root that is an unnegated scope with empty text |
| `ParserProperties.BlankGivesEmptyScope` | SimpleExpressionParser/ExpressionParser.cs:18-26 | an input of only white space, the empty input included, gives the empty scope |
| `ParserProperties.CloseParenthesisFailsWhenTooFewOpen` | SimpleExpressionParser/ExpressionParser.cs:88-123 | `)` fails exactly when fewer contexts are open than the branch pops into: three for a raised top or for a top that passes the argument test `IsFunction && !IsParenthesis` (an argument container, and also a function context left open on top), two otherwise |
| `ParserProperties.SeparatorFailsOnlyAtBase` | SimpleExpressionParser/ExpressionParser.cs:124-137 | `,` fails exactly when only the base context is open, whatever the top context is |
| `ParserProperties.OperatorFailsWithoutOperand` | SimpleExpressionParser/ExpressionParser.cs:158-190 | an operator fails exactly when it would be raised in a context with no child to pull |
| `ParserProperties.MinusTogglesOrRecords` | SimpleExpressionParser/ExpressionParser.cs:138-156 | `-` toggles the pending negation, leaving the stack unchanged, exactly when the top context has as many operators as children |
| `ParserProperties.MinusRecordedInTop` | SimpleExpressionParser/ExpressionParser.cs:145-153 | binary `-` on a non-raised context appends `-` to its operators, keeps its children and the rest of the stack |
| `ParserProperties.MinusClosesRaised` | SimpleExpressionParser/ExpressionParser.cs:145-153 | binary `-` on a raised context first folds it into its parent, then appends `-` there; the new top is not raised |
| `ParserProperties.OperatorRaisesOrAppends` | SimpleExpressionParser/ExpressionParser.cs:170-189 | the operator opens a raised context exactly when `IsRaisedPrecedenceOperator` holds: the last operand moves into it with the operator; otherwise the operator is appended |
| `ParserProperties.LowerOperatorNeverRaised` | SimpleExpressionParser/ExpressionParser.cs:162-189 | an operator that is not `*`, `/` or `%` leaves a non-raised context on top with the operator last |
| `ParserProperties.RaisedSymbolInRaisedContextAppends` | SimpleExpressionParser/ExpressionParser.cs:310-317 | a raised symbol in a raised context is appended to it, never raised again |
| `ParserProperties.CloseParenthesisOnRaised` | SimpleExpressionParser/ExpressionParser.cs:89-93 | `)` on a raised context folds it into the context beneath and that one into the next, whatever they are; the rest of the stack is untouched, so beneath an argument container the function stays open |
| `ParserProperties.CloseParenthesisOnArgument` | SimpleExpressionParser/ExpressionParser.cs:94-106 | `)` on any context that passes the argument test `IsFunction && !IsParenthesis` (an argument container, and also a function context left open on top) closes it into the context beneath (unwrapping a single child) and that context into its parent |
| `ParserProperties.CloseParenthesisUnwrapsSingleChild` | SimpleExpressionParser/ExpressionParser.cs:109-115 | `)` on a context with one child moves that child to the parent, with the context's sign in place of its own |
| `ParserProperties.CloseParenthesisAttaches` | SimpleExpressionParser/ExpressionParser.cs:116-119 | `)` on a context with zero or several children makes it the parent's last child |
| `ParserProperties.SeparatorClosesArgument` | SimpleExpressionParser/ExpressionParser.cs:124-137 | `,` closes the top context, raised or not, as an argument into the one beneath, unwrapping a single child, and pushes an empty argument container |
| `ParserProperties.ConvertTreeUndoesEmbed` | SimpleExpressionParser/ExpressionParser.cs:267-285 | `ConvertTree` preserves the tree: every result tree converts back from its embedding |
| `ParserProperties.ConvertTreeDropsFlags` | SimpleExpressionParser/ExpressionParser.cs:267-285 | `ConvertTree` keeps type, text, sign, children and operators, and loses only the three parsing flags |
| `ParserExamples.AddTwoVariables` | SimpleExpressionParser.Tests/ExpressionParserTests.cs:76-86 | "A+B" gives a scope of variables A and B with operator "+" |
| `ParserExamples.ProductBindsTighter` | SimpleExpressionParser.Tests/ExpressionParserTests.cs:89-102 | "A+B*C" gives A plus a raised scope of B and C with "*" |
| `ParserExamples.CallWithoutArguments` | SimpleExpressionParser.Tests/ExpressionParserTests.cs:140-147 | "test()" gives a function "test" with one empty argument scope |
| `ParserExamples.MinusThenNegation` | SimpleExpressionParser.Tests/ExpressionParserTests.cs:163-172 | "A--2.333" gives A minus the negated constant 2.333 |
| `ParserExamples.ConstantThenVariable` | SimpleExpressionParser.Tests/ExpressionParserTests.cs:204-214 | "7vari" gives the constant 7 and the variable "vari" with no operator |
| `ParserExamples.OperatorRunIsOneOperator` | SimpleExpressionParser.Tests/ExpressionParserTests.cs:217-225 | "5+6++7" gives three constants with operators "+" and "++" |
| `ParserExamples.TrailingOperatorKept` | SimpleExpressionParser.Tests/ExpressionParserTests.cs:228-236 | "5+6++7+" gives three constants with operators "+", "++" and "+" |
| `ParserExamples.TwoLevelsOfPrecedence` | SimpleExpressionParser.Tests/ExpressionParserTests.cs:239-250 | "1+2*3*4+5*6/7" gives 1 plus the group 2*3*4 plus the group 5*6/7: `+` closes the first product, and `*` and `/` after a raised symbol are appended |
| `ParserExamples.RedundantParenthesesUnwrapped` | SimpleExpressionParser.Tests/ExpressionParserTests.cs:253-263 | "1+-((2))" gives 1 plus the negated constant 2, the parentheses unwrapped |
| `ParserExamples.NegatedVariable` | SimpleExpressionParser/ExpressionParser.cs:138-143 | "-A" gives the negated variable A |
| `ParserExamples.ParenthesisSignReplacesChildSign` | SimpleExpressionParser/ExpressionParser.cs:109-115 | "(-A)" gives an unnegated A, unlike "-A": the parenthesis's sign replaces A's |
| `ParserExamples.LeadingMarkerStartsName` | SimpleExpressionParser/ExpressionParser.cs:191-248 | ".5" is a variable: a number starts only at a digit |
| `ParserExamples.NameAbsorbsSpacesAndDigits` | SimpleExpressionParser/ExpressionParser.cs:304-308 | "A B1" is the single variable "A B1": white space and digits are parameter characters |
| `ParserExamples.UnmatchedCloseFails` | SimpleExpressionParser/ExpressionParser.cs:88-123 | ")" is an error: there is no context to close into |
| `ParserExamples.SeparatorOutsideCallFails` | SimpleExpressionParser/ExpressionParser.cs:124-137 | "A,B" is an error: `,` at the base has no context to close into |
| `ParserExamples.OperatorWithoutOperandFails` | SimpleExpressionParser/ExpressionParser.cs:171-184 | "+ *" is an error: the raised `*` finds no operand to pull |
| `ParserFindings.FunctionLeftOpenAsWritten` | SimpleExpressionParser/ExpressionParser.cs:89-93 | as written, "f(1+2*3)+4" makes "+4" part of the call: f gets arguments 1+2*3 and 4 and the operator "+" |
| `ParserFindings.FunctionClosedAfterRaisedArgument` | SimpleExpressionParser/ExpressionParser.cs:89-106 | with the corrected `)`, "f(1+2*3)+4" gives the call f(1+2*3) plus 4 |
| `ParserFindings.FunctionDroppedAsWritten` | SimpleExpressionParser/ExpressionParser.cs:89-106 | as written, "(f(1+2*3))" gives the argument 1+2*3 inside two groups: the function f is dropped from the tree |
| `ParserFindings.FunctionKeptInParentheses` | SimpleExpressionParser/ExpressionParser.cs:89-119 | with the corrected `)`, "(f(1+2*3))" gives the call f(1+2*3) |
| `ParserFindings.ArgumentsMergedAsWritten` | SimpleExpressionParser/ExpressionParser.cs:124-137 | as written, "f(1+2*3,4)" gives f one argument, the scope 1+(2*3) with 4 appended |
| `ParserFindings.ArgumentsSeparatedAfterRaisedArgument` | SimpleExpressionParser/ExpressionParser.cs:124-137 | with the corrected `,`, "f(1+2*3,4)" gives f the two arguments 1+2*3 and 4 |
| `ParserFindings.ProductSeparatedOutsideCallAsWritten` | SimpleExpressionParser/ExpressionParser.cs:124-137 | as written, "A+B*C,D" parses: `,` closes the product as if it were an argument, and D ends up in a scope of its own beside A and B*C |
| `ParserFindings.ProductSeparatedOutsideCallFails` | SimpleExpressionParser/ExpressionParser.cs:124-137 | with the corrected `,`, "A+B*C,D" is an error, as "A,D" is |
| `ParserCorrected.ParenthesisCorrectionIsLocal` | SimpleExpressionParser/ExpressionParser.cs:88-123 | the corrected `)` equals the written one except on a raised context lying on an argument container |
| `ParserCorrected.CloseParenthesisOnRaisedInArgument` | SimpleExpressionParser/ExpressionParser.cs:89-106 | the corrected `)` on a raised context in an argument folds the raised context and then does what `)` does on the argument container: it closes the argument and the function |
| `ParserCorrected.SeparatorOnRaised` | SimpleExpressionParser/ExpressionParser.cs:124-137 | the corrected `,` on a raised context folds it first and then acts as the written `,`; elsewhere it is the written `,` |
| `ParserCorrected.SeparatorAfterProductOutsideCall` | SimpleExpressionParser/ExpressionParser.cs:124-137 | with only the base beneath a raised context, the written `,` succeeds and the corrected one fails |
| `ParserCorrected.ParenthesisClosedCorrectedKeeps` | SimpleExpressionParser/ExpressionParser.cs:88-123 | the corrected `)` keeps the stack invariant |
| `ParserCorrected.ArgumentSeparatedCorrectedKeeps` | SimpleExpressionParser/ExpressionParser.cs:124-137 | the corrected `,` keeps the stack invariant |
| `ParserCorrected.ParenthesisClosedCorrected` | SimpleExpressionParser/ExpressionParser.cs:88-123 | the corrected `)`: a successful close keeps a context open; its behaviour is stated by `ParenthesisCorrectionIsLocal` and `CloseParenthesisOnRaisedInArgument` |
| `ParserCorrected.ArgumentSeparatedCorrected` | SimpleExpressionParser/ExpressionParser.cs:124-137 | the corrected `,`: a successful separation leaves an empty argument container on top; its behaviour is stated by `SeparatorOnRaised` |
| `ParserCorrected.NextCorrected` | SimpleExpressionParser/ExpressionParser.cs:71-250 | the corrected step moves the cursor forward and agrees with `Next` on every character except `)` and `,` |
| `ParserCorrected.RunCorrected` | SimpleExpressionParser/ExpressionParser.cs:71-264 | the corrected scan, when it does not fail, stops exactly at the end of the input |

## Left out

- A C# `char` is a UTF-16 code unit, while a Dafny `char` is a Unicode scalar value. For well-formed
  strings this changes no result: both halves of a surrogate pair are parameter characters, and so is
  the single scalar value the model sees in their place. A string holding a lone surrogate has no
  counterpart in the model.
- `char.IsNumber` is modelled as the ASCII digits only. .NET also counts other Unicode digits,
  letter-like numbers and fractions. `IsWhiteSpace` is the full list of .NET white-space characters.
- A `null` expression (line 18 accepts it as blank) has no counterpart, because a Dafny string is never null.
- `ParseOptions` is reduced to its decimal marker, a parameter of `Parse` with default `'.'`.
  `ParseOptions.cs` is not part of this model.
- Exceptions become `Error`. The source throws `InvalidOperationException` (pop or peek on an
  empty stack) or `ArgumentOutOfRangeException` (`PopChild` on an empty list). The model does not
  tell these apart.
- The `null` checks at ExpressionParser.cs line 96 and ExpressionParserNode.cs lines 43-46, 53-56
  and 63-66 can never fire. The lists are created with the node and never cleared, so the model has
  no counterpart for them.
- `ExpressionParserNode.ToString` and `Operator.ToString` are debugging text and not modelled.
- `ReadOnlyCollection` wrappers become plain sequences.
- A child list holds the value of each child, and the parser's open contexts are objects.
  Once a node is closed, the source never changes or shares it again. The one exception is the
  sign update at line 113, which happens just before the node is moved. So values and references
  cannot be told apart.
- `ParserNode.ExpressionParserNode.constructor` takes the node type. Every creation site in the
  source sets `Type`, and the flags and text are set by the methods that create the nodes.
- The example lemmas cover the unit tests named in the table. `RandomTest`, `FunctionsWithinFunctions`,
  `ParenthesisOverridingPrecedence`, `ExpressionWithParensAsFunctionArgument`, `DoubleEndingParenthesis`
  and the other long expressions are not unfolded into lemmas. The general lemmas on `Next` cover
  the behaviour they exercise.
- `ExpressionParser.ParenthesisClosed`: its own contract states only that a successful close keeps a context open, and when a raised top succeeds. The branch-by-branch behaviour is stated by the `ParserProperties.CloseParenthesis…` lemmas.
- `ExpressionParser.ArgumentSeparated`: its own contract states only when it fails and the argument container left on top. What it closes is stated by `ParserProperties.SeparatorClosesArgument`.
- `ExpressionParser.MinusApplied`: its own contract states only that a context stays open. The branch-by-branch behaviour is stated by `ParserProperties.MinusTogglesOrRecords`, `ParserProperties.MinusRecordedInTop` and `ParserProperties.MinusClosesRaised`.
- `ExpressionParser.OperatorRecorded`: its own contract states only that a context stays open. The branch-by-branch behaviour is stated by `ParserProperties.OperatorRaisesOrAppends`.
- `ExpressionParser.OperatorApplied`: its own contract states only that a context stays open. The branch-by-branch behaviour is stated by `ParserProperties.OperatorFailsWithoutOperand` and `ParserProperties.LowerOperatorNeverRaised`.
- `ParserCorrected.ParenthesisClosedCorrected`: its own contract states only that a context stays open. Its behaviour is stated by `ParserCorrected.ParenthesisCorrectionIsLocal` and `ParserCorrected.CloseParenthesisOnRaisedInArgument`.
- `ParserCorrected.ArgumentSeparatedCorrected`: its own contract states only the argument container left on top. Its behaviour is stated by `ParserCorrected.SeparatorOnRaised`.
- `ExpressionParser.OperatorScanned`: its own contract states only progress of the cursor. The branch-by-branch behaviour is stated by `ExpressionParser.ScanOperator`.
- `ExpressionParser.ConstantScanned`: its own contract states only progress of the cursor. The branch-by-branch behaviour is stated by `ExpressionParser.ScanConstant`.
- `ExpressionParser.NameScanned`: its own contract states only progress of the cursor. The branch-by-branch behaviour is stated by `ExpressionParser.ScanName`.
- `ExpressionParser.Next`: its own contract states only progress of the cursor. The branch-by-branch behaviour is stated by the `ParserProperties` lemmas and the `ParserSteps` lemmas.
- `ExpressionParser.Run`: its own contract states only where the scan stops. The branch-by-branch behaviour is stated by `ParserProperties.RunKeeps`.
- `ExpressionParser.SpanEnd`: its own contract states only its bounds. The branch-by-branch behaviour is stated by `ParserProperties.SpanEndIsMaximalRun`.

## Findings

`Next`, `Run`, `Parsed` and `Parse` follow the code as written. The `ParserCorrected` module holds the
corrected `)` and `,` (`ParenthesisClosedCorrected`, `ArgumentSeparatedCorrected`) and the scan
that uses them (`NextCorrected`, `RunCorrected`, `ParsedCorrected`), with the intended properties
proved about them.

| source | as written | input that shows it | evidently intended | confidence | as-written member | corrected member |
|---|---|---|---|---|---|---|
| SimpleExpressionParser/ExpressionParser.cs:89-93 | `)` on a raised context calls `popAndPush` twice, whatever lies beneath. When the raised context was inside a function argument, the second call folds the argument into the function and leaves the function open, so later input lands inside the call | `f(1+2*3)+4` parses as f(1+2*3, 4) with operator "+" inside the call | `)` closes the argument and the function, as at lines 94-106; the result is f(1+2*3) plus 4 | not executed | `ParserFindings.FunctionLeftOpenAsWritten` | `ParserFindings.FunctionClosedAfterRaisedArgument` |
| SimpleExpressionParser/ExpressionParser.cs:89-106 | after the two `popAndPush` calls of line 91-92, a function context left open can be the top at the next `)`. It passes the argument test of line 94, so `closeFunctionParameter` (lines 41-56) unwraps its single argument into the context beneath and the function node is lost | `(f(1+2*3))` gives the group (1+2*3) inside a group; the name f appears nowhere in the tree | the first `)` closes the argument and the function; the second unwraps the parenthesis, giving f(1+2*3) | not executed | `ParserFindings.FunctionDroppedAsWritten` | `ParserFindings.FunctionKeptInParentheses` |
| SimpleExpressionParser/ExpressionParser.cs:124-137 | `,` calls `closeFunctionParameter` on the top context. When that is a raised context, only the raised context is closed and the argument container beneath stays open, so the next argument is appended to the previous one | `f(1+2*3,4)` gives f a single argument, 1+(2*3) followed by 4 | a raised context on top is folded first, so `,` closes the argument container; f gets the arguments 1+2*3 and 4 | not executed | `ParserFindings.ArgumentsMergedAsWritten` | `ParserFindings.ArgumentsSeparatedAfterRaisedArgument` |
| SimpleExpressionParser/ExpressionParser.cs:124-137 | the same `,` after a product at the top level closes the raised context as if it were an argument and opens an argument container on the base, so a separator outside any call is accepted | `A+B*C,D` (like `1+2*3,4`) parses, with D in a scope of its own, while `A,D` is an error | once the product is folded, only the base is open and `,` fails, as for `A,D` | not executed | `ParserFindings.ProductSeparatedOutsideCallAsWritten` | `ParserFindings.ProductSeparatedOutsideCallFails` |

`PopChild` (ExpressionParserNode.cs lines 61-74) reads the last element of the child list without
checking that there is one. `+ *` reaches it with an empty list at ExpressionParser.cs line 181, where
the source throws `ArgumentOutOfRangeException`. The model returns `Error` there
(`ParserExamples.OperatorWithoutOperandFails`).
