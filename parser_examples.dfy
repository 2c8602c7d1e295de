/** The parses of inputs taken from the repository's tests, derived from the model. Each input
    is scanned one step per lemma; a run lemma chains the steps and the example lemma converts
    the final stack. */
module ParserExamples {
  import opened Wrappers
  import opened Syntax
  import opened ParserNode
  import opened ExpressionParser
  import opened ParserSteps

  // ---------------------------------------------------------------------------------------
  // "A+B" and "A+B*C"
  // ---------------------------------------------------------------------------------------

  const A: ParseNode := Leaf(Variable, "A", false)
  const B: ParseNode := Leaf(Variable, "B", false)
  const C: ParseNode := Leaf(Variable, "C", false)

  /** The input is "A+B", or "A+B*" followed by more. */
  predicate StartsWithAPlusB(s: string)
  {
    |s| >= 3 && s[0] == 'A' && s[1] == '+' && s[2] == 'B' && (|s| == 3 || s[3] == '*')
  }

  const AB1: State := State([BaseContext.(childNodes := [A])], 1, false)
  const AB2: State := State([BaseContext.(childNodes := [A], operators := [Operator("+")])], 2, false)
  const AB3: State := State([BaseContext.(childNodes := [A, B], operators := [Operator("+")])], 3, false)

  lemma AB1Step(s: string)
    requires StartsWithAPlusB(s)
    ensures Next(s, '.', InitialState) == Some(AB1)
  {
    assert s[0..1] == "A";
    SpanOfOne(s, 0, ParameterCharacters);
    StepVariable(s, '.', InitialState, 1);
  }

  lemma AB2Step(s: string)
    requires StartsWithAPlusB(s)
    ensures Next(s, '.', AB1) == Some(AB2)
  {
    assert s[1..2] == "+";
    SpanOfOne(s, 1, OperatorCharacters);
    StepOperator(s, '.', AB1, 2, AB2.stack);
  }

  lemma AB3Step(s: string)
    requires StartsWithAPlusB(s)
    ensures Next(s, '.', AB2) == Some(AB3)
  {
    assert s[2..3] == "B";
    assert [A] + [B] == [A, B];
    SpanOfOne(s, 2, ParameterCharacters);
    StepVariable(s, '.', AB2, 3);
  }

  lemma ScanAPlusB(s: string)
    requires StartsWithAPlusB(s)
    ensures Run(s, '.', InitialState) == Run(s, '.', AB3)
  {
    AB1Step(s);
    AB2Step(s);
    AB3Step(s);
    RunStep(s, '.', InitialState, AB1);
    RunStep(s, '.', AB1, AB2);
    RunStep(s, '.', AB2, AB3);
  }

  /** "A+B": one scope holding the two variables and the operator. */
  lemma AddTwoVariables()
    ensures Parsed("A+B", '.') == Ok(Group([Var("A", false), Var("B", false)], [Operator("+")]))
  {
    var s := "A+B";
    assert StartsWithAPlusB(s);
    ScanAPlusB(s);
    RunDone(s, '.', AB3);
    assert !IsWhiteSpace(s[0]);
    ParsedFromRun(s, '.', AB3);
    assert ConvertTree(A) == Var("A", false);
    assert ConvertTree(B) == Var("B", false);
    assert ConvertTree(AB3.stack[0]).childNodes == [Var("A", false), Var("B", false)];
  }

  /** The input starts with "A+B*C", which is either the whole input or followed by ','. */
  predicate IsAPlusBTimesC(s: string)
  {
    StartsWithAPlusB(s) && |s| >= 5 && s[4] == 'C' && (|s| == 5 || s[5] == ArgumentSeparator)
  }

  const BC: ParseNode := RaisedContext.(childNodes := [B], operators := [Operator("*")])
  const BC4: State := State([AB2.stack[0], BC], 4, false)
  const BC5: State := State([AB2.stack[0], BC.(childNodes := [B, C])], 5, false)

  lemma BC4Step(s: string)
    requires IsAPlusBTimesC(s)
    ensures Next(s, '.', AB3) == Some(BC4)
  {
    assert s[3..4] == "*";
    assert [A, B][..1] == [A];
    SpanOfOne(s, 3, OperatorCharacters);
    var base := AB3.stack[0];
    assert IsRaisedPrecedenceOperator(base, "*");
    assert PoppedChild(base) == Some((B, AB2.stack[0]));
    assert WithTop(AB3.stack, AB2.stack[0]) == AB2.stack;
    assert AB2.stack + [BC] == BC4.stack;
    assert AddedOperator(AddedChild(RaisedContext, B), Operator("*")) == BC;
    assert OperatorRecorded(AB3.stack, "*") == Some(BC4.stack);
    StepOperator(s, '.', AB3, 4, BC4.stack);
  }

  lemma BC5Step(s: string)
    requires IsAPlusBTimesC(s)
    ensures Next(s, '.', BC4) == Some(BC5)
  {
    assert s[4..5] == "C";
    assert [B] + [C] == [B, C];
    assert BC4.stack[..1] == [AB2.stack[0]];
    assert AddedChild(BC, C) == BC5.stack[1];
    assert ChildAddedToTop(BC4.stack, C) == [AB2.stack[0]] + [BC5.stack[1]];
    assert [AB2.stack[0]] + [BC5.stack[1]] == BC5.stack;
    SpanOfOne(s, 4, ParameterCharacters);
    StepVariable(s, '.', BC4, 5);
  }

  lemma ScanPrecedence(s: string)
    requires IsAPlusBTimesC(s) && |s| == 5
    ensures Run(s, '.', InitialState) == Some(BC5)
  {
    ScanAPlusB(s);
    BC4Step(s);
    BC5Step(s);
    RunStep(s, '.', AB3, BC4);
    RunStep(s, '.', BC4, BC5);
    RunDone(s, '.', BC5);
  }

  /** "A+B*C": the product B*C is a group of its own, the second operand of "+". */
  lemma ProductBindsTighter()
    ensures Parsed("A+B*C", '.')
         == Ok(Group([Var("A", false), Group([Var("B", false), Var("C", false)], [Operator("*")])], [Operator("+")]))
  {
    var s := "A+B*C";
    assert StartsWithAPlusB(s);
    ScanPrecedence(s);
    assert !IsWhiteSpace(s[0]);
    ParsedFromRun(s, '.', BC5);
    var product := BC.(childNodes := [B, C]);
    var root := AB2.stack[0].(childNodes := [A, product]);
    assert Collapsed(BC5.stack) == root by {
      assert BC5.stack[..1] == [AB2.stack[0]];
      assert [A] + [product] == [A, product];
    }
    assert ConvertTree(A) == Var("A", false);
    assert ConvertTree(B) == Var("B", false);
    assert ConvertTree(C) == Var("C", false);
    assert ConvertTree(product).childNodes == [Var("B", false), Var("C", false)];
    assert ConvertTree(root).childNodes == [Var("A", false), ConvertTree(product)];
  }

  // ---------------------------------------------------------------------------------------
  // "7vari": a constant directly followed by a name
  // ---------------------------------------------------------------------------------------

  predicate IsSevenVari(s: string)
  {
    |s| == 5 && s[0] == '7' && s[1] == 'v' && s[2] == 'a' && s[3] == 'r' && s[4] == 'i'
  }

  const Vari: ParseNode := Leaf(Variable, "vari", false)
  const SV1: State := State([BaseContext.(childNodes := [Lit("7", false)])], 1, false)
  const SV5: State := State([BaseContext.(childNodes := [Lit("7", false), Vari])], 5, false)

  lemma SV1Step(s: string)
    requires IsSevenVari(s)
    ensures Next(s, '.', InitialState) == Some(SV1)
  {
    assert s[0..1] == "7";
    SpanOfOne(s, 0, NumberCharacters('.'));
    StepConstant(s, '.', InitialState, 1);
  }

  lemma SV5Step(s: string)
    requires IsSevenVari(s)
    ensures Next(s, '.', SV1) == Some(SV5)
  {
    assert s[1..5] == "vari";
    assert [Lit("7", false)] + [Vari] == [Lit("7", false), Vari];
    SpanOfOne(s, 4, ParameterCharacters);
    SpanExtends(s, 3, ParameterCharacters);
    SpanExtends(s, 2, ParameterCharacters);
    SpanExtends(s, 1, ParameterCharacters);
    StepVariable(s, '.', SV1, 5);
  }

  /** "7vari": no operator is needed between operands; the constant and the variable are two
      children of the same scope. */
  lemma ConstantThenVariable()
    ensures Parsed("7vari", '.') == Ok(Group([Const("7", false), Var("vari", false)], []))
  {
    var s := "7vari";
    assert IsSevenVari(s);
    SV1Step(s);
    SV5Step(s);
    RunStep(s, '.', InitialState, SV1);
    RunStep(s, '.', SV1, SV5);
    RunDone(s, '.', SV5);
    assert !IsWhiteSpace(s[0]);
    ParsedFromRun(s, '.', SV5);
    assert ConvertTree(Lit("7", false)) == Const("7", false);
    assert ConvertTree(Vari) == Var("vari", false);
    assert ConvertTree(SV5.stack[0]).childNodes == [Const("7", false), Var("vari", false)];
  }

  /** ".5": a name may start with the decimal marker; only a digit starts a number. */
  lemma LeadingMarkerStartsName()
    ensures Parsed(".5", '.') == Ok(Group([Var(".5", false)], []))
  {
    var s := ".5";
    var st := State([BaseContext.(childNodes := [Leaf(Variable, ".5", false)])], 2, false);
    assert s[0..2] == ".5";
    SpanOfOne(s, 1, ParameterCharacters);
    SpanExtends(s, 0, ParameterCharacters);
    StepVariable(s, '.', InitialState, 2);
    RunStep(s, '.', InitialState, st);
    RunDone(s, '.', st);
    assert !IsWhiteSpace(s[0]);
    ParsedFromRun(s, '.', st);
    assert ConvertTree(Leaf(Variable, ".5", false)) == Var(".5", false);
    assert ConvertTree(st.stack[0]).childNodes == [Var(".5", false)];
  }

  /** "A B1": spaces and digits inside a name belong to it; the whole input is one variable. */
  lemma NameAbsorbsSpacesAndDigits()
    ensures Parsed("A B1", '.') == Ok(Group([Var("A B1", false)], []))
  {
    var s := "A B1";
    var st := State([BaseContext.(childNodes := [Leaf(Variable, "A B1", false)])], 4, false);
    assert s[0..4] == "A B1";
    var k := ParameterCharacters;
    SpanOfOne(s, 3, k);
    SpanExtends(s, 2, k);
    SpanExtends(s, 1, k);
    SpanExtends(s, 0, k);
    StepVariable(s, '.', InitialState, 4);
    RunStep(s, '.', InitialState, st);
    RunDone(s, '.', st);
    assert !IsWhiteSpace(s[0]);
    ParsedFromRun(s, '.', st);
    assert ConvertTree(Leaf(Variable, "A B1", false)) == Var("A B1", false);
    assert ConvertTree(st.stack[0]).childNodes == [Var("A B1", false)];
  }

  // ---------------------------------------------------------------------------------------
  // "5+6++7" and "5+6++7+": a run of operator characters is one operator
  // ---------------------------------------------------------------------------------------

  /** The input is "5+6++7", possibly followed by a trailing "+". */
  predicate IsFivePlusSix(s: string)
  {
    && (|s| == 6 || (|s| == 7 && s[6] == '+'))
    && s[0] == '5' && s[1] == '+' && s[2] == '6' && s[3] == '+' && s[4] == '+' && s[5] == '7'
  }

  const Plus: Operator := Operator("+")
  const PlusPlus: Operator := Operator("++")
  const FS1: State := State([BaseContext.(childNodes := [Lit("5", false)])], 1, false)
  const FS2: State := State([FS1.stack[0].(operators := [Plus])], 2, false)
  const FS3: State := State([FS2.stack[0].(childNodes := [Lit("5", false), Lit("6", false)])], 3, false)
  const FS5: State := State([FS3.stack[0].(operators := [Plus, PlusPlus])], 5, false)
  const FS6: State :=
    State([FS5.stack[0].(childNodes := [Lit("5", false), Lit("6", false), Lit("7", false)])], 6, false)

  lemma FS1Step(s: string)
    requires IsFivePlusSix(s)
    ensures Next(s, '.', InitialState) == Some(FS1)
  {
    assert s[0..1] == "5";
    SpanOfOne(s, 0, NumberCharacters('.'));
    StepConstant(s, '.', InitialState, 1);
  }

  lemma FS2Step(s: string)
    requires IsFivePlusSix(s)
    ensures Next(s, '.', FS1) == Some(FS2)
  {
    assert s[1..2] == "+";
    SpanOfOne(s, 1, OperatorCharacters);
    StepOperator(s, '.', FS1, 2, FS2.stack);
  }

  lemma FS3Step(s: string)
    requires IsFivePlusSix(s)
    ensures Next(s, '.', FS2) == Some(FS3)
  {
    assert s[2..3] == "6";
    assert [Lit("5", false)] + [Lit("6", false)] == [Lit("5", false), Lit("6", false)];
    SpanOfOne(s, 2, NumberCharacters('.'));
    StepConstant(s, '.', FS2, 3);
  }

  lemma FS5Step(s: string)
    requires IsFivePlusSix(s)
    ensures Next(s, '.', FS3) == Some(FS5)
  {
    assert s[3..5] == "++";
    assert [Plus] + [PlusPlus] == [Plus, PlusPlus];
    SpanOfOne(s, 4, OperatorCharacters);
    SpanExtends(s, 3, OperatorCharacters);
    StepOperator(s, '.', FS3, 5, FS5.stack);
  }

  lemma FS6Step(s: string)
    requires IsFivePlusSix(s)
    ensures Next(s, '.', FS5) == Some(FS6)
  {
    assert s[5..6] == "7";
    assert [Lit("5", false), Lit("6", false)] + [Lit("7", false)] == [Lit("5", false), Lit("6", false), Lit("7", false)];
    SpanOfOne(s, 5, NumberCharacters('.'));
    StepConstant(s, '.', FS5, 6);
  }

  /** "5+6++7": three operands and the operators "+" and "++". */
  lemma OperatorRunIsOneOperator()
    ensures Parsed("5+6++7", '.')
         == Ok(Group([Const("5", false), Const("6", false), Const("7", false)], [Operator("+"), Operator("++")]))
  {
    var s := "5+6++7";
    assert IsFivePlusSix(s);
    ScanFivePlusSix(s);
    RunDone(s, '.', FS6);
    assert !IsWhiteSpace(s[0]);
    ParsedFromRun(s, '.', FS6);
    assert ConvertTree(Lit("5", false)) == Const("5", false);
    assert ConvertTree(Lit("6", false)) == Const("6", false);
    assert ConvertTree(Lit("7", false)) == Const("7", false);
    assert ConvertTree(FS6.stack[0]).childNodes == [Const("5", false), Const("6", false), Const("7", false)];
  }

  lemma ScanFivePlusSix(s: string)
    requires IsFivePlusSix(s)
    ensures Run(s, '.', InitialState) == Run(s, '.', FS6)
  {
    FS1Step(s);
    FS2Step(s);
    FS3Step(s);
    FS5Step(s);
    FS6Step(s);
    RunStep(s, '.', InitialState, FS1);
    RunStep(s, '.', FS1, FS2);
    RunStep(s, '.', FS2, FS3);
    RunStep(s, '.', FS3, FS5);
    RunStep(s, '.', FS5, FS6);
  }

  const FS7: State := State([FS6.stack[0].(operators := [Plus, PlusPlus, Plus])], 7, false)

  lemma FS7Step(s: string)
    requires IsFivePlusSix(s) && |s| == 7
    ensures Next(s, '.', FS6) == Some(FS7)
  {
    assert s[6..7] == "+";
    assert [Plus, PlusPlus] + [Plus] == [Plus, PlusPlus, Plus];
    SpanOfOne(s, 6, OperatorCharacters);
    StepOperator(s, '.', FS6, 7, FS7.stack);
  }

  /** "5+6++7+": a trailing operator is kept, so there is one operator more than the three
      operands. */
  lemma TrailingOperatorKept()
    ensures Parsed("5+6++7+", '.')
         == Ok(Group([Const("5", false), Const("6", false), Const("7", false)], [Operator("+"), Operator("++"), Operator("+")]))
  {
    var s := "5+6++7+";
    assert IsFivePlusSix(s);
    ScanFivePlusSix(s);
    FS7Step(s);
    RunStep(s, '.', FS6, FS7);
    RunDone(s, '.', FS7);
    assert !IsWhiteSpace(s[0]);
    ParsedFromRun(s, '.', FS7);
    assert ConvertTree(Lit("5", false)) == Const("5", false);
    assert ConvertTree(Lit("6", false)) == Const("6", false);
    assert ConvertTree(Lit("7", false)) == Const("7", false);
    assert ConvertTree(FS7.stack[0]).childNodes == [Const("5", false), Const("6", false), Const("7", false)];
  }

  // ---------------------------------------------------------------------------------------
  // "(-A)": a single child takes over the sign of its parenthesis
  // ---------------------------------------------------------------------------------------

  const NegatedA: ParseNode := Leaf(Variable, "A", true)

  /** "-A" parses to a negated A. */
  lemma NegatedVariable()
    ensures Parsed("-A", '.') == Ok(Group([Var("A", true)], []))
  {
    var s := "-A";
    var st1 := State([BaseContext], 1, true);
    var st2 := State([BaseContext.(childNodes := [NegatedA])], 2, false);
    assert s[1..2] == "A";
    StepMinus(s, '.', InitialState, [BaseContext], true);
    SpanOfOne(s, 1, ParameterCharacters);
    StepVariable(s, '.', st1, 2);
    RunStep(s, '.', InitialState, st1);
    RunStep(s, '.', st1, st2);
    RunDone(s, '.', st2);
    assert !IsWhiteSpace(s[0]);
    ParsedFromRun(s, '.', st2);
    assert ConvertTree(NegatedA) == Var("A", true);
    assert ConvertTree(st2.stack[0]).childNodes == [Var("A", true)];
  }

  /** The input is "(-A)". */
  predicate IsParenthesizedNegation(s: string)
  {
    |s| == 4 && s[0] == OpenParen && s[1] == NegativeToken && s[2] == 'A' && s[3] == CloseParen
  }

  const InParentheses1: State := State([BaseContext, ParenthesisContext(false)], 1, false)
  const InParentheses2: State := State([BaseContext, ParenthesisContext(false)], 2, true)
  const InParentheses3: State := State([BaseContext, ParenthesisContext(false).(childNodes := [NegatedA])], 3, false)

  lemma OpenNegatedVariableSteps(s: string)
    requires IsParenthesizedNegation(s)
    ensures Next(s, '.', InitialState) == Some(InParentheses1)
    ensures Next(s, '.', InParentheses1) == Some(InParentheses2)
    ensures Next(s, '.', InParentheses2) == Some(InParentheses3)
  {
    assert [BaseContext] + [ParenthesisContext(false)] == InParentheses1.stack;
    assert s[2..3] == "A";
    assert InParentheses2.stack[..1] == [BaseContext];
    assert [BaseContext] + [InParentheses3.stack[1]] == InParentheses3.stack;
    StepOpen(s, '.', InitialState);
    StepMinus(s, '.', InParentheses1, InParentheses1.stack, true);
    SpanOfOne(s, 2, ParameterCharacters);
    StepVariable(s, '.', InParentheses2, 3);
  }

  /** The scan of "(-A)" up to its ')': a parenthesis context holding the negated A. */
  lemma OpenNegatedVariable(s: string)
    requires IsParenthesizedNegation(s)
    ensures Run(s, '.', InitialState) == Run(s, '.', InParentheses3)
  {
    OpenNegatedVariableSteps(s);
    RunStep(s, '.', InitialState, InParentheses1);
    RunStep(s, '.', InParentheses1, InParentheses2);
    RunStep(s, '.', InParentheses2, InParentheses3);
  }

  /** "(-A)" parses to an unnegated A: unwrapping the parenthesis gives A the parenthesis's sign
      in place of its own, so these parentheses change the result. */
  lemma ParenthesisSignReplacesChildSign()
    ensures Parsed("(-A)", '.') == Ok(Group([Var("A", false)], []))
    ensures Parsed("(-A)", '.') != Parsed("-A", '.')
  {
    var s := "(-A)";
    var st4 := State([BaseContext.(childNodes := [NegatedA.(isNegative := false)])], 4, false);
    assert IsParenthesizedNegation(s);
    OpenNegatedVariable(s);
    assert ParenthesisClosed(InParentheses3.stack) == Some(st4.stack);
    StepClose(s, '.', InParentheses3, st4.stack);
    RunStep(s, '.', InParentheses3, st4);
    RunDone(s, '.', st4);
    assert !IsWhiteSpace(s[0]);
    ParsedFromRun(s, '.', st4);
    assert ConvertTree(NegatedA.(isNegative := false)) == Var("A", false);
    assert ConvertTree(st4.stack[0]).childNodes == [Var("A", false)];
    NegatedVariable();
  }

  // ---------------------------------------------------------------------------------------
  // "A--2.333": a binary minus, then a negation
  // ---------------------------------------------------------------------------------------

  predicate IsAMinusMinus(s: string)
  {
    |s| == 8 && s[0] == 'A' && s[1] == '-' && s[2] == '-' && s[3] == '2' && s[4] == '.' && s[5] == '3'
    && s[6] == '3' && s[7] == '3'
  }

  const Minus: Operator := Operator("-")
  const AM2: State := State([AB1.stack[0].(operators := [Minus])], 2, false)
  const AM3: State := State(AM2.stack, 3, true)
  const AM8: State := State([AM2.stack[0].(childNodes := [A, Lit("2.333", true)])], 8, false)

  lemma AM1Step(s: string)
    requires IsAMinusMinus(s)
    ensures Next(s, '.', InitialState) == Some(AB1)
  {
    assert s[0..1] == "A";
    SpanOfOne(s, 0, ParameterCharacters);
    StepVariable(s, '.', InitialState, 1);
  }

  lemma AM2Step(s: string)
    requires IsAMinusMinus(s)
    ensures Next(s, '.', AB1) == Some(AM2)
  {
    assert MinusApplied(AB1.stack, false) == Some((AM2.stack, false));
    StepMinus(s, '.', AB1, AM2.stack, false);
  }

  lemma AM3Step(s: string)
    requires IsAMinusMinus(s)
    ensures Next(s, '.', AM2) == Some(AM3)
  {
    assert MinusApplied(AM2.stack, false) == Some((AM2.stack, true));
    StepMinus(s, '.', AM2, AM2.stack, true);
  }

  lemma AM8Step(s: string)
    requires IsAMinusMinus(s)
    ensures Next(s, '.', AM3) == Some(AM8)
  {
    assert s[3..8] == "2.333";
    assert [A] + [Lit("2.333", true)] == [A, Lit("2.333", true)];
    var k := NumberCharacters('.');
    SpanOfOne(s, 7, k);
    SpanExtends(s, 6, k);
    SpanExtends(s, 5, k);
    SpanExtends(s, 4, k);
    SpanExtends(s, 3, k);
    StepConstant(s, '.', AM3, 8);
  }

  /** "A--2.333": A minus the negated constant 2.333. The first '-' follows an operand and is an
      operator; the second follows an operator and negates what comes next. */
  lemma MinusThenNegation()
    ensures Parsed("A--2.333", '.') == Ok(Group([Var("A", false), Const("2.333", true)], [Operator("-")]))
  {
    var s := "A--2.333";
    assert IsAMinusMinus(s);
    AM1Step(s);
    AM2Step(s);
    AM3Step(s);
    AM8Step(s);
    RunStep(s, '.', InitialState, AB1);
    RunStep(s, '.', AB1, AM2);
    RunStep(s, '.', AM2, AM3);
    RunStep(s, '.', AM3, AM8);
    RunDone(s, '.', AM8);
    assert !IsWhiteSpace(s[0]);
    ParsedFromRun(s, '.', AM8);
    assert ConvertTree(A) == Var("A", false);
    assert ConvertTree(Lit("2.333", true)) == Const("2.333", true);
    assert ConvertTree(AM8.stack[0]).childNodes == [Var("A", false), Const("2.333", true)];
  }

  // ---------------------------------------------------------------------------------------
  // "1+-((2))": redundant parentheses are unwrapped and keep the negation
  // ---------------------------------------------------------------------------------------

  predicate IsNegatedInParentheses(s: string)
  {
    |s| == 8 && s[0] == '1' && s[1] == '+' && s[2] == '-' && s[3] == '(' && s[4] == '('
    && s[5] == '2' && s[6] == ')' && s[7] == ')'
  }

  const One: ParseNode := Lit("1", false)
  const Two: ParseNode := Lit("2", false)
  const OnePlus: ParseNode := BaseContext.(childNodes := [One], operators := [Plus])
  const NP1: State := State([BaseContext.(childNodes := [One])], 1, false)
  const NP2: State := State([OnePlus], 2, false)
  const NP3: State := State([OnePlus], 3, true)
  const NP4: State := State([OnePlus, ParenthesisContext(true)], 4, false)
  const NP5: State := State([OnePlus, ParenthesisContext(true), ParenthesisContext(false)], 5, false)
  const NP6: State :=
    State([OnePlus, ParenthesisContext(true), ParenthesisContext(false).(childNodes := [Two])], 6, false)
  const NP7: State := State([OnePlus, ParenthesisContext(true).(childNodes := [Two])], 7, false)
  const NP8: State := State([OnePlus.(childNodes := [One, Lit("2", true)])], 8, false)

  lemma NP2Steps(s: string)
    requires IsNegatedInParentheses(s)
    ensures Next(s, '.', InitialState) == Some(NP1)
    ensures Next(s, '.', NP1) == Some(NP2)
  {
    assert s[0..1] == "1" && s[1..2] == "+";
    SpanOfOne(s, 0, NumberCharacters('.'));
    StepConstant(s, '.', InitialState, 1);
    SpanOfOne(s, 1, OperatorCharacters);
    StepOperator(s, '.', NP1, 2, NP2.stack);
  }

  lemma NP5Steps(s: string)
    requires IsNegatedInParentheses(s)
    ensures Next(s, '.', NP2) == Some(NP3)
    ensures Next(s, '.', NP3) == Some(NP4)
    ensures Next(s, '.', NP4) == Some(NP5)
  {
    assert [OnePlus] + [ParenthesisContext(true)] == NP4.stack;
    assert NP4.stack + [ParenthesisContext(false)] == NP5.stack;
    assert MinusApplied(NP2.stack, false) == Some((NP2.stack, true));
    StepMinus(s, '.', NP2, NP2.stack, true);
    StepOpen(s, '.', NP3);
    StepOpen(s, '.', NP4);
  }

  lemma NP6Step(s: string)
    requires IsNegatedInParentheses(s)
    ensures Next(s, '.', NP5) == Some(NP6)
  {
    assert s[5..6] == "2";
    assert NP5.stack[..2] == [OnePlus, ParenthesisContext(true)];
    assert [OnePlus, ParenthesisContext(true)] + [NP6.stack[2]] == NP6.stack;
    SpanOfOne(s, 5, NumberCharacters('.'));
    StepConstant(s, '.', NP5, 6);
  }

  lemma NP8Steps(s: string)
    requires IsNegatedInParentheses(s)
    ensures Next(s, '.', NP6) == Some(NP7)
    ensures Next(s, '.', NP7) == Some(NP8)
  {
    assert NP6.stack[..2] == [OnePlus, ParenthesisContext(true)];
    assert [OnePlus, ParenthesisContext(true)][..1] == [OnePlus];
    assert [OnePlus] + [NP7.stack[1]] == NP7.stack;
    assert ParenthesisClosed(NP6.stack) == Some(NP7.stack);
    StepClose(s, '.', NP6, NP7.stack);
    assert NP7.stack[..1] == [OnePlus];
    assert [One] + [Lit("2", true)] == [One, Lit("2", true)];
    assert ParenthesisClosed(NP7.stack) == Some(NP8.stack);
    StepClose(s, '.', NP7, NP8.stack);
  }

  lemma ScanNegatedInParentheses(s: string)
    requires IsNegatedInParentheses(s)
    ensures Run(s, '.', InitialState) == Some(NP8)
  {
    NP2Steps(s);
    NP5Steps(s);
    NP6Step(s);
    NP8Steps(s);
    RunStep(s, '.', InitialState, NP1);
    RunStep(s, '.', NP1, NP2);
    RunStep(s, '.', NP2, NP3);
    RunStep(s, '.', NP3, NP4);
    RunStep(s, '.', NP4, NP5);
    RunStep(s, '.', NP5, NP6);
    RunStep(s, '.', NP6, NP7);
    RunStep(s, '.', NP7, NP8);
    RunDone(s, '.', NP8);
  }

  /** "1+-((2))": 1 plus the negated constant 2; the doubled parentheses leave no trace. */
  lemma RedundantParenthesesUnwrapped()
    ensures Parsed("1+-((2))", '.') == Ok(Group([Const("1", false), Const("2", true)], [Operator("+")]))
  {
    var s := "1+-((2))";
    assert IsNegatedInParentheses(s);
    ScanNegatedInParentheses(s);
    assert !IsWhiteSpace(s[0]);
    ParsedFromRun(s, '.', NP8);
    assert ConvertTree(One) == Const("1", false);
    assert ConvertTree(Lit("2", true)) == Const("2", true);
    assert ConvertTree(NP8.stack[0]).childNodes == [Const("1", false), Const("2", true)];
  }

  // ---------------------------------------------------------------------------------------
  // "test()": a call without arguments
  // ---------------------------------------------------------------------------------------

  predicate IsTestCall(s: string)
  {
    |s| == 6 && s[0] == 't' && s[1] == 'e' && s[2] == 's' && s[3] == 't' && s[4] == '(' && s[5] == ')'
  }

  const TestCall: ParseNode := FunctionContext("test", false)
  const TC5: State := State([BaseContext, TestCall, ArgumentContext], 5, false)
  const TC6: State := State([BaseContext.(childNodes := [TestCall.(childNodes := [ArgumentContext])])], 6, false)

  lemma TC5Step(s: string)
    requires IsTestCall(s)
    ensures Next(s, '.', InitialState) == Some(TC5)
  {
    assert s[0..4] == "test";
    assert [BaseContext] + [TestCall, ArgumentContext] == TC5.stack;
    var k := ParameterCharacters;
    SpanOfOne(s, 3, k);
    SpanExtends(s, 2, k);
    SpanExtends(s, 1, k);
    SpanExtends(s, 0, k);
    StepCall(s, '.', InitialState, 4);
  }

  lemma TC6Step(s: string)
    requires IsTestCall(s)
    ensures Next(s, '.', TC5) == Some(TC6)
  {
    var call := [BaseContext, TestCall.(childNodes := [ArgumentContext])];
    assert TC5.stack[..2] == [BaseContext, TestCall];
    assert [BaseContext, TestCall][..1] == [BaseContext];
    assert [BaseContext] + [call[1]] == call;
    assert FunctionParameterClosed(TC5.stack) == Some(call);
    assert call[..1] == [BaseContext];
    assert PoppedAndPushed(call) == Some(TC6.stack);
    assert ParenthesisClosed(TC5.stack) == Some(TC6.stack);
    StepClose(s, '.', TC5, TC6.stack);
  }

  /** "test()": the call holds one (empty) argument group. */
  lemma CallWithoutArguments()
    ensures Parsed("test()", '.') == Ok(Group([Func("test", [Group([], [])], [])], []))
  {
    var s := "test()";
    assert IsTestCall(s);
    TC5Step(s);
    TC6Step(s);
    RunStep(s, '.', InitialState, TC5);
    RunStep(s, '.', TC5, TC6);
    RunDone(s, '.', TC6);
    assert !IsWhiteSpace(s[0]);
    ParsedFromRun(s, '.', TC6);
    ConvertTestCall();
  }

  lemma ConvertTestCall()
    ensures ConvertTree(Collapsed(TC6.stack)) == Group([Func("test", [Group([], [])], [])], [])
  {
    assert ConvertTree(ArgumentContext) == Group([], []);
    var call := TestCall.(childNodes := [ArgumentContext]);
    assert ConvertTree(call).childNodes == [Group([], [])];
    assert ConvertTree(TC6.stack[0]).childNodes == [ConvertTree(call)];
  }

  // ---------------------------------------------------------------------------------------
  // Inputs the parser rejects
  // ---------------------------------------------------------------------------------------

  /** ")": nothing is open to close. */
  lemma UnmatchedCloseFails()
    ensures Parsed(")", '.') == Error
  {
    var s := ")";
    assert ParenthesisClosed(InitialState.stack).None?;
    assert Next(s, '.', InitialState).None?;
    RunFails(s, '.', InitialState);
    assert !IsWhiteSpace(s[0]);
    ParsedFailsFromRun(s, '.');
  }

  /** "A,B": a separator outside any call. */
  lemma SeparatorOutsideCallFails()
    ensures Parsed("A,B", '.') == Error
  {
    var s := "A,B";
    assert s[0..1] == "A";
    SpanOfOne(s, 0, ParameterCharacters);
    StepVariable(s, '.', InitialState, 1);
    RunStep(s, '.', InitialState, AB1);
    assert ArgumentSeparated(AB1.stack).None?;
    assert Next(s, '.', AB1).None?;
    RunFails(s, '.', AB1);
    assert !IsWhiteSpace(s[0]);
    ParsedFailsFromRun(s, '.');
  }

  const LonePlus: State := State([BaseContext.(operators := [Plus])], 1, false)

  predicate IsLoneOperator(s: string)
  {
    |s| == 3 && s[0] == '+' && s[1] == ' ' && s[2] == '*'
  }

  lemma LonePlusSteps(s: string)
    requires IsLoneOperator(s)
    ensures Next(s, '.', InitialState) == Some(LonePlus)
    ensures Next(s, '.', LonePlus) == Some(LonePlus.(index := 2))
  {
    assert s[0..1] == "+";
    SpanOfOne(s, 0, OperatorCharacters);
    StepOperator(s, '.', InitialState, 1, LonePlus.stack);
    StepWhiteSpace(s, '.', LonePlus);
  }

  /** After "+ ", the '*' finds no operand to take over. */
  lemma LoneTimesFails(s: string)
    requires IsLoneOperator(s)
    ensures Next(s, '.', LonePlus.(index := 2)).None?
  {
    assert s[2..3] == "*";
    SpanOfOne(s, 2, OperatorCharacters);
    assert IsRaisedPrecedenceOperator(LonePlus.stack[0], "*");
    assert OperatorApplied(LonePlus.stack, "*").None?;
    StepOperatorFails(s, '.', LonePlus.(index := 2));
  }

  /** "+ *": a raised-precedence operator with no operand to take over. */
  lemma OperatorWithoutOperandFails()
    ensures Parsed("+ *", '.') == Error
  {
    var s := "+ *";
    assert IsLoneOperator(s);
    LonePlusSteps(s);
    LoneTimesFails(s);
    RunStep(s, '.', InitialState, LonePlus);
    RunStep(s, '.', LonePlus, LonePlus.(index := 2));
    RunFails(s, '.', LonePlus.(index := 2));
    assert !IsWhiteSpace(s[0]);
    ParsedFailsFromRun(s, '.');
  }

  // ---------------------------------------------------------------------------------------
  // "1+2*3*4+5*6/7": two levels of precedence
  // ---------------------------------------------------------------------------------------

  /** The input is "1+2*3*4+5*6/7". */
  predicate IsTwoLevels(s: string)
  {
    && |s| == 13 && s[0] == '1' && s[1] == '+' && s[2] == '2' && s[3] == '*' && s[4] == '3'
    && s[5] == '*' && s[6] == '4' && s[7] == '+' && s[8] == '5' && s[9] == '*' && s[10] == '6'
    && s[11] == '/' && s[12] == '7'
  }

  const Times: Operator := Operator("*")
  const Divide: Operator := Operator("/")

  // The contexts of the scan: the base, the first product 2*3*4 and the second product 5*6/7.
  const Level1: ParseNode := BaseContext.(childNodes := [Lit("1", false)])
  const LevelSum: ParseNode := Level1.(operators := [Plus])
  const First1: ParseNode := RaisedContext.(childNodes := [Lit("2", false)], operators := [Times])
  const First2: ParseNode := First1.(childNodes := [Lit("2", false), Lit("3", false)])
  const First3: ParseNode := First2.(operators := [Times, Times])
  const First: ParseNode := First3.(childNodes := [Lit("2", false), Lit("3", false), Lit("4", false)])
  const LevelSums: ParseNode := LevelSum.(childNodes := [Lit("1", false), First], operators := [Plus, Plus])
  const Second1: ParseNode := RaisedContext.(childNodes := [Lit("5", false)], operators := [Times])
  const Second2: ParseNode := Second1.(childNodes := [Lit("5", false), Lit("6", false)])
  const Second3: ParseNode := Second2.(operators := [Times, Divide])
  const Second: ParseNode := Second3.(childNodes := [Lit("5", false), Lit("6", false), Lit("7", false)])

  const TL1: State := State([Level1], 1, false)
  const TL2: State := State([LevelSum], 2, false)
  const TL3: State := State([LevelSum.(childNodes := [Lit("1", false), Lit("2", false)])], 3, false)
  const TL4: State := State([LevelSum, First1], 4, false)
  const TL5: State := State([LevelSum, First2], 5, false)
  const TL6: State := State([LevelSum, First3], 6, false)
  const TL7: State := State([LevelSum, First], 7, false)
  const TL8: State := State([LevelSums], 8, false)
  const TL9: State := State([LevelSums.(childNodes := [Lit("1", false), First, Lit("5", false)])], 9, false)
  const TL10: State := State([LevelSums, Second1], 10, false)
  const TL11: State := State([LevelSums, Second2], 11, false)
  const TL12: State := State([LevelSums, Second3], 12, false)
  const TL13: State := State([LevelSums, Second], 13, false)

  /** The steps that read the sum "1+2". */
  lemma TLSumSteps(s: string)
    requires IsTwoLevels(s)
    ensures Next(s, '.', InitialState) == Some(TL1)
    ensures Next(s, '.', TL1) == Some(TL2)
    ensures Next(s, '.', TL2) == Some(TL3)
  {
    assert s[0..1] == "1" && s[1..2] == "+" && s[2..3] == "2";
    SpanOfOne(s, 0, NumberCharacters('.'));
    StepConstant(s, '.', InitialState, 1);
    SpanOfOne(s, 1, OperatorCharacters);
    StepOperator(s, '.', TL1, 2, TL2.stack);
    assert [Lit("1", false)] + [Lit("2", false)] == [Lit("1", false), Lit("2", false)];
    SpanOfOne(s, 2, NumberCharacters('.'));
    StepConstant(s, '.', TL2, 3);
  }

  /** A '*' after "1+2" opens a raised-precedence context holding 2. */
  lemma TL4Step(s: string)
    requires IsTwoLevels(s)
    ensures Next(s, '.', TL3) == Some(TL4)
  {
    assert s[3..4] == "*";
    var base := TL3.stack[0];
    assert [Lit("1", false), Lit("2", false)][..1] == [Lit("1", false)];
    assert IsRaisedPrecedenceOperator(base, "*");
    assert PoppedChild(base) == Some((Lit("2", false), LevelSum));
    assert WithTop(TL3.stack, LevelSum) == [LevelSum];
    assert AddedOperator(AddedChild(RaisedContext, Lit("2", false)), Times) == First1;
    assert [LevelSum] + [First1] == TL4.stack;
    assert OperatorRecorded(TL3.stack, "*") == Some(TL4.stack);
    SpanOfOne(s, 3, OperatorCharacters);
    StepOperator(s, '.', TL3, 4, TL4.stack);
  }

  /** "3*4" extends the first product: a second '*' in a raised-precedence context is appended. */
  lemma TLFirstProductSteps(s: string)
    requires IsTwoLevels(s)
    ensures Next(s, '.', TL4) == Some(TL5)
    ensures Next(s, '.', TL5) == Some(TL6)
    ensures Next(s, '.', TL6) == Some(TL7)
  {
    assert s[4..5] == "3" && s[5..6] == "*" && s[6..7] == "4";
    assert TL4.stack[..1] == [LevelSum];
    assert [Lit("2", false)] + [Lit("3", false)] == [Lit("2", false), Lit("3", false)];
    assert [LevelSum] + [First2] == TL5.stack;
    SpanOfOne(s, 4, NumberCharacters('.'));
    StepConstant(s, '.', TL4, 5);
    assert !IsRaisedPrecedenceOperator(First2, "*");
    assert [Times] + [Times] == [Times, Times];
    assert [LevelSum] + [First3] == TL6.stack;
    SpanOfOne(s, 5, OperatorCharacters);
    StepOperator(s, '.', TL5, 6, TL6.stack);
    assert [Lit("2", false), Lit("3", false)] + [Lit("4", false)] == [Lit("2", false), Lit("3", false), Lit("4", false)];
    assert [LevelSum] + [First] == TL7.stack;
    SpanOfOne(s, 6, NumberCharacters('.'));
    StepConstant(s, '.', TL6, 7);
  }

  /** '+' closes the first product into the base and is appended there. */
  lemma TL8Step(s: string)
    requires IsTwoLevels(s)
    ensures Next(s, '.', TL7) == Some(TL8)
  {
    assert s[7..8] == "+";
    var closed := LevelSum.(childNodes := [Lit("1", false), First]);
    assert PoppedAndPushed(TL7.stack) == Some([closed]) by {
      assert TL7.stack[..1] == [LevelSum];
      assert [Lit("1", false)] + [First] == [Lit("1", false), First];
      assert AddedChild(LevelSum, First) == closed;
    }
    assert "+" !in OperatorsWithRaisedPrecedence;
    assert OperatorRecorded([closed], "+") == Some(TL8.stack) by {
      assert !IsRaisedPrecedenceOperator(closed, "+");
      assert [Plus] + [Plus] == [Plus, Plus];
      assert AddedOperator(closed, Plus) == LevelSums;
      assert OperatorAddedToTop([closed], Plus) == [LevelSums];
    }
    assert OperatorApplied(TL7.stack, "+") == Some(TL8.stack);
    SpanOfOne(s, 7, OperatorCharacters);
    StepOperator(s, '.', TL7, 8, TL8.stack);
  }

  /** "5*" opens the second product, holding 5. */
  lemma TLSecondOpenSteps(s: string)
    requires IsTwoLevels(s)
    ensures Next(s, '.', TL8) == Some(TL9)
    ensures Next(s, '.', TL9) == Some(TL10)
  {
    assert s[8..9] == "5" && s[9..10] == "*";
    assert [Lit("1", false), First] + [Lit("5", false)] == [Lit("1", false), First, Lit("5", false)];
    SpanOfOne(s, 8, NumberCharacters('.'));
    StepConstant(s, '.', TL8, 9);
    var base := TL9.stack[0];
    assert [Lit("1", false), First, Lit("5", false)][..2] == [Lit("1", false), First];
    assert IsRaisedPrecedenceOperator(base, "*");
    assert PoppedChild(base) == Some((Lit("5", false), LevelSums));
    assert WithTop(TL9.stack, LevelSums) == [LevelSums];
    assert AddedOperator(AddedChild(RaisedContext, Lit("5", false)), Times) == Second1;
    assert [LevelSums] + [Second1] == TL10.stack;
    assert OperatorRecorded(TL9.stack, "*") == Some(TL10.stack);
    SpanOfOne(s, 9, OperatorCharacters);
    StepOperator(s, '.', TL9, 10, TL10.stack);
  }

  /** "6/7" extends the second product. */
  lemma TLSecondProductSteps(s: string)
    requires IsTwoLevels(s)
    ensures Next(s, '.', TL10) == Some(TL11)
    ensures Next(s, '.', TL11) == Some(TL12)
    ensures Next(s, '.', TL12) == Some(TL13)
  {
    assert s[10..11] == "6" && s[11..12] == "/" && s[12..13] == "7";
    assert TL10.stack[..1] == [LevelSums];
    assert [Lit("5", false)] + [Lit("6", false)] == [Lit("5", false), Lit("6", false)];
    assert [LevelSums] + [Second2] == TL11.stack;
    SpanOfOne(s, 10, NumberCharacters('.'));
    StepConstant(s, '.', TL10, 11);
    assert !IsRaisedPrecedenceOperator(Second2, "/");
    assert [Times] + [Divide] == [Times, Divide];
    assert [LevelSums] + [Second3] == TL12.stack;
    SpanOfOne(s, 11, OperatorCharacters);
    StepOperator(s, '.', TL11, 12, TL12.stack);
    assert [Lit("5", false), Lit("6", false)] + [Lit("7", false)] == [Lit("5", false), Lit("6", false), Lit("7", false)];
    assert [LevelSums] + [Second] == TL13.stack;
    SpanOfOne(s, 12, NumberCharacters('.'));
    StepConstant(s, '.', TL12, 13);
  }

  lemma ScanTwoLevels(s: string)
    requires IsTwoLevels(s)
    ensures Run(s, '.', InitialState) == Some(TL13)
  {
    TLSumSteps(s);
    TL4Step(s);
    TLFirstProductSteps(s);
    TL8Step(s);
    TLSecondOpenSteps(s);
    TLSecondProductSteps(s);
    RunStep(s, '.', InitialState, TL1);
    RunStep(s, '.', TL1, TL2);
    RunStep(s, '.', TL2, TL3);
    RunStep(s, '.', TL3, TL4);
    RunStep(s, '.', TL4, TL5);
    RunStep(s, '.', TL5, TL6);
    RunStep(s, '.', TL6, TL7);
    RunStep(s, '.', TL7, TL8);
    RunStep(s, '.', TL8, TL9);
    RunStep(s, '.', TL9, TL10);
    RunStep(s, '.', TL10, TL11);
    RunStep(s, '.', TL11, TL12);
    RunStep(s, '.', TL12, TL13);
    RunDone(s, '.', TL13);
  }

  /** "1+2*3*4+5*6/7": a sum of three operands whose second and third are the products 2*3*4
      and 5*6/7, each a group of its own. */
  lemma TwoLevelsOfPrecedence()
    ensures Parsed("1+2*3*4+5*6/7", '.')
         == Ok(Group([Const("1", false),
                      Group([Const("2", false), Const("3", false), Const("4", false)], [Operator("*"), Operator("*")]),
                      Group([Const("5", false), Const("6", false), Const("7", false)], [Operator("*"), Operator("/")])],
                     [Operator("+"), Operator("+")]))
  {
    var s := "1+2*3*4+5*6/7";
    assert IsTwoLevels(s);
    ScanTwoLevels(s);
    assert !IsWhiteSpace(s[0]);
    ParsedFromRun(s, '.', TL13);
    ConvertTwoLevels();
  }

  lemma ConvertTwoLevels()
    ensures ConvertTree(Collapsed(TL13.stack))
         == Group([Const("1", false),
                   Group([Const("2", false), Const("3", false), Const("4", false)], [Operator("*"), Operator("*")]),
                   Group([Const("5", false), Const("6", false), Const("7", false)], [Operator("*"), Operator("/")])],
                  [Operator("+"), Operator("+")])
  {
    var root := LevelSums.(childNodes := [Lit("1", false), First, Second]);
    assert Collapsed(TL13.stack) == root by {
      assert TL13.stack[..1] == [LevelSums];
      assert [Lit("1", false), First] + [Second] == [Lit("1", false), First, Second];
    }
    assert ConvertTree(Lit("1", false)) == Const("1", false);
    assert ConvertTree(Lit("2", false)) == Const("2", false);
    assert ConvertTree(Lit("3", false)) == Const("3", false);
    assert ConvertTree(Lit("4", false)) == Const("4", false);
    assert ConvertTree(Lit("5", false)) == Const("5", false);
    assert ConvertTree(Lit("6", false)) == Const("6", false);
    assert ConvertTree(Lit("7", false)) == Const("7", false);
    assert ConvertTree(First).childNodes == [Const("2", false), Const("3", false), Const("4", false)];
    assert ConvertTree(Second).childNodes == [Const("5", false), Const("6", false), Const("7", false)];
    assert ConvertTree(root).childNodes == [Const("1", false), ConvertTree(First), ConvertTree(Second)];
  }

}
