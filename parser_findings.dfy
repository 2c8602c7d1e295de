/** Inputs on which the ')' and ',' branches of ExpressionParser.cs, as written, give a tree the
    rest of the code and its tests evidently do not intend, each next to the corrected result. */
module ParserFindings {
  import opened Wrappers
  import opened Syntax
  import opened ParserNode
  import opened ExpressionParser
  import opened ParserCorrected
  import opened ParserSteps
  import opened ParserExamples

  /** The argument container of "f(1+2*3" once "1+" has been read. */
  const FirstArgument: ParseNode := ArgumentContext.(childNodes := [Lit("1", false)], operators := [Operator("+")])

  /** The raised-precedence context for "2*3". */
  const Product: ParseNode := RaisedContext.(childNodes := [Lit("2", false), Lit("3", false)], operators := [Operator("*")])

  /** The raised-precedence context once "2*" has been read. */
  const Factor: ParseNode := RaisedContext.(childNodes := [Lit("2", false)], operators := [Operator("*")])

  /** The states of the scan of "f(1+2*3", after 2, 3, ..., 7 characters. */
  const After2: State := State([BaseContext, FunctionContext("f", false), ArgumentContext], 2, false)
  const After3: State := State([BaseContext, FunctionContext("f", false), ArgumentContext.(childNodes := [Lit("1", false)])], 3, false)
  const After4: State := State([BaseContext, FunctionContext("f", false), FirstArgument], 4, false)
  const After5: State :=
    State([BaseContext, FunctionContext("f", false), FirstArgument.(childNodes := [Lit("1", false), Lit("2", false)])], 5, false)
  const After6: State := State([BaseContext, FunctionContext("f", false), FirstArgument, Factor], 6, false)

  /** The state after "f(1+2*3": the base, the function f, its argument container and a
      raised-precedence context on top. */
  const AfterRaisedArgument: State :=
    State([BaseContext, FunctionContext("f", false), FirstArgument, Product], 7, false)

  /** The input starts with "f(1+2*3" followed by ')' or ','. */
  predicate StartsWithRaisedArgument(s: string)
  {
    && |s| >= 8 && s[0] == 'f' && s[1] == '(' && s[2] == '1' && s[3] == '+'
    && s[4] == '2' && s[5] == '*' && s[6] == '3' && (s[7] == CloseParen || s[7] == ArgumentSeparator)
  }

  lemma ScanF(s: string)
    requires StartsWithRaisedArgument(s)
    ensures Next(s, '.', InitialState) == Some(After2)
  {
    assert SpanEnd(s, 0, ParameterCharacters) == 1;
    assert s[0..1] == "f";
    assert [BaseContext] + [FunctionContext("f", false), ArgumentContext] == After2.stack;
  }

  lemma Scan1(s: string)
    requires StartsWithRaisedArgument(s)
    ensures Next(s, '.', After2) == Some(After3)
  {
    assert SpanEnd(s, 2, NumberCharacters('.')) == 3;
    assert s[2..3] == "1";
    assert After2.stack[..2] == [BaseContext, FunctionContext("f", false)];
    assert ChildAddedToTop(After2.stack, Lit("1", false)) == After3.stack;
  }

  lemma ScanPlus(s: string)
    requires StartsWithRaisedArgument(s)
    ensures Next(s, '.', After3) == Some(After4)
  {
    assert SpanEnd(s, 3, OperatorCharacters) == 4;
    assert s[3..4] == "+";
    assert After3.stack[..2] == [BaseContext, FunctionContext("f", false)];
    assert OperatorAddedToTop(After3.stack, Operator("+")) == After4.stack;
  }

  lemma Scan2(s: string)
    requires StartsWithRaisedArgument(s)
    ensures Next(s, '.', After4) == Some(After5)
  {
    assert SpanEnd(s, 4, NumberCharacters('.')) == 5;
    assert s[4..5] == "2";
    assert After4.stack[..2] == [BaseContext, FunctionContext("f", false)];
    assert [Lit("1", false)] + [Lit("2", false)] == [Lit("1", false), Lit("2", false)];
    assert ChildAddedToTop(After4.stack, Lit("2", false)) == After5.stack;
  }

  lemma ScanTimes(s: string)
    requires StartsWithRaisedArgument(s)
    ensures Next(s, '.', After5) == Some(After6)
  {
    assert SpanEnd(s, 5, OperatorCharacters) == 6;
    assert s[5..6] == "*";
    assert IsRaisedPrecedenceOperator(Top(After5.stack), "*");
    assert [Lit("1", false), Lit("2", false)][..1] == [Lit("1", false)];
    assert PoppedChild(Top(After5.stack)) == Some((Lit("2", false), FirstArgument));
    assert WithTop(After5.stack, FirstArgument) == [BaseContext, FunctionContext("f", false), FirstArgument];
    assert AddedOperator(AddedChild(RaisedContext, Lit("2", false)), Operator("*")) == Factor;
    assert [BaseContext, FunctionContext("f", false), FirstArgument] + [Factor] == After6.stack;
    assert OperatorRecorded(After5.stack, "*") == Some(After6.stack);
    assert OperatorApplied(After5.stack, "*") == Some(After6.stack);
  }

  lemma Scan3(s: string)
    requires StartsWithRaisedArgument(s)
    ensures Next(s, '.', After6) == Some(AfterRaisedArgument)
  {
    assert SpanEnd(s, 6, NumberCharacters('.')) == 7;
    assert s[6..7] == "3";
    assert After6.stack[..3] == [BaseContext, FunctionContext("f", false), FirstArgument];
    assert [Lit("2", false)] + [Lit("3", false)] == [Lit("2", false), Lit("3", false)];
    assert ChildAddedToTop(After6.stack, Lit("3", false)) == AfterRaisedArgument.stack;
  }

  /** Scanning "f(1+2*3" reaches AfterRaisedArgument, in both versions. */
  lemma ScanRaisedArgument(s: string)
    requires StartsWithRaisedArgument(s)
    ensures Run(s, '.', InitialState) == Run(s, '.', AfterRaisedArgument)
    ensures RunCorrected(s, '.', InitialState) == RunCorrected(s, '.', AfterRaisedArgument)
  {
    ScanF(s);
    Scan1(s);
    ScanPlus(s);
    Scan2(s);
    ScanTimes(s);
    Scan3(s);
    RunStep(s, '.', InitialState, After2);
    RunStep(s, '.', After2, After3);
    RunStep(s, '.', After3, After4);
    RunStep(s, '.', After4, After5);
    RunStep(s, '.', After5, After6);
    RunStep(s, '.', After6, AfterRaisedArgument);
    RunStepCorrected(s, '.', InitialState, After2);
    RunStepCorrected(s, '.', After2, After3);
    RunStepCorrected(s, '.', After3, After4);
    RunStepCorrected(s, '.', After4, After5);
    RunStepCorrected(s, '.', After5, After6);
    RunStepCorrected(s, '.', After6, AfterRaisedArgument);
  }

  /** The argument container of "f(1+2*3" once the raised context is closed into it. */
  const ClosedArgument: ParseNode := FirstArgument.(childNodes := [Lit("1", false), Product])

  /** The function context of "f(1+2*3)" once its argument is closed into it. */
  const ClosedCall: ParseNode := FunctionContext("f", false).(childNodes := [ClosedArgument])

  const ProductTree: SyntaxTreeNode := Group([Const("2", false), Const("3", false)], [Operator("*")])
  const FirstArgumentTree: SyntaxTreeNode := Group([Const("1", false), ProductTree], [Operator("+")])

  lemma ConvertClosedArgument()
    ensures ConvertTree(Product) == ProductTree
    ensures ConvertTree(ClosedArgument) == FirstArgumentTree
  {
    assert ConvertTree(Lit("1", false)) == Const("1", false);
    assert ConvertTree(Lit("2", false)) == Const("2", false);
    assert ConvertTree(Lit("3", false)) == Const("3", false);
    assert ConvertTree(Product).childNodes == [Const("2", false), Const("3", false)];
    assert ConvertTree(ClosedArgument).childNodes == [Const("1", false), ProductTree];
  }

  /** Closing the raised context into the argument container. */
  lemma CloseProduct()
    ensures PoppedAndPushed(AfterRaisedArgument.stack)
         == Some([BaseContext, FunctionContext("f", false), ClosedArgument])
  {
    var stack := AfterRaisedArgument.stack;
    var below := stack[..3];
    assert below == [BaseContext, FunctionContext("f", false), FirstArgument];
    assert below[..2] == [BaseContext, FunctionContext("f", false)];
    assert AddedChild(FirstArgument, Product) == ClosedArgument by {
      assert [Lit("1", false)] + [Product] == [Lit("1", false), Product];
    }
    assert ChildAddedToTop(below, Product) == [BaseContext, FunctionContext("f", false)] + [ClosedArgument];
    assert [BaseContext, FunctionContext("f", false)] + [ClosedArgument]
        == [BaseContext, FunctionContext("f", false), ClosedArgument];
    assert |stack| == 4 && stack[3] == Product;
  }

  /** Closing the argument container into the function. */
  lemma CloseArgument()
    ensures PoppedAndPushed([BaseContext, FunctionContext("f", false), ClosedArgument])
         == Some([BaseContext, ClosedCall])
  {
    var stack := [BaseContext, FunctionContext("f", false), ClosedArgument];
    var below := stack[..2];
    assert below == [BaseContext, FunctionContext("f", false)];
    assert below[..1] == [BaseContext];
    assert AddedChild(FunctionContext("f", false), ClosedArgument) == ClosedCall;
    assert ChildAddedToTop(below, ClosedArgument) == [BaseContext] + [ClosedCall];
    assert [BaseContext] + [ClosedCall] == [BaseContext, ClosedCall];
  }

  /** The input is "f(1+2*3)+4". */
  predicate IsCallPlusFour(s: string)
  {
    StartsWithRaisedArgument(s) && |s| == 10 && s[7] == CloseParen && s[8] == '+' && s[9] == '4'
  }

  // The states of "f(1+2*3)+4" after its ')', '+' and '4', in both versions.
  const LeftOpen8: State := State([BaseContext, ClosedCall], 8, false)
  const LeftOpen9: State := State([BaseContext, ClosedCall.(operators := [Operator("+")])], 9, false)
  const LeftOpenCall: ParseNode := ClosedCall.(childNodes := [ClosedArgument, Lit("4", false)], operators := [Operator("+")])
  const LeftOpen10: State := State([BaseContext, LeftOpenCall], 10, false)
  const Closed8: State := State([BaseContext.(childNodes := [ClosedCall])], 8, false)
  const Closed9: State := State([Closed8.stack[0].(operators := [Operator("+")])], 9, false)
  const Closed10: State := State([Closed9.stack[0].(childNodes := [ClosedCall, Lit("4", false)])], 10, false)

  lemma CloseCallAsWritten(s: string)
    requires IsCallPlusFour(s)
    ensures Next(s, '.', AfterRaisedArgument) == Some(LeftOpen8)
  {
    CloseProduct();
    CloseArgument();
    StepClose(s, '.', AfterRaisedArgument, LeftOpen8.stack);
  }

  lemma PlusFourAsWritten(s: string)
    requires IsCallPlusFour(s)
    ensures Next(s, '.', LeftOpen8) == Some(LeftOpen9)
    ensures Next(s, '.', LeftOpen9) == Some(LeftOpen10)
  {
    assert s[8..9] == "+" && s[9..10] == "4";
    assert LeftOpen8.stack[..1] == [BaseContext];
    assert [BaseContext] + [LeftOpen9.stack[1]] == LeftOpen9.stack;
    assert OperatorAddedToTop(LeftOpen8.stack, Operator("+")) == LeftOpen9.stack;
    assert [ClosedArgument] + [Lit("4", false)] == [ClosedArgument, Lit("4", false)];
    assert [BaseContext] + [LeftOpenCall] == LeftOpen10.stack;
    assert ChildAddedToTop(LeftOpen9.stack, Lit("4", false)) == LeftOpen10.stack;
    SpanOfOne(s, 8, OperatorCharacters);
    StepOperator(s, '.', LeftOpen8, 9, LeftOpen9.stack);
    SpanOfOne(s, 9, NumberCharacters('.'));
    StepConstant(s, '.', LeftOpen9, 10);
  }

  lemma ScanCallPlusFourAsWritten(s: string)
    requires IsCallPlusFour(s)
    ensures Run(s, '.', InitialState) == Some(LeftOpen10)
  {
    ScanRaisedArgument(s);
    CloseCallAsWritten(s);
    PlusFourAsWritten(s);
    RunStep(s, '.', AfterRaisedArgument, LeftOpen8);
    RunStep(s, '.', LeftOpen8, LeftOpen9);
    RunStep(s, '.', LeftOpen9, LeftOpen10);
    RunDone(s, '.', LeftOpen10);
  }

  /** As written, the ')' of "f(1+2*3)+4" leaves f open, so "+4" is read into f: the call gets a
      second argument and an operator. */
  lemma FunctionLeftOpenAsWritten()
    ensures Parsed("f(1+2*3)+4", '.')
         == Ok(Group([Func("f", [FirstArgumentTree, Const("4", false)], [Operator("+")])], []))
  {
    var s := "f(1+2*3)+4";
    assert IsCallPlusFour(s);
    ScanCallPlusFourAsWritten(s);
    assert !IsWhiteSpace(s[0]);
    ParsedFromRun(s, '.', LeftOpen10);
    ConvertLeftOpenCall();
  }

  lemma ConvertLeftOpenCall()
    ensures ConvertTree(Collapsed(LeftOpen10.stack))
         == Group([Func("f", [FirstArgumentTree, Const("4", false)], [Operator("+")])], [])
  {
    var root := BaseContext.(childNodes := [LeftOpenCall]);
    assert Collapsed(LeftOpen10.stack) == root by {
      assert LeftOpen10.stack[..1] == [BaseContext];
    }
    ConvertClosedArgument();
    assert ConvertTree(Lit("4", false)) == Const("4", false);
    assert ConvertTree(LeftOpenCall).childNodes == [FirstArgumentTree, Const("4", false)];
    assert ConvertTree(root).childNodes == [ConvertTree(LeftOpenCall)];
  }

  lemma CloseCall(s: string)
    requires IsCallPlusFour(s)
    ensures NextCorrected(s, '.', AfterRaisedArgument) == Some(Closed8)
  {
    CloseProduct();
    CloseArgument();
    assert PoppedAndPushed(LeftOpen8.stack) == Some(Closed8.stack);
    assert ArgumentAndFunctionClosed([BaseContext, FunctionContext("f", false), ClosedArgument]) == Some(Closed8.stack);
    assert EnclosingClosed([BaseContext, FunctionContext("f", false), ClosedArgument]) == Some(Closed8.stack);
    StepCloseCorrected(s, '.', AfterRaisedArgument, Closed8.stack);
  }

  lemma PlusFour(s: string)
    requires IsCallPlusFour(s)
    ensures NextCorrected(s, '.', Closed8) == Some(Closed9)
    ensures NextCorrected(s, '.', Closed9) == Some(Closed10)
  {
    assert s[8..9] == "+" && s[9..10] == "4";
    assert [ClosedCall] + [Lit("4", false)] == [ClosedCall, Lit("4", false)];
    SpanOfOne(s, 8, OperatorCharacters);
    StepOperator(s, '.', Closed8, 9, Closed9.stack);
    SpanOfOne(s, 9, NumberCharacters('.'));
    StepConstant(s, '.', Closed9, 10);
  }

  lemma ScanCallPlusFour(s: string)
    requires IsCallPlusFour(s)
    ensures RunCorrected(s, '.', InitialState) == Some(Closed10)
  {
    ScanRaisedArgument(s);
    CloseCall(s);
    PlusFour(s);
    RunStepCorrected(s, '.', AfterRaisedArgument, Closed8);
    RunStepCorrected(s, '.', Closed8, Closed9);
    RunStepCorrected(s, '.', Closed9, Closed10);
    RunDone(s, '.', Closed10);
  }

  /** With the correction, "f(1+2*3)+4" is f applied to 1+2*3, plus 4. */
  lemma FunctionClosedAfterRaisedArgument()
    ensures ParsedCorrected("f(1+2*3)+4", '.')
         == Ok(Group([Func("f", [FirstArgumentTree], []), Const("4", false)], [Operator("+")]))
  {
    var s := "f(1+2*3)+4";
    assert IsCallPlusFour(s);
    ScanCallPlusFour(s);
    assert !IsWhiteSpace(s[0]);
    ParsedCorrectedFromRun(s, '.', Closed10);
    ConvertClosedArgument();
    assert ConvertTree(Lit("4", false)) == Const("4", false);
    assert ConvertTree(ClosedCall).childNodes == [FirstArgumentTree];
    assert ConvertTree(Closed10.stack[0]).childNodes == [Func("f", [FirstArgumentTree], []), Const("4", false)];
  }

  // The states of "f(1+2*3,4)" after its ',' and its '4', in both versions.
  const OpenArgument: seq<ParseNode> := [BaseContext, FunctionContext("f", false), ClosedArgument]
  const MergedArgument: ParseNode := ClosedArgument.(childNodes := [Lit("1", false), Product, Lit("4", false)])
  const MergedCall: ParseNode := FunctionContext("f", false).(childNodes := [MergedArgument])
  const SeparatedCall: ParseNode := ClosedCall.(childNodes := [ClosedArgument, Lit("4", false)])

  const AsWritten8: State := State(OpenArgument + [ArgumentContext], 8, false)
  const AsWritten9: State := State(OpenArgument + [ArgumentContext.(childNodes := [Lit("4", false)])], 9, false)
  const AsWritten10: State := State([BaseContext, MergedCall], 10, false)
  const Corrected8: State := State([BaseContext, ClosedCall, ArgumentContext], 8, false)
  const Corrected9: State := State([BaseContext, ClosedCall, ArgumentContext.(childNodes := [Lit("4", false)])], 9, false)
  const Corrected10: State := State([BaseContext.(childNodes := [SeparatedCall])], 10, false)

  /** The input is "f(1+2*3,4)". */
  predicate IsCallOfTwo(s: string)
  {
    StartsWithRaisedArgument(s) && |s| == 10 && s[7] == ArgumentSeparator && s[8] == '4' && s[9] == CloseParen
  }

  lemma SeparateAsWritten(s: string)
    requires IsCallOfTwo(s)
    ensures Next(s, '.', AfterRaisedArgument) == Some(AsWritten8)
  {
    CloseProduct();
    StepSeparator(s, '.', AfterRaisedArgument, AsWritten8.stack);
  }

  lemma FourAsWritten(s: string)
    requires IsCallOfTwo(s)
    ensures Next(s, '.', AsWritten8) == Some(AsWritten9)
  {
    assert s[8..9] == "4";
    assert AsWritten8.stack[..3] == OpenArgument;
    SpanOfOne(s, 8, NumberCharacters('.'));
    StepConstant(s, '.', AsWritten8, 9);
  }

  lemma CloseMergedArgument(s: string)
    requires IsCallOfTwo(s)
    ensures Next(s, '.', AsWritten9) == Some(AsWritten10)
  {
    var merged := [BaseContext, FunctionContext("f", false), MergedArgument];
    assert FunctionParameterClosed(AsWritten9.stack) == Some(merged) by {
      var below := AsWritten9.stack[..3];
      assert below == OpenArgument;
      assert below[..2] == [BaseContext, FunctionContext("f", false)];
      assert [Lit("1", false), Product] + [Lit("4", false)] == [Lit("1", false), Product, Lit("4", false)];
      assert AddedChild(ClosedArgument, Lit("4", false)) == MergedArgument;
      assert [BaseContext, FunctionContext("f", false)] + [MergedArgument] == merged;
    }
    assert PoppedAndPushed(merged) == Some(AsWritten10.stack) by {
      assert merged[..2] == [BaseContext, FunctionContext("f", false)];
      assert merged[..2][..1] == [BaseContext];
      assert [BaseContext] + [MergedCall] == AsWritten10.stack;
    }
    StepClose(s, '.', AsWritten9, AsWritten10.stack);
  }

  lemma ScanCallOfTwoAsWritten(s: string)
    requires IsCallOfTwo(s)
    ensures Run(s, '.', InitialState) == Some(AsWritten10)
  {
    ScanRaisedArgument(s);
    SeparateAsWritten(s);
    FourAsWritten(s);
    CloseMergedArgument(s);
    RunStep(s, '.', AfterRaisedArgument, AsWritten8);
    RunStep(s, '.', AsWritten8, AsWritten9);
    RunStep(s, '.', AsWritten9, AsWritten10);
    RunDone(s, '.', AsWritten10);
  }

  lemma ConvertMergedCall()
    ensures ConvertTree(Collapsed(AsWritten10.stack))
         == Group([Func("f", [Group([Const("1", false), ProductTree, Const("4", false)], [Operator("+")])], [])], [])
  {
    var root := BaseContext.(childNodes := [MergedCall]);
    assert Collapsed(AsWritten10.stack) == root by {
      assert AsWritten10.stack[..1] == [BaseContext];
    }
    ConvertClosedArgument();
    assert ConvertTree(Lit("1", false)) == Const("1", false);
    assert ConvertTree(Lit("4", false)) == Const("4", false);
    assert ConvertTree(MergedArgument).childNodes == [Const("1", false), ProductTree, Const("4", false)];
    assert ConvertTree(MergedCall).childNodes == [ConvertTree(MergedArgument)];
    assert ConvertTree(root).childNodes == [ConvertTree(MergedCall)];
  }

  /** As written, the ',' of "f(1+2*3,4)" closes only the raised context, so 4 joins the first
      argument: the call gets one argument, 1+2*3 4. */
  lemma ArgumentsMergedAsWritten()
    ensures Parsed("f(1+2*3,4)", '.')
         == Ok(Group([Func("f", [Group([Const("1", false), ProductTree, Const("4", false)], [Operator("+")])], [])], []))
  {
    var s := "f(1+2*3,4)";
    assert IsCallOfTwo(s);
    ScanCallOfTwoAsWritten(s);
    assert !IsWhiteSpace(s[0]);
    ParsedFromRun(s, '.', AsWritten10);
    ConvertMergedCall();
  }

  lemma Separate(s: string)
    requires IsCallOfTwo(s)
    ensures NextCorrected(s, '.', AfterRaisedArgument) == Some(Corrected8)
  {
    CloseProduct();
    CloseArgument();
    assert [BaseContext, ClosedCall] + [ArgumentContext] == Corrected8.stack;
    assert ArgumentSeparatedCorrected(AfterRaisedArgument.stack) == Some(Corrected8.stack);
    StepSeparatorCorrected(s, '.', AfterRaisedArgument, Corrected8.stack);
  }

  lemma Four(s: string)
    requires IsCallOfTwo(s)
    ensures NextCorrected(s, '.', Corrected8) == Some(Corrected9)
  {
    assert s[8..9] == "4";
    assert Corrected8.stack[..2] == [BaseContext, ClosedCall];
    assert [BaseContext, ClosedCall] + [Corrected9.stack[2]] == Corrected9.stack;
    SpanOfOne(s, 8, NumberCharacters('.'));
    StepConstant(s, '.', Corrected8, 9);
  }

  lemma CloseSeparatedArgument(s: string)
    requires IsCallOfTwo(s)
    ensures NextCorrected(s, '.', Corrected9) == Some(Corrected10)
  {
    var closed := [BaseContext, SeparatedCall];
    assert FunctionParameterClosed(Corrected9.stack) == Some(closed) by {
      var below := Corrected9.stack[..2];
      assert below == [BaseContext, ClosedCall];
      assert below[..1] == [BaseContext];
      assert [ClosedArgument] + [Lit("4", false)] == [ClosedArgument, Lit("4", false)];
      assert AddedChild(ClosedCall, Lit("4", false)) == SeparatedCall;
      assert [BaseContext] + [SeparatedCall] == closed;
    }
    assert PoppedAndPushed(closed) == Some(Corrected10.stack) by {
      assert closed[..1] == [BaseContext];
    }
    assert ParenthesisClosedCorrected(Corrected9.stack) == Some(Corrected10.stack);
    StepCloseCorrected(s, '.', Corrected9, Corrected10.stack);
  }

  lemma ScanCallOfTwo(s: string)
    requires IsCallOfTwo(s)
    ensures RunCorrected(s, '.', InitialState) == Some(Corrected10)
  {
    ScanRaisedArgument(s);
    Separate(s);
    Four(s);
    CloseSeparatedArgument(s);
    RunStepCorrected(s, '.', AfterRaisedArgument, Corrected8);
    RunStepCorrected(s, '.', Corrected8, Corrected9);
    RunStepCorrected(s, '.', Corrected9, Corrected10);
    RunDone(s, '.', Corrected10);
  }

  /** With the correction, "f(1+2*3,4)" is f applied to two arguments, 1+2*3 and 4. */
  lemma ArgumentsSeparatedAfterRaisedArgument()
    ensures ParsedCorrected("f(1+2*3,4)", '.') == Ok(Group([Func("f", [FirstArgumentTree, Const("4", false)], [])], []))
  {
    var s := "f(1+2*3,4)";
    assert IsCallOfTwo(s);
    ScanCallOfTwo(s);
    assert !IsWhiteSpace(s[0]);
    ParsedCorrectedFromRun(s, '.', Corrected10);
    ConvertClosedArgument();
    assert ConvertTree(Lit("4", false)) == Const("4", false);
    assert ConvertTree(SeparatedCall).childNodes == [FirstArgumentTree, Const("4", false)];
    assert ConvertTree(Corrected10.stack[0]).childNodes == [ConvertTree(SeparatedCall)];
  }

  // ---------------------------------------------------------------------------------------
  // "A+B*C,D": a separator after a product, outside any call
  // ---------------------------------------------------------------------------------------

  /** The input is "A+B*C,D". */
  predicate IsProductThenSeparator(s: string)
  {
    IsAPlusBTimesC(s) && |s| == 7 && s[5] == ArgumentSeparator && s[6] == 'D'
  }

  const D: ParseNode := Leaf(Variable, "D", false)
  const ClosedProduct: ParseNode := BC.(childNodes := [B, C])

  // The states of "A+B*C,D" as written, after its ',' and its 'D'.
  const Outside6: State := State([AB2.stack[0].(childNodes := [A, ClosedProduct]), ArgumentContext], 6, false)
  const Outside7: State := State([Outside6.stack[0], ArgumentContext.(childNodes := [D])], 7, false)

  /** Scanning "A+B*C" reaches BC5, in both versions. */
  lemma ScanProduct(s: string)
    requires IsProductThenSeparator(s)
    ensures Run(s, '.', InitialState) == Run(s, '.', BC5)
    ensures RunCorrected(s, '.', InitialState) == RunCorrected(s, '.', BC5)
  {
    AB1Step(s);
    AB2Step(s);
    AB3Step(s);
    BC4Step(s);
    BC5Step(s);
    RunStep(s, '.', InitialState, AB1);
    RunStep(s, '.', AB1, AB2);
    RunStep(s, '.', AB2, AB3);
    RunStep(s, '.', AB3, BC4);
    RunStep(s, '.', BC4, BC5);
    RunStepCorrected(s, '.', InitialState, AB1);
    RunStepCorrected(s, '.', AB1, AB2);
    RunStepCorrected(s, '.', AB2, AB3);
    RunStepCorrected(s, '.', AB3, BC4);
    RunStepCorrected(s, '.', BC4, BC5);
  }

  lemma SeparateOutsideCallAsWritten(s: string)
    requires IsProductThenSeparator(s)
    ensures Next(s, '.', BC5) == Some(Outside6)
    ensures Next(s, '.', Outside6) == Some(Outside7)
  {
    assert BC5.stack[..1] == [AB2.stack[0]];
    assert [A] + [ClosedProduct] == [A, ClosedProduct];
    assert PoppedAndPushed(BC5.stack) == Some([Outside6.stack[0]]);
    assert |Top(BC5.stack).childNodes| == 2;
    assert FunctionParameterClosed(BC5.stack) == Some([Outside6.stack[0]]);
    assert [Outside6.stack[0]] + [ArgumentContext] == Outside6.stack;
    StepSeparator(s, '.', BC5, Outside6.stack);
    assert s[6..7] == "D";
    assert Outside6.stack[..1] == [Outside6.stack[0]];
    assert [Outside6.stack[0]] + [Outside7.stack[1]] == Outside7.stack;
    SpanOfOne(s, 6, ParameterCharacters);
    StepVariable(s, '.', Outside6, 7);
  }

  /** As written, the ',' of "A+B*C,D" closes the product as if it were an argument and opens an
      argument container at the top level, so the input parses: D ends up in a group of its own
      beside A and B*C. */
  lemma ProductSeparatedOutsideCallAsWritten()
    ensures Parsed("A+B*C,D", '.')
         == Ok(Group([Var("A", false), Group([Var("B", false), Var("C", false)], [Operator("*")]),
                      Group([Var("D", false)], [])], [Operator("+")]))
  {
    var s := "A+B*C,D";
    assert IsProductThenSeparator(s);
    ScanProduct(s);
    SeparateOutsideCallAsWritten(s);
    RunStep(s, '.', BC5, Outside6);
    RunStep(s, '.', Outside6, Outside7);
    RunDone(s, '.', Outside7);
    assert !IsWhiteSpace(s[0]);
    ParsedFromRun(s, '.', Outside7);
    var argument := Outside7.stack[1];
    var root := Outside6.stack[0].(childNodes := [A, ClosedProduct, argument]);
    assert Collapsed(Outside7.stack) == root by {
      assert Outside7.stack[..1] == [Outside6.stack[0]];
      assert [A, ClosedProduct] + [argument] == [A, ClosedProduct, argument];
    }
    assert ConvertTree(A) == Var("A", false);
    assert ConvertTree(B) == Var("B", false);
    assert ConvertTree(C) == Var("C", false);
    assert ConvertTree(D) == Var("D", false);
    assert ConvertTree(ClosedProduct).childNodes == [Var("B", false), Var("C", false)];
    assert ConvertTree(argument).childNodes == [Var("D", false)];
    assert ConvertTree(root).childNodes == [Var("A", false), ConvertTree(ClosedProduct), ConvertTree(argument)];
  }

  /** With the correction, "A+B*C,D" is rejected, as "A,D" is: the product is closed first and
      only the base context remains. */
  lemma ProductSeparatedOutsideCallFails()
    ensures ParsedCorrected("A+B*C,D", '.') == Error
  {
    var s := "A+B*C,D";
    assert IsProductThenSeparator(s);
    ScanProduct(s);
    assert |PoppedAndPushed(BC5.stack).value| == 1;
    StepSeparatorCorrectedFails(s, '.', BC5);
    RunFailsCorrected(s, '.', BC5);
    assert !IsWhiteSpace(s[0]);
    ParsedCorrectedFailsFromRun(s, '.');
  }

  // ---------------------------------------------------------------------------------------
  // "(f(1+2*3))": the written ')' after a product drops the function
  // ---------------------------------------------------------------------------------------

  /** The input is "(f(1+2*3))". */
  predicate IsWrappedCall(s: string)
  {
    && |s| == 10 && s[0] == OpenParen && s[1] == 'f' && s[2] == OpenParen && s[3] == '1' && s[4] == '+'
    && s[5] == '2' && s[6] == '*' && s[7] == '3' && s[8] == CloseParen && s[9] == CloseParen
  }

  /** The base and the parenthesis context opened by the first character. */
  const Wrapped: seq<ParseNode> := [BaseContext, ParenthesisContext(false)]
  const WrappedCall: seq<ParseNode> := Wrapped + [FunctionContext("f", false)]

  // The states of "(f(1+2*3" after 1, 3, 4, ..., 8 characters.
  const Wrapped1: State := State(Wrapped, 1, false)
  const Wrapped3: State := State(WrappedCall + [ArgumentContext], 3, false)
  const Wrapped4: State := State(WrappedCall + [ArgumentContext.(childNodes := [Lit("1", false)])], 4, false)
  const Wrapped5: State := State(WrappedCall + [FirstArgument], 5, false)
  const Wrapped6: State := State(WrappedCall + [FirstArgument.(childNodes := [Lit("1", false), Lit("2", false)])], 6, false)
  const Wrapped7: State := State(WrappedCall + [FirstArgument, Factor], 7, false)
  const Wrapped8: State := State(WrappedCall + [FirstArgument, Product], 8, false)

  lemma ScanWrappedCallStart(s: string)
    requires IsWrappedCall(s)
    ensures Next(s, '.', InitialState) == Some(Wrapped1)
    ensures Next(s, '.', Wrapped1) == Some(Wrapped3)
    ensures Next(s, '.', Wrapped3) == Some(Wrapped4)
  {
    StepOpen(s, '.', InitialState);
    assert [BaseContext] + [ParenthesisContext(false)] == Wrapped;
    SpanOfOne(s, 1, ParameterCharacters);
    assert s[1..2] == "f";
    StepCall(s, '.', Wrapped1, 2);
    assert Wrapped + [FunctionContext("f", false), ArgumentContext] == Wrapped3.stack;
    SpanOfOne(s, 3, NumberCharacters('.'));
    assert s[3..4] == "1";
    StepConstant(s, '.', Wrapped3, 4);
    assert Wrapped3.stack[..3] == WrappedCall;
  }

  lemma ScanWrappedSum(s: string)
    requires IsWrappedCall(s)
    ensures Next(s, '.', Wrapped4) == Some(Wrapped5)
    ensures Next(s, '.', Wrapped5) == Some(Wrapped6)
  {
    SpanOfOne(s, 4, OperatorCharacters);
    assert s[4..5] == "+";
    assert Wrapped4.stack[..3] == WrappedCall;
    assert OperatorAddedToTop(Wrapped4.stack, Operator("+")) == Wrapped5.stack;
    assert OperatorRecorded(Wrapped4.stack, "+") == Some(Wrapped5.stack);
    StepOperator(s, '.', Wrapped4, 5, Wrapped5.stack);
    SpanOfOne(s, 5, NumberCharacters('.'));
    assert s[5..6] == "2";
    assert Wrapped5.stack[..3] == WrappedCall;
    assert [Lit("1", false)] + [Lit("2", false)] == [Lit("1", false), Lit("2", false)];
    StepConstant(s, '.', Wrapped5, 6);
  }

  lemma ScanWrappedProduct(s: string)
    requires IsWrappedCall(s)
    ensures Next(s, '.', Wrapped6) == Some(Wrapped7)
    ensures Next(s, '.', Wrapped7) == Some(Wrapped8)
  {
    SpanOfOne(s, 6, OperatorCharacters);
    assert s[6..7] == "*";
    assert IsRaisedPrecedenceOperator(Top(Wrapped6.stack), "*");
    assert [Lit("1", false), Lit("2", false)][..1] == [Lit("1", false)];
    assert PoppedChild(Top(Wrapped6.stack)) == Some((Lit("2", false), FirstArgument));
    assert WithTop(Wrapped6.stack, FirstArgument) == WrappedCall + [FirstArgument];
    assert AddedOperator(AddedChild(RaisedContext, Lit("2", false)), Operator("*")) == Factor;
    assert WrappedCall + [FirstArgument] + [Factor] == Wrapped7.stack;
    assert OperatorRecorded(Wrapped6.stack, "*") == Some(Wrapped7.stack);
    StepOperator(s, '.', Wrapped6, 7, Wrapped7.stack);
    SpanOfOne(s, 7, NumberCharacters('.'));
    assert s[7..8] == "3";
    assert Wrapped7.stack[..4] == WrappedCall + [FirstArgument];
    assert [Lit("2", false)] + [Lit("3", false)] == [Lit("2", false), Lit("3", false)];
    assert AddedChild(Factor, Lit("3", false)) == Product;
    assert WrappedCall + [FirstArgument] + [Product] == Wrapped8.stack;
    assert ChildAddedToTop(Wrapped7.stack, Lit("3", false)) == Wrapped8.stack;
    StepConstant(s, '.', Wrapped7, 8);
  }

  /** Scanning "(f(1+2*3" reaches Wrapped8, in both versions. */
  lemma ScanWrappedArgument(s: string)
    requires IsWrappedCall(s)
    ensures Run(s, '.', InitialState) == Run(s, '.', Wrapped8)
    ensures RunCorrected(s, '.', InitialState) == RunCorrected(s, '.', Wrapped8)
  {
    ScanWrappedCallStart(s);
    ScanWrappedSum(s);
    ScanWrappedProduct(s);
    RunStep(s, '.', InitialState, Wrapped1);
    RunStep(s, '.', Wrapped1, Wrapped3);
    RunStep(s, '.', Wrapped3, Wrapped4);
    RunStep(s, '.', Wrapped4, Wrapped5);
    RunStep(s, '.', Wrapped5, Wrapped6);
    RunStep(s, '.', Wrapped6, Wrapped7);
    RunStep(s, '.', Wrapped7, Wrapped8);
    RunStepCorrected(s, '.', InitialState, Wrapped1);
    RunStepCorrected(s, '.', Wrapped1, Wrapped3);
    RunStepCorrected(s, '.', Wrapped3, Wrapped4);
    RunStepCorrected(s, '.', Wrapped4, Wrapped5);
    RunStepCorrected(s, '.', Wrapped5, Wrapped6);
    RunStepCorrected(s, '.', Wrapped6, Wrapped7);
    RunStepCorrected(s, '.', Wrapped7, Wrapped8);
  }

  /** Closing the raised context into the argument container, and that into the function. */
  lemma CloseWrappedProduct()
    ensures PoppedAndPushed(Wrapped8.stack) == Some(WrappedCall + [ClosedArgument])
    ensures PoppedAndPushed(WrappedCall + [ClosedArgument]) == Some(Wrapped + [ClosedCall])
  {
    var stack := Wrapped8.stack;
    assert stack[..4] == WrappedCall + [FirstArgument];
    assert (WrappedCall + [FirstArgument])[..3] == WrappedCall;
    assert AddedChild(FirstArgument, Product) == ClosedArgument by {
      assert [Lit("1", false)] + [Product] == [Lit("1", false), Product];
    }
    var argument := WrappedCall + [ClosedArgument];
    assert argument[..3] == WrappedCall;
    assert WrappedCall[..2] == Wrapped;
    assert AddedChild(FunctionContext("f", false), ClosedArgument) == ClosedCall;
  }

  // The states after the two ')' of "(f(1+2*3))", as written and corrected.
  const WrappedAsWritten9: State := State(Wrapped + [ClosedCall], 9, false)
  const WrappedAsWritten10: State :=
    State([BaseContext.(childNodes := [ParenthesisContext(false).(childNodes := [ClosedArgument])])], 10, false)
  const WrappedCorrected9: State := State([BaseContext, ParenthesisContext(false).(childNodes := [ClosedCall])], 9, false)
  const WrappedCorrected10: State := State([BaseContext.(childNodes := [ClosedCall])], 10, false)

  /** As written, the second ')' finds the function context on top, which passes the argument
      container's flag test: its single argument is unwrapped into the parenthesis and the
      function node is dropped. */
  lemma CloseWrappedAsWritten(s: string)
    requires IsWrappedCall(s)
    ensures Next(s, '.', Wrapped8) == Some(WrappedAsWritten9)
    ensures Next(s, '.', WrappedAsWritten9) == Some(WrappedAsWritten10)
  {
    CloseWrappedProduct();
    StepClose(s, '.', Wrapped8, WrappedAsWritten9.stack);
    var stack := WrappedAsWritten9.stack;
    assert ClosesAsArgument(Top(stack)) && |Top(stack).childNodes| == 1;
    var unwrapped := [BaseContext, ParenthesisContext(false).(childNodes := [ClosedArgument])];
    assert FunctionParameterClosed(stack) == Some(unwrapped) by {
      assert stack[..2] == Wrapped;
      assert Wrapped[..1] == [BaseContext];
      assert [BaseContext] + [unwrapped[1]] == unwrapped;
    }
    assert PoppedAndPushed(unwrapped) == Some(WrappedAsWritten10.stack) by {
      assert unwrapped[..1] == [BaseContext];
    }
    StepClose(s, '.', WrappedAsWritten9, WrappedAsWritten10.stack);
  }

  /** Corrected, the first ')' closes the product, the argument and the function; the second
      unwraps the parenthesis around the call. */
  lemma CloseWrapped(s: string)
    requires IsWrappedCall(s)
    ensures NextCorrected(s, '.', Wrapped8) == Some(WrappedCorrected9)
    ensures NextCorrected(s, '.', WrappedCorrected9) == Some(WrappedCorrected10)
  {
    CloseWrappedProduct();
    assert PoppedAndPushed(Wrapped + [ClosedCall]) == Some(WrappedCorrected9.stack) by {
      var stack := Wrapped + [ClosedCall];
      assert stack[..2] == Wrapped && Top(stack) == ClosedCall;
      assert Wrapped[..1] == [BaseContext];
      assert AddedChild(ParenthesisContext(false), ClosedCall) == WrappedCorrected9.stack[1];
      assert [BaseContext] + [WrappedCorrected9.stack[1]] == WrappedCorrected9.stack;
    }
    assert ArgumentAndFunctionClosed(WrappedCall + [ClosedArgument]) == Some(WrappedCorrected9.stack);
    assert EnclosingClosed(WrappedCall + [ClosedArgument]) == Some(WrappedCorrected9.stack);
    StepCloseCorrected(s, '.', Wrapped8, WrappedCorrected9.stack);
    assert WrappedCorrected9.stack[..1] == [BaseContext];
    assert ParenthesisClosed(WrappedCorrected9.stack) == Some(WrappedCorrected10.stack);
    StepCloseCorrected(s, '.', WrappedCorrected9, WrappedCorrected10.stack);
  }

  lemma ScanWrappedAsWritten(s: string)
    requires IsWrappedCall(s)
    ensures Run(s, '.', InitialState) == Some(WrappedAsWritten10)
  {
    ScanWrappedArgument(s);
    CloseWrappedAsWritten(s);
    RunStep(s, '.', Wrapped8, WrappedAsWritten9);
    RunStep(s, '.', WrappedAsWritten9, WrappedAsWritten10);
    RunDone(s, '.', WrappedAsWritten10);
  }

  lemma ConvertWrappedAsWritten()
    ensures ConvertTree(Collapsed(WrappedAsWritten10.stack)) == Group([Group([FirstArgumentTree], [])], [])
  {
    ConvertClosedArgument();
    var group := ParenthesisContext(false).(childNodes := [ClosedArgument]);
    assert ConvertTree(group).childNodes == [FirstArgumentTree];
    assert ConvertTree(WrappedAsWritten10.stack[0]).childNodes == [ConvertTree(group)];
  }

  /** As written, "(f(1+2*3))" loses the function: the result is the argument 1+2*3 inside two
      groups, and the name f appears nowhere in the tree. */
  lemma FunctionDroppedAsWritten()
    ensures Parsed("(f(1+2*3))", '.') == Ok(Group([Group([FirstArgumentTree], [])], []))
  {
    var s := "(f(1+2*3))";
    assert IsWrappedCall(s);
    ScanWrappedAsWritten(s);
    assert !IsWhiteSpace(s[0]);
    ParsedFromRun(s, '.', WrappedAsWritten10);
    ConvertWrappedAsWritten();
  }

  lemma ScanWrappedCorrected(s: string)
    requires IsWrappedCall(s)
    ensures RunCorrected(s, '.', InitialState) == Some(WrappedCorrected10)
  {
    ScanWrappedArgument(s);
    CloseWrapped(s);
    RunStepCorrected(s, '.', Wrapped8, WrappedCorrected9);
    RunStepCorrected(s, '.', WrappedCorrected9, WrappedCorrected10);
    RunDone(s, '.', WrappedCorrected10);
  }

  lemma ConvertWrappedCorrected()
    ensures ConvertTree(Collapsed(WrappedCorrected10.stack)) == Group([Func("f", [FirstArgumentTree], [])], [])
  {
    ConvertClosedArgument();
    assert ConvertTree(ClosedCall).childNodes == [FirstArgumentTree];
    assert ConvertTree(WrappedCorrected10.stack[0]).childNodes == [ConvertTree(ClosedCall)];
  }

  /** With the correction, "(f(1+2*3))" is the call f(1+2*3). */
  lemma FunctionKeptInParentheses()
    ensures ParsedCorrected("(f(1+2*3))", '.') == Ok(Group([Func("f", [FirstArgumentTree], [])], []))
  {
    var s := "(f(1+2*3))";
    assert IsWrappedCall(s);
    ScanWrappedCorrected(s);
    assert !IsWhiteSpace(s[0]);
    ParsedCorrectedFromRun(s, '.', WrappedCorrected10);
    ConvertWrappedCorrected();
  }
}
