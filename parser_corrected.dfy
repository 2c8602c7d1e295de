/** Corrected versions of the ')' and ',' branches of ExpressionParser.cs, for the
    discrepancies recorded as findings. The parser itself (ExpressionParser)
    follows the code as written; these definitions state what the code evidently intends and
    prove that intent, and ParserFindings compares the two on concrete inputs. */
module ParserCorrected {
  import opened Wrappers
  import opened Syntax
  import opened ParserNode
  import opened ExpressionParser
  import opened ParserProperties

  /** The context left on top once a raised-precedence context is closed by ')': an argument
      container is closed together with its function; any other context is attached as it is. */
  function EnclosingClosed(stack: seq<ParseNode>): (r: Option<seq<ParseNode>>)
    requires |stack| >= 1
    ensures r.Some? ==> 1 <= |r.value| < |stack|
  {
    if ClosesAsArgument(Top(stack)) then ArgumentAndFunctionClosed(stack) else PoppedAndPushed(stack)
  }

  /** ')' as intended: after a raised-precedence context is closed, the enclosing context is
      closed by the rule that applies to it, so an argument container also closes its function. */
  function ParenthesisClosedCorrected(stack: seq<ParseNode>): (r: Option<seq<ParseNode>>)
    requires |stack| >= 1
    ensures r.Some? ==> |r.value| >= 1
  {
    if Top(stack).isRaisedPrecedence then
      match PoppedAndPushed(stack)
      case None => None
      case Some(stack1) => EnclosingClosed(stack1)
    else
      ParenthesisClosed(stack)
  }

  /** ',' as intended: a raised-precedence context on top is closed first, so the argument
      container beneath it is the one closed as the argument. */
  function ArgumentSeparatedCorrected(stack: seq<ParseNode>): (r: Option<seq<ParseNode>>)
    requires |stack| >= 1
    ensures r.Some? ==> |r.value| >= 1 && Top(r.value) == ArgumentContext
  {
    if Top(stack).isRaisedPrecedence then
      match PoppedAndPushed(stack)
      case None => None
      case Some(stack1) => ArgumentSeparated(stack1)
    else
      ArgumentSeparated(stack)
  }

  /** One step of the scan with the corrected ')' and ','. */
  function NextCorrected(s: string, decimalMarker: char, st: State): (r: Option<State>)
    requires st.index < |s| && |st.stack| >= 1
    ensures r.Some? ==> st.index < r.value.index <= |s| && |r.value.stack| >= 1
    ensures s[st.index] != CloseParen && s[st.index] != ArgumentSeparator ==> r == Next(s, decimalMarker, st)
  {
    var c := s[st.index];
    if c == CloseParen then
      match ParenthesisClosedCorrected(st.stack)
      case None => None
      case Some(stack) => Some(State(stack, st.index + 1, st.negated))
    else if c == ArgumentSeparator then
      match ArgumentSeparatedCorrected(st.stack)
      case None => None
      case Some(stack) => Some(State(stack, st.index + 1, st.negated))
    else
      Next(s, decimalMarker, st)
  }

  function RunCorrected(s: string, decimalMarker: char, st: State): (r: Option<State>)
    requires st.index <= |s| && |st.stack| >= 1
    ensures r.Some? ==> r.value.index == |s| && |r.value.stack| >= 1
    decreases |s| - st.index
  {
    if st.index == |s| then Some(st)
    else
      match NextCorrected(s, decimalMarker, st)
      case None => None
      case Some(st') => RunCorrected(s, decimalMarker, st')
  }

  /** The result of the corrected parser. */
  function ParsedCorrected(expression: string, decimalMarker: char): Result<SyntaxTreeNode>
  {
    if IsNullOrWhiteSpace(expression) then Ok(EmptyScope)
    else
      match RunCorrected(expression, decimalMarker, InitialState)
      case None => Error
      case Some(st) => Ok(ConvertTree(Collapsed(st.stack)))
  }

  /** The corrected ')' differs from the written one only on a raised-precedence context that
      lies on an argument container. */
  lemma ParenthesisCorrectionIsLocal(stack: seq<ParseNode>)
    requires |stack| >= 1
    requires !(|stack| >= 2 && Top(stack).isRaisedPrecedence && ClosesAsArgument(stack[|stack| - 2]))
    ensures ParenthesisClosedCorrected(stack) == ParenthesisClosed(stack)
  {
    if Top(stack).isRaisedPrecedence && |stack| >= 2 {
      var stack1 := PoppedAndPushed(stack).value;
      assert Top(stack1).(childNodes := stack[|stack| - 2].childNodes) == stack[|stack| - 2];
    }
  }

  /** With the correction, ')' on a raised-precedence context inside a function argument closes
      the raised context and then does exactly what ')' does on the argument container itself:
      the argument and the function are both closed. */
  lemma CloseParenthesisOnRaisedInArgument(stack: seq<ParseNode>)
    requires |stack| >= 2 && Top(stack).isRaisedPrecedence && ClosesAsArgument(stack[|stack| - 2])
    requires !stack[|stack| - 2].isRaisedPrecedence
    ensures ParenthesisClosedCorrected(stack) == ParenthesisClosed(PoppedAndPushed(stack).value)
  {
    var stack1 := PoppedAndPushed(stack).value;
    assert Top(stack1).(childNodes := stack[|stack| - 2].childNodes) == stack[|stack| - 2];
  }

  /** With the correction, ',' on a raised-precedence context closes it and then acts as ',' on
      the context beneath; elsewhere it is the written ','. */
  lemma SeparatorOnRaised(stack: seq<ParseNode>)
    requires |stack| >= 1
    ensures ArgumentSeparatedCorrected(stack)
         == if Top(stack).isRaisedPrecedence
            then (if |stack| >= 2 then ArgumentSeparated(PoppedAndPushed(stack).value) else None)
            else ArgumentSeparated(stack)
  {
  }

  /** A ',' after a product at the base, as in "1+2*3,4": the written code accepts it (the raised
      context is closed as if it were an argument), while the corrected ',' rejects it exactly as
      it rejects "A,B". */
  lemma SeparatorAfterProductOutsideCall(stack: seq<ParseNode>)
    requires |stack| == 2 && Top(stack).isRaisedPrecedence
    ensures ArgumentSeparated(stack).Some?
    ensures ArgumentSeparatedCorrected(stack).None?
  {
  }

  lemma ParenthesisClosedCorrectedKeeps(stack: seq<ParseNode>)
    requires Invariant(stack) && ParenthesisClosedCorrected(stack).Some?
    ensures Invariant(ParenthesisClosedCorrected(stack).value)
  {
    if Top(stack).isRaisedPrecedence {
      PoppedAndPushedKeeps(stack);
      var stack1 := PoppedAndPushed(stack).value;
      if ClosesAsArgument(Top(stack1)) {
        ArgumentAndFunctionClosedKeeps(stack1);
      } else {
        PoppedAndPushedKeeps(stack1);
      }
    } else {
      ParenthesisClosedKeeps(stack);
    }
  }

  lemma ArgumentSeparatedCorrectedKeeps(stack: seq<ParseNode>)
    requires Invariant(stack) && ArgumentSeparatedCorrected(stack).Some?
    ensures Invariant(ArgumentSeparatedCorrected(stack).value)
  {
    if Top(stack).isRaisedPrecedence {
      PoppedAndPushedKeeps(stack);
      ArgumentSeparatedKeeps(PoppedAndPushed(stack).value);
    } else {
      ArgumentSeparatedKeeps(stack);
    }
  }
}
