/** Properties of the parser's scan (ExpressionParser.cs), stated over the value-level model:
    tokenisation, the invariants every reachable stack keeps, the failure cases, the meaning of
    '-', of an operator and of ')', the end-of-input collapse and the conversion to the public
    tree. */
module ParserProperties {
  import opened Wrappers
  import opened Syntax
  import opened ParserNode
  import opened ExpressionParser

  // ---------------------------------------------------------------------------------------
  // Tokenisation
  // ---------------------------------------------------------------------------------------

  /** readWhile stops exactly at the first character, at or after i, outside the class: every
      character it passes over is in the class, and the one it stops at (if any) is not. */
  lemma {:induction false} SpanEndIsMaximalRun(s: string, i: nat, k: CharClass)
    requires i <= |s|
    ensures forall p :: i <= p < SpanEnd(s, i, k) ==> InClass(k, s[p])
    ensures SpanEnd(s, i, k) == |s| || !InClass(k, s[SpanEnd(s, i, k)])
    decreases |s| - i
  {
    if i < |s| && InClass(k, s[i]) {
      SpanEndIsMaximalRun(s, i + 1, k);
    }
  }

  // ---------------------------------------------------------------------------------------
  // What every reachable stack satisfies
  // ---------------------------------------------------------------------------------------

  /** A node's fields other than its children and operators. */
  function Header(n: ParseNode): ParseNode
  {
    n.(childNodes := [], operators := [])
  }

  predicate AllRaised(ops: seq<Operator>)
  {
    forall j :: 0 <= j < |ops| ==> ops[j].symbol in OperatorsWithRaisedPrecedence
  }

  /** A raised-precedence context holds at least one operator, and only "*", "/" and "%". */
  predicate RaisedWellFormed(n: ParseNode)
  {
    n.isRaisedPrecedence ==> |n.operators| >= 1 && AllRaised(n.operators)
  }

  /** The bottom of the stack is the base context (with whatever children and operators it has
      gathered), every raised-precedence context is well formed, and no raised-precedence context
      lies directly on another. */
  predicate Invariant(stack: seq<ParseNode>)
  {
    && |stack| >= 1
    && Header(stack[0]) == BaseContext
    && (forall i :: 0 <= i < |stack| ==> RaisedWellFormed(stack[i]))
    && (forall i :: 1 <= i < |stack| && stack[i].isRaisedPrecedence ==> !stack[i - 1].isRaisedPrecedence)
  }

  lemma InitialInvariant()
    ensures Invariant(InitialState.stack)
  {
  }

  lemma PrefixKeeps(stack: seq<ParseNode>, k: nat)
    requires Invariant(stack) && 1 <= k <= |stack|
    ensures Invariant(stack[..k])
  {
    var p := stack[..k];
    assert forall i :: 0 <= i < |p| ==> p[i] == stack[i];
  }

  lemma WithTopKeeps(stack: seq<ParseNode>, n: ParseNode)
    requires Invariant(stack) && RaisedWellFormed(n) && Header(n) == Header(Top(stack))
    ensures Invariant(WithTop(stack, n))
  {
    var r := WithTop(stack, n);
    assert forall i :: 0 <= i < |stack| - 1 ==> r[i] == stack[i];
    assert r[|r| - 1] == n;
    assert n.isRaisedPrecedence == Top(stack).isRaisedPrecedence;
    if |stack| == 1 {
      assert r[0] == n;
    }
  }

  lemma PushKeeps(stack: seq<ParseNode>, n: ParseNode)
    requires Invariant(stack) && RaisedWellFormed(n)
    requires n.isRaisedPrecedence ==> !Top(stack).isRaisedPrecedence
    ensures Invariant(stack + [n])
  {
    var r := stack + [n];
    assert forall i :: 0 <= i < |stack| ==> r[i] == stack[i];
  }

  lemma ChildAddedKeeps(stack: seq<ParseNode>, c: ParseNode)
    requires Invariant(stack)
    ensures Invariant(ChildAddedToTop(stack, c))
  {
    WithTopKeeps(stack, AddedChild(Top(stack), c));
  }

  lemma OperatorAddedKeeps(stack: seq<ParseNode>, op: Operator)
    requires Invariant(stack)
    requires Top(stack).isRaisedPrecedence ==> op.symbol in OperatorsWithRaisedPrecedence
    ensures Invariant(OperatorAddedToTop(stack, op))
  {
    var n := AddedOperator(Top(stack), op);
    assert forall j :: 0 <= j < |Top(stack).operators| ==> n.operators[j] == Top(stack).operators[j];
    WithTopKeeps(stack, n);
  }

  lemma PoppedAndPushedKeeps(stack: seq<ParseNode>)
    requires Invariant(stack) && |stack| >= 2
    ensures Invariant(PoppedAndPushed(stack).value)
    ensures Top(PoppedAndPushed(stack).value).isRaisedPrecedence == stack[|stack| - 2].isRaisedPrecedence
  {
    PrefixKeeps(stack, |stack| - 1);
    ChildAddedKeeps(stack[..|stack| - 1], stack[|stack| - 1]);
  }

  lemma FunctionParameterClosedKeeps(stack: seq<ParseNode>)
    requires Invariant(stack) && |stack| >= 2
    ensures Invariant(FunctionParameterClosed(stack).value)
  {
    if |Top(stack).childNodes| == 1 {
      PrefixKeeps(stack, |stack| - 1);
      ChildAddedKeeps(stack[..|stack| - 1], Top(stack).childNodes[0]);
    } else {
      PoppedAndPushedKeeps(stack);
    }
  }

  lemma ArgumentAndFunctionClosedKeeps(stack: seq<ParseNode>)
    requires Invariant(stack) && |stack| >= 3
    ensures Invariant(ArgumentAndFunctionClosed(stack).value)
  {
    FunctionParameterClosedKeeps(stack);
    PoppedAndPushedKeeps(FunctionParameterClosed(stack).value);
  }

  lemma ParenthesisClosedKeeps(stack: seq<ParseNode>)
    requires Invariant(stack) && ParenthesisClosed(stack).Some?
    ensures Invariant(ParenthesisClosed(stack).value)
  {
    var top := Top(stack);
    if top.isRaisedPrecedence {
      RaisedClosedKeeps(stack);
    } else if ClosesAsArgument(top) {
      ArgumentAndFunctionClosedKeeps(stack);
    } else if |top.childNodes| == 1 {
      SingleChildClosedKeeps(stack);
    } else {
      PoppedAndPushedKeeps(stack);
    }
  }

  lemma RaisedClosedKeeps(stack: seq<ParseNode>)
    requires Invariant(stack) && |stack| >= 3 && Top(stack).isRaisedPrecedence
    ensures Invariant(ParenthesisClosed(stack).value)
  {
    PoppedAndPushedKeeps(stack);
    var stack1 := PoppedAndPushed(stack).value;
    PoppedAndPushedKeeps(stack1);
  }

  lemma SingleChildClosedKeeps(stack: seq<ParseNode>)
    requires Invariant(stack) && |stack| >= 2 && |Top(stack).childNodes| == 1
    requires !Top(stack).isRaisedPrecedence && !ClosesAsArgument(Top(stack))
    ensures Invariant(ParenthesisClosed(stack).value)
  {
    var top := Top(stack);
    var child := top.childNodes[0].(isNegative := top.isNegative);
    PrefixKeeps(stack, |stack| - 1);
    ChildAddedKeeps(stack[..|stack| - 1], child);
  }

  lemma ArgumentSeparatedKeeps(stack: seq<ParseNode>)
    requires Invariant(stack) && ArgumentSeparated(stack).Some?
    ensures Invariant(ArgumentSeparated(stack).value)
  {
    FunctionParameterClosedKeeps(stack);
    PushKeeps(FunctionParameterClosed(stack).value, ArgumentContext);
  }

  /** '-' never fails on a reachable stack: a raised-precedence context is never the base. */
  lemma MinusNeverFails(stack: seq<ParseNode>, negated: bool)
    requires Invariant(stack)
    ensures MinusApplied(stack, negated).Some?
  {
    if Top(stack).isRaisedPrecedence {
      assert |stack| >= 2;
    }
  }

  lemma MinusAppliedKeeps(stack: seq<ParseNode>, negated: bool)
    requires Invariant(stack)
    ensures Invariant(MinusApplied(stack, negated).value.0)
  {
    MinusNeverFails(stack, negated);
    var top := Top(stack);
    if |top.operators| == |top.childNodes| {
    } else if top.isRaisedPrecedence {
      PoppedAndPushedKeeps(stack);
      OperatorAddedKeeps(PoppedAndPushed(stack).value, Operator(NegativeTokenStr));
    } else {
      OperatorAddedKeeps(stack, Operator(NegativeTokenStr));
    }
  }

  lemma OperatorRecordedKeeps(stack: seq<ParseNode>, op: string)
    requires Invariant(stack) && OperatorRecorded(stack, op).Some?
    requires Top(stack).isRaisedPrecedence ==> op in OperatorsWithRaisedPrecedence
    ensures Invariant(OperatorRecorded(stack, op).value)
  {
    var top := Top(stack);
    if IsRaisedPrecedenceOperator(top, op) {
      assert !top.isRaisedPrecedence;
      var (pulled, rest) := PoppedChild(top).value;
      WithTopKeeps(stack, rest);
      var raised := AddedOperator(AddedChild(RaisedContext, pulled), Operator(op));
      assert raised.operators == [Operator(op)];
      PushKeeps(WithTop(stack, rest), raised);
    } else {
      OperatorAddedKeeps(stack, Operator(op));
    }
  }

  lemma OperatorAppliedKeeps(stack: seq<ParseNode>, op: string)
    requires Invariant(stack) && OperatorApplied(stack, op).Some?
    ensures Invariant(OperatorApplied(stack, op).value)
  {
    if op !in OperatorsWithRaisedPrecedence && Top(stack).isRaisedPrecedence {
      assert |stack| >= 2;
      PoppedAndPushedKeeps(stack);
      OperatorRecordedKeeps(PoppedAndPushed(stack).value, op);
    } else {
      OperatorRecordedKeeps(stack, op);
    }
  }

  lemma NameScannedKeeps(s: string, st: State)
    requires st.index < |s| && Invariant(st.stack) && IsParameterCharacter(s[st.index])
    ensures Invariant(NameScanned(s, st).stack)
  {
    var i := st.index;
    var j := SpanEnd(s, i, ParameterCharacters);
    if j < |s| && s[j] == OpenParen {
      var f := FunctionContext(s[i..j], st.negated);
      PushKeeps(st.stack, f);
      PushKeeps(st.stack + [f], ArgumentContext);
      assert st.stack + [f, ArgumentContext] == st.stack + [f] + [ArgumentContext];
    } else {
      ChildAddedKeeps(st.stack, Leaf(Variable, s[i..j], st.negated));
    }
  }

  /** Every step keeps the invariant. */
  lemma NextKeeps(s: string, m: char, st: State)
    requires st.index < |s| && Invariant(st.stack) && Next(s, m, st).Some?
    ensures Invariant(Next(s, m, st).value.stack)
  {
    var c := s[st.index];
    if c == OpenParen {
      PushKeeps(st.stack, ParenthesisContext(st.negated));
    } else if c == CloseParen {
      ParenthesisClosedKeeps(st.stack);
    } else if c == ArgumentSeparator {
      ArgumentSeparatedKeeps(st.stack);
    } else if c == NegativeToken {
      MinusAppliedKeeps(st.stack, st.negated);
    } else if IsOperatorCharacter(c) {
      OperatorAppliedKeeps(st.stack, s[st.index..SpanEnd(s, st.index, OperatorCharacters)]);
    } else if IsNumber(c) {
      var j := SpanEnd(s, st.index, NumberCharacters(m));
      ChildAddedKeeps(st.stack, Leaf(Constant, s[st.index..j], st.negated));
    } else if !IsWhiteSpace(c) {
      NameScannedKeeps(s, st);
    }
  }

  /** The whole scan keeps the invariant. */
  lemma {:induction false} RunKeeps(s: string, m: char, st: State)
    requires st.index <= |s| && Invariant(st.stack) && Run(s, m, st).Some?
    ensures Invariant(Run(s, m, st).value.stack)
    decreases |s| - st.index
  {
    if st.index < |s| {
      NextKeeps(s, m, st);
      RunKeeps(s, m, Next(s, m, st).value);
    }
  }

  /** On a reachable stack a step can fail only at ')', at ',' or at an operator symbol. */
  lemma FailureOnlyAtCloseSeparatorOrOperator(s: string, m: char, st: State)
    requires st.index < |s| && Invariant(st.stack) && Next(s, m, st).None?
    ensures s[st.index] == CloseParen || s[st.index] == ArgumentSeparator || IsOperatorCharacter(s[st.index])
  {
    if s[st.index] == NegativeToken {
      MinusNeverFails(st.stack, st.negated);
    }
  }

  // ---------------------------------------------------------------------------------------
  // End of input and the root of the result
  // ---------------------------------------------------------------------------------------

  /** A reference definition of the end-of-input collapse: each context becomes the last child
      of the one beneath it, as it is (no single-child context is unwrapped). */
  function Nest(stack: seq<ParseNode>): ParseNode
    requires |stack| >= 1
    decreases |stack|
  {
    if |stack| == 1 then stack[0] else AddedChild(stack[0], Nest(stack[1..]))
  }

  lemma {:induction false} NestOfPoppedAndPushed(stack: seq<ParseNode>)
    requires |stack| >= 2
    ensures Nest(PoppedAndPushed(stack).value) == Nest(stack)
    decreases |stack|
  {
    var n := |stack|;
    var t := PoppedAndPushed(stack).value;
    if n == 2 {
      assert t == [AddedChild(stack[0], stack[1])];
      assert stack[1..] == [stack[1]];
    } else {
      var tail := stack[1..];
      NestOfPoppedAndPushed(tail);
      PoppedAndPushedOfTail(stack);
      assert t[1..] == PoppedAndPushed(tail).value;
    }
  }

  /** Closing the top context of a stack of three or more leaves its bottom context alone. */
  lemma PoppedAndPushedOfTail(stack: seq<ParseNode>)
    requires |stack| >= 3
    ensures PoppedAndPushed(stack).value == [stack[0]] + PoppedAndPushed(stack[1..]).value
  {
    var n := |stack|;
    var last := AddedChild(stack[n - 2], stack[n - 1]);
    var below := stack[..n - 1];
    assert below[..n - 2] == stack[..n - 2];
    assert Top(below) == stack[n - 2];
    assert PoppedAndPushed(stack).value == stack[..n - 2] + [last];
    var tail := stack[1..];
    assert tail[..n - 2][..n - 3] == stack[1..n - 2];
    assert Top(tail[..n - 2]) == stack[n - 2];
    assert PoppedAndPushed(tail).value == stack[1..n - 2] + [last];
    assert stack[..n - 2] == [stack[0]] + stack[1..n - 2];
  }

  /** The collapse that Parse performs at the end of input is Nest. */
  lemma {:induction false} CollapsedIsNest(stack: seq<ParseNode>)
    requires |stack| >= 1
    ensures Collapsed(stack) == Nest(stack)
    decreases |stack|
  {
    if |stack| >= 2 {
      CollapsedIsNest(PoppedAndPushed(stack).value);
      NestOfPoppedAndPushed(stack);
    }
  }

  lemma NestHeader(stack: seq<ParseNode>)
    requires |stack| >= 1
    ensures Header(Nest(stack)) == Header(stack[0])
  {
  }

  /** A successful parse always returns the base context as the root: a Scope with empty text that
      is not negated. */
  lemma ParsedRootIsBase(expression: string, decimalMarker: char)
    requires Parsed(expression, decimalMarker).Ok?
    ensures Parsed(expression, decimalMarker).value.nodeType == Scope
    ensures Parsed(expression, decimalMarker).value.value == ""
    ensures !Parsed(expression, decimalMarker).value.isNegated
  {
    if !IsNullOrWhiteSpace(expression) {
      InitialInvariant();
      RunKeeps(expression, decimalMarker, InitialState);
      var stack := Run(expression, decimalMarker, InitialState).value.stack;
      CollapsedIsNest(stack);
      NestHeader(stack);
    }
  }

  /** An empty or whitespace-only expression gives an empty Scope. */
  lemma BlankGivesEmptyScope(expression: string, decimalMarker: char)
    requires forall i :: 0 <= i < |expression| ==> IsWhiteSpace(expression[i])
    ensures Parsed(expression, decimalMarker) == Ok(SyntaxTreeNode(Scope, "", false, [], []))
  {
  }

  // ---------------------------------------------------------------------------------------
  // Failure cases
  // ---------------------------------------------------------------------------------------

  /** ')' fails exactly when too few contexts are open: a raised-precedence context on top and
      an argument container on top each need two contexts beneath (two are popped), any other
      context needs one. */
  lemma CloseParenthesisFailsWhenTooFewOpen(stack: seq<ParseNode>)
    requires |stack| >= 1
    ensures var n := |stack|;
      ParenthesisClosed(stack).None? <==>
        if Top(stack).isRaisedPrecedence || ClosesAsArgument(Top(stack)) then n < 3
        else n < 2
  {
  }

  /** ',' fails exactly when only the base context is open; any other context on top, a
      raised-precedence one included, is closed as an argument. */
  lemma SeparatorFailsOnlyAtBase(s: string, m: char, st: State)
    requires st.index < |s| && |st.stack| >= 1 && s[st.index] == ArgumentSeparator
    ensures Next(s, m, st).None? <==> |st.stack| < 2
  {
  }

  /** On a reachable stack an operator symbol fails exactly when it would open a raised-precedence
      context but the context it would pull the operand from has no child. */
  lemma OperatorFailsWithoutOperand(stack: seq<ParseNode>, op: string)
    requires Invariant(stack)
    ensures OperatorApplied(stack, op).None? <==>
      var closed := if op !in OperatorsWithRaisedPrecedence && Top(stack).isRaisedPrecedence
                    then PoppedAndPushed(stack).value else stack;
      IsRaisedPrecedenceOperator(Top(closed), op) && Top(closed).childNodes == []
  {
    if op !in OperatorsWithRaisedPrecedence && Top(stack).isRaisedPrecedence {
      assert |stack| >= 2;
    }
  }

  // ---------------------------------------------------------------------------------------
  // '-'
  // ---------------------------------------------------------------------------------------

  /** '-' toggles the pending negation, and changes nothing else, exactly when the top context has
      as many operators as children (no operand is waiting for an operator); otherwise it keeps
      the negation and records the binary operator "-", after closing a raised-precedence context
      on top. */
  lemma MinusTogglesOrRecords(stack: seq<ParseNode>, negated: bool)
    requires Invariant(stack)
    ensures MinusApplied(stack, negated).Some?
    ensures var (stack', negated') := MinusApplied(stack, negated).value;
      && (negated' == !negated <==> |Top(stack).operators| == |Top(stack).childNodes|)
      && (negated' == !negated ==> stack' == stack)
  {
    MinusNeverFails(stack, negated);
  }

  /** The binary "-" in a context that is not raised: appended to the top's operators; nothing
      else changes. */
  lemma MinusRecordedInTop(stack: seq<ParseNode>, negated: bool)
    requires |stack| >= 1
    requires |Top(stack).operators| != |Top(stack).childNodes| && !Top(stack).isRaisedPrecedence
    ensures MinusApplied(stack, negated).Some?
    ensures var (stack', negated') := MinusApplied(stack, negated).value;
      && negated' == negated && |stack'| == |stack|
      && stack'[..|stack| - 1] == stack[..|stack| - 1]
      && Top(stack').operators == Top(stack).operators + [Operator("-")]
      && Top(stack').childNodes == Top(stack).childNodes
  {
  }

  /** The binary "-" after a raised-precedence context: the raised context becomes the last child
      of the one beneath, which then receives the "-". */
  lemma MinusClosesRaised(stack: seq<ParseNode>, negated: bool)
    requires Invariant(stack)
    requires |Top(stack).operators| != |Top(stack).childNodes| && Top(stack).isRaisedPrecedence
    ensures MinusApplied(stack, negated).Some?
    ensures var n := |stack|;
      var (stack', negated') := MinusApplied(stack, negated).value;
      && negated' == negated && n >= 2 && |stack'| == n - 1
      && stack'[..n - 2] == stack[..n - 2]
      && Top(stack').operators == stack[n - 2].operators + [Operator("-")]
      && Top(stack').childNodes == stack[n - 2].childNodes + [stack[n - 1]]
      && !Top(stack').isRaisedPrecedence
  {
    MinusNeverFails(stack, negated);
    assert |stack| >= 2;
  }

  // ---------------------------------------------------------------------------------------
  // Operators and raised precedence
  // ---------------------------------------------------------------------------------------

  /** A symbol opens a raised-precedence context exactly when IsRaisedPrecedenceOperator holds.
      The new context takes over the top's last child and holds the symbol; the old top keeps its
      other children. Otherwise the symbol is appended to the top's operators. */
  lemma OperatorRaisesOrAppends(stack: seq<ParseNode>, op: string)
    requires |stack| >= 1 && OperatorRecorded(stack, op).Some?
    ensures var n := |stack|;
      var r := OperatorRecorded(stack, op).value;
      var top := Top(stack);
      && (|r| == n + 1 <==> IsRaisedPrecedenceOperator(top, op))
      && (IsRaisedPrecedenceOperator(top, op) ==>
            && r[..n - 1] == stack[..n - 1]
            && r[n - 1].childNodes + [Top(r).childNodes[0]] == top.childNodes
            && r[n - 1].operators == top.operators
            && Top(r).isRaisedPrecedence
            && |Top(r).childNodes| == 1
            && Top(r).operators == [Operator(op)])
      && (!IsRaisedPrecedenceOperator(top, op) ==>
            && |r| == n
            && r[..n - 1] == stack[..n - 1]
            && Top(r).childNodes == top.childNodes
            && Top(r).operators == top.operators + [Operator(op)])
  {
    var top := Top(stack);
    if IsRaisedPrecedenceOperator(top, op) {
      var r := OperatorRecorded(stack, op).value;
      var (pulled, rest) := PoppedChild(top).value;
      assert r == WithTop(stack, rest) + [AddedOperator(AddedChild(RaisedContext, pulled), Operator(op))];
      assert r[..|stack| - 1] == WithTop(stack, rest)[..|stack| - 1];
    }
  }

  /** On a reachable stack a symbol other than "*", "/", "%" never lands in a raised-precedence
      context: it first closes one on top. */
  lemma LowerOperatorNeverRaised(stack: seq<ParseNode>, op: string)
    requires Invariant(stack) && op !in OperatorsWithRaisedPrecedence
    requires OperatorApplied(stack, op).Some?
    ensures !Top(OperatorApplied(stack, op).value).isRaisedPrecedence
    ensures Top(OperatorApplied(stack, op).value).operators[|Top(OperatorApplied(stack, op).value).operators| - 1]
            == Operator(op)
  {
    if Top(stack).isRaisedPrecedence {
      assert |stack| >= 2;
      PoppedAndPushedKeeps(stack);
    }
  }

  /** Inside a raised-precedence context another "*", "/" or "%" is appended flat. */
  lemma RaisedSymbolInRaisedContextAppends(stack: seq<ParseNode>, op: string)
    requires Invariant(stack) && Top(stack).isRaisedPrecedence && op in OperatorsWithRaisedPrecedence
    ensures OperatorApplied(stack, op) == Some(OperatorAddedToTop(stack, Operator(op)))
  {
    assert RaisedWellFormed(Top(stack));
  }

  // ---------------------------------------------------------------------------------------
  // ')' and ','
  // ---------------------------------------------------------------------------------------

  /** ')' on a raised-precedence context closes exactly two contexts, whatever they are: the
      raised one becomes the last child of the one beneath, and that one the last child of the
      next; the contexts further down are untouched. When the context beneath is a function's
      argument container, the function itself therefore stays open. */
  lemma CloseParenthesisOnRaised(stack: seq<ParseNode>)
    requires |stack| >= 3 && Top(stack).isRaisedPrecedence
    ensures var n := |stack|;
      ParenthesisClosed(stack)
        == Some(stack[..n - 3] + [AddedChild(stack[n - 3], AddedChild(stack[n - 2], stack[n - 1]))])
  {
    var n := |stack|;
    var stack1 := PoppedAndPushed(stack).value;
    assert stack1[..n - 2] == stack[..n - 2];
    assert stack1[..n - 2][..n - 3] == stack[..n - 3];
  }

  /** ')' on a function's argument container closes the argument (unwrapping a single child) and
      then the function, which becomes the last child of the context beneath it. */
  lemma CloseParenthesisOnArgument(stack: seq<ParseNode>)
    requires |stack| >= 3 && !Top(stack).isRaisedPrecedence && ClosesAsArgument(Top(stack))
    ensures var n := |stack|;
      var top := Top(stack);
      var argument := if |top.childNodes| == 1 then top.childNodes[0] else top;
      ParenthesisClosed(stack)
        == Some(stack[..n - 3] + [AddedChild(stack[n - 3], AddedChild(stack[n - 2], argument))])
  {
    var n := |stack|;
    var stack1 := FunctionParameterClosed(stack).value;
    assert stack1[..n - 2] == stack[..n - 2];
    assert stack1[..n - 2][..n - 3] == stack[..n - 3];
  }

  /** ')' on a context with exactly one child unwraps it: the child becomes the last child of the
      context beneath and takes the context's sign in place of its own. */
  lemma CloseParenthesisUnwrapsSingleChild(stack: seq<ParseNode>)
    requires |stack| >= 2 && !Top(stack).isRaisedPrecedence && !ClosesAsArgument(Top(stack))
    requires |Top(stack).childNodes| == 1
    ensures var n := |stack|;
      var child := Top(stack).childNodes[0];
      var r := ParenthesisClosed(stack).value;
      && ParenthesisClosed(stack).Some?
      && |r| == n - 1 && r[..n - 2] == stack[..n - 2]
      && Top(r).childNodes == stack[n - 2].childNodes + [child.(isNegative := Top(stack).isNegative)]
      && Top(r).operators == stack[n - 2].operators
  {
    var n := |stack|;
    assert WithTop(stack[..n - 1], Top(stack))[..n - 2] == stack[..n - 2];
  }

  /** ')' on any other context attaches it, as it is, as the last child of the one beneath. */
  lemma CloseParenthesisAttaches(stack: seq<ParseNode>)
    requires |stack| >= 2 && !Top(stack).isRaisedPrecedence && !ClosesAsArgument(Top(stack))
    requires |Top(stack).childNodes| != 1
    ensures var n := |stack|;
      var r := ParenthesisClosed(stack).value;
      && ParenthesisClosed(stack).Some?
      && |r| == n - 1 && r[..n - 2] == stack[..n - 2]
      && Top(r).childNodes == stack[n - 2].childNodes + [Top(stack)]
      && Top(r).operators == stack[n - 2].operators
  {
    var n := |stack|;
    assert WithTop(stack[..n - 1], Top(stack))[..n - 2] == stack[..n - 2];
  }

  /** ',' closes the context on top as an argument (one with a single child is replaced by the
      child, any other is attached as it is; a raised-precedence context is treated the same way)
      and opens a new, empty argument container. */
  lemma SeparatorClosesArgument(s: string, m: char, st: State)
    requires st.index < |s| && |st.stack| >= 2 && s[st.index] == ArgumentSeparator
    ensures var n := |st.stack|;
      var top := Top(st.stack);
      var argument := if |top.childNodes| == 1 then top.childNodes[0] else top;
      var r := Next(s, m, st).value;
      && Next(s, m, st).Some?
      && r.stack == st.stack[..n - 2] + [AddedChild(st.stack[n - 2], argument), ArgumentContext]
      && r.index == st.index + 1 && r.negated == st.negated
  {
  }

  // ---------------------------------------------------------------------------------------
  // The conversion to the public tree
  // ---------------------------------------------------------------------------------------

  /** The parse node that a public tree node corresponds to, with every context flag off. */
  function Embed(t: SyntaxTreeNode): ParseNode
    decreases t
  {
    ParseNode(t.nodeType, t.value, t.isNegated, false, false, false,
              seq(|t.childNodes|, i requires 0 <= i < |t.childNodes| => Embed(t.childNodes[i])),
              t.operators)
  }

  /** ConvertTree keeps every kind, text, negation, child (in order) and operator (in order): it
      undoes Embed for every tree. */
  lemma {:induction false} ConvertTreeUndoesEmbed(t: SyntaxTreeNode)
    ensures ConvertTree(Embed(t)) == t
    decreases t
  {
    var e := Embed(t);
    forall i | 0 <= i < |t.childNodes|
      ensures ConvertTree(e.childNodes[i]) == t.childNodes[i]
    {
      ConvertTreeUndoesEmbed(t.childNodes[i]);
    }
    assert ConvertTree(e).childNodes == t.childNodes;
  }

  /** ConvertTree depends on nothing but kind, text, negation, children and operators: the
      context flags are dropped. */
  lemma {:induction false} ConvertTreeDropsFlags(n: ParseNode)
    ensures Embed(ConvertTree(n)) == Erased(n)
    decreases n
  {
    var t := ConvertTree(n);
    forall i | 0 <= i < |n.childNodes|
      ensures Embed(t.childNodes[i]) == Erased(n.childNodes[i])
    {
      ConvertTreeDropsFlags(n.childNodes[i]);
    }
    assert Embed(t).childNodes == Erased(n).childNodes;
  }

  /** A parse node with every context flag, at every depth, turned off. */
  function Erased(n: ParseNode): ParseNode
    decreases n
  {
    n.(isRaisedPrecedence := false, isParenthesis := false, isFunction := false,
       childNodes := seq(|n.childNodes|, i requires 0 <= i < |n.childNodes| => Erased(n.childNodes[i])))
  }
}
