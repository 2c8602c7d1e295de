/** The single-pass parser (ExpressionParser.cs).

    The file has three parts:
    - character classes and the conversion to the public tree;
    - the meaning of one scan step on a value-level parser state (a stack of ParseNode values,
      the cursor and the pending negation), and of the whole scan, as functions;
    - the parser itself, which keeps a stack of ExpressionParserNode objects and updates them
      in place, proved to compute exactly what the functions say. */
module ExpressionParser {
  import opened Wrappers
  import opened Syntax
  import opened ParserNode

  const OpenParen: char := '('
  const CloseParen: char := ')'
  const ArgumentSeparator: char := ','
  const NegativeToken: char := '-'
  const NegativeTokenStr: string := "-"

  /** The operators that bind tighter than all others. */
  const OperatorsWithRaisedPrecedence: set<string> := {"*", "/", "%"}

  // ---------------------------------------------------------------------------------------
  // Character classes
  // ---------------------------------------------------------------------------------------

  predicate IsOperatorCharacter(c: char)
  {
    c == '+' || c == '/' || c == '*' || c == '%'
  }

  predicate IsReservedCharacter(c: char)
  {
    c == OpenParen || c == CloseParen || c == ArgumentSeparator || c == NegativeToken
  }

  /** A character that may occur in a variable or function name: anything that is neither an
      operator character nor reserved (so spaces and digits are included). */
  predicate IsParameterCharacter(c: char)
  {
    !IsOperatorCharacter(c) && !IsReservedCharacter(c)
  }

  /** The characters that start a numeric literal (restricted to the ASCII digits). */
  predicate IsNumber(c: char)
  {
    '0' <= c <= '9'
  }

  /** The characters .NET classifies as white space. */
  predicate IsWhiteSpace(c: char)
  {
    ('\U{9}' <= c <= '\U{D}') || c == ' ' || c == '\U{85}' || c == '\U{A0}' ||
    c == '\U{1680}' || ('\U{2000}' <= c <= '\U{200A}') || c == '\U{2028}' || c == '\U{2029}' ||
    c == '\U{202F}' || c == '\U{205F}' || c == '\U{3000}'
  }

  predicate IsNullOrWhiteSpace(s: string)
  {
    forall i :: 0 <= i < |s| ==> IsWhiteSpace(s[i])
  }

  /** Whether an operator symbol opens a raised-precedence context: the symbol is one of
      "*", "/", "%" and the context's most recent operator is not. */
  predicate IsRaisedPrecedenceOperator(current: ParseNode, op: string)
  {
    var hasPrecedingLower := |current.operators| > 0 &&
      current.operators[|current.operators| - 1].symbol !in OperatorsWithRaisedPrecedence;
    hasPrecedingLower && op in OperatorsWithRaisedPrecedence
  }

  /** The predicates the scan passes to readWhile. */
  datatype CharClass = OperatorCharacters | NumberCharacters(decimalMarker: char) | ParameterCharacters

  predicate InClass(k: CharClass, c: char)
  {
    match k
    case OperatorCharacters => IsOperatorCharacter(c)
    case NumberCharacters(marker) => IsNumber(c) || c == marker
    case ParameterCharacters => IsParameterCharacter(c)
  }

  /** The end of the maximal run of characters of class k that starts at i. */
  function SpanEnd(s: string, i: nat, k: CharClass): (j: nat)
    requires i <= |s|
    ensures i <= j <= |s|
    ensures i < |s| && InClass(k, s[i]) ==> i < j
    decreases |s| - i
  {
    if i == |s| || !InClass(k, s[i]) then i else SpanEnd(s, i + 1, k)
  }

  // ---------------------------------------------------------------------------------------
  // Conversion to the public tree
  // ---------------------------------------------------------------------------------------

  /** The public tree for a parse node: kind, text, negation, children (converted, in order)
      and operators (in order); the context flags are dropped. */
  function ConvertTree(n: ParseNode): (t: SyntaxTreeNode)
    decreases n
  {
    SyntaxTreeNode(
      n.nodeType, n.value, n.isNegative,
      seq(|n.childNodes|, i requires 0 <= i < |n.childNodes| => ConvertTree(n.childNodes[i])),
      n.operators)
  }

  // ---------------------------------------------------------------------------------------
  // The contexts the parser creates
  // ---------------------------------------------------------------------------------------

  /** The base context pushed before the scan. */
  const BaseContext: ParseNode := FreshNode(Scope)

  function ParenthesisContext(negated: bool): ParseNode
  {
    FreshNode(Scope).(isParenthesis := true, isNegative := negated)
  }

  /** The container that collects one function argument. */
  const ArgumentContext: ParseNode := FreshNode(Scope).(isFunction := true)

  function FunctionContext(name: string, negated: bool): ParseNode
  {
    FreshNode(Function).(value := name, isNegative := negated, isFunction := true)
  }

  const RaisedContext: ParseNode := FreshNode(Scope).(isRaisedPrecedence := true)

  /** A constant or a variable. */
  function Leaf(nodeType: NodeType, text: string, negated: bool): ParseNode
  {
    FreshNode(nodeType).(value := text, isNegative := negated)
  }

  // ---------------------------------------------------------------------------------------
  // Operations on a value-level stack (the last element is the top)
  // ---------------------------------------------------------------------------------------

  function Top(stack: seq<ParseNode>): ParseNode
    requires |stack| >= 1
  {
    stack[|stack| - 1]
  }

  /** The stack with its top replaced by n. */
  function WithTop(stack: seq<ParseNode>, n: ParseNode): (r: seq<ParseNode>)
    requires |stack| >= 1
    ensures |r| == |stack| && r[..|stack| - 1] == stack[..|stack| - 1] && Top(r) == n
  {
    stack[..|stack| - 1] + [n]
  }

  function ChildAddedToTop(stack: seq<ParseNode>, child: ParseNode): (r: seq<ParseNode>)
    requires |stack| >= 1
    ensures |r| == |stack|
  {
    WithTop(stack, AddedChild(Top(stack), child))
  }

  function OperatorAddedToTop(stack: seq<ParseNode>, op: Operator): (r: seq<ParseNode>)
    requires |stack| >= 1
    ensures |r| == |stack|
  {
    WithTop(stack, AddedOperator(Top(stack), op))
  }

  /** popAndPush: pop the top context and append it to the new top; None when fewer than two
      contexts are open (the source's Pop or Peek then fails on an empty stack). */
  function PoppedAndPushed(stack: seq<ParseNode>): (r: Option<seq<ParseNode>>)
    ensures r.Some? <==> |stack| >= 2
    ensures r.Some? ==> |r.value| == |stack| - 1
  {
    if |stack| < 2 then None
    else Some(ChildAddedToTop(stack[..|stack| - 1], stack[|stack| - 1]))
  }

  /** closeFunctionParameter: a container with exactly one child is replaced by that child;
      any other container is attached as it is. */
  function FunctionParameterClosed(stack: seq<ParseNode>): (r: Option<seq<ParseNode>>)
    requires |stack| >= 1
    ensures r.Some? <==> |stack| >= 2
    ensures r.Some? ==> |r.value| == |stack| - 1
  {
    var top := Top(stack);
    if |top.childNodes| == 1 then
      if |stack| < 2 then None
      else Some(ChildAddedToTop(stack[..|stack| - 1], top.childNodes[0]))
    else
      PoppedAndPushed(stack)
  }

  /** The test ')' uses for an argument container: a context created for a function but not by
      a parenthesis. */
  predicate ClosesAsArgument(n: ParseNode)
  {
    n.isFunction && !n.isParenthesis
  }

  /** Closes the argument container on top (unwrapping a single child) and then its function. */
  function ArgumentAndFunctionClosed(stack: seq<ParseNode>): (r: Option<seq<ParseNode>>)
    requires |stack| >= 1
    ensures r.Some? <==> |stack| >= 3
    ensures r.Some? ==> |r.value| == |stack| - 2
  {
    match FunctionParameterClosed(stack)
    case None => None
    case Some(stack1) => PoppedAndPushed(stack1)
  }

  /** The stack after a ')'. A raised-precedence context on top is attached to the context beneath
      it, and that context to the next one, whatever the two are. An argument container is closed
      together with its function. A context with a single child is replaced by that child, which
      takes over the context's sign. Any other context is attached as it is. */
  function ParenthesisClosed(stack: seq<ParseNode>): (r: Option<seq<ParseNode>>)
    requires |stack| >= 1
    ensures r.Some? ==> |r.value| >= 1
    ensures Top(stack).isRaisedPrecedence ==> (r.Some? <==> |stack| >= 3) && (r.Some? ==> |r.value| == |stack| - 2)
  {
    var top := Top(stack);
    if top.isRaisedPrecedence then
      match PoppedAndPushed(stack)
      case None => None
      case Some(stack1) => PoppedAndPushed(stack1)
    else if ClosesAsArgument(top) then
      ArgumentAndFunctionClosed(stack)
    else if |top.childNodes| == 1 then
      if |stack| < 2 then None
      else Some(ChildAddedToTop(stack[..|stack| - 1], top.childNodes[0].(isNegative := top.isNegative)))
    else
      PoppedAndPushed(stack)
  }

  /** The stack after a ',': the context on top is closed as an argument, whatever it is, and a
      container for the next argument is pushed. */
  function ArgumentSeparated(stack: seq<ParseNode>): (r: Option<seq<ParseNode>>)
    requires |stack| >= 1
    ensures r.Some? <==> |stack| >= 2
    ensures r.Some? ==> |r.value| == |stack| && Top(r.value) == ArgumentContext
  {
    match FunctionParameterClosed(stack)
    case None => None
    case Some(stack1) => Some(stack1 + [ArgumentContext])
  }

  /** The stack and pending negation after a '-'. */
  function MinusApplied(stack: seq<ParseNode>, negated: bool): (r: Option<(seq<ParseNode>, bool)>)
    requires |stack| >= 1
    ensures r.Some? ==> |r.value.0| >= 1
  {
    var top := Top(stack);
    if |top.operators| == |top.childNodes| then
      Some((stack, !negated))
    else if top.isRaisedPrecedence then
      match PoppedAndPushed(stack)
      case None => None
      case Some(stack1) => Some((OperatorAddedToTop(stack1, Operator(NegativeTokenStr)), negated))
    else
      Some((OperatorAddedToTop(stack, Operator(NegativeTokenStr)), negated))
  }

  /** Recording an operator symbol in the top context: either a new raised-precedence context
      that takes over the top's last operand, or the symbol appended to the top. */
  function OperatorRecorded(stack: seq<ParseNode>, op: string): (r: Option<seq<ParseNode>>)
    requires |stack| >= 1
    ensures r.Some? ==> |r.value| >= 1
  {
    var top := Top(stack);
    if IsRaisedPrecedenceOperator(top, op) then
      match PoppedChild(top)
      case None => None
      case Some((pulled, rest)) =>
        Some(WithTop(stack, rest) + [AddedOperator(AddedChild(RaisedContext, pulled), Operator(op))])
    else
      Some(OperatorAddedToTop(stack, Operator(op)))
  }

  /** The stack after an operator symbol (a maximal run of operator characters). A symbol other
      than "*", "/", "%" first closes a raised-precedence context on top. */
  function OperatorApplied(stack: seq<ParseNode>, op: string): (r: Option<seq<ParseNode>>)
    requires |stack| >= 1
    ensures r.Some? ==> |r.value| >= 1
  {
    if op !in OperatorsWithRaisedPrecedence && Top(stack).isRaisedPrecedence then
      match PoppedAndPushed(stack)
      case None => None
      case Some(stack1) => OperatorRecorded(stack1, op)
    else
      OperatorRecorded(stack, op)
  }

  // ---------------------------------------------------------------------------------------
  // One step of the scan, the whole scan, and the end of input
  // ---------------------------------------------------------------------------------------

  /** The parser's state between two steps: the open contexts, the cursor and the pending
      negation. */
  datatype State = State(stack: seq<ParseNode>, index: nat, negated: bool)

  /** The step the parser takes at st.index; None when the source throws. Every step that
      succeeds moves the cursor forward and leaves at least one context open. */
  function Next(s: string, decimalMarker: char, st: State): (r: Option<State>)
    requires st.index < |s| && |st.stack| >= 1
    ensures r.Some? ==> st.index < r.value.index <= |s| && |r.value.stack| >= 1
  {
    var i := st.index;
    var c := s[i];
    if c == OpenParen then
      Some(State(st.stack + [ParenthesisContext(st.negated)], i + 1, false))
    else if c == CloseParen then
      match ParenthesisClosed(st.stack)
      case None => None
      case Some(stack) => Some(State(stack, i + 1, st.negated))
    else if c == ArgumentSeparator then
      match ArgumentSeparated(st.stack)
      case None => None
      case Some(stack) => Some(State(stack, i + 1, st.negated))
    else if c == NegativeToken then
      match MinusApplied(st.stack, st.negated)
      case None => None
      case Some((stack, negated)) => Some(State(stack, i + 1, negated))
    else if IsOperatorCharacter(c) then OperatorScanned(s, st)
    else if IsNumber(c) then Some(ConstantScanned(s, decimalMarker, st))
    else if IsWhiteSpace(c) then
      Some(State(st.stack, i + 1, st.negated))
    else Some(NameScanned(s, st))
  }

  /** An operator: the maximal run of operator characters from the current index is one symbol. */
  function OperatorScanned(s: string, st: State): (r: Option<State>)
    requires st.index < |s| && |st.stack| >= 1 && IsOperatorCharacter(s[st.index])
    ensures r.Some? ==> st.index < r.value.index <= |s| && |r.value.stack| >= 1
  {
    var j := SpanEnd(s, st.index, OperatorCharacters);
    match OperatorApplied(st.stack, s[st.index..j])
    case None => None
    case Some(stack) => Some(State(stack, j, st.negated))
  }

  /** A constant: the maximal run of digits and decimal markers, which takes the pending negation. */
  function ConstantScanned(s: string, decimalMarker: char, st: State): (r: State)
    requires st.index < |s| && |st.stack| >= 1 && IsNumber(s[st.index])
    ensures st.index < r.index <= |s| && |r.stack| >= 1
  {
    var j := SpanEnd(s, st.index, NumberCharacters(decimalMarker));
    State(ChildAddedToTop(st.stack, Leaf(Constant, s[st.index..j], st.negated)), j, false)
  }

  /** A name: the maximal run of parameter characters. Directly followed by '(' it opens a
      function call (and the '(' is consumed); otherwise it is a variable. Either way it takes the
      pending negation. */
  function NameScanned(s: string, st: State): (r: State)
    requires st.index < |s| && |st.stack| >= 1 && IsParameterCharacter(s[st.index])
    ensures st.index < r.index <= |s| && |r.stack| >= 1
  {
    var i := st.index;
    var j := SpanEnd(s, i, ParameterCharacters);
    if j < |s| && s[j] == OpenParen then
      State(st.stack + [FunctionContext(s[i..j], st.negated), ArgumentContext], j + 1, false)
    else
      State(ChildAddedToTop(st.stack, Leaf(Variable, s[i..j], st.negated)), j, false)
  }

  /** The scan from st to the end of the input. */
  function Run(s: string, decimalMarker: char, st: State): (r: Option<State>)
    requires st.index <= |s| && |st.stack| >= 1
    ensures r.Some? ==> r.value.index == |s| && |r.value.stack| >= 1
    decreases |s| - st.index
  {
    if st.index == |s| then Some(st)
    else
      match Next(s, decimalMarker, st)
      case None => None
      case Some(st') => Run(s, decimalMarker, st')
  }

  /** End of input: pop every context into the one beneath it, without unwrapping, until only
      the base context remains. */
  function Collapsed(stack: seq<ParseNode>): ParseNode
    requires |stack| >= 1
    decreases |stack|
  {
    if |stack| == 1 then stack[0] else Collapsed(PoppedAndPushed(stack).value)
  }

  const InitialState: State := State([BaseContext], 0, false)

  /** What Parse returns for an expression. */
  function Parsed(expression: string, decimalMarker: char): Result<SyntaxTreeNode>
  {
    if IsNullOrWhiteSpace(expression) then Ok(EmptyScope)
    else
      match Run(expression, decimalMarker, InitialState)
      case None => Error
      case Some(st) => Ok(ConvertTree(Collapsed(st.stack)))
  }

  // ---------------------------------------------------------------------------------------
  // The parser over a stack of objects
  // ---------------------------------------------------------------------------------------

  /** No object is on the stack twice. */
  ghost predicate Distinct(stack: seq<ExpressionParserNode>)
  {
    forall i, j :: 0 <= i < j < |stack| ==> stack[i] != stack[j]
  }

  lemma DistinctPrefix(stack: seq<ExpressionParserNode>, n: nat)
    requires Distinct(stack) && n <= |stack|
    ensures Distinct(stack[..n])
  {
  }

  lemma DistinctPush(stack: seq<ExpressionParserNode>, n: ExpressionParserNode)
    requires Distinct(stack) && forall i :: 0 <= i < |stack| ==> stack[i] != n
    ensures Distinct(stack + [n])
  {
  }

  /** The values of the contexts on the stack. */
  function Snapshots(stack: seq<ExpressionParserNode>): (r: seq<ParseNode>)
    reads stack
    ensures |r| == |stack| && forall i {:trigger r[i]} :: 0 <= i < |stack| ==> r[i] == stack[i].Snapshot()
  {
    seq(|stack|, i reads stack requires 0 <= i < |stack| => stack[i].Snapshot())
  }

  lemma SnapshotsPush(stack: seq<ExpressionParserNode>, n: ExpressionParserNode)
    ensures Snapshots(stack + [n]) == Snapshots(stack) + [n.Snapshot()]
  {
    assert forall i :: 0 <= i < |stack| ==> (stack + [n])[i] == stack[i];
  }

  /** readWhile: advance from index over the characters of class k. */
  method ReadWhile(chars: array<char>, index: nat, k: CharClass) returns (startIndex: nat, end: nat)
    requires index <= chars.Length
    ensures startIndex == index && end == SpanEnd(chars[..], index, k)
  {
    startIndex := index;
    end := index;
    while end < chars.Length && InClass(k, chars[end])
      invariant index <= end <= chars.Length
      invariant SpanEnd(chars[..], end, k) == SpanEnd(chars[..], index, k)
    {
      end := end + 1;
    }
  }

  /** The len characters of chars from startIndex on, copied into a new string. */
  method SubstringFromCharArray(chars: array<char>, startIndex: nat, len: nat) returns (r: string)
    requires startIndex + len <= chars.Length
    ensures r == chars[startIndex..startIndex + len]
  {
    var substr := new char[len];
    for i := 0 to len
      invariant forall p :: 0 <= p < i ==> substr[p] == chars[startIndex + p]
    {
      substr[i] := chars[startIndex + i];
    }
    r := substr[..];
  }

  /** Every context on stack' is the one at the same position of stack before the call, or was
      created by the call. */
  twostate predicate Succeeds(stack: seq<ExpressionParserNode>, new stack': seq<ExpressionParserNode>)
  {
    forall i :: 0 <= i < |stack'| ==> (i < |stack| && stack'[i] == stack[i]) || fresh(stack'[i])
  }

  /** readWhile followed by SubstringFromCharArray: the maximal run of class k from index on,
      as its end and its text. */
  method ReadToken(chars: array<char>, index: nat, k: CharClass) returns (end: nat, text: string)
    requires index <= chars.Length
    ensures end == SpanEnd(chars[..], index, k) && text == chars[..][index..end]
  {
    var startIndex;
    startIndex, end := ReadWhile(chars, index, k);
    text := SubstringFromCharArray(chars, startIndex, end - startIndex);
  }

  /** Adds a child to the context on top of the stack. */
  method AddChildToTop(stack: seq<ExpressionParserNode>, child: ParseNode)
    requires |stack| >= 1 && Distinct(stack)
    modifies stack[|stack| - 1]
    ensures Snapshots(stack) == ChildAddedToTop(old(Snapshots(stack)), child)
  {
    ghost var before := Snapshots(stack);
    stack[|stack| - 1].AddChild(child);
    assert forall i :: 0 <= i < |stack| - 1 ==> Snapshots(stack)[i] == before[i];
    assert Snapshots(stack) == ChildAddedToTop(before, child);
  }

  /** Adds an operator to the context on top of the stack. */
  method AddOperatorToTop(stack: seq<ExpressionParserNode>, op: Operator)
    requires |stack| >= 1 && Distinct(stack)
    modifies stack[|stack| - 1]
    ensures Snapshots(stack) == OperatorAddedToTop(old(Snapshots(stack)), op)
  {
    ghost var before := Snapshots(stack);
    stack[|stack| - 1].AddOperator(op);
    assert forall i :: 0 <= i < |stack| - 1 ==> Snapshots(stack)[i] == before[i];
    assert Snapshots(stack) == OperatorAddedToTop(before, op);
  }

  /** Drops the top context and adds a child to the context beneath it. */
  method PopThenAddChild(stack: seq<ExpressionParserNode>, child: ParseNode) returns (stack': seq<ExpressionParserNode>)
    requires |stack| >= 2 && Distinct(stack)
    modifies stack[|stack| - 2]
    ensures stack' == stack[..|stack| - 1] && Distinct(stack') && Succeeds(stack, stack')
    ensures Snapshots(stack') == ChildAddedToTop(old(Snapshots(stack))[..|stack| - 1], child)
  {
    ghost var before := Snapshots(stack);
    stack' := stack[..|stack| - 1];
    DistinctPrefix(stack, |stack| - 1);
    assert Snapshots(stack') == before[..|stack| - 1];
    AddChildToTop(stack', child);
  }

  /** popAndPush. On success the new stack is the old one without its top. */
  method PopAndPush(stack: seq<ExpressionParserNode>) returns (ok: bool, stack': seq<ExpressionParserNode>)
    requires Distinct(stack)
    modifies if |stack| >= 2 then {stack[|stack| - 2]} else {}
    ensures ok == PoppedAndPushed(old(Snapshots(stack))).Some?
    ensures ok ==> stack' == stack[..|stack| - 1] && Distinct(stack') && Succeeds(stack, stack')
    ensures ok ==> Snapshots(stack') == PoppedAndPushed(old(Snapshots(stack))).value
  {
    if |stack| < 2 {
      return false, stack;
    }
    var popped := stack[|stack| - 1];
    stack' := PopThenAddChild(stack, popped.Snapshot());
    ok := true;
  }

  /** closeFunctionParameter. */
  method CloseFunctionParameter(stack: seq<ExpressionParserNode>) returns (ok: bool, stack': seq<ExpressionParserNode>)
    requires |stack| >= 1 && Distinct(stack)
    modifies stack
    ensures ok == FunctionParameterClosed(old(Snapshots(stack))).Some?
    ensures ok ==> stack' == stack[..|stack| - 1] && Distinct(stack') && Succeeds(stack, stack')
    ensures ok ==> Snapshots(stack') == FunctionParameterClosed(old(Snapshots(stack))).value
  {
    var container := stack[|stack| - 1];
    if |container.childNodes| == 1 {
      // Unwrap a single-parameter container; containers are never negative.
      if |stack| < 2 {
        return false, stack;
      }
      stack' := PopThenAddChild(stack, container.childNodes[0]);
      ok := true;
    } else {
      ok, stack' := PopAndPush(stack);
    }
  }

  /** Closes the argument container on top and then its function. */
  method CloseArgumentAndFunction(stack: seq<ExpressionParserNode>) returns (ok: bool, stack': seq<ExpressionParserNode>)
    requires |stack| >= 1 && Distinct(stack)
    modifies stack
    ensures ok <==> |stack| >= 3
    ensures ok ==> |stack'| == |stack| - 2 && Distinct(stack') && Succeeds(stack, stack')
    ensures ok ==> Snapshots(stack') == ArgumentAndFunctionClosed(old(Snapshots(stack))).value
  {
    ok, stack' := CloseFunctionParameter(stack);
    if ok {
      ok, stack' := PopAndPush(stack');
    }
  }

  /** Closes the raised-precedence context on top, then the context beneath it. */
  method CloseRaisedAndEnclosing(stack: seq<ExpressionParserNode>) returns (ok: bool, stack': seq<ExpressionParserNode>)
    requires |stack| >= 1 && Distinct(stack) && stack[|stack| - 1].isRaisedPrecedence
    modifies stack
    ensures ok <==> |stack| >= 3
    ensures ok ==> stack' == stack[..|stack| - 2] && Distinct(stack') && Succeeds(stack, stack')
    ensures ok ==> Snapshots(stack') == ParenthesisClosed(old(Snapshots(stack))).value
  {
    ghost var before := Snapshots(stack);
    assert Top(before).isRaisedPrecedence;
    var closed, stack1 := PopAndPush(stack);
    if !closed {
      return false, stack;
    }
    ghost var middle := Snapshots(stack1);
    assert middle == PoppedAndPushed(before).value;
    ok, stack' := PopAndPush(stack1);
    if !ok {
      return false, stack;
    }
    assert stack' == stack[..|stack| - 2] by {
      assert stack1 == stack[..|stack| - 1];
    }
    assert Snapshots(stack') == PoppedAndPushed(middle).value;
  }

  /** Unwraps a context with a single child: the child, given the context's sign, is attached to
      the context beneath. */
  method CloseSingleChild(stack: seq<ExpressionParserNode>) returns (ok: bool, stack': seq<ExpressionParserNode>)
    requires |stack| >= 1 && Distinct(stack) && |stack[|stack| - 1].childNodes| == 1
    modifies stack
    ensures ok <==> |stack| >= 2
    ensures ok ==> stack' == stack[..|stack| - 1] && Distinct(stack') && Succeeds(stack, stack')
    ensures ok ==>
      var top := old(stack[|stack| - 1].Snapshot());
      Snapshots(stack') ==
        ChildAddedToTop(old(Snapshots(stack))[..|stack| - 1], top.childNodes[0].(isNegative := top.isNegative))
  {
    if |stack| < 2 {
      return false, stack;
    }
    var container := stack[|stack| - 1];
    stack' := PopThenAddChild(stack, container.childNodes[0].(isNegative := container.isNegative));
    ok := true;
  }

  /** The ')' branch. */
  method CloseParenthesis(stack: seq<ExpressionParserNode>) returns (ok: bool, stack': seq<ExpressionParserNode>)
    requires |stack| >= 1 && Distinct(stack)
    modifies stack
    ensures ok == ParenthesisClosed(old(Snapshots(stack))).Some?
    ensures ok ==> Distinct(stack') && Succeeds(stack, stack')
    ensures ok ==> Snapshots(stack') == ParenthesisClosed(old(Snapshots(stack))).value
  {
    ghost var before := Snapshots(stack);
    var top := stack[|stack| - 1];
    assert Top(before) == top.Snapshot();
    if top.isRaisedPrecedence {
      ok, stack' := CloseRaisedAndEnclosing(stack);
    } else if top.isFunction && !top.isParenthesis {
      // Close the argument container, then the function.
      ok, stack' := CloseArgumentAndFunction(stack);
    } else if |top.childNodes| == 1 {
      ok, stack' := CloseSingleChild(stack);
    } else {
      ok, stack' := PopAndPush(stack);
    }
  }

  /** A binary minus: close a raised-precedence context on top first, then record "-". */
  method RecordMinus(stack: seq<ExpressionParserNode>) returns (ok: bool, stack': seq<ExpressionParserNode>)
    requires |stack| >= 1 && Distinct(stack)
    modifies stack
    ensures ok == (!old(stack[|stack| - 1].isRaisedPrecedence) || |stack| >= 2)
    ensures ok ==> 1 <= |stack'| && Distinct(stack') && Succeeds(stack, stack')
    ensures ok ==>
      var closed := if old(stack[|stack| - 1].isRaisedPrecedence) then PoppedAndPushed(old(Snapshots(stack))).value
                    else old(Snapshots(stack));
      Snapshots(stack') == OperatorAddedToTop(closed, Operator(NegativeTokenStr))
  {
    stack' := stack;
    if stack[|stack| - 1].isRaisedPrecedence {
      ok, stack' := PopAndPush(stack);
      if !ok {
        return;
      }
    }
    AddOperatorToTop(stack', Operator(NegativeTokenStr));
    ok := true;
  }

  /** The '-' branch. */
  method ApplyMinus(stack: seq<ExpressionParserNode>, negated: bool)
    returns (ok: bool, stack': seq<ExpressionParserNode>, negated': bool)
    requires |stack| >= 1 && Distinct(stack)
    modifies stack
    ensures ok == MinusApplied(old(Snapshots(stack)), negated).Some?
    ensures ok ==> 1 <= |stack'| && Distinct(stack') && Succeeds(stack, stack')
    ensures ok ==> (Snapshots(stack'), negated') == MinusApplied(old(Snapshots(stack)), negated).value
  {
    ghost var before := Snapshots(stack);
    var top := stack[|stack| - 1];
    assert Top(before) == top.Snapshot();
    if |top.operators| == |top.childNodes| {
      // As many operators as operands: this '-' is a unary negation.
      return true, stack, !negated;
    }
    ok, stack' := RecordMinus(stack);
    negated' := negated;
  }

  /** Removes the last child of the context on top of the stack. */
  method PopChildFromTop(stack: seq<ExpressionParserNode>) returns (pulled: Option<ParseNode>)
    requires |stack| >= 1 && Distinct(stack)
    modifies stack[|stack| - 1]
    ensures pulled == (match PoppedChild(old(Top(Snapshots(stack)))) case None => None case Some((c, _)) => Some(c))
    ensures pulled.None? ==> Snapshots(stack) == old(Snapshots(stack))
    ensures pulled.Some? ==> Snapshots(stack) == WithTop(old(Snapshots(stack)), PoppedChild(old(Top(Snapshots(stack)))).value.1)
  {
    ghost var before := Snapshots(stack);
    var top := stack[|stack| - 1];
    assert Top(before) == top.Snapshot();
    pulled := top.PopChild();
    assert forall i :: 0 <= i < |stack| - 1 ==> stack[i].Snapshot() == before[i];
    assert pulled.None? ==> Snapshots(stack) == before;
  }

  /** A new raised-precedence context holding one operand and one operator. */
  method NewRaisedContext(operand: ParseNode, op: string) returns (raisedPrecedence: ExpressionParserNode)
    ensures fresh(raisedPrecedence)
    ensures raisedPrecedence.Snapshot() == AddedOperator(AddedChild(RaisedContext, operand), Operator(op))
  {
    raisedPrecedence := new ExpressionParserNode(Scope);
    raisedPrecedence.isRaisedPrecedence := true;
    raisedPrecedence.AddChild(operand);
    raisedPrecedence.AddOperator(Operator(op));
  }

  /** Opens a raised-precedence context for op that takes over the top's last operand. */
  method PushRaisedContext(stack: seq<ExpressionParserNode>, op: string) returns (ok: bool, stack': seq<ExpressionParserNode>)
    requires |stack| >= 1 && Distinct(stack)
    modifies stack[|stack| - 1]
    ensures ok == PoppedChild(old(Top(Snapshots(stack)))).Some?
    ensures ok ==> |stack'| == |stack| + 1 && stack'[..|stack|] == stack && Distinct(stack') && fresh(stack'[|stack|])
    ensures ok ==>
      var (pulled, rest) := PoppedChild(old(Top(Snapshots(stack)))).value;
      Snapshots(stack') ==
        WithTop(old(Snapshots(stack)), rest) + [AddedOperator(AddedChild(RaisedContext, pulled), Operator(op))]
  {
    // Pull the previous operand into the raised context.
    var pulled := PopChildFromTop(stack);
    if pulled.None? {
      return false, stack;
    }
    ghost var popped := Snapshots(stack);
    var raisedPrecedence := NewRaisedContext(pulled.value, op);
    assert Snapshots(stack) == popped;
    DistinctPush(stack, raisedPrecedence);
    SnapshotsPush(stack, raisedPrecedence);
    stack' := stack + [raisedPrecedence];
    ok := true;
  }

  /** Records op in the top context, raising precedence when IsRaisedPrecedenceOperator says so. */
  method RecordOperator(stack: seq<ExpressionParserNode>, op: string) returns (ok: bool, stack': seq<ExpressionParserNode>)
    requires |stack| >= 1 && Distinct(stack)
    modifies stack[|stack| - 1]
    ensures ok == OperatorRecorded(old(Snapshots(stack)), op).Some?
    ensures ok ==> 1 <= |stack'| && Distinct(stack') && Succeeds(stack, stack')
    ensures ok ==> Snapshots(stack') == OperatorRecorded(old(Snapshots(stack)), op).value
  {
    ghost var before := Snapshots(stack);
    var top := stack[|stack| - 1];
    assert Top(before) == top.Snapshot();
    if IsRaisedPrecedenceOperator(top.Snapshot(), op) {
      ok, stack' := PushRaisedContext(stack, op);
    } else {
      AddOperatorToTop(stack, Operator(op));
      stack' := stack;
      ok := true;
    }
  }

  /** Closes the raised-precedence context on top, then records op. */
  method CloseRaisedThenRecord(stack: seq<ExpressionParserNode>, op: string) returns (ok: bool, stack': seq<ExpressionParserNode>)
    requires Distinct(stack)
    modifies stack
    ensures ok == (|stack| >= 2 && OperatorRecorded(PoppedAndPushed(old(Snapshots(stack))).value, op).Some?)
    ensures ok ==> 1 <= |stack'| && Distinct(stack') && Succeeds(stack, stack')
    ensures ok ==> Snapshots(stack') == OperatorRecorded(PoppedAndPushed(old(Snapshots(stack))).value, op).value
  {
    var closed;
    closed, stack' := PopAndPush(stack);
    if !closed {
      return false, stack;
    }
    ok, stack' := RecordOperator(stack', op);
  }

  /** The operator branch, for the symbol op. */
  method ApplyOperator(stack: seq<ExpressionParserNode>, op: string) returns (ok: bool, stack': seq<ExpressionParserNode>)
    requires |stack| >= 1 && Distinct(stack)
    modifies stack
    ensures ok == OperatorApplied(old(Snapshots(stack)), op).Some?
    ensures ok ==> 1 <= |stack'| && Distinct(stack') && Succeeds(stack, stack')
    ensures ok ==> Snapshots(stack') == OperatorApplied(old(Snapshots(stack)), op).value
  {
    ghost var before := Snapshots(stack);
    assert Top(before) == stack[|stack| - 1].Snapshot();
    if op !in OperatorsWithRaisedPrecedence && stack[|stack| - 1].isRaisedPrecedence {
      ok, stack' := CloseRaisedThenRecord(stack, op);
    } else {
      ok, stack' := RecordOperator(stack, op);
    }
  }

  /** The '(' branch: pushes a parenthesis context that takes over the pending negation. */
  method OpenParenthesis(stack: seq<ExpressionParserNode>, negated: bool) returns (stack': seq<ExpressionParserNode>)
    requires Distinct(stack)
    ensures Distinct(stack') && Succeeds(stack, stack')
    ensures Snapshots(stack') == Snapshots(stack) + [ParenthesisContext(negated)]
  {
    var context := new ExpressionParserNode(Scope);
    context.isParenthesis := true;
    context.isNegative := negated;
    DistinctPush(stack, context);
    SnapshotsPush(stack, context);
    stack' := stack + [context];
  }

  /** The ',' branch: closeFunctionParameter, then a container for the next argument is pushed. */
  method NextArgument(stack: seq<ExpressionParserNode>) returns (ok: bool, stack': seq<ExpressionParserNode>)
    requires |stack| >= 1 && Distinct(stack)
    modifies stack
    ensures ok <==> |stack| >= 2
    ensures ok ==> Distinct(stack') && Succeeds(stack, stack')
    ensures ok ==> Snapshots(stack') == ArgumentSeparated(old(Snapshots(stack))).value
  {
    ok, stack' := CloseFunctionParameter(stack);
    if ok {
      var container := new ExpressionParserNode(Scope);
      container.isFunction := true;
      DistinctPush(stack', container);
      SnapshotsPush(stack', container);
      stack' := stack' + [container];
    }
  }

  /** The operator branch: read the maximal run of operator characters as one symbol. */
  method ScanOperator(chars: array<char>, decimalMarker: char, stack: seq<ExpressionParserNode>, index: nat, negated: bool)
    returns (ok: bool, stack': seq<ExpressionParserNode>, index': nat, negated': bool)
    requires index < chars.Length && IsOperatorCharacter(chars[index]) && |stack| >= 1 && Distinct(stack)
    modifies stack
    ensures ok == OperatorScanned(chars[..], State(old(Snapshots(stack)), index, negated)).Some?
    ensures ok ==> Distinct(stack') && Succeeds(stack, stack')
    ensures ok ==> OperatorScanned(chars[..], State(old(Snapshots(stack)), index, negated)) == Some(State(Snapshots(stack'), index', negated'))
  {
    var op;
    index', op := ReadToken(chars, index, OperatorCharacters);
    ok, stack' := ApplyOperator(stack, op);
    negated' := negated;
  }

  /** A new constant or variable node holding text and the pending negation. */
  method NewLeaf(nodeType: NodeType, text: string, negated: bool) returns (leaf: ExpressionParserNode)
    ensures fresh(leaf) && leaf.Snapshot() == Leaf(nodeType, text, negated)
  {
    leaf := new ExpressionParserNode(nodeType);
    leaf.value := text;
    leaf.isNegative := negated;
  }

  /** Pushes a context for a function call and a container for its first argument. */
  method OpenFunctionCall(stack: seq<ExpressionParserNode>, name: string, negated: bool)
    returns (stack': seq<ExpressionParserNode>)
    requires Distinct(stack)
    ensures |stack'| == |stack| + 2 && stack'[..|stack|] == stack
    ensures fresh(stack'[|stack|]) && fresh(stack'[|stack| + 1]) && Distinct(stack')
    ensures Snapshots(stack') == Snapshots(stack) + [FunctionContext(name, negated), ArgumentContext]
  {
    var func := new ExpressionParserNode(Function);
    func.value := name;
    func.isNegative := negated;
    func.isFunction := true;
    var container := new ExpressionParserNode(Scope);
    container.isFunction := true;
    DistinctPush(stack, func);
    SnapshotsPush(stack, func);
    DistinctPush(stack + [func], container);
    SnapshotsPush(stack + [func], container);
    stack' := stack + [func] + [container];
  }

  /** The numeric branch: read the maximal run of digits and decimal markers as a constant. */
  method ScanConstant(chars: array<char>, decimalMarker: char, stack: seq<ExpressionParserNode>, index: nat, negated: bool)
    returns (index': nat)
    requires index < chars.Length && |stack| >= 1 && Distinct(stack) && IsNumber(chars[index])
    modifies stack[|stack| - 1]
    ensures ConstantScanned(chars[..], decimalMarker, State(old(Snapshots(stack)), index, negated)) == State(Snapshots(stack), index', false)
  {
    var text;
    index', text := ReadToken(chars, index, NumberCharacters(decimalMarker));
    var constant := NewLeaf(Constant, text, negated);
    AddChildToTop(stack, constant.Snapshot());
  }

  /** The branch for the start of a name: a function call when '(' follows, else a variable. */
  method ScanName(chars: array<char>, decimalMarker: char, stack: seq<ExpressionParserNode>, index: nat, negated: bool)
    returns (stack': seq<ExpressionParserNode>, index': nat)
    requires index < chars.Length && |stack| >= 1 && Distinct(stack)
    requires IsParameterCharacter(chars[index])
    modifies stack[|stack| - 1]
    ensures Distinct(stack') && Succeeds(stack, stack')
    ensures NameScanned(chars[..], State(old(Snapshots(stack)), index, negated)) == State(Snapshots(stack'), index', false)
  {
    var end, name := ReadToken(chars, index, ParameterCharacters);
    ghost var before := Snapshots(stack);
    if end < chars.Length && chars[end] == OpenParen {
      assert NameScanned(chars[..], State(before, index, negated)) ==
        State(before + [FunctionContext(name, negated), ArgumentContext], end + 1, false);
      stack' := OpenFunctionCall(stack, name, negated);
      index' := end + 1;
    } else {
      assert NameScanned(chars[..], State(before, index, negated)) ==
        State(ChildAddedToTop(before, Leaf(Variable, name, negated)), end, false);
      var variable := NewLeaf(Variable, name, negated);
      AddChildToTop(stack, variable.Snapshot());
      stack', index' := stack, end;
    }
  }

  /** The branches for the four reserved characters: '(', ')', ',' and '-'. */
  method ScanReserved(chars: array<char>, decimalMarker: char, stack: seq<ExpressionParserNode>, index: nat, negated: bool)
    returns (ok: bool, stack': seq<ExpressionParserNode>, index': nat, negated': bool)
    requires index < chars.Length && |stack| >= 1 && Distinct(stack)
    requires IsReservedCharacter(chars[index])
    modifies stack
    ensures ok == Next(chars[..], decimalMarker, State(old(Snapshots(stack)), index, negated)).Some?
    ensures ok ==> Distinct(stack') && Succeeds(stack, stack')
    ensures ok ==> Next(chars[..], decimalMarker, State(old(Snapshots(stack)), index, negated)) == Some(State(Snapshots(stack'), index', negated'))
  {
    var currentChar := chars[index];
    ok, index', negated' := true, index + 1, negated;
    if currentChar == OpenParen {
      stack' := OpenParenthesis(stack, negated);
      negated' := false;
    } else if currentChar == CloseParen {
      ok, stack' := CloseParenthesis(stack);
    } else if currentChar == ArgumentSeparator {
      ok, stack' := NextArgument(stack);
    } else {
      ok, stack', negated' := ApplyMinus(stack, negated);
    }
  }

  /** The branches for every other character: operators, numbers, white space and names. */
  method ScanUnreserved(chars: array<char>, decimalMarker: char, stack: seq<ExpressionParserNode>, index: nat, negated: bool)
    returns (ok: bool, stack': seq<ExpressionParserNode>, index': nat, negated': bool)
    requires index < chars.Length && |stack| >= 1 && Distinct(stack)
    requires !IsReservedCharacter(chars[index])
    modifies stack
    ensures ok == Next(chars[..], decimalMarker, State(old(Snapshots(stack)), index, negated)).Some?
    ensures ok ==> Distinct(stack') && Succeeds(stack, stack')
    ensures ok ==> Next(chars[..], decimalMarker, State(old(Snapshots(stack)), index, negated)) == Some(State(Snapshots(stack'), index', negated'))
  {
    var currentChar := chars[index];
    ok := true;
    if IsOperatorCharacter(currentChar) {
      ok, stack', index', negated' := ScanOperator(chars, decimalMarker, stack, index, negated);
    } else if IsNumber(currentChar) {
      index' := ScanConstant(chars, decimalMarker, stack, index, negated);
      stack', negated' := stack, false;
    } else if IsWhiteSpace(currentChar) {
      // Skip white space.
      stack', index', negated' := stack, index + 1, negated;
    } else {
      stack', index' := ScanName(chars, decimalMarker, stack, index, negated);
      negated' := false;
    }
  }

  /** One iteration of the scan loop: the branch for the character at index. */
  method ScanStep(chars: array<char>, decimalMarker: char, stack: seq<ExpressionParserNode>, index: nat, negated: bool)
    returns (ok: bool, stack': seq<ExpressionParserNode>, index': nat, negated': bool)
    requires index < chars.Length && |stack| >= 1 && Distinct(stack)
    modifies stack
    ensures ok == Next(chars[..], decimalMarker, State(old(Snapshots(stack)), index, negated)).Some?
    ensures ok ==> Distinct(stack') && Succeeds(stack, stack')
    ensures ok ==> Next(chars[..], decimalMarker, State(old(Snapshots(stack)), index, negated)) == Some(State(Snapshots(stack'), index', negated'))
  {
    if IsReservedCharacter(chars[index]) {
      ok, stack', index', negated' := ScanReserved(chars, decimalMarker, stack, index, negated);
    } else {
      ok, stack', index', negated' := ScanUnreserved(chars, decimalMarker, stack, index, negated);
    }
  }

  /** End of input: pops every context into the one beneath it until only the base is left. */
  method CollapseStack(stack: seq<ExpressionParserNode>) returns (stack': seq<ExpressionParserNode>)
    requires |stack| >= 1 && Distinct(stack)
    modifies stack
    ensures |stack'| == 1 && stack'[0] == stack[0]
    ensures stack'[0].Snapshot() == Collapsed(old(Snapshots(stack)))
  {
    ghost var collapsed := Collapsed(Snapshots(stack));
    stack' := stack;
    while |stack'| > 1
      invariant 1 <= |stack'| <= |stack| && Distinct(stack')
      invariant forall i :: 0 <= i < |stack'| ==> stack'[i] == stack[i]
      invariant Collapsed(Snapshots(stack')) == collapsed
      decreases |stack'|
    {
      assert stack'[|stack'| - 2] == stack[|stack'| - 2];
      var ok;
      ok, stack' := PopAndPush(stack');
    }
  }

  /** Parses an arithmetic expression into its syntax tree, or Error where the source throws. */
  method Parse(expression: string, decimalMarker: char := '.') returns (r: Result<SyntaxTreeNode>)
    ensures r == Parsed(expression, decimalMarker)
    ensures IsNullOrWhiteSpace(expression) ==> r == Ok(EmptyScope)
  {
    if IsNullOrWhiteSpace(expression) {
      return Ok(EmptyScope);
    }
    var chars := new char[|expression|](i requires 0 <= i < |expression| => expression[i]);
    var index: nat := 0;
    var negated := false;

    // Create the base context.
    var base := new ExpressionParserNode(Scope);
    var stack := [base];
    ghost var outcome := Run(expression, decimalMarker, InitialState);
    assert Snapshots(stack) == [BaseContext];

    while index < chars.Length
      invariant chars[..] == expression
      invariant index <= chars.Length && |stack| >= 1 && Distinct(stack)
      invariant forall i :: 0 <= i < |stack| ==> fresh(stack[i])
      invariant Run(expression, decimalMarker, State(Snapshots(stack), index, negated)) == outcome
      decreases chars.Length - index
    {
      var ok;
      ok, stack, index, negated := ScanStep(chars, decimalMarker, stack, index, negated);
      if !ok {
        return Error;
      }
    }

    // End of input: close every context into the one beneath it.
    stack := CollapseStack(stack);
    var rootNode := stack[0];
    r := Ok(ConvertTree(rootNode.Snapshot()));
  }
}
