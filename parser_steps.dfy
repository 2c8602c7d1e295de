/** One step of the scan for each kind of character, and the chaining of steps into a run:
    the facts a concrete parse is assembled from. */
module ParserSteps {
  import opened Wrappers
  import opened Syntax
  import opened ParserNode
  import opened ExpressionParser
  import opened ParserCorrected

  // Builders for the trees and leaves that concrete parses produce.

  function Var(name: string, negated: bool): SyntaxTreeNode { SyntaxTreeNode(Variable, name, negated, [], []) }

  function Const(text: string, negated: bool): SyntaxTreeNode { SyntaxTreeNode(Constant, text, negated, [], []) }

  function Group(children: seq<SyntaxTreeNode>, operators: seq<Operator>): SyntaxTreeNode
  {
    SyntaxTreeNode(Scope, "", false, children, operators)
  }

  function Func(name: string, children: seq<SyntaxTreeNode>, operators: seq<Operator>): SyntaxTreeNode
  {
    SyntaxTreeNode(Function, name, false, children, operators)
  }

  function Lit(text: string, negated: bool): ParseNode { Leaf(Constant, text, negated) }

  lemma StepOpen(s: string, m: char, st: State)
    requires st.index < |s| && |st.stack| >= 1 && s[st.index] == OpenParen
    ensures Next(s, m, st) == Some(State(st.stack + [ParenthesisContext(st.negated)], st.index + 1, false))
    ensures NextCorrected(s, m, st) == Next(s, m, st)
  {
  }

  lemma StepClose(s: string, m: char, st: State, stack': seq<ParseNode>)
    requires st.index < |s| && |st.stack| >= 1 && s[st.index] == CloseParen
    requires ParenthesisClosed(st.stack) == Some(stack')
    ensures Next(s, m, st) == Some(State(stack', st.index + 1, st.negated))
  {
  }

  lemma StepCloseCorrected(s: string, m: char, st: State, stack': seq<ParseNode>)
    requires st.index < |s| && |st.stack| >= 1 && s[st.index] == CloseParen
    requires ParenthesisClosedCorrected(st.stack) == Some(stack')
    ensures NextCorrected(s, m, st) == Some(State(stack', st.index + 1, st.negated))
  {
  }

  lemma StepSeparator(s: string, m: char, st: State, stack': seq<ParseNode>)
    requires st.index < |s| && |st.stack| >= 1 && s[st.index] == ArgumentSeparator
    requires ArgumentSeparated(st.stack) == Some(stack')
    ensures Next(s, m, st) == Some(State(stack', st.index + 1, st.negated))
  {
  }

  lemma StepSeparatorCorrected(s: string, m: char, st: State, stack': seq<ParseNode>)
    requires st.index < |s| && |st.stack| >= 1 && s[st.index] == ArgumentSeparator
    requires ArgumentSeparatedCorrected(st.stack) == Some(stack')
    ensures NextCorrected(s, m, st) == Some(State(stack', st.index + 1, st.negated))
  {
  }

  lemma StepMinus(s: string, m: char, st: State, stack': seq<ParseNode>, negated': bool)
    requires st.index < |s| && |st.stack| >= 1 && s[st.index] == NegativeToken
    requires MinusApplied(st.stack, st.negated) == Some((stack', negated'))
    ensures Next(s, m, st) == Some(State(stack', st.index + 1, negated'))
    ensures NextCorrected(s, m, st) == Next(s, m, st)
  {
  }

  lemma StepOperator(s: string, m: char, st: State, j: nat, stack': seq<ParseNode>)
    requires st.index < |s| && |st.stack| >= 1 && IsOperatorCharacter(s[st.index])
    requires SpanEnd(s, st.index, OperatorCharacters) == j
    requires OperatorApplied(st.stack, s[st.index..j]) == Some(stack')
    ensures Next(s, m, st) == Some(State(stack', j, st.negated))
    ensures NextCorrected(s, m, st) == Next(s, m, st)
  {
  }

  lemma StepOperatorFails(s: string, m: char, st: State)
    requires st.index < |s| && |st.stack| >= 1 && IsOperatorCharacter(s[st.index])
    requires OperatorApplied(st.stack, s[st.index..SpanEnd(s, st.index, OperatorCharacters)]).None?
    ensures Next(s, m, st).None?
  {
  }

  lemma StepConstant(s: string, m: char, st: State, j: nat)
    requires st.index < |s| && |st.stack| >= 1 && IsNumber(s[st.index])
    requires SpanEnd(s, st.index, NumberCharacters(m)) == j
    ensures Next(s, m, st)
         == Some(State(ChildAddedToTop(st.stack, Leaf(Constant, s[st.index..j], st.negated)), j, false))
    ensures NextCorrected(s, m, st) == Next(s, m, st)
  {
  }

  lemma StepWhiteSpace(s: string, m: char, st: State)
    requires st.index < |s| && |st.stack| >= 1 && IsWhiteSpace(s[st.index])
    ensures Next(s, m, st) == Some(State(st.stack, st.index + 1, st.negated))
    ensures NextCorrected(s, m, st) == Next(s, m, st)
  {
  }

  lemma StepVariable(s: string, m: char, st: State, j: nat)
    requires st.index < |s| && |st.stack| >= 1
    requires IsParameterCharacter(s[st.index]) && !IsNumber(s[st.index]) && !IsWhiteSpace(s[st.index])
    requires SpanEnd(s, st.index, ParameterCharacters) == j && (j == |s| || s[j] != OpenParen)
    ensures Next(s, m, st)
         == Some(State(ChildAddedToTop(st.stack, Leaf(Variable, s[st.index..j], st.negated)), j, false))
    ensures NextCorrected(s, m, st) == Next(s, m, st)
  {
  }

  lemma StepCall(s: string, m: char, st: State, j: nat)
    requires st.index < |s| && |st.stack| >= 1
    requires IsParameterCharacter(s[st.index]) && !IsNumber(s[st.index]) && !IsWhiteSpace(s[st.index])
    requires SpanEnd(s, st.index, ParameterCharacters) == j && j < |s| && s[j] == OpenParen
    ensures Next(s, m, st)
         == Some(State(st.stack + [FunctionContext(s[st.index..j], st.negated), ArgumentContext], j + 1, false))
    ensures NextCorrected(s, m, st) == Next(s, m, st)
  {
  }

  /** A step that succeeds does not change the outcome of the run. */
  lemma RunStep(s: string, m: char, st: State, st': State)
    requires st.index < |s| && |st.stack| >= 1 && Next(s, m, st) == Some(st')
    ensures Run(s, m, st) == Run(s, m, st')
  {
  }

  lemma RunStepCorrected(s: string, m: char, st: State, st': State)
    requires st.index < |s| && |st.stack| >= 1 && NextCorrected(s, m, st) == Some(st')
    ensures RunCorrected(s, m, st) == RunCorrected(s, m, st')
  {
  }

  /** A step that fails makes the whole run fail. */
  lemma RunFails(s: string, m: char, st: State)
    requires st.index < |s| && |st.stack| >= 1 && Next(s, m, st).None?
    ensures Run(s, m, st).None?
  {
  }

  lemma RunFailsCorrected(s: string, m: char, st: State)
    requires st.index < |s| && |st.stack| >= 1 && NextCorrected(s, m, st).None?
    ensures RunCorrected(s, m, st).None?
  {
  }

  lemma RunDone(s: string, m: char, st: State)
    requires st.index == |s| && |st.stack| >= 1
    ensures Run(s, m, st) == Some(st)
    ensures RunCorrected(s, m, st) == Some(st)
  {
  }

  /** A run of exactly one character of class k. */
  lemma SpanOfOne(s: string, i: nat, k: CharClass)
    requires i < |s| && InClass(k, s[i]) && (i + 1 == |s| || !InClass(k, s[i + 1]))
    ensures SpanEnd(s, i, k) == i + 1
  {
  }

  lemma SpanExtends(s: string, i: nat, k: CharClass)
    requires i < |s| && InClass(k, s[i])
    ensures SpanEnd(s, i, k) == SpanEnd(s, i + 1, k)
  {
  }

  /** Parsed, once the outcome of the run is known. */
  lemma ParsedFromRun(s: string, m: char, st: State)
    requires !IsNullOrWhiteSpace(s) && Run(s, m, InitialState) == Some(st)
    ensures Parsed(s, m) == Ok(ConvertTree(Collapsed(st.stack)))
  {
  }

  lemma ParsedFailsFromRun(s: string, m: char)
    requires !IsNullOrWhiteSpace(s) && Run(s, m, InitialState).None?
    ensures Parsed(s, m) == Error
  {
  }

  lemma ParsedCorrectedFromRun(s: string, m: char, st: State)
    requires !IsNullOrWhiteSpace(s) && RunCorrected(s, m, InitialState) == Some(st)
    ensures ParsedCorrected(s, m) == Ok(ConvertTree(Collapsed(st.stack)))
  {
  }

  lemma ParsedCorrectedFailsFromRun(s: string, m: char)
    requires !IsNullOrWhiteSpace(s) && RunCorrected(s, m, InitialState).None?
    ensures ParsedCorrected(s, m) == Error
  {
  }

  lemma StepSeparatorCorrectedFails(s: string, m: char, st: State)
    requires st.index < |s| && |st.stack| >= 1 && s[st.index] == ArgumentSeparator
    requires ArgumentSeparatedCorrected(st.stack).None?
    ensures NextCorrected(s, m, st).None?
  {
  }
}
