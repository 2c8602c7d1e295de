/** The public, immutable tree that the parser hands to its callers
    (SyntaxTreeNode.cs, Operator.cs) and the node kinds. */
module Syntax {

  /** The four kinds of node. */
  datatype NodeType = Scope | Constant | Variable | Function

  /** An operator symbol of one or more characters, such as "+", "++", "-" or "*". */
  datatype Operator = Operator(symbol: string)

  /** An immutable node of the syntax tree. */
  datatype SyntaxTreeNode = SyntaxTreeNode(
    nodeType: NodeType,
    value: string,
    isNegated: bool,
    childNodes: seq<SyntaxTreeNode>,
    operators: seq<Operator>)

  /** The tree returned for an empty or whitespace-only expression. */
  const EmptyScope: SyntaxTreeNode := SyntaxTreeNode(Scope, "", false, [], [])
}
