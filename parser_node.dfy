/** The mutable node the parser builds while it scans (ExpressionParserNode.cs).

    A node that is open on the parser's stack is an object whose fields the parser sets and
    whose child and operator lists it appends to in place. Once a node is closed it is moved
    into exactly one child list and never shared, so a child list holds the VALUE of each child
    (a ParseNode); Snapshot() gives the value of an open node. */
module ParserNode {
  import opened Wrappers
  import opened Syntax

  /** The value of a parse node: its kind and text, its negation, the three context flags
      used only while parsing, its children and its operators. */
  datatype ParseNode = ParseNode(
    nodeType: NodeType,
    value: string,
    isNegative: bool,
    isRaisedPrecedence: bool,
    isParenthesis: bool,
    isFunction: bool,
    childNodes: seq<ParseNode>,
    operators: seq<Operator>)

  /** A newly created node of the given kind: empty text, every flag off, no children, no operators. */
  function FreshNode(nodeType: NodeType): ParseNode
  {
    ParseNode(nodeType, "", false, false, false, false, [], [])
  }

  /** The node after appending a child. */
  function AddedChild(n: ParseNode, child: ParseNode): (r: ParseNode)
    ensures |r.childNodes| == |n.childNodes| + 1 && r.childNodes[|n.childNodes|] == child
    ensures r.childNodes[..|n.childNodes|] == n.childNodes
    ensures r.(childNodes := n.childNodes) == n
  {
    n.(childNodes := n.childNodes + [child])
  }

  /** The node after appending an operator. */
  function AddedOperator(n: ParseNode, op: Operator): (r: ParseNode)
    ensures |r.operators| == |n.operators| + 1 && r.operators[|n.operators|] == op
    ensures r.operators[..|n.operators|] == n.operators
    ensures r.(operators := n.operators) == n
  {
    n.(operators := n.operators + [op])
  }

  /** Removing the last child: the child and the node that remains, or None when there is no
      child (where the source indexes its list at -1 and throws). */
  function PoppedChild(n: ParseNode): (r: Option<(ParseNode, ParseNode)>)
    ensures r.None? <==> n.childNodes == []
    ensures r.Some? ==> r.value.1.childNodes + [r.value.0] == n.childNodes
    ensures r.Some? ==> r.value.1.(childNodes := n.childNodes) == n
  {
    if n.childNodes == [] then None
    else
      var last := |n.childNodes| - 1;
      Some((n.childNodes[last], n.(childNodes := n.childNodes[..last])))
  }

  /** Appending a child and then removing the last child gives back that child and the
      original node. */
  lemma AddChildThenPopChild(n: ParseNode, child: ParseNode)
    ensures PoppedChild(AddedChild(n, child)) == Some((child, n))
  {
    assert AddedChild(n, child).childNodes[..|n.childNodes|] == n.childNodes;
  }

  /** Removing the last child and appending it again gives back the original node. */
  lemma PopChildThenAddChild(n: ParseNode)
    requires n.childNodes != []
    ensures AddedChild(PoppedChild(n).value.1, PoppedChild(n).value.0) == n
  {
  }

  /** A node open on the parser's stack. The child and operator lists always exist (they are
      sequences, never null). */
  class ExpressionParserNode {
    var childNodes: seq<ParseNode>
    var operators: seq<Operator>
    var isRaisedPrecedence: bool
    var isParenthesis: bool
    var isFunction: bool
    var value: string
    var nodeType: NodeType
    var isNegative: bool

    /** The current value of this node. */
    function Snapshot(): ParseNode
      reads this
    {
      ParseNode(nodeType, value, isNegative, isRaisedPrecedence, isParenthesis, isFunction,
                childNodes, operators)
    }

    /** A new node of the given kind; every other property has its default. */
    constructor (nodeType: NodeType)
      ensures Snapshot() == FreshNode(nodeType)
    {
      childNodes := [];
      operators := [];
      isRaisedPrecedence := false;
      isParenthesis := false;
      isFunction := false;
      value := "";
      this.nodeType := nodeType;
      isNegative := false;
    }

    method AddChild(node: ParseNode)
      modifies this
      ensures Snapshot() == AddedChild(old(Snapshot()), node)
    {
      childNodes := childNodes + [node];
    }

    method AddOperator(op: Operator)
      modifies this
      ensures Snapshot() == AddedOperator(old(Snapshot()), op)
    {
      operators := operators + [op];
    }

    /** Removes and returns the last child; None, with nothing changed, when there is none. */
    method PopChild() returns (last: Option<ParseNode>)
      modifies this
      ensures old(childNodes) == [] ==> last.None? && Snapshot() == old(Snapshot())
      ensures old(childNodes) != [] ==>
                last == Some(PoppedChild(old(Snapshot())).value.0) &&
                Snapshot() == PoppedChild(old(Snapshot())).value.1
    {
      if childNodes == [] {
        return None;
      }
      var lastIndex := |childNodes| - 1;
      last := Some(childNodes[lastIndex]);
      childNodes := childNodes[..lastIndex];
    }
  }
}
