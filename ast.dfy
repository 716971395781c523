/** The abstract syntax tree (includes/ast.h, src/ast.c).

    The source links a node to its first child and each child to its next
    sibling; here a node holds the ordered sequence of its children instead.
    A function node keeps the scope of its body: here the table that scope
    holds when the body ends, which nothing changes afterwards. */
module Ast {
  import opened Wrappers
  import opened SymTab

  /** NodeType, plus the declaration-with-initialiser node the parser builds. */
  datatype NodeKind =
    | ProgramNode | BlockNode | DeclarationNode | DeclAssignNode
    | AssignmentNode | LoopNode | ConditionalNode | PrintNode | ScanNode | ReturnNode
    | FuncDeclNode | ProcDeclNode | ParamListNode | ParamNode | FuncCallNode | ArgListNode
    | AddNode | SubNode | MulNode | DivNode | NegateNode | EqNode | NeqNode
    | LtNode | LteNode | GtNode | GteNode
    | IdentifierNode | IntLiteralNode | FloatLiteralNode | TypeIntNode | TypeFloatNode

  /** ASTNode: kind, optional text (a name or a literal), ordered children, and
      the scope the node owns (set on function nodes only). */
  datatype Node = Node(kind: NodeKind, value: Option<string>, children: seq<Node>, scope: Option<Table>)

  /** create_node: a leaf carrying `value` (or none), with no children and no owned scope. */
  function CreateNode(kind: NodeKind, value: Option<string>): (n: Node)
    ensures n.kind == kind && n.value == value
    ensures n.children == [] && n.scope == None
  {
    Node(kind, value, [], None)
  }

  /** add_child. `parent` is None for a NULL parent; `newChild` is the node
      passed in together with the siblings already linked after it, so [] is a
      NULL child. The chain is hung after the last existing child. */
  function AddChild(parent: Option<Node>, newChild: seq<Node>): Option<Node>
  {
    match parent
    case None => None
    case Some(p) =>
      if newChild == [] then parent
      else Some(p.(children := p.children + newChild))
  }

  /** A NULL parent or a NULL child leaves everything as it was. */
  lemma AddChildNull(parent: Option<Node>, newChild: seq<Node>)
    requires parent.None? || newChild == []
    ensures AddChild(parent, newChild) == parent
  {
  }

  /** The new chain goes after every existing child; the existing children keep
      their order and contents; kind, value and owned scope are untouched. */
  lemma AddChildAppends(p: Node, newChild: seq<Node>)
    ensures AddChild(Some(p), newChild).Some?
    ensures var q := AddChild(Some(p), newChild).value;
      && q.kind == p.kind && q.value == p.value && q.scope == p.scope
      && |q.children| == |p.children| + |newChild|
      && q.children[..|p.children|] == p.children
      && q.children[|p.children|..] == newChild
  {
  }

  /** A child with no siblings of its own (every call in the parser) adds
      exactly one child, at the end. */
  lemma AddChildSingle(p: Node, c: Node)
    ensures AddChild(Some(p), [c]).Some?
    ensures var q := AddChild(Some(p), [c]).value;
      |q.children| == |p.children| + 1 && q.children[|p.children|] == c
  {
  }

  /** add_child on a non-NULL parent and a child without siblings, the only
      form the parser uses. */
  function WithChild(parent: Node, child: Node): (n: Node)
    ensures Some(n) == AddChild(Some(parent), [child])
  {
    parent.(children := parent.children + [child])
  }
}
