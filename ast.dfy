/**
 * The syntax tree the parser builds (src/parser.rs, `Ast` and the node kinds it
 * pushes): nodes live in one list and refer to each other by index.
 */
module Ast {

  import opened Tokens
  import opened Format

  /** A function's declared return type. */
  datatype ReturnType = Integer | Floating | Moot

  datatype NodeData =
    | Floating(val: Float)
    | Add(left: nat, right: nat)
    | Subtract(left: nat, right: nat)
    | Multiply(left: nat, right: nat)
    | Divide(left: nat, right: nat)
    | Block(stmts: seq<nat>)
    | Return(expr: nat)
    | FunctionDef(name: Span, exec: nat, returnType: ReturnType)
    | Moot
  {
    predicate IsBinary() {
      Add? || Subtract? || Multiply? || Divide?
    }

    /** The expression and statement nodes this node refers to (not a function's body). */
    function Children(): seq<nat> {
      if IsBinary() then [left, right]
      else if Block? then stmts
      else if Return? then [expr]
      else []
    }
  }

  /** A node and the index of the token it starts at. */
  datatype Node = Node(data: NodeData, tok: nat)

  datatype Ast = Ast(toks: seq<Token>, nodes: seq<Node>, funcs: seq<nat>)

  /** Every child of a node was pushed before it. */
  predicate ChildrenPrecede(nodes: seq<Node>) {
    forall k, m :: 0 <= k < |nodes| && 0 <= m < |nodes[k].data.Children()| ==> nodes[k].data.Children()[m] < k
  }

  /** A function definition's body is a node of the list. */
  predicate BodiesExist(nodes: seq<Node>) {
    forall k :: 0 <= k < |nodes| && nodes[k].data.FunctionDef? ==> nodes[k].data.exec < |nodes|
  }

  /** Operands of arithmetic and of `return` are expressions, never blocks. */
  predicate OperandsAreExpressions(nodes: seq<Node>) {
    forall k, m ::
      0 <= k < |nodes| && !nodes[k].data.Block? && 0 <= m < |nodes[k].data.Children()| && nodes[k].data.Children()[m] < |nodes|
      ==> !nodes[nodes[k].data.Children()[m]].data.Block?
  }
}
