/**
  The syntax tree of `basiclang/node.py`. A child the parser could not build
  is Python's `None`, so every child is optional. The node classes define no
  span; `Start` and `End` derive one from the children.
 */
module Nodes {

  import opened Wrappers
  import opened Positions
  import opened Tokens

  datatype Node =
    | NumberNode(tok: Token)
    | BinOpNode(leftNode: Option<Node>, opTok: Token, rightNode: Option<Node>)
    | UnaryOpNode(opTok: Token, node: Option<Node>)

  /** The tokens of a tree in source order: an operator between its operands,
      a unary operator before its operand. */
  function Flatten(n: Option<Node>): seq<Token>
  {
    match n
    case None => []
    case Some(NumberNode(tok)) => [tok]
    case Some(BinOpNode(l, op, r)) => Flatten(l) + [op] + Flatten(r)
    case Some(UnaryOpNode(op, c)) => [op] + Flatten(c)
  }

  /** Where a tree starts: its number token, its left operand, or its unary
      operator. */
  function Start(n: Option<Node>): Option<Position>
  {
    match n
    case None => None
    case Some(NumberNode(tok)) => tok.posStart
    case Some(BinOpNode(l, _, _)) => Start(l)
    case Some(UnaryOpNode(op, _)) => op.posStart
  }

  /** Where a tree ends: its number token or its (right) operand. */
  function End(n: Option<Node>): Option<Position>
  {
    match n
    case None => None
    case Some(NumberNode(tok)) => tok.posEnd
    case Some(BinOpNode(_, _, r)) => End(r)
    case Some(UnaryOpNode(_, c)) => End(c)
  }

  /** A tree with no missing child. */
  predicate Complete(n: Option<Node>)
  {
    match n
    case None => false
    case Some(NumberNode(_)) => true
    case Some(BinOpNode(l, _, r)) => Complete(l) && Complete(r)
    case Some(UnaryOpNode(_, c)) => Complete(c)
  }

  /** A complete tree has at least one token, and ends with a number token. */
  lemma {:induction false} CompleteEndsWithNumber(n: Option<Node>)
    requires Complete(n)
    ensures |Flatten(n)| > 0
    ensures End(n) == Flatten(n)[|Flatten(n)| - 1].posEnd
  {
    match n.value
    case NumberNode(_) =>
    case BinOpNode(l, op, r) =>
      CompleteEndsWithNumber(l);
      CompleteEndsWithNumber(r);
      assert Flatten(n) == (Flatten(l) + [op]) + Flatten(r);
    case UnaryOpNode(op, c) =>
      CompleteEndsWithNumber(c);
      assert Flatten(n) == [op] + Flatten(c);
  }

  /** The derived span of a complete tree runs from the start of its first
      token to the end of its last. */
  lemma {:induction false} SpanCoversTokens(n: Option<Node>)
    requires Complete(n)
    ensures |Flatten(n)| > 0
    ensures Start(n) == Flatten(n)[0].posStart
    ensures End(n) == Flatten(n)[|Flatten(n)| - 1].posEnd
  {
    CompleteEndsWithNumber(n);
    match n.value
    case NumberNode(_) =>
    case BinOpNode(l, op, r) =>
      SpanCoversTokens(l);
      assert Flatten(n) == Flatten(l) + ([op] + Flatten(r));
    case UnaryOpNode(op, c) =>
  }
}
