/**
  The recursive-descent parser of `basiclang/parser.py`: `expr` folds `bin_op`
  over `term`, `term` folds it over `factor`, and `factor` reads one number
  token or gives `None`.
 */
module Parsing {

  import opened Wrappers
  import opened Exceptions
  import opened Tokens
  import opened Nodes

  /** The parser's state: the tokens, the index of the current one, and the
      current token (`None` past the end). */
  datatype Parser = Parser(tokens: seq<Token>, tokIdx: int, curTok: Option<Token>)

  function TokenAt(tokens: seq<Token>, i: int): Option<Token>
  {
    if 0 <= i < |tokens| then Some(tokens[i]) else None
  }

  /** The states the constructor and `advance` can reach. */
  predicate Valid(p: Parser)
  {
    0 <= p.tokIdx <= |p.tokens| && p.curTok == TokenAt(p.tokens, p.tokIdx)
  }

  /** The tokens not yet passed. */
  function Remaining(p: Parser): int
  {
    |p.tokens| - p.tokIdx
  }

  /** `Parser.advance()`: the next index, and its token or `None` past the
      end. The index starts one place before the list, never further. */
  function Advance(p: Parser): (r: Parser)
    requires p.tokIdx >= -1
    ensures r.tokens == p.tokens && r.tokIdx == p.tokIdx + 1
    ensures r.curTok == TokenAt(p.tokens, p.tokIdx + 1)
    ensures r.curTok.None? <==> p.tokIdx + 1 >= |p.tokens|
  {
    var i := p.tokIdx + 1;
    p.(tokIdx := i, curTok := if i < |p.tokens| then Some(p.tokens[i]) else None)
  }

  /** `Parser(tokens)`: on the first token, or on nothing for no tokens. */
  function NewParser(tokens: seq<Token>): (p: Parser)
    ensures Valid(p) && p.tokens == tokens && p.tokIdx == 0
  {
    Advance(Parser(tokens, -1, None))
  }

  predicate IsNumberToken(t: Token)
  {
    t.kind == INT || t.kind == FLOAT
  }

  /** What `factor` reading `tok.type` on `None` raises. */
  const NO_TYPE: Exception := AttributeError("NoneType", "type")

  /** `Parser.factor()`: a number token is consumed and wrapped in a
      `NumberNode`; any other token is left alone and gives `None`; no token
      at all makes `tok.type` raise. */
  function Factor(p: Parser): (r: Completion<(Option<Node>, Parser)>)
    requires Valid(p)
    ensures r.Raised? <==> p.curTok.None?
    ensures r.Raised? ==> r.exception == NO_TYPE
    ensures r.Returned? && IsNumberToken(p.curTok.value) ==>
              r.value == (Some(NumberNode(p.curTok.value)), Advance(p)) && Valid(r.value.1)
    ensures r.Returned? && !IsNumberToken(p.curTok.value) ==> r.value == (None, p)
  {
    match p.curTok
    case None => Raised(NO_TYPE)
    case Some(tok) =>
      if IsNumberToken(tok) then Returned((Some(NumberNode(tok)), Advance(p)))
      else Returned((None, p))
  }

  /** The two uses of `bin_op`: `term` over factors with `/` and `*`, `expr`
      over terms with `-` and `+`. */
  datatype Level = TermLevel | ExprLevel

  function Rank(level: Level): nat
  {
    if level == TermLevel then 0 else 1
  }

  /** The `ops` argument `bin_op` gets at each level. */
  function Ops(level: Level): set<TokenType>
  {
    if level == TermLevel then {DIV, MUL} else {MINUS, PLUS}
  }

  /** The loop condition of `bin_op`: a current token whose kind is in `ops`. */
  predicate AtOp(level: Level, p: Parser)
  {
    p.curTok.Some? && p.curTok.value.kind in Ops(level)
  }

  /** The `func` argument of `bin_op`: `factor` for `term`, `term` for `expr`. */
  function Operand(level: Level, p: Parser): (r: Completion<(Option<Node>, Parser)>)
    requires Valid(p)
    decreases Rank(level), Remaining(p), 1
    ensures r.Raised? ==> r.exception == NO_TYPE
    ensures r.Returned? ==> Valid(r.value.1) && r.value.1.tokens == p.tokens && p.tokIdx <= r.value.1.tokIdx
  {
    if level == TermLevel then Factor(p) else BinOp(TermLevel, p)
  }

  /** `Parser.bin_op(func, ops)`: one operand, then the loop. */
  function BinOp(level: Level, p: Parser): (r: Completion<(Option<Node>, Parser)>)
    requires Valid(p)
    decreases Rank(level), Remaining(p), 2
    ensures r.Raised? ==> r.exception == NO_TYPE
    ensures r.Returned? ==> Valid(r.value.1) && r.value.1.tokens == p.tokens && p.tokIdx <= r.value.1.tokIdx
  {
    var first :- Operand(level, p);
    Loop(level, first.0, first.1)
  }

  /** The `while` loop of `bin_op`: while the current token is one of `ops`,
      take it and the next operand and make the tree so far their left side. */
  function Loop(level: Level, left: Option<Node>, p: Parser): (r: Completion<(Option<Node>, Parser)>)
    requires Valid(p)
    decreases Rank(level), Remaining(p), 0
    ensures r.Raised? ==> r.exception == NO_TYPE
    ensures r.Returned? ==> Valid(r.value.1) && r.value.1.tokens == p.tokens && p.tokIdx <= r.value.1.tokIdx
  {
    if AtOp(level, p) then
      var opTok := p.curTok.value;
      var next :- Operand(level, Advance(p));
      Loop(level, Some(BinOpNode(left, opTok, next.0)), next.1)
    else Returned((left, p))
  }

  /** `Parser.term()`. */
  function Term(p: Parser): Completion<(Option<Node>, Parser)>
    requires Valid(p)
  {
    BinOp(TermLevel, p)
  }

  /** `Parser.expr()`. */
  function Expr(p: Parser): Completion<(Option<Node>, Parser)>
    requires Valid(p)
  {
    BinOp(ExprLevel, p)
  }

  /** `Parser.parse()`: whatever `expr` built, and where it stopped. */
  function Parse(p: Parser): Completion<(Option<Node>, Parser)>
    requires Valid(p)
  {
    Expr(p)
  }

  // ---------------------------------------------------------------------
  // The trees the parser builds.

  /** What `factor` can give: a number node on a number token, or `None`. */
  predicate IsFactor(n: Option<Node>)
  {
    n.None? || (n.value.NumberNode? && IsNumberToken(n.value.tok))
  }

  /** What an operand at a level can be: a factor for `term`, a term for `expr`. */
  predicate OperandOf(level: Level, n: Option<Node>)
    decreases n, Rank(level), 0
  {
    if level == TermLevel then IsFactor(n) else Shaped(TermLevel, n)
  }

  /** The trees `bin_op` builds at a level: an operand, or a `BinOpNode` of
      the level's operator whose left side is again such a tree and whose
      right side is an operand. So the trees lean left, and every `+` or `-`
      sits above every `*` or `/`. */
  predicate Shaped(level: Level, n: Option<Node>)
    decreases n, Rank(level), 1
  {
    || OperandOf(level, n)
    || (&& n.Some? && n.value.BinOpNode? && n.value.opTok.kind in Ops(level)
        && Shaped(level, n.value.leftNode) && OperandOf(level, n.value.rightNode))
  }

  /** Where a loop stops at a level: on no operator of that level, and for
      `expr` also on none of `term`'s, since the last term stopped there. */
  predicate Stopped(level: Level, p: Parser)
  {
    !AtOp(level, p) && (level == ExprLevel ==> !AtOp(TermLevel, p))
  }

  /** The tokens from `p` up to `q`. */
  function Passed(p: Parser, q: Parser): seq<Token>
    requires 0 <= p.tokIdx <= q.tokIdx <= |p.tokens|
  {
    p.tokens[p.tokIdx..q.tokIdx]
  }

  lemma PassedSplits(tokens: seq<Token>, i: int, j: int, k: int)
    requires 0 <= i <= j <= k <= |tokens|
    ensures tokens[i..k] == tokens[i..j] + tokens[j..k]
  {
  }

  lemma Assoc3<T>(a: seq<T>, b: seq<T>, c: seq<T>)
    ensures (a + b) + c == a + (b + c)
  {
  }

  lemma Assoc4<T>(a: seq<T>, b: seq<T>, c: seq<T>, d: seq<T>)
    ensures ((a + b) + c) + d == a + (b + (c + d))
  {
  }

  /** An operand reads exactly the tokens of the tree it gives, and a term
      stops on no `*` or `/`. */
  lemma {:induction false} OperandReads(level: Level, p: Parser)
    requires Valid(p)
    decreases Rank(level), Remaining(p), 1
    ensures var r := Operand(level, p);
            r.Returned? ==>
              && Passed(p, r.value.1) == Flatten(r.value.0)
              && OperandOf(level, r.value.0)
              && (level == ExprLevel ==> !AtOp(TermLevel, r.value.1))
  {
    if level == ExprLevel {
      BinOpReads(TermLevel, p);
    }
  }

  /** `bin_op` reads exactly the tokens of the tree it builds, builds a tree
      of its level, and stops where `Stopped` says. */
  lemma {:induction false} BinOpReads(level: Level, p: Parser)
    requires Valid(p)
    decreases Rank(level), Remaining(p), 2
    ensures var r := BinOp(level, p);
            r.Returned? ==>
              && Passed(p, r.value.1) == Flatten(r.value.0)
              && Shaped(level, r.value.0)
              && Stopped(level, r.value.1)
  {
    OperandReads(level, p);
    var first := Operand(level, p);
    if first.Returned? {
      var (left, q) := first.value;
      LoopReads(level, left, q);
      var r := Loop(level, left, q);
      if r.Returned? {
        PassedSplits(p.tokens, p.tokIdx, q.tokIdx, r.value.1.tokIdx);
      }
    }
  }

  /** The loop adds exactly the tokens it passes to the tree so far. */
  lemma {:induction false} LoopReads(level: Level, left: Option<Node>, p: Parser)
    requires Valid(p) && Shaped(level, left)
    requires level == ExprLevel ==> !AtOp(TermLevel, p)
    decreases Rank(level), Remaining(p), 0
    ensures var r := Loop(level, left, p);
            r.Returned? ==>
              && Flatten(r.value.0) == Flatten(left) + Passed(p, r.value.1)
              && Shaped(level, r.value.0)
              && Stopped(level, r.value.1)
  {
    if AtOp(level, p) {
      var opTok := p.curTok.value;
      var q := Advance(p);
      OperandReads(level, q);
      var next := Operand(level, q);
      if next.Returned? {
        var (right, q2) := next.value;
        var tree := Some(BinOpNode(left, opTok, right));
        LoopReads(level, tree, q2);
        var r := Loop(level, tree, q2);
        if r.Returned? {
          var q3 := r.value.1;
          PassedSplits(p.tokens, p.tokIdx, q.tokIdx, q3.tokIdx);
          PassedSplits(p.tokens, q.tokIdx, q2.tokIdx, q3.tokIdx);
          assert Passed(p, q) == [opTok];
          assert Passed(p, q3) == [opTok] + (Flatten(right) + Passed(q2, q3));
          assert Flatten(r.value.0) == ((Flatten(left) + [opTok]) + Flatten(right)) + Passed(q2, q3);
          Assoc4(Flatten(left), [opTok], Flatten(right), Passed(q2, q3));
        }
      }
    } else {
      assert p.tokens[p.tokIdx..p.tokIdx] == [];
    }
  }

  /** What `parse` returns: a tree of `expr`'s shape spelling out the tokens
      it read, stopped on no operator; it raises only on running out of
      tokens where a factor belongs. */
  lemma ParseReads(p: Parser)
    requires Valid(p)
    ensures Parse(p).Raised? ==> Parse(p).exception == NO_TYPE
    ensures var r := Parse(p);
            r.Returned? ==>
              && Valid(r.value.1) && r.value.1.tokens == p.tokens && p.tokIdx <= r.value.1.tokIdx
              && p.tokens[p.tokIdx..r.value.1.tokIdx] == Flatten(r.value.0)
              && Shaped(ExprLevel, r.value.0)
              && Stopped(ExprLevel, r.value.1)
  {
    BinOpReads(ExprLevel, p);
  }

  // ---------------------------------------------------------------------
  // Parsing the tokens of a complete tree gives the tree back.

  /** `rest` begins with an operator of the level. */
  predicate StartsWithOp(level: Level, rest: seq<Token>)
  {
    |rest| > 0 && rest[0].kind in Ops(level)
  }

  /** Nothing in `rest` lets a loop of the level, or one below it, go on. */
  predicate StopsBefore(level: Level, rest: seq<Token>)
  {
    !StartsWithOp(level, rest) && (level == ExprLevel ==> !StartsWithOp(TermLevel, rest))
  }

  /** The left fold the loop computes over operator/operand pairs. */
  function FoldLeft(acc: Option<Node>, pairs: seq<(Token, Node)>): Option<Node>
    decreases |pairs|
  {
    if pairs == [] then acc
    else FoldLeft(Some(BinOpNode(acc, pairs[0].0, Some(pairs[0].1))), pairs[1..])
  }

  function FlattenPairs(pairs: seq<(Token, Node)>): seq<Token>
  {
    if pairs == [] then [] else [pairs[0].0] + Flatten(Some(pairs[0].1)) + FlattenPairs(pairs[1..])
  }

  /** Pairs the loop of a level can read: the level's operators, complete
      operands of the level. */
  predicate PairsOf(level: Level, pairs: seq<(Token, Node)>)
  {
    forall i :: 0 <= i < |pairs| ==>
      pairs[i].0.kind in Ops(level) && Complete(Some(pairs[i].1)) && OperandOf(level, Some(pairs[i].1))
  }

  lemma {:induction false} FoldLeftSnoc(acc: Option<Node>, pairs: seq<(Token, Node)>, x: (Token, Node))
    decreases |pairs|
    ensures FoldLeft(acc, pairs + [x]) == Some(BinOpNode(FoldLeft(acc, pairs), x.0, Some(x.1)))
  {
    if pairs != [] {
      assert (pairs + [x])[1..] == pairs[1..] + [x];
      FoldLeftSnoc(Some(BinOpNode(acc, pairs[0].0, Some(pairs[0].1))), pairs[1..], x);
    }
  }

  lemma {:induction false} FlattenPairsSnoc(pairs: seq<(Token, Node)>, x: (Token, Node))
    decreases |pairs|
    ensures FlattenPairs(pairs + [x]) == FlattenPairs(pairs) + [x.0] + Flatten(Some(x.1))
  {
    if pairs == [] {
      assert pairs + [x] == [x];
    } else {
      assert (pairs + [x])[1..] == pairs[1..] + [x];
      FlattenPairsSnoc(pairs[1..], x);
    }
  }

  /** A complete tree of a level is its leftmost operand folded with the
      operator/operand pairs along its left spine. */
  function Spine(level: Level, t: Option<Node>): (r: (Option<Node>, seq<(Token, Node)>))
    requires Complete(t) && Shaped(level, t)
    ensures Complete(r.0) && OperandOf(level, r.0) && PairsOf(level, r.1)
    ensures FoldLeft(r.0, r.1) == t
    ensures Flatten(t) == Flatten(r.0) + FlattenPairs(r.1)
  {
    var n := t.value;
    if n.BinOpNode? && n.opTok.kind in Ops(level) then
      assert !OperandOf(level, t) by {
        if level == ExprLevel {
          assert !Shaped(TermLevel, t);
        }
      }
      assert Complete(n.leftNode) && Complete(n.rightNode);
      var (o, pairs) := Spine(level, n.leftNode);
      SpineStep(level, t, o, pairs);
      (o, pairs + [(n.opTok, n.rightNode.value)])
    else
      assert OperandOf(level, t);
      (t, [])
  }

  /** One more step down the left spine: the node's operator and right
      operand join the pairs of its left side. */
  lemma SpineStep(level: Level, t: Option<Node>, o: Option<Node>, pairs: seq<(Token, Node)>)
    requires t.Some? && t.value.BinOpNode? && t.value.opTok.kind in Ops(level)
    requires Complete(t.value.rightNode) && OperandOf(level, t.value.rightNode)
    requires PairsOf(level, pairs) && FoldLeft(o, pairs) == t.value.leftNode
    requires Flatten(t.value.leftNode) == Flatten(o) + FlattenPairs(pairs)
    ensures var x := (t.value.opTok, t.value.rightNode.value);
            && PairsOf(level, pairs + [x])
            && FoldLeft(o, pairs + [x]) == t
            && Flatten(t) == Flatten(o) + FlattenPairs(pairs + [x])
  {
    var n := t.value;
    var x := (n.opTok, n.rightNode.value);
    FoldLeftSnoc(o, pairs, x);
    FlattenPairsSnoc(pairs, x);
    assert Flatten(t) == Flatten(n.leftNode) + [n.opTok] + Flatten(n.rightNode);
    Assoc4(Flatten(o), FlattenPairs(pairs), [n.opTok], Flatten(n.rightNode));
    assert forall i | 0 <= i < |pairs| :: (pairs + [x])[i] == pairs[i];
  }

  /** An operand at a level, followed by tokens that do not continue it,
      parses to itself and ends right after its tokens. */
  lemma {:induction false} OperandParses(level: Level, o: Option<Node>, p: Parser, rest: seq<Token>)
    requires Valid(p) && Complete(o) && OperandOf(level, o)
    requires p.tokens[p.tokIdx..] == Flatten(o) + rest
    requires level == ExprLevel ==> !StartsWithOp(TermLevel, rest)
    decreases Rank(level), Remaining(p), 1
    ensures Operand(level, p).Returned? && Operand(level, p).value.0 == o
    ensures Operand(level, p).value.1.tokIdx == p.tokIdx + |Flatten(o)|
  {
    if level == TermLevel {
      assert p.tokens[p.tokIdx] == o.value.tok;
    } else {
      BinOpParses(TermLevel, o, p, rest);
    }
  }

  /** A complete tree of a level, followed by tokens that stop its loop,
      parses to itself and ends right after its tokens. */
  lemma {:induction false} BinOpParses(level: Level, t: Option<Node>, p: Parser, rest: seq<Token>)
    requires Valid(p) && Complete(t) && Shaped(level, t)
    requires p.tokens[p.tokIdx..] == Flatten(t) + rest
    requires StopsBefore(level, rest)
    decreases Rank(level), Remaining(p), 2
    ensures BinOp(level, p).Returned? && BinOp(level, p).value.0 == t
    ensures BinOp(level, p).value.1.tokIdx == p.tokIdx + |Flatten(t)|
  {
    var (o, pairs) := Spine(level, t);
    var after := FlattenPairs(pairs) + rest;
    Assoc3(Flatten(o), FlattenPairs(pairs), rest);
    if level == ExprLevel {
      PairsStopTerm(pairs, rest);
    }
    OperandParses(level, o, p, after);
    var q := Operand(level, p).value.1;
    SliceRest(p.tokens, p.tokIdx, Flatten(o), after);
    assert Valid(q);
    assert q.tokens == p.tokens;
    assert q.tokIdx == p.tokIdx + |Flatten(o)|;
    assert q.tokens[q.tokIdx..] == after;
    LoopParses(level, o, pairs, q, rest);
    assert BinOp(level, p) == Loop(level, o, q);
  }

  /** Past a term, an `expr` pair starts with `+` or `-`, never `*` or `/`. */
  lemma PairsStopTerm(pairs: seq<(Token, Node)>, rest: seq<Token>)
    requires PairsOf(ExprLevel, pairs) && StopsBefore(ExprLevel, rest)
    ensures !StartsWithOp(TermLevel, FlattenPairs(pairs) + rest)
  {
    if pairs != [] {
      assert (FlattenPairs(pairs) + rest)[0] == pairs[0].0;
    }
  }

  lemma SliceRest(tokens: seq<Token>, i: int, w: seq<Token>, rest: seq<Token>)
    requires 0 <= i <= |tokens| && tokens[i..] == w + rest
    ensures i + |w| <= |tokens| && tokens[i + |w|..] == rest
  {
    assert tokens[i + |w|..] == tokens[i..][|w|..];
  }

  /** The loop over the tokens of operator/operand pairs, followed by tokens
      that stop it, folds exactly those pairs. */
  lemma {:induction false} LoopParses(level: Level, acc: Option<Node>, pairs: seq<(Token, Node)>, p: Parser, rest: seq<Token>)
    requires Valid(p) && PairsOf(level, pairs)
    requires p.tokens[p.tokIdx..] == FlattenPairs(pairs) + rest
    requires StopsBefore(level, rest)
    decreases Rank(level), Remaining(p), 0
    ensures Loop(level, acc, p).Returned? && Loop(level, acc, p).value.0 == FoldLeft(acc, pairs)
    ensures Loop(level, acc, p).value.1.tokIdx == p.tokIdx + |FlattenPairs(pairs)|
  {
    if pairs == [] {
      assert p.tokens[p.tokIdx..] == rest;
      assert p.tokIdx < |p.tokens| ==> p.tokens[p.tokIdx] == rest[0];
    } else {
      var (opTok, o) := pairs[0];
      var after := FlattenPairs(pairs[1..]) + rest;
      PairsTail(level, pairs);
      PairSplit(p, pairs, rest);
      var q := Advance(p);
      if level == ExprLevel {
        PairsStopTerm(pairs[1..], rest);
      }
      OperandParses(level, Some(o), q, after);
      var q2 := Operand(level, q).value.1;
      SliceRest(q.tokens, q.tokIdx, Flatten(Some(o)), after);
      LoopParses(level, Some(BinOpNode(acc, opTok, Some(o))), pairs[1..], q2, rest);
      assert Loop(level, acc, p) == Loop(level, Some(BinOpNode(acc, opTok, Some(o))), q2);
    }
  }

  /** The pairs after the first are again pairs of the level. */
  lemma PairsTail(level: Level, pairs: seq<(Token, Node)>)
    requires PairsOf(level, pairs) && pairs != []
    ensures PairsOf(level, pairs[1..])
    ensures pairs[0].0.kind in Ops(level) && Complete(Some(pairs[0].1)) && OperandOf(level, Some(pairs[0].1))
  {
    forall i | 0 <= i < |pairs[1..]|
      ensures pairs[1..][i].0.kind in Ops(level) && Complete(Some(pairs[1..][i].1)) && OperandOf(level, Some(pairs[1..][i].1))
    {
      assert pairs[1..][i] == pairs[i + 1];
    }
  }

  /** On the tokens of some pairs the parser stands on the first operator,
      and one step on it stands on the first operand. */
  lemma PairSplit(p: Parser, pairs: seq<(Token, Node)>, rest: seq<Token>)
    requires Valid(p) && pairs != [] && p.tokens[p.tokIdx..] == FlattenPairs(pairs) + rest
    ensures p.tokIdx < |p.tokens| && p.tokens[p.tokIdx] == pairs[0].0
    ensures p.tokens[p.tokIdx + 1..] == Flatten(Some(pairs[0].1)) + (FlattenPairs(pairs[1..]) + rest)
  {
    var a, b, c := [pairs[0].0], Flatten(Some(pairs[0].1)), FlattenPairs(pairs[1..]);
    assert FlattenPairs(pairs) == (a + b) + c;
    Assoc4(a, b, c, rest);
    SliceRest(p.tokens, p.tokIdx, a, b + (c + rest));
  }

  /** Parsing the tokens of a complete `expr`-shaped tree, followed by tokens
      that are no operator, gives the tree back, whatever those tokens are. */
  lemma ParseFlatten(t: Option<Node>, rest: seq<Token>)
    requires Complete(t) && Shaped(ExprLevel, t) && StopsBefore(ExprLevel, rest)
    ensures Parse(NewParser(Flatten(t) + rest)).Returned?
    ensures Parse(NewParser(Flatten(t) + rest)).value.0 == t
    ensures Parse(NewParser(Flatten(t) + rest)).value.1.tokIdx == |Flatten(t)|
  {
    var p := NewParser(Flatten(t) + rest);
    assert p.tokens[p.tokIdx..] == Flatten(t) + rest;
    BinOpParses(ExprLevel, t, p, rest);
  }

  /** A factor is a tree of every level. */
  lemma FactorShaped(level: Level, n: Option<Node>)
    requires IsFactor(n)
    ensures OperandOf(level, n) && Shaped(level, n)
  {
    assert OperandOf(TermLevel, n);
    assert Shaped(TermLevel, n);
  }

  /** A term is a tree of `expr`'s shape too. */
  lemma TermShaped(n: Option<Node>)
    requires Shaped(TermLevel, n)
    ensures OperandOf(ExprLevel, n) && Shaped(ExprLevel, n)
  {
  }

  /** Two operators of one level group to the left: `a o1 b o2 c` is
      `(a o1 b) o2 c`. */
  lemma SameLevelLeansLeft(level: Level, a: Token, o1: Token, b: Token, o2: Token, c: Token)
    requires IsNumberToken(a) && IsNumberToken(b) && IsNumberToken(c)
    requires o1.kind in Ops(level) && o2.kind in Ops(level)
    ensures Parse(NewParser([a, o1, b, o2, c])).Returned?
    ensures Parse(NewParser([a, o1, b, o2, c])).value.0 ==
            Some(BinOpNode(Some(BinOpNode(Some(NumberNode(a)), o1, Some(NumberNode(b)))), o2, Some(NumberNode(c))))
    ensures Parse(NewParser([a, o1, b, o2, c])).value.1.tokIdx == 5
  {
    var na, nb, nc := Some(NumberNode(a)), Some(NumberNode(b)), Some(NumberNode(c));
    FactorShaped(level, na);
    FactorShaped(level, nb);
    FactorShaped(level, nc);
    var ab := Some(BinOpNode(na, o1, nb));
    var t := Some(BinOpNode(ab, o2, nc));
    assert Shaped(level, ab);
    assert Shaped(level, t);
    if level == TermLevel {
      TermShaped(t);
    }
    assert Flatten(ab) == [a, o1, b];
    assert Flatten(t) + [] == [a, o1, b, o2, c];
    ParseFlatten(t, []);
  }

  /** `*` and `/` bind tighter than `+` and `-`, on either side. */
  lemma ProductsBindTighter(a: Token, o1: Token, b: Token, o2: Token, c: Token)
    requires IsNumberToken(a) && IsNumberToken(b) && IsNumberToken(c)
    ensures o1.kind in Ops(ExprLevel) && o2.kind in Ops(TermLevel) ==>
              Parse(NewParser([a, o1, b, o2, c])).Returned? &&
              Parse(NewParser([a, o1, b, o2, c])).value.0 ==
                Some(BinOpNode(Some(NumberNode(a)), o1, Some(BinOpNode(Some(NumberNode(b)), o2, Some(NumberNode(c))))))
    ensures o1.kind in Ops(TermLevel) && o2.kind in Ops(ExprLevel) ==>
              Parse(NewParser([a, o1, b, o2, c])).Returned? &&
              Parse(NewParser([a, o1, b, o2, c])).value.0 ==
                Some(BinOpNode(Some(BinOpNode(Some(NumberNode(a)), o1, Some(NumberNode(b)))), o2, Some(NumberNode(c))))
  {
    var na, nb, nc := Some(NumberNode(a)), Some(NumberNode(b)), Some(NumberNode(c));
    FactorShaped(TermLevel, na);
    FactorShaped(TermLevel, nb);
    FactorShaped(TermLevel, nc);
    FactorShaped(ExprLevel, na);
    FactorShaped(ExprLevel, nc);
    if o1.kind in Ops(ExprLevel) && o2.kind in Ops(TermLevel) {
      var bc := Some(BinOpNode(nb, o2, nc));
      var t := Some(BinOpNode(na, o1, bc));
      assert Shaped(TermLevel, bc);
      TermShaped(bc);
      assert Shaped(ExprLevel, t);
      assert Flatten(bc) == [b, o2, c];
      assert Flatten(t) + [] == [a, o1, b, o2, c];
      ParseFlatten(t, []);
    }
    if o1.kind in Ops(TermLevel) && o2.kind in Ops(ExprLevel) {
      var ab := Some(BinOpNode(na, o1, nb));
      var t := Some(BinOpNode(ab, o2, nc));
      assert Shaped(TermLevel, ab);
      TermShaped(ab);
      assert Shaped(ExprLevel, t);
      assert Flatten(ab) == [a, o1, b];
      assert Flatten(t) + [] == [a, o1, b, o2, c];
      ParseFlatten(t, []);
    }
  }

  // ---------------------------------------------------------------------
  // An operator with nothing after it.

  /** Past the last token every operand raises, since `factor` reads the
      type of no token. */
  lemma OperandAtEnd(level: Level, p: Parser)
    requires Valid(p) && p.tokIdx == |p.tokens|
    ensures Operand(level, p) == Raised(NO_TYPE)
  {
    assert Factor(p) == Raised(NO_TYPE);
    assert Operand(TermLevel, p) == Raised(NO_TYPE);
  }

  /** `bin_op` raises with its first operand, and otherwise hands the operand
      and the state after it to the loop. */
  lemma BinOpUnfold(level: Level, p: Parser)
    requires Valid(p)
    ensures Operand(level, p).Raised? ==> BinOp(level, p) == Raised(Operand(level, p).exception)
    ensures Operand(level, p).Returned? ==>
              BinOp(level, p) == Loop(level, Operand(level, p).value.0, Operand(level, p).value.1)
  {
  }

  /** On an operator of its level the loop raises with the operand after it,
      and otherwise goes on with the tree grown by that operand. */
  lemma LoopUnfold(level: Level, acc: Option<Node>, p: Parser)
    requires Valid(p) && AtOp(level, p)
    ensures var next := Operand(level, Advance(p));
            && (next.Raised? ==> Loop(level, acc, p) == Raised(next.exception))
            && (next.Returned? ==>
                  Loop(level, acc, p) == Loop(level, Some(BinOpNode(acc, p.curTok.value, next.value.0)), next.value.1))
  {
  }

  /** A complete tree of a level followed by one operator that continues the
      level, or for `expr` also one of `term`'s: the operand the operator asks
      for is missing, so `bin_op` raises. */
  lemma {:induction false} BinOpDangles(level: Level, t: Option<Node>, p: Parser, o: Token)
    requires Valid(p) && Complete(t) && Shaped(level, t)
    requires p.tokens[p.tokIdx..] == Flatten(t) + [o]
    requires o.kind in Ops(level) || (level == ExprLevel && o.kind in Ops(TermLevel))
    decreases Rank(level), Remaining(p), 3
    ensures BinOp(level, p) == Raised(NO_TYPE)
  {
    var (first, pairs) := Spine(level, t);
    if pairs == [] && level == ExprLevel && o.kind in Ops(TermLevel) {
      assert Flatten(t) == Flatten(first);
      BinOpDangles(TermLevel, first, p, o);
      BinOpUnfold(level, p);
      assert Operand(level, p) == BinOp(TermLevel, p);
    } else {
      Assoc3(Flatten(first), FlattenPairs(pairs), [o]);
      OperandThenLoopDangles(level, first, pairs, p, o);
    }
  }

  /** The first operand of such a tree parses, and the loop after it raises. */
  lemma {:induction false} OperandThenLoopDangles(level: Level, first: Option<Node>, pairs: seq<(Token, Node)>, p: Parser, o: Token)
    requires Valid(p) && Complete(first) && OperandOf(level, first) && PairsOf(level, pairs)
    requires p.tokens[p.tokIdx..] == Flatten(first) + (FlattenPairs(pairs) + [o])
    requires o.kind in Ops(level) || (level == ExprLevel && o.kind in Ops(TermLevel))
    requires pairs == [] ==> o.kind in Ops(level)
    decreases Rank(level), Remaining(p), 2
    ensures BinOp(level, p) == Raised(NO_TYPE)
  {
    var after := FlattenPairs(pairs) + [o];
    if pairs != [] {
      assert after[0] == pairs[0].0;
    }
    OperandParses(level, first, p, after);
    var q := Operand(level, p).value.1;
    SliceRest(p.tokens, p.tokIdx, Flatten(first), after);
    LoopDangles(level, first, pairs, q, o);
    BinOpUnfold(level, p);
  }

  /** The loop over operator/operand pairs followed by such an operator
      raises where the last operand is missing. */
  lemma {:induction false} LoopDangles(level: Level, acc: Option<Node>, pairs: seq<(Token, Node)>, p: Parser, o: Token)
    requires Valid(p) && PairsOf(level, pairs)
    requires p.tokens[p.tokIdx..] == FlattenPairs(pairs) + [o]
    requires o.kind in Ops(level) || (level == ExprLevel && o.kind in Ops(TermLevel))
    requires pairs == [] ==> o.kind in Ops(level)
    decreases Rank(level), Remaining(p), 1
    ensures Loop(level, acc, p) == Raised(NO_TYPE)
  {
    if pairs == [] {
      assert p.tokens[p.tokIdx..] == [o];
      LoopUnfold(level, acc, p);
      OperandAtEnd(level, Advance(p));
    } else {
      PairsTail(level, pairs);
      PairSplit(p, pairs, [o]);
      LoopStepDangles(level, acc, pairs, p, o);
    }
  }

  /** One turn of that loop: the operator is taken, and either its operand is
      the last term before a `*` or `/` with nothing after it, or it parses and
      the loop goes on. */
  lemma {:induction false} LoopStepDangles(level: Level, acc: Option<Node>, pairs: seq<(Token, Node)>, p: Parser, o: Token)
    requires Valid(p) && pairs != [] && PairsOf(level, pairs[1..])
    requires pairs[0].0.kind in Ops(level) && Complete(Some(pairs[0].1)) && OperandOf(level, Some(pairs[0].1))
    requires p.tokIdx < |p.tokens| && p.tokens[p.tokIdx] == pairs[0].0
    requires p.tokens[p.tokIdx + 1..] == Flatten(Some(pairs[0].1)) + (FlattenPairs(pairs[1..]) + [o])
    requires o.kind in Ops(level) || (level == ExprLevel && o.kind in Ops(TermLevel))
    decreases Rank(level), Remaining(p), 0
    ensures Loop(level, acc, p) == Raised(NO_TYPE)
  {
    var (opTok, right) := pairs[0];
    var q := Advance(p);
    LoopUnfold(level, acc, p);
    if pairs[1..] == [] && level == ExprLevel && o.kind in Ops(TermLevel) {
      assert q.tokens[q.tokIdx..] == Flatten(Some(right)) + [o];
      BinOpDangles(TermLevel, Some(right), q, o);
      assert Operand(level, q) == BinOp(TermLevel, q);
    } else {
      OperandThenLoopGoesOn(level, acc, opTok, right, pairs[1..], q, o);
    }
  }

  /** The operand after the operator parses, and the loop goes on to raise. */
  lemma {:induction false} OperandThenLoopGoesOn(level: Level, acc: Option<Node>, opTok: Token, right: Node,
                                                 pairs: seq<(Token, Node)>, q: Parser, o: Token)
    requires Valid(q) && PairsOf(level, pairs) && Complete(Some(right)) && OperandOf(level, Some(right))
    requires q.tokens[q.tokIdx..] == Flatten(Some(right)) + (FlattenPairs(pairs) + [o])
    requires o.kind in Ops(level) || (level == ExprLevel && o.kind in Ops(TermLevel))
    requires pairs == [] ==> o.kind in Ops(level)
    decreases Rank(level), Remaining(q), 2
    ensures Operand(level, q).Returned?
    ensures Loop(level, Some(BinOpNode(acc, opTok, Operand(level, q).value.0)), Operand(level, q).value.1) == Raised(NO_TYPE)
  {
    var after := FlattenPairs(pairs) + [o];
    if pairs != [] {
      assert after[0] == pairs[0].0;
    }
    OperandParses(level, Some(right), q, after);
    var q2 := Operand(level, q).value.1;
    SliceRest(q.tokens, q.tokIdx, Flatten(Some(right)), after);
    LoopDangles(level, Some(BinOpNode(acc, opTok, Some(right))), pairs, q2, o);
  }

  /** No tokens at all, or a complete expression followed by an operator with
      nothing after it, makes `factor` raise. */
  lemma ParseRunsOut(t: Option<Node>, o: Token)
    requires Complete(t) && Shaped(ExprLevel, t) && o.kind in Ops(ExprLevel) + Ops(TermLevel)
    ensures Parse(NewParser([])) == Raised(NO_TYPE)
    ensures Parse(NewParser(Flatten(t) + [o])) == Raised(NO_TYPE)
  {
    OperandAtEnd(ExprLevel, NewParser([]));
    var p := NewParser(Flatten(t) + [o]);
    assert p.tokens[p.tokIdx..] == Flatten(t) + [o];
    BinOpDangles(ExprLevel, t, p, o);
  }
}
