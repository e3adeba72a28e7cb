/**
  The tree-walking evaluator of `basiclang/interpreter.py`, which carries its
  own `RTResult` and a context-free `Number`. `EvalAsWritten` follows the
  code line by line, defects included; `Eval` is the evaluator the code
  evidently means, and the rest of the model is about `Eval`.
 */
module Interpreting {

  import opened Wrappers
  import opened Exceptions
  import opened Positions
  import opened Tokens
  import opened Errors
  import opened Nodes
  import opened Values
  import RTResults
  import Lexing
  import Parsing

  /** The interpreter's `Number`: a value and a span, either end possibly unset. */
  datatype Number = Number(value: Value, posStart: Option<Position>, posEnd: Option<Position>)

  /** `Number(value)`: no span yet. */
  function NewNumber(value: Value): (n: Number)
    ensures n.value == value && n.posStart.None? && n.posEnd.None?
  {
    Number(value, None, None)
  }

  /** `set_pos(pos_start, pos_end)`: replaces the span, keeps the value. */
  function SetPos(n: Number, posStart: Option<Position>, posEnd: Option<Position>): (r: Number)
    ensures r.value == n.value && r.posStart == posStart && r.posEnd == posEnd
  {
    n.(posStart := posStart, posEnd := posEnd)
  }

  /** What an operation answers: a number or a runtime error. */
  datatype OpResult = OpResult(number: Option<Number>, error: Option<RTError>)

  /** A number, unplaced, and no error. */
  predicate Fresh(o: OpResult)
  {
    o.number.Some? && o.error.None? && o.number.value.posStart.None? && o.number.value.posEnd.None?
  }

  /** `add`, `sub` and `mul`: Python's operator on the two values. */
  function Apply(op: ArithOp, self: Number, other: Number): (r: Completion<OpResult>)
    requires op == Plus || op == Minus || op == Times
    ensures r.Raised? <==> !Numeric(self.value, other.value) || ConversionOverflows(self.value, other.value)
    ensures r.Raised? && !Numeric(self.value, other.value) ==> r.exception == Unsupported(op, self.value, other.value)
    ensures r.Raised? && Numeric(self.value, other.value) ==> r.exception == INT_TOO_LARGE
    ensures r.Returned? ==> Fresh(r.value) && Returned(r.value.number.value.value) == Arith(op, self.value, other.value)
  {
    var v :- Arith(op, self.value, other.value);
    Returned(OpResult(Some(NewNumber(v)), None))
  }

  /** `div`: a runtime error spanning the divisor when it equals zero (with
      no context: this `RTError` is built from three arguments), Python's
      true division otherwise. */
  function Div(fo: FloatOracle, self: Number, other: Number): (r: Completion<OpResult>)
    ensures IsZero(fo, other.value) ==>
              r == Returned(OpResult(None, Some(RTError(other.posStart, other.posEnd, DIVISION_BY_ZERO, None))))
    ensures !IsZero(fo, other.value) ==>
              (r.Raised? <==> !Numeric(self.value, other.value) || DivisionOverflows(self.value, other.value))
    ensures r.Raised? && Numeric(self.value, other.value) ==> r.exception.OverflowError?
    ensures !IsZero(fo, other.value) && r.Returned? ==> Fresh(r.value) && r.value.number.value.value.FloatV?
  {
    if IsZero(fo, other.value) then
      Returned(OpResult(None, Some(RTError(other.posStart, other.posEnd, DIVISION_BY_ZERO, None))))
    else
      var v :- TrueDivide(fo, self.value, other.value);
      Returned(OpResult(Some(NewNumber(v)), None))
  }

  /** The dispatch on the operator token's type in `visit_BinOpNode`. On any
      other type no branch assigns `error`, and reading it raises. */
  function Operate(fo: FloatOracle, kind: TokenType, left: Number, right: Number): (r: Completion<OpResult>)
    ensures r.Returned? ==> (r.value.number.Some? <==> r.value.error.None?)
    ensures r.Returned? && r.value.error.Some? ==>
              kind == DIV && r.value.error.value == RTError(right.posStart, right.posEnd, DIVISION_BY_ZERO, None)
    ensures !(kind in {PLUS, MINUS, MUL, DIV}) ==> r == Raised(UnboundLocalError("error"))
  {
    match kind
    case PLUS => Apply(Plus, left, right)
    case MINUS => Apply(Minus, left, right)
    case MUL => Apply(Times, left, right)
    case DIV => Div(fo, left, right)
    case _ => Raised(UnboundLocalError("error"))
  }

  /** What `RTResult.error` can hold here: the runtime error an operation
      reported, or the `os.error` class that `register` stores by mistake. */
  datatype ErrorSlot = RuntimeError(error: RTError) | OsErrorAlias

  type Result = RTResults.RTResult<Number, ErrorSlot>

  /** Exactly one of value and error is set. */
  predicate Settled(r: Result)
  {
    r.value.Some? <==> r.error.None?
  }

  /** A token's literal as a runtime value; no literal is `None`. */
  function ValueOf(v: TokenValue): Value
  {
    match v
    case NoValue => NoneV
    case IntValue(i) => IntV(i)
    case FloatValue(digits) => FloatV(FloatLiteral(digits))
  }

  // ---------------------------------------------------------------------
  // The evaluator as the code is written.

  /** The interpreter's `register`: when `res` has an error it stores the
      `os.error` class, not that error. */
  function RegisterAsWritten(self: Result, res: Result): (r: (Result, Option<Number>))
    ensures r.1 == res.value && r.0.value == self.value
    ensures r.0.error == if res.error.Some? then Some(OsErrorAlias) else self.error
  {
    if res.error.Some? then (self.(error := Some(OsErrorAlias)), res.value) else (self, res.value)
  }

  /** `Interpreter.visit` as written. A token whose constructor got no
      position has no `pos_start` attribute; the node classes never define
      `pos_start`, so stamping a binary or unary result raises; and a unary
      operator other than `-` leaves `err` unassigned. Only a number node
      ever yields a value, and the only error an answer carries is a runtime
      error from a division directly below, or the `os.error` alias. */
  function EvalAsWritten(fo: FloatOracle, n: Option<Node>): (r: Completion<Result>)
    ensures r.Returned? ==> Settled(r.value)
    ensures r.Returned? && r.value.value.Some? ==> n.Some? && n.value.NumberNode?
    ensures r.Returned? && r.value.error.Some? && r.value.error.value.RuntimeError? ==>
              n.Some? && n.value.BinOpNode? && n.value.opTok.kind == DIV
    decreases n
  {
    match n
    case None => Raised(NoVisitMethod("NoneType"))
    case Some(NumberNode(tok)) =>
      if tok.posStart.None? then Raised(AttributeError("Token", "pos_start"))
      else if tok.posEnd.None? then Raised(AttributeError("Token", "pos_end"))
      else Returned(RTResults.Success(RTResults.NewResult(), SetPos(NewNumber(ValueOf(tok.value)), tok.posStart, tok.posEnd)))
    case Some(BinOpNode(l, op, rn)) =>
      var lr :- EvalAsWritten(fo, l);
      var left := RegisterAsWritten(RTResults.NewResult(), lr);
      if left.0.error.Some? then Returned(left.0)
      else
        var rr :- EvalAsWritten(fo, rn);
        var right := RegisterAsWritten(left.0, rr);
        if right.0.error.Some? then Returned(right.0)
        else
          var o :- Operate(fo, op.kind, left.1.value, right.1.value);
          if o.error.Some? then Returned(RTResults.Failure(right.0, RuntimeError(o.error.value)))
          else Raised(AttributeError("BinOpNode", "pos_start"))
    case Some(UnaryOpNode(op, c)) =>
      var cr :- EvalAsWritten(fo, c);
      var operand := RegisterAsWritten(RTResults.NewResult(), cr);
      if operand.0.error.Some? then Returned(operand.0)
      else if op.kind == MINUS then
        var _ :- Apply(Times, operand.1.value, NewNumber(IntV(-1)));
        Raised(AttributeError("UnaryOpNode", "pos_start"))
      else Raised(UnboundLocalError("err"))
  }

  // ---------------------------------------------------------------------
  // The evaluator as evidently intended.

  /** `-x` is `x * -1`; any other unary operator leaves the operand alone. */
  function Negate(kind: TokenType, v: Number): (r: Completion<Number>)
    ensures kind == MINUS ==> (r.Raised? <==> v.value.NoneV?)
    ensures kind == MINUS && r.Returned? ==> Returned(r.value.value) == Arith(Times, v.value, IntV(-1))
    ensures kind != MINUS ==> r == Returned(v)
  {
    if kind == MINUS then
      var o :- Apply(Times, v, NewNumber(IntV(-1)));
      Returned(o.number.value)
    else Returned(v)
  }

  /** `Interpreter.visit` with the defects repaired: `register` adopts the
      error it is handed, a unary operator other than `-` passes its operand
      through, a binary or unary result spans its tree (`Start` to `End`),
      and a token without a position stamps an unset span. Every answer
      settles exactly one of value and error; a value spans its tree; the
      only error is a division by zero. */
  function Eval(fo: FloatOracle, n: Option<Node>): (r: Completion<Result>)
    ensures r.Returned? ==> Settled(r.value)
    ensures r.Returned? && r.value.value.Some? ==>
              r.value.value.value.posStart == Start(n) && r.value.value.value.posEnd == End(n)
    ensures r.Returned? && r.value.error.Some? ==>
              r.value.error.value.RuntimeError? && r.value.error.value.error.details == DIVISION_BY_ZERO
    decreases n
  {
    match n
    case None => Raised(NoVisitMethod("NoneType"))
    case Some(NumberNode(tok)) =>
      Returned(RTResults.Success(RTResults.NewResult(), SetPos(NewNumber(ValueOf(tok.value)), tok.posStart, tok.posEnd)))
    case Some(BinOpNode(l, op, rn)) =>
      var lr :- Eval(fo, l);
      var left := RTResults.Register(RTResults.NewResult(), lr);
      if left.0.error.Some? then Returned(left.0)
      else
        var rr :- Eval(fo, rn);
        var right := RTResults.Register(left.0, rr);
        if right.0.error.Some? then Returned(right.0)
        else
          var o :- Operate(fo, op.kind, left.1.value, right.1.value);
          if o.error.Some? then Returned(RTResults.Failure(right.0, RuntimeError(o.error.value)))
          else Returned(RTResults.Success(right.0, SetPos(o.number.value, Start(n), End(n))))
    case Some(UnaryOpNode(op, c)) =>
      var cr :- Eval(fo, c);
      var operand := RTResults.Register(RTResults.NewResult(), cr);
      if operand.0.error.Some? then Returned(operand.0)
      else
        var v :- Negate(op.kind, operand.1.value);
        Returned(RTResults.Success(RTResults.NewResult(), SetPos(v, Start(n), End(n))))
  }

  /** A value and no error. */
  function Ok(v: Value, posStart: Option<Position>, posEnd: Option<Position>): Result
  {
    RTResults.RTResult(Some(Number(v, posStart, posEnd)), None)
  }

  /** An error and no value. */
  function Err(e: ErrorSlot): Result
  {
    RTResults.RTResult(None, Some(e))
  }

  /** Trees of integer literals under `+`, `-`, `*` and unary operators. */
  predicate IntTree(n: Option<Node>)
  {
    match n
    case None => false
    case Some(NumberNode(tok)) => tok.value.IntValue?
    case Some(BinOpNode(l, op, r)) => op.kind in {PLUS, MINUS, MUL} && IntTree(l) && IntTree(r)
    case Some(UnaryOpNode(_, c)) => IntTree(c)
  }

  /** The integer such a tree means, by the usual arithmetic. */
  function Denote(n: Option<Node>): int
    requires IntTree(n)
  {
    match n.value
    case NumberNode(tok) => tok.value.i
    case BinOpNode(l, op, r) =>
      if op.kind == PLUS then Denote(l) + Denote(r)
      else if op.kind == MINUS then Denote(l) - Denote(r)
      else Denote(l) * Denote(r)
    case UnaryOpNode(op, c) => if op.kind == MINUS then -Denote(c) else Denote(c)
  }

  /** On an integer tree the evaluator computes the tree's meaning, spanning
      the whole tree. */
  lemma {:induction false} EvalDenotes(fo: FloatOracle, n: Option<Node>)
    requires IntTree(n)
    ensures Eval(fo, n) == Returned(Ok(IntV(Denote(n)), Start(n), End(n)))
  {
    match n.value
    case NumberNode(tok) =>
    case BinOpNode(l, op, r) =>
      EvalDenotes(fo, l);
      EvalDenotes(fo, r);
    case UnaryOpNode(op, c) =>
      EvalDenotes(fo, c);
  }

  /** An error from the left operand is the answer, whatever the right
      operand would do (even raise): it is never evaluated. */
  lemma LeftErrorWins(fo: FloatOracle, l: Option<Node>, op: Token, r: Option<Node>)
    requires Eval(fo, l).Returned? && Eval(fo, l).value.error.Some?
    ensures Eval(fo, Some(BinOpNode(l, op, r))) == Returned(Err(Eval(fo, l).value.error.value))
  {
  }

  /** An error from the right operand, after a left operand with a value, is
      the answer. */
  lemma RightErrorWins(fo: FloatOracle, l: Option<Node>, op: Token, r: Option<Node>)
    requires Eval(fo, l).Returned? && Eval(fo, l).value.value.Some?
    requires Eval(fo, r).Returned? && Eval(fo, r).value.error.Some?
    ensures Eval(fo, Some(BinOpNode(l, op, r))) == Returned(Err(Eval(fo, r).value.error.value))
  {
  }

  /** Dividing by an operand that equals zero is reported as a runtime error
      spanning that operand. */
  lemma DivisionByZeroSpansDivisor(fo: FloatOracle, l: Option<Node>, op: Token, r: Option<Node>)
    requires op.kind == DIV
    requires Eval(fo, l).Returned? && Eval(fo, l).value.value.Some?
    requires Eval(fo, r).Returned? && Eval(fo, r).value.value.Some?
    requires IsZero(fo, Eval(fo, r).value.value.value.value)
    ensures Eval(fo, Some(BinOpNode(l, op, r)))
            == Returned(Err(RuntimeError(RTError(Start(r), End(r), DIVISION_BY_ZERO, None))))
  {
  }

  /** Two operands with values under `+`, `-` or `*` give Python's operator
      on the values, spanning the whole tree, or its `TypeError` on `None`. */
  lemma ArithmeticDispatch(fo: FloatOracle, l: Option<Node>, op: Token, r: Option<Node>, aop: ArithOp)
    requires (op.kind, aop) in {(PLUS, Plus), (MINUS, Minus), (MUL, Times)}
    requires Eval(fo, l).Returned? && Eval(fo, l).value.value.Some?
    requires Eval(fo, r).Returned? && Eval(fo, r).value.value.Some?
    ensures var a, b := Eval(fo, l).value.value.value.value, Eval(fo, r).value.value.value.value;
            var n := Some(BinOpNode(l, op, r));
            match Arith(aop, a, b)
            case Raised(e) => Eval(fo, n) == Raised(e)
            case Returned(v) => Eval(fo, n) == Returned(Ok(v, Start(n), End(n)))
  {
  }

  // ---------------------------------------------------------------------
  // Where the code as written and the intended evaluator part.

  /** A position, for the examples. */
  const HERE: Position := Position(0, 0, 0, "<stdin>", "")

  /** An integer token placed at `HERE`, as a lexer that passes positions
      would make it. */
  function PlacedInt(i: int): Token
  {
    Token(INT, IntValue(i), Some(HERE), Some(HERE))
  }

  function OpToken(kind: TokenType): Token
  {
    Token(kind, NoValue, None, None)
  }

  function Leaf(i: int): Option<Node>
  {
    Some(NumberNode(PlacedInt(i)))
  }

  /** `(1 / 0) + 1`: the as-written `register` replaces the division error
      by the `os.error` class, so the runtime error is lost. */
  lemma RegisterLosesError(fo: FloatOracle)
    ensures var n := Some(BinOpNode(Some(BinOpNode(Leaf(1), OpToken(DIV), Leaf(0))), OpToken(PLUS), Leaf(1)));
            EvalAsWritten(fo, n) == Returned(Err(OsErrorAlias))
  {
  }

  /** The same tree under the intended `register`: the division error, spanning
      the zero, comes out. */
  lemma RegisterKeepsError(fo: FloatOracle)
    ensures var n := Some(BinOpNode(Some(BinOpNode(Leaf(1), OpToken(DIV), Leaf(0))), OpToken(PLUS), Leaf(1)));
            Eval(fo, n) == Returned(Err(RuntimeError(RTError(Some(HERE), Some(HERE), DIVISION_BY_ZERO, None))))
  {
    var inner := Some(BinOpNode(Leaf(1), OpToken(DIV), Leaf(0)));
    DivisionByZeroSpansDivisor(fo, Leaf(1), OpToken(DIV), Leaf(0));
    LeftErrorWins(fo, inner, OpToken(PLUS), Leaf(1));
  }

  /** `+5` as written: `err` was never assigned. */
  lemma UnaryPlusUnbound(fo: FloatOracle)
    ensures EvalAsWritten(fo, Some(UnaryOpNode(OpToken(PLUS), Leaf(5)))) == Raised(UnboundLocalError("err"))
  {
  }

  /** `+5` as intended: 5, spanning the tree. */
  lemma UnaryPlusPassesThrough(fo: FloatOracle)
    ensures var n := Some(UnaryOpNode(OpToken(PLUS), Leaf(5)));
            Eval(fo, n) == Returned(Ok(IntV(5), None, Some(HERE)))
  {
  }

  /** `1 + 2` and `-2` as written: the result cannot be stamped, because the
      node has no `pos_start`. */
  lemma NodeHasNoSpan(fo: FloatOracle)
    ensures EvalAsWritten(fo, Some(BinOpNode(Leaf(1), OpToken(PLUS), Leaf(2)))) == Raised(AttributeError("BinOpNode", "pos_start"))
    ensures EvalAsWritten(fo, Some(UnaryOpNode(OpToken(MINUS), Leaf(2)))) == Raised(AttributeError("UnaryOpNode", "pos_start"))
  {
  }

  /** `1 + 2` and `-2` as intended: 3 and -2, spanning their trees. */
  lemma NodeSpanDerived(fo: FloatOracle)
    ensures Eval(fo, Some(BinOpNode(Leaf(1), OpToken(PLUS), Leaf(2)))) == Returned(Ok(IntV(3), Some(HERE), Some(HERE)))
    ensures Eval(fo, Some(UnaryOpNode(OpToken(MINUS), Leaf(2)))) == Returned(Ok(IntV(-2), None, Some(HERE)))
  {
  }

  /** No number token of the tree carries a position, as with every token
      the lexer makes. */
  predicate Unplaced(n: Option<Node>)
  {
    match n
    case None => true
    case Some(NumberNode(tok)) => tok.posStart.None?
    case Some(BinOpNode(l, _, r)) => Unplaced(l) && Unplaced(r)
    case Some(UnaryOpNode(_, c)) => Unplaced(c)
  }

  /** As written, a tree of unplaced tokens always raises: its first number
      node has no `pos_start`, and a missing child has no visit method. */
  lemma {:induction false} UnplacedTreeRaises(fo: FloatOracle, n: Option<Node>)
    requires Unplaced(n)
    ensures EvalAsWritten(fo, n).Raised?
  {
    match n
    case None =>
    case Some(NumberNode(_)) =>
    case Some(BinOpNode(l, _, _)) => UnplacedTreeRaises(fo, l);
    case Some(UnaryOpNode(_, c)) => UnplacedTreeRaises(fo, c);
  }

  /** A tree whose tokens carry no span has none either. */
  lemma {:induction false} UnsetSpan(n: Option<Node>)
    requires forall t <- Flatten(n) :: t.posStart.None? && t.posEnd.None?
    ensures Start(n).None? && End(n).None?
  {
    match n
    case None =>
    case Some(NumberNode(tok)) => assert tok in Flatten(n);
    case Some(BinOpNode(l, op, r)) =>
      assert Flatten(n) == Flatten(l) + [op] + Flatten(r);
      UnsetSpan(l);
      UnsetSpan(r);
    case Some(UnaryOpNode(op, c)) =>
      assert Flatten(n) == [op] + Flatten(c);
      assert op in Flatten(n);
      UnsetSpan(c);
  }

  /** The tokens of a tree are those of its parts. */
  lemma {:induction false} LexableTokensUnplaced(n: Option<Node>)
    requires forall t <- Flatten(n) :: Lexing.Lexable(t)
    ensures Unplaced(n)
  {
    match n
    case None =>
    case Some(NumberNode(tok)) => assert tok in Flatten(n);
    case Some(BinOpNode(l, op, r)) =>
      assert Flatten(n) == Flatten(l) + [op] + Flatten(r);
      LexableTokensUnplaced(l);
      LexableTokensUnplaced(r);
    case Some(UnaryOpNode(op, c)) =>
      assert Flatten(n) == [op] + Flatten(c);
      LexableTokensUnplaced(c);
  }

  /** Lexing the text of a complete tree and parsing the tokens gives the
      tree back. */
  lemma LexThenParse(fn: string, t: Option<Node>)
    requires Complete(t) && Parsing.Shaped(Parsing.ExprLevel, t)
    requires forall tok <- Flatten(t) :: Lexing.Lexable(tok)
    ensures Lexing.Tokenize(fn, Lexing.Render(Flatten(t))) == Returned((Flatten(t), None))
    ensures Parsing.Parse(Parsing.NewParser(Flatten(t))).Returned?
    ensures Parsing.Parse(Parsing.NewParser(Flatten(t))).value.0 == t
  {
    Lexing.TokenizeRender(fn, Flatten(t));
    Parsing.ParseFlatten(t, []);
    assert Flatten(t) + [] == Flatten(t);
  }

  /** The tree `parse` builds from the tokens the lexer gives holds only
      tokens the lexer can produce. */
  lemma ParsedTokensLexable(fn: string, text: string)
    requires Lexing.Tokenize(fn, text).Returned? && Lexing.Tokenize(fn, text).value.1.None?
    requires Parsing.Parse(Parsing.NewParser(Lexing.Tokenize(fn, text).value.0)).Returned?
    ensures var tree := Parsing.Parse(Parsing.NewParser(Lexing.Tokenize(fn, text).value.0)).value.0;
            forall tok <- Flatten(tree) :: Lexing.Lexable(tok)
  {
    var ts := Lexing.Tokenize(fn, text).value.0;
    var p := Parsing.NewParser(ts);
    Parsing.ParseReads(p);
    var q := Parsing.Parse(p).value.1;
    assert Flatten(Parsing.Parse(p).value.0) == ts[0..q.tokIdx];
  }

  /** As written, every program the lexer and parser accept fails to
      evaluate: the lexer never gives its tokens a position. */
  lemma PipelineAsWrittenRaises(fn: string, fo: FloatOracle, text: string)
    requires Lexing.Tokenize(fn, text).Returned? && Lexing.Tokenize(fn, text).value.1.None?
    requires Parsing.Parse(Parsing.NewParser(Lexing.Tokenize(fn, text).value.0)).Returned?
    ensures var tree := Parsing.Parse(Parsing.NewParser(Lexing.Tokenize(fn, text).value.0)).value.0;
            EvalAsWritten(fo, tree).Raised?
  {
    var tree := Parsing.Parse(Parsing.NewParser(Lexing.Tokenize(fn, text).value.0)).value.0;
    ParsedTokensLexable(fn, text);
    LexableTokensUnplaced(tree);
    UnplacedTreeRaises(fo, tree);
  }

  /** As intended, lexing, parsing and evaluating a program whose tree is
      integer arithmetic gives its meaning, with the unset span the lexer's
      tokens carry. */
  lemma PipelineEvaluates(fn: string, fo: FloatOracle, text: string)
    requires Lexing.Tokenize(fn, text).Returned? && Lexing.Tokenize(fn, text).value.1.None?
    requires Parsing.Parse(Parsing.NewParser(Lexing.Tokenize(fn, text).value.0)).Returned?
    requires IntTree(Parsing.Parse(Parsing.NewParser(Lexing.Tokenize(fn, text).value.0)).value.0)
    ensures var tree := Parsing.Parse(Parsing.NewParser(Lexing.Tokenize(fn, text).value.0)).value.0;
            Eval(fo, tree) == Returned(Ok(IntV(Denote(tree)), None, None))
  {
    var tree := Parsing.Parse(Parsing.NewParser(Lexing.Tokenize(fn, text).value.0)).value.0;
    ParsedTokensLexable(fn, text);
    UnsetSpan(tree);
    EvalDenotes(fo, tree);
  }
}
