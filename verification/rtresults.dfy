/**
  `basiclang/rtresult.py`: the result record the evaluator threads through a
  visit, and the runtime `Number` with its arithmetic, comparison and logical
  operations. Every operation answers a pair: the new number (carrying the
  left operand's context and no span) or `None`, and a runtime error or
  `None`. A Python exception an operator raises on the way is `Raised`.
 */
module RTResults {

  import opened Wrappers
  import opened Exceptions
  import opened Positions
  import opened Contexts
  import opened Errors
  import opened Values

  /** A visit's result: a value and an error, each possibly unset. */
  datatype RTResult<V, E> = RTResult(value: Option<V>, error: Option<E>)

  /** `RTResult()`: neither is set. */
  function NewResult<V, E>(): (r: RTResult<V, E>)
    ensures r.value.None? && r.error.None?
  {
    RTResult(None, None)
  }

  /** `register(res)`: adopts `res`'s error when it has one, keeps its own
      otherwise, and hands back `res`'s value. */
  function Register<V, E>(self: RTResult<V, E>, res: RTResult<V, E>): (r: (RTResult<V, E>, Option<V>))
    ensures r.1 == res.value
    ensures r.0.value == self.value
    ensures r.0.error == if res.error.Some? then res.error else self.error
  {
    if res.error.Some? then (self.(error := res.error), res.value) else (self, res.value)
  }

  /** `success(value)`: sets the value and leaves the error alone. */
  function Success<V, E>(self: RTResult<V, E>, value: V): (r: RTResult<V, E>)
    ensures r.value == Some(value) && r.error == self.error
  {
    self.(value := Some(value))
  }

  /** `failure(error)`: sets the error and leaves the value alone. */
  function Failure<V, E>(self: RTResult<V, E>, error: E): (r: RTResult<V, E>)
    ensures r.error == Some(error) && r.value == self.value
  {
    self.(error := Some(error))
  }

  /** Registering a run of results, first to last. */
  function RegisterAll<V, E>(self: RTResult<V, E>, rs: seq<RTResult<V, E>>): RTResult<V, E>
    decreases |rs|
  {
    if rs == [] then self else RegisterAll(Register(self, rs[0]).0, rs[1..])
  }

  /** The error of the last result in `rs` that has one. */
  function LastError<V, E>(rs: seq<RTResult<V, E>>): Option<E>
    decreases |rs|
  {
    if rs == [] then None
    else if rs[|rs| - 1].error.Some? then rs[|rs| - 1].error
    else LastError(rs[..|rs| - 1])
  }

  /** Registering one more result after a run. */
  lemma {:induction false} RegisterAllSnoc<V, E>(self: RTResult<V, E>, rs: seq<RTResult<V, E>>, x: RTResult<V, E>)
    ensures RegisterAll(self, rs + [x]) == Register(RegisterAll(self, rs), x).0
    decreases |rs|
  {
    if rs != [] {
      assert (rs + [x])[1..] == rs[1..] + [x];
      RegisterAllSnoc(Register(self, rs[0]).0, rs[1..], x);
    } else {
      assert [x][1..] == [];
    }
  }

  /** After registering a run of results, the record holds the last error
      any of them had (its own when none had one), and its value is
      untouched: a later error overwrites an earlier one. */
  lemma {:induction false} RegisterAllKeepsLastError<V, E>(self: RTResult<V, E>, rs: seq<RTResult<V, E>>)
    ensures RegisterAll(self, rs).error == if LastError(rs).Some? then LastError(rs) else self.error
    ensures RegisterAll(self, rs).value == self.value
    decreases |rs|
  {
    if rs != [] {
      var init, x := rs[..|rs| - 1], rs[|rs| - 1];
      assert rs == init + [x];
      RegisterAllSnoc(self, init, x);
      RegisterAllKeepsLastError(self, init);
    }
  }

  /** A runtime number: its value, its span and its context, any of which
      may be unset. */
  datatype Number = Number(value: Value, posStart: Option<Position>, posEnd: Option<Position>, context: Option<ContextRef>)

  /** `Number(value)`: no span and no context yet. */
  function NewNumber(value: Value): (n: Number)
    ensures n.value == value && n.posStart.None? && n.posEnd.None? && n.context.None?
  {
    Number(value, None, None, None)
  }

  /** `set_pos(pos_start, pos_end)`: replaces the span, nothing else. */
  function SetPos(n: Number, posStart: Option<Position>, posEnd: Option<Position>): (r: Number)
    ensures r.posStart == posStart && r.posEnd == posEnd
    ensures r.value == n.value && r.context == n.context
  {
    n.(posStart := posStart, posEnd := posEnd)
  }

  /** `set_context(context)`: replaces the context, nothing else. */
  function SetContext(n: Number, context: Option<ContextRef>): (r: Number)
    ensures r.context == context
    ensures r.value == n.value && r.posStart == n.posStart && r.posEnd == n.posEnd
  {
    n.(context := context)
  }

  /** `copy()`: a number with the same value, span and context. */
  function Copy(n: Number): (r: Number)
    ensures r.value == n.value && r.posStart == n.posStart && r.posEnd == n.posEnd && r.context == n.context
  {
    SetContext(SetPos(NewNumber(n.value), n.posStart, n.posEnd), n.context)
  }

  /** What an operation answers: a number or a runtime error. */
  datatype OpResult = OpResult(number: Option<Number>, error: Option<RTError>)

  /** A fresh number holding `v`, in `self`'s context, with no error. */
  function Made(self: Number, v: Value): OpResult
  {
    OpResult(Some(SetContext(NewNumber(v), self.context)), None)
  }

  /** The shape every operation's successful answer has when it makes a
      number: the value given, `self`'s context, no span, no error. */
  predicate MadeFrom(self: Number, o: OpResult)
  {
    o.number.Some? && o.error.None? && o.number.value.context == self.context
    && o.number.value.posStart.None? && o.number.value.posEnd.None?
  }

  /** `add`, `sub` and `mul`: Python's operator on the two values. */
  function Apply(op: ArithOp, self: Number, other: Number): (r: Completion<OpResult>)
    requires op == Plus || op == Minus || op == Times
    ensures r.Raised? <==> !Numeric(self.value, other.value) || ConversionOverflows(self.value, other.value)
    ensures r.Raised? && !Numeric(self.value, other.value) ==> r.exception == Unsupported(op, self.value, other.value)
    ensures r.Raised? && Numeric(self.value, other.value) ==> r.exception == INT_TOO_LARGE
    ensures r.Returned? ==> MadeFrom(self, r.value) && Returned(r.value.number.value.value) == Arith(op, self.value, other.value)
  {
    var v :- Arith(op, self.value, other.value);
    Returned(Made(self, v))
  }

  function Add(self: Number, other: Number): (r: Completion<OpResult>)
    ensures self.value.IntV? && other.value.IntV? ==>
              r.Returned? && MadeFrom(self, r.value) && r.value.number.value.value == IntV(self.value.i + other.value.i)
  {
    Apply(Plus, self, other)
  }

  function Sub(self: Number, other: Number): (r: Completion<OpResult>)
    ensures self.value.IntV? && other.value.IntV? ==>
              r.Returned? && MadeFrom(self, r.value) && r.value.number.value.value == IntV(self.value.i - other.value.i)
  {
    Apply(Minus, self, other)
  }

  function Mul(self: Number, other: Number): (r: Completion<OpResult>)
    ensures self.value.IntV? && other.value.IntV? ==>
              r.Returned? && MadeFrom(self, r.value) && r.value.number.value.value == IntV(self.value.i * other.value.i)
  {
    Apply(Times, self, other)
  }

  /** Subtracting what was added gives back the original int, in the same
      context. */
  lemma SubUndoesAdd(a: Number, b: Number)
    requires a.value.IntV? && b.value.IntV?
    ensures Add(a, b).Returned? && Sub(Add(a, b).value.number.value, b).Returned?
    ensures Sub(Add(a, b).value.number.value, b).value.number == Some(SetPos(a, None, None))
  {
  }

  /** `pow`: `**` on two ints, `math.pow` otherwise. */
  function PowNumber(fo: FloatOracle, self: Number, other: Number): (r: Completion<OpResult>)
    ensures r.Returned? ==> MadeFrom(self, r.value) && Returned(r.value.number.value.value) == Power(fo, self.value, other.value)
    ensures r.Raised? <==> Power(fo, self.value, other.value).Raised?
    ensures r.Raised? ==> Power(fo, self.value, other.value).Raised? && r.exception == Power(fo, self.value, other.value).exception
  {
    var v :- Power(fo, self.value, other.value);
    Returned(Made(self, v))
  }

  /** Raising to a sum of non-negative exponents is multiplying the powers. */
  lemma PowExponentsAdd(fo: FloatOracle, x: Number, m: nat, n: nat)
    requires x.value.IntV?
    ensures var xm := PowNumber(fo, x, NewNumber(IntV(m)));
            var xn := PowNumber(fo, x, NewNumber(IntV(n)));
            xm.Returned? && xn.Returned?
            && Mul(xm.value.number.value, xn.value.number.value).Returned?
            && Mul(xm.value.number.value, xn.value.number.value).value
               == PowNumber(fo, x, NewNumber(IntV(m + n))).value
  {
    PowAdd(x.value.i, m, n);
  }

  /** `div`: a runtime error spanning the divisor when it equals zero,
      Python's true division otherwise. */
  function Div(fo: FloatOracle, self: Number, other: Number): (r: Completion<OpResult>)
    ensures IsZero(fo, other.value) ==>
              r == Returned(OpResult(None, Some(RTError(other.posStart, other.posEnd, DIVISION_BY_ZERO, self.context))))
    ensures !IsZero(fo, other.value) ==>
              (r.Raised? <==> !Numeric(self.value, other.value) || DivisionOverflows(self.value, other.value))
    ensures r.Raised? && Numeric(self.value, other.value) ==> r.exception.OverflowError?
    ensures !IsZero(fo, other.value) && r.Returned? ==> MadeFrom(self, r.value) && r.value.number.value.value.FloatV?
  {
    if IsZero(fo, other.value) then
      Returned(OpResult(None, Some(RTError(other.posStart, other.posEnd, DIVISION_BY_ZERO, self.context))))
    else
      var v :- TrueDivide(fo, self.value, other.value);
      Returned(Made(self, v))
  }

  /** `comp_eq` … `comp_gte`: `int(self.value <rel> other.value)`. */
  function Comp(fo: FloatOracle, rel: Rel, self: Number, other: Number): (r: Completion<OpResult>)
    ensures r.Returned? ==> MadeFrom(self, r.value)
    ensures r.Returned? ==> r.value.number.value.value in {IntV(0), IntV(1)}
    ensures r.Returned? ==> (r.value.number.value.value == IntV(1) <==> Compare(fo, rel, self.value, other.value) == Returned(true))
    ensures r.Raised? <==> Compare(fo, rel, self.value, other.value).Raised?
  {
    var b :- Compare(fo, rel, self.value, other.value);
    Returned(Made(self, IntV(if b then 1 else 0)))
  }

  /** The value of a comparison that answered. */
  function Flag(r: Completion<OpResult>): Value
  {
    if r.Returned? && r.value.number.Some? then r.value.number.value.value else NoneV
  }

  /** On ints a comparison answers 1 exactly when the relation holds. */
  lemma CompOnInts(fo: FloatOracle, rel: Rel, a: Number, b: Number)
    requires a.value.IntV? && b.value.IntV?
    ensures Comp(fo, rel, a, b).Returned?
    ensures Flag(Comp(fo, rel, a, b)) == IntV(if IntRel(rel, a.value.i, b.value.i) then 1 else 0)
  {
  }

  /** On ints `comp_ne` is the complement of `comp_eq`, `comp_lt` is
      `comp_gt` with the operands swapped, and `comp_lte` is `comp_lt` or
      `comp_eq`. */
  lemma CompRelations(fo: FloatOracle, a: Number, b: Number)
    requires a.value.IntV? && b.value.IntV?
    ensures Flag(Comp(fo, Ne, a, b)).i == 1 - Flag(Comp(fo, Eq, a, b)).i
    ensures Flag(Comp(fo, Lt, a, b)) == Flag(Comp(fo, Gt, b, a))
    ensures Flag(Comp(fo, Le, a, b)).i == Flag(Comp(fo, Lt, a, b)).i + Flag(Comp(fo, Eq, a, b)).i
    ensures Flag(Comp(fo, Ge, a, b)) == Flag(Comp(fo, Le, b, a))
  {
    CompOnInts(fo, Ne, a, b);
    CompOnInts(fo, Eq, a, b);
    CompOnInts(fo, Lt, a, b);
    CompOnInts(fo, Gt, b, a);
    CompOnInts(fo, Le, a, b);
    CompOnInts(fo, Ge, a, b);
    CompOnInts(fo, Le, b, a);
  }

  /** `and_`: `int(self.value and other.value)`. */
  function And(fo: FloatOracle, self: Number, other: Number): (r: Completion<OpResult>)
    ensures r.Returned? ==> MadeFrom(self, r.value) && r.value.number.value.value.IntV?
    ensures self.value.IntV? && other.value.IntV? ==>
              r.Returned? && r.value.number.value.value == IntV(if self.value.i == 0 then 0 else other.value.i)
  {
    var i :- AndValue(fo, self.value, other.value);
    Returned(Made(self, IntV(i)))
  }

  /** `or_`: `int(self.value or other.value)`. */
  function Or(fo: FloatOracle, self: Number, other: Number): (r: Completion<OpResult>)
    ensures r.Returned? ==> MadeFrom(self, r.value) && r.value.number.value.value.IntV?
    ensures self.value.IntV? && other.value.IntV? ==>
              r.Returned? && r.value.number.value.value == IntV(if self.value.i != 0 then self.value.i else other.value.i)
  {
    var i :- OrValue(fo, self.value, other.value);
    Returned(Made(self, IntV(i)))
  }

  /** `not_`: 1 when the value equals zero, 0 otherwise; it never raises. */
  function Not(fo: FloatOracle, self: Number): (r: OpResult)
    ensures MadeFrom(self, r)
    ensures r.number.value.value == IntV(if IsZero(fo, self.value) then 1 else 0)
  {
    Made(self, IntV(if IsZero(fo, self.value) then 1 else 0))
  }

  /** The number an operation answered, for chaining. */
  function Answer(r: Completion<OpResult>): Number
  {
    if r.Returned? && r.value.number.Some? then r.value.number.value else NewNumber(NoneV)
  }

  /** On ints, negating a conjunction gives the disjunction of the negations
      (De Morgan). */
  lemma NotAndIsOrNot(fo: FloatOracle, a: Number, b: Number)
    requires a.value.IntV? && b.value.IntV?
    ensures Not(fo, Answer(And(fo, a, b))).number.value.value
            == Answer(Or(fo, Not(fo, a).number.value, Not(fo, b).number.value)).value
  {
  }

  /** Negating twice gives 1 for a non-zero value and 0 for zero. */
  lemma NotNot(fo: FloatOracle, a: Number)
    ensures Not(fo, Not(fo, a).number.value).number.value.value == IntV(if IsZero(fo, a.value) then 0 else 1)
  {
  }
}
