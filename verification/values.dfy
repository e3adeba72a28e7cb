/**
  The Python numbers the runtime computes with. Integers are exact; a float
  is kept as the literal it was read from or the operation that produced it,
  and what the model cannot compute about floats (how a comparison with one
  comes out, what `int()` makes of one) is asked of a `FloatOracle`.
 */
module Values {

  import opened Wrappers
  import opened Exceptions

  /** The arithmetic a float can come from. */
  datatype ArithOp = Plus | Minus | Times | TrueDiv | IntPower | MathPow

  /** A runtime value: an `int`, a `float`, or `None` (what a token without a
      literal holds). */
  datatype Value = IntV(i: int) | FloatV(f: Float) | NoneV

  /** A float: the digits of a literal, or an operation on two values. */
  datatype Float = FloatLiteral(digits: string) | FloatResult(op: ArithOp, left: Value, right: Value)

  /** The six comparison operators. */
  datatype Rel = Eq | Ne | Lt | Gt | Le | Ge

  /** How a comparison with a float operand comes out, `int(f)` (which
      raises on infinities and NaN), and what `math.pow` raises on two numbers
      it could convert to floats, if anything: a `ValueError` for a domain
      error, an `OverflowError` for a result too large. */
  datatype FloatOracle = FloatOracle(
    compare: (Rel, Value, Value) -> bool,
    truncate: Float -> Completion<int>,
    powError: (Value, Value) -> Option<Exception>)

  /** `type(v).__name__`. */
  function PyType(v: Value): string
  {
    match v
    case IntV(_) => "int"
    case FloatV(_) => "float"
    case NoneV => "NoneType"
  }

  function OpSymbol(op: ArithOp): string
  {
    match op
    case Plus => "+"
    case Minus => "-"
    case Times => "*"
    case TrueDiv => "/"
    case IntPower => "** or pow()"
    case MathPow => "pow"
  }

  /** The `TypeError` a binary operator raises on an operand it cannot take. */
  function Unsupported(op: ArithOp, a: Value, b: Value): Exception
  {
    TypeError("unsupported operand type(s) for " + OpSymbol(op) + ": '" + PyType(a) + "' and '" + PyType(b) + "'")
  }

  /** Both operands are numbers: neither is `None`. */
  predicate Numeric(a: Value, b: Value)
  {
    !a.NoneV? && !b.NoneV?
  }

  function Abs(i: int): nat
  {
    if i < 0 then -i else i
  }

  /** The magnitude from which an `int` no longer converts to a `float`:
      2^1024 - 2^970, half a unit in the last place above the largest finite
      double, which rounds (to even) up to infinity. */
  const FLOAT_LIMIT: nat := 179769313486231580793728971405303415079934132710037826936173778980444968292764750946649017977587207096330286416692887910946555547851940402630657488671505820681908902000708383676273854845817711531764475730270069855571366959622842914819860834936475292719074168444365510704342711559699508093042880177904174497792

  /** `float(v)` does not overflow: `v` is no `int` of magnitude `FLOAT_LIMIT`
      or more. */
  predicate FitsFloat(v: Value)
  {
    v.IntV? ==> Abs(v.i) < FLOAT_LIMIT
  }

  const INT_TOO_LARGE: Exception := OverflowError("int too large to convert to float")

  /** Mixed arithmetic converts the `int` operand to a `float`; this says the
      conversion overflows. */
  predicate ConversionOverflows(a: Value, b: Value)
  {
    !(a.IntV? && b.IntV?) && !(FitsFloat(a) && FitsFloat(b))
  }

  /** `a + b`, `a - b` and `a * b`: exact on two ints, a float as soon as one
      operand is a float, a `TypeError` on `None`, and an `OverflowError` when
      an `int` meeting a float is too large to become one. */
  function Arith(op: ArithOp, a: Value, b: Value): (r: Completion<Value>)
    requires op == Plus || op == Minus || op == Times
    ensures r.Raised? <==> !Numeric(a, b) || ConversionOverflows(a, b)
    ensures r.Raised? ==> r.exception == if Numeric(a, b) then INT_TOO_LARGE else Unsupported(op, a, b)
    ensures r.Returned? ==> (r.value.IntV? <==> a.IntV? && b.IntV?)
  {
    if !Numeric(a, b) then Raised(Unsupported(op, a, b))
    else if a.IntV? && b.IntV? then
      Returned(IntV(match op
                    case Plus => a.i + b.i
                    case Minus => a.i - b.i
                    case Times => a.i * b.i))
    else if ConversionOverflows(a, b) then Raised(INT_TOO_LARGE)
    else Returned(FloatV(FloatResult(op, a, b)))
  }

  /** `v == 0`: an int is zero when it is, `None` never, a float as the oracle says. */
  predicate IsZero(fo: FloatOracle, v: Value)
  {
    match v
    case IntV(i) => i == 0
    case FloatV(_) => fo.compare(Eq, v, IntV(0))
    case NoneV => false
  }

  /** True division overflows: of two ints, the quotient rounds beyond the
      largest double; otherwise an `int` operand does not convert. */
  predicate DivisionOverflows(a: Value, b: Value)
  {
    if a.IntV? && b.IntV? then b.i != 0 && Abs(a.i) >= FLOAT_LIMIT * Abs(b.i)
    else ConversionOverflows(a, b)
  }

  /** `a / b`: Python's true division, a float even for two ints. Two ints
      are checked for a zero divisor and then divided exactly and rounded;
      with a float the `int` operand is converted first. */
  function TrueDivide(fo: FloatOracle, a: Value, b: Value): (r: Completion<Value>)
    ensures !Numeric(a, b) ==> r == Raised(Unsupported(TrueDiv, a, b))
    ensures Numeric(a, b) ==> (r.Raised? <==> IsZero(fo, b) || DivisionOverflows(a, b))
    ensures Numeric(a, b) && r.Raised? ==>
              (r.exception.ZeroDivisionError? <==> IsZero(fo, b) && !ConversionOverflows(a, b))
    ensures Numeric(a, b) && r.Raised? ==> r.exception.ZeroDivisionError? || r.exception.OverflowError?
    ensures r.Returned? ==> r.value.FloatV?
  {
    if !Numeric(a, b) then Raised(Unsupported(TrueDiv, a, b))
    else if a.IntV? && b.IntV? then
      if b.i == 0 then Raised(ZeroDivisionError("division by zero"))
      else if DivisionOverflows(a, b) then Raised(OverflowError("integer division result too large for a float"))
      else Returned(FloatV(FloatResult(TrueDiv, a, b)))
    else if ConversionOverflows(a, b) then Raised(INT_TOO_LARGE)
    else if IsZero(fo, b) then Raised(ZeroDivisionError("float division by zero"))
    else Returned(FloatV(FloatResult(TrueDiv, a, b)))
  }

  /** `a ** n` for a non-negative exponent. */
  function Pow(a: int, n: nat): int
  {
    if n == 0 then 1 else a * Pow(a, n - 1)
  }

  /** Exponents add. */
  lemma {:induction false} PowAdd(a: int, m: nat, n: nat)
    ensures Pow(a, m + n) == Pow(a, m) * Pow(a, n)
  {
    if m > 0 {
      PowAdd(a, m - 1, n);
      assert Pow(a, m + n) == a * Pow(a, m - 1 + n);
      assert a * (Pow(a, m - 1) * Pow(a, n)) == (a * Pow(a, m - 1)) * Pow(a, n);
    }
  }

  const NOT_REAL: Exception := TypeError("must be real number, not NoneType")

  /** `Number.pow`: `a ** b` on two ints, exact for a non-negative exponent;
      for a negative one both are converted to floats and zero raises
      `ZeroDivisionError`. Otherwise `math.pow(a, b)`, which converts `a` and
      then `b` (a `TypeError` on `None`, an `OverflowError` on a huge `int`)
      and may then fail on the values. */
  function Power(fo: FloatOracle, a: Value, b: Value): (r: Completion<Value>)
    ensures a.IntV? && b.IntV? && b.i >= 0 ==> r == Returned(IntV(Pow(a.i, b.i)))
    ensures a.IntV? && b.IntV? && b.i < 0 ==>
              && (r.Raised? <==> a.i == 0 || !FitsFloat(a) || !FitsFloat(b))
              && (r.Raised? ==> (r.exception.ZeroDivisionError? <==> FitsFloat(a) && FitsFloat(b)))
              && (!(FitsFloat(a) && FitsFloat(b)) ==> r == Raised(INT_TOO_LARGE))
              && (r.Returned? ==> r.value.FloatV?)
    ensures !(a.IntV? && b.IntV?) ==>
              && (r.Raised? <==> !Numeric(a, b) || !FitsFloat(a) || !FitsFloat(b) || fo.powError(a, b).Some?)
              && (a.NoneV? ==> r == Raised(NOT_REAL))
              && (!FitsFloat(a) ==> r == Raised(INT_TOO_LARGE))
              && (!a.NoneV? && FitsFloat(a) && b.NoneV? ==> r == Raised(NOT_REAL))
              && (!a.NoneV? && FitsFloat(a) && !FitsFloat(b) ==> r == Raised(INT_TOO_LARGE))
              && (Numeric(a, b) && FitsFloat(a) && FitsFloat(b) && r.Raised? ==> r.exception == fo.powError(a, b).value)
              && (r.Returned? ==> r.value.FloatV?)
  {
    if a.IntV? && b.IntV? then
      if b.i >= 0 then Returned(IntV(Pow(a.i, b.i)))
      else if !(FitsFloat(a) && FitsFloat(b)) then Raised(INT_TOO_LARGE)
      else if a.i == 0 then Raised(ZeroDivisionError("0.0 cannot be raised to a negative power"))
      else Returned(FloatV(FloatResult(IntPower, a, b)))
    else if a.NoneV? then Raised(NOT_REAL)
    else if !FitsFloat(a) then Raised(INT_TOO_LARGE)
    else if b.NoneV? then Raised(NOT_REAL)
    else if !FitsFloat(b) then Raised(INT_TOO_LARGE)
    else match fo.powError(a, b)
         case Some(e) => Raised(e)
         case None => Returned(FloatV(FloatResult(MathPow, a, b)))
  }

  function RelSymbol(rel: Rel): string
  {
    match rel
    case Eq => "=="
    case Ne => "!="
    case Lt => "<"
    case Gt => ">"
    case Le => "<="
    case Ge => ">="
  }

  /** The relation on two ints. */
  predicate IntRel(rel: Rel, a: int, b: int)
  {
    match rel
    case Eq => a == b
    case Ne => a != b
    case Lt => a < b
    case Gt => a > b
    case Le => a <= b
    case Ge => a >= b
  }

  /** `a <rel> b`: exact on ints; `==` and `!=` with `None` compare identity;
      an ordering with `None` raises; a float comparison is the oracle's. */
  function Compare(fo: FloatOracle, rel: Rel, a: Value, b: Value): (r: Completion<bool>)
    ensures a.IntV? && b.IntV? ==> r == Returned(IntRel(rel, a.i, b.i))
    ensures !Numeric(a, b) ==> (r.Raised? <==> !(rel == Eq || rel == Ne))
    ensures !Numeric(a, b) && rel == Eq ==> r == Returned(a == b)
    ensures !Numeric(a, b) && rel == Ne ==> r == Returned(a != b)
  {
    if a.IntV? && b.IntV? then Returned(IntRel(rel, a.i, b.i))
    else if !Numeric(a, b) then
      match rel
      case Eq => Returned(a == b)
      case Ne => Returned(a != b)
      case _ => Raised(TypeError("'" + RelSymbol(rel) + "' not supported between instances of '" + PyType(a) + "' and '" + PyType(b) + "'"))
    else Returned(fo.compare(rel, a, b))
  }

  /** `bool(v)`. */
  predicate Truthy(fo: FloatOracle, v: Value)
  {
    match v
    case IntV(i) => i != 0
    case FloatV(_) => fo.compare(Ne, v, IntV(0))
    case NoneV => false
  }

  /** `int(v)`. */
  function ToInt(fo: FloatOracle, v: Value): (r: Completion<int>)
    ensures v.IntV? ==> r == Returned(v.i)
    ensures v.NoneV? ==> r.Raised? && r.exception.TypeError?
  {
    match v
    case IntV(i) => Returned(i)
    case FloatV(f) => fo.truncate(f)
    case NoneV => Raised(TypeError("int() argument must be a string, a bytes-like object or a real number, not 'NoneType'"))
  }

  /** `int(a and b)`: `a` when it is falsy, `b` otherwise, made an int. */
  function AndValue(fo: FloatOracle, a: Value, b: Value): (r: Completion<int>)
    ensures a.IntV? && b.IntV? ==> r == Returned(if a.i == 0 then 0 else b.i)
  {
    ToInt(fo, if Truthy(fo, a) then b else a)
  }

  /** `int(a or b)`: `a` when it is truthy, `b` otherwise, made an int. */
  function OrValue(fo: FloatOracle, a: Value, b: Value): (r: Completion<int>)
    ensures a.IntV? && b.IntV? ==> r == Returned(if a.i != 0 then a.i else b.i)
  {
    ToInt(fo, if Truthy(fo, a) then a else b)
  }
}
