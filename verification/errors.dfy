/** The error records of `basiclang/error.py`, and the runtime error the
    evaluator raises. */
module Errors {

  import opened Wrappers
  import opened Exceptions
  import opened Positions
  import opened Contexts
  import Decimal

  /** An error located by a start and an end position. */
  datatype Error = Error(posStart: Position, posEnd: Position, errorName: string, details: string)

  const ILLEGAL_CHARACTER: string := "Illegal Character"

  /** `IllegalCharError(pos_start, pos_end, details)`. */
  function IllegalCharError(posStart: Position, posEnd: Position, details: string): (e: Error)
    ensures e.errorName == ILLEGAL_CHARACTER
    ensures e.posStart == posStart && e.posEnd == posEnd && e.details == details
  {
    Error(posStart, posEnd, ILLEGAL_CHARACTER, details)
  }

  /** `Error.as_str()`: name, details, file, then the 1-based line and column
      of the start position. */
  function AsStr(e: Error): (s: string)
    ensures |s| >= |e.errorName| + 2 && s[..|e.errorName| + 2] == e.errorName + ": "
  {
    var result := e.errorName + ": " + e.details;
    var result := result + " file " + e.posStart.fn + ", line " + Decimal.IntToString(e.posStart.ln + 1);
    result + " col " + Decimal.IntToString(e.posStart.col + 1)
  }

  /** The end position, the offset and the text play no part in the rendering. */
  lemma AsStrReadsStartLocationOnly(e: Error, other: Error)
    requires other.errorName == e.errorName && other.details == e.details
    requires other.posStart.fn == e.posStart.fn
    requires other.posStart.ln == e.posStart.ln && other.posStart.col == e.posStart.col
    ensures AsStr(other) == AsStr(e)
  {
  }

  /** The rendering ends with the column counted from 1, written in decimal. */
  lemma AsStrEndsWithColumn(e: Error)
    requires e.posStart.col >= 0
    ensures var tail := " col " + Decimal.NatToString(e.posStart.col + 1);
            |tail| <= |AsStr(e)| && AsStr(e)[|AsStr(e)| - |tail|..] == tail
            && Decimal.Value(tail[5..]) == e.posStart.col + 1
  {
    var tail := " col " + Decimal.NatToString(e.posStart.col + 1);
    assert tail[5..] == Decimal.NatToString(e.posStart.col + 1);
    Decimal.ValueOfNatToString(e.posStart.col + 1);
  }

  /** The whole rendering: name, details, file, and the start's line and
      column counted from 1, each written as decimal digits that read back as
      that number. */
  lemma AsStrParts(e: Error)
    requires e.posStart.ln + 1 >= 0 && e.posStart.col + 1 >= 0
    ensures var line := Decimal.NatToString(e.posStart.ln + 1);
            var col := Decimal.NatToString(e.posStart.col + 1);
            && AsStr(e) == e.errorName + ": " + e.details + " file " + e.posStart.fn + ", line " + line + " col " + col
            && Decimal.Value(line) == e.posStart.ln + 1
            && Decimal.Value(col) == e.posStart.col + 1
  {
    Decimal.ValueOfNatToString(e.posStart.ln + 1);
    Decimal.ValueOfNatToString(e.posStart.col + 1);
  }

  /** The names `error.py` binds: the `Position` it imports and its two
      classes. */
  const ERROR_MODULE_NAMES: set<string> := {"Position", "Error", "IllegalCharError"}

  /** What `rtresult.py` and `interpreter.py` import from `error.py`. */
  const IMPORTED_NAMES: seq<string> := ["Error", "RTError"]

  /** `from basiclang.error import n1, n2, ...` against a module binding
      `defined`: the names in order, or an `ImportError` for the first one it
      does not bind. */
  function ImportFrom(defined: set<string>, names: seq<string>): (r: Completion<seq<string>>)
    ensures r.Returned? <==> forall i | 0 <= i < |names| :: names[i] in defined
    ensures r.Returned? ==> r.value == names
    ensures r.Raised? ==> exists i | 0 <= i < |names| ::
              && names[i] !in defined
              && (forall j | 0 <= j < i :: names[j] in defined)
              && r.exception == ImportError(names[i], "basiclang.error")
  {
    if names == [] then Returned([])
    else if names[0] !in defined then Raised(ImportError(names[0], "basiclang.error"))
    else
      var rest :- ImportFrom(defined, names[1..]);
      Returned([names[0]] + rest)
  }

  /** As written, loading the evaluator fails: `error.py` defines no
      `RTError`. */
  lemma RTErrorImportFails()
    ensures ImportFrom(ERROR_MODULE_NAMES, IMPORTED_NAMES) == Raised(ImportError("RTError", "basiclang.error"))
  {
  }

  /** With the `RTError` record below added to `error.py`, the import goes
      through and binds both names. */
  lemma RTErrorImportSucceeds()
    ensures ImportFrom(ERROR_MODULE_NAMES + {"RTError"}, IMPORTED_NAMES) == Returned(IMPORTED_NAMES)
  {
  }

  /** The runtime error the evaluator reports. `error.py` does not define the
      `RTError` its importers construct, so this record holds exactly what they
      pass: the spans of the offending value (which may be unset), the message
      and, for `rtresult.py`, the context. */
  datatype RTError = RTError(posStart: Option<Position>, posEnd: Option<Position>, details: string, context: Option<ContextRef>)

  const DIVISION_BY_ZERO: string := "Division by zero"
}
