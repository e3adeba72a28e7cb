# basiclang in Dafny

This project models the arithmetic core of `basiclang`, an early snapshot of a
tutorial BASIC interpreter written in Python. The core is a pipeline.

- The **lexer** turns a line of text into tokens: numbers, `+ - * / ( )`.
  It skips blanks and fails fast on any other character.
- The **parser** is recursive descent. It folds `term` over `factor` and
  `expr` over `term`, which gives left-leaning trees in which `*` and `/`
  bind tighter than `+` and `-`.
- The **evaluator** walks the tree and produces runtime `Number`s. Results
  and runtime errors travel in an `RTResult`.
- Around these sit source positions, the token and error records, a symbol
  table with parent lookup and an evaluation context. A second, richer
  runtime `Number` has comparison and logical operations.

The Python exceptions the code can raise are modelled as an answer,
`Completion.Raised` from `exceptions.dfy`. No precondition excludes them.
This covers:

- `float('.')`;
- `int()` of more than 4300 digits;
- `None.type` in the parser;
- attributes that were never assigned;
- unbound locals;
- `TypeError` on `None` operands;
- `OverflowError` when an `int` that meets a float is too large for one, and
  when an `int` quotient is too large for a float;
- `ZeroDivisionError` from Python's own division and power;
- `KeyError`;
- the `ImportError` of `from basiclang.error import Error, RTError`.

What `math.pow` raises on two numbers it could convert comes from the
`FloatOracle`.

The digit limit is `sys.get_int_max_str_digits()`, which defaults to 4300
from Python 3.11 on. The limit's message is the one Python 3.12 writes.

Python's `None` is `Option.None`. A float is kept symbolic: the literal's
digits, or the operation that produced it. What cannot be computed about
floats is supplied by a `FloatOracle` parameter: how a comparison comes out,
what `int()` gives, and which error `math.pow` raises on two numbers it
could convert.

The evaluator exists twice:

- `Interpreting.EvalAsWritten` follows `interpreter.py` line by line, defects
  included.
- `Interpreting.Eval` is the evaluator the code evidently intends. The
  defects are listed under Findings.

This snapshot is older than the interpreter's eventual design, and the model
follows the code where they differ:

- No `EOF` token is appended.
- `parse` does not demand that all tokens be consumed.
- There are no parentheses, power, variables or two-character operators in
  the parser.
- `factor` gives `None` on a token that is not a number.
- A lone `.` crashes the lexer instead of producing an error.

Files, one module each:

| file | models |
|---|---|
| `wrappers.dfy` | `Option` |
| `exceptions.dfy` | Python exceptions and `Completion` |
| `decimal.dfy` | digits and `str(int)` |
| `positions.dfy` | `position.py` |
| `tokens.dfy` | `token.py` |
| `errors.dfy` | `error.py` |
| `lexing.dfy` | `lexer.py` |
| `nodes.dfy` | `node.py` |
| `parsing.dfy` | `parser.py` |
| `contexts.dfy` | `context.py` |
| `values.dfy` | Python `int`/`float`/`None` arithmetic |
| `rtresults.dfy` | `rtresult.py` |
| `interpreting.dfy` | `interpreter.py` |

## Model

| member | source | states |
|---|---|---|
| Positions.Advance | basiclang/position.py:15-22 | the offset grows by exactly one; on a newline the line grows by one and the column resets to 0, on any other character (or `None`) the column grows by one and the line stays; file name and text never change |
| Positions.Copy | basiclang/position.py:24-25 | the copy has the same offset, line, column, file name and text |
| Positions.AdvanceOverCounts | basiclang/position.py:15-22 | advancing over a stretch of text moves the offset by its length, the line by its newlines, and sets the column to the characters after the last newline (or adds the length when there is none) |
| Tokens.DigitsAreDecimal | basiclang/token.py:7 | a character is in `DIGITS` exactly when it is a decimal digit |
| Tokens.TypeNamesDistinct | basiclang/token.py:9-17 | the type constants are pairwise distinct, so comparing them compares kinds |
| Tokens.MakeToken | basiclang/token.py:21-28 | type and value are stored unchanged; a start alone gives an end one column and one offset later on the same line; an explicit end overrides it; no start and no end leaves both unset |
| Errors.IllegalCharError | basiclang/error.py:21-23 | the name is always `Illegal Character`; start, end and details are stored unchanged |
| Errors.AsStr | basiclang/error.py:14-18 | the rendering begins with the error name and `: ` |
| Errors.AsStrParts | basiclang/error.py:14-18 | the rendering is exactly `<name>: <details> file <fn>, line <L> col <C>`, where `L` and `C` are decimal texts that read back as the 1-based start line and column |
| Errors.AsStrReadsStartLocationOnly | basiclang/error.py:14-18 | two errors with equal name, details, start file, start line and start column render the same, whatever their end positions |
| Errors.AsStrEndsWithColumn | basiclang/error.py:17 | the rendering ends with ` col ` and the 1-based start column in decimal |
| Decimal.NatToString | basiclang/error.py:16-17 | the decimal text of a natural number is a non-empty run of digits with no leading zero |
| Decimal.IntToString | basiclang/error.py:16-17 | `str()` of an integer reads back as that integer: for a non-negative one, digits whose value it is; for a negative one, `-` followed by digits whose value is its magnitude; never a leading zero |
| Decimal.NatToStringNoLonger | basiclang/lexer.py:80-81 | the decimal text of the value of a digit string is no longer than the string, so a string within the digit limit gives an `int` whose text is within it |
| Decimal.ValueOfNatToString | basiclang/lexer.py:81 | reading back the decimal text of a natural number gives the number (the `int(num_str)` the lexer relies on) |
| Lexing.NewLexer | basiclang/lexer.py:22-27 | a fresh lexer is at offset, line and column 0 on the first character, or on nothing for empty text |
| Lexing.Advance | basiclang/lexer.py:29-33 | the cursor is advanced over the current character and the new current character is the one under it, `None` past the end |
| Lexing.AdvanceKeepsValid | basiclang/lexer.py:29-33 | stepping over a character keeps the cursor's line and column those of its offset and moves the offset by one |
| Lexing.PositionAtIsAdvanceOver | basiclang/lexer.py:25-33 | the cursor after `i` characters is the start position advanced over the first `i` characters |
| Lexing.InNumberIsDigitsOrDot | basiclang/lexer.py:40 | the characters that start a number are exactly `DIGITS + '.'` |
| Lexing.OperatorKind | basiclang/lexer.py:42-59 | exactly `+ - * / ( )` name an operator token kind, each its own: `+` PLUS, `-` MINUS, `*` MUL, `/` DIV, `(` LPAREN, `)` RPAREN |
| Lexing.ScanNumber | basiclang/lexer.py:72-78 | the number loop never moves the cursor backwards and keeps the lexer state consistent |
| Lexing.ScanNumberAppends | basiclang/lexer.py:72-78 | the loop appends exactly the characters it passes to the digits read so far, and counts their dots |
| Lexing.ScanNumberStops | basiclang/lexer.py:72-78 | the loop passes only number characters, sees at most one dot, and stops at the end, at a character that is not part of a number, or at a second dot, which it does not consume |
| Lexing.ScanNumberReadsRun | basiclang/lexer.py:72-78 | both of the above together |
| Lexing.ScanFirstChar | basiclang/lexer.py:72-78 | on a number character the loop consumes at least one character and reads just `.` exactly when the dot is not followed by a digit; elsewhere it reads nothing |
| Lexing.MakeNumber | basiclang/lexer.py:68-83 | a token is an `INT` or `FLOAT` the lexer can emit, read from a non-empty stretch of legal characters; off a number character the only exception is `int('')`, on one it is `float('.')` or `int()`'s digit-limit `ValueError` |
| Lexing.NumberOf | basiclang/lexer.py:80-83 | `int()` raises on the empty string and on more than 4300 digits, `float()` on the lone `.`; otherwise the token is one the lexer can emit |
| Lexing.MakeNumberReadsRun | basiclang/lexer.py:68-83 | the token comes from a longest run of number characters with at most one dot: with no dot it is an `INT` holding the run's decimal value, with one dot a `FLOAT` holding the run |
| Lexing.MakeNumberRaises | basiclang/lexer.py:72-83 | on a number character `make_number` raises exactly on a lone `.` (a dot not followed by a digit), with `float('.')`'s `ValueError`, or on a dotless run of more than 4300 digits, with `int()`'s digit-limit `ValueError` naming the run's length; elsewhere it raises `int('')`'s |
| Lexing.TooManyDigitsIsDigitLimit | basiclang/lexer.py:81 | the digit-limit message for any length starts with the limit's fixed prefix |
| Lexing.MakeNumberOnRun | basiclang/lexer.py:72-83 | on a number character the loop reads a longest run, and `make_number` raises exactly when the run is the lone `.` or too long for `int()` |
| Lexing.MakeNumberOnLoneDot | basiclang/lexer.py:82-83 | on the lone `.` `make_number` raises `float('.')`'s `ValueError` |
| Lexing.MakeNumberOnLongInt | basiclang/lexer.py:80-81 | on a dotless run of more than 4300 digits `make_number` raises the digit-limit `ValueError` naming the run's length |
| Lexing.LongIntOfRun | basiclang/lexer.py:72-81 | a run read by the loop is too long for `int()` exactly when it has no dot and more than 4300 characters |
| Lexing.MakeNumberOfScan | basiclang/lexer.py:68-83 | `make_number` raises exactly when the loop read nothing, the lone `.`, or more than 4300 characters without a dot, with the matching exception |
| Lexing.ScanIsRun | basiclang/lexer.py:72-78 | begun on a number character, the loop reads a non-empty longest run, which is `.` exactly when the dot is not followed by a digit |
| Lexing.NoDotsAllDigits | basiclang/lexer.py:80-81 | number characters with no dot are all digits |
| Lexing.NumberRunUnique | basiclang/lexer.py:72-78 | a longest run starting at a given place ends at one place only |
| Lexing.IllegalAt | basiclang/lexer.py:60-64 | the illegal-character error starts at the character, ends at that position advanced over the character (one offset further), and quotes the character as its details |
| Lexing.Step | basiclang/lexer.py:37-64 | one turn of the loop: stop at the end; a blank is skipped; each of `+ - * / ( )` gives exactly one token of its kind and consumes one character; a number character gives `make_number`'s token or crash, the crash being `float('.')` or the digit-limit `ValueError`; nothing else crashes; any other character gives the illegal-character error at the cursor |
| Lexing.Scan | basiclang/lexer.py:35-66 | on an error the token list is empty and the error is the first illegal character's; on success every character from the cursor on is legal and every token is one the lexer can emit; the only crashes are `float('.')` and the digit-limit `ValueError` |
| Lexing.GetTokens | basiclang/lexer.py:35-66 | `get_tokens` from the lexer's state, with the same guarantees as `Scan` |
| Lexing.DigitsHaveNoDots | basiclang/lexer.py:80-81 | a run of digits has no dot and consists of number characters |
| Lexing.NumberLexemeIsRun | basiclang/lexer.py:72-83 | the text of a number token followed by a blank is a longest run, not a lone dot, with no dot for an `INT` and one for a `FLOAT` |
| Lexing.NotLongInt | basiclang/lexer.py:80-81 | the text of a number token the lexer can emit is never too long for `int()` |
| Lexing.MakeNumberOnLexeme | basiclang/lexer.py:68-83 | `make_number` on the text of a number token followed by a blank gives back that token and stops right before the blank |
| Lexing.StepOnLexeme | basiclang/lexer.py:37-59 | a turn on the text of any token followed by a blank emits that token and stops on the blank |
| Lexing.SkipBlank | basiclang/lexer.py:38-39 | a turn on a blank skips it and emits nothing |
| Lexing.ScanContinues | basiclang/lexer.py:36-66 | a skipping turn hands over to the next; an emitting one puts its token before what the next turns find |
| Lexing.LexemeRound | basiclang/lexer.py:36-66 | a token's text and its blank take two turns, which emit the token and skip the blank |
| Lexing.ScanRendered | basiclang/lexer.py:35-66 | lexing the text of any sequence of lexable tokens, from any cursor, gives those tokens in order and no error |
| Lexing.TokenizeRender | basiclang/lexer.py:22-66 | lexing the rendering of lexable tokens gives them back, in source order, with no `EOF` appended |
| Lexing.TokenizeAgain | basiclang/lexer.py:22-66 | whatever the lexer accepts consists of lexable tokens, and lexing their rendering gives the same tokens |
| Nodes.CompleteEndsWithNumber | basiclang/node.py:8-29 | a tree with no missing child has at least one token, and its derived end is its last token's end |
| Nodes.SpanCoversTokens | basiclang/node.py:8-29 | the derived span of a complete tree runs from its first token's start to its last token's end |
| Parsing.Advance | basiclang/parser.py:17-23 | the index grows by one, the tokens are unchanged, and the current token is the one at the new index, `None` once past the end |
| Parsing.NewParser | basiclang/parser.py:11-15 | a fresh parser stands on the first token (index 0) |
| Parsing.Factor | basiclang/parser.py:29-33 | on a number token `factor` consumes exactly it and wraps it in a `NumberNode`; on another token it consumes nothing and gives `None`; on no token it raises `AttributeError` reading `None.type` |
| Parsing.Operand | basiclang/parser.py:35-42 | the operand function of a level raises only that `AttributeError`, and never moves the parser backwards |
| Parsing.BinOp | basiclang/parser.py:41-48 | `bin_op` raises only that `AttributeError`, and never moves the parser backwards |
| Parsing.Loop | basiclang/parser.py:43-47 | the `while` loop raises only that `AttributeError`, and never moves the parser backwards |
| Parsing.OperandReads | basiclang/parser.py:35-42 | an operand spells out exactly the tokens it consumed, has the operand shape of its level, and a term stops on no `*` or `/` |
| Parsing.BinOpReads | basiclang/parser.py:41-48 | `bin_op` spells out exactly the tokens it consumed, builds a left-leaning tree of its level's operators, and stops on the first token that is not one of them (or on no token) |
| Parsing.LoopReads | basiclang/parser.py:43-47 | each pass of the loop makes the tree so far the left side of a new node, adding exactly the tokens it consumed |
| Parsing.ParseReads | basiclang/parser.py:25-27 | `parse` raises only on running out of tokens where a factor belongs; otherwise it gives an `expr`-shaped tree spelling out exactly the tokens it consumed, and stops on the first token that continues no level |
| Parsing.Spine | basiclang/parser.py:41-48 | a complete tree of a level is its leftmost operand folded with the operator/operand pairs along its left spine, token for token |
| Parsing.OperandParses | basiclang/parser.py:35-42 | the tokens of a complete operand, followed by tokens that do not continue it, parse back to that operand |
| Parsing.BinOpParses | basiclang/parser.py:41-48 | the tokens of a complete tree of a level, followed by tokens that stop the loop, parse back to that tree |
| Parsing.LoopParses | basiclang/parser.py:43-47 | the loop over the tokens of operator/operand pairs folds exactly those pairs, to the left |
| Parsing.ParseFlatten | basiclang/parser.py:25-48 | `parse` on the tokens of any complete `expr`-shaped tree, followed by any tokens that are not operators, gives the tree back and stops right after its tokens; trailing tokens are ignored |
| Parsing.SameLevelLeansLeft | basiclang/parser.py:41-48 | operands `a, b, c` with operators `o1, o2` of one level build `BinOpNode(BinOpNode(a, o1, b), o2, c)` |
| Parsing.ProductsBindTighter | basiclang/parser.py:35-39 | `a + b * c` groups as `a + (b * c)` and `a * b + c` as `(a * b) + c` |
| Parsing.OperandAtEnd | basiclang/parser.py:29-31 | past the last token the operand of either level raises reading `None.type` |
| Parsing.BinOpDangles | basiclang/parser.py:41-48 | the tokens of a complete tree of a level followed by one operator of that level, or for `expr` also one of `term`'s, make `bin_op` raise reading `None.type` |
| Parsing.OperandThenLoopDangles | basiclang/parser.py:41-48 | there the first operand parses and the loop after it raises |
| Parsing.LoopDangles | basiclang/parser.py:43-47 | the loop over operator/operand pairs followed by such an operator raises where the last operand is missing |
| Parsing.LoopStepDangles | basiclang/parser.py:43-47 | one turn of that loop raises, on the missing operand of the last term or further on |
| Parsing.OperandThenLoopGoesOn | basiclang/parser.py:43-47 | a pair's operand parses and the loop after it raises |
| Parsing.ParseRunsOut | basiclang/parser.py:25-48 | no tokens at all, or the tokens of any complete `expr`-shaped tree followed by one operator, make `factor` raise reading `None.type` |
| Contexts.NewSymbolTable | basiclang/context.py:16-18 | a new table has no bindings and no parent |
| Contexts.Get | basiclang/context.py:20-24 | a local binding to a value is returned; a missing or `None` binding with no parent gives `None` |
| Contexts.GetIsFirstBinding | basiclang/context.py:20-24 | `get` returns the innermost binding to a value other than `None` along the parent chain |
| Contexts.Set | basiclang/context.py:26-27 | `set` binds the name locally and changes no other name and not the parent |
| Contexts.GetAfterSet | basiclang/context.py:20-27 | a `get` after a `set` sees the new value, unless it is `None`, when the lookup goes on to the parent |
| Contexts.GetAfterSetOther | basiclang/context.py:20-27 | a `set` changes no other name's lookup |
| Contexts.Remove | basiclang/context.py:29-30 | `remove` raises `KeyError` exactly when the name has no local binding; otherwise it deletes only that binding |
| Contexts.RemoveUndoesSet | basiclang/context.py:26-30 | removing a name that `set` just introduced gives the table back |
| Contexts.GetAfterRemove | basiclang/context.py:20-30 | after a successful `remove` the name is looked up in the parent only |
| Contexts.NewContext | basiclang/context.py:8-12 | a context stores its display name, parent and entry position, and owns a fresh table with no bindings and no parent |
| Values.Arith | basiclang/rtresult.py:46-56 | `+ - *` raise `TypeError` exactly when an operand is `None`, `OverflowError` exactly when an `int` of magnitude at least 2^1024 - 2^970 meets a float, and otherwise give an int exactly when both operands are ints |
| Values.TrueDivide | basiclang/rtresult.py:70 | `/` raises `TypeError` on `None`; on numbers it raises exactly on a zero divisor or an overflow (an int quotient of magnitude past the float range, or a huge `int` meeting a float), `ZeroDivisionError` for the zero unless a conversion overflows first, and otherwise gives a float |
| Values.PowAdd | basiclang/rtresult.py:61 | integer powers with non-negative exponents add exponents under multiplication |
| Values.Power | basiclang/rtresult.py:58-63 | int to a non-negative int is the exact power; int to a negative int raises `OverflowError` when either is too large for a float, then `ZeroDivisionError` exactly for base 0, and otherwise gives a float; anything else is `math.pow`, which checks `a` then `b` (`TypeError` on `None`, `OverflowError` on a huge `int`), then raises exactly what the oracle says, and otherwise gives a float |
| Values.Compare | basiclang/rtresult.py:72-94 | on ints the relation itself; with `None`, `==` and `!=` compare identity and orderings raise |
| Values.ToInt | basiclang/rtresult.py:74 | `int()` keeps an int and raises `TypeError` on `None` |
| Values.AndValue | basiclang/rtresult.py:98 | on ints `int(a and b)` is 0 when `a` is 0 and `b` otherwise |
| Values.OrValue | basiclang/rtresult.py:102 | on ints `int(a or b)` is `a` when it is non-zero and `b` otherwise |
| RTResults.NewResult | basiclang/rtresult.py:13-15 | a new result has neither value nor error |
| RTResults.Register | basiclang/rtresult.py:17-20 | `register` returns the sub-result's value, adopts its error only when it is set, and leaves its own value alone |
| RTResults.Success | basiclang/rtresult.py:22-24 | `success` sets the value and keeps the error |
| RTResults.Failure | basiclang/rtresult.py:26-28 | `failure` sets the error and keeps the value |
| RTResults.RegisterAllKeepsLastError | basiclang/rtresult.py:17-20 | after registering any run of sub-results the record holds the last error any of them had (its own if none had one), and its value is untouched |
| RTResults.NewNumber | basiclang/rtresult.py:32-35 | a new number holds its value with no span and no context |
| RTResults.SetPos | basiclang/rtresult.py:37-40 | `set_pos` replaces the span and nothing else |
| RTResults.SetContext | basiclang/rtresult.py:42-44 | `set_context` replaces the context and nothing else |
| RTResults.Copy | basiclang/rtresult.py:107-111 | the copy has the same value, span and context |
| RTResults.Apply | basiclang/rtresult.py:46-56 | `add`, `sub` and `mul` make a fresh number in the left operand's context with no span, holding Python's result, and raise exactly when Python's operator does: its `TypeError` on `None`, its `OverflowError` on a huge `int` meeting a float |
| RTResults.Add | basiclang/rtresult.py:46-48 | on ints the sum, in the left operand's context, with no span |
| RTResults.Sub | basiclang/rtresult.py:50-52 | on ints the difference, in the left operand's context, with no span |
| RTResults.Mul | basiclang/rtresult.py:54-56 | on ints the product, in the left operand's context, with no span |
| RTResults.SubUndoesAdd | basiclang/rtresult.py:46-52 | on ints subtracting what was added gives back the left operand's value and context |
| RTResults.PowNumber | basiclang/rtresult.py:58-63 | `pow` holds Python's power in the left operand's context with no span, and raises exactly when that power does, with its exception |
| RTResults.PowExponentsAdd | basiclang/rtresult.py:58-61 | for an int base, `x ** (m + n)` is `(x ** m) * (x ** n)` |
| RTResults.Div | basiclang/rtresult.py:65-70 | a zero divisor gives no number and a `Division by zero` error spanning the divisor, in the left operand's context; otherwise true division, a float in that context, raising exactly on `None` (a `TypeError`) or an overflow (an `OverflowError`) |
| RTResults.Comp | basiclang/rtresult.py:72-94 | every comparison gives exactly 0 or 1, in the left operand's context; it is 1 exactly when the relation holds and raises exactly when Python's comparison does |
| RTResults.CompOnInts | basiclang/rtresult.py:72-94 | on ints a comparison never raises and gives 1 exactly when the relation holds |
| RTResults.CompRelations | basiclang/rtresult.py:72-94 | on ints `comp_ne` is `1 - comp_eq`, `comp_lt(a, b)` is `comp_gt(b, a)`, `comp_lte` is `comp_lt + comp_eq`, and `comp_gte(a, b)` is `comp_lte(b, a)` |
| RTResults.And | basiclang/rtresult.py:96-98 | `and_` gives an int in the left operand's context; on ints 0 when the left is 0, the right otherwise |
| RTResults.Or | basiclang/rtresult.py:100-102 | `or_` gives an int in the left operand's context; on ints the left when it is non-zero, the right otherwise |
| RTResults.Not | basiclang/rtresult.py:104-105 | `not_` never raises and gives 1 when the value equals 0, 0 otherwise, in the operand's context |
| RTResults.NotAndIsOrNot | basiclang/rtresult.py:96-105 | on ints `not_(a and_ b)` equals `not_(a) or_ not_(b)` |
| RTResults.NotNot | basiclang/rtresult.py:104-105 | negating twice gives 0 for a zero value and 1 otherwise |
| Interpreting.NewNumber | basiclang/interpreter.py:32-34 | a new number holds its value with no span |
| Interpreting.SetPos | basiclang/interpreter.py:36-39 | `set_pos` replaces the span and keeps the value |
| Interpreting.Apply | basiclang/interpreter.py:41-51 | `add`, `sub` and `mul` give a fresh number with no span holding Python's result, and raise exactly when Python's operator does: its `TypeError` on `None`, its `OverflowError` on a huge `int` meeting a float |
| Interpreting.Div | basiclang/interpreter.py:53-58 | a zero divisor gives no number and a context-free `Division by zero` error spanning the divisor; otherwise a float, raising exactly on `None` (a `TypeError`) or an overflow (an `OverflowError`) |
| Interpreting.Operate | basiclang/interpreter.py:85-94 | `+ - * /` dispatch to `add`, `sub`, `mul` and `div`; exactly one of number and error is set; the only error is division by zero, spanning the right operand; any other operator raises `UnboundLocalError` on `error` |
| Interpreting.RegisterAsWritten | basiclang/interpreter.py:17-20 | this `register` returns the sub-result's value but stores the `os.error` alias, not the sub-result's error |
| Interpreting.EvalAsWritten | basiclang/interpreter.py:65-110 | the code as written: exactly one of value and error is set; only a number node ever yields a value; a runtime error survives only straight out of a division node |
| Interpreting.Negate | basiclang/interpreter.py:105-106 | unary minus is multiplication by -1, raising only on `None`; any other operator keeps the operand |
| Interpreting.Eval | basiclang/interpreter.py:65-110 | the evaluator as intended: exactly one of value and error is set; a value spans its whole tree; the only error is a runtime division by zero |
| Interpreting.EvalDenotes | basiclang/interpreter.py:73-110 | on any tree of integer literals under `+ - *` and unary operators, evaluation gives the tree's arithmetic meaning, spanning the tree |
| Interpreting.LeftErrorWins | basiclang/interpreter.py:77-80 | when the left operand fails, that error is the answer and the right operand is never evaluated, even one that would raise |
| Interpreting.RightErrorWins | basiclang/interpreter.py:81-83 | when the right operand fails after the left succeeded, that error is the answer and no operator is applied |
| Interpreting.DivisionByZeroSpansDivisor | basiclang/interpreter.py:53-56 | dividing by an operand equal to zero fails with a `Division by zero` error spanning that operand |
| Interpreting.ArithmeticDispatch | basiclang/interpreter.py:85-98 | two successful operands under `+ - *` give Python's operator on their values, stamped with the whole node's span, or that operator's exception |
| Interpreting.RegisterLosesError | basiclang/interpreter.py:19 | as written, `(1 / 0) + 1` answers the `os.error` alias instead of the division error |
| Interpreting.RegisterKeepsError | basiclang/rtresult.py:17-20 | with the intended `register`, `(1 / 0) + 1` answers the division error, spanning the zero |
| Interpreting.UnaryPlusUnbound | basiclang/interpreter.py:105-107 | as written, `+5` raises `UnboundLocalError` on `err` |
| Interpreting.UnaryPlusPassesThrough | basiclang/interpreter.py:100-110 | as intended, `+5` gives 5, spanning the node |
| Interpreting.NodeHasNoSpan | basiclang/interpreter.py:95-110 | as written, `1 + 2` and `-2` raise `AttributeError` on the node's missing `pos_start` |
| Interpreting.NodeSpanDerived | basiclang/interpreter.py:95-110 | as intended, `1 + 2` gives 3 and `-2` gives -2, each spanning its node |
| Interpreting.UnplacedTreeRaises | basiclang/interpreter.py:65-110 | as written, any tree whose number tokens have no position raises, complete or not: a missing child has no visit method |
| Interpreting.UnsetSpan | basiclang/token.py:21-28 | a tree whose tokens carry no start and no end has no derived span either |
| Interpreting.ParsedTokensLexable | basiclang/parser.py:25-48 | every token of the tree `parse` builds from the lexer's tokens is one the lexer can emit |
| Interpreting.LexableTokensUnplaced | basiclang/lexer.py:43-58 | no token the lexer can emit has a position |
| Interpreting.LexThenParse | basiclang/parser.py:25-48 | lexing the text of any complete `expr`-shaped tree of lexable tokens and parsing the result gives the tree back |
| Interpreting.PipelineAsWrittenRaises | basiclang/interpreter.py:74 | as written, for every text the lexer accepts without error and whose tokens `parse` returns a tree for, evaluating that tree raises |
| Interpreting.PipelineEvaluates | basiclang/interpreter.py:73-110 | as intended, for every text the lexer accepts and `parse` turns into integer arithmetic under `+ - *`, evaluation gives the tree's arithmetic meaning with an unset span |
| Errors.ImportFrom | basiclang/rtresult.py:6 | `from basiclang.error import ...` succeeds exactly when the module defines every name, giving them in order, and otherwise raises `ImportError` for the first missing name |
| Errors.RTErrorImportFails | basiclang/rtresult.py:6 | as written, importing `Error` and `RTError` from a module that defines only `Position`, `Error` and `IllegalCharError` raises `ImportError` for `RTError` |
| Errors.RTErrorImportSucceeds | basiclang/error.py:7-23 | with an `RTError` defined, the import gives both names |

## Left out

- `shell.py` is an interactive `input`/`print` loop and is not part of this model.
- The top-level `basic.py` and `basiclang/basic.py` are not modelled. They are thin wrappers around the pipeline. `Interpreting.LexThenParse` and the two pipeline lemmas state the lexer-to-parser-to-evaluator composition directly.
- The top-level `token.py` is an older duplicate of `basiclang/token.py` and is not part of this model.
- Floating point is symbolic:
  - `float(num_str)` keeps the digits.
  - A float result is the operation that produced it.
  - How a float compares, and what `int()` makes of one, comes from the `FloatOracle` parameter.
- `Values.Power`: the value of `math.pow` is symbolic. Which `ValueError` or `OverflowError` it raises on two convertible numbers is the oracle's `powError`.
- `Values.TrueDivide`: the numeric value of a true division is symbolic. A float quotient that overflows to `inf` is kept symbolic, like every float. The `OverflowError` of an `int` quotient past the float range is modelled.
- `Values.Arith`: a float result that overflows to `inf` is kept symbolic, like every float.
- `Errors.AsStr`: `str()` of a line or column number with more than 4300 digits would raise. That needs a text of at least 10^4300 characters, so `Errors.AsStrParts` assumes nothing about it.
- `Errors.AsStrParts`: states the rendering for a start line and column of at least -1, where `str()` gives plain digits. Positions the lexer builds always qualify. For lower values `Errors.AsStr` writes a leading `-`, as `Decimal.IntToString` states.
- Lexing's digit limit is `sys.get_int_max_str_digits()` at its default of 4300. Python 3.11 and the September 2022 security releases of 3.7 to 3.10 enforce it. Earlier Pythons have no limit, and the limit can be changed at run time. `Lexing.MakeNumber`, `Lexing.MakeNumberRaises`, `Lexing.Scan` and `Lexing.GetTokens` follow the default. Python 3.11 writes the message without the word `digits` after `4300`.
- The `__repr__` methods are presentation only and are not modelled.
- Object identity and mutation are not modelled; positions, tokens and numbers are values:
  - `Position.advance` updates the lexer's cursor in place.
  - `Token` and `Number.copy` make distinct objects.
  - Later mutation of a shared position cannot happen here.
  - `copy` giving a distinct object, and advancing a copy leaving the original unchanged, hold trivially.
- A runtime number's context is an opaque `ContextRef` handle. Its aliasing and weak-reference nature are not modelled.
- Symbol tables and contexts are values too. In Python a table's `parent` is a live shared reference, so a later `set` on the parent is seen by the child. Here the parent is held by value. `Contexts.Get` looks up the parent as it was when the child was built, and `Contexts.Set` on a parent does not reach existing children.
- `Contexts.NewContext` stores the entry position under the name `parant_entry_pos` (`context.py` line 11). Nothing in this snapshot reads it, so the misspelling is not visible in the model.
- `Interpreter.visit` finds its method by name. The model replaces that with a `match` over the node datatype. Its `no_visit_method` exception appears for a `None` child, the only non-node the parser can build.
- Every `Number` operation starts with an `isinstance(other, Number)` check. The branch where the check fails (the method falls off its end and returns `None`) is not modelled, because operands are always numbers here.
- `RTResults.Comp` models `comp_eq`, `comp_ne`, `comp_lt`, `comp_gt`, `comp_lte` and `comp_gte` as one function over the relation (`Eq`, `Ne`, `Lt`, `Gt`, `Le`, `Ge`).
- `error.py` does not define the `RTError` that `rtresult.py` and `interpreter.py` import, so importing either module raises `ImportError`. This is listed under Findings. Past the import, the model's `Errors.RTError` holds exactly the arguments they pass.
- Only lexer and parser states reachable from their constructors are modelled. `Lexing.Scan`, `Parsing.BinOp` and their relatives require `Valid`, which `advance` and the constructors keep.

## Findings

| source | as written | input that shows it | evidently intended | confidence | as-written member | corrected member |
|---|---|---|---|---|---|---|
| basiclang/interpreter.py:19 | `register` stores the module-level `error`, the `os.error` class imported at line 5, instead of `res.error` | `(1 / 0) + 1`, with positioned tokens | store `res.error`, as `rtresult.py` does | not executed | Interpreting.RegisterLosesError | Interpreting.RegisterKeepsError |
| basiclang/interpreter.py:105-107 | `err` is assigned only for a unary `-`, then read for every operator | `UnaryOpNode(PLUS, 5)` | start with `err = None`, so any other operator passes its operand through | not executed | Interpreting.UnaryPlusUnbound | Interpreting.UnaryPlusPassesThrough |
| basiclang/interpreter.py:98 | `node.pos_start` and `node.pos_end` are read, but the node classes of `node.py` never define them (also at line 110) | `1 + 2`, or `-2` | a node spans from its first token to its last, as `Nodes.Start` and `Nodes.End` derive it | not executed | Interpreting.NodeHasNoSpan | Interpreting.NodeSpanDerived |
| basiclang/interpreter.py:74 | `tok.pos_start` is read, but the lexer (`lexer.py` lines 43-58 and 81-83) builds every token without a position, so the attribute is never assigned | the text `1 ` | lexed programs evaluate; the model lets a missing token position stamp an unset span | not executed | Interpreting.PipelineAsWrittenRaises | Interpreting.PipelineEvaluates |
| basiclang/rtresult.py:6 | `from basiclang.error import Error, RTError`, but `error.py` defines no `RTError` (`interpreter.py` line 4 imports it too) | importing `basiclang.rtresult` | `error.py` defines an `RTError` error class | not executed | Errors.RTErrorImportFails | Errors.RTErrorImportSucceeds |
