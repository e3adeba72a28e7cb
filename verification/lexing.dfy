/** The lexer of `basiclang/lexer.py`: text to tokens, or the first illegal
    character. */
module Lexing {

  import opened Wrappers
  import opened Exceptions
  import opened Positions
  import opened Tokens
  import opened Errors
  import Decimal

  /** The lexer's state: file name, text, cursor and the character under it. */
  datatype Lexer = Lexer(fn: string, text: string, pos: Position, curChar: Option<char>)

  /** The character at offset `i`, or `None` past the end. */
  function CharAt(text: string, i: int): Option<char>
  {
    if 0 <= i < |text| then Some(text[i]) else None
  }

  /** Where the cursor stands before any character has been consumed. */
  function StartPosition(fn: string, text: string): Position
  {
    Position(0, 0, 0, fn, text)
  }

  /** The cursor after the first `i` characters of `text`. */
  function PositionAt(fn: string, text: string, i: nat): Position
    requires i <= |text|
  {
    if i == 0 then StartPosition(fn, text) else Positions.Advance(PositionAt(fn, text, i - 1), Some(text[i - 1]))
  }

  /** That cursor is the start advanced over those characters. */
  lemma {:induction false} PositionAtIsAdvanceOver(fn: string, text: string, i: nat)
    requires i <= |text|
    ensures PositionAt(fn, text, i) == AdvanceOver(StartPosition(fn, text), text[..i])
  {
    if i > 0 {
      PositionAtIsAdvanceOver(fn, text, i - 1);
      assert text[..i][..i - 1] == text[..i - 1];
    }
  }

  /** The states the constructor and `advance` can reach: the cursor lies
      within the text, the current character is the one under it, and the
      cursor's line and column are those of that offset. */
  predicate Valid(lx: Lexer)
  {
    && 0 <= lx.pos.idx <= |lx.text|
    && lx.curChar == CharAt(lx.text, lx.pos.idx)
    && lx.pos == PositionAt(lx.fn, lx.text, lx.pos.idx)
  }

  /** `Lexer.advance()`: step the cursor past the current character and read
      the next one. The cursor starts one place before the text, never further. */
  function Advance(lx: Lexer): (r: Lexer)
    requires lx.pos.idx >= -1
    ensures r.fn == lx.fn && r.text == lx.text
    ensures r.pos == Positions.Advance(lx.pos, lx.curChar)
    ensures r.curChar == CharAt(lx.text, lx.pos.idx + 1)
  {
    var pos := Positions.Advance(lx.pos, lx.curChar);
    lx.(pos := pos, curChar := if pos.idx < |lx.text| then Some(lx.text[pos.idx]) else None)
  }

  /** Stepping over a character keeps the state reachable and moves one place. */
  lemma AdvanceKeepsValid(lx: Lexer)
    requires Valid(lx) && lx.curChar.Some?
    ensures Valid(Advance(lx)) && Advance(lx).pos.idx == lx.pos.idx + 1
  {
  }

  /** `Lexer(fn, text)`: the cursor at offset, line and column 0, on the first
      character, or on nothing for empty text. */
  function NewLexer(fn: string, text: string): (lx: Lexer)
    ensures Valid(lx) && lx.fn == fn && lx.text == text
    ensures lx.pos.idx == 0 && lx.pos.ln == 0 && lx.pos.col == 0
    ensures lx.curChar == if |text| > 0 then Some(text[0]) else None
  {
    Advance(Lexer(fn, text, Position(-1, 0, -1, fn, text), None))
  }

  predicate IsBlank(c: char)
  {
    c == ' ' || c == '\t'
  }

  /** The characters a number is made of: `DIGITS + '.'`. */
  predicate InNumber(c: char)
  {
    Decimal.IsDigit(c) || c == '.'
  }

  lemma InNumberIsDigitsOrDot(c: char)
    ensures InNumber(c) <==> c in DIGITS + "."
  {
    DigitsAreDecimal(c);
    assert (DIGITS + ".")[10] == '.';
  }

  /** The kind of the one-character token `c` stands for, if any. */
  function OperatorKind(c: char): (k: Option<TokenType>)
    ensures k.Some? <==> c in "+-*/()"
    ensures k == Some(PLUS) <==> c == '+'
    ensures k == Some(MINUS) <==> c == '-'
    ensures k == Some(MUL) <==> c == '*'
    ensures k == Some(DIV) <==> c == '/'
    ensures k == Some(LPAREN) <==> c == '('
    ensures k == Some(RPAREN) <==> c == ')'
  {
    match c
    case '+' => Some(PLUS)
    case '-' => Some(MINUS)
    case '*' => Some(MUL)
    case '/' => Some(DIV)
    case '(' => Some(LPAREN)
    case ')' => Some(RPAREN)
    case _ => None
  }

  /** A character that stops the lexer with an `IllegalCharError`. */
  predicate IsIllegal(c: char)
  {
    !IsBlank(c) && !InNumber(c) && OperatorKind(c).None?
  }

  /** `text[i]` exists and is a number character. */
  predicate NumberCharAt(text: string, i: int)
  {
    0 <= i < |text| && InNumber(text[i])
  }

  /** `text[i]` exists and is not illegal. */
  predicate LegalAt(text: string, i: int)
  {
    0 <= i < |text| && !IsIllegal(text[i])
  }

  /** Every character of `text[from..to]` is a number character. */
  predicate NumberChars(text: string, from: int, to: int)
  {
    forall i {:trigger NumberCharAt(text, i)} :: from <= i < to ==> NumberCharAt(text, i)
  }

  /** No character of `text[from..to]` is illegal. */
  predicate LegalChars(text: string, from: int, to: int)
  {
    forall i {:trigger LegalAt(text, i)} :: from <= i < to ==> LegalAt(text, i)
  }

  lemma NumberCharsAreLegal(text: string, from: int, to: int)
    requires NumberChars(text, from, to)
    ensures LegalChars(text, from, to)
  {
    forall i | from <= i < to ensures LegalAt(text, i) {
      assert NumberCharAt(text, i);
    }
  }

  /** A slice holds number characters exactly where the text does. */
  lemma NumberCharsSlice(text: string, from: int, to: int)
    requires 0 <= from <= to <= |text|
    ensures NumberChars(text[from..to], 0, to - from) <==> NumberChars(text, from, to)
  {
    var s := text[from..to];
    if NumberChars(text, from, to) {
      forall i | 0 <= i < to - from ensures NumberCharAt(s, i) {
        assert NumberCharAt(text, from + i);
      }
    }
    if NumberChars(s, 0, to - from) {
      forall i | from <= i < to ensures NumberCharAt(text, i) {
        assert NumberCharAt(s, i - from);
      }
    }
  }

  function Dots(s: string): nat
  {
    if s == [] then 0 else (if s[0] == '.' then 1 else 0) + Dots(s[1..])
  }

  /** `text[start..end]` is a longest run of number characters holding at most
      one dot: whatever follows is the end of the text, no number character, or
      a second dot. */
  predicate NumberRun(text: string, start: int, end: int)
  {
    && 0 <= start <= end <= |text|
    && NumberChars(text, start, end)
    && Dots(text[start..end]) <= 1
    && (end < |text| ==> !InNumber(text[end]) || (text[end] == '.' && Dots(text[start..end]) == 1))
  }

  /** The loop of `make_number`, with the digits read so far and the dots seen. */
  function ScanNumber(lx: Lexer, numStr: string, dotCount: nat): (r: (string, nat, Lexer))
    requires Valid(lx)
    decreases |lx.text| - lx.pos.idx
    ensures Valid(r.2) && r.2.fn == lx.fn && r.2.text == lx.text
    ensures lx.pos.idx <= r.2.pos.idx
  {
    match lx.curChar
    case None => (numStr, dotCount, lx)
    case Some(c) =>
      if !InNumber(c) || (c == '.' && dotCount > 0) then (numStr, dotCount, lx)
      else
        AdvanceKeepsValid(lx);
        ScanNumber(Advance(lx), numStr + [c], if c == '.' then dotCount + 1 else dotCount)
  }

  /** A non-empty slice is its first character followed by the rest. */
  lemma SliceCons(s: string, i: int, j: int)
    requires 0 <= i < j <= |s|
    ensures s[i..j] == [s[i]] + s[i + 1..j]
  {
  }

  lemma AppendAssoc(a: string, b: string, c: string)
    ensures (a + b) + c == a + (b + c)
  {
  }

  /** The loop appends the characters it passes to the digits. */
  lemma {:induction false} ScanNumberText(lx: Lexer, numStr: string, dotCount: nat)
    requires Valid(lx)
    decreases |lx.text| - lx.pos.idx
    ensures var r := ScanNumber(lx, numStr, dotCount);
            r.0 == numStr + lx.text[lx.pos.idx..r.2.pos.idx]
  {
    match lx.curChar
    case None =>
    case Some(c) =>
      if !InNumber(c) || (c == '.' && dotCount > 0) {
      } else {
        AdvanceKeepsValid(lx);
        var next := Advance(lx);
        var r := ScanNumber(next, numStr + [c], if c == '.' then dotCount + 1 else dotCount);
        ScanNumberText(next, numStr + [c], if c == '.' then dotCount + 1 else dotCount);
        assert ScanNumber(lx, numStr, dotCount) == r;
        SliceCons(lx.text, lx.pos.idx, r.2.pos.idx);
        AppendAssoc(numStr, [c], lx.text[next.pos.idx..r.2.pos.idx]);
      }
  }

  /** The loop adds the dots it passes to the count. */
  lemma {:induction false} ScanNumberDots(lx: Lexer, numStr: string, dotCount: nat)
    requires Valid(lx)
    decreases |lx.text| - lx.pos.idx
    ensures var r := ScanNumber(lx, numStr, dotCount);
            r.1 == dotCount + Dots(lx.text[lx.pos.idx..r.2.pos.idx])
  {
    match lx.curChar
    case None =>
    case Some(c) =>
      if !InNumber(c) || (c == '.' && dotCount > 0) {
      } else {
        AdvanceKeepsValid(lx);
        var next := Advance(lx);
        var r := ScanNumber(next, numStr + [c], if c == '.' then dotCount + 1 else dotCount);
        ScanNumberDots(next, numStr + [c], if c == '.' then dotCount + 1 else dotCount);
        assert ScanNumber(lx, numStr, dotCount) == r;
        var passed := lx.text[lx.pos.idx..r.2.pos.idx];
        assert passed[0] == c && passed[1..] == lx.text[next.pos.idx..r.2.pos.idx];
      }
  }

  /** Both: the digits and the count grow by what the loop passes. */
  lemma ScanNumberAppends(lx: Lexer, numStr: string, dotCount: nat)
    requires Valid(lx)
    ensures var r := ScanNumber(lx, numStr, dotCount);
            && r.0 == numStr + lx.text[lx.pos.idx..r.2.pos.idx]
            && r.1 == dotCount + Dots(lx.text[lx.pos.idx..r.2.pos.idx])
  {
    ScanNumberText(lx, numStr, dotCount);
    ScanNumberDots(lx, numStr, dotCount);
  }

  /** The loop passes number characters only, at most one of them a dot once a
      dot has been seen, and stops on anything else or on a second dot. */
  lemma {:induction false} ScanNumberStops(lx: Lexer, numStr: string, dotCount: nat)
    requires Valid(lx) && dotCount <= 1
    decreases |lx.text| - lx.pos.idx
    ensures var r := ScanNumber(lx, numStr, dotCount);
            && r.1 <= 1
            && NumberChars(lx.text, lx.pos.idx, r.2.pos.idx)
            && (r.2.curChar.Some? ==> !InNumber(r.2.curChar.value) || (r.2.curChar.value == '.' && r.1 == 1))
  {
    match lx.curChar
    case None =>
    case Some(c) =>
      if !InNumber(c) || (c == '.' && dotCount > 0) {
      } else {
        AdvanceKeepsValid(lx);
        ScanNumberStops(Advance(lx), numStr + [c], if c == '.' then dotCount + 1 else dotCount);
        assert NumberCharAt(lx.text, lx.pos.idx);
      }
  }

  /** Together: the loop reads a longest run of number characters with at most
      one dot. */
  lemma ScanNumberReadsRun(lx: Lexer, numStr: string, dotCount: nat)
    requires Valid(lx) && dotCount <= 1
    ensures var r := ScanNumber(lx, numStr, dotCount);
            && r.0 == numStr + lx.text[lx.pos.idx..r.2.pos.idx]
            && r.1 == dotCount + Dots(lx.text[lx.pos.idx..r.2.pos.idx])
            && r.1 <= 1
            && NumberChars(lx.text, lx.pos.idx, r.2.pos.idx)
            && (r.2.curChar.Some? ==> !InNumber(r.2.curChar.value) || (r.2.curChar.value == '.' && r.1 == 1))
  {
    ScanNumberAppends(lx, numStr, dotCount);
    ScanNumberStops(lx, numStr, dotCount);
  }

  /** What `float()` says of the lone `.`, the one run of number characters it
      cannot read. */
  const FLOAT_OF_DOT: string := "could not convert string to float: '.'"

  /** What `int()` says of an empty string. */
  const INT_OF_EMPTY: string := "invalid literal for int() with base 10: ''"

  /** The default of `sys.get_int_max_str_digits()`: from Python 3.11 on,
      `int()` refuses a decimal string of more digits than this. */
  const INT_MAX_STR_DIGITS: nat := 4300

  const DIGIT_LIMIT_PREFIX: string := "Exceeds the limit (4300 digits) for integer string conversion: value has "

  /** What `int()` says of a string of `n` digits, `n` beyond the limit. */
  function TooManyDigits(n: nat): string
  {
    DIGIT_LIMIT_PREFIX + Decimal.NatToString(n) + " digits; use sys.set_int_max_str_digits() to increase the limit"
  }

  /** The exception `int()` raises on a string beyond the digit limit. */
  predicate IsDigitLimit(e: Exception)
  {
    e.ValueError? && |e.message| >= |DIGIT_LIMIT_PREFIX| && e.message[..|DIGIT_LIMIT_PREFIX|] == DIGIT_LIMIT_PREFIX
  }

  lemma TooManyDigitsIsDigitLimit(n: nat)
    ensures IsDigitLimit(ValueError(TooManyDigits(n)))
  {
    var tail := Decimal.NatToString(n) + " digits; use sys.set_int_max_str_digits() to increase the limit";
    assert TooManyDigits(n) == DIGIT_LIMIT_PREFIX + tail;
    assert (DIGIT_LIMIT_PREFIX + tail)[..|DIGIT_LIMIT_PREFIX|] == DIGIT_LIMIT_PREFIX;
  }

  /** The number in `text[start..end]` is a dotless run of more digits than
      `int()` reads. */
  predicate LongInt(text: string, start: int, end: int)
  {
    NumberRun(text, start, end) && Dots(text[start..end]) == 0 && end - start > INT_MAX_STR_DIGITS
  }

  /** `text[i]` is a dot not followed by a digit, so the number starting there
      is the lone `.`. */
  predicate LoneDot(text: string, i: int)
  {
    0 <= i < |text| && text[i] == '.' && (i + 1 == |text| || !Decimal.IsDigit(text[i + 1]))
  }

  /** Tokens the lexer can produce: no span, no `EOF`, an `INT` holding a
      non-negative value of at most `INT_MAX_STR_DIGITS` digits and a `FLOAT`
      holding a run with one dot and a digit. */
  predicate Lexable(t: Token)
  {
    && t.posStart.None? && t.posEnd.None?
    && match t.kind
       case INT => t.value.IntValue? && t.value.i >= 0 && |Decimal.NatToString(t.value.i)| <= INT_MAX_STR_DIGITS
       case FLOAT => t.value.FloatValue? && FloatText(t.value.digits)
       case EOF => false
       case _ => t.value.NoValue?
  }

  /** The text of a `FLOAT` literal: number characters, one of them a dot. */
  predicate FloatText(s: string)
  {
    |s| >= 2 && Dots(s) == 1 && NumberChars(s, 0, |s|)
  }

  /** `Lexer.make_number()`: read the longest run of number characters with at
      most one dot; no dot gives an `INT`, one dot a `FLOAT`. A run that is
      empty, too long for `int()` or the lone `.` makes `int()` or `float()`
      raise. */
  function MakeNumber(lx: Lexer): (r: Completion<(Token, Lexer)>)
    requires Valid(lx)
    ensures r.Returned? ==>
              && Valid(r.value.1) && r.value.1.fn == lx.fn && r.value.1.text == lx.text
              && lx.pos.idx < r.value.1.pos.idx
              && Lexable(r.value.0) && r.value.0.kind in {INT, FLOAT}
              && LegalChars(lx.text, lx.pos.idx, r.value.1.pos.idx)
    ensures r.Raised? ==>
              if lx.curChar.Some? && InNumber(lx.curChar.value)
              then r.exception == ValueError(FLOAT_OF_DOT) || IsDigitLimit(r.exception)
              else r.exception == ValueError(INT_OF_EMPTY)
  {
    var (numStr, dotCount, next) := ScanNumber(lx, "", 0);
    ScanNumberReadsRun(lx, "", 0);
    ScanFirstChar(lx);
    assert numStr == lx.text[lx.pos.idx..next.pos.idx] && dotCount == Dots(numStr);
    NumberCharsAreLegal(lx.text, lx.pos.idx, next.pos.idx);
    NumberCharsSlice(lx.text, lx.pos.idx, next.pos.idx);
    var tok :- NumberOf(numStr, dotCount);
    Returned((tok, next))
  }

  /** The conversion at the end of `make_number`: `int()` of a dotless run,
      `float()` of a run with its dot. */
  function NumberOf(numStr: string, dotCount: nat): (r: Completion<Token>)
    requires NumberChars(numStr, 0, |numStr|) && dotCount == Dots(numStr) <= 1
    ensures r.Returned? ==> numStr != [] && Lexable(r.value) && r.value.kind in {INT, FLOAT}
    ensures r.Raised? ==>
              if numStr == "" then r.exception == ValueError(INT_OF_EMPTY)
              else r.exception == ValueError(FLOAT_OF_DOT) || IsDigitLimit(r.exception)
  {
    if dotCount == 0 then
      if numStr == "" then Raised(ValueError(INT_OF_EMPTY))
      else if |numStr| > INT_MAX_STR_DIGITS then
        TooManyDigitsIsDigitLimit(|numStr|);
        Raised(ValueError(TooManyDigits(|numStr|)))
      else
        NoDotsAllDigits(numStr);
        Decimal.NatToStringNoLonger(numStr);
        Returned(MakeToken(INT, IntValue(Decimal.Value(numStr)), None, None))
    else if numStr == "." then Raised(ValueError(FLOAT_OF_DOT))
    else
      Returned(MakeToken(FLOAT, FloatValue(numStr), None, None))
  }

  /** What `make_number` reads: a longest run of number characters with at most
      one dot, whose decimal value an `INT` holds and whose text a `FLOAT` holds. */
  lemma MakeNumberReadsRun(lx: Lexer)
    requires Valid(lx) && MakeNumber(lx).Returned?
    ensures var (tok, next) := MakeNumber(lx).value;
            && NumberRun(lx.text, lx.pos.idx, next.pos.idx)
            && var run := lx.text[lx.pos.idx..next.pos.idx];
               && (Dots(run) == 0 ==> Decimal.AllDigits(run) && tok.kind == INT && tok.value == IntValue(Decimal.Value(run)))
               && (Dots(run) == 1 ==> tok.kind == FLOAT && tok.value == FloatValue(run))
  {
    ScanNumberReadsRun(lx, "", 0);
    var (numStr, dotCount, next) := ScanNumber(lx, "", 0);
    assert numStr == lx.text[lx.pos.idx..next.pos.idx] && dotCount == Dots(numStr);
    if dotCount == 0 {
      NumberCharsSlice(lx.text, lx.pos.idx, next.pos.idx);
      NoDotsAllDigits(numStr);
    }
  }

  /** When `make_number` raises: on a non-number character always (`int('')`),
      on a number character exactly when it is the lone `.` (`float('.')`) or
      a dotless run of more than `INT_MAX_STR_DIGITS` digits. */
  lemma MakeNumberRaises(lx: Lexer)
    requires Valid(lx)
    ensures lx.curChar.Some? && InNumber(lx.curChar.value) ==>
              && (MakeNumber(lx).Raised? <==> LoneDot(lx.text, lx.pos.idx) || exists end :: LongInt(lx.text, lx.pos.idx, end))
              && (LoneDot(lx.text, lx.pos.idx) ==> MakeNumber(lx) == Raised(ValueError(FLOAT_OF_DOT)))
              && (forall end :: LongInt(lx.text, lx.pos.idx, end) ==>
                    MakeNumber(lx) == Raised(ValueError(TooManyDigits(end - lx.pos.idx))))
    ensures lx.curChar.None? || !InNumber(lx.curChar.value) ==> MakeNumber(lx) == Raised(ValueError(INT_OF_EMPTY))
  {
    if lx.curChar.Some? && InNumber(lx.curChar.value) {
      MakeNumberOnRun(lx);
      if LoneDot(lx.text, lx.pos.idx) {
        MakeNumberOnLoneDot(lx);
      }
      forall end | LongInt(lx.text, lx.pos.idx, end)
        ensures MakeNumber(lx) == Raised(ValueError(TooManyDigits(end - lx.pos.idx)))
      {
        MakeNumberOnLongInt(lx, end);
      }
    } else {
      ScanFirstChar(lx);
    }
  }

  /** On a number character, `make_number` raises exactly on the lone `.` and
      on a dotless run beyond the limit. */
  lemma MakeNumberOnRun(lx: Lexer)
    requires Valid(lx) && lx.curChar.Some? && InNumber(lx.curChar.value)
    ensures var e := ScanNumber(lx, "", 0).2.pos.idx;
            && NumberRun(lx.text, lx.pos.idx, e)
            && (MakeNumber(lx).Raised? <==> LoneDot(lx.text, lx.pos.idx) || LongInt(lx.text, lx.pos.idx, e))
  {
    ScanIsRun(lx);
    MakeNumberOfScan(lx);
    var r := ScanNumber(lx, "", 0);
    LongIntOfRun(lx.text, lx.pos.idx, r.2.pos.idx, r.0, r.1);
  }

  /** The lone `.` makes `float()` raise. */
  lemma MakeNumberOnLoneDot(lx: Lexer)
    requires Valid(lx) && LoneDot(lx.text, lx.pos.idx)
    ensures MakeNumber(lx) == Raised(ValueError(FLOAT_OF_DOT))
  {
    ScanIsRun(lx);
    MakeNumberOfScan(lx);
  }

  /** A dotless run beyond the limit makes `int()` raise, naming its length. */
  lemma MakeNumberOnLongInt(lx: Lexer, end: int)
    requires Valid(lx) && LongInt(lx.text, lx.pos.idx, end)
    ensures MakeNumber(lx) == Raised(ValueError(TooManyDigits(end - lx.pos.idx)))
  {
    assert NumberCharAt(lx.text, lx.pos.idx);
    ScanIsRun(lx);
    MakeNumberOfScan(lx);
    var r := ScanNumber(lx, "", 0);
    NumberRunUnique(lx.text, lx.pos.idx, end, r.2.pos.idx);
    LongIntOfRun(lx.text, lx.pos.idx, r.2.pos.idx, r.0, r.1);
  }

  /** A run read by the loop is too long for `int()` exactly when it has no
      dot and more than `INT_MAX_STR_DIGITS` characters. */
  lemma LongIntOfRun(text: string, start: int, end: int, numStr: string, dotCount: nat)
    requires NumberRun(text, start, end) && numStr == text[start..end] && dotCount == Dots(numStr)
    ensures LongInt(text, start, end) <==> dotCount == 0 && |numStr| > INT_MAX_STR_DIGITS
    ensures end - start == |numStr|
  {
  }

  /** Which outcome of `make_number` each loop result leads to. */
  lemma MakeNumberOfScan(lx: Lexer)
    requires Valid(lx)
    ensures var r := ScanNumber(lx, "", 0);
            && (MakeNumber(lx).Raised? <==> r.0 == "" || r.0 == "." || (r.1 == 0 && |r.0| > INT_MAX_STR_DIGITS))
            && (r.0 == "." ==> MakeNumber(lx) == Raised(ValueError(FLOAT_OF_DOT)))
            && (r.1 == 0 && |r.0| > INT_MAX_STR_DIGITS ==> MakeNumber(lx) == Raised(ValueError(TooManyDigits(|r.0|))))
  {
    ScanNumberReadsRun(lx, "", 0);
  }

  /** Begun on a number character, the loop reads a non-empty longest run. */
  lemma ScanIsRun(lx: Lexer)
    requires Valid(lx) && lx.curChar.Some? && InNumber(lx.curChar.value)
    ensures var r := ScanNumber(lx, "", 0);
            && NumberRun(lx.text, lx.pos.idx, r.2.pos.idx) && lx.pos.idx < r.2.pos.idx
            && r.0 == lx.text[lx.pos.idx..r.2.pos.idx] && r.1 == Dots(r.0)
            && (r.0 == "." <==> LoneDot(lx.text, lx.pos.idx))
  {
    ScanNumberReadsRun(lx, "", 0);
    ScanFirstChar(lx);
  }

  /** A run begun on a number character is never empty, and is the lone `.`
      exactly when it starts with a dot not followed by a digit. */
  lemma ScanFirstChar(lx: Lexer)
    requires Valid(lx)
    ensures lx.curChar.Some? && InNumber(lx.curChar.value) ==>
              var r := ScanNumber(lx, "", 0);
              && lx.pos.idx < r.2.pos.idx
              && (r.0 == "." <==> LoneDot(lx.text, lx.pos.idx))
    ensures lx.curChar.None? || !InNumber(lx.curChar.value) ==> ScanNumber(lx, "", 0) == ("", 0, lx)
  {
    if lx.curChar.None? || !InNumber(lx.curChar.value) { return; }
    var c := lx.curChar.value;
    var d := if c == '.' then 1 else 0;
    AdvanceKeepsValid(lx);
    var next := Advance(lx);
    assert "" + [c] == [c];
    assert ScanNumber(lx, "", 0) == ScanNumber(next, [c], d);
    ScanNumberAppends(next, [c], d);
    var r := ScanNumber(next, [c], d);
    assert r.0 == [c] + lx.text[next.pos.idx..r.2.pos.idx];
    if c == '.' {
      assert [c] == ".";
      ScanAfterDot(next);
      assert next.curChar == CharAt(lx.text, lx.pos.idx + 1);
    } else {
      assert r.0[0] == c;
      assert !LoneDot(lx.text, lx.pos.idx);
    }
  }

  /** After a leading dot the run is the dot alone exactly when no digit
      follows it. */
  lemma ScanAfterDot(next: Lexer)
    requires Valid(next)
    ensures ScanNumber(next, ".", 1).0 == "." <==> !(next.curChar.Some? && Decimal.IsDigit(next.curChar.value))
  {
    var r := ScanNumber(next, ".", 1);
    if next.curChar.Some? && Decimal.IsDigit(next.curChar.value) {
      AdvanceKeepsValid(next);
      assert "." + [next.curChar.value] == ['.', next.curChar.value];
      assert r == ScanNumber(Advance(next), ['.', next.curChar.value], 1);
      ScanNumberAppends(Advance(next), ['.', next.curChar.value], 1);
      assert |r.0| >= 2;
    } else {
      assert r == (".", 1, next);
    }
  }

  /** Number characters without a dot are digits. */
  lemma NoDotsAllDigits(s: string)
    requires NumberChars(s, 0, |s|)
    requires Dots(s) == 0
    ensures Decimal.AllDigits(s)
  {
    forall i | 0 <= i < |s| ensures Decimal.IsDigit(s[i]) {
      assert NumberCharAt(s, i);
      if s[i] == '.' { DotCounted(s, i); }
    }
  }

  /** A dot anywhere in `s` is counted. */
  lemma {:induction false} DotCounted(s: string, i: int)
    requires 0 <= i < |s| && s[i] == '.'
    ensures Dots(s) >= 1
  {
    if i > 0 {
      DotCounted(s[1..], i - 1);
    }
  }

  lemma {:induction false} DotsAppend(a: string, b: string)
    ensures Dots(a + b) == Dots(a) + Dots(b)
  {
    if a == [] {
      assert a + b == b;
    } else {
      assert (a + b)[1..] == a[1..] + b;
      DotsAppend(a[1..], b);
    }
  }

  /** A run of number characters ends at one place only. */
  lemma NumberRunUnique(text: string, start: int, e1: int, e2: int)
    requires NumberRun(text, start, e1) && NumberRun(text, start, e2)
    ensures e1 == e2
  {
    if e1 < e2 {
      RunCannotContinue(text, start, e1, e2);
    } else if e2 < e1 {
      RunCannotContinue(text, start, e2, e1);
    }
  }

  /** Number characters past the end of a run include a second dot. */
  lemma RunCannotContinue(text: string, start: int, short: int, long: int)
    requires NumberRun(text, start, short) && short < long <= |text| && NumberChars(text, start, long)
    ensures Dots(text[start..long]) >= 2
  {
    assert NumberCharAt(text, short);
    assert text[start..long] == text[start..short] + text[short..long];
    DotsAppend(text[start..short], text[short..long]);
    DotCounted(text[short..long], 0);
  }

  /** The error `get_tokens` reports for the illegal character `c` at `p`:
      one character wide, with the character quoted as its details. */
  function IllegalAt(p: Position, c: char): (e: Error)
    ensures e.errorName == ILLEGAL_CHARACTER && e.posStart == p
    ensures e.posEnd == Positions.Advance(p, Some(c)) && e.posEnd.idx == p.idx + 1
    ensures e.details == "'" + [c] + "'"
  {
    IllegalCharError(Copy(p), Positions.Advance(p, Some(c)), "'" + [c] + "'")
  }

  /** One turn of the `get_tokens` loop. */
  datatype StepResult =
    | Done
    | Skipped(next: Lexer)
    | Emitted(token: Token, next: Lexer)
    | Illegal(error: Error)
    | Crashed(exception: Exception)

  /** The branch of `get_tokens` taken on the current character. Blanks are
      consumed without a token, each operator character gives its one token,
      a number character starts `make_number`, anything else is illegal. */
  function Step(lx: Lexer): (r: StepResult)
    requires Valid(lx)
    ensures r.Done? <==> lx.curChar.None?
    ensures r.Skipped? || r.Emitted? ==>
              && Valid(r.next) && r.next.fn == lx.fn && r.next.text == lx.text
              && lx.pos.idx < r.next.pos.idx
              && LegalChars(lx.text, lx.pos.idx, r.next.pos.idx)
    ensures r.Emitted? ==> Lexable(r.token)
    ensures lx.curChar.Some? && IsBlank(lx.curChar.value) ==> r == Skipped(Advance(lx))
    ensures lx.curChar.Some? && OperatorKind(lx.curChar.value).Some? ==>
              r == Emitted(Token(OperatorKind(lx.curChar.value).value, NoValue, None, None), Advance(lx))
    ensures lx.curChar.Some? && InNumber(lx.curChar.value) ==>
              match MakeNumber(lx)
              case Returned((tok, next)) => r == Emitted(tok, next)
              case Raised(e) => r == Crashed(e)
    ensures r.Illegal? <==> lx.curChar.Some? && IsIllegal(lx.curChar.value)
    ensures r.Illegal? ==> r.error == IllegalAt(lx.pos, lx.curChar.value)
    ensures r.Crashed? ==> lx.curChar.Some? && InNumber(lx.curChar.value)
    ensures r.Crashed? ==> r.exception == ValueError(FLOAT_OF_DOT) || IsDigitLimit(r.exception)
  {
    match lx.curChar
    case None => Done
    case Some(c) =>
      if IsBlank(c) then
        AdvanceKeepsValid(lx);
        assert LegalAt(lx.text, lx.pos.idx);
        Skipped(Advance(lx))
      else if InNumber(c) then
        match MakeNumber(lx)
        case Returned((tok, next)) => Emitted(tok, next)
        case Raised(e) => Crashed(e)
      else if OperatorKind(c).Some? then
        AdvanceKeepsValid(lx);
        assert LegalAt(lx.text, lx.pos.idx);
        Emitted(MakeToken(OperatorKind(c).value, NoValue, None, None), Advance(lx))
      else
        Illegal(IllegalAt(lx.pos, c))
  }
  /** The error is the one for the first illegal character at or after `from`. */
  predicate FirstIllegal(fn: string, text: string, from: int, e: Error)
  {
    var k := e.posStart.idx;
    && 0 <= from <= k < |text|
    && IsIllegal(text[k])
    && LegalChars(text, from, k)
    && e == IllegalAt(PositionAt(fn, text, k), text[k])
  }

  /** The `get_tokens` loop from the current state: the tokens it appends
      from here on, or the error that discards them all. */
  function Scan(lx: Lexer): (r: Completion<(seq<Token>, Option<Error>)>)
    requires Valid(lx)
    decreases |lx.text| - lx.pos.idx
    ensures r.Raised? ==> r.exception == ValueError(FLOAT_OF_DOT) || IsDigitLimit(r.exception)
    ensures r.Returned? && r.value.1.Some? ==>
              r.value.0 == [] && FirstIllegal(lx.fn, lx.text, lx.pos.idx, r.value.1.value)
    ensures r.Returned? && r.value.1.None? ==>
              (forall t <- r.value.0 :: Lexable(t)) && LegalChars(lx.text, lx.pos.idx, |lx.text|)
  {
    match Step(lx)
    case Done => Returned(([], None))
    case Skipped(next) => Scan(next)
    case Emitted(tok, next) =>
      (match Scan(next)
       case Returned((ts, None)) => Returned(([tok] + ts, None))
       case other => other)
    case Illegal(e) => Returned(([], Some(e)))
    case Crashed(e) => Raised(e)
  }

  /** `Lexer.get_tokens()`: the tokens in source order and no error, or no
      tokens and the error for the first illegal character. No `EOF` token is
      appended. The lone `.` and an integer of more than `INT_MAX_STR_DIGITS`
      digits make the call raise. */
  function GetTokens(lx: Lexer): (r: Completion<(seq<Token>, Option<Error>)>)
    requires Valid(lx)
    ensures r.Raised? ==> r.exception == ValueError(FLOAT_OF_DOT) || IsDigitLimit(r.exception)
    ensures r.Returned? && r.value.1.Some? ==>
              r.value.0 == [] && FirstIllegal(lx.fn, lx.text, lx.pos.idx, r.value.1.value)
    ensures r.Returned? && r.value.1.None? ==>
              (forall t <- r.value.0 :: Lexable(t)) && LegalChars(lx.text, lx.pos.idx, |lx.text|)
  {
    Scan(lx)
  }

  /** Lexing a whole text from a fresh lexer. */
  function Tokenize(fn: string, text: string): Completion<(seq<Token>, Option<Error>)>
  {
    GetTokens(NewLexer(fn, text))
  }

  /** The text of a token the lexer can produce. */
  function Lexeme(t: Token): string
    requires Lexable(t)
  {
    match t.kind
    case INT => Decimal.NatToString(t.value.i)
    case FLOAT => t.value.digits
    case PLUS => "+"
    case MINUS => "-"
    case MUL => "*"
    case DIV => "/"
    case LPAREN => "("
    case RPAREN => ")"
  }

  /** A source text for a token sequence: each lexeme followed by a blank. */
  function Render(ts: seq<Token>): string
    requires forall t <- ts :: Lexable(t)
  {
    if ts == [] then "" else Lexeme(ts[0]) + " " + Render(ts[1..])
  }

  lemma {:induction false} DigitsHaveNoDots(s: string)
    requires Decimal.AllDigits(s)
    ensures Dots(s) == 0 && NumberChars(s, 0, |s|)
  {
    if s != [] {
      DigitsHaveNoDots(s[1..]);
    }
    forall i | 0 <= i < |s| ensures NumberCharAt(s, i) {
    }
  }

  /** Dropping a known prefix from the rest of a text. */
  lemma SliceRest(text: string, idx: int, w: string, rest: string)
    requires 0 <= idx <= |text| && text[idx..] == w + rest
    ensures idx + |w| <= |text| && text[idx + |w|..] == rest
  {
    assert text[idx + |w|..] == text[idx..][|w|..];
  }

  /** A number lexeme followed by a blank is a whole run, and not the lone `.`. */
  lemma NumberLexemeIsRun(text: string, start: int, t: Token, rest: string)
    requires Lexable(t) && (t.kind == INT || t.kind == FLOAT)
    requires 0 <= start <= |text| && text[start..] == Lexeme(t) + (" " + rest)
    ensures start + |Lexeme(t)| < |text|
    ensures NumberRun(text, start, start + |Lexeme(t)|)
    ensures InNumber(text[start]) && !LoneDot(text, start)
    ensures Dots(text[start..start + |Lexeme(t)|]) == (if t.kind == INT then 0 else 1)
  {
    var w := Lexeme(t);
    assert text[start..start + |w|] == w;
    assert text[start + |w|] == ' ';
    if t.kind == INT {
      DigitsHaveNoDots(w);
    }
    NumberCharsSlice(text, start, start + |w|);
    assert NumberCharAt(w, 0);
    assert text[start] == w[0];
    if w[0] == '.' {
      assert NumberCharAt(w, 1);
      assert w[1] == text[start + 1];
      assert w == [w[0]] + w[1..];
      assert Dots(w[1..]) == 0;
      if w[1] == '.' {
        assert false;
      }
    }
  }

  /** A number lexeme is never too long for `int()`. */
  lemma NotLongInt(text: string, start: int, t: Token, rest: string)
    requires Lexable(t) && (t.kind == INT || t.kind == FLOAT)
    requires 0 <= start <= |text| && text[start..] == Lexeme(t) + (" " + rest)
    ensures forall end :: !LongInt(text, start, end)
  {
    NumberLexemeIsRun(text, start, t, rest);
    forall end | LongInt(text, start, end) ensures false {
      NumberRunUnique(text, start, end, start + |Lexeme(t)|);
    }
  }

  /** `make_number` on a number lexeme followed by a blank gives that token
      and stops right before the blank. */
  lemma MakeNumberOnLexeme(lx: Lexer, t: Token, rest: string)
    requires Valid(lx) && Lexable(t) && (t.kind == INT || t.kind == FLOAT)
    requires lx.text[lx.pos.idx..] == Lexeme(t) + (" " + rest)
    ensures MakeNumber(lx).Returned?
    ensures MakeNumber(lx).value.0 == t
    ensures MakeNumber(lx).value.1.pos.idx == lx.pos.idx + |Lexeme(t)|
  {
    var w := Lexeme(t);
    var start := lx.pos.idx;
    NumberLexemeIsRun(lx.text, start, t, rest);
    MakeNumberRaises(lx);
    NotLongInt(lx.text, start, t, rest);
    var m := MakeNumber(lx);
    assert m.Returned?;
    MakeNumberReadsRun(lx);
    var tok, next := m.value.0, m.value.1;
    NumberRunUnique(lx.text, start, start + |w|, next.pos.idx);
    assert lx.text[start..next.pos.idx] == w;
    if t.kind == INT {
      assert tok.value == IntValue(Decimal.Value(w));
      Decimal.ValueOfNatToString(t.value.i);
      assert tok == t;
    } else {
      assert tok == t;
    }
  }

  /** The branch taken on a lexeme followed by a blank emits the token and
      stops right before the blank. */
  lemma StepOnLexeme(lx: Lexer, t: Token, rest: string)
    requires Valid(lx) && Lexable(t)
    requires lx.text[lx.pos.idx..] == Lexeme(t) + (" " + rest)
    ensures Step(lx).Emitted? && Step(lx).token == t
    ensures Step(lx).next.pos.idx == lx.pos.idx + |Lexeme(t)|
    ensures Valid(Step(lx).next) && Step(lx).next.text[Step(lx).next.pos.idx..] == " " + rest
  {
    SliceRest(lx.text, lx.pos.idx, Lexeme(t), " " + rest);
    if t.kind == INT || t.kind == FLOAT {
      MakeNumberOnLexeme(lx, t, rest);
      NumberLexemeIsRun(lx.text, lx.pos.idx, t, rest);
    } else {
      assert lx.curChar == Some(Lexeme(t)[0]);
    }
  }

  /** The branch taken on a blank skips it. */
  lemma SkipBlank(lx: Lexer, rest: string)
    requires Valid(lx) && lx.text[lx.pos.idx..] == " " + rest
    ensures Step(lx) == Skipped(Advance(lx))
    ensures Advance(lx).text[Advance(lx).pos.idx..] == rest
  {
    assert lx.curChar == Some(' ');
    SliceRest(lx.text, lx.pos.idx, " ", rest);
  }

  /** A turn that skips a blank hands over to the next turn; one that emits a
      token puts it before what the next turns find. */
  lemma ScanContinues(lx: Lexer)
    requires Valid(lx)
    ensures Step(lx).Skipped? ==> Scan(lx) == Scan(Step(lx).next)
    ensures Step(lx).Emitted? && Scan(Step(lx).next).Returned? && Scan(Step(lx).next).value.1.None? ==>
              Scan(lx) == Returned(([Step(lx).token] + Scan(Step(lx).next).value.0, None))
  {
  }

  /** A lexeme and its blank take two turns, which emit the token and skip the
      blank. */
  lemma LexemeRound(lx: Lexer, t: Token, rest: string)
    requires Valid(lx) && Lexable(t)
    requires lx.text[lx.pos.idx..] == Lexeme(t) + (" " + rest)
    ensures Step(lx).Emitted? && Valid(Advance(Step(lx).next))
    ensures var after := Advance(Step(lx).next);
            && after.text == lx.text && after.text[after.pos.idx..] == rest
            && (Scan(after).Returned? && Scan(after).value.1.None? ==>
                  Scan(lx) == Returned(([t] + Scan(after).value.0, None)))
  {
    StepOnLexeme(lx, t, rest);
    ScanContinues(lx);
    SkipBlank(Step(lx).next, rest);
    ScanContinues(Step(lx).next);
  }

  /** Lexing a rendered token sequence from any offset gives those tokens back. */
  lemma {:induction false} ScanRendered(lx: Lexer, ts: seq<Token>)
    requires Valid(lx) && forall t <- ts :: Lexable(t)
    requires lx.text[lx.pos.idx..] == Render(ts)
    decreases |ts|
    ensures Scan(lx) == Returned((ts, None))
  {
    if ts == [] {
      assert lx.curChar.None?;
    } else {
      var t := ts[0];
      var rest := Render(ts[1..]);
      assert lx.text[lx.pos.idx..] == Lexeme(t) + (" " + rest);
      LexemeRound(lx, t, rest);
      ScanRendered(Advance(Step(lx).next), ts[1..]);
      ConsRest(ts);
    }
  }

  lemma ConsRest<T>(s: seq<T>)
    requires s != []
    ensures [s[0]] + s[1..] == s
  {
  }

  /** Lexing what `Render` writes reproduces the tokens, in order. */
  lemma TokenizeRender(fn: string, ts: seq<Token>)
    requires forall t <- ts :: Lexable(t)
    ensures Tokenize(fn, Render(ts)) == Returned((ts, None))
  {
    var lx := NewLexer(fn, Render(ts));
    assert lx.text[lx.pos.idx..] == Render(ts);
    ScanRendered(lx, ts);
  }

  /** Whatever the lexer accepts, it accepts again from its rendering, with the
      same tokens. */
  lemma TokenizeAgain(fn: string, text: string)
    requires Tokenize(fn, text).Returned? && Tokenize(fn, text).value.1.None?
    ensures var ts := Tokenize(fn, text).value.0;
            (forall t <- ts :: Lexable(t)) && Tokenize(fn, Render(ts)) == Returned((ts, None))
  {
    TokenizeRender(fn, Tokenize(fn, text).value.0);
  }
}
