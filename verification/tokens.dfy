/** Token kinds, the digit alphabet and the `Token` record of `basiclang/token.py`. */
module Tokens {

  import opened Wrappers
  import opened Positions
  import Decimal

  const DIGITS: string := "0123456789"

  /** Membership in `DIGITS` is exactly "is a decimal digit". */
  lemma DigitsAreDecimal(c: char)
    ensures c in DIGITS <==> Decimal.IsDigit(c)
  {
    if Decimal.IsDigit(c) {
      assert DIGITS[c as int - '0' as int] == c;
    }
  }

  datatype TokenType = INT | FLOAT | PLUS | MINUS | MUL | DIV | LPAREN | RPAREN | EOF

  /** The string constant the source uses for each kind (`TT_INT` and so on). */
  function TypeName(t: TokenType): string
  {
    match t
    case INT => "TT_INT"
    case FLOAT => "FLOAT"
    case PLUS => "PLUS"
    case MINUS => "MINUS"
    case MUL => "MUL"
    case DIV => "DIV"
    case LPAREN => "LPAREN"
    case RPAREN => "RPAREN"
    case EOF => "EOF"
  }

  /** No two kinds share a constant, so comparing type strings compares kinds. */
  lemma TypeNamesDistinct(a: TokenType, b: TokenType)
    ensures TypeName(a) == TypeName(b) <==> a == b
  {
  }

  /** The literal a token carries: none, an `int`, or a float kept as its digits. */
  datatype TokenValue = NoValue | IntValue(i: int) | FloatValue(digits: string)

  /** A token. A span end that is `None` is an attribute the constructor never
      assigned; the same holds for the start. */
  datatype Token = Token(kind: TokenType, value: TokenValue, posStart: Option<Position>, posEnd: Option<Position>)

  /** `Token(type_, value_, pos_start, pos_end)`: a start alone gives a
      one-character span; an explicit end overrides it. The stored positions
      are copies, which for values means equal positions. */
  function MakeToken(kind: TokenType, value: TokenValue, posStart: Option<Position>, posEnd: Option<Position>): (t: Token)
    ensures t.kind == kind && t.value == value
    ensures t.posStart == posStart
    ensures posEnd.Some? ==> t.posEnd == posEnd
    ensures posEnd.None? && posStart.Some? ==>
              && t.posEnd.Some?
              && t.posEnd.value.idx == posStart.value.idx + 1
              && t.posEnd.value.col == posStart.value.col + 1
              && t.posEnd.value.ln == posStart.value.ln
              && t.posEnd.value.fn == posStart.value.fn
    ensures posEnd.None? && posStart.None? ==> t.posEnd.None?
  {
    var start := if posStart.Some? then Some(Copy(posStart.value)) else None;
    var defaultEnd := if posStart.Some? then Some(Advance(Copy(posStart.value), None)) else None;
    var end := if posEnd.Some? then Some(Copy(posEnd.value)) else defaultEnd;
    Token(kind, value, start, end)
  }
}
