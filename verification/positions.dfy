/** The source cursor of `basiclang/position.py`. */
module Positions {

  import opened Wrappers

  /** Offset, line and column (all 0-based), file name and full text. */
  datatype Position = Position(idx: int, ln: int, col: int, fn: string, ftxt: string)

  /** `Position.advance(cur_char)`: one step past `curChar`; `None` stands for
      a call without a character. */
  function Advance(p: Position, curChar: Option<char>): (r: Position)
    ensures r.idx == p.idx + 1
    ensures curChar == Some('\n') ==> r.ln == p.ln + 1 && r.col == 0
    ensures curChar != Some('\n') ==> r.ln == p.ln && r.col == p.col + 1
    ensures r.fn == p.fn && r.ftxt == p.ftxt
  {
    var stepped := p.(idx := p.idx + 1, col := p.col + 1);
    if curChar == Some('\n') then stepped.(ln := stepped.ln + 1, col := 0) else stepped
  }

  /** `Position.copy()`. Positions are values here, so the copy is equal to the
      original and nothing done to one can affect the other. */
  function Copy(p: Position): (r: Position)
    ensures r.idx == p.idx && r.ln == p.ln && r.col == p.col
    ensures r.fn == p.fn && r.ftxt == p.ftxt
  {
    Position(p.idx, p.ln, p.col, p.fn, p.ftxt)
  }

  /** Advancing over each character of `s` in turn. */
  function AdvanceOver(p: Position, s: string): Position
  {
    if s == [] then p else Advance(AdvanceOver(p, s[..|s| - 1]), Some(s[|s| - 1]))
  }

  function Newlines(s: string): nat
  {
    if s == [] then 0 else Newlines(s[..|s| - 1]) + (if s[|s| - 1] == '\n' then 1 else 0)
  }

  /** How many characters follow the last newline of `s` (all of them if none). */
  function SinceNewline(s: string): nat
  {
    if s == [] || s[|s| - 1] == '\n' then 0 else SinceNewline(s[..|s| - 1]) + 1
  }

  /** Where the cursor ends up after a stretch of text: the offset moves by its
      length, the line by its newlines, and the column restarts after the last
      newline. */
  lemma {:induction false} AdvanceOverCounts(p: Position, s: string)
    ensures AdvanceOver(p, s).idx == p.idx + |s|
    ensures AdvanceOver(p, s).ln == p.ln + Newlines(s)
    ensures AdvanceOver(p, s).col == if '\n' in s then SinceNewline(s) else p.col + |s|
    ensures AdvanceOver(p, s).fn == p.fn && AdvanceOver(p, s).ftxt == p.ftxt
  {
    if s != [] {
      var init := s[..|s| - 1];
      AdvanceOverCounts(p, init);
      assert '\n' in s <==> '\n' in init || s[|s| - 1] == '\n' by {
        assert s == init + [s[|s| - 1]];
      }
    }
  }
}
