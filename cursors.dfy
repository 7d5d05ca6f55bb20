/**
 * The cursor (src/cursor.rs): a position in characters plus the "sticky"
 * column that vertical moves try to return to. Each move takes the length
 * of the row it concerns (and, moving down, the number of rows) from its
 * caller, and returns whether a further move in the same direction is
 * possible from where it ends.
 */
module Cursors {
  import opened Naturals

  datatype Position = Position(col: nat, row: nat, wantedCol: nat)

  /**
   * The column a vertical move lands on: the wanted column, clamped to the
   * last character of the target row (`row_len.checked_sub(1).unwrap_or(0)`),
   * so 0 on an empty row.
   */
  function LandingCol(wantedCol: nat, rowLen: nat): (c: nat)
    ensures c <= wantedCol
    ensures rowLen > 0 ==> c < rowLen
    ensures rowLen == 0 ==> c == 0
    ensures rowLen > wantedCol ==> c == wantedCol
    ensures c == wantedCol || c + 1 == rowLen || c == 0
  {
    Min(wantedCol, if rowLen >= 1 then rowLen - 1 else 0)
  }

  /**
   * `move_up`: one row up unless on row 0, landing on the wanted column; the
   * result tells whether the cursor is still below row 0, so it is false
   * both when nothing moved and after a move onto row 0.
   */
  function Up(p: Position, rowLen: nat): (r: (Position, bool))
    ensures r.0.wantedCol == p.wantedCol
    ensures p.row > 0 ==> r.0.row + 1 == p.row && r.0.col == LandingCol(p.wantedCol, rowLen)
    ensures p.row == 0 ==> r.0 == p
    ensures r.1 <==> r.0.row > 0
    ensures r.1 ==> r.0.row + 1 == p.row
    ensures !r.1 && r.0 != p ==> p.row == 1 && r.0.row == 0
  {
    var q := if p.row > 0 then p.(row := p.row - 1, col := LandingCol(p.wantedCol, rowLen)) else p;
    (q, q.row > 0)
  }

  /**
   * `move_down`: one row down while a row below exists, landing on the wanted
   * column; the result tells whether yet another row lies below.
   */
  function Down(p: Position, rowLen: nat, numRows: nat): (r: (Position, bool))
    ensures r.0.wantedCol == p.wantedCol
    ensures p.row + 1 < numRows ==> r.0.row == p.row + 1 && r.0.col == LandingCol(p.wantedCol, rowLen)
    ensures p.row + 1 >= numRows ==> r.0 == p
    ensures p.row < numRows ==> r.0.row < numRows
    ensures r.1 <==> r.0.row + 1 < numRows
    ensures r.1 ==> r.0.row == p.row + 1
    ensures !r.1 && r.0 != p ==> r.0.row + 1 == numRows
  {
    var q := if p.row + 1 < numRows then p.(row := p.row + 1, col := LandingCol(p.wantedCol, rowLen)) else p;
    (q, q.row + 1 < numRows)
  }

  /**
   * `move_right`: one column right while a character lies to the right; a move
   * sets the wanted column. The result tells whether yet another lies there.
   */
  function Right(p: Position, rowLen: nat): (r: (Position, bool))
    ensures r.0.row == p.row
    ensures p.col + 1 < rowLen ==> r.0.col == p.col + 1 && r.0.wantedCol == r.0.col
    ensures p.col + 1 >= rowLen ==> r.0 == p
    ensures p.col < rowLen ==> r.0.col < rowLen
    ensures r.1 <==> r.0.col + 1 < rowLen
    ensures r.1 ==> r.0.col == p.col + 1
  {
    var q := if p.col + 1 < rowLen then p.(col := p.col + 1, wantedCol := p.col + 1) else p;
    (q, q.col + 1 < rowLen)
  }

  /**
   * `move_left`: one column left unless on column 0; a move sets the wanted
   * column. The result tells whether the cursor is still right of column 0.
   */
  function Left(p: Position): (r: (Position, bool))
    ensures r.0.row == p.row
    ensures p.col > 0 ==> r.0.col + 1 == p.col && r.0.wantedCol == r.0.col
    ensures p.col == 0 ==> r.0 == p
    ensures r.1 <==> r.0.col > 0
    ensures r.1 ==> r.0.col + 1 == p.col
  {
    var q := if p.col > 0 then p.(col := p.col - 1, wantedCol := p.col - 1) else p;
    (q, q.col > 0)
  }

  /** A vertical move, with the lengths the caller supplies for it. */
  datatype VerticalMove = MoveUp(rowLen: nat) | MoveDown(rowLen: nat, numRows: nat)

  function Vertical(p: Position, m: VerticalMove): Position
  {
    match m
    case MoveUp(len) => Up(p, len).0
    case MoveDown(len, n) => Down(p, len, n).0
  }

  /** The position after the moves `ms`, in order. */
  function VerticalAll(p: Position, ms: seq<VerticalMove>): Position
  {
    if ms == [] then p else Vertical(VerticalAll(p, ms[..|ms| - 1]), ms[|ms| - 1])
  }

  /** No sequence of vertical moves changes the wanted column. */
  lemma {:induction false} VerticalKeepsWanted(p: Position, ms: seq<VerticalMove>)
    ensures VerticalAll(p, ms).wantedCol == p.wantedCol
  {
    if ms != [] {
      VerticalKeepsWanted(p, ms[..|ms| - 1]);
    }
  }

  /**
   * The sticky column: whatever vertical moves came before, a vertical move
   * that lands on a row longer than the wanted column puts the cursor on
   * exactly the wanted column.
   */
  lemma StickyColumn(p: Position, ms: seq<VerticalMove>, m: VerticalMove)
    requires m.rowLen > p.wantedCol
    requires VerticalAll(p, ms + [m]).row != VerticalAll(p, ms).row
    ensures VerticalAll(p, ms + [m]).col == p.wantedCol
    ensures VerticalAll(p, ms + [m]).wantedCol == p.wantedCol
  {
    assert (ms + [m])[..|ms|] == ms;
    VerticalKeepsWanted(p, ms);
  }

  /**
   * Ragged navigation: after a move right, vertical moves through shorter
   * rows and back onto a row long enough restore the column moved to.
   */
  lemma RaggedNavigation(p: Position, rowLen: nat, ms: seq<VerticalMove>, m: VerticalMove)
    requires p.col + 1 < rowLen
    requires m.rowLen > p.col + 1
    requires var q := Right(p, rowLen).0; VerticalAll(q, ms + [m]).row != VerticalAll(q, ms).row
    ensures VerticalAll(Right(p, rowLen).0, ms + [m]).col == p.col + 1
  {
    StickyColumn(Right(p, rowLen).0, ms, m);
  }

  /** `Cursor`, updated in place by its moves. */
  class Cursor {
    var col: nat
    var row: nat
    var wantedCol: nat

    function State(): Position
      reads this
    {
      Position(col, row, wantedCol)
    }

    /** `Cursor::new` / `Cursor::default`: the top-left corner. */
    constructor ()
      ensures State() == Position(0, 0, 0)
    {
      col, row, wantedCol := 0, 0, 0;
    }

    method MoveUp(rowLen: nat) returns (more: bool)
      modifies this
      ensures (State(), more) == Up(old(State()), rowLen)
    {
      if row > 0 {
        row := row - 1;
        col := Min(wantedCol, if rowLen >= 1 then rowLen - 1 else 0);
      }
      more := row > 0;
    }

    method MoveRight(rowLen: nat) returns (more: bool)
      modifies this
      ensures (State(), more) == Right(old(State()), rowLen)
    {
      if col + 1 < rowLen {
        col := col + 1;
        wantedCol := col;
      }
      more := col + 1 < rowLen;
    }

    method MoveDown(rowLen: nat, numRows: nat) returns (more: bool)
      modifies this
      ensures (State(), more) == Down(old(State()), rowLen, numRows)
    {
      if row + 1 < numRows {
        row := row + 1;
        col := Min(wantedCol, if rowLen >= 1 then rowLen - 1 else 0);
      }
      more := row + 1 < numRows;
    }

    method MoveLeft() returns (more: bool)
      modifies this
      ensures (State(), more) == Left(old(State()))
    {
      if col > 0 {
        col := col - 1;
        wantedCol := col;
      }
      more := col > 0;
    }

    /**
     * `relative_to`: the position relative to a viewport corner, by saturating
     * subtraction on each axis, so 0 on an axis where the cursor lies before it.
     */
    function RelativeTo(x: nat, y: nat): (r: (nat, nat))
      reads this
      ensures r.0 + x == Max(col, x)
      ensures r.1 + y == Max(row, y)
    {
      (if col >= x then col - x else 0, if row >= y then row - y else 0)
    }
  }
}
