/**
 * Cursor movement over the rows (editorMoveCursor and the HOME, END, PAGE UP
 * and PAGE DOWN branches of editorProcessKeyPress), as functions of the rows
 * and the cursor; the Editor class is proved to follow them.
 */
module Cursor {
  import opened Rows
  import opened Keys

  /** The logical cursor: column cx within row cy (cy == number of rows is the line past the end). */
  datatype Position = Position(cx: int, cy: int)

  /** The length the cursor is clamped to on row cy: its size, or 0 past the last row. */
  function RowLen(rows: seq<Row>, cy: int): nat
  {
    if 0 <= cy < |rows| then |rows[cy].chars| else 0
  }

  /** The cursor lies on a row or on the line just past the last, and within that row. */
  predicate InRange(rows: seq<Row>, p: Position)
  {
    0 <= p.cy <= |rows| && 0 <= p.cx <= RowLen(rows, p.cy)
  }

  /** The switch of editorMoveCursor: what one arrow key does before cx is clamped. */
  function Step(rows: seq<Row>, p: Position, key: int): (q: Position)
    requires 0 <= p.cy <= |rows|
    ensures 0 <= q.cy <= |rows|
  {
    if key == ArrowLeft then
      if p.cx != 0 then Position(p.cx - 1, p.cy)
      else if p.cy > 0 then Position(|rows[p.cy - 1].chars|, p.cy - 1)
      else p
    else if key == ArrowRight then
      if p.cy < |rows| && p.cx < |rows[p.cy].chars| then Position(p.cx + 1, p.cy)
      else if p.cy < |rows| && p.cx == |rows[p.cy].chars| then Position(0, p.cy + 1)
      else p
    else if key == ArrowUp then
      if p.cy != 0 then Position(p.cx, p.cy - 1) else p
    else if key == ArrowDown then
      if p.cy < |rows| then Position(p.cx, p.cy + 1) else p
    else p
  }

  /** The end of editorMoveCursor: cx is cut back to the length of the row the cursor is on. */
  function Clamp(rows: seq<Row>, p: Position): (q: Position)
    ensures q.cy == p.cy && q.cx <= RowLen(rows, p.cy)
    ensures q.cx == (if p.cx > RowLen(rows, p.cy) then RowLen(rows, p.cy) else p.cx)
  {
    var rowlen := RowLen(rows, p.cy);
    if p.cx > rowlen then Position(rowlen, p.cy) else p
  }

  /** editorMoveCursor: one arrow key, then cx clamped to the length of the row it lands on. */
  function Move(rows: seq<Row>, p: Position, key: int): (q: Position)
    requires 0 <= p.cy <= |rows|
    ensures 0 <= q.cy <= |rows|
    ensures q.cx <= RowLen(rows, q.cy)
    ensures InRange(rows, p) ==> InRange(rows, q)
  {
    Clamp(rows, Step(rows, p, key))
  }

  /** LEFT at column 0 of a row other than the first goes to the end of the row above. */
  lemma LeftWrapsToPreviousRow(rows: seq<Row>, p: Position)
    requires 0 < p.cy <= |rows| && p.cx == 0
    ensures Move(rows, p, ArrowLeft) == Position(|rows[p.cy - 1].chars|, p.cy - 1)
  {
  }

  /** RIGHT at the end of a row goes to column 0 of the next row (or the line past the end). */
  lemma RightWrapsToNextRow(rows: seq<Row>, p: Position)
    requires 0 <= p.cy < |rows| && p.cx == |rows[p.cy].chars|
    ensures Move(rows, p, ArrowRight) == Position(0, p.cy + 1)
  {
  }

  /** `n` moves with the same key, as the PAGE UP / PAGE DOWN loop makes them. */
  function MoveTimes(rows: seq<Row>, p: Position, key: int, n: nat): (q: Position)
    requires 0 <= p.cy <= |rows|
    ensures 0 <= q.cy <= |rows|
    ensures InRange(rows, p) ==> InRange(rows, q)
    decreases n
  {
    if n == 0 then p else MoveTimes(rows, Move(rows, p, key), key, n - 1)
  }

  /** `n` DOWN moves end on row min(cy + n, number of rows), never to the right of where they started. */
  lemma {:induction false} MoveDownTimes(rows: seq<Row>, p: Position, n: nat)
    requires 0 <= p.cy <= |rows|
    ensures var q := MoveTimes(rows, p, ArrowDown, n);
      q.cy == (if p.cy + n < |rows| then p.cy + n else |rows|) && q.cx <= p.cx
    decreases n
  {
    if n > 0 {
      MoveDownTimes(rows, Move(rows, p, ArrowDown), n - 1);
    }
  }

  /** `n` UP moves end on row max(cy - n, 0), never to the right of where they started. */
  lemma {:induction false} MoveUpTimes(rows: seq<Row>, p: Position, n: nat)
    requires 0 <= p.cy <= |rows|
    ensures var q := MoveTimes(rows, p, ArrowUp, n);
      q.cy == (if p.cy - n > 0 then p.cy - n else 0) && q.cx <= p.cx
    decreases n
  {
    if n > 0 {
      MoveUpTimes(rows, Move(rows, p, ArrowUp), n - 1);
    }
  }

  /**
   * The row the PAGE branch of editorProcessKeyPress puts the cursor on
   * before its loop: the top of the window for PAGE UP, its bottom (at most
   * the line past the end) for PAGE DOWN.
   */
  function PageStart(rows: seq<Row>, rowoff: int, screenrows: int, key: int): (cy: int)
    requires 0 <= rowoff <= |rows| && 1 <= screenrows
    ensures 0 <= cy <= |rows|
  {
    if key == PageUp then rowoff
    else if rowoff + screenrows - 1 > |rows| then |rows|
    else rowoff + screenrows - 1
  }

  /** What the cursor-moving branches of editorProcessKeyPress do with a key. */
  function Press(rows: seq<Row>, p: Position, rowoff: int, screenrows: nat, key: int): (q: Position)
    requires 0 <= p.cy <= |rows| && 0 <= rowoff <= |rows| && 1 <= screenrows
    ensures 0 <= q.cy <= |rows|
  {
    if key == HomeKey then Position(0, p.cy)
    else if key == EndKey then
      if p.cy < |rows| then Position(|rows[p.cy].chars|, p.cy) else p
    else if key == ArrowUp || key == ArrowDown || key == ArrowLeft || key == ArrowRight then
      Move(rows, p, key)
    else if key == PageUp || key == PageDown then
      var dir := if key == PageUp then ArrowUp else ArrowDown;
      MoveTimes(rows, Position(p.cx, PageStart(rows, rowoff, screenrows, key)), dir, screenrows)
    else p
  }

  /** HOME goes to column 0 of the cursor row; END goes to the end of the row, and past the last row does nothing. */
  lemma HomeAndEnd(rows: seq<Row>, p: Position, rowoff: int, screenrows: nat)
    requires 0 <= p.cy <= |rows| && 0 <= rowoff <= |rows| && 1 <= screenrows
    ensures Press(rows, p, rowoff, screenrows, HomeKey) == Position(0, p.cy)
    ensures Press(rows, p, rowoff, screenrows, EndKey) == Position(RowLen(rows, p.cy), p.cy) || p.cy == |rows|
    ensures p.cy == |rows| ==> Press(rows, p, rowoff, screenrows, EndKey) == p
  {
  }

  /**
   * PAGE UP lands `screenrows` rows above the top of the window (at most on
   * row 0); PAGE DOWN lands `screenrows` rows below the bottom of the window
   * (at most on the line past the end).
   */
  lemma PageMoves(rows: seq<Row>, p: Position, rowoff: int, screenrows: nat)
    requires 0 <= p.cy <= |rows| && 0 <= rowoff <= |rows| && 1 <= screenrows
    ensures var up := Press(rows, p, rowoff, screenrows, PageUp);
      up.cy == (if rowoff - screenrows > 0 then rowoff - screenrows else 0)
    ensures var down := Press(rows, p, rowoff, screenrows, PageDown);
      var top := rowoff + screenrows - 1;
      down.cy == (if top + screenrows < |rows| then top + screenrows else |rows|)
  {
    MoveUpTimes(rows, Position(p.cx, PageStart(rows, rowoff, screenrows, PageUp)), screenrows);
    MoveDownTimes(rows, Position(p.cx, PageStart(rows, rowoff, screenrows, PageDown)), screenrows);
  }

  /**
   * Every key keeps a cursor that is in range in range, when the window has
   * at least one row (the page keys move the cursor at least once, and that
   * move clamps cx to the new row).
   */
  lemma PressKeepsInRange(rows: seq<Row>, p: Position, rowoff: int, screenrows: nat, key: int)
    requires InRange(rows, p) && 0 <= rowoff <= |rows| && 1 <= screenrows
    ensures InRange(rows, Press(rows, p, rowoff, screenrows, key))
  {
    if key == PageUp || key == PageDown {
      var start := Position(p.cx, PageStart(rows, rowoff, screenrows, key));
      var dir := if key == PageUp then ArrowUp else ArrowDown;
      assert InRange(rows, Move(rows, start, dir));
    }
  }
}
