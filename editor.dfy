/**
 * The editor state `conf` and the operations of zuma.c that update it:
 * appending rows, moving the cursor, the key dispatch, scrolling and drawing
 * the rows into an append buffer.
 */
module Zuma {
  import opened Rows
  import opened Keys
  import opened Cursor
  import opened Viewport
  import opened AppendBuffers

  /** The rows editorOpen appends for the lines getline returned, each with its line ending trimmed. */
  function Loaded(lines: seq<seq<char>>): (rs: seq<Row>)
    ensures |rs| == |lines|
    ensures forall i :: 0 <= i < |lines| ==> rs[i] == NewRow(TrimLineEnd(lines[i]))
  {
    if lines == [] then []
    else Loaded(lines[..|lines| - 1]) + [NewRow(TrimLineEnd(lines[|lines| - 1]))]
  }

  /** Proof hint: concatenation is associative (a stock fact about sequences). */
  lemma ConcatAssoc(a: seq<char>, b: seq<char>, c: seq<char>)
    ensures (a + b) + c == a + (b + c)
  {
  }

  /** struct editorConfig, without the terminal settings, file name and status message. */
  class Editor {
    var cx: int
    var cy: int
    var rx: int
    var rowoff: int
    var coloff: int
    var screenrows: int
    var screencols: int
    var nrows: int
    var row: seq<Row>

    /** nrows counts the rows, and every row's render is derived from its chars. */
    ghost predicate Valid()
      reads this
    {
      && nrows == |row|
      && forall i :: 0 <= i < |row| ==> Rendered(row[i])
    }

    function Pos(): Position
      reads this
    {
      Position(cx, cy)
    }

    function Win(): Window
      reads this
    {
      Window(rowoff, coloff, screenrows, screencols)
    }

    /**
     * initEditor, given the terminal size getWindowSize reported; two lines
     * are kept for the status and message bars.
     */
    constructor (windowRows: int, windowCols: int)
      ensures Valid() && row == []
      ensures Pos() == Position(0, 0) && rx == 0
      ensures Win() == Window(0, 0, windowRows - 2, windowCols)
    {
      cx, cy, rx := 0, 0, 0;
      nrows := 0;
      rowoff, coloff := 0, 0;
      row := [];
      screenrows, screencols := windowRows - 2, windowCols;
    }

    /** editorAppendRow: one more row holding the first linelen bytes of line, rendered. */
    method AppendRow(line: seq<char>, linelen: int)
      requires Valid() && 0 <= linelen <= |line|
      modifies this
      ensures Valid()
      ensures row == old(row) + [NewRow(line[..linelen])]
      ensures nrows == old(nrows) + 1
      ensures Pos() == old(Pos()) && rx == old(rx) && Win() == old(Win())
    {
      var chars := line[..linelen];
      var render := UpdateRow(chars);
      row := row + [Row(chars, render)];
      nrows := nrows + 1;
    }

    /** The reading loop of editorOpen, over the lines getline delivered. */
    method Open(lines: seq<seq<char>>)
      requires Valid()
      modifies this
      ensures Valid()
      ensures row == old(row) + Loaded(lines)
      ensures Pos() == old(Pos()) && rx == old(rx) && Win() == old(Win())
    {
      var i := 0;
      while i < |lines|
        invariant 0 <= i <= |lines|
        invariant Valid()
        invariant row == old(row) + Loaded(lines[..i])
        invariant Pos() == old(Pos()) && rx == old(rx) && Win() == old(Win())
      {
        var linelen := StripLineEnding(lines[i]);
        AppendRow(lines[i], linelen);
        assert lines[..i + 1][..i] == lines[..i];
        i := i + 1;
      }
      assert lines[..|lines|] == lines;
    }

    /** The switch of editorMoveCursor: the arrow key moves the cursor, before cx is clamped. */
    method StepCursor(key: int)
      requires nrows == |row| && 0 <= cy <= nrows
      modifies this
      ensures nrows == old(nrows) && row == old(row)
      ensures Pos() == Step(row, old(Pos()), key)
      ensures rx == old(rx) && Win() == old(Win())
    {
      var onRow := cy < nrows;
      if key == ArrowLeft {
        if cx != 0 {
          cx := cx - 1;
        } else if cy > 0 {
          cy := cy - 1;
          cx := |row[cy].chars|;
        }
      } else if key == ArrowRight {
        if onRow && cx < |row[cy].chars| {
          cx := cx + 1;
        } else if onRow && cx == |row[cy].chars| {
          cy := cy + 1;
          cx := 0;
        }
      } else if key == ArrowUp {
        if cy != 0 {
          cy := cy - 1;
        }
      } else if key == ArrowDown {
        if cy < nrows {
          cy := cy + 1;
        }
      }
    }

    /** editorMoveCursor */
    method MoveCursor(key: int)
      requires nrows == |row| && 0 <= cy <= nrows
      modifies this
      ensures nrows == old(nrows) && row == old(row)
      ensures Pos() == Move(row, old(Pos()), key)
      ensures rx == old(rx) && Win() == old(Win())
    {
      StepCursor(key);
      var rowlen := if cy < nrows then |row[cy].chars| else 0;
      if cx > rowlen {
        cx := rowlen;
      }
    }

    /**
     * editorProcessKeyPress after editorReadKey returned `c`: reports whether
     * c is Ctrl-Q, and otherwise moves the cursor for the HOME, END, arrow and
     * page keys.
     */
    method ProcessKey(c: int) returns (quit: bool)
      requires Valid() && 0 <= cy <= nrows && 0 <= rowoff <= nrows && 1 <= screenrows
      modifies this
      ensures Valid() && row == old(row) && rx == old(rx) && Win() == old(Win())
      ensures quit <==> c == CtrlQ
      ensures Pos() == Press(old(row), old(Pos()), old(rowoff), old(screenrows), c)
      ensures old(InRange(row, Pos())) ==> InRange(row, Pos())
    {
      if InRange(row, Pos()) {
        PressKeepsInRange(row, Pos(), rowoff, screenrows, c);
      }
      quit := false;
      if c == CtrlQ {
        quit := true;
      } else if c == HomeKey {
        cx := 0;
      } else if c == EndKey {
        if cy < nrows {
          cx := |row[cy].chars|;
        }
      } else if c == ArrowUp || c == ArrowDown || c == ArrowLeft || c == ArrowRight {
        MoveCursor(c);
      } else if c == PageUp || c == PageDown {
        PageMove(c);
      }
    }

    /** The PAGE UP / PAGE DOWN branch of editorProcessKeyPress. */
    method PageMove(c: int)
      requires c == PageUp || c == PageDown
      requires nrows == |row| && 0 <= cy <= nrows && 0 <= rowoff <= nrows && 1 <= screenrows
      modifies this
      ensures nrows == old(nrows) && row == old(row) && rx == old(rx) && Win() == old(Win())
      ensures Pos() == Press(old(row), old(Pos()), old(rowoff), old(screenrows), c)
    {
      if c == PageUp {
        cy := rowoff;
      } else {
        cy := rowoff + screenrows - 1;
        if cy > nrows {
          cy := nrows;
        }
      }
      assert cy == PageStart(row, rowoff, screenrows, c);
      PageLoop(if c == PageUp then ArrowUp else ArrowDown, screenrows);
    }

    /** `while (times--) editorMoveCursor(dir)`: the arrow key `dir`, `times` times. */
    method PageLoop(dir: int, times: int)
      requires nrows == |row| && 0 <= cy <= nrows && 0 <= times
      modifies this
      ensures nrows == old(nrows) && row == old(row) && rx == old(rx) && Win() == old(Win())
      ensures Pos() == MoveTimes(row, old(Pos()), dir, times)
    {
      var left := times;
      while left != 0
        invariant 0 <= left
        invariant nrows == old(nrows) && row == old(row) && 0 <= cy <= nrows
        invariant rx == old(rx) && Win() == old(Win())
        invariant MoveTimes(row, Pos(), dir, left) == MoveTimes(row, old(Pos()), dir, times)
      {
        MoveCursor(dir);
        left := left - 1;
      }
    }

    /** editorVScroll: recomputes rx for the cursor and brings the cursor row into the window. */
    method VScroll()
      requires Valid() && 0 <= cy && (cy < nrows ==> cx <= |row[cy].chars|)
      modifies this
      ensures Valid() && row == old(row) && Pos() == old(Pos())
      ensures rx == if cy < nrows && 0 < cx then CxToRx(row[cy].chars, cx) else 0
      ensures rowoff == ScrollRowOff(old(rowoff), cy, screenrows)
      ensures coloff == old(coloff) && screenrows == old(screenrows) && screencols == old(screencols)
    {
      rx := 0;
      if cy < nrows {
        rx := RowCxToRx(row[cy], cx);
      }
      if cy < rowoff {
        rowoff := cy;
      }
      if cy >= rowoff + screenrows {
        rowoff := cy - screenrows + 1;
      }
    }

    /** editorHScroll, as written: tests on cx, assignments from rx. */
    method HScroll()
      modifies this
      ensures row == old(row) && nrows == old(nrows) && Pos() == old(Pos()) && rx == old(rx)
      ensures coloff == HScrollAsWritten(old(coloff), cx, rx, screencols)
      ensures rowoff == old(rowoff) && screenrows == old(screenrows) && screencols == old(screencols)
    {
      if cx < coloff {
        coloff := rx;
      }
      if cx >= coloff + screencols {
        coloff := rx - screencols + 1;
      }
    }

    /** The padding of the banner branch of editorDrawRows: a tilde, then spaces. */
    static method DrawPadding(ab: AppendBuffer, padding: int)
      requires ab.Valid() && 0 <= padding
      modifies ab
      ensures ab.Valid()
      ensures ab.Contents() == old(ab.Contents()) + Padding(padding)
    {
      ghost var base := ab.Contents();
      var left := padding;
      if left != 0 {
        ab.Append("~", 1, true);
        left := left - 1;
      }
      while left != 0
        invariant 0 <= left && (padding == 0 ==> left == 0) && left < padding + 1
        invariant ab.Valid()
        invariant ab.Contents() == base + (if padding == 0 then [] else "~" + Spaces(padding - 1 - left))
        decreases left
      {
        ab.Append(" ", 1, true);
        assert Spaces(padding - left) == Spaces(padding - 1 - left) + " ";
        left := left - 1;
      }
    }

    /** The banner branch of editorDrawRows. */
    static method DrawWelcome(ab: AppendBuffer, screencols: int)
      requires ab.Valid() && 0 <= screencols
      modifies ab
      ensures ab.Valid()
      ensures ab.Contents() == old(ab.Contents()) + WelcomeLine(screencols)
    {
      var welcomelen := |Welcome|;
      if welcomelen > screencols {
        welcomelen := screencols;
      }
      var padding := (screencols - welcomelen) / 2;
      ghost var base := ab.Contents();
      DrawPadding(ab, padding);
      ab.Append(Welcome, welcomelen, true);
      ConcatAssoc(base, Padding(padding), Welcome[..welcomelen]);
    }

    /** The text part of one pass of editorDrawRows' loop: the visible slice, a tilde or the banner. */
    method DrawText(ab: AppendBuffer, y: int)
      requires nrows == |row| && ab.Valid() && Drawable(Win()) && 0 <= y
      modifies ab
      ensures ab.Valid()
      ensures ab.Contents() == old(ab.Contents()) + LineText(row, Win(), y)
    {
      if y + rowoff >= nrows {
        if y == screenrows / 3 {
          DrawWelcome(ab, screencols);
        } else {
          ab.Append("~", 1, true);
        }
      } else {
        var render := row[y + rowoff].render;
        var len := |render| - coloff;
        len := if len < 0 then 0 else len;
        if len > screencols {
          len := screencols;
        }
        var from := if coloff <= |render| then render[coloff..] else [];
        assert from[..len] == LineText(row, Win(), y);
        ab.Append(from, len, true);
      }
    }

    /** One pass of editorDrawRows' loop: screen line y. */
    method DrawLine(ab: AppendBuffer, y: int)
      requires nrows == |row| && ab.Valid() && Drawable(Win()) && 0 <= y
      modifies ab
      ensures ab.Valid()
      ensures ab.Contents() == old(ab.Contents()) + ScreenLine(row, Win(), y)
    {
      ghost var base := ab.Contents();
      ghost var text := LineText(row, Win(), y);
      DrawText(ab, y);
      ab.Append(ClearToEol, 3, true);
      ConcatAssoc(base, text, ClearToEol);
      ab.Append(Crlf, 2, true);
      ConcatAssoc(base, text + ClearToEol, Crlf);
    }

    /** editorDrawRows: every line of the window, top to bottom. */
    method DrawRows(ab: AppendBuffer)
      requires nrows == |row| && ab.Valid() && Drawable(Win())
      modifies ab
      ensures ab.Valid()
      ensures ab.Contents() == old(ab.Contents()) + Frame(row, Win(), if screenrows < 0 then 0 else screenrows)
    {
      ghost var base, rs, w := ab.Contents(), row, Win();
      var y := 0;
      while y < screenrows
        invariant 0 <= y <= if screenrows < 0 then 0 else screenrows
        invariant ab.Valid()
        invariant ab.Contents() == base + Frame(rs, w, y)
      {
        ghost var before := Frame(rs, w, y);
        DrawLine(ab, y);
        FrameStep(rs, w, y);
        ConcatAssoc(base, before, ScreenLine(rs, w, y));
        y := y + 1;
      }
    }
  }
}
