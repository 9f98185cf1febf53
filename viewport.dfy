/**
 * Viewport arithmetic (editorVScroll, editorHScroll) and the text that
 * editorDrawRows emits for each screen line.
 */
module Viewport {
  import opened Rows

  /** editorVScroll's update of rowoff: the cursor row is brought into the window. */
  function ScrollRowOff(rowoff: int, cy: int, screenrows: int): (r: int)
    ensures 1 <= screenrows ==> r <= cy < r + screenrows
    ensures rowoff <= cy < rowoff + screenrows ==> r == rowoff
    ensures 1 <= screenrows && cy < rowoff ==> r == cy
    ensures rowoff + screenrows <= cy ==> r == cy - screenrows + 1
  {
    var top := if cy < rowoff then cy else rowoff;
    if cy >= top + screenrows then cy - screenrows + 1 else top
  }

  /**
   * editorHScroll as written: both tests compare the logical column cx with
   * coloff, while both assignments take the render column rx.
   */
  function HScrollAsWritten(coloff: int, cx: int, rx: int, screencols: int): (c: int)
    ensures coloff <= cx < coloff + screencols ==> c == coloff
    ensures !(coloff <= cx < coloff + screencols) ==> c == rx || c == rx - screencols + 1
  {
    var left := if cx < coloff then rx else coloff;
    if cx >= left + screencols then rx - screencols + 1 else left
  }

  /** Horizontal scrolling on the render column, which keeps the drawn cursor inside the window. */
  function HScrollIntended(coloff: int, rx: int, screencols: int): (c: int)
    ensures 1 <= screencols ==> c <= rx < c + screencols
    ensures coloff <= rx < coloff + screencols ==> c == coloff
  {
    var left := if rx < coloff then rx else coloff;
    if rx >= left + screencols then rx - screencols + 1 else left
  }

  /** On a line without tabs rx == cx, and the code as written does what was intended. */
  lemma HScrollAgreesWithoutTabs(coloff: int, x: int, screencols: int)
    ensures HScrollAsWritten(coloff, x, x, screencols) == HScrollIntended(coloff, x, screencols)
  {
  }

  /**
   * On the line "\t\t" with the cursor at its end (cx == 2, rx == 8) and a
   * window 5 columns wide, the code as written keeps coloff at 0, so the
   * cursor is drawn at render column 8, outside the window; scrolling on rx
   * would move coloff to 4.
   */
  lemma HScrollLeavesTabbedCursorOutside()
    ensures var rx := CxToRx("\t\t", 2);
      && rx == 8
      && HScrollAsWritten(0, 2, rx, 5) == 0
      && !(0 <= rx < 0 + 5)
      && HScrollIntended(0, rx, 5) == 4
  {
  }

  /** The screen geometry editorDrawRows reads. */
  datatype Window = Window(rowoff: int, coloff: int, screenrows: int, screencols: int)

  predicate Drawable(w: Window)
  {
    0 <= w.rowoff && 0 <= w.coloff && 0 <= w.screencols
  }

  const Version := "0.0.1"
  /** The banner shown on an empty line of the window. */
  const Welcome := "ZUMA editor -- version " + Version
  /** Erase to the end of the line. */
  const ClearToEol := "\U{1B}[K"
  const Crlf := "\r\n"

  function Min(a: int, b: int): int
  {
    if a < b then a else b
  }

  /** The number of bytes of a render of length `rsize` drawn from column `coloff` in `screencols` columns. */
  function VisibleLen(rsize: int, coloff: int, screencols: int): (n: int)
    ensures 0 <= screencols ==> 0 <= n <= screencols
    ensures n <= if rsize - coloff < 0 then 0 else rsize - coloff
    ensures 0 <= rsize - coloff <= screencols ==> n == rsize - coloff
    ensures 0 <= screencols <= rsize - coloff ==> n == screencols
  {
    var len := rsize - coloff;
    Min(if len < 0 then 0 else len, screencols)
  }

  /** The left padding of the banner: a tilde in the first column, then spaces. */
  function Padding(padding: int): (t: seq<char>)
    ensures padding <= 0 ==> t == []
    ensures 0 < padding ==> |t| == padding && t[0] == '~' && forall i :: 0 < i < |t| ==> t[i] == ' '
  {
    if padding <= 0 then [] else "~" + Spaces(padding - 1)
  }

  /**
   * The banner line: the version string, cut to the window width, centred by
   * a left padding whose first column is the tilde of an empty line.
   */
  function WelcomeLine(screencols: int): (t: seq<char>)
    requires 0 <= screencols
    ensures var len := Min(|Welcome|, screencols);
      && |t| == (screencols - len) / 2 + len
      && |t| <= screencols
      && t[|t| - len..] == Welcome[..len]
      && ((screencols - len) / 2 != 0 ==> t[0] == '~')
      && forall i :: 0 < i < |t| - len ==> t[i] == ' '
  {
    var len := Min(|Welcome|, screencols);
    var padding := (screencols - len) / 2;
    Padding(padding) + Welcome[..len]
  }

  /**
   * The text of screen line y (before the erase and the line break): the
   * visible slice of the row's render, or a tilde or the banner past the
   * last row.
   */
  function LineText(rows: seq<Row>, w: Window, y: int): (t: seq<char>)
    requires Drawable(w) && 0 <= y
    ensures |rows| <= y + w.rowoff && y != w.screenrows / 3 ==> t == "~"
    ensures |rows| <= y + w.rowoff && y == w.screenrows / 3 ==> t == WelcomeLine(w.screencols)
    ensures 1 <= w.screencols ==> |t| <= w.screencols
  {
    if y + w.rowoff >= |rows| then
      if y == w.screenrows / 3 then WelcomeLine(w.screencols) else "~"
    else
      var render := rows[y + w.rowoff].render;
      var len := VisibleLen(|render|, w.coloff, w.screencols);
      if len == 0 then [] else render[w.coloff..w.coloff + len]
  }

  /**
   * A line on a row of the buffer shows the render from column coloff on,
   * as many bytes as remain of it, but no more than the window is wide.
   */
  lemma LineTextShowsRender(rows: seq<Row>, w: Window, y: int)
    requires Drawable(w) && 0 <= y && y + w.rowoff < |rows|
    ensures var t, render := LineText(rows, w, y), rows[y + w.rowoff].render;
      && |t| == VisibleLen(|render|, w.coloff, w.screencols)
      && forall i :: 0 <= i < |t| ==> t[i] == render[w.coloff + i]
  {
  }

  /** One screen line: its text, the erase to the end of the line, and CR LF. */
  function ScreenLine(rows: seq<Row>, w: Window, y: int): (t: seq<char>)
    requires Drawable(w) && 0 <= y
    ensures 5 <= |t| && t[|t| - 5..] == ClearToEol + Crlf
    ensures 1 <= w.screencols ==> |t| <= w.screencols + 5
  {
    LineText(rows, w, y) + ClearToEol + Crlf
  }

  /** Screen lines 0 to n - 1, top to bottom. */
  function Lines(rows: seq<Row>, w: Window, n: nat): seq<seq<char>>
    requires Drawable(w)
  {
    seq(n, y requires 0 <= y => ScreenLine(rows, w, y))
  }

  /** Lines laid end to end. */
  function Join(ls: seq<seq<char>>): seq<char>
  {
    if ls == [] then [] else Join(ls[..|ls| - 1]) + ls[|ls| - 1]
  }

  /** The first n screen lines, in order: what editorDrawRows appends. */
  function Frame(rows: seq<Row>, w: Window, n: nat): (f: seq<char>)
    requires Drawable(w)
    ensures 5 * n <= |f|
  {
    JoinLength(Lines(rows, w, n));
    Join(Lines(rows, w, n))
  }

  /** Proof hint: a prefix stays a prefix when more is appended. */
  lemma PrefixOfConcat(a: seq<char>, b: seq<char>, c: seq<char>)
    requires a <= b
    ensures a <= b + c
  {
    assert (b + c)[..|b|] == b;
  }

  /** Proof hint: in a sequence that starts with a + b, b sits right after a. */
  lemma SliceOfPrefix(a: seq<char>, b: seq<char>, c: seq<char>)
    requires a + b <= c
    ensures |a| + |b| <= |c| && c[|a|..|a| + |b|] == b
  {
    assert c[..|a| + |b|] == a + b;
    assert c[|a|..|a| + |b|] == (a + b)[|a|..];
  }

  /** Joining one more line appends it. */
  lemma {:induction false} JoinSnoc(ls: seq<seq<char>>, l: seq<char>)
    ensures Join(ls + [l]) == Join(ls) + l
  {
    assert (ls + [l])[..|ls|] == ls;
  }

  /** Lines of at least five bytes each join to at least five bytes a line. */
  lemma {:induction false} JoinLength(ls: seq<seq<char>>)
    requires forall i :: 0 <= i < |ls| ==> 5 <= |ls[i]|
    ensures 5 * |ls| <= |Join(ls)|
  {
    if ls != [] {
      JoinLength(ls[..|ls| - 1]);
    }
  }

  /** Joining the first m lines gives a prefix of joining them all. */
  lemma {:induction false} JoinPrefix(ls: seq<seq<char>>, m: nat)
    requires m <= |ls|
    ensures Join(ls[..m]) <= Join(ls)
    decreases |ls|
  {
    if m < |ls| {
      var init := ls[..|ls| - 1];
      assert ls[..m] == init[..m];
      JoinPrefix(init, m);
      PrefixOfConcat(Join(ls[..m]), Join(init), ls[|ls| - 1]);
    } else {
      assert ls[..m] == ls;
    }
  }

  /** The first m screen lines are the first m of any longer run of them. */
  lemma {:induction false} LinesPrefix(rows: seq<Row>, w: Window, m: nat, n: nat)
    requires Drawable(w) && m <= n
    ensures Lines(rows, w, m) == Lines(rows, w, n)[..m]
  {
    var ls, ms := Lines(rows, w, n), Lines(rows, w, m);
    assert forall i :: 0 <= i < m ==> ms[i] == ScreenLine(rows, w, i) == ls[i];
  }

  /** Drawing one more line appends screen line n to the frame. */
  lemma {:induction false} FrameStep(rows: seq<Row>, w: Window, n: nat)
    requires Drawable(w)
    ensures Frame(rows, w, n + 1) == Frame(rows, w, n) + ScreenLine(rows, w, n)
  {
    var ls := Lines(rows, w, n + 1);
    LinesPrefix(rows, w, n, n + 1);
    assert ls == ls[..n] + [ScreenLine(rows, w, n)];
    JoinSnoc(ls[..n], ScreenLine(rows, w, n));
  }

  /** A frame of fewer lines is a prefix of a frame of more lines. */
  lemma {:induction false} FramePrefix(rows: seq<Row>, w: Window, m: nat, n: nat)
    requires Drawable(w) && m <= n
    ensures Frame(rows, w, m) <= Frame(rows, w, n)
  {
    LinesPrefix(rows, w, m, n);
    JoinPrefix(Lines(rows, w, n), m);
  }

  /** Screen line y sits in the frame right after the lines above it. */
  lemma {:induction false} FrameLine(rows: seq<Row>, w: Window, n: nat, y: nat)
    requires Drawable(w) && y < n
    ensures |Frame(rows, w, y)| + |ScreenLine(rows, w, y)| <= |Frame(rows, w, n)|
    ensures Frame(rows, w, n)[|Frame(rows, w, y)|..|Frame(rows, w, y)| + |ScreenLine(rows, w, y)|]
      == ScreenLine(rows, w, y)
  {
    FrameStep(rows, w, y);
    FramePrefix(rows, w, y + 1, n);
    SliceOfPrefix(Frame(rows, w, y), ScreenLine(rows, w, y), Frame(rows, w, n));
  }
}
