/**
 * Rows of the text buffer: the raw characters of a line, their tab-expanded
 * rendering, and the mapping from logical to rendered columns
 * (editorRowCxToRx, editorUpdateRow, and the line-ending trim of editorOpen).
 *
 * ZUMA_TAB_STOP is 4: a tab advances the render column to the next multiple
 * of 4. It is written as the literal 4 throughout, so that products and
 * remainders by it stay linear arithmetic for the verifier.
 */
module Rows {

  /** editorRow: `size` is |chars| and `rsize` is |render|. */
  datatype Row = Row(chars: seq<char>, render: seq<char>)

  /** A row built from a line, with its render derived from it. */
  function NewRow(line: seq<char>): Row
  {
    Row(line, Render(line))
  }

  function Spaces(n: nat): (r: seq<char>)
    ensures |r| == n
    ensures forall i :: 0 <= i < n ==> r[i] == ' '
  {
    seq(n, _ => ' ')
  }

  /** The number of tab characters in `s`. */
  function CountTabs(s: seq<char>): (n: nat)
    ensures n <= |s|
  {
    if s == [] then 0
    else CountTabs(s[..|s| - 1]) + (if s[|s| - 1] == '\t' then 1 else 0)
  }

  /** The render column reached after placing character `c` at render column `col`. */
  function Advance(col: nat, c: char): nat
  {
    if c == '\t' then col + 3 - col % 4 + 1 else col + 1
  }

  /** The render column of logical column `cx`, accumulated over the first `cx` characters. */
  function CxToRx(chars: seq<char>, cx: nat): (rx: nat)
    requires cx <= |chars|
    ensures cx <= rx <= 4 * cx
  {
    if cx == 0 then 0 else Advance(CxToRx(chars, cx - 1), chars[cx - 1])
  }

  /**
   * The rendering of a line: every character is copied, except that a tab
   * becomes the run of spaces that reaches the next multiple of 4.
   */
  function Render(chars: seq<char>): (r: seq<char>)
    ensures |chars| <= |r|
  {
    if chars == [] then []
    else
      var prev := Render(chars[..|chars| - 1]);
      prev + Expansion(chars[|chars| - 1], |prev|)
  }

  /** What character `c` becomes when it is rendered at render column `col`. */
  function Expansion(c: char, col: nat): seq<char>
  {
    if c == '\t' then Spaces(4 - col % 4) else [c]
  }

  /** The row's render is the rendering of its characters, as editorUpdateRow leaves it. */
  predicate Rendered(r: Row)
  {
    r.render == Render(r.chars)
  }

  lemma {:induction false} CountTabsPrefix(s: seq<char>, j: nat)
    requires j <= |s|
    ensures CountTabs(s[..j]) <= CountTabs(s)
    ensures j < |s| ==> CountTabs(s[..j + 1]) == CountTabs(s[..j]) + (if s[j] == '\t' then 1 else 0)
    decreases |s| - j
  {
    if j < |s| {
      assert s[..j + 1][..j] == s[..j];
      CountTabsPrefix(s, j + 1);
    } else {
      assert s[..j] == s;
    }
  }

  /** One more logical column appends that character's expansion to the rendering. */
  lemma RenderStep(s: seq<char>, j: nat)
    requires j < |s|
    ensures Render(s[..j + 1]) == Render(s[..j]) + Expansion(s[j], |Render(s[..j])|)
  {
    assert s[..j + 1][..j] == s[..j];
  }

  /** The rendered width of the first `cx` characters is what the column mapper computes. */
  lemma {:induction false} RenderLength(s: seq<char>, cx: nat)
    requires cx <= |s|
    ensures |Render(s[..cx])| == CxToRx(s, cx)
  {
    if cx > 0 {
      assert s[..cx][..cx - 1] == s[..cx - 1];
      RenderLength(s, cx - 1);
    }
  }

  /** rsize == editorRowCxToRx(row, size). */
  lemma RenderSize(s: seq<char>)
    ensures |Render(s)| == CxToRx(s, |s|)
  {
    assert s[..|s|] == s;
    RenderLength(s, |s|);
  }

  /** A rendering contains no tab. */
  lemma {:induction false} RenderHasNoTabs(s: seq<char>)
    ensures forall i :: 0 <= i < |Render(s)| ==> Render(s)[i] != '\t'
  {
    if s != [] {
      RenderHasNoTabs(s[..|s| - 1]);
    }
  }

  /**
   * The rendering is never shorter than the line and never longer than the
   * buffer editorUpdateRow allocates for it, less its terminating NUL.
   */
  lemma {:induction false} RenderBound(s: seq<char>)
    ensures |s| <= |Render(s)| <= |s| + 3 * CountTabs(s)
  {
    if s != [] {
      RenderBound(s[..|s| - 1]);
    }
  }

  /** Rendering a prefix of a line gives a prefix of the line's rendering. */
  lemma {:induction false} RenderPrefix(s: seq<char>, j: nat)
    requires j <= |s|
    ensures Render(s[..j]) <= Render(s)
    decreases |s| - j
  {
    if j == |s| {
      assert s[..j] == s;
    } else {
      RenderPrefix(s[..|s| - 1], j);
      assert s[..|s| - 1][..j] == s[..j];
    }
  }

  /** A character other than a tab at logical column j is copied to render column CxToRx(s, j). */
  lemma RenderCopy(s: seq<char>, j: nat)
    requires j < |s| && s[j] != '\t'
    ensures CxToRx(s, j + 1) == CxToRx(s, j) + 1 <= |Render(s)|
    ensures Render(s)[CxToRx(s, j)] == s[j]
  {
    RenderSlice(s, j);
    var r, a, b := Render(s), CxToRx(s, j), CxToRx(s, j + 1);
    assert r[a] == r[a..b][0];
  }

  /**
   * A tab at logical column j fills render columns CxToRx(s, j) up to
   * CxToRx(s, j + 1) with one to four spaces, ending on a multiple of 4.
   */
  lemma RenderTab(s: seq<char>, j: nat)
    requires j < |s| && s[j] == '\t'
    ensures CxToRx(s, j) < CxToRx(s, j + 1) <= CxToRx(s, j) + 4
    ensures CxToRx(s, j + 1) % 4 == 0
    ensures CxToRx(s, j + 1) <= |Render(s)|
    ensures Render(s)[CxToRx(s, j)..CxToRx(s, j + 1)] == Spaces(CxToRx(s, j + 1) - CxToRx(s, j))
  {
    RenderSlice(s, j);
    NextStop(CxToRx(s, j));
  }

  /** A tab at render column `col` ends on the next multiple of 4. */
  lemma NextStop(col: nat)
    ensures (col + (4 - col % 4)) % 4 == 0
  {
    var q := col / 4;
    assert col + (4 - col % 4) == 4 * (q + 1);
  }

  /** Render columns CxToRx(s, j) up to CxToRx(s, j + 1) hold the expansion of character j. */
  lemma RenderSlice(s: seq<char>, j: nat)
    requires j < |s|
    ensures CxToRx(s, j) <= CxToRx(s, j + 1) <= |Render(s)|
    ensures Render(s)[CxToRx(s, j)..CxToRx(s, j + 1)] == Expansion(s[j], CxToRx(s, j))
  {
    var p, q := Render(s[..j]), Render(s[..j + 1]);
    RenderStep(s, j);
    RenderLength(s, j);
    RenderLength(s, j + 1);
    RenderPrefix(s, j + 1);
    assert Render(s)[|p|..|q|] == q[|p|..];
  }

  /** The line "a<TAB>b" renders as "a   b": the tab after one character fills three columns. */
  lemma TabExample()
    ensures Render("a\tb") == "a   b"
  {
    var s := "a\tb";
    assert Render(s[..1]) == "a" by {
      assert s[..0] == [];
      RenderStep(s, 0);
    }
    assert Render(s[..2]) == "a   " by {
      RenderStep(s, 1);
      assert Spaces(3) == "   ";
    }
    assert Render(s) == "a   b" by {
      RenderStep(s, 2);
      assert s[..3] == s;
    }
  }

  /** editorRowCxToRx is non-decreasing in cx. */
  lemma {:induction false} CxToRxMonotone(s: seq<char>, i: nat, j: nat)
    requires i <= j <= |s|
    ensures CxToRx(s, i) <= CxToRx(s, j)
    decreases j - i
  {
    if i < j {
      CxToRxMonotone(s, i, j - 1);
    }
  }

  /** editorRowCxToRx: the accumulating loop over the first cx characters. */
  method RowCxToRx(row: Row, cx: int) returns (rx: int)
    requires cx <= |row.chars|
    ensures rx == if cx <= 0 then 0 else CxToRx(row.chars, cx)
  {
    rx := 0;
    var j := 0;
    while j < cx
      invariant 0 <= j <= if cx <= 0 then 0 else cx
      invariant rx == CxToRx(row.chars, j)
    {
      if row.chars[j] == '\t' {
        rx := rx + 3 - (rx % 4);
      }
      rx := rx + 1;
      j := j + 1;
    }
  }

  /**
   * editorUpdateRow: counts the tabs, allocates size + 3 * tabs + 1 bytes and
   * fills them column by column; every write, the terminating NUL included,
   * stays inside that allocation.
   */
  method UpdateRow(chars: seq<char>) returns (render: seq<char>)
    ensures render == Render(chars)
  {
    var tabs := TabsIn(chars);
    var buf := new char[|chars| + tabs * 3 + 1];
    var index := 0;
    var j := 0;
    while j < |chars|
      invariant 0 <= j <= |chars|
      invariant index == |Render(chars[..j])| && index <= buf.Length
      invariant buf[..index] == Render(chars[..j])
    {
      RenderStep(chars, j);
      RenderBound(chars[..j + 1]);
      CountTabsPrefix(chars, j + 1);
      index := WriteExpansion(buf, index, chars[j]);
      j := j + 1;
    }
    assert chars[..|chars|] == chars;
    RenderBound(chars);
    buf[index] := '\0';
    render := buf[..index];
  }

  /** One step of editorUpdateRow's copying loop: character `c` written at `index`, expanded if it is a tab. */
  method WriteExpansion(buf: array<char>, index: int, c: char) returns (next: int)
    requires 0 <= index && index + |Expansion(c, index)| <= buf.Length
    modifies buf
    ensures next == index + |Expansion(c, index)|
    ensures buf[..next] == old(buf[..index]) + Expansion(c, index)
  {
    if c == '\t' {
      next := WriteTab(buf, index);
    } else {
      buf[index] := c;
      next := index + 1;
      assert buf[..next] == old(buf[..index]) + [c];
    }
  }

  /** The counting loop of editorUpdateRow. */
  method TabsIn(chars: seq<char>) returns (tabs: int)
    ensures tabs == CountTabs(chars)
  {
    tabs := 0;
    var j := 0;
    while j < |chars|
      invariant 0 <= j <= |chars|
      invariant tabs == CountTabs(chars[..j])
    {
      CountTabsPrefix(chars, j);
      if chars[j] == '\t' {
        tabs := tabs + 1;
      }
      j := j + 1;
    }
    assert chars[..|chars|] == chars;
  }

  /**
   * The tab branch of editorUpdateRow: one space, then more spaces until the
   * index is a multiple of 4.
   */
  method WriteTab(buf: array<char>, index: int) returns (next: int)
    requires 0 <= index && index + 4 - index % 4 <= buf.Length
    modifies buf
    ensures next == index + 4 - index % 4
    ensures buf[..next] == old(buf[..index]) + Spaces(next - index)
  {
    ghost var prev := buf[..index];
    ghost var target := index + 4 - index % 4;
    buf[index] := ' ';
    next := index + 1;
    assert buf[..next] == prev + Spaces(next - index);
    while next % 4 != 0
      invariant index < next <= target
      invariant buf[..next] == prev + Spaces(next - index)
      decreases target - next
    {
      buf[next] := ' ';
      next := next + 1;
      assert buf[..next] == prev + Spaces(next - index);
    }
  }

  /** The byte that a line read by getline may end with and editorOpen strips. */
  predicate IsLineEnd(c: char)
  {
    c == '\n' || c == '\r'
  }

  /** A line with every trailing newline and carriage return removed. */
  function TrimLineEnd(line: seq<char>): (r: seq<char>)
    ensures r <= line
    ensures r == [] || !IsLineEnd(r[|r| - 1])
    ensures forall i :: |r| <= i < |line| ==> IsLineEnd(line[i])
  {
    if line != [] && IsLineEnd(line[|line| - 1]) then TrimLineEnd(line[..|line| - 1]) else line
  }

  /** The trimming loop of editorOpen: shortens linelen while the last byte is '\n' or '\r'. */
  method StripLineEnding(line: seq<char>) returns (linelen: int)
    ensures 0 <= linelen <= |line|
    ensures line[..linelen] == TrimLineEnd(line)
  {
    linelen := |line|;
    assert line[..linelen] == line;
    while linelen > 0 && IsLineEnd(line[linelen - 1])
      invariant 0 <= linelen <= |line|
      invariant TrimLineEnd(line[..linelen]) == TrimLineEnd(line)
    {
      assert line[..linelen][..linelen - 1] == line[..linelen - 1];
      linelen := linelen - 1;
    }
  }
}
