# Zuma viewer core, modelled in Dafny

`editor/zuma.c` is a small kilo-style terminal text viewer. This project models the parts that do not touch
the terminal or the filesystem. It proves properties of them with Dafny.

- **Rows** (`rows.dfy`, module `Rows`) cover the row a line becomes. `chars` holds the raw bytes. `render` is
  those bytes with every tab expanded to the next multiple of `ZUMA_TAB_STOP` (4). `CxToRx` is the mapping
  from a logical column to a render column. `UpdateRow` is `editorUpdateRow`. It fills a local array that
  has exactly the size the C code allocates (`size + 3 * tabs + 1`), so every write, the final NUL
  included, is proved to stay within that bound. `StripLineEnding` is the newline/CR trimming loop of `editorOpen`.
- **Append buffer** (`append_buffer.dfy`) models `struct abuf` as a class over an array. `Append` is
  `abAppend`. The result of `realloc` is a parameter: on failure the buffer is left untouched.
- **Key decoder** (`keys.dfy`) models `editorReadKey` as a function. Its inputs are the byte the blocking
  read delivered and the sequence of bytes the following reads would deliver. A read that fails is the end
  of that sequence. It is proved against an independent table of the recognised escape sequences.
- **Cursor** (`cursor.dfy`) gives `editorMoveCursor` (`Move`) and the HOME/END/arrow/PAGE branches of
  `editorProcessKeyPress` (`Press`) as functions of the rows and the cursor.
- **Viewport** (`viewport.dfy`) holds the scroll arithmetic and the bytes `editorDrawRows` emits for each
  screen line (`LineText`, `ScreenLine`, `Frame`).
- **Editor** (`editor.dfy`, class `Zuma.Editor`) models the global `conf`. Its fields are `cx`, `cy`, `rx`,
  `rowoff`, `coloff`, `screenrows`, `screencols`, `nrows` and the row sequence `row`. The methods
  `AppendRow`, `Open`, `MoveCursor`, `ProcessKey`, `VScroll` and `HScroll` update these fields in place.
  `DrawRows` changes no field of the editor: it only appends to an append buffer. Each method's `ensures`
  ties the new state, or the buffer's new contents, to the functions above.

Behaviour of `zuma.c` that the model keeps:

- `editorHScroll` tests `cx` but assigns from `rx` (see Findings). `Editor.HScroll` keeps this behaviour.
- The welcome banner appears on line `screenrows / 3` whenever that line is past the last row.
- Control characters in a row are drawn as they are.

## Model

| member | source | states |
|---|---|---|
| `Rows.CxToRx` | editor/zuma.c:72-80 | The render column of logical column cx is at least cx and at most 4·cx. |
| `Rows.RowCxToRx` | editor/zuma.c:72-80 | The accumulating loop returns exactly `CxToRx(chars, cx)`, and 0 when cx ≤ 0. |
| `Rows.CxToRxMonotone` | editor/zuma.c:72-80 | `editorRowCxToRx` is non-decreasing in cx. |
| `Rows.CountTabs` | editor/zuma.c:83-84 | The number of tabs in a row is at most its size. |
| `Rows.Render` | editor/zuma.c:88-95 | The render is at least as long as the row: every byte yields at least one byte. |
| `Rows.RenderLength` | editor/zuma.c:86-97 | Rendering the first cx characters gives exactly `CxToRx(chars, cx)` bytes. |
| `Rows.RenderSize` | editor/zuma.c:96-97 | `rsize` equals `editorRowCxToRx(row, size)`. |
| `Rows.RenderHasNoTabs` | editor/zuma.c:88-95 | A render contains no tab byte. |
| `Rows.RenderBound` | editor/zuma.c:83-86 | `size ≤ rsize ≤ size + 3·tabs`, so the render fits the `malloc`ed block with its NUL. |
| `Rows.RenderPrefix` | editor/zuma.c:88-95 | Rendering a prefix of the row gives a prefix of the render, so bytes are produced in order. |
| `Rows.RenderSlice` | editor/zuma.c:88-95 | Render columns `CxToRx(j)..CxToRx(j+1)` hold exactly the expansion of byte j, so each byte's output lands where `editorRowCxToRx` says. |
| `Rows.RenderCopy` | editor/zuma.c:92-94 | A byte other than a tab at column j is copied to render column `CxToRx(j)` and takes one column. |
| `Rows.RenderTab` | editor/zuma.c:89-91 | A tab at column j fills render columns `CxToRx(j)..CxToRx(j+1)` with 1 to 4 spaces, ending on a multiple of 4. |
| `Rows.TabExample` | editor/zuma.c:88-95 | `"a\tb"` renders as `"a   b"`. |
| `Rows.TabsIn` | editor/zuma.c:83-84 | The counting loop returns the number of tab bytes in the row. |
| `Rows.WriteTab` | editor/zuma.c:89-91 | The tab branch writes spaces up to the next multiple of 4, at least one. |
| `Rows.WriteExpansion` | editor/zuma.c:89-94 | One pass of the copying loop writes exactly the expansion of the byte at the current index. |
| `Rows.UpdateRow` | editor/zuma.c:82-98 | Filling the `size + 3·tabs + 1` block stays in bounds and yields exactly `Render(chars)`. |
| `Rows.TrimLineEnd` | editor/zuma.c:133-134 | The trimmed line is a prefix of the line, does not end in `\n` or `\r`, and only `\n`/`\r` bytes were removed. |
| `Rows.StripLineEnding` | editor/zuma.c:133-134 | The shrinking loop stops at the length of `TrimLineEnd(line)`. |
| `AppendBuffers.AppendBuffer.constructor` | editor/zuma.c:219 | `ABUF_INIT` is the empty buffer. |
| `AppendBuffers.AppendBuffer.Append` | editor/zuma.c:221-227 | If realloc succeeds, `len` grows by exactly n and the contents become old contents ++ `s[0..n)`. If it fails, the block, its length and its contents are unchanged. |
| `Keys.ReadKey` | editor/zuma.c:241-280 | Input is bytes (codes below 256). A byte other than ESC is returned as the key, a code below 256, with nothing more consumed. After ESC at most 3 bytes are consumed and the key is ESC or one of the arrow, HOME, END, DEL and PAGE keys. |
| `Keys.DecodesSequences` | editor/zuma.c:247-276 | Each recognised sequence (`[1~`…`[8~`, `[A`–`[D`, `[H`, `[F`, `OH`, `OF`) after ESC decodes to its key, whatever follows. |
| `Keys.DecodesOnlySequences` | editor/zuma.c:241-276 | A key other than ESC always comes from a recognised sequence at the head of the input, and it is that sequence's key. |
| `Keys.EscapeMeansNoSequence` | editor/zuma.c:241-277 | A bare ESC means that no prefix of the input is a recognised sequence. |
| `Keys.TruncatedIsEscape` | editor/zuma.c:244-249 | Input cut off after ESC, or after `ESC [ digit`, yields a bare ESC. |
| `Cursor.Step` | editor/zuma.c:285-305 | The switch keeps `0 ≤ cy ≤ nrows`. |
| `Cursor.Clamp` | editor/zuma.c:306-308 | cx becomes `min(cx, row size)`, with size 0 past the last row, and cy is unchanged. |
| `Cursor.Move` | editor/zuma.c:283-309 | `0 ≤ cy ≤ nrows` is kept, cx never exceeds the landing row's size, and a cursor that was in range stays in range (cx == 0 on the line past the end). |
| `Cursor.LeftWrapsToPreviousRow` | editor/zuma.c:286-290 | LEFT at column 0 of a row below the first goes to the end of the previous row. |
| `Cursor.RightWrapsToNextRow` | editor/zuma.c:292-297 | RIGHT at the end of a row goes to column 0 of the next row. |
| `Cursor.MoveTimes` | editor/zuma.c:342-343 | Repeated moves keep `0 ≤ cy ≤ nrows`, and keep an in-range cursor in range. |
| `Cursor.MoveDownTimes` | editor/zuma.c:302-304 | n DOWN moves end on row `min(cy + n, nrows)`, never to the right of the start column. |
| `Cursor.MoveUpTimes` | editor/zuma.c:299-301 | n UP moves end on row `max(cy − n, 0)`, never to the right of the start column. |
| `Cursor.PageStart` | editor/zuma.c:336-341 | The PAGE keys first put the cursor on a row in `0..nrows`. |
| `Cursor.Press` | editor/zuma.c:319-345 | Every handled key keeps `0 ≤ cy ≤ nrows`. |
| `Cursor.HomeAndEnd` | editor/zuma.c:319-324 | HOME sets cx to 0. END sets cx to the row's size only when `cy < nrows`, and does nothing otherwise. |
| `Cursor.PageMoves` | editor/zuma.c:333-345 | PAGE UP starts from `rowoff` and lands on `max(rowoff − screenrows, 0)`. PAGE DOWN first clamps `rowoff + screenrows − 1` to `nrows`, then lands `screenrows` rows further (at most on `nrows`). |
| `Cursor.PressKeepsInRange` | editor/zuma.c:312-346 | With at least one screen row, every key keeps an in-range cursor in range. |
| `Viewport.ScrollRowOff` | editor/zuma.c:420-425 | With `screenrows ≥ 1`, afterwards `rowoff ≤ cy < rowoff + screenrows`. rowoff is unchanged if cy was visible, becomes cy if cy was above the window, and becomes `cy − screenrows + 1` if cy was below it. |
| `Viewport.HScrollAsWritten` | editor/zuma.c:428-435 | coloff is kept while `coloff ≤ cx < coloff + screencols`. Otherwise it becomes rx or `rx − screencols + 1`: the tests use cx, the assignments rx. |
| `Viewport.HScrollIntended` | editor/zuma.c:428-435 | Scrolling on rx keeps `coloff ≤ rx < coloff + screencols`, and leaves coloff alone when rx is visible. |
| `Viewport.HScrollAgreesWithoutTabs` | editor/zuma.c:428-435 | When rx == cx (no tabs before the cursor), the code as written equals the intended scroll. |
| `Viewport.HScrollLeavesTabbedCursorOutside` | editor/zuma.c:428-435 | For row `"\t\t"`, cx 2 (rx 8), coloff 0 and 5 columns, the code as written keeps coloff 0, so rx lies outside the window. |
| `Viewport.Padding` | editor/zuma.c:392-397 | A padding of n > 0 is n bytes: a tilde, then spaces. A padding of 0 is empty. |
| `Viewport.WelcomeLine` | editor/zuma.c:387-398 | The banner line is `(screencols − len)/2 + len` bytes long, never wider than the window, ends with the first len bytes of the banner, and starts with `~` when padded, with spaces between the tilde and the banner. |
| `Viewport.VisibleLen` | editor/zuma.c:404-406 | The visible length is between 0 and screencols and never more than what is left of the render after coloff. It is exactly what is left when that fits the window, and exactly screencols when the rest is wider (the line is cut). |
| `Viewport.LineText` | editor/zuma.c:386-408 | Past the buffer, a line is `~`, except the banner on line `screenrows/3`. No line is wider than the window. |
| `Viewport.LineTextShowsRender` | editor/zuma.c:403-407 | An in-buffer line is exactly `clamp(rsize − coloff, 0, screencols)` bytes of `render`, starting at coloff. |
| `Viewport.ScreenLine` | editor/zuma.c:386-411 | Every screen line ends with `ESC [K` and `\r\n`, and is at most screencols + 5 bytes long. |
| `Viewport.Frame` | editor/zuma.c:384-413 | The n lines of a frame take at least 5·n bytes: each ends with the erase and the line break. |
| `Viewport.FrameStep` | editor/zuma.c:384-413 | One more pass of the loop appends screen line y to the frame of lines 0..y−1. |
| `Viewport.FramePrefix` | editor/zuma.c:385-412 | The bytes of the first m lines are a prefix of the bytes of the first n ≥ m lines. |
| `Viewport.FrameLine` | editor/zuma.c:385-412 | Screen line y, which is its text followed by `ESC [K` and `\r\n`, sits in the output directly after lines 0..y−1. |
| `Zuma.Loaded` | editor/zuma.c:132-137 | Opening n lines appends n rows, row i being line i with its line ending trimmed, rendered. |
| `Zuma.Editor.constructor` | editor/zuma.c:368-380 | `initEditor`: everything zero, no rows, two lines reserved for the bars. |
| `Zuma.Editor.AppendRow` | editor/zuma.c:100-111 | nrows grows by exactly 1, earlier rows are unchanged, and the new row holds `line[0..linelen)` with its derived render. |
| `Zuma.Editor.Open` | editor/zuma.c:132-137 | Each line read gets its line ending trimmed and is appended, in order, as a rendered row. |
| `Zuma.Editor.StepCursor` | editor/zuma.c:285-305 | The new (cx, cy) after the switch is `Step(row, old cursor, key)`. |
| `Zuma.Editor.MoveCursor` | editor/zuma.c:283-309 | The new (cx, cy) is `Move(row, old cursor, key)`. Rows and window are unchanged. |
| `Zuma.Editor.ProcessKey` | editor/zuma.c:312-348 | Reports quit exactly for Ctrl-Q. The new cursor is `Press(...)`. An in-range cursor stays in range. |
| `Zuma.Editor.PageMove` | editor/zuma.c:333-345 | The PAGE branch moves the cursor to `Press(...)` for PAGE UP and PAGE DOWN. |
| `Zuma.Editor.PageLoop` | editor/zuma.c:342-343 | `while (times--)` with the arrow key leaves the cursor at `MoveTimes(row, old cursor, dir, times)`. |
| `Zuma.Editor.VScroll` | editor/zuma.c:415-426 | rx is `CxToRx(row[cy], cx)` when `cy < nrows` (0 otherwise), and rowoff is `ScrollRowOff(old rowoff, cy, screenrows)`. |
| `Zuma.Editor.HScroll` | editor/zuma.c:428-435 | coloff is updated as the code is written (tests on cx, assignments from rx). Nothing else changes. |
| `Zuma.Editor.DrawPadding` | editor/zuma.c:392-397 | The tilde and the spaces appended are exactly `Padding(padding)`. |
| `Zuma.Editor.DrawWelcome` | editor/zuma.c:387-398 | The tilde, padding and banner appended are exactly `WelcomeLine(screencols)`. |
| `Zuma.Editor.DrawText` | editor/zuma.c:386-408 | The bytes appended for line y before the erase are exactly `LineText(y)`. |
| `Zuma.Editor.DrawLine` | editor/zuma.c:386-411 | One loop pass appends exactly `ScreenLine(y)`. |
| `Zuma.Editor.DrawRows` | editor/zuma.c:384-413 | The buffer grows by exactly the screenrows lines of `Frame`, top to bottom. |

## Left out

- Raw mode (`enableRawMode`, `disableRawMode`), `die`, `editorClearScreen`, and the retry loop around the first `read` in `editorReadKey`: these are terminal configuration, process exit and blocking I/O.
- `getWindowSize` and `getCursorPosition`: the window size is a constructor parameter.
- `editorOpen`'s `fopen`, `getline` and `strdup` of the file name: the lines `getline` returns are a parameter of `Open`.
- `editorDrawStatusBar`, `editorDrawMessageBar` and `editorSetStatusMessage`: they depend on `time`, `snprintf` and `vsnprintf`.
- `editorRefreshScreen`'s cursor-placement sequence and `write`, `abFree`, and the `main` loop: these are output plumbing.
- Keys.ReadKey: a byte is returned as its code 0..255; the sign extension of bytes ≥ 0x80 on platforms where `char` is signed is not modelled.
- Zuma.Editor.DrawRows: every `abAppend` it makes is modelled with a successful `realloc`; allocation failure in the middle of a frame is modelled only by `Append` itself.
- Zuma.Editor.ProcessKey: requires `screenrows ≥ 1` (a terminal of at least three lines). With `screenrows ≤ 0`, PAGE DOWN can leave cy at −1 and `while (times--)` counts down through the int range.
- Zuma.Editor.VScroll: requires `0 ≤ cy`, and `cx ≤ size` on a real row, which are the bounds for the memory `editorRowCxToRx` reads.
- Zuma.Editor.AppendRow: `realloc` failure of the row array is not checked by the C code and is not modelled. Growth of the row array is a sequence append.
- Rows.UpdateRow: the `free`/`malloc` of `row->render` is modelled by building the render in a fresh local array and storing its contents in the row.
- C `int` overflow of cx, cy, rx, rowoff, coloff and the render index is not modelled: all of them are unbounded integers.

## Findings

| source | as written | input that shows it | evidently intended | confidence | as-written member | corrected member |
|---|---|---|---|---|---|---|
| editor/zuma.c:428-435 | `editorHScroll` compares the logical column `cx` with `coloff` and `coloff + screencols`, but assigns `coloff` from the render column `rx` | row `"\t\t"`, cx 2 (rx 8), coloff 0, screencols 5: coloff stays 0 and the cursor is placed at render column 8, outside the 5-column window | compare `rx`, so that `coloff ≤ rx < coloff + screencols` afterwards | high for lines with tabs before the cursor; not executed | `Viewport.HScrollLeavesTabbedCursorOutside` | `Viewport.HScrollIntended` |

`Zuma.Editor.HScroll` deliberately keeps the behaviour as written, so that the class reproduces what `zuma.c` does. `Viewport.HScrollIntended` states and proves the intended scroll. `Viewport.HScrollAgreesWithoutTabs` shows that the two agree on every line without tabs before the cursor.
