# vimposter in Dafny

A model of the core of vimposter, a small vi-like terminal editor written in
Rust, with proofs about it. Four parts are modelled:

- the cursor (`src/cursor.rs`);
- the text buffer (`src/buffer.rs`);
- the editor's per-event state update (`src/editor.rs`);
- the frame the render thread writes to the terminal (`src/render.rs`).

Modules:

- `Wrappers` (`wrappers.dfy`): `Option`, standing in for Rust's `Option`.
- `Naturals` (`naturals.dfy`): `Min` and `Max` on naturals.
- `Utf8` (`utf8.dfy`): the UTF-8 encoding of a string, with a decoder as its
  partner. It also models `char_indices().nth(n)` and the slicing of a `&str`
  at a byte offset, which must fall on a character boundary. Rust's
  `str::len` counts bytes, so a row length is a byte count.
- `Buffers` (`buffers.dfy`): Rust's `str::lines`, modelled as written:
  - lines split at '\n';
  - a final '\n' adds no line;
  - a '\r' directly before a '\n' is dropped;
  - the empty string has no lines.
  On top of that: `Buffer` with `row_len` and `num_rows`. `Unlines` is the
  partner that rebuilds the text.
- `Cursors` (`cursors.dfy`):
  - the cursor's moves as pure functions on a `Position` value;
  - the sticky wanted column they keep;
  - a `Cursor` class whose methods update its fields in place and are proved
    equal to those functions.
- `Editors` (`editors.dfy`):
  - `Step`, one input event applied to a snapshot of `RunningEditor`;
  - a reachable-state invariant;
  - `Run`, a sequence of events applied in order, which is `None` where an arm
    would panic;
  - concrete key sequences;
  - the `Editor` class, whose `HandleInput` is proved equal to `Step`.
- `Render` (`render.dfy`):
  - the `SET_CURSOR` escape sequence, with a parser as its partner;
  - the grid that `write_buf_content` writes: lines skipped and taken, each
    line clipped and padded with spaces, blank filler rows, and the two
    final pops;
  - the whole frame: cursor shape, hide, home, grid, cursor placement, show.
  - `Vec<u8>` is a `ByteBuf` class updated in place. `write_buf_content` and
    the frame assembly are methods with loops, proved equal to pure
    functions.

The model keeps what the code does, including behaviour that looks
unintended:

- **`j` scroll rule** (`src/editor.rs:99-101`): it leaves the cursor one row
  below the last visible row. Its exact offsets are proved in
  `Editors.StepJ`.
- **`l` scroll rule** (`src/editor.rs:143-144`): it leaves the cursor
  `width + 1` columns right of the scroll column. `Editors.RightKeyWraps`
  shows that `col - scroll.0` wraps after a reachable key sequence.
- **Shown part of a scrolled line** (`src/render.rs:85-93`): `write_buf_content`
  counts the end offset on the already shifted line, so it shows up to
  `scroll_x + window_x` characters. A line with no character at `scroll_x`
  is shown whole from its first column. With `scroll_x > 0`,
  `window_x - count` wraps exactly when the line, from where its shown part
  starts, is longer than `window_x` (`Render.Fits`). That happens in two
  cases:
  - a line reaching more than `window_x` characters past `scroll_x`
    (`Render.ScrolledLongLineOverflows`);
  - a line no longer than `scroll_x` but longer than `window_x`
    (`Render.ScrolledShortLineOverflows`).
- **Window zero rows high:** the two pops remove the "0H" of the home sequence
  (`Render.ZeroHeightFrame`).

Where a vi-like editor might be expected to behave otherwise, the model
follows the code:

- a row length is a byte count, not a character count;
- a resize does not mark the screen dirty;
- any other key marks the screen dirty;
- there is no insert mode in the editor, although the renderer selects a
  cursor shape by mode.

## Model

| member | source | states |
|---|---|---|
| `Cursors.LandingCol` | src/cursor.rs:16 | the column a vertical move lands on is at most the wanted column, inside a non-empty row, 0 on an empty row, and exactly the wanted column when the row is longer |
| `Cursors.Up` | src/cursor.rs:13-19 | off row 0: one row up, on the landing column. On row 0: nothing changes. The wanted column is kept. The result is true iff the new row is above 0, so it is false after a move onto row 0 |
| `Cursors.Down` | src/cursor.rs:29-35 | while a row lies below: one row down, on the landing column; otherwise nothing changes. The wanted column is kept. The result is true iff yet another row lies below |
| `Cursors.Right` | src/cursor.rs:21-27 | while a character lies right: one column right, and the wanted column is set to it; otherwise nothing changes. The result is true iff yet another character lies right |
| `Cursors.Left` | src/cursor.rs:37-43 | off column 0: one column left, and the wanted column is set to it. The result is true iff the cursor is still right of column 0 |
| `Cursors.Cursor.constructor` | src/cursor.rs:53-61 | a new cursor is at (0, 0) with wanted column 0 |
| `Cursors.Cursor.MoveUp` | src/cursor.rs:13-19 | the new fields and the result are exactly `Up` of the old fields |
| `Cursors.Cursor.MoveRight` | src/cursor.rs:21-27 | the new fields and the result are exactly `Right` of the old fields |
| `Cursors.Cursor.MoveDown` | src/cursor.rs:29-35 | the new fields and the result are exactly `Down` of the old fields |
| `Cursors.Cursor.MoveLeft` | src/cursor.rs:37-43 | the new fields and the result are exactly `Left` of the old fields |
| `Cursors.Cursor.RelativeTo` | src/cursor.rs:45-50 | each axis is the saturating difference: result + corner = max(position, corner) |
| `Cursors.VerticalKeepsWanted` | src/cursor.rs:13-35 | no sequence of up and down moves changes the wanted column |
| `Cursors.StickyColumn` | src/cursor.rs:13-35 | after any up and down moves, a vertical move onto a row longer than the wanted column lands exactly on the wanted column |
| `Cursors.RaggedNavigation` | src/cursor.rs:21-35 | after a move right, moving through shorter rows and back onto a long enough row restores the column moved to |
| `Buffers.LinesCount` | src/buffer.rs:11-13 | the number of lines is the number of '\n', plus one when the text does not end in '\n' (the empty text has none) |
| `Buffers.LinesHaveNoNewline` | src/buffer.rs:7-13 | no line contains '\n' |
| `Buffers.CrLfLine` | src/buffer.rs:7-13 | a line ended by "\r\n" is returned without the '\r' |
| `Buffers.UnlinesLines` | src/buffer.rs:7-13 | for text without '\r', joining the lines back with '\n' gives the text, with a final '\n' added when it had none |
| `Buffers.Buffer.NumRows` | src/buffer.rs:11-13 | the row count is the '\n' count, plus one when the content does not end in '\n' |
| `Buffers.Buffer.RowLen` | src/buffer.rs:7-9 | None iff the row is past the last one; otherwise the UTF-8 byte length of that line, at least its character count, and equal to it iff the line is ASCII |
| `Buffers.DefaultBuffer` | src/buffer.rs:1-4 | the default buffer has no rows and no row length |
| `Utf8.ByteLenBounds` | src/buffer.rs:8 | a string's byte length lies between its character count and four times that, and equals the character count iff every character is ASCII |
| `Utf8.DecodeEncode` | src/render.rs:94 | decoding the bytes written for a string gives the string back |
| `Utf8.NthCharIndex` | src/render.rs:85 | the n-th character's byte offset exists iff the string has more than n characters, and is the byte length of the first n characters |
| `Utf8.SliceFrom` | src/render.rs:86 | slicing from a character boundary keeps exactly the bytes from that offset on |
| `Utf8.SliceTo` | src/render.rs:92 | slicing up to a character boundary keeps exactly the bytes before that offset |
| `Utf8.SliceAtCharIndex` | src/render.rs:85-92 | the byte offset of the n-th character is a character boundary, and slicing there splits the string at its n-th character |
| `Editors.StepJ` | src/editor.rs:90-104 | the cursor moves as `Down` with the next row's length and the row count. Only a true result marks dirty and may scroll. The scroll row stays while the cursor row is under scroll + height; otherwise it becomes exactly row - height. Nothing else changes |
| `Editors.StepK` | src/editor.rs:105-122 | the cursor moves as `Up` with the previous row's length (0 on row 0). A true result marks dirty and lowers the scroll row to the cursor row if that is above it. Nothing else changes |
| `Editors.StepH` | src/editor.rs:123-134 | the cursor moves as `Left`. A true result marks dirty and lowers the scroll column to the cursor column if that is left of it. Nothing else changes |
| `Editors.StepL` | src/editor.rs:135-148 | the cursor moves as `Right` with its own row's length. A true result marks dirty. The scroll column stays while the cursor column is at most scroll + width; otherwise the cursor ends exactly width + 1 columns right of it. Nothing else changes |
| `Editors.Step` | src/editor.rs:78-154 | Esc only clears `running`, and a resize only records the new size. `j`, `k`, `h` and `l` give exactly `StepJ`, `StepK`, `StepH` and `StepL`. Any other key only marks dirty; any other event changes nothing. No event changes the buffers, and none clears the dirty flag |
| `Editors.InitialInv` | src/editor.rs:28-40 | the state built by `with_buf` satisfies the invariant: the buffer index is valid and the scroll row is at most max(cursor row, 1) |
| `Editors.InvPreserved` | src/editor.rs:78-154 | every event that does not panic keeps the invariant |
| `Editors.DownKeySafe` | src/editor.rs:94-101 | in every state satisfying the invariant, the `j` arm neither indexes out of range nor wraps `row - scroll.1` |
| `Editors.DefaultEditorStill` | src/editor.rs:161-165 | in the default editor (one empty buffer), h, j, k and l are all safe and change nothing |
| `Editors.TwoLines` | src/buffer.rs:7-13 | a text of two ASCII lines joined by '\n' has two rows, whose lengths are those of the two lines, and no third row |
| `Editors.EmptyEmptyThenLine` | src/buffer.rs:7-13 | "\n\n" followed by an ASCII line has three rows of lengths 0, 0 and the line's length |
| `Editors.RightThenDown` | src/editor.rs:90-148 | `l` then `j` from the corner of rows 2 bytes long ends on (1, 1). Neither key marks dirty or scrolls, since each move ends where no further move is possible |
| `Editors.ScenarioRightThenDown` | src/editor.rs:90-148 | the same for the text "ab\ncd" |
| `Editors.DownAcrossEmptyRows` | src/editor.rs:90-148 | `j j l l l` over rows of 0, 0 and 3 bytes stays on column 0 across the empty rows, then stops on column 2 of the third row |
| `Editors.ScenarioEmptyRows` | src/editor.rs:90-148 | the same for the text "\n\nabc" in an 80 x 24 window |
| `Editors.FourRights` | src/editor.rs:135-148 | four `l` presses along a 6-byte row in a window one column wide end on column 4 with the scroll column at 2 |
| `Editors.DownLeftUp` | src/editor.rs:90-134 | from column 4 with the scroll column at 2: `j` clamps to column 1 of a 2-byte row, `h` reaches column 0 and returns false so the scroll stays at 2, `k` goes back up |
| `Editors.RightKeyUnsafeAt` | src/editor.rs:142-143 | at column 0 of a 6-byte row with the scroll column at 2, the invariant holds but `l` would wrap `col - scroll.0` |
| `Editors.RightKeyWraps` | src/editor.rs:135-148 | from the top-left corner, `l l l l j h k` reaches a state that satisfies the invariant and in which the next `l` wraps; the run of all eight keys panics |
| `Editors.ScenarioRightKeyWraps` | src/editor.rs:135-148 | the same for the text "abcdef\nab" in a window one column wide |
| `Editors.RunAppend` | src/editor.rs:55-76 | running two event lists one after the other is running their concatenation, and a panic in the first ends the run |
| `Editors.Editor.WithBuf` | src/editor.rs:28-40 | the new editor's state is: one buffer, buffer index 0, cursor at the corner, not running, the given window size, no scroll, screen dirty |
| `Editors.Editor.MarkDirty` | src/editor.rs:156-158 | only the dirty flag changes, and it is set |
| `Editors.Editor.HandleInput` | src/editor.rs:78-154 | the new state of the editor and its cursor is exactly `Step` of the old state and the event |
| `Editors.Editor.DownKey` | src/editor.rs:90-104 | the new state is exactly `StepJ` of the old one |
| `Editors.Editor.UpKey` | src/editor.rs:105-122 | the new state is exactly `StepK` of the old one |
| `Editors.Editor.LeftKey` | src/editor.rs:123-134 | the new state is exactly `StepH` of the old one |
| `Editors.Editor.RightKey` | src/editor.rs:135-148 | the new state is exactly `StepL` of the old one |
| `Render.Decimal` | src/render.rs:18 | a number's decimal form is at least one digit, all digits, with no leading zero when the number is positive |
| `Render.ParseDecimalOfDecimal` | src/render.rs:18 | reading back the decimal form of a number gives the number |
| `Render.SetCursorRoundTrip` | src/render.rs:16-20 | the cursor placement sequence for (x, y) parses back to (x, y): row y + 1 comes first, column x + 1 second |
| `Render.Visible` | src/render.rs:84 | the lines shown are the lines from `scroll_y` on, at most `window_y` of them, none when `scroll_y` is past the end |
| `Render.Clip` | src/render.rs:85-92 | the part shown starts at `scroll_x`, or at 0 when the line is too short. It is at most `scroll_x + window_x` characters, counted from that start. Unscrolled, it is the first `window_x` characters |
| `Render.Fits` | src/render.rs:93 | `window_x - count` does not wrap iff the line is unscrolled or its shown part is at most `window_x` long |
| `Render.ContentRow` | src/render.rs:93-95 | a content row is exactly `window_x` characters: the shown part, then spaces |
| `Render.GridRows` | src/render.rs:83-104 | the grid always has `window_y` rows, each `window_x` characters, none holding '\n' |
| `Render.GridShowsLines` | src/render.rs:84-104 | grid row i is the clipped, padded line `scroll_y + i` when that line exists, and blank otherwise |
| `Render.TerminatedJoined` | src/render.rs:96-106 | rows each followed by "\r\n", less the last two bytes, are the rows joined by "\r\n" |
| `Render.JoinedLineFeeds` | src/render.rs:96-106 | rows without '\n' joined by "\r\n" hold exactly one line feed fewer than there are rows |
| `Render.ByteBuf.constructor` | src/render.rs:51 | a new render buffer is empty |
| `Render.ByteBuf.Extend` | src/render.rs:52-62 | the bytes given are appended and nothing else changes |
| `Render.ByteBuf.Pop` | src/render.rs:105-106 | on an empty buffer, nothing happens and None is returned. Otherwise the last byte is removed and returned |
| `Render.ShownPart` | src/render.rs:85-92 | the byte-offset slicing of a line yields exactly `Clip` of it |
| `Render.WriteLine` | src/render.rs:85-96 | the buffer gains exactly the bytes of the line's content row, then "\r\n" |
| `Render.WriteLines` | src/render.rs:83-99 | the buffer gains the terminated content rows of the shown lines, and the row padding left is `window_y` minus their number |
| `Render.WriteFiller` | src/render.rs:101-104 | the buffer gains exactly that many rows of `window_x` spaces, each followed by "\r\n" |
| `Render.WriteBufContent` | src/render.rs:75-107 | the buffer becomes its old bytes, then every grid row followed by "\r\n", less the last two bytes |
| `Render.RenderFrame` | src/render.rs:46-62 | the frame is exactly `Frame`: the cursor shape for the mode, then hide, home, the grid with its two bytes popped, the cursor placed relative to the scroll offset, and show |
| `Render.FrameLayout` | src/render.rs:46-62 | in a window at least one row high, the frame is shape, hide, home, the grid rows joined by "\r\n", the cursor placement, then show, and the grid holds exactly `h - 1` line feeds |
| `Render.ZeroHeightFrame` | src/render.rs:101-106 | in a window zero rows high, the pops remove "0H" from the home sequence, leaving ESC "[0;" before the cursor placement |
| `Render.ScrolledShortLineOverflows` | src/render.rs:85-93 | scrolled horizontally, a line with no character at `scroll_x` is shown whole, so `window_x - count` wraps when the line is longer than `window_x` |
| `Render.UnscrolledGridFits` | src/render.rs:85-93 | without horizontal scroll, every buffer fits every window |
| `Render.ScrolledLongLineOverflows` | src/render.rs:87-93 | scrolled horizontally, a line reaching more than `window_x` characters past `scroll_x` shows up to `scroll_x + window_x` characters, so `window_x - count` wraps |

## Left out

- The editor's run loop, its render thread, channels and timing (`src/editor.rs:42-76`, `src/render.rs:42-45` and `64-73`) are concurrency and I/O. `Run` applies events in order in their place.
- Writing and flushing the frame to standard output (`src/render.rs:64-69`) is I/O. `RenderFrame` returns the bytes instead.
- `terminal::size()` in `with_buf` reads the terminal. The width and height are parameters, and its failure (an `expect`) is not modelled.
- The lock `expect`s in `handle_input` are not modelled. `State` is what the write guard sees.
- Key modifiers and event kinds are ignored, as the matches ignore them. Only Esc, 'h', 'j', 'k', 'l' and "some other key" are told apart.
- `RenderInfo::from` (`src/render.rs:30-40`) is not modelled. It reads a `mode` field that `RunningEditor` does not have, and uses the cursor as a pair.
- `RenderInfo` is built directly instead.
- `src/input.rs`, `src/main.rs` and `src/lib.rs` are not part of this model.
- `Vec::with_capacity` only reserves memory and is not modelled.
- Integer widths: `usize` is modelled as unbounded `nat`, so the `+ 1` additions never overflow.
- `Editors.Editor.HandleInput`: requires `Safe`, which covers the unchecked `usize` subtractions of the `j` and `l` arms (`src/editor.rs:99`, `143`) and the buffer index. In Rust these panic or wrap. `Run` yields None there.
  - `Editors.DownKeySafe` proves the `j` condition in every reachable state.
  - `Editors.RightKeyWraps` shows that the `l` condition can fail in a reachable state.
- `Editors.Editor.DownKey`: requires `Safe` for `j`, as `HandleInput` does.
- `Editors.Editor.RightKey`: requires `Safe` for `l`, as `HandleInput` does.
- `Editors.Step`: requires `Safe`, as `HandleInput` does.
- `Editors.StepJ`: requires `Safe` for `j`, as `HandleInput` does.
- `Editors.StepL`: requires `Safe` for `l`, as `HandleInput` does.
- `Render.WriteBufContent`: requires `GridFits`, because `window_x - count` (`src/render.rs:93`) is an unchecked subtraction. `Render.ScrolledLongLineOverflows` and `Render.ScrolledShortLineOverflows` show the two ways it fails once scrolled horizontally.
- `Render.RenderFrame`: requires `Drawable`, which is `GridFits` plus the scroll offset at or before the cursor, for the unchecked subtractions at `src/render.rs:48`.
