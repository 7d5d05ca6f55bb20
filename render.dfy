/**
 * The frame renderer (src/render.rs): the control sequences of a frame, the
 * `SET_CURSOR` formatting, `write_buf_content`, which lays out the visible
 * part of the buffer as a grid of `window_x` x `window_y` cells, and the
 * assembly of one frame from a `RenderInfo` snapshot.
 */
module Render {
  import opened Wrappers
  import opened Utf8
  import opened Buffers
  import opened Naturals

  /** The cursor shape a frame selects; the editor that fills it in is not part of this model. */
  datatype Mode = Normal | Insert

  /** `RenderInfo`: (x, y) pairs for the window size, the cursor and the scroll offset. */
  datatype RenderInfo = RenderInfo(
    windowSize: (nat, nat),
    cursor: (nat, nat),
    scroll: (nat, nat),
    buf: Buffer,
    mode: Mode)

  const ESC: Byte := 0x1B
  const CR: Byte := 0x0D
  const LF: Byte := 0x0A
  const SPACE: Byte := 0x20

  /** ESC "[2 q": steady block cursor. */
  const NORMAL_CURSOR: seq<Byte> := [ESC, 0x5B, 0x32, 0x20, 0x71]
  /** ESC "[5 q": blinking bar cursor. */
  const INSERT_CURSOR: seq<Byte> := [ESC, 0x5B, 0x35, 0x20, 0x71]
  /** ESC "[0;0H": cursor to the top-left cell. */
  const SET_00: seq<Byte> := [ESC, 0x5B, 0x30, 0x3B, 0x30, 0x48]
  /** ESC "[?25l". */
  const CURSOR_HIDE: seq<Byte> := [ESC, 0x5B, 0x3F, 0x32, 0x35, 0x6C]
  /** ESC "[?25h". */
  const CURSOR_SHOW: seq<Byte> := [ESC, 0x5B, 0x3F, 0x32, 0x35, 0x68]

  function CursorShape(mode: Mode): seq<Byte>
  {
    match mode
    case Normal => NORMAL_CURSOR
    case Insert => INSERT_CURSOR
  }

  // ---------------------------------------------------------------------
  // SET_CURSOR

  predicate IsDigit(b: Byte) { 0x30 <= b <= 0x39 }

  predicate AllDigits(bs: seq<Byte>) { forall i :: 0 <= i < |bs| ==> IsDigit(bs[i]) }

  /** `n` in decimal, as `format!("{}", n)` writes it: no leading zero. */
  function Decimal(n: nat): (ds: seq<Byte>)
    ensures |ds| >= 1 && AllDigits(ds)
    ensures n > 0 ==> ds[0] != 0x30
  {
    if n < 10 then [0x30 + n] else Decimal(n / 10) + [0x30 + n % 10]
  }

  /** The number a string of decimal digits denotes. */
  function ParseDecimal(ds: seq<Byte>): nat
    requires AllDigits(ds)
  {
    if ds == [] then 0 else ParseDecimal(ds[..|ds| - 1]) * 10 + (ds[|ds| - 1] - 0x30)
  }

  lemma {:induction false} ParseDecimalOfDecimal(n: nat)
    ensures ParseDecimal(Decimal(n)) == n
  {
    if n >= 10 {
      var ds := Decimal(n);
      assert ds[..|ds| - 1] == Decimal(n / 10);
      ParseDecimalOfDecimal(n / 10);
    }
  }

  /** The index of the first `b` in `bs`, or `|bs|`. */
  function IndexOf(bs: seq<Byte>, b: Byte): (k: nat)
    ensures k <= |bs|
    ensures k < |bs| ==> bs[k] == b
    ensures forall i :: 0 <= i < k ==> bs[i] != b
  {
    if bs == [] || bs[0] == b then 0 else 1 + IndexOf(bs[1..], b)
  }

  /**
   * Reads back a cursor-position sequence ESC "[" row ";" col "H" with
   * 1-based row and column, giving the 0-based (x, y) it moves to.
   */
  function ParseSetCursor(bs: seq<Byte>): Option<(nat, nat)>
  {
    if |bs| < 3 || bs[0] != ESC || bs[1] != 0x5B || bs[|bs| - 1] != 0x48 then None
    else
      var body := bs[2..|bs| - 1];
      var k := IndexOf(body, 0x3B);
      if k == |body| then None
      else
        var row := body[..k];
        var col := body[k + 1..];
        if row == [] || col == [] || !AllDigits(row) || !AllDigits(col) then None
        else
          var r := ParseDecimal(row);
          var c := ParseDecimal(col);
          if r == 0 || c == 0 then None else Some((c - 1, r - 1))
  }

  /** `SET_CURSOR!(x, y)`: ESC "[" (y + 1) ";" (x + 1) "H", row first and 1-based. */
  function SetCursor(x: nat, y: nat): seq<Byte>
  {
    [ESC, 0x5B] + Decimal(y + 1) + [0x3B] + Decimal(x + 1) + [0x48]
  }

  /** Reading a cursor placement back gives the position it was made from. */
  lemma SetCursorRoundTrip(x: nat, y: nat)
    ensures ParseSetCursor(SetCursor(x, y)) == Some((x, y))
  {
    var row := Decimal(y + 1);
    var col := Decimal(x + 1);
    var bs := SetCursor(x, y);
    assert bs[2..|bs| - 1] == row + [0x3B] + col;
    DigitsBeforeSeparator(row, col);
    ParseDecimalOfDecimal(y + 1);
    ParseDecimalOfDecimal(x + 1);
  }

  lemma DigitsBeforeSeparator(row: seq<Byte>, col: seq<Byte>)
    requires AllDigits(row)
    ensures var body := row + [0x3B] + col;
      IndexOf(body, 0x3B) == |row| && body[..|row|] == row && body[|row| + 1..] == col
  {
    var body := row + [0x3B] + col;
    var k := IndexOf(body, 0x3B);
    assert body[|row|] == 0x3B;
    assert forall i :: 0 <= i < |row| ==> body[i] == row[i];
  }

  // ---------------------------------------------------------------------
  // The grid

  function Spaces(n: nat): (s: string)
    ensures |s| == n && forall i :: 0 <= i < n ==> s[i] == ' '
  {
    seq(n, _ => ' ')
  }

  /** `skip(scroll_y).take(window_y)` over the lines. */
  function Visible(lines: seq<string>, scrollY: nat, windowY: nat): (v: seq<string>)
    ensures |v| == Min(windowY, |lines| - Min(scrollY, |lines|))
    ensures forall i :: 0 <= i < |v| ==> v[i] == lines[scrollY + i]
  {
    var from := Min(scrollY, |lines|);
    lines[from..from + Min(windowY, |lines| - from)]
  }

  /**
   * The character index the shown part of a line starts at: `scroll_x`, or 0
   * when the line has no character at `scroll_x`.
   */
  function ClipStart(l: string, scrollX: nat): nat
  {
    if scrollX < |l| then scrollX else 0
  }

  /**
   * The part of a line `write_buf_content` shows: from `ClipStart`, at most
   * `scroll_x + window_x` characters (the end is counted on the already
   * shifted line). Unscrolled, that is the first `window_x` characters; a
   * line too short to reach `scroll_x` is shown whole.
   */
  function Clip(l: string, scrollX: nat, windowX: nat): (c: string)
    ensures var start := ClipStart(l, scrollX);
      |c| == Min(scrollX + windowX, |l| - start) && c == l[start..start + |c|]
    ensures scrollX == 0 ==> c == l[..Min(windowX, |l|)]
    ensures |l| <= scrollX ==> c == l
  {
    var shifted := l[ClipStart(l, scrollX)..];
    var end := if scrollX + windowX < |shifted| then scrollX + windowX else |shifted|;
    shifted[..end]
  }

  /**
   * Whether the shown part fits the window, so that `window_x - count` does
   * not wrap: always when unscrolled, otherwise exactly when the line from
   * its start column is at most `window_x` characters long.
   */
  predicate Fits(l: string, scrollX: nat, windowX: nat)
    ensures Fits(l, scrollX, windowX) <==>
      (scrollX == 0 || |l| - ClipStart(l, scrollX) <= windowX)
  {
    |Clip(l, scrollX, windowX)| <= windowX
  }

  /** A content row: the shown part, padded with spaces to `window_x` characters. */
  function ContentRow(l: string, scrollX: nat, windowX: nat): (row: string)
    requires Fits(l, scrollX, windowX)
    ensures |row| == windowX
    ensures row[..|Clip(l, scrollX, windowX)|] == Clip(l, scrollX, windowX)
    ensures forall i :: |Clip(l, scrollX, windowX)| <= i < windowX ==> row[i] == ' '
  {
    var c := Clip(l, scrollX, windowX);
    c + Spaces(windowX - |c|)
  }

  /** What `write_buf_content` needs of its input: every visible line fits. */
  predicate GridFits(content: string, scrollX: nat, scrollY: nat, windowX: nat, windowY: nat)
  {
    var v := Visible(Lines(content), scrollY, windowY);
    forall i :: 0 <= i < |v| ==> Fits(v[i], scrollX, windowX)
  }

  /**
   * The rows of the grid: one per visible line, then rows of spaces, always
   * `window_y` rows of `window_x` characters with no '\n' in them.
   */
  function GridRows(content: string, scrollX: nat, scrollY: nat, windowX: nat, windowY: nat): (rows: seq<string>)
    requires GridFits(content, scrollX, scrollY, windowX, windowY)
    ensures |rows| == windowY
    ensures forall i :: 0 <= i < windowY ==> |rows[i]| == windowX && '\n' !in rows[i]
  {
    var v := Visible(Lines(content), scrollY, windowY);
    LinesHaveNoNewline(content);
    var shown := seq(|v|, i requires 0 <= i < |v| => ContentRow(v[i], scrollX, windowX));
    var filler := seq(windowY - |v|, _ => Spaces(windowX));
    assert forall i :: 0 <= i < |v| ==> '\n' !in shown[i] by {
      forall i | 0 <= i < |v| ensures '\n' !in shown[i] {
        var c := Clip(v[i], scrollX, windowX);
        assert '\n' !in v[i];
        assert '\n' !in c;
        assert shown[i] == c + Spaces(windowX - |c|);
      }
    }
    shown + filler
  }

  /** Each row's bytes followed by "\r\n". */
  function Terminated(rows: seq<string>): seq<Byte>
  {
    if rows == [] then [] else Terminated(rows[..|rows| - 1]) + EncodeString(rows[|rows| - 1]) + [CR, LF]
  }

  /** The rows' bytes with "\r\n" between them and none after the last. */
  function Joined(rows: seq<string>): seq<Byte>
    requires rows != []
  {
    if |rows| == 1 then EncodeString(rows[0])
    else Joined(rows[..|rows| - 1]) + [CR, LF] + EncodeString(rows[|rows| - 1])
  }

  /** `Vec::pop` twice: the last two bytes go, or as many as there are. */
  function PopTwo(bs: seq<Byte>): seq<Byte>
  {
    if |bs| >= 2 then bs[..|bs| - 2] else []
  }

  /** The bytes `write_buf_content` appends before its two pops. */
  function RawGrid(content: string, scrollX: nat, scrollY: nat, windowX: nat, windowY: nat): seq<Byte>
    requires GridFits(content, scrollX, scrollY, windowX, windowY)
  {
    Terminated(GridRows(content, scrollX, scrollY, windowX, windowY))
  }

  /** `window_x` space bytes. */
  function SpaceBytes(n: nat): (bs: seq<Byte>)
    ensures |bs| == n && forall i :: 0 <= i < n ==> bs[i] == SPACE
  {
    seq(n, _ => SPACE)
  }

  lemma {:induction false} EncodeSpaces(n: nat)
    ensures EncodeString(Spaces(n)) == SpaceBytes(n)
  {
    if n > 0 {
      assert Spaces(n) == Spaces(n - 1) + [' '];
      EncodeAppend(Spaces(n - 1), [' ']);
      EncodeSpaces(n - 1);
      assert SpaceBytes(n) == SpaceBytes(n - 1) + [SPACE];
    }
  }

  /**
   * The rows of the grid say what the window shows: row i, for each
   * visible line, starts with that line's shown part and is padded with
   * spaces; every row below the last line is blank.
   */
  lemma GridShowsLines(content: string, scrollX: nat, scrollY: nat, windowX: nat, windowY: nat, i: nat)
    requires GridFits(content, scrollX, scrollY, windowX, windowY)
    requires i < windowY
    ensures var lines := Lines(content);
      var rows := GridRows(content, scrollX, scrollY, windowX, windowY);
      if scrollY + i < |lines| then
        var c := Clip(lines[scrollY + i], scrollX, windowX);
        rows[i][..|c|] == c && forall j :: |c| <= j < windowX ==> rows[i][j] == ' '
      else
        forall j :: 0 <= j < windowX ==> rows[i][j] == ' '
  {
    var lines := Lines(content);
    var v := Visible(lines, scrollY, windowY);
    var rows := GridRows(content, scrollX, scrollY, windowX, windowY);
    if scrollY + i < |lines| {
      assert i < |v|;
      assert rows[i] == ContentRow(v[i], scrollX, windowX);
    } else {
      assert i >= |v|;
      assert rows[i] == Spaces(windowX);
    }
  }

  /** Ending every row with "\r\n" is joining them with it and ending the last. */
  lemma {:induction false} TerminatedJoined(rows: seq<string>)
    requires rows != []
    ensures Terminated(rows) == Joined(rows) + [CR, LF]
  {
    if |rows| > 1 {
      TerminatedJoined(rows[..|rows| - 1]);
    }
  }

  /** Joining rows that hold no '\n' puts exactly one line feed between each two. */
  lemma {:induction false} JoinedLineFeeds(rows: seq<string>)
    requires rows != []
    requires forall i :: 0 <= i < |rows| ==> '\n' !in rows[i]
    ensures multiset(Joined(rows))[LF] == |rows| - 1
  {
    var last := rows[|rows| - 1];
    NoLineFeedByte(last);
    assert multiset(EncodeString(last))[LF] == 0;
    if |rows| > 1 {
      JoinedLineFeeds(rows[..|rows| - 1]);
      var init := Joined(rows[..|rows| - 1]);
      assert Joined(rows) == init + [CR, LF] + EncodeString(last);
      assert multiset(Joined(rows)) == multiset(init) + multiset([CR, LF]) + multiset(EncodeString(last));
    }
  }

  /** The render buffer, a `Vec<u8>` grown by `extend` and shrunk by `pop`. */
  class ByteBuf {
    var bytes: seq<Byte>

    constructor ()
      ensures bytes == []
    {
      bytes := [];
    }

    /** `Vec::extend`. */
    method Extend(bs: seq<Byte>)
      modifies this
      ensures bytes == old(bytes) + bs
    {
      bytes := bytes + bs;
    }

    /** `Vec::pop`: removes and returns the last byte, if any. */
    method Pop() returns (last: Option<Byte>)
      modifies this
      ensures old(bytes) == [] ==> last == None && bytes == []
      ensures old(bytes) != [] ==> last == Some(old(bytes)[|old(bytes)| - 1]) && bytes == old(bytes)[..|old(bytes)| - 1]
    {
      if bytes == [] {
        last := None;
      } else {
        last := Some(bytes[|bytes| - 1]);
        bytes := bytes[..|bytes| - 1];
      }
    }
  }

  method ShownPart(l: string, scrollX: nat, windowX: nat) returns (shown: string)
    ensures shown == Clip(l, scrollX, windowX)
  {
    var start := NthCharIndex(l, scrollX).GetOr(0);
    SliceAtCharIndex(l, ClipStart(l, scrollX));
    var shifted := SliceFrom(l, start);
    assert shifted[..|shifted|] == shifted;
    var end := NthCharIndex(shifted, scrollX + windowX).GetOr(|EncodeString(shifted)|);
    var endChar := if scrollX + windowX < |shifted| then scrollX + windowX else |shifted|;
    SliceAtCharIndex(shifted, endChar);
    shown := SliceTo(shifted, end);
  }

  method WriteLine(renderBuf: ByteBuf, l: string, scrollX: nat, windowX: nat)
    requires Fits(l, scrollX, windowX)
    modifies renderBuf
    ensures renderBuf.bytes == old(renderBuf.bytes) + EncodeString(ContentRow(l, scrollX, windowX)) + [CR, LF]
  {
    var shown := ShownPart(l, scrollX, windowX);
    var linePadding := windowX - |shown|;
    renderBuf.Extend(EncodeString(shown));
    renderBuf.Extend(SpaceBytes(linePadding));
    renderBuf.Extend([CR, LF]);
    ContentRowBytes(l, scrollX, windowX);
  }

  method WriteLines(renderBuf: ByteBuf, v: seq<string>, ghost rows: seq<string>, scrollX: nat, windowX: nat, windowY: nat)
    returns (yPadding: nat)
    requires |v| <= |rows| == windowY
    requires forall i :: 0 <= i < |v| ==> Fits(v[i], scrollX, windowX) && rows[i] == ContentRow(v[i], scrollX, windowX)
    modifies renderBuf
    ensures renderBuf.bytes == old(renderBuf.bytes) + Terminated(rows[..|v|])
    ensures yPadding == windowY - |v|
  {
    ghost var start := renderBuf.bytes;
    yPadding := windowY;
    for i := 0 to |v|
      invariant yPadding == windowY - i
      invariant renderBuf.bytes == start + Terminated(rows[..i])
    {
      WriteLine(renderBuf, v[i], scrollX, windowX);
      yPadding := yPadding - 1;
      AppendRow(start, rows, i);
    }
  }

  function BlankRows(n: nat, w: nat): seq<Byte>
  {
    if n == 0 then [] else BlankRows(n - 1, w) + SpaceBytes(w) + [CR, LF]
  }

  method WriteFiller(renderBuf: ByteBuf, yPadding: nat, windowX: nat)
    modifies renderBuf
    ensures renderBuf.bytes == old(renderBuf.bytes) + BlankRows(yPadding, windowX)
  {
    ghost var start := renderBuf.bytes;
    for j := 0 to yPadding
      invariant renderBuf.bytes == start + BlankRows(j, windowX)
    {
      renderBuf.Extend(SpaceBytes(windowX));
      renderBuf.Extend([CR, LF]);
    }
  }

  method WriteBufContent(renderBuf: ByteBuf, buf: Buffer, scrollX: nat, scrollY: nat, windowX: nat, windowY: nat)
    requires GridFits(buf.content, scrollX, scrollY, windowX, windowY)
    modifies renderBuf
    ensures renderBuf.bytes == PopTwo(old(renderBuf.bytes) + RawGrid(buf.content, scrollX, scrollY, windowX, windowY))
  {
    ghost var rows := GridRows(buf.content, scrollX, scrollY, windowX, windowY);
    var v := Visible(Lines(buf.content), scrollY, windowY);
    GridRowsShape(buf.content, scrollX, scrollY, windowX, windowY);
    ghost var start := renderBuf.bytes;
    WriteGrid(renderBuf, v, rows, scrollX, windowX, windowY);
    var _ := renderBuf.Pop();
    var _ := renderBuf.Pop();
    PopPop(start + Terminated(rows));
  }

  /** Both loops of `write_buf_content`: every grid row, each followed by "\r\n". */
  method WriteGrid(renderBuf: ByteBuf, v: seq<string>, ghost rows: seq<string>, scrollX: nat, windowX: nat, windowY: nat)
    requires |v| <= |rows| == windowY
    requires forall i :: 0 <= i < |v| ==> Fits(v[i], scrollX, windowX) && rows[i] == ContentRow(v[i], scrollX, windowX)
    requires forall i :: |v| <= i < |rows| ==> rows[i] == Spaces(windowX)
    modifies renderBuf
    ensures renderBuf.bytes == old(renderBuf.bytes) + Terminated(rows)
  {
    ghost var start := renderBuf.bytes;
    var yPadding := WriteLines(renderBuf, v, rows, scrollX, windowX, windowY);
    WriteFiller(renderBuf, yPadding, windowX);
    FinishGrid(start, rows, |v|, windowX);
  }

  lemma GridRowAt(content: string, scrollX: nat, scrollY: nat, windowX: nat, windowY: nat, i: nat)
    requires GridFits(content, scrollX, scrollY, windowX, windowY)
    requires i < windowY
    ensures var v := Visible(Lines(content), scrollY, windowY);
      var rows := GridRows(content, scrollX, scrollY, windowX, windowY);
      && (i < |v| ==> rows[i] == ContentRow(v[i], scrollX, windowX))
      && (i >= |v| ==> rows[i] == Spaces(windowX))
  {
  }

  /** What the two loops of `write_buf_content` rely on about the grid's rows. */
  lemma GridRowsShape(content: string, scrollX: nat, scrollY: nat, windowX: nat, windowY: nat)
    requires GridFits(content, scrollX, scrollY, windowX, windowY)
    ensures var v := Visible(Lines(content), scrollY, windowY);
      var rows := GridRows(content, scrollX, scrollY, windowX, windowY);
      && |v| <= |rows| == windowY
      && (forall i :: 0 <= i < |v| ==> Fits(v[i], scrollX, windowX) && rows[i] == ContentRow(v[i], scrollX, windowX))
      && (forall i :: |v| <= i < |rows| ==> rows[i] == Spaces(windowX))
  {
    forall i | 0 <= i < windowY {
      GridRowAt(content, scrollX, scrollY, windowX, windowY, i);
    }
  }

  /** The bytes of a content row: the shown part's bytes, then the padding spaces. */
  lemma ContentRowBytes(l: string, scrollX: nat, windowX: nat)
    requires Fits(l, scrollX, windowX)
    ensures var c := Clip(l, scrollX, windowX);
      EncodeString(ContentRow(l, scrollX, windowX)) == EncodeString(c) + SpaceBytes(windowX - |c|)
  {
    var c := Clip(l, scrollX, windowX);
    EncodeAppend(c, Spaces(windowX - |c|));
    EncodeSpaces(windowX - |c|);
  }

  /** Writing row i after rows 0 to i - 1 has written rows 0 to i. */
  lemma AppendRow(start: seq<Byte>, rows: seq<string>, i: nat)
    requires i < |rows|
    ensures start + Terminated(rows[..i]) + EncodeString(rows[i]) + [CR, LF] == start + Terminated(rows[..i + 1])
  {
    assert rows[..i + 1][..i] == rows[..i];
    assert start + Terminated(rows[..i + 1]) == start + (Terminated(rows[..i]) + EncodeString(rows[i]) + [CR, LF]);
  }

  lemma {:induction false} TerminatedBlankRows(rows: seq<string>, shown: nat, w: nat)
    requires shown <= |rows|
    requires forall i :: shown <= i < |rows| ==> rows[i] == Spaces(w)
    ensures Terminated(rows) == Terminated(rows[..shown]) + BlankRows(|rows| - shown, w)
  {
    if |rows| == shown {
      assert rows[..shown] == rows;
    } else {
      var init := rows[..|rows| - 1];
      assert init[..shown] == rows[..shown];
      TerminatedBlankRows(init, shown, w);
      EncodeSpaces(w);
    }
  }

  /** The lines' rows followed by the blank rows make up the whole grid. */
  lemma FinishGrid(start: seq<Byte>, rows: seq<string>, shown: nat, w: nat)
    requires shown <= |rows|
    requires forall i :: shown <= i < |rows| ==> rows[i] == Spaces(w)
    ensures start + Terminated(rows[..shown]) + BlankRows(|rows| - shown, w) == start + Terminated(rows)
  {
    TerminatedBlankRows(rows, shown, w);
  }

  /** Two `Vec::pop`s, step by step. */
  lemma PopPop(bs: seq<Byte>)
    ensures |bs| >= 2 ==> bs[..|bs| - 1][..|bs| - 2] == PopTwo(bs)
    ensures |bs| == 1 ==> bs[..|bs| - 1] == PopTwo(bs)
    ensures |bs| == 0 ==> PopTwo(bs) == []
  {
  }

  // ---------------------------------------------------------------------
  // One frame

  /**
   * What the render thread can draw from `info`: the cursor subtractions
   * need the scroll offset at or before the cursor, and the grid must fit.
   */
  predicate Drawable(info: RenderInfo)
  {
    && info.scroll.0 <= info.cursor.0
    && info.scroll.1 <= info.cursor.1
    && GridFits(info.buf.content, info.scroll.0, info.scroll.1, info.windowSize.0, info.windowSize.1)
  }

  /** The cursor position relative to the window. */
  function ScreenCursor(info: RenderInfo): (nat, nat)
    requires info.scroll.0 <= info.cursor.0 && info.scroll.1 <= info.cursor.1
  {
    (info.cursor.0 - info.scroll.0, info.cursor.1 - info.scroll.1)
  }

  /** The bytes written for one frame. */
  function Frame(info: RenderInfo): seq<Byte>
    requires Drawable(info)
  {
    PopTwo(CursorShape(info.mode) + CURSOR_HIDE + SET_00
      + RawGrid(info.buf.content, info.scroll.0, info.scroll.1, info.windowSize.0, info.windowSize.1))
      + SetCursor(ScreenCursor(info).0, ScreenCursor(info).1) + CURSOR_SHOW
  }

  /** The body of the render thread's loop for one `RenderInfo`, up to the write to stdout. */
  method RenderFrame(info: RenderInfo) returns (frame: seq<Byte>)
    requires Drawable(info)
    ensures frame == Frame(info)
  {
    var w, h := info.windowSize.0, info.windowSize.1;
    var scrollX, scrollY := info.scroll.0, info.scroll.1;
    var cursorX, cursorY := info.cursor.0 - scrollX, info.cursor.1 - scrollY;
    var setCursor := SetCursor(cursorX, cursorY);

    var renderBuf := new ByteBuf();
    match info.mode {
      case Normal => renderBuf.Extend(NORMAL_CURSOR);
      case Insert => renderBuf.Extend(INSERT_CURSOR);
    }
    assert renderBuf.bytes == CursorShape(info.mode);
    renderBuf.Extend(CURSOR_HIDE);
    renderBuf.Extend(SET_00);

    WriteBufContent(renderBuf, info.buf, scrollX, scrollY, w, h);
    ghost var grid := renderBuf.bytes;

    renderBuf.Extend(setCursor);
    renderBuf.Extend(CURSOR_SHOW);
    frame := renderBuf.bytes;
    assert frame == grid + SetCursor(cursorX, cursorY) + CURSOR_SHOW;
    FrameFromGrid(info, grid);
  }

  /** A frame is the cursor placement and show sequence after the popped grid. */
  lemma FrameFromGrid(info: RenderInfo, grid: seq<Byte>)
    requires Drawable(info)
    requires grid == PopTwo(CursorShape(info.mode) + CURSOR_HIDE + SET_00
      + RawGrid(info.buf.content, info.scroll.0, info.scroll.1, info.windowSize.0, info.windowSize.1))
    ensures Frame(info) == grid + SetCursor(ScreenCursor(info).0, ScreenCursor(info).1) + CURSOR_SHOW
  {
  }

  /**
   * A frame of a window at least one row high: the cursor shape, hide the
   * cursor, go to the top-left cell, the grid rows joined by "\r\n" (so
   * exactly `h - 1` line feeds), the cursor placed at its window position,
   * show the cursor.
   */
  lemma FrameLayout(info: RenderInfo)
    requires Drawable(info) && info.windowSize.1 >= 1
    ensures var (w, h) := info.windowSize;
      var rows := GridRows(info.buf.content, info.scroll.0, info.scroll.1, w, h);
      && Frame(info) == CursorShape(info.mode) + CURSOR_HIDE + SET_00 + Joined(rows)
           + SetCursor(ScreenCursor(info).0, ScreenCursor(info).1) + CURSOR_SHOW
      && multiset(Joined(rows))[LF] == h - 1
  {
    var (w, h) := info.windowSize;
    var rows := GridRows(info.buf.content, info.scroll.0, info.scroll.1, w, h);
    var prefix := CursorShape(info.mode) + CURSOR_HIDE + SET_00;
    TerminatedJoined(rows);
    assert prefix + Terminated(rows) == (prefix + Joined(rows)) + [CR, LF];
    JoinedLineFeeds(rows);
  }

  /**
   * A window zero rows high gets no grid, and the two pops take the last
   * two bytes of SET_00 ("0H"), leaving ESC "[0;" in front of the cursor
   * placement.
   */
  lemma ZeroHeightFrame(info: RenderInfo)
    requires Drawable(info) && info.windowSize.1 == 0
    ensures Frame(info) == CursorShape(info.mode) + CURSOR_HIDE + [ESC, 0x5B, 0x30, 0x3B]
      + SetCursor(ScreenCursor(info).0, ScreenCursor(info).1) + CURSOR_SHOW
  {
    var (w, h) := info.windowSize;
    assert GridRows(info.buf.content, info.scroll.0, info.scroll.1, w, h) == [];
    var all := CursorShape(info.mode) + CURSOR_HIDE + SET_00;
    assert all[..|all| - 2] == CursorShape(info.mode) + CURSOR_HIDE + [ESC, 0x5B, 0x30, 0x3B];
  }

  /** Without horizontal scrolling every buffer fits any window. */
  lemma UnscrolledGridFits(content: string, scrollY: nat, windowX: nat, windowY: nat)
    ensures GridFits(content, 0, scrollY, windowX, windowY)
  {
  }

  /**
   * Scrolled horizontally, a line with no character at `scroll_x` is shown
   * whole from its first column, so it does not fit when it is longer than
   * the window.
   */
  lemma ScrolledShortLineOverflows(l: string, scrollX: nat, windowX: nat)
    requires 0 < scrollX && windowX < |l| <= scrollX
    ensures Clip(l, scrollX, windowX) == l
    ensures !Fits(l, scrollX, windowX)
  {
  }

  /**
   * Scrolled horizontally, a line that reaches past the scroll column by
   * more than the window width does not fit: the end offset is counted
   * from the shifted line, so up to `scroll_x + window_x` characters are
   * shown.
   */
  lemma ScrolledLongLineOverflows(l: string, scrollX: nat, windowX: nat)
    requires 0 < scrollX < |l| && |l| - scrollX > windowX
    ensures !Fits(l, scrollX, windowX)
    ensures |Clip(l, scrollX, windowX)| == Min(scrollX + windowX, |l| - scrollX)
  {
  }
}
