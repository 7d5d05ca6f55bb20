/**
 * The editor's per-event state update (src/editor.rs): `RunningEditor`'s
 * fields, its initial state, `handle_input` and `mark_dirty`. The lock and
 * channel plumbing around them is not part of this model: a `State` is what
 * the write guard sees, and `Step` is one event applied to it.
 */
module Editors {
  import opened Wrappers
  import opened Buffers
  import opened Cursors
  import opened Naturals

  /** Terminal dimensions arrive as 16-bit values. */
  type U16 = x: nat | x < 0x1_0000

  /** The part of a terminal event the editor looks at. */
  datatype KeyCode = Esc | Char(c: char) | OtherKey
  datatype Event = Key(code: KeyCode) | Resize(width: U16, height: U16) | NonKey

  /** `RunningEditor`'s fields; `windowSize` and `scroll` are (x, y) pairs. */
  datatype State = State(
    running: bool,
    buffers: seq<Buffer>,
    curBuf: nat,
    cursor: Position,
    windowSize: (nat, nat),
    scroll: (nat, nat),
    screenDirty: bool)

  /** `with_buf`, with the terminal size passed in. */
  function Initial(buf: Buffer, width: U16, height: U16): State
  {
    State(false, [buf], 0, Position(0, 0, 0), (width, height), (0, 0), true)
  }

  const J := Key(Char('j'))
  const K := Key(Char('k'))
  const H := Key(Char('h'))
  const L := Key(Char('l'))

  predicate HasBuffer(s: State) { s.curBuf < |s.buffers| }

  function CurrentBuffer(s: State): Buffer
    requires HasBuffer(s)
  {
    s.buffers[s.curBuf]
  }

  /** The length `j` hands to `move_down`: that of the row below, 0 if there is none. */
  function RowLenBelow(s: State): nat
    requires HasBuffer(s)
  {
    CurrentBuffer(s).RowLen(s.cursor.row + 1).GetOr(0)
  }

  /** The length `k` hands to `move_up`: that of the row above, 0 on row 0. */
  function RowLenAbove(s: State): nat
    requires HasBuffer(s)
  {
    if s.cursor.row == 0 then 0 else CurrentBuffer(s).RowLen(s.cursor.row - 1).GetOr(0)
  }

  /** The length `l` hands to `move_right`: that of the cursor's own row. */
  function RowLenHere(s: State): nat
    requires HasBuffer(s)
  {
    CurrentBuffer(s).RowLen(s.cursor.row).GetOr(0)
  }

  /**
   * What `handle_input` needs so that no index is out of range and no
   * unchecked `usize` subtraction wraps: `j`, `k` and `l` index the buffer
   * list; `j` computes `row - scroll.1` and `l` computes `col - scroll.0`
   * after a move that reported `true`.
   */
  predicate Safe(s: State, e: Event)
  {
    if e == J then
      HasBuffer(s) && (Down(s.cursor, RowLenBelow(s), CurrentBuffer(s).NumRows()).1 ==>
                       s.scroll.1 <= s.cursor.row + 1)
    else if e == K then
      HasBuffer(s)
    else if e == L then
      HasBuffer(s) && (Right(s.cursor, RowLenHere(s)).1 ==> s.scroll.0 <= s.cursor.col + 1)
    else true
  }

  /**
   * The `j` arm. Only a `true` from `move_down` adjusts the scroll and marks
   * the screen dirty, so the move onto the last row does neither. When the
   * cursor row reaches `height` rows past the scroll row, the scroll row
   * becomes `row - height`: the cursor ends exactly `height` rows below it,
   * one row past the last visible one.
   */
  function StepJ(s: State): (t: State)
    requires Safe(s, J)
    ensures t.cursor == Down(s.cursor, RowLenBelow(s), CurrentBuffer(s).NumRows()).0
    ensures t.buffers == s.buffers && t.curBuf == s.curBuf
    ensures t.running == s.running && t.windowSize == s.windowSize && t.scroll.0 == s.scroll.0
    ensures var more := Down(s.cursor, RowLenBelow(s), CurrentBuffer(s).NumRows()).1;
      var row := t.cursor.row;
      var height := s.windowSize.1;
      && (!more ==> t.scroll == s.scroll && t.screenDirty == s.screenDirty)
      && (more ==> t.screenDirty && row == s.cursor.row + 1)
      && (more && row < s.scroll.1 + height ==> t.scroll.1 == s.scroll.1)
      && (more && row >= s.scroll.1 + height ==> t.scroll.1 + height == row)
      && (more ==> s.scroll.1 <= t.scroll.1 <= row && row - t.scroll.1 <= height)
  {
    var (p, more) := Down(s.cursor, RowLenBelow(s), CurrentBuffer(s).NumRows());
    if more then
      var y := if p.row - s.scroll.1 >= s.windowSize.1 then p.row - s.windowSize.1 else s.scroll.1;
      s.(cursor := p, scroll := (s.scroll.0, y), screenDirty := true)
    else
      s.(cursor := p)
  }

  /**
   * The `k` arm: on a `true` from `move_up` the scroll row comes down to the
   * cursor row if the cursor went above it, and the screen is marked dirty.
   */
  function StepK(s: State): (t: State)
    requires Safe(s, K)
    ensures t.cursor == Up(s.cursor, RowLenAbove(s)).0
    ensures t.buffers == s.buffers && t.curBuf == s.curBuf
    ensures t.running == s.running && t.windowSize == s.windowSize && t.scroll.0 == s.scroll.0
    ensures var more := Up(s.cursor, RowLenAbove(s)).1;
      && (!more ==> t.scroll == s.scroll && t.screenDirty == s.screenDirty)
      && (more ==> t.screenDirty && t.scroll.1 == Min(s.scroll.1, t.cursor.row))
  {
    var (p, more) := Up(s.cursor, RowLenAbove(s));
    if more then
      var y := if p.row < s.scroll.1 then p.row else s.scroll.1;
      s.(cursor := p, scroll := (s.scroll.0, y), screenDirty := true)
    else
      s.(cursor := p)
  }

  /** The `h` arm: the same as `k`, for the scroll column against the cursor column. */
  function StepH(s: State): (t: State)
    ensures t.cursor == Left(s.cursor).0
    ensures t.buffers == s.buffers && t.curBuf == s.curBuf
    ensures t.running == s.running && t.windowSize == s.windowSize && t.scroll.1 == s.scroll.1
    ensures var more := Left(s.cursor).1;
      && (!more ==> t.scroll == s.scroll && t.screenDirty == s.screenDirty)
      && (more ==> t.screenDirty && t.scroll.0 == Min(s.scroll.0, t.cursor.col))
  {
    var (p, more) := Left(s.cursor);
    if more then
      var x := if p.col < s.scroll.0 then p.col else s.scroll.0;
      s.(cursor := p, scroll := (x, s.scroll.1), screenDirty := true)
    else
      s.(cursor := p)
  }

  /**
   * The `l` arm: on a `true` from `move_right`, a cursor more than `width`
   * columns right of the scroll column moves the scroll column to
   * `col - width - 1`, leaving the cursor `width + 1` columns right of it.
   */
  function StepL(s: State): (t: State)
    requires Safe(s, L)
    ensures t.cursor == Right(s.cursor, RowLenHere(s)).0
    ensures t.buffers == s.buffers && t.curBuf == s.curBuf
    ensures t.running == s.running && t.windowSize == s.windowSize && t.scroll.1 == s.scroll.1
    ensures var more := Right(s.cursor, RowLenHere(s)).1;
      var col := t.cursor.col;
      var width := s.windowSize.0;
      && (!more ==> t.scroll == s.scroll && t.screenDirty == s.screenDirty)
      && (more ==> t.screenDirty && col == s.cursor.col + 1)
      && (more && col <= s.scroll.0 + width ==> t.scroll.0 == s.scroll.0)
      && (more && col > s.scroll.0 + width ==> t.scroll.0 + width + 1 == col)
  {
    var (p, more) := Right(s.cursor, RowLenHere(s));
    if more then
      var x := if p.col - s.scroll.0 > s.windowSize.0 then p.col - s.windowSize.0 - 1 else s.scroll.0;
      s.(cursor := p, scroll := (x, s.scroll.1), screenDirty := true)
    else
      s.(cursor := p)
  }

  /**
   * `handle_input`: one event applied to the editor state. `Esc` stops the
   * editor, a resize records the new size, `h`/`j`/`k`/`l` move the cursor,
   * any other key marks the screen dirty and any other event does nothing.
   * No event touches the buffers, and only `Esc` and a resize change the
   * running flag and the window size.
   */
  function Step(s: State, e: Event): (t: State)
    requires Safe(s, e)
    ensures t.buffers == s.buffers && t.curBuf == s.curBuf
    ensures t.running == (s.running && e != Key(Esc))
    ensures t.windowSize == if e.Resize? then (e.width as nat, e.height as nat) else s.windowSize
    ensures e == Key(Esc) ==> t == s.(running := false)
    ensures e.Resize? ==> t == s.(windowSize := (e.width, e.height))
    ensures e.NonKey? ==> t == s
    ensures e == J ==> t == StepJ(s)
    ensures e == K ==> t == StepK(s)
    ensures e == H ==> t == StepH(s)
    ensures e == L ==> t == StepL(s)
    ensures e.Key? && e !in {Key(Esc), J, K, H, L} ==> t == s.(screenDirty := true)
    ensures s.screenDirty ==> t.screenDirty
  {
    if e == Key(Esc) then s.(running := false)
    else if e.Resize? then s.(windowSize := (e.width, e.height))
    else if e == J then StepJ(s)
    else if e == K then StepK(s)
    else if e == H then StepH(s)
    else if e == L then StepL(s)
    else if e.Key? then s.(screenDirty := true)
    else s
  }

  /**
   * What every reachable state satisfies: the buffer index is in range, and
   * the scroll row is at most the cursor row, or 1 when the cursor is on row
   * 0 (a `k` onto row 0 returns `false` and leaves the scroll row alone).
   */
  predicate Inv(s: State)
  {
    HasBuffer(s) && s.scroll.1 <= Max(s.cursor.row, 1)
  }

  lemma InitialInv(buf: Buffer, width: U16, height: U16)
    ensures Inv(Initial(buf, width, height))
  {
  }

  /** In every reachable state the `j` arm's subtraction cannot wrap. */
  lemma DownKeySafe(s: State)
    requires Inv(s)
    ensures Safe(s, J)
  {
  }

  lemma InvPreserved(s: State, e: Event)
    requires Inv(s) && Safe(s, e)
    ensures Inv(Step(s, e))
  {
  }

  /**
   * Events applied in the order they arrive; None when an event meets a state
   * in which its arm would index out of range or wrap a subtraction (a panic).
   */
  function Run(s: State, es: seq<Event>): Option<State>
    decreases |es|
  {
    if es == [] then Some(s)
    else if !Safe(s, es[0]) then None
    else Run(Step(s, es[0]), es[1..])
  }

  /** A buffer of two ASCII lines, the first not ending in '\r': its rows and their lengths. */
  lemma TwoLines(a: string, b: string)
    requires a != [] && b != [] && '\n' !in a && '\n' !in b && a[|a| - 1] != '\r'
    requires Utf8.Ascii(a) && Utf8.Ascii(b)
    ensures var buf := Buffer(a + ['\n'] + b);
      && buf.NumRows() == 2
      && buf.RowLen(0) == Some(|a|)
      && buf.RowLen(1) == Some(|b|)
      && forall row: nat :: row >= 2 ==> buf.RowLen(row) == None
  {
    var s := a + ['\n'] + b;
    forall j | 0 <= j < |a| ensures s[j] != '\n' { assert s[j] == a[j]; }
    LineEndAt(s, |a|);
    assert s[..|a|] == a;
    assert s[|a| + 1..] == b;
    assert LineEnd(b) == |b|;
    assert Lines(s) == [a, b];
    Utf8.ByteLenBounds(a);
    Utf8.ByteLenBounds(b);
  }

  /**
   * `l` then `j` from the top-left corner of a buffer whose first two rows
   * are 2 bytes long ends on (1, 1): row 1 is long enough for the wanted
   * column 1. Neither key marks the screen dirty, since each ends where no
   * further move is possible, and nothing scrolls.
   */
  lemma RightThenDown(s0: State)
    requires HasBuffer(s0) && s0.cursor == Position(0, 0, 0)
    requires CurrentBuffer(s0).NumRows() == 2
    requires CurrentBuffer(s0).RowLen(0) == Some(2) && CurrentBuffer(s0).RowLen(1) == Some(2)
    ensures Run(s0, [L, J]) == Some(s0.(cursor := Position(1, 1, 1)))
  {
    var s1 := s0.(cursor := Position(1, 0, 1));
    assert Right(s0.cursor, 2) == (s1.cursor, false);
    assert Step(s0, L) == s1;
    assert Down(s1.cursor, 2, 2) == (Position(1, 1, 1), false);
    var s2 := s0.(cursor := Position(1, 1, 1));
    assert Step(s1, J) == s2;
    assert Run(s1, [J]) == Run(s2, []) == Some(s2);
    assert [L, J][1..] == [J];
  }

  /** Scenario: "ab\ncd", `l` then `j`. */
  lemma ScenarioRightThenDown(content: string, width: U16, height: U16)
    requires content == "ab" + ['\n'] + "cd"
    ensures var s := Initial(Buffer(content), width, height);
      Run(s, [L, J]) == Some(s.(cursor := Position(1, 1, 1)))
  {
    TwoLines("ab", "cd");
    RightThenDown(Initial(Buffer(content), width, height));
  }

  lemma RunCons(s: State, e: Event, es: seq<Event>)
    requires Safe(s, e)
    ensures Run(s, [e] + es) == Run(Step(s, e), es)
  {
    assert ([e] + es)[1..] == es;
  }

  /** A buffer of two empty lines followed by an ASCII line: its rows and their lengths. */
  lemma EmptyEmptyThenLine(c: string)
    requires c != [] && '\n' !in c && Utf8.Ascii(c)
    ensures var buf := Buffer(['\n', '\n'] + c);
      && buf.NumRows() == 3
      && buf.RowLen(0) == Some(0) && buf.RowLen(1) == Some(0) && buf.RowLen(2) == Some(|c|)
  {
    var s := ['\n', '\n'] + c;
    assert s[1..] == ['\n'] + c && s[2..] == c;
    assert LineEnd(c) == |c|;
    assert Lines(c) == [c];
    assert Lines(s[1..]) == [[]] + Lines(c);
    assert Lines(s) == [[], [], c];
    Utf8.ByteLenBounds(c);
  }

  /**
   * `j`, `j`, `l`, `l`, `l` from the top-left corner of a buffer whose rows
   * are 0, 0 and 3 bytes long, in an 80 x 24 window: the cursor stays on
   * column 0 across the empty rows without wrapping below 0, then stops at
   * the last column of the third row.
   */
  lemma DownAcrossEmptyRows(s0: State)
    requires HasBuffer(s0) && s0.cursor == Position(0, 0, 0) && s0.scroll == (0, 0)
    requires s0.windowSize == (80, 24)
    requires CurrentBuffer(s0).NumRows() == 3
    requires CurrentBuffer(s0).RowLen(0) == Some(0) && CurrentBuffer(s0).RowLen(1) == Some(0)
    requires CurrentBuffer(s0).RowLen(2) == Some(3)
    ensures Run(s0, [J, J, L, L, L]) == Some(s0.(cursor := Position(2, 2, 2), screenDirty := true))
  {
    var s2 := s0.(cursor := Position(0, 2, 0), screenDirty := true);
    TwoDownsOverEmptyRows(s0);
    ThreeRightsOnShortRow(s2);
    RunAppend(s0, [J, J], [L, L, L]);
    assert [J, J] + [L, L, L] == [J, J, L, L, L];
  }

  /** `j` twice from the top-left corner over two empty rows reaches column 0 of the third row. */
  lemma TwoDownsOverEmptyRows(s0: State)
    requires HasBuffer(s0) && s0.cursor == Position(0, 0, 0) && s0.scroll == (0, 0)
    requires s0.windowSize == (80, 24)
    requires CurrentBuffer(s0).NumRows() == 3
    requires CurrentBuffer(s0).RowLen(1) == Some(0) && CurrentBuffer(s0).RowLen(2) == Some(3)
    ensures Run(s0, [J, J]) == Some(s0.(cursor := Position(0, 2, 0), screenDirty := true))
  {
    var s1 := s0.(cursor := Position(0, 1, 0), screenDirty := true);
    assert Down(s0.cursor, 0, 3) == (s1.cursor, true);
    assert Step(s0, J) == s1;
    var s2 := s1.(cursor := Position(0, 2, 0));
    assert Down(s1.cursor, 3, 3) == (s2.cursor, false);
    assert Step(s1, J) == s2;
    RunCons(s1, J, []);
    RunCons(s0, J, [J]);
  }

  /** `l` three times from column 0 of a row 3 bytes long stops on column 2, without scrolling. */
  lemma ThreeRightsOnShortRow(s2: State)
    requires HasBuffer(s2) && s2.cursor == Position(0, 2, 0) && s2.scroll == (0, 0)
    requires s2.windowSize == (80, 24) && s2.screenDirty
    requires CurrentBuffer(s2).RowLen(2) == Some(3)
    ensures Run(s2, [L, L, L]) == Some(s2.(cursor := Position(2, 2, 2)))
  {
    var s3 := s2.(cursor := Position(1, 2, 1));
    assert Right(s2.cursor, 3) == (s3.cursor, true);
    assert Step(s2, L) == s3;
    var s4 := s3.(cursor := Position(2, 2, 2));
    assert Right(s3.cursor, 3) == (s4.cursor, false);
    assert Step(s3, L) == s4;
    assert Right(s4.cursor, 3) == (s4.cursor, false);
    assert Step(s4, L) == s4;
    RunCons(s4, L, []);
    RunCons(s3, L, [L]);
    RunCons(s2, L, [L, L]);
  }

  /** Scenario: "\n\nabc", `j`, `j`, `l`, `l`, `l`. */
  lemma ScenarioEmptyRows(content: string)
    requires content == ['\n', '\n'] + "abc"
    ensures var s := Initial(Buffer(content), 80, 24);
      Run(s, [J, J, L, L, L]) == Some(s.(cursor := Position(2, 2, 2)))
  {
    EmptyEmptyThenLine("abc");
    DownAcrossEmptyRows(Initial(Buffer(content), 80, 24));
  }

  /** Running `a` then `b` is running `a + b`; a panic in `a` ends the run. */
  lemma {:induction false} RunAppend(s: State, a: seq<Event>, b: seq<Event>)
    ensures Run(s, a + b) == match Run(s, a) case None => None case Some(t) => Run(t, b)
    decreases |a|
  {
    if a == [] {
      assert a + b == b;
    } else {
      assert (a + b)[0] == a[0] && (a + b)[1..] == a[1..] + b;
      if Safe(s, a[0]) {
        RunAppend(Step(s, a[0]), a[1..], b);
      }
    }
  }

  /** Four `l` presses in a window one column wide, along a row 6 bytes long, scroll to column 2. */
  lemma FourRights(s0: State)
    requires HasBuffer(s0) && s0.cursor == Position(0, 0, 0) && s0.scroll == (0, 0)
    requires s0.windowSize.0 == 1 && CurrentBuffer(s0).RowLen(0) == Some(6)
    ensures Run(s0, [L, L, L, L]) == Some(s0.(cursor := Position(4, 0, 4), scroll := (2, 0), screenDirty := true))
  {
    var s2 := s0.(cursor := Position(2, 0, 2), screenDirty := true);
    TwoRightsInView(s0);
    TwoRightsScrolling(s2);
    RunAppend(s0, [L, L], [L, L]);
    assert [L, L] + [L, L] == [L, L, L, L];
  }

  /** The first two of those presses stay within `width + 1` columns of the scroll column. */
  lemma TwoRightsInView(s0: State)
    requires HasBuffer(s0) && s0.cursor == Position(0, 0, 0) && s0.scroll == (0, 0)
    requires s0.windowSize.0 == 1 && CurrentBuffer(s0).RowLen(0) == Some(6)
    ensures Run(s0, [L, L]) == Some(s0.(cursor := Position(2, 0, 2), screenDirty := true))
  {
    var s1 := s0.(cursor := Position(1, 0, 1), screenDirty := true);
    assert Right(s0.cursor, 6) == (s1.cursor, true);
    assert Step(s0, L) == s1;
    var s2 := s1.(cursor := Position(2, 0, 2));
    assert Right(s1.cursor, 6) == (s2.cursor, true);
    assert Step(s1, L) == s2;
    RunCons(s1, L, []);
    RunCons(s0, L, [L]);
  }

  /** The next two each move the scroll column one step right. */
  lemma TwoRightsScrolling(s2: State)
    requires HasBuffer(s2) && s2.cursor == Position(2, 0, 2) && s2.scroll == (0, 0) && s2.screenDirty
    requires s2.windowSize.0 == 1 && CurrentBuffer(s2).RowLen(0) == Some(6)
    ensures Run(s2, [L, L]) == Some(s2.(cursor := Position(4, 0, 4), scroll := (2, 0)))
  {
    var s3 := s2.(cursor := Position(3, 0, 3), scroll := (1, 0));
    assert Right(s2.cursor, 6) == (s3.cursor, true);
    assert Step(s2, L) == s3;
    var s4 := s3.(cursor := Position(4, 0, 4), scroll := (2, 0));
    assert Right(s3.cursor, 6) == (s4.cursor, true);
    assert Step(s3, L) == s4;
    RunCons(s3, L, []);
    RunCons(s2, L, [L]);
  }

  /**
   * From column 4 of a row 6 bytes long above a row 2 bytes long, with the
   * scroll column at 2: `j` clamps to column 1, `h` goes to column 0 and
   * returns `false`, leaving the scroll column at 2, and `k` goes back up.
   */
  lemma DownLeftUp(s4: State)
    requires HasBuffer(s4) && s4.cursor == Position(4, 0, 4) && s4.scroll == (2, 0)
    requires CurrentBuffer(s4).NumRows() == 2
    requires CurrentBuffer(s4).RowLen(0) == Some(6) && CurrentBuffer(s4).RowLen(1) == Some(2)
    ensures Run(s4, [J, H, K]) == Some(s4.(cursor := Position(0, 0, 0)))
  {
    var s5 := s4.(cursor := Position(1, 1, 4));
    assert Down(s4.cursor, 2, 2) == (s5.cursor, false);
    assert Step(s4, J) == s5;
    var s6 := s5.(cursor := Position(0, 1, 0));
    assert Left(s5.cursor) == (s6.cursor, false);
    assert Step(s5, H) == s6;
    var s7 := s6.(cursor := Position(0, 0, 0));
    assert Up(s6.cursor, 6) == (s7.cursor, false);
    assert Step(s6, K) == s7;
    RunCons(s6, K, []);
    RunCons(s5, H, [K]);
    RunCons(s4, J, [H, K]);
  }

  /** `l l l l j h k` from the top-left corner of rows 6 and 2 bytes long, one column wide. */
  lemma RightsThenDownLeftUp(s0: State)
    requires HasBuffer(s0) && s0.cursor == Position(0, 0, 0) && s0.scroll == (0, 0)
    requires s0.windowSize.0 == 1
    requires CurrentBuffer(s0).NumRows() == 2
    requires CurrentBuffer(s0).RowLen(0) == Some(6) && CurrentBuffer(s0).RowLen(1) == Some(2)
    ensures Run(s0, [L, L, L, L, J, H, K]) == Some(s0.(scroll := (2, 0), screenDirty := true))
  {
    var s4 := s0.(cursor := Position(4, 0, 4), scroll := (2, 0), screenDirty := true);
    FourRights(s0);
    DownLeftUp(s4);
    RunAppend(s0, [L, L, L, L], [J, H, K]);
    assert [L, L, L, L] + [J, H, K] == [L, L, L, L, J, H, K];
  }

  /** At column 0 of a row 6 bytes long with the scroll column at 2, `l` would wrap. */
  lemma RightKeyUnsafeAt(s7: State)
    requires HasBuffer(s7) && s7.cursor == Position(0, 0, 0) && s7.scroll == (2, 0)
    requires CurrentBuffer(s7).RowLen(0) == Some(6)
    ensures Inv(s7) && !Safe(s7, L) && Run(s7, [L]) == None
  {
    assert Right(s7.cursor, 6) == (Position(1, 0, 1), true);
  }

  /**
   * The `l` arm's subtraction can wrap in a reachable state. In a window one
   * column wide, over rows 6 and 2 bytes long, `l` four times scrolls to
   * column 2; `j` clamps the cursor to column 1 of the short row, `h` moves it
   * to column 0 and returns `false`, so the scroll column stays 2; `k` goes
   * back up. The next `l` moves to column 1 and reports `true`, and
   * `col - scroll.0` is 1 - 2. The state before it satisfies `Inv`, so `Inv`
   * cannot rule this out.
   */
  lemma RightKeyWraps(s0: State)
    requires HasBuffer(s0) && s0.cursor == Position(0, 0, 0) && s0.scroll == (0, 0)
    requires s0.windowSize.0 == 1
    requires CurrentBuffer(s0).NumRows() == 2
    requires CurrentBuffer(s0).RowLen(0) == Some(6) && CurrentBuffer(s0).RowLen(1) == Some(2)
    ensures var s7 := s0.(scroll := (2, 0), screenDirty := true);
      && Run(s0, [L, L, L, L, J, H, K]) == Some(s7)
      && Inv(s7) && !Safe(s7, L)
      && Run(s0, [L, L, L, L, J, H, K, L]) == None
  {
    var s7 := s0.(scroll := (2, 0), screenDirty := true);
    RightsThenDownLeftUp(s0);
    RightKeyUnsafeAt(s7);
    RunAppend(s0, [L, L, L, L, J, H, K], [L]);
    assert [L, L, L, L, J, H, K] + [L] == [L, L, L, L, J, H, K, L];
  }

  /**
   * The default editor holds one empty buffer: every event is safe in it, and
   * none of `h`, `j`, `k`, `l` changes anything, since no row or column lies
   * in any direction.
   */
  lemma DefaultEditorStill(width: U16, height: U16, e: Event)
    requires e in {J, K, H, L}
    ensures var s := Initial(DefaultBuffer(), width, height);
      Safe(s, e) && Step(s, e) == s
  {
    var s := Initial(DefaultBuffer(), width, height);
    assert RowLenBelow(s) == 0 && RowLenHere(s) == 0 && CurrentBuffer(s).NumRows() == 0;
  }

  /** Scenario: rows "abcdef" and "ab" in a window 1 column wide: `l l l l j h k` reaches a state where `l` wraps. */
  lemma ScenarioRightKeyWraps(content: string, height: U16)
    requires content == "abcdef" + ['\n'] + "ab"
    ensures Run(Initial(Buffer(content), 1, height), [L, L, L, L, J, H, K, L]) == None
  {
    TwoLines("abcdef", "ab");
    RightKeyWraps(Initial(Buffer(content), 1, height));
  }

  /** `RunningEditor`, updated in place by `handle_input`. */
  class Editor {
    var running: bool
    var buffers: seq<Buffer>
    var curBuf: nat
    const cursor: Cursor
    var windowSize: (nat, nat)
    var scroll: (nat, nat)
    var screenDirty: bool

    function Snapshot(): State
      reads this, cursor
    {
      State(running, buffers, curBuf, cursor.State(), windowSize, scroll, screenDirty)
    }

    /** `with_buf`: one buffer, shown from its top-left corner, not yet running, to be drawn. */
    constructor WithBuf(buf: Buffer, width: U16, height: U16)
      ensures fresh(cursor)
      ensures Snapshot() == Initial(buf, width, height)
    {
      buffers := [buf];
      curBuf := 0;
      screenDirty := true;
      running := false;
      windowSize := (width, height);
      cursor := new Cursor();
      scroll := (0, 0);
    }

    /** `mark_dirty`. */
    method MarkDirty()
      modifies this
      ensures Snapshot() == old(Snapshot()).(screenDirty := true)
    {
      screenDirty := true;
    }

    /** `handle_input`, once the write lock is held. */
    method HandleInput(e: Event)
      requires Safe(Snapshot(), e)
      modifies this, cursor
      ensures Snapshot() == Step(old(Snapshot()), e)
    {
      if e == Key(Esc) {
        running := false;
      } else if e.Resize? {
        windowSize := (e.width, e.height);
      } else if e == J {
        DownKey();
      } else if e == K {
        UpKey();
      } else if e == H {
        LeftKey();
      } else if e == L {
        RightKey();
      } else if e.Key? {
        screenDirty := true;
      }
    }

    /** The `j` arm of `handle_input`. */
    method DownKey()
      requires Safe(Snapshot(), J)
      modifies this, cursor
      ensures Snapshot() == StepJ(old(Snapshot()))
    {
      var buf := buffers[curBuf];
      var rowLen := buf.RowLen(cursor.row + 1).GetOr(0);
      var numRows := buf.NumRows();
      var more := cursor.MoveDown(rowLen, numRows);
      if more {
        assert scroll.1 <= cursor.row;
        if cursor.row - scroll.1 >= windowSize.1 {
          scroll := (scroll.0, cursor.row - windowSize.1);
        }
        MarkDirty();
      }
    }

    /** The `k` arm of `handle_input`. */
    method UpKey()
      requires Safe(Snapshot(), K)
      modifies this, cursor
      ensures Snapshot() == StepK(old(Snapshot()))
    {
      var buf := buffers[curBuf];
      var rowLen := if cursor.row == 0 then 0 else buf.RowLen(cursor.row - 1).GetOr(0);
      var more := cursor.MoveUp(rowLen);
      if more {
        if cursor.row < scroll.1 {
          scroll := (scroll.0, cursor.row);
        }
        MarkDirty();
      }
    }

    /** The `h` arm of `handle_input`. */
    method LeftKey()
      modifies this, cursor
      ensures Snapshot() == StepH(old(Snapshot()))
    {
      var more := cursor.MoveLeft();
      if more {
        if cursor.col < scroll.0 {
          scroll := (cursor.col, scroll.1);
        }
        MarkDirty();
      }
    }

    /** The `l` arm of `handle_input`. */
    method RightKey()
      requires Safe(Snapshot(), L)
      modifies this, cursor
      ensures Snapshot() == StepL(old(Snapshot()))
    {
      var buf := buffers[curBuf];
      var rowLen := buf.RowLen(cursor.row).GetOr(0);
      var more := cursor.MoveRight(rowLen);
      if more {
        assert scroll.0 <= cursor.col;
        if cursor.col - scroll.0 > windowSize.0 {
          scroll := (cursor.col - windowSize.0 - 1, scroll.1);
        }
        MarkDirty();
      }
    }
  }
}
