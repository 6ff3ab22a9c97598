/**
 The loops behind the terminal's control functions (flanterm.c), each against its effect on the visible screen.
 (x, y) is the cursor position as the screen reports it, inside the screen.
 */
module Commands {
  import opened Arithmetic
  import opened Cells
  import opened Pages
  import opened Edits
  import opened Screens

  lemma Position(s: Screen, x: nat, y: nat)
    requires s.Shaped() && x < s.cols && y < s.rows
    ensures y * s.cols + s.cols <= s.rows * s.cols && s.CellIndex(x, y) == y * s.cols + x
  {
    RowInScreen(s.cols, s.rows, y);
  }

  /** n blanks from the cursor on, inside its row, with scrolling off: no wrap, no scroll. */
  method PutSpaces(s: Screen, n: nat, top: nat, bottom: nat)
    requires s.Valid() && top < bottom <= s.rows
    requires s.cursorX + n <= s.cols && s.cursorY < s.rows
    modifies s`used, s`cursorX, s`cursorY, s.queue, s.slots
    ensures s.Valid() && s.cursorX == old(s.cursorX) + n && s.cursorY == old(s.cursorY)
    ensures s.cursorY * s.cols + s.cols <= |s.Visible()|
    ensures s.Visible()
              == Fill(old(s.Visible()), s.cursorY * s.cols + old(s.cursorX), s.cursorY * s.cols + s.cursorX, s.Blank())
  {
    hide s.Valid, Fill, ScrollUp;
    ghost var v, x, y := s.Visible(), s.cursorX, s.cursorY;
    ShapedIs(s);
    RowInScreen(s.cols, s.rows, y);
    FillNothing(v, y * s.cols + x, s.Blank());
    for i := 0 to n
      invariant s.Valid() && s.cursorX == x + i && s.cursorY == y
      invariant s.Visible() == Fill(v, y * s.cols + x, y * s.cols + x + i, s.Blank())
    {
      Position(s, x + i, y);
      FillStep(v, y * s.cols + x, y * s.cols + x + i, s.Blank());
      s.RawPutchar(' ' as nat, true, false, top, bottom);
    }
  }

  lemma ShapedIs(s: Screen)
    requires s.Valid()
    ensures s.Shaped()
  {
  }

  /** Is (x, y) the cursor position that the screen reports, or any other one inside the screen? */
  predicate Inside(s: Screen, x: nat, y: nat)
    reads s
  {
    s.Shaped() && x < s.cols && y < s.rows
  }

  lemma InsidePage(s: Screen, x: nat, y: nat)
    requires s.Valid() && Inside(s, x, y)
    ensures OnPage(s.Visible(), s.cols, x, y) && |s.Visible()| == s.rows * s.cols
  {
    RowInScreen(s.cols, s.rows, y);
  }

  /** ECH, CSI X. */
  method EraseCells(s: Screen, p: nat, x: nat, y: nat, top: nat, bottom: nat)
    requires s.Valid() && Inside(s, x, y) && s.CursorPos() == (x, y) && top < bottom <= s.rows
    modifies s`used, s`cursorX, s`cursorY, s.queue, s.slots
    ensures s.Valid() && s.cursorX == x && s.cursorY == y
    ensures OnPage(old(s.Visible()), s.cols, x, y)
    ensures s.Visible() == Erased(old(s.Visible()), s.cols, x, y, p, s.Blank())
  {
    hide s.Valid, Fill;
    InsidePage(s, x, y);
    s.SetCursorPos(x, y);
    var remaining := s.cols - x;
    var count := if p > remaining then remaining else p;
    PutSpaces(s, count, top, bottom);
    s.SetCursorPos(x, y);
  }

  /** EL, CSI K. */
  method EraseLine(s: Screen, p: nat, x: nat, y: nat, top: nat, bottom: nat)
    requires s.Valid() && Inside(s, x, y) && top < bottom <= s.rows
    modifies s`used, s`cursorX, s`cursorY, s.queue, s.slots
    ensures s.Valid()
    ensures if p <= 2 then s.cursorX == x && s.cursorY == y
            else s.cursorX == old(s.cursorX) && s.cursorY == old(s.cursorY)
    ensures OnPage(old(s.Visible()), s.cols, x, y)
    ensures s.Visible() == LineErased(old(s.Visible()), s.cols, x, y, p, s.Blank())
  {
    hide s.Valid, Fill;
    InsidePage(s, x, y);
    if p == 0 {
      s.SetCursorPos(x, y);
      PutSpaces(s, s.cols - x, top, bottom);
      s.SetCursorPos(x, y);
    } else if p == 1 {
      s.SetCursorPos(0, y);
      PutSpaces(s, x + 1, top, bottom);
      s.SetCursorPos(x, y);
    } else if p == 2 {
      s.SetCursorPos(0, y);
      PutSpaces(s, s.cols, top, bottom);
      s.SetCursorPos(x, y);
    }
  }

  /** Whole rows [from, to) in blanks. */
  method EraseRows(s: Screen, from: nat, to: nat, top: nat, bottom: nat)
    requires s.Valid() && from <= to <= s.rows && top < bottom <= s.rows
    modifies s`used, s`cursorX, s`cursorY, s.queue, s.slots
    ensures s.Valid() && from * s.cols <= to * s.cols <= |s.Visible()|
    ensures s.Visible() == Fill(old(s.Visible()), from * s.cols, to * s.cols, s.Blank())
  {
    hide s.Valid, Fill;
    ShapedIs(s);
    ProductOrder(from, to, s.cols);
    ProductOrder(to, s.rows, s.cols);
    ghost var v := s.Visible();
    FillNothing(v, from * s.cols, s.Blank());
    for row := from to to
      invariant s.Valid() && from * s.cols <= row * s.cols <= |v|
      invariant s.Visible() == Fill(v, from * s.cols, row * s.cols, s.Blank())
    {
      Position(s, 0, row);
      NextRow(s.cols, row);
      FillMore(v, from * s.cols, row * s.cols, row * s.cols + s.cols, s.Blank());
      s.SetCursorPos(0, row);
      PutSpaces(s, s.cols, top, bottom);
    }
  }

  lemma NextRow(cols: nat, row: nat)
    ensures (row + 1) * cols == row * cols + cols
  {
  }

  lemma FillMore(v: seq<Cell>, a: nat, m: nat, e: nat, blank: Cell)
    requires a <= m <= e <= |v|
    ensures Fill(Fill(v, a, m, blank), m, e, blank) == Fill(v, a, e, blank)
  {
  }

  /** ED, CSI J. */
  method ErasePage(s: Screen, p: nat, x: nat, y: nat, top: nat, bottom: nat)
    requires s.Valid() && Inside(s, x, y) && top < bottom <= s.rows
    modifies s`used, s`cursorX, s`cursorY, s.queue, s.slots
    ensures s.Valid()
    ensures if p <= 1 then s.cursorX == x && s.cursorY == y
            else s.cursorX == old(s.cursorX) && s.cursorY == old(s.cursorY)
    ensures OnPage(old(s.Visible()), s.cols, x, y)
    ensures s.Visible() == PageErased(old(s.Visible()), s.cols, x, y, p, s.Blank())
  {
    hide s.Valid, Fill;
    InsidePage(s, x, y);
    ghost var v := s.Visible();
    NextRow(s.cols, y);
    if p == 0 {
      s.SetCursorPos(x, y);
      PutSpaces(s, s.cols - x, top, bottom);
      EraseRows(s, y + 1, s.rows, top, bottom);
      FillMore(v, y * s.cols + x, y * s.cols + s.cols, s.rows * s.cols, s.Blank());
      s.SetCursorPos(x, y);
    } else if p == 1 {
      EraseRows(s, 0, y, top, bottom);
      s.SetCursorPos(0, y);
      PutSpaces(s, x + 1, top, bottom);
      FillMore(v, 0, y * s.cols, y * s.cols + x + 1, s.Blank());
      s.SetCursorPos(x, y);
    } else if p == 2 || p == 3 {
      s.Clear(false);
    }
  }

  /** The loop that moves the cells of a row right by n, from its end down to column x + n. */
  method OpenGap(s: Screen, n: nat, x: nat, y: nat)
    requires s.Valid() && Inside(s, x, y) && 0 < n <= s.cols - x
    modifies s`used, s.queue, s.slots
    ensures s.Valid() && OnPage(old(s.Visible()), s.cols, x, y)
    ensures s.Visible() == Opened(old(s.Visible()), s.cols, x, y, n)
  {
    hide s.Valid, CopiedDown;
    InsidePage(s, x, y);
    ghost var v, e := s.Visible(), y * s.cols + s.cols;
    CopyDownDone(v, y * s.cols + x, e, n, s.Blank());
    var i := s.cols - 1;
    while i >= x + n
      invariant x + n - 1 <= i <= s.cols - 1
      invariant s.Valid() && s.Visible() == CopiedDown(v, e, n, y * s.cols + i + 1 - n)
    {
      Position(s, i, y);
      Position(s, i - n, y);
      CopyDownStep(v, e, n, y * s.cols + i + 1 - n);
      s.MoveCharacter(i, y, i - n, y);
      i := i - 1;
    }
  }

  /** insert_shift: makes room for a character when insert mode is on. */
  method InsertShift(s: Screen, insertMode: bool, count: nat)
    requires s.Valid()
    modifies s`used, s.queue, s.slots
    ensures s.Valid() && Inside(s, s.CursorPos().0, s.CursorPos().1)
    ensures OnPage(old(s.Visible()), s.cols, s.CursorPos().0, s.CursorPos().1)
    ensures s.Visible() == if insertMode && count > 0
                           then Opened(old(s.Visible()), s.cols, s.CursorPos().0, s.CursorPos().1, count)
                           else old(s.Visible())
  {
    hide s.Valid, CopiedDown;
    ShapedIs(s);
    var (x, y) := s.CursorPos();
    InsidePage(s, x, y);
    if insertMode && count > 0 {
      var n := if count > s.cols - x then s.cols - x else count;
      OpenGap(s, n, x, y);
    }
  }

  /** ICH, CSI @. */
  method InsertCells(s: Screen, p: nat, x: nat, y: nat, top: nat, bottom: nat)
    requires s.Valid() && Inside(s, x, y) && s.CursorPos() == (x, y) && top < bottom <= s.rows
    modifies s`used, s`cursorX, s`cursorY, s.queue, s.slots
    ensures s.Valid() && s.CursorPos() == (x, y) && (p > 0 ==> s.cursorX == x && s.cursorY == y)
    ensures p == 0 ==> s.cursorX == old(s.cursorX) && s.cursorY == old(s.cursorY)
    ensures OnPage(old(s.Visible()), s.cols, x, y)
    ensures s.Visible() == Inserted(old(s.Visible()), s.cols, x, y, p, s.Blank())
  {
    hide s.Valid, CopiedDown, Fill, ShiftDown;
    InsidePage(s, x, y);
    ghost var v, a := s.Visible(), y * s.cols + x;
    if p == 0 {
      ShiftNothing(v, a, y * s.cols + s.cols, s.Blank());
      return;
    }
    var n := if p > s.cols - x then s.cols - x else p;
    OpenGap(s, n, x, y);
    s.SetCursorPos(x, y);
    PutSpaces(s, n, top, bottom);
    CopyDownDone(v, a, y * s.cols + s.cols, n, s.Blank());
    s.SetCursorPos(x, y);
  }

  /** DCH, CSI P: the rest of the row moves left and the freed cells are erased by the code of ECH. */
  method DeleteCells(s: Screen, p: nat, x: nat, y: nat, top: nat, bottom: nat)
    requires s.Valid() && Inside(s, x, y) && p > 0 && top < bottom <= s.rows
    modifies s`used, s`cursorX, s`cursorY, s.queue, s.slots
    ensures s.Valid() && s.cursorX == x && s.cursorY == y
    ensures OnPage(old(s.Visible()), s.cols, x, y)
    ensures s.Visible() == Deleted(old(s.Visible()), s.cols, x, y, p, s.Blank())
  {
    hide s.Valid, CopiedUp, Fill, ShiftUp;
    InsidePage(s, x, y);
    ghost var v, a, e := s.Visible(), y * s.cols + x, y * s.cols + s.cols;
    var n := if p > s.cols - x then s.cols - x else p;
    CopyUpDone(v, a, e, n, s.Blank());
    for i := x + n to s.cols
      modifies s`used, s.queue, s.slots
      invariant s.Valid() && s.Visible() == CopiedUp(v, a, n, y * s.cols + i)
    {
      Position(s, i, y);
      Position(s, i - n, y);
      CopyUpStep(v, a, n, y * s.cols + i);
      s.MoveCharacter(i - n, y, i, y);
    }
    s.SetCursorPos(s.cols - n, y);
    EraseCells(s, n, s.cols - n, y, top, bottom);
    s.SetCursorPos(x, y);
  }

  /** SU and DL, CSI S and M: the region [top, bottom) scrolls up by p rows, at most all of it. */
  method ScrollRowsUp(s: Screen, p: nat, top: nat, bottom: nat)
    requires s.Valid() && top < bottom <= s.rows
    modifies s`used, s.queue, s.slots
    ensures s.Valid() && bottom * s.cols <= |s.Visible()|
    ensures s.Visible() == ScrollUp(old(s.Visible()), s.cols, top, bottom, Min(p, bottom - top), s.Blank())
  {
    hide s.Valid, ScrollUp;
    ShapedIs(s);
    ProductOrder(bottom, s.rows, s.cols);
    ghost var v := s.Visible();
    ScrollNothing(v, s.cols, top, bottom, s.Blank());
    var count := if p > bottom - top then bottom - top else p;
    for i := 0 to count
      invariant s.Valid() && s.Visible() == ScrollUp(v, s.cols, top, bottom, i, s.Blank())
    {
      ScrollMore(v, s.cols, top, bottom, i, s.Blank());
      s.Scroll(top, bottom);
    }
  }

  /** SD and IL, CSI T and L. */
  method ScrollRowsDown(s: Screen, p: nat, top: nat, bottom: nat)
    requires s.Valid() && top < bottom <= s.rows
    modifies s`used, s.queue, s.slots
    ensures s.Valid() && bottom * s.cols <= |s.Visible()|
    ensures s.Visible() == ScrollDown(old(s.Visible()), s.cols, top, bottom, Min(p, bottom - top), s.Blank())
  {
    hide s.Valid, ScrollDown;
    ShapedIs(s);
    ProductOrder(bottom, s.rows, s.cols);
    ghost var v := s.Visible();
    ScrollNothing(v, s.cols, top, bottom, s.Blank());
    var count := if p > bottom - top then bottom - top else p;
    for i := 0 to count
      invariant s.Valid() && s.Visible() == ScrollDown(v, s.cols, top, bottom, i, s.Blank())
    {
      ScrollMore(v, s.cols, top, bottom, i, s.Blank());
      s.RevScroll(top, bottom);
    }
  }
}
