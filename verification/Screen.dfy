/** The double-buffered framebuffer terminal: cached cells, cursor and flush (flanterm_backends/fb.c). */
module Screens {
  import opened Arithmetic
  import opened Cells
  import opened Pages
  import opened Typing

  function Swap(c: Cell): Cell {
    Cell(c.c, c.bg, c.fg)
  }

  /** What the framebuffer shows for a visible screen: the cells, with the cursor cell in swapped colours. */
  predicate Rendered(shown: seq<Cell>, v: seq<Cell>, cursor: int) {
    && |shown| == |v|
    && forall i :: 0 <= i < |v| ==> shown[i] == if i == cursor then Swap(v[i]) else v[i]
  }

  /** Everything drawn agrees with the grid, except perhaps the cell of the last drawn cursor. */
  predicate Synced(shown: seq<Cell>, grid: seq<Cell>, cursor: int) {
    |shown| == |grid| && forall i :: 0 <= i < |grid| && i != cursor ==> shown[i] == grid[i]
  }

  class Screen {
    const cols: nat
    const rows: nat
    const grid: array<Cell>
    const queue: array<Item>
    const slots: array<int>
    const shown: array<Cell>
    var used: nat
    var cursorX: nat
    var cursorY: nat
    var oldCursorX: nat
    var oldCursorY: nat
    var textFg: nat
    var textBg: nat
    var savedFg: nat
    var savedBg: nat
    var savedCursorX: nat
    var savedCursorY: nat

    ghost function State(): Cache
      reads this, grid, queue, slots
    {
      Cache(grid[..], queue[..], slots[..], used)
    }

    predicate Shaped()
      reads this
    {
      && cols > 0 && rows > 0
      && grid.Length == queue.Length == slots.Length == shown.Length == rows * cols
      && grid != shown
    }

    ghost predicate Valid()
      reads this, grid, queue, slots, shown
    {
      && Shaped()
      && CacheInv(State(), cols, rows)
      && Synced(shown[..], grid[..], CellIndex(oldCursorX, oldCursorY))
    }

    /** Index of a position, -1 when it is off the screen. */
    function CellIndex(x: nat, y: nat): int {
      if x < cols && y < rows then Offset(cols, x, y) else -1
    }

    /** The visible screen. */
    ghost function Visible(): (v: seq<Cell>)
      requires Valid()
      reads this, grid, queue, slots, shown
      ensures |v| == rows * cols
    {
      View(State(), rows * cols)
    }

    function Blank(): Cell
      reads this
    {
      Cell(' ' as nat, textFg, textBg)
    }

    method PushToQueue(c: Cell, x: nat, y: nat)
      requires Valid()
      modifies this`used, queue, slots
      ensures Valid() && State() == Push(old(State()), cols, rows, c, x, y)
      ensures Visible() == Set(old(Visible()), CellIndex(x, y), c)
    {
      hide CacheInv, Offset, View, Synced;
      ghost var s := State();
      PushKeepsInv(s, cols, rows, c, x, y);
      PushView(s, cols, rows, c, x, y);
      CacheShape(s, cols, rows);
      if x >= cols || y >= rows {
        return;
      }
      OffsetInRange(cols, rows, x, y);
      var i := Offset(cols, x, y);
      var q := slots[i];
      if q < 0 {
        if grid[i] == c {
          return;
        }
        if used == rows * cols {
          return;
        }
        q := used;
        used := used + 1;
        queue[q] := Item(x, y, c);
        slots[i] := q;
      }
      queue[q] := queue[q].(c := c);
      assert queue[..] == Push(s, cols, rows, c, x, y).queue;
      assert slots[..] == Push(s, cols, rows, c, x, y).slots;
    }

    /** The visible cell at a valid index. */
    method CellOf(i: nat) returns (c: Cell)
      requires Valid() && i < rows * cols
      ensures c == Visible()[i]
    {
      hide CacheInv, Synced;
      CacheShape(State(), cols, rows);
      c := if slots[i] >= 0 then queue[slots[i]].c else grid[i];
      assert c == CellAt(State(), i);
    }

    /** Writes blanks over `cols` cells of row y. */
    method BlankRow(y: nat)
      requires Valid() && y < rows
      modifies this`used, queue, slots
      ensures Valid() && y * cols + cols <= rows * cols
      ensures Visible() == Fill(old(Visible()), y * cols, y * cols + cols, Blank())
    {
      hide Valid, Synced, View, Push, Shape, Fill;
      RowInScreen(cols, rows, y);
      var empty := Blank();
      FillNothing(Visible(), y * cols, empty);
      for i := 0 to cols
        invariant Valid() && empty == Blank()
        invariant Visible() == Fill(old(Visible()), y * cols, y * cols + i, empty)
      {
        FillStep(old(Visible()), y * cols, y * cols + i, empty);
        PushToQueue(empty, i, y);
      }
    }

    /** push_to_queue at a cell index, as the loops over cell indices call it. */
    method PutIndex(c: Cell, i: nat)
      requires Valid() && i < rows * cols
      modifies this`used, queue, slots
      ensures Valid() && Visible() == old(Visible())[i := c]
    {
      hide CacheInv, Synced, View, Push, Shape;
      OffsetParts(cols, rows, i);
      PushToQueue(c, i % cols, i / cols);
    }

    method CopyIndex(to: nat, from: nat)
      requires Valid() && to < rows * cols && from < rows * cols
      modifies this`used, queue, slots
      ensures Valid() && Visible() == old(Visible())[to := old(Visible())[from]]
    {
      hide CacheInv, Synced, View, Shape;
      var c := CellOf(from);
      PutIndex(c, to);
    }

    /** Moves rows [top, bottom) up by one, in place. */
    method Scroll(top: nat, bottom: nat)
      requires Valid() && top < bottom <= rows
      modifies this`used, queue, slots
      ensures Valid() && bottom * cols <= rows * cols
      ensures Visible() == ScrollUp(old(Visible()), cols, top, bottom, 1, Blank())
    {
      hide Valid, CacheInv, Synced, View, Shape, CopiedUp, CopiedDown, ScrollUp, ScrollDown, ShiftUp, ShiftDown, Fill;
      RegionInScreen(cols, rows, top, bottom);
      ghost var v, a, e := Visible(), top * cols, bottom * cols;
      ColsPositive();
      CopyUpDone(v, a, e, cols, Blank());
      var i := (top + 1) * cols;
      while i < bottom * cols
        invariant a + cols <= i <= e
        invariant Valid() && Visible() == CopiedUp(v, a, cols, i)
      {
        CopyUpStep(v, a, cols, i);
        CopyIndex(i - cols, i);
        i := i + 1;
      }
      BlankRow(bottom - 1);
      OneRow(v, cols, top, bottom, Blank());
    }

    lemma ColsPositive()
      requires Valid()
      ensures cols > 0 && rows > 0
    {
    }

    /** Moves rows [top, bottom) down by one, in place. */
    method RevScroll(top: nat, bottom: nat)
      requires Valid() && top < bottom <= rows
      modifies this`used, queue, slots
      ensures Valid() && bottom * cols <= rows * cols
      ensures Visible() == ScrollDown(old(Visible()), cols, top, bottom, 1, Blank())
    {
      hide Valid, CacheInv, Synced, View, Shape, CopiedUp, CopiedDown, ScrollUp, ScrollDown, ShiftUp, ShiftDown, Fill;
      RegionInScreen(cols, rows, top, bottom);
      ghost var v, a, e := Visible(), top * cols, bottom * cols;
      ColsPositive();
      CopyDownDone(v, a, e, cols, Blank());
      var i := (bottom - 1) * cols;
      while i > top * cols
        invariant a <= i <= e - cols
        invariant Valid() && Visible() == CopiedDown(v, e, cols, i)
      {
        CopyDownStep(v, e, cols, i);
        i := i - 1;
        CopyIndex(i + cols, i);
      }
      BlankRow(top);
      OneRow(v, cols, top, bottom, Blank());
    }

    method Clear(move: bool)
      requires Valid()
      modifies this`used, this`cursorX, this`cursorY, queue, slots
      ensures Valid() && Visible() == Blanks(rows * cols, Blank())
      ensures if move then cursorX == 0 && cursorY == 0 else cursorX == old(cursorX) && cursorY == old(cursorY)
    {
      hide CacheInv, Synced, View, Shape, Fill;
      ghost var v := Visible();
      FillNothing(v, 0, Blank());
      for i := 0 to rows * cols
        modifies this`used, queue, slots
        invariant Valid() && Visible() == Fill(v, 0, i, Blank())
      {
        FillStep(v, 0, i, Blank());
        PutIndex(Blank(), i);
      }
      FillAll(v, Blank());
      if move {
        cursorX := 0;
        cursorY := 0;
      }
    }

    /** Positions past the edge stick to the edge; a negative position, as an unsigned number, becomes 0. */
    method SetCursorPos(x: int, y: int)
      requires Valid()
      modifies this`cursorX, this`cursorY
      ensures Valid() && Visible() == old(Visible())
      ensures cursorX == Clamp(x, cols) && cursorY == Clamp(y, rows)
    {
      cursorX := if x >= cols then cols - 1 else if x < 0 then 0 else x;
      cursorY := if y >= rows then rows - 1 else if y < 0 then 0 else y;
    }

    function CursorPos(): (p: (nat, nat))
      requires Shaped()
      reads this
      ensures p.0 < cols && p.1 < rows
    {
      (if cursorX >= cols then cols - 1 else cursorX, if cursorY >= rows then rows - 1 else cursorY)
    }

    method MoveCharacter(newX: nat, newY: nat, oldX: nat, oldY: nat)
      requires Valid()
      modifies this`used, queue, slots
      ensures Valid()
      ensures Visible() == Moved(old(Visible()), CellIndex(newX, newY), CellIndex(oldX, oldY))
    {
      hide CacheInv, Synced, View, Push, Shape;
      if oldX >= cols || oldY >= rows || newX >= cols || newY >= rows {
        return;
      }
      OffsetInRange(cols, rows, oldX, oldY);
      var c := CellOf(oldX + oldY * cols);
      PushToQueue(c, newX, newY);
    }

    ghost function Pic(): Picture
      requires Valid()
      reads this, grid, queue, slots, shown
    {
      Picture(Visible(), cursorX, cursorY)
    }

    /** The cursor may be past the end of its row, never past the last row. */
    predicate CursorOk()
      reads this
    {
      cursorX <= cols && cursorY < rows
    }

    method RawPutchar(c: nat, wrap: bool, scrolling: bool, top: nat, bottom: nat)
      requires Valid() && CursorOk() && top < bottom <= rows
      modifies this`used, this`cursorX, this`cursorY, queue, slots
      ensures Valid() && CursorOk()
      ensures Pic()
                == Typed(old(Pic()), Setup(cols, rows, top, bottom, wrap, scrolling), Cell(c, textFg, textBg), Blank())
    {
      hide CacheInv, Synced, View, Shape, Push, ScrollUp;
      RegionInScreen(cols, rows, top, bottom);
      if cursorX >= cols {
        if wrap && (cursorY < bottom - 1 || scrolling) {
          cursorX := 0;
          cursorY := cursorY + 1;
          if cursorY == bottom {
            cursorY := cursorY - 1;
            Scroll(top, bottom);
          }
          if cursorY >= rows {
            cursorY := rows - 1;
          }
        } else {
          cursorX := cols - 1;
        }
      }
      PushToQueue(Cell(c, textFg, textBg), cursorX, cursorY);
      cursorX := cursorX + 1;
    }

    method SaveState()
      requires Valid()
      modifies this`savedFg, this`savedBg, this`savedCursorX, this`savedCursorY
      ensures Valid() && Visible() == old(Visible())
      ensures savedFg == textFg && savedBg == textBg && savedCursorX == cursorX && savedCursorY == cursorY
    {
      savedFg, savedBg, savedCursorX, savedCursorY := textFg, textBg, cursorX, cursorY;
    }

    method RestoreState()
      requires Valid()
      modifies this`textFg, this`textBg, this`cursorX, this`cursorY
      ensures Valid() && Visible() == old(Visible())
      ensures textFg == savedFg && textBg == savedBg && cursorX == savedCursorX && cursorY == savedCursorY
    {
      textFg, textBg, cursorX, cursorY := savedFg, savedBg, savedCursorX, savedCursorY;
    }

    // ----- flush

    /** Draws the cursor cell in swapped colours; a pending cell there is settled into the grid. */
    method DrawCursor()
      requires Shaped() && Shape(State(), rows * cols)
      modifies grid, slots, shown
      ensures Shape(State(), rows * cols) && View(State(), rows * cols) == old(View(State(), rows * cols))
      ensures var ci := CellIndex(cursorX, cursorY);
              if 0 <= ci < rows * cols then
                && shown[..] == old(shown[..])[ci := Swap(old(View(State(), rows * cols))[ci])]
                && slots[..] == old(slots[..])[ci := NONE]
                && grid[..] == old(grid[..])[ci := old(View(State(), rows * cols))[ci]]
              else shown[..] == old(shown[..]) && slots[..] == old(slots[..]) && grid[..] == old(grid[..])
    {
      hide Offset, CacheInv;
      if cursorX >= cols || cursorY >= rows {
        return;
      }
      OffsetInRange(cols, rows, cursorX, cursorY);
      var i := Offset(cols, cursorX, cursorY);
      ghost var v := View(State(), rows * cols);
      assert v[i] == CellAt(State(), i);
      var q := slots[i];
      var c := if q >= 0 then queue[q].c else grid[i];
      shown[i] := Swap(c);
      if q >= 0 {
        grid[i] := queue[q].c;
        slots[i] := NONE;
      }
      assert forall j :: 0 <= j < rows * cols ==> CellAt(State(), j) == v[j];
    }

    /** Where the cursor shows. */
    function CursorCell(enabled: bool): int
      reads this
    {
      if enabled then CellIndex(cursorX, cursorY) else -1
    }

    /** First phase of a flush: the cursor is drawn over its settled cell. */
    method DrawIfEnabled(enabled: bool)
      requires Valid()
      modifies grid, slots, shown
      ensures Shaped() && Settling(State(), cols, rows, 0) && View(State(), rows * cols) == old(Visible())
      ensures Pictured(shown[..], State(), old(Visible()), CursorCell(enabled), CellIndex(oldCursorX, oldCursorY))
    {
      hide CacheInv, Settling, Offset, View, Shape;
      ghost var s := State();
      CacheShape(s, cols, rows);
      SettlingStarts(s, cols, rows);
      if enabled {
        IndexInScreen(cursorX, cursorY);
        DrawCursor();
        ghost var cur := CursorCell(enabled);
        if cur >= 0 {
          SettleCell(s, cols, rows, cur);
          assert State() == s.(grid := s.grid[cur := View(s, rows * cols)[cur]], slots := s.slots[cur := NONE]);
        } else {
          assert State() == s;
        }
      }
    }

    /** Second phase: the pending items are drawn. */
    method DrawQueue(ghost v: seq<Cell>, ghost cur: int, ghost was: int)
      requires Shaped() && Settling(State(), cols, rows, 0) && View(State(), rows * cols) == v
      requires Pictured(shown[..], State(), v, cur, was)
      modifies grid, slots, shown
      ensures Settling(State(), cols, rows, used) && View(State(), rows * cols) == v
      ensures Pictured(shown[..], State(), v, cur, was)
    {
      hide SlotSettling, Offset, View, CellAt;
      for k := 0 to used
        invariant Settling(State(), cols, rows, k) && View(State(), rows * cols) == v
        invariant Pictured(shown[..], State(), v, cur, was)
      {
        ghost var s := State();
        SettleStep(s, cols, rows, k);
        SlotInScreen(s, cols, rows, k);
        var i := Offset(cols, queue[k].x, queue[k].y);
        if slots[i] != NONE {
          shown[i] := queue[k].c;
          grid[i] := queue[k].c;
          slots[i] := NONE;
        }
        assert State() == Settle(s, cols, k);
      }
    }

    /** Last phase: the cell of a cursor that moved or was switched off is drawn again. */
    method RedrawOld(enabled: bool)
      requires Shaped()
      modifies shown
      ensures shown[..]
                == if (oldCursorX != cursorX || oldCursorY != cursorY
                       || !enabled) && 0 <= CellIndex(oldCursorX, oldCursorY) < rows * cols
                           then old(shown[..])[CellIndex(oldCursorX,
                                                         oldCursorY) := grid[CellIndex(oldCursorX, oldCursorY)]]
                           else old(shown[..])
    {
      hide Offset;
      IndexInScreen(oldCursorX, oldCursorY);
      if (oldCursorX != cursorX || oldCursorY != cursorY) || !enabled {
        if oldCursorX < cols && oldCursorY < rows {
          shown[Offset(cols, oldCursorX, oldCursorY)] := grid[Offset(cols, oldCursorX, oldCursorY)];
        }
      }
    }

    method DoubleBufferFlush(enabled: bool)
      requires Valid()
      modifies this`used, this`oldCursorX, this`oldCursorY, grid, slots, shown
      ensures Valid() && Visible() == old(Visible())
      ensures used == 0 && (forall i :: 0 <= i < slots.Length ==> slots[i] == NONE)
      ensures grid[..] == Visible()
      ensures Rendered(shown[..], Visible(), CursorCell(enabled))
      ensures oldCursorX == cursorX && oldCursorY == cursorY
    {
      hide CacheInv, Settling, Offset, View, Shape;
      ghost var v, cur, was := Visible(), CursorCell(enabled), CellIndex(oldCursorX, oldCursorY);
      DrawIfEnabled(enabled);
      DrawQueue(v, cur, was);
      SettledView(State(), cols, rows);
      IndexInScreen(cursorX, cursorY);
      IndexInScreen(oldCursorX, oldCursorY);
      IndexInjective(cursorX, cursorY, oldCursorX, oldCursorY);
      RedrawOld(enabled);
      oldCursorX := cursorX;
      oldCursorY := cursorY;
      ghost var s := State();
      used := 0;
      assert State() == s.(used := 0);
    }

    /**
     Draws the whole grid and the cursor. The cursor clears the pending entry of its cell without retiring the queue
     slot, and it is not recorded as the old cursor: the screen stays sound exactly when neither matters.
     */
    method FullRefresh(enabled: bool)
      requires Valid()
      modifies grid, slots, shown
      ensures Shaped() && Shape(State(), rows * cols) && View(State(), rows * cols) == old(Visible())
      ensures CursorCell(enabled) < slots.Length
      ensures var ci := CursorCell(enabled);
              Valid() <==> ci < 0 || (old(slots[..])[ci] == NONE
                                      && (ci == CellIndex(oldCursorX, oldCursorY)
                                          || old(Visible())[ci].fg == old(Visible())[ci].bg))
      ensures old(used) == 0 ==> Rendered(shown[..], old(Visible()), CursorCell(enabled))
    {
      hide CacheInv, Offset, View, Shape, Synced, Rendered;
      ghost var s, v, ci := State(), Visible(), CursorCell(enabled);
      CacheShape(s, cols, rows);
      IndexInScreen(cursorX, cursorY);
      DrawGrid();
      if enabled {
        DrawCursor();
      }
      NothingPending(s, cols, rows);
      GridDrawn(s.grid, v, ci, CellIndex(oldCursorX, oldCursorY));
      if ci >= 0 {
        ForgottenSlot(s, cols, rows, ci);
        assert State() == s.(grid := s.grid[ci := v[ci]], slots := s.slots[ci := NONE]);
      } else {
        assert State() == s;
      }
    }

    method DrawGrid()
      requires Shaped()
      modifies shown
      ensures shown[..] == grid[..]
    {
      for i := 0 to rows * cols
        invariant forall j :: 0 <= j < i ==> shown[j] == grid[j]
      {
        shown[i] := grid[i];
      }
    }

    constructor (columns: nat, lines: nat, fg: nat, bg: nat)
      requires columns > 0 && lines > 0
      ensures cols == columns && rows == lines && textFg == fg && textBg == bg
      ensures cursorX == 0 && cursorY == 0 && used == 0
      ensures fresh(grid) && fresh(queue) && fresh(slots) && fresh(shown)
      ensures Valid() && Visible() == Blanks(rows * cols, Blank())
      ensures Rendered(shown[..], Visible(), CursorCell(true))
    {
      cols, rows, used := columns, lines, 0;
      cursorX, cursorY, oldCursorX, oldCursorY := 0, 0, 0, 0;
      savedCursorX, savedCursorY, savedFg, savedBg := 0, 0, 0, 0;
      textFg, textBg := fg, bg;
      grid := new Cell[lines * columns](_ => Cell(' ' as nat, fg, bg));
      shown := new Cell[lines * columns](_ => Cell(' ' as nat, fg, bg));
      queue := new Item[lines * columns](_ => Item(0, 0, Cell(0, 0, 0)));
      slots := new int[lines * columns](_ => NONE);
      new;
      assert Visible() == Blanks(rows * cols, Blank());
      FullRefresh(true);
    }

    lemma IndexInScreen(x: nat, y: nat)
      ensures CellIndex(x, y) < rows * cols
    {
      hide Offset;
      if x < cols && y < rows {
        OffsetInRange(cols, rows, x, y);
      }
    }

    lemma IndexInjective(x: nat, y: nat, u: nat, w: nat)
      ensures CellIndex(x, y) == CellIndex(u, w) && CellIndex(x, y) >= 0 ==> x == u && y == w
    {
      if CellIndex(x, y) == CellIndex(u, w) && CellIndex(x, y) >= 0 {
        OffsetInjective(cols, x, y, u, w);
      }
    }
  }

  /** During a flush: every drawn cell but the cursor's and the old cursor's agrees with the grid. */
  ghost predicate Pictured(shown: seq<Cell>, s: Cache, v: seq<Cell>, cur: int, was: int) {
    && |shown| == |s.grid| == |s.slots| == |v|
    && (forall i :: 0 <= i < |v| && i != cur && i != was ==> shown[i] == s.grid[i])
    && (0 <= cur < |v| ==> shown[cur] == Swap(v[cur]) && s.slots[cur] == NONE)
  }

  /** The grid drawn with the cursor on top, over a settled cursor cell. */
  lemma GridDrawn(grid: seq<Cell>, v: seq<Cell>, ci: int, was: int)
    requires |grid| == |v| && ci < |v|
    ensures ci < 0 ==> Synced(grid, grid, was)
    ensures ci >= 0 ==> (Synced(grid[ci := Swap(v[ci])], grid[ci := v[ci]], was) <==> ci == was || v[ci].fg == v[ci].bg)
    ensures grid == v ==> Rendered(if ci < 0 then grid else grid[ci := Swap(v[ci])], v, ci)
  {
    if ci >= 0 {
      assert grid[ci := Swap(v[ci])][ci] == grid[ci := v[ci]][ci] <==> v[ci].fg == v[ci].bg;
    }
  }

  lemma NothingPending(s: Cache, cols: nat, rows: nat)
    requires CacheInv(s, cols, rows)
    ensures s.used == 0 ==> forall i :: 0 <= i < |s.slots| ==> s.slots[i] == NONE
    ensures s.used == 0 ==> s.grid == View(s, rows * cols)
  {
  }

  /** Settling a cell without retiring its slot keeps the cache sound exactly when the cell was not pending. */
  lemma ForgottenSlot(s: Cache, cols: nat, rows: nat, i: nat)
    requires CacheInv(s, cols, rows) && i < rows * cols
    ensures CacheInv(s.(grid := s.grid[i := View(s, rows * cols)[i]], slots := s.slots[i := NONE]), cols, rows)
            <==> s.slots[i] == NONE
    ensures s.slots[i] == NONE ==> View(s, rows * cols)[i] == s.grid[i]
  {
    hide Offset;
    var t := s.(grid := s.grid[i := View(s, rows * cols)[i]], slots := s.slots[i := NONE]);
    if s.slots[i] == NONE {
      assert t == s;
    } else {
      assert !SlotLive(t, cols, rows, s.slots[i]);
    }
  }

  lemma SlotInScreen(s: Cache, cols: nat, rows: nat, k: nat)
    requires Settling(s, cols, rows, k) && k < s.used
    ensures |s.grid| == |s.queue| == |s.slots| == rows * cols && s.used <= |s.queue|
    ensures s.queue[k].x < cols && s.queue[k].y < rows && Offset(cols, s.queue[k].x, s.queue[k].y) < rows * cols
  {
    hide Offset;
    assert SlotSettling(s, cols, rows, k);
  }

  lemma CacheShape(s: Cache, cols: nat, rows: nat)
    requires CacheInv(s, cols, rows)
    ensures Shape(s, rows * cols)
  {
  }

  function Clamp(x: int, limit: nat): (r: nat)
    requires limit > 0
    ensures r < limit
  {
    if x >= limit then limit - 1 else if x < 0 then 0 else x
  }

  /** The cell at `from` copied over the cell at `to`. */
  function Moved(v: seq<Cell>, to: int, from: int): (r: seq<Cell>)
    ensures |r| == |v|
  {
    if 0 <= from < |v| then Set(v, to, v[from]) else v
  }

  lemma RowInScreen(cols: nat, rows: nat, y: nat)
    requires y < rows
    ensures y * cols + cols <= rows * cols
  {
    ProductOrder(y + 1, rows, cols);
  }

  lemma RegionInScreen(cols: nat, rows: nat, top: nat, bottom: nat)
    requires top < bottom <= rows
    ensures (top + 1) * cols == top * cols + cols <= bottom * cols <= rows * cols
    ensures (bottom - 1) * cols == bottom * cols - cols >= top * cols
  {
    ProductOrder(top + 1, bottom, cols);
    ProductOrder(bottom, rows, cols);
    ProductOrder(top, bottom - 1, cols);
  }

  lemma OneRow(v: seq<Cell>, cols: nat, top: nat, bottom: nat, blank: Cell)
    requires top < bottom && bottom * cols <= |v|
    ensures top * cols + cols <= bottom * cols
    ensures ScrollUp(v, cols, top, bottom, 1, blank) == ShiftUp(v, top * cols, bottom * cols, cols, blank)
    ensures ScrollDown(v, cols, top, bottom, 1, blank) == ShiftDown(v, top * cols, bottom * cols, cols, blank)
  {
    RowBounds(cols, top, 1, bottom);
    assert 1 * cols == cols;
  }
}
