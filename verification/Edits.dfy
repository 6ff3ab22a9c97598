/** What the terminal's editing commands do to the visible screen, and the laws between them. */
module Edits {
  import opened Arithmetic
  import opened Cells
  import opened Pages
  import opened Typing

  /** Is the position on a screen of this size? */
  predicate OnPage(v: seq<Cell>, cols: nat, x: nat, y: nat) {
    x < cols && y * cols + cols <= |v|
  }

  /** ECH: the n cells from the cursor, as far as the row goes. */
  function Erased(v: seq<Cell>, cols: nat, x: nat, y: nat, n: nat, blank: Cell): (r: seq<Cell>)
    requires OnPage(v, cols, x, y)
    ensures |r| == |v|
  {
    Fill(v, y * cols + x, y * cols + x + Min(n, cols - x), blank)
  }

  /** ICH: n blanks pushed in at the cursor. */
  function Inserted(v: seq<Cell>, cols: nat, x: nat, y: nat, n: nat, blank: Cell): (r: seq<Cell>)
    requires OnPage(v, cols, x, y)
    ensures |r| == |v|
  {
    ShiftDown(v, y * cols + x, y * cols + cols, Min(n, cols - x), blank)
  }

  /** DCH: n cells taken out at the cursor. */
  function Deleted(v: seq<Cell>, cols: nat, x: nat, y: nat, n: nat, blank: Cell): (r: seq<Cell>)
    requires OnPage(v, cols, x, y)
    ensures |r| == |v|
  {
    ShiftUp(v, y * cols + x, y * cols + cols, Min(n, cols - x), blank)
  }

  /** Insert mode: the rest of the row moved right by n cells, the cells it leaves not yet overwritten. */
  function Opened(v: seq<Cell>, cols: nat, x: nat, y: nat, n: nat): (r: seq<Cell>)
    requires OnPage(v, cols, x, y)
    ensures |r| == |v|
  {
    CopiedDown(v, y * cols + cols, Min(n, cols - x), y * cols + x)
  }

  /** EL: part of the row, by the parameter of the command. */
  function LineErased(v: seq<Cell>, cols: nat, x: nat, y: nat, p: nat, blank: Cell): (r: seq<Cell>)
    requires OnPage(v, cols, x, y)
    ensures |r| == |v|
  {
    if p == 0 then Fill(v, y * cols + x, y * cols + cols, blank)
    else if p == 1 then Fill(v, y * cols, y * cols + x + 1, blank)
    else if p == 2 then Fill(v, y * cols, y * cols + cols, blank)
    else v
  }

  /** ED: part of the screen, by the parameter of the command. */
  function PageErased(v: seq<Cell>, cols: nat, x: nat, y: nat, p: nat, blank: Cell): (r: seq<Cell>)
    requires OnPage(v, cols, x, y)
    ensures |r| == |v|
  {
    if p == 0 then Fill(v, y * cols + x, |v|, blank)
    else if p == 1 then Fill(v, 0, y * cols + x + 1, blank)
    else if p == 2 || p == 3 then Blanks(|v|, blank)
    else v
  }

  // ----- printing in insert mode

  /** A character of the given width at the cursor: insert_shift, then raw_putchar. */
  function Printed(p: Picture, s: Setup, insert: bool, width: nat, ink: Cell, blank: Cell): Picture
    requires Fits(p, s)
  {
    LineFits(p, s);
    Typed(if insert && width > 0 then p.(page := Opened(p.page, s.cols, Min(p.x, s.cols - 1), p.y, width)) else p, s,
          ink, blank)
  }

  lemma PrintedStays(p: Picture, s: Setup, insert: bool, width: nat, ink: Cell, blank: Cell)
    requires Fits(p, s)
    ensures Fits(Printed(p, s, insert, width, ink, blank), s)
    ensures s.top <= p.y < s.bottom ==> s.top <= Printed(p, s, insert, width, ink, blank).y < s.bottom
  {
    hide Typed;
    LineFits(p, s);
    TypedStays(if insert && width > 0 then p.(page := Opened(p.page, s.cols, Min(p.x, s.cols - 1), p.y, width)) else p,
               s, ink, blank);
  }

  /** REP: the same character n times. */
  function Repeated(p: Picture, s: Setup, insert: bool, n: nat, ink: Cell, blank: Cell): (r: Picture)
    requires Fits(p, s)
    ensures Fits(r, s)
    ensures s.top <= p.y < s.bottom ==> s.top <= r.y < s.bottom
  {
    if n == 0 then p
    else
      var q := Repeated(p, s, insert, n - 1, ink, blank);
      PrintedStays(q, s, insert, 1, ink, blank);
      Printed(q, s, insert, 1, ink, blank)
  }

  // ----- laws

  /** A row with m blanks pushed in at column x, and with m cells taken out there. */
  function PushedIn(row: seq<Cell>, x: nat, m: nat, blank: Cell): seq<Cell> {
    if x + m <= |row| then row[..x] + Blanks(m, blank) + row[x..|row| - m] else row
  }

  function TakenOut(row: seq<Cell>, x: nat, m: nat, blank: Cell): seq<Cell> {
    if x + m <= |row| then row[..x] + row[x + m..] + Blanks(m, blank) else row
  }

  /** ICH on the cells of its row: blanks pushed in at the cursor, the end of the row lost. */
  lemma InsertedLine(v: seq<Cell>, cols: nat, x: nat, y: nat, n: nat, blank: Cell)
    requires OnPage(v, cols, x, y)
    ensures Row(Inserted(v, cols, x, y, n, blank), cols, y) == PushedIn(Row(v, cols, y), x, Min(n, cols - x), blank)
  {
    hide ShiftDown, Slice, PushedIn;
    ShiftDownLine(v, y * cols, cols, x, Min(n, cols - x), blank);
  }

  /** DCH on the cells of its row: the cells after the deleted ones close up, blanks come in at the end. */
  lemma DeletedLine(v: seq<Cell>, cols: nat, x: nat, y: nat, n: nat, blank: Cell)
    requires OnPage(v, cols, x, y)
    ensures Row(Deleted(v, cols, x, y, n, blank), cols, y) == TakenOut(Row(v, cols, y), x, Min(n, cols - x), blank)
  {
    hide ShiftUp, Slice, TakenOut;
    ShiftUpLine(v, y * cols, cols, x, Min(n, cols - x), blank);
  }

  lemma ShiftDownLine(v: seq<Cell>, s: nat, cols: nat, x: nat, m: nat, blank: Cell)
    requires x + m <= cols && s + cols <= |v|
    ensures Slice(ShiftDown(v, s + x, s + cols, m, blank), s, cols) == PushedIn(Slice(v, s, cols), x, m, blank)
  {
    var row, after := Slice(v, s, cols), ShiftDown(v, s + x, s + cols, m, blank);
    forall j | s <= j < s + cols ensures after[j] == PushedIn(row, x, m, blank)[j - s] {
      if j >= s + x + m {
        assert after[j] == v[j - m] == row[j - m - s];
      }
    }
    SliceIs(after, s, cols, PushedIn(row, x, m, blank), 0);
    assert Slice(PushedIn(row, x, m, blank), 0, cols) == PushedIn(row, x, m, blank);
  }

  lemma ShiftUpLine(v: seq<Cell>, s: nat, cols: nat, x: nat, m: nat, blank: Cell)
    requires x + m <= cols && s + cols <= |v|
    ensures Slice(ShiftUp(v, s + x, s + cols, m, blank), s, cols) == TakenOut(Slice(v, s, cols), x, m, blank)
  {
    var row, after := Slice(v, s, cols), ShiftUp(v, s + x, s + cols, m, blank);
    forall j | s <= j < s + cols ensures after[j] == TakenOut(row, x, m, blank)[j - s] {
      if s + x <= j < s + cols - m {
        assert after[j] == v[j + m] == row[j + m - s];
      }
    }
    SliceIs(after, s, cols, TakenOut(row, x, m, blank), 0);
    assert Slice(TakenOut(row, x, m, blank), 0, cols) == TakenOut(row, x, m, blank);
  }

  /** DCH n after ICH n restores the row, except for the cells that the insertion pushed off its end. */
  lemma DeleteUndoesInsert(v: seq<Cell>, cols: nat, x: nat, y: nat, n: nat, blank: Cell)
    requires OnPage(v, cols, x, y)
    ensures var m := Min(n, cols - x);
            Deleted(Inserted(v, cols, x, y, n, blank), cols, x, y, n, blank)
              == Fill(v, y * cols + cols - m, y * cols + cols, blank)
  {
    hide ShiftDown, ShiftUp, Fill;
    ShiftsCancel(v, y * cols + x, y * cols + cols, Min(n, cols - x), blank);
  }

  lemma ShiftsCancel(v: seq<Cell>, a: nat, e: nat, m: nat, blank: Cell)
    requires a + m <= e <= |v|
    ensures ShiftUp(ShiftDown(v, a, e, m, blank), a, e, m, blank) == Fill(v, e - m, e, blank)
  {
  }

  /** Cells [from, to) of v: everything else is untouched. */
  predicate OnlyWithin(v: seq<Cell>, w: seq<Cell>, from: nat, to: nat)
    requires from <= to <= |v|
  {
    |w| == |v| && w[..from] == v[..from] && w[to..] == v[to..]
  }

  /** ICH, DCH, ECH and EL change no cell of another row; ICH, DCH and ECH none before the cursor. */
  lemma EditsStayInLine(v: seq<Cell>, cols: nat, x: nat, y: nat, n: nat, p: nat, blank: Cell)
    requires OnPage(v, cols, x, y)
    ensures OnlyWithin(v, Inserted(v, cols, x, y, n, blank), y * cols + x, y * cols + cols)
    ensures OnlyWithin(v, Deleted(v, cols, x, y, n, blank), y * cols + x, y * cols + cols)
    ensures OnlyWithin(v, Erased(v, cols, x, y, n, blank), y * cols + x, y * cols + x + Min(n, cols - x))
    ensures OnlyWithin(v, LineErased(v, cols, x, y, p, blank), y * cols, y * cols + cols)
    ensures OnlyWithin(v, Opened(v, cols, x, y, n), y * cols + x, y * cols + cols)
  {
  }

  /** Erasing from the cursor and up to the cursor together clear the row, and the screen. */
  lemma ErasesMeet(v: seq<Cell>, cols: nat, x: nat, y: nat, blank: Cell)
    requires OnPage(v, cols, x, y)
    ensures LineErased(LineErased(v, cols, x, y, 0, blank), cols, x, y, 1, blank) == LineErased(v, cols, x, y, 2, blank)
    ensures PageErased(PageErased(v, cols, x, y, 0, blank), cols, x, y, 1, blank) == PageErased(v, cols, x, y, 2, blank)
  {
    FillsMeet(v, y * cols, y * cols + x, y * cols + cols, blank);
    FillsMeet(v, 0, y * cols + x, |v|, blank);
    FillAll(v, blank);
  }

  lemma FillsMeet(v: seq<Cell>, a: nat, m: nat, e: nat, blank: Cell)
    requires a <= m < e <= |v|
    ensures Fill(Fill(v, m, e, blank), a, m + 1, blank) == Fill(v, a, e, blank)
  {
  }

  // ----- printing, cell by cell

  /** In insert mode a character that fits pushes the rest of its row right, past the end. */
  lemma PrintedPushes(p: Picture, s: Setup, ink: Cell, blank: Cell)
    requires Fits(p, s) && p.x < s.cols
    ensures var at, e := p.y * s.cols + p.x, p.y * s.cols + s.cols;
            && e <= |p.page|
            && Printed(p, s, true, 1, ink, blank)
               == Picture(p.page[..at] + [ink] + p.page[at..e - 1] + p.page[e..], p.x + 1, p.y)
            && Printed(p, s, false, 1, ink, blank)
               == Picture(p.page[..at] + [ink] + p.page[at + 1..], p.x + 1, p.y)
  {
    hide Typed;
    LineFits(p, s);
    var v := Opened(p.page, s.cols, p.x, p.y, 1);
    TypedInRow(p.(page := v), s, ink, blank);
    TypedInRow(p, s, ink, blank);
    OpenedOne(p.page, p.y * s.cols + p.x, p.y * s.cols + s.cols, ink);
  }

  lemma OpenedOne(v: seq<Cell>, at: nat, e: nat, ink: Cell)
    requires at < e <= |v|
    ensures CopiedDown(v, e, 1, at)[at := ink] == v[..at] + [ink] + v[at..e - 1] + v[e..]
    ensures v[at := ink] == v[..at] + [ink] + v[at + 1..]
  {
  }

  /** n copies of a cell from a position on. */
  function Copies(v: seq<Cell>, at: nat, n: nat, ink: Cell): (r: seq<Cell>)
    requires at + n <= |v|
    ensures |r| == |v|
  {
    v[..at] + Blanks(n, ink) + v[at + n..]
  }

  lemma NoCopies(v: seq<Cell>, at: nat, ink: Cell)
    requires at <= |v|
    ensures Copies(v, at, 0, ink) == v
  {
  }

  /** REP without insert mode, when it fits in the row: n copies of the character. */
  lemma {:induction false} RepeatedInRow(p: Picture, s: Setup, n: nat, ink: Cell, blank: Cell)
    requires Fits(p, s) && p.x + n <= s.cols
    ensures p.y * s.cols + s.cols <= |p.page|
    ensures Repeated(p, s, false, n, ink, blank)
              == Picture(Copies(p.page, p.y * s.cols + p.x, n, ink), p.x + n, p.y)
  {
    hide Printed, Repeated, Copies;
    LineFits(p, s);
    RepeatedUnfold(p, s, n, ink, blank);
    if n == 0 {
      NoCopies(p.page, p.y * s.cols + p.x, ink);
    } else {
      RepeatedInRow(p, s, n - 1, ink, blank);
      PrintedPushes(Repeated(p, s, false, n - 1, ink, blank), s, ink, blank);
      OneMore(p.page, p.y * s.cols + p.x, n, ink);
      RowStart(p.y, s.cols, p.x, n);
    }
  }

  lemma RepeatedUnfold(p: Picture, s: Setup, n: nat, ink: Cell, blank: Cell)
    requires Fits(p, s)
    ensures n == 0 ==> Repeated(p, s, false, n, ink, blank) == p
    ensures n > 0 ==>
              Repeated(p, s, false, n, ink, blank)
                == Printed(Repeated(p, s, false, n - 1, ink, blank), s, false, 1, ink, blank)
  {
    hide Printed;
  }

  lemma RowStart(y: nat, cols: nat, x: nat, n: nat)
    requires n > 0
    ensures y * cols + (x + (n - 1)) == y * cols + x + (n - 1)
  {
  }

  lemma OneMore(v: seq<Cell>, at: nat, n: nat, ink: Cell)
    requires n > 0 && at + n <= |v|
    ensures var w := Copies(v, at, n - 1, ink);
            w[..at + (n - 1)] + [ink] + w[at + (n - 1) + 1..] == Copies(v, at, n, ink)
  {
  }
}
