/** What the control functions mean on the screen: cell by cell, row by row, and column by column for the cursor. */
module ControlLaws {
  import opened Arithmetic
  import opened Cells
  import opened Pages
  import opened Typing
  import opened Edits
  import opened Controls

  // ----- rows that move

  /** Row y of the region shows what row y + n showed, the last n rows are blank, and rows outside stay. */
  predicate MovedUp(v: seq<Cell>, w: seq<Cell>, g: Geometry, top: nat, n: nat, blank: Cell, y: nat) {
    Row(w, g.cols, y) == if y < top || y >= g.bottom then Row(v, g.cols, y)
                         else if y + n < g.bottom then Row(v, g.cols, y + n)
                         else Blanks(g.cols, blank)
  }

  predicate RowsUp(v: seq<Cell>, w: seq<Cell>, g: Geometry, top: nat, n: nat, blank: Cell) {
    |w| == |v| && forall y: nat :: y < g.rows ==> MovedUp(v, w, g, top, n, blank, y)
  }

  /** Row y of the region shows what row y - n showed, the first n rows are blank, and rows outside stay. */
  predicate MovedDown(v: seq<Cell>, w: seq<Cell>, g: Geometry, top: nat, n: nat, blank: Cell, y: nat) {
    Row(w, g.cols, y) == if y < top || y >= g.bottom then Row(v, g.cols, y)
                         else if y >= top + n then Row(v, g.cols, y - n)
                         else Blanks(g.cols, blank)
  }

  predicate RowsDown(v: seq<Cell>, w: seq<Cell>, g: Geometry, top: nat, n: nat, blank: Cell) {
    |w| == |v| && forall y: nat :: y < g.rows ==> MovedDown(v, w, g, top, n, blank, y)
  }

  lemma RowFits(rows: nat, cols: nat, y: nat)
    requires y < rows
    ensures y * cols + cols <= rows * cols
  {
    ProductOrder(y + 1, rows, cols);
    Distribute(y, 1, cols);
  }

  lemma ScrolledUp(v: seq<Cell>, g: Geometry, top: nat, n: nat, blank: Cell)
    requires Proper(g) && |v| == g.rows * g.cols && top + n <= g.bottom && g.bottom * g.cols <= |v|
    ensures RowsUp(v, ScrollUp(v, g.cols, top, g.bottom, n, blank), g, top, n, blank)
  {
    hide ScrollUp, Row, Blanks;
    forall y: nat | y < g.rows
      ensures MovedUp(v, ScrollUp(v, g.cols, top, g.bottom, n, blank), g, top, n, blank, y)
    {
      RowFits(g.rows, g.cols, y);
      ScrollUpRow(v, g.cols, top, g.bottom, n, blank, y);
    }
  }

  lemma ScrolledDown(v: seq<Cell>, g: Geometry, top: nat, n: nat, blank: Cell)
    requires Proper(g) && |v| == g.rows * g.cols && top + n <= g.bottom && g.bottom * g.cols <= |v|
    ensures RowsDown(v, ScrollDown(v, g.cols, top, g.bottom, n, blank), g, top, n, blank)
  {
    hide ScrollDown, Row, Blanks;
    forall y: nat | y < g.rows
      ensures MovedDown(v, ScrollDown(v, g.cols, top, g.bottom, n, blank), g, top, n, blank, y)
    {
      RowFits(g.rows, g.cols, y);
      ScrollDownRow(v, g.cols, top, g.bottom, n, blank, y);
      if top + n <= y < g.bottom {
        RowFits(g.rows, g.cols, y - n);
        ScrollDownRow(v, g.cols, top, g.bottom, n, blank, y - n);
      }
    }
  }

  // ----- line feeds

  /** One line further down: on the last line of the region it scrolls, on the last line below it nothing moves. */
  predicate FeedsDown(p: Picture, q: Picture, g: Geometry, blank: Cell) {
    if p.y + 1 == g.bottom then q.y == p.y && RowsUp(p.page, q.page, g, g.top, 1, blank)
    else q.page == p.page && q.y == if p.y + 1 < g.rows then p.y + 1 else p.y
  }

  /** The mirror image. */
  predicate FeedsUp(p: Picture, q: Picture, g: Geometry, blank: Cell) {
    if p.y == g.top then q.y == p.y && RowsDown(p.page, q.page, g, g.top, 1, blank)
    else q.page == p.page && q.y == if p.y > 0 then p.y - 1 else 0
  }

  lemma LineFeedMeans(p: Picture, g: Geometry, x: nat, blank: Cell)
    requires Shows(p, g)
    ensures FeedsDown(p, LineFeed(p, g, x, blank), g, blank)
    ensures LineFeed(p, g, x, blank).x == if p.y + 1 < g.rows || p.y + 1 == g.bottom then x else p.x
  {
    hide ScrollUp, Row;
    ShowsPage(p, g);
    ScrolledUp(p.page, g, g.top, 1, blank);
  }

  lemma ReverseMeans(p: Picture, g: Geometry, blank: Cell)
    requires Shows(p, g)
    ensures FeedsUp(p, ReverseLineFeed(p, g, blank), g, blank)
    ensures ReverseLineFeed(p, g, blank).x == if p.y > 0 || g.top == 0 then Column(p, g) else p.x
  {
    hide ScrollDown, Row;
    ShowsPage(p, g);
    ScrolledDown(p.page, g, g.top, 1, blank);
  }

  /** A line feed and its reverse from a row inside the region, and not at its edges, return to the row. */
  lemma FeedAndReverse(p: Picture, g: Geometry, x: nat, blank: Cell)
    requires Shows(p, g) && x <= g.cols && g.top <= p.y && p.y + 1 < g.bottom
    ensures var q := ReverseLineFeed(LineFeed(p, g, x, blank), g, blank); q.page == p.page && q.y == p.y
  {
  }

  /** BS, HT, LF, VT, FF and CR; the other control characters leave the picture alone. */
  lemma C0Means(c: int, p: Picture, g: Geometry, blank: Cell)
    requires Shows(p, g)
    ensures var q, x := AfterC0(c, p, g, blank), Column(p, g);
            && (c in {10, 11, 12} ==> FeedsDown(p, q, g, blank) && (p.y + 1 < g.rows ==> q.x == x))
            && (c !in {10, 11, 12} ==> q.page == p.page && q.y == p.y)
            && (c == 8 ==> Column(q, g) == if x > 0 then x - 1 else 0)
            && (c == 9 ==> x <= q.x < g.cols && (q.x % 8 == 0 || q.x == g.cols - 1) && (q.x == x ==> x == g.cols - 1)
                           && forall z :: x < z < q.x ==> z % 8 != 0)
            && (c == 13 ==> q.x == 0)
            && (c !in {8, 9, 10, 11, 12, 13} ==> q == p)
  {
    hide LineFeed, FeedsDown;
    LineFeedMeans(p, g, Column(p, g), blank);
    NextTabIsNext(g.cols, Column(p, g));
  }

  // ----- the cursor

  /** Rows that a vertical movement may reach: the whole screen, or the region once positions count from it. */
  function Least(g: Geometry): nat {
    if g.origin then g.top else 0
  }

  function Height(g: Geometry): int {
    if g.origin then g.bottom - g.top else g.rows
  }

  /** b lies d to the right of a, or at the limit if that is nearer. */
  predicate Forward(a: int, b: int, d: int, limit: int) {
    b <= a + d && b <= limit && (b == a + d || b == limit)
  }

  /** b lies d to the left of a, or at the limit if that is nearer. */
  predicate Backward(a: int, b: int, d: int, limit: int) {
    b >= a - d && b >= limit && (b == a - d || b == limit)
  }

  /** b is the n-th place from base on, counted from 1 (a missing or zero n counts as 1), at most the size-th. */
  predicate Nth(b: int, n: nat, base: int, size: int) {
    base <= b < base + size && (1 <= n <= size ==> b == base + n - 1) && (n == 0 ==> b == base)
    && (n > size ==> b == base + size - 1)
  }

  lemma UpAndDown(g: Geometry, y: nat, n: nat)
    requires Proper(g) && y < g.rows
    ensures Backward(y, RowUp(g, y, n), n, Least(g))
    ensures Forward(y, RowDown(g, y, n), n, Least(g) + Height(g) - 1)
  {
  }

  lemma ToPlace(g: Geometry, n: nat)
    requires Proper(g)
    ensures Nth(RowTo(g, n), n, Least(g), Height(g)) && Nth(ColumnTo(g, n), n, 0, g.cols)
  {
  }

  lemma Sideways(g: Geometry, x: nat, n: nat)
    requires Proper(g) && x < g.cols
    ensures Forward(x, x + Min(n, g.cols - 1 - x), n, g.cols - 1) && Backward(x, x - Min(n, x), n, 0)
  {
  }

  /** From picture p to r the cursor moves as c with parameters n and q asks: CUU, CUD, CUF, CUB, CNL, CPL, CHA, VPA,
      CUP and their other names. */
  predicate Moves(c: char, p: Picture, r: Picture, g: Geometry, n: nat, q: nat)
    requires Proper(g)
  {
    var x, y := Column(p, g), p.y;
    r.page == p.page &&
    match c
    case 'A' => r.x == x && Backward(y, r.y, n, Least(g))
    case 'B' => r.x == x && Forward(y, r.y, n, Least(g) + Height(g) - 1)
    case 'e' => r.x == x && Forward(y, r.y, n, Least(g) + Height(g) - 1)
    case 'C' => Forward(x, r.x, n, g.cols - 1) && r.y == y
    case 'a' => Forward(x, r.x, n, g.cols - 1) && r.y == y
    case 'D' => Backward(x, r.x, n, 0) && r.y == y
    case 'E' => r.x == 0 && Forward(y, r.y, n, Least(g) + Height(g) - 1)
    case 'F' => r.x == 0 && Backward(y, r.y, n, Least(g))
    case 'G' => Nth(r.x, n, 0, g.cols) && r.y == y
    case '`' => Nth(r.x, n, 0, g.cols) && r.y == y
    case 'd' => r.x == x && Nth(r.y, n, Least(g), Height(g))
    case 'H' => Nth(r.y, n, Least(g), Height(g)) && Nth(r.x, q, 0, g.cols)
    case 'f' => Nth(r.y, n, Least(g), Height(g)) && Nth(r.x, q, 0, g.cols)
    case _ => false
  }

  lemma MoveMeans(c: char, p: Picture, g: Geometry, n: nat, q: nat, blank: Cell)
    requires Shows(p, g) && IsMove(c)
    ensures Moves(c, p, AfterControl(c, p, g, n, q, blank), g, n, q)
  {
    hide Moves, MoveTarget, IsMove;
    MoveTargetMeans(c, p, g, n, q);
  }

  lemma MoveTargetMeans(c: char, p: Picture, g: Geometry, n: nat, q: nat)
    requires Shows(p, g) && IsMove(c)
    ensures Moves(c, p, MoveTarget(c, p, g, n, q), g, n, q)
  {
    hide Forward, Backward, Nth, RowUp, RowDown, RowTo, ColumnTo, Height, IsMove;
    UpAndDown(g, p.y, n);
    ToPlace(g, n);
    ToPlace(g, q);
    Sideways(g, Column(p, g), n);
    MoveStaysOnScreen(c, g, Column(p, g), p.y, n, q);
    MoveLetters(c);
  }

  lemma MoveLetters(c: char)
    requires IsMove(c)
    ensures c in {'A', 'B', 'C', 'D', 'E', 'F', 'G', 'H', 'a', 'd', 'e', 'f', '`'}
  {
  }

  // ----- erasing

  /** Does the command erase cell (a, b) when the cursor is at (x, y)? */
  predicate Erases(c: char, n: nat, x: nat, y: nat, a: nat, b: nat) {
    match c
    case 'K' => a == y && (if n == 0 then b >= x else if n == 1 then b <= x else n == 2)
    case 'J' => if n == 0 then a > y || (a == y && b >= x)
                else if n == 1 then a < y || (a == y && b <= x)
                else n == 2 || n == 3
    case 'X' => a == y && x <= b < x + n
    case _ => false
  }

  lemma FillAt(v: seq<Cell>, from: nat, to: nat, blank: Cell, j: nat)
    requires from <= to <= |v| && j < |v|
    ensures Fill(v, from, to, blank)[j] == if from <= j < to then blank else v[j]
  {
  }

  /** Cells in reading order. */
  lemma CellOrder(cols: nat, rows: nat, a: nat, b: nat, x: nat, y: nat)
    requires a < rows && b < cols && x < cols && y < rows
    ensures a * cols + b < rows * cols && y * cols + cols <= rows * cols
    ensures a * cols + b < y * cols + x <==> a < y || (a == y && b < x)
    ensures a * cols + b < y * cols <==> a < y
    ensures a * cols + b < y * cols + cols <==> a <= y
    ensures a == y ==> a * cols == y * cols
  {
    RowFits(rows, cols, a);
    RowFits(rows, cols, y);
    RowPair(cols, a, y);
    RowPair(cols, y, a);
  }

  lemma LineErasedAt(v: seq<Cell>, cols: nat, rows: nat, x: nat, y: nat, n: nat, blank: Cell, a: nat, b: nat)
    requires |v| == rows * cols && x < cols && y < rows && a < rows && b < cols
    ensures OnPage(v, cols, x, y) && a * cols + b < |v|
    ensures LineErased(v, cols, x, y, n, blank)[a * cols + b] == if Erases('K', n, x, y, a, b) then blank
                                                                 else v[a * cols + b]
  {
    hide Fill;
    CellOrder(cols, rows, a, b, x, y);
    var j, row := a * cols + b, y * cols;
    if n == 0 {
      FillAt(v, row + x, row + cols, blank, j);
    } else if n == 1 {
      FillAt(v, row, row + x + 1, blank, j);
    } else if n == 2 {
      FillAt(v, row, row + cols, blank, j);
    }
  }

  lemma PageErasedAt(v: seq<Cell>, cols: nat, rows: nat, x: nat, y: nat, n: nat, blank: Cell, a: nat, b: nat)
    requires |v| == rows * cols && x < cols && y < rows && a < rows && b < cols
    ensures OnPage(v, cols, x, y) && a * cols + b < |v|
    ensures PageErased(v, cols, x, y, n, blank)[a * cols + b] == if Erases('J', n, x, y, a, b) then blank
                                                                 else v[a * cols + b]
  {
    hide Fill;
    CellOrder(cols, rows, a, b, x, y);
    var j, row := a * cols + b, y * cols;
    if n == 0 {
      FillAt(v, row + x, |v|, blank, j);
    } else if n == 1 {
      FillAt(v, 0, row + x + 1, blank, j);
    }
  }

  lemma ErasedAt(v: seq<Cell>, cols: nat, rows: nat, x: nat, y: nat, n: nat, blank: Cell, a: nat, b: nat)
    requires |v| == rows * cols && x < cols && y < rows && a < rows && b < cols
    ensures OnPage(v, cols, x, y) && a * cols + b < |v|
    ensures Erased(v, cols, x, y, n, blank)[a * cols + b] == if Erases('X', n, x, y, a, b) then blank
                                                             else v[a * cols + b]
  {
    hide Fill;
    CellOrder(cols, rows, a, b, x, y);
    FillAt(v, y * cols + x, y * cols + x + Min(n, cols - x), blank, a * cols + b);
  }

  /** EL, ED and ECH: exactly the cells that the command names become blank, and the cursor stays. */
  lemma EraseMeans(c: char, p: Picture, g: Geometry, n: nat, q: nat, blank: Cell, a: nat, b: nat)
    requires Shows(p, g) && c in "KJX" && a < g.rows && b < g.cols
    ensures var r, j := AfterControl(c, p, g, n, q, blank), a * g.cols + b;
            && r.y == p.y && Column(r, g) == Column(p, g)
            && j < |r.page| == |p.page|
            && r.page[j] == if Erases(c, n, Column(p, g), p.y, a, b) then blank else p.page[j]
  {
    hide Erased, PageErased, LineErased, Erases;
    match c
    case 'K' => LineErasedAt(p.page, g.cols, g.rows, Column(p, g), p.y, n, blank, a, b);
    case 'J' => PageErasedAt(p.page, g.cols, g.rows, Column(p, g), p.y, n, blank, a, b);
    case 'X' => ErasedAt(p.page, g.cols, g.rows, Column(p, g), p.y, n, blank, a, b);
  }

  // ----- scrolling, and lines and cells pushed in and taken out

  /** SU, SD, DL and IL: whole rows move, the cursor stays; DL and IL act from the cursor row on, inside the region. */
  lemma ScrollMeans(c: char, p: Picture, g: Geometry, n: nat, q: nat, blank: Cell)
    requires Shows(p, g)
    ensures var r, y := AfterControl(c, p, g, n, q, blank), p.y;
            && (c in "STML" ==> r.x == p.x && r.y == y)
            && (c == 'S' ==> RowsUp(p.page, r.page, g, g.top, Min(n, g.bottom - g.top), blank))
            && (c == 'T' ==> RowsDown(p.page, r.page, g, g.top, Min(n, g.bottom - g.top), blank))
            && (c in "ML" && !(g.top <= y < g.bottom) ==> r == p)
            && (c == 'M' && g.top <= y < g.bottom ==> RowsUp(p.page, r.page, g, y, Min(n, g.bottom - y), blank))
            && (c == 'L' && g.top <= y < g.bottom ==> RowsDown(p.page, r.page, g, y, Min(n, g.bottom - y), blank))
  {
    hide ScrollUp, ScrollDown, RowsUp, RowsDown;
    ShowsPage(p, g);
    ScrolledUp(p.page, g, g.top, Min(n, g.bottom - g.top), blank);
    ScrolledDown(p.page, g, g.top, Min(n, g.bottom - g.top), blank);
    if g.top <= p.y < g.bottom {
      ScrolledUp(p.page, g, p.y, Min(n, g.bottom - p.y), blank);
      ScrolledDown(p.page, g, p.y, Min(n, g.bottom - p.y), blank);
    }
  }

  lemma OtherSlice(v: seq<Cell>, row: nat, cols: nat, x: nat, m: nat, blank: Cell, p: nat)
    requires x + m <= cols && row + cols <= |v| && p + cols <= |v| && (p + cols <= row || p >= row + cols)
    ensures Slice(ShiftDown(v, row + x, row + cols, m, blank), p, cols) == Slice(v, p, cols)
    ensures Slice(ShiftUp(v, row + x, row + cols, m, blank), p, cols) == Slice(v, p, cols)
  {
    hide ShiftDown, ShiftUp, Slice;
    ShiftDownSlice(v, row + x, row + cols, m, blank, p, cols);
    ShiftUpSlice(v, row + x, row + cols, m, blank, p, cols);
  }

  lemma OtherRows(v: seq<Cell>, g: Geometry, x: nat, y: nat, m: nat, blank: Cell, a: nat)
    requires |v| == g.rows * g.cols && x + m <= g.cols && a < g.rows && y < g.rows && a != y
    requires y * g.cols + g.cols <= |v|
    ensures Row(ShiftDown(v, y * g.cols + x, y * g.cols + g.cols, m, blank), g.cols, a) == Row(v, g.cols, a)
    ensures Row(ShiftUp(v, y * g.cols + x, y * g.cols + g.cols, m, blank), g.cols, a) == Row(v, g.cols, a)
  {
    hide ShiftDown, ShiftUp, Slice;
    RowFits(g.rows, g.cols, a);
    RowPair(g.cols, a, y);
    RowPair(g.cols, y, a);
    OtherSlice(v, y * g.cols, g.cols, x, m, blank, a * g.cols);
  }

  /** ICH and DCH: the row of the cursor with cells pushed in or taken out there; all other rows and the cursor stay. */
  lemma ShiftMeans(c: char, p: Picture, g: Geometry, n: nat, q: nat, blank: Cell, a: nat)
    requires Shows(p, g) && (c == '@' || c == 'P') && a < g.rows
    ensures var r, x := AfterControl(c, p, g, n, q, blank), Column(p, g);
            && r.y == p.y && Column(r, g) == x
            && Row(r.page, g.cols, a)
               == if a != p.y then Row(p.page, g.cols, a)
                  else if c == '@' then PushedIn(Row(p.page, g.cols, a), x, Min(n, g.cols - x), blank)
                  else TakenOut(Row(p.page, g.cols, a), x, Min(n, g.cols - x), blank)
  {
    hide ShiftDown, ShiftUp, Row, PushedIn, TakenOut;
    var x := Column(p, g);
    ShowsPage(p, g);
    if a == p.y {
      InsertedLine(p.page, g.cols, x, p.y, n, blank);
      DeletedLine(p.page, g.cols, x, p.y, n, blank);
    } else {
      OtherRows(p.page, g, x, p.y, Min(n, g.cols - x), blank, a);
    }
  }

  // ----- margins

  /** DECSTBM: the lines given, counted from 1, when they make a region of at least two lines on the screen; a missing
      first line is the first, a missing last one the last; otherwise the whole screen. */
  lemma MarginsMean(rows: nat, n: nat, p: nat, q: nat)
    requires p > 0
    ensures var (top, bottom) := Margins(rows, n, p, q);
            var first, last := if n > 0 then p else 1, if n > 1 then q else rows;
            if first < last <= rows then top + 1 == first && bottom == last else top == 0 && bottom == rows
  {
  }
}
