/** Where the cursor and the margins go under the terminal's control functions, as arithmetic. */
module Controls {
  import opened Arithmetic
  import opened Cells
  import opened Pages
  import opened Typing
  import opened Edits

  /** Size of the screen, the scrolling region [top, bottom), and whether positions count from its top. */
  datatype Geometry = Geometry(cols: nat, rows: nat, top: nat, bottom: nat, origin: bool)

  predicate Proper(g: Geometry) {
    g.cols > 0 && g.top < g.bottom <= g.rows
  }

  /** Rows the cursor may be in while positions count from the region. */
  predicate InRegion(g: Geometry, y: int) {
    g.origin ==> g.top <= y < g.bottom
  }

  predicate IsMove(c: char) {
    c in "ABCDEFGHade`f"
  }

  /** A parameter that counts from 1. */
  function FromOne(p: nat): nat {
    if p != 0 then p - 1 else p
  }

  function RowUp(g: Geometry, y: nat, p: nat): int {
    var dest := y - Min(p, y);
    var least := if g.origin then g.top else 0;
    if dest < least then least else dest
  }

  function RowDown(g: Geometry, y: nat, p: nat): int
    requires y < g.rows
  {
    var dest := y + Min(p, g.rows - 1 - y);
    var limit := if g.origin then g.bottom else g.rows;
    if dest >= limit then limit - 1 else dest
  }

  function RowTo(g: Geometry, p: nat): int {
    var limit := if g.origin then g.bottom - g.top else g.rows;
    (if FromOne(p) >= limit then limit - 1 else FromOne(p)) + (if g.origin then g.top else 0)
  }

  function ColumnTo(g: Geometry, p: nat): int {
    if FromOne(p) >= g.cols then g.cols - 1 else FromOne(p)
  }

  /** Target of a cursor movement from (x, y) with parameters p and q. */
  function MovedTo(c: char, g: Geometry, x: nat, y: nat, p: nat, q: nat): (int, int)
    requires x < g.cols && y < g.rows
  {
    match c
    case 'A' => (x, RowUp(g, y, p))
    case 'F' => (0, RowUp(g, y, p))
    case 'B' => (x, RowDown(g, y, p))
    case 'e' => (x, RowDown(g, y, p))
    case 'E' => (0, RowDown(g, y, p))
    case 'C' => (x + Min(p, g.cols - 1 - x), y)
    case 'a' => (x + Min(p, g.cols - 1 - x), y)
    case 'D' => (x - Min(p, x), y)
    case 'd' => (x, RowTo(g, p))
    case 'G' => (ColumnTo(g, p), y)
    case '`' => (ColumnTo(g, p), y)
    case 'H' => (ColumnTo(g, q), RowTo(g, p))
    case 'f' => (ColumnTo(g, q), RowTo(g, p))
    case _ => (x, y)
  }

  /** Every movement stays on the screen, and in the region once positions count from it. */
  lemma MoveStaysInside(c: char, g: Geometry, x: nat, y: nat, p: nat, q: nat)
    requires Proper(g) && x < g.cols && y < g.rows && InRegion(g, y)
    ensures var (u, w) := MovedTo(c, g, x, y, p, q); 0 <= u < g.cols && 0 <= w < g.rows && InRegion(g, w)
  {
  }

  /** Moving up and down by the same amount returns to the row unless a limit stopped the first move. */
  lemma UpThenDown(g: Geometry, x: nat, y: nat, p: nat)
    requires Proper(g) && x < g.cols && y < g.rows && InRegion(g, y)
    ensures var up := MovedTo('A', g, x, y, p, 0).1;
            0 <= up && (MovedTo('B', g, x, up, p, 0) == (x, y)
                        <==> p <= y - (if g.origin then g.top else 0)
                             || (y == (if g.origin then g.bottom - 1 else g.rows - 1)))
  {
  }

  /** DECSTBM: the margins for n given parameters; impossible ones give the whole screen. */
  function Margins(rows: nat, n: nat, p: nat, q: nat): (nat, nat)
    requires p > 0
  {
    var top := if n > 0 then p - 1 else 0;
    var bottom := if n > 1 then q else rows;
    if top >= rows || bottom > rows || top >= bottom - 1 then (0, rows) else (top, bottom)
  }

  lemma MarginsAreProper(rows: nat, n: nat, p: nat, q: nat)
    requires rows > 0 && p > 0
    ensures var (top, bottom) := Margins(rows, n, p, q); top < bottom <= rows
    ensures n > 1 && p < q <= rows ==> Margins(rows, n, p, q) == (p - 1, q)
  {
  }

  /** The next tab stop. */
  function NextTab(cols: nat, x: nat): nat
    requires cols > 0
  {
    var stop := (x / 8 + 1) * 8;
    if stop >= cols then cols - 1 else stop
  }

  lemma NextTabIsNext(cols: nat, x: nat)
    requires x < cols
    ensures x <= NextTab(cols, x) < cols
    ensures NextTab(cols, x) == x <==> x == cols - 1
    ensures NextTab(cols, x) < cols - 1 ==> NextTab(cols, x) % 8 == 0
    ensures forall t :: x < t < NextTab(cols, x) ==> t % 8 != 0
  {
  }

  // ----- effect on the screen and the cursor

  predicate Shows(p: Picture, g: Geometry) {
    Proper(g) && |p.page| == g.rows * g.cols && p.x <= g.cols && p.y < g.rows
  }

  /** The column that the screen reports. */
  function Column(p: Picture, g: Geometry): nat
    requires Proper(g)
  {
    Min(p.x, g.cols - 1)
  }

  lemma ShowsPage(p: Picture, g: Geometry)
    requires Shows(p, g)
    ensures OnPage(p.page, g.cols, Column(p, g), p.y) && g.bottom * g.cols <= |p.page|
  {
    ProductOrder(p.y + 1, g.rows, g.cols);
    ProductOrder(g.bottom, g.rows, g.cols);
  }

  /** LF, IND, NEL: down one line, or scroll at the end of the region; the last row below the region is final. */
  function LineFeed(p: Picture, g: Geometry, x: nat, blank: Cell): Picture
    requires Shows(p, g)
  {
    ShowsPage(p, g);
    if p.y == g.bottom - 1 then Picture(ScrollUp(p.page, g.cols, g.top, g.bottom, 1, blank), x, p.y)
    else if p.y < g.rows - 1 then Picture(p.page, x, p.y + 1)
    else p
  }

  /** RI: up one line, or scroll back at the start of the region. */
  function ReverseLineFeed(p: Picture, g: Geometry, blank: Cell): Picture
    requires Shows(p, g)
  {
    ShowsPage(p, g);
    if p.y == g.top then Picture(ScrollDown(p.page, g.cols, g.top, g.bottom, 1, blank), Column(p, g), p.y)
    else if p.y > 0 then Picture(p.page, Column(p, g), p.y - 1)
    else p
  }

  /** The control characters below 0x20. */
  function AfterC0(c: int, p: Picture, g: Geometry, blank: Cell): Picture
    requires Shows(p, g)
  {
    if c == 8 then if Column(p, g) > 0 then p.(x := Column(p, g) - 1) else p
    else if c == 9 then p.(x := NextTab(g.cols, Column(p, g)))
    else if c == 10 || c == 11 || c == 12 then LineFeed(p, g, Column(p, g), blank)
    else if c == 13 then p.(x := 0)
    else p
  }

  /** The CSI functions, with parameters n and q, as far as they concern the screen and the cursor. */
  function AfterControl(c: char, p: Picture, g: Geometry, n: nat, q: nat, blank: Cell): Picture
    requires Shows(p, g)
  {
    ShowsPage(p, g);
    var x, y, v := Column(p, g), p.y, p.page;
    if IsMove(c) then
      MoveTarget(c, p, g, n, q)
    else if c == 'J'
      then (if n <= 1 then Picture(PageErased(v, g.cols, x, y, n, blank), x, y)
            else p.(page := PageErased(v, g.cols, x, y, n, blank)))
    else if c == 'K'
      then (if n <= 2 then Picture(LineErased(v, g.cols, x, y, n, blank), x, y)
            else p.(page := LineErased(v, g.cols, x, y, n, blank)))
    else if c == '@'
      then (if n > 0 then Picture(Inserted(v, g.cols, x, y, n, blank), x, y)
            else p.(page := Inserted(v, g.cols, x, y, n, blank)))
    else if c == 'P' then Picture(Deleted(v, g.cols, x, y, n, blank), x, y)
    else if c == 'X' then Picture(Erased(v, g.cols, x, y, n, blank), x, y)
    else if c == 'S' then p.(page := ScrollUp(v, g.cols, g.top, g.bottom, Min(n, g.bottom - g.top), blank))
    else if c == 'T' then p.(page := ScrollDown(v, g.cols, g.top, g.bottom, Min(n, g.bottom - g.top), blank))
    else if c == 'M' && g.top <= y < g.bottom
      then p.(page := ScrollUp(v, g.cols, y, g.bottom, Min(n, g.bottom - y), blank))
    else if c == 'L' && g.top <= y < g.bottom
      then p.(page := ScrollDown(v, g.cols, y, g.bottom, Min(n, g.bottom - y), blank))
    else p
  }

  /** Any other final byte leaves the picture alone; those with one parameter ignore the second. */
  lemma OtherControls(c: char, p: Picture, g: Geometry, n: nat, q: nat, blank: Cell)
    requires Shows(p, g)
    ensures !IsMove(c) && c !in "JK@PXSTML" ==> AfterControl(c, p, g, n, q, blank) == p
    ensures !IsMove(c) ==> AfterControl(c, p, g, n, q, blank) == AfterControl(c, p, g, n, 0, blank)
  {
  }

  function MoveTarget(c: char, p: Picture, g: Geometry, n: nat, q: nat): Picture
    requires Shows(p, g)
  {
    var (u, w) := MovedTo(c, g, Column(p, g), p.y, n, q);
    Picture(p.page, if u < 0 then 0 else u, if w < 0 then 0 else w)
  }

  /** No control function takes the cursor off the screen, or out of the region once positions count from it. */
  lemma ControlStays(c: char, p: Picture, g: Geometry, n: nat, q: nat, blank: Cell)
    requires Shows(p, g)
    ensures Shows(AfterControl(c, p, g, n, q, blank), g)
    ensures InRegion(g, p.y) ==> InRegion(g, AfterControl(c, p, g, n, q, blank).y)
  {
    hide Inserted, Deleted, Erased, PageErased, LineErased, ScrollUp, ScrollDown, MovedTo;
    MoveStaysOnScreen(c, g, Column(p, g), p.y, n, q);
    if InRegion(g, p.y) {
      MoveStaysInside(c, g, Column(p, g), p.y, n, q);
    }
  }

  lemma MoveStaysOnScreen(c: char, g: Geometry, x: nat, y: nat, p: nat, q: nat)
    requires Proper(g) && x < g.cols && y < g.rows
    ensures var (u, w) := MovedTo(c, g, x, y, p, q); 0 <= u < g.cols && 0 <= w < g.rows
  {
  }

  lemma LineFeedStays(p: Picture, g: Geometry, x: nat, blank: Cell)
    requires Shows(p, g) && x <= g.cols
    ensures Shows(LineFeed(p, g, x, blank), g) && Shows(ReverseLineFeed(p, g, blank), g)
    ensures InRegion(g, p.y) ==> InRegion(g, LineFeed(p, g, x, blank).y) && InRegion(g, ReverseLineFeed(p, g, blank).y)
  {
  }

  /** At column 0 a line feed either moves or leaves the cursor where it is. */
  lemma FeedColumn(p: Picture, g: Geometry, blank: Cell)
    requires Shows(p, g)
    ensures var q := LineFeed(p, g, 0, blank); p.y == g.rows - 1 || q.x == 0
  {
  }

  lemma C0Stays(c: int, p: Picture, g: Geometry, blank: Cell)
    requires Shows(p, g)
    ensures Shows(AfterC0(c, p, g, blank), g)
    ensures InRegion(g, p.y) ==> InRegion(g, AfterC0(c, p, g, blank).y)
  {
    LineFeedStays(p, g, Column(p, g), blank);
  }
}
