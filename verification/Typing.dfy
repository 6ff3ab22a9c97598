/** What putting characters at the cursor does to the visible screen. */
module Typing {
  import opened Arithmetic
  import opened Cells
  import opened Pages

  /** The visible screen and the cursor; column `cols` is the cursor past the end of a full row. */
  datatype Picture = Picture(page: seq<Cell>, x: nat, y: nat)

  /** Size, region and modes that printing depends on. */
  datatype Setup = Setup(cols: nat, rows: nat, top: nat, bottom: nat, wrap: bool, scrolling: bool)

  predicate Fits(p: Picture, s: Setup) {
    && s.cols > 0 && s.top < s.bottom <= s.rows && |p.page| == s.rows * s.cols
    && p.x <= s.cols && p.y < s.rows
  }

  /** Does the next character first move to the start of the next line? */
  predicate Wraps(p: Picture, s: Setup) {
    p.x >= s.cols && s.wrap && (p.y + 1 < s.bottom || s.scrolling)
  }

  /** Does it scroll the region? */
  predicate Scrolls(p: Picture, s: Setup) {
    Wraps(p, s) && p.y + 1 == s.bottom
  }

  function PutX(p: Picture, s: Setup): int {
    if p.x < s.cols then p.x else if Wraps(p, s) then 0 else s.cols - 1
  }

  function PutY(p: Picture, s: Setup): int {
    if !Wraps(p, s) || p.y + 1 == s.bottom then p.y
    else if p.y + 1 >= s.rows then s.rows - 1
    else p.y + 1
  }

  lemma RegionFits(cols: nat, bottom: nat, rows: nat)
    requires bottom <= rows
    ensures bottom * cols <= rows * cols
  {
    ProductOrder(bottom, rows, cols);
  }

  /** raw_putchar. */
  function Typed(p: Picture, s: Setup, ink: Cell, blank: Cell): Picture
    requires Fits(p, s)
  {
    RegionFits(s.cols, s.bottom, s.rows);
    var page := if Scrolls(p, s) then ScrollUp(p.page, s.cols, s.top, s.bottom, 1, blank) else p.page;
    Picture(Set(page, PutY(p, s) * s.cols + PutX(p, s), ink), PutX(p, s) + 1, PutY(p, s))
  }

  /** A character never leaves the screen, nor the region once the cursor is in it. */
  lemma TypedStays(p: Picture, s: Setup, ink: Cell, blank: Cell)
    requires Fits(p, s)
    ensures Fits(Typed(p, s, ink, blank), s)
    ensures s.top <= p.y < s.bottom ==> s.top <= Typed(p, s, ink, blank).y < s.bottom
  {
  }

  function TypedAll(p: Picture, s: Setup, inks: seq<Cell>, blank: Cell): Picture
    requires Fits(p, s)
    decreases |inks|
  {
    if inks == [] then p
    else
      TypedStays(p, s, inks[0], blank);
      TypedAll(Typed(p, s, inks[0], blank), s, inks[1..], blank)
  }

  lemma LineFits(p: Picture, s: Setup)
    requires Fits(p, s)
    ensures p.y * s.cols + s.cols <= |p.page|
  {
    ProductOrder(p.y + 1, s.rows, s.cols);
  }

  lemma TypedInRow(p: Picture, s: Setup, ink: Cell, blank: Cell)
    requires Fits(p, s) && p.x < s.cols
    ensures p.y * s.cols + p.x < |p.page|
    ensures Typed(p, s, ink, blank) == Picture(p.page[p.y * s.cols + p.x := ink], p.x + 1, p.y)
  {
    LineFits(p, s);
  }

  /** A text that fits in the rest of the row appears there cell by cell and changes nothing else. */
  lemma {:induction false} TextInRow(p: Picture, s: Setup, inks: seq<Cell>, blank: Cell)
    requires Fits(p, s) && p.x + |inks| <= s.cols
    ensures p.y * s.cols + s.cols <= |p.page|
    ensures var at := p.y * s.cols + p.x;
            TypedAll(p, s, inks, blank) == Picture(p.page[..at] + inks + p.page[at + |inks|..], p.x + |inks|, p.y)
    decreases |inks|
  {
    hide Typed;
    LineFits(p, s);
    var at := p.y * s.cols + p.x;
    if inks == [] {
      assert p.page[..at] + inks + p.page[at..] == p.page;
    } else {
      TypedInRow(p, s, inks[0], blank);
      var q := Typed(p, s, inks[0], blank);
      TextInRow(q, s, inks[1..], blank);
      Spliced(p.page, at, inks);
    }
  }

  lemma Spliced(v: seq<Cell>, at: nat, inks: seq<Cell>)
    requires inks != [] && at + |inks| <= |v|
    ensures v[at := inks[0]][..at + 1] + inks[1..] + v[at := inks[0]][at + |inks|..]
              == v[..at] + inks + v[at + |inks|..]
  {
  }

  /** At the end of the last line of the region, the next character scrolls the region and starts its last line. */
  lemma TextScrolls(p: Picture, s: Setup, ink: Cell, blank: Cell)
    requires Fits(p, s) && p.x == s.cols && p.y == s.bottom - 1 && s.wrap && s.scrolling
    ensures s.bottom * s.cols <= |p.page| && (s.bottom - 1) * s.cols < |p.page|
    ensures Typed(p, s, ink, blank) ==
            Picture(ScrollUp(p.page, s.cols, s.top, s.bottom, 1, blank)[(s.bottom - 1) * s.cols := ink], 1,
                    s.bottom - 1)
  {
    ProductOrder(s.bottom, s.rows, s.cols);
    assert (s.bottom - 1) * s.cols + s.cols == s.bottom * s.cols;
  }

  /** Past the end of any other line it starts the next one, on the last row of the screen that row; when nothing wraps,
      or the region may not scroll, it overwrites the last column. */
  lemma TextGoesOn(p: Picture, s: Setup, ink: Cell, blank: Cell)
    requires Fits(p, s) && p.x == s.cols
    ensures p.y * s.cols + s.cols <= |p.page|
    ensures !s.wrap || (!s.scrolling && p.y + 1 >= s.bottom) ==>
              Typed(p, s, ink, blank) == Picture(p.page[p.y * s.cols + (s.cols - 1) := ink], s.cols, p.y)
    ensures s.wrap && (s.scrolling || p.y + 1 < s.bottom) && p.y + 1 != s.bottom && p.y + 1 < s.rows ==>
              && (p.y + 1) * s.cols < |p.page|
              && Typed(p, s, ink, blank) == Picture(p.page[(p.y + 1) * s.cols := ink], 1, p.y + 1)
    ensures s.wrap && s.scrolling && p.y + 1 != s.bottom && p.y + 1 == s.rows ==>
              Typed(p, s, ink, blank) == Picture(p.page[p.y * s.cols := ink], 1, p.y)
  {
    LineFits(p, s);
    if p.y + 1 < s.rows {
      ProductOrder(p.y + 2, s.rows, s.cols);
      assert (p.y + 2) * s.cols == (p.y + 1) * s.cols + s.cols == p.y * s.cols + s.cols + s.cols;
    }
  }

  /** Wherever it goes, the character stands left of the cursor afterwards. */
  lemma TypedIsShown(p: Picture, s: Setup, ink: Cell, blank: Cell)
    requires Fits(p, s)
    ensures var r := Typed(p, s, ink, blank);
            r.x >= 1 && r.y * s.cols + r.x <= |r.page| && r.page[r.y * s.cols + r.x - 1] == ink
  {
    var r := Typed(p, s, ink, blank);
    TypedStays(p, s, ink, blank);
    LineFits(r, s);
  }
}
