/** The visible screen as one row-major sequence of cells, and the edits the terminal makes to it. */
module Pages {
  import opened Arithmetic
  import opened Cells

  /** One cell replaced; positions off the screen are ignored. */
  function Set(v: seq<Cell>, i: int, c: Cell): (r: seq<Cell>)
    ensures |r| == |v|
  {
    if 0 <= i < |v| then v[i := c] else v
  }

  function Blanks(n: nat, blank: Cell): (s: seq<Cell>)
    ensures |s| == n
  {
    seq(n, _ => blank)
  }

  /** Cells [from, to) replaced by blanks. */
  function Fill(v: seq<Cell>, from: nat, to: nat, blank: Cell): (r: seq<Cell>)
    requires from <= to <= |v|
    ensures |r| == |v|
  {
    v[..from] + Blanks(to - from, blank) + v[to..]
  }

  /** Cells [a, e) moved up by w; the last w of them become blanks. */
  function ShiftUp(v: seq<Cell>, a: nat, e: nat, w: nat, blank: Cell): (r: seq<Cell>)
    requires a + w <= e <= |v|
    ensures |r| == |v|
  {
    v[..a] + v[a + w..e] + Blanks(w, blank) + v[e..]
  }

  /** Cells [a, e) moved down by w; the first w of them become blanks. */
  function ShiftDown(v: seq<Cell>, a: nat, e: nat, w: nat, blank: Cell): (r: seq<Cell>)
    requires a + w <= e <= |v|
    ensures |r| == |v|
  {
    v[..a] + Blanks(w, blank) + v[a..e - w] + v[e..]
  }

  lemma FillStep(v: seq<Cell>, from: nat, i: nat, blank: Cell)
    requires from <= i < |v|
    ensures Fill(v, from, i, blank)[i := blank] == Fill(v, from, i + 1, blank)
  {
  }

  lemma FillNothing(v: seq<Cell>, from: nat, blank: Cell)
    requires from <= |v|
    ensures Fill(v, from, from, blank) == v
  {
  }

  lemma FillAll(v: seq<Cell>, blank: Cell)
    ensures Fill(v, 0, |v|, blank) == Blanks(|v|, blank)
  {
  }

  /** Halfway through an upward copy: cells [a + w, i) have been copied down by w positions. */
  function CopiedUp(v: seq<Cell>, a: nat, w: nat, i: nat): (r: seq<Cell>)
    requires a + w <= i <= |v|
    ensures |r| == |v|
  {
    v[..a] + v[a + w..i] + v[i - w..]
  }

  lemma CopyUpStep(v: seq<Cell>, a: nat, w: nat, i: nat)
    requires a + w <= i < |v| && w > 0
    ensures CopiedUp(v, a, w, i)[i - w := CopiedUp(v, a, w, i)[i]] == CopiedUp(v, a, w, i + 1)
  {
    assert CopiedUp(v, a, w, i)[i] == v[i];
  }

  lemma CopyUpDone(v: seq<Cell>, a: nat, e: nat, w: nat, blank: Cell)
    requires a + w <= e <= |v|
    ensures CopiedUp(v, a, w, a + w) == v
    ensures Fill(CopiedUp(v, a, w, e), e - w, e, blank) == ShiftUp(v, a, e, w, blank)
  {
  }

  /** Halfway through a downward copy: cells [i, e - w) have been copied up by w positions. */
  function CopiedDown(v: seq<Cell>, e: nat, w: nat, i: nat): (r: seq<Cell>)
    requires i + w <= e <= |v|
    ensures |r| == |v|
  {
    v[..i + w] + v[i..e - w] + v[e..]
  }

  lemma CopyDownStep(v: seq<Cell>, e: nat, w: nat, i: nat)
    requires 0 < i && i + w <= e <= |v| && w > 0
    ensures CopiedDown(v, e, w, i)[i - 1 + w := CopiedDown(v, e, w, i)[i - 1]] == CopiedDown(v, e, w, i - 1)
  {
    assert CopiedDown(v, e, w, i)[i - 1] == v[i - 1];
  }

  lemma CopyDownDone(v: seq<Cell>, a: nat, e: nat, w: nat, blank: Cell)
    requires a + w <= e <= |v|
    ensures CopiedDown(v, e, w, e - w) == v
    ensures Fill(CopiedDown(v, e, w, a), a, a + w, blank) == ShiftDown(v, a, e, w, blank)
  {
  }

  // ----- several scrolls are one longer scroll

  lemma ShiftUpMore(v: seq<Cell>, a: nat, e: nat, w: nat, m: nat, blank: Cell)
    requires a + m + w <= e <= |v|
    ensures ShiftUp(ShiftUp(v, a, e, m, blank), a, e, w, blank) == ShiftUp(v, a, e, m + w, blank)
  {
  }

  lemma ShiftDownMore(v: seq<Cell>, a: nat, e: nat, w: nat, m: nat, blank: Cell)
    requires a + m + w <= e <= |v|
    ensures ShiftDown(ShiftDown(v, a, e, m, blank), a, e, w, blank) == ShiftDown(v, a, e, m + w, blank)
  {
    assert ShiftDown(v, a, e, m, blank)[a..e - w] == Blanks(m, blank) + v[a..e - m - w];
    assert Blanks(w, blank) + Blanks(m, blank) == Blanks(m + w, blank);
  }

  lemma ShiftNothing(v: seq<Cell>, a: nat, e: nat, blank: Cell)
    requires a <= e <= |v|
    ensures ShiftUp(v, a, e, 0, blank) == v && ShiftDown(v, a, e, 0, blank) == v
  {
  }

  // ----- whole rows

  lemma RowBounds(cols: nat, top: nat, n: nat, bottom: nat)
    requires top + n <= bottom
    ensures top * cols + n * cols <= bottom * cols
  {
    ProductOrder(top + n, bottom, cols);
  }

  /** Rows [top, bottom) moved up by n rows. */
  function ScrollUp(v: seq<Cell>, cols: nat, top: nat, bottom: nat, n: nat, blank: Cell): (r: seq<Cell>)
    requires top + n <= bottom && bottom * cols <= |v|
    ensures |r| == |v|
  {
    RowBounds(cols, top, n, bottom);
    ShiftUp(v, top * cols, bottom * cols, n * cols, blank)
  }

  /** Rows [top, bottom) moved down by n rows. */
  function ScrollDown(v: seq<Cell>, cols: nat, top: nat, bottom: nat, n: nat, blank: Cell): (r: seq<Cell>)
    requires top + n <= bottom && bottom * cols <= |v|
    ensures |r| == |v|
  {
    RowBounds(cols, top, n, bottom);
    ShiftDown(v, top * cols, bottom * cols, n * cols, blank)
  }

  /** One more scroll by a row is one longer scroll. */
  lemma ScrollMore(v: seq<Cell>, cols: nat, top: nat, bottom: nat, n: nat, blank: Cell)
    requires top + n + 1 <= bottom && bottom * cols <= |v|
    ensures ScrollUp(ScrollUp(v, cols, top, bottom, n, blank), cols, top, bottom, 1, blank)
              == ScrollUp(v, cols, top, bottom, n + 1, blank)
    ensures ScrollDown(ScrollDown(v, cols, top, bottom, n, blank), cols, top, bottom, 1, blank)
              == ScrollDown(v, cols, top, bottom, n + 1, blank)
  {
    RowBounds(cols, top, n, bottom);
    RowBounds(cols, top, n + 1, bottom);
    assert (n + 1) * cols == n * cols + 1 * cols;
    ShiftUpMore(v, top * cols, bottom * cols, 1 * cols, n * cols, blank);
    ShiftDownMore(v, top * cols, bottom * cols, 1 * cols, n * cols, blank);
  }

  lemma ScrollNothing(v: seq<Cell>, cols: nat, top: nat, bottom: nat, blank: Cell)
    requires top <= bottom && bottom * cols <= |v|
    ensures ScrollUp(v, cols, top, bottom, 0, blank) == v && ScrollDown(v, cols, top, bottom, 0, blank) == v
  {
    RowBounds(cols, top, 0, bottom);
    assert 0 * cols == 0;
    ShiftNothing(v, top * cols, bottom * cols, blank);
  }

  /** The k cells from p on; none if there are not so many. */
  function Slice(v: seq<Cell>, p: int, k: nat): (r: seq<Cell>)
    ensures |r| == if 0 <= p && p + k <= |v| then k else 0
  {
    if 0 <= p && p + k <= |v| then v[p..p + k] else []
  }

  function Row(v: seq<Cell>, cols: nat, y: nat): seq<Cell> {
    Slice(v, y * cols, cols)
  }

  lemma SliceIs(v: seq<Cell>, p: nat, k: nat, w: seq<Cell>, q: nat)
    requires p + k <= |v| && q + k <= |w| && forall j :: p <= j < p + k ==> v[j] == w[q + (j - p)]
    ensures Slice(v, p, k) == Slice(w, q, k)
  {
    forall i | 0 <= i < k ensures Slice(v, p, k)[i] == Slice(w, q, k)[i] {
      assert v[p + i] == w[q + (p + i - p)];
    }
  }

  lemma ShiftUpSlice(v: seq<Cell>, a: nat, e: nat, w: nat, blank: Cell, p: nat, k: nat)
    requires a + w <= e <= |v| && p + k <= |v|
    ensures p + k <= a || p >= e ==> Slice(ShiftUp(v, a, e, w, blank), p, k) == Slice(v, p, k)
    ensures a <= p && p + k + w <= e ==> Slice(ShiftUp(v, a, e, w, blank), p, k) == Slice(v, p + w, k)
    ensures a <= p && e <= p + w && p + k <= e ==> Slice(ShiftUp(v, a, e, w, blank), p, k) == Blanks(k, blank)
  {
    if p + k <= a || p >= e {
      SliceIs(ShiftUp(v, a, e, w, blank), p, k, v, p);
    } else if a <= p && p + k + w <= e {
      SliceIs(ShiftUp(v, a, e, w, blank), p, k, v, p + w);
    } else if a <= p && e <= p + w && p + k <= e {
      SliceIs(ShiftUp(v, a, e, w, blank), p, k, Blanks(k, blank), 0);
    }
  }

  lemma ShiftDownSlice(v: seq<Cell>, a: nat, e: nat, w: nat, blank: Cell, p: nat, k: nat)
    requires a + w <= e <= |v| && p + k <= |v|
    ensures p + k <= a || p >= e ==> Slice(ShiftDown(v, a, e, w, blank), p, k) == Slice(v, p, k)
    ensures a + w <= p && p + k <= e ==> Slice(ShiftDown(v, a, e, w, blank), p, k) == Slice(v, p - w, k)
    ensures a <= p && p + k <= a + w ==> Slice(ShiftDown(v, a, e, w, blank), p, k) == Blanks(k, blank)
  {
    if p + k <= a || p >= e {
      SliceIs(ShiftDown(v, a, e, w, blank), p, k, v, p);
    } else if a + w <= p && p + k <= e {
      SliceIs(ShiftDown(v, a, e, w, blank), p, k, v, p - w);
    } else if a <= p && p + k <= a + w {
      SliceIs(ShiftDown(v, a, e, w, blank), p, k, Blanks(k, blank), 0);
    }
  }

  /** Rows in order start in order. */
  lemma RowOrder(cols: nat, top: nat, n: nat, bottom: nat, y: nat)
    ensures (y + n) * cols == y * cols + n * cols
    ensures y < top ==> y * cols + cols <= top * cols
    ensures y >= top ==> y * cols >= top * cols
    ensures y < top + n ==> y * cols + cols <= top * cols + n * cols
    ensures if y < bottom then y * cols + cols <= bottom * cols else y * cols >= bottom * cols
    ensures if y + n < bottom then y * cols + n * cols + cols <= bottom * cols else y * cols + n * cols >= bottom * cols
  {
    Distribute(y, n, cols);
    Distribute(top, n, cols);
    RowPair(cols, y, top);
    RowPair(cols, y, top + n);
    RowPair(cols, y, bottom);
    RowPair(cols, y + n, bottom);
  }

  lemma Distribute(a: nat, b: nat, c: nat)
    ensures (a + b) * c == a * c + b * c
  {
  }

  lemma RowPair(cols: nat, y: nat, z: nat)
    ensures if y < z then y * cols + cols <= z * cols else y * cols >= z * cols
  {
    if y < z {
      ProductOrder(y + 1, z, cols);
      Distribute(y, 1, cols);
    } else {
      ProductOrder(z, y, cols);
    }
  }

  /** After an upward scroll by n rows, row y of the region shows what row y + n showed, and the last n rows are
      blank. */
  lemma ScrollUpRow(v: seq<Cell>, cols: nat, top: nat, bottom: nat, n: nat, blank: Cell, y: nat)
    requires top + n <= bottom && bottom * cols <= |v| && y * cols + cols <= |v|
    ensures Row(ScrollUp(v, cols, top, bottom, n, blank), cols, y) ==
            if y < top || y >= bottom then Row(v, cols, y)
            else if y + n < bottom then Row(v, cols, y + n)
            else Blanks(cols, blank)
  {
    hide ShiftUp, Slice, Blanks;
    RowBounds(cols, top, n, bottom);
    RowOrder(cols, top, n, bottom, y);
    ShiftUpSlice(v, top * cols, bottom * cols, n * cols, blank, y * cols, cols);
  }

  /** After a downward scroll by n rows, row y + n of the region shows what row y showed, and the first n rows are
      blank. */
  lemma ScrollDownRow(v: seq<Cell>, cols: nat, top: nat, bottom: nat, n: nat, blank: Cell, y: nat)
    requires top + n <= bottom && bottom * cols <= |v| && y * cols + cols <= |v|
    ensures y < top || y >= bottom ==> Row(ScrollDown(v, cols, top, bottom, n, blank), cols, y) == Row(v, cols, y)
    ensures top <= y < top + n ==> Row(ScrollDown(v, cols, top, bottom, n, blank), cols, y) == Blanks(cols, blank)
    ensures top <= y && y + n < bottom ==>
              Row(ScrollDown(v, cols, top, bottom, n, blank), cols, y + n) == Row(v, cols, y)
  {
    hide ShiftDown, Slice, Blanks;
    RowBounds(cols, top, n, bottom);
    RowOrder(cols, top, n, bottom, y);
    ShiftDownSlice(v, top * cols, bottom * cols, n * cols, blank, y * cols, cols);
    if y + n < bottom {
      ShiftDownSlice(v, top * cols, bottom * cols, n * cols, blank, y * cols + n * cols, cols);
    }
  }
}
