/** Facts about natural numbers that several modules need. */
module Arithmetic {

  function Min(a: nat, b: nat): (m: nat)
    ensures m <= a && m <= b && (m == a || m == b)
  {
    if a > b then b else a
  }

  lemma ProductOrder(a: nat, b: nat, c: nat)
    requires a <= b
    ensures a * c <= b * c
  {
  }

  /** The row of a cell among `rows` rows of `cols` cells, and the like. */
  lemma QuotientBelow(i: nat, cols: nat, rows: nat)
    requires cols > 0 && i < rows * cols
    ensures i / cols < rows
  {
    var q := i / cols;
    assert q * cols <= i;
    if q >= rows {
      ProductOrder(rows, q, cols);
      assert false;
    }
  }
}
