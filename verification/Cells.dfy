/**
 The write-combining cache of the framebuffer terminal (fb.c) on values: `grid` is what was last drawn,
 `queue` holds pending cells, and `map` tells for each cell which queue slot overrides it.
 */
module Cells {
  import opened Arithmetic

  /** Character, foreground and background of a cell; colours are opaque numbers. */
  datatype Cell = Cell(c: nat, fg: nat, bg: nat)

  datatype Item = Item(x: nat, y: nat, c: Cell)

  /** The null entry of `map`. */
  const NONE: int := -1

  datatype Cache = Cache(grid: seq<Cell>, queue: seq<Item>, slots: seq<int>, used: nat)

  // ----- cell indices

  function Offset(cols: nat, x: nat, y: nat): nat {
    y * cols + x
  }

  lemma OffsetInRange(cols: nat, rows: nat, x: nat, y: nat)
    requires x < cols && y < rows
    ensures Offset(cols, x, y) < rows * cols
  {
    assert (y + 1) * cols <= rows * cols;
  }

  lemma OffsetParts(cols: nat, rows: nat, i: nat)
    requires cols > 0 && i < rows * cols
    ensures i % cols < cols && i / cols < rows && Offset(cols, i % cols, i / cols) == i
  {
    QuotientBelow(i, cols, rows);
  }

  lemma OffsetInjective(cols: nat, x: nat, y: nat, u: nat, v: nat)
    requires x < cols && u < cols && Offset(cols, x, y) == Offset(cols, u, v)
    ensures x == u && y == v
  {
    if y < v {
      ProductOrder(y + 1, v, cols);
    } else if v < y {
      ProductOrder(v + 1, y, cols);
    }
  }

  // ----- the visible screen

  function CellAt(s: Cache, i: nat): Cell
    requires i < |s.grid| && i < |s.slots| && s.slots[i] < |s.queue|
  {
    if s.slots[i] >= 0 then s.queue[s.slots[i]].c else s.grid[i]
  }

  predicate Shape(s: Cache, n: nat) {
    && |s.grid| == |s.queue| == |s.slots| == n && s.used <= n
    && forall i :: 0 <= i < n ==> NONE <= s.slots[i] < s.used
  }

  function View(s: Cache, n: nat): (v: seq<Cell>)
    requires Shape(s, n)
    ensures |v| == n
  {
    seq(n, i requires 0 <= i < n => CellAt(s, i))
  }

  /** Slot k is live: its item lies on the screen and the map leads from its cell back to it. */
  predicate SlotLive(s: Cache, cols: nat, rows: nat, k: nat)
    requires k < |s.queue|
  {
    && s.queue[k].x < cols && s.queue[k].y < rows
    && Offset(cols, s.queue[k].x, s.queue[k].y) < |s.slots|
    && s.slots[Offset(cols, s.queue[k].x, s.queue[k].y)] == k
  }

  /** Every used slot is live, and every overridden cell is the cell of its slot: the two are in bijection. */
  ghost predicate CacheInv(s: Cache, cols: nat, rows: nat) {
    && Shape(s, rows * cols)
    && (forall k: nat :: k < s.used ==> SlotLive(s, cols, rows, k))
    && (forall i ::
          0 <= i < |s.slots| && s.slots[i] >= 0 ==> Offset(cols, s.queue[s.slots[i]].x, s.queue[s.slots[i]].y) == i)
  }

  /** push_to_queue. */
  function Push(s: Cache, cols: nat, rows: nat, c: Cell, x: nat, y: nat): Cache
    requires Shape(s, rows * cols)
  {
    if x >= cols || y >= rows || Offset(cols, x, y) >= |s.slots| then s
    else
      var i := Offset(cols, x, y);
      if s.slots[i] >= 0 then s.(queue := s.queue[s.slots[i] := s.queue[s.slots[i]].(c := c)])
      else if s.grid[i] == c then s
      else if s.used == rows * cols then s
      else s.(queue := s.queue[s.used := Item(x, y, c)], slots := s.slots[i := s.used], used := s.used + 1)
  }

  // ----- the queue never fills up

  function Below(n: nat): (s: set<nat>)
    ensures |s| == n && forall i: nat :: i in s <==> i < n
  {
    if n == 0 then {} else Below(n - 1) + {n - 1}
  }

  function Elements(s: seq<nat>): set<nat> {
    set i | 0 <= i < |s| :: s[i]
  }

  lemma {:induction false} DistinctSize(s: seq<nat>)
    requires forall j, k :: 0 <= j < k < |s| ==> s[j] != s[k]
    ensures |Elements(s)| == |s|
  {
    if s != [] {
      var front := s[..|s| - 1];
      DistinctSize(front);
      assert Elements(s) == Elements(front) + {s[|s| - 1]};
    }
  }

  lemma SubsetSize(a: set<nat>, b: set<nat>)
    requires a <= b
    ensures |a| <= |b|
    decreases |b|
  {
    if a != {} {
      var x :| x in a;
      SubsetSize(a - {x}, b - {x});
    }
  }

  /** Distinct numbers below n that leave one out are fewer than n. */
  lemma Pigeonhole(s: seq<nat>, n: nat, i: nat)
    requires forall j, k :: 0 <= j < k < |s| ==> s[j] != s[k]
    requires forall j :: 0 <= j < |s| ==> s[j] < n && s[j] != i
    requires i < n
    ensures |s| < n
  {
    DistinctSize(s);
    SubsetSize(Elements(s), Below(n) - {i});
    assert |Below(n) - {i}| == n - 1;
  }

  function SlotOffsets(s: Cache, cols: nat): seq<nat>
    requires s.used <= |s.queue|
  {
    seq(s.used, k requires 0 <= k < s.used => Offset(cols, s.queue[k].x, s.queue[k].y))
  }

  /** A cell without a slot leaves a slot free: the branch that drops a write is never taken. */
  lemma QueueHasRoom(s: Cache, cols: nat, rows: nat, i: nat)
    requires CacheInv(s, cols, rows) && i < rows * cols && s.slots[i] == NONE
    ensures s.used < rows * cols
  {
    hide Offset;
    var offsets := SlotOffsets(s, cols);
    forall j, k | 0 <= j < k < |offsets| ensures offsets[j] != offsets[k] {
      assert SlotLive(s, cols, rows, j) && SlotLive(s, cols, rows, k);
    }
    forall j: nat | j < |offsets| ensures offsets[j] < rows * cols && offsets[j] != i {
      assert SlotLive(s, cols, rows, j);
    }
    Pigeonhole(offsets, rows * cols, i);
  }

  lemma PushKeepsInv(s: Cache, cols: nat, rows: nat, c: Cell, x: nat, y: nat)
    requires CacheInv(s, cols, rows)
    ensures CacheInv(Push(s, cols, rows, c, x, y), cols, rows)
  {
    hide Offset;
    if x < cols && y < rows {
      OffsetInRange(cols, rows, x, y);
      var i, t := Offset(cols, x, y), Push(s, cols, rows, c, x, y);
      if s.slots[i] == NONE {
        QueueHasRoom(s, cols, rows, i);
      }
      forall k: nat | k < t.used ensures SlotLive(t, cols, rows, k) {
        if k < s.used {
          assert SlotLive(s, cols, rows, k);
        }
      }
    }
  }

  /** push_to_queue sets exactly the addressed visible cell, in every state the cache can be in. */
  lemma PushView(s: Cache, cols: nat, rows: nat, c: Cell, x: nat, y: nat)
    requires CacheInv(s, cols, rows)
    ensures Shape(Push(s, cols, rows, c, x, y), rows * cols)
    ensures x < cols && y < rows ==> Offset(cols, x, y) < rows * cols
    ensures View(Push(s, cols, rows, c, x, y), rows * cols) ==
            if x < cols && y < rows then View(s, rows * cols)[Offset(cols, x, y) := c] else View(s, rows * cols)
  {
    hide Offset;
    PushKeepsInv(s, cols, rows, c, x, y);
    if x < cols && y < rows {
      OffsetInRange(cols, rows, x, y);
      var i, t := Offset(cols, x, y), Push(s, cols, rows, c, x, y);
      if s.slots[i] == NONE {
        QueueHasRoom(s, cols, rows, i);
      }
      forall j | 0 <= j < rows * cols ensures CellAt(t, j) == if j == i then c else CellAt(s, j) {
      }
    }
  }

  // ----- flushing the queue

  /** Slot k lies on the screen and its cell, if still pending, is pending under k. */
  predicate SlotSettling(s: Cache, cols: nat, rows: nat, k: nat)
    requires k < |s.queue|
  {
    && s.queue[k].x < cols && s.queue[k].y < rows
    && Offset(cols, s.queue[k].x, s.queue[k].y) < |s.slots|
    && (s.slots[Offset(cols, s.queue[k].x, s.queue[k].y)] == k
        || s.slots[Offset(cols, s.queue[k].x, s.queue[k].y)] == NONE)
  }

  /** Halfway through a flush: the first `done` slots are settled, the later ones are still in bijection with their
      cells. */
  ghost predicate Settling(s: Cache, cols: nat, rows: nat, done: nat) {
    && Shape(s, rows * cols)
    && (forall k: nat :: k < s.used ==> SlotSettling(s, cols, rows, k))
    && (forall i :: 0 <= i < |s.slots| && s.slots[i] >= 0 ==>
          s.slots[i] >= done && Offset(cols, s.queue[s.slots[i]].x, s.queue[s.slots[i]].y) == i)
  }

  /** One round of the flush loop: a pending item is written to the grid. */
  function Settle(s: Cache, cols: nat, k: nat): Cache
    requires k < |s.queue| && |s.grid| == |s.slots|
  {
    var i := Offset(cols, s.queue[k].x, s.queue[k].y);
    if i >= |s.slots| || s.slots[i] == NONE then s
    else s.(grid := s.grid[i := s.queue[k].c], slots := s.slots[i := NONE])
  }

  lemma SettlingStarts(s: Cache, cols: nat, rows: nat)
    requires CacheInv(s, cols, rows)
    ensures Settling(s, cols, rows, 0)
  {
    hide Offset;
    forall k: nat | k < s.used ensures SlotSettling(s, cols, rows, k) {
      assert SlotLive(s, cols, rows, k);
    }
  }

  /** Settling one cell on its own, as the cursor does. */
  lemma SettleCell(s: Cache, cols: nat, rows: nat, i: nat)
    requires Settling(s, cols, rows, 0) && i < rows * cols
    ensures Settling(s.(grid := s.grid[i := View(s, rows * cols)[i]], slots := s.slots[i := NONE]), cols, rows, 0)
  {
    hide Offset;
    var t := s.(grid := s.grid[i := View(s, rows * cols)[i]], slots := s.slots[i := NONE]);
    forall k: nat | k < t.used ensures SlotSettling(t, cols, rows, k) {
      assert SlotSettling(s, cols, rows, k);
    }
  }

  lemma SettleStep(s: Cache, cols: nat, rows: nat, k: nat)
    requires Settling(s, cols, rows, k) && k < s.used
    ensures Settling(Settle(s, cols, k), cols, rows, k + 1)
    ensures View(Settle(s, cols, k), rows * cols) == View(s, rows * cols)
  {
    hide Offset;
    assert SlotSettling(s, cols, rows, k);
    var t := Settle(s, cols, k);
    forall j: nat | j < t.used ensures SlotSettling(t, cols, rows, j) {
      assert SlotSettling(s, cols, rows, j);
    }
    forall j | 0 <= j < rows * cols ensures CellAt(t, j) == CellAt(s, j) {
    }
  }

  /** With every slot settled the grid is the visible screen, and emptying the queue keeps the cache sound. */
  lemma SettledView(s: Cache, cols: nat, rows: nat)
    requires Settling(s, cols, rows, s.used)
    ensures s.grid == View(s, rows * cols)
    ensures forall i :: 0 <= i < |s.slots| ==> s.slots[i] == NONE
    ensures CacheInv(s.(used := 0), cols, rows)
    ensures View(s.(used := 0), rows * cols) == View(s, rows * cols)
  {
  }
}
