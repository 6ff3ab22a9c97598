/** The block structure of the kernel heap (heap.c): headers, tiling of the heap range, and the free list. */
module HeapBlocks {
  import opened Lists
  import opened Words

  const HEAP_START: nat := 0xFFFF_9000_0000_0000
  const HEAP_MAGIC: Word := 0xDEAD_BEEF_CAFE_BABE
  const HEADER: nat := 24
  const PAGE_PAYLOAD: nat := 4072

  /** The words of the heap by byte address. A header is magic, size and next at offsets 0, 8 and 16. */
  type Store = map<nat, Word>

  /** Payload size of a block, and the page it was cut from. */
  datatype Block = Block(size: nat, page: nat)

  type Blocks = map<nat, Block>

  /** The whole heap: words, head of the free list, first address past the heap. */
  datatype HeapState = HeapState(words: Store, freeList: Word, top: nat)

  function EndOf(blocks: Blocks, b: nat): nat
    requires b in blocks
  {
    b + HEADER + blocks[b].size
  }

  predicate WordAligned(a: int) {
    a % 8 == 0
  }

  predicate PageAligned(a: int) {
    a % PAGE_SIZE == 0
  }

  lemma Alignment(a: int, n: int)
    ensures WordAligned(a) && WordAligned(n) ==> WordAligned(a + n) && WordAligned(a - n)
    ensures PageAligned(a) ==> WordAligned(a) && PageAligned(a + PAGE_SIZE)
    ensures WordAligned(HEADER) && WordAligned(8) && WordAligned(16) && WordAligned(PAGE_PAYLOAD)
    ensures n % 16 == 0 ==> WordAligned(n)
    ensures PageAligned(HEAP_START) && WordAligned(0)
  {
  }

  predicate InHeap(top: nat, a: nat) {
    HEAP_START <= a < top && WordAligned(a)
  }

  ghost predicate Domain(h: HeapState) {
    && HEAP_START <= h.top <= WORD_LIMIT && PageAligned(h.top)
    && forall a :: a in h.words <==> InHeap(h.top, a)
  }

  /** A block lies within one page and is made of whole words. */
  predicate Placed(top: nat, b: nat, block: Block) {
    && WordAligned(b) && WordAligned(block.size)
    && HEAP_START <= block.page <= b && PageAligned(block.page)
    && b + HEADER + block.size <= block.page + PAGE_SIZE <= top
  }

  ghost predicate AllPlaced(blocks: Blocks, top: nat) {
    forall b :: b in blocks ==> Placed(top, b, blocks[b])
  }

  /** Blocks do not overlap. */
  ghost predicate Disjoint(blocks: Blocks) {
    forall a, b :: a in blocks && b in blocks && a < b ==> EndOf(blocks, a) <= b
  }

  /** The first block starts the heap, and where a block ends the next one starts, up to the top. */
  ghost predicate Gapless(blocks: Blocks, top: nat) {
    && (HEAP_START < top ==> HEAP_START in blocks)
    && (forall b :: b in blocks ==> EndOf(blocks, b) == top || EndOf(blocks, b) in blocks)
  }

  ghost predicate Tiled(blocks: Blocks, top: nat) {
    AllPlaced(blocks, top) && Disjoint(blocks) && Gapless(blocks, top)
  }

  /** A block header with its magic number intact. */
  ghost predicate Header(words: Store, b: nat, size: nat) {
    b in words && b + 8 in words && b + 16 in words && words[b] == HEAP_MAGIC && words[b + 8] == size
  }

  ghost predicate Headers(words: Store, blocks: Blocks) {
    forall b :: b in blocks ==> Header(words, b, blocks[b].size)
  }

  function Next(free: seq<nat>, k: nat): nat {
    if k + 1 < |free| then free[k + 1] else 0
  }

  /** The next field of the k-th free block leads to the one after it. */
  ghost predicate Linked(words: Store, blocks: Blocks, free: seq<nat>, k: nat)
    requires k < |free|
  {
    free[k] in blocks && free[k] + 16 in words && words[free[k] + 16] == Next(free, k)
  }

  /** The free list: blocks linked through their next fields, each once. */
  ghost predicate FreeChain(words: Store, blocks: Blocks, free: seq<nat>) {
    (forall k: nat :: k < |free| ==> Linked(words, blocks, free, k)) && Distinct(free)
  }

  ghost predicate HeapInv(h: HeapState, blocks: Blocks, free: seq<nat>) {
    && Domain(h) && Tiled(blocks, h.top) && Headers(h.words, blocks)
    && FreeChain(h.words, blocks, free) && h.freeList == Head(free)
  }

  predicate Live(blocks: Blocks, free: seq<nat>, b: nat) {
    b in blocks && b !in free
  }

  /** Every word of block b, header included, is the same in both stores. */
  ghost predicate SameBlock(m: Store, n: Store, blocks: Blocks, b: nat)
    requires b in blocks
  {
    forall a :: b <= a < EndOf(blocks, b) && a in m ==> a in n && n[a] == m[a]
  }

  // ----- what the tiling says

  /** No block holds more than 4072 bytes. */
  lemma BlocksAreSmall(blocks: Blocks, top: nat, b: nat)
    requires Tiled(blocks, top) && b in blocks
    ensures blocks[b].size <= PAGE_PAYLOAD
  {
    assert Placed(top, b, blocks[b]);
  }

  /** Every address of the heap lies in exactly one block. */
  lemma {:induction false} BlockAt(blocks: Blocks, top: nat, from: nat, a: nat) returns (b: nat)
    requires Tiled(blocks, top) && from in blocks && from <= a < top
    ensures b in blocks && b <= a < EndOf(blocks, b)
    ensures forall c :: c in blocks && c <= a < EndOf(blocks, c) ==> c == b
    decreases a - from
  {
    if a < EndOf(blocks, from) {
      b := from;
    } else {
      b := BlockAt(blocks, top, EndOf(blocks, from), a);
    }
  }

  lemma HeapIsTiled(h: HeapState, blocks: Blocks, free: seq<nat>, a: nat) returns (b: nat)
    requires HeapInv(h, blocks, free) && HEAP_START <= a < h.top
    ensures b in blocks && b <= a < EndOf(blocks, b)
    ensures forall c :: c in blocks && c <= a < EndOf(blocks, c) ==> c == b
  {
    hide Domain, Headers, FreeChain, AllPlaced, Disjoint;
    b := BlockAt(blocks, h.top, HEAP_START, a);
  }

  /** The blocks from address b up, in address order. */
  ghost function InOrder(blocks: Blocks, top: nat, b: nat): seq<nat>
    requires Tiled(blocks, top) && (b in blocks || b == top)
    decreases if b < top then top - b else 0
  {
    if b !in blocks then [] else (assert Placed(top, b, blocks[b]); [b] + InOrder(blocks, top, EndOf(blocks, b)))
  }

  function Footprint(blocks: Blocks, list: seq<nat>): nat
    requires forall k :: 0 <= k < |list| ==> list[k] in blocks
  {
    if list == [] then 0 else HEADER + blocks[list[0]].size + Footprint(blocks, list[1..])
  }

  /** The walk in address order meets every block from b on. */
  lemma {:induction false} InOrderIsComplete(blocks: Blocks, top: nat, b: nat, c: nat)
    requires Tiled(blocks, top) && (b in blocks || b == top)
    ensures c in InOrder(blocks, top, b) <==> c in blocks && b <= c
    decreases if b < top then top - b else 0
  {
    if b in blocks {
      assert Placed(top, b, blocks[b]);
      InOrderIsComplete(blocks, top, EndOf(blocks, b), c);
      assert c in InOrder(blocks, top, b) <==> c == b || c in InOrder(blocks, top, EndOf(blocks, b));
      assert c in blocks && b < c ==> EndOf(blocks, b) <= c;
    } else if c in blocks {
      assert Placed(top, c, blocks[c]);
    }
  }

  /** ... each once, upwards. */
  lemma {:induction false} InOrderIsSorted(blocks: Blocks, top: nat, b: nat)
    requires Tiled(blocks, top) && (b in blocks || b == top)
    ensures forall j, k ::
              0 <= j < k < |InOrder(blocks, top, b)| ==> InOrder(blocks, top, b)[j] < InOrder(blocks, top, b)[k]
    decreases if b < top then top - b else 0
  {
    if b in blocks {
      assert Placed(top, b, blocks[b]);
      var rest := InOrder(blocks, top, EndOf(blocks, b));
      InOrderIsSorted(blocks, top, EndOf(blocks, b));
      forall k | 0 <= k < |rest| ensures b < rest[k] {
        InOrderIsComplete(blocks, top, EndOf(blocks, b), rest[k]);
        assert rest[k] in rest;
      }
    }
  }

  /** Headers and payloads together are exactly the heap range. */
  lemma {:induction false} FootprintIsRange(blocks: Blocks, top: nat, b: nat)
    requires Tiled(blocks, top) && (b in blocks || b == top)
    ensures forall k :: 0 <= k < |InOrder(blocks, top, b)| ==> InOrder(blocks, top, b)[k] in blocks
    ensures b <= top && Footprint(blocks, InOrder(blocks, top, b)) == top - b
    decreases if b < top then top - b else 0
  {
    if b in blocks {
      assert Placed(top, b, blocks[b]);
      FootprintIsRange(blocks, top, EndOf(blocks, b));
      assert InOrder(blocks, top, b)[1..] == InOrder(blocks, top, EndOf(blocks, b));
    }
  }
}
