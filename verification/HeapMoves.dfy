/** What one expansion, one allocation and one release do to the heap (heap.c), on values. */
module HeapMoves {
  import opened Lists
  import opened Words
  import opened HeapBlocks

  // ----- heap_expand: one page becomes one free block at the head of the list

  /** The words of a fresh page before its header is written: whatever its frame held. */
  function PageAt(top: nat, leftover: nat -> Word): Store {
    map a: nat | top <= a < top + PAGE_SIZE && WordAligned(a) :: leftover(a)
  }

  function WithPage(words: Store, top: nat, leftover: nat -> Word, freeList: Word): Store {
    (words + PageAt(top, leftover))[top := HEAP_MAGIC][top + 8 := PAGE_PAYLOAD][top + 16 := freeList]
  }

  function Expand(h: HeapState, leftover: nat -> Word): HeapState
    requires h.top < WORD_LIMIT
  {
    HeapState(WithPage(h.words, h.top, leftover, h.freeList), h.top, h.top + PAGE_SIZE)
  }

  function ExpandBlocks(blocks: Blocks, top: nat): Blocks {
    blocks[top := Block(PAGE_PAYLOAD, top)]
  }

  ghost predicate CanExpand(h: HeapState, blocks: Blocks, free: seq<nat>) {
    HeapInv(h, blocks, free) && h.top + PAGE_SIZE <= WORD_LIMIT
  }

  lemma PageWords(h: HeapState, blocks: Blocks, free: seq<nat>, leftover: nat -> Word, a: nat)
    requires CanExpand(h, blocks, free)
    ensures a in Expand(h, leftover).words <==> InHeap(h.top + PAGE_SIZE, a)
    ensures a in h.words ==> a < h.top && a in Expand(h, leftover).words && Expand(h, leftover).words[a] == h.words[a]
  {
    hide Tiled, Headers, FreeChain, WordAligned, PageAligned;
    Alignment(h.top, 8);
    Alignment(h.top, 16);
  }

  lemma ExpandKeepsDomain(h: HeapState, blocks: Blocks, free: seq<nat>, leftover: nat -> Word)
    requires CanExpand(h, blocks, free)
    ensures Domain(Expand(h, leftover))
  {
    hide Tiled, Headers, FreeChain, WithPage, WordAligned, PageAligned;
    Alignment(h.top, 8);
    forall a ensures a in Expand(h, leftover).words <==> InHeap(h.top + PAGE_SIZE, a) {
      if a >= 0 {
        PageWords(h, blocks, free, leftover, a);
      }
    }
  }

  lemma ExpandKeepsTiles(h: HeapState, blocks: Blocks, free: seq<nat>)
    requires CanExpand(h, blocks, free)
    ensures Tiled(ExpandBlocks(blocks, h.top), h.top + PAGE_SIZE) && h.top !in blocks
  {
    hide Headers, FreeChain, WordAligned, PageAligned, Disjoint, Gapless;
    Alignment(h.top, 8);
    forall b | b in blocks ensures b < h.top && EndOf(blocks, b) <= h.top {
      assert Placed(h.top, b, blocks[b]);
    }
    PageKeepsDisjoint(blocks, h.top);
    PageKeepsGapless(blocks, h.top);
  }

  lemma PageKeepsDisjoint(blocks: Blocks, top: nat)
    requires Disjoint(blocks) && forall b :: b in blocks ==> b < top && EndOf(blocks, b) <= top
    ensures Disjoint(ExpandBlocks(blocks, top))
  {
  }

  lemma PageKeepsGapless(blocks: Blocks, top: nat)
    requires Gapless(blocks, top) && top >= HEAP_START && forall b :: b in blocks ==> b < top && EndOf(blocks, b) <= top
    ensures Gapless(ExpandBlocks(blocks, top), top + PAGE_SIZE)
  {
    var after := ExpandBlocks(blocks, top);
    assert EndOf(after, top) == top + PAGE_SIZE;
    forall b | b in after && b != top ensures EndOf(after, b) == EndOf(blocks, b) {
    }
  }

  lemma ExpandKeepsInv(h: HeapState, blocks: Blocks, free: seq<nat>, leftover: nat -> Word)
    requires CanExpand(h, blocks, free)
    ensures HeapInv(Expand(h, leftover), ExpandBlocks(blocks, h.top), [h.top] + free)
  {
    ExpandKeepsDomain(h, blocks, free, leftover);
    ExpandKeepsTiles(h, blocks, free);
    ExpandKeepsHeaders(h, blocks, free, leftover);
    ExpandKeepsChain(h, blocks, free, leftover);
  }

  lemma ExpandKeepsHeaders(h: HeapState, blocks: Blocks, free: seq<nat>, leftover: nat -> Word)
    requires CanExpand(h, blocks, free)
    ensures Headers(Expand(h, leftover).words, ExpandBlocks(blocks, h.top))
  {
    hide Tiled, FreeChain, Domain, WordAligned;
    var n := Expand(h, leftover).words;
    forall b | b in blocks ensures Header(n, b, blocks[b].size) && b != h.top {
      assert Header(h.words, b, blocks[b].size);
      PageWords(h, blocks, free, leftover, b);
      PageWords(h, blocks, free, leftover, b + 8);
      PageWords(h, blocks, free, leftover, b + 16);
    }
  }

  lemma FreshHeader(h: HeapState, leftover: nat -> Word)
    requires h.top < WORD_LIMIT
    ensures h.top + 16 in Expand(h, leftover).words && Expand(h, leftover).words[h.top + 16] == h.freeList
  {
  }

  /** A block put in front of a free list. */
  lemma ConsChain(n: Store, blocks: Blocks, b: nat, free: seq<nat>)
    requires b in blocks && b + 16 in n && n[b + 16] == Head(free)
    requires FreeChain(n, blocks, free) && b !in free
    ensures FreeChain(n, blocks, [b] + free)
  {
    var all := [b] + free;
    forall k: nat | k < |all| ensures Linked(n, blocks, all, k) {
      if k > 0 {
        assert Linked(n, blocks, free, k - 1);
      }
    }
  }

  lemma ExpandKeepsChain(h: HeapState, blocks: Blocks, free: seq<nat>, leftover: nat -> Word)
    requires CanExpand(h, blocks, free)
    ensures FreeChain(Expand(h, leftover).words, ExpandBlocks(blocks, h.top), [h.top] + free)
  {
    hide Tiled, Headers, Domain, Expand, Distinct;
    var n := Expand(h, leftover).words;
    FreshHeader(h, leftover);
    forall k: nat | k < |free| ensures Linked(n, ExpandBlocks(blocks, h.top), free, k) && free[k] != h.top {
      assert Linked(h.words, blocks, free, k);
      PageWords(h, blocks, free, leftover, free[k] + 16);
    }
    ConsChain(n, ExpandBlocks(blocks, h.top), h.top, free);
  }

  // ----- kmalloc: the first block that is large enough, split when the rest can hold a header and 16 bytes

  /** (size + 15) & ~15 in 64-bit arithmetic. */
  function Round16(size: Word): Word {
    (size + 15) % WORD_LIMIT / 16 * 16
  }

  /** Position of the first free block of at least `size` bytes; the length of the list when there is none. */
  function FirstFit(blocks: Blocks, free: seq<nat>, size: nat): (k: nat)
    requires forall j :: 0 <= j < |free| ==> free[j] in blocks
    ensures k <= |free|
    ensures k < |free| ==> blocks[free[k]].size >= size
    ensures forall j :: 0 <= j < k ==> blocks[free[j]].size < size
  {
    if free == [] || blocks[free[0]].size >= size then 0 else 1 + FirstFit(blocks, free[1..], size)
  }

  predicate Splits(block: Block, size: nat) {
    block.size >= size + HEADER + 16
  }

  function TakeBlocks(blocks: Blocks, b: nat, size: nat): Blocks
    requires b in blocks
  {
    if Splits(blocks[b], size)
    then blocks[b := Block(size, blocks[b].page)]
               [b + HEADER + size := Block(blocks[b].size - size - HEADER, blocks[b].page)]
    else blocks
  }

  function TakeFree(blocks: Blocks, free: seq<nat>, k: nat, size: nat): seq<nat>
    requires k < |free| && free[k] in blocks
  {
    if Splits(blocks[free[k]], size) then free[k := free[k] + HEADER + size] else free[..k] + free[k + 1..]
  }

  /** The header writes of a split: the new block's header, then size and next of the block it is cut from. */
  function SplitWords(words: Store, b: nat, size: Word, rest: Word): Store
    requires b + 16 in words && b + HEADER + size < WORD_LIMIT
  {
    var split := b + HEADER + size;
    words[split := HEAP_MAGIC][split + 8 := rest][split + 16 := words[b + 16]][b + 8 := size][b + 16 := split]
  }

  /** Taking block k off the list: the pointer to it now holds its successor, and its own next field is cleared. */
  function TakeWords(words: Store, blocks: Blocks, free: seq<nat>, k: nat, size: Word): Store
    requires k < |free| && free[k] in blocks && free[k] + 16 in words && EndOf(blocks, free[k]) <= WORD_LIMIT
  {
    var b := free[k];
    var cut := if Splits(blocks[b], size) then SplitWords(words, b, size, blocks[b].size - size - HEADER) else words;
    var linked := if k == 0 then cut else cut[free[k - 1] + 16 := cut[b + 16]];
    linked[b + 16 := 0]
  }

  ghost predicate CanTake(h: HeapState, blocks: Blocks, free: seq<nat>, k: nat, size: Word) {
    && HeapInv(h, blocks, free) && size % 16 == 0
    && k < |free| && free[k] in blocks && blocks[free[k]].size >= size
  }

  function Take(h: HeapState, blocks: Blocks, free: seq<nat>, k: nat, size: Word): HeapState
    requires k < |free| && free[k] in blocks && free[k] + 16 in h.words && EndOf(blocks, free[k]) <= WORD_LIMIT
  {
    HeapState(TakeWords(h.words, blocks, free, k, size), Head(TakeFree(blocks, free, k, size)) % WORD_LIMIT, h.top)
  }

  lemma TakeKeepsPlaces(blocks: Blocks, top: nat, b: nat, size: nat)
    requires Tiled(blocks, top) && b in blocks && size % 16 == 0 && size <= blocks[b].size
    ensures AllPlaced(TakeBlocks(blocks, b, size), top)
  {
    hide WordAligned, PageAligned, Disjoint, Gapless;
    assert Placed(top, b, blocks[b]);
    Alignment(b, HEADER);
    Alignment(b + HEADER, size);
    Alignment(blocks[b].size, size);
    Alignment(blocks[b].size - size, HEADER);
  }

  lemma TakeKeepsTiles(blocks: Blocks, top: nat, b: nat, size: nat)
    requires Tiled(blocks, top) && b in blocks && size % 16 == 0 && size <= blocks[b].size
    ensures Tiled(TakeBlocks(blocks, b, size), top)
    ensures Splits(blocks[b], size) ==> b + HEADER + size !in blocks
  {
    TakeKeepsPlaces(blocks, top, b, size);
    if Splits(blocks[b], size) {
      SplitIsNew(blocks, top, b, size);
      SplitKeepsDisjoint(blocks, top, b, size);
      SplitKeepsGapless(blocks, top, b, size);
    }
  }

  lemma SplitIsNew(blocks: Blocks, top: nat, b: nat, size: nat)
    requires Disjoint(blocks) && b in blocks && Splits(blocks[b], size)
    ensures b + HEADER + size !in blocks
  {
  }

  lemma SplitKeepsDisjoint(blocks: Blocks, top: nat, b: nat, size: nat)
    requires Disjoint(blocks) && b in blocks && Splits(blocks[b], size)
    ensures Disjoint(TakeBlocks(blocks, b, size))
  {
    SplitIsNew(blocks, top, b, size);
    var after, split := TakeBlocks(blocks, b, size), b + HEADER + size;
    forall c | c in blocks && c != b ensures c < b ==> EndOf(blocks, c) <= b
                                     ensures b < c ==> EndOf(blocks, b) <= c && split < c
    {
    }
    assert EndOf(after, split) == EndOf(blocks, b);
  }

  lemma SplitKeepsGapless(blocks: Blocks, top: nat, b: nat, size: nat)
    requires Gapless(blocks, top) && b in blocks && Splits(blocks[b], size) && b + HEADER + size !in blocks
    ensures Gapless(TakeBlocks(blocks, b, size), top)
  {
    var after, split := TakeBlocks(blocks, b, size), b + HEADER + size;
    assert EndOf(after, split) == EndOf(blocks, b) && EndOf(after, b) == split;
    forall c | c in after ensures EndOf(after, c) == top || EndOf(after, c) in after {
      assert c != b && c != split ==> c in blocks && EndOf(after, c) == EndOf(blocks, c);
    }
  }

  // ----- the words after a block was taken

  /** Header words of a block lie in the heap. */
  lemma HeaderInHeap(h: HeapState, blocks: Blocks, free: seq<nat>, b: nat)
    requires HeapInv(h, blocks, free) && b in blocks
    ensures b in h.words && b + 8 in h.words && b + 16 in h.words
    ensures EndOf(blocks, b) <= h.top <= WORD_LIMIT
  {
    hide Disjoint, Gapless, FreeChain, WordAligned, PageAligned;
    assert Placed(h.top, b, blocks[b]);
  }

  /** Word-aligned addresses inside a block lie in the heap. */
  lemma InsideBlock(h: HeapState, blocks: Blocks, free: seq<nat>, b: nat, n: nat)
    requires HeapInv(h, blocks, free) && b in blocks && WordAligned(n) && n < HEADER + blocks[b].size
    ensures b + n in h.words
  {
    hide Disjoint, Gapless, FreeChain, WordAligned, PageAligned, Headers;
    assert Placed(h.top, b, blocks[b]);
    Alignment(b, n);
  }

  /** What the split writes. */
  lemma SplitValues(words: Store, b: nat, size: Word, rest: Word)
    requires b + 16 in words && b + HEADER + size < WORD_LIMIT
    ensures var n, split := SplitWords(words, b, size, rest), b + HEADER + size;
            && n.Keys == words.Keys + {split, split + 8, split + 16, b + 8, b + 16}
            && n[split] == HEAP_MAGIC && n[split + 8] == rest && n[split + 16] == words[b + 16]
            && n[b + 8] == size && n[b + 16] == split
    ensures var n, split := SplitWords(words, b, size, rest), b + HEADER + size;
            forall a ::
              a in words && a != split && a != split + 8 && a != split + 16 && a != b + 8 && a != b + 16 ==>
                n[a] == words[a]
  {
  }

  /** Where taking block k off the list stores its successor. */
  predicate IsLink(free: seq<nat>, k: nat, a: nat) {
    0 < k <= |free| && a == free[k - 1] + 16
  }

  lemma TakeValues(words: Store, blocks: Blocks, free: seq<nat>, k: nat, size: Word)
    requires k < |free| && free[k] in blocks && free[k] + 16 in words && EndOf(blocks, free[k]) <= WORD_LIMIT
    requires blocks[free[k]].size >= size && (k > 0 ==> free[k - 1] + 16 in words && free[k - 1] != free[k])
    ensures var b, n := free[k], TakeWords(words, blocks, free, k, size);
            var cut := if Splits(blocks[b], size) then SplitWords(words, b, size, blocks[b].size - size - HEADER)
                       else words;
            && n.Keys == cut.Keys && b + 16 in cut && n[b + 16] == 0
            && (k > 0 ==> n[free[k - 1] + 16] == cut[b + 16])
            && (forall a :: a in cut && a != b + 16 && !IsLink(free, k, a) ==> n[a] == cut[a])
  {
    hide SplitWords;
    var b := free[k];
    if Splits(blocks[b], size) {
      SplitValues(words, b, size, blocks[b].size - size - HEADER);
    }
  }

  /** Outside the taken block and the link to it, no word changes. */
  lemma TakeWritesInside(h: HeapState, blocks: Blocks, free: seq<nat>, k: nat, size: Word, a: nat)
    requires CanTake(h, blocks, free, k, size)
    ensures free[k] in blocks && free[k] + 16 in h.words && EndOf(blocks, free[k]) <= WORD_LIMIT
    ensures TakeWords(h.words, blocks, free, k, size).Keys == h.words.Keys
    ensures a in h.words && !(free[k] <= a < EndOf(blocks, free[k])) && !IsLink(free, k, a) ==>
              TakeWords(h.words, blocks, free, k, size)[a] == h.words[a]
  {
    hide Domain, Tiled, Headers, TakeWords, SplitWords, WordAligned;
    var b := free[k];
    HeaderInHeap(h, blocks, free, b);
    LinkFacts(h, blocks, free, k);
    TakeValues(h.words, blocks, free, k, size);
    if Splits(blocks[b], size) {
      SplitValues(h.words, b, size, blocks[b].size - size - HEADER);
      SplitInside(h, blocks, free, b, size);
    }
  }

  lemma SplitInside(h: HeapState, blocks: Blocks, free: seq<nat>, b: nat, size: nat)
    requires HeapInv(h, blocks, free) && b in blocks && size % 16 == 0 && Splits(blocks[b], size)
    ensures var split := b + HEADER + size; split in h.words && split + 8 in h.words && split + 16 in h.words
  {
    hide HeapInv, WordAligned;
    Alignment(HEADER, size);
    Alignment(HEADER + size, 8);
    Alignment(HEADER + size, 16);
    InsideBlock(h, blocks, free, b, HEADER + size);
    InsideBlock(h, blocks, free, b, HEADER + size + 8);
    InsideBlock(h, blocks, free, b, HEADER + size + 16);
  }

  lemma LinkFacts(h: HeapState, blocks: Blocks, free: seq<nat>, k: nat)
    requires HeapInv(h, blocks, free) && k < |free|
    ensures free[k] in blocks && free[k] + 16 in h.words && h.words[free[k] + 16] == Next(free, k)
    ensures k > 0 ==> free[k - 1] + 16 in h.words && free[k - 1] != free[k] && free[k - 1] in blocks
  {
    hide Domain, Tiled, Headers;
    assert Linked(h.words, blocks, free, k);
    if k > 0 {
      assert Linked(h.words, blocks, free, k - 1);
    }
  }

  /** Blocks other than the taken one and the one before it on the list keep every word. */
  lemma TakeKeepsBlock(h: HeapState, blocks: Blocks, free: seq<nat>, k: nat, size: Word, c: nat)
    requires CanTake(h, blocks, free, k, size) && c in blocks && c != free[k] && (k > 0 ==> c != free[k - 1])
    ensures free[k] in blocks && free[k] + 16 in h.words && EndOf(blocks, free[k]) <= WORD_LIMIT
    ensures SameBlock(h.words, TakeWords(h.words, blocks, free, k, size), blocks, c)
  {
    hide Domain, Headers, AllPlaced, Gapless, TakeWords, WordAligned;
    TakeWritesInside(h, blocks, free, k, size, 0);
    LinkFacts(h, blocks, free, k);
    forall a | c <= a < EndOf(blocks, c) && a in h.words
      ensures TakeWords(h.words, blocks, free, k, size)[a] == h.words[a]
    {
      TakeWritesInside(h, blocks, free, k, size, a);
    }
  }

  /** The header words of the taken block, of the rest it was split from, and of the block before it on the list. */
  /** The taken block, what is split off it, and the link that led to it. */
  ghost predicate HeadersTaken(n: Store, blocks: Blocks, free: seq<nat>, k: nat, size: Word)
    requires k < |free| && free[k] in blocks
  {
    var b, split := free[k], free[k] + HEADER + size;
    && Header(n, b, if Splits(blocks[b], size) then size else blocks[b].size) && n[b + 16] == 0
    && (Splits(blocks[b], size) ==> Header(n, split, blocks[b].size - size - HEADER) && n[split + 16] == Next(free, k))
    && (k > 0 ==> free[k - 1] + 16 in n
                  && n[free[k - 1] + 16] == if Splits(blocks[b], size) then split else Next(free, k))
  }

  lemma TakenHeaders(h: HeapState, blocks: Blocks, free: seq<nat>, k: nat, size: Word)
    requires CanTake(h, blocks, free, k, size)
    ensures free[k] in blocks && free[k] + 16 in h.words && EndOf(blocks, free[k]) <= WORD_LIMIT
    ensures HeadersTaken(TakeWords(h.words, blocks, free, k, size), blocks, free, k, size)
  {
    hide Domain, AllPlaced, Gapless, TakeWords, SplitWords, WordAligned, FreeChain, Disjoint;
    var b := free[k];
    LinkFacts(h, blocks, free, k);
    HeaderInHeap(h, blocks, free, b);
    TakeValues(h.words, blocks, free, k, size);
    LinkIsElsewhere(h, blocks, free, k);
    if Splits(blocks[b], size) {
      SplitValues(h.words, b, size, blocks[b].size - size - HEADER);
    }
  }

  /** The link to the taken block is not inside it. */
  lemma LinkIsElsewhere(h: HeapState, blocks: Blocks, free: seq<nat>, k: nat)
    requires HeapInv(h, blocks, free) && k < |free|
    ensures free[k] in blocks
    ensures forall a :: IsLink(free, k, a) ==> a < free[k] || EndOf(blocks, free[k]) < a
  {
    hide Domain, AllPlaced, Gapless, Headers, WordAligned;
    LinkFacts(h, blocks, free, k);
  }

  lemma OtherHeaders(h: HeapState, blocks: Blocks, free: seq<nat>, k: nat, size: Word, c: nat)
    requires CanTake(h, blocks, free, k, size) && c in blocks && c != free[k]
    ensures free[k] in blocks && free[k] + 16 in h.words && EndOf(blocks, free[k]) <= WORD_LIMIT
    ensures var n := TakeWords(h.words, blocks, free, k, size);
            && Header(n, c, blocks[c].size)
            && (!IsLink(free, k, c + 16) ==> n[c + 16] == h.words[c + 16])
  {
    hide Domain, AllPlaced, Gapless, TakeWords, WordAligned, FreeChain;
    HeaderInHeap(h, blocks, free, c);
    HeadersApart(blocks, free[k], c);
    LinkIsNext(h, blocks, free, k, c);
    TakeWritesInside(h, blocks, free, k, size, c);
    TakeWritesInside(h, blocks, free, k, size, c + 8);
    TakeWritesInside(h, blocks, free, k, size, c + 16);
  }

  lemma HeadersApart(blocks: Blocks, b: nat, c: nat)
    requires Disjoint(blocks) && b in blocks && c in blocks && b != c
    ensures c + HEADER <= b || EndOf(blocks, b) <= c
  {
  }

  /** The link is a next field, never a magic or a size field. */
  lemma LinkIsNext(h: HeapState, blocks: Blocks, free: seq<nat>, k: nat, c: nat)
    requires HeapInv(h, blocks, free) && k < |free| && c in blocks
    ensures !IsLink(free, k, c) && !IsLink(free, k, c + 8)
  {
    hide HeapInv, Disjoint;
    LinkFacts(h, blocks, free, k);
    if k > 0 && c != free[k - 1] {
      InvDisjoint(h, blocks, free);
      HeadersApart(blocks, c, free[k - 1]);
    }
  }

  lemma TakeKeepsHeaders(h: HeapState, blocks: Blocks, free: seq<nat>, k: nat, size: Word)
    requires CanTake(h, blocks, free, k, size)
    ensures free[k] in blocks && free[k] + 16 in h.words && EndOf(blocks, free[k]) <= WORD_LIMIT
    ensures Headers(TakeWords(h.words, blocks, free, k, size), TakeBlocks(blocks, free[k], size))
  {
    hide HeapInv, TakeWords, Header, Splits, TakeBlocks;
    TakenHeaders(h, blocks, free, k, size);
    forall c | c in blocks && c != free[k]
      ensures Header(TakeWords(h.words, blocks, free, k, size), c, blocks[c].size) {
      OtherHeaders(h, blocks, free, k, size, c);
    }
    HeadersAfter(TakeWords(h.words, blocks, free, k, size), blocks, free[k], size);
  }

  lemma HeadersAfter(n: Store, blocks: Blocks, b: nat, size: nat)
    requires b in blocks && forall c :: c in blocks && c != b ==> Header(n, c, blocks[c].size)
    requires Header(n, b, if Splits(blocks[b], size) then size else blocks[b].size)
    requires Splits(blocks[b], size) ==> Header(n, b + HEADER + size, blocks[b].size - size - HEADER)
    ensures Headers(n, TakeBlocks(blocks, b, size))
  {
    hide Header;
  }

  lemma ListFacts(h: HeapState, blocks: Blocks, free: seq<nat>)
    requires HeapInv(h, blocks, free)
    ensures FreeChain(h.words, blocks, free) && h.freeList == Head(free)
  {
  }

  /** The next fields of the free blocks that are neither taken nor linked to the taken one. */
  lemma OtherLinks(h: HeapState, blocks: Blocks, free: seq<nat>, k: nat, size: Word, j: nat)
    requires CanTake(h, blocks, free, k, size) && j < |free| && j != k && j + 1 != k
    ensures free[k] in blocks && free[k] + 16 in h.words && EndOf(blocks, free[k]) <= WORD_LIMIT
    ensures Linked(TakeWords(h.words, blocks, free, k, size), blocks, free, j)
  {
    hide HeapInv, TakeWords, Disjoint;
    ListFacts(h, blocks, free);
    assert Linked(h.words, blocks, free, j);
    LinkIsDistinct(free, k, j);
    OtherHeaders(h, blocks, free, k, size, free[j]);
  }

  lemma LinkIsDistinct(free: seq<nat>, k: nat, j: nat)
    requires Distinct(free) && k < |free| && j < |free| && j != k && j + 1 != k
    ensures free[j] != free[k] && !IsLink(free, k, free[j] + 16)
  {
  }

  lemma LinksAround(h: HeapState, blocks: Blocks, free: seq<nat>, k: nat, size: Word)
    requires CanTake(h, blocks, free, k, size)
    ensures free[k] in blocks && free[k] + 16 in h.words && EndOf(blocks, free[k]) <= WORD_LIMIT
    ensures LinksBut(TakeWords(h.words, blocks, free, k, size), blocks, free, k) && Distinct(free)
  {
    hide HeapInv, TakeWords, Linked, Distinct, Disjoint;
    TakenHeaders(h, blocks, free, k, size);
    ListFacts(h, blocks, free);
    forall j: nat | j < |free| && j != k && j + 1 != k
      ensures Linked(TakeWords(h.words, blocks, free, k, size), blocks, free, j) {
      OtherLinks(h, blocks, free, k, size, j);
    }
  }

  lemma TakeKeepsChain(h: HeapState, blocks: Blocks, free: seq<nat>, k: nat, size: Word)
    requires CanTake(h, blocks, free, k, size)
    ensures free[k] in blocks && free[k] + 16 in h.words && EndOf(blocks, free[k]) <= WORD_LIMIT
    ensures FreeChain(TakeWords(h.words, blocks, free, k, size), TakeBlocks(blocks, free[k], size),
                      TakeFree(blocks, free, k, size))
  {
    hide HeapInv, TakeWords, LinksBut, Distinct, Disjoint, FreeChain, Splits, Header, Next;
    TakenHeaders(h, blocks, free, k, size);
    LinkFacts(h, blocks, free, k);
    LinksAround(h, blocks, free, k, size);
    if Splits(blocks[free[k]], size) {
      NewBlock(h, blocks, free, k, size);
      SplitIsWord(h, blocks, free, k, size);
      ReplaceChain(TakeWords(h.words, blocks, free, k, size), TakeBlocks(blocks, free[k], size), blocks, free, k,
                   free[k] + HEADER + size);
    } else {
      DropChain(TakeWords(h.words, blocks, free, k, size), blocks, free, k);
    }
  }

  lemma NewBlock(h: HeapState, blocks: Blocks, free: seq<nat>, k: nat, size: Word)
    requires HeapInv(h, blocks, free) && k < |free| && free[k] in blocks && Splits(blocks[free[k]], size)
    ensures free[k] + HEADER + size !in blocks && free[k] + HEADER + size in TakeBlocks(blocks, free[k], size)
    ensures blocks.Keys <= TakeBlocks(blocks, free[k], size).Keys
  {
    hide HeapInv, Disjoint;
    InvDisjoint(h, blocks, free);
    SplitIsNew(blocks, h.top, free[k], size);
  }

  lemma SplitIsWord(h: HeapState, blocks: Blocks, free: seq<nat>, k: nat, size: Word)
    requires CanTake(h, blocks, free, k, size) && Splits(blocks[free[k]], size)
    ensures free[k] in blocks && free[k] + 16 in h.words && EndOf(blocks, free[k]) <= WORD_LIMIT
    ensures free[k] + HEADER + size + 16 in TakeWords(h.words, blocks, free, k, size)
  {
    hide HeapInv, TakeWords;
    TakenHeaders(h, blocks, free, k, size);
  }

  lemma InvDisjoint(h: HeapState, blocks: Blocks, free: seq<nat>)
    requires HeapInv(h, blocks, free)
    ensures Disjoint(blocks) && Tiled(blocks, h.top)
  {
  }

  /** The links around position k after something else was written there. */
  ghost predicate LinksBut(n: Store, blocks: Blocks, free: seq<nat>, k: nat)
    requires k < |free|
  {
    forall j: nat :: j < |free| && j != k && j + 1 != k ==> Linked(n, blocks, free, j)
  }

  lemma ReplaceChain(n: Store, after: Blocks, blocks: Blocks, free: seq<nat>, k: nat, split: nat)
    requires k < |free| && split in after && split !in blocks && blocks.Keys <= after.Keys
    requires LinksBut(n, blocks, free, k) && Distinct(free)
    requires k > 0 ==> free[k - 1] in blocks && free[k - 1] + 16 in n && n[free[k - 1] + 16] == split
    requires split + 16 in n && n[split + 16] == Next(free, k)
    ensures FreeChain(n, after, free[k := split])
  {
    var list := free[k := split];
    forall j: nat | j < |list| ensures Linked(n, after, list, j) && (j != k ==> list[j] != split) {
      if j != k && j + 1 != k {
        assert Linked(n, blocks, free, j);
      }
    }
  }

  lemma DropChain(n: Store, blocks: Blocks, free: seq<nat>, k: nat)
    requires k < |free|
    requires LinksBut(n, blocks, free, k) && Distinct(free)
    requires k > 0 ==> free[k - 1] in blocks && free[k - 1] + 16 in n && n[free[k - 1] + 16] == Next(free, k)
    ensures FreeChain(n, blocks, free[..k] + free[k + 1..])
  {
    var list := free[..k] + free[k + 1..];
    DropDistinct(free, k);
    hide Distinct;
    forall j: nat | j < |list| ensures Linked(n, blocks, list, j) {
      assert list[j] == free[if j < k then j else j + 1];
      assert Next(list, j) == if j + 1 == k then Next(free, k) else Next(free, if j < k then j else j + 1);
      if j + 1 != k {
        assert Linked(n, blocks, free, if j < k then j else j + 1);
      }
    }
  }

  lemma DropDistinct(free: seq<nat>, k: nat)
    requires k < |free| && Distinct(free)
    ensures Distinct(free[..k] + free[k + 1..])
  {
  }

  /** kmalloc's taking of a block keeps the heap in order. */
  lemma TakeKeepsInv(h: HeapState, blocks: Blocks, free: seq<nat>, k: nat, size: Word)
    requires CanTake(h, blocks, free, k, size)
    ensures free[k] in blocks && free[k] + 16 in h.words && EndOf(blocks, free[k]) <= WORD_LIMIT
    ensures HeapInv(Take(h, blocks, free, k, size), TakeBlocks(blocks, free[k], size), TakeFree(blocks, free, k, size))
  {
    hide Domain, Tiled, Headers, FreeChain, TakeWords, TakeBlocks;
    TakeKeepsHeaders(h, blocks, free, k, size);
    TakeKeepsChain(h, blocks, free, k, size);
    TakeKeepsTiles(blocks, h.top, free[k], size);
    TakeWritesInside(h, blocks, free, k, size, 0);
    DomainBySize(h, Take(h, blocks, free, k, size));
    HeadIsWord(h, blocks, free, k, size);
  }

  lemma DomainBySize(h: HeapState, t: HeapState)
    requires Domain(h) && t.words.Keys == h.words.Keys && t.top == h.top
    ensures Domain(t)
  {
  }

  lemma HeadIsWord(h: HeapState, blocks: Blocks, free: seq<nat>, k: nat, size: Word)
    requires CanTake(h, blocks, free, k, size)
    ensures free[k] in blocks && Head(TakeFree(blocks, free, k, size)) < WORD_LIMIT
  {
    hide HeapInv, WordAligned;
    LinkFacts(h, blocks, free, k);
    LinkFacts(h, blocks, free, 0);
    HeaderInHeap(h, blocks, free, free[k]);
    HeaderInHeap(h, blocks, free, free[0]);
    if |free| > 1 {
      LinkFacts(h, blocks, free, 1);
      HeaderInHeap(h, blocks, free, free[1]);
    }
  }

  // ----- blocks in use

  /** Taking a block changes no word of any block that is not free. */
  lemma TakeKeepsLive(h: HeapState, blocks: Blocks, free: seq<nat>, k: nat, size: Word, c: nat)
    requires CanTake(h, blocks, free, k, size) && Live(blocks, free, c)
    ensures free[k] in blocks && free[k] + 16 in h.words && EndOf(blocks, free[k]) <= WORD_LIMIT
    ensures SameBlock(h.words, Take(h, blocks, free, k, size).words, blocks, c)
    ensures c in TakeBlocks(blocks, free[k], size) && TakeBlocks(blocks, free[k], size)[c] == blocks[c]
    ensures Live(TakeBlocks(blocks, free[k], size), TakeFree(blocks, free, k, size), c)
  {
    hide HeapInv, TakeWords, SameBlock, Disjoint;
    TakeKeepsBlock(h, blocks, free, k, size, c);
    InvDisjoint(h, blocks, free);
    if Splits(blocks[free[k]], size) {
      SplitIsNew(blocks, h.top, free[k], size);
    }
  }

  /** The taken block is in use afterwards, with at least the requested size. */
  lemma TakenIsLive(h: HeapState, blocks: Blocks, free: seq<nat>, k: nat, size: Word)
    requires CanTake(h, blocks, free, k, size)
    ensures free[k] in blocks && Live(TakeBlocks(blocks, free[k], size), TakeFree(blocks, free, k, size), free[k])
    ensures TakeBlocks(blocks, free[k], size)[free[k]].size >= size
  {
    hide Domain, Tiled, Headers, Linked;
    ListFacts(h, blocks, free);
  }

  /** Taking a block hands out that block and loses none: the rest of a split is on the list. */
  lemma TakeHandsOut(h: HeapState, blocks: Blocks, free: seq<nat>, k: nat, size: Word, c: nat)
    requires CanTake(h, blocks, free, k, size)
    ensures free[k] in blocks
    ensures Live(TakeBlocks(blocks, free[k], size), TakeFree(blocks, free, k, size), c)
            <==> Live(blocks, free, c) || c == free[k]
  {
    hide HeapInv, TakeBlocks, TakeFree, Live, Linked;
    ListFacts(h, blocks, free);
    if Live(blocks, free, c) {
      TakeKeepsLive(h, blocks, free, k, size, c);
    } else if c == free[k] {
      TakenIsLive(h, blocks, free, k, size);
    } else {
      RestIsListed(blocks, free, k, size, c);
    }
  }

  /** A block that was free, or that a split makes, is on the list afterwards. */
  lemma RestIsListed(blocks: Blocks, free: seq<nat>, k: nat, size: nat, c: nat)
    requires k < |free| && free[k] in blocks && !Live(blocks, free, c) && c != free[k]
    ensures !Live(TakeBlocks(blocks, free[k], size), TakeFree(blocks, free, k, size), c)
  {
    var list := TakeFree(blocks, free, k, size);
    if c in free {
      var j :| 0 <= j < |free| && free[j] == c;
      if Splits(blocks[free[k]], size) {
        assert list[j] == c;
      } else {
        assert list[if j < k then j else j - 1] == c;
      }
    } else if Splits(blocks[free[k]], size) {
      assert list[k] == free[k] + HEADER + size;
    }
  }

  /** Expanding hands out nothing: the new block is on the list. */
  lemma ExpandHandsOut(h: HeapState, blocks: Blocks, free: seq<nat>, leftover: nat -> Word, c: nat)
    requires CanExpand(h, blocks, free)
    ensures Live(ExpandBlocks(blocks, h.top), [h.top] + free, c) <==> Live(blocks, free, c)
  {
    hide HeapInv, Expand;
    if Live(blocks, free, c) {
      ExpandKeepsLive(h, blocks, free, leftover, c);
    }
  }

  lemma ExpandKeepsLive(h: HeapState, blocks: Blocks, free: seq<nat>, leftover: nat -> Word, c: nat)
    requires CanExpand(h, blocks, free) && Live(blocks, free, c)
    ensures SameBlock(h.words, Expand(h, leftover).words, blocks, c)
    ensures c in ExpandBlocks(blocks, h.top) && ExpandBlocks(blocks, h.top)[c] == blocks[c]
    ensures Live(ExpandBlocks(blocks, h.top), [h.top] + free, c)
  {
    hide HeapInv, Expand, Tiled;
    ExpandKeepsTiles(h, blocks, free);
    forall a: nat | a in h.words ensures a in Expand(h, leftover).words && Expand(h, leftover).words[a] == h.words[a] {
      PageWords(h, blocks, free, leftover, a);
    }
  }

  // ----- kfree

  function Release(h: HeapState, b: nat): HeapState
    requires b < WORD_LIMIT
  {
    HeapState(h.words[b + 16 := h.freeList], b, h.top)
  }

  lemma ReleaseKeepsInv(h: HeapState, blocks: Blocks, free: seq<nat>, b: nat)
    requires HeapInv(h, blocks, free) && Live(blocks, free, b)
    ensures b < WORD_LIMIT && HeapInv(Release(h, b), blocks, [b] + free)
  {
    hide Tiled, Domain, Linked, Header, Distinct;
    HeaderInHeap(h, blocks, free, b);
    NextFieldWrite(h, blocks, free, b);
    DomainBySize(h, Release(h, b));
    ConsChain(Release(h, b).words, blocks, b, free);
  }

  /** Writing the next field of a block that is not on the list. */
  lemma NextFieldWrite(h: HeapState, blocks: Blocks, free: seq<nat>, b: nat)
    requires HeapInv(h, blocks, free) && Live(blocks, free, b)
    ensures b + 16 in h.words && FreeChain(h.words[b + 16 := h.freeList], blocks, free)
    ensures Headers(h.words[b + 16 := h.freeList], blocks)
  {
    hide HeapInv, Disjoint, Distinct, Linked;
    HeaderInHeap(h, blocks, free, b);
    ListFacts(h, blocks, free);
    var n := h.words[b + 16 := h.freeList];
    forall k: nat | k < |free| ensures Linked(n, blocks, free, k) {
      assert free[k] in free;
      LinkedElsewhere(h.words, blocks, free, k, b, h.freeList);
    }
    NextFieldKeepsHeaders(h, blocks, free, b);
  }

  lemma LinkedElsewhere(m: Store, blocks: Blocks, free: seq<nat>, k: nat, b: nat, w: Word)
    requires k < |free| && Linked(m, blocks, free, k) && free[k] != b
    ensures Linked(m[b + 16 := w], blocks, free, k)
  {
  }

  lemma NextFieldKeepsHeaders(h: HeapState, blocks: Blocks, free: seq<nat>, b: nat)
    requires HeapInv(h, blocks, free) && b in blocks
    ensures Headers(h.words[b + 16 := h.freeList], blocks)
  {
    hide HeapInv, Disjoint;
    InvDisjoint(h, blocks, free);
    InvHeaders(h, blocks, free);
    forall c | c in blocks ensures Header(h.words[b + 16 := h.freeList], c, blocks[c].size) {
      assert Header(h.words, c, blocks[c].size);
      if c != b {
        HeadersApart(blocks, b, c);
        HeadersApart(blocks, c, b);
      }
    }
  }

  lemma InvHeaders(h: HeapState, blocks: Blocks, free: seq<nat>)
    requires HeapInv(h, blocks, free)
    ensures Headers(h.words, blocks)
  {
  }

  lemma ReleaseKeepsLive(h: HeapState, blocks: Blocks, free: seq<nat>, b: nat, c: nat)
    requires HeapInv(h, blocks, free) && Live(blocks, free, b) && Live(blocks, free, c) && b != c
    ensures b < WORD_LIMIT && SameBlock(h.words, Release(h, b).words, blocks, c) && Live(blocks, [b] + free, c)
  {
    hide HeapInv;
    HeaderInHeap(h, blocks, free, b);
    InvDisjoint(h, blocks, free);
  }

  // ----- stores by the owner of a block

  lemma PayloadWrite(h: HeapState, blocks: Blocks, free: seq<nat>, b: nat, a: nat, w: Word)
    requires HeapInv(h, blocks, free) && b in blocks && b + HEADER <= a < EndOf(blocks, b) && a in h.words
    ensures HeapInv(h.(words := h.words[a := w]), blocks, free)
  {
    hide Tiled, Domain, Distinct;
    InvDisjoint(h, blocks, free);
    var n := h.words[a := w];
    DomainBySize(h, h.(words := n));
    forall c | c in blocks ensures Header(n, c, blocks[c].size) && n[c + 16] == h.words[c + 16] {
      HeaderIsNotPayload(blocks, b, a, c);
      assert Header(h.words, c, blocks[c].size);
    }
    forall k: nat | k < |free| ensures Linked(n, blocks, free, k) {
      assert Linked(h.words, blocks, free, k);
    }
  }

  lemma HeaderIsNotPayload(blocks: Blocks, b: nat, a: nat, c: nat)
    requires Disjoint(blocks) && b in blocks && c in blocks && b + HEADER <= a < EndOf(blocks, b)
    ensures a < c || c + HEADER <= a
  {
    if c != b {
      HeadersApart(blocks, b, c);
    }
  }
}
