/** kmalloc, kfree and krealloc as they run on the heap's words (heap.c). */
module Heaps {
  import opened Lists
  import opened Words
  import opened HeapBlocks
  import opened HeapMoves

  lemma EmptyHeap()
    ensures HeapInv(HeapState(map[], 0, HEAP_START), map[], [])
  {
    Alignment(HEAP_START, 0);
  }

  function ExpandTimes(h: HeapState, leftover: nat -> Word, n: nat): (t: HeapState)
    requires h.top + n * PAGE_SIZE <= WORD_LIMIT
    ensures t.top == h.top + n * PAGE_SIZE
  {
    if n == 0 then h else Expand(ExpandTimes(h, leftover, n - 1), leftover)
  }

  function ExpandBlocksTimes(blocks: Blocks, top: nat, n: nat): Blocks {
    if n == 0 then blocks else ExpandBlocks(ExpandBlocksTimes(blocks, top, n - 1), top + (n - 1) * PAGE_SIZE)
  }

  function ExpandFreeTimes(free: seq<nat>, top: nat, n: nat): seq<nat> {
    if n == 0 then free else [top + (n - 1) * PAGE_SIZE] + ExpandFreeTimes(free, top, n - 1)
  }

  /** Every block in use before, except possibly one, is in use afterwards with the same size and words. */
  ghost predicate Undisturbed(m: Store, blocks: Blocks, free: seq<nat>, n: Store, after: Blocks, freeAfter: seq<nat>,
                              except: set<nat>) {
    forall c :: Live(blocks, free, c) && c !in except ==>
      c in after && after[c] == blocks[c] && Live(after, freeAfter, c) && SameBlock(m, n, blocks, c)
  }

  ghost predicate InBlocks(blocks: Blocks, free: seq<nat>) {
    forall j :: 0 <= j < |free| ==> free[j] in blocks
  }

  /** Does the first-fit search for `size` bytes succeed? */
  ghost predicate Fits(blocks: Blocks, free: seq<nat>, size: nat)
    requires InBlocks(blocks, free)
  {
    FirstFit(blocks, free, size) < |free|
  }

  lemma InvInBlocks(h: HeapState, blocks: Blocks, free: seq<nat>)
    requires HeapInv(h, blocks, free)
    ensures InBlocks(blocks, free)
  {
    hide Domain, Tiled, Headers;
    forall j: nat | j < |free| ensures free[j] in blocks {
      assert Linked(h.words, blocks, free, j);
    }
  }

  /** A fresh page satisfies every request that a page can satisfy. */
  lemma FreshPageFits(h: HeapState, blocks: Blocks, free: seq<nat>, size: nat)
    requires CanExpand(h, blocks, free) && size <= PAGE_PAYLOAD
    ensures InBlocks(ExpandBlocks(blocks, h.top), [h.top] + free)
    ensures FirstFit(ExpandBlocks(blocks, h.top), [h.top] + free, size) == 0
  {
    hide HeapInv;
    InvInBlocks(h, blocks, free);
  }

  /** A request that rounds to more than 4072 bytes fits in no reachable heap, however often it is expanded. */
  lemma LargeRequestNeverFits(h: HeapState, blocks: Blocks, free: seq<nat>, size: nat)
    requires HeapInv(h, blocks, free) && size > PAGE_PAYLOAD
    ensures InBlocks(blocks, free) && !Fits(blocks, free, size)
  {
    hide Domain, Headers, FreeChain, Tiled;
    InvInBlocks(h, blocks, free);
    var k := FirstFit(blocks, free, size);
    if k < |free| {
      BlocksAreSmall(blocks, h.top, free[k]);
    }
  }

  lemma {:induction false} ExpandTimesKeepInv(h: HeapState, blocks: Blocks, free: seq<nat>, leftover: nat -> Word,
                                              n: nat)
    requires HeapInv(h, blocks, free) && h.top + n * PAGE_SIZE <= WORD_LIMIT
    ensures HeapInv(ExpandTimes(h, leftover, n), ExpandBlocksTimes(blocks, h.top, n), ExpandFreeTimes(free, h.top, n))
  {
    hide HeapInv, Expand, ExpandBlocks;
    if n > 0 {
      ExpandTimesKeepInv(h, blocks, free, leftover, n - 1);
      ExpandKeepsInv(ExpandTimes(h, leftover, n - 1), ExpandBlocksTimes(blocks, h.top, n - 1),
                     ExpandFreeTimes(free, h.top, n - 1), leftover);
    }
  }

  /** Does the search succeed once the heap has grown by n pages? */
  ghost predicate FitsAfter(blocks: Blocks, free: seq<nat>, top: nat, n: nat, size: nat) {
    var bs, fs := ExpandBlocksTimes(blocks, top, n), ExpandFreeTimes(free, top, n);
    InBlocks(bs, fs) && Fits(bs, fs, size)
  }

  /** However often kmalloc expands the heap and tries again: some try succeeds exactly when the rounded size is at
      most 4072. */
  lemma KmallocReturnsExactly(h: HeapState, blocks: Blocks, free: seq<nat>, leftover: nat -> Word, size: nat)
    requires CanExpand(h, blocks, free)
    ensures size <= PAGE_PAYLOAD
            <==> exists n: nat :: h.top + n * PAGE_SIZE <= WORD_LIMIT && FitsAfter(blocks, free, h.top, n, size)
  {
    hide HeapInv, Expand, ExpandBlocks, Fits;
    if size <= PAGE_PAYLOAD {
      FreshPageFits(h, blocks, free, size);
      ExpandOnce(h, leftover);
      FirstFits(ExpandBlocks(blocks, h.top), [h.top] + free, size);
      assert h.top + 1 * PAGE_SIZE <= WORD_LIMIT && FitsAfter(blocks, free, h.top, 1, size);
    } else {
      forall n: nat | h.top + n * PAGE_SIZE <= WORD_LIMIT ensures !FitsAfter(blocks, free, h.top, n, size) {
        ExpandTimesKeepInv(h, blocks, free, leftover, n);
        LargeRequestNeverFits(ExpandTimes(h, leftover, n), ExpandBlocksTimes(blocks, h.top, n),
                              ExpandFreeTimes(free, h.top, n), size);
      }
    }
  }

  lemma FirstFits(blocks: Blocks, free: seq<nat>, size: nat)
    requires InBlocks(blocks, free) && free != [] && FirstFit(blocks, free, size) == 0
    ensures Fits(blocks, free, size)
  {
  }

  /** Rounding keeps a request from shrinking, unless it is within 15 bytes of 2^64 and wraps to 0. */
  lemma RoundingIsEnough(size: Word)
    ensures Round16(size) >= size <==> size == 0 || size <= WORD_LIMIT - 16
    ensures size <= WORD_LIMIT - 16 ==> size <= Round16(size) < size + 16
    ensures size > WORD_LIMIT - 16 ==> Round16(size) == 0
    ensures Round16(size) % 16 == 0
  {
  }

  /** First fit took its block from state h, leaving t, and returned the block's payload. */
  ghost predicate Took(h: HeapState, blocks: Blocks, free: seq<nat>, t: HeapState, after: Blocks, freeAfter: seq<nat>,
                       size: Word, ptr: nat)
    requires InBlocks(blocks, free)
  {
    var k := FirstFit(blocks, free, size);
    && k < |free| && free[k] + 16 in h.words && EndOf(blocks, free[k]) <= WORD_LIMIT
    && t == Take(h, blocks, free, k, size)
    && after == TakeBlocks(blocks, free[k], size) && freeAfter == TakeFree(blocks, free, k, size)
    && ptr == free[k] + HEADER
  }

  lemma BlockAddress(h: HeapState, blocks: Blocks, free: seq<nat>, b: nat)
    requires HeapInv(h, blocks, free) && b in blocks
    ensures HEAP_START <= b && Header(h.words, b, blocks[b].size) && blocks[b].size % 8 == 0
            && EndOf(blocks, b) <= h.top <= WORD_LIMIT
  {
    hide Disjoint, Gapless, FreeChain;
    assert Placed(h.top, b, blocks[b]);
  }

  /** The search goes past a block only when it is too small. */
  lemma SearchGoesOn(h: HeapState, blocks: Blocks, free: seq<nat>, k: nat, size: nat)
    requires HeapInv(h, blocks, free) && InBlocks(blocks, free) && k < |free| && k <= FirstFit(blocks, free, size)
    ensures free[k] in blocks && (blocks[free[k]].size < size <==> k < FirstFit(blocks, free, size))
    ensures k + 1 < |free| ==> free[k + 1] != 0
    ensures free[k] != 0
  {
    hide HeapInv;
    BlockAddress(h, blocks, free, free[k]);
    if k + 1 < |free| {
      BlockAddress(h, blocks, free, free[k + 1]);
    }
  }

  // ----- payloads

  /** The first `size` bytes behind `to` in store n are those behind `from` in store m, word by word. */
  ghost predicate Copied(m: Store, n: Store, to: nat, from: nat, size: nat) {
    forall o: nat :: o < size && WordAligned(o) ==> from + o in m && to + o in n && n[to + o] == m[from + o]
  }

  lemma PayloadAddress(h: HeapState, blocks: Blocks, free: seq<nat>, b: nat, o: nat)
    requires HeapInv(h, blocks, free) && b in blocks && WordAligned(o) && o < blocks[b].size
    ensures b + HEADER + o in h.words
  {
    hide HeapInv, WordAligned;
    Alignment(HEADER, o);
    InsideBlock(h, blocks, free, b, HEADER + o);
  }

  /** Words of one block are not in the payload of another. */
  lemma PayloadsApart(h: HeapState, blocks: Blocks, free: seq<nat>, b: nat, c: nat, o: nat)
    requires HeapInv(h, blocks, free) && b in blocks && c in blocks && b != c && o < blocks[c].size
    ensures c + HEADER + o < b || EndOf(blocks, b) <= c + HEADER + o
  {
    hide Domain, Headers, FreeChain, AllPlaced, Gapless;
  }

  lemma NextWord(o: nat, size: nat)
    requires WordAligned(o) && WordAligned(size) && o < size
    ensures o + 8 <= size && WordAligned(o + 8)
    ensures forall x: nat :: WordAligned(x) && x < o + 8 ==> x < o || x == o
  {
  }

  lemma SizeAligned(h: HeapState, blocks: Blocks, free: seq<nat>, b: nat)
    requires HeapInv(h, blocks, free) && b in blocks
    ensures WordAligned(blocks[b].size)
  {
    hide Disjoint, Gapless, Headers, FreeChain, WordAligned, PageAligned;
    assert Placed(h.top, b, blocks[b]);
  }

  /** A change confined to the payload of block b leaves block c alone. */
  lemma OtherPayload(m: Store, n: Store, blocks: Blocks, b: nat, c: nat, size: nat)
    requires Disjoint(blocks) && b in blocks && c in blocks && b != c && size <= blocks[b].size
    requires n.Keys == m.Keys && forall a :: a in n && !(b + HEADER <= a < b + HEADER + size) ==> n[a] == m[a]
    ensures SameBlock(m, n, blocks, c)
  {
  }

  lemma CopyIsUndisturbed(m: Store, n: Store, blocks: Blocks, free: seq<nat>, b: nat, size: nat)
    requires Disjoint(blocks) && b in blocks && size <= blocks[b].size
    requires n.Keys == m.Keys && forall a :: a in n && !(b + HEADER <= a < b + HEADER + size) ==> n[a] == m[a]
    ensures Undisturbed(m, blocks, free, n, blocks, free, {b})
  {
    hide Disjoint, SameBlock;
    forall c | Live(blocks, free, c) && c != b ensures SameBlock(m, n, blocks, c) {
      OtherPayload(m, n, blocks, b, c, size);
    }
  }

  /** A copy made in between is a copy from beginning to end when both blocks are left alone around it. */
  lemma CopiedThrough(l: Store, m: Store, n: Store, f: Store, blocks: Blocks, after: Blocks, to: nat, from: nat,
                      size: nat)
    requires to in after && from in blocks && size <= after[to].size && size <= blocks[from].size
    requires SameBlock(l, m, blocks, from) && SameBlock(n, f, after, to)
    requires Copied(m, n, to + HEADER, from + HEADER, size)
    requires forall o: nat :: o < size && WordAligned(o) ==> from + HEADER + o in l
    ensures Copied(l, f, to + HEADER, from + HEADER, size)
  {
    hide WordAligned;
  }

  lemma PayloadIn(h: HeapState, blocks: Blocks, free: seq<nat>, b: nat)
    requires HeapInv(h, blocks, free) && b in blocks
    ensures forall o: nat :: o < blocks[b].size && WordAligned(o) ==> b + HEADER + o in h.words
  {
    hide HeapInv, WordAligned;
    forall o: nat | o < blocks[b].size && WordAligned(o) ensures b + HEADER + o in h.words {
      PayloadAddress(h, blocks, free, b, o);
    }
  }

  lemma SameBlockTrans(l: Store, m: Store, n: Store, blocks: Blocks, b: nat)
    requires b in blocks && SameBlock(l, m, blocks, b) && SameBlock(m, n, blocks, b)
    ensures SameBlock(l, n, blocks, b)
  {
  }

  lemma SameBlockSame(m: Store, n: Store, blocks: Blocks, after: Blocks, b: nat)
    requires b in blocks && b in after && after[b] == blocks[b]
    ensures SameBlock(m, n, blocks, b) == SameBlock(m, n, after, b)
  {
  }

  // ----- what kmalloc leaves alone, and what it returns

  lemma TookIsUndisturbed(h: HeapState, blocks: Blocks, free: seq<nat>, t: HeapState, after: Blocks,
                          freeAfter: seq<nat>, size: Word, ptr: nat)
    requires HeapInv(h, blocks, free) && InBlocks(blocks, free) && size % 16 == 0
    requires Took(h, blocks, free, t, after, freeAfter, size, ptr)
    ensures Undisturbed(h.words, blocks, free, t.words, after, freeAfter, {})
    ensures ptr >= HEADER && Live(after, freeAfter, ptr - HEADER) && after[ptr - HEADER].size >= size
            && !Live(blocks, free, ptr - HEADER)
  {
    hide HeapInv, Take, TakeBlocks, TakeFree, SameBlock;
    var k := FirstFit(blocks, free, size);
    TakenIsLive(h, blocks, free, k, size);
    forall c | Live(blocks, free, c)
      ensures c in after && after[c] == blocks[c] && Live(after, freeAfter, c) && SameBlock(h.words, t.words, blocks, c)
    {
      TakeKeepsLive(h, blocks, free, k, size, c);
    }
  }

  lemma ExpandIsUndisturbed(h: HeapState, blocks: Blocks, free: seq<nat>, leftover: nat -> Word)
    requires CanExpand(h, blocks, free)
    ensures Undisturbed(h.words, blocks, free, Expand(h, leftover).words, ExpandBlocks(blocks, h.top), [h.top] + free,
                        {})
  {
    hide HeapInv, Expand, ExpandBlocks, SameBlock;
    forall c | Live(blocks, free, c)
      ensures c in ExpandBlocks(blocks, h.top) && ExpandBlocks(blocks, h.top)[c] == blocks[c]
           && Live(ExpandBlocks(blocks, h.top), [h.top] + free, c)
           && SameBlock(h.words, Expand(h, leftover).words, blocks, c)
    {
      ExpandKeepsLive(h, blocks, free, leftover, c);
    }
  }

  lemma UndisturbedTrans(l: Store, b0: Blocks, f0: seq<nat>, m: Store, b1: Blocks, f1: seq<nat>, n: Store, b2: Blocks,
                         f2: seq<nat>,
                         first: set<nat>, second: set<nat>, except: set<nat>)
    requires Undisturbed(l, b0, f0, m, b1, f1, first) && Undisturbed(m, b1, f1, n, b2, f2, second)
    requires forall c :: Live(b0, f0, c) && c !in except ==> c !in first && c !in second
    ensures Undisturbed(l, b0, f0, n, b2, f2, except)
  {
    hide SameBlock, Live;
    forall c | Live(b0, f0, c) && c !in except
      ensures c in b0 && c in b2 && b2[c] == b0[c] && Live(b2, f2, c) && SameBlock(l, n, b0, c)
    {
      LiveIsBlock(b0, f0, c);
      SameBlockSame(m, n, b0, b1, c);
      SameBlockTrans(l, m, n, b0, c);
    }
  }

  lemma LiveIsBlock(blocks: Blocks, free: seq<nat>, c: nat)
    requires Live(blocks, free, c)
    ensures c in blocks
  {
  }

  /** kmalloc changes no word of a block in use, whether or not it has to expand the heap. */
  lemma ServedIsUndisturbed(h: HeapState, blocks: Blocks, free: seq<nat>, t: HeapState, after: Blocks,
                            freeAfter: seq<nat>,
                            size: Word, leftover: nat -> Word, ptr: nat)
    requires CanExpand(h, blocks, free) && size % 16 == 0
    requires Served(h, blocks, free, t, after, freeAfter, size, leftover, ptr)
    ensures Undisturbed(h.words, blocks, free, t.words, after, freeAfter, {})
  {
    hide HeapInv, Undisturbed, Took, Expand, ExpandBlocks, FirstFit;
    if Fits(blocks, free, size) {
      TookIsUndisturbed(h, blocks, free, t, after, freeAfter, size, ptr);
    } else {
      var e, expanded, list := Expand(h, leftover), ExpandBlocks(blocks, h.top), [h.top] + free;
      ExpandIsUndisturbed(h, blocks, free, leftover);
      ExpandKeepsInv(h, blocks, free, leftover);
      if size != 0 {
        TookIsUndisturbed(e, expanded, list, t, after, freeAfter, size, ptr);
        UndisturbedTrans(h.words, blocks, free, e.words, expanded, list, t.words, after, freeAfter, {}, {}, {});
      }
    }
  }

  /** kmalloc returns a block that was not in use, of at least the rounded size. */
  lemma ServedIsLive(h: HeapState, blocks: Blocks, free: seq<nat>, t: HeapState, after: Blocks, freeAfter: seq<nat>,
                     size: Word, leftover: nat -> Word, ptr: nat)
    requires CanExpand(h, blocks, free) && size % 16 == 0 && size != 0
    requires Served(h, blocks, free, t, after, freeAfter, size, leftover, ptr)
    ensures ptr >= HEADER && Live(after, freeAfter, ptr - HEADER) && after[ptr - HEADER].size >= size
    ensures !Live(blocks, free, ptr - HEADER)
  {
    hide HeapInv, Undisturbed, Took, Expand, ExpandBlocks, FirstFit, Live;
    if Fits(blocks, free, size) {
      TookIsUndisturbed(h, blocks, free, t, after, freeAfter, size, ptr);
    } else {
      ExpandKeepsInv(h, blocks, free, leftover);
      TookIsUndisturbed(Expand(h, leftover), ExpandBlocks(blocks, h.top), [h.top] + free, t, after, freeAfter, size,
                        ptr);
      NotLiveBefore(h, blocks, free, leftover, ptr - HEADER);
    }
  }

  /** ... and wastes little: the block holds less than a header and 16 bytes more than asked for, and what is cut off is
      a block of at least 16 bytes. */
  lemma ServedIsTight(h: HeapState, blocks: Blocks, free: seq<nat>, t: HeapState, after: Blocks, freeAfter: seq<nat>,
                      size: Word, leftover: nat -> Word, ptr: nat)
    requires CanExpand(h, blocks, free) && size != 0
    requires Served(h, blocks, free, t, after, freeAfter, size, leftover, ptr)
    ensures ptr >= HEADER && ptr - HEADER in after && after[ptr - HEADER].size < size + HEADER + 16
    ensures forall b :: b in after && b !in blocks && b != h.top ==> after[b].size >= 16
  {
    hide HeapInv, Took, Expand, FirstFit;
    if Fits(blocks, free, size) {
      TookIsTight(h, blocks, free, t, after, freeAfter, size, ptr);
    } else {
      TookIsTight(Expand(h, leftover), ExpandBlocks(blocks, h.top), [h.top] + free, t, after, freeAfter, size, ptr);
    }
  }

  lemma TookIsTight(h: HeapState, blocks: Blocks, free: seq<nat>, t: HeapState, after: Blocks, freeAfter: seq<nat>,
                    size: Word, ptr: nat)
    requires InBlocks(blocks, free) && Took(h, blocks, free, t, after, freeAfter, size, ptr)
    ensures ptr >= HEADER && ptr - HEADER in after && after[ptr - HEADER].size < size + HEADER + 16
    ensures forall b :: b in after && b !in blocks ==> after[b].size >= 16
  {
    hide Take;
  }

  /** ... and hands out that block alone: nothing else comes into use and nothing is lost. */
  lemma ServedHandsOut(h: HeapState, blocks: Blocks, free: seq<nat>, t: HeapState, after: Blocks, freeAfter: seq<nat>,
                       size: Word, leftover: nat -> Word, ptr: nat, c: nat)
    requires CanExpand(h, blocks, free) && size % 16 == 0
    requires Served(h, blocks, free, t, after, freeAfter, size, leftover, ptr)
    ensures ptr == 0 || ptr >= HEADER
    ensures Live(after, freeAfter, c) <==> Live(blocks, free, c) || (ptr != 0 && c == ptr - HEADER)
  {
    hide HeapInv, Took, Expand, ExpandBlocks, FirstFit, Live;
    if Fits(blocks, free, size) {
      TookHandsOut(h, blocks, free, t, after, freeAfter, size, ptr, c);
    } else {
      ExpandHandsOut(h, blocks, free, leftover, c);
      ExpandKeepsInv(h, blocks, free, leftover);
      if size != 0 {
        TookHandsOut(Expand(h, leftover), ExpandBlocks(blocks, h.top), [h.top] + free, t, after, freeAfter, size, ptr,
                     c);
      }
    }
  }

  lemma TookHandsOut(h: HeapState, blocks: Blocks, free: seq<nat>, t: HeapState, after: Blocks, freeAfter: seq<nat>,
                     size: Word, ptr: nat, c: nat)
    requires HeapInv(h, blocks, free) && InBlocks(blocks, free) && size % 16 == 0
    requires Took(h, blocks, free, t, after, freeAfter, size, ptr)
    ensures ptr >= HEADER && (Live(after, freeAfter, c) <==> Live(blocks, free, c) || c == ptr - HEADER)
  {
    hide HeapInv, Take, TakeBlocks, TakeFree, Live;
    TakeHandsOut(h, blocks, free, FirstFit(blocks, free, size), size, c);
  }

  lemma NotLiveBefore(h: HeapState, blocks: Blocks, free: seq<nat>, leftover: nat -> Word, b: nat)
    requires CanExpand(h, blocks, free) && !Live(ExpandBlocks(blocks, h.top), [h.top] + free, b)
    ensures !Live(blocks, free, b)
  {
    hide HeapInv, ExpandBlocks, Expand;
    if Live(blocks, free, b) {
      ExpandKeepsLive(h, blocks, free, leftover, b);
    }
  }

  lemma ReleaseKeepsOthers(h: HeapState, blocks: Blocks, free: seq<nat>, b: nat)
    requires HeapInv(h, blocks, free) && Live(blocks, free, b)
    ensures b < WORD_LIMIT && Undisturbed(h.words, blocks, free, Release(h, b).words, blocks, [b] + free, {b})
  {
    hide HeapInv, SameBlock, Release;
    BlockAddress(h, blocks, free, b);
    forall c | Live(blocks, free, c) && c != b
      ensures Live(blocks, [b] + free, c) && SameBlock(h.words, Release(h, b).words, blocks, c)
    {
      ReleaseKeepsLive(h, blocks, free, b, c);
    }
  }

  /** What TakeBlock reads, and the head of the list it leaves. */
  lemma TakeHeads(h: HeapState, blocks: Blocks, free: seq<nat>, k: nat, size: Word)
    requires CanTake(h, blocks, free, k, size)
    ensures free[k] in blocks && free[k] + 8 in h.words && free[k] + 16 in h.words
            && EndOf(blocks, free[k]) <= WORD_LIMIT
    ensures h.words[free[k] + 8] == blocks[free[k]].size && h.words[free[k] + 16] == Next(free, k)
    ensures k > 0 ==> free[k - 1] != 0 && free[k - 1] + 16 in h.words && free[k - 1] != free[k]
    ensures h.freeList == Head(free)
    ensures Splits(blocks[free[k]], size) ==>
              free[k] + 16 in SplitWords(h.words, free[k], size, blocks[free[k]].size - size - HEADER)
              && SplitWords(h.words, free[k], size, blocks[free[k]].size - size - HEADER)[free[k] + 16]
                   == free[k] + HEADER + size
    ensures Head(TakeFree(blocks, free, k, size)) % WORD_LIMIT ==
            if k > 0 then h.freeList else if Splits(blocks[free[k]], size) then free[k] + HEADER + size
                                          else Next(free, k)
  {
    hide HeapInv, SplitWords;
    BlockAddress(h, blocks, free, free[k]);
    LinkFacts(h, blocks, free, k);
    ListFacts(h, blocks, free);
    HeadIsWord(h, blocks, free, k, size);
    if k > 0 {
      BlockAddress(h, blocks, free, free[k - 1]);
    }
    if Splits(blocks[free[k]], size) {
      SplitValues(h.words, free[k], size, blocks[free[k]].size - size - HEADER);
    }
  }

  /** The blocks handed out are exactly those off the free list. */
  ghost predicate Owned(blocks: Blocks, free: seq<nat>, live: set<nat>) {
    forall c :: c in live <==> Live(blocks, free, c)
  }

  /** The block whose payload the pointer is; none for the null pointer. */
  function BlockOf(ptr: nat): set<nat> {
    if ptr >= HEADER then {ptr - HEADER} else {}
  }

  /** The block of the pointer is handed out, and was not before. */
  ghost predicate HandedOut(before: set<nat>, after: set<nat>, ptr: nat) {
    ptr >= HEADER && ptr - HEADER !in before && after == before + {ptr - HEADER}
  }

  /** Every block is either handed out or on the free list, never both. */
  lemma OwnedOrFree(h: HeapState, blocks: Blocks, free: seq<nat>, live: set<nat>)
    requires HeapInv(h, blocks, free) && Owned(blocks, free, live)
    ensures forall b :: b in blocks <==> b in live || b in free
    ensures forall b :: !(b in live && b in free)
  {
    hide HeapInv;
    InvInBlocks(h, blocks, free);
  }

  lemma OwnedExpand(h: HeapState, blocks: Blocks, free: seq<nat>, leftover: nat -> Word, live: set<nat>)
    requires CanExpand(h, blocks, free) && Owned(blocks, free, live)
    ensures Owned(ExpandBlocks(blocks, h.top), [h.top] + free, live)
  {
    hide HeapInv, Live, ExpandBlocks;
    forall c ensures Live(ExpandBlocks(blocks, h.top), [h.top] + free, c) <==> Live(blocks, free, c) {
      ExpandHandsOut(h, blocks, free, leftover, c);
    }
  }

  lemma OwnedTake(h: HeapState, blocks: Blocks, free: seq<nat>, k: nat, size: Word, live: set<nat>)
    requires CanTake(h, blocks, free, k, size) && Owned(blocks, free, live)
    ensures free[k] in blocks && free[k] !in live
    ensures Owned(TakeBlocks(blocks, free[k], size), TakeFree(blocks, free, k, size), live + {free[k]})
  {
    hide HeapInv, TakeBlocks, TakeFree;
    forall c
      ensures Live(TakeBlocks(blocks, free[k], size), TakeFree(blocks, free, k, size), c)
              <==> Live(blocks, free, c) || c == free[k] {
      TakeHandsOut(h, blocks, free, k, size, c);
    }
  }

  class Heap {
    var words: Store
    var freeList: Word
    var heapTop: nat
    ghost var blocks: Blocks
    ghost var free: seq<nat>
    /** The blocks handed out and not given back. */
    ghost var live: set<nat>

    ghost function State(): HeapState
      reads this
    {
      HeapState(words, freeList, heapTop)
    }

    ghost predicate Valid()
      reads this
    {
      HeapInv(State(), blocks, free) && Owned(blocks, free, live)
    }

    constructor ()
      ensures Valid() && State() == HeapState(map[], 0, HEAP_START) && blocks == map[] && free == [] && live == {}
    {
      words, freeList, heapTop := map[], 0, HEAP_START;
      blocks, free, live := map[], [], {};
      EmptyHeap();
    }

    /** Maps one fresh page at the top; it becomes one free block in front of the list. */
    method AddPage(leftover: nat -> Word)
      requires Valid() && heapTop + PAGE_SIZE <= WORD_LIMIT
      modifies this`words, this`freeList, this`heapTop, this`blocks, this`free
      ensures Valid() && State() == Expand(old(State()), leftover)
      ensures blocks == ExpandBlocks(old(blocks), old(heapTop)) && free == [old(heapTop)] + old(free)
    {
      hide HeapInv, PageAt, Owned, ExpandBlocks;
      ExpandKeepsInv(State(), blocks, free, leftover);
      OwnedExpand(State(), blocks, free, leftover, live);
      var blk := heapTop;
      words := words + PageAt(blk, leftover);
      words := words[blk := HEAP_MAGIC];
      words := words[blk + 8 := PAGE_PAYLOAD];
      words := words[blk + 16 := freeList];
      freeList := blk;
      heapTop := heapTop + PAGE_SIZE;
      blocks, free := ExpandBlocks(blocks, blk), [blk] + free;
    }

    /** Maps fresh pages at the top, one block each. */
    method HeapExpand(pages: nat, leftover: nat -> Word)
      requires Valid() && heapTop + pages * PAGE_SIZE <= WORD_LIMIT
      modifies this`words, this`freeList, this`heapTop, this`blocks, this`free
      ensures Valid()
      ensures State() == ExpandTimes(old(State()), leftover, pages)
      ensures blocks == ExpandBlocksTimes(old(blocks), old(heapTop), pages)
      ensures free == ExpandFreeTimes(old(free), old(heapTop), pages)
    {
      hide HeapInv, Expand, ExpandBlocks, Owned;
      for i := 0 to pages
        invariant Valid()
        invariant State() == ExpandTimes(old(State()), leftover, i)
        invariant blocks == ExpandBlocksTimes(old(blocks), old(heapTop), i)
        invariant free == ExpandFreeTimes(old(free), old(heapTop), i)
      {
        AddPage(leftover);
      }
    }

    /** Cuts the block after `size` bytes and puts the rest behind it on the list. */
    method SplitBlock(size: Word, cur: nat)
      requires cur + 16 in words && cur + 8 in words && words[cur + 8] >= size + HEADER + 16
               && cur + HEADER + size < WORD_LIMIT
      modifies this`words
      ensures cur + 16 in old(words) && cur + 8 in old(words)
      ensures words == SplitWords(old(words), cur, size, old(words[cur + 8]) - size - HEADER)
    {
      var split := cur + HEADER + size;
      words := words[split := HEAP_MAGIC];
      words := words[split + 8 := words[cur + 8] - size - HEADER];
      words := words[split + 16 := words[cur + 16]];
      words := words[cur + 8 := size];
      words := words[cur + 16 := split];
    }

    /** Splits the block when the rest can hold a header and 16 bytes, and takes it off the list. */
    method TakeBlock(size: Word, prev: nat, cur: nat, ghost k: nat)
      requires Valid() && CanTake(State(), blocks, free, k, size)
      requires cur == free[k] && prev == (if k == 0 then 0 else free[k - 1])
      modifies this
      ensures Valid() && free == TakeFree(old(blocks), old(free), k, size)
      ensures blocks == TakeBlocks(old(blocks), cur, size) && cur !in old(live) && live == old(live) + {cur}
      ensures cur + 16 in old(words) && EndOf(old(blocks), cur) <= WORD_LIMIT
      ensures State() == Take(old(State()), old(blocks), old(free), k, size)
    {
      hide HeapInv, SplitWords, TakeBlocks, Owned;
      ghost var h, oldBlocks, oldFree := State(), blocks, free;
      TakeKeepsInv(h, blocks, free, k, size);
      OwnedTake(h, blocks, free, k, size, live);
      TakeHeads(h, blocks, free, k, size);
      if words[cur + 8] >= size + HEADER + 16 {
        SplitBlock(size, cur);
      }
      if prev != 0 {
        words := words[prev + 16 := words[cur + 16]];
      } else {
        freeList := words[cur + 16];
      }
      words := words[cur + 16 := 0];
      blocks, free := TakeBlocks(oldBlocks, cur, size), TakeFree(oldBlocks, oldFree, k, size);
      live := live + {cur};
    }

    /** One pass of the search: the payload of the first block that fits, or 0 and no change. */
    method Search(size: Word) returns (ptr: nat)
      requires Valid() && size % 16 == 0
      modifies this
      ensures Valid() && InBlocks(old(blocks), old(free))
      ensures ptr == 0 <==> !Fits(old(blocks), old(free), size)
      ensures ptr == 0 ==> State() == old(State()) && blocks == old(blocks) && free == old(free) && live == old(live)
      ensures ptr != 0 ==>
                Took(old(State()), old(blocks), old(free), State(), blocks, free, size, ptr)
                && HandedOut(old(live), live, ptr)
    {
      hide HeapInv, TakeWords, Owned;
      InvInBlocks(State(), blocks, free);
      ListFacts(State(), blocks, free);
      var prev, cur: nat := 0, freeList;
      ghost var k := 0;
      if free != [] {
        SearchGoesOn(State(), blocks, free, 0, size);
      }
      while cur != 0
        invariant 0 <= k <= |free| && cur == (if k < |free| then free[k] else 0)
        invariant prev == (if k == 0 then 0 else free[k - 1])
        invariant State() == old(State()) && blocks == old(blocks) && free == old(free) && live == old(live)
        invariant k <= FirstFit(blocks, free, size) && (k < |free| ==> free[k] != 0)
        decreases |free| - k
      {
        LinkFacts(State(), blocks, free, k);
        BlockAddress(State(), blocks, free, cur);
        SearchGoesOn(State(), blocks, free, k, size);
        if words[cur + 8] >= size {
          TakeBlock(size, prev, cur, k);
          return cur + HEADER;
        }
        prev := cur;
        cur := words[cur + 16];
        k := k + 1;
      }
      ptr := 0;
    }

    /**
     Returns a block of at least Round16(size) bytes after at most one expansion. A request that rounds to more
     than 4072 bytes would expand for ever (LargeRequestNeverFits), so it is not a request this method can take.
     */
    method Kmalloc(size: Word, leftover: nat -> Word) returns (ptr: nat)
      requires Valid() && Round16(size) <= PAGE_PAYLOAD && heapTop + PAGE_SIZE <= WORD_LIMIT
      modifies this
      ensures Valid()
      ensures size == 0 ==> ptr == 0 && State() == old(State()) && blocks == old(blocks) && free == old(free)
      ensures if ptr == 0 then live == old(live) else HandedOut(old(live), live, ptr)
      ensures size != 0 ==>
                Served(old(State()), old(blocks), old(free), State(), blocks, free, Round16(size), leftover, ptr)
    {
      hide HeapInv, Took, Expand, ExpandBlocks, Owned, HandedOut;
      if size == 0 {
        return 0;
      }
      var rounded := Round16(size);
      ptr := Search(rounded);
      if ptr != 0 {
        return;
      }
      ghost var h, bs, fs := State(), blocks, free;
      ExpandOnce(h, leftover);
      HeapExpand((rounded + HEADER + 0xFFF) / 0x1000, leftover);
      if rounded == 0 {
        return 0;
      }
      FreshPageFits(h, bs, fs, rounded);
      ptr := Search(rounded);
    }

    /** Puts the block of the pointer in front of the free list; the caller may pass 0 or a block it owns. */
    method Kfree(ptr: nat)
      requires Valid() && (ptr != 0 ==> ptr >= HEADER && ptr - HEADER in live)
      modifies this
      ensures Valid() && blocks == old(blocks)
      ensures live == if ptr == 0 then old(live) else old(live) - {ptr - HEADER}
      ensures ptr == 0 ==> State() == old(State()) && free == old(free)
      ensures ptr != 0 ==>
                ptr - HEADER < WORD_LIMIT && State() == Release(old(State()), ptr - HEADER)
                && free == [ptr - HEADER] + old(free)
    {
      hide HeapInv;
      if ptr == 0 {
        return;
      }
      var blk := ptr - HEADER;
      ReleaseKeepsInv(State(), blocks, free, blk);
      words := words[blk + 16 := freeList];
      freeList := blk;
      free := [blk] + free;
      live := live - {blk};
    }

    /** The owner of a block writes one of its payload words. */
    method Write(ptr: nat, offset: nat, w: Word)
      requires Valid() && ptr >= HEADER && ptr - HEADER in live
      requires WordAligned(offset) && offset < blocks[ptr - HEADER].size
      modifies this`words
      ensures Valid() && ptr + offset in old(words) && words == old(words)[ptr + offset := w]
    {
      hide HeapInv, WordAligned;
      PayloadAddress(State(), blocks, free, ptr - HEADER, offset);
      PayloadWrite(State(), blocks, free, ptr - HEADER, ptr + offset, w);
      words := words[ptr + offset := w];
    }

    /** memcpy of a whole payload, word by word, into the payload of another block. */
    method CopyPayload(to: nat, from: nat, size: nat)
      requires Valid() && to >= HEADER && from >= HEADER && to != from && WordAligned(size)
      requires to - HEADER in live && from - HEADER in live
      requires size <= blocks[to - HEADER].size && size <= blocks[from - HEADER].size
      modifies this`words
      ensures Valid() && words.Keys == old(words).Keys
      ensures Undisturbed(old(words), blocks, free, words, blocks, free, {to - HEADER})
      ensures Copied(old(words), words, to, from, size)
      ensures forall a :: a in words && !(to <= a < to + size) ==> words[a] == old(words)[a]
    {
      hide HeapInv, WordAligned;
      Alignment(0, 0);
      var o: nat := 0;
      while o < size
        invariant Valid() && WordAligned(o) && o <= size && words.Keys == old(words).Keys
        invariant Copied(old(words), words, to, from, o)
        invariant forall a :: a in words && !(to <= a < to + o) ==> words[a] == old(words)[a]
      {
        PayloadAddress(State(), blocks, free, from - HEADER, o);
        PayloadsApart(State(), blocks, free, to - HEADER, from - HEADER, o);
        NextWord(o, size);
        Write(to, o, words[from + o]);
        o := o + 8;
      }
      InvDisjoint(State(), blocks, free);
      CopyIsUndisturbed(old(words), words, blocks, free, to - HEADER, size);
    }

    /**
     Grows a block by moving it: the first old-size words of the new block are those of the old one, and the
     old block goes back to the list. A request that kmalloc can serve without wrapping, as for Kmalloc.
     */
    method Krealloc(ptr: nat, size: Word, leftover: nat -> Word) returns (p: nat)
      requires Valid() && (ptr != 0 ==> ptr >= HEADER && ptr - HEADER in live)
      requires size <= WORD_LIMIT - 16 && Round16(size) <= PAGE_PAYLOAD && heapTop + PAGE_SIZE <= WORD_LIMIT
      modifies this
      ensures Valid()
      ensures size == 0 ==> p == 0
      ensures ptr == 0 && size == 0 ==> State() == old(State()) && blocks == old(blocks) && free == old(free)
      ensures ptr == 0 && size != 0 ==>
                Served(old(State()), old(blocks), old(free), State(), blocks, free, Round16(size), leftover, p)
      ensures live == old(live) - BlockOf(ptr) + BlockOf(p) && (p != ptr ==> BlockOf(p) !! old(live))
      ensures ptr != 0 && size == 0 ==>
                ptr - HEADER < WORD_LIMIT && State() == Release(old(State()), ptr - HEADER)
                && blocks == old(blocks) && free == [ptr - HEADER] + old(free)
      ensures ptr != 0 && size != 0 && old(blocks)[ptr - HEADER].size >= size ==>
                p == ptr && State() == old(State()) && blocks == old(blocks) && free == old(free)
      ensures ptr != 0 && size != 0 && old(blocks)[ptr - HEADER].size < size ==>
                && p >= HEADER && p - HEADER in live && p - HEADER in blocks && blocks[p - HEADER].size >= size
                && Copied(old(words), words, p, ptr, old(blocks)[ptr - HEADER].size)
                && free != [] && free[0] == ptr - HEADER
                && Undisturbed(old(words), old(blocks), old(free), words, blocks, free, {ptr - HEADER})
    {
      hide HeapInv, Served, WordAligned, Release;
      if ptr == 0 {
        p := Kmalloc(size, leftover);
        return;
      }
      if size == 0 {
        Kfree(ptr);
        return 0;
      }
      var blk := ptr - HEADER;
      BlockAddress(State(), blocks, free, blk);
      if words[blk + 8] >= size {
        return ptr;
      }
      p := Move(ptr, size, leftover);
    }

    /** The last branch of krealloc: allocate, copy, free. The allocation cannot fail here, so neither does krealloc. */
    method Move(ptr: nat, size: Word, leftover: nat -> Word) returns (p: nat)
      requires Valid() && ptr >= HEADER && ptr - HEADER in live && blocks[ptr - HEADER].size < size
      requires size <= WORD_LIMIT - 16 && Round16(size) <= PAGE_PAYLOAD && heapTop + PAGE_SIZE <= WORD_LIMIT
      modifies this
      ensures Valid() && p >= HEADER && p - HEADER in live && p - HEADER in blocks && blocks[p - HEADER].size >= size
      ensures p - HEADER !in old(live) && live == old(live) - {ptr - HEADER} + {p - HEADER}
      ensures Copied(old(words), words, p, ptr, old(blocks)[ptr - HEADER].size)
      ensures free != [] && free[0] == ptr - HEADER
      ensures Undisturbed(old(words), old(blocks), old(free), words, blocks, free, {ptr - HEADER})
    {
      hide HeapInv, Served, WordAligned, SameBlock, Round16, Undisturbed, Copied, Release;
      ghost var h, bs, fs, blk := State(), blocks, free, ptr - HEADER;
      RoundingIsEnough(size);
      PayloadIn(h, bs, fs, blk);
      p := Kmalloc(size, leftover);
      ghost var m, taken := words, free;
      ServedIsLive(h, bs, fs, State(), blocks, free, Round16(size), leftover, p);
      ServedIsUndisturbed(h, bs, fs, State(), blocks, free, Round16(size), leftover, p);
      StillThere(h.words, bs, fs, m, blocks, taken, {}, blk);
      BlockAddress(State(), blocks, free, blk);
      SizeAligned(State(), blocks, free, blk);
      CopyPayload(p, ptr, words[ptr - HEADER + 8]);
      ghost var n := words;
      ReleaseKeepsOthers(State(), blocks, free, blk);
      Kfree(ptr);
      UndisturbedTrans(h.words, bs, fs, m, blocks, taken, n, blocks, taken, {}, {p - HEADER}, {});
      UndisturbedTrans(h.words, bs, fs, n, blocks, taken, words, blocks, free, {}, {blk}, {blk});
      StillThere(n, blocks, taken, words, blocks, free, {blk}, p - HEADER);
      CopiedThrough(h.words, m, n, words, bs, blocks, p - HEADER, blk, bs[blk].size);
    }
  }

  lemma StillThere(m: Store, blocks: Blocks, free: seq<nat>, n: Store, after: Blocks, freeAfter: seq<nat>,
                   except: set<nat>, c: nat)
    requires Undisturbed(m, blocks, free, n, after, freeAfter, except) && Live(blocks, free, c) && c !in except
    ensures c in blocks && c in after && after[c] == blocks[c] && Live(after, freeAfter, c)
            && SameBlock(m, n, blocks, c)
  {
  }

  /** The outcome of kmalloc for a non-zero request. */
  ghost predicate Served(h: HeapState, blocks: Blocks, free: seq<nat>, t: HeapState, after: Blocks, freeAfter: seq<nat>,
                         size: Word, leftover: nat -> Word, ptr: nat)
    requires h.top + PAGE_SIZE <= WORD_LIMIT
  {
    && InBlocks(blocks, free)
    && if Fits(blocks, free, size) then Took(h, blocks, free, t, after, freeAfter, size, ptr)
       else
         var e, expanded, list := Expand(h, leftover), ExpandBlocks(blocks, h.top), [h.top] + free;
         if size == 0 then ptr == 0 && t == e && after == expanded && freeAfter == list
         else InBlocks(expanded, list) && Took(e, expanded, list, t, after, freeAfter, size, ptr)
  }

  lemma ExpandOnce(h: HeapState, leftover: nat -> Word)
    requires h.top + PAGE_SIZE <= WORD_LIMIT
    ensures ExpandTimes(h, leftover, 1) == Expand(h, leftover)
    ensures forall blocks :: ExpandBlocksTimes(blocks, h.top, 1) == ExpandBlocks(blocks, h.top)
    ensures forall free :: ExpandFreeTimes(free, h.top, 1) == [h.top] + free
  {
    assert ExpandTimes(h, leftover, 0) == h;
    assert forall blocks :: ExpandBlocksTimes(blocks, h.top, 0) == blocks;
    assert forall free :: ExpandFreeTimes(free, h.top, 0) == free;
  }
}