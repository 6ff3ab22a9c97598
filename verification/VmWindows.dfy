/** vm_alloc takes its ranges from a window [next_free, heap_end) of the space: why they are always absent. */
module VmWindows {
  import opened Words
  import opened PageTables
  import opened Mapping
  import opened AddressSpaces
  import opened Ownership
  import opened VmPages
  import opened VmSpaces
  import opened VmAllocation
  import opened VmRelease
  import opened VmLaws
  import opened VmCreation

  // ----- vm_alloc on values

  /** (size + 0xFFF) & ~0xFFF, the least whole number of pages; a size within a page of 2^64 would wrap to 0. */
  function RoundUp(size: Word): (r: Word)
    requires size <= WORD_LIMIT - PAGE_SIZE
    ensures size <= r < size + PAGE_SIZE && r % PAGE_SIZE == 0
  {
    (size + 0xFFF) / PAGE_SIZE * PAGE_SIZE
  }

  /** Is there room before heap_end, and can the range at next_free be allocated? */
  ghost predicate CanAllocNext(s: Physical, g: Ledger, spaces: Spaces, space: nat, size: Word, flags: Word) {
    && 0 < size <= WORD_LIMIT - PAGE_SIZE && space in s.memory
    && s.memory[space][SPACE_NEXT_FREE] + RoundUp(size) <= s.memory[space][SPACE_HEAP_END]
    && CanAllocRegion(s, g, spaces, space, s.memory[space][SPACE_NEXT_FREE], RoundUp(size) / PAGE_SIZE, flags)
  }

  /** Allocation writes no word of the space record but the head of the list. */
  lemma NextFreeIsKept(s: Physical, g: Ledger, spaces: Spaces, space: nat, base: Word, pages: nat, flags: Word)
    requires CanAllocRegion(s, g, spaces, space, base, pages, flags)
    ensures space in s.memory && space in AllocRegion(s, space, base, pages, flags).memory
    ensures var n := AllocRegion(s, space, base, pages, flags).memory;
            && n[space][SPACE_NEXT_FREE] == s.memory[space][SPACE_NEXT_FREE]
            && n[space][SPACE_HEAP_END] == s.memory[space][SPACE_HEAP_END]
    ensures base + pages * PAGE_SIZE < WORD_LIMIT
  {
    hide VmInv, AllocRegion, CanAllocPages, Chain, RangePaths, AllocPages;
    NewRegionChain(s, g, spaces, space, base, pages, flags);
  }

  /** The range at next_free allocated, and next_free moved past it. */
  ghost function AllocNext(s: Physical, g: Ledger, spaces: Spaces, space: nat, size: Word,
                           flags: Word): (Physical, Ledger, Spaces)
    requires CanAllocNext(s, g, spaces, space, size, flags)
  {
    var base, pages := s.memory[space][SPACE_NEXT_FREE], RoundUp(size) / PAGE_SIZE;
    NextFreeIsKept(s, g, spaces, space, base, pages, flags);
    (WithWord(AllocRegion(s, space, base, pages, flags), space, SPACE_NEXT_FREE, base + pages * PAGE_SIZE),
     AllocRegionLedger(s, g, space, base, pages, flags), AllocRegionSpaces(s, spaces, space, base, pages, flags))
  }

  // ----- the window

  /** next_free and heap_end of a space. */
  function NextFree(m: Memory, space: nat): nat {
    if space in m then m[space][SPACE_NEXT_FREE] else 0
  }

  function HeapEnd(m: Memory, space: nat): nat {
    if space in m then m[space][SPACE_HEAP_END] else 0
  }

  /** The range has no address in [low, high). */
  predicate Clear(base: nat, pages: nat, low: nat, high: nat) {
    base + pages * PAGE_SIZE <= low || high <= base
  }

  predicate AllClear(regions: seq<Region>, low: nat, high: nat) {
    forall k :: 0 <= k < |regions| ==> Clear(regions[k].base, regions[k].pages, low, high)
  }

  predicate IsWindow(low: nat, high: nat) {
    low % PAGE_SIZE == 0 && low <= high <= LOWER_LIMIT
  }

  /** No region of the space reaches into its window. */
  predicate WindowIsFree(m: Memory, space: nat, regions: seq<Region>) {
    IsWindow(NextFree(m, space), HeapEnd(m, space)) && AllClear(regions, NextFree(m, space), HeapEnd(m, space))
  }

  lemma PathOfRange(base: Word, pages: nat, p: Path) returns (i: nat)
    requires p in RangePaths(base, pages)
    ensures i < pages && p == StepPath(base, i)
  {
    hide StepPath;
    i :| i < |RangePaths(base, pages)| && RangePaths(base, pages)[i] == p;
  }

  /** Ranges that do not meet have no page in common. */
  lemma ClearRangesShareNoPage(a: Word, m: nat, b: Word, n: nat, p: Path)
    requires LowerRange(a, m) && LowerRange(b, n) && a + m * PAGE_SIZE <= b && p in RangePaths(a, m)
    ensures p !in RangePaths(b, n)
  {
    hide RangePaths, PageStep, PathOf;
    var i := PathOfRange(a, m, p);
    if p in RangePaths(b, n) {
      var j := PathOfRange(b, n, p);
      LowerStep(a, m, i);
      LowerStep(b, n, j);
      PathIsPage(PageStep(a, i), PageStep(b, j));
    }
  }

  /** The regions of a space lie in the lower half. */
  lemma RegionsAreLower(s: Physical, g: Ledger, spaces: Spaces, space: nat)
    requires VmInv(s, g, spaces) && space in spaces
    ensures forall k :: 0 <= k < |spaces[space]| ==> LowerRange(spaces[space][k].base, spaces[space][k].pages)
  {
    hide Settled, Accounted, Chain, Covers;
    SpaceFacts(s, g, spaces, space);
  }

  /** Every range at next_free that ends by heap_end is absent. */
  lemma NextRangeIsAbsent(s: Physical, g: Ledger, spaces: Spaces, space: nat, base: Word, pages: nat)
    requires VmInv(s, g, spaces) && space in spaces && WindowIsFree(s.memory, space, spaces[space])
    requires base == NextFree(s.memory, space) && base + pages * PAGE_SIZE <= HeapEnd(s.memory, space)
    ensures LowerRange(base, pages)
    ensures forall p :: p in RangePaths(base, pages) ==> !Present(Lookup(s.memory, RootOf(s.memory, space), p))
  {
    hide VmInv, Lookup, RangePaths;
    SpaceCovers(s, g, spaces, space);
    RegionsAreLower(s, g, spaces, space);
    LowerRangePaths(base, pages);
    forall p | p in RangePaths(base, pages) ensures !Present(Lookup(s.memory, RootOf(s.memory, space), p)) {
      forall k | 0 <= k < |spaces[space]| ensures p !in PathsOf(spaces[space][k]) {
        var r := spaces[space][k];
        if r.base + r.pages * PAGE_SIZE <= base {
          if p in PathsOf(r) {
            ClearRangesShareNoPage(r.base, r.pages, base, pages, p);
          }
        } else {
          ClearRangesShareNoPage(base, pages, r.base, r.pages, p);
        }
      }
    }
  }

  /** vm_alloc needs no more than room before heap_end and frames. */
  lemma RoomIsEnough(s: Physical, g: Ledger, spaces: Spaces, space: nat, size: Word, flags: Word)
    requires VmInv(s, g, spaces) && space in spaces && WindowIsFree(s.memory, space, spaces[space])
    requires 0 < size <= WORD_LIMIT - PAGE_SIZE && CleanFlags(flags)
    requires NextFree(s.memory, space) + RoundUp(size) <= HeapEnd(s.memory, space)
    requires |g.free| > 4 * (RoundUp(size) / PAGE_SIZE)
    ensures CanAllocNext(s, g, spaces, space, size, flags)
  {
    hide VmInv, Lookup, RangePaths, AllClear, CanAllocRegion, LowerRange;
    RecordInMemory(s, g, spaces, space);
    var base, pages := s.memory[space][SPACE_NEXT_FREE], RoundUp(size) / PAGE_SIZE;
    NextRangeIsAbsent(s, g, spaces, space, base, pages);
    EnoughForRegion(s, g, spaces, space, base, pages, flags);
  }

  lemma RecordInMemory(s: Physical, g: Ledger, spaces: Spaces, sp: nat)
    requires VmInv(s, g, spaces) && sp in spaces
    ensures sp in s.memory && sp in g.roles && g.roles[sp] == SpaceRecord
  {
    SpaceFacts(s, g, spaces, sp);
  }

  // ----- what every operation does to the windows

  predicate SameWindow(m: Memory, n: Memory, sp: nat) {
    NextFree(n, sp) == NextFree(m, sp) && HeapEnd(n, sp) == HeapEnd(m, sp)
  }

  lemma AllocKeepsWindow(s: Physical, g: Ledger, spaces: Spaces, space: nat, base: Word, pages: nat, flags: Word,
                         sp: nat)
    requires CanAllocRegion(s, g, spaces, space, base, pages, flags) && sp in spaces
    ensures SameWindow(s.memory, AllocRegion(s, space, base, pages, flags).memory, sp)
  {
    hide VmInv, AllocRegion, CanAllocPages, RangePaths;
    RecordInMemory(s, g, spaces, sp);
    if sp == space {
      NextFreeIsKept(s, g, spaces, space, base, pages, flags);
    } else {
      AllocRegionKeepsRecord(s, g, spaces, space, base, pages, flags, sp);
    }
  }

  lemma FreeKeepsWindow(s: Physical, g: Ledger, spaces: Spaces, space: nat, k: nat, sp: nat)
    requires CanRelease(s, g, spaces, space, k) && sp in spaces
    ensures SameWindow(s.memory, FreeRegion(s, space, spaces[space], k).memory, sp)
  {
    hide VmInv, FreeRegion;
    RecordInMemory(s, g, spaces, sp);
    RegionRecordFacts(s, g, spaces, space, k);
    if k > 0 {
      RegionRecordFacts(s, g, spaces, space, k - 1);
    }
    FreeRegionKeepsRecord(s, g, spaces, space, k, sp);
  }

  lemma {:induction false} DestroyKeepsWindow(s: Physical, g: Ledger, spaces: Spaces, space: nat, sp: nat)
    requires VmInv(s, g, spaces) && space in spaces && sp in spaces
    ensures SameWindow(s.memory, DestroyState(s, space, spaces[space]).memory, sp)
    decreases |spaces[space]|
  {
    hide VmInv, FreeRegion, FreeRegionLedger;
    if spaces[space] != [] {
      FreeRegionKeepsVm(s, g, spaces, space, 0);
      FreeKeepsWindow(s, g, spaces, space, 0, sp);
      assert Without(spaces[space], 0) == spaces[space][1..];
      DestroyKeepsWindow(FreeRegion(s, space, spaces[space], 0), FreeRegionLedger(s, g, space, spaces[space], 0),
                         FreeRegionSpaces(spaces, space, 0), space, sp);
    }
  }

  lemma CreateMakesWindow(s: Physical, g: Ledger, spaces: Spaces, kernel: nat, base: Word, end: Word)
    requires CanCreateSpace(s, g, spaces, kernel)
    ensures var n := CreateSpace(s, kernel, base, end).memory;
            NextFree(n, s.pageList) == base && HeapEnd(n, s.pageList) == end
  {
    hide VmInv, Settled;
    CreateFacts(s, g, spaces, kernel);
  }

  lemma CreateKeepsWindow(s: Physical, g: Ledger, spaces: Spaces, kernel: nat, base: Word, end: Word, sp: nat)
    requires CanCreateSpace(s, g, spaces, kernel) && sp in spaces
    ensures SameWindow(s.memory, CreateSpace(s, kernel, base, end).memory, sp)
  {
    hide VmInv, Settled;
    CreateFacts(s, g, spaces, kernel);
    RecordInMemory(s, g, spaces, sp);
  }

  /** vm_alloc moves the window of its space past the new region. */
  lemma AllocNextMovesWindow(s: Physical, g: Ledger, spaces: Spaces, space: nat, size: Word, flags: Word)
    requires CanAllocNext(s, g, spaces, space, size, flags) && space in spaces
    requires WindowIsFree(s.memory, space, spaces[space])
    ensures var (t, _, all) := AllocNext(s, g, spaces, space, size, flags);
            space in all && WindowIsFree(t.memory, space, all[space])
  {
    hide VmInv, AllocRegion, AllocRegionLedger, CanAllocPages, RangePaths, AllocPages;
    NextFreeIsKept(s, g, spaces, space, s.memory[space][SPACE_NEXT_FREE], RoundUp(size) / PAGE_SIZE, flags);
  }

  lemma AllocNextKeepsOthers(s: Physical, g: Ledger, spaces: Spaces, space: nat, size: Word, flags: Word, sp: nat)
    requires CanAllocNext(s, g, spaces, space, size, flags) && sp in spaces && sp != space
    ensures var (t, _, all) := AllocNext(s, g, spaces, space, size, flags);
            SameWindow(s.memory, t.memory, sp) && sp in all && all[sp] == spaces[sp]
  {
    hide VmInv, AllocRegion, AllocRegionLedger, CanAllocPages, RangePaths, AllocPages;
    AllocKeepsWindow(s, g, spaces, space, s.memory[space][SPACE_NEXT_FREE], RoundUp(size) / PAGE_SIZE, flags, sp);
  }

  /** vm_alloc keeps the invariant of all spaces. */
  lemma AllocNextKeepsVm(s: Physical, g: Ledger, spaces: Spaces, space: nat, size: Word, flags: Word)
    requires CanAllocNext(s, g, spaces, space, size, flags)
    ensures var (t, h, all) := AllocNext(s, g, spaces, space, size, flags); VmInv(t, h, all)
  {
    hide VmInv, AllocRegion, AllocRegionLedger, CanAllocPages, RangePaths, AllocPages;
    var base, pages := s.memory[space][SPACE_NEXT_FREE], RoundUp(size) / PAGE_SIZE;
    NextFreeIsKept(s, g, spaces, space, base, pages, flags);
    AllocRegionKeepsVm(s, g, spaces, space, base, pages, flags);
    SpaceWordKeepsVm(AllocRegion(s, space, base, pages, flags), AllocRegionLedger(s, g, space, base, pages, flags),
                     AllocRegionSpaces(s, spaces, space, base, pages, flags), space, SPACE_NEXT_FREE, base
                       + pages * PAGE_SIZE);
  }
}
