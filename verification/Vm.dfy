/** The operations on address spaces as they run on the machine (vm.c). */
module Vm {
  import opened Words
  import opened PageTables
  import opened Mapping
  import opened AddressSpaces
  import opened Ownership
  import opened VmPages
  import opened VmSpaces
  import opened VmAllocation
  import opened VmRelease
  import opened VmLaws
  import opened VmCreation
  import opened VmWindows
  import opened VmAccess
  import opened Machines

  ghost predicate Ready(m: Machine)
    reads m
  {
    m.Valid() && VmInv(m.State(), m.ledger, m.spaces)
  }

  lemma OnePageRange(s: Physical, root: nat, vaddr: Word, phys: Word, flags: Word)
    requires CleanFlags(flags)
    ensures MapSteps(s, root, RangeSteps(vaddr, phys, 1), flags) == MapPage(s, root, PathOf(vaddr), phys, flags)
  {
    hide PathOf, MapFrom;
    var steps := RangeSteps(vaddr, phys, 1);
    assert steps[..0] == [];
    assert PageStep(vaddr, 0) == vaddr && PageStep(phys, 0) == phys;
    assert steps[0] == Step(PathOf(vaddr), phys);
    assert MapSteps(s, root, steps[..0], flags) == s;
  }

  lemma OnePageLedger(s: Physical, g: Ledger, root: nat, vaddr: Word, phys: Word, flags: Word)
    requires CleanFlags(flags) && CanMap(s, g, root, 4, PathOf(vaddr))
    ensures CanMapSteps(s, g, root, RangeSteps(vaddr, phys, 1), flags)
    ensures MapStepsLedger(s, g, root, RangeSteps(vaddr, phys, 1), flags)
              == MapLedger(s, g, root, 4, PathOf(vaddr), flags)
  {
    hide PathOf, MapFrom, Inv;
    var steps := RangeSteps(vaddr, phys, 1);
    assert steps[..0] == [];
    assert PageStep(vaddr, 0) == vaddr && PageStep(phys, 0) == phys;
    assert steps[0] == Step(PathOf(vaddr), phys);
    assert MapSteps(s, root, steps[..0], flags) == s && MapStepsLedger(s, g, root, steps[..0], flags) == g;
  }

  /** One turn of the loop of vm_alloc: a fresh frame behind one page. */
  method AllocOnePage(m: Machine, pml4: nat, vaddr: Word, flags: Word)
    requires vaddr % PAGE_SIZE == 0
    requires m.Valid() && CleanFlags(flags) && CanAllocPage(m.State(), m.ledger, pml4, PathOf(vaddr))
    modifies m`memory, m`pageList, m`ledger
    ensures m.Valid()
    ensures m.State() == AllocPage(old(m.State()), pml4, PathOf(vaddr), flags)
    ensures m.ledger == AllocPageLedger(old(m.State()), old(m.ledger), pml4, PathOf(vaddr), flags)
  {
    hide Inv, Leaves, PathOf, MapFrom, MapLedger, Missing, Walk, CanMap;
    ghost var s, g := m.State(), m.ledger;
    PopCanMap(s, g, pml4, PathOf(vaddr));
    AllocPageSettles(s, g, pml4, PathOf(vaddr), flags);
    AllocPageRoles(s, g, pml4, PathOf(vaddr), flags, m.kernelPml4);
    var phys := m.FrameAlloc();
    OnePageLedger(m.State(), m.ledger, pml4, vaddr, phys, flags);
    OnePageRange(m.State(), pml4, vaddr, phys, flags);
    AlignedFrame(phys);
    m.PagingMapPage(pml4, vaddr, phys, 0x1000, flags);
    m.ledger := AllocPageLedger(s, g, pml4, PathOf(vaddr), flags);
  }

  lemma AlignedFrame(phys: int)
    requires IsFrameAddress(phys)
    ensures phys % PAGE_SIZE == 0
  {
  }

  /** region_alloc and region_insert: a record on a fresh frame, put at the head of the space's list. */
  method InsertRegion(m: Machine, space: nat, base: Word, size: Word)
    requires m.Valid() && CanInsert(m.State(), m.ledger, space)
    modifies m`memory, m`pageList, m`ledger
    ensures m.Valid()
    ensures old(m.pageList) in old(m.memory) && space in old(m.memory)
    ensures m.State() == NewRegion(old(m.State()), space, base, size)
    ensures m.ledger == TagLedger(old(m.State()), old(m.ledger), RegionRecord(space))
  {
    hide Inv, Leaves, NewRegion;
    ghost var s, g := m.State(), m.ledger;
    NewRegionSettles(s, g, space, base, size);
    HeadOfList(s, g);
    var r := m.FrameAlloc();
    m.memory := m.memory[r := m.memory[r][REGION_BASE := base]];
    m.memory := m.memory[r := m.memory[r][REGION_SIZE := size]];
    m.memory := m.memory[r := m.memory[r][REGION_NEXT := 0]];
    m.memory := m.memory[r := m.memory[r][REGION_NEXT := m.memory[space][SPACE_REGIONS]]];
    m.memory := m.memory[space := m.memory[space][SPACE_REGIONS := r]];
    m.ledger := TagLedger(s, g, RegionRecord(space));
    NewRegionByStores(s, space, base, size);
    KernelRootStays(g, m.ledger, s.pageList, m.kernelPml4);
  }

  lemma NewRegionByStores(s: Physical, space: nat, base: Word, size: Word)
    requires s.pageList in s.memory && space in s.memory && s.pageList != space
    ensures var r := s.pageList;
            var m1 := s.memory[r := s.memory[r][REGION_BASE := base]];
            var m2 := m1[r := m1[r][REGION_SIZE := size]];
            var m3 := m2[r := m2[r][REGION_NEXT := 0]];
            var m4 := m3[r := m3[r][REGION_NEXT := m3[space][SPACE_REGIONS]]];
            NewRegion(s, space, base, size) ==
              Physical(m4[space := m4[space][SPACE_REGIONS := r]], s.memory[r][0])
  {
    var r := s.pageList;
    assert s.memory[r][REGION_BASE := base][REGION_SIZE := size]
                    [REGION_NEXT := 0][REGION_NEXT := s.memory[space][SPACE_REGIONS]]
        == s.memory[r][REGION_BASE := base][REGION_SIZE := size][REGION_NEXT := s.memory[space][SPACE_REGIONS]];
  }

  lemma KernelRootStays(g: Ledger, h: Ledger, f: nat, kernel: nat)
    requires IsRoot(g.roles, kernel) && f in g.roles && g.roles[f] == Free
    requires f in h.roles && h.roles == g.roles[f := h.roles[f]]
    ensures IsRoot(h.roles, kernel)
  {
  }

  lemma HeadOfList(s: Physical, g: Ledger)
    requires Inv(s, g) && g.free != []
    ensures s.pageList == g.free[0]
  {
    HeadIsFree(s, g);
  }

  /** The state before any page is allocated, and after all of them, in terms of path prefixes. */
  lemma AllocNothing(s: Physical, g: Ledger, root: nat, paths: seq<Path>, flags: Word)
    requires CleanFlags(flags)
    ensures AllocPages(s, root, paths[..0], flags) == s && AllocPagesLedger(s, g, root, paths[..0], flags) == g
    ensures paths[..|paths|] == paths
  {
  }

  /** The part vm_alloc and vm_alloc_at share: pages one by one, then the region record. */
  method AllocRange(m: Machine, space: nat, vaddr: Word, size: Word, flags: Word)
    requires Ready(m) && size % PAGE_SIZE == 0
    requires CanAllocRegion(m.State(), m.ledger, m.spaces, space, vaddr, size / PAGE_SIZE, flags)
    modifies m`memory, m`pageList, m`ledger, m`spaces
    ensures Ready(m)
    ensures space in old(m.spaces) && CleanFlags(flags) && LowerRange(vaddr, size / PAGE_SIZE)
    ensures m.State() == AllocRegion(old(m.State()), space, vaddr, size / PAGE_SIZE, flags)
    ensures m.ledger == AllocRegionLedger(old(m.State()), old(m.ledger), space, vaddr, size / PAGE_SIZE, flags)
    ensures m.spaces == AllocRegionSpaces(old(m.State()), old(m.spaces), space, vaddr, size / PAGE_SIZE, flags)
  {
    hide Inv, VmInv, CanAllocPages, CanAllocPage, CanInsert, PathOf, NewRegion, AllocPages, AllocPagesLedger;
    ghost var s, g, pages, root := m.State(), m.ledger, size / PAGE_SIZE, RootOf(m.memory, space);
    ghost var paths, k := RangePaths(vaddr, pages), 0;
    AllocRegionKeepsVm(s, g, m.spaces, space, vaddr, pages, flags);
    AllocPagesReadyToInsert(s, g, m.spaces, space, vaddr, pages, flags);
    AllocNothing(s, g, root, paths, flags);
    SpaceFacts(s, g, m.spaces, space);
    var i := 0;
    while i < size
      invariant 0 <= k <= |paths| && i == k * PAGE_SIZE
      invariant m.Valid() && m.spaces == old(m.spaces)
      invariant m.State() == AllocPages(s, root, paths[..k], flags)
      invariant m.ledger == AllocPagesLedger(s, g, root, paths[..k], flags)
      invariant space in m.memory && m.memory[space][SPACE_PML4] == root
    {
      CanAllocPrefix(s, g, root, paths, flags, k);
      StepKeepsSpaceRecord(s, g, root, paths, flags, k, space);
      AllocOnePage(m, m.memory[space][SPACE_PML4], (vaddr + i) % WORD_LIMIT, flags);
      i, k := i + PAGE_SIZE, k + 1;
    }
    InsertRegion(m, space, vaddr, size);
    m.spaces := AllocRegionSpaces(s, m.spaces, space, vaddr, pages, flags);
  }

  lemma StepKeepsSpaceRecord(s: Physical, g: Ledger, root: nat, paths: seq<Path>, flags: Word, k: nat, space: nat)
    requires CleanFlags(flags) && CanAllocPages(s, g, root, paths, flags) && k < |paths|
    requires space in g.roles && g.roles[space] == SpaceRecord
    ensures space in s.memory && space in AllocPages(s, root, paths[..k + 1], flags).memory
    ensures AllocPages(s, root, paths[..k + 1], flags).memory[space] == s.memory[space]
  {
    hide CanAllocPages, AllocPages;
    AllocPrefixes(s, g, root, paths, flags, k + 1);
    AllocPagesKeepOthers(s, g, root, paths[..k + 1], flags, space);
  }

  lemma AllocPrefixes(s: Physical, g: Ledger, root: nat, paths: seq<Path>, flags: Word, k: nat)
    requires CleanFlags(flags) && CanAllocPages(s, g, root, paths, flags) && k <= |paths|
    ensures CanAllocPages(s, g, root, paths[..k], flags)
  {
    hide CanAllocPages;
    if k < |paths| {
      CanAllocPrefix(s, g, root, paths, flags, k);
    } else {
      assert paths[..k] == paths;
    }
  }

  method VmAllocAt(m: Machine, space: nat, vaddr: Word, size: Word, flags: Word) returns (v: Word)
    requires Ready(m) && vaddr % PAGE_SIZE == 0 && 0 < size <= WORD_LIMIT - PAGE_SIZE
    requires CanAllocRegion(m.State(), m.ledger, m.spaces, space, vaddr, RoundUp(size) / PAGE_SIZE, flags)
    modifies m`memory, m`pageList, m`ledger, m`spaces
    ensures Ready(m) && v == vaddr
    ensures space in old(m.spaces) && CleanFlags(flags) && LowerRange(vaddr, RoundUp(size) / PAGE_SIZE)
    ensures m.State() == AllocRegion(old(m.State()), space, vaddr, RoundUp(size) / PAGE_SIZE, flags)
    ensures m.ledger == AllocRegionLedger(old(m.State()), old(m.ledger), space, vaddr, RoundUp(size) / PAGE_SIZE, flags)
    ensures m.spaces == AllocRegionSpaces(old(m.State()), old(m.spaces), space, vaddr, RoundUp(size) / PAGE_SIZE, flags)
    ensures forall a: Word :: v <= a < v + size ==> Reads(m.memory, RootOf(m.memory, space), a, flags)
  {
    hide Inv, VmInv, CanAllocRegion, AllocRegion, AllocRegionLedger, Reads;
    AllocatedBytes(m.State(), m.ledger, m.spaces, space, vaddr, size, flags);
    AllocRange(m, space, vaddr, RoundUp(size), flags);
    v := vaddr;
  }

  /** Allocates at next_free and moves it past the range; running over heap_end is an assertion failure. */
  method VmAlloc(m: Machine, space: nat, size: Word, flags: Word) returns (vaddr: Word)
    requires Ready(m) && CanAllocNext(m.State(), m.ledger, m.spaces, space, size, flags)
    modifies m`memory, m`pageList, m`ledger, m`spaces
    ensures Ready(m) && space in old(m.memory) && vaddr == old(m.memory[space][SPACE_NEXT_FREE])
    ensures (m.State(), m.ledger, m.spaces)
              == AllocNext(old(m.State()), old(m.ledger), old(m.spaces), space, size, flags)
    ensures vaddr + size <= NextFree(m.memory, space) < vaddr + size + PAGE_SIZE
    ensures forall a: Word :: vaddr <= a < vaddr + size ==> Reads(m.memory, RootOf(m.memory, space), a, flags)
  {
    hide Inv, VmInv, AllocRegion, AllocRegionLedger, CanAllocRegion, CanAllocNext, AllocNext, Reads;
    NextBytes(m.State(), m.ledger, m.spaces, space, size, flags);
    AllocNextIs(m.State(), m.ledger, m.spaces, space, size, flags);
    vaddr := m.memory[space][SPACE_NEXT_FREE];
    AllocRange(m, space, vaddr, RoundUp(size), flags);
    m.memory := m.memory[space := m.memory[space][SPACE_NEXT_FREE := m.memory[space][SPACE_NEXT_FREE] + RoundUp(size)]];
  }

  /** vm_alloc is the allocation of the rounded range, and one store to next_free. */
  lemma AllocNextIs(s: Physical, g: Ledger, spaces: Spaces, space: nat, size: Word, flags: Word)
    requires CanAllocNext(s, g, spaces, space, size, flags)
    ensures 0 < size <= WORD_LIMIT - PAGE_SIZE && space in s.memory && space in spaces && CleanFlags(flags)
    ensures var base, pages := s.memory[space][SPACE_NEXT_FREE], RoundUp(size) / PAGE_SIZE;
            && CanAllocRegion(s, g, spaces, space, base, pages, flags) && LowerRange(base, pages)
            && base + RoundUp(size) < WORD_LIMIT
            && (var t := AllocRegion(s, space, base, pages, flags);
                && space in t.memory && t.memory[space][SPACE_NEXT_FREE] == base
                && AllocNext(s, g, spaces, space, size, flags)
                   == (WithWord(t, space, SPACE_NEXT_FREE, base + RoundUp(size)),
                       AllocRegionLedger(s, g, space, base, pages, flags),
                       AllocRegionSpaces(s, spaces, space, base, pages, flags)))
    ensures var (t, h, all) := AllocNext(s, g, spaces, space, size, flags); VmInv(t, h, all) && Inv(t, h)
  {
    hide Inv, VmInv, AllocRegion, AllocRegionLedger, CanAllocPages;
    NextFreeIsKept(s, g, spaces, space, s.memory[space][SPACE_NEXT_FREE], RoundUp(size) / PAGE_SIZE, flags);
    AllocNextKeepsVm(s, g, spaces, space, size, flags);
    var (t, h, all) := AllocNext(s, g, spaces, space, size, flags);
    VmInvInv(t, h, all);
  }

  // ----- vm_free

  lemma FreePrefix(s: Physical, root: nat, paths: seq<Path>, k: nat)
    requires k < |paths|
    ensures FreePages(s, root, paths[..k + 1]) == FreePage(FreePages(s, root, paths[..k]), root, paths[k])
  {
    assert Front(paths[..k + 1]) == paths[..k];
  }

  lemma FreeLedgerPrefix(s: Physical, g: Ledger, root: nat, paths: seq<Path>, k: nat)
    requires k < |paths|
    ensures FreePagesLedger(s, g, root, paths[..k + 1])
         == FreePageLedger(FreePages(s, root, paths[..k]), FreePagesLedger(s, g, root, paths[..k]), root, paths[k])
  {
    assert Front(paths[..k + 1]) == paths[..k];
  }

  lemma FreeNothing(s: Physical, g: Ledger, root: nat, paths: seq<Path>)
    ensures FreePages(s, root, paths[..0]) == s && FreePagesLedger(s, g, root, paths[..0]) == g
            && paths[..|paths|] == paths
  {
  }

  lemma PrefixCanFree(s: Physical, g: Ledger, root: nat, paths: seq<Path>, k: nat)
    requires CanFreePages(s, g, root, paths) && k < |paths|
    ensures ReadyToFree(FreePages(s, root, paths[..k]), FreePagesLedger(s, g, root, paths[..k]), root, paths[k])
  {
    hide Settled, ReadyToFree, SameWalk, Freeing;
    assert Front(paths[..k + 1]) == paths[..k];
    assert CanFreePages(s, g, root, paths[..k]) && CanFreePages(s, g, root, paths[..k + 1]);
    RootIsRoot(s, g, root, paths);
    FreePagesState(s, g, root, paths[..k], root, paths[k]);
    FreePagesReady(s, g, root, paths[..k + 1]);
  }

  /** One turn of the first loop of vm_free. */
  method FreeOneFrame(m: Machine, pml4: nat, vaddr: Word)
    requires m.Valid() && ReadyToFree(m.State(), m.ledger, pml4, PathOf(vaddr))
    modifies m`memory, m`pageList, m`ledger
    ensures m.Valid()
    ensures m.State() == FreePage(old(m.State()), pml4, PathOf(vaddr))
    ensures m.ledger == FreePageLedger(old(m.State()), old(m.ledger), pml4, PathOf(vaddr))
  {
    hide Inv, Leaves, PathOf, Walk;
    var entry := m.GetEntry(pml4, vaddr);
    if Present(entry) {
      PageHasDataFrame(m.State(), m.ledger, pml4, PathOf(vaddr));
      m.FrameFree(AddressBits(entry));
    }
  }

  lemma DistinctBases(regions: seq<Region>, j: nat, k: nat)
    requires Layout(regions) && j < |regions| && k < |regions| && j != k
    ensures regions[j].base != regions[k].base
  {
    hide PathOf, RangePaths;
    FirstPath(regions[j]);
    FirstPath(regions[k]);
    assert Apart(regions[j], regions[k]);
  }

  lemma FirstPath(r: Region)
    requires r.pages > 0
    ensures StepPath(r.base, 0) in PathsOf(r)
  {
    hide PathOf;
    assert RangePaths(r.base, r.pages)[0] == StepPath(r.base, 0);
  }

  /**
   region_remove: walks the links and takes the first region with this base off the list. The link is the
   place that holds the pointer to the current record, as the pointer to a pointer does in the original.
   */
  method RegionRemove(m: Machine, space: nat, base: Word, ghost regions: seq<Region>, ghost k: nat)
    returns (found: Word)
    requires space in m.memory && Chain(m.memory, m.memory[space][SPACE_REGIONS], regions) && k <= |regions|
    requires forall j :: 0 <= j < k ==> regions[j].base != base
    requires k < |regions| ==> regions[k].base == base
    modifies m`memory
    ensures k == |regions| ==> found == 0 && m.memory == old(m.memory)
    ensures k < |regions| ==>
              found == regions[k].record && found in old(m.memory) && (k > 0 ==> regions[k - 1].record in old(m.memory))
    ensures k < |regions| ==> m.memory == Unlink(old(m.memory), space, regions, k)
  {
    hide Chain;
    var owner, slot: Index := space, SPACE_REGIONS;
    ghost var j := 0;
    HeadOfChain(m.memory, m.memory[space][SPACE_REGIONS], regions);
    while m.memory[owner][slot] != 0
      invariant 0 <= j <= k && owner in m.memory && m.memory == old(m.memory)
      invariant if j == 0 then owner == space && slot == SPACE_REGIONS
                else owner == regions[j - 1].record && slot == REGION_NEXT
      invariant m.memory[owner][slot] == if j < |regions| then regions[j].record else 0
      invariant j < |regions| ==> regions[j].record != 0
      decreases |regions| - j
    {
      ChainHas(m.memory, m.memory[space][SPACE_REGIONS], regions, j);
      var cur := m.memory[owner][slot];
      if m.memory[cur][REGION_BASE] == base {
        found := cur;
        if j > 0 {
          ChainHas(m.memory, m.memory[space][SPACE_REGIONS], regions, j - 1);
        }
        m.memory := m.memory[owner := m.memory[owner][slot := m.memory[found][REGION_NEXT]]];
        return;
      }
      owner, slot, j := cur, REGION_NEXT, j + 1;
      if j < |regions| {
        ChainHas(m.memory, m.memory[space][SPACE_REGIONS], regions, j);
      }
    }
    found := 0;
  }

  lemma HeadOfChain(m: Memory, head: nat, regions: seq<Region>)
    requires Chain(m, head, regions)
    ensures head == if regions == [] then 0 else regions[0].record
    ensures regions != [] ==> regions[0].record != 0
  {
  }

  /** The list of the space is in memory, and region k is the first one with its base. */
  ghost predicate ListStands(m: Memory, space: nat, regions: seq<Region>, k: nat) {
    && space in m && Chain(m, m[space][SPACE_REGIONS], regions)
    && k < |regions| && forall j :: 0 <= j < k ==> regions[j].base != regions[k].base
  }

  /** What RegionRemove and frame_free find once the pages of region k are gone. */
  lemma ReleasedList(s: Physical, g: Ledger, spaces: Spaces, space: nat, k: nat)
    requires space in spaces && k < |spaces[space]|
    requires CanRelease(s, g, spaces, space, k)
    ensures ListStands(Released(s, space, spaces[space][k]).memory, space, spaces[space], k)
  {
    hide VmInv, Released, Layout, Covers, Chain;
    var t, regions := Released(s, space, spaces[space][k]), spaces[space];
    RecordFacts(s, g, spaces, space, k);
    ReleasedRecords(s, g, spaces, space, k, space);
    forall j | 0 <= j < |regions|
      ensures regions[j].record in t.memory && regions[j].record in s.memory
              && t.memory[regions[j].record] == s.memory[regions[j].record]
    {
      ReleasedRecords(s, g, spaces, space, k, regions[j].record);
    }
    ChainFrame(s.memory, t.memory, s.memory[space][SPACE_REGIONS], regions);
    forall j | 0 <= j < k ensures regions[j].base != regions[k].base {
      DistinctBases(regions, j, k);
    }
  }

  /** The two page loops of vm_free. */
  method ReleaseRange(m: Machine, space: nat, vaddr: Word, size: Word, ghost k: nat, ghost region: Region)
    requires space in m.spaces && k < |m.spaces[space]| && m.spaces[space][k] == region
    requires region.base == vaddr && region.pages * PAGE_SIZE == size
    requires Ready(m) && CanRelease(m.State(), m.ledger, m.spaces, space, k)
    modifies m`memory, m`pageList, m`ledger
    ensures m.Valid()
    ensures m.State() == Released(old(m.State()), space, region)
    ensures m.ledger == ReleasedLedger(old(m.State()), old(m.ledger), space, region)
  {
    hide Inv, VmInv, SpaceOk, CanFreePages, ReadyToFree, PathOf, FreePages, FreePagesLedger, FreePage, FreePageLedger;
    ghost var s, g, j := m.State(), m.ledger, 0;
    ghost var root, paths := RootOf(m.memory, space), PathsOf(region);
    ReleaseFacts(s, g, m.spaces, space, k);
    SpaceFacts(s, g, m.spaces, space);
    var pml4 := m.memory[space][SPACE_PML4];
    RegionAligned(s, g, m.spaces, space, k);
    FreeNothing(s, g, root, paths);
    var i := 0;
    while i < size
      invariant 0 <= j <= |paths| && i == j * PAGE_SIZE
      invariant m.Valid()
      invariant m.State() == FreePages(s, root, paths[..j])
      invariant m.ledger == FreePagesLedger(s, g, root, paths[..j])
    {
      PrefixCanFree(s, g, root, paths, j);
      FreePrefix(s, root, paths, j);
      FreeLedgerPrefix(s, g, root, paths, j);
      FreeOneFrame(m, pml4, (vaddr + i) % WORD_LIMIT);
      i, j := i + PAGE_SIZE, j + 1;
    }
    FreedRoot(s, g, root, paths);
    m.PagingUnmapPage(pml4, vaddr, size);
    ReleaseSettles(s, g, root, paths);
    ReleaseRoles(s, g, root, paths, m.kernelPml4);
    m.ledger := m.ledger.(limbo := {});
    SettledInv(m.State(), m.ledger);
  }

  lemma FreedRoot(s: Physical, g: Ledger, root: nat, paths: seq<Path>)
    requires CanFreePages(s, g, root, paths)
    ensures IsRoot(FreePagesLedger(s, g, root, paths).roles, root)
  {
    RootIsRoot(s, g, root, paths);
    FreePagesState(s, g, root, paths, root, Path(0, 0, 0, 0));
  }

  lemma RegionAligned(s: Physical, g: Ledger, spaces: Spaces, space: nat, k: nat)
    requires CanRelease(s, g, spaces, space, k)
    ensures LowerRange(spaces[space][k].base, spaces[space][k].pages) && spaces[space][k].pages > 0
  {
    hide Settled, Accounted, Covers, Chain;
    SpaceFacts(s, g, spaces, space);
  }

  /** vm_free of a whole region: its frames, its entries, its place on the list, and its record. */
  method VmFree(m: Machine, space: nat, vaddr: Word, size: Word, ghost k: nat)
    requires Ready(m) && vaddr % PAGE_SIZE == 0 && 0 < size <= WORD_LIMIT - PAGE_SIZE
    requires CanRelease(m.State(), m.ledger, m.spaces, space, k)
    requires m.spaces[space][k].base == vaddr && m.spaces[space][k].pages * PAGE_SIZE == RoundUp(size)
    modifies m`memory, m`pageList, m`ledger, m`spaces
    ensures Ready(m) && space in old(m.spaces)
    ensures m.State() == FreeRegion(old(m.State()), space, old(m.spaces[space]), k)
    ensures m.ledger == FreeRegionLedger(old(m.State()), old(m.ledger), space, old(m.spaces[space]), k)
    ensures m.spaces == FreeRegionSpaces(old(m.spaces), space, k)
    ensures forall a: Word :: vaddr <= a < vaddr + size ==> Lookup(m.memory, RootOf(m.memory, space), PathOf(a)) == 0
  {
    hide Inv, VmInv, SpaceOk, Chain, Covers, Layout, Released, ReleasedLedger, Settled, FreeRegion, FreeRegionLedger;
    hide Lookup, PathOf;
    FreedBytes(m.State(), m.ledger, m.spaces, space, k, size);
    ghost var s, g, spaces := m.State(), m.ledger, m.spaces;
    RecordFacts(s, g, spaces, space, k);
    ReleasedList(s, g, spaces, space, k);
    FreeRegionIsPush(s, g, spaces, space, k);
    UnlinkedIsWrite(s, g, spaces, space, k);
    UnlinkedSettles(s, g, spaces, space, k);
    FreeRegionKeepsVm(s, g, spaces, space, k);
    ReleaseRange(m, space, vaddr, RoundUp(size), k, spaces[space][k]);
    var r := RegionRemove(m, space, vaddr, spaces[space], k);
    SettledInv(m.State(), m.ledger);
    if r != 0 {
      m.FrameFree(r);
    }
    m.spaces := FreeRegionSpaces(spaces, space, k);
  }

  // ----- vm_space_create and vm_space_destroy

  method VmSpaceCreate(m: Machine, heapBase: Word, heapSize: Word) returns (space: Word)
    requires Ready(m) && |m.ledger.free| >= 2
    modifies m`memory, m`pageList, m`ledger, m`spaces
    ensures Ready(m) && space == old(m.pageList) && space !in old(m.spaces)
    ensures m.State() == CreateSpace(old(m.State()), m.kernelPml4, heapBase, (heapBase + heapSize) % WORD_LIMIT)
    ensures m.ledger == CreateSpaceLedger(old(m.State()), old(m.ledger))
    ensures m.spaces == old(m.spaces)[space := []]
  {
    hide Inv, VmInv, Leaves, CreateRoot, CreateRootLedger, Accounted, SpaceWords;
    ghost var s, g := m.State(), m.ledger;
    var heapEnd := (heapBase + heapSize) % WORD_LIMIT;
    CreateFacts(s, g, m.spaces, m.kernelPml4);
    CreateSpaceAccounts(s, g, m.spaces, m.kernelPml4, heapBase, heapEnd);
    CreateSpaceKeepsVm(s, g, m.spaces, m.kernelPml4, heapBase, heapEnd);
    CreateKeepsRoot(s, g, m.spaces, m.kernelPml4);
    HeadOfList(s, g);
    space := m.FrameAlloc();
    m.ledger := TagLedger(s, g, SpaceRecord);
    RootKeepsRecord(m.State(), m.kernelPml4, space);
    var pml4 := m.PagingCreatePml4();
    m.memory := m.memory[space := SpaceWords(m.memory[space], pml4, heapBase, heapEnd)];
    m.spaces := m.spaces[space := []];
    VmInvInv(CreateSpace(s, m.kernelPml4, heapBase, heapEnd), CreateSpaceLedger(s, g), m.spaces);
  }

  lemma CreateKeepsRoot(s: Physical, g: Ledger, spaces: Spaces, kernel: nat)
    requires CanCreateSpace(s, g, spaces, kernel)
    ensures IsRoot(TagLedger(s, g, SpaceRecord).roles, kernel) && IsRoot(CreateSpaceLedger(s, g).roles, kernel)
  {
    hide VmInv, Inv, Leaves;
    CreateFacts(s, g, spaces, kernel);
  }

  lemma RootKeepsRecord(t: Physical, kernel: nat, f: nat)
    requires kernel in t.memory && t.pageList in t.memory && f in t.memory && f != t.pageList
    ensures f in CreateRoot(t, kernel).memory && CreateRoot(t, kernel).memory[f] == t.memory[f]
  {
  }

  /** Frees every region of the space; `next` is read before the record under it is recycled. */
  method VmSpaceDestroy(m: Machine, space: nat)
    requires Ready(m) && space in m.spaces
    modifies m`memory, m`pageList, m`ledger, m`spaces
    ensures Ready(m)
    ensures m.State() == DestroyState(old(m.State()), space, old(m.spaces[space]))
    ensures m.ledger == DestroyLedger(old(m.State()), old(m.ledger), space, old(m.spaces[space]))
    ensures m.spaces == old(m.spaces)[space := []]
  {
    hide Inv, VmInv, SpaceOk, Chain, FreeRegion, FreeRegionLedger, CanRelease;
    ListHead(m.State(), m.ledger, m.spaces, space);
    var r := m.memory[space][SPACE_REGIONS];
    while r != 0
      invariant Ready(m) && space in m.spaces
      invariant r == if m.spaces[space] == [] then 0 else m.spaces[space][0].record
      invariant m.spaces[space] != [] ==> r != 0
      invariant DestroyState(m.State(), space, m.spaces[space])
                  == DestroyState(old(m.State()), space, old(m.spaces[space]))
      invariant DestroyLedger(m.State(), m.ledger, space, m.spaces[space])
             == DestroyLedger(old(m.State()), old(m.ledger), space, old(m.spaces[space]))
      invariant m.spaces == old(m.spaces)[space := m.spaces[space]]
      decreases |m.spaces[space]|
    {
      ghost var regions := m.spaces[space];
      FirstRegion(m.State(), m.ledger, m.spaces, space);
      var next := m.memory[r][REGION_NEXT];
      VmFree(m, space, m.memory[r][REGION_BASE], m.memory[r][REGION_SIZE], 0);
      assert Without(regions, 0) == regions[1..];
      r := next;
    }
    assert m.spaces[space] == [];
  }

  lemma ListHead(s: Physical, g: Ledger, spaces: Spaces, space: nat)
    requires VmInv(s, g, spaces) && space in spaces
    ensures space in s.memory
    ensures s.memory[space][SPACE_REGIONS] == if spaces[space] == [] then 0 else spaces[space][0].record
    ensures spaces[space] != [] ==> spaces[space][0].record != 0
  {
    hide Settled, Accounted, Covers, Layout, RecordsOf;
    SpaceFacts(s, g, spaces, space);
    HeadOfChain(s.memory, s.memory[space][SPACE_REGIONS], spaces[space]);
  }

  /** The words of the first record, as vm_space_destroy reads them. */
  lemma FirstRegion(s: Physical, g: Ledger, spaces: Spaces, space: nat)
    requires VmInv(s, g, spaces) && space in spaces && spaces[space] != []
    ensures CanRelease(s, g, spaces, space, 0) && spaces[space][0].record in s.memory
    ensures var region, words := spaces[space][0], s.memory[spaces[space][0].record];
            && words[REGION_BASE] == region.base && region.base % PAGE_SIZE == 0
            && words[REGION_SIZE] == region.pages * PAGE_SIZE && 0 < words[REGION_SIZE] <= WORD_LIMIT - PAGE_SIZE
            && RoundUp(words[REGION_SIZE]) == words[REGION_SIZE]
            && words[REGION_NEXT] == (if |spaces[space]| > 1 then spaces[space][1].record else 0)
    ensures |spaces[space]| > 1 ==> spaces[space][1].record != 0
  {
    hide VmInv, Covers, RecordsOf, Settled, Accounted;
    SpaceFacts(s, g, spaces, space);
    RegionAligned(s, g, spaces, space, 0);
    ChainHas(s.memory, s.memory[space][SPACE_REGIONS], spaces[space], 0);
    if |spaces[space]| > 1 {
      ChainHas(s.memory, s.memory[space][SPACE_REGIONS], spaces[space], 1);
    }
  }

  // ----- vm_virt_to_phys

  /** Translation of an address on a mapped page; an absent page is an assertion failure. */
  method VmVirtToPhys(m: Machine, space: nat, vaddr: Word) returns (paddr: nat)
    requires Ready(m) && space in m.spaces && Present(Lookup(m.memory, RootOf(m.memory, space), PathOf(vaddr)))
    ensures paddr == PhysicalOf(m.memory, RootOf(m.memory, space), vaddr)
  {
    hide Inv, VmInv, PathOf, SpaceOk;
    SpaceFacts(m.State(), m.ledger, m.spaces, space);
    var entry := m.GetEntry(m.memory[space][SPACE_PML4], vaddr);
    paddr := AddressBits(entry) + vaddr % PAGE_SIZE;
  }
}
