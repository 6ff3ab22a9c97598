/** What a process can reach: addresses in allocated ranges, their flags, and the tables above them (vm.c). */
module VmAccess {
  import opened Words
  import opened PageTables
  import opened Mapping
  import opened AddressSpaces
  import opened Permissions
  import opened Ownership
  import opened VmPages
  import opened VmSpaces
  import opened VmAllocation
  import opened VmRelease
  import opened VmLaws
  import opened VmCreation
  import opened VmWindows

  // ----- addresses of a range

  /** The pages of a lower-half range hold exactly its addresses, among those of the lower half. */
  lemma AddressInRange(base: Word, pages: nat, a: Word)
    requires LowerRange(base, pages) && a < LOWER_LIMIT
    ensures PathOf(a) in RangePaths(base, pages) <==> base <= a < base + pages * PAGE_SIZE
  {
    hide PathOf, PageStep;
    LowerPage(a);
    if base <= a < base + pages * PAGE_SIZE {
      var i := (a - base) / PAGE_SIZE;
      PageInRange(base, pages, a);
      LowerStep(base, pages, i);
      PathIsPage(PageStep(base, i), a);
      assert RangePaths(base, pages)[i] == PathOf(a);
    }
    if PathOf(a) in RangePaths(base, pages) {
      var i := PathOfRange(base, pages, PathOf(a));
      LowerStep(base, pages, i);
      PathIsPage(PageStep(base, i), a);
      PageHolds(base, pages, i, a);
    }
  }

  lemma LowerPage(a: Word)
    requires a < LOWER_LIMIT
    ensures PageOf(a) == a / PAGE_SIZE && PathOf(a).l4 < 256
  {
    hide PathOf;
    PathIsPage(a, a);
  }

  lemma PageInRange(base: Word, pages: nat, a: Word)
    requires base % PAGE_SIZE == 0 && base <= a < base + pages * PAGE_SIZE
    ensures (a - base) / PAGE_SIZE < pages && a / PAGE_SIZE == base / PAGE_SIZE + (a - base) / PAGE_SIZE
  {
  }

  lemma PageHolds(base: Word, pages: nat, i: nat, a: Word)
    requires base % PAGE_SIZE == 0 && i < pages && a / PAGE_SIZE == base / PAGE_SIZE + i
    ensures base <= a < base + pages * PAGE_SIZE
  {
  }

  /** The address is mapped with these flags: each bit outside the address field is that of the flags, and PRESENT. */
  predicate Reads(m: Memory, root: nat, a: Word, flags: Word) {
    var e := Lookup(m, root, PathOf(a));
    e % 2 == 1 && e % 0x1000 / 2 == flags % 0x1000 / 2 && e / 0x10_0000_0000_0000 == flags / 0x10_0000_0000_0000
  }

  /** vm_alloc_at: every address of the range can be reached with the flags asked for; no other one changes. */
  lemma AllocatedAddress(s: Physical, g: Ledger, spaces: Spaces, space: nat, base: Word, pages: nat, flags: Word,
                         a: Word)
    requires CanAllocRegion(s, g, spaces, space, base, pages, flags) && a < LOWER_LIMIT
    ensures var n, root := AllocRegion(s, space, base, pages, flags).memory, RootOf(s.memory, space);
            if base <= a < base + pages * PAGE_SIZE then Reads(n, root, a, flags)
            else Lookup(n, root, PathOf(a)) == Lookup(s.memory, root, PathOf(a))
  {
    hide VmInv, CanAllocPages, RangePaths, AllocRegion, Lookup, PathOf, LeafEntry;
    SpaceFacts(s, g, spaces, space);
    AddressInRange(base, pages, a);
    AllocRegionLookup(s, g, spaces, space, base, pages, flags, RootOf(s.memory, space), PathOf(a));
    if base <= a < base + pages * PAGE_SIZE {
      var f :| f in g.roles && f < WORD_LIMIT
               && Lookup(AllocRegion(s, space, base, pages, flags).memory, RootOf(s.memory, space), PathOf(a))
                    == LeafEntry(f, flags);
      LeafGrants(f, flags);
    }
  }

  lemma SameRoot(s: Physical, g: Ledger, spaces: Spaces, space: nat, base: Word, pages: nat, flags: Word)
    requires CanAllocRegion(s, g, spaces, space, base, pages, flags)
    ensures RootOf(AllocRegion(s, space, base, pages, flags).memory, space) == RootOf(s.memory, space)
  {
    hide VmInv, CanAllocPages, AllocPages, RangePaths, AllocRegion, Chain;
    NewRegionChain(s, g, spaces, space, base, pages, flags);
  }

  /** All bytes that the caller asked for can be reached. */
  lemma AllocatedBytes(s: Physical, g: Ledger, spaces: Spaces, space: nat, base: Word, size: Word, flags: Word)
    requires 0 < size <= WORD_LIMIT - PAGE_SIZE
    requires CanAllocRegion(s, g, spaces, space, base, RoundUp(size) / PAGE_SIZE, flags)
    ensures var n := AllocRegion(s, space, base, RoundUp(size) / PAGE_SIZE, flags).memory;
            forall a: Word :: base <= a < base + size ==> Reads(n, RootOf(n, space), a, flags)
  {
    hide CanAllocRegion, AllocRegion, Reads;
    var pages := RoundUp(size) / PAGE_SIZE;
    SameRoot(s, g, spaces, space, base, pages, flags);
    RangeIsLow(s, g, spaces, space, base, pages, flags);
    forall a: Word | base <= a < base + size
      ensures Reads(AllocRegion(s, space, base, pages, flags).memory, RootOf(s.memory, space), a, flags) {
      AllocatedAddress(s, g, spaces, space, base, pages, flags, a);
    }
  }

  lemma RangeIsLow(s: Physical, g: Ledger, spaces: Spaces, space: nat, base: Word, pages: nat, flags: Word)
    requires CanAllocRegion(s, g, spaces, space, base, pages, flags)
    ensures CleanFlags(flags) && LowerRange(base, pages) && base + pages * PAGE_SIZE <= LOWER_LIMIT
    ensures space in spaces
  {
  }

  /** vm_alloc: the bytes asked for end by the new next_free, which is less than a page further. */
  lemma NextBytes(s: Physical, g: Ledger, spaces: Spaces, space: nat, size: Word, flags: Word)
    requires CanAllocNext(s, g, spaces, space, size, flags)
    ensures var v, n := NextFree(s.memory, space), AllocNext(s, g, spaces, space, size, flags).0.memory;
            && v + size <= NextFree(n, space) < v + size + PAGE_SIZE
            && NextFree(n, space) % PAGE_SIZE == 0 && HeapEnd(n, space) == HeapEnd(s.memory, space)
            && forall a: Word :: v <= a < v + size ==> Reads(n, RootOf(n, space), a, flags)
  {
    hide VmInv, AllocRegion, CanAllocRegion, AllocRegionLedger, RangePaths, Lookup, PathOf;
    var v, pages := s.memory[space][SPACE_NEXT_FREE], RoundUp(size) / PAGE_SIZE;
    RangeIsLow(s, g, spaces, space, v, pages, flags);
    var t, h, all := AllocRegion(s, space, v, pages, flags), AllocRegionLedger(s, g, space, v, pages, flags),
                     AllocRegionSpaces(s, spaces, space, v, pages, flags);
    NextFreeIsKept(s, g, spaces, space, v, pages, flags);
    AllocatedBytes(s, g, spaces, space, v, size, flags);
    AllocRegionKeepsVm(s, g, spaces, space, v, pages, flags);
    SpaceWordReads(t, h, all, space, SPACE_NEXT_FREE, v + pages * PAGE_SIZE);
    var n := WithWord(t, space, SPACE_NEXT_FREE, v + pages * PAGE_SIZE).memory;
    assert n == AllocNext(s, g, spaces, space, size, flags).0.memory;
    forall a: Word | v <= a < v + size ensures Reads(n, RootOf(n, space), a, flags) {
      assert Reads(t.memory, RootOf(t.memory, space), a, flags);
    }
  }

  /** A bookkeeping word of a space changes no lookup below its root. */
  lemma SpaceWordReads(s: Physical, g: Ledger, spaces: Spaces, space: nat, i: Index, w: Word)
    requires VmInv(s, g, spaces) && space in spaces && space in s.memory && Bookkeeping(i)
    ensures var n := WithWord(s, space, i, w).memory;
            && RootOf(n, space) == RootOf(s.memory, space)
            && forall p :: Lookup(n, RootOf(n, space), p) == Lookup(s.memory, RootOf(s.memory, space), p)
  {
    hide VmInv, Lookup, Inv, Settled, SpaceOk;
    var n, root := WithWord(s, space, i, w).memory, RootOf(s.memory, space);
    SpaceFacts(s, g, spaces, space);
    VmInvInv(s, g, spaces);
    forall p ensures Lookup(n, root, p) == Lookup(s.memory, root, p) {
      RecordWriteWalk(s, g, space, i, w, root, p);
    }
  }

  /** vm_free: no address of the region can be reached, every other one of the lower half as before. */
  lemma FreedAddress(s: Physical, g: Ledger, spaces: Spaces, space: nat, k: nat, a: Word)
    requires CanRelease(s, g, spaces, space, k) && a < LOWER_LIMIT
    ensures var n, root, r := FreeRegion(s, space, spaces[space], k).memory, RootOf(s.memory, space), spaces[space][k];
            Lookup(n, root, PathOf(a))
              == if r.base <= a < r.base + r.pages * PAGE_SIZE then 0 else Lookup(s.memory, root, PathOf(a))
  {
    hide VmInv, FreeRegion, RangePaths, PathOf, Lookup;
    SpaceFacts(s, g, spaces, space);
    RegionsAreLower(s, g, spaces, space);
    AddressInRange(spaces[space][k].base, spaces[space][k].pages, a);
    FreeRegionLookup(s, g, spaces, space, k, RootOf(s.memory, space), PathOf(a));
  }

  lemma FreedBytes(s: Physical, g: Ledger, spaces: Spaces, space: nat, k: nat, size: nat)
    requires CanRelease(s, g, spaces, space, k) && size <= spaces[space][k].pages * PAGE_SIZE
    ensures var n, v := FreeRegion(s, space, spaces[space], k).memory, spaces[space][k].base;
            && RootOf(n, space) == RootOf(s.memory, space)
            && forall a: Word :: v <= a < v + size ==> Lookup(n, RootOf(n, space), PathOf(a)) == 0
  {
    hide VmInv, FreeRegion, RangePaths, PathOf, Lookup;
    RegionsAreLower(s, g, spaces, space);
    RootIsKept(s, g, spaces, space, k);
    var v := spaces[space][k].base;
    forall a: Word | v <= a < v + size
      ensures Lookup(FreeRegion(s, space, spaces[space], k).memory, RootOf(s.memory, space), PathOf(a)) == 0 {
      FreedAddress(s, g, spaces, space, k, a);
    }
  }

  lemma RootIsKept(s: Physical, g: Ledger, spaces: Spaces, space: nat, k: nat)
    requires CanRelease(s, g, spaces, space, k)
    ensures RootOf(FreeRegion(s, space, spaces[space], k).memory, space) == RootOf(s.memory, space)
  {
    hide VmInv, FreeRegion, Chain;
    FreeRegionChain(s, g, spaces, space, k);
  }

  /** vm_virt_to_phys. */
  function PhysicalOf(m: Memory, root: nat, a: Word): nat {
    AddressBits(Lookup(m, root, PathOf(a))) + a % PAGE_SIZE
  }

  lemma FramePlusOffset(f: nat, i: nat, g: nat, j: nat)
    requires f % PAGE_SIZE == 0 && g % PAGE_SIZE == 0 && i < PAGE_SIZE && j < PAGE_SIZE && f + i == g + j
    ensures f == g && i == j
  {
  }

  lemma AddressAligned(w: Word)
    ensures AddressBits(w) % PAGE_SIZE == 0
  {
  }

  /** No byte of memory stands behind two addresses, of one space or of two. */
  lemma BytesAreApart(s: Physical, g: Ledger, spaces: Spaces, x: nat, a: Word, y: nat, b: Word)
    requires VmInv(s, g, spaces) && x in spaces && y in spaces && a < LOWER_LIMIT && b < LOWER_LIMIT
    requires Present(Lookup(s.memory, RootOf(s.memory, x), PathOf(a)))
    requires Present(Lookup(s.memory, RootOf(s.memory, y), PathOf(b)))
    requires PhysicalOf(s.memory, RootOf(s.memory, x), a) == PhysicalOf(s.memory, RootOf(s.memory, y), b)
    ensures x == y && a == b
  {
    hide VmInv, Lookup, PathOf, AddressBits;
    LowerPage(a);
    LowerPage(b);
    var e, f := Lookup(s.memory, RootOf(s.memory, x), PathOf(a)), Lookup(s.memory, RootOf(s.memory, y), PathOf(b));
    AddressAligned(e);
    AddressAligned(f);
    FramePlusOffset(AddressBits(e), a % PAGE_SIZE, AddressBits(f), b % PAGE_SIZE);
    PagesShareNoFrame(s, g, spaces, x, PathOf(a), y, PathOf(b));
    PathIsPage(a, b);
    assert a == a / PAGE_SIZE * PAGE_SIZE + a % PAGE_SIZE && b == b / PAGE_SIZE * PAGE_SIZE + b % PAGE_SIZE;
  }

  // ----- tables that user code may pass

  /** Every present entry of an inner table below a lower half is open to writing and to user code. */
  ghost predicate UserTables(m: Memory, roles: Roles) {
    forall t, i: Index ::
      IsTable(roles, t) && roles[t].level > 1 && ManagedSlot(roles[t], i) && t in m && m[t][i] % 2 == 1 ==>
        m[t][i] % 8 == 7
  }

  /** Then no walk below a lower half is held up. */
  lemma {:induction false} UserTablesAreOpen(m: Memory, roles: Roles, t: nat, level: nat, p: Path)
    requires TreeDown(m, roles) && UserTables(m, roles)
    requires IsTable(roles, t) && roles[t].level == level && 1 <= level <= 4 && ManagedPath(roles, t, level, p)
    ensures Open(m, t, level, p)
    decreases level
  {
    if level > 1 && m[t][p.At(level)] % 2 == 1 {
      UserTablesAreOpen(m, roles, AddressBits(m[t][p.At(level)]), level - 1, p);
    }
  }

  /** Inner tables that keep their words and their place stay open. */
  lemma KeptTablesStayOpen(m: Memory, n: Memory, before: Roles, after: Roles)
    requires UserTables(m, before)
    requires forall t :: IsTable(after, t) && after[t].level > 1 ==>
               IsTable(before, t) && after[t] == before[t] && (t in n ==> t in m && n[t] == m[t])
    ensures UserTables(n, after)
  {
  }

  /** Does the flag word ask for user access? */
  predicate ForUser(flags: Word) {
    flags / 4 % 2 == 1
  }

  lemma MapKeepsOpen(s: Physical, g: Ledger, root: nat, p: Path, paddr: Word, flags: Word)
    requires CanMap(s, g, root, 4, p) && CleanFlags(flags) && ForUser(flags) && UserTables(s.memory, g.roles)
    ensures UserTables(MapPage(s, root, p, paddr, flags).memory, MapLedger(s, g, root, 4, p, flags).roles)
  {
    hide Inv, MapFrom, MapLedger;
    var n, after := MapPage(s, root, p, paddr, flags).memory, MapLedger(s, g, root, 4, p, flags).roles;
    forall t, i: Index | IsTable(after, t) && after[t].level > 1 && ManagedSlot(after[t],
                                                                                i) && t in n && n[t][i] % 2 == 1
      ensures n[t][i] % 8 == 7
    {
      MapAdds(s, g, root, 4, p, paddr, flags, t, i);
      if n[t][i] % 0x1000 == 7 {
        SevenModEight(n[t][i]);
      } else {
        MapKeepsRoles(s, g, root, 4, p, flags, t);
      }
    }
  }

  lemma SevenModEight(w: Word)
    requires w % 0x1000 == 7
    ensures w % 8 == 7
  {
  }

  lemma AllocPageKeepsOpen(s: Physical, g: Ledger, root: nat, p: Path, flags: Word)
    requires CanAllocPage(s, g, root, p) && CleanFlags(flags) && ForUser(flags) && UserTables(s.memory, g.roles)
    ensures UserTables(AllocPage(s, root, p, flags).memory, AllocPageLedger(s, g, root, p, flags).roles)
  {
    hide Inv, Leaves, CanMap, MapPage, MapLedger, CleanFlags, UserTables, LeafTable, Settled;
    PopCanMap(s, g, root, p);
    RetaggedStayOpen(s.memory, g.roles, s.pageList, Other);
    MapKeepsOpen(Pop(s), PopLedger(s, g), root, p, s.pageList, flags);
    var n := AllocPage(s, root, p, flags).memory;
    RetaggedStayOpen(n, MapLedger(Pop(s), PopLedger(s, g), root, 4, p, flags).roles, s.pageList,
                     Data(LeafTable(n, root, 4, p), p.l1));
  }

  lemma RetaggedStayOpen(m: Memory, roles: Roles, f: nat, role: Role)
    requires UserTables(m, roles) && !role.Table?
    ensures UserTables(m, roles[f := role])
  {
    KeptTablesStayOpen(m, m, roles, roles[f := role]);
  }

  lemma {:induction false} AllocPagesKeepOpen(s: Physical, g: Ledger, root: nat, paths: seq<Path>, flags: Word)
    requires CleanFlags(flags) && CanAllocPages(s, g, root, paths, flags) && ForUser(flags)
    requires UserTables(s.memory, g.roles)
    ensures UserTables(AllocPages(s, root, paths, flags).memory, AllocPagesLedger(s, g, root, paths, flags).roles)
  {
    hide CanAllocPage, Settled, AllocPage, AllocPageLedger, UserTables;
    if paths != [] {
      AllocPagesKeepOpen(s, g, root, Front(paths), flags);
      AllocPageKeepsOpen(AllocPages(s, root, Front(paths), flags), AllocPagesLedger(s, g, root, Front(paths), flags),
                         root, Last(paths), flags);
    }
  }

  lemma AllocRegionKeepsOpen(s: Physical, g: Ledger, spaces: Spaces, space: nat, base: Word, pages: nat, flags: Word)
    requires CanAllocRegion(s, g, spaces, space, base, pages, flags) && ForUser(flags)
    requires UserTables(s.memory, g.roles)
    ensures UserTables(AllocRegion(s, space, base, pages, flags).memory,
                       AllocRegionLedger(s, g, space, base, pages, flags).roles)
  {
    AllocPagesReadyToInsert(s, g, spaces, space, base, pages, flags);
    hide VmInv, CanAllocPages, RangePaths, Settled, AllocPages, AllocPagesLedger;
    var root, paths := RootOf(s.memory, space), RangePaths(base, pages);
    AllocPagesKeepOpen(s, g, root, paths, flags);
    NewRegionKeepsOpen(AllocPages(s, root, paths, flags), AllocPagesLedger(s, g, root, paths, flags), space, base,
                       pages * PAGE_SIZE);
  }

  lemma NewRegionKeepsOpen(s: Physical, g: Ledger, space: nat, base: Word, size: Word)
    requires CanInsert(s, g, space) && UserTables(s.memory, g.roles) && s.pageList in s.memory && space in s.memory
    ensures UserTables(NewRegion(s, space, base, size).memory, TagLedger(s, g, RegionRecord(space)).roles)
  {
    NewRegionSettles(s, g, space, base, size);
    hide Leaves, TreeUp, FreeList;
    var n, after := NewRegion(s, space, base, size).memory, TagLedger(s, g, RegionRecord(space)).roles;
    KeptTablesStayOpen(s.memory, n, g.roles, after);
  }

  /** vm_free writes no inner table. */
  lemma FreeRegionKeepsTable(s: Physical, g: Ledger, spaces: Spaces, space: nat, k: nat, t: nat)
    requires CanRelease(s, g, spaces, space, k) && IsTable(g.roles, t) && g.roles[t].level > 1
    ensures t in s.memory && t in FreeRegion(s, space, spaces[space], k).memory
    ensures FreeRegion(s, space, spaces[space], k).memory[t] == s.memory[t]
  {
    hide VmInv, CanFreePages, Unlinked, FreeRegion, RangePaths, SpaceOk, Released, ReleasedLedger;
    ReleaseFacts(s, g, spaces, space, k);
    ReleaseKeepsTable(s, g, RootOf(s.memory, space), PathsOf(spaces[space][k]), t);
    ReleasedIs(s, space, spaces[space][k]);
    UnlinkedIsWrite(s, g, spaces, space, k);
    LinkOwnerFacts(s, g, spaces, space, k);
    RecordFacts(s, g, spaces, space, k);
    FreeRegionIsPush(s, g, spaces, space, k);
  }

  lemma ReleasedIs(s: Physical, space: nat, region: Region)
    ensures Released(s, space, region) == ReleasePages(s, RootOf(s.memory, space), PathsOf(region))
  {
  }

  lemma ReleaseKeepsTable(s: Physical, g: Ledger, root: nat, paths: seq<Path>, t: nat)
    requires CanFreePages(s, g, root, paths) && IsTable(g.roles, t) && g.roles[t].level > 1
    ensures t in s.memory && t in ReleasePages(s, root, paths).memory
    ensures ReleasePages(s, root, paths).memory[t] == s.memory[t]
  {
    TablesInMemory(s, g, root, paths, t);
    hide CanFreePages, Inv, Leaves, FreePages;
    RootIsRoot(s, g, root, paths);
    FreePagesKeepOthers(s, g, root, paths, t);
    FreePagesRoles(s, g, root, paths, t);
    FreePagesState(s, g, root, paths, root, Path(0, 0, 0, 0));
    UnmapStepsKeepInnerTables(FreePages(s, root, paths), FreePagesLedger(s, g, root, paths), root, paths, t);
  }

  lemma TablesInMemory(s: Physical, g: Ledger, root: nat, paths: seq<Path>, t: nat)
    requires CanFreePages(s, g, root, paths) && t in g.roles
    ensures t in s.memory
  {
  }

  lemma FreeRegionKeepsOpen(s: Physical, g: Ledger, spaces: Spaces, space: nat, k: nat)
    requires CanRelease(s, g, spaces, space, k) && UserTables(s.memory, g.roles)
    ensures UserTables(FreeRegion(s, space, spaces[space], k).memory,
                       FreeRegionLedger(s, g, space, spaces[space], k).roles)
  {
    hide VmInv, FreeRegion, FreeRegionLedger, UserTables, PathsOf;
    var n, after := FreeRegion(s, space, spaces[space], k).memory,
                    FreeRegionLedger(s, g, space, spaces[space], k).roles;
    FreeRegionDomain(s, g, spaces, space, k);
    forall t | IsTable(after, t) && after[t].level > 1
      ensures IsTable(g.roles, t) && after[t] == g.roles[t] && t in n && t in s.memory && n[t] == s.memory[t]
    {
      FreeRegionRoles(s, g, spaces, space, k, t);
      FreeRegionKeepsTable(s, g, spaces, space, k, t);
    }
    KeptTablesStayOpen(s.memory, n, g.roles, after);
  }

  lemma {:induction false} DestroyKeepsOpen(s: Physical, g: Ledger, spaces: Spaces, space: nat)
    requires VmInv(s, g, spaces) && space in spaces && UserTables(s.memory, g.roles)
    ensures UserTables(DestroyState(s, space, spaces[space]).memory, DestroyLedger(s, g, space, spaces[space]).roles)
    decreases |spaces[space]|
  {
    hide VmInv, FreeRegion, FreeRegionLedger, UserTables;
    if spaces[space] != [] {
      FreeRegionKeepsVm(s, g, spaces, space, 0);
      FreeRegionKeepsOpen(s, g, spaces, space, 0);
      assert Without(spaces[space], 0) == spaces[space][1..];
      DestroyKeepsOpen(FreeRegion(s, space, spaces[space], 0), FreeRegionLedger(s, g, space, spaces[space], 0),
                       FreeRegionSpaces(spaces, space, 0), space);
    }
  }

  /** A new root has nothing below its lower half. */
  lemma CreateKeepsOpen(s: Physical, g: Ledger, spaces: Spaces, kernel: nat, base: Word, end: Word)
    requires CanCreateSpace(s, g, spaces, kernel) && UserTables(s.memory, g.roles)
    ensures UserTables(CreateSpace(s, kernel, base, end).memory, CreateSpaceLedger(s, g).roles)
  {
    hide VmInv, Settled, CanCreate, UserTables, KernelHalf;
    CreateFacts(s, g, spaces, kernel);
    FreshRootIsOpen(s.memory, CreateSpace(s, kernel, base, end).memory, g.roles, CreateSpaceLedger(s, g).roles,
                    RootFrame(s), s.memory[kernel]);
  }

  lemma FreshRootIsOpen(m: Memory, n: Memory, before: Roles, after: Roles, root: nat, kernel: Frame)
    requires UserTables(m, before) && root in n && n[root] == KernelHalf(kernel)
    requires root in after && after[root].Table? && after[root].level == 4
    requires forall t :: IsTable(after, t) && t != root ==>
               IsTable(before, t) && after[t] == before[t] && (t in n ==> t in m && n[t] == m[t])
    ensures UserTables(n, after)
  {
    forall t, i: Index | IsTable(after, t) && after[t].level > 1 && ManagedSlot(after[t],
                                                                                i) && t in n && n[t][i] % 2 == 1
      ensures n[t][i] % 8 == 7
    {
      if t != root {
        assert ManagedSlot(before[t], i);
      }
    }
  }

  lemma NextKeepsOpen(s: Physical, g: Ledger, spaces: Spaces, space: nat, size: Word, flags: Word)
    requires CanAllocNext(s, g, spaces, space, size, flags) && ForUser(flags) && UserTables(s.memory, g.roles)
    ensures var (t, h, _) := AllocNext(s, g, spaces, space, size, flags); UserTables(t.memory, h.roles)
  {
    hide VmInv, AllocRegion, AllocRegionLedger, CanAllocPages, RangePaths, UserTables;
    var v, pages := s.memory[space][SPACE_NEXT_FREE], RoundUp(size) / PAGE_SIZE;
    RangeIsLow(s, g, spaces, space, v, pages, flags);
    var t, h := AllocRegion(s, space, v, pages, flags), AllocRegionLedger(s, g, space, v, pages, flags);
    NextFreeIsKept(s, g, spaces, space, v, pages, flags);
    AllocRegionKeepsOpen(s, g, spaces, space, v, pages, flags);
    AllocRegionKeepsVm(s, g, spaces, space, v, pages, flags);
    SpaceWordKeepsOpen(t, h, AllocRegionSpaces(s, spaces, space, v, pages, flags), space, SPACE_NEXT_FREE,
                       v + pages * PAGE_SIZE);
  }

  lemma SpaceWordKeepsOpen(s: Physical, g: Ledger, spaces: Spaces, space: nat, i: Index, w: Word)
    requires VmInv(s, g, spaces) && space in spaces && space in s.memory && UserTables(s.memory, g.roles)
    ensures UserTables(WithWord(s, space, i, w).memory, g.roles)
  {
    hide SpaceOk, Accounted, UserTables, Leaves, TreeUp, FreeList;
    SpaceFacts(s, g, spaces, space);
    KeptTablesStayOpen(s.memory, WithWord(s, space, i, w).memory, g.roles, g.roles);
  }

  // ----- pages that user code may reach

  /** Every present page below a lower half has the user bit. */
  ghost predicate UserPages(m: Memory, roles: Roles) {
    forall r, p: Path ::
      ManagedRoot(roles, r) && p.l4 < 256 && Lookup(m, r, p) % 2 == 1 ==> Lookup(m, r, p) / 4 % 2 == 1
  }

  lemma UserBit(entry: Word, paddr: Word, flags: Word)
    requires Grants(entry, paddr, flags) && ForUser(flags)
    ensures entry / 4 % 2 == 1
  {
    BitTwo(entry);
    BitTwo(flags);
  }

  lemma BitTwo(w: Word)
    ensures w / 4 % 2 == w % 0x1000 / 2 / 2 % 2
  {
    var h, l := w / 0x1000, w % 0x1000;
    QuarterOf(h, l);
    assert l / 2 / 2 == l / 4;
  }

  lemma QuarterOf(h: nat, l: nat)
    ensures (h * 0x1000 + l) / 4 == h * 0x400 + l / 4
    ensures (h * 0x400 + l / 4) % 2 == l / 4 % 2
  {
    assert (h * 0x400 + l / 4) == (h * 0x200) * 2 + l / 4;
  }

  lemma AllocRegionKeepsUser(s: Physical, g: Ledger, spaces: Spaces, space: nat, base: Word, pages: nat, flags: Word)
    requires CanAllocRegion(s, g, spaces, space, base, pages, flags) && ForUser(flags) && UserPages(s.memory, g.roles)
    ensures UserPages(AllocRegion(s, space, base, pages, flags).memory,
                      AllocRegionLedger(s, g, space, base, pages, flags).roles)
  {
    hide VmInv, CanAllocPages, RangePaths, AllocRegion, AllocRegionLedger, Lookup, LeafEntry, AllocPages, LeafTable,
         Grants, ForUser;
    var n, after := AllocRegion(s, space, base, pages, flags).memory,
                    AllocRegionLedger(s, g, space, base, pages, flags).roles;
    forall r, p: Path | ManagedRoot(after, r) && p.l4 < 256 && Lookup(n, r, p) % 2 == 1
      ensures Lookup(n, r, p) / 4 % 2 == 1
    {
      AllocRegionDomain(s, g, spaces, space, base, pages, flags, r);
      AllocRegionRoles(s, g, spaces, space, base, pages, flags, r);
      AllocRegionLookup(s, g, spaces, space, base, pages, flags, r, p);
      if r == RootOf(s.memory, space) && p in RangePaths(base, pages) {
        var f :| f in g.roles && f < WORD_LIMIT && Lookup(n, r, p) == LeafEntry(f, flags);
        LeafGrants(f, flags);
        UserBit(LeafEntry(f, flags), f, flags);
      }
    }
  }

  lemma FreeRegionKeepsUser(s: Physical, g: Ledger, spaces: Spaces, space: nat, k: nat)
    requires CanRelease(s, g, spaces, space, k) && UserPages(s.memory, g.roles)
    ensures UserPages(FreeRegion(s, space, spaces[space], k).memory,
                      FreeRegionLedger(s, g, space, spaces[space], k).roles)
  {
    hide VmInv, FreeRegion, FreeRegionLedger, PathsOf, Lookup;
    var n, after := FreeRegion(s, space, spaces[space], k).memory,
                    FreeRegionLedger(s, g, space, spaces[space], k).roles;
    FreeRegionDomain(s, g, spaces, space, k);
    forall r, p: Path | ManagedRoot(after, r) && p.l4 < 256 && Lookup(n, r, p) % 2 == 1
      ensures Lookup(n, r, p) / 4 % 2 == 1
    {
      FreeRegionRoles(s, g, spaces, space, k, r);
      FreeRegionLookup(s, g, spaces, space, k, r, p);
    }
  }

  lemma {:induction false} DestroyKeepsUser(s: Physical, g: Ledger, spaces: Spaces, space: nat)
    requires VmInv(s, g, spaces) && space in spaces && UserPages(s.memory, g.roles)
    ensures UserPages(DestroyState(s, space, spaces[space]).memory, DestroyLedger(s, g, space, spaces[space]).roles)
    decreases |spaces[space]|
  {
    hide VmInv, FreeRegion, FreeRegionLedger, UserPages;
    if spaces[space] != [] {
      FreeRegionKeepsVm(s, g, spaces, space, 0);
      FreeRegionKeepsUser(s, g, spaces, space, 0);
      assert Without(spaces[space], 0) == spaces[space][1..];
      DestroyKeepsUser(FreeRegion(s, space, spaces[space], 0), FreeRegionLedger(s, g, space, spaces[space], 0),
                       FreeRegionSpaces(spaces, space, 0), space);
    }
  }

  lemma CreateKeepsUser(s: Physical, g: Ledger, spaces: Spaces, kernel: nat, base: Word, end: Word)
    requires CanCreateSpace(s, g, spaces, kernel) && UserPages(s.memory, g.roles)
    ensures UserPages(CreateSpace(s, kernel, base, end).memory, CreateSpaceLedger(s, g).roles)
  {
    hide VmInv, Lookup, Settled, CreateSpace, CanCreate;
    CreateFacts(s, g, spaces, kernel);
    var n, after := CreateSpace(s, kernel, base, end).memory, CreateSpaceLedger(s, g).roles;
    forall r, p: Path | ManagedRoot(after, r) && p.l4 < 256 && Lookup(n, r, p) % 2 == 1
      ensures Lookup(n, r, p) / 4 % 2 == 1
    {
      assert r != RootFrame(s) ==> IsRoot(g.roles, r) && ManagedRoot(g.roles, r);
      CreateSpaceLookup(s, g, spaces, kernel, base, end, r, p);
    }
  }

  lemma NextKeepsUser(s: Physical, g: Ledger, spaces: Spaces, space: nat, size: Word, flags: Word)
    requires CanAllocNext(s, g, spaces, space, size, flags) && ForUser(flags) && UserPages(s.memory, g.roles)
    ensures var (t, h, _) := AllocNext(s, g, spaces, space, size, flags); UserPages(t.memory, h.roles)
  {
    hide VmInv, AllocRegion, AllocRegionLedger, CanAllocPages, RangePaths, UserPages;
    var v, pages := s.memory[space][SPACE_NEXT_FREE], RoundUp(size) / PAGE_SIZE;
    RangeIsLow(s, g, spaces, space, v, pages, flags);
    var t, h := AllocRegion(s, space, v, pages, flags), AllocRegionLedger(s, g, space, v, pages, flags);
    NextFreeIsKept(s, g, spaces, space, v, pages, flags);
    AllocRegionKeepsUser(s, g, spaces, space, v, pages, flags);
    AllocRegionKeepsVm(s, g, spaces, space, v, pages, flags);
    SpaceWordKeepsUser(t, h, AllocRegionSpaces(s, spaces, space, v, pages, flags), space, SPACE_NEXT_FREE,
                       v + pages * PAGE_SIZE);
  }

  lemma SpaceWordKeepsUser(s: Physical, g: Ledger, spaces: Spaces, space: nat, i: Index, w: Word)
    requires VmInv(s, g, spaces) && space in spaces && space in s.memory && UserPages(s.memory, g.roles)
    ensures UserPages(WithWord(s, space, i, w).memory, g.roles)
  {
    hide VmInv, Lookup, Inv, Settled, SpaceOk;
    SpaceFacts(s, g, spaces, space);
    VmInvInv(s, g, spaces);
    forall r, p: Path | ManagedRoot(g.roles, r)
      ensures Lookup(WithWord(s, space, i, w).memory, r, p) == Lookup(s.memory, r, p) {
      RecordWriteWalk(s, g, space, i, w, r, p);
    }
  }
}
