/** Conservation of frames across address spaces: every frame has one use, and freeing undoes allocating. */
module VmLaws {
  import opened Words
  import opened PageTables
  import opened Mapping
  import opened AddressSpaces
  import opened Ownership
  import opened VmPages
  import opened VmSpaces
  import opened VmAllocation
  import opened VmRelease

  // ----- every frame is where its role says

  /** The table that a walk from t reaches at level `stop`; 0 when it meets an absent entry. */
  function Descend(m: Memory, t: nat, level: nat, p: Path, stop: nat): nat
    requires 1 <= stop <= level <= 4
    decreases level
  {
    if level == stop then t
    else if t !in m || !Present(m[t][p.At(level)]) then 0
    else Descend(m, AddressBits(m[t][p.At(level)]), level - 1, p, stop)
  }

  lemma {:induction false} DescendOne(m: Memory, t: nat, level: nat, p: Path, stop: nat)
    requires 1 <= stop < level <= 4 && 0 !in m
    ensures var c := Descend(m, t, level, p, stop + 1);
            Descend(m, t, level, p, stop) ==
            if c !in m || !Present(m[c][p.At(stop + 1)]) then 0 else AddressBits(m[c][p.At(stop + 1)])
    decreases level
  {
    if level > stop + 1 && t in m && Present(m[t][p.At(level)]) {
      DescendOne(m, AddressBits(m[t][p.At(level)]), level - 1, p, stop);
    }
  }

  lemma {:induction false} DescendToLeaf(m: Memory, t: nat, level: nat, p: Path)
    requires 1 <= level <= 4
    ensures Descend(m, t, level, p, 1) == LeafTable(m, t, level, p)
    decreases level
  {
    if level > 1 && t in m && Present(m[t][p.At(level)]) {
      DescendToLeaf(m, AddressBits(m[t][p.At(level)]), level - 1, p);
    }
  }

  function WithDigit(p: Path, level: nat, i: Index): Path
    requires 1 <= level <= 4
  {
    if level == 4 then p.(l4 := i)
    else if level == 3 then p.(l3 := i)
    else if level == 2 then p.(l2 := i)
    else p.(l1 := i)
  }

  predicate AgreeUpTo(p: Path, q: Path, level: nat) {
    (level >= 1 ==> p.l1 == q.l1) && (level >= 2 ==> p.l2 == q.l2) && (level >= 3 ==> p.l3 == q.l3)
  }

  /** Every table lies on a path from a root; a managed one below the lower half of a managed root. */
  lemma {:induction false} TableIsReached(m: Memory, roles: Roles, t: nat, p: Path) returns (root: nat, q: Path)
    requires TreeDown(m, roles) && TreeUp(m, roles) && 0 !in m && IsTable(roles, t)
    ensures IsRoot(roles, root) && AgreeUpTo(p, q, roles[t].level) && 1 <= roles[t].level <= 4
    ensures Descend(m, root, 4, q, roles[t].level) == t
    ensures roles[t].managed && roles[t].level < 4 ==> ManagedRoot(roles, root) && q.l4 < 256
    decreases if t in roles && roles[t].Table? then 4 - roles[t].level else 0
  {
    var level := roles[t].level;
    if level == 4 {
      root, q := t, p;
    } else {
      var parent, slot := roles[t].parent, roles[t].slot;
      assert Points(m, parent, slot, t) && Child(roles, parent, slot, t);
      root, q := TableIsReached(m, roles, parent, WithDigit(p, level + 1, slot));
      if level < 3 {
        assert q.At(level + 1) == slot;
      } else {
        q := WithDigit(q, 4, slot);
      }
      DescendOne(m, root, 4, q, level);
    }
  }

  /** Every data frame is mapped by a lower-half page of a space. */
  lemma DataFrameIsMapped(s: Physical, g: Ledger, spaces: Spaces, f: nat) returns (sp: nat, q: Path)
    requires VmInv(s, g, spaces) && f in g.roles && g.roles[f].Data?
    ensures sp in spaces && q.l4 < 256
    ensures Present(Lookup(s.memory, RootOf(s.memory, sp), q))
            && AddressBits(Lookup(s.memory, RootOf(s.memory, sp), q)) == f
  {
    hide SpaceOk;
    var t := g.roles[f].table;
    assert Points(s.memory, t, g.roles[f].slot, f);
    var root, path := TableIsReached(s.memory, g.roles, t, Path(0, 0, 0, g.roles[f].slot));
    q := path;
    DescendToLeaf(s.memory, root, 4, q);
    LeafTableIsTable(s.memory, g.roles, root, 4, q);
    sp :| sp in spaces && RootOf(s.memory, sp) == root;
  }

  /** A page of a space never maps a frame that another page of any space maps. */
  lemma PagesShareNoFrame(s: Physical, g: Ledger, spaces: Spaces, a: nat, p: Path, b: nat, q: Path)
    requires VmInv(s, g, spaces) && a in spaces && b in spaces && p.l4 < 256 && q.l4 < 256
    requires Present(Lookup(s.memory, RootOf(s.memory, a), p)) && Present(Lookup(s.memory, RootOf(s.memory, b), q))
    requires AddressBits(Lookup(s.memory, RootOf(s.memory, a), p))
               == AddressBits(Lookup(s.memory, RootOf(s.memory, b), q))
    ensures a == b && p == q
  {
    hide Covers, Chain, Layout, RecordsOf, FreeList;
    SpaceFacts(s, g, spaces, a);
    SpaceFacts(s, g, spaces, b);
    PageHasDataFrame(s, g, RootOf(s.memory, a), p);
    PageHasDataFrame(s, g, RootOf(s.memory, b), q);
    RootsMeet(s.memory, g.roles, RootOf(s.memory, b), RootOf(s.memory, a), q, p);
  }

  /**
   Why a range must be absent: allocating over a page that is mapped leaves the frame behind it on no free list and
   behind no page of any space, so that nothing can give it back.
   */
  lemma RemapLosesFrame(s: Physical, g: Ledger, spaces: Spaces, a: nat, p: Path, flags: Word, b: nat, q: Path)
    requires VmInv(s, g, spaces) && a in spaces && b in spaces && p.l4 < 256 && q.l4 < 256
    requires Present(Lookup(s.memory, RootOf(s.memory, a), p)) && g.free != [] && CleanFlags(flags)
    ensures var f := AddressBits(Lookup(s.memory, RootOf(s.memory, a), p));
            var after := Lookup(AllocPage(s, RootOf(s.memory, a), p, flags).memory, RootOf(s.memory, b), q);
            f !in g.free && !(Present(after) && AddressBits(after) == f)
  {
    hide Covers, Chain, Layout, RecordsOf, Walk, LeafTable, Missing, MapPage, LeafEntry, TreeDown, TreeUp;
    var root, r := RootOf(s.memory, a), RootOf(s.memory, b);
    SpaceFacts(s, g, spaces, a);
    SpaceFacts(s, g, spaces, b);
    PageHasDataFrame(s, g, root, p);
    ReachedMissesNothing(s.memory, root, 4, p);
    HeadIsFree(s, g);
    PopKeepsWalks(s, g, root, p);
    MapPageLookup(Pop(s), PopLedger(s, g), root, p, s.pageList, flags, r, q);
    FrameOfEntry(s, g, s.pageList, flags);
    if Present(Lookup(s.memory, r, q))
       && AddressBits(Lookup(s.memory, r, q)) == AddressBits(Lookup(s.memory, root, p)) {
      PagesShareNoFrame(s, g, spaces, a, p, b, q);
    }
  }

  predicate IsListed(spaces: Spaces, f: nat) {
    exists sp, k :: sp in spaces && 0 <= k < |spaces[sp]| && spaces[sp][k].record == f
  }

  ghost predicate IsMapped(m: Memory, spaces: Spaces, f: nat) {
    exists sp, q: Path ::
      sp in spaces && q.l4 < 256 && Present(Lookup(m, RootOf(m, sp), q))
      && AddressBits(Lookup(m, RootOf(m, sp), q)) == f
  }

  // ----- page tables

  /** A walk that is not cut short meets a table of the right level at every step. */
  lemma {:induction false} DescendIsTable(m: Memory, roles: Roles, t: nat, level: nat, p: Path, stop: nat)
    requires TreeDown(m, roles) && IsTable(roles, t) && roles[t].level == level && 1 <= stop <= level <= 4
    ensures Descend(m, t, level, p, stop) != 0 ==> IsTable(roles, Descend(m, t, level, p, stop))
    decreases level
  {
    if level > stop && Present(m[t][p.At(level)]) {
      DescendIsTable(m, roles, AddressBits(m[t][p.At(level)]), level - 1, p, stop);
    }
  }

  /** The roots that belong to no space: those of the kernel. */
  predicate IsKernelRoot(role: Role) {
    role.Table? && role.level == 4 && !role.managed
  }

  function KernelRoots(roles: Roles): set<nat> {
    set r | r in roles && IsKernelRoot(roles[r])
  }

  predicate IsSpaceRoot(m: Memory, spaces: Spaces, root: nat) {
    exists sp :: sp in spaces && RootOf(m, sp) == root
  }

  /** A walk from a kernel root or from the root of a space meets the frame. */
  ghost predicate IsPageTable(m: Memory, kernelRoots: set<nat>, spaces: Spaces, f: nat) {
    exists root, q: Path, level ::
      1 <= level <= 4 && (root in kernelRoots || IsSpaceRoot(m, spaces, root))
      && Descend(m, root, 4, q, level) == f != 0
  }

  lemma TableIsInUse(s: Physical, g: Ledger, spaces: Spaces, f: nat)
    requires VmInv(s, g, spaces) && f in g.roles
    ensures g.roles[f].Table? <==> IsPageTable(s.memory, KernelRoots(g.roles), spaces, f)
  {
    hide SpaceOk, Leaves, FreeList;
    if g.roles[f].Table? {
      var root, q := TableIsReached(s.memory, g.roles, f, Path(0, 0, 0, 0));
      if g.roles[root].managed {
        assert ManagedRoot(g.roles, root);
        var sp :| sp in spaces && RootOf(s.memory, sp) == root;
      }
      assert Descend(s.memory, root, 4, q, g.roles[f].level) == f;
    }
    if IsPageTable(s.memory, KernelRoots(g.roles), spaces, f) {
      var root, q: Path, level :| 1 <= level <= 4 && (root in KernelRoots(g.roles)
                                                      || IsSpaceRoot(s.memory, spaces, root))
                                  && Descend(s.memory, root, 4, q, level) == f != 0;
      RootsAreTables(s, g, spaces, root);
      DescendIsTable(s.memory, g.roles, root, 4, q, level);
    }
  }

  lemma RootsAreTables(s: Physical, g: Ledger, spaces: Spaces, root: nat)
    requires VmInv(s, g, spaces) && (root in KernelRoots(g.roles) || IsSpaceRoot(s.memory, spaces, root))
    ensures IsRoot(g.roles, root)
  {
    hide VmInv;
    if root !in KernelRoots(g.roles) {
      var sp :| sp in spaces && RootOf(s.memory, sp) == root;
      SpaceFacts(s, g, spaces, sp);
    }
  }

  /**
   Each frame has one role, and its role is what memory says it is used for: it is on the free list, it is a table that
   walks from the roots meet, it backs a page of a space, it is the record of a space, or it is the record of a region
   on some space's list. Only frames that are none of these are outside.
   */
  lemma EveryFrameHasOneUse(s: Physical, g: Ledger, spaces: Spaces, f: nat)
    requires VmInv(s, g, spaces) && f in s.memory
    ensures f in g.roles && FreeList(s, g)
    ensures g.roles[f] == Free <==> f in g.free
    ensures g.roles[f].Table? <==> IsPageTable(s.memory, KernelRoots(g.roles), spaces, f)
    ensures g.roles[f].Data? <==> IsMapped(s.memory, spaces, f)
    ensures g.roles[f] == SpaceRecord <==> f in spaces
    ensures g.roles[f].RegionRecord? <==> IsListed(spaces, f)
  {
    hide IsPageTable, IsMapped, IsListed, Accounted, SpaceOk, Leaves;
    TableIsInUse(s, g, spaces, f);
    DataIsMapped(s, g, spaces, f);
    RecordIsListed(s, g, spaces, f);
  }

  lemma DataIsMapped(s: Physical, g: Ledger, spaces: Spaces, f: nat)
    requires VmInv(s, g, spaces) && f in g.roles
    ensures g.roles[f].Data? <==> IsMapped(s.memory, spaces, f)
  {
    hide VmInv, Walk;
    if g.roles[f].Data? {
      var sp, q := DataFrameIsMapped(s, g, spaces, f);
    }
    if IsMapped(s.memory, spaces, f) {
      var sp, q: Path :| sp in spaces && q.l4 < 256 && Present(Lookup(s.memory, RootOf(s.memory, sp), q))
                         && AddressBits(Lookup(s.memory, RootOf(s.memory, sp), q)) == f;
      MappedIsData(s, g, spaces, sp, q);
    }
  }

  lemma MappedIsData(s: Physical, g: Ledger, spaces: Spaces, sp: nat, q: Path)
    requires VmInv(s, g, spaces) && sp in spaces && q.l4 < 256 && Present(Lookup(s.memory, RootOf(s.memory, sp), q))
    ensures AddressBits(Lookup(s.memory, RootOf(s.memory, sp), q)) in g.roles
    ensures g.roles[AddressBits(Lookup(s.memory, RootOf(s.memory, sp), q))].Data?
  {
    hide SpaceOk, Accounted, Inv, Leaves;
    SpaceFacts(s, g, spaces, sp);
    PageHasDataFrame(s, g, RootOf(s.memory, sp), q);
  }

  lemma RecordIsListed(s: Physical, g: Ledger, spaces: Spaces, f: nat)
    requires VmInv(s, g, spaces) && f in g.roles
    ensures g.roles[f] == SpaceRecord <==> f in spaces
    ensures g.roles[f].RegionRecord? <==> IsListed(spaces, f)
  {
    hide Covers, Chain, Layout, Settled;
    if IsListed(spaces, f) {
      var sp, k :| sp in spaces && 0 <= k < |spaces[sp]| && spaces[sp][k].record == f;
      assert RecordsOf(g.roles, sp, spaces[sp]);
    }
  }

  // ----- freeing undoes allocating

  ghost predicate WasFree(g: Ledger, f: nat) {
    f in g.roles && g.roles[f] == Free
  }

  /** The new region heads the list and can be freed. */
  lemma NewRegionCanGo(s: Physical, g: Ledger, spaces: Spaces, space: nat, base: Word, pages: nat, flags: Word)
    requires CanAllocRegion(s, g, spaces, space, base, pages, flags)
    ensures var t, h := AllocRegion(s, space, base, pages, flags), AllocRegionLedger(s, g, space, base, pages, flags);
            var all := AllocRegionSpaces(s, spaces, space, base, pages, flags);
            && CanRelease(t, h, all, space, 0)
            && PathsOf(all[space][0]) == RangePaths(base, pages)
            && FreeRegionSpaces(all, space, 0) == spaces
            && RootOf(t.memory, space) == RootOf(s.memory, space)
  {
    hide VmInv, CanAllocPages, AllocPages, RangePaths, AllocRegion, AllocRegionLedger;
    AllocRegionKeepsVm(s, g, spaces, space, base, pages, flags);
    RootsAreKept(s, g, spaces, space, base, pages, flags, space);
    var all := AllocRegionSpaces(s, spaces, space, base, pages, flags);
    assert Without(all[space], 0) == spaces[space];
  }

  /** vm_alloc_at followed by vm_free of the range: every page of every root reads as before. */
  lemma AllocFreeLookup(s: Physical, g: Ledger, spaces: Spaces, space: nat, base: Word, pages: nat, flags: Word, r: nat,
                        q: Path)
    requires CanAllocRegion(s, g, spaces, space, base, pages, flags) && IsRoot(g.roles, r)
    ensures var t := AllocRegion(s, space, base, pages, flags);
            var all := AllocRegionSpaces(s, spaces, space, base, pages, flags);
            Present(Lookup(FreeRegion(t, space, all[space], 0).memory, r, q)) == Present(Lookup(s.memory, r, q))
    ensures var t := AllocRegion(s, space, base, pages, flags);
            var all := AllocRegionSpaces(s, spaces, space, base, pages, flags);
            r != RootOf(s.memory, space) || q !in RangePaths(base, pages) ==>
              Lookup(FreeRegion(t, space, all[space], 0).memory, r, q) == Lookup(s.memory, r, q)
  {
    hide VmInv, CanAllocPages, AllocPages, RangePaths, AllocRegion, AllocRegionLedger, FreeRegion, Walk;
    var t, h := AllocRegion(s, space, base, pages, flags), AllocRegionLedger(s, g, space, base, pages, flags);
    var all := AllocRegionSpaces(s, spaces, space, base, pages, flags);
    NewRegionCanGo(s, g, spaces, space, base, pages, flags);
    SpaceFacts(s, g, spaces, space);
    AllocRegionLookup(s, g, spaces, space, base, pages, flags, r, q);
    RootStaysRoot(s, g, spaces, space, base, pages, flags, r);
    FreeRegionLookup(t, h, all, space, 0, r, q);
    if r == RootOf(s.memory, space) && q in RangePaths(base, pages) {
      AllocPagesWereAbsent(s, g, r, RangePaths(base, pages), flags, q);
    }
  }

  lemma RootStaysRoot(s: Physical, g: Ledger, spaces: Spaces, space: nat, base: Word, pages: nat, flags: Word, r: nat)
    requires CanAllocRegion(s, g, spaces, space, base, pages, flags) && IsRoot(g.roles, r)
    ensures IsRoot(AllocRegionLedger(s, g, space, base, pages, flags).roles, r)
  {
    hide CanAllocRegion, AllocRegionLedger;
    AllocRegionRoles(s, g, spaces, space, base, pages, flags, r);
  }

  /** The frame behind a new page was free before vm_alloc_at. */
  lemma NewPageFrame(s: Physical, g: Ledger, spaces: Spaces, space: nat, base: Word, pages: nat, flags: Word, p: Path)
    requires CanAllocRegion(s, g, spaces, space, base, pages, flags) && p in RangePaths(base, pages)
    ensures Present(Lookup(AllocRegion(s, space, base, pages, flags).memory, RootOf(s.memory, space), p))
    ensures WasFree(g, AddressBits(Lookup(AllocRegion(s, space, base, pages, flags).memory, RootOf(s.memory, space),
                                          p)))
  {
    hide VmInv, CanAllocPages, AllocPages, RangePaths, AllocRegion, AllocRegionLedger, Walk, LeafEntry;
    var root := RootOf(s.memory, space);
    SpaceFacts(s, g, spaces, space);
    AllocRegionLookup(s, g, spaces, space, base, pages, flags, root, p);
    var e :| e in g.roles && g.roles[e] == Free && e < WORD_LIMIT
             && Lookup(AllocRegion(s, space, base, pages, flags).memory, root, p) == LeafEntry(e, flags);
    VmSettled(s, g, spaces);
    FrameOfEntry(s, g, e, flags);
  }

  lemma VmSettled(s: Physical, g: Ledger, spaces: Spaces)
    requires VmInv(s, g, spaces)
    ensures Settled(s, g)
  {
  }

  /** A frame that was in use before vm_alloc_at does not stand behind the new pages. */
  lemma NewPagesUseFreeFrames(s: Physical, g: Ledger, spaces: Spaces, space: nat, base: Word, pages: nat, flags: Word,
                              f: nat)
    requires CanAllocRegion(s, g, spaces, space, base, pages, flags) && f in g.roles
    requires f in AllocRegionLedger(s, g, space, base, pages, flags).roles
    requires BehindPaths(AllocRegionLedger(s, g, space, base, pages, flags).roles[f],
                         AllocRegion(s, space, base, pages, flags).memory,
                         RootOf(s.memory, space), RangePaths(base, pages))
    ensures g.roles[f] == Free
  {
    hide VmInv, CanAllocPages, AllocPages, RangePaths, AllocRegion, AllocRegionLedger, Walk, LeafTable, Settled;
    var t, h := AllocRegion(s, space, base, pages, flags), AllocRegionLedger(s, g, space, base, pages, flags);
    var root, paths := RootOf(s.memory, space), RangePaths(base, pages);
    var p :| p in paths && Present(Lookup(t.memory, root, p))
              && (h.roles[f].table, h.roles[f].slot) == SlotOf(t.memory, root, p);
    SpaceFacts(s, g, spaces, space);
    NewPageFrame(s, g, spaces, space, base, pages, flags, p);
    AllocRegionSettles(s, g, spaces, space, base, pages, flags);
    RangeIsLower(base, pages, p);
    AllocRegionRoles(s, g, spaces, space, base, pages, flags, root);
    OwnerOfPage(t, h, root, p, f);
  }

  lemma RangeIsLower(base: Word, pages: nat, p: Path)
    requires LowerRange(base, pages) && p in RangePaths(base, pages)
    ensures p.l4 < 256
  {
    hide RangePaths;
    LowerRangePaths(base, pages);
  }

  lemma FrameOfEntry(s: Physical, g: Ledger, e: nat, flags: Word)
    requires Settled(s, g) && e in g.roles && CleanFlags(flags)
    ensures e < WORD_LIMIT && AddressBits(LeafEntry(e, flags)) == e
  {
    hide LeafEntry;
    FrameIsAddress(s, g, e);
    FrameAddressBits(e);
  }

  lemma FrameIsAddress(s: Physical, g: Ledger, e: nat)
    requires Settled(s, g) && e in g.roles
    ensures IsFrameAddress(e)
  {
  }

  lemma OwnerOfPage(t: Physical, h: Ledger, root: nat, p: Path, f: nat)
    requires Settled(t, h) && ManagedRoot(h.roles, root) && p.l4 < 256 && Present(Lookup(t.memory, root, p))
    requires f in h.roles && h.roles[f].Data? && (h.roles[f].table, h.roles[f].slot) == SlotOf(t.memory, root, p)
    ensures AddressBits(Lookup(t.memory, root, p)) == f
  {
    PageHasDataFrame(t, h, root, p);
    DataFrameIsUnique(t.memory, h, AddressBits(Lookup(t.memory, root, p)), f);
  }

  /** After vm_alloc_at and vm_free the free frames are those of before, less the new page tables. */
  lemma AllocFreeRoles(s: Physical, g: Ledger, spaces: Spaces, space: nat, base: Word, pages: nat, flags: Word, f: nat)
    requires CanAllocRegion(s, g, spaces, space, base, pages, flags) && f in g.roles
    ensures var t, h := AllocRegion(s, space, base, pages, flags), AllocRegionLedger(s, g, space, base, pages, flags);
            var end := FreeRegionLedger(t, h, space, AllocRegionSpaces(s, spaces, space, base, pages, flags)[space], 0);
            f in h.roles && f in end.roles
            && end.roles[f] == if g.roles[f] == Free && h.roles[f].Table? then h.roles[f] else g.roles[f]
  {
    hide VmInv, CanAllocPages, AllocPages, RangePaths, AllocRegion, AllocRegionLedger, FreeRegionLedger, Walk;
    var t, h := AllocRegion(s, space, base, pages, flags), AllocRegionLedger(s, g, space, base, pages, flags);
    var all := AllocRegionSpaces(s, spaces, space, base, pages, flags);
    NewRegionCanGo(s, g, spaces, space, base, pages, flags);
    AllocRegionRoles(s, g, spaces, space, base, pages, flags, f);
    FreeRegionRoles(t, h, all, space, 0, f);
    if BehindPaths(h.roles[f], t.memory, RootOf(s.memory, space), RangePaths(base, pages)) {
      NewPagesUseFreeFrames(s, g, spaces, space, base, pages, flags, f);
    } else if g.roles[f] == Free && h.roles[f].Data? {
      DataIsBehindPages(s, g, spaces, space, base, pages, flags, f);
    }
  }

  lemma DataIsBehindPages(s: Physical, g: Ledger, spaces: Spaces, space: nat, base: Word, pages: nat, flags: Word,
                          f: nat)
    requires CanAllocRegion(s, g, spaces, space, base, pages, flags) && f in g.roles && g.roles[f] == Free
    requires f in AllocRegionLedger(s, g, space, base, pages, flags).roles
    requires AllocRegionLedger(s, g, space, base, pages, flags).roles[f].Data?
    ensures BehindPaths(AllocRegionLedger(s, g, space, base, pages, flags).roles[f],
                        AllocRegion(s, space, base, pages, flags).memory,
                        RootOf(s.memory, space), RangePaths(base, pages))
  {
    hide VmInv, CanAllocPages, AllocPages, RangePaths, AllocRegion, AllocRegionLedger, Walk, LeafTable, LeafEntry;
    var root, paths := RootOf(s.memory, space), RangePaths(base, pages);
    var t := AllocPages(s, root, paths, flags);
    AllocRegionRoles(s, g, spaces, space, base, pages, flags, f);
    var p :| p in paths && AllocRegionLedger(s, g, space, base, pages,
                                             flags).roles[f] == Data(LeafTable(t.memory, root, 4, p), p.l1);
    SpaceFacts(s, g, spaces, space);
    AllocRegionLookup(s, g, spaces, space, base, pages, flags, root, p);
    AllocRegionLeafTable(s, g, spaces, space, base, pages, flags, p);
  }

  lemma AllocRegionLeafTable(s: Physical, g: Ledger, spaces: Spaces, space: nat, base: Word, pages: nat, flags: Word,
                             p: Path)
    requires CanAllocRegion(s, g, spaces, space, base, pages, flags)
    ensures var root := RootOf(s.memory, space);
            LeafTable(AllocRegion(s, space, base, pages, flags).memory, root, 4, p)
            == LeafTable(AllocPages(s, root, RangePaths(base, pages), flags).memory, root, 4, p)
  {
    hide VmInv, CanAllocPages, RangePaths, Settled, Walk, LeafTable;
    var root, paths := RootOf(s.memory, space), RangePaths(base, pages);
    AllocPagesReadyToInsert(s, g, spaces, space, base, pages, flags);
    SpaceFacts(s, g, spaces, space);
    AllocPagesKeepRoles(s, g, root, paths, flags, root);
    NewRegionWalk(AllocPages(s, root, paths, flags), AllocPagesLedger(s, g, root, paths, flags), space, base,
                  pages * PAGE_SIZE, root, p);
  }

  lemma {:induction false} CompletePathNeedsNoTable(s: Physical, g: Ledger, t: nat, level: nat, p: Path, flags: Word)
    requires CanMap(s, g, t, level, p) && LeafTable(s.memory, t, level, p) != 0
    ensures MapLedger(s, g, t, level, p, flags) == g
    decreases level
  {
    if level > 1 {
      MapStep(s, g, t, level, p, flags);
      CompletePathNeedsNoTable(s, g, AddressBits(s.memory[t][p.At(level)]), level - 1, p, flags);
    }
  }

  lemma {:induction false} ReachedPagesNeedNoTable(s: Physical, g: Ledger, root: nat, paths: seq<Path>, flags: Word,
                                                   f: nat)
    requires CleanFlags(flags) && CanAllocPages(s, g, root, paths, flags) && f in g.roles
             && Reached(s.memory, root, paths)
    ensures f in AllocPagesLedger(s, g, root, paths, flags).roles
    ensures AllocPagesLedger(s, g, root, paths, flags).roles[f].Table? ==> g.roles[f].Table?
  {
    hide CanAllocPage, Settled, LeafTable;
    if paths != [] {
      assert forall p :: p in Front(paths) ==> p in paths;
      assert Last(paths) in paths;
      ReachedPagesNeedNoTable(s, g, root, Front(paths), flags, f);
      AllocPagesReach(s, g, root, Front(paths), flags, Last(paths));
      OnePageNeedsNoTable(AllocPages(s, root, Front(paths), flags), AllocPagesLedger(s, g, root, Front(paths), flags),
                          root, Last(paths), flags, f);
    }
  }

  lemma OnePageNeedsNoTable(s: Physical, g: Ledger, root: nat, p: Path, flags: Word, f: nat)
    requires CanAllocPage(s, g, root, p) && CleanFlags(flags) && f in g.roles && LeafTable(s.memory, root, 4, p) != 0
    ensures f in AllocPageLedger(s, g, root, p, flags).roles
    ensures AllocPageLedger(s, g, root, p, flags).roles[f].Table? ==> g.roles[f].Table?
  {
    hide Inv, Leaves, LeafTable;
    PopCanMap(s, g, root, p);
    CompletePathNeedsNoTable(Pop(s), PopLedger(s, g), root, 4, p, flags);
  }

  /** On a range whose tables exist, vm_alloc_at followed by vm_free gives every frame its old role back. */
  lemma AllocFreeRestores(s: Physical, g: Ledger, spaces: Spaces, space: nat, base: Word, pages: nat, flags: Word,
                          f: nat)
    requires CanAllocRegion(s, g, spaces, space, base, pages, flags) && f in g.roles
    requires Reached(s.memory, RootOf(s.memory, space), RangePaths(base, pages))
    ensures var t, h := AllocRegion(s, space, base, pages, flags), AllocRegionLedger(s, g, space, base, pages, flags);
            var end := FreeRegionLedger(t, h, space, AllocRegionSpaces(s, spaces, space, base, pages, flags)[space], 0);
            f in end.roles && end.roles[f] == g.roles[f]
  {
    hide VmInv, CanAllocPages, AllocPages, RangePaths, AllocRegion, AllocRegionLedger, FreeRegionLedger, Walk, Reached;
    AllocFreeRoles(s, g, spaces, space, base, pages, flags, f);
    RegionNeedsNoTable(s, g, spaces, space, base, pages, flags, f);
  }

  lemma RegionNeedsNoTable(s: Physical, g: Ledger, spaces: Spaces, space: nat, base: Word, pages: nat, flags: Word,
                           f: nat)
    requires CanAllocRegion(s, g, spaces, space, base, pages, flags) && f in g.roles
    requires Reached(s.memory, RootOf(s.memory, space), RangePaths(base, pages))
    ensures f in AllocRegionLedger(s, g, space, base, pages, flags).roles
    ensures AllocRegionLedger(s, g, space, base, pages, flags).roles[f].Table? ==> g.roles[f].Table?
  {
    hide VmInv, CanAllocPages, RangePaths, Reached;
    ReachedPagesNeedNoTable(s, g, RootOf(s.memory, space), RangePaths(base, pages), flags, f);
  }

  /** The tables made by the first vm_alloc_at stay when the range is freed. */
  lemma PairLeavesTables(s: Physical, g: Ledger, spaces: Spaces, space: nat, base: Word, pages: nat, flags: Word)
    requires CanAllocRegion(s, g, spaces, space, base, pages, flags)
    ensures var end := FreeRegion(AllocRegion(s, space, base, pages, flags), space,
                                  AllocRegionSpaces(s, spaces, space, base, pages, flags)[space], 0);
            Reached(end.memory, RootOf(s.memory, space), RangePaths(base, pages))
  {
    hide VmInv, CanAllocPages, AllocPages, RangePaths, AllocRegion, AllocRegionLedger, FreeRegion, Walk, LeafTable;
    var root, paths := RootOf(s.memory, space), RangePaths(base, pages);
    forall p | p in paths
      ensures LeafTable(FreeRegion(AllocRegion(s, space, base, pages, flags), space,
                                   AllocRegionSpaces(s, spaces, space, base, pages,
                                                     flags)[space], 0).memory, root, 4, p) != 0
    {
      NewRegionCanGo(s, g, spaces, space, base, pages, flags);
      AllocRegionLeafTable(s, g, spaces, space, base, pages, flags, p);
      AllocPagesReach(s, g, root, paths, flags, p);
      FreeRegionLeafTable(AllocRegion(s, space, base, pages, flags), AllocRegionLedger(s, g, space, base, pages, flags),
                          AllocRegionSpaces(s, spaces, space, base, pages, flags), space, 0, p);
    }
  }

  lemma FreeRegionLeafTable(s: Physical, g: Ledger, spaces: Spaces, space: nat, k: nat, q: Path)
    requires CanRelease(s, g, spaces, space, k)
    ensures LeafTable(FreeRegion(s, space, spaces[space], k).memory, RootOf(s.memory, space), 4, q)
         == LeafTable(s.memory, RootOf(s.memory, space), 4, q)
  {
    hide VmInv, Settled, Inv, Leaves, Unlinked, Walk, FreeRegion, FreeRegionLedger, LeafTable, CanFreePages, SpaceOk,
         RangePaths;
    var root, paths := RootOf(s.memory, space), PathsOf(spaces[space][k]);
    var t, h := Released(s, space, spaces[space][k]), ReleasedLedger(s, g, space, spaces[space][k]);
    SpaceFacts(s, g, spaces, space);
    ReleaseFacts(s, g, spaces, space, k);
    FreePagesState(s, g, root, paths, root, q);
    UnmapKeepsLeafTables(FreePages(s, root, paths), FreePagesLedger(s, g, root, paths), root, paths, q);
    ReleasedIsTree(s, g, spaces, space, k, root);
    UnlinkedIsWrite(s, g, spaces, space, k);
    LinkOwnerFacts(s, g, spaces, space, k);
    ReleasedRecords(s, g, spaces, space, k, LinkOwner(space, spaces[space], k));
    RecordWriteWalk(t, h, LinkOwner(space, spaces[space], k), if k == 0 then SPACE_REGIONS else REGION_NEXT,
                    s.memory[spaces[space][k].record][REGION_NEXT], root, q);
    UnlinkedSettles(s, g, spaces, space, k);
    FreeRegionIsPush(s, g, spaces, space, k);
    SettledInv(Unlinked(s, space, spaces[space], k), h);
    RecordWriteWalk(Unlinked(s, space, spaces[space], k), h, spaces[space][k].record, 0, t.pageList, root, q);
  }

  function PairState(s: Physical, spaces: Spaces, space: nat, base: Word, pages: nat, flags: Word): Physical
    requires CleanFlags(flags) && LowerRange(base, pages) && space in spaces
  {
    FreeRegion(AllocRegion(s, space, base, pages, flags), space,
               AllocRegionSpaces(s, spaces, space, base, pages, flags)[space], 0)
  }

  function PairLedger(s: Physical, g: Ledger, spaces: Spaces, space: nat, base: Word, pages: nat, flags: Word): Ledger
    requires CleanFlags(flags) && LowerRange(base, pages) && space in spaces
  {
    FreeRegionLedger(AllocRegion(s, space, base, pages, flags), AllocRegionLedger(s, g, space, base, pages, flags),
                     space,
                     AllocRegionSpaces(s, spaces, space, base, pages, flags)[space], 0)
  }

  /** Freeing a whole region gives back one frame a page and the record. */
  lemma FreedRegionCount(s: Physical, g: Ledger, spaces: Spaces, space: nat, k: nat)
    requires CanRelease(s, g, spaces, space, k)
    ensures |FreeRegionLedger(s, g, space, spaces[space], k).free| == |g.free| + spaces[space][k].pages + 1
  {
    hide VmInv, Settled, Chain, RecordsOf, Walk, RangePaths, CanFreePages, SpaceOk, FreePages, FreePagesLedger;
    var root, region := RootOf(s.memory, space), spaces[space][k];
    ReleaseFacts(s, g, spaces, space, k);
    RegionIsMapped(s, g, spaces, space, k);
    FreePagesCount(s, g, root, PathsOf(region));
    RegionRecordFacts(s, g, spaces, space, k);
    ReleaseRoles(s, g, root, PathsOf(region), region.record);
  }

  lemma RegionRecordFacts(s: Physical, g: Ledger, spaces: Spaces, space: nat, k: nat)
    requires CanRelease(s, g, spaces, space, k)
    ensures spaces[space][k].record in g.roles && g.roles[spaces[space][k].record].RegionRecord?
    ensures |PathsOf(spaces[space][k])| == spaces[space][k].pages
  {
    hide Settled, Chain, Layout, Covers, Accounted;
    SpaceFacts(s, g, spaces, space);
  }

  /** Every page of a region is mapped. */
  lemma RegionIsMapped(s: Physical, g: Ledger, spaces: Spaces, space: nat, k: nat)
    requires CanRelease(s, g, spaces, space, k)
    ensures forall p :: p in PathsOf(spaces[space][k]) ==> Present(Lookup(s.memory, RootOf(s.memory, space), p))
  {
    hide VmInv, Settled, Chain, RecordsOf, Walk, RangePaths, Layout;
    SpaceCovers(s, g, spaces, space);
    forall p | p in PathsOf(spaces[space][k]) ensures Present(Lookup(s.memory, RootOf(s.memory, space), p)) {
      RegionIsLower(s, g, spaces, space, k, p);
      assert Covered(spaces[space], p);
    }
  }

  lemma RegionIsLower(s: Physical, g: Ledger, spaces: Spaces, space: nat, k: nat, p: Path)
    requires CanRelease(s, g, spaces, space, k) && p in PathsOf(spaces[space][k])
    ensures p.l4 < 256
  {
    hide VmInv, RangePaths, SpaceOk;
    ReleaseFacts(s, g, spaces, space, k);
  }

  /** The range is absent again, its tables exist and its frames have come back: the call can be made once more. */
  lemma PairCanRepeat(s: Physical, g: Ledger, spaces: Spaces, space: nat, base: Word, pages: nat, flags: Word,
                      again: Word)
    requires CanAllocRegion(s, g, spaces, space, base, pages, flags) && CleanFlags(again)
    ensures CanAllocRegion(PairState(s, spaces, space, base, pages, flags),
                           PairLedger(s, g, spaces, space, base, pages, flags),
                           spaces, space, base, pages, again)
  {
    hide VmInv, CanAllocPages, AllocPages, RangePaths, AllocRegion, AllocRegionLedger, FreeRegion, FreeRegionLedger,
         Walk, LeafTable, Reached, Settled;
    var t, h := AllocRegion(s, space, base, pages, flags), AllocRegionLedger(s, g, space, base, pages, flags);
    var all, paths := AllocRegionSpaces(s, spaces, space, base, pages, flags), RangePaths(base, pages);
    var end, ledger := PairState(s, spaces, space, base, pages, flags),
                       PairLedger(s, g, spaces, space, base, pages, flags);
    NewRegionCanGo(s, g, spaces, space, base, pages, flags);
    FreeRegionKeepsVm(t, h, all, space, 0);
    FreeRegionChain(t, h, all, space, 0);
    FreedRegionCount(t, h, all, space, 0);
    PairLeavesTables(s, g, spaces, space, base, pages, flags);
    RangeIsFresh(s, g, spaces, space, base, pages, flags);
    SpaceFacts(end, ledger, spaces, space);
    SettledNow(end, ledger, spaces);
    EnoughWhenReached(end, ledger, RootOf(s.memory, space), paths, again);
  }

  lemma RangeIsFresh(s: Physical, g: Ledger, spaces: Spaces, space: nat, base: Word, pages: nat, flags: Word)
    requires CanAllocRegion(s, g, spaces, space, base, pages, flags)
    ensures FreshPaths(PairState(s, spaces, space, base, pages, flags).memory, RootOf(s.memory, space),
                       RangePaths(base, pages))
    ensures |RangePaths(base, pages)| == pages
  {
    hide VmInv, CanAllocPages, AllocPages, RangePaths, AllocRegion, AllocRegionLedger, FreeRegion, FreeRegionLedger,
         Lookup;
    var root, paths := RootOf(s.memory, space), RangePaths(base, pages);
    LowerRangePaths(base, pages);
    SpaceCovers(s, g, spaces, space);
    forall k | 0 <= k < |paths|
      ensures !Present(Lookup(PairState(s, spaces, space, base, pages, flags).memory, root, paths[k])) {
      AllocPagesWereAbsent(s, g, root, paths, flags, paths[k]);
      AllocFreeLookup(s, g, spaces, space, base, pages, flags, root, paths[k]);
    }
  }

  /** A second vm_alloc_at of the same range can always be made, and with its vm_free restores the free set exactly. */
  lemma RepeatedPairRestores(s: Physical, g: Ledger, spaces: Spaces, space: nat, base: Word, pages: nat, flags: Word,
                             again: Word, f: nat)
    requires CanAllocRegion(s, g, spaces, space, base, pages, flags) && CleanFlags(again)
    requires f in PairLedger(s, g, spaces, space, base, pages, flags).roles
    ensures var t, h := PairState(s, spaces, space, base, pages, flags),
                        PairLedger(s, g, spaces, space, base, pages, flags);
            var end := PairLedger(t, h, spaces, space, base, pages, again);
            && CanAllocRegion(t, h, spaces, space, base, pages, again)
            && f in end.roles && end.roles[f] == h.roles[f]
  {
    hide VmInv, CanAllocPages, AllocPages, RangePaths, AllocRegion, AllocRegionLedger, FreeRegion, FreeRegionLedger,
         Walk, LeafTable, Reached;
    var t, h := PairState(s, spaces, space, base, pages, flags), PairLedger(s, g, spaces, space, base, pages, flags);
    PairCanRepeat(s, g, spaces, space, base, pages, flags, again);
    PairLeavesTables(s, g, spaces, space, base, pages, flags);
    NewRegionCanGo(s, g, spaces, space, base, pages, flags);
    FreeRegionChain(AllocRegion(s, space, base, pages, flags), AllocRegionLedger(s, g, space, base, pages, flags),
                    AllocRegionSpaces(s, spaces, space, base, pages, flags), space, 0);
    AllocFreeRestores(t, h, spaces, space, base, pages, again, f);
  }

  // ----- vm_free on any range

  /** The region list once the region with this index is off it; past the end nothing is. */
  function Remaining(regions: seq<Region>, k: nat): seq<Region> {
    if k < |regions| then Without(regions, k) else regions
  }

  predicate InRegion(regions: seq<Region>, k: nat, p: Path) {
    k < |regions| && p in PathsOf(regions[k])
  }

  /** The range holds every page of region k and no page of another region. */
  ghost predicate Matches(regions: seq<Region>, base: Word, pages: nat, k: nat) {
    forall p: Path :: Covered(regions, p) ==> (p in RangePaths(base, pages) <==> InRegion(regions, k, p))
  }

  lemma RemainingCovers(regions: seq<Region>, k: nat, p: Path)
    requires Layout(regions)
    ensures Covered(Remaining(regions, k), p) <==> Covered(regions, p) && !InRegion(regions, k, p)
  {
    hide PathsOf, LowerRange;
    if k < |regions| {
      CoveredWithout(regions, k, p);
    }
  }

  lemma CoveredIsLower(regions: seq<Region>, p: Path)
    requires Layout(regions) && Covered(regions, p)
    ensures p.l4 < 256
  {
    hide RangePaths, Apart;
    var k :| 0 <= k < |regions| && p in PathsOf(regions[k]);
    LowerRangePaths(regions[k].base, regions[k].pages);
  }

  /**
   After the page work of vm_free on any lower-half range, and with region k taken off the list, the regions still
   tell which pages are present if and only if the range holds every page of that region and no page of another.
   */
  lemma FreedRangeMatchesExactly(s: Physical, g: Ledger, spaces: Spaces, space: nat, base: Word, pages: nat, k: nat)
    requires VmInv(s, g, spaces) && space in spaces && LowerRange(base, pages)
    ensures Covers(ReleasePages(s, RootOf(s.memory, space), RangePaths(base, pages)).memory, RootOf(s.memory, space),
                   Remaining(spaces[space], k))
       <==> Matches(spaces[space], base, pages, k)
  {
    hide VmInv, RangePaths, ReleasePages, Covered, InRegion, Lookup, Settled, Layout, Remaining;
    var root, regions := RootOf(s.memory, space), spaces[space];
    SpaceLayout(s, g, spaces, space);
    RangeCanBeFreed(s, g, spaces, space, base, pages);
    forall p: Path
      ensures Covered(regions, p) ==> p.l4 < 256
      ensures p.l4 < 256 ==> (Present(Lookup(ReleasePages(s, root, RangePaths(base, pages)).memory, root, p))
                         <==> Covered(regions, p) && p !in RangePaths(base, pages))
      ensures Covered(Remaining(regions, k), p) <==> Covered(regions, p) && !InRegion(regions, k, p)
    {
      if Covered(regions, p) {
        CoveredIsLower(regions, p);
      }
      ReleaseLookup(s, g, root, RangePaths(base, pages), root, p);
      RemainingCovers(regions, k, p);
    }
  }

  lemma SpaceLayout(s: Physical, g: Ledger, spaces: Spaces, space: nat)
    requires VmInv(s, g, spaces) && space in spaces
    ensures Layout(spaces[space]) && Covers(s.memory, RootOf(s.memory, space), spaces[space])
    ensures IsRoot(g.roles, RootOf(s.memory, space))
  {
    hide Settled, Accounted, Chain, Layout, Covers;
    SpaceFacts(s, g, spaces, space);
  }

  lemma RangeCanBeFreed(s: Physical, g: Ledger, spaces: Spaces, space: nat, base: Word, pages: nat)
    requires VmInv(s, g, spaces) && space in spaces && LowerRange(base, pages)
    ensures CanFreePages(s, g, RootOf(s.memory, space), RangePaths(base, pages))
  {
    hide Accounted, Chain, Layout, Covers, Inv, Leaves, RangePaths;
    SpaceFacts(s, g, spaces, space);
    LowerRangePaths(base, pages);
  }

  // ----- vm_space_destroy

  function DestroyState(s: Physical, space: nat, regions: seq<Region>): Physical
    decreases |regions|
  {
    if regions == [] then s else DestroyState(FreeRegion(s, space, regions, 0), space, regions[1..])
  }

  function DestroyLedger(s: Physical, g: Ledger, space: nat, regions: seq<Region>): Ledger
    decreases |regions|
  {
    if regions == [] then g
    else DestroyLedger(FreeRegion(s, space, regions, 0), FreeRegionLedger(s, g, space, regions, 0), space, regions[1..])
  }

  /** vm_space_destroy ends with no region and no lower-half page, and keeps everything else in order. */
  lemma {:induction false} DestroyKeepsVm(s: Physical, g: Ledger, spaces: Spaces, space: nat)
    requires VmInv(s, g, spaces) && space in spaces
    ensures VmInv(DestroyState(s, space, spaces[space]), DestroyLedger(s, g, space, spaces[space]), spaces[space := []])
    decreases |spaces[space]|
  {
    hide VmInv, FreeRegion, FreeRegionLedger;
    if spaces[space] == [] {
      assert spaces[space := []] == spaces;
    } else {
      FreeRegionKeepsVm(s, g, spaces, space, 0);
      assert Without(spaces[space], 0) == spaces[space][1..];
      DestroyKeepsVm(FreeRegion(s, space, spaces[space], 0), FreeRegionLedger(s, g, space, spaces[space], 0),
                     FreeRegionSpaces(spaces, space, 0), space);
      assert FreeRegionSpaces(spaces, space, 0)[space := []] == spaces[space := []];
    }
  }

  /** vm_space_destroy: the space has no lower-half page left, and every page of every other root reads as before. */
  lemma {:induction false} DestroyedSpaceIsEmpty(s: Physical, g: Ledger, spaces: Spaces, space: nat, r: nat, q: Path)
    requires VmInv(s, g, spaces) && space in spaces && IsRoot(g.roles, r)
    ensures var n := DestroyState(s, space, spaces[space]).memory;
            && (r == RootOf(s.memory, space) && q.l4 < 256 ==> !Present(Lookup(n, r, q)))
            && (r != RootOf(s.memory, space) || q.l4 >= 256 ==> Lookup(n, r, q) == Lookup(s.memory, r, q))
    decreases |spaces[space]|
  {
    hide VmInv, FreeRegion, FreeRegionLedger, Lookup, RangePaths;
    if spaces[space] == [] {
      NoRegionNoPage(s, g, spaces, space, q);
    } else {
      FreeRegionKeepsVm(s, g, spaces, space, 0);
      FreeRegionChain(s, g, spaces, space, 0);
      FreeRegionRoles(s, g, spaces, space, 0, r);
      assert Without(spaces[space], 0) == spaces[space][1..];
      RegionRecordFacts(s, g, spaces, space, 0);
      FreeRegionLookup(s, g, spaces, space, 0, r, q);
      if q in PathsOf(spaces[space][0]) {
        RegionIsLower(s, g, spaces, space, 0, q);
      }
      DestroyedSpaceIsEmpty(FreeRegion(s, space, spaces[space], 0), FreeRegionLedger(s, g, space, spaces[space], 0),
                            FreeRegionSpaces(spaces, space, 0), space, r, q);
    }
  }

  lemma NoRegionNoPage(s: Physical, g: Ledger, spaces: Spaces, space: nat, q: Path)
    requires VmInv(s, g, spaces) && space in spaces && spaces[space] == []
    ensures q.l4 < 256 ==> !Present(Lookup(s.memory, RootOf(s.memory, space), q))
  {
    hide Settled, Accounted, Chain, RecordsOf, Layout, Lookup;
    SpaceCovers(s, g, spaces, space);
  }
}
