/** vm_alloc and vm_alloc_at keep every space in order (vm.c). */
module VmAllocation {
  import opened Words
  import opened PageTables
  import opened Mapping
  import opened AddressSpaces
  import opened Ownership
  import opened VmPages
  import opened VmSpaces

  /** Take a frame for a record: frame_alloc, with the frame's new role. */
  function TagLedger(s: Physical, g: Ledger, role: Role): Ledger
    requires g.free != []
  {
    g.(roles := g.roles[s.pageList := role], free := g.free[1..])
  }

  predicate RecordRole(role: Role) {
    role == SpaceRecord || role.RegionRecord? || role == Other
  }

  lemma TagSettles(s: Physical, g: Ledger, role: Role)
    requires Settled(s, g) && g.free != [] && RecordRole(role)
    ensures s.pageList in s.memory && s.pageList in g.roles && g.roles[s.pageList] == Free && s.pageList != 0
    ensures Settled(Pop(s), TagLedger(s, g, role))
  {
    HeadIsFree(s, g);
    hide Inv, Leaves;
    PopKeepsInv(s, g);
    TagIsRetag(s, g, role);
    TagLeaves(s, g, role);
    hide *;
    RetagKeepsInv(Pop(s), PopLedger(s, g), s.pageList, role);
  }

  lemma TagIsRetag(s: Physical, g: Ledger, role: Role)
    requires g.free != [] && RecordRole(role)
    ensures TagLedger(s, g, role) == PopLedger(s, g).(roles := PopLedger(s, g).roles[s.pageList := role])
    ensures CanPush(PopLedger(s, g), s.pageList) && role != Free && !role.Table?
  {
  }

  lemma TagLeaves(s: Physical, g: Ledger, role: Role)
    requires Leaves(s.memory, g) && g.free != [] && RecordRole(role)
    requires s.pageList in g.roles && g.roles[s.pageList] == Free
    ensures Leaves(s.memory, TagLedger(s, g, role))
  {
    var h := TagLedger(s, g, role);
    forall d | d in h.roles && h.roles[d].Data?
      ensures IsManagedLeaf(h.roles, h.roles[d].table) && (h.roles[d].table, h.roles[d].slot) !in h.limbo
           && Points(s.memory, h.roles[d].table, h.roles[d].slot, d)
    {
      assert Points(s.memory, g.roles[d].table, g.roles[d].slot, d);
    }
  }

  /** region_alloc followed by region_insert. */
  function NewRegion(s: Physical, space: nat, base: Word, size: Word): Physical
    requires s.pageList in s.memory && space in s.memory
  {
    var r := s.pageList;
    var record := s.memory[r][REGION_BASE := base][REGION_SIZE := size][REGION_NEXT := s.memory[space][SPACE_REGIONS]];
    Physical(s.memory[r := record][space := s.memory[space][SPACE_REGIONS := r]], s.memory[r][0])
  }

  ghost predicate CanInsert(s: Physical, g: Ledger, space: nat) {
    Settled(s, g) && g.free != [] && space in g.roles && g.roles[space] == SpaceRecord
  }

  function WithWord(s: Physical, f: nat, i: Index, w: Word): Physical
    requires f in s.memory
  {
    s.(memory := Put(s.memory, f, i, w))
  }

  lemma NewRegionSettles(s: Physical, g: Ledger, space: nat, base: Word, size: Word)
    requires CanInsert(s, g, space)
    ensures s.pageList in s.memory && space in s.memory && s.pageList != space && s.pageList != 0
    ensures s.pageList in g.roles && g.roles[s.pageList] == Free
    ensures Settled(NewRegion(s, space, base, size), TagLedger(s, g, RegionRecord(space)))
  {
    var r, h := s.pageList, TagLedger(s, g, RegionRecord(space));
    TagSettles(s, g, RegionRecord(space));
    SpaceIsInMemory(s, g, space);
    hide Settled, NewRegion;
    var next := s.memory[space][SPACE_REGIONS];
    var a := Pop(s);
    RecordWrite(a, h, r, REGION_BASE, base);
    var b := WithWord(a, r, REGION_BASE, base);
    RecordWrite(b, h, r, REGION_SIZE, size);
    var c := WithWord(b, r, REGION_SIZE, size);
    RecordWrite(c, h, r, REGION_NEXT, next);
    var d := WithWord(c, r, REGION_NEXT, next);
    RecordWrite(d, h, space, SPACE_REGIONS, r);
    var e := WithWord(d, space, SPACE_REGIONS, r);
    NewRegionWrites(s, space, base, size);
  }

  /** The five stores of region_alloc and region_insert, one after the other. */
  lemma NewRegionWrites(s: Physical, space: nat, base: Word, size: Word)
    requires s.pageList in s.memory && space in s.memory && s.pageList != space
    ensures NewRegion(s, space, base, size) ==
            WithWord(WithWord(WithWord(WithWord(Pop(s), s.pageList, REGION_BASE, base), s.pageList, REGION_SIZE, size),
                              s.pageList, REGION_NEXT, s.memory[space][SPACE_REGIONS]),
                     space, SPACE_REGIONS, s.pageList)
  {
  }

  lemma SpaceIsInMemory(s: Physical, g: Ledger, space: nat)
    requires Settled(s, g) && space in g.roles
    ensures space in s.memory
  {
  }

  lemma NewRegionWalk(s: Physical, g: Ledger, space: nat, base: Word, size: Word, r: nat, q: Path)
    requires CanInsert(s, g, space) && IsRoot(g.roles, r) && s.pageList in s.memory && space in s.memory
    ensures SameWalk(s.memory, NewRegion(s, space, base, size).memory, r, q)
  {
    NewRegionSettles(s, g, space, base, size);
    WalkReadsTables(s.memory, NewRegion(s, space, base, size).memory, g.roles, r, 4, q);
  }

  // ----- the whole of vm_alloc_at

  ghost predicate CanAllocRegion(s: Physical, g: Ledger, spaces: Spaces, space: nat, base: Word, pages: nat,
                                 flags: Word) {
    && VmInv(s, g, spaces) && space in spaces && space in s.memory
    && CleanFlags(flags) && LowerRange(base, pages) && pages > 0
    && CanAllocPages(s, g, RootOf(s.memory, space), RangePaths(base, pages), flags)
    && AllocPagesLedger(s, g, RootOf(s.memory, space), RangePaths(base, pages), flags).free != []
  }

  function AllocRegion(s: Physical, space: nat, base: Word, pages: nat, flags: Word): Physical
    requires CleanFlags(flags) && LowerRange(base, pages)
  {
    var t := AllocPages(s, RootOf(s.memory, space), RangePaths(base, pages), flags);
    if t.pageList in t.memory && space in t.memory then NewRegion(t, space, base, pages * PAGE_SIZE) else t
  }

  function AllocRegionLedger(s: Physical, g: Ledger, space: nat, base: Word, pages: nat, flags: Word): Ledger
    requires CleanFlags(flags)
  {
    var root, paths := RootOf(s.memory, space), RangePaths(base, pages);
    var t, h := AllocPages(s, root, paths, flags), AllocPagesLedger(s, g, root, paths, flags);
    if h.free == [] then h else TagLedger(t, h, RegionRecord(space))
  }

  function AllocRegionSpaces(s: Physical, spaces: Spaces, space: nat, base: Word, pages: nat, flags: Word): Spaces
    requires CleanFlags(flags) && space in spaces
  {
    spaces[space := [Region(AllocPages(s, RootOf(s.memory, space), RangePaths(base, pages), flags).pageList, base,
                            pages)] + spaces[space]]
  }

  lemma AllocPagesReadyToInsert(s: Physical, g: Ledger, spaces: Spaces, space: nat, base: Word, pages: nat, flags: Word)
    requires CanAllocRegion(s, g, spaces, space, base, pages, flags)
    ensures var t := AllocPages(s, RootOf(s.memory, space), RangePaths(base, pages), flags);
            var h := AllocPagesLedger(s, g, RootOf(s.memory, space), RangePaths(base, pages), flags);
            CanInsert(t, h, space) && t.pageList in t.memory && space in t.memory && t.memory[space] == s.memory[space]
            && t.pageList in g.roles && g.roles[t.pageList] == Free && t.pageList in h.roles
            && h.roles[t.pageList] == Free
  {
    var root, paths := RootOf(s.memory, space), RangePaths(base, pages);
    var t, h := AllocPages(s, root, paths, flags), AllocPagesLedger(s, g, root, paths, flags);
    SpaceFacts(s, g, spaces, space);
    hide VmInv, CanAllocPages, RangePaths, Settled;
    AllocPagesSettle(s, g, root, paths, flags);
    AllocPagesKeepRoles(s, g, root, paths, flags, space);
    AllocPagesKeepOthers(s, g, root, paths, flags, space);
    TagSettles(t, h, Other);
    AllocPagesOnlyUseFree(s, g, root, paths, flags, t.pageList);
    SpaceIsInMemory(t, h, space);
  }

  lemma SpaceFacts(s: Physical, g: Ledger, spaces: Spaces, space: nat)
    requires VmInv(s, g, spaces) && space in spaces
    ensures space in s.memory && space in g.roles && g.roles[space] == SpaceRecord
    ensures ManagedRoot(g.roles, RootOf(s.memory, space)) && SpaceOk(s.memory, g.roles, space, spaces[space])
  {
  }

  lemma AllocRegionSettles(s: Physical, g: Ledger, spaces: Spaces, space: nat, base: Word, pages: nat, flags: Word)
    requires CanAllocRegion(s, g, spaces, space, base, pages, flags)
    ensures Settled(AllocRegion(s, space, base, pages, flags), AllocRegionLedger(s, g, space, base, pages, flags))
  {
    AllocPagesReadyToInsert(s, g, spaces, space, base, pages, flags);
    hide VmInv, CanAllocPages, RangePaths, Settled;
    var root, paths := RootOf(s.memory, space), RangePaths(base, pages);
    NewRegionSettles(AllocPages(s, root, paths, flags), AllocPagesLedger(s, g, root, paths, flags), space, base,
                     pages * PAGE_SIZE);
  }

  /** The range is present below the space's root, and nothing else changed for any root. */
  lemma AllocRegionLookup(s: Physical, g: Ledger, spaces: Spaces, space: nat, base: Word, pages: nat, flags: Word,
                          r: nat, q: Path)
    requires CanAllocRegion(s, g, spaces, space, base, pages, flags) && IsRoot(g.roles, r)
    ensures var after := Lookup(AllocRegion(s, space, base, pages, flags).memory, r, q);
            if r == RootOf(s.memory, space) && q in RangePaths(base, pages)
            then Present(after)
                 && exists f :: f in g.roles && g.roles[f] == Free && f < WORD_LIMIT && after == LeafEntry(f, flags)
            else after == Lookup(s.memory, r, q)
  {
    AllocPagesReadyToInsert(s, g, spaces, space, base, pages, flags);
    hide VmInv, CanAllocPages, RangePaths, Settled, Walk, LeafEntry;
    var root, paths := RootOf(s.memory, space), RangePaths(base, pages);
    var t, h := AllocPages(s, root, paths, flags), AllocPagesLedger(s, g, root, paths, flags);
    AllocPagesLookup(s, g, root, paths, flags, r, q);
    AllocPagesKeepRoles(s, g, root, paths, flags, r);
    NewRegionWalk(t, h, space, base, pages * PAGE_SIZE, r, q);
  }

  /** Only free frames get a new role. */
  lemma AllocRegionRoles(s: Physical, g: Ledger, spaces: Spaces, space: nat, base: Word, pages: nat, flags: Word,
                         f: nat)
    requires CanAllocRegion(s, g, spaces, space, base, pages, flags) && f in g.roles
    ensures f in AllocRegionLedger(s, g, space, base, pages, flags).roles
    ensures var t := AllocPages(s, RootOf(s.memory, space), RangePaths(base, pages), flags);
            var role := AllocRegionLedger(s, g, space, base, pages, flags).roles[f];
            if f == t.pageList then g.roles[f] == Free && role == RegionRecord(space)
            else AllocatedRole(g.roles[f], role, t.memory, RootOf(s.memory, space), RangePaths(base, pages))
  {
    AllocPagesReadyToInsert(s, g, spaces, space, base, pages, flags);
    hide VmInv, CanAllocPages, RangePaths, Settled, AllocatedRole;
    AllocPagesRoles(s, g, RootOf(s.memory, space), RangePaths(base, pages), flags, f);
  }

  lemma AllocRegionKeepsRecord(s: Physical, g: Ledger, spaces: Spaces, space: nat, base: Word, pages: nat, flags: Word,
                               f: nat)
    requires CanAllocRegion(s, g, spaces, space, base, pages, flags)
    requires f in g.roles && g.roles[f] != Free && !g.roles[f].Table? && f != space
    ensures f in s.memory && f in AllocRegion(s, space, base, pages, flags).memory
    ensures AllocRegion(s, space, base, pages, flags).memory[f] == s.memory[f]
  {
    AllocPagesReadyToInsert(s, g, spaces, space, base, pages, flags);
    hide VmInv, CanAllocPages, RangePaths, Settled;
    AllocPagesKeepOthers(s, g, RootOf(s.memory, space), RangePaths(base, pages), flags, f);
  }

  /** The pages of the loop were all absent before it. */
  lemma {:induction false} AllocPagesWereAbsent(s: Physical, g: Ledger, root: nat, paths: seq<Path>, flags: Word,
                                                q: Path)
    requires CleanFlags(flags) && CanAllocPages(s, g, root, paths, flags) && q in paths && IsRoot(g.roles, root)
    ensures !Present(Lookup(s.memory, root, q))
  {
    hide Settled, Walk;
    if q in Front(paths) {
      AllocPagesWereAbsent(s, g, root, Front(paths), flags, q);
    } else {
      assert q == Last(paths);
      AllocPagesLookup(s, g, root, Front(paths), flags, root, q);
    }
  }

  lemma OtherSpaceKept(s: Physical, g: Ledger, spaces: Spaces, space: nat, base: Word, pages: nat, flags: Word, sp: nat)
    requires CanAllocRegion(s, g, spaces, space, base, pages, flags) && sp in spaces && sp != space
    ensures SpaceOk(AllocRegion(s, space, base, pages, flags).memory,
                    AllocRegionLedger(s, g, space, base, pages, flags).roles,
                    sp, spaces[sp])
  {
    var n, after := AllocRegion(s, space, base, pages, flags).memory,
                    AllocRegionLedger(s, g, space, base, pages, flags).roles;
    SpaceFacts(s, g, spaces, sp);
    SpaceFacts(s, g, spaces, space);
    RootsApart(s, g, spaces, sp, space);
    hide VmInv, CanAllocRegion, RangePaths, Settled, Walk, Covers, Layout, Chain, AllocRegion, AllocRegionLedger;
    AllocRegionKeepsRecord(s, g, spaces, space, base, pages, flags, sp);
    AllocRegionRoles(s, g, spaces, space, base, pages, flags, sp);
    AllocRegionRoles(s, g, spaces, space, base, pages, flags, RootOf(s.memory, sp));
    forall k | 0 <= k < |spaces[sp]|
      ensures spaces[sp][k].record in n && spaces[sp][k].record in s.memory
              && n[spaces[sp][k].record] == s.memory[spaces[sp][k].record]
      ensures spaces[sp][k].record in after && after[spaces[sp][k].record] == g.roles[spaces[sp][k].record]
    {
      AllocRegionRoles(s, g, spaces, space, base, pages, flags, spaces[sp][k].record);
      AllocRegionKeepsRecord(s, g, spaces, space, base, pages, flags, spaces[sp][k].record);
    }
    forall p: Path | p.l4 < 256
      ensures Lookup(n, RootOf(s.memory, sp), p) == Lookup(s.memory, RootOf(s.memory, sp), p) {
      AllocRegionLookup(s, g, spaces, space, base, pages, flags, RootOf(s.memory, sp), p);
    }
    SpaceFrame(s.memory, n, g.roles, after, sp, spaces[sp]);
  }

  lemma RootsApart(s: Physical, g: Ledger, spaces: Spaces, a: nat, b: nat)
    requires VmInv(s, g, spaces) && a in spaces && b in spaces && a != b
    ensures RootOf(s.memory, a) != RootOf(s.memory, b)
  {
  }

  lemma ConsChain(n: Memory, region: Region, next: nat, regions: seq<Region>)
    requires region.record in n && region.record != 0
    requires n[region.record][REGION_BASE] == region.base && n[region.record][REGION_SIZE] == region.pages * PAGE_SIZE
    requires n[region.record][REGION_NEXT] == next && Chain(n, next, regions)
    ensures Chain(n, region.record, [region] + regions)
  {
    assert ([region] + regions)[1..] == regions;
  }

  /** The list of the space keeps its records through the allocation. */
  lemma OldRegionsChain(s: Physical, g: Ledger, spaces: Spaces, space: nat, base: Word, pages: nat, flags: Word)
    requires CanAllocRegion(s, g, spaces, space, base, pages, flags)
    ensures space in s.memory
            && Chain(AllocRegion(s, space, base, pages, flags).memory, s.memory[space][SPACE_REGIONS], spaces[space])
  {
    SpaceFacts(s, g, spaces, space);
    var n, regions := AllocRegion(s, space, base, pages, flags).memory, spaces[space];
    hide VmInv, RangePaths, Settled, Walk, Covers, Layout, CanAllocRegion, AllocRegion;
    forall k | 0 <= k < |regions|
      ensures regions[k].record in n && regions[k].record in s.memory
              && n[regions[k].record] == s.memory[regions[k].record]
    {
      AllocRegionKeepsRecord(s, g, spaces, space, base, pages, flags, regions[k].record);
    }
    ChainFrame(s.memory, n, s.memory[space][SPACE_REGIONS], regions);
  }

  /** The record of the new region, and the list it heads. */
  lemma NewRegionChain(s: Physical, g: Ledger, spaces: Spaces, space: nat, base: Word, pages: nat, flags: Word)
    requires CanAllocRegion(s, g, spaces, space, base, pages, flags)
    ensures var n := AllocRegion(s, space, base, pages, flags).memory;
            && space in n
            && n[space] == s.memory[space][SPACE_REGIONS :=
                             AllocPages(s, RootOf(s.memory, space), RangePaths(base, pages), flags).pageList]
            && Chain(n, n[space][SPACE_REGIONS], AllocRegionSpaces(s, spaces, space, base, pages, flags)[space])
  {
    AllocPagesReadyToInsert(s, g, spaces, space, base, pages, flags);
    OldRegionsChain(s, g, spaces, space, base, pages, flags);
    SpaceFacts(s, g, spaces, space);
    var t, h := AllocPages(s, RootOf(s.memory, space), RangePaths(base, pages), flags),
                AllocPagesLedger(s, g, RootOf(s.memory, space), RangePaths(base, pages), flags);
    NewRegionSettles(t, h, space, base, pages * PAGE_SIZE);
    NewRegionWords(t, space, base, pages * PAGE_SIZE);
    hide VmInv, RangePaths, Settled, Walk, CanAllocRegion, CanInsert, Chain, AllocPages, NewRegion, Inv, Leaves;
    ConsChain(AllocRegion(s, space, base, pages, flags).memory, Region(t.pageList, base, pages),
              s.memory[space][SPACE_REGIONS], spaces[space]);
  }

  lemma NewRegionWords(t: Physical, space: nat, base: Word, size: Word)
    requires t.pageList in t.memory && space in t.memory && t.pageList != space
    ensures var n := NewRegion(t, space, base, size).memory;
            && space in n && t.pageList in n && n[space] == t.memory[space][SPACE_REGIONS := t.pageList]
            && n[t.pageList][REGION_BASE] == base && n[t.pageList][REGION_SIZE] == size
            && n[t.pageList][REGION_NEXT] == t.memory[space][SPACE_REGIONS]
  {
  }

  lemma LayoutCons(region: Region, rest: seq<Region>)
    requires LowerRange(region.base, region.pages) && region.pages > 0 && Layout(rest)
    requires forall p :: p in PathsOf(region) ==> !Covered(rest, p)
    ensures Layout([region] + rest)
  {
    hide RangePaths;
    var all := [region] + rest;
    forall j, k | 0 <= j < |all| && 0 <= k < |all| && j != k ensures Apart(all[j], all[k]) {
      assert j > 0 ==> all[j] == rest[j - 1];
      assert k > 0 ==> all[k] == rest[k - 1];
    }
  }

  lemma NewRegionLayout(s: Physical, g: Ledger, spaces: Spaces, space: nat, base: Word, pages: nat, flags: Word,
                        rec: nat)
    requires CanAllocRegion(s, g, spaces, space, base, pages, flags)
    ensures Layout([Region(rec, base, pages)] + spaces[space])
  {
    SpaceFacts(s, g, spaces, space);
    LowerRangePaths(base, pages);
    hide VmInv, RangePaths, Settled, Walk, Chain, RecordsOf, Layout;
    forall p | p in RangePaths(base, pages) ensures !Covered(spaces[space], p) {
      AllocPagesWereAbsent(s, g, RootOf(s.memory, space), RangePaths(base, pages), flags, p);
    }
    LayoutCons(Region(rec, base, pages), spaces[space]);
  }

  lemma SpaceCovers(s: Physical, g: Ledger, spaces: Spaces, space: nat)
    requires VmInv(s, g, spaces) && space in spaces
    ensures Covers(s.memory, RootOf(s.memory, space), spaces[space]) && IsRoot(g.roles, RootOf(s.memory, space))
  {
    hide Covers, Layout, Inv, Leaves, Chain;
    SpaceFacts(s, g, spaces, space);
  }

  lemma NewRegionCoversPath(s: Physical, g: Ledger, spaces: Spaces, space: nat, base: Word, pages: nat, flags: Word,
                            rec: nat, p: Path)
    requires CanAllocRegion(s, g, spaces, space, base, pages, flags) && IsRoot(g.roles, RootOf(s.memory, space))
    requires Present(Lookup(s.memory, RootOf(s.memory, space), p)) <==> Covered(spaces[space], p)
    ensures Present(Lookup(AllocRegion(s, space, base, pages, flags).memory, RootOf(s.memory, space), p))
       <==> Covered([Region(rec, base, pages)] + spaces[space], p)
  {
    hide VmInv, RangePaths, Settled, Walk, Chain, RecordsOf, Layout, AllocRegion, Covered, CanAllocPages;
    AllocRegionLookup(s, g, spaces, space, base, pages, flags, RootOf(s.memory, space), p);
    CoveredCons(Region(rec, base, pages), spaces[space], p);
  }

  lemma NewRegionCovers(s: Physical, g: Ledger, spaces: Spaces, space: nat, base: Word, pages: nat, flags: Word,
                        rec: nat)
    requires CanAllocRegion(s, g, spaces, space, base, pages, flags)
    ensures Covers(AllocRegion(s, space, base, pages, flags).memory, RootOf(s.memory, space),
                   [Region(rec, base, pages)] + spaces[space])
  {
    hide VmInv, RangePaths, Lookup, AllocRegion, Covered, CanAllocPages;
    SpaceCovers(s, g, spaces, space);
    var root, all := RootOf(s.memory, space), [Region(rec, base, pages)] + spaces[space];
    forall p: Path | p.l4 < 256
      ensures Present(Lookup(AllocRegion(s, space, base, pages, flags).memory, root, p)) <==> Covered(all, p)
    {
      NewRegionCoversPath(s, g, spaces, space, base, pages, flags, rec, p);
    }
  }

  lemma CoveredCons(region: Region, rest: seq<Region>, p: Path)
    ensures Covered([region] + rest, p) <==> p in PathsOf(region) || Covered(rest, p)
  {
    hide RangePaths;
    var all := [region] + rest;
    if p in PathsOf(region) {
      assert all[0] == region;
    }
    if Covered(rest, p) {
      var k :| 0 <= k < |rest| && p in PathsOf(rest[k]);
      assert all[k + 1] == rest[k];
    }
  }

  lemma NewSpaceOk(s: Physical, g: Ledger, spaces: Spaces, space: nat, base: Word, pages: nat, flags: Word)
    requires CanAllocRegion(s, g, spaces, space, base, pages, flags)
    ensures SpaceOk(AllocRegion(s, space, base, pages, flags).memory,
                    AllocRegionLedger(s, g, space, base, pages, flags).roles,
                    space, AllocRegionSpaces(s, spaces, space, base, pages, flags)[space])
  {
    var t := AllocPages(s, RootOf(s.memory, space), RangePaths(base, pages), flags);
    var roles := AllocRegionLedger(s, g, space, base, pages, flags).roles;
    var regions := AllocRegionSpaces(s, spaces, space, base, pages, flags)[space];
    SpaceFacts(s, g, spaces, space);
    AllocPagesReadyToInsert(s, g, spaces, space, base, pages, flags);
    NewRegionChain(s, g, spaces, space, base, pages, flags);
    NewRegionLayout(s, g, spaces, space, base, pages, flags, t.pageList);
    NewRegionCovers(s, g, spaces, space, base, pages, flags, t.pageList);
    hide VmInv, CanAllocRegion, RangePaths, Settled, Walk, Covers, Layout, Chain, AllocRegion, AllocRegionLedger,
         CanInsert, AllocPages;
    AllocRegionRoles(s, g, spaces, space, base, pages, flags, space);
    AllocRegionRoles(s, g, spaces, space, base, pages, flags, RootOf(s.memory, space));
    AllocRegionRoles(s, g, spaces, space, base, pages, flags, t.pageList);
    forall k | 0 <= k < |spaces[space]|
      ensures spaces[space][k].record in roles && roles[spaces[space][k].record] == RegionRecord(space)
           && spaces[space][k].record != t.pageList
    {
      AllocRegionRoles(s, g, spaces, space, base, pages, flags, spaces[space][k].record);
    }
    ConsRecords(roles, space, Region(t.pageList, base, pages), spaces[space]);
  }

  lemma ConsRecords(roles: Roles, space: nat, region: Region, rest: seq<Region>)
    requires region.record in roles && roles[region.record] == RegionRecord(space)
    requires forall k :: 0 <= k < |rest| ==>
               rest[k].record in roles && roles[rest[k].record] == RegionRecord(space)
               && rest[k].record != region.record
    requires forall j, k :: 0 <= j < k < |rest| ==> rest[j].record != rest[k].record
    ensures RecordsOf(roles, space, [region] + rest)
  {
  }

  lemma AllocRegionDomain(s: Physical, g: Ledger, spaces: Spaces, space: nat, base: Word, pages: nat, flags: Word,
                          f: nat)
    requires CanAllocRegion(s, g, spaces, space, base, pages, flags)
    requires f in AllocRegionLedger(s, g, space, base, pages, flags).roles
    ensures f in g.roles
  {
    AllocPagesReadyToInsert(s, g, spaces, space, base, pages, flags);
    hide VmInv, CanAllocPages, RangePaths, Settled;
    AllocPagesDomain(s, g, RootOf(s.memory, space), RangePaths(base, pages), flags);
  }

  lemma {:induction false} AllocPagesDomain(s: Physical, g: Ledger, root: nat, paths: seq<Path>, flags: Word)
    requires CleanFlags(flags) && CanAllocPages(s, g, root, paths, flags)
    ensures AllocPagesLedger(s, g, root, paths, flags).roles.Keys == g.roles.Keys
  {
    hide CanAllocPage, Settled;
    if paths != [] {
      AllocPagesDomain(s, g, root, Front(paths), flags);
      AllocPageKeepsDomain(AllocPages(s, root, Front(paths), flags), AllocPagesLedger(s, g, root, Front(paths), flags),
                           root, Last(paths), flags);
    }
  }

  lemma RootsAreKept(s: Physical, g: Ledger, spaces: Spaces, space: nat, base: Word, pages: nat, flags: Word, sp: nat)
    requires CanAllocRegion(s, g, spaces, space, base, pages, flags) && sp in spaces
    ensures RootOf(AllocRegion(s, space, base, pages, flags).memory, sp) == RootOf(s.memory, sp)
  {
    SpaceFacts(s, g, spaces, sp);
    NewRegionChain(s, g, spaces, space, base, pages, flags);
    hide VmInv, CanAllocRegion, RangePaths, Settled, AllocRegion;
    if sp != space {
      AllocRegionKeepsRecord(s, g, spaces, space, base, pages, flags, sp);
    }
  }

  lemma AllocRegionAccounts(s: Physical, g: Ledger, spaces: Spaces, space: nat, base: Word, pages: nat, flags: Word)
    requires CanAllocRegion(s, g, spaces, space, base, pages, flags)
    ensures Accounted(AllocRegion(s, space, base, pages, flags).memory,
                      AllocRegionLedger(s, g, space, base, pages, flags).roles,
                      AllocRegionSpaces(s, spaces, space, base, pages, flags))
  {
    var n, roles := AllocRegion(s, space, base, pages, flags).memory,
                    AllocRegionLedger(s, g, space, base, pages, flags).roles;
    var t := AllocPages(s, RootOf(s.memory, space), RangePaths(base, pages), flags);
    forall f | f in roles
      ensures f in g.roles
      ensures if f == t.pageList then roles[f] == RegionRecord(space)
              else AllocatedRole(g.roles[f], roles[f], t.memory, RootOf(s.memory, space), RangePaths(base, pages))
    {
      AllocRegionDomain(s, g, spaces, space, base, pages, flags, f);
      AllocRegionRoles(s, g, spaces, space, base, pages, flags, f);
    }
    forall sp | sp in spaces ensures RootOf(n, sp) == RootOf(s.memory, sp) {
      RootsAreKept(s, g, spaces, space, base, pages, flags, sp);
    }
    AccountsGrow(s.memory, n, g.roles, roles, spaces, space, Region(t.pageList, base, pages));
  }

  /** Accounts stay complete when free frames become tables, data frames, or the record of one new region. */
  lemma AccountsGrow(m: Memory, n: Memory, before: Roles, after: Roles, spaces: Spaces, space: nat, region: Region)
    requires Accounted(m, before, spaces) && space in spaces
    requires forall f :: f in after && f != region.record ==>
               f in before && (after[f] == before[f] || (after[f].Table? && after[f].level < 4) || after[f].Data?)
    requires region.record in after ==> after[region.record] == RegionRecord(space)
    requires forall sp :: sp in spaces ==> RootOf(n, sp) == RootOf(m, sp)
    ensures Accounted(n, after, spaces[space := [region] + spaces[space]])
  {
    var all: Spaces := spaces[space := [region] + spaces[space]];
    forall t | ManagedRoot(after, t) ensures exists sp :: sp in all && RootOf(n, sp) == t {
      assert ManagedRoot(before, t);
      var sp :| sp in spaces && RootOf(m, sp) == t;
      assert sp in all && RootOf(n, sp) == t;
    }
    forall f | f in after && after[f].RegionRecord?
      ensures after[f].space in all && exists k :: 0 <= k < |all[after[f].space]| && all[after[f].space][k].record == f
    {
      if f == region.record {
        assert all[space][0].record == f;
      } else {
        var k :| 0 <= k < |spaces[after[f].space]| && spaces[after[f].space][k].record == f;
        assert all[after[f].space][if after[f].space == space then k + 1 else k].record == f;
      }
    }
  }

  /** vm_alloc_at, and so vm_alloc, keeps every space and the whole account of frames. */
  lemma AllocRegionKeepsVm(s: Physical, g: Ledger, spaces: Spaces, space: nat, base: Word, pages: nat, flags: Word)
    requires CanAllocRegion(s, g, spaces, space, base, pages, flags)
    ensures VmInv(AllocRegion(s, space, base, pages, flags), AllocRegionLedger(s, g, space, base, pages, flags),
                  AllocRegionSpaces(s, spaces, space, base, pages, flags))
  {
    hide *;
    CanAllocFacts(s, g, spaces, space, base, pages, flags);
    var all := AllocRegionSpaces(s, spaces, space, base, pages, flags);
    AllocRegionSettles(s, g, spaces, space, base, pages, flags);
    AllocRegionAccounts(s, g, spaces, space, base, pages, flags);
    NewSpaceOk(s, g, spaces, space, base, pages, flags);
    forall sp | sp in all
      ensures SpaceOk(AllocRegion(s, space, base, pages, flags).memory,
                      AllocRegionLedger(s, g, space, base, pages, flags).roles, sp, all[sp])
    {
      if sp != space {
        OtherSpaceKept(s, g, spaces, space, base, pages, flags, sp);
      }
    }
    VmInvOf(AllocRegion(s, space, base, pages, flags), AllocRegionLedger(s, g, space, base, pages, flags), all);
  }

  lemma CanAllocFacts(s: Physical, g: Ledger, spaces: Spaces, space: nat, base: Word, pages: nat, flags: Word)
    requires CanAllocRegion(s, g, spaces, space, base, pages, flags)
    ensures CleanFlags(flags) && LowerRange(base, pages) && space in spaces
    ensures var all := AllocRegionSpaces(s, spaces, space, base, pages, flags);
            space in all && all == spaces[space := all[space]]
  {
    hide AllocPages, CanAllocPages, VmInv;
  }

  lemma VmInvOf(s: Physical, g: Ledger, spaces: Spaces)
    requires Settled(s, g) && Accounted(s.memory, g.roles, spaces)
    requires forall sp :: sp in spaces ==> SpaceOk(s.memory, g.roles, sp, spaces[sp])
    ensures VmInv(s, g, spaces)
  {
  }

  /** vm_alloc_at may run on an unmapped range whenever four frames a page and one more are free. */
  lemma EnoughForRegion(s: Physical, g: Ledger, spaces: Spaces, space: nat, base: Word, pages: nat, flags: Word)
    requires VmInv(s, g, spaces) && space in spaces && CleanFlags(flags) && LowerRange(base, pages) && pages > 0
    requires forall p :: p in RangePaths(base, pages) ==> !Present(Lookup(s.memory, RootOf(s.memory, space), p))
    requires |g.free| > 4 * pages
    ensures CanAllocRegion(s, g, spaces, space, base, pages, flags)
  {
    SpaceFacts(s, g, spaces, space);
    SettledNow(s, g, spaces);
    hide VmInv, Settled, CanAllocPages, Lookup, SpaceOk, LowerRange;
    LowerRangePaths(base, pages);
    EnoughFrames(s, g, RootOf(s.memory, space), RangePaths(base, pages), flags);
  }

  lemma SettledNow(s: Physical, g: Ledger, spaces: Spaces)
    requires VmInv(s, g, spaces)
    ensures Settled(s, g)
  {
  }
}
