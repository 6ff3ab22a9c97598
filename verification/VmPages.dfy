/** The page loops of vm_alloc and vm_free over sequences of paths. */
module VmPages {
  import opened Words
  import opened PageTables
  import opened Mapping
  import opened AddressSpaces
  import opened Ownership

  function Front<T>(s: seq<T>): seq<T>
    requires s != []
  {
    s[..|s| - 1]
  }

  function Last<T>(s: seq<T>): T
    requires s != []
  {
    s[|s| - 1]
  }

  // ----- the loop of vm_alloc

  function AllocPages(s: Physical, root: nat, paths: seq<Path>, flags: Word): Physical
    requires CleanFlags(flags)
  {
    if paths == [] then s else AllocPage(AllocPages(s, root, Front(paths), flags), root, Last(paths), flags)
  }

  function AllocPagesLedger(s: Physical, g: Ledger, root: nat, paths: seq<Path>, flags: Word): Ledger
    requires CleanFlags(flags)
  {
    if paths == [] then g
    else AllocPageLedger(AllocPages(s, root, Front(paths), flags), AllocPagesLedger(s, g, root, Front(paths), flags),
                         root, Last(paths), flags)
  }

  /** Every page is absent when its turn comes, and no frame_alloc finds the list empty. */
  ghost predicate CanAllocPages(s: Physical, g: Ledger, root: nat, paths: seq<Path>, flags: Word)
    requires CleanFlags(flags)
  {
    if paths == [] then Settled(s, g) && ManagedRoot(g.roles, root)
    else
      && CanAllocPages(s, g, root, Front(paths), flags)
      && CanAllocPage(AllocPages(s, root, Front(paths), flags), AllocPagesLedger(s, g, root, Front(paths), flags), root,
                      Last(paths))
  }

  lemma {:induction false} CanAllocPrefix(s: Physical, g: Ledger, root: nat, paths: seq<Path>, flags: Word, k: nat)
    requires CleanFlags(flags) && CanAllocPages(s, g, root, paths, flags) && k < |paths|
    ensures CanAllocPages(s, g, root, paths[..k], flags)
    ensures CanAllocPage(AllocPages(s, root, paths[..k], flags), AllocPagesLedger(s, g, root, paths[..k], flags), root,
                         paths[k])
    ensures AllocPages(s, root, paths[..k + 1], flags)
              == AllocPage(AllocPages(s, root, paths[..k], flags), root, paths[k], flags)
    ensures AllocPagesLedger(s, g, root, paths[..k + 1], flags)
         == AllocPageLedger(AllocPages(s, root, paths[..k], flags), AllocPagesLedger(s, g, root, paths[..k], flags),
                            root, paths[k], flags)
    decreases |paths|
  {
    hide CanAllocPage, Settled;
    assert Front(paths[..k + 1]) == paths[..k];
    if k + 1 < |paths| {
      assert Front(paths)[..k] == paths[..k] && Front(paths)[..k + 1] == paths[..k + 1];
      CanAllocPrefix(s, g, root, Front(paths), flags, k);
    } else {
      assert paths[..k + 1] == paths;
    }
  }

  lemma {:induction false} AllocPagesSettle(s: Physical, g: Ledger, root: nat, paths: seq<Path>, flags: Word)
    requires CleanFlags(flags) && CanAllocPages(s, g, root, paths, flags)
    ensures Settled(AllocPages(s, root, paths, flags), AllocPagesLedger(s, g, root, paths, flags))
  {
    hide CanAllocPage, Settled;
    if paths != [] {
      AllocPageSettles(AllocPages(s, root, Front(paths), flags), AllocPagesLedger(s, g, root, Front(paths), flags),
                       root, Last(paths), flags);
    }
  }

  /** What one run of the loop does to a frame's role: nothing, or free to table, or free to the data frame of one of
      the pages. */
  predicate AllocatedRole(before: Role, after: Role, m: Memory, root: nat, paths: seq<Path>) {
    || after == before
    || (before == Free && after.Table? && after.level < 4)
    || (before == Free && after.Data? && exists p :: p in paths && after == Data(LeafTable(m, root, 4, p), p.l1))
  }

  lemma {:induction false} AllocPagesKeepRoles(s: Physical, g: Ledger, root: nat, paths: seq<Path>, flags: Word, f: nat)
    requires CleanFlags(flags) && CanAllocPages(s, g, root, paths, flags) && f in g.roles
    ensures f in AllocPagesLedger(s, g, root, paths, flags).roles
    ensures g.roles[f] != Free ==> AllocPagesLedger(s, g, root, paths, flags).roles[f] == g.roles[f]
  {
    hide CanAllocPage, Settled;
    if paths != [] {
      AllocPagesKeepRoles(s, g, root, Front(paths), flags, f);
      AllocPageRoles(AllocPages(s, root, Front(paths), flags), AllocPagesLedger(s, g, root, Front(paths), flags),
                     root, Last(paths), flags, f);
    }
  }

  /** The pages of the loop are present afterwards; every other page of every root reads as before. */
  lemma {:induction false} AllocPagesLookup(s: Physical, g: Ledger, root: nat, paths: seq<Path>, flags: Word, r: nat,
                                            q: Path)
    requires CleanFlags(flags) && CanAllocPages(s, g, root, paths, flags) && IsRoot(g.roles, r)
    ensures r != root || q !in paths ==>
              Lookup(AllocPages(s, root, paths, flags).memory, r, q) == Lookup(s.memory, r, q)
    ensures r == root && q in paths ==>
              && Present(Lookup(AllocPages(s, root, paths, flags).memory, r, q))
              && exists f :: f in g.roles && g.roles[f] == Free && f < WORD_LIMIT
                             && Lookup(AllocPages(s, root, paths, flags).memory, r, q) == LeafEntry(f, flags)
  {
    hide CanAllocPage, Settled, LeafEntry, Lookup;
    if paths != [] {
      var t, h := AllocPages(s, root, Front(paths), flags), AllocPagesLedger(s, g, root, Front(paths), flags);
      AllocPagesLookup(s, g, root, Front(paths), flags, r, q);
      AllocPagesKeepRoles(s, g, root, Front(paths), flags, r);
      AllocPageLookup(t, h, root, Last(paths), flags, r, q);
      assert q in paths <==> q in Front(paths) || q == Last(paths);
      PopCanMap(t, h, root, Last(paths));
      AllocPagesOnlyUseFree(s, g, root, Front(paths), flags, t.pageList);
      if r == root && q == Last(paths) {
        assert t.pageList in g.roles && g.roles[t.pageList] == Free;
      }
    }
  }

  /** A frame that is free after the loop was free before it. */
  lemma {:induction false} AllocPagesOnlyUseFree(s: Physical, g: Ledger, root: nat, paths: seq<Path>, flags: Word,
                                                 f: nat)
    requires CleanFlags(flags) && CanAllocPages(s, g, root, paths, flags)
    requires f in AllocPagesLedger(s, g, root, paths, flags).roles
             && AllocPagesLedger(s, g, root, paths, flags).roles[f] == Free
    ensures f in g.roles && g.roles[f] == Free
  {
    hide CanAllocPage, Settled;
    if paths != [] {
      var t, h := AllocPages(s, root, Front(paths), flags), AllocPagesLedger(s, g, root, Front(paths), flags);
      AllocPageKeepsDomain(t, h, root, Last(paths), flags);
      AllocPageRoles(t, h, root, Last(paths), flags, f);
      AllocPagesOnlyUseFree(s, g, root, Front(paths), flags, f);
    }
  }

  lemma AllocPageKeepsDomain(s: Physical, g: Ledger, root: nat, p: Path, flags: Word)
    requires CanAllocPage(s, g, root, p) && CleanFlags(flags)
    ensures AllocPageLedger(s, g, root, p, flags).roles.Keys == g.roles.Keys
  {
    PopCanMap(s, g, root, p);
    hide Inv, Leaves;
    MapKeepsDomain(Pop(s), PopLedger(s, g), root, 4, p, flags);
    MapKeepsRoles(Pop(s), PopLedger(s, g), root, 4, p, flags, s.pageList);
  }

  lemma {:induction false} MapKeepsDomain(s: Physical, g: Ledger, t: nat, level: nat, p: Path, flags: Word)
    requires CanMap(s, g, t, level, p)
    ensures MapLedger(s, g, t, level, p, flags).roles.Keys == g.roles.Keys
    decreases level
  {
    if level > 1 {
      MapStep(s, g, t, level, p, flags);
      if Present(s.memory[t][p.At(level)]) {
        MapKeepsDomain(s, g, AddressBits(s.memory[t][p.At(level)]), level - 1, p, flags);
      } else {
        GrowFacts(s, g, t, p.At(level), flags);
        MapKeepsDomain(Grow(s, t, p.At(level), flags), GrowLedger(s, g, t, p.At(level)), s.pageList, level - 1, p,
                       flags);
      }
    }
  }

  /** A walk that reaches a last-level table keeps reaching it. */
  lemma {:induction false} MapKeepsLeafTable(s: Physical, g: Ledger, t: nat, level: nat, p: Path, paddr: Word,
                                             flags: Word,
                                             u: nat, height: nat, q: Path)
    requires CanMap(s, g, t, level, p) && CleanFlags(flags)
    requires IsTable(g.roles, u) && g.roles[u].level == height && 1 <= height <= 4
    requires LeafTable(s.memory, u, height, q) != 0
    ensures LeafTable(MapFrom(s, t, level, p, paddr, flags).memory, u, height, q) == LeafTable(s.memory, u, height, q)
    decreases height
  {
    if height > 1 {
      MapKeepsInnerEntries(s, g, t, level, p, paddr, flags, u, q.At(height));
      MapKeepsLeafTable(s, g, t, level, p, paddr, flags, AddressBits(s.memory[u][q.At(height)]), height - 1, q);
    }
  }

  lemma AllocPageKeepsLeafTable(s: Physical, g: Ledger, root: nat, p: Path, flags: Word, q: Path)
    requires CanAllocPage(s, g, root, p) && CleanFlags(flags)
    ensures LeafTable(AllocPage(s, root, p, flags).memory, root, 4, p) != 0
    ensures LeafTable(s.memory, root, 4, q) != 0 ==>
              LeafTable(AllocPage(s, root, p, flags).memory, root, 4, q) == LeafTable(s.memory, root, 4, q)
  {
    PopCanMap(s, g, root, p);
    hide Inv, Leaves;
    MapReachesLeaf(Pop(s), PopLedger(s, g), root, 4, p, s.pageList, flags);
    if LeafTable(s.memory, root, 4, q) != 0 {
      MapKeepsLeafTable(Pop(s), PopLedger(s, g), root, 4, p, s.pageList, flags, root, 4, q);
    }
  }

  lemma {:induction false} AllocPagesReach(s: Physical, g: Ledger, root: nat, paths: seq<Path>, flags: Word, q: Path)
    requires CleanFlags(flags) && CanAllocPages(s, g, root, paths, flags)
    ensures q in paths || LeafTable(s.memory, root, 4, q) != 0 ==>
              LeafTable(AllocPages(s, root, paths, flags).memory, root, 4, q) != 0
    ensures LeafTable(s.memory, root, 4, q) != 0 ==>
              LeafTable(AllocPages(s, root, paths, flags).memory, root, 4, q) == LeafTable(s.memory, root, 4, q)
  {
    hide CanAllocPage, Settled;
    if paths != [] {
      AllocPagesReach(s, g, root, Front(paths), flags, q);
      AllocPageKeepsLeafTable(AllocPages(s, root, Front(paths), flags),
                              AllocPagesLedger(s, g, root, Front(paths), flags),
                              root, Last(paths), flags, q);
      assert q in paths <==> q in Front(paths) || q == Last(paths);
    }
  }

  lemma {:induction false} AllocPagesRoles(s: Physical, g: Ledger, root: nat, paths: seq<Path>, flags: Word, f: nat)
    requires CleanFlags(flags) && CanAllocPages(s, g, root, paths, flags) && f in g.roles
    ensures f in AllocPagesLedger(s, g, root, paths, flags).roles
    ensures AllocatedRole(g.roles[f], AllocPagesLedger(s, g, root, paths, flags).roles[f],
                          AllocPages(s, root, paths, flags).memory, root, paths)
  {
    hide CanAllocPage, Settled;
    if paths != [] {
      var t, h := AllocPages(s, root, Front(paths), flags), AllocPagesLedger(s, g, root, Front(paths), flags);
      AllocPagesRoles(s, g, root, Front(paths), flags, f);
      AllocPageRoles(t, h, root, Last(paths), flags, f);
      assert Last(paths) in paths && forall p :: p in Front(paths) ==> p in paths;
      if h.roles[f] != g.roles[f] && h.roles[f].Data? {
        var p :| p in Front(paths) && h.roles[f] == Data(LeafTable(t.memory, root, 4, p), p.l1);
        AllocPagesReach(s, g, root, Front(paths), flags, p);
        AllocPageKeepsLeafTable(t, h, root, Last(paths), flags, p);
      }
    }
  }

  lemma {:induction false} AllocPagesKeepOthers(s: Physical, g: Ledger, root: nat, paths: seq<Path>, flags: Word,
                                                f: nat)
    requires CleanFlags(flags) && CanAllocPages(s, g, root, paths, flags)
    requires f in g.roles && g.roles[f] != Free && !g.roles[f].Table?
    ensures f in s.memory && f in AllocPages(s, root, paths, flags).memory
    ensures AllocPages(s, root, paths, flags).memory[f] == s.memory[f]
  {
    if paths != [] {
      hide CanAllocPage, Settled;
      AllocPagesKeepOthers(s, g, root, Front(paths), flags, f);
      AllocPagesKeepRoles(s, g, root, Front(paths), flags, f);
      AllocPageKeepsOthers(AllocPages(s, root, Front(paths), flags), AllocPagesLedger(s, g, root, Front(paths), flags),
                           root, Last(paths), flags, f);
    }
  }

  // ----- the loops of vm_free

  function FreePages(s: Physical, root: nat, paths: seq<Path>): Physical {
    if paths == [] then s else FreePage(FreePages(s, root, Front(paths)), root, Last(paths))
  }

  function FreePagesLedger(s: Physical, g: Ledger, root: nat, paths: seq<Path>): Ledger {
    if paths == [] then g
    else FreePageLedger(FreePages(s, root, Front(paths)), FreePagesLedger(s, g, root, Front(paths)), root, Last(paths))
  }

  /** The leaf slots behind those of the paths that are mapped. */
  function SlotsOf(m: Memory, root: nat, paths: seq<Path>): set<Slot> {
    set p | p in paths && Present(Lookup(m, root, p)) :: SlotOf(m, root, p)
  }

  predicate DistinctPaths(paths: seq<Path>) {
    forall j, k :: 0 <= j < k < |paths| ==> paths[j] != paths[k]
  }

  predicate LowerPaths(paths: seq<Path>) {
    forall k :: 0 <= k < |paths| ==> paths[k].l4 < 256
  }

  ghost predicate CanFreePages(s: Physical, g: Ledger, root: nat, paths: seq<Path>) {
    Settled(s, g) && ManagedRoot(g.roles, root) && DistinctPaths(paths) && LowerPaths(paths)
  }

  /** Two lower-half paths of one root never lead to the same leaf slot. */
  lemma SlotsAreDistinct(m: Memory, roles: Roles, root: nat, p: Path, q: Path)
    requires TreeDown(m, roles) && 0 !in m && IsRoot(roles, root) && LeafTable(m, root, 4, p) != 0
    ensures SlotOf(m, root, p) == SlotOf(m, root, q) <==> p == q
  {
    RootsMeet(m, roles, root, root, q, p);
  }

  lemma FreePageWalk(s: Physical, g: Ledger, root: nat, p: Path, r: nat, q: Path)
    requires Inv(s, g) && Leaves(s.memory, g) && ManagedRoot(g.roles, root) && p.l4 < 256
    requires SlotOf(s.memory, root, p) !in g.limbo && IsRoot(g.roles, r)
    ensures Lookup(FreePage(s, root, p).memory, r, q) == Lookup(s.memory, r, q)
    ensures LeafTable(FreePage(s, root, p).memory, r, 4, q) == LeafTable(s.memory, r, 4, q)
  {
    if Present(Lookup(s.memory, root, p)) {
      PageHasDataFrame(s, g, root, p);
      WalkReadsTables(s.memory, FreePage(s, root, p).memory, g.roles, r, 4, q);
    }
  }

  /** Is the frame with this role the one behind one of the paths? */
  predicate BehindPaths(role: Role, m: Memory, root: nat, paths: seq<Path>) {
    role.Data? && (role.table, role.slot) in SlotsOf(m, root, paths)
  }

  /** While frames go back to the list, the trees stay in order and the slots of freed frames wait in limbo. */
  ghost predicate Freeing(s: Physical, g: Ledger, root: nat, paths: seq<Path>) {
    var t, h := FreePages(s, root, paths), FreePagesLedger(s, g, root, paths);
    && Inv(t, h) && Leaves(t.memory, h) && ManagedRoot(h.roles, root)
    && h.limbo == SlotsOf(s.memory, root, paths)
  }

  ghost predicate SameWalk(m: Memory, n: Memory, r: nat, q: Path) {
    Lookup(n, r, q) == Lookup(m, r, q) && LeafTable(n, r, 4, q) == LeafTable(m, r, 4, q)
  }

  lemma SlotsOfFront(m: Memory, root: nat, paths: seq<Path>)
    requires paths != []
    ensures SlotsOf(m, root, paths) == SlotsOf(m, root, Front(paths)) +
                                       (if Present(Lookup(m, root, Last(paths))) then {SlotOf(m, root, Last(paths))}
                                        else {})
  {
    assert forall p :: p in paths <==> p in Front(paths) || p == Last(paths);
  }

  lemma FrontCanFree(s: Physical, g: Ledger, root: nat, paths: seq<Path>)
    requires CanFreePages(s, g, root, paths) && paths != []
    ensures CanFreePages(s, g, root, Front(paths)) && Last(paths).l4 < 256
  {
  }

  /** Everything the next page of the loop needs. */
  ghost predicate ReadyToFree(t: Physical, h: Ledger, root: nat, p: Path) {
    && Inv(t, h) && Leaves(t.memory, h) && ManagedRoot(h.roles, root) && p.l4 < 256
    && SlotOf(t.memory, root, p) !in h.limbo
  }

  lemma FreePagesReady(s: Physical, g: Ledger, root: nat, paths: seq<Path>)
    requires CanFreePages(s, g, root, paths) && paths != [] && Freeing(s, g, root, Front(paths))
    requires SameWalk(s.memory, FreePages(s, root, Front(paths)).memory, root, Last(paths))
    ensures ReadyToFree(FreePages(s, root, Front(paths)), FreePagesLedger(s, g, root, Front(paths)), root, Last(paths))
  {
    NextSlotIsSettled(s, g, root, paths);
    FrontCanFree(s, g, root, paths);
    hide Inv, Leaves, Walk, LeafTable, CanFreePages;
  }

  /** One more page: the state stays in order and no walk changes. */
  lemma FreeOnePage(t: Physical, h: Ledger, root: nat, p: Path, r: nat, q: Path)
    requires ReadyToFree(t, h, root, p) && IsRoot(h.roles, r)
    ensures Inv(FreePage(t, root, p), FreePageLedger(t, h, root, p))
            && Leaves(FreePage(t, root, p).memory, FreePageLedger(t, h, root, p))
    ensures ManagedRoot(FreePageLedger(t, h, root, p).roles, root) && IsRoot(FreePageLedger(t, h, root, p).roles, r)
    ensures SameWalk(t.memory, FreePage(t, root, p).memory, r, q)
    ensures FreePageLedger(t, h, root, p).limbo ==
            h.limbo + (if Present(Lookup(t.memory, root, p)) then {SlotOf(t.memory, root, p)} else {})
  {
    FreePageKeeps(t, h, root, p);
    FreePageWalk(t, h, root, p, r, q);
    FreePageRole(t, h, root, p, root);
    FreePageRole(t, h, root, p, r);
    if Present(Lookup(t.memory, root, p)) {
      PageHasDataFrame(t, h, root, p);
    }
  }

  lemma FreePagesStep(s: Physical, g: Ledger, root: nat, paths: seq<Path>, r: nat, q: Path)
    requires CanFreePages(s, g, root, paths) && paths != [] && Freeing(s, g, root, Front(paths))
    requires IsRoot(FreePagesLedger(s, g, root, Front(paths)).roles, r)
    requires SameWalk(s.memory, FreePages(s, root, Front(paths)).memory, root, Last(paths))
    requires SameWalk(s.memory, FreePages(s, root, Front(paths)).memory, r, q)
    ensures Freeing(s, g, root, paths)
    ensures IsRoot(FreePagesLedger(s, g, root, paths).roles, r)
    ensures SameWalk(s.memory, FreePages(s, root, paths).memory, r, q)
  {
    FreePagesReady(s, g, root, paths);
    hide Inv, Leaves, Walk, LeafTable, CanFreePages, ReadyToFree, FreePage, FreePageLedger;
    var front, p := Front(paths), Last(paths);
    FreeOnePage(FreePages(s, root, front), FreePagesLedger(s, g, root, front), root, p, r, q);
    SlotsOfFront(s.memory, root, paths);
  }

  lemma {:induction false} FreePagesState(s: Physical, g: Ledger, root: nat, paths: seq<Path>, r: nat, q: Path)
    requires CanFreePages(s, g, root, paths) && IsRoot(g.roles, r)
    ensures Freeing(s, g, root, paths)
    ensures IsRoot(FreePagesLedger(s, g, root, paths).roles, r)
    ensures SameWalk(s.memory, FreePages(s, root, paths).memory, r, q)
  {
    if paths != [] {
      FrontCanFree(s, g, root, paths);
      RootIsRoot(s, g, root, paths);
      hide Freeing, SameWalk, CanFreePages;
      FreePagesState(s, g, root, Front(paths), root, Last(paths));
      FreePagesState(s, g, root, Front(paths), r, q);
      FreePagesStep(s, g, root, paths, r, q);
    }
  }

  lemma RootIsRoot(s: Physical, g: Ledger, root: nat, paths: seq<Path>)
    requires CanFreePages(s, g, root, paths)
    ensures IsRoot(g.roles, root)
  {
  }

  /** The slot of the next page is not among those already in limbo. */
  lemma NextSlotIsSettled(s: Physical, g: Ledger, root: nat, paths: seq<Path>)
    requires CanFreePages(s, g, root, paths) && paths != []
    requires LeafTable(FreePages(s, root, Front(paths)).memory, root, 4, Last(paths))
               == LeafTable(s.memory, root, 4, Last(paths))
    ensures SlotOf(s.memory, root, Last(paths)) !in SlotsOf(s.memory, root, Front(paths))
    ensures SlotOf(FreePages(s, root, Front(paths)).memory, root, Last(paths)) == SlotOf(s.memory, root, Last(paths))
  {
    var front, p := Front(paths), Last(paths);
    forall e | e in front && Present(Lookup(s.memory, root, e))
      ensures SlotOf(s.memory, root, e) != SlotOf(s.memory, root, p) {
      LeafTableIsTable(s.memory, g.roles, root, 4, e);
      SlotsAreDistinct(s.memory, g.roles, root, e, p);
    }
  }

  lemma FreePageRole(s: Physical, g: Ledger, root: nat, p: Path, f: nat)
    requires Inv(s, g) && Leaves(s.memory, g) && ManagedRoot(g.roles, root) && p.l4 < 256 && f in g.roles
    requires SlotOf(s.memory, root, p) !in g.limbo
    ensures f in FreePageLedger(s, g, root, p).roles
    ensures FreePageLedger(s, g, root, p).roles[f] ==
            if Present(Lookup(s.memory, root, p)) && g.roles[f] == Data(LeafTable(s.memory, root, 4, p), p.l1) then Free
            else g.roles[f]
  {
    if Present(Lookup(s.memory, root, p)) {
      PageHasDataFrame(s, g, root, p);
      DataFrameIsUnique(s.memory, g, AddressBits(Lookup(s.memory, root, p)), f);
    }
  }

  /** No two frames stand behind the same leaf slot. */
  lemma DataFrameIsUnique(m: Memory, g: Ledger, d: nat, e: nat)
    requires LeavesUp(m, g.roles, g.limbo) && d in g.roles && e in g.roles && g.roles[d].Data?
    ensures g.roles[e] == g.roles[d] <==> d == e
  {
    assert Points(m, g.roles[d].table, g.roles[d].slot, d);
    if g.roles[e] == g.roles[d] {
      assert Points(m, g.roles[e].table, g.roles[e].slot, e);
    }
  }

  /** The loop frees exactly the frames behind the mapped paths. */
  lemma {:induction false} FreePagesRoles(s: Physical, g: Ledger, root: nat, paths: seq<Path>, f: nat)
    requires CanFreePages(s, g, root, paths) && f in g.roles
    ensures f in FreePagesLedger(s, g, root, paths).roles
    ensures FreePagesLedger(s, g, root, paths).roles[f] == if BehindPaths(g.roles[f], s.memory, root, paths) then Free
                                                           else g.roles[f]
  {
    if paths != [] {
      FrontCanFree(s, g, root, paths);
      RootIsRoot(s, g, root, paths);
      FreePagesState(s, g, root, Front(paths), root, Last(paths));
      FreePagesReady(s, g, root, paths);
      FreePagesRoles(s, g, root, Front(paths), f);
      SlotsOfFront(s.memory, root, paths);
      hide Inv, Leaves, Walk, LeafTable, CanFreePages, Freeing;
      FreePageRole(FreePages(s, root, Front(paths)), FreePagesLedger(s, g, root, Front(paths)), root, Last(paths), f);
    }
  }

  /** Only data frames are written to while frames go back to the list. */
  lemma {:induction false} FreePagesKeepOthers(s: Physical, g: Ledger, root: nat, paths: seq<Path>, f: nat)
    requires CanFreePages(s, g, root, paths) && f in g.roles && !g.roles[f].Data? && f in s.memory
    ensures f in FreePages(s, root, paths).memory && FreePages(s, root, paths).memory[f] == s.memory[f]
  {
    if paths != [] {
      FrontCanFree(s, g, root, paths);
      RootIsRoot(s, g, root, paths);
      FreePagesState(s, g, root, Front(paths), root, Last(paths));
      FreePagesReady(s, g, root, paths);
      FreePagesKeepOthers(s, g, root, Front(paths), f);
      FreePagesRoles(s, g, root, Front(paths), f);
      hide Inv, Leaves, Walk, LeafTable, CanFreePages, Freeing, FreePages;
      FreePageKeepsOther(FreePages(s, root, Front(paths)), FreePagesLedger(s, g, root, Front(paths)), root, Last(paths),
                         f);
      FreePagesUnfold(s, root, paths);
    }
  }

  lemma FreePagesUnfold(s: Physical, root: nat, paths: seq<Path>)
    requires paths != []
    ensures FreePages(s, root, paths) == FreePage(FreePages(s, root, Front(paths)), root, Last(paths))
  {
  }

  lemma FreePageKeepsOther(t: Physical, h: Ledger, root: nat, p: Path, f: nat)
    requires ReadyToFree(t, h, root, p) && f in h.roles && !h.roles[f].Data? && f in t.memory
    ensures f in FreePage(t, root, p).memory && FreePage(t, root, p).memory[f] == t.memory[f]
  {
    if Present(Lookup(t.memory, root, p)) {
      PageHasDataFrame(t, h, root, p);
    }
  }

  // ----- clearing the entries of freed pages

  function AllSlotsOf(m: Memory, root: nat, paths: seq<Path>): set<Slot> {
    set p | p in paths && LeafTable(m, root, 4, p) != 0 :: SlotOf(m, root, p)
  }

  ghost predicate Freed(t: Physical, h: Ledger, root: nat, paths: seq<Path>) {
    && Inv(t, h) && Leaves(t.memory, h) && ManagedRoot(h.roles, root) && DistinctPaths(paths) && LowerPaths(paths)
    && (forall k ::
          0 <= k < |paths| && Present(Lookup(t.memory, root, paths[k])) ==> SlotOf(t.memory, root, paths[k]) in h.limbo)
  }

  lemma {:induction false} UnmapKeepsLeafTables(t: Physical, h: Ledger, root: nat, paths: seq<Path>, q: Path)
    requires Inv(t, h) && IsRoot(h.roles, root)
    ensures LeafTable(UnmapSteps(t, root, paths).memory, root, 4, q) == LeafTable(t.memory, root, 4, q)
  {
    if paths != [] {
      var u := UnmapSteps(t, root, Front(paths));
      UnmapKeepsLeafTables(t, h, root, Front(paths), q);
      UnmapStepsKeepInv(t, h, root, Front(paths));
      UnmapIsLeafWrite(u.memory, h.roles, root, 4, Last(paths));
      LeafTableIsTable(u.memory, h.roles, root, 4, Last(paths));
      if LeafTable(u.memory, root, 4, Last(paths)) != 0 {
        LeafWriteWalk(u.memory, h.roles, LeafTable(u.memory, root, 4, Last(paths)), Last(paths).l1, 0, root, 4, q);
      }
    }
  }

  function ClearLedger(h: Ledger, slots: set<Slot>): Ledger {
    h.(limbo := h.limbo - slots)
  }

  lemma ClearOnePage(u: Physical, h: Ledger, root: nat, p: Path)
    requires Inv(u, h) && Leaves(u.memory, h) && IsRoot(h.roles, root)
    requires Present(Lookup(u.memory, root, p)) ==> SlotOf(u.memory, root, p) in h.limbo
    ensures Leaves(UnmapPage(u, root, p).memory,
                   ClearLedger(h, if LeafTable(u.memory, root, 4, p) == 0 then {} else {SlotOf(u.memory, root, p)}))
  {
    UnmapIsLeafWrite(u.memory, h.roles, root, 4, p);
    LeafTableIsTable(u.memory, h.roles, root, 4, p);
    if LeafTable(u.memory, root, 4, p) != 0 {
      ClearKeepsLeaves(u.memory, h, LeafTable(u.memory, root, 4, p), p.l1);
    } else {
      assert h.limbo - {} == h.limbo;
    }
  }

  /** Clearing the entries of freed pages, in order, empties limbo of their slots. */
  lemma {:induction false} UnmapSettles(t: Physical, h: Ledger, root: nat, paths: seq<Path>)
    requires Freed(t, h, root, paths)
    ensures Leaves(UnmapSteps(t, root, paths).memory, ClearLedger(h, AllSlotsOf(t.memory, root, paths)))
    decreases |paths|
  {
    if paths == [] {
      assert h.limbo - AllSlotsOf(t.memory, root, paths) == h.limbo;
    } else {
      var front, p := Front(paths), Last(paths);
      FrontFreed(t, h, root, paths);
      UnmapSettles(t, h, root, front);
      UnmapSettlesStep(t, h, root, paths);
    }
  }

  lemma FrontFreed(t: Physical, h: Ledger, root: nat, paths: seq<Path>)
    requires Freed(t, h, root, paths) && paths != []
    ensures Freed(t, h, root, Front(paths)) && Inv(t, h) && IsRoot(h.roles, root)
    ensures Last(paths) !in Front(paths)
    ensures Present(Lookup(t.memory, root, Last(paths))) ==> SlotOf(t.memory, root, Last(paths)) in h.limbo
  {
  }

  lemma UnmapSettlesStep(t: Physical, h: Ledger, root: nat, paths: seq<Path>)
    requires Freed(t, h, root, paths) && paths != []
    requires Leaves(UnmapSteps(t, root, Front(paths)).memory, ClearLedger(h, AllSlotsOf(t.memory, root, Front(paths))))
    ensures Leaves(UnmapSteps(t, root, paths).memory, ClearLedger(h, AllSlotsOf(t.memory, root, paths)))
  {
    var front, p := Front(paths), Last(paths);
    var u, k := UnmapSteps(t, root, front), ClearLedger(h, AllSlotsOf(t.memory, root, front));
    NextIsClearable(t, h, root, paths);
    AllSlotsOfFront(t.memory, root, paths);
    hide *;
    ClearOnePage(u, k, root, p);
    UnmapUnfold(t, root, paths);
    ClearTwice(h, AllSlotsOf(t.memory, root, front),
               if LeafTable(u.memory, root, 4, p) == 0 then {} else {SlotOf(u.memory, root, p)});
  }

  lemma ClearTwice(h: Ledger, a: set<Slot>, b: set<Slot>)
    ensures ClearLedger(ClearLedger(h, a), b) == ClearLedger(h, a + b)
  {
    assert h.limbo - a - b == h.limbo - (a + b);
  }

  lemma UnmapUnfold(t: Physical, root: nat, paths: seq<Path>)
    requires paths != []
    ensures UnmapSteps(t, root, paths) == UnmapPage(UnmapSteps(t, root, Front(paths)), root, Last(paths))
  {
  }

  /** The next page to clear is absent or waits in limbo. */
  lemma NextIsClearable(t: Physical, h: Ledger, root: nat, paths: seq<Path>)
    requires Freed(t, h, root, paths) && paths != []
    ensures var u, k := UnmapSteps(t, root, Front(paths)), ClearLedger(h, AllSlotsOf(t.memory, root, Front(paths)));
            && Inv(u, k) && IsRoot(k.roles, root)
            && (Present(Lookup(u.memory, root, Last(paths))) ==> SlotOf(u.memory, root, Last(paths)) in k.limbo)
            && LeafTable(u.memory, root, 4, Last(paths)) == LeafTable(t.memory, root, 4, Last(paths))
            && SlotOf(u.memory, root, Last(paths)) == SlotOf(t.memory, root, Last(paths))
  {
    var front, p := Front(paths), Last(paths);
    var u, k := UnmapSteps(t, root, front), ClearLedger(h, AllSlotsOf(t.memory, root, front));
    FrontFreed(t, h, root, paths);
    UnmapStepsKeepInv(t, h, root, front);
    UnmapStepsLookup(t, h, root, front, root, p);
    UnmapKeepsLeafTables(t, h, root, front, p);
    LastSlotIsNew(t, h, root, paths);
    InvIgnoresLimbo(u, h, k.limbo);
    hide Inv, Leaves, Walk, LeafTable, Freed;
  }

  lemma InvIgnoresLimbo(s: Physical, g: Ledger, limbo: set<Slot>)
    requires Inv(s, g)
    ensures Inv(s, g.(limbo := limbo))
  {
  }

  lemma AllSlotsOfFront(m: Memory, root: nat, paths: seq<Path>)
    requires paths != []
    ensures AllSlotsOf(m, root, paths) == AllSlotsOf(m, root, Front(paths)) +
              (if LeafTable(m, root, 4, Last(paths)) == 0 then {} else {SlotOf(m, root, Last(paths))})
  {
    assert forall p :: p in paths <==> p in Front(paths) || p == Last(paths);
  }

  lemma LastSlotIsNew(t: Physical, h: Ledger, root: nat, paths: seq<Path>)
    requires Freed(t, h, root, paths) && paths != []
    ensures SlotOf(t.memory, root, Last(paths)) !in AllSlotsOf(t.memory, root, Front(paths))
  {
    FrontFreed(t, h, root, paths);
    forall e | e in Front(paths) && LeafTable(t.memory, root, 4, e) != 0
      ensures SlotOf(t.memory, root, e) != SlotOf(t.memory, root, Last(paths))
    {
      SlotsAreDistinct(t.memory, h.roles, root, e, Last(paths));
    }
  }

  // ----- vm_free's page work as a whole

  /** First every frame behind the range goes back to the list, then the entries are cleared. */
  function ReleasePages(s: Physical, root: nat, paths: seq<Path>): Physical {
    UnmapSteps(FreePages(s, root, paths), root, paths)
  }

  function ReleaseLedger(s: Physical, g: Ledger, root: nat, paths: seq<Path>): Ledger {
    FreePagesLedger(s, g, root, paths).(limbo := {})
  }

  lemma {:induction false} FreePagesKeepLeafTables(s: Physical, g: Ledger, root: nat, paths: seq<Path>, ps: seq<Path>)
    requires CanFreePages(s, g, root, paths)
    ensures SlotsOf(s.memory, root, ps) <= AllSlotsOf(FreePages(s, root, paths).memory, root, ps)
    ensures forall k :: 0 <= k < |ps| && Present(Lookup(FreePages(s, root, paths).memory, root, ps[k])) ==>
              Present(Lookup(s.memory, root, ps[k]))
              && SlotOf(FreePages(s, root, paths).memory, root, ps[k]) == SlotOf(s.memory, root, ps[k])
  {
    forall p | p in ps
      ensures SameWalk(s.memory, FreePages(s, root, paths).memory, root, p)
      ensures Present(Lookup(s.memory, root, p)) ==> LeafTable(s.memory, root, 4, p) != 0
    {
      FreePagesState(s, g, root, paths, root, p);
      LeafTableIsTable(s.memory, g.roles, root, 4, p);
    }
  }

  lemma ReleaseSettles(s: Physical, g: Ledger, root: nat, paths: seq<Path>)
    requires CanFreePages(s, g, root, paths)
    ensures Settled(ReleasePages(s, root, paths), ReleaseLedger(s, g, root, paths))
  {
    var t, h := FreePages(s, root, paths), FreePagesLedger(s, g, root, paths);
    RootIsRoot(s, g, root, paths);
    FreePagesState(s, g, root, paths, root, Path(0, 0, 0, 0));
    FreePagesKeepLeafTables(s, g, root, paths, paths);
    assert Freed(t, h, root, paths);
    UnmapSettles(t, h, root, paths);
    UnmapStepsKeepInv(t, h, root, paths);
    InvIgnoresLimbo(ReleasePages(s, root, paths), h, {});
    assert ClearLedger(h, AllSlotsOf(t.memory, root, paths)) == ReleaseLedger(s, g, root, paths);
  }

  /** Exactly the given pages of the root are gone; every other page of every root reads as before. */
  lemma ReleaseLookup(s: Physical, g: Ledger, root: nat, paths: seq<Path>, r: nat, q: Path)
    requires CanFreePages(s, g, root, paths) && IsRoot(g.roles, r)
    ensures Lookup(ReleasePages(s, root, paths).memory, r, q) ==
            if r == root && q in paths then 0 else Lookup(s.memory, r, q)
  {
    FreePagesState(s, g, root, paths, r, q);
    UnmapStepsLookup(FreePages(s, root, paths), FreePagesLedger(s, g, root, paths), root, paths, r, q);
  }

  /** The ledger after vm_free's page work: the frames behind the pages are free, all other roles stay. */
  lemma ReleaseRoles(s: Physical, g: Ledger, root: nat, paths: seq<Path>, f: nat)
    requires CanFreePages(s, g, root, paths) && f in g.roles
    ensures f in ReleaseLedger(s, g, root, paths).roles
    ensures ReleaseLedger(s, g, root, paths).roles[f] == if BehindPaths(g.roles[f], s.memory, root, paths) then Free
                                                         else g.roles[f]
  {
    FreePagesRoles(s, g, root, paths, f);
  }

  // ----- how many frames suffice

  /** Pages of the lower half that are not mapped yet, each named once. */
  ghost predicate FreshPaths(m: Memory, root: nat, paths: seq<Path>) {
    LowerPaths(paths) && DistinctPaths(paths) && forall k :: 0 <= k < |paths| ==> !Present(Lookup(m, root, paths[k]))
  }

  /** One page takes a frame for itself and at most three for tables: four free frames a page are enough. */
  lemma {:induction false} EnoughFrames(s: Physical, g: Ledger, root: nat, paths: seq<Path>, flags: Word)
    requires CleanFlags(flags) && Settled(s, g) && ManagedRoot(g.roles, root) && FreshPaths(s.memory, root, paths)
    requires |g.free| >= 4 * |paths|
    ensures CanAllocPages(s, g, root, paths, flags)
    ensures |AllocPagesLedger(s, g, root, paths, flags).free| >= |g.free| - 4 * |paths|
    decreases |paths|
  {
    hide CanAllocPage, Settled, Lookup;
    if paths != [] {
      EnoughFrames(s, g, root, Front(paths), flags);
      OnePageMore(s, g, root, paths, flags);
      AllocPageTakes(AllocPages(s, root, Front(paths), flags), AllocPagesLedger(s, g, root, Front(paths), flags), root,
                     Last(paths), flags);
    }
  }

  lemma OnePageMore(s: Physical, g: Ledger, root: nat, paths: seq<Path>, flags: Word)
    requires CleanFlags(flags) && paths != [] && ManagedRoot(g.roles, root) && FreshPaths(s.memory, root, paths)
    requires CanAllocPages(s, g, root, Front(paths), flags)
    requires |AllocPagesLedger(s, g, root, Front(paths), flags).free| >= 4
    ensures CanAllocPage(AllocPages(s, root, Front(paths), flags), AllocPagesLedger(s, g, root, Front(paths), flags),
                         root, Last(paths))
  {
    hide Settled, Lookup, CanAllocPages, AllocPages, AllocPagesLedger;
    AllocPagesSettle(s, g, root, Front(paths), flags);
    AllocPagesKeepRoles(s, g, root, Front(paths), flags, root);
    AllocPagesLookup(s, g, root, Front(paths), flags, root, Last(paths));
    assert Last(paths) !in Front(paths);
  }

  // ----- pages whose tables exist

  /** Every page of the range already has its tables. */
  ghost predicate Reached(m: Memory, root: nat, paths: seq<Path>) {
    forall p :: p in paths ==> LeafTable(m, root, 4, p) != 0
  }

  lemma {:induction false} ReachedMissesNothing(m: Memory, t: nat, level: nat, p: Path)
    requires 1 <= level <= 4 && LeafTable(m, t, level, p) != 0
    ensures Missing(m, t, level, p) == 0
    decreases level
  {
    if level > 1 {
      ReachedMissesNothing(m, AddressBits(m[t][p.At(level)]), level - 1, p);
    }
  }

  lemma ReachedPageMore(s: Physical, g: Ledger, root: nat, paths: seq<Path>, flags: Word)
    requires CleanFlags(flags) && paths != [] && ManagedRoot(g.roles, root) && FreshPaths(s.memory, root, paths)
    requires CanAllocPages(s, g, root, Front(paths), flags) && LeafTable(s.memory, root, 4, Last(paths)) != 0
    requires |AllocPagesLedger(s, g, root, Front(paths), flags).free| >= 1
    ensures var t, h := AllocPages(s, root, Front(paths), flags), AllocPagesLedger(s, g, root, Front(paths), flags);
            CanAllocPage(t, h, root, Last(paths)) && Missing(t.memory, root, 4, Last(paths)) == 0
  {
    hide Settled, Lookup, CanAllocPages, AllocPages, AllocPagesLedger, LeafTable;
    AllocPagesSettle(s, g, root, Front(paths), flags);
    AllocPagesKeepRoles(s, g, root, Front(paths), flags, root);
    AllocPagesLookup(s, g, root, Front(paths), flags, root, Last(paths));
    AllocPagesReach(s, g, root, Front(paths), flags, Last(paths));
    ReachedMissesNothing(AllocPages(s, root, Front(paths), flags).memory, root, 4, Last(paths));
    assert Last(paths) !in Front(paths);
  }

  /** Where the tables exist, a page takes exactly one frame. */
  lemma {:induction false} EnoughWhenReached(s: Physical, g: Ledger, root: nat, paths: seq<Path>, flags: Word)
    requires CleanFlags(flags) && Settled(s, g) && ManagedRoot(g.roles, root) && FreshPaths(s.memory, root, paths)
    requires Reached(s.memory, root, paths) && |g.free| >= |paths|
    ensures CanAllocPages(s, g, root, paths, flags)
    ensures |AllocPagesLedger(s, g, root, paths, flags).free| == |g.free| - |paths|
    decreases |paths|
  {
    hide CanAllocPage, Settled, Lookup, LeafTable;
    if paths != [] {
      assert Last(paths) in paths && forall p :: p in Front(paths) ==> p in paths;
      EnoughWhenReached(s, g, root, Front(paths), flags);
      ReachedPageMore(s, g, root, paths, flags);
      AllocPageTakes(AllocPages(s, root, Front(paths), flags), AllocPagesLedger(s, g, root, Front(paths), flags), root,
                     Last(paths), flags);
    }
  }

  /** A present page gives its one frame back. */
  lemma FreePageCount(t: Physical, h: Ledger, root: nat, p: Path)
    requires ReadyToFree(t, h, root, p) && Present(Lookup(t.memory, root, p))
    ensures |FreePageLedger(t, h, root, p).free| == |h.free| + 1
  {
    hide Walk, LeafTable;
    PageHasDataFrame(t, h, root, p);
  }

  /** Freeing mapped pages gives back one frame a page. */
  lemma {:induction false} FreePagesCount(s: Physical, g: Ledger, root: nat, paths: seq<Path>)
    requires CanFreePages(s, g, root, paths) && forall p :: p in paths ==> Present(Lookup(s.memory, root, p))
    ensures |FreePagesLedger(s, g, root, paths).free| == |g.free| + |paths|
  {
    if paths != [] {
      assert Last(paths) in paths && forall p :: p in Front(paths) ==> p in paths;
      FrontCanFree(s, g, root, paths);
      RootIsRoot(s, g, root, paths);
      FreePagesState(s, g, root, Front(paths), root, Last(paths));
      FreePagesReady(s, g, root, paths);
      FreePagesCount(s, g, root, Front(paths));
      hide Inv, Leaves, Walk, LeafTable, CanFreePages, Freeing;
      FreePageCount(FreePages(s, root, Front(paths)), FreePagesLedger(s, g, root, Front(paths)), root, Last(paths));
    }
  }
}
