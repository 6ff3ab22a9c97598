/** Allocating over pages that are mapped: the same as losing their frames first, and so no way to keep them. */
module VmRemaps {
  import opened Lists
  import opened Words
  import opened PageTables
  import opened Mapping
  import opened AddressSpaces
  import opened Ownership
  import opened VmPages
  import opened VmSpaces
  import opened VmAllocation
  import opened VmLaws

  // ----- clearing a leaf slot and mapping other pages commute

  /** The state with one entry of one frame set to 0. */
  function Cleared(s: Physical, x: nat, i: Index): Physical {
    if x in s.memory then s.(memory := Put(s.memory, x, i, 0)) else s
  }

  ghost predicate IsLeaf(g: Ledger, x: nat) {
    IsTable(g.roles, x) && g.roles[x].level == 1
  }

  lemma LeafInMemory(s: Physical, g: Ledger, x: nat)
    requires Inv(s, g) && IsLeaf(g, x)
    ensures x in s.memory && x != 0
  {
  }

  /** Clearing an entry of another frame commutes with hanging a fresh table. */
  lemma GrowElsewhere(s: Physical, t: nat, j: Index, flags: Word, x: nat, i: Index)
    requires t in s.memory && s.pageList in s.memory && x in s.memory && x != s.pageList && x != t
    ensures t in Cleared(s, x, i).memory && s.pageList in Cleared(s, x, i).memory
    ensures Grow(Cleared(s, x, i), t, j, flags) == Cleared(Grow(s, t, j, flags), x, i)
  {
  }

  /** A leaf table is neither the head of the free list nor the table that grows. */
  lemma LeafIsElsewhere(s: Physical, g: Ledger, t: nat, j: Index, x: nat)
    requires CanGrow(s, g, t, j) && IsLeaf(g, x)
    ensures t in s.memory && x in s.memory && x != s.pageList && x != t
    ensures IsLeaf(GrowLedger(s, g, t, j), x)
  {
    hide TreeUp;
    HeadIsFree(s, g);
    LeafInMemory(s, g, x);
  }

  lemma GrowCommutes(s: Physical, g: Ledger, t: nat, j: Index, flags: Word, x: nat, i: Index)
    requires CanGrow(s, g, t, j) && IsLeaf(g, x) && s.pageList in s.memory
    ensures x != s.pageList && t in Cleared(s, x, i).memory && s.pageList in Cleared(s, x, i).memory
    ensures Grow(Cleared(s, x, i), t, j, flags) == Cleared(Grow(s, t, j, flags), x, i)
    ensures IsLeaf(GrowLedger(s, g, t, j), x)
  {
    hide Inv, IsLeaf, GrowLedger, Grow, Cleared;
    LeafIsElsewhere(s, g, t, j, x);
    GrowElsewhere(s, t, j, flags, x, i);
  }

  lemma MapFromDown(s: Physical, t: nat, level: nat, p: Path, paddr: Word, flags: Word)
    requires 1 < level <= 4 && CleanFlags(flags) && t in s.memory && Present(s.memory[t][p.At(level)])
    ensures MapFrom(s, t, level, p, paddr, flags)
              == MapFrom(s, AddressBits(s.memory[t][p.At(level)]), level - 1, p, paddr, flags)
    ensures LeafTable(s.memory, t, level, p) == LeafTable(s.memory, AddressBits(s.memory[t][p.At(level)]), level - 1, p)
  {
  }

  lemma MapFromGrows(s: Physical, t: nat, level: nat, p: Path, paddr: Word, flags: Word)
    requires 1 < level <= 4 && CleanFlags(flags) && t in s.memory && s.pageList in s.memory
             && !Present(s.memory[t][p.At(level)])
    requires AddressBits(Grow(s, t, p.At(level), flags).memory[t][p.At(level)]) == s.pageList
    ensures MapFrom(s, t, level, p, paddr, flags)
              == MapFrom(Grow(s, t, p.At(level), flags), s.pageList, level - 1, p, paddr, flags)
  {
  }

  /** The frame that is cleared is none of the inner tables on the way. */
  lemma ClearedKeeps(s: Physical, g: Ledger, x: nat, i: Index, t: nat)
    requires Inv(s, g) && IsLeaf(g, x) && t in s.memory && t != x
    ensures t in Cleared(s, x, i).memory && Cleared(s, x, i).memory[t] == s.memory[t]
            && Cleared(s, x, i).pageList == s.pageList
  {
  }

  lemma MapLeafCommutes(s: Physical, t: nat, p: Path, paddr: Word, flags: Word, x: nat, i: Index)
    requires CleanFlags(flags) && t in s.memory && x in s.memory
    ensures t != x || i != p.l1 ==>
              MapFrom(Cleared(s, x, i), t, 1, p, paddr, flags) == Cleared(MapFrom(s, t, 1, p, paddr, flags), x, i)
    ensures t == x && i == p.l1 ==>
              MapFrom(Cleared(s, x, i), t, 1, p, paddr, flags) == MapFrom(s, t, 1, p, paddr, flags)
  {
    var e := LeafEntry(paddr, flags);
    if t == x {
      assert s.memory[t][i := 0][p.l1 := e] == if i == p.l1 then s.memory[t][p.l1 := e]
                                               else s.memory[t][p.l1 := e][i := 0];
    }
  }

  lemma LevelOfTable(s: Physical, g: Ledger, t: nat, level: nat, p: Path)
    requires CanMap(s, g, t, level, p)
    ensures t in s.memory && Inv(s, g) && (level > 1 ==> !IsLeaf(g, t)) && 1 <= level <= 4
  {
  }

  /** map_page below another slot. */
  lemma {:induction false} MapFromCommutes(s: Physical, g: Ledger, t: nat, level: nat, p: Path, paddr: Word,
                                           flags: Word, x: nat, i: Index)
    requires CanMap(s, g, t, level, p) && CleanFlags(flags) && IsLeaf(g, x)
    requires LeafTable(s.memory, t, level, p) != x || i != p.l1
    ensures MapFrom(Cleared(s, x, i), t, level, p, paddr, flags) == Cleared(MapFrom(s, t, level, p, paddr, flags), x, i)
    decreases level
  {
    hide Inv, CanMap, MapFrom, Grow, GrowLedger, Cleared, IsLeaf, LeafTable;
    LevelOfTable(s, g, t, level, p);
    LeafInMemory(s, g, x);
    if level == 1 {
      LeafAtOne(s.memory, t, p);
      MapLeafCommutes(s, t, p, paddr, flags, x, i);
    } else {
      ClearedKeeps(s, g, x, i, t);
      MapStep(s, g, t, level, p, flags);
      if Present(s.memory[t][p.At(level)]) {
        MapFromDown(s, t, level, p, paddr, flags);
        MapFromDown(Cleared(s, x, i), t, level, p, paddr, flags);
        MapFromCommutes(s, g, AddressBits(s.memory[t][p.At(level)]), level - 1, p, paddr, flags, x, i);
      } else {
        MapNewCommutes(s, g, t, level, p, paddr, flags, x, i);
      }
    }
  }

  lemma LeafAtOne(m: Memory, t: nat, p: Path)
    ensures LeafTable(m, t, 1, p) == t
  {
  }

  lemma {:induction false} MapNewCommutes(s: Physical, g: Ledger, t: nat, level: nat, p: Path, paddr: Word, flags: Word,
                                          x: nat, i: Index)
    requires CanMap(s, g, t, level, p) && CleanFlags(flags) && IsLeaf(g, x) && level > 1
    requires t in s.memory && !Present(s.memory[t][p.At(level)])
    ensures MapFrom(Cleared(s, x, i), t, level, p, paddr, flags) == Cleared(MapFrom(s, t, level, p, paddr, flags), x, i)
    decreases level, 0
  {
    hide Inv, CanMap, MapFrom, Grow, GrowLedger, Cleared, IsLeaf, LeafTable;
    LevelOfTable(s, g, t, level, p);
    LeafInMemory(s, g, x);
    MapStep(s, g, t, level, p, flags);
    var j := p.At(level);
    GrowFacts(s, g, t, j, flags);
    GrowCommutes(s, g, t, j, flags, x, i);
    ClearedKeeps(s, g, x, i, t);
    var grown, ledger := Grow(s, t, j, flags), GrowLedger(s, g, t, j);
    FreshTableReadsZero(grown.memory, s.pageList, level - 1, p);
    MapFromGrows(s, t, level, p, paddr, flags);
    LevelOfTable(grown, ledger, s.pageList, level - 1, p);
    ClearedKeeps(grown, ledger, x, i, t);
    MapFromGrows(Cleared(s, x, i), t, level, p, paddr, flags);
    MapFromCommutes(grown, ledger, s.pageList, level - 1, p, paddr, flags, x, i);
  }

  /** map_page writes over whatever its slot holds. */
  lemma {:induction false} MapFromOverwrites(s: Physical, g: Ledger, t: nat, level: nat, p: Path, paddr: Word,
                                             flags: Word, x: nat)
    requires CanMap(s, g, t, level, p) && CleanFlags(flags) && LeafTable(s.memory, t, level, p) == x && IsLeaf(g, x)
    ensures MapFrom(Cleared(s, x, p.l1), t, level, p, paddr, flags) == MapFrom(s, t, level, p, paddr, flags)
    decreases level
  {
    hide Inv, CanMap, MapFrom, Cleared, IsLeaf, LeafTable;
    LevelOfTable(s, g, t, level, p);
    LeafInMemory(s, g, x);
    if level == 1 {
      LeafAtOne(s.memory, t, p);
      MapLeafCommutes(s, t, p, paddr, flags, x, p.l1);
    } else {
      ClearedKeeps(s, g, x, p.l1, t);
      MapStep(s, g, t, level, p, flags);
      LeafNeedsEntry(s.memory, t, level, p);
      MapFromDown(s, t, level, p, paddr, flags);
      MapFromDown(Cleared(s, x, p.l1), t, level, p, paddr, flags);
      MapFromOverwrites(s, g, AddressBits(s.memory[t][p.At(level)]), level - 1, p, paddr, flags, x);
    }
  }

  lemma LeafNeedsEntry(m: Memory, t: nat, level: nat, p: Path)
    requires 1 < level <= 4 && t in m && LeafTable(m, t, level, p) != 0
    ensures Present(m[t][p.At(level)])
  {
  }

  // ----- one page

  lemma UnmapIsCleared(s: Physical, g: Ledger, root: nat, p: Path)
    requires Inv(s, g) && IsRoot(g.roles, root)
    ensures var x := LeafTable(s.memory, root, 4, p);
            && UnmapPage(s, root, p) == (if x == 0 then s else Cleared(s, x, p.l1))
            && (x != 0 ==> IsLeaf(g, x))
  {
    hide TreeUp, FreeList, LeafTable;
    UnmapIsLeafWrite(s.memory, g.roles, root, 4, p);
    LeafTableIsTable(s.memory, g.roles, root, 4, p);
  }

  /** Clearing a slot does not touch the free list. */
  lemma PopCleared(s: Physical, g: Ledger, x: nat, i: Index)
    requires Inv(s, g) && g.free != [] && IsLeaf(g, x) && s.pageList in s.memory
    ensures s.pageList in Cleared(s, x, i).memory && Cleared(s, x, i).pageList == s.pageList
    ensures Pop(Cleared(s, x, i)) == Cleared(Pop(s), x, i) && IsLeaf(PopLedger(s, g), x)
  {
    HeadIsFree(s, g);
    LeafInMemory(s, g, x);
  }

  /** Allocating a page over its own entry overwrites it. */
  lemma AllocPageOverwrites(s: Physical, g: Ledger, root: nat, p: Path, flags: Word)
    requires Settled(s, g) && ManagedRoot(g.roles, root) && g.free != [] && CleanFlags(flags)
    ensures AllocPage(UnmapPage(s, root, p), root, p, flags) == AllocPage(s, root, p, flags)
  {
    hide Inv, Leaves, LeafTable, Cleared, Missing, MapFrom, CanMap, IsLeaf, UnmapPage;
    UnmapIsCleared(s, g, root, p);
    var x := LeafTable(s.memory, root, 4, p);
    if x != 0 {
      ReachedMissesNothing(s.memory, root, 4, p);
      HeadIsFree(s, g);
      PopKeepsWalks(s, g, root, p);
      PopCleared(s, g, x, p.l1);
      MapFromOverwrites(Pop(s), PopLedger(s, g), root, 4, p, s.pageList, flags, x);
    }
  }

  /** Different pages of a root have different slots. */
  lemma OtherSlot(s: Physical, g: Ledger, root: nat, p: Path, q: Path)
    requires Inv(s, g) && IsRoot(g.roles, root) && p != q && LeafTable(s.memory, root, 4, q) != 0
    ensures LeafTable(s.memory, root, 4, p) != LeafTable(s.memory, root, 4, q) || q.l1 != p.l1
  {
    hide TreeUp, FreeList, LeafTable;
    SlotsAreDistinct(s.memory, g.roles, root, q, p);
  }

  /** A page that was absent before its leaf table was made reads 0 in it. */
  lemma FreshSlotIsZero(s: Physical, g: Ledger, root: nat, p: Path, flags: Word, q: Path)
    requires CanAllocPage(s, g, root, p) && CleanFlags(flags) && p != q && LeafTable(s.memory, root, 4, q) == 0
    ensures UnmapPage(AllocPage(s, root, p, flags), root, q) == AllocPage(s, root, p, flags)
  {
    hide Inv, Leaves, LeafTable, Walk, AllocPage, AllocPageLedger, CanAllocPage, UnmapPage;
    SettledRoot(s, g, root, p);
    LeafTableZero(s, g, root, q);
    AllocPageSettles(s, g, root, p, flags);
    AllocPageRoles(s, g, root, p, flags, root);
    AllocPageLookup(s, g, root, p, flags, root, q);
    ZeroStays(AllocPage(s, root, p, flags), AllocPageLedger(s, g, root, p, flags), root, q);
  }

  lemma SettledRoot(s: Physical, g: Ledger, root: nat, p: Path)
    requires CanAllocPage(s, g, root, p)
    ensures Settled(s, g) && IsRoot(g.roles, root) && g.roles[root] != Free && g.free != []
  {
  }

  lemma LeafTableZero(s: Physical, g: Ledger, root: nat, q: Path)
    requires Settled(s, g) && IsRoot(g.roles, root)
    ensures LeafTable(s.memory, root, 4, q) == 0 ==> Lookup(s.memory, root, q) == 0
  {
    hide TreeUp, FreeList, Leaves, LeafTable, Walk, Missing;
    LeafTableIsTable(s.memory, g.roles, root, 4, q);
  }

  lemma ZeroStays(t: Physical, h: Ledger, root: nat, q: Path)
    requires Settled(t, h) && IsRoot(h.roles, root) && Lookup(t.memory, root, q) == 0
    ensures UnmapPage(t, root, q) == t
  {
    hide TreeUp, FreeList, Leaves, LeafTable, Missing, UnmapPage;
    UnmapIsCleared(t, h, root, q);
    LeafTableIsTable(t.memory, h.roles, root, 4, q);
    var x := LeafTable(t.memory, root, 4, q);
    if x != 0 {
      assert t.memory[x][q.l1 := 0] == t.memory[x];
      assert t.memory[x := t.memory[x]] == t.memory;
    }
  }

  /** Unmapping one page and allocating another commute. */
  lemma AllocPageCommutes(s: Physical, g: Ledger, root: nat, p: Path, flags: Word, q: Path)
    requires CanAllocPage(s, g, root, p) && CleanFlags(flags) && p != q
    ensures AllocPage(UnmapPage(s, root, q), root, p, flags) == UnmapPage(AllocPage(s, root, p, flags), root, q)
  {
    hide Inv, Leaves, LeafTable, Cleared, Missing, MapFrom, CanMap, IsLeaf, UnmapPage;
    SettledRoot(s, g, root, p);
    UnmapIsCleared(s, g, root, q);
    var x := LeafTable(s.memory, root, 4, q);
    if x == 0 {
      FreshSlotIsZero(s, g, root, p, flags, q);
    } else {
      OtherSlot(s, g, root, p, q);
      PopCanMap(s, g, root, p);
      PopCleared(s, g, x, q.l1);
      MapFromCommutes(Pop(s), PopLedger(s, g), root, 4, p, s.pageList, flags, x, q.l1);
      AllocPageSettles(s, g, root, p, flags);
      AllocPageRoles(s, g, root, p, flags, root);
      AllocPageKeepsLeafTable(s, g, root, p, flags, q);
      UnmapIsCleared(AllocPage(s, root, p, flags), AllocPageLedger(s, g, root, p, flags), root, q);
    }
  }

  lemma {:induction false} AllocPagesCommute(s: Physical, g: Ledger, root: nat, paths: seq<Path>, flags: Word, q: Path)
    requires CleanFlags(flags) && CanAllocPages(s, g, root, paths, flags) && q !in paths
    ensures AllocPages(UnmapPage(s, root, q), root, paths, flags)
              == UnmapPage(AllocPages(s, root, paths, flags), root, q)
  {
    hide CanAllocPage, Settled, UnmapPage;
    if paths != [] {
      assert Last(paths) in paths && forall p :: p in Front(paths) ==> p in paths;
      AllocPagesCommute(s, g, root, Front(paths), flags, q);
      AllocPageCommutes(AllocPages(s, root, Front(paths), flags), AllocPagesLedger(s, g, root, Front(paths), flags),
                        root, Last(paths), flags, q);
    }
  }

  // ----- losing frames

  /** The page is unmapped and its frame belongs to nobody any more. */
  function LoseLedger(s: Physical, g: Ledger, root: nat, p: Path): Ledger {
    var f := AddressBits(Lookup(s.memory, root, p));
    if Present(Lookup(s.memory, root, p)) && f in g.roles then g.(roles := g.roles[f := Other]) else g
  }

  lemma LoseLeaves(s: Physical, g: Ledger, root: nat, p: Path)
    requires Settled(s, g) && ManagedRoot(g.roles, root) && p.l4 < 256 && Present(Lookup(s.memory, root, p))
    ensures Leaves(s.memory, LoseLedger(s, g, root, p).(limbo := {SlotOf(s.memory, root, p)}))
  {
    hide TreeDown, TreeUp, FreeList, Walk, LeafTable;
    PageHasDataFrame(s, g, root, p);
    var f, h := AddressBits(Lookup(s.memory, root, p)),
                LoseLedger(s, g, root, p).(limbo := {SlotOf(s.memory, root, p)});
    forall d | d in h.roles && h.roles[d].Data?
      ensures IsManagedLeaf(h.roles, h.roles[d].table) && (h.roles[d].table, h.roles[d].slot) !in h.limbo
           && Points(s.memory, h.roles[d].table, h.roles[d].slot, d)
    {
      assert d != f && Points(s.memory, g.roles[d].table, g.roles[d].slot, d);
      DataFrameIsUnique(s.memory, g, f, d);
    }
  }

  lemma LoseSettles(s: Physical, g: Ledger, root: nat, p: Path)
    requires Settled(s, g) && ManagedRoot(g.roles, root) && p.l4 < 256
    ensures Settled(UnmapPage(s, root, p), LoseLedger(s, g, root, p)) && LoseLedger(s, g, root, p).free == g.free
    ensures ManagedRoot(LoseLedger(s, g, root, p).roles, root)
  {
    hide TreeDown, TreeUp, FreeList, Leaves, LeafTable, Walk, Cleared, UnmapPage, FrameAddresses;
    var h := LoseLedger(s, g, root, p);
    var x := LeafTable(s.memory, root, 4, p);
    UnmapIsCleared(s, g, root, p);
    if Present(Lookup(s.memory, root, p)) {
      PageHasDataFrame(s, g, root, p);
      RetagKeepsInv(s, g, AddressBits(Lookup(s.memory, root, p)), Other);
      LoseLeaves(s, g, root, p);
      UnmapKeepsInv(s, h, root, p);
      LeafInMemory(s, g, x);
      ClearOwnSlot(s, h, x, p.l1, {(x, p.l1)});
    } else {
      UnmapKeepsInv(s, g, root, p);
      AbsentSlot(s, g, root, p);
      if x != 0 {
        ClearOwnSlot(s, g, x, p.l1, {});
      }
    }
  }

  lemma AbsentSlot(s: Physical, g: Ledger, root: nat, p: Path)
    requires Inv(s, g) && IsRoot(g.roles, root)
    ensures var x := LeafTable(s.memory, root, 4, p);
            x != 0 ==> x in s.memory && s.memory[x][p.l1] == Lookup(s.memory, root, p)
  {
    hide TreeUp, FreeList, LeafTable, Missing;
    LeafTableIsTable(s.memory, g.roles, root, 4, p);
  }

  lemma ClearOwnSlot(s: Physical, h: Ledger, x: nat, i: Index, limbo: set<Slot>)
    requires Inv(s, h) && h.limbo == {} && IsLeaf(h, x) && x in s.memory && Leaves(s.memory, h.(limbo := limbo))
    requires limbo == {(x, i)} || (limbo == {} && !Present(s.memory[x][i]))
    ensures Leaves(Cleared(s, x, i).memory, h)
  {
    hide Inv, Leaves;
    ClearKeepsLeaves(s.memory, h.(limbo := limbo), x, i);
    assert h.(limbo := limbo - {(x, i)}) == h;
  }

  lemma LoseRole(s: Physical, g: Ledger, root: nat, p: Path, f: nat)
    requires Settled(s, g) && ManagedRoot(g.roles, root) && p.l4 < 256 && f in g.roles
    ensures f in LoseLedger(s, g, root, p).roles
    ensures LoseLedger(s, g, root, p).roles[f] ==
            if Present(Lookup(s.memory, root, p)) && g.roles[f] == Data(LeafTable(s.memory, root, 4, p), p.l1)
            then Other else g.roles[f]
  {
    hide TreeDown, TreeUp, FreeList, LeafTable, Walk;
    if Present(Lookup(s.memory, root, p)) {
      PageHasDataFrame(s, g, root, p);
      DataFrameIsUnique(s.memory, g, AddressBits(Lookup(s.memory, root, p)), f);
    }
  }

  // ----- a range

  /** The frames behind the mapped pages of the list belong to nobody any more. */
  function LostLedger(s: Physical, g: Ledger, root: nat, paths: seq<Path>): Ledger {
    if paths == [] then g
    else LoseLedger(UnmapSteps(s, root, Front(paths)), LostLedger(s, g, root, Front(paths)), root, Last(paths))
  }

  ghost predicate CanLose(s: Physical, g: Ledger, root: nat, paths: seq<Path>) {
    Settled(s, g) && ManagedRoot(g.roles, root) && DistinctPaths(paths) && LowerPaths(paths)
  }

  lemma FrontCanLose(s: Physical, g: Ledger, root: nat, paths: seq<Path>)
    requires CanLose(s, g, root, paths) && paths != []
    ensures CanLose(s, g, root, Front(paths)) && Last(paths).l4 < 256 && Last(paths) !in Front(paths)
  {
    hide Settled;
  }

  lemma {:induction false} LosingSettles(s: Physical, g: Ledger, root: nat, paths: seq<Path>)
    requires CanLose(s, g, root, paths)
    ensures Settled(UnmapSteps(s, root, paths), LostLedger(s, g, root, paths))
    ensures ManagedRoot(LostLedger(s, g, root, paths).roles, root) && LostLedger(s, g, root, paths).free == g.free
  {
    hide Settled, LoseLedger, UnmapPage;
    if paths != [] {
      FrontCanLose(s, g, root, paths);
      LosingSettles(s, g, root, Front(paths));
      LoseSettles(UnmapSteps(s, root, Front(paths)), LostLedger(s, g, root, Front(paths)), root, Last(paths));
    }
  }

  lemma LosingWalks(s: Physical, g: Ledger, root: nat, paths: seq<Path>, q: Path)
    requires CanLose(s, g, root, paths)
    ensures var n := UnmapSteps(s, root, paths).memory;
            && Lookup(n, root, q) == (if q in paths then 0 else Lookup(s.memory, root, q))
            && LeafTable(n, root, 4, q) == LeafTable(s.memory, root, 4, q)
  {
    hide Inv, Leaves, Lookup, LeafTable, UnmapSteps;
    UnmapStepsLookup(s, g, root, paths, root, q);
    UnmapKeepsLeafTables(s, g, root, paths, q);
  }

  /** Exactly the frames behind the mapped pages are lost. */
  lemma {:induction false} LosingRoles(s: Physical, g: Ledger, root: nat, paths: seq<Path>, f: nat)
    requires CanLose(s, g, root, paths) && f in g.roles
    ensures f in LostLedger(s, g, root, paths).roles
    ensures LostLedger(s, g, root, paths).roles[f] == if BehindPaths(g.roles[f], s.memory, root, paths) then Other
                                                      else g.roles[f]
  {
    hide Settled, LoseLedger, UnmapPage, Lookup, LeafTable;
    if paths != [] {
      FrontCanLose(s, g, root, paths);
      LosingRoles(s, g, root, Front(paths), f);
      LosingSettles(s, g, root, Front(paths));
      LosingWalks(s, g, root, Front(paths), Last(paths));
      LoseRole(UnmapSteps(s, root, Front(paths)), LostLedger(s, g, root, Front(paths)), root, Last(paths), f);
      SlotsOfFront(s.memory, root, paths);
    }
  }

  /** Once the mapped pages are lost the range is absent, and four frames a page suffice. */
  lemma LostRangeCanBeAllocated(s: Physical, g: Ledger, root: nat, paths: seq<Path>, flags: Word)
    requires CanLose(s, g, root, paths) && CleanFlags(flags) && |g.free| >= 4 * |paths|
    ensures var t, h := UnmapSteps(s, root, paths), LostLedger(s, g, root, paths);
            CanAllocPages(t, h, root, paths, flags)
            && |AllocPagesLedger(t, h, root, paths, flags).free| >= |g.free| - 4 * |paths|
  {
    hide Settled, Lookup, UnmapSteps, LostLedger, CanAllocPages;
    LosingSettles(s, g, root, paths);
    forall k | 0 <= k < |paths| ensures !Present(Lookup(UnmapSteps(s, root, paths).memory, root, paths[k])) {
      LosingWalks(s, g, root, paths, paths[k]);
    }
    EnoughFrames(UnmapSteps(s, root, paths), LostLedger(s, g, root, paths), root, paths, flags);
  }

  /** The loop of vm_alloc on any range does what it does once the mapped pages are unmapped and their frames lost. */
  lemma {:induction false} AllocOverIsLoseThenAlloc(s: Physical, g: Ledger, root: nat, paths: seq<Path>, flags: Word)
    requires CanLose(s, g, root, paths) && CleanFlags(flags) && |g.free| >= 4 * |paths|
    ensures AllocPages(UnmapSteps(s, root, paths), root, paths, flags) == AllocPages(s, root, paths, flags)
    decreases |paths|
  {
    hide Settled, UnmapPage, AllocPage, LostLedger, CanAllocPages, ManagedRoot, LowerPaths, DistinctPaths;
    if paths != [] {
      var front, last := Front(paths), Last(paths);
      FrontCanLose(s, g, root, paths);
      AllocOverIsLoseThenAlloc(s, g, root, front, flags);
      LostRangeCanBeAllocated(s, g, root, front, flags);
      var u, h := UnmapSteps(s, root, front), LostLedger(s, g, root, front);
      AllocPagesCommute(u, h, root, front, flags, last);
      AllocPagesSettle(u, h, root, front, flags);
      LosingSettles(s, g, root, front);
      RootStaysManaged(u, h, root, front, flags);
      AllocPageOverwrites(AllocPages(u, root, front, flags), AllocPagesLedger(u, h, root, front, flags), root, last,
                          flags);
    }
  }

  lemma RootStaysManaged(s: Physical, g: Ledger, root: nat, paths: seq<Path>, flags: Word)
    requires CleanFlags(flags) && CanAllocPages(s, g, root, paths, flags) && ManagedRoot(g.roles, root)
    ensures ManagedRoot(AllocPagesLedger(s, g, root, paths, flags).roles, root)
  {
    hide CanAllocPages;
    AllocPagesKeepRoles(s, g, root, paths, flags, root);
  }

  // ----- vm_alloc_at on any range

  /** The account after vm_alloc_at on a range of which some pages may be mapped. */
  function RemapLedger(s: Physical, g: Ledger, space: nat, base: Word, pages: nat, flags: Word): Ledger
    requires CleanFlags(flags)
  {
    var root, paths := RootOf(s.memory, space), RangePaths(base, pages);
    var t, h := UnmapSteps(s, root, paths), LostLedger(s, g, root, paths);
    var last := AllocPagesLedger(t, h, root, paths, flags);
    if last.free == [] then last else TagLedger(AllocPages(t, root, paths, flags), last, RegionRecord(space))
  }

  /** What vm_alloc_at asks for when it does not ask for an absent range. */
  ghost predicate CanAllocOver(s: Physical, g: Ledger, spaces: Spaces, space: nat, base: Word, pages: nat,
                               flags: Word) {
    && VmInv(s, g, spaces) && space in spaces && CleanFlags(flags) && LowerRange(base, pages) && pages > 0
    && |g.free| > 4 * pages
  }

  lemma RangeCanBeLost(s: Physical, g: Ledger, spaces: Spaces, space: nat, base: Word, pages: nat, flags: Word)
    requires CanAllocOver(s, g, spaces, space, base, pages, flags)
    ensures CanLose(s, g, RootOf(s.memory, space), RangePaths(base, pages))
  {
    hide VmInv, RangePaths, Settled, SpaceOk;
    SpaceFacts(s, g, spaces, space);
    SettledNow(s, g, spaces);
    LowerRangePaths(base, pages);
    OwnRoot(s, g, spaces, space);
  }

  lemma OwnRoot(s: Physical, g: Ledger, spaces: Spaces, space: nat)
    requires VmInv(s, g, spaces) && space in spaces
    ensures ManagedRoot(g.roles, RootOf(s.memory, space)) && space in g.roles && g.roles[space] == SpaceRecord
  {
    SpaceFacts(s, g, spaces, space);
  }

  /** The frames behind the mapped pages of the range have no owner afterwards; all else is in order. */
  lemma AllocOverSettles(s: Physical, g: Ledger, spaces: Spaces, space: nat, base: Word, pages: nat, flags: Word)
    requires CanAllocOver(s, g, spaces, space, base, pages, flags)
    ensures Settled(AllocRegion(s, space, base, pages, flags), RemapLedger(s, g, space, base, pages, flags))
    ensures var last := AllocPages(s, RootOf(s.memory, space), RangePaths(base, pages), flags);
            && last.pageList in g.roles && g.roles[last.pageList] == Free && last.pageList in last.memory
            && space in last.memory
            && AllocRegion(s, space, base, pages, flags) == NewRegion(last, space, base, pages * PAGE_SIZE)
  {
    hide VmInv, RangePaths, Settled, CanAllocPages, LostLedger, UnmapSteps, AllocPages, AllocPagesLedger, NewRegion,
         CanLose;
    var root, paths := RootOf(s.memory, space), RangePaths(base, pages);
    var u, h := UnmapSteps(s, root, paths), LostLedger(s, g, root, paths);
    RangeCanBeLost(s, g, spaces, space, base, pages, flags);
    AllocOverIsLoseThenAlloc(s, g, root, paths, flags);
    LostRangeCanBeAllocated(s, g, root, paths, flags);
    AllocPagesSettle(u, h, root, paths, flags);
    OwnRoot(s, g, spaces, space);
    LosingRoles(s, g, root, paths, space);
    AllocPagesKeepRoles(u, h, root, paths, flags, space);
    var last, tagged := AllocPages(u, root, paths, flags), AllocPagesLedger(u, h, root, paths, flags);
    NewRegionSettles(last, tagged, space, base, pages * PAGE_SIZE);
    AllocPagesOnlyUseFree(u, h, root, paths, flags, last.pageList);
    LostWasData(s, g, root, paths, last.pageList);
  }

  /** A frame that is free after the losing was free before. */
  lemma LostWasData(s: Physical, g: Ledger, root: nat, paths: seq<Path>, f: nat)
    requires CanLose(s, g, root, paths) && f in LostLedger(s, g, root, paths).roles
             && LostLedger(s, g, root, paths).roles[f] == Free
    ensures f in g.roles && g.roles[f] == Free
  {
    hide Settled;
    LostDomain(s, g, root, paths);
    LosingRoles(s, g, root, paths, f);
  }

  lemma {:induction false} LostDomain(s: Physical, g: Ledger, root: nat, paths: seq<Path>)
    ensures LostLedger(s, g, root, paths).roles.Keys == g.roles.Keys
  {
    hide UnmapPage, Lookup;
    if paths != [] {
      LostDomain(s, g, root, Front(paths));
    }
  }

  /** Frames in use keep their role, unless they are behind a mapped page of the range. */
  lemma RemapRoles(s: Physical, g: Ledger, spaces: Spaces, space: nat, base: Word, pages: nat, flags: Word, f: nat)
    requires CanAllocOver(s, g, spaces, space, base, pages, flags) && f in g.roles && g.roles[f] != Free
    ensures f in RemapLedger(s, g, space, base, pages, flags).roles
    ensures RemapLedger(s, g, space, base, pages, flags).roles[f] ==
            if BehindPaths(g.roles[f], s.memory, RootOf(s.memory, space), RangePaths(base, pages)) then Other
            else g.roles[f]
  {
    hide VmInv, RangePaths, Settled, CanAllocPages, LostLedger, UnmapSteps, AllocPages, AllocPagesLedger, CanLose,
         BehindPaths;
    var root, paths := RootOf(s.memory, space), RangePaths(base, pages);
    RangeCanBeLost(s, g, spaces, space, base, pages, flags);
    LosingRoles(s, g, root, paths, f);
    LostRangeCanBeAllocated(s, g, root, paths, flags);
    AllocPagesKeepRoles(UnmapSteps(s, root, paths), LostLedger(s, g, root, paths), root, paths, flags, f);
    AllocOverSettles(s, g, spaces, space, base, pages, flags);
    AllocOverIsLoseThenAlloc(s, g, root, paths, flags);
  }

  // ----- exactly when no frame is lost

  /** The frame is met when the free list is followed from its head. */
  ghost predicate OnFreeList(s: Physical, f: nat) {
    exists free :: s.pageList == Head(free) && Linked(s.memory, free) && f in free
  }

  /** The frame can be reached from somewhere: it is free, a page table, behind a page, or a record. */
  ghost predicate InUse(s: Physical, kernelRoots: set<nat>, spaces: Spaces, f: nat) {
    OnFreeList(s, f) || IsPageTable(s.memory, kernelRoots, spaces, f) || IsMapped(s.memory, spaces, f) || f in spaces
    || IsListed(spaces, f)
  }

  /** A linked list is determined by its head. */
  lemma {:induction false} LinkedIsUnique(m: Memory, a: seq<nat>, b: seq<nat>)
    requires 0 !in m && Linked(m, a) && Linked(m, b) && Head(a) == Head(b)
    ensures a == b
    decreases |a|
  {
    HeadTells(m, a);
    HeadTells(m, b);
    if a != [] {
      LinkedTail(m, a);
      LinkedTail(m, b);
      LinkedIsUnique(m, a[1..], b[1..]);
    }
  }

  lemma HeadTells(m: Memory, free: seq<nat>)
    requires 0 !in m && Linked(m, free)
    ensures Head(free) == 0 <==> free == []
    ensures free != [] ==> free[0] in m && m[free[0]][0] == Head(free[1..])
  {
  }

  lemma LinkedTail(m: Memory, free: seq<nat>)
    requires Linked(m, free) && free != []
    ensures Linked(m, free[1..])
  {
    forall k | 0 <= k < |free[1..]| ensures free[1..][k] in m && m[free[1..][k]][0] == Head(free[1..][k + 1..]) {
      assert free[1..][k] == free[k + 1] && free[1..][k + 1..] == free[k + 1 + 1..];
    }
  }

  lemma OtherIsNotFree(t: Physical, h: Ledger, f: nat)
    requires Inv(t, h) && f in h.roles && h.roles[f] != Free
    ensures !OnFreeList(t, f)
  {
    hide TreeDown, TreeUp;
    forall free | t.pageList == Head(free) && Linked(t.memory, free) ensures f !in free {
      LinkedIsUnique(t.memory, free, h.free);
    }
  }

  lemma {:induction false} UnmapStepsKeepRecord(s: Physical, g: Ledger, root: nat, paths: seq<Path>, f: nat)
    requires Inv(s, g) && IsRoot(g.roles, root) && f in g.roles && !g.roles[f].Table?
    ensures f in s.memory && f in UnmapSteps(s, root, paths).memory
            && UnmapSteps(s, root, paths).memory[f] == s.memory[f]
  {
    hide TreeUp, FreeList, LeafTable, UnmapPage;
    if paths != [] {
      UnmapStepsKeepRecord(s, g, root, Front(paths), f);
      UnmapStepsKeepInv(s, g, root, Front(paths));
      UnmapIsCleared(UnmapSteps(s, root, Front(paths)), g, root, Last(paths));
    }
  }

  /** The records still name the same roots. */
  lemma RemapKeepsRoots(s: Physical, g: Ledger, spaces: Spaces, space: nat, base: Word, pages: nat, flags: Word,
                        sp: nat)
    requires CanAllocOver(s, g, spaces, space, base, pages, flags) && sp in spaces
    ensures RootOf(AllocRegion(s, space, base, pages, flags).memory, sp) == RootOf(s.memory, sp)
    ensures ManagedRoot(RemapLedger(s, g, space, base, pages, flags).roles, RootOf(s.memory, sp))
  {
    hide VmInv, RangePaths, Settled, CanAllocPages, LostLedger, UnmapSteps, AllocPages, AllocPagesLedger, CanLose,
         BehindPaths;
    var root, paths := RootOf(s.memory, space), RangePaths(base, pages);
    var u, h := UnmapSteps(s, root, paths), LostLedger(s, g, root, paths);
    OwnRoot(s, g, spaces, sp);
    OwnRoot(s, g, spaces, space);
    RangeCanBeLost(s, g, spaces, space, base, pages, flags);
    RemapRoles(s, g, spaces, space, base, pages, flags, RootOf(s.memory, sp));
    TableIsNotBehind(g.roles[RootOf(s.memory, sp)], s.memory, root, paths);
    AllocOverSettles(s, g, spaces, space, base, pages, flags);
    AllocOverIsLoseThenAlloc(s, g, root, paths, flags);
    LostRangeCanBeAllocated(s, g, root, paths, flags);
    SettledInvNow(s, g, root, paths);
    UnmapStepsKeepRecord(s, g, root, paths, sp);
    LosingRoles(s, g, root, paths, sp);
    TableIsNotBehind(g.roles[sp], s.memory, root, paths);
    AllocPagesKeepOthers(u, h, root, paths, flags, sp);
  }

  lemma TableIsNotBehind(role: Role, m: Memory, root: nat, paths: seq<Path>)
    requires !role.Data?
    ensures !BehindPaths(role, m, root, paths)
  {
  }

  lemma SettledInvNow(s: Physical, g: Ledger, root: nat, paths: seq<Path>)
    requires CanLose(s, g, root, paths)
    ensures Inv(s, g)
  {
  }

  /** A frame without an owner is behind no page, no page table and no record. */
  lemma OtherIsNotInUse(s: Physical, g: Ledger, spaces: Spaces, space: nat, base: Word, pages: nat, flags: Word, f: nat)
    requires CanAllocOver(s, g, spaces, space, base, pages, flags) && f in g.roles && g.roles[f].Data?
    requires f in RemapLedger(s, g, space, base, pages, flags).roles
             && RemapLedger(s, g, space, base, pages, flags).roles[f] == Other
    ensures !InUse(AllocRegion(s, space, base, pages, flags), KernelRoots(g.roles),
                   AllocRegionSpaces(s, spaces, space, base, pages, flags), f)
  {
    hide VmInv, RangePaths, Settled, AllocPages, NewRegion, RemapLedger, AllocRegion, OnFreeList, IsPageTable, IsMapped;
    var t, h := AllocRegion(s, space, base, pages, flags), RemapLedger(s, g, space, base, pages, flags);
    AllocOverSettles(s, g, spaces, space, base, pages, flags);
    SettledIsInv(t, h);
    OtherIsNotFree(t, h, f);
    OtherIsNoTable(s, g, spaces, space, base, pages, flags, f);
    OtherIsNotMapped(s, g, spaces, space, base, pages, flags, f);
    DataIsNoRecord(s, g, spaces, space, base, pages, flags, f);
  }

  lemma SettledIsInv(t: Physical, h: Ledger)
    requires Settled(t, h)
    ensures Inv(t, h)
  {
  }

  lemma OtherIsNoTable(s: Physical, g: Ledger, spaces: Spaces, space: nat, base: Word, pages: nat, flags: Word, f: nat)
    requires CanAllocOver(s, g, spaces, space, base, pages, flags)
    requires f in RemapLedger(s, g, space, base, pages, flags).roles
             && RemapLedger(s, g, space, base, pages, flags).roles[f] == Other
    ensures !IsPageTable(AllocRegion(s, space, base, pages, flags).memory, KernelRoots(g.roles),
                         AllocRegionSpaces(s, spaces, space, base, pages, flags), f)
  {
    hide VmInv, RangePaths, TreeUp, FreeList, Leaves, AllocPages, RemapLedger, AllocRegion, RootOf, BehindPaths,
         Descend;
    var t, h := AllocRegion(s, space, base, pages, flags), RemapLedger(s, g, space, base, pages, flags);
    var all := AllocRegionSpaces(s, spaces, space, base, pages, flags);
    AllocOverSettles(s, g, spaces, space, base, pages, flags);
    forall root, q: Path, level | 1 <= level <= 4 && (root in KernelRoots(g.roles) || IsSpaceRoot(t.memory, all, root))
      ensures Descend(t.memory, root, 4, q, level) != f || f == 0
    {
      RootStaysTable(s, g, spaces, space, base, pages, flags, root);
      DescendIsTable(t.memory, h.roles, root, 4, q, level);
    }
  }

  lemma RootStaysTable(s: Physical, g: Ledger, spaces: Spaces, space: nat, base: Word, pages: nat, flags: Word,
                       root: nat)
    requires CanAllocOver(s, g, spaces, space, base, pages, flags)
    requires root in KernelRoots(g.roles)
          || IsSpaceRoot(AllocRegion(s, space, base, pages, flags).memory,
                         AllocRegionSpaces(s, spaces, space, base, pages, flags), root)
    ensures IsRoot(RemapLedger(s, g, space, base, pages, flags).roles, root)
  {
    hide VmInv, RangePaths, AllocPages, RemapLedger, AllocRegion, RootOf, BehindPaths;
    if root in KernelRoots(g.roles) {
      RemapRoles(s, g, spaces, space, base, pages, flags, root);
      TableIsNotBehind(g.roles[root], s.memory, RootOf(s.memory, space), RangePaths(base, pages));
    } else {
      var t := AllocRegion(s, space, base, pages, flags);
      var sp :| sp in AllocRegionSpaces(s, spaces, space, base, pages, flags) && RootOf(t.memory, sp) == root;
      RemapKeepsRoots(s, g, spaces, space, base, pages, flags, sp);
    }
  }

  lemma OtherIsNotMapped(s: Physical, g: Ledger, spaces: Spaces, space: nat, base: Word, pages: nat, flags: Word,
                         f: nat)
    requires CanAllocOver(s, g, spaces, space, base, pages, flags)
    requires f in RemapLedger(s, g, space, base, pages, flags).roles
             && RemapLedger(s, g, space, base, pages, flags).roles[f] == Other
    ensures !IsMapped(AllocRegion(s, space, base, pages, flags).memory,
                      AllocRegionSpaces(s, spaces, space, base, pages, flags), f)
  {
    hide VmInv, RangePaths, Inv, Leaves, AllocPages, RemapLedger, AllocRegion, RootOf, Walk, LeafTable;
    var t, h := AllocRegion(s, space, base, pages, flags), RemapLedger(s, g, space, base, pages, flags);
    var all := AllocRegionSpaces(s, spaces, space, base, pages, flags);
    AllocOverSettles(s, g, spaces, space, base, pages, flags);
    forall sp, q: Path | sp in all && q.l4 < 256 && Present(Lookup(t.memory, RootOf(t.memory, sp), q))
      ensures AddressBits(Lookup(t.memory, RootOf(t.memory, sp), q)) != f
    {
      RemapKeepsRoots(s, g, spaces, space, base, pages, flags, sp);
      PageHasDataFrame(t, h, RootOf(t.memory, sp), q);
    }
  }

  lemma DataIsNoRecord(s: Physical, g: Ledger, spaces: Spaces, space: nat, base: Word, pages: nat, flags: Word, f: nat)
    requires CanAllocOver(s, g, spaces, space, base, pages, flags) && f in g.roles && g.roles[f].Data?
    ensures var all := AllocRegionSpaces(s, spaces, space, base, pages, flags); f !in all && !IsListed(all, f)
  {
    hide VmInv, RangePaths, AllocPages, NewRegion, AllocRegion, Settled, RemapLedger;
    AllocOverSettles(s, g, spaces, space, base, pages, flags);
    forall sp | sp in spaces ensures sp in g.roles && g.roles[sp] == SpaceRecord {
      OwnRoot(s, g, spaces, sp);
    }
    forall sp, k | sp in spaces && 0 <= k < |spaces[sp]|
      ensures spaces[sp][k].record in g.roles && g.roles[spaces[sp][k].record].RegionRecord? {
      RegionRecordFacts(s, g, spaces, sp, k);
    }
  }

  /** No page of the range is mapped. */
  ghost predicate RangeIsAbsent(m: Memory, root: nat, base: Word, pages: nat) {
    forall p :: p in RangePaths(base, pages) ==> !Present(Lookup(m, root, p))
  }

  lemma MappedFrameIsLost(s: Physical, g: Ledger, spaces: Spaces, space: nat, base: Word, pages: nat, flags: Word,
                          p: Path)
    requires CanAllocOver(s, g, spaces, space, base, pages, flags) && p in RangePaths(base, pages)
    requires Present(Lookup(s.memory, RootOf(s.memory, space), p))
    ensures var f := AddressBits(Lookup(s.memory, RootOf(s.memory, space), p));
            && f in g.roles && g.roles[f].Data?
            && !InUse(AllocRegion(s, space, base, pages, flags), KernelRoots(g.roles),
                      AllocRegionSpaces(s, spaces, space, base, pages, flags), f)
  {
    hide VmInv, RangePaths, AllocPages, NewRegion, AllocRegion, RemapLedger, InUse, Inv, Leaves, LeafTable, Walk;
    var f := AddressBits(Lookup(s.memory, RootOf(s.memory, space), p));
    SettledNow(s, g, spaces);
    OwnRoot(s, g, spaces, space);
    RangeIsLower(base, pages, p);
    PageHasDataFrame(s, g, RootOf(s.memory, space), p);
    RemapRoles(s, g, spaces, space, base, pages, flags, f);
    OtherIsNotInUse(s, g, spaces, space, base, pages, flags, f);
  }

  lemma AllocKernelRoots(s: Physical, g: Ledger, spaces: Spaces, space: nat, base: Word, pages: nat, flags: Word)
    requires CanAllocRegion(s, g, spaces, space, base, pages, flags)
    ensures KernelRoots(AllocRegionLedger(s, g, space, base, pages, flags).roles) == KernelRoots(g.roles)
  {
    hide VmInv, CanAllocPages, AllocPages, RangePaths, AllocRegion, AllocRegionLedger;
    var h := AllocRegionLedger(s, g, space, base, pages, flags);
    forall f | f in g.roles ensures f in h.roles && (IsKernelRoot(g.roles[f]) <==> IsKernelRoot(h.roles[f])) {
      AllocRegionRoles(s, g, spaces, space, base, pages, flags, f);
    }
    forall f | f in h.roles ensures f in g.roles {
      AllocRegionDomain(s, g, spaces, space, base, pages, flags, f);
    }
  }

  lemma AllocKeepsInUse(s: Physical, g: Ledger, spaces: Spaces, space: nat, base: Word, pages: nat, flags: Word, f: nat)
    requires CanAllocOver(s, g, spaces, space, base, pages, flags)
             && RangeIsAbsent(s.memory, RootOf(s.memory, space), base, pages)
    requires f in g.roles && g.roles[f] != Other
    ensures InUse(AllocRegion(s, space, base, pages, flags), KernelRoots(g.roles),
                  AllocRegionSpaces(s, spaces, space, base, pages, flags), f)
  {
    hide VmInv, CanAllocRegion, RangePaths, AllocPages, NewRegion, AllocRegion, AllocRegionLedger, IsPageTable,
         IsMapped, IsListed, FreeList;
    EnoughForRegion(s, g, spaces, space, base, pages, flags);
    AllocRegionKeepsVm(s, g, spaces, space, base, pages, flags);
    AllocKernelRoots(s, g, spaces, space, base, pages, flags);
    var t, h := AllocRegion(s, space, base, pages, flags), AllocRegionLedger(s, g, space, base, pages, flags);
    ManagedStays(s, g, spaces, space, base, pages, flags, f);
    EveryFrameHasOneUse(t, h, AllocRegionSpaces(s, spaces, space, base, pages, flags), f);
    ListIsFollowed(t, h, f);
  }

  lemma ListIsFollowed(t: Physical, h: Ledger, f: nat)
    requires FreeList(t, h)
    ensures f in h.free ==> OnFreeList(t, f)
  {
  }

  lemma ManagedStays(s: Physical, g: Ledger, spaces: Spaces, space: nat, base: Word, pages: nat, flags: Word, f: nat)
    requires CanAllocRegion(s, g, spaces, space, base, pages, flags) && f in g.roles && g.roles[f] != Other
    ensures f in AllocRegionLedger(s, g, space, base, pages, flags).roles
            && f in AllocRegion(s, space, base, pages, flags).memory
    ensures AllocRegionLedger(s, g, space, base, pages, flags).roles[f] != Other
  {
    hide VmInv, CanAllocPages, AllocPages, RangePaths, AllocRegion, AllocRegionLedger;
    AllocRegionRoles(s, g, spaces, space, base, pages, flags, f);
    AllocRegionKeepsVm(s, g, spaces, space, base, pages, flags);
    FrameInMemory(AllocRegion(s, space, base, pages, flags), AllocRegionLedger(s, g, space, base, pages, flags),
                  AllocRegionSpaces(s, spaces, space, base, pages, flags), f);
  }

  lemma FrameInMemory(s: Physical, g: Ledger, spaces: Spaces, f: nat)
    requires VmInv(s, g, spaces) && f in g.roles
    ensures f in s.memory
  {
  }

  /**
   With four frames a page and one more, vm_alloc_at keeps every frame within reach if and only if no page of its
   range is mapped: the frame behind such a page ends on no free list, behind no page, in no page table and in no
   record.
   */
  lemma AllocAtKeepsFramesExactly(s: Physical, g: Ledger, spaces: Spaces, space: nat, base: Word, pages: nat,
                                  flags: Word)
    requires CanAllocOver(s, g, spaces, space, base, pages, flags)
    ensures (forall f :: f in g.roles && g.roles[f] != Other ==>
               InUse(AllocRegion(s, space, base, pages, flags), KernelRoots(g.roles),
                     AllocRegionSpaces(s, spaces, space, base, pages, flags), f))
       <==> RangeIsAbsent(s.memory, RootOf(s.memory, space), base, pages)
  {
    hide VmInv, RangePaths, AllocPages, AllocRegion, InUse, Lookup;
    if RangeIsAbsent(s.memory, RootOf(s.memory, space), base, pages) {
      forall f | f in g.roles && g.roles[f] != Other
        ensures InUse(AllocRegion(s, space, base, pages, flags), KernelRoots(g.roles),
                      AllocRegionSpaces(s, spaces, space, base, pages, flags), f)
      {
        AllocKeepsInUse(s, g, spaces, space, base, pages, flags, f);
      }
    } else {
      var p :| p in RangePaths(base, pages) && Present(Lookup(s.memory, RootOf(s.memory, space), p));
      MappedFrameIsLost(s, g, spaces, space, base, pages, flags, p);
    }
  }
}
