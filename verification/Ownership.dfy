/** Frames behind managed leaf entries: what mapping a fresh frame, freeing it and clearing its entry do to the
    ledger. */
module Ownership {
  import opened Words
  import opened PageTables
  import opened Mapping
  import opened AddressSpaces

  /** Is the path below the lower half of a vm_space root? */
  predicate ManagedPath(roles: Roles, t: nat, level: nat, p: Path)
    requires 1 <= level <= 4
  {
    IsTable(roles, t) && ManagedSlot(roles[t], p.At(level))
  }

  /** The leaf slot a path of a root leads to. */
  function SlotOf(m: Memory, root: nat, p: Path): Slot {
    (LeafTable(m, root, 4, p), p.l1)
  }

  /** The ledger once frame f stands behind leaf slot (x, i). */
  function OwnLedger(g: Ledger, f: nat, x: nat, i: nat): Ledger {
    g.(roles := g.roles[f := Data(x, i)])
  }

  lemma RetagKeepsInv(s: Physical, g: Ledger, f: nat, role: Role)
    requires Inv(s, g) && CanPush(g, f) && role != Free && !role.Table?
    ensures Inv(s, g.(roles := g.roles[f := role]))
  {
    RetagKeepsTrees(s.memory, g.roles, f, role);
  }

  lemma LeafWriteOwns(m: Memory, g: Ledger, x: nat, i: Index, w: Word, f: nat)
    requires TreeDown(m, g.roles) && Leaves(m, g) && IsManagedLeaf(g.roles, x)
    requires f in g.roles && g.roles[f] == Other && Present(w) && AddressBits(w) == f
    requires !Present(m[x][i]) && (x, i) !in g.limbo
    ensures Leaves(Put(m, x, i, w), OwnLedger(g, f, x, i))
  {
    var n, h := Put(m, x, i, w), OwnLedger(g, f, x, i);
    forall t, j: Index | IsManagedLeaf(h.roles, t) && t in n && Present(n[t][j]) && (t, j) !in h.limbo
      ensures AddressBits(n[t][j]) in h.roles && h.roles[AddressBits(n[t][j])] == Data(t, j)
    {
    }
    forall d | d in h.roles && h.roles[d].Data?
      ensures IsManagedLeaf(h.roles, h.roles[d].table) && (h.roles[d].table, h.roles[d].slot) !in h.limbo
           && Points(n, h.roles[d].table, h.roles[d].slot, d)
    {
      if d != f {
        assert Points(m, h.roles[d].table, h.roles[d].slot, d);
      }
    }
  }

  /** Mapping a frame that is nobody's below a managed path makes it the data frame of that leaf slot. */
  lemma {:induction false} MapOwns(s: Physical, g: Ledger, t: nat, level: nat, p: Path, paddr: Word, flags: Word)
    requires CanMap(s, g, t, level, p) && CleanFlags(flags) && ManagedPath(g.roles, t, level, p)
    requires Leaves(s.memory, g) && !Present(Walk(s.memory, t, level, p))
    requires LeafTable(s.memory, t, level, p) != 0 ==> (LeafTable(s.memory, t, level, p), p.l1) !in g.limbo
    requires forall slot :: slot in g.limbo ==> IsTable(g.roles, slot.0)
    requires IsFrameAddress(paddr) && paddr in g.roles && g.roles[paddr] == Other
    ensures Leaves(MapFrom(s, t, level, p, paddr, flags).memory,
                   OwnLedger(MapLedger(s, g, t, level, p, flags), paddr,
                             LeafTable(MapFrom(s, t, level, p, paddr, flags).memory, t, level, p), p.l1))
    decreases level
  {
    FrameAddressBits(paddr);
    if level == 1 {
      LeafWriteOwns(s.memory, g, t, p.l1, LeafEntry(paddr, flags), paddr);
    } else {
      hide Leaves;
      MapStep(s, g, t, level, p, flags);
      if Present(s.memory[t][p.At(level)]) {
        var c := AddressBits(s.memory[t][p.At(level)]);
        MapOwns(s, g, c, level - 1, p, paddr, flags);
        MapKeepsInnerEntries(s, g, c, level - 1, p, paddr, flags, t, p.At(level));
      } else {
        MapOwnsBelowNewTable(s, g, t, level, p, paddr, flags);
      }
    }
  }

  lemma {:induction false} MapOwnsBelowNewTable(s: Physical, g: Ledger, t: nat, level: nat, p: Path, paddr: Word,
                                                flags: Word)
    requires CanMap(s, g, t, level, p) && CleanFlags(flags) && ManagedPath(g.roles, t, level, p)
    requires level > 1 && t in s.memory && !Present(s.memory[t][p.At(level)])
    requires Leaves(s.memory, g)
    requires forall slot :: slot in g.limbo ==> IsTable(g.roles, slot.0)
    requires IsFrameAddress(paddr) && paddr in g.roles && g.roles[paddr] == Other
    ensures Leaves(MapFrom(s, t, level, p, paddr, flags).memory,
                   OwnLedger(MapLedger(s, g, t, level, p, flags), paddr,
                             LeafTable(MapFrom(s, t, level, p, paddr, flags).memory, t, level, p), p.l1))
    decreases level, 0
  {
    hide Leaves;
    MapStep(s, g, t, level, p, flags);
    var i := p.At(level);
    GrowFacts(s, g, t, i, flags);
    var grown, ledger := Grow(s, t, i, flags), GrowLedger(s, g, t, i);
    GrowKeepsLeaves(s, g, t, i, flags);
    FreshTableReadsZero(grown.memory, s.pageList, level - 1, p);
    MapOwns(grown, ledger, s.pageList, level - 1, p, paddr, flags);
    MapKeepsInnerEntries(grown, ledger, s.pageList, level - 1, p, paddr, flags, t, i);
  }

  lemma FreshTableReadsZero(m: Memory, f: nat, level: nat, p: Path)
    requires f in m && m[f] == ZeroFrame() && 1 <= level <= 4
    ensures Walk(m, f, level, p) == 0
    ensures LeafTable(m, f, level, p) == if level == 1 then f else 0
  {
  }

  /** Freeing a frame: a data frame's slot moves into limbo, everything else about the leaves stays. */
  lemma PushKeepsLeaves(s: Physical, g: Ledger, f: nat)
    requires Leaves(s.memory, g) && CanPush(g, f) && f in s.memory && f < WORD_LIMIT
    ensures Leaves(Push(s, f).memory, PushLedger(g, f))
  {
    var n, h := Push(s, f).memory, PushLedger(g, f);
    forall t, j: Index | IsManagedLeaf(h.roles, t) && t in n && Present(n[t][j]) && (t, j) !in h.limbo
      ensures AddressBits(n[t][j]) in h.roles && h.roles[AddressBits(n[t][j])] == Data(t, j)
    {
      assert g.roles[AddressBits(s.memory[t][j])] == Data(t, j);
    }
    forall d | d in h.roles && h.roles[d].Data?
      ensures IsManagedLeaf(h.roles, h.roles[d].table) && (h.roles[d].table, h.roles[d].slot) !in h.limbo
           && Points(n, h.roles[d].table, h.roles[d].slot, d)
    {
      assert d != f && Points(s.memory, h.roles[d].table, h.roles[d].slot, d);
      if g.roles[f].Data? {
        assert Points(s.memory, g.roles[f].table, g.roles[f].slot, f);
      }
    }
  }

  /** Clearing a leaf slot that is absent or in limbo takes it out of limbo. */
  lemma ClearKeepsLeaves(m: Memory, g: Ledger, x: nat, i: Index)
    requires Leaves(m, g) && IsTable(g.roles, x) && x in m && g.roles[x].level == 1
    requires (x, i) in g.limbo || !Present(m[x][i])
    ensures Leaves(Put(m, x, i, 0), g.(limbo := g.limbo - {(x, i)}))
  {
    var n, h := Put(m, x, i, 0), g.(limbo := g.limbo - {(x, i)});
    forall d | d in h.roles && h.roles[d].Data?
      ensures IsManagedLeaf(h.roles, h.roles[d].table) && (h.roles[d].table, h.roles[d].slot) !in h.limbo
           && Points(n, h.roles[d].table, h.roles[d].slot, d)
    {
      assert Points(m, h.roles[d].table, h.roles[d].slot, d);
    }
  }

  // ----- one page of vm_alloc: a frame from the list, mapped

  predicate ManagedRoot(roles: Roles, root: nat) {
    IsRoot(roles, root) && roles[root].managed
  }

  /** The trees, the free list and the leaves are in order, and no freed frame is still mapped. */
  ghost predicate Settled(s: Physical, g: Ledger) {
    Inv(s, g) && Leaves(s.memory, g) && g.limbo == {}
  }

  ghost predicate CanAllocPage(s: Physical, g: Ledger, root: nat, p: Path) {
    && Settled(s, g) && ManagedRoot(g.roles, root) && p.l4 < 256
    && !Present(Lookup(s.memory, root, p))
    && Missing(s.memory, root, 4, p) < |g.free|
  }

  function AllocPage(s: Physical, root: nat, p: Path, flags: Word): Physical
    requires CleanFlags(flags)
  {
    if s.pageList !in s.memory then s else MapPage(Pop(s), root, p, s.pageList, flags)
  }

  function AllocPageLedger(s: Physical, g: Ledger, root: nat, p: Path, flags: Word): Ledger
    requires CleanFlags(flags)
  {
    if s.pageList !in s.memory || g.free == [] then g
    else OwnLedger(MapLedger(Pop(s), PopLedger(s, g), root, 4, p, flags), s.pageList,
                   LeafTable(AllocPage(s, root, p, flags).memory, root, 4, p), p.l1)
  }

  lemma PopKeepsLeaves(s: Physical, g: Ledger)
    requires Inv(s, g) && Leaves(s.memory, g) && g.free != []
    ensures Leaves(s.memory, PopLedger(s, g))
  {
    HeadIsFree(s, g);
  }

  lemma PopKeepsWalks(s: Physical, g: Ledger, root: nat, p: Path)
    requires Inv(s, g) && IsRoot(g.roles, root) && g.free != [] && Missing(s.memory, root, 4, p) < |g.free|
    ensures CanMap(Pop(s), PopLedger(s, g), root, 4, p)
  {
    HeadIsFree(s, g);
    PopKeepsInv(s, g);
    hide Inv;
  }

  lemma PopCanMap(s: Physical, g: Ledger, root: nat, p: Path)
    requires CanAllocPage(s, g, root, p)
    ensures s.pageList in s.memory && IsFrameAddress(s.pageList) && s.pageList in g.roles && g.roles[s.pageList] == Free
    ensures g.free != [] && s.pageList == g.free[0]
    ensures CanMap(Pop(s), PopLedger(s, g), root, 4, p) && Leaves(s.memory, PopLedger(s, g))
  {
    hide Leaves, CanMap;
    HeadIsFree(s, g);
    PopKeepsLeaves(s, g);
    PopKeepsWalks(s, g, root, p);
  }

  lemma AllocPageSettles(s: Physical, g: Ledger, root: nat, p: Path, flags: Word)
    requires CanAllocPage(s, g, root, p) && CleanFlags(flags)
    ensures Settled(AllocPage(s, root, p, flags), AllocPageLedger(s, g, root, p, flags))
  {
    PopCanMap(s, g, root, p);
    hide Inv, Leaves;
    var t, h := Pop(s), PopLedger(s, g);
    MapOwns(t, h, root, 4, p, s.pageList, flags);
    MapKeepsInv(t, h, root, 4, p, s.pageList, flags);
    MapKeepsRoles(t, h, root, 4, p, flags, s.pageList);
    RetagKeepsInv(AllocPage(s, root, p, flags), MapLedger(t, h, root, 4, p, flags), s.pageList,
                  Data(LeafTable(AllocPage(s, root, p, flags).memory, root, 4, p), p.l1));
  }

  lemma AllocPageLookup(s: Physical, g: Ledger, root: nat, p: Path, flags: Word, r: nat, q: Path)
    requires CanAllocPage(s, g, root, p) && CleanFlags(flags) && IsRoot(g.roles, r)
    ensures Lookup(AllocPage(s, root, p, flags).memory, r, q) ==
            if r == root && q == p then LeafEntry(s.pageList, flags) else Lookup(s.memory, r, q)
  {
    PopCanMap(s, g, root, p);
    hide Inv, Leaves;
    MapPageLookup(Pop(s), PopLedger(s, g), root, p, s.pageList, flags, r, q);
  }

  /** Only free frames change their role: into tables, and one into the page's data frame. */
  lemma AllocPageRoles(s: Physical, g: Ledger, root: nat, p: Path, flags: Word, f: nat)
    requires CanAllocPage(s, g, root, p) && CleanFlags(flags) && f in g.roles
    ensures f in AllocPageLedger(s, g, root, p, flags).roles
    ensures var role := AllocPageLedger(s, g, root, p, flags).roles[f];
            if f == s.pageList
            then g.roles[f] == Free && role == Data(LeafTable(AllocPage(s, root, p, flags).memory, root, 4, p), p.l1)
            else role == g.roles[f] || (g.roles[f] == Free && role.Table? && role.level < 4)
  {
    PopCanMap(s, g, root, p);
    hide Inv, Leaves;
    MapKeepsRoles(Pop(s), PopLedger(s, g), root, 4, p, flags, f);
  }

  /** The free list loses its head and then one frame for every missing table. */
  lemma AllocPageTakes(s: Physical, g: Ledger, root: nat, p: Path, flags: Word)
    requires CanAllocPage(s, g, root, p) && CleanFlags(flags)
    ensures AllocPageLedger(s, g, root, p, flags).free == g.free[1 + Missing(s.memory, root, 4, p)..]
  {
    PopCanMap(s, g, root, p);
    hide Inv, Leaves;
    MapKeepsInv(Pop(s), PopLedger(s, g), root, 4, p, s.pageList, flags);
    assert g.free[1..][Missing(s.memory, root, 4, p)..] == g.free[1 + Missing(s.memory, root, 4, p)..];
  }

  /** Frames that are neither free nor tables keep their contents. */
  lemma AllocPageKeepsOthers(s: Physical, g: Ledger, root: nat, p: Path, flags: Word, f: nat)
    requires CanAllocPage(s, g, root, p) && CleanFlags(flags) && f in g.roles && g.roles[f] != Free
             && !g.roles[f].Table?
    ensures f in s.memory && f in AllocPage(s, root, p, flags).memory
    ensures AllocPage(s, root, p, flags).memory[f] == s.memory[f]
  {
    PopCanMap(s, g, root, p);
    hide Inv, Leaves;
    MapKeepsOthers(Pop(s), PopLedger(s, g), root, 4, p, s.pageList, flags, f);
  }

  // ----- one page of vm_free: the frame behind a present entry goes back to the list

  function FreePage(s: Physical, root: nat, p: Path): Physical {
    var frame := AddressBits(Lookup(s.memory, root, p));
    if Present(Lookup(s.memory, root, p)) && frame in s.memory then Push(s, frame) else s
  }

  function FreePageLedger(s: Physical, g: Ledger, root: nat, p: Path): Ledger {
    var frame := AddressBits(Lookup(s.memory, root, p));
    if Present(Lookup(s.memory, root, p)) && frame in g.roles then PushLedger(g, frame) else g
  }

  /** A present lower-half page stands for exactly one data frame, the one its leaf slot owns. */
  lemma PageHasDataFrame(s: Physical, g: Ledger, root: nat, p: Path)
    requires Inv(s, g) && Leaves(s.memory, g) && ManagedRoot(g.roles, root) && p.l4 < 256
    requires Present(Lookup(s.memory, root, p)) && SlotOf(s.memory, root, p) !in g.limbo
    ensures var frame := AddressBits(Lookup(s.memory, root, p));
            && frame in s.memory && frame in g.roles && frame < WORD_LIMIT
            && g.roles[frame] == Data(LeafTable(s.memory, root, 4, p), p.l1) && CanPush(g, frame)
    ensures LeafTable(s.memory, root, 4, p) != 0
  {
    hide TreeUp, FreeList, LeavesUp, LeafTable, Walk, Missing;
    LeafTableIsTable(s.memory, g.roles, root, 4, p);
  }

  lemma FreePageKeeps(s: Physical, g: Ledger, root: nat, p: Path)
    requires Inv(s, g) && Leaves(s.memory, g) && ManagedRoot(g.roles, root) && p.l4 < 256
    requires SlotOf(s.memory, root, p) !in g.limbo
    ensures Inv(FreePage(s, root, p), FreePageLedger(s, g, root, p))
    ensures Leaves(FreePage(s, root, p).memory, FreePageLedger(s, g, root, p))
    ensures FreePageLedger(s, g, root, p).limbo ==
            g.limbo + (if Present(Lookup(s.memory, root, p)) then {SlotOf(s.memory, root, p)} else {})
  {
    if Present(Lookup(s.memory, root, p)) {
      PageHasDataFrame(s, g, root, p);
      hide Inv, Leaves;
      PushKeepsInv(s, g, AddressBits(Lookup(s.memory, root, p)));
      PushKeepsLeaves(s, g, AddressBits(Lookup(s.memory, root, p)));
    }
  }
}
