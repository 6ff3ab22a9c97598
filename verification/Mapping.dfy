/** What map_page, unmap_page and the frame allocator do to walks and to frame ownership. */
module Mapping {
  import opened Lists
  import opened Words
  import opened PageTables

  // ----- the free list

  lemma HeadIsFree(s: Physical, g: Ledger)
    requires Inv(s, g) && g.free != []
    ensures s.pageList != 0 && s.pageList in s.memory && s.pageList in g.roles && g.roles[s.pageList] == Free
    ensures s.memory[s.pageList][0] == Head(g.free[1..])
    ensures s.pageList == g.free[0] && s.pageList !in g.free[1..]
  {
    assert g.free[0] in g.free;
    assert g.free[0] in s.memory;
  }

  /** The free list without its first frame, over memory in which only that frame and owned frames changed. */
  lemma PopKeepsList(s: Physical, g: Ledger, n: Memory, roles: Roles)
    requires Inv(s, g) && g.free != [] && n.Keys == s.memory.Keys
    requires forall f :: f in g.free[1..] ==> f in n && n[f] == s.memory[f]
    requires roles.Keys == g.roles.Keys && s.pageList in roles && roles[s.pageList] != Free
    requires forall f :: f in roles && f != s.pageList ==> (roles[f] == Free <==> g.roles[f] == Free)
    ensures FreeList(Physical(n, s.memory[s.pageList][0]), g.(free := g.free[1..], roles := roles))
  {
    HeadIsFree(s, g);
    var rest := g.free[1..];
    forall k | 0 <= k < |rest| ensures rest[k] in n && n[rest[k]][0] == Head(rest[k + 1..]) {
      assert rest[k] == g.free[k + 1] && rest[k + 1..] == g.free[k + 2..];
      assert rest[k] in rest;
    }
    forall f | f in roles ensures roles[f] == Free <==> f in rest {
      if f != s.pageList {
        assert f in g.free <==> f in rest;
      }
    }
  }

  /** Taking the first frame: frame_alloc. Until its caller puts it to use the frame is nobody else's. */
  function Pop(s: Physical): Physical
    requires s.pageList in s.memory
  {
    s.(pageList := s.memory[s.pageList][0])
  }

  function PopLedger(s: Physical, g: Ledger): Ledger
    requires g.free != []
  {
    g.(roles := g.roles[s.pageList := Other], free := g.free[1..])
  }

  lemma HeadOfEmptyList(s: Physical, g: Ledger)
    requires Inv(s, g)
    ensures s.pageList == 0 <==> g.free == []
  {
    if g.free != [] {
      HeadIsFree(s, g);
    }
  }

  /** Giving a frame that is not a table a new use that is not a table either leaves the trees alone. */
  lemma RetagKeepsTrees(m: Memory, roles: Roles, f: nat, role: Role)
    requires TreeDown(m, roles) && TreeUp(m, roles) && f in roles && !roles[f].Table? && !role.Table?
    ensures TreeDown(m, roles[f := role]) && TreeUp(m, roles[f := role])
  {
    forall u, j: Index | IsTable(roles[f := role], u) && roles[u].level > 1 && Present(m[u][j])
      ensures Child(roles[f := role], u, j, AddressBits(m[u][j]))
    {
      assert Child(roles, u, j, AddressBits(m[u][j]));
    }
  }

  lemma PopKeepsInv(s: Physical, g: Ledger)
    requires Inv(s, g) && g.free != []
    ensures s.pageList in s.memory && Inv(Pop(s), PopLedger(s, g))
  {
    HeadIsFree(s, g);
    RetagKeepsTrees(s.memory, g.roles, s.pageList, Other);
    forall f | f in g.free[1..] ensures f in s.memory {
      assert f in g.free && f in g.roles;
    }
    PopKeepsList(s, g, s.memory, PopLedger(s, g).roles);
  }

  /** A frame that frame_free may take: one of ours, in use, and not a table. */
  ghost predicate CanPush(g: Ledger, f: nat) {
    f in g.roles && g.roles[f] != Free && !g.roles[f].Table?
  }

  /** Freeing a data frame leaves the leaf slot that names it in limbo until it is cleared. */
  function PushLedger(g: Ledger, f: nat): Ledger
    requires f in g.roles
  {
    Ledger(g.roles[f := Free], [f] + g.free,
           if g.roles[f].Data? then g.limbo + {(g.roles[f].table, g.roles[f].slot)} else g.limbo)
  }

  /** Pushing a frame: frame_free. */
  function Push(s: Physical, f: nat): Physical
    requires f in s.memory && f < WORD_LIMIT
  {
    Physical(Put(s.memory, f, 0, s.pageList), f)
  }

  lemma PushKeepsList(s: Physical, g: Ledger, f: nat, roles: Roles)
    requires FreeList(s, g) && f in s.memory && 0 < f < WORD_LIMIT && f !in g.free
    requires roles.Keys == g.roles.Keys && f in roles && roles[f] == Free
    requires forall e :: e in roles && e != f ==> (roles[e] == Free <==> g.roles[e] == Free)
    ensures FreeList(Push(s, f), g.(free := [f] + g.free, roles := roles))
  {
    var free := [f] + g.free;
    var n := Push(s, f).memory;
    forall k | 0 <= k < |free| ensures free[k] in n && n[free[k]][0] == Head(free[k + 1..]) {
      if k == 0 {
        assert free[1..] == g.free;
      } else {
        assert free[k] == g.free[k - 1] && free[k + 1..] == g.free[k..];
      }
    }
  }

  lemma WriteOutsideTablesKeepsTrees(m: Memory, roles: Roles, f: nat, i: Index, w: Word)
    requires TreeDown(m, roles) && TreeUp(m, roles) && f in roles && !roles[f].Table?
    ensures TreeDown(Put(m, f, i, w), roles) && TreeUp(Put(m, f, i, w), roles)
  {
    var n := Put(m, f, i, w);
    forall u, j: Index | IsTable(roles, u) && roles[u].level > 1 && Present(n[u][j])
      ensures Child(roles, u, j, AddressBits(n[u][j]))
    {
      assert Child(roles, u, j, AddressBits(m[u][j]));
    }
    forall c: nat | IsTable(roles, c) && roles[c].level < 4
      ensures IsTable(roles, roles[c].parent) && roles[roles[c].parent].level == roles[c].level + 1
           && Points(n, roles[c].parent, roles[c].slot, c)
    {
      assert Points(m, roles[c].parent, roles[c].slot, c);
    }
  }

  lemma PushKeepsInv(s: Physical, g: Ledger, f: nat)
    requires Inv(s, g) && CanPush(g, f)
    ensures f in s.memory && f < WORD_LIMIT && Inv(Push(s, f), PushLedger(g, f))
  {
    assert f in s.memory && f !in g.free;
    WriteOutsideTablesKeepsTrees(s.memory, g.roles, f, 0, s.pageList);
    RetagKeepsTrees(Push(s, f).memory, g.roles, f, Free);
    PushKeepsList(s, g, f, g.roles[f := Free]);
  }

  // ----- a new, empty table

  function LevelBelow(level: nat): nat {
    if level == 0 then 0 else level - 1
  }

  function GrowLedger(s: Physical, g: Ledger, t: nat, i: Index): Ledger
    requires IsTable(g.roles, t) && g.free != []
  {
    g.(roles := g.roles[s.pageList := Table(LevelBelow(g.roles[t].level), t, i, ManagedSlot(g.roles[t], i))],
       free := g.free[1..])
  }

  ghost predicate CanGrow(s: Physical, g: Ledger, t: nat, i: Index) {
    Inv(s, g) && g.free != [] && IsTable(g.roles, t) && g.roles[t].level > 1 && !Present(s.memory[t][i])
  }

  lemma GrowFacts(s: Physical, g: Ledger, t: nat, i: Index, flags: Word)
    requires CanGrow(s, g, t, i)
    ensures s.pageList in s.memory && t != s.pageList && g.roles[s.pageList] == Free
    ensures var n := Grow(s, t, i, flags).memory;
            && n.Keys == s.memory.Keys
            && n[s.pageList] == ZeroFrame()
            && n[t] == s.memory[t][i := TableEntry(s.pageList, flags)]
            && (forall f :: f in n && f != t && f != s.pageList ==> n[f] == s.memory[f])
            && AddressBits(n[t][i]) == s.pageList && Present(n[t][i])
  {
    HeadIsFree(s, g);
    FrameAddressBits(s.pageList);
  }

  lemma GrowKeepsChild(s: Physical, g: Ledger, t: nat, i: Index, flags: Word, u: nat, j: Index)
    requires CanGrow(s, g, t, i) && s.pageList in s.memory
    requires var n, roles := Grow(s, t, i, flags).memory, GrowLedger(s, g, t, i).roles;
             IsTable(roles, u) && roles[u].level > 1 && u in n && Present(n[u][j])
    ensures var n, roles := Grow(s, t, i, flags).memory, GrowLedger(s, g, t, i).roles;
            Child(roles, u, j, AddressBits(n[u][j]))
  {
    hide FreeList, TreeUp, Grow;
    GrowFacts(s, g, t, i, flags);
    if u != s.pageList && (u, j) != (t, i) {
      assert Present(s.memory[u][j]);
      assert Child(g.roles, u, j, AddressBits(s.memory[u][j]));
    }
  }

  lemma GrowKeepsTreeDown(s: Physical, g: Ledger, t: nat, i: Index, flags: Word)
    requires CanGrow(s, g, t, i) && s.pageList in s.memory
    ensures TreeDown(Grow(s, t, i, flags).memory, GrowLedger(s, g, t, i).roles)
  {
    hide FreeList, TreeUp, Grow, Child;
    GrowFacts(s, g, t, i, flags);
    var n, roles := Grow(s, t, i, flags).memory, GrowLedger(s, g, t, i).roles;
    forall u, j: Index | IsTable(roles, u) && roles[u].level > 1 && u in n && Present(n[u][j])
      ensures Child(roles, u, j, AddressBits(n[u][j]))
    {
      GrowKeepsChild(s, g, t, i, flags, u, j);
    }
  }

  lemma GrowKeepsTreeUp(s: Physical, g: Ledger, t: nat, i: Index, flags: Word)
    requires CanGrow(s, g, t, i) && s.pageList in s.memory
    ensures TreeUp(Grow(s, t, i, flags).memory, GrowLedger(s, g, t, i).roles)
  {
    GrowFacts(s, g, t, i, flags);
    var n, roles := Grow(s, t, i, flags).memory, GrowLedger(s, g, t, i).roles;
    forall c: nat | IsTable(roles, c) && roles[c].level < 4
      ensures IsTable(roles, roles[c].parent) && roles[roles[c].parent].level == roles[c].level + 1
           && Points(n, roles[c].parent, roles[c].slot, c)
    {
      if c != s.pageList {
        assert Points(s.memory, roles[c].parent, roles[c].slot, c);
      }
    }
  }

  lemma GrowKeepsMapped(s: Physical, g: Ledger, t: nat, i: Index, flags: Word, u: nat, j: Index)
    requires CanGrow(s, g, t, i) && s.pageList in s.memory && Leaves(s.memory, g)
    requires var n := Grow(s, t, i, flags).memory;
             IsManagedLeaf(GrowLedger(s, g, t, i).roles, u) && u in n && Present(n[u][j]) && (u, j) !in g.limbo
    ensures var n, roles := Grow(s, t, i, flags).memory, GrowLedger(s, g, t, i).roles;
            AddressBits(n[u][j]) in roles && roles[AddressBits(n[u][j])] == Data(u, j)
  {
    hide FreeList, TreeDown, TreeUp, Grow;
    GrowFacts(s, g, t, i, flags);
    assert u != s.pageList && u != t;
    assert IsManagedLeaf(g.roles, u) && u in s.memory && Present(s.memory[u][j]);
  }

  lemma GrowKeepsData(s: Physical, g: Ledger, t: nat, i: Index, flags: Word, d: nat)
    requires CanGrow(s, g, t, i) && s.pageList in s.memory && Leaves(s.memory, g)
    requires d in GrowLedger(s, g, t, i).roles && GrowLedger(s, g, t, i).roles[d].Data?
    ensures var n, roles := Grow(s, t, i, flags).memory, GrowLedger(s, g, t, i).roles;
            && IsManagedLeaf(roles, roles[d].table) && (roles[d].table, roles[d].slot) !in g.limbo
            && Points(n, roles[d].table, roles[d].slot, d)
  {
    hide FreeList, TreeDown, TreeUp, Grow;
    GrowFacts(s, g, t, i, flags);
    assert d in g.roles && g.roles[d] == GrowLedger(s, g, t, i).roles[d];
    assert Points(s.memory, g.roles[d].table, g.roles[d].slot, d);
  }

  lemma GrowKeepsLeaves(s: Physical, g: Ledger, t: nat, i: Index, flags: Word)
    requires CanGrow(s, g, t, i) && s.pageList in s.memory && Leaves(s.memory, g)
    ensures Leaves(Grow(s, t, i, flags).memory, GrowLedger(s, g, t, i))
  {
    hide FreeList, TreeUp, Grow, GrowLedger;
    var n, h := Grow(s, t, i, flags).memory, GrowLedger(s, g, t, i);
    LimboStays(s, g, t, i);
    forall u, j: Index | IsManagedLeaf(h.roles, u) && u in n && Present(n[u][j]) && (u, j) !in h.limbo
      ensures AddressBits(n[u][j]) in h.roles && h.roles[AddressBits(n[u][j])] == Data(u, j)
    {
      GrowKeepsMapped(s, g, t, i, flags, u, j);
    }
    forall d | d in h.roles && h.roles[d].Data?
      ensures IsManagedLeaf(h.roles, h.roles[d].table) && (h.roles[d].table, h.roles[d].slot) !in h.limbo
           && Points(n, h.roles[d].table, h.roles[d].slot, d)
    {
      GrowKeepsData(s, g, t, i, flags, d);
    }
  }

  lemma LimboStays(s: Physical, g: Ledger, t: nat, i: Index)
    requires IsTable(g.roles, t) && g.free != []
    ensures GrowLedger(s, g, t, i).limbo == g.limbo
  {
  }

  lemma GrowKeepsInv(s: Physical, g: Ledger, t: nat, i: Index, flags: Word)
    requires CanGrow(s, g, t, i) && s.pageList in s.memory
    ensures Inv(Grow(s, t, i, flags), GrowLedger(s, g, t, i))
  {
    GrowFacts(s, g, t, i, flags);
    GrowKeepsTreeDown(s, g, t, i, flags);
    GrowKeepsTreeUp(s, g, t, i, flags);
    var n, roles := Grow(s, t, i, flags).memory, GrowLedger(s, g, t, i).roles;
    forall f | f in g.free[1..] ensures f in n && n[f] == s.memory[f] {
      assert f in g.free && g.roles[f] == Free;
      HeadIsFree(s, g);
    }
    PopKeepsList(s, g, n, roles);
  }

  /** Hanging an empty table below an absent slot changes no walk at all. */
  lemma {:induction false} GrowKeepsWalks(s: Physical, g: Ledger, t: nat, i: Index, flags: Word, u: nat, level: nat,
                                          q: Path)
    requires CanGrow(s, g, t, i) && s.pageList in s.memory
    requires IsTable(g.roles, u) && g.roles[u].level == level
    ensures Walk(Grow(s, t, i, flags).memory, u, level, q) == Walk(s.memory, u, level, q)
    decreases level
  {
    GrowFacts(s, g, t, i, flags);
    var n := Grow(s, t, i, flags).memory;
    if level > 1 {
      var j := q.At(level);
      if u == t && j == i {
        assert Walk(n, s.pageList, level - 1, q) == 0;
      } else if Present(s.memory[u][j]) {
        GrowKeepsWalks(s, g, t, i, flags, AddressBits(s.memory[u][j]), level - 1, q);
      }
    }
  }

  // ----- a last-level entry

  /** Writing one leaf entry changes exactly the walks that end on it. */
  lemma {:induction false} LeafWriteWalk(m: Memory, roles: Roles, x: nat, i: Index, w: Word, u: nat, level: nat,
                                         q: Path)
    requires TreeDown(m, roles) && 0 !in m
    requires IsTable(roles, x) && roles[x].level == 1
    requires IsTable(roles, u) && roles[u].level == level
    ensures Walk(Put(m, x, i, w), u, level, q) ==
            if LeafTable(m, u, level, q) == x && q.l1 == i then w else Walk(m, u, level, q)
    ensures Missing(Put(m, x, i, w), u, level, q) == Missing(m, u, level, q)
    ensures LeafTable(Put(m, x, i, w), u, level, q) == LeafTable(m, u, level, q)
    decreases level
  {
    if level > 1 && Present(m[u][q.At(level)]) {
      LeafWriteWalk(m, roles, x, i, w, AddressBits(m[u][q.At(level)]), level - 1, q);
    }
  }

  lemma LeafWriteKeepsTrees(m: Memory, roles: Roles, x: nat, i: Index, w: Word)
    requires TreeDown(m, roles) && TreeUp(m, roles) && IsTable(roles, x) && roles[x].level == 1
    ensures TreeDown(Put(m, x, i, w), roles) && TreeUp(Put(m, x, i, w), roles)
  {
    var n := Put(m, x, i, w);
    forall u, j: Index | IsTable(roles, u) && roles[u].level > 1 && Present(n[u][j])
      ensures Child(roles, u, j, AddressBits(n[u][j]))
    {
      assert Present(m[u][j]);
    }
    forall c: nat | IsTable(roles, c) && roles[c].level < 4
      ensures IsTable(roles, roles[c].parent) && roles[roles[c].parent].level == roles[c].level + 1
           && Points(n, roles[c].parent, roles[c].slot, c)
    {
      assert Points(m, roles[c].parent, roles[c].slot, c);
    }
  }

  lemma TablesAreNotFree(s: Physical, g: Ledger, f: nat)
    requires FreeList(s, g) && f in g.roles && g.roles[f] != Free
    ensures f !in g.free
  {
  }

  /** Memory may change outside the free list and the inner tables' present entries without harm to either. */
  lemma LeafWriteKeepsInv(s: Physical, g: Ledger, x: nat, i: Index, w: Word)
    requires Inv(s, g) && IsTable(g.roles, x) && g.roles[x].level == 1
    ensures Inv(s.(memory := Put(s.memory, x, i, w)), g)
  {
    LeafWriteKeepsTrees(s.memory, g.roles, x, i, w);
    TablesAreNotFree(s, g, x);
    WriteKeepsLinks(s.memory, g.free, x, i, w);
  }

  lemma WriteKeepsLinks(m: Memory, free: seq<nat>, x: nat, i: Index, w: Word)
    requires Linked(m, free) && x in m && x !in free
    ensures Linked(Put(m, x, i, w), free)
  {
    forall k | 0 <= k < |free| ensures free[k] in m && Put(m, x, i, w)[free[k]][0] == Head(free[k + 1..]) {
      assert free[k] in free;
    }
  }

  // ----- map_page

  /** The ledger after map_page: one table role for every level that was missing. */
  function MapLedger(s: Physical, g: Ledger, t: nat, level: nat, p: Path, flags: Word): Ledger
    requires 1 <= level <= 4
    decreases level
  {
    if level == 1 || t !in s.memory then g
    else if Present(s.memory[t][p.At(level)]) then
      MapLedger(s, g, AddressBits(s.memory[t][p.At(level)]), level - 1, p, flags)
    else if g.free == [] || !IsTable(g.roles, t) || s.pageList !in s.memory then g
    else MapLedger(Grow(s, t, p.At(level), flags), GrowLedger(s, g, t, p.At(level)), s.pageList, level - 1, p, flags)
  }

  ghost predicate CanMap(s: Physical, g: Ledger, t: nat, level: nat, p: Path) {
    && Inv(s, g) && IsTable(g.roles, t) && g.roles[t].level == level && 1 <= level <= 4
    && Missing(s.memory, t, level, p) <= |g.free|
  }

  lemma MissingInFreshTable(m: Memory, f: nat, level: nat, p: Path)
    requires f in m && m[f] == ZeroFrame() && 1 <= level <= 4
    ensures Missing(m, f, level, p) == level - 1
  {
  }

  /** One level down: the state in which the walk of map_page goes on. */
  lemma MapStep(s: Physical, g: Ledger, t: nat, level: nat, p: Path, flags: Word)
    requires CanMap(s, g, t, level, p) && level > 1
    ensures t in s.memory
    ensures Present(s.memory[t][p.At(level)]) ==>
              CanMap(s, g, AddressBits(s.memory[t][p.At(level)]), level - 1, p)
    ensures !Present(s.memory[t][p.At(level)]) ==>
              && CanGrow(s, g, t, p.At(level)) && s.pageList in s.memory
              && EnsureTable(s, t, p.At(level), flags) == Grow(s, t, p.At(level), flags)
              && AddressBits(Grow(s, t, p.At(level), flags).memory[t][p.At(level)]) == s.pageList
              && CanMap(Grow(s, t, p.At(level), flags), GrowLedger(s, g, t, p.At(level)), s.pageList, level - 1, p)
  {
    if !Present(s.memory[t][p.At(level)]) {
      HeadIsFree(s, g);
      GrowFacts(s, g, t, p.At(level), flags);
      GrowKeepsInv(s, g, t, p.At(level), flags);
      MissingInFreshTable(Grow(s, t, p.At(level), flags).memory, s.pageList, level - 1, p);
    }
  }

  /** map_page keeps the trees and the free list, and takes exactly the missing tables off the list. */
  lemma {:induction false} MapKeepsInv(s: Physical, g: Ledger, t: nat, level: nat, p: Path, paddr: Word, flags: Word)
    requires CanMap(s, g, t, level, p) && CleanFlags(flags)
    ensures Inv(MapFrom(s, t, level, p, paddr, flags), MapLedger(s, g, t, level, p, flags))
    ensures MapLedger(s, g, t, level, p, flags).free == g.free[Missing(s.memory, t, level, p)..]
    decreases level
  {
    if level == 1 {
      LeafWriteKeepsInv(s, g, t, p.l1, LeafEntry(paddr, flags));
    } else {
      MapStep(s, g, t, level, p, flags);
      if Present(s.memory[t][p.At(level)]) {
        MapKeepsInv(s, g, AddressBits(s.memory[t][p.At(level)]), level - 1, p, paddr, flags);
      } else {
        var grown := Grow(s, t, p.At(level), flags);
        MapKeepsInv(grown, GrowLedger(s, g, t, p.At(level)), s.pageList, level - 1, p, paddr, flags);
        GrowFacts(s, g, t, p.At(level), flags);
        MissingInFreshTable(grown.memory, s.pageList, level - 1, p);
        assert g.free[1..][level - 2..] == g.free[level - 1..];
      }
    }
  }

  /** Present entries of inner tables are never rewritten, and no table frame is lost. */
  lemma {:induction false} MapKeepsInnerEntries(s: Physical, g: Ledger, t: nat, level: nat, p: Path, paddr: Word,
                                                flags: Word,
                                                u: nat, j: Index)
    requires CanMap(s, g, t, level, p) && CleanFlags(flags)
    requires IsTable(g.roles, u) && g.roles[u].level > 1 && Present(s.memory[u][j])
    ensures u in MapFrom(s, t, level, p, paddr, flags).memory
    ensures MapFrom(s, t, level, p, paddr, flags).memory[u][j] == s.memory[u][j]
    decreases level
  {
    hide TreeUp, FreeList, FrameAddresses, Grow;
    if level > 1 {
      MapStep(s, g, t, level, p, flags);
      if Present(s.memory[t][p.At(level)]) {
        MapKeepsInnerEntries(s, g, AddressBits(s.memory[t][p.At(level)]), level - 1, p, paddr, flags, u, j);
      } else {
        GrowFacts(s, g, t, p.At(level), flags);
        MapKeepsInnerEntries(Grow(s, t, p.At(level), flags), GrowLedger(s, g, t, p.At(level)), s.pageList, level - 1, p,
                             paddr, flags, u, j);
      }
    }
  }

  /** After map_page the path leads to a last-level table. */
  lemma {:induction false} MapReachesLeaf(s: Physical, g: Ledger, t: nat, level: nat, p: Path, paddr: Word, flags: Word)
    requires CanMap(s, g, t, level, p) && CleanFlags(flags)
    ensures LeafTable(MapFrom(s, t, level, p, paddr, flags).memory, t, level, p) != 0
    ensures Missing(MapFrom(s, t, level, p, paddr, flags).memory, t, level, p) == 0
    decreases level
  {
    if level > 1 {
      MapStep(s, g, t, level, p, flags);
      if Present(s.memory[t][p.At(level)]) {
        MapReachesLeaf(s, g, AddressBits(s.memory[t][p.At(level)]), level - 1, p, paddr, flags);
        MapKeepsInnerEntries(s, g, AddressBits(s.memory[t][p.At(level)]), level - 1, p, paddr, flags, t, p.At(level));
      } else {
        GrowFacts(s, g, t, p.At(level), flags);
        var grown, ledger := Grow(s, t, p.At(level), flags), GrowLedger(s, g, t, p.At(level));
        MapReachesLeaf(grown, ledger, s.pageList, level - 1, p, paddr, flags);
        MapKeepsInnerEntries(grown, ledger, s.pageList, level - 1, p, paddr, flags, t, p.At(level));
      }
    }
  }

  /** map_page changes exactly the walks that end on the slot its own path leads to. */
  lemma {:induction false} MapWalk(s: Physical, g: Ledger, t: nat, level: nat, p: Path, paddr: Word, flags: Word,
                                   u: nat, height: nat, q: Path)
    requires CanMap(s, g, t, level, p) && CleanFlags(flags)
    requires IsTable(g.roles, u) && g.roles[u].level == height
    ensures var n := MapFrom(s, t, level, p, paddr, flags).memory;
            Walk(n, u, height, q) ==
            if LeafTable(n, u, height, q) == LeafTable(n, t, level, p) && q.l1 == p.l1 then LeafEntry(paddr, flags)
            else Walk(s.memory, u, height, q)
    decreases level
  {
    if level == 1 {
      LeafWriteWalk(s.memory, g.roles, t, p.l1, LeafEntry(paddr, flags), u, height, q);
    } else {
      MapStep(s, g, t, level, p, flags);
      if Present(s.memory[t][p.At(level)]) {
        MapWalk(s, g, AddressBits(s.memory[t][p.At(level)]), level - 1, p, paddr, flags, u, height, q);
        MapKeepsInnerEntries(s, g, AddressBits(s.memory[t][p.At(level)]), level - 1, p, paddr, flags, t, p.At(level));
      } else {
        GrowFacts(s, g, t, p.At(level), flags);
        GrowKeepsWalks(s, g, t, p.At(level), flags, u, height, q);
        var grown, ledger := Grow(s, t, p.At(level), flags), GrowLedger(s, g, t, p.At(level));
        MapWalk(grown, ledger, s.pageList, level - 1, p, paddr, flags, u, height, q);
        MapKeepsInnerEntries(grown, ledger, s.pageList, level - 1, p, paddr, flags, t, p.At(level));
      }
    }
  }

  /** Frames that are not free, not below table t and not t itself keep their contents. */
  predicate OutsideWalk(roles: Roles, t: nat, level: nat, f: nat) {
    f in roles && roles[f] != Free && f != t && !(roles[f].Table? && roles[f].level < level)
  }

  lemma {:induction false} MapKeepsOthers(s: Physical, g: Ledger, t: nat, level: nat, p: Path, paddr: Word, flags: Word,
                                          f: nat)
    requires CanMap(s, g, t, level, p) && CleanFlags(flags) && OutsideWalk(g.roles, t, level, f)
    ensures f in s.memory && f in MapFrom(s, t, level, p, paddr, flags).memory
    ensures MapFrom(s, t, level, p, paddr, flags).memory[f] == s.memory[f]
    decreases level
  {
    if level > 1 {
      MapStep(s, g, t, level, p, flags);
      if Present(s.memory[t][p.At(level)]) {
        MapKeepsOthers(s, g, AddressBits(s.memory[t][p.At(level)]), level - 1, p, paddr, flags, f);
      } else {
        GrowFacts(s, g, t, p.At(level), flags);
        MapKeepsOthers(Grow(s, t, p.At(level), flags), GrowLedger(s, g, t, p.At(level)), s.pageList, level - 1, p,
                       paddr, flags, f);
      }
    }
  }

  /** map_page only turns free frames into tables. */
  lemma {:induction false} MapKeepsRoles(s: Physical, g: Ledger, t: nat, level: nat, p: Path, flags: Word, f: nat)
    requires CanMap(s, g, t, level, p) && f in g.roles
    ensures f in MapLedger(s, g, t, level, p, flags).roles
    ensures MapLedger(s, g, t, level, p, flags).roles[f] == g.roles[f]
         || (g.roles[f] == Free && MapLedger(s, g, t, level, p, flags).roles[f].Table?
             && MapLedger(s, g, t, level, p, flags).roles[f].level < level)
    ensures MapLedger(s, g, t, level, p, flags).limbo == g.limbo
    decreases level
  {
    if level > 1 {
      MapStep(s, g, t, level, p, flags);
      if Present(s.memory[t][p.At(level)]) {
        MapKeepsRoles(s, g, AddressBits(s.memory[t][p.At(level)]), level - 1, p, flags, f);
      } else {
        GrowFacts(s, g, t, p.At(level), flags);
        MapKeepsRoles(Grow(s, t, p.At(level), flags), GrowLedger(s, g, t, p.At(level)), s.pageList, level - 1, p, flags,
                      f);
      }
    }
  }

  /** Whether two roots share a top-level slot does not change while one of them is mapped through. */
  lemma MapKeepsAlias(s: Physical, g: Ledger, root: nat, p: Path, paddr: Word, flags: Word, r: nat)
    requires CanMap(s, g, root, 4, p) && CleanFlags(flags) && IsRoot(g.roles, r)
    ensures Alias(MapFrom(s, root, 4, p, paddr, flags).memory, r, root, p.l4) == Alias(s.memory, r, root, p.l4)
  {
    if r != root {
      MapStep(s, g, root, 4, p, flags);
      MapKeepsOthers(s, g, root, 4, p, paddr, flags, r);
      if Present(s.memory[root][p.l4]) {
        MapKeepsInnerEntries(s, g, root, 4, p, paddr, flags, root, p.l4);
      } else {
        var grown, ledger := Grow(s, root, p.l4, flags), GrowLedger(s, g, root, p.l4);
        GrowFacts(s, g, root, p.l4, flags);
        MapKeepsInnerEntries(grown, ledger, s.pageList, 3, p, paddr, flags, root, p.l4);
        assert Present(s.memory[r][p.l4]) ==> Child(g.roles, r, p.l4, AddressBits(s.memory[r][p.l4]));
      }
    }
  }

  // ----- map_page and unmap_page on whole roots

  /** Lookup of a path below a root: paging_get_entry. */
  function Lookup(m: Memory, root: nat, p: Path): Word {
    Walk(m, root, 4, p)
  }

  function MapPage(s: Physical, root: nat, p: Path, paddr: Word, flags: Word): Physical
    requires CleanFlags(flags)
  {
    MapFrom(s, root, 4, p, paddr, flags)
  }

  function UnmapPage(s: Physical, root: nat, p: Path): Physical {
    s.(memory := UnmapFrom(s.memory, root, 4, p))
  }

  /**
   map_page refines the update of a finite map: the mapped path now reads back, through its own root and
   through every root that shares its kernel half, and every other path of every root reads as before.
   */
  lemma MapPageLookup(s: Physical, g: Ledger, root: nat, p: Path, paddr: Word, flags: Word, r: nat, q: Path)
    requires CanMap(s, g, root, 4, p) && CleanFlags(flags) && IsRoot(g.roles, r)
    ensures Lookup(MapPage(s, root, p, paddr, flags).memory, r, q) ==
            if q == p && Alias(s.memory, r, root, p.l4) then LeafEntry(paddr, flags) else Lookup(s.memory, r, q)
  {
    var t, h := MapPage(s, root, p, paddr, flags), MapLedger(s, g, root, 4, p, flags);
    MapKeepsInv(s, g, root, 4, p, paddr, flags);
    MapReachesLeaf(s, g, root, 4, p, paddr, flags);
    MapWalk(s, g, root, 4, p, paddr, flags, r, 4, q);
    MapKeepsAlias(s, g, root, p, paddr, flags, r);
    MapKeepsRoles(s, g, root, 4, p, flags, r);
    MapKeepsRoles(s, g, root, 4, p, flags, root);
    RootsMeet(t.memory, h.roles, r, root, q, p);
  }

  /** unmap_page writes 0 into the slot its path leads to, and nothing when the path is cut short. */
  lemma {:induction false} UnmapIsLeafWrite(m: Memory, roles: Roles, t: nat, level: nat, p: Path)
    requires TreeDown(m, roles) && 0 !in m && IsTable(roles, t) && roles[t].level == level
    ensures LeafTable(m, t, level, p) == 0 || LeafTable(m, t, level, p) in m
    ensures UnmapFrom(m, t, level, p) ==
            if LeafTable(m, t, level, p) == 0 then m else Put(m, LeafTable(m, t, level, p), p.l1, 0)
    decreases level
  {
    if level > 1 && Present(m[t][p.At(level)]) {
      UnmapIsLeafWrite(m, roles, AddressBits(m[t][p.At(level)]), level - 1, p);
    }
  }

  lemma UnmapKeepsInv(s: Physical, g: Ledger, root: nat, p: Path)
    requires Inv(s, g) && IsRoot(g.roles, root)
    ensures Inv(UnmapPage(s, root, p), g)
  {
    UnmapIsLeafWrite(s.memory, g.roles, root, 4, p);
    LeafTableIsTable(s.memory, g.roles, root, 4, p);
    if LeafTable(s.memory, root, 4, p) != 0 {
      LeafWriteKeepsInv(s, g, LeafTable(s.memory, root, 4, p), p.l1, 0);
    }
  }

  /** unmap_page refines removal from a finite map. */
  lemma UnmapPageLookup(s: Physical, g: Ledger, root: nat, p: Path, r: nat, q: Path)
    requires Inv(s, g) && IsRoot(g.roles, root) && IsRoot(g.roles, r)
    ensures Lookup(UnmapPage(s, root, p).memory, r, q) ==
            if q == p && Alias(s.memory, r, root, p.l4) then 0 else Lookup(s.memory, r, q)
  {
    var x := LeafTable(s.memory, root, 4, p);
    UnmapIsLeafWrite(s.memory, g.roles, root, 4, p);
    LeafTableIsTable(s.memory, g.roles, root, 4, p);
    LeafTableIsTable(s.memory, g.roles, r, 4, q);
    if x != 0 {
      LeafWriteWalk(s.memory, g.roles, x, p.l1, 0, r, 4, q);
      RootsMeet(s.memory, g.roles, r, root, q, p);
    } else if q == p && Alias(s.memory, r, root, p.l4) && r != root {
      assert Lookup(s.memory, r, q) == Lookup(s.memory, root, p);
    }
  }
}
