/**
 Four-level page tables as words of physical memory (paging.c), with the ownership ledger
 under which they form trees of distinct frames.
 */
module PageTables {
  import opened Lists
  import opened Words

  type Frame = f: seq<Word> | |f| == 512 witness seq(512, _ => 0)
  type Memory = map<nat, Frame>

  function ZeroFrame(): Frame {
    seq(512, _ => 0)
  }

  /** Physical memory and the head of the intrusive free list (page_list, 0 for empty). */
  datatype Physical = Physical(memory: Memory, pageList: Word)

  function Put(m: Memory, t: nat, i: Index, w: Word): (r: Memory)
    requires t in m
    ensures r.Keys == m.Keys
  {
    m[t := m[t][i := w]]
  }

  // ----- reading: paging_get_entry

  /** The entry that a walk from table t at the given level ends on; 0 when it meets an absent entry. */
  function Walk(m: Memory, t: nat, level: nat, p: Path): Word
    requires 1 <= level <= 4
    decreases level
  {
    if t !in m then 0
    else
      var entry := m[t][p.At(level)];
      if level == 1 then entry
      else if !Present(entry) then 0
      else Walk(m, AddressBits(entry), level - 1, p)
  }

  /** The last-level table that a walk reaches; 0 when it meets an absent entry. */
  function LeafTable(m: Memory, t: nat, level: nat, p: Path): nat
    requires 1 <= level <= 4
    decreases level
  {
    if level == 1 then t
    else if t !in m || !Present(m[t][p.At(level)]) then 0
    else LeafTable(m, AddressBits(m[t][p.At(level)]), level - 1, p)
  }

  /** How many tables a walk finds missing: the frames that mapping this path consumes. */
  function Missing(m: Memory, t: nat, level: nat, p: Path): (n: nat)
    requires 1 <= level <= 4
    ensures n < level
    decreases level
  {
    if level == 1 then 0
    else if t !in m || !Present(m[t][p.At(level)]) then level - 1
    else Missing(m, AddressBits(m[t][p.At(level)]), level - 1, p)
  }

  // ----- writing: map_page and unmap_page

  /** Take the first free frame, clear it and hang it below slot i of table t. */
  function Grow(s: Physical, t: nat, i: Index, flags: Word): Physical
    requires t in s.memory && s.pageList in s.memory
  {
    var cleared := s.memory[s.pageList := ZeroFrame()];
    Physical(Put(cleared, t, i, TableEntry(s.pageList, flags)), s.memory[s.pageList][0])
  }

  function EnsureTable(s: Physical, t: nat, i: Index, flags: Word): Physical
    requires t in s.memory
  {
    if Present(s.memory[t][i]) || s.pageList !in s.memory then s else Grow(s, t, i, flags)
  }

  function MapFrom(s: Physical, t: nat, level: nat, p: Path, paddr: Word, flags: Word): Physical
    requires 1 <= level <= 4 && CleanFlags(flags)
    decreases level
  {
    if t !in s.memory then s
    else if level == 1 then s.(memory := Put(s.memory, t, p.l1, LeafEntry(paddr, flags)))
    else
      var grown := EnsureTable(s, t, p.At(level), flags);
      MapFrom(grown, AddressBits(grown.memory[t][p.At(level)]), level - 1, p, paddr, flags)
  }

  function UnmapFrom(m: Memory, t: nat, level: nat, p: Path): Memory
    requires 1 <= level <= 4
    decreases level
  {
    if t !in m then m
    else if level == 1 then Put(m, t, p.l1, 0)
    else if !Present(m[t][p.At(level)]) then m
    else UnmapFrom(m, AddressBits(m[t][p.At(level)]), level - 1, p)
  }

  // ----- ownership

  /**
   What a frame is used for. A table knows the slot that points to it; `managed` marks the tables
   below the lower half of a vm_space root, whose leaves point to frames handed out by vm_alloc.
   `Other` is a frame whose owner is outside this model.
   */
  datatype Role =
    | Free
    | Table(level: nat, parent: nat, slot: nat, managed: bool)
    | Data(table: nat, slot: nat)
    | SpaceRecord
    | RegionRecord(space: nat)
    | Other

  type Roles = map<nat, Role>

  /** Slots of last-level tables. */
  type Slot = (nat, int)

  /** Ownership of every frame, the free list in order, and the leaf slots still naming an already freed frame. */
  datatype Ledger = Ledger(roles: Roles, free: seq<nat>, limbo: set<Slot>)

  predicate IsTable(roles: Roles, t: nat) {
    t in roles && roles[t].Table?
  }

  /** Is the entry in slot i of table t below the lower half of a vm_space root? */
  predicate ManagedSlot(role: Role, i: Index)
    requires role.Table?
  {
    role.managed && (role.level < 4 || i < 256)
  }

  predicate SharedSlot(role: Role, i: Index)
    requires role.Table?
  {
    role.level == 4 && i >= 256
  }

  ghost predicate Child(roles: Roles, t: nat, i: Index, c: nat)
    requires IsTable(roles, t)
  {
    && IsTable(roles, c)
    && roles[c].level == roles[t].level - 1
    && roles[c].slot == i
    && roles[c].managed == ManagedSlot(roles[t], i)
    && (roles[c].parent == t || SharedSlot(roles[t], i))
  }

  /** Every present entry of a non-leaf table points to a table one level down that knows this slot. */
  ghost predicate TreeDown(m: Memory, roles: Roles) {
    && roles.Keys == m.Keys
    && (forall t :: IsTable(roles, t) ==> 1 <= roles[t].level <= 4)
    && (forall t, i: Index :: IsTable(roles, t) && roles[t].level > 1 && Present(m[t][i])
                              ==> Child(roles, t, i, AddressBits(m[t][i])))
  }

  /** Does slot i of table t hold a present entry for frame f? */
  ghost predicate Points(m: Memory, t: nat, i: int, f: nat) {
    t in m && 0 <= i < 512 && Present(m[t][i]) && AddressBits(m[t][i]) == f
  }

  predicate IsManagedLeaf(roles: Roles, t: nat) {
    IsTable(roles, t) && roles[t].level == 1 && roles[t].managed
  }

  /** Every table below a root hangs below the slot it names. */
  ghost predicate TreeUp(m: Memory, roles: Roles) {
    forall c :: IsTable(roles, c) && roles[c].level < 4 ==>
      && IsTable(roles, roles[c].parent)
      && roles[roles[c].parent].level == roles[c].level + 1
      && Points(m, roles[c].parent, roles[c].slot, c)
  }

  /** Managed leaf entries and data frames are in bijection, except for the slots in limbo. */
  ghost predicate LeavesDown(m: Memory, roles: Roles, limbo: set<Slot>) {
    forall t, i: Index :: IsManagedLeaf(roles, t) && t in m && Present(m[t][i]) && (t, i) !in limbo ==>
      AddressBits(m[t][i]) in roles && roles[AddressBits(m[t][i])] == Data(t, i)
  }

  ghost predicate LeavesUp(m: Memory, roles: Roles, limbo: set<Slot>) {
    forall d :: d in roles && roles[d].Data? ==>
      && IsManagedLeaf(roles, roles[d].table)
      && (roles[d].table, roles[d].slot) !in limbo
      && Points(m, roles[d].table, roles[d].slot, d)
  }

  /** The frames of `free`, in order, linked through their first words. */
  ghost predicate Linked(m: Memory, free: seq<nat>) {
    forall k :: 0 <= k < |free| ==> free[k] in m && m[free[k]][0] == Head(free[k + 1..])
  }

  ghost predicate FreeExactly(roles: Roles, free: seq<nat>) {
    forall f :: f in roles ==> (roles[f] == Free <==> f in free)
  }

  ghost predicate FreeList(s: Physical, g: Ledger) {
    && s.pageList == Head(g.free)
    && Linked(s.memory, g.free)
    && Distinct(g.free)
    && FreeExactly(g.roles, g.free)
  }

  ghost predicate FrameAddresses(m: Memory) {
    forall f :: f in m ==> IsFrameAddress(f)
  }

  /** The tables are trees of distinct frames, apart from the free list. */
  ghost predicate Inv(s: Physical, g: Ledger) {
    && FrameAddresses(s.memory)
    && TreeDown(s.memory, g.roles)
    && TreeUp(s.memory, g.roles)
    && FreeList(s, g)
  }

  ghost predicate Leaves(m: Memory, g: Ledger) {
    LeavesDown(m, g.roles, g.limbo) && LeavesUp(m, g.roles, g.limbo)
  }

  predicate IsRoot(roles: Roles, t: nat) {
    IsTable(roles, t) && roles[t].level == 4
  }

  // ----- walks and ownership

  /** A walk reads table frames only. */
  lemma {:induction false} WalkReadsTables(m: Memory, n: Memory, roles: Roles, t: nat, level: nat, p: Path)
    requires TreeDown(m, roles) && n.Keys == m.Keys
    requires forall u :: IsTable(roles, u) ==> n[u] == m[u]
    requires IsTable(roles, t) && roles[t].level == level
    ensures Walk(n, t, level, p) == Walk(m, t, level, p)
    ensures LeafTable(n, t, level, p) == LeafTable(m, t, level, p)
    ensures Missing(n, t, level, p) == Missing(m, t, level, p)
    decreases level
  {
    if level > 1 && Present(m[t][p.At(level)]) {
      WalkReadsTables(m, n, roles, AddressBits(m[t][p.At(level)]), level - 1, p);
    }
  }

  /** A walk that is not cut short ends in a last-level table. */
  lemma {:induction false} LeafTableIsTable(m: Memory, roles: Roles, t: nat, level: nat, p: Path)
    requires TreeDown(m, roles) && IsTable(roles, t) && roles[t].level == level && 0 !in m
    ensures var x := LeafTable(m, t, level, p);
            if x == 0 then Walk(m, t, level, p) == 0
            else IsTable(roles, x) && roles[x].level == 1 && Walk(m, t, level, p) == m[x][p.l1]
    ensures (LeafTable(m, t, level, p) == 0) == (Missing(m, t, level, p) > 0)
    ensures level < 4 && LeafTable(m, t, level, p) != 0 ==> roles[LeafTable(m, t, level, p)].managed == roles[t].managed
    ensures level == 4 && LeafTable(m, t, level, p) != 0 ==>
              roles[LeafTable(m, t, level, p)].managed == ManagedSlot(roles[t], p.l4)
    decreases level
  {
    if level > 1 && Present(m[t][p.At(level)]) {
      LeafTableIsTable(m, roles, AddressBits(m[t][p.At(level)]), level - 1, p);
    }
  }

  /** Walks below the roots meet in a table only when they start in the same table and follow the same slots. */
  lemma {:induction false} WalksDoNotMeet(m: Memory, roles: Roles, t: nat, u: nat, level: nat, p: Path, q: Path)
    requires TreeDown(m, roles) && 1 <= level <= 3 && 0 !in m
    requires IsTable(roles, t) && IsTable(roles, u) && roles[t].level == roles[u].level == level
    requires LeafTable(m, t, level, p) == LeafTable(m, u, level, q) != 0
    ensures t == u
    ensures level > 1 ==> p.l2 == q.l2
    ensures level > 2 ==> p.l3 == q.l3
    decreases level
  {
    if level > 1 {
      WalksDoNotMeet(m, roles, AddressBits(m[t][p.At(level)]), AddressBits(m[u][q.At(level)]), level - 1, p, q);
    }
  }

  /** Do the two roots use the same table, or the same kernel half, for top-level slot i? */
  predicate Alias(m: Memory, r: nat, root: nat, i: Index) {
    || r == root
    || (i >= 256 && r in m && root in m && Present(m[r][i]) && Present(m[root][i])
        && AddressBits(m[r][i]) == AddressBits(m[root][i]))
  }

  /** Two root walks end in the same last-level table exactly when they share the top slot and follow it alike. */
  lemma RootsMeet(m: Memory, roles: Roles, r: nat, root: nat, q: Path, p: Path)
    requires TreeDown(m, roles) && 0 !in m && IsRoot(roles, r) && IsRoot(roles, root)
    requires LeafTable(m, root, 4, p) != 0
    ensures LeafTable(m, r, 4, q) == LeafTable(m, root, 4, p)
       <==> Alias(m, r, root, p.l4) && q.l4 == p.l4 && q.l3 == p.l3 && q.l2 == p.l2
  {
    if LeafTable(m, r, 4, q) == LeafTable(m, root, 4, p) {
      WalksDoNotMeet(m, roles, AddressBits(m[r][q.l4]), AddressBits(m[root][p.l4]), 3, q, p);
    }
    if Alias(m, r, root, p.l4) && q.l4 == p.l4 && q.l3 == p.l3 && q.l2 == p.l2 {
      SamePrefix(m, AddressBits(m[root][p.l4]), 3, q, p);
    }
  }

  lemma {:induction false} SamePrefix(m: Memory, t: nat, level: nat, q: Path, p: Path)
    requires 1 <= level <= 3 && q.l3 == p.l3 && q.l2 == p.l2
    ensures LeafTable(m, t, level, q) == LeafTable(m, t, level, p)
    decreases level
  {
    if level > 1 && t in m && Present(m[t][p.At(level)]) {
      SamePrefix(m, AddressBits(m[t][p.At(level)]), level - 1, q, p);
    }
  }
}
