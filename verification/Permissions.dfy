/** What access a mapped page grants: the flags of its own entry and of the table entries above it (paging.c). */
module Permissions {
  import opened Words
  import opened PageTables
  import opened Mapping
  import opened AddressSpaces

  // ----- the entry of a page

  /** The entry is present, names the frame of paddr, and has the flags on both sides of the address. */
  predicate Grants(entry: Word, paddr: Word, flags: Word) {
    && entry % 2 == 1
    && entry % 0x1000 / 2 == flags % 0x1000 / 2
    && entry / 0x10_0000_0000_0000 == flags / 0x10_0000_0000_0000
    && entry / 0x1000 % 0x100_0000_0000 == paddr / 0x1000 % 0x100_0000_0000
  }

  lemma SplitWord(field: nat, flags: Word)
    requires field < 0x100_0000_0000 && flags / 0x1000 % 0x100_0000_0000 == 0
    ensures (field * 0x1000 + flags) % 0x1000 == flags % 0x1000
    ensures (field * 0x1000 + flags) / 0x1000 == field + flags / 0x1000
    ensures (field * 0x1000 + flags) / 0x10_0000_0000_0000 == flags / 0x10_0000_0000_0000
    ensures (field * 0x1000 + flags) / 0x1000 % 0x100_0000_0000 == field
  {
    var upper := flags / 0x1000 / 0x100_0000_0000;
    assert flags / 0x1000 == upper * 0x100_0000_0000;
    assert (field * 0x1000 + flags) / 0x1000 == field + upper * 0x100_0000_0000;
  }

  lemma SetLowBit(flags: nat)
    requires flags % 2 == 0
    ensures (flags + 1) / 0x1000 == flags / 0x1000 && (flags + 1) % 0x1000 == flags % 0x1000 + 1
    ensures flags % 0x1000 % 2 == 0
  {
  }

  lemma UpperBits(flags: nat)
    ensures flags / 0x10_0000_0000_0000 == flags / 0x1000 / 0x100_0000_0000
  {
  }

  lemma ClearField(flags: Word)
    requires CleanFlags(flags)
    ensures flags / 0x1000 % 0x100_0000_0000 == 0
  {
  }

  lemma PresentFlags(flags: Word)
    requires CleanFlags(flags)
    ensures var w := WithPresent(flags);
            && w / 0x1000 == flags / 0x1000 && w % 0x1000 / 2 == flags % 0x1000 / 2 && w % 2 == 1
  {
    if flags % 2 == 0 {
      SetLowBit(flags);
    }
  }

  lemma LeafGrants(paddr: Word, flags: Word)
    requires CleanFlags(flags)
    ensures Grants(LeafEntry(paddr, flags), paddr, flags)
  {
    hide WithPresent, CleanFlags;
    PresentFlags(flags);
    ClearField(flags);
    UpperBits(flags);
    UpperBits(WithPresent(flags));
    SplitWord(paddr / 0x1000 % 0x100_0000_0000, WithPresent(flags));
  }

  /** These fields leave no bit of the entry open. */
  lemma OneEntryGrants(a: Word, b: Word, paddr: Word, flags: Word)
    requires Grants(a, paddr, flags) && Grants(b, paddr, flags)
    ensures a == b
  {
    WordParts(a);
    WordParts(b);
  }

  lemma WordParts(w: Word)
    ensures w == w / 0x10_0000_0000_0000 * 0x10_0000_0000_0000 + w / 0x1000 % 0x100_0000_0000 * 0x1000
                 + w % 0x1000 / 2 * 2 + w % 2
  {
  }

  /** map_page: the page grants what was asked for, through every root that shares it. */
  lemma MapPageGrants(s: Physical, g: Ledger, root: nat, p: Path, paddr: Word, flags: Word, r: nat)
    requires CanMap(s, g, root, 4, p) && CleanFlags(flags) && IsRoot(g.roles, r) && Alias(s.memory, r, root, p.l4)
    ensures Grants(Lookup(MapPage(s, root, p, paddr, flags).memory, r, p), paddr, flags)
  {
    hide Inv, Walk, MapFrom, Grants, LeafEntry;
    MapPageLookup(s, g, root, p, paddr, flags, r, p);
    LeafGrants(paddr, flags);
  }

  /** paging_map_page: so does every page of the range, each on its own frame. */
  lemma MapRangeGrants(s: Physical, g: Ledger, root: nat, vaddr: Word, paddr: Word, flags: Word, n: nat, u: Word)
    requires CleanFlags(flags) && CanMapSteps(s, g, root, RangeSteps(vaddr, paddr, n), flags)
    requires n <= PAGE_COUNT && IsRoot(g.roles, root) && Offset(vaddr, u) < n
    ensures Grants(Lookup(MapSteps(s, root, RangeSteps(vaddr, paddr, n), flags).memory, root, PathOf(u)),
                   PageStep(paddr, Offset(vaddr, u)), flags)
  {
    hide CanMapSteps, MapSteps, RangeSteps, Walk, Grants, LeafEntry, PathOf;
    MapRangeLookup(s, g, root, vaddr, paddr, flags, n, root, u);
    LeafGrants(PageStep(paddr, Offset(vaddr, u)), flags);
  }

  // ----- the entries of the tables above

  /** The present entry of an inner table is the old one, or new with the bits that the flags ask for. */
  predicate OldOrNew(s: Physical, g: Ledger, n: Memory, flags: Word, u: nat, j: Index)
    requires u in n
  {
    || (IsTable(g.roles, u) && u in s.memory && Present(s.memory[u][j]) && n[u][j] == s.memory[u][j])
    || (n[u][j] % 0x1000 == (if flags / 4 % 2 == 1 then 7 else 3) && n[u][j] < 0x10_0000_0000_0000)
  }

  lemma TableBits(frame: Word, flags: Word)
    ensures TableEntry(frame, flags) % 0x1000 == if flags / 4 % 2 == 1 then 7 else 3
  {
  }

  lemma GrowAdds(s: Physical, g: Ledger, t: nat, i: Index, flags: Word, u: nat, j: Index)
    requires CanGrow(s, g, t, i) && s.pageList in s.memory && t in s.memory
    requires u in Grow(s, t, i, flags).memory && IsTable(GrowLedger(s, g, t, i).roles, u)
    requires Present(Grow(s, t, i, flags).memory[u][j])
    ensures OldOrNew(s, g, Grow(s, t, i, flags).memory, flags, u, j)
  {
    hide Grow, TreeDown, TreeUp;
    GrowFacts(s, g, t, i, flags);
    TableBits(s.pageList, flags);
  }

  /** Every entry that map_page adds to an inner table is PRESENT and RW, and USER exactly when the page is. */
  lemma {:induction false} MapAdds(s: Physical, g: Ledger, t: nat, level: nat, p: Path, paddr: Word, flags: Word,
                                   u: nat, j: Index)
    requires CanMap(s, g, t, level, p) && CleanFlags(flags)
    requires var h := MapLedger(s, g, t, level, p, flags).roles; IsTable(h, u) && h[u].level > 1
    ensures u in MapFrom(s, t, level, p, paddr, flags).memory
    ensures var n := MapFrom(s, t, level, p, paddr, flags).memory;
            Present(n[u][j]) ==> OldOrNew(s, g, n, flags, u, j)
    decreases level
  {
    hide TreeUp, FreeList, FrameAddresses, Grow;
    MapKeepsInv(s, g, t, level, p, paddr, flags);
    if level > 1 {
      MapStep(s, g, t, level, p, flags);
      if Present(s.memory[t][p.At(level)]) {
        MapAdds(s, g, AddressBits(s.memory[t][p.At(level)]), level - 1, p, paddr, flags, u, j);
      } else {
        var grown, ledger := Grow(s, t, p.At(level), flags), GrowLedger(s, g, t, p.At(level));
        MapAdds(grown, ledger, s.pageList, level - 1, p, paddr, flags, u, j);
        var n := MapFrom(grown, s.pageList, level - 1, p, paddr, flags).memory;
        if Present(n[u][j]) && IsTable(ledger.roles, u) && u in grown.memory && Present(grown.memory[u][j]) {
          GrowAdds(s, g, t, p.At(level), flags, u, j);
        }
      }
    }
  }

  // ----- whole walks

  /** No table entry on the way, as far as it goes, withholds writing or user access. */
  predicate Open(m: Memory, t: nat, level: nat, p: Path)
    requires 1 <= level <= 4
    decreases level
  {
    level == 1 || t !in m || m[t][p.At(level)] % 2 == 0
    || (m[t][p.At(level)] % 8 == 7 && Open(m, AddressBits(m[t][p.At(level)]), level - 1, p))
  }

  lemma {:induction false} LeafWriteOpen(m: Memory, roles: Roles, x: nat, i: Index, w: Word, u: nat, height: nat,
                                         q: Path)
    requires TreeDown(m, roles) && IsTable(roles, x) && roles[x].level == 1
    requires IsTable(roles, u) && roles[u].level == height
    ensures Open(Put(m, x, i, w), u, height, q) == Open(m, u, height, q)
    ensures Missing(Put(m, x, i, w), u, height, q) == Missing(m, u, height, q)
    decreases height
  {
    if height > 1 && Present(m[u][q.At(height)]) {
      LeafWriteOpen(m, roles, x, i, w, AddressBits(m[u][q.At(height)]), height - 1, q);
    }
  }

  /** The way to q is as open as it was, unless a table without USER has been hung into it. */
  predicate OpensLike(m: Memory, n: Memory, u: nat, height: nat, q: Path, flags: Word)
    requires 1 <= height <= 4
  {
    && Missing(n, u, height, q) <= Missing(m, u, height, q)
    && (Open(n, u, height, q) <==>
        Open(m, u, height, q) && (flags / 4 % 2 == 1 || Missing(n, u, height, q) == Missing(m, u, height, q)))
  }

  lemma {:induction false} GrowOpens(s: Physical, g: Ledger, t: nat, i: Index, flags: Word, u: nat, height: nat,
                                     q: Path)
    requires CanGrow(s, g, t, i) && s.pageList in s.memory && t in s.memory
    requires IsTable(g.roles, u) && g.roles[u].level == height && 1 <= height <= 4
    ensures OpensLike(s.memory, Grow(s, t, i, flags).memory, u, height, q, flags)
    decreases height
  {
    hide Inv, Grow, TableEntry;
    GrowFacts(s, g, t, i, flags);
    var n := Grow(s, t, i, flags).memory;
    if height > 1 {
      var j := q.At(height);
      StepDown(s, g, u, j);
      if u == t && j == i {
        TableEight(s.pageList, flags);
        MissingInFreshTable(n, s.pageList, height - 1, q);
        OpenInFreshTable(n, s.pageList, height - 1, q);
      } else if Present(s.memory[u][j]) {
        GrowOpens(s, g, t, i, flags, AddressBits(s.memory[u][j]), height - 1, q);
      }
    }
  }

  /** A present entry of an inner table leads to a table one level down. */
  lemma StepDown(s: Physical, g: Ledger, u: nat, j: Index)
    requires Inv(s, g) && IsTable(g.roles, u) && g.roles[u].level > 1
    ensures u in s.memory && g.roles[u] != Free
    ensures Present(s.memory[u][j]) ==>
              IsTable(g.roles, AddressBits(s.memory[u][j]))
              && g.roles[AddressBits(s.memory[u][j])].level == g.roles[u].level - 1
  {
    hide TreeUp, FreeList;
  }

  lemma TableEight(frame: Word, flags: Word)
    ensures TableEntry(frame, flags) % 8 == if flags / 4 % 2 == 1 then 7 else 3
  {
  }

  lemma OpenInFreshTable(m: Memory, f: nat, level: nat, q: Path)
    requires f in m && m[f] == ZeroFrame() && 1 <= level <= 4
    ensures Open(m, f, level, q)
  {
  }

  lemma {:induction false} MapOpens(s: Physical, g: Ledger, t: nat, level: nat, p: Path, paddr: Word, flags: Word,
                                    u: nat, height: nat, q: Path)
    requires CanMap(s, g, t, level, p) && CleanFlags(flags)
    requires IsTable(g.roles, u) && g.roles[u].level == height && 1 <= height <= 4
    ensures OpensLike(s.memory, MapFrom(s, t, level, p, paddr, flags).memory, u, height, q, flags)
    decreases level
  {
    hide TreeUp, FreeList, Grow, Open, Missing, LeafEntry;
    if level == 1 {
      LeafWriteOpen(s.memory, g.roles, t, p.l1, LeafEntry(paddr, flags), u, height, q);
    } else {
      MapStep(s, g, t, level, p, flags);
      if Present(s.memory[t][p.At(level)]) {
        MapOpens(s, g, AddressBits(s.memory[t][p.At(level)]), level - 1, p, paddr, flags, u, height, q);
      } else {
        var grown, ledger := Grow(s, t, p.At(level), flags), GrowLedger(s, g, t, p.At(level));
        GrowOpens(s, g, t, p.At(level), flags, u, height, q);
        StaysTable(s, g, t, p.At(level), u);
        MapOpens(grown, ledger, s.pageList, level - 1, p, paddr, flags, u, height, q);
      }
    }
  }

  lemma StaysTable(s: Physical, g: Ledger, t: nat, i: Index, u: nat)
    requires CanGrow(s, g, t, i) && IsTable(g.roles, u)
    ensures IsTable(GrowLedger(s, g, t, i).roles, u) && GrowLedger(s, g, t, i).roles[u] == g.roles[u]
  {
    HeadIsFree(s, g);
  }

  lemma UnmapOpens(s: Physical, g: Ledger, root: nat, p: Path, r: nat, q: Path)
    requires Inv(s, g) && IsRoot(g.roles, root) && IsRoot(g.roles, r)
    ensures Open(UnmapPage(s, root, p).memory, r, 4, q) == Open(s.memory, r, 4, q)
    ensures Missing(UnmapPage(s, root, p).memory, r, 4, q) == Missing(s.memory, r, 4, q)
  {
    hide Open, Missing, LeafTable;
    UnmapIsLeafWrite(s.memory, g.roles, root, 4, p);
    LeafTableIsTable(s.memory, g.roles, root, 4, p);
    var x := LeafTable(s.memory, root, 4, p);
    if x != 0 {
      LeafWriteOpen(s.memory, g.roles, x, p.l1, 0, r, 4, q);
    }
  }

  // ----- runs

  /** The call hangs a table without USER into the way of r to q. */
  predicate Closes(s: Physical, op: Op, r: nat, q: Path) {
    op.MapOp? && op.flags / 4 % 2 == 0 && Missing(Apply(s, op).memory, r, 4, q) < Missing(s.memory, r, 4, q)
  }

  lemma StepOpens(s: Physical, g: Ledger, op: Op, r: nat, q: Path)
    requires Inv(s, g) && Allowed(s, g, op) && IsRoot(g.roles, r)
    ensures Open(Apply(s, op).memory, r, 4, q) <==> Open(s.memory, r, 4, q) && !Closes(s, op, r, q)
    ensures IsRoot(ApplyLedger(s, g, op).roles, r)
  {
    hide Inv, Open, Missing, MapFrom, UnmapPage;
    match op
    case MapOp(root, p, paddr, flags) =>
      MapOpens(s, g, root, 4, p, paddr, flags, r, 4, q);
      MapKeepsRoles(s, g, root, 4, p, flags, r);
    case UnmapOp(root, p) => UnmapOpens(s, g, root, p, r, q);
  }

  /** The i-th call of the run closes the way. */
  predicate ClosesAt(s: Physical, ops: seq<Op>, r: nat, q: Path, i: nat) {
    i < |ops| && Closes(Run(s, ops[..i]), ops[i], r, q)
  }

  lemma ClosesLater(s: Physical, ops: seq<Op>, r: nat, q: Path, i: nat)
    requires ops != []
    ensures ClosesAt(s, ops, r, q, i + 1) <==> ClosesAt(Apply(s, ops[0]), ops[1..], r, q, i)
    ensures ClosesAt(s, ops, r, q, 0) <==> Closes(s, ops[0], r, q)
  {
    hide Apply, Closes;
    if i + 1 < |ops| {
      assert ops[..i + 1][0] == ops[0] && ops[..i + 1][1..] == ops[1..][..i];
    }
    assert ops[..0] == [];
  }

  lemma LaterCloses(s: Physical, ops: seq<Op>, r: nat, q: Path)
    requires ops != []
    ensures (exists i: nat :: ClosesAt(s, ops, r, q, i))
       <==> Closes(s, ops[0], r, q) || exists i: nat :: ClosesAt(Apply(s, ops[0]), ops[1..], r, q, i)
  {
    hide Apply, Closes, ClosesAt;
    ClosesLater(s, ops, r, q, 0);
    if i: nat :| ClosesAt(s, ops, r, q, i) {
      if i > 0 {
        ClosesLater(s, ops, r, q, i - 1);
      }
    }
    if i: nat :| ClosesAt(Apply(s, ops[0]), ops[1..], r, q, i) {
      ClosesLater(s, ops, r, q, i);
    }
  }

  /** Over every run of maps and unmaps, the way of a root to a page is open in the end exactly when it was open before
      and no call hung a table without USER into it. */
  lemma {:induction false} RunOpensExactly(s: Physical, g: Ledger, ops: seq<Op>, r: nat, q: Path)
    requires Inv(s, g) && AllAllowed(s, g, ops) && IsRoot(g.roles, r)
    ensures Open(Run(s, ops).memory, r, 4, q)
       <==> Open(s.memory, r, 4, q) && forall i: nat :: !ClosesAt(s, ops, r, q, i)
    decreases |ops|
  {
    hide Inv, Open, Allowed, Apply, ApplyLedger, ClosesAt, Closes;
    if ops == [] {
      NoneCloses(s, r, q);
    } else {
      StepOpens(s, g, ops[0], r, q);
      StepKeepsInv(s, g, ops[0]);
      RunOpensExactly(Apply(s, ops[0]), ApplyLedger(s, g, ops[0]), ops[1..], r, q);
      LaterCloses(s, ops, r, q);
    }
  }

  lemma NoneCloses(s: Physical, r: nat, q: Path)
    ensures forall i: nat :: !ClosesAt(s, [], r, q, i)
    ensures Run(s, []) == s
  {
  }
}
