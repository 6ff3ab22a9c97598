/** vm_space_create, and the bookkeeping words of a space record (vm.c). */
module VmCreation {
  import opened Lists
  import opened Words
  import opened PageTables
  import opened Mapping
  import opened AddressSpaces
  import opened Ownership
  import opened VmPages
  import opened VmSpaces
  import opened VmAllocation

  // ----- heap bounds and next_free

  /** Words other than the root and the region list. */
  predicate Bookkeeping(i: Index) {
    i != SPACE_PML4 && i != SPACE_REGIONS
  }

  lemma SpaceWordKeepsSpace(s: Physical, g: Ledger, spaces: Spaces, space: nat, i: Index, w: Word, sp: nat)
    requires VmInv(s, g, spaces) && space in spaces && space in s.memory && Bookkeeping(i) && sp in spaces
    ensures SpaceOk(WithWord(s, space, i, w).memory, g.roles, sp, spaces[sp])
  {
    hide VmInv, Chain, Layout, Covers, Walk, Settled, PathsOf;
    var n := WithWord(s, space, i, w).memory;
    SpaceFacts(s, g, spaces, space);
    SpaceFacts(s, g, spaces, sp);
    RegionsInMemory(s, g, spaces, sp);
    forall p: Path | p.l4 < 256
      ensures Lookup(n, RootOf(s.memory, sp), p) == Lookup(s.memory, RootOf(s.memory, sp), p) {
      VmInvInv(s, g, spaces);
      RecordWriteWalk(s, g, space, i, w, RootOf(s.memory, sp), p);
    }
    SpaceFrame(s.memory, n, g.roles, g.roles, sp, spaces[sp]);
  }

  lemma VmInvInv(s: Physical, g: Ledger, spaces: Spaces)
    requires VmInv(s, g, spaces)
    ensures Inv(s, g) && Settled(s, g) && Accounted(s.memory, g.roles, spaces)
  {
  }

  lemma RegionsInMemory(s: Physical, g: Ledger, spaces: Spaces, sp: nat)
    requires VmInv(s, g, spaces) && sp in spaces
    ensures forall k :: 0 <= k < |spaces[sp]| ==> spaces[sp][k].record in s.memory && spaces[sp][k].record in g.roles
                                                  && g.roles[spaces[sp][k].record] == RegionRecord(sp)
  {
    hide Chain, Layout, Covers, Accounted;
  }

  lemma SpaceWordKeepsVm(s: Physical, g: Ledger, spaces: Spaces, space: nat, i: Index, w: Word)
    requires VmInv(s, g, spaces) && space in spaces && Bookkeeping(i)
    ensures space in s.memory && VmInv(WithWord(s, space, i, w), g, spaces)
  {
    hide VmInv, SpaceOk, Settled;
    SpaceFacts(s, g, spaces, space);
    VmInvInv(s, g, spaces);
    RecordWrite(s, g, space, i, w);
    forall sp | sp in spaces ensures SpaceOk(WithWord(s, space, i, w).memory, g.roles, sp, spaces[sp]) {
      SpaceWordKeepsSpace(s, g, spaces, space, i, w, sp);
    }
    forall sp | sp in spaces ensures RootOf(WithWord(s, space, i, w).memory, sp) == RootOf(s.memory, sp) {
    }
    SameRootsAccount(s.memory, WithWord(s, space, i, w).memory, g.roles, spaces);
    VmInvOf(WithWord(s, space, i, w), g, spaces);
  }

  lemma SameRootsAccount(m: Memory, n: Memory, roles: Roles, spaces: Spaces)
    requires Accounted(m, roles, spaces)
    requires forall sp :: sp in spaces ==> RootOf(n, sp) == RootOf(m, sp)
    ensures Accounted(n, roles, spaces)
  {
    forall t | ManagedRoot(roles, t) ensures exists sp :: sp in spaces && RootOf(n, sp) == t {
      var sp :| sp in spaces && RootOf(m, sp) == t;
      assert RootOf(n, sp) == t;
    }
  }

  // ----- vm_space_create

  ghost predicate CanCreateSpace(s: Physical, g: Ledger, spaces: Spaces, kernel: nat) {
    VmInv(s, g, spaces) && |g.free| >= 2 && IsRoot(g.roles, kernel)
  }

  function SpaceWords(record: Frame, root: Word, base: Word, end: Word): Frame {
    record[SPACE_PML4 := root][SPACE_HEAP_BASE := base][SPACE_HEAP_END := end]
          [SPACE_NEXT_FREE := base][SPACE_REGIONS := 0]
  }

  /** The second frame of the free list becomes the root, the first the record. */
  function RootFrame(s: Physical): Word {
    if s.pageList in s.memory then s.memory[s.pageList][0] else 0
  }

  function CreateSpace(s: Physical, kernel: nat, base: Word, end: Word): Physical {
    if s.pageList in s.memory && kernel in s.memory && RootFrame(s) in s.memory then
      var t := CreateRoot(Pop(s), kernel);
      t.(memory := t.memory[s.pageList := SpaceWords(s.memory[s.pageList], RootFrame(s), base, end)])
    else s
  }

  function CreateSpaceLedger(s: Physical, g: Ledger): Ledger
    requires |g.free| >= 2
  {
    CreateRootLedger(s.(pageList := RootFrame(s)), TagLedger(s, g, SpaceRecord))
  }

  lemma CreateFacts(s: Physical, g: Ledger, spaces: Spaces, kernel: nat)
    requires CanCreateSpace(s, g, spaces, kernel)
    ensures s.pageList in s.memory && kernel in s.memory && RootFrame(s) in s.memory
    ensures s.pageList in g.roles && g.roles[s.pageList] == Free && RootFrame(s) in g.roles
            && g.roles[RootFrame(s)] == Free
    ensures RootFrame(s) != s.pageList && kernel != s.pageList && kernel != RootFrame(s) && s.pageList != 0
    ensures Pop(s) == s.(pageList := RootFrame(s))
    ensures Settled(Pop(s), TagLedger(s, g, SpaceRecord)) && CanCreate(Pop(s), TagLedger(s, g, SpaceRecord), kernel)
  {
    hide SpaceOk, Accounted, Leaves;
    TagSettles(s, g, SpaceRecord);
    HeadIsFree(s, g);
    HeadIsFree(Pop(s), TagLedger(s, g, SpaceRecord));
  }

  lemma CreateRootKeepsLeaves(s: Physical, g: Ledger, kernel: nat)
    requires CanCreate(s, g, kernel) && Leaves(s.memory, g) && s.pageList in s.memory
    ensures Leaves(CreateRoot(s, kernel).memory, CreateRootLedger(s, g))
  {
    HeadIsFree(s, g);
    var n, h := CreateRoot(s, kernel).memory, CreateRootLedger(s, g);
    forall d | d in h.roles && h.roles[d].Data?
      ensures IsManagedLeaf(h.roles, h.roles[d].table) && (h.roles[d].table, h.roles[d].slot) !in h.limbo
           && Points(n, h.roles[d].table, h.roles[d].slot, d)
    {
      assert Points(s.memory, h.roles[d].table, h.roles[d].slot, d);
    }
  }

  lemma RootSettles(s: Physical, g: Ledger, spaces: Spaces, kernel: nat)
    requires CanCreateSpace(s, g, spaces, kernel)
    ensures s.pageList in s.memory && kernel in s.memory && RootFrame(s) in s.memory
    ensures Settled(CreateRoot(Pop(s), kernel), CreateSpaceLedger(s, g))
    ensures s.pageList in CreateSpaceLedger(s, g).roles && CreateSpaceLedger(s, g).roles[s.pageList] == SpaceRecord
  {
    hide Inv, Leaves, VmInv;
    CreateFacts(s, g, spaces, kernel);
    CreateKeepsInv(Pop(s), TagLedger(s, g, SpaceRecord), kernel);
    CreateRootKeepsLeaves(Pop(s), TagLedger(s, g, SpaceRecord), kernel);
  }

  /** Overwriting a whole record at once, as its five stores do one by one. */
  lemma RecordOverwrite(s: Physical, g: Ledger, f: nat, words: Frame)
    requires Settled(s, g) && f in g.roles && RecordRole(g.roles[f])
    ensures f in s.memory && Settled(s.(memory := s.memory[f := words]), g)
  {
    var n := s.memory[f := words];
    forall k | 0 <= k < |g.free| ensures g.free[k] in n && n[g.free[k]][0] == Head(g.free[k + 1..]) {
      assert g.free[k] in g.free;
    }
    OverwriteKeepsTrees(s.memory, g.roles, f, words);
    OverwriteKeepsLeaves(s.memory, g, f, words);
  }

  lemma OverwriteKeepsTrees(m: Memory, roles: Roles, f: nat, words: Frame)
    requires TreeDown(m, roles) && TreeUp(m, roles) && f in roles && !roles[f].Table?
    ensures TreeDown(m[f := words], roles) && TreeUp(m[f := words], roles)
  {
    var n := m[f := words];
    forall u, j: Index | IsTable(roles, u) && roles[u].level > 1 && Present(n[u][j])
      ensures Child(roles, u, j, AddressBits(n[u][j]))
    {
      assert Child(roles, u, j, AddressBits(m[u][j]));
    }
    forall c: nat | IsTable(roles, c) && roles[c].level < 4
      ensures IsTable(roles, roles[c].parent) && roles[roles[c].parent].level == roles[c].level + 1
           && Points(n, roles[c].parent, roles[c].slot, c)
    {
      assert Points(m, roles[c].parent, roles[c].slot, c);
    }
  }

  lemma OverwriteKeepsLeaves(m: Memory, g: Ledger, f: nat, words: Frame)
    requires Leaves(m, g) && f in m && f in g.roles && !g.roles[f].Table?
    ensures Leaves(m[f := words], g)
  {
    forall d | d in g.roles && g.roles[d].Data?
      ensures IsManagedLeaf(g.roles, g.roles[d].table) && (g.roles[d].table, g.roles[d].slot) !in g.limbo
           && Points(m[f := words], g.roles[d].table, g.roles[d].slot, d)
    {
      assert Points(m, g.roles[d].table, g.roles[d].slot, d);
    }
  }

  lemma CreateSpaceSettles(s: Physical, g: Ledger, spaces: Spaces, kernel: nat, base: Word, end: Word)
    requires CanCreateSpace(s, g, spaces, kernel)
    ensures Settled(CreateSpace(s, kernel, base, end), CreateSpaceLedger(s, g))
  {
    hide VmInv, Settled, CreateRoot;
    RootSettles(s, g, spaces, kernel);
    RecordOverwrite(CreateRoot(Pop(s), kernel), CreateSpaceLedger(s, g), s.pageList,
                    SpaceWords(s.memory[s.pageList], RootFrame(s), base, end));
  }

  /** A new space maps nothing below and reads like the kernel above; no older root reads differently. */
  lemma CreateSpaceLookup(s: Physical, g: Ledger, spaces: Spaces, kernel: nat, base: Word, end: Word, r: nat, q: Path)
    requires CanCreateSpace(s, g, spaces, kernel) && (r == RootFrame(s) || IsRoot(g.roles, r))
    ensures Lookup(CreateSpace(s, kernel, base, end).memory, r, q) ==
            if r != RootFrame(s) then Lookup(s.memory, r, q) else if q.l4 < 256 then 0 else Lookup(s.memory, kernel, q)
  {
    hide VmInv, Settled, Walk, CreateRoot, Inv;
    CreateFacts(s, g, spaces, kernel);
    RootSettles(s, g, spaces, kernel);
    CreateRootLookup(Pop(s), TagLedger(s, g, SpaceRecord), kernel, r, q);
    OverwriteWalk(CreateRoot(Pop(s), kernel), CreateSpaceLedger(s, g), s.pageList,
                  SpaceWords(s.memory[s.pageList], RootFrame(s), base, end), r, q);
  }

  lemma OverwriteWalk(s: Physical, g: Ledger, f: nat, words: Frame, r: nat, q: Path)
    requires Settled(s, g) && f in g.roles && RecordRole(g.roles[f]) && IsRoot(g.roles, r)
    ensures f in s.memory && Lookup(s.memory[f := words], r, q) == Lookup(s.memory, r, q)
  {
    WalkReadsTables(s.memory, s.memory[f := words], g.roles, r, 4, q);
  }

  lemma NewSpaceIsOk(s: Physical, g: Ledger, spaces: Spaces, kernel: nat, base: Word, end: Word)
    requires CanCreateSpace(s, g, spaces, kernel)
    ensures SpaceOk(CreateSpace(s, kernel, base, end).memory, CreateSpaceLedger(s, g).roles, s.pageList, [])
  {
    hide VmInv, Settled, Walk, Inv;
    CreateFacts(s, g, spaces, kernel);
    forall q: Path | q.l4 < 256 ensures Lookup(CreateSpace(s, kernel, base, end).memory, RootFrame(s), q) == 0 {
      CreateSpaceLookup(s, g, spaces, kernel, base, end, RootFrame(s), q);
    }
  }

  lemma OldSpaceIsKept(s: Physical, g: Ledger, spaces: Spaces, kernel: nat, base: Word, end: Word, sp: nat)
    requires CanCreateSpace(s, g, spaces, kernel) && sp in spaces
    ensures SpaceOk(CreateSpace(s, kernel, base, end).memory, CreateSpaceLedger(s, g).roles, sp, spaces[sp])
  {
    hide VmInv, Settled, Walk, Inv, Chain, Layout, Covers;
    var n := CreateSpace(s, kernel, base, end).memory;
    CreateFacts(s, g, spaces, kernel);
    SpaceFacts(s, g, spaces, sp);
    RegionsInMemory(s, g, spaces, sp);
    forall q: Path | q.l4 < 256
      ensures Lookup(n, RootOf(s.memory, sp), q) == Lookup(s.memory, RootOf(s.memory, sp), q) {
      CreateSpaceLookup(s, g, spaces, kernel, base, end, RootOf(s.memory, sp), q);
    }
    SpaceFrame(s.memory, n, g.roles, CreateSpaceLedger(s, g).roles, sp, spaces[sp]);
  }

  lemma CreateSpaceAccounts(s: Physical, g: Ledger, spaces: Spaces, kernel: nat, base: Word, end: Word)
    requires CanCreateSpace(s, g, spaces, kernel)
    ensures s.pageList !in spaces
    ensures Accounted(CreateSpace(s, kernel, base, end).memory, CreateSpaceLedger(s, g).roles, spaces[s.pageList := []])
  {
    hide SpaceOk, Settled, Inv;
    CreateFacts(s, g, spaces, kernel);
    var n, roles := CreateSpace(s, kernel, base, end).memory, CreateSpaceLedger(s, g).roles;
    var all: Spaces := spaces[s.pageList := []];
    forall sp | sp in spaces
      ensures sp != s.pageList && sp != RootFrame(s) && RootOf(n, sp) == RootOf(s.memory, sp)
              && RootOf(n, sp) != RootFrame(s) {
      SpaceFacts(s, g, spaces, sp);
    }
    assert RootOf(n, s.pageList) == RootFrame(s);
    forall t | ManagedRoot(roles, t) ensures exists sp :: sp in all && RootOf(n, sp) == t {
      if t == RootFrame(s) {
        assert s.pageList in all;
      } else {
        assert ManagedRoot(g.roles, t);
        var sp :| sp in spaces && RootOf(s.memory, sp) == t;
        assert sp in all && RootOf(n, sp) == t;
      }
    }
    forall f | f in roles && roles[f].RegionRecord?
      ensures roles[f].space in all && exists k :: 0 <= k < |all[roles[f].space]| && all[roles[f].space][k].record == f
    {
      var k :| 0 <= k < |spaces[roles[f].space]| && spaces[roles[f].space][k].record == f;
      assert all[roles[f].space][k].record == f;
    }
  }

  /** vm_space_create keeps every older space and the whole account of frames. */
  lemma CreateSpaceKeepsVm(s: Physical, g: Ledger, spaces: Spaces, kernel: nat, base: Word, end: Word)
    requires CanCreateSpace(s, g, spaces, kernel)
    ensures VmInv(CreateSpace(s, kernel, base, end), CreateSpaceLedger(s, g), spaces[s.pageList := []])
  {
    hide VmInv, SpaceOk, Settled, Accounted, CreateSpace, CreateSpaceLedger;
    CreateSpaceSettles(s, g, spaces, kernel, base, end);
    CreateSpaceAccounts(s, g, spaces, kernel, base, end);
    NewSpaceIsOk(s, g, spaces, kernel, base, end);
    forall sp | sp in spaces
      ensures SpaceOk(CreateSpace(s, kernel, base, end).memory, CreateSpaceLedger(s, g).roles, sp, spaces[sp]) {
      OldSpaceIsKept(s, g, spaces, kernel, base, end, sp);
    }
    VmInvOf(CreateSpace(s, kernel, base, end), CreateSpaceLedger(s, g), spaces[s.pageList := []]);
  }
}
