/** Ranges of pages, new roots that share the kernel half, and whole runs of map and unmap calls. */
module AddressSpaces {
  import opened Words
  import opened PageTables
  import opened Mapping

  // ----- top-level slots under map and unmap

  /** map_page leaves every top-level slot of every root alone, except the one its path goes through. */
  lemma MapKeepsRootSlot(s: Physical, g: Ledger, root: nat, p: Path, paddr: Word, flags: Word, r: nat, j: Index)
    requires CanMap(s, g, root, 4, p) && CleanFlags(flags) && IsRoot(g.roles, r)
    requires r != root || j != p.l4
    ensures r in s.memory && r in MapPage(s, root, p, paddr, flags).memory
    ensures MapPage(s, root, p, paddr, flags).memory[r][j] == s.memory[r][j]
  {
    if r != root {
      MapKeepsOthers(s, g, root, 4, p, paddr, flags, r);
    } else {
      MapStep(s, g, root, 4, p, flags);
      if Present(s.memory[root][p.l4]) {
        MapKeepsOthers(s, g, AddressBits(s.memory[root][p.l4]), 3, p, paddr, flags, root);
      } else {
        GrowFacts(s, g, root, p.l4, flags);
        MapKeepsOthers(Grow(s, root, p.l4, flags), GrowLedger(s, g, root, p.l4), s.pageList, 3, p, paddr, flags, root);
      }
    }
  }

  lemma MapKeepsAllAliases(s: Physical, g: Ledger, root: nat, p: Path, paddr: Word, flags: Word, r: nat, j: Index)
    requires CanMap(s, g, root, 4, p) && CleanFlags(flags) && IsRoot(g.roles, r)
    ensures Alias(MapPage(s, root, p, paddr, flags).memory, r, root, j) == Alias(s.memory, r, root, j)
  {
    if j == p.l4 {
      MapKeepsAlias(s, g, root, p, paddr, flags, r);
    } else {
      MapKeepsRootSlot(s, g, root, p, paddr, flags, r, j);
      MapKeepsRootSlot(s, g, root, p, paddr, flags, root, j);
    }
  }

  lemma UnmapKeepsInnerTables(s: Physical, g: Ledger, root: nat, p: Path, u: nat)
    requires Inv(s, g) && IsRoot(g.roles, root) && IsTable(g.roles, u) && g.roles[u].level > 1
    ensures u in s.memory && u in UnmapPage(s, root, p).memory
    ensures UnmapPage(s, root, p).memory[u] == s.memory[u]
  {
    UnmapIsLeafWrite(s.memory, g.roles, root, 4, p);
    LeafTableIsTable(s.memory, g.roles, root, 4, p);
  }

  // ----- sequences of map_page and unmap_page calls

  datatype Step = Step(path: Path, paddr: Word)

  function MapSteps(s: Physical, root: nat, steps: seq<Step>, flags: Word): Physical
    requires CleanFlags(flags)
  {
    if steps == [] then s
    else
      var last := steps[|steps| - 1];
      MapPage(MapSteps(s, root, steps[..|steps| - 1], flags), root, last.path, last.paddr, flags)
  }

  function MapStepsLedger(s: Physical, g: Ledger, root: nat, steps: seq<Step>, flags: Word): Ledger
    requires CleanFlags(flags)
  {
    if steps == [] then g
    else
      var before := steps[..|steps| - 1];
      MapLedger(MapSteps(s, root, before, flags), MapStepsLedger(s, g, root, before, flags), root, 4,
                steps[|steps| - 1].path, flags)
  }

  /** No frame_alloc on the way finds the free list empty. */
  ghost predicate CanMapSteps(s: Physical, g: Ledger, root: nat, steps: seq<Step>, flags: Word)
    requires CleanFlags(flags)
  {
    if steps == [] then Inv(s, g) && IsRoot(g.roles, root)
    else
      var before := steps[..|steps| - 1];
      && CanMapSteps(s, g, root, before, flags)
      && CanMap(MapSteps(s, root, before, flags), MapStepsLedger(s, g, root, before, flags), root, 4,
                steps[|steps| - 1].path)
  }

  function UnmapSteps(s: Physical, root: nat, paths: seq<Path>): Physical {
    if paths == [] then s else UnmapPage(UnmapSteps(s, root, paths[..|paths| - 1]), root, paths[|paths| - 1])
  }

  lemma {:induction false} CanMapPrefix(s: Physical, g: Ledger, root: nat, steps: seq<Step>, flags: Word, k: nat)
    requires CleanFlags(flags) && CanMapSteps(s, g, root, steps, flags) && k < |steps|
    ensures CanMapSteps(s, g, root, steps[..k], flags)
    ensures CanMap(MapSteps(s, root, steps[..k], flags), MapStepsLedger(s, g, root, steps[..k], flags), root, 4,
                   steps[k].path)
    ensures MapSteps(s, root, steps[..k + 1], flags)
         == MapPage(MapSteps(s, root, steps[..k], flags), root, steps[k].path, steps[k].paddr, flags)
    ensures MapStepsLedger(s, g, root, steps[..k + 1], flags)
         == MapLedger(MapSteps(s, root, steps[..k], flags), MapStepsLedger(s, g, root, steps[..k], flags), root, 4,
                      steps[k].path, flags)
    decreases |steps|
  {
    hide Inv;
    assert steps[..k + 1][..k] == steps[..k];
    if k + 1 < |steps| {
      assert steps[..|steps| - 1][..k] == steps[..k] && steps[..|steps| - 1][..k + 1] == steps[..k + 1];
      CanMapPrefix(s, g, root, steps[..|steps| - 1], flags, k);
    } else {
      assert steps[..k + 1] == steps;
    }
  }

  lemma {:induction false} MapStepsKeepInv(s: Physical, g: Ledger, root: nat, steps: seq<Step>, flags: Word)
    requires CleanFlags(flags) && CanMapSteps(s, g, root, steps, flags)
    ensures Inv(MapSteps(s, root, steps, flags), MapStepsLedger(s, g, root, steps, flags))
  {
    if steps != [] {
      var before, last := steps[..|steps| - 1], steps[|steps| - 1];
      MapKeepsInv(MapSteps(s, root, before, flags), MapStepsLedger(s, g, root, before, flags), root, 4, last.path,
                  last.paddr, flags);
    }
  }

  lemma MapTakes(s: Physical, g: Ledger, root: nat, p: Path, paddr: Word, flags: Word)
    requires CanMap(s, g, root, 4, p) && CleanFlags(flags)
    ensures |MapLedger(s, g, root, 4, p, flags).free| >= |g.free| - 3
    ensures IsTable(MapLedger(s, g, root, 4, p, flags).roles, root)
            && MapLedger(s, g, root, 4, p, flags).roles[root].level == 4
  {
    hide Inv;
    MapKeepsInv(s, g, root, 4, p, paddr, flags);
    MapKeepsRoles(s, g, root, 4, p, flags, root);
  }

  /** A page takes at most three tables: three free frames a page are enough for every page of the range to be
      mapped. */
  lemma {:induction false} EnoughToMap(s: Physical, g: Ledger, root: nat, steps: seq<Step>, flags: Word)
    requires CleanFlags(flags) && Inv(s, g) && IsRoot(g.roles, root) && |g.free| >= 3 * |steps|
    ensures CanMapSteps(s, g, root, steps, flags)
    ensures |MapStepsLedger(s, g, root, steps, flags).free| >= |g.free| - 3 * |steps|
    ensures IsRoot(MapStepsLedger(s, g, root, steps, flags).roles, root)
    decreases |steps|
  {
    hide Inv;
    if steps != [] {
      var before, last := steps[..|steps| - 1], steps[|steps| - 1];
      EnoughToMap(s, g, root, before, flags);
      MapStepsKeepInv(s, g, root, before, flags);
      MapTakes(MapSteps(s, root, before, flags), MapStepsLedger(s, g, root, before, flags), root, last.path, last.paddr,
               flags);
    }
  }

  lemma {:induction false} MapStepsKeepRoles(s: Physical, g: Ledger, root: nat, steps: seq<Step>, flags: Word, f: nat)
    requires CleanFlags(flags) && CanMapSteps(s, g, root, steps, flags) && f in g.roles
    ensures f in MapStepsLedger(s, g, root, steps, flags).roles
    ensures MapStepsLedger(s, g, root, steps, flags).roles[f] == g.roles[f]
         || (g.roles[f] == Free && MapStepsLedger(s, g, root, steps, flags).roles[f].Table?
             && MapStepsLedger(s, g, root, steps, flags).roles[f].level < 4)
  {
    if steps != [] {
      var before, last := steps[..|steps| - 1], steps[|steps| - 1];
      MapStepsKeepRoles(s, g, root, before, flags, f);
      MapKeepsRoles(MapSteps(s, root, before, flags), MapStepsLedger(s, g, root, before, flags), root, 4, last.path,
                    flags, f);
    }
  }

  /** Index of the last step that maps path q; -1 when there is none. */
  function LastFor(steps: seq<Step>, q: Path): (k: int)
    ensures -1 <= k < |steps|
  {
    if steps == [] then -1
    else if steps[|steps| - 1].path == q then |steps| - 1
    else LastFor(steps[..|steps| - 1], q)
  }

  lemma {:induction false} LastForIsLast(steps: seq<Step>, q: Path)
    ensures LastFor(steps, q) >= 0 ==> steps[LastFor(steps, q)].path == q
    ensures forall j :: LastFor(steps, q) < j < |steps| ==> steps[j].path != q
    decreases |steps|
  {
    if steps != [] && steps[|steps| - 1].path != q {
      LastForIsLast(steps[..|steps| - 1], q);
      assert forall j :: 0 <= j < |steps| - 1 ==> steps[..|steps| - 1][j] == steps[j];
    }
  }

  lemma {:induction false} MapStepsKeepAliases(s: Physical, g: Ledger, root: nat, steps: seq<Step>, flags: Word, r: nat,
                                               i: Index)
    requires CleanFlags(flags) && CanMapSteps(s, g, root, steps, flags) && IsRoot(g.roles, r)
    ensures Alias(MapSteps(s, root, steps, flags).memory, r, root, i) == Alias(s.memory, r, root, i)
  {
    if steps != [] {
      var before, last := steps[..|steps| - 1], steps[|steps| - 1];
      MapStepsKeepRoles(s, g, root, before, flags, r);
      MapStepsKeepAliases(s, g, root, before, flags, r, i);
      MapKeepsAllAliases(MapSteps(s, root, before, flags), MapStepsLedger(s, g, root, before, flags), root,
                         last.path, last.paddr, flags, r, i);
    }
  }

  lemma MapLastStep(s: Physical, g: Ledger, root: nat, steps: seq<Step>, flags: Word, r: nat, q: Path)
    requires CleanFlags(flags) && CanMapSteps(s, g, root, steps, flags) && IsRoot(g.roles, r) && steps != []
    ensures Lookup(MapSteps(s, root, steps, flags).memory, r, q) ==
            if steps[|steps| - 1].path == q && Alias(s.memory, r, root, q.l4)
            then LeafEntry(steps[|steps| - 1].paddr, flags)
            else Lookup(MapSteps(s, root, steps[..|steps| - 1], flags).memory, r, q)
  {
    var before, last := steps[..|steps| - 1], steps[|steps| - 1];
    MapStepsKeepRoles(s, g, root, before, flags, r);
    MapStepsKeepAliases(s, g, root, before, flags, r, q.l4);
    MapPageLookup(MapSteps(s, root, before, flags), MapStepsLedger(s, g, root, before, flags), root,
                  last.path, last.paddr, flags, r, q);
  }

  lemma {:induction false} MapStepsForeign(s: Physical, g: Ledger, root: nat, steps: seq<Step>, flags: Word, r: nat,
                                           q: Path)
    requires CleanFlags(flags) && CanMapSteps(s, g, root, steps, flags) && IsRoot(g.roles, r)
    requires !Alias(s.memory, r, root, q.l4)
    ensures Lookup(MapSteps(s, root, steps, flags).memory, r, q) == Lookup(s.memory, r, q)
  {
    if steps != [] {
      MapLastStep(s, g, root, steps, flags, r, q);
      MapStepsForeign(s, g, root, steps[..|steps| - 1], flags, r, q);
    }
  }

  /** A run of map_page calls: the last call for a path decides it, and paths without a call keep their entry. */
  lemma {:induction false} MapStepsLookup(s: Physical, g: Ledger, root: nat, steps: seq<Step>, flags: Word, r: nat,
                                          q: Path)
    requires CleanFlags(flags) && CanMapSteps(s, g, root, steps, flags) && IsRoot(g.roles, r)
    requires Alias(s.memory, r, root, q.l4)
    ensures Lookup(MapSteps(s, root, steps, flags).memory, r, q) ==
            if LastFor(steps, q) >= 0 then LeafEntry(steps[LastFor(steps, q)].paddr, flags) else Lookup(s.memory, r, q)
    decreases |steps|
  {
    if steps != [] {
      MapLastStep(s, g, root, steps, flags, r, q);
      if steps[|steps| - 1].path != q {
        MapStepsLookup(s, g, root, steps[..|steps| - 1], flags, r, q);
      }
    }
  }

  lemma {:induction false} UnmapStepsKeepInv(s: Physical, g: Ledger, root: nat, paths: seq<Path>)
    requires Inv(s, g) && IsRoot(g.roles, root)
    ensures Inv(UnmapSteps(s, root, paths), g)
  {
    if paths != [] {
      UnmapStepsKeepInv(s, g, root, paths[..|paths| - 1]);
      UnmapKeepsInv(UnmapSteps(s, root, paths[..|paths| - 1]), g, root, paths[|paths| - 1]);
    }
  }

  lemma {:induction false} UnmapStepsKeepInnerTables(s: Physical, g: Ledger, root: nat, paths: seq<Path>, u: nat)
    requires Inv(s, g) && IsRoot(g.roles, root) && IsTable(g.roles, u) && g.roles[u].level > 1
    ensures u in s.memory && u in UnmapSteps(s, root, paths).memory
    ensures UnmapSteps(s, root, paths).memory[u] == s.memory[u]
  {
    if paths != [] {
      UnmapStepsKeepInnerTables(s, g, root, paths[..|paths| - 1], u);
      UnmapStepsKeepInv(s, g, root, paths[..|paths| - 1]);
      UnmapKeepsInnerTables(UnmapSteps(s, root, paths[..|paths| - 1]), g, root, paths[|paths| - 1], u);
    }
  }

  lemma {:induction false} UnmapStepsLookup(s: Physical, g: Ledger, root: nat, paths: seq<Path>, r: nat, q: Path)
    requires Inv(s, g) && IsRoot(g.roles, root) && IsRoot(g.roles, r)
    ensures Lookup(UnmapSteps(s, root, paths).memory, r, q) ==
            if q in paths && Alias(s.memory, r, root, q.l4) then 0 else Lookup(s.memory, r, q)
  {
    if paths != [] {
      var before, last := paths[..|paths| - 1], paths[|paths| - 1];
      UnmapStepsLookup(s, g, root, before, r, q);
      UnmapStepsKeepInv(s, g, root, before);
      UnmapStepsKeepInnerTables(s, g, root, before, r);
      UnmapStepsKeepInnerTables(s, g, root, before, root);
      UnmapPageLookup(UnmapSteps(s, root, before), g, root, last, r, q);
      assert q in paths <==> q in before || q == last;
    }
  }

  // ----- paging_map_page and paging_unmap_page

  /** The path of the i-th page of a range that starts at vaddr. */
  function StepPath(vaddr: Word, i: nat): Path {
    PathOf(PageStep(vaddr, i))
  }

  function RangeSteps(vaddr: Word, paddr: Word, n: nat): (steps: seq<Step>)
    ensures |steps| == n
  {
    seq(n, i requires 0 <= i < n => Step(StepPath(vaddr, i), PageStep(paddr, i)))
  }

  function RangePaths(vaddr: Word, n: nat): (paths: seq<Path>)
    ensures |paths| == n
  {
    seq(n, i requires 0 <= i < n => StepPath(vaddr, i))
  }

  /** Distance of page u from the start of the range, going up and around. */
  function Offset(vaddr: Word, u: Word): (k: nat)
    ensures k < PAGE_COUNT
  {
    (PageOf(u) - PageOf(vaddr)) % PAGE_COUNT
  }

  lemma OffsetOfStep(vaddr: Word, i: nat, u: Word)
    requires i < PAGE_COUNT
    ensures StepPath(vaddr, i) == PathOf(u) <==> Offset(vaddr, u) == i
  {
    PageOfStep(vaddr, i);
    PathIsPage(PageStep(vaddr, i), u);
    OffsetArithmetic(PageOf(vaddr), PageOf(u), i);
  }

  lemma OffsetArithmetic(a: nat, b: nat, i: nat)
    requires a < PAGE_COUNT && b < PAGE_COUNT && i < PAGE_COUNT
    ensures (a + i) % PAGE_COUNT == b <==> (b - a) % PAGE_COUNT == i
  {
    if b >= a {
      assert (b - a) % PAGE_COUNT == b - a;
    } else {
      assert (b - a) % PAGE_COUNT == b - a + PAGE_COUNT;
    }
    if a + i >= PAGE_COUNT {
      assert (a + i) % PAGE_COUNT == a + i - PAGE_COUNT;
    }
  }

  lemma RangeStepOf(vaddr: Word, paddr: Word, n: nat, u: Word)
    requires n <= PAGE_COUNT
    ensures LastFor(RangeSteps(vaddr, paddr, n), PathOf(u)) == if Offset(vaddr, u) < n then Offset(vaddr, u) else -1
    ensures PathOf(u) in RangePaths(vaddr, n) <==> Offset(vaddr, u) < n
  {
    LastForIsLast(RangeSteps(vaddr, paddr, n), PathOf(u));
    forall i: nat | i < n ensures StepPath(vaddr, i) == PathOf(u) <==> Offset(vaddr, u) == i {
      OffsetOfStep(vaddr, i, u);
    }
    if Offset(vaddr, u) < n {
      assert RangeSteps(vaddr, paddr, n)[Offset(vaddr, u)].path == PathOf(u);
      assert RangePaths(vaddr, n)[Offset(vaddr, u)] == PathOf(u);
    }
  }

  /** paging_map_page maps the k-th page of the range to the k-th page of the frame range and touches no other page. */
  lemma MapRangeLookup(s: Physical, g: Ledger, root: nat, vaddr: Word, paddr: Word, flags: Word, n: nat, r: nat,
                       u: Word)
    requires CleanFlags(flags) && CanMapSteps(s, g, root, RangeSteps(vaddr, paddr, n), flags)
    requires n <= PAGE_COUNT && IsRoot(g.roles, r)
    ensures Lookup(MapSteps(s, root, RangeSteps(vaddr, paddr, n), flags).memory, r, PathOf(u)) ==
            if Offset(vaddr, u) < n && Alias(s.memory, r, root, PathOf(u).l4)
            then LeafEntry(PageStep(paddr, Offset(vaddr, u)), flags)
            else Lookup(s.memory, r, PathOf(u))
  {
    RangeStepOf(vaddr, paddr, n, u);
    if Alias(s.memory, r, root, PathOf(u).l4) {
      MapStepsLookup(s, g, root, RangeSteps(vaddr, paddr, n), flags, r, PathOf(u));
    } else {
      MapStepsForeign(s, g, root, RangeSteps(vaddr, paddr, n), flags, r, PathOf(u));
    }
  }

  /** paging_unmap_page makes exactly the pages of the range read as 0. */
  lemma UnmapRangeLookup(s: Physical, g: Ledger, root: nat, vaddr: Word, n: nat, r: nat, u: Word)
    requires Inv(s, g) && n <= PAGE_COUNT && IsRoot(g.roles, root) && IsRoot(g.roles, r)
    ensures Lookup(UnmapSteps(s, root, RangePaths(vaddr, n)).memory, r, PathOf(u)) ==
            if Offset(vaddr, u) < n && Alias(s.memory, r, root, PathOf(u).l4) then 0 else Lookup(s.memory, r, PathOf(u))
  {
    RangeStepOf(vaddr, 0, n, u);
    UnmapStepsLookup(s, g, root, RangePaths(vaddr, n), r, PathOf(u));
  }

  // ----- paging_create_pml4

  /** A cleared table with the kernel's upper half. */
  function KernelHalf(kernel: Frame): (f: Frame) {
    seq(512, i requires 0 <= i < 512 => if i < 256 then 0 else kernel[i])
  }

  function CreateRoot(s: Physical, kernel: nat): Physical
    requires kernel in s.memory && s.pageList in s.memory
  {
    Physical(s.memory[s.pageList := KernelHalf(s.memory[kernel])], s.memory[s.pageList][0])
  }

  function CreateRootLedger(s: Physical, g: Ledger): Ledger
    requires g.free != []
  {
    g.(roles := g.roles[s.pageList := Table(4, 0, 0, true)], free := g.free[1..])
  }

  ghost predicate CanCreate(s: Physical, g: Ledger, kernel: nat) {
    Inv(s, g) && g.free != [] && IsRoot(g.roles, kernel)
  }

  lemma CreateKeepsTreeDown(s: Physical, g: Ledger, kernel: nat)
    requires CanCreate(s, g, kernel) && s.pageList in s.memory
    ensures TreeDown(CreateRoot(s, kernel).memory, CreateRootLedger(s, g).roles)
  {
    HeadIsFree(s, g);
    var n, roles := CreateRoot(s, kernel).memory, CreateRootLedger(s, g).roles;
    forall u, j: Index | IsTable(roles, u) && roles[u].level > 1 && u in n && Present(n[u][j])
      ensures Child(roles, u, j, AddressBits(n[u][j]))
    {
      if u == s.pageList {
        assert Child(g.roles, kernel, j, AddressBits(s.memory[kernel][j]));
      } else {
        assert Child(g.roles, u, j, AddressBits(s.memory[u][j]));
      }
    }
  }

  lemma CreateKeepsInv(s: Physical, g: Ledger, kernel: nat)
    requires CanCreate(s, g, kernel)
    ensures s.pageList in s.memory && kernel in s.memory && kernel != s.pageList
    ensures Inv(CreateRoot(s, kernel), CreateRootLedger(s, g)) && IsRoot(CreateRootLedger(s, g).roles, kernel)
  {
    HeadIsFree(s, g);
    CreateKeepsTreeDown(s, g, kernel);
    var n, roles := CreateRoot(s, kernel).memory, CreateRootLedger(s, g).roles;
    forall c: nat | IsTable(roles, c) && roles[c].level < 4
      ensures IsTable(roles, roles[c].parent) && roles[roles[c].parent].level == roles[c].level + 1
           && Points(n, roles[c].parent, roles[c].slot, c)
    {
      assert Points(s.memory, roles[c].parent, roles[c].slot, c);
    }
    PopKeepsList(s, g, n, roles);
  }

  /** A new root reads like the kernel root in the upper half and maps nothing below; every older root reads as
      before. */
  lemma CreateRootLookup(s: Physical, g: Ledger, kernel: nat, r: nat, q: Path)
    requires CanCreate(s, g, kernel) && s.pageList in s.memory
    requires r == s.pageList || IsRoot(g.roles, r)
    ensures Lookup(CreateRoot(s, kernel).memory, r, q) ==
            if r != s.pageList then Lookup(s.memory, r, q) else if q.l4 < 256 then 0 else Lookup(s.memory, kernel, q)
  {
    HeadIsFree(s, g);
    var n := CreateRoot(s, kernel).memory;
    if r != s.pageList {
      WalkReadsTables(s.memory, n, g.roles, r, 4, q);
    } else if Present(s.memory[kernel][q.l4]) {
      WalkReadsTables(s.memory, n, g.roles, AddressBits(s.memory[kernel][q.l4]), 3, q);
    }
  }

  // ----- runs

  datatype Op =
    | MapOp(root: nat, path: Path, paddr: Word, flags: Word)
    | UnmapOp(root: nat, path: Path)

  function Apply(s: Physical, op: Op): Physical {
    match op
    case MapOp(root, p, paddr, flags) => if CleanFlags(flags) then MapPage(s, root, p, paddr, flags) else s
    case UnmapOp(root, p) => UnmapPage(s, root, p)
  }

  function ApplyLedger(s: Physical, g: Ledger, op: Op): Ledger {
    match op
    case MapOp(root, p, paddr, flags) => MapLedger(s, g, root, 4, p, flags)
    case UnmapOp(_, _) => g
  }

  /** What the code asks of a call: a real root, clean flags, and enough free frames. */
  ghost predicate Allowed(s: Physical, g: Ledger, op: Op) {
    match op
    case MapOp(root, p, _, flags) => CleanFlags(flags) && CanMap(s, g, root, 4, p)
    case UnmapOp(root, p) => IsRoot(g.roles, root)
  }

  function Run(s: Physical, ops: seq<Op>): Physical
    decreases |ops|
  {
    if ops == [] then s else Run(Apply(s, ops[0]), ops[1..])
  }

  ghost predicate AllAllowed(s: Physical, g: Ledger, ops: seq<Op>)
    decreases |ops|
  {
    ops == [] || (Allowed(s, g, ops[0]) && AllAllowed(Apply(s, ops[0]), ApplyLedger(s, g, ops[0]), ops[1..]))
  }

  lemma StepKeepsInv(s: Physical, g: Ledger, op: Op)
    requires Inv(s, g) && Allowed(s, g, op)
    ensures Inv(Apply(s, op), ApplyLedger(s, g, op))
  {
    match op
    case MapOp(root, p, paddr, flags) => MapKeepsInv(s, g, root, 4, p, paddr, flags);
    case UnmapOp(root, p) => UnmapKeepsInv(s, g, root, p);
  }

  lemma StepKeepsPresentSlot(s: Physical, g: Ledger, op: Op, r: nat, i: Index)
    requires Inv(s, g) && Allowed(s, g, op) && IsRoot(g.roles, r) && Present(s.memory[r][i])
    ensures IsRoot(ApplyLedger(s, g, op).roles, r)
    ensures r in Apply(s, op).memory && Apply(s, op).memory[r][i] == s.memory[r][i]
  {
    match op
    case MapOp(root, p, paddr, flags) =>
      MapKeepsInnerEntries(s, g, root, 4, p, paddr, flags, r, i);
      MapKeepsRoles(s, g, root, 4, p, flags, r);
    case UnmapOp(root, p) =>
      UnmapKeepsInnerTables(s, g, root, p, r);
  }

  /** Both roots hold the same present entry in top-level slot i. */
  ghost predicate Shared(s: Physical, g: Ledger, a: nat, b: nat, i: Index) {
    && Inv(s, g) && IsRoot(g.roles, a) && IsRoot(g.roles, b)
    && Present(s.memory[a][i]) && s.memory[a][i] == s.memory[b][i]
  }

  lemma StepKeepsShared(s: Physical, g: Ledger, op: Op, a: nat, b: nat, i: Index)
    requires Shared(s, g, a, b, i) && Allowed(s, g, op)
    ensures Shared(Apply(s, op), ApplyLedger(s, g, op), a, b, i)
  {
    StepKeepsInv(s, g, op);
    StepKeepsPresentSlot(s, g, op, a, i);
    StepKeepsPresentSlot(s, g, op, b, i);
  }

  /** Shared slots stay shared under any run of maps and unmaps through these or any other roots. */
  lemma {:induction false} RunKeepsShared(s: Physical, g: Ledger, ops: seq<Op>, a: nat, b: nat, i: Index)
    requires AllAllowed(s, g, ops) && Shared(s, g, a, b, i)
    ensures a in Run(s, ops).memory && b in Run(s, ops).memory
    ensures Run(s, ops).memory[a][i] == Run(s, ops).memory[b][i]
    decreases |ops|
  {
    if ops != [] {
      StepKeepsShared(s, g, ops[0], a, b, i);
      RunKeepsShared(Apply(s, ops[0]), ApplyLedger(s, g, ops[0]), ops[1..], a, b, i);
    }
  }

  lemma SameSlotSameLookup(m: Memory, a: nat, b: nat, q: Path)
    requires a in m && b in m && m[a][q.l4] == m[b][q.l4]
    ensures Lookup(m, a, q) == Lookup(m, b, q)
  {
  }

  /** The kernel root and a root created from it never disagree below a kernel entry that was present at creation. */
  lemma KernelHalfStaysShared(s: Physical, g: Ledger, kernel: nat, ops: seq<Op>, q: Path)
    requires CanCreate(s, g, kernel) && s.pageList in s.memory && q.l4 >= 256 && Present(s.memory[kernel][q.l4])
    requires AllAllowed(CreateRoot(s, kernel), CreateRootLedger(s, g), ops)
    ensures var end := Run(CreateRoot(s, kernel), ops).memory;
            Lookup(end, s.pageList, q) == Lookup(end, kernel, q)
  {
    HeadIsFree(s, g);
    CreateKeepsInv(s, g, kernel);
    RunKeepsShared(CreateRoot(s, kernel), CreateRootLedger(s, g), ops, s.pageList, kernel, q.l4);
    SameSlotSameLookup(Run(CreateRoot(s, kernel), ops).memory, s.pageList, kernel, q);
  }
}
