/** Address-space and region records (vm.c) as words of their frames, and what every vm operation keeps. */
module VmSpaces {
  import opened Words
  import opened PageTables
  import opened Mapping
  import opened AddressSpaces
  import opened Ownership
  import opened VmPages

  // Words of a vm_space record and of a vm_region record.
  const SPACE_PML4: Index := 0
  const SPACE_HEAP_BASE: Index := 1
  const SPACE_HEAP_END: Index := 2
  const SPACE_NEXT_FREE: Index := 3
  const SPACE_REGIONS: Index := 4
  const REGION_BASE: Index := 0
  const REGION_SIZE: Index := 1
  const REGION_NEXT: Index := 2

  const LOWER_LIMIT: nat := 0x8000_0000_0000

  /** A region record and the pages it stands for. */
  datatype Region = Region(record: nat, base: Word, pages: nat)

  /** The regions of every space, in list order. */
  type Spaces = map<nat, seq<Region>>

  function PathsOf(r: Region): seq<Path> {
    RangePaths(r.base, r.pages)
  }

  /** A page-aligned range that ends within the lower half. */
  predicate LowerRange(base: Word, pages: nat) {
    base % PAGE_SIZE == 0 && base + pages * PAGE_SIZE <= LOWER_LIMIT
  }

  lemma LowerStep(base: Word, pages: nat, i: nat)
    requires LowerRange(base, pages) && i < pages
    ensures PageOf(PageStep(base, i)) == base / PAGE_SIZE + i < LOWER_HALF
    ensures StepPath(base, i).l4 < 256
  {
    hide PathOf;
    assert PageStep(base, i) == base + i * PAGE_SIZE;
    PathIsPage(PageStep(base, i), PageStep(base, i));
  }

  lemma LowerRangePaths(base: Word, pages: nat)
    requires LowerRange(base, pages)
    ensures LowerPaths(RangePaths(base, pages)) && DistinctPaths(RangePaths(base, pages))
  {
    hide PathOf;
    var paths := RangePaths(base, pages);
    forall k | 0 <= k < |paths| ensures paths[k].l4 < 256 {
      LowerStep(base, pages, k);
    }
    forall j, k | 0 <= j < k < |paths| ensures paths[j] != paths[k] {
      LowerStep(base, pages, j);
      LowerStep(base, pages, k);
      PathIsPage(PageStep(base, j), PageStep(base, k));
    }
  }

  // ----- region lists

  ghost predicate Chain(m: Memory, head: nat, regions: seq<Region>)
    decreases |regions|
  {
    if regions == [] then head == 0
    else
      && head == regions[0].record != 0 && head in m
      && m[head][REGION_BASE] == regions[0].base
      && m[head][REGION_SIZE] == regions[0].pages * PAGE_SIZE
      && Chain(m, m[head][REGION_NEXT], regions[1..])
  }

  predicate RecordsOf(roles: Roles, sp: nat, regions: seq<Region>) {
    && (forall k :: 0 <= k < |regions| ==> regions[k].record in roles && roles[regions[k].record] == RegionRecord(sp))
    && (forall j, k :: 0 <= j < k < |regions| ==> regions[j].record != regions[k].record)
  }

  predicate Covered(regions: seq<Region>, p: Path) {
    exists k :: 0 <= k < |regions| && p in PathsOf(regions[k])
  }

  predicate Apart(a: Region, b: Region) {
    forall p :: p in PathsOf(a) ==> p !in PathsOf(b)
  }

  ghost predicate Layout(regions: seq<Region>) {
    && (forall k :: 0 <= k < |regions| ==> LowerRange(regions[k].base, regions[k].pages) && regions[k].pages > 0)
    && (forall j, k :: 0 <= j < |regions| && 0 <= k < |regions| && j != k ==> Apart(regions[j], regions[k]))
  }

  /** The present lower-half pages of the root are exactly the pages of the regions. */
  ghost predicate Covers(m: Memory, root: nat, regions: seq<Region>) {
    forall p: Path :: p.l4 < 256 ==> (Present(Lookup(m, root, p)) <==> Covered(regions, p))
  }

  function RootOf(m: Memory, sp: nat): nat {
    if sp in m then m[sp][SPACE_PML4] else 0
  }

  ghost predicate SpaceOk(m: Memory, roles: Roles, sp: nat, regions: seq<Region>) {
    && sp in m && sp in roles && roles[sp] == SpaceRecord
    && ManagedRoot(roles, RootOf(m, sp))
    && Chain(m, m[sp][SPACE_REGIONS], regions)
    && RecordsOf(roles, sp, regions)
    && Layout(regions)
    && Covers(m, RootOf(m, sp), regions)
  }

  /** Every record frame is the record of a space or on a space's list, and every managed root is the root of one
      space. */
  ghost predicate Accounted(m: Memory, roles: Roles, spaces: Spaces) {
    && (forall f :: f in roles && roles[f] == SpaceRecord ==> f in spaces)
    && (forall f :: f in roles && roles[f].RegionRecord? ==>
          roles[f].space in spaces
          && exists k :: 0 <= k < |spaces[roles[f].space]| && spaces[roles[f].space][k].record == f)
    && (forall t :: ManagedRoot(roles, t) ==> exists sp :: sp in spaces && RootOf(m, sp) == t)
    && (forall a, b :: a in spaces && b in spaces && a != b ==> RootOf(m, a) != RootOf(m, b))
  }

  ghost predicate VmInv(s: Physical, g: Ledger, spaces: Spaces) {
    && Settled(s, g)
    && (forall sp :: sp in spaces ==> SpaceOk(s.memory, g.roles, sp, spaces[sp]))
    && Accounted(s.memory, g.roles, spaces)
  }

  // ----- writing records

  /** Writing a frame that is in use and not a table changes no table, no walk and no list. */
  lemma RecordWrite(s: Physical, g: Ledger, f: nat, i: Index, w: Word)
    requires Settled(s, g) && f in g.roles && g.roles[f] != Free && !g.roles[f].Table?
    ensures f in s.memory && Settled(s.(memory := Put(s.memory, f, i, w)), g)
  {
    WriteOutsideTablesKeepsTrees(s.memory, g.roles, f, i, w);
    WriteKeepsLinks(s.memory, g.free, f, i, w);
    RecordWriteLeaves(s.memory, g, f, i, w);
  }

  lemma RecordWriteLeaves(m: Memory, g: Ledger, f: nat, i: Index, w: Word)
    requires Leaves(m, g) && f in m && f in g.roles && !g.roles[f].Table?
    ensures Leaves(Put(m, f, i, w), g)
  {
    forall d | d in g.roles && g.roles[d].Data?
      ensures IsManagedLeaf(g.roles, g.roles[d].table) && (g.roles[d].table, g.roles[d].slot) !in g.limbo
           && Points(Put(m, f, i, w), g.roles[d].table, g.roles[d].slot, d)
    {
      assert Points(m, g.roles[d].table, g.roles[d].slot, d);
    }
  }

  lemma RecordWriteWalk(s: Physical, g: Ledger, f: nat, i: Index, w: Word, r: nat, q: Path)
    requires Inv(s, g) && f in g.roles && !g.roles[f].Table? && IsRoot(g.roles, r)
    ensures f in s.memory && SameWalk(s.memory, Put(s.memory, f, i, w), r, q)
  {
    WalkReadsTables(s.memory, Put(s.memory, f, i, w), g.roles, r, 4, q);
  }

  lemma {:induction false} ChainFrame(m: Memory, n: Memory, head: nat, regions: seq<Region>)
    requires Chain(m, head, regions)
    requires forall k ::
               0 <= k < |regions| ==>
                 regions[k].record in n && (regions[k].record in m ==> n[regions[k].record] == m[regions[k].record])
    ensures Chain(n, head, regions)
    decreases |regions|
  {
    if regions != [] {
      assert forall k :: 0 <= k < |regions[1..]| ==> regions[1..][k] == regions[k + 1];
      ChainFrame(m, n, m[head][REGION_NEXT], regions[1..]);
    }
  }

  /** A space is untouched when its records, its root's role and its root's lower half are. */
  lemma SpaceFrame(m: Memory, n: Memory, roles: Roles, after: Roles, sp: nat, regions: seq<Region>)
    requires SpaceOk(m, roles, sp, regions)
    requires sp in n && n[sp][SPACE_PML4] == m[sp][SPACE_PML4] && n[sp][SPACE_REGIONS] == m[sp][SPACE_REGIONS]
    requires sp in after && after[sp] == roles[sp]
    requires RootOf(m, sp) in after && after[RootOf(m, sp)] == roles[RootOf(m, sp)]
    requires forall k ::
               0 <= k < |regions| ==> regions[k].record in after && after[regions[k].record] == roles[regions[k].record]
    requires forall k ::
               0 <= k < |regions| ==>
                 regions[k].record in n && (regions[k].record in m ==> n[regions[k].record] == m[regions[k].record])
    requires forall p: Path ::
               p.l4 < 256 ==> (Present(Lookup(n, RootOf(m, sp), p)) <==> Present(Lookup(m, RootOf(m, sp), p)))
    ensures SpaceOk(n, after, sp, regions)
  {
    hide Lookup;
    ChainFrame(m, n, m[sp][SPACE_REGIONS], regions);
    forall p: Path | p.l4 < 256 ensures Present(Lookup(n, RootOf(n, sp), p)) <==> Covered(regions, p) {
    }
  }
}
