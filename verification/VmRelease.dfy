/** vm_free of a whole region, and vm_space_destroy (vm.c). */
module VmRelease {
  import opened Words
  import opened PageTables
  import opened Mapping
  import opened AddressSpaces
  import opened Ownership
  import opened VmPages
  import opened VmSpaces
  import opened VmAllocation

  function Without<T>(s: seq<T>, k: nat): seq<T>
    requires k < |s|
  {
    s[..k] + s[k + 1..]
  }

  /** region_remove: the link that pointed to record k now points past it. */
  function Unlink(m: Memory, space: nat, regions: seq<Region>, k: nat): Memory
    requires k < |regions| && space in m && regions[k].record in m && (k > 0 ==> regions[k - 1].record in m)
  {
    var next := m[regions[k].record][REGION_NEXT];
    if k == 0 then Put(m, space, SPACE_REGIONS, next) else Put(m, regions[k - 1].record, REGION_NEXT, next)
  }

  lemma {:induction false} ChainHas(m: Memory, head: nat, regions: seq<Region>, k: nat)
    requires Chain(m, head, regions) && k < |regions|
    ensures regions[k].record in m && regions[k].record != 0
    ensures m[regions[k].record][REGION_BASE] == regions[k].base
    ensures m[regions[k].record][REGION_SIZE] == regions[k].pages * PAGE_SIZE
    ensures m[regions[k].record][REGION_NEXT] == if k + 1 < |regions| then regions[k + 1].record else 0
    decreases k
  {
    if k > 0 {
      ChainHas(m, m[head][REGION_NEXT], regions[1..], k - 1);
    }
  }

  /** Skipping record k > 0 leaves the chain of the others. */
  lemma {:induction false} ChainWithout(m: Memory, n: Memory, head: nat, regions: seq<Region>, k: nat)
    requires Chain(m, head, regions) && 0 < k < |regions|
    requires forall i, j :: 0 <= i < j < |regions| ==> regions[i].record != regions[j].record
    requires forall j :: 0 <= j < |regions| && j != k - 1 && j != k ==>
               regions[j].record in n && (regions[j].record in m ==> n[regions[j].record] == m[regions[j].record])
    requires regions[k].record in m && regions[k - 1].record in m && regions[k - 1].record in n
    requires n[regions[k - 1].record] == m[regions[k - 1].record][REGION_NEXT := m[regions[k].record][REGION_NEXT]]
    ensures Chain(n, head, Without(regions, k))
    decreases k
  {
    var rest := regions[1..];
    assert forall j :: 0 <= j < |rest| ==> rest[j] == regions[j + 1];
    if k == 1 {
      assert Without(regions, 1)[1..] == regions[2..];
      assert rest[1..] == regions[2..];
      assert forall j :: 0 <= j < |regions[2..]| ==> regions[2..][j] == regions[j + 2];
      ChainFrame(m, n, m[regions[1].record][REGION_NEXT], regions[2..]);
    } else {
      ChainWithout(m, n, m[head][REGION_NEXT], rest, k - 1);
      assert Without(regions, k)[1..] == Without(rest, k - 1);
    }
  }

  // ----- the whole of vm_free

  ghost predicate CanRelease(s: Physical, g: Ledger, spaces: Spaces, space: nat, k: nat) {
    VmInv(s, g, spaces) && space in spaces && k < |spaces[space]|
  }

  function Released(s: Physical, space: nat, region: Region): Physical {
    ReleasePages(s, RootOf(s.memory, space), PathsOf(region))
  }

  function ReleasedLedger(s: Physical, g: Ledger, space: nat, region: Region): Ledger {
    ReleaseLedger(s, g, RootOf(s.memory, space), PathsOf(region))
  }

  lemma ReleaseFacts(s: Physical, g: Ledger, spaces: Spaces, space: nat, k: nat)
    requires CanRelease(s, g, spaces, space, k)
    ensures SpaceOk(s.memory, g.roles, space, spaces[space])
    ensures CanFreePages(s, g, RootOf(s.memory, space), PathsOf(spaces[space][k]))
    ensures space in s.memory && spaces[space][k].record in s.memory
            && (k > 0 ==> spaces[space][k - 1].record in s.memory)
  {
    hide Covers, RangePaths, Inv, Leaves;
    ChainHas(s.memory, s.memory[space][SPACE_REGIONS], spaces[space], k);
    if k > 0 {
      ChainHas(s.memory, s.memory[space][SPACE_REGIONS], spaces[space], k - 1);
    }
    LowerRangePaths(spaces[space][k].base, spaces[space][k].pages);
  }

  /** Records keep their words while the pages of a region are released. */
  lemma {:induction false} UnmapStepsKeepOthers(t: Physical, h: Ledger, root: nat, paths: seq<Path>, f: nat)
    requires Inv(t, h) && IsRoot(h.roles, root) && f in h.roles && !h.roles[f].Table? && f in t.memory
    ensures f in UnmapSteps(t, root, paths).memory && UnmapSteps(t, root, paths).memory[f] == t.memory[f]
  {
    if paths != [] {
      var u := UnmapSteps(t, root, Front(paths));
      UnmapStepsKeepOthers(t, h, root, Front(paths), f);
      UnmapStepsKeepInv(t, h, root, Front(paths));
      UnmapIsLeafWrite(u.memory, h.roles, root, 4, Last(paths));
      LeafTableIsTable(u.memory, h.roles, root, 4, Last(paths));
    }
  }

  lemma ReleaseKeepsRecord(s: Physical, g: Ledger, root: nat, paths: seq<Path>, f: nat)
    requires CanFreePages(s, g, root, paths) && f in g.roles && RecordRole(g.roles[f]) && f in s.memory
    ensures f in ReleasePages(s, root, paths).memory && ReleasePages(s, root, paths).memory[f] == s.memory[f]
    ensures f in ReleaseLedger(s, g, root, paths).roles && ReleaseLedger(s, g, root, paths).roles[f] == g.roles[f]
  {
    hide CanFreePages, Inv, Leaves;
    var t, h := FreePages(s, root, paths), FreePagesLedger(s, g, root, paths);
    RootIsRoot(s, g, root, paths);
    FreePagesKeepOthers(s, g, root, paths, f);
    FreePagesRoles(s, g, root, paths, f);
    FreePagesState(s, g, root, paths, root, Path(0, 0, 0, 0));
    UnmapStepsKeepOthers(t, h, root, paths, f);
  }

  /** The state after vm_free of region k of a space. */
  function FreeRegion(s: Physical, space: nat, regions: seq<Region>, k: nat): Physical
    requires k < |regions|
  {
    var t := Released(s, space, regions[k]);
    var rec := regions[k].record;
    if space in t.memory && rec in t.memory && rec < WORD_LIMIT && (k > 0 ==> regions[k - 1].record in t.memory) then
      Push(t.(memory := Unlink(t.memory, space, regions, k)), rec)
    else t
  }

  function FreeRegionLedger(s: Physical, g: Ledger, space: nat, regions: seq<Region>, k: nat): Ledger
    requires k < |regions|
  {
    var h := ReleasedLedger(s, g, space, regions[k]);
    if regions[k].record in h.roles then PushLedger(h, regions[k].record) else h
  }

  function FreeRegionSpaces(spaces: Spaces, space: nat, k: nat): Spaces
    requires space in spaces && k < |spaces[space]|
  {
    spaces[space := Without(spaces[space], k)]
  }

  /** The state between the page work and frame_free of the record. */
  function Unlinked(s: Physical, space: nat, regions: seq<Region>, k: nat): Physical
    requires k < |regions|
  {
    var t := Released(s, space, regions[k]);
    if space in t.memory && regions[k].record in t.memory && (k > 0 ==> regions[k - 1].record in t.memory)
    then t.(memory := Unlink(t.memory, space, regions, k)) else t
  }

  /** Where region_remove writes: the space record, or the record before the removed one. */
  function LinkOwner(space: nat, regions: seq<Region>, k: nat): nat
    requires k < |regions|
  {
    if k == 0 then space else regions[k - 1].record
  }

  lemma RecordFacts(s: Physical, g: Ledger, spaces: Spaces, space: nat, k: nat)
    requires CanRelease(s, g, spaces, space, k)
    ensures space in s.memory && space in g.roles && g.roles[space] == SpaceRecord
    ensures ManagedRoot(g.roles, RootOf(s.memory, space))
    ensures RecordsOf(g.roles, space, spaces[space]) && Chain(s.memory, s.memory[space][SPACE_REGIONS], spaces[space])
    ensures Layout(spaces[space]) && Covers(s.memory, RootOf(s.memory, space), spaces[space])
    ensures spaces[space][k].record in g.roles && g.roles[spaces[space][k].record] == RegionRecord(space)
    ensures spaces[space][k].record != space && 0 < spaces[space][k].record < WORD_LIMIT
  {
    hide Covers, Layout, Inv, Leaves;
    ReleaseFacts(s, g, spaces, space, k);
    RecordAddress(s, g, spaces[space][k].record);
  }

  lemma RecordAddress(s: Physical, g: Ledger, f: nat)
    requires Settled(s, g) && f in g.roles
    ensures f in s.memory && 0 < f < WORD_LIMIT
  {
  }

  /** The records of the space after the page work are as before it. */
  lemma ReleasedRecords(s: Physical, g: Ledger, spaces: Spaces, space: nat, k: nat, f: nat)
    requires CanRelease(s, g, spaces, space, k) && f in g.roles && RecordRole(g.roles[f])
    ensures f in s.memory && f in Released(s, space, spaces[space][k]).memory
    ensures Released(s, space, spaces[space][k]).memory[f] == s.memory[f]
    ensures f in ReleasedLedger(s, g, space, spaces[space][k]).roles
    ensures ReleasedLedger(s, g, space, spaces[space][k]).roles[f] == g.roles[f]
  {
    hide Inv, Leaves, SpaceOk, Accounted, RangePaths;
    ReleaseFacts(s, g, spaces, space, k);
    RecordAddress(s, g, f);
    ReleaseKeepsRecord(s, g, RootOf(s.memory, space), PathsOf(spaces[space][k]), f);
  }

  lemma LinkOwnerFacts(s: Physical, g: Ledger, spaces: Spaces, space: nat, k: nat)
    requires CanRelease(s, g, spaces, space, k)
    ensures var f := LinkOwner(space, spaces[space], k);
            f in g.roles && (g.roles[f] == SpaceRecord || g.roles[f] == RegionRecord(space))
            && f != spaces[space][k].record
  {
    hide VmInv, Layout, Covers;
    RecordFacts(s, g, spaces, space, k);
  }

  lemma UnlinkedIsWrite(s: Physical, g: Ledger, spaces: Spaces, space: nat, k: nat)
    requires CanRelease(s, g, spaces, space, k)
    ensures var t, f := Released(s, space, spaces[space][k]), LinkOwner(space, spaces[space], k);
            && f in t.memory && f in s.memory && spaces[space][k].record in s.memory
            && Unlinked(s, space, spaces[space], k) ==
                 WithWord(t, f, if k == 0 then SPACE_REGIONS else REGION_NEXT,
                          s.memory[spaces[space][k].record][REGION_NEXT])
  {
    hide VmInv, Layout, Covers, Released, ReleasedLedger;
    RecordFacts(s, g, spaces, space, k);
    LinkOwnerFacts(s, g, spaces, space, k);
    ReleasedRecords(s, g, spaces, space, k, space);
    ReleasedRecords(s, g, spaces, space, k, spaces[space][k].record);
    ReleasedRecords(s, g, spaces, space, k, LinkOwner(space, spaces[space], k));
  }

  lemma UnlinkedSettles(s: Physical, g: Ledger, spaces: Spaces, space: nat, k: nat)
    requires CanRelease(s, g, spaces, space, k)
    ensures Settled(Unlinked(s, space, spaces[space], k), ReleasedLedger(s, g, space, spaces[space][k]))
  {
    hide VmInv, Settled, Unlinked, CanFreePages, PathsOf, SpaceOk, RangePaths;
    ReleaseFacts(s, g, spaces, space, k);
    ReleaseSettles(s, g, RootOf(s.memory, space), PathsOf(spaces[space][k]));
    UnlinkedIsWrite(s, g, spaces, space, k);
    LinkOwnerFacts(s, g, spaces, space, k);
    ReleasedRecords(s, g, spaces, space, k, LinkOwner(space, spaces[space], k));
    RecordWrite(Released(s, space, spaces[space][k]), ReleasedLedger(s, g, space, spaces[space][k]),
                LinkOwner(space, spaces[space], k),
                if k == 0 then SPACE_REGIONS else REGION_NEXT, s.memory[spaces[space][k].record][REGION_NEXT]);
  }

  lemma PushRecordSettles(s: Physical, g: Ledger, f: nat)
    requires Settled(s, g) && f in g.roles && RecordRole(g.roles[f])
    ensures f in s.memory && f < WORD_LIMIT && CanPush(g, f) && Settled(Push(s, f), PushLedger(g, f))
  {
    hide Inv, Leaves;
    PushKeepsInv(s, g, f);
    PushKeepsLeaves(s, g, f);
  }

  lemma FreeRegionIsPush(s: Physical, g: Ledger, spaces: Spaces, space: nat, k: nat)
    requires CanRelease(s, g, spaces, space, k)
    ensures var u, rec := Unlinked(s, space, spaces[space], k), spaces[space][k].record;
            && rec in u.memory && rec < WORD_LIMIT
            && FreeRegion(s, space, spaces[space], k) == Push(u, rec)
            && rec in ReleasedLedger(s, g, space, spaces[space][k]).roles
            && ReleasedLedger(s, g, space, spaces[space][k]).roles[rec] == RegionRecord(space)
            && FreeRegionLedger(s, g, space, spaces[space], k)
                 == PushLedger(ReleasedLedger(s, g, space, spaces[space][k]), rec)
  {
    hide VmInv, Released, ReleasedLedger, Layout, Covers;
    RecordFacts(s, g, spaces, space, k);
    LinkOwnerFacts(s, g, spaces, space, k);
    ReleasedRecords(s, g, spaces, space, k, space);
    ReleasedRecords(s, g, spaces, space, k, spaces[space][k].record);
    ReleasedRecords(s, g, spaces, space, k, LinkOwner(space, spaces[space], k));
  }

  lemma FreeRegionSettles(s: Physical, g: Ledger, spaces: Spaces, space: nat, k: nat)
    requires CanRelease(s, g, spaces, space, k)
    ensures Settled(FreeRegion(s, space, spaces[space], k), FreeRegionLedger(s, g, space, spaces[space], k))
  {
    hide VmInv, Settled, Unlinked, Released, ReleasedLedger, FreeRegion, FreeRegionLedger;
    UnlinkedSettles(s, g, spaces, space, k);
    FreeRegionIsPush(s, g, spaces, space, k);
    PushRecordSettles(Unlinked(s, space, spaces[space], k), ReleasedLedger(s, g, space, spaces[space][k]),
                      spaces[space][k].record);
  }

  /** vm_free makes exactly the pages of the region absent below the space's root. */
  lemma FreeRegionLookup(s: Physical, g: Ledger, spaces: Spaces, space: nat, k: nat, r: nat, q: Path)
    requires CanRelease(s, g, spaces, space, k) && IsRoot(g.roles, r)
    ensures Lookup(FreeRegion(s, space, spaces[space], k).memory, r, q) ==
            if r == RootOf(s.memory, space) && q in PathsOf(spaces[space][k]) then 0 else Lookup(s.memory, r, q)
  {
    hide VmInv, Unlinked, FreeRegion, CanFreePages, RangePaths, Walk, ReleasePages, ReleaseLedger, SpaceOk;
    ReleaseFacts(s, g, spaces, space, k);
    ReleaseLookup(s, g, RootOf(s.memory, space), PathsOf(spaces[space][k]), r, q);
    ReleasedIsTree(s, g, spaces, space, k, r);
    UnlinkedIsWrite(s, g, spaces, space, k);
    FreeRegionIsPush(s, g, spaces, space, k);
    TwoRecordWrites(s, g, spaces, space, k, r, q);
  }

  lemma ReleasedIsTree(s: Physical, g: Ledger, spaces: Spaces, space: nat, k: nat, r: nat)
    requires CanRelease(s, g, spaces, space, k) && IsRoot(g.roles, r)
    ensures var t, h := Released(s, space, spaces[space][k]), ReleasedLedger(s, g, space, spaces[space][k]);
            Inv(t, h) && IsRoot(h.roles, r)
  {
    hide VmInv, CanFreePages, SpaceOk, Inv, Leaves, PathsOf;
    ReleaseFacts(s, g, spaces, space, k);
    ReleaseSettles(s, g, RootOf(s.memory, space), PathsOf(spaces[space][k]));
    ReleaseRoles(s, g, RootOf(s.memory, space), PathsOf(spaces[space][k]), r);
  }

  lemma TwoRecordWrites(s: Physical, g: Ledger, spaces: Spaces, space: nat, k: nat, r: nat, q: Path)
    requires CanRelease(s, g, spaces, space, k) && IsRoot(g.roles, r)
    ensures Lookup(FreeRegion(s, space, spaces[space], k).memory, r, q)
              == Lookup(Released(s, space, spaces[space][k]).memory, r, q)
  {
    hide VmInv, Settled, Inv, Leaves, Unlinked, Walk, Released, ReleasedLedger, FreeRegion, FreeRegionLedger, LeafTable;
    var t, h := Released(s, space, spaces[space][k]), ReleasedLedger(s, g, space, spaces[space][k]);
    ReleasedIsTree(s, g, spaces, space, k, r);
    UnlinkedIsWrite(s, g, spaces, space, k);
    LinkOwnerFacts(s, g, spaces, space, k);
    ReleasedRecords(s, g, spaces, space, k, LinkOwner(space, spaces[space], k));
    RecordWriteWalk(t, h, LinkOwner(space, spaces[space], k), if k == 0 then SPACE_REGIONS else REGION_NEXT,
                    s.memory[spaces[space][k].record][REGION_NEXT], r, q);
    UnlinkedSettles(s, g, spaces, space, k);
    FreeRegionIsPush(s, g, spaces, space, k);
    SettledInv(Unlinked(s, space, spaces[space], k), h);
    RecordWriteWalk(Unlinked(s, space, spaces[space], k), h, spaces[space][k].record, 0, t.pageList, r, q);
  }

  lemma SettledInv(s: Physical, g: Ledger)
    requires Settled(s, g)
    ensures Inv(s, g)
  {
  }

  /** vm_free gives back the frames behind the region and its record; every other role stays. */
  lemma FreeRegionRoles(s: Physical, g: Ledger, spaces: Spaces, space: nat, k: nat, f: nat)
    requires CanRelease(s, g, spaces, space, k) && f in g.roles
    ensures f in FreeRegionLedger(s, g, space, spaces[space], k).roles
    ensures FreeRegionLedger(s, g, space, spaces[space], k).roles[f] ==
            if f == spaces[space][k].record || BehindPaths(g.roles[f], s.memory, RootOf(s.memory, space),
                                                           PathsOf(spaces[space][k]))
            then Free else g.roles[f]
  {
    hide VmInv, CanFreePages, SpaceOk, PathsOf, BehindPaths, FreePagesLedger;
    ReleaseFacts(s, g, spaces, space, k);
    FreeRegionIsPush(s, g, spaces, space, k);
    ReleaseRoles(s, g, RootOf(s.memory, space), PathsOf(spaces[space][k]), f);
  }

  /** Words of records: only the link owner and the freed record change. */
  lemma FreeRegionKeepsRecord(s: Physical, g: Ledger, spaces: Spaces, space: nat, k: nat, f: nat)
    requires CanRelease(s, g, spaces, space, k) && f in g.roles && RecordRole(g.roles[f])
             && f != spaces[space][k].record
    ensures f in s.memory && f in FreeRegion(s, space, spaces[space], k).memory
    ensures spaces[space][k].record in s.memory
    ensures FreeRegion(s, space, spaces[space], k).memory[f] ==
            if f == LinkOwner(space, spaces[space], k)
            then s.memory[f][(if k == 0 then SPACE_REGIONS
                              else REGION_NEXT) := s.memory[spaces[space][k].record][REGION_NEXT]]
            else s.memory[f]
  {
    hide VmInv, Released, ReleasedLedger, Unlinked, FreeRegion, FreeRegionLedger, SpaceOk;
    UnlinkedIsWrite(s, g, spaces, space, k);
    FreeRegionIsPush(s, g, spaces, space, k);
    ReleasedRecords(s, g, spaces, space, k, f);
  }

  /** The list without the freed region. */
  lemma FreeRegionChain(s: Physical, g: Ledger, spaces: Spaces, space: nat, k: nat)
    requires CanRelease(s, g, spaces, space, k)
    ensures var n := FreeRegion(s, space, spaces[space], k).memory;
            && space in n && RootOf(n, space) == RootOf(s.memory, space)
            && Chain(n, n[space][SPACE_REGIONS], Without(spaces[space], k))
  {
    hide VmInv, FreeRegion, Covers, Layout, Chain;
    var n, regions := FreeRegion(s, space, spaces[space], k).memory, spaces[space];
    RecordFacts(s, g, spaces, space, k);
    LinkOwnerFacts(s, g, spaces, space, k);
    FreeRegionKeepsRecord(s, g, spaces, space, k, space);
    forall j | 0 <= j < |regions| && j != k
      ensures regions[j].record in n && regions[j].record in s.memory
      ensures n[regions[j].record] == if j == k - 1
                                      then s.memory[regions[j].record][REGION_NEXT :=
                                             s.memory[regions[k].record][REGION_NEXT]]
                                      else s.memory[regions[j].record]
    {
      FreeRegionKeepsRecord(s, g, spaces, space, k, regions[j].record);
    }
    ChainWithoutRegion(s.memory, n, s.memory[space][SPACE_REGIONS], n[space][SPACE_REGIONS], regions, k);
  }

  lemma ChainWithoutRegion(m: Memory, n: Memory, head: nat, after: nat, regions: seq<Region>, k: nat)
    requires Chain(m, head, regions) && k < |regions|
    requires forall i, j :: 0 <= i < j < |regions| ==> regions[i].record != regions[j].record
    requires regions[k].record in m
    requires forall j :: 0 <= j < |regions| && j != k ==>
               && regions[j].record in n && regions[j].record in m
               && n[regions[j].record] == if j == k - 1
                                          then m[regions[j].record][REGION_NEXT := m[regions[k].record][REGION_NEXT]]
                                          else m[regions[j].record]
    requires after == if k == 0 then m[regions[k].record][REGION_NEXT] else head
    ensures Chain(n, after, Without(regions, k))
  {
    if k == 0 {
      var rest := regions[1..];
      assert Without(regions, 0) == rest;
      assert forall j :: 0 <= j < |rest| ==> rest[j] == regions[j + 1];
      ChainFrame(m, n, m[head][REGION_NEXT], rest);
    } else {
      ChainWithout(m, n, head, regions, k);
    }
  }

  lemma LayoutWithout(regions: seq<Region>, k: nat)
    requires Layout(regions) && k < |regions|
    ensures Layout(Without(regions, k))
  {
    hide RangePaths, Apart;
  }

  lemma CoveredWithout(regions: seq<Region>, k: nat, p: Path)
    requires Layout(regions) && k < |regions|
    ensures Covered(Without(regions, k), p) <==> Covered(regions, p) && p !in PathsOf(regions[k])
  {
    hide PathsOf;
    var rest := Without(regions, k);
    if Covered(rest, p) {
      var j :| 0 <= j < |rest| && p in PathsOf(rest[j]);
      var i := if j < k then j else j + 1;
      assert rest[j] == regions[i] && Apart(regions[i], regions[k]);
    }
    if Covered(regions, p) && p !in PathsOf(regions[k]) {
      var i :| 0 <= i < |regions| && p in PathsOf(regions[i]);
      assert rest[if i < k then i else i - 1] == regions[i];
    }
  }

  lemma FreeRegionCovers(s: Physical, g: Ledger, spaces: Spaces, space: nat, k: nat)
    requires CanRelease(s, g, spaces, space, k)
    ensures Covers(FreeRegion(s, space, spaces[space], k).memory, RootOf(s.memory, space), Without(spaces[space], k))
  {
    hide VmInv, FreeRegion, Layout, Chain, RangePaths, Walk, Covered;
    RecordFacts(s, g, spaces, space, k);
    var n, root := FreeRegion(s, space, spaces[space], k).memory, RootOf(s.memory, space);
    forall p: Path | p.l4 < 256
      ensures Present(Lookup(n, root, p)) <==> Covered(Without(spaces[space], k), p)
    {
      FreeRegionLookup(s, g, spaces, space, k, root, p);
      CoveredWithout(spaces[space], k, p);
    }
  }

  lemma RecordIsNotBehindPaths(role: Role, m: Memory, root: nat, paths: seq<Path>)
    requires RecordRole(role) || role.Table?
    ensures !BehindPaths(role, m, root, paths)
  {
  }

  lemma FreeRegionSpaceOk(s: Physical, g: Ledger, spaces: Spaces, space: nat, k: nat)
    requires CanRelease(s, g, spaces, space, k)
    ensures SpaceOk(FreeRegion(s, space, spaces[space], k).memory,
                    FreeRegionLedger(s, g, space, spaces[space], k).roles,
                    space, Without(spaces[space], k))
  {
    hide VmInv, FreeRegion, FreeRegionLedger, Layout, Chain, Covers, BehindPaths;
    var roles, regions := FreeRegionLedger(s, g, space, spaces[space], k).roles, spaces[space];
    RecordFacts(s, g, spaces, space, k);
    FreeRegionChain(s, g, spaces, space, k);
    FreeRegionCovers(s, g, spaces, space, k);
    LayoutWithout(regions, k);
    KeptRole(s, g, spaces, space, k, space);
    KeptRole(s, g, spaces, space, k, RootOf(s.memory, space));
    forall j | 0 <= j < |regions| && j != k
      ensures regions[j].record in roles && roles[regions[j].record] == RegionRecord(space)
    {
      KeptRole(s, g, spaces, space, k, regions[j].record);
    }
    RecordsWithout(g.roles, roles, space, regions, k);
  }

  lemma KeptRole(s: Physical, g: Ledger, spaces: Spaces, space: nat, k: nat, f: nat)
    requires CanRelease(s, g, spaces, space, k) && f in g.roles && f != spaces[space][k].record
    requires RecordRole(g.roles[f]) || g.roles[f].Table?
    ensures f in FreeRegionLedger(s, g, space, spaces[space], k).roles
    ensures FreeRegionLedger(s, g, space, spaces[space], k).roles[f] == g.roles[f]
  {
    hide VmInv, FreeRegionLedger, BehindPaths;
    FreeRegionRoles(s, g, spaces, space, k, f);
    RecordIsNotBehindPaths(g.roles[f], s.memory, RootOf(s.memory, space), PathsOf(spaces[space][k]));
  }

  lemma RecordsWithout(before: Roles, after: Roles, sp: nat, regions: seq<Region>, k: nat)
    requires RecordsOf(before, sp, regions) && k < |regions|
    requires forall j ::
               0 <= j < |regions| && j != k ==>
                 regions[j].record in after && after[regions[j].record] == RegionRecord(sp)
    ensures RecordsOf(after, sp, Without(regions, k))
  {
  }

  lemma OtherSpaceSurvives(s: Physical, g: Ledger, spaces: Spaces, space: nat, k: nat, sp: nat)
    requires CanRelease(s, g, spaces, space, k) && sp in spaces && sp != space
    ensures SpaceOk(FreeRegion(s, space, spaces[space], k).memory,
                    FreeRegionLedger(s, g, space, spaces[space], k).roles, sp, spaces[sp])
  {
    hide VmInv, FreeRegion, FreeRegionLedger, Layout, Chain, Covers, BehindPaths, Walk, PathsOf;
    var n, after := FreeRegion(s, space, spaces[space], k).memory,
                    FreeRegionLedger(s, g, space, spaces[space], k).roles;
    SpaceFacts(s, g, spaces, sp);
    RecordFacts(s, g, spaces, space, k);
    LinkOwnerFacts(s, g, spaces, space, k);
    RootsApart(s, g, spaces, sp, space);
    KeptRole(s, g, spaces, space, k, sp);
    KeptRole(s, g, spaces, space, k, RootOf(s.memory, sp));
    FreeRegionKeepsRecord(s, g, spaces, space, k, sp);
    forall j | 0 <= j < |spaces[sp]|
      ensures spaces[sp][j].record in n && spaces[sp][j].record in s.memory
              && n[spaces[sp][j].record] == s.memory[spaces[sp][j].record]
      ensures spaces[sp][j].record in after && after[spaces[sp][j].record] == g.roles[spaces[sp][j].record]
    {
      KeptRole(s, g, spaces, space, k, spaces[sp][j].record);
      FreeRegionKeepsRecord(s, g, spaces, space, k, spaces[sp][j].record);
    }
    forall p: Path | p.l4 < 256
      ensures Lookup(n, RootOf(s.memory, sp), p) == Lookup(s.memory, RootOf(s.memory, sp), p) {
      FreeRegionLookup(s, g, spaces, space, k, RootOf(s.memory, sp), p);
    }
    SpaceFrame(s.memory, n, g.roles, after, sp, spaces[sp]);
  }

  lemma FreeRegionDomain(s: Physical, g: Ledger, spaces: Spaces, space: nat, k: nat)
    requires CanRelease(s, g, spaces, space, k)
    ensures FreeRegionLedger(s, g, space, spaces[space], k).roles.Keys == g.roles.Keys
  {
    hide VmInv, RangePaths, SpaceOk;
    ReleaseFacts(s, g, spaces, space, k);
    FreeRegionIsPush(s, g, spaces, space, k);
    FreePagesDomain(s, g, RootOf(s.memory, space), PathsOf(spaces[space][k]));
  }

  lemma {:induction false} FreePagesDomain(s: Physical, g: Ledger, root: nat, paths: seq<Path>)
    ensures FreePagesLedger(s, g, root, paths).roles.Keys == g.roles.Keys
  {
    if paths != [] {
      FreePagesDomain(s, g, root, Front(paths));
    }
  }

  /** Accounts stay complete when data frames and one region record become free. */
  lemma AccountsShrink(m: Memory, n: Memory, before: Roles, after: Roles, spaces: Spaces, space: nat, k: nat)
    requires Accounted(m, before, spaces) && space in spaces && k < |spaces[space]|
             && RecordsOf(before, space, spaces[space])
    requires forall f ::
               f in after ==>
                 f in before && (after[f] == Free || (after[f] == before[f] && f != spaces[space][k].record))
    requires forall sp :: sp in spaces ==> RootOf(n, sp) == RootOf(m, sp)
    ensures Accounted(n, after, FreeRegionSpaces(spaces, space, k))
  {
    var all: Spaces := FreeRegionSpaces(spaces, space, k);
    forall t | ManagedRoot(after, t) ensures exists sp :: sp in all && RootOf(n, sp) == t {
      assert ManagedRoot(before, t);
      var sp :| sp in spaces && RootOf(m, sp) == t;
      assert sp in all && RootOf(n, sp) == t;
    }
    forall f | f in after && after[f].RegionRecord?
      ensures after[f].space in all && exists j :: 0 <= j < |all[after[f].space]| && all[after[f].space][j].record == f
    {
      StillListed(spaces, space, k, after[f].space, f);
    }
  }

  /** A record other than the removed one is still on its space's list. */
  lemma StillListed(spaces: Spaces, space: nat, k: nat, sp: nat, f: nat)
    requires space in spaces && k < |spaces[space]| && sp in spaces && f != spaces[space][k].record
    requires exists j :: 0 <= j < |spaces[sp]| && spaces[sp][j].record == f
    ensures var all := FreeRegionSpaces(spaces, space, k);
            sp in all && exists j :: 0 <= j < |all[sp]| && all[sp][j].record == f
  {
    var all: Spaces := FreeRegionSpaces(spaces, space, k);
    var j :| 0 <= j < |spaces[sp]| && spaces[sp][j].record == f;
    assert all[sp][if sp == space && j > k then j - 1 else j].record == f;
  }

  lemma FreeRegionAccounts(s: Physical, g: Ledger, spaces: Spaces, space: nat, k: nat)
    requires CanRelease(s, g, spaces, space, k)
    ensures Accounted(FreeRegion(s, space, spaces[space], k).memory,
                      FreeRegionLedger(s, g, space, spaces[space], k).roles,
                      FreeRegionSpaces(spaces, space, k))
  {
    hide VmInv, FreeRegion, FreeRegionLedger, Layout, Chain, Covers, BehindPaths, Accounted, Settled, SpaceOk;
    var n, after := FreeRegion(s, space, spaces[space], k).memory,
                    FreeRegionLedger(s, g, space, spaces[space], k).roles;
    RecordFacts(s, g, spaces, space, k);
    AccountsOf(s, g, spaces);
    FreeRegionDomain(s, g, spaces, space, k);
    forall f | f in after
      ensures f in g.roles && (after[f] == Free || (after[f] == g.roles[f] && f != spaces[space][k].record)) {
      FreeRegionRoles(s, g, spaces, space, k, f);
    }
    forall sp | sp in spaces ensures RootOf(n, sp) == RootOf(s.memory, sp) {
      SpaceRootKept(s, g, spaces, space, k, sp);
    }
    AccountsShrink(s.memory, n, g.roles, after, spaces, space, k);
  }

  lemma AccountsOf(s: Physical, g: Ledger, spaces: Spaces)
    requires VmInv(s, g, spaces)
    ensures Accounted(s.memory, g.roles, spaces)
  {
  }

  lemma SpaceRootKept(s: Physical, g: Ledger, spaces: Spaces, space: nat, k: nat, sp: nat)
    requires CanRelease(s, g, spaces, space, k) && sp in spaces
    ensures RootOf(FreeRegion(s, space, spaces[space], k).memory, sp) == RootOf(s.memory, sp)
  {
    hide VmInv, FreeRegion, Layout, Chain, Covers, Settled;
    SpaceFacts(s, g, spaces, sp);
    RecordFacts(s, g, spaces, space, k);
    LinkOwnerFacts(s, g, spaces, space, k);
    FreeRegionKeepsRecord(s, g, spaces, space, k, sp);
  }

  /** vm_free of a whole region keeps every space and the whole account of frames. */
  lemma FreeRegionKeepsVm(s: Physical, g: Ledger, spaces: Spaces, space: nat, k: nat)
    requires CanRelease(s, g, spaces, space, k)
    ensures VmInv(FreeRegion(s, space, spaces[space], k), FreeRegionLedger(s, g, space, spaces[space], k),
                  FreeRegionSpaces(spaces, space, k))
  {
    hide VmInv, FreeRegion, FreeRegionLedger, SpaceOk, Accounted, Settled;
    FreeRegionSettles(s, g, spaces, space, k);
    FreeRegionAccounts(s, g, spaces, space, k);
    FreeRegionSpaceOk(s, g, spaces, space, k);
    forall sp | sp in spaces && sp != space
      ensures SpaceOk(FreeRegion(s, space, spaces[space], k).memory,
                      FreeRegionLedger(s, g, space, spaces[space], k).roles, sp, spaces[sp])
    {
      OtherSpaceSurvives(s, g, spaces, space, k, sp);
    }
    VmInvOf(FreeRegion(s, space, spaces[space], k), FreeRegionLedger(s, g, space, spaces[space], k),
            FreeRegionSpaces(spaces, space, k));
  }
}
