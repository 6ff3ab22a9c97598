/** Whole runs of the vm operations over any number of address spaces. */
module VmRuns {
  import opened Words
  import opened PageTables
  import opened Mapping
  import opened AddressSpaces
  import opened Ownership
  import opened VmPages
  import opened VmSpaces
  import opened VmAllocation
  import opened VmRelease
  import opened VmLaws
  import opened VmCreation
  import opened VmWindows
  import opened Permissions
  import opened VmAccess
  import opened Machines

  /** vm_space_create, vm_alloc, vm_alloc_at, vm_free and vm_space_destroy. */
  datatype VmOp =
    | Create(kernel: nat, base: Word, end: Word)
    | AllocAt(space: nat, base: Word, pages: nat, flags: Word)
    | Alloc(space: nat, size: Word, flags: Word)
    | FreeRange(space: nat, region: nat)
    | Destroy(space: nat)

  datatype VmState = VmState(physical: Physical, ledger: Ledger, spaces: Spaces)

  ghost predicate Sound(v: VmState) {
    VmInv(v.physical, v.ledger, v.spaces)
  }

  /** What the operation asks of its caller. */
  ghost predicate Permitted(v: VmState, op: VmOp) {
    match op
    case Create(kernel, _, _) => |v.ledger.free| >= 2 && IsRoot(v.ledger.roles, kernel)
    case AllocAt(space, base, pages, flags) => CanAllocRegion(v.physical, v.ledger, v.spaces, space, base, pages, flags)
    case Alloc(space, size, flags) => CanAllocNext(v.physical, v.ledger, v.spaces, space, size, flags)
    case FreeRange(space, k) => space in v.spaces && k < |v.spaces[space]|
    case Destroy(space) => space in v.spaces
  }

  ghost function Created(v: VmState, kernel: nat, base: Word, end: Word): VmState
    requires |v.ledger.free| >= 2
  {
    VmState(CreateSpace(v.physical, kernel, base, end), CreateSpaceLedger(v.physical, v.ledger),
            v.spaces[v.physical.pageList := []])
  }

  ghost function Allocated(v: VmState, space: nat, base: Word, pages: nat, flags: Word): VmState
    requires CleanFlags(flags) && LowerRange(base, pages) && space in v.spaces
  {
    VmState(AllocRegion(v.physical, space, base, pages, flags),
            AllocRegionLedger(v.physical, v.ledger, space, base, pages, flags),
            AllocRegionSpaces(v.physical, v.spaces, space, base, pages, flags))
  }

  ghost function AllocatedNext(v: VmState, space: nat, size: Word, flags: Word): VmState
    requires CanAllocNext(v.physical, v.ledger, v.spaces, space, size, flags)
  {
    var (t, h, all) := AllocNext(v.physical, v.ledger, v.spaces, space, size, flags);
    VmState(t, h, all)
  }

  ghost function Freed(v: VmState, space: nat, k: nat): VmState
    requires space in v.spaces && k < |v.spaces[space]|
  {
    VmState(FreeRegion(v.physical, space, v.spaces[space], k),
            FreeRegionLedger(v.physical, v.ledger, space, v.spaces[space], k),
            FreeRegionSpaces(v.spaces, space, k))
  }

  ghost function Destroyed(v: VmState, space: nat): VmState
    requires space in v.spaces
  {
    VmState(DestroyState(v.physical, space, v.spaces[space]),
            DestroyLedger(v.physical, v.ledger, space, v.spaces[space]), v.spaces[space := []])
  }

  ghost function Perform(v: VmState, op: VmOp): VmState
    requires Permitted(v, op)
  {
    match op
    case Create(kernel, base, end) => Created(v, kernel, base, end)
    case AllocAt(space, base, pages, flags) => Allocated(v, space, base, pages, flags)
    case Alloc(space, size, flags) => AllocatedNext(v, space, size, flags)
    case FreeRange(space, k) => Freed(v, space, k)
    case Destroy(space) => Destroyed(v, space)
  }

  lemma PerformKeepsSound(v: VmState, op: VmOp)
    requires Sound(v) && Permitted(v, op)
    ensures Sound(Perform(v, op))
  {
    hide VmInv, CanAllocRegion, AllocRegion, AllocRegionLedger, FreeRegion, FreeRegionLedger, CreateSpace,
         CreateSpaceLedger;
    hide CanAllocNext, AllocNext;
    match op
    case Create(kernel, base, end) => CreateSpaceKeepsVm(v.physical, v.ledger, v.spaces, kernel, base, end);
    case AllocAt(space, base, pages, flags) =>
      AllocRegionKeepsVm(v.physical, v.ledger, v.spaces, space, base, pages, flags);
    case Alloc(space, size, flags) => AllocNextKeepsVm(v.physical, v.ledger, v.spaces, space, size, flags);
    case FreeRange(space, k) => FreeRegionKeepsVm(v.physical, v.ledger, v.spaces, space, k);
    case Destroy(space) => DestroyKeepsVm(v.physical, v.ledger, v.spaces, space);
  }

  lemma AllocDomain(s: Physical, g: Ledger, spaces: Spaces, space: nat, base: Word, pages: nat, flags: Word)
    requires CanAllocRegion(s, g, spaces, space, base, pages, flags)
    ensures AllocRegionLedger(s, g, space, base, pages, flags).roles.Keys == g.roles.Keys
  {
    hide VmInv, CanAllocPages, AllocRegionLedger;
    forall f | f in g.roles ensures f in AllocRegionLedger(s, g, space, base, pages, flags).roles {
      AllocRegionRoles(s, g, spaces, space, base, pages, flags, f);
    }
    forall f | f in AllocRegionLedger(s, g, space, base, pages, flags).roles ensures f in g.roles {
      AllocRegionDomain(s, g, spaces, space, base, pages, flags, f);
    }
  }

  lemma {:induction false} DestroyDomain(s: Physical, g: Ledger, spaces: Spaces, space: nat)
    requires VmInv(s, g, spaces) && space in spaces
    ensures DestroyLedger(s, g, space, spaces[space]).roles.Keys == g.roles.Keys
    decreases |spaces[space]|
  {
    hide VmInv, FreeRegion, FreeRegionLedger;
    if spaces[space] != [] {
      FreeRegionKeepsVm(s, g, spaces, space, 0);
      FreeRegionDomain(s, g, spaces, space, 0);
      assert Without(spaces[space], 0) == spaces[space][1..];
      DestroyDomain(FreeRegion(s, space, spaces[space], 0), FreeRegionLedger(s, g, space, spaces[space], 0),
                    FreeRegionSpaces(spaces, space, 0), space);
    }
  }

  lemma CreateDomain(s: Physical, g: Ledger, spaces: Spaces, kernel: nat)
    requires CanCreateSpace(s, g, spaces, kernel)
    ensures CreateSpaceLedger(s, g).roles.Keys == g.roles.Keys
  {
    hide VmInv, Inv;
    CreateFacts(s, g, spaces, kernel);
  }

  lemma AllocNextDomain(v: VmState, space: nat, size: Word, flags: Word)
    requires Permitted(v, Alloc(space, size, flags))
    ensures AllocatedNext(v, space, size, flags).ledger.roles.Keys == v.ledger.roles.Keys
  {
    hide VmInv, CanAllocPages, AllocRegion, AllocRegionLedger, RangePaths;
    var base, pages := v.physical.memory[space][SPACE_NEXT_FREE], RoundUp(size) / PAGE_SIZE;
    AllocDomain(v.physical, v.ledger, v.spaces, space, base, pages, flags);
  }

  /** No operation makes a frame appear or vanish. */
  lemma PerformKeepsFrames(v: VmState, op: VmOp)
    requires Sound(v) && Permitted(v, op)
    ensures Perform(v, op).ledger.roles.Keys == v.ledger.roles.Keys
  {
    hide VmInv, CanAllocRegion, AllocRegion, AllocRegionLedger, FreeRegion, FreeRegionLedger, CreateSpace,
         CreateSpaceLedger;
    hide CanAllocNext, AllocNext, AllocatedNext;
    match op
    case Create(kernel, base, end) => CreateDomain(v.physical, v.ledger, v.spaces, kernel);
    case AllocAt(space, base, pages, flags) => AllocDomain(v.physical, v.ledger, v.spaces, space, base, pages, flags);
    case Alloc(space, size, flags) => AllocNextDomain(v, space, size, flags);
    case FreeRange(space, k) => FreeRegionDomain(v.physical, v.ledger, v.spaces, space, k);
    case Destroy(space) => DestroyDomain(v.physical, v.ledger, v.spaces, space);
  }

  // ----- frames outside

  /** Neither the frames outside this model nor the kernel roots change hands. */
  predicate SameOutside(before: Role, after: Role) {
    (before == Other <==> after == Other) && (IsKernelRoot(before) <==> IsKernelRoot(after))
  }

  lemma CreateKeepsOutside(v: VmState, kernel: nat, base: Word, end: Word, f: nat)
    requires Sound(v) && Permitted(v, Create(kernel, base, end)) && f in v.ledger.roles
    ensures var after := Created(v, kernel, base, end).ledger.roles;
            f in after && SameOutside(v.ledger.roles[f], after[f])
  {
    hide VmInv, Inv, CreateSpace;
    CreateFacts(v.physical, v.ledger, v.spaces, kernel);
  }

  lemma AllocKeepsOutside(v: VmState, space: nat, base: Word, pages: nat, flags: Word, f: nat)
    requires Permitted(v, AllocAt(space, base, pages, flags)) && f in v.ledger.roles
    ensures var after := Allocated(v, space, base, pages, flags).ledger.roles;
            f in after && SameOutside(v.ledger.roles[f], after[f])
  {
    hide VmInv, AllocRegion, AllocRegionLedger, CanAllocPages, AllocPages, RangePaths;
    AllocRegionRoles(v.physical, v.ledger, v.spaces, space, base, pages, flags, f);
  }

  lemma AllocNextKeepsOutside(v: VmState, space: nat, size: Word, flags: Word, f: nat)
    requires Permitted(v, Alloc(space, size, flags)) && f in v.ledger.roles
    ensures var after := AllocatedNext(v, space, size, flags).ledger.roles;
            f in after && SameOutside(v.ledger.roles[f], after[f])
  {
    hide VmInv, CanAllocPages, AllocRegion, AllocRegionLedger, RangePaths, SameOutside;
    var base, pages := v.physical.memory[space][SPACE_NEXT_FREE], RoundUp(size) / PAGE_SIZE;
    AllocKeepsOutside(v, space, base, pages, flags, f);
  }

  lemma FreeKeepsOutside(v: VmState, space: nat, k: nat, f: nat)
    requires Sound(v) && space in v.spaces && k < |v.spaces[space]| && f in v.ledger.roles
    ensures var after := Freed(v, space, k).ledger.roles; f in after && SameOutside(v.ledger.roles[f], after[f])
  {
    hide VmInv, FreeRegion, FreeRegionLedger, PathsOf;
    RegionRecordRole(v, space, k);
    FreeRegionRoles(v.physical, v.ledger, v.spaces, space, k, f);
  }

  lemma RegionRecordRole(v: VmState, space: nat, k: nat)
    requires Sound(v) && space in v.spaces && k < |v.spaces[space]|
    ensures var rec := v.spaces[space][k].record; rec in v.ledger.roles && v.ledger.roles[rec].RegionRecord?
  {
    hide Settled, Accounted, Chain, Layout, Covers;
    SpaceFacts(v.physical, v.ledger, v.spaces, space);
  }

  lemma {:induction false} DestroyKeepsOutside(v: VmState, space: nat, f: nat)
    requires Sound(v) && space in v.spaces && f in v.ledger.roles
    ensures var after := Destroyed(v, space).ledger.roles; f in after && SameOutside(v.ledger.roles[f], after[f])
    decreases |v.spaces[space]|
  {
    hide VmInv, FreeRegion, FreeRegionLedger;
    if v.spaces[space] != [] {
      FreeRegionKeepsVm(v.physical, v.ledger, v.spaces, space, 0);
      FreeKeepsOutside(v, space, 0, f);
      assert Without(v.spaces[space], 0) == v.spaces[space][1..];
      DestroyKeepsOutside(Freed(v, space, 0), space, f);
    }
  }

  lemma PerformKeepsOutside(v: VmState, op: VmOp, f: nat)
    requires Sound(v) && Permitted(v, op) && f in v.ledger.roles
    ensures f in Perform(v, op).ledger.roles && SameOutside(v.ledger.roles[f], Perform(v, op).ledger.roles[f])
  {
    hide VmInv, CanAllocRegion, CanAllocNext, Created, Allocated, AllocatedNext, Freed, Destroyed;
    match op
    case Create(kernel, base, end) => CreateKeepsOutside(v, kernel, base, end, f);
    case AllocAt(space, base, pages, flags) => AllocKeepsOutside(v, space, base, pages, flags, f);
    case Alloc(space, size, flags) => AllocNextKeepsOutside(v, space, size, flags, f);
    case FreeRange(space, k) => FreeKeepsOutside(v, space, k, f);
    case Destroy(space) => DestroyKeepsOutside(v, space, f);
  }

  // ----- runs

  /** A run: each operation is permitted in the state the ones before it leave. */
  ghost predicate RunsTo(v: VmState, ops: seq<VmOp>, w: VmState)
    decreases |ops|
  {
    if ops == [] then v == w
    else Sound(v) && Permitted(v, ops[0]) && RunsTo(Perform(v, ops[0]), ops[1..], w)
  }

  lemma {:induction false} RunKeepsSound(v: VmState, ops: seq<VmOp>, w: VmState)
    requires Sound(v) && RunsTo(v, ops, w)
    ensures Sound(w) && w.ledger.roles.Keys == v.ledger.roles.Keys
    decreases |ops|
  {
    hide Sound, Permitted, Perform;
    if ops != [] {
      PerformKeepsSound(v, ops[0]);
      PerformKeepsFrames(v, ops[0]);
      RunKeepsSound(Perform(v, ops[0]), ops[1..], w);
    }
  }

  lemma {:induction false} RunKeepsOutside(v: VmState, ops: seq<VmOp>, w: VmState, f: nat)
    requires Sound(v) && RunsTo(v, ops, w) && f in v.ledger.roles
    ensures f in w.ledger.roles && SameOutside(v.ledger.roles[f], w.ledger.roles[f])
    decreases |ops|
  {
    hide Sound, Permitted, Perform, IsKernelRoot;
    if ops != [] {
      PerformKeepsSound(v, ops[0]);
      PerformKeepsOutside(v, ops[0], f);
      RunKeepsOutside(Perform(v, ops[0]), ops[1..], w, f);
    }
  }

  lemma KernelRootsStay(v: VmState, ops: seq<VmOp>, w: VmState)
    requires Sound(v) && RunsTo(v, ops, w)
    ensures KernelRoots(w.ledger.roles) == KernelRoots(v.ledger.roles)
  {
    hide Sound, RunsTo, IsKernelRoot;
    RunKeepsSound(v, ops, w);
    forall r | r in v.ledger.roles ensures r in w.ledger.roles && SameOutside(v.ledger.roles[r], w.ledger.roles[r]) {
      RunKeepsOutside(v, ops, w, r);
    }
  }

  lemma SoundFrames(v: VmState)
    requires Sound(v)
    ensures v.physical.memory.Keys == v.ledger.roles.Keys
  {
  }

  /**
   Conservation over every run: each frame there was at the start has exactly one role at the end, memory agrees with
   that role, and no frame leaks: the frames outside this model and the kernel roots are those of the start. Every
   other frame is on the free list, a table met by a walk from a root, behind a page, or a record.
   */
  lemma FramesAreConserved(v: VmState, ops: seq<VmOp>, w: VmState, f: nat)
    requires Sound(v) && RunsTo(v, ops, w) && f in v.physical.memory
    ensures f in w.physical.memory && f in v.ledger.roles && f in w.ledger.roles && FreeList(w.physical, w.ledger)
    ensures w.ledger.roles[f] == Other <==> v.ledger.roles[f] == Other
    ensures w.ledger.roles[f] == Free <==> f in w.ledger.free
    ensures w.ledger.roles[f].Table? <==> IsPageTable(w.physical.memory, KernelRoots(v.ledger.roles), w.spaces, f)
    ensures w.ledger.roles[f].Data? <==> IsMapped(w.physical.memory, w.spaces, f)
    ensures w.ledger.roles[f] == SpaceRecord <==> f in w.spaces
    ensures w.ledger.roles[f].RegionRecord? <==> IsListed(w.spaces, f)
  {
    hide VmInv, RunsTo, IsPageTable, IsMapped, IsListed, FreeList;
    RunKeepsSound(v, ops, w);
    SoundFrames(v);
    SoundFrames(w);
    RunKeepsOutside(v, ops, w, f);
    KernelRootsStay(v, ops, w);
    EveryFrameHasOneUse(w.physical, w.ledger, w.spaces, f);
  }

  /** So a frame that was ever under management is always in use for something, or free. */
  lemma NoFrameLeaks(v: VmState, ops: seq<VmOp>, w: VmState, f: nat)
    requires Sound(v) && RunsTo(v, ops, w) && f in v.physical.memory && f in v.ledger.roles
             && v.ledger.roles[f] != Other
    ensures f in w.ledger.free || IsPageTable(w.physical.memory, KernelRoots(v.ledger.roles), w.spaces, f)
         || IsMapped(w.physical.memory, w.spaces, f) || f in w.spaces || IsListed(w.spaces, f)
  {
    hide VmInv, RunsTo, IsPageTable, IsMapped, IsListed, FreeList;
    FramesAreConserved(v, ops, w, f);
  }

  // ----- windows over runs

  /** Every space has its window free. */
  ghost predicate WindowsAreFree(v: VmState) {
    forall sp :: sp in v.spaces ==> WindowIsFree(v.physical.memory, sp, v.spaces[sp])
  }

  /** What callers must keep to: windows in the lower half, and vm_alloc_at away from the window of its space. */
  ghost predicate Disciplined(v: VmState, op: VmOp) {
    match op
    case Create(_, base, end) => IsWindow(base, end)
    case AllocAt(space, base, pages, _) => Clear(base, pages, NextFree(v.physical.memory, space),
                                                 HeapEnd(v.physical.memory, space))
    case _ => true
  }

  lemma CreateKeepsWindows(v: VmState, kernel: nat, base: Word, end: Word)
    requires Sound(v) && Permitted(v, Create(kernel, base, end)) && IsWindow(base, end) && WindowsAreFree(v)
    ensures WindowsAreFree(Created(v, kernel, base, end))
  {
    hide VmInv, CreateSpace, CreateSpaceLedger;
    CreateMakesWindow(v.physical, v.ledger, v.spaces, kernel, base, end);
    forall sp | sp in v.spaces
      ensures SameWindow(v.physical.memory, CreateSpace(v.physical, kernel, base, end).memory, sp) {
      CreateKeepsWindow(v.physical, v.ledger, v.spaces, kernel, base, end, sp);
    }
  }

  lemma AllocKeepsWindows(v: VmState, space: nat, base: Word, pages: nat, flags: Word)
    requires Permitted(v, AllocAt(space, base, pages, flags)) && Disciplined(v, AllocAt(space, base, pages, flags))
             && WindowsAreFree(v)
    ensures WindowsAreFree(Allocated(v, space, base, pages, flags))
  {
    hide VmInv, AllocRegion, AllocRegionLedger, CanAllocPages, RangePaths, AllocPages;
    forall sp | sp in v.spaces
      ensures SameWindow(v.physical.memory, AllocRegion(v.physical, space, base, pages, flags).memory, sp) {
      AllocKeepsWindow(v.physical, v.ledger, v.spaces, space, base, pages, flags, sp);
    }
  }

  lemma AllocNextKeepsWindows(v: VmState, space: nat, size: Word, flags: Word)
    requires Permitted(v, Alloc(space, size, flags)) && space in v.spaces && WindowsAreFree(v)
    ensures WindowsAreFree(AllocatedNext(v, space, size, flags))
  {
    hide CanAllocNext, AllocNext, WindowIsFree, SameWindow;
    AllocNextMovesWindow(v.physical, v.ledger, v.spaces, space, size, flags);
    var w := AllocatedNext(v, space, size, flags);
    SpacesOfNext(v, space, size, flags);
    forall sp | sp in w.spaces && sp != space ensures WindowIsFree(w.physical.memory, sp, w.spaces[sp]) {
      AllocNextKeepsOthers(v.physical, v.ledger, v.spaces, space, size, flags, sp);
      SameWindowIsFree(v.physical.memory, w.physical.memory, sp, v.spaces[sp]);
    }
  }

  lemma SpacesOfNext(v: VmState, space: nat, size: Word, flags: Word)
    requires Permitted(v, Alloc(space, size, flags)) && space in v.spaces
    ensures AllocatedNext(v, space, size, flags).spaces.Keys == v.spaces.Keys
  {
    hide VmInv, AllocRegion, AllocRegionLedger, CanAllocPages, RangePaths, AllocPages;
  }

  lemma SameWindowIsFree(m: Memory, n: Memory, sp: nat, regions: seq<Region>)
    requires SameWindow(m, n, sp) && WindowIsFree(m, sp, regions)
    ensures WindowIsFree(n, sp, regions)
  {
  }

  lemma FreeKeepsWindows(v: VmState, space: nat, k: nat)
    requires space in v.spaces && k < |v.spaces[space]|
    requires Sound(v) && WindowsAreFree(v)
    ensures WindowsAreFree(Freed(v, space, k))
  {
    hide VmInv, FreeRegion, FreeRegionLedger;
    forall sp | sp in v.spaces
      ensures SameWindow(v.physical.memory, FreeRegion(v.physical, space, v.spaces[space], k).memory, sp) {
      FreeKeepsWindow(v.physical, v.ledger, v.spaces, space, k, sp);
    }
  }

  lemma DestroyKeepsWindows(v: VmState, space: nat)
    requires Sound(v) && space in v.spaces && WindowsAreFree(v)
    ensures WindowsAreFree(Destroyed(v, space))
  {
    hide VmInv, DestroyState, DestroyLedger;
    forall sp | sp in v.spaces
      ensures SameWindow(v.physical.memory, DestroyState(v.physical, space, v.spaces[space]).memory, sp) {
      DestroyKeepsWindow(v.physical, v.ledger, v.spaces, space, sp);
    }
  }

  lemma PerformKeepsWindows(v: VmState, op: VmOp)
    requires Sound(v) && Permitted(v, op) && Disciplined(v, op) && WindowsAreFree(v)
    ensures WindowsAreFree(Perform(v, op))
  {
    hide VmInv, CanAllocRegion, Created, Allocated, AllocatedNext, Freed, Destroyed, WindowsAreFree;
    match op
    case Create(kernel, base, end) => CreateKeepsWindows(v, kernel, base, end);
    case AllocAt(space, base, pages, flags) => AllocKeepsWindows(v, space, base, pages, flags);
    case Alloc(space, size, flags) =>
      NextIsInSpace(v, space, size, flags);
      AllocNextKeepsWindows(v, space, size, flags);
    case FreeRange(space, k) => FreeKeepsWindows(v, space, k);
    case Destroy(space) => DestroyKeepsWindows(v, space);
  }

  lemma NextIsInSpace(v: VmState, space: nat, size: Word, flags: Word)
    requires Permitted(v, Alloc(space, size, flags))
    ensures space in v.spaces
  {
    hide VmInv, CanAllocPages;
  }

  ghost predicate DisciplinedRun(v: VmState, ops: seq<VmOp>)
    decreases |ops|
  {
    ops != [] ==> Permitted(v, ops[0]) && Disciplined(v, ops[0]) && DisciplinedRun(Perform(v, ops[0]), ops[1..])
  }

  lemma {:induction false} RunKeepsWindows(v: VmState, ops: seq<VmOp>, w: VmState)
    requires Sound(v) && RunsTo(v, ops, w) && DisciplinedRun(v, ops) && WindowsAreFree(v)
    ensures WindowsAreFree(w)
    decreases |ops|
  {
    hide Sound, Permitted, Perform, Disciplined, WindowsAreFree;
    if ops != [] {
      PerformKeepsSound(v, ops[0]);
      PerformKeepsWindows(v, ops[0]);
      RunKeepsWindows(Perform(v, ops[0]), ops[1..], w);
    }
  }

  /** After every disciplined run vm_alloc may run whenever there is room before heap_end and there are frames
      enough. */
  lemma AllocNeedsRoomOnly(v: VmState, ops: seq<VmOp>, w: VmState, space: nat, size: Word, flags: Word)
    requires Sound(v) && RunsTo(v, ops, w) && DisciplinedRun(v, ops) && WindowsAreFree(v)
    requires space in w.spaces && 0 < size <= WORD_LIMIT - PAGE_SIZE && CleanFlags(flags)
    requires NextFree(w.physical.memory, space) + RoundUp(size) <= HeapEnd(w.physical.memory, space)
    requires |w.ledger.free| > 4 * (RoundUp(size) / PAGE_SIZE)
    ensures Permitted(w, Alloc(space, size, flags))
  {
    hide VmInv, RunsTo, DisciplinedRun, CanAllocNext;
    RunKeepsSound(v, ops, w);
    RunKeepsWindows(v, ops, w);
    RoomIsEnough(w.physical, w.ledger, w.spaces, space, size, flags);
  }

  // ----- what user code can reach

  /** The operation allocates for user code, or not at all. */
  predicate UserOnly(op: VmOp) {
    match op
    case AllocAt(_, _, _, flags) => ForUser(flags)
    case Alloc(_, _, flags) => ForUser(flags)
    case _ => true
  }

  ghost predicate OpenToUser(v: VmState) {
    UserTables(v.physical.memory, v.ledger.roles) && UserPages(v.physical.memory, v.ledger.roles)
  }

  lemma PerformKeepsUser(v: VmState, op: VmOp)
    requires Sound(v) && Permitted(v, op) && UserOnly(op) && OpenToUser(v)
    ensures OpenToUser(Perform(v, op))
  {
    hide VmInv, CanAllocRegion, AllocRegion, AllocRegionLedger, FreeRegion, FreeRegionLedger, CreateSpace,
         CreateSpaceLedger, CanAllocNext, AllocNext, UserTables, UserPages, DestroyState, DestroyLedger;
    var s, g, spaces := v.physical, v.ledger, v.spaces;
    match op
    case Create(kernel, base, end) =>
      CreateKeepsOpen(s, g, spaces, kernel, base, end);
      CreateKeepsUser(s, g, spaces, kernel, base, end);
    case AllocAt(space, base, pages, flags) =>
      AllocRegionKeepsOpen(s, g, spaces, space, base, pages, flags);
      AllocRegionKeepsUser(s, g, spaces, space, base, pages, flags);
    case Alloc(space, size, flags) =>
      NextKeepsOpen(s, g, spaces, space, size, flags);
      NextKeepsUser(s, g, spaces, space, size, flags);
    case FreeRange(space, k) =>
      FreeRegionKeepsOpen(s, g, spaces, space, k);
      FreeRegionKeepsUser(s, g, spaces, space, k);
    case Destroy(space) =>
      DestroyKeepsOpen(s, g, spaces, space);
      DestroyKeepsUser(s, g, spaces, space);
  }

  lemma {:induction false} RunKeepsUser(v: VmState, ops: seq<VmOp>, w: VmState)
    requires Sound(v) && RunsTo(v, ops, w) && OpenToUser(v)
    requires forall i :: 0 <= i < |ops| ==> UserOnly(ops[i])
    ensures OpenToUser(w)
    decreases |ops|
  {
    hide Sound, Permitted, Perform, OpenToUser, UserOnly;
    if ops != [] {
      PerformKeepsSound(v, ops[0]);
      PerformKeepsUser(v, ops[0]);
      RunKeepsUser(Perform(v, ops[0]), ops[1..], w);
    }
  }

  /** User code reaches a mapped page: RW and USER in every table above it, USER in its own entry. */
  lemma UserReachesPages(v: VmState, ops: seq<VmOp>, w: VmState, sp: nat, p: Path)
    requires Sound(v) && RunsTo(v, ops, w) && OpenToUser(v)
    requires forall i :: 0 <= i < |ops| ==> UserOnly(ops[i])
    requires sp in w.spaces && p.l4 < 256 && Lookup(w.physical.memory, RootOf(w.physical.memory, sp), p) % 2 == 1
    ensures Open(w.physical.memory, RootOf(w.physical.memory, sp), 4, p)
    ensures Lookup(w.physical.memory, RootOf(w.physical.memory, sp), p) / 4 % 2 == 1
  {
    hide RunsTo, UserTables, SpaceOk, Accounted, Lookup;
    RunKeepsSound(v, ops, w);
    RunKeepsUser(v, ops, w);
    SpaceFacts(w.physical, w.ledger, w.spaces, sp);
    SoundTrees(w);
    UserTablesAreOpen(w.physical.memory, w.ledger.roles, RootOf(w.physical.memory, sp), 4, p);
  }

  lemma SoundTrees(v: VmState)
    requires Sound(v)
    ensures TreeDown(v.physical.memory, v.ledger.roles)
  {
  }

  // ----- the start

  /** Before frame_init: page tables of the boot loader, which no space manages, and frames that nobody hands out
      yet. */
  predicate AtBoot(g: Ledger) {
    g.limbo == {} && forall f :: f in g.roles ==> g.roles[f] == Other || (g.roles[f].Table? && !g.roles[f].managed)
  }

  /** What frame_init leaves behind is a sound state without address spaces. */
  lemma StartIsSound(g: Ledger, s: Physical, h: Ledger, frames: seq<nat>)
    requires AtBoot(g) && Listed(g, h, frames) && Inv(s, h)
    ensures Sound(VmState(s, h, map[]))
  {
    hide Inv;
    assert forall f ::
             f in h.roles ==> h.roles[f] == Free || h.roles[f] == Other || (h.roles[f].Table? && !h.roles[f].managed);
  }

  /** At the start there is nothing that user code might reach. */
  lemma StartIsOpen(g: Ledger, s: Physical, h: Ledger, frames: seq<nat>)
    requires AtBoot(g) && Listed(g, h, frames) && Inv(s, h)
    ensures OpenToUser(VmState(s, h, map[]))
  {
    hide Inv, Lookup;
    assert forall f ::
             f in h.roles ==> h.roles[f] == Free || h.roles[f] == Other || (h.roles[f].Table? && !h.roles[f].managed);
  }

  /** From the start over every run, a frame that the memory map calls usable is free or in one of its uses. */
  lemma UsableFrameNeverLeaks(g: Ledger, s: Physical, h: Ledger, frames: seq<nat>, ops: seq<VmOp>, w: VmState, f: nat)
    requires AtBoot(g) && Listed(g, h, frames) && Inv(s, h) && f in frames && f in g.roles
    requires RunsTo(VmState(s, h, map[]), ops, w)
    ensures f in w.ledger.free || IsPageTable(w.physical.memory, KernelRoots(h.roles), w.spaces, f)
         || IsMapped(w.physical.memory, w.spaces, f) || f in w.spaces || IsListed(w.spaces, f)
  {
    hide Inv, Sound, RunsTo, IsPageTable, IsMapped, IsListed;
    StartIsSound(g, s, h, frames);
    FramesInMemory(s, h, f);
    NoFrameLeaks(VmState(s, h, map[]), ops, w, f);
  }

  lemma FramesInMemory(s: Physical, h: Ledger, f: nat)
    requires Inv(s, h) && f in h.roles
    ensures f in s.memory
  {
  }
}
