/** The frame allocator and the page-table code as they run on physical memory (frame.c, paging.c). */
module Machines {
  import opened Lists
  import opened Words
  import opened PageTables
  import opened Mapping
  import opened AddressSpaces
  import opened Permissions
  import opened VmSpaces

  /** A run of physical memory that the boot loader reports. */
  datatype MemoryMapEntry = MemoryMapEntry(base: nat, length: nat, usable: bool)

  function FramesOf(base: nat, end: nat): seq<nat>
    decreases end - base
  {
    if base >= end then [] else [base] + FramesOf(base + PAGE_SIZE, end)
  }

  /** The frames of all usable runs, in the order of the memory map. */
  function UsableFrames(entries: seq<MemoryMapEntry>): seq<nat> {
    if entries == [] then []
    else (if entries[0].usable then FramesOf(entries[0].base, entries[0].base + entries[0].length) else [])
           + UsableFrames(entries[1..])
  }

  /** Is it the address of a page of a usable run? */
  predicate IsUsable(e: MemoryMapEntry, f: nat) {
    e.usable && e.base <= f < e.base + e.length && (f - e.base) % PAGE_SIZE == 0
  }

  lemma {:induction false} FramesOfExactly(base: nat, end: nat, f: nat)
    ensures f in FramesOf(base, end) <==> base <= f < end && (f - base) % PAGE_SIZE == 0
    decreases end - base
  {
    if base < end {
      FramesOfExactly(base + PAGE_SIZE, end, f);
      NextOfRun(base, f);
    }
  }

  lemma NextOfRun(base: nat, f: nat)
    ensures base < f && (f - base) % PAGE_SIZE == 0
            <==> base + PAGE_SIZE <= f && (f - (base + PAGE_SIZE)) % PAGE_SIZE == 0
  {
  }

  /** The frames of the memory map are the pages of its usable runs. */
  lemma {:induction false} UsableExactly(entries: seq<MemoryMapEntry>, f: nat)
    ensures f in UsableFrames(entries) <==> exists i :: 0 <= i < |entries| && IsUsable(entries[i], f)
  {
    hide IsUsable;
    if entries != [] {
      UsableExactly(entries[1..], f);
      FirstOrLater(entries, f);
      FirstFrames(entries, f);
    }
  }

  lemma FirstFrames(entries: seq<MemoryMapEntry>, f: nat)
    requires entries != []
    ensures f in UsableFrames(entries) <==> IsUsable(entries[0], f) || f in UsableFrames(entries[1..])
  {
    FramesOfExactly(entries[0].base, entries[0].base + entries[0].length, f);
  }

  lemma FirstOrLater(entries: seq<MemoryMapEntry>, f: nat)
    requires entries != []
    ensures (exists i :: 0 <= i < |entries| && IsUsable(entries[i], f))
       <==> IsUsable(entries[0], f) || exists i :: 0 <= i < |entries[1..]| && IsUsable(entries[1..][i], f)
  {
    hide IsUsable;
    var rest := entries[1..];
    if i :| 0 <= i < |entries| && IsUsable(entries[i], f) {
      assert i > 0 ==> rest[i - 1] == entries[i];
    }
    if i :| 0 <= i < |rest| && IsUsable(rest[i], f) {
      assert rest[i] == entries[i + 1];
    }
  }

  function Reversed(s: seq<nat>): seq<nat> {
    if s == [] then [] else [s[|s| - 1]] + Reversed(s[..|s| - 1])
  }

  /** While the list is built: the frames in `done` are on it, in reverse, and nothing else has changed hands. */
  ghost predicate Listed(g: Ledger, h: Ledger, done: seq<nat>) {
    && h.free == Reversed(done) && h.limbo == g.limbo && h.roles.Keys == g.roles.Keys
    && forall f :: f in g.roles ==> h.roles[f] == if f in done then Free else g.roles[f]
  }

  lemma ListedStep(g: Ledger, h: Ledger, done: seq<nat>, f: nat)
    requires Listed(g, h, done) && f in g.roles && g.roles[f] == Other && f !in done
    ensures CanPush(h, f) && Listed(g, PushLedger(h, f), done + [f])
  {
    assert (done + [f])[..|done|] == done;
  }

  lemma NoFramesYet(entries: seq<MemoryMapEntry>)
    ensures [] + UsableFrames(entries[0..]) == UsableFrames(entries)
  {
    assert entries[0..] == entries;
  }

  lemma NextRun(entries: seq<MemoryMapEntry>, i: nat)
    requires i < |entries|
    ensures var e, rest := entries[i], UsableFrames(entries[i + 1..]);
            UsableFrames(entries[i..]) == if e.usable then FramesOf(e.base, e.base + e.length) + rest else rest
  {
    assert entries[i..][1..] == entries[i + 1..];
    assert [] + UsableFrames(entries[i + 1..]) == UsableFrames(entries[i + 1..]);
  }

  lemma AllRuns(entries: seq<MemoryMapEntry>, done: seq<nat>)
    ensures done + UsableFrames(entries[|entries|..]) == done
  {
  }

  lemma ListedNone(g: Ledger)
    requires g.free == []
    ensures Listed(g, g, [])
  {
  }

  lemma NextFrame(done: seq<nat>, f: nat, rest: seq<nat>, all: seq<nat>)
    requires Distinct(all) && done + ([f] + rest) == all
    ensures f in all && f !in done
  {
    assert all[|done|] == f;
    assert forall k :: 0 <= k < |done| ==> all[k] == done[k];
  }

  class Machine {
    var memory: Memory
    var pageList: Word
    var kernelPml4: nat
    ghost var ledger: Ledger
    ghost var spaces: Spaces

    ghost function State(): Physical
      reads this
    {
      Physical(memory, pageList)
    }

    ghost predicate Valid()
      reads this
    {
      Inv(State(), ledger) && IsRoot(ledger.roles, kernelPml4)
    }

    // ----- frame.c

    method FrameAlloc() returns (page: Word)
      requires Valid()
      modifies this`pageList, this`ledger
      ensures Valid()
      ensures old(ledger.free) == [] ==> page == 0 && State() == old(State()) && ledger == old(ledger)
      ensures old(ledger.free) != [] ==>
                page == old(ledger.free)[0] && State() == Pop(old(State()))
                && ledger == PopLedger(old(State()), old(ledger))
    {
      page := pageList;
      if page == 0 {
        HeadOfEmptyList(State(), ledger);
        return;
      }
      HeadIsFree(State(), ledger);
      PopKeepsInv(State(), ledger);
      ledger := PopLedger(State(), ledger);
      pageList := memory[page][0];
    }

    /** The caller may only return a frame that no table and no list uses any more. */
    method FrameFree(ptr: Word)
      requires Inv(State(), ledger) && CanPush(ledger, ptr)
      modifies this`memory, this`pageList, this`ledger
      ensures Inv(State(), ledger) && (old(Valid()) ==> Valid())
      ensures ptr in old(memory) && State() == Push(old(State()), ptr)
      ensures ledger == PushLedger(old(ledger), ptr)
    {
      PushKeepsInv(State(), ledger, ptr);
      memory := memory[ptr := memory[ptr][0 := pageList]];
      pageList := ptr;
      ledger := PushLedger(ledger, ptr);
    }

    lemma NoFrames(base: nat, end: nat)
      ensures base >= end ==> FramesOf(base, end) == []
    {
    }

    lemma RunAdvances(listed: seq<nat>, j: nat, end: nat, whole: seq<nat>, later: seq<nat>, all: seq<nat>)
      requires j < end && listed + FramesOf(j, end) == whole && whole + later == all
      ensures (listed + [j]) + FramesOf(j + PAGE_SIZE, end) == whole
      ensures listed + [j] + (FramesOf(j + PAGE_SIZE, end) + later) == all
    {
    }

    /** The frames of one run. */
    method FreeRun(base: nat, end: nat, ghost g: Ledger, ghost done: seq<nat>, ghost later: seq<nat>,
                   ghost all: seq<nat>)
      requires Inv(State(), ledger) && Listed(g, ledger, done) && Distinct(all)
               && done + FramesOf(base, end) + later == all
      requires forall f :: f in all ==> f in g.roles && g.roles[f] == Other
      modifies this`memory, this`pageList, this`ledger
      ensures Inv(State(), ledger) && Listed(g, ledger, done + FramesOf(base, end))
      ensures memory.Keys == old(memory).Keys && forall f :: f in memory && f !in all ==> memory[f] == old(memory)[f]
    {
      hide Inv, Listed, CanPush, FramesOf;
      ghost var listed: seq<nat> := done;
      var j := base;
      while j < end
        invariant listed + FramesOf(j, end) == done + FramesOf(base, end)
        invariant Inv(State(), ledger) && Listed(g, ledger, listed)
        invariant memory.Keys == old(memory).Keys
                  && forall f :: f in memory && f !in all ==> memory[f] == old(memory)[f]
      {
        RunAdvances(listed, j, end, done + FramesOf(base, end), later, all);
        NextFrame(listed, j, FramesOf(j + PAGE_SIZE, end) + later, all);
        ListedStep(g, ledger, listed, j);
        PushKeepsInv(State(), ledger, j);
        FrameFree(j);
        listed := listed + [j];
        j := j + PAGE_SIZE;
      }
      NoFrames(j, end);
      assert listed == done + FramesOf(base, end);
    }

    /** Hands every usable frame to the allocator: afterwards the list holds exactly these, the last one first. */
    method FrameInit(entries: seq<MemoryMapEntry>)
      requires Inv(State(), ledger) && ledger.free == [] && Distinct(UsableFrames(entries))
      requires forall f :: f in UsableFrames(entries) ==> f in ledger.roles && ledger.roles[f] == Other
      modifies this`memory, this`pageList, this`ledger
      ensures Inv(State(), ledger) && Listed(old(ledger), ledger, UsableFrames(entries))
      ensures memory.Keys == old(memory).Keys
      ensures forall f :: f in memory && f !in UsableFrames(entries) ==> memory[f] == old(memory)[f]
    {
      hide Inv, Listed, CanPush, UsableFrames, FramesOf, Distinct;
      ghost var all, g := UsableFrames(entries), ledger;
      ghost var done: seq<nat> := [];
      ListedNone(g);
      NoFramesYet(entries);
      for i := 0 to |entries|
        invariant done + UsableFrames(entries[i..]) == all
        invariant Inv(State(), ledger) && Listed(g, ledger, done)
        invariant memory.Keys == old(memory).Keys
                  && forall f :: f in memory && f !in all ==> memory[f] == old(memory)[f]
      {
        var e := entries[i];
        NextRun(entries, i);
        if e.usable {
          FreeRun(e.base, e.base + e.length, g, done, UsableFrames(entries[i + 1..]), all);
          done := done + FramesOf(e.base, e.base + e.length);
        }
      }
      AllRuns(entries, done);
    }

    // ----- paging.c

    method GetEntry(pml4: nat, vaddr: Word) returns (entry: Word)
      requires Valid() && IsRoot(ledger.roles, pml4)
      ensures entry == Lookup(memory, pml4, PathOf(vaddr))
    {
      var currentTable, level := pml4, 4;
      while level > 1
        invariant 1 <= level <= 4
        invariant IsTable(ledger.roles, currentTable) && ledger.roles[currentTable].level == level
        invariant Walk(memory, currentTable, level, PathOf(vaddr)) == Lookup(memory, pml4, PathOf(vaddr))
      {
        entry := memory[currentTable][PathOf(vaddr).At(level)];
        if !Present(entry) {
          return 0;
        }
        currentTable := AddressBits(entry);
        level := level - 1;
      }
      entry := memory[currentTable][PathOf(vaddr).At(1)];
    }

    /** The branch of map_page for an absent entry: a cleared frame becomes the table below it. */
    method AddTable(table: nat, index: Index, flags: Word)
      requires Valid() && CanGrow(State(), ledger, table, index)
      modifies this`memory, this`pageList, this`ledger
      ensures Valid()
      ensures old(pageList) in old(memory) && State() == Grow(old(State()), table, index, flags)
      ensures ledger == GrowLedger(old(State()), old(ledger), table, index)
      ensures table in memory && memory[table][index] % 0x1000 == if flags / 4 % 2 == 1 then 7 else 3
    {
      hide TreeUp, FreeList, FrameAddresses;
      TableBits(pageList, flags);
      HeadIsFree(State(), ledger);
      GrowKeepsInv(State(), ledger, table, index, flags);
      ghost var below := GrowLedger(State(), ledger, table, index);
      var phys := FrameAlloc();
      memory := memory[phys := ZeroFrame()];
      memory := memory[table := memory[table][index := TableEntry(phys, flags)]];
      ledger := below;
    }

    method MapOnePage(pml4: nat, vaddr: Word, paddr: Word, flags: Word)
      requires Valid() && CleanFlags(flags) && CanMap(State(), ledger, pml4, 4, PathOf(vaddr))
      modifies this`memory, this`pageList, this`ledger
      ensures Valid()
      ensures State() == MapPage(old(State()), pml4, PathOf(vaddr), paddr, flags)
      ensures ledger == MapLedger(old(State()), old(ledger), pml4, 4, PathOf(vaddr), flags)
      ensures Grants(Lookup(memory, pml4, PathOf(vaddr)), paddr, flags)
    {
      hide TreeUp, FreeList, FrameAddresses, Grants;
      ghost var path := PathOf(vaddr);
      MapPageGrants(State(), ledger, pml4, path, paddr, flags, pml4);
      ghost var end, ledgerEnd := MapPage(State(), pml4, path, paddr, flags),
                                  MapLedger(State(), ledger, pml4, 4, path, flags);
      MapKeepsInv(State(), ledger, pml4, 4, path, paddr, flags);
      MapKeepsRoles(State(), ledger, pml4, 4, path, flags, kernelPml4);
      var currentTable, level := pml4, 4;
      while level > 1
        invariant 1 <= level <= 4 && IsRoot(ledger.roles, kernelPml4)
        invariant CanMap(State(), ledger, currentTable, level, path)
        invariant MapFrom(State(), currentTable, level, path, paddr, flags) == end
        invariant MapLedger(State(), ledger, currentTable, level, path, flags) == ledgerEnd
      {
        MapStep(State(), ledger, currentTable, level, path, flags);
        var index := PathOf(vaddr).At(level);
        if !Present(memory[currentTable][index]) {
          AddTable(currentTable, index, flags);
        }
        currentTable := AddressBits(memory[currentTable][index]);
        level := level - 1;
      }
      memory := memory[currentTable := memory[currentTable][PathOf(vaddr).At(1) := LeafEntry(paddr, flags)]];
    }

    method UnmapOnePage(pml4: nat, vaddr: Word)
      requires Valid() && IsRoot(ledger.roles, pml4)
      modifies this`memory
      ensures Valid()
      ensures State() == UnmapPage(old(State()), pml4, PathOf(vaddr))
    {
      UnmapKeepsInv(State(), ledger, pml4, PathOf(vaddr));
      var currentTable, level := pml4, 4;
      while level > 1
        invariant 1 <= level <= 4
        invariant IsTable(ledger.roles, currentTable) && ledger.roles[currentTable].level == level
        invariant UnmapFrom(memory, currentTable, level, PathOf(vaddr))
                    == UnmapPage(State(), pml4, PathOf(vaddr)).memory
      {
        var entry := memory[currentTable][PathOf(vaddr).At(level)];
        if !Present(entry) {
          return;
        }
        currentTable := AddressBits(entry);
        level := level - 1;
      }
      memory := memory[currentTable := memory[currentTable][PathOf(vaddr).At(1) := 0]];
    }

    method PagingMapPage(pml4: nat, vaddr: Word, paddr: Word, length: Word, flags: Word)
      requires vaddr % PAGE_SIZE == 0 && paddr % PAGE_SIZE == 0 && length % PAGE_SIZE == 0
      requires Valid() && CleanFlags(flags)
      requires CanMapSteps(State(), ledger, pml4, RangeSteps(vaddr, paddr, length / PAGE_SIZE), flags)
      modifies this`memory, this`pageList, this`ledger
      ensures Valid()
      ensures State() == MapSteps(old(State()), pml4, RangeSteps(vaddr, paddr, length / PAGE_SIZE), flags)
      ensures ledger
                == MapStepsLedger(old(State()), old(ledger), pml4, RangeSteps(vaddr, paddr, length / PAGE_SIZE), flags)
    {
      hide Inv, CanMap, MapPage, MapLedger, PathOf, MapSteps, MapStepsLedger, CanMapSteps;
      MapNothing(State(), ledger, pml4, flags);
      var i := 0;
      ghost var steps, k := RangeSteps(vaddr, paddr, length / PAGE_SIZE), 0;
      while i < length
        invariant 0 <= k <= |steps| && i == k * PAGE_SIZE
        invariant Valid()
        invariant State() == MapSteps(old(State()), pml4, steps[..k], flags)
        invariant ledger == MapStepsLedger(old(State()), old(ledger), pml4, steps[..k], flags)
      {
        CanMapPrefix(old(State()), old(ledger), pml4, steps, flags, k);
        MapOnePage(pml4, (vaddr + i) % WORD_LIMIT, (paddr + i) % WORD_LIMIT, flags);
        i, k := i + PAGE_SIZE, k + 1;
      }
      assert steps[..k] == steps;
    }

    lemma MapNothing(s: Physical, g: Ledger, root: nat, flags: Word)
      requires CleanFlags(flags)
      ensures MapSteps(s, root, [], flags) == s && MapStepsLedger(s, g, root, [], flags) == g
    {
    }

    method PagingUnmapPage(pml4: nat, vaddr: Word, length: Word)
      requires vaddr % PAGE_SIZE == 0 && length % PAGE_SIZE == 0
      requires Valid() && IsRoot(ledger.roles, pml4)
      modifies this`memory
      ensures Valid()
      ensures State() == UnmapSteps(old(State()), pml4, RangePaths(vaddr, length / PAGE_SIZE))
    {
      hide Inv, PathOf;
      var i := 0;
      ghost var paths, k := RangePaths(vaddr, length / PAGE_SIZE), 0;
      while i < length
        invariant 0 <= k <= |paths| && i == k * PAGE_SIZE
        invariant Valid()
        invariant State() == UnmapSteps(old(State()), pml4, paths[..k])
      {
        assert paths[..k + 1][..k] == paths[..k];
        UnmapOnePage(pml4, (vaddr + i) % WORD_LIMIT);
        i, k := i + PAGE_SIZE, k + 1;
      }
      assert paths[..k] == paths;
    }

    method PagingCreatePml4() returns (pml4: Word)
      requires Valid() && ledger.free != []
      modifies this`memory, this`pageList, this`ledger
      ensures Valid()
      ensures pml4 == old(pageList) && pml4 in old(memory) && kernelPml4 in old(memory)
      ensures State() == CreateRoot(old(State()), kernelPml4)
      ensures ledger == CreateRootLedger(old(State()), old(ledger))
    {
      hide Inv;
      HeadIsFree(State(), ledger);
      CreateKeepsInv(State(), ledger, kernelPml4);
      ghost var before, created := State(), CreateRootLedger(State(), ledger);
      pml4 := FrameAlloc();
      memory := memory[pml4 := ZeroFrame()];
      for i := 256 to 512
        modifies this`memory
        invariant memory.Keys == before.memory.Keys
        invariant forall f :: f in memory && f != pml4 ==> memory[f] == before.memory[f]
        invariant pml4 in memory && memory[pml4] == KernelHalf(before.memory[kernelPml4])[..i] + ZeroFrame()[i..]
      {
        memory := memory[pml4 := memory[pml4][i := memory[kernelPml4][i]]];
      }
      assert memory[pml4] == KernelHalf(before.memory[kernelPml4]);
      assert memory == CreateRoot(before, kernelPml4).memory;
      ledger := created;
    }
  }
}
