# Proofs about a small x86-64 kernel

A Dafny model of the parts of the kernel whose correctness rests on invariants, and proofs that every operation
keeps them. Verify everything with `dafny verify dfyconfig.toml`.

**Memory.** `Words`, `PageTables`, `Mapping`, `AddressSpaces` and `Machine` model physical memory as frames of 512
words. A ledger says what each frame is used for. Page tables are walked and grown in place; they refine a finite map
from pages to entries, for all roots at once, because the tables form trees of distinct frames that share nothing with
the free list, whose links run through the free frames themselves. `Ownership`, `VmPages`, `VmSpaces`, `VmAllocation`,
`VmRelease`, `VmCreation`, `VmLaws`, `VmWindows`, `VmRuns` and `Vm` put address spaces, regions and their records on
top: over every run each frame has exactly one use and none is lost, and vm_alloc finds its range absent as long as
vm_alloc_at stays out of its window. `Permissions` and `VmAccess` say what access the entries and the tables grant,
address by address. `VmRemaps` gives the exact condition under which vm_alloc_at loses no frame. `HeapBlocks`,
`HeapMoves` and `Heap` model the first-fit heap over 64-bit words: its blocks tile its range, each is either handed out
or free, and nobody's payload is disturbed.

**Terminal.** `Cells`, `Pages` and `Screen` show that the grid, the queue and the map of the framebuffer terminal are a
write-combining cache of one plain screen, under in-place scrolling and flushing. `Typing`, `Edits`, `Controls` and
`Commands` give every control function its closed form on that screen, and `ControlLaws` its meaning, cell by cell and
row by row. `Utf8` proves the decoder against the grammar of RFC 3629. `Emulator` is the whole terminal as a machine on
values, one step a byte; `EmulatorLaws` and `EmulatorRuns` prove what every stream keeps and what whole sequences amount
to; `EmulatorText` carries the law of the decoder over to the streams of the terminal; `EmulatorEffects` tells what
bytes and sequences do to the screen; and `Terminal`, the class with the fields of the source, takes exactly its steps.

**FAT16.** `FatSizes` settles for which volumes the search for the table size ends; `BootSectors` and `Fat16` tie
formatting to mounting, and `FatGeometry` to what a reader of the boot sector finds where.

**Formatted output.** `Numerals` and `Format` prove the integer conversions against section 7.21.6.1 of
ISO/IEC 9899:2011, and `FormatLaws` tells the output from text and argument.

Each file that changes state in the kernel is a class here (`Machine`, `Heap`, `Screen`, `Terminal`, `Disk`, `Mounts`),
its methods run the loops of the source, and each method is tied to a function on values about which the laws are
proved.

Where code and comments disagree, the code is modelled: the second copy of the file allocation table starts with a
blank sector; a precision of 0 strips trailing zeros, drops the zero of `%#.0o` and the padding of an empty
left-justified field; of two length letters the second one decides; CAN and SUB leave a private control sequence marked,
so that the next one is taken for private; ESC [ u may take the cursor out of the scrolling region in origin mode;
allocating over a mapped page loses its frame; and the search for the table size leaves out the two reserved entries. For
the last three the exact conditions are `EmulatorRuns.OriginIsSafeExactly`, `VmRemaps.AllocAtKeepsFramesExactly` and
`FatGeometry.RoomExactly`.

## Model

| member | source | states |
|---|---|---|
| `Words.PathIsPage` | kernel/src/memory/paging.c:17 | two addresses use the same four table indices exactly when bits 12 to 47 agree, and the upper half of the top-level table is bit 47 |
| `PageTables.WalksDoNotMeet` | kernel/src/memory/paging.c:19-44 | in every state in order, two walks end in the same last-level table only when they started in the same table and followed the same slots: the tables are trees of distinct frames |
| `PageTables.RootsMeet` | kernel/src/memory/paging.c:93-102 | two roots reach the same last-level table exactly when they share the top-level slot (the same root, or the copied kernel half) and follow it alike |
| `Mapping.MapKeepsInv` | kernel/src/memory/paging.c:19-44 | `map_page` keeps the trees, keeps the free list acyclic and exact, and takes exactly the missing tables off it |
| `Mapping.MapPageLookup` | kernel/src/memory/paging.c:19-44 | refinement of a finite map: afterwards the page looks up as PRESENT, address and flags, through every root that shares it, and every other page of every root looks up as before |
| `Mapping.UnmapPageLookup` | kernel/src/memory/paging.c:46-60 | afterwards the page looks up as 0, every other page of every root as before |
| `Mapping.MapKeepsInnerEntries` | kernel/src/memory/paging.c:22-38 | a present entry of a table that is not a leaf is never rewritten |
| `AddressSpaces.MapRangeLookup` | kernel/src/memory/paging.c:62-69 | the range loop maps page k of the range to page k of the frames, wrap-around of the addresses included, and touches no other page of any root |
| `AddressSpaces.UnmapRangeLookup` | kernel/src/memory/paging.c:71-77 | exactly the pages of the range look up as 0 |
| `AddressSpaces.CreateRootLookup` | kernel/src/memory/paging.c:93-102 | a new root reads like the kernel root in the upper half, maps nothing in the lower half, and no older root reads differently |
| `AddressSpaces.RunKeepsShared` | kernel/src/memory/paging.c:22-38 | a top-level entry that two roots share stays shared under every run of maps and unmaps through any roots |
| `AddressSpaces.KernelHalfStaysShared` | kernel/src/memory/paging.c:93-102 | after any such run the kernel root and a root created from it give the same lookup below every upper-half entry that was present at creation |
| `AddressSpaces.EnoughToMap` | kernel/src/memory/paging.c:62-69 | three free frames a page suffice for the range loop, which then never finds the list empty |
| `Permissions.MapPageGrants` | kernel/src/memory/paging.c:41-43 | after `map_page` the page, through every root that shares it, is PRESENT, has the flags given below and above the address, and the address bits of paddr |
| `Permissions.OneEntryGrants` | kernel/src/memory/paging.c:41-43 | these fields determine the entry |
| `Permissions.MapRangeGrants` | kernel/src/memory/paging.c:62-69 | the same for every page of a range, each on its own frame |
| `Permissions.MapAdds` | kernel/src/memory/paging.c:25-36 | every present entry of an inner table after `map_page` is an old one or has the low bits 7 when the flags have USER and 3 otherwise |
| `Permissions.RunOpensExactly` | kernel/src/memory/paging.c:19-60 | over every run of maps and unmaps through any roots, the tables above a page let user code read and write in the end if and only if they did before and no call hung a table without USER into the way |
| `Machines.Machine.GetEntry` | kernel/src/memory/paging.c:79-91 | the loop returns the lookup of the path of the address |
| `Machines.Machine.AddTable` | kernel/src/memory/paging.c:25-38 | the branch for an absent entry hangs one cleared frame, taken off the free list, below the slot; the entry is PRESENT, RW and, exactly when the flags have it, USER |
| `Machines.Machine.MapOnePage` | kernel/src/memory/paging.c:19-44 | the in-place walk reaches the state of the specification `MapPage` and keeps the invariant; the page then reads as the frame of paddr with PRESENT and every bit of the flags |
| `Machines.Machine.UnmapOnePage` | kernel/src/memory/paging.c:46-60 | the in-place walk reaches the state of `UnmapPage`, also when it stops at an absent entry |
| `Machines.Machine.PagingMapPage` | kernel/src/memory/paging.c:62-69 | the loop performs the steps of the range in order |
| `Machines.Machine.PagingUnmapPage` | kernel/src/memory/paging.c:71-77 | the loop performs the unmaps of the range in order |
| `Machines.Machine.PagingCreatePml4` | kernel/src/memory/paging.c:93-102 | the loop fills a cleared frame with the upper half of the kernel root |
| `Machines.Machine.FrameAlloc` | kernel/src/memory/frame.c:13-23 | returns the head of the list and unlinks it, or 0 without a change when the list is empty |
| `Machines.Machine.FrameFree` | kernel/src/memory/frame.c:25-31 | links the frame in front of the list and keeps the invariant |
| `Machines.Machine.FrameInit` | kernel/src/memory/frame.c:33-46 | from a memory map of distinct frames, the list holds exactly the usable frames, last one first, and no other frame is written |
| `Machines.UsableExactly` | kernel/src/memory/frame.c:36-45 | the usable frames are exactly the page addresses, counted from the base, inside the usable runs of the memory map |
| `VmPages.EnoughFrames` | kernel/src/memory/vm.c:58-61 | four free frames a page suffice for the allocation loop, which then never finds the list empty |
| `VmAllocation.EnoughForRegion` | kernel/src/memory/vm.c:71-87 | four free frames a page and one more suffice for `vm_alloc_at` on an unmapped lower-half range |
| `VmAllocation.AllocRegionLookup` | kernel/src/memory/vm.c:71-87 | the range is present below the root of the space, on frames that were free, and no other lookup changes |
| `VmAccess.AllocatedAddress` | kernel/src/memory/vm.c:71-87 | address by address: the lower-half addresses of the range read with the flags given, all others as before |
| `VmAccess.NextBytes` | kernel/src/memory/vm.c:48-69 | all bytes asked of `vm_alloc` can be read and end by the new next_free, which is page aligned and less than a page further |
| `VmAllocation.AllocRegionKeepsVm` | kernel/src/memory/vm.c:48-87 | allocation keeps the invariant of all spaces and the account of every frame |
| `VmRelease.FreeRegionLookup` | kernel/src/memory/vm.c:148-166 | freeing a whole region makes exactly its pages absent below the root of the space |
| `VmAccess.FreedAddress` | kernel/src/memory/vm.c:148-166 | address by address: those of the region are unmapped, all other lower-half ones read as before |
| `VmRelease.FreeRegionRoles` | kernel/src/memory/vm.c:148-166 | it gives back exactly the frames behind the region and the frame of its record |
| `VmRelease.FreeRegionKeepsVm` | kernel/src/memory/vm.c:148-166 | freeing keeps the invariant of all spaces and the account of every frame |
| `VmLaws.FreedRangeMatchesExactly` | kernel/src/memory/vm.c:148-166 | the exact condition for `vm_free` on any lower-half range: with region k off the list, or none when k is past its end, the regions still tell which pages are present if and only if the range holds every page of that region and no page of another |
| `VmCreation.CreateSpaceLookup` | kernel/src/memory/vm.c:10-19 | a new space maps nothing below and reads like the kernel above; older roots do not change |
| `VmWindows.CreateMakesWindow` | kernel/src/memory/vm.c:10-19 | next_free of a new space is its heap base, and its heap end is the one given |
| `VmCreation.CreateSpaceKeepsVm` | kernel/src/memory/vm.c:10-19 | creation keeps the invariant of all spaces and the account of every frame |
| `VmLaws.TableIsReached` | kernel/src/memory/paging.c:19-44 | every table lies on a path from a root |
| `VmLaws.DataFrameIsMapped` | kernel/src/memory/vm.c:48-87 | every data frame is mapped by a lower-half page of a space |
| `VmLaws.PagesShareNoFrame` | kernel/src/memory/vm.c:48-87 | no two pages of any spaces map the same frame |
| `VmAccess.BytesAreApart` | kernel/src/memory/vm.c:174-179 | `vm_virt_to_phys` is injective over all spaces: no byte of physical memory stands behind two lower-half addresses |
| `VmLaws.RemapLosesFrame` | kernel/src/memory/vm.c:58-61 | one turn of the loop on a page that is mapped already: its frame ends on no free list and behind no page of any space |
| `VmRemaps.AllocOverIsLoseThenAlloc` | kernel/src/memory/vm.c:58-61 | on a range with any mapped pages the loop ends in the state in which it ends when those pages are unmapped first and their frames are never given back |
| `VmRemaps.MappedFrameIsLost` | kernel/src/memory/vm.c:71-87 | after `vm_alloc_at` on a range with a mapped page the frame behind that page is on no free list, behind no page, in no page table and in no record |
| `VmRemaps.AllocAtKeepsFramesExactly` | kernel/src/memory/vm.c:71-87 | the exact condition: on a lower-half range, with enough frames, `vm_alloc_at` keeps every frame within reach if and only if no page of the range is mapped |
| `VmLaws.TableIsInUse` | kernel/src/memory/paging.c:19-44 | a frame is a page table exactly when a walk from a space root or a kernel root meets it |
| `VmLaws.EveryFrameHasOneUse` | kernel/src/memory/vm.c:10-87 | the account agrees with memory: a frame is free exactly when it is on the list, a table exactly when a walk meets it, data exactly when a page of a space maps it, a record exactly when it is a space or on the region list of one; all others are outside this model |
| `VmLaws.AllocFreeLookup` | kernel/src/memory/vm.c:71-87 | after `vm_alloc_at` and `vm_free` of the range it is absent again, and every other lookup of every root is restored |
| `VmLaws.AllocFreeRoles` | kernel/src/memory/vm.c:148-166 | after the pair the free frames are those of before, less the page tables it made |
| `VmLaws.AllocFreeRestores` | kernel/src/memory/vm.c:148-166 | when the tables of the range exist the pair restores the use of every frame |
| `VmPages.EnoughWhenReached` | kernel/src/memory/vm.c:58-61 | where the tables of a range exist, a page takes exactly one frame, and as many free frames as pages suffice |
| `VmLaws.FreedRegionCount` | kernel/src/memory/vm.c:148-166 | freeing a region lengthens the free list by its pages and one |
| `VmLaws.RepeatedPairRestores` | kernel/src/memory/vm.c:148-166 | after the pair the same range can be allocated again without any further condition, and the second pair restores the use of every frame |
| `VmLaws.DestroyKeepsVm` | kernel/src/memory/vm.c:181-189 | destroying a space keeps the invariant and leaves the space without regions |
| `VmLaws.DestroyedSpaceIsEmpty` | kernel/src/memory/vm.c:181-189 | after destroying a space its root has no present lower-half page, and every other lookup of every root is as before |
| `VmRuns.RunKeepsSound` | kernel/src/memory/vm.c:10-189 | every run of create, allocate, free and destroy keeps the invariant, and the set of frames |
| `VmRuns.KernelRootsStay` | kernel/src/memory/vm.c:10-189 | no run makes or loses a root that no space owns |
| `VmRuns.FramesAreConserved` | kernel/src/memory/vm.c:10-189 | conservation over every run: at the end memory and account agree for each frame, in exactly one use, and the frames outside this model are exactly those of the start |
| `VmRuns.NoFrameLeaks` | kernel/src/memory/vm.c:10-189 | over every run, a frame that was under management ends on the free list, in a page table, behind a page, or in a record |
| `VmRuns.StartIsSound` | kernel/src/memory/frame.c:33-46 | the state that frame_init leaves behind is sound, with no address space |
| `VmRuns.UsableFrameNeverLeaks` | kernel/src/memory/vm.c:10-189 | so from the start over every run no frame that the memory map calls usable is ever lost |
| `VmWindows.NextRangeIsAbsent` | kernel/src/memory/vm.c:48-69 | when no region reaches into [next_free, heap_end), every range at next_free that ends by heap_end is absent |
| `VmRuns.RunKeepsWindows` | kernel/src/memory/vm.c:10-189 | bump invariant: over every run of create, vm_alloc, vm_alloc_at outside the window of its space, free and destroy, no region reaches into [next_free, heap_end) of its space |
| `VmRuns.AllocNeedsRoomOnly` | kernel/src/memory/vm.c:48-69 | so after every such run `vm_alloc` needs only room before heap_end and enough free frames; that its range is absent follows |
| `VmRuns.UserReachesPages` | kernel/src/memory/vm.c:10-189 | over every run in which each allocation asks for USER, every mapped lower-half page of every space has USER itself and RW and USER in every table above it |
| `VmRuns.StartIsOpen` | kernel/src/memory/frame.c:33-46 | the state that frame_init leaves behind satisfies what such a run starts from |
| `Vm.VmAllocAt` | kernel/src/memory/vm.c:71-87 | the method on real memory reaches the specified state, and every address of [vaddr, vaddr + size) can be read with the flags given |
| `Vm.VmAlloc` | kernel/src/memory/vm.c:48-69 | allocates at next_free: every address of [v, v + size) can be read with the flags given, and next_free ends at least at v + size and less than a page further; staying below heap_end is asserted by the source and required here |
| `Vm.VmFree` | kernel/src/memory/vm.c:148-166 | both loops, the unlinking and the two kinds of frame_free reach the specified state, and no address of [vaddr, vaddr + size) is mapped |
| `Vm.RegionRemove` | kernel/src/memory/vm.c:35-46 | the pointer walk unlinks exactly the first region with the base |
| `Vm.VmSpaceCreate` | kernel/src/memory/vm.c:10-19 | reaches the specified state |
| `Vm.VmSpaceDestroy` | kernel/src/memory/vm.c:181-189 | terminates with no region left, in the specified state, although the records are recycled while the list is walked |
| `Vm.VmVirtToPhys` | kernel/src/memory/vm.c:174-179 | the frame address of the entry joined with the page offset, for a page that is present, as the source asserts |
| `HeapBlocks.HeapIsTiled` | kernel/src/memory/heap.c:21-67 | in every state in order, every address between HEAP_START and heap_top lies in exactly one block |
| `HeapBlocks.BlocksAreSmall` | kernel/src/memory/heap.c:21-32 | no block holds more than 4072 bytes |
| `HeapBlocks.InOrderIsComplete` | kernel/src/memory/heap.c:21-67 | walking from header to header in address order meets every block |
| `HeapBlocks.InOrderIsSorted` | kernel/src/memory/heap.c:21-67 | ... each once, upwards |
| `HeapBlocks.FootprintIsRange` | kernel/src/memory/heap.c:21-67 | payload sizes and 24-byte headers add up to heap_top - HEAP_START |
| `HeapMoves.ExpandKeepsInv` | kernel/src/memory/heap.c:21-32 | a fresh page keeps tiling, headers and the free list |
| `HeapMoves.TakeKeepsInv` | kernel/src/memory/heap.c:44-60 | splitting and unlinking a block keeps tiling, magic words and the free list |
| `HeapMoves.TakeHandsOut` | kernel/src/memory/heap.c:44-60 | it brings exactly the taken block into use: no other block leaves or joins the free list, and the rest of a split is on it |
| `HeapMoves.ExpandHandsOut` | kernel/src/memory/heap.c:21-32 | expanding brings no block into use |
| `HeapMoves.ReleaseKeepsInv` | kernel/src/memory/heap.c:69-76 | freeing a block in use keeps all of it |
| `HeapMoves.TakeKeepsLive` | kernel/src/memory/heap.c:44-60 | no word of a block in use changes |
| `HeapMoves.PayloadWrite` | kernel/src/memory/heap.c:34-76 | writing any payload word of a block leaves headers, tiling and free list in order |
| `Heaps.FreshPageFits` | kernel/src/memory/heap.c:63-66 | after one expansion every request of up to 4072 rounded bytes is satisfied by the first block |
| `Heaps.LargeRequestNeverFits` | kernel/src/memory/heap.c:41-66 | a request whose rounding exceeds 4072 bytes fits in no state in order, so that expanding again never helps |
| `Heaps.KmallocReturnsExactly` | kernel/src/memory/heap.c:41-66 | over any number of expansions and new tries, some search succeeds exactly when the rounded size is at most 4072 |
| `Heaps.RoundingIsEnough` | kernel/src/memory/heap.c:38 | the rounded size is at least the request exactly when the sum does not wrap around 64 bits |
| `Heaps.ServedIsUndisturbed` | kernel/src/memory/heap.c:34-67 | `kmalloc` changes no word of any block in use, expansion included |
| `Heaps.ServedIsLive` | kernel/src/memory/heap.c:34-67 | it returns a block that was not in use, of at least the rounded size |
| `Heaps.ServedIsTight` | kernel/src/memory/heap.c:44-60 | the block holds less than a header and 16 bytes more than the rounded size, and what is cut off is at least 16 bytes |
| `Heaps.ServedHandsOut` | kernel/src/memory/heap.c:34-67 | afterwards a block is in use exactly when it was before or is the one returned |
| `Heaps.OwnedOrFree` | kernel/src/memory/heap.c:34-97 | in every state each block is either handed out and not yet freed, or on the free list, never both |
| `Heaps.Heap.HeapExpand` | kernel/src/memory/heap.c:21-32 | the loop over fresh pages reaches the specified heap |
| `Heaps.Heap.Search` | kernel/src/memory/heap.c:41-61 | takes the first fitting block of the list, or changes nothing |
| `Heaps.Heap.Kmalloc` | kernel/src/memory/heap.c:34-67 | returns after at most one expansion and one recursive call, with the request served; the set of blocks handed out grows by the result alone |
| `Heaps.Heap.Kfree` | kernel/src/memory/heap.c:69-76 | the block goes to the front of the list and leaves the set of blocks handed out; 0 changes nothing |
| `Heaps.Heap.CopyPayload` | kernel/src/memory.c:9-11 | copies word by word into another block and changes nothing else |
| `Heaps.Heap.Krealloc` | kernel/src/memory/heap.c:78-97 | the result has at least the requested size and starts with the old contents; every other block in use stays in use and unchanged, and the set of blocks handed out is exactly right on every path |
| `Cells.QueueHasRoom` | kernel/src/logging/flanterm_backends/fb.c:729-733 | by the pigeonhole principle a cell without a pending write leaves a queue slot free: the branch that drops a write is dead in every state in order |
| `Cells.PushKeepsInv` | kernel/src/logging/flanterm_backends/fb.c:718-743 | queue slots and map entries stay in bijection |
| `Cells.PushView` | kernel/src/logging/flanterm_backends/fb.c:718-743 | exactly the addressed visible cell changes |
| `Cells.SettleStep` | kernel/src/logging/flanterm_backends/fb.c:956-965 | a round of the flush loop changes no visible cell and retires exactly one slot |
| `Cells.SettledView` | kernel/src/logging/flanterm_backends/fb.c:949-975 | after the last round the grid is the visible screen and emptying the queue keeps the cache sound |
| `Screens.Screen.PushToQueue` | kernel/src/logging/flanterm_backends/fb.c:718-743 | the in-place code refines the update of one visible cell |
| `Screens.Screen.Scroll` | kernel/src/logging/flanterm_backends/fb.c:772-795 | rows [top, bottom) move up by one in place, the last one is blank, all others stay |
| `Screens.Screen.RevScroll` | kernel/src/logging/flanterm_backends/fb.c:745-770 | rows [top, bottom) move down by one in place, the first one is blank, all others stay |
| `Screens.Screen.Clear` | kernel/src/logging/flanterm_backends/fb.c:797-812 | every visible cell is blank; the cursor goes home only when asked |
| `Screens.Screen.SetCursorPos` | kernel/src/logging/flanterm_backends/fb.c:814-833 | positions past an edge stick to it, negative ones become 0 |
| `Screens.Screen.MoveCharacter` | kernel/src/logging/flanterm_backends/fb.c:842-861 | one visible cell is copied over another; positions off the screen change nothing |
| `Screens.Screen.RawPutchar` | kernel/src/logging/flanterm_backends/fb.c:983-1007 | reaches the picture of the specification `Typed`, with its wrapping and scrolling |
| `Screens.Screen.DrawCursor` | kernel/src/logging/flanterm_backends/fb.c:923-947 | the cursor cell is shown in swapped colours and a pending write of it settled, without a visible change |
| `Screens.Screen.DoubleBufferFlush` | kernel/src/logging/flanterm_backends/fb.c:949-981 | the visible screen does not change, the cache is empty, and every shown cell equals it, the cursor cell in swapped colours; no image of an older cursor survives |
| `Screens.Screen.FullRefresh` | kernel/src/logging/flanterm_backends/fb.c:1009-1055 | the screen stays sound exactly when the cursor is off or off the screen, or its cell is not pending and is the last drawn cursor or has equal colours |
| `Screens.Screen.constructor` | kernel/src/logging/flanterm_backends/fb.c:1326-1402 | a new screen is blank, sound and shown |
| `Pages.ScrollUpRow` | kernel/src/logging/flanterm_backends/fb.c:772-795 | row by row: what an upward scroll by n shows |
| `Pages.ScrollDownRow` | kernel/src/logging/flanterm_backends/fb.c:745-770 | row by row: what a downward scroll by n shows |
| `Pages.ScrollMore` | kernel/src/logging/flanterm.c:1020-1035 | n scrolls by one row are one scroll by n rows |
| `Typing.TypedStays` | kernel/src/logging/flanterm_backends/fb.c:983-1007 | a printed character leaves neither the screen nor the region |
| `Typing.TextInRow` | kernel/src/logging/flanterm_backends/fb.c:983-1007 | a text that fits in the row appears cell by cell and changes nothing else |
| `Typing.TextScrolls` | kernel/src/logging/flanterm_backends/fb.c:986-998 | at the end of the region the next character scrolls it and starts its last line |
| `Typing.TextGoesOn` | kernel/src/logging/flanterm_backends/fb.c:986-1006 | past the end of another line it starts the next one, on the last row of the screen that row, and where it may not wrap it overwrites the last column |
| `Commands.PutSpaces` | kernel/src/logging/flanterm.c:954-964 | blanks inside a row neither wrap nor scroll |
| `Commands.EraseCells` | kernel/src/logging/flanterm.c:954-964 | ECH erases exactly min(n, cols - x) cells and returns the cursor |
| `Commands.EraseLine` | kernel/src/logging/flanterm.c:974-998 | EL runs the loops of the source and reaches `LineErased` (cell by cell in `ControlLaws.EraseMeans`) |
| `Commands.ErasePage` | kernel/src/logging/flanterm.c:888-928 | ED erases exactly the cells its parameter names, without scrolling |
| `Commands.InsertCells` | kernel/src/logging/flanterm.c:929-946 | ICH pushes in min(n, cols - x) blanks |
| `Commands.DeleteCells` | kernel/src/logging/flanterm.c:947-964 | DCH takes out min(n, cols - x) cells and blanks the end of the row |
| `Commands.InsertShift` | kernel/src/logging/flanterm.c:1939-1950 | insert mode moves the rest of the row right by the width of the character |
| `Commands.ScrollRowsUp` | kernel/src/logging/flanterm.c:1020-1027 | SU and DL are one shift by min(n, height of the region) rows |
| `Commands.ScrollRowsDown` | kernel/src/logging/flanterm.c:1028-1035 | SD and IL are one shift by min(n, height of the region) rows |
| `Edits.InsertedLine` | kernel/src/logging/flanterm.c:929-946 | the row after ICH: row[..x], blanks, row[x..cols - n] |
| `Edits.DeletedLine` | kernel/src/logging/flanterm.c:947-964 | the row after DCH: row[..x], row[x + n..], blanks |
| `Edits.DeleteUndoesInsert` | kernel/src/logging/flanterm.c:929-964 | DCH n after ICH n restores the screen but for the n cells pushed off the row, which are blank |
| `Edits.EditsStayInLine` | kernel/src/logging/flanterm.c:929-998 | ICH, DCH, ECH, EL and the insert shift touch no cell outside their range |
| `Edits.ErasesMeet` | kernel/src/logging/flanterm.c:888-998 | erasing from the cursor and up to the cursor together erase the whole line, and the whole screen |
| `Edits.PrintedPushes` | kernel/src/logging/flanterm.c:1939-1950 | inside a row a character replaces one cell, and in insert mode pushes the rest of the row right |
| `Edits.RepeatedInRow` | kernel/src/logging/flanterm.c:1036-1054 | repeating a character n times where the row has room writes exactly n cells |
| `Controls.MoveStaysInside` | kernel/src/logging/flanterm.c:747-838 | every cursor movement ends on the screen, and in the region when positions count from it |
| `Controls.UpThenDown` | kernel/src/logging/flanterm.c:747-773 | moving up and down by n returns exactly when no limit stopped the first move or the cursor was on the last row allowed |
| `Controls.MarginsAreProper` | kernel/src/logging/flanterm.c:999-1015 | DECSTBM always leaves 0 <= top < bottom <= rows, and takes proper parameters as given |
| `Controls.NextTabIsNext` | kernel/src/logging/flanterm.c:608-615 | HT goes to the next multiple of eight, or to the last column |
| `Controls.ControlStays` | kernel/src/logging/flanterm.c:739-1064 | no control function but SCORC, DECSTBM and REP takes the cursor off the screen or out of the region |
| `Controls.C0Stays` | kernel/src/logging/flanterm.c:594-640 | nor does any C0 control |
| `ControlLaws.LineFeedMeans` | kernel/src/logging/flanterm.c:613-626 | at the last line of the region each of its rows shows what the next one showed, the last one is blank and rows outside stay; elsewhere the screen stays and the cursor is one row down, on the last row of the screen nothing moves |
| `ControlLaws.ReverseMeans` | kernel/src/logging/flanterm.c:1184-1192 | the mirror image at the first line of the region |
| `ControlLaws.FeedAndReverse` | kernel/src/logging/flanterm.c:1166-1192 | between the edges of the region, a line feed and its reverse restore screen and row |
| `ControlLaws.C0Means` | kernel/src/logging/flanterm.c:594-640 | what BS, HT, LF, VT, FF and CR do to cursor and screen; every other C0 control leaves both alone |
| `ControlLaws.MoveMeans` | kernel/src/logging/flanterm.c:747-838 | direction and amount of every movement: n columns or rows in its direction, or less only up to the limit it then stands at; positions count from 1, from the region in origin mode, and end at the last one |
| `ControlLaws.EraseMeans` | kernel/src/logging/flanterm.c:888-998 | EL, ED and ECH cell by cell: a cell is blank when the parameter names it and unchanged otherwise, and the cursor stays |
| `ControlLaws.ScrollMeans` | kernel/src/logging/flanterm.c:839-866 | SU, SD, DL and IL row by row, from the top of the region or from the cursor row; outside the region DL and IL do nothing |
| `ControlLaws.ShiftMeans` | kernel/src/logging/flanterm.c:929-964 | ICH and DCH row by row: the row of the cursor with cells pushed in or taken out, every other row unchanged |
| `ControlLaws.MarginsMean` | kernel/src/logging/flanterm.c:999-1015 | DECSTBM takes the lines given exactly when they make a region of two lines or more on the screen, and the whole screen otherwise |
| `Utf8.EmitsExactly` | kernel/src/logging/flanterm.c:1965-2038 | in every byte stream a code point is emitted at a position exactly when a well-formed sequence of RFC 3629 section 4 ends there, and it is its number |
| `Utf8.WellFormedIsEncoding` | kernel/src/logging/flanterm.c:1981-2000 | the well-formed sequences are exactly the encodings of scalar values from 0x80 on: no overlong form, no surrogate, nothing above 0x10FFFF |
| `Utf8.RoundTrip` | kernel/src/logging/flanterm.c:1965-2038 | decoding the section 3 encoding of a scalar value gives it back, after any bytes |
| `Utf8.OrStep` | kernel/src/logging/flanterm.c:1973-1974 | while the bits gathered so far are aligned, the step of the source, which ors the payload in, is the step of the decoder, which adds it |
| `Utf8.BitsDoNotOverlap` | kernel/src/logging/flanterm.c:1974 | in every stream they are aligned, so that both steps agree after every prefix |
| `EmulatorLaws.NextKeeps` | kernel/src/logging/flanterm.c:1952-2102 | every byte in every state keeps the parser, the margins, the cursor and the saved state in order; and, as long as no CSI u took the cursor out of the region, it stays there while origin mode is on |
| `EmulatorLaws.AfterKeeps` | kernel/src/logging/flanterm.c:130-138 | so does every stream of bytes |
| `EmulatorLaws.ResetKeeps` | kernel/src/logging/flanterm.c:1156-1165 | RIS restores the strict invariant from every state in order: the cursor and the saved one are in the region again, also when a CSI u had taken the cursor out |
| `EmulatorLaws.ControlIgnoresWrapping` | kernel/src/logging/flanterm.c:732-1074 | every control function but REP has the same effect with scrolling off and wrapping on, which the source switches around it |
| `EmulatorLaws.StraysExactly` | kernel/src/logging/flanterm.c:971-973 | a byte takes the cursor out of the region exactly when it is the u of an ordinary control sequence, executed in origin mode, whose stored row lies outside the region; only ESC c ends that |
| `EmulatorLaws.LeavesAndIsOut` | kernel/src/logging/flanterm.c:971-973 | after such a byte the cursor is outside the region in origin mode |
| `EmulatorRuns.RunStrays` | kernel/src/logging/flanterm.c:130-138 | over every stream the mark of having left is set exactly when some such byte came after the last ESC c |
| `EmulatorRuns.OriginIsSafe` | kernel/src/logging/flanterm.c:130-138 | from every safe state, after every stream without such a byte, the cursor is in the scrolling region whenever origin mode is on |
| `EmulatorRuns.OriginIsSafeExactly` | kernel/src/logging/flanterm.c:130-138 | the exact condition: over every stream from a safe state the cursor, and the saved one, stay in the region throughout if and only if no CSI u is executed in origin mode with a stored row outside the region |
| `EmulatorRuns.StoredRowLeaves` | kernel/src/logging/flanterm.c:965-973 | a failing input: from the top row of at least ten, ESC [ s, ESC [ 5 ; 10 r, ESC [ ? 6 h, ESC [ u leaves the cursor above the region in origin mode |
| `EmulatorRuns.SavedStays` | kernel/src/logging/flanterm.c:1076-1108 | only ESC 7, ESC c and mode 1049 overwrite the saved state |
| `EmulatorRuns.SaveBrackets` | kernel/src/logging/flanterm.c:1076-1108 | ESC 7, any bytes that do not overwrite the saved state, ESC 8: cursor, colours, margins, character sets, wrapping and origin mode are back |
| `EmulatorRuns.ReadsExactly` | kernel/src/logging/flanterm.c:659-675 | a parameter is read as the number it spells exactly when that number fits in 32 bits |
| `EmulatorRuns.ReadsBeginning` | kernel/src/logging/flanterm.c:663-675 | of a number that does not fit, the longest beginning that fits is read, except that 429496729 followed by more becomes 2^32 - 1 |
| `EmulatorRuns.ParametersRun` | kernel/src/logging/flanterm.c:656-689 | up to sixteen parameters of any length arrive one by one and change nothing but the parser |
| `EmulatorRuns.ControlSequenceRuns` | kernel/src/logging/flanterm.c:642-1074 | the bytes ESC [ p1 ; p2 ; ... c between sequences are the control function c with the numbers that the parameters spell, defaults included, and end between sequences |
| `EmulatorRuns.PlainSequenceRuns` | kernel/src/logging/flanterm.c:739-1064 | for the functions on the screen that is `AfterControl`, and nothing else of the terminal changes |
| `EmulatorRuns.PrivateSequenceRuns` | kernel/src/logging/flanterm.c:455-502 | ESC [ ? with parameters and h or l sets or resets the private modes in the order given |
| `EmulatorRuns.CancelEnds` | kernel/src/logging/flanterm.c:1953-1963 | CAN and SUB end every sequence in every state, but leave the mark of a private one |
| `EmulatorRuns.LeftoverIsPrivate` | kernel/src/logging/flanterm.c:1953-1963 | exactly when that mark is set, the next control sequence without a question mark is read as a private one; `ControlSequenceRuns` covers the other case |
| `EmulatorRuns.CancelledPrivate` | kernel/src/logging/flanterm.c:1953-1963 | ESC [ ? CAN sets the mark from every idle state |
| `EmulatorRuns.RepeatsLast` | kernel/src/logging/flanterm.c:1036-1054 | a graphic byte followed by REP with n: the same character min(n, 65535) more times, once for a missing or zero n |
| `EmulatorText.DecoderRuns` | kernel/src/logging/flanterm.c:1952-2038 | after every stream, control sequences included, the decoder inside the terminal stands where the decoder alone stands after the same bytes, when each byte that the parser drops is read as CAN |
| `EmulatorText.CompletedIsShown` | kernel/src/logging/flanterm.c:1989-2021 | a byte that completes a code point puts exactly that code point on the screen, in every state |
| `EmulatorText.TextArrivesExactly` | kernel/src/logging/flanterm.c:1952-2038 | in every stream to the terminal that starts between characters, a code point is shown at a byte exactly when a well-formed sequence of RFC 3629 section 4 ends there of which the parser drops no byte, and it is its number |
| `EmulatorEffects.ByteIsShown` | kernel/src/logging/flanterm.c:2080-2102 | between sequences, in the default set, a byte 0x20 to 0x7e puts its own character at the cursor in the colours of the text, and nothing else of the terminal changes |
| `EmulatorEffects.DrawingIsShown` | kernel/src/logging/flanterm.c:1207-1245 | in the line-drawing set it puts the drawing, if there is one |
| `EmulatorEffects.BoxesMeet` | kernel/src/logging/flanterm.c:1219-1233 | the box-drawing letters give glyphs of code page 437 whose lines reach in the directions of the DEC set |
| `EmulatorEffects.StrayByte` | kernel/src/logging/flanterm.c:2093-2101 | a byte above ASCII that opens no sequence shows the mark 0xfe |
| `EmulatorEffects.BrokenSequence` | kernel/src/logging/flanterm.c:1965-1972 | a multi-byte sequence that breaks off shows one mark, and the byte that breaks it off then has its own effect |
| `EmulatorEffects.CodePointIsShown` | kernel/src/logging/flanterm.c:2015-2021 | a code point with a glyph shows it at the cursor |
| `EmulatorEffects.WideMark` | kernel/src/logging/flanterm.c:2002-2014 | one without a glyph takes as many columns as it is wide, the mark and blanks; without width it shows nothing |
| `EmulatorEffects.ControlForgets` | kernel/src/logging/flanterm.c:2061-2078 | after a control character there is nothing to repeat; NUL, BEL, CAN, SUB and DEL change nothing else |
| `EmulatorEffects.NothingToRepeat` | kernel/src/logging/flanterm.c:1036-1039 | REP then does nothing |
| `EmulatorEffects.RepeatsInRow` | kernel/src/logging/flanterm.c:1036-1054 | where the row has room, a byte and REP with n put 1 + min(n, 65535) copies of its character into it |
| `EmulatorEffects.FeedByte` | kernel/src/logging/flanterm.c:613-626 | LF, VT and FF between sequences feed one line |
| `EmulatorEffects.FeedEscapes` | kernel/src/logging/flanterm.c:1166-1194 | so do ESC D and ESC E, ESC E to the start of the line; ESC M feeds back |
| `EmulatorEffects.Designates` | kernel/src/logging/flanterm.c:2045-2058 | ESC ( and ESC ) name set 0 or 1: 0 line drawing, B default; nothing else changes |
| `EmulatorEffects.ShiftsSet` | kernel/src/logging/flanterm.c:631-636 | SO and SI put set 1 and set 0 into use |
| `EmulatorEffects.MoveRuns` | kernel/src/logging/flanterm.c:656-838 | a movement sequence, parameters spelled out, moves the cursor as `ControlLaws.Moves` says, and changes nothing else |
| `EmulatorEffects.EraseRuns` | kernel/src/logging/flanterm.c:656-998 | EL, ED and ECH sequences put spaces in the colours of the text into exactly the cells they name |
| `EmulatorEffects.BareSequence` | kernel/src/logging/flanterm.c:691-709 | a missing parameter counts 0 for ED, EL and the functions like them and 1 for all others |
| `EmulatorEffects.BareErase` | kernel/src/logging/flanterm.c:974-982 | ESC [ K and ESC [ J blank from the cursor to the end of the line and of the screen |
| `EmulatorEffects.PenFromParameters` | kernel/src/logging/flanterm.c:965-967 | SGR asks its table with exactly the parameters given |
| `EmulatorEffects.InsertSwitch` | kernel/src/logging/flanterm.c:514-537 | ESC [ 4 h and ESC [ 4 l switch insert mode and nothing else |
| `EmulatorEffects.MarginsSwitch` | kernel/src/logging/flanterm.c:999-1015 | DECSTBM as bytes: the margins given or the whole screen, and the cursor at the first position |
| `EmulatorEffects.UnknownIsSkipped` | kernel/src/logging/flanterm.c:718-731 | a control sequence with a byte that means nothing there is skipped to its final byte without any effect |
| `EmulatorEffects.EscapeTwice` | kernel/src/logging/flanterm.c:1131-1133 | ESC ESC is ESC |
| `EmulatorEffects.EscapeRestarts` | kernel/src/logging/flanterm.c:733-746 | ESC inside a control sequence gives it up, wherever its parameters have got to, and starts over |
| `EmulatorEffects.CommandIsSilent` | kernel/src/logging/flanterm.c:556-592 | an operating system command of any ASCII text, ended by BEL or ESC backslash, changes nothing |
| `EmulatorEffects.OriginSwitch` | kernel/src/logging/flanterm.c:475-478 | mode 6 switches origin mode and homes the cursor |
| `EmulatorEffects.WrapSwitch` | kernel/src/logging/flanterm.c:479-481 | mode 7 switches wrapping and nothing else |
| `EmulatorEffects.CursorSwitch` | kernel/src/logging/flanterm.c:482-484 | mode 25 shows and hides the cursor and changes nothing else |
| `EmulatorEffects.AlternateScreen` | kernel/src/logging/flanterm.c:485-495 | mode 1049 shows a blank screen and, whatever is done there short of saving again, brings back cursor, colours and modes |
| `EmulatorEffects.ResetForgets` | kernel/src/logging/flanterm.c:1156-1165 | RIS makes any two terminals of one size and pen alike: blank, at home, all modes and the saved state as at the start |
| `EmulatorEffects.StoreBrackets` | kernel/src/logging/flanterm.c:968-973 | ESC [ s, any bytes that do not store the position again, ESC [ u: the cursor is back |
| `Terminals.Terminal.constructor` | kernel/src/logging/flanterm.c:85-126 | a new terminal satisfies the invariant |
| `Terminals.Terminal.PutGlyph` | kernel/src/logging/flanterm.c:1939-1950 | insert_shift and raw_putchar reach the picture of `Printed` |
| `Terminals.Terminal.ExecuteC0` | kernel/src/logging/flanterm.c:594-640 | each C0 control has the effect of `AfterC0` (what that is: `ControlLaws.C0Means`) or selects its character set, and nothing else changes |
| `Terminals.Terminal.LineFunction` | kernel/src/logging/flanterm.c:1166-1194 | IND, NEL and RI reach `LineFeed` and `ReverseLineFeed` (`ControlLaws.LineFeedMeans`, `ControlLaws.ReverseMeans`) |
| `Terminals.Terminal.SaveState` | kernel/src/logging/flanterm.c:1093-1108 | modes, margins, colours and cursor are saved, and nothing else changes |
| `Terminals.Terminal.RestoreState` | kernel/src/logging/flanterm.c:1076-1091 | ... and restored |
| `Terminals.Terminal.DecSwitch` | kernel/src/logging/flanterm.c:474-497 | one private mode: origin mode homes the cursor to the region, mode 1049 saves and clears or clears and restores |
| `Terminals.Terminal.DecPrivateParse` | kernel/src/logging/flanterm.c:455-502 | the loop is the modes of the given parameters one after the other |
| `Terminals.Terminal.AddDigit` | kernel/src/logging/flanterm.c:663-675 | one digit extends the parameter, saturating, without 32-bit overflow |
| `Terminals.Terminal.FillDefaults` | kernel/src/logging/flanterm.c:691-709 | missing parameters, and zeros where 0 is no value, become the default |
| `Terminals.Terminal.MoveFunction` | kernel/src/logging/flanterm.c:747-838 | the cursor functions reach `AfterControl` (`ControlLaws.MoveMeans`) |
| `Terminals.Terminal.EraseFunction` | kernel/src/logging/flanterm.c:888-998 | ED, EL and ECH reach `AfterControl` (`ControlLaws.EraseMeans`) |
| `Terminals.Terminal.ShiftFunction` | kernel/src/logging/flanterm.c:929-964 | ICH and DCH reach `AfterControl` |
| `Terminals.Terminal.MoveLines` | kernel/src/logging/flanterm.c:839-866 | IL and DL act below the cursor row and put the margin back |
| `Terminals.Terminal.SetMargins` | kernel/src/logging/flanterm.c:999-1015 | DECSTBM sets the margins and homes the cursor |
| `Terminals.Terminal.RestoreCursor` | kernel/src/logging/flanterm.c:971-973 | SCORC puts the cursor at the stored position, brought onto the screen but not into the region |
| `Terminals.Terminal.RepeatLast` | kernel/src/logging/flanterm.c:1036-1054 | the loop prints the last character min(n, 65535) times when it was a graphic one |
| `Terminals.Terminal.Dispatch` | kernel/src/logging/flanterm.c:732-1064 | every final byte has its effect, with scrolling and wrapping as before on every path |
| `Terminals.Terminal.ControlSequenceParse` | kernel/src/logging/flanterm.c:642-1074 | every byte of a control sequence, with the parameter buffer and every flag afterwards |
| `Terminals.Terminal.Collect` | kernel/src/logging/flanterm.c:586-590 | the command is collected in order and never overruns its buffer |
| `Terminals.Terminal.OscParse` | kernel/src/logging/flanterm.c:556-592 | an operating system command ends at BEL or ESC backslash and gives back any other byte after ESC |
| `Terminals.Terminal.ResetTerminal` | kernel/src/logging/flanterm.c:1156-1165 | RIS field by field |
| `Terminals.Terminal.EscapeParse` | kernel/src/logging/flanterm.c:1110-1205 | every byte of an escape sequence, in every state of the parser |
| `Terminals.Terminal.Decode` | kernel/src/logging/flanterm.c:1965-2038 | the decoder, which ors the payload in, takes the step of `Utf8.Step`; a sequence that breaks off shows one replacement glyph |
| `Terminals.Terminal.PutCodePoint` | kernel/src/logging/flanterm.c:2002-2021 | a code point without a glyph takes as many columns as it is wide |
| `Terminals.Terminal.PutChar` | kernel/src/logging/flanterm.c:1952-2102 | every byte in every state takes the whole terminal, screen, modes, saved state and parser, to the state of the machine `Next`, and keeps the invariant; `EmulatorEffects` says what that is for characters, controls and sequences |
| `Terminals.Terminal.Write` | kernel/src/logging/flanterm.c:130-138 | a buffer is a run of the machine; unless a CSI u in it takes the cursor out, the cursor stays in the region in origin mode; with autoflush what is shown is the screen |
| `FatSizes.HaltsExactly` | kernel/src/fs/fat16.c:164-179 | the search ends, within two updates, exactly for the volumes other than 2050k + 41 and 2050k + 42 sectors with 16 <= k <= 255 |
| `FatSizes.SwingsForever` | kernel/src/fs/fat16.c:164-179 | when two neighbouring sizes ask for each other the search alternates between them for ever |
| `FatSizes.DivergesForever` | kernel/src/fs/fat16.c:164-179 | stated over the family: for 2050k + 41 and 2050k + 42 sectors with 16 <= k <= 255 the n-th size is 1, then k + 1 and k in turn, and no round of the loop ends it |
| `FatSizes.FatSizeIsRight` | kernel/src/fs/fat16.c:164-179 | the result is 0 exactly below 32745 and from 524235 sectors on; otherwise it is the only size f with f = ceil(2 * clusters(f) / 512), and clusters(f) is in [4085, 65525) |
| `FatSizes.ComputeFatSize` | kernel/src/fs/fat16.c:164-179 | the loop terminates with that result |
| `BootSectors.DecodeEncode` | kernel/src/fs/fat16.c:11-40 | reading the packed structure from an encoded sector gives every field back |
| `BootSectors.EncodeDecode` | kernel/src/fs/fat16.c:137-162 | the structure keeps every one of the 62 bytes it is read from |
| `BootSectors.ClearLowestBit` | kernel/src/fs/fat16.c:290-294 | n & (n - 1) is 0 exactly for powers of two |
| `BootSectors.ValidExactly` | kernel/src/fs/fat16.c:287-315 | exactly which structures pass validation |
| `BootSectors.CodeIsFirst` | kernel/src/fs/fat16.c:287-315 | the code of a structure that is refused is the number of the first check that fails |
| `Fat16.WritesStayInside` | kernel/src/fs/fat16.c:187-285 | all metadata writes, and all clusters, lie below total_sectors |
| `Fat16.FormattedIsValid` | kernel/src/fs/fat16.c:196-244 | the boot sector decodes to f and total_sectors, through the 16-bit or the 32-bit field, and passes validation |
| `FatGeometry.AreasAreRight` | kernel/src/fs/fat16.c:200-244 | read back from the boot sector, the areas follow one another up to the sector where the writes end, and the clusters behind them are as many as the search counted, a FAT16 number |
| `FatGeometry.TablesAreRight` | kernel/src/fs/fat16.c:246-282 | each copy of the table lies where the boot sector says: the reserved entries with the media byte, then blanks through the root directory to the first cluster |
| `FatGeometry.BootStartsBehind` | kernel/src/fs/fat16.c:200-244 | the jump goes behind the structure, and the signature closes the sector |
| `FatGeometry.NamesAreRight` | kernel/src/fs/fat16.c:204-242 | the names, and the values of a fixed disk |
| `FatGeometry.FailureTells` | kernel/src/fs/fat16.c:187-285 | each result other than 0 to 3 names the area, by the boot sector, that the refused write belongs to |
| `FatGeometry.RoomExactly` | kernel/src/fs/fat16.c:164-179 | the table has an entry for every cluster if and only if the number of clusters is neither 0 nor 255 modulo 256: the search leaves out the two reserved entries |
| `FatGeometry.LastClusterHasNoEntry` | kernel/src/fs/fat16.c:164-179 | a failing input: on 32825 sectors the last cluster has no entry |
| `Fat16.TablesDiffer` | kernel/src/fs/fat16.c:252-271 | the two copies of the table differ in their first sector, on every volume, and nowhere else |
| `Fat16.FillBoot` | kernel/src/fs/fat16.c:200-244 | the stores build the packed structure, zeros and the signature (what they describe: `FatGeometry`) |
| `Fat16.WriteTables` | kernel/src/fs/fat16.c:258-271 | writes sectors 1 to 2f in order, with the code of the first failure |
| `Fat16.Format` | kernel/src/fs/fat16.c:187-285 | the k-th write goes to sector k; each return code is tied to how far the writes got (`FatGeometry.FailureTells`) |
| `Fat16.ReadFat` | kernel/src/fs/fat16.c:137-162 | gives the decoded first sector exactly when device, frame, heap and disk allow it |
| `Fat16.Mounts.Mount` | kernel/src/fs/fat16.c:317-345 | each return code exactly when its check is the first to fail; volume numbers stay distinct |
| `Fat16.FormatAndMount` | kernel/src/fs/fat16.c:187-345 | what was formatted mounts when it can be read, and a second mount is refused |
| `Format.FindPower` | kernel/src/logging/format.c:332-337 | the power loop ends at the largest power not above the value and never leaves 64 bits |
| `Format.EmitDigits` | kernel/src/logging/format.c:351-360 | the digit loop prints the numeral, without its trailing zeros when the precision is 0 |
| `Numerals.NumeralReadsBack` | kernel/src/logging/format.c:351-360 | the digits read back to the value |
| `Numerals.DigitsFromFront` | kernel/src/logging/format.c:351-360 | dividing by falling powers gives the same digits as dividing by the radix |
| `Format.PrintNumber` | kernel/src/logging/format.c:326-362 | the code prints `Printed`, in which the sign is that of the flags and the value (`FormatLaws.OutputTellsSign`) |
| `Format.PrintedIsField` | kernel/src/logging/format.c:326-362 | the output is the field of the standard exactly when the precision is not 0, or no trailing zero, no zero of the alternative octal form and no padding of an empty field is lost |
| `Format.TenLosesItsZero` | kernel/src/logging/format.c:351 | a concrete loss: ten with precision 0 prints as 1 |
| `Format.OctalZeroIsLost` | kernel/src/logging/format.c:338-349 | another: the alternative octal form of 0 with precision 0 prints nothing |
| `Format.OctalStartsWithZero` | kernel/src/logging/format.c:338-345 | in the field of the standard the alternative octal form starts with a zero, also for 0 |
| `Format.FieldLength` | kernel/src/logging/format.c:338-345 | the field is max(width, sign or prefix + max(precision, digits)) long, with one more zero only for an alternative octal number whose precision does not bring one |
| `Format.FieldReadsBack` | kernel/src/logging/format.c:326-362 | zeros and digits read back to the magnitude, and with the sign to the argument, down to the least 64-bit number |
| `Format.ReadFlags` | kernel/src/logging/format.c:157-171 | each flag is set exactly when its character occurs; minus cancels zero and plus cancels space |
| `Format.ReadCount` | kernel/src/logging/format.c:184-192 | width and precision are the number that the digits spell |
| `Format.ReadConversion` | kernel/src/logging/format.c:157-240 | flags, width, precision and length modifier are read as they are written; a precision cancels the zero flag |
| `Format.LoadIsConversion` | kernel/src/logging/format.c:248-265 | the argument keeps the low bits that the length modifier leaves, extended by their sign for d and i |
| `Format.Convert` | kernel/src/logging/format.c:157-362 | a whole integer conversion, from its text and argument to the output (`FormatLaws.FieldFromText` says which field that is) |
| `FormatLaws.SignFromText` | kernel/src/logging/format.c:275-318 | the sign from flags, letter and value: minus exactly for a negative d or i, else plus exactly with a plus flag, blank exactly with a space flag alone; 0x and 0X exactly for a non-zero x and X with a number sign; none for o and u |
| `FormatLaws.OutputTellsSign` | kernel/src/logging/format.c:338-362 | for every width and precision the output of the code contains +, -, x and X exactly in those cases |
| `FormatLaws.FieldFromText` | kernel/src/logging/format.c:157-362 | the field of the standard from the text: radix and case by the letter, at least as many digits as the precision, the value read back, and the width filled with blanks behind, zeros within or blanks in front as the flags say |
| `FormatLaws.LengthIsType` | kernel/src/logging/format.c:206-265 | each length modifier selects the size of its type |

## Left out

- `Mapping.MapPageLookup`: takes from the callers what the code does not test: flags without address bits, no huge pages, and enough free frames for the missing tables.
- `VmAllocation.AllocRegionKeepsVm`: for ranges in the lower half that are not mapped yet and end below 2^47. On a range with a mapped page the account of frames is lost, exactly as `VmRemaps.AllocAtKeepsFramesExactly` says; regions made by the `vm_map` functions are not modelled, because freeing them would hand foreign frames to the free list.
- `VmRelease.FreeRegionKeepsVm`: for whole regions. For any lower-half range `VmLaws.FreedRangeMatchesExactly` says exactly when the regions still tell which pages are present.
- `VmLaws.DestroyKeepsVm`: destroying a space does not give back its root, its tables or its record, as in the source.
- `Vm.VmAllocAt`: the same ranges as `VmAllocation.AllocRegionKeepsVm`, and sizes whose rounding does not wrap around 64 bits.
- `Vm.VmAlloc`: the same ranges and sizes, starting at next_free. That the range is absent is derived in `VmRuns.AllocNeedsRoomOnly` from windows in the lower half and from callers who keep vm_alloc_at outside them.
- `Vm.VmFree`: whole regions, as `VmRelease.FreeRegionKeepsVm`.
- `Heaps.Heap.HeapExpand`: taking the frames of the fresh pages and mapping them is not repeated here; what a fresh page contains is a parameter.
- `Heaps.Heap.Kmalloc`: for requests that a page can hold; larger ones never return, as `Heaps.KmallocReturnsExactly` shows.
- `Heaps.Heap.Krealloc`: the same bound on the request.
- `Terminals.Terminal.PutChar`: how SGR and RIS choose colours, and the tables of glyphs and widths, are parameters of the machine, while the line-drawing table is copied, with a law for its box-drawing letters only; callbacks are taken not to touch the terminal.
- `EmulatorRuns.ControlSequenceRuns`: for one to sixteen parameters and a final byte other than the bracket, which right after CSI has a meaning of its own.
- `FatSizes.ComputeFatSize`: requires a volume for which the search ends; for the others `FatSizes.DivergesForever` shows that it does not.
- `Fat16.Format`: the same volumes; the disk accepts or refuses each sector; whether a frame and heap are available are parameters.
- `Format.PrintNumber`: widths and precisions are unbounded numbers, where the source has 32-bit ones; the character count is the length of the output.
- Words are non-negative integers below 2^64, with masks and shifts as division and remainder; the offset of the direct map is 0, so that a frame is addressed by its physical address.
- Atomic accesses, address-space switching and invalidation of translations: the model is sequential.
- Pixel drawing, fonts, rotation and start-up of the framebuffer: drawing a character stores a cell of the shown screen.
- Direct calls that move the cursor or clear the terminal without going through the byte stream.
- Storage controller, interrupts, descriptor tables, serial port, panic and the stubs of the file system layer.
- Conversions other than integers, the `*` forms of width and precision, and the loop that copies the text between conversions.
