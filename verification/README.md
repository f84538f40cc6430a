# fuckOS in Dafny

A model of the memory and process core of fuckOS, a small x86 kernel written in C, with some
of its user-space pieces, and proofs of what the code promises. `dafny verify dfyconfig.toml`
checks everything. Nothing here runs the original program.

Code that changes things in place is modelled by classes and methods over fields, arrays and
maps; each method is proved against functions and predicates on values, and the laws are
lemmas about those.

## The parts

**Page allocator** (`Bits`, `Buddy`, `Zone`; kernel/mm/zone.c). The zone keeps eleven free lists,
`order`, `nfree` and `free_pages`. At every step the listed blocks are the *canonical* form of the
set of free pages: exactly the maximal aligned blocks of order at most 10. Canonical forms are unique, so the
lists depend only on which pages are free, not on the order in which they were freed. Allocation
fails only if no aligned run of the wanted size is free. The `^` and `&` of the C code are defined
on binary representations and related to block arithmetic.

**Object allocator** (`SlabLayout`, `Freelists`, `Slub`, `Kmalloc`; kernel/mm/slab.c). Each slot is in exactly
one place: live, on one CPU's freelist, or on its own page's freelist. Freelists are threaded
through the slots themselves. `inuse`, the frozen flag and the partial list are tied to that
partition, and the asserts of `unfreeze_slab`, `deactivate_slab` and `_slab_free` are implied. Both
`kmalloc` and `kfree` run under one lock, so an operation of any CPU is one step. Over all twelve
caches, `page->slab` leads an address back to its cache and no two live objects share a byte.

**Copy-on-write paging** (`PageFrames`, `Paging`, `Spaces`, `PageFault`, `Fork`, `Teardown`,
`Budget`, `Eager`, `Processes`, `Program`, `Spawn`, `Runs`, `Conservation`; kernel/mm/page.c,
kernel/trap/page_fault.c, kernel/syscall/fork.c, kernel/syscall/exit.c, kernel/task.c). The state is
the frames with their counts and contents, and the tables of all address spaces. Every frame has one
role (free, object cache, top, middle or last table, data), each table frame is reached from the one entry it is for, and a data frame's count is
the number of entries that map it. `Runs.Run` is the main theorem: over every run of fork, stores
and loads with all the faults they cause, exit and program start, what each process reads is what it
would read if fork had copied all memory at once, and each operation ends exactly as the state before it and
the answers of `kmalloc` demand and leaves exactly the frames free that it should: the frames that a fork, a
program start or a fault takes are counted page by page, and exit gives back what its task alone held.
In bytes: a load yields what was stored last at its place (`Runs.LoadYieldsLastStore`), a page not touched before
reads zero, and a new task reads its file's bytes where the program headers say (`Spawn.TaskCreate`).
The panics in the fault handler cannot be reached, and every frame stays accounted for.

**Page tables as words** (`PageTable`, `TableWords`; kernel/mm/page.c, include/mm/pages.h). The
three-level table in the layout of section 4.4 "PAE Paging" of the Intel SDM volume 3A spells out a flat
map from page number to entry, and step by step the words refine the maps of the paging model.

**Scheduler, wait and exit** (`Pidmap`, `Sched`, `Deadlock`, `SchedRuns`, `Kernel`; kernel/sched.c,
kernel/syscall/wait.c, kernel/syscall/exit.c, kernel/pidmap.c). One step is one trap on the one CPU:
a tick, a fork or execve, a wait or an exit, followed by `schedule`. The invariant gives freedom from deadlock
(`Sched.DeadlockFreedom`, for every run from boot before process numbers wrap around) and a bound on
waiting for the CPU.

**Memory areas** (`VmaTree`, `AddressSpace`, `AreaChain`; kernel/mm/mm.c, kernel/syscall/brk.c). Lookup and
insertion in the linked search tree, and exactly when the fault handler's test decides whether an address is
mapped, over every sequence of `create_vma` calls (`AddressSpace.BuiltSoundIff`). The `vm_next` chain beside
the tree, and what it means for the kernel's `brk` and for exit.

**User heap** (`Brk`, `Malloc`; lib/brk.c, lib/malloc.c), with the whole chunk list of every call; **shell
tokenizer** (`Tokenizer`; user/sh.c); **numbers** (`Numbers`; lib/printfmt.c, lib/string.c): `strtol` accepts a
grammar that takes each string apart in one way, and reads back what `printnum` wrote; **intrusive lists**
(`IntrusiveList`; include/fuckOS/list.h).

## Where the code does less than it should

Each of these is a lemma with a concrete input, or a contract that says when the law holds, both ways.

- A task made by execve lives in memory that is not cleared, so its `pwait` can be that of a task that
  has gone. The scheduler's invariant survives such a birth if and only if the stale flag is false and
  the new number closes no cycle of parents (`Sched.BirthKeepsIff`). With the flag set, a parent that is in the
  run queue can be linked into it again, from every state (`Deadlock.StaleSpawnRelinks`;
  `SchedRuns.StaleWaitRelinksParent` is such a run from boot), and every task
  behind it is then lost to the scheduler (`IntrusiveList.AddTailLinked`, `SchedRuns.RelinkLosesTasks`).
- After process numbers wrap around, a task can be given the number that an orphan above it still records
  as its parent's. A birth leaves no such cycle if and only if the number is not the one that its parent's
  topmost live ancestor records (`Sched.BirthForestIff`); from every such state the kernel can be
  brought to the empty-queue panic with tasks alive (`Deadlock.CycleDeadlocks`;
  `SchedRuns.WrappedPidsDeadlock` is such a run from boot).
- `region_alloc` rounds the end of a segment and `create_vma` its length. A segment gets a page outside
  its area, which exit does not unmap, if and only if the partial pages at its two ends do not fit on one
  (`Program.MappedInsideIff`, `Spawn.SegmentContainedIff`, `Teardown.DeleteAllVma`); it is one page for each
  such segment, and its frame is not given back (`Spawn.StrandedPage`, `Teardown.ExitMm`,
  `Conservation.ExitReturns`, `Conservation.StrandedFrame`). One page
  of text at the address where this repository links its programs is such a segment
  (`Program.LinkedProgramSticksOut`).
- `rb_link_node` does not write the child links of a new node, and `kmalloc` does not clear them. The
  linked tree is the one that is meant if and only if both happened to be null
  (`AddressSpace.LinkShapeIff`, `AddressSpace.Mm.CreateVma`, `AddressSpace.ChildLinksSurvive`).
- `alloc_pidmap` fails if and only if all numbers from the last one up are in use, whatever is free
  below (`Pidmap.NextPidFailsIff`, `Pidmap.TwoPidsExhaustTheSearch`); a run from boot ends so with three
  tasks alive (`SchedRuns.ThreeTasksExhaustPids`).
- An empty area hides a non-empty one with the same end that was linked after it. The fault
  handler's test is right if and only if no area is hidden (`VmaTree.DecidesIffNoneHidden`).
- `create_vma` keeps areas disjoint if and only if the request does not wrap around 2^32 and no
  area ends between the rounded and the requested start (`AddressSpace.CreateKeepsIff`, and over all
  sequences of calls `AddressSpace.BuiltSoundIff`; inputs in
  `AddressSpace.WrappingRequest`, `AddressSpace.StraddlingRequest` and `AddressSpace.HidingRequest`).
- `find_vma_prev` looks no further than the root of the tree (`VmaTree.PrevIsRoot`), so the `vm_next` chain is
  not in the order of addresses. `brk` takes the area behind the heap in the chain for the next one in
  memory: the heap of a program can grow if and only if its first segment ends below the heap
  (`AreaChain.LoadedHeapGrowsIff`, `AreaChain.LoadedBrk`), and that of a child which a
  program of two adjacent segments forks never can (`AreaChain.ForkedHeapIsStuck`).
- `delete_all_vma` moves on from an area only if `find_vma_prev` finds nothing. Exit of a program of two segments
  ends if and only if they are adjacent (`AreaChain.ExitEndsIff`).
- `sbrk` reports success without growth if and only if the sum wraps around (`Brk.Break.Sbrk`,
  `Brk.WrappingSbrk`), and the heap's chunks then no longer tile it (`Malloc.Heap.Extend`, and exactly when
  for a request `Malloc.Heap.Malloc`).
- A fork that fails in `copy_files` leaves the child's address space behind
  (`Processes.DoFork`, `Runs.Run`).
- `strtol` gives back the number printed if and only if it is below 2^31 (`Numbers.RoundTrip`).

## Model

| member | source | states |
|---|---|---|
| `Runs.Run` | kernel/syscall/fork.c:144-190 | over every run of forks, stores, loads, exits and program starts, with all their faults: every operation ends exactly as the state before it and the answers of `kmalloc` demand (skipped, killed, refused or done), every task reads what it would if fork had copied memory, each operation leaves exactly the frames free that it should, frames are conserved, and no address space outlives its task unless a fork failed in `copy_files` |
| `Runs.Execute` | kernel/syscall/fork.c:24-65 | one operation keeps the invariant, ends exactly as the state before it and the answers of `kmalloc` demand, does to every task's view of memory what it does on memory each task owns, and leaves exactly the frames free that it should: the need of the access, the bill of the fork or start, or what the exiting task alone held |
| `Runs.RunFromBoot` | kernel/init/main.c:104-107 | the same for every run that starts with all frames free, no task and no address space, and ends in the state returned; it stops early only at a panic |
| `Runs.LoadYieldsLastStore` | kernel/trap/page_fault.c:58-158 | in every run a load yields the byte stored last at its place, whatever forks, exits, faults and other stores lie between |
| `Runs.LoadAfterStore` | kernel/trap/page_fault.c:58-158 | in every run a load right after a store to its place is served, with the byte stored |
| `Runs.ChildInherits` | kernel/syscall/fork.c:144-190 | in every run, right after a fork the child sees on each page what its parent saw there before, and nobody else sees a change |
| `Processes.DoFork` | kernel/syscall/fork.c:24-65 | the child sees exactly the parent's memory and nobody else sees a change; a fork succeeds if and only if there is a number, all objects are granted and the free frames cover them, the top table and the tables over the parent's pages; `copy_files` fails, and an address space stays behind, exactly when only the objects before it can be had; any other failure changes nothing visible; how many objects it got, and so how many frames are missing afterwards, is exact in every case |
| `Processes.Fault` | kernel/trap/page_fault.c:32-56 | a fault is served without any task seeing a change, exactly when page and memory allow, and takes exactly the frames it needs; otherwise its task exits, only its memory disappears, and exactly the frames it alone held are free again |
| `Processes.Store` | kernel/trap/page_fault.c:58-158 | a store by one task puts the byte at its place and changes no other byte that any task sees, or the storing task is killed, exactly when the page is in no area or memory is short; the free frames afterwards are exact |
| `Processes.Write` | kernel/trap/page_fault.c:116-158 | on a page that can be written, exactly that byte changes in all that any task sees |
| `Processes.Load` | kernel/trap/page_fault.c:58-115 | a load returns the byte its task would find in memory of its own, which is 0 on a page not touched before, or its task is killed, exactly when the page is in no area or memory is short; the free frames afterwards are exact |
| `Processes.Exit` | kernel/syscall/exit.c:75-117 | exit removes one task's memory from view, keeps all else, and frees exactly the frames that its address space alone held |
| `Processes.TaskSetVm` | kernel/syscall/fork.c:119-142 | a new empty address space with the parent's heap start exactly when the object and a frame for the top table can be had; otherwise only the frames of the objects already granted are missing |
| `Processes.CopyOrUndo` | kernel/syscall/fork.c:46-63 | `copy_task` completes exactly when the bill can be paid; else `exit_mm` removes everything it gave the child, and the number of objects granted is known |
| `Processes.CopyFiles` | kernel/syscall/fork.c:91-117 | succeeds exactly when two more objects can be had |
| `Processes.CopiedAll` | kernel/syscall/fork.c:144-190 | after a complete copy the child has every page of the parent, so what was paid is the whole bill |
| `Processes.UndoneFrames` | kernel/syscall/fork.c:58-63 | after a copy that was undone, pool and object caches together hold the frames they held before |
| `Processes.OrphanValid` | kernel/syscall/fork.c:41-43 | after `copy_files` fails the invariant and all views hold although the child's address space stays |
| `Fork.CopyTask` | kernel/syscall/fork.c:144-190 | completes if and only if objects for all areas and tables over all present pages of the parent can be had; then the child has every area and every such page, read-only in both; on failure a prefix of them; no other entry changes its frame or gains write access |
| `Fork.SharePage` | kernel/syscall/fork.c:162-183 | one page: both entries name the same frame, neither can write, and the count rises by one; it fails only when the whole copy cannot be paid for |
| `Fork.ShareKeeps` | kernel/syscall/fork.c:178-182 | sharing keeps all counts, roles and tables exact |
| `Fork.CreateVma` | kernel/syscall/fork.c:157-161 | the child gets the area unless no object memory is left |
| `Fork.Kmalloc` | kernel/mm/slab.c:443-458 | an object exactly when the caches give one and the frames they take for it are free |
| `Budget.TabledNext` | kernel/mm/page.c:192-229 | an address space that has exactly the tables its pages need has them after one more walk, at the cost of the missing ones |
| `Budget.PageShort` | kernel/mm/page.c:192-229 | a page that cannot be had shows that the whole bill cannot be paid |
| `Budget.CostGrows` | kernel/mm/page.c:192-229 | more pages need no fewer tables |
| `Budget.ObtainedOnce` | kernel/syscall/fork.c:24-65 | how many objects a fork gets is decided by the answers of `kmalloc`, the free frames and the parent's pages, area by area |
| `Budget.StoppedInArea` | kernel/syscall/fork.c:156-187 | a copy that stops at a page got the objects up to that area and no more, and the whole could not be paid for |
| `Eager.ForkImage` | kernel/syscall/fork.c:144-190 | after a completed copy, the views of all tasks are those of an eager copy |
| `Eager.UndoneImage` | kernel/syscall/fork.c:58-63 | after a copy that was undone, the views of all tasks are as before |
| `Eager.TornImage` | kernel/syscall/exit.c:75-117 | after teardown, the views of all other tasks are as before |
| `PageFault.PageFaultHandler` | kernel/trap/page_fault.c:32-56 | a fault is served if and only if its page is in an area and enough frames are free for the page and the tables it needs; otherwise at most the tables grew |
| `PageFault.HandlePteFault` | kernel/trap/page_fault.c:58-115 | none of its panics can be reached for a fault the hardware raises; the page ends up writable, alone on its frame, with unchanged contents |
| `PageFault.DoWpFault` | kernel/trap/page_fault.c:116-158 | the last mapper keeps its frame, otherwise the contents move to a new frame through the scratch page, which is unmapped again |
| `PageFault.SupplyZero` | kernel/trap/page_fault.c:80-100 | a stack or heap page gets a frame of 4096 zero bytes exactly when one is free |
| `PageFault.FindArea` | kernel/trap/page_fault.c:40-43 | an area containing the page exactly when there is one |
| `Paging.Tables.PageAlloc` | kernel/mm/page.c:65-81 | a free frame, all bytes of it zero, exactly when there is one |
| `Paging.Tables.PageWalk` | kernel/mm/page.c:192-229 | finds or creates the place of an entry; creation, even half-failed, changes no entry and no frame in use, and fails only when no frame is free |
| `Paging.Tables.GetPmd` | kernel/mm/page.c:161-177 | adds a counted middle table exactly when a frame is free |
| `Paging.Tables.GetPte` | kernel/mm/page.c:179-190 | adds a counted page table exactly when a frame is free |
| `Paging.Tables.PageInsert` | kernel/mm/page.c:139-159 | one entry is set, an old mapping is dropped, all counts stay exact, also when the same page is inserted again; it fails exactly when the missing tables outnumber the free frames |
| `Paging.Tables.Place` | kernel/mm/page.c:150-157 | incrementing before removing comes to one mapping exchanged for another |
| `Paging.Tables.Remove` | kernel/mm/page.c:119-137 | one entry is cleared and its frame freed exactly when that was the last mapping |
| `Paging.Tables.PageDecref` | kernel/mm/page.c:92-97 | one reference less, and the frame freed exactly at zero |
| `PageFrames.MapKeeps` | kernel/mm/page.c:150-155 | a new mapping keeps counts, roles and tables exact |
| `PageFrames.UnmapKeeps` | kernel/mm/page.c:119-137 | removing a mapping keeps them exact; the last one frees the frame |
| `PageFrames.DropLastKeeps` | kernel/syscall/exit.c:99-106 | dropping a page table, whatever it holds, keeps counts, roles and tables exact for the entries that were counted |
| `PageFrames.DropMiddleKeeps` | kernel/syscall/exit.c:107-109 | the same for a middle table without page tables |
| `Conservation.StepBoundary` | kernel/mm/page.c:92-159 | between operations a frame's count is the number of its mappings, a writable frame has one, scratch pages are unmapped, free frames are mapped nowhere |
| `Conservation.Accounting` | kernel/syscall/exit.c:75-117 | all frames = free + object caches + mapped data frames + one per table |
| `Conservation.ExitReturns` | kernel/syscall/exit.c:75-117 | exit frees exactly the frames the address space alone held, but for those on pages outside its areas, and drops one reference for each mapping in its areas |
| `Conservation.ExitFrees` | kernel/syscall/exit.c:75-117 | a task that exits with all its pages in areas, also after a fault that grew its tables in vain, frees exactly what it alone held |
| `Conservation.StrandedFrame` | kernel/syscall/exit.c:93-114 | a page outside the areas: after `exit_mm` its frame is not free and counts a mapping that no entry holds, and if only this address space mapped it nothing leads to it |
| `Teardown.ExitMm` | kernel/syscall/exit.c:75-117 | afterwards no entry or table of the address space is left and nothing else changed, whatever was mapped; the counts are then exact if and only if no page lay outside the areas, and else still count the entries that `delete_all_vma` left |
| `Teardown.DeleteAllVma` | kernel/syscall/exit.c:60-74 | exactly the pages inside its areas are unmapped, so all pages of the address space are if and only if none lies outside them |
| `Teardown.UnmapArea` | kernel/mm/mm.c:40-51 | every page of one area is unmapped, no other entry is touched |
| `Teardown.FreeTables` | kernel/syscall/exit.c:93-114 | all tables of the address space are freed, with the entries they still hold |
| `Spawn.TaskCreate` | kernel/task.c:213-233 | the new task reads each byte of the file at the address its program header says, zeros behind them up to the segment's size, and zeros everywhere else; it has the pages of its segments, the stack and one heap page; nobody else sees a change; it succeeds if and only if there is a number, the program passes every test of `load_icode`, all objects are granted and the free frames cover them, the top table, the pages and their tables; it then has taken exactly those |
| `Spawn.SpawnShows` | kernel/task.c:43-87 | what loading leaves, page by page, shows every segment at its addresses, because no two segments share a page |
| `Spawn.StartableContent` | kernel/task.c:61-69 | a page that a segment touches holds that segment and no other |
| `Spawn.OnePageStarts` | kernel/task.c:213-233 | a program of one page starts, with all objects at hand, if and only if four frames are free |
| `Spawn.RegionAlloc` | kernel/task.c:100-121 | every page that a segment touches gets a frame of its own with the program's bytes; it fails only when the program cannot be paid for |
| `Spawn.LoadSegments` | kernel/task.c:43-70 | all segments are mapped and loaded, in disjoint areas that hold exactly their pages; it fails only for a program that fails a test of `load_icode` or cannot be paid for |
| `Spawn.AddStackAndHeap` | kernel/task.c:72-87 | stack and heap areas are added and meet no segment, and the heap starts behind the last data or code segment; it fails only for a program that cannot be laid out so or cannot be paid for |
| `Spawn.SegmentContainedIff` | kernel/task.c:100-121 | the pages mapped for a segment are those that exit finds in its area if and only if the two partial pages at its ends fit on one page |
| `Spawn.StrandedPage` | kernel/task.c:100-121 | of the pages mapped for a segment exactly the last lies outside its area when the segment is not tight, and none when it is |
| `Program.MappedInsideIff` | kernel/task.c:108-110 | `region_alloc` maps no page behind the area that `create_vma` made if and only if `va % 4096 + (memsz - 1) % 4096 < 4096`; otherwise it maps exactly one |
| `Program.LinkedProgramSticksOut` | user/user.ld:8 | a segment of one page at the address where all programs are linked has a page outside its area |
| `Program.GrantedIffClear` | kernel/mm/mm.c:170-184 | `get_unmapped_vma` grants a segment if and only if no page that it touches lies in another area |
| `Program.AreaIsRounded` | kernel/mm/mm.c:106-107 | the area of a segment is the one that `create_vma` computes |
| `Program.BrkFollowsSegment` | kernel/task.c:79-82 | `start_brk` is the end of some segment, rounded up, or 0 |
| `Program.HeapFollowsData` | kernel/task.c:47-54 | the heap starts on the page behind the last segment that holds data, wherever code lies |
| `Program.HeapFollowsCode` | kernel/task.c:80-81 | without data it starts on the page behind the last segment |
| `PageTable.Walker.PageWalk` | kernel/mm/page.c:192-229 | the place of the entry for an address; creating tables, even half-failed, changes no entry of the flat map and moves no place |
| `PageTable.Walker.PteSet` | include/mm/pages.h:122-134 | exactly one entry of the flat map changes |
| `PageTable.Walker.GetPmd` | kernel/mm/page.c:161-177 | a blank middle table changes no entry of the flat map |
| `PageTable.Walker.GetPte` | kernel/mm/page.c:179-190 | a blank page table changes no entry of the flat map and moves no place |
| `PageTable.SameSlotIffSamePage` | include/mm/pages.h:237-307 | two addresses have the same place if and only if they are on the same page |
| `PageTable.IndexesIffPage` | include/mm/pages.h:237-253 | the three indexes and the page number determine each other |
| `PageTable.Walker.constructor` | kernel/task.c:132-139 | a cleared top table spells out the empty flat map |
| `TableWords.WalksAgree` | kernel/mm/page.c:192-229 | in the words and in the frame model `page_walk` finds the same page table and the same entry |
| `TableWords.EmptyRefines` | kernel/task.c:132-139 | the words of a new address space spell out its empty maps |
| `TableWords.MiddleStep` | kernel/mm/page.c:161-177 | after `get_pmd` the words still spell out the maps of the frame model |
| `TableWords.LastStep` | kernel/mm/page.c:179-190 | after `get_pte` the words still spell out the maps |
| `TableWords.MapStep` | kernel/mm/page.c:139-159 | after the entry of `page_insert` is written the words still spell out the maps |
| `TableWords.UnmapStep` | kernel/mm/page.c:119-137 | after `page_remove` the words still spell out the maps |
| `TableWords.PteWordReads` | include/mm/pages.h:217-226 | an entry's word gives back its frame, that it is present and the user's, and its write bit, and has no other flag |
| `Zone.ZoneStruct.constructor` | kernel/mm/zone.c:155-171 | after initialisation the free pages are the available ones, in canonical form |
| `Zone.ZoneStruct.FreeAreaInit` | kernel/mm/zone.c:155-171 | freeing every available page builds the canonical form of that set |
| `Zone.ZoneStruct.Alloc` | kernel/mm/zone.c:53-83 | NULL exactly when no aligned run of the size is free; otherwise a run of formerly free pages, taken from the first non-empty list |
| `Zone.ZoneStruct.Split` | kernel/mm/zone.c:33-51 | the kept block loses exactly its upper halves to the lists |
| `Zone.ZoneStruct.Free` | kernel/mm/zone.c:95-144 | the pages become free and the lists stay canonical |
| `Zone.ZoneStruct.Coalesce` | kernel/mm/zone.c:111-138 | merging stops exactly when the buddy is not listed |
| `Zone.ZoneStruct.IsBuddyIffListed` | kernel/mm/zone.c:18-31 | `page_is_buddy` holds exactly of blocks on the free list of that order |
| `Zone.ZoneStruct.Accounting` | kernel/mm/zone.c:46-77 | `free_pages` = number of free pages = sum of list lengths times block sizes |
| `Zone.ZoneStruct.AllocThenFree` | kernel/mm/zone.c:53-144 | freeing a block just allocated restores the entries of every list and the counters |
| `Zone.HistoryIndependent` | kernel/mm/zone.c:95-144 | two zones with the same free pages have the same entries in every list |
| `Buddy.CanonicalIsUnique` | kernel/mm/zone.c:95-144 | a set of free pages has one canonical form |
| `Buddy.ListedIffMaximal` | kernel/mm/zone.c:95-144 | the canonical blocks are exactly the maximal aligned free blocks |
| `Buddy.ServableIffRunFree` | kernel/mm/zone.c:69-82 | some listed block is large enough if and only if some aligned run is free |
| `Buddy.SinglePageServable` | kernel/mm/page.c:58-81 | a request for one page can be served whenever any page is free |
| `Buddy.AddBlock` | kernel/mm/zone.c:139-143 | listing a block whose buddy is not listed keeps the canonical form |
| `Buddy.RemoveBlock` | kernel/mm/zone.c:73-78 | unlisting a block keeps the canonical form of what remains |
| `Buddy.BuddyFacts` | kernel/mm/zone.c:113-134 | the buddy by `^` is the other half of the block found by `&` |
| `Bits.XorFlipsBlock` | kernel/mm/zone.c:113 | for an aligned index `^` moves by one block, up or down, and undoes itself |
| `Bits.AndSelectsLower` | kernel/mm/zone.c:134 | `&` selects the lower of two buddies |
| `IntrusiveList.Add` | include/fuckOS/list.h:72-78 | the entry becomes the first of the ring |
| `IntrusiveList.AddTail` | include/fuckOS/list.h:81-84 | the entry becomes the last of the ring |
| `IntrusiveList.AddTailLinked` | include/fuckOS/list.h:81-84 | an entry that is already in the ring: the walk from the head ends at it, and every entry behind it is lost; the last entry is linked to itself |
| `IntrusiveList.Delete` | include/fuckOS/list.h:92-97 | the entry leaves the ring, the others keep their order, and it links to itself |
| `IntrusiveList.IsEmpty` | include/fuckOS/list.h:99-102 | true exactly for the ring of the head alone |
| `IntrusiveList.InsertBetween` | include/fuckOS/list.h:54-70 | two neighbours of a cycle get a new one between them |
| `Slub.MemCache.constructor` | kernel/mm/slab.c:59-85 | an empty cache satisfies the partition |
| `Slub.MemCache.SlabAlloc` | kernel/mm/slab.c:351-365 | NULL exactly when the cache has nothing and no block is offered; otherwise an object that was not live; a new slab exactly when the cache had nothing; the partition holds |
| `Slub.MemCache.AllocSlow` | kernel/mm/slab.c:304-348 | the same for the slow path, with every branch of its labels |
| `Slub.MemCache.Deactivate` | kernel/mm/slab.c:258-294 | called only with both freelists empty, so its asserts hold and a full slab leaves every list |
| `Slub.MemCache.NewSlabInit` | kernel/mm/slab.c:94-113 | the slots of a new slab form one NULL-ended chain and no other link word changes |
| `Slub.MemCache.Kfree` | kernel/mm/slab.c:460-471 | exactly that object stops being live; its slab is discarded exactly when it held no other live object and is no CPU's current page |
| `Slub.MemCache.FreeLocal` | kernel/mm/slab.c:404-419 | the object goes to the CPU's freelist |
| `Slub.MemCache.FreeRemote` | kernel/mm/slab.c:367-401 | the object goes to its page's freelist; the slab is listed as partial or discarded exactly when it should be |
| `Slub.PopKeeps` | kernel/mm/slab.c:351-365 | taking the head of a CPU's freelist keeps the partition |
| `Slub.LoadKeeps` | kernel/mm/slab.c:315-329 | moving a page's freelist to the CPU keeps the partition |
| `Slub.ReturnKeeps` | kernel/mm/slab.c:374-391 | returning an object to its page keeps the partition, `inuse` and the partial list exact |
| `Slub.FirstReturned` | kernel/mm/slab.c:385-387 | the assert: a slab whose page freelist was empty has all but one object in use |
| `Slub.DropKeeps` | kernel/mm/slab.c:243-256 | discarding a slab without live objects keeps the partition |
| `Slub.EmptyIffNoneLive` | kernel/mm/slab.c:382-401 | `inuse` is zero exactly when no object of an unfrozen slab is live |
| `Slub.LiveIsSlot` | kernel/mm/slab.c:296-302 | `get_slab` of a live object is its own slab |
| `SlabLayout.SlabIsBlock` | kernel/mm/slab.c:69-71 | the 4 MB of a slab are a block of its order |
| `SlabLayout.KfreeFindsSlab` | kernel/mm/slab.c:296-302 | rounding any slot's address down to 4 MB gives the first page of its slab |
| `SlabLayout.SlotsAreSeparate` | kernel/mm/slab.c:59-82 | slots do not overlap, and the link word lies outside the caller's bytes |
| `SlabLayout.Geometry` | kernel/mm/slab.c:64-71 | offset, size and number of slots fit the slab |
| `SlabLayout.SizeMapInit` | kernel/mm/slab.c:19-28 | every size is mapped to the smallest cache that holds it |
| `Freelists.PopThreaded` | kernel/mm/slab.c:351-365 | following one link removes exactly the first object of a threaded list |
| `Freelists.PushThreaded` | kernel/mm/slab.c:404-419 | one link word and one head put an object in front of a threaded list |
| `Kmalloc.Kmem.Kmalloc` | kernel/mm/slab.c:443-458 | NULL for sizes 0 and above 4096; otherwise the smallest cache that fits serves the request as `slab_alloc` does, and no other cache changes |
| `Kmalloc.Kmem.Kfree` | kernel/mm/slab.c:460-471 | the object stops being live in the cache it came from, found by `page->slab`, and in no other cache does anything change |
| `Kmalloc.Kmem.constructor` | kernel/mm/slab.c:87-92 | twelve empty caches and the size table |
| `Kmalloc.KfreeFindsCache` | kernel/mm/slab.c:460-471 | `page->slab` of a live object's slab is its own cache |
| `Kmalloc.LiveAreSeparate` | kernel/mm/slab.c:59-113 | live objects share no byte, whether of one slab, of two or of different caches |
| `Sched.RunKeeps` | kernel/sched.c:23-73 | over every safe run the invariant holds, `exit_notify` never follows a NULL parent, and the panic comes only when no task is left |
| `Sched.StepKeeps` | kernel/sched.c:63-73 | one trap keeps the invariant; the empty-queue panic comes exactly with the exit of the last task |
| `Sched.NoDeadlock` | kernel/sched.c:47-61 | while any task exists the run queue is not empty |
| `Sched.DeadlockFreedom` | kernel/sched.c:47-73 | every run from boot with fewer births than process numbers, in which execve finds clear memory, goes on until the last task has exited; at every boundary the invariant holds and a blocked task waits for a live child |
| `Sched.UnwrappedRun` | kernel/pidmap.c:56-79 | in every such run each birth is safe, whatever else happens |
| `Sched.SafeRoundRobin` | kernel/sched.c:35-73 | in every safe run a task at position i gets the CPU within 3*i ticks |
| `Sched.BirthForestIff` | kernel/syscall/fork.c:24-89 | a birth leaves the recorded parents without a cycle if and only if the new number is not the one that the topmost live ancestor of its parent still records |
| `Deadlock.CycleDeadlocks` | kernel/syscall/wait.c:5-23 | every state that satisfies the invariant except that the parents form a cycle has a continuation that ends in the empty-queue panic with tasks alive |
| `Deadlock.UnrootedForkDeadlocks` | kernel/syscall/fork.c:24-89 | so does every state of the invariant in which the next number would close a cycle, by a fork |
| `Deadlock.StaleSpawnRelinks` | kernel/task.c:164-211 | from every state of the invariant an execve into a record with `pwait` set has a continuation in which the new task's exit passes `list_add_tail` its parent, which is in the run queue |
| `Deadlock.ForbiddenBirthBreaks` | kernel/task.c:164-211 | every birth by execve that does not keep the invariant has a continuation that links a queued task again or panics with tasks alive |
| `Sched.ChainEndsInQueue` | kernel/syscall/wait.c:5-23 | every chain of waits visits no task twice and ends at a queued task |
| `Sched.NotifyFindsParent` | kernel/syscall/exit.c:33-49 | the parent of a waited-for task is live, blocked and not queued |
| `Sched.ScheduleUnflags` | kernel/sched.c:47-73 | after `schedule` the task that was running is not marked for another switch |
| `Sched.CountsAdd` | kernel/sched.c:35-73 | what the two counters of the bounds count: ticks, and forks or execves |
| `Sched.RoundRobinBound` | kernel/sched.c:35-73 | the same bound in every run before process numbers wrap around |
| `Sched.StepCloser` | kernel/sched.c:35-73 | no step moves a queued task away from the CPU, and every tick brings it closer |
| `Sched.WaitKeeps` | kernel/syscall/wait.c:5-23 | blocking on a child keeps the invariant |
| `Sched.ExitKeeps` | kernel/syscall/exit.c:13-31 | exit with or without a waiting parent keeps the invariant |
| `Sched.BirthKeepsIff` | kernel/task.c:164-211 | a task spawned by execve keeps the invariant if and only if its number closes no cycle of parents and its stale `pwait` is false |
| `SchedRuns.StaleWaitRelinksParent` | kernel/task.c:164-211 | a run from boot in which a task reuses the record of one that was waited for, and its exit passes `list_add_tail` a parent that is in the run queue |
| `SchedRuns.RelinkLosesTasks` | kernel/syscall/exit.c:33-49 | in that queue the parent is then the only task that can be reached, and the other runnable one is lost |
| `Sched.UnwrappedIsSafe` | kernel/pidmap.c:56-79 | before numbers wrap around every birth is safe |
| `SchedRuns.WrappedPidsDeadlock` | kernel/pidmap.c:56-79 | a run from boot in which numbers wrap around, two tasks wait for each other, and the scheduler panics with both alive |
| `SchedRuns.FailedForks` | kernel/syscall/fork.c:24-63 | forks that fail after `alloc_pidmap` use up numbers and change nothing else |
| `Sched.BootInv` | kernel/init/main.c:104 | the first task alone satisfies the invariant |
| `Kernel.Tasks.Trap` | kernel/trap/trap.c:173-189 | each trap is one step of the model, including its panics |
| `Kernel.Tasks.SafeTrap` | kernel/trap/trap.c:173-189 | from a state of the invariant it holds again, and the panic comes exactly with the last exit |
| `Kernel.Tasks.ScheduleTick` | kernel/sched.c:35-45 | the slice counts down; at zero it is refilled and its task goes to the tail |
| `Kernel.Tasks.DoSchedule` | kernel/sched.c:47-73 | the running task stays unless blocked or flagged, else the head of the queue runs; panic exactly on an empty queue |
| `Kernel.Tasks.DoWait` | kernel/syscall/wait.c:5-23 | 0 exactly for a child of the caller, -22 exactly out of range, else -35; with 0 the child is marked, the caller blocked and out of the queue |
| `Wrappers.WithoutCuts` | include/fuckOS/list.h:86-98 | `list_del` takes one entry out and leaves the others in their order |
| `Kernel.Tasks.Create` | kernel/syscall/fork.c:24-89 | a new task at the tail of the queue, or no change to tasks and queue, exactly when no number is found or a later allocation fails; what becomes of the record's memory in each case |
| `Kernel.Tasks.DoSpawn` | kernel/task.c:213-233 | a new task, or the assert of `task_create` exactly when no number is found |
| `Kernel.Tasks.Dispatch` | kernel/trap/trap.c:173-189 | each handler does its part of the step, and ends in the NULL parent or the assert exactly when the step does |
| `Kernel.Tasks.DoExit` | kernel/syscall/exit.c:13-49 | the exiting task leaves the queue and the pid map, and a waiting parent is queued |
| `Pidmap.PidmapStruct.Alloc` | kernel/pidmap.c:56-79 | the least unused number from the one behind the last up, with 0 behind 32767, or -1 exactly when there is none; the bitmap and the free count follow |
| `Pidmap.PidmapStruct.Free` | kernel/pidmap.c:81-89 | exactly that number becomes unused |
| `Pidmap.PidmapStruct.FindNextZeroBit` | kernel/pidmap.c:35-54 | the first clear bit from the offset, or the end |
| `Pidmap.NextPidFailsIff` | kernel/pidmap.c:56-79 | allocation fails if and only if all numbers from the one behind the last up to 32767 are in use, whatever is free below; otherwise it yields the least |
| `Pidmap.TwoPidsExhaustTheSearch` | kernel/pidmap.c:56-79 | an allocation that fails although all but two numbers are free |
| `SchedRuns.ThreeTasksExhaustPids` | kernel/pidmap.c:56-79 | a run from boot in which execve finds no number, and the assert of `task_create` stops the kernel, with three tasks alive |
| `Pidmap.NextPidAscends` | kernel/pidmap.c:56-79 | without wrap-around the new number is above every earlier one |
| `AddressSpace.Mm.FindVma` | kernel/mm/mm.c:117-142 | the lowest area that ends above the address, or none, and its node |
| `AddressSpace.Mm.FindVmaPrev` | kernel/mm/mm.c:145-168 | the node that the descent to the left of the address finds, on any linked tree |
| `AddressSpace.Mm.GetUnmapped` | kernel/mm/mm.c:170-184 | grants the address exactly when the one area that the search returns lies behind the request |
| `AddressSpace.GrantedIffFits` | kernel/mm/mm.c:170-184 | that one comparison decides for all areas, in a tree without a hidden one |
| `AddressSpace.Mm.VmLink` | kernel/mm/mm.c:209-241 | the area goes into the `vm_next` chain behind what `find_vma_prev` found, or to the front, and one tree link is written; the links spell out the tree with the area inserted if and only if the new node's child links were null |
| `AddressSpace.Mm.Thread` | kernel/mm/mm.c:218-225 | the two writes of `vm_next` and `mmap` put the new node into the chain |
| `AddressSpace.Mm.Brk` | kernel/syscall/brk.c:6-41 | a request below the break reports it; else the kernel panics exactly when the search for `start_brk` finds no area that starts there; else the heap grows exactly when it stays below the area that its `vm_next` leads to |
| `AddressSpace.LinkShapeIff` | kernel/rbtree.c:38-44 | the same for `rb_link_node`, which writes neither child link |
| `AddressSpace.ChildLinksSurvive` | kernel/mm/slab.c:367-419 | allocation and release write no byte of a node's child links, so they are what the last user of the slot left |
| `AddressSpace.Mm.CreateVma` | kernel/mm/mm.c:79-115 | succeeds exactly for granted requests with memory, with the rounded area inserted; the links spell it out if and only if the node's memory was null there |
| `AddressSpace.CreateKeepsIff` | kernel/mm/mm.c:79-115 | one call: areas stay disjoint if and only if the request does not wrap and no area straddles its start; lookup stays right if and only if no empty area ends where the new one does |
| `AddressSpace.BuiltSoundIff` | kernel/mm/mm.c:79-115 | after any sequence of calls the areas are disjoint and all found if and only if no granted call wrapped around or ended where an empty area lay |
| `AddressSpace.BuiltDecides` | kernel/mm/mm.c:79-142 | after any sequence of calls for at least one byte that stay below 4 GB, the search returns the lowest area above every address, and the fault handler's test is right |
| `AddressSpace.CreateAll` | kernel/mm/mm.c:79-115 | the linked nodes after any sequence of calls spell out the tree of those calls |
| `AddressSpace.WrappingRequest` | kernel/mm/mm.c:170-184 | a granted request that wraps around and gives an area ending below its start |
| `AddressSpace.StraddlingRequest` | kernel/mm/mm.c:103-108 | a granted request whose rounded area covers a heap with an unaligned break |
| `AddressSpace.HidingRequest` | kernel/mm/mm.c:79-115 | two granted requests of which the second is never found |
| `AddressSpace.GrantIsApartIff` | kernel/mm/mm.c:103-108 | rounding a granted request keeps the areas disjoint if and only if it does not wrap and no area straddles its start |
| `AddressSpace.WholeIsSafe` | kernel/mm/mm.c:79-115 | requests of non-zero length on page-aligned areas meet all those conditions except wrap-around |
| `VmaTree.FindLowest` | kernel/mm/mm.c:117-142 | the search returns the lowest area ending above the address |
| `VmaTree.DecidesIffNoneHidden` | kernel/trap/page_fault.c:40-43 | the fault handler's test decides membership for every address if and only if no area is hidden |
| `VmaTree.LinkDecidesIff` | kernel/mm/mm.c:227-238 | linking keeps that test right if and only if the new area is empty or no empty area ends where it does |
| `VmaTree.InsertHidesIff` | kernel/mm/mm.c:227-238 | which insertions hide an area |
| `VmaTree.EmptyAreaHidesItsNeighbour` | kernel/mm/mm.c:117-142 | a tree of two areas in which a mapped address is not found |
| `VmaTree.InsertSorted` | kernel/mm/mm.c:227-238 | insertion keeps the search order |
| `VmaTree.PrevIsRoot` | kernel/mm/mm.c:145-168 | in a search tree `find_vma_prev` returns the root or nothing |
| `VmaTree.GrowSoundIff` | kernel/syscall/brk.c:31-36 | an area that grows in place leaves the areas disjoint, in order and all found if and only if no area above it starts below its new end |
| `AreaChain.CeilingIs` | kernel/syscall/brk.c:29-31 | what `vm_next` of an area leads to, for every order of linking: the latest area linked before it behind the end of the first, if it lies behind that end itself; otherwise an area that starts no higher than that end |
| `AreaChain.LinkAll` | kernel/mm/mm.c:209-241 | the linked nodes after any sequence of areas spell out that tree and that chain |
| `AreaChain.LoadedHeapGrowsIff` | kernel/task.c:72-87 | after `load_icode` a break above the heap is below what the kernel takes for the next area if and only if it is below the stack and the first segment ends below the heap |
| `AreaChain.LoadedBrk` | kernel/syscall/brk.c:6-41 | so the break moves exactly then, and never if the heap starts where the first segment ends |
| `AreaChain.ForkedHeapIsStuck` | kernel/syscall/fork.c:144-190 | of a program of two adjacent segments the heap can grow up to the stack, and that of a child which it forks can never grow |
| `AreaChain.ExitEndsIff` | kernel/mm/mm.c:244-275 | for a program of two segments `delete_all_vma` ends if and only if the second begins where the first ends |
| `Brk.Break.Sbrk` | lib/brk.c:23-36 | the old break, or 0 exactly when there is no room; the break moved exactly when the sum does not wrap, and the heap's area with it |
| `Brk.WrappingSbrk` | lib/brk.c:23-36 | a request that wraps around: success is reported and the break has not moved |
| `Brk.Break.DoBrk` | lib/brk.c:7-21 | the break moves to the request, is reported, or 0 is returned, exactly as the kernel decides |
| `Brk.Break.SysBrk` | kernel/trap/syscall.c:223-228 | a request below the break reports it, one with room moves it and the end of the heap's area, any other gives 0; the heap's area is found each time |
| `Brk.GrowthIsSoundIff` | kernel/syscall/brk.c:29-36 | if `vm_next` of the heap leads to the lowest area above it, a break is granted if and only if the areas stay disjoint and all found |
| `Malloc.Heap.Malloc` | lib/malloc.c:28-49 | the whole list of chunks: extended by so many times 4 MB at its top, and of the result the last free chunk that is large enough given out, whole if less than 0x1000 bytes would be left, else cut with the rest free behind it; all chunks in use unmoved; NULL only if `sbrk` failed and no free chunk fits; a bounded number of extensions; the chunks tile the heap with no free neighbours; a chunk is made beyond the break if and only if no chunk fits and an extension that the request needs wraps around |
| `Malloc.Heap.Take` | lib/malloc.c:73-87 | the split at 0x1000 bytes, chunk by chunk, and the address behind the 16-byte header |
| `Malloc.Heap.RoomyIsSafe` | lib/malloc.c:28-49 | that cannot happen if the next area, or the request itself, leaves the room of one extension below 4 GB |
| `Malloc.Heap.Free` | lib/malloc.c:51-60 | exactly that chunk stops being in use and is merged with its free neighbours; the whole list is stated |
| `Malloc.Heap.Merger` | lib/malloc.c:89-110 | the chunk becomes one with its free neighbours, headers included; the list is merged again and the chunks in use stay |
| `Malloc.CoalesceKeeps` | lib/malloc.c:89-110 | merging with both neighbours restores tiling and merging and keeps the chunks in use |
| `Malloc.Heap.Extend` | lib/malloc.c:112-128 | the trailing free chunk grows by 4 MB or there is a new one, and the whole list is stated, or `sbrk` has no room; the chunks still tile the heap if and only if the break did not wrap around |
| `Malloc.Heap.Find` | lib/malloc.c:62-71 | the last free chunk that is large enough, or -1 exactly when there is none |
| `Malloc.CarveKeeps` | lib/malloc.c:73-87 | splitting a chunk keeps the tiling and adds exactly one chunk in use |
| `Malloc.AllFreedIsOneChunk` | lib/malloc.c:51-110 | when nothing is in use the list is one free chunk over the whole heap |
| `Malloc.LiveAreDisjoint` | lib/malloc.c:28-49 | chunks never overlap |
| `Tokenizer.Shell.GetToken` | user/sh.c:264-278 | the calls yield the tokens of the original line in order, a symbol as itself, a word as 'w' with its start, and then 0 for ever; every word handed out so far is NUL-terminated and intact in the buffer |
| `Tokenizer.Shell.constructor` | user/sh.c:270-273 | the first look-ahead is the first token |
| `Tokenizer.CutToken` | user/sh.c:218-262 | the token at a position, and which bytes of the buffer are zeroed for it |
| `Tokenizer.StreamWellCut` | user/sh.c:235-257 | every token is one of the seven symbols or a maximal run of characters that are neither those nor white space |
| `Tokenizer.StreamAscends` | user/sh.c:235-257 | tokens come in the order of the line without overlap |
| `Tokenizer.Covered` | user/sh.c:235-257 | every character that is not white space is in some token |
| `Tokenizer.EndStays` | user/sh.c:223-227 | after the end every further token is the end |
| `Tokenizer.HandOver` | user/sh.c:274-277 | the look-ahead's zeroing terminates the word handed out and harms no earlier one |
| `Tokenizer.Strchr` | lib/string.c:100-107 | the first occurrence of a character, if any |
| `Numbers.RoundTrip` | lib/string.c:203-248 | `strtol` reads all that `printnum` wrote, in bases 2 to 16 and any width, and returns the number if and only if it is below 2^31 |
| `Numbers.Console.Printnum` | lib/printfmt.c:30-44 | the digits of the number, padded on the left to the width |
| `Numbers.PrintedLength` | lib/printfmt.c:30-44 | the length is the larger of the width and the number of digits; the digits come last, all before them is the pad character |
| `Numbers.Strtol` | lib/string.c:203-248 | the argument is taken apart into blanks, sign, prefix, digits and rest as the grammar says; the result is the number they stand for, negative after '-', modulo 2^32 as a signed value, and the end is behind the digits |
| `Numbers.PartsGrammar` | lib/string.c:209-243 | what `strtol` skips and reads are the parts of the grammar: `0x` in base 16 or an open base, `0` for base 8 in an open base, else base ten |
| `Numbers.PartsUnique` | lib/string.c:209-243 | a string has such parts in one way only |
| `Numbers.ParsedIsNumber` | lib/string.c:241-247 | the result is the signed number of the parts, modulo 2^32 |
| `Numbers.SignedStep` | lib/string.c:241 | wrapping at every digit is wrapping once |
| `Numbers.NumeralValue` | lib/printfmt.c:30-44 | the value of a number's digits is the number; they are 0 to 9 and a to f, without leading zeros |

## Left out

- The arguments page that execve maps (kernel/syscall/execve.c), and file tables.
- The order of areas in the paging model: there an address space's areas are a sequence, and `copy_task` and `delete_all_vma` visit each once. The chain that they follow, and when deleting along it ends, is in AreaChain.
- AreaChain.ExitEndsIff: speaks of programs of two segments, with `delete_all_vma`, `vm_link_del` and `rbtree_delete` as functions on trees; a node with two children, which `rbtree_delete` links wrongly, is only named.
- `get_unmapped_vma` for address 0: `create_vma` never passes it on.
- Growth of the heap area by the kernel's `brk` in the paging model: areas there do not change after they are made.
- In the paging model each call of `kmalloc` has an answer that comes with the operation: none, or an object for which the caches take a number of frames. Which answer the caches give is the object allocator's model.
- The direct map, TLB flushes, `cr3`, and the kernel's own page-table entries.
- Zones other than one, high memory, and the boot-time allocator.
- More than one CPU in the scheduler (only one is started), and `sys_exit` on another process.
- Spin locks: a locked section is one step.
- Pipes, terminals, file systems, drivers, traps at instruction level.
- `strtol` with a negative base, and `printnum` with a base outside 2 to 16, where the code does not terminate or reads past its digit string.
- Kernel.Tasks.DoWait: treats a wait for process 0x8000 as a wait for no task, because the source reads one slot past `task_pidmap` there.
- Spawn.TaskCreate: is given segments that pass the condition of Program.MappedInsideIff and end below the scratch page; of the others it is shown which page exit leaves and what becomes of its frame (Spawn.StrandedPage, Teardown.ExitMm, Conservation.StrandedFrame).
- Spawn.LoadSegments: the same.
- Spawn.RegionAlloc: is given pages that are not mapped yet, as they are in a new address space.
- Zone.ZoneStruct.Free: is given blocks that were allocated with that order, as every caller does; the source does not check it.
