# Barium kernel: a Dafny model of its core

Barium is a small x86_64 kernel. This project models the five parts of it that
keep state and depend on each other, and proves what they promise over every
run:

* the **physical page allocator** (`src/kernel/pmm.c`): a byte-packed bitmap with
  next-fit search and a separate free counter, built from the UEFI memory map
  (section 7.2 of the UEFI Specification, GetMemoryMap);
* the **page tables** (`src/kernel/vmm.c`): four levels of tables in physical
  memory, laid out as in section 4.5 of the Intel SDM volume 3A, refining a map
  from page to frame and flags;
* the **heap** (`src/kernel/heap.c`): first fit, splitting and coalescing, with
  the headers in the pool itself;
* the **scheduler** (`src/kernel/sched.c`): 32 priority lists and a sleep list per
  CPU, aging, time slices, reaping, spawning and hand-off between CPUs;
* **ALPC** (`src/kernel/alpc.c`): the message ring of a port, and the shared
  sections that tie the page allocator to the page tables.

## How it is built

Each part has two layers. A layer of functions on values says what an operation
computes; the theorems, over every run, are about it. A class on top of it works
as the C code does, in place and with the same loops, and each of its methods is
proved to compute the function.

| file | modules | content |
|---|---|---|
| `Bitmap.dfy`, `Frames.dfy`, `PageAllocator.dfy` | `Bitmap`, `Frames`, `MemoryMap`, `PageAllocator` | the bitmap, next fit, the allocator |
| `Paging.dfy`, `AddressSpace.dfy` | `Paging`, `AddressSpace` | the walk and the tree of tables, `vmm_map` and `vmm_init` |
| `Races.dfy` | `Races` | calls of `vmm_map` that overlap, access by access |
| `Sections.dfy` | `SectionSpec`, `Sections` | shared sections |
| `Ring.dfy` | `Ring`, `Ports` | the message ring |
| `HeapSpec.dfy`, `Heap.dfy` | `HeapSpec`, `HeapLayout`, `HeapUse`, `Heap` | the block list, its layout in the pool, the allocator |
| `Sched.dfy`, `Aging.dfy`, `Order.dfy` | `CpuSched`, `Aging`, `Order` | the scheduler of one CPU: its lists, what becomes of each thread, and in which order they stand |
| `RunQueue.dfy` | `ListLinks`, `RunQueue` | the same, on linked lists |
| `Kernel.dfy`, `Boot.dfy` | `Kernel`, `Boot` | all CPUs and the heap as a step system, from power-on |
| `Placement.dfy` | `Placement` | where threads end up, in positions and numbers |
| `Theorems.dfy`, `Progress.dfy`, `Fairness.dfy` | the same names | what holds in every run |
| `Defects.dfy` | `Defects` | runs in which the scheduler loses something |

Three choices carry most of the proofs. The page tables are described by a map
from (level, prefix) to page, so that two tables cannot share a page and a walk
can be replaced by one lookup in the last level. The heap is shown to be in a
form that the set of live blocks determines completely, which gives the round
trip, the freeing in any order and the independence of history at once. A thread
belongs to a CPU by its fields, so that "in exactly one place" follows from
conditions on one thread at a time.

## Assumptions

* Critical sections are atomic, and some are merged into one step: the two or three
  `kmalloc` calls of a spawn or of `sched_init` with the section that gives out the
  tid; the up to three `kfree` calls of a reschedule with the rest of it and with the
  switch to the new stack. The model therefore does not show the window in which a
  CPU still stands on a stack it has freed (`src/kernel/sched.c:235-246`). A spawn and
  a hand-off are two steps each, with the thread in flight between them.
* `alpc_create_section` is two steps, the allocation and the entry in the table. The
  loop of `alpc_map_section` runs without a lock: taking the window is one step and
  each call of `vmm_map` is one more, and other threads take steps in between.
* `vmm_map` takes no lock either. `SectionSpec` has runs in which two calls of it do
  not overlap. `Races` has every interleaving of their single reads and writes, and
  says which pages an overlap costs.
* Boot is part of every run: `cpu_init` and `sched_init` of each CPU mix with whatever
  the CPUs that are up do, spawning and handing off included. A CPU runs `sched_init`
  once, while nothing is in its lists; `Defects.LateInitIff` shows that this is exactly
  when nothing is lost, and `Defects.LateInitReached` a run in which something is.
* The clock is an input. The wake-up loop and the aging pass of one reschedule may
  read different ticks, the first not above the second; the aging passes of one CPU
  read ticks that do not decrease. Nothing orders the ticks that different CPUs read.
  CPUs are named by their index, below 64.
* Idle threads never sleep, exit or get handed off. Allocation succeeds in spawn
  and inside `vmm_map`, which do not check; what `pmm_alloc(1)` needs to succeed is
  `Frames.SinglePageIff`.
* Numbers are unbounded; addresses, sizes and ticks are taken to stay below 2^64.
* `pmm_alloc` is called with `count <= total_pages`. The byte after the bitmap is
  whatever memory holds there; `Frames.OverrunIff` says when that matters.

## Findings

Each has its exact condition and, where it is not plain that it can be met, an input
that meets it.

* The second pass of `pmm_alloc` can return a run that leaves memory. The condition
  is `Frames.OverrunIff`; `Frames.OverrunHappens` gives three calls that do it in any
  memory that is free at its end, and `PageAllocator.OverrunAfterBoot` memory maps
  that boot into such a memory.
* When `total_pages` is not a multiple of 8, pages past the last whole byte of the
  bitmap keep their old bits, and `free_pages` may be wrong. The condition is
  `PageAllocator.CounterTrueIff`, the memory maps are in `PageAllocator.CounterWrong`.
* A section whose allocation failed claims the frames from 0 up. The condition is
  `SectionSpec.SharedFrameIff`, a run `SectionSpec.SharedFrameHappens`. Section id 0
  can be mapped (`Sections.Sections.Show`).
* Two calls of `vmm_map` that overlap can undo each other: a call that saw an entry
  absent links its own table there although another has been linked since. The pages
  mapped below the other table then translate to nothing, and a call that stands
  below it writes its entry where nobody looks. The conditions are
  `Races.MappedPageKeptIff` and `Races.CallKeptIff`, a run `Races.LateLinkHappens`.
* The test-mode page-fault remap sends an unmapped page to frame 0 and takes a
  mapped page away from user mode (`AddressSpace.AddressSpace.Remap`).
* `kfree` changes a word of a live block when it is given a pointer that is no payload
  and the word it takes for the flag lies in that block, has the magic number in its
  upper half and something else than 1 in its lower half. The condition is in
  `Heap.Heap.Free`, such a word in `HeapUse.ForgedWord`. A header left over from a
  merge is not such a word (`HeapUse.StaleHeader`), and the list always stays intact.
* A thread that dies at priority 0 is never freed. The condition is
  `Theorems.DeadThreadFreedIff`, a run from power-on `Defects.LeakReached`, and that it
  stays so `Progress.LeakedForever`.
* `sched_init` forgets the threads that were put on its CPU before it. The condition
  is `Defects.LateInitIff`, a run from power-on `Defects.LateInitReached`.

## Model

| member | source | states |
|---|---|---|
| Bitmap.Unpack | src/kernel/pmm.c:13-23 | page p is bit p % 8 of byte p / 8 |
| Bitmap.MaskIsShift | src/kernel/pmm.c:13-23 | the table of bit masks is 1 << k |
| Bitmap.OneBit | src/kernel/pmm.c:13-23 | setting or clearing a bit of a byte changes that bit and no other, for every byte and every pair of bits |
| Bitmap.SetBit | src/kernel/pmm.c:13-15 | bitmap_set marks exactly one page |
| Bitmap.ClearBit | src/kernel/pmm.c:17-19 | bitmap_clear frees exactly one page |
| Frames.FirstRun | src/kernel/pmm.c:92-112 | the naive search: the lowest start in a range of a run of free pages, or none exists |
| Frames.NextFitComplete | src/kernel/pmm.c:88-138 | a run is found exactly when one starts at an index one of the two passes covers |
| Frames.NextFitIs | src/kernel/pmm.c:91-131 | which run: the lowest from the hint up that starts before total_pages - count, and only if there is none the lowest below the hint |
| Frames.OverrunIff | src/kernel/pmm.c:114-134 | the run found stays inside memory exactly when some covered run does |
| Frames.OverrunHappens | src/kernel/pmm.c:114-134 | in every memory free from page lo up with a clear bit after it: an allocation and its release keep everything sound, then a request for one page more than there are is granted and the counter is wrong |
| Frames.AllocSoundIff | src/kernel/pmm.c:88-138 | a successful allocation keeps the counter true exactly when some covered run lies inside memory; the pages were all free, and are then inside memory and exclude page 0 |
| Frames.GuardedContained | src/kernel/pmm.c:88-138 | that is so for a single page, and for any number when the bit after the last page is set |
| Frames.AllocSound | src/kernel/pmm.c:88-138 | an allocation that fails, or for which such a run exists, keeps the allocator sound |
| Frames.ReleaseSound | src/kernel/pmm.c:140-150 | freeing used pages keeps the counter true |
| Frames.SinglePageIff | src/kernel/pmm.c:88-138 | a single page is found exactly when a page is free that is not the last one, or the last one is free and the hint is at the end: the first pass never tries the last page |
| Frames.SinglePageSucceeds | src/kernel/pmm.c:88-138 | pmm_alloc(1) succeeds whenever at least two pages are free |
| Frames.TakeThenGive | src/kernel/pmm.c:88-150 | freeing a run just allocated restores bitmap and counter; only the search hint has moved |
| Frames.MovesOn | src/kernel/pmm.c:91-110 | the next allocation starts behind the last, even one that has been given back, at the lowest place there is |
| Frames.HeldRunsDisjoint | src/kernel/pmm.c:88-150 | over every run of valid frees and of allocations that do not leave memory: held runs are disjoint, none holds page 0 or a page in use at the start, every other used page is held, and the counter is the number of free pages |
| MemoryMap.FreeSetMember | src/kernel/pmm.c:61-71 | the pages released are those some conventional descriptor describes |
| MemoryMap.MemoryEndBounds | src/kernel/pmm.c:30-38 | every conventional page lies below total_pages |
| MemoryMap.MemoryEndReached | src/kernel/pmm.c:30-38 | some conventional descriptor ends where memory ends, or memory is empty |
| MemoryMap.DescribedOnceIff | src/kernel/pmm.c:61-71 | the pages counted are the pages freed exactly when no two conventional descriptors overlap |
| PageAllocator.FindMemoryEnd | src/kernel/pmm.c:26-38 | the highest end of a conventional descriptor: none ends above it and one ends there, or it is 0 |
| PageAllocator.ChooseHome | src/kernel/pmm.c:41-50 | the first descriptor of type 7 at or above 0x1000000 whose pages have room for the bitmap, none only if there is none |
| PageAllocator.HomeFits | src/kernel/pmm.c:73-78 | the bitmap's own pages are conventional, inside memory and not low |
| PageAllocator.HomeCovers | src/kernel/pmm.c:74 | the pages set aside are enough for the bitmap and not one more |
| PageAllocator.BitmapCoveredIff | src/kernel/pmm.c:73-78 | every byte of the bitmap lies on a page set aside for it exactly when it does not reach past them; from a page-aligned address it never does |
| PageAllocator.BitmapNeverHandedOut | src/kernel/pmm.c:73-138 | over every run of allocations and valid frees after pmm_init no page under the bitmap is handed out, and each stays in use |
| PageAllocator.CounterTrueIff | src/kernel/pmm.c:39-86 | after pmm_init the counter is the number of clear bits exactly when as many pages are described twice as read as free by accident past the last whole byte; without overlaps, exactly when none does |
| PageAllocator.CounterWrong | src/kernel/pmm.c:39-71 | memory maps, with a hole after the last whole byte, on which the counter is wrong when the unwritten bit reads as zero |
| PageAllocator.InitSound | src/kernel/pmm.c:57-86 | with total_pages a multiple of 8 the allocator starts sound exactly when no two conventional descriptors overlap |
| PageAllocator.OverrunAfterBoot | src/kernel/pmm.c:57-134 | memory maps from which pmm_init leads to such an overrun when the bit after the last page reads as zero |
| PageAllocator.PageAllocator.Search | src/kernel/pmm.c:92-100 | the pass that skips ahead on a used page finds the same run as the naive search |
| PageAllocator.PageAllocator.SetPage | src/kernel/pmm.c:13-15 | in place: exactly one page becomes used |
| PageAllocator.PageAllocator.ClearPage | src/kernel/pmm.c:17-19 | in place: exactly one page becomes free |
| PageAllocator.PageAllocator.SetRun | src/kernel/pmm.c:103-105 | in place: exactly the pages of the run become used |
| PageAllocator.PageAllocator.Fill | src/kernel/pmm.c:57 | every page with a bit in the filled bytes becomes used, the others keep theirs |
| PageAllocator.PageAllocator.Alloc | src/kernel/pmm.c:88-138 | in place: next fit, marking, counter and hint as the function says; address 0 when no run is found |
| PageAllocator.PageAllocator.Free | src/kernel/pmm.c:140-150 | in place: clears the pages and counts each |
| PageAllocator.PageAllocator.ReleaseConventional | src/kernel/pmm.c:61-71 | exactly the conventional pages are cleared, and each is counted in free_pages and usable_pages as often as it is described |
| PageAllocator.PageAllocator.ReserveLow | src/kernel/pmm.c:80-85 | pages below 16 MiB are taken back and only the free ones uncounted |
| PageAllocator.PageAllocator.Populate | src/kernel/pmm.c:57-85 | the whole filling of the bitmap: which pages are free afterwards, and that free_pages counts them |
| PageAllocator.PageAllocator.Init | src/kernel/pmm.c:25-86 | the first suitable descriptor holds the bitmap, or nothing but total_pages changes; afterwards a page is free iff it is conventional (or past the last whole byte and was free), at or above 16 MiB and not set aside for the bitmap, and the page under each byte of the bitmap is in use; free_pages counts the free ones, and a page described twice once more; usable_pages counts all that is described |
| Paging.IndexOfAddress | src/kernel/vmm.c:48-51 | the four shifts and masks are the base-512 digits of the page number |
| Paging.GetPhysIsTranslate | src/kernel/vmm.c:78-95 | vmm_get_phys agrees with the walk, 0 standing both for "not mapped" and for frame 0 |
| Paging.TranslateIsLeaf | src/kernel/vmm.c:78-95 | on a tree of tables the four-level walk gives what the last-level table of the page says |
| Paging.GrowTree | src/kernel/vmm.c:53-57 | hanging a fresh cleared page under an absent entry keeps the tables a tree of distinct pages and changes no translation |
| Paging.WriteLeaf | src/kernel/vmm.c:74 | writing a last-level entry changes the translation of that page and no other |
| Paging.AllowedIsLeaf | src/kernel/vmm.c:56-74 | user mode may reach a page, and a store may change it, exactly when the page is mapped and its own entry has the flag: the tables above take nothing away |
| AddressSpace.AddressSpace.Descend | src/kernel/vmm.c:53-58 | the table below an entry, allocated from a free page when absent; every translation kept |
| AddressSpace.AddressSpace.LastTable | src/kernel/vmm.c:53-72 | three such steps end at the page's last-level table, using one free page per missing table; every translation kept |
| AddressSpace.AddressSpace.Install | src/kernel/vmm.c:53-74 | tables and entry together change one translation |
| AddressSpace.MakeEntry | src/kernel/vmm.c:74 | the entry holds the frame of the address and the flags |
| AddressSpace.AddressSpace.Map | src/kernel/vmm.c:47-76 | the page maps to the given frame and flags, every other page keeps its own, tables stay a tree of distinct used pages, new tables sit on pages that were free, memory outside the tables is untouched |
| AddressSpace.AddressSpace.Access | src/kernel/vmm.c:47-76 | the same of the tables in memory: access is what the flags given to vmm_map say |
| AddressSpace.AddressSpace.MapAt | src/kernel/alpc.c:142 | one turn of a mapping loop: page first + j shows frame target + j and nothing else changes |
| AddressSpace.AddressSpace.MapRun | src/kernel/alpc.c:141-143 | n consecutive pages show n consecutive frames and nothing else changes |
| AddressSpace.GrewTransitive | src/kernel/vmm.c:47-76 | the promises about pages and tables add up over any sequence of vmm_map calls |
| AddressSpace.Budget | src/kernel/vmm.c:53-71 | making a page's tables present lowers the number of tables still missing by exactly the tables made |
| AddressSpace.AddressSpace.MapDescriptor | src/kernel/vmm.c:21-35 | a descriptor's pages except address 0 are mapped to themselves with the flags of its type; BootMapIs has them in numbers |
| AddressSpace.AddressSpace.PlantRoot | src/kernel/vmm.c:13-14 | a cleared root table on a page that was free maps nothing |
| AddressSpace.AddressSpace.Init | src/kernel/vmm.c:12-45 | the tables stand for the map built from the descriptors in order and the framebuffer |
| AddressSpace.BootMapIs | src/kernel/vmm.c:19-35 | the last descriptor that covers a page, address 0 apart, decides: the page goes to itself, with flags 7 for types 1, 2, 3, 4 and 7 and flags 31 for all others; pages of no descriptor are not mapped |
| AddressSpace.InitialMapIs | src/kernel/vmm.c:19-42 | after vmm_init a framebuffer page goes to itself with flags 31, and every other page is as the descriptors say |
| AddressSpace.AddressSpace.Remap | src/kernel/idt.c:86-92 | every page keeps its frame iff the faulting page was mapped; that page ends without the user bit, and an unmapped one goes to frame 0 |
| Races.Relink | src/kernel/vmm.c:53-57 | linking a cleared page over any entry keeps the tables a tree of distinct pages; exactly the pages below that entry lose their translation |
| Races.Settled | src/kernel/vmm.c:47-76 | a tree of tables in use with no call under way meets the invariant |
| Races.RacesKeep | src/kernel/vmm.c:47-76 | over every interleaving of the accesses of any number of calls the tables stay a tree of distinct used pages, and each call is at a table of the tree or at one that has been replaced |
| Races.StepView | src/kernel/vmm.c:53-74 | one access maps its page, takes the pages below a table it replaces away, or changes no translation |
| Races.MappedPageKeptIff | src/kernel/vmm.c:47-76 | over every interleaving a mapped page that is not mapped anew keeps its translation exactly when no call links over a table on its path; otherwise it translates to nothing |
| Races.CutOffIff | src/kernel/vmm.c:53-72 | a call under way is still in the tree after an access exactly when it was and the access does not replace a table it has passed |
| Races.CallKeptIff | src/kernel/vmm.c:53-74 | over every interleaving a call under way is still in the tree, so that it will map its page, exactly when no other call has linked over a table it has passed |
| Races.CallAlone | src/kernel/vmm.c:47-76 | a call that nobody overlaps maps its page, whatever other calls are halfway through |
| Races.LateLinkHappens | src/kernel/vmm.c:53-57 | from every tree with an absent root entry: one call sees it absent, another maps a page below it, the first links its own table, and the page translates to nothing |
| SectionSpec.ReserveKeeps | src/kernel/alpc.c:110-112 | taking pages for a section that has no slot yet keeps the invariant: frames of different owners are disjoint, in use and apart from page tables, and shown pages go to their frames |
| SectionSpec.FileKeeps | src/kernel/alpc.c:114-127 | so does the entry in the table, or losing the pages when it is full |
| SectionSpec.OpenKeeps | src/kernel/alpc.c:131-138 | so does taking a window |
| SectionSpec.ShowKeeps | src/kernel/alpc.c:141-143 | so does mapping the next page of any window that is open |
| SectionSpec.ElsewhereKeeps | src/kernel/pmm.c:88-150 | so does any other use of the page allocator that gives back no page of a section or table |
| SectionSpec.StepKeeps | src/kernel/alpc.c:110-149 | so does every step, and windows that exist stay and lose no page |
| SectionSpec.RunKeeps | src/kernel/alpc.c:110-149 | the invariant holds after every interleaving of halves of creations, openings and single mapped pages, and no window goes or shrinks |
| SectionSpec.WindowsStable | src/kernel/alpc.c:130-149 | in every such run, whatever other threads create and map meanwhile, a mapped page j of a window keeps going to frame j of its section |
| SectionSpec.SectionsIsolated | src/kernel/alpc.c:110-149 | in every such run windows of different calls are disjoint, windows of one section alias page by page as far as both are mapped, and no frame has two owners |
| SectionSpec.SharedFrameIff | src/kernel/alpc.c:110-128 | two sections share a frame exactly when one of them got no pages and is long enough to reach the other |
| SectionSpec.SharedFrameHappens | src/kernel/alpc.c:110-128 | from any search hint: a run of two creations after which both sections cover the same frame |
| SectionSpec.TakenAside | src/kernel/heap.c:17 | pages handed out for the heap are no page tables and belong to no section |
| SectionSpec.AsideForever | src/kernel/heap.c:17 | in every run they stay so as long as they are not given back |
| Sections.Sections.Reserve | src/kernel/alpc.c:110-112 | in place: next-fit pages for the caller, address 0 when there are none |
| Sections.Sections.Enter | src/kernel/alpc.c:114-127 | in place: the first free slot and the next id; 0 and lost pages exactly when the table is full |
| Sections.Sections.Create | src/kernel/alpc.c:110-128 | in place: the two halves, one after the other |
| Sections.Sections.constructor | src/kernel/alpc.c:12-21 | the table starts empty, with the first id and address |
| Sections.Sections.Find | src/kernel/alpc.c:132-133 | the first slot with the id, none only if there is none |
| Sections.Sections.File | src/kernel/alpc.c:115-127 | the first free slot gets the next id, the address, the size and the owner; a full table is left alone |
| Sections.Sections.Open | src/kernel/alpc.c:134-138 | in place: a window at the next address, with no page mapped |
| Sections.Sections.ShowPage | src/kernel/alpc.c:142 | in place: the next page of a window goes to the next frame of its section |
| Sections.Sections.ShowAll | src/kernel/alpc.c:141-143 | the loop, as a run of such steps, maps all pages of the window |
| Sections.Sections.Expose | src/kernel/alpc.c:134-144 | opening and loop together are a run that ends with the whole window mapped |
| Sections.Sections.Show | src/kernel/alpc.c:130-149 | 0 exactly when no slot has the id; otherwise a window at the next address, reached by a run of steps; id 0 yields an address with nothing behind it |
| Ring.PutContents | src/kernel/alpc.c:71-78 | a message is refused exactly when queue_size - 1 messages wait, and is otherwise appended |
| Ring.TakeContents | src/kernel/alpc.c:96-103 | the oldest message is taken, across wrap-around |
| Ring.FirstInFirstOut | src/kernel/alpc.c:61-108 | over every interleaving the messages accepted are those received, in order, followed by those waiting |
| Ports.Port.constructor | src/kernel/alpc.c:23-32 | a new port is empty and its owner is the server |
| Ports.Port.Send | src/kernel/alpc.c:61-87 | in place: stamps sender and receiver, -1 exactly when full |
| Ports.Port.Receive | src/kernel/alpc.c:89-108 | in place: the oldest message, -1 exactly when empty |
| HeapSpec.FirstFit | src/kernel/heap.c:32-33 | the first block that is free and large enough |
| HeapSpec.SweepFacts | src/kernel/heap.c:70-78 | from any tiling the sweep moves no live block and leaves no two free neighbours |
| HeapSpec.FreeCanonical | src/kernel/heap.c:57-81 | kfree keeps the canonical form and ends exactly one block's life |
| HeapSpec.MallocCanonical | src/kernel/heap.c:25-55 | kmalloc keeps the canonical form; the new block is aligned, inside the pool, apart from every live block and at most 47 bytes too large |
| HeapSpec.CanonicalUnique | src/kernel/heap.c:16-81 | the live blocks determine the whole list |
| HeapSpec.MallocThenFree | src/kernel/heap.c:25-81 | kmalloc and kfree of the result restore the exact list |
| HeapSpec.MallocComplete | src/kernel/heap.c:32-54 | null exactly when no maximal gap between live blocks fits; otherwise the lowest gap that does |
| HeapSpec.MallocExact | src/kernel/heap.c:30-44 | to the byte: the lowest gap with room for 24 bytes and the size rounded up to 8 is taken; all of it, unless more than 40 bytes would be left, and then just the rounded size |
| HeapSpec.AlwaysCanonical | src/kernel/heap.c:16-81 | canonical form after every run of kmalloc and kfree |
| HeapSpec.HistoryIndependent | src/kernel/heap.c:16-81 | two histories that leave the same blocks live leave the same heap |
| HeapSpec.FreeAll | src/kernel/heap.c:57-81 | freeing all live blocks in any order restores the initial block |
| HeapLayout.StoreSplit | src/kernel/heap.c:34-44 | writing the two headers of a split leaves all other headers intact |
| HeapLayout.StoreMerge | src/kernel/heap.c:72-76 | merging rewrites size and successor of one header and leaves the rest intact |
| HeapUse.PayloadStore | src/kernel/heap.c:45 | a store into a live payload cannot damage the list |
| HeapUse.KeptSplit | src/kernel/heap.c:34-44 | the headers written by a split lie in no live payload |
| HeapUse.KeptMerge | src/kernel/heap.c:72-76 | merging writes into no live payload and ends no block's life |
| HeapUse.StrayFlag | src/kernel/heap.c:61-68 | kfree of a pointer that is no payload cannot damage the list: no size or address can be taken for the magic number |
| HeapUse.StaleHeader | src/kernel/heap.c:68-76 | the header of a block that was merged away still says free, so a second kfree through it stores what is there |
| HeapUse.KeptIff | src/kernel/heap.c:68 | a store keeps all live payloads exactly when it changes nothing or hits none of them |
| HeapUse.ForgedWord | src/kernel/heap.c:61-68 | a word written by a caller that kfree of a pointer next to it damages |
| HeapUse.FreeAgain | src/kernel/heap.c:57-81 | freeing a block that is free already changes nothing |
| Heap.Heap.constructor | src/kernel/heap.c:16-23 | the pool starts as one free block of 1024 pages less 24 bytes, with the magic number in its header |
| Heap.Heap.Claim | src/kernel/heap.c:33-44 | in place: the block is split or handed out whole; no live payload changes |
| Heap.Heap.Malloc | src/kernel/heap.c:25-55 | in place: first fit and split as the list says, 0 on failure; no word of a live payload changes |
| Heap.Heap.Coalesce | src/kernel/heap.c:70-78 | in place: the loop terminates and computes the sweep; no word of a live payload changes, and none at all when there is nothing to merge |
| Heap.Heap.Absorb | src/kernel/heap.c:72-76 | in place: one merge |
| Heap.Heap.Free | src/kernel/heap.c:57-81 | in place, for null and every aligned pointer into the pool: the list changes exactly when the pointer is a live payload, and then the other live payloads keep every word; for a pointer that is no payload they do exactly when the word read as flag lacks the magic number, says free already or lies in none of them |
| CpuSched.Top | src/kernel/sched.c:210-211 | the highest list that is not empty |
| CpuSched.WakeInv | src/kernel/sched.c:189-205 | waking keeps every thread of the CPU in the one list its state asks for |
| CpuSched.AgeFromInv | src/kernel/sched.c:151-177 | so does an aging pass |
| CpuSched.SwitchInv | src/kernel/sched.c:216-242 | so does a switch; only a dead thread of priority above 0 leaves |
| CpuSched.SettleInv | src/kernel/sched.c:189-208 | waking, charging and aging keep it together, and touch no thread of another CPU |
| CpuSched.ChooseInv | src/kernel/sched.c:210-254 | so does the choice |
| CpuSched.ArriveInv | src/kernel/sched.c:94-97 | so does inserting a ready thread at the head of its list |
| CpuSched.DepartInv | src/kernel/sched.c:393-405 | so does taking a ready thread out of its list |
| CpuSched.Dominance | src/kernel/sched.c:210-254 | after the choice no ready thread has a higher priority than the running one |
| CpuSched.SwitchesAway | src/kernel/sched.c:212-247 | a sleeping or dead thread loses the CPU when anything is ready |
| CpuSched.KeepsCpuIff | src/kernel/sched.c:210-214 | the running thread keeps the CPU exactly when it is RUNNING and, against every list that is not empty, above it or level with it with ticks left |
| CpuSched.ChooseIs | src/kernel/sched.c:210-242 | the head of the highest list runs otherwise; a RUNNING thread goes to the tail of its list, a sleeping one to the head of the sleep list, and all others keep their order |
| CpuSched.BlocksInOrder | src/kernel/sched.c:234-236 | user stack, stack and then the structure are freed, in this order |
| Aging.WakeEffect | src/kernel/sched.c:192-205 | exactly the due sleepers become ready |
| Aging.AgePassEffect | src/kernel/sched.c:156-176 | one pass ages every ready thread once and promotes it at most one level; a promoted thread is visited again one level up |
| Aging.AgingBound | src/kernel/sched.c:151-177 | a waiting thread at priority p < 31 with counter t is at priority 31 after n passes iff n >= 19 * (31 - p) + 1 - t, and its counter stays at most 19 |
| Aging.SettleEffect | src/kernel/sched.c:189-208 | what waking, charging and aging together make of each thread |
| Aging.LeftAlone | src/kernel/sched.c:189-254 | a reschedule leaves a thread off the CPU alone that is dead or asleep until later |
| Aging.ChooseEffect | src/kernel/sched.c:210-254 | what the choice makes of each thread: it starts, is parked with a slice of 2 * (32 - priority) ticks, or is left alone |
| Order.WakeLists | src/kernel/sched.c:190-205 | waking keeps the sleepers that are not due in order and puts those that are at the head of the list of their priority, the last first |
| Order.AgeFromLists | src/kernel/sched.c:156-176 | an aging pass leaves in each list, in order, those that stay, and puts at its head those that come up from the list below, the last first |
| Order.SettleLists | src/kernel/sched.c:189-208 | both together, told from the lists before the reschedule |
| ListLinks.LinkRemove | src/kernel/sched.c:395-396 | bypassing a member keeps every list of the CPU properly linked |
| ListLinks.LinkAppend | src/kernel/sched.c:222-229 | so does appending at the tail |
| RunQueue.RunQueue.constructor | src/kernel/sched.c:31-51 | a CPU starts with its idle thread running and empty lists |
| RunQueue.RunQueue.WakeHere | src/kernel/sched.c:194-200 | one sleeper moves to the head of its ready list, on linked lists |
| RunQueue.RunQueue.PromoteHere | src/kernel/sched.c:163-171 | one thread moves up a level, on linked lists |
| RunQueue.RunQueue.Append | src/kernel/sched.c:222-229 | the walk to the last link appends at the tail |
| RunQueue.RunQueue.ParkCurrent | src/kernel/sched.c:219-237 | where the thread that loses the CPU goes, and what is freed |
| RunQueue.RunQueue.ChooseNext | src/kernel/sched.c:210-254 | the search from the top list computes the choice |
| RunQueue.RunQueue.WakeSleepers | src/kernel/sched.c:189-205 | the linked-list loop computes the waking function |
| RunQueue.RunQueue.AgeOne | src/kernel/sched.c:159-174 | one turn of the aging loop: aging what is left of the list gives what it gave before the turn, and one thread less is left |
| RunQueue.RunQueue.AgeList | src/kernel/sched.c:157-175 | the linked-list loop over one list computes the aging of that list |
| RunQueue.RunQueue.AgeThreads | src/kernel/sched.c:151-177 | a pass over lists 0 to 30, at most every 20 ticks |
| RunQueue.RunQueue.SwitchTo | src/kernel/sched.c:216-242 | the switch on linked lists, with the addresses given to kfree |
| RunQueue.RunQueue.Reschedule | src/kernel/sched.c:179-255 | the whole of sched_reschedule on linked lists, and the stack pointer it returns |
| RunQueue.RunQueue.SleepCurrent | src/kernel/sched.c:271-280 | the running thread is marked sleeping until its tick |
| RunQueue.RunQueue.ExitCurrent | src/kernel/sched.c:257-265 | the running thread is marked dead |
| RunQueue.RunQueue.Insert | src/kernel/sched.c:94-97 | a new or handed-off thread goes to the head of its list |
| RunQueue.RunQueue.Admit | src/kernel/sched.c:84-97 | on linked lists: a new thread is filled in, with priority at most 31 and a full slice, and goes to the head of its list |
| RunQueue.RunQueue.Adopt | src/kernel/sched.c:410-415 | on linked lists: a handed-off thread gets priority 31 and this CPU and goes to the head of list 31 |
| RunQueue.RunQueue.Detach | src/kernel/sched.c:388-405 | the ready thread with the tid is unlinked; 0 exactly when there is none on this CPU |
| RunQueue.RunQueue.Knows | src/kernel/sched.c:293-319 | whether this CPU runs or lists the tid |
| Kernel.ReschedStep | src/kernel/sched.c:179-255 | a reschedule keeps the invariant of all CPUs |
| Kernel.LandStep | src/kernel/sched.c:410-415 | so does putting a thread in flight at the head of a list; SpawnEndIs and PutIs say which |
| Kernel.TakeStep | src/kernel/sched.c:387-407 | so does the first half of a hand-off |
| Kernel.SpawnStep | src/kernel/sched.c:56-92 | so does the first half of a spawn |
| Kernel.SpawnMem | src/kernel/sched.c:103-140 | a new thread's structure and stacks are fresh heap blocks |
| Kernel.ReschedMem | src/kernel/sched.c:233-237 | a reschedule that drops a thread drops a dead one of priority above 0, and frees each of its blocks once and no other |
| Kernel.CpuInitStep | src/kernel/smp.c:17 | so does cpu_init, which adds a CPU that is not up |
| Kernel.StartStep | src/kernel/sched.c:23-54 | sched_init on a CPU with empty lists keeps the invariants of lists and memory, and its idle thread runs |
| Kernel.NextInv | src/kernel/sched.c:23-420 | every step keeps the invariant of the lists and of the memory |
| Kernel.AlwaysInv | src/kernel/sched.c:23-420 | the invariant holds after every interleaving on any number of CPUs, up or not |
| Boot.IdleResched | src/kernel/sched.c:179-255 | a reschedule of a CPU that has only its idle thread changes its saved stack pointer, slice and aging clock and nothing else |
| Boot.FromPowerOn | src/kernel/smp.c:16-30 | from power-on the invariant holds in every run, in whatever order CPUs come up and whatever those that are up do meanwhile |
| Placement.FlightRun | src/kernel/sched.c:77-94 | through any run that does not end its flight a thread between the halves of a spawn or hand-off is written by nobody |
| Placement.SpawnBeginIs | src/kernel/sched.c:56-92 | the first half of a spawn: blocks of at least 104 and 8192 bytes that no thread had, the next tid, the priority cut to 31, 2 * (32 - priority) ticks, the CPU whose turn it is, a stack pointer 176 bytes below the top |
| Placement.SpawnEndIs | src/kernel/sched.c:94-97 | the second half: the head of the list of its priority on its CPU, and nothing else changes |
| Placement.SpawnGoesTo | src/kernel/sched.c:56-149 | both, with any run in between, for kernel and user threads |
| Placement.RoundRobin | src/kernel/sched.c:77-81 | over every run without cpu_init the next CPU has moved on by the number of spawns modulo the number of CPUs, and tids by one for each thread made |
| Placement.TakeIs | src/kernel/sched.c:393-399 | the first half of a hand-off takes the thread out of its list, whose order stays, and changes nothing else |
| Placement.PutIs | src/kernel/sched.c:410-415 | the second half: priority 31 and the caller's CPU, at the head of its list 31, and nothing else changes |
| Placement.HandoffGoesTo | src/kernel/sched.c:380-415 | both, with any run in between |
| Placement.StartIs | src/kernel/sched.c:23-54 | sched_init: a new thread of priority 0 runs, and the 32 lists and the sleep list are empty |
| Placement.KeepsRunningIff | src/kernel/sched.c:207-214 | for every reschedule: the running thread keeps the CPU exactly when it is RUNNING and, against every list as waking and aging leave it, above it or level with it and not on its last tick |
| Placement.ReschedIs | src/kernel/sched.c:186-254 | for every reschedule: who runs, and who stands where in every list afterwards, told from the state before |
| Placement.ReschedAlone | src/kernel/sched.c:186-254 | with nothing waiting the running thread goes on, and is RUNNING |
| Placement.ReschedRecord | src/kernel/sched.c:186-254 | for every reschedule: every field of every thread of the CPU |
| Theorems.AtMostOnePlace | src/kernel/sched.c:189-250 | no thread is in two places or twice in one list |
| Theorems.ExactlyOnePlace | src/kernel/sched.c:23-415 | in every run from power-on each live thread is in exactly one place, and one that fits its state and priority |
| Theorems.AliveIff | src/kernel/sched.c:287-325 | with nothing in flight sched_is_alive finds exactly the threads not dead or still on their CPU |
| Theorems.RescheduleGuarantees | src/kernel/sched.c:186-255 | after every reschedule in every reachable state: a RUNNING thread, priority dominance, and a sleeping or dead thread has lost the CPU |
| Theorems.DeadThreadFreedIff | src/kernel/sched.c:233-237 | a dead thread is freed by the next reschedule exactly when its priority is not 0 |
| Theorems.SleepTakesEffect | src/kernel/sched.c:271-280 | sched_sleep and the next reschedule put the caller to sleep until its tick |
| Theorems.ExitTakesEffect | src/kernel/sched.c:257-265 | sched_exit and the next reschedule take the caller off the CPU, and out of memory exactly when its priority is not 0 |
| Theorems.NeverEarly | src/kernel/sched.c:192-205 | a sleeper stays asleep and runs nowhere through any run in which its own CPU reschedules only before its wake-up tick |
| Progress.ResumesWhereItStopped | src/kernel/sched.c:186-254 | in every run the stack pointer a thread resumes with is the one of its last reschedule or its spawn frame |
| Progress.NoStarvation | src/kernel/sched.c:151-177 | in every run through which a thread (tid not 1) waits on one CPU, it ends at priority 31 exactly when that CPU has made 19 * (31 - p) + 1 - t aging passes (p < 31) |
| Progress.PriorityNeverFalls | src/kernel/sched.c:168 | in no run does a thread's priority fall |
| Progress.NoDanglingThread | src/kernel/sched.c:233-237 | in every run from power-on whatever is running, listed or in flight owns live heap blocks that no other thread owns |
| Progress.LeakedForever | src/kernel/sched.c:233 | a thread that died at priority 0 keeps its memory for ever |
| Progress.DeadAtZeroLeaks | src/kernel/sched.c:233 | a thread dead at priority 0 leaks with the next reschedule |
| Defects.LeakReached | src/kernel/sched.c:233 | from power-on: one CPU comes up, a thread is spawned at priority 0, runs, exits and leaks |
| Defects.LateInitIff | src/kernel/sched.c:47-51 | in every reachable state sched_init loses no thread exactly when the lists of its CPU are empty |
| Defects.LateInitReached | src/kernel/sched.c:47-51 | from power-on: a thread spawned on a CPU that has run cpu_init but not sched_init is in no list afterwards |
| Fairness.TurnCloser | src/kernel/sched.c:207-247 | a reschedule that inserts nothing into list 31 runs a thread of that list or brings its turn nearer by at least one |
| Fairness.BoundedWaiting | src/kernel/sched.c:207-229 | in every run without insertions at the head of list 31, a thread of that list that is not handed off runs after at most R plus the sum of max(r_i, 1) reschedules, over the remaining slices r_i of the threads ahead; R is max(r, 1) when a list-31 thread is running and 1 otherwise |
| Fairness.SliceKept | src/kernel/sched.c:207-214 | in every run in which it neither sleeps nor exits and meets no higher priority, a thread with k ticks left keeps its CPU through k - 1 reschedules, losing one tick with each |
| Fairness.SliceEnds | src/kernel/sched.c:207-214 | on its last tick it gives way to a thread of its own priority |

## Left out

- The boot loader, EFI structures, APIC, GDT, IDT (except the test-mode remap), keyboard, console, ACPI, the system-call table and the shell: device access and user interface.
- Spin locks, interrupt flags and the switch of stacks itself: critical sections are atomic steps.
- The start-up handshake of the other CPUs (`src/kernel/smp.c`) and its time-outs: runs contain every order in which it could let them come up.
- Port and thread names, `alpc_connect_port`, the contents of the first stack frame, TSS and per-CPU stack fields: copied values with no further logic.
- Failure of allocations inside spawn, port creation and `vmm_map`: unchecked in the source, so taken as preconditions.
- The bitmap and the page tables are separate arrays here, although both lie in physical memory; the pages under the bitmap are never handed out (`PageAllocator.BitmapNeverHandedOut`). The bit after the last page is not always under them: when `total_pages` is a multiple of 32768 the bitmap fills its pages exactly, and that bit lies on the page after them, which can be handed out and written. Results that need the bit set (`Frames.GuardedContained`) then hold only until its owner clears it; the others do not depend on it.
- AddressSpace.AddressSpace.Map: needs one free page more than the tables that are missing, because the source does not look at the result of `pmm_alloc`; flags at or above 0x1000 are excluded, because no caller passes any and they would overlap the frame bits.
- AddressSpace.AddressSpace.MapRun: address ranges that reach 2^48 are excluded, because `vmm_map` uses only 48 address bits and page numbers start again from 0.
- AddressSpace.AddressSpace.MapDescriptor: the same; physical addresses of x86_64 memory maps are lower.
- AddressSpace.AddressSpace.Init: the same, and there must be pages for all tables, because `vmm_map` does not look at the result of `pmm_alloc`.
- AddressSpace.AddressSpace.Remap: an unmapped page needs free pages for its missing tables, for the same reason.
- Sections.Sections.Show: windows that would reach 2^48 are excluded, because `vmm_map` uses only 48 address bits and they would overlay low addresses.
- Sections.Sections.Expose: the same, and there must be pages for the tables, because `vmm_map` does not look at the result of `pmm_alloc`.
- Frames.HeldRunsDisjoint: an allocation that leaves memory is no step, because after it the counter is wrong (`Frames.AllocSoundIff`).
- SectionSpec.RunKeeps: two calls of `vmm_map` do not overlap in these runs; overlaps are in `Races`, which follows tables and translations but not which section a page belongs to.
- Sections.Sections.Create: sections larger than memory are excluded, because the subtraction in `pmm_alloc` would wrap, and requests that `pmm_alloc` answers with a run that leaves memory (`Frames.OverrunIff` says which).
- Sections.Sections.Reserve: the same.
- PageAllocator.PageAllocator.Alloc: `count > total_pages` is excluded, because the subtraction wraps and the search runs over all memory; every bit the search may read must exist.
- Heap.Heap.Malloc: sizes within 7 of 2^64 are excluded, because the rounding would wrap to 0.
- Heap.Heap.Free: pointers outside the pool or not a multiple of 8 are excluded, because what lies before them is not modelled.
- Ports.Port.constructor: queue size 0 is excluded, because `alpc_send` divides by it.
- Ports.Port.Send: the null port, for which the source returns -1 at once, has no counterpart in the class.
- RunQueue.RunQueue.Reschedule: a CPU without a current thread, for which the source returns its argument and changes nothing, is left out; every CPU has one after `sched_init`.
- Theorems.AliveIff: nothing is claimed while a thread is in flight, because `sched_is_alive` looks at one CPU at a time.
