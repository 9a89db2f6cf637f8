# Verified models of the allocators, pools and codecs

This project models the algorithms of the demo collection that keep real state, in Dafny,
and proves what they promise for every input, every sequence of calls and, where threads
are involved, every interleaving. `dafny verify dfyconfig.toml` checks all of it.

**Free-list heaps.** `HeapLayout` is the common core of the three allocators in
`15.memory_allocation/1.allocation_strategy`: one pool, cut into header + payload blocks.
`HeapMemory` ties the stores into the pool to that layout, and `FreeLinks` the doubly linked
lists threaded through the headers. `ImplicitFreeList`, `ExplicitFreeList` and
`SegregatedFits` are the allocators, as classes whose methods rewrite headers in place.
Memory is a table of headers by offset, so a header left behind inside a merged block stays
in the table, as its bytes stay in the pool. The key fact is that a coalesced tiling is
determined by its live blocks; identities of malloc and free follow from it.

The segregated allocator does not always keep its bins in order: it trims the chosen block
before it recomputes the bin to unlink it from. `SegregatedFits.Heap.Malloc` states exactly
when the bins survive, and `LoseABinHead` is a three-call run in which they do not.
`BinStores` follows the stores without assuming any order, and `SegregatedRuns` shows what
survives the loss in every run (headers, tiling, links, live payloads) and what does not:
`SearchHangs` is a run after which malloc searches a cycle forever, `SearchMissesBlock` one
after which it refuses a request that fits. `SegregatedSearch` says exactly when a search
hangs, finds or gives up, for bins in any state.

**Slab pool.** `SlabPool` is a transition system over any number of threads with explicit
locks, one step per access to shared memory. `SlabPoolSafety` proves that every step keeps
each block in exactly one place although one `next` field serves both kinds of list;
`SlabPoolRuns` draws the conclusions for whole runs, whatever clients write into their
blocks. `SlabPoolGuards` says when free aborts: the tail guard lies inside the payload, so a
client may be aborted for using only bytes it asked for. `SlabPoolReuse` says which block a
call gets and where a freed one goes, and `SlabPoolProgress` bounds how long calls take in
any schedule. The protection mode is constant over a run. The header takes 216
bytes, as on x86-64.

**Thread pools.** `TaskPool` and `TaskPoolRuns` model the C++ pool, `WorkerPool` and
`WorkerPoolRuns` the C pool, as transition systems with an owned mutex, sleepers, spurious
wake-ups and pending notifications. Tasks return and add no tasks. In the C pool the
shutdown flag is written without the mutex, so pool_destroy can hang: `StrandedIff` says
exactly when, `DestroyHangs` is such a run, and `JoinsBounded` with `DestroyProgress` show
that it returns otherwise.

**Bounded buffer, error log, hex codec.** `BoundedBuffer` is the semaphore demo for every
capacity and item sequence. `BlackBox` is the wrap-around log with its file, as a class over
an array, driven across restarts. `HexCodec` works in place on NUL-terminated arrays.

The shared lemmas about sequences and remainders are in `Lists` and `Arithmetic`.

## Model

| member | source | states |
|---|---|---|
| `HeapLayout.Align4Covers` | `1.Demo/1.syntax_interface/15.memory_allocation/1.allocation_strategy/1.implicit_free_list.c:17` | rounding a 64-bit request up to 4 covers it if and only if the addition does not wrap; the three requests that wrap become 0 |
| `HeapLayout.PayloadsIsolated` | `1.Demo/1.syntax_interface/15.memory_allocation/1.allocation_strategy/1.implicit_free_list.c:36-80` | every payload lies inside the pool and no other header or payload reaches into it |
| `HeapLayout.CarveKeeps` | `1.Demo/1.syntax_interface/15.memory_allocation/1.allocation_strategy/1.implicit_free_list.c:43-53` | splitting keeps the exact tiling, sizes that are multiples of 4, and no two adjacent free blocks |
| `HeapLayout.CarveLive` | `1.Demo/1.syntax_interface/15.memory_allocation/1.allocation_strategy/1.implicit_free_list.c:43-53` | malloc adds exactly one live block, at the chosen address, with at most header + 4 bytes of slack |
| `HeapLayout.CarveWholeOrCut` | `1.Demo/1.syntax_interface/15.memory_allocation/1.allocation_strategy/1.implicit_free_list.c:44-52` | the chosen block is left whole if at most header + 4 bytes would remain, and cut into the bytes asked for and a free remainder otherwise |
| `HeapLayout.CoalesceKeeps` | `1.Demo/1.syntax_interface/15.memory_allocation/1.allocation_strategy/1.implicit_free_list.c:66-79` | the sweep turns any aligned tiling into a coalesced one and leaves the set of live blocks as it is |
| `HeapLayout.FreeKeeps` | `1.Demo/1.syntax_interface/15.memory_allocation/1.allocation_strategy/1.implicit_free_list.c:60-80` | free re-establishes the whole layout invariant and removes exactly the freed block from the live set |
| `HeapLayout.CoalescedUnique` | `1.Demo/1.syntax_interface/15.memory_allocation/1.allocation_strategy/1.implicit_free_list.c:60-80` | a coalesced tiling is determined by its live blocks |
| `HeapLayout.CarveThenFreeRestores` | `1.Demo/1.syntax_interface/15.memory_allocation/1.allocation_strategy/1.implicit_free_list.c:36-80` | carving any fitting block and freeing it gives back the identical block sequence |
| `HeapLayout.FreeAllRestoresInitial` | `1.Demo/1.syntax_interface/15.memory_allocation/1.allocation_strategy/1.implicit_free_list.c:27-80` | every enumeration of the live blocks is a legal order of frees, and it ends in the single initial block |
| `HeapLayout.FirstFit` | `1.Demo/1.syntax_interface/15.memory_allocation/1.allocation_strategy/1.implicit_free_list.c:41-57` | the first fitting block: nothing before it fits, and nothing fits at all when it is past the end |
| `ImplicitFreeList.Heap.constructor` | `1.Demo/1.syntax_interface/15.memory_allocation/1.allocation_strategy/1.implicit_free_list.c:27-33` | the pool starts as one free block that fills it |
| `ImplicitFreeList.Heap.Malloc` | `1.Demo/1.syntax_interface/15.memory_allocation/1.allocation_strategy/1.implicit_free_list.c:36-58` | the lowest-address fitting block is carved; NULL exactly when no block fits; headers written by the call touch no live payload |
| `ImplicitFreeList.Heap.Free` | `1.Demo/1.syntax_interface/15.memory_allocation/1.allocation_strategy/1.implicit_free_list.c:60-80` | free of NULL does nothing; otherwise the layout is the coalescing of the released one, the invariant holds again and no live payload is touched |
| `ImplicitFreeList.Heap.Sweep` | `1.Demo/1.syntax_interface/15.memory_allocation/1.allocation_strategy/1.implicit_free_list.c:66-79` | the coalescing loop: it terminates because the end of the current block advances, and reaches the coalesced layout |
| `ImplicitFreeList.EveryRunCoalesced` | `1.Demo/1.syntax_interface/15.memory_allocation/1.allocation_strategy/1.implicit_free_list.c:36-80` | after every sequence of legal calls the pool is exactly tiled, aligned and coalesced |
| `ImplicitFreeList.Drive` | `1.Demo/1.syntax_interface/15.memory_allocation/1.allocation_strategy/1.implicit_free_list.c:27-80` | the class, driven through any sequence of legal calls, is in the state the runs say |
| `ImplicitFreeList.MallocFreeIdentity` | `1.Demo/1.syntax_interface/15.memory_allocation/1.allocation_strategy/1.implicit_free_list.c:36-80` | a successful malloc followed by free of its result is the identity; request <= payload <= request + 23 when nothing wraps |
| `FreeLinks.PushKeeps` | `1.Demo/1.syntax_interface/15.memory_allocation/1.allocation_strategy/2.explicit_free_list.c:47-53` | pushing in front keeps next and prev mutually inverse, the list duplicate-free, and everything off the list unchanged |
| `FreeLinks.UnlinkKeeps` | `1.Demo/1.syntax_interface/15.memory_allocation/1.allocation_strategy/2.explicit_free_list.c:40-45` | unlinking a first, middle or last element leaves exactly the list without it |
| `ExplicitFreeList.Heap.constructor` | `1.Demo/1.syntax_interface/15.memory_allocation/1.allocation_strategy/2.explicit_free_list.c:30-38` | one free block, alone on the list |
| `ExplicitFreeList.Heap.AddToFreeList` | `1.Demo/1.syntax_interface/15.memory_allocation/1.allocation_strategy/2.explicit_free_list.c:47-53` | the in-place push: only the block and the old head change |
| `ExplicitFreeList.Heap.RemoveFromFreeList` | `1.Demo/1.syntax_interface/15.memory_allocation/1.allocation_strategy/2.explicit_free_list.c:40-45` | the in-place unlink: only the two neighbours and the head change |
| `ExplicitFreeList.Heap.Malloc` | `1.Demo/1.syntax_interface/15.memory_allocation/1.allocation_strategy/2.explicit_free_list.c:55-80` | first fit in list order succeeds exactly when a scan of all blocks would; blocks, list order and links afterwards, including a split of the head while it is removed; live payloads untouched |
| `ExplicitFreeList.Heap.Search` | `1.Demo/1.syntax_interface/15.memory_allocation/1.allocation_strategy/2.explicit_free_list.c:58-78` | the loop returns the first listed block that fits, or NULL |
| `ExplicitFreeList.Heap.Free` | `1.Demo/1.syntax_interface/15.memory_allocation/1.allocation_strategy/2.explicit_free_list.c:82-105` | the list after the sweep is the pushed list without the absorbed blocks, in unchanged order, and holds exactly the free blocks of the coalesced tiling |
| `ExplicitFreeList.Heap.Sweep` | `1.Demo/1.syntax_interface/15.memory_allocation/1.allocation_strategy/2.explicit_free_list.c:90-104` | the coalescing loop with unlinking, from the state right after the push |
| `ExplicitFreeList.ListSearchComplete` | `1.Demo/1.syntax_interface/15.memory_allocation/1.allocation_strategy/2.explicit_free_list.c:58-79` | searching the list succeeds in exactly the heaps where a scan of all blocks does |
| `ExplicitFreeList.EveryRunIndexed` | `1.Demo/1.syntax_interface/15.memory_allocation/1.allocation_strategy/2.explicit_free_list.c:40-105` | after every sequence of legal calls the list holds exactly the free blocks of an exact coalesced tiling, each once |
| `ExplicitFreeList.Drive` | `1.Demo/1.syntax_interface/15.memory_allocation/1.allocation_strategy/2.explicit_free_list.c:30-105` | the class, driven through any sequence of legal calls, has the blocks and the list the runs say |
| `ExplicitFreeList.MallocFreeIdentity` | `1.Demo/1.syntax_interface/15.memory_allocation/1.allocation_strategy/2.explicit_free_list.c:55-105` | malloc then free gives back the identical block sequence; request <= payload <= request + 39 when nothing wraps |
| `ExplicitFreeList.FreeAllRestoresList` | `1.Demo/1.syntax_interface/15.memory_allocation/1.allocation_strategy/2.explicit_free_list.c:30-105` | freeing all live blocks, in any order, ends in the initial block and the initial list |
| `SegregatedFits.GetClassId` | `1.Demo/1.syntax_interface/15.memory_allocation/1.allocation_strategy/3.segregated_fits.c:52-58` | the first class whose limit covers the size; sizes above the last limit share the last bin |
| `SegregatedFits.ClassMonotone` | `1.Demo/1.syntax_interface/15.memory_allocation/1.allocation_strategy/3.segregated_fits.c:52-58` | classes grow with sizes, and a limit separates two sizes of different classes |
| `SegregatedFits.BinSearchComplete` | `1.Demo/1.syntax_interface/15.memory_allocation/1.allocation_strategy/3.segregated_fits.c:81-107` | searching only the bins from the request's class upward finds a block if and only if some free block anywhere fits |
| `SegregatedFits.Heap.constructor` | `1.Demo/1.syntax_interface/15.memory_allocation/1.allocation_strategy/3.segregated_fits.c:36-49` | one free block, alone in the last bin |
| `SegregatedFits.Heap.AddToClass` | `1.Demo/1.syntax_interface/15.memory_allocation/1.allocation_strategy/3.segregated_fits.c:60-68` | the in-place push makes exactly the stores of Binned |
| `SegregatedFits.Heap.RemoveFromClass` | `1.Demo/1.syntax_interface/15.memory_allocation/1.allocation_strategy/3.segregated_fits.c:70-76` | the in-place unlink makes exactly the stores of Unbinned, for links in any state |
| `SegregatedFits.Heap.Malloc` | `1.Demo/1.syntax_interface/15.memory_allocation/1.allocation_strategy/3.segregated_fits.c:78-108` | finds a block if and only if one fits; headers, tiling and links stay good and live payloads are untouched in any case; the bins are disciplined afterwards if and only if the chosen block was not a head that changed class while its remainder went to another bin, and otherwise that allocated block stays the head of its bin |
| `SegregatedFits.Heap.Take` | `1.Demo/1.syntax_interface/15.memory_allocation/1.allocation_strategy/3.segregated_fits.c:86-101` | the success branch makes exactly the stores of Taken and keeps headers, tiling and links good for bins in any state |
| `SegregatedFits.MallocOutcome` | `1.Demo/1.syntax_interface/15.memory_allocation/1.allocation_strategy/3.segregated_fits.c:86-101` | both directions of that condition, on the stores the success branch makes |
| `SegregatedFits.Heap.Free` | `1.Demo/1.syntax_interface/15.memory_allocation/1.allocation_strategy/3.segregated_fits.c:110-116` | a free step always keeps bin discipline, keeps headers and links good even where discipline was lost, and touches no live payload |
| `SegregatedFits.LoseABinHead` | `1.Demo/1.syntax_interface/15.memory_allocation/1.allocation_strategy/3.segregated_fits.c:78-116` | a reachable run (allocate 300, free, allocate 30) after which no reading of the bins is disciplined although the headers still describe the layout: the head of the last bin is an allocated block |
| `BinStores.TakenLoose` | `1.Demo/1.syntax_interface/15.memory_allocation/1.allocation_strategy/3.segregated_fits.c:87-100` | whatever the links look like, malloc's stores keep the headers an exact aligned tiling, every bin head and link at a block start, and every live payload untouched |
| `BinStores.FreedLoose` | `1.Demo/1.syntax_interface/15.memory_allocation/1.allocation_strategy/3.segregated_fits.c:112-115` | the same for the stores of free |
| `SegregatedSearch.SearchInBounds` | `1.Demo/1.syntax_interface/15.memory_allocation/1.allocation_strategy/3.segregated_fits.c:83-105` | the search only ever looks at block headers, however the bins look |
| `SegregatedSearch.HangsIff` | `1.Demo/1.syntax_interface/15.memory_allocation/1.allocation_strategy/3.segregated_fits.c:83-105` | for bins in any state whose links lead to blocks: the search never ends if and only if it has not ended after five turns for each block and five more, and if and only if it comes back to a place before it ends |
| `SegregatedSearch.EndlessIff` | `1.Demo/1.syntax_interface/15.memory_allocation/1.allocation_strategy/3.segregated_fits.c:85-104` | following a bin never ends if and only if as many steps as there are blocks do not reach its end |
| `SegregatedSearch.SearchOutcome` | `1.Demo/1.syntax_interface/15.memory_allocation/1.allocation_strategy/3.segregated_fits.c:83-107` | for bins in any state, the first bin from the request's class upward that offers a fitting block or never ends decides: found, endless, or, if there is none, given up |
| `SegregatedSearch.HangsByBins` | `1.Demo/1.syntax_interface/15.memory_allocation/1.allocation_strategy/3.segregated_fits.c:83-105` | the search never ends if and only if some bin of the request's class or above never ends and no bin up to it offers a block |
| `SegregatedSearch.EndingSearchComplete` | `1.Demo/1.syntax_interface/15.memory_allocation/1.allocation_strategy/3.segregated_fits.c:83-107` | a search that ends finds a block if and only if a fitting free block can be reached along a bin of the request's class or above |
| `SegregatedRuns.FoundBlock` | `1.Demo/1.syntax_interface/15.memory_allocation/1.allocation_strategy/3.segregated_fits.c:86-86` | what the search stops at is the start of a free block that is large enough |
| `SegregatedRuns.EveryCallSound` | `1.Demo/1.syntax_interface/15.memory_allocation/1.allocation_strategy/3.segregated_fits.c:78-116` | every call, in order or not, keeps headers, tiling and links good, touches no live payload, and changes the live blocks by exactly the one block handed out or taken back |
| `SegregatedRuns.EveryRunSound` | `1.Demo/1.syntax_interface/15.memory_allocation/1.allocation_strategy/3.segregated_fits.c:36-116` | that holds in every state of every run, also after discipline is lost |
| `SegregatedRuns.EveryRunSearch` | `1.Demo/1.syntax_interface/15.memory_allocation/1.allocation_strategy/3.segregated_fits.c:78-116` | these conditions hold in every state of every run, also after discipline is lost |
| `SegregatedRuns.DisciplinedSearchEnds` | `1.Demo/1.syntax_interface/15.memory_allocation/1.allocation_strategy/3.segregated_fits.c:83-105` | in disciplined bins every search ends, so no condition has to be checked there |
| `SegregatedRuns.Search` | `1.Demo/1.syntax_interface/15.memory_allocation/1.allocation_strategy/3.segregated_fits.c:83-105` | the two loops, in any state in which the search does not hang, end within the bound and return what the search finds |
| `SegregatedRuns.Malloc` | `1.Demo/1.syntax_interface/15.memory_allocation/1.allocation_strategy/3.segregated_fits.c:78-108` | malloc in any state in which its search does not hang is a step of these runs, and hands out a block that was not live |
| `SegregatedRuns.SearchHangs` | `1.Demo/1.syntax_interface/15.memory_allocation/1.allocation_strategy/3.segregated_fits.c:83-105` | a reachable run of five calls that turns the last bin into a cycle, in which a request that no block can serve is searched for forever |
| `SegregatedRuns.SearchMissesBlock` | `1.Demo/1.syntax_interface/15.memory_allocation/1.allocation_strategy/3.segregated_fits.c:83-107` | a reachable run of four calls after which a free block of 32404 bytes is on no bin and a request for 300 bytes is refused |
| `SlabPool.InitClasses` | `1.Demo/1.syntax_interface/15.memory_allocation/2.mem_pool_c/3.m_mem_pool/mem_pool.c:273-278` | doubling from 8 gives eleven classes of 8 * 2^i bytes |
| `SlabPool.FindSlabIndex` | `1.Demo/1.syntax_interface/15.memory_allocation/2.mem_pool_c/3.m_mem_pool/mem_pool.c:64-74` | the first class that covers the size; none exactly for sizes above 8192 |
| `SlabPool.ClassOfBlockSize` | `1.Demo/1.syntax_interface/15.memory_allocation/2.mem_pool_c/3.m_mem_pool/mem_pool.c:196-201` | a block size maps back to its own class |
| `SlabPool.RoundingBounds` | `1.Demo/1.syntax_interface/15.memory_allocation/2.mem_pool_c/3.m_mem_pool/mem_pool.c:92-100` | rounding never shrinks a request, is below twice the request for 8 < size <= 8192, and keeps its class |
| `SlabPool.TotalSizeCovers` | `1.Demo/1.syntax_interface/15.memory_allocation/2.mem_pool_c/3.m_mem_pool/mem_pool.c:101-113` | the memory obtained holds header and payload if and only if the sum does not wrap size_t |
| `SlabPool.RequestClearOfGuard` | `1.Demo/1.syntax_interface/15.memory_allocation/2.mem_pool_c/3.m_mem_pool/mem_pool.c:131-134` | all requested bytes lie clear of the tail guard if and only if eight bytes of the rounded size are left over; never for a request that is itself a block size |
| `SlabPoolSafety.EveryStepKeeps` | `1.Demo/1.syntax_interface/15.memory_allocation/2.mem_pool_c/3.m_mem_pool/mem_pool.c:90-205` | every statement of every thread, and every client action inside the client's own blocks, keeps the invariant: lists linked as viewed, one place per block, locks held by those inside |
| `SlabPoolSafety.CheckOutcome` | `1.Demo/1.syntax_interface/15.memory_allocation/2.mem_pool_c/3.m_mem_pool/mem_pool.c:158-182` | in free no double free is seen and the head guard is intact: the checks fail if and only if protection is on and the tail guard is damaged |
| `SlabPoolRuns.EveryStateSafe` | `1.Demo/1.syntax_interface/15.memory_allocation/2.mem_pool_c/3.m_mem_pool/mem_pool.c:90-205` | the invariant holds in every state of every interleaving of any number of threads, whatever clients write into their blocks |
| `SlabPoolRuns.ExactlyOnePlace` | `1.Demo/1.syntax_interface/15.memory_allocation/2.mem_pool_c/3.m_mem_pool/mem_pool.c:103-139` | a block is on the active list, on one class's free list or in one thread's hands, and never in two of these |
| `SlabPoolRuns.HandedOutOnce` | `1.Demo/1.syntax_interface/15.memory_allocation/2.mem_pool_c/3.m_mem_pool/mem_pool.c:117-141` | alloc returns a block no client holds, with a payload at least as large as the request and within its memory |
| `SlabPoolReuse.EveryCallServed` | `1.Demo/1.syntax_interface/15.memory_allocation/2.mem_pool_c/3.m_mem_pool/mem_pool.c:90-205` | in every state of every run each thread is serving the last call it made, for the size or the block that call named |
| `SlabPoolReuse.CallLooked` | `1.Demo/1.syntax_interface/15.memory_allocation/2.mem_pool_c/3.m_mem_pool/mem_pool.c:103-113` | every allocation of a size that has a class looks at that class's free list, and has in hand afterwards what the list started with |
| `SlabPoolReuse.HandsOutTop` | `1.Demo/1.syntax_interface/15.memory_allocation/2.mem_pool_c/3.m_mem_pool/mem_pool.c:103-141` | the block an allocation returns is the one on top of its class's free list, if that list was not empty when the call looked |
| `SlabPoolReuse.ObtainsIfEmpty` | `1.Demo/1.syntax_interface/15.memory_allocation/2.mem_pool_c/3.m_mem_pool/mem_pool.c:112-113` | memory is obtained from the system for a size that has a class only if the list of that class was empty when the call looked |
| `SlabPoolReuse.AllocEnds` | `1.Demo/1.syntax_interface/15.memory_allocation/2.mem_pool_c/3.m_mem_pool/mem_pool.c:112-141` | an allocation ends only by handing out its block, or because it had nothing in hand and the system had no memory |
| `SlabPoolReuse.OnlyOversizedLeave` | `1.Demo/1.syntax_interface/15.memory_allocation/2.mem_pool_c/3.m_mem_pool/mem_pool.c:196-204` | a block goes back to the system only if it is too large for any class, and only by a free of that block |
| `SlabPoolReuse.FreeListsAreStacks` | `1.Demo/1.syntax_interface/15.memory_allocation/2.mem_pool_c/3.m_mem_pool/mem_pool.c:103-111` | over every act of every run a free list changes only by the block a free puts on its top or the block an allocation takes from there |
| `SlabPoolReuse.FreeThenAlloc` | `1.Demo/1.syntax_interface/15.memory_allocation/2.mem_pool_c/3.m_mem_pool/mem_pool.c:90-205` | freeing a block and allocating a size of its class right after, with no statement of another thread in between, hands out the same block |
| `SlabPoolReuse.DoubleFreeAborts` | `1.Demo/1.syntax_interface/15.memory_allocation/2.mem_pool_c/3.m_mem_pool/mem_pool.c:158-164` | freeing a block that is already on a free list aborts at the check, whichever thread does it |
| `SlabPoolRuns.ClassPurity` | `1.Demo/1.syntax_interface/15.memory_allocation/2.mem_pool_c/3.m_mem_pool/mem_pool.c:103-111` | every block on the free list of class i has size and capacity 8 * 2^i |
| `SlabPoolRuns.ReturnsToItsClass` | `1.Demo/1.syntax_interface/15.memory_allocation/2.mem_pool_c/3.m_mem_pool/mem_pool.c:196-201` | over any stretch of a run, a block popped from a class is pushed back to that class, by whichever thread |
| `SlabPoolRuns.SomeThreadCanRun` | `1.Demo/1.syntax_interface/15.memory_allocation/2.mem_pool_c/3.m_mem_pool/mem_pool.c:104-201` | no deadlock: while a thread is busy, some thread can run |
| `SlabPoolRuns.WhoCanMove` | `1.Demo/1.syntax_interface/15.memory_allocation/2.mem_pool_c/3.m_mem_pool/mem_pool.c:90-205` | exactly when a call may start, a statement may run and a client may write: only a lock that somebody holds makes a thread wait |
| `SlabPoolProgress.CallBounded` | `1.Demo/1.syntax_interface/15.memory_allocation/2.mem_pool_c/3.m_mem_pool/mem_pool.c:90-205` | whatever other threads do, a call takes at most nine more statements of its own thread, and a free that has the global lock at most as many more as the active list has blocks |
| `SlabPoolProgress.MeasureStep` | `1.Demo/1.syntax_interface/15.memory_allocation/2.mem_pool_c/3.m_mem_pool/mem_pool.c:90-205` | every statement of every thread uses up part of one measure of all calls in progress |
| `SlabPoolProgress.CallsEnd` | `1.Demo/1.syntax_interface/15.memory_allocation/2.mem_pool_c/3.m_mem_pool/mem_pool.c:90-205` | every schedule is finite: without new calls all threads together execute at most as many statements as the measure says |
| `SlabPoolProgress.SomeStatementLeft` | `1.Demo/1.syntax_interface/15.memory_allocation/2.mem_pool_c/3.m_mem_pool/mem_pool.c:104-201` | while the measure is not used up some thread can run, so finitely many calls all return, unless the program aborts |
| `SlabPoolRuns.ActiveUnfreed` | `1.Demo/1.syntax_interface/15.memory_allocation/2.mem_pool_c/3.m_mem_pool/mem_pool.c:182-194` | when the global lock is free no block on the active list is marked freed |
| `SlabPoolRuns.DumpStats` | `1.Demo/1.syntax_interface/15.memory_allocation/2.mem_pool_c/3.m_mem_pool/mem_pool.c:207-220` | the statistics walk counts every active block and its bytes; with no call in progress that is the number of blocks clients hold |
| `SlabPoolRuns.ReleaseList` | `1.Demo/1.syntax_interface/15.memory_allocation/2.mem_pool_c/3.m_mem_pool/mem_pool.c:290-306` | one list is released block by block, each once; a released block is gone from memory, so every link is read before its block goes |
| `SlabPoolRuns.Destroy` | `1.Demo/1.syntax_interface/15.memory_allocation/2.mem_pool_c/3.m_mem_pool/mem_pool.c:283-306` | destroying a quiescent pool returns every block it owns exactly once, reads none afterwards and leaves nothing behind |
| `SlabPoolGuards.EveryUseOk` | `1.Demo/1.syntax_interface/15.memory_allocation/2.mem_pool_c/3.m_mem_pool/mem_pool.c:117-139` | in every state of every run a block in use has the size of its last request, and its tail guard is what the writes since have left |
| `SlabPoolGuards.AbortsOnlyInCheck` | `1.Demo/1.syntax_interface/15.memory_allocation/2.mem_pool_c/3.m_mem_pool/mem_pool.c:158-180` | only the checks in free abort |
| `SlabPoolGuards.FreeAborts` | `1.Demo/1.syntax_interface/15.memory_allocation/2.mem_pool_c/3.m_mem_pool/mem_pool.c:158-180` | in every run, of any threads and clients: when free checks a block the program aborts if and only if protection is on and, since the block was last set up, clients wrote into the last eight bytes of the rounded size and the last such write left the guard word changed |
| `SlabPoolGuards.FullUseAborts` | `1.Demo/1.syntax_interface/15.memory_allocation/2.mem_pool_c/3.m_mem_pool/mem_pool.c:131-180` | in every run, freeing a block of which exactly the requested bytes were written does not abort if rounding left eight bytes over; otherwise, unless the bytes written are the guard's own value, it aborts if and only if protection is on |
| `SlabPoolGuards.FullUseRun` | `1.Demo/1.syntax_interface/15.memory_allocation/2.mem_pool_c/3.m_mem_pool/mem_pool.c:131-180` | such a run, with its acts, for every request: aborted if and only if rounding left fewer than eight bytes over and the bytes written change the guard word |
| `SlabPoolGuards.NeverAborts` | `1.Demo/1.syntax_interface/15.memory_allocation/2.mem_pool_c/3.m_mem_pool/mem_pool.c:158-180` | no run of clients that keep off the last eight payload bytes reaches an abort, and with protection off no run at all does |
| `TaskPool.StepKeeps` | `1.Demo/1.syntax_interface/3.Thread/5.thread_pool/3.ThreadPool_CXX/ThreadPool.h:41-102` | every step of every worker, call and the destructor keeps the invariant |
| `TaskPoolRuns.EveryStateSafe` | `1.Demo/1.syntax_interface/3.Thread/5.thread_pool/3.ThreadPool_CXX/ThreadPool.h:41-102` | the invariant holds in every state of every run, with any number of workers and calls |
| `TaskPoolRuns.NoLostWakeUp` | `1.Demo/1.syntax_interface/3.Thread/5.thread_pool/3.ThreadPool_CXX/ThreadPool.h:51-59` | in every reachable state with a worker and a queued task, a worker is neither asleep nor gone or a notification is still to come |
| `TaskPoolRuns.QueuedTasksProgress` | `1.Demo/1.syntax_interface/3.Thread/5.thread_pool/3.ThreadPool_CXX/ThreadPool.h:48-90` | with queued tasks the pool can always move on by itself |
| `TaskPoolRuns.StartedInOrder` | `1.Demo/1.syntax_interface/3.Thread/5.thread_pool/3.ThreadPool_CXX/ThreadPool.h:54-58` | tasks leave the queue in the order in which they were accepted |
| `TaskPoolRuns.AcceptedAreTheCalls` | `1.Demo/1.syntax_interface/3.Thread/5.thread_pool/3.ThreadPool_CXX/ThreadPool.h:77-90` | in every state the accepted tasks are those of exactly the calls that went through, once for each call and with the task it was made with; a call throws only if the pool is stopped |
| `TaskPoolRuns.TakesFrontTask` | `1.Demo/1.syntax_interface/3.Thread/5.thread_pool/3.ThreadPool_CXX/ThreadPool.h:51-59` | a worker that tests while a task is queued runs the front task, with its third move, whatever others do in between |
| `TaskPoolRuns.OutsideMutex` | `1.Demo/1.syntax_interface/3.Thread/5.thread_pool/3.ThreadPool_CXX/ThreadPool.h:48-60` | outside the mutex a worker's move leads back to its test or finishes its task |
| `TaskPoolRuns.CallMovesCounted` | `1.Demo/1.syntax_interface/3.Thread/5.thread_pool/3.ThreadPool_CXX/ThreadPool.h:77-90` | no call goes round in circles: two moves until it throws, four until it returns |
| `TaskPoolRuns.DestructorMovesCounted` | `1.Demo/1.syntax_interface/3.Thread/5.thread_pool/3.ThreadPool_CXX/ThreadPool.h:93-102` | neither does the destructor: it returns with a number of moves fixed by the number of workers |
| `TaskPoolRuns.WhoCanMove` | `1.Demo/1.syntax_interface/3.Thread/5.thread_pool/3.ThreadPool_CXX/ThreadPool.h:48-102` | exactly what workers, calls and the destructor wait for |
| `TaskPoolRuns.NothingAcceptedAfterStop` | `1.Demo/1.syntax_interface/3.Thread/5.thread_pool/3.ThreadPool_CXX/ThreadPool.h:78-86` | over the rest of every run after stop is set nothing is accepted, and a call not yet past its test can only end by throwing |
| `TaskPoolRuns.EveryTaskExactlyOnce` | `1.Demo/1.syntax_interface/3.Thread/5.thread_pool/3.ThreadPool_CXX/ThreadPool.h:93-102` | when the destructor returns every task has finished exactly once for each call that went through with it, if and only if there is a worker or no call went through |
| `TaskPoolRuns.NoWorkersDropsTask` | `1.Demo/1.syntax_interface/3.Thread/5.thread_pool/3.ThreadPool_CXX/ThreadPool.h:41-63` | a run of a pool of no workers that accepts a task and drops it |
| `TaskPoolRuns.NoSleeperAfterNotifyAll` | `1.Demo/1.syntax_interface/3.Thread/5.thread_pool/3.ThreadPool_CXX/ThreadPool.h:95-101` | once notify_all has run no worker is asleep or about to sleep |
| `TaskPoolRuns.ShutdownBounded` | `1.Demo/1.syntax_interface/3.Thread/5.thread_pool/3.ThreadPool_CXX/ThreadPool.h:99-101` | after notify_all every schedule is finite: workers and destructor take at most as many steps as the measure says |
| `TaskPoolRuns.ShutdownProgress` | `1.Demo/1.syntax_interface/3.Thread/5.thread_pool/3.ThreadPool_CXX/ThreadPool.h:99-101` | until the destructor returns, the pool or the call that holds the mutex can move, so the joins complete |
| `WorkerPool.StepKeeps` | `1.Demo/1.syntax_interface/3.Thread/5.thread_pool/1.thread_pool.c:82-172` | every step of every worker, adder and pool_destroy keeps the invariant |
| `WorkerPoolRuns.EveryStateSafe` | `1.Demo/1.syntax_interface/3.Thread/5.thread_pool/1.thread_pool.c:82-172` | the invariant holds in every state of every run, with any number of workers and calls |
| `WorkerPoolRuns.SizeMatchesQueue` | `1.Demo/1.syntax_interface/3.Thread/5.thread_pool/1.thread_pool.c:99-100` | no assertion ever fails, and whenever the mutex is free the counter is the length of the list, until pool_destroy empties it |
| `WorkerPoolRuns.StartedInOrder` | `1.Demo/1.syntax_interface/3.Thread/5.thread_pool/1.thread_pool.c:157-168` | tasks start in the order in which they were added, and none finishes more often than it was added |
| `WorkerPoolRuns.AddedAreTheCalls` | `1.Demo/1.syntax_interface/3.Thread/5.thread_pool/1.thread_pool.c:82-106` | in every state the added tasks are those of exactly the calls that have linked one, once for each call and with the task it was made with |
| `WorkerPoolRuns.TakesFrontTask` | `1.Demo/1.syntax_interface/3.Thread/5.thread_pool/1.thread_pool.c:141-166` | a worker that finds a task queued and the flag clear runs the front task, with its sixth move from the test, whatever others do in between |
| `WorkerPoolRuns.OutsideMutex` | `1.Demo/1.syntax_interface/3.Thread/5.thread_pool/1.thread_pool.c:140-168` | outside the mutex a worker's move leads back to its test or finishes its task |
| `WorkerPoolRuns.CallMovesCounted` | `1.Demo/1.syntax_interface/3.Thread/5.thread_pool/1.thread_pool.c:82-106` | no call goes round in circles: it returns with its sixth move |
| `WorkerPoolRuns.DestroyerMovesCounted` | `1.Demo/1.syntax_interface/3.Thread/5.thread_pool/1.thread_pool.c:109-135` | neither does pool_destroy: its moves are fixed by the number of workers and of tasks it frees |
| `WorkerPoolRuns.WhoCanMove` | `1.Demo/1.syntax_interface/3.Thread/5.thread_pool/1.thread_pool.c:82-172` | exactly what workers, calls and pool_destroy wait for |
| `WorkerPoolRuns.EveryTaskRunOrFreed` | `1.Demo/1.syntax_interface/3.Thread/5.thread_pool/1.thread_pool.c:109-135` | when pool_destroy returns, the task of every call ever made was run once for the call or freed unrun, and the ones run are the oldest |
| `WorkerPoolRuns.NoLostWakeUp` | `1.Demo/1.syntax_interface/3.Thread/5.thread_pool/1.thread_pool.c:101-104` | until shutdown no wake-up is lost |
| `WorkerPoolRuns.OneLateStart` | `1.Demo/1.syntax_interface/3.Thread/5.thread_pool/1.thread_pool.c:144-166` | once the shutdown flag is set at most one more task is ever started |
| `WorkerPoolRuns.BroadcastReachesAll` | `1.Demo/1.syntax_interface/3.Thread/5.thread_pool/1.thread_pool.c:113-115` | if the broadcast finds no worker between its test and its wait, nobody sleeps from then on |
| `WorkerPoolRuns.StrandedIff` | `1.Demo/1.syntax_interface/3.Thread/5.thread_pool/1.thread_pool.c:144-147` | some continuation leaves a worker asleep after the broadcast if and only if the broadcast found one between its test and its wait |
| `WorkerPoolRuns.StrandedForever` | `1.Demo/1.syntax_interface/3.Thread/5.thread_pool/1.thread_pool.c:115-118` | a stranded worker sleeps on and pool_destroy does not return, unless a spurious wake-up or a later signal occurs |
| `WorkerPoolRuns.MissedNeverReturns` | `1.Demo/1.syntax_interface/3.Thread/5.thread_pool/1.thread_pool.c:144-147` | if the broadcast finds a worker between its test and its wait, no continuation without a spurious wake-up or a later signal gets pool_destroy to return |
| `WorkerPoolRuns.DestroyHangs` | `1.Demo/1.syntax_interface/3.Thread/5.thread_pool/1.thread_pool.c:109-118` | a reachable run in which pool_destroy hangs |
| `WorkerPoolRuns.JoinsBounded` | `1.Demo/1.syntax_interface/3.Thread/5.thread_pool/1.thread_pool.c:117-118` | after a broadcast that reached everyone the joins are over within a bounded number of steps |
| `WorkerPoolRuns.DestroyProgress` | `1.Demo/1.syntax_interface/3.Thread/5.thread_pool/1.thread_pool.c:117-126` | after such a broadcast pool_destroy is never stuck |
| `WorkerPoolRuns.DrainEnds` | `1.Demo/1.syntax_interface/3.Thread/5.thread_pool/1.thread_pool.c:121-126` | once the joins are over the run lasts exactly one step for each task still queued and one more, and only then has pool_destroy returned |
| `BoundedBuffer.EveryStateSafe` | `1.Demo/1.syntax_interface/3.Thread/4.semaphore/demo.c:39-98` | for every capacity, every item sequence and every interleaving, counts, indexes, lock and unread slots stay consistent |
| `BoundedBuffer.ConsumedIsPrefix` | `1.Demo/1.syntax_interface/3.Thread/4.semaphore/demo.c:84-86` | what was consumed is always a prefix of what was produced, and at most the capacity behind it |
| `BoundedBuffer.UnreadKept` | `1.Demo/1.syntax_interface/3.Thread/4.semaphore/demo.c:54-56` | no step overwrites a slot that has not been read |
| `BoundedBuffer.SlotsConserved` | `1.Demo/1.syntax_interface/3.Thread/4.semaphore/demo.c:105-106` | the two semaphores and the slots in hand always add up to the capacity; the two threads are never both inside |
| `BoundedBuffer.RunLength` | `1.Demo/1.syntax_interface/3.Thread/4.semaphore/demo.c:44-66` | every run is finite: twelve steps for each item, and both threads are done exactly when all are taken |
| `BoundedBuffer.SomeoneCanStep` | `1.Demo/1.syntax_interface/3.Thread/4.semaphore/demo.c:39-98` | no deadlock: until both threads are done one of them can step |
| `BoundedBuffer.WhoCanMove` | `1.Demo/1.syntax_interface/3.Thread/4.semaphore/demo.c:39-98` | exactly what each thread waits for: its semaphore at the head of its loop, and the mutex after that |
| `BoundedBuffer.EndsWithAllConsumed` | `1.Demo/1.syntax_interface/3.Thread/4.semaphore/demo.c:76-98` | at the end the consumed sequence equals the produced one and every slot is empty again |
| `BlackBox.PushedContents` | `1.Demo/3.tools/8.blackbox/blackbox.c:22-32` | logging into the ring appends one entry and drops the oldest once there are 100 |
| `BlackBox.Box.constructor` | `1.Demo/3.tools/8.blackbox/blackbox.c:13-18` | a new process holds what the file holds, if it can be read |
| `BlackBox.Box.Load` | `1.Demo/3.tools/8.blackbox/blackbox.c:46-53` | the ring is replaced by the file's image, or left alone |
| `BlackBox.Box.Save` | `1.Demo/3.tools/8.blackbox/blackbox.c:37-44` | the file becomes the image of the ring, or is left alone |
| `BlackBox.Box.Log` | `1.Demo/3.tools/8.blackbox/blackbox.c:20-35` | the ring in place refines appending to a sequence bounded to its newest 100 entries; the newest entry has the time and the code of the call, and its text up to 255 characters |
| `BlackBox.TruncatedKeeps` | `1.Demo/3.tools/8.blackbox/blackbox.c:31-32` | a description is kept whole up to 255 characters, and its first 255 otherwise |
| `BlackBox.Box.Clear` | `1.Demo/3.tools/8.blackbox/blackbox.c:92-97` | memory is emptied, and the file with it when it can be removed |
| `BlackBox.Box.Export` | `1.Demo/3.tools/8.blackbox/blackbox.c:75-90` | the entries are printed oldest first |
| `BlackBox.HoldsNewest` | `1.Demo/3.tools/8.blackbox/blackbox.c:13-53` | over every sequence of log, clear and restart steps that reach the file, memory and file hold exactly the last 100 entries since the last clear |
| `BlackBox.CountingIs` | `1.Demo/3.tools/8.blackbox/blackbox.c:20-35` | the operations that count are exactly the logs with no clear after them, in order |
| `BlackBox.MemoryReports` | `1.Demo/3.tools/8.blackbox/blackbox.c:13-53` | memory and file are the records, time, code and text, of the last 100 operations that count, or of all if there are fewer |
| `BlackBox.ShortTextKept` | `1.Demo/3.tools/8.blackbox/blackbox.c:31-53` | a text of at most 255 characters is exported unchanged as long as it is among those, whatever restarts there were |
| `BlackBox.FileIsLastPersisted` | `1.Demo/3.tools/8.blackbox/blackbox.c:37-53` | whatever fails, a restart brings back what memory held after the last operation that reached the file |
| `BlackBox.Drive` | `1.Demo/3.tools/8.blackbox/blackbox.c:13-97` | the program driven through any sequence of operations exports what the unbounded log says, and when they reach the file exactly the records of the operations that count |
| `HexCodec.FlipString` | `1.Demo/1.syntax_interface/10.convert/conv_str_hex.c:36-49` | the text is reversed in place; the terminator and what follows are unchanged |
| `HexCodec.ConvertStrToHex` | `1.Demo/1.syntax_interface/10.convert/conv_str_hex.c:57-71` | the in-place loop fills exactly the bytes of the encoding and no others |
| `HexCodec.ConvertHexToStr` | `1.Demo/1.syntax_interface/10.convert/conv_str_hex.c:87-91` | the written and flipped digits are the decoding of the bytes |
| `HexCodec.OutputFits` | `1.Demo/1.syntax_interface/10.convert/conv_str_hex.c:102-104` | digits and terminator fit the output buffer if and only if the string has at most 62 characters |
| `HexCodec.EncodeValue` | `1.Demo/1.syntax_interface/10.convert/conv_str_hex.c:60-71` | the bytes, read little-endian, have the numeral's value |
| `HexCodec.EncodeOrder` | `1.Demo/1.syntax_interface/10.convert/conv_str_hex.c:60-71` | of two lower-case numerals of the same length, the one whose characters come first has the smaller bytes, read little-endian, and only equal numerals have equal ones |
| `HexCodec.EncodeExtremes` | `1.Demo/1.syntax_interface/10.convert/conv_str_hex.c:60-71` | all zeros denote 0 and n times f denote 16 to the n minus 1 |
| `HexCodec.EncodeIgnores` | `1.Demo/1.syntax_interface/10.convert/conv_str_hex.c:65-71` | neither the case of the digits nor a character that is no digit, which counts as 0, matters |
| `HexCodec.DecodeEncode` | `1.Demo/1.syntax_interface/10.convert/conv_str_hex.c:51-95` | decoding the encoding gives the string in lower case, padded to even length, if and only if it is a hexadecimal numeral |
| `HexCodec.EncodeDecode` | `1.Demo/1.syntax_interface/10.convert/conv_str_hex.c:51-95` | bytes to string to bytes is the identity |
| `HexCodec.Convert` | `1.Demo/1.syntax_interface/10.convert/conv_str_hex.c:102-115` | the program on every line its input buffer admits: value, round trip and inverse for 1 to 63 characters, nothing written behind the output buffer for up to 62 and exactly the terminator for 63, and for an empty line the reversal of what the memory held |

## Left out

- The other demos of the repository: thin wrappers over system calls, smaller variants of
  what is modelled here, or code whose natural claims do not hold (the two older C memory
  pools and the C++ one keep a first request's capacity and do not count fresh blocks).
- Printing, labels, backtraces, time stamps other than as values, and the conversion of
  error codes to names: they take no part in the algorithms.
- Address alignment of the pools beyond offsets that are multiples of 4.
- Failure of the one malloc that obtains each heap's pool, which the allocators do not check.
- Frees of pointers that were never handed out, or twice: the heaps do not check for them.
  The slab pool's check is stated for blocks on a free list (`DoubleFreeAborts`); a second
  free of a block that was handed out again meanwhile, or returned to the system, is not.
- SlabPool requests so large that header, payload and guard wrap size_t are outside the
  runs; `TotalSizeCovers` says which those are. Changing the protection mode during a run,
  and clients that write outside their blocks, are outside them too.
- The slab pool's free(NULL), which does nothing, and the leak report, which walks the same
  list as the statistics.
- WorkerPool: the walk to the tail of the linked queue is one step that appends to a
  sequence, the counter has no 32-bit bound, and a second, concurrent pool_destroy call,
  which the unlocked test does not exclude, is not modelled.
- TaskPool: futures, exceptions thrown by tasks and the memory of task objects.
- BlackBox: a file that some other program wrote, and writes that fail half way.
- HexCodec.Convert: what the terminator of a 63-character line overwrites behind the output
  buffer is memory of the caller's frame; what follows from that is not modelled.
- HexCodec: reading one digit with strtol is a table lookup; in the program the character it
  reads is not followed by a terminator. The command-line branch of the program, which
  copies its argument without a terminator, is not modelled.
