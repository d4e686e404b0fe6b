# A model of the kernel and its image writer

This project models the parts of a small x86 teaching kernel where state is shared and shuffled behind a caller's back,
and of the tool that writes its disk images. It proves what those parts promise, over every run and every input.

- **Paging** (`PageState`, `PageSteps`, `PageEntrySteps`, `PageCacheSteps`, `PageRuns`, `PageFaults`, `PageWitness`, `Pager`): page
  tables, the swap map, the swap cache with its two lists, shared memory, copy on write. A state machine whose runs
  refine plain memory, and the code of `swap.c`, `vmm.c`, `pmm.c` and `shmem.c` as methods that make its steps.
- **Memory areas** (`Rb*`, `Vma*`): the red-black tree with its sentinel, and `mm_map`, `mm_unmap`, `mm_brk`,
  `find_vma` and `get_unmapped_area` over a list and a tree as operations on a map from addresses to flags.
- **Page and object allocators** (`Buddy*`, `Slab*`): canonical free blocks, exact allocation and freeing of ranges;
  free chains, disjoint objects, exact accounting.
- **The file system** (`Sfs*`): the block map with its three levels, ownership of every block, reads and writes as
  operations on a flat byte file, truncation, reclaiming, and the exact number of blocks each of them needs.
- **The image writer** (`Mksfs`, `MksfsLaws`): appending through the cached index pointers, the freemap, and the round
  trip from a source file to what the kernel reads.
- **Processes** (`Pids`, `Timers`, `RunQueues`, `Semaphores`): the pid cache, the delta timer list, the multi-level run
  queues, and semaphores that hand units over, under every interleaving.

`Lists` holds what all of them use. `dafny verify dfyconfig.toml` checks the project.

Code that updates state in place is a class whose methods are proved against functions of the old state; the properties
over whole runs are lemmas about those functions. Answers of the allocator, the disk and the page-table walk are
parameters, so every statement holds for each of them. Interrupt-free sections of the scheduler and the semaphores, and
the stretches of the pager between the points where it can be preempted, are single steps.

## Where the code falls short

Some properties one would expect fail. In each case the model keeps the code's behaviour and gives the exact condition.

- A write fault that keeps its page inserts the page over itself, which drops PTE_D. If the page differs from the disk
  and nothing else marks it, the fact is forgotten until the retried store (`PageEntrySteps.ReuseExact`, an
  if-and-only-if). If kswapd runs in between, the bytes are lost (`PageRuns.ForgottenPageIsLost`), and such a state can
  be reached from boot (`PageWitness.ForgettingIsReachable`). The runs of `PageRuns.RunRefines` take that fault and its
  retried store as one step; split in two, the refinement holds exactly when the condition does.
- An extension that runs out of space keeps the blocks it got. The file is then larger in blocks than its size takes,
  unless not even one block fitted (`SfsLaws.FailedExtension`), and truncating it to the size it has trips the assertion
  at line 823 of sfs_inode.c. `SfsFs.Sfs.TruncateFile` asks for a settled file in that one case only.
  `Mksfs.FailedSeek` shows it on a concrete disk.
- A shrink that ends inside a block leaves the old bytes behind the new end, and a later extension shows them
  (`SfsLaws.TruncatedMeans`, an if-and-only-if; `Mksfs.StaleByte` on a concrete disk). The kernel's own callers truncate
  to 0 or extend.
- A write that starts past the last block and gets no block still raises the size. Whether it will is known before it
  (`SfsLaws.RoomAfter`, an if-and-only-if; `Mksfs.FailedWrite` on a concrete disk).
- The assertion in `sfs_block_load_nolock` that the index is not beyond the end holds for a write if and only if its
  offset is not beyond the block after the last one, which is what `SfsFs.Sfs.IoWrite` asks for.
- `buddy_free_pages` trips its assertion on the order for ranges beyond an exact bound (`BuddyPmm.FreeArea.FreePages`,
  with `BuddyPmm.FreeTooMany` as an example). The kernel's own callers free what they allocated, which is within it.
- The assertion in `__up` fails on a user semaphore whose first waiter was interrupted (`Semaphores.UpAssertion`,
  `Semaphores.InterruptedWaiter`).
- Fork conserves the total slice only for a parent with 2 to 17 ticks (`RunQueues.ForkConserves`), and a fork that runs
  out of memory costs the parent half of its slice (`RunQueues.FailedForkLoses`).
- `do_page_fault` answers 0 without resolving the fault when the swapped-in page must be copied and there is no page for
  the copy (`Pager.Kernel.FaultOnSwapped` and `Pager.Kernel.DoPageFault`, if-and-only-ifs on the state before;
  `PageWitness.StallIsReachable` reaches one from boot). The access faults again.
- `do_fork` tests the number of processes long before it counts its own, so the limit can be passed. Pids still suffice,
  because at most every process is forking at once (`Pids.ProcessTable.ForkCommit`).
- `alloc_cache_block` of the image writer enters its blocks under hash 0, so that a search for one would miss. The search
  is never needed (`MksfsLaws.PointersHold`).

## Model

| member | source | states |
|---|---|---|
| PageRuns.StepRefines | kernel/mm/swap.c:173-608 | Each of the 24 steps (kswapd, the branches of a fault, loads and stores, fork, unmapping) keeps exact counts, the cache bijection, the list rule, sole writers, shared-memory coherence and the dirty rule, and moves the memory a program sees only as that step says |
| PageRuns.RunRefines | kernel/mm/swap.c:122-608 | Along every run from a state that meets the invariant, every state meets it and each step refines plain memory, in which every mapped slot simply holds its own bytes |
| PageRuns.PagingIsInvisible | kernel/mm/swap.c:452-608 | Over a whole run, a mapped slot reads the same bytes at the end as at the start (from its page, the cached page of its swap entry, or the disk) unless a step stored to it, to a slot sharing its memory, or unmapped it |
| PageRuns.PagingRefines | kernel/mm/swap.c:232-608 | No step of swap-out, refill, launder (begin, transfer, end), entry stealing or swap-in changes any byte a program sees |
| PageRuns.FaultRefines | kernel/mm/vmm.c:747-867 | Each branch of a fault keeps the invariant and makes at most the faulting slot, or its shared-memory page, appear |
| PageRuns.ProgramRefines | kernel/mm/vmm.c:498-538 | Loads and stores that do not fault, copy_range on an entry and page_remove_pte keep the invariant; a store changes exactly the slots that must see it, and fork gives the child the parent's bytes |
| PageRuns.BootInv | kernel/mm/swap.c:91-120 | The state after boot, with every page free and every swap entry unused, meets the invariant |
| PageRuns.ReachKeeps | kernel/mm/swap.c:452-608 | Whatever the steps reach meets the invariant, and a run of paging steps alone leaves plain memory as it was |
| PageEntrySteps.StoreReach | kernel/mm/vmm.c:519-533 | Through a writable entry, another entry stands for the same page, present or swapped out, exactly when the two must see each other's stores: itself for private memory, all mappings of one shared-memory page otherwise |
| PageEntrySteps.SharedUnowned | kernel/mm/shmem.c:134-178 | No private writable entry ever stands for a shared-memory page |
| PageState.WriterIsAlone | kernel/mm/vmm.c:787-863 | The page of a private writable entry is named by no other entry, present or swapped out |
| PageEntrySteps.ReuseExact | kernel/mm/vmm.c:843-858 | The bare fault that keeps its page and only sets PTE_W keeps the invariant if and only if it does not forget: the cached page equals the disk, is PG_dirty, is marked by another entry, or is being written. So the dirty rule can fail until the retried store |
| PageRuns.ForgottenPageIsLost | kernel/mm/vmm.c:843-858 | Whenever it does forget, three steps of kswapd before the retried store (swap the entry out, move the page to the inactive list, drop it as clean) leave the slot with the old bytes of the disk instead of its own |
| PageWitness.ForgettingIsReachable | kernel/mm/vmm.c:843-858 | A run of fifteen steps from boot, in an order the kernel makes them (swapped out, written and freed, read in by a write fault, stored to, shared with a child that goes away), reaches a state in which it forgets |
| Pager.Kernel.DoPageFault | kernel/mm/vmm.c:686-876 | -E_INVAL exactly for an address outside every area, in a stack guard page, a write to an area without VM_WRITE, or a read that is present or of an area without VM_READ and VM_EXEC; every other answer is the one PageFaults.FaultAnswers spells out for the state before; the access completes if and only if the answer is 0 and the fault does not stall, so always when pages, table and disk are at hand, and then changes exactly what it asks for; otherwise nothing a program sees changes |
| Pager.Kernel.FaultOnEmpty | kernel/mm/vmm.c:747-786 | First access: a new private page, or the one page of the shared memory, mapped with the area's write permission |
| Pager.Kernel.FaultOnSwapped | kernel/mm/vmm.c:787-867 | A swapped-out slot comes back, writable when the access needs it, with no visible change; the answer is 0 without the access being resolved if and only if it is a write to a private page that has another name, the page is cached or can be read in, and there is no page to copy it to |
| PageWitness.StallIsReachable | kernel/mm/vmm.c:843-850 | A run of seven steps from boot reaches a state with no free page in which a write fault stalls so |
| PageFaults.WeightMeans | kernel/mm/vmm.c:843-849 | page_ref plus swap_page_count is the number of entries that stand for the page, present or swapped out, plus one while it is being written; so a private page is copied if and only if some other entry stands for it or it is being written |
| PageFaults.FaultAnswers | kernel/mm/vmm.c:747-863 | What the answer is by what the entry names: a first access needs a page, a page on disk needs the cache or a page and a good read, a present private page needs one exactly when another entry stands for it or it is being written; the fault stalls exactly when a page brought in must be copied so and there is none; with both pages and a good read it never fails |
| Pager.AccessedMeans | kernel/mm/vmm.c:686-876 | After a store the slot reads the new bytes, so does exactly every entry of the same shared-memory page, and no other slot changes |
| Pager.Kernel.FaultOnProtected | kernel/mm/vmm.c:794-863 | A write to a protected private page copies it if anything else names it and reuses it otherwise; the store reaches that slot alone |
| Pager.Kernel.SwapInPage | kernel/mm/swap.c:342-393 | The cached page if there is one, else -E_NO_MEM, -E_SWAP_FAULT or the page read in, decided exactly; no entry and no count changes |
| Pager.Kernel.TryAllocSwapEntry | kernel/mm/swap.c:232-290 | 0 exactly when no entry is unused and none is unnamed; else the first unused entry round from the cursor, and only without one the first unnamed one, whose page is given up |
| Pager.ScanSwapMap | kernel/mm/swap.c:232-268 | One turn from the cursor finds the first unused entry, else the first unnamed one, and moves the cursor behind what it found |
| Pager.Kernel.SwapPageAdd | kernel/mm/swap.c:173-198 | A page enters the swap cache dirty with an entry nobody names; it fails exactly when the swap map is full |
| Pager.Kernel.Discard | kernel/mm/swap.c:293-313 | A cached page that nobody names goes, its entry becomes unused, and no program can tell |
| Pager.Kernel.SwapOutEntry | kernel/mm/swap.c:534-608 | An accessed entry only loses PTE_A; any other present one becomes its swap entry unless the page has none and no entry of the swap map is free or to be stolen; the shared-memory entry follows with the last user; the panic needs a count at its limit |
| Pager.Kernel.SwapOutVma | kernel/mm/swap.c:534-608 | The answer is the number of pages of the range that went out, at most the wanted number; when it is less, every page of the range has lost PTE_A, and one that had none before and is still there has no swap entry in a swap map with none left; swap_address ends behind the last page that went out and stays if none did; nothing visible changes |
| Pager.Kernel.RefillInactiveScan | kernel/mm/swap.c:515-530 | Exactly the unmapped pages leave the active list, in order, for the tail of the inactive list; every mapped one stays |
| Pager.Kernel.LaunderOne | kernel/mm/swap.c:452-511 | A mapped page goes to the active list, an unnamed or clean one is freed, a dirty one is freed once written and kept dirty if the write fails; no other page is touched |
| Pager.Kernel.PageLaunder | kernel/mm/swap.c:452-511 | By the state before: every mapped page ends on the active list, in order behind what was there; every other that is unnamed, clean or whose write succeeds ends free and out of the cache; exactly the rest stays inactive, cached and dirty; the answer is the number freed; it panics if and only if some unmapped dirty page has a count at the limit; nothing visible changes |
| Pager.Kernel.LaunderWrite | kernel/mm/swap.c:477-487 | While a page is pinned for writing, the bytes that reach the disk may be any the page had: a store during the transfer is not lost |
| Pager.Kernel.CopyRange | kernel/mm/vmm.c:498-538 | The child's pages read as the parent's up to the page it stopped at, the parent's do not change, and nothing else appears; -E_NO_MEM if and only if some page of the range has an entry and no page table can be had for it, and then it stops at the first such page; the panic needs a count at its limit |
| Pager.Kernel.PageRemovePte | kernel/mm/pmm.c:317-340 | The slot is gone, no other slot changes, and a swap entry left with no name and no mapped page is not kept |
| Pager.Kernel.InsertSame | kernel/mm/pmm.c:349-366 | page_insert of the page already there: the entry keeps its page and loses PTE_D |
| RbTree.Tree.Insert | kernel/lib/rbtree.c:205-236 | Search order, parent links, black root, no red edge below red and equal black height are kept; the in-order sequence gains exactly z, behind every node that starts no later |
| RbTree.Tree.Delete | kernel/lib/rbtree.c:371-410 | The same invariants are kept and the in-order sequence loses exactly z |
| RbTree.Tree.InsertFixup | kernel/lib/rbtree.c:127-203 | From a tree whose only fault may be a red node below a red one, the loop ends in a red-black tree with the same in-order sequence |
| RbTree.Tree.DeleteFixup | kernel/lib/rbtree.c:256-369 | From a tree one black node short at one place, possibly at the sentinel, the loop ends in a red-black tree with the same in-order sequence |
| RbSpin.RotLKeeps | kernel/lib/rbtree.c:17-45 | Rotating the links at a node makes the rotated shape there, at the root or below, with every link and parent right and all else as it was |
| RbSpin.RotRKeeps | kernel/lib/rbtree.c:47-71 | The mirror image |
| RbGraft.TransplantEffect | kernel/lib/rbtree.c:239-254 | What transplant writes: the parent's link, or the root, and the parent of the node put there, which may be the sentinel |
| RbGraft.Graft | kernel/lib/rbtree.c:239-254 | With those writes another subtree stands where one stood, and the tree around it is the same |
| RbTree.Tree.Successor | kernel/lib/rbtree.c:104-125 | The next node of the in-order sequence, the sentinel after the last |
| RbTree.Tree.Predecessor | kernel/lib/rbtree.c:73-102 | The previous node of the in-order sequence, the sentinel before the first |
| VmaMap.Mm.FindVma | kernel/mm/vmm.c:74-105 | The lowest area that ends above the address, whether the cache, the tree or the list answers, and the cache remembers it |
| VmaMap.Mm.FindRb | kernel/mm/vmm.c:53-72 | The descent through the tree finds the lowest area that ends above the address |
| VmaMap.Mm.InsertVma | kernel/mm/vmm.c:141-188 | The area enters list and tree at its place, the tree is built when the list reaches 32, the count is the length, and exactly its addresses become mapped |
| VmaMap.Mm.RemoveVma | kernel/mm/vmm.c:218-229 | The area leaves list and tree, the cache forgets it, and exactly its addresses become unmapped |
| VmaMap.Mm.MmMap | kernel/mm/vmm.c:262-294 | -E_INVAL exactly when the rounded range leaves user space or meets an area, told by the two bounds and the bytes asked for; -E_NO_MEM exactly without a node; else exactly the pages of the bytes asked for are mapped, with VM_SHARE cleared; a failure changes nothing |
| VmaMap.Mm.MmUnmap | kernel/mm/vmm.c:410-476 | Exact subtraction of the pages of the bytes asked for, splitting an area around them if need be, and the page ranges given up are exactly those mapped before; -E_INVAL exactly outside the two bounds of user space; -E_NO_MEM exactly when a split finds no node, and then nothing changes |
| VmaMap.Mm.MmBrk | kernel/mm/vmm.c:191-216 | The pages of the bytes asked for are overwritten with readable and writable memory, joined to the area before them when that has the same flags; -E_INVAL exactly outside the two bounds of user space; if the new area cannot be made the range stays unmapped |
| VmaAreas.RangeIs | kernel/mm/vmm.c:263-270 | The rounded range is the bytes that share a page with some byte asked for |
| VmaAreas.AccessIs | kernel/mm/vmm.c:263-270 | A non-empty range lies in user space once rounded if and only if it did before, between 0x00200000 and 0xB0000000 |
| VmaMap.Mm.UnmapAreas | kernel/mm/vmm.c:438-474 | The two loops that take areas off, trim them and put them back subtract exactly the range |
| VmaMap.Mm.SplitArea | kernel/mm/vmm.c:424-436 | A range inside one area: two areas remain and exactly the range is gone |
| VmaMap.Mm.GetUnmappedArea | kernel/mm/vmm.c:365-390 | The highest start in user space whose range misses every area; 0 exactly when there is none or the length is 0 |
| BuddyPmm.FreeArea.InitMemmap | kernel/mm/buddy_pmm.c:26-51 | A zone of any size is cut into aligned blocks that cover it exactly, and the free lists stay canonical |
| BuddyPmm.FreeArea.AllocSub | kernel/mm/buddy_pmm.c:63-87 | Succeeds exactly when an aligned run of 2^order free pages exists, takes such a run and leaves all else free |
| BuddyPmm.FreeArea.AllocPages | kernel/mm/buddy_pmm.c:89-99 | Succeeds exactly when an aligned run of 2^get_order(n) free pages exists; then n contiguous pages that were free are held and every other page stays free |
| BuddyPmm.FreeArea.FreeSub | kernel/mm/buddy_pmm.c:118-146 | Coalescing ends with the run free, in blocks none of which could be merged further |
| BuddyPmm.FreeArea.FreePages | kernel/mm/buddy_pmm.c:148-176 | Any held range is cut into aligned blocks that cover it exactly; the assertion on the order holds if and only if n is less than 2^(MAX_ORDER+1) plus the distance from the start to the next multiple of 2^(MAX_ORDER+1) |
| BuddyPmm.FreeTooMany | kernel/mm/buddy_pmm.c:148-176 | It fails on a concrete range: a caller that holds two blocks of the largest order side by side cannot free them in one call |
| BuddyPmm.FreeArea.AllocThenFree | kernel/mm/buddy_pmm.c:89-176 | Freeing what was just allocated leaves the same free pages and the same free blocks |
| BuddyPmm.FreeUndoesAlloc | kernel/mm/buddy_pmm.c:63-146 | Whenever a range is taken and given back, the free blocks are the same as before |
| BuddyPmm.FreeArea.NrFreePages | kernel/mm/buddy_pmm.c:178-185 | The number of free pages |
| BuddyPmm.GetOrder | kernel/mm/buddy_pmm.c:53-61 | The least order whose blocks hold n pages |
| BuddyBlocks.BlocksAreMaximal | kernel/mm/buddy_pmm.c:101-146 | With no two free buddies below MAX_ORDER, the free blocks are exactly the largest aligned runs of free pages |
| BuddyBlocks.BlocksUnique | kernel/mm/buddy_pmm.c:118-146 | So the set of free pages determines the set of free blocks |
| BuddyBlocks.RunIffBlock | kernel/mm/buddy_pmm.c:63-70 | A free block of order k or more exists exactly if some aligned run of 2^k pages is free |
| SlabGeometry.CacheEstimate | kernel/mm/slab.c:97-125 | The object count is the largest whose objects and control block fit the slab, and the remainder is what is left |
| SlabGeometry.CalculateSlabOrder | kernel/mm/slab.c:130-160 | The least order whose waste is at most an eighth; each panic only when no order will do or a control block would be too small |
| SlabGeometry.ChoiceIs | kernel/mm/slab.c:130-160 | For each of the 13 kmalloc caches neither panic can happen, and the order and count chosen are known |
| SlabGeometry.InitKmemCache | kernel/mm/slab.c:176-203 | Control blocks move out of the slab from 512 bytes on, and the cache they come from is large enough; objects and an in-slab control block fit |
| SlabGeometry.GetOrder | kernel/mm/slab.c:163-173 | The least size class that holds n bytes |
| Slab.KmemCache.Grow | kernel/mm/slab.c:249-294 | A new slab with every object free, or nothing at all; no live object changes |
| Slab.KmemCache.Alloc | kernel/mm/slab.c:296-330 | Fails exactly when no slab has a free object and none can be made; else gives an object that was not live and makes exactly that one live |
| Slab.KmemCache.Free | kernel/mm/slab.c:361-404 | The object is found from its address, exactly it stops being live, and a slab without live objects is released |
| Slab.KmemCache.DestroySlab | kernel/mm/slab.c:343-359 | Exactly that slab leaves the cache with its page back references, and no object but the one being freed stops being live |
| Slab.KmemCache.Allocated | kernel/mm/slab.c:66-89 | One cache's share: object size times the number of live objects |
| Slab.SlabAllocated | kernel/mm/slab.c:66-89 | The total over all caches is the sum of the sizes of the live objects |
| SlabPool.LiveApart | kernel/mm/slab.c:249-294 | Live objects of any caches never overlap, control blocks outside their slabs among them |
| SlabPool.ControlApart | kernel/mm/slab.c:212-228 | No object a caller holds overlaps the slab_t or the bufctl array of any slab of any cache, inside its slab or outside |
| SlabKmalloc.Kmalloc.constructor | kernel/mm/slab.c:55-64 | The thirteen caches start without slabs, no page belongs to one, and nobody holds an object |
| SlabKmalloc.Kmalloc.Take | kernel/mm/slab.c:309-320 | One more object of that cache is live, and nothing else changes in any cache |
| SlabKmalloc.Kmalloc.AddSlab | kernel/mm/slab.c:249-294 | The pages of the new slab belonged to no slab; a control block outside is an object of another cache that nobody else uses |
| SlabKmalloc.Kmalloc.Alloc | kernel/mm/slab.c:249-330 | Nothing comes back if and only if a slab is needed and its pages, or its control block outside, cannot be had, and then no cache has changed; else callers hold exactly one object more, and no page is lost |
| SlabKmalloc.Kmalloc.Malloc | kernel/mm/slab.c:332-339 | The same for the cache of the least size that is enough |
| SlabKmalloc.Kmalloc.Free | kernel/mm/slab.c:343-404 | The object leads to its cache; callers hold exactly one object less, a slab that empties goes with its control block, and no page is lost |
| SlabCache.ChainUnique | kernel/mm/slab.c:296-307 | The bufctl links determine the chain of free objects: acyclic, ended by BUFCTL_END |
| SlabCache.ObjectsApart | kernel/mm/slab.c:296-307 | Two objects of a cache never overlap |
| SlabCache.HeadersApart | kernel/mm/slab.c:212-228 | No object overlaps a control block kept in a slab |
| SlabCache.FindObject | kernel/mm/slab.c:361-400 | From the address of an object, its page leads to its slab and the division to its index |
| SlabCache.PopKeeps | kernel/mm/slab.c:296-307 | Taking the head of a chain keeps every chain exactly the unallocated indices, of length num minus inuse, and the full and partial lists right |
| SlabCache.PushKeeps | kernel/mm/slab.c:361-380 | Putting an index back keeps the same |
| SfsFs.Sfs.BlockGet | kernel/fs/sfs/sfs_inode.c:207-262 | The block number found or created at an index, direct, indirect or double-indirect, with the exact number of free blocks a creation needs; a failure stores no data block and changes no file, and an index block made on the way stays owned by the inode |
| SfsFs.Sfs.GetIndirect | kernel/fs/sfs/sfs_inode.c:156-204 | An entry of an index block read or created, with a new index block if there was none, which is given back if the second allocation fails |
| SfsFs.Sfs.BlockLoad | kernel/fs/sfs/sfs_inode.c:320-338 | A block of the file, or a new zero block behind its last one |
| SfsFs.Sfs.IoWrite | kernel/fs/sfs/sfs_inode.c:459-548 | -E_INVAL exactly for the arguments the source refuses, 32-bit overflow included; else exactly the bytes written change, all of them or up to the maximum size, in that file alone; -E_NO_MEM exactly when the free blocks are fewer than the data and index blocks missing, and then it stops at exactly the block that did not fit; afterwards every byte up to the size lies in a block if and only if the block the write starts in needed no space or had it |
| SfsFs.Sfs.IoRead | kernel/fs/sfs/sfs_inode.c:459-548 | The bytes at the offset, as many as asked for or up to the size, zeros where the size reaches past the blocks; blocks that are missing are added, -E_NO_MEM exactly when the free blocks are fewer, and a file with all its blocks is left as it is |
| SfsLaws.ClipIs | kernel/fs/sfs/sfs_inode.c:459-548 | A transfer ends where it was asked to, or at the limit if that comes first |
| SfsLaws.PaddedAt | kernel/fs/sfs/sfs_inode.c:459-548 | What a read returns at each place: the byte of the flat file there, or 0 where it has none |
| SfsFs.Sfs.WriteThenRead | kernel/fs/sfs/sfs_inode.c:459-548 | What was written is read back, over direct, indirect and double-indirect blocks, and every other byte is as before |
| SfsLaws.WroteMeans | kernel/fs/sfs/sfs_inode.c:459-548 | A write from inside the file is the overwrite of its flat bytes, and no other file changes |
| SfsLaws.RoomAfter | kernel/fs/sfs/sfs_inode.c:537-548 | Known before the write: every byte up to the size lies in a block afterwards if and only if the offset is not past the last block or the block it lies in fits with its index blocks |
| Mksfs.FailedWrite | kernel/fs/sfs/sfs_inode.c:537-548 | It fails on a concrete disk: on a full image, a write at offset 100 of an empty file answers -E_NO_MEM and leaves a size of 100 and no block |
| SfsLaws.WroteSound | kernel/fs/sfs/sfs_inode.c:459-548 | A file whose blocks are the rounded-up size, filled up with zeros, stays one, and a gap reads as zeros |
| SfsLaws.WriteSpace | kernel/fs/sfs/sfs_inode.c:498-541 | A transfer reaches its end if and only if there is room for all the blocks it needs |
| SfsFs.Sfs.BlockFreeAt | kernel/fs/sfs/sfs_inode.c:281-318 | Exactly one block leaves its place and becomes free |
| SfsFs.Sfs.FreeIndirect | kernel/fs/sfs/sfs_inode.c:264-279 | An entry of an index block is cleared and the block it named is freed |
| SfsFs.Sfs.BlockTruncate | kernel/fs/sfs/sfs_inode.c:340-350 | The file loses exactly its last block |
| SfsFs.Sfs.TruncateFile | kernel/fs/sfs/sfs_inode.c:810-849 | -E_INVAL exactly for a length below 0 or above the maximum, -E_NO_MEM exactly when the free blocks are fewer than the data and index blocks missing; on success the length and the number of blocks are the ones asked for, in that file alone; on -E_NO_MEM the file keeps its size and has as many blocks as fitted |
| SfsLaws.TruncatedMeans | kernel/fs/sfs/sfs_inode.c:810-849 | Truncation keeps the bytes below the new length and adds zero blocks; the rest of the last block is zero afterwards if and only if it was zero from the new length on, so a shrink inside a block can leave old bytes |
| Mksfs.StaleByte | kernel/fs/sfs/sfs_inode.c:810-849 | It does on a concrete disk: a file of two bytes, cut to one and extended to two, reads its old second byte |
| SfsLaws.TruncatedSound | kernel/fs/sfs/sfs_inode.c:810-849 | A sound file grows by zeros, and growing or emptying it leaves it sound |
| SfsLaws.FittedAt | kernel/fs/sfs/sfs_inode.c:459-548 | What a read that adds missing blocks leaves of the file: its own bytes, and zeros in the blocks added |
| SfsLaws.FailedExtension | kernel/fs/sfs/sfs_inode.c:820-834 | After an extension that ran out of space, blocks is still the rounded-up size, so that the assertion for an unchanged length holds, if and only if not even one more block fitted |
| Mksfs.FailedSeek | kernel/fs/sfs/sfs_inode.c:799-808 | It fails on a concrete disk: on an image with one free block, extending an empty file by two blocks leaves it empty with one block |
| SfsFs.Sfs.Reclaim | kernel/fs/sfs/sfs_inode.c:734-779 | An inode without links returns its data, indirect, second-level and own blocks, each exactly once; every other file keeps its bytes |
| SfsFs.Sfs.BlockAlloc | kernel/fs/sfs/sfs_inode.c:61-71 | A free block, cleared, with the count one lower; -E_NO_MEM exactly when none is free |
| SfsFs.Sfs.BlockFree | kernel/fs/sfs/sfs_inode.c:73-78 | The block becomes free and the count one higher |
| SfsOwn.NoSharing | kernel/fs/sfs/sfs_inode.c:264-350 | No block is in two places of any inodes |
| SfsOwn.EveryBlockAccounted | kernel/fs/sfs/sfs_inode.c:264-350 | Every block in use is in exactly one place, apart from the superblock and the freemap |
| SfsBitmap.Bitmap.constructor | kernel/fs/sfs/bitmap.c:8-41 | Exactly the bits below the size are set, the spare bits of the last word clear |
| SfsBitmap.Bitmap.Alloc | kernel/fs/sfs/bitmap.c:43-61 | The lowest set bit is cleared, -E_NO_MEM exactly when none is set |
| SfsBitmap.Bitmap.Release | kernel/fs/sfs/bitmap.c:78-84 | Exactly that bit is set |
| SfsBitmap.Bitmap.Test | kernel/fs/sfs/bitmap.c:71-76 | Whether the bit is set |
| SfsBitmap.Bitmap.Load | kernel/fs/sfs/sfs_fs.c:90-104 | The map read from disk is the set of free blocks |
| SfsBitmap.Bitmap.Count | kernel/fs/sfs/sfs_fs.c:173-179 | The mount-time loop counts the set bits |
| Mksfs.Image.AllocIno | tools/mksfs.c:181-188 | The next block in order, fails exactly when none is left |
| Mksfs.Image.AllocCacheBlock | tools/mksfs.c:190-198 | A fresh index block, all entries zero |
| Mksfs.Image.UpdateInd | tools/mksfs.c:399-412 | The indirect block exists afterwards, made if it did not, and l1 points to it |
| Mksfs.Image.UpdateDb | tools/mksfs.c:399-412 | The same for the double-indirect block and l2 |
| Mksfs.Image.UpdateSec | tools/mksfs.c:399-412 | The same for an entry of the double-indirect block and l1 |
| MksfsLaws.PointersHold | tools/mksfs.c:399-412 | In every file the writer makes, an index block that exists when an append needs it is the one l1 or l2 points to: the search branch is never needed |
| Mksfs.Image.AppendBlock | tools/mksfs.c:414-441 | The block is stored behind the last one, all other places of all files unchanged; the fatal errors strike exactly at the maximum size or when the missing index blocks do not fit |
| Mksfs.Image.AppendAll | tools/mksfs.c:414-441 | After appending b0, b1, ..., the kernel's block map gives b_i at every index i; fails exactly when too big or the index blocks do not fit |
| MksfsLaws.MissingIs | tools/mksfs.c:414-441 | What an append takes beyond its block is the difference of the numbers of index blocks |
| Mksfs.Image.OpenFile | tools/mksfs.c:547-561 | The file's bytes on the image are the source file's, other files keep theirs, and it fails exactly when too big or when its blocks and index blocks do not fit |
| Mksfs.Image.NewFile | tools/mksfs.c:209-220 | A new inode is an empty file at the next block |
| Mksfs.CreateSfs | tools/mksfs.c:239-271 | A large image is used in part, one without room beside its freemap is refused, else the root is an empty directory and every block is reserved, used or free |
| Mksfs.Image.CloseSfs | tools/mksfs.c:329-366 | The bits of the freemap written are exactly the blocks not handed out |
| Mksfs.Mount | kernel/fs/sfs/sfs_fs.c:106-182 | The freemap just written has exactly unused_blocks set bits, so the mount-time assertion holds, and the mounted system is the image |
| Mksfs.BuildAndRead | tools/mksfs.c:575-590 | Create, write a file, close and mount: sfs_io_nolock reads the bytes of the source file; it fails exactly when the file does not fit |
| Pids.ProcessTable.GetPid | kernel/process/process.c:99-131 | With fewer live processes than pids, a pid nobody has, such that every pid after the last one given out and before it, round the cycle 1..MAX_PID-1, is in use; no live pid lies strictly between last_pid and next_safe afterwards, and the scan ends |
| Pids.ProcessTable.Pass | kernel/process/process.c:109-129 | One pass settles the pid or moves strictly nearer to it, though it does not restart on every bump |
| Pids.ProcessTable.ForkBegin | kernel/process/process.c:421-426 | The test passes exactly below the limit; do_fork may sleep after it, so several forks can pass together |
| Pids.ProcessTable.ForkCommit | kernel/process/process.c:456-467 | However many forks passed together, live processes and forks under way stay below 2 * (MAX_PROCESS - 1), so a pid is left: the child gets the first unused one |
| Pids.ProcessTable.ForkAbort | kernel/process/process.c:474-484 | A fork that gives up adds no process |
| Pids.ProcessTable.Reap | kernel/process/process.c:906-919 | Exactly that pid is free again, and the cached range stays right |
| Pids.FirstFreeUnique | kernel/process/process.c:99-131 | There is one first unused pid |
| Pids.FirstFreeMeans | kernel/process/process.c:99-131 | It is the first unused one if and only if it is unused and every pid on the way to it is in use |
| Timers.TimerList.AddTimer | kernel/schedule/schedule.c:109-128 | The deadlines are the old ones and the new one |
| Timers.TimerList.DelTimer | kernel/schedule/schedule.c:131-147 | The deadlines are the old ones without that timer's, also when it is not queued |
| Timers.TimerList.RunTimerList | kernel/schedule/schedule.c:150-179 | Every deadline is one tick nearer, exactly the timers with one tick left fire, and the assertion on the head holds |
| Timers.OnTime | kernel/schedule/schedule.c:109-179 | In every run a pending timer that is not deleted fires at exactly the tick it was set for and not before, and until then has exactly the ticks left that it should |
| Timers.Once | kernel/schedule/schedule.c:109-179 | It fires once in a run that does not add it again |
| Timers.AddedFires | kernel/schedule/schedule.c:109-179 | A timer added with n fires on the n-th tick after that |
| Timers.RunKeeps | kernel/schedule/schedule.c:109-179 | Between operations the deltas of the list stay in order, and the head's is positive |
| RunQueues.RunKeeps | kernel/schedule/schedule.c:61-107 | Over every run of fork, wakeup, sleep, exit, tick, schedule and reap, a process is in a run queue exactly if it is runnable, not current and not idle; counts are lengths; queued slices are between 1 and the queue's maximum |
| RunQueues.OneQueue | kernel/schedule/schedule_RR.c:13-27 | It is then in one queue, once |
| RunQueues.Scheduler.Schedule | kernel/schedule/schedule.c:80-107 | The running process queues up again, at the tail of the queue its slice asks for, if it can run; the head of the first used queue runs, the idle process exactly when no other can, and no other queue changes |
| RunQueues.IdleIsLast | kernel/schedule/schedule.c:80-107 | The same of the state machine |
| RunQueues.Scheduler.PickNext | kernel/schedule/schedule_MLFQ.c:40-52 | The head of the first used queue, nothing exactly when all are empty |
| RunQueues.Scheduler.EnqueueProcess | kernel/schedule/schedule_MLFQ.c:20-32 | A process that used up its slice joins the tail of the queue one below, from the last it stays, any other joins the first; a slice of 0 or above the maximum becomes the maximum, 8, 16, 32 or 64 ticks by queue |
| RunQueues.Scheduler.DequeueProcess | kernel/schedule/schedule_RR.c:23-27 | Exactly the picked process leaves its queue |
| RunQueues.Scheduler.WakeupProcess | kernel/schedule/schedule.c:61-78 | A sleeping or new process becomes runnable and, unless it is current, joins the tail of the queue it belongs to; a runnable one is left alone, and so is every other process |
| RunQueues.Scheduler.ProcessTick | kernel/schedule/schedule_RR.c:37-44 | The running slice shrinks by 1, to 0 at the least, and at 0 the process must give way; the idle process always must |
| RunQueues.Scheduler.DoFork | kernel/process/process.c:421-484 | The child takes half of the slice, rounded down, and joins the tail of the first queue; when memory runs out after the split the parent keeps only the rest and nothing else changes |
| RunQueues.ForkConserves | kernel/process/process.c:437-440 | The split conserves the slice; once the child is queued the total is the old one if and only if the parent had between 2 and 17 ticks, because enqueueing replaces a slice of 0 or above the maximum |
| RunQueues.FailedForkLoses | kernel/process/process.c:437-484 | A fork that fails later costs the parent half of its slice, unless it had at most one tick |
| Semaphores.RunKeeps | kernel/sync/semaphore.c:24-86 | Over every interleaving: no value is negative, a positive one means no waiters, and a process inside __down is queued or was handed its unit |
| Semaphores.UnitsBalance | kernel/sync/semaphore.c:24-86 | Over every run, counted on its steps: value plus the units taken and handed over is the first value plus the number of ups |
| Semaphores.Fifo | kernel/sync/semaphore.c:24-63 | On a kernel semaphore, over every run: those handed a unit, in order, and then the queue are the first queue and then those that arrived, in order |
| Semaphores.AtMostOneHolder | kernel/sync/semaphore.c:24-86 | A semaphore that starts at 1 and is upped only by those who hold a unit, as the steps of the run say, never has two holders |
| Semaphores.HoldersBalance | kernel/sync/semaphore.c:24-86 | Used as a lock, a semaphore of n units has at most n holders: its value and the number of holders add up to its first value |
| Semaphores.DownSucceeds | kernel/sync/semaphore.c:40-72 | On a kernel semaphore down always sees flags 0; in general 0 exactly when the unit was handed over |
| Semaphores.UpAssertion | kernel/sync/semaphore.c:24-37 | The assertion in __up holds of every kernel semaphore; of a user semaphore if and only if the first waiter was not interrupted while it queued |
| Semaphores.InterruptedWaiter | kernel/sync/semaphore.c:24-37 | It does fail: a process blocks on a user semaphore, is killed, and another ups before it runs |
| Semaphores.Table.Init | kernel/sync/semaphore.c:18-22 | A new semaphore with its value, no waiters and no units granted |
| Semaphores.Table.UpSem | kernel/sync/semaphore.c:24-37 | The first waiter leaves the queue and is handed the unit, awake and marked, and the value stays; only without one does the value grow by 1 |
| Semaphores.Table.DownStart | kernel/sync/semaphore.c:40-52 | A unit is taken exactly if the value is positive, and the value falls by 1; else the process joins the tail of the queue and sleeps |
| Semaphores.Table.DownFinish | kernel/sync/semaphore.c:53-63 | The waiter leaves the queue if it still is in it, and the answer says whether it was handed a unit |
| Semaphores.Table.TryDown | kernel/sync/semaphore.c:74-86 | Takes a unit, and the value falls by 1, exactly when it is positive, and never waits |
| Semaphores.Table.WakeupWait | kernel/sync/wait.c:71-77 | The first waiter leaves the queue, wakes and is marked with the reason it waited for |
| Semaphores.Table.Kill | kernel/process/process.c:486-496 | Only an interruptible wait is ended; the waiter stays in its queue |

## Left out

- SfsFs.Sfs.IoRead: a read whose offset is beyond the block after the last one is excluded, since the source stops there with an assertion.
- SfsFs.Sfs.IoWrite: an offset beyond the block after the last one is excluded, since the source stops there with an assertion.
- Pager.Kernel.CopyRange: the page tables that a failed fork leaves behind in the child are not modelled, since they hold no entry.
- Mksfs.Image.AppendBlock: a cached block stands at its block number from the start; the order in which the caches are flushed is not modelled.
- Mksfs.Mount: inodes and the superblock are handed over as values; their bytes on the disk are not decoded.
- SlabKmalloc.Kmalloc.Alloc: other processes do not allocate while it waits for pages; its parts Take and AddSlab are proved on their own, from any state that meets the invariant.
- VmaMap.Mm.MmUnmap: areas carry flags only; the shared-memory pointer and offset of an area are not modelled.
- Buddy page descriptors: reference counts and the reserved flag are not modelled, the block flag and order are.
- The hash buckets of the swap cache are a map, and its page counters are the lengths of the lists.
- `try_free_pages`, `swap_out_mm` and `kswapd_main`, which choose how much to swap out and where; every choice they could make is a run.
- Shared-memory nodes: which index of a segment an address belongs to is given with the area.
- Inode and superblock serialisation, fsync, device errors and the locks of the file system.
- Directories: entries, names, lookup, and the tree walk of the image writer.
- `default_pmm` and `bestfit_pmm`, allocators that the kernel does not select.
- The FCFS scheduling class, which the kernel does not select.
- System V style semaphore queues, undo lists and user semaphore identifiers, which only wrap the semaphores.
- The process life cycle beyond pids, slices and wait states: exec, exit, threads, signals to groups.
- Drivers, traps, the console, and the user-space library.
