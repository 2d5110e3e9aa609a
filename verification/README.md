# PKernel in Dafny

A model of the parts of PKernel whose correctness rests on several functions
keeping one invariant between them, with proofs of what those parts promise.
`dafny verify dfyconfig.toml` checks everything.

| files | system |
|---|---|
| `cow_*.dfy` | the copy-on-write memory manager: root, borrowed and shared mappings, fork, the write fault, unmap and exit; in `cow_ranges.dfy` the same over the virtual-range allocator, in `cow_stacks.dfy` what becomes of threads' stacks |
| `page_tables.dfy`, `mapper.dfy` | four-level page tables and the mapper that edits them |
| `translation_map.dfy` | the hashed index from physical to virtual addresses |
| `tiling.dfy`, `heap.dfy`, `valloc.dfy` | the boundary-tag heap and the virtual-range allocator, over one theory of cut-up space |
| `sched_state.dfy`, `sched_steps.dfy`, `sched_effects.dfy`, `sched_dispatch.dfy`, `scheduler.dfy`, `sched_calls.dfy` | threads, twins, events, ready queues and dispatch; what each call changes, and runs of system calls and waits |
| `socket_stream.dfy`, `socket_connect.dfy`, `socket_wakeups.dfy` | UNIX sockets: the byte stream with its sleeping readers, and connect/accept with its sleeping acceptors |
| `pkfs_list.dfy`, `pkfs.dfy` | PKFS: directory lists and looking names up; page ownership and chained reads |
| `module_loader.dfy`, `module_answers.dfy` | loading modules, dependencies first, and the code a load returns |
| `wrappers.dfy` | the option type shared by all |

Each system has its state and operations as values and functions, about which the
lemmas speak, and a class whose methods do what the C does, loop by loop, proved
to compute those functions. Integers are unbounded; where a width matters it is
written out (the 64-bit sum in `heap_alloc`, the 9-bit table indices, the 40-bit
frame field).

## What is proved

* **Lazy fork is eager fork.** In every run of process creation, segment creation,
  thread creation, fork, user stores with their faults, unmap and exit, and of roots
  the kernel keeps a handle on and lends (its own image, say), each process sees
  exactly the memory it would see had fork copied every private page on the spot
  (`CowRefines.RunRefines`). A run may begin in any state that has the invariant. The
  eager side (`Eager`) has no roots, counts or faults.
  In the same runs a root's count is the number of handles open on it plus the number
  of mappings lent from it, a frame that is taken is mapped or belongs to a root with
  an open handle, a privately writable frame has one mapping in the whole system, and
  when the last process has gone exactly the roots with open handles remain
  (`CowRuns`). Boot is such a run: the kernel's image is lent to the first process,
  its handle stays open, and its count stays one above its mappings
  (`CowRuns.BootRuns`, `CowRuns.ImageStays`).
  Run through the virtual-range allocator, with address 0 read as "anywhere", every
  placement lands where the manager has it, fork gives the child the parent's very
  list of ranges, and the write fault leaves the list as it was
  (`CowRanges.RunBacked`, `CowRanges.ForkCopiesRanges`).
  However often the mapping under it is replaced, a thread keeps its stack where it is
  until its process exits, and a forked thread runs on the pages its parent runs on
  (`CowStacks.RunStacks`, `CowStacks.ForkedStack`). A page can be executed exactly where
  its process was given that right (`CowRuns.RightsInRuns`).
* **Page tables are a flat map**, rights included; unmapping undoes mapping.
* **The heap's blocks are a function of what is live**, whatever the order of calls;
  its tags, zeroing, isolation and accounting follow.
* **The scheduler's global invariant** holds at every step, `scheduler_yield` picks
  the first runnable thread by priority and arrival, nobody is overtaken in a queue
  or at an event, a killed thread is never dispatched again, and only threads nobody holds
  are freed. From entering the kernel until its twin returns a user thread waits, with
  the twin at work or blocked (`SchedCalls.CallUntilReturn`), and every wait that ends
  is matched by an invocation of its own (`SchedCalls.WaitsMatchInvocations`).
* **Sockets** conserve the byte stream in every interleaving; connectors are served
  in order and paired symmetrically. Readers and acceptors are woken in the order in
  which they fell asleep, and no acceptor sleeps for a request that is not another's to
  take (`SocketWakeups.NobodySleepsForARequest`).
* **PKFS** objects never share a page while disc operations succeed, nor when creating
  or linking fails at any point; a deletion broken off part-way is the exception, and
  what it leaves is stated exactly (below). Creating fails only by a disc error or for
  want of room, linking only by one or a full page, deleting only by one. A file linked
  under a new name is what opening that name finds.
* **Modules**: what a load answers, when it keeps dependencies before dependants, and
  when it succeeds are each an if-and-only-if over the registry
  (`ModuleLoader.LoadAccepts`, `ModuleLoader.LoadOrdered`, `ModuleLoader.LoadSucceeds`),
  and the code returned is that of the one module at fault (`ModuleAnswers.LoadAnswers`).

## Where the code does not keep a promise

Each is kept as the code has it, with the exact condition.

* *No lost wake-up on sockets* is false with several readers: one that is woken and
  takes part of a packet leaves another asleep beside the rest
  (`SocketStream.LostWakeup`). A step keeps the promise exactly when it is not of
  that kind (`SocketStream.WakeupStep`); with one reader at a time it always holds.
* *Every dependency is loaded before an init runs* is false: `module_load` takes
  `ERROR_MOD_LOADED` from a module's own `init` or from sysfs for "already loaded"
  (`ModuleLoader.LyingInit`). It holds exactly when the load is clean: no module that
  the load gets to start has a dependency that lies (`ModuleLoader.LoadOrdered`).
* `delete_file` marks data pages free one by one before it takes the file off its
  directory. If the disc fails after the first of them, the directory still lists a
  file whose pages can be handed out again; they can be found by a search for free
  pages exactly when at least one was written (`Pkfs.HalfDeleted`), the next create
  takes one exactly under the condition of `Pkfs.NextCreateShares`, and
  `Pkfs.DeleteThenShare` is a disc on which it does. It also never writes the file
  node's cleared `in_use`, so that page stays marked (last clause of
  `Pkfs.FileSystem.Delete`).
* In a directory whose list fills more than one page, `delete_file` can hide other
  files: the page it strikes a file off is no longer full, and lookups stop there. Every
  other file is still found exactly when no later page lists any (`Pkfs.DelistedSeen`,
  `PkfsList.StruckHides`).
* `heap_alloc` compares with a sum that wraps: the block found can hold the request
  for every block exactly when `size + 25` fits 64 bits (`Heap.FitsIsSound`); beyond
  that `Heap.Heap.Alloc` ends in `Wild`.
* `heap_realloc` copies the old size: tags survive exactly when it does not shrink
  (`Heap.ReallocKeepsTags`); a shrinking call ends in `Overrun`.
* `valloc_alloc` and `valloc_reserve` accept a request that comes to no pages (zero, or
  rounding that wraps), and `valloc_reserve` one whose end counts as negative; the
  list no longer tiles then (`Wild` in `Valloc.VirtualAllocator.Alloc` and `Reserve`,
  with the exact conditions).
* `paging_unmap` follows tables without looking whether they are there; it reads
  through a null pointer exactly where they are not (`Mapper.AddressSpace.UnmapSingle`).
* `thread_kill` on a dead thread queues it again: safe exactly under the condition
  of `SchedSteps.KillOk`; likewise `thread_run` (`SchedSteps.RunOk`) and
  `scheduler_queue` (`SchedSteps.QueueOkWhen`).
* `unix_socket_listen` on a socket with pending requests drops them but not the
  sleepers (`SocketConnect.ListenOk`); asking twice, or when connected, breaks order
  or pairing (`SocketConnect.ConnectOk`), as does accepting the request of a connected
  socket (`SocketConnect.AcceptPairs`).
* Unmapping a thread's stack leaves the thread pointing at it (`CowStore.UnmapOk`).
* A key entered twice in the translation map may go on translating to the old
  address (`TranslationMap.InsertedFind` says when).

## Model

| member | source | states |
|---|---|---|
| `CowBase.AddRootBase` | source/src/paging/manager.c:120-207 | a new root with one reference keeps counts, frame ownership, page tables and lists exact |
| `CowBase.AddReferenceBase` | source/include/paging/manager.h:107-114 | one more handle, one more reference: counts stay exact |
| `CowBase.AddLendBase` | source/src/paging/manager.c:209-347 | lending a root at a free span keeps everything exact: one more reference, one entry per page |
| `CowBase.DropBase` | source/src/paging/manager.c:349-437 | unmapping a lent mapping removes its pages and one reference; the root's frames go exactly at zero |
| `CowBase.ReleaseBase` | source/src/paging/manager.c:349-400 | giving back an owner handle keeps counts exact |
| `CowView.ViewAddLend` | source/src/paging/manager.c:209-347 | lending adds exactly the root's pages to the process's view |
| `CowView.ViewDrop` | source/src/paging/manager.c:349-437 | unmapping takes exactly the mapping's pages from the process's view and changes no other |
| `CowFault.SoleBorrower` | source/src/paging/manager.c:522-522 | a count of one means this mapping is the only one on its root |
| `CowFault.PromoteOk` | source/src/paging/manager.c:522-539 | promoting the last borrower keeps the invariant, changes what no process sees, and leaves the mapping SHARED at its address |
| `CowFault.CopyAwayOk` | source/src/paging/manager.c:541-567 | copying away from a shared root keeps the invariant and changes what no process sees |
| `CowFault.PrepareWriteOk` | source/src/paging/manager.c:512-574 | the write fault is invisible in every process, keeps the invariant, and makes the page a SHARED mapping; on its own root with nothing taken if nobody else uses that, on a new root with the new frames otherwise |
| `CowFault.PromoteRoots` | source/src/paging/manager.c:522-539 | the last borrower stays on its root; no frame is taken or given back |
| `CowFault.CopyAwayRoots` | source/src/paging/manager.c:541-567 | a copy is alone on a new root of the new frames; the old root loses one reference |
| `CowFault.CreateSegmentBase` | source/src/process/process.c:187-193 | a segment appears in its process with its initial contents, and in no other view; counts stay exact |
| `CowFault.CreateSegmentOk` | source/src/process/process.c:187-193 | creating a segment keeps the whole invariant |
| `CowFault.CreateSegmentLends` | source/src/process/process.c:187-193 | exactly one mapping is new, SHARED, where and with the rights asked for, and one root of the kind asked for with one reference |
| `CowFork.ForkOneOk` | source/src/process/process.c:84-118 | one turn of fork's loop gives the child a window of the parent's view and changes no other view |
| `CowFork.ForkAllOk` | source/src/process/process.c:84-118 | the whole loop gives the child every window in turn, and never stops short |
| `CowFork.ForkOnePlaces` | source/src/process/process.c:104-116 | one turn leaves every thread's stack where it was, and gives the child a mapping of the same root at the same pages |
| `CowFork.ForkAllPlaces` | source/src/process/process.c:84-118 | so does the whole loop, for every mapping of the parent |
| `CowFork.CloneStackOk` | source/src/process/thread.c:78-78 | the child's thread gets the child's mapping at the place of the parent's first stack; nobody else's stack changes |
| `CowFork.ForkOk` | source/src/process/process.c:62-132 | after fork the child's view equals the parent's, all others are unchanged, the invariant holds; every thread keeps its stack, and the child's one thread has its stack at the pages of the parent's first |
| `CowStacks.StepStacks` | source/src/process/process.c:214-220 | whatever the step, every thread of a process that does not exit keeps its stack: same pages, same rights |
| `CowStacks.RunStacks` | source/src/process/process.c:214-220 | the same over any stretch of any run |
| `CowStacks.ForkedStack` | source/src/process/thread.c:63-88 | after a fork, as long as neither exits, the child's thread runs on the pages the parent's first thread runs on, each in its own process |
| `CowStore.WritableEntry` | source/src/paging/manager.c:239-270 | a page-table entry is writable iff its mapping is SHARED with write permission, never for a BORROWED one; it is executable iff the mapping has that right |
| `CowStore.ExclusiveWriter` | source/src/paging/manager.c:281-347 | a frame writable without PMAN_PROT_SHARED is mapped at one page of one process |
| `CowStore.WriteOk` | source/src/paging/manager.c:281-347 | a store through a writable entry changes the views as the eager store does |
| `CowStore.UserStoreOk` | source/src/paging/manager.c:578-675 | a user store, fault included, does what the eager store does, and nothing without write permission |
| `CowStore.UnmapOk` | source/src/paging/manager.c:349-437 | unmapping any mapping changes views as the eager unmap does and keeps counts, tables and modes; the whole invariant stays iff it is no thread's stack |
| `CowExit.DropAllOk` | source/src/paging/manager.c:98-101 | the loop of pman_free_context ends with the list empty and every reference given back |
| `CowExit.ExitOk` | source/src/paging/manager.c:98-112 | exit removes the process's view, changes no other, and returns exactly the roots nobody else holds |
| `CowKept.KeepOk` | source/system/x86_64/src/paging/map_kernel.c:65-68 | a root the kernel adds for itself keeps the invariant and is seen by no process |
| `CowKept.LendKeptOk` | source/system/x86_64/src/paging/map_kernel.c:71-73 | lending a root whose handle stays open shows one process exactly its pages; the invariant stays iff the root is lent to nobody else or is shared to all |
| `CowKept.LetGoOk` | source/src/paging/manager.c:349-400 | giving up a kept root keeps the invariant and is seen by no process |
| `CowRefines.StepRefines` | source/src/process/process.c:62-132 | each step keeps the invariant and commutes with the eager step |
| `CowRefines.RunRefines` | source/src/paging/manager.c:512-574 | over every run, from any state with the invariant, each process sees what eager copying from there would show it |
| `CowRefines.BootRefines` | source/src/paging/manager.c:512-574 | the same from an empty system |
| `CowRuns.RunHandles` | source/src/paging/manager.c:120-207 | in every run the handles open on a root are those at the start with what the kernel opened and closed since |
| `CowRuns.CountsInRuns` | source/src/paging/manager.c:209-437 | in every run references equal open handles plus live mappings lent from the root, above zero; no handle or mapping is on a root that is gone |
| `CowRuns.TakenFramesAreMapped` | source/src/paging/manager.c:349-437 | in every run a taken frame is mapped in some process or belongs to a root with an open handle: nothing leaks |
| `CowRuns.AllExited` | source/src/paging/manager.c:98-112 | once the last process has exited exactly the roots with open handles, and exactly their frames, remain |
| `CowRuns.NothingKept` | source/src/paging/manager.c:98-112 | with no handle kept, no root and no frame is taken after the last exit |
| `CowRuns.OneWriter` | source/src/paging/manager.c:239-270 | in every run: one mapping for a privately writable frame, no writable borrow |
| `CowRuns.RightsInRuns` | source/src/paging/manager.c:239-347 | in every run an entry is executable iff the page of the eager world has the execute right, and writable only if that has the write right |
| `CowRuns.BootRuns` | source/src/main.c:170-172 | keeping the kernel image, creating the first process and lending it the image is a run |
| `CowRuns.ImageStays` | source/system/x86_64/src/paging/map_kernel.c:68-73 | after that start the image's count is one more than its mappings until the kernel lets go of it |
| `CowManager.TakeFrames` | source/src/paging/manager.c:120-167 | the loop takes each frame for its place in the root |
| `CowManager.MapPages` | source/src/paging/manager.c:239-270 | the loop adds one entry per frame from the mapping's first page up, and no other; with `CowStore.WritableEntry`, writable and executable as the mapping's kind and rights say |
| `CowManager.UnmapPages` | source/src/paging/manager.c:349-437 | the loop removes exactly the mapping's entries |
| `CowManager.PagingManager.NewContext` | source/src/paging/manager.c:76-96 | the state gains an empty context; for a new one the invariant is kept and an empty memory appears |
| `CowManager.PagingManager.AddRoot` | source/src/paging/manager.c:120-207 | the new state is the old one with the root added |
| `CowManager.PagingManager.AddLend` | source/src/paging/manager.c:209-347 | the new state is the old one with the mapping lent |
| `CowManager.PagingManager.DropReference` | source/src/paging/manager.c:349-400 | one reference less; at zero the root and its frames are gone |
| `CowManager.PagingManager.Unmap` | source/src/paging/manager.c:349-437 | the new state is the old one without the mapping |
| `CowManager.PagingManager.GetVaddr` | source/src/paging/manager.c:497-510 | the search finds the one mapping that covers the page, or none if none does |
| `CowManager.PagingManager.PrepareWrite` | source/src/paging/manager.c:512-574 | the calls of the write fault give its step; with fresh frames and names the invariant is kept and no process sees a difference |
| `CowManager.PagingManager.PromoteMapping` | source/src/paging/manager.c:522-539 | the calls of the single-reference branch give its step |
| `CowManager.PagingManager.CopyMapping` | source/src/paging/manager.c:541-567 | the calls of the copying branch give its step |
| `CowManager.PagingManager.CreateSegment` | source/src/process/process.c:187-193 | the calls give the step; the invariant is kept and exactly the new pages appear, in this process |
| `CowManager.PagingManager.LendHeld` | source/system/x86_64/src/paging/map_kernel.c:71-73 | the state gains the mapping; exactly the root's pages appear, in this process; the invariant stays iff the root may be lent so |
| `CowManager.PagingManager.ForkOne` | source/src/process/process.c:84-118 | one turn of the fork loop |
| `CowManager.PagingManager.Fork` | source/src/process/process.c:62-132 | the fork loop over the mappings collected beforehand; the child's memory is the parent's; every thread keeps its stack and the child's is at the pages of the parent's first |
| `CowManager.PagingManager.UserStore` | source/src/paging/manager.c:578-675 | a store with its fault; lands exactly when the page is mapped with write permission |
| `CowManager.PagingManager.FreeContext` | source/src/paging/manager.c:98-112 | the loop empties the context and ends; the process's memory goes, no other changes, roots are returned exactly |
| `CowRanges.PlaceBacked` | source/src/paging/manager.c:209-225 | a new mapping on free pages is placed there by the allocator, address 0 included |
| `CowRanges.FaultBacked` | source/src/paging/manager.c:512-574 | the write fault releases and places at the same address and leaves every list of ranges as it was |
| `CowRanges.ForkCopiesRanges` | source/src/process/process.c:62-132 | every placement of fork lands at the parent's address, the parent's list is untouched, and the child's list is the parent's |
| `CowRanges.ExitFreesRanges` | source/src/paging/manager.c:98-112 | on exit the context's list ends as one free range and no other changes |
| `CowRanges.StepBacked` | source/src/paging/manager.c:209-437 | each step goes through the allocator without a miss, and lists reserve exactly the mappings' ranges |
| `CowRanges.RunBacked` | source/src/paging/manager.c:209-574 | the same in every state of every run, from any state and lists in step; an empty system with no lists is one (`CowRanges.BootBacked`) |
| `PageTables.RootOnWay` | source/src/paging/mapper.c:30-33 | the four indices of a 36-bit page number lead through the root |
| `PageTables.PutLeafWalk` | source/src/paging/mapper.c:90-100 | writing a page's entry changes the walk of that page alone, in a tree of unshared tables |
| `PageTables.LinkTree` | source/src/paging/mapper.c:36-54 | hanging a zeroed table under an absent entry keeps the tree unshared |
| `PageTables.LinkWalk` | source/src/paging/mapper.c:36-54 | hanging a zeroed table changes no walk and loses no page table |
| `PageTables.NowhereDown` | source/src/paging/mapper.c:174-182 | an absent upper entry leads to no table |
| `PageTables.WalkLeaf` | source/src/paging/mapper.c:30-106 | the walk of a page is its entry in the table at the bottom, rights undiminished by upper levels |
| `Mapper.Indices` | source/src/paging/mapper.c:30-33 | the shifted and masked fields of the address are the indices of its slot |
| `Mapper.MappedIs` | source/src/paging/mapper.c:122-172 | a mapped run is there page for page, consecutive frames and requested rights, and nothing else changed |
| `Mapper.UnmappedIs` | source/src/paging/mapper.c:214-223 | exactly the run's pages are gone |
| `Mapper.MapThenUnmap` | source/src/paging/mapper.c:122-223 | unmapping what was mapped over vacant pages restores every translation |
| `Mapper.VacantStep` | source/src/paging/mapper.c:135-161 | the next page can be mapped iff it was vacant before the call and is not one of those done |
| `Mapper.AddAllocations` | source/src/paging/mapper.c:108-120 | every table is recorded in order and the buffer always has room for one more |
| `Mapper.AddressSpace.Descend` | source/src/paging/mapper.c:35-88 | the table below an entry, made if absent; translations unchanged, other tables untouched |
| `Mapper.AddressSpace.MapSingle` | source/src/paging/mapper.c:19-106 | false iff the page was mapped; otherwise the flat map gains exactly that page |
| `Mapper.AddressSpace.MapPages` | source/src/paging/mapper.c:122-172 | the flat map gains the run, up to the first page already mapped; exactly the tables made are recorded |
| `Mapper.AddressSpace.UnmapSingle` | source/src/paging/mapper.c:174-212 | cleared iff mapped, losing exactly that page; a null table is read iff a table on the way is missing, and then nothing changes |
| `Mapper.AddressSpace.UnmapPages` | source/src/paging/mapper.c:214-223 | the flat map loses exactly the run, up to the first page whose tables are missing |
| `TranslationMap.InsertedFind` | source/src/paging/translation_map.c:124-149 | entering a key disturbs no other, page overflow included; a second entry wins iff no page up to the one with room knows the key |
| `TranslationMap.RemovedFind` | source/src/paging/translation_map.c:151-173 | left-shifting removal takes one entry of the key and disturbs no other key |
| `TranslationMap.StepHolds` | source/src/paging/translation_map.c:124-173 | one operation keeps the index equal to the finite map, each key once in its own bucket |
| `TranslationMap.RunHolds` | source/src/paging/translation_map.c:124-189 | after any run over distinct live keys translate agrees with the finite map |
| `TranslationMap.Index.Map` | source/src/paging/translation_map.c:124-149 | the loop enters the key in the first page with room, or a new first page |
| `TranslationMap.Index.Unmap` | source/src/paging/translation_map.c:151-173 | true iff the key was there; its first entry is gone |
| `TranslationMap.Index.Translate` | source/src/paging/translation_map.c:175-189 | the first entry of the key |
| `TranslationMap.ShiftLeft` | source/src/paging/translation_map.c:159-163 | the shifting loop removes exactly one entry, order kept |
| `Tiling.LayoutUnique` | source/src/util/heap/free.c:32-66 | full coalescing makes the layout a function of the live spans |
| `Tiling.LiveDisjoint` | source/src/util/heap/alloc.c:23-94 | live spans never overlap each other or the bookkeeping between them |
| `Tiling.CarveOk` | source/src/util/heap/alloc.c:47-83 | splitting a free piece adds exactly one live span and keeps the tiling |
| `Tiling.FreedOk` | source/src/util/heap/free.c:32-66 | joining both ways removes exactly one live span and keeps the tiling |
| `Heap.FitsIsSound` | source/src/util/heap/alloc.c:23-29 | the search test finds blocks that fit, for every block, iff its sum does not wrap |
| `Heap.FirstFitIs` | source/src/util/heap/alloc.c:23-43 | the block taken is eligible and none before it is |
| `Heap.AllocLayout` | source/src/util/heap/alloc.c:47-83 | the tag writes of an allocation give the tags of the split layout |
| `Heap.FreeLayout` | source/src/util/heap/free.c:32-66 | the tag writes of a release give the tags of the joined layout |
| `Heap.RunTiles` | source/src/util/heap/internal.c:13-35 | after any run: no empty block, no two free neighbours, blocks and tags fill the heap |
| `Heap.HistoryForgotten` | source/src/util/heap/free.c:10-77 | two runs that leave the same allocations leave the same blocks |
| `Heap.AllFreed` | source/src/util/heap/init.c:106-119 | with everything released, in any order, the heap is its initial block |
| `Heap.AllocThenFree` | source/src/util/heap/alloc.c:11-95 | allocating and freeing restores the exact layout |
| `Heap.ReallocKeepsTags` | source/src/util/heap/realloc.c:16-16 | copying the old size keeps the tags iff the new block is not smaller |
| `Heap.Heap.constructor` | source/src/util/heap/init.c:106-119 | one free block between head and tail tag |
| `Heap.Heap.Alloc` | source/src/util/heap/alloc.c:11-95 | first fit; zeroed bytes, a new disjoint allocation, no other allocation's bytes touched; panics iff no block is eligible, goes wild iff the sum in the test wraps |
| `Heap.Heap.Free` | source/src/util/heap/free.c:10-77 | exactly this allocation goes, neighbours are joined, no other loses a byte; panics iff the block is not in use |
| `Heap.Heap.Realloc` | source/src/util/heap/realloc.c:6-21 | the old contents lead the new block and all others are untouched; overruns iff the new block is the smaller one |
| `Heap.Heap.Check` | source/src/util/heap/internal.c:13-35 | the tag walk meets no mismatch and lands on the tail |
| `Heap.Heap.Usage` | source/src/util/heap/usage.c:7-21 | the recount equals the bytes in use and alloc_size |
| `Valloc.SameReserved` | source/src/paging/virtual_allocator.c:45-192 | the node list is a function of the reserved ranges |
| `Valloc.NoPages` | source/src/paging/virtual_allocator.c:46-46 | a request comes to no pages iff it is zero or its rounding wraps |
| `Valloc.ReleaseFrees` | source/src/paging/virtual_allocator.c:153-192 | a released range is free, whatever its neighbours |
| `Valloc.PlaceOk` | source/src/paging/virtual_allocator.c:45-151 | a free span is placed at its own address, by reservation or, at 0, by first fit, and exactly it becomes reserved |
| `Valloc.Recycled` | source/src/paging/virtual_allocator.c:45-192 | releasing a range and placing it again gives the same address and the very same list, wherever it is |
| `Valloc.Anywhere` | source/src/paging/virtual_allocator.c:45-83 | first fit leaves the list that placing the range where it landed would have left |
| `Valloc.VirtualAllocator.constructor` | source/src/paging/virtual_allocator.c:14-31 | one free node over the whole region |
| `Valloc.VirtualAllocator.Alloc` | source/src/paging/virtual_allocator.c:45-83 | first fit; panics iff every free node is too small, goes wild iff the request comes to no pages; otherwise exactly that range becomes reserved |
| `Valloc.VirtualAllocator.Reserve` | source/src/paging/virtual_allocator.c:85-151 | succeeds at the address iff aligned, its end does not wrap, and the whole span is free; panics iff outside the region; goes wild iff the page is free and the end wraps or no pages are asked for |
| `Valloc.VirtualAllocator.Release` | source/src/paging/virtual_allocator.c:153-192 | true iff a node starts there; exactly that range becomes free, neighbours joined |
| `Valloc.VirtualAllocator.Place` | source/src/paging/manager.c:224-225 | address 0 by first fit, others by reservation; where the span is free it is reserved at that very address |
| `Valloc.VirtualAllocator.Recycle` | source/src/paging/manager.c:526-533 | releasing a range and asking for it again, at 0 too, restores the very same list |
| `SchedSteps.CreateUserOk` | source/src/process/thread.c:31-61 | a new user thread and twin keep the invariant |
| `SchedSteps.AwaitOk` | source/src/scheduler/scheduler.c:117-149 | a kernel thread's wait keeps the invariant: one waiter, no core |
| `SchedSteps.InvokeOk` | source/src/scheduler/event.c:38-55 | waking the first waiter, or latching, keeps the invariant |
| `SchedSteps.StartTwinOk` | source/src/scheduler/scheduler.c:191-209 | handing over to the twin keeps the invariant |
| `SchedSteps.ReturnTwinOk` | source/src/scheduler/scheduler.c:211-249 | handing back, to a live or a killed user thread, keeps the invariant |
| `SchedSteps.RunOk` | source/src/process/thread.c:139-147 | thread_run keeps the invariant iff the thread is startable |
| `SchedSteps.KillOk` | source/src/process/thread.c:149-155 | thread_kill keeps the invariant iff the thread is not dead, or dead and held by nobody |
| `SchedSteps.QueueOkWhen` | source/src/scheduler/scheduler.c:91-103 | scheduler_queue keeps the invariant iff it refuses the thread, or the thread is dead and held by nobody |
| `SchedSteps.FreeIsSafe` | source/src/process/thread.c:119-137 | a dead thread taken off its queue, and its twin, are in no queue, on no core, at no event |
| `SchedSteps.FreeOk` | source/src/process/thread.c:119-137 | freeing removes exactly the pair and keeps the invariant |
| `SchedEffects.StartTwinEffect` | source/src/scheduler/scheduler.c:191-209 | the caller waits, its twin, which was stopped, runs and is last in its own queue, the core is free, nothing else changes |
| `SchedEffects.ReturnTwinEffect` | source/src/scheduler/scheduler.c:211-249 | the twin is stopped, its user thread is last in its own queue, running unless it was killed, the core is free, nothing else changes |
| `SchedEffects.CallAndReturn` | source/src/scheduler/scheduler.c:191-249 | a call that meets nobody and its return leave exactly what giving up the core would leave |
| `SchedEffects.AwaitEffect` | source/src/scheduler/scheduler.c:117-149 | a standing signal is used up and nothing else changes; else the caller blocks, last in line, and leaves the core |
| `SchedEffects.RunEffect` | source/src/process/thread.c:139-147 | a thread that was not running runs and is last in its queue; nothing else changes |
| `SchedEffects.KillEffect` | source/src/process/thread.c:149-155 | a live thread is dead, and keeps its place in line iff it could run; nothing else changes |
| `SchedDispatch.DispatchOk` | source/src/scheduler/scheduler.c:271-298 | dispatch keeps the invariant and picks the first running thread by priority, then arrival, freeing exactly the dead ahead of it |
| `Scheduler.RunsKeepInv` | source/src/scheduler/scheduler.c:91-149 | the invariant holds in every state of every run |
| `Scheduler.EveryReachableState` | source/src/scheduler/scheduler.c:191-299 | in every run: running iff queued or current, once; blocked iff waiter of one event; twins never both runnable |
| `Scheduler.NoSignalLost` | source/src/scheduler/event.c:38-55 | in every run: a signal or waiters, not both, and an invocation makes the longest waiter runnable |
| `Scheduler.DeadStaysDead` | source/src/process/thread.c:149-155 | after a kill, whatever step comes next leaves the thread dead or gone, and no dispatch takes it up |
| `Scheduler.KilledForGood` | source/src/scheduler/scheduler.c:220-248 | the same over any stretch of any run |
| `Scheduler.NoOvertaking` | source/src/scheduler/scheduler.c:91-103 | those ahead of a queued thread after a step are those ahead before, less some served |
| `Scheduler.NoOvertakingWaiters` | source/src/scheduler/event.c:38-55 | the same for the waiters of an event |
| `Scheduler.FirstComeFirstServed` | source/src/scheduler/scheduler.c:271-298 | over any stretch of any run the line ahead of a queued thread only shortens from its head |
| `Scheduler.FirstWaiterFirstWoken` | source/src/scheduler/scheduler.c:117-149 | the same for waiters |
| `SchedCalls.WaitingMeansInCall` | source/src/scheduler/scheduler.c:191-249 | in every run a user thread waits only with its twin running or blocked, and while the twin is, it waits or is dead and no core takes it up |
| `SchedCalls.CallLasts` | source/src/scheduler/scheduler.c:191-299 | no step ends a call but the return of its twin |
| `SchedCalls.CallUntilReturn` | source/src/scheduler/scheduler.c:191-249 | in every run, from entering the kernel to the twin's return, the call goes on, whatever else happens |
| `SchedCalls.WaitsMatchInvocations` | source/src/scheduler/event.c:18-55 | in every run, waits begun at an event plus a standing signal are those still waiting plus the invocations that found no signal standing |
| `SchedCalls.NewThreads` | source/src/process/thread.c:31-117 | a new thread is stopped, at TP_MEDIUM, waits for nothing, and is a user thread with a kernel twin or a kernel thread |
| `SchedCalls.AllMedium` | source/src/process/thread.c:40-99 | in every run every thread is at TP_MEDIUM |
| `Scheduler.Core.Queue` | source/src/scheduler/scheduler.c:91-115 | appended iff running or dead; the invariant is kept iff the thread is queueable |
| `Scheduler.Core.Run` | source/src/process/thread.c:139-147 | running, and queued unless it ran already; the invariant is kept iff the thread is startable |
| `Scheduler.Core.Kill` | source/src/process/thread.c:149-155 | dead, and queued only if it was dead; for a user thread the invariant is kept iff it was not dead or is queueable |
| `Scheduler.Core.AwaitEvent` | source/src/scheduler/scheduler.c:117-149 | consumes the signal or blocks, keeping the invariant |
| `Scheduler.Core.InvokeEvent` | source/src/scheduler/event.c:38-62 | wakes the first waiter or latches, keeping the invariant |
| `Scheduler.Core.EnterKernel` | source/src/scheduler/scheduler.c:191-209 | the caller waits, its twin runs and is last in its own queue, the core is free; the invariant is kept |
| `Scheduler.Core.LeaveKernel` | source/src/scheduler/scheduler.c:211-249 | the twin is stopped and the user thread last in its own queue, to run or, if killed, to be freed; the invariant is kept |
| `Scheduler.Core.YieldCore` | source/src/scheduler/scheduler.c:251-299 | the nested loops compute the dispatch, keep the invariant and pick as promised |
| `SocketStream.ReadTakes` | source/src/socket/unix.c:128-158 | a read takes a prefix of what is queued, as much as was asked for or all that the first packet has left, and leaves pos < size |
| `SocketStream.RunConserves` | source/src/socket/unix.c:121-186 | in every interleaving, delivered bytes followed by queued bytes are the bytes written |
| `SocketStream.WakeupStep` | source/src/socket/unix.c:126-135 | a step loses no wake-up iff it is not a partial read by a woken reader that strands a sleeper |
| `SocketStream.RunKeepsWakeups` | source/src/socket/unix.c:121-186 | over a run no wake-up is lost up to any point iff no step before it strands a sleeper |
| `SocketStream.OneReaderWakes` | source/src/socket/unix.c:121-186 | with one reader at a time no wake-up is lost |
| `SocketStream.LostWakeup` | source/src/socket/unix.c:126-135 | a run of four steps in which one is lost |
| `SocketStream.ReadersInOrder` | source/src/socket/unix.c:121-181 | in every run those who have gone to sleep are those woken since, in the same order, and then those still asleep |
| `SocketStream.Receiver.Put` | source/src/socket/unix.c:163-186 | a packet queued and one reader woken, or the signal latched; ERROR_NO_ADDR iff not connected, panic iff no bytes |
| `SocketStream.Receiver.Get` | source/src/socket/unix.c:121-161 | ERROR_NO_ADDR iff not connected, sleeps iff nothing is queued; otherwise returns exactly the bytes that leave the queue, as many as were asked for or all that the first packet has left |
| `SocketStream.Receiver.Take` | source/src/socket/unix.c:126-160 | the wait loop sleeps iff nothing is queued and otherwise returns exactly the bytes that leave the queue |
| `SocketConnect.ListenOk` | source/src/socket/unix.c:53-73 | listening again keeps order iff no request is pending |
| `SocketConnect.ConnectOk` | source/src/socket/unix.c:75-93 | asking keeps order and pairing iff it is refused or the socket is neither connected nor already asking; it leaves no acceptor asleep that could take the request |
| `SocketConnect.ConnectRouses` | source/src/socket/unix.c:78-90 | a request on a listening socket wakes the acceptor that has slept longest, or with nobody asleep leaves a signal |
| `SocketConnect.AcceptOk` | source/src/socket/unix.c:95-119 | the oldest request is served, its own socket is woken, and the two are peers |
| `SocketConnect.ResumeOk` | source/src/socket/unix.c:100-118 | a woken acceptor that runs again serves the oldest request in the same way, or sleeps again, and strands nobody |
| `SocketConnect.AcceptPairs` | source/src/socket/unix.c:104-112 | pairing stays symmetric iff the requester was not connected |
| `SocketConnect.RunPairs` | source/src/socket/unix.c:75-119 | in every run: first come first served, woken is accepted, pairing symmetric, and no acceptor asleep for a request that is not another's to take |
| `SocketWakeups.RunListens` | source/src/socket/unix.c:27-73 | in every run a socket takes requests iff it was last told to listen with room for some |
| `SocketWakeups.AcceptorsInOrder` | source/src/scheduler/event.c:38-55 | in every run those who have gone to sleep in accept are those woken since, in the same order, and then those still asleep |
| `SocketWakeups.NobodySleepsForARequest` | source/src/socket/unix.c:75-119 | in every run, while an acceptor sleeps, requests are no more than acceptors woken and not run yet, and no signal stands |
| `SocketConnect.SocketLayer.ConnectTo` | source/src/socket/unix.c:75-93 | refused iff not listening; otherwise queued and asleep, and the acceptor longest asleep is woken or a signal left; order and pairing are kept iff refused or the caller may ask |
| `SocketConnect.SocketLayer.ListenOn` | source/src/socket/unix.c:53-73 | requests dropped, capacity set; order is kept iff none was pending |
| `SocketConnect.SocketLayer.AcceptOn` | source/src/socket/unix.c:95-119 | EINVAL iff not listening, asleep iff there is no request, else the first is served |
| `SocketConnect.SocketLayer.ResumeAccept` | source/src/socket/unix.c:100-118 | asleep again iff there is no request, else the first is served; the capacity is not looked at again |
| `Pkfs.NoSharing` | source/modules/pkfs/src/disc_operations.c:181-307 | live objects share no page, their pages are in use, the next free page is nobody's |
| `Pkfs.Adopted` | source/modules/pkfs/src/disc_operations.c:181-229 | a new node and page become an object |
| `Pkfs.Disowned` | source/modules/pkfs/src/disc_operations.c:445-469 | giving up an object leaves every other whole |
| `Pkfs.FileSystem.FindFree` | source/modules/pkfs/src/disc_operations.c:193-200 | the scan finds the first page behind that is not in use; it finds none only if there is none or by a disc error |
| `Pkfs.FileSystem.Create` | source/modules/pkfs/src/disc_operations.c:181-279 | a new object on the first free page and the next page not in use, both nobody's before, with the page after these not in use as the next free one; without a disc error it fails iff there is no room; a disc error at any point changes no ownership; no other page but the root changes and every file reads as before |
| `Pkfs.FileSystem.Link` | source/modules/pkfs/src/disc_operations.c:281-307 | the first empty slot names the node, which is shown after all others, and a new name leads to it; without a disc error it fails iff the page is full, and a failure leaves the list as it was; ownership unchanged; only the node and that list change and every file reads as before |
| `Pkfs.FileSystem.Open` | source/modules/pkfs/src/disc_operations.c:62-130 | the first child with the name among those that reading up to the first empty slot shows; None otherwise or by a disc error |
| `Pkfs.LinkFound` | source/modules/pkfs/src/disc_operations.c:281-307 | after linking under a name nobody had, looking it up finds the file, whatever later pages list |
| `Pkfs.DelistedSeen` | source/modules/pkfs/src/disc_operations.c:471-503 | after a file is struck off, every other child is still found iff no later page lists any; on a list of one page what is shown is what was, less the file |
| `PkfsList.PackedShows` | source/modules/pkfs/src/disc_operations.c:72-86 | reading up to the first zero shows every child iff none stands behind a zero |
| `PkfsList.LinkedShown` | source/modules/pkfs/src/disc_operations.c:288-300 | a child in the first empty slot keeps the page packed and is shown last |
| `PkfsList.LaterSlotHidden` | source/modules/pkfs/src/disc_operations.c:72-75 | in any later slot it is not shown |
| `PkfsList.StruckPacked` | source/modules/pkfs/src/disc_operations.c:483-493 | striking off keeps a page packed and takes the first mention out of what is shown |
| `PkfsList.SeenAll` | source/modules/pkfs/src/disc_operations.c:103-129 | every listed child is found iff no page with an empty slot has children behind it |
| `PkfsList.StruckHides` | source/modules/pkfs/src/disc_operations.c:483-493 | striking a child off page k leaves the others to be found iff no later page lists any |
| `Pkfs.FileSystem.Read` | source/modules/pkfs/src/disc_operations.c:353-395 | exactly bytes offset to min(offset + size, total) of the chain, a prefix of them after a disc error; ends on every whole chain |
| `Pkfs.FileSystem.FreeChain` | source/modules/pkfs/src/disc_operations.c:452-466 | a prefix of the data pages marked free and nothing else changed, all of them unless the disc fails; the lowest remembered |
| `Pkfs.FileSystem.Unlist` | source/modules/pkfs/src/disc_operations.c:471-503 | the first index page that mentions the file has it struck off; nothing else changes, and nothing at all on a disc error |
| `Pkfs.FileSystem.Delete` | source/modules/pkfs/src/disc_operations.c:445-508 | it fails only by a disc error; exactly the file's pages become nobody's; its data pages are marked free, it is struck off its directory, and the next free page is the lowest of them and the old one; on a disc error, which pages were freed and whether it was struck off; in every case no page but the file's data pages, its directory's lists and the root changes, and the bytes of all files stay |
| `Pkfs.FileSystem.Erase` | source/modules/pkfs/src/disc_operations.c:468-507 | the directory's list, then the root; which of the two was written on a disc error; all else unchanged |
| `Pkfs.HalfDeleted` | source/modules/pkfs/src/disc_operations.c:452-476 | after a deletion broken off the file still reads through its chain, and a search can find its pages iff one was freed |
| `Pkfs.NextCreateShares` | source/modules/pkfs/src/disc_operations.c:181-229 | the next create takes a page of a half-deleted file iff the first page not in use behind the first free one is among those freed |
| `Pkfs.CrowdedInv` | source/modules/pkfs/src/disc_operations.c:181-307 | a disc with one file, one directory and pages in use between, every object whole |
| `Pkfs.DeleteThenShare` | source/modules/pkfs/src/disc_operations.c:452-476 | on that disc a deletion broken off makes the next create take the listed file's data page |
| `Pkfs.Strike` | source/modules/pkfs/src/disc_operations.c:483-493 | the first mention is taken out and the rest moved up |
| `ModuleLoader.LoadMoves` | source/src/module/module.c:77-136 | modules only move from registered to the front of loaded, none lost or doubled |
| `ModuleLoader.LoadMarks` | source/src/module/module.c:77-136 | loaded afterwards iff before or the answer is Ok; a failure never marks a module |
| `ModuleLoader.FalseClaim` | source/src/module/module.c:90-119 | taken for loaded without being so iff everything below passes and the module itself answers ERROR_MOD_LOADED |
| `ModuleLoader.LoadAccepts` | source/src/module/module.c:77-136 | the answer is taken for success iff everything below passes, honestly or not; nothing is loaded that does not pass or lies |
| `ModuleLoader.LoadKeepsOrder` | source/src/module/module.c:90-108 | a clean load keeps the order; any other runs some init without its dependencies |
| `ModuleLoader.LoadableIs` | source/src/module/module.c:77-136 | loadable iff accepted, clean and no lie |
| `ModuleLoader.LyingInit` | source/src/module/module.c:90-108 | two modules, the second loaded without its dependency |
| `ModuleLoader.LoadOrdered` | source/src/module/module.c:77-136 | from an ordered state, every loaded module follows its dependencies and every init ran with all of them loaded, iff the load is clean |
| `ModuleLoader.TransitiveFirst` | source/src/module/module.c:90-102 | dependencies of dependencies too, however far |
| `ModuleLoader.LoadOnce` | source/src/module/module.c:78-82 | no name is loaded twice, shared dependencies included |
| `ModuleLoader.LoadSucceeds` | source/src/module/module.c:77-136 | the module ends up loaded with everything in order iff everything below it is there and starts without error, whatever else is registered |
| `ModuleLoader.HonestLoad` | source/src/module/module.c:77-136 | with no liar registered: always in order, success iff loadable, nothing unloadable ever loaded |
| `ModuleAnswers.LoadAnswers` | source/src/module/module.c:77-136 | whatever is registered, the code returned is what the module at fault answers for itself: that named if all it depends on passes, else the one at fault for its first dependency that does not; ERROR_MOD_NONE if that is missing |
| `ModuleLoader.Registry.Register` | source/src/module/module.c:42-75 | the module is first in the registry, shadowing an older one of its name and no other |
| `ModuleLoader.Registry.LoadModule` | source/src/module/module.c:77-136 | the recursive search and loops compute the load, end on every acyclic registry, and keep the order iff the load is clean |

## Left out

- CowBase.AddRootBase: leaves out the root's own mapping in the kernel context (its page-table entries, list entry and address range), which no user process sees.
- CowManager.PagingManager.AddRoot: leaves out the same.
- CowManager.PagingManager.DropReference: leaves out the undoing of that mapping at zero.
- Copy-on-write: the alive_* counters; pman_context_resize; a new segment on pages already taken or outside the allocator's region; failures of the frame allocator (frames handed over are fresh).
- Copy-on-write: in runs a thread's stack is not unmapped while the thread lives (`CowStore.UnmapOk` says what would happen).
- Copy-on-write: device memory mapped twice at one physical address, and kernel writes through process_user_to_kernel, which go straight to a root's frames.
- The page-fault handler's reports and signals; a store to an unmapped or read-only page has no effect in the model.
- Supply of page-table frames, temporary mappings, TLB and CR3: a table handed out is fresh and zeroed. The scan for an empty page table after unmapping has no effect in the code.
- Page tables with upper entries not written by the mapper (boot tables without the user bit) are not part of this model.
- Heap debug names, flags and snapshots; linked nodes of lists appear as sequences, so dangling pointers are not modelled.
- Scheduler: scheduler_await_interruptable, thread_interrupt, signals, event_free, several cores, saved registers.
- Scheduler.Core.YieldCore: returns with the core idle where the original waits for an interrupt and looks again.
- Sockets: the backlog limit (never counted in the code), closing.
- PKFS: write_file, get_file_size, the directory iterator, whose order is that of `PkfsList.Seen`, and the root directory's address; the disc format's bytes.
- Pkfs.FileSystem.Open: takes the node of a listed page that is no node as having no name; names compare as strings, without the length limit of the disc format.
- Pkfs.FileSystem.Delete: asks for a file that has been linked, because the code reads its parent directory unseen.
- Module loading: module_unload; an init returns the same code at every call; cyclic registries, on which the code does not end.
- Pipes, VFS paths, timers, terminals, file tables, ELF loading, drivers and assembly.
