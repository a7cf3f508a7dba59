# Grapes in Dafny

A model of the core of Grapes, a small x86 microkernel with a userland library, and proofs of what it keeps over
every run.

- **Heap** (`Words`, `HeapBlocks`, `HeapModel`, `HeapRuns`, `HeapEffects`, `HeapWords`, `HeapClient`, `HeapTags`,
  `Heap`, `HeapPrograms`): the boundary-tag heap of the library. `HeapModel` and `HeapRuns` have what each operation
  does to the sequence of blocks and to the index, `HeapEffects` says it in terms of the heap before, `HeapWords` what
  32-bit arithmetic makes of it; `Heap` is the heap in memory, bytes, tags and index array, updated in place; in
  `HeapPrograms` programs also write what they were given.
- **Shared-memory addresses** (`ShmSpace`, `ShmAlloc`): the best-fit allocator of the library as a value and as a
  doubly linked list.
- **Frames, segments and pages** (`Lists`, `FrameModel`, `FrameInv`, `FrameRequests`, `FrameRuns`, `FrameTheorems`,
  `FrameSafety`, `FrameScenarios`, `FrameEffects`, `Bitset`, `Memory`): who holds which frame through mapping, faults,
  resizing, unmapping and hand-over with requests, where freed maps are used, and the loops that do it.
- **Threads and requests** (`Queues`, `Sched`, `Timer`, `Clocks`, `Kernel`, `KernelSched`, `KernelInv`, `KernelSteps`,
  `KernelTheorems`, `KernelDispatch`, `KernelInterrupts`, `KernelCalls`, `KernelFaults`, `KernelReceivers`,
  `KernelRuns`, `KernelFreedObject`, `KernelTwoReceivers`, `RequestNodes`): scheduling, waiting and request/answer
  communication as a step system whose actions are the pieces of system calls between blocking points, with the whole
  effect of each; ready queues and sleep list as linked lists; objects and requests as nodes that point at each other.
- **Objects and descriptors** (`ObjectTables`, `ObjectPassing`, `ObjectAnswers`, `Objects`): descriptor tables, object
  lifetime and the translation of descriptors between processes.
- **Answers** (`Answers`) and **decimal printing** (`Decimal`). `Common` has what several parts share.

The layers follow one pattern: a state and its operations as values, lemmas that say what each operation does in terms
of the state before it, lemmas that every operation and every run keep the invariant, and classes whose methods are
proved to make exactly those operations in place. `dafny verify dfyconfig.toml` covers all files.

## Findings

Where the code does not have the intended property, the condition under which it does is proved.

- `heap_contract` can leave a last hole of 1 to 19 bytes, in which header and footer overlap (`HeapRuns.ResidueExact`,
  `HeapRuns.ResidueTooSmall`, `HeapTags.ContractTilesIff`). Runs in `HeapClient` free only where the contraction
  leaves enough or is refused.
- A request whose size with the tags wraps is answered with a block of less than 20 bytes, which breaks the tiling
  (`HeapWords.WrappedRequest`, `HeapWords.TilesIff`, `HeapWords.HoldsRequestIff`); from 0xFFFFF000 up, a request that
  finds no hole asks for 0 more bytes, and if the kernel agrees then `heap_alloc` calls itself for ever when the last
  block is a hole (`HeapWords.StuckAgain`, on a new heap `HeapWords.MallocStuck`) and otherwise writes a hole of 0 bytes
  behind the heap (`HeapWords.ZeroHole`); and an expansion whose new end wraps can shrink the heap
  (`HeapWords.MallocShrinks`). `HeapWords.ComputedIff` says exactly when a round is right.
- The guard of `heapIdx_insert` at `src/library/gc/mem.c:55` compares a number of entries with bytes, so it never refuses
  (`HeapClient.GuardNeverRefuses`, `HeapClient.GuardFails`); an insertion into a full index overwrites the first
  header (`Heap.Heap.IdxInsert`, `HeapTags.HeaderOverwritten`). `HeapRuns.AllocRoomIff` and `HeapRuns.FreeRoomIff` say
  exactly when there is room. The test for a duplicate at `src/library/gc/mem.c:59` never succeeds.
- A shared-memory size of 0, or one above 0xFFFFF000 that rounds to 0, makes two blocks with the same start
  (`ShmSpace.AllocSoundIff`).
- `objdesc_rm` unlinks the right entry but, except for the head of the list, counts off and frees its successor
  (`ObjectTables.RmAsWrittenIff`, `ObjectTables.RmOlder`). So answering a request for which two descriptors were opened
  already fails (`ObjectAnswers.AnswerAsWrittenIff`). The tables model the version that remembers the entry.
- An object can be freed while a thread sleeps in `mutex_lock` on it; that thread then uses freed memory
  (`KernelFaults.CloseDoomsIff`, `KernelFaults.DoomedStays`, `KernelFaults.DoomedFaults`; a run from boot that ends so
  is `KernelFreedObject.FreedWhileWanted`).
- A sender can unmap shared memory that it has sent and the receiver has not mapped yet, and a receiver can unmap what
  it mapped before it answers; the kernel then uses a freed map (`FrameSafety.FaultsIff`,
  `FrameSafety.SenderUnmapsFirst`, `FrameSafety.ReceiverUnmapsFirst`; runs from boot are `FrameScenarios.SenderFaults`
  and `FrameScenarios.ReceiverFaults`). Runs that keep such maps never do (`FrameSafety.CarefulNeverFaults`), and
  `FrameSafety.HeldIff` says exactly which steps keep them.
- A parameter that is mapped twice leaves its segment with one reference too few (`FrameSafety.MappedTwice`,
  `FrameScenarios.CountFails`).
- While a thread is in `request_get` on an object no other may enter it there: `KernelReceivers.FetchKeepsIff` says that
  this is exactly what keeps the invariant. Of two threads that wait the first is never woken
  (`KernelReceivers.LostWakeUp`, `KernelReceivers.LostForever`); and a request can be handed out twice
  (`KernelReceivers.TakenAgain`, in a run from boot `KernelTwoReceivers.DeliveredTwice`). Threads may take turns, and
  calls that are refused do no harm.
- A shared segment sent with a request that is answered before it was mapped is never deleted
  (`FrameTheorems.LeftBehindForever`, from boot `FrameScenarios.Leaks`).
- `bitset_firstFree` looks at whole words only, so the last `size % 32` frames are never given out
  (`Bitsets.Bitset.FirstFree`).
- A server that returns a negative int to a requester who expects a long long is misread (`Answers.SeenIffFits`).
- `printk_int` of the least int writes only the sign (`Decimal.PrintInt`).

## Conditions

- Heap: `proc_setheap` is a parameter, any function from a new end to a yes or no. The index is kept as an array of its
  own, in front of the memory of the blocks. The words just outside the heap, which `heap_free` reads for a first or
  last block, do not look like tags (`Heap.Heap.NoFalseTags`, over runs `HeapPrograms.Quiet`).
- Requests: no thread gets into `request_get` on an object where another one is in it (a call that is refused does not
  count); the owner does not close an object that has a request, and no object is freed whose mutex a thread is waiting
  for; descriptors and shared memory that are passed exist when they are; a parameter is mapped at most once. What
  happens without the first, the third and the last of these is among the findings.
- Frames: segments start on a page, lengths of shared ones are whole pages, ranges within a directory do not overlap, a
  free frame exists when one is allocated, sums of addresses do not wrap. The words of the bitset are zero at boot and
  as many as it needs, although `paging_init` reserves only as many bytes (`src/kernel/mem/paging.c:38`).
- Objects: the manager object exists whenever a process is made. `process_new` keeps a pointer to it that is not counted
  (`src/kernel/task/task.c:297-302`), so nothing in the code keeps it from being freed.
- Timer: no 32-bit wrap of the clock.

## Model

| member | source | states |
|---|---|---|
| `HeapClient.EveryRun` | src/library/gc/mem.c:91-262 | Over every run of malloc and free from a new heap, with any answers of the kernel and an index of any capacity that is kept to: blocks tile the span, no two holes touch, the index holds exactly the holes in size order and within its places, the pieces the program holds are inside the heap, apart and at least as large as asked, the span is whole pages of at least 0x4000 from the start it was created with to no further than the max_end it was created with; when everything has been given back the heap is one hole |
| `HeapClient.StepSound` | src/library/gc/mem.c:183-262 | One malloc or free keeps all of that, the place of the heap, and the live blocks equal to what the program holds |
| `HeapClient.RunsStaySound` | src/library/gc/mem.c:183-262 | So does every sequence of them |
| `HeapClient.SoundApart` | src/library/gc/mem.c:183-224 | Requested extents of different pieces never overlap and lie inside the heap |
| `HeapClient.NothingLive` | src/library/gc/mem.c:129-149 | A heap with no live block is a single hole over its whole span, and that hole is the whole index |
| `HeapClient.GuardNeverRefuses` | src/library/gc/mem.c:55 | The guard of the index never refuses an index of two or more places, while the insertion stays inside it if and only if a place is free |
| `HeapClient.GuardFails` | src/library/gc/mem.c:55 | For an index of any number of places from 2 to 0x100000: a well-formed heap that fills it, whose second block cannot be freed within it, and where the guard lets the insertion through |
| `HeapRuns.AllocRoomIff` | src/library/gc/mem.c:127-150 | An allocation keeps within the index if and only if it ends without expanding, the last block is a hole, or a place is free |
| `HeapRuns.FreeRoomIff` | src/library/gc/mem.c:234-256 | Freeing keeps within the index if and only if a place is free once the united holes have given up theirs |
| `HeapWords.ComputedIff` | src/library/gc/mem.c:183-195 | A round of the allocation in 32-bit arithmetic does what is meant if and only if its sums do not wrap, or the round is refused all the same |
| `HeapWords.HoldsRequestIff` | src/library/gc/mem.c:184-190 | A block that is handed out holds the request if and only if the size with its tags did not wrap |
| `HeapWords.TilesIff` | src/library/gc/mem.c:197-221 | The blocks then still tile the heap if and only if it did not wrap or the hole was handed out whole |
| `HeapWords.WrappedRequest` | src/library/gc/mem.c:184-205 | A request for 0xFFFFFFF0 bytes is answered with a block of 4 bytes, over which a new hole is written |
| `HeapWords.StuckAgain` | src/library/gc/mem.c:192-195 | A request from 0xFFFFF000 up that finds no hole in a heap whose last block is a hole, the kernel agreeing to the end as it is, expands by 0 bytes, changes no block, and so calls itself for ever |
| `HeapWords.ZeroHole` | src/library/gc/mem.c:138-150 | Where the last block is in use the same round writes a hole of 0 bytes behind the end, and the heap is no longer well formed |
| `HeapWords.MallocStuck` | src/library/gc/mem.c:192-195 | On the heap malloc makes, 0xFFFFF000 bytes lead to the endless case if the kernel agrees |
| `HeapWords.ExpansionShrinks` | src/library/gc/mem.c:116-125 | A new end that wraps to an acceptable one takes the heap back instead of expanding it |
| `HeapWords.MallocShrinks` | src/library/gc/mem.c:116-125 | On the heap malloc makes, 0xE0000000 bytes lead to the new end 0x111000 |
| `HeapWords.LargeRequestFits` | src/library/gc/mem.c:183-195 | On the heap malloc makes, 0xA0000000 bytes wrap no sum and are within the model |
| `HeapRuns.AllocCorrect` | src/library/gc/mem.c:183-224 | An allocation expands the heap at most twice; it leaves the live blocks alone, or adds to them one new block with room for the request and its tags |
| `HeapRuns.AllocBestFit` | src/library/gc/mem.c:187-221 | It fails exactly when the next expansion is refused and every hole is too small; otherwise the block is the front of a smallest sufficient hole: of the size asked for and 20, the rest staying an indexed hole, if more than 20 bytes would be left, and else the whole hole |
| `HeapEffects.AllocExactly` | src/library/gc/mem.c:183-224 | The whole request, read off the heap before it: how many expansions by the least number of whole pages above the request, where the end comes to lie, whether it succeeds, out of which hole and with which size |
| `HeapEffects.FreeExactly` | src/library/gc/mem.c:226-262 | Freeing moves the end down, by all whole pages but those of the minimum and the last of the hole, if and only if the united hole lies last and has at least 0x2000 bytes, the heap is larger than 0x4000 and the kernel agrees; otherwise the end stays |
| `HeapRuns.AllocAgain` | src/library/gc/mem.c:192-195 | The closed form without recursion satisfies the recursive equation of the source |
| `HeapRuns.GrowRounds` | src/library/gc/mem.c:116-155 | Each expansion strictly lowers the number of rounds still needed, also where one rounded expansion is smaller than the request with its tags |
| `HeapRuns.Searched` | src/library/gc/mem.c:183-195 | The state in which the search ends: a hit or a refusal, the same live blocks, the end moved by none, one or two quantities |
| `HeapRuns.FreeBlockInv` | src/library/gc/mem.c:226-262 | Freeing a live block keeps tiling, coalescing and index, and takes exactly that block out of use |
| `HeapRuns.FreeBlockSpan` | src/library/gc/mem.c:258-261 | Freeing keeps the span a page multiple of at least 0x4000 |
| `HeapRuns.ContractClosedForm` | src/library/gc/mem.c:163-166 | The counting loop gives min(span - 0x4000, floor((s - 1) / 0x1000) * 0x1000) |
| `HeapRuns.ContractResidue` | src/library/gc/mem.c:163-166 | Something always stays of the last hole, and more than a page only when the minimum span stops the loop |
| `HeapRuns.ResidueExact` | src/library/gc/mem.c:163-166 | What stays is too small for its own tags exactly when the minimum span does not stop the loop and the hole is 1 to 19 bytes over whole pages |
| `HeapRuns.ResidueTooSmall` | src/library/gc/mem.c:163-166 | A last hole of 0x2005 bytes is cut down to 5 |
| `HeapRuns.ContractInv` | src/library/gc/mem.c:157-181 | Contraction keeps the heap well formed when it is refused or leaves room for the tags |
| `HeapRuns.ContractRemoves` | src/library/gc/mem.c:157-181 | A granted contraction of a heap of whole pages moves the end down by exactly that quantity, all out of the last hole; otherwise nothing changes |
| `HeapTags.ContractTilesIff` | src/library/gc/mem.c:173-180 | After the writes of a contraction memory is the tags of some tiling if and only if at least 20 bytes of the hole are left |
| `HeapTags.RetagTags` | src/library/gc/mem.c:129-137 | The writes that resize the last hole give the tags of the resized heap and change no byte of a live block |
| `HeapTags.TagsForceTiling` | src/library/gc/mem.c:157-181 | Header sizes determine the tiling: any other one must end before or at least 20 bytes after |
| `HeapTags.HeaderOverwritten` | src/library/gc/mem.c:62-72 | An entry written behind a full index takes the place of the first header, and the tags are no longer those of the blocks |
| `HeapModel.CarveInv` | src/library/gc/mem.c:197-221 | Splitting a hole keeps tiling, coalescing and index, and adds exactly one live block |
| `HeapModel.CarveTooSmall` | src/library/gc/mem.c:204-220 | Splitting off less than the size of the tags breaks the tiling |
| `HeapModel.ReleaseInv` | src/library/gc/mem.c:234-256 | Coalescing with both neighbours keeps tiling, coalescing and index, and removes exactly one live block |
| `HeapModel.GrowInv` | src/library/gc/mem.c:127-152 | Expansion keeps tiling, coalescing and index, and the live blocks |
| `HeapModel.ResizeLastInv` | src/library/gc/mem.c:173-180 | Removing the last hole from the index, changing its size and reinserting it keeps everything |
| `HeapModel.CreateInv` | src/library/gc/mem.c:91-114 | A new heap is well formed and has no live block |
| `HeapBlocks.InsertProperties` | src/library/gc/mem.c:57-73 | Inserting before the first entry not smaller keeps the order and adds exactly that entry |
| `HeapBlocks.RemoveProperties` | src/library/gc/mem.c:77-86 | Removing keeps the order and takes exactly that entry |
| `HeapBlocks.FirstIsBestFit` | src/library/gc/mem.c:187-190 | The first index entry that is large enough is a smallest sufficient hole; there is none exactly when no hole suffices |
| `Heap.Heap.Create` | src/library/gc/mem.c:91-114 | Header, footer and index written for one hole; bytes outside the heap keep their values |
| `Heap.Heap.IdxInsert` | src/library/gc/mem.c:54-74 | The shifting loops insert at the right place; nothing happens when the index counts as full; without a free place the last entry is written into the word behind the index |
| `Heap.Heap.IdxRemove` | src/library/gc/mem.c:76-87 | The shifting loops remove exactly the entry of that address |
| `Heap.Heap.Expand` | src/library/gc/mem.c:116-155 | Tags and index in memory follow the model of expansion; no byte of a live block changes |
| `Heap.Heap.Contract` | src/library/gc/mem.c:157-181 | Tags and index in memory follow the model of contraction; no byte of a live block changes |
| `Heap.Heap.Alloc` | src/library/gc/mem.c:183-224 | The new heap is that of the model and the pointer is 12 bytes into the new block, or null; no byte of a live block changes |
| `Heap.Heap.Free` | src/library/gc/mem.c:226-262 | The new heap is that of the model; no byte of a block that stays live changes; null, foreign and untagged pointers are ignored |
| `Heap.HeapCreate` | src/library/gc/mem.c:91-114 | No heap and -1 if and only if the kernel refuses the segment, else the new heap |
| `Heap.Perform` | src/library/gc/mem.c:183-262 | Where the run model enables a call, the heap in memory makes that step and every byte of every piece that stays with the program is kept |
| `HeapPrograms.StoredTags` | src/library/gc/mem.c:183-262 | Whatever a program stores in the bytes it asked for, and whatever happens outside the heap, every tag stays as it is |
| `HeapPrograms.Store` | src/library/gc/mem.c:183-262 | So the heap in memory stays the same well-formed heap through such stores |
| `HeapPrograms.Perform` | src/library/gc/mem.c:183-262 | Stores followed by a call make the step of the run model; malloc gives null or a pointer 12 bytes into exactly one more piece; every piece still held reads as it was stored |
| `HeapPrograms.PerformAll` | src/library/gc/mem.c:183-262 | Any sequence of stores and enabled calls over the heap in memory is a run of the model and ends in step with it |
| `Heap.Heap.UniteLeft` | src/library/gc/mem.c:234-242 | The block before is found through its footer and united if it is a hole |
| `Heap.Heap.UniteRight` | src/library/gc/mem.c:244-252 | The block after is found through its header and united if it is a hole |
| `Heap.Heap.Handout` | src/library/gc/mem.c:197-223 | The chosen hole leaves the index and is handed out, split when the rest is useful |
| `Heap.ContractLoop` | src/library/gc/mem.c:163-166 | The loop computes the quantity that the closed form is about |
| `ShmSpace.EveryRun` | src/library/gc/shm.c:15-84 | Over every run of allocations and frees: blocks tile [0x80000000, 0xD0000000) in whole pages with no adjacent holes, and the blocks in use are exactly those handed out and not given back |
| `ShmSpace.FromTheStart` | src/library/gc/shm.c:15-84 | The same from the first call on: what is in use lies in [0x80000000, 0xD0000000) and apart, and with nothing in use the range is one hole |
| `ShmSpace.FreeUndoesAlloc` | src/library/gc/shm.c:24-84 | Freeing what was just allocated restores the block list exactly |
| `ShmSpace.AllocSoundIff` | src/library/gc/shm.c:24-54 | The list stays sound if and only if the size is 1 to 0xFFFFF000 or no hole is found; otherwise a block in use and a hole start at the address returned |
| `ShmSpace.AllocInUse` | src/library/gc/shm.c:24-54 | An allocation adds one block of the rounded size to those in use, at the start of a smallest hole that fits, and is refused only when no hole does |
| `ShmSpace.FreeInUse` | src/library/gc/shm.c:65-84 | Freeing takes exactly the block at that address out of use; any other argument changes nothing |
| `ShmSpace.NothingInUse` | src/library/gc/shm.c:56-84 | With nothing in use the list is one hole |
| `ShmSpace.UnifyTwice` | src/library/gc/shm.c:56-82 | Uniting with the next block and then the previous with it equals giving the block back in one step |
| `ShmSpace.RoundedPositive` | src/library/gc/shm.c:27 | Exactly the sizes 1 to 0xFFFFF000 round to a positive whole number of pages that holds them |
| `ShmSpace.Chosen` | src/library/gc/shm.c:29-33 | The first of the smallest sufficient holes |
| `ShmAlloc.Allocator.Init` | src/library/gc/shm.c:15-22 | One node stands for the whole range |
| `ShmAlloc.Allocator.Closest` | src/library/gc/shm.c:29-33 | The walk over the linked blocks finds the chosen one |
| `ShmAlloc.Allocator.Split` | src/library/gc/shm.c:39-48 | The new node is linked in behind the block, both directions of every link consistent |
| `ShmAlloc.Allocator.Alloc` | src/library/gc/shm.c:24-54 | Result and linked list are those of the value model |
| `ShmAlloc.Allocator.Unify` | src/library/gc/shm.c:56-63 | The next node is unlinked and its bytes added |
| `ShmAlloc.Allocator.FindNode` | src/library/gc/shm.c:67-72 | The walk finds the first block at the address |
| `ShmAlloc.Allocator.Free` | src/library/gc/shm.c:65-84 | The linked list is that of the value model |
| `FrameTheorems.EveryRun` | src/kernel/mem/seg.c:7-113 | Over every run from boot of mapping, faults, resizing, unmapping, requests with shared memory, deleting directories and the kernel taking and giving back frames: the used frames are exactly the kernel's, those of private pages and those of shared tables, pairwise disjoint |
| `FrameRuns.StepGood` | src/kernel/mem/seg.c:7-113 | Every operation keeps ownership exact, pages inside their maps, lists and ranges consistent, and counts exact |
| `FrameRequests.OpenAdded` | src/kernel/ipc/request.c:197-200 | Sending shared memory opens exactly one parameter, which is counted |
| `FrameRequests.OpenMarked` | src/kernel/ipc/request.c:124-126 | Mapping a parameter closes exactly that one |
| `FrameRequests.OpenOfMoved` | src/kernel/ipc/request.c:67-73 | Answering moves the unmapped parameters of the request, each once, from those under way to those left behind |
| `FrameRequests.MarkedCountsIff` | src/kernel/ipc/request.c:124-126 | After a mapping every segment's count is its maps plus its unmapped parameters if and only if the parameter had not been mapped before |
| `FrameSafety.MappedTwice` | src/kernel/ipc/request.c:108-136 | After request_mapShm on a blocking request the counts are right if and only if the parameter was mapped for the first time |
| `FrameSafety.FaultsIff` | src/kernel/ipc/request.c:67-71 | A step uses a freed map if and only if it maps a parameter whose sender's map is gone, or answers a request one of whose receiver's maps is gone |
| `FrameSafety.HeldSafe` | src/kernel/ipc/request.c:124-126 | While every map that a request under way needs is there, no step uses a freed one |
| `FrameSafety.HeldIff` | src/kernel/mem/seg.c:21-37 | The maps that requests need stay there if and only if the step unmaps none of them, deletes no directory with one in it, and answers no request whose maps another request needs |
| `FrameSafety.CarefulNeverFaults` | src/kernel/mem/seg.c:21-37 | A run whose every step meets that condition never uses a freed map |
| `FrameSafety.SenderUnmapsFirst` | src/kernel/ipc/request.c:124-126 | A sender that unmaps what it sent before it is mapped makes request_mapShm follow a freed map |
| `FrameSafety.ReceiverUnmapsFirst` | src/kernel/ipc/request.c:68-69 | A receiver that unmaps what it mapped before answering makes request_answer unmap it once more |
| `FrameSafety.RcvUnmapped` | src/kernel/ipc/request.c:67-71 | The loop of request_answer takes away exactly the maps that the receiver made of the parameters |
| `FrameScenarios.SenderFaults` | src/kernel/ipc/request.c:124-126 | From every boot state a run of seven operations in which a sender unmaps what it sent and request_mapShm follows the freed map |
| `FrameScenarios.ReceiverFaults` | src/kernel/ipc/request.c:68-69 | From every boot state a run of eight operations in which a receiver unmaps what it mapped and request_answer unmaps the freed map |
| `FrameScenarios.CountFails` | src/kernel/ipc/request.c:108-136 | From every boot state a run after which a second mapping of the parameter leaves a wrong count |
| `FrameScenarios.Leaks` | src/kernel/ipc/request.c:67-71 | From every boot state a run after which no map is left, and the segment sent with a request outlives every run that follows |
| `FrameTheorems.FramesExact` | src/kernel/mem/paging.c:17-25 | No leak and no frame with two kinds of owner |
| `FrameTheorems.NoPageOnFreeFrame` | src/kernel/mem/paging.c:171-195 | No page shows a free frame or one of the kernel's |
| `FrameTheorems.SameFrame` | src/kernel/ipc/shm.c:42-74 | Two pages show the same frame if and only if they are the same page, or the same place of the same shared segment |
| `FrameTheorems.NothingMapped` | src/kernel/mem/seg.c:21-37 | When no map and no reference is left, there is no segment and no page and every frame but the kernel's is free |
| `FrameTheorems.DeletedOnlyUnused` | src/kernel/mem/seg.c:30-35 | A segment disappears only in an unmapping, the deletion of a directory or an answer, with all its maps in that step, when no parameter of a request under way carries it unmapped and none was answered unmapped |
| `FrameTheorems.LeftBehindForever` | src/kernel/ipc/request.c:67-71 | A parameter whose request was answered without mapping it is never given back: its segment outlives every run |
| `FrameTheorems.FaultEffect` | src/kernel/mem/paging.c:121-134 | After a fault the page is present if and only if it was before or a map of the directory contains the address and allows the access; no other page changes |
| `FrameTheorems.UnmapEffect` | src/kernel/mem/seg.c:21-37 | Unmapping removes exactly the pages of the map, and the segment if and only if nothing else refers to it |
| `FrameTheorems.ResizeEffect` | src/kernel/mem/seg.c:94-113 | The length becomes whole pages, and exactly the pages of the map beyond it are gone |
| `FrameTheorems.ResizeSegments` | src/kernel/mem/seg.c:94-113 | A new length is that of the segment too; a shared segment or the same length changes nothing |
| `FrameEffects.MapEffect` | src/kernel/mem/seg.c:7-16 | The newest map of the directory, of that segment, which counts one more; a simple segment lies at its own start with its own length whatever the offset, a shared one at the offset with its pages; nothing else changes |
| `FrameEffects.NewSegmentEffect` | src/kernel/mem/seg.c:48-60 | A new segment has one map, which lies so |
| `FrameEffects.SegmentsInPlace` | src/kernel/mem/seg.c:62-67 | In every run from boot every map of a simple segment starts where the segment does |
| `FrameEffects.PostEffect` | src/kernel/ipc/request.c:168-204 | The new request records, in order, the sender's map and its segment for what was found, and nothing within one process |
| `FrameEffects.GetEffect` | src/kernel/ipc/request.c:24-42 | A message without shared memory is done with, any other request is in progress |
| `FrameEffects.MapParameterEffect` | src/kernel/ipc/request.c:108-136 | The sender's segment is mapped for the receiver at the place asked for, all counts stay, and a message is done with if and only if this was its last parameter |
| `FrameEffects.AnswerEffect` | src/kernel/ipc/request.c:59-73 | A blocking request in progress is answered and exactly the maps made of its parameters are gone; otherwise nothing changes |
| `FrameEffects.UnmapLists` | src/kernel/mem/seg.c:21-37 | Exactly that map leaves its list, the others keep their order, and other lists and all requests stay |
| `FrameEffects.DropDirEffect` | src/kernel/mem/paging.c:106-109 | The directory and exactly the maps in it are gone |
| `FrameRuns.EmptiedInv` | src/kernel/mem/paging.c:106-109 | The loop over the maps of a directory ends with none left, the other directories as they were |
| `FrameInv.HitCovers` | src/kernel/mem/paging.c:126-130 | The lookup finds a map that contains the address, or none contains it |
| `FrameInv.ZeroUnused` | src/kernel/mem/seg.c:30-35 | A count of 0 means no map and no reference |
| `Bitsets.SetOne` | src/kernel/lib/bitset.c:3-7 | Setting a bit changes that bit alone |
| `Bitsets.ClearOne` | src/kernel/lib/bitset.c:9-13 | Clearing a bit changes that bit alone |
| `Bitsets.AllBits` | src/kernel/lib/bitset.c:24-31 | A word other than 0xFFFFFFFF has a clear bit |
| `Bitsets.MaskIsShift` | src/kernel/lib/bitset.c:6 | The mask is 1 shifted by the offset |
| `Bitsets.Bitset.Set` | src/kernel/lib/bitset.c:3-7 | The words stand for the set with the number added |
| `Bitsets.Bitset.Clear` | src/kernel/lib/bitset.c:9-13 | The words stand for the set with the number removed |
| `Bitsets.Bitset.Test` | src/kernel/lib/bitset.c:15-19 | Membership |
| `Bitsets.Bitset.FirstFree` | src/kernel/lib/bitset.c:21-34 | The least number not in the set among the whole words below the size, 0xFFFFFFFF if there is none |
| `Memory.Manager.constructor` | src/kernel/mem/paging.c:34-50 | The kernel's pages take the first frames, frame 0 among them, and nothing else is used |
| `Memory.Manager.FrameAlloc` | src/kernel/mem/paging.c:17-21 | The least free frame, now used |
| `Memory.Manager.PageUnmapFree` | src/kernel/mem/paging.c:189-195 | The entry is cleared and its frame freed |
| `Memory.Manager.FreeRange` | src/kernel/mem/seg.c:71-76 | The loop clears exactly the pages of the range and frees exactly their frames |
| `Memory.Manager.DropRange` | src/kernel/ipc/shm.c:42-48 | The loop clears exactly the pages of the range and frees nothing |
| `Memory.Manager.FreeTable` | src/kernel/ipc/shm.c:67-74 | The loop frees exactly the nonzero frames of the table |
| `Memory.Manager.MapSegment` | src/kernel/mem/seg.c:7-16 | The map is the newest of its directory, at its segment's start with its length, or for a shared one at the offset; the count is one more, the other maps stay, and everything stays well formed |
| `Memory.Manager.TakeOut` | src/kernel/mem/seg.c:23-29 | The list walk removes exactly that map |
| `Memory.Manager.UnmapSegment` | src/kernel/mem/seg.c:21-37 | The whole state is that of the model and stays well formed |
| `Memory.Manager.HandleFaultOf` | src/kernel/ipc/shm.c:52-63 | Page, table and bitset are those of the model with the frame allocated; the result is 0 exactly when the page was absent and the access allowed |
| `Memory.Manager.Lookup` | src/kernel/mem/paging.c:126-130 | The walk finds the first map that contains the address |
| `Memory.Manager.PagingFault` | src/kernel/mem/paging.c:121-134 | A handled fault makes an absent page present; an unhandled one changes nothing |
| `Memory.Manager.GetByOff` | src/kernel/ipc/shm.c:77-84 | The newest shared map that starts at the offset, none exactly when there is none |
| `Memory.Manager.ResizeSegment` | src/kernel/mem/seg.c:94-113 | Pages, frames and both lengths are those of the model; -2 for a shared segment |
| `Memory.Manager.EmptyDir` | src/kernel/mem/paging.c:106-109 | The loop terminates with the directory empty |
| `Memory.Manager.PostShm` | src/kernel/ipc/request.c:168-204 | The loop of mkrequest sends for each offset the newest shared map of the sender there, and counts it |
| `Memory.Manager.MapShm` | src/kernel/ipc/request.c:115-135 | Map, count, parameter and, for a message whose last parameter it was, the end of the request, also when the parameter had been mapped before; everything stays well formed when it had not |
| `Memory.Manager.AnswerShm` | src/kernel/ipc/request.c:67-71 | The loop of request_answer unmaps what the receiver mapped |
| `Memory.Manager.KernelTake` | src/kernel/mem/mem.c:37 | The kernel takes a free frame for itself, everything else kept |
| `KernelTheorems.DeliveredInOrder` | src/kernel/ipc/request.c:8-43 | In every reachable state the requests of an object were handed out once each in the order they were made; at most the pending one is outstanding |
| `KernelTheorems.ResumesWhenAnswered` | src/kernel/ipc/request.c:215-239 | A thread blocked in a request can run again if and only if that very request is finished |
| `KernelTheorems.OnlyAnsweringFinishes` | src/kernel/ipc/request.c:59-106 | Only an answer on the object that holds a request finishes it |
| `KernelTheorems.Mailbox` | src/kernel/ipc/request.c:24-42 | The mutex is locked if and only if the object has a request, which is pending or processed; a processed message still has shared memory to map |
| `KernelTheorems.RegistrationsExact` | src/kernel/task/task.c:126-137 | A sleep list, interrupt list, wakeupOnRq or unfinished request names a thread if and only if it is blocked for that reason, but for a receiver whose object has been freed |
| `KernelTheorems.OneReason` | src/kernel/task/task.c:126-137 | No thread is named by two registrations |
| `KernelTheorems.QueuesExact` | src/kernel/task/task.c:75-83 | A runnable thread other than the current and idle ones is in exactly one queue, once, at its priority; blocked ones are in none; idle is in none once switching has begun |
| `KernelTheorems.NoFault` | src/kernel/ipc/request.c:8-43 | In every run in which no thread gets into request_get where another one is in it and no object is freed whose mutex a thread is waiting for, no call or interrupt follows a null pointer or one to a freed thread, request or object |
| `KernelFaults.CloseDoomsIff` | src/kernel/ipc/object.c:26-45 | A close leaves a thread in mutex_lock on a freed object if and only if it frees an object whose mutex a thread is waiting for |
| `KernelFaults.DoomedStays` | src/kernel/lib/mutex.c:11-15 | Whatever else happens, such a thread stays so until it runs |
| `KernelFaults.DoomedFaults` | src/kernel/lib/mutex.c:11-15 | And when it runs it exchanges a word of the freed object |
| `KernelFreedObject.FreedWhileWanted` | src/kernel/lib/mutex.c:11-15 | A run from boot that ends so: a thread sends two messages to its own object and blocks on the second, another thread of the process takes the first and closes the object |
| `KernelReceivers.FetchKeepsIff` | src/kernel/ipc/request.c:8-43 | From any state with the invariant, request_get keeps it if and only if the call is refused or no other thread is in request_get on the object |
| `KernelReceivers.LostWakeUp` | src/kernel/ipc/request.c:18-23 | A thread that waits in request_get while a second one starts to is blocked and named by nothing that could wake or run it |
| `KernelReceivers.LostStays` | src/kernel/task/task.c:126-137 | No action of anybody changes that |
| `KernelReceivers.LostForever` | src/kernel/task/task.c:126-137 | So on no further run is that thread woken |
| `KernelReceivers.TakenAgain` | src/kernel/ipc/request.c:18-24 | A receiver that resumes while the request of its object is being processed is handed that request once more |
| `KernelTwoReceivers.DeliveredTwice` | src/kernel/ipc/request.c:18-24 | A run from boot in which two threads receive on one object and its only request is handed out twice |
| `KernelInterrupts.InterruptExactly` | src/kernel/task/idt.c:85-106 | All that waited for the interrupt, and on the timer all sleepers that are due, are woken and off their lists, in this order last in their queues; on the timer and when somebody waited the thread that gives way stands behind them and the first of the most urgent queue runs; otherwise nothing changes |
| `KernelInterrupts.InterruptWakesIff` | src/kernel/task/idt.c:88-106 | In every reachable state a blocked thread can run after an interrupt if and only if it waited for that interrupt, or this is the timer and it sleeps until a time that has come |
| `KernelInterrupts.SleepExactly` | src/kernel/task/timer.c:57-80 | The thread sleeps until the present time and its milliseconds, behind all that are due earlier, and the next thread runs |
| `KernelInterrupts.WaitIrqExactly` | src/kernel/task/idt.c:211-220 | A thread below driver privilege is sent back; any other waits in front of the list of the interrupt, and the next thread runs |
| `KernelDispatch.SwitchDispatches` | src/kernel/task/task.c:61-95 | A switch puts a thread that could go on last into its queue and runs the first thread of the most urgent queue, the idle one if all are empty |
| `KernelCalls.AskExactly` | src/kernel/ipc/request.c:138-240 | Exactly one of three: the object is busy and the caller sleeps for a millisecond on its mutex; the owner is gone and nothing is made; or the request is made, with the next number, the caller as requester if and only if it is blocking, the shared memory of the call if it goes to another process, last in the log of its object, a waiting receiver woken, and a blocking caller waiting for exactly this request |
| `KernelCalls.RetryExactly` | src/kernel/lib/mutex.c:11-15 | A thread that slept on the mutex does the same with the call it came with |
| `KernelCalls.FetchExactly` | src/kernel/ipc/request.c:8-43 | A foreign object, a request in progress, or none without waiting change nothing; without a request the thread waits as the one to be woken; otherwise it is given the request, next in the log, which stays in progress unless it is a message without shared memory |
| `KernelCalls.WokenExactly` | src/kernel/ipc/request.c:18-43 | A receiver that was woken is given the request in the same way |
| `KernelCalls.ReplyExactly` | src/kernel/ipc/request.c:59-106 | If and only if a blocking request is in progress on an own object it is finished, its requester can run and stands last in its queue, and the object is free; otherwise nothing changes |
| `KernelCalls.MapExactly` | src/kernel/ipc/request.c:108-136 | If and only if the parameter carries shared memory of the request in progress it is marked; a message whose last this was is done with and its object free |
| `KernelCalls.AnsweredExactly` | src/kernel/ipc/request.c:226-239 | The requester goes on with its finished request, which is no more |
| `KernelCalls.CloseExactly` | src/kernel/ipc/object.c:26-45 | The object is freed if and only if the process was the last to hold it, no other owns it and no request is with it; otherwise it has one holder less, and no owner if this was the owner |
| `KernelCalls.NewObjectExactly` | src/kernel/ipc/object.c:5-24 | A new object is the caller's alone, free and without requests |
| `KernelCalls.GrantExactly` | src/kernel/ipc/request.c:168-187 | Passing an object on makes the receiving process one more holder, and changes nothing else |
| `KernelCalls.NewThreadExactly` | src/kernel/task/task.c:242-278 | A new thread can run and stands last in the queue of its priority |
| `KernelCalls.ExitExactly` | src/kernel/task/task.c:147-163 | The current thread is gone and the next one runs |
| `KernelCalls.ClockFollows` | src/kernel/task/timer.c:39-90 | Ticks and sleep list of every step are those of the timer model: a timer interrupt is a tick, going to sleep enters the caller, a busy mutex enters it for a millisecond, nothing else changes them |
| `KernelSteps.StepInv` | src/kernel/ipc/request.c:8-240 | Every action keeps the whole invariant |
| `KernelSteps.RunInv` | src/kernel/ipc/request.c:8-240 | Every run from a state with the invariant ends in one |
| `KernelSteps.InitialInv` | src/kernel/task/task.c:33-46 | The state after boot, with the idle thread queued once, has it |
| `RequestNodes.Mailboxes.RequestGet` | src/kernel/ipc/request.c:8-43 | Every dereference is safe; the thread is handed the request that was pending as the next of its object, or is blocked and will be woken by the next one; otherwise nothing changes, with -2 for a foreign object, -3 for a request in progress and -1 for none without waiting; the invariant is kept |
| `RequestNodes.Mailboxes.ResumeGet` | src/kernel/ipc/request.c:18-43 | A receiver that was woken finds a request in the slot and is handed it |
| `RequestNodes.Mailboxes.Ask` | src/kernel/ipc/request.c:138-240 | The whole next state is one of the three that `KernelCalls.AskExactly` tells apart, with -11 exactly when the owner is gone; the new request is the node in the slot; the invariant is kept |
| `RequestNodes.Mailboxes.Retry` | src/kernel/lib/mutex.c:11-15 | The same for a thread that slept on the mutex |
| `RequestNodes.Mailboxes.TakeAnswer` | src/kernel/ipc/request.c:226-239 | The request was finished, no object points at it, and it is freed |
| `RequestNodes.Mailboxes.RequestAnswer` | src/kernel/ipc/request.c:59-106 | Either nothing changes, or the blocking request in the slot is finished, its requester woken and the object free again; every dereference is safe and the invariant kept |
| `RequestNodes.Mailboxes.RequestMapShm` | src/kernel/ipc/request.c:108-136 | The parameter is marked mapped; a message is freed, and its object with it, if and only if that was its last; otherwise nothing changes |
| `RequestNodes.Mailboxes.Close` | src/kernel/ipc/object.c:26-45 | The object is freed if and only if this was its last descriptor, it has no other owner and is not locked |
| `RequestNodes.Mailboxes.SlotNode` | src/kernel/ipc/request.c:24-42 | A locked object points at a request that has not been freed or finished and that no other object points at |
| `Sched.Scheduler.EnqueueIn` | src/kernel/task/sched.c:14-23 | The linked queue becomes the sequence with the thread appended |
| `Sched.Scheduler.Enqueue` | src/kernel/task/sched.c:35-39 | The same at the thread's priority; the idle thread is never queued |
| `Sched.Scheduler.DequeueFrom` | src/kernel/task/sched.c:25-33 | The first thread of the queue; its assertion never fails |
| `Sched.Scheduler.Dequeue` | src/kernel/task/sched.c:41-50 | Strict priority, first in first out, else the idle thread |
| `Queues.AppendOnce` | src/kernel/task/sched.c:14-23 | Appending a thread that waits nowhere keeps every thread waiting at most once |
| `Queues.PoppedOnce` | src/kernel/task/sched.c:25-33 | So does taking one off |
| `Queues.FirstInFirstOut` | src/kernel/task/sched.c:14-33 | Over every run, what was put in at a level is what was taken out there, in the same order, followed by what waits |
| `Queues.UrgentFirst` | src/kernel/task/sched.c:41-50 | A thread is taken only while nothing more urgent waits, and none only when nothing waits |
| `Timer.TimeOfParts` | src/kernel/task/timer.c:33-46 | Seconds and ticks of the current second give floor(1000 n / frequency) after n ticks |
| `Timer.TimeMonotone` | src/kernel/task/timer.c:33-37 | Time never goes back |
| `Timer.WokenByFirstTick` | src/kernel/task/timer.c:57-90 | On every run a sleeper is off the list exactly when a tick has come whose time reaches its deadline, never earlier |
| `Timer.SleepsUntilDue` | src/kernel/task/timer.c:57-90 | The list stays sorted and a sleeper stays on it exactly until a tick reaches its deadline |
| `Timer.StaysAwake` | src/kernel/task/timer.c:82-90 | Once off the list it stays off |
| `Timer.DueExactly` | src/kernel/task/timer.c:82-90 | In a sorted list the loop takes off exactly the sleepers that are due |
| `Timer.EnteredSorted` | src/kernel/task/timer.c:57-80 | Entering keeps the list sorted |
| `Clocks.Clock.Time` | src/kernel/task/timer.c:33-37 | The time of all ticks so far |
| `Clocks.Clock.Tick` | src/kernel/task/timer.c:39-46 | One tick; exactly the due threads are woken, in order |
| `Clocks.Clock.Sleep` | src/kernel/task/timer.c:57-80 | The walk hangs a node for the thread into the linked list at its deadline, the present time and the milliseconds, as the timer model does |
| `Clocks.Clock.WakeUpSleepingThreads` | src/kernel/task/timer.c:82-90 | Exactly the nodes that are due are taken off the front of the linked list |
| `ObjectTables.CountsExact` | src/kernel/ipc/object.c:15-101 | With the removal as meant, over every run an object's count is the number of processes that name it, owners name what they own, entries name existing objects, and numbers and objects occur once per table below next_objdesc |
| `ObjectTables.StepInv` | src/kernel/ipc/object.c:15-101 | Every operation keeps that |
| `ObjectTables.EveryRun` | src/kernel/ipc/object.c:15-101 | So does every run |
| `ObjectTables.CloseInv` | src/kernel/ipc/object.c:26-45 | Closing keeps counts exact and frees an object only when nobody names it and it is not busy |
| `ObjectTables.CloseFreesIff` | src/kernel/ipc/object.c:26-45 | A close frees the object if and only if nobody names it any more and no request holds it; an owner leaves it ownerless; no other object changes |
| `ObjectTables.CloseAllEmpties` | src/kernel/ipc/object.c:47-51 | Closing all ends with an empty table, other tables untouched |
| `ObjectTables.GoneForGood` | src/kernel/ipc/object.c:47-51 | No object is then left owned by the process |
| `Objects.DescTable.Get` | src/kernel/ipc/object.c:66-73 | The walk over the linked list finds the descriptor |
| `Objects.DescTable.Find` | src/kernel/ipc/object.c:75-82 | The walk finds the object |
| `Objects.DescTable.Push` | src/kernel/ipc/object.c:56-63 | A node with the next number in front of the list |
| `Objects.DescTable.Unlink` | src/kernel/ipc/object.c:84-101 | The node with the number, and no other, is bypassed, as meant |
| `Objects.WithoutAt` | src/kernel/ipc/object.c:84-101 | The entries that stay keep their order |
| `Objects.Process.AddDesc` | src/kernel/ipc/object.c:53-64 | List, count and number are those of the model; -1 when the object is known |
| `Objects.Process.RmDesc` | src/kernel/ipc/object.c:84-101 | The right entry is unlinked and counted off, as meant |
| `Objects.Process.CloseDesc` | src/kernel/ipc/object.c:26-45 | List, counts and owner are those of the model, whose invariant is kept |
| `Objects.Process.CloseAllDescs` | src/kernel/ipc/object.c:47-51 | The loop terminates with an empty list |
| `ObjectTables.RmAsWrittenIff` | src/kernel/ipc/object.c:84-101 | The removal as written does what is meant if and only if the descriptor is the newest of its process |
| `ObjectTables.CloseAsWrittenIff` | src/kernel/ipc/object.c:26-45 | So does closing, which therefore always works for obj_closeall |
| `ObjectTables.RmOlder` | src/kernel/ipc/object.c:94-96 | Removing the older of two descriptors follows a null pointer |
| `ObjectTables.LookupSpec` | src/kernel/ipc/object.c:66-73 | The descriptor of an object, -1 exactly when there is none |
| `ObjectTables.ReadSpec` | src/kernel/ipc/object.c:75-82 | The object of a descriptor |
| `ObjectTables.CreateInv` | src/kernel/ipc/object.c:5-24 | A new object is owned and named once by its creator, under the next number |
| `ObjectTables.SpawnInv` | src/kernel/task/task.c:281-303 | A new process owns its root object under descriptor 0 and has descriptor 1 for the manager's object, which counts one more; nothing else changes |
| `ObjectTables.ShareExactly` | src/kernel/ipc/object.c:53-64 | A process that is given an object has one more descriptor for it, with the next number and counted, or nothing changes when it knew it |
| `ObjectTables.ExitExactly` | src/kernel/ipc/object.c:47-51 | With the end of a process exactly the objects that only it named and no request holds are gone; those it owned have no owner |
| `ObjectPassing.PassDenotes` | src/kernel/ipc/request.c:168-187 | An object parameter denotes the same object in the receiver's table, also when passed twice or known before |
| `ObjectAnswers.AnswerRestores` | src/kernel/ipc/request.c:67-71 | However other processes go on between sending and answering (the sender may close what it lent), if the receiver's table is left alone then answering gives it back exactly, leaves the other tables as they have become and keeps every count exact |
| `ObjectAnswers.CloseListEntries` | src/kernel/ipc/request.c:67-71 | Closing a list of descriptors takes exactly these out of the table |
| `ObjectAnswers.AnswerAsWrittenIff` | src/kernel/ipc/object.c:92-100 | With the removal as written, answering gives the table back if and only if at most one descriptor was opened |
| `ObjectPassing.AnswerUndoes` | src/kernel/ipc/request.c:67-71 | Answering at once restores every table, count and owner, but for the next number |
| `ObjectPassing.AnswerDenotes` | src/kernel/ipc/request.c:75-93 | An object returned as the answer denotes the same object for the requester |
| `Answers.SeenIffFits` | src/library/gc/server.c:78-81 | A requester that expects a number reads the value the method returned if and only if nothing is cut off: a long long read as one word must fit it, one word read as a long long must not be negative |
| `Answers.DescriptorSeen` | src/kernel/ipc/request.c:75-93 | A descriptor answer is read as the same number within one process or when it is an error code, as -1 when the server has no such descriptor, and else as a number for the same object |
| `Answers.LongLongWhole` | src/kernel/ipc/request.c:97-98 | A 64-bit answer comes back whole, sign included |
| `Answers.TypesRead` | src/include/gm/method.h:4 | The return and parameter types are read back from the method number |
| `Decimal.WriteDec` | src/kernel/core/monitor.c:93-112 | Below 10^9 it terminates and writes the canonical numeral, inner zeros included |
| `Decimal.WriteLeading` | src/kernel/core/monitor.c:100-111 | One round writes the leading digit and the zeros up to the numeral of the rest |
| `Decimal.PrintInt` | src/library/std/stdio.c:3-36 | The signed numeral of every int but the least one, for which only the sign is written |
| `Decimal.FillBackwards` | src/library/std/stdio.c:29-33 | The buffer filled from its end holds the digits |
| `Decimal.PrintersAgree` | src/kernel/core/monitor.c:93-112 | Both printers give the same characters, which read back as the number |
| `Decimal.NumeralReads` | src/kernel/core/monitor.c:93-112 | The numeral reads back as the number and has no leading zero |
| `Decimal.LeadingDigit` | src/kernel/core/monitor.c:101-110 | A numeral is its leading digit, zeros, and the numeral of the rest |

## Left out

- KernelTheorems.NoFault: is about threads, objects and requests; maps in requests are in `FrameSafety`, and the two are not one joint state.
- ObjectTables.CountsExact: holds of the removal as meant; as written it does not, see `ObjectTables.RmAsWrittenIff` and `ObjectTables.CloseAsWrittenIff`.
- ObjectTables.StepInv: over the removal as meant.
- ObjectTables.EveryRun: over the removal as meant.
- ObjectTables.CloseInv: over the removal as meant; as written it is so exactly for the newest descriptor.
- ObjectTables.CloseFreesIff: over the removal as meant, and a busy object is a flag here, a mutex and a slot in `Kernel`.
- ObjectAnswers.AnswerRestores: over the removal as meant; as written see `ObjectAnswers.AnswerAsWrittenIff`.
- ObjectAnswers.CloseListEntries: over the removal as meant.
- ObjectPassing.AnswerUndoes: over the removal as meant.
- Objects.Process.CloseDesc: over the removal as meant; as written see `ObjectTables.CloseAsWrittenIff`.
- Objects.DescTable.Unlink: the removal as meant, with the node remembered before it is unlinked.
- Objects.Process.RmDesc: the removal as meant.
- RequestNodes.Mailboxes.Ask: takes the object that a descriptor reads as; a descriptor that does not exist gives -10 and changes nothing, here and in the other calls. What the call does to descriptor tables and shared memory is in `ObjectPassing` and `Memory.Manager.PostShm`.
- RequestNodes.Mailboxes.RequestMapShm: error codes -4 and -7 are reported as -5, because the node keeps only which parameters carry shared memory of another process; the map itself is made in `Memory.Manager.MapShm`.
- RequestNodes.Mailboxes.RequestAnswer: the value of the answer is in `Answers` and `ObjectPassing.AnswerDenotes`.
- Memory.Manager.MapShm: a sender's map that is gone, which the code would follow, is excluded here; `FrameSafety.FaultsIff` says when that happens.
- Memory.Manager.AnswerShm: a receiver's map that is gone, which the code would unmap again, is excluded here; `FrameSafety.FaultsIff` says when that happens.
- Memory.Manager.constructor: the bitset has all the words it needs, where the code reserves as many bytes.
- Memory.Manager.MapSegment: identifiers stand for the addresses that `kmalloc` returns; `kmalloc` does not fail, and no address is given out twice.
- Memory.Manager.HandleFaultOf: the user and write bits and the two-level page tables are not kept; a page table that does not exist counts as absent pages.
- Linked lists: the waiters of an interrupt and the maps of a directory are sequences here.
- Decimal.WriteDec: numbers from 10^9 on, where the order of magnitude overflows a 32-bit int.
- Heap.Heap.Free: a pointer into the heap that is not a live block but has a header in front of it.
- Multi-threaded process exit, which frees threads that may still be queued or asleep; the exit of the current thread is an action of `Kernel`.
- The owner closing an object with a request in progress, which the code leaves open.
- The kernel's own heap (`src/kernel/mem/heap.c`): the same algorithm mixed with page mapping; the frames it takes are `FrameRuns.Op.KernelTakes`.
- Copying of kernel page tables into process directories, context switching registers, GDT, IDT, port I/O, boot and ELF loading.
- The mutex of the shared-memory allocator, method dispatch and shared-memory handling in `srv_handle`, screen output, hex printing, string helpers, manager and test programs: input and output, or only easy members.
- Argument checks of `shm_create` and `shm_delete`: easy members around `Memory.Manager.MapSegment` and `Memory.Manager.UnmapSegment`.
