# Verified models of the xpf core

A Dafny 4.11 project that models the stateful core of the xpf library and proves what it is for. `dafny verify dfyconfig.toml` checks all of it.

**The buddy allocator** (src/allocators.cpp). `BuddyGeometry` is the tree of blocks and its addresses. `BuddyPool` is the bitmap and the free chains on values, with the recursive `Obtain` and `Recycle`, and what makes a pool canonical for a set of live blocks. `BuddyHeap` adds byte accounting, addresses and the public operations; `BuddyTheorems` states the results over every heap that any run of legal calls reaches. `BuddyCalls` says what each call does to the blocks in client hands and to its result, without the pool behind it, which block an allocation takes, and what the high-water mark remembers. `BuddyAllocator` is the allocator as it is written: a class over a byte buffer, a packed bitmap and an array of chain heads, all rewritten in place. Its records live in the last sixteen bytes of free blocks, as fragments of pointers between client bytes (`BuddyRecords`, `BuddyMemory`), so that a record written over client data would be seen. Every method is proved to compute the transition of the value model and to leave alone the bytes of every block that stays in client hands.

**The epoll multiplexer** (src/platform/netiomux_epoll.hpp, src/platform/netiomux_syncfifo.hpp). `MuxModel` is a state machine of any number of threads that run `runOnce` or submit operations. Each lock operation and each access to a shared list is a step of its own, including the gap between popping the completion list and entering the callback, and the gap between popping the ready list and locking the context. The kernel may report any armed endpoint, in some of its armed directions or with an error, and disarms it by doing so. `MuxInvariant` proves the invariant step by step (`MuxMoves` lists what each step does), `MuxTheorems` draws the conclusions. `MuxCallbacks` is about the order in which callbacks are entered, `MuxReady` about the runs along which the debug assertions on the ready flag hold; `MuxScenarios` has runs in which either promise is broken. `MuxRuns` continues runs step by step and `MuxDrain` concludes that no accepted operation is ever lost for good. With that, `MuxOvertaking` and `MuxAssertions` say of a state exactly whether callbacks can still be reversed, or an assertion fail, before new work is accepted. `MuxEngine` is the code itself, with its nested loops over shared lists and contexts that are rewritten in place (`MuxFifo` is the shared locked list): each uninterrupted call of `runOnce` or of a submission is proved to be a run of the state machine by the calling thread alone, so the order of steps in the machine is the order of the code, and its effect on queues, lists, flags and arming is stated outright.

**UTF-8/16/32 transcoding** (src/utfconv.cpp, include/xpf/utfconv.h). `UtfSpec` describes one read, one encoding and whole buffers on values; `UtfConv` is the three readers, the three writers and the loop, over arrays; `UtfMeaning` says what each form of a code point is and what each read reports in the numbers of the standards; `UtfString` is the conversion of whole strings through a buffer of `size * 8 + 1` units. `UtfTheorems` proves the round trips, the exact set of texts that survive, and the behaviour of bounded destinations; `UtfReencoding` is about sources that need not be well formed.

**getopt's permutation** (src/getopt.cpp). `GetoptSpec` says what one call of the scanner reports, `GetoptMeaning` says the same of the characters of the words and of the option string, `GetoptScan` is the scanner with its global state and the permutation that drives it by re-running it on a shrinking argv. `GetoptRoles` reads off, in one pass and without any scanner state, what part each element of argv plays; the permutation is proved to move exactly the operands of that reading (`GetoptSplit`). `GetoptTheorems` proves that nothing is lost and that the elements that stay mean as options what they meant; `GetoptArranged` says exactly when scanning the whole permuted argv reports the same.

**Base64** (src/base64.cpp). `Base64Spec` describes the encoding in groups of 24 bits as section 4 of RFC 4648 does; `Base64` is the mod-3 encoder and the block decoder with their size queries; `Base64Theorems` proves the round trips, gives the alphabet, and characterises the texts that are canonical and those that are refused; `Base64Bits` follows single bits.

Where the code and its documentation differ, the models follow the code:

- getopt's header promises GNU's permutation, where everything behind `--` is an operand. In the code a lone `-` or `--` protects only the one element behind it, because scanning resumes after that element is taken out. `GetoptTheorems.DashProtectsOnlyOne` gives the input and `GetoptTheorems.DashProtects` the exact condition under which everything is protected.
- Callbacks of one endpoint and direction need not be entered in submission order when several workers run. Operations leave the completion list in order, but a worker pops it under the list's lock alone (netiomux_epoll.hpp:140) and enters the callback afterwards under no lock, so another worker can overtake it. `MuxScenarios.CallbacksReversed` is such a run. `MuxCallbacks.InOrderIffOrderly` says of every run that the order holds exactly if no call overtakes an earlier one. `MuxOvertaking.ReversesIffOutstanding` says of every state with the order intact that it can be broken without new work exactly if there are two threads and two operations of the endpoint and direction whose callbacks are outstanding. With new work allowed two threads are all it takes (`MuxOvertaking.ReversesIffTwoThreads`), and a single worker never breaks it (`MuxCallbacks.OneWorkerInOrder`), whoever submits.
- The debug assertions on the `ready` flag (netiomux_epoll.hpp:220 and 285; the third one, at 313, follows an assignment and always holds) fail in some runs: work submitted on an armed endpoint whose event then arrives puts the endpoint on the ready list twice. `MuxScenarios` has the runs, for each of the two assertions. In every run they hold up to the first event that is handled of an endpoint already on the ready list or in a worker's hands, and no further (`MuxAssertions.AssertsIffUnlisted`), so the one at 285 always fails before the one at 220. They hold along every run in which no submission finds its endpoint armed or covered by an event (`MuxReady.CleanRunsAssert`). `MuxAssertions.FailsIffCrowded` says of every state in which no endpoint is due twice that they can fail before new work is accepted exactly if a submission under way has an endpoint that is armed or covered, and there is a second thread or another entry on the ready list. With new work allowed no state is safe, not even with one thread (`MuxAssertions.NeverSafeForGood`). The model is the behaviour without assertions, and all other results hold all the same.
- With both queues empty, rearming leaves an endpoint armed for whatever it was armed for before (netiomux_epoll.hpp:252-261), so an event without work can follow.
- The permuted argv does not always mean what the original one did: an option at the very end that still wants its argument takes the first operand, which now stands behind it. `GetoptArranged.OperandSwallowed` gives the input ("prog a -o") and `GetoptArranged.ArrangedRun` the exact condition.
- The base64 header exempts an output length of 0 from the size check; the code treats it like any other length that is too small.

## Model

| member | source | states |
|---|---|---|
| BuddyTheorems.ReachableInv | src/allocators.cpp:104-211 | After any run of legal alloc, dealloc, free, realloc and high-water resets, bitmap, chains, byte counts and live set agree |
| BuddyTheorems.BitmapIsCanonical | src/allocators.cpp:230-315 | In every reachable heap a bit is set exactly when a live block lies in the subtree of its block |
| BuddyTheorems.ChainsFollowBitmap | src/allocators.cpp:230-315 | Each free chain lists once each exactly the clear blocks whose buddy is set (or the root), so two buddies are never both free |
| BuddyTheorems.HistoryIndependent | src/allocators.cpp:230-315 | Two runs that end with the same live blocks end with the same bitmap, the same used bytes and the same free sets |
| BuddyTheorems.LiveBlocksApart | src/allocators.cpp:104-151 | Live blocks lie inside the pool, are aligned to their size and share no byte |
| BuddyTheorems.BytesConserved | src/allocators.cpp:116-118 | Used bytes are the sum of the live block sizes, and with the bytes on the free chains they make up the capacity |
| BuddyTheorems.WholePoolReturns | tests/allocators/allocator_test.cpp:278-307 | When nothing is live the pool is the initial one and alloc of the whole capacity succeeds |
| BuddyTheorems.AllocComplete | src/allocators.cpp:216-226 | alloc returns a block exactly when the requested size is at most what available reports (and that is not 0) |
| BuddyTheorems.AllocFindsRoom | src/allocators.cpp:230-315 | alloc returns a block exactly when the tree has some block of the request's size class that neither contains nor lies in a live one: coalescing never wastes room |
| BuddyTheorems.AllocGrantsBlock | src/allocators.cpp:104-121 | A successful alloc hands out one fresh block of the size class of the request, which locate finds again |
| BuddyTheorems.RecycleUndoesObtain | src/allocators.cpp:230-315 | Recycling the block just obtained restores every bit and every chain in its order, through any depth of splits |
| BuddyTheorems.FreeUndoesAlloc | src/allocators.cpp:104-151 | free of the pointer just allocated restores the whole state except the high-water mark |
| BuddyTheorems.FreeIsDealloc | src/allocators.cpp:124-151 | free and dealloc with any size of the block's class reach the same state and remove exactly that block |
| BuddyTheorems.FreeIsLegal | src/allocators.cpp:141-151 | free may be called on the address of a live block and on any address at which nothing is marked in use, and on no other |
| BuddyTheorems.ReallocSwaps | src/allocators.cpp:157-211 | realloc of a live block fails only when a new block is needed and alloc has none, and then changes nothing; otherwise the live set changes by one swap and the result has the tier of the new size, so a later sized dealloc finds it |
| BuddyCalls.ClassMeans | src/allocators.cpp:381-394 | The size class of a request is the smallest block size that holds it, 16 bytes doubled once per tier from the last one up |
| BuddyCalls.AllocMeans | src/allocators.cpp:104-121 | alloc returns a pointer exactly when some block of the size class is unrelated to every live one; then one new block of that class is live and the pointer is its start, and otherwise nothing changes |
| BuddyCalls.ObtainSplits | src/allocators.cpp:230-266 | The first block of the lowest tier with a free block is halved down to the tier wanted: its leftmost part is handed out and each split leaves one block on its chain |
| BuddyCalls.AllocTakes | src/allocators.cpp:104-121 | The pointer handed out is the start of the first block on that chain |
| BuddyCalls.FreeMeans | src/allocators.cpp:141-151 | free removes the live block that starts at the pointer, if there is one, and no other |
| BuddyCalls.DeallocMeans | src/allocators.cpp:124-138 | dealloc removes the live block that starts at the pointer if it is of the size class given, and no other |
| BuddyCalls.ReallocMeans | src/allocators.cpp:157-211 | realloc of null is alloc; to size 0 it is free and returns null; at an address without a live block it does nothing; a live block stays where it is when it is of the new size class already, and else gives way to a new block of that class or, without room for one, stays with null returned |
| BuddyCalls.HwmIsPeak | src/allocators.cpp:114-118 | Over every run the high-water mark is the greatest number of bytes in use at any moment at which a block was handed out since the last reset, the middle of a realloc included, or 0 if none was |
| BuddyHeap.LocateLive | src/allocators.cpp:425-446 | Probing upward from the smallest tier, a live pointer is located as exactly the block it was handed out for |
| BuddyHeap.AllocInv | src/allocators.cpp:104-121 | alloc keeps the heap invariant, and changes nothing when it fails |
| BuddyHeap.ReleaseInv | src/allocators.cpp:141-151 | Releasing a live block keeps the heap invariant |
| BuddyHeap.ReallocInv | src/allocators.cpp:157-211 | realloc keeps the heap invariant |
| BuddyPool.ObtainCanonical | src/allocators.cpp:230-266 | Obtaining a block of a tier, by popping or by recursive splitting, adds one block, unrelated to the live ones, to a canonical pool; failing changes nothing |
| BuddyPool.RecycleCanonical | src/allocators.cpp:268-315 | Recycling a block, with any number of merges, leaves the canonical pool of the remaining live blocks |
| BuddyFlags.FlagIndexInside | src/allocators.cpp:79-80 | The bit of every block of every tier lies inside the bitmap, whatever the number of tiers |
| BuddyFlags.FlagIndexInjective | src/allocators.cpp:396-403 | Different blocks have different bits |
| BuddyFlags.FlagsOkUpdate | src/allocators.cpp:405-419 | Setting or clearing one block's bit in the packed bytes changes that block's state and no other |
| BuddyFlags.WithFlagIsLocal | src/allocators.cpp:405-419 | Masking one bit into a byte of the bitmap leaves every other bit as it was |
| BuddyRecords.PushLinked | src/allocators.cpp:284-291 | Writing a record in front of a chain yields a correctly doubly linked chain in memory |
| BuddyRecords.UnlinkLinked | src/allocators.cpp:299-311 | Taking a record out of the middle of a chain yields a correctly doubly linked chain in memory |
| BuddyMemory.PushRecords | src/allocators.cpp:284-291 | A pushed record disturbs the records of no other chain, although the last bytes of a parent and of its right child coincide |
| BuddyMemory.UnlinkRecords | src/allocators.cpp:299-311 | An unlinked record disturbs the records of no other chain |
| BuddyMemory.PushKeeps | src/allocators.cpp:284-291 | Pushing a record writes into no byte of a block that stays in client hands |
| BuddyMemory.UnlinkKeeps | src/allocators.cpp:299-311 | Unlinking a record writes into no byte of a block that stays in client hands |
| BuddyAllocator.BuddyAllocatorDetails.constructor | src/allocators.cpp:61-91 | Builds the initial heap with the smallest power-of-two capacity of at least 16 that holds the requested size, at most 2^31 |
| BuddyAllocator.BuddyAllocatorDetails.Alloc | src/allocators.cpp:104-121 | On the real buffers, computes alloc of the value model, with the effect of AllocMeans on the live blocks and the result, and leaves the bytes of all live blocks alone |
| BuddyAllocator.BuddyAllocatorDetails.Dealloc | src/allocators.cpp:124-138 | On the real buffers, computes dealloc of the value model, with the effect of DeallocMeans on the live blocks, and leaves the bytes of all remaining live blocks alone |
| BuddyAllocator.BuddyAllocatorDetails.Free | src/allocators.cpp:141-151 | On the real buffers, computes free of the value model, with the effect of FreeMeans on the live blocks, and leaves the bytes of all remaining live blocks alone |
| BuddyAllocator.BuddyAllocatorDetails.Realloc | src/allocators.cpp:157-211 | On the real buffers, computes realloc of the value model, with the effect of ReallocMeans on the live blocks and the result, for a null pointer and for size 0 too; the result holds the first min(old block size, size) bytes of the old block, and other live blocks keep their bytes |
| BuddyAllocator.BuddyAllocatorDetails.Obtain | src/allocators.cpp:230-266 | The recursive splitting on the real buffers is Obtain of the value model, all handed-out blocks keep their bytes |
| BuddyAllocator.BuddyAllocatorDetails.Recycle | src/allocators.cpp:268-315 | The recursive coalescing on the real buffers is Recycle of the value model, all other handed-out blocks keep their bytes |
| BuddyAllocator.BuddyAllocatorDetails.Available | src/allocators.cpp:216-226 | The scan of the chain heads reports the block size of the lowest tier with a free block |
| BuddyAllocator.BuddyAllocatorDetails.LocateBlockInUse | src/allocators.cpp:425-446 | The probe on the real bitmap is Locate of the value model |
| BuddyAllocator.BuddyAllocatorDetails.TierOf | src/allocators.cpp:381-394 | The shifting loop finds the deepest tier whose blocks hold the size |
| BuddyAllocator.BuddyAllocatorDetails.IsBlockInUse | src/allocators.cpp:396-403 | The packed bit tells whether the block is marked in use |
| BuddyAllocator.BuddyAllocatorDetails.SetBlockInUse | src/allocators.cpp:405-419 | Exactly one block's mark changes, and records and heads stay |
| BuddyAllocator.BuddyAllocatorDetails.ResetHwm | src/allocators.cpp:215 | Returns the high-water mark and resets nothing else |
| MuxTheorems.ReachableInv | src/platform/netiomux_epoll.hpp:134-327 | The protocol invariant holds after every interleaving of any number of threads |
| MuxTheorems.OperationsConserved | src/platform/netiomux_epoll.hpp:222-244 | For each unlocked endpoint and direction, submitted = popped for callbacks ++ on the completion list ++ queued, as sequences, in every reachable state |
| MuxTheorems.PoppedInOrder | src/platform/netiomux_epoll.hpp:140 | Operations of one endpoint and direction leave the completion list in submission order, for exactly the first so many submissions; their callbacks may still be entered in another order |
| MuxTheorems.PoppedWasSubmitted | src/platform/netiomux_epoll.hpp:140 | Every operation taken off the completion list was submitted, with its own type and endpoint |
| MuxTheorems.PoppedOnce | src/platform/netiomux_epoll.hpp:140 | No operation is taken off the completion list twice |
| MuxCallbacks.CalledOnce | src/platform/netiomux_epoll.hpp:140-204 | No callback is entered twice for one operation |
| MuxCallbacks.CalledWasSubmitted | src/platform/netiomux_epoll.hpp:140-204 | Every callback entered is for an operation that was submitted and taken, with its own type and endpoint |
| MuxCallbacks.QuietMeansCalled | src/platform/netiomux_epoll.hpp:140-204 | With every thread between calls, exactly the operations taken off the completion list have had their callbacks |
| MuxCallbacks.InOrderIffOrderly | src/platform/netiomux_epoll.hpp:140-204 | In every run, the callbacks of an endpoint and direction are entered in submission order, for the first so many operations taken, if and only if no call overtakes an earlier one still carried by another thread |
| MuxCallbacks.ApartInOrder | src/platform/netiomux_epoll.hpp:140-204 | If no operation of the endpoint and direction is popped while another one is carried to its callback, callbacks are entered in order |
| MuxCallbacks.PopBehindReverses | src/platform/netiomux_epoll.hpp:140-204 | As soon as an operation is popped while another thread carries an earlier one, the two callbacks can be entered in reverse, with three more steps |
| MuxCallbacks.OneWorkerInOrder | src/platform/netiomux_epoll.hpp:126-133 | If one thread alone takes operations off the completion list, callbacks are entered in submission order, however many threads submit |
| MuxOvertaking.ReversesIffOutstanding | src/platform/netiomux_epoll.hpp:140-204 | From every reachable state with the order intact: callbacks of an endpoint and direction can be entered out of order before new work is accepted if and only if there are two threads and two accepted operations without their callbacks, be they about to be queued, queued, completed or on their way |
| MuxOvertaking.ReversesIffTwoThreads | src/platform/netiomux_epoll.hpp:140-204 | With new work allowed, callbacks can come to be entered out of order if and only if there are two threads |
| MuxScenarios.CallbacksReversed | src/platform/netiomux_epoll.hpp:140-204 | A run of two workers in which the callbacks of two reads of one endpoint are entered in reverse |
| MuxReady.CleanRunsAssert | src/platform/netiomux_epoll.hpp:220-314 | Along every run in which no submission finds its endpoint armed or covered by an event, each event finds the ready flag clear, each service finds it set, and no endpoint is on the ready list twice |
| MuxReady.UncleanViolates | src/platform/netiomux_epoll.hpp:802-806 | As soon as a submission finds its endpoint armed or covered by an event, two or more threads can go on, without new work, to a failing assertion |
| MuxAssertions.AssertsIffUnlisted | src/platform/netiomux_epoll.hpp:220-314 | Of every run: no assertion on the flag fails in it if and only if no event is handled of an endpoint that is listed, popped or about to be pushed; up to then the flag says exactly whether there is such an entry, there is never a second, and no service finds the flag clear |
| MuxAssertions.FailsIffCrowded | src/platform/netiomux_epoll.hpp:220-314 | From every reachable state in which no endpoint is due twice, with any number of threads: an assertion can fail before new work is accepted if and only if a submission under way has an endpoint that is armed or covered by an event, and there is a second thread or an entry on the ready list |
| MuxAssertions.NeverSafeForGood | src/platform/netiomux_epoll.hpp:220-314 | With new work allowed, every reachable state with at least one thread can come to a failing assertion |
| MuxScenarios.EventFindsFlagSet | src/platform/netiomux_epoll.hpp:285 | A run of two workers after which an event is about to be handled on an endpoint whose flag is set |
| MuxScenarios.ListedTwiceOver | src/platform/netiomux_epoll.hpp:311-316 | The same run goes on to a ready list that holds the endpoint twice |
| MuxScenarios.ServiceFindsFlagClear | src/platform/netiomux_epoll.hpp:219-221 | The same run goes on to an endpoint about to be served with its flag clear |
| MuxDrain.NothingLostForGood | src/platform/netiomux_epoll.hpp:134-327 | From every reachable state with at least one thread, some continuation without new submissions brings every submitted operation to its callback and every thread back between calls |
| MuxTheorems.NothingStranded | src/platform/netiomux_epoll.hpp:212-261 | A non-empty queue of an unlocked endpoint is on the ready list, popped by a worker, covered by an undelivered event, or armed for its direction |
| MuxTheorems.QuietMeansArmed | src/platform/netiomux_epoll.hpp:246-261 | With all threads between calls and both lists empty, an endpoint that still owes callbacks in a direction is armed for it |
| MuxTheorems.LockHolderMoves | src/platform/netiomux_epoll.hpp:219-263 | The holder of a context lock always has a next step |
| MuxTheorems.NoDeadlock | src/platform/netiomux_epoll.hpp:134-327 | Every thread can move or waits for one lock whose holder can |
| MuxTheorems.SuccessWasPerformed | src/platform/netiomux_epoll.hpp:288-309 | Success is reported only for operations completed by an I/O step, never for those flushed by an error event |
| MuxTheorems.ReportMeans | src/platform/netiomux_epoll.hpp:144-202 | Success is told exactly of a provisioned operation with code 0; a failed one as the receive, send, accept or connect error of its type; an unprovisioned one as unresolved if it is a connect with a peer and as invalid if not |
| MuxTheorems.AbortedIsTold | src/platform/netiomux_epoll.hpp:288-309 | In every run an operation on the completion list that no I/O step completed carries ECONNABORTED, and if provisioned is told as the error of its own type, never as success |
| MuxTheorems.QueuesByType | src/platform/netiomux_epoll.hpp:780-807 | In every reachable state the read queue holds receives and accepts of its endpoint only, and the write queue sends and connects |
| MuxTheorems.QueuedIsArmed | src/platform/netiomux_epoll.hpp:246-261 | An unlocked endpoint that is neither listed nor popped nor covered by an event is armed for reading if a receive or accept is queued on it, and for writing if a send or connect is |
| MuxInvariant.AccountingStep | src/platform/netiomux_epoll.hpp:222-309 | Every step keeps the account of operations, in the middle of critical sections too and on the error path |
| MuxInvariant.StepInv | src/platform/netiomux_epoll.hpp:212-318 | Every step of every thread keeps the whole invariant, among it that a set ready flag is backed by a ready-list entry or by a thread that holds or is about to push one |
| MuxEngine.NetIoMuxImpl.RunOnce | src/platform/netiomux_epoll.hpp:134-327 | From any reachable state with no lock held, one round of a worker is a run of the state machine by that worker alone, ending idle with every lock released: the first completed operation is taken and called with the status of its type and outcome, the first ready endpoint is served and rearmed, and either 10240 or more entries are left on the ready list and the wait is skipped, or the reported events are disarmed and handled in order |
| MuxEngine.NetIoMuxImpl.ServeEndpoint | src/platform/netiomux_epoll.hpp:219-263 | Locking, both serving loops, rearming and unlocking follow the state machine: a prefix of the reads and then one of the writes are performed and moved to the completion list in order, the flag is cleared, and the endpoint is armed for what is left |
| MuxEngine.NetIoMuxImpl.ServeReads | src/platform/netiomux_epoll.hpp:222-232 | The read loop performs operations in order and moves them to the completion list until the queue is empty or one would block, which then stays at the head; nothing else changes |
| MuxEngine.NetIoMuxImpl.ServeWrites | src/platform/netiomux_epoll.hpp:234-244 | The same for the write loop |
| MuxEngine.NetIoMuxImpl.DeliverOne | src/platform/netiomux_epoll.hpp:140-204 | Takes the first completed operation, if any, and enters its callback with the status that ReportMeans spells out for its type, provisioning and error code |
| MuxEngine.NetIoMuxImpl.WaitForEvents | src/platform/netiomux_epoll.hpp:267-324 | Skips the wait when the ready list has 10240 or more entries; otherwise takes what the kernel offers, at most 128 events, disarms it and handles every event in order, and reports a timeout exactly if there was none |
| MuxEngine.NetIoMuxImpl.RearmLocked | src/platform/netiomux_epoll.hpp:246-261 | The endpoint is armed for exactly the directions with queued operations; with both queues empty the arming stays as it was |
| MuxEngine.NetIoMuxImpl.FlushLocked | src/platform/netiomux_epoll.hpp:290-306 | On the error path every queued read, then every queued write, is put on the completion list in order with the error code ECONNABORTED, and both queues are emptied |
| MuxEngine.NetIoMuxImpl.HandleEvent | src/platform/netiomux_epoll.hpp:280-318 | One reported event either flushes the endpoint and clears its flag, or sets its flag and puts it on the ready list, with queues and arming untouched |
| MuxEngine.NetIoMuxImpl.AsyncSubmit | src/platform/netiomux_epoll.hpp:329-343 | A submission appends one operation to the read queue if it is a receive or an accept and to the write queue if it is a send or a connect, sets the ready flag, and puts the endpoint on the ready list exactly if the flag was clear; nothing else changes |
| MuxEngine.NetIoMuxImpl.AppendAsyncOpLocked | src/platform/netiomux_epoll.hpp:780-807 | The same under the caller's lock |
| MuxFifo.NetIoMuxSyncFifo.PopFront | src/platform/netiomux_syncfifo.hpp:42-54 | Takes the first element and reports how many remain, or null and zero |
| MuxFifo.NetIoMuxSyncFifo.PushBack | src/platform/netiomux_syncfifo.hpp:56-63 | Appends at the end, ignoring null |
| MuxFifo.NetIoMuxSyncFifo.Erase | src/platform/netiomux_syncfifo.hpp:66-82 | Removes the first occurrence and says whether there was one |
| MuxFifo.ErasedOnce | src/platform/netiomux_syncfifo.hpp:66-82 | Erasing removes exactly one occurrence of an element that is there and nothing otherwise |
| UtfTheorems.ReadEncoded | src/utfconv.cpp:51-109 | Reading at the encoding of a valid code point, in any form, returns it and steps over it |
| UtfTheorems.ReadAllEncoded | src/utfconv.cpp:401-416 | Reading the encoding of any valid text, counted or zero-terminated, returns its code points |
| UtfTheorems.SurrogatePair | src/utfconv.cpp:299-301 | Splitting a value beyond the basic plane into surrogates and joining them is the identity, as in section 2 of RFC 2781 |
| UtfTheorems.RoundTrip | src/utfconv.cpp:360-421 | Converting valid text between any two forms and back restores the units, and both conversions return the number of code points; between UTF-8 and UTF-32 for all values in 1..2^31-1 |
| UtfTheorems.ConvertValid | src/utfconv.cpp:360-421 | Valid text converts completely into any form with room for it |
| UtfTheorems.ConvertTerminated | src/utfconv.cpp:360-421 | Zero-terminated text converts like counted text, whatever follows the zero |
| UtfTheorems.SurvivesIffValid | src/utfconv.cpp:51-167 | A sequence of code points reads back from its encoding exactly when all of them are representable in the form |
| UtfTheorems.FitsLongestPrefix | src/utfconv.cpp:219-225 | The returned count is the length of the longest prefix of code points whose encoding fits the destination |
| UtfTheorems.BufferBound | include/xpf/utfconv.h:81-84 | Whatever the source holds, all that is read from n units fits into 8n+1 units of any form with room for the terminator |
| UtfReencoding.ReencodedIffShortest | src/utfconv.cpp:51-188 | From any source, well formed or not: writing what was read in the same form gives back exactly the units consumed, always for UTF-16 and UTF-32, and for UTF-8 if and only if no overlong form was read |
| UtfMeaning.EncodeMeans | src/utfconv.cpp:200-343 | UTF-8 is the table of section 3 of RFC 3629 continued to six bytes, UTF-16 is one unit or the two surrogates of section 2 of RFC 2781, with nothing beyond U+10FFFF, UTF-32 is the value itself |
| UtfMeaning.ReadMeans | src/utfconv.cpp:51-188 | A read reports the end at a zero, at the end of the count and at a form cut off by it; an error at a byte that starts no form, at the first byte that does not continue one, and at a lone surrogate; and otherwise the value of the units, with position and count behind them |
| UtfConv.WidthMeans | src/utfconv.cpp:362-364 | Units of 1, 2 and 4 bytes are supported, with all the values they can have, and no others |
| UtfConv.Utf8Reader.Read | src/utfconv.cpp:51-109 | Reads one code point of one to six bytes, or reports the end or bad format, moving position and count as specified |
| UtfConv.Ucs2Reader.Read | src/utfconv.cpp:121-167 | Reads one unit or one surrogate pair |
| UtfConv.Ucs4Reader.Read | src/utfconv.cpp:179-188 | Reads one unit |
| UtfConv.Utf8Writer.Write | src/utfconv.cpp:200-258 | Writes the whole encoding in place, or nothing if it does not fit, and touches no other unit |
| UtfConv.Ucs2Writer.Write | src/utfconv.cpp:280-311 | Writes one unit or a surrogate pair, drops values beyond the range, or writes nothing if it does not fit |
| UtfConv.Ucs4Writer.Write | src/utfconv.cpp:333-343 | Writes one unit, or nothing if it does not fit |
| UtfConv.UtfConvInner | src/utfconv.cpp:360-421 | Returns -1 exactly for an unsupported unit width; otherwise writes exactly the encoding of the longest prefix that fits, then a zero if everything was written and a unit is left, leaves the rest of the destination alone and returns the length of the prefix |
| UtfString.Transcode | include/xpf/utfconv.h:74-116 | The string produced through the size * 8 + 1 buffer is the encoding of all code points read from the source, up to its first zero |
| UtfString.StringsRoundTrip | include/xpf/utfconv.h:74-116 | Converting a valid string to another form and back restores it |
| GetoptScan.Getopt.ParseHead | src/getopt.cpp:191-204 | Collects the mode flags at the head of the option string: the last sign decides, a colon anywhere among them changes the missing-argument code |
| GetoptScan.Getopt.FindLong | src/getopt.cpp:278-299 | The loop over the table of long options computes the lookup that LookupMeans characterises |
| GetoptTheorems.LookupMeans | src/getopt.cpp:286-317 | The first exact name wins; without one an abbreviation must have exactly one completion, several are ambiguous, none is unrecognized |
| GetoptMeaning.HeadMeans | src/getopt.cpp:191-204 | The flags are the leading '+', '-' and ':'; any sign forbids permuting, a last sign of '-' makes operands arguments of an option 1, a colon anywhere among them changes the code of a missing argument, and the rest are the option characters |
| GetoptMeaning.LookupChooses | src/getopt.cpp:286-317 | The lookup makes the one choice there is: the first entry named by the key, else the only entry the key abbreviates, else ambiguous or none |
| GetoptMeaning.LongMeans | src/getopt.cpp:267-371 | A long option word is its dashes, the key, '=' and the argument; the argument reported is what is behind the first '=', or for a required one without '=' the next element; the code is the entry's value, 0 with the flag stored, or ':' or '?' with the argument missing or the key unknown or ambiguous |
| GetoptMeaning.ShortMeans | src/getopt.cpp:373-421 | A short option's argument is the rest of its word, or the next element if it must have one or that element starts with no dash; the code is its character, '?' if unknown, or ':' or '?' with the argument missing |
| GetoptMeaning.CallMeans | src/getopt.cpp:236-428 | What a call reports from any element, over skipped operands, operands reported with code 1, a lone dash, an option word and the end of argv |
| GetoptMeaning.StepMeans | src/getopt.cpp:171-428 | The same from any index and saved position, which counts only inside the current element |
| GetoptScan.Getopt.LongOption | src/getopt.cpp:267-371 | A long option's code, argument (inline, next element, absent or missing), table index, new position and stored flag are those that LongMeans spells out |
| GetoptScan.Getopt.ShortOption | src/getopt.cpp:373-421 | A short option's code, argument, new position inside or behind the element, and xoptopt are those that ShortMeans spells out |
| GetoptScan.Getopt.Scan | src/getopt.cpp:171-262 | One call of the parser reaches the outcome that StepMeans spells out from any global state, with resets and stale positions |
| GetoptScan.Getopt.Permute | src/getopt.cpp:53-146 | Terminates and leaves argv as its kept elements followed by its detached ones, each in their old order, argv[0] first, xoptind at the first detached one; with 7-bit option characters the detached ones are exactly the operands |
| GetoptScan.Getopt.XGetopt | src/getopt.cpp:149-428 | Every call reports what StepMeans spells out; one that is not the last changes nothing in argv, and the last one permutes it unless the caller forbids it |
| GetoptSplit.StepProgresses | src/getopt.cpp:102-138 | Each call of the scanner inside the permutation moves on or stops at an element to detach, and keeps the partition of argv |
| GetoptRoles.StepRoles | src/getopt.cpp:236-262 | Seen from the original argv, a call of the scanner on the shrunken one passes only elements that are no operands and stops only at operands |
| GetoptRoles.WordAdvances | src/getopt.cpp:263-421 | An option word is consumed with the next element exactly when its options take that element as an argument |
| GetoptSplit.PermuteMeans | src/getopt.cpp:57-91 | The rewritten option string and the cloned table, whose flags and values differ, lead to the same operands as the caller's |
| GetoptTheorems.ArrangedIsPermutation | src/getopt.cpp:94-138 | The final argv is a permutation of the original one with argv[0] in place |
| GetoptTheorems.OperandsAreNotOptions | src/getopt.cpp:238-261 | A moved element does not start with a dash, or stands directly behind a lone - or -- |
| GetoptTheorems.RunPreserved | src/getopt.cpp:94-138 | The reports of scanning the original argv with operands skipped equal those of scanning only the kept elements and stopping at the first operand |
| GetoptArranged.ArrangedRun | src/getopt.cpp:94-138 | Scanning the permuted argv and stopping at the first operand reports what scanning the original one did, unless there is no lone dash and the last element is an option word that would take an operand; if no option is reported with the code -1, that is the exact condition |
| GetoptArranged.OperandSwallowed | src/getopt.cpp:107-121 | In "prog a -o" with a required argument for o, the original scan reports the argument missing; the permuted "prog -o a" reports it as a |
| GetoptTheorems.DashProtects | src/getopt.cpp:254-261 | Everything behind a lone dash is an operand if and only if nothing beyond its successor starts with a dash |
| GetoptTheorems.DashProtectsOnlyOne | src/getopt.cpp:107-121 | In "prog -- a -b" the last element is still read as an option |
| Base64Theorems.RoundTrip | src/base64.cpp:48-156 | Decoding the encoding of any byte string gives it back |
| Base64Theorems.AnnouncesTheLength | src/base64.cpp:114-121 | The length the decoder announces for an encoding is that of the encoded bytes |
| Base64Theorems.DecodedFits | src/base64.cpp:111-155 | For any text whose length is a multiple of four, no more is decoded than announced |
| Base64Theorems.ReencodedIffCanonical | src/base64.cpp:137-155 | Decoding and encoding again gives back a text if and only if it is canonical in the sense of section 3.5 of RFC 4648 |
| Base64Theorems.CanonicalIsImage | src/base64.cpp:69-105 | The canonical texts are exactly those the encoder writes |
| Base64Theorems.AlphabetOfTheStandard | src/base64.cpp:26 | The 64 characters are those of table 1 of RFC 4648, in its order, and padding is '=' |
| Base64Bits.EncodesTheBits | src/base64.cpp:72-103 | Bit n of byte i is bit (8i + n) mod 6 of the character at (8i + n) / 6, as section 4 of RFC 4648 asks |
| Base64Theorems.RefusedIffCorrupt | src/base64.cpp:137-153 | A text is refused as corrupt exactly if decoding reaches a block with a character from outside the alphabet or with padding in its first two places; what stands behind a padded block does not matter |
| Base64.Encode | src/base64.cpp:48-106 | Returns a negative number, which is -1, exactly for a negative length or a buffer that is too small; answers size queries, and otherwise fills exactly ((n+2)/3)*4 characters with the encoding and touches no other |
| Base64.Decode | src/base64.cpp:108-156 | Returns a negative number, which is -1, exactly for a negative or misaligned length, a buffer that is too small or corrupt text; answers size queries, and otherwise writes exactly the decoded bytes, also in place |
| Base64.EncodedWritten | src/base64.cpp:76-102 | The shifts and masks of the mod-3 states write the fields of the 24-bit groups |
| Base64Spec.FieldsOfGroup | src/base64.cpp:148-152 | Splitting three bytes into four fields and putting them together is the identity |

## Left out

- LinearAllocator: its rollback can leave the current position below a live cell, so the properties one would want do not hold of it.
- `BuddyAllocator::calloc` when its product wraps, the unused `buddyAddrOf`, the global slot table, tracing output and the STL wrapper.
- The allocator's `malloc` calls are taken to succeed. A pointer is an offset into the pool, `INVALID_VALUE` is the absence of a value, pointers take eight bytes, and the helper functions that split long bodies are the model's own.
- Calls that break the allocator's contract (freeing an address that is marked in use but not live, or with the size of another class) are not modelled; the debug assertions are not either.
- BuddyAllocator.BuddyAllocatorDetails.ResetHwm: models `hwmBytes(true)` only, since `hwmBytes(false)` just reads the field.
- Socket calls, address resolution, endpoint status and callback bodies of the multiplexer: performing an operation either completes with any result or would block. A failing `epoll_ctl` is taken to arm all the same. Whether a failed connect can be reported as success is not claimed.
- The multiplexer's `depart` and repeated `join`, which drop queued operations, and its kqueue and IOCP variants. The endpoint that an accept joins, and submissions made from inside a callback, are steps of another thread, so a worker whose callbacks submit counts as two. Any thread may run `runOnce`; where a result speaks of two threads, either may be a worker.
- MuxEngine.NetIoMuxImpl.RunOnce: covers calls that are not interrupted; all interleavings are covered by the state machine, whose steps the same code makes. A context is a value in a map rather than an object of its own, an operation is identified by a number instead of its address, and the steps inside a loop body are methods.
- MuxFifo.NetIoMuxSyncFifo.Erase: in the program only `depart` calls it, so no other member of the model does.
- Fairness and wake-up times of the multiplexer: MuxDrain.NothingLostForGood gives a continuation from every state, not that every fair schedule takes it. Of a callback only its entry is a step; how long it runs and what it does is not modelled.
- Strict UTF-8 validation: overlong, five- and six-byte forms are accepted as the reader accepts them, so section 3 of RFC 3629 is not met.
- Units are stored widened to 32 bits, and the two abstract classes of the transcoder are datatypes over the concrete ones.
- UtfConv.UtfConvInner: a destination that is the source buffer itself is excluded.
- UtfString.Transcode: source strings of 2^29 units or more, whose buffer size wraps, are excluded; `to_wchar` is one of the three forms and has no member of its own.
- GetoptScan.Getopt.Permute: xoptopt after the permutation is not specified; with an option character of code 255, whose report looks like the end, only the partition is stated, not which elements are detached.
- GetoptScan.Getopt.XGetopt: xoptopt after the call that permutes is not specified.
- getopt's error messages, `xgetsubopt`, and the three exported functions that only choose arguments. A second permutation of a permuted argv need not be the identity and nothing is claimed about it.
- Base64.Encode: lengths whose encoding exceeds the range of int are excluded, as the size computation overflows there, and so are overlapping buffers.
- UUIDs, reference counts, delegates, thread-local storage, coroutines, thread and event wrappers, lexical casts and string formatting.
