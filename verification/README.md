# EBBlib primitives: models and proofs

EBBlib builds operating-system objects ("elastic building blocks") out of per-core
representatives. This project models the parts of it that keep state and must keep an
invariant over every run, and proves what they promise.

| files | what they model |
|---|---|
| `Blocks.dfy`, `HeapLive.dfy`, `Tiling.dfy`, `MemMgrPrimSimple.dfy`, `HeapRuns.dfy` | the first-fit allocator with boundary tags: the tags in a word array, overwritten in place, against a list of blocks; when no list describes the memory any more; whole runs |
| `MsgMgr.dfy`, `MsgMgrState.dfy`, `MsgMgrOwnership.dfy`, `MsgMgrLookup.dfy`, `MsgMgrAccounts.dfy`, `MsgMgrInvariant.dfy`, `MsgMgrTheorems.dfy`, `MsgMgrSends.dfy`, `MsgMgrProgress.dfy` | the cross-core message manager as a machine: senders, interrupt handlers, registrations and inter-processor interrupts interleave, a critical section is one step, and so is each node of a walk along the root's list |
| `MsgMgrPrim.dfy` | the same calls on linked `MsgStore` objects in place, one call at a time |
| `Trans.dfy`, `TransTheorems.dfy`, `TransReps.dfy`, `TransTable.dfy` | EBB translation: the global table, one cached pointer per core and id, default function table, miss, bind, ids; cached against slow dispatch |
| `RootMulti.dfy`, `RootMultiCalls.dfy` | the lock and the list of the multi root, one memory access a step |
| `Barrier.dfy` | the sense-reversing barrier, one memory access a step |
| `StartInfo.dfy` | the start-info buffer: its serializer, which strips `-ebbos` arguments, and its parser |
| `CtrDistributed.dfy`, `CtrTorn.dfy` | the distributed counter, with wrap-around of its words; when its value can be torn |
| `Common.dfy` | what several of them share |

A protocol is a function `Step` on states; a run is any sequence of actions, in any order,
by any thread; an action that is not possible changes nothing. What callers are promised is
stated against the actions of the run themselves, and that calls return against a measure
that every step of an actor lowers. Methods that update arrays
and fields in place are specified by the same functions, so that theorems about runs speak
of the methods too. Where the code behaves badly the model does the same, and the exact
condition under which it behaves well is proved.

## What the code does that its authors may not have meant

- `l0/MemMgrPrimSimple.c:161-162` copies the last tag of the chosen block to the word behind
  the new block. After an exact fit that word is the header of the *next* block. The model
  keeps the store. When the next block is the epilogue, nothing is lost: of its header the
  code reads the used bit, and a size that leads past the end. So a list of blocks describes a
  memory (`Realises`) when the tags are as they should be up to the size in that header. After
  `Heap.Alloc` some well-formed list describes the memory *if and only if* `KeepsHeap` holds:
  nothing was found; or the adjusted size is at least two words, and there is a remainder or
  the next block is the epilogue or happens to have the very size that was asked for.
  `ExactFitExample` is a run of three calls after which an exact fit overwrites the
  header of a live block in the middle of the heap, which can then no longer be freed with its
  own size (`NextBlockIsStuck`). Runs (`RunKeeps`, `RunTiled`, `PayloadSurvives`) are runs of
  allocations for which `KeepsHeap` holds, of frees, and of writes by the owners of live blocks.
- `l0/MemMgrPrimSimple.c:138-143` adds the tags to the size without checking for overflow:
  `AdjustedSizeCovers` says for which requests the result is large enough. A size that wraps to
  zero makes the last word before the chosen block a tag of size zero, and the heap is lost.
- `l0/sys/trans.c:106` tests a bit with OR, so the test is always true. `IntendedTestWouldDo`
  proves that a test with AND would leave the same tables.
- `TransEBBIdFree` (`l0/sys/trans.c:191-195`) stores the mark that means allocated: no id is
  ever reused (`NoIdTwice`).
- `CObjEBBRootMulti_addRepOn` does not look whether the location has a representative or a
  warm entry. `AddRepOnAgreesIff` gives the exact condition under which every call still does
  what dispatch through the root does, and runs (`CachedRefinesSlow`) keep to it;
  `AddRepOnCanDisagree` is a run after which one call does not.
- `l1/L1Prim.c:102-104` says that `environc` is one greater than the number of entries, to
  leave room for a NULL. It is the number of entries; the NULL goes one slot behind what was
  allocated, and `environc` ends up one less than the number of strings. `InitArgvAndEnv`
  states what happens.
- `lrt/ulnx/lrt_start.c:119` converts the NULL behind the last argument when `-ebbos_cores`
  comes last. `StartInfo` proves that this is the only way to crash, and `DanglingIff` that it
  happens if and only if the arguments end with an odd number of `-ebbos_cores`.
- `l1/L1Prim.c:87` multiplies the argument count, an int, with the size of a pointer. For a
  count of -1 or -2 the allocator's adjusted size wraps to one word or to none, the request is
  served and the parser goes on with no arguments; all other negative counts are refused
  (`RefusedIff`).
- `val` of the distributed counter can return a value that the counter at no moment had while
  `val` ran (`TornVal`). `TornIff` says exactly when: there is a representative when it begins,
  there are two by its end, and both an increment and a decrement come in beside it. In every
  run the value is the count at the start with some of the increments and some of the
  decrements since (`ValExplained`).

## Model

| member | source | states |
|---|---|---|
| MemMgrPrimSimple.Heap.constructor | l0/MemMgrPrimSimple.c:81-127 | any aligned end and region with room for the sentinels and one block gives a well-formed heap of exactly one free block between used sentinels |
| MemMgrPrimSimple.AdjustedSizeCovers | l0/MemMgrPrimSimple.c:137-143 | the adjusted size has room for the request and two tags if and only if the 64-bit sums do not wrap, wastes less than a word, and is the size free will accept |
| MemMgrPrimSimple.Heap.FindFree | l0/MemMgrPrimSimple.c:145-148 | the header walk ends, stops at the lowest free block that is large enough, and passes the end exactly when there is none |
| MemMgrPrimSimple.Heap.LayOut | l0/MemMgrPrimSimple.c:98-119 | the tag stores leave the sentinels at both ends and one free block between them |
| MemMgrPrimSimple.Heap.Carve | l0/MemMgrPrimSimple.c:155-163 | which words the five tag stores change, for a remainder, an exact fit and a size of zero alike, and that no other word changes |
| MemMgrPrimSimple.CarveStoresCarve | l0/MemMgrPrimSimple.c:155-162 | the five stores one after the other, where they overlap too, add up to the new tags and nothing else |
| MemMgrPrimSimple.Heap.Alloc | l0/MemMgrPrimSimple.c:129-166 | for every request, out of resources exactly when no free block fits, memory then untouched; else the payload address of the first fit and the changed words; afterwards some well-formed list of blocks describes the memory if and only if KeepsHeap, and then it is the first-fit list |
| MemMgrPrimSimple.AllocRealised | l0/MemMgrPrimSimple.c:155-163 | the words that alloc leaves realise the first-fit block list if and only if the exact-fit store was harmless |
| MemMgrPrimSimple.Heap.MergeExtent | l0/MemMgrPrimSimple.c:174-201 | the neighbours' tags alone give the first and last tag and the size of the coalesced block, in all four cases |
| MemMgrPrimSimple.Heap.Free | l0/MemMgrPrimSimple.c:168-208 | accepted if and only if the rounded size is the recorded one; then the block is merged with its free neighbours, only two words change and the heap stays well-formed; else nothing changes |
| Blocks.FirstFit | l0/MemMgrPrimSimple.c:145-150 | the chosen index is that of the lowest free block that is large enough |
| Blocks.AllocRetiles | l0/MemMgrPrimSimple.c:155-163 | after the tag stores of alloc, whenever KeepsHeap, headers and footers agree everywhere for the new block list, up to the size in the epilogue's header |
| Blocks.AllocWellFormed | l0/MemMgrPrimSimple.c:155-163 | sentinels, block sizes and the absence of free neighbours survive an allocation of two words or more |
| Blocks.ExactFitExample | l0/MemMgrPrimSimple.c:161-162 | from the initial heap, two allocations and a free lead to a heap in which the next request fits exactly before a live block of another size, and is not kept |
| Tiling.TilingUnique | l0/MemMgrPrimSimple.c:65-74 | a memory is tiled by at most one list of blocks |
| Tiling.ExactFitLosesTheHeap | l0/MemMgrPrimSimple.c:161-162 | after an exact fit before a block of another size no list of blocks agrees with every tag |
| Tiling.ZeroIsLost | l0/MemMgrPrimSimple.c:137-162 | after an allocation whose adjusted size wrapped to zero no list of blocks tiles the memory |
| Tiling.LastWordIsLost | l0/MemMgrPrimSimple.c:155-163 | a request of one word, its adjusted size having wrapped, that fits exactly before the epilogue leaves a header there that no longer leads past the end |
| Tiling.HeapSurvivesIff | l0/MemMgrPrimSimple.c:155-163 | after any allocation that found a block, some well-formed list of blocks describes the memory, up to the size in the epilogue's header, if and only if KeepsHeap |
| Tiling.NextBlockIsStuck | l0/MemMgrPrimSimple.c:161-174 | behind a request that does not keep the heap, for two words or more, lies a live block whose header now records another size than its own, the one that free compares with |
| Blocks.FreeRetiles | l0/MemMgrPrimSimple.c:189-205 | after the three tag stores of free, headers and footers agree everywhere for the merged list, up to the size in the epilogue's header |
| Blocks.FreeWellFormed | l0/MemMgrPrimSimple.c:189-205 | coalescing leaves no two free neighbours and keeps the sentinels |
| Blocks.AllocThenFree | l0/MemMgrPrimSimple.c:154-205 | freeing what was just allocated restores the same sequence of sizes and used bits |
| Blocks.RunKeeps | l0/MemMgrPrimSimple.c:129-208 | every run of allocations that keep the heap, frees and writes to live blocks keeps the block list well-formed and of the same total size |
| HeapLive.AllocLive | l0/MemMgrPrimSimple.c:150-163 | the live blocks after an allocation are, place and size, those from before and the one handed out |
| HeapLive.FreeLive | l0/MemMgrPrimSimple.c:189-205 | the live blocks after a free are, place and size, those from before but the one freed |
| HeapLive.FreedIsFree | l0/MemMgrPrimSimple.c:202-205 | the freed block lies within a block that is not in use |
| HeapLive.RunLive | l0/MemMgrPrimSimple.c:129-208 | over every run, what is live is what the calls handed out and did not take back, each where it was handed out and of the size asked for |
| HeapLive.AllFreedIsInitial | l0/MemMgrPrimSimple.c:168-208 | after every run in which each block that an allocation handed out is freed later, in whatever order, the heap is the single maximal block that init_rep built |
| Blocks.PayloadsDisjoint | l0/MemMgrPrimSimple.c:129-166 | a payload word lies in the region, belongs to one block and is no tag of any block |
| Blocks.AllocServes | l0/MemMgrPrimSimple.c:150-163 | an allocation hands out a live block of exactly the adjusted length inside the block that was free |
| Blocks.AllocKeepsBlocks | l0/MemMgrPrimSimple.c:155-163 | an allocation leaves every live block live and in place |
| Blocks.AllocKeepsPayloads | l0/MemMgrPrimSimple.c:155-163 | an allocation, whether or not it keeps the heap, changes no word of a live payload |
| Blocks.FreeKeepsPayloads | l0/MemMgrPrimSimple.c:189-205 | a free keeps every other live block and every word of its payload |
| HeapRuns.WriteRealises | l0/MemMgrPrimSimple.c:129-166 | whatever an owner writes to a word of its live block, no tag changes |
| HeapRuns.RunTiled | l0/MemMgrPrimSimple.c:129-208 | the memory after any run, whatever the owners wrote in between, is tiled by blocks with equal headers and footers between used sentinels, up to the size in the epilogue's header |
| HeapRuns.PayloadSurvives | l0/MemMgrPrimSimple.c:129-208 | over any run, a block that is not freed keeps its place, and a word of its payload is what it was or what was last written to it |
| MsgMgrOwnership.StepOwned | l1/MsgMgrPrim.c:100-195 | every step keeps the linked queues and free lists acyclic, and every node in exactly one place |
| MsgMgrLookup.StepLookup | l1/MsgMgrPrim.c:130-195 | every step, registrations included, keeps one representative per location, caches that hold NULL or it, and walks that have not passed it |
| MsgMgrAccounts.StepAccounts | l1/MsgMgrPrim.c:100-315 | every step keeps what was accepted equal to what was delivered, queued, in hand and carried by senders |
| MsgMgrInvariant.StepInv | l1/MsgMgrPrim.c:100-325 | every step of every sender, handler, registration and interrupt keeps all of these and wakefulness |
| MsgMgrTheorems.NoLostWakeup | l1/MsgMgrPrim.c:100-128 | in every reachable state a queued message has a pending IPI, a handler that will dequeue again or a sender about to notify |
| MsgMgrTheorems.ExactlyOnceDelivery | l1/MsgMgrPrim.c:197-315 | the sends that findTarget accepted are, as a multiset with ids and arguments, those delivered, queued, in hand or still carried by senders; the list from the queue head is the queue |
| MsgMgrTheorems.QuiescentMeansDelivered | l1/MsgMgrPrim.c:197-325 | when nobody is under way every send that findTarget accepted was delivered |
| MsgMgrTheorems.ExactlyOnePlace | l1/MsgMgrPrim.c:100-195 | each MsgStore is in exactly one queue, free list, sender or handler |
| MsgMgrTheorems.CachesAgree | l1/MsgMgrPrim.c:130-153 | in every reachable state each cached reps[loc] is NULL or what a walk of the root's list finds for loc |
| MsgMgrTheorems.SendFindsTarget | l1/MsgMgrPrim.c:130-153 | findTarget, by cache or by a walk racing registrations, gives a sender the one representative of the location it asked for; it refuses only if none was on the list when the walk began |
| MsgMgrTheorems.FreeFindsHome | l1/MsgMgrPrim.c:182-195 | freeMsg's findTarget, by cache or by a walk racing registrations, returns the representative of the node's home, so its assertion never fires and the push goes there; a free list holds only nodes of its own location |
| MsgMgrTheorems.NoDanglingNode | l1/MsgMgrPrim.c:100-195 | what senders, handlers and list heads refer to exists |
| MsgMgrTheorems.QueueStep | l1/MsgMgrPrim.c:100-128 | a step pushes one node on a queue, pops its top or leaves it alone |
| MsgMgrTheorems.LastInFirstOut | l1/MsgMgrPrim.c:100-128 | over any run, the k oldest messages wait untouched and in order as long as k messages remain |
| MsgMgrSends.SendBegins | l1/MsgMgrPrim.c:197-285 | a call begins with exactly its own core, location and message, at the list's head or with the location's representative; with more than three arguments or from an unregistered core nothing happens |
| MsgMgrSends.AllocReuses | l1/MsgMgrPrim.c:155-180 | a call takes the top of its own core's free list, new memory only if that is empty, and goes on with its own message |
| MsgMgrSends.EnqueueNotifies | l1/MsgMgrPrim.c:100-115 | the message goes on top of its location's queue, and an IPI is due exactly if the queue was empty |
| MsgMgrSends.SendsAccounted | l1/MsgMgrPrim.c:130-285 | over every run, the calls for a location that began were accepted, refused or are still looking for its representative |
| MsgMgrSends.DeliveredWasSent | l1/MsgMgrPrim.c:197-315 | over every run, what the handlers of a location were called with is, with multiplicity, among the messages of the calls for that location |
| MsgMgrSends.EverySendDelivered | l1/MsgMgrPrim.c:197-325 | when nobody is under way, what was delivered is what the calls that began were given, less what was refused |
| MsgMgrSends.RegisteredNotRefused | l1/MsgMgrPrim.c:130-153 | from a state in which a location is registered and no call is looking for it that will miss it, no call for it is ever refused |
| MsgMgrProgress.Registers | l1/MsgMgrPrim.c:354-366 | a core that registers is found under its own location, and nobody else changes |
| MsgMgrProgress.MoveWorks | l1/MsgMgrPrim.c:100-325 | every step of a sender or a handler that changes anything lowers a measure of what is left to do |
| MsgMgrProgress.ComesToRest | l1/MsgMgrPrim.c:100-325 | from every state of the invariant such steps end, in whatever order, exactly with nobody under way and no IPI pending, and that end can be reached from everywhere on the way |
| MsgMgrProgress.EveryMessageArrives | l1/MsgMgrPrim.c:197-325 | after any run, by the time everybody has come to rest every message sent has been delivered, or its call refused |
| MsgMgrProgress.OneMessage | l1/MsgMgrPrim.c:197-325 | a message sent to a registered location while all rest is delivered there once, with its id and arguments, and no handler of another registered location is called |
| MsgMgrPrim.Rep.FindTarget | l1/MsgMgrPrim.c:130-153 | cached or walked, the result is the first representative for the location; the cache stays right |
| MsgMgrPrim.CacheGrows | l1/MsgMgrPrim.c:130-153 | a representative for a new location leaves every cached entry right |
| MsgMgrPrim.Rep.EnqueueMsg | l1/MsgMgrPrim.c:100-115 | the node is on top of the linked queue, the rest unchanged; an IPI is due exactly when it was empty |
| MsgMgrPrim.Rep.DequeueMsgHead | l1/MsgMgrPrim.c:117-128 | NULL exactly on an empty queue, else its top, which is removed |
| MsgMgrPrim.Rep.AllocMsg | l1/MsgMgrPrim.c:155-180 | the top of the own free list, or new memory exactly when it is empty; its home is this core |
| MsgMgrPrim.Rep.FreeMsg | l1/MsgMgrPrim.c:182-195 | the node goes on top of its home's free list |
| MsgMgrPrim.Rep.Send | l1/MsgMgrPrim.c:197-285 | refused exactly when the location has no representative, then nothing is taken or queued; else the message with its id and arguments is on top of the target's queue in a node taken from the own free list |
| MsgMgrPrim.Rep.Dispatch | l1/MsgMgrPrim.c:296-309 | the switch on numargs calls the handler with the id and the arguments that were stored |
| MsgMgrPrim.Rep.HandleEvent | l1/MsgMgrPrim.c:287-325 | without interference the whole queue is delivered, top first, each message once with what it says, and every node ends on the free list of its home |
| TransTheorems.CallRefines | l0/sys/defFT.c:33-44 | a call runs what slow dispatch runs, cold or warm, leaves the same roots behind and keeps the cache invariant |
| TransTheorems.CachedRefinesSlow | l0/sys/defFT.c:33-44 | over every legal run with any rebinding, where addRepOn meets the condition of AddRepOnAgreesIff, the calls' outcomes are those of dispatch through the bound root every time |
| TransReps.CallRuns | l0/sys/defFT.c:33-44 | a call, cold or warm, runs the function asked for on the shared representative or on the one then on record for the core, returns the miss function's error, or crashes unbound |
| TransReps.BindTakesEffect | l0/sys/trans.c:216-224 | the next call on every core runs the new binding, and calls on other ids run what they ran |
| TransReps.MissMakesNew | l0/cobj/CObjEBBRootMultiImp.c:117-121 | a miss with nothing on record returns an object that no root has on record and takes its memory out of what is free |
| TransReps.BootBelow | l0/sys/trans.c:147-172 | freshly initialised tables meet what the next row asks of its start |
| TransReps.RunMakesNew | l0/cobj/CObjEBBRootMultiImp.c:117-121 | over every run in which callers bind and add objects that exist, a call that makes its representative runs one that no root has on record and no id is bound to |
| TransReps.CreatedDiffer | l0/cobj/CObjEBBRootMultiImp.c:117-121 | over every legal run, two calls that make their representatives, on whatever cores and through whatever roots, run different objects |
| TransReps.PortionsDivide | l0/sys/trans.c:48-80 | the table is as large as its entries, and every entry is in the portion of exactly one of 64 cores |
| TransReps.AllExhausted | l0/sys/trans.c:174-189 | with 64 cores, no core gets an id any more if and only if every entry of the table is taken |
| TransReps.IdFromOwnPortion | l0/sys/trans.c:174-189 | over every run, an id given to a core is an entry of its own portion that was not taken |
| TransReps.FreedNotHandedOut | l0/sys/trans.c:191-195 | over every run, a freed id, allocated before or not, is never handed out afterwards |
| Trans.Recovered | l0/sys/defFT.c:34-37 | from the pointer in a cold entry the default function recovers that entry and its id's global entry |
| TransTheorems.BindMakesCold | l0/sys/trans.c:199-224 | after a bind every core's entry for the id is cold and every other entry is untouched |
| TransTheorems.BindInv | l0/sys/trans.c:216-224 | a bind changes, for slow dispatch, exactly the id's binding, and keeps the cache invariant |
| TransTheorems.IntendedTestWouldDo | l0/sys/trans.c:95-108 | since a warm entry always has its bit set, the test meant instead of the OR would leave the same tables |
| TransTheorems.AddRepOnAgreesIff | l0/cobj/CObjEBBRootMultiImp.c:97-105 | after addRepOn every call on every core does what slow dispatch does if and only if the core at that location had cached no other representative of the root |
| TransTheorems.AddRepOnKeepsInv | l0/cobj/CObjEBBRootMultiImp.c:97-105 | under the same condition, and no other, the cache invariant is kept |
| TransTheorems.StaleCall | l0/cobj/CObjEBBRootMultiImp.c:97-105 | a core with another representative cached goes on running it |
| TransTheorems.AddRepOnCanDisagree | l0/cobj/CObjEBBRootMultiImp.c:97-105 | such a run: boot, a new root, a bind, a call, a second addRepOn, and a call that runs the old representative |
| TransTheorems.Boot | l0/sys/trans.c:147-172 | freshly initialised tables satisfy the cache invariant |
| TransTheorems.StepInv | l0/sys/trans.c:95-224 | calls, binds, addRepOn, new roots and the id operations keep the cache invariant |
| TransTheorems.TakenNotHandedOut | l0/sys/trans.c:174-195 | a taken id is never handed out later in the run, on any core, freed or not |
| TransTheorems.NoIdTwice | l0/sys/trans.c:174-195 | no id is handed out twice in any run |
| Trans.AllocIdTakesFirst | l0/sys/trans.c:174-189 | fails exactly when the core's own portion is used up; else takes the first entry of it that was not taken, and changes nothing else |
| Trans.MissRecords | l0/cobj/CObjEBBRootMultiImp.c:107-126 | what a miss returns is on record for the location afterwards, other locations and roots keep theirs, and a second miss changes nothing |
| Trans.FirstFree | l0/sys/trans.c:181-188 | the scan's result is the first entry of the core's portion that is not taken |
| TransTable.Start | l0/sys/trans.c:147-172 | clearing the global table and running initLTable for every core gives the state from which the theorems about runs start |
| TransTable.Tables.InitLTable | l0/sys/trans.c:162-172 | every entry of the own local table is cold, no other core's entry changes |
| TransTable.Tables.IdAlloc | l0/sys/trans.c:174-189 | the scan loop returns and takes what AllocId says |
| TransTable.Tables.IdFree | l0/sys/trans.c:191-195 | the entry is marked allocated, nothing else changes |
| TransTable.Tables.InvalidateCaches | l0/sys/trans.c:199-214 | from any core, the loop round the ring ends and resets every core's entry for the id and no other |
| TransTable.Tables.IdBind | l0/sys/trans.c:216-224 | in place, on whatever core it runs, a bind is the Bind of the run theorems |
| TransTable.Tables.FindRep | l0/cobj/CObjEBBRootMultiImp.c:62-78 | the walk finds the first node for the location |
| TransTable.Tables.RootRep | l0/cobj/CObjEBBRootMultiImp.c:107-122 | a miss uses the location's representative or prepends a new one |
| TransTable.Tables.Cache | l0/sys/trans.c:110-115 | the representative goes into the local entry and the core's bit into the matching global entry |
| TransTable.Tables.GenericDefaultFunc | l0/sys/defFT.c:33-44 | in place, the default function is the DefaultFunc of the run theorems, error and success alike |
| RootMulti.RunInv | l0/cobj/CObjEBBRootMultiImp.c:47-149 | in every interleaving the list is acyclic with one node per location, at most one thread is in the critical section, and threads know what they need |
| RootMulti.OneRepPerLocation | l0/cobj/CObjEBBRootMultiImp.c:107-126 | createRep runs at most once per location, and the list has at most one node for it |
| RootMulti.MissesAgree | l0/cobj/CObjEBBRootMultiImp.c:107-126 | all misses on a location return the same representative |
| RootMulti.WalkSeesSnapshot | l0/cobj/CObjEBBRootMultiImp.c:129-149 | a walk without the lock sees, in order, the reps of exactly the nodes of its snapshot, which stay on the list |
| RootMultiCalls.MissingAsked | l0/cobj/CObjEBBRootMultiImp.c:107-126 | in every interleaving, a thread in handleMiss is there for the location of the miss it began last |
| RootMultiCalls.ResultsAsked | l0/cobj/CObjEBBRootMultiImp.c:107-126 | every result is that of a miss on its location among the actions |
| RootMultiCalls.MissAnswered | l0/cobj/CObjEBBRootMultiImp.c:107-126 | every miss that began is still under way on its location or has had a result for it |
| RootMultiCalls.LocationsDiffer | l0/cobj/CObjEBBRootMultiImp.c:80-126 | misses on different locations return different representatives, never NULL |
| RootMultiCalls.MissReturns | l0/cobj/CObjEBBRootMultiImp.c:107-126 | from any state of the invariant, a miss that finds the lock free and is not interrupted returns, with the representative then on the list for its location |
| RootMultiCalls.CallsReturn | l0/cobj/CObjEBBRootMultiImp.c:47-149 | no access that changes anything is left after n(l + n + 7) of them at most, for n threads and l nodes, which is so exactly when every call has returned, and that end can be reached from everywhere on the way |
| RootMultiCalls.WalkSeesList | l0/cobj/CObjEBBRootMultiImp.c:129-149 | in every interleaving, a walk that has ended has seen, in order, the representatives of exactly the nodes on the list when it began |
| RootMultiCalls.WalkReturns | l0/cobj/CObjEBBRootMultiImp.c:129-149 | an enumeration that is not interrupted ends after one access for each node and one more, with all representatives in order |
| Barrier.RunInv | apps/bindtst/bindtst.c:204-227 | the inductive invariant over program counters, count and sense holds in every run |
| Barrier.NoThreadRunsAhead | apps/bindtst/bindtst.c:213-227 | nobody returns from round k before all entered it; completed rounds differ by at most one |
| Barrier.SenseFlipsOnlyWhenAllArrived | apps/bindtst/bindtst.c:219-222 | the sense changes only when everybody left all earlier rounds and took the count in this one |
| Barrier.SomeThreadCanMove | apps/bindtst/bindtst.c:213-227 | with every thread inside a call some thread can make progress |
| Barrier.MoveWorks | apps/bindtst/bindtst.c:213-227 | every access that changes anything takes its thread nearer to the end of its calls |
| Barrier.CallsReturn | apps/bindtst/bindtst.c:213-227 | when each of n threads makes k calls, then in whatever order they move no access that changes anything is left after 4kn of them at most, which is so exactly when every call has returned, and that end can be reached from everywhere on the way |
| Barrier.BarrierSystem.Advance | apps/bindtst/bindtst.c:213-227 | in place, a memory access of a thread is the Step of the run theorems |
| Barrier.BarrierSystem.Execute | apps/bindtst/bindtst.c:213-227 | any schedule executed in place ends in the state of Run and keeps the invariant |
| StartInfo.StartInfo | lrt/ulnx/lrt_start.c:128-185 | crashes exactly on a dangling -ebbos_cores; else the buffer is the stripped arguments and the environment, the size computed by subtraction is the bytes written (the source's assertion), and it never exceeds the allocated size |
| StartInfo.DanglingIff | lrt/ulnx/lrt_start.c:110-126 | what makes it crash, as a caller can see it: an odd number of -ebbos_cores at the end |
| StartInfo.DanglingExample | lrt/ulnx/lrt_start.c:116-119 | the shortest input that crashes, and two like it that do not |
| StartInfo.WriteArgs | lrt/ulnx/lrt_start.c:159-173 | the strip loop writes the kept arguments and their count, and takes the others out of the size |
| StartInfo.TakeOut | lrt/ulnx/lrt_start.c:164-166 | the inner loop takes exactly the processed arguments' bytes off the size |
| StartInfo.WriteEnv | lrt/ulnx/lrt_start.c:175-179 | the environment is appended, string by string |
| StartInfo.StripShorter | lrt/ulnx/lrt_start.c:159-173 | stripping never needs more arguments or bytes than there were |
| StartInfo.StripIs | lrt/ulnx/lrt_start.c:110-173 | argument by argument, in order, those are kept that neither begin with -ebbos nor follow an odd number of -ebbos_cores right before them; the cores come from the last that does |
| StartInfo.StripKeeps | lrt/ulnx/lrt_start.c:159-173 | only arguments that do not begin with -ebbos are left, and they are still C strings |
| StartInfo.StripIdentity | lrt/ulnx/lrt_start.c:159-173 | the arguments are all kept if and only if none begins with -ebbos |
| StartInfo.InitArgvAndEnv | l1/L1Prim.c:67-118 | parsing succeeds if and only if the buffer holds whole strings, at least as many as its count says, where -1 and -2 stand for none; then argv and environ point at them in order, the source's assertion holds, and the NULL goes one slot behind the allocation |
| StartInfo.RefusedIff | l1/L1Prim.c:84-89 | of all counts exactly those below -2 ask for more than any block can hold |
| StartInfo.ParseArgv | l1/L1Prim.c:90-94 | the argument loop takes the first strings of the buffer, none for a negative count, or runs off its end |
| StartInfo.CountEnviron | l1/L1Prim.c:96-101 | the counting pass ends exactly at the end of the buffer with the number of strings, or runs over it |
| StartInfo.FillEnviron | l1/L1Prim.c:109-115 | the second pass stores the start of every environment string and ends at the index of the NULL |
| StartInfo.HandOver | l1/L1Prim.c:67-118 | startinfo, then initArgvAndEnv on its buffer: unless it crashes, parsing succeeds and every pointer in argv and environ denotes its string |
| StartInfo.RoundTrip | l1/L1Prim.c:67-118 | parsing what startinfo wrote gives back the stripped arguments and the environment, in order, for every argv and environment |
| CtrDistributed.StepInv | misc/CtrPrimDistributed.c:60-102 | the local words keep adding up to the incs less the decs modulo the word size, and readers stay consistent |
| CtrDistributed.ValExplained | misc/CtrPrimDistributed.c:78-92 | over every run, a val returned the count at its start with some of the incs and some of the decs since, modulo the word size |
| CtrDistributed.QuiescentVal | misc/CtrPrimDistributed.c:78-92 | a val beside which nobody counted returned the incs less the decs modulo the word size, even after local words wrapped |
| CtrDistributed.ConcurrentVal | misc/CtrPrimDistributed.c:78-92 | with incs only beside it, whatever came before, val lies between the totals at its start and at its end if a word holds both |
| CtrDistributed.ConcurrentValDown | misc/CtrPrimDistributed.c:78-92 | likewise with decs only |
| CtrTorn.TornNeedsBoth | misc/CtrPrimDistributed.c:78-92 | over every run, a val that returned a value which the counter had at no moment while it ran had both an inc and a dec beside it, a representative at its start and two by its end |
| CtrTorn.TornIff | misc/CtrPrimDistributed.c:60-102 | in every state that satisfies the invariant, a val about to begin can be torn if and only if incs and decs may both come in beside it and it has a representative to read and there are two, or a second may be created by its end |
| CtrTorn.TornVal | misc/CtrPrimDistributed.c:69-92 | such a run from the start: val returns a value the counter never had |
| CtrDistributed.Ctr.Val | misc/CtrPrimDistributed.c:78-92 | the loop over the representatives returns the sum of their words modulo the word size |
| CtrDistributed.Ctr.Inc | misc/CtrPrimDistributed.c:60-67 | one word goes up by one modulo the word size, no other changes |
| CtrDistributed.Ctr.Dec | misc/CtrPrimDistributed.c:69-76 | one word goes down by one modulo the word size, no other changes |
| CtrDistributed.Ctr.CreateRep | misc/CtrPrimDistributed.c:94-102 | a new word starts at zero and changes no other |

## Left out

- The interrupt controller and the IPI hardware: the message machine has a latch of one pending IPI per core, set by senders or at any other time, cleared by the handler's acknowledgement.
- Weak memory ordering: steps are sequentially consistent, compare-and-swap and fetch-and-sub are atomic.
- The message machine and the root's lock machine work on values, because they interleave; `MsgMgrPrim.dfy` and `TransTable.dfy` hold the same code on objects and arrays, without interleaving. In the message machine a registration is one step; its lock is in `RootMulti.dfy`.
- What a message's handler does while it runs: it may send messages like any other sender, and nothing else of it is modelled.
- In translation, binds and misses are atomic steps; the application that rebinds separates them by barriers. The root's lock is in `RootMulti.dfy` only, whose machine has no addRepOn step, since it is addRepOn that can give a location a second representative.
- The address maps of l0/lrt/ulnx/trans.h are taken with their constants; other platforms' maps are not modelled. initGTable's test of early allocations is left out: `Boot` starts with nothing taken.
- Calls through COBJ_EBBCALL end in a representative and a function number; the functions themselves and the assembly of the default function stubs are not modelled.
- TransReps.RunMakesNew: an object that callers bind or add is one that exists, below the next free address; the source takes any pointer. The other theorems on runs of the translation do not need this.
- Fairness: what ends is every sequence of steps that change something; that the hardware lets a waiting thread or core take its turn is not modelled.
- Allocation failure: the code asserts success of every allocation in these files.
- MemMgrPrimSimple.Heap.constructor: assumes an aligned end and a region whose size fits a tag, where the source only asserts the latter.
- MemMgrPrimSimple.Heap.Free: assumes a pointer that alloc handed out and that is still live; the source has no defence against others but a warning.
- HeapRuns.RunTiled: runs contain only allocations that keep the heap, that is, without the harmful exact fit and without a request whose adjusted size is below two words. Addresses do not wrap around, so a walk that passes an overwritten epilogue ends.
- StartInfo.StartInfo: the length is unbounded where the source has an int, the number of arguments is below 2 to the 31; the conversion of the value of -ebbos_cores by atoi is not modelled, only which argument it is applied to.
- StartInfo.InitArgvAndEnv: like every allocation in these files, those for counts of -1 and -2 are taken to find a block; what such a request does to the heap is in `Tiling.dfy` (`OneWordIsLost`, `ZeroIsLost`).
- l0/EventMgrPrimImp.c, l0/MemMgrPrimStupid.c, shared and C++ roots, boot wiring, arch, I/O and the cache under contrib: generated code, thin dispatch or easy claims.
- Destroying and unbinding ids: not implemented in the source.
