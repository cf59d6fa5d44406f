# Toccata, modelled and proved

Toccata is an allocator that never stalls: small objects come from 64 KiB spans tiled for one size class,
large ones from runs of whole spans, and fixed-size frames from a separate pool. This project models the
parts that have to be right for that to work and proves what they promise. Run `dafny verify dfyconfig.toml`
with a resource limit of a few million and `--verification-time-limit 0`.

## What is modelled

Two kinds of model meet here.

Step machines, where every load or store that another thread can fall between is a step of its own, and a
theorem speaks of every run of every number of threads:

* `lifecycle.dfy`, `steps.dfy`, `safety.dfy`: spans and slots from carve to reclaim, that every step keeps the
  invariant, and what that promises. Threads lock cells, fold deposits (peek, swap and
  merge are three steps), hand slots out, deposit masks, carve from the pool or the bump cursor, write the span
  table entry by entry, tile, sweep (a span is counted word by word and its deposits looked at again), retire,
  and take and free large runs. A layout says at which one place every slot and every span is.
* `moves.dfy`, `finishing.dfy`, `hints.dfy`: runs step by step, the way out of every lock, and reuse hints that
  name a span of another shard.
* `operations.dfy`: what each whole operation gets done, for a thread that is left alone while all others stand
  anywhere: a carve, a take, a free, a sweep, a large allocation and a large free.
* `rseq.dfy`: the per-CPU stacks, one step an instruction of the restartable sequences, with a kernel that
  preempts, migrates and aborts, and a supervisor that seizes a CPU and edits its stacks. `calls.dfy`: when a call
  succeeds, when it gives up, and what a seizure gets done.

Imperative code over arrays and objects, in the source's own loops, proved against what it is for. Where
other threads can act between two statements a method `Interfere` or `Contend` stands for whatever they do:

* `spanpool.dfy`: the coalescing index of free span runs.
* `bitmaps.dfy`, `central.dfy`, `subheap.dfy`: the two bitmaps, the active lists, and a cell's take, carve,
  refill, reclaim and sweep on a real span pool, span table and arena.
* `arena.dfy`, `table.dfy`, `geometry.dfy`: the bump cursor, the span table, and span and slot arithmetic.
* `frames.dfy`, `buffers.dfy`: the frame pool with its caches, and the handles over one frame.
* `magazine.dfy`: a thread's magazine and its refill from a central cell, the locked stack, and the batched free.

`words.dfy` is a 64-bit bitmap word as the set of its one-bit positions, and the few sets and sequences all parts
share; `places.dfy` is the bookkeeping of things that are each at one place.

## What is assumed

* Memory is sequentially consistent, spin locks exclude, and the reserved region exists. The barrier is one
  step that restarts the section under way on a CPU.
* Size classes are positive multiples of 8 bytes.
* A carve for a class above the span size gets all the spans it asks for or none. The code does not
  establish this: it cuts a claim down to what is left. `Arena.GroupFitsIffEnoughLeft` says exactly when the
  object lies inside its run, and `SubHeaps.ShortGroupRun` is a run in which one is handed out that does not. In
  `subheap.dfy` the assumption is the predicate `Whole`, and only a reclaim needs it; `SubHeaps.SubHeap.CentralCarve`
  says when a carve keeps it.
* A take through a hint that names a span of another shard is one atomic step. The code checks the class only
  and holds its own cell's lock only. Any hint is safe under this assumption (`SubHeaps.SubHeap.CentralTake`,
  `Safety.ForeignHintHandsOutOwnClass`). Without it `Hints.HintSafeIffHomed` shows that what is missing from
  the check is exactly the home, and `Hints.StaleHintDoubleHandOut` is a run in which two threads are handed
  one slot.
* A shard id is below 65536 or already reduced. `SpanTables.HomeLeadsBackIff` says when the recorded home of a
  carve with a larger id leads back to its cell, `SpanTables.HomeAstrayExample` shows one that does not.
* The rseq stacks and the locked stacks are not mixed. At most one supervisor has a CPU seized.

## Where the code and its comments differ

The model follows the code.

* `toccata-core/src/magazine.rs:242-252`: the comment drains the top of the magazine and calls it the oldest;
  the code drains the bottom 24 and keeps the top 8.
* `toccata-core/src/magazine.rs:183-189`: the comment gives the batch as half a magazine; it is a whole one.
* `toccata-core/src/subheap.rs:816-828`: the comment says that a carve claims exactly one group; it may claim less.
* `toccata-core/src/subheap.rs:1163-1187`: a sweep with a cap above 32 is documented to go on until a cell
  yields no more; a reclaim collects at most 32, so the loop stops after the first. `SubHeaps.SubHeap.SweepCell`
  gives the exact condition and `SubHeaps.MissedSpanExample` a case.
* `toccata-core/src/frame.rs:496-507`: allocation is documented to fail only when the pool is exhausted; it fails
  when this CPU's stack and the central stack are empty, wherever the other free frames are.
  `Frames.StrandedExample` is a case.

## Model

| member | source | states |
|---|---|---|
| Lifecycle.InitialInv | toccata-core/src/subheap.rs:1194-1364 | An empty arena satisfies the invariant of spans, slots, table, locks and program counters. |
| Safety.StepKeepsInv | toccata-core/src/subheap.rs:629-1463 | Whatever step any thread takes next, from inside any operation, the invariant holds after it. |
| Safety.NoDoubleHandOut | toccata-core/src/subheap.rs:629-1463 | In every state any run reaches, live objects and live large runs are pairwise disjoint in bytes and inside the arena, and no live object is at a second place from which it could be handed out. |
| Safety.Conservation | toccata-core/src/meta.rs:158-228 | In every reachable state each tiled slot is at exactly one place, a swapped-out or pending mask included, and each span has exactly one owner. |
| Safety.ReclaimIsSafe | toccata-core/src/meta.rs:253-319 | From the moment a word-by-word count comes out full to the reset no slot of the span is live, cached, in a refill buffer, in a pending mask, swapped out or deposited. |
| Safety.RereadFindsZeros | toccata-core/src/meta.rs:266-277 | Once the count is full the second look at the deposited words never finds a bit: the count alone decides. |
| Safety.NoDepositAfterReclaim | toccata-core/src/subheap.rs:1194-1270 | A span that is not tiled has no slot anywhere, so nothing can be deposited into it before it is tiled again. |
| Safety.CursorOnlyAdvances | toccata-core/src/subheap.rs:174-206 | No run moves the bump cursor back. |
| Safety.LookupFindsClass | toccata-core/src/subheap.rs:1281-1295 | The pointer of every object outside the private bitmap looks up the class and home of its own cell, retirements under way included. |
| Safety.LookupFindsLargeRun | toccata-core/src/subheap.rs:1310-1364 | A live large run looks up the large class, and the run table holds its span count. |
| Safety.LiveEntryStable | toccata-core/src/subheap.rs:1281-1295 | No step changes the table entry of a span with a live object. |
| Safety.HandsOutOwnFreeSlots | toccata-core/src/subheap.rs:656-736 | The bits a take has in hand, whatever the hint named, are slots of the current tiling of a span of its own cell, at no other place. |
| Safety.ForeignHintHandsOutOwnClass | toccata-core/src/subheap.rs:656-684 | An atomic take through a hint homed elsewhere hands out only free slots of a span tiled for the class that asked. |
| Operations.CarveWorks | toccata-core/src/subheap.rs:768-865 | From any state of the invariant a carve takes its run from the pool or the bump cursor, tags all of it and tiles each span, or the group of one object: all new slots are free, and nothing else moves. |
| Operations.TakeWorks | toccata-core/src/subheap.rs:629-736 | By way of the list or of a homed hint, any free slots of a word, deposited or not, go into the taker's hands, and nothing else moves but the word's deposits into the private bitmap. |
| Operations.HintFollowed | toccata-core/src/subheap.rs:656-684 | The same of a take through a hint homed anywhere, as one step. |
| Operations.FreeWorks | toccata-core/src/subheap.rs:1018-1036 | A freed slot ends in its own deposited word, with what was pending for that word, and nothing else moves. |
| Operations.SweepReclaims | toccata-core/src/subheap.rs:1194-1270 | A sweep of a span all of whose slots are free, deposited or not, counts them all, takes the span off the list, clears slots, hint and tags, and the pool gains exactly its group. |
| Operations.RunFiled | toccata-core/src/subheap.rs:1257-1268 | A run in a thread's hands goes to the pool, exactly. |
| Operations.LargeFromPool | toccata-core/src/subheap.rs:1310-1342 | After recording and marking, the live run owns exactly the spans taken from the pool, and its length and tags are recorded. |
| Operations.LargeFromCursor | toccata-core/src/subheap.rs:1310-1342 | The same of a run taken from the bump cursor, which moves past it. |
| Operations.LargeFree | toccata-core/src/subheap.rs:1345-1364 | Freeing a live large run puts exactly its spans back into the pool and leaves none in the thread's hands. |
| Finishing.LockIsReleased | toccata-core/src/subheap.rs:97-130 | From any state of the invariant, whatever the holder of a cell's lock is in the middle of and wherever all other threads stand and stay, the lock can be released: no lock is stuck. |
| Hints.ForeignHintCollides | toccata-core/src/subheap.rs:670-684 | From any state of the invariant in which the hint about to be trusted names a tiled span of another shard, and for any word that span has slots in, there is a run that hands one slot to two threads, whoever is inside the other cell's lock and whatever they are in the middle of. |
| Hints.HintSafeIffHomed | toccata-core/src/subheap.rs:670-684 | Trusting a hint to a tiled span by class is safe in every continuation if and only if the hinted span is homed on the reading shard, whatever is free, deposited or out and whoever is inside the other cell's lock. |
| Hints.StaleHintDoubleHandOut | toccata-core/src/subheap.rs:1030-1052 | Such a hint arises from an empty arena: a remote free preempted between reading the home of the span it deposited into and storing the hint, a sweep, a carve by its own shard. |
| Arena.GroupFitsIffEnoughLeft | toccata-core/src/subheap.rs:815-833 | The object a carve puts at the start of its run lies inside the run if and only if as many spans were left as it asked for. |
| Arena.ShortGroupExample | toccata-core/src/subheap.rs:190-193 | With one span left a claim for a 128 KiB class gets a run of half an object. |
| Arena.BumpArena.CarveSpans | toccata-core/src/subheap.rs:174-206 | Under contention a claim gets whole spans that nobody else has or gets, as many as asked or as are left, and nothing only when no whole span is left; alone it gets the next ones. |
| Arena.BumpArena.CarveRun | toccata-core/src/subheap.rs:220-247 | A large claim is exact, on the span grid and exclusive, or there was no room for it. |
| SpanTables.PackRoundTrip | toccata-core/src/meta.rs:341-384 | A packed entry reads back as written if and only if it is not class 0 on home 0. |
| SpanTables.SpanTable.AssignRange | toccata-core/src/meta.rs:413-470 | Exactly the pointers into spans the range overlaps look up the new class and home; all others look up what they did. |
| SpanTables.HomeLeadsBackIff | toccata-core/src/subheap.rs:572-575 | The sixteen-bit home of a carve with a raw shard id leads back to the cell it used if and only if the rest of the id is a multiple of the shard count. |
| SpanTables.HomeAstrayExample | toccata-core/src/subheap.rs:572-575 | With three shards and id 65536 the carve uses cell 1 and the home in the table leads to cell 0. |
| Geometry.LocateInverts | toccata-core/src/meta.rs:115-119 | Locating the address of any tiled slot gives back its span, word and bit. |
| Geometry.SlotInside | toccata-core/src/subheap.rs:811-865 | A slot's bytes stay inside its span, or for a class above the span size inside its group. |
| Geometry.SlotsApart | toccata-core/src/subheap.rs:843-862 | Distinct slots of one span do not overlap. |
| Geometry.WordsCoverSlots | toccata-core/src/subheap.rs:637-646 | The words a take scans cover every slot and fit the span's bitmap. |
| Geometry.MostSlots | toccata-core/src/subheap.rs:835-840 | A span gets as many slots as fit, and a class above the span size one. |
| SpanPools.RunsAreMaximal | toccata-core/src/spanpool.rs:38-46 | The recorded runs are exactly the maximal intervals of the free spans. |
| SpanPools.RunsAreCanonical | toccata-core/src/spanpool.rs:38-46 | The free spans alone determine the recorded runs, whatever the history. |
| SpanPools.SpanPool.BitSet | toccata-core/src/spanpool.rs:97-101 | Both bitmap levels mirror bucket emptiness again after a bucket gets its first run. |
| SpanPools.SpanPool.BitClear | toccata-core/src/spanpool.rs:104-110 | Both levels mirror it again after a bucket loses its last. |
| SpanPools.SpanPool.FindFirstSetGe | toccata-core/src/spanpool.rs:115-145 | The least non-empty bucket at or above the count asked for, and none only if there is none. |
| SpanPools.SpanPool.Link | toccata-core/src/spanpool.rs:151-165 | Files a run: stacks, inverse links, boundary tags and bitmaps stay right. |
| SpanPools.SpanPool.Unlink | toccata-core/src/spanpool.rs:169-192 | Removes a run from anywhere in its stack and keeps all of that. |
| SpanPools.SpanPool.Alloc | toccata-core/src/spanpool.rs:199-212 | None if and only if no run is long enough; otherwise the front of a shortest sufficient run is taken, whole on an exact match. |
| SpanPools.SpanPool.Release | toccata-core/src/spanpool.rs:216-241 | Gives back a run, merged with both neighbours: the free set grows by exactly it and the invariant holds. |
| SpanPools.AllocThenFreeRestores | toccata-core/src/spanpool.rs:199-241 | Giving back what an allocation took restores the very same runs. |
| SpanPools.Serve | toccata-core/src/spanpool.rs:309-366 | In any stream every allocation adds a run of the length asked for, or there is no gap so long between the live runs, and every free takes its run away; after it every span is free or in exactly one live run. |
| SpanPools.Stress | toccata-core/src/spanpool.rs:309-366 | Freeing what a stream leaves live makes the arena one run, allocatable at 0. |
| Bitmaps.SpanBitmaps.Set | toccata-core/src/meta.rs:158-161 | A deposit moves exactly one slot from out to free. |
| Bitmaps.SpanBitmaps.SetMask | toccata-core/src/meta.rs:170-173 | A coalesced deposit moves exactly its mask from out to free. |
| Bitmaps.SpanBitmaps.FoldFreeWord | toccata-core/src/meta.rs:188-205 | With deposits landing anywhere around peek, swap and merge, the result holds all that was free on entry and nothing that is out, and no slot is lost. |
| Bitmaps.SpanBitmaps.AllocClear | toccata-core/src/meta.rs:225-228 | The taken bits, none of them out before, become slots in the taker's hands. |
| Bitmaps.SpanBitmaps.IsFullyFree | toccata-core/src/meta.rs:253-278 | Yes means that all slots are private, none out and none deposited; a span with none out on entry is always recognised, whatever is deposited meanwhile. |
| Bitmaps.SpanBitmaps.LinkFront | toccata-core/src/meta.rs:144-148 | Pushes a span onto a well-linked list. |
| Bitmaps.SpanBitmaps.UnlinkActive | toccata-core/src/meta.rs:291-303 | Removes entry k, the rest of the list staying linked and in order and other spans' links as they were. |
| Bitmaps.ListRemove | toccata-core/src/meta.rs:291-303 | The link surgery of an unlink yields the list without its entry k. |
| Bitmaps.SpanBitmaps.ResetBitmaps | toccata-core/src/meta.rs:313-319 | A span with no slot out forgets its tiling; no other span's words change. |
| Central.TakeWord | toccata-core/src/subheap.rs:706-736 | Hands out bits of a word lowest first until the room or the word is used up. |
| Central.ScanSpan | toccata-core/src/subheap.rs:706-736 | Hands out distinct tiled slots in ascending address order, none of them out before; free slots not handed out stay free; room left over means that nothing is left. |
| Central.TakeList | toccata-core/src/subheap.rs:685-694 | The same over a whole list, the hinted span skipped. |
| Central.GainedMore | toccata-core/src/subheap.rs:629-694 | Two takes in a row gain the slots of both, each once. |
| Central.TileSpan | toccata-core/src/subheap.rs:843-862 | Sets exactly the bits of the span's slots, all free. |
| SubHeaps.SubHeap.CentralTake | toccata-core/src/subheap.rs:629-694 | Each slot handed out once, all of them free slots of spans tiled for the class, at most one span beside the list's, nothing else out; a short result means that the list is drained. Alone, a trusted hint comes first, and other spans only when its span has no more. |
| SubHeaps.SubHeap.CarveOrReuse | toccata-core/src/subheap.rs:768-798 | The run it returns was in the pool or past the cursor and no longer is; it is not from the pool only if that is busy or has no such run, and then the arena was asked; exactly its spans are re-tagged, and none only when the arena has no whole span. |
| SubHeaps.SubHeap.FewestSpans | toccata-core/src/subheap.rs:835-841 | A carve asks for the fewest spans with room for the batch, or for the spans of one object. |
| SubHeaps.SubHeap.CentralCarve | toccata-core/src/subheap.rs:803-865 | Every new span is tiled, wholly free and at the front of the list; nothing that was free is lost and no tiling changed; groups stay whole if the run is as long as the class needs; the pool goes first; alone, the run has as many spans as wanted or left. |
| SubHeaps.ShortGroupRun | toccata-core/src/subheap.rs:815-833 | A carve and a take with one span left hand out an object of a 128 KiB class that ends beyond the arena, and its group is not whole. |
| SubHeaps.TakeFindsSome | toccata-core/src/subheap.rs:1432-1463 | A take from a list with a wholly free span finds something, so the refill loop makes progress. |
| SubHeaps.SubHeap.RefillBatch | toccata-core/src/subheap.rs:1432-1463 | Ends; hands out distinct slots that were not out; carves nothing if the list has enough; a short fill means the list is drained, the arena has no whole span and the pool no run of the wanted length or is busy. |
| SubHeaps.NoRunNoInterval | toccata-core/src/subheap.rs:789-798 | If the pool has no run of n spans there are no n free spans in a row. |
| SubHeaps.SubHeap.RetireSpan | toccata-core/src/subheap.rs:1228-1248 | Unlinks, clears the hint, re-tags the group and forgets the tiling of an empty span, leaving the cell right. |
| SubHeaps.SubHeap.ReclaimCell | toccata-core/src/subheap.rs:1194-1270 | The spans it files had no slot out; the list keeps its order without them; short of the limit no span that was empty stays; the pool gains exactly their groups. |
| SubHeaps.OthersGood | toccata-core/src/subheap.rs:1194-1270 | A reclaim of one cell leaves every other cell's list, tilings, tags and groups right. |
| SubHeaps.SubHeap.SweepCell | toccata-core/src/subheap.rs:1177-1183 | Ends; counts the spans that leave the list, whose groups are exactly what the pool gains; undisturbed it leaves no empty span if and only if the cap is at most 32 or at most 32 spans were empty. |
| SubHeaps.MissedSpanExample | toccata-core/src/subheap.rs:1163-1212 | Carving 33 spans and sweeping with a cap of 33 leaves an empty span on the list. |
| SubHeaps.SubHeap.ReclaimEmptySpans | toccata-core/src/subheap.rs:1163-1187 | The same for every cell of the sub-heap, the count being of all of them. |
| Rseq.StepKeepsInv | toccata-core/src/rseq/asm.rs:51-262 | Every instruction, preemption, migration, signal, seizure and drain step keeps registers, stacks and plans in agreement. |
| Rseq.NeverStuck | toccata-core/src/rseq/asm.rs:51-262 | A running call can always execute its next instruction and a drain its next step, inside the slots. |
| Rseq.StepRefines | toccata-core/src/rseq/asm.rs:51-262 | Each step is one atomic step of per-CPU last-in first-out stacks, or none: only the commit store changes a stack. |
| Rseq.RunRefines | toccata-core/src/rseq/asm.rs:51-262 | Every run is a run of the atomic stacks. |
| Rseq.NothingTwiceNothingLost | toccata-core/src/rseq/asm.rs:51-262 | After any run each pointer sits at exactly one spot: none popped twice, none lost. |
| Rseq.PopReturnsTop | toccata-core/src/rseq/asm.rs:99-107 | A successful pop hands its caller the top of the stack of the CPU it runs on and takes it off. |
| Rseq.NeedsSlowIsHonest | toccata-core/src/rseq/asm.rs:222-225 | `NeedsSlow` means that this CPU's stack was empty or full, and a failed push leaves the caller its object. |
| Rseq.AtMostFourAttempts | toccata-core/src/rseq/asm.rs:86-91 | One call arms its section at most four times, however often it is interrupted. |
| Rseq.SeizeExcludes | toccata-core/src/supervisor.rs:198-237 | From the barrier's return to the release no step but the supervisor's changes the CPU's stacks, not even above the top. |
| Rseq.RebalanceMovesExactlyTheTop | toccata-core/src/subheap.rs:1089-1112 | Interleaved with anything, a rebalance deposits the top `min(count, current)` pointers once each, top first, and changes nothing else of the stack. |
| RseqCalls.PopSucceeds | toccata-core/src/rseq/asm.rs:81-112 | Left alone on a stack that is not empty, a pop ends in seven instructions: its caller has the top, and the stack has lost just that. |
| RseqCalls.PopFindsEmpty | toccata-core/src/rseq/asm.rs:99-121 | On an empty stack it asks for the slow path after five, and nothing has moved. |
| RseqCalls.PushSucceeds | toccata-core/src/rseq/asm.rs:192-235 | Left alone on a stack with room, a push ends in eight instructions with the object on top. |
| RseqCalls.PushFindsFull | toccata-core/src/rseq/asm.rs:192-235 | On a full stack it asks for the slow path after six and gives the object back. |
| RseqCalls.FallbackIff | toccata-core/src/rseq/asm.rs:81-98 | Whatever has happened since a call began, its next instruction gives up if and only if the CPU id it read is out of range, it has armed four times, or the CPU is stopped. |
| RseqCalls.UnregisteredGivesUp | toccata-core/src/rseq/asm.rs:81-93 | A thread without a kernel area spends its retries and gives up, and has touched no stack. |
| RseqCalls.CallPops | toccata-core/src/rseq/asm.rs:51-150 | A thread dispatched on a CPU that calls for an object gets the top of that CPU's stack. |
| RseqCalls.CallPushes | toccata-core/src/rseq/asm.rs:164-262 | A thread dispatched on a CPU that frees an object leaves it on top of that CPU's stack. |
| RseqCalls.MigratedPop | toccata-core/src/rseq/asm.rs:76-112 | Preempted anywhere in its section and resumed on another CPU, a pop starts again and gets the top of that CPU's stack. |
| RseqCalls.SignalledPop | toccata-core/src/rseq/asm.rs:76-112 | The same of a signal, on the same CPU. |
| RseqCalls.StaleCpu | toccata-core/src/rseq/asm.rs:92-93 | A CPU id read before a migration costs one retry and no more. |
| RseqCalls.SeizeAndRelease | toccata-core/src/supervisor.rs:198-237 | Seizing a CPU, rebalancing and releasing it ends; the top `min(count, current)` pointers are on the central list, no other stack has changed, and the CPU is as free as before. |
| RseqCalls.SeizureFails | toccata-core/src/supervisor.rs:198-211 | A seizure whose barrier fails leaves everything as before. |
| Magazines.LockedStack.PopLocked | toccata-core/src/rseq/slab.rs:260-285 | With other threads at work before the lock is taken: pops the top of what is there then, or touches nothing when the CPU was seen seized or the stack is empty; a null comes off and reads as an empty stack; no other pointer is lost or doubled. |
| Magazines.LockedStack.PushLocked | toccata-core/src/rseq/slab.rs:290-309 | The same of a push, which touches nothing when the CPU was seen seized or the stack is full. |
| Magazines.LockedStack.Rebalance | toccata-core/src/subheap.rs:1089-1112 | Takes the top `min(count, current)` off a seized stack and parks them, top first and null aside; the rest stays. |
| Magazines.Magazine.TryPop | toccata-core/src/magazine.rs:96-104 | Takes the last pointer put in, or finds the magazine empty. |
| Magazines.Magazine.TryPush | toccata-core/src/magazine.rs:217-225 | Adds a pointer on top unless there are 32. |
| Magazines.Magazine.Refill | toccata-core/src/magazine.rs:176-207 | Hands out the first of a batch from the central cell, and later pops give the rest in the batch's order: slots that were not out, each once, and fewer than 32 only when cell, pool and arena are exhausted. |
| Magazines.Magazine.DrainThenPush | toccata-core/src/magazine.rs:240-256 | Gives back the bottom 24 and keeps the top 8 in order under the new pointer. |
| Magazines.Magazine.Free | toccata-core/src/magazine.rs:232-256 | What is flushed followed by what is kept is what there was followed by the freed pointer. |
| Magazines.Magazine.FlushAll | toccata-core/src/magazine.rs:260-270 | Gives back every pointer once, top first. |
| Magazines.FreeBatch | toccata-core/src/subheap.rs:989-1052 | A pointer whose home is this shard, or unknown, goes to the local stack, in order, and is still out; any other has exactly its own slot deposited and is not out any more, whatever others deposit; the hint is the span of the last of those, or none. |
| Frames.Pigeonhole | toccata-core/src/frame.rs:215-224 | Distinct frames are at most as many as there are, so the central stack never overflows. |
| Frames.FramePool.constructor | toccata-core/src/frame.rs:415-427 | Starts with every frame on the central stack. |
| Frames.FramePool.Refill | toccata-core/src/frame.rs:613-627 | Under interference it gains one frame nobody else has, or the central stack was empty; alone it moves exactly the next 31, or as many as there are and fit. |
| Frames.FramePool.Drain | toccata-core/src/frame.rs:632-643 | Lets go of exactly the frame in hand; alone it moves the top 16 to the central stack first. |
| Frames.FramePool.Alloc | toccata-core/src/frame.rs:501-507 | A frame no one references, now with one reference; alone, none if and only if this CPU's stack and the central stack are empty, and no other count changes. |
| Frames.FramePool.Free | toccata-core/src/frame.rs:517-523 | Only the last release returns the frame, and then it has no reference left; alone, one count goes down by one and no other changes, and the frame goes on top of this CPU's stack, after a drain of a full one. |
| Frames.FramePool.AllocN | toccata-core/src/frame.rs:544-558 | Distinct frames, none held before, and fewer than asked only after the central stack was seen empty; alone, they are what as many pops give, and exactly their counts go up, by one each. |
| Frames.FramePool.Recycle | toccata-core/src/frame.rs:535-538 | Returns a dead frame without touching any count; alone, to the top of this CPU's stack, after a drain of a full one. |
| Frames.FramePool.FreeN | toccata-core/src/frame.rs:567-574 | Gives up exactly the references of the batch, in which a frame may occur as often as the caller holds a reference to it; alone, every count goes down by as often as its frame occurs, and the frames that lose their last reference go on this CPU's stack in that order. |
| Frames.FramePool.AllocNThenFreeN | toccata-core/src/frame.rs:544-574 | A batch allocated and given back leaves the references held, and alone every count, as they were. |
| Frames.FramePool.Share | toccata-core/src/frame.rs:99-101 | One more reference to a frame the caller holds one to, and no other count changes. |
| Frames.FramePool.ShareThenFree | toccata-core/src/frame.rs:99-120 | A reference taken and given up leaves counts, places and stacks as they were and returns nothing. |
| Frames.FrameCache.Alloc | toccata-core/src/frame.rs:670-680 | The top cached frame, or one by way of a refill, live with one reference; alone, none if and only if the cache, this CPU's stack and the central stack are empty, and no other count changes. |
| Frames.FrameCache.Refill | toccata-core/src/frame.rs:715-733 | Leaves fewer than 16 cached and one in hand, or the central stack was seen empty; alone, the frames are what 16 pops give, from this CPU's stack while it has some and then by batches off the central one, and none if and only if both are empty. |
| Frames.FrameCache.Free | toccata-core/src/frame.rs:690-711 | The last release caches the frame, after flushing the top half of a full cache; alone, those go on this CPU's stack, top first, and no other count changes. |
| Frames.FrameCache.Drop | toccata-core/src/frame.rs:750-765 | Leaves no frame in the cache; alone, all go on this CPU's stack, top first. |
| Frames.StrandedExample | toccata-core/src/frame.rs:613-627 | With its one frame free on another CPU's stack the pool gives this CPU none. |
| Buffers.Frame.Freeze | toccata-core/src/frame.rs:1048-1060 | The writer becomes the first window, cut to the capacity a `u16` can address. |
| Buffers.FrameBuf.SplitTo | toccata-core/src/frame.rs:1149-1164 | The two windows have exactly the bytes of the one, one more reference is counted, and past the end nothing changes. |
| Buffers.FrameBuf.Advance | toccata-core/src/frame.rs:1177-1181 | Moves the start without leaving the old window or overflowing, or reports the panic. |
| Buffers.FrameBuf.Truncate | toccata-core/src/frame.rs:1168-1170 | Keeps a prefix of the window. |
| Buffers.FrameBuf.Drop | toccata-core/src/frame.rs:1192-1203 | The frame goes back exactly when the last window is gone. |
| Buffers.Serve | toccata-core/src/frame.rs:1078-1203 | After any sequence of operations the live windows are the ones the operations make of the first, inside the frame, apart and counted, and the frame has gone back exactly if none is left. |
| Buffers.AnyRun | toccata-core/src/frame.rs:1078-1203 | With the remaining drops the frame has gone back once. |
| Buffers.Frame.DropWriter | toccata-core/src/frame.rs:1063-1072 | A writer dropped unpublished gives up the only reference and returns the frame. |
| Buffers.AnyFrame | toccata-core/src/frame.rs:1021-1203 | A frame goes back once, dropped unwritten or published, used in any way and dropped window by window. |
| Buffers.Handle.DropShared | toccata-core/src/frame.rs:970-985 | Only the last handle runs the destructor and then returns the frame. |
| Buffers.ServeShared | toccata-core/src/frame.rs:840-985 | After any sequence of clones and drops there are as many handles as it leaves, the count is theirs, and the destructor has run and the frame gone back, once each, exactly if none is left. |
| Buffers.AnySharing | toccata-core/src/frame.rs:840-985 | With the remaining drops there is one destructor run and one return. |
| Buffers.Handle.DropOwned | toccata-core/src/frame.rs:902-914 | The unique owner runs the destructor and then returns the frame. |
| Buffers.AnyHandle | toccata-core/src/frame.rs:840-985 | A value is destroyed once and its frame goes back once, dropped by its owner or shared, cloned and dropped in any order. |

## Left out

- Safety.StepKeepsInv: a hinted scan step by step needs the hint homed on the reading shard, a foreign one is an atomic step, and a carve for a class above the span size is full or nothing; without these the invariant is false (`Hints.HintSafeIffHomed`, `Arena.GroupFitsIffEnoughLeft`).
- Safety.NoDoubleHandOut: under the same two assumptions.
- Safety.Conservation: under the same two assumptions.
- Safety.HandsOutOwnFreeSlots: speaks of scans of the thread's own cell; `Safety.ForeignHintHandsOutOwnClass` speaks of the others.
- Safety.ForeignHintHandsOutOwnClass: the take is one atomic step, since otherwise it is false.
- Hints.ForeignHintCollides: the hinted span heads a tiled group when the check is made; a hint to a span that is still being carved, or to the middle of a group, is not covered.
- Hints.HintSafeIffHomed: the same.
- SubHeaps.SubHeap.CentralTake: run against any deposits and any hints; carves and sweeps of other cells between its steps are in the step machine of `lifecycle.dfy` only.
- SubHeaps.SubHeap.CentralCarve: the same; claims of the arena by others are included.
- SubHeaps.SubHeap.RefillBatch: the same. It takes the pool's lock as free or busy at random; the pool then changes only by its own calls.
- SubHeaps.SubHeap.RetireSpan: the group must have all its spans, since a retirement of a short one would take spans of others (`Arena.ShortGroupExample`).
- SubHeaps.SubHeap.ReclaimCell: the same, for every group on the list.
- SubHeaps.SubHeap.SweepCell: the same; the two halves of the exact condition are for a sweep that no other thread disturbs.
- SubHeaps.SubHeap.ReclaimEmptySpans: the same.
- Magazines.FreeBatch: what others do meanwhile is deposit, so a slot deposited early is not taken again before the end; the table does not change meanwhile, as `Safety.LiveEntryStable` justifies for objects that are live; a shard's own pointers are returned in order instead of pushed one by one.
- Buffers.Handle.DropShared: the last release, the destructor and the return are one step; no other handle is left to see them apart.
- Large allocation and its free are steps of `lifecycle.dfy`, where a claim may be of the pool or of the cursor in either order; their array code is not modelled a second time, nor are the refill and drain of a per-CPU stack by a single allocation.
- Reservation, system calls, thread-local set-up, the global-allocator shim, macros, registry, metrics and the supervisor's thread: wiring.
- Hardware memory ordering, prefetching and the spin locks' own code.
- Mixed use of the rseq and the locked path on one stack; a call that runs out of attempts is treated like one that needs the slow path.
- Spurious failures of a weak compare-and-exchange, which would only repeat a turn of the claim loop.
- The live-usage counters, which tolerate skew by design.
- The size-class table beyond "positive multiples of 8", and the arithmetic of frame addresses: frames are numbered.
- The metadata-free frame pool, in which every free is the last release.
