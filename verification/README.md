# Verified models of libopenpop and the symbol alignment tool

libopenpop is Popcorn's distributed OpenMP runtime. This project models the state
machines at its heart in Dafny and proves what each of them promises, for every input
and every run; one further model covers the tool that gives symbols the same address
on every architecture.

| part | modules |
|---|---|
| task dependencies (`task.c`) | TaskDepend, TaskInvariant, TaskCreate, TaskFinish, TaskRuns, TaskEvents, TaskTeam |
| splay tree over intervals (`splay-tree.c`) | SplaySpec, IntervalTree |
| double-hashing table (`hashtab.h`) | PrimeTable, Primality, PrimeSizes, Probing, HashSlots, HashTable |
| doacross synchronisation (`ordered.c`) | Lexicographic, Doacross, DoacrossEvents, DoacrossFlat |
| ordered sections (`ordered.c`, `loop.c`) | OrderedRing, OrderedEvents, OrderedProgress |
| static schedules (`iter.c`, `ordered.c`) | StaticSchedule |
| dynamic and guided schedules (`iter.c`, `loop.c`) | Dispenser, LoopRuns, LoopProgress |
| two-level dynamic schedule (`hierarchy.c`) | HierarchyLoop, HierarchyBlocks, HierarchyRoom, HierarchyProgress |
| tree reduction (`hierarchy.c`) | TreeReduction, ReductionSlots, ReductionProgress, ReductionValue |
| priority queue of tasks (`priority_queue.h`, `priority_queue.c`) | PriorityList, PriorityQueue |
| weighted static split (`kmp.c`) | WeightedSplit |
| taskloop (`taskloop.c`) | Taskloop |
| symbol alignment (`tool/alignment`) | Alignment, LinkerScript |
| shared | Arithmetic, Bits, FiniteSets, Popcorn, Progress |

## How to read it

Code that changes state in place is a class or a method with its loops; each is proved
against a function or a relation of the old and the new state, and the laws are proved
about those. Concurrent protocols are state machines: each event is one atomic access
or one critical section, a run is any sequence of enabled events, and every theorem
about runs quantifies over all of them (interleavings are sequentially consistent).
Integers are unbounded except where the width matters: the 32-bit remainder and probing
of the hash table, the 64-bit packed doacross word, and the wrapping counters of the
dynamic schedules are written out.

Run `dafny verify dfyconfig.toml` to check the whole project.

## What the proofs found

* The probing addition `index += hash2` is 32 bits wide; it is exact for every row of
  the prime table but the last (`Probing.StepFits` gives the exact bound).
* Two empty intervals compare as equal wherever they lie, so a search for an empty key
  can miss an empty interval that is stored elsewhere (`IntervalTree.EmptyKeyMisses`).
  `IntervalTree.AllAnswersIff` gives the exact condition under which the search is right
  in every tree of the same nodes: the key keeps their order, or it falls inside a
  non-empty interval. Keys that are not empty and the keys of stored nodes always meet it
  (`IntervalTree.SortedMonotone`, `IntervalTree.OwnKeyFindable`), and the tree operations
  assume no more.
* A flattened doacross loop that uses all 64 bits, with every dimension a full power of
  two, wraps the last post to 0 and then lets nobody pass
  (`DoacrossFlat.LastPostWraps`); `DoacrossFlat.DecidesIff` gives the exact condition
  under which flattening is right.
* The overflow check that `hierarchy.c` copies from `loop.c` counts the threads of one
  node although every node adds to the global counter, and adds a multiple of the chunk
  size: `HierarchyLoop.GuardTooWeak` is a run of three nodes that passes the check and
  hands out a value outside the loop. The theorems about the two-level schedule
  therefore assume `RoomButOne` instead when the fetch-and-add mode is used: all nodes but
  one may add beyond the end, whichever is the last. `HierarchyRoom.AlwaysCorrectIff` shows
  that this is exactly the condition under which loops that pass the check on every node
  are handed out rightly in all runs, and `HierarchyRoom.NeverWrapsIff` gives the exact
  condition for no addition to wrap at all.
* The alignment tool computes padding from offset 0 while the linker counts from
  0x1000, so it works for exactly the alignments that divide 0x1000
  (`LinkerScript.KeepsIff`).

## Model

| member | source | states |
|---|---|---|
| TaskTeam.TaskTeam.WalkChain | lib/libopenpop/task.c:190-243 | the walk over a hash chain adds exactly the edges of the entries before the first redundant out and finds the last entry and the last out among them |
| TaskTeam.TaskTeam.HandleClause | lib/libopenpop/task.c:172-276 | one depend clause in place: edges, the pushed entry, and the demotion of the previous out |
| TaskTeam.TaskTeam.HandleDepend | lib/libopenpop/task.c:164-276 | all clauses of a new task, outs before ins, in order |
| TaskTeam.TaskTeam.CreateTask | lib/libopenpop/task.c:415-455 | a created task is queued and counted exactly when it waits for nobody, and the invariant of the engine is kept |
| TaskTeam.TaskTeam.RunPre | lib/libopenpop/task.c:957-994 | starting a queued task takes it off the queue, makes it tied and counts it, leaves chains, clauses, edges and all other tasks alone, and keeps the invariant |
| TaskTeam.TaskTeam.UnlinkEntry | lib/libopenpop/task.c:1006-1029 | the chain at the address loses exactly the entry of the finished task, other chains stay, and an emptied slot is cleared |
| TaskTeam.TaskTeam.HandleDependHash | lib/libopenpop/task.c:998-1030 | every entry of a finished task is unlinked once, redundant clauses skipped |
| TaskTeam.TaskTeam.HandleDependers | lib/libopenpop/task.c:1034-1105 | every depender loses one dependee, and those left without any are queued and counted |
| TaskTeam.TaskTeam.CompleteTask | lib/libopenpop/task.c:1107-1124 | both parts together are one finishing step |
| TaskTeam.TaskTeam.RunPost | lib/libopenpop/task.c:1284-1303 | finishing a running task keeps the invariant |
| TaskTeam.TaskTeam.BarrierHandleTasks | lib/libopenpop/task.c:1187-1303 | one thread whose tasks create nothing leaves the scheduling loop of the barrier, and then every created task has finished although blocked tasks are never counted |
| TaskCreate.CreateKeeps | lib/libopenpop/task.c:164-276 | creation keeps the whole invariant, above all that the new task reaches every unfinished conflicting sibling |
| TaskInvariant.CoverReached | lib/libopenpop/task.c:215-243 | an unfinished redundant out is always reached from an active out of its chain |
| TaskInvariant.FreshReaches | lib/libopenpop/task.c:190-243 | edges to the entries before the first redundant out suffice for the task to reach every entry it conflicts with |
| TaskInvariant.FreshClauseKeeps | lib/libopenpop/task.c:178-276 | a clause with a new address keeps chains, counts and reachability |
| TaskInvariant.RepeatedClauseKeeps | lib/libopenpop/task.c:190-200 | a clause that repeats an address of the same task keeps everything and adds no edge |
| TaskFinish.StartKeeps | lib/libopenpop/task.c:957-994 | starting a task keeps the invariant and changes its kind, the queue and two counters, and nothing else |
| TaskFinish.FinishKeeps | lib/libopenpop/task.c:998-1105 | finishing a task keeps the invariant, drops exactly its entries and its edges, and touches no other clause or kind |
| TaskFinish.ReleaseAllFacts | lib/libopenpop/task.c:1034-1105 | each depender is decremented exactly once and queued exactly when it reaches zero |
| TaskRuns.RunInv | lib/libopenpop/task.c:164-276 | the invariant holds in every state of every run |
| TaskRuns.QueuedIff | lib/libopenpop/task.c:215-276 | a task that has not started is queued if and only if every earlier sibling it conflicts with has finished |
| TaskRuns.StartsAfter | lib/libopenpop/task.c:164-276 | a task starts only when every earlier sibling with conflicting clauses has a finish behind it |
| TaskEvents.ConflictsSerialized | lib/libopenpop/task.c:164-276 | in every run, of two created tasks whose calls share an address that one of them names out, the later starts only after the finish of the earlier (section 2.13.9 of OpenMP 4.5); stated on the events alone |
| TaskEvents.StartsIff | lib/libopenpop/task.c:164-276 | a task that is created and not started can start if and only if all those earlier tasks have finished: dependences hold back nothing else |
| TaskRuns.SomeUnblocked | lib/libopenpop/task.c:1278-1303 | while a task is unfinished some task is queued or running: the dependency graph has no cycle |
| TaskRuns.TaskCountZero | lib/libopenpop/task.c:1278-1303 | task_count is 0 if and only if every created task has finished |
| TaskRuns.NeverStuck | lib/libopenpop/task.c:1187-1303 | every run in which a task is unfinished can be extended by a start or a finish |
| TaskRuns.StepsBounded | lib/libopenpop/task.c:1187-1303 | whatever threads run the tasks, from the last creation on every step is one of the starts and finishes then left, and none is left exactly when every task has finished |
| SplaySpec.TurnDecreases | lib/libopenpop/splay-tree.c:69-130 | every turn that goes on decreases twice the search path plus one for a straight start |
| SplaySpec.TurnShapes | lib/libopenpop/splay-tree.c:44-128 | the shape of the tree after each kind of turn |
| SplaySpec.SplayInOrder | lib/libopenpop/splay-tree.c:69-130 | a splay keeps the in-order sequence |
| SplaySpec.SplaySplits | lib/libopenpop/splay-tree.c:69-130 | after a splay the root matches the key or nothing lies between them |
| SplaySpec.SplayFinds | lib/libopenpop/splay-tree.c:69-130 | after a splay the root matches the key if and only if some item does |
| SplaySpec.MissCuts | lib/libopenpop/splay-tree.c:69-130 | whatever the comparison, a search that misses has stopped between an item before the key and one after it |
| SplaySpec.CutMisses | lib/libopenpop/splay-tree.c:69-130 | wherever two such items are neighbours, some tree of the items makes the search miss |
| SplaySpec.HungRightInOrder | lib/libopenpop/splay-tree.c:182-196 | hanging one subtree off the right-most branch of the other concatenates their sequences |
| IntervalTree.EqualIsOverlap | lib/libopenpop/libgomp.h:914-926 | non-empty keys compare as equal exactly when the intervals overlap |
| IntervalTree.LessIsBefore | lib/libopenpop/libgomp.h:914-926 | for non-empty keys, comparing less means lying wholly before |
| IntervalTree.EmptyKeyMisses | lib/libopenpop/libgomp.h:914-926 | a stored empty interval that a search for an equal key does not find |
| IntervalTree.AllAnswersIff | lib/libopenpop/splay-tree.c:69-130 | the search is right in every tree of the nodes if and only if the key keeps their order or falls inside a non-empty interval |
| IntervalTree.OwnKeyFindable | lib/libopenpop/splay-tree.c:170-214 | the key of a stored node, empty or not, always meets that condition |
| IntervalTree.RotateLeft | lib/libopenpop/splay-tree.c:44-53 | the pointer rotation makes the heap stand for the rotated tree |
| IntervalTree.RotateRight | lib/libopenpop/splay-tree.c:57-66 | its mirror image |
| IntervalTree.SplayTree.Turn | lib/libopenpop/splay-tree.c:77-128 | one turn of the loop on the heap is one turn on the tree |
| IntervalTree.SplayTree.Splay | lib/libopenpop/splay-tree.c:69-130 | the loop on the heap terminates with the splayed tree |
| IntervalTree.SplayTree.Lookup | lib/libopenpop/splay-tree.c:205-214 | a node is returned if and only if a stored interval compares as equal to the key, and it does |
| IntervalTree.SplayTree.PutAtRoot | lib/libopenpop/splay-tree.c:148-165 | the node becomes the root of the tree taken apart |
| IntervalTree.SplayTree.Insert | lib/libopenpop/splay-tree.c:134-166 | a node that equals no stored one is added, exactly once and in order, and any other is reported |
| IntervalTree.SplayTree.DropRoot | lib/libopenpop/splay-tree.c:175-199 | the root is removed and its subtrees are joined in order |
| IntervalTree.SplayTree.Remove | lib/libopenpop/splay-tree.c:170-200 | exactly one node that compares as equal to the key is removed, or none if there is none |
| PrimeTable.QuotientExact | lib/libopenpop/hashtab.h:187-206 | the multiplication, subtraction and shifts compute the exact quotient and no 32-bit step wraps |
| PrimeTable.Mod1Exact | lib/libopenpop/hashtab.h:186-207 | htab_mod_1 is the remainder for every 32-bit hash |
| PrimeTable.GoodRows | lib/libopenpop/hashtab.h:109-141 | every row of the table, for the prime and for the prime less two, meets the condition of the remainder; the primes increase |
| PrimeSizes.SizesPrime | lib/libopenpop/hashtab.h:109-141 | all thirty sizes of the table are prime, as double hashing needs |
| PrimeTable.HigherPrimeIndex | lib/libopenpop/hashtab.h:146-167 | the binary search finds the smallest table prime that is large enough, and runs off the table exactly when none is |
| Probing.ProbeClosed | lib/libopenpop/hashtab.h:344-360 | adding and subtracting the size conditionally advances modulo the size |
| Probing.ProbeInjective | lib/libopenpop/hashtab.h:344-360 | the first `size` tries of a search are pairwise different |
| Probing.ProbeReaches | lib/libopenpop/hashtab.h:344-360 | a search tries every slot of a table of prime size |
| Probing.StepFits | lib/libopenpop/hashtab.h:345-360 | the 32-bit addition of the probing loop is exact if and only if twice the size fits |
| HashSlots.EmptySlotReached | lib/libopenpop/hashtab.h:254-280 | a table that is not fully occupied has an empty slot on every search path, so every probing loop ends |
| HashSlots.MissedIsAbsent | lib/libopenpop/hashtab.h:328-361 | a search that meets an empty slot first proves the address absent |
| HashSlots.StoreKeeps | lib/libopenpop/hashtab.h:364-428 | a store through a slot that fits keeps every element reachable and adds exactly the new one |
| HashSlots.ClearKeeps | lib/libopenpop/hashtab.h:430-440 | a tombstone keeps every other element reachable and removes exactly one |
| HashSlots.ElementsCount | lib/libopenpop/hashtab.h:178-182 | n_elements less n_deleted is the number of elements |
| HashTable.Htab.HtabMod | lib/libopenpop/hashtab.h:211-216 | the first index is the hash modulo the size |
| HashTable.Htab.HtabModM2 | lib/libopenpop/hashtab.h:220-225 | the step is one more than the hash modulo the size less two |
| HashTable.Htab.constructor | lib/libopenpop/hashtab.h:229-241 | a new table is empty and valid, and its size is the smallest prime of the table from the size asked for on |
| HashTable.Htab.NextIndex | lib/libopenpop/hashtab.h:345-360 | one turn of a probing loop, 32 bits wide, goes to the next try |
| HashTable.Htab.Find | lib/libopenpop/hashtab.h:327-361 | the stored element is returned if and only if there is one |
| HashTable.Htab.FindEmptySlot | lib/libopenpop/hashtab.h:254-281 | the first empty slot of the search path |
| HashTable.Htab.Place | lib/libopenpop/hashtab.h:311-320 | moving one element into a table without tombstones adds exactly it |
| HashTable.Htab.Transfer | lib/libopenpop/hashtab.h:306-323 | the loop over the old entries moves every element exactly once |
| HashTable.Htab.Expand | lib/libopenpop/hashtab.h:288-325 | a rebuilt table has the same contents, no tombstones and room for one more; its size is the smallest prime from twice the number of elements on if the table was too full or too empty, and else as before |
| HashTable.Htab.FindSlot | lib/libopenpop/hashtab.h:363-428 | without insertion: the slot of the element, or none if it is absent |
| HashTable.Htab.FindSlotToInsert | lib/libopenpop/hashtab.h:363-428 | with insertion: the slot of the element, or an empty one through which any element of that address may be stored |
| HashTable.Htab.ClearSlot | lib/libopenpop/hashtab.h:430-440 | exactly the element of the slot is removed |
| HashTable.Htab.PerformOne | lib/libopenpop/hashtab.h:327-440 | one search, insertion or removal acts as on a finite map |
| HashTable.Htab.Perform | lib/libopenpop/hashtab.h:254-440 | any sequence of searches, insertions and removals, rehashing included, acts as on a finite map |
| Doacross.NextInv | lib/libopenpop/ordered.c:394-485 | every single read or write, interleaved in any way, keeps the invariant that the words read so far come from vectors that are far enough |
| Doacross.ReadWordOk | lib/libopenpop/ordered.c:463-485 | one more word read either restarts, or extends what is known, or proves that enough was posted |
| Doacross.PassedWasPosted | lib/libopenpop/ordered.c:394-485 | in every run a wait on v returns only if the poster of its entry has begun a vector that is not before v |
| DoacrossEvents.WaitFollowsPost | lib/libopenpop/ordered.c:394-485 | in every run a wait that has returned was preceded by the beginning of a post to its entry of a vector not before its own; stated on the events alone |
| Doacross.RestingWaitIff | lib/libopenpop/ordered.c:463-485 | once the poster rests, a waiter caught anywhere in its scan returns within two passes exactly when the last posted vector is not before its own |
| Doacross.Post | lib/libopenpop/ordered.c:394-399 | the writing loop leaves each word one above the posted index, and each of its turns is a step of the protocol, the last word first |
| Doacross.WaitPass | lib/libopenpop/ordered.c:463-481 | one pass over an entry at rest succeeds exactly when the posted vector is not before the one waited for |
| DoacrossFlat.ThisBits | lib/libopenpop/ordered.c:279-289 | a dimension gets just enough bits for its indices |
| DoacrossFlat.ChooseLayout | lib/libopenpop/ordered.c:274-340 | the loop is flattened if and only if no count is 0 and the bits of all dimensions fit 64; each shift is the bits of the dimensions after it |
| DoacrossFlat.ShiftCounts | lib/libopenpop/ordered.c:330-338 | the shifts computed from the last dimension to the first |
| DoacrossFlat.Flatten | lib/libopenpop/ordered.c:380-387 | shifting and or-ing loses no bit: the word is the packed vector |
| DoacrossFlat.PackedOrder | lib/libopenpop/ordered.c:441-456 | packed vectors compare as numbers if and only if the vectors do lexicographically |
| DoacrossFlat.PassesIff | lib/libopenpop/ordered.c:378-392 | after a post of v a wait for w passes exactly when w is not after v, except for the word of all ones |
| DoacrossFlat.DecidesIff | lib/libopenpop/ordered.c:378-456 | flattening decides all waits rightly if and only if the 64 bits are not all in use by full powers of two |
| DoacrossFlat.LastPostWraps | lib/libopenpop/ordered.c:388-392 | two dimensions of 2^32 iterations: the last post stores 0 |
| DoacrossFlat.FlatEntry.Post | lib/libopenpop/ordered.c:378-392 | the word of the entry becomes the packed vector plus one, modulo 2^64 |
| DoacrossFlat.FlatEntry.MayPass | lib/libopenpop/ordered.c:441-456 | the test of a waiter, for posted and for fresh entries |
| OrderedRing.OrderedShare.OrderedFirst | lib/libopenpop/ordered.c:38-62 | a thread joins the end of the ring, and the first one gets its own token |
| OrderedRing.OrderedShare.OrderedLast | lib/libopenpop/ordered.c:69-95 | the head leaves the ring and the next thread gets the token |
| OrderedRing.OrderedShare.OrderedNext | lib/libopenpop/ordered.c:104-146 | the head moves to the end, also when the ring is full or it is alone |
| OrderedRing.OrderedShare.OrderedSync | lib/libopenpop/ordered.c:194-226 | the token is taken and the thread becomes the owner, or it already was |
| OrderedRing.NextAt | lib/libopenpop/ordered.c:104-146 | going on rotates the ring by one, including the full ring that writes no id |
| OrderedRing.StepKeeps | lib/libopenpop/ordered.c:38-226 | every step keeps: the ring lists each active thread once in block order, and tokens plus owner make one, held by the head |
| OrderedRing.EnteredInOrder | lib/libopenpop/loop.c:252-275 | in every run the ordered sections are entered in the order of the blocks, each once |
| OrderedRing.Exclusive | lib/libopenpop/ordered.c:194-226 | in every run at most one thread is in an ordered section or able to enter one |
| OrderedEvents.EnteredAsAsked | lib/libopenpop/loop.c:528-544 | in every run, the thread that enters an ordered section after k others is the one whose request for a block came after k others |
| OrderedEvents.SectionsApart | lib/libopenpop/ordered.c:194-226 | between two entries into ordered sections the thread that was inside has left |
| OrderedRing.NeverStuck | lib/libopenpop/loop.c:528-544 | a run without a possible step has entered all blocks and emptied the ring |
| OrderedProgress.RunEnds | lib/libopenpop/loop.c:528-544 | no run takes more than four steps for each block and one for each thread; a shorter one can go on, and one of this length has let every thread out and entered every block in order |
| StaticSchedule.CountIff | lib/libopenpop/iter.c:89-91 | the number of iterations is right for either sign of the increment |
| StaticSchedule.BlockIff | lib/libopenpop/ordered.c:424-429 | the formula of the wait names the block that contains the iteration |
| StaticSchedule.StartOfAll | lib/libopenpop/iter.c:96-104 | the blocks of all threads make up all iterations |
| StaticSchedule.BlocksEven | lib/libopenpop/iter.c:96-104 | block sizes differ by at most one, and earlier blocks are not smaller |
| StaticSchedule.BlockBounds | lib/libopenpop/iter.c:96-104 | the bounds each thread computes are those of its block |
| StaticSchedule.ChunkIff | lib/libopenpop/iter.c:135-145 | a chunk is taken by exactly one thread on exactly one trip |
| StaticSchedule.Owner | lib/libopenpop/ordered.c:420-431 | the entry a wait computes is a thread of the team, without division by zero |
| StaticSchedule.Doacross.WaitEntry | lib/libopenpop/ordered.c:420-434 | the entry computed from the precomputed boundary, q and t is the owner of the iteration |
| StaticSchedule.Thread.StaticBlock | lib/libopenpop/iter.c:80-120 | the unchunked call gives the thread exactly its own iterations |
| StaticSchedule.Thread.StaticChunk | lib/libopenpop/iter.c:122-158 | the chunked call gives the thread its next own iterations and advances the trip |
| StaticSchedule.Thread.StaticNext | lib/libopenpop/iter.c:57-159 | every call gives own iterations not given before, or reports that none are left |
| StaticSchedule.Thread.TakeAll | lib/libopenpop/iter.c:57-159 | over all its calls a thread receives each iteration that doacross waits expect of it exactly once, and no other; it learns whether it had the last |
| Dispenser.CutOk | lib/libopenpop/iter.c:180-194 | the end of a block is right even when the computation of what is left wraps, and a cut chunk may be used again |
| Dispenser.GuidedOk | lib/libopenpop/iter.c:322-334 | a guided block is non-empty and within the loop; it has the least number of steps that is no less than a chunk and would serve all threads, or is the rest |
| Dispenser.ModeFor | lib/libopenpop/loop.c:57-77 | the fetch-and-add mode is chosen exactly when every thread may add once beyond the end |
| Dispenser.WorkShare.constructor | lib/libopenpop/loop.c:35-79 | an initialised work share is within its bounds, and its mode leaves room to add |
| Dispenser.WorkShare.DynamicNextLocked | lib/libopenpop/iter.c:166-194 | a whole chunk from the front or all that is left, and false exactly when nothing is |
| Dispenser.WorkShare.DynamicNextAdd | lib/libopenpop/iter.c:224-250 | the fetch-and-add branch hands out the front block, cut at the end |
| Dispenser.WorkShare.DynamicNextSwap | lib/libopenpop/iter.c:252-283 | the compare-and-swap loop, undisturbed, does as the locked routine |
| Dispenser.WorkShare.DynamicNextRaw | lib/libopenpop/iter.c:216-284 | either form hands out a non-empty block from the front exactly when something is left: a whole chunk if so much is left, and else the rest |
| Dispenser.WorkShare.GuidedNextLocked | lib/libopenpop/iter.c:307-338 | the block from the front has the least share of the steps left that is no less than a chunk and, given to every thread, uses them up, or is the rest |
| LoopRuns.StepKeeps | lib/libopenpop/iter.c:216-386 | every atomic step of every thread keeps each value in exactly one place: a block handed out or the rest |
| LoopRuns.NeverWraps | lib/libopenpop/loop.c:46-77 | in every run in the fetch-and-add mode no addition wraps, with every thread stopping after its first false |
| LoopRuns.BlockSizes | lib/libopenpop/iter.c:216-386 | in every run each block is taken from the front and has the size its schedule asks for: a chunk or the rest, or the least share of the threads or the rest |
| LoopRuns.NoneTwice | lib/libopenpop/iter.c:216-386 | in every run no value is handed out twice and none outside the loop |
| LoopRuns.ExactlyOnce | lib/libopenpop/iter.c:216-386 | once a thread has received false every iteration has been handed out exactly once, to a thread that runs it |
| LoopProgress.RunEnds | lib/libopenpop/iter.c:216-386 | no run goes on for ever: every step of every interleaving lowers a rank, failed exchanges included |
| LoopProgress.CanGoOn | lib/libopenpop/iter.c:216-386 | a thread that has not received false can always take a step, so a run that cannot be continued has given every thread false |
| HierarchyLoop.NodeShare.NextDynamic | lib/libopenpop/hierarchy.c:1132-1155 | one call returns a chunk from the front of the node's share, or the rest of it, after refilling an empty share with a chunk for every thread of the node or the rest of the loop; false exactly when both are used up |
| HierarchyLoop.CallIsStep | lib/libopenpop/hierarchy.c:1132-1155 | one undisturbed call is one step of the protocol, or the load and the exchange |
| HierarchyBlocks.BlockSizes | lib/libopenpop/hierarchy.c:1132-1155 | in every run of all threads each block is such a chunk or rest, from a share refilled in that way |
| HierarchyLoop.StartInv | lib/libopenpop/hierarchy.c:917-949 | node shares that start empty and a full global share satisfy the invariant |
| HierarchyLoop.StepKeeps | lib/libopenpop/hierarchy.c:1132-1155 | every step of every thread of every node keeps each value in exactly one place: a block handed out, a node share or the global rest |
| HierarchyLoop.AddFits | lib/libopenpop/hierarchy.c:558-580 | an addition before the end, or one that still finds room beyond it, does not wrap |
| HierarchyLoop.SafeKeeps | lib/libopenpop/hierarchy.c:1132-1155 | every step keeps the blocks right even where the last node to add wraps the counter, which no thread reads again |
| HierarchyLoop.NoneTwice | lib/libopenpop/hierarchy.c:1132-1155 | over all interleavings the blocks are disjoint and within the loop |
| HierarchyLoop.ExactlyOnce | lib/libopenpop/hierarchy.c:1132-1155 | once a thread of every node has received false the blocks are exactly the loop, each iteration run once |
| HierarchyRoom.NeverWrapsIff | lib/libopenpop/hierarchy.c:1132-1155 | in the fetch-and-add mode no addition to the global counter wraps, in any run from any start, if and only if there is room for every node to add once beyond a last refill by the largest node |
| HierarchyRoom.DrivenOver | lib/libopenpop/hierarchy.c:1132-1155 | without room for all nodes but one, a run whose nodes add beyond the end one after the other reaches an addition that wraps before that node has looked at the counter |
| HierarchyRoom.AlwaysCorrectIff | lib/libopenpop/hierarchy.c:558-580 | a loop that passes the check of the source on every node is handed out without repetition or excess in all runs, from any start, if and only if all nodes but the smallest may add once beyond a last refill by the largest |
| HierarchyProgress.RunEnds | lib/libopenpop/hierarchy.c:1132-1155 | no run of the threads of all nodes goes on for ever |
| HierarchyProgress.CanGoOn | lib/libopenpop/hierarchy.c:1132-1155 | a thread that has not received false can take a step, or the thread that holds the lock of its node can, so a run that cannot be continued has given every thread false |
| HierarchyLoop.GuardTooWeak | lib/libopenpop/hierarchy.c:561-580 | a run that passes the check of the source and hands out a value outside the loop |
| TreeReduction.FirstToArrive | lib/libopenpop/hierarchy.c:62-67 | the optimistic selector names exactly the first thread of a node to arrive |
| TreeReduction.FirstLeader | lib/libopenpop/hierarchy.c:326-328 | the global selector names exactly the first leader to finish its node |
| TreeReduction.StepKeeps | lib/libopenpop/hierarchy.c:298-404 | every atomic step keeps the invariant: each contribution is in exactly one place, and slots, tickets and counters agree |
| TreeReduction.OneWinner | lib/libopenpop/hierarchy.c:298-404 | in every round of every run exactly one thread gets true, with the contribution of every thread exactly once |
| TreeReduction.EmptyAfterRound | lib/libopenpop/hierarchy.c:95-98 | a round leaves all slots empty and all selectors armed for the next |
| TreeReduction.NeverStuck | lib/libopenpop/hierarchy.c:298-404 | no round deadlocks, even when threads share one of the 48 slots |
| ReductionSlots.NobodyWaits | lib/libopenpop/hierarchy.c:298-404 | on a node with at most 49 threads no thread waits for a slot |
| ReductionProgress.RoundEnds | lib/libopenpop/hierarchy.c:298-404 | every round ends: after three steps for each thread and two for each node, less one, all threads have returned, and never before; until then some step is possible |
| ReductionValue.Reordered | lib/libopenpop/hierarchy.c:298-354 | for an associative and commutative operator the order of the contributions does not matter |
| ReductionValue.RoundReduces | lib/libopenpop/kmp.c:940-953 | the data of the one thread that gets true is the combination of the contributions of all threads |
| PriorityList.PriorityList.Insert | lib/libopenpop/priority_queue.h:237-285 | the circular links take in the node at either end; waiting tasks stay in front exactly when the caller keeps to the rule |
| PriorityList.PriorityList.Remove | lib/libopenpop/priority_queue.h:414-444 | the node leaves the ring, and the result says whether it is now empty |
| PriorityList.PriorityList.Downgrade | lib/libopenpop/task.c:872-897 | the links are rewired so that the starting node goes to the end if it was first or a waiting node came next; the others keep their order |
| PriorityList.PriorityList.Start | lib/libopenpop/task.c:957-994 | a started task never stands before a waiting one |
| PriorityList.InsertOrderedIff | lib/libopenpop/priority_queue.h:237-285 | exactly when an insertion at either end keeps waiting tasks in front |
| PriorityList.StartOrdered | lib/libopenpop/task.c:872-897 | the move made for a starting task keeps waiting tasks in front |
| PriorityQueue.Queue.Lookup | lib/libopenpop/priority_queue.h:206-215 | the list of the priority comes to the root if and only if there is one |
| PriorityQueue.Queue.Migrate | lib/libopenpop/priority_queue.h:298-313 | moving the priority-0 list into the tree changes no task and no order |
| PriorityQueue.Queue.TreeInsert | lib/libopenpop/priority_queue.h:289-330 | the task joins its priority at the chosen end and no other priority changes |
| PriorityQueue.Queue.Insert | lib/libopenpop/priority_queue.h:334-353 | the same for list and tree form; the tree is used from the first positive priority on |
| PriorityQueue.Queue.TreeRemove | lib/libopenpop/priority_queue.c:174-204 | the task leaves its priority, an emptied priority leaves the tree |
| PriorityQueue.Queue.Remove | lib/libopenpop/priority_queue.h:456-483 | the same for both forms, with the emptiness of the queue |
| PriorityQueue.Queue.Start | lib/libopenpop/task.c:930-949 | a started task becomes tied and goes behind all others of its priority if it was first or a waiting task came next, and else stays; the others keep their order |
| PriorityQueue.NextTask1 | lib/libopenpop/priority_queue.c:216-231 | the tree search returns a waiting task of maximal priority if there is any waiting task, and nothing otherwise |
| PriorityQueue.Queue.NextTask | lib/libopenpop/priority_queue.h:371-405 | the first task of the highest priority that has a waiting one, which then waits itself; if no task waits, the first of some priority |
| WeightedSplit.TotalTrips | lib/libopenpop/kmp.c:312-315 | the trip count of an inclusive loop, for either sign |
| WeightedSplit.ScaledRange | lib/libopenpop/kmp.c:168-190 | a thread's start is the sum of the ratings of the threads before it, its range its own rating; a thread beyond all nodes gets nothing |
| WeightedSplit.RatingOf | lib/libopenpop/kmp.c:168-190 | threads are numbered node by node, and each has the rating of its node |
| WeightedSplit.SkewedBounds | lib/libopenpop/kmp.c:234-258 | both branches give the iterations from the start of the thread's ratings to their end |
| WeightedSplit.SkewedInit | lib/libopenpop/kmp.c:212-258 | the bounds of a thread are those of its share of the weighted split |
| WeightedSplit.SplitIsWhole | lib/libopenpop/kmp.c:249-257 | the shares of all threads follow each other from the first iteration to the last |
| WeightedSplit.EveryIterationOnce | lib/libopenpop/kmp.c:249-257 | every iteration belongs to exactly one thread |
| WeightedSplit.ShareBounds | lib/libopenpop/kmp.c:249-257 | a share lies between the rating times the quotient and the rating times the quotient plus one |
| WeightedSplit.UniformIsPlain | lib/libopenpop/kmp.c:330-347 | ratings of 1 give the plain split |
| WeightedSplit.PlainInit | lib/libopenpop/kmp.c:330-347 | the plain bounds are those of the thread's block |
| Taskloop.Divide | lib/libopenpop/taskloop.c:119-128 | task_step and nfirst describe tasks that make up all iterations |
| Taskloop.ChooseGrain | lib/libopenpop/taskloop.c:91-129 | with a grainsize g every task has at least min(g, n) and fewer than 2g iterations |
| Taskloop.ChooseCount | lib/libopenpop/taskloop.c:130-148 | with num_tasks, or as many as threads, the sizes differ by at most one and no task is empty |
| Taskloop.Split | lib/libopenpop/taskloop.c:192-201 | the splitting loop hands the planned, consecutive ranges to the tasks |
| Taskloop.CreateTasks | lib/libopenpop/taskloop.c:56-148 | the tasks cover exactly the iterations of the loop in order, in sizes as the clause asks (section 2.9.2 of OpenMP 4.5) |
| Taskloop.EveryIterationOnce | lib/libopenpop/taskloop.c:255-285 | every iteration is run by exactly one task |
| Alignment.Symbol.SetLargestAlignment | tool/alignment/Symbol.py:158-175 | every referencing architecture gets the largest alignment of all |
| Alignment.Symbol.LargestSize | tool/alignment/Symbol.py:116-129 | the largest size of all architectures |
| Alignment.PadBefore | tool/alignment/__main__.py:187-191 | the counted padding leads to the next multiple of the alignment |
| Alignment.AlignSymbol | tool/alignment/__main__.py:187-214 | on every architecture, symbol and padding take up the largest size from the least aligned place on; only the others get padding before it |
| Alignment.Align | tool/alignment/__main__.py:154-216 | all symbols get the alignment and paddings of their computed offsets |
| Alignment.OrderSymbolList | tool/alignment/__main__.py:127-152 | the symbols are grouped by how many architectures define them, most first |
| Alignment.ChosenSelects | tool/alignment/__main__.py:138-150 | a group holds exactly the symbols that so many of the architectures define, in their old order |
| Alignment.GroupedOrdered | tool/alignment/__main__.py:127-152 | the grouping is descending, stable, and keeps every defined symbol exactly once |
| LinkerScript.ProduceSection | tool/alignment/Linker.py:55-86 | the emitted commands of a section |
| LinkerScript.CounterAt | tool/alignment/Linker.py:55-86 | on every architecture the location counter stands after k symbols where the tool computed |
| LinkerScript.SymbolPlaced | tool/alignment/Linker.py:55-86 | the finished script of an architecture that references a symbol places it exactly once, where the counter has come to its offset; other scripts do not place it |
| LinkerScript.SameOffsets | tool/alignment/Linker.py:55-86 | every symbol is placed at the same offset on any two architectures that reference it, aligned to the largest requirement |
| LinkerScript.FirstPlaced | tool/alignment/Linker.py:55-86 | the first symbol is placed at the base of the section |
| LinkerScript.Packed | tool/alignment/Linker.py:55-86 | each other symbol is placed at the least aligned place after the largest form of the one before |
| LinkerScript.KeepsIff | tool/alignment/__main__.py:185-216 | the counters agree for all symbol lists of an alignment if and only if it divides 0x1000 |

## Left out

- HashTable.Htab.Perform: assumes that fewer than 2^30 elements are stored, so that sizes stay below 2^31; the last row of the table is too large for the 32-bit probing (`Probing.StepFits`).
- HashTable.Htab.Expand: replaces the fields of one table object where the source allocates a new table and updates the caller's pointer.
- HierarchyLoop.ExactlyOnce: in the fetch-and-add mode it assumes `RoomButOne`, and so do HierarchyLoop.NoneTwice, HierarchyProgress.RunEnds and HierarchyProgress.CanGoOn; without it the source hands out wrong blocks, as HierarchyRoom.AlwaysCorrectIff shows.
- HierarchyProgress.RunEnds: like HierarchyProgress.CanGoOn it is about runs under `RoomButOne` in the fetch-and-add mode; whether runs with a wrapped counter end is not stated.
- HierarchyLoop.NodeShare.NextDynamic: one call without interference, whose addition fits a long; interleaved calls are the steps of HierarchyLoop.
- HierarchyRoom.AlwaysCorrectIff: it is about loops that pass the check of the source with the threads of every node and whose end is at least one refill away from the far end of the long range; closer to it a wrapped counter can still be beyond the end, and then does no harm.
- HashTable.Htab.FindSlotToInsert: like HashTable.Htab.PerformOne, assumes fewer than 2^30 elements, and HashTable.Htab.constructor that the size asked for is below 2^31; beyond, the 32-bit probing of the source wraps.
- Dispenser.WorkShare.constructor: assumes that the chunk size times the increment is a long.
- LoopRuns.ExactlyOnce: for the guided schedule it assumes that the length of the loop is a long, as the division in the source does; so does Dispenser.WorkShare.GuidedNextLocked for what is left.
- OrderedRing.OrderedShare.OrderedSync: one call whose token is there; the wait for it is the event Wait of OrderedRing, which is possible only then.
- TreeReduction.StepKeeps: taking a full slot is one event, though the source loads it, combines and then stores the empty mark; only the collecting thread changes a full slot.
- Dispenser.WorkShare.DynamicNextSwap: one call without interference; interleaved exchanges are the steps of LoopRuns and HierarchyLoop.
- PriorityList.PriorityList.Insert: without the branch for last_parent_depends_on, which PriorityList.PriorityList.Downgrade does not adjust either.
- PriorityQueue.Queue.NextTask: one queue; the choice between two queues is not modelled.
- PriorityQueue.Queue.Insert: models the tree of lists and the lists on values; the pointer form of the splay algorithm is in IntervalTree and that of the list in PriorityList. Priorities are not negative.
- Taskloop.CreateTasks: assumes that the length of the loop is a long and that a grainsize is positive; the source divides by it.
- TaskTeam.TaskTeam.BarrierHandleTasks: one thread and task bodies that create nothing; what holds for many threads is stated by TaskRuns.NeverStuck and TaskRuns.StepsBounded.
- TaskTeam.TaskTeam.HandleClause: a chain is a sequence in a map, where the source relinks prev and next pointers and the hash slot.
- TaskTeam.TaskTeam.RunPre: the queues of the parent's children and of the taskgroup, and the result for a cancelled task.
- TaskTeam.TaskTeam.HandleDependers: the queues of the parent's children and of the taskgroup and the wake-up of a waiting parent; the queue of ready tasks is a set, and the choice of the next task is the priority queue's; dependers are a sequence that grows without the source's reallocation.
- TaskTeam.TaskTeam.UnlinkEntry: a chain is a sequence where the source links entries in both directions, and the map from addresses to chains stands for the hash table.
- Deferred tasks of one living parent only: undeferred and final tasks, taskgroups, cancellation, gomp_clear_parent, GOMP_taskwait and target tasks.
- The order among tasks that a parent depends on (parent_depends_on, last_parent_depends_on), and the choice between two queues.
- Locks, semaphores, barriers and futexes: atomic primitives here; weak memory is not modelled.
- The ordered section of static schedules (gomp_ordered_static_init, gomp_ordered_static_next) and the ull variants, which repeat the same algorithms.
- Reductions with nowait issued back to back: rounds are separated by a barrier.
- Signed overflow, undefined in C, is taken to wrap where it can occur in the dynamic schedules.
- The probing schedule (calc_het_probe_workshare, calculate_splits): floating point and time measurements.
- The plastiter flags and the chunked static form of kmp.c: they mean something only together with code the compiler emits.
- Reading map files, comparing object names and writing files in the alignment tool; the linker is modelled by what its location counter does.
