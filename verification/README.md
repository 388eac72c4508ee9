# Verified models of the persistent-memory and concurrency programs

This project models the crash-consistent data structures and the thread protocols of the repository and proves
what they keep over every run. `dafny verify dfyconfig.toml` checks all of it.

Where a program's promise is about interleavings or crashes, it is modelled as a step system: a state, a function
`Step` that performs one shared access or library call, and `Run`, which performs a sequence of events. Theorems
are about every sequence of events that can happen, crashes and restarts included. A step that would follow a null,
dangling or freed pointer, or use a position outside a vector, has the outcome `Fault`, and no run faults. Where the
source updates an object in place, a class does the same; the burst buffer's methods also name the run of the step
system that each of them performs.

The persistent-memory library is modelled by contract. A transaction snapshots a cell before it is stored to,
defers frees to its commit and, on a crash or an exception, brings back what was there before. `pmemobj_xalloc`
allocates, constructs and sets the destination pointer in one step, or fails with no effect. `persist` forces the
cells of a range into persistent memory; every other store may reach it at any later time or never.

| files | component |
|---|---|
| `LinkedHeap`, `History`, `Options` | null-terminated lists in a heap of nodes; committed effects, which of them returned, how a transaction ends; optional values |
| `BurstBufferSteps`, `BurstBufferProofs`, `BurstBufferTheorems`, `BurstBufferRuns`, `BurstBuffer` | the burst buffer: steps, invariant, theorems, the runs behind the operations, operations in place |
| `SortedInsert`, `VersionedArraySteps`, `VersionedArrayProofs`, `VersionedArray` | double-buffered sorted insert, store by store and in place |
| `KeyValueIndex`, `KeyValueSessions`, `KeyValueSteps`, `KeyValueProofs`, `KeyValueStores` | both key-value stores |
| `QueueSteps`, `QueueProofs`, `PersistentQueue` | persistent FIFO queue |
| `Barrier`, `AtomicBench` | counting barrier and the benchmark built on three of them |
| `Striping` | striped block access of the two benchmarks |
| `PhiStatistics`, `PhiDetector` | phi accrual failure detector over the reals |
| `SynchronizedValue` | locked values |

Decisions worth knowing:

- Burst buffer: one writer thread, as the program has, and any number of flushers. The two stores of the handover
  transaction, each delete of the free-all loop, each callback and each step of the tail walk are separate steps. A
  callback may leave arbitrary bytes in the region of its request before it continues, aborts, throws or dies.
- Sorted insert: `Value` has a key, which `operator<` compares, and a tag, so that "before equal elements" means
  something. An insert begins only when a slot is free, as the program relies on.
- Key-value store with a volatile index: the bucket append after the commit may throw. The key is then stored and
  not indexed, and putting it again stores it twice. `LostKeyPutAgain` gives the input, `SessionIsExact` the exact
  condition. The step system leaves a put whose append is outstanding in `Unindexed`; `LostEntryIsLostCall` says
  where the wrapper stands if the append then throws.
- Barrier: the count is a 64-bit number and every thread enters once. A spurious wakeup is a step like any other.
- Striping: the argument check lets parameters through for which some blocks are never touched; `CoverageCanFail`
  gives one and `CoversAllIff` the exact condition.
- Failure detector: square root, exponential and logarithm are parameters; the exponential is positive and strictly
  increasing, the logarithm strictly increasing with value 0 at 1. The constructors leave the sums unset, so every
  statement starts from a reset.

## Model

| member | source | states |
|---|---|---|
| `LinkedHeap.ListUnique` | targets/apps/pmembb_list/main.cpp:42-48 | a pointer starts at most one null-terminated list |
| `LinkedHeap.ListAcyclic` | targets/apps/pmembb_list/main.cpp:91-96 | a null-terminated list meets no node twice |
| `BurstBufferSteps.Image` | targets/apps/pmembb_list/main.cpp:81-85 | a request covers exactly the bytes of its data from its offset on |
| `BurstBufferProofs.ApplyIsOverlay` | targets/apps/pmembb_list/main.cpp:81-85 | delivering a batch overlays one fixed map, whatever the file held |
| `BurstBufferProofs.PartialWriteIsOverwritten` | targets/apps/pmembb_list/main.cpp:158-172 | bytes that a callback left in the region of a request of the batch do not survive delivering the batch |
| `BurstBufferProofs.RedeliveryIsIdempotent` | targets/apps/pmembb_list/main.cpp:158-172 | delivering any prefix of a batch and then the whole batch equals delivering it once |
| `BurstBufferProofs.LastWriteWins` | targets/apps/pmembb_list/main.cpp:81-85 | the last request that covers a position decides its byte |
| `BurstBufferProofs.UncoveredStays` | targets/apps/pmembb_list/main.cpp:81-85 | a position that no request covers keeps what the file held |
| `BurstBufferProofs.AllocateKeeps` | targets/apps/pmembb_list/main.cpp:63-77 | the atomic allocate-and-link extends the active list by one fresh node and keeps the invariant, even while a flusher's transaction is open |
| `BurstBufferProofs.AdvanceTailKeeps` | targets/apps/pmembb_list/main.cpp:115-116 | advancing `tail_` follows the new node and keeps the invariant |
| `BurstBufferProofs.HandoverStoreKeeps` | targets/apps/pmembb_list/main.cpp:138-141 | after each store inside the handover transaction a rollback still yields the pool from before it |
| `BurstBufferProofs.HandoverCommitKeeps` | targets/apps/pmembb_list/main.cpp:138-142 | the commit turns the whole active list into the flushing list, losing and duplicating nothing |
| `BurstBufferProofs.HandoverAbortKeeps` | targets/apps/pmembb_list/main.cpp:138-141 | a failing handover transaction leaves lists and tail as they were |
| `BurstBufferProofs.CallbackWritesKeeps` | targets/apps/pmembb_list/main.cpp:161-172 | whatever a running callback has made durable so far keeps the invariant |
| `BurstBufferProofs.CallbackContinuesKeeps` | targets/apps/pmembb_list/main.cpp:161-168 | a callback that continues leaves all requests up to its own in the file |
| `BurstBufferProofs.FreeNodeKeeps` | targets/apps/pmembb_list/main.cpp:175-182 | each delete frees an allocated node that this transaction has not freed before |
| `BurstBufferProofs.FreeCommitKeeps` | targets/apps/pmembb_list/main.cpp:175-184 | the commit frees exactly the flushing list, whose requests are all in the file by then |
| `BurstBufferProofs.FreeAbortKeeps` | targets/apps/pmembb_list/main.cpp:174-184 | a failing free-all transaction leaves the flushing list in place for redelivery |
| `BurstBufferProofs.CrashKeeps` | targets/apps/pmembb_list/main.cpp:192-201 | a crash at any step keeps the invariant: open transactions roll back, volatile state is lost |
| `BurstBufferProofs.RecoveringKeeps` | targets/apps/pmembb_list/main.cpp:208-212 | the tail walk stays on the active list and ends at its last node |
| `BurstBufferProofs.StepKeeps` | targets/apps/pmembb_list/main.cpp:92-220 | no step of any thread faults and every step keeps the invariant |
| `BurstBufferProofs.RunKeeps` | targets/apps/pmembb_list/main.cpp:92-220 | no run faults and every reachable state satisfies the invariant |
| `BurstBufferTheorems.NoRunFaults` | targets/apps/pmembb_list/main.cpp:110-213 | no run follows a null, dangling or freed pointer or frees a node twice |
| `BurstBufferTheorems.RecoveryStepIsPossible` | targets/apps/pmembb_list/main.cpp:195-213 | in every reachable state the process may die, and recovery can do exactly what the pool calls for |
| `BurstBufferTheorems.WriterStepIsPossible` | targets/apps/pmembb_list/main.cpp:110-144 | in every reachable running state the writer can take its next step, or fail where it allocates or runs its transaction, whatever the flusher does; only the mutex makes it wait |
| `BurstBufferTheorems.FlusherStepIsPossible` | targets/apps/pmembb_list/main.cpp:158-185 | the same for the flusher: its callback may leave any bytes of its region, continue, abort or throw, and its transaction may fail, whatever the writer does |
| `BurstBufferTheorems.ListsExist` | targets/apps/pmembb_list/main.cpp:91-96 | in every reachable state both root pointers start a null-terminated list |
| `BurstBufferTheorems.LogIsTrace` | targets/apps/pmembb_list/main.cpp:110-120 | the recorded commits, crashes and returns are those of the event sequence |
| `BurstBufferTheorems.WritesAreConserved` | targets/apps/pmembb_list/main.cpp:110-185 | freed ++ flushing ++ active requests are exactly the committed writes in order, in every reachable state |
| `BurstBufferTheorems.FileIsConserved` | targets/apps/pmembb_list/main.cpp:158-185 | the backing file overlaid by the flushing and then the active list is always the initial file with all committed writes applied |
| `BurstBufferTheorems.ReturnedWritesAreCommitted` | targets/apps/pmembb_list/main.cpp:110-120 | writes that returned 0 are committed, in order; at most one committed write per crash never returned |
| `BurstBufferTheorems.NoLeak` | targets/apps/pmembb_list/main.cpp:63-77 | the allocated nodes are exactly the sentinel and the nodes of the two disjoint acyclic lists |
| `BurstBufferTheorems.FreesEachNodeOnce` | targets/apps/pmembb_list/main.cpp:174-184 | the free-all transaction commits with every flushing node recorded exactly once |
| `BurstBufferTheorems.WriterAppendsAtTheEnd` | targets/apps/pmembb_list/main.cpp:110-116 | whenever the writer can append, `tail_` is the last active node, its next is null and it is not flushing |
| `BurstBufferTheorems.TailIsFlushingOnlyInHandover` | targets/apps/pmembb_list/main.cpp:132-143 | `tail_` is reachable from `flushing` only between the start of the handover transaction and line 142, under the mutex |
| `BurstBufferTheorems.RecoveryFindsTail` | targets/apps/pmembb_list/main.cpp:208-212 | from any crash state with a sentinel recovery terminates, keeps persistent memory and finds the last active node |
| `BurstBufferTheorems.RecoveryCreatesSentinel` | targets/apps/pmembb_list/main.cpp:195-201 | without a sentinel nothing is allocated, and creating it is all recovery adds |
| `BurstBufferTheorems.ActiveListIsTold` | targets/apps/pmembb_list/main.cpp:110-213 | in every reachable state the active list is the fold of the committed sentinel, writes and handovers, and a settled `tail_` is its last node |
| `BurstBufferTheorems.CommittedSnoc` | targets/apps/pmembb_list/main.cpp:110-213 | sentinel creation, allocation and handover commit are the only events that count as committed to the active list |
| `BurstBufferTheorems.TailIsDetermined` | targets/apps/pmembb_list/main.cpp:195-213 | two runs that committed the same sentinel, writes and handovers hold the same active list and, once settled, the same `tail_`, whatever crashes, aborts, failures and flushes either saw |
| `BurstBufferTheorems.RecoveryYieldsTailOfCrashFreeRun` | targets/apps/pmembb_list/main.cpp:195-213 | recovery from any crash state yields the `tail_` of any settled run with the same committed writes and handovers, a crash-free one included |
| `BurstBufferTheorems.ActiveRequestsAreTold` | targets/apps/pmembb_list/main.cpp:110-144 | wherever nodes were allocated, the active requests are the committed writes since the latest committed handover |
| `BurstBufferTheorems.CrashRecoverKeeps` | targets/apps/pmembb_list/main.cpp:195-213 | crashing and recovering changes neither persistent memory nor a settled `tail_` |
| `BurstBuffer.Buffer.RuntimeInitialize` | targets/apps/pmembb_list/main.cpp:195-213 | contents unchanged, sentinel created if missing, tail at the end; the whole run behind it, sentinel included; failure changes nothing |
| `BurstBuffer.Buffer.TryPwrite` | targets/apps/pmembb_list/main.cpp:110-120 | appends one request and returns 0, or returns the negative errno and changes nothing; the run behind it |
| `BurstBuffer.Buffer.ForEach` | targets/apps/pmembb_list/main.cpp:122-130 | visits the active requests in order, all of them unless the callback stops it |
| `BurstBuffer.Buffer.TryEnqueueFlush` | targets/apps/pmembb_list/main.cpp:132-144 | moves the whole active list if nothing is flushing and the transaction commits, else changes nothing, whichever store it fails after; the run behind it |
| `BurstBuffer.Buffer.FlushAll` | targets/apps/pmembb_list/main.cpp:158-185 | delivers in order, frees all if no callback stops it and the free-all transaction commits, else keeps the list, after whichever delete it fails; the run behind it |
| `SortedInsert.LowerBound` | targets/apps/ppm_ch11_6_versioning_insert/main.cpp:64-66 | everything before the position is less, the element at it is not |
| `SortedInsert.InsertKeepsSorted` | targets/apps/ppm_ch11_6_versioning_insert/main.cpp:64-81 | an insert keeps the order and adds exactly the element |
| `SortedInsert.InsertAllSorts` | targets/apps/ppm_ch11_6_versioning_insert/main.cpp:58-82 | any sequence of inserts yields exactly its elements, sorted |
| `SortedInsert.EqualKeysNewestFirst` | targets/apps/ppm_ch11_6_versioning_insert/main.cpp:64-75 | inserts go before equal elements: equal keys run from newest to oldest |
| `VersionedArrayProofs.EvictKeeps` | targets/apps/ppm_ch11_6_versioning_insert/main.cpp:84-92 | writing back any cell at any moment keeps the invariant |
| `VersionedArrayProofs.CrashKeeps` | targets/apps/ppm_ch11_6_versioning_insert/main.cpp:84-92 | so does a crash at any moment |
| `VersionedArrayProofs.RunKeeps` | targets/apps/ppm_ch11_6_versioning_insert/main.cpp:58-92 | every run of inserts, write-backs, crashes and reopens keeps the invariant |
| `VersionedArrayProofs.LogIsTrace` | targets/apps/ppm_ch11_6_versioning_insert/main.cpp:84-92 | the durable and the returned inserts and the crashes are those the events tell: a begun insert is durable once its selector store reaches persistent memory |
| `VersionedArrayProofs.StepIsPossible` | targets/apps/ppm_ch11_6_versioning_insert/main.cpp:58-92 | over every run an insert can begin exactly between inserts while a slot is free, its next step is always possible, and write-backs and crashes are possible at any time |
| `VersionedArrayProofs.StepMakesDurable` | targets/apps/ppm_ch11_6_versioning_insert/main.cpp:84-92 | stores stay volatile: persistent memory changes only by a persist of its range or by the write-back of one cell, and a crash restores the view from it |
| `VersionedArrayProofs.SurvivorIsWholeInserts` | targets/apps/ppm_ch11_6_versioning_insert/main.cpp:58-92 | at every point what a crash would leave is the durable inserts applied one after the other, with the matching size |
| `VersionedArrayProofs.SurvivorIsSorted` | targets/apps/ppm_ch11_6_versioning_insert/main.cpp:58-92 | it is sorted and has each durable value as often as it was inserted |
| `VersionedArrayProofs.ReturnedInsertsAreDurable` | targets/apps/ppm_ch11_6_versioning_insert/main.cpp:84-92 | returned inserts are durable, in order; at most one durable insert per crash never returned |
| `VersionedArrayProofs.CompletedInserts` | targets/apps/ppm_ch11_6_versioning_insert/main.cpp:58-92 | without crashes the array is the sorted arrangement of exactly the completed inserts |
| `VersionedArrayProofs.CrashLeavesBeforeOrAfter` | targets/apps/ppm_ch11_6_versioning_insert/main.cpp:84-92 | while a slot is free, a crash inside an insert leaves the sequence from before it or from after it; the copy that was current is unmodified until then |
| `VersionedArrayProofs.InsertCompletes` | targets/apps/ppm_ch11_6_versioning_insert/main.cpp:84-92 | while a slot is free an insert can begin, and left alone it returns with the new sequence visible |
| `VersionedArrayProofs.AllCanBeInserted` | targets/apps/ppm_ch11_6_versioning_insert/main.cpp:94-113 | any sequence of at most `slots` values has a run that returns from exactly these inserts and leaves their sorted arrangement |
| `VersionedArray.Versioned.Search` | targets/apps/ppm_ch11_6_versioning_insert/main.cpp:64-66 | the halving search returns the lower bound |
| `VersionedArray.Versioned.FillWorking` | targets/apps/ppm_ch11_6_versioning_insert/main.cpp:59-81 | the working array becomes the insertion into the consistent one, which is only read |
| `VersionedArray.Versioned.Insert` | targets/apps/ppm_ch11_6_versioning_insert/main.cpp:84-92 | the other version becomes current with the element inserted; the old one is unmodified |
| `KeyValueIndex.FindIsIndexOf` | targets/apps/ppm_ch11_4_simplekv/simplekv.hpp:70-79 | searching the bucket at hash modulo bucket count finds a key's position among all keys or that it is absent, for any hash and bucket count |
| `KeyValueIndex.BucketsPartitionPositions` | targets/apps/ppm_ch11_5_simplekv_rebuild/simplekv_rebuild.hpp:79-85 | each rebuilt bucket is the increasing list of the positions whose key hashes to it |
| `KeyValueIndex.OneEntryPerKey` | targets/apps/ppm_ch11_5_simplekv_rebuild/simplekv_rebuild.hpp:79-85 | a key has one entry in the whole table |
| `KeyValueIndex.PutIsMapUpdate` | targets/apps/ppm_ch11_4_simplekv/simplekv.hpp:81-104 | overwrite or append on keys and values is a map update |
| `KeyValueIndex.LookupIsMapLookup` | targets/apps/ppm_ch11_4_simplekv/simplekv.hpp:70-79 | after any puts the hashed lookup equals the map lookup |
| `KeyValueSessions.SessionGetIsSeen` | targets/apps/ppm_ch11_5_simplekv_rebuild/simplekv_rebuild.hpp:88-124 | through any puts, whichever bucket appends throw, `get` answers from the map of the puts that are indexed |
| `KeyValueSessions.SessionIsExact` | targets/apps/ppm_ch11_5_simplekv_rebuild/simplekv_rebuild.hpp:99-124 | the stored keys stay free of duplicates if and only if no key whose first put lost its bucket entry is put again; they then stand for all puts |
| `KeyValueSessions.ReopenSeesAllPuts` | targets/apps/ppm_ch11_5_simplekv_rebuild/simplekv_rebuild.hpp:76-97 | under that condition a reopened wrapper answers the last put of every key, lost entries included |
| `KeyValueSessions.LostKeyPutAgain` | targets/apps/ppm_ch11_5_simplekv_rebuild/simplekv_rebuild.hpp:115-123 | without it a key is stored twice and a reopened wrapper answers the older value |
| `KeyValueProofs.RebuiltRunKeeps` | targets/apps/ppm_ch11_5_simplekv_rebuild/simplekv_rebuild.hpp:76-124 | no run uses a position outside the vectors, and every run keeps data, buckets and log in step |
| `KeyValueProofs.IndexedRunKeeps` | targets/apps/ppm_ch11_4_simplekv/simplekv.hpp:81-104 | the same for the store with its index in persistent memory |
| `KeyValueProofs.RebuiltLogIsTrace` | targets/apps/ppm_ch11_5_simplekv_rebuild/simplekv_rebuild.hpp:99-124 | the committed and returned puts and the crashes are those of the event sequence |
| `KeyValueProofs.IndexedLogIsTrace` | targets/apps/ppm_ch11_4_simplekv/simplekv.hpp:81-104 | the same for the store with its index in persistent memory |
| `KeyValueProofs.RebuiltStepIsPossible` | targets/apps/ppm_ch11_5_simplekv_rebuild/simplekv_rebuild.hpp:99-124 | in every reachable state a put can begin between puts, its transaction can go on or fail at every store, and the process may die |
| `KeyValueProofs.IndexedStepIsPossible` | targets/apps/ppm_ch11_4_simplekv/simplekv.hpp:81-104 | the same for the store with its index in persistent memory |
| `KeyValueProofs.RebuiltPutIsUndone` | targets/apps/ppm_ch11_5_simplekv_rebuild/simplekv_rebuild.hpp:109-121 | after any events without a commit, a crash or an exception brings back keys and values as they were between puts |
| `KeyValueProofs.IndexedPutIsUndone` | targets/apps/ppm_ch11_4_simplekv/simplekv.hpp:90-103 | the same for table and values of the other store |
| `KeyValueProofs.DurableDataIsCommittedPuts` | targets/apps/ppm_ch11_5_simplekv_rebuild/simplekv_rebuild.hpp:99-124 | at every crash point keys and values have equal length, no key twice, and stand for the committed puts |
| `KeyValueProofs.RebuiltTableIsMaintainedTable` | targets/apps/ppm_ch11_5_simplekv_rebuild/simplekv_rebuild.hpp:76-86 | crash and reopen yields, bucket by bucket, the table the program has once its last committed put is finished |
| `KeyValueProofs.RebuiltGetIsMapLookup` | targets/apps/ppm_ch11_5_simplekv_rebuild/simplekv_rebuild.hpp:88-97 | `get` answers the last committed put or absence, over every run |
| `KeyValueProofs.IndexedGetIsMapLookup` | targets/apps/ppm_ch11_4_simplekv/simplekv.hpp:70-79 | the same for the other store |
| `KeyValueProofs.StoresAgree` | targets/apps/ppm_ch11_4_simplekv/simplekv.hpp:70-104 | runs of the two stores that committed the same puts have equal tables and values |
| `KeyValueProofs.EntriesAreABijection` | targets/apps/ppm_ch11_5_simplekv_rebuild/simplekv_rebuild.hpp:107-123 | the maintained buckets list every position once, in increasing order, and no other |
| `KeyValueProofs.ReturnedPutsAreCommitted` | targets/apps/ppm_ch11_5_simplekv_rebuild/simplekv_rebuild.hpp:99-124 | returned puts are committed, in order; at most one committed put per crash never returned |
| `KeyValueProofs.IndexedReturnedPutsAreCommitted` | targets/apps/ppm_ch11_4_simplekv/simplekv.hpp:81-104 | the same for the store with its index in persistent memory |
| `KeyValueProofs.LostEntryIsLostCall` | targets/apps/ppm_ch11_5_simplekv_rebuild/simplekv_rebuild.hpp:118-123 | a reachable put whose bucket append throws leaves the wrapper where a session with that lost entry stands |
| `KeyValueProofs.PutCompletes` | targets/apps/ppm_ch11_5_simplekv_rebuild/simplekv_rebuild.hpp:99-124 | left alone, a put from any reachable state returns with the value stored and the table rebuilt-equal |
| `KeyValueProofs.IndexedPutCompletes` | targets/apps/ppm_ch11_4_simplekv/simplekv.hpp:81-104 | left alone, a put from any reachable state returns with value and entry stored, one store for a known key and two for a new one |
| `KeyValueStores.Search` | targets/apps/ppm_ch11_4_simplekv/simplekv.hpp:73-76 | the loop returns the first entry's position |
| `KeyValueStores.SimpleKv.Get` | targets/apps/ppm_ch11_4_simplekv/simplekv.hpp:70-79 | the map's answer |
| `KeyValueStores.SimpleKv.Put` | targets/apps/ppm_ch11_4_simplekv/simplekv.hpp:81-104 | updates the map; new keys are appended, known ones overwritten in place; a transaction that fails after any store changes nothing |
| `KeyValueStores.SimpleKvRuntime.constructor` | targets/apps/ppm_ch11_5_simplekv_rebuild/simplekv_rebuild.hpp:76-86 | the loop builds the table of the stored keys and changes no data |
| `KeyValueStores.SimpleKvRuntime.Get` | targets/apps/ppm_ch11_5_simplekv_rebuild/simplekv_rebuild.hpp:88-97 | the answer of the map of indexed puts, which is the stored map while the buckets are complete |
| `KeyValueStores.SimpleKvRuntime.Put` | targets/apps/ppm_ch11_5_simplekv_rebuild/simplekv_rebuild.hpp:99-124 | updates the stored map and keeps complete buckets complete; a failing transaction changes nothing; a failing bucket append stores the value unseen; duplicate keys exactly if a lost key is put again |
| `QueueProofs.AppendChain` | targets/apps/ppm_ch8_7_persistent_queue/persistent_queue.hpp:51-62 | linking a node extends the head-to-tail chain and its values by one |
| `QueueProofs.RemoveChain` | targets/apps/ppm_ch8_7_persistent_queue/persistent_queue.hpp:67-79 | taking the head shortens chain and values by the first; the last one resets the tail |
| `QueueProofs.NoRunFaults` | targets/apps/ppm_ch8_7_persistent_queue/persistent_queue.hpp:50-82 | no run follows a null, dangling or freed pointer |
| `QueueProofs.QueueIsFifo` | targets/apps/ppm_ch8_7_persistent_queue/persistent_queue.hpp:50-82 | pushed values are the popped ones followed by the durable chain, which uses up the heap, over every run |
| `QueueProofs.LogIsTrace` | targets/apps/ppm_ch8_7_persistent_queue/persistent_queue.hpp:50-82 | the committed operations are those with which a plain sequence of values answers the committed pushes and pops of the event sequence; crashes and returns are counted |
| `QueueProofs.QueueServesAsks` | targets/apps/ppm_ch8_7_persistent_queue/persistent_queue.hpp:50-82 | the durable chain holds what that sequence of values holds, over every run |
| `QueueProofs.PopTakesTheFront` | targets/apps/ppm_ch8_7_persistent_queue/persistent_queue.hpp:65-82 | a pop takes the front value; on an empty queue it throws and changes nothing |
| `QueueProofs.StepIsPossible` | targets/apps/ppm_ch8_7_persistent_queue/persistent_queue.hpp:50-82 | in every reachable state an operation can begin between operations, a transaction can go on or fail at every store, and the process may die |
| `QueueProofs.InterruptedOperationIsUndone` | targets/apps/ppm_ch8_7_persistent_queue/persistent_queue.hpp:50-82 | from an idle queue, after any events without a commit, a crash or an exception brings back the pool of that idle queue |
| `QueueProofs.ReturnedOperationsAreCommitted` | targets/apps/ppm_ch8_7_persistent_queue/persistent_queue.hpp:50-82 | returned operations are committed, in order; at most one committed operation per crash never returned |
| `QueueProofs.PushCompletes` | targets/apps/ppm_ch8_7_persistent_queue/persistent_queue.hpp:50-63 | left alone, a push from any reachable state returns with the value linked at the end |
| `QueueProofs.PopCompletes` | targets/apps/ppm_ch8_7_persistent_queue/persistent_queue.hpp:65-82 | left alone, a pop from any reachable non-empty state returns the front value and frees its node |
| `PersistentQueue.Queue.Push` | targets/apps/ppm_ch8_7_persistent_queue/persistent_queue.hpp:50-63 | appends the value; a failing allocation or transaction changes nothing |
| `PersistentQueue.Queue.Pop` | targets/apps/ppm_ch8_7_persistent_queue/persistent_queue.hpp:65-82 | removes and returns the front value and frees its node, or reports an empty queue; a failing transaction changes nothing |
| `PersistentQueue.Queue.Show` | targets/apps/ppm_ch8_7_persistent_queue/persistent_queue.hpp:84-92 | lists the values front to back |
| `Barrier.StepKeeps` | targets/libraries/psync/include/psync/barrier.hpp:15-22 | every step keeps one mutex holder, count = threads that have not decremented, and no sleeper behind a finished notification |
| `Barrier.NobodyLeavesEarly` | targets/libraries/psync/include/psync/barrier.hpp:18-20 | when a thread has returned, every thread has decremented |
| `Barrier.StepIsPossible` | targets/libraries/psync/include/psync/barrier.hpp:15-22 | over every run any thread outside or woken can take a free mutex, its holder can go on, a sleeper may wake at any moment, and a check leaves or sleeps by the count |
| `Barrier.NoLostWakeup` | targets/libraries/psync/include/psync/barrier.hpp:18-20 | over every run at count 0, a sleeper means that the mutex holder is about to notify and that notification wakes it; nobody sleeps once no notification is outstanding |
| `Barrier.StepLowersMeasure` | targets/libraries/psync/include/psync/barrier.hpp:15-22 | every step but a spurious wakeup lowers a measure |
| `Barrier.Progress` | targets/libraries/psync/include/psync/barrier.hpp:15-22 | until all have returned some thread can step other than by a spurious wakeup |
| `Barrier.EveryRunIsSafeAndCanFinish` | targets/libraries/psync/include/psync/barrier.hpp:13-22 | for every run of n threads: nobody leaves early, no wakeup is lost, and until all are back a step that lowers the measure is possible |
| `Barrier.EveryRunCanFinish` | targets/libraries/psync/include/psync/barrier.hpp:13-22 | every run can be continued until all threads have returned |
| `AtomicBench.BarrierSeparates` | targets/apps/atomic_bench/main.cpp:76-95 | nobody is past a barrier that somebody has not reached |
| `AtomicBench.IncrementsAreTimed` | targets/apps/atomic_bench/main.cpp:80-95 | every increment happens while the timer runs, under every schedule |
| `AtomicBench.CounterIsTotal` | targets/apps/atomic_bench/main.cpp:97-103 | after the joins the counter is the number of all increments, none lost, and the comparison succeeds exactly if that is the requested total |
| `AtomicBench.NoDeadlock` | targets/apps/atomic_bench/main.cpp:76-99 | until the main thread is done some thread can step other than by a spurious wakeup |
| `AtomicBench.StepLowersMeasure` | targets/apps/atomic_bench/main.cpp:76-103 | every step but a spurious wakeup lowers a measure |
| `AtomicBench.EveryRunCanFinish` | targets/apps/atomic_bench/main.cpp:51-103 | in every reachable unfinished state a step that lowers the measure is possible |
| `AtomicBench.EveryRunEnds` | targets/apps/atomic_bench/main.cpp:51-103 | every run can be continued until the main thread has compared: successfully exactly if the shares add up to the requested total |
| `AtomicBench.StepIsPossible` | targets/apps/atomic_bench/main.cpp:76-103 | over every run each step of the main thread and each increment is possible whenever it is its turn, whatever the others do |
| `AtomicBench.BarrierStepIsPossible` | targets/apps/atomic_bench/main.cpp:76-95 | inside a barrier a thread can do exactly what that barrier lets it |
| `Striping.Sizes` | targets/apps/pmemblkbench/main.cpp:144-147 | strip units fit into a stripe, and fill it exactly when the block size divides a strip unit |
| `Striping.UnitSizes` | targets/apps/pmemblkbench/main.cpp:144-147 | stripes fill the total, threads share a stripe evenly, and a strip unit holds as many whole blocks as fit |
| `Striping.DividesIsAccepted` | targets/apps/pmemblkbench/main.cpp:72-77 | all parameters that divide evenly and leave each thread a block pass the check |
| `Striping.InBounds` | targets/apps/pmemobjbench/main.cpp:178-208 | every touched block is below total / block, and no intermediate value exceeds it |
| `Striping.NoBlockTwice` | targets/apps/pmemblkbench/main.cpp:163-172 | distinct (stripe, thread, slot) triples touch distinct blocks, for any permutation of the slots |
| `Striping.CoversAllIff` | targets/apps/pmemblkbench/main.cpp:72-77 | every block is touched if and only if the block size divides stripe / nthreads |
| `Striping.CoverageCanFail` | targets/apps/pmemobjbench/main.cpp:91-96 | parameters that pass the check and leave a block untouched |
| `Striping.Worker` | targets/apps/pmemblkbench/main.cpp:169-192 | a worker touches its blocks stripe by stripe, slot by slot, up to its first failure or to the end of the first stripe after which the shared failure flag is set; it stops short for no other reason |
| `Striping.TraceAt` | targets/apps/pmemblkbench/main.cpp:169-172 | the access in round `s`, slot `j` of thread `i` goes to block s * blocks per stripe + i * blocks per unit + access[j] |
| `PhiStatistics.SlideKeepsLast` | targets/libraries/phi_accrual_fd/include/phi_accrual_fd/window.hpp:27-31 | sliding sample by sample keeps all samples up to the window size and then exactly the last ones |
| `PhiStatistics.LastNIsSuffix` | targets/libraries/phi_accrual_fd/include/phi_accrual_fd/window.hpp:27-31 | the window is a suffix of the samples, as long as the window size allows |
| `PhiStatistics.VarianceIsMeanSquaredDeviation` | targets/libraries/phi_accrual_fd/include/phi_accrual_fd/window.hpp:36-38 | the one-pass variance equals the two-pass mean squared deviation and is not negative |
| `PhiStatistics.MeanBalances` | targets/libraries/phi_accrual_fd/include/phi_accrual_fd/window.hpp:34 | mean times count is the sum; the mean is the one number from which the deviations add up to 0 |
| `PhiStatistics.TwoSamples` | targets/libraries/phi_accrual_fd/include/phi_accrual_fd/window.hpp:34-38 | for two samples the mean is half-way and the variance the square of half their distance |
| `PhiStatistics.IntervalsTelescope` | targets/libraries/phi_accrual_fd/include/phi_accrual_fd/failure_detector.hpp:19-22 | the window holds as many intervals as its size allows, and they add up to the time between its ends |
| `PhiStatistics.BranchesAgree` | targets/libraries/phi_accrual_fd/include/phi_accrual_fd/failure_detector.hpp:42-50 | both branches compute the same value |
| `PhiStatistics.PhiFormula` | targets/libraries/phi_accrual_fd/include/phi_accrual_fd/failure_detector.hpp:26-51 | phi spelled out with its constants: a deviation below 1 counts as 1, any other as itself, and the branch is taken at the mean |
| `PhiStatistics.PhiIsPositive` | targets/libraries/phi_accrual_fd/include/phi_accrual_fd/failure_detector.hpp:26-51 | phi is positive |
| `PhiStatistics.PhiIsIncreasing` | targets/libraries/phi_accrual_fd/include/phi_accrual_fd/failure_detector.hpp:26-51 | phi strictly increases with the query time, across the branch point and with the floor on sigma |
| `PhiDetector.Window.Reset` | targets/libraries/phi_accrual_fd/include/phi_accrual_fd/window.hpp:17-21 | empty window, both sums 0 |
| `PhiDetector.Window.Add` | targets/libraries/phi_accrual_fd/include/phi_accrual_fd/window.hpp:23-32 | the window is the suffix of the samples since the reset that its size allows, and both sums are those of its samples |
| `PhiDetector.Window.NormalDistribution` | targets/libraries/phi_accrual_fd/include/phi_accrual_fd/window.hpp:40-46 | mean times count is the sum; the deviation is the root of the mean squared deviation, which is not negative; not a number exactly on an empty window |
| `PhiDetector.FailureDetector.Heartbeat` | targets/libraries/phi_accrual_fd/include/phi_accrual_fd/failure_detector.hpp:19-22 | the window holds as many intervals as its size allows, and the sum is the latest heartbeat minus the start of the window |
| `PhiDetector.FailureDetector.Suspicion` | targets/libraries/phi_accrual_fd/include/phi_accrual_fd/failure_detector.hpp:26-51 | phi of the window's mean and deviation, and positive; not a number exactly on an empty window |
| `SynchronizedValue.StepKeeps` | targets/libraries/synchronized_value/include/synchronized_value/synchronized_value.hpp:104-151 | every step keeps each lock with its one holder and the values serial except inside a swap |
| `SynchronizedValue.RunIsSerial` | targets/libraries/synchronized_value/include/synchronized_value/synchronized_value.hpp:111-151 | every interleaving gives the answers and values of a serial execution in the order in which effects completed |
| `SynchronizedValue.LogIsWhatWasCalled` | targets/libraries/synchronized_value/include/synchronized_value/synchronized_value.hpp:111-151 | that order contains each thread's calls once each and in program order |
| `SynchronizedValue.RealTimeOrder` | targets/libraries/synchronized_value/include/synchronized_value/synchronized_value.hpp:111-151 | an operation that had returned stands in that order before every operation called later, by whatever thread |
| `SynchronizedValue.NoDeadlock` | targets/libraries/synchronized_value/include/synchronized_value/synchronized_value.hpp:111-147 | from every reachable state some further steps without a new call bring every thread out of its operation, aliased operands included |
| `SynchronizedValue.OperationAlone` | targets/libraries/synchronized_value/include/synchronized_value/synchronized_value.hpp:111-151 | an operation that no other call overlaps leaves at its operands what assignment, copy, move, swap or exchange says, keeps every other value and answers the value that was there |
| `SynchronizedValue.OperationCompletes` | targets/libraries/synchronized_value/include/synchronized_value/synchronized_value.hpp:111-151 | every operation on existing objects can be called and runs to its end |
| `SynchronizedValue.StepIsPossible` | targets/libraries/synchronized_value/include/synchronized_value/synchronized_value.hpp:111-151 | in every reachable state an idle thread can call, a waiting one can take any free lock it needs, and every other one can go on |
| `SynchronizedValue.RunOfSwapsPermutes` | targets/libraries/synchronized_value/include/synchronized_value/synchronized_value.hpp:141-147 | any run of swaps only permutes the values |

## Left out

- The persistent-memory libraries themselves: only their contracts are modelled.
- Pool opening, option parsing, timing, JSON output and random data: input and output.
- The Thallium, Argobots and RDMA programs: plumbing over libraries that are not shown.
- `pmem2bench`, the volatile queue, `pretty_bytes` and the single-call book examples: copies or easy members.
- The deliberate bug demonstrations of chapters 12 and 14.
- Barrier, AtomicBench and SynchronizedValue have no class form: a call that blocks on other threads has no meaning as a sequential method, so they are step systems only.
- SynchronizedValue does not model the lock pointers and stream operators, which lock like the modelled operations; what a move leaves in its source is a parameter.
- KeyValueStores.SimpleKvRuntime.constructor opens data without duplicate keys; what a rebuild makes of a duplicate is shown for one input by KeyValueSessions.LostKeyPutAgain.
- KeyValueSteps has no event for a bucket append that throws: the puts after it are the sessions of KeyValueSessions, where each put is one committed step.
- AtomicBench takes the increments of each worker as a parameter, with a product that fits 64 bits; the division by a zero thread count is not modelled.
- Striping.Worker sees the shared failure flag as a parameter: which other worker set it is not modelled.
- Floating-point rounding in the failure detector: all arithmetic is over the reals.
- The write-back of cells in the burst buffer, the stores and the queue: there every persistent store is inside a transaction or an atomic allocation, whose contracts already cover it.
- Raw node layout: a node is a record of next pointer, offset and bytes.
