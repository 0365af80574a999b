# Proofs about the query engine runtime

This project models the parallel query engine that evaluates joins, groupings and scans vector by
vector or tuple by tuple, and the runtime below it, and proves what each part promises its callers.
`dafny verify dfyconfig.toml` checks everything.

**Hash join.** `Hashmap` is the chained hash table with tagged bucket words, generic in the machine
word: its lookup is proved from the laws of such words, and `BucketWords` proves the laws for the real
64-bit words. `ConcurrentInsert` is the concurrent build as a transition system of loads, links and
compare-exchanges of any number of threads, `InsertProgress` that it can always be finished, and
`TagFilter` what exactly the tags reject. `JoinSpec` says what a join is, a nested loop over all tuples,
and which steps conserve it; `HashJoin` is the operator, with its ring buffer, its suspended and resumed
join functions and its in-place compaction, proved step by step against that; `ParallelHashJoin` puts
build and probe together: every pair of the equijoin is returned exactly once. `ContinuedJoin` is the
pair of join functions that stop in the middle of a chain, and says when they return each pair once.

**Grouping.** `GroupFold` defines the result of grouping, for every key the fold of all its values, and
the equivalence of row collections with the same result. `GroupBy` is the tuple-wise operator (thread
local tables, spilling to hash partitions, growing tables), `HashGroup` the vectorised one, whose second
phase `GroupDelivery` treats as a transition system of workers that claim partitions from a shared
counter and return groups block by block; `HashGroup.PhaseTwo` is the resumable call of one worker, each
call a sequence of such moves, and `GroupStreams` composes the calls of all workers to a run of that
system. Below them are `GroupLookup` (find and create groups of a batch), `PartitionByKey` (the counting
scatter) and `HashmapSmall` (the small table that doubles in place). `ChainedTable` and `ChainedEntries`
are the chained tables of one thread, `PartitionedDeque` the spill storage, `Capacity` the directory
sizes.

**Concurrent runtime.** `GlobalPool` is the lock-free bump allocator with its locked refill,
`WorkerAllocator` the aligning allocator of a worker on top, and `WorkerMemory` all workers on one pool,
`PoolProgress` and `WorkerProgress` that every call can be completed (`Ranges` holds the notion of
disjoint memory, `Numbers` minimum and maximum); `Barrier` and `BarrierTree` the hierarchical barrier,
its creation and the assignment of workers to leaves, and `BarrierProgress` that it always lets a round
be completed; `Scan` the morsel-driven scan. Concurrent parts are small-step transition systems over
sequentially consistent atomics with any number of threads: a run is a sequence of states with the
thread that moves at each step, and the theorems speak of every state of every run.

**Smaller cores.** `Murmur` (over `Words`, machine words as naturals with bit operations written out)
shows the hash functions to be bijections, with the inverse given; `MurmurBytes` says how far that goes
for byte strings; `Jsmn` refines the tokenizer's backward scans to a bracket stack, `JsonText` is the
grammar of JSON with the tokens of every value, and `JsmnCodes` what the result codes mean;
`DagScheduler` covers levels and event wait lists; `MmapIndex` the memory-mapped index;
`ParallelAggregate` the group reduction kernel.

Code that works in steps is a method with the original's loops and fields, proved against functions
whose properties are the lemmas. Functions such as `key: nat -> K` stand for read-only columns.

## Where the code does not keep a promise

- **Byte fill.** `HashmapSmall::clearByMemset` fills a directory of ints bytewise with the largest int.
  That leaves -1 in every slot, not the end-of-chain mark the lookup compares with
  (`HashmapSmall.FillOfMaxIsNotTheMark`); a bytewise fill is right exactly for marks with four equal
  bytes (`HashmapSmall.FillIsMark`). The table is modelled with the intended effect, every slot marked
  empty.
- **Kernel order.** The scheduler takes its levels from a topological order but queues kernels by vertex
  number, so an edge is respected exactly when its source has the smaller number
  (`DagScheduler.EdgeRespectedIff`), and all ancestors are waited for when the numbering is topological.
  With one edge from vertex 1 to vertex 0 the source even waits for its target
  (`DagScheduler.TargetFirst`).
- **Tree reduction.** The reduction stays inside its shared array exactly when the number of threads is
  a power of two (`ParallelAggregate.InsideIffPow2`), and only then is the result the sum of the segment
  for all inputs (`ParallelAggregate.SumsRightIffPow2`); three threads show the failure
  (`ParallelAggregate.ThreeThreads`).
- **Murmur on byte strings.** Strings of one length are told apart exactly up to eight bytes
  (`MurmurBytes.NoCollisionIff`); longer ones are when they differ inside one aligned word only
  (`MurmurBytes.WordDecides`).
- **Murmur on 64-bit keys.** The 64-bit Murmur hash is a bijection on them. The 32-bit one tells keys of
  at most n bits apart exactly for n up to 32 (`Murmur.NoWideCollisionIff`); for every seed some key of
  33 bits has the hash of 0 (`Murmur.Colliding`).
- **joinAll and joinSel.** A call that stops behind the last entry of a chain saves a continuation that
  begins the row again. The candidates of a vector are returned once each exactly when no batch fills so
  with more to come (`ContinuedJoin.EachOnceIff`); one entry and two probe rows with its key, in batches
  of one, go on for ever (`ContinuedJoin.RepeatsForever`).
- **Trailing backslash.** A text that ends behind a backslash in a string can be completed, but the
  tokenizer looks at the byte behind the text: it reports a cut-off text if that happens to be one of the
  nine escape characters and an invalid one otherwise (`JsmnCodes.BackslashIsUndecided`). All other texts
  are reported as invalid exactly if they cannot be completed (`JsmnCodes.CodesMean`).

Assumptions that come from the design: entry addresses fit in 48 bits, equal keys have equal hashes,
probe vectors are not empty and not longer than the output vectors, the aggregate's update with its
initial value is a commutative monoid, and vectorised grouping is given a hash without full collisions.

## Model

| member | source | states |
|---|---|---|
| Chains.WalkIsBucket | include/common/runtime/Hashmap.hpp:111-131 | A walk from a directory slot visits every entry of its bucket exactly once, newest first |
| Chains.LastAppend | include/common/runtime/Hashmap.hpp:153-172 | Inserting in front of a bucket makes the new entry its head and leaves all other heads |
| Chains.NextAppend | include/common/runtime/Hashmap.hpp:153-172 | An insertion changes no successor of an earlier entry |
| BucketWords.TaggedIsLawful | include/common/runtime/Hashmap.hpp:85-104 | A tagged word keeps the 48-bit address of its first entry, admits the hash just inserted and every hash it admitted before |
| BucketWords.UntaggedIsLawful | include/common/runtime/Hashmap.hpp:106-131 | The same laws for plain words |
| BucketWords.UpdateKeepsPointer | include/common/runtime/Hashmap.hpp:95-104 | The pointer read back from an updated word is the inserted one, whatever the tags |
| BucketWords.UpdateSetsTag | include/common/runtime/Hashmap.hpp:85-104 | An updated word passes the filter for the inserted hash |
| BucketWords.UpdateKeepsTags | include/common/runtime/Hashmap.hpp:85-104 | No tag is lost by an update |
| BucketWords.TaggedIsExact | include/common/runtime/Hashmap.hpp:85-104 | An updated word lets pass what the word let pass and the hashes with the same top four bits, and nothing else; the empty word nothing |
| Hashmap.FindChainIsComplete | include/common/runtime/Hashmap.hpp:133-142 | A chain lookup either returns the head of the whole bucket or no entry at all has the hash |
| Hashmap.PublishInserts | include/common/runtime/Hashmap.hpp:153-172 | Publishing an entry whose successor is the old head turns a table of the entries into one of the entries and the new one |
| Hashmap.RepresentsFrame | include/common/runtime/Hashmap.hpp:153-172 | Entries outside the table may change without effect on it |
| Hashmap.EmptyRepresents | include/common/runtime/Hashmap.hpp:193-214 | A cleared directory is the empty table |
| Hashmap.ChainIsWalk | include/common/runtime/Hashmap.hpp:133-172 | Following next pointers from an entry is the finite walk of its bucket |
| Hashmap.BucketIsChain | include/common/runtime/Hashmap.hpp:133-172 | Every directory word heads a finite acyclic chain of exactly the entries of its bucket |
| ConcurrentInsert.StepKeepsInv | include/common/runtime/Hashmap.hpp:153-172 | Every atomic step of any thread keeps the table sound: load, link, successful and failed compare-exchange |
| ConcurrentInsert.RunKeepsInv | include/common/runtime/Hashmap.hpp:153-191 | The same over any interleaving of any number of threads |
| ConcurrentInsert.ReachableTableIsSound | include/common/runtime/Hashmap.hpp:133-172 | In every reachable state each bucket is a finite acyclic chain of exactly the published entries, and the tagged lookup rejects no hash that is present |
| ConcurrentInsert.FinishedTableHoldsAll | include/common/runtime/Hashmap.hpp:183-191 | When all threads are done the table holds every entry of every thread exactly once |
| ConcurrentInsert.HashesAreKept | include/common/runtime/Hashmap.hpp:153-172 | Insertion never changes an entry's hash |
| InsertProgress.InsertsAlone | include/common/runtime/Hashmap.hpp:153-172 | Load, link and exchange of a thread that runs alone put its entry in front of its bucket, whatever the bucket holds |
| InsertProgress.InsertionCompletes | include/common/runtime/Hashmap.hpp:153-172 | From every reachable state, wherever all threads stand, steps of one thread alone insert its next entry |
| InsertProgress.BuildCompletes | include/common/runtime/Hashmap.hpp:183-191 | From every reachable state the build can be finished, with every entry in the table once |
| TagFilter.RunKeepsFilter | include/common/runtime/Hashmap.hpp:85-104 | Over any interleaving, the filter of every bucket lets pass exactly what is alike to one of its entries |
| TagFilter.RejectsExactly | include/common/runtime/Hashmap.hpp:133-142 | The tagged lookup rejects a hash exactly if no inserted entry of its bucket shares its top four bits |
| JoinSpec.RestIsNested | src/vectorwise/Operators.cpp:149-165 | Following a bucket's whole chain finds the pairs that comparing every entry by key finds |
| JoinSpec.FollowConserves | src/vectorwise/Operators.cpp:182-203 | Looking at an entry and queueing its successor neither loses nor adds a pair |
| JoinSpec.AfterHeadsConserves | src/vectorwise/Operators.cpp:154-172 | After the pass over the chain heads, hits written and follow-ups queued account for the whole batch |
| JoinSpec.StepsConserve | src/vectorwise/Operators.cpp:174-210 | Any number of follow-up steps keeps hits written plus pairs still to be found |
| JoinSpec.StepWorks | src/vectorwise/Operators.cpp:174-210 | Every follow-up step lowers the total remaining chain length by one |
| JoinSpec.KeyAccount | include/vectorwise/Primitives.hpp:705-720 | Filtering by key leaves exactly the key matches when candidates are hash matches or all chain entries |
| JoinSpec.HeadsAreComplete | src/vectorwise/Operators.cpp:154-172 | The chain heads of a batch lead to all of its equijoin pairs |
| JoinSpec.PresentHeadsAreHeads | src/vectorwise/Operators.cpp:708-719 | Dropping probe rows without a chain loses nothing |
| JoinSpec.EmptyBuildNested | src/vectorwise/Operators.cpp:779-783 | With nothing built the equijoin is empty |
| HashJoin.BuiltHeadIsComplete | src/vectorwise/Operators.cpp:154-172 | In a built table the tagged lookup gives a probe row a head that leads to all its key matches, or there are none |
| HashJoin.BuiltIsComplete | src/vectorwise/Operators.cpp:154-172 | The same for all probe rows |
| HashJoin.Hashjoin.constructor | src/vectorwise/Operators.cpp:807-807 | A new operator owes the whole equijoin |
| HashJoin.Hashjoin.EmitIfHashMatches | src/vectorwise/Operators.cpp:159-163 | Writes entry and probe position exactly when the hashes agree |
| HashJoin.Hashjoin.QueueNext | src/vectorwise/Operators.cpp:199-203 | Appends the successor to the ring without overwriting an unread follow-up |
| HashJoin.Hashjoin.FollowOne | src/vectorwise/Operators.cpp:187-203 | One turn of the follow-up loop is one step of the specification on ring and output vectors |
| HashJoin.Hashjoin.ProbeHeads | src/vectorwise/Operators.cpp:154-170 | The first loop writes and queues what the specification says for all heads |
| HashJoin.Hashjoin.FollowMany | src/vectorwise/Operators.cpp:186-203 | One pass of the follow-up loop is as many steps, each lowering the remaining work by one |
| HashJoin.Hashjoin.RingCount | src/vectorwise/Operators.cpp:174-185 | The counters give the number of queued follow-ups, at most batchSize, and at most batchSize results are written |
| HashJoin.Hashjoin.JoinParallel | src/vectorwise/Operators.cpp:149-210 | joinAllParallel and joinSelParallel: what is written and left in the ring is a number of specification steps; a call stops only in a pass whose queued follow-ups did not fit into the rest of the output vectors, and has written a result; resuming makes progress |
| HashJoin.Hashjoin.EmitAny | src/vectorwise/Operators.cpp:730-731 | joinBoncz takes every chain entry as a candidate |
| HashJoin.Hashjoin.BonczOne | src/vectorwise/Operators.cpp:725-737 | A candidate is written and its successor queued at or before the place it was read from |
| HashJoin.Hashjoin.BonczPass | src/vectorwise/Operators.cpp:722-737 | A pass turns all queued entries into candidates and compacts the next ones to the front |
| HashJoin.Hashjoin.BonczPasses | src/vectorwise/Operators.cpp:721-748 | The passes never overrun the output vectors; a suspension leaves a follow-up and has written a candidate |
| HashJoin.Hashjoin.JoinAny | src/vectorwise/Operators.cpp:708-751 | joinBoncz as a number of specification steps without the hash test; a call stops only when results and queued follow-ups together reach the size of the output vectors |
| HashJoin.Hashjoin.KeysEqual | include/vectorwise/Primitives.hpp:705-720 | Compacts the candidates to those with equal keys, in place and in order |
| HashJoin.Hashjoin.ParallelAccount | src/vectorwise/Operators.cpp:149-210 | Key matches written plus key matches still owed are those the call started with, for the hash-testing joins |
| HashJoin.Hashjoin.BonczAccount | src/vectorwise/Operators.cpp:708-751 | The same for joinBoncz, so after keys_equal it gives the same pairs |
| HashJoin.Hashjoin.JoinAndCompare | src/vectorwise/Operators.cpp:797-799 | Either join function followed by keys_equal keeps pairs returned plus pairs owed |
| HashJoin.Hashjoin.NextVector | src/vectorwise/Operators.cpp:789-791 | Moves to the next probe vector or to the end of the stream |
| HashJoin.Hashjoin.Pull | src/vectorwise/Operators.cpp:788-793 | Fetching a probe vector changes nothing of what is owed |
| HashJoin.Hashjoin.JoinStep | src/vectorwise/Operators.cpp:787-804 | A step of the loop returns part of what is owed and owes the rest |
| HashJoin.Hashjoin.Next | src/vectorwise/Operators.cpp:753-805 | A call returns a batch and owes the rest; it returns 0 only when nothing is owed; it terminates |
| HashJoin.Hashjoin.Drain | src/vectorwise/Operators.cpp:91-109 | Calling next until the end returns everything owed |
| ParallelHashJoin.NestedJoinCount | src/vectorwise/Operators.cpp:753-805 | The nested-loop equijoin over distinct entries holds each joining pair once and no other |
| ParallelHashJoin.BuildIsBuilt | src/vectorwise/Operators.cpp:774-785 | Any finished concurrent build is a table that the probe can use, holding all tuples |
| ParallelHashJoin.JoinIsExact | src/vectorwise/Operators.cpp:753-805 | A pair is in the result once if build tuple and probe row have equal keys, otherwise not at all |
| ParallelHashJoin.ProbeAfterBuild | src/vectorwise/Operators.cpp:753-805 | Concurrent build by any number of workers, then the probe of one, in any batches with any join function: exactly the equijoin, each pair once |
| ContinuedJoin.AllJoin.Follow | src/vectorwise/Operators.cpp:114-126 | Following a chain finds its candidates in order and stops with a full batch if the chain goes on or there is more behind it |
| ContinuedJoin.AllJoin.JoinAll | src/vectorwise/Operators.cpp:111-146 | joinAll and joinSel: for any saved continuation, exactly the candidates left up to a full batch are written, and the continuation saved is that of the specification |
| ContinuedJoin.CallGoesOn | src/vectorwise/Operators.cpp:117-142 | A call that stops inside a chain neither loses nor repeats a candidate |
| ContinuedJoin.CallRepeats | src/vectorwise/Operators.cpp:117-136 | A call that stops behind the end of a chain leaves the row's whole chain to be found again |
| ContinuedJoin.NothingIsLost | src/vectorwise/Operators.cpp:111-146 | Over all calls, candidates returned or left never become fewer |
| ContinuedJoin.EachOnceIff | src/vectorwise/Operators.cpp:111-146 | For any vector, table and batch size, the calls end with every candidate returned once if and only if no batch fills on the last entry of a chain with rows to come or in a chain begun before |
| ContinuedJoin.RepeatsForever | src/vectorwise/Operators.cpp:111-146 | One entry, two probe rows with its key, batches of one: every call returns the first row's candidate, without end |
| ContinuedJoin.CandidatesAreJoin | src/vectorwise/Operators.cpp:406-440 | Comparing keys leaves the nested-loop join of the candidates |
| Capacity.CapacityIsEnough | include/common/runtime/Hashmap.hpp:193-208 | The directory is a power of two that holds the entries within the load factor and is at most four times as large |
| Capacity.CapacityIsLeast | include/common/runtime/Hashmap.hpp:193-208 | No smaller power of two holds the entries within the load factor |
| Capacity.DoublingFits | include/common/runtime/HashmapSmall.hpp:90-95 | Doubling a smaller power of two stays within a larger one |
| ChainedEntries.LinkPush | include/common/runtime/HashmapSmall.hpp:82-91 | Putting an entry in front of its chain keeps every directory slot and link right |
| ChainedEntries.HeadIs | include/common/runtime/HashmapSmall.hpp:71-76 | A directory slot leads to the newest entry of exactly its bucket |
| ChainedEntries.NextIs | include/common/runtime/HashmapSmall.hpp:71-76 | A link leads to the newest earlier entry of the same bucket |
| ChainedTable.Table.SetSize | include/common/runtime/Hashmap.hpp:193-208 | A fresh empty directory whose fill limit is at least the size asked for |
| ChainedTable.Table.Insert | include/common/runtime/Hashmap.hpp:111-131 | Links one more entry and changes no stored data |
| ChainedTable.Table.InsertAll | include/common/runtime/Hashmap.hpp:174-181 | Links the next entries in storage order |
| ChainedTable.Table.Clear | include/common/runtime/Hashmap.hpp:210-214 | No entry can be found any more |
| ChainedTable.Table.Find | include/common/runtime/Hashmap.hpp:321-333 | The newest entry of the bucket that the caller accepts, or none if there is none |
| HashmapSmall.Table.constructor | include/common/runtime/HashmapSmall.hpp:40-51 | An empty map with room for the given number of entries |
| HashmapSmall.Table.Clear | include/common/runtime/HashmapSmall.hpp:60-66 | Empty again, on the slot-by-slot path and on the fill path |
| HashmapSmall.Table.ClearSlots | include/common/runtime/HashmapSmall.hpp:56-63 | Clearing the slots of all inserted hashes empties the whole directory |
| HashmapSmall.Table.FindFirst | include/common/runtime/HashmapSmall.hpp:68-76 | The newest entry of the bucket that the comparison accepts, or none if there is none |
| HashmapSmall.Table.Insert | include/common/runtime/HashmapSmall.hpp:77-109 | Adds the entry last; doubles exactly when the load limit is passed, which keeps all entries findable, and the directory never outgrows its array while at most size entries are live |
| HashmapSmall.Table.Relink | include/common/runtime/HashmapSmall.hpp:99-107 | Reinserting all entries under the new mask restores every chain |
| HashmapSmall.NewestIsMapped | include/common/runtime/HashmapSmall.hpp:68-76 | With hashes given by keys, the entry found is the plain map's value |
| HashmapSmall.Perform | include/common/runtime/HashmapSmall.hpp:56-109 | One lookup, insert or clear answers and changes state as a plain map does |
| HashmapSmall.AgreesWithMap | include/common/runtime/HashmapSmall.hpp:40-109 | Any sequence of lookups, inserts and clears with at most size live entries answers as a plain map does |
| HashmapSmall.FillIsMark | include/common/runtime/HashmapSmall.hpp:57-59 | A bytewise fill writes the mark itself exactly when the mark's four bytes are equal |
| HashmapSmall.FillOfMaxIsNotTheMark | include/common/runtime/HashmapSmall.hpp:16-18 | For the largest int it does not |
| PartitionByKey.GroupsAreFilters | include/vectorwise/Primitives.hpp:817-881 | The groups of a partition are its rows by key, with different keys, and every row's key has a group |
| PartitionByKey.FilterIsStable | include/vectorwise/Primitives.hpp:861-870 | A group lists exactly the rows with its key in their original order |
| PartitionByKey.SameGroupIffSameKey | include/vectorwise/Primitives.hpp:817-881 | Two rows of an input partition share an output partition exactly when their keys are equal |
| PartitionByKey.GroupsArePermutation | include/vectorwise/Primitives.hpp:817-881 | The groups laid end to end are a permutation of the input partition |
| PartitionByKey.FindGroup | include/vectorwise/Primitives.hpp:843-844 | A lookup by hash and key comparison finds the row's group |
| PartitionByKey.CountRows | include/vectorwise/Primitives.hpp:836-851 | The frequency pass leaves one entry per key with the number of its rows |
| PartitionByKey.Offsets | include/vectorwise/Primitives.hpp:853-860 | Frequencies become write offsets and the ends of the groups |
| PartitionByKey.RoomFor | include/vectorwise/Primitives.hpp:861-870 | Every write of the scatter lies in its own group's part of the output |
| PartitionByKey.Scatter | include/vectorwise/Primitives.hpp:861-870 | The scatter writes the groups end to end |
| PartitionByKey.BoundsIncrease | include/vectorwise/Primitives.hpp:853-860 | Output bounds strictly increase and end at the last input bound |
| PartitionByKey.OutputOfPart | include/vectorwise/Primitives.hpp:834-881 | Each input partition becomes consecutive output partitions, a permutation of it at the same place |
| PartitionByKey.Partition | include/vectorwise/Primitives.hpp:817-881 | partition_by_key: output, bounds and count for all input partitions, and the helper table is empty again |
| GroupLookup.GroupLookup.HtLookup | include/vectorwise/Operators.hpp:414-437 | Every row is either matched to the entry of its key and listed as found, or listed as missing |
| GroupLookup.GroupLookup.KeyEquality | include/vectorwise/Primitives.hpp:724-742 | Keeps in place and in order exactly the rows whose entry has their key, and collects exactly the others |
| GroupLookup.AllSplit | include/vectorwise/Primitives.hpp:724-742 | When every match has the row's key all rows are kept and none is collected |
| GroupLookup.GroupLookup.FindGroups | include/vectorwise/Operators.hpp:463-475 | Without full-hash collisions the first candidate is the right one and no chain has to be followed |
| GroupLookup.GroupLookup.GetGroupRepresentatives | include/vectorwise/Operators.hpp:478-484 | The first row of every group |
| GroupLookup.GroupLookup.BuildScatter | include/vectorwise/Operators.hpp:503-505 | One fresh entry per group with hash, key and initial aggregate |
| GroupLookup.GroupLookup.InsertGroups | include/vectorwise/Operators.hpp:507-519 | All entries are linked: by resizing and reinserting every block if resizing is allowed and they exceed the load limit, otherwise by inserting the new block |
| GroupLookup.GroupLookup.WriteBack | include/vectorwise/Operators.hpp:520-530 | Every missing row is pointed to the entry of its group, no other row is touched |
| GroupLookup.GroupLookup.ScatterGroups | include/vectorwise/Operators.hpp:493-505 | The missing rows grouped by key, and one new entry per group behind the old ones, not yet linked |
| GroupLookup.GroupLookup.LinkGroups | include/vectorwise/Operators.hpp:494-519 | The new block is noted and linked; all entries stay as they are |
| GroupLookup.GroupLookup.CreateMissingGroups | include/vectorwise/Operators.hpp:487-531 | Exactly one entry per missing key is added behind the old ones, also across a resize |
| GroupLookup.GroupLookup.LookupBatch | include/vectorwise/Operators.hpp:414-531 | After findGroups and createMissingGroups every row's match is the one entry with its key; old entries are kept; new ones belong to keys that had none |
| GroupLookup.GroupLookup.ClearHashtable | include/vectorwise/Operators.hpp:533-541 | Empty again, of the same capacity |
| GroupLookup.StillDistinct | include/vectorwise/Operators.hpp:487-531 | New groups have keys and hashes that no entry had |
| GroupLookup.RowMatches | include/vectorwise/Operators.hpp:520-530 | Where the entry of a row is after creating the missing groups |
| GroupFold.FoldConcat | include/hyper/GroupBy.hpp:57-67 | Per-key folds of a commutative monoid combine over concatenation |
| GroupFold.SameSwap | include/hyper/GroupBy.hpp:113-124 | Reordering parts changes no key and no fold |
| GroupFold.UpdateSame | include/hyper/GroupBy.hpp:57-67 | Folding a value into the entry of its key is adding a row |
| GroupFold.FoldOfOne | include/hyper/GroupBy.hpp:144-169 | A key with a single entry folds to that entry's aggregate |
| PartitionedDeque.Partition.PushBack | include/common/runtime/PartitionedDeque.hpp:125-144 | Appends behind all earlier entries; all chunks but the last stay full |
| PartitionedDeque.Partition.Size | include/common/runtime/PartitionedDeque.hpp:146-156 | The size computed from the pointers is the number of entries in the chunk |
| PartitionedDeque.PartitionExists | include/common/runtime/PartitionedDeque.hpp:119-123 | Every 64-bit hash selects an existing partition |
| PartitionedDeque.PartitionIsRange | include/common/runtime/PartitionedDeque.hpp:119-123 | The upper bits select: a partition is a range of hashes, all of one size and in order |
| PartitionedDeque.Deque.PostConstruct | include/common/runtime/PartitionedDeque.hpp:98-109 | More partitions than asked for, all empty, with the matching shift |
| PartitionedDeque.Deque.PushBack | include/common/runtime/PartitionedDeque.hpp:119-123 | Appends to the partition of the hash and to no other |
| GroupBy.FindOne | include/common/runtime/Hashmap.hpp:349-361 | The entry of a key, or the certainty that there is none |
| GroupBy.Emplace | include/common/runtime/Hashmap.hpp:372-385 | A new entry for a key that had none keeps one entry per key |
| GroupBy.SpillRows | include/hyper/GroupBy.hpp:43-47 | Spilling sorts rows by partition and loses none |
| GroupBy.Locals.OnGroup | include/hyper/GroupBy.hpp:59-65 | A full table is spilled and emptied, another one left alone; everything the worker holds is kept, and there is room for an entry |
| GroupBy.Locals.Consume | include/hyper/GroupBy.hpp:57-67 | After consume a worker holds one row more, whether the key was there, is new, or caused a spill, which only a new key in a full table does; the table never exceeds the load limit |
| GroupBy.Grow | include/hyper/GroupBy.hpp:126-131 | Growing keeps all entries under a directory with room for twice as many |
| GroupBy.Absorb | include/hyper/GroupBy.hpp:157-164 | Merging a spilled aggregate is adding a row, and keeps the table within its load limit |
| GroupBy.AbsorbPartition | include/hyper/GroupBy.hpp:152-166 | All chunks of a worker's partition are merged |
| GroupBy.OnlyOwnPartition | include/common/runtime/PartitionedDeque.hpp:119-123 | Over all workers, the rows of a key are in its own partition only |
| GroupBy.AggregatePartition | include/hyper/GroupBy.hpp:141-168 | The table of a partition holds each of its keys once with the fold over all workers |
| GroupBy.DeliverNext | include/hyper/GroupBy.hpp:170-171 | The groups of one more partition never repeat a key |
| GroupBy.PreAggregate | include/hyper/GroupBy.hpp:57-67 | A worker's table and spill storage together stand for its tuples |
| GroupBy.PreAggregateAll | include/hyper/GroupBy.hpp:96-111 | The same for all workers |
| GroupBy.SpillAll | include/hyper/GroupBy.hpp:113-124 | Spilling all left-over tables, each by any worker, loses nothing |
| GroupBy.ForallGroups | include/hyper/GroupBy.hpp:134-173 | Each key in the spill partitions is delivered exactly once with the fold of its values |
| GroupBy.GroupAll | include/hyper/GroupBy.hpp:57-173 | Two-phase grouping is exact for any split of the tuples, any collisions, any spilling and any takeover of tables |
| HashGroup.MurmurIsInjective | include/common/runtime/Hash.hpp:166-180 | Murmur on 64-bit keys meets the no-collision assumption of vectorised grouping, for every seed |
| HashGroup.InjectiveNeverClashes | include/vectorwise/Operators.hpp:414-437 | With such a hash, hashes of rows and entries agree exactly when keys do |
| HashGroup.LookedUp | src/vectorwise/Operators.cpp:850-856 | Entries created with the initial aggregate change no fold once the batch is counted |
| HashGroup.UpdateGroups | src/vectorwise/Operators.cpp:854-854 | Updating the matched entries adds the batch's rows |
| HashGroup.AggregateBatch | src/vectorwise/Operators.cpp:850-856 | Look up, create and update of one batch adds exactly its rows |
| HashGroup.FlushAndClear | src/vectorwise/Operators.cpp:836-848 | A flush moves all entries to the spill partitions |
| HashGroup.PreAggregateBatch | src/vectorwise/Operators.cpp:850-857 | A batch is added to what the worker holds; from when maxFill groups have been created on it ends with a flush, before that with none, so the table never goes on with as many |
| HashGroup.PreAggregate | src/vectorwise/Operators.cpp:829-864 | A worker's spill partitions stand for all its batches |
| HashGroup.AggregateChunk | src/vectorwise/Operators.cpp:875-891 | A spilled chunk is aggregated in batches without losing or repeating a row |
| HashGroup.AggregatePartition | src/vectorwise/Operators.cpp:869-893 | The table of a partition stands for its rows of all workers |
| HashGroup.PhaseTwo.Claim | src/vectorwise/Operators.cpp:913-916 | The claim clears the table and takes a number that no earlier claim took; it is a claim of the worker's specification |
| HashGroup.PhaseTwo.Aggregate | src/vectorwise/Operators.cpp:870-894 | The claimed partition's table, one entry per key with its fold over all workers |
| HashGroup.PhaseTwo.SendBlock | src/vectorwise/Operators.cpp:899-908 | The block returned is the next stretch of the table, never empty |
| HashGroup.PhaseTwo.Next | src/vectorwise/Operators.cpp:866-919 | A call, suspended after each block and resumed with the kept partition and block, does a sequence of claims and aggregations and returns one block, or nothing at the end; between its claims other workers may claim |
| GroupDelivery.StepKeepsInv | src/vectorwise/Operators.cpp:866-918 | Every claim, aggregation and returned block of any worker keeps the account: a claimed partition is at one worker or returned completely, and each returned group is one entry of one table |
| GroupDelivery.RunKeepsInv | src/vectorwise/Operators.cpp:866-918 | The same over any interleaving of any number of workers |
| GroupDelivery.NoKeyTwice | src/vectorwise/Operators.cpp:866-918 | At any time no key was returned twice, and every returned aggregate is final |
| GroupDelivery.RunDelivers | src/vectorwise/Operators.cpp:866-918 | When all workers have seen the end, each key in the spill partitions was returned exactly once with the fold of its values |
| HashGroup.PhaseTwo.Drain | src/vectorwise/Operators.cpp:866-919 | All calls of one worker until the end of its stream, other workers claiming in between, are one trace of the worker's specification that returns the same groups, and its claims are fresh numbers of the counter |
| GroupStreams.Interleave | src/vectorwise/Operators.cpp:866-919 | From any point of a run that follows the workers' traces, the rest of them can be followed |
| GroupStreams.LivesAreRun | src/vectorwise/Operators.cpp:866-919 | Traces of any number of workers whose claims took the counter's numbers, each once, are the workers' shares of one finished run that returns the same groups |
| GroupStreams.LivesDeliver | src/vectorwise/Operators.cpp:866-919 | So the blocks that all workers return hold each key exactly once with the fold of its values |
| HashGroup.GroupAll | src/vectorwise/Operators.cpp:827-919 | Vectorised grouping is exact without full-hash collisions, for any split into workers and batches and any flushing: over any interleaving of the workers in the second phase, and for what the workers' calls return together |
| GlobalPool.TestIsSafe | include/common/runtime/MemoryPool.cpp:31-34 | A thread that saw room, even with stale bounds read during a refill, has a start whose compare-exchange can only succeed inside a chunk |
| GlobalPool.StepKeepsInv | include/common/runtime/MemoryPool.cpp:26-70 | Every step of every thread, in the lock or outside, keeps all blocks apart and inside their chunk |
| GlobalPool.RunKeepsInv | include/common/runtime/MemoryPool.cpp:26-70 | The same over any interleaving |
| GlobalPool.BlocksAreDisjoint | include/common/runtime/MemoryPool.cpp:26-70 | In every reachable state all blocks returned are pairwise disjoint and each lies inside one mapped chunk |
| GlobalPool.InitInv | include/common/runtime/MemoryPool.cpp:7-11 | The first chunk is a valid start |
| PoolProgress.AllocatesInPlace | include/common/runtime/MemoryPool.cpp:28-69 | With room in the chunk a call that runs alone returns the start of the free space, without lock or new chunk |
| PoolProgress.FirstAllocation | include/common/runtime/MemoryPool.cpp:7-69 | The first call of all, if it asks for less than a chunk, returns the first byte of the first chunk |
| PoolProgress.AllocatesInNewChunk | include/common/runtime/MemoryPool.cpp:34-69 | Without room a call that runs alone maps one chunk, twice as large as the last or as large as asked, and returns its first byte |
| PoolProgress.CompletesAlone | include/common/runtime/MemoryPool.cpp:26-70 | From every reachable state, if nobody else holds the lock, a call's own steps lead to its return with one more block of its size |
| PoolProgress.Completes | include/common/runtime/MemoryPool.cpp:26-70 | From every reachable state every call can be completed, after that of the thread that holds the lock, if there is one |
| WorkerAllocator.Allocator.Allocate | include/common/runtime/MemoryPool.hpp:55-74 | A call returns a 64-byte aligned block of the size asked for, at most 64 bytes behind start; the pool is asked for a region, at least twice as large as the last, exactly if the rest is too small |
| WorkerAllocator.AllocateKeepsOk | include/common/runtime/MemoryPool.hpp:55-74 | Blocks are inside the worker's regions and disjoint from all earlier ones; free never goes below zero |
| WorkerAllocator.TakeRegionKeepsOk | include/common/runtime/MemoryPool.cpp:72-80 | A new region becomes free space and keeps all blocks apart |
| WorkerAllocator.CutKeepsOk | include/common/runtime/MemoryPool.hpp:69-72 | Cutting a block leaves start and free describing the unused rest |
| WorkerAllocator.Allocator.SetSource | include/common/runtime/MemoryPool.cpp:72-80 | The first region becomes free space |
| WorkerAllocator.AlignUp | include/common/runtime/MemoryPool.hpp:59-60 | The skipped bytes lead to a multiple of 64 and are at most 64 |
| WorkerMemory.NewBlockIsNew | include/common/runtime/MemoryPool.hpp:55-74 | A region that the shared pool has just given to a worker is disjoint from the worker's earlier regions, as allocate needs |
| WorkerMemory.RegionsApart | include/common/runtime/MemoryPool.cpp:26-70 | The regions the pool gave to one worker are disjoint from those it gave to any other |
| WorkerMemory.StepKeepsInv | include/common/runtime/MemoryPool.hpp:55-74 | Every step of the pool and every allocation of any worker keeps the whole memory consistent |
| WorkerMemory.RunKeepsInv | include/common/runtime/MemoryPool.hpp:55-74 | The same over any interleaving of any number of workers |
| WorkerMemory.WorkersNeverShareMemory | include/common/runtime/MemoryPool.hpp:55-74 | In every reachable state of the pool and all allocators on it, any two blocks handed out, by one worker or by two, are disjoint |
| WorkerProgress.RequestCompletes | include/common/runtime/MemoryPool.hpp:55-74 | From every reachable state of all workers on one pool, a worker that waits for the pool can be answered with the region or block it asked for |
| WorkerProgress.AllocationCompletes | include/common/runtime/MemoryPool.hpp:55-74 | From every reachable state a worker can allocate any number of bytes: it gets one more block of that size, with one more region exactly if the rest of its own is too small |
| Barrier.StepKeepsInv | include/common/runtime/Barrier.hpp:21-39 | Every step of every thread keeps the counters, rounds and call stacks of the whole tree consistent |
| Barrier.RunKeepsInv | include/common/runtime/Barrier.hpp:21-39 | The same over any interleaving |
| Barrier.FinalizerRunsBetween | include/common/runtime/Barrier.hpp:111-120 | The finalizer of a round runs once, after all threads entered and before any returned |
| Barrier.OneCallerGetsTrue | include/common/runtime/Barrier.hpp:21-39 | When a round is over exactly one of its callers has got true |
| Barrier.WaiterIsReleasedByItsRound | include/common/runtime/Barrier.hpp:30-37 | A waiter sees a changed 8-bit round exactly when its own round is over, wrap-around included |
| Barrier.FullBelowRoot | include/common/runtime/Barrier.hpp:111-120 | When the last thread arrives at the root all threads have entered |
| BarrierProgress.RunKeepsHeld | include/common/runtime/Barrier.hpp:21-39 | In every reachable state the last arriver of a barrier that is not released yet still holds it on its call stack |
| BarrierProgress.SomeThreadMoves | include/common/runtime/Barrier.hpp:21-39 | While a wait call is not over and all threads have made it, some thread inside it has a step that changes the state |
| BarrierProgress.StepIsEffort | include/common/runtime/Barrier.hpp:21-39 | Every such step brings its thread closer to the end of the call and no other thread further away |
| BarrierProgress.RoundCompletes | include/common/runtime/Barrier.hpp:111-120 | From every reachable state in which all threads have made their wait call, steps inside these calls lead to a state in which all have returned |
| BarrierTree.Create | include/common/runtime/Barrier.hpp:57-91 | The levels of a created tree: eight per barrier, one rest barrier, one root, parents in order |
| BarrierTree.AssignWorkers | include/common/runtime/Concurrency.hpp:80-113 | Workers 0..n are assigned to leaf barriers in eights, the calling worker to the last |
| BarrierTree.MembersAreRange | include/common/runtime/Barrier.hpp:57-91 | The threads that arrive at a barrier are a consecutive range of its thread count |
| BarrierTree.CreatedTreeIsOk | include/common/runtime/Concurrency.hpp:80-113 | Every barrier of the created and assigned tree gets exactly threadCount participants per round |
| BarrierTree.Destroy | include/common/runtime/Barrier.hpp:93-102 | Every barrier of the tree is freed exactly once |
| Scan.Operator.constructor | src/vectorwise/Operators.cpp:44-51 | A new scan has not claimed a chunk |
| Scan.ChunkIsMorsel | src/vectorwise/Operators.cpp:44-51 | A chunk is the fewest vectors with more than 10240 tuples, or one vector if that holds as many |
| Scan.Operator.AddConsumer | src/vectorwise/Operators.cpp:53-55 | Registers a column pointer with its stride, before the scan starts or after; the column of a late one is counted from the scan's current offset |
| Scan.Operator.Next | src/vectorwise/Operators.cpp:57-82 | A call claims and returns what the worker's transition says and keeps every column pointer at base plus lastOffset times type size |
| Scan.NextIs | src/vectorwise/Operators.cpp:57-82 | A call returns the next vector of the worker's chunk, or of the chunk it claims, with its size, or the end of the stream |
| Scan.StepKeepsInv | src/vectorwise/Operators.cpp:57-82 | A call of any worker keeps the returned vectors those before each owner's position |
| Scan.RunKeepsInv | src/vectorwise/Operators.cpp:57-82 | The same over any interleaving of the workers' calls |
| Scan.ScanFinishes | src/vectorwise/Operators.cpp:57-82 | Every run can be continued until all workers have seen the end of the stream |
| Scan.DoneMeansReturned | src/vectorwise/Operators.cpp:57-82 | When all workers have seen the end every vector of the table was returned |
| Scan.NoTupleTwice | src/vectorwise/Operators.cpp:57-82 | No tuple is in two returned batches, a batch being the returned offset and size |
| Scan.ScanIsPartition | src/vectorwise/Operators.cpp:57-82 | For any number of workers and any interleaving every tuple is in exactly one returned range of offset and size, and no range leaves the table |
| Words.XorShiftTwice | include/common/runtime/Hash.hpp:166-180 | A xorshift by at least half the width is its own inverse |
| Words.UnshiftInverse | include/common/runtime/Hash.hpp:261-268 | A xorshift by at least a third of the width has an inverse |
| Words.TimesInverse | include/common/runtime/Hash.hpp:166-180 | Multiplication modulo the word size by a unit can be undone |
| Words.RotateInverse | include/common/runtime/Hash.hpp:250-252 | Rotating by r and by the rest of the width cancel out |
| Murmur.HashKey64 | include/common/runtime/Hash.hpp:166-180 | The hash, from which the key can be computed back |
| Murmur.UnhashHash64 | include/common/runtime/Hash.hpp:166-180 | Every key can be computed back from its hash, for every seed |
| Murmur.HashUnhash64 | include/common/runtime/Hash.hpp:166-180 | Every 64-bit word is the hash of a key, for every seed |
| Murmur.NoCollision64 | include/common/runtime/Hash.hpp:166-180 | Hashes are equal exactly when keys are |
| Murmur.FmixInverse | include/common/runtime/Hash.hpp:261-268 | The finaliser is a bijection of 32-bit words |
| Murmur.HashKey32 | include/common/runtime/Hash.hpp:298-315 | The hash, from which the key can be computed back |
| Murmur.UnhashHash32 | include/common/runtime/Hash.hpp:298-315 | Every key of at most 32 bits can be computed back from its hash |
| Murmur.HashUnhash32 | include/common/runtime/Hash.hpp:298-315 | Every 32-bit word is the hash of a key |
| Murmur.HashKeyWide | include/common/runtime/Hash.hpp:318-347 | The 32-bit hash of a 64-bit key, whose second rotation is of the first half again; the seed is cut to 32 bits |
| Murmur.HalfDecides | include/common/runtime/Hash.hpp:318-347 | With one half of the key fixed, the other half and the hash determine each other |
| Murmur.NoWideCollisionIff | include/common/runtime/Hash.hpp:318-347 | For every seed, no two keys of at most n bits collide if and only if n is at most 32 |
| Murmur.Colliding | include/common/runtime/Hash.hpp:318-347 | For every seed, a key of 33 bits with the hash of 0 |
| MurmurBytes.HashBytes | include/common/runtime/Hash.hpp:182-222 | The loop over the words and the fall-through cases for the last bytes, as absorbing the words of the string |
| MurmurBytes.AddTail | include/common/runtime/Hash.hpp:202-214 | The fall-through cases xor the last bytes in as one short word and scale once |
| MurmurBytes.UnabsorbAbsorb | include/common/runtime/Hash.hpp:188-214 | For a fixed string the state before can be computed back from the state after |
| MurmurBytes.AbsorbUnabsorb | include/common/runtime/Hash.hpp:188-214 | Every state comes from exactly one state before |
| MurmurBytes.OneWordDecides | include/common/runtime/Hash.hpp:194-214 | With the other words fixed, each word leads to one state and each state comes from one word, which is given |
| MurmurBytes.SeedDecides | include/common/runtime/Hash.hpp:182-222 | For a fixed string, hashes agree exactly when seeds do |
| MurmurBytes.LengthDecides | include/common/runtime/Hash.hpp:182-222 | Strings with the same words have the same hash exactly if they have the same length |
| MurmurBytes.ZeroByteCounts | include/common/runtime/Hash.hpp:182-222 | A byte, and the same byte with a zero byte behind it, have the same words and different hashes |
| MurmurBytes.WordDecides | include/common/runtime/Hash.hpp:182-222 | Strings of one length that differ only inside one word, whole or short, have different hashes |
| MurmurBytes.WordForHash | include/common/runtime/Hash.hpp:182-222 | A whole word of a string can be chosen so that the string gets any given hash |
| MurmurBytes.NoCollisionIff | include/common/runtime/Hash.hpp:182-222 | Strings of one length never share their hash exactly when they have at most eight bytes |
| MurmurBytes.WordIsString | include/common/runtime/Hash.hpp:166-222 | The form for words is the form for strings of eight bytes under a changed seed |
| Jsmn.NewParent | 3rdparty/jevents/jsmn.c:188-197 | Only open brackets surround a new token, so the innermost open bracket is its parent |
| Jsmn.AddPairs | 3rdparty/jevents/jsmn.c:188-197 | A new token keeps start order and nesting |
| Jsmn.AddSizes | 3rdparty/jevents/jsmn.c:188-197 | Counting the new token at the innermost open bracket keeps all sizes equal to numbers of direct children |
| Jsmn.CloseKeeps | 3rdparty/jevents/jsmn.c:198-222 | Closing the innermost bracket keeps order, nesting, sizes and marked text |
| Jsmn.StepKeepsGood | 3rdparty/jevents/jsmn.c:181-276 | Every step keeps the token array a tree of the text read so far |
| Jsmn.TokensAreTree | 3rdparty/jevents/jsmn.c:173-286 | On success the tokens are in start order, nested or disjoint, ended, each marking a value of the text, every size the number of direct children; before an error the same of the tokens so far |
| Jsmn.TokensCoverText | 3rdparty/jevents/jsmn.c:173-286 | On success every character is a blank, colon or comma, a bracket of a container token, or in a string with its quotes or a primitive; strings end at their first unescaped quote, primitives at their first delimiter |
| Jsmn.SuccessIgnoresPast | 3rdparty/jevents/jsmn.c:143-147 | What is read behind a text ending in a backslash never decides about success |
| Jsmn.Parser.AllocToken | 3rdparty/jevents/jsmn.c:31-42 | The next unused token, reset, or none |
| Jsmn.Parser.ParsePrimitive | 3rdparty/jevents/jsmn.c:59-111 | A primitive up to its delimiter, or position and tokens as before with the right error |
| Jsmn.Parser.ParseString | 3rdparty/jevents/jsmn.c:116-168 | A string up to its closing quote, or position and tokens as before with the right error |
| Jsmn.Parser.LastOpen | 3rdparty/jevents/jsmn.c:201-221 | The backward scan finds the last open token |
| Jsmn.Parser.Close | 3rdparty/jevents/jsmn.c:198-222 | Two backward scans do what popping the bracket stack does |
| Jsmn.Parser.OpenToken | 3rdparty/jevents/jsmn.c:188-197 | Starting a bracket pushes it on the stack and counts it as a child |
| Jsmn.Parser.Char | 3rdparty/jevents/jsmn.c:181-276 | One turn of the main loop is one step of the specification with its bracket stack |
| Jsmn.Parser.Parse | 3rdparty/jevents/jsmn.c:173-286 | Result code, position, tokens and toksuper are those of the specification with a bracket stack |
| JsonText.ReadValue | 3rdparty/jevents/jsmn.c:173-286 | Wherever the text of a JSON value stands, before a delimiter or the end, it is read to its end, adding its tokens and one child |
| JsonText.JsonSucceeds | 3rdparty/jevents/jsmn.c:173-286 | Every JSON text of RFC 8259 is accepted, with exactly the tokens of its value: kinds, positions, order and sizes |
| JsonText.JsonSucceedsIff | 3rdparty/jevents/jsmn.c:173-286 | For any number of tokens offered a JSON text is accepted if they are as many as its values and names, and otherwise the result is that they ran out |
| JsmnCodes.RoomDecides | 3rdparty/jevents/jsmn.c:173-286 | JSMN_ERROR_NOMEM is returned exactly if fewer tokens are offered than are found without limit; otherwise their number changes nothing |
| JsmnCodes.CodesMean | 3rdparty/jevents/jsmn.c:116-286 | A text is invalid exactly if nothing behind it can complete it, and otherwise complete or cut off; one that ends behind a backslash is cut off or invalid depending on the byte behind it |
| JsmnCodes.BackslashIsUndecided | 3rdparty/jevents/jsmn.c:140-165 | An opening quote and a backslash are cut off before an n, invalid before an x, and completed by n and a quote |
| JsmnCodes.StringEndIff | 3rdparty/jevents/jsmn.c:116-168 | A string ends at the first quote before which every backslash begins one of the nine escapes |
| JsmnCodes.LexicalRules | 3rdparty/jevents/jsmn.c:58-286 | String tokens are well-formed, primitives run up to a delimiter or the end, and on success only whitespace, colons and commas are outside of tokens |
| Jsmn.TopIsLastOpen | 3rdparty/jevents/jsmn.c:201-221 | The last open token is the top of the bracket stack |
| Jsmn.BelowTop | 3rdparty/jevents/jsmn.c:215-221 | Scanning on finds the bracket below it |
| DagScheduler.MaxOverSources | include/dispatcher/graph_api.h:120-124 | The largest of a bound and the levels of a vertex's sources |
| DagScheduler.Levels | include/dispatcher/graph_api.h:113-129 | Level 0 without incoming edge, otherwise exactly one more than the highest level of any source of an edge into this or an earlier vertex |
| DagScheduler.LevelsIncrease | include/dispatcher/graph_api.h:113-129 | Levels strictly increase along every edge, although maxdist is never reset |
| DagScheduler.Queue | include/dispatcher/graph_api.h:133-166 | Every kernel waits for exactly the kernels of the run before its own |
| DagScheduler.NoCyclicWaits | include/dispatcher/graph_api.h:133-166 | Waits lead to smaller vertex numbers only |
| DagScheduler.RunLevels | include/dispatcher/graph_api.h:139-161 | Within a run levels never increase, even when the 16-bit copy of a level wraps around |
| DagScheduler.AfterIsEarlierRun | include/dispatcher/graph_api.h:133-166 | A kernel starts after exactly the kernels of all earlier runs |
| DagScheduler.AfterIffLevelChanges | include/dispatcher/graph_api.h:133-166 | For 15-bit levels, of two kernels the later starts after the earlier exactly if the level changes between them, so kernels of one level may run together |
| DagScheduler.OneLevelOneList | include/dispatcher/graph_api.h:133-166 | Consecutive kernels of one level are queued with the same wait list |
| DagScheduler.TogetherIff | include/dispatcher/graph_api.h:133-166 | For levels of any size, a kernel may run with the one before it exactly if its level fits into 15 bits and both levels have the same lower 16 bits |
| DagScheduler.WaitsAreDirect | include/dispatcher/graph_api.h:133-166 | A wait list names in ascending order exactly the kernels that its kernel starts after with no other in between |
| DagScheduler.EdgeRespectedIff | include/dispatcher/graph_api.h:133-166 | For any graph and order, an edge is respected exactly when its source has the smaller vertex number |
| DagScheduler.TargetFirst | include/dispatcher/graph_api.h:111-166 | One edge from vertex 1 to vertex 0: the levels and wait lists of its only order make the source wait for its target |
| DagScheduler.AncestorsFirst | include/dispatcher/graph_api.h:113-166 | With vertices numbered in topological order every kernel starts after all its ancestors |
| DagScheduler.ExecuteGraph | include/dispatcher/graph_api.h:111-166 | Levels and wait lists of a graph: levels rise along edges, an edge is respected exactly by numbering, and kernels of one level may run together |
| MmapIndex.DirectoryBits | include/common/runtime/Mmap.hpp:69-70 | The smallest directory of at least two slots with 1.5 slots per key |
| MmapIndex.ExtendIsCast | include/common/runtime/Mmap.hpp:97-98 | The word that a key is hashed as is the key converted to 64 bits, with sign extension for signed keys |
| MmapIndex.AtMostTwoKeys | include/common/runtime/Mmap.hpp:97-110 | Every hash has its highest bit set and is that of at most two keys |
| MmapIndex.RecordsInOrder | include/common/runtime/Mmap.hpp:71-93 | Records follow each other without overlap, behind the directory and inside the buffer |
| MmapIndex.WriteOne | include/common/runtime/Mmap.hpp:83-93 | One more record is linked and no earlier record or other slot changes |
| MmapIndex.WriteRecord | include/common/runtime/Mmap.hpp:83-92 | A record's key, count, link and values are written at its offset, and no other byte |
| MmapIndex.WriteBinary | include/common/runtime/Mmap.hpp:64-95 | For keys and values of any size, the buffer holds all entries, chained by slot, and ends with the last record |
| MmapIndex.Get | include/common/runtime/Mmap.hpp:121-130 | A lookup terminates with what the map holds for the key |
| MmapIndex.RoundTrip | include/common/runtime/Mmap.hpp:64-130 | Writing any map and reading any key returns the key's values, or nothing if it has none |
| ParallelAggregate.PartsAreSegment | cu_file.cpp:36-39 | The strided parts of all threads add up to the segment |
| ParallelAggregate.SegmentsCoverTable | cu_file.cpp:27-29 | The segments of sorted group starts add up to the whole table |
| ParallelAggregate.InsideIffPow2 | cu_file.cpp:43-53 | The tree stays inside the shared array exactly when the number of threads is a power of two |
| ParallelAggregate.NoRaces | cu_file.cpp:33-55 | Between two barriers no two threads touch a common cell; with a power of two of threads every cell touched exists |
| ParallelAggregate.StepIsLocal | cu_file.cpp:33-55 | A step neither changes a cell outside its footprint nor depends on one |
| ParallelAggregate.StepsCommute | cu_file.cpp:33-55 | So the steps of two threads between two barriers give the same block in either order |
| ParallelAggregate.NextKeepsInv | cu_file.cpp:33-55 | Every step of every thread and every barrier keeps the partial sums |
| ParallelAggregate.RunKeepsInv | cu_file.cpp:33-55 | The same over any interleaving between the barriers |
| ParallelAggregate.ResultIs | cu_file.cpp:21-62 | For any number of threads and any interleaving, what is written is the sum of the parts of the threads below the largest power of two |
| ParallelAggregate.Finishes | cu_file.cpp:21-62 | Every run can be continued until the result is written |
| ParallelAggregate.SumsRightIffPow2 | cu_file.cpp:21-62 | What is written is the sum of the group's segment, for all inputs and interleavings, exactly when the number of threads is a power of two |
| ParallelAggregate.ThreeThreads | cu_file.cpp:21-62 | Three threads leave the shared array and write 2 for the values 1, 1, 1 |

## Left out

- ContinuedJoin.AllJoin.JoinAll: does not model the fetching of probe vectors around it, which is that of the other join functions; a vector is the rows it is constructed with.
- htFollow: it is not reached without full-hash collisions, which findGroups is stated under.
- The SIMD variants of join, lookup and hashing: lane-wise copies of the scalar code.
- ResetableAllocator: the store of group entries is modelled as memory that never runs out.
- Build phase of the join: scattering keys and values into entries is a given; the barrier between build and probe is a finished run of the insertions, and the exit for an empty build is modelled.
- Weak memory effects: all atomics are sequentially consistent; the relaxed loads of the table are read after the barrier.
- Fairness: compare-exchange loops and spinning waits are not shown to end under every scheduler; for the build, the pool, the barrier and the scan, every call can be completed from every reachable state.
- Deallocation, huge pages, thread pinning, files and clocks.
- Thread pools: in the first phase of a grouping the workers are treated one after the other, since they share nothing before the spill partitions are complete; in the second phase of the tuple-wise grouping which worker takes a partition, and with which table, is shown not to matter.
- HashGroup.PhaseTwo.Next: does not model the result columns; a block is the stretch of entries that the gather primitives read.
- PartitionedDeque.Partition.PushBack: does not model the chunk buffers as raw memory; a chunk is the sequence of entries written to it, and links are positions.
- ChainedTable.Table.Insert: does not model pointers to entries as addresses; an entry is named by its position in allocation order and null is -1.
- PartitionByKey.Partition: does not model the bounds of the key and hash columns, which are total functions, nor an output buffer that aliases the input selection; partitions with several key columns chain calls of it.
- Scan.Operator.Next: does not model the int that holds the step, which is exact below 2^31 vectors.
- MurMurHash3 of byte strings (the 32-bit form): nothing rests on it.
- MurmurBytes.HashBytes: does not model the pointer and the signed length; words are read in little-endian order, as the code does on its target.
- Capacity.CapacityIsEnough: does not model the floating-point load factor; 0.7 is the exact fraction, which gives the same directory sizes as no size divided by 0.7 is a power of two.
- ParallelAggregate.ResultIs: does not model 32-bit overflow of the sums, nor the host code that launches the blocks.
- MmapIndex.WriteBinary: does not model the mapping of the file, nor indexes of 2^64 bytes or more; a key is the number its bytes stand for, extended by its sign for hashing if it is signed, and the sizes and the padding of the record type are parameters.
- Jsmn.Parser.Parse: does not model texts of 2^31 characters or more, whose positions do not fit the token fields.
- Jsmn strict mode and parent links are compiled out in this repository.
- Types of keys, stacks of entries and vectors of tuples, which are abstract types and sequences here.
- Benchmarks, data generators, import, query building, bandit flavours and the OpenCL host wrappers.
