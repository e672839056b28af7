# Goka, modelled and proved in Dafny

Goka keeps a local key-value table in step with a Kafka log, hands partitions to the members of a
group, and acknowledges an input message only when everything its callback started has finished. This
project models the code that decides whether that works and proves what it guarantees, over every input
and every interleaving. `dafny verify dfyconfig.toml` checks the whole project.

**Table recovery.** `TableLog` is the log: what compaction may drop and what a replay builds. `LocalStore`
is the sequence of writes that reached LevelDB, of which a crash keeps a prefix. `Recovery` is one table
partition over its whole life as a step machine: log growth, compaction, loading, the two halves of a
ticker tick, MarkRecovered, Close, callbacks that write the table, producer acks in any order, and crashes
between any two steps. `RecoverySafety` holds the invariant and `RecoveryTheorems` the results.
`LevelDbStorage` and `PartitionTable` are the objects themselves, with their loops; `TableRuns` ties them to
the machine.

The central law turned out not to hold in every interleaving. Once a storage is recovered, the next load
reads its start from LevelDB, and a ticker that read the offset before MarkRecovered and puts it afterwards
leaves an old offset there. A load then replays overwritten records while memory still holds the newer
offset; if that one is persisted and the process dies, a later recovery reports being caught up and is
wrong. `StaleStart` gives such a run step by step, and proves exactly which starts of a load on a recovered
storage are safe: those where no record after the offset read from LevelDB was overwritten, with another
value, at or before an offset that is still to be persisted (`Harmless`). From a harmless start every
recovery that can follow is exact; from any other there is a continuation, through one crash, to a recovery
that is caught up and wrong. The recovery theorems assume just that of loads that start on a recovered
storage; loads of a storage that is still recovering need no assumption. That persisted offsets never run
ahead of the updates they stand for holds unconditionally.

**Acknowledging.** `CallbackContext` (one message: emits, deferred commits, finish), `Promise`,
`PartitionProcessor` (any number of messages in flight, one wait group, shutdown) and `Emitter`
(concurrent callers against Finish, with the read-write lock). Neither shutdown can get stuck.

**Rebalancing.** `Copartition` (rounded bounds, owners of positions, list comparison), `Rebalance` (the
plan) and `Assignment` (the check each member makes of its claims). Map iteration order is a parameter, and
so is what floating point makes of `pos*step + 0.5`: anything less than half of 1/members from the exact
value. At a tie, where idx*P/M is a half, float64 can come out low and move a bound down by one (it does with
15 partitions and 22 members); everything else is proved for every such outcome.

**Ordered iteration.** `StorageIterator` (the LevelDB iterator, whose Next goes over the stored offset and
whose Seek does not), `Heap` and `MergeIterator` (the k-way merge on container/heap), `MemoryStorage` (the
in-memory storage and its snapshot iterator), over `Order`.

**State signals and the test broker.** `Signal`, `ViewState`, `TesterQueue`, `TesterSession` and
`TesterRuns`. What their states are, and what observers and claims are sent, is proved from the calls alone.

Conventions: byte strings are `string` and are ordered by their characters. Integers are unbounded.
Errors are `Result` or `Option`. Concurrent code is a machine whose events are the steps another
goroutine could separate; a run is a list of states and the events between them.

What is taken for granted of the parts outside the repository:
- Compaction keeps each key's last record, tombstones too. `RecoveryNeedsExactlyTheNews` says what is lost otherwise.
- No table key is `__offset`. `OffsetSurvivesTableWrite` says exactly when one does harm.
- While a processor serves its table it is the only writer of that table's log, its emits reach the log
  in order, and nothing foreign is appended between the watermark of its load and the start of serving.
- `BalanceStrategyPlan.Add` of sarama appends the partitions to the member's list for the topic and does
  nothing if there are none.
- Sub-iterators of a merge are distinct, sorted, and seek absolutely, as the LevelDB iterator does.
- float64 computes `pos*step + 0.5` to within half of 1/members, which it does as long as partitions times
  members stay far below 2^50, and computes the same for the same position.

## Model

| member | source | states |
|---|---|---|
| TableLog.CompactionKeepsLast | partition_table.go:251-279 | in a compacted log each key's last record is that of the full history |
| TableLog.ReplayLookup | options.go:76-82 | after DefaultUpdate on any records, a key has the value of its last record, or its old one if it has none |
| TableLog.ReplayOfCompactedLogIsExact | options.go:76-82 | replaying the compacted log from anywhere at or before the stored offset + 1, over any local table right up to that offset, equals replaying the full log from empty |
| TableLog.ReplayFromStartOffsetIsExact | partition_table.go:251-279 | the same from the offset findOffsetToLoad picks, clamped to the oldest one |
| TableLog.RecoveryNeedsExactlyTheNews | options.go:76-82 | for any broker log: every replay is exact if and only if each key changed after the stored offset still ends on its right value |
| RecoverySafety.InvRun | storage/storage.go:154-261 | the invariant (every prefix of the local writes is right up to the offset it persists, and so is every offset still held) holds in every state of every run whose recovered loads start harmlessly |
| RecoverySafety.LogRun | partition_table.go:489-552 | in every run, without exception, the history ascends, the log keeps its last records, and a load stands within it |
| RecoveryTheorems.RecoveryIsExact | partition_table.go:281-388 | after any growth, compaction, crashes, own writes and acks, a load that reached its watermark leaves every settled key at the log's value, except a value found on disk that never reached the log |
| RecoveryTheorems.LogFedRecoveryIsExact | partition_table.go:489-552 | for a table only fed from its log there is no exception |
| RecoveryTheorems.CrashNeverSkips | context.go:355-407 | whatever prefix of the writes a crash leaves, every key whose last log record lies at or before the persisted offset has that record's value, or an own one that never reached the log; own writes and acks in any order included |
| RecoveryTheorems.PersistedOffsetsAreWritten | storage/storage.go:193-261 | in every interleaving, stale ticks included, a persisted offset is that of a log record whose update is already written |
| StaleStart.StartIsSafeExactlyWhenHarmless | partition_table.go:281-388 | a load of a recovered storage starts harmlessly if and only if every recovery that can follow, through any crashes and recovering loads, leaves every settled key at the log's value (own unlogged writes excepted) |
| StaleStart.LogFedStartIsSafeExactlyWhenHarmless | partition_table.go:281-388 | the same for a table only fed from its log, without the exception |
| StaleStart.HarmfulStartMisleads | storage/storage.go:228-249 | from every other start there is a run to a recovery that is caught up and wrong about a settled key |
| StaleStart.LoseUpdate | storage/storage.go:228-249 | the first half: an old value is written again and a later offset persisted over it before a crash |
| StaleStart.RecoverWrongly | partition_table.go:281-388 | the second half: the recovery after such a crash keeps the old value |
| StaleStart.HarmfulStartIsReachable | storage/storage.go:216-226 | one tick read before MarkRecovered and put after it leads to such a start |
| StaleStart.LostUpdate | storage/storage.go:197-206 | the run that loses the update |
| StaleStart.RecoveryCanBeWrong | partition_table.go:489-552 | the refutation: a log-fed table reports being caught up to watermark 4 and holds the value before last |
| Decimal.ParseOfFormat | storage/storage.go:154-195 | the offset read back from its text is the one written |
| LevelDbStorage.ContentsReadBack | storage/storage.go:154-195 | table entries and offset share one database and read back as last written |
| LevelDbStorage.OffsetSurvivesTableWrite | storage/storage.go:186-195 | a table write leaves the offset readable as it was if and only if its key is another or its value spells that offset |
| LevelDbStorage.Storage.constructor | storage/storage.go:228-249 | opening finds what is on disk, memory offset 0, not recovered |
| LevelDbStorage.Storage.Get | storage/storage.go:144-152 | the entry of the key, or nothing |
| LevelDbStorage.Storage.Set | storage/storage.go:186-191 | one data write, and the database holds what all writes together make |
| LevelDbStorage.Storage.Delete | storage/storage.go:208-214 | one deleting write |
| LevelDbStorage.Storage.PutOffset | storage/storage.go:193-195 | one offset write |
| LevelDbStorage.Storage.GetOffset | storage/storage.go:154-184 | memory before recovery unless 0, else the persisted offset or the default; an error only if the text does not parse |
| LevelDbStorage.Storage.SetOffset | storage/storage.go:197-206 | memory always, LevelDB only once recovered |
| LevelDbStorage.Storage.MarkRecovered | storage/storage.go:216-226 | a nonzero memory offset is persisted before the storage counts as recovered |
| LevelDbStorage.Storage.TickPut | storage/storage.go:228-249 | the put of a tick writes what the tick read, however old, unless it is 0 |
| LevelDbStorage.Storage.Close | storage/storage.go:251-261 | a nonzero memory offset is persisted |
| PartitionTable.PartitionTable.FindOffsetToLoad | partition_table.go:251-279 | starts at the oldest offset or one past the stored one, before neither; errors of either query are passed on |
| PartitionTable.PartitionTable.StoreEvent | partition_table.go:645-655 | the update is written before the offset, and the offset only once recovered |
| PartitionTable.PartitionTable.LoadMessages | partition_table.go:489-552 | stores exactly the messages taken until the first event that ends the loop (none if already running while recovering), leaves the offset of the last one in memory, and ends as that event says: at the watermark if and only if the last message lies there |
| PartitionTable.ReachedByLast | partition_table.go:537-539 | a recovering load ends at the watermark with the first message at or past it, and takes none after |
| PartitionTable.WhyItEnds | partition_table.go:505-552 | it waits on if and only if the channel is open, the context is live and no message reached the watermark; otherwise it says which of them it was |
| PartitionTable.EventsAreWritten | partition_table.go:645-655 | storing messages of the log never lets a persisted offset run ahead of the update it stands for |
| PartitionTable.PartitionTable.MarkRecovered | partition_table.go:394-428 | with a live context the storage is marked and the state Running; if the context is done first the state stays Preparing and the storage may or may not be marked yet |
| PartitionTable.PartitionTable.Load | partition_table.go:281-388 | says exactly when it fails and when there is nothing to load; otherwise disk, memory offset and recovered flag are those of the messages taken, marked as they should be; if the table was good up to the stored offset, a recovering load that ends at the watermark or finds nothing to do leaves it good up to the watermark and continues after the last message; failures leave the disk alone, except an error the consumer reports while messages are loaded |
| PartitionTable.PartitionTable.LoadAndMark | partition_table.go:366-388 | the part of it after the consumer is there |
| PartitionTable.PartitionTable.MarkUpToDate | partition_table.go:336-342 | the part of it that finds nothing to load |
| PartitionTable.PartitionTable.StoreNewestOffset | partition_table.go:728-741 | an ack moves the stored offset forward, in memory and once recovered on disk, never back, and never sets a first one |
| PartitionTable.FeedReaches | partition_table.go:645-655 | a table good before the start is good up to the last record fed to it |
| PartitionTable.LoadReaches | partition_table.go:489-552 | and therefore up to the watermark once that is passed |
| TableRuns.StoreEventIsTheMachineStep | partition_table.go:645-655 | storeEvent does to disk and memory what the machine's steps for one record do |
| TableRuns.DeliveriesAreAFeed | partition_table.go:489-552 | what a load is delivered in any run of the machine, with the log growing and compacted meanwhile, is a feed of the log as Load needs it |
| TableRuns.StartIsLoad | partition_table.go:281-342 | a load of the machine starts where Load starts, fails when it does and finds nothing to do when it does |
| TableRuns.MarkingIsMarkRecovered | storage/storage.go:216-226 | the machine's three marking steps together are MarkRecovered |
| TableRuns.ClosingIsClose | storage/storage.go:251-261 | its two closing steps are Close |
| TableRuns.TickIsTickPut | storage/storage.go:228-249 | its two tick steps are a tick, and happen exactly if memory holds an offset other than 0 |
| TableRuns.AckIsStoreNewestOffset | context.go:395-400 | its ack of a SetValue is storeNewestOffset; that of a Delete stores nothing |
| TableRuns.WriteGoesThrough | context.go:373-407 | a write of a callback goes to the table at once, then to the log with the same key and value, and waits for its ack |
| TableRuns.OwnWritesAreConserved | context.go:355-407 | while the process lives, what callbacks wrote is, in order, what reached the log or failed followed by what is still on its way |
| TableRuns.OwnWritesReachTheLogInOrder | context.go:355-407 | each record the broker appends for a processor is the first of its writes still on the way |
| CallbackContext.CbContext.Start | context.go:425-427 | one more on the wait group |
| CallbackContext.CbContext.CountEmit | context.go:228-237 | one more emit counted |
| CallbackContext.CbContext.TryCommit | context.go:432-450 | settles if finished and all emits are done, failing with all collected errors if there are any; each settling takes one off the wait group |
| CallbackContext.CbContext.EmitDone | context.go:409-414 | counts a done, then tries to settle |
| CallbackContext.CbContext.Finish | context.go:417-422 | marks the callback done, then tries to settle |
| CallbackContext.Deferred.Call | context.go:466-478 | only the first call of a deferred commit counts |
| CallbackContext.SettlesOnceAndRightly | context.go:409-450 | in every interleaving without emits after settling: settles at most once, exactly when the callback has returned and every emit and deferred commit has resolved, by commit if and only if nobody reported an error |
| CallbackContext.SettlesByTheEvents | context.go:409-450 | the same from the events alone: settled once the callback returned and every ticket it took resolved, and as a failure with exactly the errors they came back with |
| CallbackContext.PanicNeverSettles | context.go:417-422 | a callback that panicked never commits |
| CallbackContext.LateTicketsSettleTwice | context.go:228-237 | a finished context with nothing open settled exactly once if and only if nothing was emitted after it had settled |
| Promise.Promise.ExecuteCallbacks | promise.go:36-46 | every registered callback is called with the result, once |
| Promise.Promise.ThenWithMessage | promise.go:56-68 | called at once if finished, remembered otherwise |
| Promise.Promise.Finish | promise.go:71-80 | the result is overwritten, callbacks run only the first time |
| Promise.EveryCallbackRunsOnce | promise.go:36-80 | for every order of subscriptions and finishes a callback runs once if the promise is ever finished: with the first result if it was early, the newest before it if it was late |
| Promise.OneFinishOneResult | promise.go:71-80 | under finishes that agree all callbacks see that one result |
| Promise.SecondFinishSplitsSubscribers | promise.go:71-80 | a second, different finish is seen by later subscribers only |
| Emitter.ProducerClosesLast | emitter.go:124-130 | from the moment Finish gets to closing the producer, every accepted emit has resolved and nothing is accepted, handed over or resolving any more |
| Emitter.NobodyAcceptedAfterARejection | emitter.go:60-90 | once a caller was turned away nobody is accepted |
| Emitter.CallersFollowTheirScript | emitter.go:60-90 | what a caller did in any run is a beginning of: lock, found open, unlock, hand over, resolve; or of: lock, found closed; and where it is says how much of it |
| Emitter.FinishFollowsItsScript | emitter.go:124-130 | Finish locks, closes done, unlocks, waits and closes the producer, in this order |
| Emitter.FinishIsNotStuck | emitter.go:124-130 | while Finish waits, some accepted emit can go on |
| PartitionProcessor.WaitGroupCountsUnsettled | partition_processor.go:353-403 | at every moment the wait group equals the number of started contexts that have not settled |
| PartitionProcessor.ShutdownSettlesEverything | partition_processor.go:531-591 | when the shutdown wait ends by the wait group, every started message was committed, or failed with each of its errors among those run returns |
| PartitionProcessor.ShutdownCanFinish | partition_processor.go:361-379 | from every state of every run in which run has quit, resolving what is still open lets it return |
| PartitionProcessor.StateTellsTheEvents | partition_processor.go:381-403 | how many messages were started and ignored, and whether run reads, is in a callback, has ended or panicked, from the events alone |
| PartitionProcessor.UnprocessableEndsReading | partition_processor.go:387-390 | a message that cannot be decoded is reported for good, and is the last one read |
| PartitionProcessor.ContextsAreIndependent | partition_processor.go:531-591 | each context is what its own events make of it, whatever happens to the others |
| PartitionProcessor.ErrorsHaveASource | partition_processor.go:353-356 | run returns no error but that of an undecodable message or one some context came back with |
| Copartition.RoundedBound | copartition_strategy.go:88-92 | from any sum near enough the bound comes out as floor((2*idx*P + M) / (2*M)), or one less exactly if idx*P/M is a tie and the sum lies below it |
| Copartition.TieCanGoDown | copartition_strategy.go:88-92 | which happens in float64: 15 partitions, 22 members, position 11 |
| Copartition.FloorIsCut | copartition_strategy.go:88-92 | so every bound is a cut, whatever the rounding |
| Copartition.CutIsBound | copartition_strategy.go:88-92 | a cut is the exact bound, or at a tie the one below |
| Copartition.CutEnds | copartition_strategy.go:88-92 | for every rounding the first bound is 0 and the last P |
| Copartition.CutsAreRanges | copartition_strategy.go:88-92 | for every rounding the ranges are contiguous, ascending and complete |
| Copartition.RangeSize | copartition_strategy.go:88-92 | for every rounding each range has floor(P/M) partitions, or one more if M does not divide P |
| Copartition.OwnerIsUnique | copartition_strategy.go:88-96 | every position lies in the range of exactly one member |
| Copartition.ListsEqual | copartition_strategy.go:106-135 | true if and only if the lists are equally long and the second has nothing the first lacks |
| Copartition.SameIsSetEquality | copartition_strategy.go:106-135 | for lists without duplicates that is equality as sets, by counting |
| Copartition.AcceptedInEveryOrder | copartition_strategy.go:59-68 | the topics are accepted in every map order if and only if their lists are pairwise the same |
| Rebalance.CollectTopics | copartition_strategy.go:59-68 | accepts if and only if every list after the first that is not empty is the same as it, and settles on that one |
| Rebalance.CollectMembers | copartition_strategy.go:71-78 | rejects if and only if strict and some member requests other topics |
| Rebalance.RangeBounds | copartition_strategy.go:88-92 | rounding down what floating point came to gives cuts, in range |
| Rebalance.AssignRange | copartition_strategy.go:93-95 | adds the range once for each topic the member lists |
| Rebalance.AssignRanges | copartition_strategy.go:85-96 | does so for every member, in sorted order |
| Rebalance.MakePlan | copartition_strategy.go:52-99 | gives the specified plan, and an error exactly when there is none |
| Rebalance.EntryOfPlan | copartition_strategy.go:85-96 | a member's list for a topic is its range, repeated as often as it lists the topic, and nothing else |
| Rebalance.EntryIsRange | copartition_strategy.go:85-96 | listed at most once, it is exactly its range or nothing |
| Rebalance.RangesCoverAll | copartition_strategy.go:88-92 | the ranges one after the other are the sorted partition list |
| Rebalance.AssignedExactlyToOwner | copartition_strategy.go:85-96 | a partition is assigned to a member for a topic if and only if the member owns its position and requests the topic |
| Rebalance.EveryPartitionIsOwned | copartition_strategy.go:52-99 | in any plan made, whatever the rounding, each partition of each topic has one owner, who gets it in exactly the topics it requests, and nobody else does |
| Rebalance.PlannedIfCopartitioned | copartition_strategy.go:59-78 | with non-empty duplicate-free lists there is a plan if and only if all topics have the same set of partitions and, if strict, all members request exactly all topics |
| Rebalance.ListsAscend | copartition_strategy.go:83-96 | in any plan made, the list of a member for a topic it lists once is strictly ascending |
| Rebalance.LowerPartitionsGoFirst | copartition_strategy.go:81-96 | in any plan made, of two assigned partitions the lower one goes to a member that does not come later |
| Rebalance.PlanIgnoresMapOrder | copartition_strategy.go:59-99 | with non-empty duplicate-free partition lists verdict and plan are the same in every map iteration order |
| Assignment.AssignmentFromSession | processor.go:553-586 | accepts if and only if each later claim has as many partitions as the first has different ones and no others; the assignment is the first claim's partitions, all at the newest offset |
| Assignment.PlanPassesSession | processor.go:553-586 | in any plan made, the part of a member with a duplicate-free topic list passes the check in any claim order and yields exactly its range |
| Order.SortSorts | copartition_strategy.go:81-83 | sorting gives an ordered permutation |
| Order.SortedIsUnique | copartition_strategy.go:81-83 | and there is only one, so the algorithm does not matter |
| Order.BeforeIsLexicographic | copartition_strategy.go:81-83 | a string is before another if and only if it is a proper prefix or lower at the first place where they differ |
| Heap.RootIsSmallest | storage/merge_iterator.go:14-16 | the root of a heap has a smallest key |
| Heap.UpStep | storage/merge_iterator.go:68-68 | one swap up leaves only the parent's place out of order |
| Heap.DownStep | storage/merge_iterator.go:105-105 | one swap down leaves only the child's place out of order |
| MergeIterator.Merge.constructor | storage/merge_iterator.go:45-54 | everything ahead of the sub-iterators is pending |
| MergeIterator.Merge.BuildHeap | storage/merge_iterator.go:56-70 | each sub-iterator is moved once and holds what it then stands before, unless one fails |
| MergeIterator.Push | storage/merge_iterator.go:22-24 | adds the cursor and keeps the heap; it may not touch any cursor |
| MergeIterator.Pop | storage/merge_iterator.go:26-31 | removes the root and keeps the heap; it may not touch any cursor |
| MergeIterator.Merge.Next | storage/merge_iterator.go:100-124 | yields a pair with a smallest pending key and takes exactly it off; fails only if a value or sub-iterator does, and does if the one it moves does; moves no cursor but the one that was the root |
| MergeIterator.Merge.Seek | storage/merge_iterator.go:87-95 | pending are exactly the pairs of all inputs with key >= k, with their multiplicity, and the stored offset exactly if a sub-iterator stops right on it; true if and only if some key is >= k |
| MergeIterator.Merge.Drain | storage/merge_iterator.go:42-54 | Next until it says no gives a sorted sequence that is, as a multiset, all that was pending; if no error is left, no sub-iterator failed, and if none can fail there is no error |
| MergeIterator.AheadOfNew | storage/merge_iterator.go:45-54 | for new sub-iterators what is ahead is the union of all inputs without the stored offset |
| StorageIterator.Cursor.Move | storage/iterator.go:15-48 | Next goes to the next entry but over the offset, Seek to the first key not before the given one, be it the offset |
| StorageIterator.Cursor.constructor | storage/iterator.go:15-22 | before the first entry, with everything but the offset ahead |
| MemoryStorage.IndexIsUnique | storage/memory.go:73-87 | a map has one sorted duplicate-free key list |
| MemoryStorage.Memory.Has | storage/memory.go:89-92 | true if and only if the key list names the key, and if and only if the last write to it left a value |
| MemoryStorage.Memory.Get | storage/memory.go:94-97 | the value the last effective write to the key left, or nil |
| MemoryStorage.AfterIsLastWritten | storage/memory.go:94-120 | after any writes the map holds under a key what the last effective write to it left |
| MemoryStorage.Memory.Set | storage/memory.go:99-109 | nil is refused; otherwise the entry is set and the key list stays the map's |
| MemoryStorage.Memory.Delete | storage/memory.go:111-120 | the entry is gone and the key list stays the map's |
| MemoryStorage.Memory.Iterator | storage/memory.go:126-134 | a new iterator with its own copy of keys and entries |
| MemoryStorage.Play | storage/memory.go:99-120 | after any sequence of writes the map is what they leave and the key list is its sorted key set |
| MemoryStorage.MemIter.Next | storage/memory.go:22-28 | one further, two over the offset key |
| MemoryStorage.MemIter.Collect | storage/memory.go:22-48 | reads the entries in key order |
| MemoryStorage.EntriesAreTheMap | storage/memory.go:22-48 | those are all entries of the map but the offset, each once, strictly ascending |
| MemoryStorage.MemIter.Seek | storage/memory.go:55-71 | goes forward to the first key that starts with the given one |
| MemoryStorage.SeekAsDocumented | storage/memory.go:55-71 | from wherever the iterator is, that is the documented first key >= it if and only if that key is not behind the iterator, and starts with the given one or does not exist |
| MemoryStorage.SeekMissesLaterKeys | storage/memory.go:55-71 | a case where it passes over a later key |
| MemoryStorage.SeekDoesNotGoBack | storage/memory.go:55-71 | a case where it should have gone back |
| Signal.WaitersAreExact | signal.go:41-125 | for any calls: a waiter is kept, once, if and only if its state has not come up since it was made; its channel is closed by exactly the call after which the state first matched, once |
| Signal.NoWaiterMatches | signal.go:48-51 | no kept waiter matches the current state, so setting it again may do nothing |
| Signal.ObserversAreExact | signal.go:147-189 | for any calls: an observer is listed, once, if and only if it was made and not removed, and being stopped if and only if its stop began; the others stay |
| Signal.ObserverSeesExactly | signal.go:147-189 | every observer was sent its initial state and then, in order, each change made before its removal, those after its stop began only if they still reached it |
| Signal.ObserverSeesEveryChange | signal.go:147-189 | an observer nobody stops has been sent its initial state and every change since, in order |
| Signal.StoppedSeesNothing | signal.go:171-185 | from its removal on an observer is not listed and is sent nothing more |
| Signal.Signal.constructor | signal.go:28-37 | a new signal |
| Signal.Signal.SetState | signal.go:41-72 | an undeclared state panics and changes nothing; otherwise the signal is what its history of calls makes of it |
| Signal.Signal.NotifyWaiters | signal.go:56-64 | closes those that match, keeps the others in order |
| Signal.Signal.NotifyObservers | signal.go:66-69 | sends the state to every observer not being stopped |
| Signal.Signal.WaitForWaiter | signal.go:113-125 | the same for a wait registration |
| Signal.Signal.ObserveStateChange | signal.go:157-189 | the same for a new observer |
| Signal.Signal.CloseObserver | signal.go:171-172 | the same for the first half of stopping one |
| Signal.Signal.RemoveObserver | signal.go:173-184 | the same for the second half: exactly this observer is gone from the list |
| Signal.Removed | signal.go:177-183 | the removal loop, which goes on over the shifted slice, removes exactly the observer |
| ViewState.Lowest | view.go:168-172 | the loop with its sentinel finds the lowest partition state, in any order |
| ViewState.StateMerger.UpdateViewState | view.go:161-193 | after every report the view is idle if and only if some partition is stopped, initializing or connecting if and only if some partition is and none is lower, catching up if and only if some partition recovers or prepares and none is lower, running if and only if all are; set by one SetState |
| ViewState.LowestTells | view.go:173-189 | the translation of the lowest state says exactly that of the partitions |
| ViewState.TranslationKeepsOrder | view.go:173-189 | translation keeps the order of states |
| TesterQueue.Queue.Push | tester/queue.go:51-63 | appends the message with its position as offset |
| TesterQueue.Queue.MessagesFromOffset | tester/queue.go:71-75 | exactly the messages whose offset is not below |
| TesterQueue.MsgKeyIsInjective | tester/consumergroup.go:301-303 | topic and offset can be told from the name of a message, dashes in topics included |
| TesterSession.InvStep | tester/consumergroup.go:201-334 | every step of producers, consumers and catchupAndWait keeps the session's invariant |
| TesterSession.NeverPanics | tester/consumergroup.go:305-316 | the duplicate-offset panic is unreachable |
| TesterSession.EachMessageOnce | tester/consumergroup.go:270-334 | at any time a claim was sent its queue's messages from the first on, in order, each once |
| TesterSession.CatchupIsComplete | tester/consumergroup.go:270-299 | on return nothing waits, each mark is at the end of what was sent, all that was queued at the call has been sent, and the count is right |
| TesterRuns.CatchupCanReturn | tester/consumergroup.go:270-299 | wherever a call of catchupAndWait is in any run, it returns if consumers mark what they were sent |
| TesterRuns.RunsUntilItReturns | tester/consumergroup.go:270-299 | a call is running if and only if one more began than returned |
| TesterRuns.WaitingTellsTheEvents | tester/consumergroup.go:236-249 | a message waits from its push to its first mark, and only what was sent is ever marked |
| TesterRuns.MarksTellTheEvents | tester/consumergroup.go:201-207 | a queue's mark is one past the highest offset marked, in whatever order |
| TesterRuns.QueuesTellTheEvents | tester/queue.go:51-63 | a queue holds what it held and then what producers added, in order, numbered on |

## Left out

- RecoveryTheorems.RecoveryIsExact: assumes that loads of a recovered storage start harmlessly; StartIsSafeExactlyWhenHarmless shows that this is exactly what is needed.
- RecoveryTheorems.LogFedRecoveryIsExact: the same assumption; LogFedStartIsSafeExactlyWhenHarmless shows that it is exact, RecoveryCanBeWrong is a run without it.
- RecoveryTheorems.CrashNeverSkips: the same assumption; PersistedOffsetsAreWritten needs none.
- PartitionTable.PartitionTable.Load: does not say that it ends; that depends on Kafka delivering a record at or past the watermark. A closed channel or a cancelled context also marks the storage recovered, without being caught up.
- LevelDbStorage.Storage.GetOffset: an offset 0 held in memory counts as not loaded, as in the source, so it is not recalled before recovery.
- PartitionProcessor.ShutdownSettlesEverything: the shutdown timeout of 60 seconds, which gives up waiting, is not modelled.
- CallbackContext.SettlesOnceAndRightly: is about one message; that marking a message commits all before it is Kafka's part.
- Copartition.RoundedBound: says nothing of sums further off than half of 1/members, which float64 reaches only when partitions times members come near 2^50.
- Rebalance.MakePlan: sorts copies; that the original sorts one of its callers' partition lists in place is not captured.
- MergeIterator.Merge.Seek: is for sub-iterators with absolute Seek; the memory iterator's Seek goes forward by prefix, see SeekAsDocumented.
- StorageIterator.Cursor.Move: knows the position of the offset instead of comparing each key with it; what the iterator shows is the same.
- ViewState.StateMerger.UpdateViewState: the view's own return to idle when Run ends is not modelled; for states no partition has, only that at most one state is set.
- TableRuns.OwnWritesAreConserved: is about one process; what is on its way when it dies can still reach the log, as RecoveryIsExact and CrashNeverSkips allow for.
- TesterSession.CatchupIsComplete: sessions whose context is cancelled are not modelled.
- Emitter, PartitionProcessor.run and the test session are step machines on values, not objects: what matters there is the interleaving.
- Observers' channels are modelled as always drained; a consumer that stops reading blocks the signal.
- Failing LevelDB writes, LevelDB's own durability, and the int64 range of offsets.
- IteratorWithRange of both storages, the redis storage, Release of iterators.
- Statistics, logging, the web pages, builders, topic manager, graph and codecs: bookkeeping without a hard property.
- Key hashing, back-off, stall detection and restarting of failed tables.
