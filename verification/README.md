# MainMemory: verified core

MainMemory is a server runtime (threads with event listeners, lock-free queues, a chunk
allocator, data buffers, timers, task lists) with a memcached implementation on top of it.  This
project models the parts of it that are hard to get right and proves what they are for.

`dafny verify dfyconfig.toml` checks the whole project.

## How the models are built

**Concurrent protocols** (`Epoch`, `Ring`, `Combiner`, `MpscQueue`, `Wakeup`, `SinkOwnership`,
`TaskSharing`) are state machines: a `State`, a `Step` for every load, store or atomic operation
on a shared word, `Enabled` and `Apply`.  A run is any sequence of enabled steps from the initial
state, so that every interleaving of any number of threads is covered.  An invariant is proved to
be kept by every step, and the theorems are about all states of all runs.  Theorems about progress
give the steps that lead from any such state to the end of a call; they say what a call comes to
when it is left alone.  Fields that are called history in the comments record what has happened; no
step looks at them.

**Sequential structures** (`TimeQueue`, `ChunkHeap`, `TableActions`, `TaskList`, `Buffer`,
`Cksum`) are classes, or a method, with the fields, loops and branches of the source.  The ghost
fields hold the abstract contents, a function gives a snapshot of the object as a value, and the
lemmas about one update at a time are about such values.

The allocator is in five files: `ChunkRanks` (sizes, ranks, the magic division and the split
table), `UnitMap` (the tiling of a span by chunks, its encoding in the unit map, and the free
lists), `BlockSlots` (the bit sets of blocks and inner blocks and the lists of blocks),
`ChunkPieces` (the chunks as address ranges) and `ChunkHeap` (the operations).  The memcache
table is in four: `LinearHash` (the bucket index), `TablePart` (the invariant of a partition and
its updates), `TableClock` (the eviction clock) and `TableActions` (the actions).  `Common` has
definitions that several modules share.

## Findings

Properties that one might expect and that do not hold, each with the exact condition:

- A ring keeps unread data if and only if it has two nodes or more (`Ring.NeverOverwritesIff`).  The
  source only demands a power of two; with one node the stamps for "full" and "free for the next
  ticket" are the same, and `Ring.SingleNodeOverwrites` gives a run where a word nobody has read is
  replaced by another.
- The combiner releases a request node before it calls the request routine, so that a caller may
  return before its routine has been called.  This never happens if and only if there is only one
  thread, for every ring size and hand-off number (`Combiner.NeverEarlyIff`).  It never happens to a
  call that returns as the executor (`Combiner.ExecutorReturnsLate`), and no request is left behind
  when all calls have returned (`Combiner.AllServed`).
- A null result of the MPSC queue does not mean that the queue is empty: `MpscQueue.NullFromNonempty`
  is a run where it has an item and no append is half done.  If no append is half done when the call
  begins and none takes a step until it returns, then the result is null if and only if the queue is
  empty (`MpscQueue.NullIffEmpty`); in general it was empty, or an append was half done, at some
  moment of the call.
- Embedding a block keeps a buffer valid, with the same unread data, if and only if the block has
  some bytes or the write position is not at a terminal segment (`Buffer.Buffer.Embed`,
  `Buffer.EmbedKeepsIff`).  Otherwise the header of the terminal segment is overwritten and the
  write position is behind the last segment that can be reached; a new buffer is in this state
  (`Buffer.FirstEmbedFails`).
- Creating an entry ends if and only if the pool can grow or has an entry that is neither new nor
  held by a lookup (`TableActions.Partition.Create`).  Otherwise no number of evictions frees an
  entry (`TableActions.NeverFreed`).  Pools of every size get there: `TableActions.HeldPool` has only held
  entries, and `TableActions.Partition.Exhaust` creates entries until there is none left.
- A clock scan that finds too few victims ends if and only if the pool is not empty
  (`TableClock.ScanEndsIff`): in an empty pool the hand passes the end at once and never meets it
  again.  All callers have entries in the pool: creation evicts only from a full pool, and the
  eviction task is posted only when the volume is over its limit (`TableActions.PostedOverPool`).
- The eviction task ends if and only if its reserve is not above the limit
  (`TableActions.Partition.EvictTask`), that is, if and only if the configured volume is 64 KiB or
  more or there are 16 partitions or more (`TableActions.ReserveFitsIff`).
- A stride leaves every hash value in the bucket where it is looked for if and only if the new
  buckets are below the next power of two (`LinearHash.StrideWorksIff`); in general a table stays
  valid if and only if no entry in it has a misplaced hash value, and a misplaced entry is not found
  any more (`TableActions.Partition.Stride`).  Strides are started only when there are more than two
  entries for a bucket.  So some stride misplaces an entry if and only if the maximum number of
  entries is odd, below one increment, and half of it does not fit a stride
  (`LinearHash.BadStrideIff`, `TableActions.ConfiguredStrides`).  This is so for one megabyte in
  eight partitions, with 963 buckets, and not for two megabytes (`TableActions.OneMegabyte`).  A
  build with assertions stops at the start of such a table, as it demands a power of two of buckets
  there (src/memcache/table.c, line 150).
- The end of the buckets of a time queue may be past the last 64-bit time (`TimeQueue.EndOverflows`).
  It is not if the range of the values times the minimum number of buckets leaves room for it
  (`TimeQueue.EndInRange`).

More that the proofs show:

- Blocks use only bits 1 to 15 of their bit sets.  Slots 16 to 31 of every block, half of its
  memory, are never handed out; and with all 32 cells of an inner block the magic division would not
  be exact (`ChunkRanks.SlotExact`, `ChunkRanks.LastCellInexact`).
- An allocation may fail although a larger chunk than required is free, as the search does not try
  all ranks (`ChunkHeap.SearchSkips`).
- The epoch stored on entry to a critical section may be stale by any number of steps, as the load
  and the store are not one atomic step.  The grace period holds nevertheless.

## Model

| member | source | states |
|---|---|---|
| `Epoch.InitInv` | src/base/event/epoch.c:90-104 | The prepared epochs meet the invariant, for any number of listeners. |
| `Epoch.StepInv` | src/base/event/epoch.c:106-166 | Every step of enter, leave, retire and advance by any listener keeps the invariant: a listener that announces an epoch holds the global epoch next to it, so that no scan passes it twice. |
| `Epoch.RunInv` | src/base/event/epoch.c:106-166 | The invariant holds in every state of every run. |
| `Epoch.CountIsPending` | src/base/event/epoch.h:90-97 | In every state of every run the count of a listener is the length of its queue plus both limbo lists, and every retired sink is on exactly one list of one listener or has been reclaimed. |
| `Epoch.ReclaimUnpinned` | src/base/event/epoch.c:112-130 | A sink about to be reclaimed is pinned by no section that was open at its retirement, and has not been reclaimed before. |
| `Epoch.ReclaimedOnce` | src/base/event/epoch.c:71-88 | No two reclaim steps of a run are for the same sink. |
| `Epoch.PinsAtRetirement` | src/base/event/epoch.h:90-97 | The pins of a sink are exactly the sections that were open when it was retired, and retirement comes first. |
| `Epoch.GracePeriod` | src/base/event/epoch.h:61-88 | If a listener announces an epoch at the moment a sink is retired, that section of the listener has ended before the sink is reclaimed, for all interleavings, stale enters and resumed scans. |
| `Epoch.SectionEnds` | src/base/event/epoch.h:77-88 | Only a store to the local epoch ends a section, so the grace period is not met by a mere counter. |
| `Epoch.Advances` | src/base/event/epoch.c:106-166 | An advance that no listener holds up reclaims exactly the sinks put aside in the limbo list of two epochs ago; then it ends the critical section if no sink is left, and else raises the global epoch and puts the queue aside. |
| `Epoch.ReclaimsAll` | src/base/event/epoch.c:106-166 | With the other listeners outside of critical sections, three advances at most reclaim every pending sink of a listener and end its section; the global epoch rises by two steps at most. |
| `Epoch.ReclaimReached` | src/base/event/epoch.h:61-97 | From the initial state of any number of listeners, any of them can retire any sink and have exactly this one reclaimed. |
| `Epoch.LeaveClears` | src/base/event/epoch.h:61-87 | A listener that enters announces the global epoch, and one that leaves with nothing pending announces none. |
| `Ring.InitInv` | src/base/ring.c:29-44 | The initial stamps meet the invariant of a ring with two nodes or more, for any mix of parties. |
| `Ring.StepInv` | src/base/ring.h:112-203 | Every load, check, claim, data word, publish and release step keeps the invariant, in the multi-party and in the single-party forms. |
| `Ring.RunInv` | src/base/ring.h:277-354 | The invariant holds in every state of every run of a ring with two nodes or more. |
| `Ring.FreeNotFull` | src/base/ring.h:112-160 | With two nodes or more no stamp of a node means both free for a producer and full for a consumer. |
| `Ring.DeliversSent` | src/base/ring.h:112-203 | The consumer with ticket k gets exactly the words that the producer with ticket k passed in. |
| `Ring.NoOverwrite` | src/base/ring.h:162-182 | When a producer begins to write over the node of ticket k, the data of ticket k have been read. |
| `Ring.SingleNodeOverwrites` | src/base/ring.c:29-44 | For any two words, a run of a ring with one node in which the second replaces the first in the node, and nobody has read the first. |
| `Ring.NeverOverwritesIff` | src/base/ring.c:29-44 | No run of a ring of n nodes overwrites unread data if and only if n is at least 2. |
| `Ring.ReadOnce` | src/base/ring.h:184-203 | No ticket is released twice, a consumer releases it with as many words as it asked for, and what was sent or got with a ticket never changes. |
| `Ring.NodeExclusive` | src/base/ring.h:112-203 | A producer writes a node while no other thread writes or reads the same node. |
| `Ring.PutWorks` | src/base/ring.h:112-134 | A put without interference, in either form, sends its words with the next ticket if and only if the node at the tail is free; otherwise nothing changes. |
| `Ring.GetWorks` | src/base/ring.h:137-159 | A get without interference, in either form, takes the words of the next ticket if and only if the node at the head is full; otherwise nothing changes. |
| `Ring.EnqueueWorks` | src/base/ring.h:162-181 | An enqueue into a free node without interference comes to its end, with its words sent. |
| `Ring.DequeueWorks` | src/base/ring.h:184-203 | A dequeue of a full node without interference comes to its end, with the words of the ticket. |
| `Ring.RunServed` | src/base/ring.h:112-203 | In every state of every run a claimed ticket is published, or released, or a thread is about to do so. |
| `Ring.RingAtRest` | src/base/ring.h:112-203 | In every state of every run where no call is under way: from none to n tickets are queued, the node at the tail is free if and only if there are fewer than n, and the node at the head is full if and only if there is one. |
| `Combiner.StepInv` | src/base/combiner.c:89-179 | Every step of an execute call keeps the invariant about nodes, tickets and the executor. |
| `Combiner.RunInv` | src/base/combiner.c:72-87 | The invariant holds in every state of every run. |
| `Combiner.MutualExclusion` | src/base/combiner.c:114-175 | At most one thread executes requests in any state of any run. |
| `Combiner.TicketOrder` | src/base/combiner.c:89-179 | The routines called so far are those of tickets 0, 1, 2, ... in this order, each once and with its own argument, across all hand-offs. |
| `Combiner.HandOff` | src/base/combiner.c:126-175 | An executor advances the head by at least one request and at most the hand-off number, past exactly the requests that were executed. |
| `Combiner.AllServed` | src/base/combiner.c:89-179 | In every state of every run where all calls have returned, every request was executed, once and in the order of tickets. |
| `Combiner.ReturnsWhenTaken` | src/base/combiner.c:89-179 | When a call returns its request was taken; its routine was called if and only if it is not the one the executor is about to call. |
| `Combiner.ExecutorReturnsLate` | src/base/combiner.c:126-179 | A call that returns as the executor has had its routine called. |
| `Combiner.ReturnsEarly` | src/base/combiner.c:114-144 | For every ring size, hand-off number and number of threads from two on, a run in which a call returns before its routine is called. |
| `Combiner.NeverEarlyIff` | src/base/combiner.c:114-144 | No run lets a call return before its routine is called if and only if there is at most one thread. |
| `Combiner.RunsBatch` | src/base/combiner.c:124-175 | An executor left alone runs all the requests that are published one after the other, to the hand-off number at most, and then hands the head over to the first one that it did not run. |
| `Combiner.CallReturns` | src/base/combiner.c:89-179 | A call that finds no other call under way, in any state of a run, gets a free node, runs its own request and nothing else, and returns. |
| `MpscQueue.StepInv` | src/base/list.h:372-413 | Exchange and link steps of any number of producers, and the steps of the consumer with its stub, keep the chain of nodes. |
| `MpscQueue.RunInv` | src/base/list.h:358-370 | The invariant holds in every state of every run. |
| `MpscQueue.FirstInFirstOut` | src/base/list.h:372-413 | The items appended, in the order of the tail exchanges, are the items returned followed by those still on the chain: each comes out once and in order. |
| `MpscQueue.NullOnlyIfGap` | src/base/list.h:385-413 | A null result is given only if at some moment of the same call the queue was empty or an append was half done. |
| `MpscQueue.NullFromNonempty` | src/base/list.h:385-413 | A run in which the result is null while the queue has an item and no append is half done. |
| `MpscQueue.NullIffEmpty` | src/base/list.h:385-413 | If no append is half done when a call begins and none takes a step until it returns, the result is null if and only if the queue was empty. |
| `MpscQueue.RemoveReturns` | src/base/list.h:385-413 | A remove that finds no append half done and is left alone comes to its end: it returns the first item and leaves the others in order, or nothing if there is none. |
| `MpscQueue.AppendAppends` | src/base/list.h:372-383 | An append puts its span at the end of the items and leaves no link due. |
| `Wakeup.RunInv` | src/base/event/listener.h:117-205 | The invariant about stamps, tickets and tokens holds in every state of every run, with semaphores as well as with futexes and monitors. |
| `Wakeup.NoLostWakeup` | src/base/event/event.c:559-587 | Whenever the listener sleeps and the tail of its call queue has moved past its stamp, the sender whose ticket is the stamp is still under way and will wake it up. |
| `Wakeup.QuiescentQueueIsEmpty` | src/base/event/listener.h:124-137 | If the listener sleeps and no sender is under way then its queue is empty. |
| `Wakeup.Wakes` | src/base/event/event.c:559-587 | That sender ends the sleep by its own remaining steps, three at most. |
| `Wakeup.WakeReached` | src/base/event/event.c:559-587 | So in every run a listener that sleeps on a queue whose tail has moved is three steps of one sender or less from its wake-up. |
| `Wakeup.FallsAsleep` | src/base/event/listener.h:123-205 | With an empty queue and no signal kept the listener does go to sleep, with its stamp and mode in the status and nothing else changed. |
| `Wakeup.SignalSpent` | src/base/event/listener.h:123-205 | A signal kept from before wakes the listener up once and is gone then. |
| `Wakeup.CallTaken` | src/base/async.c:97-104 | A call sent to a sleeping listener wakes it up, and it takes the call from the queue. |
| `SinkOwnership.StepInv` | src/base/event/listener.c:42-250 | Every step of polling, forwarding, handling, submission, completion and reassignment keeps the invariant of a sink. |
| `SinkOwnership.RunInv` | src/base/event/listener.c:42-250 | The invariant holds in every state of every run. |
| `SinkOwnership.OneTaskPerDirection` | src/base/event/event.c:302-338 | A sink has at most one input and one output task, and every task of it, queued, executed or in flight, belongs to the context that owns the sink. |
| `SinkOwnership.OnlyOwnerActs` | src/base/event/event.c:76-146 | Handlers, task bodies, submissions, completions and hand-overs happen only on the thread that owns the sink. |
| `SinkOwnership.RebindsInactive` | src/base/event/listener.c:66-82 | The poller takes over a sink only when no event is under way and no task of it exists. |
| `SinkOwnership.NoEventLost` | src/base/event/listener.c:146-250 | In every state of every run an event that was received and not delivered is in flight to a context or in the hands of a thread; and if the stamps differ there is one. |
| `SinkOwnership.StartedHasTask` | src/base/event/listener.c:84-142 | In every state of every run a direction is started if and only if there is a task of it; an event that is handled with no fiber to wake up leaves a task of its direction. |
| `SinkOwnership.Delivered` | src/base/event/listener.c:146-188 | An event in flight to the owner is handled and delivered there: it is open no more, the task stamp grows by one, and its direction is started unless a fiber waits for it. |
| `SinkOwnership.SentOn` | src/base/event/listener.c:155-162 | An event in flight to another context is sent on to the owner, and nothing else changes. |
| `SinkOwnership.PollBinds` | src/base/event/listener.c:66-80 | A poll counts one new event, and takes the sink over if and only if it is not fixed, no event is open and no direction is started. |
| `SinkOwnership.HandsOver` | src/base/event/event.c:122-146 | A queued task goes to another context, and the sink with it, if and only if the sink is not fixed and not both directions are started; otherwise nothing changes. |
| `SinkOwnership.Completes` | src/base/event/event.c:76-120 | A task of the owner runs and ends: it is queued again if there is more to do; else it is gone and its direction is not started. |
| `SinkOwnership.PollTurns` | src/base/event/event.c:490-557 | When nobody polls, any idle thread can become the poller, and it gives the role back. |
| `TimeQueue.BucketContains` | src/base/timeq.c:118-128 | The bucket found by division has the range that contains the value. |
| `TimeQueue.BucketInRange` | src/base/timeq.c:118-128 | A value below the end of T1 has a bucket index below the number of buckets. |
| `TimeQueue.BucketOfInRange` | src/base/timeq.c:118-128 | In every valid state the index computed by an insert to T1 is in range, and at or after the current bucket. |
| `TimeQueue.RebuildBound` | src/base/timeq.c:241-254 | Without a width cap a rebuild on n entries asks for at most max(minimum count, 2n - 1) buckets. |
| `TimeQueue.RebuildCovers` | src/base/timeq.c:241-275 | Without a cap on their number the new buckets reach all of T2 but a last part that is shorter than one bucket. |
| `TimeQueue.EndInRange` | src/base/timeq.c:241-275 | The end of the new buckets is a 64-bit time if the range of the values times the minimum number of buckets leaves room for it. |
| `TimeQueue.EndOverflows` | src/base/timeq.c:271-275 | It is not for two entries at 0 and at the end of time. |
| `TimeQueue.Spread` | src/base/timeq.c:241-275 | The new buckets have the width and number of the rule, with both bounds above, and end after the recorded minimum. |
| `TimeQueue.FrontIsLeast` | src/base/timeq.c:185-190 | The first entry of the front end is the earliest inserted among those of least value. |
| `TimeQueue.BucketIsLeast` | src/base/timeq.c:198-209 | With an empty front end the only entry of the first nonempty bucket is the least one. |
| `TimeQueue.BackIsLeast` | src/base/timeq.c:232-237 | With all else empty the only entry of T2 is the least one. |
| `TimeQueue.NothingQueued` | src/base/timeq.c:301-303 | With all tiers empty no entry is queued. |
| `TimeQueue.Left` | src/base/timeq.c:161-177 | Taking an entry out of its list keeps the invariant, although the recorded minimum and maximum of T2 may become stale. |
| `TimeQueue.Skipped` | src/base/timeq.c:192-196 | Passing an empty bucket keeps the geometry of T1 and T2. |
| `TimeQueue.Detached` | src/base/timeq.c:213-217 | Taking the first bucket off leaves its entries, in order of insertion, below the new start of T1. |
| `TimeQueue.Rebuilt` | src/base/timeq.c:271-283 | Starting T1 at the recorded, possibly stale, minimum of T2 keeps the invariant with all of T2 to be filed. |
| `TimeQueue.TimeQueue.constructor` | src/base/timeq.c:43-66 | A prepared queue is valid and empty. |
| `TimeQueue.TimeQueue.SetMinBucketWidth` | src/base/timeq.c:74-78 | The setting is the given value, but not below the built-in minimum. |
| `TimeQueue.TimeQueue.SetMinBucketCount` | src/base/timeq.c:86-90 | The setting is the given value, but not below the built-in minimum. |
| `TimeQueue.TimeQueue.SetMaxBucketWidth` | src/base/timeq.c:80-84 | The setting is the given value; zero means none. |
| `TimeQueue.TimeQueue.SetMaxBucketCount` | src/base/timeq.c:92-96 | The setting is the given value; zero means none. |
| `TimeQueue.TimeQueue.InsertFe` | src/base/timeq.c:98-116 | The entry goes into the front end, which stays sorted by value and then by order of insertion. |
| `TimeQueue.TimeQueue.InsertT1` | src/base/timeq.c:118-128 | The entry goes to the end of the bucket for its value, with the index in range. |
| `TimeQueue.TimeQueue.InsertT2` | src/base/timeq.c:130-145 | The entry goes to the end of T2, and an exact minimum of T2 stays exact. |
| `TimeQueue.TimeQueue.Insert` | src/base/timeq.c:147-159 | Exactly this entry is added to the queued ones, as the latest. |
| `TimeQueue.TimeQueue.Delete` | src/base/timeq.c:161-177 | Exactly this entry is removed; the order of insertion of the others is kept. |
| `TimeQueue.TimeQueue.SkipEmpty` | src/base/timeq.c:192-196 | The search stops at the first nonempty bucket or after the last one. |
| `TimeQueue.TimeQueue.MoveBucket` | src/base/timeq.c:211-230 | All entries of a bucket go to the front end, which is then not empty. |
| `TimeQueue.TimeQueue.Respread` | src/base/timeq.c:241-283 | New empty buckets start at the recorded minimum, with width and number within the settings and both bounds above; the old T2 comes out as a whole, in order. |
| `TimeQueue.TimeQueue.Refile` | src/base/timeq.c:285-299 | Every entry of the old T2 goes to T1 or back to T2; if none reaches T1 then the minimum of T2 is exact. |
| `TimeQueue.TimeQueue.Rebuild` | src/base/timeq.c:239-299 | After a rebuild some bucket is not empty, unless the minimum was stale; then it is exact now. |
| `TimeQueue.TimeQueue.Pass` | src/base/timeq.c:184-304 | A pass finds the least entry or gets strictly closer to one that does. |
| `TimeQueue.TimeQueue.GetMin` | src/base/timeq.c:179-307 | For any history of inserts and deletes: the queued entries do not change, the result is the earliest inserted among those of least value, null if and only if there is none, after at most three restarts. |
| `ChunkRanks.GetRankLeast` | src/base/memory/cache.c:218-230 | The rank of a size is the least one whose chunks hold it, and above 8 bytes the chunk has at most 5(n - 1)/4 bytes. |
| `ChunkRanks.GetRankBounds` | src/base/memory/cache.c:218-230 | The size lies between the sizes of the rank and of the one before it. |
| `ChunkRanks.SizeOfBlock` | src/base/memory/cache.c:102-116 | A chunk 20 ranks up is 32 times as large, for blocks as well as for inner blocks. |
| `ChunkRanks.MagicProduct` | src/base/memory/cache.c:130-134 | The magic number times the size exceeds the factor by less than the size. |
| `ChunkRanks.SlotExact` | src/base/memory/cache.c:130-134 | The magic division gives the exact slot for the first 16 slots, up to 15/32 of the way into a slot. |
| `ChunkRanks.LastCellInexact` | src/base/memory/cache.c:130-134 | For the last of 32 cells of the largest inner block the magic division is exact only in the first two slots. |
| `ChunkRanks.UnitsBytes` | src/base/memory/cache.c:118-121 | A large chunk is a whole number of units. |
| `ChunkRanks.SearchFinds` | src/base/memory/cache.c:285-302 | The search gives the first rank on the way up that has a free chunk, and all ranks passed on the way have none. |
| `ChunkRanks.ReachableIff` | src/base/memory/cache.c:285-302 | Which ranks the search tries, exactly: those a multiple of four above the required one, and from the first such rank that is not split by halving on all of them. |
| `ChunkRanks.RemainderConserves` | src/base/memory/cache.c:327-447 | In every case of the split table the cut chunk and the one or two pieces of the rest have the size of the whole. |
| `UnitMap.TilesDisjoint` | src/base/memory/cache.c:261-284 | Two chunks of a span do not overlap. |
| `UnitMap.SpanIsTiled` | src/base/memory/cache.c:261-474 | Every unit of a span is in exactly one chunk. |
| `UnitMap.FreeListExact` | src/base/memory/cache.c:261-270 | The free list of a rank has exactly the free chunks of the rank, each of them once. |
| `UnitMap.WalkFollowsList` | src/base/memory/cache.c:232-237 | Following the links encoded in the unit map visits the chunks of the list one by one and ends: there are no cycles. |
| `UnitMap.NextDecodes` | src/base/memory/cache.c:232-237 | A link written with a chunk decodes to the same link. |
| `UnitMap.DeducesOwner` | src/base/memory/cache.c:238-259 | Every unit of a block, and the first unit of any chunk, leads to the base of the chunk. |
| `UnitMap.Cut` | src/base/memory/cache.c:312-325 | Cutting a chunk in two keeps the tiling. |
| `UnitMap.Relabelled` | src/base/memory/cache.c:531-561 | Marking a chunk that is on no list keeps the encoding of all others and all lists. |
| `UnitMap.Pushed` | src/base/memory/cache.c:261-270 | Putting a chunk on the list of its rank keeps all lists exact. |
| `UnitMap.Popped` | src/base/memory/cache.c:521-524 | Taking the first chunk off a list keeps all lists exact. |
| `BlockSlots.Lowest` | src/base/memory/cache.c:740-741 | The lowest set bit. |
| `BlockSlots.TakeSlotOk` | src/base/memory/cache.c:735-747 | Taking a slot keeps the invariant: the list of a rank has exactly the blocks with a free slot. |
| `BlockSlots.AddSlotOk` | src/base/memory/cache.c:615-625 | Freeing a slot keeps it. |
| `BlockSlots.TakeCellOk` | src/base/memory/cache.c:759-779 | Taking a cell of an inner block keeps it; an exhausted inner block or block leaves its list. |
| `BlockSlots.AddCellOk` | src/base/memory/cache.c:633-642 | Freeing a cell keeps it as long as others are in use. |
| `BlockSlots.OpenInnerOk` | src/base/memory/cache.c:781-814 | Using a slot as an inner block keeps it. |
| `BlockSlots.CloseInnerOk` | src/base/memory/cache.c:643-651 | Giving back the slot of an inner block all of whose cells are free keeps it. |
| `BlockSlots.UnlinkOk` | src/base/memory/cache.c:652-665 | Taking a block without free cells out of the middle of its list keeps it. |
| `BlockSlots.NewBlockOk` | src/base/memory/cache.c:574-586 | A new block with its first slot taken keeps it. |
| `BlockSlots.EmptyList` | src/base/memory/cache.c:585-585 | A list without a head is empty, which the source asserts. |
| `ChunkPieces.WithinTile` | src/base/memory/cache.c:735-816 | A small or medium chunk lies inside the block that it is a slot of. |
| `ChunkPieces.PiecesApart` | src/base/memory/cache.c:735-816 | Two chunks do not overlap unless one contains the other. |
| `ChunkPieces.LiveApart` | src/base/memory/cache.c:718-818 | A chunk that is handed out, small, medium or large, overlaps no other one, no block header, no inner block header and no free space. |
| `ChunkPieces.PointerFindsBase` | src/base/memory/cache.c:238-259 | For a live pointer the unit map gives the base of its chunk, its rank, and whether it is a block. |
| `ChunkPieces.PointerFindsSlot` | src/base/memory/cache.c:609-632 | For a live pointer the magic division gives its slot, and for a small chunk its cell. |
| `ChunkPieces.TakeSlotGains` | src/base/memory/cache.c:735-747 | Taking a slot hands out exactly this one more chunk. |
| `ChunkPieces.AddSlotLoses` | src/base/memory/cache.c:615-625 | Freeing a slot takes back exactly this chunk. |
| `ChunkPieces.TakeCellGains` | src/base/memory/cache.c:759-779 | Taking a cell hands out exactly this one more chunk. |
| `ChunkPieces.AddCellLoses` | src/base/memory/cache.c:633-642 | Freeing a cell takes back exactly this chunk. |
| `ChunkPieces.OpenInnerSwaps` | src/base/memory/cache.c:781-814 | Opening an inner block replaces the medium chunk by its first cell, and nothing else. |
| `ChunkPieces.CloseInnerSwaps` | src/base/memory/cache.c:643-651 | Closing an inner block replaces its last live cell by the medium chunk, and nothing else. |
| `ChunkPieces.NewBlockGains` | src/base/memory/cache.c:566-589 | A new block hands out its first slot and nothing else. |
| `ChunkHeap.Heap.constructor` | src/base/memory/cache.c:450-474 | A span of zero bytes. |
| `ChunkHeap.Heap.Prepare` | src/base/memory/cache.c:450-474 | The span is tiled by its header and by free chunks of ranks 36, 40, 44, 48, 52, 56 and 71 in this order, all on their lists; nothing is handed out. |
| `ChunkHeap.Heap.FreeChunk` | src/base/memory/cache.c:261-270 | The chunk gets free and goes to the list of its rank; no byte of the unit map outside it changes. |
| `ChunkHeap.Heap.MakeChunk` | src/base/memory/cache.c:271-284 | A free chunk of the given rank is cut off; what is left over is one loose chunk. |
| `ChunkHeap.Heap.FindChunk` | src/base/memory/cache.c:285-302 | The loop computes the search function. |
| `ChunkHeap.Heap.FreeTop` | src/base/memory/cache.c:327-447 | The rest of a chunk in the top rows is freed completely, as the one or two pieces of the table. |
| `ChunkHeap.Heap.FreeRest` | src/base/memory/cache.c:304-447 | The rest of a split chunk is freed completely: pieces of doubling size one after the other, and then those of the table. |
| `ChunkHeap.Heap.SplitChunk` | src/base/memory/cache.c:304-447 | The chunk has the required rank, all the rest of it is on free lists, laid out in pieces of doubling size, and no other chunk changes. |
| `ChunkHeap.Heap.TakeChunk` | src/base/memory/cache.c:521-524 | A free chunk of the rank comes off its list. |
| `ChunkHeap.Heap.UseLarge` | src/base/memory/cache.c:531-534 | The chunk is in use and marked so. |
| `ChunkHeap.Heap.UseBlock` | src/base/memory/cache.c:535-561 | The chunk is a block: every unit after the first leads to its base. |
| `ChunkHeap.Heap.Fill` | src/base/memory/cache.c:544-560 | The unrolled loop with its tail writes the alternating mark to exactly the units of the block. |
| `ChunkHeap.Heap.AllocLarge` | src/base/memory/cache.c:476-564 | A chunk of the required rank is cut from a free one of the first rank that the search finds, with the rest laid out as above, and no other chunk in use changes; it fails if and only if the search finds none, and then nothing changes. |
| `ChunkHeap.Heap.AllocBlock` | src/base/memory/cache.c:566-589 | A new block with its first slot handed out, or a failure without a change. |
| `ChunkHeap.Heap.GetSlot` | src/base/memory/cache.c:733-753 | One more medium chunk is handed out; fails if and only if there is no room. |
| `ChunkHeap.Heap.GetCell` | src/base/memory/cache.c:755-817 | One more small chunk is handed out; fails if and only if there is no room. |
| `ChunkHeap.Heap.GetLarge` | src/base/memory/cache.c:731-731 | One more large chunk is handed out; fails if and only if there is no room. |
| `ChunkHeap.Heap.Alloc` | src/base/memory/cache.c:718-818 | The span stays valid; exactly one new chunk is handed out, of the least size that holds the request and at the address returned; all chunks in use stay as they are; huge and failed requests are told apart exactly, and change nothing. |
| `ChunkHeap.NoRoomMeans` | src/base/memory/cache.c:285-302 | When a request fails there is no free chunk it could be cut from, no free slot or cell of its rank, and for a small one no free slot to make cells of. |
| `ChunkHeap.SearchSkips` | src/base/memory/cache.c:285-302 | With free chunks of rank 56 only, a request of rank 37 finds none. |
| `ChunkHeap.Heap.Identify` | src/base/memory/cache.c:591-632 | From the address alone the code recovers exactly the live chunk: large, medium slot, or small cell. |
| `ChunkHeap.Heap.UnlinkBlock` | src/base/memory/cache.c:653-664 | The search along the links takes exactly this block out of its list. |
| `ChunkHeap.Heap.CloseSlot` | src/base/memory/cache.c:643-665 | The slot of an empty inner block becomes a medium chunk again. |
| `ChunkHeap.Heap.FreeLarge` | src/base/memory/cache.c:601-607 | Exactly this large chunk is taken back. |
| `ChunkHeap.Heap.FreeSlot` | src/base/memory/cache.c:615-625 | Exactly this medium chunk is taken back. |
| `ChunkHeap.Heap.FreeCell` | src/base/memory/cache.c:627-667 | Exactly this small chunk is taken back, with its inner block if that gets empty. |
| `ChunkHeap.Heap.Release` | src/base/memory/cache.c:591-667 | Exactly the chunk at the address is taken back; the span stays valid and other large chunks and blocks stay as they are. |
| `ChunkHeap.Heap.ChunkSize` | src/base/memory/cache.c:962-998 | The size of the live chunk at an address. |
| `LinearHash.IndexFolds` | src/memcache/table.h:172-186 | For any bucket count between a power of two and the next one the index is the low bits of the hash, folded back if there is no such bucket yet. |
| `LinearHash.IndexInRange` | src/memcache/table.h:172-186 | The index is below the number of buckets. |
| `LinearHash.LowBitsIs` | src/memcache/table.h:172-186 | Masking with a power of two less one gives the remainder. |
| `LinearHash.LowerPow2` | src/base/bitops.h:121-126 | The power of two that is at most the number and more than half of it. |
| `LinearHash.WhereStep` | src/memcache/action.c:626-648 | For every number of buckets: a step of a stride moves an entry of its source bucket only to the target bucket, which was empty, and no other entry. |
| `LinearHash.StrideIndex` | src/memcache/action.c:608-656 | A stride that fits changes the index only for the 64 buckets that are split, by one more bit of the hash. |
| `LinearHash.StrideWorksIff` | src/memcache/action.c:608-656 | A stride leaves every hash value in the bucket of its index if and only if the new buckets are below the next power of two. |
| `LinearHash.MisplacedHash` | src/memcache/action.c:608-656 | Otherwise the hash value of the next power of two stays in bucket 0 and is looked for in a new bucket. |
| `LinearHash.StrideFits` | src/memcache/action.c:608-656 | From a multiple of 64 buckets every stride fits. |
| `LinearHash.BadStrideIff` | src/memcache/table.c:64-72 | Some stride that the check lets start misplaces a hash value if and only if the maximum number of entries is odd, below the increment, and its half does not fit. |
| `TablePart.EntryAccounted` | src/memcache/action.c:66-160 | Every entry of the pool is exactly one of free, linked, new or held out of the table, and its reference count is one for the table or the owner plus one for each holder. |
| `TablePart.StampsApart` | src/memcache/table.c:385-385 | A stamp belongs to one partition only. |
| `TablePart.SizeCounts` | src/memcache/entry.h:74-78 | Every byte of the key and of the value counts once, on top of the 48 bytes of the entry. |
| `TablePart.HashKept` | src/memcache/table.h:172-186 | Within a partition, dividing the hash by the number of partitions takes no two hash values for the same. |
| `TablePart.UnlinkedOk` | src/memcache/action.c:98-120 | Taking an entry out of its bucket keeps the invariant: one linked entry per key, in the right bucket, volume the sum of the linked sizes, stamps unique. |
| `TablePart.InsertedOk` | src/memcache/action.c:214-229 | Linking a new entry with the next stamp keeps it. |
| `TablePart.DroppedOk` | src/memcache/action.c:149-160 | Dropping the reference of an entry taken out keeps it; the last one frees the entry. |
| `TablePart.UnheldOk` | src/memcache/action.c:382-397 | Dropping the reference of a holder keeps it. |
| `TablePart.ReusedOk` | src/memcache/action.c:416-470 | Reusing a free entry keeps it. |
| `TablePart.ExtendedOk` | src/memcache/action.c:416-470 | Using a void entry keeps it. |
| `TablePart.CancelledOk` | src/memcache/action.c:491-505 | Abandoning a new entry keeps it. |
| `TablePart.StrideStep` | src/memcache/action.c:626-648 | After every step of a stride each bucket has exactly the entries that belong there by then; the index of a moved entry is its target, which the source asserts. |
| `TablePart.StridedOk` | src/memcache/action.c:608-656 | After a stride from any number of buckets an entry can be found if and only if it is not misplaced, and the buckets are right if and only if none is. |
| `TableClock.PassesStep` | src/memcache/action.c:173-200 | A step of the hand visits exactly one entry of the pool. |
| `TableClock.CooledOnce` | src/memcache/action.c:185-197 | A visit evicts an entry of the least counter or an expired one, and else decrements the counter. |
| `TableClock.HandAfterIs` | src/memcache/action.c:173-200 | Where the hand is after k steps, for any pool and any start; the scan ends after exactly the rest of the pool and one more round. |
| `TableClock.ScanEndsIff` | src/memcache/action.c:173-200 | A scan with too few victims ends if and only if the pool is not empty; in an empty pool the hand runs away. |
| `TableActions.Partition.constructor` | src/memcache/table.c:340-392 | An empty partition with its first stamp. |
| `TableActions.Partition.Scan` | src/memcache/action.c:231-258 | The entry found is the one for the key, and alive; the entries taken out on the way are expired ones, and no expired entry is left in the bucket up to the one found, or in all of it if none is found; then the key is not in the table. |
| `TableActions.AfterScan` | src/memcache/action.c:42-54 | A scan loses only expired items, and tells if the key is alive. |
| `TableActions.ExpiryIs` | src/memcache/action.c:42-54 | An entry that is not flushed expires at its expiration time and not before, or never if that is zero, and stays expired; a flushed one is expired at any time. |
| `TableActions.Partition.FreeEntries` | src/memcache/action.c:149-160 | All entries taken out lose their reference from the table and nothing else changes. |
| `TableActions.Partition.Lookup` | src/memcache/action.c:361-380 | Finds an entry if and only if the key has one that is neither expired nor flushed; it is held once more and its counter grows; only expired items are lost, and that of the key is if it has expired. |
| `TableActions.Partition.Finish` | src/memcache/action.c:382-397 | One hold less; items and all contents stay. |
| `TableActions.Partition.Delete` | src/memcache/action.c:399-414 | The key has no item; it had a live one if and only if the result tells so; other live items stay. |
| `TableActions.Partition.BucketInsert` | src/memcache/action.c:214-229 | The entry is linked in the bucket for its key with the next stamp. |
| `TableActions.Partition.Cancel` | src/memcache/action.c:491-505 | A new entry goes back to the pool; the items stay. |
| `TableActions.Partition.Insert` | src/memcache/action.c:507-529 | Puts the item if and only if the key is not alive, with the next stamp and the least counter; else only expired items are lost and the entry goes back to the pool. |
| `TableActions.Partition.Upsert` | src/memcache/action.c:555-573 | Puts the item in any case, with the next stamp; other live items stay. |
| `TableActions.PutIsAlive` | src/memcache/action.c:507-573 | An item that was put is alive, whatever was flushed before, exactly until it expires. |
| `TableActions.Partition.Update` | src/memcache/action.c:531-553 | Replaces if and only if the key is alive and its stamp is the given one, or none was given; the access counter is inherited. |
| `TableActions.Partition.Replace` | src/memcache/action.c:584-601 | As update, with given flags and expiration time; if another entry is there then it is held, and the new entry stays with its owner. |
| `TableActions.AlterFacts` | src/memcache/action.c:289-323 | A held entry and the one in the table have the same stamp if and only if they are the same entry. |
| `TableActions.Partition.Alter` | src/memcache/action.c:575-606 | With the stamp of the entry that a lookup has found: replaces if and only if that very entry is still in the table and alive, and the new item inherits its flags and expiration time. |
| `TableActions.Partition.Visit` | src/memcache/action.c:185-200 | One visit of the clock. |
| `TableActions.Partition.FindVictims` | src/memcache/action.c:162-202 | At most 2n visits in a pool of n; every entry is as its number of visits tells; the victims are exactly the entries that left the table; the hand ends right after the last entry visited; fewer than required only after every entry was visited, at the end of the way of the hand. |
| `TableActions.Partition.EvictSome` | src/memcache/action.c:445-453 | Exactly the entries that do not survive their visits are gone: an entry with counter k goes on its k-th visit, an expired one on the first; with something in the table the sum of the counters gets smaller; the hand is right after the last entry visited. |
| `TableActions.Partition.Evict` | src/memcache/action.c:658-677 | The same for 32 entries, with the place of the hand; fewer only after every entry was visited. |
| `TableActions.AccessSurvives` | src/memcache/action.c:90-96 | An access lets an entry survive exactly one more visit of the clock, up to the maximum counter, which stays. |
| `TableActions.Partition.EvictTask` | src/memcache/table.c:255-274 | Ends if and only if the reserve is not above the limit, and then with the reserve free; only evicts, and nothing if there is room already; it stops in time: before the last round, of 32 entries at most, there was no room yet. |
| `TableActions.PostedOverPool` | src/memcache/table.c:304-318 | When the eviction task is posted the pool is not empty. |
| `TableActions.AlwaysDue` | src/memcache/table.c:74-79 | With a reserve above the limit there is more to evict in every state, an empty table too. |
| `TableActions.ReserveFitsIff` | src/memcache/table.c:413-418 | The reserve fits below the limit if and only if the configured volume is at least 64 KiB or there are at least 16 partitions. |
| `TableActions.ConfiguredStrides` | src/memcache/table.c:413-456 | For every configured volume and number of partitions: at least 60 entries, and the exact condition for a stride that misplaces an entry. |
| `TableActions.OneMegabyte` | src/memcache/table.c:413-456 | One megabyte in eight partitions meets it, with a stride past the maximum number of buckets; two megabytes do not. |
| `TableActions.Partition.Expand` | src/memcache/table.c:181-205 | One increment more of entries, or as many as there are up to the maximum; fails if and only if that is reached already. |
| `TableActions.Partition.Create` | src/memcache/action.c:416-471 | A new entry that nobody else has, if and only if the pool can grow or has an entry that is neither new nor held; evicts nothing if an entry is free, void or can be added; of the entries that nobody holds only the one handed out is lost. |
| `TableActions.NeverFreed` | src/memcache/action.c:424-454 | Without a usable entry no state that evictions lead to has a free entry. |
| `TableActions.HeldPool` | src/memcache/action.c:424-454 | For every size, a valid pool all of whose entries are held once, with nothing to evict. |
| `TableActions.Partition.Exhaust` | src/memcache/action.c:416-471 | From every state, creating entries and keeping them leads to a full pool without a usable entry. |
| `TableActions.Partition.Flush` | src/memcache/action.c:679-691 | No key is alive any more, at any time; items put later are not affected. |
| `TableActions.Partition.SplitBucket` | src/memcache/action.c:625-648 | The two parts have exactly the entries of the bucket, those that stay and those that go. |
| `TableActions.Partition.Stride` | src/memcache/action.c:608-656 | 64 more buckets from any number of them; items, stamps and counters stay; the table is valid, with every entry in the bucket for the new number of buckets, if and only if no entry is misplaced, and so if the stride fits. |
| `Cksum.BitsLinear` | src/base/cksum.c:592-1112 | The bit-wise remainder is linear over exclusive or. |
| `Cksum.TableSteps` | src/base/cksum.c:592-1112 | Table k, defined by the recurrence of the slicing tables, has the remainder of a byte followed by k zero bytes. |
| `Cksum.TableTop` | src/base/cksum.c:625-625 | Entry 128 of the first table is 0x82F63B78, the reflected polynomial of CRC32C, section 12.1 of RFC 3720. |
| `Cksum.TablesAgree` | src/base/cksum.c:592-1112 | In all eight tables the entries for single bits are the 64 numbers that the source has there. |
| `Cksum.TableLinear` | src/base/cksum.c:592-1112 | All other entries follow from these: every table is linear over exclusive or. |
| `Cksum.StepByTable` | src/base/cksum.c:1129-1138 | A byte by table is eight steps of the bit-wise division. |
| `Cksum.Peel` | src/base/cksum.c:1140-1166 | The low byte can be looked up in table k and the rest be divided in k byte steps. |
| `Cksum.LookupsStep` | src/base/cksum.c:1157-1164 | Four lookups are k + 1 byte steps on a word. |
| `Cksum.FourBytes` | src/base/cksum.c:1141-1145 | Four bytes one by one are four byte steps on the word loaded from them. |
| `Cksum.EightBytes` | src/base/cksum.c:1140-1166 | The eight lookups of the loop body have the effect of eight bytes one by one. |
| `Cksum.RemainderAppend` | src/base/cksum.c:1120-1183 | The remainder can be computed piece by piece. |
| `Cksum.EmptyIs` | src/base/cksum.c:1120-1183 | The checksum of no bytes is zero. |
| `Cksum.CheckValue` | src/base/cksum.c:1120-1183 | The checksum of the digits 1 to 9 is 0xE3069283, the check value of CRC32C. |
| `Cksum.Checksum` | src/base/cksum.c:1120-1183 | For every input and every alignment the result is the bit-wise CRC32C. |
| `TaskList.TaskRing.Put` | src/base/task.h:140-154 | A task goes to the end of a ring that is not full, although the counters wrap around. |
| `TaskList.TaskRing.Take` | src/base/task.h:167-170 | The first task comes out. |
| `TaskList.TaskRing.SizeExact` | src/base/task.h:145-145 | The difference of the wrapping counters is the number of tasks. |
| `TaskList.TaskList.constructor` | src/base/task.c:118-130 | An empty list. |
| `TaskList.TaskList.Size` | src/base/task.h:116-122 | The difference of the two statistics counters is the number of tasks in all rings. |
| `TaskList.TaskList.AddRing` | src/base/task.c:142-151 | One more empty ring at the end. |
| `TaskList.TaskList.Add` | src/base/task.h:140-154 | The list is first-in first-out across its rings: the task is the last one now. |
| `TaskList.TaskList.Get` | src/base/task.h:156-174 | The first task of all rings comes out; none if and only if there is none. |
| `TaskList.TaskList.Reassign` | src/base/task.c:162-195 | At most three tasks come out of the front, all of which agree to move, and it stops only at three, at the end, or at a task that does not agree. |
| `TaskSharing.StepConserves` | src/base/task.c:32-100 | Every step keeps the number of copies of every task in lists, in flight and executed. |
| `TaskSharing.TasksConserved` | src/base/context.c:199-268 | In every run no task is lost or duplicated, however it moves between contexts. |
| `TaskSharing.StepAnswered` | src/base/context.c:199-247 | Every step keeps that a context which waits for tasks has its latest request, or the reply to that very request, in flight; distributed tasks are no reply. |
| `TaskSharing.RequestsAnswered` | src/base/context.c:199-247 | This holds in every state of every run: no context waits in vain. |
| `TaskSharing.RequestServed` | src/base/context.c:199-247 | A request is served in two handled calls: if the list is long enough, the tasks that agree go from the front of it to the end of the list that asked, and else none do; nothing else changes, and the context may ask again. |
| `TaskSharing.DistributionServed` | src/base/context.c:249-268 | Tasks that are distributed go from the front of one list to the end of the other, and nothing else changes. |
| `Buffer.RoundUp` | src/base/memory/buffer.c:35-39 | The next multiple of the header size. |
| `Buffer.QueueTail` | src/base/memory/buffer.h:414-435 | Empty segments passed by the writer are invisible to readers. |
| `Buffer.QueueWrite` | src/base/memory/buffer.c:400-446 | Bytes copied to the tail segment are appended to the queue. |
| `Buffer.QueueNext` | src/base/memory/buffer.h:335-355 | Leaving an exhausted segment does not change the queue. |
| `Buffer.InsertedOk` | src/base/memory/buffer.c:75-126 | Splitting the tail segment around an embedded one keeps all segments valid and all data in place. |
| `Buffer.InsertionKeeps` | src/base/memory/buffer.c:75-126 | An insertion keeps the segments, the tail and the queue if and only if it is not put over a terminal segment; and then the tail is behind the last segment. |
| `Buffer.EmbedKeepsIff` | src/base/memory/buffer.c:75-126 | The same for the area of a block: the buffer is kept if and only if the block has some bytes or the tail is not a terminal segment. |
| `Buffer.FirstEmbedFails` | src/base/memory/buffer.c:516-533 | A new buffer is lost by a first block of no bytes. |
| `Buffer.OnePiece` | src/base/memory/buffer.c:538-615 | With room for cnt bytes behind the read position in its segment, the first cnt unread bytes, or all of them, are in one piece there. |
| `Buffer.Buffer.constructor` | src/base/memory/buffer.c:132-153 | A prepared buffer is valid and has no data. |
| `Buffer.Buffer.ReaderNext` | src/base/memory/buffer.h:335-355 | Skips embedded, terminal and empty segments; finds no data if and only if there is none. |
| `Buffer.Buffer.ReaderReady` | src/base/memory/buffer.h:357-362 | The unread queue stays; no data are found only if there are none. |
| `Buffer.Buffer.Read` | src/base/memory/buffer.c:370-397 | The bytes read are the front of the queue, as many as asked for or all of them. |
| `Buffer.Buffer.Skip` | src/base/memory/buffer.c:343-367 | The front of the queue is dropped, as many bytes as asked for or all of them. |
| `Buffer.Buffer.Size` | src/base/memory/buffer.c:329-340 | The number of unread bytes. |
| `Buffer.Buffer.Grow` | src/base/memory/buffer.c:185-220 | A new chunk is linked; its first segment has room for the size hint, as far as a chunk can have it; the queue stays. |
| `Buffer.Buffer.WriterNext` | src/base/memory/buffer.h:414-435 | The tail moves to a segment with room, or to the last terminal segment; the queue stays. |
| `Buffer.Buffer.Bump` | src/base/memory/buffer.h:438-447 | The tail moves to an empty segment with room, a new one if need be; the queue stays. |
| `Buffer.Buffer.Write` | src/base/memory/buffer.c:400-446 | Exactly the data are appended to the queue, across segments and chunks; no segment is added or left if the tail segment has room for them. |
| `Buffer.Buffer.Embed` | src/base/memory/buffer.c:516-533 | The block has the room asked for, in a segment that readers do not see; the buffer stays valid, with the same queue, if and only if the block has some bytes or the tail was not a terminal segment. |
| `Buffer.Buffer.PlaceEmbedded` | src/base/memory/buffer.c:105-122 | The embedded segment is cut out of the free part of the tail segment; the buffer stays valid, with the same queue, if and only if that was an internal segment. |
| `Buffer.Buffer.Consolidate` | src/base/memory/buffer.c:575-610 | All unread data are in the tail segment, in the same order. |
| `Buffer.Buffer.Span` | src/base/memory/buffer.c:538-615 | The queue stays; success is told if and only if the span is contiguous, and then the first cnt unread bytes, or all of them, lie in one piece at the read position with room for the rest; refusal and the fatal case are exactly those of the source; nothing moves if the bytes were in one piece already. |

## Left out

- Weak memory: the steps of concurrent protocols are sequentially consistent; fences are not modelled.
- Wrap-around of ring tickets, epochs, combiner tickets and memcache stamps: unbounded numbers. The 32-bit counters of task rings do wrap around in the model.
- Heaps: one heap span. Staged heaps, the remote free list, huge spans, aligned allocation and reallocation are not modelled; a request that would go to another span gives NoMemory or Huge.
- ChunkHeap.Heap.Release: for pointers to live chunks only. The checks for bad pointers and double frees, which stop the program, are not modelled.
- ChunkHeap.Heap.Identify: for pointers to live chunks only, as above.
- ChunkHeap.Heap.ChunkSize: for pointers to live chunks only, as above; a null or huge pointer is not modelled.
- Bit sets of blocks and inner blocks are sets of bit numbers; addresses are byte offsets in the span.
- Time queue: the effect of an overflow of 64-bit time values (see Findings for when there is none); the statistics counter of the front end is left out.
- TimeQueue.TimeQueue.SetMaxBucketWidth: a negative setting, which would give buckets of negative width, is not modelled.
- TimeQueue.TimeQueue.SetMaxBucketCount: a negative setting, which would give a negative number of buckets, is not modelled.
- Intrusive lists of the time queue: the linked lists are sequences with the list of each entry recorded, so that pointer updates of the intrusive lists are not modelled.
- Memcache locks and combiner dispatch: an action is one atomic step. Values are strings in the entry, and chunk allocation for them is left out.
- TableActions.Partition.FindVictims: the scan of an empty pool, which does not end, is in TableClock.ScanEndsIff.
- TableActions.Partition.EvictSome: for a pool that is not empty, as all its callers have it.
- TableActions.Partition.Evict: for a pool that is not empty, as all its callers have it.
- TableActions.Partition.EvictTask: no other action comes between the evictions.
- Strides: the check and the start of a stride are one step, hash values are unbounded, and the memory that is mapped for buckets is not modelled.
- Key lengths: at most 250 bytes, as the parsers see to; the 8-bit length field is not modelled.
- Commands: retry loops of append, prepend and increment, and the text and binary protocols.
- Buffer: external segments, compaction, splicing, searching and formatted output.
- TaskSharing: the choice of a peer by list sizes is left open, so that any peer may be asked or be sent tasks; the call queues are first-in first-out sequences. That there is at most one outstanding request is not claimed, as distribution also clears the flag.
- SinkOwnership: tasks are submitted only by the owner's handlers and tasks of the same sink; the state is that of one sink.
- Progress under contention: that a call comes to its end while others interfere, or that a published request is executed eventually, is a matter of scheduling; the theorems about progress are about calls that are left alone.
- TaskSharing.RequestServed: the call queues of both contexts are empty when the request is sent.
- TaskSharing.DistributionServed: the call queue of the target is empty when the tasks are sent.
- Checksum: the big-endian branch and the hardware instructions.
- Event backends, clocks, fibers, networking, logging, configuration, JSON and shared memory pools.
