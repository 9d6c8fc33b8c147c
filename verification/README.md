# A verified model of the ActiveMQ producer/consumer wrapper

The repository wraps the ActiveMQ C++ client: a pool of producers behind a thread-safe manager, a
consumer loop with client acknowledgement and redelivery, and an example program. It also carries the
APR headers, of which the ring macros and the alignment macro have visible implementations. This
project models these parts in Dafny and proves what they guarantee over all inputs, all runs and all
interleavings. `dafny verify dfyconfig.toml` checks everything.

| file | what it models |
|---|---|
| `PoolSpec.dfy` | the producer pool as an abstract allocator (used slots, cursor), and theorems about it |
| `Pool.dfy`, `Producer.dfy` | the bitmap pool and the producer as classes, proved to behave as the allocator |
| `Manager.dfy` | `sendmessage` and the locked `CreateSessionPool` as steps of any number of threads; the invariant |
| `ManagerTheorems.dfy` | what every interleaving guarantees, and exactly when the null session pool or an overflow can be reached |
| `ManagerProgress.dfy` | no interleaving deadlocks, and every call ends |
| `ManagerOutcomes.dfy` | how every call ends, over all interleavings and failures |
| `ManagerHistory.dfy` | what a whole schedule adds up to: lost slots, which call sent which message, the pool operations performed |
| `ManagerCalls.dfy`, `PoolManager.dfy` | the manager as a class; each of its calls is a run of the step system |
| `Example.dfy` | the example's producer run end to end, for every number of threads |
| `Consumer.dfy`, `ConsumerTheorems.dfy` | any number of consumers, restarts included, against one broker, as steps; what every run guarantees |
| `ConsumerOrder.dfy` | when one consumer acknowledges in arrival order, and exactly when a restart can cost that |
| `ConsumerScript.dfy` | what a run of one consumer does to the queue, given the verdicts of process() and the outcomes of the library calls |
| `ConsumerLoop.dfy` | `CDSAMQConsumer::run` as the structured loop, proved to do that and to follow the steps |
| `Ring.dfy` | APR rings on the heap |
| `Align.dfy` | `APR_ALIGN` for unsigned integers of every width |

## Conventions and assumptions

* Every library call has an explicit outcome (normal or `CMSException`) that the surroundings choose.
  A `send` or `acknowledge` that throws may or may not have taken effect; a `receive` that throws
  consumes nothing; `recover` puts the unacknowledged messages back at the front of the queue, in an order
  the provider chooses: it is promised to restart with the oldest one, but redelivered messages need not come
  in their original order (`include/activemq-cpp-3.9.5/cms/Session.h:180-196`). Where the order matters both
  readings are covered, as `Provider`. `acknowledge` acknowledges everything the session has consumed
  (`include/activemq-cpp-3.9.5/cms/Message.h:140-147`, section 4.4.11 of the JMS 1.1 specification).
* Each `lock_guard` region that works on the pool is one step. `CreateSessionPool` is split at every
  library call and every write of the started flag, because the flag is read without the lock.
* `new` never returns NULL, so `DSAMQProducerPoolMgr.cpp:172-182` is dead; `close()` in the clean-up at
  200-206 does not throw; once threads run, `CreateSessionPool` is reached only through `sendmessage`.
* Each consumer runs on its own session, whose mode matches `m_bclientack`. Closing a pooled session gives
  it back as it is (`include/activemq-cpp-3.9.5/activemq/cmsutil/PooledSession.h:81-82`), so a restarted
  consumer finds in it whatever was not acknowledged. It takes the session its predecessor gave back; if two
  ended consumers exchange sessions, that is a renaming of the consumers. A session whose `close()` threw is
  assumed to be back in the pool as well; if it is not, restarts after such an exit find a clean session.
* Unsigned arithmetic is 32 bits wide in the pool (the bitset size wraps), `npos` converted to
  `unsigned int` is 0xFFFFFFFF, and `APR_ALIGN` wraps at the given width.

## What the proofs say about the code

* The ring header warns that splicing before the first or after the last element "doesn't work". With the
  sentinel it does: `Rings.SpliceBefore` and `Rings.SpliceAfter` hold for every node of the ring.
* The example's usage text promises ten messages a thread for any thread count. Even when nothing fails, some
  finished schedule leaves something else on the queue if and only if there are more than 50 threads
  (`Example.MessagesLostIff`): a call that runs into "Pool Overflow" returns false, and nobody sends its
  message later.
* If creating the connection throws, `CreateSessionPool` returns true although there is no session pool,
  and the flag is readable before the session pool exists. Some schedule dereferences the null session
  pool if and only if `CreateSessionPool` has not completed before the threads start
  (`ManagerTheorems.CrashReachableIff`); without any library failure, if and only if moreover there are at
  least two threads (`ManagerTheorems.CalmCrashReachableIff`).
* `sendmessage` lets an exception escape exactly if closing a stale connection or its session throws; every
  other failure makes it return false, except that a failure to create the connection is not noticed
  (`ManagerOutcomes.EveryCallEndsAs`, `ManagerOutcomes.EscapesIff`).
* `sendmessage` does not give its producer back when `session->close()` throws. For one call: the pool is as
  before if and only if the close of a call that got a producer did not throw (`ManagerCalls.CallAccounting`).
  For schedules: each throwing close loses exactly one slot, for good, and nothing else does
  (`ManagerHistory.LostIffCloseThrew`, `ManagerTheorems.StrandedForever`); some schedule loses one if and only
  if there are threads and a pool with a slot left (`ManagerHistory.LossReachableIff`).
* `acknowledge` is a per-message acknowledge exactly on a session that starts with nothing unacknowledged
  (`ConsumerTheorems.AcknowledgeExactIffClean`). A consumer that is restarted on a used session can therefore
  make a text message leave that was to be retried; this is possible if and only if the session given back
  holds a text message whose latest delivery was not judged QUEUE_REMOVE (`ConsumerTheorems.RestartHarmsIff`,
  with a run from the start in `ConsumerTheorems.RestartLosesRetry`).
* One consumer acknowledges in arrival order as long as restarts find clean sessions; if `recover` restarts with
  the oldest message, also when they find one message left. Beyond that a restart can cost the order: exactly
  when no non-text message is next on the queue (`ConsumerOrder.SingleConsumerAcksInOrder`,
  `ConsumerOrder.RestartDisordersIff`).
* `CreatePool` on a bitmap pool that exists already resets neither bits nor count, stores a size before it
  refuses it, and throws a copy of the pool that deletes the array; `FreePoolItem` trusts the index of any
  producer it is given. `ProducerPools.ProducerPool.CreatePool` and `ProducerPools.ProducerPool.FreeForeignItem`
  say for every input whether the pool survives, and `ProducerPools.RecreateInUse`, `RecreateTooLarge`,
  `RecreateFails` and `FreeInWrongPool` give inputs for which it does not. The manager does neither.

## Model

| member | source | states |
|---|---|---|
| PoolSpec.OverflowIffFull | DSAMQProducerPool.h:89-105 | allocation reports overflow if and only if the number of used slots equals the pool size, equivalently if every slot is used |
| PoolSpec.FreeUndoesAllocate | DSAMQProducerPool.h:89-132 | allocation takes the least free slot; freeing it restores the pool; freeing it once more changes nothing |
| PoolSpec.SweepVisitsAll | DSAMQProducerPool.h:134-160 | a cursor sweep mixed with any allocations and frees returns strictly increasing slots, returns every slot that stays used, and ends with NULL and the cursor at 0 after at most size + 1 calls |
| PoolSpec.SweepIsExec | DSAMQProducerPool.h:134-160 | the sweep is what the results of an execution show |
| PoolSpec.SweepOfExecution | DSAMQProducerPool.h:134-160 | the sweep theorem for the results of any execution, and hence of the bitmap pool (DoAll): moreover every slot returned is in use at the moment it is returned, and the call that ends the sweep leaves the cursor at 0 |
| PoolSpec.SweepFromTheStart | DSAMQProducerPool.h:134-160 | a sweep begun by InitPoolItemCursor, wherever the cursor stood: nothing else changes, every slot that stays used is returned, from slot 0 on, within size + 1 calls |
| ProducerPools.SizeCheck | DSAMQProducerPool.h:48-55 | for every 32-bit n the size check passes iff n < 524280 or the computation wraps (n >= 2^32 - 8); without wrap n < bitset size <= n + 8 |
| ProducerPools.NewProducers | DSAMQProducerPool.h:57-70 | n distinct unused producers without destination, all carrying the given URI settings |
| ProducerPools.ProducerPool.constructor | DSAMQProducerPool.h:24-28 | a pool that is not created, with all bits clear |
| ProducerPools.ProducerPool.CreatePool | DSAMQProducerPool.h:42-74 | exactly which sizes are refused, the failed-allocation outcome, and on a new pool an empty allocator of the requested size (of size 0 when the bitset size has wrapped); a pool created before is sound afterwards iff the size is accepted and either memory is there, nothing was in use and the cursor fits, or memory is not there, the pool had been destroyed and the size is 0 |
| ProducerPools.ProducerPool.RecreatedIsValid | DSAMQProducerPool.h:42-74 | with all producers new, the pool is sound iff no bit is set and the cursor is in range |
| ProducerPools.ProducerPool.FailedIsValid | DSAMQProducerPool.h:57-66 | after a failed allocation the array is gone with the thrown copy: a created pool is sound iff there was no array and the size is 0 |
| ProducerPools.RecreateInUse | DSAMQProducerPool.h:42-74 | a second CreatePool while a producer is in use: the pool is not sound |
| ProducerPools.RecreateTooLarge | DSAMQProducerPool.h:48-55 | a second CreatePool with a refused size: not sound, although nothing was in use |
| ProducerPools.RecreateFails | DSAMQProducerPool.h:57-66 | a second CreatePool whose allocation fails: the pool is left with a deleted array |
| ProducerPools.ProducerPool.DestroyPool | DSAMQProducerPool.h:76-86 | a created pool becomes an allocator of size 0 that still counts as created; one never created stays fresh |
| ProducerPools.ProducerPool.ScanForClear | DSAMQProducerPool.h:91-99 | the scan stays in range and finds the first free slot, which on a full pool is exactly bit n |
| ProducerPools.ProducerPool.ScanForSet | DSAMQProducerPool.h:142-150 | the scan finds the first used slot from the cursor on, if there is one |
| ProducerPools.ProducerPool.SetBit | DSAMQProducerPool.h:109-128 | changing one bit changes the used set by that slot and its size by one |
| ProducerPools.ProducerPool.CreatePoolItem | DSAMQProducerPool.h:89-112 | does what the abstract allocation does: NULL exactly on a full pool, else the least free slot is added to the used ones; the returned producer's stored index is its slot; bit, index and counter stay in agreement |
| ProducerPools.ProducerPool.FreePoolItem | DSAMQProducerPool.h:115-132 | does what the abstract free does: the used slots lose that slot; the producer's index becomes npos; NULL and already freed producers change nothing |
| ProducerPools.ProducerPool.FreeForeignItem | DSAMQProducerPool.h:115-132 | given a producer of another pool, this pool stays sound iff its index is out of range of the pool or the bitset, or the bit is clear and the count 0; out_of_range escapes exactly for indices beyond the bitset |
| ProducerPools.FreeInWrongPool | DSAMQProducerPool.h:115-132 | two pools, a producer of one freed in the other: that one then counts nothing in use although its own producer is |
| ProducerPools.ProducerPool.Unmark | DSAMQProducerPool.h:123-131 | index, bit and count after lines 123-131, whatever the bit was |
| ProducerPools.ProducerPool.InitPoolItemCursor | DSAMQProducerPool.h:134-137 | the cursor is 0, and used slots and size are as before |
| ProducerPools.ProducerPool.GetNextPoolItem | DSAMQProducerPool.h:140-160 | does what the abstract sweep step does: the first used slot from the cursor on and the cursor behind it, or NULL and the cursor at 0 |
| ProducerPools.ProducerPool.GetUsedPoolItemCount | DSAMQProducerPool.h:162-165 | the counter is the number of used slots and at most the size |
| ProducerPools.ProducerPool.Do | DSAMQProducerPool.h:89-160 | one call of any kind gives the result and the new state of the abstract allocator |
| ProducerPools.ProducerPool.DoAll | DSAMQProducerPool.h:89-160 | every sequence of calls after creation gives exactly the results and the state of the abstract allocator |
| Producers.Producer.constructor | DSAMQProducer.cpp:19-29 | a new producer has index npos, no destination and the default settings |
| Producers.Producer.SetIndex | DSAMQProducer.cpp:51-54 | sets the index and nothing else |
| Producers.Producer.SetURIInfo | DSAMQProducer.cpp:66-76 | sets the four settings and leaves a cached destination alone |
| Producers.Producer.SendMessage | DSAMQProducer.cpp:102-170 | when the call succeeds, when the destination is cached, and that at most this message reaches the broker through it; the message follows the current settings iff the cache was empty or up to date |
| Manager.AheadOnlyInWindow | DSAMQProducerPoolMgr.cpp:150-206 | the flag is set without a session pool exactly while the lock holder is between setting it and creating the pool or clearing it again |
| Manager.LockedKeeps | DSAMQProducerPoolMgr.cpp:137-213 | each step under the lock leads to the flag/connection/session-pool combination of its new line and never drops an existing session pool |
| Manager.StepKeepsInv | DSAMQProducerPoolMgr.cpp:220-292 | every step of any thread keeps the invariant of mutex, connection, slots and destinations |
| Manager.RunKeepsInv | DSAMQProducerPoolMgr.cpp:220-292 | so does every interleaving |
| ManagerTheorems.InitialIsQuiet | DSAMQProducerPoolMgr.cpp:58-126 | after CreatePool the threads are in a quiet state, from which the theorems start |
| ManagerTheorems.QuietAfterConnecting | example.cpp:93-96 | main's own CreateSessionPool leads from a quiet state to a quiet one, whichever way it ends |
| ManagerTheorems.RecordIsExact | DSAMQProducerPoolMgr.cpp:262-289 | no two threads hold the same slot, and the slots held are those on record |
| ManagerTheorems.SlotAccounting | DSAMQProducerPoolMgr.cpp:262-289 | used slots number the holding threads plus the stranded slots |
| ManagerTheorems.ProducersAreExclusive | DSAMQProducerPoolMgr.cpp:262-291 | from every quiet start, in every reachable state: holders have different producers, used slots are exactly the held and the stranded ones, and the counts add up |
| ManagerTheorems.WaitsIffHeld | DSAMQProducerPoolMgr.cpp:233-289 | at the three lock_guards a thread goes on exactly if nobody holds the mutex |
| ManagerTheorems.MutualExclusion | DSAMQProducerPoolMgr.cpp:233-289 | in every reachable state at most one thread is inside CreateSessionPool, and meanwhile no other touches the pool or the connection |
| ManagerTheorems.OneConnection | DSAMQProducerPoolMgr.cpp:137-192 | from every quiet start, in every reachable state: at most one initialisation has completed; with the mutex free flag, session pool and connection agree; the flag is ahead exactly in the window; lines 139-144 are never needed |
| ManagerTheorems.SessionsAreForever | DSAMQProducerPoolMgr.cpp:190-191 | once created the session pool is never replaced and the flag stays set, in every continuation |
| ManagerTheorems.NullSessionPoolOnlyBy | DSAMQProducerPoolMgr.cpp:193-248 | from every quiet start a thread reaches takeSession without a session pool only after its own createConnection threw, or after reading the flag inside another thread's window |
| ManagerTheorems.CrashAlone | DSAMQProducerPoolMgr.cpp:193-248 | one thread reaches the null session pool when createConnection throws |
| ManagerTheorems.CrashInWindow | DSAMQProducerPoolMgr.cpp:150-248 | two threads reach it without any library failure |
| ManagerTheorems.NoCrashWithSessions | DSAMQProducerPoolMgr.cpp:228-248 | with a session pool, and nobody crashed so far, no schedule reaches it |
| ManagerTheorems.CrashReachableIff | DSAMQProducerPoolMgr.cpp:220-248 | some schedule reaches the null session pool iff there is none at the start |
| ManagerTheorems.CalmAlone | DSAMQProducerPoolMgr.cpp:220-248 | a thread that runs alone while nothing fails reaches takeSession only with a session pool |
| ManagerTheorems.CalmCrashReachableIff | DSAMQProducerPoolMgr.cpp:150-248 | without any library failure some schedule reaches the null session pool iff there is none at the start and there are at least two threads |
| ManagerTheorems.OverflowExactlyWhenFull | DSAMQProducerPoolMgr.cpp:262-275 | allocation fails iff holders and stranded slots fill the pool |
| ManagerTheorems.BoundedNeverOverflows | DSAMQProducerPoolMgr.cpp:262-275 | in a run from any quiet start with at most pool-size threads between allocation and free and no slot lost, no thread ever gets "Pool Overflow" |
| ManagerTheorems.StrandedForever | DSAMQProducerPoolMgr.cpp:286-289 | a slot whose close threw stays lost and in use in every continuation, and leaves room for that many holders fewer |
| ManagerProgress.NoDeadlock | DSAMQProducerPoolMgr.cpp:220-292 | in every state, if a call is in progress some call can go on without anything failing: the thread itself, or the mutex holder if the thread waits for the mutex |
| ManagerProgress.CallTakesAtMost17 | DSAMQProducerPoolMgr.cpp:220-292 | over every interleaving and failure no call takes more than 17 steps of its own |
| ManagerProgress.SchedulesEnd | DSAMQProducerPoolMgr.cpp:220-292 | without new calls every schedule is at most as long as what is left of the calls in progress |
| ManagerProgress.CanSettle | DSAMQProducerPoolMgr.cpp:220-292 | from every state some schedule without new calls and without failures ends all calls; with a session pool all of them normally |
| ManagerOutcomes.EveryCallEndsAs | DSAMQProducerPoolMgr.cpp:137-292 | over all interleavings and failures: a call that ended returned true iff nothing went wrong, returned false if there was no pool, no text, no free slot or a caught failure, and let the exception escape after a throwing close of a stale connection or of the session |
| ManagerOutcomes.EscapesIff | DSAMQProducerPoolMgr.cpp:141-286 | an exception leaves sendmessage in a step iff that step is a throwing close at 141, 273 or 286 |
| ManagerOutcomes.CalmCallsSucceed | DSAMQProducerPoolMgr.cpp:137-292 | a call with a text none of whose own library calls fails is in progress, has returned true, has met the null session pool, or returned false after finding the pool full |
| ManagerHistory.LossesCounted | DSAMQProducerPoolMgr.cpp:286-289 | over every schedule, as many slots are lost as session closes at 286 have thrown |
| ManagerHistory.LostIffCloseThrew | DSAMQProducerPoolMgr.cpp:286-289 | from a quiet start without lost slots: a slot is lost iff some close of the schedule threw; once all threads are outside again the producers not back in the pool are exactly those, one for each throwing close |
| ManagerHistory.CloseLosesSlot | DSAMQProducerPoolMgr.cpp:262-291 | from every quiet state with a thread and a slot left, a schedule that loses a slot |
| ManagerHistory.LossReachableIff | DSAMQProducerPoolMgr.cpp:220-291 | some schedule loses a slot iff there are threads and a created pool with a slot not yet lost |
| ManagerHistory.EveryCallDelivers | DSAMQProducerPoolMgr.cpp:220-292 | over all interleavings and failures: a call that returned true has put its text exactly once on the configured destination; every other call, finished or not, at most once |
| ManagerHistory.StepLogs | DSAMQProducer.cpp:129-149 | a step adds a message to the queue iff its thread is at the send and the send does not throw beforehand; it is the message in hand, to the configured destination |
| ManagerHistory.MessagesMatchCalls | DSAMQProducerPoolMgr.cpp:220-292 | over all interleavings and failures: each message added to the queue is the text of one call, no call has two, each call that returned true has one; so the messages number at least the true returns and at most the calls |
| ManagerHistory.PoolIsExec | DSAMQProducerPoolMgr.cpp:262-289 | the pool operations of every schedule, executed one after the other, give exactly the slots the threads went on with and the pool of the final state |
| ManagerHistory.Replay | DSAMQProducerPoolMgr.cpp:262-289 | so does the bitmap pool: same producers handed out, same slots in use, and its counter is the holders plus the lost slots |
| ManagerCalls.ProducerReport | DSAMQProducer.cpp:102-170 | what the producer object reports of a send is what the step system does with its destination and the broker |
| ManagerCalls.ConnectedIsRun | DSAMQProducerPoolMgr.cpp:128-236 | a whole CreateSessionPool under the lock, in each of its outcomes, the stale connection included, is a run of the locked steps |
| ManagerCalls.ConnectAccounting | DSAMQProducerPoolMgr.cpp:128-213 | by fields and library outcomes only: when CreateSessionPool returns true, returns false or lets an exception escape, and what flag, connection and session pool are afterwards |
| ManagerCalls.SendIsRun | DSAMQProducerPoolMgr.cpp:277-283 | a whole producer send is a run of the two send steps |
| ManagerCalls.CallIsRun | DSAMQProducerPoolMgr.cpp:220-292 | a whole uninterrupted sendmessage, in each of its outcomes, is a run of the step system, wherever the other threads stand |
| ManagerCalls.CallAccounting | DSAMQProducerPoolMgr.cpp:220-291 | by fields and library outcomes only, for every state: a call returns true iff it gets a session pool, a session and a slot, the text is not empty and nothing throws; an exception escapes iff closing a stale connection or its session throws; it crashes iff success was reported without a session pool; else it returns false. A true return has put its text once on the configured destination, any other at most once; the pool is as before iff the close of a call that got a producer did not throw, else exactly that slot is lost |
| PoolManagers.PoolManager.constructor | DSAMQProducerPoolMgr.cpp:19-30 | an initial state of the step system without a pool |
| PoolManagers.PoolManager.CreatePool | DSAMQProducerPoolMgr.cpp:58-92 | nothing happens to an existing pool; otherwise success iff both URIs are given and memory is there, and then min(n, 50) free slots in an initial state of the step system |
| PoolManagers.PoolManager.CreatePoolWith | DSAMQProducerPoolMgr.cpp:94-126 | the same without the URI check and with the given settings |
| PoolManagers.PoolManager.Create | DSAMQProducerPoolMgr.cpp:74-91 | ignoring the result of the pool's size check is harmless after the cut to 50 |
| PoolManagers.PoolManager.CreateSessionPool | DSAMQProducerPoolMgr.cpp:128-213 | fields and outcome are those of the whole call of the step system; with a pool it returns true iff the manager was started before, is started afterwards, or createConnection threw; false when start() or the registration throws; an exception escapes iff closing a stale connection throws |
| PoolManagers.PoolManager.Connect | DSAMQProducerPoolMgr.cpp:146-209 | the same for the part that creates the connection |
| PoolManagers.PoolManager.SendMessage | DSAMQProducerPoolMgr.cpp:220-292 | fields and outcome are those of a run of the step system from the old fields to the new ones, whatever the other threads are in the middle of, and the outcome is the one CallAccounting gives; flag, connection and session pool still agree if they did |
| PoolManagers.PoolManager.AllocateAndSend | DSAMQProducerPoolMgr.cpp:262-291 | the same for the part after takeSession |
| PoolManagers.PoolManager.SendAndFree | DSAMQProducerPoolMgr.cpp:277-291 | the same for the part after allocation, the throwing close included |
| PoolManagers.PoolManager.ProducerSend | DSAMQProducerPoolMgr.cpp:277-283 | the same for the producer's send |
| Example.DecimalReads | example.cpp:38 | the decimal text of n consists of digits, reads as n, and begins with a zero only if it is "0" |
| Example.MessageReads | example.cpp:37-39 | the text of message n is "send message #" followed by n in decimal |
| Example.DecimalInjective | example.cpp:38 | different numbers print differently |
| Example.MessageInjective | example.cpp:37-39 | different messages have different texts |
| Example.Starts | example.cpp:97-108 | thread t starts at its message number 0, which is 10 t, for every thread count including negative ones |
| Example.SetUp | example.cpp:84-96 | without failures the set-up leads to the state the producer threads start from, on the queue TEST.FOO with the default settings |
| Example.StartIsQuiet | example.cpp:84-117 | that state is a quiet one, so that everything proved about the manager holds of the program |
| Example.ProgRunInv | example.cpp:31-124 | the program's invariant holds in every schedule for every number of threads |
| Example.ProgStepKeeps | example.cpp:31-43 | with up to 50 threads a step of any thread keeps the program's invariant, its record of sent messages and its count of steps |
| Example.RunsEnd | example.cpp:31-124 | for every number of threads no schedule gets stuck before all calls are made, and none has more than 80 steps a thread |
| Example.RunsEndExactly | example.cpp:31-124 | for up to 50 threads a schedule is finished exactly after 80 steps a thread |
| Example.EveryMessageOnce | example.cpp:31-124 | for up to 50 threads every finished schedule leaves each of the 10 n messages on the configured queue exactly once, and every call returned true |
| Example.ExampleDelivers | example.cpp:31-124 | the same for the program's own message texts |
| Example.ThreadsSendInOrder | example.cpp:36-41 | for every number of threads and every schedule the messages of one thread are on the queue in the order of its loop |
| Example.OverflowReachableIff | example.cpp:70-124 | without any failure some schedule runs into "Pool Overflow" iff there are more than 50 threads |
| Example.StaysMissing | example.cpp:31-43 | a message whose call is over without having sent it is never sent later, by any thread |
| Example.CanFinish | example.cpp:31-124 | for every number of threads every schedule can be continued to a finished one, and whatever message is missing stays missing |
| Example.MessagesLostIff | example.cpp:70-124 | without any failure some finished schedule leaves something else on the queue than the promised 10 n messages iff there are more than 50 threads |
| Consumers.ActConserves | DSAMQConsumer.h:180-225 | no step of a consumer loses or duplicates a message |
| Consumers.ActAcksJudged | DSAMQConsumer.h:211-219 | a text message leaves the broker only by the acknowledge after a QUEUE_REMOVE or of a non-text message, and only if it was itself judged QUEUE_REMOVE on its latest delivery |
| Consumers.StepKeepsBasic | DSAMQConsumer.h:158-237 | every event, restarts of any kind included, keeps each message in one place and the books on closing, stopping and automatic acknowledgement |
| Consumers.RunKeepsBasic | DSAMQConsumer.h:158-237 | so does every run |
| Consumers.StepKeepsInv | DSAMQConsumerPool.h:319-358 | every event keeps the acknowledgement invariant, a restart if it is harmless: what text messages the session still holds were judged QUEUE_REMOVE |
| Consumers.RunKeepsInv | DSAMQConsumer.h:158-237 | so does every run whose restarts are harmless |
| ConsumerTheorems.SessionCleanAtLoopHead | DSAMQConsumer.h:180-225 | as long as restarts find clean sessions: nothing unacknowledged at the loop head, at most one message at any time |
| ConsumerTheorems.AcknowledgeIsPerMessage | DSAMQConsumer.h:203-216 | in such runs the session-wide acknowledge acknowledges exactly the message in hand |
| ConsumerTheorems.LatestIsSaid | DSAMQConsumer.h:187-211 | the latest verdict on record for a message is the one process() gave in the events of the run |
| ConsumerTheorems.TextLeavesOnlyWhenRemoved | DSAMQConsumer.h:211-219 | in every run whose restarts are harmless a text message has left the broker only if its latest delivery was judged QUEUE_REMOVE |
| ConsumerTheorems.AutoAckLeavesFirst | DSAMQConsumer.h:187-213 | with automatic acknowledgement, at every moment of every run the message in hand is gone from the broker and not on the queue |
| ConsumerTheorems.AcknowledgeExactIffClean | DSAMQConsumer.h:187-216 | the acknowledge after a QUEUE_REMOVE covers exactly that message iff the session held nothing before; otherwise it takes everything along |
| ConsumerTheorems.RestartHarmsIff | DSAMQConsumerPool.h:319-358 | in every state reached by harmless restarts, for either kind of provider: restarting an ended consumer can make a text message leave without its own QUEUE_REMOVE iff the session given back holds a text message not judged QUEUE_REMOVE |
| ConsumerTheorems.DirtyRestart | DSAMQConsumerPool.h:319-358 | the run that does it, for every such message |
| ConsumerTheorems.OneLeftAtExit | DSAMQConsumer.h:211-233 | the bound of one message at exit is attained: recover() throws after a QUEUE_RETRY |
| ConsumerTheorems.RestartLosesRetry | DSAMQConsumerPool.h:319-358 | from every start a run with one restart in which the message to be retried leaves the broker |
| ConsumerTheorems.EveryMessageAccountedFor | DSAMQConsumer.h:187-219 | with any number of consumers and any restarts every arrived message is in exactly one of acknowledged, unacknowledged in one session, pending |
| ConsumerOrder.SingleConsumerAcksInOrder | DSAMQConsumer.h:187-219 | with one consumer the acknowledged messages are a prefix of arrival order, retries included: for any provider if restarts find clean sessions, for one whose recover starts with the oldest message if they find at most one message |
| ConsumerOrder.RestartDisordersIff | DSAMQConsumerPool.h:319-358 | restarting the one consumer can lead to acknowledgement out of arrival order iff its session still holds a message (two, if recover starts with the oldest) and no non-text message is next on the queue |
| ConsumerOrder.RetryOvertakes | DSAMQConsumer.h:187-219 | the step that does it: a retried message is put back before an older one that is not the oldest, or, by a provider free to reorder, before the oldest |
| ConsumerOrder.TwoLeftAfterRestart | DSAMQConsumerPool.h:319-358 | from every start a restart after which a consumer ends with two messages in its session |
| ConsumerOrder.SettlingRun | DSAMQConsumer.h:187-206 | if the next message is a non-text one, its acknowledge settles what the session holds and the order is kept |
| ConsumerTheorems.ClosesExactlyOnce | DSAMQConsumer.h:158-237 | a run that returns has closed its session exactly once, whichever call failed |
| ConsumerTheorems.AtMostOneLateReceive | DSAMQConsumer.h:180-195 | after stop() each consumer begins at most one more receive |
| ConsumerTheorems.LateReceiveHappens | DSAMQConsumer.h:180-187 | and one there can be: stop() comes between the test and receive |
| ConsumerTheorems.StoppedStaysStopped | DSAMQStopper.h:24-32 | the stop flag never comes back |
| ConsumerScript.RoundMeans | DSAMQConsumer.h:184-224 | one iteration with client acknowledgement, case by case: a text judged QUEUE_REMOVE leaves, one judged QUEUE_RETRY stays first on the queue, one whose getText or process throws stays in the session, a non-text message leaves whatever the verdict; and which cases break |
| ConsumerScript.AutoRoundMeans | DSAMQConsumer.h:184-224 | with automatic acknowledgement a message that is received leaves |
| ConsumerScript.LeftIsLeft | DSAMQConsumer.h:180-225 | once the loop is left nothing more happens |
| ConsumerScript.RemovalsInOrder | DSAMQConsumer.h:180-225 | when nothing fails, r verdicts QUEUE_REMOVE among any number of QUEUE_RETRY acknowledge exactly the first r text messages, in order |
| ConsumerLoop.Task.constructor | DSAMQConsumer.h:100-116 | a consumer about to run on a clean session |
| ConsumerLoop.Task.Enter | DSAMQConsumer.h:160-178 | taking the session and setting up follow the steps; a timeout that is not positive becomes 3000 |
| ConsumerLoop.Task.ReceiveNext | DSAMQConsumer.h:184-195 | receive gives the first message of a non-empty queue or none, fails exactly if it throws, and moves that message to the session (or off the broker); it counts as late exactly if stop() has come |
| ConsumerLoop.Task.AcknowledgeAll | DSAMQConsumer.h:205-216 | acknowledges all the session holds unless it throws beforehand; follows the step |
| ConsumerLoop.Task.RecoverSession | DSAMQConsumer.h:217-218 | puts all the session holds back at the front unless it throws beforehand; follows the step |
| ConsumerLoop.Task.Answer | DSAMQConsumer.h:211-219 | QUEUE_REMOVE acknowledges and QUEUE_RETRY recovers, with their throwing outcomes, and without client acknowledgement neither; the verdict on record is the one given |
| ConsumerLoop.Task.Iterate | DSAMQConsumer.h:182-224 | on a clean session queue, acknowledged messages and session become what Round gives; it breaks exactly if Breaks says so; the verdict on record is the one of the script |
| ConsumerLoop.Task.HandleMessage | DSAMQConsumer.h:197-219 | the same for the part with a message in hand |
| ConsumerLoop.Task.Pass | DSAMQConsumer.h:180-224 | the loop condition and one iteration: as OneRound gives, with the late receive counted |
| ConsumerLoop.Task.Surroundings | DSAMQConsumer.h:180-187 | stop() and arrivals, before the loop condition is read or between that and receive |
| ConsumerLoop.Task.Loop | DSAMQConsumer.h:180-225 | the loop makes of the queue what Rounds gives, is left exactly when Rounds says so, and follows the steps; a receive is late exactly in the iteration whose first stop() comes after the loop condition was read |
| ConsumerLoop.Task.CloseSession | DSAMQConsumer.h:233 | one close, normal or throwing |
| ConsumerLoop.Task.RunTask | DSAMQConsumer.h:158-237 | the structured run() leaves the queue as Rounds gives and ends accordingly (returned, exception, still running); it is a run of the model, hence one close, at most one late receive (and exactly when there is one), at most one message left unacknowledged, acknowledgement in order and only of removed text messages |
| Rings.Node.constructor | include/apr-1/apr_ring.h:212-215 | a fresh element is linked to itself |
| Rings.RingUnique | include/apr-1/apr_ring.h:177-183 | the links determine the elements: two rings with a common node are equal up to where they start |
| Rings.RotatedIsRing | include/apr-1/apr_ring.h:177-183 | a ring may be read from any of its nodes |
| Rings.Init | include/apr-1/apr_ring.h:192-195 | an empty ring |
| Rings.IsEmpty | include/apr-1/apr_ring.h:204-205 | true iff the ring has no element |
| Rings.SpliceAfter | include/apr-1/apr_ring.h:245-250 | the ring a + b becomes the ring a + chain + b, for every cut |
| Rings.SpliceBefore | include/apr-1/apr_ring.h:228-233 | likewise, before any node, the sentinel included |
| Rings.InsertAfter | include/apr-1/apr_ring.h:273-274 | one element inserted after any node |
| Rings.InsertBefore | include/apr-1/apr_ring.h:261-262 | one element inserted before any node |
| Rings.InsertHead | include/apr-1/apr_ring.h:311-312 | the element becomes the first |
| Rings.InsertTail | include/apr-1/apr_ring.h:322-323 | the element becomes the last |
| Rings.Unsplice | include/apr-1/apr_ring.h:364-369 | the ring a + m + b becomes a + b; m stays a chain and keeps its two dangling outer links |
| Rings.Remove | include/apr-1/apr_ring.h:377-378 | the same for one element |
| Rings.SpliceThenUnsplice | include/apr-1/apr_ring.h:228-369 | splicing before or after any node and unsplicing restores every link of the ring, and the chain |
| Rings.UnspliceThenSplice | include/apr-1/apr_ring.h:245-369 | unsplicing a segment and splicing it after its saved predecessor restores every link |
| Rings.Concat | include/apr-1/apr_ring.h:332-339 | the first ring holds h1's elements then h2's, h2 is empty, although FIRST(h2) and LAST(h2) are read again during the updates |
| Rings.Prepend | include/apr-1/apr_ring.h:348-355 | the first ring holds h2's elements then h1's, h2 is empty |
| Rings.Foreach | include/apr-1/apr_ring.h:387-390 | visits the elements in order and ends |
| Rings.ForeachSafe | include/apr-1/apr_ring.h:400-403 | with a body that removes any subset and reuses the links of what it removes, visits every original element once in order, ends, and leaves the others in order |
| Rings.CheckElemConsistency | include/apr-1/apr_ring.h:448-456 | on every finite node set closed under next and prev the walk ends; it gets back to its start iff the start lies on a well-formed ring, as whichever of its nodes |
| Alignment.AlignCorrectIff | include/apr-1/apr_general.h:136-137 | for every width, power-of-two boundary and size: the least multiple of the boundary not below size, iff the addition does not wrap |
| Alignment.AlignWraps | include/apr-1/apr_general.h:136-137 | when it wraps the result is 0 |
| Alignment.AlignIdempotent | include/apr-1/apr_general.h:136-137 | aligning twice changes nothing, for every size, wrapped ones included |
| Alignment.AlignMonotone | include/apr-1/apr_general.h:136-137 | aligning keeps the order |

## Left out

- The ActiveMQ and CMS library itself, the other APR headers and uuid: only declarations are there; the documented contracts are used as assumptions.
- Ownership of connections inside `ResourceLifecycleManager`, and `ReleaseResource` while threads run: it depends on library destructors.
- `CDSAMQConsumerPool` apart from restarting ended consumers: its start-up and shutdown are the thread pool's.
- `CDSRTSingleton`: the manager and the stopper are fixed objects.
- Concurrent calls of `CreatePool`, and `CreateSessionPool` called directly while threads run.
- Error strings, printed output, command-line parsing, time-outs as real time, the memory model beyond interleaved steps.
- Exceptions other than `CMSException` out of `process()`.
- `m_destination` of the consumer: created once per run, without influence on the acknowledgement protocol.
- APR_RING_CHECK and the SPLICE_HEAD/SPLICE_TAIL wrappers: the same walk with output, and the splices at the sentinel.
- PoolManagers.PoolManager.SendMessage: one uninterrupted call on a pool and producers given by value; the interleavings are in module Manager, ManagerHistory.Replay proves that the bitmap pool object follows the pool part of every schedule, and ManagerCalls.ProducerReport that the producer object follows the send.
- PoolManagers.PoolManager.AllocateAndSend: the same; allocation is the abstract one, which the bitmap pool refines.
- PoolManagers.PoolManager.SendAndFree: the same for the free.
- PoolManagers.PoolManager.ProducerSend: the producer is rebuilt from its settings and its cached destination.
- ProducerPools.ProducerPool.FreePoolItem: the contract for producers of this pool; for any other producer the same lines have the contract of ProducerPools.ProducerPool.FreeForeignItem.
- Manager.StepKeepsInv: a send through one producer is split at the cached destination only, since the producer is held exclusively; the sessions themselves are the library's.
