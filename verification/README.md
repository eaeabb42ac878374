# Verification of the message center

A Dafny model of the lock-free message path and of the observer-removal protocol, with proofs
over every run: any number of threads, any interleaving, any sequence of calls.

Concurrent code is modelled as transition systems. Each atomic load, store, counter update or
compare-exchange is one step, and so is each access to plain memory that other threads could
touch; `compare_exchange_weak` may fail spuriously; an action that is not enabled changes
nothing. A run is a fold of the step function over an arbitrary list of actions, and theorems
speak of `After(...)` for all such lists. Theorems about calls read the calls and their arguments
off the list of actions, and their results off the states, never off a thread's locals. Interleaving is sequentially consistent. What the code
changes step by step for one caller also has its class form with the code's own loops.

- `bits.dfy`: `pos & MASK`, and the compile-time power-of-two test.
- `ring.dfy`, `ring_theorems.dfy`: `MPMCQueue` as a step system over unbounded positions, its
  invariant, and linearizability, race freedom, the meaning of `false`, progress and sizes.
- `ring_calls.dfy`: linearizability from what was passed to the calls and what they returned.
- `ring_solo.dfy`: one undisturbed call on the ring, step by step.
- `ring_limits.dfy`: what the ring does not guarantee: the unbounded retry loop and the refusal no
  FIFO history explains, each with its exact condition.
- `ring_word.dfy`: the same ring on 64-bit words.
- `mpmc_queue.dfy`: `MPMCQueue` as a class over its two slot arrays; each call performs the
  steps of `ring.dfy`.
- `pool.dfy`, `pool_theorems.dfy`, `pool_calls.dfy`: `ObjectPoolLockFree` as a step system, what its
  calls do, and what it keeps.
- `object_pool.dfy`: the pool as a class of linked nodes; `RefCountedPayload` as a class.
- `lifecycle.dfy`: `EventQueueBroadcastFast` above an atomic queue and pool: observer snapshots,
  payload counts, callbacks, node recycling.
- `fast_queue.dfy`: `EventQueueBroadcastFast` as a class over ring, pool and payload objects.
- `delivery.dfy`, `delivery_frames.dfy`, `delivery_theorems.dfy`: the life cycle over the real ring
  (any number of posters and dispatchers).
- `delivery_calls.dfy`: what is passed to `post` is what the observers get, over the ring and over
  ring and pool.
- `delivery_progress.dfy`: no call gets stuck, and everything under way can be delivered.
- `pooled_delivery.dfy`: the life cycle over the real ring and the real pool, which hands out
  whatever its list holds; safe for one poster and any number of dispatchers.
- `pooled_clash.dfy`: with two posters, the run in which one post is delivered too often; the exact
  condition for end-to-end delivery.
- `observers.dfy`, `removal.dfy`, `removal_theorems.dfy`, `removal_calls.dfy`,
  `removal_progress.dfy`: the protocol between `AddObserver`, the removals and `Dispatch` in
  `EventQueue`: two mutexes, a counter, a condition variable and a thread-local flag.
- `event_queue.dfy`, `event_queue_requests.dfy`: `EventQueue` as a class, handlers included, and what
  the requests of handlers amount to.
- `schedules.dfy`, `emulator.dfy`, `fairness.dfy`, `fairness_progress.dfy`: `EventQueueEmulator`: the
  ratio schedule in closed form, the class over two ring objects, and fairness and progress with
  other threads interleaving.
- `message_center.dfy`, `message_center_loop.dfy`, `message_center_stop.dfy`,
  `message_center_calls.dfy`: `MessageCenterFast` over the ring: counters, start, the dispatch loop,
  stop and drain, that `stop` returns, and what the callers of `post` are told.
- `batch_posting.dfy`, `batch_calls.dfy`, `batch_routing.dfy`, `batch_dispatch.dfy`:
  `EventQueueBroadcastFastBatch`: the thread-local buffer, what was posted into it, where its
  messages end up, and what dispatching does, one at a time and in batches.
- `sequences.dfy`: small facts used by several modules.

Where code and documentation part:

- The comment at `src/mpmc_queue.h:16-17` speaks of wait-free progress. The loops retry as long
  as other threads' claims succeed: rounds are bounded iff at most one thread uses the queue
  (`RingLimits.RoundsAreBoundedIffAlone`); in general by the claims of others
  (`RingTheorems.RoundsAreBoundedByClaims`).
- The test at `src/mpmc_queue.h:20-21` admits capacity 1, at which the queue is not bounded:
  `RingTheorems.BoundedIffCapacityAtLeastTwo`.
- The removal contract in `src/eventqueue.cpp:501-507` does not hold for a removal made inside a
  handler, which the code lets return without waiting: `RemovalTheorems.ContractIffOutside`.
- The pool is used by several posting threads (`src/eventqueue_fast.h:118`), for which it is not
  safe: `PoolTheorems.SafeIffSingleAcquirer` for the list, `PooledClash.DeliveredIffOnePoster` for
  the messages.
- `try_push` and `try_pop` may return false while the queue is not full or not empty
  (`RingLimits.RefusalIsNotLinearizable`); exactly when is `RingLimits.PushRefusalMeansFullIff` and
  `RingLimits.PopRefusalMeansEmptyIff`.
- The batch buffer is one per thread, not one per queue (`src/eventqueue_batch.h:81`):
  `BatchRouting.RoutedIffOneInstance`.

Positions, counters and reference counts are unbounded integers except in `RingWord`. Object
addresses are natural numbers, and a new object may get the address of a deleted one. Message
bytes are sequences. Callbacks are events recorded in order. Constants (48 inline bytes, 16 and 8
observers, 32 messages a batch, 256, 1024 and 4096 topics, pool limits) are the code's.

## Model

| member | source | states |
|---|---|---|
| `Bits.PowerOfTwoTest` | src/mpmc_queue.h:20-21 | the compile-time test accepts exactly the powers of two |
| `Bits.MaskIsRemainder` | src/mpmc_queue.h:32 | masking with the capacity minus one is the remainder modulo the capacity |
| `Bits.SlotInjective` | src/mpmc_queue.h:50 | positions less than one lap apart never share a slot |
| `Ring.PushObserves` | src/mpmc_queue.h:51-66 | what a sequence number tells a producer: equal and current means the tail is free, larger means another claimed it, smaller means full or still being read |
| `Ring.PopObserves` | src/mpmc_queue.h:79-94 | what a sequence number tells a consumer: published, overtaken, or unpublished |
| `Ring.ExecKeepsInv` | src/mpmc_queue.h:46-109 | every step of every thread keeps the ring invariant: head <= tail <= head + C, each slot's sequence number and data as its position demands, one owner per claimed position |
| `Ring.AfterInv` | src/mpmc_queue.h:35-109 | the invariant holds in every state reachable from the constructor, for every capacity that is a power of two and at least two |
| `Ring.ReaderSeesItem` | src/mpmc_queue.h:83-90 | between head claim and release the slot still holds the claimed position's item and sequence number |
| `RingTheorems.RunsAreFifo` | src/mpmc_queue.h:46-100 | linearizability: in the order of their successful compare-exchanges the operations are a legal history of a bounded FIFO queue; values taken are a prefix of values inserted |
| `RingTheorems.CallsReturnTheirEffects` | src/mpmc_queue.h:46-100 | per thread, the history is its returned successful calls with what they returned, then at most one call still running: the linearization point lies inside each call |
| `RingCalls.CallsAreLinearized` | src/mpmc_queue.h:46-109 | each call returns once, with a result of its kind; a thread's operations in the legal FIFO history are its pushes that returned true, with the item passed, and its pops that returned an item, with that item, in call order, and at most the one it is in |
| `RingTheorems.SlotDataIsRaceFree` | src/mpmc_queue.h:54-61 | two threads that may access slot data never have the same slot |
| `RingTheorems.PopReturnsItsItem` | src/mpmc_queue.h:86-90 | a consumer reads exactly the value inserted at its position |
| `RingTheorems.PushFailsIff` | src/mpmc_queue.h:52-66 | a push gives up iff its local tail is current and the position one lap back is not taken or not released |
| `RingTheorems.PopFailsIff` | src/mpmc_queue.h:80-94 | a pop gives up iff its local head is current and that position is unclaimed or unpublished |
| `RingTheorems.FailureIsExactWhenNothingInFlight` | src/mpmc_queue.h:52-94 | with no operation between claim and publish or release, false means exactly full, or exactly empty |
| `RingTheorems.RoundsMoveForward` | src/mpmc_queue.h:47-70 | a loop round that does not return raises the local position, unless it was a spurious failure |
| `RingTheorems.RoundsAreBoundedByClaims` | src/mpmc_queue.h:46-100 | the rounds of a call are at most the claims by others since its first load plus its spurious failures |
| `RingLimits.OvertakenTimes` | src/mpmc_queue.h:46-71 | for every n the run in which one `try_push`, on a queue that never holds more than one message and without a spurious failure, has gone n rounds |
| `RingLimits.RoundsAreBoundedIffAlone` | src/mpmc_queue.h:16-17 | without spurious failures the rounds of a call are bounded over all runs iff at most one thread uses the queue |
| `RingLimits.PopRefusalMeansEmptyIff` | src/mpmc_queue.h:80-94 | at the load that makes a pop give up, the queue is empty iff nobody is publishing the oldest position |
| `RingLimits.PushRefusalMeansFullIff` | src/mpmc_queue.h:52-66 | at the load that makes a push give up, the queue is full iff nobody is reading the position one lap back |
| `RingLimits.RefusalIsNotLinearizable` | src/mpmc_queue.h:74-100 | the run in which a push has returned, nothing is taken, and a later pop returns false; every FIFO history containing that push and no pop ends non-empty |
| `RingTheorems.SizeIsSound` | src/mpmc_queue.h:103-109 | `size_approx` never exceeds the capacity; it is zero iff every position claimed at its tail load was taken at its head load |
| `RingTheorems.BoundedIffCapacityAtLeastTwo` | src/mpmc_queue.h:20-21 | among admitted capacities the queue is bounded in all runs iff the capacity is at least two; the failing run at capacity one |
| `RingWord.SignedDiffIsExactIff` | src/mpmc_queue.h:52 | the two's complement difference of wrapped positions is the true one iff that fits a signed word |
| `RingWord.MaskOfWord` | src/mpmc_queue.h:50 | masking the wrapped word gives the true position modulo the capacity |
| `RingWord.MachineRefinesStepIff` | src/mpmc_queue.h:46-109 | a 64-bit step is the wrapped unbounded step iff no stale position confuses its comparison |
| `RingWord.WrappedSizeIff` | src/mpmc_queue.h:103-106 | the unsigned size computation is right iff both loads lie in one wrap-around epoch, or the head has overtaken without dropping below |
| `RingWord.MachineRefinesRun` | src/mpmc_queue.h:46-109 | whole runs agree, through any number of wrap-arounds, while every stepping thread lags by less than 2^63 - C |
| `MpmcQueueClass.RestingRingIsQuiet` | src/mpmc_queue.h:35-100 | any run with nothing in flight leaves the state in which the class form starts |
| `MpmcQueueClass.PushSteps` | src/mpmc_queue.h:54-60 | claim, write and publish lead from a resting ring to a resting ring with the item behind the others |
| `MpmcQueueClass.PopSteps` | src/mpmc_queue.h:83-89 | claim, read and release likewise, and the item read is the oldest |
| `MpmcQueueClass.MpmcQueue.constructor` | src/mpmc_queue.h:35-39 | slot i starts with sequence number i: an empty valid queue |
| `MpmcQueueClass.MpmcQueue.TryPush` | src/mpmc_queue.h:46-71 | succeeds iff not full, and appends; otherwise nothing changes |
| `MpmcQueueClass.MpmcQueue.TryPop` | src/mpmc_queue.h:74-100 | gives the oldest item and removes it; None iff empty |
| `MpmcQueueClass.MpmcQueue.SizeApprox` | src/mpmc_queue.h:103-106 | for a single caller the exact number of items |
| `Pool.ExecKeepsInv` | src/objectpool_lockfree.h:45-96 | with one acquirer every step keeps the list linked and duplicate-free, every live node with one owner, and the corrected count |
| `PoolTheorems.RunsAreStack` | src/objectpool_lockfree.h:76-96 | the compare-exchanges are atomic pushes and pops of a LIFO list that the links spell out |
| `PoolTheorems.EveryNodeHasOneOwner` | src/objectpool_lockfree.h:45-69 | a live node is on the list, with its caller, or carried by exactly one running call |
| `PoolTheorems.PopReadsLiveNodes` | src/objectpool_lockfree.h:85-88 | `popFree` never reads the link of a deleted node or of one another call is about to write |
| `PoolTheorems.CountIsConserved` | src/objectpool_lockfree.h:45-73 | `m_allocated`, corrected for updates in flight, is the number of live nodes; at rest it is free plus held |
| `PoolCalls.AcquireDecides` | src/objectpool_lockfree.h:45-54 | `acquire` allocates only after finding the list empty, and hands out one node no caller had: the top, or the new one, which is counted |
| `PoolCalls.ReleaseDecides` | src/objectpool_lockfree.h:56-69 | the node passed is deleted and uncounted iff the pool held more than its limit when the call looked; otherwise it ends on top of the list |
| `PoolCalls.FreeListIsBounded` | src/objectpool_lockfree.h:56-69 | in every run the free list holds at most as many nodes as the limit, or as the pool was built with |
| `PoolCalls.UnlimitedKeepsAll` | src/objectpool_lockfree.h:59-64 | a pool without a limit deletes no node |
| `PoolTheorems.TwoAcquirersClash` | src/objectpool_lockfree.h:85-96 | the A-B-A run: with two acquirers a held node is put on the list |
| `PoolTheorems.SafeIffSingleAcquirer` | src/objectpool_lockfree.h:45-96 | no node is ever free and handed out at once, in any run, iff at most one thread acquires |
| `ObjectPoolClass.ObjectPool.constructor` | src/objectpool_lockfree.h:24-31 | the initial nodes are all free, linked, and counted |
| `ObjectPoolClass.ObjectPool.PushFree` | src/objectpool_lockfree.h:76-83 | puts the node on top of the linked list, whatever spurious failures |
| `ObjectPoolClass.ObjectPool.PopFree` | src/objectpool_lockfree.h:85-96 | takes the top node, or null iff there is none |
| `ObjectPoolClass.ObjectPool.Acquire` | src/objectpool_lockfree.h:45-54 | the node released last or a new one, never one that is held |
| `ObjectPoolClass.ObjectPool.Release` | src/objectpool_lockfree.h:56-69 | back on top, or deleted and uncounted when over the limit; null is ignored |
| `ObjectPoolClass.Payload.Release` | src/payload_refcounted.h:50-55 | the payload is deleted iff the count was one |
| `ObjectPoolClass.CreateFor` | src/eventqueue_fast.h:132-134 | a new payload with one reference for each observer |
| `FastQueueClass.FastQueue.constructor` | src/eventqueue_fast.h:71-85 | an empty valid queue over a new ring and a new pool |
| `FastQueueClass.FastQueue.AddObserver` | src/eventqueue_fast.h:92-105 | accepted iff the topic exists and has fewer than 16 observers, and then last |
| `FastQueueClass.FastQueue.Compose` | src/eventqueue_fast.h:119-135 | the message holds header, snapshot and bytes, a large payload alive with one reference for each observer |
| `FastQueueClass.FastQueue.Post` | src/eventqueue_fast.h:108-142 | refused iff the topic does not exist; queued behind the others iff anybody listens and there is room; nobody else's message, node or payload is disturbed |
| `FastQueueClass.FastQueue.CallObservers` | src/eventqueue_fast.h:160-170 | each observer of the snapshot is called once, in order, with the posted bytes while the payload lives; the last call deletes it |
| `FastQueueClass.FastQueue.DispatchOne` | src/eventqueue_fast.h:155-174 | the oldest post's callbacks; its payload is deleted; its node goes on top of the free list, or is deleted and uncounted when over the limit; false iff nothing is queued |
| `FastQueueClass.FastQueue.DispatchAll` | src/eventqueue_fast.h:184-189 | terminates with nothing queued: all posts' callbacks, oldest first, and their number |
| `Lifecycle.ExecKeepsInv` | src/eventqueue_fast.h:108-174 | every step of posting and dispatching keeps each message with one holder, complete before it is queued, and its count equal to its outstanding callbacks |
| `Lifecycle.CallbackSeesData` | src/eventqueue_fast.h:160-170 | at a callback the payload is alive and the observer, topic and bytes are those of its post record; what the record has to do with the call is `DeliveryCalls.EveryCallIsDelivered` |
| `Delivery.ExecKeepsInv` | src/eventqueue_fast.h:138-157 | every step over the real ring keeps the coupling: the queue of the life cycle is the ring's contents, and each ring call stands where its caller does |
| `Delivery.AfterInv` | src/eventqueue_fast.h:86-189 | so do all runs |
| `DeliveryTheorems.EveryPostIsDelivered` | src/eventqueue_fast.h:108-189 | any posters and dispatchers: each post record has called a prefix of its snapshot, each observer once, with its topic and bytes; when nothing is left to do all of it, and its payload was deleted once |
| `DeliveryCalls.EveryCallIsDelivered` | src/eventqueue_fast.h:108-174 | any posters and dispatchers: the topics and bytes a thread passed to `post`, for topics with observers, are those of its records, in order, but for a call without a node yet; each record has called a prefix of the topic's observers in order with that topic and those bytes, and all of them when nothing is left to do |
| `DeliveryCalls.EveryPooledCallIsDelivered` | src/eventqueue_fast.h:108-174 | the same over the real pool, if at most one of the threads posts |
| `DeliveryTheorems.PoppedMessageIsComplete` | src/eventqueue_fast.h:155-161 | the popped pointer is a complete message nobody else has, undelivered, with one reference for each observer |
| `DeliveryTheorems.PayloadOutlivesItsCallbacks` | src/eventqueue_fast.h:164-170 | before callback i the payload is alive, holds the bytes of its post record, and counts the observers from i on |
| `DeliveryTheorems.LivePayloadsAreOwed` | src/payload_refcounted.h:34-60 | every live payload belongs to one unfinished post and counts its outstanding callbacks, at least one |
| `DeliveryProgress.NoCallSticks` | src/eventqueue_fast.h:108-174 | in every reachable state each thread inside `post` or `dispatchOne` has a step to another place: no call waits for another, except by asking again while the ring refuses its push |
| `DeliveryProgress.DeliveryCanComplete` | src/eventqueue_fast.h:108-189 | from every reachable state in which some thread is not posting, whatever the others are in the middle of, steps without a new post lead to a state with every post complete, its payload deleted once, and nothing queued |
| `PooledDelivery.RunRefinesDelivery` | src/eventqueue_fast.h:118-172 | from a state of the invariant, which one poster keeps, a run over the real pool, which hands out what its list holds, is a run over the atomic pool, which only hands out free nodes |
| `PooledDelivery.ExecKeepsInv` | src/objectpool_lockfree.h:45-96 | every step keeps the pool's owner of each node in agreement with the message path's use of it |
| `PooledDelivery.NodesInUseAreNotPooled` | src/objectpool_lockfree.h:45-69 | a node in use is never free nor in another call's release, and the node about to be acquired is not in use |
| `PooledDelivery.EveryPostIsDelivered` | src/eventqueue_fast.h:108-189 | over the real pool, if at most one thread posts: each post record has called a prefix of its snapshot with its topic and bytes, and all of it once nothing is left to do |
| `PooledClash.TwoPostersClash` | src/objectpool_lockfree.h:85-96 | with two posters, for any ring and pool of at least two nodes and any topic with observers: the run in which a node is queued twice and observers are called again for a post all of them have been called for |
| `PooledClash.DeliveredIffOnePoster` | src/eventqueue_fast.h:108-174 | end-to-end delivery over the real pool holds in all runs iff at most one of the threads posts |
| `Observers.EraseKeepsTheRest` | src/eventqueue.cpp:151-166 | a removal loop keeps exactly the descriptors that do not match, an id removal included because ids are distinct |
| `Observers.EraseByFields` | src/eventqueue.cpp:151-244 | what stays is, in the old order, exactly the descriptors with another callback, with another instance or another method, or with another id |
| `Observers.EraseKeepsOrder` | src/eventqueue.cpp:188-203 | and keeps them in registration order |
| `Removal.ExecKeepsInv` | src/eventqueue.cpp:107-515 | every step keeps the locks, the counter, the flags, the ids and the vectors consistent |
| `RemovalTheorems.RemovalContract` | src/eventqueue.cpp:140-253 | once a removal issued outside a dispatch has returned, no removed handler runs or starts, and none is registered, in any continuation |
| `RemovalTheorems.RemovalTakesTheMatches` | src/eventqueue.cpp:177-208 | of the topic's vector the descriptors with another callback, instance or method, or id stay, in order; the ids the contract covers are those of the others; other topics keep theirs |
| `RemovalCalls.DispatchRunsTheRegistered` | src/eventqueue.cpp:405-456 | a call of `Dispatch` starts the handlers of the observers in the requested topic's vector when it was copied, each once, in order, and all of them by its end |
| `RemovalCalls.CallsTakeEffect` | src/eventqueue.cpp:107-253 | a returned call has touched the vector or the message queue iff it asked for something: a valid topic to add to, an id other than 0 to remove |
| `RemovalCalls.AddTakesEffect` | src/eventqueue.cpp:107-138 | the observer passed becomes the last of the requested topic's vector under an id no vector holds; other topics keep theirs |
| `RemovalCalls.RemovalTakesEffect` | src/eventqueue.cpp:140-253 | the requested topic's vector keeps exactly the descriptors the arguments of the call do not name, in order |
| `RemovalCalls.RemovalContractForCalls` | src/eventqueue.cpp:140-253 | once a removal called outside a dispatch has returned, no handler of a descriptor its arguments named, in the vector as the call found it, runs, starts or is registered in any continuation |
| `RemovalCalls.PostTakesEffect` | src/eventqueue.cpp:354-367 | the message passed goes to the back of the message queue |
| `RemovalTheorems.CounterIsExact` | src/eventqueue.cpp:477-497 | `m_activeDispatches` is the number of threads between activation and completion |
| `RemovalTheorems.NoLostWakeup` | src/eventqueue.cpp:487-515 | a parked, unnotified remover has an active dispatch to wait for, or the last one is notifying now |
| `RemovalTheorems.NoDeadlock` | src/eventqueue.cpp:405-515 | in every reachable state with an unfinished call some thread can step |
| `RemovalTheorems.RemovalInsideHandler` | src/eventqueue.cpp:508-512 | the run in which a handler removes an observer whose handler is still called afterwards |
| `RemovalTheorems.ContractIffOutside` | src/eventqueue.cpp:499-515 | the contract holds for all removals iff they are not issued from inside a dispatch of their thread |
| `RemovalProgress.StepDecreasesMeasure` | src/eventqueue.cpp:405-515 | every enabled step brings the calls in progress strictly closer to completion |
| `RemovalProgress.EveryCallReturns` | src/eventqueue.cpp:405-515 | every schedule takes boundedly many steps, and when none is left every call has returned |
| `EventQueueClass.EraseMatching` | src/eventqueue.cpp:223-244 | the erase loop keeps, in order, the descriptors with another callback, instance or method, or id |
| `EventQueueClass.CallsByIndex` | src/eventqueue.cpp:439-454 | descriptors with something to call are called once each, in order: the callback before the method, the method before the function object |
| `EventQueueRequests.RequestsQueueInOrder` | src/eventqueue.cpp:354-367 | each valid post of a handler puts one new message with what was posted behind the others, in order; nothing else enters or leaves the queue |
| `EventQueueRequests.RequestsDecideRegistration` | src/eventqueue.cpp:107-253 | after any requests an observer is registered iff it was, or one of them added it, and none removed it afterwards; ids are given out in order |
| `EventQueueRequests.ScriptInOrder` | src/eventqueue.cpp:439-454 | the handlers' requests are made one handler after the other, in the order of the calls |
| `EventQueueClass.RequestsKeepMessages` | src/eventqueue.cpp:354-367 | whatever handlers ask for, the message being delivered stays as it was |
| `EventQueueClass.RequestsQueueOthers` | src/eventqueue.cpp:354-402 | and is never queued again |
| `EventQueueClass.EventQueue.AddObserver` | src/eventqueue.cpp:107-138 | a fresh id, the observer last in its topic's vector, 0 and no change for an invalid topic |
| `EventQueueClass.EventQueue.RemoveObserver` | src/eventqueue.cpp:140-253 | the descriptors with the given callback, instance and method, or id leave the topic's vector, the others stay in order, and nothing else changes |
| `EventQueueClass.EventQueue.Post` | src/eventqueue.cpp:354-367 | a new message at the back; nothing for an invalid topic |
| `EventQueueClass.EventQueue.GetQueueMessage` | src/eventqueue.cpp:390-402 | the front message or null |
| `EventQueueClass.EventQueue.Dispatch` | src/eventqueue.cpp:405-468 | call k is that of the k-th observer registered when it began, among those with something to call, with the topic and the message, and there are no others, whatever handlers add, remove or post; then the message is deleted, and its payload exactly when flagged |
| `Schedules.ScheduleServesBothInOrder` | src/eventqueue_emulator.h:282-312 | the ratio schedule serves both queues completely, each first in first out |
| `Schedules.FastBeforeBulk` | src/eventqueue_emulator.h:282-312 | exactly min(f, (k + 1) * N) fast messages, the oldest, come before bulk message k counted from 0, for every N including 0 |
| `Schedules.ScheduleExtremes` | src/eventqueue_emulator.h:267-279 | a ratio covering the fast queue gives the order of `dispatchAll`; ratio 0 serves the bulk queue first |
| `EmulatorClass.Emulator.RegisterTopic` | src/eventqueue_emulator.h:104-112 | the next id, or the invalid id with the count rolled back at 256 |
| `EmulatorClass.Emulator.AddObserver` | src/eventqueue_emulator.h:114-127 | accepted iff the topic exists and has fewer than 8 observers, and then last |
| `EmulatorClass.Emulator.PostFast` | src/eventqueue_emulator.h:130-153 | refused iff the topic does not exist or the payload exceeds 48 bytes; else queued with the snapshot iff anybody listens, spinning iff there is no room for it |
| `EmulatorClass.Emulator.PostBulk` | src/eventqueue_emulator.h:168-199 | refused iff the topic does not exist; else queued iff anybody listens, the payload inline or counted once for each observer; spinning iff there is no room |
| `EmulatorClass.Emulator.Post` | src/eventqueue_emulator.h:202-212 | routed by priority; a large payload on a critical topic is refused |
| `EmulatorClass.Emulator.DispatchFast` | src/eventqueue_emulator.h:215-227 | the oldest fast message's callbacks, in order |
| `EmulatorClass.Emulator.DispatchBulk` | src/eventqueue_emulator.h:230-248 | the oldest bulk message's callbacks, its payload deleted once after the last |
| `EmulatorClass.Emulator.DispatchPriority` | src/eventqueue_emulator.h:252-264 | all fast messages, then at most one bulk message, and their number |
| `EmulatorClass.Emulator.DispatchAll` | src/eventqueue_emulator.h:267-279 | all fast, then all bulk messages, and their number |
| `EmulatorClass.Emulator.DispatchRatio` | src/eventqueue_emulator.h:282-312 | with nothing posted meanwhile: terminates with both queues empty, in the order of the ratio schedule, and returns the number served |
| `Fairness.ExecKeepsInv` | src/eventqueue_emulator.h:282-312 | every step of the loop and of other threads keeps the fast streak bounded |
| `Fairness.BulkWaitIsBounded` | src/eventqueue_emulator.h:282-312 | from any moment the bulk head is published, the call takes at most max(N, 1) fast messages before that message is taken, under all interleavings |
| `FairnessProgress.BulkIsReached` | src/eventqueue_emulator.h:282-312 | while the bulk head is published and untaken, the call takes at most 8 N + 15 steps, two for each spurious failure and three for each fast message another dispatcher takes; it returns before only if it had looked for a bulk message in vain |
| `FairnessProgress.CountIsTaken` | src/eventqueue_emulator.h:282-312 | what the call returns is the number of messages it took, under all interleavings |
| `MessageCenter.ExecKeepsInv` | src/messagecenter_fast.h:109-258 | every step of posters, dispatch thread and control thread keeps positions, deliveries and counters in agreement |
| `MessageCenter.Conservation` | src/messagecenter_fast.h:172-258 | accepted and uncounted plus `m_posted` equals `m_dispatched` plus queued plus the one in hand; the deliveries are the accepted messages in order |
| `MessageCenter.AcceptedMeansInserted` | src/messagecenter_fast.h:194-202 | a post about to be counted owns a position holding its message, shared with no other post |
| `MessageCenterCalls.CallsReturnWhatHappened` | src/messagecenter_fast.h:172-203 | each call returns once, in order; the messages of a thread's calls that returned true, and of a running one that has claimed, are exactly those at the positions it owns, in order; `m_posted` is the number of calls that returned true |
| `MessageCenterCalls.ResultIff` | src/messagecenter_fast.h:173-202 | false iff the topic id is out of range or `try_push` returned false; true iff `try_push` returned true |
| `MessageCenterCalls.DeliveredWerePosted` | src/messagecenter_fast.h:172-258 | at any time what the observers were given of a thread's messages is a prefix, in order, of those whose calls returned true or are about to |
| `MessageCenterCalls.PostGoesOn` | src/messagecenter_fast.h:172-203 | a thread inside `post` has a step to another place: it waits for nobody |
| `MessageCenterLoop.StartRuns` | src/messagecenter_fast.h:109-115 | `start` sets the dispatch thread to work |
| `MessageCenterLoop.PublishedIsDelivered` | src/messagecenter_fast.h:226-258 | with the oldest message published or in its hands, the dispatch thread gives the observers a further message within eight of its steps and two for each spurious failure, whatever posters do |
| `MessageCenter.StopDrains` | src/messagecenter_fast.h:117-132 | if all posts have returned before `stop` and none begins, then afterwards the queue is empty, every inserted message was delivered exactly once, in order, and the counters agree |
| `MessageCenterCalls.StopDeliversAccepted` | src/messagecenter_fast.h:117-132 | then, too, what was delivered are exactly the messages passed to the calls of `post` that returned true, each once, those of one thread in the order of its calls |
| `MessageCenterStop.StopReturns` | src/messagecenter_fast.h:117-132 | from any reachable state with the stop flag stored, however posting goes on: after seven steps of the dispatch thread for each message queued then or accepted since, seven more and two for each spurious failure it has left its loop, and `stop` returns |
| `MessageCenterStop.StopReturnsDrained` | src/messagecenter_fast.h:226-258 | with all posts returned and none beginning, `stop` has then returned with everything inserted delivered exactly once, in order, and the counters equal |
| `MessageCenterCalls.StopReturnsDeliversAccepted` | src/messagecenter_fast.h:117-132 | and what was delivered are exactly the messages passed to the calls that returned true |
| `MessageCenter.DrainEndsIff` | src/messagecenter_fast.h:250-257 | the drain loop ends iff the queue is empty or the post of the oldest accepted message is still in progress: what is left behind, and when |
| `BatchPosting.ExecKeepsInv` | src/eventqueue_batch.h:142-186 | every step of every thread keeps the buffers in bounds and flushed-then-buffered equal to accepted |
| `BatchPosting.FlushedThenBuffered` | src/eventqueue_batch.h:142-186 | the buffer is never indexed past 32, and what a thread flushed followed by what it buffers is what it had accepted, in call order, under all interleavings |
| `BatchCalls.PostedIsFlushedOrBuffered` | src/eventqueue_batch.h:107-186 | what a thread flushed, then what it buffers, then the message it is appending are the messages it passed to `postBatched`, in call order; its direct pushes are those it passed to `post`, in the queues it passed them to |
| `BatchPosting.FlushRoutesIff` | src/eventqueue_batch.h:179-186 | a finished flush put its messages into the queues they were posted through iff all were posted through the flushed one |
| `BatchRouting.RoutedIffOneInstance` | src/eventqueue_batch.h:142-186 | in all runs of a program every message goes to the queue it was posted through iff no thread that posts batched messages through one instance posts them through, or flushes, another |
| `BatchRouting.Misroutes` | src/eventqueue_batch.h:76-81 | for every thread using two instances a run that misroutes, by an explicit flush or by the post that fills the buffer |
| `BatchPosting.SharedBufferMisroutes` | src/eventqueue_batch.h:76-81 | the run in which a message posted through one queue ends up in another |
| `BatchDispatch.BatchRefinesOnes` | src/eventqueue_batch.h:198-254 | popping k messages, delivering all, releasing all equals k single dispatches: callbacks, payload deletions, counts, queue, free list order, allocation count |
| `BatchDispatch.ReleaseThenDeliver` | src/eventqueue_batch.h:233-251 | returning one node and delivering another commute |
| `BatchDispatch.BatchQueue.DispatchOne` | src/eventqueue_batch.h:198-216 | for a queue of counted messages: observer k of the oldest is called k-th, with the posted bytes, then its payload is deleted, no other payload changes, and its node goes on top of the free list or, over 16384, is deleted; false and no change iff the queue is empty |
| `BatchDispatch.BatchQueue.DispatchBatch` | src/eventqueue_batch.h:219-254 | the result of min(m, 32, queue length) calls of `dispatchOne`, and that number: for a queue of counted messages the events of each of the first, message by message, exactly their payloads deleted, and their nodes deleted or on the free list, the last on top |

## Left out

- Weak memory: acquire, release and relaxed accesses are interleaved atomic steps.
- Safety of the pool with several acquiring threads does not hold, as proved; `Delivery` shows what the rest of the message path gives over an atomic pool for several posters.
- `FastQueueClass.FastQueue.Post`: with a single caller a post to a full queue would never return; it ends in the outcome `Spinning`. That it goes on once another thread has taken a message is in `Delivery`, whose `post` has the same loop.
- `DeliveryTheorems.EveryPostIsDelivered`: completeness is for states with nothing left to do; that they can be reached is `DeliveryProgress.DeliveryCanComplete`. That a scheduler does reach them needs fairness, which is not modelled.
- Overflow of reference counts, allocation counts, observer ids and message counters.
- `EventQueueBroadcast`, which reads the observer list again at dispatch, and the mutex-based `ObjectPool`.
- Topic names and registries, `ClearTopics`, and topic id 0 in `GetTopicByID`.
- `Lifecycle.ExecKeepsInv`: observers are given before the run, as `src/eventqueue_fast.h:20` demands, and the result of `post` is not recorded; loads of the topic's observer count and copies of observers or bytes are one step each, because nobody writes them while threads post.
- Null payloads after a failed allocation, and null data with a non-zero size.
- `Removal.ExecKeepsInv`: `Post` is one step, as it holds only its own mutex; message queue contents are in `EventQueueClass`; nested `Dispatch` on one thread and removal from another queue's handler are not modelled, as the dispatch flag is one per thread.
- `RemovalProgress.EveryCallReturns`: counts steps without spurious wake-ups, and handlers make finitely many requests.
- `EmulatorClass.Emulator.PostFast`: a post to a full queue is left spinning, as for `FastQueueClass.FastQueue.Post`; the message pool is not modelled here, but in `ObjectPoolClass` and `Pool`.
- `EmulatorClass.Emulator.PostBulk`: the same.
- `EmulatorClass.Emulator.Post`: the same.
- `EmulatorClass.Emulator.DispatchFast`: the return of the node to its pool is not modelled here, but in `FastQueueClass.FastQueue.DispatchOne`, where it is the same call.
- `EmulatorClass.Emulator.DispatchBulk`: the same.
- `EmulatorClass.Emulator.DispatchRatio`: handlers do not post here; `Fairness` lets everybody post.
- `MessageCenter.ExecKeepsInv`: a message's observer loop is one step, as it holds the observer mutex; the timed wait may end at any time; one thread calls `start` and `stop`; the message pool is atomic.
- `flush` with its timeout, and `pending`, which subtracts two counters read at different times.
- `BatchPosting.ExecKeepsInv`: the queue is its sequence of successful pushes, each refused any number of times before; `RingTheorems.RunsAreFifo` justifies it.
- `ObjectPoolClass.ObjectPool.Release`: demands a node the caller holds, as releasing a node twice is a caller's error.
- Destructors, memory layout, alignment, unions, singletons, thread naming, debug dumps and platform code.
