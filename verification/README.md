# Verified model of the openYuanrong client runtime

This project models the parts of openYuanrong whose correctness does not show from reading one function: the
client's ordered invocation and the instance's ordered execution, waiting for objects under concurrent scans, the
dependency countdown, the LRU cache, and the self-contained algorithms around them. Each module is one component.

| file | component |
|---|---|
| `InvokeOrder.dfy` | sequence numbers and the low watermark kept by the sender (`InvokeOrderManager`) |
| `OrderedDelivery.dfy` | that sender, a network that delays, repeats and drops, and `OrderedExecutionManager` at the instance |
| `WaitingObjects.dfy`, `WaitRounds.dfy` | entities, one round of waiting, the loop over rounds (`WaitingObjectManager`) |
| `WaitingProtocol.dfy` | any number of waiters against the memory store, every critical section a step |
| `DependencyResolver.dfy` | countdown of a request's dependencies, callbacks in any order |
| `LruCache.dfy` | the LRU list and its map of iterators |
| `ArgInlining.dfy` | which arguments travel inside the request |
| `ParallelCopy.dfy` | the six-thread block copy |
| `SoPruning.dfy` | removal of duplicate shared libraries at packaging time |
| `ThreadPool.dfy` | the job queue, its workers, and writing off a stuck worker |
| `RequestIds.dfy` | ids of attempts and of return objects, the stale-notification filter |
| `ResourceKey.dfy` | equality and hash of the key under which instances are pooled |
| `CjkSegmenter.dfy` | the documentation search's query splitter |
| `Options.dfy`, `Sets.dfy` | the optional value and the facts about set sizes that the others share |

Objects whose methods update fields are classes, loops are loops with invariants, and each method's contract
equates the new state with a pure function of the old one (or states the property outright). The theorems are about
those functions: protocols are step functions `Next` and runs `Exec`, in which a step that is not enabled changes
nothing, so a statement about all step sequences is a statement about all interleavings.

Where the code does not meet what its name or documentation promises, the model follows the code; a lemma exhibits
the failing case and another states exactly when the code is right:

- A client that gives up on a request the instance still holds back moves the watermark past it; the instance then
  holds everything back for good (`OrderedDelivery.AbandonCanBlock`, `OrderedDelivery.BlockedForever`). In every run it
  is blocked exactly when some delivered message skipped a request held back at that moment
  (`OrderedDelivery.BlockedIffSkipped`).
- One waiter's scan can drop another waiter's subscription, and a sleeper that has lost too many is not woken in any
  continuation (`WaitingProtocol.SubscriptionCanBeLost`, `WaitingProtocol.NeverWoken`, exactly `WaitingProtocol.WokenIff`). A subscription is lost exactly
  by such a scan, and for good (`WaitingProtocol.LostIffDropped`, `WaitingProtocol.LostStaysLost`); rescanning makes up
  for it (`WaitingProtocol.RescanFindsAll`).
- Notifying a group instance a second time moves the watermark past an unfinished request
  (`InvokeOrder.SecondNotifyPasses`). A notification leaves the state its history calls for exactly when the watermark
  is at 0 and number 1 is not already held (`InvokeOrder.NotifyRefinesIff`).
- A request can report success although the store records an error for one of its objects
  (`DependencyResolver.EarlySuccessCanMiss`). A callback is let go with success before its object is settled exactly
  when it is registered while the object is missing, or stored but not settled (`DependencyResolver.ReleasedGoodIff`);
  all other objects of such a request are settled without error (`DependencyResolver.SuccessIsRecorded`).
- A call that writes off the worker stuck in a request looks the worker up in one critical section and removes it in
  another; a worker that finished in between is written off idle (`ThreadPool.IdleWorkerWrittenOff`). The worker removed
  is running the request exactly when the request is still tracked, which the second section does not look at
  (`ThreadPool.WritesOffTheRunner`).
- The parallel copy is laid out properly exactly when a block boundary lies within the source
  (`ParallelCopy.LaidOutWellIff`); otherwise its head alone is longer than the block.
- Attempt numbers and return-object indices are eight bits wide (`RequestIds.OnlyCurrentAccepted`,
  `RequestIds.AttemptsWrapAround`, `RequestIds.ReturnIdsDistinctIff`).
- Keys that are equal only within the float tolerance can hash apart (`ResourceKey.EqualHashIff`,
  `ResourceKey.ToleranceBreaksHash`). That equality is not transitive (`ResourceKey.KeysNotTransitive`): two steps make
  one exactly when no custom value of the first key is apart from the third's (`ResourceKey.TransitiveIff`).

## Model

| member | source | states |
|---|---|---|
| InvokeOrder.RunRefinesHistory | src/libruntime/invoke_order_manager.cpp:31-264 | After every legal run of creations, registrations, invokes, finishes and removals, each instance's state is the canonical one for its history: the watermark is the least number not finished, the set holds exactly the finished numbers above it. |
| InvokeOrder.FinishRefines | src/libruntime/invoke_order_manager.cpp:244-264 | A finish, with its drain loop, takes the canonical state of a history to that of the history with one more finish, duplicates and old numbers included. |
| InvokeOrder.DrainIsCanonical | src/libruntime/invoke_order_manager.cpp:252-260 | Draining from any point below the least missing number ends exactly there, with nothing but larger numbers left. |
| InvokeOrder.OrderOfFinishesIrrelevant | src/libruntime/invoke_order_manager.cpp:244-264 | Two runs that leave the same history for an instance leave the same state, whatever the order of finishes. |
| InvokeOrder.FinishesConserved | src/libruntime/invoke_order_manager.cpp:244-264 | Distinct finishes from the base on equal the watermark's advance plus the size of the set; finishes below the base count for nothing. |
| InvokeOrder.QuiescentWhenAllDone | src/libruntime/invoke_order_manager.cpp:152-181 | When all issued requests are finished the set is empty and the watermark equals the counter. |
| InvokeOrder.WatermarkSafe | src/libruntime/invoke_order_manager.cpp:183-203 | In every run the watermark does not go back while the instance is not forgotten, and in every legal run it does not pass a number that is not done. |
| InvokeOrder.MoreDoneIsFurther | src/libruntime/invoke_order_manager.cpp:244-264 | More finishes never lower the watermark, and it is at most any number not done. |
| InvokeOrder.NotifyIsFinishZeroIff | src/libruntime/invoke_order_manager.cpp:71-79 | Group notification, which increments without draining, equals the finish of number 0 exactly when the watermark is at 0 and number 1 is not already held. |
| InvokeOrder.NotifyRefinesIff | src/libruntime/invoke_order_manager.cpp:71-79 | Group notification leaves the canonical state of the history with number 0 finished exactly when the watermark is at 0 and number 1 is not already held. |
| InvokeOrder.SecondNotifyPasses | src/libruntime/invoke_order_manager.cpp:71-79 | A group notified twice has its watermark past request 1, which was issued and is not done. |
| InvokeOrder.LeastMissingUnique | src/libruntime/invoke_order_manager.cpp:244-264 | The least missing number is characterised by being missing with nothing missing below it. |
| InvokeOrder.InvokeOrderManager.CreateInstance | src/libruntime/invoke_order_manager.cpp:31-53 | The table changes as the creation event says, and the spec gets its sequence number. |
| InvokeOrder.InvokeOrderManager.CreateGroupInstance | src/libruntime/invoke_order_manager.cpp:55-69 | The table changes as the group creation event says. |
| InvokeOrder.InvokeOrderManager.NotifyGroupInstance | src/libruntime/invoke_order_manager.cpp:71-79 | The table changes as the notification event says. |
| InvokeOrder.InvokeOrderManager.RemoveGroupInstance | src/libruntime/invoke_order_manager.cpp:81-88 | The instance and no other is forgotten. |
| InvokeOrder.InvokeOrderManager.RegisterInstance | src/libruntime/invoke_order_manager.cpp:90-102 | The table changes as the registration event says; a known instance keeps its state. |
| InvokeOrder.InvokeOrderManager.RegisterInstanceAndUpdateOrder | src/libruntime/invoke_order_manager.cpp:104-130 | The same for registration with restored order. |
| InvokeOrder.InvokeOrderManager.RemoveInstance | src/libruntime/invoke_order_manager.cpp:132-150 | The ordered instance of the spec is forgotten. |
| InvokeOrder.InvokeOrderManager.Invoke | src/libruntime/invoke_order_manager.cpp:152-181 | The spec gets the counter's value and the counter goes up by one. |
| InvokeOrder.InvokeOrderManager.UpdateUnfinishedSeq | src/libruntime/invoke_order_manager.cpp:183-203 | The spec gets the current watermark. |
| InvokeOrder.InvokeOrderManager.ClearInsOrderMsg | src/libruntime/invoke_order_manager.cpp:205-224 | Which signals forget one instance, which forget all, which none. |
| InvokeOrder.InvokeOrderManager.NotifyInvokeSuccess | src/libruntime/invoke_order_manager.cpp:226-242 | The table changes by the finish of the spec's own number, under the id its kind of request is ordered by. |
| InvokeOrder.InvokeOrderManager.UpdateFinishReqSeqNo | src/libruntime/invoke_order_manager.cpp:244-264 | The loop leaves the state that `FinishOrdering` gives. |
| OrderedDelivery.OrderedExactlyOnce | src/libruntime/invokeadaptor/ordered_execution_manager.cpp:23-71 | In every run without abandonment, over a network that delays, repeats, reorders and drops, the instance's log is the base and its successors, each once, in order and without a gap; as soon as every issued request was delivered at least once, all are executed and none waits. |
| OrderedDelivery.RunIsSafe | src/libruntime/libruntime.cpp:548-568 | Every run keeps the client's and the instance's safety invariants. |
| OrderedDelivery.RunIsGapFree | src/libruntime/invokeadaptor/ordered_execution_manager.cpp:23-71 | Every run without abandonment keeps the log free of gaps and the watermark behind the instance. |
| OrderedDelivery.DispatchSafety | src/libruntime/libruntime.cpp:548-568 | In every run each message sent carries a watermark no greater than its own number, and everything below that watermark is acknowledged or abandoned. |
| OrderedDelivery.InOrderAtMostOnce | src/libruntime/invokeadaptor/ordered_execution_manager.cpp:23-71 | In every run, abandonment included, the log's numbers strictly increase. |
| OrderedDelivery.WatermarkBehindInstance | src/libruntime/invoke_order_manager.cpp:183-203 | While nothing is abandoned the sender's watermark does not pass what the instance has taken. |
| OrderedDelivery.TakeReadySpec | src/libruntime/invokeadaptor/ordered_execution_manager.cpp:51-70 | The loop takes the maximal run of consecutive numbers from the next one, in order, and leaves exactly the rest waiting. |
| OrderedDelivery.HandleBlocksIff | src/libruntime/invokeadaptor/ordered_execution_manager.cpp:42-70 | From a settled invoker, handling a message leaves it blocked exactly when the message's watermark passes a number that is held back. |
| OrderedDelivery.BlockedIffSkipped | src/libruntime/invokeadaptor/ordered_execution_manager.cpp:42-70 | In every run, with abandonment or without, the instance is blocked exactly when some message delivered before claimed that a request then held back need not be waited for; otherwise nothing executable is held back. |
| OrderedDelivery.BlockedForever | src/libruntime/invokeadaptor/ordered_execution_manager.cpp:46-70 | A blocked invoker takes nothing from any later sequence of messages. |
| OrderedDelivery.AbandonCanBlock | src/libruntime/invokeadaptor/invoke_adaptor.cpp:1662-1690 | A concrete run in which giving up on a held-back request blocks the instance. |
| OrderedDelivery.OrderedExecutionManager.Handle | src/libruntime/invokeadaptor/ordered_execution_manager.cpp:23-71 | The loop computes the outcome of the pure handling function for that invoker and touches no other. |
| OrderedDelivery.OrderedExecutionManager.CancelInsFunction | src/libruntime/invokeadaptor/ordered_execution_manager.cpp:83-104 | Succeeds exactly for a known invoker, and then marks the request cancelled. |
| WaitingObjects.PromiseSetOnce | src/libruntime/waiting_object_manager.cpp:53-74 | Over any deliveries the promise is set exactly when their number reaches the threshold, and never again. |
| WaitingObjects.SortAllSpec | src/libruntime/waiting_object_manager.cpp:161-183 | A scan puts each id once into the part of its verdict; the exceptions are those carried over and those judged bad. |
| WaitingObjects.ImmediatePartitionIff | src/libruntime/waiting_object_manager.cpp:142-194 | The three parts after a scan partition the ids exactly when every carried exception is of a waited-for id that this scan judges bad again. |
| WaitingObjects.AllFailedPartitionIff | src/libruntime/waiting_object_manager.cpp:151-160 | Without a memory store every id fails, a partition exactly when only waited-for ids are carried. |
| WaitingObjects.LeftoverSpec | src/libruntime/waiting_object_manager.cpp:195-212 | The unready part after waking is what is in neither of the others, in order. |
| WaitingObjects.PartitionSize | src/libruntime/waiting_object_manager.cpp:142-213 | The three parts of a partition add up to the number of ids. |
| WaitingObjects.WaitingEntity.Notify | src/libruntime/waiting_object_manager.cpp:53-62 | The entity changes as for one ready delivery. |
| WaitingObjects.WaitingEntity.SetError | src/libruntime/waiting_object_manager.cpp:64-74 | The entity changes as for one failed delivery. |
| WaitingObjects.WaitingObjectManager.SetUnready | src/libruntime/waiting_object_manager.cpp:106-115 | An id not yet in the map is added without subscribers; others are untouched. |
| WaitingObjects.WaitingObjectManager.SetReady | src/libruntime/waiting_object_manager.cpp:117-128 | Every subscriber receives one delivery, the id leaves the map, other ids stay. |
| WaitingObjects.WaitingObjectManager.SetError | src/libruntime/waiting_object_manager.cpp:130-140 | The same for an error. |
| WaitingObjects.WaitingObjectManager.SortIds | src/libruntime/waiting_object_manager.cpp:161-183 | The loop computes the pure sorting and drops exactly the ids found ready from the map. |
| WaitingObjects.WaitingObjectManager.Scan | src/libruntime/waiting_object_manager.cpp:149-194 | Without a memory store every id fails and nothing changes; else the ids are sorted, and unless enough are settled a fresh entity asking for the missing number is subscribed to every unready id and to no other; other subscriptions of ids not found ready stay. |
| WaitingObjects.WaitingObjectManager.Collect | src/libruntime/waiting_object_manager.cpp:195-212 | After waking, what the entity heard is merged, the unready part is what is in neither of the others, and the flag says whether enough is settled. |
| WaitRounds.WaitUntilReady | src/libruntime/waiting_object_manager.cpp:215-250 | Over the successive rounds of one waiter in one run: at most max(1, ceil(timeout / 1000)) of them, waits and sleeps within the timeout plus 10 ms, which round ends the wait and why, with enough settled when it says so and with the exceptions of the round before carried into the last one, and a partition of the ids on every path. |
| WaitRounds.RoundsAreFaithful | src/libruntime/waiting_object_manager.cpp:195-213 | In every run a round of a waiter that says to return hands back a partition with enough settled, and one that does not hands back only failures of waited-for ids. |
| WaitRounds.LastIsPartition | src/libruntime/waiting_object_manager.cpp:200-249 | In every run the last round of a waiter hands back a partition, whether or not enough is settled, with every exception of the round before. |
| WaitRounds.MaxRounds | src/libruntime/waiting_object_manager.cpp:218-222 | The bound on rounds: its thousands cover the timeout and fewer would not. |
| WaitRounds.SignalResult | src/libruntime/waiting_object_manager.cpp:232-240 | A signal error added to a round's failures makes a partition of the ids. |
| WaitingProtocol.RunKeepsInv | src/libruntime/waiting_object_manager.cpp:106-213 | Every interleaving of store changes, reports and the waiters' critical sections keeps the whole invariant. |
| WaitingProtocol.ScanJudgesTruly | src/libruntime/waiting_object_manager.cpp:161-183 | In every reachable state a scan judges each registered id by the store alone, whatever happened to the map. |
| WaitingProtocol.NoWakeupLost | src/libruntime/waiting_object_manager.cpp:161-194 | In every reachable state an id an entity watches is subscribed, heard of, or settled in the store, so a rescan finds it. |
| WaitingProtocol.EntityOneShot | src/libruntime/waiting_object_manager.cpp:184-194 | In every reachable state each entity's threshold is reachable and its promise set exactly once when reached, never before. |
| WaitingProtocol.ResultsAreTrue | src/libruntime/waiting_object_manager.cpp:142-213 | In every reachable state a returned result is a partition whose ready ids are ready and whose exceptions are the recorded errors. |
| WaitingProtocol.RescanFindsAll | src/libruntime/waiting_object_manager.cpp:221-249 | In every run, once all ids of an idle waiter are settled, its next scan, last or not, never leaves one unready whatever the store and the other threads do meanwhile, and returns with all of them after exactly one turn for each id and one more. |
| WaitingProtocol.SubscriptionCanBeLost | src/libruntime/waiting_object_manager.cpp:172-182 | A reachable state in which a sleeping waiter has lost its only subscription, with its object ready and nothing under way; in no continuation is it woken. |
| WaitingProtocol.LostIffDropped | src/libruntime/waiting_object_manager.cpp:172-182 | In every run an id is lost to an entity exactly when some scan before met it in the map, settled in the store and with the entity subscribed. |
| WaitingProtocol.LostStaysLost | src/libruntime/waiting_object_manager.cpp:117-194 | In every continuation a lost id stays unheard and unsubscribed. |
| WaitingProtocol.NeverWoken | src/libruntime/waiting_object_manager.cpp:53-74 | In every continuation of every run an entity whose remaining ids are fewer than its threshold is not woken. |
| WaitingProtocol.WokenIff | src/libruntime/waiting_object_manager.cpp:53-74 | In every run an entity none of whose ids is still subscribed has been woken exactly when the ids it has not lost reach its threshold. |
| WaitingProtocol.ExceptionsStayBad | src/libruntime/waiting_object_manager.cpp:161-183 | In every run an exception a waiter holds is the recorded error of a waited-for id and is judged bad by any scan. |
| WaitingProtocol.StoreStepsKeepInv | src/libruntime/objectstore/memory_store.cpp:816-901 | Marking an object ready or failed in the store, before the report reaches the waiters, keeps the invariant. |
| DependencyResolver.CompletesExactlyOnce | src/libruntime/dependency_resolver.cpp:21-73 | When all objects of a request are settled and no callback is left to register or run, it has completed exactly once, with the first error delivered, and no state is left. |
| DependencyResolver.SucceedsIffAllDo | src/libruntime/dependency_resolver.cpp:52-71 | In every run a completed request reports success exactly when every callback of it that has run brought success, and then all of them have run. |
| DependencyResolver.SuccessIsRecorded | src/libruntime/objectstore/memory_store.cpp:1013-1041 | In every run a request that reports success has each of its objects settled without error in the store, except those whose callback was registered while they were missing, or stored but not settled. |
| DependencyResolver.ReleasedGoodIff | src/libruntime/objectstore/memory_store.cpp:1013-1041 | In every run a step that lets a callback go with success has its object settled without error exactly when it is not a registration that finds the object missing, or stored but not settled. |
| DependencyResolver.EarlySuccessCanMiss | src/libruntime/objectstore/memory_store.cpp:1017-1037 | A run in which a request reports success and the store then records an error for its only object. |
| DependencyResolver.CompletesAtMostOnce | src/libruntime/dependency_resolver.cpp:52-71 | In every run a request completes at most once, and whatever it reports is the first error delivered to it. |
| DependencyResolver.CallbacksRunOnce | src/libruntime/objectstore/memory_store.cpp:1013-1041 | In every run no callback runs twice. |
| DependencyResolver.ErrorsAreRecorded | src/libruntime/dependency_resolver.cpp:52-71 | An error reported to a request is the one the store recorded for one of its own dependencies. |
| DependencyResolver.FirstErrorSpec | src/libruntime/dependency_resolver.cpp:55-63 | The first error is success exactly when all deliveries were, and else the earliest failure. |
| DependencyResolver.RunsKeepInv | src/libruntime/dependency_resolver.cpp:21-73 | Every run keeps the count equal to the callbacks outstanding, request by request. |
| DependencyResolver.Resolver.OnReady | src/libruntime/dependency_resolver.cpp:52-71 | One callback changes the table as the countdown says and completes as it says. |
| DependencyResolver.Resolver.ResolveDependencies | src/libruntime/dependency_resolver.cpp:21-73 | With callbacks that fire during registration, the loop leaves the table and the completions that firing them in order would. |
| LruCache.RunsIncluded | src/dto/lru_cache.h:33-87 | The same operations on a smaller and a larger cache keep the smaller's entries a subsequence of the larger's, with equal values: more capacity never loses a hit. |
| LruCache.RunIsRecent | src/dto/lru_cache.h:41-87 | After any run the list is strictly ordered by last touch, within capacity, and holds the value last inserted for each key. |
| LruCache.HitsAndEvictions | src/dto/lru_cache.h:41-71 | A hit returns the last value inserted; an insertion that makes room removes the entry with the oldest touch. |
| LruCache.RunHoldsNewest | src/dto/lru_cache.h:41-87 | After any run a key that is missing, though touched since its last erasure, is older than all keys held; and if nothing was erased the cache is full. |
| LruCache.LRUCache.constructor | src/dto/lru_cache.h:33-39 | The cache is empty, with the default capacity for zero. |
| LruCache.LRUCache.Get | src/dto/lru_cache.h:41-51 | Returns the lookup and leaves the list as the pure operation says; map and list stay linked. |
| LruCache.LRUCache.Insert | src/dto/lru_cache.h:53-71 | The same for insertion, eviction included. |
| LruCache.LRUCache.Erase | src/dto/lru_cache.h:73-81 | The same for erasure. |
| LruCache.LRUCache.Clear | src/dto/lru_cache.h:83-87 | Nothing is left. |
| ArgInlining.PreProcessArgs | src/libruntime/libruntime.cpp:320-389 | Succeeds exactly when every argument can be placed and the objects they hold, if any, are kept alive; else fails with the error of the first argument that cannot, or of keeping them. Once all are placed the smallest within the limit are inline and all others references to what was stored; exactly then held and stored objects are tied to the request. |
| ArgInlining.GreedyIsOptimal | src/libruntime/libruntime.cpp:333-375 | The inlined arguments are within the limit and no set of arguments within the limit, of all there are, has more members. |
| ArgInlining.OrderListsAll | src/libruntime/libruntime.cpp:329-338 | The sorted index vector lists every argument. |
| ArgInlining.BypassIsAllOrNothing | src/libruntime/libruntime.cpp:351-358 | With bypass, everything can be placed exactly when the whole payload is within the bypass limit, and then all of it is inline. |
| ArgInlining.StepFits | src/libruntime/libruntime.cpp:347-374 | Taken in size order, the argument at a place fits next to those kept so far exactly when it is within the longest run from the start that fits. |
| ArgInlining.TakeArg | src/libruntime/libruntime.cpp:341-374 | One pass of the loop: inline, stored, or one of three errors, with 64-bit wrap-around detected. |
| ParallelCopy.AnyScheduleCopies | src/utility/memory.cpp:49-88 | However the bytes of head, six shares and tail are interleaved, once all are copied the destination is the source's block and unchanged behind it. |
| ParallelCopy.CompleteRunCopies | src/utility/memory.cpp:57-87 | The same for any head, shares and tail that follow one another and make up the whole. |
| ParallelCopy.RunCopies | src/utility/memory.cpp:57-82 | At any moment of any interleaving each byte is the source's if some job has copied it and the old one otherwise. |
| ParallelCopy.JobsTile | src/utility/memory.cpp:49-82 | Every byte of the block, and no other, belongs to exactly one job. |
| ParallelCopy.LaidOutWellIff | src/utility/memory.cpp:36-55 | Head shorter than a block, six equal shares of whole aligned blocks, tail shorter than six blocks, in all the whole: exactly when a boundary lies within the source; otherwise the head exceeds the whole. |
| ParallelCopy.BoundariesInOrder | src/utility/memory.cpp:28-45 | The two aligned boundaries are in order exactly under that condition. |
| ParallelCopy.CopyInParallel | src/utility/memory.cpp:36-88 | Does nothing for a zero block size or no bytes; copies the block and nothing else when a boundary lies within the source, and only then; otherwise its copies would leave the block. |
| SoPruning.DedupCrossDirs | api/python/setup.py:363-411 | The loop ends, and what remains is the least set that holds all files without a twin and every file one of its own needs; contents are unchanged and the count is right. |
| SoPruning.LeastIsUnique | api/python/setup.py:394-402 | The outcome does not depend on the order in which candidates are visited. |
| SoPruning.LeastKeptIsMostRemoved | api/python/setup.py:388-411 | What is removed has twins and is needed by nothing that stays, and includes everything else that could be removed so. |
| SoPruning.NothingIsLost | api/python/setup.py:377-411 | A library that a remaining file needs remains, and every soname and digest the two directories held they still hold. |
| SoPruning.RequiredSonames | api/python/setup.py:388-391 | The sonames needed by the files that are not candidates, all and only those. |
| SoPruning.Pass | api/python/setup.py:395-402 | One pass keeps the invariant, reports a change exactly when a candidate stayed, and otherwise proves all candidates unneeded. |
| ThreadPool.FirstInFirstOut | src/utility/thread_pool.cpp:83-121 | In every run the submitted jobs are the taken ones in order followed by the queue, and no job is run by two threads. |
| ThreadPool.NothingTakenWhileStopped | src/utility/thread_pool.cpp:98-148 | From a stop to the next start no job is taken and none is dropped. |
| ThreadPool.TakenInTurn | src/utility/thread_pool.cpp:98-121 | In every continuation each turn of an idle thread of a running pool takes the next job: the one with p others before it is taken by turn p + 1 and not before. |
| ThreadPool.WorkerCountKept | src/utility/thread_pool.cpp:150-192 | Only starting the pool and finishing a shutdown change the number of workers, counting one for each that is just being replaced. |
| ThreadPool.ShutdownLeavesNobody | src/utility/thread_pool.cpp:123-148 | When a shutdown has joined its threads none of the pool's own is in the loop or runs a job, except those taken out and not yet written off. |
| ThreadPool.WritesOffTheRunner | src/utility/thread_pool.cpp:164-176 | In every run with distinct request ids, when a call removes its thread from the workers that thread is running the request exactly when the request is still tracked, and exactly when anybody is running it; its job goes on and no other thread changes hands. |
| ThreadPool.FindsTheRunner | src/utility/thread_pool.cpp:154-163 | In every run with distinct request ids a call finds only a thread that is running the request, and finds the worker that is running it if there is one. |
| ThreadPool.IdleWorkerWrittenOff | src/utility/thread_pool.cpp:150-176 | A run in which a worker that finished between the critical sections is removed while idle. |
| ThreadPool.PhasesMakeReplace | src/utility/thread_pool.cpp:150-192 | With nothing in between, the critical sections make up the replacement: one worker written off, a new one in its place, its job going on. |
| ThreadPool.RunKeepsInv | src/utility/thread_pool.cpp:46-192 | Every run keeps: conservation, each thread owned once, one job a thread, and every tracked request run by the thread named. |
| ThreadPool.RunKeepsAllKnown | src/utility/thread_pool.cpp:98-121 | In every run with distinct request ids each worker running a request is the one the pool names for it, and a request about to be untracked is run by nobody but the thread found for it. |
| ThreadPool.ThreadPool.Init | src/utility/thread_pool.cpp:46-71 | Unless it already was, the pool is started with the threads that could be created; it counts as initialised, and success is reported, exactly when that is all of them. |
| ThreadPool.ThreadPool.InitAndRun | src/utility/thread_pool.cpp:73-81 | The pool is running again; nothing else changes. |
| ThreadPool.ThreadPool.Handle | src/utility/thread_pool.cpp:83-96 | The job joins the end of the queue. |
| ThreadPool.ThreadPool.Take | src/utility/thread_pool.cpp:103-116 | A stopped pool sends the thread away, an empty queue leaves it waiting, otherwise the first job is taken and its request tracked. |
| ThreadPool.ThreadPool.Finish | src/utility/thread_pool.cpp:118-121 | The request is no longer tracked. |
| ThreadPool.ThreadPool.Stop | src/utility/thread_pool.cpp:125-132 | A running pool is stopped, a stopped one left alone. |
| ThreadPool.ThreadPool.ErasePendingThread | src/utility/thread_pool.cpp:150-192 | The critical sections in order, with nothing in between, change the pool as the pure replacement says, in each of its three cases; the runs above interleave them. |
| RequestIds.DecodeInvertsAttempt | src/utility/id_generator.cpp:66-97 | For 18-character ids without separators, decoding any attempt's id with any suffix gives back id and attempt exactly when the id ends in "00". |
| RequestIds.ParseTakesFirstPart | src/utility/id_generator.h:33-43 | The real id is what precedes the first '@' or '-', with the nil id and the undefined case told apart. |
| RequestIds.SuffixIsDropped | src/utility/id_generator.cpp:79-97 | Decoding ignores any suffix that starts with '@' or '-'. |
| RequestIds.HexRoundTrip | src/utility/id_generator.cpp:162-193 | Reading back the two digits of a byte gives the byte. |
| RequestIds.AttemptsNest | src/utility/id_generator.cpp:66-70 | Regenerating from an attempt's id gives the same as from the request's, attempt zero is the request's own id, and ids of attempts differ. |
| RequestIds.OnlyCurrentAccepted | src/libruntime/invoke_spec.cpp:84-179 | A notification is accepted exactly when its attempt and the current one are a multiple of 256 apart; within 256 attempts, exactly when it is current. |
| RequestIds.SpecFilters | src/libruntime/invoke_spec.cpp:84-179 | A notification for any attempt decodes to the spec's request and passes its filter exactly when its attempt and the current one are a multiple of 256 apart; the id of the current attempt passes. |
| RequestIds.AttemptsWrapAround | src/libruntime/invoke_spec.cpp:84-87 | 256 attempts later a stale notification is accepted. |
| RequestIds.InvokeSpec.IncrementSeq | src/libruntime/invoke_spec.cpp:84-87 | The attempt goes up by one modulo 256. |
| RequestIds.GenerateReturnObjectIds | src/libruntime/libruntime.cpp:399-406 | Every return object gets the id of its index cut to eight bits. |
| RequestIds.ReturnIdsDistinctIff | src/libruntime/libruntime.cpp:399-406 | A request's return-object ids are distinct exactly up to 256 of them. |
| RequestIds.ObjectLeadsBack | src/utility/id_generator.cpp:104-134 | An object id leads back to its request id exactly when that has 18 characters. |
| RequestIds.ObjectIdsIdentify | src/utility/id_generator.cpp:130-134 | Object ids of 18-character requests are equal exactly for the same request and index. |
| ResourceKey.EqualHashIff | src/libruntime/invoke_spec.cpp:513-643 | Equal keys hash alike, in any walks of their maps, exactly when the hashes of their custom values combine alike. |
| ResourceKey.ExactlyEqualHash | src/libruntime/invoke_spec.cpp:605-643 | Equal keys with the same custom values hash alike in any walks of their maps. |
| ResourceKey.EqualIsSymmetric | src/libruntime/invoke_spec.cpp:513-585 | Although it looks entries up one way only, equality is symmetric, for any rounding that does not depend on the sign. |
| ResourceKey.ToleranceBreaksHash | src/libruntime/invoke_spec.cpp:513-523 | Two custom values that pass for the same but hash apart make equal keys with different hashes. |
| ResourceKey.NotTransitive | src/libruntime/invoke_spec.cpp:518-523 | Numbers one and two tolerances apart show that equality is not transitive, and a NaN passes for any value. |
| ResourceKey.KeysNotTransitive | src/libruntime/invoke_spec.cpp:513-585 | Three keys that differ in one such custom value: the first equals the second, the second the third, the first not the third. |
| ResourceKey.TransitiveIff | src/libruntime/invoke_spec.cpp:513-585 | If the first key equals the second and the second the third, the first equals the third exactly when no custom value of the first is apart from the third's. |
| ResourceKey.FoldAnyOrder | src/libruntime/invoke_spec.cpp:613-636 | Combining by exclusive or does not depend on the order of the walk. |
| ResourceKey.SameStringsIsEqual | src/libruntime/invoke_spec.cpp:547-577 | Equal sizes and one-way lookup mean equal maps. |
| ResourceKey.Equals | src/libruntime/invoke_spec.cpp:513-585 | The loops decide equality, in any walks of the maps, with infinities, NaN and rounded differences. |
| ResourceKey.Hash | src/libruntime/invoke_spec.cpp:605-643 | The loops compute the hash for the walks taken. |
| CjkSegmenter.ExtractCjkFromRaw | docs/_static/search_cjk_split.js:78-97 | The parts are non-empty, of one class each, alternate in class, and join to the text. |
| CjkSegmenter.CutIsUnique | docs/_static/search_cjk_split.js:78-97 | There is only one such cut. |
| CjkSegmenter.SegmentCjk | docs/_static/search_cjk_split.js:103-122 | The segments take the longest dictionary word at every position and join to the text. |
| CjkSegmenter.CanonicalIsUnique | docs/_static/search_cjk_split.js:103-122 | There is only one segmentation by longest match. |
| CjkSegmenter.CanonicalIsLossless | docs/_static/search_cjk_split.js:103-122 | Such segments join to the text and each is a dictionary word or one character. |
| CjkSegmenter.MatchAt | docs/_static/search_cjk_split.js:108-120 | No dictionary word at this position is longer, however long, although the loop only tries lengths up to the longest word's. |
| CjkSegmenter.MaxLength | docs/_static/search_cjk_split.js:44-47 | No word is longer, and unless it is zero some word is as long. |
| CjkSegmenter.CjkCharacters | docs/_static/search_cjk_split.js:103-104 | A run of Chinese characters has one code unit to a character. |
| CjkSegmenter.SplitQuery | docs/_static/search_cjk_split.js:49-72 | Provided the original tokenizer makes up no Chinese characters, none of the query's is lost, repeated or moved. |

## Left out

- OrderedDelivery.OrderedExactlyOnce: a get-named-instance request takes number 0 and is answered without reaching the instance's ordered execution; in the model its acknowledgement is an `Abandon`, so such clients fall under the runs with abandonment.
- OrderedDelivery.AbandonCanBlock: the client's retry policy is one step, "finish a request the instance has not run"; which error codes lead to it is not modelled.
- OrderedDelivery.OrderedExecutionManager.CancelInsFunction: stopping a request that is already running is not modelled, only the mark on a waiting one.
- OrderedDelivery.OrderedExecutionManager.Handle: whether a taken request runs on the pool or is answered as cancelled is only logged.
- InvokeOrder.InvokeOrderManager.Invoke: sequence numbers are unbounded, not 64-bit; records in the table are values, not shared objects; the id under which a named instance is ordered is a field, not built from name and namespace.
- WaitingObjects.WaitingEntity.Notify: the promise is a count of how often it was set, not a thread's future; locks are not modelled in the class, only in `WaitingProtocol`.
- WaitingProtocol.RunKeepsInv: the memory store outlives the waiters and keeps their objects, so recorded errors are sticky; removal from the store when the last reference goes, and a store that is gone, are not steps.
- WaitRounds.WaitUntilReady: the rounds are parameters tied to a run of the protocol; time is the waits and sleeps asked for, not a clock.
- DependencyResolver.Resolver.ResolveDependencies: request ids are not reused while a request is pending.
- ArgInlining.PreProcessArgs: the sort is given by its result, any order by size; the answers of the data system and of the memory store are given beforehand; a missing data object, which the loop dereferences, is excluded.
- ParallelCopy.CopyInParallel: source and destination do not overlap and addresses do not wrap; the method runs the segments one after another, `AnyScheduleCopies` covers every interleaving; copies that would leave the block are reported instead of carried out, since what they do is undefined.
- SoPruning.DedupCrossDirs: reading soname, needed names and digest from a file is given; equal digests are not claimed to mean equal contents.
- ThreadPool.ThreadPool.ErasePendingThread: the method's own contract is for an uninterrupted call, interleaved calls are runs of the critical sections; thread handles are not reused; the list of written-off threads, which the code appends to without a lock, is appended to in one step.
- ThreadPool.ShutdownLeavesNobody: joining the threads and clearing the workers is one step.
- RequestIds.DecodeInvertsAttempt: generation of the random part is not modelled.
- ResourceKey.Equals: how a difference of floats is rounded is a parameter; an affinity is its own hash.
- CjkSegmenter.SplitQuery: the original tokenizer is a parameter.
- Liveness of the watermark after a failed dependency, and of groups rebuilt from saved ids: such requests are never reported finished.
- Reference counting in the memory store; recording a success as an error in the store.
- `ThreadPool::Stop` by thread cancellation, timers, thread names, log output.
- The accelerator message queue and the time measurement window.
- Deduplication of shared libraries within one directory: it groups files by soname and digest and keeps one of each group, in a single pass without the dependency between files that makes the pruning across directories hard.
- Data-system and gateway clients, protobuf building, configuration, signals, language bindings: input and output around the modelled logic.
