# A verified model of iouring_cc

iouring_cc wraps Linux io_uring: producers queue requests, one thread moves them into the submission ring, submits
them, handles the completion ring and resolves the completion objects; files and buffers can be registered with the
kernel; a small thread pool runs the driving thread. This project models that code in Dafny and proves properties of
every run of it.

## How it is built

* **Machines.** `Pipeline.dfy` (requests), `ThreadPool.dfy` (monitor), `FileTable.dfy` (registered files, with lists of
  them in `FileLists.dfy`), `BufferPools.dfy` (provided buffers) and `Deferred.dfy` (scope guards) define atomic
  actions on a state, with the kernel and all other threads free to act in between. `PipelineInvariants.dfy` and
  `Lifecycle.dfy` prove what one action keeps, `PipelineTheorems.dfy` what holds after every run, `PipelineProgress.dfy`
  how a stopped worker ends, and `PipelineRuns.dfy` shows the runs in which a promise fails.
* **Objects.** `Worker.dfy`, `PoolObject.dfy`, `FileRegistry.dfy`, `Buffer.dfy`, `CompletionObject.dfy` and
  `Deferred.dfy` have the source's form: classes whose methods update fields in loops. `IoUring.Valid` and
  `Pool.Valid` say that the fields are a reachable state of the machine, and between any two steps `Interfere` lets
  everybody else take any number of actions. So each theorem about reachable states holds at each point of these
  methods. The fields of `IoSink` live in the `IoUring` object that owns it. The wrapped calls of liburing appear as
  methods with free choices.

A request is its completion's identity, descriptor, SQE flags and buffer group. `fullAccept` restricts runs to those in
which every `io_uring_submit` takes the whole submission ring; without it a submit may take any part of it, or
nothing when the kernel is busy. The kernel posts one CQE for each entry, in any order and never announcing more. Taking
a batch and crediting the counter with it are one action, and so are the parts of handling one CQE: nobody but the
driving thread reads the counter.

Some promises do not hold of the code as it stands; each comes with the exact condition and an input or run that
shows it:

* a request can be dropped without its promise ever being set: exactly when the first nine submits `GetSqe` made for
  it took nothing, even if the tenth emptied the ring (`DroppedIff`, `DropsWithEmptyRing`);
* a link chain can be split, exactly by a submit made inside `GetSqe` or cut short by the kernel, and must be when it is
  longer than the ring (`ChainAtomicityIff`, `RetrySplitsChain`, `ShortSubmitSplitsChain`, `LongChainSplit`);
* a blocked worker can leave an ordinary request unsubmitted behind it. With whole submits that happens exactly if a
  drain can prepare two requests and the ring can hold two: then the second may open a chain that holds back the flush
  (`ParkedCleanIff`, `LinkedTailStrands`). After a short submit it happens without any chain (`RingEndIff`,
  `ShortSubmitStrands`);
* Stop is missed exactly when its last notification falls between the worker's test and its wait (`StopMissedIff`,
  `StopCanBeMissed`, `StopHeard`);
* the completion of a refused direct call leaks exactly when its uninitialised flags announce more CQEs
  (`CompletionLifecycle`, `RefusedCallLeaks`);
* a pool without workers never runs its tasks (`JoinDrainsIff`, which uses `EmptyPoolLosesTask`);
* descriptor -1 breaks the slot table (`AddKeepsBijectionIff`, `MinusOneSharesItsSlot`);
* a prepared read or write does not name its file, while removals succeed exactly when the kernel refused the descriptor
  or the slot went to another one (`LoweringKeepsMeaning`, `RefusedOneStays`, `SharedSlotNamesNothing`);
* `RegisterFiles` restores the container exactly when it does not reach a descriptor the kernel refuses (`NothingIff`,
  `RefusedOneStays`);
* registration ends for good exactly when everything is unregistered, or one descriptor while none is registered
  (`KernelGoneIff`, `EmptyUnregisterEndsRegistration`);
* a request that already names a kernel slot may be redirected (`FixedRequestIff`, `FixedRequestRedirected`);
* the slices of a pool leave its memory when its total size wraps around 32 bits (`SlicesFitIff`).

Code and comments differ in two places, and the model follows the code: `IoUringFileFdContainer::Add` is said to
return -1 when full but would store the number of slots (the guard in `RegisterFile` keeps that from happening, see
`GuardSuffices`), and a drain limit of zero still drains one request (`Limit`).

## Model

| member | source | states |
|---|---|---|
| PipelineTheorems.Conservation | iouring/io_sink.h:62-109 | In every reachable state each accepted request is in exactly one place: queued, held by GetSqe, unsubmitted, in the kernel, unread, handled or dropped; nothing else is anywhere |
| PipelineTheorems.DroppedIff | iouring/io_uring.cc:393-407 | A request passed to consume and not held by GetSqe any more was dropped if and only if the first nine submits made for it took nothing, otherwise prepared; a dropped one cost exactly ten submits |
| PipelineTheorems.WholeSubmitsDropNothing | iouring/io_uring.cc:393-407 | With whole submits nothing is ever dropped and GetSqe submits at most once per request |
| PipelineRuns.DropsWithEmptyRing | iouring/io_uring.cc:398-405 | A run in which the completion ring overflows for nine submits, the tenth empties the submission ring, and the request is dropped all the same with its promise unset |
| PipelineTheorems.FifoOrder | iouring/io_sink.h:70-88 | Requests reach consume as a prefix of acceptance order, CQEs are handled as a prefix of posting order, and with whole submits the kernel receives requests in acceptance order |
| PipelineTheorems.DrainCount | iouring/io_sink.h:79-95 | What an unstopped Drain is about to return is the number of entries prepared since its wait, at most max(1, limit) |
| PipelineTheorems.CounterExact | iouring/io_uring.cc:964-1001 | The pending counter equals requests in the kernel plus CQEs not yet handled, is never negative, and is zero only when both are empty, also inside the nested submits of GetSqe |
| PipelineTheorems.ParkedIsIdle | iouring/io_sink.h:66-109 | A blocked worker has nothing in the kernel and nothing to handle, and a queued request still has its notification coming |
| PipelineTheorems.RingEndIff | iouring/io_uring.cc:1343-1367 | The ring of a blocked worker ends outside every chain exactly when the last submit was short and the link flag is off |
| PipelineRuns.ParkedCleanIff | iouring/io_uring.cc:1346-1353 | With whole submits every blocked worker leaves nothing but an open chain unsubmitted if and only if the drain limit is one request or the ring has one entry |
| PipelineRuns.LinkedTailStrands | iouring/io_uring.cc:1350-1353 | A run with whole submits after which the worker is blocked with an ordinary request unsubmitted before the start of a chain, and nobody left to wake it |
| PipelineTheorems.ParkedOnlyOnOpenChain | iouring/io_uring.cc:1350-1359 | With whole submits, what a blocked worker leaves unsubmitted ends in an open link chain |
| PipelineRuns.ShortSubmitStrands | iouring/io_uring.cc:985-1001 | A run in which an overflowing completion ring makes one submit busy, and the worker, having handled everything, blocks with an ordinary request unsubmitted and nobody left to wake it |
| PipelineTheorems.StopMissedIff | iouring/io_sink.h:66-68 | A blocked worker sleeps through Stop, with no notification outstanding, if and only if the last one fell after its test and before its wait |
| PipelineTheorems.NotifyInGapIsMissed | iouring/io_sink.h:111-115 | The last notification is missed exactly when it falls in that gap, and from there the worker can block in a stopped sink |
| PipelineTheorems.StopHeard | iouring/io_sink.h:111-115 | In a run in which no notification of Stop falls in that gap, a worker blocked in a stopped sink has one coming |
| PipelineRuns.StopCanBeMissed | iouring/io_sink.h:111-115 | A run in which the worker is blocked although the sink is stopped and no notification is outstanding |
| PipelineProgress.StopReachesExit | iouring/io_sink.h:111-115 | Once Stop has set its flag, whatever the others do, the worker takes at most a fixed number of actions, and with that many it has returned |
| PipelineProgress.StopNeverStuck | iouring/io_sink.h:66-95 | Until then it can act or sleeps, and while it sleeps a notification of Stop is to come if and only if it did not miss the last one |
| PipelineProgress.DriverNeverStuck | iouring/io_uring.cc:1343-1367 | Whatever the driving thread is in the middle of, it can go on unless it sleeps, has returned, or waits for a caller |
| PipelineTheorems.ChainTogether | iouring/io_uring.cc:1172 | If no submit ends in an open chain, all entries of a chain of any length are in one submit |
| PipelineTheorems.AtomicIffWhole | iouring/io_uring.cc:1172 | Chains of a submitted stream are unbroken and closed if and only if no batch ends with a link flag |
| PipelineTheorems.ChainAtomicity | iouring/io_uring.cc:1343-1359 | With whole submits and no submit inside GetSqe, every chain, however many drains built it, reaches the kernel in one submit |
| PipelineTheorems.ChainAtomicityIff | iouring/io_uring.cc:393-407 | Chains are unbroken if and only if no submit made inside GetSqe and none the kernel cut short ended in an open chain |
| PipelineRuns.RetrySplitsChain | iouring/io_uring.cc:398-405 | A run in which the submit that makes room for the second entry of a chain takes the first alone, with whole submits or without |
| PipelineRuns.ShortSubmitSplitsChain | iouring/io_uring.cc:985-1001 | A run in which the worker's own flush is cut short inside a chain |
| PipelineTheorems.LongChainSplit | iouring/io_uring.cc:398-405 | A chain of more entries than the submission ring holds is always split |
| PipelineTheorems.ChainFitsIff | iouring/io_uring.cc:1343-1359 | With whole submits and a drain limit of one, the entries of a chain from its first on travel together exactly as far as they fit into the submission ring |
| PipelineTheorems.CompletionLifecycle | iouring/io_completion.h:73-86 | Over a run every completion is resolved and deleted at most once, every handled CQE left its own completion resolved with its result and deleted, or untouched if grouped and without buffer; unfinished ones, and those of requests a worker dropped, are untouched; that of a refused direct call holds an exception and is deleted unless its flags announce more |
| PipelineRuns.RefusedCallLeaks | iouring/io_uring.h:674-688 | A run in which a refused direct call leaves its completion resolved and never deleted |
| PipelineTheorems.TouchesOnlyLive | iouring/io_uring.cc:1179-1211 | Whenever a CQE is handled or GetSqe gives up, the completion it may touch was neither resolved nor deleted before |
| Lifecycle.Census | iouring/io_uring.cc:1328-1369 | The accepted requests, as a multiset, are the sum of those in the seven places |
| Lifecycle.LivedHandle | iouring/io_uring.cc:1187-1210 | Handling one CQE brings its completion to its end and changes no other |
| PipelineInvariants.FlaggedStep | iouring/io_uring.cc:1172 | Every action keeps the link flag equal to the link bits of the last entry in the ring |
| PipelineInvariants.SettledStep | iouring/io_uring.cc:1350-1359 | Every action keeps: except in a drain that has prepared something and in its flush, a ring that does not end in an open chain is empty unless the last submit was short |
| PipelineInvariants.ParkedStep | iouring/io_sink.h:98-109 | Every action keeps: a worker about to block has an empty queue and counter, a blocked one has a notification for every queue that is not empty |
| Worker.IoUring.EnqueueIoRequest | iouring/io_sink.h:100-109 | One more request at the end of the queue, the worker notified and not left blocked |
| Worker.IoUring.Stop | iouring/io_sink.h:111-115 | The flag is up, and a worker that slept before is on its way |
| Worker.IoUring.Drain | iouring/io_sink.h:62-96 | Returns the closed code if and only if the sink is stopped, otherwise the number of entries prepared, at most max(1, limit), and leads to a flush exactly when that is positive and no chain is open |
| Worker.IoUring.DrainQueue | iouring/io_sink.h:70-88 | Ends only when stopped, empty, refused or at the limit; takes at least one request if there is one; at most one is dropped, each prepared one is counted, and the only submits are those of GetSqe |
| Worker.IoUring.ConsumeFront | iouring/io_sink.h:75-83 | The front request leaves the queue and becomes the last entry of the ring, or is dropped |
| Worker.IoUring.GetSqe | iouring/io_uring.cc:393-407 | Submits only if the ring is full, at most ten times, all but the last in vain; each followed by completion processing, which handles a CQE if one is there; fails if and only if the first nine took nothing, and otherwise the ring has room; with whole submits it never fails |
| Worker.IoUring.SubmitToKernel | iouring/io_uring.cc:985-1001 | Takes as many entries from the front of the ring as io_uring_submit answered, none on an error, as one batch, and credits the counter with their number |
| Worker.IoUring.SubmitToKernelRing | iouring/io_uring.cc:1014-1177 | On success the request is the last entry and the link flag is bit 2 or bit 3 of its flags; it fails if and only if nine submits made for the request took nothing, and then nothing was prepared |
| Worker.IoUring.HandleCqe | iouring/io_uring.cc:1179-1211 | The completion is alive, and is left in the state its CQE calls for; the counter drops by one |
| Worker.RequestedIsMinimum | iouring/io_uring.cc:1293-1295 | The conversions to int and back give the minimum of ready and limit, or the limit itself when it is beyond int |
| Worker.IoUring.PeekReady | iouring/io_uring.cc:1291-1295 | The slots filled are the head of the ring, min(ready, limit) of them, never outside the slot array |
| Worker.IoUring.DoProcessComplitionsRing | iouring/io_uring.cc:1268-1304 | Finds CQEs exactly when the wait answers zero, which it does when the ring is not empty; then handles min(ready, request) of them, the drain limit standing in for a request of zero or above it; succeeds on zero, ETIME and EBUSY |
| Worker.IoUring.ProcessCompletionsRing | iouring/io_uring.cc:1306-1326 | Does nothing when nothing is pending or consumption is stopped, otherwise handles min(ready, drain limit) CQEs, and always returns to its caller's place |
| Worker.IoUring.ProcessRound | iouring/io_uring.cc:1346-1367 | One round: what was drained is flushed by exactly one submit of the worker unless a chain is open, in which case by none; begun before the wait it takes a request if one is queued and handles a CQE if one is there, or ends if the sink is stopped |
| Worker.IoUring.DoProcessIoRequests | iouring/io_uring.cc:1343-1369 | Each round followed does the work of a round; a queued request does not outlast the first one in an open sink; the loop ends only when the sink is stopped, and in the first round if it is stopped before the worker's wait |
| Worker.IoUring.SubmitIoRequest | iouring/io_uring.h:664-690 | Without a worker the entry is prepared by the caller, or, exactly after nine futile submits, the completion holds an exception and the request counts as dropped |
| Worker.IoUring.FlushSubmissionRing | iouring/io_uring.cc:979-983 | Submits a prefix of the ring for the caller, all of it with whole submits |
| Worker.IoUring.ProcessComplitionsRing | iouring/io_uring.cc:1213-1229 | Handles min(ready, drain limit) CQEs for the caller and returns it to idle |
| CompletionObject.IoCompletion.CompleteWith | iouring/io_completion.h:73-86 | Result, flags and decoded buffer id are stored, the promise set once, the object deleted unless more CQEs are announced |
| CompletionObject.IoCompletion.SetException | iouring/io_completion.h:163-168 | The promise holds the exception and the object is deleted by its flags |
| Completions.BidRoundTrip | iouring/io_completion.h:79-83 | A 16-bit buffer id survives the flags of a CQE, whatever the lower half holds |
| FileTable.GuardSuffices | iouring/io_uring.cc:246-252 | Behind the size guard Add finds a slot in range, for any descriptors, -1 included |
| FileTable.SoundRun | iouring/io_uring.cc:43-88 | Over any run of calls with any descriptors no index leaves the slots and the map does not outgrow them |
| FileTable.GuardFindsSlot | iouring/io_uring.cc:246-252 | The map never outgrows the slots, and it is smaller exactly when Add finds a slot in range |
| FileTable.AddKeepsBijectionIff | iouring/io_uring.cc:65-81 | Behind its guard Add keeps map and slots inverse to each other for every descriptor but -1 |
| FileTable.RemoveKeepsBijection | iouring/io_uring.cc:56-63 | Remove keeps map and slots inverse to each other |
| FileTable.UnregistersIff | iouring/io_uring.cc:298-314 | Status and tables by cause: nothing registered, unknown descriptor, known one; its kernel slot is cleared exactly if the kernel agrees |
| FileTable.UnregistersAllIff | iouring/io_uring.cc:316-323 | Exactly while the kernel has a table and agrees the container ends empty, slot by slot, and the table is gone; otherwise nothing changes |
| FileTable.MinusOneSharesItsSlot | iouring/io_uring.cc:73-79 | After registering -1 the next descriptor gets the same slot |
| FileTable.AlignedRun | iouring/io_uring.cc:244-323 | Over any run of calls with any descriptors an occupied slot is occupied by the same descriptor in the kernel unless the kernel refused it, and while removals succeed the kernel's table is the container's without the refused ones |
| FileTable.BijectiveRun | iouring/io_uring.cc:43-88 | Over any run of calls that does not register -1 map and slots stay inverse to each other |
| FileTable.SlotIsStable | iouring/io_uring.cc:43-88 | A descriptor, whichever, keeps its slot as long as it stays registered |
| FileTable.LoweringKeepsMeaning | iouring/io_uring.cc:447-464 | After any run with any descriptors a prepared read or write names exactly the requested file, directly or through the kernel's slot, unless the kernel refused that descriptor or its slot went to another; and while removals succeed only then |
| FileTable.SharedSlotNamesNothing | iouring/io_uring.cc:56-63 | A run in which -1 and another descriptor share a slot, and a read of the other names no file once -1 is unregistered |
| FileTable.LoweringWithoutMinusOne | iouring/io_uring.cc:447-464 | In a run that does not register -1 only a refusal by the kernel can keep a read or write from naming the requested file |
| FileTable.FixedRequestIff | iouring/io_uring.cc:485-500 | A request that names a kernel slot itself keeps its meaning exactly when its number is not registered, or that slot holds the descriptor of that number; for a refused descriptor, while removals succeed, when that slot is empty |
| FileTable.FixedRequestRedirected | iouring/io_uring.cc:447-464 | A read of the file in slot 1 becomes a read of the file with descriptor 1 |
| FileTable.KernelGoneIff | iouring/io_uring.cc:298-323 | The kernel's table is gone after a run if and only if some call of it unregistered everything, or a descriptor while none was registered; no call brings it back |
| FileTable.NothingNamedWithoutTable | iouring/io_uring.cc:244-257 | Without the kernel's table a registration fails but stays in the container, and no lowered entry names a file |
| FileTable.EmptyUnregisterEndsRegistration | iouring/io_uring.cc:298-303 | Unregistering while nothing is registered ends registration for good |
| FileTable.LoweringKeepsFlags | iouring/io_uring.cc:452-463 | Lowering changes no flag but the one for fixed files, and that only for a registered descriptor; so it neither opens nor closes a link chain |
| FileLists.RegisterExtends | iouring/io_uring.cc:244-257 | One registration on top of others: its status by cause, what is added, and that a refusal by the kernel leaves the descriptor in the container |
| FileLists.FirstLoop | iouring/io_uring.cc:259-273 | The first loop stops at the first descriptor that is registered or repeated, finds no slot, or is refused, in this order of causes, with exactly those before it registered |
| FileLists.SecondLoop | iouring/io_uring.cc:274-280 | The removals take off the descriptors they are given and nothing else, and leave nothing stale exactly when the kernel grants each |
| FileLists.RegistersAllIff | iouring/io_uring.cc:259-282 | RegisterFiles succeeds if and only if the list has no repetition, none of it is registered, it fits the free slots and the kernel grants all of it; then all of it is registered |
| FileLists.NothingIff | iouring/io_uring.cc:259-282 | Otherwise the first descriptor that does not go gives the status; the container is as before if and only if the kernel did not refuse it, a refused one stays alone, and kernel and container are as before if and only if no update at all was refused |
| FileLists.RefusedOneStays | iouring/io_uring.cc:252-255 | A run in which a failed RegisterFiles leaves the refused descriptor registered |
| FileRegistration.IoUringFileFdContainer.Add | iouring/io_uring.cc:65-81 | The search from the front yields the least free slot, or the slot already taken |
| FileRegistration.FileRegistry.RegisterFile | iouring/io_uring.cc:244-257 | Status and new tables for every descriptor and every case, the kernel's refusal included |
| FileRegistration.FileRegistry.UnregisterFile | iouring/io_uring.cc:298-314 | Status and new tables for every case; with an empty map the whole kernel table goes |
| FileRegistration.FileRegistry.RegisterFiles | iouring/io_uring.cc:259-282 | The two loops compute the outcome of which RegistersAllIff and NothingIff say what it is, for any list; it succeeds exactly when every descriptor of the list goes |
| FileRegistration.FileRegistry.PrepareReadWrite | iouring/io_uring.cc:447-464 | A registered descriptor is replaced by its slot and flagged, with all other flags kept, another one is left alone; the entry designates the requested file unless the kernel refused its descriptor or the slot went to another |
| ThreadPool.TaskConservation | iouring/threadpool.h:64-85 | In every reachable state each accepted task is queued, running on one worker, or has run once; tasks are taken in order |
| ThreadPool.JoinDrains | iouring/threadpool.h:115-124 | When Join has returned every accepted task has run exactly once and the queue is empty |
| ThreadPool.JoinDrainsIff | iouring/threadpool.h:64-85 | Join drains the pool on every schedule exactly when the pool has a worker |
| ThreadPool.NothingAcceptedAfterStop | iouring/threadpool.h:97-103 | Once stopped the pool accepts nothing more, however the run goes on |
| ThreadPool.NoLostWakeUp | iouring/threadpool.h:74-105 | While a worker sleeps, queued tasks are at most the notifications to come plus the workers on their way; a sleeper in a stopped pool means Join has yet to notify |
| ThreadPool.WorkersProgress | iouring/threadpool.h:69-84 | Once Join waits each worker action leaves strictly fewer to come, and no other action adds one |
| ThreadPool.ShutdownBounded | iouring/threadpool.h:115-124 | However a run goes on once Join waits, it has at most as many worker actions as remained then |
| ThreadPool.ShutdownNeverStuck | iouring/threadpool.h:115-124 | While Join waits some worker can act, or a late producer can leave the lock |
| PoolObject.Pool.Enqueue | iouring/threadpool.h:89-108 | The task is put at the end exactly when the pool is not stopped at the moment of the push; no notification is left owed, and if somebody slept then one sleeper is on its way |
| PoolObject.Pool.Attempt | iouring/threadpool.h:69-84 | A worker that has the mutex runs the first task to the end, or leaves if the pool is stopped and empty, or sleeps if it is just empty |
| PoolObject.Pool.WorkerRound | iouring/threadpool.h:69-84 | Runs an accepted task to the end, or leaves only when the pool is stopped and empty; with the mutex free it does what its wait allows at the first attempt |
| PoolObject.Pool.Join | iouring/threadpool.h:115-124 | Leaves nobody asleep in a stopped pool; returns exactly when all workers have, and then every accepted task has run, in a pool with workers |
| BufferPools.SlicesFitIff | iouring/buffer_pool.h:37-67 | All slices lie inside the pool if and only if count times size does not wrap around 32 bits |
| BufferPools.SlicesDisjoint | iouring/buffer_pool.h:59-67 | Different slices of a pool that fits do not overlap |
| BufferPools.PartitionedStep | iouring/io_uring.cc:828-837 | Selection, hand-out, return and acceptance keep each id in one place, and all places agree on its address |
| BufferPools.GiveBackProvides | iouring/io_uring.cc:828-837 | Giving back provides the slice held, with the length asked for or, for zero, the buffer size of the pool |
| BufferPools.OwnershipTheorem | iouring/io_uring.cc:1192-1205 | Over any run ids are partitioned among kernel, unread CQEs, application and returns; a buffer is held by the request the kernel picked it for, its block is the one provided last, what is held is what the kernel wrote, inside the pool, apart from every other holding and from free buffers |
| Buffers.SizeWithinCapacity | iouring/buffer.h:116-220 | No run of operations lets the content outgrow the allocation |
| Buffers.StreamConservation | iouring/buffer.h:193-220 | Bytes consumed followed by the content are the first content followed by all bytes appended |
| Buffers.Buffer.Resize | iouring/buffer.h:116-137 | Grows the allocation keeping or dropping the content, or throws and changes nothing when the memory is borrowed |
| Buffers.Buffer.SetCapacity | iouring/buffer.h:152-173 | Replaces the allocation, cutting the content to it, or throws for borrowed memory |
| Buffers.Buffer.Assign | iouring/buffer.h:179-187 | The content becomes the data; empty data changes nothing; throws only for borrowed memory that is too small |
| Buffers.Buffer.Append | iouring/buffer.h:193-200 | The data is added at the end; empty data changes nothing; borrowed memory refuses all else |
| Buffers.Buffer.ConsumeFront | iouring/buffer.h:214-220 | The content loses its front, the allocation stays |
| Deferred.LinearCleanup | iouring/defer.h:13-45 | Over any history an action is held by one guard, has run, or was withdrawn: exactly one of the three, once |
| Deferred.NothingLeaks | iouring/defer.h:29-35 | With no guard left every action has run once or was withdrawn |
| Deferred.WhatRuns | iouring/defer.h:13-40 | Only Cancel withdraws, and runs nothing; destroying or overwriting a guard runs its action unless it was cancelled; nothing else runs anything |
| Deferred.EverythingRunsOnce | iouring/defer.h:29-35 | A history without Cancel that leaves no guard has run every action, once |
| Deferred.LinearAssign | iouring/defer.h:19-27 | Overwriting a guard runs what it held and nothing else |
| Deferred.DeferredAction.MoveAssignFrom | iouring/defer.h:19-27 | Runs the overwritten action, takes over the other's and cancels it; assigning a guard to itself changes nothing |
| RoundUp.RoundUpPowerOfTwo | iouring/io_uring_utils.h:51-64 | Zero for zero, the least power of two not below the argument up to 2^31, and zero above, where no 32-bit power of two is large enough |

## Left out

- Worker.IoUring.DoProcessIoRequests: follows a given number of rounds of the endless loop; the machine's runs have no such bound.
- Worker.IoUring.Drain: follows a given number of wake-ups; a call that uses them up is reported as still waiting and the next call goes on from there.
- Worker.IoUring.FlushSubmissionRing: only without a worker; beside a running worker it would touch the submission ring from two threads, which the model does not follow.
- Worker.IoUring.EnqueueIoRequest: starts when the mutex is free; waiting for it is the order of the actions.
- PoolObject.Pool.Enqueue, PoolObject.Pool.Join, PoolObject.Pool.WorkerRound: start when the mutex is free or follow a given number of attempts, for the same reason.
- Opcodes without a case in PrepareSqe: their entry stays unfilled; runs are restricted to the others, and the per-opcode wrappers except Read, Write and ProvideBuffer only copy fields.
- Several CQEs for one entry (multishot, zero-copy sends): the counter and the single promise are not made for them. The timeout CQEs of older kernels are left out with them: the wait is taken to use no submission entry.
- FileTable.FixedRequestIff: silent about a registered descriptor whose slot does not hold it after a removal the kernel refused; that slot then names whatever was left in it.
- LinkTimeoutTo and Nop: nothing calls them.
- Callbacks of completions, status texts, logging, eventfd, probing and feature checks: I/O and diagnostics; assertions that abort are preconditions or are absent.
- Unregistering or erasing a whole buffer group, and registered (fixed) buffers: they only forward to the kernel.
- Hand-out and return of provided buffers (`BufferPools`): modelled on values, as steps of the machine; creating a group and its duplicate check only add a key to a map.
- to_iov and the conversions to kernel time: field-by-field.
- RegisterFilesExternal: bypasses the container by design.
- Copying and swapping of Buffer: they do not keep capacity and ownership consistent; the model has the buffer that is not copied, and no append of a buffer to itself.
- Races on stop_ and on the lookup without a lock: each access is one action.
