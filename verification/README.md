# Verification of hotcoco's protocols

hotcoco is a C++20 coroutine runtime. This project models its concurrent protocols in Dafny and
proves what they promise over every interleaving: the bounded channel, the read-write lock, mutex
and semaphore, symmetric transfer between task frames, the fork/join and first-completion
combinators, task groups, cancellation, the frame allocator, the queues of three executors, and the
HTTP parser's callbacks.

`dafny verify dfyconfig.toml` checks everything (Dafny 4.11).

## How the models are built

Each component has up to three layers.

1. **Locked blocks as functions.** What one lock-protected block (or one atomic operation) does to
   the fields it protects is a function `OnXxx` on those fields.
2. **Classes.** The source's classes appear with their fields, and their methods, branches and loops
   in place; the postcondition of a method that changes state equates the new state and the returned
   values with the function of layer 1 (for the timer heap, where the order among equals is open, with
   a relation). A handle that the code resumes after unlocking is returned by the method.
3. **Machines.** A state holds the component and any number of operations, each with a handle and a
   phase. One step applies one function of layer 1, or resumes one coroutine; a handle taken off a
   wait list stays *woken* until a later step resumes it, which covers resumption by other threads
   and inline, re-entrant `resume()` alike. The step function is total, and an event that is not
   enabled changes nothing, so a sequence of events is an interleaving and the theorems quantify
   over all of them (`Runs.Run`). State components that no code reads (histories, counters) are
   named as such where they are declared.

| file | component |
|---|---|
| `Common.dfy`, `Runs.dfy`, `Histories.dfy` | shared names, sequences without duplicates; runs and their invariants; histories |
| `Channel.dfy`, `ChannelRuns.dfy` | the channel, and its refinement to a bounded FIFO queue |
| `RWLock.dfy`, `RWLockRuns.dfy` | the read-write lock: exclusion, bounded bypass, no stranding |
| `LockPhases.dfy`, `Handover.dfy`, `Guards.dfy` | mutex and semaphore; the movable guards that release them |
| `Task.dfy`, `TaskFrames.dfy`, `TaskRuns.dfy`, `TaskTransfer.dfy` | task programs and their evaluation; the frame machine; the one against the other; both transfer mechanisms, `Then` and `Map` |
| `DetachedTask.dfy` | frames that destroy themselves, and the objects that start them |
| `Event.dfy`, `WhenAll.dfy`, `WhenAny.dfy`, `Timeout.dfy`, `TaskGroup.dfy` | event, join, race and timeout, groups |
| `Cancellation.dfy` | callbacks and the two-step cancel |
| `FramePool.dfy` | the size-class allocator over many threads |
| `PollingExecutor.dfy`, `LibuvExecutor.dfy`, `ThreadPoolExecutor.dfy` | executor queues |
| `Http.dfy`, `HttpMessages.dfy`, `HttpReference.dfy`, `HttpConnection.dfy` | request assembly from parser callbacks; one message however cut; the same in terms of limits and joined values alone; several on one connection |

## Where the code and its documentation differ

- `include/hotcoco/core/coroutine_compat.hpp:23-28` says that the fallback's stack unwinds between
  each pair of transfers. It does not: `TaskTransfer.NestedResumeAgrees` shows the same result as
  symmetric transfer, with the native stack empty at the end, but `2n - 1` activations deep just before,
  where `n` is the number of frames run.
- `include/hotcoco/core/detached_task.hpp:24` starts a detached task through its handle. The object
  then still counts as not started, and its destructor destroys the frame a second time
  (`DetachedTask.HandleStartDestroysTwice`). The move constructor at line 80 does not move the flag
  either, so a started object must not be moved into a new one. `DetachedTask.SafeIffCareful` gives the
  exact discipline, which the uses in this repository follow.
- `include/hotcoco/core/timeout.hpp:15-17` says that without an executor the user's task always wins.
  The timer child's sleep then does not suspend (`include/hotcoco/io/timer.hpp:71-73`), so the timer
  wins exactly when nobody has continued the user's child past its compare-and-swap by the time the
  sleeping child comes to its own (`Timeout.TimerWinsIff`). On one thread that is when the user's task
  suspends (`Timeout.NoExecutorUserWinsIff`, `Timeout.TimerMayWin`); another thread may still continue
  it in time.
- `docs/tutorials/09_spawn_and_detached_coroutines.md:249-255` limits concurrency by discarding the guard
  that `co_await sem.Acquire()` gives and calling `Release` when the work is done. The discarded guard
  has already released, so that each such call adds a permit (`Handover.DirectReleaseAddsAPermit`):
  permits are conserved if and only if nobody calls `Release` directly
  (`Handover.ConservedIffOnlyGuardsRelease`). `benchmarks/sync_bench.cpp:101-102` does the same.
- `src/http/http.cpp:261-269` means to join repeated headers with `", "` (section 3.2.2 of RFC 7230).
  When the value of a repeated header arrives in several pieces, the replacing branch discards the
  earlier values (`HttpMessages.EarlierValueIsLost`), and a message past the limit on header bytes may be
  accepted (`HttpMessages.LimitIsEscaped`). `HttpMessages.MeantIffNoSplitRepeat` gives the exact condition.
- `src/http/http.cpp:305-309` lets the parser go on behind the end of a message, and the server's loop
  takes one request a read. A read with the end of one message and the beginning of the next gives a
  request with parts of both (`HttpConnection.MergedRequest`); `HttpConnection.AnswersAreMeantIffAligned`
  says exactly when all requests are as sent.
- `include/hotcoco/core/cancellation.hpp:65-68`: a `Cancel` that finds the flag set returns at once,
  possibly before any callback has run (`Cancellation.LosingCancelReturnsEarly`);
  `Cancellation.LosingCancelIsCompleteIff` says exactly when all have. The exactly-once result is about
  the `Cancel` that set the flag.

## Model

| member | source | states |
|---|---|---|
| Channel.Channel.constructor | include/hotcoco/core/channel.hpp:33-35 | A channel of capacity at least one starts open and empty with nobody waiting |
| Channel.Channel.Close | include/hotcoco/core/channel.hpp:207-223 | Close empties both wait lists once, and hands back all receivers and then all senders in queue order; a second Close does nothing |
| Channel.SendAwaitable.AwaitReady | include/hotcoco/core/channel.hpp:61-88 | First try of a send: fails when closed, else writes the first waiting receiver's slot and no other, else buffers, else must suspend |
| Channel.SendAwaitable.AwaitSuspend | include/hotcoco/core/channel.hpp:90-117 | Second try, which queues the sender with its value and a pointer to its flag only if nothing could be done |
| Channel.ReceiveAwaitable.AwaitReady | include/hotcoco/core/channel.hpp:135-160 | First try of a receive: the front value, with the first waiting sender promoted into the freed place and its flag set; end of stream when closed and empty |
| Channel.ReceiveAwaitable.AwaitSuspend | include/hotcoco/core/channel.hpp:162-190 | Second try, which queues the receiver with a pointer to its slot only if the channel is open and empty |
| Channel.ReceiveAwaitable.TakeFront | include/hotcoco/core/channel.hpp:139-149 | Taking the front value and promoting the first waiting sender is one step of the FIFO discipline |
| Channel.SendAwaitable.AwaitResume | include/hotcoco/core/channel.hpp:119 | A send gives true if its flag is set and it did not fail, by the same function as in the machine |
| ChannelRuns.StepKeeps | include/hotcoco/core/channel.hpp:61-229 | Each step keeps the joint invariant of buffer, both wait lists, flags, slots, history and wake-ups |
| ChannelRuns.LegalHistoriesAreFifo | include/hotcoco/core/channel.hpp:9-13 | The reference queue is FIFO and bounded: puts are takes, in order, followed by the queue's contents |
| ChannelRuns.RefinesBoundedFifo | include/hotcoco/core/channel.hpp:61-229 | Every interleaving has a history that is legal for the bounded FIFO and leads to the channel's buffer; delivered, buffered, held by waiting senders and dropped by Close make up the admitted messages in order |
| ChannelRuns.HistoryOnlyGrows | include/hotcoco/core/channel.hpp:61-229 | No step revises what was put, taken, rejected or admitted before |
| ChannelRuns.DeliveredAtMostOnce | include/hotcoco/core/channel.hpp:61-192 | No message is put or delivered twice, and every operation has at most one outcome |
| ChannelRuns.OutcomesAgreeWithHistory | include/hotcoco/core/channel.hpp:61-192 | Send returned true exactly if its value entered the queue, Receive returned nothing exactly if the channel was closed and drained at its deciding step, whatever ran before the resumption |
| ChannelRuns.NoLostWakeups | include/hotcoco/core/channel.hpp:90-229 | A suspended receiver implies an open, empty channel without waiting senders and everything sent already taken; a suspended sender an open and full one; a closed channel has nobody suspended |
| ChannelRuns.ResumedExactlyOnce | include/hotcoco/core/channel.hpp:84-229 | A suspended await is resumed once, and only then returns |
| ChannelRuns.WokenOnceInOrder | include/hotcoco/core/channel.hpp:61-229 | Sends, receives and Close hand back suspended coroutines in the order in which they were suspended, each once; those not handed back are just the parked ones, receivers or senders in queue order |
| ChannelRuns.CloseHandsBackEachOnce | include/hotcoco/core/channel.hpp:207-223 | The handles that Close will resume are the parked ones, each once, in the order of suspension |
| ChannelRuns.CloseDropsTheSuspended | include/hotcoco/core/channel.hpp:207-229 | Close keeps the buffer, drops exactly the values of suspended senders, whose sends give false, and gives suspended receivers end of stream |
| RWLock.AsyncRWLock.constructor | include/hotcoco/sync/rwlock.hpp:216-220 | A new lock is free |
| RWLock.AsyncRWLock.ReadAwaitReady | include/hotcoco/sync/rwlock.hpp:102-110 | A reader enters at once only if no writer holds or waits |
| RWLock.AsyncRWLock.ReadAwaitSuspend | include/hotcoco/sync/rwlock.hpp:112-120 | The second try, which queues the reader at the back otherwise |
| RWLock.AsyncRWLock.WriteAwaitReady | include/hotcoco/sync/rwlock.hpp:135-142 | A writer enters at once only if the lock is free |
| RWLock.AsyncRWLock.WriteAwaitSuspend | include/hotcoco/sync/rwlock.hpp:144-152 | The second try, which queues the writer at the back otherwise |
| RWLock.AsyncRWLock.ReadUnlock | include/hotcoco/sync/rwlock.hpp:169-186 | The last reader out hands the lock to the first waiting writer |
| RWLock.AsyncRWLock.WriteUnlock | include/hotcoco/sync/rwlock.hpp:188-214 | A writer hands the lock to all waiting readers, else to the first waiting writer |
| RWLockRuns.StepKeeps | include/hotcoco/sync/rwlock.hpp:102-214 | Each step keeps the joint invariant of counter, flag, owners and both queues |
| RWLockRuns.ExclusionAndNoStranding | include/hotcoco/sync/rwlock.hpp:102-214 | Two owners are two readers, from grant to release; the counter counts the reading owners; a free lock has no waiters, and a waiting reader implies a writer holding or waiting |
| RWLockRuns.EntersIffFree | include/hotcoco/sync/rwlock.hpp:102-152 | Each try is granted if and only if the lock is free for it: no writer owning or waiting for a reader, no owner for a writer |
| RWLockRuns.ServedOnceInOrder | include/hotcoco/sync/rwlock.hpp:169-214 | Unlocks hand back readers, and writers, in the order in which they began to wait, each once; those not handed back are just the waiting ones |
| RWLockRuns.BatchIsExact | include/hotcoco/sync/rwlock.hpp:197-203 | Overwriting the reader counter with the batch size is exact: no reader was in, and the batch becomes the set of readers |
| RWLockRuns.BoundedBypass | include/hotcoco/sync/rwlock.hpp:102-214 | While an operation waits nobody enters without waiting; a reader sees at most one writer enter, a writer with k before it at most k writers and k + 1 reader batches (k if the lock was not write-locked) |
| RWLockRuns.RunPasses | include/hotcoco/sync/rwlock.hpp:102-214 | Every phase change costs the waiting operation's rank at least one, and writers enter in queue order |
| RWLockRuns.ReleasesHelp | include/hotcoco/sync/rwlock.hpp:169-214 | A lexicographic distance to the lock falls at each release and never rises while waiting |
| RWLockRuns.WaitersCanBeServed | include/hotcoco/sync/rwlock.hpp:169-214 | From any reachable state, owners going on and releasing is enough to grant any waiter |
| Handover.AsyncSemaphore.constructor | include/hotcoco/sync/semaphore.hpp:97 | A semaphore starts with its permits and no waiters |
| Handover.AsyncSemaphore.AwaitReady | include/hotcoco/sync/semaphore.hpp:68-75 | Takes a permit if there is one |
| Handover.AsyncSemaphore.AwaitSuspend | include/hotcoco/sync/semaphore.hpp:77-85 | The second try, which queues otherwise |
| Handover.AsyncSemaphore.Release | include/hotcoco/sync/semaphore.hpp:101-116 | Passes the permit to the first waiter, else returns it |
| Handover.AsyncMutex.constructor | include/hotcoco/sync/mutex.hpp:149-151 | A mutex starts unlocked |
| Handover.AsyncMutex.AwaitReady | include/hotcoco/sync/mutex.hpp:74-81 | Locks if unlocked |
| Handover.AsyncMutex.AwaitSuspend | include/hotcoco/sync/mutex.hpp:83-91 | The second try, which queues otherwise |
| Handover.AsyncMutex.TryLock | include/hotcoco/sync/mutex.hpp:109-116 | Does what the first try of a lock does and never queues |
| Handover.AsyncMutex.Unlock | include/hotcoco/sync/mutex.hpp:131-147 | Stays locked for the first waiter, else unlocks |
| Handover.PermitsConserved | include/hotcoco/sync/semaphore.hpp:68-116 | Free permits plus owners are the initial count plus the direct calls of the public Release; waiters imply none free; waiters are served in the order they began to wait |
| Handover.ConservedIffOnlyGuardsRelease | include/hotcoco/sync/semaphore.hpp:33-116 | Free permits plus owners stay at the initial count if and only if nobody calls Release directly |
| Handover.DirectReleaseAddsAPermit | include/hotcoco/sync/semaphore.hpp:99-116 | A run that discards the guard and then calls Release, which ends with a permit too many and no owner |
| Handover.NoBarging | include/hotcoco/sync/semaphore.hpp:68-116 | While somebody waits nobody is granted without waiting, and a release, by an owner or direct, grants exactly the longest waiting one |
| Handover.GrantedIffPermitLeft | include/hotcoco/sync/semaphore.hpp:68-85 | Each try is granted if and only if owners have left a permit, and the second try queues at the back otherwise |
| Handover.MutexIsBinarySemaphore | include/hotcoco/sync/mutex.hpp:74-147 | A mutex and a semaphore of one permit agree step by step on every run |
| Handover.MutexExcludes | include/hotcoco/sync/mutex.hpp:74-147 | A mutex has at most one owner, from grant to release |
| Guards.Guard.MoveFrom | include/hotcoco/sync/semaphore.hpp:44 | The guard moved from is empty |
| Guards.Guard.Assign | include/hotcoco/sync/semaphore.hpp:45-52 | Releases what the guard had before it takes over the other's; self-assignment changes nothing |
| Guards.Guard.Destruct | include/hotcoco/sync/semaphore.hpp:37-41 | Releases once, unless empty |
| Guards.ScopedLock.MoveFrom | include/hotcoco/sync/mutex.hpp:50 | The lock guard moved from is empty |
| Guards.ScopedLock.Assign | include/hotcoco/sync/mutex.hpp:51-58 | Unlocks what the guard had before it takes over the other's; self-assignment changes nothing |
| Guards.ScopedLock.Destruct | include/hotcoco/sync/mutex.hpp:43-47 | Unlocks once, unless empty |
| Guards.GuardsAreOwners | include/hotcoco/sync/semaphore.hpp:33-116 | Every run of a program that has guards and calls Release is a run of owners and direct calls, so all results about the semaphore hold of it |
| Guards.PermitsInGuards | include/hotcoco/sync/semaphore.hpp:33-116 | Free permits, unreceived grants and live guards add up to the initial count plus the direct calls of Release, however guards are moved |
| Guards.GuardEndsReleaseOnce | include/hotcoco/sync/semaphore.hpp:37-53 | A guard's end releases its own grant, for which no other guard stands |
| Guards.AssignReleasesOnce | include/hotcoco/sync/semaphore.hpp:45-52 | Assigning to a guard gives its own grant back at that moment, and no other; the other guard's grant stays held under the new name, and that guard is empty |
| Guards.MoveReleasesNothing | include/hotcoco/sync/semaphore.hpp:44 | A move hands the grant on and releases nothing |
| TaskFrames.TaskPromise.ReturnValue | include/hotcoco/core/task.hpp:143 | Stores the result and leaves the links alone |
| TaskFrames.TaskPromise.SetContinuation | include/hotcoco/core/task.hpp:167-171 | Links the awaiting coroutine once; a second await aborts and changes nothing |
| TaskFrames.TaskPromise.FinalSuspend | include/hotcoco/core/task.hpp:124-130 | Control goes to the continuation, or nowhere if there is none |
| Task.TemporaryIsACall | include/hotcoco/core/task.hpp:230-256 | Awaiting a temporary task gives its value and leaves nothing of it |
| Task.TakeIs | include/hotcoco/core/task.hpp:213 | Moving tasks out of slots one after the other passes each the first time it is named and leaves just the slots not named |
| TaskRuns.DestroyTakes | include/hotcoco/core/task.hpp:202-206 | Destroying a task object destroys its frame and those of all tasks it owns, and no other |
| TaskRuns.CreateLeads | include/hotcoco/core/task.hpp:213 | Calling a coroutine makes a suspended frame that owns the tasks passed to it, whose slots are left empty |
| TaskRuns.DropLeads | include/hotcoco/core/task.hpp:202-206 | The end of a task object takes its frames away and leaves the other tasks of its holder |
| TaskRuns.AwaitCalls | include/hotcoco/core/task.hpp:246-249 | co_await links a task that was not awaited to the awaiting frame, and its code begins |
| TaskRuns.AwaitReturns | include/hotcoco/core/task.hpp:253-255 | At its end the awaiting frame goes on with its value; the task's frame stays while its holder keeps it |
| TaskRuns.RunsAsEvaluated | include/hotcoco/core/task.hpp:113-256 | Among any other frames, a frame runs to its end, or to where the machine stops, with the value, observations and tasks of recursive evaluation |
| TaskRuns.SymmetricTransferIsEvaluation | include/hotcoco/core/task.hpp:113-256 | For every program and task tree, with tasks created, kept, passed on, dropped and awaited, jumping between frames ends as recursive evaluation does; only the task's own frame and those it was given are left; the program aborts exactly if evaluation awaits a task twice, and where it awaits one that is gone, which is undefined, the model stops |
| TaskRuns.EachFrameRunsOnce | include/hotcoco/core/task.hpp:113-256 | No frame ever starts twice, and unless the machine is stopped each that started ends once |
| TaskTransfer.NestedFollows | include/hotcoco/core/coroutine_compat.hpp:71-87 | Nested resumption follows the jumps step by step, with one native activation per transfer |
| TaskTransfer.NestedResumeAgrees | include/hotcoco/core/coroutine_compat.hpp:71-87 | Both ways of transferring control end in the same machine, stopped or not; the native stack is 2n - 1 deep before it unwinds |
| TaskTransfer.ThenRuns | include/hotcoco/core/combinators.hpp:48-63 | Then gives f of a task's value after that task's own observations, and keeps the task's frame as long as its own |
| TaskTransfer.MovedTaskArrives | include/hotcoco/core/combinators.hpp:48-63 | A task held in a slot and moved into Then arrives there: awaiting it gives f of its value, and the slot is empty |
| TaskTransfer.MeaningIsLocal | include/hotcoco/core/task.hpp:113-256 | Values and faults do not depend on handles nor on what ran before |
| TaskTransfer.ThenComposes | include/hotcoco/core/combinators.hpp:48-92 | Two in a row give what one with the composed function gives, the same value or the same fault |
| DetachedTask.DetachedTask.constructor | include/hotcoco/core/detached_task.hpp:77 | A new task object has its frame and is not started |
| DetachedTask.DetachedTask.MoveFrom | include/hotcoco/core/detached_task.hpp:80 | The frame is moved and the started flag is not |
| DetachedTask.DetachedTask.Assign | include/hotcoco/core/detached_task.hpp:82-91 | Destroys an unstarted frame of its own, then takes over frame and flag; self-assignment changes nothing |
| DetachedTask.DetachedTask.Destruct | include/hotcoco/core/detached_task.hpp:98-102 | Destroys the frame exactly if there is one and the object was not started |
| DetachedTask.DetachedTask.Start | include/hotcoco/core/detached_task.hpp:112-117 | Marks the object started and resumes its frame, if it has one |
| DetachedTask.CarefulIff | include/hotcoco/core/detached_task.hpp:77-117 | In a sound state an event is careful if and only if afterwards every object can be destroyed |
| DetachedTask.SafeIffCareful | include/hotcoco/core/detached_task.hpp:77-117 | On every run, callers are careful throughout if and only if at every moment every object can be destroyed |
| DetachedTask.StartBegins | include/hotcoco/core/detached_task.hpp:112-117 | In careful runs, starting an unstarted object with a frame runs that frame, marks the object and changes nothing else |
| DetachedTask.EndsOfObjects | include/hotcoco/core/detached_task.hpp:82-102 | In careful runs, destroying an object or assigning to it destroys an unstarted frame of its own and leaves a started one alone; assignment takes over frame and flag and leaves the other object without a frame |
| DetachedTask.MoveTakesTheFrame | include/hotcoco/core/detached_task.hpp:80 | In careful runs, a move changes just the two objects: the new one holds the frame and is not started, the other holds none |
| DetachedTask.CallbackIsCalled | include/hotcoco/core/detached_task.hpp:49-108 | In careful runs, a callback set on a task is called, once, exactly if the frame's code has begun and ended, whatever happens to the object |
| DetachedTask.DestroyedExactlyOnce | include/hotcoco/core/detached_task.hpp:49-117 | In careful runs a frame begins, calls its callback and is destroyed at most once, and an unstarted frame has exactly one object, which destroys it |
| DetachedTask.HandleStartDestroysTwice | include/hotcoco/core/detached_task.hpp:22-24 | The documented start through the handle makes the object destroy the frame again |
| Event.AsyncEvent.constructor | include/hotcoco/sync/event.hpp:110-113 | An event starts unset with no waiters |
| Event.AsyncEvent.AwaitReady | include/hotcoco/sync/event.hpp:54-57 | A wait is ready exactly if the event is set |
| Event.AsyncEvent.AwaitSuspend | include/hotcoco/sync/event.hpp:59-66 | Queues the waiter unless the event is set by now |
| Event.AsyncEvent.Set | include/hotcoco/sync/event.hpp:82-95 | Sets the event and takes all waiters; nothing if already set |
| Event.AsyncEvent.Reset | include/hotcoco/sync/event.hpp:99-102 | Unsets the event and keeps its waiters |
| WhenAll.WhenAllLatch.constructor | include/hotcoco/core/when_all.hpp:57 | The latch counts the children and the parent |
| WhenAll.WhenAllLatch.TryAwait | include/hotcoco/core/when_all.hpp:59-63 | The handle is stored and the parent's count dropped; suspend exactly if children are left |
| WhenAll.WhenAllLatch.Notify | include/hotcoco/core/when_all.hpp:65-70 | The count drops by one, and the last to arrive resumes the stored handle |
| WhenAll.StepKeeps | include/hotcoco/core/when_all.hpp:55-75 | Each atomic operation keeps the count equal to what has yet to arrive, with one child at most about to resume the parent |
| WhenAll.JoinsAll | include/hotcoco/core/when_all.hpp:55-251 | For every number of children and interleaving the parent continues at most once and after all children finished; no count wraps, no handle is read before it is stored, no child touches a latch that may be gone |
| WhenAll.ParentNotForgotten | include/hotcoco/core/when_all.hpp:59-70 | A suspended parent still has a child at work or about to resume it |
| WhenAll.ParentContinues | include/hotcoco/core/when_all.hpp:59-70 | From any reachable state in which all tasks have returned, steps of the latch alone lead to where the parent has continued, exactly once |
| WhenAll.ValuesStay | include/hotcoco/core/when_all.hpp:101 | A returned value is not overwritten |
| WhenAll.AwaitResume | include/hotcoco/core/when_all.hpp:253-260 | Results are in the order the tasks were given, whatever the order of completion |
| WhenAny.SharedState.Claim | include/hotcoco/core/when_any.hpp:83-85 | The compare-and-swap succeeds exactly for the first claimant |
| WhenAny.StepKeeps | include/hotcoco/core/when_any.hpp:79-144 | Each step keeps the joint invariant of race, result, event, join, caller and controller frame |
| WhenAny.FirstCompletionWins | include/hotcoco/core/when_any.hpp:79-144 | One child at most wins; the result is written once and before the event is set; the caller returns the winner's index and value and is resumed at most once; the controller's frame is destroyed at most once and after every child finished |
| WhenAny.OutcomeIsFinal | include/hotcoco/core/when_any.hpp:83-89 | Winner, result and the caller's answer never change |
| WhenAny.CallerNotForgotten | include/hotcoco/core/when_any.hpp:141-143 | A suspended caller implies a child that has not finished racing |
| WhenAny.ControllerEnds | include/hotcoco/core/when_any.hpp:108-122 | With all children done the controller is past its join and its frame is then destroyed |
| WhenAny.CallerReturns | include/hotcoco/core/when_any.hpp:79-144 | From any reachable state in which all tasks have given values, protocol steps alone lead to where the caller has returned the winner's index and value and the controller's frame is destroyed, once |
| WhenAny.NoTasksIsInvalid | include/hotcoco/core/when_any.hpp:131-134 | With no tasks the caller gives an error and no controller is started |
| Timeout.TimeoutState.UserChild | include/hotcoco/core/timeout.hpp:78-86 | The user's child writes its value exactly if it is first |
| Timeout.TimeoutState.TimerChild | include/hotcoco/core/timeout.hpp:89-97 | The timer's child sets the flag exactly if it is first |
| Timeout.TimeoutState.Give | include/hotcoco/core/timeout.hpp:153-157 | The caller gives a timeout if the flag is set, else the user's value |
| Timeout.FieldsAreTheWinners | include/hotcoco/core/timeout.hpp:78-97 | In every interleaving of the two children, each writing its own field, the fields are never both set and are the winner's, and one is set before the event is |
| Timeout.AnswerIsTheWinners | include/hotcoco/core/timeout.hpp:77-158 | The caller gives the user's value exactly if the user's child won, a timeout exactly if the timer did, and never reads an empty optional |
| Timeout.TimerWinsIff | include/hotcoco/core/timeout.hpp:78-97 | Without an executor, in every run: the timer wins if and only if nobody has continued the user's child past its compare-and-swap when the sleeping child comes to its own, and then the user's task did suspend |
| Timeout.NoExecutorUserWinsIff | include/hotcoco/core/timeout.hpp:78-158 | Without an executor a user's task that does not suspend wins in every run, and on one thread it wins if and only if it does not suspend; the caller answers accordingly |
| Timeout.TimerMayWin | include/hotcoco/core/timeout.hpp:121-128 | A run on one thread without an executor in which the timer wins |
| TaskGroup.TaskGroup.constructor | include/hotcoco/core/task_group.hpp:36-40 | An empty group's event is set |
| TaskGroup.TaskGroup.Start | include/hotcoco/core/task_group.hpp:57-60 | Starting unsets the event and counts the new one |
| TaskGroup.TaskGroup.Completed | include/hotcoco/core/task_group.hpp:64-68 | The last completion sets the event and hands back its waiters |
| TaskGroup.EventMeansEmpty | include/hotcoco/core/task_group.hpp:36-73 | Whenever user code runs, through any nesting and number of rounds, the event is set exactly when nothing is outstanding, and then nobody waits |
| TaskGroup.WaitersSawEmpty | include/hotcoco/core/task_group.hpp:57-78 | A waiter proceeds only after an instant, since it began to wait, with nothing outstanding |
| TaskGroup.WokenOnceInOrder | include/hotcoco/sync/event.hpp:59-95 | Each waiter suspended on the group's event is handed back once, in the order of suspension; those not handed back still wait |
| Cancellation.CancellationState.Cancel | include/hotcoco/core/cancellation.hpp:65-81 | The first cancel takes all pending callbacks, and later ones none |
| Cancellation.CancellationState.RegisterCallback | include/hotcoco/core/cancellation.hpp:85-102 | A fresh handle, or 0 when already cancelled and the caller runs the callback |
| Cancellation.CancellationState.UnregisterCallback | include/hotcoco/core/cancellation.hpp:104-115 | The scan takes out of both vectors the entry of that handle and nothing else |
| Cancellation.StepKeeps | include/hotcoco/core/cancellation.hpp:65-115 | Each step keeps every decided callback in exactly one place |
| Cancellation.RunsExactlyOnce | include/hotcoco/core/cancellation.hpp:65-115 | No callback runs twice; once the cancel that set the flag returned, every registered callback has run once unless unregistered before the drain, and those never run |
| Cancellation.VectorsAligned | include/hotcoco/core/cancellation.hpp:93-110 | Callbacks and handles stay aligned; handles are distinct, increasing and not 0 |
| Cancellation.CalledInOrder | include/hotcoco/core/cancellation.hpp:65-81 | The cancel that drains calls callbacks in the order in which they were registered |
| Cancellation.UnregisterWhilePending | include/hotcoco/core/cancellation.hpp:104-115 | Unregistering a pending callback takes out just that one, and after the drain nothing |
| Cancellation.UnregisterTakesJustThat | include/hotcoco/core/cancellation.hpp:104-115 | Whenever it runs, unregistering takes out the callback pending under the handle and leaves the others in order under theirs; if none is pending under it nothing changes |
| Cancellation.LosingCancelIsCompleteIff | include/hotcoco/core/cancellation.hpp:65-81 | A cancel that finds the flag set returns at once; in every run all callbacks it answers for have then run if and only if the one that set the flag has drained the vector and called everything in it |
| Cancellation.LosingCancelReturnsEarly | include/hotcoco/core/cancellation.hpp:66-68 | A run in which it returns with a callback still to run |
| FramePool.BucketIsBestFit | include/hotcoco/core/frame_pool.hpp:170-184 | A request goes to the smallest class that fits, and to none exactly if no class fits |
| FramePool.ClassesInNumbers | include/hotcoco/core/frame_pool.hpp:170-184 | Classes are 64 bytes doubled up to 2048, a request has the smallest that fits, and requests over 2048 have none |
| FramePool.FramePool.constructor | include/hotcoco/core/frame_pool.hpp:186-187 | A pool starts empty with zero statistics |
| FramePool.FramePool.DoAllocate | include/hotcoco/core/frame_pool.hpp:117-138 | A block from the top of its class, or a new one of the class's size, or of the request's when oversized; counted accordingly |
| FramePool.FramePool.DoDeallocate | include/hotcoco/core/frame_pool.hpp:140-159 | A block goes back to its class unless that is full, oversized ones to the system, null nowhere |
| FramePool.FramePool.DoClear | include/hotcoco/core/frame_pool.hpp:161-168 | Exactly the pooled blocks are freed, and statistics stay |
| FramePool.StepKeeps | include/hotcoco/core/frame_pool.hpp:117-184 | Each operation on any thread keeps blocks, homes, capacities and counts consistent |
| FramePool.BlocksAreConserved | include/hotcoco/core/frame_pool.hpp:117-184 | Over many threads, heap blocks are those in use and those pooled, each pooled once, at most 64 a bucket, all of the bucket's size; allocations are hits, misses and oversized |
| FramePool.AllocateGivesAFreeBlock | include/hotcoco/core/frame_pool.hpp:117-138 | Allocate never gives a block in use or leaves it in a pool, and the block is large enough |
| FramePool.AllocateInNumbers | include/hotcoco/core/frame_pool.hpp:117-138 | Requests over 2048 bytes are new blocks and counted as oversized; others take the top of their class and count as hits, or are new and count as misses exactly if the class is empty; nothing else changes |
| FramePool.DeallocateInNumbers | include/hotcoco/core/frame_pool.hpp:140-159 | A freed block becomes the top of its class if that has fewer than 64 blocks, and goes back to the system otherwise; each call is counted; null does nothing else |
| FramePool.FreedIsReused | include/hotcoco/core/frame_pool.hpp:117-159 | A block freed on a thread is the next of its class given out there, unless the class was full, and then heap and pool are as before |
| FramePool.ClearFreesThePool | include/hotcoco/core/frame_pool.hpp:108-168 | Clear, and the end of a thread, free each pooled block of that thread once and no other |
| PollingExecutor.Executor.TakeQueues | src/io/polling_executor.cpp:187-195 | Takes both queues whole, so what is added meanwhile waits |
| PollingExecutor.Executor.TakeExpired | src/io/polling_executor.cpp:214-229 | Takes exactly the expired entries, earliest first without those done, and leaves exactly the unexpired ones |
| PollingExecutor.TimersFireInOrder | src/io/polling_executor.cpp:161-235 | Over whole runs no timer fires before its deadline, each at most once, and in the order of deadlines even when resumed coroutines add timers |
| PollingExecutor.TimersAreConserved | src/io/polling_executor.cpp:161-235 | Every timer set is in exactly one place: waiting, about to be resumed, resumed, or dropped because its coroutine was done |
| PollingExecutor.QueuesInOrder | src/io/polling_executor.cpp:153-212 | Scheduled coroutines and posted callbacks are processed once each, in the order they came, whatever they add |
| PollingExecutor.RoundProcessesAll | src/io/polling_executor.cpp:183-212 | A round processes all that was scheduled and posted before it began, in order, whatever is added while it lasts |
| PollingExecutor.LoopFinishes | src/io/polling_executor.cpp:131-212 | From any reachable state the loop's own steps process everything scheduled and posted |
| PollingExecutor.DueTimersFire | src/io/polling_executor.cpp:214-235 | From any reachable state the loop's own steps fire every timer that is due, unless its coroutine is done |
| LibuvExecutor.Executor.Push | src/io/libuv_executor.cpp:103-131 | The locked half of Schedule, ScheduleAfter and Post appends to one queue |
| LibuvExecutor.Executor.OnAsync | src/io/libuv_executor.cpp:137-147 | The signal leaves the idle handler active |
| LibuvExecutor.Executor.TakeQueues | src/io/libuv_executor.cpp:197-202 | Takes all three queues whole |
| LibuvExecutor.Executor.Recheck | src/io/libuv_executor.cpp:168-174 | The idle handler stops exactly if all queues are empty |
| LibuvExecutor.NoLostWakeups | src/io/libuv_executor.cpp:103-242 | Something queued implies an active idle handler, a pending or handled signal, or a producer about to signal; the coroutines processed, taken and queued are those handed in, in order, and so are callbacks and timers |
| LibuvExecutor.LoopFinishes | src/io/libuv_executor.cpp:137-242 | Once producers have signalled, from some number of its own steps on the loop thread has processed everything and sleeps |
| LibuvExecutor.AllIsProcessed | src/io/libuv_executor.cpp:103-242 | In every run the loop's own steps come to where the coroutines, callbacks and timers processed are those handed in, in order |
| ThreadPoolExecutor.Executor.Schedule | src/io/thread_pool_executor.cpp:117-147 | Appends work, and drops null handles and empty callbacks |
| ThreadPoolExecutor.Executor.TakeWork | src/io/thread_pool_executor.cpp:178-193 | Takes the front item and counts it in the same locked block, or quits |
| ThreadPoolExecutor.WorkIsAccountedFor | src/io/thread_pool_executor.cpp:117-208 | Each item is queued, in flight with one worker, or finished, and the count is the number in flight |
| ThreadPoolExecutor.TakesTheOldest | src/io/thread_pool_executor.cpp:178-193 | A waiting worker takes and counts the oldest item in one step, even when asked to stop |
| ThreadPoolExecutor.WorkFinishes | src/io/thread_pool_executor.cpp:175-208 | From any reachable state with a worker that has not quit, the workers' own steps finish everything queued |
| ThreadPoolExecutor.RunReturnsWhenDone | src/io/thread_pool_executor.cpp:73-208 | Run's condition holds if and only if it was asked to stop, whatever is left, or everything ever queued is finished |
| Http.HttpParser.Reset | src/http/http.cpp:216-225 | Back to a fresh parser |
| Http.HttpParser.Url | src/http/http.cpp:227-238 | Appends to the URL unless it would pass its limit |
| Http.HttpParser.HeaderField | src/http/http.cpp:240-251 | Appends to the name, starting anew after a value |
| Http.HttpParser.HeaderValue | src/http/http.cpp:253-292 | Enters, joins or replaces a header, then checks both limits |
| Http.HttpParser.HeaderBytes | src/http/http.cpp:281-285 | The total size of names and values |
| Http.HttpParser.Body | src/http/http.cpp:294-303 | Appends to the body unless it would pass its limit |
| Http.HttpParser.PathAndQuery | src/http/http.cpp:205-212 | The path has no question mark, and path, question mark and query rebuild the URL |
| HttpMessages.HeaderPieces | src/http/http.cpp:240-292 | What one header in any number of pieces does to the table, errors included |
| HttpMessages.ResultIsEntered | src/http/http.cpp:201-309 | Every delivery, within the limits or not, comes to what the pieces of its headers and trailers do one by one; how URL, body, names and new values are cut does not matter |
| HttpMessages.ResultIsMeaning | src/http/http.cpp:201-309 | The outcome, errors and messages included, is what the uncut message means, however it is cut, if no repeated header's value is cut |
| HttpMessages.ChunkIndependent | src/http/http.cpp:201-309 | Two such deliveries of one message give the same outcome |
| HttpMessages.DistinctNamesChunkIndependent | src/http/http.cpp:227-309 | When names differ up to case, any two deliveries of one message give the same outcome |
| HttpMessages.MeantIffNoSplitRepeat | src/http/http.cpp:261-272 | For a message within the limits the outcome is as meant if and only if no repeated header had its value cut, and header bytes are lost exactly then |
| HttpMessages.EarlierValueIsLost | src/http/http.cpp:267-269 | A message whose repeated header comes in two pieces, and the value it loses |
| HttpMessages.LimitIsEscaped | src/http/http.cpp:261-290 | A message past the limit on header bytes that is accepted for that reason |
| HttpReference.LoweredIffSame | include/hotcoco/http/http.hpp:42-50 | Two names are one header's if and only if they agree at every position up to the case of ASCII letters |
| HttpReference.OutcomeInNumbers | src/http/http.cpp:201-309 | A message that cuts no repeated value is accepted if and only if its URL has at most 8192 characters, its headers and trailers at most 100 names up to case and 65536 bytes, its body at most 10485760; the request has each name once, as first spelled, with its values joined by a comma and a space; else the error is that of the first limit passed |
| HttpReference.TwoNamesAreAccepted | src/http/http.cpp:272-290 | Two headers of different names, within the bytes, are accepted as two |
| HttpReference.HundredNames | src/http/http.cpp:275-280 | A hundred different names are accepted, and a hundred and one are too many |
| HttpConnection.AnswersAreMeantIffAligned | src/http/http.cpp:345-392 | On a connection that is kept alive, however reads cut the stream of messages, the server answers each as meant if and only if no read goes on behind the end of a message |
| HttpConnection.MergedRequest | src/http/http.cpp:305-309 | Two messages in one read give one request with both URLs |

## Left out

- C++ memory orderings, moved-from objects and the layout of coroutine frames: atomic steps are
  sequentially consistent, a moved-from value is simply not read again, and frames are records.
- The channel's destructor, which discards waiters and assumes no further use.
- Moves of the read-write lock's guards: there an operation owns its guard from the grant to the
  release. The other guards are followed over one semaphore, and code that a guard's assignment resumes
  does not touch the two guards being assigned.
- What happens after a detached task's frame was destroyed wrongly: nothing is followed from there.
- Loops around co_await inside one task and tasks that never end: task programs are finite, with
  data-dependent branches, and all values have one type. A frame that suspends on an executor or a lock
  is not part of that model. Assigning to a task variable is dropping its task and creating another.
- The interleavings of WithTimeout are those of the race with two children.
- The no-op coroutine's own activation is not counted in the native stack of the fallback.
- The tie order of std::priority_queue: the top is any entry with the least deadline.
- A resumed coroutine that calls RunOnce on its own polling executor: it takes later timers before those
  already taken have been resumed, which breaks their order.
- Timers set from other threads than the loop's, and negative delays: a thread may be delayed between
  reading the clock and pushing, and then a later push can carry an earlier deadline.
- The libuv timer that could not be started and is resumed at once; timers are followed up to the
  point where the loop takes them.
- The condition variable that the thread pool's Run and workers wait on, its timer loop, and
  ThreadPoolExecutor::RunOnce, which counts work after releasing the lock.
- Task groups used from several threads: resetting the event and counting are two steps there.
- llhttp itself: it is a source of callbacks that gives at least one piece of each name and value. What it
  makes of the rest of a message after a reset in its middle does not matter to the results, as the
  answer before the reset is wrong already. Connections that are not kept alive end with the first answer.
- The header map's iteration order: the table keeps the order in which names were first seen.
- FramePool's bypass under address sanitizer, where nothing is pooled.
- Overflow of machine-sized counters: counts are unbounded, and WhenAll.JoinsAll shows that the
  latch's count never goes below zero.
- io_uring, files, TCP, the HTTP server, std::execution adapters, generators, retry, spawn, SyncWait,
  Result and error codes.
