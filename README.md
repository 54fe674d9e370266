# tiny-thread-pool, modelled in Dafny

This project models the core of tiny-thread-pool, a small C++ thread pool:

- `ttp::BlockingQueue<T>`, a mutex-guarded FIFO queue;
- `ttp::ThreadPool`, which runs enqueued work on worker threads, queues each
  item's callback, and runs the callbacks on whichever thread calls
  `ExecuteCallbacks`.

The project has three files, one module each:

- `blocking_queue.dfy` (module `BlockingQueues`). The queue is a class whose
  `items` field is the `std::queue`, front first. `Peek` and `Pop` return
  the `std::out_of_range("Out of range")` exception as a value.
- `pool_state.dfy` (module `PoolStates`). It holds the pool's values:
  - `Task`, `TaskBase`, `Work`, and the local state of each worker thread.
  - `PoolState`, a snapshot of the whole pool, and `Inv`, its bookkeeping
    invariant:
    - `current_work_count_` is the number of workers holding an item;
    - every enqueued item is queued, in flight or finished, exactly once;
    - a workload has run for every held item past `Taken` (the phase right
      after the first critical section);
    - the callbacks posted are exactly those of the items whose worker has
      reached `callbacks_.Push`;
    - a worker exits only after `stopping_` is set.
  - One lemma per critical section showing that the step keeps `Inv`, and
    the consequences of `Inv` at the point where `Wait` returns.
- `thread_pool.dfy` (module `ThreadPools`). `ThreadPool` is a class whose
  methods are the pool's critical sections. The worker lambda's loop body is
  split at its lock boundaries into four methods:
  - `Dequeue`: wait, test `stopping_`, then take an item;
  - `ExecuteWorkload`: `workload->Execute()`;
  - `PostCallback`: `if (callback) callbacks_.Push(callback)`;
  - `Release`: `current_work_count_--`.

  Any caller may act as the scheduler, running these steps in any order the
  preconditions allow. Every scheduling step (the four above, `Enqueue`,
  `EnqueueFuture`, `Stop`, `Wait`, `RunFrontCallback`, `ExecuteCallbacks`,
  `Join` and `Destroy`) requires and keeps `Valid()`, that is, `Inv` of the
  current state. The steps that run a closure also require and keep
  `Logged()`; the others leave the three logs unchanged. The inner pieces `PushCallback`,
  `RunAndPopFront`, `DrainCallbacks` and `SpawnWorkers` only state their
  effect on the fields; the step that calls them re-establishes `Valid()`.
  The destructor is `Destroy`: `Stop`, then `Join` for each worker, then
  `ExecuteCallbacks`.

User closures are opaque. Each one is named by a `ClosureId`, and running
one appends its id to the ghost log `invocations`. `Logged()` ties that log
to the two logs of what has run: the calls made are exactly those of the
workloads in `ran` and those of the callbacks in `callbacksRun`, counted
with multiplicity, as multisets; their order is not recorded
(`CallsLogged`). This is what lets `Destroy` conclude that
every finished item's workload and every run callback has actually made
its calls.

`std::thread::hardware_concurrency()` is a constructor parameter. The
out-of-line constructor in `src/thread_pool.cpp` starts
`min(thread_count, hardware)` workers. The inline one in the header starts
`thread_count` workers, which is the same as passing a hardware count of at
least `thread_count`.

## Model

| member | source | states |
|---|---|---|
| BlockingQueues.BlockingQueue.constructor | include/blocking_queue.hpp:52-54 | a new queue holds no elements |
| BlockingQueues.BlockingQueue.Push | include/blocking_queue.hpp:12-20 | both overloads append the element at the back and change nothing else |
| BlockingQueues.BlockingQueue.Empty | include/blocking_queue.hpp:22-25 | true exactly when the queue holds no element |
| BlockingQueues.BlockingQueue.Peek | include/blocking_queue.hpp:27-35 | returns the front element; on an empty queue it fails with out_of_range("Out of range") |
| BlockingQueues.BlockingQueue.Pop | include/blocking_queue.hpp:37-45 | removes exactly the front element; on an empty queue it fails with out_of_range("Out of range") and leaves the queue as it was |
| BlockingQueues.BlockingQueue.Size | include/blocking_queue.hpp:47-50 | the number of elements held |
| BlockingQueues.EmptyIffSizeZero | include/blocking_queue.hpp:22-25 | Empty() is true exactly when Size() is 0 |
| BlockingQueues.PushAllThenDrain | include/blocking_queue.hpp:12-50 | FIFO order: after pushing any sequence into a fresh queue, repeated Peek/Pop until Empty() gives back the same sequence, and the size ends at 0 |
| BlockingQueues.StartsEmpty | test/src/blocking_queue_tests.cpp:5-12 | a fresh queue has size 0 and is empty |
| BlockingQueues.PushUpdatesSize | test/src/blocking_queue_tests.cpp:14-24 | after one Push the size is 1 and the queue is not empty |
| BlockingQueues.PopsInPushOrder | test/src/blocking_queue_tests.cpp:26-43 | pushing 1, 2, 3 then peeking and popping gives 1, 2, 3 and ends with size 0 |
| BlockingQueues.EmptyQueueFails | test/src/blocking_queue_tests.cpp:45-73 | Pop and Peek on a fresh queue both fail with out_of_range whose text is "Out of range" |
| PoolStates.Task.Execute | src/thread_pool.cpp:83-87 | an empty std::function makes no invocation; otherwise the closure is invoked exactly once |
| PoolStates.TaskBase.Execute | include/thread_pool.hpp:119-140 | a PackagedTask always invokes its closure once; a Task behaves as Task::Execute |
| PoolStates.AllCallsSnoc | include/thread_pool.hpp:102-107 | running one more callback appends exactly that callback's invocations to the log |
| PoolStates.WorkloadCallsSnoc | include/thread_pool.hpp:42 | running one more workload appends exactly that workload's invocations to the log |
| PoolStates.AllCallsAppend | src/thread_pool.cpp:64-69 | running two runs of callbacks one after the other makes the calls of the first run followed by those of the second |
| PoolStates.WorkloadLogged | include/thread_pool.hpp:42 | running a workload and logging it as run keeps the call log equal, as a multiset, to the calls of all workloads and callbacks run |
| PoolStates.CallbackLogged | src/thread_pool.cpp:66-67 | running one callback and logging it as run keeps the call log in step with the logs of what has run |
| PoolStates.CallbacksLogged | src/thread_pool.cpp:64-69 | running a whole run of callbacks in order keeps the call log in step with the logs of what has run |
| PoolStates.LoggedCallsMade | include/thread_pool.hpp:42-46 | when the call log is in step, every call of every workload run and of every callback run is in the log |
| PoolStates.FinishedWorkloadsCalled | include/thread_pool.hpp:42-52 | when the finished items are exactly the items whose workload ran, every call of every finished item's workload is in the log |
| PoolStates.EffectiveThreadCount | src/thread_pool.cpp:8-9 | the worker count is min(requested, hardware): at most each, and equal to one of them |
| PoolStates.CallbacksFollowWorkloads | include/thread_pool.hpp:42-46 | under the invariant, every posted callback (queued or already run) belongs to an item whose workload has already run |
| PoolStates.InFlightBound | include/thread_pool.hpp:34 | under the invariant, current_work_count_ never exceeds the number of workers |
| PoolStates.QuiescentAllRan | include/thread_pool.hpp:113-116 | when Wait's predicate holds, every enqueued workload has run exactly once, every item is finished, and the callbacks posted are exactly those of the enqueued items |
| PoolStates.QuiescentCallbackPerItem | test/src/thread_pool_tests.cpp:69-83 | when Wait's predicate holds and all items came from the void Enqueue, there is one posted callback per item (1024 items give 1024) |
| PoolStates.FutureItemsPostNothing | include/thread_pool.hpp:86-96 | when all items came from the future Enqueue, no callback is ever posted or run |
| PoolStates.CallbacksAllPresent | include/thread_pool.hpp:77-80 | items that all carry a callback pointer contribute one callback each |
| PoolStates.CallbacksAllAbsent | include/thread_pool.hpp:91 | items whose callback pointer is null contribute no callback |
| PoolStates.EnqueuePreservesInv | include/thread_pool.hpp:77-96 | enqueueing one item at the back keeps the invariant |
| PoolStates.ExitPreservesInv | include/thread_pool.hpp:30-32 | an idle worker of a stopping pool that leaves its loop keeps the invariant |
| PoolStates.TakePreservesInv | include/thread_pool.hpp:34-39 | taking the front item and incrementing the count keeps the invariant |
| PoolStates.ExecutePreservesInv | include/thread_pool.hpp:42 | running a taken item's workload keeps the invariant |
| PoolStates.PostPreservesInv | include/thread_pool.hpp:44-46 | pushing the item's non-null callback keeps the invariant |
| PoolStates.ReleasePreservesInv | include/thread_pool.hpp:48-52 | the count is at least 1 before the decrement, so it never underflows, and decrementing it keeps the invariant |
| PoolStates.RunCallbackPreservesInv | src/thread_pool.cpp:66-67 | moving the front callback from the queue to the log of run callbacks keeps the invariant |
| PoolStates.DrainPreservesInv | include/thread_pool.hpp:102-107 | moving the whole callback queue, in order, to the log of run callbacks keeps the invariant |
| PoolStates.StopPreservesInv | include/thread_pool.hpp:59-62 | setting stopping_ keeps the invariant |
| PoolStates.ExitedPoolBalanced | src/thread_pool.cpp:57-61 | once every worker has exited and the callback queue is empty: the count is 0, every enqueued item is still queued or finished, the items finished are exactly those whose workload ran, and the callbacks run are exactly those of the finished items |
| PoolStates.ExitedPoolSettled | src/thread_pool.cpp:49-62 | in the same state, with the call log in step, additionally every call of every finished workload and of every run callback has been made |
| PoolStates.TakenItemFullyRun | test/src/thread_pool_tests.cpp:113-133 | after destruction, when the only item enqueued was taken before the destructor ran, both its workload and its callback have made their calls |
| ThreadPools.ThreadPool.constructor | src/thread_pool.cpp:7-47 | starts min(thread_count, hardware) idle workers, with both queues empty, stopping_ false, the count 0 and every log empty |
| ThreadPools.ThreadPool.Enqueue | src/thread_pool.cpp:76-79 | appends one item whose workload and callback are both Tasks, so the callback pointer is never null |
| ThreadPools.ThreadPool.EnqueueFuture | include/thread_pool.hpp:86-96 | appends one item with a PackagedTask workload and a null callback pointer |
| ThreadPools.ThreadPool.Dequeue | include/thread_pool.hpp:25-40 | blocks while not stopping and the queue is empty; exits whenever stopping_ is set, even with items queued; otherwise increments the count and takes exactly the front item |
| ThreadPools.ThreadPool.ExecuteWorkload | include/thread_pool.hpp:42 | runs the held item's workload once, appends its calls to the call log and logs it as run |
| ThreadPools.ThreadPool.PostCallback | include/thread_pool.hpp:44-46 | pushes the item's callback at the back of the callback queue when it is non-null, and otherwise pushes nothing; nothing is run |
| ThreadPools.ThreadPool.PushCallback | include/thread_pool.hpp:44-46 | a non-null callback is appended to the callback queue; a null one leaves it unchanged |
| ThreadPools.ThreadPool.Release | include/thread_pool.hpp:48-52 | decrements the count by exactly 1, finishes the item, and returns the worker to the top of its loop |
| ThreadPools.ThreadPool.RunFrontCallback | src/thread_pool.cpp:66-67 | one loop round as a scheduling step: runs the front callback, appends its calls to the log, then removes exactly that callback, keeping the invariant and the call log in step |
| ThreadPools.ThreadPool.RunAndPopFront | src/thread_pool.cpp:66-67 | the callback run is the front one, its calls are appended to the log, and exactly that callback is removed |
| ThreadPools.ThreadPool.ExecuteCallbacks | src/thread_pool.cpp:64-69 | runs every queued callback in FIFO order, each exactly once, appends their calls in that order, leaves the callback queue empty and keeps the invariant |
| ThreadPools.ThreadPool.DrainCallbacks | src/thread_pool.cpp:65-68 | the loop runs until Empty() and moves the queue, in order, to the log of run callbacks, with their calls appended in that order |
| ThreadPools.ThreadPool.Wait | src/thread_pool.cpp:71-74 | ready exactly when the work queue is empty and the count is 0; then every enqueued workload has run exactly once and the posted callbacks are those of the enqueued items |
| ThreadPools.ThreadPool.Stop | src/thread_pool.cpp:50-53 | sets stopping_ and changes nothing else |
| ThreadPools.ThreadPool.FinishItem | include/thread_pool.hpp:42-52 | a busy worker runs the rest of its loop body from the step it has reached and becomes idle: the count drops by 1 and the item is finished; from Taken the workload runs and its calls are logged, otherwise nothing runs; unless already posted, the item's callback is queued |
| ThreadPools.ThreadPool.FinishTaken | include/thread_pool.hpp:42-52 | from Taken: the workload runs once with its calls logged, the callback is queued, the count drops by 1 and the worker is idle |
| ThreadPools.ThreadPool.FinishPosting | include/thread_pool.hpp:44-52 | posting the callback and then releasing the item queues the callback, drops the count by 1, finishes the item and leaves the worker idle, running nothing |
| ThreadPools.ThreadPool.Join | src/thread_pool.cpp:57-59 | after stopping_, a worker finishes the item it holds, takes nothing more from the queue and exits |
| ThreadPools.ThreadPool.ExitOnStop | include/thread_pool.hpp:28-32 | an idle worker of a stopping pool exits and changes nothing else, whatever is queued |
| ThreadPools.ThreadPool.JoinAll | src/thread_pool.cpp:57-59 | every worker exits, the work queue and the enqueued items are unchanged, no callback is run during the joins, and the invariant and call log stay in step |
| ThreadPools.ThreadPool.Destroy | src/thread_pool.cpp:49-62 | sets stopping_, joins every worker, then runs all posted callbacks on the destructing thread, after the joins (callbacks run earlier stay a prefix of the log); every item a worker took is finished with its callback run, every finished workload and every run callback has made its calls, and items still queued are never run |
| ThreadPools.SpawnWorkers | src/thread_pool.cpp:11-46 | the loop starts exactly thread_count workers, each at the top of its loop |
| ThreadPools.AllIdleHoldsNothing | include/thread_pool.hpp:17-21 | freshly started workers hold no item and none has exited |
| ThreadPools.DrainStep | src/thread_pool.cpp:65-68 | one round of the drain loop moves the next pending callback to the run prefix and its calls to the log |

## Left out

- Threads, `std::mutex` and both condition variables. Each critical
  section of the worker loop and of the destructor is one atomic method,
  and the order of steps is chosen by the caller. `ExecuteCallbacks` (see
  below) and the compound methods `FinishItem`, `FinishTaken`,
  `FinishPosting`, `Join`, `JoinAll` and `Destroy` each run several steps
  back to back. Blocking in `cond_var_.wait` becomes the `Blocked` result of
  `Dequeue`, and blocking in `Wait` becomes its `ready` result being false.
  Fairness and liveness (that a waiting worker is eventually woken) are not
  modelled.
- `notify_one` and `notify_all` have no effect in the model, because a
  step can run whenever its precondition holds.
- ThreadPools.ThreadPool.ExecuteCallbacks: it is one step, so it runs the
  callbacks queued when it starts. In the code its loop re-tests
  `callbacks_.Empty()` each round, so a callback that a concurrently
  running worker pushes during the drain is run by the same call. The model
  gives that interleaving only through `RunFrontCallback`, one round per
  step, which a scheduler can alternate with `PostCallback`.
  `RunFrontCallback` also runs `Empty`, `Peek`, `Execute` and `Pop` as one
  step, while in the code each queue call takes the queue's lock on its own
  (src/thread_pool.cpp:65-67, include/blocking_queue.hpp:22-45) and
  `Execute` runs with no lock held. Two threads draining at once can then both
  `Peek` the same front callback and both run it, then each `Pop`: that
  callback runs twice and the next one is dropped without running. The
  model does not show this race.
- A lost wake-up. `Enqueue` pushes and calls `notify_one` without holding
  `mtx_` (include/thread_pool.hpp:78-79, src/thread_pool.cpp:77-78). A
  worker that has just found the wait predicate false at
  include/thread_pool.hpp:28 but has not yet blocked can miss that
  notification and sleep with an item queued until the next notify. This
  is a liveness defect. The model's steps are atomic and it has no
  liveness, so it does not show this.
- A second liveness defect. `Release` wakes waiters with
  `current_work_count_var_.notify_one()` (include/thread_pool.hpp:51,
  src/thread_pool.cpp:42). With two threads blocked in `Wait`, the last
  decrement wakes only one of them, and the other can sleep forever. The
  model has no liveness and does not show this either.
- Join: it models the worker's remaining schedule after `stopping_` is set
  (finish the held item, then exit at the next wake-up). It does not model
  other interleavings with the destructor's thread.
- The value a `std::future` delivers, and exceptions a closure throws.
  Closures have no body in the model. `PackagedTask` is modelled by the
  fact that it always invokes its closure.
- `std::shared_ptr` and `std::unique_ptr` ownership and lifetimes.
  `Work`, `Task` and `TaskBase` are values.
- BlockingQueues.BlockingQueue.Peek: it returns the front element by value,
  not a reference into the queue. No caller writes through that reference.
- The header and `src/thread_pool.cpp` both define the constructor,
  destructor, `Enqueue`, `ExecuteCallbacks`, `Wait` and `Task::Execute`.
  The model has one copy of each. The only difference is the min with
  `hardware_concurrency()`, covered by the constructor's parameter.
- `hardware_concurrency()` may return 0. The model then builds a pool with
  no workers, as the code does, in which queued work never runs.
- The size_t wrap of `current_work_count_`. The model keeps the count as a
  natural number, and `ReleasePreservesInv` shows the decrement only happens
  when the count is at least 1.
- The pool's own tests have timing (`sleep_for`) and real threads, so they
  are not replayed as concrete scenarios. The claims of the callback, wait
  and destruction tests are covered by the contracts of `Wait`,
  `QuiescentAllRan`, `QuiescentCallbackPerItem`, `ExecuteCallbacks`,
  `Destroy` and `TakenItemFullyRun`. ShouldProvideFutureValue and
  ShouldProvideMultipleFutureValues (test/src/thread_pool_tests.cpp:85-111)
  check the values the futures deliver, which the model does not have (see
  above), so they are not covered; the model shows only that each such
  workload runs once and posts no callback (`QuiescentAllRan`,
  `FutureItemsPostNothing`).
- Work still queued at destruction is dropped, not run: a stopping worker
  leaves at its next wake-up even if the queue is non-empty. The model
  follows the code here. One might expect destruction to run all
  submitted work; the code runs only the items a worker has already taken,
  which is what the ShouldFinishWorkUponDestruction test exercises.
