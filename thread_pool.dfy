/** A model of ttp::ThreadPool (include/thread_pool.hpp, and its out-of-line
    copy src/thread_pool.cpp) as a state machine. Threads, the mutex and the
    condition variables are left out: each critical section of the source is
    one method, and a scheduler (any caller) picks which step runs next. A
    worker's loop body is split at its lock boundaries into Dequeue,
    ExecuteWorkload, PostCallback and Release. */
module ThreadPools {
  import opened PoolStates
  import opened BlockingQueues

  /** What a worker finds when it evaluates its wake-up predicate. */
  datatype Wake =
    | Blocked          // predicate false: it keeps waiting on cond_var_
    | Exit             // stopping_ is set: it leaves the loop (`break`)
    | Took(work: Work) // it took the front item

  class ThreadPool {
    const workQueue: BlockingQueue<Work>
    const callbacks: BlockingQueue<Task>
    /** The local state of each thread in threads_. */
    var workers: seq<Worker>
    var stopping: bool
    /** current_work_count_ (a size_t; as a nat, a decrement below zero would
        fail to verify, so none happens). */
    var currentWorkCount: nat

    /** Every item ever enqueued, in enqueue order. */
    ghost var submitted: seq<Work>
    /** Every item whose workload has run, in the order they ran. */
    ghost var ran: seq<Work>
    /** Every item whose worker has finished with it (decremented the count). */
    ghost var completed: seq<Work>
    /** Every callback ExecuteCallbacks has run, in order. */
    ghost var callbacksRun: seq<Task>
    /** Every user closure invocation, workloads and callbacks alike. */
    ghost var invocations: seq<ClosureId>

    ghost function State(): PoolState
      reads this, workQueue, callbacks
    {
      PoolState(workQueue.items, callbacks.items, workers, stopping, currentWorkCount,
                submitted, ran, completed, callbacksRun)
    }

    ghost predicate Valid()
      reads this, workQueue, callbacks
    {
      Inv(State())
    }

    /** Every closure invocation so far is accounted for by a workload logged
        in `ran` or a callback logged in `callbacksRun`, and each of those has
        made all its calls. */
    ghost predicate Logged()
      reads this
    {
      CallsLogged(invocations, ran, callbacksRun)
    }

    /** ThreadPool(thread_count): the out-of-line copy spawns
        min(thread_count, hardware_concurrency()) workers; the inline copy
        spawns thread_count, which is this with hardwareThreads >= threadCount. */
    constructor (threadCount: nat, hardwareThreads: nat)
      ensures Valid() && Logged()
      ensures fresh(workQueue) && fresh(callbacks)
      ensures |workers| == EffectiveThreadCount(threadCount, hardwareThreads)
      ensures forall i :: 0 <= i < |workers| ==> workers[i] == Idle
      ensures !stopping && currentWorkCount == 0
      ensures workQueue.items == [] && callbacks.items == []
      ensures submitted == [] && ran == [] && completed == [] && callbacksRun == [] && invocations == []
    {
      var ws := SpawnWorkers(EffectiveThreadCount(threadCount, hardwareThreads));
      workQueue := new BlockingQueue<Work>();
      callbacks := new BlockingQueue<Task>();
      workers := ws;
      stopping := false;
      currentWorkCount := 0;
      submitted, ran, completed, callbacksRun, invocations := [], [], [], [], [];
      new;
      assert Valid() by {
        AllIdleHoldsNothing(ws);
        assert State() == PoolState([], [], ws, false, 0, [], [], [], []);
      }
      assert Logged() by {
        assert WorkloadCalls([]) == [] && AllCalls([]) == [];
      }
    }

    /** The void Enqueue(work, callback): both closures are wrapped in a Task,
        so the item's callback pointer is never null, even for a null callback. */
    method Enqueue(work: Option<ClosureId>, callback: Option<ClosureId>)
      requires Valid()
      modifies this, workQueue
      ensures Valid()
      ensures workQueue.items == old(workQueue.items) + [Work(Plain(Task(work)), Some(Task(callback)))]
      ensures submitted == old(submitted) + [Work(Plain(Task(work)), Some(Task(callback)))]
      ensures workers == old(workers) && stopping == old(stopping) && currentWorkCount == old(currentWorkCount)
      ensures ran == old(ran) && completed == old(completed) && callbacksRun == old(callbacksRun)
      ensures invocations == old(invocations)
    {
      var item := Work(Plain(Task(work)), Some(Task(callback)));
      ghost var s := State();
      workQueue.Push(item);
      submitted := submitted + [item];
      assert Valid() by {
        EnqueuePreservesInv(s, item);
        assert State() == s.(queue := s.queue + [item], submitted := s.submitted + [item]);
      }
    }

    /** The future Enqueue(work): a PackagedTask with a null callback pointer. */
    method EnqueueFuture(work: ClosureId)
      requires Valid()
      modifies this, workQueue
      ensures Valid()
      ensures workQueue.items == old(workQueue.items) + [Work(Packaged(work), None)]
      ensures submitted == old(submitted) + [Work(Packaged(work), None)]
      ensures workers == old(workers) && stopping == old(stopping) && currentWorkCount == old(currentWorkCount)
      ensures ran == old(ran) && completed == old(completed) && callbacksRun == old(callbacksRun)
      ensures invocations == old(invocations)
    {
      var item := Work(Packaged(work), None);
      ghost var s := State();
      workQueue.Push(item);
      submitted := submitted + [item];
      assert Valid() by {
        EnqueuePreservesInv(s, item);
        assert State() == s.(queue := s.queue + [item], submitted := s.submitted + [item]);
      }
    }

    /** The first critical section of the worker loop. The wait predicate is
        `stopping_ || !work_queue_.Empty()`; once it holds, stopping_ is tested
        first, so a stopping pool lets the worker exit even with items queued.
        Otherwise the count goes up and the front item is taken. */
    method Dequeue(w: nat) returns (step: Wake)
      requires Valid()
      requires w < |workers| && workers[w] == Idle
      modifies this, workQueue
      ensures Valid()
      ensures old(stopping) ==> step == Exit
      ensures !old(stopping) && old(workQueue.items) == [] ==> step == Blocked
      ensures !old(stopping) && old(workQueue.items) != [] ==> step == Took(old(workQueue.items)[0])
      ensures step.Exit? ==> workers == old(workers)[w := Exited]
      ensures step.Blocked? ==> workers == old(workers)
      ensures step.Took? ==> workers == old(workers)[w := Busy(step.work, Taken)]
      ensures step.Took? ==> workQueue.items == old(workQueue.items)[1..]
      ensures !step.Took? ==> workQueue.items == old(workQueue.items)
      ensures currentWorkCount == old(currentWorkCount) + (if step.Took? then 1 else 0)
      ensures stopping == old(stopping) && submitted == old(submitted) && ran == old(ran)
      ensures completed == old(completed) && callbacksRun == old(callbacksRun)
      ensures invocations == old(invocations)
    {
      ghost var s := State();
      var empty := workQueue.Empty();
      if !(stopping || !empty) {
        return Blocked;
      }
      if stopping {
        ExitPreservesInv(s, w);
        workers := workers[w := Exited];
        assert State() == s.(workers := s.workers[w := Exited]);
        return Exit;
      }
      TakePreservesInv(s, w);
      currentWorkCount := currentWorkCount + 1;
      var front := workQueue.Peek();
      var work := front.value;
      var _ := workQueue.Pop();
      workers := workers[w := Busy(work, Taken)];
      step := Took(work);
      assert State() == s.(queue := s.queue[1..], workers := s.workers[w := Busy(s.queue[0], Taken)], count := s.count + 1);
    }

    /** `workload->Execute()`, outside any lock. */
    method ExecuteWorkload(w: nat)
      requires Valid() && Logged()
      requires w < |workers| && workers[w].Busy? && workers[w].phase == Taken
      modifies this
      ensures Valid() && Logged()
      ensures workers == old(workers)[w := Busy(old(workers)[w].work, Ran)]
      ensures ran == old(ran) + [old(workers)[w].work]
      ensures invocations == old(invocations) + old(workers)[w].work.workload.Execute()
      ensures stopping == old(stopping) && currentWorkCount == old(currentWorkCount)
      ensures submitted == old(submitted) && completed == old(completed) && callbacksRun == old(callbacksRun)
    {
      var work := workers[w].work;
      ghost var s := State();
      ghost var calls := invocations;
      invocations := invocations + work.workload.Execute();
      ran := ran + [work];
      workers := workers[w := Busy(work, Ran)];
      assert Valid() by {
        ExecutePreservesInv(s, w);
        assert State() == s.(workers := s.workers[w := Busy(work, Ran)], ran := s.ran + [work]);
      }
      assert Logged() by {
        WorkloadLogged(calls, s.ran, s.callbacksRun, work);
      }
    }

    /** `if (callback) callbacks_.Push(callback)`: the callback is queued, never
        run on the worker. */
    method PostCallback(w: nat)
      requires Valid()
      requires w < |workers| && workers[w].Busy? && workers[w].phase == Ran
      modifies this, callbacks
      ensures Valid()
      ensures workers == old(workers)[w := Busy(old(workers)[w].work, Posted)]
      ensures old(workers)[w].work.callback.Some? ==>
                callbacks.items == old(callbacks.items) + [old(workers)[w].work.callback.value]
      ensures old(workers)[w].work.callback == None ==> callbacks.items == old(callbacks.items)
      ensures callbacks.items == old(callbacks.items) + Callbacks([old(workers)[w].work])
      ensures stopping == old(stopping) && currentWorkCount == old(currentWorkCount)
      ensures submitted == old(submitted) && ran == old(ran) && completed == old(completed)
      ensures callbacksRun == old(callbacksRun) && invocations == old(invocations)
    {
      var work := workers[w].work;
      ghost var s := State();
      ghost var posted := Callbacks([work]);
      CallbacksSingle(work);
      PushCallback(work.callback);
      workers := workers[w := Busy(work, Posted)];
      assert callbacks.items == s.callbacks + posted;
      assert Valid() by {
        PostPreservesInv(s, w);
        assert State() == s.(workers := s.workers[w := Busy(work, Posted)], callbacks := s.callbacks + posted);
      }
    }

    /** `if (callback) callbacks_.Push(callback)`: a null callback pointer
        is skipped. */
    method PushCallback(callback: Option<Task>)
      modifies callbacks
      ensures callback.Some? ==> callbacks.items == old(callbacks.items) + [callback.value]
      ensures callback == None ==> callbacks.items == old(callbacks.items)
    {
      if callback.Some? {
        callbacks.Push(callback.value);
      }
    }

    /** The last critical section: `current_work_count_--`. The worker goes back
        to the top of its loop. */
    method Release(w: nat)
      requires Valid()
      requires w < |workers| && workers[w].Busy? && workers[w].phase == Posted
      modifies this
      ensures Valid()
      ensures workers == old(workers)[w := Idle]
      ensures currentWorkCount == old(currentWorkCount) - 1
      ensures completed == old(completed) + [old(workers)[w].work]
      ensures stopping == old(stopping) && submitted == old(submitted) && ran == old(ran)
      ensures callbacksRun == old(callbacksRun) && invocations == old(invocations)
    {
      var work := workers[w].work;
      ghost var s := State();
      ReleasePreservesInv(s, w);
      currentWorkCount := currentWorkCount - 1;
      completed := completed + [work];
      workers := workers[w := Idle];
      assert State() == s.(workers := s.workers[w := Idle], count := s.count - 1, completed := s.completed + [work]);
    }

    /** One round of ExecuteCallbacks as a scheduling step: it keeps the
        pool's invariants, so workers may post callbacks between rounds. */
    method RunFrontCallback()
      requires Valid() && Logged()
      requires callbacks.items != []
      modifies this, callbacks
      ensures Valid() && Logged()
      ensures callbacks.items == old(callbacks.items)[1..]
      ensures callbacksRun == old(callbacksRun) + [old(callbacks.items)[0]]
      ensures invocations == old(invocations) + old(callbacks.items)[0].Execute()
      ensures workers == old(workers) && stopping == old(stopping) && currentWorkCount == old(currentWorkCount)
      ensures submitted == old(submitted) && ran == old(ran) && completed == old(completed)
    {
      ghost var s := State();
      ghost var calls := invocations;
      ghost var task := callbacks.items[0];
      RunAndPopFront();
      assert Valid() by {
        RunCallbackPreservesInv(s);
        assert State() == s.(callbacks := s.callbacks[1..], callbacksRun := s.callbacksRun + [task]);
      }
      assert Logged() by {
        CallbackLogged(calls, s.ran, s.callbacksRun, task);
      }
    }

    /** The body of ExecuteCallbacks's loop: `callbacks_.Peek()->Execute()`
        runs the front callback while it is still queued, then
        `callbacks_.Pop()` removes it. */
    method RunAndPopFront()
      requires callbacks.items != []
      modifies this, callbacks
      ensures callbacks.items == old(callbacks.items)[1..]
      ensures callbacksRun == old(callbacksRun) + [old(callbacks.items)[0]]
      ensures invocations == old(invocations) + old(callbacks.items)[0].Execute()
      ensures workers == old(workers) && stopping == old(stopping) && currentWorkCount == old(currentWorkCount)
      ensures submitted == old(submitted) && ran == old(ran) && completed == old(completed)
    {
      var front := callbacks.Peek();
      var task := front.value;
      invocations := invocations + task.Execute();
      callbacksRun := callbacksRun + [task];
      var _ := callbacks.Pop();
    }

    /** Runs the callbacks on the calling thread, front to back, until the
        callback queue is empty; the pool's invariants are kept. */
    method ExecuteCallbacks()
      requires Valid() && Logged()
      modifies this, callbacks
      ensures Valid() && Logged()
      ensures callbacks.items == []
      ensures callbacksRun == old(callbacksRun) + old(callbacks.items)
      ensures invocations == old(invocations) + AllCalls(old(callbacks.items))
      ensures workers == old(workers) && stopping == old(stopping) && currentWorkCount == old(currentWorkCount)
      ensures submitted == old(submitted) && ran == old(ran) && completed == old(completed)
    {
      ghost var s0 := State();
      ghost var calls0 := invocations;
      DrainCallbacks();
      assert Valid() by {
        DrainPreservesInv(s0);
        assert State() == s0.(callbacks := [], callbacksRun := s0.callbacksRun + s0.callbacks);
      }
      assert Logged() by {
        CallbacksLogged(calls0, s0.ran, s0.callbacksRun, s0.callbacks);
      }
    }

    /** The loop of ExecuteCallbacks: `while (!callbacks_.Empty())` run and pop
        the front callback. */
    method DrainCallbacks()
      modifies this, callbacks
      ensures callbacks.items == []
      ensures callbacksRun == old(callbacksRun) + old(callbacks.items)
      ensures invocations == old(invocations) + AllCalls(old(callbacks.items))
      ensures workers == old(workers) && stopping == old(stopping) && currentWorkCount == old(currentWorkCount)
      ensures submitted == old(submitted) && ran == old(ran) && completed == old(completed)
    {
      ghost var pending := callbacks.items;
      ghost var k := 0;
      var empty := callbacks.Empty();
      while !empty
        invariant 0 <= k <= |pending|
        invariant callbacks.items == pending[k..]
        invariant empty <==> k == |pending|
        invariant callbacksRun == old(callbacksRun) + pending[..k]
        invariant invocations == old(invocations) + AllCalls(pending[..k])
        invariant workers == old(workers) && stopping == old(stopping) && currentWorkCount == old(currentWorkCount)
        invariant submitted == old(submitted) && ran == old(ran) && completed == old(completed)
        decreases |pending| - k
      {
        DrainStep(old(callbacksRun), old(invocations), pending, k);
        RunAndPopFront();
        k := k + 1;
        empty := callbacks.Empty();
      }
      assert pending[..k] == pending;
    }

    /** Wait's predicate, `work_queue_.Empty() && current_work_count_ == 0`:
        Wait returns only in a state where it holds, and there every enqueued
        workload has run exactly once. */
    method Wait() returns (ready: bool)
      requires Valid()
      ensures ready <==> workQueue.items == [] && currentWorkCount == 0
      ensures ready ==> multiset(ran) == multiset(submitted) && |ran| == |submitted|
      ensures ready ==> multiset(callbacksRun) + multiset(callbacks.items) == multiset(Callbacks(submitted))
    {
      var empty := workQueue.Empty();
      ready := empty && currentWorkCount == 0;
      if ready {
        QuiescentAllRan(State());
      }
    }

    /** The destructor's first critical section: set stopping_. */
    method Stop()
      requires Valid()
      modifies this
      ensures Valid()
      ensures stopping
      ensures workers == old(workers) && currentWorkCount == old(currentWorkCount)
      ensures submitted == old(submitted) && ran == old(ran) && completed == old(completed)
      ensures callbacksRun == old(callbacksRun) && invocations == old(invocations)
    {
      ghost var s := State();
      stopping := true;
      assert Valid() by {
        StopPreservesInv(s);
        assert State() == s.(stopping := true);
      }
    }

    /** The rest of a busy worker's loop body: from whichever critical section
        it has reached, it runs the workload (if it has not yet), posts the
        callback (if it has not yet) and releases the item, and is back at the
        top of its loop. */
    method FinishItem(w: nat)
      requires Valid() && Logged()
      requires w < |workers| && workers[w].Busy?
      modifies this, callbacks
      ensures Valid() && Logged()
      ensures workers == old(workers)[w := Idle]
      ensures currentWorkCount == old(currentWorkCount) - 1
      ensures completed == old(completed) + [old(workers)[w].work]
      ensures old(workers)[w].phase == Taken ==>
                ran == old(ran) + [old(workers)[w].work] &&
                invocations == old(invocations) + old(workers)[w].work.workload.Execute()
      ensures old(workers)[w].phase != Taken ==> ran == old(ran) && invocations == old(invocations)
      ensures old(workers)[w].phase != Posted ==>
                callbacks.items == old(callbacks.items) + Callbacks([old(workers)[w].work])
      ensures old(workers)[w].phase == Posted ==> callbacks.items == old(callbacks.items)
      ensures stopping == old(stopping) && submitted == old(submitted) && callbacksRun == old(callbacksRun)
    {
      match workers[w].phase
      case Taken => FinishTaken(w);
      case Ran => FinishPosting(w);
      case Posted => Release(w);
    }

    /** A worker that has just taken its item runs the rest of the loop body:
        the workload, then the callback, then the release. */
    method FinishTaken(w: nat)
      requires Valid() && Logged()
      requires w < |workers| && workers[w].Busy? && workers[w].phase == Taken
      modifies this, callbacks
      ensures Valid() && Logged()
      ensures workers == old(workers)[w := Idle]
      ensures currentWorkCount == old(currentWorkCount) - 1
      ensures completed == old(completed) + [old(workers)[w].work]
      ensures ran == old(ran) + [old(workers)[w].work]
      ensures invocations == old(invocations) + old(workers)[w].work.workload.Execute()
      ensures callbacks.items == old(callbacks.items) + Callbacks([old(workers)[w].work])
      ensures stopping == old(stopping) && submitted == old(submitted) && callbacksRun == old(callbacksRun)
    {
      ghost var ws := workers;
      ExecuteWorkload(w);
      FinishPosting(w);
      OverwriteSlot(ws, w, Busy(ws[w].work, Ran), Idle);
    }

    /** The worker's last two critical sections back to back: post the
        callback, then release the item. */
    method FinishPosting(w: nat)
      requires Valid() && Logged()
      requires w < |workers| && workers[w].Busy? && workers[w].phase == Ran
      modifies this, callbacks
      ensures Valid() && Logged()
      ensures workers == old(workers)[w := Idle]
      ensures currentWorkCount == old(currentWorkCount) - 1
      ensures completed == old(completed) + [old(workers)[w].work]
      ensures callbacks.items == old(callbacks.items) + Callbacks([old(workers)[w].work])
      ensures stopping == old(stopping) && submitted == old(submitted) && ran == old(ran)
      ensures callbacksRun == old(callbacksRun) && invocations == old(invocations)
    {
      ghost var ws := workers;
      PostCallback(w);
      Release(w);
      OverwriteSlot(ws, w, Busy(ws[w].work, Posted), Idle);
    }

    /** `t.join()` for one worker, once stopping_ is set: the worker finishes
        the item it holds, if any, and then exits at its next wake-up without
        taking anything from the queue. */
    method Join(w: nat)
      requires Valid() && Logged() && stopping
      requires w < |workers|
      modifies this, workQueue, callbacks
      ensures Valid() && Logged() && stopping
      ensures workers == old(workers)[w := Exited]
      ensures workQueue.items == old(workQueue.items)
      ensures submitted == old(submitted) && callbacksRun == old(callbacksRun)
      ensures old(workers)[w].Busy? ==>
                completed == old(completed) + [old(workers)[w].work] &&
                currentWorkCount == old(currentWorkCount) - 1
      ensures !old(workers)[w].Busy? ==>
                completed == old(completed) && currentWorkCount == old(currentWorkCount)
    {
      ghost var ws := workers;
      if workers[w].Busy? {
        FinishItem(w);
        ExitOnStop(w);
        OverwriteSlot(ws, w, Idle, Exited);
      } else if workers[w] == Idle {
        ExitOnStop(w);
      } else {
        assert ws == ws[w := Exited];
      }
    }

    /** An idle worker of a stopping pool wakes up, sees stopping_ and leaves
        its loop, whatever is queued. */
    method ExitOnStop(w: nat)
      requires Valid() && Logged() && stopping
      requires w < |workers| && workers[w] == Idle
      modifies this, workQueue
      ensures Valid() && Logged() && stopping
      ensures workers == old(workers)[w := Exited]
      ensures workQueue.items == old(workQueue.items) && currentWorkCount == old(currentWorkCount)
      ensures submitted == old(submitted) && ran == old(ran) && completed == old(completed)
      ensures callbacksRun == old(callbacksRun) && invocations == old(invocations)
    {
      var _ := Dequeue(w);
    }

    /** `for (auto& t : threads_) t.join()`: every worker, in order, finishes
        what it holds and exits; the work queue is left as it was. */
    method JoinAll()
      requires Valid() && Logged() && stopping
      modifies this, workQueue, callbacks
      ensures Valid() && Logged() && stopping
      ensures forall i :: 0 <= i < |workers| ==> workers[i] == Exited
      ensures |workers| == old(|workers|)
      ensures workQueue.items == old(workQueue.items)
      ensures submitted == old(submitted) && callbacksRun == old(callbacksRun)
    {
      var i := 0;
      while i < |workers|
        invariant Valid() && Logged() && stopping
        invariant 0 <= i <= |workers| == old(|workers|)
        invariant forall j :: 0 <= j < i ==> workers[j] == Exited
        invariant workQueue.items == old(workQueue.items)
        invariant submitted == old(submitted) && callbacksRun == old(callbacksRun)
      {
        Join(i);
        i := i + 1;
      }
    }

    /** ~ThreadPool(): set stopping_, join every worker in turn, then run the
        remaining callbacks. Items still queued are never run: they stay in the
        work queue (and are dropped with it). Every item a worker took is
        finished: its workload and then its callback have made their calls. */
    method Destroy()
      requires Valid() && Logged()
      modifies this, workQueue, callbacks
      ensures Valid() && Logged() && stopping
      ensures forall i :: 0 <= i < |workers| ==> workers[i] == Exited
      ensures |workers| == old(|workers|)
      ensures currentWorkCount == 0
      ensures workQueue.items == old(workQueue.items)
      ensures submitted == old(submitted)
      ensures multiset(ran) == multiset(completed)
      ensures multiset(submitted) == multiset(workQueue.items) + multiset(completed)
      ensures callbacks.items == []
      ensures old(callbacksRun) <= callbacksRun
      ensures multiset(callbacksRun) == multiset(Callbacks(completed))
      ensures forall i, c :: 0 <= i < |completed| && c in completed[i].workload.Execute() ==> c in invocations
      ensures forall i, c :: 0 <= i < |callbacksRun| && c in callbacksRun[i].Execute() ==> c in invocations
    {
      Stop();
      JoinAll();
      ExecuteCallbacks();
      ExitedPoolSettled(State(), invocations);
    }
  }

  /** The constructor's `for` loop: n calls to threads_.emplace_back, each
      starting a worker at the top of its loop. */
  method SpawnWorkers(n: nat) returns (ws: seq<Worker>)
    ensures |ws| == n
    ensures forall i :: 0 <= i < n ==> ws[i] == Idle
  {
    ws := [];
    var i := 0;
    while i < n
      invariant 0 <= i <= n
      invariant |ws| == i
      invariant forall j :: 0 <= j < i ==> ws[j] == Idle
    {
      ws := ws + [Idle];
      i := i + 1;
    }
  }

  /** No worker holds anything in a freshly built pool. */
  lemma {:induction false} AllIdleHoldsNothing(ws: seq<Worker>)
    requires forall i :: 0 <= i < |ws| ==> ws[i] == Idle
    ensures Held(ws, 0) == [] && Held(ws, 1) == [] && Held(ws, 2) == []
    ensures Exited !in ws
  {
    if ws != [] {
      AllIdleHoldsNothing(ws[1..]);
    }
  }

  /** One round of the drain loop, on its logs: running pending[k] moves it
      from the rest of the queue to the run prefix and appends its calls. */
  lemma DrainStep(run: seq<Task>, calls: seq<ClosureId>, pending: seq<Task>, k: nat)
    requires k < |pending|
    ensures pending[k..] != [] && pending[k..][0] == pending[k]
    ensures pending[k + 1..] == pending[k..][1..]
    ensures (run + pending[..k]) + [pending[k]] == run + pending[..k + 1]
    ensures (calls + AllCalls(pending[..k])) + pending[k].Execute() == calls + AllCalls(pending[..k + 1])
  {
    assert pending[..k + 1] == pending[..k] + [pending[k]];
    AllCallsSnoc(pending[..k], pending[k]);
  }

  /** Writing one slot twice leaves the second value. */
  lemma OverwriteSlot<T>(s: seq<T>, i: nat, a: T, b: T)
    requires i < |s|
    ensures s[i := a][i := b] == s[i := b]
  {
  }

  /** The callbacks of a single item. */
  lemma CallbacksSingle(work: Work)
    ensures Callbacks([work]) == if work.callback.Some? then [work.callback.value] else []
  {
    assert [work][1..] == [];
  }
}
