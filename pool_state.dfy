/** The values ttp::ThreadPool works with (include/thread_pool.hpp), and the
    bookkeeping invariant of the pool, stated on a snapshot of its state.
    User closures are opaque: they are named by a ClosureId, and running one
    is recorded by appending its id to a log. */
module PoolStates {

  /** A std::function or std::shared_ptr that may be empty (null). */
  datatype Option<T> = None | Some(value: T)

  /** The identity of a user closure. */
  type ClosureId = nat

  /** ThreadPool::Task: wraps a std::function<void(void)>, which may be empty. */
  datatype Task = Task(work: Option<ClosureId>) {
    /** Task::Execute: the closure invocations one run makes. An empty
        std::function is skipped; otherwise it is invoked once. */
    function Execute(): (calls: seq<ClosureId>)
      ensures work == None ==> calls == []
      ensures work != None ==> calls == [work.value]
    {
      match work
      case None => []
      case Some(f) => [f]
    }
  }

  /** ThreadPool::TaskBase: a plain Task, or a PackagedTask bound to a future
      (which always invokes its closure). */
  datatype TaskBase = Plain(task: Task) | Packaged(fn: ClosureId) {
    function Execute(): (calls: seq<ClosureId>)
      ensures Packaged? ==> calls == [fn]
      ensures Plain? ==> calls == task.Execute()
    {
      match this
      case Plain(t) => t.Execute()
      case Packaged(f) => [f]
    }
  }

  /** ThreadPool::Work: a workload and a callback pointer that may be null. */
  datatype Work = Work(workload: TaskBase, callback: Option<Task>)

  /** Where a worker that holds an item is in its loop body: it has taken the
      item (Taken), run its workload (Ran), or also posted its callback (Posted). */
  datatype Phase = Taken | Ran | Posted

  /** The local state of one worker thread: waiting at the top of its loop,
      holding an item, or gone (it left the loop with `break`). */
  datatype Worker = Idle | Busy(work: Work, phase: Phase) | Exited

  function Rank(p: Phase): nat
  {
    match p
    case Taken => 0
    case Ran => 1
    case Posted => 2
  }

  /** The items held by the workers whose phase is at least rank k, in worker
      order: k = 0 gives the in-flight items, k = 1 those whose workload has
      run, k = 2 those whose callback has been posted. */
  function Held(ws: seq<Worker>, k: nat): (r: seq<Work>)
    ensures |r| <= |ws|
  {
    if ws == [] then []
    else (if ws[0].Busy? && Rank(ws[0].phase) >= k then [ws[0].work] else []) + Held(ws[1..], k)
  }

  /** The non-null callbacks of the given items, in order. */
  function Callbacks(items: seq<Work>): (r: seq<Task>)
    ensures |r| <= |items|
  {
    if items == [] then []
    else (if items[0].callback.Some? then [items[0].callback.value] else []) + Callbacks(items[1..])
  }

  /** The invocations made by running the given tasks one after another. */
  function AllCalls(ts: seq<Task>): (calls: seq<ClosureId>)
  {
    if ts == [] then [] else ts[0].Execute() + AllCalls(ts[1..])
  }

  /** Running one more task appends its invocations. */
  lemma {:induction false} AllCallsSnoc(ts: seq<Task>, t: Task)
    ensures AllCalls(ts + [t]) == AllCalls(ts) + t.Execute()
  {
    if ts == [] {
      assert ts + [t] == [t];
      assert [t][1..] == [];
    } else {
      assert (ts + [t])[1..] == ts[1..] + [t];
      AllCallsSnoc(ts[1..], t);
    }
  }

  /** The invocations made by running the workloads of the given items one
      after another. */
  function WorkloadCalls(items: seq<Work>): (calls: seq<ClosureId>)
  {
    if items == [] then [] else items[0].workload.Execute() + WorkloadCalls(items[1..])
  }

  /** Running one more workload appends its invocations. */
  lemma {:induction false} WorkloadCallsSnoc(items: seq<Work>, x: Work)
    ensures WorkloadCalls(items + [x]) == WorkloadCalls(items) + x.workload.Execute()
  {
    if items == [] {
      assert items + [x] == [x];
      assert [x][1..] == [];
    } else {
      assert (items + [x])[1..] == items[1..] + [x];
      WorkloadCallsSnoc(items[1..], x);
      AppendAssoc(items[0].workload.Execute(), WorkloadCalls(items[1..]), x.workload.Execute());
    }
  }

  /** Running a list of workloads makes the calls of each of them. */
  lemma {:induction false} WorkloadCallsContain(items: seq<Work>, i: nat)
    requires i < |items|
    ensures forall c :: c in items[i].workload.Execute() ==> c in WorkloadCalls(items)
  {
    if i > 0 {
      WorkloadCallsContain(items[1..], i - 1);
    }
  }

  /** Running a list of tasks makes the calls of each of them. */
  lemma {:induction false} AllCallsContain(ts: seq<Task>, i: nat)
    requires i < |ts|
    ensures forall c :: c in ts[i].Execute() ==> c in AllCalls(ts)
  {
    if i > 0 {
      AllCallsContain(ts[1..], i - 1);
    }
  }

  /** The closure invocation log is accounted for exactly: every invocation
      comes from a workload that has run or a callback ExecuteCallbacks has
      run, and each of those made all its calls. The calls are counted with
      multiplicity, as multisets; their order is not recorded. */
  ghost predicate CallsLogged(calls: seq<ClosureId>, ran: seq<Work>, callbacksRun: seq<Task>)
  {
    multiset(calls) == multiset(WorkloadCalls(ran)) + multiset(AllCalls(callbacksRun))
  }

  /** Running a workload and logging it keeps the log accounted for. */
  lemma WorkloadLogged(calls: seq<ClosureId>, ran: seq<Work>, callbacksRun: seq<Task>, x: Work)
    requires CallsLogged(calls, ran, callbacksRun)
    ensures CallsLogged(calls + x.workload.Execute(), ran + [x], callbacksRun)
  {
    WorkloadCallsSnoc(ran, x);
  }

  /** Running a callback and logging it keeps the log accounted for. */
  lemma CallbackLogged(calls: seq<ClosureId>, ran: seq<Work>, callbacksRun: seq<Task>, t: Task)
    requires CallsLogged(calls, ran, callbacksRun)
    ensures CallsLogged(calls + t.Execute(), ran, callbacksRun + [t])
  {
    AllCallsSnoc(callbacksRun, t);
  }

  /** Running a list of tasks runs the first part, then the second. */
  lemma {:induction false} AllCallsAppend(a: seq<Task>, b: seq<Task>)
    ensures AllCalls(a + b) == AllCalls(a) + AllCalls(b)
  {
    if a == [] {
      assert a + b == b;
    } else {
      assert (a + b)[1..] == a[1..] + b;
      AllCallsAppend(a[1..], b);
      AppendAssoc(a[0].Execute(), AllCalls(a[1..]), AllCalls(b));
    }
  }

  /** Running a list of callbacks and logging them keeps the log accounted for. */
  lemma CallbacksLogged(calls: seq<ClosureId>, ran: seq<Work>, callbacksRun: seq<Task>, ts: seq<Task>)
    requires CallsLogged(calls, ran, callbacksRun)
    ensures CallsLogged(calls + AllCalls(ts), ran, callbacksRun + ts)
  {
    AllCallsAppend(callbacksRun, ts);
  }

  /** Under an accounted log, every closure a listed workload or callback
      calls has been invoked. */
  lemma LoggedCallsMade(calls: seq<ClosureId>, ran: seq<Work>, callbacksRun: seq<Task>)
    requires CallsLogged(calls, ran, callbacksRun)
    ensures forall i, c :: 0 <= i < |ran| && c in ran[i].workload.Execute() ==> c in calls
    ensures forall i, c :: 0 <= i < |callbacksRun| && c in callbacksRun[i].Execute() ==> c in calls
  {
    forall i, c | 0 <= i < |ran| && c in ran[i].workload.Execute()
      ensures c in calls
    {
      WorkloadCallsContain(ran, i);
      InEitherLog(calls, WorkloadCalls(ran), AllCalls(callbacksRun), c);
    }
    forall i, c | 0 <= i < |callbacksRun| && c in callbacksRun[i].Execute()
      ensures c in calls
    {
      AllCallsContain(callbacksRun, i);
      InEitherLog(calls, WorkloadCalls(ran), AllCalls(callbacksRun), c);
    }
  }

  /** An element of either part of a sum of logs is in the whole log. */
  lemma InEitherLog<T>(calls: seq<T>, a: seq<T>, b: seq<T>, c: T)
    requires multiset(calls) == multiset(a) + multiset(b)
    requires c in a || c in b
    ensures c in calls
  {
    assert c in multiset(a) || c in multiset(b);
    assert multiset(calls)[c] == multiset(a)[c] + multiset(b)[c];
    assert c in multiset(calls);
  }

  /** When the items logged as run are the finished ones, every closure a
      finished item's workload calls has been invoked. */
  lemma FinishedWorkloadsCalled(calls: seq<ClosureId>, ran: seq<Work>, callbacksRun: seq<Task>, completed: seq<Work>)
    requires CallsLogged(calls, ran, callbacksRun)
    requires multiset(ran) == multiset(completed)
    ensures forall i, c :: 0 <= i < |completed| && c in completed[i].workload.Execute() ==> c in calls
  {
    LoggedCallsMade(calls, ran, callbacksRun);
    forall i, c | 0 <= i < |completed| && c in completed[i].workload.Execute()
      ensures c in calls
    {
      assert completed[i] in multiset(ran);
      var j :| 0 <= j < |ran| && ran[j] == completed[i];
      assert c in ran[j].workload.Execute();
    }
  }

  lemma AppendAssoc<T>(a: seq<T>, b: seq<T>, c: seq<T>)
    ensures a + (b + c) == (a + b) + c
  {
  }

  /** The effective worker count of src/thread_pool.cpp:
      std::min(thread_count, hardware_concurrency()). */
  function EffectiveThreadCount(requested: nat, hardware: nat): (n: nat)
    ensures n <= requested && n <= hardware
    ensures n == requested || n == hardware
  {
    if hardware < requested then hardware else requested
  }

  /** A snapshot of the pool: the two queues (front first), the workers, the
      stop flag and in-flight counter, and the logs the model keeps: every item
      ever enqueued, every item whose workload has run, every item whose worker
      has finished with it, and every callback ExecuteCallbacks has run. */
  datatype PoolState = PoolState(
    queue: seq<Work>,
    callbacks: seq<Task>,
    workers: seq<Worker>,
    stopping: bool,
    count: nat,
    submitted: seq<Work>,
    ran: seq<Work>,
    completed: seq<Work>,
    callbacksRun: seq<Task>)

  /** The bookkeeping invariant:
      - current_work_count_ is the number of workers holding an item;
      - no item is lost or duplicated: enqueued = queued + in flight + finished;
      - a workload has run for every finished item and every held item past Taken;
      - the callbacks posted (still queued or already run) are exactly those of
        the items past Posted, so none is posted before its workload has run;
      - a worker has exited only once stopping_ is set. */
  ghost predicate Inv(s: PoolState)
  {
    && s.count == |Held(s.workers, 0)|
    && multiset(s.submitted) == multiset(s.queue) + multiset(Held(s.workers, 0)) + multiset(s.completed)
    && multiset(s.ran) == multiset(Held(s.workers, 1)) + multiset(s.completed)
    && multiset(s.callbacksRun) + multiset(s.callbacks)
       == multiset(Callbacks(Held(s.workers, 2))) + multiset(Callbacks(s.completed))
    && (Exited in s.workers ==> s.stopping)
  }

  lemma {:induction false} HeldAppend(a: seq<Worker>, b: seq<Worker>, k: nat)
    ensures Held(a + b, k) == Held(a, k) + Held(b, k)
  {
    if a == [] {
      assert a + b == b;
    } else {
      var head := if a[0].Busy? && Rank(a[0].phase) >= k then [a[0].work] else [];
      assert (a + b)[0] == a[0];
      assert (a + b)[1..] == a[1..] + b;
      HeldAppend(a[1..], b, k);
      AppendAssoc(head, Held(a[1..], k), Held(b, k));
    }
  }

  lemma {:induction false} CallbacksAppend(a: seq<Work>, b: seq<Work>)
    ensures Callbacks(a + b) == Callbacks(a) + Callbacks(b)
  {
    if a == [] {
      assert a + b == b;
    } else {
      var head := if a[0].callback.Some? then [a[0].callback.value] else [];
      assert (a + b)[0] == a[0];
      assert (a + b)[1..] == a[1..] + b;
      CallbacksAppend(a[1..], b);
      AppendAssoc(head, Callbacks(a[1..]), Callbacks(b));
    }
  }

  /** The held items split around any one worker. */
  lemma HeldSplit(ws: seq<Worker>, i: nat, k: nat)
    requires i < |ws|
    ensures Held(ws, k) == Held(ws[..i], k) + Held([ws[i]], k) + Held(ws[i + 1..], k)
  {
    SplitAt(ws, i);
    HeldAppend(ws[..i] + [ws[i]], ws[i + 1..], k);
    HeldAppend(ws[..i], [ws[i]], k);
  }

  /** Changing one worker's state changes the held items, and their
      callbacks, only by what that worker held before and holds after. */
  lemma HeldUpdate(ws: seq<Worker>, i: nat, v: Worker, k: nat)
    requires i < |ws|
    ensures multiset(Held(ws[i := v], k)) + multiset(Held([ws[i]], k))
            == multiset(Held(ws, k)) + multiset(Held([v], k))
    ensures multiset(Callbacks(Held(ws[i := v], k))) + multiset(Callbacks(Held([ws[i]], k)))
            == multiset(Callbacks(Held(ws, k))) + multiset(Callbacks(Held([v], k)))
  {
    var a, x, y, b := Held(ws[..i], k), Held([ws[i]], k), Held([v], k), Held(ws[i + 1..], k);
    HeldUpdateParts(ws, i, v, k);
    SwapMiddle(a, x, y, b);
    CallbacksAppend(a + x, b);
    CallbacksAppend(a, x);
    CallbacksAppend(a + y, b);
    CallbacksAppend(a, y);
    SwapMiddle(Callbacks(a), Callbacks(x), Callbacks(y), Callbacks(b));
  }

  /** Replacing the middle part x of a + x + b by y, as multisets. */
  lemma SwapMiddle<T>(a: seq<T>, x: seq<T>, y: seq<T>, b: seq<T>)
    ensures multiset(a + y + b) + multiset(x) == multiset(a + x + b) + multiset(y)
  {
    calc {
      multiset(a + y + b) + multiset(x);
      multiset(a) + multiset(y) + multiset(b) + multiset(x);
      multiset(a) + multiset(x) + multiset(b) + multiset(y);
      multiset(a + x + b) + multiset(y);
    }
  }

  /** The held items before and after changing worker i, around that worker. */
  lemma HeldUpdateParts(ws: seq<Worker>, i: nat, v: Worker, k: nat)
    requires i < |ws|
    ensures Held(ws, k) == Held(ws[..i], k) + Held([ws[i]], k) + Held(ws[i + 1..], k)
    ensures Held(ws[i := v], k) == Held(ws[..i], k) + Held([v], k) + Held(ws[i + 1..], k)
  {
    HeldSplit(ws, i, k);
    HeldSplit(ws[i := v], i, k);
    assert ws[i := v][..i] == ws[..i];
    assert ws[i := v][i + 1..] == ws[i + 1..];
  }

  /** A worker whose change leaves what it holds at rank k alone leaves all
      held items at rank k alone. */
  lemma HeldKept(ws: seq<Worker>, i: nat, v: Worker, k: nat)
    requires i < |ws| && Held([ws[i]], k) == Held([v], k)
    ensures Held(ws[i := v], k) == Held(ws, k)
  {
    HeldSplit(ws, i, k);
    HeldSplit(ws[i := v], i, k);
    assert ws[i := v][..i] == ws[..i];
    assert ws[i := v][i + 1..] == ws[i + 1..];
  }

  /** A worker that starts holding x at rank k adds x, and x's callback. */
  lemma HeldGains(ws: seq<Worker>, i: nat, v: Worker, k: nat, x: Work)
    requires i < |ws| && Held([ws[i]], k) == [] && Held([v], k) == [x]
    ensures multiset(Held(ws[i := v], k)) == multiset(Held(ws, k)) + multiset{x}
    ensures |Held(ws[i := v], k)| == |Held(ws, k)| + 1
    ensures multiset(Callbacks(Held(ws[i := v], k))) == multiset(Callbacks(Held(ws, k))) + multiset(Callbacks([x]))
  {
    HeldUpdate(ws, i, v, k);
    assert Callbacks([]) == [];
  }

  /** A worker that stops holding x at rank k removes x, and x's callback. */
  lemma HeldLoses(ws: seq<Worker>, i: nat, v: Worker, k: nat, x: Work)
    requires i < |ws| && Held([ws[i]], k) == [x] && Held([v], k) == []
    ensures multiset(Held(ws[i := v], k)) + multiset{x} == multiset(Held(ws, k))
    ensures |Held(ws[i := v], k)| + 1 == |Held(ws, k)|
    ensures multiset(Callbacks(Held(ws[i := v], k))) + multiset(Callbacks([x])) == multiset(Callbacks(Held(ws, k)))
  {
    HeldUpdate(ws, i, v, k);
    assert Callbacks([]) == [];
  }

  /** Taking the front off a non-empty queue removes one copy of it. */
  lemma MultisetFront<T>(q: seq<T>)
    requires q != []
    ensures multiset(q) == multiset(q[1..]) + multiset{q[0]}
  {
    assert q == [q[0]] + q[1..];
  }

  /** Overwriting one worker with a state other than Exited adds no exited worker. */
  lemma NoNewExit(ws: seq<Worker>, i: nat, v: Worker)
    requires i < |ws| && v != Exited
    ensures Exited in ws[i := v] ==> Exited in ws
  {
    if Exited in ws[i := v] {
      var j :| 0 <= j < |ws| && ws[i := v][j] == Exited;
      assert ws[j] == Exited;
    }
  }

  /** Adding to a sum of multisets adds to one of the summands. */
  lemma AddToSum<T>(a: multiset<T>, b: multiset<T>, c: multiset<T>, d: multiset<T>)
    requires a == b + c
    ensures a + d == (b + d) + c
  {
  }

  /** Equal sums can be swapped inside a larger sum. */
  lemma Regroup<T>(q: multiset<T>, a: multiset<T>, b: multiset<T>, a': multiset<T>, b': multiset<T>)
    requires a + b == a' + b'
    ensures q + a + b == q + a' + b'
  {
    assert q + a + b == q + (a + b);
    assert q + a' + b' == q + (a' + b');
  }

  /** Moving d from one summand to the other keeps the sum. */
  lemma MoveBetween<T>(a: multiset<T>, b: multiset<T>, a': multiset<T>, b': multiset<T>, d: multiset<T>)
    requires a == a' + d && b' == b + d
    ensures a + b == a' + b'
  {
  }

  /** What a single worker holds, by its state. */
  lemma HeldSingle(w: Worker, k: nat)
    ensures Held([w], k) == if w.Busy? && Rank(w.phase) >= k then [w.work] else []
  {
    assert [w][1..] == [];
  }

  /** Items past a higher phase are among the items past a lower one. */
  lemma {:induction false} HeldNested(ws: seq<Worker>, j: nat, k: nat)
    requires j <= k
    ensures multiset(Held(ws, k)) <= multiset(Held(ws, j))
  {
    if ws != [] {
      HeldNested(ws[1..], j, k);
    }
  }

  /** If every worker has exited, no item is held. */
  lemma {:induction false} AllExitedHoldsNothing(ws: seq<Worker>, k: nat)
    requires forall i :: 0 <= i < |ws| ==> ws[i] == Exited
    ensures Held(ws, k) == []
  {
    if ws != [] {
      AllExitedHoldsNothing(ws[1..], k);
    }
  }

  /** Taking the callbacks respects sub-multisets: a sub-multiset of items
      has a sub-multiset of callbacks. */
  lemma {:induction false} CallbacksMonotone(a: seq<Work>, b: seq<Work>)
    requires multiset(a) <= multiset(b)
    ensures multiset(Callbacks(a)) <= multiset(Callbacks(b))
    decreases |a|
  {
    if a != [] {
      var x, tail := a[0], a[1..];
      assert x in multiset(b);
      var j :| 0 <= j < |b| && b[j] == x;
      var rest := b[..j] + b[j + 1..];
      RemoveAt(b, j);
      assert a == [x] + tail;
      CancelOne(multiset(tail), multiset(rest), x);
      CallbacksMonotone(tail, rest);
      CallbacksRemoveAt(b, j);
      CallbacksAppend([x], tail);
    }
  }

  /** Removing the element at j takes exactly one copy of it out of the multiset. */
  lemma RemoveAt<T>(s: seq<T>, j: nat)
    requires j < |s|
    ensures multiset(s) == multiset(s[..j] + s[j + 1..]) + multiset{s[j]}
  {
    SplitAt(s, j);
  }

  /** Removing the item at j takes exactly its callbacks out. */
  lemma CallbacksRemoveAt(b: seq<Work>, j: nat)
    requires j < |b|
    ensures multiset(Callbacks(b)) == multiset(Callbacks(b[..j] + b[j + 1..])) + multiset(Callbacks([b[j]]))
  {
    var front, x, back := b[..j], [b[j]], b[j + 1..];
    SplitAt(b, j);
    CallbacksAppend(front + x, back);
    CallbacksAppend(front, x);
    CallbacksAppend(front, back);
  }

  /** A sequence is its prefix, the element at j, and its suffix. */
  lemma SplitAt<T>(s: seq<T>, j: nat)
    requires j < |s|
    ensures s == (s[..j] + [s[j]]) + s[j + 1..]
  {
  }

  lemma CancelOne<T>(m: multiset<T>, n: multiset<T>, x: T)
    requires m + multiset{x} <= n + multiset{x}
    ensures m <= n
  {
    forall y ensures m[y] <= n[y] {
      assert (m + multiset{x})[y] <= (n + multiset{x})[y];
    }
  }

  /** When every item carries a callback (the void Enqueue overload), each
      contributes exactly one. */
  lemma {:induction false} CallbacksAllPresent(items: seq<Work>)
    requires forall i :: 0 <= i < |items| ==> items[i].callback.Some?
    ensures |Callbacks(items)| == |items|
  {
    if items != [] {
      CallbacksAllPresent(items[1..]);
    }
  }

  /** When no item carries a callback (the future Enqueue overload), none
      is posted. */
  lemma {:induction false} CallbacksAllAbsent(items: seq<Work>)
    requires forall i :: 0 <= i < |items| ==> items[i].callback == None
    ensures Callbacks(items) == []
  {
    if items != [] {
      CallbacksAllAbsent(items[1..]);
    }
  }

  /** Every posted callback belongs to an item whose workload has already run. */
  lemma CallbacksFollowWorkloads(s: PoolState)
    requires Inv(s)
    ensures multiset(s.callbacksRun) + multiset(s.callbacks) <= multiset(Callbacks(s.ran))
  {
    HeldNested(s.workers, 1, 2);
    CallbacksAppend(Held(s.workers, 2), s.completed);
    CallbacksMonotone(Held(s.workers, 2) + s.completed, s.ran);
  }

  /** The in-flight count never exceeds the number of workers. */
  lemma InFlightBound(s: PoolState)
    requires Inv(s)
    ensures s.count <= |s.workers|
  {
  }

  /** The condition Wait returns on: the work queue is empty and nothing is
      in flight. */
  predicate Quiescent(s: PoolState)
  {
    s.queue == [] && s.count == 0
  }

  /** At quiescence every enqueued workload has run exactly once, every item
      is finished, and the posted callbacks are exactly those of the items. */
  lemma QuiescentAllRan(s: PoolState)
    requires Inv(s) && Quiescent(s)
    ensures multiset(s.ran) == multiset(s.submitted)
    ensures |s.ran| == |s.submitted|
    ensures multiset(s.completed) == multiset(s.submitted)
    ensures multiset(s.callbacksRun) + multiset(s.callbacks) == multiset(Callbacks(s.submitted))
  {
    HeldNested(s.workers, 0, 1);
    HeldNested(s.workers, 0, 2);
    assert Held(s.workers, 2) == [];
    CallbacksMonotone(s.completed, s.submitted);
    CallbacksMonotone(s.submitted, s.completed);
  }

  /** At quiescence, when every item came from the void Enqueue overload,
      there is one posted callback per item (1024 items give 1024 entries),
      even for items whose callback argument was null. */
  lemma QuiescentCallbackPerItem(s: PoolState)
    requires Inv(s) && Quiescent(s)
    requires forall i :: 0 <= i < |s.submitted| ==> s.submitted[i].callback.Some?
    ensures |s.callbacksRun| + |s.callbacks| == |s.submitted|
  {
    QuiescentAllRan(s);
    CallbacksAllPresent(s.submitted);
    assert |multiset(s.callbacksRun) + multiset(s.callbacks)| == |multiset(Callbacks(s.submitted))|;
  }

  /** When every item came from the future Enqueue overload, no callback is
      ever posted, at any point. */
  lemma FutureItemsPostNothing(s: PoolState)
    requires Inv(s)
    requires forall i :: 0 <= i < |s.submitted| ==> s.submitted[i].callback == None
    ensures s.callbacksRun == [] && s.callbacks == []
  {
    HeldNested(s.workers, 0, 2);
    assert multiset(Held(s.workers, 2)) + multiset(s.completed) <= multiset(s.submitted);
    CallbacksAppend(Held(s.workers, 2), s.completed);
    CallbacksMonotone(Held(s.workers, 2) + s.completed, s.submitted);
    CallbacksAllAbsent(s.submitted);
    assert |multiset(s.callbacksRun) + multiset(s.callbacks)| == 0;
  }
  /** Once every worker has exited and the callback queue is drained: nothing
      is in flight, every item is queued or finished, the finished items are
      exactly those whose workload has run, each of them has made its calls,
      and the callbacks run are exactly those of the finished items. */
  lemma ExitedPoolSettled(s: PoolState, calls: seq<ClosureId>)
    requires Inv(s) && CallsLogged(calls, s.ran, s.callbacksRun)
    requires forall i :: 0 <= i < |s.workers| ==> s.workers[i] == Exited
    requires s.callbacks == []
    ensures s.count == 0
    ensures multiset(s.ran) == multiset(s.completed)
    ensures multiset(s.submitted) == multiset(s.queue) + multiset(s.completed)
    ensures multiset(s.callbacksRun) == multiset(Callbacks(s.completed))
    ensures forall i, c :: 0 <= i < |s.completed| && c in s.completed[i].workload.Execute() ==> c in calls
    ensures forall i, c :: 0 <= i < |s.callbacksRun| && c in s.callbacksRun[i].Execute() ==> c in calls
  {
    ExitedPoolBalanced(s);
    FinishedWorkloadsCalled(calls, s.ran, s.callbacksRun, s.completed);
    LoggedCallsMade(calls, s.ran, s.callbacksRun);
  }

  /** ShouldFinishWorkUponDestruction, on the destroyed pool's state: when
      the only item ever enqueued was taken by a worker before the destructor
      ran (so the work queue is empty), its workload and its callback have
      both made their calls. */
  lemma TakenItemFullyRun(s: PoolState, calls: seq<ClosureId>, x: Work)
    requires Inv(s) && CallsLogged(calls, s.ran, s.callbacksRun)
    requires forall i :: 0 <= i < |s.workers| ==> s.workers[i] == Exited
    requires s.callbacks == [] && s.queue == [] && s.submitted == [x]
    ensures forall c :: c in x.workload.Execute() ==> c in calls
    ensures x.callback.Some? ==> forall c :: c in x.callback.value.Execute() ==> c in calls
  {
    ExitedPoolSettled(s, calls);
    assert |s.completed| == 1 && x in multiset(s.completed);
    assert s.completed == [x];
    assert [x][1..] == [];
    if x.callback.Some? {
      assert Callbacks(s.completed) == [x.callback.value];
      assert x.callback.value in multiset(s.callbacksRun);
    }
  }

  /** The bookkeeping part of ExitedPoolSettled: with no item held, the
      invariant's sums lose their in-flight terms. */
  lemma ExitedPoolBalanced(s: PoolState)
    requires Inv(s)
    requires forall i :: 0 <= i < |s.workers| ==> s.workers[i] == Exited
    requires s.callbacks == []
    ensures s.count == 0
    ensures multiset(s.ran) == multiset(s.completed)
    ensures multiset(s.submitted) == multiset(s.queue) + multiset(s.completed)
    ensures multiset(s.callbacksRun) == multiset(Callbacks(s.completed))
  {
    AllExitedHoldsNothing(s.workers, 0);
    AllExitedHoldsNothing(s.workers, 1);
    AllExitedHoldsNothing(s.workers, 2);
    var h2 := Held(s.workers, 2);
    assert Callbacks(h2) == [];
    DropEmpty(multiset(s.callbacksRun), multiset(s.callbacks), multiset(Callbacks(h2)), multiset(Callbacks(s.completed)));
  }

  /** Empty summands on both sides of an equation can be dropped. */
  lemma DropEmpty<T>(a: multiset<T>, e: multiset<T>, e': multiset<T>, b: multiset<T>)
    requires a + e == e' + b && e == multiset{} && e' == multiset{}
    ensures a == b
  {
    assert a + e == a && e' + b == b;
  }

  // ---- One lemma per critical section: each step keeps the invariant. ----

  /** Enqueue (either overload) appends one item to the work queue and to the
      log of submitted items. */
  lemma EnqueuePreservesInv(s: PoolState, item: Work)
    requires Inv(s)
    ensures Inv(s.(queue := s.queue + [item], submitted := s.submitted + [item]))
  {
  }

  /** A woken worker that sees stopping_ exits; nothing else changes. */
  lemma ExitPreservesInv(s: PoolState, w: nat)
    requires Inv(s) && s.stopping
    requires w < |s.workers| && s.workers[w] == Idle
    ensures Inv(s.(workers := s.workers[w := Exited]))
  {
    HeldSingle(Idle, 0);
    HeldSingle(Idle, 1);
    HeldSingle(Idle, 2);
    HeldSingle(Exited, 0);
    HeldSingle(Exited, 1);
    HeldSingle(Exited, 2);
    HeldKept(s.workers, w, Exited, 0);
    HeldKept(s.workers, w, Exited, 1);
    HeldKept(s.workers, w, Exited, 2);
  }

  /** A woken worker of a running pool with a non-empty queue takes the front
      item and increments the in-flight count. */
  lemma TakePreservesInv(s: PoolState, w: nat)
    requires Inv(s) && s.queue != []
    requires w < |s.workers| && s.workers[w] == Idle
    ensures Inv(s.(queue := s.queue[1..], workers := s.workers[w := Busy(s.queue[0], Taken)], count := s.count + 1))
  {
    TakeHeld(s.workers, w, s.queue[0]);
    MultisetFront(s.queue);
  }

  /** An idle worker that takes x holds one more item, x, in flight, and
      nothing more past Taken. */
  lemma TakeHeld(ws: seq<Worker>, w: nat, x: Work)
    requires w < |ws| && ws[w] == Idle
    ensures multiset(Held(ws[w := Busy(x, Taken)], 0)) == multiset(Held(ws, 0)) + multiset{x}
    ensures |Held(ws[w := Busy(x, Taken)], 0)| == |Held(ws, 0)| + 1
    ensures Held(ws[w := Busy(x, Taken)], 1) == Held(ws, 1)
    ensures Held(ws[w := Busy(x, Taken)], 2) == Held(ws, 2)
    ensures Exited in ws[w := Busy(x, Taken)] ==> Exited in ws
  {
    var v := Busy(x, Taken);
    HeldSingle(Idle, 0);
    HeldSingle(Idle, 1);
    HeldSingle(Idle, 2);
    HeldSingle(v, 0);
    HeldSingle(v, 1);
    HeldSingle(v, 2);
    HeldGains(ws, w, v, 0, x);
    HeldKept(ws, w, v, 1);
    HeldKept(ws, w, v, 2);
    NoNewExit(ws, w, v);
  }

  /** A worker holding a Taken item runs its workload. */
  lemma ExecutePreservesInv(s: PoolState, w: nat)
    requires Inv(s)
    requires w < |s.workers| && s.workers[w].Busy? && s.workers[w].phase == Taken
    ensures Inv(s.(workers := s.workers[w := Busy(s.workers[w].work, Ran)], ran := s.ran + [s.workers[w].work]))
  {
    var u := s.workers[w];
    var v := Busy(u.work, Ran);
    var ws := s.workers[w := v];
    HeldSingle(u, 0);
    HeldSingle(u, 1);
    HeldSingle(u, 2);
    HeldSingle(v, 0);
    HeldSingle(v, 1);
    HeldSingle(v, 2);
    HeldKept(s.workers, w, v, 0);
    HeldGains(s.workers, w, v, 1, u.work);
    HeldKept(s.workers, w, v, 2);
    NoNewExit(s.workers, w, ws[w]);
    assert multiset(s.ran + [u.work]) == multiset(s.ran) + multiset{u.work};
    AddToSum(multiset(s.ran), multiset(Held(s.workers, 1)), multiset(s.completed), multiset{u.work});
  }

  /** A worker whose workload has run posts its callback, if there is one. */
  lemma PostPreservesInv(s: PoolState, w: nat)
    requires Inv(s)
    requires w < |s.workers| && s.workers[w].Busy? && s.workers[w].phase == Ran
    ensures Inv(s.(workers := s.workers[w := Busy(s.workers[w].work, Posted)],
                   callbacks := s.callbacks + Callbacks([s.workers[w].work])))
  {
    var u := s.workers[w];
    var v := Busy(u.work, Posted);
    var ws := s.workers[w := v];
    HeldSingle(u, 0);
    HeldSingle(u, 1);
    HeldSingle(u, 2);
    HeldSingle(v, 0);
    HeldSingle(v, 1);
    HeldSingle(v, 2);
    HeldKept(s.workers, w, v, 0);
    HeldKept(s.workers, w, v, 1);
    HeldGains(s.workers, w, v, 2, u.work);
    NoNewExit(s.workers, w, ws[w]);
    var c := Callbacks([u.work]);
    assert multiset(s.callbacks + c) == multiset(s.callbacks) + multiset(c);
    AddToSum(multiset(s.callbacksRun) + multiset(s.callbacks), multiset(Callbacks(Held(s.workers, 2))),
             multiset(Callbacks(s.completed)), multiset(c));
  }

  /** A worker that has posted its callback decrements the in-flight count,
      which is then at least 1: the decrement never wraps around. */
  lemma ReleasePreservesInv(s: PoolState, w: nat)
    requires Inv(s)
    requires w < |s.workers| && s.workers[w].Busy? && s.workers[w].phase == Posted
    ensures s.count >= 1
    ensures Inv(s.(workers := s.workers[w := Idle], count := s.count - 1,
                   completed := s.completed + [s.workers[w].work]))
  {
    var u := s.workers[w];
    var ws := s.workers[w := Idle];
    HeldSingle(u, 0);
    HeldSingle(u, 1);
    HeldSingle(u, 2);
    HeldSingle(Idle, 0);
    HeldSingle(Idle, 1);
    HeldSingle(Idle, 2);
    HeldLoses(s.workers, w, Idle, 0, u.work);
    HeldLoses(s.workers, w, Idle, 1, u.work);
    HeldLoses(s.workers, w, Idle, 2, u.work);
    CallbacksAppend(s.completed, [u.work]);
    NoNewExit(s.workers, w, ws[w]);
    var x := u.work;
    var c := Callbacks([x]);
    assert multiset(s.completed + [x]) == multiset(s.completed) + multiset{x};
    MoveBetween(multiset(Held(s.workers, 0)), multiset(s.completed),
                multiset(Held(ws, 0)), multiset(s.completed + [x]), multiset{x});
    Regroup(multiset(s.queue), multiset(Held(s.workers, 0)), multiset(s.completed),
            multiset(Held(ws, 0)), multiset(s.completed + [x]));
    MoveBetween(multiset(Held(s.workers, 1)), multiset(s.completed),
                multiset(Held(ws, 1)), multiset(s.completed + [x]), multiset{x});
    MoveBetween(multiset(Callbacks(Held(s.workers, 2))), multiset(Callbacks(s.completed)),
                multiset(Callbacks(Held(ws, 2))), multiset(Callbacks(s.completed + [x])), multiset(c));
  }

  /** One round of ExecuteCallbacks runs the front callback and pops it: the
      callback moves from the queue to the log of run callbacks. */
  lemma RunCallbackPreservesInv(s: PoolState)
    requires Inv(s) && s.callbacks != []
    ensures Inv(s.(callbacks := s.callbacks[1..], callbacksRun := s.callbacksRun + [s.callbacks[0]]))
  {
    MultisetFront(s.callbacks);
  }

  /** ExecuteCallbacks run to the end: the whole callback queue moves to the
      log of run callbacks. */
  lemma DrainPreservesInv(s: PoolState)
    requires Inv(s)
    ensures Inv(s.(callbacks := [], callbacksRun := s.callbacksRun + s.callbacks))
  {
  }

  /** The destructor sets stopping_. */
  lemma StopPreservesInv(s: PoolState)
    requires Inv(s)
    ensures Inv(s.(stopping := true))
  {
  }
}
