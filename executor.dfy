/**
 * The batching executor's bookkeeping (w3multicall_executor.py): calls are
 * collected into one pending task under dense keys 0..n-1, the task is
 * detached for execution once it is old enough or full, and executing it
 * resolves it with one result per key or with an exception.
 *
 * Threads, the lock and the condition variable are not modelled: handing
 * a task to the thread pool appends it to the `dispatched` queue, and
 * `Execute` is applied to a task by the caller.  Time is an integer `now`
 * passed in by the caller.
 */
module Executor {
  import opened PyValues
  import opened Multicall

  /** The calls of a task keyed 0..n-1, in key order. */
  ghost predicate Dense(calls: map<int, Call>)
  {
    forall k :: k in calls <==> 0 <= k < |calls|
  }

  /** The calls of a densely keyed task in key order, which is also their insertion order. */
  function InOrder(calls: map<int, Call>): (cs: seq<Call>)
    requires Dense(calls)
    ensures |cs| == |calls|
    ensures forall k :: 0 <= k < |cs| ==> cs[k] == calls[k]
  {
    seq(|calls|, k requires 0 <= k < |calls| => calls[k])
  }

  /**
   * Adding a call under the next key keeps the keys dense and puts the
   * call last in key order: key order is submission order.
   */
  lemma InOrderSnoc(calls: map<int, Call>, c: Call)
    requires Dense(calls)
    ensures Dense(calls[|calls| := c])
    ensures InOrder(calls[|calls| := c]) == InOrder(calls) + [c]
  {
    assert |calls| !in calls;
    assert |calls[|calls| := c]| == |calls| + 1;
  }

  /** `W3MulticallExecutor.Task`: a batch of calls and, once executed, its outcome. */
  class Task {
    const creationTime: int
    var calls: map<int, Call>
    var results: Option<map<int, PyValue>>
    var exception: Option<Error>

    constructor (now: int)
      ensures creationTime == now
      ensures calls == map[] && results == None && exception == None
    {
      creationTime := now;
      calls := map[];
      results := None;
      exception := None;
    }

    /** Executed: either results or an exception is stored, so `get` no longer waits. */
    predicate Resolved()
      reads this
    {
      exception.Some? || results.Some?
    }

    /**
     * `get` on a resolved task: the stored exception whenever there is one,
     * else the result under `key`, or "Results not available or invalid
     * key" when there is none.
     */
    function Get(key: int): (r: Result<PyValue, Error>)
      reads this
      requires Resolved()
      ensures exception.Some? ==> r == Failure(exception.value)
      ensures exception.None? ==> (r.Success? <==> key in results.value)
      ensures r.Success? ==> exception.None? && r.value == results.value[key]
      ensures r.Failure? && exception.None? ==> r.error == ResultsUnavailable
    {
      if exception.Some? then Failure(exception.value)
      else if results.None? || key !in results.value then Failure(ResultsUnavailable)
      else Success(results.value[key])
    }

    /**
     * The result loop of `__execute`: `results[k]` is stored under each key
     * k in order; a key with no result raises IndexError, leaving the
     * results stored so far in place.
     */
    method StoreResults(rs: seq<PyValue>)
      requires Dense(calls)
      modifies this
      ensures calls == old(calls)
      ensures results == Some(map k | 0 <= k < Min(|calls|, |rs|) :: rs[k])
      ensures exception == if |rs| < |calls| then Some(IndexError) else old(exception)
    {
      results := Some(map[]);
      var n := |calls|;
      var k := 0;
      while k < n
        invariant 0 <= k <= n && k <= |rs|
        invariant calls == old(calls)
        invariant results == Some(map i | 0 <= i < k :: rs[i])
        invariant exception == old(exception)
      {
        if k >= |rs| {
          exception := Some(IndexError);
          return;
        }
        assert (map i | 0 <= i < k + 1 :: rs[i]) == results.value[k := rs[k]];
        results := Some(results.value[k := rs[k]]);
        k := k + 1;
      }
    }
  }

  /** `W3MulticallExecutor.Future`: one submitted call's place in its task. */
  class Future {
    const task: Task
    const key: int

    constructor (task: Task, key: int)
      ensures this.task == task && this.key == key
    {
      this.task := task;
      this.key := key;
    }

    /** `get`: the outcome of the task for this future's own key. */
    function Get(): (r: Result<PyValue, Error>)
      reads task
      requires task.Resolved()
      ensures task.exception.Some? ==> r == Failure(task.exception.value)
      ensures task.exception.None? && key in task.results.value ==> r == Success(task.results.value[key])
      ensures task.exception.None? && key !in task.results.value ==> r == Failure(ResultsUnavailable)
    {
      task.Get(key)
    }
  }

  /** `W3MulticallExecutor` without its thread pool and timer thread. */
  class W3MulticallExecutor {
    const multicallAddress: Address
    const batchMaxSize: int
    const tickDuration: int
    var pendingTask: Task?
    /** The tasks handed to the thread pool, oldest first. */
    var dispatched: seq<Task>

    constructor (multicallAddress: Address, batchMaxSize: int, tickDuration: int)
      ensures this.multicallAddress == multicallAddress
      ensures this.batchMaxSize == batchMaxSize && this.tickDuration == tickDuration
      ensures pendingTask == null && dispatched == []
      ensures Valid()
    {
      this.multicallAddress := multicallAddress;
      this.batchMaxSize := batchMaxSize;
      this.tickDuration := tickDuration;
      pendingTask := null;
      dispatched := [];
    }

    /**
     * A pending task has dense keys, is below the size bound, is not yet
     * resolved and has not been handed to the pool.
     */
    ghost predicate Valid()
      reads this, pendingTask
    {
      pendingTask != null ==>
        Dense(pendingTask.calls) && |pendingTask.calls| < batchMaxSize &&
        !pendingTask.Resolved() && pendingTask !in dispatched
    }

    /** The flush rule: the task is at least one tick old, or full. */
    predicate Due(task: Task, now: int)
      reads this, task
    {
      now >= task.creationTime + tickDuration || |task.calls| >= batchMaxSize
    }

    /** `__check_pending_task`: detaches the pending task and hands it to the pool exactly when it is due. */
    method CheckPendingTask(now: int)
      modifies this
      ensures old(pendingTask) != null && Due(old(pendingTask), now) ==>
                pendingTask == null && dispatched == old(dispatched) + [old(pendingTask)]
      ensures !(old(pendingTask) != null && Due(old(pendingTask), now)) ==>
                pendingTask == old(pendingTask) && dispatched == old(dispatched)
    {
      if pendingTask != null && Due(pendingTask, now) {
        var task := pendingTask;
        pendingTask := null;
        dispatched := dispatched + [task];
      }
    }

    /**
     * `submit`: adds the call to the pending task (a new one stamped `now`
     * if there is none) under the next key, then applies the flush rule.
     */
    method Submit(call: Call, now: int) returns (f: Future)
      requires Valid()
      modifies this, pendingTask
      ensures Valid()
      ensures old(pendingTask) != null ==> f.task == old(pendingTask)
      ensures old(pendingTask) == null ==> fresh(f.task) && f.task.creationTime == now
      ensures f.key == if old(pendingTask) == null then 0 else old(|pendingTask.calls|)
      ensures f.task.calls == (if old(pendingTask) == null then map[] else old(pendingTask.calls))[f.key := call]
      ensures Dense(f.task.calls) && f.key !in (if old(pendingTask) == null then map[] else old(pendingTask.calls))
      ensures f.task.results == None && f.task.exception == None
      ensures Due(f.task, now) ==> pendingTask == null && dispatched == old(dispatched) + [f.task]
      ensures !Due(f.task, now) ==> pendingTask == f.task && dispatched == old(dispatched)
    {
      if pendingTask == null {
        pendingTask := new Task(now);
      }
      var callKey := |pendingTask.calls|;
      pendingTask.calls := pendingTask.calls[callKey := call];
      var task := pendingTask;
      CheckPendingTask(now);
      f := new Future(task, callKey);
    }

    /** `cancel_pending`: forgets the pending task; it is neither handed to the pool nor resolved. */
    method CancelPending()
      modifies this
      ensures pendingTask == null && dispatched == old(dispatched)
      ensures Valid()
    {
      pendingTask := null;
    }

    /** The multicall `__execute` builds: the task's calls added in key order to a fresh batch on `w3`. */
    method NewBatch(task: Task, w3: Web3) returns (w3m: W3Multicall)
      requires Dense(task.calls)
      ensures fresh(w3m)
      ensures w3m.w3 == w3 && w3m.address == multicallAddress
      ensures w3m.calls == InOrder(task.calls) && w3m.requireSuccess == PyBool(true)
    {
      w3m := new W3Multicall(w3, multicallAddress, None);
      var n := |task.calls|;
      var k := 0;
      while k < n
        modifies w3m
        invariant 0 <= k <= n
        invariant w3m.w3 == w3 && w3m.address == multicallAddress
        invariant w3m.calls == InOrder(task.calls)[..k]
        invariant w3m.requireSuccess == PyBool(true)
      {
        w3m.Add(task.calls[k]);
        k := k + 1;
      }
      assert InOrder(task.calls)[..n] == InOrder(task.calls);
    }

    /**
     * `__execute`: runs the task's calls, in key order, as one batch on the
     * connection `w3` the pool handed out, then stores one result per key,
     * or the exception.
     */
    method Execute(task: Task, w3: Web3, codec: Codec, node: Node)
      requires Dense(task.calls)
      modifies task
      ensures task.calls == old(task.calls)
      ensures task.Resolved()
      ensures var outcome := CallSpec(codec, node, w3, multicallAddress, InOrder(task.calls), PyBool(true));
              (outcome.Failure? ==> task.exception == Some(outcome.error) && task.results == old(task.results)) &&
              (outcome.Success? ==>
                 var rs := outcome.value;
                 task.results == Some(map k | 0 <= k < Min(|task.calls|, |rs|) :: rs[k]) &&
                 task.exception == if |rs| < |task.calls| then Some(IndexError) else old(task.exception))
    {
      var w3m := NewBatch(task, w3);
      var results := w3m.Call(codec, node);
      if results.Failure? {
        task.exception := Some(results.error);
      } else {
        task.StoreResults(results.value);
      }
    }
  }

  /**
   * After a successful batch with a result for every key, each key answers
   * with its own call's result, in submission order, and any other key
   * with "Results not available or invalid key".
   */
  lemma ExecutedTaskAnswers(task: Task, rs: seq<PyValue>, n: nat, key: int)
    requires task.exception == None && n <= |rs|
    requires task.results == Some(map k | 0 <= k < n :: rs[k])
    ensures 0 <= key < n ==> task.Get(key) == Success(rs[key])
    ensures !(0 <= key < n) ==> task.Get(key) == Failure(ResultsUnavailable)
  {
  }
}
