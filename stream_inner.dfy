/** `Inner` (src/async_stream/inner.rs): the state behind the lock of the result
    stream every group reads from: buffered results, the number of results still
    expected (`count`), the number of tasks still running (`task_count`) and
    whether the group was cancelled. */
module StreamInner {

  class Inner<T> {
    var buffer: seq<T>
    var count: nat
    var taskCount: nat
    var cancelled: bool

    /** `Inner::new`. */
    constructor ()
      ensures buffer == [] && count == 0 && taskCount == 0 && !cancelled
    {
      buffer := [];
      count := 0;
      taskCount := 0;
      cancelled := false;
    }

    /** `task_count`. */
    function TaskCount(): (n: nat)
      reads this
      ensures n == taskCount
    {
      taskCount
    }

    /** `increment_task_count`. */
    method IncrementTaskCount()
      modifies this
      ensures taskCount == old(taskCount) + 1
      ensures buffer == old(buffer) && count == old(count) && cancelled == old(cancelled)
    {
      taskCount := taskCount + 1;
    }

    /** `decrement_task_count`: saturates at zero. */
    method DecrementTaskCount()
      modifies this
      ensures taskCount == Decremented(old(taskCount))
      ensures buffer == old(buffer) && count == old(count) && cancelled == old(cancelled)
    {
      if taskCount > 0 {
        taskCount := taskCount - 1;
      }
    }

    /** `cancel_tasks`: forgets the running tasks and marks the stream cancelled. */
    method CancelTasks()
      modifies this
      ensures taskCount == 0 && cancelled
      ensures buffer == old(buffer) && count == old(count)
    {
      taskCount := 0;
      cancelled := true;
    }
  }

  /** The task count after one `decrement_task_count`. */
  function Decremented(n: nat): (r: nat)
    ensures n == 0 ==> r == 0
    ensures n > 0 ==> r + 1 == n
  {
    if n > 0 then n - 1 else 0
  }

  /** No sequence of decrements takes the task count below zero, and once it is zero
      further decrements leave it there. */
  lemma {:induction false} DecrementsSaturate(n: nat, k: nat)
    ensures Iterate(n, k) == if k <= n then n - k else 0
    decreases k
  {
    if k > 0 {
      DecrementsSaturate(n, k - 1);
    }
  }

  /** The task count after `k` decrements. */
  function Iterate(n: nat, k: nat): nat
    decreases k
  {
    if k == 0 then n else Decremented(Iterate(n, k - 1))
  }
}
