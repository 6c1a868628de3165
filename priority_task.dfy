/** `PrioritizedTask` (src/shared/priority_task.rs): a task or barrier tagged with a
    `TaskPriority`. Equality looks only at the priority; `cmp` reverses the order
    of priorities, and `partial_cmp` reverses `cmp` once more. */
module PrioritizedTasks {
  import opened Common
  import opened TaskPriorities

  /** `TaskOrBarrier`: the task's future (represented by the value it produces)
      or a shared barrier (represented by an identity). */
  datatype TaskOrBarrier<T> = Task(future: T) | Barrier(barrier: nat)

  datatype PrioritizedTask<T> = PrioritizedTask(task: TaskOrBarrier<T>, priority: TaskPriority)

  /** `PrioritizedTask::new`: wraps a future as a `Task`. */
  function New<T>(priority: TaskPriority, future: T): (r: PrioritizedTask<T>)
    ensures r.task.Task? && r.task.future == future
    ensures r.priority == priority
  {
    PrioritizedTask(Task(future), priority)
  }

  /** `PrioritizedTask::new_with`: wraps a barrier. */
  function NewWith<T>(priority: TaskPriority, barrier: nat): (r: PrioritizedTask<T>)
    ensures r.task.Barrier? && r.task.barrier == barrier
    ensures r.priority == priority
  {
    PrioritizedTask(Barrier(barrier), priority)
  }

  /** `PartialEq::eq`: only priorities are compared. */
  function Eq<T>(a: PrioritizedTask<T>, b: PrioritizedTask<T>): (r: bool)
    ensures r <==> Rank(a.priority) == Rank(b.priority)
  {
    a.priority == b.priority
  }

  /** `Ord::cmp`: `other.priority.cmp(&self.priority)`. */
  function CmpTasks<T>(a: PrioritizedTask<T>, b: PrioritizedTask<T>): (r: Ordering)
    ensures r == Less <==> Rank(a.priority) > Rank(b.priority)
    ensures r == Greater <==> Rank(a.priority) < Rank(b.priority)
  {
    Cmp(b.priority, a.priority)
  }

  /** `PartialOrd::partial_cmp`: `Some(other.cmp(self))`. */
  function PartialCmp<T>(a: PrioritizedTask<T>, b: PrioritizedTask<T>): (r: Option<Ordering>)
    ensures r.Some?
  {
    Some(CmpTasks(b, a))
  }

  /** `cmp` ranks a higher priority first (as `Less`), and is `Equal` exactly for equal tasks. */
  lemma CmpIsReversed<T>(a: PrioritizedTask<T>, b: PrioritizedTask<T>)
    ensures CmpTasks(a, b) == Cmp(a.priority, b.priority).Reverse()
    ensures CmpTasks(a, b) == Equal <==> Eq(a, b)
  {
  }

  /** `partial_cmp` gives back the forward priority order, so it contradicts `cmp`
      on every pair of tasks whose priorities differ. */
  lemma PartialCmpDisagreesWithCmp<T>(a: PrioritizedTask<T>, b: PrioritizedTask<T>)
    ensures PartialCmp(a, b) == Some(Cmp(a.priority, b.priority))
    ensures !Eq(a, b) ==> PartialCmp(a, b) != Some(CmpTasks(a, b))
  {
  }
}
