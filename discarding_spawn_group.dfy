/** `DiscardingSpawnGroup` (src/discarding_spawn_group.rs): a group of child tasks
    whose results are thrown away. It keeps no spawn counter of its own. */
module DiscardingSpawnGroups {
  import opened Priorities
  import opened RuntimeTasks
  import opened Runtime

  class DiscardingSpawnGroup {
    var isCancelled: bool
    var waitAtDrop: bool
    const runtime: RuntimeEngine<()>

    ghost predicate Valid()
      reads this, runtime, runtime.stream.inner
    {
      runtime.Valid()
    }

    /** `init`: a group that waits for its tasks when dropped. */
    constructor Init()
      ensures Valid() && fresh(runtime) && fresh(runtime.stream) && fresh(runtime.stream.inner)
      ensures !isCancelled && waitAtDrop
      ensures runtime.iter == [] && runtime.handles == [] && runtime.log == []
      ensures runtime.senders == [] && runtime.stream.inner.count == 0 && !runtime.stream.inner.cancelled
    {
      isCancelled := false;
      waitAtDrop := true;
      runtime := new RuntimeEngine.Init();
    }

    /** `new(num_of_threads)`: a group that does not wait for its tasks when dropped.
        The thread count only sizes the pool. */
    constructor New(numOfThreads: nat)
      ensures Valid() && fresh(runtime) && fresh(runtime.stream) && fresh(runtime.stream.inner)
      ensures !isCancelled && !waitAtDrop
      ensures runtime.iter == [] && runtime.handles == [] && runtime.log == []
      ensures runtime.senders == [] && runtime.stream.inner.count == 0 && !runtime.stream.inner.cancelled
    {
      isCancelled := false;
      waitAtDrop := false;
      runtime := new RuntimeEngine.Init();
    }

    /** `dont_wait_at_drop`. */
    method DontWaitAtDrop()
      modifies this
      ensures !waitAtDrop && isCancelled == old(isCancelled)
    {
      waitAtDrop := false;
    }

    /** `add_task` (behind `spawn_task`): hands exactly one task to the engine. */
    method AddTask(priority: Priority)
      requires Valid()
      modifies runtime, runtime.stream.inner
      ensures Valid()
      ensures runtime.handles == old(runtime.handles) + [Handle((), Running)]
      ensures runtime.iter == old(runtime.iter) + [Entry(priority, |old(runtime.handles)|)]
      ensures runtime.stream.inner.taskCount == old(runtime.stream.inner.taskCount) + 1
      ensures RunningOutputs(runtime.handles) == RunningOutputs(old(runtime.handles)) + [()]
      ensures runtime.stream.inner.count == old(runtime.stream.inner.count) + 1
      ensures runtime.stream.inner.cancelled == old(runtime.stream.inner.cancelled)
      ensures |runtime.senders| == |old(runtime.senders)| + 1
      ensures runtime.senders[..|old(runtime.senders)|] == old(runtime.senders)
      ensures fresh(runtime.senders[|old(runtime.senders)|])
    {
      runtime.WriteTask(priority, ());
    }

    /** `add_task_unlessed_cancelled`: a cancelled group ignores the task. */
    method AddTaskUnlessCancelled(priority: Priority)
      requires Valid()
      modifies runtime, runtime.stream.inner
      ensures Valid()
      ensures old(isCancelled) ==>
        && runtime.handles == old(runtime.handles) && runtime.iter == old(runtime.iter)
        && runtime.log == old(runtime.log)
        && runtime.stream.inner.taskCount == old(runtime.stream.inner.taskCount)
      ensures old(isCancelled) ==> unchanged(this) && unchanged(runtime) && unchanged(runtime.stream.inner)
      ensures !old(isCancelled) ==>
        && runtime.handles == old(runtime.handles) + [Handle((), Running)]
        && runtime.iter == old(runtime.iter) + [Entry(priority, |old(runtime.handles)|)]
    {
      if !isCancelled {
        AddTask(priority);
      }
    }

    /** `cancel_all_tasks` (behind `cancel_all`): cancels the engine's tasks and marks
        the group cancelled for good. */
    method CancelAllTasks()
      requires Valid()
      modifies this, runtime, runtime.stream.inner
      ensures Valid()
      ensures isCancelled && waitAtDrop == old(waitAtDrop)
      ensures runtime.iter == [] && runtime.stream.inner.cancelled
      ensures forall j :: 0 <= j < |runtime.handles| ==> runtime.handles[j].state != Running
      // Listed tasks that had not completed are cancelled; every other handle is kept.
      ensures runtime.handles == CancelIn(old(runtime.handles), IdSet(old(runtime.iter)))
    {
      runtime.Cancel();
      isCancelled := true;
    }

    /** `is_empty`: no task still running. */
    method IsEmpty() returns (r: bool)
      requires Valid()
      ensures r <==> runtime.stream.inner.taskCount == 0
      ensures r <==> forall j :: 0 <= j < |runtime.handles| ==> runtime.handles[j].state != Running
    {
      var s := runtime.stream.Clone();
      var tasks := s.TaskCount();
      RunningIffOutputs(runtime.handles);
      r := tasks == 0;
    }

    /** `Drop` as written: the waiting branch calls the `async fn wait_for_all_tasks`
        without awaiting it, so the future it returns is dropped unpolled and nothing
        is waited for; the other branch ends the engine. Then the engine is dropped. */
    method DropAsWritten()
      requires Valid()
      modifies runtime
      ensures runtime.handles == old(runtime.handles) && runtime.iter == old(runtime.iter)
      ensures runtime.log == old(runtime.log) + (if waitAtDrop then [Joined] else [Ended, Joined])
    {
      if !waitAtDrop {
        runtime.End();
      }
      runtime.Drop();
    }

    /** `Drop` as intended: waits for the tasks if the group was built to, and
        otherwise ends the engine; then the engine is dropped. */
    method Drop()
      requires Valid()
      modifies runtime, runtime.stream.inner, runtime.senders
      // Dropping a waiting group completes every running task; otherwise they are left running.
      ensures waitAtDrop ==> AllCompleted(old(runtime.handles), runtime.handles)
      ensures !waitAtDrop ==> runtime.handles == old(runtime.handles)
      ensures runtime.log == old(runtime.log) + (if waitAtDrop then [Joined, Stopped, Joined, Joined] else [Ended, Joined])
    {
      ghost var l0 := runtime.log;
      if waitAtDrop {
        runtime.WaitForAllTasksNonAsync();
        assert runtime.log == l0 + [Joined, Stopped, Joined];
      } else {
        runtime.End();
        assert runtime.log == l0 + [Ended];
      }
      ghost var l1, h1 := runtime.log, runtime.handles;
      runtime.Drop();
      assert runtime.log == l1 + [Joined] && runtime.handles == h1;
    }
  }
}
