/** `SpawnGroup` (src/spawn_group.rs): a group of child tasks producing values of one
    type, with a spawn counter, a cancellation flag and the choice of waiting for its
    tasks when it is dropped. Its results stream out of the engine in FIFO order. */
module SpawnGroups {
  import opened Common
  import opened Priorities
  import opened StreamInner
  import opened TaskStream
  import opened RuntimeTasks
  import opened Runtime
  import opened GroupChunks

  class SpawnGroup<T> {
    var isCancelled: bool
    var waitAtDrop: bool
    var count: nat
    const runtime: RuntimeEngine<T>

    ghost predicate Valid()
      reads this, runtime, runtime.stream.inner
    {
      runtime.Valid()
    }

    /** `init` (and `new`, which calls it). */
    constructor Init()
      ensures Valid() && fresh(runtime) && fresh(runtime.stream) && fresh(runtime.stream.inner)
      ensures !isCancelled && count == 0 && waitAtDrop
      ensures runtime.iter == [] && runtime.handles == [] && runtime.count == 0 && !runtime.waitFor
      ensures runtime.stream.inner.buffer == [] && runtime.stream.inner.taskCount == 0
      ensures runtime.senders == [] && runtime.stream.inner.count == 0 && !runtime.stream.inner.cancelled
    {
      isCancelled := false;
      count := 0;
      waitAtDrop := true;
      runtime := new RuntimeEngine.Init();
    }

    /** `dont_wait_at_drop`. */
    method DontWaitAtDrop()
      modifies this
      ensures !waitAtDrop && isCancelled == old(isCancelled) && count == old(count)
    {
      waitAtDrop := false;
    }

    /** `add_task` (behind `spawn_task`): counts the task and hands exactly one task to
        the engine. */
    method AddTask(priority: Priority, output: T)
      requires Valid()
      modifies this, runtime, runtime.stream.inner
      ensures Valid()
      ensures count == old(count) + 1
      ensures isCancelled == old(isCancelled) && waitAtDrop == old(waitAtDrop)
      ensures runtime.handles == old(runtime.handles) + [Handle(output, Running)]
      ensures runtime.iter == old(runtime.iter) + [Entry(priority, |old(runtime.handles)|)]
      ensures runtime.stream.inner.taskCount == old(runtime.stream.inner.taskCount) + 1
      ensures runtime.stream.inner.buffer == old(runtime.stream.inner.buffer)
      ensures RunningOutputs(runtime.handles) == RunningOutputs(old(runtime.handles)) + [output]
      ensures runtime.stream.inner.count == old(runtime.stream.inner.count) + 1
      ensures runtime.stream.inner.cancelled == old(runtime.stream.inner.cancelled)
      ensures |runtime.senders| == |old(runtime.senders)| + 1
      ensures runtime.senders[..|old(runtime.senders)|] == old(runtime.senders)
      ensures fresh(runtime.senders[|old(runtime.senders)|])
    {
      count := count + 1;
      runtime.WriteTask(priority, output);
    }

    /** `add_task_unlessed_cancelled`: a cancelled group ignores the task. */
    method AddTaskUnlessCancelled(priority: Priority, output: T)
      requires Valid()
      modifies this, runtime, runtime.stream.inner
      ensures Valid()
      ensures old(isCancelled) ==>
        && count == old(count) && runtime.handles == old(runtime.handles)
        && runtime.iter == old(runtime.iter) && runtime.log == old(runtime.log)
        && runtime.stream.inner.taskCount == old(runtime.stream.inner.taskCount)
      ensures old(isCancelled) ==> unchanged(this) && unchanged(runtime) && unchanged(runtime.stream.inner)
      ensures !old(isCancelled) ==>
        && count == old(count) + 1
        && runtime.handles == old(runtime.handles) + [Handle(output, Running)]
        && runtime.iter == old(runtime.iter) + [Entry(priority, |old(runtime.handles)|)]
      ensures isCancelled == old(isCancelled) && waitAtDrop == old(waitAtDrop)
      ensures runtime.stream.inner.buffer == old(runtime.stream.inner.buffer)
    {
      if !isCancelled {
        AddTask(priority, output);
      }
    }

    /** `cancel_all_tasks` (behind `cancel_all`): cancels the engine's tasks, marks the
        group cancelled for good and resets the counter. */
    method CancelAllTasks()
      requires Valid()
      modifies this, runtime, runtime.stream.inner
      ensures Valid()
      ensures isCancelled && count == 0 && waitAtDrop == old(waitAtDrop)
      ensures runtime.iter == [] && runtime.stream.inner.cancelled
      ensures forall j :: 0 <= j < |runtime.handles| ==> runtime.handles[j].state != Running
      // Listed tasks that had not completed are cancelled; every other handle is kept.
      ensures runtime.handles == CancelIn(old(runtime.handles), IdSet(old(runtime.iter)))
      ensures runtime.stream.inner.buffer == old(runtime.stream.inner.buffer)
    {
      runtime.Cancel();
      isCancelled := true;
      count := 0;
    }

    /** `wait` (behind `wait_for_all`): every running task delivers its result, and the
        counter goes back to zero. */
    method Wait()
      requires Valid()
      modifies this, runtime, runtime.stream.inner, runtime.senders
      ensures Valid()
      ensures runtime.stream.inner.count == old(runtime.stream.inner.count)
      ensures runtime.stream.inner.cancelled == old(runtime.stream.inner.cancelled)
      ensures runtime.senders == old(runtime.senders)
      ensures count == 0 && isCancelled == old(isCancelled) && waitAtDrop == old(waitAtDrop)
      ensures runtime.iter == []
      ensures forall j :: 0 <= j < |runtime.handles| ==> runtime.handles[j].state != Running
      // Every task that was running is completed; every other handle is kept.
      ensures AllCompleted(old(runtime.handles), runtime.handles)
      ensures multiset(runtime.stream.inner.buffer) ==
        multiset(old(runtime.stream.inner.buffer)) + multiset(RunningOutputs(old(runtime.handles)))
    {
      var _, _ := runtime.WaitForAllTasks();
      count := 0;
    }

    /** `is_empty`: no task counted, or none still running. */
    method IsEmpty() returns (r: bool)
      requires Valid()
      ensures r <==> count == 0 || runtime.stream.inner.taskCount == 0
      ensures r <==> count == 0 || forall j :: 0 <= j < |runtime.handles| ==> runtime.handles[j].state != Running
    {
      var s := runtime.stream.Clone();
      var tasks := s.TaskCount();
      RunningIffOutputs(runtime.handles);
      r := count == 0 || tasks == 0;
    }

    /** `first`: takes the oldest buffered result, if any. */
    method First() returns (r: Option<T>)
      requires Valid()
      modifies runtime.stream.inner
      ensures Valid()
      ensures old(runtime.stream.inner.buffer) == [] ==> r == None && runtime.stream.inner.buffer == []
      ensures old(runtime.stream.inner.buffer) != [] ==>
        r == Some(old(runtime.stream.inner.buffer)[0]) && runtime.stream.inner.buffer == old(runtime.stream.inner.buffer)[1..]
    {
      var s := runtime.stream.Clone();
      r := s.First();
    }

    /** `Stream::poll_next`: polls a clone of the engine's stream. */
    method PollNext(cx: Waker) returns (r: Poll<Option<T>>)
      requires Valid()
      modifies runtime.stream.inner, cx
      ensures Valid()
      ensures (r, runtime.stream.inner.buffer, runtime.stream.inner.count) ==
        PollNextStep(old(runtime.stream.inner.buffer), old(runtime.stream.inner.count), old(runtime.stream.inner.cancelled))
    {
      var s := runtime.stream.Clone();
      r := s.PollNext(cx);
    }

    /** `get_chunks`: zero results asked for gives none; otherwise, unless the buffer
        holds exactly that many, asking for more than were spawned panics; the results
        come back in the order they were delivered. */
    method GetChunks(ofCount: nat) returns (r: Chunks<T>, ghost ran: seq<nat>)
      requires Valid()
      modifies runtime, runtime.stream.inner, runtime.senders
      ensures Valid()
      ensures ofCount == 0 ==> r == Collected([])
      ensures r.Panicked? <==> ofCount != 0 && |old(runtime.stream.inner.buffer)| != ofCount && ofCount > count
      ensures r.Collected? ==> |r.items| == ofCount
      ensures ofCount <= |old(runtime.stream.inner.buffer)| && !r.Panicked? ==>
        r == Collected(old(runtime.stream.inner.buffer)[..ofCount])
      ensures forall k :: 0 <= k < |ran| ==> ran[k] < |old(runtime.handles)|
      ensures !r.Panicked? ==>
        r.items + runtime.stream.inner.buffer == old(runtime.stream.inner.buffer) + Outputs(old(runtime.handles), ran)
      // The tasks in `ran` were running, and they are exactly the ones that completed.
      ensures CompletedAt(old(runtime.handles), runtime.handles, ran)
      ensures r.Panicked? ==> runtime.stream.inner.buffer == old(runtime.stream.inner.buffer)
      ensures r.Suspended? || r.Spins? ==> |r.items| < ofCount
      // The loop only ends up polling for ever once no task is left to deliver.
      ensures r.Suspended? || r.Spins? ==> forall j :: 0 <= j < |runtime.handles| ==> runtime.handles[j].state != Running
    {
      ran := [];
      if ofCount == 0 {
        return Collected([]), ran;
      }
      var s := runtime.stream.Clone();
      var bufferCount := s.BufferCount();
      if bufferCount == ofCount {
        r, ran := Collect(runtime, ofCount);
        return;
      }
      if ofCount > count {
        return Panicked, ran;
      }
      r, ran := Collect(runtime, ofCount);
    }

    /** `Drop`: waits for the tasks unless told not to, then the engine is dropped. */
    method Drop()
      requires Valid()
      modifies runtime, runtime.stream.inner, runtime.senders
      // Dropping a waiting group completes every running task; otherwise they are left running.
      ensures waitAtDrop ==> AllCompleted(old(runtime.handles), runtime.handles)
      ensures !waitAtDrop ==> runtime.handles == old(runtime.handles)
      ensures runtime.log == old(runtime.log) + (if waitAtDrop then [Joined, Stopped, Joined, Joined] else [Joined])
    {
      ghost var l0 := runtime.log;
      if waitAtDrop {
        runtime.WaitForAllTasksNonAsync();
        assert runtime.log == l0 + [Joined, Stopped, Joined];
      }
      ghost var l1, h1 := runtime.log, runtime.handles;
      runtime.Drop();
      assert runtime.log == l1 + [Joined] && runtime.handles == h1;
    }
  }
}
