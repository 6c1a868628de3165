/** `ErrSpawnGroup` (src/err_spawn_group.rs): a group of child tasks that may fail,
    producing `Result<ValueType, ErrorType>` values. Besides what `SpawnGroup` keeps,
    it remembers whether the engine was joined since the last spawn (`polled`). */
module ErrSpawnGroups {
  import opened Common
  import opened Priorities
  import opened StreamInner
  import opened TaskStream
  import opened RuntimeTasks
  import opened Runtime
  import opened GroupChunks

  /** Rust's `Result`. */
  datatype Result<V, E> = Ok(value: V) | Err(error: E)

  class ErrSpawnGroup<V, E> {
    var isCancelled: bool
    var waitAtDrop: bool
    var count: nat
    var polled: bool
    const runtime: RuntimeEngine<Result<V, E>>

    ghost predicate Valid()
      reads this, runtime, runtime.stream.inner
    {
      runtime.Valid()
    }

    /** `init` (and `new`, which calls it). */
    constructor Init()
      ensures Valid() && fresh(runtime) && fresh(runtime.stream) && fresh(runtime.stream.inner)
      ensures !isCancelled && count == 0 && waitAtDrop && !polled
      ensures runtime.iter == [] && runtime.handles == [] && runtime.count == 0 && !runtime.waitFor
      ensures runtime.stream.inner.buffer == [] && runtime.stream.inner.taskCount == 0
      ensures runtime.senders == [] && runtime.stream.inner.count == 0 && !runtime.stream.inner.cancelled
    {
      count := 0;
      isCancelled := false;
      waitAtDrop := true;
      polled := false;
      runtime := new RuntimeEngine.Init();
    }

    /** `dont_wait_at_drop`. */
    method DontWaitAtDrop()
      modifies this
      ensures !waitAtDrop && isCancelled == old(isCancelled) && count == old(count) && polled == old(polled)
    {
      waitAtDrop := false;
    }

    /** `add_task` (behind `spawn_task`): counts the task, hands exactly one task to
        the engine and arranges for the next poll to join the engine first. */
    method AddTask(priority: Priority, output: Result<V, E>)
      requires Valid()
      modifies this, runtime, runtime.stream.inner
      ensures Valid()
      ensures count == old(count) + 1 && !polled
      ensures isCancelled == old(isCancelled) && waitAtDrop == old(waitAtDrop)
      ensures runtime.handles == old(runtime.handles) + [Handle(output, Running)]
      ensures runtime.iter == old(runtime.iter) + [Entry(priority, |old(runtime.handles)|)]
      ensures runtime.stream.inner.taskCount == old(runtime.stream.inner.taskCount) + 1
      ensures runtime.stream.inner.buffer == old(runtime.stream.inner.buffer)
      ensures RunningOutputs(runtime.handles) == RunningOutputs(old(runtime.handles)) + [output]
      ensures runtime.stream.inner.count == old(runtime.stream.inner.count) + 1
      ensures runtime.stream.inner.cancelled == old(runtime.stream.inner.cancelled)
      ensures |runtime.senders| == |old(runtime.senders)| + 1
      ensures runtime.senders[..|old(runtime.senders)|] == old(runtime.senders)
      ensures fresh(runtime.senders[|old(runtime.senders)|])
    {
      polled := false;
      count := count + 1;
      runtime.WriteTask(priority, output);
    }

    /** `add_task_unlessed_cancelled`: a cancelled group ignores the task. */
    method AddTaskUnlessCancelled(priority: Priority, output: Result<V, E>)
      requires Valid()
      modifies this, runtime, runtime.stream.inner
      ensures Valid()
      ensures old(isCancelled) ==>
        && count == old(count) && polled == old(polled) && runtime.handles == old(runtime.handles)
        && runtime.iter == old(runtime.iter) && runtime.log == old(runtime.log)
        && runtime.stream.inner.taskCount == old(runtime.stream.inner.taskCount)
      ensures old(isCancelled) ==> unchanged(this) && unchanged(runtime) && unchanged(runtime.stream.inner)
      ensures !old(isCancelled) ==>
        && count == old(count) + 1 && !polled
        && runtime.handles == old(runtime.handles) + [Handle(output, Running)]
        && runtime.iter == old(runtime.iter) + [Entry(priority, |old(runtime.handles)|)]
      ensures isCancelled == old(isCancelled) && waitAtDrop == old(waitAtDrop)
      ensures runtime.stream.inner.buffer == old(runtime.stream.inner.buffer)
    {
      if !isCancelled {
        AddTask(priority, output);
      }
    }

    /** `cancel_all_tasks` (behind `cancel_all`): cancels the engine's tasks, marks the
        group cancelled for good and resets the counter. */
    method CancelAllTasks()
      requires Valid()
      modifies this, runtime, runtime.stream.inner
      ensures Valid()
      ensures isCancelled && count == 0 && waitAtDrop == old(waitAtDrop) && polled == old(polled)
      ensures runtime.iter == [] && runtime.stream.inner.cancelled
      ensures forall j :: 0 <= j < |runtime.handles| ==> runtime.handles[j].state != Running
      // Listed tasks that had not completed are cancelled; every other handle is kept.
      ensures runtime.handles == CancelIn(old(runtime.handles), IdSet(old(runtime.iter)))
      ensures runtime.stream.inner.buffer == old(runtime.stream.inner.buffer)
    {
      runtime.Cancel();
      isCancelled := true;
      count := 0;
    }

    /** `wait` (behind `wait_for_all`): every running task delivers its result, and the
        counter goes back to zero. */
    method Wait()
      requires Valid()
      modifies this, runtime, runtime.stream.inner, runtime.senders
      ensures Valid()
      ensures runtime.stream.inner.count == old(runtime.stream.inner.count)
      ensures runtime.stream.inner.cancelled == old(runtime.stream.inner.cancelled)
      ensures runtime.senders == old(runtime.senders)
      ensures count == 0 && isCancelled == old(isCancelled) && waitAtDrop == old(waitAtDrop) && polled == old(polled)
      ensures runtime.iter == []
      ensures forall j :: 0 <= j < |runtime.handles| ==> runtime.handles[j].state != Running
      // Every task that was running is completed; every other handle is kept.
      ensures AllCompleted(old(runtime.handles), runtime.handles)
      ensures multiset(runtime.stream.inner.buffer) ==
        multiset(old(runtime.stream.inner.buffer)) + multiset(RunningOutputs(old(runtime.handles)))
    {
      var _, _ := runtime.WaitForAllTasks();
      count := 0;
    }

    /** `is_empty`: no task counted, or none still running. */
    method IsEmpty() returns (r: bool)
      requires Valid()
      ensures r <==> count == 0 || runtime.stream.inner.taskCount == 0
      ensures r <==> count == 0 || forall j :: 0 <= j < |runtime.handles| ==> runtime.handles[j].state != Running
    {
      var s := runtime.stream.Clone();
      var tasks := s.TaskCount();
      RunningIffOutputs(runtime.handles);
      r := count == 0 || tasks == 0;
    }

    /** `first`: takes the oldest buffered result, if any. */
    method First() returns (r: Option<Result<V, E>>)
      requires Valid()
      modifies runtime.stream.inner
      ensures Valid()
      ensures old(runtime.stream.inner.buffer) == [] ==> r == None && runtime.stream.inner.buffer == []
      ensures old(runtime.stream.inner.buffer) != [] ==>
        r == Some(old(runtime.stream.inner.buffer)[0]) && runtime.stream.inner.buffer == old(runtime.stream.inner.buffer)[1..]
    {
      r := runtime.stream.First();
    }

    /** `Stream::poll_next`: the first poll after a spawn joins the engine
        (`poll_all`); then the engine's stream is polled. */
    method PollNext(cx: Waker) returns (r: Poll<Option<Result<V, E>>>)
      requires Valid()
      modifies this, runtime, runtime.stream.inner, cx
      ensures Valid() && polled
      ensures runtime.log == old(runtime.log) + (if old(polled) then [] else [Joined])
      ensures (r, runtime.stream.inner.buffer, runtime.stream.inner.count) ==
        PollNextStep(old(runtime.stream.inner.buffer), old(runtime.stream.inner.count), old(runtime.stream.inner.cancelled))
      ensures runtime.handles == old(runtime.handles) && runtime.iter == old(runtime.iter)
      ensures runtime.stream.inner.taskCount == old(runtime.stream.inner.taskCount)
      ensures runtime.stream.inner.cancelled == old(runtime.stream.inner.cancelled)
      ensures count == old(count) && isCancelled == old(isCancelled) && waitAtDrop == old(waitAtDrop)
    {
      if !polled {
        runtime.Poll();
        polled := true;
      }
      r := runtime.stream.PollNext(cx);
    }

    /** `get_chunks`: zero results asked for gives none; otherwise, unless the buffer
        holds exactly that many, asking for more than were spawned panics; the results
        come back in the order they were delivered. */
    method GetChunks(ofCount: nat) returns (r: Chunks<Result<V, E>>, ghost ran: seq<nat>)
      requires Valid()
      modifies runtime, runtime.stream.inner, runtime.senders
      ensures Valid()
      ensures ofCount == 0 ==> r == Collected([])
      ensures r.Panicked? <==> ofCount != 0 && |old(runtime.stream.inner.buffer)| != ofCount && ofCount > count
      ensures r.Collected? ==> |r.items| == ofCount
      ensures ofCount <= |old(runtime.stream.inner.buffer)| && !r.Panicked? ==>
        r == Collected(old(runtime.stream.inner.buffer)[..ofCount])
      ensures forall k :: 0 <= k < |ran| ==> ran[k] < |old(runtime.handles)|
      ensures !r.Panicked? ==>
        r.items + runtime.stream.inner.buffer == old(runtime.stream.inner.buffer) + Outputs(old(runtime.handles), ran)
      // The tasks in `ran` were running, and they are exactly the ones that completed.
      ensures CompletedAt(old(runtime.handles), runtime.handles, ran)
      ensures r.Panicked? ==> runtime.stream.inner.buffer == old(runtime.stream.inner.buffer)
      ensures r.Suspended? || r.Spins? ==> |r.items| < ofCount
      // The loop only ends up polling for ever once no task is left to deliver.
      ensures r.Suspended? || r.Spins? ==> forall j :: 0 <= j < |runtime.handles| ==> runtime.handles[j].state != Running
    {
      ran := [];
      if ofCount == 0 {
        return Collected([]), ran;
      }
      var bufferCount := runtime.stream.BufferCount();
      if bufferCount == ofCount {
        r, ran := Collect(runtime, ofCount);
        return;
      }
      if ofCount > count {
        return Panicked, ran;
      }
      r, ran := Collect(runtime, ofCount);
    }

    /** `Drop`: waits for the tasks unless told not to, then the engine is dropped. */
    method Drop()
      requires Valid()
      modifies runtime, runtime.stream.inner, runtime.senders
      // Dropping a waiting group completes every running task; otherwise they are left running.
      ensures waitAtDrop ==> AllCompleted(old(runtime.handles), runtime.handles)
      ensures !waitAtDrop ==> runtime.handles == old(runtime.handles)
      ensures runtime.log == old(runtime.log) + (if waitAtDrop then [Joined, Stopped, Joined, Joined] else [Joined])
    {
      ghost var l0 := runtime.log;
      if waitAtDrop {
        runtime.WaitForAllTasksNonAsync();
        assert runtime.log == l0 + [Joined, Stopped, Joined];
      }
      ghost var l1, h1 := runtime.log, runtime.handles;
      runtime.Drop();
      assert runtime.log == l1 + [Joined] && runtime.handles == h1;
    }
  }
}
