/** `RuntimeEngine` (src/shared/runtime.rs): the engine behind every group. It keeps
    the list of `(priority, task)` entries, the result stream, a spawn counter and the
    `wait_for` restart flag. The executor and the thread pool are represented by the
    handles of the spawned tasks and by a log of the requests made to them; a closure
    handed to `engine.execute` runs at once, in submission order. */
module Runtime {
  import opened Common
  import opened Priorities
  import opened StreamInner
  import opened TaskStream
  import opened RuntimeTasks

  /** A request to the executor or the thread pool: `start`, `cancel`, `spawn`,
      `join` and `end`. */
  datatype Event = Started | Stopped | Spawned(id: nat) | Joined | Ended

  class RuntimeEngine<T> {
    /** The `(Priority, Task)` list behind the lock; a task is named by its handle's index. */
    var iter: seq<Entry>
    /** The spawned tasks, in spawn order. */
    var handles: seq<Handle<T>>
    /** The stream clone each spawned body delivers its result through. */
    var senders: seq<AsyncStream<T>>
    const stream: AsyncStream<T>
    var count: nat
    var waitFor: bool
    ghost var log: seq<Event>

    /** The stream's counters agree with the tasks: one task counted per running handle,
        and at least one expected result per buffered result or running task. */
    ghost predicate Accounted()
      reads this, stream.inner
    {
      && |senders| == |handles|
      && (forall k :: 0 <= k < |senders| ==> senders[k].inner == stream.inner)
      && stream.inner.taskCount == |RunningOutputs(handles)|
      && stream.inner.count >= |stream.inner.buffer| + |RunningOutputs(handles)|
    }

    /** Besides, the list names only spawned tasks, and every running one. */
    ghost predicate Valid()
      reads this, stream.inner
    {
      && Accounted()
      && IdsBelow(iter, |handles|)
      && RunningListed(handles, iter)
    }

    /** `RuntimeEngine::init`. */
    constructor Init()
      ensures Valid()
      ensures fresh(stream) && fresh(stream.inner)
      ensures iter == [] && handles == [] && senders == [] && count == 0 && !waitFor && log == []
      ensures stream.inner.buffer == [] && stream.inner.count == 0 && stream.inner.taskCount == 0
      ensures !stream.inner.cancelled
    {
      iter := [];
      handles := [];
      senders := [];
      stream := new AsyncStream();
      count := 0;
      waitFor := false;
      log := [];
    }

    /** `load`. */
    method Load() returns (b: bool)
      ensures b == waitFor
    {
      b := waitFor;
    }

    /** `store`. */
    method Store(b: bool)
      modifies this
      ensures waitFor == b
      ensures iter == old(iter) && handles == old(handles) && senders == old(senders)
      ensures count == old(count) && log == old(log)
    {
      waitFor := b;
    }

    /** `poll`: `engine.join()`. */
    method Poll()
      modifies this
      ensures log == old(log) + [Joined]
      ensures iter == old(iter) && handles == old(handles) && senders == old(senders)
      ensures count == old(count) && waitFor == old(waitFor)
    {
      log := log + [Joined];
    }

    /** `write_task`: restarts the executor if a wait or a cancel stopped it, counts the
        task, announces it on a stream clone, spawns it and lists it. */
    method WriteTask(priority: Priority, output: T)
      requires Valid()
      modifies this, stream.inner
      ensures Valid()
      ensures log == old(log) + (if old(waitFor) then [Started] else []) + [Spawned(|old(handles)|)]
      ensures !waitFor && count == old(count) + 1
      ensures handles == old(handles) + [Handle(output, Running)]
      ensures iter == old(iter) + [Entry(priority, |old(handles)|)]
      ensures |senders| == |old(senders)| + 1 && senders[..|old(senders)|] == old(senders)
      ensures fresh(senders[|old(senders)|])
      ensures RunningOutputs(handles) == RunningOutputs(old(handles)) + [output]
      ensures stream.inner.count == old(stream.inner.count) + 1
      ensures stream.inner.taskCount == old(stream.inner.taskCount) + 1
      ensures stream.inner.buffer == old(stream.inner.buffer)
      ensures stream.inner.cancelled == old(stream.inner.cancelled)
    {
      var restart := Load();
      if restart {
        log := log + [Started];
        Store(false);
      }
      ghost var l0 := log;
      assert l0 == old(log) + (if old(waitFor) then [Started] else []);
      count := count + 1;
      var s := stream.Clone();
      s.Increment();
      var id := |handles|;
      SpawnKeepsListed(handles, iter, priority, output);
      handles := handles + [Handle(output, Running)];
      senders := senders + [s];
      log := log + [Spawned(id)];
      iter := iter + [Entry(priority, id)];
    }

    /** The body `write_task` spawned for task `x`, polled to completion: `insert_item`
        of its result and then `decrement_task_count`, through the task's own clone. */
    method RunTask(x: nat)
      requires Accounted() && x < |handles| && handles[x].state == Running
      modifies this, senders[x], stream.inner
      ensures Accounted()
      ensures old(Valid()) ==> Valid()
      ensures handles == old(handles)[x := Handle(old(handles)[x].output, Completed)]
      ensures stream.inner.buffer == old(stream.inner.buffer) + [old(handles)[x].output]
      ensures stream.inner.taskCount == old(stream.inner.taskCount) - 1
      ensures multiset(RunningOutputs(old(handles))) ==
        multiset(RunningOutputs(handles)) + multiset{old(handles)[x].output}
      ensures stream.inner.count == old(stream.inner.count)
      ensures stream.inner.cancelled == old(stream.inner.cancelled)
      ensures iter == old(iter) && senders == old(senders) && count == old(count)
      ensures waitFor == old(waitFor) && log == old(log)
    {
      ghost var h0 := handles;
      var s := senders[x];
      s.InsertItem(handles[x].output);
      FinishOne(handles, x, Completed);
      s.DecrementTaskCount();
      handles := handles[x := Handle(handles[x].output, Completed)];
      assert RunningListed(h0, iter) ==> RunningListed(handles, iter);
    }

    /** `cancel`: stops the executor, cancels every listed task that has not completed
        while emptying the list, and marks the stream cancelled. */
    method Cancel()
      requires Valid()
      modifies this, stream.inner
      ensures Valid()
      ensures waitFor && iter == []
      ensures handles == CancelIn(old(handles), IdSet(old(iter)))
      ensures forall j :: 0 <= j < |handles| ==> handles[j].state != Running
      ensures stream.inner.taskCount == 0 && stream.inner.cancelled
      ensures stream.inner.buffer == old(stream.inner.buffer)
      ensures stream.inner.count == old(stream.inner.count)
      ensures count == old(count) && senders == old(senders)
      ensures log == old(log) + [Stopped, Joined]
    {
      var s := stream.Clone();
      Store(true);
      log := log + [Stopped];
      ghost var h0 := handles;
      ghost var e0 := iter;
      ghost var ids: set<nat> := {};
      while iter != []
        invariant IdsBelow(iter, |h0|)
        invariant IdSet(e0) == IdSet(iter) + ids
        invariant handles == CancelIn(h0, ids)
        invariant waitFor && count == old(count) && senders == old(senders)
        invariant log == old(log) + [Stopped]
        invariant unchanged(stream.inner)
        decreases |iter|
      {
        ids := PopAndCancel(h0, ids);
      }
      assert IdSet(iter) == {};
      s.CancelTasks();
      NoneRunning(handles);
      ghost var l0 := log;
      Poll();
      assert log == l0 + [Joined];
    }

    /** One turn of the loop `while let Some((_, handle)) = iter.pop()` of `cancel`:
        the popped task is cancelled unless it has completed. */
    method PopAndCancel(ghost h0: seq<Handle<T>>, ghost ids: set<nat>) returns (ghost ids': set<nat>)
      requires iter != [] && IdsBelow(iter, |h0|) && handles == CancelIn(h0, ids)
      modifies this
      ensures var x := old(iter)[|old(iter)| - 1].id;
        && iter == old(iter)[..|old(iter)| - 1]
        && handles == (if old(handles)[x].state != Completed
                       then old(handles)[x := Handle(old(handles)[x].output, Cancelled)]
                       else old(handles))
        && ids' == ids + {x}
      ensures IdsBelow(iter, |h0|) && handles == CancelIn(h0, ids')
      ensures IdSet(old(iter)) + ids == IdSet(iter) + ids'
      ensures waitFor == old(waitFor) && count == old(count) && senders == old(senders)
      ensures log == old(log)
    {
      var e := iter[|iter| - 1];
      IdSetPop(iter);
      iter := iter[..|iter| - 1];
      CancelStep(h0, ids, e.id);
      if handles[e.id].state != Completed {
        handles := handles[e.id := Handle(handles[e.id].output, Cancelled)];
      }
      ids' := ids + {e.id};
    }

    /** `wait_for_all_tasks`: sorts the list by ascending priority, stops the executor,
        drains the list and puts the spawn counter back to zero. The drained tasks are
        those `DrainFromBack` names, so every task that was running has delivered its
        result. */
    method WaitForAllTasks() returns (ghost sorted: seq<Entry>, ghost ran: seq<nat>)
      requires Valid()
      modifies this, stream.inner, senders
      ensures Valid()
      ensures iter == [] && count == 0 && waitFor
      ensures sorted == SortByPriority(old(iter)) && IdsBelow(sorted, |old(handles)|)
      ensures (handles, ran) == DrainFromBack(old(handles), sorted)
      ensures stream.inner.buffer == old(stream.inner.buffer) + Outputs(old(handles), ran)
      ensures log == old(log) + [Joined, Stopped, Joined]
      ensures AllCompleted(old(handles), handles)
      ensures multiset(stream.inner.buffer) ==
        multiset(old(stream.inner.buffer)) + multiset(RunningOutputs(old(handles)))
      ensures stream.inner.taskCount == 0
      ensures stream.inner.count == old(stream.inner.count)
      ensures stream.inner.cancelled == old(stream.inner.cancelled)
      ensures senders == old(senders)
    {
      ghost var l0 := log;
      sorted := SortForDrain();
      ghost var h0 := handles;
      ran := DrainList();
      DrainEnds(h0, old(iter), sorted, handles, ran);
      NoneRunning(handles);
      count := 0;
      ghost var l1 := log;
      Poll();
      assert log == l1 + [Joined];
      assert l1 == l0 + [Joined, Stopped];
    }

    /** `wait_for_all_tasks_non_async`, which the groups' `Drop` calls: the same wait,
        blocking the caller. Its contract keeps only what a dropped group observes. */
    method WaitForAllTasksNonAsync()
      requires Valid()
      modifies this, stream.inner, senders
      ensures Valid() && iter == [] && count == 0 && waitFor
      ensures AllCompleted(old(handles), handles)
      ensures multiset(stream.inner.buffer) ==
        multiset(old(stream.inner.buffer)) + multiset(RunningOutputs(old(handles)))
      ensures log == old(log) + [Joined, Stopped, Joined]
      ensures senders == old(senders)
    {
      var _, _ := WaitForAllTasks();
    }

    /** The first steps of `wait_for_all_tasks`: the pool is joined, the list is sorted
        by priority, the executor is stopped and the flag is set. */
    method SortForDrain() returns (ghost sorted: seq<Entry>)
      requires Valid()
      modifies this
      ensures Valid() && waitFor
      ensures sorted == iter == SortByPriority(old(iter)) && IdsBelow(sorted, |handles|)
      ensures IdSet(sorted) == IdSet(old(iter))
      ensures log == old(log) + [Joined, Stopped]
      ensures handles == old(handles) && senders == old(senders) && count == old(count)
    {
      ghost var l0 := log;
      Poll();
      SortKeepsIds(iter, |handles|);
      iter := SortByPriority(iter);
      log := log + [Stopped];
      assert log == l0 + [Joined, Stopped];
      Store(true);
      sorted := iter;
    }

    /** The loop `while let Some((_, handle)) = iter.pop()` of `wait_for_all_tasks`:
        each popped task that has neither completed nor been cancelled is run to
        completion on the thread pool. */
    method DrainList() returns (ghost ran: seq<nat>)
      requires Accounted() && IdsBelow(iter, |handles|)
      modifies this, stream.inner, senders
      ensures Accounted() && iter == []
      ensures (handles, ran) == DrainFromBack(old(handles), old(iter))
      ensures stream.inner.buffer == old(stream.inner.buffer) + Outputs(old(handles), ran)
      ensures log == old(log)
      ensures stream.inner.count == old(stream.inner.count)
      ensures stream.inner.cancelled == old(stream.inner.cancelled)
      ensures senders == old(senders) && count == old(count) && waitFor == old(waitFor)
    {
      ghost var h0, b0 := handles, stream.inner.buffer;
      ghost var target := DrainFromBack(handles, iter);
      ran := [];
      assert ran + target.1 == target.1;
      while iter != []
        invariant Accounted()
        invariant IdsBelow(iter, |handles|) && |handles| == |h0|
        invariant forall j :: 0 <= j < |handles| ==> handles[j].output == h0[j].output
        invariant target == (DrainFromBack(handles, iter).0, ran + DrainFromBack(handles, iter).1)
        invariant forall k :: 0 <= k < |ran| ==> ran[k] < |h0|
        invariant stream.inner.buffer == b0 + Outputs(h0, ran)
        invariant stream.inner.count == old(stream.inner.count)
        invariant stream.inner.cancelled == old(stream.inner.cancelled)
        invariant senders == old(senders) && count == old(count) && waitFor == old(waitFor)
        invariant log == old(log)
        decreases |iter|
      {
        ghost var h1 := handles;
        ghost var d1 := DrainFromBack(handles, iter);
        ghost var ran1 := PopAndRun();
        ghost var d2 := DrainFromBack(handles, iter);
        DrainTarget(target, d1, d2, ran, ran1);
        OutputsAppend(h0, h1, ran, ran1);
        ran := ran + ran1;
      }
      assert DrainFromBack(handles, iter) == (handles, []);
      assert ran + [] == ran;
    }

    /** One turn of that loop: pop the last entry and run its task if it is still running. */
    method PopAndRun() returns (ghost ran1: seq<nat>)
      requires Accounted() && IdsBelow(iter, |handles|) && iter != []
      modifies this, stream.inner, senders
      ensures Accounted() && IdsBelow(iter, |handles|) && |iter| == |old(iter)| - 1
      ensures var x := old(iter)[|old(iter)| - 1].id;
        && iter == old(iter)[..|old(iter)| - 1]
        && ran1 == (if old(handles)[x].state == Running then [x] else [])
        && handles == (if old(handles)[x].state == Running
                       then old(handles)[x := Handle(old(handles)[x].output, Completed)]
                       else old(handles))
      ensures |handles| == |old(handles)|
      ensures forall j :: 0 <= j < |handles| ==> handles[j].output == old(handles)[j].output
      ensures forall k :: 0 <= k < |ran1| ==> ran1[k] < |handles|
      ensures DrainFromBack(old(handles), old(iter)) ==
        (DrainFromBack(handles, iter).0, ran1 + DrainFromBack(handles, iter).1)
      ensures stream.inner.buffer == old(stream.inner.buffer) + Outputs(old(handles), ran1)
      ensures log == old(log)
      ensures stream.inner.count == old(stream.inner.count)
      ensures stream.inner.cancelled == old(stream.inner.cancelled)
      ensures senders == old(senders) && count == old(count) && waitFor == old(waitFor)
    {
      DrainFromBackPop(handles, iter);
      ghost var h0, e0 := handles, iter;
      var e := iter[|iter| - 1];
      iter := iter[..|iter| - 1];
      if handles[e.id].state == Running {
        RunTask(e.id);
        ran1 := [e.id];
      } else {
        ran1 := [];
        assert DrainFromBack(h0, e0).1 == ran1 + DrainFromBack(handles, iter).1;
      }
    }

    /** `end` (called by a dropped `DiscardingSpawnGroup` that does not wait). */
    method End()
      modifies this
      ensures log == old(log) + [Ended]
      ensures iter == old(iter) && handles == old(handles) && senders == old(senders)
      ensures count == old(count) && waitFor == old(waitFor)
    {
      log := log + [Ended];
    }

    /** `Drop`: joins the thread pool. */
    method Drop()
      modifies this
      ensures log == old(log) + [Joined]
      ensures iter == old(iter) && handles == old(handles) && senders == old(senders)
      ensures count == old(count) && waitFor == old(waitFor)
    {
      Poll();
    }
  }

  /** Outputs of more tasks, read from handles whose outputs are those of `h0`. */
  lemma OutputsAppend<T>(h0: seq<Handle<T>>, h1: seq<Handle<T>>, a: seq<nat>, b: seq<nat>)
    requires |h1| == |h0| && forall j :: 0 <= j < |h0| ==> h1[j].output == h0[j].output
    requires forall k :: 0 <= k < |a| ==> a[k] < |h0|
    requires forall k :: 0 <= k < |b| ==> b[k] < |h0|
    ensures Outputs(h0, a + b) == Outputs(h0, a) + Outputs(h1, b)
  {
  }

  /** Regrouping the tasks of a drain run so far with those still to run. */
  lemma DrainTarget<H>(target: (H, seq<nat>), d1: (H, seq<nat>), d2: (H, seq<nat>), ran: seq<nat>, ran1: seq<nat>)
    requires target == (d1.0, ran + d1.1) && d1 == (d2.0, ran1 + d2.1)
    ensures target == (d2.0, (ran + ran1) + d2.1)
  {
    assert ran + (ran1 + d2.1) == (ran + ran1) + d2.1;
  }

  /** What the drain of the sorted list leaves, once it has popped every entry. */
  lemma DrainEnds<T>(h0: seq<Handle<T>>, e: seq<Entry>, sorted: seq<Entry>, h2: seq<Handle<T>>, ran: seq<nat>)
    requires IdsBelow(e, |h0|) && RunningListed(h0, e) && sorted == SortByPriority(e)
    requires IdsBelow(sorted, |h0|) && IdSet(sorted) == IdSet(e)
    requires DrainFromBack(h0, sorted) == (h2, ran)
    ensures |h2| == |h0|
    ensures forall k :: 0 <= k < |ran| ==> ran[k] < |h0|
    ensures forall j :: 0 <= j < |h0| ==> h2[j].output == h0[j].output
    ensures forall j :: 0 <= j < |h0| ==>
      h2[j].state == if h0[j].state == Running then Completed else h0[j].state
    ensures forall j :: 0 <= j < |h0| ==> h2[j].state != Running
    ensures AllCompleted(h0, h2)
    ensures multiset(Outputs(h0, ran)) == multiset(RunningOutputs(h0))
  {
    DrainRunsPending(h0, sorted);
    PendingOfListed(h0, e);
  }
}
