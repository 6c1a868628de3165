/** The counting loop of `get_chunks` (src/spawn_group.rs and src/err_spawn_group.rs):
    `while count != 0 { if let Some(result) = stream.next().await { ... } }`. Each turn
    polls the result stream; a poll that delivers nothing lets the executor, which runs
    beside the caller, complete a running task. */
module GroupChunks {
  import opened Common
  import opened Priorities
  import opened StreamInner
  import opened TaskStream
  import opened RuntimeTasks
  import opened Runtime

  /** How a `get_chunks` call ends: with the requested results, with the panic on a
      too large argument, suspended for ever on a poll no task can answer, or polling
      for ever a stream that has ended and has no task left to deliver (its
      `Ready(None)` is ignored by the loop). */
  datatype Chunks<T> = Collected(items: seq<T>) | Panicked | Suspended(items: seq<T>) | Spins(items: seq<T>)

  /** What one turn of the loop did: took a delivered result, let the executor
      complete the running task `id` after a poll that delivered nothing, or found no
      task left to run after a `Ready(None)` poll (`Closed`) or a `Pending` one (`Stuck`). */
  datatype Turn<T> = Got(value: T) | Closed | Ran(id: nat) | Stuck

  /** One turn: `stream.next()` polled once. When it delivers nothing (`Pending`, or
      the `Ready(None)` of a cancelled stream that the loop ignores), the executor,
      which runs beside the caller, completes one running task if there is one. */
  method PollTurn<T>(rt: RuntimeEngine<T>, cx: Waker) returns (t: Turn<T>)
    requires rt.Valid()
    modifies rt, rt.stream.inner, rt.senders, cx
    ensures rt.Valid()
    ensures t.Got? ==>
      && old(rt.stream.inner.buffer) != [] && old(rt.stream.inner.count) != 0
      && t.value == old(rt.stream.inner.buffer)[0]
      && rt.stream.inner.buffer == old(rt.stream.inner.buffer)[1..]
      && rt.handles == old(rt.handles)
    ensures t.Closed? ==>
      && ((rt.stream.inner.cancelled && rt.stream.inner.buffer == []) || rt.stream.inner.count == 0)
      && (forall j :: 0 <= j < |rt.handles| ==> rt.handles[j].state != Running)
      && rt.stream.inner.buffer == old(rt.stream.inner.buffer) && rt.handles == old(rt.handles)
    ensures t.Ran? ==>
      && old(rt.stream.inner.buffer) == [] && old(rt.stream.inner.count) != 0
      && t.id < |old(rt.handles)| && old(rt.handles)[t.id].state == Running
      && rt.handles == old(rt.handles)[t.id := Handle(old(rt.handles)[t.id].output, Completed)]
      && rt.stream.inner.buffer == old(rt.stream.inner.buffer) + [old(rt.handles)[t.id].output]
      && |RunningOutputs(rt.handles)| < |RunningOutputs(old(rt.handles))|
    ensures t.Stuck? ==>
      && rt.stream.inner.buffer == [] && !rt.stream.inner.cancelled && rt.stream.inner.count != 0
      && (forall j :: 0 <= j < |rt.handles| ==> rt.handles[j].state != Running)
      && rt.stream.inner.buffer == old(rt.stream.inner.buffer) && rt.handles == old(rt.handles)
    ensures rt.stream.inner.cancelled == old(rt.stream.inner.cancelled)
    ensures rt.stream.inner.count == old(rt.stream.inner.count) - (if t.Got? then 1 else 0)
    ensures rt.iter == old(rt.iter) && rt.senders == old(rt.senders) && rt.count == old(rt.count)
    ensures rt.waitFor == old(rt.waitFor) && rt.log == old(rt.log)
  {
    var s := rt.stream.Clone();
    var p := s.PollNext(cx);
    match p
    case Ready(Some(v)) =>
      t := Got(v);
    case _ =>
      RunningIffOutputs(rt.handles);
      if exists j :: 0 <= j < |rt.handles| && rt.handles[j].state == Running {
        var j :| 0 <= j < |rt.handles| && rt.handles[j].state == Running;
        rt.RunTask(j);
        t := Ran(j);
      } else if p.Pending? {
        t := Stuck;
      } else {
        t := Closed;
      }
  }

  /** One turn of the counting loop with its bookkeeping: the results taken so far and
      the buffer still account for the original buffer and the outputs of the tasks run,
      and the handles show exactly those tasks completed. */
  method CollectTurn<T>(rt: RuntimeEngine<T>, cx: Waker, ghost h0: seq<Handle<T>>, ghost b0: seq<T>,
                        results: seq<T>, ghost ran: seq<nat>)
    returns (t: Turn<T>, results': seq<T>, ghost ran': seq<nat>)
    requires rt.Valid()
    requires forall k :: 0 <= k < |ran| ==> ran[k] < |h0|
    requires results + rt.stream.inner.buffer == b0 + Outputs(h0, ran)
    requires CompletedAt(h0, rt.handles, ran)
    modifies rt, rt.stream.inner, rt.senders, cx
    ensures rt.Valid()
    ensures forall k :: 0 <= k < |ran'| ==> ran'[k] < |h0|
    ensures results' + rt.stream.inner.buffer == b0 + Outputs(h0, ran')
    ensures CompletedAt(h0, rt.handles, ran')
    ensures t.Got? ==> results' == results + [t.value] && ran' == ran
    ensures t.Ran? ==> results' == results && |RunningOutputs(rt.handles)| < |RunningOutputs(old(rt.handles))|
    ensures !t.Ran? ==> ran' == ran
    ensures !t.Got? ==> results' == results
    ensures old(rt.stream.inner.buffer) != [] ==> t.Got?
    ensures t.Closed? ==> (rt.stream.inner.cancelled && rt.stream.inner.buffer == []) || rt.stream.inner.count == 0
    ensures t.Closed? ==> forall j :: 0 <= j < |rt.handles| ==> rt.handles[j].state != Running
    ensures t.Stuck? ==>
      && rt.stream.inner.buffer == [] && !rt.stream.inner.cancelled && rt.stream.inner.count != 0
      && forall j :: 0 <= j < |rt.handles| ==> rt.handles[j].state != Running
    ensures rt.stream.inner.cancelled == old(rt.stream.inner.cancelled)
    ensures rt.iter == old(rt.iter) && rt.senders == old(rt.senders) && rt.count == old(rt.count)
    ensures rt.waitFor == old(rt.waitFor) && rt.log == old(rt.log)
  {
    ghost var b1, h1 := rt.stream.inner.buffer, rt.handles;
    t := PollTurn(rt, cx);
    results', ran' := results, ran;
    match t
    case Got(v) =>
      assert b1 == [v] + rt.stream.inner.buffer;
      assert (results + [v]) + rt.stream.inner.buffer == results + b1;
      results' := results + [v];
    case Closed =>
    case Ran(j) =>
      OutputsAppend(h0, h0, ran, [j]);
      assert h1[j].output == h0[j].output;
      assert results + rt.stream.inner.buffer == (results + b1) + [h0[j].output];
      CompletedAtStep(h0, h1, ran, j, rt.handles);
      ran' := ran + [j];
    case Stuck =>
  }

  /** Collects `n` results from the engine's stream, in the order they are delivered.
      While the buffer holds enough expected results no task needs to run and the
      front `n` results are returned. */
  method Collect<T>(rt: RuntimeEngine<T>, n: nat) returns (r: Chunks<T>, ghost ran: seq<nat>)
    requires rt.Valid()
    modifies rt, rt.stream.inner, rt.senders
    ensures rt.Valid()
    ensures !r.Panicked?
    ensures r.Collected? ==> |r.items| == n
    ensures !r.Collected? ==> |r.items| < n
    ensures forall k :: 0 <= k < |ran| ==> ran[k] < |old(rt.handles)|
    ensures r.items + rt.stream.inner.buffer == old(rt.stream.inner.buffer) + Outputs(old(rt.handles), ran)
    ensures n <= |old(rt.stream.inner.buffer)| ==> r == Collected(old(rt.stream.inner.buffer)[..n]) && ran == []
    ensures r.Suspended? ==>
      && rt.stream.inner.buffer == [] && !rt.stream.inner.cancelled && rt.stream.inner.count != 0
      && forall j :: 0 <= j < |rt.handles| ==> rt.handles[j].state != Running
    ensures r.Spins? ==> (rt.stream.inner.cancelled && rt.stream.inner.buffer == []) || rt.stream.inner.count == 0
    ensures r.Spins? ==> forall j :: 0 <= j < |rt.handles| ==> rt.handles[j].state != Running
    ensures CompletedAt(old(rt.handles), rt.handles, ran)
    ensures rt.stream.inner.cancelled == old(rt.stream.inner.cancelled)
    ensures rt.iter == old(rt.iter) && rt.senders == old(rt.senders) && rt.count == old(rt.count)
    ensures rt.waitFor == old(rt.waitFor) && rt.log == old(rt.log)
  {
    ghost var h0, b0 := rt.handles, rt.stream.inner.buffer;
    var left := n;
    var results := [];
    var cx := new Waker();
    ran := [];
    assert CompletedAt(h0, rt.handles, ran);
    while left != 0
      invariant rt.Valid()
      invariant |results| + left == n
      invariant forall k :: 0 <= k < |ran| ==> ran[k] < |h0|
      invariant results + rt.stream.inner.buffer == b0 + Outputs(h0, ran)
      invariant n <= |b0| ==> ran == []
      invariant CompletedAt(h0, rt.handles, ran)
      invariant rt.stream.inner.cancelled == old(rt.stream.inner.cancelled)
      invariant rt.iter == old(rt.iter) && rt.senders == old(rt.senders) && rt.count == old(rt.count)
      invariant rt.waitFor == old(rt.waitFor) && rt.log == old(rt.log)
      decreases left, |RunningOutputs(rt.handles)|
    {
      assert n <= |b0| ==> |rt.stream.inner.buffer| >= left > 0;
      var t;
      t, results, ran := CollectTurn(rt, cx, h0, b0, results, ran);
      match t
      case Got(_) =>
        left := left - 1;
      case Closed =>
        return Spins(results), ran;
      case Ran(_) =>
      case Stuck =>
        return Suspended(results), ran;
    }
    if n <= |b0| {
      assert results == (results + rt.stream.inner.buffer)[..n];
    }
    r := Collected(results);
  }
}
