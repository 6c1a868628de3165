/** `AsyncStream` (src/async_stream/stream.rs): the result stream of a group. Every
    clone shares one `Inner`; a spawned task announces itself with `increment` and
    delivers its result with `insert_item`, and the group drains results with
    `poll_next` (or `first`). */
module TaskStream {
  import opened Common
  import opened StreamInner

  /** The outcome of one `poll_next` on a buffer, a count of expected results and a
      cancellation flag: the poll result, the buffer and the count afterwards. */
  function PollNextStep<T>(buffer: seq<T>, count: nat, cancelled: bool): (r: (Poll<Option<T>>, seq<T>, nat))
    // A cancelled stream ends once it is drained.
    ensures cancelled && buffer == [] ==> r == (Ready(None), buffer, count)
    // The caller is asked to wait only while results are expected and none is buffered.
    ensures r.0 == Pending <==> !cancelled && buffer == [] && count != 0
    ensures r.0 == Pending ==> r.1 == buffer && r.2 == count
    // A result is delivered iff one is buffered and one is expected: the front one.
    ensures r.0.Ready? && r.0.value.Some? <==> buffer != [] && count != 0
    ensures buffer != [] && count != 0 ==> r == (Ready(Some(buffer[0])), buffer[1..], count - 1)
    // With nothing expected, the stream ends even if results are buffered.
    ensures count == 0 ==> r == (Ready(None), buffer, count)
  {
    if cancelled && buffer == [] then (Ready(None), buffer, count)
    else if count != 0 then
      if buffer == [] then (Pending, buffer, count)
      else (Ready(Some(buffer[0])), buffer[1..], count - 1)
    else (Ready(None), buffer, count)
  }

  /** What a consumer gets by polling until the stream stops delivering: the results
      and the final poll. */
  function Drain<T>(buffer: seq<T>, count: nat, cancelled: bool): (r: (seq<T>, Poll<Option<T>>))
    decreases |buffer|
  {
    var (p, rest, c) := PollNextStep(buffer, count, cancelled);
    if p.Ready? && p.value.Some? then
      var (items, last) := Drain(rest, c, cancelled);
      ([p.value.value] + items, last)
    else ([], p)
  }

  /** Results leave in insertion order, and exactly `count` of them are delivered: a
      stream expecting at least as many results as it buffers gives back the whole
      buffer, then waits or, once cancelled or when no more are expected, ends;
      results beyond `count` stay in the buffer. */
  lemma {:induction false} DrainIsFifo<T>(buffer: seq<T>, count: nat, cancelled: bool)
    ensures count >= |buffer| ==> Drain(buffer, count, cancelled).0 == buffer
    ensures count >= |buffer| ==>
      Drain(buffer, count, cancelled).1 == (if cancelled || count == |buffer| then Ready(None) else Pending)
    ensures count < |buffer| ==> Drain(buffer, count, cancelled) == (buffer[..count], Ready(None))
    decreases |buffer|
  {
    if buffer != [] && count != 0 {
      DrainIsFifo(buffer[1..], count - 1, cancelled);
      if count < |buffer| {
        assert buffer[..count] == [buffer[0]] + buffer[1..][..count - 1];
      }
    }
  }

  class AsyncStream<T> {
    const inner: Inner<T>
    var started: bool

    /** `AsyncStream::new`. */
    constructor ()
      ensures fresh(inner) && !started
      ensures inner.buffer == [] && inner.count == 0 && inner.taskCount == 0 && !inner.cancelled
    {
      inner := new Inner();
      started := false;
    }

    /** The handle `Clone::clone` builds: the same `Inner` and flag. */
    constructor Share(other: AsyncStream<T>)
      ensures inner == other.inner && started == other.started
    {
      inner := other.inner;
      started := other.started;
    }

    /** `Clone::clone`. */
    method Clone() returns (c: AsyncStream<T>)
      ensures fresh(c) && c.inner == inner && c.started == started
    {
      c := new AsyncStream.Share(this);
    }

    /** `insert_item`: `push_back` under the lock. */
    method InsertItem(value: T)
      modifies this, inner
      ensures started
      ensures inner.buffer == old(inner.buffer) + [value]
      ensures inner.count == old(inner.count) && inner.taskCount == old(inner.taskCount)
      ensures inner.cancelled == old(inner.cancelled)
    {
      started := true;
      inner.buffer := inner.buffer + [value];
    }

    /** `increment`: one more result expected and one more task running. */
    method Increment()
      modifies inner
      ensures inner.count == old(inner.count) + 1
      ensures inner.taskCount == old(inner.taskCount) + 1
      ensures inner.buffer == old(inner.buffer) && inner.cancelled == old(inner.cancelled)
    {
      inner.count := inner.count + 1;
      inner.IncrementTaskCount();
    }

    /** `first`: `pop_front` without touching `count`, which may then exceed what the
        buffer will ever hold. */
    method First() returns (r: Option<T>)
      modifies inner
      ensures old(inner.buffer) == [] ==> r == None && inner.buffer == []
      ensures old(inner.buffer) != [] ==> r == Some(old(inner.buffer)[0]) && inner.buffer == old(inner.buffer)[1..]
      ensures inner.count == old(inner.count) && inner.taskCount == old(inner.taskCount)
      ensures inner.cancelled == old(inner.cancelled)
    {
      if |inner.buffer| == 0 {
        return None;
      }
      r := Some(inner.buffer[0]);
      inner.buffer := inner.buffer[1..];
    }

    /** `buffer_count`. */
    method BufferCount() returns (n: nat)
      ensures n == |inner.buffer|
    {
      n := |inner.buffer|;
    }

    /** `task_count`. */
    method TaskCount() returns (n: nat)
      ensures n == inner.taskCount
    {
      n := inner.TaskCount();
    }

    /** `decrement_task_count`. */
    method DecrementTaskCount()
      modifies inner
      ensures inner.taskCount == Decremented(old(inner.taskCount))
      ensures inner.buffer == old(inner.buffer) && inner.count == old(inner.count)
      ensures inner.cancelled == old(inner.cancelled)
    {
      inner.DecrementTaskCount();
    }

    /** `cancel_tasks`. */
    method CancelTasks()
      modifies inner
      ensures inner.taskCount == 0 && inner.cancelled
      ensures inner.buffer == old(inner.buffer) && inner.count == old(inner.count)
    {
      inner.CancelTasks();
    }

    /** `Stream::poll_next`: the waker is woken exactly when the poll is `Pending`,
        and a `Pending` poll changes nothing else. */
    method PollNext(cx: Waker) returns (r: Poll<Option<T>>)
      modifies inner, cx
      ensures (r, inner.buffer, inner.count) == PollNextStep(old(inner.buffer), old(inner.count), old(inner.cancelled))
      ensures inner.taskCount == old(inner.taskCount) && inner.cancelled == old(inner.cancelled)
      ensures cx.wakes == old(cx.wakes) + (if r == Pending then 1 else 0)
    {
      if inner.cancelled && |inner.buffer| == 0 {
        return Ready(None);
      }
      if inner.count != 0 {
        if |inner.buffer| == 0 {
          cx.Wake();
          return Pending;
        }
        var value := inner.buffer[0];
        inner.buffer := inner.buffer[1..];
        inner.count := inner.count - 1;
        return Ready(Some(value));
      }
      return Ready(None);
    }
  }
}
