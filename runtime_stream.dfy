/** `AsyncStream` (src/async_runtime/stream.rs): the stream the single-threaded
    runtime keeps its task queue in. The buffer and a counter are each shared behind
    an `Arc` by every clone; delivering an item lowers the counter with
    `fetch_min(1)`, so it never drops below 1 again once something was inserted. */
module RuntimeStream {
  import opened Common

  /** The shared `AtomicUsize`. */
  class Counter {
    var value: nat

    constructor ()
      ensures value == 0
    {
      value := 0;
    }
  }

  /** The shared `Inner`. */
  class Inner<T> {
    var buffer: seq<T>

    constructor ()
      ensures buffer == []
    {
      buffer := [];
    }
  }

  /** `fetch_min(1)`. */
  function DecrementedCount(count: nat): (r: nat)
    ensures r <= 1 && r <= count
    ensures count >= 1 ==> r == 1
    ensures count == 0 ==> r == 0
  {
    if count < 1 then count else 1
  }

  /** The outcome of one `poll_next` on a buffer and a counter. The `Pending` branch
      and the trailing `Ready(None)` of the source need a non-empty buffer with a zero
      counter, which `Valid` excludes. */
  function PollNextStep<T>(buffer: seq<T>, count: nat): (r: (Poll<Option<T>>, seq<T>, nat))
    requires buffer != [] ==> count >= 1
    ensures r.0 != Pending
    ensures buffer == [] ==> r == (Ready(None), buffer, count)
    ensures buffer != [] ==> r == (Ready(Some(buffer[0])), buffer[1..], DecrementedCount(count))
  {
    if buffer == [] then (Ready(None), buffer, count)
    else (Ready(Some(buffer[0])), buffer[1..], DecrementedCount(count))
  }

  /** Everything successive polls return before the first `Ready(None)`. */
  function Drain<T>(buffer: seq<T>, count: nat): (r: seq<T>)
    requires buffer != [] ==> count >= 1
    decreases |buffer|
  {
    var (p, rest, c) := PollNextStep(buffer, count);
    if p.Ready? && p.value.Some? then [p.value.value] + Drain(rest, c) else []
  }

  /** The stream is a FIFO queue: polling gives back the whole buffer in insertion order. */
  lemma {:induction false} DrainIsFifo<T>(buffer: seq<T>, count: nat)
    requires buffer != [] ==> count >= 1
    ensures Drain(buffer, count) == buffer
    decreases |buffer|
  {
    if buffer != [] {
      var c := DecrementedCount(count);
      assert buffer[1..] != [] ==> c >= 1;
      DrainIsFifo(buffer[1..], c);
      assert buffer == [buffer[0]] + buffer[1..];
    }
  }

  class AsyncStream<T> {
    const count: Counter
    const inner: Inner<T>
    var started: bool

    /** A buffered item always has a non-zero counter beside it. */
    ghost predicate Valid()
      reads this, count, inner
    {
      inner.buffer != [] ==> count.value >= 1
    }

    /** `AsyncStream::new`. */
    constructor ()
      ensures Valid() && fresh(count) && fresh(inner) && !started
      ensures count.value == 0 && inner.buffer == []
    {
      count := new Counter();
      inner := new Inner();
      started := false;
    }

    constructor Share(other: AsyncStream<T>)
      ensures count == other.count && inner == other.inner && started == other.started
    {
      count := other.count;
      inner := other.inner;
      started := other.started;
    }

    /** The derived `Clone`: the same counter and buffer. */
    method Clone() returns (c: AsyncStream<T>)
      ensures fresh(c) && c.count == count && c.inner == inner && c.started == started
    {
      c := new AsyncStream.Share(this);
    }

    /** `insert_item`: `fetch_add(1)` and `push_back`. */
    method InsertItem(value: T)
      requires Valid()
      modifies this, count, inner
      ensures Valid() && started
      ensures inner.buffer == old(inner.buffer) + [value]
      ensures count.value == old(count.value) + 1
    {
      started := true;
      count.value := count.value + 1;
      inner.buffer := inner.buffer + [value];
    }

    /** `count`. */
    method Count() returns (n: nat)
      ensures n == count.value
    {
      n := count.value;
    }

    /** `decrement_count`: `fetch_min(1)`, not a decrement. */
    method DecrementCount()
      requires Valid()
      modifies count
      ensures Valid()
      ensures count.value == DecrementedCount(old(count.value))
    {
      if count.value > 1 {
        count.value := 1;
      }
    }

    /** `Stream::poll_next`: the front item iff the buffer is non-empty, never `Pending`. */
    method PollNext(cx: Waker) returns (r: Poll<Option<T>>)
      requires Valid()
      modifies count, inner
      ensures Valid()
      ensures (r, inner.buffer, count.value) == PollNextStep(old(inner.buffer), old(count.value))
    {
      if |inner.buffer| == 0 {
        return Ready(None);
      }
      // `count != 0` holds here by `Valid`, and the buffer is non-empty.
      var value := inner.buffer[0];
      inner.buffer := inner.buffer[1..];
      DecrementCount();
      return Ready(Some(value));
    }
  }
}
