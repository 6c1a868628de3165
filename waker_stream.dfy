/** `AsyncStream` (src/async_stream/mod.rs): a revision of the result stream with a
    single waker slot. A consumer that finds no buffered result while results are
    still announced (`item_count > 0`) leaves its waker in the slot; the next
    `insert_item` takes it out and wakes it. `item_count` is an `AtomicUsize`
    changed with wrapping `fetch_add` / `fetch_sub`. */
module WakerStream {
  import opened Common

  /** `Stages`: the three outcomes of one poll under the lock. `Ready(Some(v))` is
      the only `Ready` stage `poll` builds, so it carries the item itself. */
  datatype Stages<T> = Empty | Wait | Value(item: T)

  /** The outcome of `poll` once the lock is held: the stage, the new `item_count`
      and the new buffer. */
  function PollStep<T>(itemCount: Usize, buffer: seq<T>): (r: (Stages<T>, Usize, seq<T>))
    // The stream ends exactly when nothing is announced and nothing is buffered.
    ensures r.0 == Empty <==> itemCount == 0 && buffer == []
    // It waits exactly when results are announced but none is buffered.
    ensures r.0 == Wait <==> itemCount != 0 && buffer == []
    ensures !r.0.Value? ==> r.1 == itemCount && r.2 == buffer
    // Any buffered result is delivered, front first, and `item_count` goes down by one.
    ensures r.0.Value? <==> buffer != []
    ensures buffer != [] ==> r == (Value(buffer[0]), WrappingSub(itemCount, 1), buffer[1..])
  {
    if itemCount == 0 && buffer == [] then (Empty, itemCount, buffer)
    else if buffer == [] then (Wait, itemCount, buffer)
    else (Value(buffer[0]), WrappingSub(itemCount, 1), buffer[1..])
  }

  /** How `poll_next` maps a stage to a `Poll`. */
  function ToPoll<T>(stage: Stages<T>): (r: Poll<Option<T>>)
    ensures r == Pending <==> stage == Wait
    ensures r == Ready(None) <==> stage == Empty
    ensures stage.Value? ==> r == Ready(Some(stage.item))
  {
    match stage
    case Empty => Ready(None)
    case Wait => Pending
    case Value(item) => Ready(Some(item))
  }

  /** When no more results are buffered than announced, as when every `insert_item`
      is preceded by its `increment`, delivering a result never wraps `item_count`
      and the balance is kept. */
  lemma AnnouncedPollNeverWraps<T>(itemCount: Usize, buffer: seq<T>)
    requires |buffer| <= itemCount && buffer != []
    ensures PollStep(itemCount, buffer).1 == itemCount - 1
    ensures |PollStep(itemCount, buffer).2| <= PollStep(itemCount, buffer).1
  {
  }

  /** An item inserted without its `increment` makes the decrement wrap: the stream
      then believes `usize::MAX` results are still announced. */
  lemma UnannouncedPollWraps<T>(item: T)
    ensures PollStep(0, [item]) == (Value(item), USIZE_MAX, [])
  {
    assert [item][1..] == [];
  }

  /** Everything successive polls deliver, and the stage that stops them. */
  function Drain<T>(itemCount: Usize, buffer: seq<T>): (r: (seq<T>, Stages<T>))
    decreases |buffer|
  {
    var (stage, c, rest) := PollStep(itemCount, buffer);
    if stage.Value? then
      var (items, last) := Drain(c, rest);
      ([stage.item] + items, last)
    else ([], stage)
  }

  /** FIFO: with every result announced, polling gives back the whole buffer in
      insertion order, then waits for the results still announced or ends. */
  lemma {:induction false} DrainIsFifo<T>(itemCount: Usize, buffer: seq<T>)
    requires |buffer| <= itemCount
    ensures Drain(itemCount, buffer) == (buffer, if itemCount == |buffer| then Empty else Wait)
    decreases |buffer|
  {
    if buffer != [] {
      AnnouncedPollNeverWraps(itemCount, buffer);
      DrainIsFifo(itemCount - 1, buffer[1..]);
      assert buffer == [buffer[0]] + buffer[1..];
    }
  }

  /** `Inner` with its `InnerState`: the buffer and the waker slot behind the lock, and
      the atomic `item_count`. */
  class Inner<T> {
    var buffer: seq<T>
    var waker: Option<Waker>
    var itemCount: Usize

    constructor ()
      ensures buffer == [] && waker == None && itemCount == 0
    {
      buffer := [];
      waker := None;
      itemCount := 0;
    }
  }

  class AsyncStream<T> {
    const inner: Inner<T>

    /** `AsyncStream::new`. */
    constructor ()
      ensures fresh(inner)
      ensures inner.buffer == [] && inner.waker == None && inner.itemCount == 0
    {
      inner := new Inner();
    }

    constructor Share(other: AsyncStream<T>)
      ensures inner == other.inner
    {
      inner := other.inner;
    }

    /** `Clone::clone`: another handle on the same `Inner`. */
    method Clone() returns (c: AsyncStream<T>)
      ensures fresh(c) && c.inner == inner
    {
      c := new AsyncStream.Share(this);
    }

    /** `insert_item`: `push_back`, then take the registered waker, if any, and wake it
        once. */
    method InsertItem(value: T)
      modifies inner, if inner.waker.Some? then {inner.waker.value} else {}
      ensures inner.buffer == old(inner.buffer) + [value]
      ensures inner.waker == None && inner.itemCount == old(inner.itemCount)
      ensures old(inner.waker).Some? ==> old(inner.waker).value.wakes == old(inner.waker.value.wakes) + 1
    {
      inner.buffer := inner.buffer + [value];
      var w := inner.waker;
      inner.waker := None;
      if w.Some? {
        w.value.Wake();
      }
    }

    /** `buffer_count`. */
    method BufferCount() returns (n: nat)
      ensures n == |inner.buffer|
    {
      n := |inner.buffer|;
    }

    /** `increment`: `fetch_add(1)`. */
    method Increment()
      modifies inner
      ensures inner.itemCount == WrappingAdd(old(inner.itemCount), 1)
      ensures inner.buffer == old(inner.buffer) && inner.waker == old(inner.waker)
    {
      inner.itemCount := WrappingAdd(inner.itemCount, 1);
    }

    /** `first`: nothing while the buffer is empty or nothing is announced; otherwise
        the front result, with `item_count` lowered by one. */
    method First() returns (r: Option<T>)
      modifies inner
      ensures old(inner.buffer) == [] || old(inner.itemCount) == 0 ==>
        r == None && inner.buffer == old(inner.buffer) && inner.itemCount == old(inner.itemCount)
      ensures old(inner.buffer) != [] && old(inner.itemCount) != 0 ==>
        && r == Some(old(inner.buffer)[0])
        && inner.buffer == old(inner.buffer)[1..]
        && inner.itemCount == old(inner.itemCount) - 1
      ensures inner.waker == old(inner.waker)
    {
      if |inner.buffer| == 0 || inner.itemCount == 0 {
        return None;
      }
      r := Some(inner.buffer[0]);
      inner.buffer := inner.buffer[1..];
      inner.itemCount := WrappingSub(inner.itemCount, 1);
    }

    /** `item_count`. */
    method ItemCount() returns (n: Usize)
      ensures n == inner.itemCount
    {
      n := inner.itemCount;
    }

    /** `poll`, with the lock acquired: a `Wait` stores the caller's waker in the slot,
        dropping any waker stored before; the other stages leave the slot alone. */
    method Poll(cx: Waker) returns (r: Stages<T>)
      modifies inner
      ensures (r, inner.itemCount, inner.buffer) == PollStep(old(inner.itemCount), old(inner.buffer))
      ensures r == Wait ==> inner.waker == Some(cx)
      ensures r != Wait ==> inner.waker == old(inner.waker)
    {
      if inner.itemCount == 0 && |inner.buffer| == 0 {
        return Empty;
      }
      if |inner.buffer| == 0 {
        inner.waker := Some(cx);
        return Wait;
      }
      var value := inner.buffer[0];
      inner.buffer := inner.buffer[1..];
      inner.itemCount := WrappingSub(inner.itemCount, 1);
      return Value(value);
    }

    /** `Stream::poll_next`. */
    method PollNext(cx: Waker) returns (r: Poll<Option<T>>)
      modifies inner
      ensures var (stage, c, b) := PollStep(old(inner.itemCount), old(inner.buffer));
        r == ToPoll(stage) && inner.itemCount == c && inner.buffer == b
      ensures r == Pending ==> inner.waker == Some(cx)
      ensures r != Pending ==> inner.waker == old(inner.waker)
    {
      var stage := Poll(cx);
      r := ToPoll(stage);
    }

    /** `Stream::size_hint`. */
    method SizeHint() returns (r: (nat, Option<Usize>))
      ensures r == (0, Some(inner.itemCount))
    {
      r := (0, Some(inner.itemCount));
    }
  }

  /** A consumer waiting on an empty stream is woken by the next insertion, exactly
      once, and then receives that item. */
  method WakeOnInsert<T>(value: T) returns (first: Poll<Option<T>>, second: Poll<Option<T>>, cx: Waker)
    ensures first == Pending && second == Ready(Some(value)) && cx.wakes == 1
  {
    var s := new AsyncStream<T>();
    cx := new Waker();
    s.Increment();
    first := s.PollNext(cx);
    s.InsertItem(value);
    second := s.PollNext(cx);
  }
}
