/** `ThreadSafeQueue` (src/threadpool/queue.rs): a `VecDeque` shared behind an `Arc`
    by every clone, dequeued at the front or at the back depending on a fixed order. */
module ThreadSafeQueues {
  import opened Common

  /** `QueueOrder`: which end `dequeue` takes from. */
  datatype QueueOrder = FirstOut | LastOut

  /** The shared `VecDeque`. */
  class Buffer<T> {
    var items: seq<T>

    constructor ()
      ensures items == []
    {
      items := [];
    }
  }

  /** The item a dequeue returns and the items left behind. */
  function Take<T>(order: QueueOrder, items: seq<T>): (r: (Option<T>, seq<T>))
    ensures items == [] <==> r.0 == None
    ensures items == [] ==> r.1 == []
    ensures items != [] && order == FirstOut ==> r == (Some(items[0]), items[1..])
    ensures items != [] && order == LastOut ==> r == (Some(items[|items| - 1]), items[..|items| - 1])
  {
    if items == [] then (None, [])
    else match order
      case FirstOut => (Some(items[0]), items[1..])
      case LastOut => (Some(items[|items| - 1]), items[..|items| - 1])
  }

  /** Everything successive dequeues return until the queue is empty. */
  function Drain<T>(order: QueueOrder, items: seq<T>): seq<T>
    decreases |items|
  {
    var (head, rest) := Take(order, items);
    if head.None? then [] else [head.value] + Drain(order, rest)
  }

  /** A `FirstOut` queue gives its items back in the order they were enqueued, a
      `LastOut` queue in the opposite order. */
  lemma {:induction false} DrainOrder<T>(items: seq<T>)
    ensures Drain(FirstOut, items) == items
    ensures Drain(LastOut, items) == Reversed(items)
    decreases |items|
  {
    if items != [] {
      DrainOrder(items[1..]);
      DrainOrder(items[..|items| - 1]);
    }
  }

  class ThreadSafeQueue<T> {
    const buffer: Buffer<T>
    const order: QueueOrder

    /** `ThreadSafeQueue::new(order)`: a fresh empty buffer. */
    constructor (order: QueueOrder)
      ensures buffer.items == [] && this.order == order
      ensures fresh(buffer)
    {
      buffer := new Buffer();
      this.order := order;
    }

    /** `enqueue`: `push_back`. */
    method Enqueue(value: T)
      modifies buffer
      ensures buffer.items == old(buffer.items) + [value]
    {
      buffer.items := buffer.items + [value];
    }

    /** `dequeue`: `pop_front` for `FirstOut`, `pop_back` for `LastOut`. */
    method Dequeue() returns (r: Option<T>)
      modifies buffer
      ensures (r, buffer.items) == Take(order, old(buffer.items))
    {
      if |buffer.items| == 0 {
        return None;
      }
      match order
      case FirstOut =>
        r := Some(buffer.items[0]);
        buffer.items := buffer.items[1..];
      case LastOut =>
        r := Some(buffer.items[|buffer.items| - 1]);
        buffer.items := buffer.items[..|buffer.items| - 1];
    }

    /** `Clone::clone`: another handle on the same buffer, with the same order. */
    method Clone() returns (c: ThreadSafeQueue<T>)
      ensures c.buffer == buffer && c.order == order
    {
      c := new ThreadSafeQueue.Share(this);
    }

    constructor Share(other: ThreadSafeQueue<T>)
      ensures buffer == other.buffer && order == other.order
    {
      buffer := other.buffer;
      order := other.order;
    }
  }
}
