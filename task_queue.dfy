/** `TaskQueue` (src/async_runtime/task_queue.rs): the single-threaded runtime's run
    queue, a thin wrapper over the runtime's `AsyncStream`. Tasks are represented by
    values of a type parameter. */
module TaskQueues {
  import opened Common
  import RuntimeStream

  class TaskQueue<T> {
    const stream: RuntimeStream.AsyncStream<T>

    ghost predicate Valid()
      reads this, stream, stream.count, stream.inner
    {
      stream.Valid()
    }

    /** The queued tasks, oldest first. */
    ghost function Contents(): seq<T>
      reads this, stream.inner
    {
      stream.inner.buffer
    }

    /** `TaskQueue::new`. */
    constructor ()
      ensures Valid() && Contents() == []
      ensures fresh(stream) && fresh(stream.count) && fresh(stream.inner)
    {
      stream := new RuntimeStream.AsyncStream();
    }

    /** `push`: the task goes to the back. */
    method Push(task: T)
      requires Valid()
      modifies stream, stream.count, stream.inner
      ensures Valid()
      ensures Contents() == old(Contents()) + [task]
    {
      stream.InsertItem(task);
    }

    /** `pop`: blocks, with a waker of its own, on the stream's next item, which one
        poll always delivers, so it never suspends: the oldest task, or `None` when
        the queue is empty. */
    method Pop() returns (r: Option<T>)
      requires Valid()
      modifies stream.count, stream.inner
      ensures Valid()
      ensures old(Contents()) == [] ==> r == None && Contents() == []
      ensures old(Contents()) != [] ==> r == Some(old(Contents())[0]) && Contents() == old(Contents())[1..]
    {
      var cx := new Waker();
      var p := stream.PollNext(cx);
      r := p.value;
    }
  }

  /** Tasks leave the queue in the order they were pushed. */
  method PushPushPop<T>(a: T, b: T) returns (first: Option<T>, second: Option<T>, third: Option<T>)
    ensures first == Some(a) && second == Some(b) && third == None
  {
    var q := new TaskQueue<T>();
    q.Push(a);
    q.Push(b);
    first := q.Pop();
    second := q.Pop();
    third := q.Pop();
  }
}
