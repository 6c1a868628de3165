/** The scoped entry points of src/lib.rs: `with_spawn_group`, `with_err_spawn_group` and
    `with_discarding_spawn_group` hand a fresh group to the caller's closure. The closure
    itself is the caller's code; the three documented examples are modelled as methods
    `FoldExample`, `ErrExample` and `DiscardingExample`, each with the result its
    documentation asserts. */
module Scopes {
  import opened Common
  import opened Priorities
  import opened StreamInner
  import opened TaskStream
  import opened RuntimeTasks
  import opened Runtime
  import opened GroupChunks
  import opened SpawnGroups
  import opened ErrSpawnGroups
  import opened DiscardingSpawnGroups

  /** `with_spawn_group`: the group the closure receives, fresh and empty, waiting for
      its tasks when dropped. */
  method WithSpawnGroup<T>() returns (g: SpawnGroup<T>)
    ensures fresh(g) && fresh(g.runtime) && fresh(g.runtime.stream.inner) && g.Valid()
    ensures !g.isCancelled && g.count == 0 && g.waitAtDrop
    ensures g.runtime.handles == [] && g.runtime.senders == [] && g.runtime.iter == []
    ensures g.runtime.stream.inner.buffer == [] && g.runtime.stream.inner.count == 0
    ensures !g.runtime.stream.inner.cancelled
  {
    g := new SpawnGroup.Init();
  }

  /** `with_err_spawn_group`: likewise for a group of fallible tasks. */
  method WithErrSpawnGroup<V, E>() returns (g: ErrSpawnGroup<V, E>)
    ensures fresh(g) && fresh(g.runtime) && fresh(g.runtime.stream.inner) && g.Valid()
    ensures !g.isCancelled && g.count == 0 && g.waitAtDrop && !g.polled
    ensures g.runtime.handles == [] && g.runtime.senders == [] && g.runtime.iter == []
    ensures g.runtime.stream.inner.buffer == [] && g.runtime.stream.inner.count == 0
    ensures !g.runtime.stream.inner.cancelled
  {
    g := new ErrSpawnGroup.Init();
  }

  /** `with_discarding_spawn_group`: a discarding group that waits for its tasks when
      dropped. */
  method WithDiscardingSpawnGroup() returns (g: DiscardingSpawnGroup)
    ensures fresh(g) && fresh(g.runtime) && fresh(g.runtime.stream.inner) && g.Valid()
    ensures !g.isCancelled && g.waitAtDrop
    ensures g.runtime.handles == [] && g.runtime.senders == [] && g.runtime.iter == []
    ensures g.runtime.log == []
  {
    g := new DiscardingSpawnGroup.Init();
  }

  /** The numbers below n, in order. */
  function Numbers(n: nat): (r: seq<int>)
    ensures |r| == n
    ensures forall k :: 0 <= k < n ==> r[k] == k
  {
    if n == 0 then [] else Numbers(n - 1) + [n - 1]
  }

  function Identity(x: int): int {
    x
  }

  /** 0 + 1 + ... + (n - 1). */
  function Triangle(n: nat): nat {
    if n == 0 then 0 else Triangle(n - 1) + (n - 1)
  }

  lemma {:induction false} SumOfNumbers(n: nat)
    ensures SumBy(Numbers(n), Identity) == Triangle(n)
  {
    if n != 0 {
      SumOfNumbers(n - 1);
      SumByConcat(Numbers(n - 1), [n - 1], Identity);
    }
  }

  /** The total the first example's fold must reach. */
  lemma FoldTotal()
    ensures SumBy(Numbers(11), Identity) == 55
  {
    SumOfNumbers(11);
  }

  /** The closure's `for` loop of `spawn_task` calls: one task per output, MEDIUM
      priority, in order. */
  method SpawnEach<T>(g: SpawnGroup<T>, outputs: seq<T>)
    requires g.Valid()
    modifies g, g.runtime, g.runtime.stream.inner
    ensures g.Valid()
    ensures RunningOutputs(g.runtime.handles) == RunningOutputs(old(g.runtime.handles)) + outputs
    ensures g.runtime.stream.inner.buffer == old(g.runtime.stream.inner.buffer)
    ensures g.runtime.stream.inner.count == old(g.runtime.stream.inner.count) + |outputs|
    ensures g.runtime.stream.inner.cancelled == old(g.runtime.stream.inner.cancelled)
    ensures g.waitAtDrop == old(g.waitAtDrop)
    ensures |g.runtime.senders| >= |old(g.runtime.senders)|
    ensures g.runtime.senders[..|old(g.runtime.senders)|] == old(g.runtime.senders)
    ensures forall k :: |old(g.runtime.senders)| <= k < |g.runtime.senders| ==> fresh(g.runtime.senders[k])
  {
    for i := 0 to |outputs|
      invariant g.Valid()
      invariant RunningOutputs(g.runtime.handles) == RunningOutputs(old(g.runtime.handles)) + outputs[..i]
      invariant g.runtime.stream.inner.buffer == old(g.runtime.stream.inner.buffer)
      invariant g.runtime.stream.inner.count == old(g.runtime.stream.inner.count) + i
      invariant g.runtime.stream.inner.cancelled == old(g.runtime.stream.inner.cancelled)
      invariant g.waitAtDrop == old(g.waitAtDrop)
      invariant |g.runtime.senders| >= |old(g.runtime.senders)|
      invariant g.runtime.senders[..|old(g.runtime.senders)|] == old(g.runtime.senders)
      invariant forall k :: |old(g.runtime.senders)| <= k < |g.runtime.senders| ==> fresh(g.runtime.senders[k])
    {
      g.AddTask(Default(), outputs[i]);
      assert outputs[..i + 1] == outputs[..i] + [outputs[i]];
    }
    assert outputs[..|outputs|] == outputs;
  }

  /** `StreamExt::fold` with addition over a group whose expected count is exactly its
      buffered and running results: each turn polls the stream once, and a `Pending`
      poll lets the executor complete one running task. Whatever the order of
      completion, the fold adds up every buffered and every running result. */
  method FoldSum(g: SpawnGroup<int>) returns (total: int)
    requires g.Valid() && !g.runtime.stream.inner.cancelled
    requires g.runtime.stream.inner.count ==
      |g.runtime.stream.inner.buffer| + |RunningOutputs(g.runtime.handles)|
    modifies g.runtime, g.runtime.stream.inner, g.runtime.senders
    ensures g.Valid()
    ensures total == old(SumBy(g.runtime.stream.inner.buffer, Identity))
      + old(SumBy(RunningOutputs(g.runtime.handles), Identity))
    ensures g.runtime.stream.inner.buffer == [] && RunningOutputs(g.runtime.handles) == []
  {
    ghost var goal := SumBy(g.runtime.stream.inner.buffer, Identity)
      + SumBy(RunningOutputs(g.runtime.handles), Identity);
    var cx := new Waker();
    total := 0;
    var done := false;
    while !done
      invariant g.Valid() && !g.runtime.stream.inner.cancelled
      invariant g.runtime.stream.inner.count ==
        |g.runtime.stream.inner.buffer| + |RunningOutputs(g.runtime.handles)|
      invariant total + SumBy(g.runtime.stream.inner.buffer, Identity)
        + SumBy(RunningOutputs(g.runtime.handles), Identity) == goal
      invariant done ==> g.runtime.stream.inner.count == 0
      invariant g.runtime.senders == old(g.runtime.senders)
      decreases g.runtime.stream.inner.count + |RunningOutputs(g.runtime.handles)|, if done then 0 else 1
    {
      ghost var b0, h0 := g.runtime.stream.inner.buffer, g.runtime.handles;
      var t := PollTurn(g.runtime, cx);
      match t
      case Got(v) =>
        total := total + v;
      case Closed =>
        done := true;
      case Ran(j) =>
        FinishOne(h0, j, Completed);
        SumByPermutation(RunningOutputs(h0), RunningOutputs(g.runtime.handles) + [h0[j].output], Identity);
        SumByConcat(RunningOutputs(g.runtime.handles), [h0[j].output], Identity);
        SumByConcat(b0, [h0[j].output], Identity);
      case Stuck =>
        RunningIffOutputs(g.runtime.handles);
        assert false;
    }
  }

  /** The first documented example: tasks returning 0 to 10 in a fresh group, folded by
      addition; the fold yields 55. */
  method FoldExample() returns (total: int)
    ensures total == 55
  {
    var g := WithSpawnGroup<int>();
    SpawnEach(g, Numbers(11));
    assert RunningOutputs(g.runtime.handles) == Numbers(11);
    FoldTotal();
    total := FoldSum(g);
    g.Drop();
  }

  /** The error of the second documented example. */
  datatype DivisibleByError = THREE | FIVE

  /** The task body of the second example. */
  function Classify(i: int): (r: Result<int, DivisibleByError>)
    ensures r == Err(THREE) <==> i % 3 == 0
    ensures r == Err(FIVE) <==> i % 3 != 0 && i % 5 == 0
    ensures r.Ok? ==> r.value == i
  {
    if i % 3 == 0 then Err(THREE)
    else if i % 5 == 0 then Err(FIVE)
    else Ok(i)
  }

  /** The results of the tasks for 1 to n, in spawn order. */
  function Classified(n: nat): (r: seq<Result<int, DivisibleByError>>)
    ensures |r| == n
    ensures forall k :: 0 <= k < n ==> r[k] == Classify(k + 1)
  {
    if n == 0 then [] else Classified(n - 1) + [Classify(n)]
  }

  /** What one result adds to each of the three tallies. */
  function OkPart(r: Result<int, DivisibleByError>): int {
    if r.Ok? then r.value else 0
  }

  function ThreePart(r: Result<int, DivisibleByError>): int {
    if r == Err(THREE) then 1 else 0
  }

  function FivePart(r: Result<int, DivisibleByError>): int {
    if r == Err(FIVE) then 1 else 0
  }

  /** A tally over the results of the tasks for 1 to n. */
  function Tally(n: nat, f: Result<int, DivisibleByError> -> int): int {
    if n == 0 then 0 else Tally(n - 1, f) + f(Classify(n))
  }

  lemma {:induction false} SumOfClassified(n: nat, f: Result<int, DivisibleByError> -> int)
    ensures SumBy(Classified(n), f) == Tally(n, f)
  {
    if n != 0 {
      SumOfClassified(n - 1, f);
      SumByConcat(Classified(n - 1), [Classify(n)], f);
    }
  }

  /** The tallies the second example must reach. */
  lemma ErrTallies()
    ensures SumBy(Classified(10), OkPart) == 22
    ensures SumBy(Classified(10), ThreePart) == 3
    ensures SumBy(Classified(10), FivePart) == 2
  {
    SumOfClassified(10, OkPart);
    assert Tally(10, OkPart) == 22;
    SumOfClassified(10, ThreePart);
    assert Tally(10, ThreePart) == 3;
    SumOfClassified(10, FivePart);
    assert Tally(10, FivePart) == 2;
  }

  /** The `for` loop of `spawn_task` calls on a fallible group. */
  method SpawnEachErr<V, E>(g: ErrSpawnGroup<V, E>, outputs: seq<Result<V, E>>)
    requires g.Valid()
    modifies g, g.runtime, g.runtime.stream.inner
    ensures g.Valid()
    ensures RunningOutputs(g.runtime.handles) == RunningOutputs(old(g.runtime.handles)) + outputs
    ensures g.runtime.stream.inner.buffer == old(g.runtime.stream.inner.buffer)
    ensures g.runtime.stream.inner.count == old(g.runtime.stream.inner.count) + |outputs|
    ensures g.runtime.stream.inner.cancelled == old(g.runtime.stream.inner.cancelled)
    ensures g.waitAtDrop == old(g.waitAtDrop)
    ensures |g.runtime.senders| >= |old(g.runtime.senders)|
    ensures g.runtime.senders[..|old(g.runtime.senders)|] == old(g.runtime.senders)
    ensures forall k :: |old(g.runtime.senders)| <= k < |g.runtime.senders| ==> fresh(g.runtime.senders[k])
  {
    for i := 0 to |outputs|
      invariant g.Valid()
      invariant RunningOutputs(g.runtime.handles) == RunningOutputs(old(g.runtime.handles)) + outputs[..i]
      invariant g.runtime.stream.inner.buffer == old(g.runtime.stream.inner.buffer)
      invariant g.runtime.stream.inner.count == old(g.runtime.stream.inner.count) + i
      invariant g.runtime.stream.inner.cancelled == old(g.runtime.stream.inner.cancelled)
      invariant g.waitAtDrop == old(g.waitAtDrop)
      invariant |g.runtime.senders| >= |old(g.runtime.senders)|
      invariant g.runtime.senders[..|old(g.runtime.senders)|] == old(g.runtime.senders)
      invariant forall k :: |old(g.runtime.senders)| <= k < |g.runtime.senders| ==> fresh(g.runtime.senders[k])
    {
      g.AddTask(Default(), outputs[i]);
      assert outputs[..i + 1] == outputs[..i] + [outputs[i]];
    }
    assert outputs[..|outputs|] == outputs;
  }

  /** `while let Some(r) = group.next().await` after `wait_for_all`: every expected
      result is buffered, so no poll is `Pending`; the three tallies cover every
      buffered result. */
  method DrainTallies(g: ErrSpawnGroup<int, DivisibleByError>) returns (sum: int, three: int, five: int)
    requires g.Valid() && !g.runtime.stream.inner.cancelled
    requires RunningOutputs(g.runtime.handles) == []
    requires g.runtime.stream.inner.count == |g.runtime.stream.inner.buffer|
    modifies g, g.runtime, g.runtime.stream.inner
    ensures g.Valid() && g.runtime.stream.inner.buffer == []
    ensures sum == old(SumBy(g.runtime.stream.inner.buffer, OkPart))
    ensures three == old(SumBy(g.runtime.stream.inner.buffer, ThreePart))
    ensures five == old(SumBy(g.runtime.stream.inner.buffer, FivePart))
  {
    ghost var b := g.runtime.stream.inner.buffer;
    var cx := new Waker();
    sum, three, five := 0, 0, 0;
    var done := false;
    while !done
      invariant g.Valid() && !g.runtime.stream.inner.cancelled
      invariant RunningOutputs(g.runtime.handles) == []
      invariant g.runtime.stream.inner.count == |g.runtime.stream.inner.buffer|
      invariant sum + SumBy(g.runtime.stream.inner.buffer, OkPart) == SumBy(b, OkPart)
      invariant three + SumBy(g.runtime.stream.inner.buffer, ThreePart) == SumBy(b, ThreePart)
      invariant five + SumBy(g.runtime.stream.inner.buffer, FivePart) == SumBy(b, FivePart)
      invariant done ==> g.runtime.stream.inner.buffer == []
      decreases |g.runtime.stream.inner.buffer|, if done then 0 else 1
    {
      var p := g.PollNext(cx);
      match p
      case Ready(Some(r)) =>
        if r.Ok? {
          sum := sum + r.value;
        } else if r.error == THREE {
          three := three + 1;
        } else {
          five := five + 1;
        }
      case Ready(None) =>
        done := true;
      case Pending =>
        assert false;
    }
  }

  /** `wait_for_all` followed by the draining loop, on a group whose expected count is
      exactly its running tasks: the tallies cover every task's result. */
  method WaitThenTally(g: ErrSpawnGroup<int, DivisibleByError>) returns (sum: int, three: int, five: int)
    requires g.Valid() && !g.runtime.stream.inner.cancelled
    requires g.runtime.stream.inner.buffer == []
    requires g.runtime.stream.inner.count == |RunningOutputs(g.runtime.handles)|
    modifies g, g.runtime, g.runtime.stream.inner, g.runtime.senders
    ensures g.Valid()
    ensures sum == old(SumBy(RunningOutputs(g.runtime.handles), OkPart))
    ensures three == old(SumBy(RunningOutputs(g.runtime.handles), ThreePart))
    ensures five == old(SumBy(RunningOutputs(g.runtime.handles), FivePart))
  {
    ghost var r0 := RunningOutputs(g.runtime.handles);
    g.Wait();
    ghost var b := g.runtime.stream.inner.buffer;
    SumByPermutation(b, r0, OkPart);
    SumByPermutation(b, r0, ThreePart);
    SumByPermutation(b, r0, FivePart);
    RunningIffOutputs(g.runtime.handles);
    sum, three, five := DrainTallies(g);
  }

  /** The second documented example: tasks for 1 to 10 that fail on multiples of three
      and of five, waited for, then drained; the tallies are 22, 3 and 2. */
  method ErrExample() returns (sum: int, three: int, five: int)
    ensures sum == 22 && three == 3 && five == 2
  {
    var g := WithErrSpawnGroup<int, DivisibleByError>();
    SpawnEachErr(g, Classified(10));
    assert RunningOutputs(g.runtime.handles) == Classified(10);
    ErrTallies();
    sum, three, five := WaitThenTally(g);
    g.Drop();
  }

  /** The discarding group's `for` loop of `spawn_task` calls: n tasks, MEDIUM priority. */
  method SpawnEachDiscarding(g: DiscardingSpawnGroup, n: nat)
    requires g.Valid()
    modifies g.runtime, g.runtime.stream.inner
    ensures g.Valid()
    ensures |g.runtime.handles| == |old(g.runtime.handles)| + n
    ensures g.runtime.handles[..|old(g.runtime.handles)|] == old(g.runtime.handles)
    ensures forall j :: |old(g.runtime.handles)| <= j < |g.runtime.handles| ==> g.runtime.handles[j].state == Running
  {
    for i := 0 to n
      invariant g.Valid()
      invariant |g.runtime.handles| == |old(g.runtime.handles)| + i
      invariant g.runtime.handles[..|old(g.runtime.handles)|] == old(g.runtime.handles)
      invariant forall j :: |old(g.runtime.handles)| <= j < |g.runtime.handles| ==> g.runtime.handles[j].state == Running
    {
      g.AddTask(Default());
    }
  }

  /** The third documented example: eleven tasks with no result in a discarding group.
      When the scope ends, the dropped group has waited for all of them. */
  method DiscardingExample() returns (g: DiscardingSpawnGroup)
    ensures |g.runtime.handles| == 11
    ensures forall j :: 0 <= j < 11 ==> g.runtime.handles[j].state == Completed
  {
    g := WithDiscardingSpawnGroup();
    SpawnEachDiscarding(g, 11);
    g.Drop();
  }

  /** The same example with the drop as written: the scope ends with all eleven tasks
      still running, none of them waited for. */
  method DiscardingExampleAsWritten() returns (g: DiscardingSpawnGroup)
    ensures |g.runtime.handles| == 11
    ensures forall j :: 0 <= j < 11 ==> g.runtime.handles[j].state == Running
  {
    g := WithDiscardingSpawnGroup();
    SpawnEachDiscarding(g, 11);
    g.DropAsWritten();
  }
}
