/** The task list of `RuntimeEngine` (src/shared/runtime.rs): the handles of spawned
    tasks, the `(Priority, Task)` entries of the list, the stable sort by priority
    that `wait_for_all_tasks` applies and the drain that pops the sorted list from
    the back. */
module RuntimeTasks {
  import opened Common
  import opened Priorities

  /** What a task handle reports: still to run, finished, or cancelled. */
  datatype TaskState = Running | Completed | Cancelled

  /** A spawned task's handle: the value its future produces and its state. */
  datatype Handle<T> = Handle(output: T, state: TaskState)

  /** An entry `(priority, task)` of the task list; the task is named by the index of
      its handle. */
  datatype Entry = Entry(priority: Priority, id: nat)

  // ---------------------------------------------------------------------------
  // The stable sort of `iter.sort_by(|lhs, rhs| lhs.0.cmp(&rhs.0))`

  /** The entries of one priority, in list order. */
  function Bucket(e: seq<Entry>, p: Priority): (r: seq<Entry>)
    ensures |r| <= |e|
    ensures forall k :: 0 <= k < |r| ==> r[k].priority == p
    decreases |e|
  {
    if e == [] then [] else (if e[0].priority == p then [e[0]] else []) + Bucket(e[1..], p)
  }

  /** The buckets of discriminant `d` and above, lowest first. */
  function SortFrom(e: seq<Entry>, d: nat): (r: seq<Entry>)
    requires d <= 6
    ensures forall k :: 0 <= k < |r| ==> Discriminant(r[k].priority) >= d
    decreases 6 - d
  {
    if d == 6 then [] else Bucket(e, FromDiscriminant(d)) + SortFrom(e, d + 1)
  }

  /** The list after `sort_by` on the priorities: a stable sort is determined by its
      input, and is the concatenation of the buckets in ascending priority. */
  function SortByPriority(e: seq<Entry>): seq<Entry> {
    SortFrom(e, 0)
  }

  ghost predicate AscendingPriority(s: seq<Entry>) {
    forall i, j :: 0 <= i < j < |s| ==> Le(s[i].priority, s[j].priority)
  }

  ghost predicate DescendingPriority(s: seq<Entry>) {
    forall i, j :: 0 <= i < j < |s| ==> Le(s[j].priority, s[i].priority)
  }

  lemma {:induction false} SortFromAscending(e: seq<Entry>, d: nat)
    requires d <= 6
    ensures AscendingPriority(SortFrom(e, d))
    decreases 6 - d
  {
    if d < 6 {
      SortFromAscending(e, d + 1);
      var b: seq<Entry> := Bucket(e, FromDiscriminant(d));
      var rest: seq<Entry> := SortFrom(e, d + 1);
      var s: seq<Entry> := b + rest;
      assert SortFrom(e, d) == s;
      forall i, j | 0 <= i < j < |s|
        ensures Le(s[i].priority, s[j].priority)
      {
        var pi, pj := s[i].priority, s[j].priority;
        LeIsDiscriminantOrder(pi, pj);
        if j < |b| {
          assert pi == pj;
        } else if i < |b| {
          assert Discriminant(pi) == d;
        } else {
          assert pi == rest[i - |b|].priority && pj == rest[j - |b|].priority;
        }
      }
    }
  }

  /** The entries of discriminant `d` and above. */
  function AtLeast(e: seq<Entry>, d: nat): seq<Entry>
    decreases |e|
  {
    if e == [] then [] else (if Discriminant(e[0].priority) >= d then [e[0]] else []) + AtLeast(e[1..], d)
  }

  lemma {:induction false} AtLeastSplit(e: seq<Entry>, d: nat)
    requires d < 6
    ensures multiset(AtLeast(e, d)) == multiset(Bucket(e, FromDiscriminant(d))) + multiset(AtLeast(e, d + 1))
    decreases |e|
  {
    if e != [] {
      AtLeastSplit(e[1..], d);
      DiscriminantsAreConsecutive(e[0].priority, FromDiscriminant(d));
    }
  }

  lemma {:induction false} AtLeastBounds(e: seq<Entry>)
    ensures AtLeast(e, 0) == e && AtLeast(e, 6) == []
    decreases |e|
  {
    if e != [] {
      AtLeastBounds(e[1..]);
      assert e == [e[0]] + e[1..];
    }
  }

  lemma {:induction false} SortFromPermutes(e: seq<Entry>, d: nat)
    requires d <= 6
    ensures multiset(SortFrom(e, d)) == multiset(AtLeast(e, d))
    decreases 6 - d
  {
    if d < 6 {
      SortFromPermutes(e, d + 1);
      AtLeastSplit(e, d);
    } else {
      AtLeastBounds(e);
    }
  }

  lemma {:induction false} BucketConcat(a: seq<Entry>, b: seq<Entry>, p: Priority)
    ensures Bucket(a + b, p) == Bucket(a, p) + Bucket(b, p)
    decreases |a|
  {
    if a == [] {
      assert a + b == b;
    } else {
      assert (a + b)[1..] == a[1..] + b;
      BucketConcat(a[1..], b, p);
    }
  }

  lemma {:induction false} BucketOfBucket(e: seq<Entry>, p: Priority, q: Priority)
    ensures Bucket(Bucket(e, q), p) == if p == q then Bucket(e, p) else []
    decreases |e|
  {
    if e != [] {
      BucketOfBucket(e[1..], p, q);
      var head := if e[0].priority == q then [e[0]] else [];
      BucketConcat(head, Bucket(e[1..], q), p);
    }
  }

  lemma {:induction false} BucketOfSortFrom(e: seq<Entry>, d: nat, p: Priority)
    requires d <= 6
    ensures Bucket(SortFrom(e, d), p) == if Discriminant(p) >= d then Bucket(e, p) else []
    decreases 6 - d
  {
    if d < 6 {
      var q := FromDiscriminant(d);
      BucketOfSortFrom(e, d + 1, p);
      assert SortFrom(e, d) == Bucket(e, q) + SortFrom(e, d + 1);
      BucketOfSortFromStep(e, d, p, Bucket(e, q), SortFrom(e, d + 1), SortFrom(e, d));
    }
  }

  /** One bucket in front of the higher ones: the bucket of `p` in the whole is the
      bucket of `p` in whichever part has priority `p`. */
  lemma {:induction false} BucketOfSortFromStep(e: seq<Entry>, d: nat, p: Priority, below: seq<Entry>, above: seq<Entry>, whole: seq<Entry>)
    requires d < 6 && below == Bucket(e, FromDiscriminant(d)) && whole == below + above
    requires Bucket(above, p) == if Discriminant(p) >= d + 1 then Bucket(e, p) else []
    ensures Bucket(whole, p) == if Discriminant(p) >= d then Bucket(e, p) else []
  {
    var q := FromDiscriminant(d);
    BucketConcat(below, above, p);
    BucketOfBucket(e, p, q);
    DiscriminantsAreConsecutive(p, q);
    PickPart(Bucket(below, p), Bucket(above, p), Bucket(e, p), Discriminant(p) == d, Discriminant(p) >= d + 1);
  }

  /** Of two parts at most one of which is `b` and the other empty, the whole is `b` or empty. */
  lemma PickPart<T>(x: seq<T>, y: seq<T>, b: seq<T>, first: bool, second: bool)
    requires !(first && second)
    requires x == (if first then b else []) && y == (if second then b else [])
    ensures x + y == if first || second then b else []
  {
    assert [] + b == b && b + [] == b;
  }

  /** `sort_by` orders the list by ascending priority, keeps every entry, and keeps
      entries of equal priority in insertion order. */
  lemma SortByPriorityIsStableSort(e: seq<Entry>)
    ensures AscendingPriority(SortByPriority(e))
    ensures multiset(SortByPriority(e)) == multiset(e)
    ensures forall p :: Bucket(SortByPriority(e), p) == Bucket(e, p)
  {
    SortFromAscending(e, 0);
    SortFromPermutes(e, 0);
    AtLeastBounds(e);
    forall p
      ensures Bucket(SortByPriority(e), p) == Bucket(e, p)
    {
      BucketOfSortFrom(e, 0, p);
    }
  }

  lemma {:induction false} BucketReversed(e: seq<Entry>, p: Priority)
    ensures Bucket(Reversed(e), p) == Reversed(Bucket(e, p))
    decreases |e|
  {
    if e != [] {
      BucketReversed(e[1..], p);
      BucketConcat(Reversed(e[1..]), [e[0]], p);
      assert Bucket([e[0]], p) == (if e[0].priority == p then [e[0]] else []) + Bucket([], p);
      var b1 := Bucket(e[1..], p);
      var head := if e[0].priority == p then [e[0]] else [];
      assert Reversed(head + b1) == Reversed(b1) + head by {
        assert Bucket(e, p) == head + b1;
        assert |Reversed(head + b1)| == |Reversed(b1) + head|;
      }
    }
  }

  lemma ReversedDescends(s: seq<Entry>)
    requires AscendingPriority(s)
    ensures DescendingPriority(Reversed(s))
  {
    var r := Reversed(s);
    forall i, j | 0 <= i < j < |r|
      ensures Le(r[j].priority, r[i].priority)
    {
      assert r[j] == s[|s| - 1 - j] && r[i] == s[|s| - 1 - i];
    }
  }

  /** Popping the sorted list from the back visits the entries in descending
      priority, and entries of equal priority in reverse insertion order. */
  lemma PopOrder(e: seq<Entry>)
    ensures DescendingPriority(Reversed(SortByPriority(e)))
    ensures forall p :: Bucket(Reversed(SortByPriority(e)), p) == Reversed(Bucket(e, p))
  {
    SortByPriorityIsStableSort(e);
    var s := SortByPriority(e);
    ReversedDescends(s);
    forall p
      ensures Bucket(Reversed(s), p) == Reversed(Bucket(e, p))
    {
      BucketReversed(s, p);
    }
  }

  lemma {:induction false} BucketOfUniform(e: seq<Entry>, p: Priority, q: Priority)
    requires forall k :: 0 <= k < |e| ==> e[k].priority == p
    ensures Bucket(e, q) == if p == q then e else []
    decreases |e|
  {
    if e != [] {
      BucketOfUniform(e[1..], p, q);
      assert e == [e[0]] + e[1..];
    }
  }

  lemma {:induction false} SortFromUniform(e: seq<Entry>, p: Priority, d: nat)
    requires d <= 6
    requires forall k :: 0 <= k < |e| ==> e[k].priority == p
    ensures SortFrom(e, d) == if d <= Discriminant(p) then e else []
    decreases 6 - d
  {
    if d < 6 {
      SortFromUniform(e, p, d + 1);
      BucketOfUniform(e, p, FromDiscriminant(d));
      DiscriminantsAreConsecutive(p, FromDiscriminant(d));
    }
  }

  /** Tasks spawned with one priority keep their spawn order under the sort. */
  lemma SortOfUniformPriority(e: seq<Entry>, p: Priority)
    requires forall k :: 0 <= k < |e| ==> e[k].priority == p
    ensures SortByPriority(e) == e
  {
    SortFromUniform(e, p, 0);
  }

  // ---------------------------------------------------------------------------
  // Handles

  predicate IdsBelow(e: seq<Entry>, n: nat) {
    forall k :: 0 <= k < |e| ==> e[k].id < n
  }

  function IdSet(e: seq<Entry>): set<nat> {
    set k | 0 <= k < |e| :: e[k].id
  }

  function AllIds(n: nat): (r: set<nat>)
    ensures forall j :: j in r <==> 0 <= j < n
  {
    if n == 0 then {} else AllIds(n - 1) + {n - 1}
  }

  /** The outputs of the still-running handles among the first `n` whose index is in
      `ids`, in index order: the results those tasks will deliver. */
  function Pending<T>(h: seq<Handle<T>>, ids: set<nat>, n: nat): (r: seq<T>)
    requires n <= |h|
    decreases n
  {
    if n == 0 then []
    else Pending(h, ids, n - 1) + (if n - 1 in ids && h[n - 1].state == Running then [h[n - 1].output] else [])
  }

  /** `h` is `h0` with exactly the tasks `ran` completed, each of which was running. */
  ghost predicate CompletedAt<T>(h0: seq<Handle<T>>, h: seq<Handle<T>>, ran: seq<nat>) {
    && |h| == |h0|
    && (forall k :: 0 <= k < |ran| ==> ran[k] < |h0| && h0[ran[k]].state == Running)
    && forall j :: 0 <= j < |h| ==> h[j] == if j in ran then Handle(h0[j].output, Completed) else h0[j]
  }

  /** Completing one more running task extends `ran` by its id. */
  lemma CompletedAtStep<T>(h0: seq<Handle<T>>, h1: seq<Handle<T>>, ran: seq<nat>, x: nat, h2: seq<Handle<T>>)
    requires CompletedAt(h0, h1, ran) && x < |h1| && h1[x].state == Running
    requires h2 == h1[x := Handle(h1[x].output, Completed)]
    ensures CompletedAt(h0, h2, ran + [x])
  {
    forall j | 0 <= j < |h2|
      ensures h2[j] == if j in ran + [x] then Handle(h0[j].output, Completed) else h0[j]
    {
      assert j in ran + [x] <==> j in ran || j == x;
    }
    forall k | 0 <= k < |ran + [x]|
      ensures (ran + [x])[k] < |h0| && h0[(ran + [x])[k]].state == Running
    {
      if k == |ran| {
        assert x !in ran;
      }
    }
  }

  /** `h1` is `h0` with every running task completed and nothing else changed. */
  ghost predicate AllCompleted<T>(h0: seq<Handle<T>>, h1: seq<Handle<T>>) {
    && |h1| == |h0|
    && forall j :: 0 <= j < |h0| ==>
      h1[j] == if h0[j].state == Running then Handle(h0[j].output, Completed) else h0[j]
  }

  /** The results every running task will deliver. */
  function RunningOutputs<T>(h: seq<Handle<T>>): seq<T> {
    Pending(h, AllIds(|h|), |h|)
  }

  /** The outputs of the handles named by `ids`, in that order. */
  function Outputs<T>(h: seq<Handle<T>>, ids: seq<nat>): (r: seq<T>)
    requires forall k :: 0 <= k < |ids| ==> ids[k] < |h|
    ensures |r| == |ids|
    ensures forall k :: 0 <= k < |ids| ==> r[k] == h[ids[k]].output
  {
    seq(|ids|, k requires 0 <= k < |ids| => h[ids[k]].output)
  }

  lemma {:induction false} PendingFrame<T>(h: seq<Handle<T>>, ids: set<nat>, h': seq<Handle<T>>, ids': set<nat>, n: nat)
    requires n <= |h| && n <= |h'|
    requires forall j :: 0 <= j < n ==>
      ((j in ids && h[j].state == Running) <==> (j in ids' && h'[j].state == Running))
    requires forall j :: 0 <= j < n && j in ids && h[j].state == Running ==> h[j].output == h'[j].output
    ensures Pending(h, ids, n) == Pending(h', ids', n)
    decreases n
  {
    if n > 0 {
      PendingFrame(h, ids, h', ids', n - 1);
    }
  }

  /** `h'` is `h` with the running handle `x` ended, its output kept. */
  ghost predicate EndsOne<T>(h: seq<Handle<T>>, h': seq<Handle<T>>, x: nat) {
    && |h'| == |h| && x < |h|
    && h[x].state == Running && h'[x].state != Running && h'[x].output == h[x].output
    && forall j :: 0 <= j < |h| && j != x ==> h'[j] == h[j]
  }

  lemma EndsOneByUpdate<T>(h: seq<Handle<T>>, x: nat, s: TaskState)
    requires x < |h| && h[x].state == Running && s != Running
    ensures EndsOne(h, h[x := Handle(h[x].output, s)], x)
  {
  }

  /** The output of handle `x` if it is among the first `n` and named by `ids`. */
  function Among<T>(h: seq<Handle<T>>, ids: set<nat>, n: nat, x: nat): multiset<T>
    requires x < |h|
  {
    if x < n && x in ids then multiset{h[x].output} else multiset{}
  }

  /** Ending one running handle takes exactly its output out of what is pending. */
  lemma {:induction false} PendingFinish<T>(h: seq<Handle<T>>, h': seq<Handle<T>>, ids: set<nat>, n: nat, x: nat)
    requires EndsOne(h, h', x) && n <= |h|
    ensures multiset(Pending(h, ids, n)) == multiset(Pending(h', ids, n)) + Among(h, ids, n, x)
    decreases n
  {
    if n == 0 {
      assert Pending(h, ids, n) == [];
      assert Pending(h', ids, n) == [];
    } else {
      var m: nat := n - 1;
      PendingFinish(h, h', ids, m, x);
      PendingFinishStep(h, h', ids, m + 1, x);
    }
  }

  /** Extending `PendingFinish` from the first `n - 1` handles to the first `n`. */
  lemma {:induction false} PendingFinishStep<T>(h: seq<Handle<T>>, h': seq<Handle<T>>, ids: set<nat>, n: nat, x: nat)
    requires 0 < n <= |h| && EndsOne(h, h', x)
    requires multiset(Pending(h, ids, n - 1)) == multiset(Pending(h', ids, n - 1)) + Among(h, ids, n - 1, x)
    ensures multiset(Pending(h, ids, n)) == multiset(Pending(h', ids, n)) + Among(h, ids, n, x)
  {
    var t := if n - 1 in ids && h[n - 1].state == Running then [h[n - 1].output] else [];
    var t' := if n - 1 in ids && h'[n - 1].state == Running then [h'[n - 1].output] else [];
    assert Pending(h, ids, n) == Pending(h, ids, n - 1) + t;
    assert Pending(h', ids, n) == Pending(h', ids, n - 1) + t';
    if n - 1 == x {
      assert t' == [] && Among(h, ids, n - 1, x) == multiset{};
      assert Among(h, ids, n, x) == multiset(t);
    } else {
      assert h'[n - 1] == h[n - 1];
      assert t' == t;
      assert Among(h, ids, n, x) == Among(h, ids, n - 1, x);
    }
    MultisetAppend(Pending(h, ids, n - 1), Pending(h', ids, n - 1), t, t', Among(h, ids, n - 1, x), Among(h, ids, n, x));
  }

  /** A new running handle adds its output last. */
  lemma PendingAppend<T>(h: seq<Handle<T>>, output: T)
    ensures RunningOutputs(h + [Handle(output, Running)]) == RunningOutputs(h) + [output]
  {
    var h' := h + [Handle(output, Running)];
    PendingFrame(h', AllIds(|h'|), h, AllIds(|h|), |h|);
  }

  /** With no running handle left, nothing is pending. */
  lemma {:induction false} NothingPending<T>(h: seq<Handle<T>>, ids: set<nat>, n: nat)
    requires n <= |h|
    requires forall j :: 0 <= j < n ==> h[j].state != Running
    ensures Pending(h, ids, n) == []
    decreases n
  {
    if n > 0 {
      NothingPending(h, ids, n - 1);
    }
  }

  /** Ending one running handle lowers the number of results to come by one. */
  lemma FinishOne<T>(h: seq<Handle<T>>, x: nat, s: TaskState)
    requires x < |h| && h[x].state == Running && s != Running
    ensures |RunningOutputs(h)| >= 1
    ensures |RunningOutputs(h[x := Handle(h[x].output, s)])| == |RunningOutputs(h)| - 1
    ensures multiset(RunningOutputs(h)) == multiset(RunningOutputs(h[x := Handle(h[x].output, s)])) + multiset{h[x].output}
  {
    var h' := h[x := Handle(h[x].output, s)];
    EndsOneByUpdate(h, x, s);
    PendingFinish(h, h', AllIds(|h|), |h|, x);
    assert |multiset(RunningOutputs(h))| == |multiset(RunningOutputs(h'))| + 1;
  }

  // ---------------------------------------------------------------------------
  // Draining the sorted list: `while let Some((_, handle)) = iter.pop()`

  /** The handles after the drain and the tasks it ran, in order: each popped entry
      whose handle is neither completed nor cancelled is run to completion. */
  function DrainFromBack<T>(h: seq<Handle<T>>, e: seq<Entry>): (r: (seq<Handle<T>>, seq<nat>))
    requires IdsBelow(e, |h|)
    ensures |r.0| == |h|
    ensures forall k :: 0 <= k < |r.1| ==> r.1[k] < |h|
    decreases |e|
  {
    if e == [] then (h, [])
    else
      var x := e[|e| - 1].id;
      if h[x].state == Running then
        var r := DrainFromBack(h[x := Handle(h[x].output, Completed)], e[..|e| - 1]);
        (r.0, [x] + r.1)
      else DrainFromBack(h, e[..|e| - 1])
  }

  /** One pop of the drain. */
  lemma DrainFromBackPop<T>(h: seq<Handle<T>>, e: seq<Entry>)
    requires IdsBelow(e, |h|) && e != []
    ensures var x := e[|e| - 1].id;
      DrainFromBack(h, e) ==
        if h[x].state == Running then
          var r := DrainFromBack(h[x := Handle(h[x].output, Completed)], e[..|e| - 1]);
          (r.0, [x] + r.1)
        else DrainFromBack(h, e[..|e| - 1])
  {
  }

  /** What a drain over a list naming `ids` leaves behind: every output kept, exactly
      the running tasks named completed, and each pending result delivered once. */
  ghost predicate Drained<T>(h: seq<Handle<T>>, ids: set<nat>, h2: seq<Handle<T>>, ran: seq<nat>) {
    && |h2| == |h|
    && (forall k :: 0 <= k < |ran| ==> ran[k] < |h|)
    && (forall j :: 0 <= j < |h| ==> h2[j].output == h[j].output)
    && (forall j :: 0 <= j < |h| ==>
          h2[j].state == if j in ids && h[j].state == Running then Completed else h[j].state)
    && multiset(Outputs(h, ran)) == multiset(Pending(h, ids, |h|))
  }

  /** The drain completes every running task the list names, leaves every other
      handle alone, and delivers each pending result exactly once. */
  lemma {:induction false} DrainRunsPending<T>(h: seq<Handle<T>>, e: seq<Entry>)
    requires IdsBelow(e, |h|)
    ensures Drained(h, IdSet(e), DrainFromBack(h, e).0, DrainFromBack(h, e).1)
    decreases |e|
  {
    if e == [] {
      assert IdSet(e) == {};
      NothingPendingIn(h, |h|);
    } else {
      var x := e[|e| - 1].id;
      var e' := e[..|e| - 1];
      IdSetPop(e);
      if h[x].state == Running {
        var h1 := h[x := Handle(h[x].output, Completed)];
        DrainRunsPending(h1, e');
        var r := DrainFromBack(h1, e');
        assert DrainFromBack(h, e) == (r.0, [x] + r.1);
        DrainRunsPendingStep(h, IdSet(e'), x, r.0, r.1);
      } else {
        DrainRunsPending(h, e');
        PendingFrame(h, IdSet(e), h, IdSet(e'), |h|);
      }
    }
  }

  /** The step of `DrainRunsPending` where the last entry's task `x` is still running. */
  lemma DrainRunsPendingStep<T>(h: seq<Handle<T>>, ids: set<nat>, x: nat, h2: seq<Handle<T>>, ran: seq<nat>)
    requires x < |h| && h[x].state == Running
    requires Drained(h[x := Handle(h[x].output, Completed)], ids, h2, ran)
    ensures Drained(h, ids + {x}, h2, [x] + ran)
  {
    var h1 := h[x := Handle(h[x].output, Completed)];
    var ids' := ids + {x};
    var ran' := [x] + ran;
    assert forall k :: 0 <= k < |ran'| ==> ran'[k] < |h| by {
      forall k | 0 <= k < |ran'| ensures ran'[k] < |h| {
        if k > 0 { assert ran'[k] == ran[k - 1]; }
      }
    }
    forall j | 0 <= j < |h|
      ensures h2[j].output == h[j].output
      ensures h2[j].state == if j in ids' && h[j].state == Running then Completed else h[j].state
    {
      if j == x {
        assert h1[j].state == Completed;
      } else {
        assert h1[j] == h[j];
      }
    }
    assert Outputs(h, ran) == Outputs(h1, ran);
    assert Outputs(h, ran') == [h[x].output] + Outputs(h, ran);
    EndsOneByUpdate(h, x, Completed);
    PendingFinish(h, h1, ids', |h|, x);
    PendingFrame(h1, ids', h1, ids, |h|);
  }

  lemma NothingPendingIn<T>(h: seq<Handle<T>>, n: nat)
    requires n <= |h|
    ensures Pending(h, {}, n) == []
  {
    PendingFrame(h, {}, h, {}, n);
    NothingPendingEmpty(h, n);
  }

  lemma {:induction false} NothingPendingEmpty<T>(h: seq<Handle<T>>, n: nat)
    requires n <= |h|
    ensures Pending(h, {}, n) == []
    decreases n
  {
    if n > 0 {
      NothingPendingEmpty(h, n - 1);
    }
  }

  predicate DistinctRunning<T>(h: seq<Handle<T>>, e: seq<Entry>) {
    && IdsBelow(e, |h|)
    && (forall i, j :: 0 <= i < j < |e| ==> e[i].id != e[j].id)
    && (forall k :: 0 <= k < |e| ==> h[e[k].id].state == Running)
  }

  function IdsOf(e: seq<Entry>): (r: seq<nat>)
    ensures |r| == |e| && forall k :: 0 <= k < |e| ==> r[k] == e[k].id
  {
    seq(|e|, k requires 0 <= k < |e| => e[k].id)
  }

  /** When the list names distinct running tasks, the drain runs all of them, from the
      back of the list to the front. */
  lemma {:induction false} DrainRunsBackToFront<T>(h: seq<Handle<T>>, e: seq<Entry>)
    requires DistinctRunning(h, e)
    ensures DrainFromBack(h, e).1 == IdsOf(Reversed(e))
    decreases |e|
  {
    if e != [] {
      var x := e[|e| - 1].id;
      var h1 := h[x := Handle(h[x].output, Completed)];
      DistinctRunningPop(h, e);
      DrainRunsBackToFront(h1, e[..|e| - 1]);
      DrainFromBackPop(h, e);
      assert Reversed(e) == [e[|e| - 1]] + Reversed(e[..|e| - 1]);
      assert IdsOf(Reversed(e)) == [x] + IdsOf(Reversed(e[..|e| - 1]));
    } else {
      assert Reversed(e) == [];
    }
  }

  /** Popping the last entry and running its task keeps the rest distinct and running. */
  lemma DistinctRunningPop<T>(h: seq<Handle<T>>, e: seq<Entry>)
    requires DistinctRunning(h, e) && e != []
    ensures var x := e[|e| - 1].id;
      h[x].state == Running && DistinctRunning(h[x := Handle(h[x].output, Completed)], e[..|e| - 1])
  {
    var x := e[|e| - 1].id;
    var e' := e[..|e| - 1];
    var h1 := h[x := Handle(h[x].output, Completed)];
    forall k | 0 <= k < |e'|
      ensures h1[e'[k].id].state == Running
    {
      assert e'[k] == e[k] && e[k].id != x;
    }
  }

  // ---------------------------------------------------------------------------
  // Cancelling: `if !handle.completed() { handle.cancel().await; }`

  /** The handles after `cancel` drained a list naming `ids`. */
  function CancelIn<T>(h: seq<Handle<T>>, ids: set<nat>): (r: seq<Handle<T>>)
    ensures |r| == |h|
    ensures forall j :: 0 <= j < |h| ==> r[j].output == h[j].output
    ensures forall j :: 0 <= j < |h| ==>
      r[j].state == if j in ids && h[j].state != Completed then Cancelled else h[j].state
  {
    seq(|h|, j requires 0 <= j < |h| =>
      if j in ids && h[j].state != Completed then Handle(h[j].output, Cancelled) else h[j])
  }

  /** Popping the last entry takes its id out of the list's ids (unless named twice). */
  lemma IdSetPop(e: seq<Entry>)
    requires e != []
    ensures IdSet(e) == IdSet(e[..|e| - 1]) + {e[|e| - 1].id}
  {
    var e' := e[..|e| - 1];
    assert forall k :: 0 <= k < |e'| ==> e'[k] == e[k];
    assert e[|e| - 1].id in IdSet(e);
  }

  /** Every running handle is named by the list. */
  ghost predicate RunningListed<T>(h: seq<Handle<T>>, e: seq<Entry>) {
    forall j :: 0 <= j < |h| && h[j].state == Running ==> j in IdSet(e)
  }

  /** Spawning a task appends a running handle and lists it: the list still names only
      spawned tasks and every running one, and the new output is the last to come. */
  lemma SpawnKeepsListed<T>(h: seq<Handle<T>>, e: seq<Entry>, p: Priority, output: T)
    requires IdsBelow(e, |h|) && RunningListed(h, e)
    ensures IdsBelow(e + [Entry(p, |h|)], |h| + 1)
    ensures RunningListed(h + [Handle(output, Running)], e + [Entry(p, |h|)])
    ensures RunningOutputs(h + [Handle(output, Running)]) == RunningOutputs(h) + [output]
  {
    var e' := e + [Entry(p, |h|)];
    IdSetPop(e');
    assert e'[..|e'| - 1] == e;
    PendingAppend(h, output);
  }

  /** When the list names every running handle, what it has pending is everything. */
  lemma PendingOfListed<T>(h: seq<Handle<T>>, e: seq<Entry>)
    requires RunningListed(h, e)
    ensures Pending(h, IdSet(e), |h|) == RunningOutputs(h)
  {
    PendingFrame(h, IdSet(e), h, AllIds(|h|), |h|);
  }

  /** No running handle, no result to come. */
  lemma NoneRunning<T>(h: seq<Handle<T>>)
    requires forall j :: 0 <= j < |h| ==> h[j].state != Running
    ensures RunningOutputs(h) == []
  {
    NothingPending(h, AllIds(|h|), |h|);
  }

  /** Results are still to come exactly when some handle is running. */
  lemma RunningIffOutputs<T>(h: seq<Handle<T>>)
    ensures RunningOutputs(h) != [] <==> exists j :: 0 <= j < |h| && h[j].state == Running
  {
    if j :| 0 <= j < |h| && h[j].state == Running {
      FinishOne(h, j, Completed);
    } else {
      NoneRunning(h);
    }
  }

  /** The sort keeps the set of ids the list names. */
  lemma SortKeepsIds(e: seq<Entry>, n: nat)
    ensures IdSet(SortByPriority(e)) == IdSet(e)
    ensures IdsBelow(e, n) ==> IdsBelow(SortByPriority(e), n)
  {
    SortByPriorityIsStableSort(e);
    PermutationKeepsIds(e, SortByPriority(e), n);
  }

  lemma PermutationKeepsIds(a: seq<Entry>, b: seq<Entry>, n: nat)
    requires multiset(a) == multiset(b)
    ensures IdSet(a) == IdSet(b)
    ensures IdsBelow(a, n) ==> IdsBelow(b, n)
  {
    forall k | 0 <= k < |b|
      ensures exists i :: 0 <= i < |a| && a[i] == b[k]
    {
      assert b[k] in multiset(a);
    }
    forall k | 0 <= k < |a|
      ensures exists i :: 0 <= i < |b| && b[i] == a[k]
    {
      assert a[k] in multiset(b);
    }
  }

  /** Cancelling one more id: the handle is cancelled unless it already completed. */
  lemma CancelStep<T>(h: seq<Handle<T>>, ids: set<nat>, x: nat)
    requires x < |h|
    ensures var c := CancelIn(h, ids);
      CancelIn(h, ids + {x}) == if c[x].state != Completed then c[x := Handle(c[x].output, Cancelled)] else c
  {
  }
}
