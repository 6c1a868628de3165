/** `PriorityQueue` (src/threadpool_impl/queue.rs): a binary-heap-style queue stored
    in a `VecDeque`, ordered by a comparison function given at construction. The
    parent of index i is i / 2, and the children of i are 2i and 2i + 1. `push`
    appends and sifts up; `pop` removes index 0 with `pop_front` (which shifts every
    other index down by one) and then sifts down from 0. */
module PriorityQueues {
  import opened Common

  /** `VecDeque::swap`. */
  function Swap<T>(s: seq<T>, i: nat, j: nat): (r: seq<T>)
    requires i < |s| && j < |s|
    ensures |r| == |s| && r[i] == s[j] && r[j] == s[i]
    ensures forall k :: 0 <= k < |s| && k != i && k != j ==> r[k] == s[k]
  {
    s[i := s[j]][j := s[i]]
  }

  lemma SwapPermutes<T>(s: seq<T>, i: nat, j: nat)
    requires i < |s| && j < |s|
    ensures multiset(Swap(s, i, j)) == multiset(s)
  {
    assert i != j ==> multiset(s[i := s[j]]) == multiset(s) - multiset{s[i]} + multiset{s[j]};
  }

  /** The loop of `up_heap`, from index `idx`. */
  function SiftUp<T>(compare: (T, T) -> bool, s: seq<T>, idx: nat): (r: seq<T>)
    requires idx < |s|
    ensures |r| == |s|
    decreases idx
  {
    if idx == 0 then s
    else if !compare(s[idx], s[idx / 2]) then s
    else SiftUp(compare, Swap(s, idx, idx / 2), idx / 2)
  }

  /** The index `down_heap` moves the element at `idx` to, or `idx` itself when it stops. */
  function Largest<T>(compare: (T, T) -> bool, s: seq<T>, idx: nat): (k: nat)
    requires 2 * idx < |s|
    ensures k == idx || (idx < k < |s| && (k == 2 * idx || k == 2 * idx + 1))
  {
    var left, right := 2 * idx, 2 * idx + 1;
    var afterLeft := if compare(s[left], s[idx]) then left else idx;
    if right < |s| && compare(s[right], s[afterLeft]) then right else afterLeft
  }

  /** The loop of `down_heap`, from index `idx`. */
  function SiftDown<T>(compare: (T, T) -> bool, s: seq<T>, idx: nat): (r: seq<T>)
    requires idx < |s|
    ensures |r| == |s|
    decreases |s| - idx
  {
    if 2 * idx >= |s| then s
    else
      var largest := Largest(compare, s, idx);
      if largest == idx then s
      else SiftDown(compare, Swap(s, idx, largest), largest)
  }

  /** The storage after `push(val)`. */
  function Pushed<T>(compare: (T, T) -> bool, s: seq<T>, val: T): (r: seq<T>)
    ensures |r| == |s| + 1
  {
    SiftUp(compare, s + [val], |s|)
  }

  /** The result and the storage after `pop()`. */
  function Popped<T>(compare: (T, T) -> bool, s: seq<T>): (r: (Option<T>, seq<T>))
    ensures s == [] ==> r == (None, [])
    ensures s != [] ==> r.0 == Some(s[0]) && |r.1| == |s| - 1
  {
    if s == [] then (None, [])
    else
      var rest := s[1..];
      (Some(s[0]), if rest == [] then rest else SiftDown(compare, rest, 0))
  }

  lemma {:induction false} SiftUpPermutes<T>(compare: (T, T) -> bool, s: seq<T>, idx: nat)
    requires idx < |s|
    ensures multiset(SiftUp(compare, s, idx)) == multiset(s)
    decreases idx
  {
    if idx != 0 && compare(s[idx], s[idx / 2]) {
      SwapPermutes(s, idx, idx / 2);
      SiftUpPermutes(compare, Swap(s, idx, idx / 2), idx / 2);
    }
  }

  lemma {:induction false} SiftDownPermutes<T>(compare: (T, T) -> bool, s: seq<T>, idx: nat)
    requires idx < |s|
    ensures multiset(SiftDown(compare, s, idx)) == multiset(s)
    decreases |s| - idx
  {
    if 2 * idx < |s| {
      var largest := Largest(compare, s, idx);
      if largest != idx {
        SwapPermutes(s, idx, largest);
        SiftDownPermutes(compare, Swap(s, idx, largest), largest);
      }
    }
  }

  /** `push` adds its value and loses nothing; `pop` removes exactly what it returns. */
  lemma QueueKeepsElements<T>(compare: (T, T) -> bool, s: seq<T>, val: T)
    ensures multiset(Pushed(compare, s, val)) == multiset(s) + multiset{val}
    ensures s != [] ==> multiset(Popped(compare, s).1) + multiset{s[0]} == multiset(s)
  {
    SiftUpPermutes(compare, s + [val], |s|);
    if s != [] {
      assert s == [s[0]] + s[1..];
      if s[1..] != [] {
        SiftDownPermutes(compare, s[1..], 0);
      }
    }
  }

  /** Every element is no greater than its parent. */
  ghost predicate HeapOrdered<T>(compare: (T, T) -> bool, s: seq<T>) {
    forall i :: 0 < i < |s| ==> !compare(s[i], s[i / 2])
  }

  /** A strict weak order, such as `lhs.priority() > rhs.priority()`
      (src/threadpool_impl/eventloop.rs:58-60). */
  ghost predicate StrictWeakOrder<T(!new)>(compare: (T, T) -> bool) {
    && (forall a, b :: compare(a, b) ==> !compare(b, a))
    && (forall a, b, c :: compare(a, b) && compare(b, c) ==> compare(a, c))
    && (forall a, b, c :: !compare(a, b) && !compare(b, c) ==> !compare(a, c))
  }

  /** Heap order everywhere except between `idx` and its parent, while the parent of
      `idx` already dominates the children of `idx`: the invariant of `up_heap`. */
  ghost predicate HeapExcept<T>(compare: (T, T) -> bool, s: seq<T>, idx: nat) {
    && (forall i :: 0 < i < |s| && i != idx ==> !compare(s[i], s[i / 2]))
    && (0 < idx < |s| ==> forall c :: 0 < c < |s| && c / 2 == idx ==> !compare(s[c], s[idx / 2]))
  }

  /** One swap of `up_heap` moves the gap in the heap order up to the parent. */
  lemma SiftUpStep<T(!new)>(compare: (T, T) -> bool, s: seq<T>, idx: nat)
    requires StrictWeakOrder(compare)
    requires 0 < idx < |s| && HeapExcept(compare, s, idx)
    requires compare(s[idx], s[idx / 2])
    ensures HeapExcept(compare, Swap(s, idx, idx / 2), idx / 2)
  {
    var p := idx / 2;
    var t := Swap(s, idx, p);
    forall i | 0 < i < |t| && i != p
      ensures !compare(t[i], t[i / 2])
    {
      if i == idx {
        assert t[i] == s[p] && t[i / 2] == s[idx];
      } else if i / 2 == idx {
        assert t[i] == s[i] && t[i / 2] == s[p];
      } else if i / 2 == p {
        assert t[i] == s[i] && t[i / 2] == s[idx];
        assert !compare(s[i], s[p]);
      } else {
        assert t[i] == s[i] && t[i / 2] == s[i / 2];
      }
    }
    if 0 < p {
      forall c | 0 < c < |t| && c / 2 == p
        ensures !compare(t[c], t[p / 2])
      {
        assert t[p / 2] == s[p / 2];
        assert !compare(s[p], s[p / 2]);
        if c != idx {
          assert t[c] == s[c] && !compare(s[c], s[p]);
        }
      }
    }
  }

  /** `up_heap` turns the invariant into full heap order. */
  lemma {:induction false} SiftUpRestoresHeap<T(!new)>(compare: (T, T) -> bool, s: seq<T>, idx: nat)
    requires StrictWeakOrder(compare)
    requires idx < |s| && HeapExcept(compare, s, idx)
    ensures HeapOrdered(compare, SiftUp(compare, s, idx))
    decreases idx
  {
    if idx != 0 && compare(s[idx], s[idx / 2]) {
      SiftUpStep(compare, s, idx);
      SiftUpRestoresHeap(compare, Swap(s, idx, idx / 2), idx / 2);
    }
  }

  /** `push` on heap-ordered storage keeps it heap-ordered. */
  lemma PushKeepsHeap<T(!new)>(compare: (T, T) -> bool, s: seq<T>, val: T)
    requires StrictWeakOrder(compare) && HeapOrdered(compare, s)
    ensures HeapOrdered(compare, Pushed(compare, s, val))
  {
    var t := s + [val];
    assert HeapExcept(compare, t, |s|) by {
      forall i | 0 < i < |t| && i != |s|
        ensures !compare(t[i], t[i / 2])
      {
        assert t[i] == s[i] && t[i / 2] == s[i / 2];
      }
    }
    SiftUpRestoresHeap(compare, t, |s|);
  }

  /** No element of heap-ordered storage is greater than its parent's ancestors. */
  lemma {:induction false} AncestorDominates<T(!new)>(compare: (T, T) -> bool, s: seq<T>, i: nat)
    requires StrictWeakOrder(compare) && HeapOrdered(compare, s)
    requires i < |s|
    ensures !compare(s[i], s[0])
    decreases i
  {
    if i > 0 {
      AncestorDominates(compare, s, i / 2);
      assert !compare(s[i], s[i / 2]);
    } else {
      assert !compare(s[0], s[0]);
    }
  }

  /** In heap-ordered storage, index 0 (what `pop` returns) holds a maximal element. */
  lemma FrontIsMaximal<T(!new)>(compare: (T, T) -> bool, s: seq<T>)
    requires StrictWeakOrder(compare) && HeapOrdered(compare, s)
    ensures forall i :: 0 <= i < |s| ==> !compare(s[i], s[0])
  {
    forall i | 0 <= i < |s|
      ensures !compare(s[i], s[0])
    {
      AncestorDominates(compare, s, i);
    }
  }

  /** The comparison the event loop uses, on bare priorities. */
  function GreaterPriority(lhs: int, rhs: int): bool {
    lhs > rhs
  }

  /** Pushing 1 to 6 into an empty queue ordered by `GreaterPriority` gives
      heap-ordered storage. */
  lemma PushOneToSix()
    ensures Pushed(GreaterPriority, Pushed(GreaterPriority, Pushed(GreaterPriority,
              Pushed(GreaterPriority, Pushed(GreaterPriority, Pushed(GreaterPriority,
              [], 1), 2), 3), 4), 5), 6) == [6, 5, 4, 2, 1, 3]
    ensures HeapOrdered(GreaterPriority, [6, 5, 4, 2, 1, 3])
  {
    PushThree();
    PushFour();
    PushFive();
    PushSix();
    var s := [6, 5, 4, 2, 1, 3];
    assert HeapOrdered(GreaterPriority, s) by {
      forall i | 0 < i < |s|
        ensures !GreaterPriority(s[i], s[i / 2])
      {
        assert i == 1 || i == 2 || i == 3 || i == 4 || i == 5;
      }
    }
  }

  lemma PushThree()
    ensures Pushed(GreaterPriority, Pushed(GreaterPriority, Pushed(GreaterPriority, [], 1), 2), 3) == [3, 2, 1]
  {
    assert Pushed(GreaterPriority, [], 1) == [1];
    assert Pushed(GreaterPriority, [1], 2) == [2, 1] by {
      assert Swap([1, 2], 1, 0) == [2, 1];
    }
    assert Swap([2, 1, 3], 2, 1) == [2, 3, 1];
    assert Swap([2, 3, 1], 1, 0) == [3, 2, 1];
  }

  lemma PushFour()
    ensures Pushed(GreaterPriority, [3, 2, 1], 4) == [4, 3, 1, 2]
  {
    assert Swap([3, 2, 1, 4], 3, 1) == [3, 4, 1, 2];
    assert Swap([3, 4, 1, 2], 1, 0) == [4, 3, 1, 2];
  }

  lemma PushFive()
    ensures Pushed(GreaterPriority, [4, 3, 1, 2], 5) == [5, 4, 3, 2, 1]
  {
    assert Swap([4, 3, 1, 2, 5], 4, 2) == [4, 3, 5, 2, 1];
    assert Swap([4, 3, 5, 2, 1], 2, 1) == [4, 5, 3, 2, 1];
    assert Swap([4, 5, 3, 2, 1], 1, 0) == [5, 4, 3, 2, 1];
  }

  lemma PushSix()
    ensures Pushed(GreaterPriority, [5, 4, 3, 2, 1], 6) == [6, 5, 4, 2, 1, 3]
  {
    assert Swap([5, 4, 3, 2, 1, 6], 5, 2) == [5, 4, 6, 2, 1, 3];
    assert Swap([5, 4, 6, 2, 1, 3], 2, 1) == [5, 6, 4, 2, 1, 3];
    assert Swap([5, 6, 4, 2, 1, 3], 1, 0) == [6, 5, 4, 2, 1, 3];
  }

  /** Because `pop` removes the front with `pop_front`, every remaining element moves
      to the index before it and the heap order is lost: after three pops, 2 is
      returned while 3 is still queued. */
  lemma PopLosesPriorityOrder()
    ensures Popped(GreaterPriority, [6, 5, 4, 2, 1, 3]) == (Some(6), [5, 4, 2, 1, 3])
    ensures Popped(GreaterPriority, [5, 4, 2, 1, 3]) == (Some(5), [4, 2, 1, 3])
    ensures Popped(GreaterPriority, [4, 2, 1, 3]) == (Some(4), [2, 1, 3])
    ensures !HeapOrdered(GreaterPriority, [2, 1, 3])
    ensures Popped(GreaterPriority, [2, 1, 3]) == (Some(2), [3, 1])
  {
    assert GreaterPriority([2, 1, 3][2], [2, 1, 3][2 / 2]);
    assert [2, 1, 3][1..] == [1, 3];
    assert Largest(GreaterPriority, [1, 3], 0) == 1;
    assert Swap([1, 3], 0, 1) == [3, 1];
  }

  /** The `pop` a heap needs: the front is returned, the last element takes its place,
      and `down_heap` runs from index 0. */
  function IntendedPopped<T>(compare: (T, T) -> bool, s: seq<T>): (r: (Option<T>, seq<T>))
    ensures s == [] ==> r == (None, [])
    ensures s != [] ==> r.0 == Some(s[0]) && |r.1| == |s| - 1
  {
    if s == [] then (None, [])
    else if |s| == 1 then (Some(s[0]), [])
    else (Some(s[0]), SiftDown(compare, [s[|s| - 1]] + s[1..|s| - 1], 0))
  }

  /** Heap order everywhere except between `idx` and its children, while the parent of
      `idx` already dominates those children: the invariant of `down_heap`. */
  ghost predicate HeapBelowExcept<T>(compare: (T, T) -> bool, s: seq<T>, idx: nat) {
    && (forall i :: 0 < i < |s| && i / 2 != idx ==> !compare(s[i], s[i / 2]))
    && (0 < idx < |s| ==> forall c :: 0 < c < |s| && c / 2 == idx ==> !compare(s[c], s[idx / 2]))
  }

  /** The child `down_heap` picks dominates `idx` and the other child. */
  lemma LargestDominates<T(!new)>(compare: (T, T) -> bool, s: seq<T>, idx: nat)
    requires StrictWeakOrder(compare) && 2 * idx < |s|
    ensures forall c :: 0 < c < |s| && c / 2 == idx ==> !compare(s[c], s[Largest(compare, s, idx)])
    ensures Largest(compare, s, idx) != idx ==> compare(s[Largest(compare, s, idx)], s[idx])
  {
    var left, right := 2 * idx, 2 * idx + 1;
    forall c | 0 < c < |s| && c / 2 == idx
      ensures !compare(s[c], s[Largest(compare, s, idx)])
    {
      assert c == left || c == right;
      assert !compare(s[idx], s[idx]);
    }
  }

  /** One swap of `down_heap` moves the gap in the heap order down to the child. */
  lemma SiftDownStep<T(!new)>(compare: (T, T) -> bool, s: seq<T>, idx: nat)
    requires StrictWeakOrder(compare)
    requires 2 * idx < |s| && HeapBelowExcept(compare, s, idx)
    requires Largest(compare, s, idx) != idx
    ensures HeapBelowExcept(compare, Swap(s, idx, Largest(compare, s, idx)), Largest(compare, s, idx))
  {
    var k := Largest(compare, s, idx);
    LargestDominates(compare, s, idx);
    var t := Swap(s, idx, k);
    forall i | 0 < i < |t| && i / 2 != k
      ensures !compare(t[i], t[i / 2])
    {
      if i == k {
        assert t[i] == s[idx] && t[i / 2] == s[k];
      } else if i / 2 == idx {
        assert t[i] == s[i] && t[i / 2] == s[k];
      } else if i == idx {
        assert t[i] == s[k] && t[i / 2] == s[idx / 2];
      } else {
        assert t[i] == s[i] && t[i / 2] == s[i / 2];
      }
    }
    forall c | 0 < c < |t| && c / 2 == k
      ensures !compare(t[c], t[k / 2])
    {
      assert t[c] == s[c] && t[k / 2] == s[k];
    }
  }

  /** `down_heap` turns the invariant into full heap order. */
  lemma {:induction false} SiftDownRestoresHeap<T(!new)>(compare: (T, T) -> bool, s: seq<T>, idx: nat)
    requires StrictWeakOrder(compare)
    requires idx < |s| && HeapBelowExcept(compare, s, idx)
    ensures HeapOrdered(compare, SiftDown(compare, s, idx))
    decreases |s| - idx
  {
    if 2 * idx < |s| {
      var k := Largest(compare, s, idx);
      if k == idx {
        LargestDominates(compare, s, idx);
      } else {
        SiftDownStep(compare, s, idx);
        SiftDownRestoresHeap(compare, Swap(s, idx, k), k);
      }
    }
  }

  /** The intended `pop` keeps heap-ordered storage heap-ordered and loses nothing, so
      every pop returns a maximal element of what is queued. */
  lemma IntendedPopKeepsHeap<T(!new)>(compare: (T, T) -> bool, s: seq<T>)
    requires StrictWeakOrder(compare) && HeapOrdered(compare, s) && s != []
    ensures HeapOrdered(compare, IntendedPopped(compare, s).1)
    ensures multiset(IntendedPopped(compare, s).1) + multiset{s[0]} == multiset(s)
    ensures forall i :: 0 <= i < |s| ==> !compare(s[i], s[0])
  {
    FrontIsMaximal(compare, s);
    if |s| > 1 {
      var t := [s[|s| - 1]] + s[1..|s| - 1];
      assert HeapBelowExcept(compare, t, 0) by {
        forall i | 0 < i < |t| && i / 2 != 0
          ensures !compare(t[i], t[i / 2])
        {
          assert t[i] == s[i] && t[i / 2] == s[i / 2];
        }
      }
      SiftDownRestoresHeap(compare, t, 0);
      SiftDownPermutes(compare, t, 0);
      assert s == [s[0]] + s[1..|s| - 1] + [s[|s| - 1]];
    }
  }

  class PriorityQueue<T> {
    var storage: seq<T>
    const compare: (T, T) -> bool

    /** `PriorityQueue::new(compare)`. */
    constructor (compare: (T, T) -> bool)
      ensures storage == [] && this.compare == compare
    {
      storage := [];
      this.compare := compare;
    }

    /** `is_empty`. */
    method IsEmpty() returns (b: bool)
      ensures b <==> storage == []
    {
      b := |storage| == 0;
    }

    /** `clear`. */
    method Clear()
      modifies this
      ensures storage == []
    {
      storage := [];
    }

    /** `push`: `push_back`, then `up_heap` from the new last index. */
    method Push(val: T)
      modifies this
      ensures storage == Pushed(compare, old(storage), val)
    {
      storage := storage + [val];
      UpHeap(|storage| - 1);
    }

    /** `pop`: `None` on empty storage; otherwise `pop_front`, then `down_heap(0)`
        if anything is left. */
    method Pop() returns (r: Option<T>)
      modifies this
      ensures (r, storage) == Popped(compare, old(storage))
    {
      if |storage| == 0 {
        return None;
      }
      r := Some(storage[0]);
      storage := storage[1..];
      if |storage| != 0 {
        DownHeap(0);
      }
    }

    /** `up_heap`: swaps the element at `idx` with its parent while it compares above it. */
    method UpHeap(idx: nat)
      requires idx < |storage|
      modifies this
      ensures storage == SiftUp(compare, old(storage), idx)
    {
      var theIdx: nat := idx;
      while theIdx > 0
        invariant theIdx < |storage|
        invariant SiftUp(compare, storage, theIdx) == SiftUp(compare, old(storage), idx)
        decreases theIdx
      {
        var parentIdx := theIdx / 2;
        if !compare(storage[theIdx], storage[parentIdx]) {
          break;
        }
        storage := Swap(storage, theIdx, parentIdx);
        theIdx := parentIdx;
      }
    }

    /** `down_heap`: swaps the element at `idx` with its greater child until neither
        child compares above it. */
    method DownHeap(idx: nat)
      requires idx < |storage|
      modifies this
      ensures storage == SiftDown(compare, old(storage), idx)
    {
      var theIdx: nat := idx;
      while true
        invariant theIdx < |storage|
        invariant SiftDown(compare, storage, theIdx) == SiftDown(compare, old(storage), idx)
        decreases |storage| - theIdx
      {
        var leftIdx := 2 * theIdx;
        if leftIdx >= |storage| {
          break;
        }
        var rightIdx := 2 * theIdx + 1;
        var largestIdx := theIdx;
        if compare(storage[leftIdx], storage[largestIdx]) {
          largestIdx := leftIdx;
        }
        if rightIdx < |storage| && compare(storage[rightIdx], storage[largestIdx]) {
          largestIdx := rightIdx;
        }
        assert largestIdx == Largest(compare, storage, theIdx);
        if largestIdx == theIdx {
          break;
        }
        storage := Swap(storage, theIdx, largestIdx);
        theIdx := largestIdx;
      }
    }
  }
}
