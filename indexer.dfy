/** `Indexer` (src/threadpool_impl/index.rs): the round-robin counter the thread pool
    uses to choose the worker a task is sent to. */
module Indexers {

  class Indexer {
    var index: nat
    const lastIndex: nat

    ghost predicate Valid()
      reads this
    {
      index <= lastIndex
    }

    /** `Indexer::new(count)`; `count - 1` underflows for a zero count. */
    constructor (count: nat)
      requires count >= 1
      ensures Valid() && index == 0 && lastIndex == count - 1
    {
      index := 0;
      lastIndex := count - 1;
    }

    /** `next`: the `compare_exchange(last_index, 0)` resets the counter and gives 0;
        otherwise `fetch_add(1)` gives the current index and advances it. */
    method Next() returns (i: nat)
      requires Valid()
      modifies this
      ensures Valid()
      ensures (i, index) == NextState(lastIndex, old(index))
    {
      if index == lastIndex {
        index := 0;
        return 0;
      }
      i := index;
      index := index + 1;
    }
  }

  /** The value and new counter of one `next` call. */
  function NextState(lastIndex: nat, index: nat): (r: (nat, nat))
    requires index <= lastIndex
    ensures r.0 <= lastIndex && r.1 <= lastIndex
    ensures index == lastIndex ==> r == (0, 0)
    ensures index < lastIndex ==> r == (index, index + 1)
  {
    if index == lastIndex then (0, 0) else (index, index + 1)
  }

  /** The counter after `k` calls on a fresh indexer. */
  function IndexAfter(lastIndex: nat, k: nat): (n: nat)
    ensures n <= lastIndex
  {
    if k == 0 then 0 else NextState(lastIndex, IndexAfter(lastIndex, k - 1)).1
  }

  /** The value call number `k` (from 0) returns on a fresh indexer. */
  function Returned(lastIndex: nat, k: nat): (n: nat)
    ensures n <= lastIndex
  {
    NextState(lastIndex, IndexAfter(lastIndex, k)).0
  }

  /** Two different multiples of `m` are at least `m` apart. */
  lemma {:induction false} MultiplesApart(a: int, b: int, m: nat)
    requires a > b
    ensures a * m - b * m >= m
    decreases a - b
  {
    if a - 1 > b {
      MultiplesApart(a - 1, b, m);
      assert a * m == (a - 1) * m + m;
    } else {
      assert a * m == b * m + m;
    }
  }

  /** Euclidean division has one quotient and one remainder. */
  lemma DivisionIsUnique(x: int, m: int, q: int, r: int)
    requires m >= 1 && 0 <= r < m && x == q * m + r
    ensures x % m == r && x / m == q
  {
    var q', r' := x / m, x % m;
    assert x == q' * m + r';
    if q > q' {
      MultiplesApart(q, q', m);
      assert false;
    } else if q < q' {
      MultiplesApart(q', q, m);
      assert false;
    }
  }

  /** Counting modulo `m`: one step up, wrapping from `m - 1` back to 0. */
  lemma ModuloStep(j: nat, m: nat)
    requires m >= 1
    ensures (j + 1) % m == if j % m == m - 1 then 0 else j % m + 1
  {
    var q, r := j / m, j % m;
    assert j == q * m + r;
    if r == m - 1 {
      assert j + 1 == (q + 1) * m + 0;
      DivisionIsUnique(j + 1, m, q + 1, 0);
    } else {
      DivisionIsUnique(j + 1, m, q, r + 1);
    }
  }

  /** After `k` calls the counter is `k mod count`. */
  lemma {:induction false} IndexAfterIsModulo(lastIndex: nat, k: nat)
    ensures IndexAfter(lastIndex, k) == k % (lastIndex + 1)
  {
    if k > 0 {
      IndexAfterIsModulo(lastIndex, k - 1);
      ModuloStep(k - 1, lastIndex + 1);
    }
  }

  /** Every value `next` returns fits the handle list, and the last handle is never
      chosen: with one worker every call gives 0, and with `count` workers the calls
      cycle through 0, 1, ..., count - 2, 0. */
  lemma NextNeverReturnsLast(lastIndex: nat, k: nat)
    ensures Returned(lastIndex, k) <= lastIndex
    ensures Returned(lastIndex, k) == (if k % (lastIndex + 1) == lastIndex then 0 else k % (lastIndex + 1))
    ensures lastIndex >= 1 ==> Returned(lastIndex, k) != lastIndex
    ensures lastIndex == 0 ==> Returned(lastIndex, k) == 0
  {
    IndexAfterIsModulo(lastIndex, k);
  }

  /** A round robin that also uses the last handle: return `last_index` and wrap. */
  function IntendedNextState(lastIndex: nat, index: nat): (r: (nat, nat))
    requires index <= lastIndex
    ensures r.0 == index && r.1 <= lastIndex
  {
    if index == lastIndex then (index, 0) else (index, index + 1)
  }

  function IntendedIndexAfter(lastIndex: nat, k: nat): (n: nat)
    ensures n <= lastIndex
  {
    if k == 0 then 0 else IntendedNextState(lastIndex, IntendedIndexAfter(lastIndex, k - 1)).1
  }

  /** The corrected round robin returns `k mod count` on call `k`, reaching every handle. */
  lemma {:induction false} IntendedNextIsModulo(lastIndex: nat, k: nat)
    ensures IntendedNextState(lastIndex, IntendedIndexAfter(lastIndex, k)).0 == k % (lastIndex + 1)
    ensures IntendedIndexAfter(lastIndex, k) == k % (lastIndex + 1)
  {
    if k > 0 {
      IntendedNextIsModulo(lastIndex, k - 1);
      ModuloStep(k - 1, lastIndex + 1);
    }
  }

  /** With two workers, `next` as written sends every task to worker 0. */
  lemma TwoWorkersUseOnlyTheFirst(k: nat)
    ensures Returned(1, k) == 0
  {
    NextNeverReturnsLast(1, k);
  }
}
