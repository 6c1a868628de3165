/** Types shared by every module of the model: Rust's `Option`, the `Poll` of a
    future or stream, `Ordering`, the `usize` range, and a task waker. */
module Common {

  datatype Option<T> = None | Some(value: T)

  /** `std::task::Poll`: one poll either finishes with a value or must be retried later. */
  datatype Poll<T> = Ready(value: T) | Pending

  /** `std::cmp::Ordering`. */
  datatype Ordering = Less | Equal | Greater {
    /** The ordering seen from the other side (`Ordering::reverse`). */
    function Reverse(): (r: Ordering)
      ensures r == Less <==> this == Greater
      ensures r == Equal <==> this == Equal
      ensures r == Greater <==> this == Less
    {
      match this
      case Less => Greater
      case Equal => Equal
      case Greater => Less
    }
  }

  /** Compares two naturals the way `Ord::cmp` compares enum discriminants. */
  function CompareNat(a: nat, b: nat): (r: Ordering)
    ensures r == Less <==> a < b
    ensures r == Equal <==> a == b
    ensures r == Greater <==> a > b
  {
    if a < b then Less else if a == b then Equal else Greater
  }

  /** Values of Rust's 64-bit `usize`. */
  const USIZE_MODULUS: int := 0x1_0000_0000_0000_0000
  const USIZE_MAX: int := USIZE_MODULUS - 1
  type Usize = x: int | 0 <= x < USIZE_MODULUS

  /** `AtomicUsize::fetch_add`: the stored value wraps around past `usize::MAX`. */
  function WrappingAdd(a: Usize, b: Usize): (r: Usize)
    ensures a + b <= USIZE_MAX ==> r == a + b
    ensures a + b > USIZE_MAX ==> r == a + b - USIZE_MODULUS
  {
    (a + b) % USIZE_MODULUS
  }

  /** `AtomicUsize::fetch_sub`: the stored value wraps around below zero. */
  function WrappingSub(a: Usize, b: Usize): (r: Usize)
    ensures b <= a ==> r == a - b
    ensures b > a ==> r == a - b + USIZE_MODULUS
  {
    (a - b) % USIZE_MODULUS
  }

  /** The waker of a task context. Only the number of wake-ups it received is observable. */
  class Waker {
    ghost var wakes: nat

    constructor ()
      ensures wakes == 0
    {
      wakes := 0;
    }

    /** `Waker::wake` / `Waker::wake_by_ref`: asks the executor to poll the task again. */
    method Wake()
      modifies this
      ensures wakes == old(wakes) + 1
    {
      wakes := wakes + 1;
    }
  }

  /** A sequence back to front. */
  function Reversed<T>(s: seq<T>): (r: seq<T>)
    ensures |r| == |s|
    ensures forall i :: 0 <= i < |s| ==> r[i] == s[|s| - 1 - i]
    decreases |s|
  {
    if s == [] then [] else Reversed(s[1..]) + [s[0]]
  }

  /** The sum of `f` over a sequence; used to total the results a consumer folds. */
  function SumBy<T>(s: seq<T>, f: T -> int): int
    decreases |s|
  {
    if s == [] then 0 else f(s[0]) + SumBy(s[1..], f)
  }

  lemma {:induction false} SumByConcat<T>(a: seq<T>, b: seq<T>, f: T -> int)
    ensures SumBy(a + b, f) == SumBy(a, f) + SumBy(b, f)
    decreases |a|
  {
    if a == [] {
      assert a + b == b;
    } else {
      assert (a + b)[1..] == a[1..] + b;
      SumByConcat(a[1..], b, f);
    }
  }

  /** Taking one term out of a sum. */
  lemma SumByRemove<T>(b: seq<T>, i: nat, f: T -> int)
    requires i < |b|
    ensures SumBy(b, f) == f(b[i]) + SumBy(b[..i] + b[i + 1..], f)
  {
    assert b == b[..i] + ([b[i]] + b[i + 1..]);
    SumByConcat(b[..i], [b[i]] + b[i + 1..], f);
    SumByConcat([b[i]], b[i + 1..], f);
    SumByConcat(b[..i], b[i + 1..], f);
  }

  lemma MultisetRemove<T>(b: seq<T>, i: nat)
    requires i < |b|
    ensures multiset(b[..i] + b[i + 1..]) == multiset(b) - multiset{b[i]}
  {
    assert b == b[..i] + [b[i]] + b[i + 1..];
  }

  /** Appending to both sides of a multiset equation. */
  lemma MultisetAppend<T>(a: seq<T>, a': seq<T>, t: seq<T>, t': seq<T>, m: multiset<T>, m2: multiset<T>)
    requires multiset(a) == multiset(a') + m
    requires multiset(t) + m == multiset(t') + m2
    ensures multiset(a + t) == multiset(a' + t') + m2
  {
    calc {
      multiset(a + t);
      multiset(a) + multiset(t);
      multiset(a') + (multiset(t) + m);
    }
  }

  /** A sum does not depend on the order of its terms. */
  lemma {:induction false} SumByPermutation<T>(a: seq<T>, b: seq<T>, f: T -> int)
    requires multiset(a) == multiset(b)
    ensures SumBy(a, f) == SumBy(b, f)
    decreases |a|
  {
    if a == [] {
      assert |b| == |multiset(b)| == 0;
    } else {
      var x := a[0];
      assert x in multiset(b);
      var i :| 0 <= i < |b| && b[i] == x;
      var rest := b[..i] + b[i + 1..];
      MultisetRemove(b, i);
      MultisetRemove(a, 0);
      assert a[..0] + a[1..] == a[1..];
      SumByPermutation(a[1..], rest, f);
      SumByRemove(b, i, f);
    }
  }
}
