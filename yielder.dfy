/** `Yielder` (src/yield_now/yielder.rs), the future behind `yield_now()`: it asks to
    be polled again once, then completes. */
module Yielders {
  import opened Common

  class Yielder {
    var yieldNow: bool

    /** `Yielder::default()`, as `yield_now()` builds it. */
    constructor ()
      ensures !yieldNow
    {
      yieldNow := false;
    }

    /** `Future::poll`: the first poll sets the flag, wakes the task once and is
        `Pending`; every later poll is `Ready(())`. */
    method Poll(cx: Waker) returns (r: Poll<()>)
      modifies this, cx
      ensures yieldNow
      ensures !old(yieldNow) ==> r == Pending && cx.wakes == old(cx.wakes) + 1
      ensures old(yieldNow) ==> r == Ready(()) && cx.wakes == old(cx.wakes)
    {
      if !yieldNow {
        yieldNow := true;
        cx.Wake();
        return Pending;
      }
      return Ready(());
    }
  }

  /** The polls a caller sees: one `Pending` before `Ready(())`, for a future polled
      `n` times from the default state. */
  function PollsFrom(n: nat): seq<Poll<()>>
  {
    if n == 0 then [] else [Pending] + seq(n - 1, _ => Ready(()))
  }

  /** Polling a fresh yielder `n` times gives exactly one `Pending`, first, and wakes
      the task once. */
  method PollTimes(n: nat) returns (polls: seq<Poll<()>>, ghost wakes: nat)
    ensures polls == PollsFrom(n)
    ensures n > 0 ==> polls[0] == Pending && forall i :: 0 < i < n ==> polls[i] == Ready(())
    ensures wakes == if n == 0 then 0 else 1
  {
    var y := new Yielder();
    var cx := new Waker();
    polls := [];
    var i := 0;
    while i < n
      invariant 0 <= i <= n
      invariant y.yieldNow <==> i > 0
      invariant cx.wakes == if i == 0 then 0 else 1
      invariant polls == PollsFrom(i)
    {
      var p := y.Poll(cx);
      polls := polls + [p];
      i := i + 1;
    }
    wakes := cx.wakes;
  }
}
