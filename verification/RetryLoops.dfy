/** The two shapes of retry loop, run against any stream of replies. */
module RetryLoops {
  import opened ReturnCodes

  datatype Loop = Running(counter: int) | Stopped(status: int, calls: nat)

  /** The session handler's do-while after n passes: the body increments
      retry_count, the test decrements it again. */
  function SessionLoop(replies: nat -> int, n: nat): Loop {
    if n == 0 then Running(3) else
      match SessionLoop(replies, n - 1)
      case Stopped(status, calls) => Stopped(status, calls)
      case Running(counter) =>
        var status, incremented := replies(n - 1), counter + 1;
        if status == ZCONNECTIONLOSS && incremented != 0 then Running(incremented - 1) else Stopped(status, n)
  }

  /** The lock code's loop after n passes: the counter counts the losses. */
  function LockLoop(replies: nat -> int, retry: nat, n: nat): Loop {
    if n == 0 then (if retry == 0 then Stopped(ZCONNECTIONLOSS, 0) else Running(0)) else
      match LockLoop(replies, retry, n - 1)
      case Stopped(status, calls) => Stopped(status, calls)
      case Running(count) =>
        var status := replies(n - 1);
        if status == ZCONNECTIONLOSS && count + 1 < retry then Running(count + 1) else Stopped(status, n)
  }

  predicate AllLost(replies: nat -> int, n: nat) {
    forall i: nat :: i < n ==> replies(i) == ZCONNECTIONLOSS
  }

  /** The counter is 3 at every loop head, so nothing but an answer stops the loop:
      after n passes it runs exactly when all n replies were lost. */
  lemma {:induction false} SessionLoopNeverTires(replies: nat -> int, n: nat)
    ensures SessionLoop(replies, n) == Running(3) <==> AllLost(replies, n)
    ensures SessionLoop(replies, n).Running? ==> SessionLoop(replies, n).counter == 3
    ensures SessionLoop(replies, n).Stopped? ==>
              var Stopped(status, calls) := SessionLoop(replies, n);
              && 0 < calls <= n && AllLost(replies, calls - 1)
              && status == replies(calls - 1) && status != ZCONNECTIONLOSS
  {
    if n > 0 {
      SessionLoopNeverTires(replies, n - 1);
      if AllLost(replies, n - 1) && replies(n - 1) == ZCONNECTIONLOSS {
        assert AllLost(replies, n);
      }
    }
  }

  /** The lock code's loop stops within its retries, on the same answer when one comes in time. */
  lemma {:induction false} LockLoopTires(replies: nat -> int, retry: nat, n: nat)
    ensures n >= retry ==> LockLoop(replies, retry, n).Stopped?
    ensures LockLoop(replies, retry, n).Running? ==>
              LockLoop(replies, retry, n) == Running(n) && n < retry && AllLost(replies, n)
    ensures retry > 0 && LockLoop(replies, retry, n).Stopped? ==>
              var Stopped(status, calls) := LockLoop(replies, retry, n);
              && 0 < calls <= retry && AllLost(replies, calls - 1) && status == replies(calls - 1)
              && (status == ZCONNECTIONLOSS ==> calls == retry)
  {
    if n > 0 {
      LockLoopTires(replies, retry, n - 1);
    }
  }
}
