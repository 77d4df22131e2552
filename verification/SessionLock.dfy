/** The budget of attempts and sleep within which php_zookeeper_sess_lock tries for the lock. */
module SessionLock {
  import opened Calls
  import opened LockCalls
  import opened LockMutex
  import opened LockProtocol
  import opened LockSafety
  import opened ReturnCodes
  import opened ServerLog

  const DEFAULT_LOCK_WAIT := 150000
  const LOCK_EXPIRATION := 30
  const LONG_MAX := 0x7fff_ffff_ffff_ffff

  /** C division truncates toward zero. */
  function CDiv(x: int, y: int): int
    requires y != 0
  {
    if (x >= 0) == (y > 0) then Abs(x) / Abs(y) else -(Abs(x) / Abs(y))
  }

  function Abs(x: int): nat {
    if x < 0 then -x else x
  }

  function MaxWait(maxExecutionTime: int): int {
    if maxExecutionTime <= 0 then LOCK_EXPIRATION else maxExecutionTime
  }

  function Wait(lockWait: int): int {
    if lockWait == 0 then DEFAULT_LOCK_WAIT else lockWait
  }

  /** How many attempts the budget pays for. */
  function Budget(total: int, wait: int): nat
    requires wait != 0
  {
    if CDiv(total, wait) > 1 then CDiv(total, wait) else 1
  }

  /** The attempts that these settings pay for. */
  function Tries(maxExecutionTime: int, lockWait: int): nat {
    Budget(MaxWait(maxExecutionTime) * 1000000, Wait(lockWait))
  }

  lemma TriesAre(maxExecutionTime: int, lockWait: int)
    requires Wait(lockWait) > 0
    ensures var total := if maxExecutionTime <= 0 then 30000000 else maxExecutionTime * 1000000;
            Tries(maxExecutionTime, lockWait) == if total / Wait(lockWait) > 1 then total / Wait(lockWait) else 1
  {
    var total := MaxWait(maxExecutionTime) * 1000000;
    assert Abs(total) == total && Abs(Wait(lockWait)) == Wait(lockWait);
    assert CDiv(total, Wait(lockWait)) == total / Wait(lockWait);
  }

  /** In numbers: 30 s without a max_execution_time, 150 ms without a lock_wait, and for a
      negative one a single attempt without sleep. */
  lemma TriesInNumbers(maxExecutionTime: int, lockWait: int)
    ensures lockWait == 0 && maxExecutionTime <= 0 ==> Tries(maxExecutionTime, lockWait) == 200
    ensures lockWait == 0 && maxExecutionTime > 0 ==>
              Tries(maxExecutionTime, lockWait) == maxExecutionTime * 1000000 / 150000
    ensures lockWait > 0 ==>
              var total := if maxExecutionTime <= 0 then 30000000 else maxExecutionTime * 1000000;
              Tries(maxExecutionTime, lockWait) == if total / lockWait > 1 then total / lockWait else 1
    ensures lockWait < 0 ==> Tries(maxExecutionTime, lockWait) == 1
    ensures Wait(lockWait) == if lockWait == 0 then 150000 else lockWait
    ensures lockWait < 0 ==>
              forall from, tries, n: nat :: n <= |tries| ==> NapsAfter(from, tries, n, Wait(lockWait)) == []
  {
    if lockWait < 0 {
      assert CDiv(MaxWait(maxExecutionTime) * 1000000, lockWait) <= 0;
    } else {
      TriesAre(maxExecutionTime, lockWait);
    }
  }

  /** The attempts and the sleep, in microseconds, that a wait budget of total allows. */
  ghost predicate InBudget(total: int, wait: int, answer: Answer, tries: nat, slept: nat)
    requires wait != 0
  {
    && 1 <= tries <= Budget(total, wait)
    && (answer == Returned(false) ==> tries == Budget(total, wait))
    && slept <= (if total >= wait then total else wait)
    && (wait < 0 ==> slept == 0)
    && (answer == Returned(false) && 0 < wait <= total ==> total - slept < wait)
  }

  /** usleep(wait), n times. */
  function TotalSleep(n: nat, wait: int): nat {
    if n == 0 || wait <= 0 then 0 else TotalSleep(n - 1, wait) + wait
  }

  lemma {:induction false} TotalSleepIs(n: nat, wait: int)
    ensures TotalSleep(n, wait) == if wait > 0 then n * wait else 0
  {
    if n > 0 {
      TotalSleepIs(n - 1, wait);
    }
  }

  lemma BudgetKept(total: int, wait: int, answer: Answer, tries: nat, slept: nat)
    requires total > 0 && wait != 0
    requires 1 <= tries <= Budget(total, wait) && (answer == Returned(false) ==> tries == Budget(total, wait))
    requires slept == TotalSleep(if answer == Returned(false) then tries else tries - 1, wait)
    ensures InBudget(total, wait, answer, tries, slept)
  {
    var naps := if answer == Returned(false) then tries else tries - 1;
    TotalSleepIs(naps, wait);
    if wait > 0 {
      WholeWaits(total, wait);
      SleepBounds(total, wait, CDiv(total, wait), naps);
    }
  }

  lemma WholeWaits(total: nat, wait: nat)
    requires wait > 0
    ensures var q := CDiv(total, wait); q >= 0 && q * wait <= total < q * wait + wait
  {
    QuotientBounds(total, wait);
    assert Abs(total) == total && Abs(wait) == wait;
    assert CDiv(total, wait) == total / wait;
  }

  lemma QuotientBounds(total: nat, wait: nat)
    requires wait > 0
    ensures total / wait >= 0 && total - wait < (total / wait) * wait <= total
  {
  }

  lemma SleepBounds(total: int, wait: nat, q: nat, naps: nat)
    requires wait > 0 && q * wait <= total < q * wait + wait
    requires naps <= if q > 1 then q else 1
    ensures naps * wait <= if total >= wait then total else wait
    ensures wait <= total && naps == (if q > 1 then q else 1) ==> total - naps * wait < wait
  {
    if q <= 1 {
      assert naps * wait <= wait;
    } else {
      assert naps * wait <= q * wait;
    }
  }

  // ---------------------------------------------------------------- the attempts

  /** One zkr_lock_lock, and how long the run was when it came back. */
  datatype Tried = Tried(locking: Locking, end: nat)

  /** usleep, after so many calls, for so many microseconds. */
  datatype Nap = Nap(after: nat, micros: nat)

  /** The loop around zkr_lock_lock: its attempts with the calls from from up to to, the sleep
      between them, and whether one more attempt waits for pmutex forever. */
  datatype Trying = Trying(from: nat, to: nat, tries: seq<Tried>, naps: seq<Nap>, busy: bool) {
    function Count(): nat {
      |tries| + if busy then 1 else 0
    }
  }

  /** Where the i-th attempt starts, as they follow one another. */
  function StartOf(from: nat, tries: seq<Tried>, i: nat): nat
    requires i <= |tries|
  {
    if i == 0 || tries[i - 1].locking.ops == [] then from else tries[i - 1].locking.End()
  }

  /** The session was not owner when the attempt came back, after the last queue it listed. */
  ghost predicate Refused(r: Run, calls: seq<Call>, t: Tried, c: Session) {
    && t.locking.begin <= t.end < |r.states| && t.end <= |r.actions|
    && c in r.states[t.end].clients && !IsOwner(r.states[t.end].clients[c])
    && Concluded(calls, t)
  }

  ghost predicate Concluded(calls: seq<Call>, t: Tried) {
    && t.locking.ops != []
    && var o := t.locking.ops[|t.locking.ops| - 1];
       o.adopted < o.to ==> 0 < o.listed <= |calls| && (calls[o.listed - 1].rc == ZOK ==> o.list < t.end)
  }

  lemma Concludes(r: Run, calls: seq<Call>, from: nat, t: Tried, c: Session, path: string)
    requires Locks(r, calls, from, t.locking, c, path) && t.end == |r.actions|
    ensures Concluded(calls, t)
  {
    assert Operated(r, calls, t.locking.ops[|t.locking.ops| - 1], c, path);
  }

  predicate InTurn(t: Tried, next: Tried) {
    t.end <= next.locking.begin
  }

  /** Every attempt is one zkr_lock_lock, and starts with the call after the last one's. */
  ghost predicate TriedAll(r: Run, calls: seq<Call>, g: Trying, c: Session, path: string) {
    && (forall i :: 0 <= i < |g.tries| ==>
          Locks(r, calls, StartOf(g.from, g.tries, i), g.tries[i].locking, c, path))
    && (forall i :: 0 <= i < |g.tries| - 1 ==> InTurn(g.tries[i], g.tries[i + 1]))
    && StartOf(g.from, g.tries, |g.tries|) == g.to
  }

  /** The first n attempts were refused, and after each usleep was called if wait is positive. */
  ghost predicate Refusals(r: Run, calls: seq<Call>, g: Trying, n: nat, wait: int, c: Session, path: string) {
    && TriedAll(r, calls, g, c, path) && n <= |g.tries|
    && (forall i :: 0 <= i < n ==> Refused(r, calls, g.tries[i], c))
    && g.naps == NapsAfter(g.from, g.tries, n, wait)
  }

  function NapsAfter(from: nat, tries: seq<Tried>, n: nat, wait: int): seq<Nap>
    requires n <= |tries|
  {
    if wait <= 0 then [] else seq(n, i requires 0 <= i < n => Nap(StartOf(from, tries, i + 1), wait))
  }

  /** What php_zookeeper_sess_lock did to get that answer: it asked again after each refusal,
      as long as it had attempts; it hung on the last one if that ends in a failed watch, or
      if that had to wait for pmutex forever. */
  ghost predicate LockTried(r: Run, calls: seq<Call>, g: Trying, answer: Answer, attempts: nat, wait: int,
                            c: Session, path: string) {
    && 1 <= g.Count() <= attempts && (answer == Returned(false) ==> !g.busy && g.Count() == attempts)
    && Refusals(r, calls, g, Refusing(g, answer), wait, c, path) && g.to <= |calls|
    && (answer.Hung? <==> g.busy || EndsInFailedWatch(calls[..g.to]))
  }

  /** How many attempts were refused: not the last one if that was granted or hung. */
  function Refusing(g: Trying, answer: Answer): nat {
    if g.busy || answer == Returned(false) || g.tries == [] then |g.tries| else |g.tries| - 1
  }

  lemma RefusalsStay(r: Run, r': Run, calls: seq<Call>, more: seq<Call>, g: Trying, n: nat, wait: int,
                     c: Session, path: string)
    requires r.states <= r'.states && r.actions <= r'.actions && calls <= more
    requires Refusals(r, calls, g, n, wait, c, path)
    ensures Refusals(r', more, g, n, wait, c, path)
  {
    hide Locks;
    forall i | 0 <= i < |g.tries|
      ensures Locks(r', more, StartOf(g.from, g.tries, i), g.tries[i].locking, c, path)
    {
      LocksStays(r, r', calls, more, StartOf(g.from, g.tries, i), g.tries[i].locking, c, path);
    }
    forall i | 0 <= i < n ensures Refused(r', more, g.tries[i], c) {
      assert Refused(r, calls, g.tries[i], c) && r'.states[g.tries[i].end] == r.states[g.tries[i].end];
    }
  }

  lemma BusyTry(r: Run, calls: seq<Call>, g: Trying, n: nat, wait: int, c: Session, path: string)
    requires Refusals(r, calls, g, n, wait, c, path)
    ensures Refusals(r, calls, g.(busy := true), n, wait, c, path)
  {
  }

  /** Later actions and calls change nothing. */
  lemma LockTriedStays(r: Run, r': Run, calls: seq<Call>, more: seq<Call>, g: Trying, answer: Answer,
                       attempts: nat, wait: int, c: Session, path: string)
    requires r.states <= r'.states && r.actions <= r'.actions && calls <= more
    requires LockTried(r, calls, g, answer, attempts, wait, c, path)
    ensures LockTried(r', more, g, answer, attempts, wait, c, path)
  {
    hide Refusals, EndsInFailedWatch;
    RefusalsStay(r, r', calls, more, g, Refusing(g, answer), wait, c, path);
    assert more[..g.to] == calls[..g.to];
  }

  lemma SomeOperation(r: Run, calls: seq<Call>, from: nat, l: Locking, c: Session, path: string)
    requires Locks(r, calls, from, l, c, path)
    ensures l.ops != []
  {
  }

  /** One more attempt that came back. */
  function AfterTry(g: Trying, t: Tried, slept: seq<Nap>): Trying
    requires t.locking.ops != []
  {
    g.(tries := g.tries + [t], to := t.locking.End(), naps := g.naps + slept)
  }

  lemma StartsStay(from: nat, tries: seq<Tried>, t: Tried, wait: int)
    requires t.locking.ops != []
    ensures forall i :: 0 <= i <= |tries| ==> StartOf(from, tries + [t], i) == StartOf(from, tries, i)
    ensures StartOf(from, tries + [t], |tries| + 1) == t.locking.End()
    ensures NapsAfter(from, tries + [t], |tries|, wait) == NapsAfter(from, tries, |tries|, wait)
    ensures NapsAfter(from, tries + [t], |tries| + 1, wait) ==
            NapsAfter(from, tries, |tries|, wait) + if wait > 0 then [Nap(t.locking.End(), wait)] else []
  {
  }

  lemma TriedOnce(r: Run, calls: seq<Call>, g: Trying, t: Tried, naps: seq<Nap>, c: Session, path: string)
    requires TriedAll(r, calls, g, c, path) && t.locking.ops != []
    requires Locks(r, calls, g.to, t.locking, c, path)
    requires g.tries != [] ==> InTurn(g.tries[|g.tries| - 1], t)
    ensures TriedAll(r, calls, AfterTry(g, t, naps), c, path)
  {
    hide Locks, StartOf, NapsAfter;
    StartsStay(g.from, g.tries, t, 0);
    var all := g.tries + [t];
    forall i | 0 <= i < |all| ensures Locks(r, calls, StartOf(g.from, all, i), all[i].locking, c, path) {
      if i < |g.tries| {
        assert Locks(r, calls, StartOf(g.from, g.tries, i), g.tries[i].locking, c, path);
      }
    }
    forall i | 0 <= i < |g.tries| ensures InTurn(all[i], all[i + 1]) {
      if i < |g.tries| - 1 {
        assert InTurn(g.tries[i], g.tries[i + 1]);
      }
    }
  }

  /** One attempt more: it was granted, it hung, or it was refused too. */
  lemma OneMoreTry(r: Run, r': Run, calls: seq<Call>, more: seq<Call>, g: Trying, t: Tried, wait: int,
                   c: Session, path: string)
    requires r.states <= r'.states && r.actions <= r'.actions && calls <= more
    requires Refusals(r, calls, g, |g.tries|, wait, c, path)
    requires Locks(r', more, g.to, t.locking, c, path) && |r.actions| <= t.locking.begin
    ensures t.locking.ops != [] && Refusals(r', more, AfterTry(g, t, []), |g.tries|, wait, c, path)
    ensures Refused(r', more, t, c) ==>
              var slept := if wait > 0 then [Nap(t.locking.End(), wait)] else [];
              Refusals(r', more, AfterTry(g, t, slept), |g.tries| + 1, wait, c, path)
  {
    hide Locks, Refused, TriedAll, StartOf, NapsAfter;
    SomeOperation(r', more, g.to, t.locking, c, path);
    RefusalsStay(r, r', calls, more, g, |g.tries|, wait, c, path);
    StartsStay(g.from, g.tries, t, wait);
    if g.tries != [] {
      EndsBy(r, calls, g.tries[|g.tries| - 1], c);
    }
    TriedOnce(r', more, g, t, [], c, path);
    TriedOnce(r', more, g, t, if wait > 0 then [Nap(t.locking.End(), wait)] else [], c, path);
  }

  lemma EndsBy(r: Run, calls: seq<Call>, t: Tried, c: Session)
    requires Refused(r, calls, t, c)
    ensures t.end <= |r.actions|
  {
  }

  /** The sleep in all. */
  function Slept(naps: seq<Nap>): nat {
    if naps == [] then 0 else Slept(naps[..|naps| - 1]) + naps[|naps| - 1].micros
  }

  lemma {:induction false} SleptIs(from: nat, tries: seq<Tried>, n: nat, wait: int)
    requires n <= |tries|
    ensures Slept(NapsAfter(from, tries, n, wait)) == TotalSleep(n, wait)
  {
    if wait <= 0 {
      TotalSleepIs(n, wait);
    } else if n > 0 {
      SleptIs(from, tries, n - 1, wait);
      assert NapsAfter(from, tries, n, wait)[..n - 1] == NapsAfter(from, tries, n - 1, wait);
    }
  }

  lemma TriedInBudget(r: Run, calls: seq<Call>, g: Trying, answer: Answer, total: int, wait: int,
                      c: Session, path: string)
    requires total > 0 && wait != 0 && LockTried(r, calls, g, answer, Budget(total, wait), wait, c, path)
    ensures InBudget(total, wait, answer, g.Count(), Slept(g.naps))
  {
    hide TriedAll, Refused;
    var n := Refusing(g, answer);
    SleptIs(g.from, g.tries, n, wait);
    BudgetKept(total, wait, answer, g.Count(), Slept(g.naps));
  }

  lemma NoTries(r: Run, calls: seq<Call>, g: Trying, wait: int, c: Session, path: string)
    requires g == Trying(|calls|, |calls|, [], [], false)
    ensures Refusals(r, calls, g, 0, wait, c, path)
  {
  }
}
