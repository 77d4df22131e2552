/** Two processes on one key, the first with the smaller session id.  In one history the
    second waits for the lock and then reads what the first has written.  In another the
    first gives the lock back before the second can watch it, and the second gives up. */
module TwoRequests {
  import opened CStrings
  import opened ServerLog
  import opened LockProtocol
  import opened SessionProtocol
  import opened SessionTrace

  function N(c: Session): Node {
    Node(0, 0, c)
  }

  function M(d: Session): Node {
    Node(0, 1, d)
  }

  /** What the two know and where they are. */
  function Two(log: Log, c: Session, x: Client, phc: Phase, d: Session, y: Client, phd: Phase): Sys {
    var next := if |log| > 2 then 2 else |log|;
    Sys(State(log, next, 0, map[c := x, d := y]), map[c := phc, d := phd])
  }

  function New(): Client {
    Client(None, None, Idle, 0, false)
  }

  /** The log after the first k commits: both queue, the first writes z and leaves. */
  function Commits(c: Session, d: Session, z: Znode, k: nat): (log: Log)
    ensures |log| == if k < 4 then k else 4
  {
    match k
    case 0 => []
    case 1 => [] + [Create(N(c))]
    case 2 => Commits(c, d, z, 1) + [Create(M(d))]
    case 3 => Commits(c, d, z, 2) + [Write(c, Some(z))]
    case _ => Commits(c, d, z, 3) + [Delete(N(c))]
  }

  function Owner(c: Session, view: nat): Client {
    Client(Some(N(c)), Some(N(c)), Idle, view, false)
  }

  function Gone(c: Session, view: nat): Client {
    Client(None, Some(N(c)), Idle, view, false)
  }

  function Waiter(c: Session, d: Session, pc: PC, view: nat): Client {
    Client(Some(M(d)), Some(N(c)), pc, view, false)
  }

  const STEPS: nat := 20

  function EventAt(c: Session, d: Session, z: Znode, k: nat): Event {
    match k
    case 0 => Begin(c)
    case 1 => LockStep(Look(c, 0, None))
    case 2 => LockStep(CreateOk(c, 0))
    case 3 => LockStep(List(c, 1, N(c), None))
    case 4 => Acquire(c)
    case 5 => Begin(d)
    case 6 => LockStep(Look(d, 1, None))
    case 7 => LockStep(CreateOk(d, 1))
    case 8 => LockStep(List(d, 2, N(c), Some(N(c))))
    case 9 => LockStep(WatchOk(d, 2))
    case 10 => Stat(c, 2)
    case 11 => Store(c, Some(z))
    case 12 => Close(c)
    case 13 => LockStep(DeleteOk(c, Some(N(c))))
    case 14 => Closed(c)
    case 15 => LockStep(Look(d, 4, Some(M(d))))
    case 16 => LockStep(List(d, 4, M(d), None))
    case 17 => Acquire(d)
    case 18 => Stat(d, 4)
    case _ => Get(d, 4)
  }

  function StateAt(c: Session, d: Session, z: Znode, k: nat): Sys {
    match k
    case 0 => Two([], c, New(), Out, d, New(), Out)
    case 1 => Two([], c, New(), Waiting, d, New(), Out)
    case 2 => Two([], c, Client(None, None, Creating, 0, false), Waiting, d, New(), Out)
    case 3 => Two(Commits(c, d, z, 1), c, Client(Some(N(c)), None, Named, 1, false), Waiting, d, New(), Out)
    case 4 => Two(Commits(c, d, z, 1), c, Owner(c, 1), Waiting, d, New(), Out)
    case 5 => Two(Commits(c, d, z, 1), c, Owner(c, 1), Locked, d, New(), Out)
    case 6 => Two(Commits(c, d, z, 1), c, Owner(c, 1), Locked, d, New(), Waiting)
    case 7 => Two(Commits(c, d, z, 1), c, Owner(c, 1), Locked, d, Client(None, None, Creating, 1, false), Waiting)
    case 8 => Two(Commits(c, d, z, 2), c, Owner(c, 1), Locked, d, Client(Some(M(d)), None, Named, 2, false), Waiting)
    case 9 => Two(Commits(c, d, z, 2), c, Owner(c, 1), Locked, d, Waiter(c, d, Watching(N(c)), 2), Waiting)
    case 10 => Two(Commits(c, d, z, 2), c, Owner(c, 1), Locked, d, Waiter(c, d, Idle, 2), Waiting)
    case 11 => Two(Commits(c, d, z, 2), c, Owner(c, 2), HasRead(None, 2), d, Waiter(c, d, Idle, 2), Waiting)
    case 12 => Two(Commits(c, d, z, 3), c, Owner(c, 3), HasRead(None, 2), d, Waiter(c, d, Idle, 2), Waiting)
    case 13 => Two(Commits(c, d, z, 3), c, Owner(c, 3), Closing, d, Waiter(c, d, Idle, 2), Waiting)
    case 14 => Two(Commits(c, d, z, 4), c, Gone(c, 4), Closing, d, Waiter(c, d, Idle, 2), Waiting)
    case 15 => Two(Commits(c, d, z, 4), c, Gone(c, 4), Out, d, Waiter(c, d, Idle, 2), Waiting)
    case 16 => Two(Commits(c, d, z, 4), c, Gone(c, 4), Out, d, Waiter(c, d, Named, 4), Waiting)
    case 17 => Two(Commits(c, d, z, 4), c, Gone(c, 4), Out, d, Client(Some(M(d)), Some(M(d)), Idle, 4, false), Waiting)
    case 18 => Two(Commits(c, d, z, 4), c, Gone(c, 4), Out, d, Client(Some(M(d)), Some(M(d)), Idle, 4, false), Locked)
    case 19 => Two(Commits(c, d, z, 4), c, Gone(c, 4), Out, d, Client(Some(M(d)), Some(M(d)), Idle, 4, false),
                   Statted(|z.text|, z.mtime, 4))
    case _ => Two(Commits(c, d, z, 4), c, Gone(c, 4), Out, d, Client(Some(M(d)), Some(M(d)), Idle, 4, false),
                  HasRead(Some(z), 4))
  }

  lemma LiveNow(log: Log, op: Op)
    ensures op.Create? ==> LiveAt(log + [op], |log| + 1) == LiveAt(log, |log|) + {op.node}
    ensures op.Delete? ==> LiveAt(log + [op], |log| + 1) == LiveAt(log, |log|) - {op.node}
    ensures op.Write? ==> LiveAt(log + [op], |log| + 1) == LiveAt(log, |log|)
    ensures !op.Write? && !op.Collect? ==> ValueAt(log + [op], |log| + 1) == ValueAt(log, |log|)
  {
    PrefixLive(log, [op], |log|);
    PrefixValue(log, [op], |log|);
  }

  lemma Lives(c: Session, d: Session, z: Znode)
    requires c < d
    ensures LiveAt(Commits(c, d, z, 1), 1) == {N(c)}
    ensures LiveAt(Commits(c, d, z, 2), 2) == {N(c), M(d)} && ValueAt(Commits(c, d, z, 2), 2) == None
    ensures LiveAt(Commits(c, d, z, 3), 3) == {N(c), M(d)}
    ensures LiveAt(Commits(c, d, z, 4), 4) == {M(d)} && ValueAt(Commits(c, d, z, 4), 4) == Some(z)
  {
    LiveNow([], Create(N(c)));
    LiveNow(Commits(c, d, z, 1), Create(M(d)));
    LiveNow(Commits(c, d, z, 2), Write(c, Some(z)));
    LiveNow(Commits(c, d, z, 3), Delete(N(c)));
  }

  /** One of the two takes a step. */
  lemma Moves(log: Log, c: Session, x: Client, phc: Phase, d: Session, y: Client, phd: Phase, e: Event)
    requires c < d && var s, a := Two(log, c, x, phc, d, y, phd), ActionOf(e);
             && SEnabled(s, e) && !a.RenewDirectory? && !a.CreateLost?
             && (if a.CreateOk? then a.shown == |log| < 2 else Effect(s.lock, a) == [] || |log| >= 2)
    ensures var s, a := Two(log, c, x, phc, d, y, phd), ActionOf(e);
            var log' := log + Effect(s.lock, a);
            SNext(s, e) == if a.c == c then Two(log', c, Moved(x, a, 0, |log'|), After(e, log, phc), d, y, phd)
                           else Two(log', c, x, phc, d, Moved(y, a, 0, |log'|), After(e, log, phd))
  {
    var s, a := Two(log, c, x, phc, d, y, phd), ActionOf(e);
    var t := SNext(s, e);
    if a.c == c {
      assert t.lock.clients == map[c := t.lock.clients[c], d := y] && t.reqs == map[c := t.reqs[c], d := phd];
    } else {
      assert t.lock.clients == map[c := x, d := t.lock.clients[d]] && t.reqs == map[c := phc, d := t.reqs[d]];
    }
  }

  lemma MovesFrom(s: Sys, c: Session, d: Session, e: Event)
    requires c < d && s.reqs.Keys == {c, d} && s.lock.clients.Keys == {c, d}
    requires var log := s.lock.log;
             s == Two(log, c, s.lock.clients[c], s.reqs[c], d, s.lock.clients[d], s.reqs[d])
    requires SEnabled(s, e) && var a := ActionOf(e);
             && !a.RenewDirectory? && !a.CreateLost?
             && (if a.CreateOk? then a.shown == |s.lock.log| < 2 else Effect(s.lock, a) == [] || |s.lock.log| >= 2)
    ensures var a, x, y := ActionOf(e), s.lock.clients[c], s.lock.clients[d];
            var log' := if Effect(s.lock, a) == [] then s.lock.log else s.lock.log + Effect(s.lock, a);
            SNext(s, e) ==
            if a.c == c then Two(log', c, Moved(x, a, 0, |log'|), After(e, s.lock.log, s.reqs[c]), d, y, s.reqs[d])
            else Two(log', c, x, s.reqs[c], d, Moved(y, a, 0, |log'|), After(e, s.lock.log, s.reqs[d]))
  {
    assert s.lock.log + [] == s.lock.log;
    Moves(s.lock.log, c, s.lock.clients[c], s.reqs[c], d, s.lock.clients[d], s.reqs[d], e);
  }

  /** The first process comes and gets the lock. */
  lemma FirstLocks(c: Session, d: Session, z: Znode, k: nat)
    requires c < d && 0 <= k < 5
    ensures SEnabled(StateAt(c, d, z, k), EventAt(c, d, z, k))
  {
    Lives(c, d, z);
  }

  lemma FirstLocksOn(c: Session, d: Session, z: Znode, k: nat)
    requires c < d && 0 <= k < 5 && SEnabled(StateAt(c, d, z, k), EventAt(c, d, z, k))
    ensures SNext(StateAt(c, d, z, k), EventAt(c, d, z, k)) == StateAt(c, d, z, k + 1)
  {
    MovesFrom(StateAt(c, d, z, k), c, d, EventAt(c, d, z, k));
  }

  /** The second one queues behind it and watches its node. */
  lemma SecondQueues(c: Session, d: Session, z: Znode, k: nat)
    requires c < d && 5 <= k < 10
    ensures SEnabled(StateAt(c, d, z, k), EventAt(c, d, z, k))
  {
    Lives(c, d, z);
  }

  lemma SecondQueuesOn(c: Session, d: Session, z: Znode, k: nat)
    requires c < d && 5 <= k < 10 && SEnabled(StateAt(c, d, z, k), EventAt(c, d, z, k))
    ensures SNext(StateAt(c, d, z, k), EventAt(c, d, z, k)) == StateAt(c, d, z, k + 1)
  {
    MovesFrom(StateAt(c, d, z, k), c, d, EventAt(c, d, z, k));
  }

  /** The first reads nothing, writes z and gives the lock back. */
  lemma FirstWrites(c: Session, d: Session, z: Znode, k: nat)
    requires c < d && 10 <= k < 15
    ensures SEnabled(StateAt(c, d, z, k), EventAt(c, d, z, k))
  {
    Lives(c, d, z);
  }

  lemma FirstWritesOn(c: Session, d: Session, z: Znode, k: nat)
    requires c < d && 10 <= k < 15 && SEnabled(StateAt(c, d, z, k), EventAt(c, d, z, k))
    ensures SNext(StateAt(c, d, z, k), EventAt(c, d, z, k)) == StateAt(c, d, z, k + 1)
  {
    Lives(c, d, z);
    MovesFrom(StateAt(c, d, z, k), c, d, EventAt(c, d, z, k));
  }

  /** The second finds itself first, and reads. */
  lemma SecondReads(c: Session, d: Session, z: Znode, k: nat)
    requires c < d && 15 <= k < 20
    ensures SEnabled(StateAt(c, d, z, k), EventAt(c, d, z, k))
  {
    Lives(c, d, z);
  }

  lemma SecondReadsOn(c: Session, d: Session, z: Znode, k: nat)
    requires c < d && 15 <= k < 20 && SEnabled(StateAt(c, d, z, k), EventAt(c, d, z, k))
    ensures SNext(StateAt(c, d, z, k), EventAt(c, d, z, k)) == StateAt(c, d, z, k + 1)
  {
    Lives(c, d, z);
    MovesFrom(StateAt(c, d, z, k), c, d, EventAt(c, d, z, k));
  }

  lemma Step(c: Session, d: Session, z: Znode, k: nat)
    requires c < d && k < STEPS
    ensures SEnabled(StateAt(c, d, z, k), EventAt(c, d, z, k))
    ensures SNext(StateAt(c, d, z, k), EventAt(c, d, z, k)) == StateAt(c, d, z, k + 1)
  {
    if k < 5 {
      FirstLocks(c, d, z, k);
      FirstLocksOn(c, d, z, k);
    } else if k < 10 {
      SecondQueues(c, d, z, k);
      SecondQueuesOn(c, d, z, k);
    } else if k < 15 {
      FirstWrites(c, d, z, k);
      FirstWritesOn(c, d, z, k);
    } else {
      SecondReads(c, d, z, k);
      SecondReadsOn(c, d, z, k);
    }
  }

  function Story(c: Session, d: Session, z: Znode, n: nat): History {
    History(seq(n + 1, k requires 0 <= k => StateAt(c, d, z, k)), seq(n, k requires 0 <= k => EventAt(c, d, z, k)))
  }

  lemma StoryIsHistory(c: Session, d: Session, z: Znode, n: nat)
    requires c < d && n <= STEPS
    ensures IsHistory(Story(c, d, z, n))
  {
    var h := Story(c, d, z, n);
    forall i | 0 <= i < |h.events|
      ensures SEnabled(h.states[i], h.events[i]) && h.states[i + 1] == SNext(h.states[i], h.events[i])
    {
      Step(c, d, z, i);
    }
  }

  lemma CommitsInOrder(c: Session, d: Session, z: Znode)
    ensures |Commits(c, d, z, 2)| == 2 && Write(c, Some(z)) !in Commits(c, d, z, 2)
    ensures Write(c, Some(z)) in Commits(c, d, z, 4)
  {
    assert Commits(c, d, z, 1) == [Create(N(c))];
    assert Commits(c, d, z, 2) == [Create(N(c)), Create(M(d))];
    assert Commits(c, d, z, 3)[2] == Write(c, Some(z));
    assert Commits(c, d, z, 4)[2] == Write(c, Some(z));
  }

  lemma StoryTells(c: Session, d: Session, z: Znode)
    requires c < d
    ensures var before, after := StateAt(c, d, z, 9), StateAt(c, d, z, STEPS);
            && before.reqs.Keys == after.reqs.Keys == {c, d}
            && before.reqs[c] == Locked && before.reqs[d] == Waiting
            && after.reqs[d].HasRead? && after.reqs[d].value == Some(z)
            && Write(c, Some(z)) !in before.lock.log && Write(c, Some(z)) in after.lock.log
  {
    CommitsInOrder(c, d, z);
  }

  /** For every two sessions and every value there is a history in which one request waits
      while the other holds the lock, and then reads what that one wrote.  Its processes conform. */
  lemma WaiterReadsWrite(c: Session, d: Session, z: Znode) returns (h: History, i: nat, j: nat)
    requires c < d
    ensures IsHistory(h) && AllConform(RunOf(h), TracesOf(h)) && NoOwnerExpires(RunOf(h), TracesOf(h))
    ensures i < j < |h.states| && h.states[i].reqs.Keys == h.states[j].reqs.Keys == {c, d}
    ensures h.states[i].reqs[c] == Locked && h.states[i].reqs[d] == Waiting
    ensures h.states[j].reqs[d].HasRead? && h.states[j].reqs[d].value == Some(z)
    ensures Write(c, Some(z)) !in h.states[i].lock.log && Write(c, Some(z)) in h.states[j].lock.log
  {
    h, i, j := Story(c, d, z, STEPS), 9, STEPS;
    StoryIsHistory(c, d, z, STEPS);
    HistoryIsCode(h);
    StoryTells(c, d, z);
    assert h.states[i] == StateAt(c, d, z, 9) && h.states[j] == StateAt(c, d, z, STEPS);
  }

  // ---------------------------------------------------------------- a watch too late

  /** The same story up to the second one's listing; then the first gives the lock back, and
      the second is told that there is nothing to watch. */
  function LateLog(c: Session, d: Session): Log {
    Commits(c, d, Znode("", 0), 2) + [Delete(N(c))]
  }

  function LateEvent(c: Session, d: Session, k: nat): Event {
    match k
    case 9 => Close(c)
    case 10 => LockStep(DeleteOk(c, Some(N(c))))
    case 11 => LockStep(WatchGone(d, 3))
    case _ => EventAt(c, d, Znode("", 0), k)
  }

  function LateState(c: Session, d: Session, k: nat): Sys {
    match k
    case 10 => Two(Commits(c, d, Znode("", 0), 2), c, Owner(c, 1), Closing, d, Waiter(c, d, Watching(N(c)), 2), Waiting)
    case 11 => Two(LateLog(c, d), c, Gone(c, 3), Closing, d, Waiter(c, d, Watching(N(c)), 2), Waiting)
    case 12 => Two(LateLog(c, d), c, Gone(c, 3), Closing, d, Waiter(c, d, GivingUp, 3), Waiting)
    case _ => StateAt(c, d, Znode("", 0), k)
  }

  lemma LateLives(c: Session, d: Session)
    requires c < d
    ensures LiveAt(Commits(c, d, Znode("", 0), 2), 2) == {N(c), M(d)}
    ensures |LateLog(c, d)| == 3 && LiveAt(LateLog(c, d), 3) == {M(d)}
  {
    Lives(c, d, Znode("", 0));
    LiveNow(Commits(c, d, Znode("", 0), 2), Delete(N(c)));
  }

  lemma LateEnabled(c: Session, d: Session, k: nat)
    requires c < d && 9 <= k < 12
    ensures SEnabled(LateState(c, d, k), LateEvent(c, d, k))
  {
    LateLives(c, d);
  }

  lemma LateOn(c: Session, d: Session, k: nat)
    requires c < d && 9 <= k < 12 && SEnabled(LateState(c, d, k), LateEvent(c, d, k))
    ensures SNext(LateState(c, d, k), LateEvent(c, d, k)) == LateState(c, d, k + 1)
  {
    MovesFrom(LateState(c, d, k), c, d, LateEvent(c, d, k));
  }

  /** Every lock call was answered, and no session expired. */
  predicate Answered(e: Event) {
    e.LockStep? ==> e.a.Look? || e.a.CreateOk? || e.a.List? || e.a.DeleteOk? || e.a.WatchOk? || e.a.WatchGone?
  }

  function LateStory(c: Session, d: Session): History {
    History(seq(13, k requires 0 <= k => LateState(c, d, k)), seq(12, k requires 0 <= k => LateEvent(c, d, k)))
  }

  lemma LateStoryIsHistory(c: Session, d: Session)
    requires c < d
    ensures IsHistory(LateStory(c, d))
  {
    var h := LateStory(c, d);
    forall i | 0 <= i < |h.events|
      ensures SEnabled(h.states[i], h.events[i]) && h.states[i + 1] == SNext(h.states[i], h.events[i])
    {
      if i < 9 {
        Step(c, d, Znode("", 0), i);
      } else {
        LateEnabled(c, d, i);
        LateOn(c, d, i);
      }
    }
  }

  /** A history in which no call fails, and the waiter gives up all the same: the node it was
      to watch went between its listing and its zoo_wexists.  It is then alone in the queue. */
  lemma GivesUpThoughFirst(c: Session, d: Session) returns (h: History)
    requires c < d
    ensures IsHistory(h) && forall i :: 0 <= i < |h.events| ==> Answered(h.events[i])
    ensures |h.states| == |h.events| + 1
    ensures var s := h.states[|h.events|];
            && d in s.reqs && s.reqs[d] == Waiting && d in s.lock.clients && s.lock.clients[d].pc == GivingUp
            && s.lock.clients[d].id.Some? && Live(s.lock.log) == {s.lock.clients[d].id.value}
  {
    h := LateStory(c, d);
    LateStoryIsHistory(c, d);
    LateLives(c, d);
    assert h.states[|h.events|] == LateState(c, d, 12);
  }
}
