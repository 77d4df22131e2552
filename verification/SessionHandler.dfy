/** The session handler's functions on one connection, run against the adversarial
    server.  Every method keeps the process's trace conforming, so that all
    interleavings of this code are histories of the session system. */
module SessionHandler {
  import opened Calls
  import opened CStrings
  import opened ServerLog
  import opened LockProtocol
  import opened LockSafety
  import opened NodeNames
  import opened ReturnCodes
  import opened ZooServer
  import opened LockCalls
  import opened LockMutex
  import opened SessionPaths
  import opened SessionProtocol
  import opened SessionLock
  import opened SessionTrace
  import SessionStore

  /** PS_READ_FUNC's outcome; Stuck is a thread that waits for pmutex forever. */
  datatype Outcome = Success(val: string) | Failure | Stuck

  /** While the handler talks to the data node, its watcher thread may run the lock code. */
  predicate PeekAction(a: Action) {
    a.Fetch? || LockAction(a)
  }

  /** Commits of that text or removal. */
  function TextAction(text: Option<string>): Action -> bool {
    (a: Action) => StoreAction(text)(a) || LockAction(a)
  }

  /** PS_WRITE_FUNC reads, and commits nothing but val. */
  function WriteAction(val: string): Action -> bool {
    (a: Action) => PeekAction(a) || TextAction(Some(val))(a)
  }

  /** PS_GC_FUNC reads, and commits nothing but its collection. */
  predicate SweepAction(a: Action) {
    PeekAction(a) || GcAction(a)
  }

  predicate LocalAction(a: Action) {
    a.Local?
  }

  /** PS_CLOSE_FUNC, from where it starts to unlock. */
  predicate CloseAction(a: Action) {
    UnlockAction(a) || LocalAction(a)
  }

  lemma LocalStep(s: State, c: Session)
    requires c in s.clients
    ensures Next(s, Local(c)) == s
  {
    assert s.log + [] == s.log && s.clients[c := s.clients[c]] == s.clients;
  }

  /** The lock code's actions change no phase, and its deletes fit when the session is closed. */
  lemma HarmlessLock(ph: Phase)
    ensures Harmless(LockAction, ph) && Harmless(NoAction, ph)
    ensures ph == Closing ==> Harmless(UnlockAction, ph)
  {
  }

  lemma HarmlessStore(ph: Phase, text: Option<string>)
    requires ph.HasRead? || ph == Unread
    ensures Harmless(StoreAction(text), ph)
  {
  }

  lemma HarmlessGc(ph: Phase)
    ensures Harmless(GcAction, ph) && Harmless(NoAction, ph)
  {
  }

  /** The calls from one index up to another are one call and its retries: all lost their
      reply, except the last. */
  ghost predicate Asked(calls: seq<Call>, from: nat, to: nat, kind: Kind, path: string) {
    && from < to <= |calls| && calls[to - 1].rc != ZCONNECTIONLOSS
    && (forall i :: from <= i < to ==> calls[i].kind == kind && calls[i].path == path)
    && (forall i :: from <= i < to - 1 ==> calls[i].rc == ZCONNECTIONLOSS)
  }

  /** One call more: it ends the retries, or was lost like the others. */
  lemma AskedOnce(calls: seq<Call>, more: seq<Call>, from: nat, kind: Kind, path: string, rc: int)
    requires from <= |calls| && Losing(calls, from, kind, path, |calls| - from) && Called(calls, more, kind, path, rc)
    ensures more[|more| - 1].rc == rc
    ensures if rc == ZCONNECTIONLOSS then Losing(more, from, kind, path, |more| - from)
            else Asked(more, from, |more|, kind, path)
  {
  }

  lemma AskedStays(calls: seq<Call>, more: seq<Call>, from: nat, to: nat, kind: Kind, path: string)
    requires calls <= more && Asked(calls, from, to, kind, path)
    ensures Asked(more, from, to, kind, path) && more[to - 1] == calls[to - 1]
  {
    assert forall i :: 0 <= i < to ==> more[i] == calls[i];
  }

  /** The calls from the given one on were the delete of the node and its retries; the answer
      is 0 exactly when the last was answered ZOK or ZNONODE, and then the node is gone. */
  ghost predicate Released(unlocked: Ret, calls: seq<Call>, from: nat, dir: string, log: Log, node: string) {
    && Retried(calls, from, DeleteCall, node, 3)
    && (unlocked == Code(0) <==> calls[|calls| - 1].rc == ZOK || calls[|calls| - 1].rc == ZNONODE)
    && (unlocked == Code(0) ==> Absent(dir, log, node))
  }

  /** The calls from the given one on tried to store: zoo_set first if the node was said to
      exist, zoo_create otherwise and whenever a reply was lost. */
  ghost predicate Storing(calls: seq<Call>, from: nat, path: string, existed: bool) {
    && from <= |calls|
    && forall i :: from <= i < |calls| ==>
         && calls[i].kind == (if i == from && existed then SetData else CreateData) && calls[i].path == path
         && calls[i].rc == ZCONNECTIONLOSS
  }

  /** The same, up to the first reply that was not lost. */
  ghost predicate Stored(calls: seq<Call>, from: nat, path: string, existed: bool) {
    && from < |calls| && Storing(calls[..|calls| - 1], from, path, existed)
    && var last := |calls| - 1;
       && calls[last].kind == (if last == from && existed then SetData else CreateData) && calls[last].path == path
       && calls[last].rc != ZCONNECTIONLOSS
  }

  lemma StoredOnce(calls: seq<Call>, more: seq<Call>, from: nat, path: string, existed: bool)
    requires Storing(calls, from, path, existed) && |more| > 0
    requires Called(calls, more, if |calls| == from && existed then SetData else CreateData, path, more[|more| - 1].rc)
    ensures if more[|more| - 1].rc == ZCONNECTIONLOSS then Storing(more, from, path, existed)
            else Stored(more, from, path, existed)
  {
    assert more[..|more| - 1] == calls;
  }

  /** Since r the run has grown, and its last action is c's commit of text. */
  predicate Committed(r: Run, r': Run, c: Session, text: Option<string>) {
    |r'.actions| > |r.actions| && Commits(r'.actions[|r'.actions| - 1], c, text)
  }

  /** Since r the run has grown, and its last action is the given one. */
  predicate Collects(r: Run, r': Run, a: Action) {
    |r'.actions| > |r.actions| && r'.actions[|r'.actions| - 1] == a
  }

  ghost predicate CollectsExpired(r: Run, r': Run, c: Session, cutOff: int) {
    exists k :: Collects(r, r', GcDelete(c, cutOff, k))
  }

  /** What PS_GC_FUNC did about one node: one zoo_exists, and one zoo_delete exactly if that
      told that the node has outlived gc_maxlifetime. */
  ghost predicate Swept(calls: seq<Call>, more: seq<Call>, node: string, requestTime: int, gcMaxLifetime: int) {
    && |more| > |calls| && calls <= more && more[|calls|].kind == StatData && more[|calls|].path == node
    && if more[|calls|].rc == ZOK && SessionStore.Outlived(more[|calls|].mtime, requestTime, gcMaxLifetime)
       then |more| == |calls| + 2 && more[|calls| + 1].kind == DeleteData && more[|calls| + 1].path == node
       else |more| == |calls| + 1
  }

  lemma ExpiredStays(log: Log, later: Log, k: nat, cutOff: int)
    requires log <= later && k <= |log| && ExpiredAt(log, k, cutOff)
    ensures ExpiredAt(later, k, cutOff)
  {
    PrefixValue(log, later[|log|..], k);
    assert log + later[|log|..] == later;
  }

  /** What PS_READ_FUNC did after the lock: zoo_exists up to told, and then what the answer asks for. */
  ghost predicate ReadRight(calls: seq<Call>, from: nat, told: nat, path: string,
                            requestTime: int, gcMaxLifetime: int, outcome: Outcome) {
    Asked(calls, from, told, StatData, path) && FollowsUp(calls, told, path, requestTime, gcMaxLifetime, outcome)
  }

  /** An expired node is deleted, and only that; a node found is read; else it stops there. */
  ghost predicate FollowsUp(calls: seq<Call>, told: nat, path: string,
                            requestTime: int, gcMaxLifetime: int, outcome: Outcome) {
    0 < told <= |calls| && !outcome.Stuck? &&
    var stat := calls[told - 1];
    if stat.rc != ZOK then |calls| == told && outcome == Failure
    else if SessionStore.Outlived(stat.mtime, requestTime, gcMaxLifetime)
      then Asked(calls, told, |calls|, DeleteData, path) && outcome == Failure
    else Asked(calls, told, |calls|, GetData, path) && (outcome.Success? <==> calls[|calls| - 1].rc == ZOK)
  }

  /** The run has grown. */
  predicate Since(r: Run, r': Run) {
    r.states <= r'.states && r.actions <= r'.actions
  }

  class PhpSession {
    const key: string
    const mutex: Mutex
    var isLocked: bool
    var path: string
    ghost var trace: Trace
    ghost var naps: seq<Nap>

    ghost function Phase(): SessionProtocol.Phase
      requires |trace.phases| > 0
      reads this
    {
      Now(trace)
    }

    ghost predicate Traced()
      reads `trace, mutex`path, mutex`id, mutex`ownerid, mutex.server`state, mutex.server`run
    {
      mutex.Valid() && Conforms(mutex.server.run, mutex.session, trace)
    }

    ghost predicate Valid()
      reads this, mutex`path, mutex`id, mutex`ownerid, mutex.server`state, mutex.server`run
    {
      && Traced() && mutex.server.dir == LockPath(key) && mutex.server.data == DataPath(key)
      && (isLocked <==> Phase().Holding())
      && (Phase().Holding() && Phase() != Locked ==> path == DataPath(key))
    }

    /** No thread is in the lock code. */
    ghost predicate Ready()
      reads this, mutex, mutex.server
    {
      Valid() && mutex.Me().pc == Idle && !mutex.held
    }

    constructor (key: string, mutex: Mutex)
      requires mutex.Valid() && mutex.server.dir == LockPath(key) && mutex.server.data == DataPath(key)
      requires Grew(Run(mutex.server.run.states[..1], []), mutex.server.run, mutex.session, NoAction)
      ensures Valid() && this.key == key && this.mutex == mutex && !isLocked && Phase() == Out
    {
      this.key, this.mutex, isLocked, path, naps := key, mutex, false, "", [];
      ghost var start := Trace([Out], []);
      PaddedConforms(Run(mutex.server.run.states[..1], []), mutex.server.run, mutex.session, start, NoAction);
      trace := Padded(start, mutex.server.run);
    }

    /** The run has grown by actions that leave the phase alone. */
    ghost method Follow(before: Run, kind: Action -> bool)
      requires mutex.Valid() && Conforms(before, mutex.session, trace)
      requires Grew(before, mutex.server.run, mutex.session, kind) && Harmless(kind, Phase())
      modifies this`trace
      ensures Traced() && Phase() == old(Phase())
    {
      PaddedConforms(before, mutex.server.run, mutex.session, trace, kind);
      trace := Padded(trace, mutex.server.run);
    }

    /** One event of this process that calls no server: the protocol's state stays. */
    method Turn(e: Event)
      requires Traced() && ActionOf(e) == Local(mutex.session) && Fits(e, mutex.Me(), Phase())
      modifies this`trace, mutex.server`state, mutex.server`run
      ensures Traced() && Phase() == After(e, mutex.server.state.log, old(Phase()))
      ensures mutex.server.state == old(mutex.server.state)
      ensures Grew(old(mutex.server.run), mutex.server.run, mutex.session, LocalAction)
    {
      LocalStep(mutex.server.state, mutex.session);
      RecordedConforms(mutex.server.run, mutex.session, trace, e);
      trace := Recorded(trace, e, mutex.server.state.log);
      mutex.server.Step(ActionOf(e));
    }

    /** A read of the data node that was answered from the first k operations. */
    method Answered(e: Event, k: nat)
      requires Traced() && ActionOf(e) == Fetch(mutex.session, k)
      requires Enabled(mutex.server.state, ActionOf(e)) && Fits(e, mutex.Me(), Phase())
      modifies this`trace, mutex.server`state, mutex.server`run
      ensures Traced() && Phase() == After(e, old(mutex.server.state.log), old(Phase()))
      ensures mutex.server.state.log == old(mutex.server.state.log)
      ensures mutex.Me() == old(mutex.Me()).(view := k)
      ensures Grew(old(mutex.server.run), mutex.server.run, mutex.session, PeekAction)
    {
      RecordedConforms(mutex.server.run, mutex.session, trace, e);
      trace := Recorded(trace, e, mutex.server.state.log);
      mutex.server.Step(ActionOf(e));
    }

    // ---------------------------------------------------------------- the lock

    /** Time passes: other sessions act, and the watcher's thread of this process, too. */
    method Meanwhile()
      requires Traced()
      modifies this`trace, mutex, mutex.server`state, mutex.server`run
      ensures Traced() && Phase() == old(Phase())
      ensures Grew(old(mutex.server.run), mutex.server.run, mutex.session, LockAction)
      ensures old(mutex.server.state).log <= mutex.server.state.log && old(mutex.Me()).view <= mutex.Me().view
      ensures mutex.Me().pc != Idle ==> mutex.held
      ensures old(mutex.Me()).pc == GivingUp ==> mutex.Me().pc == GivingUp
    {
      ghost var before := mutex.server.run;
      mutex.server.Meanwhile(mutex.session);
      mutex.Overtaken(false);
      HarmlessLock(Phase());
      Follow(before, LockAction);
    }

    /** This thread waits for pmutex.  It gets it, unless the watcher's thread is giving up. */
    method Await()
      requires Traced()
      modifies this`trace, mutex, mutex.server`state, mutex.server`run
      ensures Traced() && Phase() == old(Phase())
      ensures Grew(old(mutex.server.run), mutex.server.run, mutex.session, LockAction)
      ensures mutex.Me().pc == Idle || mutex.Me().pc == GivingUp
      ensures mutex.held <==> mutex.Me().pc == GivingUp
      ensures old(mutex.Me()).pc == GivingUp ==> mutex.Me().pc == GivingUp
    {
      ghost var before := mutex.server.run;
      mutex.server.Await(mutex.session);
      mutex.Overtaken(true);
      HarmlessLock(Phase());
      Follow(before, LockAction);
    }

    /** usleep. */
    ghost method Sleep(micros: nat)
      modifies `naps
      ensures naps == old(naps) + [Nap(|mutex.server.calls|, micros)]
    {
      naps := naps + [Nap(|mutex.server.calls|, micros)];
    }

    /** zkr_lock_lock: it waits for pmutex.  busy says that it waits forever, because the
        watcher's thread is giving up. */
    method TryLock() returns (answer: Answer, ghost t: Tried, ghost busy: bool)
      requires Valid()
      modifies this`trace, mutex, mutex.server
      ensures Valid() && Phase() == old(Phase())
      ensures answer.Returned? ==> Ready() && (answer.owner <==> IsOwner(mutex.Me()))
      ensures old(mutex.server.run).states <= mutex.server.run.states
      ensures old(mutex.server.run).actions <= mutex.server.run.actions
      ensures busy ==> answer.Hung? && mutex.Me().pc == GivingUp && mutex.server.calls == old(mutex.server.calls)
      ensures !busy ==> Locks(mutex.server.run, mutex.server.calls, |old(mutex.server.calls)|, t.locking,
                              mutex.session, mutex.server.dir)
      ensures !busy ==> old(mutex.server.calls) < mutex.server.calls && t.locking.End() == |mutex.server.calls|
      ensures !busy ==> (answer.Hung? <==> EndsInFailedWatch(mutex.server.calls))
      ensures !busy ==> |old(mutex.server.run).actions| <= t.locking.begin
      ensures !busy && answer == Returned(false) ==> Refused(mutex.server.run, mutex.server.calls, t, mutex.session)
      ensures old(mutex.Me()).pc == GivingUp ==> busy
    {
      hide Locks;
      Await();
      busy := mutex.held;
      t := Tried(Locking(0, 0, []), 0);
      if mutex.held {
        return Hung, t, busy;
      }
      ghost var before := mutex.server.run;
      ghost var l;
      answer, l := mutex.Lock();
      HarmlessLock(Phase());
      Follow(before, LockAction);
      t := Tried(l, |mutex.server.run.actions|);
      Concludes(mutex.server.run, mutex.server.calls, |old(mutex.server.calls)|, t, mutex.session, mutex.server.dir);
    }

    /** All attempts are used up, and the node stays queued. */
    method Lost()
      requires Ready() && Phase() == Waiting
      modifies `trace, mutex.server`state, mutex.server`run
      ensures Ready() && Phase() == Out && mutex.server.state == old(mutex.server.state)
      ensures Grew(old(mutex.server.run), mutex.server.run, mutex.session, LocalAction)
    {
      Turn(Abandon(mutex.session));
    }

    /** zkr_lock_lock answered true. */
    method Won()
      requires Ready() && Phase() == Waiting && IsOwner(mutex.Me())
      modifies this`trace, this`isLocked, mutex.server`state, mutex.server`run
      ensures Ready() && Phase() == Locked && mutex.server.state == old(mutex.server.state)
      ensures Grew(old(mutex.server.run), mutex.server.run, mutex.session, LocalAction)
    {
      Turn(Acquire(mutex.session));
      isLocked := true;
    }

    /** One pass of the loop around zkr_lock_lock, after those of g; slept is the sleep before all. */
    method Attempt(ghost g: Trying, wait: int, ghost slept: seq<Nap>) returns (answer: Answer, ghost after: Trying)
      requires Valid() && Phase() == Waiting && !g.busy && g.to == |mutex.server.calls| && naps == slept + g.naps
      requires Refusals(mutex.server.run, mutex.server.calls, g, |g.tries|, wait, mutex.session, mutex.server.dir)
      modifies this, mutex, mutex.server
      ensures Valid() && Phase() == if answer == Returned(true) then Locked else Waiting
      ensures answer.Returned? ==> Ready() && (answer.owner <==> IsOwner(mutex.Me()))
      ensures after.busy ==> mutex.Me().pc == GivingUp
      ensures after.from == g.from && after.to == |mutex.server.calls| && naps == slept + after.naps
      ensures after.Count() == g.Count() + 1 && |after.tries| == |g.tries| + if after.busy then 0 else 1
      ensures Refusals(mutex.server.run, mutex.server.calls, after, Refusing(after, answer), wait,
                       mutex.session, mutex.server.dir)
      ensures answer.Hung? <==> after.busy || EndsInFailedWatch(mutex.server.calls)
    {
      hide Locks, Grew, Conforms, Refused, Refusals, EndsInFailedWatch;
      ghost var run, calls := mutex.server.run, mutex.server.calls;
      ghost var t, busy;
      answer, t, busy := TryLock();
      if busy {
        RefusalsStay(run, mutex.server.run, calls, calls, g, |g.tries|, wait, mutex.session, mutex.server.dir);
        BusyTry(mutex.server.run, calls, g, |g.tries|, wait, mutex.session, mutex.server.dir);
        after := g.(busy := true);
      } else {
        OneMoreTry(run, mutex.server.run, calls, mutex.server.calls, g, t, wait, mutex.session, mutex.server.dir);
        after := AfterTry(g, t, []);
      }
      if answer == Returned(true) {
        run, calls := mutex.server.run, mutex.server.calls;
        Won();
        RefusalsStay(run, mutex.server.run, calls, calls, after, |g.tries|, wait, mutex.session, mutex.server.dir);
      } else if answer == Returned(false) {
        if wait > 0 {
          Sleep(wait);
          after := AfterTry(g, t, [Nap(t.locking.End(), wait)]);
        }
      }
    }

    /** The loop. */
    method Attempts(attempts: int, wait: int) returns (answer: Answer, ghost g: Trying)
      requires Valid() && Phase() == Waiting
      modifies this, mutex, mutex.server
      ensures Valid() && Phase() == (if answer.Hung? then Waiting else if answer.owner then Locked else Out)
      ensures answer.Returned? ==> Ready() && (answer.owner <==> IsOwner(mutex.Me()))
      ensures g.busy ==> mutex.Me().pc == GivingUp
      ensures g.from == |old(mutex.server.calls)| && g.to == |mutex.server.calls| && naps == old(naps) + g.naps
      ensures LockTried(mutex.server.run, mutex.server.calls, g, answer, if attempts > 1 then attempts else 1, wait,
                        mutex.session, mutex.server.dir)
    {
      hide Refusals, EndsInFailedWatch;
      var left, again := attempts, true;
      answer, g := Returned(false), Trying(|mutex.server.calls|, |mutex.server.calls|, [], [], false);
      NoTries(mutex.server.run, mutex.server.calls, g, wait, mutex.session, mutex.server.dir);
      while again
        invariant Valid() && Phase() == Waiting && answer == Returned(false) && !g.busy && (g.tries != [] ==> Ready())
        invariant left == attempts - |g.tries| && (again <==> g.tries == [] || left > 0)
        invariant |g.tries| <= if attempts > 1 then attempts else 1
        invariant g.tries != [] ==> !IsOwner(mutex.Me()) && !EndsInFailedWatch(mutex.server.calls)
        invariant g.from == |old(mutex.server.calls)| && g.to == |mutex.server.calls| && naps == old(naps) + g.naps
        invariant Refusals(mutex.server.run, mutex.server.calls, g, |g.tries|, wait, mutex.session, mutex.server.dir)
        decreases (if attempts > 1 then attempts else 1) - |g.tries|
      {
        answer, g := Attempt(g, wait, old(naps));
        if answer != Returned(false) {
          assert mutex.server.calls[..g.to] == mutex.server.calls;
          return;
        }
        left := left - 1;
        again := left > 0;
      }
      ghost var run, calls := mutex.server.run, mutex.server.calls;
      Lost();
      RefusalsStay(run, mutex.server.run, calls, calls, g, |g.tries|, wait, mutex.session, mutex.server.dir);
      assert mutex.server.calls[..g.to] == calls;
    }

    /** php_zookeeper_sess_lock, for any lock_wait and any max_execution_time that does not overflow. */
    method SessLock(maxExecutionTime: int, lockWait: int) returns (answer: Answer, ghost g: Trying)
      requires Ready() && Phase() == Out
      requires MaxWait(maxExecutionTime) * 1000000 <= LONG_MAX
      modifies this, mutex, mutex.server
      ensures Valid() && Phase() == (if answer.Hung? then Waiting else if answer.owner then Locked else Out)
      ensures answer.Returned? ==> Ready() && (answer.owner <==> IsOwner(mutex.Me()))
      ensures g.busy ==> mutex.Me().pc == GivingUp
      ensures g.from == |old(mutex.server.calls)| && g.to == |mutex.server.calls| && naps == old(naps) + g.naps
      ensures LockTried(mutex.server.run, mutex.server.calls, g, answer, Tries(maxExecutionTime, lockWait),
                        Wait(lockWait), mutex.session, mutex.server.dir)
      ensures InBudget(MaxWait(maxExecutionTime) * 1000000, Wait(lockWait), answer, g.Count(), Slept(g.naps))
    {
      RecordedConforms(mutex.server.run, mutex.session, trace, Begin(mutex.session));
      trace := Recorded(trace, Begin(mutex.session), mutex.server.state.log);
      mutex.Init(LockPath(key));
      var wait := Wait(lockWait);
      var total := MaxWait(maxExecutionTime) * 1000000;
      var attempts := CDiv(total, wait);
      answer, g := Attempts(attempts, wait);
      TriedInBudget(mutex.server.run, mutex.server.calls, g, answer, total, wait, mutex.session, mutex.server.dir);
    }

    /** zkr_lock_unlock with pmutex free: the deletes, or nothing to delete. */
    method Unlocked() returns (unlocked: Ret)
      requires Traced() && Phase() == Closing && mutex.Me().pc == Idle && !mutex.held
      modifies this`trace, mutex, mutex.server
      ensures Traced() && Phase() == Out && !mutex.held && mutex.Me().pc == Idle && !unlocked.Blocked?
      ensures Grew(old(mutex.server.run), mutex.server.run, mutex.session, CloseAction)
      ensures UnlockRight(NameOf(old(mutex.Me()).id), old(mutex.server.calls), unlocked)
    {
      ghost var before := mutex.server.run;
      unlocked := mutex.Unlock();
      HarmlessLock(Closing);
      Follow(before, UnlockAction);
      ghost var unlock := mutex.server.run;
      Turn(Closed(mutex.session));
      GrewBoth(before, unlock, mutex.server.run, mutex.session, UnlockAction, LocalAction, CloseAction);
    }

    /** With a node, its path was deleted, and the delete retried; without one, nothing was. */
    ghost predicate UnlockRight(id: Option<string>, calls: seq<Call>, unlocked: Ret)
      reads mutex.server
    {
      match id
      case None => unlocked == Code(ZSYSTEMERROR) && mutex.server.calls == calls
      case Some(name) =>
        Released(unlocked, mutex.server.calls, |calls|, mutex.server.dir, mutex.server.state.log,
                 mutex.server.dir + "/" + name)
    }

    /** zkr_lock_unlock on the session's lock: it waits for pmutex, forever exactly if the
        watcher's thread is giving up.  before is the run when the waiting ends. */
    method Release() returns (unlocked: Ret, ghost before: Run)
      requires Traced() && Phase() == Closing
      modifies this`trace, mutex, mutex.server
      ensures Traced() && Phase() == (if unlocked.Blocked? then Closing else Out)
      ensures !unlocked.Blocked? ==> !mutex.held && mutex.Me().pc == Idle
      ensures Unlocks(old(mutex.server.run), before, old(mutex.server.calls), unlocked)
    {
      Await();
      before := mutex.server.run;
      unlocked := Blocked;
      if !mutex.held {
        unlocked := Unlocked();
      }
    }

    /** Up to the run before the process waited for pmutex, and after it, it only unlocked. */
    ghost predicate Unlocks(start: Run, before: Run, calls: seq<Call>, unlocked: Ret)
      reads mutex.server
    {
      && Grew(start, before, mutex.session, LockAction) && |before.states| > |before.actions|
      && mutex.session in Last(before).clients
      && var me := Last(before).clients[mutex.session];
         && (me.pc == Idle || me.pc == GivingUp) && (unlocked.Blocked? <==> me.pc == GivingUp)
         && if unlocked.Blocked? then mutex.server.run == before && mutex.server.calls == calls
            else
              && Grew(before, mutex.server.run, mutex.session, CloseAction)
              && UnlockRight(NameOf(me.id), calls, unlocked)
    }

    /** PS_CLOSE_FUNC. */
    method Close() returns (unlocked: Ret, ghost start: Run, ghost before: Run)
      requires Valid() && (Phase() == Out || Phase().Holding())
      modifies this, mutex, mutex.server
      ensures if unlocked.Blocked? then Traced() && Phase() == Closing && old(isLocked)
              else Valid() && Phase() == Out && (old(isLocked) ==> Ready())
      ensures !old(isLocked) ==>
                && unlocked == Code(ZOK)
                && mutex.server.run == old(mutex.server.run) && mutex.server.calls == old(mutex.server.calls)
      ensures old(isLocked) ==>
                && Grew(old(mutex.server.run), start, mutex.session, LocalAction)
                && Unlocks(start, before, old(mutex.server.calls), unlocked)
    {
      unlocked, start, before := Code(ZOK), mutex.server.run, mutex.server.run;
      if isLocked {
        Turn(SessionProtocol.Close(mutex.session));
        start := mutex.server.run;
        unlocked, before := Release();
        if unlocked.Blocked? {
          return;
        }
        isLocked := false;
      }
    }

    // ---------------------------------------------------------------- the data node

    /** One zoo_exists in PS_READ_FUNC. */
    method StatOnce() returns (rc: int, length: nat, mtime: int)
      requires Valid() && Phase() == Locked && path == DataPath(key)
      modifies this`trace, mutex, mutex.server
      ensures Since(old(mutex.server.run), mutex.server.run)
      ensures Valid() && mutex.server.losses == old(mutex.server.losses) - if rc == ZCONNECTIONLOSS then 1 else 0
      ensures Called(old(mutex.server.calls), mutex.server.calls, StatData, path, rc)
      ensures rc == ZOK ==> mutex.server.calls[|mutex.server.calls| - 1].mtime == mtime
      ensures rc == ZOK ==> Phase().Statted? && Phase().len == length && Phase().mtime == mtime
      ensures rc == ZNONODE ==> Phase().HasRead? && Phase().value == None
      ensures rc != ZOK && rc != ZNONODE ==> Phase() == Locked
    {
      Meanwhile();
      ghost var before := mutex.server.run;
      var value, k;
      rc, value, k := mutex.server.ReadData(mutex.session, StatData, path);
      HarmlessLock(Locked);
      Follow(before, NoAction);
      length, mtime := 0, 0;
      if value.Some? {
        length, mtime := |value.value.text|, value.value.mtime;
      }
      if rc == ZOK || rc == ZNONODE {
        Answered(Stat(mutex.session, k), k);
      }
    }

    /** One zoo_get into a buffer of the length that zoo_exists told. */
    method GetOnce(length: nat) returns (rc: int, val: string)
      requires Valid() && Phase().Statted? && Phase().len == length
      modifies this`trace, mutex, mutex.server
      ensures Since(old(mutex.server.run), mutex.server.run)
      ensures Valid() && mutex.server.losses == old(mutex.server.losses) - if rc == ZCONNECTIONLOSS then 1 else 0
      ensures Called(old(mutex.server.calls), mutex.server.calls, GetData, path, rc)
      ensures rc == ZOK ==> Phase().HasRead? && TextOf(Phase().value) == Some(val)
      ensures rc == ZNONODE ==> Phase() == Unread
      ensures rc != ZOK && rc != ZNONODE ==> Phase() == old(Phase())
    {
      Meanwhile();
      ghost var before := mutex.server.run;
      var value, k;
      rc, value, k := mutex.server.ReadData(mutex.session, GetData, path);
      HarmlessLock(Phase());
      Follow(before, NoAction);
      val := if value.Some? then Cut(value.value.text, length) else "";
      if rc == ZOK || rc == ZNONODE {
        Answered(Get(mutex.session, k), k);
      }
    }

    /** One zoo_exists in PS_WRITE_FUNC or PS_GC_FUNC. */
    method PeekOnce(node: string) returns (rc: int, value: Option<Znode>, k: nat)
      requires Valid() && node == DataPath(key)
      modifies this`trace, mutex, mutex.server
      ensures Valid() && mutex.server.losses == old(mutex.server.losses) - if rc == ZCONNECTIONLOSS then 1 else 0
      ensures Called(old(mutex.server.calls), mutex.server.calls, StatData, node, rc)
      ensures Phase() == old(Phase())
      ensures Grew(old(mutex.server.run), mutex.server.run, mutex.session, PeekAction)
      ensures rc == ZOK ==>
                && k <= |mutex.server.state.log| && k <= mutex.Me().view
                && value.Some? && value == ValueAt(mutex.server.state.log, k)
                && mutex.server.calls[|mutex.server.calls| - 1].mtime == value.value.mtime
    {
      ghost var start := mutex.server.run;
      Meanwhile();
      ghost var before := mutex.server.run;
      rc, value, k := mutex.server.ReadData(mutex.session, StatData, node);
      HarmlessLock(Phase());
      Follow(before, NoAction);
      ghost var read := mutex.server.run;
      GrewWider(start, before, mutex.session, LockAction, PeekAction);
      GrewOn(start, before, read, mutex.session, PeekAction);
      if rc == ZOK || rc == ZNONODE {
        Answered(Peek(mutex.session, k), k);
        GrewOn(start, read, mutex.server.run, mutex.session, PeekAction);
      }
    }

    /** One zoo_create, zoo_set or zoo_delete. */
    method StoreOnce(kind: Kind, text: Option<string>) returns (rc: int)
      requires Valid() && (Phase().HasRead? || Phase() == Unread) && kind.WritesData()
      modifies this`trace, mutex, mutex.server
      ensures Valid() && mutex.server.losses == old(mutex.server.losses) - if rc == ZCONNECTIONLOSS then 1 else 0
      ensures Called(old(mutex.server.calls), mutex.server.calls, kind, path, rc)
      ensures Phase() == old(Phase())
      ensures Grew(old(mutex.server.run), mutex.server.run, mutex.session, TextAction(text))
      ensures rc == ZOK ==> Committed(old(mutex.server.run), mutex.server.run, mutex.session, text)
    {
      ghost var start := mutex.server.run;
      Meanwhile();
      ghost var before := mutex.server.run;
      rc := mutex.server.StoreData(mutex.session, kind, path, text);
      HarmlessStore(Phase(), text);
      Follow(before, StoreAction(text));
      GrewBoth(start, before, mutex.server.run, mutex.session, LockAction, StoreAction(text), TextAction(text));
    }

    /** do { zoo_exists } while in PS_READ_FUNC. */
    method RetryStat() returns (rc: int, length: nat, mtime: int)
      requires Valid() && Phase() == Locked && path == DataPath(key)
      modifies this`trace, mutex, mutex.server
      ensures Since(old(mutex.server.run), mutex.server.run)
      ensures Valid() && old(mutex.server.calls) <= mutex.server.calls
      ensures Asked(mutex.server.calls, |old(mutex.server.calls)|, |mutex.server.calls|, StatData, path)
      ensures rc == mutex.server.calls[|mutex.server.calls| - 1].rc
      ensures rc == ZOK ==> mutex.server.calls[|mutex.server.calls| - 1].mtime == mtime
      ensures rc == ZOK ==> Phase().Statted? && Phase().len == length && Phase().mtime == mtime
      ensures rc == ZNONODE ==> Phase().HasRead? && Phase().value == None
      ensures rc != ZOK && rc != ZNONODE ==> Phase() == Locked
    {
      var retryCount, more := 3, true;
      ghost var from := |mutex.server.calls|;
      rc, length, mtime := ZOK, 0, 0;
      while more
        invariant Since(old(mutex.server.run), mutex.server.run)
        invariant Valid() && old(mutex.server.calls) <= mutex.server.calls && (more ==> retryCount == 3)
        invariant more ==> Phase() == Locked
        invariant more ==> Losing(mutex.server.calls, from, StatData, path, |mutex.server.calls| - from)
        invariant !more ==> Asked(mutex.server.calls, from, |mutex.server.calls|, StatData, path)
        invariant !more ==> rc == mutex.server.calls[|mutex.server.calls| - 1].rc
        invariant !more && rc == ZOK ==> mutex.server.calls[|mutex.server.calls| - 1].mtime == mtime
        invariant !more && rc == ZOK ==> Phase().Statted? && Phase().len == length && Phase().mtime == mtime
        invariant !more && rc == ZNONODE ==> Phase().HasRead? && Phase().value == None
        invariant !more && rc != ZOK && rc != ZNONODE ==> Phase() == Locked
        decreases more, mutex.server.losses
      {
        ghost var calls := mutex.server.calls;
        rc, length, mtime := StatOnce();
        AskedOnce(calls, mutex.server.calls, from, StatData, path, rc);
        retryCount := retryCount + 1;
        more := rc == ZCONNECTIONLOSS && retryCount != 0;
        if rc == ZCONNECTIONLOSS {
          retryCount := retryCount - 1;
        }
      }
    }

    /** do { zoo_get } while. */
    method RetryGet(length: nat) returns (rc: int, val: string)
      requires Valid() && Phase().Statted? && Phase().len == length
      modifies this`trace, mutex, mutex.server
      ensures Since(old(mutex.server.run), mutex.server.run)
      ensures Valid() && old(mutex.server.calls) <= mutex.server.calls
      ensures Asked(mutex.server.calls, |old(mutex.server.calls)|, |mutex.server.calls|, GetData, path)
      ensures rc == mutex.server.calls[|mutex.server.calls| - 1].rc
      ensures rc == ZOK ==> Phase().HasRead? && TextOf(Phase().value) == Some(val)
      ensures rc == ZNONODE ==> Phase() == Unread
      ensures rc != ZOK && rc != ZNONODE ==> Phase() == old(Phase())
    {
      var retryCount, more := 3, true;
      ghost var from := |mutex.server.calls|;
      rc, val := ZOK, "";
      while more
        invariant Since(old(mutex.server.run), mutex.server.run)
        invariant Valid() && old(mutex.server.calls) <= mutex.server.calls && (more ==> retryCount == 3)
        invariant more ==> Losing(mutex.server.calls, from, GetData, path, |mutex.server.calls| - from)
        invariant !more ==> Asked(mutex.server.calls, from, |mutex.server.calls|, GetData, path)
        invariant !more ==> rc == mutex.server.calls[|mutex.server.calls| - 1].rc
        invariant more || (rc != ZOK && rc != ZNONODE) ==> Phase() == old(Phase())
        invariant !more && rc == ZOK ==> Phase().HasRead? && TextOf(Phase().value) == Some(val)
        invariant !more && rc == ZNONODE ==> Phase() == Unread
        decreases more, mutex.server.losses
      {
        ghost var calls := mutex.server.calls;
        rc, val := GetOnce(length);
        AskedOnce(calls, mutex.server.calls, from, GetData, path, rc);
        retryCount := retryCount + 1;
        more := rc == ZCONNECTIONLOSS && retryCount != 0;
        if rc == ZCONNECTIONLOSS {
          retryCount := retryCount - 1;
        }
      }
    }

    /** do { zoo_exists } while in PS_WRITE_FUNC. */
    method RetryPeek() returns (rc: int)
      requires Valid() && (Phase().HasRead? || Phase() == Unread)
      modifies this`trace, mutex, mutex.server
      ensures Valid() && old(mutex.server.calls) <= mutex.server.calls
      ensures Asked(mutex.server.calls, |old(mutex.server.calls)|, |mutex.server.calls|, StatData, path)
      ensures rc == mutex.server.calls[|mutex.server.calls| - 1].rc
      ensures Phase() == old(Phase())
      ensures Grew(old(mutex.server.run), mutex.server.run, mutex.session, PeekAction)
    {
      var retryCount, more := 3, true;
      ghost var from := |mutex.server.calls|;
      rc := ZOK;
      while more
        invariant Valid() && old(mutex.server.calls) <= mutex.server.calls && (more ==> retryCount == 3)
        invariant more ==> Losing(mutex.server.calls, from, StatData, path, |mutex.server.calls| - from)
        invariant !more ==> Asked(mutex.server.calls, from, |mutex.server.calls|, StatData, path)
        invariant !more ==> rc == mutex.server.calls[|mutex.server.calls| - 1].rc
        invariant Phase() == old(Phase())
        invariant Grew(old(mutex.server.run), mutex.server.run, mutex.session, PeekAction)
        decreases more, mutex.server.losses
      {
        ghost var calls, before := mutex.server.calls, mutex.server.run;
        var value, k;
        rc, value, k := PeekOnce(path);
        AskedOnce(calls, mutex.server.calls, from, StatData, path, rc);
        GrewOn(old(mutex.server.run), before, mutex.server.run, mutex.session, PeekAction);
        retryCount := retryCount + 1;
        more := rc == ZCONNECTIONLOSS && retryCount != 0;
        if rc == ZCONNECTIONLOSS {
          retryCount := retryCount - 1;
        }
      }
    }

    /** do { zoo_delete } while, in PS_READ_FUNC for an expired session and in PS_DESTROY_FUNC. */
    method RetryRemove() returns (rc: int)
      requires Valid() && (Phase().HasRead? || Phase() == Unread)
      modifies this`trace, mutex, mutex.server
      ensures Valid() && old(mutex.server.calls) <= mutex.server.calls
      ensures Asked(mutex.server.calls, |old(mutex.server.calls)|, |mutex.server.calls|, DeleteData, path)
      ensures rc == mutex.server.calls[|mutex.server.calls| - 1].rc
      ensures Phase() == old(Phase())
      ensures Grew(old(mutex.server.run), mutex.server.run, mutex.session, TextAction(None))
      ensures rc == ZOK ==> Committed(old(mutex.server.run), mutex.server.run, mutex.session, None)
    {
      var retryCount, more := 3, true;
      ghost var from := |mutex.server.calls|;
      rc := ZOK;
      while more
        invariant Valid() && old(mutex.server.calls) <= mutex.server.calls && (more ==> retryCount == 3)
        invariant more ==> Losing(mutex.server.calls, from, DeleteData, path, |mutex.server.calls| - from)
        invariant !more ==> Asked(mutex.server.calls, from, |mutex.server.calls|, DeleteData, path)
        invariant !more ==> rc == mutex.server.calls[|mutex.server.calls| - 1].rc
        invariant Phase() == old(Phase())
        invariant Grew(old(mutex.server.run), mutex.server.run, mutex.session, TextAction(None))
        invariant !more && rc == ZOK ==> Committed(old(mutex.server.run), mutex.server.run, mutex.session, None)
        decreases more, mutex.server.losses
      {
        ghost var calls, before := mutex.server.calls, mutex.server.run;
        rc := StoreOnce(DeleteData, None);
        AskedOnce(calls, mutex.server.calls, from, DeleteData, path, rc);
        GrewOn(old(mutex.server.run), before, mutex.server.run, mutex.session, TextAction(None));
        retryCount := retryCount + 1;
        more := rc == ZCONNECTIONLOSS && retryCount != 0;
        if rc == ZCONNECTIONLOSS {
          retryCount := retryCount - 1;
        }
      }
    }

    /** PS_READ_FUNC fails after an answer that no phase records. */
    method Fails()
      requires Valid() && (Phase() == Locked || Phase().Statted?) && path == DataPath(key)
      modifies this`trace, mutex.server`state, mutex.server`run
      ensures Since(old(mutex.server.run), mutex.server.run)
      ensures Valid() && Phase() == Unread
    {
      Turn(ReadFail(mutex.session));
    }

    /** The run's last action is this process's removal of the data node. */
    ghost predicate EndsInRemoval()
      reads mutex.server`run
    {
      var actions := mutex.server.run.actions;
      |actions| > 0 && Commits(actions[|actions| - 1], mutex.session, None)
    }

    /** If the last call is a zoo_delete answered ZOK, then the node was removed just now. */
    ghost predicate RemovalCommitted()
      reads mutex.server`run, mutex.server`calls
    {
      var calls := mutex.server.calls;
      |calls| > 0 && calls[|calls| - 1].kind == DeleteData && calls[|calls| - 1].rc == ZOK ==> EndsInRemoval()
    }

    /** PS_READ_FUNC on an expired session: the node is deleted. */
    method Expire()
      requires Valid() && Phase().Statted? && path == DataPath(key)
      modifies this`trace, mutex, mutex.server
      ensures Since(old(mutex.server.run), mutex.server.run)
      ensures Valid() && Phase() == Unread && old(mutex.server.calls) <= mutex.server.calls
      ensures Asked(mutex.server.calls, |old(mutex.server.calls)|, |mutex.server.calls|, DeleteData, path)
      ensures mutex.server.calls[|mutex.server.calls| - 1].rc == ZOK ==> EndsInRemoval()
    {
      Fails();
      var rc := RetryRemove();
    }

    /** The zoo_get of PS_READ_FUNC. */
    method Fetched(length: nat) returns (outcome: Outcome)
      requires Valid() && Phase().Statted? && Phase().len == length
      modifies this`trace, mutex, mutex.server
      ensures Since(old(mutex.server.run), mutex.server.run)
      ensures Valid() && old(mutex.server.calls) <= mutex.server.calls && !outcome.Stuck?
      ensures Asked(mutex.server.calls, |old(mutex.server.calls)|, |mutex.server.calls|, GetData, path)
      ensures outcome.Success? <==> mutex.server.calls[|mutex.server.calls| - 1].rc == ZOK
      ensures if outcome.Success? then Phase().HasRead? && TextOf(Phase().value) == Some(outcome.val)
              else Phase() == Unread
    {
      var rc, val := RetryGet(length);
      outcome := Success(val);
      if rc != ZOK {
        outcome := Failure;
        if rc != ZNONODE {
          Fails();
        }
      }
    }

    /** PS_READ_FUNC once zoo_exists was answered. */
    method FollowUp(rc: int, length: nat, mtime: int, requestTime: int, gcMaxLifetime: int) returns (outcome: Outcome)
      requires Valid() && path == DataPath(key) && |mutex.server.calls| > 0
      requires mutex.server.calls[|mutex.server.calls| - 1].rc == rc
      requires mutex.server.calls[|mutex.server.calls| - 1].kind == StatData
      requires rc == ZOK ==> mutex.server.calls[|mutex.server.calls| - 1].mtime == mtime
      requires if rc == ZOK then Phase().Statted? && Phase().len == length
               else if rc == ZNONODE then Phase().HasRead? && Phase().value == None else Phase() == Locked
      modifies this`trace, mutex, mutex.server
      ensures Since(old(mutex.server.run), mutex.server.run)
      ensures Valid() && old(mutex.server.calls) <= mutex.server.calls
      ensures FollowsUp(mutex.server.calls, |old(mutex.server.calls)|, path, requestTime, gcMaxLifetime, outcome)
      ensures if outcome.Success? then Phase().HasRead? && TextOf(Phase().value) == Some(outcome.val)
              else Phase() == Unread || (Phase().HasRead? && Phase().value == None)
      ensures RemovalCommitted()
    {
      outcome := Failure;
      if rc != ZOK {
        if rc != ZNONODE {
          Fails();
        }
      } else if mtime < SessionStore.CutOff(requestTime, gcMaxLifetime) {
        Expire();
      } else {
        outcome := Fetched(length);
      }
    }

    /** PS_READ_FUNC after the lock. */
    method ReadLocked(requestTime: int, gcMaxLifetime: int) returns (outcome: Outcome, ghost told: nat)
      requires Valid() && Phase() == Locked && path == DataPath(key)
      modifies this`trace, mutex, mutex.server
      ensures Since(old(mutex.server.run), mutex.server.run)
      ensures Valid() && (Phase() == Unread || Phase().HasRead?) && old(mutex.server.calls) <= mutex.server.calls
      ensures ReadRight(mutex.server.calls, |old(mutex.server.calls)|, told, path, requestTime, gcMaxLifetime, outcome)
      ensures outcome.Success? ==> Phase().HasRead? && TextOf(Phase().value) == Some(outcome.val)
      ensures !outcome.Success? && Phase().HasRead? ==> Phase().value == None
      ensures RemovalCommitted()
    {
      var rc, length, mtime;
      rc, length, mtime := RetryStat();
      told := |mutex.server.calls|;
      ghost var calls := mutex.server.calls;
      outcome := FollowUp(rc, length, mtime, requestTime, gcMaxLifetime);
      AskedStays(calls, mutex.server.calls, |old(mutex.server.calls)|, told, StatData, path);
    }

    /** PS_READ_FUNC.  It asks for the lock as g says; told is where its zoo_exists are answered. */
    method Read(maxExecutionTime: int, lockWait: int, requestTime: int, gcMaxLifetime: int)
      returns (outcome: Outcome, answer: Answer, ghost g: Trying, ghost told: nat)
      requires Ready() && Phase() == Out && MaxWait(maxExecutionTime) * 1000000 <= LONG_MAX
      modifies this, mutex, mutex.server
      ensures Valid() && g.from == |old(mutex.server.calls)| && naps == old(naps) + g.naps
      ensures LockTried(mutex.server.run, mutex.server.calls, g, answer, Tries(maxExecutionTime, lockWait),
                        Wait(lockWait), mutex.session, mutex.server.dir)
      ensures InBudget(MaxWait(maxExecutionTime) * 1000000, Wait(lockWait), answer, g.Count(), Slept(g.naps))
      ensures isLocked <==> answer == Returned(true)
      ensures answer.Hung? ==> outcome == Stuck && Phase() == Waiting && |mutex.server.calls| == g.to
      ensures answer == Returned(false) ==> outcome == Failure && Phase() == Out && |mutex.server.calls| == g.to
      ensures isLocked ==>
                && (Phase() == Unread || Phase().HasRead?)
                && ReadRight(mutex.server.calls, g.to, told, path, requestTime, gcMaxLifetime, outcome)
                && RemovalCommitted()
      ensures outcome.Success? ==> Phase().HasRead? && TextOf(Phase().value) == Some(outcome.val)
    {
      hide LockTried, InBudget, ReadRight, Conforms;
      answer, g := SessLock(maxExecutionTime, lockWait);
      outcome, told := if answer.Hung? then Stuck else Failure, 0;
      if answer == Returned(true) {
        path := DataPath(key);
        ghost var run, calls := mutex.server.run, mutex.server.calls;
        outcome, told := ReadLocked(requestTime, gcMaxLifetime);
        LockTriedStays(run, mutex.server.run, calls, mutex.server.calls, g, answer,
                       Tries(maxExecutionTime, lockWait), Wait(lockWait), mutex.session, mutex.server.dir);
      }
    }

    /** The zoo_delete of PS_GC_FUNC, after a zoo_exists answered from the first k operations. */
    method CollectOnce(node: string, cutOff: int, k: nat) returns (rc: int)
      requires Valid() && node == DataPath(key)
      requires k <= |mutex.server.state.log| && k <= mutex.Me().view && ExpiredAt(mutex.server.state.log, k, cutOff)
      modifies this`trace, mutex.server
      ensures Valid() && Phase() == old(Phase())
      ensures Grew(old(mutex.server.run), mutex.server.run, mutex.session, GcAction)
      ensures Called(old(mutex.server.calls), mutex.server.calls, DeleteData, node, rc)
      ensures rc == ZOK ==> Collects(old(mutex.server.run), mutex.server.run, GcDelete(mutex.session, cutOff, k))
    {
      ghost var before := mutex.server.run;
      rc := mutex.server.CollectData(mutex.session, node, cutOff, k);
      HarmlessGc(Phase());
      Follow(before, GcAction);
    }

    /** The same, some time later. */
    method Sweep(node: string, cutOff: int, k: nat) returns (rc: int)
      requires Valid() && node == DataPath(key)
      requires k <= |mutex.server.state.log| && k <= mutex.Me().view && ExpiredAt(mutex.server.state.log, k, cutOff)
      modifies this`trace, mutex, mutex.server
      ensures Valid() && Phase() == old(Phase())
      ensures Grew(old(mutex.server.run), mutex.server.run, mutex.session, SweepAction)
      ensures Called(old(mutex.server.calls), mutex.server.calls, DeleteData, node, rc)
      ensures rc == ZOK ==> Collects(old(mutex.server.run), mutex.server.run, GcDelete(mutex.session, cutOff, k))
    {
      ghost var start, log := mutex.server.run, mutex.server.state.log;
      Meanwhile();
      ghost var before := mutex.server.run;
      ExpiredStays(log, mutex.server.state.log, k, cutOff);
      rc := CollectOnce(node, cutOff, k);
      GrewBoth(start, before, mutex.server.run, mutex.session, LockAction, GcAction, SweepAction);
    }

    /** PS_GC_FUNC on this session's data node, in this process at any time: it asks once, and
        deletes once exactly if it is told that the node is expired. */
    method Gc(requestTime: int, gcMaxLifetime: int)
      requires Valid()
      modifies this`trace, mutex, mutex.server
      ensures Valid() && Phase() == old(Phase())
      ensures Grew(old(mutex.server.run), mutex.server.run, mutex.session, SweepAction)
      ensures Swept(old(mutex.server.calls), mutex.server.calls, DataPath(key), requestTime, gcMaxLifetime)
      ensures var last := mutex.server.calls[|mutex.server.calls| - 1];
              last.kind == DeleteData && last.rc == ZOK ==>
                CollectsExpired(old(mutex.server.run), mutex.server.run, mutex.session,
                                (requestTime - gcMaxLifetime) * 1000)
    {
      var node, cutOff := DataPath(key), SessionStore.CutOff(requestTime, gcMaxLifetime);
      var rc, value, k := PeekOnce(node);
      ghost var peeked := mutex.server.run;
      GrewWider(old(mutex.server.run), peeked, mutex.session, PeekAction, SweepAction);
      if rc == ZOK && value.value.mtime < cutOff {
        rc := Sweep(node, cutOff, k);
        GrewOn(old(mutex.server.run), peeked, mutex.server.run, mutex.session, SweepAction);
      }
    }

    /** PS_DESTROY_FUNC. */
    method Destroy() returns (ok: bool)
      requires Valid() && (Phase().HasRead? || Phase() == Unread)
      modifies this`trace, mutex, mutex.server
      ensures Valid() && Phase() == old(Phase())
      ensures Grew(old(mutex.server.run), mutex.server.run, mutex.session, TextAction(None))
      ensures Asked(mutex.server.calls, |old(mutex.server.calls)|, |mutex.server.calls|, DeleteData, path)
      ensures ok <==> mutex.server.calls[|mutex.server.calls| - 1].rc == ZOK
      ensures ok ==> Committed(old(mutex.server.run), mutex.server.run, mutex.session, None)
    {
      var rc := RetryRemove();
      ok := rc == ZOK;
    }

    /** The store loop: after a loss status is not ZOK, so only zoo_create is tried again. */
    method StoreLoop(val: string, existsStatus: int) returns (status: int)
      requires Valid() && (Phase().HasRead? || Phase() == Unread)
      modifies this`trace, mutex, mutex.server
      ensures Valid() && Phase() == old(Phase())
      ensures Grew(old(mutex.server.run), mutex.server.run, mutex.session, TextAction(Some(val)))
      ensures old(mutex.server.calls) <= mutex.server.calls
      ensures Stored(mutex.server.calls, |old(mutex.server.calls)|, path, existsStatus == ZOK)
      ensures status == mutex.server.calls[|mutex.server.calls| - 1].rc
      ensures status == ZOK ==> Committed(old(mutex.server.run), mutex.server.run, mutex.session, Some(val))
    {
      var retryCount, more := 3, true;
      ghost var from := |mutex.server.calls|;
      status := existsStatus;
      while more
        invariant Valid() && Phase() == old(Phase()) && (more ==> retryCount == 3)
        invariant Grew(old(mutex.server.run), mutex.server.run, mutex.session, TextAction(Some(val)))
        invariant old(mutex.server.calls) <= mutex.server.calls
        invariant more ==> Storing(mutex.server.calls, from, path, existsStatus == ZOK)
        invariant more ==> status == if |mutex.server.calls| == from then existsStatus else ZCONNECTIONLOSS
        invariant !more ==> Stored(mutex.server.calls, from, path, existsStatus == ZOK)
        invariant !more ==> status == mutex.server.calls[|mutex.server.calls| - 1].rc
        invariant !more && status == ZOK ==>
                    Committed(old(mutex.server.run), mutex.server.run, mutex.session, Some(val))
        decreases more, mutex.server.losses
      {
        ghost var calls, before := mutex.server.calls, mutex.server.run;
        if status != ZOK {
          status := StoreOnce(CreateData, Some(val));
        } else {
          status := StoreOnce(SetData, Some(val));
        }
        GrewOn(old(mutex.server.run), before, mutex.server.run, mutex.session, TextAction(Some(val)));
        StoredOnce(calls, mutex.server.calls, from, path, existsStatus == ZOK);
        retryCount := retryCount + 1;
        more := status == ZCONNECTIONLOSS && retryCount != 0;
        if status == ZCONNECTIONLOSS {
          retryCount := retryCount - 1;
        }
      }
    }

    /** PS_WRITE_FUNC.  The calls up to from asked whether the node exists; those after it
        tried to store val, and the answer is SUCCESS exactly when the last one was ZOK. */
    method Write(val: string) returns (ok: bool, ghost from: nat)
      requires Valid() && (Phase().HasRead? || Phase() == Unread)
      modifies this`trace, mutex, mutex.server
      ensures Valid() && Phase() == old(Phase())
      ensures Grew(old(mutex.server.run), mutex.server.run, mutex.session, WriteAction(val))
      ensures old(mutex.server.calls) <= mutex.server.calls
      ensures Asked(mutex.server.calls, |old(mutex.server.calls)|, from, StatData, path)
      ensures Stored(mutex.server.calls, from, path, mutex.server.calls[from - 1].rc == ZOK)
      ensures ok <==> mutex.server.calls[|mutex.server.calls| - 1].rc == ZOK
      ensures ok ==> Committed(old(mutex.server.run), mutex.server.run, mutex.session, Some(val))
    {
      var status := RetryPeek();
      from := |mutex.server.calls|;
      ghost var peeked, calls := mutex.server.run, mutex.server.calls;
      status := StoreLoop(val, status);
      ok := status == ZOK;
      GrewBoth(old(mutex.server.run), peeked, mutex.server.run, mutex.session,
               PeekAction, TextAction(Some(val)), WriteAction(val));
      assert forall i :: 0 <= i < from ==> mutex.server.calls[i] == calls[i];
    }
  }

  /** The theorem for the code: what a request has read is what the data node held, and until
      its lock is given back nobody else's write is applied. */
  lemma RequestLosesNoUpdate(p: PhpSession, ts: map<Session, Trace>)
    requires p.Valid() && p.Phase().HasRead?
    requires AllConform(p.mutex.server.run, ts) && NoOwnerExpires(p.mutex.server.run, ts)
    requires p.mutex.session in ts && ts[p.mutex.session] == p.trace
    ensures var log, ph := p.mutex.server.state.log, p.Phase();
            && ph.at <= |log| && ph.value == ValueAt(log, ph.at)
            && forall i :: ph.at <= i < |log| && log[i].Write? ==> log[i].writer == p.mutex.session
  {
    CodeLosesNoUpdate(p.mutex.server.run, ts, |p.mutex.server.run.actions|, p.mutex.session);
  }
}
