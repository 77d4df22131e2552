/** PHP requests on one session key, with zookeeper.session_lock on, running
    over the lock recipe, and garbage collection, which takes no lock.  The lock
    directory and the data node share the ensemble's log, and reads of the data
    node may lag like any other read. */
module SessionProtocol {
  import opened CStrings
  import opened ServerLog
  import opened LockProtocol
  import opened LockSafety

  /** Where a process is between PS_OPEN and PS_CLOSE.  at is how far into the log
      the read was answered, kept to say what happened since. */
  datatype Phase =
    | Out
    | Waiting                                        // in php_zookeeper_sess_lock
    | Locked                                         // is_locked is set, nothing read yet
    | Statted(len: nat, mtime: int, at: nat)         // zoo_exists told the length and the age
    | HasRead(value: Option<Znode>, at: nat)         // PS_READ answered; None: no such node
    | Unread                                         // PS_READ failed
    | Closing                                        // in PS_CLOSE
  {
    /** session->is_locked, before PS_CLOSE starts to release the lock. */
    predicate Holding() {
      Locked? || Statted? || HasRead? || Unread?
    }
  }

  datatype Sys = Sys(lock: State, reqs: map<Session, Phase>)

  datatype Event =
    | LockStep(a: Action)                            // a call of the lock code, re-entry by a watcher included
    | Begin(c: Session)                              // zkr_lock_init
    | Acquire(c: Session)                            // zkr_lock_lock answered true
    | Abandon(c: Session)                            // all attempts used up, the node stays queued
    | Stat(c: Session, k: nat)                       // zoo_exists in PS_READ
    | Get(c: Session, k: nat)                        // zoo_get in PS_READ
    | ReadFail(c: Session)
    | Peek(c: Session, k: nat)                       // zoo_exists in PS_WRITE or PS_GC
    | Gc(c: Session, cutOff: int, seen: nat)         // a committed zoo_delete of PS_GC, in any process at any time
    | Store(c: Session, value: Option<Znode>)        // a committed zoo_create, zoo_set or zoo_delete of the data node
    | Close(c: Session)
    | Closed(c: Session)

  /** What an event is on the lock's side. */
  function ActionOf(e: Event): Action {
    match e
    case LockStep(a) => a
    case Begin(c) => Reinit(c)
    case Stat(c, k) => Fetch(c, k)
    case Get(c, k) => Fetch(c, k)
    case Peek(c, k) => Fetch(c, k)
    case Gc(c, cutOff, seen) => GcDelete(c, cutOff, seen)
    case Store(c, v) => Put(c, v)
    case _ => Local(e.c)
  }

  /** The events that a request in phase ph, with the lock's client cl, can see. */
  predicate Fits(e: Event, cl: Client, ph: Phase) {
    match e
    case LockStep(a) => LockStepAllowed(a, cl, ph)
    case Begin(_) => ph == Out
    case Acquire(_) => ph == Waiting && cl.pc == Idle && IsOwner(cl)
    case Abandon(_) => ph == Waiting
    case Stat(_, _) => ph == Locked
    case Get(_, _) => ph.Statted?
    case ReadFail(_) => ph == Locked || ph.Statted?
    case Peek(_, _) => true
    case Gc(_, _, _) => true
    case Store(_, _) => ph.HasRead? || ph == Unread
    case Close(_) => ph.Holding()
    case Closed(_) => ph == Closing
  }

  /** The lock code deletes its node only from PS_CLOSE (the give-up path blocks on
      pmutex before its delete), and no session expires while it owns the lock. */
  predicate LockStepAllowed(a: Action, cl: Client, ph: Phase) {
    match a
    case DeleteOk(_, _) => ph == Closing
    case DeleteLost(_, _) => ph == Closing
    case ExpireSession(_) => ph == Out || ph == Closing || !IsOwner(cl)
    case Reinit(_) => false
    case Fetch(_, _) => false
    case Put(_, _) => false
    case GcDelete(_, _, _) => false
    case Local(_) => false
    case _ => true
  }

  /** The phase after the event.  A read copies no more than the length that
      zoo_exists announced. */
  function After(e: Event, log: Log, ph: Phase): Phase
    requires e.Stat? || e.Get? ==> e.k <= |log|
    requires e.Get? ==> ph.Statted?
  {
    match e
    case LockStep(_) => ph
    case Begin(_) => Waiting
    case Acquire(_) => Locked
    case Abandon(_) => Out
    case Stat(_, k) =>
      var v := ValueAt(log, k);
      if v.Some? then Statted(|v.value.text|, v.value.mtime, k) else HasRead(None, k)
    case Get(_, k) =>
      var v := ValueAt(log, k);
      if v.Some? then HasRead(Some(Znode(Cut(v.value.text, ph.len), v.value.mtime)), k) else Unread
    case ReadFail(_) => Unread
    case Peek(_, _) => ph
    case Gc(_, _, _) => ph
    case Store(_, _) => ph
    case Close(_) => Closing
    case Closed(_) => Out
  }

  predicate SEnabled(s: Sys, e: Event) {
    var a := ActionOf(e);
    a.c in s.reqs && Enabled(s.lock, a) && Fits(e, s.lock.clients[a.c], s.reqs[a.c])
  }

  function SNext(s: Sys, e: Event): Sys
    requires SEnabled(s, e)
  {
    var a := ActionOf(e);
    Sys(Next(s.lock, a), s.reqs[a.c := After(e, s.lock.log, s.reqs[a.c])])
  }

  predicate SInit(s: Sys) {
    Init(s.lock) && s.reqs.Keys == s.lock.clients.Keys && forall c :: c in s.reqs ==> s.reqs[c] == Out
  }

  // ---------------------------------------------------------------- invariant

  /** After k operations m is live and first in the queue. */
  ghost predicate FirstAt(log: Log, k: nat, m: Node)
    requires k <= |log|
  {
    m in LiveAt(log, k) && SettledAt(log, k, m)
  }

  /** Every write in the log was committed while its session had the first node. */
  ghost predicate WritesGuarded(log: Log) {
    forall i :: 0 <= i < |log| && log[i].Write? ==> exists w: Node :: w.session == log[i].writer && FirstAt(log, i, w)
  }

  ghost predicate Unwritten(log: Log, k: nat) {
    forall i :: k <= i < |log| ==> !log[i].Write?
  }

  ghost predicate ReqInv(log: Log, c: Session, cl: Client, ph: Phase) {
    && (ph.Holding() ==> IsOwner(cl))
    && (ph.Holding() || ph == Waiting ==> Fresh(log, c, cl) && (cl.expired ==> !IsOwner(cl)))
    && (ph.Statted? ==>
          && ph.at <= |log| && Unwritten(log, ph.at)
          && var v := ValueAt(log, ph.at);
             v.Some? && |v.value.text| == ph.len && v.value.mtime == ph.mtime)
    && (ph.HasRead? ==>
          && ph.at <= |log| && ph.value == ValueAt(log, ph.at)
          && forall i :: ph.at <= i < |log| && log[i].Write? ==> log[i].writer == c)
  }

  ghost predicate SInv(s: Sys) {
    && Inv(s.lock) && s.reqs.Keys == s.lock.clients.Keys
    && WritesGuarded(s.lock.log)
    && forall c :: c in s.reqs ==> ReqInv(s.lock.log, c, s.lock.clients[c], s.reqs[c])
  }

  /** is_locked means that the lock's own node is live and the smallest. */
  lemma LockedIsFirst(s: Sys, c: Session)
    requires SInv(s) && c in s.reqs && s.reqs[c].Holding()
    ensures Owns(s.lock, c) && !s.lock.clients[c].expired
    ensures FirstAt(s.lock.log, |s.lock.log|, s.lock.clients[c].id.value)
  {
    assert ReqInv(s.lock.log, c, s.lock.clients[c], s.reqs[c]) && ClientInv(s.lock.log, c, s.lock.clients[c]);
    OwnerSettled(s.lock, c);
  }

  lemma OneHolder(s: Sys, c: Session, d: Session)
    requires SInv(s) && c in s.reqs && d in s.reqs && s.reqs[c].Holding() && s.reqs[d].Holding()
    ensures c == d
  {
    LockedIsFirst(s, c);
    LockedIsFirst(s, d);
    OwnerIsFirst(s.lock, c, s.lock.clients[d].id.value);
    OwnerIsFirst(s.lock, d, s.lock.clients[c].id.value);
    assert ClientInv(s.lock.log, c, s.lock.clients[c]) && ClientInv(s.lock.log, d, s.lock.clients[d]);
  }

  /** From the moment m is first until it goes, all writes are m's session's. */
  lemma WritesSinceFirst(log: Log, next: nat, k: nat, m: Node, i: nat)
    requires Ordered(log, next) && WritesGuarded(log) && k <= i < |log| && log[i].Write?
    requires SettledAt(log, k, m) && m in Live(log)
    ensures log[i].writer == m.session
  {
    var w: Node :| w.session == log[i].writer && FirstAt(log, i, w);
    SettledStays(log, next, k, i, m);
    LiveBetween(log, next, i, |log|, m);
    SameNumberSameNode(log, next, i, w, m);
  }

  /** A write is the holder's, and only its own. */
  lemma HolderStores(s: Sys, e: Event)
    requires SInv(s) && SEnabled(s, e) && e.Store?
    ensures e.c in s.reqs && s.reqs[e.c].Holding()
    ensures forall d :: d in s.reqs && s.reqs[d].Holding() ==> d == e.c
  {
    assert ActionOf(e) == Put(e.c, e.value);
    forall d | d in s.reqs && s.reqs[d].Holding() ensures d == e.c {
      OneHolder(s, d, e.c);
    }
  }

  /** A client that owns has seen all writes: the others' came before its node was
      first, and its own it has read. */
  lemma OwnerSawWrites(log: Log, next: nat, c: Session, cl: Client, k: nat)
    requires Ordered(log, next) && WritesGuarded(log) && ClientInv(log, c, cl)
    requires !cl.expired && cl.id.Some? && cl.id == cl.ownerid && cl.id.value in Live(log) && cl.view <= k <= |log|
    ensures Unwritten(log, k)
  {
    forall i | k <= i < |log| ensures !log[i].Write? {
      if log[i].Write? {
        WritesSinceFirst(log, next, cl.view, cl.id.value, i);
      }
    }
  }

  /** A holder's reads cannot be stale: whatever prefix it is shown has the last write.
      Only a garbage collection may have removed it since. */
  lemma HolderReadsCurrent(s: Sys, c: Session, k: nat)
    requires SInv(s) && c in s.reqs && s.reqs[c].Holding()
    requires s.lock.clients[c].view <= k <= |s.lock.log|
    ensures var log := s.lock.log;
            Unwritten(log, k) && ValueAt(log, |log|) == if Collected(log, k, |log|) then None else ValueAt(log, k)
  {
    LockedIsFirst(s, c);
    OwnerSawWrites(s.lock.log, s.lock.next, c, s.lock.clients[c], k);
    UnwrittenKeeps(s.lock.log, k, |s.lock.log|);
  }

  // ---------------------------------------------------------------- preservation

  lemma GuardedGrows(log: Log, more: Log)
    requires WritesGuarded(log) && |more| <= 1
    requires |more| == 1 && more[0].Write? ==> exists w: Node :: w.session == more[0].writer && FirstAt(log, |log|, w)
    ensures WritesGuarded(log + more)
  {
    var log' := log + more;
    forall i | 0 <= i < |log'| && log'[i].Write?
      ensures exists w: Node :: w.session == log'[i].writer && FirstAt(log', i, w)
    {
      var w: Node :| w.session == log'[i].writer && FirstAt(log, i, w);
      PrefixLive(log, more, i);
      CreatedGrows(log, more, i, w);
      assert FirstAt(log', i, w);
    }
  }

  /** Another session's commit leaves a request where it was. */
  lemma BystanderInv(log: Log, more: Log, c: Session, cl: Client, ph: Phase)
    requires ReqInv(log, c, cl, ph) && (cl.id.Some? ==> cl.id.value.session == c)
    requires |more| <= 1 && forall i :: 0 <= i < |more| ==> !more[i].By(c) && (more[i].Write? ==> !ph.Holding())
    ensures ReqInv(log + more, c, cl, ph)
  {
    PrefixLive(log, more, |log|);
    if ph.Statted? || ph.HasRead? {
      PrefixValue(log, more, ph.at);
    }
    if more == [] {
      assert log + more == log;
    }
  }

  lemma Bystander(s: Sys, e: Event, d: Session)
    requires SInv(s) && SEnabled(s, e) && d in s.reqs && d != ActionOf(e).c
    ensures ReqInv(Next(s.lock, ActionOf(e)).log, d, s.lock.clients[d], s.reqs[d])
  {
    var a := ActionOf(e);
    assert ClientInv(s.lock.log, a.c, s.lock.clients[a.c]) && ClientInv(s.lock.log, d, s.lock.clients[d]);
    assert ReqInv(s.lock.log, d, s.lock.clients[d], s.reqs[d]);
    EffectBy(s.lock, a);
    if e.Store? {
      HolderStores(s, e);
    }
    BystanderInv(s.lock.log, Effect(s.lock, a), d, s.lock.clients[d], s.reqs[d]);
  }

  /** Only a holder's write is ever added to the log. */
  lemma StoreGuarded(s: Sys, e: Event)
    requires SInv(s) && SEnabled(s, e) && e.Store?
    ensures exists w: Node :: w.session == e.c && FirstAt(s.lock.log, |s.lock.log|, w)
  {
    HolderStores(s, e);
    LockedIsFirst(s, e.c);
    assert ClientInv(s.lock.log, e.c, s.lock.clients[e.c]);
  }

  lemma WriteIsStore(s: Sys, e: Event)
    requires SEnabled(s, e)
    ensures var more := Effect(s.lock, ActionOf(e));
            |more| <= 1 && (|more| == 1 && more[0].Write? ==> e.Store? && more[0].writer == e.c)
  {
  }

  lemma EventGuarded(s: Sys, e: Event)
    requires SInv(s) && SEnabled(s, e)
    ensures WritesGuarded(s.lock.log + Effect(s.lock, ActionOf(e)))
  {
    WriteIsStore(s, e);
    if e.Store? {
      StoreGuarded(s, e);
    }
    GuardedGrows(s.lock.log, Effect(s.lock, ActionOf(e)));
  }

  /** A lock action of a holder itself: it stays the live owner. */
  lemma HolderStepInv(s: Sys, a: Action)
    requires SInv(s) && SEnabled(s, LockStep(a)) && s.reqs[a.c].Holding()
    ensures Effect(s.lock, a) == []
    ensures ReqInv(Next(s.lock, a).log, a.c, Next(s.lock, a).clients[a.c], s.reqs[a.c])
  {
    var c, cl := a.c, s.lock.clients[a.c];
    LockedIsFirst(s, c);
    assert ReqInv(s.lock.log, c, cl, s.reqs[c]) && ClientInv(s.lock.log, c, cl);
    assert Next(s.lock, a).log == s.lock.log;
    if a.Look? || a.List? {
      OwnedListing(s.lock, c, a.k);
    }
  }

  /** A waiting request whose connection expires is no owner, and never will be. */
  lemma ExpiredInv(log: Log, more: Log, c: Session, cl: Client)
    requires ReqInv(log, c, cl, Waiting) && !IsOwner(cl)
    ensures ReqInv(log + more, c, cl.(expired := true), Waiting)
  {
  }

  /** A lock action of a request that is still waiting. */
  lemma WaiterStepInv(s: Sys, a: Action)
    requires SInv(s) && SEnabled(s, LockStep(a)) && s.reqs[a.c] == Waiting
    ensures ReqInv(Next(s.lock, a).log, a.c, Next(s.lock, a).clients[a.c], Waiting)
  {
    var c, cl := a.c, s.lock.clients[a.c];
    assert ReqInv(s.lock.log, c, cl, Waiting) && ClientInv(s.lock.log, c, cl);
    if a.ExpireSession? {
      ExpiredInv(s.lock.log, Effect(s.lock, a), c, cl);
    } else {
      FreshStays(s.lock, a, c);
    }
  }

  /** What a read leaves behind that has seen all writes.  It finds what zoo_exists found,
      or that this has been collected. */
  lemma ReadInv(log: Log, c: Session, cl: Client, e: Event, ph: Phase)
    requires ReqInv(log, c, cl, ph) && (e.Stat? || e.Get?) && Fits(e, cl, ph)
    requires e.k <= |log| && Unwritten(log, e.k)
    ensures ReqInv(log, c, cl.(view := e.k), After(e, log, ph))
    ensures After(e, log, ph).HasRead? ==> After(e, log, ph) == HasRead(ValueAt(log, e.k), e.k)
    ensures e.Get? ==> After(e, log, ph).HasRead? || Collected(log, ph.at, e.k)
    ensures e.Get? && After(e, log, ph).HasRead? ==> After(e, log, ph).value == ValueAt(log, ph.at)
  {
    if e.Get? {
      if ph.at <= e.k {
        UnwrittenKeeps(log, ph.at, e.k);
      } else {
        UnwrittenKeeps(log, e.k, ph.at);
      }
    }
  }

  /** A holder's read, from any prefix it may be shown. */
  lemma OwnFetchInv(s: Sys, e: Event)
    requires SInv(s) && SEnabled(s, e) && (e.Stat? || e.Get?)
    ensures e.k <= |s.lock.log| && Unwritten(s.lock.log, e.k)
    ensures ReqInv(s.lock.log, e.c, s.lock.clients[e.c].(view := e.k), After(e, s.lock.log, s.reqs[e.c]))
  {
    var log, cl, ph := s.lock.log, s.lock.clients[e.c], s.reqs[e.c];
    HolderReadsCurrent(s, e.c, e.k);
    assert ReqInv(log, e.c, cl, ph);
    ReadInv(log, e.c, cl, e, ph);
  }

  /** A write or collection by the request's own session. */
  lemma OwnCommitInv(log: Log, op: Op, c: Session, cl: Client, ph: Phase)
    requires (op.Write? && op.writer == c && (ph.HasRead? || ph == Unread)) || op.Collect?
    requires ReqInv(log, c, cl, ph)
    ensures ReqInv(log + [op], c, cl.(view := |log| + 1), ph)
  {
    PrefixLive(log, [op], |log|);
    if ph.HasRead? || ph.Statted? {
      PrefixValue(log, [op], ph.at);
    }
  }

  /** The request's own turns that read nothing and commit nothing. */
  lemma TurnInv(log: Log, c: Session, cl: Client, e: Event, ph: Phase, view: nat)
    requires ReqInv(log, c, cl, ph) && Fits(e, cl, ph) && !e.LockStep?
    requires !e.Stat? && !e.Get? && !e.Store? && !e.Gc?
    ensures !e.Begin? ==> ReqInv(log, c, cl.(view := view), After(e, log, ph))
    ensures e.Begin? ==> ReqInv(log, c, cl.(id := None, ownerid := None), After(e, log, ph))
  {
  }

  lemma OwnLockInv(s: Sys, a: Action)
    requires SInv(s) && SEnabled(s, LockStep(a))
    ensures var t := Next(s.lock, a); ReqInv(t.log, a.c, t.clients[a.c], s.reqs[a.c])
  {
    if s.reqs[a.c].Holding() {
      HolderStepInv(s, a);
    } else if s.reqs[a.c] == Waiting {
      WaiterStepInv(s, a);
    }
  }

  /** The request that acts. */
  lemma OwnInv(s: Sys, e: Event)
    requires SInv(s) && SEnabled(s, e)
    ensures var t, c := SNext(s, e), ActionOf(e).c; ReqInv(t.lock.log, c, t.lock.clients[c], t.reqs[c])
  {
    var c := ActionOf(e).c;
    var cl, ph := s.lock.clients[c], s.reqs[c];
    assert ReqInv(s.lock.log, c, cl, ph);
    match e
    case LockStep(a) => OwnLockInv(s, a);
    case Store(_, v) => OwnCommitInv(s.lock.log, Write(c, v), c, cl, ph);
    case Gc(_, cutOff, seen) => OwnCommitInv(s.lock.log, Collect(c, cutOff, seen), c, cl, ph);
    case Stat(_, _) =>
      assert s.lock.log + [] == s.lock.log;
      OwnFetchInv(s, e);
    case Get(_, _) =>
      assert s.lock.log + [] == s.lock.log;
      OwnFetchInv(s, e);
    case Peek(_, k) =>
      assert s.lock.log + [] == s.lock.log;
      TurnInv(s.lock.log, c, cl, e, ph, k);
    case _ =>
      assert s.lock.log + [] == s.lock.log;
      TurnInv(s.lock.log, c, cl, e, ph, cl.view);
  }

  lemma EventInv(s: Sys, e: Event)
    requires SInv(s) && SEnabled(s, e)
    ensures SInv(SNext(s, e))
  {
    StepInv(s.lock, ActionOf(e));
    EventGuarded(s, e);
    OwnInv(s, e);
    forall d | d in s.reqs && d != ActionOf(e).c
      ensures ReqInv(Next(s.lock, ActionOf(e)).log, d, s.lock.clients[d], s.reqs[d])
    {
      Bystander(s, e, d);
    }
  }

  // ---------------------------------------------------------------- runs

  datatype History = History(states: seq<Sys>, events: seq<Event>)

  ghost predicate IsHistory(h: History) {
    && |h.states| == |h.events| + 1 && SInit(h.states[0])
    && forall i {:trigger SEnabled(h.states[i], h.events[i])} :: 0 <= i < |h.events| ==>
         SEnabled(h.states[i], h.events[i]) && h.states[i + 1] == SNext(h.states[i], h.events[i])
  }

  lemma HistoryStep(h: History, i: nat)
    requires IsHistory(h) && i < |h.events|
    ensures SEnabled(h.states[i], h.events[i]) && h.states[i + 1] == SNext(h.states[i], h.events[i])
  {
    assert SEnabled(h.states[i], h.events[i]);
  }

  lemma {:induction false} HistoryInv(h: History, i: nat)
    requires IsHistory(h) && i < |h.states|
    ensures SInv(h.states[i])
  {
    if i == 0 {
      InitInv(h.states[0].lock);
    } else {
      HistoryInv(h, i - 1);
      HistoryStep(h, i - 1);
      EventInv(h.states[i - 1], h.events[i - 1]);
    }
  }

  /** A successful PS_READ returns the last applied write, whole, though a garbage
      collection may have removed it by then; zoo_get fails on the node that zoo_exists
      found only if it was collected in between. */
  lemma ReadReturnsLastWrite(h: History, i: nat, c: Session)
    requires IsHistory(h) && i < |h.events| && (h.events[i].Stat? || h.events[i].Get?) && h.events[i].c == c
    ensures c in h.states[i].reqs && c in h.states[i + 1].reqs && h.events[i].k <= |h.states[i].lock.log|
    ensures var log, k, ph, ph' := h.states[i].lock.log, h.events[i].k, h.states[i].reqs[c], h.states[i + 1].reqs[c];
            && (ph'.HasRead? ==> ph'.value == ValueAt(log, k) && ph'.at == k)
            && ValueAt(log, |log|) == (if Collected(log, k, |log|) then None else ValueAt(log, k))
            && (h.events[i].Get? ==> ph.Statted? && (ph'.HasRead? || Collected(log, ph.at, k)))
            && (h.events[i].Get? && ph'.HasRead? && ph'.value.Some? ==> ph'.value.value.mtime == ph.mtime)
  {
    var s, e := h.states[i], h.events[i];
    HistoryInv(h, i);
    HistoryStep(h, i);
    OwnFetchInv(s, e);
    UnwrittenKeeps(s.lock.log, e.k, |s.lock.log|);
    assert ReqInv(s.lock.log, c, s.lock.clients[c], s.reqs[c]);
    ReadInv(s.lock.log, c, s.lock.clients[c], e, s.reqs[c]);
  }

  /** No lost updates: as long as a request holds what it read, nobody else's
      write has been applied since, so its own write replaces exactly what it read. */
  lemma NoLostUpdates(h: History, i: nat, c: Session)
    requires IsHistory(h) && i < |h.states| && c in h.states[i].reqs && h.states[i].reqs[c].HasRead?
    ensures var log, ph := h.states[i].lock.log, h.states[i].reqs[c];
            && ph.at <= |log| && ph.value == ValueAt(log, ph.at)
            && forall p :: ph.at <= p < |log| && log[p].Write? ==> log[p].writer == c
  {
    HistoryInv(h, i);
    assert ReqInv(h.states[i].lock.log, c, h.states[i].lock.clients[c], h.states[i].reqs[c]);
  }

  lemma {:induction false} HistoryLogGrows(h: History, i: nat, j: nat)
    requires IsHistory(h) && i <= j < |h.states|
    ensures h.states[i].lock.log <= h.states[j].lock.log
  {
    if i < j {
      HistoryLogGrows(h, i, j - 1);
      HistoryStep(h, j - 1);
    }
  }

  /** Between a holder's read and its write no other request's write is applied. */
  lemma NoStoreBetween(h: History, i: nat, p: nat, j: nat, c: Session)
    requires IsHistory(h) && i < p < j < |h.events|
    requires (h.events[i].Stat? || h.events[i].Get?) && h.events[i].c == c
    requires h.events[j].Store? && h.events[j].c == c
    requires c in h.states[i + 1].reqs && h.states[i + 1].reqs[c].HasRead?
    requires c in h.states[j].reqs && h.states[j].reqs[c] == h.states[i + 1].reqs[c]
    requires h.events[p].Store?
    ensures h.events[p].c == c
  {
    var before, after := h.states[p].lock.log, h.states[p + 1].lock.log;
    ReadReturnsLastWrite(h, i, c);
    HistoryLogGrows(h, i, p);
    HistoryLogGrows(h, p + 1, j);
    HistoryStep(h, p);
    assert after[|before|] == Write(h.events[p].c, h.events[p].value);
    NoLostUpdates(h, j, c);
  }

  /** Only the one holder's writes are ever applied. */
  lemma OnlyTheHolderStores(h: History, i: nat, c: Session, d: Session)
    requires IsHistory(h) && i < |h.events| && h.events[i].Store? && h.events[i].c == c
    requires d in h.states[i].reqs && h.states[i].reqs[d].Holding()
    ensures c == d
  {
    HistoryInv(h, i);
    HistoryStep(h, i);
    HolderStores(h.states[i], h.events[i]);
  }

  // ---------------------------------------------------------------- garbage collection

  /** Every collection had found the data node older than its cut-off, at some earlier time. */
  ghost predicate CollectsGrounded(log: Log) {
    forall i :: 0 <= i < |log| && log[i].Collect? ==> log[i].seen <= i && ExpiredAt(log, log[i].seen, log[i].cutOff)
  }

  lemma GroundedGrows(s: State, a: Action)
    requires Enabled(s, a) && CollectsGrounded(s.log)
    ensures CollectsGrounded(Next(s, a).log)
  {
    var log, more := s.log, Effect(s, a);
    var log': Log := log + more;
    forall i | 0 <= i < |log'| && log'[i].Collect?
      ensures log'[i].seen <= i && ExpiredAt(log', log'[i].seen, log'[i].cutOff)
    {
      PrefixValue(log, more, log'[i].seen);
    }
  }

  lemma {:induction false} HistoryGrounded(h: History, i: nat)
    requires IsHistory(h) && i < |h.states|
    ensures CollectsGrounded(h.states[i].lock.log)
  {
    if i > 0 {
      HistoryGrounded(h, i - 1);
      HistoryStep(h, i - 1);
      GroundedGrows(h.states[i - 1].lock, ActionOf(h.events[i - 1]));
    }
  }

  /** A collection between a request's read and its first write removes a node that was
      expired by the collector's own cut-off, or one that it had asked about before the
      node was last written. */
  lemma CollectedBetween(h: History, i: nat, c: Session, p: nat)
    requires IsHistory(h) && i < |h.states| && c in h.states[i].reqs
    requires h.states[i].reqs[c].HasRead? && h.states[i].reqs[c].value.Some?
    requires var log, at := h.states[i].lock.log, h.states[i].reqs[c].at;
             at <= p < |log| && log[p].Collect? && forall x :: at <= x < p ==> !log[x].Write?
    ensures var log: Log, ph: Phase := h.states[i].lock.log, h.states[i].reqs[c];
            || ph.value.value.mtime < log[p].cutOff
            || exists x :: log[p].seen <= x < ph.at && log[x].Write?
  {
    NoLostUpdates(h, i, c);
    HistoryGrounded(h, i);
    var log: Log, at: nat := h.states[i].lock.log, h.states[i].reqs[c].at;
    var seen := log[p].seen;
    if at <= seen {
      UnwrittenKeeps(log, at, seen);
    } else if !exists x :: seen <= x < at && log[x].Write? {
      UnwrittenKeeps(log, seen, at);
    }
  }

  /** Session g can run PS_GC_FUNC now, with that cut-off, and remove the data node. */
  ghost predicate CanCollect(s: State, g: Session, cutOff: int) {
    exists k :: Enabled(s, Fetch(g, k)) && Enabled(Next(s, Fetch(g, k)), GcDelete(g, cutOff, k))
  }

  lemma CollectsFrom(s: State, g: Session, cutOff: int, k: nat)
    requires g in s.clients && !s.clients[g].expired && s.clients[g].view <= |s.log|
    ensures (Enabled(s, Fetch(g, k)) && Enabled(Next(s, Fetch(g, k)), GcDelete(g, cutOff, k))) <==>
            (s.clients[g].view <= k <= |s.log| && ExpiredAt(s.log, k, cutOff) && ValueAt(s.log, |s.log|).Some?)
  {
    assert s.log + [] == s.log;
  }

  lemma CanCollectFrom(s: State, g: Session, cutOff: int)
    requires g in s.clients && !s.clients[g].expired && s.clients[g].view <= |s.log|
    ensures CanCollect(s, g, cutOff) <==>
            && ValueAt(s.log, |s.log|).Some?
            && exists k :: s.clients[g].view <= k <= |s.log| && ExpiredAt(s.log, k, cutOff)
  {
    if CanCollect(s, g, cutOff) {
      var k :| Enabled(s, Fetch(g, k)) && Enabled(Next(s, Fetch(g, k)), GcDelete(g, cutOff, k));
      CollectsFrom(s, g, cutOff, k);
    }
    forall k | s.clients[g].view <= k <= |s.log| && ExpiredAt(s.log, k, cutOff) && ValueAt(s.log, |s.log|).Some?
      ensures CanCollect(s, g, cutOff)
    {
      CollectsFrom(s, g, cutOff, k);
    }
  }

  /** From at on the data node is the same, so it is expired everywhere or nowhere. */
  lemma ExpiredThroughout(log: Log, at: nat, k: nat, cutOff: int)
    requires at <= k <= |log| && Unwritten(log, at) && !Collected(log, at, |log|)
    ensures ValueAt(log, k) == ValueAt(log, at) && (ExpiredAt(log, k, cutOff) <==> ExpiredAt(log, at, cutOff))
  {
    UnwrittenKeeps(log, at, k);
  }

  /** What a request has read can be collected before it writes exactly when it is expired by
      the collector's cut-off, or the collector may still be shown an expired earlier state. */
  lemma CanCollectIff(s: Sys, c: Session, g: Session, cutOff: int)
    requires SInv(s) && c in s.reqs && s.reqs[c].HasRead? && s.reqs[c].value.Some?
    requires Unwritten(s.lock.log, s.reqs[c].at) && !Collected(s.lock.log, s.reqs[c].at, |s.lock.log|)
    requires g in s.lock.clients && !s.lock.clients[g].expired
    ensures var log, ph := s.lock.log, s.reqs[c];
            CanCollect(s.lock, g, cutOff) <==>
            || ph.value.value.mtime < cutOff
            || exists k :: s.lock.clients[g].view <= k < ph.at && k <= |log| && ExpiredAt(log, k, cutOff)
  {
    var log, ph := s.lock.log, s.reqs[c];
    assert ReqInv(log, c, s.lock.clients[c], ph) && ClientInv(log, g, s.lock.clients[g]);
    CanCollectFrom(s.lock, g, cutOff);
    ExpiredThroughout(log, ph.at, |log|, cutOff);
    forall k | ph.at <= k <= |log| ensures ExpiredAt(log, k, cutOff) <==> ExpiredAt(log, ph.at, cutOff) {
      ExpiredThroughout(log, ph.at, k, cutOff);
    }
  }
}
