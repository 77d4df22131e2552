/** What the lock recipe guarantees in every reachable state and over whole runs. */
module LockSafety {
  import opened CStrings
  import opened ServerLog
  import opened LockProtocol

  datatype Run = Run(states: seq<State>, actions: seq<Action>)

  ghost predicate IsRun(r: Run) {
    && |r.states| == |r.actions| + 1 && Init(r.states[0])
    && forall i {:trigger Enabled(r.states[i], r.actions[i])} :: 0 <= i < |r.actions| ==>
         Enabled(r.states[i], r.actions[i]) && r.states[i + 1] == Next(r.states[i], r.actions[i])
  }

  function Last(r: Run): State
    requires |r.states| > |r.actions|
  {
    r.states[|r.actions|]
  }

  function Extended(r: Run, a: Action): Run
    requires |r.states| == |r.actions| + 1 && Enabled(r.states[|r.actions|], a)
  {
    Run(r.states + [Next(r.states[|r.actions|], a)], r.actions + [a])
  }

  lemma ExtendedIsRun(r: Run, a: Action)
    requires IsRun(r) && Enabled(r.states[|r.actions|], a)
    ensures IsRun(Extended(r, a))
  {
    var r' := Extended(r, a);
    forall i | 0 <= i < |r'.actions|
      ensures Enabled(r'.states[i], r'.actions[i]) && r'.states[i + 1] == Next(r'.states[i], r'.actions[i])
    {
      if i < |r.actions| {
        assert Enabled(r.states[i], r.actions[i]);
      }
    }
  }

  lemma RunStep(r: Run, i: nat)
    requires IsRun(r) && i < |r.actions|
    ensures Enabled(r.states[i], r.actions[i]) && r.states[i + 1] == Next(r.states[i], r.actions[i])
  {
    assert Enabled(r.states[i], r.actions[i]);
  }

  lemma {:induction false} RunInv(r: Run, i: nat)
    requires IsRun(r) && i < |r.states|
    ensures Inv(r.states[i])
  {
    if i == 0 {
      InitInv(r.states[0]);
    } else {
      RunInv(r, i - 1);
      StepInv(r.states[i - 1], r.actions[i - 1]);
    }
  }

  lemma {:induction false} RunLogGrows(r: Run, i: nat, j: nat)
    requires IsRun(r) && i <= j < |r.states|
    ensures r.states[i].log <= r.states[j].log
  {
    if i < j {
      RunLogGrows(r, i, j - 1);
      RunStep(r, j - 1);
    }
  }

  /** A live owner's number is settled in the current log. */
  lemma OwnerSettled(s: State, c: Session)
    requires Inv(s) && Owns(s, c)
    ensures SettledAt(s.log, |s.log|, s.clients[c].id.value)
  {
    var cl := s.clients[c];
    assert ClientInv(s.log, c, cl);
    SettledStays(s.log, s.next, cl.view, |s.log|, cl.ownerid.value);
  }

  /** No client owns while an earlier node is live. */
  lemma OwnerIsFirst(s: State, c: Session, n: Node)
    requires Inv(s) && Owns(s, c) && n in Live(s.log)
    ensures s.clients[c].id.value.Num() <= n.Num()
    ensures n.Num() == s.clients[c].id.value.Num() ==> n == s.clients[c].id.value
  {
    OwnerSettled(s, c);
    if n.Num() == s.clients[c].id.value.Num() {
      LiveWasCreated(s.log, |s.log|, n);
      SameNumberSameNode(s.log, s.next, |s.log|, n, s.clients[c].id.value);
    }
  }

  /** Mutual exclusion, however stale the listings and whatever ownerid was left over. */
  lemma MutualExclusion(r: Run, i: nat, c: Session, d: Session)
    requires IsRun(r) && i < |r.states|
    requires Owns(r.states[i], c) && Owns(r.states[i], d)
    ensures c == d
  {
    var s := r.states[i];
    RunInv(r, i);
    OwnerIsFirst(s, c, s.clients[d].id.value);
    OwnerIsFirst(s, d, s.clients[c].id.value);
    assert ClientInv(s.log, c, s.clients[c]) && ClientInv(s.log, d, s.clients[d]);
  }

  /** The lock is granted in queue order: two owners in one run are one node, or
      the later owner has the larger number. */
  lemma GrantOrder(r: Run, i: nat, j: nat, c: Session, d: Session)
    requires IsRun(r) && i <= j < |r.states|
    requires Owns(r.states[i], c) && Owns(r.states[j], d)
    ensures var m, n := r.states[i].clients[c].id.value, r.states[j].clients[d].id.value;
            m == n || m.Num() < n.Num()
  {
    var s, t := r.states[i], r.states[j];
    var m, n := s.clients[c].id.value, t.clients[d].id.value;
    RunInv(r, i);
    RunInv(r, j);
    RunLogGrows(r, i, j);
    OwnerSettled(s, c);
    SettledInLongerLog(s, t, m);
    LiveWasCreated(t.log, |t.log|, n);
    if m.Num() == n.Num() {
      SameNumberSameNode(t.log, t.next, |t.log|, m, n);
    }
  }

  lemma SettledInLongerLog(s: State, t: State, m: Node)
    requires Inv(s) && Inv(t) && s.log <= t.log && SettledAt(s.log, |s.log|, m)
    ensures SettledAt(t.log, |t.log|, m)
  {
    var more := t.log[|s.log|..];
    assert t.log == s.log + more;
    PrefixLive(s.log, more, |s.log|);
    CreatedGrows(s.log, more, |s.log|, m);
    SettledStays(t.log, t.next, |s.log|, |t.log|, m);
  }

  /** One action other than zkr_lock_init does not take ownership from a node that stays. */
  lemma OwnerStaysOneStep(s: State, a: Action, c: Session)
    requires Inv(s) && Owns(s, c) && Enabled(s, a) && a != Reinit(c)
    requires s.clients[c].id.value in Live(Next(s, a).log)
    ensures Owns(Next(s, a), c) && Next(s, a).clients[c].id == s.clients[c].id
  {
    var cl := s.clients[c];
    if a.c == c {
      assert ClientInv(s.log, c, cl);
      if a.Look? || a.List? {
        OwnedListing(s, c, a.k);
      } else if a.DeleteOk? || a.DeleteLost? {
        DeleteRemoves(s, a);
      }
    }
  }

  /** A delete leaves no live node of that name, and takes no other. */
  lemma DeleteRemoves(s: State, a: Action)
    requires (a.DeleteOk? || a.DeleteLost?) && Inv(s) && Enabled(s, a)
    ensures forall n :: n in Live(Next(s, a).log) ==> !SameName(n, s.clients[a.c].id.value)
    ensures forall n :: n in Live(s.log) && !SameName(n, s.clients[a.c].id.value) ==> n in Live(Next(s, a).log)
  {
    PrefixLive(s.log, Effect(s, a), |s.log|);
    assert OnePerSession(LiveAt(s.log, |s.log|));
    if a.gone == None {
      assert s.log + [] == s.log;
    }
  }

  /** Every listing an owner can be shown has its node, at the front and alone. */
  lemma OwnedListing(s: State, c: Session, k: nat)
    requires Inv(s) && Owns(s, c) && s.clients[c].view <= k <= |s.log|
    ensures forall r :: IsFound(LiveAt(s.log, k), c, r) ==> r == s.clients[c].id
    ensures forall m :: IsMin(LiveAt(s.log, k), m) ==> m == s.clients[c].id.value
  {
    var cl := s.clients[c];
    assert ClientInv(s.log, c, cl);
    ReadOn(s.log, s.next, c, cl, k);
    LiveBetween(s.log, s.next, k, |s.log|, cl.id.value);
    assert OnePerSession(LiveAt(s.log, k)) && OneDirectory(LiveAt(s.log, k));
    forall m | IsMin(LiveAt(s.log, k), m) ensures m == cl.id.value {
      LiveWasCreated(s.log, k, m);
      SameNumberSameNode(s.log, s.next, k, m, cl.id.value);
    }
  }

  lemma LiveThroughout(r: Run, i: nat, p: nat, j: nat, m: Node)
    requires IsRun(r) && i <= p <= j < |r.states|
    requires m in Live(r.states[i].log) && m in Live(r.states[j].log)
    ensures m in Live(r.states[p].log)
  {
    RunInv(r, j);
    RunLogGrows(r, i, p);
    RunLogGrows(r, p, j);
    LiveWasCreated(r.states[i].log, |r.states[i].log|, m);
    LiveEarlier(r.states[i].log, r.states[p].log, r.states[j].log, r.states[j].next, m);
  }

  /** Over a run, an owner stays owner, re-entry by a watcher included, until its
      own node goes or its mutex is initialised again. */
  lemma {:induction false} OwnerStays(r: Run, i: nat, j: nat, c: Session)
    requires IsRun(r) && i <= j < |r.states| && Owns(r.states[i], c)
    requires r.states[i].clients[c].id.value in Live(r.states[j].log)
    requires forall p :: i <= p < j ==> r.actions[p] != Reinit(c)
    ensures Owns(r.states[j], c) && r.states[j].clients[c].id == r.states[i].clients[c].id
  {
    if i < j {
      LiveThroughout(r, i, j - 1, j, r.states[i].clients[c].id.value);
      OwnerStays(r, i, j - 1, c);
      RunInv(r, j - 1);
      OwnerStaysOneStep(r.states[j - 1], r.actions[j - 1], c);
    }
  }

  lemma LiveEarlier(early: Log, mid: Log, late: Log, next: nat, m: Node)
    requires early <= mid <= late && Ordered(late, next)
    requires CreatedBefore(early, |early|, m) && m in Live(late)
    ensures m in Live(mid)
  {
    var i :| 0 <= i < |early| && early[i] == Create(m);
    assert late[i] == Create(m);
    LiveBetween(late, next, |mid|, |late|, m);
    assert late == mid + late[|mid|..];
    PrefixLive(mid, late[|mid|..], |mid|);
  }

  /** However many creates lost their reply, a session has one live node at most. */
  lemma OneLiveNode(r: Run, i: nat, n: Node, m: Node)
    requires IsRun(r) && i < |r.states|
    requires n in Live(r.states[i].log) && m in Live(r.states[i].log) && n.session == m.session
    ensures n == m
  {
    RunInv(r, i);
    var log := r.states[i].log;
    assert OnePerSession(LiveAt(log, |log|));
  }

  /** The listing that data[0] is read from is never empty. */
  lemma {:induction false} NamedSeesItself(s: State, c: Session, k: nat)
    requires Inv(s) && c in s.clients && s.clients[c].pc == Named && !s.clients[c].expired
    requires s.clients[c].view <= k <= |s.log|
    ensures s.clients[c].id.Some? && s.clients[c].id.value in LiveAt(s.log, k)
  {
    assert ClientInv(s.log, c, s.clients[c]);
    ReadOn(s.log, s.next, c, s.clients[c], k);
  }

  // ---------------------------------------------------------------- claims

  lemma ClaimByBase(s: State, c: Session)
    requires Inv(s) && Claims(s, c)
    ensures var cl := s.clients[c];
            && (Owns(s, c) <==> cl.ownerid.value.base == cl.id.value.base)
            && (!Owns(s, c) ==> cl.ownerid.value.base < cl.id.value.base)
  {
    var cl := s.clients[c];
    assert ClientInv(s.log, c, cl);
    var i :| 0 <= i < cl.view && s.log[i] == Create(cl.ownerid.value);
  }

  predicate RenewIn(log: Log, p: int, q: nat)
    requires -1 <= p && q <= |log|
  {
    exists x :: p < x < q && log[x].Renew?
  }

  /** Two nodes are of one directory exactly when it was not renewed between their creations. */
  ghost predicate Epochs(log: Log, base: nat) {
    && (forall p, q :: 0 <= p < q < |log| && log[p].Create? && log[q].Create? ==>
          (log[p].node.base == log[q].node.base <==> !RenewIn(log, p, q)))
    && (forall p :: 0 <= p < |log| && log[p].Create? ==> (log[p].node.base == base <==> !RenewIn(log, p, |log|)))
  }

  lemma RenewInGrows(log: Log, op: Op, p: nat, q: nat)
    requires p < q <= |log|
    ensures RenewIn(log + [op], p, q) <==> RenewIn(log, p, q)
    ensures RenewIn(log + [op], p, |log| + 1) <==> RenewIn(log, p, |log|) || op.Renew?
  {
    if op.Renew? {
      assert (log + [op])[|log|].Renew?;
    }
    if RenewIn(log, p, q) {
      var x :| p < x < q && log[x].Renew?;
      assert (log + [op])[x].Renew?;
    }
    if RenewIn(log, p, |log|) {
      var x :| p < x < |log| && log[x].Renew?;
      assert (log + [op])[x].Renew?;
    }
  }

  lemma EpochsStay(s: State, a: Action)
    requires Inv(s) && Enabled(s, a) && Epochs(s.log, s.base)
    ensures Epochs(Next(s, a).log, Next(s, a).base)
  {
    var log, more := s.log, Effect(s, a);
    if more == [] {
      assert log + more == log;
    } else {
      assert more == [more[0]];
      var log', op := log + [more[0]], more[0];
      forall p | 0 <= p < |log'| && log'[p].Create?
        ensures log'[p].node.base == Next(s, a).base <==> !RenewIn(log', p, |log'|)
      {
        if p < |log| {
          RenewInGrows(log, op, p, |log|);
        }
      }
      forall p, q | 0 <= p < q < |log'| && log'[p].Create? && log'[q].Create?
        ensures log'[p].node.base == log'[q].node.base <==> !RenewIn(log', p, q)
      {
        RenewInGrows(log, op, p, q);
      }
    }
  }

  lemma {:induction false} RunEpochs(r: Run, i: nat)
    requires IsRun(r) && i < |r.states|
    ensures Epochs(r.states[i].log, r.states[i].base)
  {
    if i > 0 {
      RunInv(r, i - 1);
      RunStep(r, i - 1);
      RunEpochs(r, i - 1);
      EpochsStay(r.states[i - 1], r.actions[i - 1]);
    }
  }

  /** zkr_lock_isowner compares names, and names do not tell directories apart.  A claim
      on a live node is ownership exactly when the directory was not renewed between the
      creation of the node that ownerid was read from and the creation of the own node. */
  lemma ClaimIsOwnershipIff(r: Run, i: nat, c: Session)
    requires IsRun(r) && i < |r.states| && Claims(r.states[i], c)
    ensures var log, cl := r.states[i].log, r.states[i].clients[c];
            Owns(r.states[i], c) <==>
            !exists p, q :: 0 <= p < q < |log| && log[p] == Create(cl.ownerid.value) && log[q] == Create(cl.id.value)
                            && RenewIn(log, p, q)
  {
    var s := r.states[i];
    var log, cl := s.log, s.clients[c];
    RunInv(r, i);
    RunEpochs(r, i);
    ClaimByBase(s, c);
    assert ClientInv(log, c, cl);
    if !Owns(s, c) {
      var p :| 0 <= p < cl.view && log[p] == Create(cl.ownerid.value);
      var q :| 0 <= q < cl.view && log[q] == Create(cl.id.value);
      assert p < q;
    }
  }

  lemma {:induction false} UnrenewedBase(r: Run, i: nat)
    requires IsRun(r) && i < |r.states| && forall p :: 0 <= p < i ==> !r.actions[p].RenewDirectory?
    ensures r.states[i].base == 0
  {
    if i > 0 {
      UnrenewedBase(r, i - 1);
      RunStep(r, i - 1);
    }
  }

  /** While the directory is never renewed, every claim is ownership, so claims exclude each other. */
  lemma ClaimsExcludeUnrenewed(r: Run, i: nat, c: Session, d: Session)
    requires IsRun(r) && i < |r.states| && forall p :: 0 <= p < i ==> !r.actions[p].RenewDirectory?
    requires Claims(r.states[i], c) && Claims(r.states[i], d)
    ensures c == d
  {
    RunInv(r, i);
    UnrenewedBase(r, i);
    ClaimByBase(r.states[i], c);
    ClaimByBase(r.states[i], d);
    MutualExclusion(r, i, c, d);
  }

  /** ownerid has no namesake to meet: if it is of the own session, it is the own live node. */
  ghost predicate Fresh(log: Log, c: Session, cl: Client) {
    cl.ownerid.Some? && cl.ownerid.value.session == c ==> cl.id == cl.ownerid && cl.id.value in Live(log)
  }

  /** What can leave a namesake behind: the own node goes while ownerid stays. */
  predicate Forgets(a: Action, c: Session) {
    a.c == c && (a.DeleteOk? || a.DeleteLost? || a.ExpireSession?)
  }

  lemma FreshStays(s: State, a: Action, c: Session)
    requires Inv(s) && Enabled(s, a) && !Forgets(a, c)
    requires c in s.clients && Fresh(s.log, c, s.clients[c])
    ensures Fresh(Next(s, a).log, c, Next(s, a).clients[c])
  {
    if a.c == c && (a.Look? || a.List?) {
      assert s.log + [] == s.log;
      FreshReading(s, a);
    } else {
      OwnNodeStays(s, a, c);
    }
  }

  /** Nothing but the session's own deletes and expiry takes its node. */
  lemma OwnNodeStays(s: State, a: Action, c: Session)
    requires Inv(s) && Enabled(s, a) && !Forgets(a, c) && c in s.clients
    ensures var id := s.clients[c].id; id.Some? && id.value in Live(s.log) ==> id.value in Live(Next(s, a).log)
  {
    assert ClientInv(s.log, c, s.clients[c]) && ClientInv(s.log, a.c, s.clients[a.c]);
    PrefixLive(s.log, Effect(s, a), |s.log|);
    EffectBy(s, a);
  }

  lemma FreshReading(s: State, a: Action)
    requires Inv(s) && Enabled(s, a) && (a.Look? || a.List?) && Fresh(s.log, a.c, s.clients[a.c])
    ensures Fresh(s.log, a.c, Next(s, a).clients[a.c])
  {
    var c, cl := a.c, s.clients[a.c];
    assert ClientInv(s.log, c, cl);
    ReadOn(s.log, s.next, c, cl, a.k);
    ReadOn(s.log, s.next, c, cl, |s.log|);
    assert OnePerSession(LiveAt(s.log, a.k)) && OnePerSession(LiveAt(s.log, |s.log|));
    if a.List? && a.min.session == c {
      assert a.min in LiveAt(s.log, cl.view) && cl.id.value in LiveAt(s.log, cl.view);
      assert OnePerSession(LiveAt(s.log, cl.view));
    }
  }

  /** After zkr_lock_init every claim is ownership, renewals or not, as long as the
      session has not lost a node since. */
  lemma {:induction false} FreshSinceInit(r: Run, i: nat, j: nat, c: Session)
    requires IsRun(r) && i < j < |r.states| && r.actions[i] == Reinit(c)
    requires forall p :: i <= p < j ==> !Forgets(r.actions[p], c)
    ensures c in r.states[j].clients && Fresh(r.states[j].log, c, r.states[j].clients[c])
    ensures Claims(r.states[j], c) ==> Owns(r.states[j], c)
  {
    RunInv(r, j);
    if i + 1 < j {
      FreshSinceInit(r, i, j - 1, c);
      RunInv(r, j - 1);
      FreshStays(r.states[j - 1], r.actions[j - 1], c);
    } else {
      assert r.states[j] == Next(r.states[i], Reinit(c));
    }
    assert ClientInv(r.states[j].log, c, r.states[j].clients[c]);
  }

  /** m is c's node, live from s to t, and first in the queue already in s. */
  ghost predicate FirstInLine(s: State, t: State, c: Session, m: Node) {
    m.session == c && m in Live(s.log) && m in Live(t.log) && SettledAt(s.log, |s.log|, m)
  }

  /** Progress: a listing read at s or later finds the first in line and puts it first. */
  lemma FirstIsServed(s: State, u: State, t: State, c: Session, m: Node, k: nat)
    requires Inv(s) && Inv(u) && Inv(t) && s.log <= u.log <= t.log
    requires |s.log| <= k <= |u.log| && FirstInLine(s, t, c, m)
    ensures forall r :: IsFound(LiveAt(u.log, k), c, r) ==> r == Some(m)
    ensures forall n :: IsMin(LiveAt(u.log, k), n) ==> n == m
  {
    LiveWasCreated(s.log, |s.log|, m);
    LiveEarlier(s.log, u.log, t.log, t.next, m);
    assert u.log == s.log + u.log[|s.log|..];
    PrefixLive(s.log, u.log[|s.log|..], |s.log|);
    CreatedGrows(s.log, u.log[|s.log|..], |s.log|, m);
    SettledStays(u.log, u.next, |s.log|, k, m);
    LiveBetween(u.log, u.next, k, |u.log|, m);
    assert OnePerSession(LiveAt(u.log, k)) && OneDirectory(LiveAt(u.log, k));
    forall n | IsMin(LiveAt(u.log, k), n) ensures n == m {
      LiveWasCreated(u.log, k, n);
      SameNumberSameNode(u.log, u.next, k, n, m);
    }
  }

  // ---------------------------------------------------------------- watching the floor

  /** zoo_wexists asks for a name.  While the waiter's own node keeps the directory in
      being, that name is the floor itself, and no namesake of it. */
  lemma WatchFindsFloorIff(s: State, c: Session, k: nat)
    requires Inv(s) && c in s.clients && s.clients[c].pc.Watching? && !s.clients[c].expired
    requires s.clients[c].view <= k <= |s.log|
    ensures var p := s.clients[c].pc.floor; HasName(LiveAt(s.log, k), p) <==> p in LiveAt(s.log, k)
  {
    var cl := s.clients[c];
    assert ClientInv(s.log, c, cl);
    ReadOn(s.log, s.next, c, cl, k);
    assert OneDirectory(LiveAt(s.log, k));
  }

  /** c is about to watch a node that is gone from all it can be shown. */
  predicate MissedFloor(s: State, c: Session) {
    && c in s.clients && s.clients[c].pc.Watching? && s.clients[c].view <= |s.log|
    && s.clients[c].pc.floor !in LiveAt(s.log, s.clients[c].view)
  }

  /** Then zoo_wexists does not answer ZOK, from whatever prefix it is answered. */
  lemma MissedFloorUnwatched(s: State, c: Session, k: nat)
    requires Inv(s) && MissedFloor(s, c)
    ensures !Enabled(s, WatchOk(c, k))
  {
    var cl := s.clients[c];
    assert ClientInv(s.log, c, cl);
    if Enabled(s, WatchOk(c, k)) {
      WatchFindsFloorIff(s, c, k);
      LiveBetween(s.log, s.next, cl.view, k, cl.pc.floor);
      assert false;
    }
  }

  predicate GivesUp(a: Action, c: Session) {
    a.c == c && (a.WatchGone? || a.WatchFail?)
  }

  lemma MissedFloorStep(s: State, a: Action, c: Session)
    requires Inv(s) && Enabled(s, a) && MissedFloor(s, c)
    ensures GivesUp(a, c) || MissedFloor(Next(s, a), c)
    ensures GivesUp(a, c) ==> Next(s, a).clients[c].pc == GivingUp
  {
    var cl, t := s.clients[c], Next(s, a);
    StepInv(s, a);
    assert ClientInv(s.log, c, cl) && ClientInv(t.log, c, t.clients[c]);
    PrefixLive(s.log, Effect(s, a), cl.view);
    if a.c == c && a.WatchOk? {
      MissedFloorUnwatched(s, c, a.k);
    } else if !GivesUp(a, c) {
      CreatedGrows(s.log, Effect(s, a), cl.view, cl.pc.floor);
      EffectOrdered(s, a);
      if cl.pc.floor in LiveAt(t.log, t.clients[c].view) {
        LiveBetween(t.log, t.next, cl.view, t.clients[c].view, cl.pc.floor);
      }
    }
  }

  /** In every run a waiter whose floor is gone when it comes to watch it gives up, or is
      still about to watch. */
  lemma {:induction false} MissedFloorGivesUp(r: Run, i: nat, j: nat, c: Session)
    requires IsRun(r) && i <= j < |r.states| && MissedFloor(r.states[i], c)
    ensures MissedFloor(r.states[j], c) || exists p :: i <= p < j && GivesUp(r.actions[p], c)
  {
    if i < j {
      RunInv(r, j - 1);
      RunStep(r, j - 1);
      MissedFloorGivesUp(r, i, j - 1, c);
      if MissedFloor(r.states[j - 1], c) {
        MissedFloorStep(r.states[j - 1], r.actions[j - 1], c);
        assert GivesUp(r.actions[j - 1], c) || MissedFloor(r.states[j], c);
      }
    }
  }

  // ---------------------------------------------------------------- watch chain

  /** p is the queue's last node before me. */
  predicate IsPredecessor(nodes: set<Node>, me: Node, p: Node) {
    p in nodes && p.shown < me.shown && forall n :: n in nodes && n.shown < me.shown ==> n.shown <= p.shown
  }

  ghost predicate DistinctNumbers(nodes: set<Node>) {
    forall n, m :: n in nodes && m in nodes && n.shown == m.shown ==> n == m
  }

  /** On this listing the order of whole names is the order of numbers. */
  ghost predicate NamesFollowNumbers(nodes: set<Node>) {
    forall n, m :: n in nodes && m in nodes ==> (NameLess(n, m) <==> n.shown < m.shown)
  }

  /** child_floor finds the predecessor exactly when the predecessor's session id
      is not above the waiter's own and no later node's session id is below it. */
  lemma FloorIsPredecessorIff(nodes: set<Node>, me: Node, p: Node, r: Option<Node>)
    requires DistinctNumbers(nodes) && me in nodes && IsPredecessor(nodes, me, p) && IsFloor(nodes, me, r)
    ensures r == Some(p) <==>
            && p.session <= me.session
            && forall n :: n in nodes && n.shown > me.shown ==> me.session <= n.session
  {
    if r.Some? && r != Some(p) && p.session <= me.session {
      assert r.value.shown > me.shown;
    }
  }

  /** A waiter sets no watch at all exactly when every other session listed is above its own. */
  lemma UnwatchedIff(nodes: set<Node>, me: Node, r: Option<Node>)
    requires me in nodes && OnePerSession(nodes) && IsFloor(nodes, me, r)
    ensures r == None <==> forall n :: n in nodes && n != me ==> me.session < n.session
  {
    if r.Some? {
      assert r.value != me;
    }
  }

  /** An owner is given a node to watch exactly when some session listed is below its own. */
  lemma OwnerWatchesIff(nodes: set<Node>, me: Node, r: Option<Node>)
    requires IsMin(nodes, me) && IsFloor(nodes, me, r)
    ensures r.Some? <==> exists n :: n in nodes && n.session < me.session
  {
    if r.Some? {
      assert NameLess(r.value, me) && me.shown <= r.value.shown;
    }
  }

  /** With agreeing orders the watches form the queue's chain. */
  lemma WatchChain(nodes: set<Node>, me: Node, r: Option<Node>)
    requires DistinctNumbers(nodes) && NamesFollowNumbers(nodes)
    requires me in nodes && IsFloor(nodes, me, r)
    ensures r == None <==> IsMin(nodes, me)
    ensures r.Some? ==> IsPredecessor(nodes, me, r.value)
  {
    if r.Some? {
      assert r.value.shown < me.shown;
    }
  }

  lemma WatchesDiffer(nodes: set<Node>, me: Node, r: Option<Node>, you: Node, q: Option<Node>)
    requires DistinctNumbers(nodes) && NamesFollowNumbers(nodes)
    requires me in nodes && you in nodes && me != you
    requires IsFloor(nodes, me, r) && IsFloor(nodes, you, q) && r.Some? && q.Some?
    ensures r != q
  {
    WatchChain(nodes, me, r);
    WatchChain(nodes, you, q);
  }
}
