/** The lock recipe as a transition system.  Every client is the program-counter
    machine of zkr_lock_operation and zkr_lock_unlock; one action is one server
    call together with the local updates that follow it.  Which prefix of the
    log a read sees, which replies are lost and when sessions expire are all
    left to the adversary. */
module LockProtocol {
  import opened CStrings
  import opened ServerLog

  datatype PC =
    | Idle       // outside zkr_lock_operation
    | Creating   // the lookup found no node of this session
    | Named      // mutex->id is set, the queue has to be listed
    | Watching(floor: Node)   // ownerid is set and a predecessor has to be watched
    | GivingUp   // the predecessor could not be watched

  /** One zkr_lock_mutex_t with its connection.  view is how far into the log
      this session has read: a lower bound for all its later reads. */
  datatype Client = Client(id: Option<Node>, ownerid: Option<Node>, pc: PC, view: nat, expired: bool)

  /** next is above all numbers given out, base where the present directory started. */
  datatype State = State(log: Log, next: nat, base: nat, clients: map<Session, Client>)

  datatype Action =
    | Look(c: Session, k: nat, found: Option<Node>)                  // first zoo_get_children answered
    | CreateOk(c: Session, shown: nat)                               // zoo_create answered ZOK
    | CreateLost(c: Session, shown: nat)                             // committed, but the reply is lost
    | List(c: Session, k: nat, min: Node, floor: Option<Node>)       // second zoo_get_children answered
    | WatchOk(c: Session, k: nat)                                    // zoo_wexists answered ZOK
    | WatchGone(c: Session, k: nat)                                  // zoo_wexists answered ZNONODE
    | WatchFail(c: Session)                                          // zoo_wexists was not answered
    | DeleteOk(c: Session, gone: Option<Node>)                       // ZOK, or ZNONODE when already gone
    | DeleteLost(c: Session, gone: Option<Node>)                     // committed, but the reply is lost
    | Fail(c: Session)                                               // a call failed without effect
    | Reinit(c: Session)                                             // zkr_lock_init for a new request
    | Fetch(c: Session, k: nat)                                      // a read of the guarded data node
    | Put(c: Session, value: Option<Znode>)                          // a write to the guarded data node
    | GcDelete(c: Session, cutOff: int, seen: nat)                   // PS_GC_FUNC's zoo_delete of the data node
    | Local(c: Session)                                              // a step of the process that calls no server
    | ExpireSession(c: Session)
    | RenewDirectory(c: Session)                                     // the empty lock directory is replaced

  /** strcmp order of whole names: session first, number second. */
  predicate NameLess(n: Node, m: Node) {
    n.session < m.session || (n.session == m.session && n.shown < m.shown)
  }

  /** Equal names: the directory a node was in does not show. */
  predicate SameName(n: Node, m: Node) {
    n.session == m.session && n.shown == m.shown
  }

  predicate IsMin(nodes: set<Node>, m: Node) {
    m in nodes && forall n :: n in nodes ==> m.shown <= n.shown
  }

  /** child_floor on a listing sorted by number. */
  predicate IsFloor(nodes: set<Node>, me: Node, r: Option<Node>) {
    match r
    case None => forall n :: n in nodes ==> !NameLess(n, me)
    case Some(p) =>
      && p in nodes && NameLess(p, me)
      && forall n :: n in nodes && NameLess(n, me) ==> n.shown <= p.shown
  }

  /** lookupnode on a listing. */
  predicate IsFound(nodes: set<Node>, c: Session, r: Option<Node>) {
    match r
    case None => forall n :: n in nodes ==> n.session != c
    case Some(p) => p in nodes && p.session == c
  }

  predicate HasName(nodes: set<Node>, n: Node) {
    exists m :: m in nodes && SameName(m, n)
  }

  /** The node that a delete by name hits. */
  predicate IsNamed(nodes: set<Node>, n: Node, r: Option<Node>) {
    match r
    case None => !HasName(nodes, n)
    case Some(m) => m in nodes && SameName(m, n)
  }

  /** zkr_lock_isowner: a comparison of names. */
  predicate IsOwner(cl: Client) {
    cl.id.Some? && cl.ownerid.Some? && SameName(cl.id.value, cl.ownerid.value)
  }

  /** The client says it owns the lock, and its node still exists. */
  predicate Claims(s: State, c: Session) {
    c in s.clients && IsOwner(s.clients[c]) && s.clients[c].id.value in Live(s.log)
  }

  /** The claim is about the node itself, not about a namesake in an earlier directory. */
  predicate Owns(s: State, c: Session) {
    Claims(s, c) && s.clients[c].id == s.clients[c].ownerid
  }

  predicate Enabled(s: State, a: Action) {
    a.c in s.clients &&
    var cl := s.clients[a.c];
    match a
    case Look(c, k, found) =>
      !cl.expired && cl.pc == Idle && cl.view <= k <= |s.log| && IsFound(LiveAt(s.log, k), c, found)
    case CreateOk(_, shown) => !cl.expired && cl.pc == Creating && s.next <= s.base + shown && shown <= MAX_SEQ
    case CreateLost(_, shown) => !cl.expired && cl.pc == Creating && s.next <= s.base + shown && shown <= MAX_SEQ
    case List(_, k, min, floor) =>
      && !cl.expired && cl.pc == Named && cl.id.Some? && cl.view <= k <= |s.log|
      && IsMin(LiveAt(s.log, k), min) && IsFloor(LiveAt(s.log, k), cl.id.value, floor)
    case WatchOk(_, k) =>
      !cl.expired && cl.pc.Watching? && cl.view <= k <= |s.log| && HasName(LiveAt(s.log, k), cl.pc.floor)
    case WatchGone(_, k) =>
      !cl.expired && cl.pc.Watching? && cl.view <= k <= |s.log| && !HasName(LiveAt(s.log, k), cl.pc.floor)
    case WatchFail(_) => cl.pc.Watching?
    case DeleteOk(_, gone) => MayDelete(s, cl, gone)
    case DeleteLost(_, gone) => MayDelete(s, cl, gone)
    case Fail(_) => !cl.pc.Watching?
    case Reinit(_) => cl.pc == Idle
    case Fetch(_, k) => !cl.expired && cl.view <= k <= |s.log|
    case Put(_, _) => !cl.expired
    case GcDelete(_, cutOff, seen) =>
      !cl.expired && seen <= cl.view && seen <= |s.log| && ExpiredAt(s.log, seen, cutOff)
      && ValueAt(s.log, |s.log|).Some?
    case Local(_) => true
    case ExpireSession(_) => !cl.expired
    case RenewDirectory(_) => Live(s.log) == {}
  }

  /** zoo_delete of the path made from mutex->id. */
  predicate MayDelete(s: State, cl: Client, gone: Option<Node>) {
    && !cl.expired && (cl.pc == Idle || cl.pc == GivingUp)
    && cl.id.Some? && IsNamed(Live(s.log), cl.id.value, gone)
  }

  function Effect(s: State, a: Action): Log
    requires Enabled(s, a)
  {
    match a
    case CreateOk(c, shown) => [Create(Node(s.base, shown, c))]
    case CreateLost(c, shown) => [Create(Node(s.base, shown, c))]
    case DeleteOk(_, gone) => if gone.Some? then [Delete(gone.value)] else []
    case DeleteLost(_, gone) => if gone.Some? then [Delete(gone.value)] else []
    case Put(c, v) => [Write(c, v)]
    case GcDelete(c, cutOff, seen) => [Collect(c, cutOff, seen)]
    case ExpireSession(c) => [Expire(c)]
    case RenewDirectory(_) => [Renew]
    case _ => []
  }

  /** The acting client afterwards; end is the new length of the log. */
  function Moved(cl: Client, a: Action, base: nat, end: nat): Client {
    match a
    case Look(_, k, found) => cl.(id := found, pc := if found.Some? then Named else Creating, view := k)
    case CreateOk(c, shown) => cl.(id := Some(Node(base, shown, c)), pc := Named, view := end)
    case CreateLost(_, _) => cl.(pc := Idle, view := end)
    case List(_, k, min, floor) =>
      cl.(ownerid := Some(min), pc := if floor.Some? then Watching(floor.value) else Idle, view := k)
    case WatchOk(_, k) => cl.(pc := Idle, view := k)
    case WatchGone(_, k) => cl.(pc := GivingUp, view := k)
    case WatchFail(_) => cl.(pc := GivingUp)
    case DeleteOk(_, _) => cl.(id := None, view := end)
    case DeleteLost(_, _) => cl.(view := end)
    case Fail(_) => cl.(pc := Idle)
    case Reinit(_) => cl.(id := None, ownerid := None)
    case Fetch(_, k) => cl.(view := k)
    case Put(_, _) => cl.(view := end)
    case GcDelete(_, _, _) => cl.(view := end)
    case Local(_) => cl
    case ExpireSession(_) => cl.(expired := true)
    case RenewDirectory(_) => cl
  }

  function Next(s: State, a: Action): State
    requires Enabled(s, a)
  {
    var log := s.log + Effect(s, a);
    var next := if a.CreateOk? || a.CreateLost? then s.base + a.shown + 1 else s.next;
    var base := if a.RenewDirectory? then s.next else s.base;
    State(log, next, base, s.clients[a.c := Moved(s.clients[a.c], a, s.base, |log|)])
  }

  predicate Init(s: State) {
    && s.log == [] && s.next == 0 && s.base == 0
    && forall c :: c in s.clients ==> s.clients[c] == Client(None, None, Idle, 0, false)
  }

  // ---------------------------------------------------------------- invariant

  ghost predicate ClientInv(log: Log, c: Session, cl: Client) {
    && cl.view <= |log|
    && (cl.id.Some? ==> cl.id.value.session == c && CreatedBefore(log, cl.view, cl.id.value))
    && (cl.ownerid.Some? ==> SettledAt(log, cl.view, cl.ownerid.value))
    && (cl.pc == Creating ==> cl.id.None? && forall n :: n in LiveAt(log, cl.view) ==> n.session != c)
    && (cl.pc == Named ==> cl.id.Some? && cl.id.value in LiveAt(log, cl.view))
    && (cl.pc.Watching? ==>
          && cl.id.Some? && cl.id.value in LiveAt(log, cl.view)
          && cl.pc.floor.base == cl.id.value.base && CreatedBefore(log, cl.view, cl.pc.floor))
    && (forall i :: cl.view <= i < |log| && log[i].By(c) ==> cl.expired && log[i] == Expire(c))
  }

  ghost predicate Inv(s: State) {
    && Ordered(s.log, s.next) && Ranged(s.log, s.base) && s.base <= s.next
    && (forall k :: 0 <= k <= |s.log| ==> OnePerSession(LiveAt(s.log, k)) && OneDirectory(LiveAt(s.log, k)))
    && (forall n :: n in Live(s.log) ==> n.base == s.base)
    && (forall c :: c in s.clients ==> ClientInv(s.log, c, s.clients[c]))
  }

  lemma InitInv(s: State)
    requires Init(s)
    ensures Inv(s)
  {
  }

  /** Commits of others leave a client's invariant alone: it speaks about the
      part of the log the client has read. */
  lemma ClientInvGrows(log: Log, more: Log, c: Session, cl: Client)
    requires ClientInv(log, c, cl)
    requires forall i :: 0 <= i < |more| && more[i].By(c) ==> cl.expired && more[i] == Expire(c)
    ensures ClientInv(log + more, c, cl)
  {
    PrefixLive(log, more, cl.view);
    if cl.id.Some? {
      CreatedGrows(log, more, cl.view, cl.id.value);
    }
    if cl.ownerid.Some? {
      CreatedGrows(log, more, cl.view, cl.ownerid.value);
    }
    if cl.pc.Watching? {
      CreatedGrows(log, more, cl.view, cl.pc.floor);
    }
  }

  lemma CreatedGrows(log: Log, more: Log, k: nat, n: Node)
    requires k <= |log| && CreatedBefore(log, k, n)
    ensures CreatedBefore(log + more, k, n)
  {
    var i :| 0 <= i < k && log[i] == Create(n);
    assert (log + more)[i] == Create(n);
  }

  /** Reading further, or to the end after an own commit, keeps what a client knows. */
  lemma {:induction false} ReadOn(log: Log, next: nat, c: Session, cl: Client, k: nat)
    requires Ordered(log, next) && ClientInv(log, c, cl) && cl.view <= k <= |log|
    ensures cl.id.Some? ==> CreatedBefore(log, k, cl.id.value)
    ensures cl.ownerid.Some? ==> SettledAt(log, k, cl.ownerid.value)
    ensures !cl.expired ==> forall n :: n in LiveAt(log, k) && n.session == c ==> n in LiveAt(log, cl.view)
    ensures !cl.expired ==> forall n :: n in LiveAt(log, cl.view) && n.session == c ==> n in LiveAt(log, k)
  {
    if cl.ownerid.Some? {
      SettledStays(log, next, cl.view, k, cl.ownerid.value);
    }
    if !cl.expired {
      forall n: Node | n.session == c ensures n in LiveAt(log, cl.view) <==> n in LiveAt(log, k) {
        QuietKeeps(log, cl.view, k, n);
      }
    }
  }

  lemma EffectBy(s: State, a: Action)
    requires Enabled(s, a) && ClientInv(s.log, a.c, s.clients[a.c])
    ensures |Effect(s, a)| <= 1
    ensures forall i, d :: 0 <= i < |Effect(s, a)| && d != a.c ==> !Effect(s, a)[i].By(d)
  {
  }

  lemma EffectOrdered(s: State, a: Action)
    requires Enabled(s, a) && Ordered(s.log, s.next) && Ranged(s.log, s.base) && s.base <= s.next
    ensures Ordered(Next(s, a).log, Next(s, a).next) && Ranged(Next(s, a).log, Next(s, a).base)
    ensures Next(s, a).base <= Next(s, a).next
  {
  }

  /** A client about to create has no live node. */
  lemma CreatorHasNone(s: State, c: Session)
    requires Inv(s) && c in s.clients && s.clients[c].pc == Creating && !s.clients[c].expired
    ensures forall n :: n in Live(s.log) ==> n.session != c
  {
    assert ClientInv(s.log, c, s.clients[c]);
    ReadOn(s.log, s.next, c, s.clients[c], |s.log|);
  }

  /** No action makes a second live node for a session, and the nodes live together
      are children of one directory. */
  lemma LiveUnique(s: State, a: Action)
    requires Inv(s) && Enabled(s, a)
    ensures var t := Next(s, a);
            OnePerSession(Live(t.log)) && OneDirectory(Live(t.log)) && forall n :: n in Live(t.log) ==> n.base == t.base
  {
    var log, more := s.log, Effect(s, a);
    PrefixLive(log, more, |log|);
    assert OnePerSession(LiveAt(log, |log|)) && OneDirectory(LiveAt(log, |log|));
    if a.CreateOk? || a.CreateLost? {
      CreatorHasNone(s, a.c);
      assert Live(log + more) == Live(log) + {Node(s.base, a.shown, a.c)};
    } else {
      OnlyCreateAdds(log, more);
    }
  }

  lemma OnlyCreateAdds(log: Log, more: Log)
    requires more == [] || (|more| == 1 && !more[0].Create?)
    ensures Live(log + more) <= Live(log)
  {
    PrefixLive(log, more, |log|);
    if more == [] {
      assert log + more == log;
    }
  }

  /** The same for every prefix. */
  lemma EffectUnique(s: State, a: Action)
    requires Inv(s) && Enabled(s, a)
    ensures var log := Next(s, a).log;
            forall k :: 0 <= k <= |log| ==> OnePerSession(LiveAt(log, k)) && OneDirectory(LiveAt(log, k))
  {
    var log := Next(s, a).log;
    EffectBy(s, a);
    LiveUnique(s, a);
    forall k | 0 <= k <= |log| ensures OnePerSession(LiveAt(log, k)) && OneDirectory(LiveAt(log, k)) {
      if k <= |s.log| {
        PrefixLive(s.log, Effect(s, a), k);
        assert OnePerSession(LiveAt(s.log, k)) && OneDirectory(LiveAt(s.log, k));
      } else {
        assert k == |log|;
      }
    }
  }

  /** Reading further keeps all that a client knows. */
  lemma ViewGrows(log: Log, next: nat, c: Session, cl: Client, k: nat)
    requires Ordered(log, next) && ClientInv(log, c, cl) && !cl.expired && cl.view <= k <= |log|
    ensures ClientInv(log, c, cl.(view := k))
  {
    ReadOn(log, next, c, cl, k);
  }

  /** A client that only reads. */
  lemma ReaderInv(s: State, a: Action)
    requires Inv(s) && Enabled(s, a) && Effect(s, a) == []
    ensures ClientInv(s.log, a.c, Moved(s.clients[a.c], a, s.base, |s.log|))
  {
    var cl := s.clients[a.c];
    assert ClientInv(s.log, a.c, cl);
    match a
    case Look(c, k, found) =>
      ViewGrows(s.log, s.next, c, cl, k);
      if found.Some? {
        LiveWasCreated(s.log, k, found.value);
      }
    case List(c, k, min, floor) =>
      ViewGrows(s.log, s.next, c, cl, k);
      ListedInv(s, a);
    case WatchOk(c, k) => ViewGrows(s.log, s.next, c, cl, k);
    case WatchGone(c, k) => ViewGrows(s.log, s.next, c, cl, k);
    case Fetch(c, k) => ViewGrows(s.log, s.next, c, cl, k);
    case DeleteOk(c, _) => ViewGrows(s.log, s.next, c, cl, |s.log|);
    case DeleteLost(c, _) => ViewGrows(s.log, s.next, c, cl, |s.log|);
    case _ =>
  }

  /** What a listing shows existed, in one directory. */
  lemma ListedInv(s: State, a: Action)
    requires Inv(s) && Enabled(s, a) && a.List?
    requires ClientInv(s.log, a.c, s.clients[a.c].(view := a.k))
    ensures ClientInv(s.log, a.c, Moved(s.clients[a.c], a, s.base, |s.log|))
  {
    LiveWasCreated(s.log, a.k, a.min);
    if a.floor.Some? {
      LiveWasCreated(s.log, a.k, a.floor.value);
      assert OneDirectory(LiveAt(s.log, a.k));
    }
  }

  /** What a client knows is still so one own commit later. */
  lemma KnownAfterCommit(s: State, c: Session, op: Op, next: nat)
    requires Inv(s) && c in s.clients && Ordered(s.log + [op], next)
    ensures var cl, log := s.clients[c], s.log + [op];
            && (cl.id.Some? ==> cl.id.value.session == c && CreatedBefore(log, |log|, cl.id.value))
            && (cl.ownerid.Some? ==> SettledAt(log, |log|, cl.ownerid.value))
            && (cl.pc.Watching? ==> CreatedBefore(log, |log|, cl.pc.floor))
  {
    var cl, log := s.clients[c], s.log + [op];
    assert ClientInv(s.log, c, cl);
    PrefixLive(s.log, [op], cl.view);
    if cl.id.Some? {
      CreatedGrows(s.log, [op], cl.view, cl.id.value);
    }
    if cl.ownerid.Some? {
      CreatedGrows(s.log, [op], cl.view, cl.ownerid.value);
      SettledStays(log, next, cl.view, |log|, cl.ownerid.value);
    }
    if cl.pc.Watching? {
      CreatedGrows(s.log, [op], cl.view, cl.pc.floor);
    }
  }

  /** A client that commits reads up to its own commit. */
  lemma WriterInv(s: State, a: Action)
    requires Inv(s) && Enabled(s, a) && Effect(s, a) != []
    requires !a.ExpireSession? && !a.RenewDirectory?
    ensures ClientInv(Next(s, a).log, a.c, Moved(s.clients[a.c], a, s.base, |Next(s, a).log|))
  {
    var cl, op := s.clients[a.c], Effect(s, a)[0];
    EffectOrdered(s, a);
    assert s.log + [op] == Next(s, a).log;
    KnownAfterCommit(s, a.c, op, Next(s, a).next);
    assert ClientInv(s.log, a.c, cl);
    assert (s.log + [op])[|s.log|] == op;
    if a.Put? || a.GcDelete? {
      ReadOn(s.log, s.next, a.c, cl, |s.log|);
      PrefixLive(s.log, [op], |s.log|);
    }
  }

  /** What the server commits by itself, the client does not read. */
  lemma UnreadCommitInv(s: State, a: Action)
    requires Inv(s) && Enabled(s, a) && (a.ExpireSession? || a.RenewDirectory?)
    ensures ClientInv(Next(s, a).log, a.c, Moved(s.clients[a.c], a, s.base, |Next(s, a).log|))
  {
    var cl := s.clients[a.c];
    assert ClientInv(s.log, a.c, cl);
    ClientInvGrows(s.log, Effect(s, a), a.c, Moved(cl, a, s.base, |Next(s, a).log|));
  }

  lemma StepInv(s: State, a: Action)
    requires Inv(s) && Enabled(s, a)
    ensures Inv(Next(s, a))
  {
    EffectOrdered(s, a);
    LiveUnique(s, a);
    EffectUnique(s, a);
    EffectBy(s, a);
    if Effect(s, a) == [] {
      assert s.log + [] == s.log;
      ReaderInv(s, a);
    } else if a.ExpireSession? || a.RenewDirectory? {
      UnreadCommitInv(s, a);
    } else {
      WriterInv(s, a);
    }
    forall d | d in s.clients && d != a.c ensures ClientInv(Next(s, a).log, d, s.clients[d]) {
      ClientInvGrows(s.log, Effect(s, a), d, s.clients[d]);
    }
  }
}
