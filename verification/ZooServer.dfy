/** The server side of every call the lock code makes.  Each call first lets the
    other sessions act, then commits, fails or loses its reply as it likes.  The
    server remembers the run so far: a run of the lock protocol. */
module ZooServer {
  import opened CStrings
  import opened Calls
  import opened ServerLog
  import opened LockProtocol
  import opened LockSafety
  import opened NodeNames
  import opened ReturnCodes

  /** What an answer to zoo_wexists means for the waiter. */
  function WatchAction(c: Session, rc: int, k: nat): Action {
    if rc == ZOK then WatchOk(c, k) else if rc == ZNONODE then WatchGone(c, k) else WatchFail(c)
  }

  /** The actions of session c itself, as opposed to those the server takes. */
  predicate OwnAction(a: Action, c: Session) {
    a.c == c && !a.ExpireSession? && !a.RenewDirectory?
  }

  predicate NoAction(a: Action) { false }

  predicate LockAction(a: Action) {
    a.Look? || a.CreateOk? || a.CreateLost? || a.List? || a.WatchOk? || a.WatchGone? || a.WatchFail? || a.Fail?
  }

  /** The text of the data node; when it was written is the server's to say. */
  function TextOf(value: Option<Znode>): Option<string> {
    if value.Some? then Some(value.value.text) else None
  }

  /** Commits of that text to the data node, or of its removal, and nothing else. */
  function StoreAction(text: Option<string>): Action -> bool {
    (a: Action) => a.Put? && TextOf(a.value) == text
  }

  predicate UnlockAction(a: Action) {
    a.DeleteOk? || a.DeleteLost?
  }

  /** r' continues r, and c itself took only actions of the given kind. */
  ghost predicate Grew(r: Run, r': Run, c: Session, kind: Action -> bool) {
    && r.states <= r'.states && r.actions <= r'.actions
    && forall i :: |r.actions| <= i < |r'.actions| && OwnAction(r'.actions[i], c) ==> kind(r'.actions[i])
  }

  lemma GrewOn(r: Run, r': Run, r'': Run, c: Session, kind: Action -> bool)
    requires Grew(r, r', c, kind) && (Grew(r', r'', c, kind) || Grew(r', r'', c, NoAction))
    ensures Grew(r, r'', c, kind)
  {
  }

  lemma GrewAfter(r: Run, r': Run, r'': Run, c: Session, kind: Action -> bool)
    requires Grew(r, r', c, NoAction) && Grew(r', r'', c, kind)
    ensures Grew(r, r'', c, kind)
  {
  }

  lemma GrewWider(r: Run, r': Run, c: Session, kind: Action -> bool, wide: Action -> bool)
    requires Grew(r, r', c, kind) && forall a {:trigger kind(a)} :: kind(a) ==> wide(a)
    ensures Grew(r, r', c, wide)
  {
  }

  /** Two stretches of different kinds make one of a kind that covers both. */
  lemma GrewBoth(r: Run, r': Run, r'': Run, c: Session,
                 first: Action -> bool, second: Action -> bool, kind: Action -> bool)
    requires Grew(r, r', c, first) && Grew(r', r'', c, second)
    requires forall a {:trigger first(a)} :: first(a) ==> kind(a)
    requires forall a {:trigger second(a)} :: second(a) ==> kind(a)
    ensures Grew(r, r'', c, kind)
  {
  }

  /** Other sessions have moved; all c may notice is a longer log and its own expiry. */
  ghost predicate OthersMoved(s: State, t: State, c: Session) {
    && c in s.clients && c in t.clients && s.log <= t.log
    && t.clients[c] == s.clients[c].(expired := t.clients[c].expired)
  }

  lemma OthersMove(s: State, a: Action, c: Session)
    requires Enabled(s, a) && c in s.clients && !OwnAction(a, c)
    ensures OthersMoved(s, Next(s, a), c)
  {
  }

  lemma LiveInRange(s: State, k: nat)
    requires Inv(s) && k <= |s.log|
    ensures InRange(LiveAt(s.log, k)) && OneDirectory(LiveAt(s.log, k))
  {
    assert OneDirectory(LiveAt(s.log, k));
    forall n | n in LiveAt(s.log, k) ensures n.shown <= MAX_SEQ {
      LiveWasCreated(s.log, k, n);
    }
  }

  /** What the client knows shows numbers that a name can hold. */
  predicate InRangeOf(cl: Client) {
    (cl.id.Some? ==> cl.id.value.shown <= MAX_SEQ) && (cl.ownerid.Some? ==> cl.ownerid.value.shown <= MAX_SEQ)
  }

  lemma KnownInRange(s: State, c: Session)
    requires Inv(s) && c in s.clients
    ensures InRangeOf(s.clients[c])
  {
    assert ClientInv(s.log, c, s.clients[c]);
  }

  /** The children of the lock directory, in whatever order. */
  method Children(nodes: set<Node>) returns (names: seq<string>)
    requires InRange(nodes) && OneDirectory(nodes)
    ensures IsListing(names, nodes)
  {
    names := [];
    var rest := nodes;
    while rest != {}
      invariant rest <= nodes && IsListing(names, nodes - rest)
      decreases |rest|
    {
      var n :| n in rest;
      ghost var listed := nodes - rest;
      ghost var before := names;
      names := names + [Name(n)];
      rest := rest - {n};
      assert nodes - rest == listed + {n};
      AddToListing(before, listed, n);
    }
    assert nodes - rest == nodes;
  }

  lemma AddToListing(names: seq<string>, nodes: set<Node>, n: Node)
    requires IsListing(names, nodes) && n.shown <= MAX_SEQ && OneDirectory(nodes + {n})
    ensures IsListing(names + [Name(n)], nodes + {n})
  {
    forall s | s in names + [Name(n)] ensures exists m :: m in nodes + {n} && Name(m) == s {
      if s in names {
        var m :| m in nodes && Name(m) == s;
        assert m in nodes + {n};
      } else {
        assert n in nodes + {n};
      }
    }
  }

  lemma SamePath(dir: string, a: string, b: string)
    ensures dir + "/" + a == dir + "/" + b <==> a == b
  {
    assert (dir + "/" + a)[|dir| + 1..] == a && (dir + "/" + b)[|dir| + 1..] == b;
  }

  predicate Commits(a: Action, c: Session, text: Option<string>) {
    a.c == c && StoreAction(text)(a)
  }

  function MtimeOf(value: Option<Znode>): int {
    if value.Some? then value.value.mtime else 0
  }

  predicate GcAction(a: Action) {
    a.GcDelete?
  }

  /** No queue node has this path. */
  ghost predicate Absent(dir: string, log: Log, path: string) {
    forall n :: n in Live(log) ==> dir + "/" + Name(n) != path
  }

  class Server {
    const dir: string         // the path of the lock directory
    const data: string        // the path of the data node
    var losses: nat           // how many replies of calls on the data node will still be lost
    var state: State
    ghost var run: Run
    ghost var calls: seq<Call>

    ghost predicate Valid()
      reads `state, `run
    {
      IsRun(run) && run.states[|run.actions|] == state
    }

    lemma Reachable()
      requires Valid()
      ensures Inv(state)
    {
      RunInv(run, |run.actions|);
    }

    constructor (dir: string, data: string, losses: nat, s: State)
      requires Init(s)
      ensures Valid() && this.dir == dir && this.data == data && state == s && calls == []
      ensures run == Run([s], [])
    {
      this.dir, this.data, this.losses := dir, data, losses;
      state := s;
      run := Run([s], []);
      calls := [];
    }

    /** Extends the run by one action of the protocol. */
    method Step(a: Action)
      requires Valid() && Enabled(state, a)
      modifies this`state, this`run
      ensures Valid() && state == Next(old(state), a)
      ensures run.states == old(run).states + [state] && run.actions == old(run).actions + [a]
    {
      ExtendedIsRun(run, a);
      run := Extended(run, a);
      state := Next(state, a);
    }

    /** Any number of actions of other sessions, expiries and renewals of the directory. */
    method Interfere(c: Session)
      requires Valid() && c in state.clients
      modifies this`state, this`run
      ensures Valid() && OthersMoved(old(state), state, c) && Grew(old(run), run, c, NoAction)
    {
      var steps: nat := *;
      while steps > 0
        invariant Valid() && OthersMoved(old(state), state, c) && Grew(old(run), run, c, NoAction)
      {
        var a: Action := *;
        if Enabled(state, a) && !OwnAction(a, c) {
          OthersMove(state, a, c);
          Step(a);
        }
        steps := steps - 1;
      }
    }

    /** A call whose answer the protocol does not depend on: any answer. */
    method AnyAnswer(c: Session, kind: Kind, path: string) returns (rc: int)
      requires Valid() && c in state.clients && (kind == Probe || kind == MakeDir)
      modifies this
      ensures Valid() && OthersMoved(old(state), state, c) && Grew(old(run), run, c, NoAction)
      ensures calls == old(calls) + [Call(kind, path, rc, true)]
    {
      Interfere(c);
      rc := *;
      calls := calls + [Call(kind, path, rc, true)];
    }

    /** zoo_get_children on the lock directory, answered from the first k operations. */
    method GetChildren(c: Session, path: string) returns (rc: int, names: seq<string>, k: nat)
      requires Valid() && c in state.clients && path == dir
      modifies this
      ensures Valid() && OthersMoved(old(state), state, c) && Grew(old(run), run, c, NoAction)
      ensures calls == old(calls) + [Call(ListCall, path, rc, rc == ZOK && k == |state.log|)]
      ensures rc == ZOK ==>
                && !state.clients[c].expired && state.clients[c].view <= k <= |state.log|
                && IsListing(names, LiveAt(state.log, k))
    {
      Interfere(c);
      rc, names, k := *, [], 0;
      if state.clients[c].expired && rc == ZOK {
        rc := ZCONNECTIONLOSS;
      }
      if rc == ZOK {
        Reachable();
        assert ClientInv(state.log, c, state.clients[c]);
        var prefix: nat :| state.clients[c].view <= prefix <= |state.log|;
        LiveInRange(state, prefix);
        names := Children(LiveAt(state.log, prefix));
        k := prefix;
      }
      calls := calls + [Call(ListCall, path, rc, rc == ZOK && k == |state.log|)];
    }

    /** An own action of session a.c. */
    method Act(a: Action, ghost kind: Action -> bool)
      requires Valid() && Enabled(state, a) && kind(a)
      modifies this`state, this`run
      ensures Valid() && state == Next(old(state), a) && Grew(old(run), run, a.c, kind)
      ensures run.actions == old(run).actions + [a]
    {
      Step(a);
    }

    /** A call of the client failed without effect, and its operation returns. */
    method Failed(c: Session)
      requires Valid() && c in state.clients && !state.clients[c].pc.Watching?
      requires |calls| > 0 && calls[|calls| - 1].rc != ZOK
      modifies this`state, this`run
      ensures Valid() && Grew(old(run), run, c, LockAction) && state.log == old(state).log
      ensures c in state.clients && state.clients[c] == old(state).clients[c].(pc := Idle)
    {
      Act(Fail(c), LockAction);
    }

    /** zoo_wexists on the node that the client is to watch: answered from the first k
        operations, ZOK when there is a node of that path and ZNONODE when there is none. */
    method WatchNode(c: Session, path: string) returns (rc: int, k: nat)
      requires Valid() && c in state.clients && WatchPath(state.clients[c], path)
      modifies this
      ensures Valid() && OthersMoved(old(state), state, c) && Grew(old(run), run, c, NoAction)
      ensures calls == old(calls) + [Call(WatchCall, path, rc, true)]
      ensures rc == ZOK ==> Enabled(state, WatchOk(c, k))
      ensures rc == ZNONODE ==> Enabled(state, WatchGone(c, k))
    {
      Interfere(c);
      rc, k := *, 0;
      if rc == ZOK || rc == ZNONODE {
        if state.clients[c].expired {
          rc := ZCONNECTIONLOSS;
        } else {
          Reachable();
          assert ClientInv(state.log, c, state.clients[c]);
          k :| state.clients[c].view <= k <= |state.log|;
          PathFinds(LiveAt(state.log, k), path, state.clients[c], k);
          rc := if exists n :: n in LiveAt(state.log, k) && dir + "/" + Name(n) == path then ZOK else ZNONODE;
        }
      }
      calls := calls + [Call(WatchCall, path, rc, true)];
    }

    /** The path made from the floor's name. */
    predicate WatchPath(cl: Client, path: string) {
      cl.pc.Watching? && cl.pc.floor.shown <= MAX_SEQ && path == dir + "/" + Name(cl.pc.floor)
    }

    /** A node has the path exactly when it has the name. */
    lemma PathFinds(nodes: set<Node>, path: string, cl: Client, k: nat)
      requires Valid() && k <= |state.log| && nodes == LiveAt(state.log, k) && WatchPath(cl, path)
      ensures (exists n :: n in nodes && dir + "/" + Name(n) == path) <==> HasName(nodes, cl.pc.floor)
    {
      Reachable();
      LiveInRange(state, k);
      forall n | n in nodes ensures dir + "/" + Name(n) == path <==> SameName(n, cl.pc.floor) {
        NameOrder(n, cl.pc.floor);
        SamePath(dir, Name(n), Name(cl.pc.floor));
      }
    }

    /** The client's watch on its predecessor was set, or could not be. */
    method Watched(c: Session, rc: int, k: nat)
      requires Valid() && c in state.clients && state.clients[c].pc.Watching?
      requires |calls| > 0 && calls[|calls| - 1].kind == WatchCall && rc == calls[|calls| - 1].rc
      requires rc == ZOK ==> Enabled(state, WatchOk(c, k))
      requires rc == ZNONODE ==> Enabled(state, WatchGone(c, k))
      modifies this`state, this`run
      ensures Valid() && Grew(old(run), run, c, LockAction) && state.log == old(state).log
      ensures run.actions == old(run).actions + [WatchAction(c, rc, k)]
      ensures c in state.clients && state.clients[c].pc == if rc == ZOK then Idle else GivingUp
      ensures state.clients[c].id == old(state).clients[c].id
      ensures state.clients[c].ownerid == old(state).clients[c].ownerid
    {
      Act(WatchAction(c, rc, k), LockAction);
    }

    /** The client has looked for its own node in a listing and found child. */
    method Looked(c: Session, k: nat, ghost names: seq<string>, child: Option<string>)
      requires Valid() && c in state.clients && state.clients[c].pc == Idle && !state.clients[c].expired
      requires state.clients[c].view <= k <= |state.log| && IsListing(names, LiveAt(state.log, k))
      requires child.None? ==> forall i :: 0 <= i < |names| ==> !Matches(Prefix(c), names[i])
      requires child.Some? ==> child.value in names && Matches(Prefix(c), child.value)
      modifies this`state, this`run
      ensures Valid() && Grew(old(run), run, c, LockAction) && state.log == old(state).log && c in state.clients
      ensures NameOf(state.clients[c].id) == child
      ensures run.actions == old(run).actions + [Look(c, k, state.clients[c].id)]
      ensures state.clients[c].id.Some? ==> state.clients[c].id.value.shown <= MAX_SEQ
      ensures state.clients[c].pc == (if child.Some? then Named else Creating)
      ensures state.clients[c].ownerid == old(state).clients[c].ownerid
    {
      var found := None;
      ghost var own := LookupRefines(names, LiveAt(state.log, k), c, child);
      if child.Some? {
        assert own.value in LiveAt(state.log, k) && Name(own.value) == child.value;
        var n :| n in LiveAt(state.log, k) && Name(n) == child.value;
        MatchesOwn(c, n);
        found := Some(n);
      }
      Act(Look(c, k, found), LockAction);
    }

    /** The client has sorted a listing, noted its first entry and the floor below itself. */
    method Listed(c: Session, k: nat, ghost data: seq<string>, first: string, floor: Option<string>)
      returns (ghost below: Option<Node>)
      requires Valid() && c in state.clients && state.clients[c].pc == Named && !state.clients[c].expired
      requires state.clients[c].view <= k <= |state.log| && IsListing(data, LiveAt(state.log, k))
      requires state.clients[c].id.Some? && state.clients[c].id.value.shown <= MAX_SEQ
      requires Sorted(data) && data != [] && first == data[0]
      requires floor.None? ==> forall i :: 0 <= i < |data| ==> StrCmp(data[i], Name(state.clients[c].id.value)) >= 0
      requires floor.Some? ==> exists i :: 0 <= i < |data| && data[i] == floor.value
                                           && IsLastBelow(data, Name(state.clients[c].id.value), i)
      modifies this`state, this`run
      ensures Valid() && Grew(old(run), run, c, LockAction) && state.log == old(state).log && c in state.clients
      ensures state.clients[c].ownerid.Some? && Name(state.clients[c].ownerid.value) == first
      ensures NameOf(below) == floor && state.clients[c].ownerid.value.shown <= MAX_SEQ
      ensures run.actions == old(run).actions + [List(c, k, state.clients[c].ownerid.value, below)]
      ensures state.clients[c].pc == (if below.Some? then Watching(below.value) else Idle)
      ensures below.Some? ==> below.value.shown <= MAX_SEQ
      ensures state.clients[c].id == old(state).clients[c].id
    {
      Reachable();
      LiveInRange(state, k);
      ghost var nodes := LiveAt(state.log, k);
      ghost var m := FirstRefines(data, nodes);
      ghost var f := FloorRefines(data, nodes, state.clients[c].id.value, floor);
      var min :| min in LiveAt(state.log, k) && Name(min) == first;
      NameOrder(min, m);
      var lower := None;
      if floor.Some? {
        assert f.value in nodes && Name(f.value) == floor.value;
        var n :| n in LiveAt(state.log, k) && Name(n) == floor.value;
        NameOrder(n, f.value);
        lower := Some(n);
      }
      Act(List(c, k, min, lower), LockAction);
      below := lower;
    }

    /** zoo_create of the sequential ephemeral node that path is the prefix of. */
    method CreateNode(c: Session, path: string) returns (rc: int, retbuf: string, ghost made: Node)
      requires Valid() && c in state.clients && state.clients[c].pc == Creating
      requires path == dir + "/" + Prefix(c)
      modifies this
      ensures Valid() && Grew(old(run), run, c, LockAction) && old(state).log <= state.log
      ensures calls == old(calls) + [Call(CreateCall, path, rc, true)]
      ensures c in state.clients && state.clients[c].ownerid == old(state).clients[c].ownerid
      ensures rc == ZOK ==> state.clients[c].pc == Named && made.shown <= MAX_SEQ
      ensures rc == ZOK ==> state.clients[c].id == Some(made) && retbuf == dir + "/" + Name(made)
      ensures rc != ZOK ==> state.clients[c].pc == Idle && state.clients[c].id == old(state).clients[c].id
    {
      Interfere(c);
      ghost var mid := run;
      rc, retbuf, made := CommitCreate(c);
      GrewAfter(old(run), mid, run, c, LockAction);
      calls := calls + [Call(CreateCall, path, rc, true)];
    }

    method CommitCreate(c: Session) returns (rc: int, retbuf: string, ghost made: Node)
      requires Valid() && c in state.clients && state.clients[c].pc == Creating
      modifies this`state, this`run
      ensures Valid() && Grew(old(run), run, c, LockAction) && old(state).log <= state.log
      ensures c in state.clients && state.clients[c].ownerid == old(state).clients[c].ownerid
      ensures rc == ZOK ==> state.clients[c].pc == Named && made.shown <= MAX_SEQ
      ensures rc == ZOK ==> state.clients[c].id == Some(made) && retbuf == dir + "/" + Name(made)
      ensures rc != ZOK ==> state.clients[c].pc == Idle && state.clients[c].id == old(state).clients[c].id
    {
      rc, retbuf, made := *, "", Node(0, 0, c);
      var commits: bool := *;
      if commits && state.next <= state.base + MAX_SEQ && !state.clients[c].expired {
        Reachable();
        var shown: nat :| state.next <= state.base + shown && shown <= MAX_SEQ;
        made := Node(state.base, shown, c);
        retbuf := dir + "/" + Name(Node(state.base, shown, c));
        Act(if rc == ZOK then CreateOk(c, shown) else CreateLost(c, shown), LockAction);
      } else {
        rc := if rc == ZOK then ZCONNECTIONLOSS else rc;
        Act(Fail(c), LockAction);
      }
    }

    /** zoo_delete of the queue node with this path. */
    method DeleteNode(c: Session, path: string) returns (rc: int)
      requires Valid() && c in state.clients && state.clients[c].id.Some?
      requires state.clients[c].pc == Idle || state.clients[c].pc == GivingUp
      requires state.clients[c].id.value.shown <= MAX_SEQ && path == dir + "/" + Name(state.clients[c].id.value)
      modifies this
      ensures Valid() && Grew(old(run), run, c, UnlockAction) && old(state).log <= state.log
      ensures calls == old(calls) + [Call(DeleteCall, path, rc, true)]
      ensures c in state.clients
      ensures state.clients[c].ownerid == old(state).clients[c].ownerid
      ensures state.clients[c].pc == old(state).clients[c].pc
      ensures rc == ZOK || rc == ZNONODE ==> state.clients[c].id == None && Absent(dir, state.log, path)
      ensures rc != ZOK && rc != ZNONODE ==> state.clients[c].id == old(state).clients[c].id
    {
      Interfere(c);
      ghost var mid := run;
      rc := CommitDelete(c, path);
      GrewAfter(old(run), mid, run, c, UnlockAction);
      calls := calls + [Call(DeleteCall, path, rc, true)];
    }

    /** Whether this call's reply is lost. */
    method Loses() returns (lost: bool)
      modifies this`losses
      ensures losses == old(losses) - if lost then 1 else 0
    {
      lost := *;
      lost := lost && losses > 0;
      if lost {
        losses := losses - 1;
      }
    }

    /** zoo_exists or zoo_get on the data node: answered from the first k operations, lost or refused. */
    method ReadData(c: Session, kind: Kind, path: string) returns (rc: int, value: Option<Znode>, k: nat)
      requires Valid() && c in state.clients && kind.ReadsData() && path == data
      modifies this
      ensures Valid() && OthersMoved(old(state), state, c) && Grew(old(run), run, c, NoAction)
      ensures calls == old(calls) + [Call(kind, path, rc, rc == ZOK && k == |state.log|, MtimeOf(value))]
      ensures losses == old(losses) - if rc == ZCONNECTIONLOSS then 1 else 0
      ensures rc == ZOK || rc == ZNONODE ==>
                && !state.clients[c].expired && state.clients[c].view <= k <= |state.log|
                && value == ValueAt(state.log, k) && (rc == ZOK <==> value.Some?)
    {
      Interfere(c);
      rc, value, k := *, None, 0;
      var lost := Loses();
      if lost {
        rc := ZCONNECTIONLOSS;
      } else if (rc == ZOK || rc == ZNONODE) && !state.clients[c].expired {
        Reachable();
        assert ClientInv(state.log, c, state.clients[c]);
        k :| state.clients[c].view <= k <= |state.log|;
        value := ValueAt(state.log, k);
        rc := if value.Some? then ZOK else ZNONODE;
      } else if rc == ZOK || rc == ZNONODE || rc == ZCONNECTIONLOSS {
        rc := ZSYSTEMERROR;
      }
      calls := calls + [Call(kind, path, rc, rc == ZOK && k == |state.log|, MtimeOf(value))];
    }

    /** Whether a store call finds what it needs: zoo_create no node, the others one. */
    predicate Applicable(kind: Kind)
      reads this
    {
      ValueAt(state.log, |state.log|).None? <==> kind == CreateData
    }

    /** zoo_create, zoo_set or zoo_delete on the data node.  ZOK means that the text was
        committed just now; a call that is refused commits nothing. */
    method StoreData(c: Session, kind: Kind, path: string, text: Option<string>) returns (rc: int)
      requires Valid() && c in state.clients && kind.WritesData() && path == data
      modifies this
      ensures Valid() && Grew(old(run), run, c, StoreAction(text)) && c in state.clients
      ensures var now := state.clients[c];
              now == old(state).clients[c].(view := now.view, expired := now.expired)
      ensures calls == old(calls) + [Call(kind, path, rc, true)]
      ensures losses == old(losses) - if rc == ZCONNECTIONLOSS then 1 else 0
      ensures rc == ZOK ==> |run.actions| > |old(run).actions| && Commits(run.actions[|run.actions| - 1], c, text)
      ensures rc != ZOK && rc != ZCONNECTIONLOSS ==> Grew(old(run), run, c, NoAction)
    {
      Interfere(c);
      ghost var mid := run;
      var lost := Loses();
      var served: bool := *;
      rc := *;
      if !served || state.clients[c].expired {
        rc := if rc == ZOK || rc == ZCONNECTIONLOSS then ZSYSTEMERROR else rc;
      } else if Applicable(kind) {
        var mtime: int := *;
        Act(Put(c, if text.Some? then Some(Znode(text.value, mtime)) else None), StoreAction(text));
        GrewAfter(old(run), mid, run, c, StoreAction(text));
        rc := ZOK;
      } else {
        rc := if kind == CreateData then ZNODEEXISTS else ZNONODE;
      }
      if lost {
        rc := ZCONNECTIONLOSS;
      }
      calls := calls + [Call(kind, path, rc, true)];
    }

    /** PS_GC_FUNC's zoo_delete of the data node, which its zoo_exists found expired after
        the first seen operations. */
    method CollectData(c: Session, path: string, cutOff: int, seen: nat) returns (rc: int)
      requires Valid() && c in state.clients && path == data
      requires seen <= state.clients[c].view && seen <= |state.log| && ExpiredAt(state.log, seen, cutOff)
      modifies this
      ensures Valid() && Grew(old(run), run, c, GcAction) && c in state.clients
      ensures var now := state.clients[c];
              now == old(state).clients[c].(view := now.view, expired := now.expired)
      ensures calls == old(calls) + [Call(DeleteData, path, rc, true)]
      ensures rc == ZOK ==> |run.actions| > |old(run).actions|
                            && run.actions[|run.actions| - 1] == GcDelete(c, cutOff, seen)
    {
      ghost var log := state.log;
      Interfere(c);
      ghost var mid := run;
      PrefixValue(log, state.log[|log|..], seen);
      assert log + state.log[|log|..] == state.log;
      var served, lost: bool := *, *;
      rc := *;
      if !served || state.clients[c].expired {
        rc := if rc == ZOK then ZSYSTEMERROR else rc;
      } else if ValueAt(state.log, |state.log|).Some? {
        Act(GcDelete(c, cutOff, seen), GcAction);
        GrewAfter(old(run), mid, run, c, GcAction);
        rc := if lost then ZCONNECTIONLOSS else ZOK;
      } else {
        rc := if lost then ZCONNECTIONLOSS else ZNONODE;
      }
      calls := calls + [Call(DeleteData, path, rc, true)];
    }

    /** Any number of actions of the other sessions, and of c's own watcher thread, which
        calls zkr_lock_lock when a watch fires.  Once it gives up it never goes on. */
    method Meanwhile(c: Session)
      requires Valid() && c in state.clients
      modifies this`state, this`run
      ensures Valid() && c in state.clients && old(state).log <= state.log
      ensures Grew(old(run), run, c, LockAction)
      ensures InRangeOf(state.clients[c]) && old(state).clients[c].view <= state.clients[c].view
      ensures old(state).clients[c].pc == GivingUp ==> state.clients[c].pc == GivingUp
    {
      var steps: nat := *;
      while steps > 0
        invariant Valid() && c in state.clients && old(state).log <= state.log
        invariant Grew(old(run), run, c, LockAction) && old(state).clients[c].view <= state.clients[c].view
        invariant old(state).clients[c].pc == GivingUp ==> state.clients[c].pc == GivingUp
      {
        var a: Action := *;
        Reachable();
        assert ClientInv(state.log, c, state.clients[c]);
        if Enabled(state, a) && (OwnAction(a, c) ==> LockAction(a) && state.clients[c].pc != GivingUp) {
          Step(a);
        }
        steps := steps - 1;
      }
      Reachable();
      KnownInRange(state, c);
    }

    /** The same, until the watcher's thread is through with zkr_lock_lock, or has given up.
        If it stopped in the middle, its next call is not answered. */
    method Await(c: Session)
      requires Valid() && c in state.clients
      modifies this`state, this`run
      ensures Valid() && c in state.clients && old(state).log <= state.log
      ensures Grew(old(run), run, c, LockAction)
      ensures InRangeOf(state.clients[c])
      ensures state.clients[c].pc == Idle || state.clients[c].pc == GivingUp
      ensures old(state).clients[c].pc == GivingUp ==> state.clients[c].pc == GivingUp
    {
      Meanwhile(c);
      ghost var mid := run;
      if state.clients[c].pc.Watching? {
        Act(WatchFail(c), LockAction);
        GrewOn(old(run), mid, run, c, LockAction);
      } else if state.clients[c].pc == Creating || state.clients[c].pc == Named {
        Act(Fail(c), LockAction);
        GrewOn(old(run), mid, run, c, LockAction);
      }
    }

    method CommitDelete(c: Session, path: string) returns (rc: int)
      requires Valid() && c in state.clients && state.clients[c].id.Some?
      requires state.clients[c].pc == Idle || state.clients[c].pc == GivingUp
      requires state.clients[c].id.value.shown <= MAX_SEQ && path == dir + "/" + Name(state.clients[c].id.value)
      modifies this`state, this`run
      ensures Valid() && Grew(old(run), run, c, UnlockAction) && old(state).log <= state.log
      ensures c in state.clients
      ensures state.clients[c].ownerid == old(state).clients[c].ownerid
      ensures state.clients[c].pc == old(state).clients[c].pc
      ensures rc == ZOK || rc == ZNONODE ==> state.clients[c].id == None && Absent(dir, state.log, path)
      ensures rc != ZOK && rc != ZNONODE ==> state.clients[c].id == old(state).clients[c].id
    {
      rc := *;
      var commits: bool := *;
      if !commits || state.clients[c].expired {
        rc := if rc == ZOK || rc == ZNONODE then ZCONNECTIONLOSS else rc;
        return;
      }
      var hit := Resolve(path, c);
      if rc == ZOK || rc == ZNONODE {
        rc := if hit.Some? then ZOK else ZNONODE;
        DeletedIsAbsent(path, c, hit);
        Act(DeleteOk(c, hit), UnlockAction);
      } else {
        rc := ZCONNECTIONLOSS;
        Act(DeleteLost(c, hit), UnlockAction);
      }
    }

    /** The live node that a path leads to; for the path of c's id, the node of that name. */
    method Resolve(path: string, ghost c: Session) returns (hit: Option<Node>)
      requires Valid() && c in state.clients && state.clients[c].id.Some?
      requires state.clients[c].id.value.shown <= MAX_SEQ && path == dir + "/" + Name(state.clients[c].id.value)
      ensures IsNamed(Live(state.log), state.clients[c].id.value, hit)
    {
      Reachable();
      LiveInRange(state, |state.log|);
      ghost var id := state.clients[c].id.value;
      forall n | n in Live(state.log) ensures dir + "/" + Name(n) == path <==> SameName(n, id) {
        NameOrder(n, id);
        SamePath(dir, Name(n), Name(id));
      }
      hit := None;
      if exists n :: n in Live(state.log) && dir + "/" + Name(n) == path {
        var n :| n in Live(state.log) && dir + "/" + Name(n) == path;
        hit := Some(n);
      }
    }

    lemma DeletedIsAbsent(path: string, c: Session, hit: Option<Node>)
      requires Valid() && c in state.clients && Enabled(state, DeleteOk(c, hit))
      requires state.clients[c].id.value.shown <= MAX_SEQ && path == dir + "/" + Name(state.clients[c].id.value)
      ensures Absent(dir, Next(state, DeleteOk(c, hit)).log, path)
    {
      Reachable();
      var id, after := state.clients[c].id.value, Next(state, DeleteOk(c, hit));
      DeleteRemoves(state, DeleteOk(c, hit));
      StepInv(state, DeleteOk(c, hit));
      LiveInRange(after, |after.log|);
      forall n | n in Live(after.log) ensures dir + "/" + Name(n) != path {
        NameOrder(n, id);
        SamePath(dir, Name(n), Name(id));
      }
    }
  }
}
