/** zkr_lock_mutex_t and its operations, run against the adversarial server.
    Every method keeps the mutex in step with its client in the protocol, so
    that all runs of this code are runs of the protocol. */
module LockMutex {
  import opened Calls
  import opened CStrings
  import opened LockCalls
  import opened ServerLog
  import opened LockProtocol
  import opened LockSafety
  import opened NodeNames
  import opened ReturnCodes
  import opened ZooServer

  /** What a call comes to: an error code, or waiting forever for pmutex. */
  datatype Ret = Code(rc: int) | Blocked

  /** zkr_lock_lock's answer. */
  datatype Answer = Returned(owner: bool) | Hung

  /** While others act, a client that missed its floor goes on missing it. */
  lemma MissedWhileAsking(r: Run, r': Run, c: Session, k: nat)
    requires IsRun(r) && IsRun(r') && Grew(r, r', c, NoAction) && MissedFloor(Last(r), c)
    ensures !Enabled(Last(r'), WatchOk(c, k))
  {
    assert r'.states[|r.actions|] == Last(r);
    MissedFloorGivesUp(r', |r.actions|, |r'.actions|, c);
    forall p | |r.actions| <= p < |r'.actions| ensures !GivesUp(r'.actions[p], c) {
      assert OwnAction(r'.actions[p], c) ==> NoAction(r'.actions[p]);
    }
    RunInv(r', |r'.actions|);
    MissedFloorUnwatched(Last(r'), c, k);
  }

  /** The last call was the listing, and it was answered. */
  predicate HasListed(calls: seq<Call>) {
    |calls| > 0 && calls[|calls| - 1].kind == ListCall && calls[|calls| - 1].rc == ZOK
  }

  class Mutex {
    const server: Server
    const session: Session
    var path: string
    var id: Option<string>
    var ownerid: Option<string>
    var isOwner: bool
    var held: bool            // pmutex, a mutex of the default type

    ghost function Me(): Client
      reads server`state
      requires session in server.state.clients
    {
      server.state.clients[session]
    }

    ghost predicate Valid()
      reads `path, `id, `ownerid, server`state, server`run
    {
      && server.Valid() && session in server.state.clients
      && id == NameOf(Me().id) && ownerid == NameOf(Me().ownerid)
      && path == server.dir
      && InRangeOf(Me())
    }

    constructor (server: Server, session: Session, path: string)
      requires server.Valid() && session in server.state.clients && path == server.dir
      requires server.state.clients[session].id == None && server.state.clients[session].ownerid == None
      ensures Valid() && !held && this.server == server && this.session == session && this.path == path
    {
      this.server := server;
      this.session := session;
      this.path := path;
      id, ownerid, isOwner, held := None, None, false, false;
    }

    /** zkr_lock_init on the mutex of a persistent connection. */
    method Init(path: string)
      requires Valid() && Me().pc == Idle && path == server.dir
      modifies this, server`state, server`run
      ensures Valid() && !held && this.path == path && Me().pc == Idle
      ensures id == None && ownerid == None && !isOwner && server.state.log == old(server.state.log)
      ensures server.run == Extended(old(server.run), Reinit(session))
    {
      server.Step(Reinit(session));
      this.path := path;
      id, ownerid, isOwner, held := None, None, false, false;
    }

    /** What the calls of zkr_lock_lock in the watcher's thread have left here.  In the middle of
        one that thread has pmutex, for good if it is giving up; after waiting for it nobody else has. */
    method Overtaken(waited: bool)
      requires server.Valid() && session in server.state.clients && path == server.dir && InRangeOf(Me())
      modifies this`id, this`ownerid, this`isOwner, this`held
      ensures Valid() && (Me().pc != Idle ==> held) && (waited && Me().pc == Idle ==> !held)
    {
      var me := server.state.clients[session];
      id, ownerid, isOwner, held := NameOf(me.id), NameOf(me.ownerid), *, *;
      held := me.pc != Idle || (held && !waited);
    }

    /** zkr_lock_isowner: the string comparison is ownership in the protocol. */
    method IsOwnerNow() returns (r: bool)
      requires Valid()
      ensures r <==> IsOwner(Me())
    {
      if id.Some? && ownerid.Some? {
        CmpZero(id.value, ownerid.value);
        NameOrder(Me().id.value, Me().ownerid.value);
        r := StrCmp(id.value, ownerid.value) == 0;
      } else {
        r := false;
      }
    }

    /** The path of the own node, as zkr_lock_unlock prints it into buf. */
    ghost function OwnPath(): string
      requires id.Some?
      reads this
    {
      path + "/" + id.value
    }

    /** The delete of zkr_lock_unlock, tried at most three times. */
    method RetryDelete() returns (rc: int)
      requires Valid() && (Me().pc == Idle || Me().pc == GivingUp) && id.Some?
      modifies this`id, server
      ensures Valid() && Me().pc == old(Me().pc) && ownerid == old(ownerid)
      ensures Grew(old(server.run), server.run, session, UnlockAction) && old(server.state).log <= server.state.log
      ensures old(server.calls) < server.calls
      ensures Retried(server.calls, |old(server.calls)|, DeleteCall, old(OwnPath()), 3)
      ensures server.calls[|server.calls| - 1].rc == rc
      ensures rc == ZOK || rc == ZNONODE ==> id == None && Absent(server.dir, server.state.log, old(OwnPath()))
      ensures rc != ZOK && rc != ZNONODE ==> id == old(id) && Me().id == old(Me().id)
    {
      hide RetriedIn;
      var buf := path + "/" + id.value;
      var count := 0;
      rc := ZCONNECTIONLOSS;
      while rc == ZCONNECTIONLOSS && count < 3
        invariant Valid() && Me().pc == old(Me().pc) && ownerid == old(ownerid) && count <= 3
        invariant Grew(old(server.run), server.run, session, UnlockAction)
        invariant old(server.state).log <= server.state.log && old(server.calls) <= server.calls
        invariant rc == ZCONNECTIONLOSS && count < 3 ==>
                    Losing(server.calls, |old(server.calls)|, DeleteCall, buf, count)
        invariant rc != ZCONNECTIONLOSS || count == 3 ==>
                    && old(server.calls) < server.calls
                    && Retried(server.calls, |old(server.calls)|, DeleteCall, buf, 3)
                    && server.calls[|server.calls| - 1].rc == rc
        invariant rc == ZOK || rc == ZNONODE ==> id == None && Absent(server.dir, server.state.log, buf)
        invariant rc != ZOK && rc != ZNONODE ==> id == old(id) && Me().id == old(Me().id)
        decreases rc == ZCONNECTIONLOSS, 3 - count
      {
        ghost var mid, calls := server.run, server.calls;
        rc := server.DeleteNode(session, buf);
        RetriedOnce(calls, server.calls, |old(server.calls)|, DeleteCall, buf, count, 3, rc);
        GrewOn(old(server.run), mid, server.run, session, UnlockAction);
        if rc == ZCONNECTIONLOSS {
          count := count + 1;
        }
        if rc == ZOK || rc == ZNONODE {
          id := None;
        }
      }
    }

    /** zkr_lock_unlock: it answers 0 exactly when one of its at most three deletes of
        the own node's path was answered ZOK or ZNONODE. */
    method Unlock() returns (ret: Ret)
      requires Valid() && (Me().pc == Idle || Me().pc == GivingUp)
      modifies this`id, this`held, server
      ensures Valid() && Me().pc == old(Me().pc) && ownerid == old(ownerid)
      ensures Grew(old(server.run), server.run, session, UnlockAction) && old(server.state).log <= server.state.log
      ensures held == old(held) && (ret.Blocked? <==> held) && old(server.calls) <= server.calls
      ensures ret.Blocked? || old(id).None? ==>
                server.state == old(server.state) && server.calls == old(server.calls) && server.run == old(server.run)
      ensures old(id).Some? && !ret.Blocked? ==>
                && Retried(server.calls, |old(server.calls)|, DeleteCall, old(OwnPath()), 3)
                && (var rc := server.calls[|server.calls| - 1].rc; ret == Code(0) <==> rc == ZOK || rc == ZNONODE)
      ensures ret == Code(0) ==> id == None && !IsOwner(Me()) && old(id).Some?
      ensures ret == Code(0) ==> Absent(server.dir, server.state.log, old(OwnPath()))
      ensures ret != Code(0) ==> id == old(id) && Me().id == old(Me().id)
      ensures ret.Code? ==> ret.rc == 0 || ret.rc == if old(id).Some? then ZCONNECTIONLOSS else ZSYSTEMERROR
    {
      if held {
        return Blocked;
      }
      held := true;
      if id.Some? {
        var rc := RetryDelete();
        held := false;
        return Code(if rc == ZOK || rc == ZNONODE then 0 else ZCONNECTIONLOSS);
      }
      held := false;
      return Code(ZSYSTEMERROR);
    }

    /** The give-up loop: at most two unlock calls.  Entered with pmutex held, as
        zkr_lock_operation enters it, the first one never returns. */
    method GiveUp() returns (ret: Ret, ghost unlocks: nat)
      requires Valid() && Me().pc == GivingUp
      modifies this`id, this`held, server
      ensures Valid() && Me().pc == GivingUp && ownerid == old(ownerid) && held == old(held)
      ensures Grew(old(server.run), server.run, session, UnlockAction) && old(server.state).log <= server.state.log
      ensures 1 <= unlocks <= 2 && old(server.calls) <= server.calls && |server.calls| <= |old(server.calls)| + 3
      ensures old(held) ==> ret == Blocked && unlocks == 1 && server.state == old(server.state)
      ensures old(held) ==> server.calls == old(server.calls) && server.run == old(server.run) && id == old(id)
      ensures !old(held) ==> ret == Code(if old(id).Some? && id.Some? then ZCONNECTIONLOSS else ZSYSTEMERROR)
    {
      ret := Unlock();
      unlocks := 1;
      while ret == Code(0)
        invariant Valid() && Me().pc == GivingUp && ownerid == old(ownerid) && held == old(held)
        invariant Grew(old(server.run), server.run, session, UnlockAction)
        invariant old(server.state).log <= server.state.log
        invariant old(server.calls) <= server.calls && |server.calls| <= |old(server.calls)| + 3
        invariant old(held) ==> ret == Blocked && unlocks == 1 && server.state == old(server.state)
        invariant old(held) ==> server.calls == old(server.calls) && server.run == old(server.run) && id == old(id)
        invariant unlocks == 1 || (unlocks == 2 && ret != Code(0))
        invariant ret == Code(0) ==> id == None
        invariant !old(held) && ret != Code(0) ==>
                    ret == Code(if old(id).Some? && id.Some? then ZCONNECTIONLOSS else ZSYSTEMERROR)
        decreases ret == Code(0)
      {
        ghost var mid := server.run;
        ret := Unlock();
        GrewOn(old(server.run), mid, server.run, session, UnlockAction);
        unlocks := unlocks + 1;
      }
    }

    /** retry_getchildren. */
    method RetryGetChildren(retry: nat) returns (rc: int, names: seq<string>, k: nat)
      requires Valid() && retry > 0
      modifies server
      ensures Valid() && OthersMoved(old(server.state), server.state, session)
      ensures Grew(old(server.run), server.run, session, NoAction)
      ensures old(server.calls) < server.calls && Retried(server.calls, |old(server.calls)|, ListCall, path, retry)
      ensures server.calls[|server.calls| - 1] == Call(ListCall, path, rc, rc == ZOK && k == |server.state.log|)
      ensures rc == ZOK ==>
                && !Me().expired && Me().view <= k <= |server.state.log|
                && IsListing(names, LiveAt(server.state.log, k))
    {
      hide RetriedIn;
      var count := 0;
      rc, names, k := ZCONNECTIONLOSS, [], 0;
      while rc == ZCONNECTIONLOSS && count < retry
        invariant Valid() && OthersMoved(old(server.state), server.state, session) && count <= retry
        invariant Grew(old(server.run), server.run, session, NoAction) && old(server.calls) <= server.calls
        invariant rc == ZCONNECTIONLOSS && count < retry ==>
                    Losing(server.calls, |old(server.calls)|, ListCall, path, count)
        invariant rc != ZCONNECTIONLOSS || count == retry ==>
                    Retried(server.calls, |old(server.calls)|, ListCall, path, retry)
        invariant rc != ZCONNECTIONLOSS || count > 0 ==>
                    old(server.calls) < server.calls &&
                    server.calls[|server.calls| - 1] == Call(ListCall, path, rc, rc == ZOK && k == |server.state.log|)
        invariant rc == ZOK ==>
                    && !Me().expired && Me().view <= k <= |server.state.log|
                    && IsListing(names, LiveAt(server.state.log, k))
        decreases rc == ZCONNECTIONLOSS, retry - count
      {
        ghost var calls := server.calls;
        rc, names, k := server.GetChildren(session, path);
        RetriedOnce(calls, server.calls, |old(server.calls)|, ListCall, path, count, retry, rc);
        if rc == ZCONNECTIONLOSS {
          count := count + 1;
        }
      }
    }

    /** retry_zoowexists. */
    method RetryWExists(node: string, retry: nat) returns (rc: int, k: nat)
      requires Valid() && retry > 0 && server.WatchPath(Me(), node)
      modifies server
      ensures Valid() && OthersMoved(old(server.state), server.state, session)
      ensures Grew(old(server.run), server.run, session, NoAction)
      ensures old(server.calls) < server.calls && Retried(server.calls, |old(server.calls)|, WatchCall, node, retry)
      ensures server.calls[|server.calls| - 1] == Call(WatchCall, node, rc, true)
      ensures rc == ZOK ==> Enabled(server.state, WatchOk(session, k))
      ensures rc == ZNONODE ==> Enabled(server.state, WatchGone(session, k))
    {
      hide RetriedIn;
      var count := 0;
      rc, k := ZCONNECTIONLOSS, 0;
      while rc == ZCONNECTIONLOSS && count < retry
        invariant Valid() && OthersMoved(old(server.state), server.state, session) && count <= retry
        invariant Grew(old(server.run), server.run, session, NoAction) && old(server.calls) <= server.calls
        invariant rc == ZCONNECTIONLOSS && count < retry ==>
                    Losing(server.calls, |old(server.calls)|, WatchCall, node, count)
        invariant rc != ZCONNECTIONLOSS || count == retry ==>
                    Retried(server.calls, |old(server.calls)|, WatchCall, node, retry)
        invariant rc != ZCONNECTIONLOSS || count > 0 ==>
                    old(server.calls) < server.calls &&
                    server.calls[|server.calls| - 1] == Call(WatchCall, node, rc, true)
        invariant rc == ZOK ==> Enabled(server.state, WatchOk(session, k))
        invariant rc == ZNONODE ==> Enabled(server.state, WatchGone(session, k))
        decreases rc == ZCONNECTIONLOSS, retry - count
      {
        ghost var calls := server.calls;
        rc, k := server.WatchNode(session, node);
        RetriedOnce(calls, server.calls, |old(server.calls)|, WatchCall, node, count, retry, rc);
        if rc == ZCONNECTIONLOSS {
          count := count + 1;
        }
      }
    }

    /** Lists the queue and looks for the session's own node; at is where the run records it. */
    method LookUp() returns (rc: int, ghost at: nat)
      requires Valid() && Me().pc == Idle
      modifies this`id, server
      ensures Valid() && ownerid == old(ownerid)
      ensures rc != ZOK ==> Me().pc == Idle && id == old(id)
      ensures rc == ZOK ==> Me().pc == if id.Some? then Named else Creating
      ensures Grew(old(server.run), server.run, session, LockAction) && old(server.state).log <= server.state.log
      ensures old(server.calls) < server.calls && Retried(server.calls, |old(server.calls)|, ListCall, path, 3)
      ensures server.calls[|server.calls| - 1].rc == rc && server.calls[|server.calls| - 1].kind == ListCall
      ensures rc == ZOK ==>
                |old(server.run).actions| <= at && LooksAt(at, Me().id, server.calls[|server.calls| - 1].current)
    {
      var names, k;
      rc, names, k := RetryGetChildren(3);
      ghost var read, calls := server.run, server.calls;
      at := |read.actions|;
      if rc != ZOK {
        server.Failed(session);
      } else {
        Search(names, k);
      }
      assert server.calls == calls;
      GrewAfter(old(server.run), read, server.run, session, LockAction);
    }

    /** The run's action number at is this session's lookup with that result; current
        says that its listing was read to the end of the log. */
    ghost predicate LooksAt(at: nat, found: Option<Node>, current: bool)
      reads server
    {
      && |server.run.states| == |server.run.actions| + 1 && at < |server.run.actions|
      && server.run.actions[at].Look? && server.run.actions[at].c == session && server.run.actions[at].found == found
      && (current <==> server.run.actions[at].k == |server.run.states[at].log|)
    }

    /** The run's action number at is this session's listing with that smallest node and floor. */
    ghost predicate ListsAt(at: nat, min: Option<Node>, lessthanme: Option<string>, current: bool)
      reads server
    {
      && at < |server.run.actions| && server.run.actions[at].List? && NameOf(server.run.actions[at].floor) == lessthanme
      && |server.run.states| == |server.run.actions| + 1 && at < |server.run.actions|
      && server.run.actions[at].List? && server.run.actions[at].c == session && Some(server.run.actions[at].min) == min
      && (current <==> server.run.actions[at].k == |server.run.states[at].log|)
    }

    /** mutex->id = lookupnode(vector, prefix). */
    method Search(names: seq<string>, k: nat)
      requires Valid() && Me().pc == Idle && !Me().expired
      requires Me().view <= k <= |server.state.log| && IsListing(names, LiveAt(server.state.log, k))
      modifies this`id, server`state, server`run
      ensures Valid() && ownerid == old(ownerid) && server.state.log == old(server.state.log)
      ensures Me().pc == if id.Some? then Named else Creating
      ensures Grew(old(server.run), server.run, session, LockAction)
      ensures LooksAt(|old(server.run).actions|, Me().id, k == |server.state.log|)
    {
      var child := LookupNode(names, Prefix(session));
      server.Looked(session, k, names, child);
      id := child;
    }

    /** Creates the session's node when the lookup found none. */
    method CreateMissing() returns (rc: int)
      requires Valid() && Me().pc == Creating
      modifies this`id, server
      ensures Valid() && ownerid == old(ownerid)
      ensures if rc == ZOK then Me().pc == Named && id.Some? else Me().pc == Idle && id == old(id)
      ensures Grew(old(server.run), server.run, session, LockAction) && old(server.state).log <= server.state.log
      ensures server.calls == old(server.calls) + [Call(CreateCall, path + "/" + Prefix(session), rc, true)]
    {
      var retbuf;
      ghost var made;
      rc, retbuf, made := server.CreateNode(session, path + "/" + Prefix(session));
      if rc == ZOK {
        NameHasNoSlash(made);
        GetNameUndoesJoin(path, Name(made));
        id := GetName(retbuf);
      }
    }

    /** The first half of zkr_lock_operation: adopt the session's node or create one. */
    method Adopt() returns (rc: int, ghost o: OpCalls)
      requires Valid() && Me().pc == Idle
      modifies this`id, server
      ensures Valid() && ownerid == old(ownerid)
      ensures if rc == ZOK then id.Some? && Me().pc == Named else Me().pc == Idle
      ensures Grew(old(server.run), server.run, session, LockAction) && old(server.state).log <= server.state.log
      ensures old(server.calls) < server.calls && o.from == |old(server.calls)| && o.adopted == |server.calls|
      ensures Adopts(server.run, server.calls, o, session, path) && (rc == ZOK ==> FoundStays(o))
      ensures o.begin == |old(server.run).actions| && (rc == ZOK ==> o.look < |server.run.actions|)
      ensures server.calls[|server.calls| - 1].rc == rc && server.calls[|server.calls| - 1].kind != WatchCall
    {
      hide RetriedIn, Looks, Adopts;
      ghost var at;
      rc, at := LookUp();
      ghost var looked, calls := server.run, server.calls;
      o := OpCalls(|old(server.calls)|, |calls|, |calls|, 0, 0, |old(server.run).actions|, at, 0);
      LookedUp(rc, o);
      if rc == ZOK && id == None {
        rc := CreateMissing();
        GrewOn(old(server.run), looked, server.run, session, LockAction);
        o := o.(adopted := |server.calls|);
        AdoptsMade(looked, server.run, calls, server.calls, o, rc, session, path);
      } else {
        AdoptsFound(looked, calls, o, session, path);
      }
    }

    lemma LookedUp(rc: int, o: OpCalls)
      requires Valid() && |server.calls| > 0 && server.calls[|server.calls| - 1].rc == rc
      requires Retried(server.calls, o.from, ListCall, path, 3) && o.looked == |server.calls|
      requires rc == ZOK ==> o.begin <= o.look && LooksAt(o.look, Me().id, server.calls[|server.calls| - 1].current)
      ensures Looks(server.run, server.calls, o, session, path)
      ensures rc == ZOK ==> server.run.actions[o.look].found == Me().id
    {
    }

    /** A node that the first listing of the operation found is the mutex's id. */
    ghost predicate FoundStays(o: OpCalls)
      requires session in server.state.clients
      reads server`state, server`run
    {
      o.look < |server.run.actions| && server.run.actions[o.look].Look? && server.run.actions[o.look].found.Some? ==>
        Me().id == server.run.actions[o.look].found
    }

    lemma OwnNameListed(names: seq<string>, k: nat)
      requires Valid() && Me().pc == Named && !Me().expired
      requires Me().view <= k <= |server.state.log| && IsListing(names, LiveAt(server.state.log, k))
      ensures names != []
    {
      server.Reachable();
      NamedSeesItself(server.state, session, k);
      assert Name(Me().id.value) in names;
    }

    /** The client is to watch the node of that name, or nothing. */
    ghost predicate Floored(lessthanme: Option<string>)
      requires session in server.state.clients
      reads server`state
    {
      if lessthanme.Some?
      then Me().pc.Watching? && Me().pc.floor.shown <= MAX_SEQ && Name(Me().pc.floor) == lessthanme.value
      else Me().pc == Idle
    }

    /** Sorts a listing, notes its first entry as the owner and finds the floor below the own node. */
    method Rank(names: seq<string>, k: nat) returns (lessthanme: Option<string>)
      requires Valid() && Me().pc == Named && !Me().expired && id.Some?
      requires Me().view <= k <= |server.state.log| && IsListing(names, LiveAt(server.state.log, k))
      modifies this`ownerid, server`state, server`run
      ensures Valid() && id == old(id) && Me().id == old(Me().id) && server.state.log == old(server.state.log)
      ensures Floored(lessthanme)
      ensures Grew(old(server.run), server.run, session, LockAction)
      ensures ListsAt(|old(server.run).actions|, Me().ownerid, lessthanme, k == |server.state.log|)
    {
      OwnNameListed(names, k);
      var first;
      ghost var data;
      first, lessthanme, data := RankNames(names, id.value);
      SortedIsListing(names, data, LiveAt(server.state.log, k));
      ghost var below := server.Listed(session, k, data, first, lessthanme);
      ownerid := Some(first);
    }

    /** Lists the queue again and settles who owns the lock; at is where the run records it. */
    method ListQueue() returns (rc: int, lessthanme: Option<string>, ghost at: nat)
      requires Valid() && Me().pc == Named && id.Some?
      modifies this`ownerid, server
      ensures Valid() && id == old(id) && Me().id == old(Me().id)
      ensures rc != ZOK ==> Me().pc == Idle && ownerid == old(ownerid) && lessthanme == None
      ensures rc == ZOK ==> Floored(lessthanme)
      ensures Grew(old(server.run), server.run, session, LockAction) && old(server.state).log <= server.state.log
      ensures old(server.calls) < server.calls && Retried(server.calls, |old(server.calls)|, ListCall, path, 3)
      ensures server.calls[|server.calls| - 1].rc == rc && server.calls[|server.calls| - 1].kind == ListCall
      ensures rc == ZOK ==>
                && |old(server.run).actions| <= at
                && ListsAt(at, Me().ownerid, lessthanme, server.calls[|server.calls| - 1].current)
      ensures !EndsInFailedWatch(server.calls) && (rc == ZOK ==> HasListed(server.calls))
    {
      var names, k;
      rc, names, k := RetryGetChildren(3);
      lessthanme := None;
      ghost var read, calls := server.run, server.calls;
      at := |read.actions|;
      assert Me() == old(Me()).(expired := Me().expired);
      if rc != ZOK {
        server.Failed(session);
      } else {
        lessthanme := Rank(names, k);
      }
      assert server.calls == calls;
      GrewAfter(old(server.run), read, server.run, session, LockAction);
    }

    /** The run ends with what the answer to zoo_wexists means for the waiter. */
    ghost predicate EndsWithWatch(rc: int)
      reads server`run
    {
      && |server.run.actions| > 0
      && var a := server.run.actions[|server.run.actions| - 1];
         a.c == session && if rc == ZOK then a.WatchOk? else if rc == ZNONODE then a.WatchGone? else a.WatchFail?
    }

    /** Sets the watch on the predecessor, and notes what the answer means. */
    method SetWatch(lessthanme: string) returns (rc: int)
      requires Valid() && Floored(Some(lessthanme))
      modifies server
      ensures Valid() && Me().pc == if rc == ZOK then Idle else GivingUp
      ensures Me().id == old(Me().id) && Me().ownerid == old(Me().ownerid)
      ensures Grew(old(server.run), server.run, session, LockAction) && old(server.state).log <= server.state.log
      ensures old(server.calls) < server.calls && server.calls[|server.calls| - 1].rc == rc
      ensures Retried(server.calls, |old(server.calls)|, WatchCall, path + "/" + lessthanme, 3)
      ensures EndsWithWatch(rc)
      ensures MissedFloor(old(server.state), session) ==> rc != ZOK
    {
      hide RetriedIn, MissedFloor;
      var k;
      rc, k := RetryWExists(path + "/" + lessthanme, 3);
      ghost var read, calls := server.run, server.calls;
      if MissedFloor(old(server.state), session) {
        MissedWhileAsking(old(server.run), server.run, session, k);
      }
      server.Watched(session, rc, k);
      GrewAfter(old(server.run), read, server.run, session, LockAction);
      assert server.calls == calls;
    }

    /** Watches the predecessor.  When that fails the client gives up, and as it
        holds pmutex it blocks there with its node still queued.  It fails, too, when
        the predecessor is already gone from all that the client can be shown. */
    method Watch(lessthanme: string) returns (ret: Ret)
      requires Valid() && held && Floored(Some(lessthanme))
      modifies this`id, this`held, server
      ensures Valid() && held && id == old(id) && ownerid == old(ownerid)
      ensures Me().id == old(Me().id) && Me().ownerid == old(Me().ownerid)
      ensures if ret == Code(ZOK) then Me().pc == Idle else ret == Blocked && Me().pc == GivingUp
      ensures Grew(old(server.run), server.run, session, LockAction) && old(server.state).log <= server.state.log
      ensures old(server.calls) < server.calls
      ensures Retried(server.calls, |old(server.calls)|, WatchCall, path + "/" + lessthanme, 3)
      ensures ret == Code(ZOK) <==> server.calls[|server.calls| - 1].rc == ZOK
      ensures EndsWithWatch(server.calls[|server.calls| - 1].rc)
      ensures MissedFloor(old(server.state), session) ==> ret == Blocked
    {
      hide RetriedIn, MissedFloor, Grew, EndsWithWatch;
      var rc := SetWatch(lessthanme);
      ret := Code(ZOK);
      if rc != ZOK {
        ghost var unlocks;
        ret, unlocks := GiveUp();
      }
    }

    /** After the listing: a floor is watched, and blocks the client for good exactly
        when its watch fails; without a floor an owner by name sets the flag isOwner. */
    method Settle(lessthanme: Option<string>) returns (ret: Ret)
      requires Valid() && held && Floored(lessthanme)
      modifies this`id, this`isOwner, this`held, server
      ensures Valid() && held && id == old(id) && ownerid == old(ownerid)
      ensures Me().id == old(Me().id) && Me().ownerid == old(Me().ownerid)
      ensures if ret.Blocked? then Me().pc == GivingUp else ret == Code(ZOK) && Me().pc == Idle
      ensures Grew(old(server.run), server.run, session, LockAction) && old(server.state).log <= server.state.log
      ensures old(server.calls) <= server.calls
      ensures lessthanme.Some? ==>
                && Retried(server.calls, |old(server.calls)|, WatchCall, path + "/" + lessthanme.value, 3)
                && (ret.Blocked? <==> EndsInFailedWatch(server.calls))
                && (MissedFloor(old(server.state), session) ==> ret.Blocked?)
                && isOwner == (old(isOwner) && ret.Blocked?)
      ensures lessthanme.None? ==>
                server.calls == old(server.calls) && ret == Code(ZOK) && isOwner == (old(isOwner) || IsOwner(Me()))
      ensures HasListed(old(server.calls)) ==>
                && (ret.Blocked? <==> EndsInFailedWatch(server.calls))
                && (ret.Code? ==> server.calls[|server.calls| - 1].rc == ZOK)
    {
      if lessthanme.Some? {
        ret := Watch(lessthanme.value);
        if ret == Code(ZOK) {
          isOwner := false;
        }
      } else {
        var mine := IsOwnerNow();
        if mine {
          isOwner := true;
        }
        ret := Code(ZOK);
      }
    }

    /** What an answered operation leaves: id is the node its first listing found; ownerid is
        the smallest node that its second listing showed; and the flag isOwner is cleared by a
        watch, set for an owner by name without a floor, and else left as it was. */
    ghost predicate Settled(o: OpCalls, was: bool)
      requires session in server.state.clients
      reads `isOwner, server`state, server`run
    {
      && FoundStays(o) && o.list < |server.run.actions| && server.run.actions[o.list].List?
      && Me().ownerid == Some(server.run.actions[o.list].min)
      && isOwner == if server.run.actions[o.list].floor.Some? then false else was || IsOwner(Me())
    }

    /** The second half of zkr_lock_operation.  Unless its listing fails, ownerid is
        afterwards what the run's action number o.list listed as the smallest. */
    method Claim(ghost first: OpCalls) returns (ret: Ret, ghost o: OpCalls)
      requires Valid() && held && Me().pc == Named && id.Some?
      requires first.adopted == |server.calls| && first.begin <= |server.run.actions|
      requires FoundStays(first) && first.look < |server.run.actions|
      modifies this`id, this`ownerid, this`isOwner, this`held, server
      ensures Valid() && held && id == old(id) && Me().id == old(Me().id)
      ensures if ret.Blocked? then Me().pc == GivingUp else Me().pc == Idle
      ensures o == first.(listed := o.listed, to := |server.calls|, list := o.list)
      ensures Ranks(server.run, server.calls, o, session, path)
      ensures ret == Code(ZOK) ==> Settled(o, old(isOwner))
      ensures ret != Code(ZOK) ==> isOwner == old(isOwner)
      ensures ret == Code(ZOK) || ret.Blocked? ==>
                && |old(server.run).actions| <= o.list < |server.run.actions|
                && server.run.actions[o.list].List? && server.run.actions[o.list].c == session
                && Me().ownerid == Some(server.run.actions[o.list].min)
      ensures Grew(old(server.run), server.run, session, LockAction) && old(server.state).log <= server.state.log
      ensures old(server.calls) < server.calls
      ensures ret.Blocked? <==> EndsInFailedWatch(server.calls)
      ensures ret.Code? ==> ret.rc == server.calls[|server.calls| - 1].rc
    {
      hide RetriedIn, Ranks, Floored, MissedFloor, HasListed, EndsInFailedWatch, Name;
      var rc, lessthanme;
      ghost var at;
      rc, lessthanme, at := ListQueue();
      ghost var listed, calls := server.run, server.calls;
      ret := Code(rc);
      o := first.(listed := |calls|, to := |calls|, list := at);
      if rc == ZOK {
        ret := Settle(lessthanme);
        o := o.(to := |server.calls|);
        RanksAnswered(listed, server.run, calls, server.calls, o, session, path);
        GrewOn(old(server.run), listed, server.run, session, LockAction);
      } else {
        RanksFailed(listed, calls, o, session, path);
      }
    }

    /** One pass of the loop in zkr_lock_operation; done says whether the loop ends. */
    method Attempt() returns (ret: Ret, done: bool, ghost o: OpCalls)
      requires Valid() && held && Me().pc == Idle
      modifies this`id, this`ownerid, this`isOwner, this`held, server
      ensures Valid() && held && done
      ensures if ret.Blocked? then Me().pc == GivingUp else Me().pc == Idle
      ensures o.from == |old(server.calls)| && o.begin == |old(server.run).actions| && o.to == |server.calls|
      ensures Operated(server.run, server.calls, o, session, path)
      ensures if ret == Code(ZOK) then Settled(o, old(isOwner)) else isOwner == old(isOwner)
      ensures Grew(old(server.run), server.run, session, LockAction) && old(server.state).log <= server.state.log
      ensures old(server.calls) < server.calls
      ensures ret.Blocked? <==> EndsInFailedWatch(server.calls)
      ensures ret.Code? ==> ret.rc == server.calls[|server.calls| - 1].rc
    {
      hide RetriedIn, Adopts, Ranks, Operated, FoundStays, Settled;
      var rc;
      rc, o := Adopt();
      ghost var adopted, calls, first := server.run, server.calls, o;
      ret, done := Code(rc), true;
      o := first.(to := |calls|);
      if rc != ZOK {
        OperatedHalf(adopted, calls, first, session, path);
      } else {
        done := id.Some?;
        if id.Some? {
          ret, o := Claim(first);
          OperatedWhole(adopted, server.run, calls, server.calls, first, o, session, path);
          GrewOn(old(server.run), adopted, server.run, session, LockAction);
        }
      }
    }

    /** zkr_lock_operation: the loop body runs once, and makes the calls of one operation.
        It blocks exactly when its last call is a failed watch. */
    method Operation() returns (ret: Ret, ghost o: OpCalls)
      requires Valid() && held && Me().pc == Idle
      modifies this`id, this`ownerid, this`isOwner, this`held, server
      ensures Valid() && held
      ensures if ret.Blocked? then Me().pc == GivingUp else Me().pc == Idle
      ensures o.from == |old(server.calls)| && o.begin == |old(server.run).actions| && o.to == |server.calls|
      ensures Operated(server.run, server.calls, o, session, path)
      ensures if ret == Code(ZOK) then Settled(o, old(isOwner)) else isOwner == old(isOwner)
      ensures Grew(old(server.run), server.run, session, LockAction) && old(server.state).log <= server.state.log
      ensures old(server.calls) < server.calls && |server.calls| <= |old(server.calls)| + 10
      ensures ret.Blocked? <==> EndsInFailedWatch(server.calls)
      ensures ret.Code? ==> ret.rc == server.calls[|server.calls| - 1].rc
    {
      hide Operated;
      var done := false;
      ret, o := Code(ZOK), OpCalls(0, 0, 0, 0, 0, 0, 0, 0);
      while !done
        invariant Valid() && held
        invariant !done ==> server.state == old(server.state) && server.run == old(server.run)
        invariant !done ==> server.calls == old(server.calls) && isOwner == old(isOwner)
        invariant if done && ret.Blocked? then Me().pc == GivingUp else Me().pc == Idle
        invariant done ==> o.from == |old(server.calls)| && o.to == |server.calls|
        invariant done ==> o.begin == |old(server.run).actions|
        invariant done ==> Operated(server.run, server.calls, o, session, path)
        invariant done ==> if ret == Code(ZOK) then Settled(o, old(isOwner)) else isOwner == old(isOwner)
        invariant Grew(old(server.run), server.run, session, LockAction) && old(server.state).log <= server.state.log
        invariant done ==> old(server.calls) < server.calls
        invariant done ==> (ret.Blocked? <==> EndsInFailedWatch(server.calls))
        invariant done && ret.Code? ==> ret.rc == server.calls[|server.calls| - 1].rc
        decreases !done
      {
        ret, done, o := Attempt();
      }
      OperatedBounded(server.run, server.calls, o, session, path);
    }

    /** The loop of zkr_lock_lock that makes sure of the lock directory. */
    method EnsureDirectory()
      requires Valid()
      modifies server
      ensures Valid() && OthersMoved(old(server.state), server.state, session)
      ensures Grew(old(server.run), server.run, session, NoAction)
      ensures old(server.calls) <= server.calls
      ensures DirectoryEnsured(server.calls, |old(server.calls)|, |server.calls|, path)
    {
      var exist := server.AnyAnswer(session, Probe, path);
      var count := 0;
      while (exist == ZCONNECTIONLOSS || exist == ZNONODE) && count < 4
        invariant Valid() && OthersMoved(old(server.state), server.state, session)
        invariant Grew(old(server.run), server.run, session, NoAction)
        invariant old(server.calls) <= server.calls && count <= 4
        invariant |server.calls| == |old(server.calls)| + 1 + count && server.calls[|server.calls| - 1].rc == exist
        invariant server.calls[|old(server.calls)|].kind == Probe
        invariant forall i :: |old(server.calls)| <= i < |server.calls| ==> server.calls[i].path == path
        invariant forall i :: |old(server.calls)| < i < |server.calls| ==>
                    Follows(server.calls[i - 1], server.calls[i])
      {
        count := count + 1;
        if exist == ZCONNECTIONLOSS {
          exist := server.AnyAnswer(session, Probe, path);
        } else {
          exist := server.AnyAnswer(session, MakeDir, path);
        }
      }
    }

    /** The retry loop of zkr_lock_lock around zkr_lock_operation. */
    method OperationUpTo4() returns (check: Ret, ghost ops: seq<OpCalls>)
      requires Valid() && held && Me().pc == Idle
      modifies this`id, this`ownerid, this`isOwner, this`held, server
      ensures Valid() && held
      ensures if check.Blocked? then Me().pc == GivingUp else Me().pc == Idle
      ensures 1 <= |ops| <= 4 && ops[|ops| - 1].to == |server.calls| && |old(server.run).actions| <= ops[0].begin
      ensures Operations(server.run, server.calls, |old(server.calls)|, ops, session, path)
      ensures if check == Code(ZOK) then Settled(ops[|ops| - 1], old(isOwner)) else isOwner == old(isOwner)
      ensures Grew(old(server.run), server.run, session, LockAction) && old(server.state).log <= server.state.log
      ensures old(server.calls) < server.calls
      ensures check.Blocked? <==> EndsInFailedWatch(server.calls)
      ensures check.Code? ==> check.rc == server.calls[|server.calls| - 1].rc
      ensures check.Code? && check.rc != ZOK ==> |ops| == 4
    {
      hide Operated, Operations, Settled;
      var count := 0;
      check, ops := Code(ZCONNECTIONLOSS), [];
      NoneYet(server.run, server.calls, |server.calls|, session, path);
      while check != Code(ZOK) && check != Blocked && count < 4
        invariant Valid() && held && 0 <= count <= 4
        invariant if check.Blocked? then Me().pc == GivingUp else Me().pc == Idle
        invariant Grew(old(server.run), server.run, session, LockAction) && old(server.state).log <= server.state.log
        invariant old(server.calls) <= server.calls
        invariant Operations(server.run, server.calls, |old(server.calls)|, ops, session, path)
        invariant |ops| == if check == Code(ZOK) then count + 1 else count
        invariant check == Code(ZOK) ==> count < 4
        invariant if ops == [] then server.calls == old(server.calls) && check == Code(ZCONNECTIONLOSS)
                  else old(server.calls) < server.calls && ops[|ops| - 1].to == |server.calls|
        invariant ops == [] ==> server.state == old(server.state) && server.run == old(server.run)
        invariant ops != [] ==>
                    && |old(server.run).actions| <= ops[0].begin
                    && (check.Blocked? <==> EndsInFailedWatch(server.calls))
                    && (check.Code? ==> check.rc == server.calls[|server.calls| - 1].rc)
        invariant if check == Code(ZOK) then Settled(ops[|ops| - 1], old(isOwner)) else isOwner == old(isOwner)
        decreases check != Code(ZOK), 4 - count
      {
        ghost var before, calls := server.run, server.calls;
        ghost var o;
        check, o := Operation();
        OneMore(before, server.run, calls, server.calls, |old(server.calls)|, ops, o, session, path);
        ops := ops + [o];
        GrewOn(old(server.run), before, server.run, session, LockAction);
        if check != Code(ZOK) {
          count := count + 1;
        }
      }
    }

    /** What zkr_lock_lock does while it holds pmutex. */
    method LockHeld() returns (check: Ret, ghost l: Locking)
      requires Valid() && held && Me().pc == Idle
      modifies this`id, this`ownerid, this`isOwner, this`held, server
      ensures Valid() && held
      ensures if check.Blocked? then Me().pc == GivingUp else Me().pc == Idle
      ensures Locks(server.run, server.calls, |old(server.calls)|, l, session, path)
      ensures l.End() == |server.calls| && l.begin == |old(server.run).actions|
      ensures if check == Code(ZOK) then Settled(l.ops[|l.ops| - 1], old(isOwner)) else isOwner == old(isOwner)
      ensures Grew(old(server.run), server.run, session, LockAction) && old(server.state).log <= server.state.log
      ensures old(server.calls) < server.calls
      ensures check.Blocked? <==> EndsInFailedWatch(server.calls)
      ensures check.Code? ==> check.rc == server.calls[|server.calls| - 1].rc
    {
      hide Operated, Operations, DirectoryEnsured;
      EnsureDirectory();
      ghost var start, calls := server.run, server.calls;
      ghost var ops;
      check, ops := OperationUpTo4();
      l := Locking(|old(server.run).actions|, |calls|, ops);
      GrewAfter(old(server.run), start, server.run, session, LockAction);
      EnsuredStays(calls, server.calls, |old(server.calls)|, |calls|, path);
    }

    /** zkr_lock_lock.  Its calls are those of Locks, and it deletes nothing.  It hangs, with
        pmutex held and its node queued, exactly when its last call is a failed watch;
        otherwise pmutex is given back.  First in line and well served, it answers that the
        lock is owned. */
    method Lock() returns (answer: Answer, ghost l: Locking)
      requires Valid() && !held && Me().pc == Idle
      modifies this`id, this`ownerid, this`isOwner, this`held, server
      ensures Valid()
      ensures answer.Returned? ==> Me().pc == Idle && (answer.owner <==> IsOwner(Me()))
      ensures answer.Hung? ==> Me().pc == GivingUp
      ensures (answer.Hung? <==> EndsInFailedWatch(server.calls)) && (held <==> answer.Hung?)
      ensures Locks(server.run, server.calls, |old(server.calls)|, l, session, path)
      ensures l.End() == |server.calls| && l.begin == |old(server.run).actions|
      ensures if server.calls[|server.calls| - 1].rc == ZOK then Settled(l.ops[|l.ops| - 1], old(isOwner))
              else isOwner == old(isOwner)
      ensures Grew(old(server.run), server.run, session, LockAction) && old(server.state).log <= server.state.log
      ensures old(server.calls) < server.calls && |server.calls| <= |old(server.calls)| + 45
      ensures Good(server.calls, |old(server.calls)|) ==>
                forall m :: FirstInLine(old(server.state), server.state, session, m) ==> answer == Returned(true)
    {
      hide Operated, Operations, DirectoryEnsured;
      held := true;
      var check;
      check, l := LockHeld();
      LocksBounded(server.run, server.calls, |old(server.calls)|, l, session, path);
      if Good(server.calls, |old(server.calls)|) {
        FirstIsListed(server.run, server.calls, |old(server.calls)|, l, session, path);
      }
      if check.Blocked? {
        return Hung, l;
      }
      held := false;
      var owner := IsOwnerNow();
      return Returned(owner), l;
    }
  }

  /** Mutual exclusion for the code: when a mutex's id and ownerid strings agree and its
      node is live, no other session's strings agree for a live node, unless a side's
      ownerid is from an earlier directory. */
  lemma OneOwner(a: Mutex, d: Session)
    requires a.Valid() && d in a.server.state.clients
    requires a.id.Some? && a.id == a.ownerid && a.Me().id.value in Live(a.server.state.log)
    requires Claims(a.server.state, d)
    ensures var other := a.server.state.clients[d];
            || a.session == d
            || a.Me().ownerid.value.base < a.Me().id.value.base
            || other.ownerid.value.base < other.id.value.base
  {
    NameOrder(a.Me().id.value, a.Me().ownerid.value);
    var s, r := a.server.state, a.server.run;
    a.server.Reachable();
    ClaimByBase(s, a.session);
    ClaimByBase(s, d);
    if Owns(s, a.session) && Owns(s, d) {
      MutualExclusion(r, |r.actions|, a.session, d);
    }
  }
}
