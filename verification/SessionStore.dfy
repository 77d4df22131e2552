/** PS_READ_FUNC, PS_WRITE_FUNC, PS_DESTROY_FUNC and PS_GC_FUNC on the session
    tree.  A script says what becomes of each call: every run that ends uses
    finitely many losses, so a finite script followed by plain answers covers
    them all. */
module SessionStore {
  import opened CStrings
  import opened ReturnCodes
  import opened SessionPaths

  type ErrorCode = rc: int | rc != ZOK && rc != ZCONNECTIONLOSS witness -1

  datatype Fate =
    | Answered
    | Refused(rc: ErrorCode)   // another error, without effect
    | LostApplied              // ZCONNECTIONLOSS after the effect
    | LostDropped              // ZCONNECTIONLOSS without effect
  {
    predicate Lost() { LostApplied? || LostDropped? }

    /** The call takes effect, if the tree allows it. */
    predicate Takes() { Answered? || LostApplied? }
  }

  /** A node of the session directory: struct Stat and the data. */
  datatype Entry = Entry(data: string, mtime: int, children: nat)

  type Tree = map<string, Entry>

  datatype StoreCall = CreateCall | SetCall

  /** The cut-off both PS_READ_FUNC and PS_GC_FUNC compute, in milliseconds. */
  function CutOff(requestTime: int, gcMaxLifetime: int): int {
    (requestTime - gcMaxLifetime) * 1000
  }

  /** Not written for longer than gc_maxlifetime; both settings are in seconds. */
  predicate Outlived(mtime: int, requestTime: int, gcMaxLifetime: int) {
    requestTime * 1000 - mtime > gcMaxLifetime * 1000
  }

  predicate Stale(tree: Tree, path: string, requestTime: int, gcMaxLifetime: int) {
    path in tree && Outlived(tree[path].mtime, requestTime, gcMaxLifetime)
  }

  /** What a successful zoo_delete needs besides: no children. */
  predicate Removable(tree: Tree, path: string, requestTime: int, gcMaxLifetime: int) {
    Stale(tree, path, requestTime, gcMaxLifetime) && tree[path].children == 0
  }

  ghost predicate SameElsewhere(t: Tree, t': Tree, path: string) {
    t - {path} == t' - {path}
  }

  class Store {
    var tree: Tree
    const script: seq<Fate>
    var used: nat
    const clock: int

    constructor (tree: Tree, script: seq<Fate>, clock: int)
      ensures this.tree == tree && this.script == script && used == 0 && this.clock == clock
    {
      this.tree, this.script, used, this.clock := tree, script, 0, clock;
    }

    function FateAt(i: nat): Fate {
      if i < |script| then script[i] else Answered
    }

    /** The calls from lo up to hi were lost before they took effect. */
    predicate Dropped(lo: nat, hi: nat) {
      forall i :: lo <= i < hi ==> FateAt(i).LostDropped?
    }

    /** One of the calls from lo up to hi took effect. */
    predicate Taken(lo: nat, hi: nat) {
      exists i :: lo <= i < hi && FateAt(i).Takes()
    }

    /** The call, from the i-th on, whose reply is the first not to be lost. */
    function NextAnswer(i: nat): (j: nat)
      ensures i <= j && !FateAt(j).Lost() && forall k :: i <= k < j ==> FateAt(k).Lost()
      decreases if i < |script| then |script| - i else 0
    {
      if FateAt(i).Lost() then NextAnswer(i + 1) else i
    }

    lemma {:induction false} AnswerFound(i: nat, j: nat)
      requires i <= j && !FateAt(j).Lost() && forall k :: i <= k < j ==> FateAt(k).Lost()
      ensures j == NextAnswer(i)
      decreases j - i
    {
      if i < j {
        AnswerFound(i + 1, j);
      }
    }

    lemma TakenOnce(lo: nat, i: nat)
      requires lo <= i
      ensures Taken(lo, i + 1) <==> Taken(lo, i) || FateAt(i).Takes()
      ensures Taken(lo, i) ==> !Dropped(lo, i)
      ensures !Taken(lo, i) && (forall k :: lo <= k < i ==> FateAt(k).Lost()) ==> Dropped(lo, i)
    {
    }

    /** Nothing goes wrong any more. */
    predicate Calm()
      reads this
    {
      used >= |script|
    }

    method Exists(path: string) returns (rc: int, stat: Entry)
      modifies `used
      ensures used == old(used) + 1
      ensures match FateAt(old(used))
              case Answered => if path in tree then rc == ZOK && stat == tree[path] else rc == ZNONODE
              case Refused(code) => rc == code
              case _ => rc == ZCONNECTIONLOSS
    {
      var fate := FateAt(used);
      used := used + 1;
      stat := Entry("", 0, 0);
      match fate
      case Answered =>
        rc := ZNONODE;
        if path in tree {
          rc, stat := ZOK, tree[path];
        }
      case Refused(code) => rc := code;
      case LostApplied => rc := ZCONNECTIONLOSS;
      case LostDropped => rc := ZCONNECTIONLOSS;
    }

    /** zoo_get into a buffer of the given length. */
    method Get(path: string, length: nat) returns (rc: int, val: string)
      modifies `used
      ensures used == old(used) + 1
      ensures match FateAt(old(used))
              case Answered =>
                if path in tree then rc == ZOK && val == Cut(tree[path].data, length) else rc == ZNONODE
              case Refused(code) => rc == code
              case _ => rc == ZCONNECTIONLOSS
    {
      var fate := FateAt(used);
      used := used + 1;
      val := "";
      match fate
      case Answered =>
        rc := ZNONODE;
        if path in tree {
          rc, val := ZOK, Cut(tree[path].data, length);
        }
      case Refused(code) => rc := code;
      case LostApplied => rc := ZCONNECTIONLOSS;
      case LostDropped => rc := ZCONNECTIONLOSS;
    }

    function Created(t: Tree, path: string, val: string): Tree {
      if path in t then t else t[path := Entry(val, clock, 0)]
    }

    function Overwritten(t: Tree, path: string, val: string): Tree {
      if path in t then t[path := t[path].(data := val, mtime := clock)] else t
    }

    function Deleted(t: Tree, path: string): Tree {
      if path in t && t[path].children == 0 then t - {path} else t
    }

    method Create(path: string, val: string) returns (rc: int)
      modifies `tree, `used
      ensures used == old(used) + 1
      ensures match FateAt(old(used))
              case Answered =>
                tree == Created(old(tree), path, val) && rc == if path in old(tree) then ZNODEEXISTS else ZOK
              case Refused(code) => tree == old(tree) && rc == code
              case LostApplied => tree == Created(old(tree), path, val) && rc == ZCONNECTIONLOSS
              case LostDropped => tree == old(tree) && rc == ZCONNECTIONLOSS
    {
      var fate := FateAt(used);
      used := used + 1;
      match fate
      case Answered =>
        rc := if path in tree then ZNODEEXISTS else ZOK;
        tree := Created(tree, path, val);
      case Refused(code) => rc := code;
      case LostApplied => tree, rc := Created(tree, path, val), ZCONNECTIONLOSS;
      case LostDropped => rc := ZCONNECTIONLOSS;
    }

    method Set(path: string, val: string) returns (rc: int)
      modifies `tree, `used
      ensures used == old(used) + 1
      ensures match FateAt(old(used))
              case Answered =>
                tree == Overwritten(old(tree), path, val) && rc == if path in old(tree) then ZOK else ZNONODE
              case Refused(code) => tree == old(tree) && rc == code
              case LostApplied => tree == Overwritten(old(tree), path, val) && rc == ZCONNECTIONLOSS
              case LostDropped => tree == old(tree) && rc == ZCONNECTIONLOSS
    {
      var fate := FateAt(used);
      used := used + 1;
      match fate
      case Answered =>
        rc := if path in tree then ZOK else ZNONODE;
        tree := Overwritten(tree, path, val);
      case Refused(code) => rc := code;
      case LostApplied => tree, rc := Overwritten(tree, path, val), ZCONNECTIONLOSS;
      case LostDropped => rc := ZCONNECTIONLOSS;
    }

    method Delete(path: string) returns (rc: int)
      modifies `tree, `used
      ensures used == old(used) + 1
      ensures match FateAt(old(used))
              case Answered =>
                && tree == Deleted(old(tree), path)
                && rc == if path !in old(tree) then ZNONODE
                         else if old(tree)[path].children == 0 then ZOK else ZNOTEMPTY
              case Refused(code) => tree == old(tree) && rc == code
              case LostApplied => tree == Deleted(old(tree), path) && rc == ZCONNECTIONLOSS
              case LostDropped => tree == old(tree) && rc == ZCONNECTIONLOSS
    {
      var fate := FateAt(used);
      used := used + 1;
      match fate
      case Answered =>
        rc := if path !in tree then ZNONODE else if tree[path].children == 0 then ZOK else ZNOTEMPTY;
        tree := Deleted(tree, path);
      case Refused(code) => rc := code;
      case LostApplied => tree, rc := Deleted(tree, path), ZCONNECTIONLOSS;
      case LostDropped => rc := ZCONNECTIONLOSS;
    }

    /** do { zoo_exists } while: stops at the first reply that is not lost. */
    method RetryExists(path: string) returns (rc: int, stat: Entry)
      modifies `used
      ensures used == NextAnswer(old(used)) + 1
      ensures match FateAt(NextAnswer(old(used)))
              case Answered => if path in tree then rc == ZOK && stat == tree[path] else rc == ZNONODE
              case Refused(code) => rc == code
              case _ => false
    {
      var retryCount, more := 3, true;
      rc, stat := ZOK, Entry("", 0, 0);
      while more
        invariant (more ==> retryCount == 3) && used >= old(used) && (more || used > old(used))
        invariant forall i :: old(used) <= i < used - (if more then 0 else 1) ==> FateAt(i).Lost()
        invariant !more ==> !FateAt(used - 1).Lost()
        invariant !more ==> match FateAt(used - 1)
                            case Answered => if path in tree then rc == ZOK && stat == tree[path] else rc == ZNONODE
                            case Refused(code) => rc == code
                            case _ => false
        decreases more, |script| - used
      {
        rc, stat := Exists(path);
        retryCount := retryCount + 1;
        more := rc == ZCONNECTIONLOSS && retryCount != 0;
        if rc == ZCONNECTIONLOSS {
          retryCount := retryCount - 1;
        }
      }
      AnswerFound(old(used), used - 1);
    }

    /** do { zoo_get } while. */
    method RetryGet(path: string, length: nat) returns (rc: int, val: string)
      modifies `used
      ensures used == NextAnswer(old(used)) + 1
      ensures match FateAt(NextAnswer(old(used)))
              case Answered =>
                if path in tree then rc == ZOK && val == Cut(tree[path].data, length) else rc == ZNONODE
              case Refused(code) => rc == code
              case _ => false
    {
      var retryCount, more := 3, true;
      rc, val := ZOK, "";
      while more
        invariant (more ==> retryCount == 3) && used >= old(used) && (more || used > old(used))
        invariant forall i :: old(used) <= i < used - (if more then 0 else 1) ==> FateAt(i).Lost()
        invariant !more ==> !FateAt(used - 1).Lost()
        invariant !more ==> match FateAt(used - 1)
                            case Answered =>
                              if path in tree then rc == ZOK && val == Cut(tree[path].data, length) else rc == ZNONODE
                            case Refused(code) => rc == code
                            case _ => false
        decreases more, |script| - used
      {
        rc, val := Get(path, length);
        retryCount := retryCount + 1;
        more := rc == ZCONNECTIONLOSS && retryCount != 0;
        if rc == ZCONNECTIONLOSS {
          retryCount := retryCount - 1;
        }
      }
      AnswerFound(old(used), used - 1);
    }

    /** What is left when the calls from lo up to hi tried to delete the node. */
    function Removed(t: Tree, path: string, lo: nat, hi: nat): Tree {
      if Taken(lo, hi) then Deleted(t, path) else t
    }

    /** The delete that is answered is also the first to take effect, and it may. */
    predicate RemovesLast(t: Tree, path: string, from: nat) {
      var last := NextAnswer(from);
      FateAt(last).Answered? && path in t && t[path].children == 0 && Dropped(from, last)
    }

    /** do { zoo_delete } while.  ZOK means that this very call removed the node. */
    method RetryDelete(path: string) returns (rc: int)
      modifies `tree, `used
      ensures used == NextAnswer(old(used)) + 1
      ensures tree == Removed(old(tree), path, old(used), used)
      ensures rc == ZOK <==> RemovesLast(old(tree), path, old(used))
    {
      var retryCount, more := 3, true;
      rc := ZOK;
      while more
        invariant (more ==> retryCount == 3) && used >= old(used) && (more || used > old(used))
        invariant forall i :: old(used) <= i < used - (if more then 0 else 1) ==> FateAt(i).Lost()
        invariant !more ==> !FateAt(used - 1).Lost()
        invariant tree == Removed(old(tree), path, old(used), used)
        invariant !more ==>
                    (rc == ZOK <==> FateAt(used - 1).Answered? && path in old(tree) && old(tree)[path].children == 0
                                    && Dropped(old(used), used - 1))
        decreases more, |script| - used
      {
        TakenOnce(old(used), used);
        rc := Delete(path);
        retryCount := retryCount + 1;
        more := rc == ZCONNECTIONLOSS && retryCount != 0;
        if rc == ZCONNECTIONLOSS {
          retryCount := retryCount - 1;
        }
      }
      AnswerFound(old(used), used - 1);
    }

    /** PS_READ_FUNC after the lock: None for FAILURE.  Its zoo_exists is answered by the
        first reply that is not lost, and so is the zoo_get or zoo_delete after it. */
    method Read(path: string, requestTime: int, gcMaxLifetime: int) returns (val: Option<string>)
      modifies `tree, `used
      ensures var told := NextAnswer(old(used));
              var found, last := FateAt(told).Answered? && path in old(tree), NextAnswer(told + 1);
              var stale := Stale(old(tree), path, requestTime, gcMaxLifetime);
              && used == (if found then last else told) + 1
              && (val.Some? <==> found && !stale && FateAt(last).Answered?)
              && (val.Some? ==> val.value == old(tree)[path].data)
              && tree == if found && stale then Removed(old(tree), path, told + 1, last + 1) else old(tree)
      ensures old(Calm()) && path !in old(tree) ==> val == None && tree == old(tree)
      ensures old(Calm()) && path in old(tree) ==>
                var node := old(tree)[path];
                if requestTime * 1000 - node.mtime > gcMaxLifetime * 1000
                then val == None && tree == if node.children == 0 then old(tree) - {path} else old(tree)
                else val == Some(node.data) && tree == old(tree)
    {
      ghost var told := NextAnswer(used);
      assert FateAt(NextAnswer(told + 1)).Answered? && used >= |script| ==> Taken(told + 1, NextAnswer(told + 1) + 1);
      var status, stat := RetryExists(path);
      if status != ZOK {
        return None;
      }
      if stat.mtime < CutOff(requestTime, gcMaxLifetime) {
        status := RetryDelete(path);
        return None;
      }
      var data;
      status, data := RetryGet(path, |stat.data|);
      if status != ZOK {
        return None;
      }
      return Some(data);
    }

    /** What is left when the calls from lo up to hi tried to store val: zoo_set first if the
        node was told to exist, and otherwise zoo_create. */
    function Stored(t: Tree, path: string, val: string, existed: bool, lo: nat, hi: nat): Tree {
      if existed then (if lo < hi && FateAt(lo).Takes() then Overwritten(t, path, val) else t)
      else if Taken(lo, hi) then Created(t, path, val) else t
    }

    /** The store call that is answered is also the first to take effect, and it may. */
    predicate StoresLast(t: Tree, path: string, existed: bool, from: nat) {
      var last := NextAnswer(from);
      FateAt(last).Answered? &&
      if last == from then path in t ==> existed else path !in t && Dropped(from, last)
    }

    /** The store loop: after a loss status is not ZOK, so only zoo_create is tried again. */
    method StoreLoop(path: string, val: string, existsStatus: int) returns (status: int, ghost calls: seq<StoreCall>)
      requires existsStatus == ZOK ==> path in tree
      modifies `tree, `used
      ensures used == NextAnswer(old(used)) + 1 == old(used) + |calls|
      ensures calls[0] == (if existsStatus == ZOK then SetCall else CreateCall)
      ensures forall i :: 0 < i < |calls| ==> calls[i] == CreateCall
      ensures tree == Stored(old(tree), path, val, existsStatus == ZOK, old(used), used)
      ensures status == ZOK <==> StoresLast(old(tree), path, existsStatus == ZOK, old(used))
    {
      var retryCount, more := 3, true;
      status, calls := existsStatus, [];
      while more
        invariant (more ==> retryCount == 3) && used == old(used) + |calls| && (more || |calls| > 0)
        invariant forall i :: old(used) <= i < used - (if more then 0 else 1) ==> FateAt(i).Lost()
        invariant !more ==> !FateAt(used - 1).Lost()
        invariant |calls| == 0 ==> status == existsStatus
        invariant |calls| > 0 ==> calls[0] == if existsStatus == ZOK then SetCall else CreateCall
        invariant forall i :: 0 < i < |calls| ==> calls[i] == CreateCall
        invariant more && |calls| > 0 ==> status == ZCONNECTIONLOSS
        invariant tree == Stored(old(tree), path, val, existsStatus == ZOK, old(used), used)
        invariant !more ==>
                    (status == ZOK <==> FateAt(used - 1).Answered? &&
                                        if |calls| == 1 then path in old(tree) ==> existsStatus == ZOK
                                        else path !in old(tree) && Dropped(old(used), used - 1))
        decreases more, |script| - used
      {
        TakenOnce(old(used), used);
        if status != ZOK {
          status := Create(path, val);
          calls := calls + [CreateCall];
        } else {
          status := Set(path, val);
          calls := calls + [SetCall];
        }
        retryCount := retryCount + 1;
        more := status == ZCONNECTIONLOSS && retryCount != 0;
        if status == ZCONNECTIONLOSS {
          retryCount := retryCount - 1;
        }
      }
      AnswerFound(old(used), used - 1);
    }

    /** SUCCESS means that the node holds val, FAILURE that it is unchanged or holds val. */
    lemma WriteMeans(t: Tree, path: string, val: string, existed: bool, from: nat)
      requires existed ==> path in t
      ensures var t' := Stored(t, path, val, existed, from, NextAnswer(from) + 1);
              && SameElsewhere(t', t, path)
              && (t' == t || (path in t' && t'[path].data == val))
              && (StoresLast(t, path, existed, from) ==> path in t' && t'[path].data == val)
    {
      if StoresLast(t, path, existed, from) {
        assert FateAt(NextAnswer(from)).Takes();
      }
    }

    /** PS_WRITE_FUNC.  Reply number told is its zoo_exists's first that is not lost, and
        the store calls come after it. */
    method Write(path: string, val: string) returns (ok: bool)
      modifies `tree, `used
      ensures var told := NextAnswer(old(used));
              var existed := FateAt(told).Answered? && path in old(tree);
              && used == NextAnswer(told + 1) + 1
              && tree == Stored(old(tree), path, val, existed, told + 1, used)
              && (ok <==> StoresLast(old(tree), path, existed, told + 1))
      ensures old(Calm()) ==> ok
      ensures SameElsewhere(tree, old(tree), path)
      ensures if ok then path in tree && tree[path].data == val
              else tree == old(tree) || (path in tree && tree[path].data == val)
    {
      ghost var told := NextAnswer(used);
      WriteMeans(tree, path, val, FateAt(told).Answered? && path in tree, told + 1);
      var status, stat := RetryExists(path);
      ghost var calls;
      status, calls := StoreLoop(path, val, status);
      ok := status == ZOK;
    }

    /** A store call on an existing node that loses its reply is answered FAILURE in the end,
        and the value was stored all the same if the call took effect. */
    lemma LostSetFails(t: Tree, path: string, val: string, from: nat)
      requires path in t && FateAt(from).Lost()
      ensures !StoresLast(t, path, true, from)
      ensures var t' := Stored(t, path, val, true, from, NextAnswer(from) + 1);
              t' == if FateAt(from).LostApplied? then Overwritten(t, path, val) else t
    {
    }

    /** PS_DESTROY_FUNC: SUCCESS exactly when the call that is answered itself removed the node. */
    method Destroy(path: string) returns (ok: bool)
      modifies `tree, `used
      ensures used == NextAnswer(old(used)) + 1
      ensures tree == Removed(old(tree), path, old(used), used)
      ensures ok <==> RemovesLast(old(tree), path, old(used))
      ensures ok ==> path in old(tree) && path !in tree
      ensures old(Calm()) ==> (ok <==> path in old(tree) && old(tree)[path].children == 0)
    {
      assert FateAt(NextAnswer(used)).Answered? ==> Taken(used, NextAnswer(used) + 1);
      var status := RetryDelete(path);
      ok := status == ZOK;
    }

    /** A zoo_exists by that call tells that the node has expired, and the zoo_delete after it removes it. */
    predicate Sweeps(t: Tree, path: string, call: nat, requestTime: int, gcMaxLifetime: int) {
      FateAt(call).Answered? && FateAt(call + 1).Takes() && Removable(t, path, requestTime, gcMaxLifetime)
    }

    /** One of the first n names was the node's, and it was removed then; asks says by which
        call each name was asked for. */
    ghost predicate Swept(t: Tree, names: seq<string>, asks: seq<nat>, n: nat, path: string,
                          requestTime: int, gcMaxLifetime: int)
      requires n <= |names| && n <= |asks|
    {
      exists i :: 0 <= i < n && DataPath(names[i]) == path && Sweeps(t, path, asks[i], requestTime, gcMaxLifetime)
    }

    lemma SweptOnce(t: Tree, names: seq<string>, asks: seq<nat>, next: nat, path: string,
                    requestTime: int, gcMaxLifetime: int)
      requires 0 < |asks| <= |names|
      ensures var n := |asks|;
              Swept(t, names, asks + [next], n, path, requestTime, gcMaxLifetime) <==>
              || Swept(t, names, asks, n - 1, path, requestTime, gcMaxLifetime)
              || (DataPath(names[n - 1]) == path && Sweeps(t, path, asks[n - 1], requestTime, gcMaxLifetime))
    {
      var n, all := |asks|, asks + [next];
      assert forall i :: 0 <= i < n ==> all[i] == asks[i];
    }

    /** By which call the next name is asked for: a delete comes between exactly if the node was
        told to be expired, and not removed before. */
    ghost predicate AskedNext(t: Tree, names: seq<string>, asks: seq<nat>, i: nat, requestTime: int, gcMaxLifetime: int)
      requires i < |names| && i + 1 < |asks|
    {
      var path := DataPath(names[i]);
      var told := FateAt(asks[i]).Answered? && Stale(t, path, requestTime, gcMaxLifetime)
                  && !Swept(t, names, asks, i, path, requestTime, gcMaxLifetime);
      asks[i + 1] == asks[i] + if told then 2 else 1
    }

    lemma AskedStays(t: Tree, names: seq<string>, asks: seq<nat>, next: nat, i: nat,
                     requestTime: int, gcMaxLifetime: int)
      requires i < |names| && i + 1 < |asks| && AskedNext(t, names, asks, i, requestTime, gcMaxLifetime)
      ensures AskedNext(t, names, asks + [next], i, requestTime, gcMaxLifetime)
    {
      var all, path := asks + [next], DataPath(names[i]);
      assert forall j :: 0 <= j < |asks| ==> all[j] == asks[j];
    }

    /** What PS_GC_FUNC does about one node. */
    method Sweep(path: string, expirationTime: int, ghost requestTime: int, ghost gcMaxLifetime: int)
      requires expirationTime == CutOff(requestTime, gcMaxLifetime)
      modifies `tree, `used
      ensures var stale := Stale(old(tree), path, requestTime, gcMaxLifetime);
              used == old(used) + if FateAt(old(used)).Answered? && stale then 2 else 1
      ensures var sweeps := Sweeps(old(tree), path, old(used), requestTime, gcMaxLifetime);
              tree == if sweeps then old(tree) - {path} else old(tree)
    {
      var status, stat := Exists(path);
      if status == ZOK && stat.mtime < expirationTime {
        status := Delete(path);
      }
    }

    /** t' is what is left of t when the first |asks| - 1 names are through. */
    ghost predicate Left(t: Tree, t': Tree, names: seq<string>, asks: seq<nat>, requestTime: int, gcMaxLifetime: int)
      requires 0 < |asks| <= |names| + 1
    {
      && t'.Keys <= t.Keys && (forall p :: p in t' ==> t'[p] == t[p])
      && forall p :: p in t ==>
           (p !in t' <==> Swept(t, names, asks, |asks| - 1, p, requestTime, gcMaxLifetime))
    }

    lemma LeftOnce(t: Tree, t': Tree, t'': Tree, names: seq<string>, asks: seq<nat>, next: nat,
                   requestTime: int, gcMaxLifetime: int)
      requires 0 < |asks| <= |names| && Left(t, t', names, asks, requestTime, gcMaxLifetime)
      requires var last := |asks| - 1;
               var path := DataPath(names[last]);
               && t'' == (if Sweeps(t', path, asks[last], requestTime, gcMaxLifetime) then t' - {path} else t')
               && var stale := Stale(t', path, requestTime, gcMaxLifetime);
                  next == asks[last] + if FateAt(asks[last]).Answered? && stale then 2 else 1
      ensures Left(t, t'', names, asks + [next], requestTime, gcMaxLifetime)
      ensures AskedNext(t, names, asks + [next], |asks| - 1, requestTime, gcMaxLifetime)
    {
      hide Swept;
      var last := |asks| - 1;
      var path := DataPath(names[last]);
      SweptBefore(t, names, asks, next, path, requestTime, gcMaxLifetime);
      forall p | p in t
        ensures p !in t'' <==> Swept(t, names, asks + [next], |asks|, p, requestTime, gcMaxLifetime)
      {
        SweptOnce(t, names, asks, next, p, requestTime, gcMaxLifetime);
      }
    }

    lemma SweptBefore(t: Tree, names: seq<string>, asks: seq<nat>, next: nat, path: string,
                      requestTime: int, gcMaxLifetime: int)
      requires 0 < |asks| <= |names|
      ensures Swept(t, names, asks + [next], |asks| - 1, path, requestTime, gcMaxLifetime) <==>
              Swept(t, names, asks, |asks| - 1, path, requestTime, gcMaxLifetime)
    {
      var all := asks + [next];
      assert forall i :: 0 <= i < |asks| ==> all[i] == asks[i];
    }

    /** Without a failure what is gone are the expired nodes without children. */
    lemma CalmlySwept(t: Tree, names: seq<string>, asks: seq<nat>, i: nat, requestTime: int, gcMaxLifetime: int)
      requires i < |names| <= |asks| && DataPath(names[i]) in t
      requires forall j :: 0 <= j < |names| ==> asks[j] >= |script|
      ensures var path := DataPath(names[i]);
              Swept(t, names, asks, |names|, path, requestTime, gcMaxLifetime) <==>
              requestTime * 1000 - t[path].mtime > gcMaxLifetime * 1000 && t[path].children == 0
    {
      assert FateAt(asks[i]).Answered? && FateAt(asks[i] + 1).Answered?;
    }

    /** PS_GC_FUNC on the child list the server answered: one zoo_exists for every name, and one
        zoo_delete exactly when it is told of an expired node.  A node goes exactly when such a
        delete takes effect, and without a failure exactly when it is expired and has no children. */
    method Gc(names: seq<string>, requestTime: int, gcMaxLifetime: int) returns (ghost asks: seq<nat>)
      modifies `tree, `used
      ensures |asks| == |names| + 1 && asks[0] == old(used) && asks[|names|] == used
      ensures forall i :: 0 <= i < |names| ==> AskedNext(old(tree), names, asks, i, requestTime, gcMaxLifetime)
      ensures Left(old(tree), tree, names, asks, requestTime, gcMaxLifetime)
      ensures old(Calm()) ==>
                forall i :: 0 <= i < |names| && DataPath(names[i]) in old(tree) ==>
                  var node := old(tree)[DataPath(names[i])];
                  DataPath(names[i]) !in tree <==>
                  requestTime * 1000 - node.mtime > gcMaxLifetime * 1000 && node.children == 0
    {
      hide Swept, Sweeps, AskedNext, Stale, Removable;
      var expirationTime := CutOff(requestTime, gcMaxLifetime);
      asks := [used];
      NoneSwept(tree, names, asks, requestTime, gcMaxLifetime);
      for i := 0 to |names|
        invariant |asks| == i + 1 && asks[0] == old(used) && asks[i] == used
        invariant forall j :: 0 <= j < i ==> AskedNext(old(tree), names, asks, j, requestTime, gcMaxLifetime)
        invariant forall j :: 0 <= j <= i ==> asks[j] >= old(used)
        invariant Left(old(tree), tree, names, asks, requestTime, gcMaxLifetime)
      {
        ghost var before := tree;
        Sweep(DataPath(names[i]), expirationTime, requestTime, gcMaxLifetime);
        LeftOnce(old(tree), before, tree, names, asks, used, requestTime, gcMaxLifetime);
        forall j | 0 <= j < i ensures AskedNext(old(tree), names, asks + [used], j, requestTime, gcMaxLifetime) {
          AskedStays(old(tree), names, asks, used, j, requestTime, gcMaxLifetime);
        }
        asks := asks + [used];
      }
      forall i | old(Calm()) && 0 <= i < |names| && DataPath(names[i]) in old(tree)
        ensures var node := old(tree)[DataPath(names[i])];
                DataPath(names[i]) !in tree <==>
                requestTime * 1000 - node.mtime > gcMaxLifetime * 1000 && node.children == 0
      {
        CalmlySwept(old(tree), names, asks, i, requestTime, gcMaxLifetime);
      }
    }

    lemma NoneSwept(t: Tree, names: seq<string>, asks: seq<nat>, requestTime: int, gcMaxLifetime: int)
      requires |asks| == 1
      ensures Left(t, t, names, asks, requestTime, gcMaxLifetime)
    {
    }
  }

  /** PS_WRITE_FUNC on an existing node, with the reply of zoo_set lost: it reports FAILURE,
      and the node holds the value. */
  method StoredYetFailed(path: string, before: Entry, val: string) returns (s: Store, ok: bool)
    ensures fresh(s) && !ok && path in s.tree && s.tree[path].data == val
  {
    s := new Store(map[path := before], [Answered, LostApplied], 0);
    assert s.NextAnswer(0) == 0;
    ok := s.Write(path, val);
  }

  /** PS_READ_FUNC with a lost reply: it asks again and returns the data. */
  method ReadAsksAgain(path: string, before: Entry, requestTime: int, gcMaxLifetime: int) returns (val: Option<string>)
    requires !Outlived(before.mtime, requestTime, gcMaxLifetime)
    ensures val == Some(before.data)
  {
    var s := new Store(map[path := before], [LostDropped], 0);
    assert s.NextAnswer(0) == 1 && s.NextAnswer(2) == 2;
    val := s.Read(path, requestTime, gcMaxLifetime);
  }
}
