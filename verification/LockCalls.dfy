/** Which calls the lock code makes, as a reference that does not mention its loops: what one
    zkr_lock_operation asks for, what one zkr_lock_lock, and what several in a row. */
module LockCalls {
  import opened Calls
  import opened CStrings
  import opened LockSafety
  import opened NodeNames
  import opened ReturnCodes
  import opened ServerLog

  /** Where an operation's stages end in the list of calls: the first listing, the creation of
      a node, the second listing, the watch.  begin is how long the run was at the start, look
      and list are where it records what the two listings told. */
  datatype OpCalls =
    OpCalls(from: nat, looked: nat, adopted: nat, listed: nat, to: nat, begin: nat, look: nat, list: nat)

  /** The first listing, asked for at most three times. */
  ghost predicate Looks(r: Run, calls: seq<Call>, o: OpCalls, c: Session, path: string) {
    && RetriedIn(calls, o.from, o.looked, ListCall, path, 3)
    && (calls[o.looked - 1].rc == ZOK ==>
          && o.begin <= o.look < |r.actions| && o.look < |r.states|
          && r.actions[o.look].Look? && r.actions[o.look].c == c
          && (calls[o.looked - 1].current <==> r.actions[o.look].k == |r.states[o.look].log|))
  }

  /** A node is created exactly if the listing was answered without one of the session, and
      that is not retried. */
  ghost predicate Adopts(r: Run, calls: seq<Call>, o: OpCalls, c: Session, path: string) {
    && Looks(r, calls, o, c, path)
    && if calls[o.looked - 1].rc != ZOK || r.actions[o.look].found.Some? then o.adopted == o.looked
       else o.adopted == o.looked + 1 <= |calls|
            && calls[o.looked].kind == CreateCall && calls[o.looked].path == path + "/" + Prefix(c)
  }

  /** The second listing, asked for at most three times, and a watch on the floor it shows,
      likewise, exactly if it shows one. */
  ghost predicate Ranks(r: Run, calls: seq<Call>, o: OpCalls, c: Session, path: string) {
    && RetriedIn(calls, o.adopted, o.listed, ListCall, path, 3)
    && if calls[o.listed - 1].rc != ZOK then o.to == o.listed
       else
         && o.begin <= o.list < |r.actions| && o.list < |r.states|
         && r.actions[o.list].List? && r.actions[o.list].c == c
         && (calls[o.listed - 1].current <==> r.actions[o.list].k == |r.states[o.list].log|)
         && match r.actions[o.list].floor
            case None => o.to == o.listed
            case Some(p) => RetriedIn(calls, o.listed, o.to, WatchCall, path + "/" + Name(p), 3)
  }

  /** The calls of one zkr_lock_operation: it goes on exactly as long as it is answered. */
  ghost predicate Operated(r: Run, calls: seq<Call>, o: OpCalls, c: Session, path: string) {
    && Adopts(r, calls, o, c, path)
    && if calls[o.adopted - 1].rc != ZOK then o.to == o.adopted else Ranks(r, calls, o, c, path)
  }

  /** Where zkr_lock_lock's operations start, and the operations. */
  datatype Locking = Locking(begin: nat, ready: nat, ops: seq<OpCalls>) {
    function End(): nat
      requires ops != []
    {
      ops[|ops| - 1].to
    }
  }

  /** An operation that ended with this call failed, without blocking for good. */
  predicate Failing(call: Call) {
    call.rc != ZOK && call.kind != WatchCall
  }

  /** The calls of one zkr_lock_lock: it makes sure of the directory, and starts an operation
      again as long as it fails, four in all. */
  ghost predicate Locks(r: Run, calls: seq<Call>, from: nat, l: Locking, c: Session, path: string) {
    && DirectoryEnsured(calls, from, l.ready, path)
    && 1 <= |l.ops| <= 4 && l.begin <= l.ops[0].begin && Operations(r, calls, l.ready, l.ops, c, path)
    && 0 < l.End() <= |calls| && (Failing(calls[l.End() - 1]) ==> |l.ops| == 4)
  }

  /** One operation after another, the next whenever one failed. */
  ghost predicate Operations(r: Run, calls: seq<Call>, from: nat, ops: seq<OpCalls>, c: Session, path: string) {
    && (ops != [] ==> ops[0].from == from)
    && (forall i :: 0 <= i < |ops| ==> Operated(r, calls, ops[i], c, path))
    && (forall i :: 0 <= i < |ops| - 1 ==> Again(calls, ops[i], ops[i + 1]))
  }

  /** The one operation failed, and the other starts where it ended. */
  predicate Again(calls: seq<Call>, o: OpCalls, next: OpCalls) {
    0 < o.to <= |calls| && next.from == o.to && Failing(calls[o.to - 1])
  }

  // ---------------------------------------------------------------- later calls change nothing

  lemma LooksStays(r: Run, r': Run, calls: seq<Call>, more: seq<Call>, o: OpCalls, c: Session, path: string)
    requires r.states <= r'.states && r.actions <= r'.actions && calls <= more && Looks(r, calls, o, c, path)
    ensures Looks(r', more, o, c, path) && more[o.looked - 1] == calls[o.looked - 1]
    ensures calls[o.looked - 1].rc == ZOK ==> r'.actions[o.look] == r.actions[o.look]
  {
    assert forall i :: 0 <= i < |calls| ==> more[i] == calls[i];
    if calls[o.looked - 1].rc == ZOK {
      assert r'.actions[o.look] == r.actions[o.look] && r'.states[o.look] == r.states[o.look];
    }
  }

  lemma AdoptsStays(r: Run, r': Run, calls: seq<Call>, more: seq<Call>, o: OpCalls, c: Session, path: string)
    requires r.states <= r'.states && r.actions <= r'.actions && calls <= more && Adopts(r, calls, o, c, path)
    ensures Adopts(r', more, o, c, path) && more[o.adopted - 1] == calls[o.adopted - 1]
    ensures more[o.looked - 1] == calls[o.looked - 1]
  {
    assert forall i :: 0 <= i < |calls| ==> more[i] == calls[i];
    if calls[o.looked - 1].rc == ZOK {
      assert r'.actions[o.look] == r.actions[o.look] && r'.states[o.look] == r.states[o.look];
    }
  }

  lemma RanksStays(r: Run, r': Run, calls: seq<Call>, more: seq<Call>, o: OpCalls, c: Session, path: string)
    requires r.states <= r'.states && r.actions <= r'.actions && calls <= more && Ranks(r, calls, o, c, path)
    ensures Ranks(r', more, o, c, path) && 0 < o.to <= |calls| && more[o.to - 1] == calls[o.to - 1]
  {
    assert forall i :: 0 <= i < |calls| ==> more[i] == calls[i];
    if calls[o.listed - 1].rc == ZOK {
      assert r'.actions[o.list] == r.actions[o.list] && r'.states[o.list] == r.states[o.list];
    }
  }

  lemma OperatedStays(r: Run, r': Run, calls: seq<Call>, more: seq<Call>, o: OpCalls, c: Session, path: string)
    requires r.states <= r'.states && r.actions <= r'.actions && calls <= more && Operated(r, calls, o, c, path)
    ensures Operated(r', more, o, c, path) && 0 < o.to <= |calls| && more[o.to - 1] == calls[o.to - 1]
  {
    AdoptsStays(r, r', calls, more, o, c, path);
    if calls[o.adopted - 1].rc == ZOK {
      RanksStays(r, r', calls, more, o, c, path);
    }
  }

  lemma EnsuredStays(calls: seq<Call>, more: seq<Call>, from: nat, to: nat, path: string)
    requires calls <= more && DirectoryEnsured(calls, from, to, path)
    ensures DirectoryEnsured(more, from, to, path)
  {
    assert forall i :: 0 <= i < |calls| ==> more[i] == calls[i];
  }

  lemma OperationsStay(r: Run, r': Run, calls: seq<Call>, more: seq<Call>, from: nat, ops: seq<OpCalls>,
                       c: Session, path: string)
    requires r.states <= r'.states && r.actions <= r'.actions && calls <= more
    requires Operations(r, calls, from, ops, c, path)
    ensures Operations(r', more, from, ops, c, path)
  {
    forall i | 0 <= i < |ops| ensures Operated(r', more, ops[i], c, path) {
      OperatedStays(r, r', calls, more, ops[i], c, path);
    }
    forall i | 0 <= i < |ops| - 1 ensures Again(more, ops[i], ops[i + 1]) {
      assert Again(calls, ops[i], ops[i + 1]);
    }
  }

  lemma OneMore(r: Run, r': Run, calls: seq<Call>, more: seq<Call>, from: nat, ops: seq<OpCalls>, o: OpCalls,
                c: Session, path: string)
    requires r.states <= r'.states && r.actions <= r'.actions && calls <= more
    requires Operations(r, calls, from, ops, c, path) && Operated(r', more, o, c, path)
    requires if ops == [] then o.from == from else Again(calls, ops[|ops| - 1], o)
    ensures Operations(r', more, from, ops + [o], c, path)
  {
    OperationsStay(r, r', calls, more, from, ops, c, path);
    var all := ops + [o];
    forall i | 0 <= i < |all| - 1 ensures Again(more, all[i], all[i + 1]) {
      if i < |ops| - 1 {
        assert Again(more, ops[i], ops[i + 1]);
      } else {
        assert Again(calls, ops[i], o);
      }
    }
  }

  lemma LocksStays(r: Run, r': Run, calls: seq<Call>, more: seq<Call>, from: nat, l: Locking, c: Session, path: string)
    requires r.states <= r'.states && r.actions <= r'.actions && calls <= more && Locks(r, calls, from, l, c, path)
    ensures Locks(r', more, from, l, c, path) && more[l.End() - 1] == calls[l.End() - 1]
  {
    hide DirectoryEnsured, Operated, Operations;
    EnsuredStays(calls, more, from, l.ready, path);
    OperationsStay(r, r', calls, more, l.ready, l.ops, c, path);
  }

  // ---------------------------------------------------------------- stage by stage

  /** The first listing failed, or showed a node of the session. */
  lemma AdoptsFound(r: Run, calls: seq<Call>, o: OpCalls, c: Session, path: string)
    requires Looks(r, calls, o, c, path) && o.adopted == o.looked == |calls|
    requires calls[|calls| - 1].rc == ZOK ==> r.actions[o.look].found.Some?
    ensures Adopts(r, calls, o, c, path)
  {
  }

  /** It showed none, and zoo_create was called. */
  lemma AdoptsMade(r: Run, r': Run, calls: seq<Call>, more: seq<Call>, o: OpCalls, rc: int, c: Session, path: string)
    requires r.states <= r'.states && r.actions <= r'.actions && Looks(r, calls, o, c, path) && o.looked == |calls|
    requires calls[|calls| - 1].rc == ZOK && r.actions[o.look].found == None
    requires more == calls + [Call(CreateCall, path + "/" + Prefix(c), rc, true)] && o.adopted == |more|
    ensures Adopts(r', more, o, c, path) && r'.actions[o.look] == r.actions[o.look]
  {
    LooksStays(r, r', calls, more, o, c, path);
  }

  /** The second listing failed. */
  lemma RanksFailed(r: Run, calls: seq<Call>, o: OpCalls, c: Session, path: string)
    requires RetriedIn(calls, o.adopted, o.listed, ListCall, path, 3) && calls[o.listed - 1].rc != ZOK
    requires o.to == o.listed
    ensures Ranks(r, calls, o, c, path)
  {
  }

  /** It was answered, and the floor, if there is one, watched. */
  lemma RanksAnswered(r: Run, r': Run, calls: seq<Call>, more: seq<Call>, o: OpCalls, c: Session, path: string)
    requires r.states <= r'.states && r.actions <= r'.actions && calls <= more
    requires RetriedIn(calls, o.adopted, |calls|, ListCall, path, 3) && calls[|calls| - 1].rc == ZOK
    requires o.begin <= o.list < |r.actions| && o.list < |r.states|
    requires r.actions[o.list].List? && r.actions[o.list].c == c
    requires calls[|calls| - 1].current <==> r.actions[o.list].k == |r.states[o.list].log|
    requires o.listed == |calls| && o.to == |more|
    requires match r.actions[o.list].floor
             case None => more == calls
             case Some(p) => RetriedIn(more, |calls|, |more|, WatchCall, path + "/" + Name(p), 3)
    ensures Ranks(r', more, o, c, path) && r'.actions[o.list] == r.actions[o.list]
  {
    assert forall i :: 0 <= i < |calls| ==> more[i] == calls[i];
    assert r'.actions[o.list] == r.actions[o.list] && r'.states[o.list] == r.states[o.list];
  }

  /** An operation ended with its first half. */
  lemma OperatedHalf(r: Run, calls: seq<Call>, o: OpCalls, c: Session, path: string)
    requires Adopts(r, calls, o, c, path) && o.adopted == |calls| > 0 && calls[|calls| - 1].rc != ZOK
    ensures Operated(r, calls, o.(to := |calls|), c, path)
  {
  }

  /** It had a second half. */
  lemma OperatedWhole(r: Run, r': Run, calls: seq<Call>, more: seq<Call>, first: OpCalls, o: OpCalls,
                      c: Session, path: string)
    requires r.states <= r'.states && r.actions <= r'.actions && calls <= more
    requires Adopts(r, calls, first, c, path) && first.adopted == |calls| > 0 && calls[|calls| - 1].rc == ZOK
    requires o == first.(listed := o.listed, to := o.to, list := o.list) && Ranks(r', more, o, c, path)
    ensures Operated(r', more, o, c, path)
  {
    AdoptsStays(r, r', calls, more, first, c, path);
  }

  lemma NoneYet(r: Run, calls: seq<Call>, from: nat, c: Session, path: string)
    ensures Operations(r, calls, from, [], c, path)
  {
  }

  // ---------------------------------------------------------------- well served

  /** A full listing read at action j, no earlier than state i, serves the first in line. */
  lemma ServedInRun(r: Run, i: nat, j: nat)
    requires IsRun(r) && i <= j < |r.actions|
    ensures var a, last := r.actions[j], r.states[|r.actions|];
            a.Look? && a.k == |r.states[j].log| ==>
              forall m :: FirstInLine(r.states[i], last, a.c, m) ==> a.found == Some(m)
    ensures var a, last := r.actions[j], r.states[|r.actions|];
            a.List? && a.k == |r.states[j].log| ==>
              forall m :: FirstInLine(r.states[i], last, a.c, m) ==> a.min == m
  {
    var a, t := r.actions[j], |r.actions|;
    RunInv(r, i);
    RunInv(r, j);
    RunInv(r, t);
    RunStep(r, j);
    RunLogGrows(r, i, j);
    RunLogGrows(r, j, t);
    if (a.Look? || a.List?) && a.k == |r.states[j].log| {
      forall m | FirstInLine(r.states[i], r.states[t], a.c, m)
        ensures (a.Look? ==> a.found == Some(m)) && (a.List? ==> a.min == m)
      {
        FirstIsServed(r.states[i], r.states[j], r.states[t], a.c, m, a.k);
      }
    }
  }

  lemma FailureIsBad(calls: seq<Call>, from: nat, o: OpCalls, next: OpCalls)
    requires Again(calls, o, next) && from < o.to
    ensures !Good(calls, from)
  {
    assert !calls[o.to - 1].Fine();
  }

  lemma OneSuffices(r: Run, calls: seq<Call>, from: nat, ready: nat, ops: seq<OpCalls>, c: Session, path: string)
    requires Operations(r, calls, ready, ops, c, path) && ops != [] && from <= ready && Good(calls, from)
    ensures |ops| == 1
  {
    hide Good;
    if |ops| > 1 {
      assert Operated(r, calls, ops[0], c, path);
      FailureIsBad(calls, from, ops[0], ops[1]);
    }
  }

  /** When every call of a zkr_lock_lock succeeds with an up-to-date answer, its one operation
      finds the first in line and lists it first. */
  lemma FirstIsListed(r: Run, calls: seq<Call>, from: nat, l: Locking, c: Session, path: string)
    requires IsRun(r) && Locks(r, calls, from, l, c, path) && Good(calls, from) && l.End() == |calls|
    ensures |l.ops| == 1 && l.begin <= l.ops[0].look < |r.actions| && l.begin <= l.ops[0].list < |r.actions|
    ensures var look, list := r.actions[l.ops[0].look], r.actions[l.ops[0].list];
            && look.Look? && list.List?
            && forall m :: FirstInLine(r.states[l.begin], Last(r), c, m) ==> look.found == Some(m) && list.min == m
  {
    var o := l.ops[0];
    assert Operated(r, calls, o, c, path);
    OneSuffices(r, calls, from, l.ready, l.ops, c, path);
    assert calls[o.looked - 1].Fine();
    assert calls[o.adopted - 1].Fine();
    assert calls[o.listed - 1].Fine();
    ServedInRun(r, l.begin, o.look);
    ServedInRun(r, l.begin, o.list);
  }

  // ---------------------------------------------------------------- bounds

  lemma OperatedBounded(r: Run, calls: seq<Call>, o: OpCalls, c: Session, path: string)
    requires Operated(r, calls, o, c, path)
    ensures o.from < o.to <= o.from + 10
  {
  }

  lemma {:induction false} OperationsBounded(r: Run, calls: seq<Call>, from: nat, ops: seq<OpCalls>, n: nat,
                                             c: Session, path: string)
    requires Operations(r, calls, from, ops, c, path) && n < |ops|
    ensures ops[n].to <= from + 10 * (n + 1)
  {
    hide Operated;
    OperatedBounded(r, calls, ops[n], c, path);
    if n > 0 {
      OperationsBounded(r, calls, from, ops, n - 1, c, path);
      assert Again(calls, ops[n - 1], ops[n]);
    }
  }

  /** At most 45 calls. */
  lemma LocksBounded(r: Run, calls: seq<Call>, from: nat, l: Locking, c: Session, path: string)
    requires Locks(r, calls, from, l, c, path)
    ensures l.End() <= from + 45
  {
    hide Operations;
    OperationsBounded(r, calls, l.ready, l.ops, |l.ops| - 1, c, path);
  }
}
