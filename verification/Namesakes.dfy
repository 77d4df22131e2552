/** A run in which two sessions claim the lock at once: the directory is renewed,
    and a new node gets the name that an old ownerid still holds. */
module Namesakes {
  import opened CStrings
  import opened ServerLog
  import opened LockProtocol
  import opened LockSafety

  lemma Extend(r: Run, a: Action) returns (r': Run)
    requires IsRun(r) && Enabled(Last(r), a)
    ensures IsRun(r') && Last(r') == Next(Last(r), a)
  {
    ExtendedIsRun(r, a);
    r' := Extended(r, a);
  }

  lemma LiveGrows(log: Log, op: Op)
    ensures op.Create? ==> Live(log + [op]) == Live(log) + {op.node}
    ensures op.Delete? ==> Live(log + [op]) == Live(log) - {op.node}
    ensures op.Renew? ==> Live(log + [op]) == Live(log)
  {
    PrefixLive(log, [op], |log|);
  }

  /** Session c, idle and without a node, joins the queue. */
  lemma Join(r: Run, c: Session, shown: nat) returns (r': Run)
    requires IsRun(r) && c in Last(r).clients && shown <= MAX_SEQ && Last(r).next <= Last(r).base + shown
    requires var cl := Last(r).clients[c];
             && cl.pc == Idle && !cl.expired && cl.view <= |Last(r).log|
             && forall n :: n in Live(Last(r).log) ==> n.session != c
    ensures IsRun(r')
    ensures var s, n := Last(r), Node(Last(r).base, shown, c);
            Last(r') == State(s.log + [Create(n)], n.Num() + 1, s.base,
                              s.clients[c := s.clients[c].(id := Some(n), pc := Named, view := |s.log| + 1)])
  {
    var s := Last(r);
    var looked := Extend(r, Look(c, |s.log|, None));
    var t := s.(clients := s.clients[c := s.clients[c].(id := None, pc := Creating, view := |s.log|)]);
    assert s.log + [] == s.log;
    assert Last(looked) == t;
    r' := Extend(looked, CreateOk(c, shown));
    assert t.clients[c := Moved(t.clients[c], CreateOk(c, shown), s.base, |s.log| + 1)]
        == s.clients[c := s.clients[c].(id := Some(Node(s.base, shown, c)), pc := Named, view := |s.log| + 1)];
  }

  /** Session c, alone in the queue, finds itself owner. */
  lemma Win(r: Run, c: Session, n: Node) returns (r': Run)
    requires IsRun(r) && c in Last(r).clients && Live(Last(r).log) == {n}
    requires var cl := Last(r).clients[c]; cl.pc == Named && !cl.expired && cl.id == Some(n) && cl.view <= |Last(r).log|
    ensures IsRun(r')
    ensures var s := Last(r);
            Last(r') == s.(clients := s.clients[c := s.clients[c].(ownerid := Some(n), pc := Idle, view := |s.log|)])
  {
    var s := Last(r);
    r' := Extend(r, List(c, |s.log|, n, None));
    assert s.log + [] == s.log;
  }

  /** It releases the lock, and the empty directory is renewed. */
  lemma Leave(r: Run, c: Session, n: Node) returns (r': Run)
    requires IsRun(r) && c in Last(r).clients && Live(Last(r).log) == {n}
    requires var cl := Last(r).clients[c]; cl.pc == Idle && !cl.expired && cl.id == Some(n)
    ensures IsRun(r') && Live(Last(r').log) == {}
    ensures var s := Last(r);
            Last(r') == State(s.log + [Delete(n)] + [Renew], s.next, s.next,
                              s.clients[c := s.clients[c].(id := None, view := |s.log| + 1)])
  {
    var s := Last(r);
    LiveGrows(s.log, Delete(n));
    var gone := Extend(r, DeleteOk(c, Some(n)));
    LiveGrows(s.log + [Delete(n)], Renew);
    r' := Extend(gone, RenewDirectory(c));
  }

  /** Without zkr_lock_init in between, a session that once owned the lock can claim
      it by name alone, next to the true owner. */
  lemma TwoClaims(a: Session, b: Session) returns (r: Run)
    requires a != b
    ensures IsRun(r) && Claims(Last(r), a) && Claims(Last(r), b)
    ensures Owns(Last(r), b) && !Owns(Last(r), a)
  {
    var cl := Client(None, None, Idle, 0, false);
    r := Run([State([], 0, 0, map[a := cl, b := cl])], []);
    var old_, mine, yours := Node(0, 1, a), Node(2, 1, a), Node(2, 0, b);
    r := Join(r, a, 1);
    LiveGrows([], Create(old_));
    r := Win(r, a, old_);
    r := Leave(r, a, old_);
    var log := Last(r).log;
    r := Join(r, b, 0);
    LiveGrows(log, Create(yours));
    r := Win(r, b, yours);
    r := Join(r, a, 1);
    LiveGrows(log + [Create(yours)], Create(mine));
  }
}
