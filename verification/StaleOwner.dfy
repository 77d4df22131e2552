/** When an ownerid that was left over can make a session claim the lock wrongly: exactly
    when it is of the session's own, and no live node of the session keeps its name off. */
module StaleOwner {
  import opened CStrings
  import opened ServerLog
  import opened LockProtocol
  import opened LockSafety

  /** The ownerid cannot meet a namesake: it is another session's, or the session has a live
      node, which is the very node meant or has another name. */
  ghost predicate Safe(s: State, c: Session)
    requires c in s.clients
  {
    var owner := s.clients[c].ownerid;
    owner.Some? && owner.value.session == c ==>
      exists m :: m in Live(s.log) && m.session == c && (m == owner.value || !SameName(m, owner.value))
  }

  lemma SafeClaims(s: State, c: Session)
    requires Inv(s) && Claims(s, c) && Safe(s, c)
    ensures Owns(s, c)
  {
    assert ClientInv(s.log, c, s.clients[c]);
    assert OnePerSession(LiveAt(s.log, |s.log|));
  }

  /** As long as the session loses no node, safe stays safe. */
  lemma SafeStays(s: State, a: Action, c: Session)
    requires Inv(s) && Enabled(s, a) && !Forgets(a, c) && c in s.clients && Safe(s, c)
    ensures Safe(Next(s, a), c)
  {
    var cl, t := s.clients[c], Next(s, a);
    assert ClientInv(s.log, c, cl) && ClientInv(s.log, a.c, s.clients[a.c]);
    if a.c == c && a.List? {
      assert s.log + [] == s.log;
      SafeListing(s, a);
    } else if cl.ownerid.Some? && cl.ownerid.value.session == c && t.clients[c].ownerid == cl.ownerid {
      var m :| m in Live(s.log) && m.session == c && (m == cl.ownerid.value || !SameName(m, cl.ownerid.value));
      NodeStays(s, a, c, m);
    }
  }

  lemma NodeStays(s: State, a: Action, c: Session, m: Node)
    requires Inv(s) && Enabled(s, a) && !Forgets(a, c) && m in Live(s.log) && m.session == c
    ensures m in Live(Next(s, a).log)
  {
    assert ClientInv(s.log, a.c, s.clients[a.c]);
    PrefixLive(s.log, Effect(s, a), |s.log|);
    EffectBy(s, a);
  }

  lemma SafeListing(s: State, a: Action)
    requires Inv(s) && Enabled(s, a) && a.List?
    ensures a.min.session == a.c ==> a.min in Live(s.log)
  {
    var cl := s.clients[a.c];
    assert ClientInv(s.log, a.c, cl);
    ReadOn(s.log, s.next, a.c, cl, a.k);
    ReadOn(s.log, s.next, a.c, cl, |s.log|);
  }

  // ---------------------------------------------------------------- continuations

  /** r' goes on from r, and in between c neither loses a node nor is initialised again. */
  ghost predicate Continues(r: Run, r': Run, c: Session) {
    && IsRun(r') && r.actions <= r'.actions
    && forall i :: |r.actions| <= i < |r'.actions| ==> !Forgets(r'.actions[i], c) && r'.actions[i] != Reinit(c)
  }

  lemma More(r: Run, mid: Run, c: Session, a: Action) returns (r': Run)
    requires Continues(r, mid, c) && Enabled(Last(mid), a) && !Forgets(a, c) && a != Reinit(c)
    ensures Continues(r, r', c) && Last(r') == Next(Last(mid), a)
  {
    ExtendedIsRun(mid, a);
    r' := Extended(mid, a);
  }

  /** The client of session c comes to rest; nothing else changes. */
  lemma ToIdle(r: Run, mid: Run, c: Session) returns (r': Run)
    requires Continues(r, mid, c) && c in Last(mid).clients
    ensures Continues(r, r', c)
    ensures var s := Last(mid); Last(r') == s.(clients := s.clients[c := s.clients[c].(pc := Idle)])
  {
    r' := mid;
    var s := Last(mid);
    assert s.log + [] == s.log;
    if s.clients[c].pc.Watching? {
      r' := More(r, r', c, WatchFail(c));
    }
    r' := More(r, r', c, Fail(c));
  }

  /** A live node's session is connected. */
  lemma {:induction false} LiveConnected(r: Run, i: nat, n: Node)
    requires IsRun(r) && i < |r.states| && n in Live(r.states[i].log)
    ensures n.session in r.states[i].clients && !r.states[i].clients[n.session].expired
  {
    if i > 0 {
      var s, a := r.states[i - 1], r.actions[i - 1];
      RunStep(r, i - 1);
      PrefixLive(s.log, Effect(s, a), |s.log|);
      if n in Live(s.log) {
        LiveConnected(r, i - 1, n);
      }
      assert s.log + [] == s.log;
    }
  }

  /** All other sessions with nodes expire. */
  lemma {:induction false} ClearOthers(r: Run, mid: Run, c: Session) returns (r': Run)
    requires Continues(r, mid, c) && c in Last(mid).clients
    requires forall n :: n in Live(Last(mid).log) ==> n.session != c
    ensures Continues(r, r', c) && Live(Last(r').log) == {}
    ensures c in Last(r').clients && Last(r').clients[c] == Last(mid).clients[c] && Last(r').next == Last(mid).next
    decreases |Live(Last(mid).log)|
  {
    var s := Last(mid);
    if Live(s.log) == {} {
      return mid;
    }
    var n :| n in Live(s.log);
    LiveConnected(mid, |mid.actions|, n);
    r' := More(r, mid, c, ExpireSession(n.session));
    PrefixLive(s.log, [Expire(n.session)], |s.log|);
    assert Live(Last(r').log) < Live(s.log) by {
      assert n !in Live(Last(r').log);
    }
    Smaller(Live(Last(r').log), Live(s.log));
    r' := ClearOthers(r, r', c);
  }

  lemma Smaller(a: set<Node>, b: set<Node>)
    requires a < b
    ensures |a| < |b|
  {
    var rest := b - a;
    assert b == a + rest && rest != {};
  }

  /** The session finds its own live node, which is a namesake. */
  lemma FindsNamesake(r: Run, c: Session, m: Node) returns (r': Run)
    requires IsRun(r) && c in Last(r).clients && !Last(r).clients[c].expired
    requires m in Live(Last(r).log) && m.session == c
    requires var owner := Last(r).clients[c].ownerid; owner.Some? && m != owner.value && SameName(m, owner.value)
    ensures Continues(r, r', c) && Claims(Last(r'), c) && !Owns(Last(r'), c)
  {
    r' := ToIdle(r, r, c);
    var s := Last(r');
    RunInv(r', |r'.actions|);
    assert ClientInv(s.log, c, s.clients[c]);
    assert s.log + [] == s.log;
    r' := More(r, r', c, Look(c, |s.log|, Some(m)));
  }

  /** The directory is renewed, and the session's new node gets the old name. */
  lemma BecomesNamesake(r: Run, mid: Run, c: Session) returns (r': Run)
    requires Continues(r, mid, c) && c in Last(mid).clients && Live(Last(mid).log) == {}
    requires var cl := Last(mid).clients[c];
             !cl.expired && cl.pc == Idle && cl.ownerid.Some? && cl.ownerid.value.session == c
    ensures Continues(r, r', c) && Claims(Last(r'), c) && !Owns(Last(r'), c)
  {
    var owner := Last(mid).clients[c].ownerid.value;
    OwnerBelow(mid, c);
    r' := More(r, mid, c, RenewDirectory(c));
    var s := Last(r');
    PrefixLive(Last(mid).log, [Renew], |Last(mid).log|);
    RunInv(r', |r'.actions|);
    assert ClientInv(s.log, c, s.clients[c]) && Live(s.log) == {};
    r' := More(r, r', c, Look(c, |s.log|, None));
    assert s.log + [] == s.log && Last(r').log == s.log;
    r' := More(r, r', c, CreateOk(c, owner.shown));
    PrefixLive(s.log, [Create(Node(s.base, owner.shown, c))], |s.log|);
  }

  lemma OwnerBelow(r: Run, c: Session)
    requires IsRun(r) && c in Last(r).clients && Last(r).clients[c].ownerid.Some?
    ensures var owner := Last(r).clients[c].ownerid.value; owner.Num() < Last(r).next && owner.shown <= MAX_SEQ
  {
    var s := Last(r);
    RunInv(r, |r.actions|);
    assert ClientInv(s.log, c, s.clients[c]);
    var i :| 0 <= i < s.clients[c].view && s.log[i] == Create(s.clients[c].ownerid.value);
  }

  /** Where an ownerid is not safe, some continuation has a false claim, though the session
      loses no node in it. */
  lemma UnsafeClaims(r: Run, c: Session) returns (r': Run)
    requires IsRun(r) && c in Last(r).clients && !Last(r).clients[c].expired && !Safe(Last(r), c)
    ensures Continues(r, r', c) && Claims(Last(r'), c) && !Owns(Last(r'), c)
  {
    var owner := Last(r).clients[c].ownerid.value;
    if m :| m in Live(Last(r).log) && m.session == c {
      r' := FindsNamesake(r, c, m);
    } else {
      r' := ClearOthers(r, r, c);
      r' := ToIdle(r, r', c);
      r' := BecomesNamesake(r, r', c);
    }
  }

  /** And where it is safe, no continuation has one. */
  lemma {:induction false} SafeForGood(r: Run, r': Run, c: Session)
    requires IsRun(r) && Continues(r, r', c) && r.states <= r'.states && c in Last(r).clients && Safe(Last(r), c)
    ensures c in Last(r').clients && Safe(Last(r'), c) && (Claims(Last(r'), c) ==> Owns(Last(r'), c))
    decreases |r'.actions|
  {
    var n := |r'.actions|;
    RunInv(r', n);
    if n == |r.actions| {
      assert Last(r') == Last(r);
    } else {
      var before := Run(r'.states[..n], r'.actions[..n - 1]);
      ShorterIsRun(r', before);
      RunStep(r', n - 1);
      RunInv(r', n - 1);
      SafeForGood(r, before, c);
      SafeStays(Last(before), r'.actions[n - 1], c);
    }
    if Claims(Last(r'), c) {
      SafeClaims(Last(r'), c);
    }
  }

  lemma ShorterIsRun(r: Run, before: Run)
    requires IsRun(r) && |r.actions| > 0
    requires before == Run(r.states[..|r.actions|], r.actions[..|r.actions| - 1])
    ensures IsRun(before)
  {
    forall i | 0 <= i < |before.actions|
      ensures Enabled(before.states[i], before.actions[i])
      ensures before.states[i + 1] == Next(before.states[i], before.actions[i])
    {
      RunStep(r, i);
    }
  }
}
