/** A run of the session system with one process, from zkr_lock_init to a committed write:
    what the theorems about conforming processes suppose does happen. */
module SoloRequest {
  import opened CStrings
  import opened ServerLog
  import opened LockProtocol
  import opened LockSafety
  import opened SessionProtocol
  import opened SessionTrace
  import opened ZooServer

  /** One own event more. */
  lemma Go(r: Run, c: Session, t: Trace, e: Event) returns (r': Run, t': Trace)
    requires Conforms(r, c, t) && OwnAction(ActionOf(e), c) && !ActionOf(e).ExpireSession?
    requires Enabled(Last(r), ActionOf(e)) && Fits(e, Last(r).clients[c], Now(t)) && Calm(r)
    ensures Conforms(r', c, t') && Last(r') == Next(Last(r), ActionOf(e)) && Calm(r')
    ensures r'.states[0] == r.states[0] && Now(t') == After(e, Last(r).log, Now(t))
  {
    RecordedConforms(r, c, t, e);
    r', t' := Extended(r, ActionOf(e)), Recorded(t, e, Last(r).log);
  }

  /** Nobody expires. */
  ghost predicate Calm(r: Run) {
    forall i :: 0 <= i < |r.actions| ==> !r.actions[i].ExpireSession?
  }

  /** The states of a lone process. */
  function Alone(log: Log, next: nat, c: Session, id: Option<Node>, ownerid: Option<Node>, pc: PC): State {
    State(log, next, 0, map[c := Client(id, ownerid, pc, |log|, false)])
  }

  lemma Queues(c: Session)
    ensures var s, t := Alone([], 0, c, None, None, Idle), Alone([], 0, c, None, None, Creating);
            && Enabled(s, Reinit(c)) && Next(s, Reinit(c)) == s
            && Enabled(s, Look(c, 0, None)) && Next(s, Look(c, 0, None)) == t
  {
  }

  lemma Creates(c: Session)
    ensures var n := Node(0, 0, c);
            var s, t := Alone([], 0, c, None, None, Creating), Alone([Create(n)], 1, c, Some(n), None, Named);
            Enabled(s, CreateOk(c, 0)) && Next(s, CreateOk(c, 0)) == t
  {
  }

  lemma Wins(c: Session)
    ensures var n := Node(0, 0, c);
            var s := Alone([Create(n)], 1, c, Some(n), None, Named);
            var t := Alone([Create(n)], 1, c, Some(n), Some(n), Idle);
            Enabled(s, List(c, 1, n, None)) && Next(s, List(c, 1, n, None)) == t
  {
    assert LiveAt([Create(Node(0, 0, c))], 1) == {Node(0, 0, c)};
  }

  lemma Owned(c: Session)
    ensures var n := Node(0, 0, c);
            var s := Alone([Create(n)], 1, c, Some(n), Some(n), Idle);
            && Enabled(s, Local(c)) && Next(s, Local(c)) == s && IsOwner(s.clients[c])
            && Enabled(s, Fetch(c, 1)) && Next(s, Fetch(c, 1)) == s
  {
  }

  /** The process queues its node. */
  lemma Queued(c: Session) returns (r: Run, t: Trace)
    ensures Conforms(r, c, t) && Calm(r) && r.states[0].clients.Keys == {c} && Now(t) == Waiting
    ensures Last(r) == Alone([Create(Node(0, 0, c))], 1, c, Some(Node(0, 0, c)), None, Named)
  {
    Queues(c);
    Creates(c);
    r, t := Run([Alone([], 0, c, None, None, Idle)], []), Trace([Out], []);
    r, t := Go(r, c, t, Begin(c));
    r, t := Go(r, c, t, LockStep(Look(c, 0, None)));
    r, t := Go(r, c, t, LockStep(CreateOk(c, 0)));
  }

  /** It is alone, so it gets the lock. */
  lemma Locks(c: Session) returns (r: Run, t: Trace)
    ensures Conforms(r, c, t) && Calm(r) && r.states[0].clients.Keys == {c} && Now(t) == Locked
    ensures Last(r) == Alone([Create(Node(0, 0, c))], 1, c, Some(Node(0, 0, c)), Some(Node(0, 0, c)), Idle)
  {
    Wins(c);
    Owned(c);
    r, t := Queued(c);
    r, t := Go(r, c, t, LockStep(List(c, 1, Node(0, 0, c), None)));
    r, t := Go(r, c, t, Acquire(c));
  }

  lemma Reads(r: Run, c: Session, t: Trace, v: Znode) returns (r': Run, t': Trace)
    requires Conforms(r, c, t) && Calm(r) && Now(t) == Locked
    requires Last(r) == Alone([Create(Node(0, 0, c))], 1, c, Some(Node(0, 0, c)), Some(Node(0, 0, c)), Idle)
    ensures Conforms(r', c, t') && Calm(r') && r'.states[0] == r.states[0] && Now(t') == HasRead(None, 1)
    ensures Last(r').log == [Create(Node(0, 0, c)), Write(c, Some(v))]
  {
    var n := Node(0, 0, c);
    Owned(c);
    assert ValueAt([Create(n)], 1) == ValueAt([Create(n)], 0);
    r', t' := Go(r, c, t, Stat(c, 1));
    r', t' := Go(r', c, t', Store(c, Some(v)));
  }

  /** For every session and value there is a run of a conforming process that ends with
      the lock held, the data node read and the value written. */
  lemma WritesUnderLock(c: Session, v: Znode) returns (r: Run, t: Trace)
    ensures AllConform(r, map[c := t]) && NoOwnerExpires(r, map[c := t]) && Conforms(r, c, t)
    ensures Now(t).HasRead? && Now(t).value == None && ValueAt(Last(r).log, |Last(r).log|) == Some(v)
  {
    r, t := Locks(c);
    r, t := Reads(r, c, t, v);
  }
}
