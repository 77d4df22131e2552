/** From the handler's code to the session system.  Each process keeps a trace of its
    own requests beside the run of the lock protocol, whatever the others do; when
    the traces of all processes conform, the run is a history. */
module SessionTrace {
  import opened ServerLog
  import opened LockProtocol
  import opened LockSafety
  import opened SessionProtocol
  import opened ZooServer

  /** A process's phase at every state of the run, and its event at every action;
      where others act, the event is only a filler. */
  datatype Trace = Trace(phases: seq<Phase>, events: seq<Event>)

  /** The event that an action is when the phase stays. */
  function Quiet(a: Action): Event {
    match a
    case Put(c, v) => Store(c, v)
    case Fetch(c, k) => Peek(c, k)
    case GcDelete(c, cutOff, seen) => Gc(c, cutOff, seen)
    case _ => LockStep(a)
  }

  ghost predicate StepConforms(s: State, a: Action, c: Session, e: Event, ph: Phase, ph': Phase)
    requires Enabled(s, a)
  {
    if OwnAction(a, c) then ActionOf(e) == a && Fits(e, s.clients[c], ph) && ph' == After(e, s.log, ph)
    else e == Quiet(a) && ph' == ph
  }

  ghost predicate Conforms(r: Run, c: Session, t: Trace) {
    && IsRun(r) && |t.phases| == |r.states| && |t.events| == |r.actions| && t.phases[0] == Out
    && forall i {:trigger t.events[i]} :: 0 <= i < |r.actions| ==>
         && Enabled(r.states[i], r.actions[i])
         && StepConforms(r.states[i], r.actions[i], c, t.events[i], t.phases[i], t.phases[i + 1])
  }

  function Now(t: Trace): Phase
    requires |t.phases| > 0
  {
    t.phases[|t.phases| - 1]
  }

  /** All own actions of a kind leave a phase as it is. */
  ghost predicate Harmless(kind: Action -> bool, ph: Phase) {
    forall a, cl {:trigger Fits(Quiet(a), cl, ph)} :: kind(a) ==> Fits(Quiet(a), cl, ph)
  }

  function Padded(t: Trace, r: Run): Trace
    requires |t.phases| > 0
  {
    Trace(seq(|r.states|, i => if 0 <= i < |t.phases| then t.phases[i] else Now(t)),
          seq(|r.actions|, i requires 0 <= i < |r.actions| =>
              if i < |t.events| then t.events[i] else Quiet(r.actions[i])))
  }

  lemma TraceStep(r: Run, c: Session, t: Trace, i: nat)
    requires Conforms(r, c, t) && i < |r.actions|
    ensures Enabled(r.states[i], r.actions[i])
    ensures StepConforms(r.states[i], r.actions[i], c, t.events[i], t.phases[i], t.phases[i + 1])
  {
    assert t.events[i] == t.events[i];
  }

  lemma PaddedStep(s: State, a: Action, c: Session, kind: Action -> bool, ph: Phase)
    requires Enabled(s, a) && Harmless(kind, ph) && (OwnAction(a, c) ==> kind(a))
    ensures StepConforms(s, a, c, Quiet(a), ph, ph)
  {
    if OwnAction(a, c) {
      assert Fits(Quiet(a), s.clients[c], ph);
    }
  }

  lemma PaddedAt(r: Run, r': Run, c: Session, t: Trace, kind: Action -> bool, i: nat)
    requires Conforms(r, c, t) && IsRun(r') && Grew(r, r', c, kind) && Harmless(kind, Now(t)) && i < |r'.actions|
    ensures var t' := Padded(t, r');
            && Enabled(r'.states[i], r'.actions[i])
            && StepConforms(r'.states[i], r'.actions[i], c, t'.events[i], t'.phases[i], t'.phases[i + 1])
  {
    RunStep(r', i);
    if i < |r.actions| {
      TraceStep(r, c, t, i);
      assert r.actions[i] == r'.actions[i] && r.states[i] == r'.states[i];
    } else {
      PaddedStep(r'.states[i], r'.actions[i], c, kind, Now(t));
    }
  }

  /** Through a stretch of harmless actions the phase stays. */
  lemma PaddedConforms(r: Run, r': Run, c: Session, t: Trace, kind: Action -> bool)
    requires Conforms(r, c, t) && IsRun(r') && Grew(r, r', c, kind) && Harmless(kind, Now(t))
    ensures Conforms(r', c, Padded(t, r')) && Now(Padded(t, r')) == Now(t)
  {
    forall i | 0 <= i < |r'.actions|
      ensures var t' := Padded(t, r');
              && Enabled(r'.states[i], r'.actions[i])
              && StepConforms(r'.states[i], r'.actions[i], c, t'.events[i], t'.phases[i], t'.phases[i + 1])
    {
      PaddedAt(r, r', c, t, kind, i);
    }
  }

  function Recorded(t: Trace, e: Event, log: Log): Trace
    requires |t.phases| > 0
    requires e.Stat? || e.Get? ==> e.k <= |log|
    requires e.Get? ==> Now(t).Statted?
  {
    Trace(t.phases + [After(e, log, Now(t))], t.events + [e])
  }

  /** One event of the process itself. */
  lemma RecordedConforms(r: Run, c: Session, t: Trace, e: Event)
    requires Conforms(r, c, t) && OwnAction(ActionOf(e), c)
    requires Enabled(r.states[|r.actions|], ActionOf(e)) && Fits(e, r.states[|r.actions|].clients[c], Now(t))
    ensures Conforms(Extended(r, ActionOf(e)), c, Recorded(t, e, r.states[|r.actions|].log))
  {
    var r', t' := Extended(r, ActionOf(e)), Recorded(t, e, r.states[|r.actions|].log);
    ExtendedIsRun(r, ActionOf(e));
    forall i | 0 <= i < |r'.actions|
      ensures Enabled(r'.states[i], r'.actions[i])
      ensures StepConforms(r'.states[i], r'.actions[i], c, t'.events[i], t'.phases[i], t'.phases[i + 1])
    {
      if i < |r.actions| {
        TraceStep(r, c, t, i);
      }
    }
  }

  // ---------------------------------------------------------------- all processes together

  /** Every client of the run is a process with a conforming trace. */
  ghost predicate AllConform(r: Run, ts: map<Session, Trace>) {
    && IsRun(r) && ts.Keys == r.states[0].clients.Keys
    && forall c :: c in ts ==> Conforms(r, c, ts[c])
  }

  /** No session expires while it waits as owner or holds the lock. */
  ghost predicate NoOwnerExpires(r: Run, ts: map<Session, Trace>)
    requires AllConform(r, ts)
  {
    forall i :: 0 <= i < |r.actions| && r.actions[i].ExpireSession? && r.actions[i].c in ts ==>
      var c := r.actions[i].c;
      c in r.states[i].clients && LockStepAllowed(r.actions[i], r.states[i].clients[c], ts[c].phases[i])
  }

  lemma {:induction false} SameClients(r: Run, i: nat)
    requires IsRun(r) && i < |r.states|
    ensures r.states[i].clients.Keys == r.states[0].clients.Keys
  {
    if i > 0 {
      SameClients(r, i - 1);
      RunStep(r, i - 1);
    }
  }

  function SystemAt(r: Run, ts: map<Session, Trace>, i: nat): Sys
    requires i < |r.states|
  {
    Sys(r.states[i], map c | c in ts :: if i < |ts[c].phases| then ts[c].phases[i] else Out)
  }

  /** The event is the acting process's own. */
  function EventAt(r: Run, ts: map<Session, Trace>, i: nat): Event
    requires i < |r.actions|
  {
    var a := r.actions[i];
    if a.c in ts && i < |ts[a.c].events| then ts[a.c].events[i] else Quiet(a)
  }

  /** The processes that do not act keep their phase. */
  lemma OthersKeepPhase(r: Run, ts: map<Session, Trace>, i: nat, d: Session)
    requires AllConform(r, ts) && i < |r.actions| && d in ts && d != r.actions[i].c
    ensures |ts[d].phases| == |r.states| && ts[d].phases[i + 1] == ts[d].phases[i]
  {
    TraceStep(r, d, ts[d], i);
  }

  /** The process that acts has noted an event that fits. */
  lemma ActorSteps(r: Run, ts: map<Session, Trace>, i: nat)
    requires AllConform(r, ts) && NoOwnerExpires(r, ts) && i < |r.actions|
    ensures var a, e := r.actions[i], EventAt(r, ts, i);
            && Enabled(r.states[i], a) && r.states[i + 1] == Next(r.states[i], a)
            && a.c in ts && |ts[a.c].phases| == |r.states| && ActionOf(e) == a
            && Fits(e, r.states[i].clients[a.c], ts[a.c].phases[i])
            && ts[a.c].phases[i + 1] == After(e, r.states[i].log, ts[a.c].phases[i])
  {
    RunStep(r, i);
    SameClients(r, i);
    TraceStep(r, r.actions[i].c, ts[r.actions[i].c], i);
  }

  lemma SystemStep(r: Run, ts: map<Session, Trace>, i: nat)
    requires AllConform(r, ts) && NoOwnerExpires(r, ts) && i < |r.actions|
    ensures SEnabled(SystemAt(r, ts, i), EventAt(r, ts, i))
    ensures SystemAt(r, ts, i + 1) == SNext(SystemAt(r, ts, i), EventAt(r, ts, i))
  {
    ActorSteps(r, ts, i);
    forall d | d in ts && d != r.actions[i].c
      ensures |ts[d].phases| == |r.states| && ts[d].phases[i + 1] == ts[d].phases[i]
    {
      OthersKeepPhase(r, ts, i, d);
    }
  }

  function SystemHistory(r: Run, ts: map<Session, Trace>): History
  {
    History(seq(|r.states|, i requires 0 <= i < |r.states| => SystemAt(r, ts, i)),
            seq(|r.actions|, i requires 0 <= i < |r.actions| => EventAt(r, ts, i)))
  }

  /** Every interleaving of conforming processes is a history of the session system. */
  lemma CodeIsHistory(r: Run, ts: map<Session, Trace>)
    requires AllConform(r, ts) && NoOwnerExpires(r, ts)
    ensures IsHistory(SystemHistory(r, ts))
  {
    var h := SystemHistory(r, ts);
    StartsOut(r, ts);
    forall i | 0 <= i < |h.events|
      ensures SEnabled(h.states[i], h.events[i]) && h.states[i + 1] == SNext(h.states[i], h.events[i])
    {
      SystemStep(r, ts, i);
      assert h.states[i] == SystemAt(r, ts, i) && h.states[i + 1] == SystemAt(r, ts, i + 1);
      assert h.events[i] == EventAt(r, ts, i);
    }
  }

  lemma StartsOut(r: Run, ts: map<Session, Trace>)
    requires AllConform(r, ts)
    ensures SInit(SystemAt(r, ts, 0))
  {
    forall c | c in ts ensures |ts[c].phases| > 0 && ts[c].phases[0] == Out {
      assert Conforms(r, c, ts[c]);
    }
  }

  /** What a process has read is what the log held then, and no other process has
      written since. */
  lemma CodeLosesNoUpdate(r: Run, ts: map<Session, Trace>, i: nat, c: Session)
    requires AllConform(r, ts) && NoOwnerExpires(r, ts) && i < |r.states|
    requires c in ts && ts[c].phases[i].HasRead?
    ensures var log, ph := r.states[i].log, ts[c].phases[i];
            && ph.at <= |log| && ph.value == ValueAt(log, ph.at)
            && forall p :: ph.at <= p < |log| && log[p].Write? ==> log[p].writer == c
  {
    var h := SystemHistory(r, ts);
    CodeIsHistory(r, ts);
    assert h.states[i] == SystemAt(r, ts, i);
    NoLostUpdates(h, i, c);
  }

  /** is_locked is set in one process at most. */
  lemma OneLockedProcess(r: Run, ts: map<Session, Trace>, i: nat, c: Session, d: Session)
    requires AllConform(r, ts) && NoOwnerExpires(r, ts) && i < |r.states|
    requires c in ts && d in ts && ts[c].phases[i].Holding() && ts[d].phases[i].Holding()
    ensures c == d
  {
    var h := SystemHistory(r, ts);
    CodeIsHistory(r, ts);
    assert h.states[i] == SystemAt(r, ts, i);
    HistoryInv(h, i);
    OneHolder(h.states[i], c, d);
  }

  // ---------------------------------------------------------------- and back

  /** The run and the traces that a history consists of. */
  function RunOf(h: History): Run {
    Run(seq(|h.states|, i requires 0 <= i < |h.states| => h.states[i].lock),
        seq(|h.events|, i requires 0 <= i < |h.events| => ActionOf(h.events[i])))
  }

  function TraceOf(h: History, c: Session): Trace {
    Trace(seq(|h.states|, i requires 0 <= i < |h.states| =>
              if c in h.states[i].reqs then h.states[i].reqs[c] else Out),
          seq(|h.events|, i requires 0 <= i < |h.events| =>
              if OwnAction(ActionOf(h.events[i]), c) then h.events[i] else Quiet(ActionOf(h.events[i]))))
  }

  function TracesOf(h: History): map<Session, Trace>
    requires |h.states| > 0
  {
    map c | c in h.states[0].reqs :: TraceOf(h, c)
  }

  lemma RunOfIsRun(h: History)
    requires IsHistory(h)
    ensures IsRun(RunOf(h))
  {
    var r := RunOf(h);
    forall i | 0 <= i < |r.actions|
      ensures Enabled(r.states[i], r.actions[i]) && r.states[i + 1] == Next(r.states[i], r.actions[i])
    {
      HistoryStep(h, i);
    }
  }

  lemma {:induction false} SameRequests(h: History, i: nat)
    requires IsHistory(h) && i < |h.states|
    ensures h.states[i].reqs.Keys == h.states[0].reqs.Keys
  {
    if i > 0 {
      SameRequests(h, i - 1);
      HistoryStep(h, i - 1);
    }
  }

  lemma TraceOfStep(h: History, c: Session, i: nat)
    requires IsHistory(h) && c in h.states[0].reqs && i < |h.events|
    ensures var r, t := RunOf(h), TraceOf(h, c);
            && Enabled(r.states[i], r.actions[i])
            && StepConforms(r.states[i], r.actions[i], c, t.events[i], t.phases[i], t.phases[i + 1])
  {
    HistoryStep(h, i);
    SameRequests(h, i);
    SameRequests(h, i + 1);
  }

  /** Every history is such an interleaving: its run is one, and every process's trace conforms. */
  lemma HistoryIsCode(h: History)
    requires IsHistory(h)
    ensures AllConform(RunOf(h), TracesOf(h)) && NoOwnerExpires(RunOf(h), TracesOf(h))
  {
    var r, ts := RunOf(h), TracesOf(h);
    RunOfIsRun(h);
    forall c | c in ts ensures Conforms(r, c, ts[c]) {
      forall i | 0 <= i < |r.actions|
        ensures Enabled(r.states[i], r.actions[i])
        ensures StepConforms(r.states[i], r.actions[i], c, ts[c].events[i], ts[c].phases[i], ts[c].phases[i + 1])
      {
        TraceOfStep(h, c, i);
      }
    }
    forall i | 0 <= i < |r.actions| && r.actions[i].ExpireSession? && r.actions[i].c in ts
      ensures var c := r.actions[i].c;
              c in r.states[i].clients && LockStepAllowed(r.actions[i], r.states[i].clients[c], ts[c].phases[i])
    {
      HistoryStep(h, i);
      SameRequests(h, i);
    }
  }
}
