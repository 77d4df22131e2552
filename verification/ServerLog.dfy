/** The ZooKeeper ensemble seen from one lock directory and the data node it
    guards: one log of committed operations, replicated in order.  A server
    that lags behind answers reads from a prefix of the log. */
module ServerLog {
  import opened CStrings

  /** The 64 bits of clientid_t.client_id, as %016lx prints them. */
  type Session = s: int | 0 <= s < 0x1_0000_0000_0000_0000

  /** The largest number that ZooKeeper appends to a sequential node. */
  const MAX_SEQ: nat := 2147483647

  /** A queue node: the sequence number its name shows and the session that created
      it.  Numbers start again at 0 when the lock directory is deleted and created
      anew, so a node also has the base of its directory; Num orders all nodes of a run. */
  datatype Node = Node(base: nat, shown: nat, session: Session) {
    function Num(): nat {
      base + shown
    }
  }

  /** The data node's content and when it was last written, in milliseconds. */
  datatype Znode = Znode(text: string, mtime: int)

  datatype Op =
    | Create(node: Node)
    | Delete(node: Node)
    | Expire(session: Session)                         // drops every node of the session at once
    | Write(writer: Session, value: Option<Znode>)     // the data node; None removes it
    | Collect(collector: Session, cutOff: int, seen: nat)     // PS_GC_FUNC removes the data node, having found it
                                                       // older than cutOff after the first seen operations
    | Renew                                            // the empty lock directory is deleted and created anew
  {
    predicate By(c: Session) {
      match this
      case Create(n) => n.session == c
      case Delete(n) => n.session == c
      case Expire(d) => d == c
      case Write(d, _) => d == c
      case Collect(d, _, _) => d == c
      case Renew => false
    }
  }

  type Log = seq<Op>

  /** The queue nodes that exist after the first k operations. */
  function LiveAt(log: Log, k: nat): set<Node>
    requires k <= |log|
  {
    if k == 0 then {} else
      match log[k - 1]
      case Create(n) => LiveAt(log, k - 1) + {n}
      case Delete(n) => LiveAt(log, k - 1) - {n}
      case Expire(c) => set n | n in LiveAt(log, k - 1) && n.session != c
      case Write(_, _) => LiveAt(log, k - 1)
      case Collect(_, _, _) => LiveAt(log, k - 1)
      case Renew => LiveAt(log, k - 1)
  }

  function Live(log: Log): set<Node> {
    LiveAt(log, |log|)
  }

  /** What the data node holds after the first k operations. */
  function ValueAt(log: Log, k: nat): Option<Znode>
    requires k <= |log|
  {
    if k == 0 then None
    else if log[k - 1].Write? then log[k - 1].value
    else if log[k - 1].Collect? then None
    else ValueAt(log, k - 1)
  }

  /** The data node has been garbage collected between the two points. */
  predicate Collected(log: Log, k: nat, k': nat)
    requires k' <= |log|
  {
    exists i :: k <= i < k' && log[i].Collect?
  }

  predicate ExpiredAt(log: Log, k: nat, cutOff: int)
    requires k <= |log|
  {
    ValueAt(log, k).Some? && ValueAt(log, k).value.mtime < cutOff
  }

  predicate CreatedBefore(log: Log, k: nat, n: Node)
    requires k <= |log|
  {
    exists i :: 0 <= i < k && log[i] == Create(n)
  }

  /** Sequence numbers grow along the log and are all below next. */
  ghost predicate Ordered(log: Log, next: nat) {
    && (forall i :: 0 <= i < |log| && log[i].Create? ==> log[i].node.Num() < next)
    && (forall i, j :: 0 <= i < j < |log| && log[i].Create? && log[j].Create? ==>
          log[i].node.Num() < log[j].node.Num())
  }

  /** After k operations m exists or existed, and nothing below m is left. */
  ghost predicate SettledAt(log: Log, k: nat, m: Node)
    requires k <= |log|
  {
    CreatedBefore(log, k, m) && forall n :: n in LiveAt(log, k) ==> m.Num() <= n.Num()
  }

  /** The nodes are children of one and the same lock directory. */
  ghost predicate OneDirectory(nodes: set<Node>) {
    forall n, m :: n in nodes && m in nodes ==> n.base == m.base
  }

  /** What every created node shows: a number in range, in the present directory or an earlier one. */
  ghost predicate Ranged(log: Log, base: nat) {
    forall i :: 0 <= i < |log| && log[i].Create? ==> log[i].node.shown <= MAX_SEQ && log[i].node.base <= base
  }

  ghost predicate OnePerSession(nodes: set<Node>) {
    forall n, m :: n in nodes && m in nodes && n.session == m.session ==> n == m
  }

  ghost predicate QuietSince(log: Log, k: nat, c: Session)
    requires k <= |log|
  {
    forall i :: k <= i < |log| ==> !log[i].By(c)
  }

  lemma {:induction false} PrefixLive(log: Log, more: Log, k: nat)
    requires k <= |log|
    ensures LiveAt(log + more, k) == LiveAt(log, k)
  {
    if k > 0 {
      assert (log + more)[k - 1] == log[k - 1];
      PrefixLive(log, more, k - 1);
    }
  }

  lemma {:induction false} PrefixValue(log: Log, more: Log, k: nat)
    requires k <= |log|
    ensures ValueAt(log + more, k) == ValueAt(log, k)
  {
    if k > 0 {
      assert (log + more)[k - 1] == log[k - 1];
      PrefixValue(log, more, k - 1);
    }
  }

  lemma {:induction false} LiveWasCreated(log: Log, k: nat, n: Node)
    requires k <= |log| && n in LiveAt(log, k)
    ensures CreatedBefore(log, k, n)
  {
    if log[k - 1] != Create(n) {
      LiveWasCreated(log, k - 1, n);
    }
  }

  /** Numbers are not reused: two created nodes with one number are one node. */
  lemma SameNumberSameNode(log: Log, next: nat, k: nat, n: Node, m: Node)
    requires Ordered(log, next) && k <= |log|
    requires CreatedBefore(log, k, n) && CreatedBefore(log, k, m) && n.Num() == m.Num()
    ensures n == m
  {
    var i :| 0 <= i < k && log[i] == Create(n);
    var j :| 0 <= j < k && log[j] == Create(m);
    assert i == j;
  }

  /** What is settled stays settled as the log is read further. */
  lemma {:induction false} SettledStays(log: Log, next: nat, k: nat, k': nat, m: Node)
    requires Ordered(log, next) && k <= k' <= |log| && SettledAt(log, k, m)
    ensures SettledAt(log, k', m)
  {
    if k < k' {
      SettledStays(log, next, k, k' - 1, m);
      var i :| 0 <= i < k && log[i] == Create(m);
    }
  }

  /** A node created early and still live late was live all the way between. */
  lemma {:induction false} LiveBetween(log: Log, next: nat, k: nat, k': nat, n: Node)
    requires Ordered(log, next) && k <= k' <= |log|
    requires CreatedBefore(log, k, n) && n in LiveAt(log, k')
    ensures n in LiveAt(log, k)
  {
    if k < k' {
      var i :| 0 <= i < k && log[i] == Create(n);
      assert log[k' - 1] != Create(n);
      LiveBetween(log, next, k, k' - 1, n);
    }
  }

  /** A session that commits nothing keeps its nodes. */
  lemma {:induction false} QuietKeeps(log: Log, k: nat, k': nat, n: Node)
    requires k <= k' <= |log| && QuietSince(log, k, n.session)
    ensures n in LiveAt(log, k) <==> n in LiveAt(log, k')
  {
    if k < k' {
      QuietKeeps(log, k, k' - 1, n);
      assert !log[k' - 1].By(n.session);
    }
  }

  /** Without writes in between, a lagging read returns the current value, unless that was collected. */
  lemma {:induction false} UnwrittenKeeps(log: Log, k: nat, k': nat)
    requires k <= k' <= |log|
    requires forall i :: k <= i < k' ==> !log[i].Write?
    ensures ValueAt(log, k') == if Collected(log, k, k') then None else ValueAt(log, k)
  {
    if k < k' {
      UnwrittenKeeps(log, k, k' - 1);
    }
  }
}
