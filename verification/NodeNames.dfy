/** Queue nodes as the strings the lock code handles, and the proof that its
    string operations compute what the protocol says about numbers. */
module NodeNames {
  import opened CStrings
  import opened ServerLog
  import opened LockProtocol
  import opened Sorting

  const PREFIX_BUFFER: nat := 30
  const RETBUF_EXTRA: nat := 20

  /** snprintf into a buffer of the given size. */
  function SnPrintf(size: nat, text: string): string
    requires size > 0
  {
    Cut(text, size - 1)
  }

  /** prefix[30], as printed from the session id. */
  function Prefix(c: Session): string {
    SnPrintf(PREFIX_BUFFER, "x-" + Numeral(c, 16, 16) + "-")
  }

  /** The name the server gives to a sequential node created under Prefix. */
  function Name(n: Node): string {
    Prefix(n.session) + Numeral(n.shown, 10, 10)
  }

  ghost predicate InRange(nodes: set<Node>) {
    forall n :: n in nodes ==> n.shown <= MAX_SEQ
  }

  /** The prefix is never cut short, and the path the server returns fits retbuf. */
  lemma PrefixFits(c: Session, base: nat, shown: nat, path: string)
    ensures Prefix(c) == "x-" + Numeral(c, 16, 16) + "-" && |Prefix(c)| == 19
    ensures |path + "/" + Name(Node(base, shown, c))| < |path| + |Prefix(c)| + 2 + RETBUF_EXTRA
  {
  }

  /** strrchr(name, '-') + 1. */
  function Suffix(name: string): string {
    match StrRChr(name, '-')
    case Some(i) => if i < |name| then name[i + 1..] else []
    case None => name
  }

  /** The comparison function given to qsort. */
  function VStrCmp(a: string, b: string): int {
    StrCmp(Suffix(a), Suffix(b))
  }

  /** getName: what follows the last slash, None without one. */
  function GetName(path: string): Option<string> {
    match StrRChr(path, '/')
    case Some(i) => if i < |path| then Some(path[i + 1..]) else None
    case None => None
  }

  /** getName undoes the join that made the created path. */
  lemma GetNameUndoesJoin(path: string, name: string)
    requires '/' !in name
    ensures GetName(path + "/" + name) == Some(name)
  {
    StrRChrFinds(path, '/', name);
    assert path + "/" + name == path + ['/'] + name;
    assert (path + ['/'] + name)[|path| + 1..] == name;
  }

  lemma NameHasNoSlash(n: Node)
    ensures '/' !in Name(n)
  {
  }

  lemma SuffixOfName(n: Node)
    ensures Suffix(Name(n)) == Numeral(n.shown, 10, 10)
  {
    var head, digits := "x-" + Numeral(n.session, 16, 16), Numeral(n.shown, 10, 10);
    assert Name(n) == head + ['-'] + digits;
    StrRChrFinds(head, '-', digits);
    assert (head + ['-'] + digits)[|head| + 1..] == digits;
  }

  lemma NumbersFit(n: Node)
    requires n.shown <= MAX_SEQ
    ensures n.shown < Pow(10, 10) && n.session < Pow(16, 16)
  {
    assert Pow(10, 10) == 10000000000;
    SixteenDigits();
  }

  lemma SixteenDigits()
    ensures Pow(16, 16) == 0x1_0000_0000_0000_0000
  {
    assert Pow(16, 8) == 0x1_0000_0000;
    assert Pow(16, 12) == 0x1_0000_0000_0000;
  }

  /** The name spelled out: the session in sixteen hexadecimal digits, the number in ten decimal ones. */
  lemma NameReads(n: Node)
    requires n.shown <= MAX_SEQ
    ensures var name := Name(n);
            && |name| == 29 && name[..2] == "x-" && name[18] == '-'
            && Read(name[2..18], 16) == Some(n.session) && Read(name[19..], 10) == Some(n.shown)
  {
    NumbersFit(n);
    NumeralReads(n.session, 16, 16);
    NumeralReads(n.shown, 10, 10);
    var name := "x-" + Numeral(n.session, 16, 16) + "-" + Numeral(n.shown, 10, 10);
    assert name[2..18] == Numeral(n.session, 16, 16) && name[19..] == Numeral(n.shown, 10, 10);
  }

  /** The sort order of names is the order of sequence numbers. */
  lemma SuffixOrder(n: Node, m: Node)
    requires n.shown <= MAX_SEQ && m.shown <= MAX_SEQ
    ensures VStrCmp(Name(n), Name(m)) == Sign(n.shown - m.shown)
  {
    SuffixOfName(n);
    SuffixOfName(m);
    NumbersFit(n);
    NumbersFit(m);
    NumeralOrder(n.shown, m.shown, 10, 10);
  }

  lemma PrefixOrder(c: Session, d: Session)
    ensures StrCmp(Prefix(c), Prefix(d)) == Sign(c - d)
  {
    var p, q := Numeral(c, 16, 16), Numeral(d, 16, 16);
    SixteenDigits();
    NumeralOrder(c, d, 16, 16);
    CmpZero(p, q);
    CmpBlocks(p, "-", q, "-");
    CmpBlocks("x-", p + "-", "x-", q + "-");
    assert Prefix(c) == "x-" + (p + "-") && Prefix(d) == "x-" + (q + "-");
  }

  /** strcmp of whole names goes by session first and number second. */
  lemma NameOrder(n: Node, m: Node)
    requires n.shown <= MAX_SEQ && m.shown <= MAX_SEQ
    ensures StrCmp(Name(n), Name(m)) < 0 <==> NameLess(n, m)
    ensures StrCmp(Name(n), Name(m)) == 0 <==> SameName(n, m)
    ensures Name(n) == Name(m) <==> SameName(n, m)
  {
    PrefixOrder(n.session, m.session);
    CmpZero(Prefix(n.session), Prefix(m.session));
    NumbersFit(n);
    NumbersFit(m);
    NumeralOrder(n.shown, m.shown, 10, 10);
    CmpBlocks(Prefix(n.session), Numeral(n.shown, 10, 10), Prefix(m.session), Numeral(m.shown, 10, 10));
    CmpZero(Name(n), Name(m));
  }

  /** strncmp(prefix, child, strlen(prefix)) == 0. */
  predicate Matches(prefix: string, child: string) {
    prefix <= child
  }

  /** The prefix test recognises exactly the session's own nodes. */
  lemma MatchesOwn(c: Session, n: Node)
    ensures Matches(Prefix(c), Name(n)) <==> n.session == c
  {
    assert Name(n)[..19] == Prefix(n.session);
    PrefixOrder(c, n.session);
    CmpZero(Prefix(c), Prefix(n.session));
  }

  // ---------------------------------------------------------------- loops over a listing

  /** lookupnode: the first child with the prefix. */
  method LookupNode(names: seq<string>, prefix: string) returns (r: Option<string>)
    ensures r.None? ==> forall i :: 0 <= i < |names| ==> !Matches(prefix, names[i])
    ensures r.Some? ==> exists i :: 0 <= i < |names| && names[i] == r.value && Matches(prefix, names[i])
                                    && forall j :: 0 <= j < i ==> !Matches(prefix, names[j])
  {
    r := None;
    for i := 0 to |names|
      invariant r == None && forall j :: 0 <= j < i ==> !Matches(prefix, names[j])
    {
      if Matches(prefix, names[i]) {
        r := Some(names[i]);
        break;
      }
    }
  }

  /** Names ordered by the comparison function that qsort is given. */
  ghost predicate Sorted(names: seq<string>) {
    SortedBy(VStrCmp, names)
  }

  lemma VStrCmpIsOrder()
    ensures IsOrder(VStrCmp)
  {
    forall a, b ensures VStrCmp(a, b) == -VStrCmp(b, a) {
      CmpSwap(Suffix(a), Suffix(b));
    }
    forall a, b, c | VStrCmp(a, b) <= 0 && VStrCmp(b, c) <= 0 ensures VStrCmp(a, c) <= 0 {
      CmpTransitive(Suffix(a), Suffix(b), Suffix(c));
    }
  }

  /** sort_children. */
  method SortChildren(a: array<string>)
    modifies a
    ensures Sorted(a[..]) && multiset(a[..]) == multiset(old(a[..]))
  {
    VStrCmpIsOrder();
    Sort(a, VStrCmp);
  }

  /** child_floor: the last entry whose whole name is smaller. */
  method ChildFloor(data: array<string>, element: string) returns (r: Option<string>)
    ensures r.None? ==> forall i :: 0 <= i < data.Length ==> StrCmp(data[i], element) >= 0
    ensures r.Some? ==> exists i :: 0 <= i < data.Length && data[i] == r.value && IsLastBelow(data[..], element, i)
  {
    r := None;
    ghost var last := 0;
    for i := 0 to data.Length
      invariant r.None? ==> forall j :: 0 <= j < i ==> StrCmp(data[j], element) >= 0
      invariant r.Some? ==> 0 <= last < i && data[last] == r.value && IsLastBelow(data[..i], element, last)
    {
      if StrCmp(data[i], element) < 0 {
        r := Some(data[i]);
        last := i;
      }
    }
    assert data[..data.Length] == data[..];
  }

  ghost predicate IsLastBelow(names: seq<string>, element: string, i: int) {
    && 0 <= i < |names| && StrCmp(names[i], element) < 0
    && forall j :: i < j < |names| ==> StrCmp(names[j], element) >= 0
  }

  lemma FirstIsLeast(names: seq<string>, data: seq<string>)
    requires Sorted(data) && data != [] && multiset(data) == multiset(names)
    ensures data[0] in names && forall s :: s in names ==> VStrCmp(data[0], s) <= 0
  {
    assert data[0] in multiset(data);
    CmpZero(Suffix(data[0]), Suffix(data[0]));
    forall s | s in names ensures VStrCmp(data[0], s) <= 0 {
      assert s in multiset(data);
      var i :| 0 <= i < |data| && data[i] == s;
      if i > 0 {
        InOrder(VStrCmp, data, 0, i);
      }
    }
  }

  /** The body of zkr_lock_operation between the listing and the watch. */
  method RankNames(names: seq<string>, own: string)
    returns (first: string, below: Option<string>, ghost data: seq<string>)
    requires names != []
    ensures first in names && forall s :: s in names ==> VStrCmp(first, s) <= 0
    ensures data != [] && first == data[0] && Sorted(data) && multiset(data) == multiset(names)
    ensures below.None? ==> forall i :: 0 <= i < |data| ==> StrCmp(data[i], own) >= 0
    ensures below.Some? ==> exists i :: 0 <= i < |data| && data[i] == below.value && IsLastBelow(data, own, i)
  {
    var vector := new string[|names|](i requires 0 <= i < |names| => names[i]);
    assert vector[..] == names;
    SortChildren(vector);
    data := vector[..];
    assert |data| == |names|;
    first := vector[0];
    below := ChildFloor(vector, own);
    assert forall i :: 0 <= i < |data| ==> data[i] == vector[i];
    FirstIsLeast(names, data);
  }

  // ---------------------------------------------------------------- refinement

  /** names lists the nodes, in any order. */
  ghost predicate IsListing(names: seq<string>, nodes: set<Node>) {
    && InRange(nodes) && OneDirectory(nodes)
    && (forall n {:trigger Name(n)} :: n in nodes ==> Name(n) in names)
    && (forall s :: s in names ==> exists n :: n in nodes && Name(n) == s)
  }

  function NameOf(n: Option<Node>): Option<string> {
    match n
    case None => None
    case Some(m) => Some(Name(m))
  }

  lemma SortedIsListing(names: seq<string>, data: seq<string>, nodes: set<Node>)
    requires IsListing(names, nodes) && multiset(data) == multiset(names)
    ensures IsListing(data, nodes)
  {
    forall s ensures s in data <==> s in names {
      assert s in multiset(data) <==> s in multiset(names);
    }
  }

  /** lookupnode answers what the protocol's lookup does. */
  lemma LookupRefines(names: seq<string>, nodes: set<Node>, c: Session, r: Option<string>)
    returns (found: Option<Node>)
    requires IsListing(names, nodes)
    requires r.None? ==> forall i :: 0 <= i < |names| ==> !Matches(Prefix(c), names[i])
    requires r.Some? ==> r.value in names && Matches(Prefix(c), r.value)
    ensures NameOf(found) == r && IsFound(nodes, c, found)
  {
    if r.None? {
      found := None;
      forall n | n in nodes ensures n.session != c {
        MatchesOwn(c, n);
        var i :| 0 <= i < |names| && names[i] == Name(n);
      }
    } else {
      var n :| n in nodes && Name(n) == r.value;
      MatchesOwn(c, n);
      found := Some(n);
    }
  }

  lemma SortedNumbers(data: seq<string>, i: nat, n: Node, j: nat, m: Node)
    requires Sorted(data) && i <= j < |data| && data[i] == Name(n) && data[j] == Name(m)
    requires n.shown <= MAX_SEQ && m.shown <= MAX_SEQ
    ensures n.shown <= m.shown
  {
    NameOrder(n, m);
    SuffixOrder(n, m);
    if i < j {
      InOrder(VStrCmp, data, i, j);
    }
  }

  /** data[0] of the sorted listing is the smallest number. */
  lemma FirstRefines(data: seq<string>, nodes: set<Node>) returns (m: Node)
    requires IsListing(data, nodes) && Sorted(data) && data != []
    ensures Name(m) == data[0] && IsMin(nodes, m)
  {
    assert data[0] in data;
    m :| m in nodes && Name(m) == data[0];
    forall n | n in nodes ensures m.shown <= n.shown {
      var i :| 0 <= i < |data| && data[i] == Name(n);
      SortedNumbers(data, 0, m, i, n);
    }
  }

  /** child_floor on the sorted listing is the protocol's floor. */
  lemma FloorRefines(data: seq<string>, nodes: set<Node>, me: Node, r: Option<string>)
    returns (floor: Option<Node>)
    requires IsListing(data, nodes) && Sorted(data) && me.shown <= MAX_SEQ
    requires r.None? ==> forall i :: 0 <= i < |data| ==> StrCmp(data[i], Name(me)) >= 0
    requires r.Some? ==> exists i :: 0 <= i < |data| && data[i] == r.value && IsLastBelow(data, Name(me), i)
    ensures NameOf(floor) == r && IsFloor(nodes, me, floor)
  {
    if r.None? {
      floor := None;
      forall n | n in nodes ensures !NameLess(n, me) {
        NameOrder(n, me);
        var i :| 0 <= i < |data| && data[i] == Name(n);
      }
    } else {
      var i :| 0 <= i < |data| && data[i] == r.value && IsLastBelow(data, Name(me), i);
      assert data[i] in data;
      var p :| p in nodes && Name(p) == data[i];
      NameOrder(p, me);
      floor := Some(p);
      forall n | n in nodes && NameLess(n, me) ensures n.shown <= p.shown {
        NameOrder(n, me);
        var j :| 0 <= j < |data| && data[j] == Name(n);
        SortedNumbers(data, j, n, i, p);
      }
    }
  }

  /** Two sessions, the later with the smaller id: it does not own the lock, and
      child_floor gives it nothing to watch. */
  lemma UnwatchedWaiter() returns (first: Node, waiter: Node, data: seq<string>)
    ensures IsListing(data, {first, waiter}) && Sorted(data) && data == [Name(first), Name(waiter)]
    ensures StrCmp(Name(waiter), data[0]) != 0
    ensures forall i :: 0 <= i < |data| ==> StrCmp(data[i], Name(waiter)) >= 0
  {
    first, waiter := Node(0, 1, 5), Node(0, 2, 3);
    data := [Name(first), Name(waiter)];
    PairListing(first, waiter);
    SortedPair(first, waiter);
    NameOrder(first, waiter);
    NameOrder(waiter, first);
    NameOrder(waiter, waiter);
  }

  lemma PairListing(n: Node, m: Node)
    requires n.shown <= MAX_SEQ && m.shown <= MAX_SEQ && n.base == m.base
    ensures IsListing([Name(n), Name(m)], {n, m})
  {
    forall s | s in [Name(n), Name(m)] ensures exists k :: k in {n, m} && Name(k) == s {
      assert s == Name(n) || s == Name(m);
      assert n in {n, m} && m in {n, m};
    }
  }

  lemma SortedPair(n: Node, m: Node)
    requires n.shown <= m.shown <= MAX_SEQ
    ensures Sorted([Name(n), Name(m)])
  {
    SuffixOrder(n, m);
  }
}
