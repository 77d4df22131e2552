/** The table of PHP callbacks: entries go in under the table's next free index,
    while the handle kept for deleting them is the number of entries minus one. */
module Callbacks {

  /** php_cb_data_t: which callback it is, the stored handle, and whether it fires once. */
  datatype Callback = Callback(tag: int, h: int, oneshot: bool)

  datatype Table = Table(entries: map<nat, Callback>, next: nat)

  datatype Op =
    | Insert(tag: int, oneshot: bool)
    | Remove(h: int)
    | Clean

  /** zend_hash_next_index_insert, zend_hash_index_del and zend_hash_clean. */
  function Apply(t: Table, op: Op): Table {
    match op
    case Insert(tag, oneshot) =>
      var h := |t.entries.Keys + {t.next}| - 1;
      Table(t.entries[t.next := Callback(tag, h, oneshot)], t.next + 1)
    case Remove(h) => t.(entries := map k | k in t.entries && k != h :: t.entries[k])
    case Clean => Table(map[], 0)
  }

  function Run(ops: seq<Op>): Table {
    if ops == [] then Table(map[], 0) else Apply(Run(ops[..|ops| - 1]), ops[|ops| - 1])
  }

  lemma RunAppend(ops: seq<Op>, op: Op)
    ensures Run(ops + [op]) == Apply(Run(ops), op)
  {
    assert (ops + [op])[..|ops + [op]| - 1] == ops;
  }

  /** How many deletions found an entry since the last clean. */
  function Deletions(ops: seq<Op>): nat {
    if ops == [] then 0 else
      var before, op := ops[..|ops| - 1], ops[|ops| - 1];
      match op
      case Insert(_, _) => Deletions(before)
      case Remove(h) => Deletions(before) + if h in Run(before).entries then 1 else 0
      case Clean => 0
  }

  lemma {:induction false} TableInv(ops: seq<Op>)
    ensures forall k :: k in Run(ops).entries ==> k < Run(ops).next
    ensures Run(ops).next == |Run(ops).entries| + Deletions(ops)
  {
    if ops != [] {
      var before, op := ops[..|ops| - 1], ops[|ops| - 1];
      TableInv(before);
      var t := Run(before);
      assert |t.entries| == |t.entries.Keys|;
      match op
      case Insert(tag, oneshot) => assert Run(ops).entries.Keys == t.entries.Keys + {t.next};
      case Remove(h) =>
        assert Run(ops).entries.Keys == t.entries.Keys - {h};
        if h !in t.entries {
          assert Run(ops).entries == t.entries;
        }
      case Clean =>
    }
  }

  /** A new callback's key is ahead of its handle by the deletions since the last clean. */
  lemma KeyMinusHandle(ops: seq<Op>, tag: int, oneshot: bool)
    ensures var key, t := Run(ops).next, Run(ops + [Insert(tag, oneshot)]);
            && key in t.entries && t.entries[key].tag == tag
            && key - t.entries[key].h == Deletions(ops)
  {
    RunAppend(ops, Insert(tag, oneshot));
    TableInv(ops);
    var t := Run(ops);
    assert |t.entries| == |t.entries.Keys|;
    assert |t.entries.Keys + {t.next}| == |t.entries.Keys| + 1;
  }

  ghost predicate Leaves(ops: seq<Op>, key: nat) {
    forall i :: 0 <= i < |ops| ==> ops[i] != Clean && ops[i] != Remove(key)
  }

  lemma {:induction false} EntryStays(ops: seq<Op>, more: seq<Op>, key: nat)
    requires Leaves(more, key) && key in Run(ops).entries
    ensures key in Run(ops + more).entries && Run(ops + more).entries[key] == Run(ops).entries[key]
  {
    if more == [] {
      assert ops + more == ops;
    } else {
      var most := more[..|more| - 1];
      assert (ops + more)[..|ops + more| - 1] == ops + most;
      EntryStays(ops, most, key);
      TableInv(ops + most);
      assert (ops + more)[|ops + more| - 1] == more[|more| - 1];
    }
  }

  /** Deleting by handle removes the callback's own entry exactly when no deletion
      had succeeded before the callback was registered. */
  lemma HandleDeletesItself(ops: seq<Op>, tag: int, oneshot: bool, more: seq<Op>)
    requires Leaves(more, Run(ops).next)
    ensures var key, start := Run(ops).next, ops + [Insert(tag, oneshot)];
            var h := Run(start).entries[key].h;
            && key in Run(start + more).entries
            && (key !in Run(start + more + [Remove(h)]).entries <==> Deletions(ops) == 0)
  {
    var key, start := Run(ops).next, ops + [Insert(tag, oneshot)];
    KeyMinusHandle(ops, tag, oneshot);
    EntryStays(start, more, key);
    RunAppend(start + more, Remove(Run(start).entries[key].h));
  }

  lemma PairSize(a: nat, b: nat)
    requires a != b
    ensures |{a} + {b}| == 2
  {
    assert {a} + {b} == {a, b};
  }

  /** Three callbacks, the first deleted before the third is registered: deleting
      the third by its handle removes the second. */
  lemma DeletesTheWrongOne() returns (ops: seq<Op>)
    ensures Run(ops).entries == map[1 := Callback(2, 1, false), 2 := Callback(3, 1, false)]
    ensures Run(ops + [Remove(Run(ops).entries[2].h)]).entries == map[2 := Callback(3, 1, false)]
  {
    var two := FirstTwo();
    var d, i, r := Remove(0), Insert(3, false), Remove(1);
    RunAppend(two, d);
    RunAppend(two + [d], i);
    ops := two + [d] + [i];
    RunAppend(ops, r);
    ThirdTakesSecondHandle(Run(two));
  }

  lemma ThirdTakesSecondHandle(t: Table)
    requires t == Table(map[0 := Callback(1, 0, false), 1 := Callback(2, 1, false)], 2)
    ensures var u := Apply(Apply(t, Remove(0)), Insert(3, false));
            && u.entries == map[1 := Callback(2, 1, false), 2 := Callback(3, 1, false)]
            && Apply(u, Remove(1)).entries == map[2 := Callback(3, 1, false)]
  {
    assert Apply(t, Remove(0)) == Table(map[1 := Callback(2, 1, false)], 2);
    ThirdInserted();
  }

  lemma ThirdInserted()
    ensures var u := Apply(Table(map[1 := Callback(2, 1, false)], 2), Insert(3, false));
            u == Table(map[1 := Callback(2, 1, false), 2 := Callback(3, 1, false)], 3)
  {
    var t := Table(map[1 := Callback(2, 1, false)], 2);
    assert t.entries.Keys == {1};
    PairSize(1, 2);
  }

  lemma FirstTwo() returns (ops: seq<Op>)
    ensures Run(ops) == Table(map[0 := Callback(1, 0, false), 1 := Callback(2, 1, false)], 2)
  {
    RunAppend([], Insert(1, false));
    var one := [] + [Insert(1, false)];
    assert Run(one) == Table(map[0 := Callback(1, 0, false)], 1);
    RunAppend(one, Insert(2, false));
    assert Run(one).entries.Keys == {0};
    PairSize(0, 1);
    ops := one + [Insert(2, false)];
  }

  /** ZK_G(callbacks). */
  class Registry {
    var entries: map<nat, Callback>
    var next: nat
    ghost var history: seq<Op>

    ghost predicate Valid()
      reads this
    {
      Table(entries, next) == Run(history)
    }

    constructor ()
      ensures Valid() && history == []
    {
      entries, next, history := map[], 0, [];
    }

    /** php_cb_data_new. */
    method New(tag: int, oneshot: bool) returns (cbd: Callback)
      requires Valid()
      modifies this
      ensures Valid() && history == old(history) + [Insert(tag, oneshot)]
      ensures old(next) in entries && entries[old(next)] == cbd && cbd.tag == tag && cbd.oneshot == oneshot
      ensures old(next) - cbd.h == Deletions(old(history))
    {
      ghost var op := Insert(tag, oneshot);
      KeyMinusHandle(history, tag, oneshot);
      RunAppend(history, op);
      cbd := Callback(tag, |entries.Keys + {next}| - 1, oneshot);
      assert cbd == Run(history + [op]).entries[next];
      entries := entries[next := cbd];
      next := next + 1;
      assert Table(entries, next) == Run(history + [op]);
      history := history + [op];
    }

    /** zend_hash_index_del by a stored handle, as setWatcher, php_zk_destroy and
        the marshalling of a one-shot callback do it. */
    method Delete(h: int)
      requires Valid()
      modifies this
      ensures Valid() && history == old(history) + [Remove(h)]
      ensures h !in entries && next == old(next)
      ensures forall k :: k in old(entries) && k != h ==> k in entries && entries[k] == old(entries)[k]
    {
      entries := map k | k in entries && k != h :: entries[k];
      RunAppend(history, Remove(h));
      history := history + [Remove(h)];
    }

    /** zend_hash_clean at request shutdown. */
    method Reset()
      requires Valid()
      modifies this
      ensures Valid() && history == old(history) + [Clean] && entries == map[] && next == 0
    {
      entries, next := map[], 0;
      history := history + [Clean];
    }
  }
}
