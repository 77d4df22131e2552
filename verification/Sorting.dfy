/** A stand-in for the C library's qsort, which promises to sort in place under a caller's
    comparison function and not how; here it is done by selection. */
module Sorting {

  ghost predicate IsOrder<T(!new)>(cmp: (T, T) -> int) {
    && (forall a, b :: cmp(a, b) == -cmp(b, a))
    && (forall a, b, c :: cmp(a, b) <= 0 && cmp(b, c) <= 0 ==> cmp(a, c) <= 0)
  }

  ghost predicate SortedBy<T>(cmp: (T, T) -> int, s: seq<T>) {
    forall i, j :: 0 <= i < j < |s| ==> cmp(s[i], s[j]) <= 0
  }

  lemma InOrder<T>(cmp: (T, T) -> int, s: seq<T>, i: nat, j: nat)
    requires SortedBy(cmp, s) && i < j < |s|
    ensures cmp(s[i], s[j]) <= 0
  {
  }

  method IndexOfLeast<T(!new)>(a: array<T>, from: nat, cmp: (T, T) -> int) returns (m: nat)
    requires from < a.Length && IsOrder(cmp)
    ensures from <= m < a.Length && forall j :: from <= j < a.Length ==> cmp(a[m], a[j]) <= 0
  {
    m := from;
    assert cmp(a[m], a[m]) == -cmp(a[m], a[m]);
    for j := from + 1 to a.Length
      invariant from <= m < j && forall i :: from <= i < j ==> cmp(a[m], a[i]) <= 0
    {
      if cmp(a[j], a[m]) < 0 {
        assert cmp(a[j], a[j]) == -cmp(a[j], a[j]);
        m := j;
      } else {
        assert cmp(a[m], a[j]) == -cmp(a[j], a[m]);
      }
    }
  }

  method Swap<T>(a: array<T>, i: nat, m: nat)
    requires i <= m < a.Length
    modifies a
    ensures a[..] == old(a[..])[i := old(a[m])][m := old(a[i])]
    ensures multiset(a[..]) == multiset(old(a[..]))
  {
    a[i], a[m] := a[m], a[i];
  }

  /** Everything before i is in place. */
  ghost predicate Done<T>(cmp: (T, T) -> int, s: seq<T>, i: nat) {
    forall p, q :: 0 <= p < i && p < q < |s| ==> cmp(s[p], s[q]) <= 0
  }

  lemma DoneGrows<T>(cmp: (T, T) -> int, s: seq<T>, t: seq<T>, i: nat, m: nat)
    requires i <= m < |s| && Done(cmp, s, i) && t == s[i := s[m]][m := s[i]]
    requires forall j :: i <= j < |s| ==> cmp(s[m], s[j]) <= 0
    ensures Done(cmp, t, i + 1)
  {
    forall p, q | 0 <= p < i + 1 && p < q < |t| ensures cmp(t[p], t[q]) <= 0 {
      var q' := if q == i then m else if q == m then i else q;
      assert t[q] == s[q'];
      if p < i {
        assert t[p] == s[p];
      }
    }
  }

  method Sort<T(!new)>(a: array<T>, cmp: (T, T) -> int)
    requires IsOrder(cmp)
    modifies a
    ensures SortedBy(cmp, a[..]) && multiset(a[..]) == multiset(old(a[..]))
  {
    for i := 0 to a.Length
      invariant multiset(a[..]) == multiset(old(a[..]))
      invariant Done(cmp, a[..], i)
    {
      var m := IndexOfLeast(a, i, cmp);
      ghost var before := a[..];
      Swap(a, i, m);
      DoneGrows(cmp, before, a[..], i, m);
    }
  }
}
