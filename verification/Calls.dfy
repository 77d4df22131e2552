/** The calls made to the server, in order, and the patterns that the retry loops make of them. */
module Calls {
  import opened ReturnCodes

  datatype Kind =
    | Probe        // zoo_exists on the lock directory
    | MakeDir      // zoo_create of the lock directory
    | ListCall     // zoo_get_children
    | CreateCall   // zoo_create of a queue node
    | WatchCall    // zoo_wexists
    | DeleteCall   // zoo_delete
    | StatData     // zoo_exists on the data node
    | GetData      // zoo_get
    | CreateData   // zoo_create
    | SetData      // zoo_set
    | DeleteData   // zoo_delete
  {
    predicate ReadsData() { StatData? || GetData? }
    predicate WritesData() { CreateData? || SetData? || DeleteData? }
  }

  /** One answered call; current says that a read saw the whole log, and mtime is what a
      zoo_exists on the data node told. */
  datatype Call = Call(kind: Kind, path: string, rc: int, current: bool, mtime: int := 0) {
    predicate Fine() {
      rc == ZOK && current
    }
  }

  /** All calls from the given one on succeeded with up-to-date answers. */
  ghost predicate Good(calls: seq<Call>, from: nat) {
    forall i :: from <= i < |calls| ==> calls[i].Fine()
  }

  /** The calls from from up to to are one call and its retries after connection losses: at
      most so many, and all of them when the last one is lost too. */
  ghost predicate RetriedIn(calls: seq<Call>, from: nat, to: nat, kind: Kind, path: string, retry: nat) {
    && from < to <= |calls| && to <= from + retry
    && (forall i :: from <= i < to ==> calls[i].kind == kind && calls[i].path == path)
    && (forall i :: from <= i < to - 1 ==> calls[i].rc == ZCONNECTIONLOSS)
    && (calls[to - 1].rc == ZCONNECTIONLOSS ==> to == from + retry)
  }

  /** All calls from the given one on. */
  ghost predicate Retried(calls: seq<Call>, from: nat, kind: Kind, path: string, retry: nat) {
    RetriedIn(calls, from, |calls|, kind, path, retry)
  }

  /** Nothing but losses so far, as at the head of a retry loop. */
  ghost predicate Losing(calls: seq<Call>, from: nat, kind: Kind, path: string, count: nat) {
    && |calls| == from + count
    && forall i :: from <= i < |calls| ==>
         calls[i].kind == kind && calls[i].path == path && calls[i].rc == ZCONNECTIONLOSS
  }

  /** One more call has been answered. */
  ghost predicate Called(calls: seq<Call>, more: seq<Call>, kind: Kind, path: string, rc: int) {
    && |more| == |calls| + 1 && calls <= more
    && more[|calls|].kind == kind && more[|calls|].path == path && more[|calls|].rc == rc
  }

  /** One call more in a retry loop: it was lost like the others, or ends the loop. */
  lemma RetriedOnce(calls: seq<Call>, more: seq<Call>, from: nat, kind: Kind, path: string,
                    count: nat, retry: nat, rc: int)
    requires Losing(calls, from, kind, path, count) && count < retry && Called(calls, more, kind, path, rc)
    ensures more[|more| - 1].rc == rc
    ensures if rc == ZCONNECTIONLOSS && count + 1 < retry then Losing(more, from, kind, path, count + 1)
            else Retried(more, from, kind, path, retry)
  {
  }

  /** The calls from up to to make sure of the lock directory: zoo_exists, and after a
      loss again, after ZNONODE zoo_create, four times at most. */
  ghost predicate DirectoryEnsured(calls: seq<Call>, from: nat, to: nat, path: string) {
    && from < to <= |calls| && to <= from + 5
    && (forall i :: from <= i < to ==> calls[i].path == path) && calls[from].kind == Probe
    && (forall i :: from < i < to ==> Follows(calls[i - 1], calls[i]))
    && (calls[to - 1].rc == ZCONNECTIONLOSS || calls[to - 1].rc == ZNONODE ==> to == from + 5)
  }

  predicate Follows(a: Call, b: Call) {
    (a.rc == ZCONNECTIONLOSS && b.kind == Probe) || (a.rc == ZNONODE && b.kind == MakeDir)
  }

  /** The last call is a zoo_wexists that failed. */
  ghost predicate EndsInFailedWatch(calls: seq<Call>) {
    |calls| > 0 && calls[|calls| - 1].kind == WatchCall && calls[|calls| - 1].rc != ZOK
  }
}
