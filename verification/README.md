# The ZooKeeper lock and the PHP session handler, in Dafny

php-zookeeper carries its own copy of ZooKeeper's lock recipe (`zoo_lock.c`) and builds a PHP
session handler on it (`php_zookeeper_session.c`). This project models both, down to the strings
the lock code compares, and proves what they promise over all runs. Two smaller stateful pieces of
`php_zookeeper.c` are included: the callback table and the ACL lists.

`dafny verify dfyconfig.toml` checks everything.

## How the model is built

| file | what it holds |
|---|---|
| `CStrings.dfy`, `ReturnCodes.dfy` | strcmp, strrchr, zero-padded numerals; the return codes |
| `ServerLog.dfy` | the ensemble as one log of committed operations; a read sees a prefix of it |
| `LockProtocol.dfy` | the lock recipe as a transition system, and its inductive invariant |
| `LockSafety.dfy` | mutual exclusion, grant order, stability, progress, watch chain, missed predecessors, over runs |
| `Namesakes.dfy`, `StaleOwner.dfy` | what a renewed directory does to ownership by name: a run, and exactly when it can happen |
| `Sorting.dfy`, `NodeNames.dfy` | what qsort promises, and the string operations on node names, refined to numbers |
| `ZooServer.dfy` | the server side of each call: others act first, replies may fail or be lost |
| `Calls.dfy`, `LockCalls.dfy` | the calls made, what a retry loop makes of them, and which ones `zkr_lock_lock` makes, as a reference without its loops |
| `LockMutex.dfy` | `zkr_lock_mutex_t` as a class; every run of its methods is a run of the protocol |
| `SessionProtocol.dfy` | requests that lock, read, write and close on one key, and garbage collection, over the same log |
| `SessionTrace.dfy` | processes that keep a trace of their requests; their interleavings are exactly the histories of the session system |
| `SoloRequest.dfy`, `TwoRequests.dfy` | runs of one and of two conforming processes: one waits and reads the other's write, or comes too late to watch |
| `SessionHandler.dfy` | the PS_ functions as a class; every method keeps the process's trace conforming, whatever the others do |
| `SessionPaths.dfy`, `RetryLoops.dfy` | paths, the two shapes of retry loop |
| `SessionLock.dfy` | the attempt budget, and what asking for the lock again and again comes to: calls, refusals, sleep |
| `SessionStore.dfy` | the same functions alone on a tree with mtimes, with the exact outcome for every script of replies |
| `Callbacks.dfy`, `AclList.dfy` | the callback table, the ACL lists |

The adversary decides which prefix of the log a read sees (never going backwards for one session),
whether a create or delete whose reply is lost took effect, which calls fail, when sessions expire,
and how the sessions interleave. `LockMutex.Mutex` calls a `ZooServer.Server` that behaves like
that and records the protocol run so far, so the theorems about runs hold of the code.
`SessionHandler.PhpSession` runs on the same server. What it proves of itself needs nothing of the
other processes; when all of them run this code, `CodeIsHistory` makes their run a history of the
session system, and no update is lost (`RequestLosesNoUpdate`). Between any two of its calls on the
data node the process's own watcher thread may be anywhere in `zkr_lock_lock` (`Meanwhile`). A thread
that waits for `pmutex` gets it when the watcher's thread has come back from `zkr_lock_lock`, and never
if that thread is giving up with `pmutex` held (`Await`).

The lock directory and the data node share one log. That is what makes a lock holder's possibly
lagging read return the last write: a listing that shows the predecessor gone comes from a prefix
that already has the predecessor's writes.

## Assumptions

- Sequence numbers stay within 0..2147483647. The lock directory may be deleted when it is empty and
  created anew, with numbers from 0 again.
- Only the owning session (or its expiry) removes a queue node, and each session has one mutex per path.
- A session's reads reflect its own committed operations, also those whose reply was lost. Whether
  such an operation took effect is settled when its reply is lost.
- `pmutex` is a default mutex that blocks when taken twice by one thread.
- For `SessionProtocol`: `session_lock` is on, the two paths of the key collide with no other key's,
  no connection expires while it owns the lock, and a request that was refused the lock ends with its
  E_ERROR.
- For `SessionHandler`: finitely many replies to calls on the data node are lost, as in every run whose
  retry loops end; a commit's mtime may be anything; and no watch's `zkr_lock_lock` is running in the
  process when the next request calls `zkr_lock_init`.
- A thread that gives up inside `zkr_lock_operation` stays there; a `zkr_lock_lock` of the watcher's
  thread that is waited for is over in the end, or gives up.
- In `Server.calls` the watcher thread's calls are not listed; what they do is in the run.

## What the code does differently from what one would expect

- `zkr_lock_lock` answers `zkr_lock_isowner`, not the "0 for no error" that `zoo_lock.h` line 99
  describes. The session handler relies on the code, and so does the model.
- `child_floor` compares whole names, so session ids decide before sequence numbers do. A waiter
  gets its predecessor only under the condition in `FloorIsPredecessorIff`, may set no watch at all
  (`UnwatchedIff`, `UnwatchedWaiter`), and an owner may be given a node to watch. Ownership does not
  depend on it. An owner is given a node to watch exactly when a listed session id is below its own
  (`OwnerWatchesIff`).
- When the predecessor cannot be watched, `zkr_lock_operation` calls `zkr_lock_unlock` with `pmutex`
  held. The call never returns, and the node stays queued. `zkr_lock_lock` hangs in this way exactly
  when its last call is a `zoo_wexists` that failed (`Watch`, `Settle`, `Operation`, `Lock`). No call
  has to go wrong for that: when the predecessor releases the lock between the waiter's listing and its
  `zoo_wexists`, the answer is ZNONODE, and a waiter that is now first gives up (`GivesUpThoughFirst`,
  `MissedFloorGivesUp`).
- `zkr_lock_isowner` compares names, and a renewed lock directory gives out old names again. A session
  that keeps its ownerid over a renewal can claim the lock beside its owner (`TwoClaims`); a claim is
  ownership exactly when the directory was not renewed between the creations of the two nodes
  (`ClaimIsOwnershipIff`), and `StaleOwner` says exactly when a leftover ownerid can lead there. The
  session handler calls `zkr_lock_init` for every request, and that excludes it (`FreshSinceInit`).
- `PS_GC_FUNC` takes no lock. It can delete a session between a request's read and its write: exactly
  when the session is expired by the collector's own cut-off, or the collector is told an earlier,
  expired state (`CollectedBetween`, `CanCollectIff`).
- The session handler's retry loops increment in the body what the test decrements: they end only
  when an answer arrives (`SessionLoopNeverTires`).
- After one lost reply, `PS_WRITE_FUNC` tries only to create the node, so writing to an existing
  session then reports FAILURE, whether or not the value was stored (`LostSetFails`,
  `StoredYetFailed`; exactly when it succeeds: `Store.Write`).
- Long keys can share a data node under different locks: exactly those that agree on their first 499
  characters and differ, with "-lock" appended, on the first 505 (`UnguardedIff`, `LongKeysCollide`).
- A callback registered after a deletion gets a handle that does not address it
  (`HandleDeletesItself`, `DeletesTheWrongOne`).

## Model

| member | source | states |
|---|---|---|
| SessionHandler.RequestLosesNoUpdate | php_zookeeper_session.c:168-256 | when all processes run this code, what a request has read is what the data node held then, and no other process's write is applied while it holds it |
| SessionTrace.CodeIsHistory | php_zookeeper_session.c:126-320 | every interleaving of processes whose traces conform is a history of the session system |
| SessionTrace.HistoryIsCode | php_zookeeper_session.c:126-320 | and every history of the session system is such an interleaving, all its processes conforming |
| SessionTrace.CodeLosesNoUpdate | php_zookeeper_session.c:168-256 | the no-lost-updates theorem for every such interleaving, at every state of it |
| SessionTrace.OneLockedProcess | php_zookeeper_session.c:153-161 | in every such interleaving is_locked is set in one process at most |
| SoloRequest.WritesUnderLock | php_zookeeper_session.c:126-256 | for every session and value, a run of a conforming process that ends with the lock held, the absent data node read and the value written |
| TwoRequests.WaiterReadsWrite | php_zookeeper_session.c:126-320 | for every two sessions and every value, a history of two conforming processes in which one waits while the other holds the lock, and then reads what that one wrote |
| SessionProtocol.NoStoreBetween | php_zookeeper_session.c:168-256 | in every interleaving, no other request's write is applied between a holder's read and its write |
| SessionProtocol.NoLostUpdates | php_zookeeper_session.c:153-256 | in every reachable state, what a request has read is what the log held then, and every write since is its own |
| SessionProtocol.ReadReturnsLastWrite | php_zookeeper_session.c:185-227 | a successful read returns the last applied write, whole and as old as zoo_exists told, though both calls may be answered by lagging servers; only a garbage collection may have removed it by then, or make zoo_get fail |
| SessionProtocol.LockedIsFirst | php_zookeeper_session.c:153-161 | is_locked implies that the lock's own node is live and the smallest, though ownership is tested by name and the directory may be renewed |
| SessionProtocol.HolderReadsCurrent | php_zookeeper_session.c:215-219 | every prefix a holder may be shown has all writes; the current value is the one shown unless that was collected since |
| SessionProtocol.CollectedBetween | php_zookeeper_session.c:281-298 | in every history a collection between a read and the reader's first write removes a node expired by the collector's cut-off, or one written after the collector asked |
| SessionProtocol.CanCollectIff | php_zookeeper_session.c:281-298 | a process can collect what a request has read exactly when it is expired by that process's cut-off or the process may still be shown an earlier expired state |
| SessionProtocol.OnlyTheHolderStores | php_zookeeper_session.c:239-255 | a write is applied only while its request is the one holder |
| SessionProtocol.EventInv | php_zookeeper_session.c:126-320 | each lock, read, write, close, watcher or garbage collection step keeps the session invariant |
| LockProtocol.StepInv | zoo_lock.c:246-363 | each server call of the lock code, its lost replies, expiries and renewals included, keeps the inductive invariant: below a recorded ownerid everything is gone for good |
| LockSafety.MutualExclusion | zoo_lock.c:298-311 | in every reachable state at most one session is owner with its node live, with stale listings, lost replies and leftover ownerids |
| LockMutex.OneOwner | zoo_lock.c:407-410 | when a mutex's id and ownerid strings agree and its node is live, another session's claim on a live node means that one side's ownerid is from an earlier directory |
| LockSafety.ClaimIsOwnershipIff | zoo_lock.c:407-410 | in every run a claim by name on a live node is ownership exactly when the directory was not renewed between the creation of ownerid's node and that of the own node |
| StaleOwner.UnsafeClaims | zoo_lock.c:407-410 | from any state in which a connected session's ownerid is its own and no live node of it bars the name, some continuation without zkr_lock_init or loss of a node has a false claim |
| StaleOwner.SafeForGood | zoo_lock.c:407-410 | from any other state no such continuation has one |
| LockSafety.ClaimsExcludeUnrenewed | zoo_lock.c:407-410 | in a run that never renews the directory, two claims by name are one session's |
| LockSafety.FreshSinceInit | zoo_lock.c:48-60 | from zkr_lock_init on, until the session loses a node, every claim by name is ownership, over renewals too |
| Namesakes.TwoClaims | zoo_lock.c:370-386 | for any two sessions, a run with a renewed directory and no zkr_lock_init in which both claim the lock at once and one owns it |
| LockSafety.GrantOrder | zoo_lock.c:308-312 | over a run, a different later owner has a larger sequence number |
| LockSafety.OwnerIsFirst | zoo_lock.c:308-312 | no client owns while an earlier node is live |
| LockSafety.OwnerStays | zoo_lock.c:160-165 | an owner stays owner, watcher re-entry included, until its node goes or the mutex is initialised again |
| LockSafety.OneLiveNode | zoo_lock.c:272-294 | a session never has two live queue nodes, after lost create replies, retries and re-initialisation too |
| LockSafety.NamedSeesItself | zoo_lock.c:296-309 | the listing that data[0] is taken from has the own node, so it is not empty |
| LockSafety.FirstIsServed | zoo_lock.c:309-345 | a listing read while a live node is first in line finds it and puts it first |
| LockSafety.WatchChain | zoo_lock.c:149-158 | when names are ordered like numbers, child_floor is the immediate predecessor, and NULL exactly for the minimum |
| LockSafety.WatchesDiffer | zoo_lock.c:312-319 | then two waiters on one listing watch different nodes |
| LockSafety.FloorIsPredecessorIff | zoo_lock.c:149-158 | as coded, child_floor gives the predecessor exactly when its session id is not above the waiter's and no later node's is below |
| LockSafety.UnwatchedIff | zoo_lock.c:313-342 | a client is given nothing to watch exactly when its session id is the smallest listed |
| LockSafety.OwnerWatchesIff | zoo_lock.c:313-342 | the owner is given a node to watch exactly when some listed session id is below its own |
| LockSafety.WatchFindsFloorIff | zoo_lock.c:313-319 | zoo_wexists on the floor's name, from any prefix the waiter may be shown, finds a node exactly when the floor itself is there |
| LockSafety.MissedFloorGivesUp | zoo_lock.c:317-337 | in every run a waiter whose floor is gone when it comes to watch it gives up, or is still about to watch |
| TwoRequests.GivesUpThoughFirst | zoo_lock.c:317-337 | for every two sessions, a history in which every call is answered and the waiter gives up, alone in the queue, because its predecessor left between listing and zoo_wexists |
| NodeNames.UnwatchedWaiter | zoo_lock.c:308-341 | a listing of two sessions on which the waiter is no owner and sets no watch |
| CStrings.NumeralOrder | zoo_lock.c:139-143 | strcmp of zero-padded numerals orders them as numbers |
| CStrings.NumeralReads | zoo_lock.c:257-263 | a padded numeral, read digit by digit, is the number it was printed from |
| NodeNames.NameReads | zoo_lock.c:257-278 | a node name is "x-", the session id in sixteen lower-case hexadecimal digits, "-" and the sequence number in ten decimal digits |
| NodeNames.SuffixOrder | zoo_lock.c:139-143 | the comparison given to qsort orders node names exactly by sequence number |
| NodeNames.NameOrder | zoo_lock.c:153-155 | strcmp of whole names orders by session, then number, and is 0 only on equal nodes |
| NodeNames.MatchesOwn | zoo_lock.c:209-212 | the prefix test holds exactly for the session's own nodes |
| NodeNames.PrefixFits | zoo_lock.c:257-278 | the 30-byte prefix is never cut, and the created path fits retbuf |
| NodeNames.GetNameUndoesJoin | zoo_lock.c:170-175 | getName undoes the join of path and name |
| NodeNames.SortChildren | zoo_lock.c:145-147 | the array is a permutation of itself, sorted by suffix |
| Sorting.Sort | zoo_lock.c:146 | in-place sort under any comparison that is an order |
| NodeNames.LookupNode | zoo_lock.c:203-216 | the first child with the prefix, or none |
| NodeNames.LookupRefines | zoo_lock.c:203-216 | on generated names that is the session's own node, or there is none |
| NodeNames.ChildFloor | zoo_lock.c:149-158 | the last entry whose whole name is smaller, or none |
| NodeNames.FirstRefines | zoo_lock.c:308-310 | data[0] of the sorted listing is the node with the smallest number |
| NodeNames.FloorRefines | zoo_lock.c:312 | child_floor on the sorted listing is the highest number among the smaller names |
| LockMutex.Mutex.Lock | zoo_lock.c:365-400 | its calls are exactly those of the grammar `Locks`: the directory is made sure of, then one operation after another as long as one fails, four in all; no delete, at most 45 calls; it hangs with pmutex held exactly when its last call is a failed watch, and releases pmutex otherwise; an answered last operation leaves the id, ownerid and isOwner that its listings tell; it answers ownership by name, and true when first in line and served without error |
| LockCalls.FirstIsListed | zoo_lock.c:365-400 | a zkr_lock_lock whose calls all succeed up to date needs one operation, which finds a node that was first in line and lists it as the smallest |
| LockCalls.LocksBounded | zoo_lock.c:365-400 | what zkr_lock_lock may call comes to at most 45 calls |
| LockMutex.Mutex.Operation | zoo_lock.c:246-363 | the do-while body runs once, and its calls are exactly those of `Operated`: up to three listings, each only after a loss; one zoo_create exactly if an answered listing shows no node of the session; up to three listings again; up to three watches of the floor exactly if there is one; it blocks exactly when its last call is a failed watch and else answers its last call's code; an answered one leaves what `Settled` says; every step is a protocol step |
| LockMutex.Mutex.Adopt | zoo_lock.c:268-294 | zoo_get_children, again after each loss up to three times; zoo_create under the session's prefix, once, exactly if it is answered without a node of the session; afterwards the node is known, the listed one or a created one, or the last call failed |
| LockMutex.Mutex.Claim | zoo_lock.c:296-360 | zoo_get_children, again after each loss up to three times, then the watch on the floor that the recorded listing shows, exactly if it shows one; ownerid is that listing's smallest node and the id stays; it blocks exactly when its last call is a failed watch |
| LockMutex.Mutex.Settle | zoo_lock.c:313-359 | a floor leads to zoo_wexists on its path, at most three times, and blocks exactly when that fails, as it must when the floor is gone already, isOwner being cleared otherwise; without a floor no call is made and isOwner is set for an owner by name and else left alone |
| LockMutex.Mutex.Watch | zoo_lock.c:317-341 | zoo_wexists on the predecessor's path, at most three times: ZOK exactly when the last answer is ZOK, else it blocks on pmutex with the node still queued, as it must when the predecessor is gone already; the run records which answer it was |
| LockMutex.Mutex.GiveUp | zoo_lock.c:331-336 | at most two unlock calls; with pmutex held the first blocks and changes nothing |
| LockMutex.Mutex.Unlock | zoo_lock.c:80-126 | at most three deletes, of the own node's path only; 0 exactly when the last is answered ZOK or ZNONODE, and then no node has that path and isowner is false; a failure keeps the id |
| LockMutex.Mutex.IsOwnerNow | zoo_lock.c:407-410 | the string comparison is ownership in the protocol |
| LockMutex.Mutex.RetryGetChildren | zoo_lock.c:180-197 | at most retry calls, all used when it ends in connection loss; success gives a listing from an allowed prefix |
| LockMutex.Mutex.RetryWExists | zoo_lock.c:220-237 | at most retry calls of zoo_wexists on the given path, all but the last lost, all used when the last is lost; ZOK and ZNONODE tell whether a prefix the waiter may be shown has the node |
| LockMutex.Mutex.EnsureDirectory | zoo_lock.c:370-386 | zoo_exists first, again after a loss, zoo_create after ZNONODE, and it stops on another answer or after four repetitions |
| LockMutex.Mutex.Init | zoo_lock.c:48-60 | id, ownerid and isOwner are cleared, the queue is untouched, and the run records it |
| SessionHandler.PhpSession.SessLock | php_zookeeper_session.c:126-164 | its calls are complete zkr_lock_locks, one after another (`LockTried`): each but the last came back without ownership after its last listing, and was followed by usleep(lock_wait) if that is positive; a refusal means that exactly max(1, budget / lock_wait) of them were made; it hangs exactly when the last call is a failed watch or the watcher's thread is giving up with pmutex; is_locked exactly on ownership; the trace conforms |
| SessionLock.TriedInBudget | php_zookeeper_session.c:143-161 | any such sequence of attempts keeps the budget of attempts and sleep, and a refusal uses it up to less than one wait |
| SessionLock.TriesInNumbers | php_zookeeper_session.c:143-151 | 200 attempts by default; max_execution_time seconds over 150 ms or over lock_wait, whole ones, at least one; a negative lock_wait gives one attempt and no sleep |
| SessionLock.LockTriedStays | php_zookeeper_session.c:126-164 | later calls and actions do not change which attempts were made |
| SessionHandler.PhpSession.TryLock | zoo_lock.c:365-400 | zkr_lock_lock in the handler's thread, with the watcher's thread beside it: it waits for pmutex, without a call and forever only if that thread is giving up; else its calls are those of `Locks`; refused means not owner after the last listing; phase and trace stay as they should be |
| SessionLock.BudgetKept | php_zookeeper_session.c:143-161 | at most max(1, total / wait) attempts, sleep at most max(total, wait), shortfall below one wait |
| SessionHandler.PhpSession.Close | php_zookeeper_session.c:304-320 | with is_locked it unlocks: up to three deletes of the path of the node known then, absent when the answer is 0, exactly on ZOK or ZNONODE, or nothing to delete; it blocks exactly when the watcher's thread is giving up with pmutex as it comes to take it, and then makes no call; without is_locked nothing happens; the trace conforms |
| SessionHandler.PhpSession.Read | php_zookeeper_session.c:168-227 | it asks for the lock as SessLock does, and is_locked exactly on ownership; refused, it fails without another call, after all attempts of the budget; hung, it stays stuck; with the lock: zoo_exists until answered; then exactly if 1000 * request time - mtime > 1000 * gc_maxlifetime zoo_delete until answered, committed when that is ZOK, and FAILURE; exactly if not zoo_get until answered, SUCCESS on ZOK with the value the trace records; the trace conforms |
| SessionHandler.PhpSession.Gc | php_zookeeper_session.c:281-298 | on the session's data node, in any phase: one zoo_exists, and one zoo_delete exactly if that told an mtime more than gc_maxlifetime seconds before the request; only the collection is committed, with that cut-off in milliseconds; the trace conforms |
| SessionHandler.PhpSession.Write | php_zookeeper_session.c:233-256 | zoo_exists until answered, then zoo_set if it said ZOK and zoo_create otherwise or after a loss, until answered; SUCCESS exactly when the last answer is ZOK, and then val was just committed; nothing but val is ever committed; the trace conforms |
| SessionHandler.PhpSession.Destroy | php_zookeeper_session.c:259-271 | zoo_delete until answered; SUCCESS exactly when the last answer is ZOK, and then the removal was just committed; the trace conforms |
| RetryLoops.SessionLoopNeverTires | php_zookeeper_session.c:185-189 | the counter is 3 at every loop head; the loop runs on exactly while all replies are lost and stops on the first answer |
| RetryLoops.LockLoopTires | zoo_lock.c:182-196 | the lock code's loop stops within its retries, on the first answer or the last loss |
| SessionStore.Store.RetryExists | php_zookeeper_session.c:185-189 | the reply used is the first that is not lost |
| SessionStore.Store.Read | php_zookeeper_session.c:185-227 | SUCCESS exactly when the first reply to zoo_exists that is not lost finds an unexpired node and the first such reply to zoo_get is an answer, and then the data unchanged; exactly which fates remove an expired node; without failures: the data, unless 1000 * request time - mtime > 1000 * gc_maxlifetime, when it fails and a childless node goes |
| SessionStore.Store.Write | php_zookeeper_session.c:239-255 | from the tree and the script alone: exactly when SUCCESS, always without failures, and what the tree is then and otherwise; SUCCESS means the node holds val, FAILURE that it is unchanged or holds val |
| SessionStore.Store.LostSetFails | php_zookeeper_session.c:245-253 | on an existing node a lost reply to the first store call means FAILURE, and the value is stored exactly if that call took effect |
| SessionStore.StoredYetFailed | php_zookeeper_session.c:245-255 | a script on which the value is stored and FAILURE is reported |
| SessionStore.Store.StoreLoop | php_zookeeper_session.c:245-253 | the loop goes on up to the first reply that is not lost, with zoo_create after a loss; exactly when ZOK, and what the tree is |
| SessionStore.Store.Destroy | php_zookeeper_session.c:264-270 | the delete is repeated up to the first reply that is not lost; SUCCESS exactly when that call itself removed the node, without failures exactly for a node without children; exactly when the node is gone |
| SessionStore.Store.Gc | php_zookeeper_session.c:281-298 | one zoo_exists for each listed name, one zoo_delete exactly when it tells of an expired node not yet removed; a node goes exactly when such a delete takes effect on it; without failures exactly the listed childless nodes go for which 1000 * request time - mtime > 1000 * gc_maxlifetime |
| SessionPaths.PathsSeparate | php_zookeeper_session.c:135 | keys of at most 499 characters have untruncated, distinct data and lock paths; a lock path is a data path only for the key plus "-lock" |
| SessionPaths.DataPathsAgree | php_zookeeper_session.c:183 | two keys share a data path exactly when their first 499 characters agree |
| SessionPaths.LockPathsAgree | php_zookeeper_session.c:135 | two keys share a lock path exactly when, with "-lock" appended, their first 505 characters agree |
| SessionPaths.UnguardedIff | php_zookeeper_session.c:135-183 | two keys share a data path under different locks exactly when their first 499 characters agree and those 505-character cuts differ |
| SessionPaths.UnguardedAreLong | php_zookeeper_session.c:183 | then both keys have at least 499 characters |
| SessionPaths.LongKeysCollide | php_zookeeper_session.c:183 | every 499-character stem gives two such keys |
| Callbacks.KeyMinusHandle | php_zookeeper.c:757-766 | after any run, a new entry's key minus its handle is the number of successful deletions since the last clean |
| Callbacks.HandleDeletesItself | php_zookeeper.c:814-816 | deleting by handle removes the own entry exactly when there were none before its insertion |
| Callbacks.DeletesTheWrongOne | php_zookeeper.c:667-672 | a run in which deleting by handle removes another callback |
| Callbacks.Registry.New | php_zookeeper.c:757-766 | the new entry, and the gap between its key and its handle |
| Callbacks.Registry.Delete | php_zookeeper.c:721-723 | removes the entry under the handle and no other |
| Callbacks.Registry.Reset | php_zookeeper.c:1256 | empties the table and restarts its numbering |
| AclList.ParseAclList | php_zookeeper.c:851-892 | fills the vector with what the list parses to, and leaves it alone for an empty list |
| AclList.ParseKeepsWellFormed | php_zookeeper.c:864-891 | exactly the well-formed entries are kept, each once, in order, with perms reduced to 32 signed bits and scheme and id up to their first NUL |
| AclList.AclvToArray | php_zookeeper.c:922-936 | one array per ACL, in order, with its perms, scheme and id under those keys and nothing else |
| AclList.PrintParse | php_zookeeper.c:922-936 | printing a vector and parsing it gives it back |
| AclList.ParsePrintParse | php_zookeeper.c:851-936 | parsing, printing and parsing again equals parsing once, perms reduced to 32 bits |

## Left out

- Expiry of a connection while it holds the lock: outside the hypotheses of the no-lost-updates theorems.
- A create or delete that takes effect only after its lost reply and a later read: the effect is settled when the reply is lost.
- LockMutex.Mutex.Lock: calls on one mutex are taken one after the other, and it is called with `pmutex` free; the waiting is in `SessionHandler.PhpSession.TryLock` and `Close`.
- LockMutex.Mutex.EnsureDirectory: whether the lock directory exists is not tracked, so both of its calls may answer anything.
- LockMutex.Mutex.RetryWExists: when a registered watch fires is not tied to the watched node; the watcher's thread may call `zkr_lock_lock` at any time.
- LockMutex.OneOwner: about one mutex and any other session of its server; the methods of one Mutex object do not preserve another object's `Valid()`.
- SessionHandler.RequestLosesNoUpdate: that the traces of several PhpSession objects conform to one run is a hypothesis; each object proves it for its own runs, in which the other sessions may do anything.
- SessionStore.Store.Read: nobody else changes the tree here; the lock and the interleavings are in `SessionHandler`.
- SessionHandler.PhpSession.Write: which replies make it succeed is stated by the calls; the exact outcome from the node's state is in `SessionStore.Store.Write`.
- SessionStore.Store.Gc: the child list is a parameter, and a failed zoo_get_children, after which nothing is removed, is the empty list.
- SessionHandler.PhpSession.SessLock: lock_maxwait * 1000000 is required not to overflow a 64-bit long.
- AclList.ParseAclList: how PHP converts other types to integers and strings is a parameter.
- The completion callback of `zkr_lock_init_cb`, which the session handler does not use.
- `zkr_lock_setcallback` and `zkr_lock_getcallback`, declared but not defined.
- The PHP method wrappers, parameter parsing, constants, ini settings, logging and phpinfo: glue without state of its own.
- libzookeeper's sockets and reconnects, thread scheduling and the pauses between retries: replaced by the log and adversarial replies.
- Memory ownership of ids, string vectors and ACL data, and `php_cb_data_destroy` on an entry that is still in the table.
- The persistent connection list of `php_zookeeper_session_get`: one connection per process and save path is taken for granted.
