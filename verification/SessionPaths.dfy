/** The node paths that the session handler derives from a session key. */
module SessionPaths {
  import opened CStrings
  import opened NodeNames

  const PARENT := "/php-sessid"
  const PATH_BUFFER: nat := 512
  const LOCK_PATH_LIMIT: nat := 512 + 5

  /** session->path, and the path PS_GC_FUNC builds for a child. */
  function DataPath(key: string): string {
    SnPrintf(PATH_BUFFER, PARENT + "/" + key)
  }

  /** spprintf cuts what it allocates at a limit of its own. */
  function LockPath(key: string): string {
    Cut(PARENT + "/" + key + "-lock", LOCK_PATH_LIMIT)
  }

  lemma CutTail(s: string, t: string, n: nat)
    requires |s| <= n
    ensures Cut(s + t, n) == s + Cut(t, n - |s|)
  {
  }

  lemma SamePrefix(p: string, s: string, t: string)
    ensures p + s == p + t <==> s == t
  {
    assert (p + s)[|p|..] == s && (p + t)[|p|..] == t;
  }

  lemma PathForms(key: string)
    ensures DataPath(key) == PARENT + "/" + Cut(key, 499)
    ensures LockPath(key) == PARENT + "/" + Cut(key + "-lock", 505)
  {
    CutTail(PARENT + "/", key, 511);
    CutTail(PARENT + "/", key + "-lock", 517);
    assert PARENT + "/" + key + "-lock" == PARENT + "/" + (key + "-lock");
  }

  /** Two keys share their data node exactly when they agree on the first 499 characters. */
  lemma DataPathsAgree(k: string, l: string)
    ensures DataPath(k) == DataPath(l) <==> Cut(k, 499) == Cut(l, 499)
  {
    PathForms(k);
    PathForms(l);
    SamePrefix(PARENT + "/", Cut(k, 499), Cut(l, 499));
  }

  /** Two keys share their lock directory exactly when they agree, "-lock" appended, on the
      first 505 characters. */
  lemma LockPathsAgree(k: string, l: string)
    ensures LockPath(k) == LockPath(l) <==> Cut(k + "-lock", 505) == Cut(l + "-lock", 505)
  {
    PathForms(k);
    PathForms(l);
    SamePrefix(PARENT + "/", Cut(k + "-lock", 505), Cut(l + "-lock", 505));
  }

  /** Keys that fit have their own data node and their own lock directory, and a
      lock directory is a data node only for the key with "-lock" appended. */
  lemma PathsSeparate(k: string, l: string)
    requires |k| <= 499 && |l| <= 499
    ensures DataPath(k) == PARENT + "/" + k && LockPath(k) == PARENT + "/" + k + "-lock"
    ensures DataPath(k) == DataPath(l) <==> k == l
    ensures LockPath(k) == LockPath(l) <==> k == l
    ensures LockPath(k) == DataPath(l) <==> l == k + "-lock"
  {
    PathForms(k);
    PathForms(l);
    SamePrefix(PARENT + "/", k, l);
    SamePrefix(PARENT + "/", k + "-lock", l + "-lock");
    SamePrefix(PARENT + "/", k + "-lock", l);
    assert (k + "-lock")[..|k|] == k && (l + "-lock")[..|l|] == l;
    assert PARENT + "/" + k + "-lock" == PARENT + "/" + (k + "-lock");
  }

  /** Two keys share a data node under different locks: no lock keeps their requests apart. */
  predicate Unguarded(k: string, l: string) {
    DataPath(k) == DataPath(l) && LockPath(k) != LockPath(l)
  }

  /** Exactly when that happens, in terms of the keys alone. */
  lemma UnguardedIff(k: string, l: string)
    ensures Unguarded(k, l) <==>
            Cut(k, 499) == Cut(l, 499) && Cut(k + "-lock", 505) != Cut(l + "-lock", 505)
  {
    DataPathsAgree(k, l);
    LockPathsAgree(k, l);
  }

  /** So it takes two keys of at least 499 characters, and it can happen to every such stem. */
  lemma UnguardedAreLong(k: string, l: string)
    requires Unguarded(k, l)
    ensures |k| >= 499 && |l| >= 499 && k[..499] == l[..499] && k != l
  {
    UnguardedIff(k, l);
    if |k| < 499 || |l| < 499 {
      assert false;
    }
  }

  lemma LongKeysCollide(stem: string)
    requires |stem| == 499
    ensures Unguarded(stem + "a", stem + "b")
  {
    assert (stem + "a" + "-lock")[499] == 'a' && (stem + "b" + "-lock")[499] == 'b';
    UnguardedIff(stem + "a", stem + "b");
  }
}
