/** The cache directory as a value: its size, and what one eviction sweep may do to it. */
module CacheDir {
  import opened Content
  import opened MetaStore

  /** File name to bytes; a file is named by the root of an object. */
  type Files = map<Root, Bytes>

  /** Sum of the file sizes. */
  ghost function DirSize(d: Files): (n: nat) {
    if d == map[] then 0
    else
      var r :| r in d;
      |d[r]| + DirSize(d - {r})
  }

  /** Any file may be counted first. */
  lemma {:induction false} DirSizeWithout(d: Files, r: Root)
    requires r in d
    ensures DirSize(d) == |d[r]| + DirSize(d - {r})
    decreases |d|
  {
    var q :| q in d && DirSize(d) == |d[q]| + DirSize(d - {q});
    if q != r {
      DirSizeWithout(d - {q}, r);
      DirSizeWithout(d - {r}, q);
      assert d - {q} - {r} == d - {r} - {q};
    }
  }

  /** A file put in place counts once; what it replaces counts no more. */
  lemma DirSizeWith(d: Files, r: Root, content: Bytes)
    ensures DirSize(d[r := content]) == DirSize(d) + |content| - (if r in d then |d[r]| else 0)
  {
    DirSizeWithout(d[r := content], r);
    assert d[r := content] - {r} == d - {r};
    if r in d {
      DirSizeWithout(d, r);
    } else {
      assert d - {r} == d;
    }
  }

  // ---- eviction ----

  ghost predicate Ascending(cs: seq<CacheEntry>) {
    forall i, j :: 0 <= i < j < |cs| ==> cs[i].lastAccess <= cs[j].lastAccess
  }

  predicate Evictable(db: DB, r: Root) {
    r in db.objects && db.objects[r].status.Finalized?
  }

  /** Only files went, and only those of finalized objects. */
  ghost predicate OnlyFinalizedGone(db: DB, d: Files, d': Files) {
    && d'.Keys <= d.Keys && (forall r :: r in d' ==> d'[r] == d[r])
    && (forall r :: r in d && r !in d' ==> Evictable(db, r))
  }

  /** Least recently used first: whatever went was accessed no later than any finalized
      object's file that stayed. */
  ghost predicate OldestGone(db: DB, d: Files, d': Files) {
    forall a, b :: a in d && a !in d' && Evictable(db, a) && b in d' && Evictable(db, b) ==>
      db.objects[a].lastAccess <= db.objects[b].lastAccess
  }

  /** The sweep stopped at the first point at or below the mark: without its last victim it
      would still be above. */
  ghost predicate NoneTooMany(db: DB, d: Files, d': Files, n': int, low: int) {
    d'.Keys != d.Keys ==>
      exists v :: v in d && v !in d' && Evictable(db, v) && n' + |d[v]| > low
        && forall a :: a in d && a !in d' && Evictable(db, a) ==> db.objects[a].lastAccess <= db.objects[v].lastAccess
  }

  /** A whole sweep from directory `d` and counter `n`. */
  ghost predicate Swept(db: DB, d: Files, n: int, d': Files, n': int, low: int) {
    && OnlyFinalizedGone(db, d, d') && OldestGone(db, d, d') && NoneTooMany(db, d, d', n', low)
    && n - n' == DirSize(d) - DirSize(d')
    && (n' <= low || forall r :: r in d' ==> !Evictable(db, r))
  }

  /** The roots of the first `k` candidates. */
  function Passed(cs: seq<CacheEntry>, k: nat): set<Root>
    requires k <= |cs|
  {
    set i | 0 <= i < k :: cs[i].root
  }

  /** The sweep has been through the first `k` of the sorted candidates; `last` is its last
      victim, or -1. */
  ghost predicate SweptUpTo(cs: seq<CacheEntry>, k: nat, last: int, d: Files, n: int, d': Files, n': int, low: int) {
    && -1 <= last < k <= |cs| && d' == d - Passed(cs, k)
    && n - n' == DirSize(d) - DirSize(d')
    && (last >= 0 ==> cs[last].root in d && n' + |d[cs[last].root]| > low)
    && (forall i :: last < i < k ==> cs[i].root !in d)
  }

  lemma PassedNext(cs: seq<CacheEntry>, k: nat)
    requires k < |cs| && OneEach(cs)
    ensures Passed(cs, k + 1) == Passed(cs, k) + {cs[k].root} && cs[k].root !in Passed(cs, k)
  {
  }

  /** The next candidate has no file. */
  lemma SweepSkips(cs: seq<CacheEntry>, k: nat, last: int, d: Files, n: int, d': Files, n': int, low: int)
    requires SweptUpTo(cs, k, last, d, n, d', n', low) && k < |cs| && cs[k].root !in d'
    requires OneEach(cs)
    ensures SweptUpTo(cs, k + 1, last, d, n, d', n', low)
  {
    PassedNext(cs, k);
  }

  /** The next candidate's file goes, the counter still being above the mark. */
  lemma SweepRemoves(cs: seq<CacheEntry>, k: nat, last: int, d: Files, n: int, d': Files, n': int, low: int)
    requires SweptUpTo(cs, k, last, d, n, d', n', low) && k < |cs| && cs[k].root in d' && n' > low
    requires OneEach(cs)
    ensures SweptUpTo(cs, k + 1, k, d, n, d' - {cs[k].root}, n' - |d'[cs[k].root]|, low)
  {
    PassedNext(cs, k);
    DirSizeWithout(d', cs[k].root);
  }

  /** Candidates passed by the sweep are finalized objects with their recorded access times,
      and every other finalized object comes later in the order. */
  lemma PassedFinalized(db: DB, cs: seq<CacheEntry>, k: nat, r: Root)
    requires ListsFinalized(db, cs) && k <= |cs|
    ensures r in Passed(cs, k) ==>
              Evictable(db, r) && exists i :: 0 <= i < k && cs[i].root == r && cs[i].lastAccess == db.objects[r].lastAccess
    ensures Evictable(db, r) && r !in Passed(cs, k) ==>
              exists i :: k <= i < |cs| && cs[i].root == r && cs[i].lastAccess == db.objects[r].lastAccess
  {
    if r in Passed(cs, k) {
      var i :| 0 <= i < k && cs[i].root == r;
      assert cs[i] in cs;
    } else if Evictable(db, r) {
      var e :| e in cs && e.root == r;
      var i :| 0 <= i < |cs| && cs[i] == e;
    }
  }

  lemma SweepTookOldest(db: DB, cs: seq<CacheEntry>, k: nat, d: Files)
    requires ListsFinalized(db, cs) && Ascending(cs) && k <= |cs|
    ensures OnlyFinalizedGone(db, d, d - Passed(cs, k)) && OldestGone(db, d, d - Passed(cs, k))
  {
    forall r
      ensures r in Passed(cs, k) ==> Evictable(db, r)
    {
      PassedFinalized(db, cs, k, r);
    }
    forall a, b | a in Passed(cs, k) && b !in Passed(cs, k) && Evictable(db, b)
      ensures Evictable(db, a) && db.objects[a].lastAccess <= db.objects[b].lastAccess
    {
      PassedFinalized(db, cs, k, a);
      PassedFinalized(db, cs, k, b);
    }
  }

  lemma SweepTookNoneTooMany(db: DB, cs: seq<CacheEntry>, k: nat, last: int, d: Files, n: int, d': Files, n': int, low: int)
    requires ListsFinalized(db, cs) && Ascending(cs) && SweptUpTo(cs, k, last, d, n, d', n', low)
    ensures NoneTooMany(db, d, d', n', low)
  {
    if last >= 0 {
      var v := cs[last].root;
      assert cs[last] in cs && v in Passed(cs, k);
      forall a | a in d && a !in d' && Evictable(db, a)
        ensures db.objects[a].lastAccess <= db.objects[v].lastAccess
      {
        PassedFinalized(db, cs, k, a);
      }
    }
  }

  /** When the sweep ends it has done what a sweep should. */
  lemma SweepEnds(db: DB, cs: seq<CacheEntry>, k: nat, last: int, d: Files, n: int, d': Files, n': int, low: int)
    requires ListsFinalized(db, cs) && Ascending(cs) && SweptUpTo(cs, k, last, d, n, d', n', low)
    requires k == |cs| || n' <= low
    ensures Swept(db, d, n, d', n', low)
  {
    SweepTookOldest(db, cs, k, d);
    SweepTookNoneTooMany(db, cs, k, last, d, n, d', n', low);
    forall r | k == |cs| && r in d'
      ensures !Evictable(db, r)
    {
      PassedFinalized(db, cs, k, r);
    }
  }
}
