/** The object service: Put and Open over the store and the cache directory, with byte
    accounting, LRU eviction of finalized objects and write shedding.  Calls run one after
    another here; their interleavings are the subject of module Protocol. */
module ObjectService {
  import opened Outcomes
  import opened Content
  import opened MetaStore
  import opened CacheDir
  import Protocol

  datatype PutError = EmptyObject | TooLarge
  datatype PutReply = PutReply(meta: ObjectMeta, dedup: bool)
  datatype OpenError = NotFound | RestoreFailed
  datatype Opened = Opened(content: Bytes, meta: ObjectMeta)

  /** One minute, in nanoseconds. */
  const TOUCH_INTERVAL := 60_000_000_000

  /** A tenth of the limit is kept free after a sweep. */
  function LowMark(limit: int): (low: int)
    ensures limit >= 0 ==> 9 * limit <= 10 * low <= 10 * limit && (10 * low - 9 * limit < 10)
  {
    limit - limit / 10
  }

  /** Files of the recorded size hold the bytes their name addresses: a file may be truncated,
      but not altered in place. */
  predicate Intact(d: Files) {
    forall r :: r in d && |d[r]| == |r.content| ==> d[r] == r.content
  }

  /** Recorded access times lag the real ones by less than the touch interval. */
  ghost predicate Recent(objects: map<Root, ObjectMeta>, lastOpen: map<Root, int>, clock: int) {
    forall r :: r in objects ==>
      && r in lastOpen && objects[r].lastAccess <= lastOpen[r] <= clock
      && lastOpen[r] - objects[r].lastAccess < TOUCH_INTERVAL
  }

  /** Nothing but files of finalized objects disappears, `except` aside. */
  ghost predicate NothingElseGone(db: DB, d: Files, d': Files, except: Root) {
    && (forall r :: r in d && r != except && r !in d' ==> Evictable(db, r))
    && (forall r :: r in d' && r != except ==> r in d && d'[r] == d[r])
  }

  /** The database after a Put of `content`: a known object is re-armed when it failed or its
      only copy is missing, a new one is created. */
  function Stored(db: DB, content: Bytes, cached: bool, now: int): DB {
    var root := Root(content);
    if root !in db.objects then Apply(db, TCreate(Protocol.NewRecord(content), now))
    else
      var st := db.objects[root].status;
      if st.Failed? || (!st.Finalized? && !cached) then Apply(db, TReenqueue(root)) else db
  }

  /** What a Put does to the records: a new one for new content; known content that failed, or
      whose only copy is missing, is pending again with no retries and no reason to have failed,
      SkipTx and transaction hash kept; else nothing. */
  lemma StoredRecords(db: DB, content: Bytes, cached: bool, now: int)
    requires Synced(db)
    ensures var r, db' := Root(content), Stored(db, content, cached, now);
      && db'.keys == db.keys && db'.buckets == db.buckets
      && (r !in db.objects ==>
            db'.objects == db.objects[r := ObjectMeta(r, Sha(content), |content|, Pending, "", NoFailure, 0, false, now)])
      && (r in db.objects && (db.objects[r].status.Failed? || (!db.objects[r].status.Finalized? && !cached)) ==>
            db'.objects == db.objects[r := db.objects[r].(status := Pending, retries := 0, failReason := NoFailure)])
      && (r in db.objects && !db.objects[r].status.Failed? && (db.objects[r].status.Finalized? || cached) ==> db' == db)
  {
    if Root(content) !in db.objects {
      ObjectsAfter(db, TCreate(Protocol.NewRecord(content), now));
    } else {
      ObjectsAfter(db, TReenqueue(Root(content)));
    }
  }

  /** A recorded access is exact; an unrecorded one is close enough while the last one is recent. */
  lemma TouchIsRecent(db: DB, root: Root, now: int, lastOpen: map<Root, int>, clock: int)
    requires Synced(db) && Indexed(db) && root in db.objects
    ensures var db' := Apply(db, TTouch(root, now));
      && Synced(db') && Indexed(db') && root in db'.objects && db'.objects[root].lastAccess == now
      && (Recent(db.objects, lastOpen, clock) && now >= clock ==> Recent(db'.objects, lastOpen[root := now], now))
      && (forall q :: Evictable(db', q) <==> Evictable(db, q))
  {
    SyncedStep(db, TTouch(root, now));
    IndexedStep(db, TTouch(root, now));
    ObjectsAfter(db, TTouch(root, now));
  }

  lemma SkipIsRecent(objects: map<Root, ObjectMeta>, root: Root, now: int, lastOpen: map<Root, int>, clock: int)
    requires Recent(objects, lastOpen, clock) && now >= clock
    requires root in objects && now - objects[root].lastAccess < TOUCH_INTERVAL
    ensures Recent(objects, lastOpen[root := now], now)
  {
  }

  /** Coarse touching keeps eviction within the touch interval of true LRU: an evicted object
      was really last opened earlier than any kept one's last open plus the interval. */
  lemma EvictionIsNearlyLru(db: DB, lastOpen: map<Root, int>, clock: int, d: Files, n: int, d': Files, n': int, low: int,
                            a: Root, b: Root)
    requires Recent(db.objects, lastOpen, clock) && Swept(db, d, n, d', n', low)
    requires a in d && a !in d' && b in d' && Evictable(db, b)
    ensures Evictable(db, a) && lastOpen[a] < lastOpen[b] + 60_000_000_000
  {
    assert db.objects[a].lastAccess <= db.objects[b].lastAccess;
  }

  /** A file put in place and then swept over: whatever else went is finalized, and if it went
      itself, only objects as fresh as it are left. */
  lemma PlacedThenSwept(db: DB, db': DB, d: Files, d': Files, root: Root, content: Bytes)
    requires OnlyFinalizedGone(db', d[root := content], d') && OldestGone(db', d[root := content], d')
    requires forall q :: Evictable(db', q) <==> Evictable(db, q)
    ensures NothingElseGone(db, d, d', root) && (root in d' ==> d'[root] == content)
    ensures root !in d' ==> forall q :: q in d' && Evictable(db', q) ==>
              db'.objects[root].lastAccess <= db'.objects[q].lastAccess
  {
    assert root in d[root := content];
  }

  lemma Inserted(cs: seq<CacheEntry>, p: nat, e: CacheEntry)
    requires p <= |cs| && Ascending(cs)
    requires p > 0 ==> cs[p - 1].lastAccess <= e.lastAccess
    requires forall i :: p <= i < |cs| ==> e.lastAccess < cs[i].lastAccess
    ensures Ascending(cs[..p] + [e] + cs[p..])
  {
    var out := cs[..p] + [e] + cs[p..];
    assert forall i :: 0 <= i < |out| ==> out[i] == if i < p then cs[i] else if i == p then e else cs[i - 1];
  }

  lemma InsertedOnce(cs: seq<CacheEntry>, p: nat, e: CacheEntry)
    requires p <= |cs| && OneEach(cs) && forall i :: 0 <= i < |cs| ==> cs[i].root != e.root
    ensures OneEach(cs[..p] + [e] + cs[p..])
  {
    var out := cs[..p] + [e] + cs[p..];
    assert forall i :: 0 <= i < |out| ==> out[i] == if i < p then cs[i] else if i == p then e else cs[i - 1];
  }

  lemma InsertedMembers(cs: seq<CacheEntry>, p: nat, e: CacheEntry)
    requires p <= |cs|
    ensures forall c :: c in cs[..p] + [e] + cs[p..] <==> c in cs || c == e
  {
    assert cs == cs[..p] + cs[p..];
  }

  method SortByAccess(cands: seq<CacheEntry>) returns (out: seq<CacheEntry>)
    requires OneEach(cands)
    ensures Ascending(out) && OneEach(out)
    ensures forall e :: e in out <==> e in cands
  {
    out := [];
    for k := 0 to |cands|
      invariant Ascending(out) && OneEach(out)
      invariant forall e :: e in out <==> e in cands[..k]
    {
      var e := cands[k];
      var p := |out|;
      while p > 0 && e.lastAccess < out[p - 1].lastAccess
        invariant 0 <= p <= |out|
        invariant forall i :: p <= i < |out| ==> e.lastAccess < out[i].lastAccess
      {
        p := p - 1;
      }
      forall i | 0 <= i < |out|
        ensures out[i].root != e.root
      {
        assert out[i] in cands[..k];
      }
      Inserted(out, p, e);
      InsertedOnce(out, p, e);
      InsertedMembers(out, p, e);
      out := out[..p] + [e] + out[p..];
      assert cands[..k + 1] == cands[..k] + [e];
    }
    assert cands[..|cands|] == cands;
  }

  class Service {
    const st: Store
    const maxSize: int
    const cacheMaxBytes: int
    var dir: Files
    var cacheBytes: int
    var evicting: bool

    // bytes replaced in place since startup; real access times; the latest time seen
    ghost var overwritten: nat
    ghost var lastOpen: map<Root, int>
    ghost var clock: int

    /** The recency bound holds on a bounded cache. */
    ghost predicate Tracked()
      reads this, st
    {
      && Synced(st.Db()) && Indexed(st.Db()) && Intact(dir) && !evicting
      && (cacheMaxBytes > 0 ==> Recent(st.objects, lastOpen, clock))
    }

    /** So does the accounting law: the counter is the directory's size plus what renames have
        overwritten in place. */
    ghost predicate Valid()
      reads this, st
    {
      Tracked() && (cacheMaxBytes > 0 ==> cacheBytes == DirSize(dir) + overwritten)
    }

    /** Sum of the file sizes, by a scan. */
    method ScanDir() returns (total: int)
      ensures total == DirSize(dir)
    {
      total := 0;
      var rest := dir;
      while rest != map[]
        invariant rest.Keys <= dir.Keys && forall r :: r in rest ==> rest[r] == dir[r]
        invariant total + DirSize(rest) == DirSize(dir)
        decreases |rest|
      {
        var r :| r in rest;
        DirSizeWithout(rest, r);
        total := total + |rest[r]|;
        rest := rest - {r};
      }
    }

    /** Starts on an existing cache directory; a limit lowered since is enforced now. */
    constructor (st: Store, files: Files, maxSize: int, cacheMaxBytes: int, ghost lastOpen: map<Root, int>, ghost clock: int)
      requires Synced(st.Db()) && Indexed(st.Db()) && Intact(files)
      requires cacheMaxBytes > 0 ==> Recent(st.objects, lastOpen, clock)
      ensures Valid() && this.st == st && this.maxSize == maxSize && this.cacheMaxBytes == cacheMaxBytes
      ensures overwritten == 0
      ensures if cacheMaxBytes > 0 && DirSize(files) > cacheMaxBytes
              then Swept(st.Db(), files, DirSize(files), dir, cacheBytes, LowMark(cacheMaxBytes))
              else dir == files
    {
      this.st, this.maxSize, this.cacheMaxBytes := st, maxSize, cacheMaxBytes;
      this.dir, this.cacheBytes, this.evicting := files, 0, false;
      this.overwritten, this.lastOpen, this.clock := 0, lastOpen, clock;
      new;
      if cacheMaxBytes > 0 {
        cacheBytes := ScanDir();
        EvictIfNeeded();
      }
    }

    /** Drops the least recently used finalized objects' files until the counter is at the low
        mark; a sweep in progress makes it a no-op. */
    method EvictIfNeeded()
      requires Synced(st.Db())
      modifies this`dir, this`cacheBytes, this`evicting
      ensures evicting == old(evicting)
      ensures if cacheMaxBytes > 0 && old(cacheBytes) > cacheMaxBytes && !old(evicting)
              then Swept(st.Db(), old(dir), old(cacheBytes), dir, cacheBytes, LowMark(cacheMaxBytes))
              else dir == old(dir) && cacheBytes == old(cacheBytes)
      ensures forall r :: r in old(dir) && (r !in st.objects || !st.objects[r].status.Finalized?) ==>
                r in dir && dir[r] == old(dir)[r]
    {
      var limit := cacheMaxBytes;
      if limit <= 0 || cacheBytes <= limit {
        return;
      }
      if evicting {
        return;
      }
      evicting := true;
      var low := LowMark(limit);
      var listed := st.FinalizedCacheEntries();
      var cands := SortByAccess(listed);
      ghost var last, d, n := -1, dir, cacheBytes;
      assert d - Passed(cands, 0) == d;
      var k := 0;
      while k < |cands| && cacheBytes > low
        invariant evicting
        invariant SweptUpTo(cands, k, last, d, n, dir, cacheBytes, low)
      {
        var r := cands[k].root;
        if r in dir {
          SweepRemoves(cands, k, last, d, n, dir, cacheBytes, low);
          cacheBytes := cacheBytes - |dir[r]|;
          dir := dir - {r};
          last := k;
        } else {
          SweepSkips(cands, k, last, d, n, dir, cacheBytes, low);
        }
        k := k + 1;
      }
      SweepEnds(st.Db(), cands, k, last, d, n, dir, cacheBytes, low);
      evicting := false;
    }

    /** Accounts for a new cache file and evicts when the cache has grown past its limit. */
    method NoteAdded(size: int)
      requires Synced(st.Db())
      modifies this`dir, this`cacheBytes, this`evicting
      ensures evicting == old(evicting)
      ensures cacheMaxBytes <= 0 ==> dir == old(dir) && cacheBytes == old(cacheBytes)
      ensures cacheMaxBytes > 0 ==> cacheBytes - DirSize(dir) == old(cacheBytes) + size - DirSize(old(dir))
      ensures OnlyFinalizedGone(st.Db(), old(dir), dir) && st.Db() == old(st.Db())
      ensures Intact(old(dir)) ==> Intact(dir)
      ensures cacheMaxBytes > 0 && (old(evicting) || old(cacheBytes) + size <= cacheMaxBytes) ==>
                dir == old(dir) && cacheBytes == old(cacheBytes) + size
      ensures cacheMaxBytes > 0 && !old(evicting) && old(cacheBytes) + size > cacheMaxBytes ==>
                Swept(st.Db(), old(dir), old(cacheBytes) + size, dir, cacheBytes, LowMark(cacheMaxBytes))
    {
      if cacheMaxBytes <= 0 {
        return;
      }
      cacheBytes := cacheBytes + size;
      EvictIfNeeded();
    }

    /** Records a read, at most once per interval and object. */
    method Touch(root: Root, last: int, now: int)
      modifies st`objects
      ensures st.Db() == if cacheMaxBytes <= 0 || now - last < TOUCH_INTERVAL then old(st.Db())
                         else Apply(old(st.Db()), TTouch(root, now))
      ensures st.objects == if cacheMaxBytes > 0 && now - last >= 60_000_000_000 && root in old(st.objects)
                            then old(st.objects)[root := old(st.objects)[root].(lastAccess := now)] else old(st.objects)
    {
      if cacheMaxBytes <= 0 || now - last < TOUCH_INTERVAL {
        return;
      }
      st.Touch(root, now);
    }

    /** Whether a new upload must be shed.  When it must, no finalized object has a cache file
        left, so bytes that may not be evicted (and overwritten ones still counted) exceed the
        limit; when it need not, the directory is within the limit. */
    method ShouldRejectWrite() returns (reject: bool)
      requires Valid()
      modifies this`dir, this`cacheBytes, this`evicting
      ensures Valid() && OnlyFinalizedGone(st.Db(), old(dir), dir)
      ensures cacheMaxBytes <= 0 ==> !reject && dir == old(dir)
      ensures reject ==> DirSize(dir) + overwritten > cacheMaxBytes && forall r :: r in dir ==> !Evictable(st.Db(), r)
      ensures !reject && cacheMaxBytes > 0 ==> DirSize(dir) + overwritten <= cacheMaxBytes
    {
      if cacheMaxBytes <= 0 {
        return false;
      }
      EvictIfNeeded();
      return cacheBytes > cacheMaxBytes;
    }

    /** Renames a spooled or downloaded file into the cache. */
    method Materialize(root: Root, content: Bytes)
      modifies this`dir, this`overwritten
      ensures dir == old(dir)[root := content] && st.Db() == old(st.Db())
      ensures Intact(old(dir)) && content == root.content ==> Intact(dir)
      ensures old(Tracked()) && content == root.content ==> Tracked()
      ensures DirSize(dir) + overwritten == DirSize(old(dir)) + old(overwritten) + |content|
    {
      DirSizeWith(dir, root, content);
      overwritten := overwritten + if root in dir then |dir[root]| else 0;
      dir := dir[root := content];
    }

    /** Accounts for a file already in place; what goes then is finalized, and older. */
    method CountIn(size: int)
      requires Tracked() && (cacheMaxBytes > 0 ==> cacheBytes + size == DirSize(dir) + overwritten)
      modifies this`dir, this`cacheBytes, this`evicting
      ensures Valid() && OnlyFinalizedGone(st.Db(), old(dir), dir) && OldestGone(st.Db(), old(dir), dir)
      ensures cacheMaxBytes <= 0 ==> dir == old(dir)
    {
      NoteAdded(size);
    }

    /** A Put's new file under `root`, accounted for; the object is not finalized, so it stays. */
    method AddFile(root: Root, content: Bytes, size: int)
      requires Valid() && content == root.content && size == |content| && !Evictable(st.Db(), root)
      modifies this`dir, this`cacheBytes, this`evicting, this`overwritten
      ensures Valid() && NothingElseGone(st.Db(), old(dir), dir, root)
      ensures root in dir && dir[root] == content
    {
      Materialize(root, content);
      CountIn(size);
    }

    /** Ingests one object; the flag of the reply tells that its content was already known. */
    method Put(input: Bytes, now: int) returns (r: Result<PutReply, PutError>)
      requires Valid() && now >= clock
      modifies this`dir, this`cacheBytes, this`evicting, this`overwritten, this`lastOpen, this`clock, st
      ensures Valid() && clock >= old(clock)
      ensures r.Err? ==> st.Db() == old(st.Db()) && dir == old(dir) && cacheBytes == old(cacheBytes)
      ensures r.Err? && r.error.EmptyObject? <==> input == []
      ensures r.Err? && r.error.TooLarge? <==> maxSize > 0 && |input| > maxSize
      ensures r.Ok? ==>
                var root := Root(input);
                && st.Db() == Stored(old(st.Db()), input, root in old(dir), now)
                && root in st.objects && r.value == PutReply(st.objects[root], root in old(st.objects))
                && (!st.objects[root].status.Finalized? ==>
                      root in dir && dir[root] == if root in old(st.objects) && root in old(dir) then old(dir)[root] else input)
                && NothingElseGone(old(st.Db()), old(dir), dir, root)
      ensures r.Ok? && Root(input) !in old(st.objects) ==>
                st.objects == old(st.objects)[Root(input) :=
                  ObjectMeta(Root(input), Sha(input), |input|, Pending, "", NoFailure, 0, false, now)]
      ensures r.Ok? && Root(input) in old(st.objects) ==>
                var m := old(st.objects)[Root(input)];
                if m.status.Failed? || (!m.status.Finalized? && Root(input) !in old(dir)) then
                  st.objects == old(st.objects)[Root(input) := m.(status := Pending, retries := 0, failReason := NoFailure)]
                else st.Db() == old(st.Db())
    {
      var spool := if maxSize > 0 && |input| > maxSize + 1 then input[..maxSize + 1] else input;
      if |spool| == 0 {
        return Err(EmptyObject);
      }
      if maxSize > 0 && |spool| > maxSize {
        return Err(TooLarge);
      }
      StoredRecords(st.Db(), spool, Root(spool) in dir, now);
      var reply := Admit(spool, now);
      return Ok(reply);
    }

    /** The rest of Put, for spooled content within the limits. */
    method Admit(spool: Bytes, now: int) returns (reply: PutReply)
      requires Valid() && now >= clock && spool != []
      modifies this`dir, this`cacheBytes, this`evicting, this`overwritten, this`lastOpen, this`clock, st
      ensures Valid() && clock >= old(clock)
      ensures var root := Root(spool);
        && st.Db() == Stored(old(st.Db()), spool, root in old(dir), now)
        && root in st.objects && reply == PutReply(st.objects[root], root in old(st.objects))
        && (!st.objects[root].status.Finalized? ==>
              root in dir && dir[root] == if root in old(st.objects) && root in old(dir) then old(dir)[root] else spool)
        && NothingElseGone(old(st.Db()), old(dir), dir, root)
    {
      ShaIndexExact(st.Db(), spool);
      var known := st.BySHA256(Sha(spool));
      if known.Some? {
        var m := known.value;
        var needsCache := !m.status.Finalized? && m.root !in dir;
        if needsCache {
          AddFile(m.root, spool, m.size);
          Rearm(m.root);
          var m' := st.Get(m.root);
          return PutReply(m'.value, true);
        } else if m.status.Failed? {
          Rearm(m.root);
          var m' := st.Get(m.root);
          return PutReply(m'.value, true);
        }
        return PutReply(m, true);
      }
      var root := Root(spool);
      AddFile(root, spool, |spool|);
      Create(spool, now);
      var created := st.Get(root);
      return PutReply(created.value, false);
    }

    /** The store write of a re-arming Put. */
    method Rearm(root: Root)
      requires Valid() && root in st.objects
      modifies st
      ensures Valid() && st.Db() == Apply(old(st.Db()), TReenqueue(root)) && root in st.objects
    {
      IndexedStep(st.Db(), TReenqueue(root));
      ObjectsAfter(st.Db(), TReenqueue(root));
      var _ := st.Reenqueue(root);
    }

    /** The store write of a Put of new content; creation counts as its first access.  Losing
        a race with an identical Put, which CreateObject reports, needs a second Put. */
    method Create(content: Bytes, now: int)
      requires Valid() && content != [] && Root(content) !in st.objects && now >= clock
      modifies this`lastOpen, this`clock, st
      ensures Valid() && st.Db() == Apply(old(st.Db()), TCreate(Protocol.NewRecord(content), now)) && Root(content) in st.objects
      ensures clock >= old(clock)
    {
      var m := Protocol.NewRecord(content);
      SyncedStep(st.Db(), TCreate(m, now));
      IndexedStep(st.Db(), TCreate(m, now));
      ObjectsAfter(st.Db(), TCreate(m, now));
      var _ := st.CreateObject(m, now);
      lastOpen, clock := lastOpen[Root(content) := now], now;
    }

    /** Opens an object's content, restoring it first when its file is missing or truncated;
        `online` tells whether the verified download would succeed. */
    method Open(root: Root, online: bool, now: int) returns (r: Result<Opened, OpenError>)
      requires Valid() && now >= clock
      modifies this`dir, this`cacheBytes, this`evicting, this`overwritten, this`lastOpen, this`clock, st`objects
      ensures Valid() && clock >= old(clock)
      ensures r.Err? && r.error.NotFound? <==> root !in old(st.objects)
      ensures r.Ok? <==> root in old(st.objects) && (online || (root in old(dir) && |old(dir)[root]| == |root.content|))
      ensures r.Ok? ==> r.value == Opened(root.content, old(st.objects)[root]) && lastOpen == old(lastOpen)[root := now]
      ensures st.Db() == old(st.Db()) || (r.Ok? && st.Db() == Apply(old(st.Db()), TTouch(root, now)))
      ensures r.Ok? ==>
                var m, warm := old(st.objects)[root], root in old(dir) && |old(dir)[root]| == |root.content|;
                st.objects == if cacheMaxBytes > 0 && (!warm || now - m.lastAccess >= 60_000_000_000)
                              then old(st.objects)[root := m.(lastAccess := now)] else old(st.objects)
      ensures r.Err? ==> st.Db() == old(st.Db()) && dir == old(dir)
      ensures NothingElseGone(old(st.Db()), old(dir), dir, root)
      ensures r.Ok? && root in dir ==> dir[root] == root.content
      ensures r.Ok? && cacheMaxBytes > 0 && root !in dir ==>
                forall q :: q in dir && Evictable(st.Db(), q) ==> st.objects[q].lastAccess >= now
    {
      var found := st.Get(root);
      if found.None? {
        return Err(NotFound);
      }
      var m := found.value;
      if root in dir && |dir[root]| == m.size {
        Read(root, m.lastAccess, now);
        return Ok(Opened(dir[root], m));
      }
      if !online {
        return Err(RestoreFailed);
      }
      Restore(root, m.size, now);
      return Ok(Opened(root.content, m));
    }

    /** The cold half of Open: the downloaded bytes move into place, the object becomes the
        freshest, then the bytes are accounted for. */
    method Restore(root: Root, size: int, now: int)
      requires Valid() && root in st.objects && size == |root.content| && now >= clock
      modifies this`dir, this`cacheBytes, this`evicting, this`overwritten, this`lastOpen, this`clock, st`objects
      ensures Valid() && clock == now && lastOpen == old(lastOpen)[root := now]
      ensures st.Db() == if cacheMaxBytes > 0 then Apply(old(st.Db()), TTouch(root, now)) else old(st.Db())
      ensures st.objects == if cacheMaxBytes > 0 then old(st.objects)[root := old(st.objects)[root].(lastAccess := now)]
                            else old(st.objects)
      ensures NothingElseGone(old(st.Db()), old(dir), dir, root)
      ensures root in dir ==> dir[root] == root.content
      ensures cacheMaxBytes <= 0 ==> root in dir
      ensures root !in dir ==> forall q :: q in dir && Evictable(st.Db(), q) ==> st.objects[q].lastAccess >= now
    {
      Materialize(root, root.content);
      Refresh(root, now);
      CountIn(size);
      PlacedThenSwept(old(st.Db()), st.Db(), old(dir), dir, root, root.content);
    }

    /** A warm read. */
    method Read(root: Root, last: int, now: int)
      requires Valid() && root in st.objects && last == st.objects[root].lastAccess && now >= clock
      modifies this`lastOpen, this`clock, st`objects
      ensures Valid() && clock == now && lastOpen == old(lastOpen)[root := now]
      ensures st.Db() == old(st.Db()) || st.Db() == Apply(old(st.Db()), TTouch(root, now))
      ensures st.objects == if cacheMaxBytes > 0 && now - last >= 60_000_000_000
                            then old(st.objects)[root := old(st.objects)[root].(lastAccess := now)] else old(st.objects)
    {
      if cacheMaxBytes > 0 {
        if now - last < TOUCH_INTERVAL {
          SkipIsRecent(st.objects, root, now, lastOpen, clock);
        } else {
          TouchIsRecent(st.Db(), root, now, lastOpen, clock);
        }
      }
      Touch(root, last, now);
      lastOpen, clock := lastOpen[root := now], now;
    }

    /** A cold read marks the object freshest before its bytes are accounted for, so it is not
        the sweep's first victim. */
    method Refresh(root: Root, now: int)
      requires Tracked() && root in st.objects && now >= clock
      modifies this`lastOpen, this`clock, st`objects
      ensures Tracked() && clock == now && lastOpen == old(lastOpen)[root := now]
      ensures st.Db() == if cacheMaxBytes > 0 then Apply(old(st.Db()), TTouch(root, now)) else old(st.Db())
      ensures st.objects == if cacheMaxBytes > 0 then old(st.objects)[root := old(st.objects)[root].(lastAccess := now)]
                            else old(st.objects)
      ensures cacheMaxBytes > 0 ==> root in st.objects && st.objects[root].lastAccess == now
      ensures forall q :: Evictable(st.Db(), q) <==> Evictable(old(st.Db()), q)
    {
      TouchIsRecent(st.Db(), root, now, lastOpen, clock);
      if cacheMaxBytes > 0 {
        st.Touch(root, now);
      }
      lastOpen, clock := lastOpen[root := now], now;
    }
  }
}
