/** The metadata store: six bbolt buckets, each mutator one transaction.  Every transaction is
    given twice: as a function on database values, which the protocol and the lemmas use, and
    as a method of class Store, which is proved to compute that function. */
module MetaStore {
  import opened Outcomes
  import opened Content
  import opened KeyOrder

  datatype Status = Pending | Submitted | Onchain | Finalized | Failed

  /** Why an object failed; NoFailure is the empty reason. */
  datatype FailReason = NoFailure | RetriesExhausted | PrunedOnNodes

  datatype ObjectMeta = ObjectMeta(
    root: Root, sha: Sha, size: int, status: Status, txHash: string, failReason: FailReason,
    retries: nat, skipTx: bool, lastAccess: int)

  datatype CacheEntry = CacheEntry(root: Root, size: int, lastAccess: int)

  datatype S3Object = S3Object(key: string, meta: ObjectMeta)

  datatype StoreError = Exists | UnknownObject | BucketExists | BucketNotFound | BucketNotEmpty

  datatype DB = DB(
    objects: map<Root, ObjectMeta>,
    bySha: map<Sha, Root>,
    qUpload: set<Root>,
    qFinalize: set<Root>,
    buckets: set<string>,
    keys: map<string, Root>)

  const EMPTY := DB(map[], map[], {}, {}, {}, map[])

  predicate AwaitsUpload(s: Status) {
    s.Pending? || s.Submitted?
  }

  // ---- record updates passed to `mutate` ----

  function WithStatus(m: ObjectMeta, st: Status, tx: string, reason: FailReason): ObjectMeta {
    m.(status := st,
       txHash := if tx != "" then tx else m.txHash,
       failReason := if !reason.NoFailure? then reason else m.failReason)
  }

  function Rearmed(m: ObjectMeta): ObjectMeta {
    m.(status := Pending, retries := 0, failReason := NoFailure)
  }

  function Counted(m: ObjectMeta): ObjectMeta {
    m.(retries := m.retries + 1)
  }

  function WithSkipTx(m: ObjectMeta, v: bool): ObjectMeta {
    m.(skipTx := v)
  }

  // ---- object transactions ----

  datatype ObjTxn =
    | TCreate(m: ObjectMeta, now: int)
    | TSetStatus(r: Root, st: Status, tx: string, reason: FailReason)
    | TReenqueue(r: Root)
    | TIncRetries(r: Root)
    | TSetSkipTx(r: Root, v: bool)
    | TTouch(r: Root, at: int)

  /** The record a transaction on an existing object leaves. */
  function After(m: ObjectMeta, t: ObjTxn): ObjectMeta {
    match t
    case TCreate(_, _) => m
    case TSetStatus(_, st, tx, reason) => WithStatus(m, st, tx, reason)
    case TReenqueue(_) => Rearmed(m)
    case TIncRetries(_) => Counted(m)
    case TSetSkipTx(_, v) => WithSkipTx(m, v)
    case TTouch(_, at) => m.(lastAccess := at)
  }

  /** The record is stored and its queue membership recomputed from its status. */
  function Commit(db: DB, m: ObjectMeta): DB {
    db.(objects := db.objects[m.root := m],
        qUpload := if AwaitsUpload(m.status) then db.qUpload + {m.root} else db.qUpload - {m.root},
        qFinalize := if m.status.Onchain? then db.qFinalize + {m.root} else db.qFinalize - {m.root})
  }

  function Created(db: DB, m: ObjectMeta, now: int): DB {
    if m.root in db.objects then db
    else Commit(db.(bySha := db.bySha[m.sha := m.root]), m.(lastAccess := now))
  }

  /** One object transaction; on a missing object, or for an existing root, nothing changes. */
  function Apply(db: DB, t: ObjTxn): DB {
    if t.TCreate? then Created(db, t.m, t.now)
    else if t.r !in db.objects then db
    else if t.TTouch? then db.(objects := db.objects[t.r := After(db.objects[t.r], t)])
    else Commit(db, After(db.objects[t.r], t))
  }

  // ---- bucket and key transactions ----

  datatype KeyTxn =
    | TCreateBucket(b: string)
    | TDeleteBucket(b: string)
    | TForceDeleteBucket(b: string)
    | TPutKey(b: string, k: string, root: Root)
    | TDeleteKey(b: string, k: string)

  predicate BucketHasKeys(db: DB, b: string) {
    exists ck :: ck in db.keys && HasPrefix(ck, Prefix(b))
  }

  function ApplyKey(db: DB, t: KeyTxn): DB {
    match t
    case TCreateBucket(b) => db.(buckets := db.buckets + {b})
    case TDeleteBucket(b) => if BucketHasKeys(db, b) then db else db.(buckets := db.buckets - {b})
    case TForceDeleteBucket(b) =>
      if b !in db.buckets then db
      else
        db.(buckets := db.buckets - {b},
            keys := map ck | ck in db.keys && !HasPrefix(ck, Prefix(b)) :: db.keys[ck])
    case TPutKey(b, k, r) => if b in db.buckets then db.(keys := db.keys[Composite(b, k) := r]) else db
    case TDeleteKey(b, k) => db.(keys := db.keys - {Composite(b, k)})
  }

  // ---- runs of transactions ----

  datatype Txn = Obj(o: ObjTxn) | Key(k: KeyTxn)

  function Committed(db: DB, t: Txn): DB {
    match t
    case Obj(o) => Apply(db, o)
    case Key(k) => ApplyKey(db, k)
  }

  /** The committed transactions of any interleaving, in commit order.  A crash ends a run
      and the next one starts from the same database. */
  function CommitAll(db: DB, ts: seq<Txn>): DB
    decreases |ts|
  {
    if ts == [] then db else CommitAll(Committed(db, ts[0]), ts[1..])
  }

  // ---- invariants ----

  /** Records sit under their own root and the queues are a function of status. */
  ghost predicate Synced(db: DB) {
    && (forall r :: r in db.objects ==> db.objects[r].root == r)
    && (forall r :: r in db.qUpload <==> r in db.objects && AwaitsUpload(db.objects[r].status))
    && (forall r :: r in db.qFinalize <==> r in db.objects && db.objects[r].status.Onchain?)
  }

  /** A record describes the bytes its root addresses. */
  predicate Describes(m: ObjectMeta) {
    m.sha == Sha(m.root.content) && m.size == |m.root.content| > 0
  }

  /** The sha index and the object map are inverse to each other. */
  ghost predicate Indexed(db: DB) {
    && (forall r :: r in db.objects ==> Describes(db.objects[r]))
    && (forall r :: r in db.objects ==> Sha(r.content) in db.bySha)
    && (forall h :: h in db.bySha ==> db.bySha[h] == Root(h.content) && Root(h.content) in db.objects)
  }

  /** No key lies under a missing bucket and every mapped root has metadata. */
  ghost predicate Homed(db: DB) {
    && (forall b :: b in db.buckets ==> SlashFree(b))
    && (forall ck {:trigger db.keys[ck]} :: ck in db.keys ==> exists b :: b in db.buckets && HasPrefix(ck, Prefix(b)))
    && (forall ck :: ck in db.keys ==> db.keys[ck] in db.objects)
  }

  ghost predicate Sound(db: DB) {
    Synced(db) && Indexed(db) && Homed(db)
  }

  /** What callers hand to a transaction: creations describe their content, bucket names obey
      the S3 rule, keys are only mapped to recorded roots. */
  predicate WellFormed(db: DB, t: Txn) {
    match t
    case Obj(TCreate(m, now)) => Describes(m)
    case Key(TCreateBucket(b)) => SlashFree(b)
    case Key(TPutKey(b, k, r)) => r in db.objects
    case Key(TDeleteKey(b, k)) => SlashFree(b)
    case _ => true
  }

  ghost predicate WellFormedRun(db: DB, ts: seq<Txn>)
    decreases |ts|
  {
    ts != [] ==> WellFormed(db, ts[0]) && WellFormedRun(Committed(db, ts[0]), ts[1..])
  }

  lemma SyncedStep(db: DB, t: ObjTxn)
    requires Synced(db)
    ensures Synced(Apply(db, t))
  {
  }

  /** What an object transaction does to the records. */
  lemma ObjectsAfter(db: DB, t: ObjTxn)
    requires Synced(db)
    ensures Apply(db, t).objects ==
            if t.TCreate? then
              if t.m.root in db.objects then db.objects else db.objects[t.m.root := t.m.(lastAccess := t.now)]
            else if t.r in db.objects then db.objects[t.r := After(db.objects[t.r], t)]
            else db.objects
  {
  }

  lemma KeyLeavesObjects(db: DB, t: KeyTxn)
    ensures var db' := ApplyKey(db, t);
      && db'.objects == db.objects && db'.bySha == db.bySha
      && db'.qUpload == db.qUpload && db'.qFinalize == db.qFinalize
  {
  }

  lemma SyncedCommit(db: DB, t: Txn)
    requires Synced(db)
    ensures Synced(Committed(db, t))
  {
    match t
    case Obj(o) => SyncedStep(db, o);
    case Key(k) => KeyLeavesObjects(db, k);
  }

  /** Queue membership after any sequence of transactions, whatever their arguments. */
  lemma {:induction false} QueuesFollowStatus(db: DB, ts: seq<Txn>)
    requires Synced(db)
    ensures Synced(CommitAll(db, ts))
    ensures var db' := CommitAll(db, ts);
      && (forall r :: r in db'.qUpload <==>
                r in db'.objects && (db'.objects[r].status.Pending? || db'.objects[r].status.Submitted?))
      && (forall r :: r in db'.qFinalize <==> r in db'.objects && db'.objects[r].status.Onchain?)
      && db'.qUpload !! db'.qFinalize
    decreases |ts|
  {
    if ts != [] {
      SyncedCommit(db, ts[0]);
      QueuesFollowStatus(Committed(db, ts[0]), ts[1..]);
    }
  }

  lemma KeyKeepsRecords(db: DB, t: KeyTxn)
    requires Synced(db) && Indexed(db)
    ensures Synced(ApplyKey(db, t)) && Indexed(ApplyKey(db, t)) && ApplyKey(db, t).objects == db.objects
  {
    KeyLeavesObjects(db, t);
  }

  lemma HomedByObjects(db: DB, db': DB)
    requires Homed(db) && db'.buckets == db.buckets && db'.keys == db.keys && db.objects.Keys <= db'.objects.Keys
    ensures Homed(db')
  {
  }

  /** Bucket deletion interleaved anywhere leaves no key without its bucket. */
  lemma HomedStep(db: DB, t: Txn)
    requires Homed(db) && Synced(db) && WellFormed(db, t)
    ensures Homed(Committed(db, t))
  {
    match t {
      case Obj(o) =>
        ObjectsAfter(db, o);
        HomedByObjects(db, Committed(db, t));
      case Key(k) =>
        var db' := ApplyKey(db, k);
        forall ck | ck in db'.keys
          ensures exists b :: b in db'.buckets && HasPrefix(ck, Prefix(b))
        {
          if k.TPutKey? && ck == Composite(k.b, k.k) && k.b in db.buckets {
            assert HasPrefix(ck, Prefix(k.b));
          } else {
            var b :| b in db.buckets && HasPrefix(ck, Prefix(b));
            assert b in db'.buckets;
          }
        }
    }
  }

  lemma CommitKeepsIndexed(db: DB, m: ObjectMeta)
    requires Indexed(db) && m.root in db.objects && Describes(m)
    ensures Indexed(Commit(db, m))
  {
    assert Commit(db, m).objects.Keys == db.objects.Keys;
  }

  lemma CreateKeepsIndexed(db: DB, m: ObjectMeta, now: int)
    requires Indexed(db) && m.root !in db.objects && Describes(m)
    ensures Indexed(Created(db, m, now))
  {
    var db' := Created(db, m, now);
    assert m.root == Root(m.sha.content);
    assert db'.objects.Keys == db.objects.Keys + {m.root};
    forall r | r in db'.objects
      ensures Describes(db'.objects[r]) && Sha(r.content) in db'.bySha
    {
      if r != m.root {
        assert r in db.objects;
      }
    }
  }

  lemma IndexedStep(db: DB, t: ObjTxn)
    requires Indexed(db) && Synced(db) && (t.TCreate? ==> Describes(t.m))
    ensures Indexed(Apply(db, t))
  {
    if t.TCreate? {
      if t.m.root !in db.objects {
        CreateKeepsIndexed(db, t.m, t.now);
      }
    } else if t.r in db.objects {
      assert Describes(After(db.objects[t.r], t));
      CommitKeepsIndexed(db, After(db.objects[t.r], t));
    }
  }

  /** Every run of well-formed transactions keeps the store sound. */
  lemma {:induction false} RunKeepsSound(db: DB, ts: seq<Txn>)
    requires Sound(db) && WellFormedRun(db, ts)
    ensures Sound(CommitAll(db, ts))
    decreases |ts|
  {
    if ts != [] {
      HomedStep(db, ts[0]);
      if ts[0].Obj? {
        SyncedStep(db, ts[0].o);
        IndexedStep(db, ts[0].o);
      }
      RunKeepsSound(Committed(db, ts[0]), ts[1..]);
    }
  }

  /** Equal contents have one record under one root, found by hash. */
  lemma ShaIndexExact(db: DB, content: Bytes)
    requires Indexed(db)
    ensures Sha(content) in db.bySha <==> Root(content) in db.objects
    ensures Sha(content) in db.bySha ==> db.bySha[Sha(content)] == Root(content)
  {
    if Root(content) in db.objects {
      assert Sha(Root(content).content) in db.bySha;
    }
    if Sha(content) in db.bySha {
      assert db.bySha[Sha(content)] == Root(Sha(content).content);
    }
  }

  lemma TxHashAfter(db: DB, t: Txn, r: Root)
    requires Synced(db) && r in db.objects
    ensures r in Committed(db, t).objects
    ensures db.objects[r].txHash != "" ==> Committed(db, t).objects[r].txHash != ""
  {
    match t
    case Obj(o) => ObjectsAfter(db, o);
    case Key(k) => KeyLeavesObjects(db, k);
  }

  /** Records are never dropped and a transaction hash, once set, is never erased. */
  lemma {:induction false} TxHashNeverErased(db: DB, ts: seq<Txn>, r: Root)
    requires Synced(db) && r in db.objects
    ensures r in CommitAll(db, ts).objects
    ensures db.objects[r].txHash != "" ==> CommitAll(db, ts).objects[r].txHash != ""
    decreases |ts|
  {
    if ts != [] {
      SyncedCommit(db, ts[0]);
      TxHashAfter(db, ts[0], r);
      TxHashNeverErased(Committed(db, ts[0]), ts[1..], r);
    }
  }

  // ---- listings ----

  ghost predicate Distinct(rs: seq<Root>) {
    forall i, j :: 0 <= i < j < |rs| ==> rs[i] != rs[j]
  }

  function Roots(ms: seq<ObjectMeta>): (rs: seq<Root>)
    ensures |rs| == |ms| && forall i :: 0 <= i < |ms| ==> rs[i] == ms[i].root
  {
    seq(|ms|, i requires 0 <= i < |ms| => ms[i].root)
  }

  /** Records in the byte order of their roots' keys. */
  ghost predicate InKeyOrder(ms: seq<ObjectMeta>) {
    forall i, j :: 0 <= i < j < |ms| ==> Less(RootKey(ms[i].root), RootKey(ms[j].root))
  }

  /** `out` holds the records of `queue` but for `rest`, whose keys all come later. */
  ghost predicate FirstOf(objects: map<Root, ObjectMeta>, queue: set<Root>, out: seq<ObjectMeta>, rest: set<Root>)
    requires queue <= objects.Keys
  {
    && (forall m :: m in out ==> m.root in queue && m.root !in rest && m == objects[m.root])
    && (forall r :: r in queue && r !in rest ==> objects[r] in out)
    && (forall m, r :: m in out && r in rest ==> Less(RootKey(m.root), RootKey(r)))
  }

  /** A queue listing: the first `limit` records in key order, or all of them. */
  ghost predicate ListsQueue(objects: map<Root, ObjectMeta>, queue: set<Root>, limit: int, out: seq<ObjectMeta>)
    requires queue <= objects.Keys
  {
    && InKeyOrder(out)
    && |out| == (if limit <= 0 || |queue| <= limit then |queue| else limit)
    && (forall m :: m in out ==> m.root in queue && m == objects[m.root])
    && (limit <= 0 || |queue| <= limit ==> forall r :: r in queue ==> objects[r] in out)
    && (forall m, r :: m in out && r in queue && objects[r] !in out ==> Less(RootKey(m.root), RootKey(r)))
  }

  lemma AppendInOrder(objects: map<Root, ObjectMeta>, queue: set<Root>, out: seq<ObjectMeta>, rest: set<Root>, r: Root)
    requires queue <= objects.Keys && (forall q :: q in queue ==> objects[q].root == q)
    requires InKeyOrder(out) && FirstOf(objects, queue, out, rest) && r in rest && rest <= queue
    requires forall q :: q in rest && q != r ==> Less(RootKey(r), RootKey(q))
    ensures InKeyOrder(out + [objects[r]]) && FirstOf(objects, queue, out + [objects[r]], rest - {r})
  {
    var out' := out + [objects[r]];
    assert forall i :: 0 <= i < |out| ==> out'[i] == out[i] && out[i] in out;
    assert forall m :: m in out' <==> m in out || m == objects[r];
  }

  lemma InOrderOnce(out: seq<ObjectMeta>)
    requires InKeyOrder(out)
    ensures Distinct(Roots(out))
  {
    forall i, j | 0 <= i < j < |out|
      ensures out[i].root != out[j].root
    {
      LessIrreflexive(RootKey(out[i].root));
    }
  }

  /** The cursor's next stop: the root of `rest` with the least key. */
  method FirstRoot(rest: set<Root>) returns (r: Root)
    requires rest != {}
    ensures r in rest && forall q :: q in rest && q != r ==> Less(RootKey(r), RootKey(q))
  {
    r :| r in rest;
    var todo := rest - {r};
    while todo != {}
      invariant r in rest && todo <= rest && r !in todo
      invariant forall q :: q in rest - todo && q != r ==> Less(RootKey(r), RootKey(q))
      decreases |todo|
    {
      var q :| q in todo;
      if Less(RootKey(q), RootKey(r)) {
        forall p | p in rest - todo && p != r
          ensures Less(RootKey(q), RootKey(p))
        {
          LessTransitive(RootKey(q), RootKey(r), RootKey(p));
        }
        r := q;
      } else {
        LessTotal(RootKey(q), RootKey(r));
        if RootKey(q) == RootKey(r) {
          RootKeyInjective(q, r);
        }
      }
      todo := todo - {q};
    }
  }

  /** No object has two entries. */
  ghost predicate OneEach(es: seq<CacheEntry>) {
    forall i, j :: 0 <= i < j < |es| ==> es[i].root != es[j].root
  }

  /** A listing names each finalized object exactly once. */
  ghost predicate ListsFinalized(db: DB, es: seq<CacheEntry>) {
    && OneEach(es)
    && (forall e :: e in es ==>
          && e.root in db.objects && db.objects[e.root].status.Finalized?
          && e.size == db.objects[e.root].size && e.lastAccess == db.objects[e.root].lastAccess)
    && (forall r :: r in db.objects && db.objects[r].status.Finalized? ==>
          exists e :: e in es && e.root == r)
  }

  /** An S3 listing holds exactly the bucket's resolvable keys, in byte order. */
  ghost predicate ListsBucket(db: DB, b: string, os: seq<S3Object>) {
    && (forall i, j :: 0 <= i < j < |os| ==> Less(os[i].key, os[j].key))
    && (forall o :: o in os ==>
          && Composite(b, o.key) in db.keys && db.keys[Composite(b, o.key)] in db.objects
          && o.meta == db.objects[db.keys[Composite(b, o.key)]])
    && (forall k {:trigger Composite(b, k)} :: Composite(b, k) in db.keys && db.keys[Composite(b, k)] in db.objects ==>
          exists o :: o in os && o.key == k)
  }

  class Store {
    var objects: map<Root, ObjectMeta>
    var bySha: map<Sha, Root>
    var qUpload: set<Root>
    var qFinalize: set<Root>
    var buckets: set<string>
    var keys: map<string, Root>

    ghost function Db(): DB
      reads this
    {
      DB(objects, bySha, qUpload, qFinalize, buckets, keys)
    }

    /** Opens the database file: whatever was committed is there. */
    constructor Open(db: DB)
      ensures Db() == db
    {
      objects, bySha, qUpload, qFinalize, buckets, keys :=
        db.objects, db.bySha, db.qUpload, db.qFinalize, db.buckets, db.keys;
    }

    method Requeue(m: ObjectMeta)
      modifies this`qUpload, this`qFinalize
      ensures Db().(objects := objects[m.root := m]) == Commit(old(Db()), m)
      ensures qUpload == if m.status.Pending? || m.status.Submitted? then old(qUpload) + {m.root} else old(qUpload) - {m.root}
      ensures qFinalize == if m.status.Onchain? then old(qFinalize) + {m.root} else old(qFinalize) - {m.root}
    {
      qUpload := qUpload - {m.root};
      qFinalize := qFinalize - {m.root};
      match m.status {
        case Pending | Submitted => qUpload := qUpload + {m.root};
        case Onchain => qFinalize := qFinalize + {m.root};
        case _ =>
      }
    }

    method CreateObject(m: ObjectMeta, now: int) returns (r: Result<(), StoreError>)
      modifies this
      ensures Db() == Apply(old(Db()), TCreate(m, now))
      ensures m.root !in old(objects) ==>
                objects == old(objects)[m.root := m.(lastAccess := now)] && bySha == old(bySha)[m.sha := m.root]
      ensures m.root in old(objects) ==> Db() == old(Db())
      ensures r == if m.root in old(objects) then Err(Exists) else Ok(())
    {
      if m.root in objects {
        return Err(Exists);
      }
      var m' := m.(lastAccess := now);
      objects := objects[m'.root := m'];
      bySha := bySha[m'.sha := m'.root];
      Requeue(m');
      return Ok(());
    }

    method Get(root: Root) returns (m: Option<ObjectMeta>)
      ensures m == if root in objects then Some(objects[root]) else None
    {
      if root in objects {
        return Some(objects[root]);
      }
      return None;
    }

    method BySHA256(sha: Sha) returns (m: Option<ObjectMeta>)
      ensures m == if sha in bySha && bySha[sha] in objects then Some(objects[bySha[sha]]) else None
    {
      if sha !in bySha {
        return None;
      }
      m := Get(bySha[sha]);
    }

    /** Applies `fn` to an existing record inside one transaction. */
    method Mutate(root: Root, fn: ObjectMeta -> ObjectMeta) returns (r: Result<ObjectMeta, StoreError>)
      requires root in objects ==> fn(objects[root]).root == root
      modifies this
      ensures root in old(objects) ==>
                r == Ok(fn(old(objects)[root])) && Db() == Commit(old(Db()), fn(old(objects)[root]))
      ensures root !in old(objects) ==> r == Err(UnknownObject) && Db() == old(Db())
    {
      if root !in objects {
        return Err(UnknownObject);
      }
      var m := fn(objects[root]);
      objects := objects[m.root := m];
      Requeue(m);
      return Ok(m);
    }

    method SetStatus(root: Root, st: Status, tx: string, reason: FailReason) returns (ok: bool)
      requires Synced(Db())
      modifies this
      ensures Db() == Apply(old(Db()), TSetStatus(root, st, tx, reason))
      ensures root in old(objects) ==>
                var m := old(objects)[root];
                objects == old(objects)[root := m.(status := st, txHash := if tx == "" then m.txHash else tx,
                                                   failReason := if reason.NoFailure? then m.failReason else reason)]
      ensures Synced(Db())
      ensures ok <==> root in old(objects)
    {
      var r := Mutate(root, m => WithStatus(m, st, tx, reason));
      ok := r.Ok?;
    }

    method Reenqueue(root: Root) returns (ok: bool)
      requires Synced(Db())
      modifies this
      ensures Db() == Apply(old(Db()), TReenqueue(root))
      ensures root in old(objects) ==>
                objects == old(objects)[root := old(objects)[root].(status := Pending, retries := 0, failReason := NoFailure)]
      ensures Synced(Db())
      ensures ok <==> root in old(objects)
    {
      var r := Mutate(root, m => Rearmed(m));
      ok := r.Ok?;
    }

    method IncRetries(root: Root) returns (r: Result<nat, StoreError>)
      requires Synced(Db())
      modifies this
      ensures Db() == Apply(old(Db()), TIncRetries(root))
      ensures root in old(objects) ==>
                objects == old(objects)[root := old(objects)[root].(retries := old(objects)[root].retries + 1)]
      ensures Synced(Db())
      ensures r == if root in old(objects) then Ok(old(objects)[root].retries + 1) else Err(UnknownObject)
    {
      var m := Mutate(root, m => Counted(m));
      match m {
        case Ok(m) => r := Ok(m.retries);
        case Err(e) => r := Err(e);
      }
    }

    method SetSkipTx(root: Root, v: bool) returns (ok: bool)
      requires Synced(Db())
      modifies this
      ensures Db() == Apply(old(Db()), TSetSkipTx(root, v))
      ensures root in old(objects) ==> objects == old(objects)[root := old(objects)[root].(skipTx := v)]
      ensures Synced(Db())
      ensures ok <==> root in old(objects)
    {
      var r := Mutate(root, m => WithSkipTx(m, v));
      ok := r.Ok?;
    }

    /** A read is not a state transition: no queue is touched. */
    method Touch(root: Root, at: int)
      modifies this`objects
      ensures Db() == Apply(old(Db()), TTouch(root, at))
      ensures objects == if root in old(objects) then old(objects)[root := old(objects)[root].(lastAccess := at)] else old(objects)
    {
      if root in objects {
        objects := objects[root := objects[root].(lastAccess := at)];
      }
    }

    method FinalizedCacheEntries() returns (out: seq<CacheEntry>)
      requires Synced(Db())
      ensures ListsFinalized(Db(), out)
    {
      out := [];
      var rest := objects.Keys;
      while rest != {}
        invariant rest <= objects.Keys
        invariant ListsFinalized(Db().(objects := map r | r in objects && r !in rest :: objects[r]), out)
        decreases |rest|
      {
        var r :| r in rest;
        var m := objects[r];
        ghost var before := out;
        if m.status.Finalized? {
          out := out + [CacheEntry(m.root, m.size, m.lastAccess)];
          assert out[|before|].root == r;
        }
        forall q | q in objects && q !in rest - {r} && objects[q].status.Finalized?
          ensures exists e :: e in out && e.root == q
        {
          if q != r {
            var known := map p | p in objects && p !in rest :: objects[p];
            assert q in known && known[q].status.Finalized?;
            var e :| e in before && e.root == q;
            assert e in out;
          } else {
            assert out[|before|] in out;
          }
        }
        rest := rest - {r};
      }
      assert (map r | r in objects && r !in rest :: objects[r]) == objects;
    }

    /** Snapshot of a task queue in key order; limit <= 0 means all. */
    method ListQueue(queue: set<Root>, limit: int) returns (out: seq<ObjectMeta>)
      requires Synced(Db()) && queue <= objects.Keys
      ensures ListsQueue(objects, queue, limit, out) && Distinct(Roots(out))
    {
      out := [];
      var rest := queue;
      while rest != {} && !(limit > 0 && |out| >= limit)
        invariant rest <= queue && |out| + |rest| == |queue|
        invariant limit > 0 ==> |out| <= limit
        invariant InKeyOrder(out) && FirstOf(objects, queue, out, rest)
        decreases |rest|
      {
        var r := FirstRoot(rest);
        AppendInOrder(objects, queue, out, rest, r);
        out := out + [objects[r]];
        rest := rest - {r};
      }
      InOrderOnce(out);
      forall r | r in queue && objects[r] !in out
        ensures r in rest
      {
      }
    }

    method UploadQueue(limit: int) returns (out: seq<ObjectMeta>)
      requires Synced(Db())
      ensures ListsQueue(objects, qUpload, limit, out) && Distinct(Roots(out))
    {
      out := ListQueue(qUpload, limit);
    }

    method FinalizeQueue(limit: int) returns (out: seq<ObjectMeta>)
      requires Synced(Db())
      ensures ListsQueue(objects, qFinalize, limit, out) && Distinct(Roots(out))
    {
      out := ListQueue(qFinalize, limit);
    }

    // ---- S3 buckets and keys ----

    method S3CreateBucket(name: string) returns (r: Result<(), StoreError>)
      modifies this`buckets
      ensures Db() == ApplyKey(old(Db()), TCreateBucket(name))
      ensures r == if name in old(buckets) then Err(BucketExists) else Ok(())
    {
      if name in buckets {
        return Err(BucketExists);
      }
      buckets := buckets + {name};
      return Ok(());
    }

    method HasKeys(name: string) returns (has: bool)
      ensures has <==> BucketHasKeys(Db(), name)
    {
      var k := Seek(keys.Keys, Prefix(name));
      has := k.Some? && HasPrefix(k.value, Prefix(name));
      ScanStart(keys.Keys, Prefix(name), k);
    }

    method S3DeleteBucket(name: string) returns (r: Result<(), StoreError>)
      modifies this`buckets
      ensures Db() == ApplyKey(old(Db()), TDeleteBucket(name))
      ensures r == if name !in old(buckets) then Err(BucketNotFound)
                   else if BucketHasKeys(old(Db()), name) then Err(BucketNotEmpty) else Ok(())
    {
      if name !in buckets {
        assert buckets - {name} == buckets;
        return Err(BucketNotFound);
      }
      var has := HasKeys(name);
      if has {
        return Err(BucketNotEmpty);
      }
      buckets := buckets - {name};
      return Ok(());
    }

    method S3ForceDeleteBucket(name: string) returns (r: Result<(), StoreError>)
      modifies this`buckets, this`keys
      ensures Db() == ApplyKey(old(Db()), TForceDeleteBucket(name))
      ensures r == if name in old(buckets) then Ok(()) else Err(BucketNotFound)
    {
      if name !in buckets {
        return Err(BucketNotFound);
      }
      var pfx := Prefix(name);
      var k := Seek(keys.Keys, pfx);
      ghost var done: set<string> := {};
      ScanStart(keys.Keys, pfx, k);
      while k.Some? && HasPrefix(k.value, pfx)
        invariant done <= old(keys).Keys
        invariant Visited(old(keys).Keys, pfx, k, done)
        invariant keys == old(keys) - done && buckets == old(buckets)
        decreases old(keys).Keys - done
      {
        var next := Next(keys.Keys, k.value);
        forall j | j in done
          ensures !Less(k.value, j)
        {
          LessAsymmetric(j, k.value);
        }
        ScanAdvance(old(keys).Keys, pfx, k.value, next, done);
        keys := keys - {k.value};
        done := done + {k.value};
        k := next;
      }
      buckets := buckets - {name};
      assert forall ck :: ck in old(keys) && HasPrefix(ck, pfx) ==> ck in done;
      assert keys == ApplyKey(old(Db()), TForceDeleteBucket(name)).keys;
      return Ok(());
    }

    method S3PutObjectKey(bucket: string, key: string, root: Root) returns (r: Result<(), StoreError>)
      modifies this`keys
      ensures Db() == ApplyKey(old(Db()), TPutKey(bucket, key, root))
      ensures r == if bucket in buckets then Ok(()) else Err(BucketNotFound)
    {
      if bucket !in buckets {
        return Err(BucketNotFound);
      }
      keys := keys[Composite(bucket, key) := root];
      return Ok(());
    }

    method S3GetObjectKey(bucket: string, key: string) returns (root: Option<Root>)
      ensures root == if Composite(bucket, key) in keys then Some(keys[Composite(bucket, key)]) else None
    {
      var ck := Composite(bucket, key);
      root := if ck in keys then Some(keys[ck]) else None;
    }

    method S3DeleteObjectKey(bucket: string, key: string)
      modifies this`keys
      ensures Db() == ApplyKey(old(Db()), TDeleteKey(bucket, key))
    {
      keys := keys - {Composite(bucket, key)};
    }

    method S3ListObjects(bucket: string) returns (out: seq<S3Object>)
      ensures ListsBucket(Db(), bucket, out)
    {
      out := [];
      var pfx := Prefix(bucket);
      var k := Seek(keys.Keys, pfx);
      ghost var done: set<string> := {};
      ScanStart(keys.Keys, pfx, k);
      while k.Some? && HasPrefix(k.value, pfx)
        invariant done <= keys.Keys
        invariant Visited(keys.Keys, pfx, k, done)
        invariant ListsBucket(Db().(keys := map ck | ck in keys && ck in done :: keys[ck]), bucket, out)
        decreases keys.Keys - done
      {
        var next := Next(keys.Keys, k.value);
        ScanAdvance(keys.Keys, pfx, k.value, next, done);
        var key := k.value[|pfx|..];
        assert k.value == Composite(bucket, key);
        ghost var before := out;
        if keys[k.value] in objects {
          forall o | o in out
            ensures Less(o.key, key)
          {
            assert Composite(bucket, o.key) in done;
            LessSuffix(pfx, o.key, key);
          }
          out := out + [S3Object(key, objects[keys[k.value]])];
        }
        forall key' {:trigger Composite(bucket, key')} |
            Composite(bucket, key') in done + {k.value} && keys[Composite(bucket, key')] in objects
          ensures exists o :: o in out && o.key == key'
        {
          if Composite(bucket, key') in done {
            var o :| o in before && o.key == key';
            assert o in out;
          } else {
            assert key' == Composite(bucket, key')[|pfx|..] == key;
            assert out[|before|] in out;
          }
        }
        done := done + {k.value};
        k := next;
      }
    }
  }
}
