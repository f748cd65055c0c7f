/** What S3 clients see of the store: a plain map bucket -> key -> bytes.  Every transaction,
    of whatever component and in whatever interleaving, acts on that map as the S3 operation
    it belongs to, or not at all. */
module S3View {
  import opened Outcomes
  import opened Content
  import opened KeyOrder
  import opened MetaStore

  type Bucket = map<string, Bytes>
  type Buckets = map<string, Bucket>

  /** The keys the flat index holds for a bucket. */
  function KeysOf(db: DB, b: string): (ks: set<string>)
    ensures forall k {:trigger Composite(b, k)} :: k in ks <==> Composite(b, k) in db.keys
  {
    var ks := set ck | ck in db.keys && HasPrefix(ck, Prefix(b)) :: ck[|b| + 1..];
    assert forall k {:trigger Composite(b, k)} :: Composite(b, k) in db.keys ==> k in ks by {
      forall k {:trigger Composite(b, k)} | Composite(b, k) in db.keys
        ensures k in ks
      {
        var ck := Composite(b, k);
        assert HasPrefix(ck, Prefix(b)) && ck[|b| + 1..] == k;
      }
    }
    assert forall ck :: ck in db.keys && HasPrefix(ck, Prefix(b)) ==> ck == Composite(b, ck[|b| + 1..]);
    ks
  }

  function Mapped(db: DB, b: string, k: string): Bytes
    requires Composite(b, k) in db.keys
  {
    db.keys[Composite(b, k)].content
  }

  function Holds(db: DB, b: string): Bucket {
    map k | k in KeysOf(db, b) :: Mapped(db, b, k)
  }

  function View(db: DB): Buckets {
    map b | b in db.buckets :: Holds(db, b)
  }

  // ---- the plain map ----

  function Put(v: Buckets, b: string, k: string, content: Bytes): Buckets {
    if b in v then v[b := v[b][k := content]] else v
  }

  function Removed(v: Buckets, b: string, k: string): Buckets {
    if b in v then v[b := v[b] - {k}] else v
  }

  /** The operation of a transaction on the plain map; object transactions are invisible. */
  function Plain(v: Buckets, t: Txn): Buckets {
    match t
    case Obj(_) => v
    case Key(TCreateBucket(b)) => if b in v then v else v[b := map[]]
    case Key(TDeleteBucket(b)) => if b in v && v[b] == map[] then v - {b} else v
    case Key(TForceDeleteBucket(b)) => v - {b}
    case Key(TPutKey(b, k, r)) => Put(v, b, k, r.content)
    case Key(TDeleteKey(b, k)) => Removed(v, b, k)
  }

  function PlainRun(v: Buckets, ts: seq<Txn>): Buckets
    decreases |ts|
  {
    if ts == [] then v else PlainRun(Plain(v, ts[0]), ts[1..])
  }

  // ---- refinement ----

  /** Buckets whose keys are the same hold the same. */
  lemma SameHolds(db: DB, db': DB, b: string)
    requires forall k {:trigger Composite(b, k)} :: Composite(b, k) in db.keys <==> Composite(b, k) in db'.keys
    requires forall k {:trigger Composite(b, k)} :: Composite(b, k) in db.keys && Composite(b, k) in db'.keys ==>
               db.keys[Composite(b, k)] == db'.keys[Composite(b, k)]
    ensures Holds(db, b) == Holds(db', b)
  {
    assert forall k :: k in KeysOf(db, b) <==> k in KeysOf(db', b) by {
      forall k
        ensures k in KeysOf(db, b) <==> k in KeysOf(db', b)
      {
        assert k in KeysOf(db, b) <==> Composite(b, k) in db.keys;
        assert k in KeysOf(db', b) <==> Composite(b, k) in db'.keys;
      }
    }
  }

  /** A write under one bucket leaves the others. */
  lemma PutElsewhere(db: DB, b: string, k: string, r: Root, b': string)
    requires SlashFree(b) && SlashFree(b') && b' != b
    ensures Holds(db.(keys := db.keys[Composite(b, k) := r]), b') == Holds(db, b')
  {
    forall k' {:trigger Composite(b', k')}
      ensures Composite(b', k') != Composite(b, k)
    {
      if Composite(b', k') == Composite(b, k) {
        CompositeInjective(b', k', b, k);
      }
    }
    SameHolds(db, db.(keys := db.keys[Composite(b, k) := r]), b');
  }

  lemma PutHere(db: DB, b: string, k: string, r: Root)
    requires SlashFree(b)
    ensures Holds(db.(keys := db.keys[Composite(b, k) := r]), b) == Holds(db, b)[k := r.content]
  {
    var db' := db.(keys := db.keys[Composite(b, k) := r]);
    forall k'
      ensures k' in KeysOf(db', b) <==> k' == k || k' in KeysOf(db, b)
      ensures k' != k ==> Composite(b, k') != Composite(b, k)
    {
      assert k' in KeysOf(db', b) <==> Composite(b, k') in db'.keys;
      assert k' in KeysOf(db, b) <==> Composite(b, k') in db.keys;
      if Composite(b, k') == Composite(b, k) {
        CompositeInjective(b, k', b, k);
      }
    }
  }

  lemma RemoveElsewhere(db: DB, b: string, k: string, b': string)
    requires SlashFree(b) && SlashFree(b') && b' != b
    ensures Holds(db.(keys := db.keys - {Composite(b, k)}), b') == Holds(db, b')
  {
    forall k' {:trigger Composite(b', k')}
      ensures Composite(b', k') != Composite(b, k)
    {
      if Composite(b', k') == Composite(b, k) {
        CompositeInjective(b', k', b, k);
      }
    }
    SameHolds(db, db.(keys := db.keys - {Composite(b, k)}), b');
  }

  lemma RemoveHere(db: DB, b: string, k: string)
    requires SlashFree(b)
    ensures Holds(db.(keys := db.keys - {Composite(b, k)}), b) == Holds(db, b) - {k}
  {
    var db' := db.(keys := db.keys - {Composite(b, k)});
    forall k'
      ensures k' in KeysOf(db', b) <==> k' != k && k' in KeysOf(db, b)
    {
      assert k' in KeysOf(db', b) <==> Composite(b, k') in db'.keys;
      assert k' in KeysOf(db, b) <==> Composite(b, k') in db.keys;
      if Composite(b, k') == Composite(b, k) {
        CompositeInjective(b, k', b, k);
      }
    }
  }

  /** A bucket is empty exactly when no key carries its prefix. */
  lemma EmptyBucket(db: DB, b: string)
    ensures Holds(db, b) == map[] <==> !BucketHasKeys(db, b)
  {
    if BucketHasKeys(db, b) {
      var ck :| ck in db.keys && HasPrefix(ck, Prefix(b));
      assert ck == Composite(b, ck[|b| + 1..]);
      assert ck[|b| + 1..] in Holds(db, b);
    } else {
      forall k
        ensures k !in Holds(db, b)
      {
        assert HasPrefix(Composite(b, k), Prefix(b));
      }
    }
  }

  /** A forced deletion takes no other bucket's keys with it. */
  lemma ForceElsewhere(db: DB, b: string, b': string)
    requires SlashFree(b) && SlashFree(b') && b' != b && b in db.buckets
    ensures Holds(ApplyKey(db, TForceDeleteBucket(b)), b') == Holds(db, b')
  {
    forall k' {:trigger Composite(b', k')}
      ensures !HasPrefix(Composite(b', k'), Prefix(b))
    {
      if HasPrefix(Composite(b', k'), Prefix(b)) {
        PrefixDetermines(b, b', k');
      }
    }
    SameHolds(db, ApplyKey(db, TForceDeleteBucket(b)), b');
  }

  /** A bucket that does not exist has no keys. */
  lemma NoOrphans(db: DB, b: string)
    requires Homed(db) && SlashFree(b) && b !in db.buckets
    ensures Holds(db, b) == map[]
  {
    if BucketHasKeys(db, b) {
      var ck :| ck in db.keys && HasPrefix(ck, Prefix(b));
      var b' :| b' in db.buckets && HasPrefix(ck, Prefix(b'));
      assert ck == Composite(b, ck[|b| + 1..]);
      PrefixDetermines(b', b, ck[|b| + 1..]);
    }
    EmptyBucket(db, b);
  }

  /** Views agree outside one bucket when what the other buckets hold agrees. */
  lemma ViewUpdated(db: DB, db': DB, b: string)
    requires db'.buckets == db.buckets && b in db.buckets
    requires forall b' :: b' in db.buckets && b' != b ==> Holds(db', b') == Holds(db, b')
    ensures View(db') == View(db)[b := Holds(db', b)]
  {
  }

  lemma PutRefines(db: DB, b: string, k: string, r: Root)
    requires Homed(db)
    ensures View(ApplyKey(db, TPutKey(b, k, r))) == Put(View(db), b, k, r.content)
  {
    var db' := db.(keys := db.keys[Composite(b, k) := r]);
    if b in db.buckets {
      PutHere(db, b, k, r);
      forall b' | b' in db.buckets && b' != b
        ensures Holds(db', b') == Holds(db, b')
      {
        PutElsewhere(db, b, k, r, b');
      }
      ViewUpdated(db, db', b);
    }
  }

  lemma RemoveRefines(db: DB, b: string, k: string)
    requires Homed(db) && SlashFree(b)
    ensures View(ApplyKey(db, TDeleteKey(b, k))) == Removed(View(db), b, k)
  {
    var db' := db.(keys := db.keys - {Composite(b, k)});
    forall b' | b' in db.buckets && b' != b
      ensures Holds(db', b') == Holds(db, b')
    {
      RemoveElsewhere(db, b, k, b');
    }
    if b in db.buckets {
      RemoveHere(db, b, k);
      ViewUpdated(db, db', b);
    }
  }

  lemma ViewDropped(db: DB, db': DB, b: string)
    requires db'.buckets == db.buckets - {b}
    requires forall b' :: b' in db'.buckets ==> Holds(db', b') == Holds(db, b')
    ensures View(db') == View(db) - {b}
  {
  }

  lemma ForceRefines(db: DB, b: string)
    requires Homed(db)
    ensures View(ApplyKey(db, TForceDeleteBucket(b))) == View(db) - {b}
  {
    var db' := ApplyKey(db, TForceDeleteBucket(b));
    forall b' | b' in db'.buckets
      ensures Holds(db', b') == Holds(db, b')
    {
      if b in db.buckets {
        ForceElsewhere(db, b, b');
      }
    }
    ViewDropped(db, db', b);
  }

  lemma DeleteRefines(db: DB, b: string)
    ensures View(ApplyKey(db, TDeleteBucket(b))) ==
            if b in View(db) && View(db)[b] == map[] then View(db) - {b} else View(db)
  {
    EmptyBucket(db, b);
    var db' := ApplyKey(db, TDeleteBucket(b));
    forall b'
      ensures Holds(db', b') == Holds(db, b')
    {
      SameHolds(db, db', b');
    }
    if !BucketHasKeys(db, b) {
      ViewDropped(db, db', b);
    }
  }

  lemma ViewAdded(db: DB, db': DB, b: string)
    requires db'.buckets == db.buckets + {b} && b !in db.buckets
    requires forall b' :: b' in db.buckets ==> Holds(db', b') == Holds(db, b')
    ensures View(db') == View(db)[b := Holds(db', b)]
  {
  }

  lemma CreateRefines(db: DB, b: string)
    requires Homed(db) && SlashFree(b)
    ensures View(ApplyKey(db, TCreateBucket(b))) == if b in View(db) then View(db) else View(db)[b := map[]]
  {
    var db' := ApplyKey(db, TCreateBucket(b));
    forall b'
      ensures Holds(db', b') == Holds(db, b')
    {
      SameHolds(db, db', b');
    }
    if b in db.buckets {
      assert db'.buckets == db.buckets;
    } else {
      NoOrphans(db, b);
      ViewAdded(db, db', b);
    }
  }

  lemma KeyTxnRefines(db: DB, t: KeyTxn)
    requires Homed(db) && WellFormed(db, Key(t))
    ensures View(ApplyKey(db, t)) == Plain(View(db), Key(t))
  {
    match t {
      case TCreateBucket(b) => CreateRefines(db, b);
      case TDeleteBucket(b) => DeleteRefines(db, b);
      case TForceDeleteBucket(b) => ForceRefines(db, b);
      case TPutKey(b, k, r) => PutRefines(db, b, k, r);
      case TDeleteKey(b, k) => RemoveRefines(db, b, k);
    }
  }

  lemma ObjTxnInvisible(db: DB, o: ObjTxn)
    ensures View(Apply(db, o)) == View(db)
  {
    forall b
      ensures Holds(Apply(db, o), b) == Holds(db, b)
    {
      SameHolds(db, Apply(db, o), b);
    }
  }

  /** The store refines the plain map over every run: every interleaving of Puts, uploads,
      reads, bucket deletions and copies looks to S3 clients like its S3 operations, in commit
      order, on a map from bucket and key to bytes. */
  lemma {:induction false} RunRefinesPlainMap(db: DB, ts: seq<Txn>)
    requires Sound(db) && WellFormedRun(db, ts)
    ensures View(CommitAll(db, ts)) == PlainRun(View(db), ts)
    decreases |ts|
  {
    if ts != [] {
      match ts[0] {
        case Obj(o) => ObjTxnInvisible(db, o);
        case Key(k) => KeyTxnRefines(db, k);
      }
      RunKeepsSound(db, [ts[0]]);
      assert CommitAll(db, [ts[0]]) == Committed(db, ts[0]);
      RunRefinesPlainMap(Committed(db, ts[0]), ts[1..]);
    }
  }

  /** The transaction writes or deletes this very key, or drops its bucket. */
  predicate Disturbs(t: Txn, b: string, k: string) {
    match t
    case Key(TPutKey(b', k', _)) => b' == b && k' == k
    case Key(TDeleteKey(b', k')) => b' == b && k' == k
    case Key(TForceDeleteBucket(b')) => b' == b
    case _ => false
  }

  lemma {:induction false} PlainKeeps(v: Buckets, ts: seq<Txn>, b: string, k: string)
    requires b in v && k in v[b] && forall t :: t in ts ==> !Disturbs(t, b, k)
    ensures b in PlainRun(v, ts) && k in PlainRun(v, ts)[b] && PlainRun(v, ts)[b][k] == v[b][k]
    decreases |ts|
  {
    if ts != [] {
      assert !Disturbs(ts[0], b, k);
      PlainKeeps(Plain(v, ts[0]), ts[1..], b, k);
    }
  }

  /** What was last put or copied to a key stays readable under it whatever follows, until that
      key is written or deleted or its bucket is dropped by force: a copy survives the deletion
      of its source, and a plain bucket deletion never takes a key away. */
  lemma LastPutIsRead(db: DB, b: string, k: string, r: Root, ts: seq<Txn>)
    requires Sound(db) && b in db.buckets && r in db.objects
    requires WellFormedRun(Committed(db, Key(TPutKey(b, k, r))), ts)
    requires forall t :: t in ts ==> !Disturbs(t, b, k)
    ensures var v := View(CommitAll(Committed(db, Key(TPutKey(b, k, r))), ts));
      b in v && k in v[b] && v[b][k] == r.content
  {
    var t := Key(TPutKey(b, k, r));
    KeyTxnRefines(db, TPutKey(b, k, r));
    RunKeepsSound(db, [t]);
    assert CommitAll(db, [t]) == Committed(db, t);
    RunRefinesPlainMap(Committed(db, t), ts);
    PlainKeeps(View(Committed(db, t)), ts, b, k);
  }

  /** A store listing names exactly the bucket's keys, in order, with their objects' records. */
  lemma ListingExact(db: DB, b: string, os: seq<S3Object>)
    requires Sound(db) && b in db.buckets && ListsBucket(db, b, os)
    ensures forall k :: k in View(db)[b] <==> exists o :: o in os && o.key == k
    ensures forall o :: o in os ==>
              o.key in View(db)[b] && o.meta.root.content == View(db)[b][o.key] && o.meta.size == |View(db)[b][o.key]|
  {
    forall k | k in View(db)[b]
      ensures exists o :: o in os && o.key == k
    {
      assert Composite(b, k) in db.keys;
    }
    forall o | o in os
      ensures o.key in View(db)[b] && o.meta.root.content == View(db)[b][o.key] && o.meta.size == |View(db)[b][o.key]|
    {
      assert Composite(b, o.key) in db.keys;
    }
  }
}
