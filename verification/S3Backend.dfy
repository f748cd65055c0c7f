/** The S3 backend on top of the object service and the store.  Each operation is proved to be
    the S3 operation on the plain map bucket -> key -> bytes that module S3View shows. */
module S3Backend {
  import opened Outcomes
  import opened Content
  import opened KeyOrder
  import opened MetaStore
  import opened ObjectService
  import S3View
  import Protocol

  datatype S3Error = NoSuchBucket | NoSuchKey | BucketAlreadyExists | NotEmpty | InvalidArgument | Internal

  /** One listed object. */
  datatype Entry = Entry(key: string, size: int)

  /** Why a key cannot be read; the key is looked up before its bucket. */
  predicate Missing(v: S3View.Buckets, b: string, k: string, e: S3Error) {
    if b !in v then e.NoSuchBucket? else k !in v[b] && e.NoSuchKey?
  }

  predicate Present(v: S3View.Buckets, b: string, k: string) {
    b in v && k in v[b]
  }

  /** A Put of content touches no key and leaves the store sound. */
  lemma StoredKeepsView(db: DB, content: Bytes, cached: bool, now: int)
    requires Sound(db) && content != []
    ensures Stored(db, content, cached, now).buckets == db.buckets
    ensures Homed(Stored(db, content, cached, now)) && S3View.View(Stored(db, content, cached, now)) == S3View.View(db)
  {
    var create := TCreate(Protocol.NewRecord(content), now);
    var rearm := TReenqueue(Root(content));
    HomedStep(db, Obj(create));
    HomedStep(db, Obj(rearm));
    S3View.ObjTxnInvisible(db, create);
    S3View.ObjTxnInvisible(db, rearm);
  }

  /** So does a read. */
  lemma TouchKeepsView(db: DB, root: Root, at: int)
    requires Sound(db)
    ensures Homed(Apply(db, TTouch(root, at))) && S3View.View(Apply(db, TTouch(root, at))) == S3View.View(db)
  {
    HomedStep(db, Obj(TTouch(root, at)));
    S3View.ObjTxnInvisible(db, TTouch(root, at));
  }

  /** A key operation is the plain one and leaves the store sound. */
  lemma KeyStep(db: DB, t: KeyTxn, db': DB)
    requires Sound(db) && WellFormed(db, Key(t)) && db' == ApplyKey(db, t)
    ensures Sound(db') && S3View.View(db') == S3View.Plain(S3View.View(db), Key(t))
  {
    KeyKeepsRecords(db, t);
    HomedStep(db, Key(t));
    S3View.KeyTxnRefines(db, t);
  }

  lemma MapStep(db: DB, b: string, k: string, r: Root, db': DB)
    requires Sound(db) && r in db.objects && db' == ApplyKey(db, TPutKey(b, k, r))
    ensures Sound(db') && S3View.View(db') == S3View.Put(S3View.View(db), b, k, r.content)
  {
    KeyStep(db, TPutKey(b, k, r), db');
  }

  lemma UnmapStep(db: DB, b: string, k: string, db': DB)
    requires Sound(db) && SlashFree(b) && db' == ApplyKey(db, TDeleteKey(b, k))
    ensures Sound(db') && S3View.View(db') == S3View.Removed(S3View.View(db), b, k)
  {
    KeyStep(db, TDeleteKey(b, k), db');
  }

  lemma DropStep(db: DB, b: string, db': DB)
    requires Sound(db) && db' == ApplyKey(db, TDeleteBucket(b))
    ensures Sound(db') && S3View.View(db') == S3View.Plain(S3View.View(db), Key(TDeleteBucket(b)))
    ensures b in db.buckets ==> (BucketHasKeys(db, b) <==> S3View.View(db)[b] != map[])
  {
    KeyStep(db, TDeleteBucket(b), db');
    S3View.EmptyBucket(db, b);
  }

  /** The index holds a key exactly when the plain map does. */
  lemma LookupExact(db: DB, b: string, k: string)
    requires Homed(db) && SlashFree(b)
    ensures Composite(b, k) in db.keys <==> Present(S3View.View(db), b, k)
    ensures Composite(b, k) in db.keys ==>
              db.keys[Composite(b, k)] in db.objects && db.keys[Composite(b, k)].content == S3View.View(db)[b][k]
  {
    assert k in S3View.Holds(db, b) <==> Composite(b, k) in db.keys;
    if b !in db.buckets {
      S3View.NoOrphans(db, b);
    }
  }

  /** The entries name the bucket's keys, each once, in byte order, with their sizes. */
  ghost predicate ListsExactly(held: S3View.Bucket, list: seq<Entry>) {
    && (forall i, j :: 0 <= i < j < |list| ==> Less(list[i].key, list[j].key))
    && (forall e :: e in list ==> e.key in held && e.size == |held[e.key]|)
    && (forall k :: k in held ==> exists e :: e in list && e.key == k)
  }

  ghost predicate Listed(objs: seq<S3Object>, list: seq<Entry>) {
    |list| == |objs| && forall j :: 0 <= j < |objs| ==> list[j] == Entry(objs[j].key, objs[j].meta.size)
  }

  lemma EntriesCover(objs: seq<S3Object>, list: seq<Entry>)
    requires Listed(objs, list)
    ensures forall e :: e in list ==> exists o :: o in objs && e == Entry(o.key, o.meta.size)
    ensures forall o :: o in objs ==> Entry(o.key, o.meta.size) in list
  {
    forall e | e in list
      ensures exists o :: o in objs && e == Entry(o.key, o.meta.size)
    {
      var j :| 0 <= j < |list| && list[j] == e;
      assert objs[j] in objs;
    }
    forall o | o in objs
      ensures Entry(o.key, o.meta.size) in list
    {
      var j :| 0 <= j < |objs| && objs[j] == o;
      assert list[j] in list;
    }
  }

  lemma EntriesExact(db: DB, b: string, objs: seq<S3Object>, list: seq<Entry>)
    requires Sound(db) && b in db.buckets && ListsBucket(db, b, objs) && Listed(objs, list)
    ensures ListsExactly(S3View.View(db)[b], list)
  {
    S3View.ListingExact(db, b, objs);
    EntriesCover(objs, list);
  }

  function RemovedAll(v: S3View.Buckets, b: string, ks: seq<string>): S3View.Buckets {
    if b in v then v[b := v[b] - (set k | k in ks)] else v
  }

  lemma RemovedNone(v: S3View.Buckets, b: string)
    ensures RemovedAll(v, b, []) == v
  {
    if b in v {
      assert v[b] - (set k: string | k in []) == v[b];
    }
  }

  lemma RemovedNext(v: S3View.Buckets, b: string, ks: seq<string>, k: string)
    ensures S3View.Removed(RemovedAll(v, b, ks), b, k) == RemovedAll(v, b, ks + [k])
  {
    assert (set q | q in ks + [k]) == (set q | q in ks) + {k};
    if b in v {
      assert v[b] - (set q | q in ks) - {k} == v[b] - (set q | q in ks + [k]);
    }
  }

  class Backend {
    const svc: Service
    const st: Store

    ghost predicate Valid()
      reads this, svc, svc.st
    {
      svc.st == st && svc.Valid() && Homed(st.Db())
    }

    ghost function View(): S3View.Buckets
      reads this, st
    {
      S3View.View(st.Db())
    }

    constructor (svc: Service)
      requires svc.Valid() && Homed(svc.st.Db())
      ensures Valid() && this.svc == svc && this.st == svc.st
    {
      this.svc, this.st := svc, svc.st;
    }

    // ---- key transactions ----

    method MapKey(bucket: string, key: string, root: Root) returns (ok: bool)
      requires Valid() && root in st.objects
      modifies st`keys
      ensures Valid() && View() == S3View.Put(old(View()), bucket, key, root.content)
      ensures ok <==> bucket in old(View())
    {
      var e := st.S3PutObjectKey(bucket, key, root);
      MapStep(old(st.Db()), bucket, key, root, st.Db());
      ok := e.Ok?;
    }

    method UnmapKey(bucket: string, key: string)
      requires Valid() && SlashFree(bucket)
      modifies st`keys
      ensures Valid() && View() == S3View.Removed(old(View()), bucket, key)
    {
      st.S3DeleteObjectKey(bucket, key);
      UnmapStep(old(st.Db()), bucket, key, st.Db());
    }

    method BucketExists(bucket: string) returns (found: bool)
      ensures found <==> bucket in View()
    {
      found := bucket in st.buckets;
    }

    // ---- buckets ----

    method CreateBucket(name: string) returns (r: Result<(), S3Error>)
      requires Valid() && SlashFree(name)
      modifies st`buckets
      ensures Valid() && View() == if name in old(View()) then old(View()) else old(View())[name := map[]]
      ensures r == if name in old(View()) then Err(BucketAlreadyExists) else Ok(())
    {
      var e := st.S3CreateBucket(name);
      KeyStep(old(st.Db()), TCreateBucket(name), st.Db());
      return if e.Err? then Err(BucketAlreadyExists) else Ok(());
    }

    method DeleteBucket(name: string) returns (r: Result<(), S3Error>)
      requires Valid()
      modifies st`buckets
      ensures Valid() && View() == if r.Ok? then old(View()) - {name} else old(View())
      ensures r == if name !in old(View()) then Err(NoSuchBucket)
                   else if old(View())[name] != map[] then Err(NotEmpty) else Ok(())
    {
      var e := st.S3DeleteBucket(name);
      DropStep(old(st.Db()), name, st.Db());
      match e {
        case Ok(_) => return Ok(());
        case Err(BucketNotFound) => return Err(NoSuchBucket);
        case Err(_) => return Err(NotEmpty);
      }
    }

    method ForceDeleteBucket(name: string) returns (r: Result<(), S3Error>)
      requires Valid()
      modifies st`buckets, st`keys
      ensures Valid() && View() == old(View()) - {name}
      ensures r == if name in old(View()) then Ok(()) else Err(NoSuchBucket)
    {
      var e := st.S3ForceDeleteBucket(name);
      KeyStep(old(st.Db()), TForceDeleteBucket(name), st.Db());
      return if e.Err? then Err(NoSuchBucket) else Ok(());
    }

    // ---- objects ----

    /** Ingests the body, then maps the key to its root. */
    method PutObject(bucket: string, key: string, input: Bytes, now: int) returns (r: Result<(), S3Error>)
      requires Valid() && now >= svc.clock
      modifies svc, st
      ensures Valid()
      ensures r == if bucket !in old(View()) then Err(NoSuchBucket)
                   else if input == [] || (svc.maxSize > 0 && |input| > svc.maxSize) then Err(InvalidArgument)
                   else Ok(())
      ensures View() == if r.Ok? then S3View.Put(old(View()), bucket, key, input) else old(View())
    {
      var found := BucketExists(bucket);
      if !found {
        return Err(NoSuchBucket);
      }
      var p := Ingest(input, now);
      if p.Err? {
        return Err(InvalidArgument);
      }
      var ok := MapKey(bucket, key, p.value.meta.root);
      return if ok then Ok(()) else Err(NoSuchBucket);
    }

    /** The service's Put as the backend sees it. */
    method Ingest(input: Bytes, now: int) returns (p: Result<PutReply, PutError>)
      requires Valid() && now >= svc.clock
      modifies svc, st
      ensures Valid() && View() == old(View()) && st.buckets == old(st.buckets)
      ensures p.Err? <==> input == [] || (svc.maxSize > 0 && |input| > svc.maxSize)
      ensures p.Ok? ==> p.value.meta.root == Root(input) && Root(input) in st.objects
    {
      if input != [] {
        StoredKeepsView(st.Db(), input, Root(input) in svc.dir, now);
      }
      p := svc.Put(input, now);
      assert p.Ok? ==> st.objects[Root(input)].root == Root(input);
    }

    /** Maps bucket and key to a root, or tells what is missing. */
    method Resolve(bucket: string, key: string) returns (r: Result<Root, S3Error>)
      requires Valid() && SlashFree(bucket)
      ensures r.Ok? <==> Present(View(), bucket, key)
      ensures r.Ok? ==> r.value in st.objects && r.value.content == View()[bucket][key]
      ensures r.Err? ==> Missing(View(), bucket, key, r.error)
    {
      LookupExact(st.Db(), bucket, key);
      var root := st.S3GetObjectKey(bucket, key);
      if root.Some? {
        return Ok(root.value);
      }
      var found := BucketExists(bucket);
      if !found {
        return Err(NoSuchBucket);
      }
      return Err(NoSuchKey);
    }

    /** Reads an object; only a failing restore can keep a present one from being read. */
    method GetObject(bucket: string, key: string, online: bool, now: int) returns (r: Result<Bytes, S3Error>)
      requires Valid() && SlashFree(bucket) && now >= svc.clock
      modifies svc, st
      ensures Valid() && View() == old(View())
      ensures r.Ok? ==> Present(View(), bucket, key) && r.value == View()[bucket][key]
      ensures r.Err? ==> Missing(View(), bucket, key, r.error) || (Present(View(), bucket, key) && !online && r.error.Internal?)
    {
      var root := Resolve(bucket, key);
      if root.Err? {
        return Err(root.error);
      }
      TouchKeepsView(st.Db(), root.value, now);
      var f := svc.Open(root.value, online, now);
      match f {
        case Ok(o) => return Ok(o.content);
        case Err(NotFound) => return Err(NoSuchKey);
        case Err(_) => return Err(Internal);
      }
    }

    /** The size of an object, from its record alone. */
    method HeadObject(bucket: string, key: string) returns (r: Result<int, S3Error>)
      requires Valid() && SlashFree(bucket)
      ensures r.Ok? <==> Present(View(), bucket, key)
      ensures r.Ok? ==> r.value == |View()[bucket][key]|
      ensures r.Err? ==> Missing(View(), bucket, key, r.error)
    {
      var root := Resolve(bucket, key);
      if root.Err? {
        return Err(root.error);
      }
      var m := st.Get(root.value);
      return Ok(m.value.size);
    }

    /** Removes a key; an absent key is no error. */
    method DeleteObject(bucket: string, key: string) returns (r: Result<(), S3Error>)
      requires Valid()
      modifies st`keys
      ensures Valid() && View() == S3View.Removed(old(View()), bucket, key)
      ensures r == if bucket in old(View()) then Ok(()) else Err(NoSuchBucket)
    {
      var found := BucketExists(bucket);
      if !found {
        return Err(NoSuchBucket);
      }
      UnmapKey(bucket, key);
      return Ok(());
    }

    /** Removes several keys and reports each as deleted. */
    method DeleteMulti(bucket: string, keys: seq<string>) returns (r: Result<seq<string>, S3Error>)
      requires Valid()
      modifies st`keys
      ensures Valid()
      ensures r == if bucket in old(View()) then Ok(keys) else Err(NoSuchBucket)
      ensures View() == RemovedAll(old(View()), bucket, keys)
    {
      var found := BucketExists(bucket);
      if !found {
        return Err(NoSuchBucket);
      }
      var deleted: seq<string> := [];
      ghost var v := View();
      RemovedNone(v, bucket);
      for i := 0 to |keys|
        invariant Valid() && deleted == keys[..i] && View() == RemovedAll(v, bucket, deleted)
      {
        UnmapKey(bucket, keys[i]);
        RemovedNext(v, bucket, deleted, keys[i]);
        deleted := deleted + [keys[i]];
      }
      assert keys[..|keys|] == keys;
      return Ok(deleted);
    }

    /** Maps the destination key to the source's root: no bytes move. */
    method CopyObject(srcBucket: string, srcKey: string, dstBucket: string, dstKey: string) returns (r: Result<Root, S3Error>)
      requires Valid() && SlashFree(srcBucket)
      modifies st`keys
      ensures Valid()
      ensures r.Ok? <==> Present(old(View()), srcBucket, srcKey) && dstBucket in old(View())
      ensures r.Ok? ==>
                && r.value.content == old(View())[srcBucket][srcKey]
                && View() == S3View.Put(old(View()), dstBucket, dstKey, old(View())[srcBucket][srcKey])
      ensures r.Err? ==>
                && View() == old(View())
                && if Present(View(), srcBucket, srcKey) then r.error.NoSuchBucket?
                   else Missing(View(), srcBucket, srcKey, r.error)
    {
      var root := Resolve(srcBucket, srcKey);
      if root.Err? {
        return Err(root.error);
      }
      var found := BucketExists(dstBucket);
      if !found {
        return Err(NoSuchBucket);
      }
      var m := st.Get(root.value);
      var ok := MapKey(dstBucket, dstKey, root.value);
      return if ok then Ok(m.value.root) else Err(NoSuchBucket);
    }

    /** Lists a bucket: exactly its keys, ascending, with their sizes. */
    method ListBucket(bucket: string) returns (r: Result<seq<Entry>, S3Error>)
      requires Valid()
      ensures r.Ok? <==> bucket in View()
      ensures r.Err? ==> r.error.NoSuchBucket?
      ensures r.Ok? ==> ListsExactly(View()[bucket], r.value)
    {
      var found := BucketExists(bucket);
      if !found {
        return Err(NoSuchBucket);
      }
      var objs := st.S3ListObjects(bucket);
      var list := Entries(objs);
      EntriesExact(st.Db(), bucket, objs, list);
      return Ok(list);
    }

    method Entries(objs: seq<S3Object>) returns (list: seq<Entry>)
      ensures Listed(objs, list)
    {
      list := [];
      for i := 0 to |objs|
        invariant |list| == i && forall j :: 0 <= j < i ==> list[j] == Entry(objs[j].key, objs[j].meta.size)
      {
        list := list + [Entry(objs[i].key, objs[i].meta.size)];
      }
    }
  }
}
