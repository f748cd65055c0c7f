/** What each kind of action does to the state, with its store transaction reduced to the
    effect on the object records.  The invariants are proved from these effects alone. */
module ProtocolEffects {
  import opened Outcomes
  import opened Content
  import opened MetaStore
  import opened ChainBackend
  import opened Protocol

  ghost predicate DbOk(db: DB) {
    Synced(db) && Indexed(db)
  }

  /** Only `r`'s record differs. */
  ghost predicate Elsewhere(db: DB, db': DB, r: Root) {
    && db'.objects.Keys == db.objects.Keys
    && (forall q :: q in db.objects && q != r ==> db'.objects[q] == db.objects[q])
  }

  /** No record is lost and statuses only move back to pending. */
  ghost predicate OnlyRearms(db: DB, db': DB) {
    forall q :: q in db.objects ==>
      q in db'.objects && (db'.objects[q].status == db.objects[q].status || db'.objects[q].status.Pending?)
  }

  /** What the worker's transaction leaves: one record written as After says. */
  ghost predicate Wrote(db: DB, db': DB, r: Root, t: Option<ObjTxn>) {
    match t
    case None => db' == db
    case Some(t) => Elsewhere(db, db', r) && (r in db.objects ==> db'.objects[r] == After(db.objects[r], t))
  }

  /** A re-arm: pending again, with no retries and no reason to have failed; SkipTx, transaction
      hash and all else are kept. */
  predicate StartsAgain(m: ObjectMeta, m': ObjectMeta) {
    m' == m.(status := Pending, retries := 0, failReason := NoFailure)
  }

  /** A new record: pending, nothing known of the chain. */
  predicate StartsNew(r: Root, m: ObjectMeta) {
    m == ObjectMeta(r, Sha(r.content), |r.content|, Pending, "", NoFailure, 0, false, m.lastAccess)
  }

  /** Records of `ended` epochs start again, or are new; the others stay. */
  ghost predicate Reset(db: DB, db': DB, ended: set<Root>) {
    && db'.objects.Keys == db.objects.Keys + ended
    && (forall r :: r in db.objects && r !in ended ==> db'.objects[r] == db.objects[r])
    && (forall r :: r in ended ==>
          if r in db.objects then StartsAgain(db.objects[r], db'.objects[r]) else StartsNew(r, db'.objects[r]))
  }

  /** Access times aside, the records are the same. */
  ghost predicate Reread(db: DB, db': DB) {
    && db'.objects.Keys == db.objects.Keys
    && (forall r :: r in db.objects ==> db'.objects[r] == db.objects[r].(lastAccess := db'.objects[r].lastAccess))
  }

  ghost predicate WorkEffect(s: State, s': State, a: WorkerAction) {
    var w := s.worker;
    && Wrote(s.db, s'.db, Focus(w), WorkTxn(s, a))
    && s'.worker == WorkMove(s, a)
    && s'.reported == (if Answer(w, a) == Some(FileFinalized) then s.reported + {Focus(w)} else s.reported)
    && s'.live == Bumped(s.live, Landing(w, a))
    && s'.landed == Bumped(s.landed, Landing(w, a))
    && s'.attempted == (if a.Upload? && w.pc.Mark? && w.n == |w.items| then s.attempted + ItemRoots(w.items) else s.attempted)
    && s'.lost == (if a.ReconStore? && !a.ok && w.pc.ReconWrite? then Bumped(s.lost, {Focus(w)}) else s.lost)
    && s'.cfg == s.cfg && s'.cache == s.cache && s'.puts == s.puts && s'.nextId == s.nextId
    && s'.victims == s.victims && s'.creators == s.creators && s'.results == s.results
    && s'.resolved == s.resolved
  }

  ghost predicate PutEffect(s: State, s': State, id: nat, a: PutAction)
    requires id in s.puts
  {
    var p := s.puts[id];
    var t := PutTxn(s.db, p, a);
    var move := PutNext(s, p, a);
    && Reset(s.db, s'.db, Ended(t))
    && s'.cache == (if Placed(p, a).Some? then s.cache[Placed(p, a).value := p.content] else s.cache)
    && s'.puts == (match move case Stay => s.puts case To(pc) => s.puts[id := p.(pc := pc)] case _ => s.puts - {id})
    && s'.results == (if move.Reply? then s.results[id := PutResult(p.content, move.root, move.dedup)] else s.results)
    && s'.creators == (if t.Some? && t.value.TCreate? then s.creators[t.value.m.root := id] else s.creators)
    && s'.attempted == s.attempted - Ended(t)
    && s'.landed == s.landed - Ended(t) && s'.lost == s.lost - Ended(t)
    && s'.cfg == s.cfg && s'.worker == s.worker && s'.victims == s.victims && s'.nextId == s.nextId
    && s'.live == s.live && s'.reported == s.reported && s'.resolved == s.resolved
  }

  ghost predicate OtherEffect(s: State, s': State, a: OtherAction) {
    && Reread(s.db, s'.db)
    && s'.cache == CacheAfter(s, a) && s'.victims == VictimsAfter(s, a)
    && s'.worker == (if a.Crash? then RESTING else s.worker)
    && s'.puts == (if a.Crash? then map[]
                   else if a.PutBegin? && a.content != [] then s.puts[s.nextId := Put(a.content, Spooled)]
                   else s.puts)
    && s'.nextId == (if a.PutBegin? then s.nextId + 1 else s.nextId)
    && s'.live == (if a.Prune? then s.live - {a.r} else s.live)
    && s'.landed == (if a.Prune? then s.landed - {a.r} else s.landed)
    && s'.lost == (if a.Crash? && s.worker.pc.ReconWrite? then Bumped(s.lost, {Focus(s.worker)}) else s.lost)
    && s'.cfg == s.cfg && s'.reported == s.reported && s'.attempted == s.attempted
    && s'.creators == s.creators && s'.results == s.results && s'.resolved == ResolvedAfter(s, a)
  }

  lemma WorkCommits(db: DB, r: Root, t: Option<ObjTxn>)
    requires DbOk(db) && (t.Some? ==> !t.value.TCreate? && t.value.r == r)
    ensures Wrote(db, Commits(db, t), r, t) && DbOk(Commits(db, t))
  {
    if t.Some? {
      ObjectsAfter(db, t.value);
      SyncedStep(db, t.value);
      IndexedStep(db, t.value);
    }
  }

  lemma WorkHasEffect(s: State, a: WorkerAction)
    requires DbOk(s.db)
    requires WorkTxn(s, a).Some? ==> !WorkTxn(s, a).value.TCreate? && WorkTxn(s, a).value.r == Focus(s.worker)
    ensures WorkEffect(s, WorkStep(s, a), a) && DbOk(WorkStep(s, a).db)
  {
    WorkCommits(s.db, Focus(s.worker), WorkTxn(s, a));
  }

  lemma CreateResets(db: DB, content: Bytes, now: int)
    requires DbOk(db) && content != [] && Root(content) !in db.objects
    ensures var t := TCreate(NewRecord(content), now); Reset(db, Apply(db, t), {Root(content)}) && DbOk(Apply(db, t))
  {
    var t := TCreate(NewRecord(content), now);
    ObjectsAfter(db, t);
    SyncedStep(db, t);
    IndexedStep(db, t);
  }

  lemma RearmResets(db: DB, r: Root)
    requires DbOk(db) && r in db.objects
    ensures Reset(db, Apply(db, TReenqueue(r)), {r}) && DbOk(Apply(db, TReenqueue(r)))
  {
    ObjectsAfter(db, TReenqueue(r));
    SyncedStep(db, TReenqueue(r));
    IndexedStep(db, TReenqueue(r));
  }

  lemma PutCommits(db: DB, p: Put, a: PutAction)
    requires DbOk(db) && p.content != [] && (p.pc.Rearming? ==> p.pc.m.root in db.objects)
    ensures Reset(db, Commits(db, PutTxn(db, p, a)), Ended(PutTxn(db, p, a)))
    ensures DbOk(Commits(db, PutTxn(db, p, a)))
  {
    var t := PutTxn(db, p, a);
    if t.Some? {
      if t.value.TCreate? {
        CreateResets(db, p.content, a.now);
      } else {
        RearmResets(db, p.pc.m.root);
      }
    }
  }

  lemma PutHasEffect(s: State, id: nat, a: PutAction)
    requires DbOk(s.db) && id in s.puts && s.puts[id].content != []
    requires s.puts[id].pc.Rearming? ==> s.puts[id].pc.m.root in s.db.objects
    ensures PutEffect(s, PutAct(s, id, a), id, a) && DbOk(PutAct(s, id, a).db)
  {
    PutCommits(s.db, s.puts[id], a);
  }

  lemma OtherCommits(s: State, a: OtherAction)
    requires DbOk(s.db)
    ensures Reread(s.db, OtherStep(s, a).db) && DbOk(OtherStep(s, a).db)
  {
    if a.NoteRead? {
      ObjectsAfter(s.db, TTouch(a.r, a.at));
      SyncedStep(s.db, TTouch(a.r, a.at));
      IndexedStep(s.db, TTouch(a.r, a.at));
    } else if KeyTxnOf(s, a).Some? {
      KeyKeepsRecords(s.db, a.t);
    }
  }

  lemma OtherHasEffect(s: State, a: OtherAction)
    requires DbOk(s.db)
    ensures OtherEffect(s, OtherStep(s, a), a) && DbOk(OtherStep(s, a).db)
  {
    OtherCommits(s, a);
  }
}
