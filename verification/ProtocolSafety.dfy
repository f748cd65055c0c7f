/** What every action of the protocol keeps, and what therefore holds in every state that any
    interleaving with crashes and store failures can reach. */
module ProtocolSafety {
  import opened Outcomes
  import opened Content
  import opened MetaStore
  import opened ChainBackend
  import opened Protocol
  import opened ProtocolEffects

  // ---- the worker's hold on its roots ----

  predicate Polling(w: Worker) {
    w.pc.Poll? || w.pc.PollTold?
  }

  /** The batch has been handed to the chain; items before `n` are settled. */
  predicate Settling(w: Worker) {
    w.pc.Record? || w.pc.Recon? || w.pc.ReconClose? || w.pc.ReconSkip? || w.pc.ReconInc? || w.pc.ReconWrite?
  }

  predicate Shaped(w: Worker, cfg: Config) {
    && |w.items| + |w.todo| <= (if Polling(w) then |w.todo| else cfg.batchMax)
    && w.n <= |w.items|
    && (match w.pc
        case Idle => w == RESTING
        case Batches => w.todo == [] && w.items == []
        case Collect => w.n == 0
        case Ask | Told(_) => w.n == 0 && w.todo != []
        case Mark | Record(_) | Recon => w.todo == []
        case ReconClose | ReconSkip | ReconInc | ReconWrite(_) => w.todo == [] && w.n < |w.items|
        case Poll => w.rest == []
        case PollTold(_) => w.rest == [] && w.todo != [])
  }

  /** No root is held twice: not within a list, not across them. */
  ghost predicate Apart(w: Worker) {
    && Distinct(w.todo) && Distinct(w.rest)
    && (forall i, j :: 0 <= i < j < |w.items| ==> w.items[i].root != w.items[j].root)
    && (forall r :: r in w.todo ==> r !in w.rest)
    && (forall i :: 0 <= i < |w.items| ==> w.items[i].root !in w.todo && w.items[i].root !in w.rest)
  }

  ghost predicate Waiting(db: DB, r: Root) {
    r in db.objects && AwaitsUpload(db.objects[r].status)
  }

  /** Whatever the worker still has to upload or settle is pending or submitted, although only
      the snapshot was checked: nothing but a re-arm touches the worker's roots. */
  ghost predicate Owned(db: DB, w: Worker) {
    && (forall r :: r in w.todo ==>
          if Polling(w) then r in db.objects && (db.objects[r].status.Onchain? || db.objects[r].status.Pending?)
          else Waiting(db, r))
    && (forall r :: r in w.rest ==> Waiting(db, r))
    && (forall i :: 0 <= i < |w.items| ==> w.items[i].root in db.objects)
    && (forall i :: (if Settling(w) then w.n else 0) <= i < |w.items| ==> Waiting(db, w.items[i].root))
  }

  ghost predicate WorkerOk(s: State) {
    s.cfg.batchMax > 0 && s.cfg.maxRetries > 0 && Shaped(s.worker, s.cfg) && Apart(s.worker) && Owned(s.db, s.worker)
  }

  // ---- Puts ----

  ghost predicate PutOk(db: DB, p: Put) {
    && p.content != []
    && (p.pc.Known? || p.pc.Salvaging? || p.pc.Rearming? ==>
          p.pc.m.root == Root(p.content) && p.pc.m.root in db.objects)
    && (p.pc.Salvaging? || p.pc.Rearming? ==> !p.pc.m.status.Finalized?)
  }

  ghost predicate PutsOk(s: State) {
    && (forall id :: id in s.puts ==> id < s.nextId && PutOk(s.db, s.puts[id]))
    && (forall id :: id in s.results ==> id < s.nextId && id !in s.puts)
  }

  // ---- WorkerOk ----

  lemma WorkKeepsShape(s: State, a: WorkerAction)
    requires WorkerOk(s)
    ensures Shaped(WorkMove(s, a), s.cfg)
  {
  }

  lemma DroppedApart(w: Worker)
    requires Apart(w) && w.todo != []
    ensures Apart(Dropped(w)) && w.todo[0] !in Dropped(w).todo
  {
    var w' := Dropped(w);
    assert forall i :: 0 <= i < |w'.todo| ==> w'.todo[i] == w.todo[i + 1];
  }

  lemma CollectedApart(w: Worker, it: Held)
    requires Apart(w) && w.todo != [] && it.root == w.todo[0]
    ensures Apart(Collected(w, it))
  {
    DroppedApart(w);
    var w' := Collected(w, it);
    assert forall i :: 0 <= i < |w'.items| ==> w'.items[i] == if i < |w.items| then w.items[i] else it;
  }

  lemma SplitApart(rest: seq<Root>, k: nat)
    requires Distinct(rest) && k <= |rest|
    ensures Apart(Worker(Collect, rest[..k], [], 0, rest[k..]))
  {
  }

  lemma CollectKeepsApart(s: State, a: WorkerAction)
    requires WorkerOk(s) && (s.worker.pc.Collect? || s.worker.pc.Told?)
    ensures Apart(WorkMove(s, a))
  {
    var w := s.worker;
    if w.todo != [] {
      DroppedApart(w);
      if w.pc.Told? {
        CollectedApart(w, Held(w.todo[0], w.pc.answer.FileUploading?, Some(w.pc.answer)));
      } else if w.todo[0] in s.db.objects {
        CollectedApart(w, Held(w.todo[0], s.db.objects[w.todo[0]].skipTx, None));
      }
    }
  }

  lemma WorkKeepsApart(s: State, a: WorkerAction)
    requires WorkerOk(s)
    ensures Apart(WorkMove(s, a))
  {
    var w := s.worker;
    if w.pc.Collect? || w.pc.Told? {
      CollectKeepsApart(s, a);
    } else if w.pc.Batches? {
      SplitApart(w.rest, if s.cfg.batchMax < |w.rest| then s.cfg.batchMax else |w.rest|);
    } else if w.todo != [] {
      DroppedApart(w);
    }
  }

  lemma RearmsKeepOwned(db: DB, db': DB, w: Worker)
    requires Owned(db, w) && OnlyRearms(db, db')
    ensures Owned(db', w)
  {
  }

  lemma DroppedOwned(db: DB, db': DB, w: Worker)
    requires Owned(db, w) && Apart(w) && w.todo != [] && Elsewhere(db, db', w.todo[0])
    requires w.pc.Collect? || w.pc.Ask? || w.pc.Told? || Polling(w)
    ensures Owned(db', Dropped(w))
  {
    DroppedApart(w);
    var w' := Dropped(w);
    assert Polling(w') == Polling(w) && Settling(w') == Settling(w);
    assert forall r :: r in w'.todo ==> r in w.todo && r != w.todo[0];
  }

  lemma CollectedOwned(db: DB, db': DB, w: Worker, it: Held)
    requires Owned(db, w) && Apart(w) && w.todo != [] && it.root == w.todo[0] && OnlyRearms(db, db')
    requires w.pc.Collect? || w.pc.Told?
    ensures Owned(db', Collected(w, it))
  {
    var w' := Collected(w, it);
    assert Waiting(db, w.todo[0]);
    assert forall r :: r in w'.todo ==> r in w.todo;
    assert forall i :: 0 <= i < |w'.items| ==> w'.items[i] == if i < |w.items| then w.items[i] else it;
  }

  /** Item `n` is dealt with; the others keep their status. */
  lemma AdvancedOwned(db: DB, db': DB, w: Worker, pc: PC)
    requires Owned(db, w) && Apart(w) && w.n < |w.items| && Elsewhere(db, db', w.items[w.n].root)
    requires w.todo == []
    requires Settling(w) || Waiting(db', w.items[w.n].root)
    requires Settling(w) == Settling(w.(pc := pc)) && !Polling(w.(pc := pc))
    ensures Owned(db', w.(pc := pc, n := w.n + 1))
  {
  }

  lemma CollectKeepsOwned(s: State, a: WorkerAction, db': DB)
    requires WorkerOk(s) && (s.worker.pc.Collect? || s.worker.pc.Ask? || s.worker.pc.Told?)
    requires Wrote(s.db, db', Focus(s.worker), WorkTxn(s, a))
    ensures Owned(db', WorkMove(s, a))
  {
    var w := s.worker;
    if w.todo != [] {
      var r := w.todo[0];
      if WorkMove(s, a) == Dropped(w) {
        DroppedOwned(s.db, db', w);
      } else if w.pc.Collect? && r in s.db.objects {
        CollectedOwned(s.db, db', w, Held(r, s.db.objects[r].skipTx, None));
      } else if w.pc.Told? && !w.pc.answer.FileFinalized? {
        CollectedOwned(s.db, db', w, Held(r, w.pc.answer.FileUploading?, Some(w.pc.answer)));
      }
    }
  }

  lemma MarkKeepsOwned(s: State, a: WorkerAction, db': DB)
    requires WorkerOk(s) && (s.worker.pc.Mark? || s.worker.pc.Record?)
    requires Wrote(s.db, db', Focus(s.worker), WorkTxn(s, a))
    ensures Owned(db', WorkMove(s, a))
  {
    var w := s.worker;
    if w.n < |w.items| && WorkTxn(s, a).Some? {
      AdvancedOwned(s.db, db', w, w.pc);
    }
  }

  lemma ReconAskKeepsOwned(s: State, a: WorkerAction)
    requires WorkerOk(s) && s.worker.pc.Recon?
    ensures WorkTxn(s, a).None? && Owned(s.db, WorkMove(s, a))
  {
  }

  /** Noting the SkipTx verdict and counting a retry leave the item waiting. */
  lemma ReconNoteKeepsOwned(s: State, a: WorkerAction, db': DB)
    requires WorkerOk(s) && (s.worker.pc.ReconSkip? || s.worker.pc.ReconInc?)
    requires Wrote(s.db, db', Focus(s.worker), WorkTxn(s, a))
    ensures Owned(db', WorkMove(s, a))
  {
    var w := s.worker;
    if w.n < |w.items| {
      if w.pc.ReconSkip? || WorkTxn(s, a).Some? {
        RearmsKeepOwned(s.db, db', w);
      } else if a.ReconStore? {
        AdvancedOwned(s.db, db', w, Recon);
      }
    }
  }

  lemma ReconSettleKeepsOwned(s: State, a: WorkerAction, db': DB)
    requires WorkerOk(s) && (s.worker.pc.ReconClose? || s.worker.pc.ReconWrite?)
    requires Wrote(s.db, db', Focus(s.worker), WorkTxn(s, a))
    ensures Owned(db', WorkMove(s, a))
  {
    if s.worker.n < |s.worker.items| && a.ReconStore? {
      AdvancedOwned(s.db, db', s.worker, Recon);
    }
  }

  lemma ReconKeepsOwned(s: State, a: WorkerAction, db': DB)
    requires WorkerOk(s) && Settling(s.worker) && !s.worker.pc.Record?
    requires Wrote(s.db, db', Focus(s.worker), WorkTxn(s, a))
    ensures Owned(db', WorkMove(s, a))
  {
    if s.worker.pc.Recon? {
      ReconAskKeepsOwned(s, a);
    } else if s.worker.pc.ReconSkip? || s.worker.pc.ReconInc? {
      ReconNoteKeepsOwned(s, a, db');
    } else {
      ReconSettleKeepsOwned(s, a, db');
    }
  }

  lemma PollKeepsOwned(s: State, a: WorkerAction, db': DB)
    requires WorkerOk(s) && Polling(s.worker)
    requires Wrote(s.db, db', Focus(s.worker), WorkTxn(s, a))
    ensures Owned(db', WorkMove(s, a))
  {
    if s.worker.todo != [] && WorkMove(s, a) == Dropped(s.worker) {
      DroppedOwned(s.db, db', s.worker);
    }
  }

  lemma IdleKeepsOwned(s: State, a: WorkerAction)
    requires DbOk(s.db) && WorkerOk(s) && (s.worker.pc.Idle? || s.worker.pc.Batches?)
    ensures Owned(s.db, WorkMove(s, a))
  {
  }

  /** Every worker transaction goes to the root in focus. */
  lemma WorkTxnLocal(s: State, a: WorkerAction)
    requires WorkerOk(s)
    ensures WorkTxn(s, a).Some? ==>
      !WorkTxn(s, a).value.TCreate? && WorkTxn(s, a).value.r == Focus(s.worker) && Focus(s.worker) in s.db.objects
  {
  }

  lemma WorkKeepsWorker(s: State, s': State, a: WorkerAction)
    requires DbOk(s.db) && WorkerOk(s) && WorkEffect(s, s', a)
    ensures WorkerOk(s')
  {
    WorkKeepsShape(s, a);
    WorkKeepsApart(s, a);
    match s.worker.pc {
      case Idle | Batches => IdleKeepsOwned(s, a);
      case Collect | Ask | Told(_) => CollectKeepsOwned(s, a, s'.db);
      case Poll | PollTold(_) => PollKeepsOwned(s, a, s'.db);
      case Mark | Record(_) => MarkKeepsOwned(s, a, s'.db);
      case _ => ReconKeepsOwned(s, a, s'.db);
    }
  }

  lemma PutKeepsWorker(s: State, s': State, id: nat, a: PutAction)
    requires WorkerOk(s) && id in s.puts && PutEffect(s, s', id, a)
    ensures WorkerOk(s')
  {
    RearmsKeepOwned(s.db, s'.db, s.worker);
  }

  lemma OtherKeepsWorker(s: State, s': State, a: OtherAction)
    requires WorkerOk(s) && OtherEffect(s, s', a)
    ensures WorkerOk(s')
  {
    RearmsKeepOwned(s.db, s'.db, s.worker);
  }

  // ---- PutsOk ----

  lemma PutsGrow(s: State, s': State)
    requires PutsOk(s) && s.db.objects.Keys <= s'.db.objects.Keys && s'.nextId == s.nextId
    requires s'.puts == s.puts && s'.results == s.results
    ensures PutsOk(s')
  {
    assert forall id :: id in s.puts && PutOk(s.db, s.puts[id]) ==> PutOk(s'.db, s.puts[id]);
  }

  lemma PutNextOk(s: State, id: nat, a: PutAction)
    requires DbOk(s.db) && PutsOk(s) && id in s.puts && PutNext(s, s.puts[id], a).To?
    ensures PutOk(s.db, s.puts[id].(pc := PutNext(s, s.puts[id], a).pc))
  {
    ShaIndexExact(s.db, s.puts[id].content);
  }

  lemma PutKeepsPuts(s: State, s': State, id: nat, a: PutAction)
    requires DbOk(s.db) && PutsOk(s) && id in s.puts && PutEffect(s, s', id, a)
    ensures PutsOk(s')
  {
    if PutNext(s, s.puts[id], a).To? {
      PutNextOk(s, id, a);
    }
    forall i | i in s'.puts
      ensures i < s'.nextId && PutOk(s'.db, s'.puts[i])
    {
      assert PutOk(s.db, s'.puts[i]);
    }
  }

  lemma OtherKeepsPuts(s: State, s': State, a: OtherAction)
    requires PutsOk(s) && OtherEffect(s, s', a)
    ensures PutsOk(s')
  {
    if !a.PutBegin? && !a.Crash? {
      PutsGrow(s, s');
    }
  }
}
