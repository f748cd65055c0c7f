/** Nothing a client was told is stored can be lost: the recoverability of every recorded
    object and the exactness of deduplication, over every reachable state. */
module Durability {
  import opened Outcomes
  import opened Content
  import opened MetaStore
  import opened ChainBackend
  import opened Protocol
  import opened ProtocolEffects
  import opened ProtocolSafety

  /** Whatever is finalized, about to be written finalized, or on the evictor's list, the
      chain has reported finalized. */
  ghost predicate Vouched(db: DB, w: Worker, reported: set<Root>, victims: Option<seq<Root>>) {
    && (forall r :: r in db.objects && db.objects[r].status.Finalized? ==> r in reported)
    && (w.pc == Told(FileFinalized) || w.pc == ReconClose || w.pc == PollTold(FileFinalized) ==> Focus(w) in reported)
    && (victims.Some? ==> forall r :: r in victims.value ==> r in reported)
  }

  ghost predicate VouchedOk(s: State) {
    Vouched(s.db, s.worker, s.reported, s.victims)
  }

  /** The bytes of `r` can be produced: they are in the cache, or the chain holds them. */
  predicate Kept(s: State, r: Root) {
    r in s.cache || r in s.reported
  }

  /** Cache files hold exactly the bytes their name addresses; every recorded root, and every
      root a Put has renamed into place but not yet recorded, is kept. */
  ghost predicate DurableOk(s: State) {
    && (forall r :: r in s.cache ==> s.cache[r] == r.content)
    && (forall r :: r in s.db.objects ==> Kept(s, r))
    && (forall id :: id in s.puts && s.puts[id].pc.Renamed? ==> Kept(s, Root(s.puts[id].content)))
  }

  /** Each record has one creator; a Put answers with its content's root, and answers
      "not a duplicate" only if it is that creator. */
  ghost predicate DedupOk(s: State) {
    && s.creators.Keys == s.db.objects.Keys
    && (forall id :: id in s.results ==>
          && s.results[id].root == Root(s.results[id].content)
          && s.results[id].root in s.db.objects
          && (!s.results[id].dedup ==> s.creators[s.results[id].root] == id))
  }

  ghost predicate Inv(s: State) {
    DbOk(s.db) && WorkerOk(s) && PutsOk(s) && VouchedOk(s) && DurableOk(s) && DedupOk(s)
  }

  // ---- vouching ----

  /** The worker writes finalized only for a root of which it has heard that answer. */
  lemma FinalizedWasReported(s: State, a: WorkerAction)
    requires WorkerOk(s) && VouchedOk(s)
    requires WorkTxn(s, a).Some? && WorkTxn(s, a).value.TSetStatus? && WorkTxn(s, a).value.st.Finalized?
    ensures WorkTxn(s, a).value.r == Focus(s.worker) && WorkTxn(s, a).value.r in s.reported
  {
  }

  /** It holds a finalized answer only because it has just heard it for the same root. */
  lemma AnswerIsHeard(s: State, a: WorkerAction)
    requires WorkerOk(s)
    ensures var w' := WorkMove(s, a);
      w'.pc == Told(FileFinalized) || w'.pc == ReconClose || w'.pc == PollTold(FileFinalized) ==>
        Focus(w') == Focus(s.worker) && (w'.pc == s.worker.pc || Answer(s.worker, a) == Some(FileFinalized))
  {
    var w := s.worker;
    match w.pc {
      case Ask => if w.todo != [] && a.AskNode? && a.ans.Some? { assert WorkMove(s, a) == w.(pc := Told(a.ans.value)); }
      case Recon => if a.ReconAsk? && w.n < |w.items| { assert Answer(w, a) == a.ans; }
      case Poll => if w.todo != [] && a.PollAsk? && a.ans.Some? { assert WorkMove(s, a) == w.(pc := PollTold(a.ans.value)); }
      case _ =>
    }
  }

  lemma WorkKeepsFinalizedVouched(s: State, db': DB, a: WorkerAction)
    requires WorkerOk(s) && VouchedOk(s) && Wrote(s.db, db', Focus(s.worker), WorkTxn(s, a))
    ensures forall r :: r in db'.objects && db'.objects[r].status.Finalized? ==> r in s.reported
  {
    forall r | r in db'.objects && db'.objects[r].status.Finalized?
      ensures r in s.reported
    {
      if !s.db.objects[r].status.Finalized? {
        FinalizedWasReported(s, a);
      }
    }
  }

  lemma WorkKeepsVouched(s: State, s': State, a: WorkerAction)
    requires WorkerOk(s) && VouchedOk(s) && WorkEffect(s, s', a)
    ensures VouchedOk(s')
  {
    AnswerIsHeard(s, a);
    WorkKeepsFinalizedVouched(s, s'.db, a);
  }

  lemma PutKeepsVouched(s: State, s': State, id: nat, a: PutAction)
    requires VouchedOk(s) && id in s.puts && PutEffect(s, s', id, a)
    ensures VouchedOk(s')
  {
  }

  lemma OtherKeepsVouched(s: State, s': State, a: OtherAction)
    requires VouchedOk(s) && OtherEffect(s, s', a)
    ensures VouchedOk(s')
  {
  }

  // ---- durability ----

  lemma PutKeepsDurable(s: State, s': State, id: nat, a: PutAction)
    requires id in s.puts && PutOk(s.db, s.puts[id]) && DurableOk(s) && PutEffect(s, s', id, a)
    ensures DurableOk(s')
  {
    assert forall r :: r in s.cache ==> r in s'.cache;
    forall i | i in s'.puts && s'.puts[i].pc.Renamed?
      ensures Kept(s', Root(s'.puts[i].content))
    {
      if i in s.puts && s.puts[i].pc.Renamed? {
        assert Kept(s, Root(s.puts[i].content));
      }
    }
  }

  lemma KeptGrows(s: State, s': State)
    requires DurableOk(s) && s'.cache == s.cache && s.reported <= s'.reported
    requires s'.db.objects.Keys == s.db.objects.Keys
    requires forall id :: id in s'.puts && s'.puts[id].pc.Renamed? ==> id in s.puts && s.puts[id] == s'.puts[id]
    ensures DurableOk(s')
  {
    assert forall r :: Kept(s, r) ==> Kept(s', r);
  }

  lemma OtherKeepsDurable(s: State, s': State, a: OtherAction)
    requires VouchedOk(s) && DurableOk(s) && OtherEffect(s, s', a)
    ensures DurableOk(s')
  {
    if a.EvictOne? && s.victims.Some? && s.victims.value != [] {
      assert s.victims.value[0] in s.reported;
      assert forall r :: Kept(s, r) ==> Kept(s', r);
    } else if a.Restore? {
      assert forall r :: Kept(s, r) ==> Kept(s', r);
    } else {
      KeptGrows(s, s');
    }
  }

  // ---- deduplication ----

  /** A Put creates a record only where there was none, and names itself its creator. */
  lemma CreatorsKept(s: State, s': State, id: nat, a: PutAction)
    requires PutsOk(s) && DedupOk(s) && id in s.puts && PutEffect(s, s', id, a)
    ensures s'.creators.Keys == s'.db.objects.Keys && s.creators.Keys <= s'.creators.Keys
    ensures forall r :: r in s.creators ==> s'.creators[r] == s.creators[r]
  {
  }

  /** What a Put answers: its content's root, "new" only having created the record. */
  lemma ReplyIsOwn(s: State, s': State, id: nat, a: PutAction)
    requires PutsOk(s) && DedupOk(s) && id in s.puts && PutEffect(s, s', id, a)
    requires PutNext(s, s.puts[id], a).Reply?
    ensures var move := PutNext(s, s.puts[id], a);
      && move.root == Root(s.puts[id].content) && move.root in s'.db.objects
      && (!move.dedup ==> move.root in s'.creators && s'.creators[move.root] == id)
  {
  }

  lemma PutKeepsDedup(s: State, s': State, id: nat, a: PutAction)
    requires PutsOk(s) && DedupOk(s) && id in s.puts && PutEffect(s, s', id, a)
    ensures DedupOk(s')
  {
    CreatorsKept(s, s', id, a);
    if PutNext(s, s.puts[id], a).Reply? {
      ReplyIsOwn(s, s', id, a);
    }
  }

  lemma WorkKeepsInv(s: State, a: WorkerAction)
    requires Inv(s)
    ensures Inv(WorkStep(s, a))
  {
    var s' := WorkStep(s, a);
    WorkTxnLocal(s, a);
    WorkHasEffect(s, a);
    WorkKeepsWorker(s, s', a);
    PutsGrow(s, s');
    WorkKeepsVouched(s, s', a);
    KeptGrows(s, s');
  }

  lemma PutKeepsInv(s: State, id: nat, a: PutAction)
    requires Inv(s) && id in s.puts
    ensures Inv(PutAct(s, id, a))
  {
    var s' := PutAct(s, id, a);
    PutHasEffect(s, id, a);
    PutKeepsWorker(s, s', id, a);
    PutKeepsPuts(s, s', id, a);
    PutKeepsVouched(s, s', id, a);
    PutKeepsDurable(s, s', id, a);
    PutKeepsDedup(s, s', id, a);
  }

  lemma OtherKeepsInv(s: State, a: OtherAction)
    requires Inv(s)
    ensures Inv(OtherStep(s, a))
  {
    var s' := OtherStep(s, a);
    OtherHasEffect(s, a);
    OtherKeepsWorker(s, s', a);
    OtherKeepsPuts(s, s', a);
    OtherKeepsVouched(s, s', a);
    OtherKeepsDurable(s, s', a);
  }

  lemma StepKeepsInv(s: State, a: Action)
    requires Inv(s)
    ensures Inv(Step(s, a))
  {
    match a {
      case Work(w) => WorkKeepsInv(s, w);
      case PutStep(id, p) => if id in s.puts { PutKeepsInv(s, id, p); }
      case Other(o) => OtherKeepsInv(s, o);
    }
  }

  lemma {:induction false} RunKeepsInv(s: State, actions: seq<Action>)
    requires Inv(s)
    ensures Inv(Run(s, actions))
    decreases |actions|
  {
    if actions != [] {
      StepKeepsInv(s, actions[0]);
      RunKeepsInv(Step(s, actions[0]), actions[1..]);
    }
  }

  lemma InitInv(cfg: Config)
    requires cfg.batchMax > 0 && cfg.maxRetries > 0
    ensures Inv(Init(cfg))
  {
  }

  /** Whatever Puts, reads, evictions, worker steps, crashes and failed transactions happened,
      in any order: a recorded object's bytes are in its cache file, exactly, or the chain has
      reported them finalized; and only such reported files are ever evicted. */
  lemma EveryObjectRecoverable(cfg: Config, actions: seq<Action>, r: Root)
    requires cfg.batchMax > 0 && cfg.maxRetries > 0
    ensures var s := Run(Init(cfg), actions);
      && (r in s.db.objects ==> r in s.reported || (r in s.cache && s.cache[r] == r.content))
      && (s.victims.Some? && r in s.victims.value ==> r in s.reported)
      && (r in s.db.objects && s.db.objects[r].status.Finalized? ==> r in s.reported)
  {
    InitInv(cfg);
    RunKeepsInv(Init(cfg), actions);
  }

  /** Deduplication is exact: equal contents always answer the same root, and among all Puts
      of one content at most one is answered as new. */
  lemma DedupExact(cfg: Config, actions: seq<Action>, i: nat, j: nat)
    requires cfg.batchMax > 0 && cfg.maxRetries > 0
    ensures var s := Run(Init(cfg), actions);
      i in s.results && j in s.results && s.results[i].content == s.results[j].content ==>
        && s.results[i].root == s.results[j].root == Root(s.results[i].content)
        && (!s.results[i].dedup && !s.results[j].dedup ==> i == j)
  {
    InitInv(cfg);
    RunKeepsInv(Init(cfg), actions);
  }
}
