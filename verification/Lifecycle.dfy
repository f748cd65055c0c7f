/** Which status changes can happen, and when a finalized object stays finalized. */
module Lifecycle {
  import opened Outcomes
  import opened Content
  import opened MetaStore
  import opened ChainBackend
  import opened Protocol
  import opened ProtocolEffects
  import opened ProtocolSafety
  import opened Durability

  /** The changes the worker makes: anything still to upload may move on, an onchain object is
      finalized or fails, and finalized and failed objects are left alone. */
  predicate WorkerEdge(a: Status, b: Status) {
    a == b || AwaitsUpload(a) || (a.Onchain? && (b.Finalized? || b.Failed?))
  }

  /** A Put about to re-arm `r` on the strength of a status it read earlier. */
  predicate HoldsRearm(s: State, id: nat, r: Root) {
    id in s.puts && s.puts[id].pc.Rearming? && s.puts[id].pc.m.root == r
  }

  lemma WorkEdges(s: State, s': State, a: WorkerAction, r: Root)
    requires WorkerOk(s) && WorkEffect(s, s', a) && r in s.db.objects
    ensures r in s'.db.objects && WorkerEdge(s.db.objects[r].status, s'.db.objects[r].status)
  {
    if WorkTxn(s, a).Some? && r == Focus(s.worker) {
      FocusStatus(s, a);
    }
  }

  /** The object in focus was chosen for its status, and only a re-arm can have changed it. */
  lemma FocusStatus(s: State, a: WorkerAction)
    requires WorkerOk(s) && WorkTxn(s, a).Some?
    ensures var st := s.db.objects[Focus(s.worker)].status;
      if s.worker.pc.PollTold? then
        (st.Onchain? || st.Pending?) && WorkTxn(s, a).value.TSetStatus?
        && (WorkTxn(s, a).value.st.Finalized? || WorkTxn(s, a).value.st.Failed?)
      else AwaitsUpload(st)
  {
    WorkTxnLocal(s, a);
  }

  /** How `r` may differ after an action: the worker's moves, a re-arm, or a new object. */
  ghost predicate EdgeTaken(s: State, s': State, a: Action, r: Root) {
    r in s'.db.objects ==>
      var m' := s'.db.objects[r];
      if r !in s.db.objects then StartsNew(r, m')
      else
        var m := s.db.objects[r];
        match a
        case Work(w) => WorkerEdge(m.status, m'.status)
        case PutStep(id, p) =>
          if p.Rearm? && HoldsRearm(s, id, r) then StartsAgain(m, m') else m' == m
        case Other(o) => m' == m.(lastAccess := m'.lastAccess)
  }

  lemma PutEdges(s: State, s': State, id: nat, a: PutAction, r: Root)
    requires PutsOk(s) && id in s.puts && PutEffect(s, s', id, a)
    ensures EdgeTaken(s, s', PutStep(id, a), r)
  {
    assert r in Ended(PutTxn(s.db, s.puts[id], a)) && r in s.db.objects <==> a.Rearm? && HoldsRearm(s, id, r);
  }

  /** Every status change in every reachable state is a lifecycle edge: the worker's own
      moves, or a Put re-arming the object to pending; reads, evictions, prunes and crashes
      change no status, and new objects start pending. */
  lemma StatusChangesAreEdges(s: State, a: Action, r: Root)
    requires Inv(s)
    ensures EdgeTaken(s, Step(s, a), a, r)
    ensures r in s.db.objects ==> r in Step(s, a).db.objects
  {
    var s' := Step(s, a);
    match a {
      case Work(w) =>
        assert s' == WorkStep(s, w);
        WorkTxnLocal(s, w);
        WorkHasEffect(s, w);
        if r in s.db.objects {
          WorkEdges(s, s', w, r);
        }
      case PutStep(id, p) =>
        if id in s.puts {
          PutHasEffect(s, id, p);
          PutEdges(s, s', id, p, r);
        }
      case Other(o) => OtherHasEffect(s, o);
    }
  }

  // ---- what the worker writes, and on which answer ----

  /** The record in focus after the worker's committed write, by where the worker stands. */
  predicate WrittenAt(w: Worker, maxRetries: nat, m: ObjectMeta, m': ObjectMeta) {
    match w.pc
    case Told(ans) => m' == if ans.FileFinalized? then m.(status := Finalized) else m.(skipTx := ans.FileUploading?)
    case Mark => m' == m.(status := Submitted)
    case Record(tx) =>
      w.n < |w.items| && m' == m.(status := Onchain, txHash := if w.items[w.n].skipTx || tx == "" then m.txHash else tx)
    case ReconClose => m' == m.(status := Finalized)
    case ReconSkip => m' == m.(skipTx := true)
    case ReconInc => m' == m.(retries := m.retries + 1)
    case ReconWrite(count) =>
      m' == if count > maxRetries then m.(status := Failed, failReason := RetriesExhausted) else m.(status := Pending)
    case PollTold(FileFinalized) => m' == m.(status := Finalized)
    case PollTold(FilePruned) => m' == m.(status := Failed, failReason := PrunedOnNodes)
    case _ => false
  }

  lemma FocusWritten(s: State, a: WorkerAction)
    requires WorkerOk(s) && WorkTxn(s, a).Some?
    ensures Focus(s.worker) in s.db.objects && (a.WriteTold? || a.MarkOne? || a.RecordOne? || a.ReconStore? || a.PollStore?) && a.ok
    ensures var m := s.db.objects[Focus(s.worker)];
      WrittenAt(s.worker, s.cfg.maxRetries, m, After(m, WorkTxn(s, a).value))
  {
    WorkTxnLocal(s, a);
  }

  /** The worker changes no record but the one in focus, and that one as its step says. */
  lemma WorkerWrites(s: State, s': State, a: WorkerAction, r: Root)
    requires WorkerOk(s) && WorkEffect(s, s', a) && r in s.db.objects
    ensures r in s'.db.objects
    ensures var m, m' := s.db.objects[r], s'.db.objects[r];
      if r == Focus(s.worker) && WorkTxn(s, a).Some? then WrittenAt(s.worker, s.cfg.maxRetries, m, m') else m' == m
  {
    if WorkTxn(s, a).Some? {
      FocusWritten(s, a);
    }
  }

  lemma WorkTakesEffect(s: State, a: WorkerAction)
    requires Inv(s)
    ensures WorkEffect(s, WorkStep(s, a), a)
  {
    WorkTxnLocal(s, a);
    WorkHasEffect(s, a);
  }

  /** What the poll stores, having heard an answer. */
  lemma PollStores(s: State, a: WorkerAction)
    requires WorkerOk(s) && s.worker.pc.PollTold?
    ensures WorkTxn(s, a).Some? <==>
              a == PollStore(true) && (s.worker.pc.answer.FileFinalized? || s.worker.pc.answer.FilePruned?)
  {
  }

  /** Of onchain objects the worker writes only the one it polls. */
  lemma OnchainInFocus(s: State, a: WorkerAction)
    requires WorkerOk(s) && WorkTxn(s, a).Some? && s.db.objects[Focus(s.worker)].status.Onchain?
    ensures s.worker.pc.PollTold?
  {
    FocusStatus(s, a);
  }
  /** How an action leaves an onchain object: closed when the poll stores a finalized answer
      about it, failed when it stores a pruned one, and otherwise as it was. */
  lemma OnchainLeaves(s: State, s': State, a: WorkerAction, r: Root)
    requires WorkerOk(s) && WorkEffect(s, s', a) && r in s.db.objects && s.db.objects[r].status.Onchain?
    ensures r in s'.db.objects
    ensures var m := s.db.objects[r]; var stores := r == Focus(s.worker) && a == PollStore(true);
      s'.db.objects[r] ==
        if stores && s.worker.pc == PollTold(FileFinalized) then m.(status := Finalized)
        else if stores && s.worker.pc == PollTold(FilePruned) then m.(status := Failed, failReason := PrunedOnNodes)
        else m
  {
    WorkerWrites(s, s', a, r);
    if s.worker.pc.PollTold? {
      PollStores(s, a);
    } else if WorkTxn(s, a).Some? && r == Focus(s.worker) {
      OnchainInFocus(s, a);
    }
  }

  /** What reconcileFailedBatch and the collecting loop store. */
  lemma ReconStores(s: State, a: WorkerAction)
    requires WorkerOk(s)
    ensures s.worker.pc.ReconSkip? || s.worker.pc.ReconWrite? ==> (WorkTxn(s, a).Some? <==> a == ReconStore(true))
    ensures s.worker.pc.Told? ==> (WorkTxn(s, a).Some? <==> a == WriteTold(true))
  {
  }

  /** SkipTx is written in two places, and only there: while a batch is collected it becomes
      whether the nodes answered "uploading"; after a failed batch it is set on that answer. */
  lemma SkipTxWritten(s: State, s': State, a: WorkerAction, r: Root)
    requires WorkerOk(s) && WorkEffect(s, s', a) && r in s.db.objects
    ensures r in s'.db.objects
    ensures var pc := s.worker.pc;
      s'.db.objects[r].skipTx ==
        if r == Focus(s.worker) && a == WriteTold(true) && pc.Told? && !pc.answer.FileFinalized? then pc.answer.FileUploading?
        else if r == Focus(s.worker) && a == ReconStore(true) && pc.ReconSkip? then true
        else s.db.objects[r].skipTx
  {
    WorkerWrites(s, s', a, r);
    ReconStores(s, a);
  }

  /** The worker fails an object for two reasons, and names them: the retry counted after a
      failed batch is past the cap, or the poll has heard "pruned" about it. */
  lemma FailsIff(s: State, s': State, a: WorkerAction, r: Root)
    requires WorkerOk(s) && WorkEffect(s, s', a) && r in s.db.objects && !s.db.objects[r].status.Failed?
    ensures r in s'.db.objects
    ensures var m', pc := s'.db.objects[r], s.worker.pc;
      && (m'.status.Failed? <==>
            && r == Focus(s.worker)
            && if pc.ReconWrite? then a == ReconStore(true) && pc.count > s.cfg.maxRetries
               else a == PollStore(true) && pc == PollTold(FilePruned))
      && (m'.status.Failed? ==> m'.failReason == if pc.ReconWrite? then RetriesExhausted else PrunedOnNodes)
  {
    WorkerWrites(s, s', a, r);
    ReconStores(s, a);
    if s.worker.pc.PollTold? {
      PollStores(s, a);
    }
  }

  /** The collecting loop and the poll hold the answer they are given, about the same root; with
      none they go on to the next. */
  lemma AskTakesAnswer(s: State, a: WorkerAction)
    requires WorkerOk(s) && s.worker.todo != []
    requires (s.worker.pc.Ask? && a.AskNode?) || (s.worker.pc.Poll? && a.PollAsk?)
    ensures var w, w' := s.worker, WorkMove(s, a);
      && Answer(w, a) == a.ans
      && if a.ans.None? then w' == Dropped(w)
         else Focus(w') == Focus(w) && w'.pc == if w.pc.Ask? then Told(a.ans.value) else PollTold(a.ans.value)
  {
  }

  /** After a failed batch each branch is entered on its answer: "finalized" closes the item,
      "uploading" notes SkipTx and then counts, anything else, or no answer, counts at once. */
  lemma ReconTakesAnswer(s: State, a: WorkerAction)
    requires WorkerOk(s) && s.worker.pc.Recon? && s.worker.n < |s.worker.items| && a.ReconAsk?
    ensures var w' := WorkMove(s, a);
      && Focus(w') == Focus(s.worker) && Answer(s.worker, a) == a.ans
      && (w'.pc.ReconClose? <==> a.ans == Some(FileFinalized))
      && (w'.pc.ReconSkip? <==> a.ans == Some(FileUploading))
      && (w'.pc.ReconInc? <==> a.ans != Some(FileFinalized) && a.ans != Some(FileUploading))
  {
  }

  /** And these places are entered from there only. */
  lemma EnteredByAnswer(s: State, a: WorkerAction)
    requires WorkerOk(s) && WorkMove(s, a) != s.worker
    ensures var w, w' := s.worker, WorkMove(s, a);
      && (w'.pc.Told? ==> w.pc.Ask? && a.AskNode? && w.todo != [])
      && (w'.pc.PollTold? ==> w.pc.Poll? && a.PollAsk? && w.todo != [])
      && (w'.pc.ReconClose? || w'.pc.ReconSkip? ==> w.pc.Recon? && a.ReconAsk? && w.n < |w.items|)
      && (w'.pc.ReconInc? ==> w.pc.ReconSkip? || (w.pc.Recon? && a.ReconAsk? && w.n < |w.items|))
  {
  }

  /** The next status of an onchain object: it fails or is finalized exactly when the poll stores
      that answer about it, and goes back to pending exactly when a Put re-arms it. */
  ghost predicate OnchainGoes(s: State, s': State, a: Action, r: Root) {
    && r in s'.db.objects
    && var st := s'.db.objects[r].status; var stores := a == Work(PollStore(true)) && r == Focus(s.worker);
      && (st.Failed? <==> stores && s.worker.pc == PollTold(FilePruned))
      && (st.Finalized? <==> stores && s.worker.pc == PollTold(FileFinalized))
      && (st.Pending? <==> a.PutStep? && a.p.Rearm? && HoldsRearm(s, a.id, r))
      && !st.Submitted?
  }

  lemma WorkOnchainGoes(s: State, s': State, a: WorkerAction, r: Root)
    requires WorkerOk(s) && WorkEffect(s, s', a) && r in s.db.objects && s.db.objects[r].status.Onchain?
    ensures OnchainGoes(s, s', Work(a), r)
  {
    OnchainLeaves(s, s', a, r);
  }

  lemma EdgeOnchainGoes(s: State, s': State, a: Action, r: Root)
    requires EdgeTaken(s, s', a, r) && !a.Work? && r in s'.db.objects
    requires r in s.db.objects && s.db.objects[r].status.Onchain?
    ensures OnchainGoes(s, s', a, r)
  {
  }

  lemma OnchainGoesBy(s: State, a: Action, r: Root)
    requires Inv(s) && r in s.db.objects && s.db.objects[r].status.Onchain?
    ensures OnchainGoes(s, Step(s, a), a, r)
  {
    var s' := Step(s, a);
    if a.Work? {
      WorkTakesEffect(s, a.w);
      WorkOnchainGoes(s, s', a.w, r);
    } else {
      StatusChangesAreEdges(s, a, r);
      EdgeOnchainGoes(s, s', a, r);
    }
  }

  /** In every reachable state of every interleaving. */
  lemma OnchainLeavesIff(cfg: Config, actions: seq<Action>, a: Action, r: Root)
    requires cfg.batchMax > 0 && cfg.maxRetries > 0
    requires var s := Run(Init(cfg), actions); r in s.db.objects && s.db.objects[r].status.Onchain?
    ensures OnchainGoes(Run(Init(cfg), actions), Step(Run(Init(cfg), actions), a), a, r)
  {
    InitInv(cfg);
    RunKeepsInv(Init(cfg), actions);
    OnchainGoesBy(Run(Init(cfg), actions), a, r);
  }

  /** Finalized is not absorbing under full interleaving.  It is lost exactly when a Put re-arms
      the object on the strength of an earlier status, one that was not finalized. */
  lemma FinalizedLostIff(s: State, a: Action, r: Root)
    requires Inv(s) && r in s.db.objects && s.db.objects[r].status.Finalized?
    ensures r in Step(s, a).db.objects
    ensures !Step(s, a).db.objects[r].status.Finalized?
            <==> a.PutStep? && a.p.Rearm? && HoldsRearm(s, a.id, r)
    ensures a.PutStep? && HoldsRearm(s, a.id, r) ==> !s.puts[a.id].pc.m.status.Finalized?
  {
    StatusChangesAreEdges(s, a, r);
    assert a.PutStep? && a.id in s.puts ==> PutOk(s.db, s.puts[a.id]);
  }

  // ---- Put's read and re-arm taken as atomic with respect to the worker ----

  /** The worker writes no "finalized" for a root that a Put is about to re-arm. */
  ghost predicate AtomicPuts(s: State, a: Action) {
    a.Work? && WorkTxn(s, a.w).Some? && WorkTxn(s, a.w).value.TSetStatus? && WorkTxn(s, a.w).value.st.Finalized? ==>
      forall id :: id in s.puts ==> !MayRearm(s.puts[id], WorkTxn(s, a.w).value.r)
  }

  /** The Put has read a status other than finalized for `r` and may still re-arm it. */
  predicate MayRearm(p: Put, r: Root) {
    match p.pc
    case Known(m) => m.root == r && !m.status.Finalized?
    case Salvaging(m) => m.root == r
    case Rearming(m) => m.root == r
    case _ => false
  }

  ghost predicate NoneStale(s: State) {
    forall id :: id in s.puts ==> forall r :: r in s.db.objects && MayRearm(s.puts[id], r) ==> !s.db.objects[r].status.Finalized?
  }

  ghost predicate AtomicRun(s: State, actions: seq<Action>)
    decreases |actions|
  {
    actions != [] ==> AtomicPuts(s, actions[0]) && AtomicRun(Step(s, actions[0]), actions[1..])
  }

  lemma WorkKeepsNoneStale(s: State, s': State, a: WorkerAction)
    requires NoneStale(s) && AtomicPuts(s, Work(a)) && s'.puts == s.puts
    requires Wrote(s.db, s'.db, Focus(s.worker), WorkTxn(s, a))
    requires WorkTxn(s, a).Some? ==> !WorkTxn(s, a).value.TCreate? && WorkTxn(s, a).value.r == Focus(s.worker)
    ensures NoneStale(s')
  {
    var t := WorkTxn(s, a);
    forall id, r | id in s'.puts && r in s'.db.objects && MayRearm(s'.puts[id], r)
      ensures !s'.db.objects[r].status.Finalized?
    {
      assert MayRearm(s.puts[id], r);
      if t.Some? && r == t.value.r {
        assert !(t.value.TSetStatus? && t.value.st.Finalized?);
      }
    }
  }

  /** A Put's view of the status is fresh when it looks it up, and only gets older. */
  lemma PutNextNotStale(s: State, id: nat, a: PutAction, r: Root)
    requires DbOk(s.db) && id in s.puts && PutNext(s, s.puts[id], a).To?
    requires MayRearm(s.puts[id].(pc := PutNext(s, s.puts[id], a).pc), r)
    ensures MayRearm(s.puts[id], r) || (r in s.db.objects && !s.db.objects[r].status.Finalized?)
  {
  }

  lemma PutKeepsNoneStale(s: State, s': State, id: nat, a: PutAction)
    requires DbOk(s.db) && NoneStale(s) && id in s.puts && PutEffect(s, s', id, a)
    ensures NoneStale(s')
  {
    forall i, r | i in s'.puts && r in s'.db.objects && MayRearm(s'.puts[i], r)
      ensures !s'.db.objects[r].status.Finalized?
    {
      if i == id && PutNext(s, s.puts[id], a).To? {
        PutNextNotStale(s, id, a, r);
      }
    }
  }

  lemma StepKeepsNoneStale(s: State, a: Action)
    requires Inv(s) && NoneStale(s) && AtomicPuts(s, a)
    ensures NoneStale(Step(s, a))
  {
    match a {
      case Work(w) =>
        WorkTxnLocal(s, w);
        WorkHasEffect(s, w);
        WorkKeepsNoneStale(s, WorkStep(s, w), w);
      case PutStep(id, p) =>
        if id in s.puts {
          PutHasEffect(s, id, p);
          PutKeepsNoneStale(s, PutAct(s, id, p), id, p);
        }
      case Other(o) =>
        OtherHasEffect(s, o);
        OtherKeepsNoneStale(s, OtherStep(s, o), o);
    }
  }

  lemma OtherKeepsNoneStale(s: State, s': State, a: OtherAction)
    requires NoneStale(s) && OtherEffect(s, s', a)
    ensures NoneStale(s')
  {
  }

  /** With Put's read and re-arm atomic, a finalized object stays finalized for ever. */
  lemma {:induction false} FinalizedIsAbsorbing(s: State, actions: seq<Action>, r: Root)
    requires Inv(s) && NoneStale(s) && AtomicRun(s, actions)
    requires r in s.db.objects && s.db.objects[r].status.Finalized?
    ensures r in Run(s, actions).db.objects && Run(s, actions).db.objects[r].status.Finalized?
    decreases |actions|
  {
    if actions != [] {
      var a := actions[0];
      if a.PutStep? && a.p.Rearm? && HoldsRearm(s, a.id, r) {
        assert MayRearm(s.puts[a.id], r);
      }
      FinalizedLostIff(s, a, r);
      StepKeepsInv(s, a);
      StepKeepsNoneStale(s, a);
      FinalizedIsAbsorbing(Step(s, a), actions[1..], r);
    }
  }

  lemma {:induction false} AtomicSplit(s: State, before: seq<Action>, after: seq<Action>)
    requires Inv(s) && NoneStale(s) && AtomicRun(s, before + after)
    ensures Inv(Run(s, before)) && NoneStale(Run(s, before)) && AtomicRun(Run(s, before), after)
    ensures Run(s, before + after) == Run(Run(s, before), after)
    decreases |before|
  {
    if before == [] {
      assert before + after == after;
    } else {
      assert (before + after)[1..] == before[1..] + after;
      StepKeepsInv(s, before[0]);
      StepKeepsNoneStale(s, before[0]);
      AtomicSplit(Step(s, before[0]), before[1..], after);
    }
  }

  /** So over every whole run with atomic re-arms, what was finalized at any point is finalized
      at the end, and the chain has reported it. */
  lemma FinalizedForGood(cfg: Config, before: seq<Action>, after: seq<Action>, r: Root)
    requires cfg.batchMax > 0 && cfg.maxRetries > 0 && AtomicRun(Init(cfg), before + after)
    requires r in Run(Init(cfg), before).db.objects && Run(Init(cfg), before).db.objects[r].status.Finalized?
    ensures var s := Run(Init(cfg), before + after);
      r in s.db.objects && s.db.objects[r].status.Finalized? && r in s.reported
  {
    InitInv(cfg);
    AtomicSplit(Init(cfg), before, after);
    FinalizedIsAbsorbing(Run(Init(cfg), before), after, r);
    EveryObjectRecoverable(cfg, before + after, r);
  }
}
