/** What the worker does within one enqueue epoch of a root (from its creation or re-arm to the
    next re-arm): it lands at most one chain entry per prune, never re-submits without asking
    the nodes first, and its retries are bounded. */
module Epochs {
  import opened Outcomes
  import opened Content
  import opened MetaStore
  import opened ChainBackend
  import opened Protocol
  import opened ProtocolEffects
  import opened ProtocolSafety
  import opened Durability
  import opened Lifecycle
  import opened Duplicates

  // ---- hypotheses on the environment ----

  /** `r` is written ahead as submitted and its batch not yet handed to the chain. */
  predicate InWindow(w: Worker, r: Root) {
    w.pc.Mark? && exists i :: 0 <= i < w.n && i < |w.items| && w.items[i].root == r
  }

  /** No Put re-arms a root inside that window. */
  ghost predicate OutsideWindow(s: State, a: Action) {
    forall r :: a.PutStep? && a.p.Rearm? && HoldsRearm(s, a.id, r) ==> !InWindow(s.worker, r)
  }

  /** Every re-arm of the run keeps out of the window. */
  ghost predicate OutsideRun(s: State, actions: seq<Action>)
    decreases |actions|
  {
    actions != [] ==> OutsideWindow(s, actions[0]) && OutsideRun(Step(s, actions[0]), actions[1..])
  }

  ghost predicate FairRun(s: State, actions: seq<Action>) {
    TruthfulRun(s, actions) && OutsideRun(s, actions)
  }

  // ---- the invariant ----

  ghost predicate LandedOk(s: State) {
    forall r ::
      && Count(s.landed, r) <= 1 && Count(s.landed, r) <= Count(s.live, r)
      && (Count(s.landed, r) > 0 ==> r in s.attempted)
  }

  /** Pending with no retries means that no upload was attempted in this epoch. */
  ghost predicate PendingOk(s: State) {
    && (forall r :: r in s.db.objects && r in s.attempted && s.db.objects[r].status.Pending? ==> s.db.objects[r].retries > 0)
    && (s.worker.pc.ReconWrite? ==>
          var r := Focus(s.worker);
          r in s.db.objects && (r in s.attempted ==> s.db.objects[r].retries > 0))
  }

  /** A member collected without asking was never attempted in its epoch. */
  ghost predicate UnaskedOk(s: State) {
    Collecting(s.worker) ==>
      forall i :: 0 <= i < |s.worker.items| && s.worker.items[i].answer.None? ==> s.worker.items[i].root !in s.attempted
  }

  ghost predicate MarkedOk(s: State) {
    s.worker.pc.Mark? ==>
      forall i :: 0 <= i < s.worker.n && i < |s.worker.items| ==>
        s.worker.items[i].root in s.db.objects && s.db.objects[s.worker.items[i].root].status.Submitted?
  }

  ghost predicate EpochOk(s: State) {
    LandedOk(s) && PendingOk(s) && AskedOk(s) && UnaskedOk(s) && MarkedOk(s)
  }

  // ---- worker steps ----

  lemma WorkKeepsLanded(s: State, s': State, a: WorkerAction)
    requires WorkerOk(s) && LandedOk(s) && AskedOk(s) && UnaskedOk(s) && WorkEffect(s, s', a)
    ensures LandedOk(s')
  {
    var hit := Landing(s.worker, a);
    forall r
      ensures Count(s'.landed, r) == Count(s.landed, r) + (if r in hit then 1 else 0)
      ensures Count(s'.live, r) == Count(s.live, r) + (if r in hit then 1 else 0)
    {
    }
    forall r | r in hit
      ensures Count(s.landed, r) == 0 && r in s'.attempted
    {
      var i :| 0 <= i < |s.worker.items| && !s.worker.items[i].skipTx && s.worker.items[i].root == r;
      assert AnswerKept(s.live, s.worker.items[i]);
    }
  }

  /** The write-ahead loop starts at its first item and advances by marking one. */
  lemma MarkMoves(s: State, a: WorkerAction)
    requires WorkerOk(s) && WorkMove(s, a).pc.Mark?
    ensures var w, w' := s.worker, WorkMove(s, a);
      || w'.n == 0
      || (w.pc.Mark? && w' == w && WorkTxn(s, a).None?)
      || (w.pc.Mark? && w.n < |w.items| && w' == w.(n := w.n + 1)
          && WorkTxn(s, a) == Some(TSetStatus(w.items[w.n].root, Submitted, "", NoFailure)))
  {
  }

  lemma WorkKeepsMarked(s: State, s': State, a: WorkerAction)
    requires WorkerOk(s) && MarkedOk(s) && s'.worker == WorkMove(s, a)
    requires Wrote(s.db, s'.db, Focus(s.worker), WorkTxn(s, a))
    ensures MarkedOk(s')
  {
    if s'.worker.pc.Mark? {
      MarkMoves(s, a);
    }
  }

  /** The worker puts an object back to pending only after counting a retry, and only then
      does it enter the gap before the status write. */
  lemma BackToPending(s: State, a: WorkerAction)
    requires WorkerOk(s) && WorkTxn(s, a).Some?
    ensures var m := s.db.objects[Focus(s.worker)]; var m' := After(m, WorkTxn(s, a).value);
      && (m'.status.Pending? ==> m.status.Pending? || s.worker.pc.ReconWrite?)
      && m'.retries == m.retries + (if WorkTxn(s, a).value.TIncRetries? then 1 else 0)
  {
    WorkTxnLocal(s, a);
  }

  lemma StayInGap(s: State, a: WorkerAction)
    requires s.worker.pc.ReconWrite? && WorkMove(s, a).pc.ReconWrite?
    ensures WorkMove(s, a) == s.worker
  {
  }

  lemma CountIntoGap(s: State, a: WorkerAction)
    requires WorkerOk(s) && !s.worker.pc.ReconWrite? && WorkMove(s, a).pc.ReconWrite?
    ensures s.worker.pc.ReconInc? && Focus(WorkMove(s, a)) == Focus(s.worker) && Focus(s.worker) in s.db.objects
    ensures WorkTxn(s, a) == Some(TIncRetries(Focus(s.worker)))
    ensures WorkMove(s, a).pc.count == s.db.objects[Focus(s.worker)].retries + 1
  {
  }

  lemma EnterGap(s: State, a: WorkerAction)
    requires WorkerOk(s) && WorkMove(s, a).pc.ReconWrite?
    ensures Focus(WorkMove(s, a)) == Focus(s.worker)
    ensures s.worker.pc.ReconWrite? || WorkTxn(s, a) == Some(TIncRetries(Focus(s.worker)))
    ensures s.worker.pc.ReconWrite? ==> WorkMove(s, a).pc == s.worker.pc
    ensures !s.worker.pc.ReconWrite? ==>
      Focus(s.worker) in s.db.objects && WorkMove(s, a).pc.count == s.db.objects[Focus(s.worker)].retries + 1
  {
    if s.worker.pc.ReconWrite? {
      StayInGap(s, a);
    } else {
      CountIntoGap(s, a);
    }
  }

  lemma UploadKeepsPending(s: State, s': State, a: WorkerAction)
    requires PendingOk(s) && MarkedOk(s) && Uploading(s.worker, a) && WorkEffect(s, s', a)
    ensures PendingOk(s')
  {
  }

  lemma WorkKeepsPending(s: State, s': State, a: WorkerAction)
    requires WorkerOk(s) && PendingOk(s) && MarkedOk(s) && WorkEffect(s, s', a)
    ensures PendingOk(s')
  {
    if Uploading(s.worker, a) {
      UploadKeepsPending(s, s', a);
    } else {
      if WorkTxn(s, a).Some? {
        WorkTxnLocal(s, a);
        BackToPending(s, a);
      }
      if s'.worker.pc.ReconWrite? {
        EnterGap(s, a);
      }
    }
  }

  /** What the collecting loop adds without asking has not been attempted. */
  lemma CollectedUnasked(s: State, a: WorkerAction)
    requires WorkerOk(s) && PendingOk(s)
    requires Collecting(WorkMove(s, a)) && WorkMove(s, a).items != []
    ensures !Uploading(s.worker, a) && Collecting(s.worker)
    ensures var items' := WorkMove(s, a).items;
      items' == s.worker.items
      || exists it :: items' == s.worker.items + [it] && (it.answer.None? ==> it.root !in s.attempted)
  {
    var w := s.worker;
    if w.pc.Collect? && w.todo != [] && a.Read? && w.todo[0] in s.db.objects {
      assert Waiting(s.db, w.todo[0]);
    }
  }

  lemma WorkKeepsUnasked(s: State, s': State, a: WorkerAction)
    requires WorkerOk(s) && PendingOk(s) && UnaskedOk(s) && WorkEffect(s, s', a)
    ensures UnaskedOk(s')
  {
    if Uploading(s.worker, a) {
      assert !Collecting(s'.worker);
    } else if Collecting(s'.worker) && s'.worker.items != [] {
      CollectedUnasked(s, a);
    }
  }

  // ---- Puts and the rest ----

  lemma PutKeepsMarked(s: State, s': State, id: nat, a: PutAction)
    requires PutsOk(s) && WorkerOk(s) && MarkedOk(s) && id in s.puts && PutEffect(s, s', id, a)
    requires OutsideWindow(s, PutStep(id, a))
    ensures MarkedOk(s')
  {
    if s.worker.pc.Mark? {
      forall i | 0 <= i < s.worker.n && i < |s.worker.items|
        ensures s.worker.items[i].root !in Ended(PutTxn(s.db, s.puts[id], a))
      {
        assert InWindow(s.worker, s.worker.items[i].root);
        if s.worker.items[i].root in Ended(PutTxn(s.db, s.puts[id], a)) {
          assert HoldsRearm(s, id, s.worker.items[i].root);
        }
      }
    }
  }

  lemma PutKeepsEpoch(s: State, s': State, id: nat, a: PutAction)
    requires WorkerOk(s) && PutsOk(s) && EpochOk(s) && id in s.puts && PutEffect(s, s', id, a)
    requires OutsideWindow(s, PutStep(id, a))
    ensures LandedOk(s') && PendingOk(s') && UnaskedOk(s') && MarkedOk(s')
  {
    PutKeepsMarked(s, s', id, a);
    var ended := Ended(PutTxn(s.db, s.puts[id], a));
    assert s'.landed == s.landed - ended && s'.attempted == s.attempted - ended && Reset(s.db, s'.db, ended);
    EndingKeepsEpoch(s, s', ended);
  }

  lemma EndingKeepsEpoch(s: State, s': State, ended: set<Root>)
    requires WorkerOk(s) && LandedOk(s) && PendingOk(s) && UnaskedOk(s)
    requires s'.landed == s.landed - ended && s'.attempted == s.attempted - ended && s'.live == s.live
    requires Reset(s.db, s'.db, ended) && s'.worker == s.worker
    ensures LandedOk(s') && PendingOk(s') && UnaskedOk(s')
  {
    assert forall r :: Count(s'.landed, r) == if r in ended then 0 else Count(s.landed, r);
  }

  lemma OtherKeepsEpoch(s: State, s': State, a: OtherAction)
    requires WorkerOk(s) && LandedOk(s) && PendingOk(s) && UnaskedOk(s) && MarkedOk(s) && OtherEffect(s, s', a)
    ensures LandedOk(s') && PendingOk(s') && UnaskedOk(s') && MarkedOk(s')
  {
    assert forall r :: Count(s'.live, r) <= Count(s.live, r) && Count(s'.landed, r) <= Count(s.landed, r);
  }

  lemma WorkKeepsEpoch(s: State, s': State, a: WorkerAction)
    requires WorkerOk(s) && EpochOk(s) && WorkEffect(s, s', a)
    ensures LandedOk(s') && PendingOk(s') && UnaskedOk(s') && MarkedOk(s')
  {
    WorkKeepsLanded(s, s', a);
    WorkKeepsMarked(s, s', a);
    WorkKeepsPending(s, s', a);
    WorkKeepsUnasked(s, s', a);
  }

  lemma StepKeepsEpoch(s: State, a: Action)
    requires Inv(s) && EpochOk(s) && Truthful(s, a) && OutsideWindow(s, a)
    ensures EpochOk(Step(s, a))
  {
    StepKeepsAsked(s, a);
    match a {
      case Work(w) =>
        WorkTxnLocal(s, w);
        WorkHasEffect(s, w);
        WorkKeepsEpoch(s, WorkStep(s, w), w);
      case PutStep(id, p) =>
        if id in s.puts {
          PutHasEffect(s, id, p);
          PutKeepsEpoch(s, PutAct(s, id, p), id, p);
        }
      case Other(o) =>
        OtherHasEffect(s, o);
        OtherKeepsEpoch(s, OtherStep(s, o), o);
    }
  }

  lemma {:induction false} RunKeepsEpoch(s: State, actions: seq<Action>)
    requires Inv(s) && EpochOk(s) && FairRun(s, actions)
    ensures Inv(Run(s, actions)) && EpochOk(Run(s, actions))
    decreases |actions|
  {
    if actions != [] {
      StepKeepsEpoch(s, actions[0]);
      StepKeepsInv(s, actions[0]);
      RunKeepsEpoch(Step(s, actions[0]), actions[1..]);
    }
  }

  lemma MembersAtUpload(s: State, i: nat)
    requires AskedOk(s) && UnaskedOk(s) && s.worker.pc.Mark? && i < |s.worker.items|
    ensures var it := s.worker.items[i];
        && (it.root in s.attempted ==> it.answer.Some?)
        && (it.answer.Some? ==> (it.skipTx <==> it.answer.value.FileUploading?))
  {
    assert AnswerKept(s.live, s.worker.items[i]);
  }

  /** At most one chain entry lands per root, epoch and prune, over every run with crashes and
      store failures anywhere; and whenever a batch is about to be uploaded, each member whose
      upload was already attempted in its epoch was reconciled in this very batch, with SkipTx
      set exactly when the nodes answered "uploading". */
  lemma NeverBlindlyResubmitted(cfg: Config, actions: seq<Action>, r: Root, i: nat)
    requires cfg.batchMax > 0 && cfg.maxRetries > 0 && FairRun(Init(cfg), actions)
    ensures Count(Run(Init(cfg), actions).landed, r) <= 1
    ensures var s := Run(Init(cfg), actions);
      s.worker.pc.Mark? && i < |s.worker.items| ==>
        var it := s.worker.items[i];
        && (it.root in s.attempted ==> it.answer.Some?)
        && (it.answer.Some? ==> (it.skipTx <==> it.answer.value.FileUploading?))
  {
    InitInv(cfg);
    RunKeepsEpoch(Init(cfg), actions);
    var s := Run(Init(cfg), actions);
    if s.worker.pc.Mark? && i < |s.worker.items| {
      MembersAtUpload(s, i);
    }
  }

  // ---- retries ----

  /** The allowance of one record: MaxRetries, the lost writes, and one in the gap or failed. */
  predicate Bounded(s: State, r: Root)
    requires r in s.db.objects
  {
    var extra := if s.db.objects[r].status.Failed? || (s.worker.pc.ReconWrite? && r == Focus(s.worker)) then 1 else 0;
    s.db.objects[r].retries <= s.cfg.maxRetries + Count(s.lost, r) + extra
  }

  /** Every record is within its allowance; in the gap the stored count is the one held. */
  ghost predicate RetryOk(s: State) {
    && (forall r :: r in s.db.objects ==> Bounded(s, r))
    && (s.worker.pc.ReconWrite? ==>
          Focus(s.worker) in s.db.objects && s.db.objects[Focus(s.worker)].retries <= s.worker.pc.count)
  }

  /** Failed is only written past the cap, pending only within it. */
  lemma RetryWrite(s: State, a: WorkerAction)
    requires WorkerOk(s) && WorkTxn(s, a).Some? && s.worker.pc.ReconWrite?
    ensures var m' := After(s.db.objects[Focus(s.worker)], WorkTxn(s, a).value);
      m'.status.Failed? || s.worker.pc.count <= s.cfg.maxRetries
  {
    WorkTxnLocal(s, a);
  }

  /** Leaving the gap without the write counts as a lost write. */
  lemma LeaveGap(s: State, a: WorkerAction)
    requires WorkerOk(s) && s.worker.pc.ReconWrite? && WorkTxn(s, a).None?
    ensures WorkMove(s, a) == s.worker || (a.ReconStore? && !a.ok)
  {
  }

  lemma LostAfter(s: State, s': State, a: WorkerAction, r: Root)
    requires WorkEffect(s, s', a)
    ensures Count(s'.lost, r) >= Count(s.lost, r)
    ensures a.ReconStore? && !a.ok && s.worker.pc.ReconWrite? && r == Focus(s.worker) ==>
              Count(s'.lost, r) == Count(s.lost, r) + 1
  {
  }

  /** The record in focus keeps its allowance through the gap and out of it. */
  lemma FocusBounded(s: State, s': State, a: WorkerAction)
    requires WorkerOk(s) && RetryOk(s) && WorkEffect(s, s', a) && Focus(s.worker) in s.db.objects
    ensures Focus(s.worker) in s'.db.objects && Bounded(s', Focus(s.worker))
  {
    var r := Focus(s.worker);
    LostAfter(s, s', a, r);
    if WorkTxn(s, a).Some? {
      BackToPending(s, a);
      FocusStatus(s, a);
      if s.worker.pc.ReconWrite? {
        RetryWrite(s, a);
      } else if WorkTxn(s, a).value.TIncRetries? {
        assert s'.worker.pc.ReconWrite?;
      }
    } else if s.worker.pc.ReconWrite? {
      LeaveGap(s, a);
    }
  }

  lemma OthersBounded(s: State, s': State, a: WorkerAction, r: Root)
    requires WorkerOk(s) && RetryOk(s) && WorkEffect(s, s', a) && r in s.db.objects && r != Focus(s.worker)
    ensures r in s'.db.objects && Bounded(s', r)
  {
    LostAfter(s, s', a, r);
    assert Bounded(s, r);
  }

  lemma GapKept(s: State, s': State, a: WorkerAction)
    requires WorkerOk(s) && RetryOk(s) && WorkEffect(s, s', a) && s'.worker.pc.ReconWrite?
    ensures Focus(s'.worker) in s'.db.objects && s'.db.objects[Focus(s'.worker)].retries <= s'.worker.pc.count
  {
    EnterGap(s, a);
  }

  lemma WorkKeepsRetry(s: State, s': State, a: WorkerAction)
    requires WorkerOk(s) && RetryOk(s) && WorkEffect(s, s', a)
    ensures RetryOk(s')
  {
    if s'.worker.pc.ReconWrite? {
      GapKept(s, s', a);
    }
    WorkTxnLocal(s, a);
    forall r | r in s'.db.objects
      ensures Bounded(s', r)
    {
      if r == Focus(s.worker) {
        FocusBounded(s, s', a);
      } else {
        OthersBounded(s, s', a, r);
      }
    }
  }

  lemma PutKeepsRetry(s: State, s': State, id: nat, a: PutAction)
    requires RetryOk(s) && id in s.puts && PutEffect(s, s', id, a)
    ensures RetryOk(s')
  {
    assert forall r :: r !in Ended(PutTxn(s.db, s.puts[id], a)) ==> Count(s'.lost, r) == Count(s.lost, r);
    assert forall r :: r in s.db.objects && r !in Ended(PutTxn(s.db, s.puts[id], a)) ==> Bounded(s, r);
  }

  lemma OtherKeepsBounded(s: State, s': State, a: OtherAction, r: Root)
    requires RetryOk(s) && OtherEffect(s, s', a) && r in s'.db.objects
    ensures Bounded(s', r)
  {
    assert Bounded(s, r) && Count(s'.lost, r) >= Count(s.lost, r);
    if a.Crash? && s.worker.pc.ReconWrite? {
      assert Count(s'.lost, Focus(s.worker)) == Count(s.lost, Focus(s.worker)) + 1;
    }
  }

  lemma OtherKeepsRetry(s: State, s': State, a: OtherAction)
    requires RetryOk(s) && OtherEffect(s, s', a)
    ensures RetryOk(s')
  {
    forall r | r in s'.db.objects
      ensures Bounded(s', r)
    {
      OtherKeepsBounded(s, s', a, r);
    }
  }

  lemma {:induction false} RunKeepsRetry(s: State, actions: seq<Action>)
    requires Inv(s) && RetryOk(s)
    ensures RetryOk(Run(s, actions))
    decreases |actions|
  {
    if actions != [] {
      StepKeepsRetry(s, actions[0]);
      StepKeepsInv(s, actions[0]);
      RunKeepsRetry(Step(s, actions[0]), actions[1..]);
    }
  }

  lemma StepKeepsRetry(s: State, a: Action)
    requires Inv(s) && RetryOk(s)
    ensures RetryOk(Step(s, a))
  {
    match a {
      case Work(w) =>
        WorkTxnLocal(s, w);
        WorkHasEffect(s, w);
        WorkKeepsRetry(s, WorkStep(s, w), w);
      case PutStep(id, p) =>
        if id in s.puts {
          PutHasEffect(s, id, p);
          PutKeepsRetry(s, PutAct(s, id, p), id, p);
        }
      case Other(o) =>
        OtherHasEffect(s, o);
        OtherKeepsRetry(s, OtherStep(s, o), o);
    }
  }

  /** Within an epoch Retries never exceeds MaxRetries + 1 plus the number of crashes and store
      failures that fell between a count and its status write. */
  lemma RetriesBounded(cfg: Config, actions: seq<Action>, r: Root)
    requires cfg.batchMax > 0 && cfg.maxRetries > 0
    ensures var s := Run(Init(cfg), actions);
      r in s.db.objects ==> s.db.objects[r].retries <= cfg.maxRetries + 1 + Count(s.lost, r)
  {
    InitInv(cfg);
    RunKeepsRetry(Init(cfg), actions);
    RunKeepsCfg(Init(cfg), actions);
  }
}
