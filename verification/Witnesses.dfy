/** Runs from the empty gateway that show why hypotheses are needed, for every configuration and
    content: a finalized object lost to a stale re-arm, two entries in one epoch through a re-arm
    inside the window, and two live entries across epochs with every hypothesis kept.  No answer
    in them is untruthful. */
module Witnesses {
  import opened Outcomes
  import opened Content
  import opened MetaStore
  import opened ChainBackend
  import opened Protocol
  import opened ProtocolEffects
  import opened ProtocolSafety
  import opened Durability
  import opened Lifecycle
  import opened Duplicates
  import opened Epochs

  lemma {:induction false} TruthfulSnoc(s: State, actions: seq<Action>, a: Action)
    requires TruthfulRun(s, actions) && Truthful(Run(s, actions), a)
    ensures TruthfulRun(s, actions + [a])
    decreases |actions|
  {
    if actions == [] {
      assert actions + [a] == [a] && [a][1..] == [];
    } else {
      assert (actions + [a])[1..] == actions[1..] + [a];
      TruthfulSnoc(Step(s, actions[0]), actions[1..], a);
    }
  }

  lemma {:induction false} OutsideSnoc(s: State, actions: seq<Action>, a: Action)
    requires OutsideRun(s, actions) && OutsideWindow(Run(s, actions), a)
    ensures OutsideRun(s, actions + [a])
    decreases |actions|
  {
    if actions == [] {
      assert actions + [a] == [a] && [a][1..] == [];
    } else {
      assert (actions + [a])[1..] == actions[1..] + [a];
      OutsideSnoc(Step(s, actions[0]), actions[1..], a);
    }
  }

  /** The actions lead from the empty gateway to `s`, all answers truthful; `fair` tells that
      re-arms kept out of the window. */
  ghost predicate Reached(fair: bool, cfg: Config, actions: seq<Action>, s: State) {
    && cfg.batchMax > 0 && cfg.maxRetries > 0 && s == Run(Init(cfg), actions)
    && TruthfulRun(Init(cfg), actions) && (fair ==> OutsideRun(Init(cfg), actions))
  }

  lemma ReachedInv(fair: bool, cfg: Config, actions: seq<Action>, s: State)
    requires Reached(fair, cfg, actions, s)
    ensures Inv(s) && s.cfg == cfg
  {
    InitInv(cfg);
    RunKeepsInv(Init(cfg), actions);
    RunKeepsCfg(Init(cfg), actions);
  }

  lemma Extends(fair: bool, cfg: Config, actions: seq<Action>, s: State, a: Action)
    requires Reached(fair, cfg, actions, s) && Truthful(s, a) && (fair ==> OutsideWindow(s, a))
    ensures Reached(fair, cfg, actions + [a], Step(s, a))
  {
    RunSnoc(Init(cfg), actions, a);
    TruthfulSnoc(Init(cfg), actions, a);
    if fair {
      OutsideSnoc(Init(cfg), actions, a);
    }
  }

  // ---- worker steps ----

  ghost predicate SamePuts(s: State, s': State) {
    s'.puts == s.puts && s'.nextId == s.nextId && s'.cache == s.cache && s'.cfg == s.cfg
  }

  /** Neither Puts nor `r`'s entries change. */
  ghost predicate Same(s: State, s': State, r: Root) {
    SamePuts(s, s') && Count(s'.live, r) == Count(s.live, r) && Count(s'.landed, r) == Count(s.landed, r)
  }

  predicate Asks(a: WorkerAction) {
    a.AskNode? || a.ReconAsk? || a.PollAsk?
  }

  /** A worker action, its transaction reduced to the record it writes. */
  lemma Works(fair: bool, cfg: Config, actions: seq<Action>, s: State, a: WorkerAction) returns (s': State)
    requires Reached(fair, cfg, actions, s) && (Asks(a) ==> Truthful(s, Work(a)))
    ensures Reached(fair, cfg, actions + [Work(a)], s') && DbOk(s'.db) && SamePuts(s, s')
    ensures s'.worker == WorkMove(s, a) && s'.landed == Bumped(s.landed, Landing(s.worker, a))
    ensures s'.live == Bumped(s.live, Landing(s.worker, a))
    ensures Wrote(s.db, s'.db, Focus(s.worker), WorkTxn(s, a))
  {
    ReachedInv(fair, cfg, actions, s);
    Extends(fair, cfg, actions, s, Work(a));
    s' := WorkStep(s, a);
    WorkTxnLocal(s, a);
    WorkHasEffect(s, a);
  }

  /** A worker action that writes nothing. */
  lemma Moves(fair: bool, cfg: Config, actions: seq<Action>, s: State, a: WorkerAction, r: Root) returns (s': State)
    requires Reached(fair, cfg, actions, s) && (Asks(a) ==> Truthful(s, Work(a)))
    requires WorkTxn(s, a).None? && !a.Upload?
    ensures Reached(fair, cfg, actions + [Work(a)], s') && Same(s, s', r) && s'.db == s.db && s'.worker == WorkMove(s, a)
  {
    s' := Works(fair, cfg, actions, s, a);
  }

  /** Exactly one object is recorded, without SkipTx. */
  ghost predicate Solo(db: DB, r: Root, st: Status, retries: nat) {
    DbOk(db) && db.objects.Keys == {r} && db.objects[r].status == st && db.objects[r].retries == retries && !db.objects[r].skipTx
  }

  /** What the worker's writes make of it. */
  function StatusAfter(st: Status, t: ObjTxn): Status {
    if t.TSetStatus? then t.st else st
  }

  lemma SoloAfter(db: DB, db': DB, r: Root, st: Status, k: nat, t: ObjTxn)
    requires Solo(db, r, st, k) && DbOk(db') && Wrote(db, db', r, Some(t))
    requires t.TSetStatus? || t.TIncRetries? || (t.TSetSkipTx? && !t.v)
    ensures Solo(db', r, StatusAfter(st, t), if t.TIncRetries? then k + 1 else k)
  {
  }

  /** A worker action that writes the object. */
  lemma Writes(fair: bool, cfg: Config, actions: seq<Action>, s: State, a: WorkerAction, r: Root, st: Status, k: nat, t: ObjTxn)
    returns (s': State)
    requires Reached(fair, cfg, actions, s) && !Asks(a) && !a.Upload? && Solo(s.db, r, st, k)
    requires WorkTxn(s, a) == Some(t) && Focus(s.worker) == r
    requires t.TSetStatus? || t.TIncRetries? || (t.TSetSkipTx? && !t.v)
    ensures Reached(fair, cfg, actions + [Work(a)], s') && Same(s, s', r) && s'.worker == WorkMove(s, a)
    ensures Solo(s'.db, r, StatusAfter(st, t), if t.TIncRetries? then k + 1 else k)
  {
    s' := Works(fair, cfg, actions, s, a);
    SoloAfter(s.db, s'.db, r, st, k, t);
  }

  /** The worker holds the object as a new entry to land, and has handled `n` items. */
  function One(r: Root, h: Option<FileStatus>, pc: PC, n: nat): Protocol.Worker {
    Protocol.Worker(pc, [], [Held(r, false, h)], n, [])
  }

  function Visiting(r: Root, pc: PC): Protocol.Worker {
    Protocol.Worker(pc, [r], [], 0, [])
  }

  lemma FlushBegins(fair: bool, cfg: Config, actions: seq<Action>, s: State, r: Root, k: nat) returns (s': State)
    requires Reached(fair, cfg, actions, s) && Solo(s.db, r, Pending, k) && s.worker == RESTING
    ensures Reached(fair, cfg, actions + [Work(StartFlush([r]))], s') && Same(s, s', r) && s'.db == s.db
    ensures s'.worker == Protocol.Worker(Batches, [], [], 0, [r])
  {
    assert Snapshot([r], s.db.qUpload);
    s' := Moves(fair, cfg, actions, s, StartFlush([r]), r);
  }

  lemma BatchBegins(fair: bool, cfg: Config, actions: seq<Action>, s: State, r: Root) returns (s': State)
    requires Reached(fair, cfg, actions, s) && s.worker == Protocol.Worker(Batches, [], [], 0, [r])
    ensures Reached(fair, cfg, actions + [Work(NextBatch)], s') && Same(s, s', r) && s'.db == s.db
    ensures s'.worker == Visiting(r, Collect)
  {
    ReachedInv(fair, cfg, actions, s);
    s' := Moves(fair, cfg, actions, s, NextBatch, r);
  }

  /** The snapshot's only batch is entered. */
  lemma Enters(fair: bool, cfg: Config, actions: seq<Action>, s: State, r: Root, k: nat)
    returns (actions': seq<Action>, s': State)
    requires Reached(fair, cfg, actions, s) && Solo(s.db, r, Pending, k) && s.worker == RESTING
    ensures Reached(fair, cfg, actions', s') && Same(s, s', r) && s'.db == s.db && s'.worker == Visiting(r, Collect)
  {
    var s1 := FlushBegins(fair, cfg, actions, s, r, k);
    var a1 := actions + [Work(StartFlush([r]))];
    s' := BatchBegins(fair, cfg, a1, s1, r);
    actions' := a1 + [Work(NextBatch)];
  }

  /** A pending object without retries is collected without asking. */
  lemma Reads(fair: bool, cfg: Config, actions: seq<Action>, s: State, r: Root) returns (s': State)
    requires Reached(fair, cfg, actions, s) && Solo(s.db, r, Pending, 0) && s.worker == Visiting(r, Collect)
    ensures Reached(fair, cfg, actions + [Work(Read(true))], s') && Same(s, s', r) && s'.db == s.db
    ensures s'.worker == One(r, None, Collect, 0)
  {
    s' := Moves(fair, cfg, actions, s, Read(true), r);
  }

  /** One with retries is asked about. */
  lemma ReadsRetried(fair: bool, cfg: Config, actions: seq<Action>, s: State, r: Root, k: nat) returns (s': State)
    requires Reached(fair, cfg, actions, s) && Solo(s.db, r, Pending, k) && k > 0 && s.worker == Visiting(r, Collect)
    ensures Reached(fair, cfg, actions + [Work(Read(true))], s') && Same(s, s', r) && s'.db == s.db
    ensures s'.worker == Visiting(r, Ask)
  {
    s' := Moves(fair, cfg, actions, s, Read(true), r);
  }

  lemma HearsUnknown(fair: bool, cfg: Config, actions: seq<Action>, s: State, r: Root) returns (s': State)
    requires Reached(fair, cfg, actions, s) && s.worker == Visiting(r, Ask) && Count(s.live, r) == 0
    ensures Reached(fair, cfg, actions + [Work(AskNode(Some(FileUnknown)))], s') && Same(s, s', r) && s'.db == s.db
    ensures s'.worker == Visiting(r, Told(FileUnknown))
  {
    s' := Moves(fair, cfg, actions, s, AskNode(Some(FileUnknown)), r);
  }

  lemma CollectsUnknown(fair: bool, cfg: Config, actions: seq<Action>, s: State, r: Root, k: nat) returns (s': State)
    requires Reached(fair, cfg, actions, s) && Solo(s.db, r, Pending, k) && s.worker == Visiting(r, Told(FileUnknown))
    ensures Reached(fair, cfg, actions + [Work(WriteTold(true))], s') && Same(s, s', r) && Solo(s'.db, r, Pending, k)
    ensures s'.worker == One(r, Some(FileUnknown), Collect, 0)
  {
    s' := Writes(fair, cfg, actions, s, WriteTold(true), r, Pending, k, TSetSkipTx(r, false));
  }

  lemma Closes(fair: bool, cfg: Config, actions: seq<Action>, s: State, r: Root, h: Option<FileStatus>) returns (s': State)
    requires Reached(fair, cfg, actions, s) && s.worker == One(r, h, Collect, 0)
    ensures Reached(fair, cfg, actions + [Work(CloseBatch)], s') && Same(s, s', r) && s'.db == s.db
    ensures s'.worker == One(r, h, Mark, 0)
  {
    s' := Moves(fair, cfg, actions, s, CloseBatch, r);
  }

  /** It is marked submitted. */
  lemma Marks(fair: bool, cfg: Config, actions: seq<Action>, s: State, r: Root, h: Option<FileStatus>, k: nat) returns (s': State)
    requires Reached(fair, cfg, actions, s) && Solo(s.db, r, Pending, k) && s.worker == One(r, h, Mark, 0)
    ensures Reached(fair, cfg, actions + [Work(MarkOne(true))], s') && Same(s, s', r) && s'.worker == One(r, h, Mark, 1)
    ensures Solo(s'.db, r, Submitted, k)
  {
    s' := Writes(fair, cfg, actions, s, MarkOne(true), r, Pending, k, TSetStatus(r, Submitted, "", NoFailure));
  }

  /** A flush collects a fresh object without asking and marks it. */
  lemma MarksFresh(fair: bool, cfg: Config, actions: seq<Action>, s: State, r: Root) returns (actions': seq<Action>, s': State)
    requires Reached(fair, cfg, actions, s) && Solo(s.db, r, Pending, 0) && s.worker == RESTING
    ensures Reached(fair, cfg, actions', s') && Same(s, s', r) && Solo(s'.db, r, Submitted, 0) && s'.worker == One(r, None, Mark, 1)
  {
    var a1, s1 := Enters(fair, cfg, actions, s, r, 0);
    var s2 := Reads(fair, cfg, a1, s1, r);
    var a2 := a1 + [Work(Read(true))];
    var s3 := Closes(fair, cfg, a2, s2, r, None);
    var a3 := a2 + [Work(CloseBatch)];
    s' := Marks(fair, cfg, a3, s3, r, None, 0);
    actions' := a3 + [Work(MarkOne(true))];
  }

  /** A flush asks about a retried object, hears truly that it is unknown, and marks it. */
  lemma MarksRetried(fair: bool, cfg: Config, actions: seq<Action>, s: State, r: Root, k: nat)
    returns (actions': seq<Action>, s': State)
    requires Reached(fair, cfg, actions, s) && Solo(s.db, r, Pending, k) && k > 0 && s.worker == RESTING && Count(s.live, r) == 0
    ensures Reached(fair, cfg, actions', s') && Same(s, s', r) && Solo(s'.db, r, Submitted, k)
    ensures s'.worker == One(r, Some(FileUnknown), Mark, 1)
  {
    var a1, s1 := Enters(fair, cfg, actions, s, r, k);
    var s2 := ReadsRetried(fair, cfg, a1, s1, r, k);
    var a2 := a1 + [Work(Read(true))];
    var s3 := HearsUnknown(fair, cfg, a2, s2, r);
    var a3 := a2 + [Work(AskNode(Some(FileUnknown)))];
    var s4 := CollectsUnknown(fair, cfg, a3, s3, r, k);
    var a4 := a3 + [Work(WriteTold(true))];
    var s5 := Closes(fair, cfg, a4, s4, r, Some(FileUnknown));
    var a5 := a4 + [Work(CloseBatch)];
    s' := Marks(fair, cfg, a5, s5, r, Some(FileUnknown), k);
    actions' := a5 + [Work(MarkOne(true))];
  }

  /** The marked object is handed to the chain; on an error its entry may land or not. */
  lemma Uploads(fair: bool, cfg: Config, actions: seq<Action>, s: State, r: Root, h: Option<FileStatus>, ok: bool, lands: bool)
    returns (actions': seq<Action>, s': State)
    requires Reached(fair, cfg, actions, s) && s.worker == One(r, h, Mark, 1) && (ok ==> lands)
    ensures Reached(fair, cfg, actions', s') && SamePuts(s, s') && s'.db == s.db
    ensures s'.worker == One(r, h, if ok then Record("tx") else Recon, 0)
    ensures Count(s'.landed, r) == Count(s.landed, r) + (if lands then 1 else 0)
    ensures Count(s'.live, r) == Count(s.live, r) + (if lands then 1 else 0)
  {
    var hit := if lands then {r} else {};
    s' := Works(fair, cfg, actions, s, Upload(hit, ok, "tx"));
    actions' := actions + [Work(Upload(hit, ok, "tx"))];
    assert s.worker.items[0].root in FreshRoots(s.worker.items);
  }

  lemma RecordsOne(fair: bool, cfg: Config, actions: seq<Action>, s: State, r: Root, h: Option<FileStatus>) returns (s': State)
    requires Reached(fair, cfg, actions, s) && Solo(s.db, r, Submitted, 0) && s.worker == One(r, h, Record("tx"), 0)
    ensures Reached(fair, cfg, actions + [Work(RecordOne(true))], s') && Same(s, s', r)
    ensures Solo(s'.db, r, Onchain, 0) && s'.worker == One(r, h, Record("tx"), 1)
  {
    s' := Writes(fair, cfg, actions, s, RecordOne(true), r, Submitted, 0, TSetStatus(r, Onchain, "tx", NoFailure));
  }

  lemma BatchEnds(fair: bool, cfg: Config, actions: seq<Action>, s: State, r: Root, h: Option<FileStatus>) returns (s': State)
    requires Reached(fair, cfg, actions, s)
    requires s.worker == One(r, h, Record("tx"), 1) || s.worker == One(r, h, Recon, 1)
    ensures Reached(fair, cfg, actions + [Work(EndBatch)], s') && Same(s, s', r) && s'.db == s.db
    ensures s'.worker == Protocol.Worker(Batches, [], [], 0, [])
  {
    s' := Moves(fair, cfg, actions, s, EndBatch, r);
  }

  lemma Rests(fair: bool, cfg: Config, actions: seq<Action>, s: State, r: Root) returns (s': State)
    requires Reached(fair, cfg, actions, s) && s.worker == Protocol.Worker(Batches, [], [], 0, [])
    ensures Reached(fair, cfg, actions + [Work(NextBatch)], s') && Same(s, s', r) && s'.db == s.db && s'.worker == RESTING
  {
    s' := Moves(fair, cfg, actions, s, NextBatch, r);
  }

  lemma FlushEnds(fair: bool, cfg: Config, actions: seq<Action>, s: State, r: Root, h: Option<FileStatus>)
    returns (actions': seq<Action>, s': State)
    requires Reached(fair, cfg, actions, s)
    requires s.worker == One(r, h, Record("tx"), 1) || s.worker == One(r, h, Recon, 1)
    ensures Reached(fair, cfg, actions', s') && Same(s, s', r) && s'.db == s.db && s'.worker == RESTING
  {
    var s1 := BatchEnds(fair, cfg, actions, s, r, h);
    var a1 := actions + [Work(EndBatch)];
    s' := Rests(fair, cfg, a1, s1, r);
    actions' := a1 + [Work(NextBatch)];
  }

  /** A whole successful flush of a fresh object. */
  lemma Flushes(fair: bool, cfg: Config, actions: seq<Action>, s: State, r: Root) returns (actions': seq<Action>, s': State)
    requires Reached(fair, cfg, actions, s) && Solo(s.db, r, Pending, 0) && s.worker == RESTING
    ensures Reached(fair, cfg, actions', s') && SamePuts(s, s') && Solo(s'.db, r, Onchain, 0) && s'.worker == RESTING
    ensures Count(s'.live, r) == Count(s.live, r) + 1
  {
    var a1, s1 := MarksFresh(fair, cfg, actions, s, r);
    var a2, s2 := Uploads(fair, cfg, a1, s1, r, None, true, true);
    var s3 := RecordsOne(fair, cfg, a2, s2, r, None);
    var a3 := a2 + [Work(RecordOne(true))];
    actions', s' := FlushEnds(fair, cfg, a3, s3, r, None);
  }

  // ---- failed uploads ----

  lemma ReconDeaf(fair: bool, cfg: Config, actions: seq<Action>, s: State, r: Root, h: Option<FileStatus>) returns (s': State)
    requires Reached(fair, cfg, actions, s) && s.worker == One(r, h, Recon, 0)
    ensures Reached(fair, cfg, actions + [Work(ReconAsk(None))], s') && Same(s, s', r) && s'.db == s.db
    ensures s'.worker == One(r, h, ReconInc, 0)
  {
    s' := Moves(fair, cfg, actions, s, ReconAsk(None), r);
  }

  lemma ReconCounts(fair: bool, cfg: Config, actions: seq<Action>, s: State, r: Root, h: Option<FileStatus>, k: nat) returns (s': State)
    requires Reached(fair, cfg, actions, s) && Solo(s.db, r, Submitted, k) && s.worker == One(r, h, ReconInc, 0)
    ensures Reached(fair, cfg, actions + [Work(ReconStore(true))], s') && Same(s, s', r) && Solo(s'.db, r, Submitted, k + 1)
    ensures s'.worker == One(r, h, ReconWrite(k + 1), 0)
  {
    s' := Writes(fair, cfg, actions, s, ReconStore(true), r, Submitted, k, TIncRetries(r));
  }

  lemma ReconWrites(fair: bool, cfg: Config, actions: seq<Action>, s: State, r: Root, h: Option<FileStatus>, k: nat) returns (s': State)
    requires Reached(fair, cfg, actions, s) && Solo(s.db, r, Submitted, k) && s.worker == One(r, h, ReconWrite(k), 0)
    ensures Reached(fair, cfg, actions + [Work(ReconStore(true))], s') && Same(s, s', r)
    ensures Solo(s'.db, r, if k > cfg.maxRetries then Failed else Pending, k) && s'.worker == One(r, h, Recon, 1)
  {
    ReachedInv(fair, cfg, actions, s);
    var t := if k > cfg.maxRetries then TSetStatus(r, Failed, "", RetriesExhausted) else TSetStatus(r, Pending, "", NoFailure);
    s' := Writes(fair, cfg, actions, s, ReconStore(true), r, Submitted, k, t);
  }

  /** The upload fails, no node can be reached, and the object has one retry more. */
  lemma Miscarries(fair: bool, cfg: Config, actions: seq<Action>, s: State, r: Root, h: Option<FileStatus>, k: nat, lands: bool)
    returns (actions': seq<Action>, s': State)
    requires Reached(fair, cfg, actions, s) && Solo(s.db, r, Submitted, k) && s.worker == One(r, h, Mark, 1)
    ensures Reached(fair, cfg, actions', s') && SamePuts(s, s') && s'.worker == RESTING
    ensures Solo(s'.db, r, if k + 1 > cfg.maxRetries then Failed else Pending, k + 1)
    ensures Count(s'.live, r) == Count(s.live, r) + (if lands then 1 else 0)
  {
    var a1, s1 := Uploads(fair, cfg, actions, s, r, h, false, lands);
    var s2 := ReconDeaf(fair, cfg, a1, s1, r, h);
    var a2 := a1 + [Work(ReconAsk(None))];
    var s3 := ReconCounts(fair, cfg, a2, s2, r, h, k);
    var a3 := a2 + [Work(ReconStore(true))];
    var s4 := ReconWrites(fair, cfg, a3, s3, r, h, k + 1);
    var a4 := a3 + [Work(ReconStore(true))];
    actions', s' := FlushEnds(fair, cfg, a4, s4, r, h);
  }

  /** Failed flushes, none landing, until `k` retries are used. */
  lemma {:induction false} UsesRetries(fair: bool, cfg: Config, actions: seq<Action>, s: State, r: Root, k: nat)
    returns (actions': seq<Action>, s': State)
    requires Reached(fair, cfg, actions, s) && Solo(s.db, r, Pending, 0) && s.worker == RESTING && Count(s.live, r) == 0
    requires 0 < k <= cfg.maxRetries
    ensures Reached(fair, cfg, actions', s') && SamePuts(s, s') && s'.worker == RESTING
    ensures Solo(s'.db, r, Pending, k) && Count(s'.live, r) == 0
    decreases k
  {
    if k == 1 {
      var a1, s1 := MarksFresh(fair, cfg, actions, s, r);
      actions', s' := Miscarries(fair, cfg, a1, s1, r, None, 0, false);
    } else {
      var a1, s1 := UsesRetries(fair, cfg, actions, s, r, k - 1);
      var a2, s2 := MarksRetried(fair, cfg, a1, s1, r, k - 1);
      actions', s' := Miscarries(fair, cfg, a2, s2, r, Some(FileUnknown), k - 1, false);
    }
  }

  // ---- polls ----

  lemma PollBegins(fair: bool, cfg: Config, actions: seq<Action>, s: State, r: Root) returns (s': State)
    requires Reached(fair, cfg, actions, s) && Solo(s.db, r, Onchain, 0) && s.worker == RESTING
    ensures Reached(fair, cfg, actions + [Work(StartPoll([r]))], s') && s'.db == s.db && Same(s, s', r)
    ensures s'.worker == Visiting(r, Poll)
  {
    assert Snapshot([r], s.db.qFinalize);
    s' := Moves(fair, cfg, actions, s, StartPoll([r]), r);
  }

  lemma PollHears(fair: bool, cfg: Config, actions: seq<Action>, s: State, r: Root, ans: FileStatus) returns (s': State)
    requires Reached(fair, cfg, actions, s) && s.worker == Visiting(r, Poll)
    requires ans.FileFinalized? || Count(s.live, r) == 0
    ensures Reached(fair, cfg, actions + [Work(PollAsk(Some(ans)))], s') && s'.db == s.db && Same(s, s', r)
    ensures s'.worker == Visiting(r, PollTold(ans))
  {
    s' := Moves(fair, cfg, actions, s, PollAsk(Some(ans)), r);
  }

  lemma PollWrites(fair: bool, cfg: Config, actions: seq<Action>, s: State, r: Root, ans: FileStatus) returns (s': State)
    requires Reached(fair, cfg, actions, s) && Solo(s.db, r, Onchain, 0) && s.worker == Visiting(r, PollTold(ans))
    requires ans.FileFinalized? || ans.FilePruned?
    ensures Reached(fair, cfg, actions + [Work(PollStore(true))], s') && Same(s, s', r)
    ensures s'.worker == Protocol.Worker(Poll, [], [], 0, []) && Solo(s'.db, r, if ans.FileFinalized? then Finalized else Failed, 0)
  {
    var t := if ans.FileFinalized? then TSetStatus(r, Finalized, "", NoFailure) else TSetStatus(r, Failed, "", PrunedOnNodes);
    s' := Writes(fair, cfg, actions, s, PollStore(true), r, Onchain, 0, t);
  }

  lemma PollEnds(fair: bool, cfg: Config, actions: seq<Action>, s: State, r: Root) returns (s': State)
    requires Reached(fair, cfg, actions, s) && s.worker == Protocol.Worker(Poll, [], [], 0, [])
    ensures Reached(fair, cfg, actions + [Work(EndPoll)], s') && s'.db == s.db && s'.worker == RESTING && Same(s, s', r)
  {
    s' := Moves(fair, cfg, actions, s, EndPoll, r);
  }

  /** A poll writes what a truthful answer implies. */
  lemma Polls(fair: bool, cfg: Config, actions: seq<Action>, s: State, r: Root, ans: FileStatus)
    returns (actions': seq<Action>, s': State)
    requires Reached(fair, cfg, actions, s) && Solo(s.db, r, Onchain, 0) && s.worker == RESTING
    requires ans.FileFinalized? || (ans.FilePruned? && Count(s.live, r) == 0)
    ensures Reached(fair, cfg, actions', s') && s'.worker == RESTING && Same(s, s', r)
    ensures Solo(s'.db, r, if ans.FileFinalized? then Finalized else Failed, 0)
  {
    var s1 := PollBegins(fair, cfg, actions, s, r);
    var a1 := actions + [Work(StartPoll([r]))];
    var s2 := PollHears(fair, cfg, a1, s1, r, ans);
    var a2 := a1 + [Work(PollAsk(Some(ans)))];
    var s3 := PollWrites(fair, cfg, a2, s2, r, ans);
    var a3 := a2 + [Work(PollStore(true))];
    s' := PollEnds(fair, cfg, a3, s3, r);
    actions' := a3 + [Work(EndPoll)];
  }

  // ---- Puts, prunes and crashes ----

  lemma Arrives(fair: bool, cfg: Config, actions: seq<Action>, s: State, content: Bytes) returns (s': State)
    requires Reached(fair, cfg, actions, s) && content != []
    ensures Reached(fair, cfg, actions + [Other(PutBegin(content))], s')
    ensures s' == s.(puts := s.puts[s.nextId := Put(content, Spooled)], nextId := s.nextId + 1)
  {
    Extends(fair, cfg, actions, s, Other(PutBegin(content)));
    s' := OtherStep(s, PutBegin(content));
  }

  lemma Prunes(fair: bool, cfg: Config, actions: seq<Action>, s: State, r: Root) returns (s': State)
    requires Reached(fair, cfg, actions, s)
    ensures Reached(fair, cfg, actions + [Other(Prune(r))], s') && s' == s.(live := s.live - {r}, landed := s.landed - {r})
  {
    Extends(fair, cfg, actions, s, Other(Prune(r)));
    s' := OtherStep(s, Prune(r));
  }

  lemma Crashes(fair: bool, cfg: Config, actions: seq<Action>, s: State) returns (s': State)
    requires Reached(fair, cfg, actions, s)
    ensures Reached(fair, cfg, actions + [Other(Crash)], s') && s'.worker == RESTING && s'.db == s.db && s'.landed == s.landed
  {
    Extends(fair, cfg, actions, s, Other(Crash));
    s' := OtherStep(s, Crash);
  }

  /** A step of a Put other than a re-arm leaves worker and chain where they are. */
  lemma PutsStep(fair: bool, cfg: Config, actions: seq<Action>, s: State, id: nat, a: PutAction) returns (s': State)
    requires Reached(fair, cfg, actions, s) && id in s.puts && !a.Rearm?
    ensures Reached(fair, cfg, actions + [PutStep(id, a)], s') && DbOk(s'.db) && PutEffect(s, s', id, a)
    ensures s'.db == Commits(s.db, PutTxn(s.db, s.puts[id], a))
  {
    ReachedInv(fair, cfg, actions, s);
    Extends(fair, cfg, actions, s, PutStep(id, a));
    assert PutOk(s.db, s.puts[id]);
    PutHasEffect(s, id, a);
    s' := PutAct(s, id, a);
  }

  /** A Put of new content finds nothing to deduplicate against. */
  lemma FindsNothing(fair: bool, cfg: Config, actions: seq<Action>, s: State, content: Bytes)
    returns (actions': seq<Action>, s': State)
    requires Reached(fair, cfg, actions, s) && s.db == EMPTY && s.puts == map[] && content != []
    ensures Reached(fair, cfg, actions', s') && s'.db == EMPTY && s'.worker == s.worker && s'.nextId == s.nextId + 1
    ensures s'.puts == map[s.nextId := Put(content, Fresh)] && s'.live == s.live
  {
    var id := s.nextId;
    var s1 := Arrives(fair, cfg, actions, s, content);
    var a1 := actions + [Other(PutBegin(content))];
    s' := PutsStep(fair, cfg, a1, s1, id, Lookup);
    actions' := a1 + [PutStep(id, Lookup)];
  }

  /** It renames its file into place. */
  lemma Renames(fair: bool, cfg: Config, actions: seq<Action>, s: State, id: nat, content: Bytes) returns (s': State)
    requires Reached(fair, cfg, actions, s) && s.puts == map[id := Put(content, Fresh)]
    ensures Reached(fair, cfg, actions + [PutStep(id, Rename)], s')
    ensures s'.db == s.db && s'.worker == s.worker && s'.nextId == s.nextId && s'.live == s.live
    ensures s'.puts == map[id := Put(content, Renamed)] && Root(content) in s'.cache
  {
    s' := PutsStep(fair, cfg, actions, s, id, Rename);
  }

  /** Its object is recorded. */
  lemma Records(fair: bool, cfg: Config, actions: seq<Action>, s: State, id: nat, content: Bytes) returns (s': State)
    requires Reached(fair, cfg, actions, s) && s.db == EMPTY && s.puts == map[id := Put(content, Renamed)]
    ensures Reached(fair, cfg, actions + [PutStep(id, CreateRecord(0))], s') && Solo(s'.db, Root(content), Pending, 0)
    ensures s'.worker == s.worker && s'.puts == map[] && s'.cache == s.cache && s'.nextId == s.nextId && s'.live == s.live
  {
    s' := PutsStep(fair, cfg, actions, s, id, CreateRecord(0));
    ObjectsAfter(s.db, TCreate(NewRecord(content), 0));
  }

  /** The first object is stored. */
  lemma Creates(fair: bool, cfg: Config, content: Bytes) returns (actions': seq<Action>, s': State)
    requires cfg.batchMax > 0 && cfg.maxRetries > 0 && content != []
    ensures Reached(fair, cfg, actions', s') && Solo(s'.db, Root(content), Pending, 0) && s'.worker == RESTING
    ensures s'.puts == map[] && Root(content) in s'.cache && s'.nextId == 1 && Count(s'.live, Root(content)) == 0
  {
    var a1, s1 := FindsNothing(fair, cfg, [], Init(cfg), content);
    var s2 := Renames(fair, cfg, a1, s1, 0, content);
    var a2 := a1 + [PutStep(0, Rename)];
    s' := Records(fair, cfg, a2, s2, 0, content);
    actions' := a2 + [PutStep(0, CreateRecord(0))];
  }

  lemma LooksUpFailed(fair: bool, cfg: Config, actions: seq<Action>, s: State, id: nat, content: Bytes, k: nat) returns (s': State)
    requires Reached(fair, cfg, actions, s) && Solo(s.db, Root(content), Failed, k)
    requires id in s.puts && s.puts[id] == Put(content, Spooled)
    ensures Reached(fair, cfg, actions + [PutStep(id, Lookup)], s')
    ensures s' == s.(puts := s.puts[id := Put(content, Known(s.db.objects[Root(content)]))])
  {
    ShaIndexExact(s.db, content);
    Extends(fair, cfg, actions, s, PutStep(id, Lookup));
    s' := PutAct(s, id, Lookup);
  }

  lemma DecidesToRearm(fair: bool, cfg: Config, actions: seq<Action>, s: State, id: nat, content: Bytes, k: nat) returns (s': State)
    requires Reached(fair, cfg, actions, s) && Solo(s.db, Root(content), Failed, k) && Root(content) in s.cache
    requires id in s.puts && s.puts[id] == Put(content, Known(s.db.objects[Root(content)]))
    ensures Reached(fair, cfg, actions + [PutStep(id, Decide)], s')
    ensures s' == s.(puts := s.puts[id := Put(content, Rearming(s.db.objects[Root(content)]))])
  {
    Extends(fair, cfg, actions, s, PutStep(id, Decide));
    s' := PutAct(s, id, Decide);
  }

  /** A Put that finds its content failed is about to re-arm it. */
  lemma SeesFailed(fair: bool, cfg: Config, actions: seq<Action>, s: State, content: Bytes, k: nat)
    returns (actions': seq<Action>, s': State)
    requires Reached(fair, cfg, actions, s) && Solo(s.db, Root(content), Failed, k) && Root(content) in s.cache && content != []
    ensures Reached(fair, cfg, actions', s') && s'.db == s.db && s'.worker == s.worker && s'.cache == s.cache && s'.live == s.live
    ensures s'.nextId == s.nextId + 1 && s'.puts == s.puts[s.nextId := Put(content, Rearming(s.db.objects[Root(content)]))]
  {
    var id := s.nextId;
    var s1 := Arrives(fair, cfg, actions, s, content);
    var a1 := actions + [Other(PutBegin(content))];
    var s2 := LooksUpFailed(fair, cfg, a1, s1, id, content, k);
    var a2 := a1 + [PutStep(id, Lookup)];
    s' := DecidesToRearm(fair, cfg, a2, s2, id, content, k);
    actions' := a2 + [PutStep(id, Decide)];
  }

  lemma RearmedSolo(db: DB, r: Root, st: Status, k: nat)
    requires Solo(db, r, st, k)
    ensures Solo(Apply(db, TReenqueue(r)), r, Pending, 0)
  {
    SyncedStep(db, TReenqueue(r));
    IndexedStep(db, TReenqueue(r));
    ObjectsAfter(db, TReenqueue(r));
  }

  lemma RestingOutside(s: State, a: Action)
    requires s.worker == RESTING
    ensures OutsideWindow(s, a)
  {
  }

  lemma RearmActs(s: State, id: nat, r: Root)
    requires id in s.puts && s.puts[id].pc.Rearming? && s.puts[id].pc.m.root == r
    ensures var s' := PutAct(s, id, Rearm);
      && s'.db == Apply(s.db, TReenqueue(r)) && s'.puts == s.puts - {id} && s'.worker == s.worker
      && s'.live == s.live && s'.landed == s.landed - {r}
  {
  }

  /** Its re-arm puts the object back to pending and ends the epoch, whatever the object was. */
  lemma Rearms(fair: bool, cfg: Config, actions: seq<Action>, s: State, id: nat, r: Root, st: Status, k: nat) returns (s': State)
    requires Reached(fair, cfg, actions, s) && Solo(s.db, r, st, k) && (fair ==> s.worker == RESTING)
    requires id in s.puts && s.puts[id].pc.Rearming? && s.puts[id].pc.m.root == r
    ensures Reached(fair, cfg, actions + [PutStep(id, Rearm)], s') && Solo(s'.db, r, Pending, 0)
    ensures s'.worker == s.worker && s'.puts == s.puts - {id} && Count(s'.landed, r) == 0 && s'.live == s.live
  {
    if fair {
      RestingOutside(s, PutStep(id, Rearm));
    }
    Extends(fair, cfg, actions, s, PutStep(id, Rearm));
    s' := PutAct(s, id, Rearm);
    RearmActs(s, id, r);
    RearmedSolo(s.db, r, st, k);
  }

  // ---- the witnesses ----

  /** Created, uploaded, pruned, failed. */
  lemma Fails(fair: bool, cfg: Config, content: Bytes) returns (actions: seq<Action>, s: State)
    requires cfg.batchMax > 0 && cfg.maxRetries > 0 && content != []
    ensures Reached(fair, cfg, actions, s) && Solo(s.db, Root(content), Failed, 0) && s.worker == RESTING
    ensures s.puts == map[] && s.nextId == 1 && Root(content) in s.cache
  {
    var r := Root(content);
    var a1, s1 := Creates(fair, cfg, content);
    var a2, s2 := Flushes(fair, cfg, a1, s1, r);
    var s3 := Prunes(fair, cfg, a2, s2, r);
    actions, s := Polls(fair, cfg, a2 + [Other(Prune(r))], s3, r, FilePruned);
  }

  /** A pending object, a worker at rest, and a Put still holding a re-arm from when the object
      had failed: two Puts saw it failed, and the second has re-armed it. */
  lemma StaleRearm(fair: bool, cfg: Config, content: Bytes) returns (actions: seq<Action>, s: State)
    requires cfg.batchMax > 0 && cfg.maxRetries > 0 && content != []
    ensures Reached(fair, cfg, actions, s) && Solo(s.db, Root(content), Pending, 0) && s.worker == RESTING
    ensures HoldsRearm(s, 1, Root(content)) && Count(s.landed, Root(content)) == 0
  {
    var a1, s1 := Fails(fair, cfg, content);
    var a2, s2 := SeesFailed(fair, cfg, a1, s1, content, 0);
    var a3, s3 := SeesFailed(fair, cfg, a2, s2, content, 0);
    s := Rearms(fair, cfg, a3, s3, 2, Root(content), Failed, 0);
    actions := a3 + [PutStep(2, Rearm)];
  }

  lemma LostRun(cfg: Config, content: Bytes) returns (actions: seq<Action>)
    requires cfg.batchMax > 0 && cfg.maxRetries > 0 && content != []
    ensures FairRun(Init(cfg), actions + [PutStep(1, Rearm)])
    ensures Solo(Run(Init(cfg), actions).db, Root(content), Finalized, 0)
    ensures Solo(Run(Init(cfg), actions + [PutStep(1, Rearm)]).db, Root(content), Pending, 0)
  {
    var r := Root(content);
    var a1, s1 := StaleRearm(true, cfg, content);
    var a2, s2 := Flushes(true, cfg, a1, s1, r);
    var a3, s3 := Polls(true, cfg, a2, s2, r, FileFinalized);
    var s4 := Rearms(true, cfg, a3, s3, 1, r, Finalized, 0);
    actions := a3;
  }

  /** Finalized is not for ever: there is a run, fair and truthful, that finalizes the object and
      whose next step, the re-arm of a Put that had read "failed", sets it back to pending. */
  lemma FinalizedCanBeLost(cfg: Config, content: Bytes)
    requires cfg.batchMax > 0 && cfg.maxRetries > 0 && content != []
    ensures exists actions ::
              && FairRun(Init(cfg), actions + [PutStep(1, Rearm)])
              && Solo(Run(Init(cfg), actions).db, Root(content), Finalized, 0)
              && Solo(Run(Init(cfg), actions + [PutStep(1, Rearm)]).db, Root(content), Pending, 0)
  {
    var _ := LostRun(cfg, content);
  }

  /** Re-armed between the write-ahead and the upload, an object lands an entry unnoticed. */
  lemma LandsUnnoticed(cfg: Config, content: Bytes) returns (actions: seq<Action>, s: State)
    requires cfg.batchMax > 0 && cfg.maxRetries > 0 && content != []
    ensures Reached(false, cfg, actions, s) && Solo(s.db, Root(content), Pending, 0) && s.worker == RESTING
    ensures Count(s.landed, Root(content)) == 1
  {
    var r := Root(content);
    var a1, s1 := StaleRearm(false, cfg, content);
    var a2, s2 := MarksFresh(false, cfg, a1, s1, r);
    var s3 := Rearms(false, cfg, a2, s2, 1, r, Submitted, 0);
    var a3 := a2 + [PutStep(1, Rearm)];
    var a4, s4 := Uploads(false, cfg, a3, s3, r, None, false, true);
    s := Crashes(false, cfg, a4, s4);
    actions := a4 + [Other(Crash)];
  }

  /** At most one entry per epoch needs the window hypothesis: there is a run with truthful
      answers only in which two entries land in one epoch. */
  lemma WindowMatters(cfg: Config, content: Bytes)
    requires cfg.batchMax > 0 && cfg.maxRetries > 0 && content != []
    ensures exists actions ::
              TruthfulRun(Init(cfg), actions) && Count(Run(Init(cfg), actions).landed, Root(content)) == 2
  {
    var r := Root(content);
    var a1, s1 := LandsUnnoticed(cfg, content);
    var a2, s2 := MarksFresh(false, cfg, a1, s1, r);
    var a3, s3 := Uploads(false, cfg, a2, s2, r, None, true, true);
    assert Reached(false, cfg, a3, s3);
  }

  /** The last retry lands although it reports an error, no node can be reached, and the object
      fails with its entry on chain. */
  lemma FailsLanded(cfg: Config, content: Bytes) returns (actions: seq<Action>, s: State)
    requires cfg.batchMax > 0 && cfg.maxRetries > 0 && content != []
    ensures Reached(true, cfg, actions, s) && Solo(s.db, Root(content), Failed, cfg.maxRetries + 1) && s.worker == RESTING
    ensures Count(s.live, Root(content)) == 1 && s.puts == map[] && s.nextId == 1 && Root(content) in s.cache
  {
    var r := Root(content);
    var a1, s1 := Creates(true, cfg, content);
    var a2, s2 := UsesRetries(true, cfg, a1, s1, r, cfg.maxRetries);
    var a3, s3 := MarksRetried(true, cfg, a2, s2, r, cfg.maxRetries);
    actions, s := Miscarries(true, cfg, a3, s3, r, Some(FileUnknown), cfg.maxRetries, true);
  }

  /** Across epochs the promise fails without any race: with every hypothesis kept, a failed
      object whose last upload did land is put again, re-armed, and uploaded without asking: two
      entries are live. */
  lemma SecondEntryAcrossEpochs(cfg: Config, content: Bytes)
    requires cfg.batchMax > 0 && cfg.maxRetries > 0 && content != []
    ensures exists actions ::
              FairRun(Init(cfg), actions) && Count(Run(Init(cfg), actions).live, Root(content)) == 2
  {
    var r := Root(content);
    var a1, s1 := FailsLanded(cfg, content);
    var a2, s2 := SeesFailed(true, cfg, a1, s1, content, cfg.maxRetries + 1);
    var s3 := Rearms(true, cfg, a2, s2, 1, r, Failed, cfg.maxRetries + 1);
    var a3 := a2 + [PutStep(1, Rearm)];
    var a4, s4 := Flushes(true, cfg, a3, s3, r);
    assert Reached(true, cfg, a4, s4);
  }
}
