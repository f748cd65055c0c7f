/** Exactly when a root gets a second live chain entry.  Re-arms may fall anywhere here: the
    only hypothesis is that the nodes answer truthfully. */
module Duplicates {
  import opened Outcomes
  import opened Content
  import opened MetaStore
  import opened ChainBackend
  import opened Protocol
  import opened ProtocolEffects
  import opened ProtocolSafety
  import opened Durability

  /** The nodes answer "unknown" or "pruned" only for a root with no live entry. */
  ghost predicate Truthful(s: State, a: Action) {
    a.Work? && (Answer(s.worker, a.w) == Some(FileUnknown) || Answer(s.worker, a.w) == Some(FilePruned)) ==>
      Count(s.live, Focus(s.worker)) == 0
  }

  /** Every answer of the run is truthful. */
  ghost predicate TruthfulRun(s: State, actions: seq<Action>)
    decreases |actions|
  {
    actions != [] ==> Truthful(s, actions[0]) && TruthfulRun(Step(s, actions[0]), actions[1..])
  }

  predicate Collecting(w: Worker) {
    w.pc.Collect? || w.pc.Ask? || w.pc.Told? || w.pc.Mark?
  }

  predicate Uploading(w: Worker, a: WorkerAction) {
    a.Upload? && w.pc.Mark? && w.n == |w.items|
  }

  /** A member collected after asking carries the answer, and is to get a new entry only if the
      nodes know of none. */
  ghost predicate AnswerKept(live: map<Root, nat>, it: Held) {
    it.answer.Some? ==> it.skipTx == it.answer.value.FileUploading? && (!it.skipTx ==> Count(live, it.root) == 0)
  }

  ghost predicate AskedOk(s: State) {
    && (Collecting(s.worker) ==> forall i :: 0 <= i < |s.worker.items| ==> AnswerKept(s.live, s.worker.items[i]))
    && (s.worker.pc == Told(FileUnknown) || s.worker.pc == Told(FilePruned) ==> Count(s.live, Focus(s.worker)) == 0)
  }

  /** What the collecting loop adds carries its answer, if there was one. */
  lemma CollectedAnswer(s: State, a: WorkerAction)
    requires WorkerOk(s) && AskedOk(s)
    requires Collecting(WorkMove(s, a)) && WorkMove(s, a).items != []
    ensures !Uploading(s.worker, a) && Collecting(s.worker)
    ensures var items' := WorkMove(s, a).items;
      items' == s.worker.items || exists it :: items' == s.worker.items + [it] && AnswerKept(s.live, it)
  {
  }

  lemma ToldTruly(s: State, a: WorkerAction)
    requires WorkerOk(s) && AskedOk(s) && Truthful(s, Work(a))
    ensures var w' := WorkMove(s, a);
      w'.pc == Told(FileUnknown) || w'.pc == Told(FilePruned) ==> Count(s.live, Focus(w')) == 0
  {
  }

  lemma WorkKeepsAsked(s: State, s': State, a: WorkerAction)
    requires WorkerOk(s) && AskedOk(s) && Truthful(s, Work(a))
    requires s'.worker == WorkMove(s, a) && s'.live == Bumped(s.live, Landing(s.worker, a))
    ensures AskedOk(s')
  {
    ToldTruly(s, a);
    if Uploading(s.worker, a) {
      assert !Collecting(s'.worker);
    } else {
      assert forall r :: Count(s'.live, r) == Count(s.live, r);
      if Collecting(s'.worker) && s'.worker.items != [] {
        CollectedAnswer(s, a);
      }
      assert forall it :: AnswerKept(s.live, it) ==> AnswerKept(s'.live, it);
    }
  }

  /** Entries only go away otherwise. */
  lemma FewerLiveKeepsAsked(s: State, s': State)
    requires AskedOk(s) && (s'.worker == s.worker || s'.worker == RESTING)
    requires forall r :: Count(s'.live, r) <= Count(s.live, r)
    ensures AskedOk(s')
  {
    assert forall it :: AnswerKept(s.live, it) ==> AnswerKept(s'.live, it);
  }

  lemma StepKeepsAsked(s: State, a: Action)
    requires Inv(s) && AskedOk(s) && Truthful(s, a)
    ensures AskedOk(Step(s, a))
  {
    match a {
      case Work(w) => WorkKeepsAsked(s, WorkStep(s, w), w);
      case PutStep(id, p) => FewerLiveKeepsAsked(s, Step(s, a));
      case Other(o) => FewerLiveKeepsAsked(s, OtherStep(s, o));
    }
  }

  lemma {:induction false} RunKeepsAsked(s: State, actions: seq<Action>)
    requires Inv(s) && AskedOk(s) && TruthfulRun(s, actions)
    ensures Inv(Run(s, actions)) && AskedOk(Run(s, actions))
    decreases |actions|
  {
    if actions != [] {
      StepKeepsAsked(s, actions[0]);
      StepKeepsInv(s, actions[0]);
      RunKeepsAsked(Step(s, actions[0]), actions[1..]);
    }
  }

  // ---- the exact condition ----

  /** The action lands another entry for a root that has one. */
  ghost predicate AddsSecond(s: State, a: Action, r: Root) {
    Count(s.live, r) > 0 && Count(Step(s, a).live, r) > Count(s.live, r)
  }

  /** The member was collected without asking, not as SkipTx, and its entry is on chain. */
  predicate BlindMember(live: map<Root, nat>, it: Held) {
    it.answer.None? && !it.skipTx && Count(live, it.root) > 0
  }

  /** The action hands a batch with such a member for `r` to the chain, which lands it. */
  predicate BlindUpload(s: State, a: Action, r: Root) {
    && a.Work? && Uploading(s.worker, a.w) && (a.w.ok || r in a.w.hit)
    && exists i :: 0 <= i < |s.worker.items| && s.worker.items[i].root == r && BlindMember(s.live, s.worker.items[i])
  }

  lemma LandingCounts(s: State, a: WorkerAction, r: Root)
    ensures Count(WorkStep(s, a).live, r) == Count(s.live, r) + (if r in Landing(s.worker, a) then 1 else 0)
  {
  }

  lemma SecondIsBlind(s: State, a: Action, r: Root)
    requires AskedOk(s)
    ensures AddsSecond(s, a, r) <==> BlindUpload(s, a, r)
  {
    match a {
      case Work(w) =>
        LandingCounts(s, w, r);
        if r in Landing(s.worker, w) {
          var i :| 0 <= i < |s.worker.items| && !s.worker.items[i].skipTx && s.worker.items[i].root == r;
          assert AnswerKept(s.live, s.worker.items[i]);
        }
      case PutStep(id, p) =>
      case Other(o) =>
    }
  }

  /** A member is unasked exactly when the re-read record is pending with no retries; its SkipTx
      is then whatever earlier epochs left. */
  lemma UnaskedIff(s: State, r: Root)
    requires s.worker.pc.Collect? && s.worker.todo != [] && s.worker.todo[0] == r && r in s.db.objects
    ensures var m := s.db.objects[r];
      WorkMove(s, Read(true)) == Collected(s.worker, Held(r, m.skipTx, None)) <==> !m.status.Submitted? && m.retries == 0
  {
  }

  /** On every run with truthful answers, re-arms anywhere, an entry is added to a root that has
      one exactly by handing the chain a member that was collected without asking. */
  lemma SecondEntryIff(cfg: Config, actions: seq<Action>, a: Action, r: Root)
    requires cfg.batchMax > 0 && cfg.maxRetries > 0 && TruthfulRun(Init(cfg), actions)
    ensures AddsSecond(Run(Init(cfg), actions), a, r) <==> BlindUpload(Run(Init(cfg), actions), a, r)
  {
    InitInv(cfg);
    RunKeepsAsked(Init(cfg), actions);
    SecondIsBlind(Run(Init(cfg), actions), a, r);
  }

  /** The root has at most one entry in every state of the run. */
  ghost predicate NeverTwice(s: State, actions: seq<Action>, r: Root)
    decreases |actions|
  {
    Count(s.live, r) <= 1 && (actions != [] ==> NeverTwice(Step(s, actions[0]), actions[1..], r))
  }

  ghost predicate NeverBlind(s: State, actions: seq<Action>, r: Root)
    decreases |actions|
  {
    actions != [] ==> !BlindUpload(s, actions[0], r) && NeverBlind(Step(s, actions[0]), actions[1..], r)
  }

  /** A step lands at most one entry per root. */
  lemma OneAtATime(s: State, a: Action, r: Root)
    ensures Count(Step(s, a).live, r) <= Count(s.live, r) + 1
  {
    if a.Work? {
      LandingCounts(s, a.w, r);
    }
  }

  lemma {:induction false} NeverTwiceIff(s: State, actions: seq<Action>, r: Root)
    requires Inv(s) && AskedOk(s) && TruthfulRun(s, actions) && Count(s.live, r) <= 1
    ensures NeverTwice(s, actions, r) <==> NeverBlind(s, actions, r)
    decreases |actions|
  {
    if actions != [] {
      var a, s' := actions[0], Step(s, actions[0]);
      SecondIsBlind(s, a, r);
      OneAtATime(s, a, r);
      StepKeepsAsked(s, a);
      StepKeepsInv(s, a);
      if Count(s'.live, r) <= 1 {
        NeverTwiceIff(s', actions[1..], r);
      }
    }
  }

  /** So over every whole run with truthful answers a root never has two live entries if and only
      if no unasked member with a live entry is ever uploaded as new. */
  lemma NoDuplicateIff(cfg: Config, actions: seq<Action>, r: Root)
    requires cfg.batchMax > 0 && cfg.maxRetries > 0 && TruthfulRun(Init(cfg), actions)
    ensures NeverTwice(Init(cfg), actions, r) <==> NeverBlind(Init(cfg), actions, r)
  {
    InitInv(cfg);
    NeverTwiceIff(Init(cfg), actions, r);
  }
}
