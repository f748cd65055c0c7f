/** S3 requests inside the protocol: their store transactions interleave with Puts, uploads,
    reads and evictions one at a time, and still look to clients like operations on a plain map. */
module S3Runs {
  import opened Outcomes
  import opened Content
  import opened KeyOrder
  import opened MetaStore
  import opened Protocol
  import opened ProtocolEffects
  import opened ProtocolSafety
  import opened Durability
  import S3View

  /** Every key lies in a bucket and maps a recorded root, and so does every lookup in flight. */
  ghost predicate KeysOk(s: State) {
    Homed(s.db) && s.resolved <= s.db.objects.Keys
  }

  /** The transaction an action commits, if any. */
  function StepTxn(s: State, a: Action): Option<Txn> {
    match a
    case Work(w) => AsTxn(WorkTxn(s, w))
    case PutStep(id, p) => if id in s.puts then AsTxn(PutTxn(s.db, s.puts[id], p)) else None
    case Other(o) => if o.KeyOp? then (if Offered(s, o.t) then Some(Key(o.t)) else None) else AsTxn(OtherTxn(o))
  }

  function AsTxn(t: Option<ObjTxn>): Option<Txn> {
    if t.Some? then Some(Obj(t.value)) else None
  }

  /** The store changes by that transaction and nothing else. */
  lemma StepCommits(s: State, a: Action)
    ensures Step(s, a).db == if StepTxn(s, a).Some? then Committed(s.db, StepTxn(s, a).value) else s.db
  {
  }

  /** What the protocol's requests hand to the store is well-formed: the root that a Put answers
      with, or that a copy has looked up, is recorded and stays so. */
  lemma TxnWellFormed(s: State, a: Action)
    requires Inv(s) && KeysOk(s) && StepTxn(s, a).Some?
    ensures WellFormed(s.db, StepTxn(s, a).value)
  {
    match a {
      case Work(w) => WorkTxnLocal(s, w);
      case PutStep(id, p) => assert PutOk(s.db, s.puts[id]);
      case Other(o) =>
    }
  }

  lemma StepKeepsRoots(s: State, a: Action)
    requires Inv(s)
    ensures s.db.objects.Keys <= Step(s, a).db.objects.Keys
  {
    match a {
      case Work(w) =>
        WorkTxnLocal(s, w);
        WorkHasEffect(s, w);
      case PutStep(id, p) =>
        if id in s.puts {
          assert PutOk(s.db, s.puts[id]);
          PutHasEffect(s, id, p);
        }
      case Other(o) => OtherHasEffect(s, o);
    }
  }

  lemma StepKeepsHomed(s: State, a: Action)
    requires Inv(s) && KeysOk(s)
    ensures Homed(Step(s, a).db)
  {
    StepCommits(s, a);
    if StepTxn(s, a).Some? {
      TxnWellFormed(s, a);
      HomedStep(s.db, StepTxn(s, a).value);
    }
  }

  /** A lookup finds only recorded roots. */
  lemma StepResolves(s: State, a: Action)
    requires Homed(s.db)
    ensures Step(s, a).resolved <= s.resolved + s.db.objects.Keys
  {
  }

  lemma StepKeepsKeys(s: State, a: Action)
    requires Inv(s) && KeysOk(s)
    ensures KeysOk(Step(s, a))
  {
    StepKeepsHomed(s, a);
    StepResolves(s, a);
    StepKeepsRoots(s, a);
  }

  /** The transactions of a run, in commit order. */
  ghost function History(s: State, actions: seq<Action>): seq<Txn>
    decreases |actions|
  {
    if actions == [] then []
    else
      var t := StepTxn(s, actions[0]);
      (if t.Some? then [t.value] else []) + History(Step(s, actions[0]), actions[1..])
  }

  lemma {:induction false} HistoryCommits(s: State, actions: seq<Action>)
    requires Inv(s) && KeysOk(s)
    ensures Run(s, actions).db == CommitAll(s.db, History(s, actions))
    ensures WellFormedRun(s.db, History(s, actions))
    ensures Inv(Run(s, actions)) && KeysOk(Run(s, actions))
    decreases |actions|
  {
    if actions != [] {
      var a, s' := actions[0], Step(s, actions[0]);
      StepCommits(s, a);
      StepKeepsInv(s, a);
      StepKeepsKeys(s, a);
      HistoryCommits(s', actions[1..]);
      var t := StepTxn(s, a);
      if t.Some? {
        TxnWellFormed(s, a);
        assert ([t.value] + History(s', actions[1..]))[1..] == History(s', actions[1..]);
      } else {
        assert [] + History(s', actions[1..]) == History(s', actions[1..]);
      }
    }
  }

  /** Whatever requests, uploads, reads, evictions, crashes and failures interleave: clients see
      the plain map that the committed S3 operations produce, in commit order. */
  lemma ProtocolRefinesPlainMap(cfg: Config, actions: seq<Action>)
    requires cfg.batchMax > 0 && cfg.maxRetries > 0
    ensures var s := Run(Init(cfg), actions);
      Sound(s.db) && S3View.View(s.db) == S3View.PlainRun(map[], History(Init(cfg), actions))
  {
    InitInv(cfg);
    HistoryCommits(Init(cfg), actions);
    S3View.RunRefinesPlainMap(EMPTY, History(Init(cfg), actions));
    assert S3View.View(EMPTY) == map[];
  }

  /** And whatever a client sees under a key can be produced: its exact bytes are cached, or the
      chain has reported them finalized. */
  lemma EveryKeyReadable(cfg: Config, actions: seq<Action>, b: string, k: string)
    requires cfg.batchMax > 0 && cfg.maxRetries > 0
    ensures var s := Run(Init(cfg), actions); var v := S3View.View(s.db);
      b in v && k in v[b] ==> Root(v[b][k]) in s.reported || (Root(v[b][k]) in s.cache && s.cache[Root(v[b][k])] == v[b][k])
  {
    InitInv(cfg);
    HistoryCommits(Init(cfg), actions);
    var s := Run(Init(cfg), actions);
    if b in s.db.buckets && k in S3View.Holds(s.db, b) {
      assert Composite(b, k) in s.db.keys;
      EveryObjectRecoverable(cfg, actions, s.db.keys[Composite(b, k)]);
    }
  }
}
