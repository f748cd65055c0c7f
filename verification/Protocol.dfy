/** The gateway as a transition system.  Shared state changes one store transaction, one file
    operation or one chain call at a time, so every interleaving of Puts, reads, evictions
    and the upload worker, with crashes and store failures anywhere, is a sequence of actions.
    An action whose turn it is not leaves the state as it is. */
module Protocol {
  import opened Outcomes
  import opened Content
  import opened KeyOrder
  import opened MetaStore
  import opened ChainBackend

  datatype Config = Config(batchMax: nat, maxRetries: nat)

  /** A collected batch member, with the node answer that classified it in this batch; None
      when it took the fresh-pending path. */
  datatype Held = Held(root: Root, skipTx: bool, answer: Option<FileStatus>)

  /** Where the worker stands.  `Batches` is the loop head of Flush, `Collect`..`Told` the
      reconcile loop of processBatch, `Mark` its write-ahead loop, `Record` its success loop,
      `Recon`..`ReconWrite` reconcileFailedBatch, `Poll` and `PollTold` PollFinality. */
  datatype PC =
    | Idle | Batches
    | Collect | Ask | Told(answer: FileStatus)
    | Mark | Record(tx: string)
    | Recon | ReconClose | ReconSkip | ReconInc | ReconWrite(count: nat)
    | Poll | PollTold(answer: FileStatus)

  /** The worker's locals: the roots of the current batch still to visit, the items collected,
      how many items the current loop has handled, and the snapshot's later batches. */
  datatype Worker = Worker(pc: PC, todo: seq<Root>, items: seq<Held>, n: nat, rest: seq<Root>)

  const RESTING := Worker(Idle, [], [], 0, [])

  /** Where one Put stands; Known carries the record that BySHA256 returned. */
  datatype PutPC = Spooled | Known(m: ObjectMeta) | Salvaging(m: ObjectMeta) | Rearming(m: ObjectMeta) | Fresh | Renamed

  datatype Put = Put(content: Bytes, pc: PutPC)

  datatype PutResult = PutResult(content: Bytes, root: Root, dedup: bool)

  datatype State = State(
    cfg: Config,
    db: DB,
    cache: map<Root, Bytes>,
    worker: Worker,
    puts: map<nat, Put>,
    nextId: nat,
    victims: Option<seq<Root>>,
    // the chain: entries landed per root since its last prune
    live: map<Root, nat>,
    // history: roots the chain has answered finalized for; per enqueue epoch, the roots handed
    // to BatchUpload, the entries landed, and the retry counts whose status write was lost
    reported: set<Root>,
    attempted: set<Root>,
    landed: map<Root, nat>,
    lost: map<Root, nat>,
    creators: map<Root, nat>,
    results: map<nat, PutResult>,
    // roots that requests in flight have looked up under some key
    resolved: set<Root>)

  function Init(cfg: Config): State {
    State(cfg, EMPTY, map[], RESTING, map[], 0, None, map[], {}, {}, map[], map[], map[], map[], {})
  }

  datatype WorkerAction =
    | StartFlush(order: seq<Root>)
    | NextBatch
    | Read(ok: bool)
    | AskNode(ans: Option<FileStatus>)
    | WriteTold(ok: bool)
    | CloseBatch
    | MarkOne(ok: bool)
    | Upload(hit: set<Root>, ok: bool, tx: string)
    | RecordOne(ok: bool)
    | EndBatch
    | ReconAsk(ans: Option<FileStatus>)
    | ReconStore(ok: bool)
    | StartPoll(order: seq<Root>)
    | PollAsk(ans: Option<FileStatus>)
    | PollStore(ok: bool)
    | EndPoll

  datatype PutAction = Lookup | Decide | Salvage | Rearm | Rename | CreateRecord(now: int) | Fail

  /** A request arrives, the evictor sweeps, a cold read restores a file, a read is noted, a
      copy looks up its source, a bucket or key transaction is committed, a node prunes a root,
      the process dies. */
  datatype OtherAction =
    | PutBegin(content: Bytes)
    | Resolve(b: string, k: string)
    | KeyOp(t: KeyTxn)
    | EvictStart(order: seq<Root>)
    | EvictOne(remove: bool)
    | EvictStop
    | Restore(r: Root)
    | NoteRead(r: Root, at: int)
    | Prune(r: Root)
    | Crash

  datatype Action = Work(w: WorkerAction) | PutStep(id: nat, p: PutAction) | Other(o: OtherAction)

  function Count(m: map<Root, nat>, r: Root): nat {
    if r in m then m[r] else 0
  }

  // ---- the worker ----

  /** processBatch returns to the loop of Flush. */
  function Returned(w: Worker): Worker {
    Worker(Batches, [], [], 0, w.rest)
  }

  function Dropped(w: Worker): Worker
    requires w.todo != []
  {
    w.(pc := if w.pc.Poll? || w.pc.PollTold? then Poll else Collect, todo := w.todo[1..])
  }

  function Collected(w: Worker, it: Held): Worker
    requires w.todo != []
  {
    w.(pc := Collect, todo := w.todo[1..], items := w.items + [it])
  }

  /** The roots of non-SkipTx members: what a batch transaction would land. */
  function FreshRoots(items: seq<Held>): set<Root> {
    set i | 0 <= i < |items| && !items[i].skipTx :: items[i].root
  }

  function ItemRoots(items: seq<Held>): set<Root> {
    set i | 0 <= i < |items| :: items[i].root
  }

  /** One more entry for each root in `hit`. */
  function Bumped(m: map<Root, nat>, hit: set<Root>): map<Root, nat> {
    map r | r in m.Keys + hit :: Count(m, r) + (if r in hit then 1 else 0)
  }

  /** The queue snapshot is a duplicate-free listing of the queue. */
  ghost predicate Snapshot(order: seq<Root>, queue: set<Root>) {
    Distinct(order) && forall r :: r in order <==> r in queue
  }

  /** The transaction a worker action commits, if any.  `ok` false is a failed transaction. */
  function WorkTxn(s: State, a: WorkerAction): Option<ObjTxn> {
    var w := s.worker;
    match w.pc
    case Told(ans) =>
      if !a.WriteTold? || !a.ok || w.todo == [] then None
      else if ans.FileFinalized? then Some(TSetStatus(w.todo[0], Finalized, "", NoFailure))
      else Some(TSetSkipTx(w.todo[0], ans.FileUploading?))
    case Mark =>
      if !a.MarkOne? || !a.ok || w.n >= |w.items| then None
      else Some(TSetStatus(w.items[w.n].root, Submitted, "", NoFailure))
    case Record(tx) =>
      if !a.RecordOne? || !a.ok || w.n >= |w.items| then None
      else Some(TSetStatus(w.items[w.n].root, Onchain, if w.items[w.n].skipTx then "" else tx, NoFailure))
    case ReconClose | ReconSkip | ReconInc | ReconWrite(_) =>
      if !a.ReconStore? || !a.ok || w.n >= |w.items| then None
      else Some(ReconTxn(w.pc, w.items[w.n].root, s.cfg.maxRetries))
    case PollTold(ans) =>
      if !a.PollStore? || !a.ok || w.todo == [] then None
      else if ans.FileFinalized? then Some(TSetStatus(w.todo[0], Finalized, "", NoFailure))
      else if ans.FilePruned? then Some(TSetStatus(w.todo[0], Failed, "", PrunedOnNodes))
      else None
    case _ => None
  }

  /** The write reconcileFailedBatch makes for a member at `pc`. */
  function ReconTxn(pc: PC, r: Root, maxRetries: nat): ObjTxn {
    if pc.ReconClose? then TSetStatus(r, Finalized, "", NoFailure)
    else if pc.ReconSkip? then TSetSkipTx(r, true)
    else if pc.ReconInc? then TIncRetries(r)
    else if pc.ReconWrite? && pc.count > maxRetries then TSetStatus(r, Failed, "", RetriesExhausted)
    else TSetStatus(r, Pending, "", NoFailure)
  }

  /** How a worker action moves the worker's locals. */
  ghost function WorkMove(s: State, a: WorkerAction): Worker {
    var w := s.worker;
    match w.pc
    case Idle =>
      if a.StartFlush? && Snapshot(a.order, s.db.qUpload) then Worker(Batches, [], [], 0, a.order)
      else if a.StartPoll? && Snapshot(a.order, s.db.qFinalize) then Worker(Poll, a.order, [], 0, [])
      else w
    case Batches =>
      if !a.NextBatch? then w
      else if w.rest == [] then RESTING
      else
        var k := if s.cfg.batchMax < |w.rest| then s.cfg.batchMax else |w.rest|;
        Worker(Collect, w.rest[..k], [], 0, w.rest[k..])
    case Collect =>
      if a.Read? && w.todo != [] then
        var r := w.todo[0];
        if !a.ok then Returned(w)
        else if r !in s.db.objects then Dropped(w)
        else if s.db.objects[r].status.Submitted? || s.db.objects[r].retries > 0 then w.(pc := Ask)
        else Collected(w, Held(r, s.db.objects[r].skipTx, None))
      else if a.CloseBatch? && w.todo == [] then
        if w.items == [] then Returned(w) else w.(pc := Mark, n := 0)
      else w
    case Ask =>
      if !a.AskNode? || w.todo == [] then w
      else if a.ans.None? then Dropped(w)
      else w.(pc := Told(a.ans.value))
    case Told(ans) =>
      if !a.WriteTold? || w.todo == [] then w
      else if !ans.FileFinalized? then Collected(w, Held(w.todo[0], ans.FileUploading?, Some(ans)))
      else if a.ok then Dropped(w)
      else Returned(w)
    case Mark =>
      if a.MarkOne? && w.n < |w.items| then if a.ok then w.(n := w.n + 1) else Returned(w)
      else if a.Upload? && w.n == |w.items| then w.(pc := if a.ok then Record(a.tx) else Recon, n := 0)
      else w
    case Record(tx) =>
      if a.RecordOne? && w.n < |w.items| then if a.ok then w.(n := w.n + 1) else Returned(w)
      else if a.EndBatch? && w.n == |w.items| then Returned(w)
      else w
    case Recon =>
      if a.ReconAsk? && w.n < |w.items| then
        w.(pc := if a.ans == Some(FileFinalized) then ReconClose
                 else if a.ans == Some(FileUploading) then ReconSkip
                 else ReconInc)
      else if a.EndBatch? && w.n == |w.items| then Returned(w)
      else w
    case ReconClose | ReconWrite(_) =>
      if a.ReconStore? && w.n < |w.items| then w.(pc := Recon, n := w.n + 1) else w
    case ReconSkip =>
      if a.ReconStore? && w.n < |w.items| then w.(pc := ReconInc) else w
    case ReconInc =>
      if !a.ReconStore? || w.n >= |w.items| then w
      else
        var r := w.items[w.n].root;
        if a.ok && r in s.db.objects then w.(pc := ReconWrite(s.db.objects[r].retries + 1))
        else w.(pc := Recon, n := w.n + 1)
    case Poll =>
      if a.PollAsk? && w.todo != [] then
        if a.ans.None? then Dropped(w) else w.(pc := PollTold(a.ans.value))
      else if a.EndPoll? && w.todo == [] then RESTING
      else w
    case PollTold(_) =>
      if a.PollStore? && w.todo != [] then Dropped(w) else w
  }

  /** The root a worker action concerns: the next one to visit or the next item to settle. */
  function Focus(w: Worker): Root {
    if w.todo != [] then w.todo[0] else if w.n < |w.items| then w.items[w.n].root else Root([])
  }

  /** The entries an upload lands: all fresh members on success, any of them on failure. */
  function Landing(w: Worker, a: WorkerAction): set<Root> {
    if !a.Upload? || !w.pc.Mark? || w.n != |w.items| then {}
    else if a.ok then FreshRoots(w.items)
    else FreshRoots(w.items) * a.hit
  }

  function Commits(db: DB, t: Option<ObjTxn>): DB {
    if t.Some? then Apply(db, t.value) else db
  }

  /** The answer a worker action receives from the nodes. */
  function Answer(w: Worker, a: WorkerAction): Option<FileStatus> {
    if a.AskNode? && w.pc.Ask? then a.ans
    else if a.ReconAsk? && w.pc.Recon? && w.n < |w.items| then a.ans
    else if a.PollAsk? && w.pc.Poll? && w.todo != [] then a.ans
    else None
  }

  ghost function WorkStep(s: State, a: WorkerAction): State {
    var w := s.worker;
    s.(db := Commits(s.db, WorkTxn(s, a)),
       worker := WorkMove(s, a),
       reported := if Answer(w, a) == Some(FileFinalized) then s.reported + {Focus(w)} else s.reported,
       live := Bumped(s.live, Landing(w, a)),
       landed := Bumped(s.landed, Landing(w, a)),
       attempted := if a.Upload? && w.pc.Mark? && w.n == |w.items| then s.attempted + ItemRoots(w.items) else s.attempted,
       lost := if a.ReconStore? && !a.ok && w.pc.ReconWrite? then Bumped(s.lost, {Focus(w)}) else s.lost)
  }

  // ---- Put ----

  /** What one step does to a Put: it waits, moves on, answers its caller, or fails. */
  datatype PutMove = Stay | To(pc: PutPC) | Reply(root: Root, dedup: bool) | Gone

  /** The record a new object starts with. */
  function NewRecord(content: Bytes): ObjectMeta {
    ObjectMeta(Root(content), Sha(content), |content|, Pending, "", NoFailure, 0, false, 0)
  }

  /** The transaction a Put commits; creating an existing root is refused and writes nothing. */
  function PutTxn(db: DB, p: Put, a: PutAction): Option<ObjTxn> {
    if a.Rearm? && p.pc.Rearming? then Some(TReenqueue(p.pc.m.root))
    else if a.CreateRecord? && p.pc.Renamed? && Root(p.content) !in db.objects then
      Some(TCreate(NewRecord(p.content), a.now))
    else None
  }

  function PutNext(s: State, p: Put, a: PutAction): PutMove {
    if a.Fail? then Gone
    else match p.pc {
      case Spooled =>
        var sha := Sha(p.content);
        if !a.Lookup? then Stay
        else if sha in s.db.bySha && s.db.bySha[sha] in s.db.objects then To(Known(s.db.objects[s.db.bySha[sha]]))
        else To(Fresh)
      case Known(m) =>
        if !a.Decide? then Stay
        else if !m.status.Finalized? && m.root !in s.cache then To(Salvaging(m))
        else if m.status.Failed? then To(Rearming(m))
        else Reply(m.root, true)
      case Salvaging(m) => if a.Salvage? then To(Rearming(m)) else Stay
      case Rearming(m) => if a.Rearm? then Reply(m.root, true) else Stay
      case Fresh => if a.Rename? then To(Renamed) else Stay
      case Renamed =>
        if a.CreateRecord? then Reply(Root(p.content), Root(p.content) in s.db.objects) else Stay
    }
  }

  /** Where a Put's rename puts its bytes. */
  function Placed(p: Put, a: PutAction): Option<Root> {
    if a.Salvage? && p.pc.Salvaging? then Some(p.pc.m.root)
    else if a.Rename? && p.pc.Fresh? then Some(Root(p.content))
    else None
  }

  /** The epochs a transaction ends: a creation or re-arm starts a fresh upload attempt. */
  function Ended(t: Option<ObjTxn>): set<Root> {
    match t
    case Some(TCreate(m, _)) => {m.root}
    case Some(TReenqueue(r)) => {r}
    case _ => {}
  }

  function PutAct(s: State, id: nat, a: PutAction): State
    requires id in s.puts
  {
    var p := s.puts[id];
    var t := PutTxn(s.db, p, a);
    var move := PutNext(s, p, a);
    var file := Placed(p, a);
    s.(db := Commits(s.db, t),
       cache := if file.Some? then s.cache[file.value := p.content] else s.cache,
       puts := match move {
                 case Stay => s.puts
                 case To(pc) => s.puts[id := p.(pc := pc)]
                 case _ => s.puts - {id}
               },
       results := if move.Reply? then s.results[id := PutResult(p.content, move.root, move.dedup)] else s.results,
       creators := if t.Some? && t.value.TCreate? then s.creators[t.value.m.root := id] else s.creators,
       attempted := s.attempted - Ended(t),
       landed := s.landed - Ended(t),
       lost := s.lost - Ended(t))
  }

  ghost predicate ListsVictims(order: seq<Root>, db: DB) {
    Distinct(order) && forall r :: r in order <==> r in db.objects && db.objects[r].status.Finalized?
  }

  function OtherTxn(a: OtherAction): Option<ObjTxn> {
    if a.NoteRead? then Some(TTouch(a.r, a.at)) else None
  }

  /** What the S3 layer hands to the store: bucket names without a slash, and a key is mapped to
      a root only after a Put has answered with it or a copy has looked it up. */
  predicate Offered(s: State, t: KeyTxn) {
    match t
    case TCreateBucket(b) => SlashFree(b)
    case TDeleteKey(b, _) => SlashFree(b)
    case TPutKey(_, _, r) => r in s.resolved || exists id :: id in s.results && s.results[id].root == r
    case _ => true
  }

  function KeyTxnOf(s: State, a: OtherAction): Option<KeyTxn> {
    if a.KeyOp? && Offered(s, a.t) then Some(a.t) else None
  }

  function ResolvedAfter(s: State, a: OtherAction): set<Root> {
    if a.Resolve? && Composite(a.b, a.k) in s.db.keys then s.resolved + {s.db.keys[Composite(a.b, a.k)]} else s.resolved
  }

  function CommitsKey(db: DB, t: Option<KeyTxn>): DB {
    if t.Some? then ApplyKey(db, t.value) else db
  }

  /** A cold read restores a recorded root with verified bytes; an eviction removes the next
      victim's file, if it is there. */
  function CacheAfter(s: State, a: OtherAction): map<Root, Bytes> {
    match a
    case Restore(r) => if r in s.db.objects then s.cache[r := r.content] else s.cache
    case EvictOne(remove) =>
      if remove && s.victims.Some? && s.victims.value != [] then s.cache - {s.victims.value[0]} else s.cache
    case _ => s.cache
  }

  ghost function VictimsAfter(s: State, a: OtherAction): Option<seq<Root>> {
    match a
    case EvictStart(order) => if s.victims.None? && ListsVictims(order, s.db) then Some(order) else s.victims
    case EvictOne(_) => if s.victims.Some? && s.victims.value != [] then Some(s.victims.value[1..]) else s.victims
    case EvictStop | Crash => None
    case _ => s.victims
  }

  /** A crash loses the worker's locals, the Puts in flight and the eviction sweep. */
  ghost function OtherStep(s: State, a: OtherAction): State {
    var w := s.worker;
    s.(db := CommitsKey(Commits(s.db, OtherTxn(a)), KeyTxnOf(s, a)),
       resolved := ResolvedAfter(s, a),
       cache := CacheAfter(s, a),
       victims := VictimsAfter(s, a),
       worker := if a.Crash? then RESTING else w,
       puts := if a.Crash? then map[]
               else if a.PutBegin? && a.content != [] then s.puts[s.nextId := Put(a.content, Spooled)]
               else s.puts,
       nextId := if a.PutBegin? then s.nextId + 1 else s.nextId,
       live := if a.Prune? then s.live - {a.r} else s.live,
       landed := if a.Prune? then s.landed - {a.r} else s.landed,
       lost := if a.Crash? && w.pc.ReconWrite? then Bumped(s.lost, {Focus(w)}) else s.lost)
  }

  ghost function Step(s: State, a: Action): State {
    match a
    case Work(w) => WorkStep(s, w)
    case PutStep(id, p) => if id in s.puts then PutAct(s, id, p) else s
    case Other(o) => OtherStep(s, o)
  }

  ghost function Run(s: State, actions: seq<Action>): State
    decreases |actions|
  {
    if actions == [] then s else Run(Step(s, actions[0]), actions[1..])
  }

  /** A run may be extended one action at a time. */
  lemma {:induction false} RunSnoc(s: State, actions: seq<Action>, a: Action)
    ensures Run(s, actions + [a]) == Step(Run(s, actions), a)
    decreases |actions|
  {
    if actions == [] {
      assert [a][1..] == [];
      assert actions + [a] == [a];
    } else {
      assert (actions + [a])[1..] == actions[1..] + [a];
      RunSnoc(Step(s, actions[0]), actions[1..], a);
    }
  }

  lemma {:induction false} RunKeepsCfg(s: State, actions: seq<Action>)
    ensures Run(s, actions).cfg == s.cfg
    decreases |actions|
  {
    if actions != [] {
      RunKeepsCfg(Step(s, actions[0]), actions[1..]);
    }
  }

  /** A run with its states: from the initial state, each action leads to the next, up to `s`. */
  ghost predicate Behaviour(cfg: Config, states: seq<State>, actions: seq<Action>, s: State) {
    && |states| == |actions| + 1 && states[0] == Init(cfg) && states[|actions|] == s
    && forall i {:trigger states[i], actions[i]} :: 0 <= i < |actions| ==> states[i + 1] == Step(states[i], actions[i])
  }

  lemma {:induction false} BehaviourIsRun(cfg: Config, states: seq<State>, actions: seq<Action>, s: State)
    requires Behaviour(cfg, states, actions, s)
    ensures s == Run(Init(cfg), actions)
    decreases |actions|
  {
    if actions != [] {
      var n := |actions| - 1;
      var a := actions[n];
      assert forall i :: 0 <= i < n ==> actions[..n][i] == actions[i];
      BehaviourIsRun(cfg, states[..n + 1], actions[..n], states[n]);
      RunSnoc(Init(cfg), actions[..n], a);
      assert actions == actions[..n] + [a];
    }
  }

  lemma BehaviourGrows(cfg: Config, states: seq<State>, actions: seq<Action>, s: State, a: Action)
    requires Behaviour(cfg, states, actions, s)
    ensures Behaviour(cfg, states + [Step(s, a)], actions + [a], Step(s, a))
  {
    var states', actions' := states + [Step(s, a)], actions + [a];
    forall i {:trigger states'[i], actions'[i]} | 0 <= i < |actions'|
      ensures states'[i + 1] == Step(states'[i], actions'[i])
    {
      if i < |actions| {
        assert actions[i] == actions'[i] && states[i] == states'[i];
      }
    }
  }
}
