/** The upload worker: Flush, processBatch, reconcileFailedBatch and PollFinality as the code
    runs them, with no one else at the store meanwhile.  Each method extends a run of the protocol
    by worker actions, which its contract says, and states its own outcome outright. */
module UploadWorker {
  import opened Outcomes
  import opened Content
  import opened MetaStore
  import opened ChainBackend
  import opened Protocol
  import opened ProtocolEffects
  import opened ProtocolSafety
  import opened Durability
  import opened Epochs

  /** One BatchUpload and its outcome; None is an error without per-item result. */
  datatype Call = Call(items: seq<Item>, tx: Option<string>)

  /** One FileStatus call and its answer; None when no node is reachable. */
  datatype Query = Query(root: Root, ans: Option<FileStatus>)

  /** The chain as the worker calls it: any answer may come back, and calls are logged. */
  class ChainClient {
    var uploads: seq<Call>
    var asked: seq<Query>

    constructor ()
      ensures uploads == [] && asked == []
    {
      uploads, asked := [], [];
    }

    method BatchUpload(items: seq<Item>) returns (tx: Option<string>)
      modifies this`uploads
      ensures uploads == old(uploads) + [Call(items, tx)]
    {
      tx := *;
      uploads := uploads + [Call(items, tx)];
    }

    method FileStatus(root: Root) returns (ans: Option<FileStatus>)
      modifies this`asked
      ensures asked == old(asked) + [Query(root, ans)]
    {
      ans := *;
      asked := asked + [Query(root, ans)];
    }
  }

  function RootSet(items: seq<Item>): set<Root> {
    set i | 0 <= i < |items| :: items[i].root
  }

  ghost predicate DistinctItems(items: seq<Item>) {
    forall i, j :: 0 <= i < j < |items| ==> items[i].root != items[j].root
  }

  type Records = map<Root, ObjectMeta>

  /** Collected or marked, but not settled; `skip` is what its batch item says. */
  predicate Underway(m: ObjectMeta, m': ObjectMeta, skip: bool) {
    m' == m.(status := m'.status, skipTx := skip)
  }

  /** How a batch leaves its member, whose item says `skip`.  On success it is onchain, under the
      batch's transaction unless it was SkipTx.  On failure it turned out finalized, or it has one
      retry more and waits again until the cap is passed, when it fails for that reason; SkipTx
      may have been set meanwhile, but not cleared. */
  predicate Settled(m: ObjectMeta, m': ObjectMeta, skip: bool, tx: Option<string>, maxRetries: nat) {
    match tx
    case Some(h) =>
      m' == m.(status := Onchain, skipTx := skip, txHash := if skip || h == "" then m.txHash else h)
    case None =>
      && (skip ==> m'.skipTx)
      && m' == if m'.status.Finalized? then m.(status := Finalized, skipTx := m'.skipTx)
               else if m.retries + 1 > maxRetries then
                 m.(status := Failed, failReason := RetriesExhausted, retries := m.retries + 1, skipTx := m'.skipTx)
               else m.(status := Pending, retries := m.retries + 1, skipTx := m'.skipTx)
  }

  /** What reconcileFailedBatch makes of a member, given the nodes' answer: finalized after all;
      otherwise SkipTx if its entry is on chain, one retry more, and pending until the cap. */
  function Reconciled(m: ObjectMeta, ans: Option<FileStatus>, maxRetries: nat): ObjectMeta {
    if ans == Some(FileFinalized) then WithStatus(m, Finalized, "", NoFailure)
    else
      var c := Counted(if ans == Some(FileUploading) then WithSkipTx(m, true) else m);
      if c.retries > maxRetries then WithStatus(c, Failed, "", RetriesExhausted) else WithStatus(c, Pending, "", NoFailure)
  }

  /** What the collecting loop makes of an object it asks about. */
  function Answered(m: ObjectMeta, ans: Option<FileStatus>): ObjectMeta {
    if ans.None? then m
    else if ans.value.FileFinalized? then WithStatus(m, Finalized, "", NoFailure)
    else WithSkipTx(m, ans.value.FileUploading?)
  }

  /** The batch item it becomes, if any. */
  function Member(root: Root, ans: Option<FileStatus>): Option<Item> {
    if ans.None? || ans.value.FileFinalized? then None else Some(Item(root, ans.value.FileUploading?))
  }

  /** The queries `asked` were about the first `n` items in order, and those records are
      reconciled with their answers; no other record changed. */
  ghost predicate ReconciledUpTo(was: Records, cur: Records, items: seq<Item>, n: nat, asked: seq<Query>, maxRetries: nat) {
    && n == |asked| <= |items| && cur.Keys == was.Keys && RootSet(items) <= was.Keys
    && (forall r :: r in was && r !in RootSet(items) ==> cur[r] == was[r])
    && (forall i :: 0 <= i < |items| ==>
          var r := items[i].root;
          r in was && if i < n then asked[i].root == r && cur[r] == Reconciled(was[r], asked[i].ans, maxRetries) else cur[r] == was[r])
  }

  lemma ReconciledNext(was: Records, cur: Records, cur': Records, items: seq<Item>, n: nat, asked: seq<Query>, q: Query, maxRetries: nat)
    requires ReconciledUpTo(was, cur, items, n, asked, maxRetries) && DistinctItems(items) && n < |items|
    requires OnlyAt(cur, cur', items[n].root) && q.root == items[n].root
    requires q.root in cur && q.root in cur' && cur'[q.root] == Reconciled(cur[q.root], q.ans, maxRetries)
    ensures ReconciledUpTo(was, cur', items, n + 1, asked + [q], maxRetries)
  {
    assert items[n].root in RootSet(items);
  }

  /** The trace was extended, and by worker actions only. */
  ghost predicate Extended(was: seq<Action>, now: seq<Action>) {
    was <= now && forall i :: |was| <= i < |now| ==> now[i].Work?
  }

  /** A member the batch does not collect: the nodes have it finalized, or no node could be
      asked about an earlier attempt and the record waits untouched for a later flush. */
  predicate SetAside(m: ObjectMeta, m': ObjectMeta, deferred: bool) {
    && (m.status.Submitted? || m.retries > 0)
    && m' == if deferred then m else m.(status := Finalized)
  }

  /** `cur'` differs from `cur` at `r` only. */
  ghost predicate OnlyAt(cur: Records, cur': Records, r: Root) {
    cur'.Keys == cur.Keys && forall q :: q in cur && q != r ==> cur'[q] == cur[q]
  }

  /** The collecting loop has visited the roots in `done`, starting from the records `pre`: each
      is collected and underway or set aside, and nothing else changed.  `deferred` are the
      roots whose status could not be learned. */
  ghost predicate CollectedSoFar(pre: Records, cur: Records, done: set<Root>, items: seq<Item>, deferred: set<Root>) {
    && cur.Keys == pre.Keys && done <= pre.Keys && DistinctItems(items) && deferred <= done - RootSet(items)
    && (forall r :: r in pre && r !in done ==> cur[r] == pre[r])
    && (forall i :: 0 <= i < |items| ==>
          items[i].root in done && Underway(pre[items[i].root], cur[items[i].root], items[i].skipTx))
    && (forall r :: r in done ==> r in RootSet(items) || SetAside(pre[r], cur[r], r in deferred))
  }

  lemma SetAsideNext(pre: Records, cur: Records, cur': Records, done: set<Root>, r: Root,
                     items: seq<Item>, deferred: set<Root>, unreachable: bool)
    requires CollectedSoFar(pre, cur, done, items, deferred) && r !in done && r in pre
    requires OnlyAt(cur, cur', r) && SetAside(pre[r], cur'[r], unreachable)
    ensures CollectedSoFar(pre, cur', done + {r}, items, if unreachable then deferred + {r} else deferred)
  {
  }

  lemma CollectNext(pre: Records, cur: Records, cur': Records, done: set<Root>, r: Root,
                    items: seq<Item>, skip: bool, deferred: set<Root>)
    requires CollectedSoFar(pre, cur, done, items, deferred) && r !in done && r in pre
    requires OnlyAt(cur, cur', r) && Underway(pre[r], cur'[r], skip)
    ensures CollectedSoFar(pre, cur', done + {r}, items + [Item(r, skip)], deferred)
  {
    var items' := items + [Item(r, skip)];
    assert items'[|items|].root == r;
    forall i | 0 <= i < |items|
      ensures items'[i] == items[i] && items[i].root in RootSet(items')
    {
      assert items'[i].root in RootSet(items');
    }
  }

  /** The batch has been collected: its first `n` members are settled, the others underway. */
  ghost predicate BatchAt(pre: Records, cur: Records, batch: set<Root>, items: seq<Item>, n: nat,
                          tx: Option<string>, deferred: set<Root>, maxRetries: nat) {
    && n <= |items| && cur.Keys == pre.Keys && DistinctItems(items) && deferred <= batch - RootSet(items)
    && (forall r :: r in pre && r !in batch ==> cur[r] == pre[r])
    && (forall i :: 0 <= i < |items| ==>
          && items[i].root in batch && items[i].root in pre
          && if i < n then Settled(pre[items[i].root], cur[items[i].root], items[i].skipTx, tx, maxRetries)
             else Underway(pre[items[i].root], cur[items[i].root], items[i].skipTx))
    && (forall r :: r in batch ==> r in pre && (r in RootSet(items) || SetAside(pre[r], cur[r], r in deferred)))
  }

  lemma AllVisited(pre: Records, cur: Records, batch: set<Root>, items: seq<Item>, tx: Option<string>,
                   deferred: set<Root>, maxRetries: nat)
    requires CollectedSoFar(pre, cur, batch, items, deferred)
    ensures BatchAt(pre, cur, batch, items, 0, tx, deferred, maxRetries)
  {
  }

  /** The first `n` items are marked submitted. */
  ghost predicate MarkedUpTo(cur: Records, items: seq<Item>, n: nat) {
    n <= |items| && forall i :: 0 <= i < n ==> items[i].root in cur && cur[items[i].root].status.Submitted?
  }

  lemma MarkNext(pre: Records, cur: Records, cur': Records, batch: set<Root>, items: seq<Item>, n: nat,
                 tx: Option<string>, deferred: set<Root>, maxRetries: nat)
    requires BatchAt(pre, cur, batch, items, 0, tx, deferred, maxRetries) && n < |items|
    requires OnlyAt(cur, cur', items[n].root) && items[n].root in cur'
    requires Underway(pre[items[n].root], cur'[items[n].root], items[n].skipTx)
    requires MarkedUpTo(cur, items, n) && cur'[items[n].root].status.Submitted?
    ensures BatchAt(pre, cur', batch, items, 0, tx, deferred, maxRetries) && MarkedUpTo(cur', items, n + 1)
  {
    assert items[n].root in RootSet(items);
  }

  lemma SettleNext(pre: Records, cur: Records, cur': Records, batch: set<Root>, items: seq<Item>, n: nat,
                   tx: Option<string>, deferred: set<Root>, maxRetries: nat)
    requires BatchAt(pre, cur, batch, items, n, tx, deferred, maxRetries) && n < |items|
    requires OnlyAt(cur, cur', items[n].root) && items[n].root in cur'
    requires Settled(pre[items[n].root], cur'[items[n].root], items[n].skipTx, tx, maxRetries)
    ensures BatchAt(pre, cur', batch, items, n + 1, tx, deferred, maxRetries)
  {
    assert items[n].root in RootSet(items);
  }

  lemma MemberReconciled(m: ObjectMeta, was: ObjectMeta, skip: bool, ans: Option<FileStatus>, maxRetries: nat)
    requires Underway(m, was, skip)
    ensures Settled(m, Reconciled(was, ans, maxRetries), skip, None, maxRetries)
  {
  }

  /** Field by field: SkipTx is set on "uploading" and otherwise kept, "finalized" closes, anything
      else costs a retry and past the cap fails for that reason. */
  lemma ReconciledFields(was: Records, cur: Records, items: seq<Item>, asked: seq<Query>, maxRetries: nat)
    requires ReconciledUpTo(was, cur, items, |items|, asked, maxRetries)
    ensures forall i :: 0 <= i < |items| ==>
      var m, m', ans := was[items[i].root], cur[items[i].root], asked[i].ans;
        && m'.skipTx == (m.skipTx || ans == Some(FileUploading))
        && (m'.status.Finalized? <==> ans == Some(FileFinalized))
        && (m'.status.Failed? <==> ans != Some(FileFinalized) && m.retries >= maxRetries)
        && (m'.status.Finalized? || m'.status.Failed? || m'.status.Pending?)
        && m'.retries == (if m'.status.Finalized? then m.retries else m.retries + 1)
        && m'.failReason == (if m'.status.Failed? then RetriesExhausted else m.failReason)
        && m'.txHash == m.txHash && m'.size == m.size && m'.lastAccess == m.lastAccess
  {
  }

  /** A reconciled batch is settled as a failed one. */
  lemma BatchReconciled(pre: Records, was: Records, cur: Records, batch: set<Root>, items: seq<Item>,
                        asked: seq<Query>, deferred: set<Root>, maxRetries: nat)
    requires BatchAt(pre, was, batch, items, 0, None, deferred, maxRetries)
    requires ReconciledUpTo(was, cur, items, |items|, asked, maxRetries)
    ensures BatchAt(pre, cur, batch, items, |items|, None, deferred, maxRetries)
  {
    forall i | 0 <= i < |items|
      ensures Settled(pre[items[i].root], cur[items[i].root], items[i].skipTx, None, maxRetries)
    {
      MemberReconciled(pre[items[i].root], was[items[i].root], items[i].skipTx, asked[i].ans, maxRetries);
    }
  }

  /** The batch members as the protocol holds them. */
  ghost predicate Mirrors(items: seq<Item>, held: seq<Held>) {
    |items| == |held| && forall i :: 0 <= i < |items| ==> items[i] == Item(held[i].root, held[i].skipTx)
  }

  lemma MirrorsNext(items: seq<Item>, held: seq<Held>, it: Item, h: Held)
    requires Mirrors(items, held) && it == Item(h.root, h.skipTx)
    ensures Mirrors(items + [it], held + [h])
  {
  }

  /** Why a flush returns an error: a root whose status no node could tell, or a failed batch. */
  datatype FlushError = Deferred(root: Root) | BatchFailed

  function RootsBefore(batch: seq<ObjectMeta>, k: nat): set<Root>
    requires k <= |batch|
  {
    set j | 0 <= j < k :: batch[j].root
  }

  lemma RootsBeforeNext(batch: seq<ObjectMeta>, k: nat)
    requires k < |batch| && Distinct(Roots(batch))
    ensures batch[k].root !in RootsBefore(batch, k)
    ensures RootsBefore(batch, k + 1) == RootsBefore(batch, k) + {batch[k].root}
  {
    forall j | 0 <= j < k
      ensures batch[j].root != batch[k].root
    {
      assert Roots(batch)[j] != Roots(batch)[k];
    }
  }

  /** The first `k` members of the batch have been visited; `first` is a deferred one, if any is. */
  ghost predicate CollectedUpTo(pre: Records, cur: Records, batch: seq<ObjectMeta>, k: nat, items: seq<Item>,
                                deferred: set<Root>, first: Option<Root>) {
    && k <= |batch| && CollectedSoFar(pre, cur, RootsBefore(batch, k), items, deferred)
    && (if first.Some? then first.value in deferred else deferred == {})
  }

  lemma CollectStep(pre: Records, cur: Records, cur': Records, batch: seq<ObjectMeta>, k: nat, items: seq<Item>,
                    deferred: set<Root>, first: Option<Root>, it: Option<Item>, unreachable: bool)
    requires CollectedUpTo(pre, cur, batch, k, items, deferred, first) && k < |batch| && Distinct(Roots(batch))
    requires OnlyAt(cur, cur', batch[k].root) && batch[k].root in cur'
    requires it.Some? ==> it.value.root == batch[k].root && Underway(cur[batch[k].root], cur'[batch[k].root], it.value.skipTx)
    requires it.None? ==> SetAside(cur[batch[k].root], cur'[batch[k].root], unreachable)
    requires unreachable ==> it.None?
    ensures CollectedUpTo(pre, cur', batch, k + 1, if it.Some? then items + [it.value] else items,
                          if unreachable then deferred + {batch[k].root} else deferred,
                          if unreachable && first.None? then Some(batch[k].root) else first)
  {
    RootsBeforeNext(batch, k);
    if it.Some? {
      CollectNext(pre, cur, cur', RootsBefore(batch, k), batch[k].root, items, it.value.skipTx, deferred);
    } else {
      SetAsideNext(pre, cur, cur', RootsBefore(batch, k), batch[k].root, items, deferred, unreachable);
    }
  }

  lemma RootsSplit(queue: seq<ObjectMeta>, i: nat, j: nat)
    requires i <= j <= |queue| && Distinct(Roots(queue))
    ensures RootsBefore(queue, i) !! RootsBefore(queue[i..j], j - i)
    ensures RootsBefore(queue, j) == RootsBefore(queue, i) + RootsBefore(queue[i..j], j - i)
  {
    var batch := queue[i..j];
    forall a, b | 0 <= a < i && 0 <= b < j - i
      ensures queue[a].root != batch[b].root
    {
      assert Roots(queue)[a] != Roots(queue)[i + b];
    }
    forall r | r in RootsBefore(queue, j)
      ensures r in RootsBefore(queue, i) + RootsBefore(batch, j - i)
    {
      var a :| 0 <= a < j && queue[a].root == r;
      assert a >= i ==> batch[a - i].root == r;
    }
  }

  function Uploaded(calls: seq<Call>): set<Root> {
    set c, i | 0 <= c < |calls| && 0 <= i < |calls[c].items| :: calls[c].items[i].root
  }

  /** Each call holds at most `max` items and no root is uploaded twice. */
  ghost predicate OncePerRoot(calls: seq<Call>, max: nat) {
    && (forall c :: 0 <= c < |calls| ==> 0 < |calls[c].items| <= max && DistinctItems(calls[c].items))
    && (forall c, d :: 0 <= c < d < |calls| ==> RootSet(calls[c].items) !! RootSet(calls[d].items))
  }

  /** The flush has been through the roots in `seen`: each went to one call and was settled by
      its outcome, or was set aside; no other record changed. */
  ghost predicate FlushedUpTo(pre: Records, cur: Records, seen: set<Root>, calls: seq<Call>, deferred: set<Root>,
                              max: nat, maxRetries: nat) {
    && cur.Keys == pre.Keys && seen <= pre.Keys && OncePerRoot(calls, max) && Uploaded(calls) <= seen
    && deferred <= seen - Uploaded(calls)
    && (forall r :: r in pre && r !in seen ==> cur[r] == pre[r])
    && CallsSettled(pre, cur, calls, maxRetries)
    && (forall r :: r in seen ==> r in Uploaded(calls) || SetAside(pre[r], cur[r], r in deferred))
  }

  lemma UploadedSnoc(calls: seq<Call>, call: Call)
    ensures Uploaded(calls + [call]) == Uploaded(calls) + RootSet(call.items)
  {
    var calls' := calls + [call];
    forall r | r in Uploaded(calls)
      ensures r in Uploaded(calls')
    {
      var c, i :| 0 <= c < |calls| && 0 <= i < |calls[c].items| && calls[c].items[i].root == r;
      assert calls'[c] == calls[c];
    }
    forall r | r in RootSet(call.items)
      ensures r in Uploaded(calls')
    {
      assert calls'[|calls|] == call;
    }
  }

  lemma OncePerRootSnoc(calls: seq<Call>, call: Call, max: nat)
    requires OncePerRoot(calls, max) && 0 < |call.items| <= max && DistinctItems(call.items)
    requires RootSet(call.items) !! Uploaded(calls)
    ensures OncePerRoot(calls + [call], max)
  {
    var calls' := calls + [call];
    forall c | 0 <= c < |calls|
      ensures RootSet(calls'[c].items) !! RootSet(call.items)
    {
      assert forall i :: 0 <= i < |calls[c].items| ==> calls[c].items[i].root in Uploaded(calls);
    }
  }

  /** The calls' members are settled in `cur`, each by its call's outcome. */
  ghost predicate CallsSettled(pre: Records, cur: Records, calls: seq<Call>, maxRetries: nat) {
    forall c, i {:trigger calls[c].items[i]} :: 0 <= c < |calls| && 0 <= i < |calls[c].items| ==>
      var r := calls[c].items[i].root; r in pre && r in cur && Settled(pre[r], cur[r], calls[c].items[i].skipTx, calls[c].tx, maxRetries)
  }

  lemma CallsStaySettled(pre: Records, cur: Records, cur': Records, calls: seq<Call>, maxRetries: nat)
    requires CallsSettled(pre, cur, calls, maxRetries)
    requires forall r :: r in Uploaded(calls) && r in cur ==> r in cur' && cur'[r] == cur[r]
    ensures CallsSettled(pre, cur', calls, maxRetries)
  {
    forall c, i | 0 <= c < |calls| && 0 <= i < |calls[c].items|
      ensures calls[c].items[i].root in Uploaded(calls)
    {
    }
  }

  lemma NextCallSettled(pre: Records, cur: Records, cur': Records, batch: set<Root>, calls: seq<Call>, items: seq<Item>,
                        tx: Option<string>, d: set<Root>, maxRetries: nat)
    requires CallsSettled(pre, cur', calls, maxRetries) && BatchAt(cur, cur', batch, items, |items|, tx, d, maxRetries)
    requires forall r :: r in batch ==> r in pre && r in cur && cur[r] == pre[r]
    ensures CallsSettled(pre, cur', calls + [Call(items, tx)], maxRetries)
  {
    var calls' := calls + [Call(items, tx)];
    forall c, i | 0 <= c < |calls'| && 0 <= i < |calls'[c].items|
      ensures var r := calls'[c].items[i].root; r in pre && r in cur' && Settled(pre[r], cur'[r], calls'[c].items[i].skipTx, calls'[c].tx, maxRetries)
    {
      if c < |calls| {
        assert calls'[c].items[i] == calls[c].items[i];
      } else {
        assert calls'[c].items[i] == items[i];
      }
    }
  }

  /** The next batch, disjoint from what was seen, extends the flush. */
  lemma BatchJoins(pre: Records, cur: Records, cur': Records, seen: set<Root>, batch: set<Root>, calls: seq<Call>,
                   items: seq<Item>, tx: Option<string>, d: set<Root>, d': set<Root>, max: nat, maxRetries: nat)
    requires FlushedUpTo(pre, cur, seen, calls, d, max, maxRetries) && seen !! batch && 0 < |items| <= max
    requires BatchAt(cur, cur', batch, items, |items|, tx, d', maxRetries)
    ensures FlushedUpTo(pre, cur', seen + batch, calls + [Call(items, tx)], d + d', max, maxRetries)
  {
    assert RootSet(items) <= batch;
    CallsStaySettled(pre, cur, cur', calls, maxRetries);
    UploadedSnoc(calls, Call(items, tx));
    OncePerRootSnoc(calls, Call(items, tx), max);
    NextCallSettled(pre, cur, cur', batch, calls, items, tx, d', maxRetries);
  }

  /** So does a batch that made no call. */
  lemma QuietBatchJoins(pre: Records, cur: Records, cur': Records, seen: set<Root>, batch: set<Root>, calls: seq<Call>,
                        tx: Option<string>, d: set<Root>, d': set<Root>, max: nat, maxRetries: nat)
    requires FlushedUpTo(pre, cur, seen, calls, d, max, maxRetries) && seen !! batch
    requires BatchAt(cur, cur', batch, [], 0, tx, d', maxRetries)
    ensures FlushedUpTo(pre, cur', seen + batch, calls, d + d', max, maxRetries)
  {
    assert RootSet([]) == {};
    CallsStaySettled(pre, cur, cur', calls, maxRetries);
  }

  /** After the batches before `start`, each full but perhaps the last, no more calls than batches. */
  predicate FewCalls(calls: nat, start: nat, total: nat, max: nat) {
    calls * max <= start || (start == total && calls * max < total + max)
  }

  lemma OneMoreCall(calls: nat, more: nat, start: nat, total: nat, max: nat)
    requires FewCalls(calls, start, total, max) && start < total && more <= 1
    ensures FewCalls(calls + more, if start + max < total then start + max else total, total, max)
  {
    assert (calls + more) * max == calls * max + more * max;
  }

  /** A batch without items makes no call. */
  function CallOf(items: seq<Item>, tx: Option<string>): seq<Call> {
    if items == [] then [] else [Call(items, tx)]
  }

  /** No error is returned exactly when no call failed and nothing was deferred; an error names
      one of the two. */
  ghost predicate Explained(err: Option<FlushError>, calls: seq<Call>, deferred: set<Root>) {
    match err
    case None => deferred == {} && forall c :: c in calls ==> c.tx.Some?
    case Some(BatchFailed) => exists c :: c in calls && c.tx.None?
    case Some(Deferred(r)) => r in deferred
  }

  lemma ExplainedJoins(err: Option<FlushError>, e: Option<FlushError>, calls: seq<Call>, calls': seq<Call>,
                       d: set<Root>, d': set<Root>)
    requires Explained(err, calls, d) && Explained(e, calls', d')
    ensures Explained(if e.Some? && err.None? then e else err, calls + calls', d + d')
  {
  }

  lemma FlushStep(pre: Records, cur: Records, cur': Records, queue: seq<ObjectMeta>, start: nat, end: nat, batch: seq<ObjectMeta>,
                  calls: seq<Call>, items: seq<Item>, tx: Option<string>, d: set<Root>, d': set<Root>,
                  err: Option<FlushError>, e: Option<FlushError>, max: nat, maxRetries: nat)
    requires start <= end <= |queue| && Distinct(Roots(queue)) && |items| <= max
    requires FlushedUpTo(pre, cur, RootsBefore(queue, start), calls, d, max, maxRetries)
    requires batch == queue[start..end] && BatchAt(cur, cur', RootsBefore(batch, |batch|), items, |items|, tx, d', maxRetries)
    requires Explained(err, calls, d) && Explained(e, CallOf(items, tx), d')
    ensures FlushedUpTo(pre, cur', RootsBefore(queue, end), calls + CallOf(items, tx), d + d', max, maxRetries)
    ensures Explained(if e.Some? && err.None? then e else err, calls + CallOf(items, tx), d + d')
  {
    RootsSplit(queue, start, end);
    if items == [] {
      QuietBatchJoins(pre, cur, cur', RootsBefore(queue, start), RootsBefore(batch, |batch|),
                      calls, tx, d, d', max, maxRetries);
      assert calls + [] == calls;
    } else {
      BatchJoins(pre, cur, cur', RootsBefore(queue, start), RootsBefore(batch, |batch|),
                 calls, items, tx, d, d', max, maxRetries);
    }
    ExplainedJoins(err, e, calls, CallOf(items, tx), d, d');
  }

  /** The protocol's step for marking item `n`. */
  lemma MarkStep(s: State, w: Protocol.Worker, items: seq<Item>, n: nat)
    requires w.pc.Mark? && Mirrors(items, w.items) && n < |items| && s.worker == w.(n := n)
    ensures WorkMove(s, MarkOne(true)) == w.(n := n + 1)
    ensures WorkTxn(s, MarkOne(true)) == Some(TSetStatus(items[n].root, Submitted, "", NoFailure))
  {
  }

  /** And for recording it as onchain. */
  lemma RecordStep(s: State, w: Protocol.Worker, items: seq<Item>, n: nat)
    requires w.pc.Record? && Mirrors(items, w.items) && n < |items| && s.worker == w.(n := n)
    ensures WorkMove(s, RecordOne(true)) == w.(n := n + 1)
    ensures WorkTxn(s, RecordOne(true)) ==
            Some(TSetStatus(items[n].root, Onchain, if items[n].skipTx then "" else w.pc.tx, NoFailure))
  {
  }

  /** Closing the collection, handing over the batch and ending it write nothing. */
  lemma CloseStep(s: State)
    requires s.worker.pc.Collect? && s.worker.todo == []
    ensures WorkMove(s, CloseBatch) == (if s.worker.items == [] then Returned(s.worker) else s.worker.(pc := Mark, n := 0))
    ensures WorkTxn(s, CloseBatch).None?
  {
  }

  lemma UploadStep(s: State, hit: set<Root>, ok: bool, tx: string)
    requires s.worker.pc.Mark? && s.worker.n == |s.worker.items|
    ensures WorkMove(s, Upload(hit, ok, tx)) == s.worker.(pc := if ok then Record(tx) else Recon, n := 0)
    ensures WorkTxn(s, Upload(hit, ok, tx)).None?
  {
  }

  lemma EndPollStep(s: State)
    requires s.worker.pc.Poll? && s.worker.todo == []
    ensures WorkMove(s, EndPoll) == RESTING && WorkTxn(s, EndPoll).None?
  {
  }

  lemma EndStep(s: State)
    requires (s.worker.pc.Record? || s.worker.pc.Recon?) && s.worker.n == |s.worker.items|
    ensures WorkMove(s, EndBatch) == Returned(s.worker) && WorkTxn(s, EndBatch).None?
  {
  }

  /** Asking about a member of a failed batch decides what is written next. */
  lemma ReconStep(s: State, w: Protocol.Worker, ans: Option<FileStatus>)
    requires s.worker == w && w.pc.Recon? && w.n < |w.items|
    ensures WorkMove(s, ReconAsk(ans)) == w.(pc := if ans == Some(FileFinalized) then ReconClose
                                                   else if ans == Some(FileUploading) then ReconSkip else ReconInc)
    ensures WorkTxn(s, ReconAsk(ans)).None?
  {
  }

  /** The listing of a queue is the protocol's snapshot of it. */
  lemma SnapshotTaken(db: DB, queued: set<Root>, queue: seq<ObjectMeta>)
    requires Synced(db) && queued <= db.objects.Keys && Distinct(Roots(queue))
    requires forall m :: m in queue ==> m.root in queued && m == db.objects[m.root]
    requires forall r :: r in queued ==> db.objects[r] in queue
    ensures Snapshot(Roots(queue), queued) && RootsBefore(queue, |queue|) == queued
  {
    forall r | r in queued
      ensures r in Roots(queue) && r in RootsBefore(queue, |queue|)
    {
      var j :| 0 <= j < |queue| && queue[j] == db.objects[r];
      assert Roots(queue)[j] == r;
    }
  }

  /** When every call succeeded and nothing was deferred, no object awaits upload any more. */
  lemma FlushEmpties(pre: Records, db: DB, snapshot: set<Root>, calls: seq<Call>, max: nat, maxRetries: nat)
    requires Synced(db) && FlushedUpTo(pre, db.objects, snapshot, calls, {}, max, maxRetries)
    requires forall r :: r in pre && AwaitsUpload(pre[r].status) ==> r in snapshot
    requires forall c :: c in calls ==> c.tx.Some?
    ensures db.qUpload == {}
  {
    forall r | r in db.objects
      ensures !AwaitsUpload(db.objects[r].status)
    {
      if r in Uploaded(calls) {
        var c, i :| 0 <= c < |calls| && 0 <= i < |calls[c].items| && calls[c].items[i].root == r;
        assert calls[c] in calls;
      }
    }
  }

  /** One flush dealt with the object: it was uploaded, successfully or not, or found finalized. */
  ghost predicate Attempted(m: ObjectMeta, m': ObjectMeta, maxRetries: nat) {
    SetAside(m, m', false) || exists skip, tx :: Settled(m, m', skip, tx, maxRetries)
  }

  /** A flush attempts every snapshot root it does not defer. */
  lemma FlushAttempts(pre: Records, cur: Records, seen: set<Root>, calls: seq<Call>, deferred: set<Root>,
                      max: nat, maxRetries: nat, r: Root)
    requires FlushedUpTo(pre, cur, seen, calls, deferred, max, maxRetries) && r in seen
    ensures r in cur && if r in deferred then cur[r] == pre[r] else Attempted(pre[r], cur[r], maxRetries)
  {
    if r in Uploaded(calls) {
      var c, i :| 0 <= c < |calls| && 0 <= i < |calls[c].items| && calls[c].items[i].root == r;
      assert Settled(pre[r], cur[r], calls[c].items[i].skipTx, calls[c].tx, maxRetries);
    }
  }

  /** Retrying ends: an object that still awaits upload after each of a series of attempts has
      used one retry for each, and the cap allows MaxRetries of them. */
  lemma {:induction false} RetriesRunOut(ms: seq<ObjectMeta>, maxRetries: nat)
    requires ms != [] && forall i :: 0 <= i < |ms| ==> AwaitsUpload(ms[i].status)
    requires forall i :: 0 <= i < |ms| - 1 ==> Attempted(ms[i], ms[i + 1], maxRetries)
    ensures ms[|ms| - 1].retries == ms[0].retries + |ms| - 1
    ensures |ms| > 1 ==> ms[0].retries + |ms| - 1 <= maxRetries
  {
    if |ms| > 1 {
      var n := |ms| - 1;
      RetriesRunOut(ms[..n], maxRetries);
      assert Attempted(ms[n - 1], ms[n - 1 + 1], maxRetries);
    }
  }

  /** In how many flushes the object was not deferred. */
  ghost function Attempts(r: Root, waits: seq<set<Root>>): nat {
    if waits == [] then 0
    else Attempts(r, waits[..|waits| - 1]) + if r in waits[|waits| - 1] then 0 else 1
  }

  /** Whatever still awaits upload did so from the start and has spent one retry on each attempt. */
  ghost predicate StillWaiting(pre: Records, queued: set<Root>, cur: Records, left: set<Root>, waits: seq<set<Root>>, maxRetries: nat) {
    forall r :: r in left ==>
      && r in queued && r in pre && r in cur && cur[r].retries == pre[r].retries + Attempts(r, waits)
      && (Attempts(r, waits) > 0 ==> cur[r].retries <= maxRetries)
  }

  /** After more flushes that did not defer it than the cap has retries left, it is out. */
  lemma AttemptsForceOut(pre: Records, queued: set<Root>, cur: Records, left: set<Root>, waits: seq<set<Root>>,
                         maxRetries: nat, r: Root)
    requires StillWaiting(pre, queued, cur, left, waits, maxRetries) && r in pre
    requires Attempts(r, waits) > 0 && pre[r].retries + Attempts(r, waits) > maxRetries
    ensures r !in left
  {
  }

  /** A poll does not touch what awaits upload. */
  lemma PollLeaves(db1: DB, db2: DB, answers: map<Root, Option<FileStatus>>, err: bool, r: Root)
    requires Synced(db1) && Synced(db2) && r in db2.qUpload
    requires PolledUpTo(db1.objects, db2.objects, answers, err) && answers.Keys == db1.qFinalize
    ensures r in db1.qUpload && r in db1.objects && db2.objects[r] == db1.objects[r]
  {
  }

  /** What a flush leaves queued was queued, and was deferred or has one retry more. */
  lemma FlushCounts(db: DB, db1: DB, calls: seq<Call>, d: set<Root>, max: nat, maxRetries: nat, r: Root)
    requires Synced(db) && Synced(db1) && r in db1.qUpload
    requires FlushedUpTo(db.objects, db1.objects, db.qUpload, calls, d, max, maxRetries)
    ensures r in db.qUpload && r in db.objects && r in db1.objects
    ensures if r in d then db1.objects[r] == db.objects[r]
            else db1.objects[r].retries == db.objects[r].retries + 1 <= maxRetries
  {
    assert r in db.qUpload;
    FlushAttempts(db.objects, db1.objects, db.qUpload, calls, d, max, maxRetries, r);
  }

  /** One flush and one poll. */
  lemma TickKeepsWaiting(pre: Records, queued: set<Root>, db: DB, db1: DB, db2: DB, waits: seq<set<Root>>,
                         calls: seq<Call>, d: set<Root>, answers: map<Root, Option<FileStatus>>, err: bool,
                         max: nat, maxRetries: nat)
    requires Synced(db) && Synced(db1) && Synced(db2)
    requires StillWaiting(pre, queued, db.objects, db.qUpload, waits, maxRetries)
    requires FlushedUpTo(db.objects, db1.objects, db.qUpload, calls, d, max, maxRetries)
    requires PolledUpTo(db1.objects, db2.objects, answers, err) && answers.Keys == db1.qFinalize
    ensures StillWaiting(pre, queued, db2.objects, db2.qUpload, waits + [d], maxRetries)
  {
    assert (waits + [d])[..|waits|] == waits;
    forall r | r in db2.qUpload
      ensures r in queued && r in pre && db2.objects[r].retries == pre[r].retries + Attempts(r, waits + [d])
      ensures Attempts(r, waits + [d]) > 0 ==> db2.objects[r].retries <= maxRetries
    {
      PollLeaves(db1, db2, answers, err, r);
      FlushCounts(db, db1, calls, d, max, maxRetries, r);
    }
  }

  /** What a finality poll makes of a record, given the nodes' answer. */
  function Polled(m: ObjectMeta, ans: Option<FileStatus>): ObjectMeta {
    if ans == Some(FileFinalized) then WithStatus(m, Finalized, "", NoFailure)
    else if ans == Some(FilePruned) then WithStatus(m, Failed, "", PrunedOnNodes)
    else m
  }

  /** The poll has asked about the roots in `answers` and written what they imply; `err` tells
      whether some status could not be learned. */
  ghost predicate PolledUpTo(pre: Records, cur: Records, answers: map<Root, Option<FileStatus>>, err: bool) {
    && cur.Keys == pre.Keys && answers.Keys <= pre.Keys
    && (forall r :: r in pre ==> cur[r] == if r in answers then Polled(pre[r], answers[r]) else pre[r])
    && (err <==> exists r :: r in answers && answers[r].None?)
  }

  lemma LogGrows(before: seq<Query>, queries: seq<Query>, q: Query)
    ensures before + queries + [q] == before + (queries + [q])
  {
  }

  /** One query per root, and its answer is the one noted. */
  ghost predicate AskedOnce(queries: seq<Query>, answers: map<Root, Option<FileStatus>>) {
    && |queries| == |answers|
    && (forall q :: q in queries ==> q.root in answers && answers[q.root] == q.ans)
    && (forall r :: r in answers ==> Query(r, answers[r]) in queries)
  }

  lemma AskedNext(queries: seq<Query>, answers: map<Root, Option<FileStatus>>, q: Query)
    requires AskedOnce(queries, answers) && q.root !in answers
    ensures AskedOnce(queries + [q], answers[q.root := q.ans])
  {
    var answers' := answers[q.root := q.ans];
    assert answers' - {q.root} == answers;
    assert (queries + [q])[|queries|] == q;
    forall r | r in answers
      ensures Query(r, answers'[r]) in queries + [q]
    {
      assert Query(r, answers[r]) in queries;
    }
  }

  /** The first `k` members of the snapshot have been polled. */
  ghost predicate PolledSoFar(pre: Records, cur: Records, queue: seq<ObjectMeta>, k: nat,
                              answers: map<Root, Option<FileStatus>>, queries: seq<Query>, err: bool) {
    && k <= |queue| && answers.Keys == RootsBefore(queue, k)
    && PolledUpTo(pre, cur, answers, err) && AskedOnce(queries, answers)
  }

  lemma PollNext(pre: Records, cur: Records, cur': Records, queue: seq<ObjectMeta>, k: nat,
                 answers: map<Root, Option<FileStatus>>, queries: seq<Query>, err: bool, q: Query)
    requires PolledSoFar(pre, cur, queue, k, answers, queries, err) && k < |queue| && Distinct(Roots(queue))
    requires q.root == queue[k].root && q.root in pre && q.root in cur
    requires OnlyAt(cur, cur', q.root) && cur'[q.root] == Polled(cur[q.root], q.ans)
    ensures PolledSoFar(pre, cur', queue, k + 1, answers[q.root := q.ans], queries + [q], err || q.ans.None?)
  {
    RootsBeforeNext(queue, k);
    AskedNext(queries, answers, q);
    PolledNext(pre, cur, cur', answers, err, q.root, q.ans);
  }

  lemma PolledNext(pre: Records, cur: Records, cur': Records, answers: map<Root, Option<FileStatus>>, err: bool,
                   r: Root, ans: Option<FileStatus>)
    requires PolledUpTo(pre, cur, answers, err) && r in pre && r !in answers
    requires OnlyAt(cur, cur', r) && cur'[r] == Polled(cur[r], ans)
    ensures PolledUpTo(pre, cur', answers[r := ans], err || ans.None?)
  {
    assert answers[r := ans][r] == ans;
    assert forall q :: q in answers ==> q in answers[r := ans] && answers[r := ans][q] == answers[q];
  }

  function Settings(batchMax: int, maxRetries: int): (cfg: Config)
    ensures cfg.batchMax > 0 && cfg.maxRetries > 0
    ensures batchMax > 0 ==> cfg.batchMax == batchMax
    ensures maxRetries > 0 ==> cfg.maxRetries == maxRetries
    ensures batchMax <= 0 ==> cfg.batchMax == 10
    ensures maxRetries <= 0 ==> cfg.maxRetries == 5
  {
    Config(if batchMax <= 0 then 10 else batchMax, if maxRetries <= 0 then 5 else maxRetries)
  }

  class Worker {
    const st: Store
    const ch: ChainClient
    const batchMax: nat
    const maxRetries: nat

    ghost var states: seq<State>
    ghost var trace: seq<Action>
    ghost var g: State
    ghost var base: seq<Action>

    /** The worker's locals and the store are those of a protocol run: `g` is the state the
        actions in `trace`, its own and its environment's, lead to.  Since `base`, which only
        Flush, PollFinality and the environment move, all of them are its own. */
    ghost predicate Valid()
      reads this, st
    {
      && batchMax > 0 && maxRetries > 0
      && Behaviour(Config(batchMax, maxRetries), states, trace, g)
      && g.cfg == Config(batchMax, maxRetries) && g.db == st.Db() && Extended(base, trace)
    }

    /** Non-positive settings fall back to the defaults.  The store may be that of any earlier
        run under these settings; starting is resuming after a crash. */
    constructor (st: Store, ch: ChainClient, batchMax: int, maxRetries: int,
                 ghost before: seq<State>, ghost done: seq<Action>, ghost last: State)
      requires Behaviour(Settings(batchMax, maxRetries), before, done, last) && st.Db() == last.db
      ensures Valid() && this.st == st && this.ch == ch && g.worker == RESTING
      ensures trace == done + [Other(Crash)] && g == OtherStep(last, Crash)
      ensures Config(this.batchMax, this.maxRetries) == Settings(batchMax, maxRetries)
      ensures this.batchMax == (if batchMax <= 0 then 10 else batchMax) && this.maxRetries == (if maxRetries <= 0 then 5 else maxRetries)
    {
      this.st, this.ch := st, ch;
      this.batchMax := if batchMax <= 0 then 10 else batchMax;
      this.maxRetries := if maxRetries <= 0 then 5 else maxRetries;
      g, states, trace := OtherStep(last, Crash), before + [OtherStep(last, Crash)], done + [Other(Crash)];
      base := done + [Other(Crash)];
      new;
      BehaviourGrows(Settings(batchMax, maxRetries), before, done, last, Other(Crash));
      BehaviourIsRun(Settings(batchMax, maxRetries), states, trace, g);
      RunKeepsCfg(Init(Settings(batchMax, maxRetries)), trace);
    }

    /** The store of a protocol run is synced. */
    lemma Sound()
      requires Valid()
      ensures Inv(g) && Synced(st.Db())
    {
      BehaviourIsRun(Config(batchMax, maxRetries), states, trace, g);
      InitInv(Config(batchMax, maxRetries));
      RunKeepsInv(Init(Config(batchMax, maxRetries)), trace);
    }

    /** A run of the worker begins here. */
    ghost method Begin()
      requires Valid()
      modifies this`base
      ensures Valid() && base == trace && Synced(st.Db())
    {
      base := trace;
      Sound();
    }

    /** Takes one protocol action alongside the code. */
    ghost method Act(a: WorkerAction, next: Protocol.Worker)
      requires WorkMove(g, a) == next
      requires Behaviour(g.cfg, states, trace, g) && Extended(base, trace)
      modifies this`states, this`trace, this`g
      ensures Behaviour(g.cfg, states, trace, g) && Extended(base, trace)
      ensures g.worker == next && g.db == Commits(old(g).db, WorkTxn(old(g), a)) && g.cfg == old(g).cfg
    {
      BehaviourGrows(g.cfg, states, trace, g, Work(a));
      assert Step(g, Work(a)) == WorkStep(g, a);
      g := WorkStep(g, a);
      states := states + [g];
      trace := trace + [Work(a)];
    }

    /** No index changed. */
    ghost predicate IndexesKept(db: DB)
      reads st
    {
      st.buckets == db.buckets && st.keys == db.keys && st.bySha == db.bySha
    }

    /** At most the record of `r` was written. */
    ghost predicate WroteOnly(db: DB, r: Root)
      reads st
    {
      OnlyAt(db.objects, st.objects, r) && IndexesKept(db)
    }

    /** A store call of the worker, taken together with the protocol action it is. */
    method SetStatus(root: Root, status: Status, tx: string, reason: FailReason, ghost a: WorkerAction, ghost next: Protocol.Worker)
      requires Valid() && root in st.objects
      requires WorkMove(g, a) == next && WorkTxn(g, a) == Some(TSetStatus(root, status, tx, reason))
      modifies this`states, this`trace, this`g, st
      ensures Valid() && g.worker == next
      ensures WroteOnly(old(st.Db()), root)
      ensures root in st.objects && st.objects[root] == WithStatus(old(st.objects)[root], status, tx, reason)
    {
      assert Synced(st.Db()) by { Sound(); }
      ObjectsAfter(st.Db(), TSetStatus(root, status, tx, reason));
      var _ := st.SetStatus(root, status, tx, reason);
      Act(a, next);
    }

    method SetSkipTx(root: Root, v: bool, ghost a: WorkerAction, ghost next: Protocol.Worker)
      requires Valid() && root in st.objects
      requires WorkMove(g, a) == next && WorkTxn(g, a) == Some(TSetSkipTx(root, v))
      modifies this`states, this`trace, this`g, st
      ensures Valid() && g.worker == next
      ensures WroteOnly(old(st.Db()), root)
      ensures root in st.objects && st.objects[root] == WithSkipTx(old(st.objects)[root], v)
    {
      assert Synced(st.Db()) by { Sound(); }
      ObjectsAfter(st.Db(), TSetSkipTx(root, v));
      var _ := st.SetSkipTx(root, v);
      Act(a, next);
    }

    method IncRetries(root: Root, ghost a: WorkerAction, ghost next: Protocol.Worker) returns (count: nat)
      requires Valid() && root in st.objects
      requires WorkMove(g, a) == next && WorkTxn(g, a) == Some(TIncRetries(root))
      modifies this`states, this`trace, this`g, st
      ensures Valid() && g.worker == next
      ensures WroteOnly(old(st.Db()), root)
      ensures root in st.objects && st.objects[root] == Counted(old(st.objects)[root]) && count == st.objects[root].retries
    {
      assert Synced(st.Db()) by { Sound(); }
      ObjectsAfter(st.Db(), TIncRetries(root));
      var r := st.IncRetries(root);
      Act(a, next);
      count := r.value;
    }

    /** Counts a failed attempt and puts the object back to pending, until the cap. */
    method CountRetry(root: Root, ghost w: Protocol.Worker)
      requires Valid() && root in st.objects
      requires g.worker == w.(pc := ReconInc) && w.pc.Recon? && w.n < |w.items| && w.items[w.n].root == root
      modifies this`states, this`trace, this`g, st
      ensures Valid() && g.worker == w.(n := w.n + 1)
      ensures root in st.objects && WroteOnly(old(st.Db()), root)
      ensures st.objects[root] == Reconciled(old(st.objects)[root], None, maxRetries)
      ensures var m := old(st.objects)[root];
                st.objects[root] == if m.retries >= maxRetries then
                                      m.(retries := m.retries + 1, status := Failed, failReason := RetriesExhausted)
                                    else m.(retries := m.retries + 1, status := Pending)
    {
      ghost var next := w.(n := w.n + 1);
      ghost var writing := w.(pc := ReconWrite(st.objects[root].retries + 1));
      var count := IncRetries(root, ReconStore(true), writing);
      if count > maxRetries {
        SetStatus(root, Failed, "", RetriesExhausted, ReconStore(true), next);
      } else {
        SetStatus(root, Pending, "", NoFailure, ReconStore(true), next);
      }
    }

    /** One member of a failed batch: finalized after all, or counted. */
    method ReconcileMember(root: Root) returns (ghost q: Query)
      requires Valid() && root in st.objects
      requires g.worker.pc.Recon? && g.worker.n < |g.worker.items| && g.worker.items[g.worker.n].root == root
      modifies this`states, this`trace, this`g, st, ch`asked
      ensures Valid() && g.worker == old(g).worker.(n := old(g).worker.n + 1)
      ensures root in st.objects && WroteOnly(old(st.Db()), root)
      ensures q.root == root && ch.asked == old(ch.asked) + [q]
      ensures st.objects[root] == Reconciled(old(st.objects)[root], q.ans, maxRetries)
      ensures var m, m', ans := old(st.objects)[root], st.objects[root], q.ans;
                && m'.skipTx == (m.skipTx || ans == Some(FileUploading))
                && (m'.status.Finalized? <==> ans == Some(FileFinalized))
                && (m'.status.Failed? <==> ans != Some(FileFinalized) && m.retries >= maxRetries)
                && (m'.status.Finalized? || m'.status.Failed? || m'.status.Pending?)
                && m'.retries == (if m'.status.Finalized? then m.retries else m.retries + 1)
                && m'.failReason == (if m'.status.Failed? then RetriesExhausted else m.failReason)
                && m'.txHash == m.txHash && m'.size == m.size && m'.lastAccess == m.lastAccess
    {
      ghost var w := g.worker;
      var ans := ch.FileStatus(root);
      q := Query(root, ans);
      ReconStep(g, w, ans);
      if ans == Some(FileFinalized) {
        Act(ReconAsk(ans), w.(pc := ReconClose));
        SetStatus(root, Finalized, "", NoFailure, ReconStore(true), w.(n := w.n + 1));
        return;
      }
      if ans == Some(FileUploading) {
        Act(ReconAsk(ans), w.(pc := ReconSkip));
        SetSkipTx(root, true, ReconStore(true), w.(pc := ReconInc));
      } else {
        Act(ReconAsk(ans), w.(pc := ReconInc));
      }
      CountRetry(root, w);
    }

    /** Classifies every member of a failed batch by the nodes' answer about it. */
    method ReconcileFailedBatch(items: seq<Item>) returns (ghost queries: seq<Query>)
      requires Valid() && g.worker.pc.Recon? && g.worker.n == 0 && Mirrors(items, g.worker.items)
      requires DistinctItems(items) && RootSet(items) <= st.objects.Keys
      modifies this`states, this`trace, this`g, st, ch`asked
      ensures Valid() && g.worker == old(g).worker.(n := |items|)
      ensures IndexesKept(old(st.Db())) && ch.asked == old(ch.asked) + queries
      ensures ReconciledUpTo(old(st.objects), st.objects, items, |items|, queries, maxRetries)
      ensures forall i :: 0 <= i < |items| ==>
                var m, m', ans := old(st.objects)[items[i].root], st.objects[items[i].root], queries[i].ans;
                && m'.skipTx == (m.skipTx || ans == Some(FileUploading))
                && (m'.status.Finalized? <==> ans == Some(FileFinalized))
                && (m'.status.Failed? <==> ans != Some(FileFinalized) && m.retries >= maxRetries)
                && (m'.status.Finalized? || m'.status.Failed? || m'.status.Pending?)
                && m'.retries == (if m'.status.Finalized? then m.retries else m.retries + 1)
                && m'.failReason == (if m'.status.Failed? then RetriesExhausted else m.failReason)
                && m'.txHash == m.txHash && m'.size == m.size && m'.lastAccess == m.lastAccess
    {
      queries := [];
      for n := 0 to |items|
        invariant Valid() && g.worker == old(g).worker.(n := n)
        invariant IndexesKept(old(st.Db())) && ch.asked == old(ch.asked) + queries
        invariant ReconciledUpTo(old(st.objects), st.objects, items, n, queries, maxRetries)
      {
        ghost var cur := st.objects;
        ghost var q := ReconcileMember(items[n].root);
        ReconciledNext(old(st.objects), cur, st.objects, items, n, queries, q, maxRetries);
        queries := queries + [q];
      }
      ReconciledFields(old(st.objects), st.objects, items, queries, maxRetries);
    }

    /** One iteration of the collecting loop: re-reads the object, asks the nodes about it unless
        it is fresh, and gives its batch item, unless it is set aside. */
    method VisitMember(root: Root) returns (it: Option<Item>, unreachable: bool, ans: Option<FileStatus>)
      requires Valid() && g.worker.pc.Collect? && g.worker.todo != [] && g.worker.todo[0] == root
      modifies this`states, this`trace, this`g, st, ch`asked
      ensures Valid() && WroteOnly(old(st.Db()), root)
      ensures root !in st.objects ==> ch.asked == old(ch.asked) && it.None? && !unreachable
      ensures root in st.objects && !old(st.objects)[root].status.Submitted? && old(st.objects)[root].retries == 0 ==>
                && ch.asked == old(ch.asked) && st.objects[root] == old(st.objects)[root]
                && it == Some(Item(root, old(st.objects)[root].skipTx)) && !unreachable
      ensures root in st.objects && (old(st.objects)[root].status.Submitted? || old(st.objects)[root].retries > 0) ==>
                && ch.asked == old(ch.asked) + [Query(root, ans)] && st.objects[root] == Answered(old(st.objects)[root], ans)
                && it == Member(root, ans) && unreachable == ans.None?
      ensures it.None? ==> g.worker == Dropped(old(g).worker)
      ensures it.Some? ==> it.value.root == root && g.worker == Collected(old(g).worker, Held(root, it.value.skipTx, ans))
    {
      ghost var w := g.worker;
      it, unreachable, ans := None, false, None;
      var cur := st.Get(root);
      if cur.None? {
        Act(Read(true), Dropped(w));
        return;
      }
      var m := cur.value;
      if m.status.Submitted? || m.retries > 0 {
        Act(Read(true), w.(pc := Ask));
        it, ans := AskAbout(root, w);
        unreachable := ans.None?;
        return;
      }
      Act(Read(true), Collected(w, Held(root, m.skipTx, None)));
      it := Some(Item(root, m.skipTx));
    }

    /** The nodes decide about an object with an earlier attempt. */
    method AskAbout(root: Root, ghost w: Protocol.Worker) returns (it: Option<Item>, ans: Option<FileStatus>)
      requires Valid() && root in st.objects
      requires w.pc.Collect? && w.todo != [] && w.todo[0] == root && g.worker == w.(pc := Ask)
      modifies this`states, this`trace, this`g, st, ch`asked
      ensures Valid() && WroteOnly(old(st.Db()), root)
      ensures ch.asked == old(ch.asked) + [Query(root, ans)] && it == Member(root, ans)
      ensures root in st.objects && st.objects[root] == Answered(old(st.objects)[root], ans)
      ensures var m, m' := old(st.objects)[root], st.objects[root];
                match ans
                case None => m' == m && it.None?
                case Some(FileFinalized) => m' == m.(status := Finalized) && it.None?
                case Some(FileUploading) => m' == m.(skipTx := true) && it == Some(Item(root, true))
                case Some(_) => m' == m.(skipTx := false) && it == Some(Item(root, false))
      ensures g.worker == if it.Some? then Collected(w, Held(root, it.value.skipTx, ans)) else Dropped(w)
    {
      it := None;
      ans := ch.FileStatus(root);
      if ans.None? {
        Act(AskNode(ans), Dropped(w));
        return;
      }
      Act(AskNode(ans), w.(pc := Told(ans.value)));
      if ans.value.FileFinalized? {
        SetStatus(root, Finalized, "", NoFailure, WriteTold(true), Dropped(w));
        return;
      }
      var skip := ans.value.FileUploading?;
      SetSkipTx(root, skip, WriteTold(true), Collected(w, Held(root, skip, ans)));
      it := Some(Item(root, skip));
    }

    /** The batch's roots are distinct and recorded. */
    lemma BatchKnown(batch: seq<ObjectMeta>)
      requires Valid() && g.worker.pc.Collect? && g.worker.todo == Roots(batch)
      ensures Distinct(Roots(batch)) && RootsBefore(batch, |batch|) <= st.objects.Keys
    {
      Sound();
      assert forall j :: 0 <= j < |batch| ==> Roots(batch)[j] in g.worker.todo;
    }

    /** One turn of the collecting loop, with what it adds to the items and to the error. */
    method CollectMember(batch: seq<ObjectMeta>, k: nat, items0: seq<Item>, first0: Option<Root>,
                         ghost deferred0: set<Root>, ghost pre: Records)
      returns (items: seq<Item>, first: Option<Root>, ghost deferred: set<Root>)
      requires Valid() && k < |batch| && Distinct(Roots(batch)) && batch[k].root in st.objects
      requires g.worker.pc.Collect? && g.worker.todo == Roots(batch)[k..] && Mirrors(items0, g.worker.items)
      requires CollectedUpTo(pre, st.objects, batch, k, items0, deferred0, first0)
      modifies this`states, this`trace, this`g, st, ch`asked
      ensures Valid() && g.worker == old(g).worker.(todo := Roots(batch)[k + 1..], items := g.worker.items)
      ensures Mirrors(items, g.worker.items) && |items| <= |items0| + 1 && IndexesKept(old(st.Db()))
      ensures CollectedUpTo(pre, st.objects, batch, k + 1, items, deferred, first)
    {
      items, first, deferred := items0, first0, deferred0;
      ghost var cur := st.objects;
      assert Roots(batch)[k..][0] == batch[k].root && Roots(batch)[k..][1..] == Roots(batch)[k + 1..];
      var it, unreachable, ans := VisitMember(batch[k].root);
      if it.Some? {
        MirrorsNext(items, old(g).worker.items, it.value, Held(it.value.root, it.value.skipTx, ans));
        items := items + [it.value];
      } else if unreachable {
        deferred := deferred + {batch[k].root};
        first := if first.None? then Some(batch[k].root) else first;
      }
      CollectStep(pre, cur, st.objects, batch, k, items0, deferred0, first0, it, unreachable);
    }

    /** The collecting loop of processBatch. */
    method CollectBatch(batch: seq<ObjectMeta>) returns (items: seq<Item>, first: Option<Root>, ghost deferred: set<Root>)
      requires Valid() && g.worker.pc.Collect? && g.worker.todo == Roots(batch) && g.worker.items == [] && g.worker.n == 0
      modifies this`states, this`trace, this`g, st, ch`asked
      ensures Valid() && g.worker == old(g).worker.(todo := [], items := g.worker.items) && Mirrors(items, g.worker.items)
      ensures IndexesKept(old(st.Db())) && |items| <= |batch|
      ensures CollectedUpTo(old(st.objects), st.objects, batch, |batch|, items, deferred, first)
    {
      items, first, deferred := [], None, {};
      BatchKnown(batch);
      for k := 0 to |batch|
        invariant Valid() && g.worker == old(g).worker.(todo := Roots(batch)[k..], items := g.worker.items)
        invariant Mirrors(items, g.worker.items) && |items| <= k && IndexesKept(old(st.Db()))
        invariant CollectedUpTo(old(st.objects), st.objects, batch, k, items, deferred, first)
      {
        assert batch[k].root in RootsBefore(batch, |batch|);
        items, first, deferred := CollectMember(batch, k, items, first, deferred, old(st.objects));
      }
    }

    /** The write-ahead loop: every member is marked submitted before the chain sees it. */
    method MarkBatch(items: seq<Item>, ghost pre: Records, ghost batch: set<Root>, ghost deferred: set<Root>)
      requires Valid() && g.worker.pc.Mark? && g.worker.n == 0 && Mirrors(items, g.worker.items)
      requires BatchAt(pre, st.objects, batch, items, 0, None, deferred, maxRetries)
      modifies this`states, this`trace, this`g, st
      ensures Valid() && g.worker == old(g).worker.(n := |items|) && IndexesKept(old(st.Db()))
      ensures BatchAt(pre, st.objects, batch, items, 0, None, deferred, maxRetries)
      ensures forall i :: 0 <= i < |items| ==> st.objects[items[i].root].status.Submitted?
    {
      for n := 0 to |items|
        invariant Valid() && g.worker == old(g).worker.(n := n) && IndexesKept(old(st.Db()))
        invariant BatchAt(pre, st.objects, batch, items, 0, None, deferred, maxRetries)
        invariant MarkedUpTo(st.objects, items, n)
      {
        ghost var cur := st.objects;
        MarkStep(g, old(g).worker, items, n);
        SetStatus(items[n].root, Submitted, "", NoFailure, MarkOne(true), old(g).worker.(n := n + 1));
        MarkNext(pre, cur, st.objects, batch, items, n, None, deferred, maxRetries);
      }
    }

    /** The success loop: every member is onchain, SkipTx members keeping their transaction. */
    method RecordBatch(items: seq<Item>, tx: string, ghost pre: Records, ghost batch: set<Root>, ghost deferred: set<Root>)
      requires Valid() && g.worker.pc == Record(tx) && g.worker.n == 0 && Mirrors(items, g.worker.items)
      requires BatchAt(pre, st.objects, batch, items, 0, Some(tx), deferred, maxRetries)
      modifies this`states, this`trace, this`g, st
      ensures Valid() && g.worker == old(g).worker.(n := |items|) && IndexesKept(old(st.Db()))
      ensures BatchAt(pre, st.objects, batch, items, |items|, Some(tx), deferred, maxRetries)
    {
      for n := 0 to |items|
        invariant Valid() && g.worker == old(g).worker.(n := n) && IndexesKept(old(st.Db()))
        invariant BatchAt(pre, st.objects, batch, items, n, Some(tx), deferred, maxRetries)
      {
        ghost var cur := st.objects;
        var th := if items[n].skipTx then "" else tx;
        RecordStep(g, old(g).worker, items, n);
        SetStatus(items[n].root, Onchain, th, NoFailure, RecordOne(true), old(g).worker.(n := n + 1));
        SettleNext(pre, cur, st.objects, batch, items, n, Some(tx), deferred, maxRetries);
      }
    }

    /** The failure branch of processBatch. */
    method FailBatch(items: seq<Item>, ghost pre: Records, ghost batch: set<Root>, ghost deferred: set<Root>)
      requires Valid() && g.worker.pc.Recon? && g.worker.n == 0 && Mirrors(items, g.worker.items)
      requires BatchAt(pre, st.objects, batch, items, 0, None, deferred, maxRetries)
      modifies this`states, this`trace, this`g, st, ch`asked
      ensures Valid() && g.worker == old(g).worker.(n := |items|)
      ensures IndexesKept(old(st.Db())) && BatchAt(pre, st.objects, batch, items, |items|, None, deferred, maxRetries)
    {
      assert RootSet(items) <= st.objects.Keys;
      ghost var queries := ReconcileFailedBatch(items);
      BatchReconciled(pre, old(st.objects), st.objects, batch, items, queries, deferred, maxRetries);
    }

    /** The second half of processBatch: write ahead, upload, then record or reconcile. */
    method SubmitBatch(items: seq<Item>, ghost pre: Records, ghost batch: set<Root>, ghost deferred: set<Root>)
      returns (tx: Option<string>)
      requires Valid() && g.worker.pc.Mark? && g.worker.n == 0 && Mirrors(items, g.worker.items)
      requires BatchAt(pre, st.objects, batch, items, 0, None, deferred, maxRetries)
      modifies this`states, this`trace, this`g, st, ch
      ensures Valid() && g.worker == Returned(old(g).worker) && IndexesKept(old(st.Db()))
      ensures ch.uploads == old(ch.uploads) + [Call(items, tx)]
      ensures BatchAt(pre, st.objects, batch, items, |items|, tx, deferred, maxRetries)
    {
      ghost var w := g.worker;
      MarkBatch(items, pre, batch, deferred);
      tx := ch.BatchUpload(items);
      if tx.None? {
        ghost var hit: set<Root> := *;
        UploadStep(g, hit, false, "");
        Act(Upload(hit, false, ""), w.(pc := Recon));
        FailBatch(items, pre, batch, deferred);
      } else {
        UploadStep(g, {}, true, tx.value);
        Act(Upload({}, true, tx.value), w.(pc := Record(tx.value)));
        RecordBatch(items, tx.value, pre, batch, deferred);
      }
      EndStep(g);
      Act(EndBatch, Returned(g.worker));
    }

    /** One batch of the snapshot. */
    method ProcessBatch(batch: seq<ObjectMeta>)
      returns (err: Option<FlushError>, ghost items: seq<Item>, ghost tx: Option<string>, ghost deferred: set<Root>)
      requires Valid() && g.worker == Protocol.Worker(Collect, Roots(batch), [], 0, g.worker.rest)
      modifies this`states, this`trace, this`g, st, ch
      ensures Valid() && g.worker == Protocol.Worker(Batches, [], [], 0, old(g).worker.rest)
      ensures IndexesKept(old(st.Db())) && |items| <= |batch|
      ensures ch.uploads == old(ch.uploads) + CallOf(items, tx)
      ensures BatchAt(old(st.objects), st.objects, RootsBefore(batch, |batch|), items, |items|, tx, deferred, maxRetries)
      ensures Explained(err, CallOf(items, tx), deferred)
      ensures err == Some(BatchFailed) <==> items != [] && tx.None?
    {
      ghost var pre, roots := st.objects, RootsBefore(batch, |batch|);
      var collected, first, aside := CollectBatch(batch);
      items, tx, deferred := collected, Some(""), aside;
      err := if first.Some? then Some(Deferred(first.value)) else None;
      AllVisited(pre, st.objects, roots, items, None, deferred, maxRetries);
      CloseStep(g);
      if |collected| == 0 {
        Act(CloseBatch, Returned(g.worker));
        return;
      }
      Act(CloseBatch, g.worker.(pc := Mark));
      var r := SubmitBatch(collected, pre, roots, deferred);
      tx := r;
      if r.None? {
        err := Some(BatchFailed);
      }
    }

    /** The protocol's next batch is the next slice of the snapshot. */
    ghost method BeginBatch(queue: seq<ObjectMeta>, start: nat, end: nat)
      requires Valid() && start < end <= |queue| && end == (if start + batchMax < |queue| then start + batchMax else |queue|)
      requires g.worker == Protocol.Worker(Batches, [], [], 0, Roots(queue)[start..])
      modifies this`states, this`trace, this`g
      ensures Valid() && g.worker == Protocol.Worker(Collect, Roots(queue[start..end]), [], 0, Roots(queue)[end..])
    {
      var rest := Roots(queue)[start..];
      assert rest[..end - start] == Roots(queue[start..end]) && rest[end - start..] == Roots(queue)[end..];
      Act(NextBatch, Protocol.Worker(Collect, rest[..end - start], [], 0, rest[end - start..]));
    }

    /** One turn of the loop of Flush: the next batch of the snapshot. */
    method DrainBatch(queue: seq<ObjectMeta>, start: nat, end: nat, err0: Option<FlushError>,
                      ghost pre: Records, ghost calls0: seq<Call>, ghost deferred0: set<Root>)
      returns (err: Option<FlushError>, ghost call: seq<Call>, ghost deferred: set<Root>)
      requires Valid() && Distinct(Roots(queue)) && start < |queue|
      requires end == if start + batchMax < |queue| then start + batchMax else |queue|
      requires g.worker == Protocol.Worker(Batches, [], [], 0, Roots(queue)[start..]) && Explained(err0, calls0, deferred0)
      requires FlushedUpTo(pre, st.objects, RootsBefore(queue, start), calls0, deferred0, batchMax, maxRetries)
      modifies this`states, this`trace, this`g, st, ch
      ensures Valid() && g.worker == Protocol.Worker(Batches, [], [], 0, Roots(queue)[end..])
      ensures IndexesKept(old(st.Db())) && |call| <= 1
      ensures ch.uploads == old(ch.uploads) + call && Explained(err, calls0 + call, deferred)
      ensures err0.Some? ==> err == err0
      ensures FlushedUpTo(pre, st.objects, RootsBefore(queue, end), calls0 + call, deferred, batchMax, maxRetries)
    {
      ghost var cur := st.objects;
      BeginBatch(queue, start, end);
      var batch := queue[start..end];
      var e, items, tx, d := ProcessBatch(batch);
      FlushStep(pre, cur, st.objects, queue, start, end, batch, calls0, items, tx, deferred0, d, err0, e, batchMax, maxRetries);
      call, deferred := CallOf(items, tx), deferred0 + d;
      err := if e.Some? && err0.None? then e else err0;
    }

    /** The loop of Flush, in batches of at most batchMax. */
    method DrainSnapshot(queue: seq<ObjectMeta>) returns (err: Option<FlushError>, ghost calls: seq<Call>, ghost deferred: set<Root>)
      requires Valid() && Distinct(Roots(queue))
      requires g.worker == Protocol.Worker(Batches, [], [], 0, Roots(queue))
      modifies this`states, this`trace, this`g, st, ch
      ensures Valid() && g.worker == Protocol.Worker(Batches, [], [], 0, [])
      ensures IndexesKept(old(st.Db())) && ch.uploads == old(ch.uploads) + calls && Explained(err, calls, deferred)
      ensures FlushedUpTo(old(st.objects), st.objects, RootsBefore(queue, |queue|), calls, deferred, batchMax, maxRetries)
      ensures |calls| * batchMax < |queue| + batchMax
    {
      err, calls, deferred := None, [], {};
      var start := 0;
      while start < |queue|
        invariant 0 <= start <= |queue|
        invariant Valid() && g.worker == Protocol.Worker(Batches, [], [], 0, Roots(queue)[start..])
        invariant IndexesKept(old(st.Db())) && ch.uploads == old(ch.uploads) + calls && Explained(err, calls, deferred)
        invariant FlushedUpTo(old(st.objects), st.objects, RootsBefore(queue, start), calls, deferred, batchMax, maxRetries)
        invariant FewCalls(|calls|, start, |queue|, batchMax)
      {
        var end := if start + batchMax < |queue| then start + batchMax else |queue|;
        ghost var call;
        err, call, deferred := DrainBatch(queue, start, end, err, old(st.objects), calls, deferred);
        assert old(ch.uploads) + calls + call == old(ch.uploads) + (calls + call);
        OneMoreCall(|calls|, |call|, start, |queue|, batchMax);
        calls := calls + call;
        start := end;
      }
    }

    /** Drains the upload queue once.  Every queued object goes to at most one upload and is
        settled by its outcome, or is set aside, in no more calls than full batches take; without
        an error the queue ends up empty. */
    method Flush() returns (err: Option<FlushError>, ghost calls: seq<Call>, ghost deferred: set<Root>)
      requires Valid() && g.worker == RESTING
      modifies this`states, this`trace, this`g, this`base, st, ch
      ensures Valid() && g.worker == RESTING && Extended(old(trace), trace) && IndexesKept(old(st.Db()))
      ensures ch.uploads == old(ch.uploads) + calls && Explained(err, calls, deferred)
      ensures FlushedUpTo(old(st.objects), st.objects, old(st.qUpload), calls, deferred, batchMax, maxRetries)
      ensures |calls| * batchMax < |old(st.qUpload)| + batchMax
      ensures err.None? ==> st.qUpload == {}
    {
      Begin();
      var queue := st.UploadQueue(0);
      SnapshotTaken(st.Db(), st.qUpload, queue);
      Act(StartFlush(Roots(queue)), Protocol.Worker(Batches, [], [], 0, Roots(queue)));
      err, calls, deferred := DrainSnapshot(queue);
      Act(NextBatch, RESTING);
      if err.None? {
        assert Synced(st.Db()) by { Sound(); }
        FlushEmpties(old(st.objects), st.Db(), old(st.qUpload), calls, batchMax, maxRetries);
      }
    }

    /** Asks about one onchain object and writes what the answer implies. */
    method PollMember(root: Root) returns (ans: Option<FileStatus>)
      requires Valid() && g.worker.pc.Poll? && g.worker.todo != [] && g.worker.todo[0] == root && root in st.objects
      modifies this`states, this`trace, this`g, st, ch`asked
      ensures Valid() && g.worker == Dropped(old(g).worker) && WroteOnly(old(st.Db()), root)
      ensures root in st.objects && st.objects[root] == Polled(old(st.objects)[root], ans)
      ensures ch.asked == old(ch.asked) + [Query(root, ans)]
    {
      ghost var w := g.worker;
      ans := ch.FileStatus(root);
      if ans.None? {
        Act(PollAsk(ans), Dropped(w));
        return;
      }
      Act(PollAsk(ans), w.(pc := PollTold(ans.value)));
      match ans.value {
        case FileFinalized => SetStatus(root, Finalized, "", NoFailure, PollStore(true), Dropped(w));
        case FilePruned => SetStatus(root, Failed, "", PrunedOnNodes, PollStore(true), Dropped(w));
        case _ => Act(PollStore(true), Dropped(w));
      }
    }

    /** One turn of the loop of PollFinality, and what it adds. */
    method PollTurn(queue: seq<ObjectMeta>, k: nat, err0: bool, ghost pre: Records,
                    ghost answers0: map<Root, Option<FileStatus>>, ghost queries0: seq<Query>, ghost log: seq<Query>)
      returns (err: bool, ghost answers: map<Root, Option<FileStatus>>, ghost queries: seq<Query>)
      requires Valid() && k < |queue| && g.worker == Protocol.Worker(Poll, Roots(queue)[k..], [], 0, [])
      requires queue[k].root in st.objects && Distinct(Roots(queue)) && ch.asked == log + queries0
      requires PolledSoFar(pre, st.objects, queue, k, answers0, queries0, err0)
      modifies this`states, this`trace, this`g, st, ch`asked
      ensures Valid() && g.worker == Protocol.Worker(Poll, Roots(queue)[k + 1..], [], 0, []) && IndexesKept(old(st.Db()))
      ensures ch.asked == log + queries
      ensures PolledSoFar(pre, st.objects, queue, k + 1, answers, queries, err)
    {
      assert Roots(queue)[k..][0] == queue[k].root && Roots(queue)[k..][1..] == Roots(queue)[k + 1..];
      var ans := PollMember(queue[k].root);
      ghost var q := Query(queue[k].root, ans);
      LogGrows(log, queries0, q);
      PollNext(pre, old(st.objects), st.objects, queue, k, answers0, queries0, err0, q);
      err, answers, queries := err0 || ans.None?, answers0[q.root := ans], queries0 + [q];
    }

    /** The loop of PollFinality. */
    method PollSnapshot(queue: seq<ObjectMeta>)
      returns (err: bool, ghost answers: map<Root, Option<FileStatus>>, ghost queries: seq<Query>)
      requires Valid() && g.worker == Protocol.Worker(Poll, Roots(queue), [], 0, [])
      requires Distinct(Roots(queue)) && RootsBefore(queue, |queue|) <= st.objects.Keys
      modifies this`states, this`trace, this`g, st, ch`asked
      ensures Valid() && g.worker == Protocol.Worker(Poll, [], [], 0, []) && IndexesKept(old(st.Db()))
      ensures ch.asked == old(ch.asked) + queries
      ensures PolledSoFar(old(st.objects), st.objects, queue, |queue|, answers, queries, err)
    {
      err, answers, queries := false, map[], [];
      assert Roots(queue)[0..] == Roots(queue) && RootsBefore(queue, 0) == {};
      for k := 0 to |queue|
        invariant Valid() && g.worker == Protocol.Worker(Poll, Roots(queue)[k..], [], 0, [])
        invariant IndexesKept(old(st.Db())) && ch.asked == old(ch.asked) + queries
        invariant PolledSoFar(old(st.objects), st.objects, queue, k, answers, queries, err)
      {
        assert queue[k].root in RootsBefore(queue, |queue|);
        err, answers, queries := PollTurn(queue, k, err, old(st.objects), answers, queries, old(ch.asked));
      }
    }

    /** The protocol's poll starts from the listing of the queue. */
    ghost method BeginPoll(queue: seq<ObjectMeta>)
      requires Valid() && g.worker == RESTING && Synced(st.Db()) && Distinct(Roots(queue))
      requires forall m :: m in queue ==> m.root in st.qFinalize && m == st.objects[m.root]
      requires forall r :: r in st.qFinalize ==> st.objects[r] in queue
      modifies this`states, this`trace, this`g
      ensures Valid() && g.worker == Protocol.Worker(Poll, Roots(queue), [], 0, [])
      ensures RootsBefore(queue, |queue|) == st.qFinalize <= st.objects.Keys
    {
      SnapshotTaken(st.Db(), st.qFinalize, queue);
      Act(StartPoll(Roots(queue)), Protocol.Worker(Poll, Roots(queue), [], 0, []));
    }

    /** The poll's end writes nothing. */
    ghost method FinishPoll()
      requires Valid() && g.worker == Protocol.Worker(Poll, [], [], 0, [])
      modifies this`states, this`trace, this`g
      ensures Valid() && g.worker == RESTING
    {
      EndPollStep(g);
      Act(EndPoll, RESTING);
    }

    /** Advances the onchain objects, asking once about each: finalized ones are closed, pruned
        ones fail as such, the others stay as they are; an error means that some object's status
        could not be learned. */
    method PollFinality()
      returns (err: bool, ghost answers: map<Root, Option<FileStatus>>, ghost queries: seq<Query>)
      requires Valid() && g.worker == RESTING
      modifies this`states, this`trace, this`g, this`base, st, ch`asked
      ensures Valid() && g.worker == RESTING && Extended(old(trace), trace) && IndexesKept(old(st.Db()))
      ensures answers.Keys == old(st.qFinalize) && PolledUpTo(old(st.objects), st.objects, answers, err)
      ensures ch.asked == old(ch.asked) + queries && AskedOnce(queries, answers)
      ensures forall r :: r in answers ==>
                var m, m' := old(st.objects)[r], st.objects[r];
                && (m'.status.Finalized? <==> answers[r] == Some(FileFinalized))
                && (m'.status.Failed? <==> answers[r] == Some(FilePruned))
                && m' == if m'.status.Finalized? then m.(status := Finalized)
                         else if m'.status.Failed? then m.(status := Failed, failReason := PrunedOnNodes)
                         else m
    {
      Begin();
      var queue := st.FinalizeQueue(0);
      BeginPoll(queue);
      err, answers, queries := PollSnapshot(queue);
      FinishPoll();
    }

    /** The worker's loop for a number of ticks, no one else at the store: a flush, then a poll.
        An object stays queued only by being deferred or by using up its retries. */
    method Run(ticks: nat) returns (ghost waits: seq<set<Root>>)
      requires Valid() && g.worker == RESTING
      modifies this`states, this`trace, this`g, this`base, st, ch
      ensures Valid() && g.worker == RESTING && Extended(old(trace), trace) && |waits| == ticks
      ensures StillWaiting(old(st.objects), old(st.qUpload), st.objects, st.qUpload, waits, maxRetries)
    {
      waits := [];
      assert Synced(st.Db()) by { Sound(); }
      for t := 0 to ticks
        invariant Valid() && g.worker == RESTING && Extended(old(trace), trace) && |waits| == t && Synced(st.Db())
        invariant StillWaiting(old(st.objects), old(st.qUpload), st.objects, st.qUpload, waits, maxRetries)
      {
        ghost var d := Tick(old(st.objects), old(st.qUpload), waits);
        waits := waits + [d];
      }
    }

    method Tick(ghost pre: Records, ghost queued: set<Root>, ghost waits: seq<set<Root>>) returns (ghost d: set<Root>)
      requires Valid() && g.worker == RESTING
      requires StillWaiting(pre, queued, st.objects, st.qUpload, waits, maxRetries)
      modifies this`states, this`trace, this`g, this`base, st, ch
      ensures Valid() && g.worker == RESTING && Extended(old(trace), trace) && Synced(st.Db())
      ensures StillWaiting(pre, queued, st.objects, st.qUpload, waits + [d], maxRetries)
    {
      assert Synced(st.Db()) by { Sound(); }
      ghost var db := st.Db();
      var _, calls, deferred := Flush();
      assert Synced(st.Db()) by { Sound(); }
      ghost var db1 := st.Db();
      var err, answers, _ := PollFinality();
      assert Synced(st.Db()) by { Sound(); }
      d := deferred;
      TickKeepsWaiting(pre, queued, db, db1, st.Db(), waits, calls, d, answers, err, batchMax, maxRetries);
    }

    /** On a run whose answers were truthful and whose re-arms kept out of the window, what the
        worker has done landed at most one entry per root and epoch. */
    lemma LandsOnce(r: Root)
      requires Valid() && FairRun(Init(Config(batchMax, maxRetries)), trace)
      ensures Count(g.landed, r) <= 1
    {
      BehaviourIsRun(Config(batchMax, maxRetries), states, trace, g);
      NeverBlindlyResubmitted(Config(batchMax, maxRetries), trace, r, 0);
    }

    /** A step of the environment: a Put, a read, an eviction, a prune, a crash; the store shows
        its transaction.  The worker may find any number of them between two of its runs. */
    ghost method Observe(a: Action)
      requires Behaviour(g.cfg, states, trace, g) && g.cfg == Config(batchMax, maxRetries)
      requires batchMax > 0 && maxRetries > 0 && !a.Work? && st.Db() == Step(g, a).db
      modifies this`states, this`trace, this`g, this`base
      ensures Valid() && g == Step(old(g), a) && trace == old(trace) + [a]
    {
      BehaviourGrows(g.cfg, states, trace, g, a);
      g := Step(g, a);
      states := states + [g];
      trace := trace + [a];
      base := trace;
    }
  }
}
