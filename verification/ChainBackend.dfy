/** The 0G backend as the worker sees it: status aggregation over storage nodes and the
    success contract of a batch upload.  SDK calls are replaced by the replies they give. */
module ChainBackend {
  import opened Outcomes
  import opened Content

  datatype FileStatus = FileUnknown | FileUploading | FileFinalized | FilePruned

  /** One node's answer to getFileInfo. */
  datatype NodeReply = Unreachable | Unseen | Info(finalized: bool, pruned: bool)

  /** One member of an upload batch. */
  datatype Item = Item(root: Root, skipTx: bool)

  /** The SDK's transaction hash; all zeros when it sent no transaction. */
  datatype Hash = ZeroHash | TxHash(digits: string)

  /** What the SDK returns from its batch upload. */
  datatype SdkReply = SdkErr | SdkOk(tx: Hash, roots: seq<Root>)

  datatype UploadError = NoCacheFile | SdkFailed | RootCount | RootMismatch(index: nat)

  function Rank(s: FileStatus): nat {
    match s
    case FileUnknown => 0
    case FilePruned => 1
    case FileUploading => 2
    case FileFinalized => 3
  }

  function Verdict(n: NodeReply): FileStatus {
    match n
    case Unreachable | Unseen => FileUnknown
    case Info(finalized, pruned) =>
      if pruned then FilePruned else if finalized then FileFinalized else FileUploading
  }

  /** `r` is the highest verdict among the reachable nodes; None iff no node is reachable. */
  ghost predicate Aggregates(replies: seq<NodeReply>, r: Option<FileStatus>) {
    match r
    case None => forall n :: n in replies ==> n.Unreachable?
    case Some(s) =>
      && (exists n :: n in replies && !n.Unreachable? && Verdict(n) == s)
      && (forall n :: n in replies && !n.Unreachable? ==> Rank(Verdict(n)) <= Rank(s))
  }

  /** Asks the nodes in order and stops at the first that reports finalized. */
  method FileStatusOf(replies: seq<NodeReply>) returns (r: Option<FileStatus>)
    ensures Aggregates(replies, r)
    ensures r.None? <==> forall n :: n in replies ==> n.Unreachable?
    ensures r == Some(FileFinalized) <==> Info(true, false) in replies
    ensures r == Some(FileUploading) <==> Info(true, false) !in replies && Info(false, false) in replies
    ensures r == Some(FilePruned) <==>
              && Info(true, false) !in replies && Info(false, false) !in replies
              && (Info(true, true) in replies || Info(false, true) in replies)
  {
    var sawUploading, sawPruned := false, false;
    var reachable := 0;
    for i := 0 to |replies|
      invariant reachable >= 0
      invariant reachable == 0 <==> forall j :: 0 <= j < i ==> replies[j].Unreachable?
      invariant sawUploading <==> exists j :: 0 <= j < i && Verdict(replies[j]) == FileUploading
      invariant sawPruned <==> exists j :: 0 <= j < i && Verdict(replies[j]) == FilePruned
      invariant forall j :: 0 <= j < i ==> Verdict(replies[j]) != FileFinalized
    {
      match replies[i] {
        case Unreachable => continue;
        case Unseen => reachable := reachable + 1;
        case Info(finalized, pruned) =>
          reachable := reachable + 1;
          if pruned {
            sawPruned := true;
          } else if finalized {
            assert replies[i] in replies;
            return Some(FileFinalized);
          } else {
            sawUploading := true;
          }
      }
    }
    if reachable == 0 {
      return None;
    }
    if sawUploading {
      return Some(FileUploading);
    }
    if sawPruned {
      return Some(FilePruned);
    }
    return Some(FileUnknown);
  }

  /** The aggregate is a function of which replies came, not of node order or repetition. */
  lemma OrderIndependent(xs: seq<NodeReply>, ys: seq<NodeReply>, a: Option<FileStatus>, b: Option<FileStatus>)
    requires Aggregates(xs, a) && Aggregates(ys, b)
    requires forall n :: n in xs <==> n in ys
    ensures a == b
  {
    if a.Some? && b.Some? {
      var n :| n in xs && !n.Unreachable? && Verdict(n) == a.value;
      var m :| m in ys && !m.Unreachable? && Verdict(m) == b.value;
      assert Rank(a.value) <= Rank(b.value) && Rank(b.value) <= Rank(a.value);
    }
  }

  /** Hearing from one more reachable node never lowers the answer. */
  lemma MoreNodesNeverLower(xs: seq<NodeReply>, n: NodeReply, ys: seq<NodeReply>, a: Option<FileStatus>, b: Option<FileStatus>)
    requires Aggregates(xs + ys, a) && Aggregates(xs + [n] + ys, b)
    requires !n.Unreachable?
    ensures b.Some? && (a.Some? ==> Rank(a.value) <= Rank(b.value))
    ensures Rank(Verdict(n)) <= Rank(b.value)
    ensures n == Info(true, false) || a == Some(FileFinalized) ==> b == Some(FileFinalized)
    ensures n == Info(false, false) || a == Some(FileUploading) ==> b.value.FileUploading? || b.value.FileFinalized?
    ensures (n.Info? && n.pruned) || a == Some(FilePruned) ==> !b.value.FileUnknown?
  {
    assert n in xs + [n] + ys;
    if a.Some? {
      var m :| m in xs + ys && !m.Unreachable? && Verdict(m) == a.value;
      assert m in xs + [n] + ys;
    }
  }

  /** Uploads a batch from the cache directory and checks the returned roots pairwise.
      Success means every member had a cache file and came back under its own root; if the
      SDK's roots are the roots of the bytes it stored, those bytes are the addressed ones.
      The hash returned is empty exactly when no transaction was sent, so that the caller keeps
      the recorded ones. */
  method BatchUpload(items: seq<Item>, files: map<Root, Bytes>, reply: SdkReply)
    returns (r: Result<string, UploadError>)
    ensures r.Ok? <==>
              && (forall it :: it in items ==> it.root in files)
              && reply.SdkOk? && |reply.roots| == |items|
              && (forall i :: 0 <= i < |items| ==> reply.roots[i] == items[i].root)
    ensures r.Ok? ==> (r.value == "" <==> reply.tx.ZeroHash?)
    ensures r.Ok? && reply.tx.TxHash? ==> r.value == "0x" + reply.tx.digits
    ensures r.Err? && r.error.NoCacheFile? <==> exists it :: it in items && it.root !in files
    ensures r.Err? && r.error.SdkFailed? ==> reply.SdkErr?
    ensures r.Err? && r.error.RootCount? ==> reply.SdkOk? && |reply.roots| != |items|
    ensures r.Err? && r.error.RootMismatch? ==>
              && reply.SdkOk? && r.error.index < |items| == |reply.roots|
              && reply.roots[r.error.index] != items[r.error.index].root
              && (forall j :: 0 <= j < r.error.index ==> reply.roots[j] == items[j].root)
    ensures r.Ok? && (forall i :: 0 <= i < |items| ==> reply.roots[i] == Root(files[items[i].root])) ==>
              forall it :: it in items ==> files[it.root] == it.root.content
  {
    for i := 0 to |items|
      invariant forall j :: 0 <= j < i ==> items[j].root in files
    {
      if items[i].root !in files {
        return Err(NoCacheFile);
      }
    }
    match reply {
      case SdkErr => return Err(SdkFailed);
      case SdkOk(tx, roots) =>
        if |roots| != |items| {
          return Err(RootCount);
        }
        for i := 0 to |roots|
          invariant forall j :: 0 <= j < i ==> roots[j] == items[j].root
        {
          if roots[i] != items[i].root {
            return Err(RootMismatch(i));
          }
        }
        assert forall it :: it in items ==> exists i :: 0 <= i < |items| && items[i] == it;
        return Ok(if tx.ZeroHash? then "" else "0x" + tx.digits);
    }
  }
}
