/** The sequential Put of the object service is the protocol's Put run without interference, so
    what module Durability proves of every interleaving speaks about this Put. */
module PutRuns {
  import opened Outcomes
  import opened Content
  import opened MetaStore
  import opened Protocol
  import ObjectService

  /** All steps of one Put in program order; those not on its path change nothing. */
  function Script(id: nat, now: int): seq<Action> {
    [PutStep(id, Lookup), PutStep(id, Decide), PutStep(id, Salvage), PutStep(id, Rearm),
     PutStep(id, Rename), PutStep(id, CreateRecord(now))]
  }


  lemma RunScript(s: State, id: nat, now: int)
    ensures Run(s, Script(id, now)) ==
      Step(Step(Step(Step(Step(Step(s, PutStep(id, Lookup)), PutStep(id, Decide)), PutStep(id, Salvage)),
        PutStep(id, Rearm)), PutStep(id, Rename)), PutStep(id, CreateRecord(now)))
  {
    var a := Script(id, now);
    assert a[..0] == [] && a[..6] == a;
    forall k | 0 <= k < 6
      ensures Run(s, a[..k + 1]) == Step(Run(s, a[..k]), a[k])
    {
      assert a[..k + 1] == a[..k] + [a[k]];
      RunSnoc(s, a[..k], a[k]);
    }
    assert Run(s, a[..1]) == Step(s, a[0]);
    assert Run(s, a[..2]) == Step(Run(s, a[..1]), a[1]);
    assert Run(s, a[..3]) == Step(Run(s, a[..2]), a[2]);
    assert Run(s, a[..4]) == Step(Run(s, a[..3]), a[3]);
    assert Run(s, a[..5]) == Step(Run(s, a[..4]), a[4]);
    assert Run(s, a[..6]) == Step(Run(s, a[..5]), a[5]);
  }

  /** What a Put step does to the parts a Put concerns. */
  ghost predicate Did(s: State, s': State, id: nat, db: DB, cache: map<Root, Bytes>, pc: Option<PutPC>, r: Option<PutResult>) {
    && s'.db == db && s'.cache == cache
    && (id in s'.puts <==> pc.Some?)
    && (pc.Some? ==> id in s.puts && s'.puts[id] == s.puts[id].(pc := pc.value))
    && (if r.Some? then id in s'.results && s'.results[id] == r.value else s'.results == s.results)
  }

  /** Steps of a Put that is over change nothing. */
  lemma Over(s: State, id: nat, a: PutAction)
    requires id !in s.puts
    ensures Step(s, PutStep(id, a)) == s
  {
  }

  lemma Idles(s: State, id: nat, a: PutAction)
    requires id in s.puts && PutNext(s, s.puts[id], a).Stay? && PutTxn(s.db, s.puts[id], a).None? && Placed(s.puts[id], a).None?
    ensures Step(s, PutStep(id, a)) == s
  {
    var s' := PutAct(s, id, a);
    assert s'.attempted == s.attempted && s'.landed == s.landed && s'.lost == s.lost;
  }

  lemma Moves(s: State, id: nat, a: PutAction)
    requires id in s.puts
    ensures var p := s.puts[id]; var move := PutNext(s, p, a);
      Did(s, Step(s, PutStep(id, a)), id, Commits(s.db, PutTxn(s.db, p, a)),
          if Placed(p, a).Some? then s.cache[Placed(p, a).value := p.content] else s.cache,
          match move case Stay => Some(p.pc) case To(pc) => Some(pc) case _ => None,
          if move.Reply? then Some(PutResult(p.content, move.root, move.dedup)) else None)
  {
  }

  lemma FreshTail(s: State, id: nat, now: int, content: Bytes)
    requires id in s.puts && s.puts[id] == Put(content, Fresh) && Root(content) !in s.db.objects
    ensures var s' := Step(Step(s, PutStep(id, Rename)), PutStep(id, CreateRecord(now)));
      && s'.db == Apply(s.db, TCreate(NewRecord(content), now)) && s'.cache == s.cache[Root(content) := content]
      && id in s'.results && s'.results[id] == PutResult(content, Root(content), false)
  {
    Moves(s, id, Rename);
    Moves(Step(s, PutStep(id, Rename)), id, CreateRecord(now));
  }

  /** Looking up new content leads nowhere else. */
  lemma FreshStart(s: State, id: nat, now: int, content: Bytes) returns (s1: State)
    requires id in s.puts && s.puts[id] == Put(content, Spooled) && Indexed(s.db) && Root(content) !in s.db.objects
    ensures Run(s, Script(id, now)) == Step(Step(s1, PutStep(id, Rename)), PutStep(id, CreateRecord(now)))
    ensures s1.db == s.db && s1.cache == s.cache && id in s1.puts && s1.puts[id] == Put(content, Fresh)
  {
    ShaIndexExact(s.db, content);
    RunScript(s, id, now);
    s1 := Step(s, PutStep(id, Lookup));
    Moves(s, id, Lookup);
    FreshIdles(s1, id);
  }

  lemma FreshIdles(s: State, id: nat)
    requires id in s.puts && s.puts[id].pc.Fresh?
    ensures Step(s, PutStep(id, Decide)) == s && Step(s, PutStep(id, Salvage)) == s && Step(s, PutStep(id, Rearm)) == s
  {
    Idles(s, id, Decide);
    Idles(s, id, Salvage);
    Idles(s, id, Rearm);
  }

  /** New content: renamed into place, then recorded. */
  lemma FreshRun(s: State, id: nat, now: int, content: Bytes)
    requires id in s.puts && s.puts[id] == Put(content, Spooled) && Indexed(s.db) && Root(content) !in s.db.objects
    ensures var s' := Run(s, Script(id, now));
      && s'.db == Apply(s.db, TCreate(NewRecord(content), now)) && s'.cache == s.cache[Root(content) := content]
      && id in s'.results && s'.results[id] == PutResult(content, Root(content), false)
  {
    var s1 := FreshStart(s, id, now, content);
    FreshTail(s1, id, now, content);
  }

  /** Known content that needs nothing. */
  lemma DedupRun(s: State, id: nat, now: int, content: Bytes)
    requires id in s.puts && s.puts[id] == Put(content, Spooled) && Indexed(s.db) && Synced(s.db) && Root(content) in s.db.objects
    requires var st := s.db.objects[Root(content)].status; !st.Failed? && (st.Finalized? || Root(content) in s.cache)
    ensures var s' := Run(s, Script(id, now));
      && s'.db == s.db && s'.cache == s.cache
      && id in s'.results && s'.results[id] == PutResult(content, Root(content), true)
  {
    ShaIndexExact(s.db, content);
    RunScript(s, id, now);
    var s1 := Step(s, PutStep(id, Lookup));
    Moves(s, id, Lookup);
    var s2 := Step(s1, PutStep(id, Decide));
    Moves(s1, id, Decide);
    Over(s2, id, Salvage);
    Over(s2, id, Rearm);
    Over(s2, id, Rename);
    Over(s2, id, CreateRecord(now));
  }

  /** A Put that has decided to re-arm goes on to do so. */
  lemma RearmTail(s: State, id: nat, now: int, m: ObjectMeta)
    requires id in s.puts && (s.puts[id].pc == Salvaging(m) || s.puts[id].pc == Rearming(m))
    ensures var s' := Step(Step(Step(Step(s, PutStep(id, Salvage)), PutStep(id, Rearm)), PutStep(id, Rename)), PutStep(id, CreateRecord(now)));
      && s'.db == Apply(s.db, TReenqueue(m.root))
      && s'.cache == (if s.puts[id].pc.Rearming? then s.cache else s.cache[m.root := s.puts[id].content])
      && id in s'.results && s'.results[id] == PutResult(s.puts[id].content, m.root, true)
  {
    var s3 := Step(s, PutStep(id, Salvage));
    if s.puts[id].pc.Rearming? {
      Idles(s, id, Salvage);
    } else {
      Moves(s, id, Salvage);
    }
    var s4 := Step(s3, PutStep(id, Rearm));
    Moves(s3, id, Rearm);
    Over(s4, id, Rename);
    Over(s4, id, CreateRecord(now));
  }

  /** Known content that failed, or whose only copy is missing: salvaged if need be, re-armed. */
  lemma RearmRun(s: State, id: nat, now: int, content: Bytes)
    requires id in s.puts && s.puts[id] == Put(content, Spooled) && Indexed(s.db) && Synced(s.db) && Root(content) in s.db.objects
    requires var st := s.db.objects[Root(content)].status; st.Failed? || (!st.Finalized? && Root(content) !in s.cache)
    ensures var s' := Run(s, Script(id, now));
      && s'.db == Apply(s.db, TReenqueue(Root(content)))
      && s'.cache == (if Root(content) in s.cache then s.cache else s.cache[Root(content) := content])
      && id in s'.results && s'.results[id] == PutResult(content, Root(content), true)
  {
    ShaIndexExact(s.db, content);
    RunScript(s, id, now);
    var s1 := Step(s, PutStep(id, Lookup));
    Moves(s, id, Lookup);
    var s2 := Step(s1, PutStep(id, Decide));
    Moves(s1, id, Decide);
    RearmTail(s2, id, now, s.db.objects[Root(content)]);
  }

  /** A Put keeps its spooled bytes for new content, and for known content whose only copy is missing. */
  predicate Spools(db: DB, content: Bytes, cached: bool) {
    Root(content) !in db.objects || (!db.objects[Root(content)].status.Finalized? && !cached)
  }

  /** Undisturbed, the protocol's Put writes to store and cache what the service's Put writes, and answers alike. */
  lemma PutIsProtocolRun(s: State, id: nat, now: int, content: Bytes)
    requires id in s.puts && s.puts[id] == Put(content, Spooled) && Indexed(s.db) && Synced(s.db)
    ensures var s' := Run(s, Script(id, now));
      && s'.db == ObjectService.Stored(s.db, content, Root(content) in s.cache, now)
      && s'.cache == (if Spools(s.db, content, Root(content) in s.cache) then s.cache[Root(content) := content] else s.cache)
      && id in s'.results && s'.results[id] == PutResult(content, Root(content), Root(content) in s.db.objects)
  {
    var root := Root(content);
    if root !in s.db.objects {
      FreshRun(s, id, now, content);
    } else {
      var st := s.db.objects[root].status;
      if st.Failed? || (!st.Finalized? && root !in s.cache) {
        RearmRun(s, id, now, content);
      } else {
        DedupRun(s, id, now, content);
      }
    }
  }
}
