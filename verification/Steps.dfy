/** Every step of every request keeps the invariant. */
module Steps {
  import opened Words
  import opened Tables
  import opened Invariants
  import opened CacheKeys
  import opened Interleaving
  import opened Locking

  // ----- steps of the request alone

  lemma SubmitStep(w: World, i: Thread, req: Request)
    requires Coherent(w) && i in w.threads && w.threads[i].Idle?
    ensures Coherent(Set(w, i, Start(req)))
  {
    Quiet(w, i, Start(req));
  }

  lemma LockSharedStep(w: World, i: Thread)
    requires Coherent(w) && i in w.threads && w.threads[i].WaitShared? && NoOwner(w.threads, w.threads[i].req.table)
    ensures Coherent(Set(w, i, Reading(w.threads[i].req, Locked)))
  {
    assert PcOk(w.threads[i]);
    Quiet(w, i, Reading(w.threads[i].req, Locked));
  }

  lemma AnnounceStep(w: World, i: Thread)
    requires Coherent(w) && i in w.threads && w.threads[i].WaitExclusive? && !w.threads[i].announced
    requires NoOwner(w.threads, Target(w.threads[i].req, w.threads[i].held))
    ensures Coherent(Set(w, i, w.threads[i].(announced := true)))
  {
    assert PcOk(w.threads[i]);
    Quiet(w, i, w.threads[i].(announced := true));
  }

  lemma LockExclusiveStep(w: World, i: Thread)
    requires Coherent(w) && i in w.threads && w.threads[i].WaitExclusive? && w.threads[i].announced
    requires NoReader(w.threads, Target(w.threads[i].req, w.threads[i].held))
    ensures Coherent(Set(w, i, Acquired(w.threads[i])))
  {
    assert PcOk(w.threads[i]);
    Quiet(w, i, Acquired(w.threads[i]));
  }

  lemma LookStep(w: World, i: Thread, stage: ReadStage)
    requires Coherent(w) && i in w.threads && w.threads[i].Reading?
    requires PcOk(Reading(w.threads[i].req, stage)) && DataOk(w.db, Reading(w.threads[i].req, stage))
    ensures Coherent(Set(w, i, Reading(w.threads[i].req, stage)))
  {
    Quiet(w, i, Reading(w.threads[i].req, stage));
  }

  lemma ReleaseSharedStep(w: World, i: Thread)
    requires Coherent(w) && i in w.threads && w.threads[i].Reading?
    requires w.threads[i].rstage.Served? || w.threads[i].rstage.Noted?
    ensures Coherent(Set(w, i, AfterRead(w.threads[i])))
  {
    assert PcOk(w.threads[i]);
    Quiet(w, i, AfterRead(w.threads[i]));
  }

  /** A commit that fails, before or after its draws, owes nothing. */
  lemma GiveUpStep(w: World, i: Thread)
    requires Coherent(w) && i in w.threads && w.threads[i].Writing? && !w.threads[i].wstage.Done?
    ensures Coherent(Set(w, i, w.threads[i].(wstage := Done([]))))
  {
    assert PcOk(w.threads[i]);
    Quiet(w, i, w.threads[i].(wstage := Done([])));
  }

  lemma ReleaseExclusiveStep(w: World, i: Thread, name: string)
    requires Coherent(w) && i in w.threads && w.threads[i].Writing? && w.threads[i].wstage.Done? && name in w.threads[i].held
    requires w.threads[i].req.CommitSnapshot? ==> w.threads[i].wstage.owed == []
    ensures Coherent(Set(w, i, Released(w.threads[i], name)))
  {
    assert PcOk(w.threads[i]);
    Quiet(w, i, Released(w.threads[i], name));
  }

  // ----- the cache

  lemma ProbeStep(cfg: Config, w: World, i: Thread)
    requires Coherent(w) && i in w.threads && w.threads[i].Reading? && w.threads[i].req.Read? && w.threads[i].rstage.Resolved?
    ensures Coherent(DoProbe(cfg, w, i))
  {
    var pc := w.threads[i];
    var key := Key(pc.req.table, pc.rstage.at);
    assert PcOk(pc) && DataOk(w.db, pc);
    var w' := DoProbe(cfg, w, i);
    Quiet(w, i, w'.threads[i]);
    if w'.cache != w.cache {
      HitKeepsCache(w.db, w.cache, w'.threads, key);
    }
  }

  lemma StoreStep(cfg: Config, w: World, i: Thread)
    requires Coherent(w) && i in w.threads && w.threads[i].Reading? && w.threads[i].req.Read? && w.threads[i].rstage.Queried?
    ensures Coherent(DoStore(cfg, w, i))
  {
    var pc := w.threads[i];
    assert PcOk(pc) && DataOk(w.db, pc);
    var w' := DoStore(cfg, w, i);
    Quiet(w, i, w'.threads[i]);
    if pc.rstage.rows.Some? && cfg.caching {
      PutKeepsCache(w.db, w.cache, w'.threads, cfg.capacity, pc.req.table, pc.rstage.at, pc.rstage.rows.value);
    }
  }

  lemma InvalidateStep(w: World, i: Thread, name: string, pc': Pc)
    requires Coherent(w) && i in w.threads && PcOk(pc') && DataOk(w.db, pc')
    requires Owns(pc') == Owns(w.threads[i]) && HoldsX(pc') == HoldsX(w.threads[i]) && HoldsS(pc') == HoldsS(w.threads[i])
    requires DrawnSid(pc') == {} && DrawnIds(pc') == {}
    requires forall t :: t != name && MayStale(w.threads[i], t) ==> MayStale(pc', t)
    ensures Coherent(Cleaned(w, i, name, pc'))
  {
    SwapLocks(w.threads, i, pc');
    QuietDraws(w.threads, i, pc');
    forall t | t != name && Stale(w.threads, t)
      ensures Stale(w.threads[i := pc'], t)
    {
      var j :| j in w.threads && MayStale(w.threads[j], t);
      assert MayStale(w.threads[i := pc'][j], t);
    }
    InvalidateCleans(w.db, w.cache, w.threads, w.threads[i := pc'], name);
  }

  lemma SwapLocks(ts: Threads, i: Thread, pc': Pc)
    requires LocksOk(ts) && i in ts
    requires Owns(pc') == Owns(ts[i]) && HoldsX(pc') == HoldsX(ts[i]) && HoldsS(pc') == HoldsS(ts[i])
    ensures LocksOk(ts[i := pc'])
  {
  }

  // ----- the database

  /** What a query, a pointer look-up or a draw of another request can see of a name. */
  ghost predicate SameName(rel: Relations, rel': Relations, n: string) {
    && (n in rel.tables <==> n in rel'.tables)
    && (n in rel.tables ==> rel'.tables[n] == rel.tables[n] && SameRows(rel, rel', rel.tables[n].id))
  }

  ghost predicate SameRows(rel: Relations, rel': Relations, id: int) {
    && RowsOf(rel'.partitions, id) == RowsOf(rel.partitions, id)
    && IdsOf(rel'.partitions, id) == IdsOf(rel.partitions, id)
    && (forall s :: s in rel'.snapshots && rel'.snapshots[s].tableId == id ==> s in rel.snapshots && rel.snapshots[s].tableId == id)
  }

  /** The only new ids are those of the request that takes the step. */
  ghost predicate OnlyNew(rel: Relations, rel': Relations, sids: set<int>, ids: set<int>) {
    && (forall s :: s in rel'.snapshots ==> s in rel.snapshots || s in sids)
    && (forall p :: p in rel'.partitions ==> p in rel.partitions || p in ids)
  }

  ghost predicate SeqsGrow(s: Sequences, s': Sequences) {
    s.table <= s'.table && s.snapshot <= s'.snapshot && s.partition <= s'.partition
  }

  lemma DataFrame(db: Db, db': Db, pc: Pc, changed: set<string>, sids: set<int>, ids: set<int>)
    requires PcOk(pc) && DataOk(db, pc) && SeqsGrow(db.seqs, db'.seqs)
    requires forall n :: n !in changed ==> SameName(db.rel, db'.rel, n)
    requires OnlyNew(db.rel, db'.rel, sids, ids)
    requires HoldsX(pc) !! changed && HoldsS(pc) !! changed
    requires DrawnSid(pc) !! sids && DrawnIds(pc) !! ids
    ensures DataOk(db', pc)
  {
    if pc.Reading? {
      assert pc.req.table in HoldsS(pc);
      assert SameName(db.rel, db'.rel, pc.req.table);
    } else if pc.Writing? && pc.wstage.Drawing? {
      assert pc.req.table in HoldsX(pc);
      DrawingFrame(db, db', pc.req, pc.wstage.sid, pc.wstage.ids, sids, ids);
    }
  }

  lemma DrawingFrame(db: Db, db': Db, req: Request, sid: int, drawn: seq<int>, sids: set<int>, ids: set<int>)
    requires req.CommitSnapshot? && DrawingOk(db, req, sid, drawn) && SeqsGrow(db.seqs, db'.seqs)
    requires SameName(db.rel, db'.rel, req.table) && OnlyNew(db.rel, db'.rel, sids, ids)
    requires sid !in sids && forall x :: x in drawn ==> x !in ids
    ensures DrawingOk(db', req, sid, drawn)
  {
  }

  /** A table is still answered as before, or its invalidation is owed, or nothing was cached for it. */
  ghost predicate CacheSafe(rel: Relations, rel': Relations, pc': Pc, t: string) {
    || (forall s: uint64 :: QueryPartitions(rel', t, s) == QueryPartitions(rel, t, s))
    || MayStale(pc', t)
    || Live(rel, t).None?
  }

  lemma SameNameIsSafe(rel: Relations, rel': Relations, pc': Pc, t: string)
    requires SameName(rel, rel', t)
    ensures CacheSafe(rel, rel', pc', t)
  {
    assert forall s: uint64 :: QueryPartitions(rel', t, s) == QueryPartitions(rel, t, s);
  }

  lemma DbCache(db: Db, db': Db, cache: PartCache, ts: Threads, i: Thread, pc': Pc)
    requires CacheOk(db, cache, ts) && i in ts
    requires forall t :: MayStale(ts[i], t) ==> MayStale(pc', t)
    requires forall t :: CacheSafe(db.rel, db'.rel, pc', t)
    ensures CacheOk(db', cache, ts[i := pc'])
  {
    var us := ts[i := pc'];
    forall t: string, s: uint64, k | 0 <= k < |cache| && cache[k].key == Key(t, s)
      ensures QueryPartitions(db'.rel, t, s) == Some(cache[k].value) || Stale(us, t)
    {
      assert CacheSafe(db.rel, db'.rel, pc', t);
      if Stale(ts, t) {
        var j :| j in ts && MayStale(ts[j], t);
        assert MayStale(us[j], t);
      } else if MayStale(pc', t) {
        assert us[i] == pc';
      } else {
        assert QueryPartitions(db.rel, t, s) == Some(cache[k].value);
      }
    }
  }

  /** The step of a request that changes the database only at names it has locked, and owes what it made stale. */
  ghost predicate DbMove(db: Db, db': Db, pc: Pc, pc': Pc, changed: set<string>) {
    && SeqsGrow(db.seqs, db'.seqs)
    && changed <= HoldsX(pc)
    && Owns(pc') == Owns(pc) && HoldsX(pc') == HoldsX(pc) && HoldsS(pc') == HoldsS(pc)
    && PcOk(pc') && DataOk(db', pc') && DrawnSid(pc') == {} && DrawnIds(pc') == {}
    && (forall n :: n !in changed ==> SameName(db.rel, db'.rel, n))
    && OnlyNew(db.rel, db'.rel, DrawnSid(pc), DrawnIds(pc))
    && (forall t :: MayStale(pc, t) ==> MayStale(pc', t))
    && (forall t :: t in changed ==> CacheSafe(db.rel, db'.rel, pc', t))
  }

  lemma DbStep(w: World, db': Db, i: Thread, pc': Pc, changed: set<string>)
    requires Coherent(w) && i in w.threads && DbMove(w.db, db', w.threads[i], pc', changed)
    ensures Coherent(Set(w, i, pc').(db := db'))
  {
    SwapLocks(w.threads, i, pc');
    QuietDraws(w.threads, i, pc');
    forall j | j in w.threads && j != i
      ensures DataOk(db', w.threads[j])
    {
      DbOther(w, db', i, j, changed);
    }
    forall t
      ensures CacheSafe(w.db.rel, db'.rel, pc', t)
    {
      if t !in changed {
        SameNameIsSafe(w.db.rel, db'.rel, pc', t);
      }
    }
    DbCache(w.db, db', w.cache, w.threads, i, pc');
  }

  lemma DbOther(w: World, db': Db, i: Thread, j: Thread, changed: set<string>)
    requires LocksOk(w.threads) && DrawsApart(w.threads) && i in w.threads && j in w.threads && i != j
    requires PcOk(w.threads[j]) && DataOk(w.db, w.threads[j]) && SeqsGrow(w.db.seqs, db'.seqs)
    requires changed <= HoldsX(w.threads[i])
    requires forall n :: n !in changed ==> SameName(w.db.rel, db'.rel, n)
    requires OnlyNew(w.db.rel, db'.rel, DrawnSid(w.threads[i]), DrawnIds(w.threads[i]))
    ensures DataOk(db', w.threads[j])
  {
    forall n | n in changed
      ensures n !in HoldsX(w.threads[j]) && n !in HoldsS(w.threads[j])
    {
      assert n in Owns(w.threads[i]);
    }
    DataFrame(w.db, db', w.threads[j], changed, DrawnSid(w.threads[i]), DrawnIds(w.threads[i]));
  }
}
