/** The invariant of the transition system, and the steps that change no relation. */
module Locking {
  import opened Words
  import opened Tables
  import opened Invariants
  import opened CacheKeys
  import opened Interleaving

  // ----- the invariant

  /** A writer is alone on its name, and no reader is there once it has the lock. */
  ghost predicate LocksOk(ts: Threads) {
    && (forall i, j, n :: i in ts && j in ts && i != j && n in Owns(ts[i]) ==> n !in Owns(ts[j]))
    && (forall i, j, n :: i in ts && j in ts && n in HoldsX(ts[i]) ==> n !in HoldsS(ts[j]))
  }

  ghost predicate PcOk(pc: Pc) {
    match pc
    case Idle => true
    case WaitShared(req) => Shared(req)
    case WaitExclusive(req, held, _) => !Shared(req) && (held == {} || (req.RenameTable? && held == {req.table}))
    case Reading(req, stage) => Shared(req) && (stage.Noted? ==> !req.Read?) && (!stage.Noted? && !stage.Locked? ==> req.Read?)
    case Writing(req, held, stage) =>
      && !Shared(req) && held != {} && held <= Names(req)
      && (!stage.Done? ==> held == Names(req))
      && (stage.Drawing? ==> req.CommitSnapshot?)
      && (stage.Done? ==> forall n :: n in stage.owed ==> n in Names(req))
    case Owing(req, names) => !Shared(req) && names != [] && !req.CommitSnapshot?
    case Inserting(_, _) => true
  }

  /** What a request has read or drawn so far still fits the database. */
  ghost predicate DataOk(db: Db, pc: Pc) {
    match pc
    case Reading(req, stage) =>
      (match stage
       case Locked => true
       case Resolved(at) => req.Read? ==> at == ReadAt(db.rel, req.table, req.snapshot)
       case Missed(at) => req.Read? ==> at == ReadAt(db.rel, req.table, req.snapshot)
       case Queried(at, rows) => rows == QueryPartitions(db.rel, req.table, at)
       case Served(_, _) => true
       case Noted(row) => row == Live(db.rel, req.table))
    case Writing(req, _, stage) => stage.Drawing? && req.CommitSnapshot? ==> DrawingOk(db, req, stage.sid, stage.ids)
    case _ => true
  }

  ghost predicate DrawingOk(db: Db, req: Request, sid: int, ids: seq<int>)
    requires req.CommitSnapshot?
  {
    && Drawn(db, req.table, sid, ids)
    && |ids| <= |req.change.files|
    && db.rel.tables[req.table].current == req.parent
  }

  function DrawnSid(pc: Pc): set<int> {
    if pc.Writing? && pc.wstage.Drawing? then {pc.wstage.sid} else {}
  }

  ghost function DrawnIds(pc: Pc): set<int> {
    if pc.Writing? && pc.wstage.Drawing? then set x | x in pc.wstage.ids else {}
  }

  /** No two requests have drawn the same id. */
  ghost predicate DrawsApart(ts: Threads) {
    forall i, j :: i in ts && j in ts && i != j ==>
      DrawnSid(ts[i]) !! DrawnSid(ts[j]) && DrawnIds(ts[i]) !! DrawnIds(ts[j])
  }

  /** An invalidation of `t` that follows a commit, a rename or a drop is still to run. */
  ghost predicate MayStale(pc: Pc, t: string) {
    match pc
    case Writing(req, _, Done(owed)) => Taints(req) && t in owed
    case Owing(req, names) => Taints(req) && t in names
    case _ => false
  }

  ghost predicate Stale(ts: Threads, t: string) {
    exists i :: i in ts && MayStale(ts[i], t)
  }

  /** A cached entry is what the query returns now, unless its table's invalidation is pending. */
  ghost predicate CacheOk(db: Db, cache: PartCache, ts: Threads) {
    forall t: string, s: uint64, k :: 0 <= k < |cache| && cache[k].key == Key(t, s) ==>
      QueryPartitions(db.rel, t, s) == Some(cache[k].value) || Stale(ts, t)
  }

  /** The locks, the requests, the cache and the database fit together. */
  ghost predicate Coherent(w: World) {
    && LocksOk(w.threads)
    && (forall i :: i in w.threads ==> PcOk(w.threads[i]) && DataOk(w.db, w.threads[i]))
    && DrawsApart(w.threads)
    && CacheOk(w.db, w.cache, w.threads)
  }

  ghost predicate Inv(w: World) {
    Good(w.db) && Coherent(w)
  }

  lemma InitInv(w: World)
    requires Init(w)
    ensures Inv(w)
  {
    EmptyIsGood();
  }

  // ----- steps of one request that touch neither database nor cache

  /** The new program counter takes only locks that are free, and forgets no pending invalidation. */
  ghost predicate QuietMove(ts: Threads, pc: Pc, pc': Pc) {
    && (forall n :: n in Owns(pc') && n !in Owns(pc) ==> NoOwner(ts, n))
    && (forall n :: n in HoldsX(pc') && n !in HoldsX(pc) ==> NoReader(ts, n))
    && (forall n :: n in HoldsS(pc') && n !in HoldsS(pc) ==> NoOwner(ts, n))
    && DrawnSid(pc') <= DrawnSid(pc) && DrawnIds(pc') <= DrawnIds(pc)
    && (forall t :: MayStale(pc, t) ==> MayStale(pc', t))
    && HoldsX(pc') !! HoldsS(pc')
  }

  lemma QuietLocks(ts: Threads, i: Thread, pc': Pc)
    requires LocksOk(ts) && i in ts && QuietMove(ts, ts[i], pc')
    ensures LocksOk(ts[i := pc'])
  {
    var us := ts[i := pc'];
    forall j, k, n | j in us && k in us && n in HoldsX(us[j])
      ensures n !in HoldsS(us[k])
    {
      if j == i && k != i {
        assert us[k] == ts[k];
      } else if j != i && k == i {
        assert n in Owns(ts[j]);
      }
    }
  }

  lemma QuietStale(db: Db, cache: PartCache, ts: Threads, i: Thread, pc': Pc)
    requires CacheOk(db, cache, ts) && i in ts && forall t :: MayStale(ts[i], t) ==> MayStale(pc', t)
    ensures CacheOk(db, cache, ts[i := pc'])
  {
    forall t | Stale(ts, t)
      ensures Stale(ts[i := pc'], t)
    {
      var j :| j in ts && MayStale(ts[j], t);
      assert MayStale(ts[i := pc'][j], t);
    }
  }

  lemma QuietDraws(ts: Threads, i: Thread, pc': Pc)
    requires DrawsApart(ts) && i in ts && DrawnSid(pc') <= DrawnSid(ts[i]) && DrawnIds(pc') <= DrawnIds(ts[i])
    ensures DrawsApart(ts[i := pc'])
  {
  }

  lemma Quiet(w: World, i: Thread, pc': Pc)
    requires Coherent(w) && i in w.threads
    requires QuietMove(w.threads, w.threads[i], pc') && PcOk(pc') && DataOk(w.db, pc')
    ensures Coherent(Set(w, i, pc'))
  {
    QuietLocks(w.threads, i, pc');
    QuietDraws(w.threads, i, pc');
    QuietStale(w.db, w.cache, w.threads, i, pc');
  }

  // ----- steps that change the cache

  lemma HitKeepsCache(db: Db, cache: PartCache, ts: Threads, key: string)
    requires CacheOk(db, cache, ts)
    ensures CacheOk(db, Recency.Hit(cache, key), ts)
  {
    var hit := Recency.Hit(cache, key);
    forall t: string, s: uint64, k | 0 <= k < |hit| && hit[k].key == Key(t, s)
      ensures QueryPartitions(db.rel, t, s) == Some(hit[k].value) || Stale(ts, t)
    {
      Recency.LookupFinds(cache, key);
      Recency.MinusKeeps(cache, {key}, hit[k]);
      assert hit[k] in cache;
      var j :| 0 <= j < |cache| && cache[j] == hit[k];
    }
  }

  /** A put of what the query returns keeps the cache right; an eviction only removes. */
  lemma PutKeepsCache(db: Db, cache: PartCache, ts: Threads, capacity: int, t0: string, s0: uint64, rows: seq<Part>)
    requires CacheOk(db, cache, ts) && QueryPartitions(db.rel, t0, s0) == Some(rows)
    ensures CacheOk(db, Recency.Put(capacity, cache, Key(t0, s0), rows), ts)
  {
    var after := Recency.Put(capacity, cache, Key(t0, s0), rows);
    forall t: string, s: uint64, k | 0 <= k < |after| && after[k].key == Key(t, s)
      ensures QueryPartitions(db.rel, t, s) == Some(after[k].value) || Stale(ts, t)
    {
      if k == 0 {
        KeyInjective(t, s, t0, s0);
      } else {
        Recency.MinusKeeps(cache, {Key(t0, s0)}, after[k]);
        assert after[k] in cache;
        var j :| 0 <= j < |cache| && cache[j] == after[k];
      }
    }
  }

  /** Once the invalidation of `name` has run, no entry of it is left to be stale. */
  lemma InvalidateCleans(db: Db, cache: PartCache, ts: Threads, us: Threads, name: string)
    requires CacheOk(db, cache, ts)
    requires forall t :: t != name && Stale(ts, t) ==> Stale(us, t)
    ensures CacheOk(db, Without(cache, name), us)
  {
    var pred := Covered(name);
    var left := Recency.RemoveIf(cache, pred);
    forall t: string, s: uint64, k | 0 <= k < |left| && left[k].key == Key(t, s)
      ensures QueryPartitions(db.rel, t, s) == Some(left[k].value) || Stale(us, t)
    {
      Recency.RemoveIfKeeps(cache, pred, left[k]);
      InvalidatedKeys(name, t, s);
      assert left[k] in cache;
      var j :| 0 <= j < |cache| && cache[j] == left[k];
    }
  }
}
