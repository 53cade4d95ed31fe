/** What readers get: time travel, repeatable reads, and no stale rows from the cache. */
module Reads {
  import opened Words
  import opened Tables
  import opened Commits
  import opened History
  import opened Invariants
  import opened Preservation
  import opened CacheKeys
  import opened Interleaving
  import opened Locking
  import opened Steps
  import opened StoreSteps
  import opened Runs

  // ----- time travel

  /** A query at any snapshot id is the replay of the table's commits up to that id. */
  lemma QueryIsReplay(db: Db, name: string, s: uint64)
    requires Good(db) && Live(db.rel, name).Some?
    ensures db.rel.tables[name].id in db.logs
    ensures QueryPartitions(db.rel, name, s) == Some(Replay(db.logs[db.rel.tables[name].id], AsInt64(s)))
  {
    var t := db.rel.tables[name];
    assert TableOk(db.rel, db.logs[t.id], t);
    TimeTravel(t.id, db.logs[t.id], AsInt64(s));
  }

  lemma ReachableQueriesReplay(cfg: Config, ws: seq<World>, k: nat, name: string, s: uint64)
    requires IsRun(cfg, ws) && k < |ws| && Live(ws[k].db.rel, name).Some?
    ensures var t := ws[k].db.rel.tables[name];
            t.id in ws[k].db.logs && QueryPartitions(ws[k].db.rel, name, s) == Some(Replay(ws[k].db.logs[t.id], AsInt64(s)))
  {
    RunInv(cfg, ws, k);
    QueryIsReplay(ws[k].db, name, s);
  }

  lemma CommittedIsReplay(db: Db, name: string, sid: nat, ids: seq<int>, c: Change, s: uint64)
    requires Good(db) && Drawn(db, name, sid, ids) && |ids| == |c.files|
    ensures Live(Commit(db.rel, name, sid, ids, c), name).Some? && db.rel.tables[name].id in db.logs
    ensures QueryPartitions(Commit(db.rel, name, sid, ids, c), name, s)
         == Some(Replay(db.logs[db.rel.tables[name].id] + [CommitRecord(db, name, sid, ids, c)], AsInt64(s)))
  {
    CommitKeepsGood(db, name, sid, ids, c);
    QueryIsReplay(Committed(db, name, sid, ids, c), name, s);
  }

  lemma CommitEffectOnItself(db: Db, name: string, sid: nat, ids: seq<int>, c: Change, s: uint64)
    requires Good(db) && Drawn(db, name, sid, ids) && |ids| == |c.files|
    ensures Live(Commit(db.rel, name, sid, ids, c), name).Some?
    ensures var before := QueryPartitions(db.rel, name, s).value;
            QueryPartitions(Commit(db.rel, name, sid, ids, c), name, s)
            == Some(if AsInt64(s) < sid then before
                    else Surviving(before + NewParts(db.rel.tables[name].id, sid, ids, c.files), c.keys))
  {
    QueryIsReplay(db, name, s);
    CommittedIsReplay(db, name, sid, ids, c, s);
    ReplayOneMore(db.logs[db.rel.tables[name].id], CommitRecord(db, name, sid, ids, c), AsInt64(s));
  }

  lemma ReplayOneMore(log: Log, rec: CommitRec, s: int)
    ensures Replay(log + [rec], s) == if s < rec.sid then Replay(log, s) else Surviving(Replay(log, s) + rec.parts, rec.change.keys)
  {
    assert (log + [rec])[..|log|] == log;
  }

  /**
    The exact effect of a commit on every query: its own table changes from the new
    snapshot on, by the appended rows and the deleted keys, and nothing else changes.
   */
  lemma CommitEffect(db: Db, name: string, sid: nat, ids: seq<int>, c: Change, other: string, s: uint64)
    requires Good(db) && Drawn(db, name, sid, ids) && |ids| == |c.files|
    requires Live(db.rel, other).Some?
    ensures Live(Commit(db.rel, name, sid, ids, c), other).Some?
    ensures var before := QueryPartitions(db.rel, other, s).value;
            QueryPartitions(Commit(db.rel, name, sid, ids, c), other, s)
            == Some(if other != name || AsInt64(s) < sid then before
                    else Surviving(before + NewParts(db.rel.tables[name].id, sid, ids, c.files), c.keys))
  {
    if other != name {
      PublishedOther(db, name, sid, ids, c, other);
    } else {
      CommitEffectOnItself(db, name, sid, ids, c, s);
    }
  }

  lemma {:induction false} NothingDeleted(parts: seq<Part>)
    ensures Surviving(parts, []) == parts
  {
    if parts != [] {
      NothingDeleted(parts[..|parts| - 1]);
      assert parts == parts[..|parts| - 1] + [parts[|parts| - 1]];
    }
  }

  /** An append shows at exactly the ids that are not below the one it is given. */
  lemma UnreachedSnapshotsMove(db: Db, name: string, sid: nat, ids: seq<int>, c: Change, s: uint64)
    requires Good(db) && Drawn(db, name, sid, ids) && |ids| == |c.files|
    requires c.files != [] && c.keys == []
    ensures QueryPartitions(Commit(db.rel, name, sid, ids, c), name, s) != QueryPartitions(db.rel, name, s) <==> AsInt64(s) >= sid
  {
    CommitEffectOnItself(db, name, sid, ids, c, s);
    NothingDeleted(QueryPartitions(db.rel, name, s).value + NewParts(db.rel.tables[name].id, sid, ids, c.files));
  }

  /** What a server read answers: 0 stands for the snapshot that is current at the time. */
  function ReadRows(rel: Relations, name: string, s: uint64): Option<seq<Part>> {
    QueryPartitions(rel, name, ReadAt(rel, name, s))
  }

  // ----- repeatable reads

  lemma LaterCommits(id: int, log: Log, log': Log, s: int)
    requires LogOk(id, log') && log <= log' && s <= Head(log)
    ensures Replay(log', s) == Replay(log, s)
  {
    assert log' == log + log'[|log|..];
    forall i | 0 <= i < |log'[|log|..]|
      ensures log'[|log|..][i].sid > s
    {
      assert RecordOk(id, log'[|log| + i]);
    }
    ReplayPrefix(log, log'[|log|..], s);
  }

  /**
    A nonzero snapshot that the table has reached reads the same for ever after: under
    any later steps of any requests, and even under a new name, until the table is gone.
   */
  lemma RepeatableReads(cfg: Config, ws: seq<World>, j: nat, k: nat, name: string, name': string, s: uint64)
    requires IsRun(cfg, ws) && j <= k < |ws|
    requires Live(ws[j].db.rel, name).Some? && Live(ws[k].db.rel, name').Some?
    requires ws[j].db.rel.tables[name].id == ws[k].db.rel.tables[name'].id
    requires s <= ws[j].db.rel.tables[name].current
    ensures QueryPartitions(ws[k].db.rel, name', s) == QueryPartitions(ws[j].db.rel, name, s)
  {
    RunInv(cfg, ws, j);
    RunInv(cfg, ws, k);
    RunLogs(cfg, ws, j, k);
    QueryIsReplay(ws[j].db, name, s);
    QueryIsReplay(ws[k].db, name', s);
    var id := ws[j].db.rel.tables[name].id;
    assert TableOk(ws[j].db.rel, ws[j].db.logs[id], ws[j].db.rel.tables[name]);
    assert TableOk(ws[k].db.rel, ws[k].db.logs[id], ws[k].db.rel.tables[name']);
    LaterCommits(id, ws[j].db.logs[id], ws[k].db.logs[id], AsInt64(s));
  }

  /**
    The two lock acquisitions of a metadata request: the snapshot resolved under the
    first lock still lists, under the second, what it listed when it was resolved.
   */
  lemma MetadataIsConsistent(cfg: Config, ws: seq<World>, j: nat, k: nat, name: string)
    requires IsRun(cfg, ws) && j <= k < |ws|
    requires Live(ws[j].db.rel, name).Some? && Live(ws[k].db.rel, name).Some?
    requires ws[j].db.rel.tables[name].id == ws[k].db.rel.tables[name].id
    ensures var t := ws[j].db.rel.tables[name];
            0 <= t.current < TWO_63 && t.id in ws[j].db.logs
            && (t.current > 0 ==>
                  QueryPartitions(ws[k].db.rel, name, ReadAt(ws[k].db.rel, name, t.current))
                  == Some(Replay(ws[j].db.logs[t.id], Head(ws[j].db.logs[t.id]))))
  {
    ResolvedInRange(cfg, ws, j, name);
    RepeatableReads(cfg, ws, j, k, name, name, ws[j].db.rel.tables[name].current);
  }

  lemma ResolvedInRange(cfg: Config, ws: seq<World>, j: nat, name: string)
    requires IsRun(cfg, ws) && j < |ws| && Live(ws[j].db.rel, name).Some?
    ensures var t := ws[j].db.rel.tables[name];
            && 0 <= t.current < TWO_63 && t.id in ws[j].db.logs
            && QueryPartitions(ws[j].db.rel, name, t.current) == Some(Replay(ws[j].db.logs[t.id], Head(ws[j].db.logs[t.id])))
  {
    RunInv(cfg, ws, j);
    RunSeqs(cfg, ws, j);
    CurrentIsHead(ws[j].db, name);
    HeadInRange(ws[j].db, name);
    QueryIsReplay(ws[j].db, name, ws[j].db.rel.tables[name].current);
  }

  lemma HeadInRange(db: Db, name: string)
    requires Good(db) && SeqsBounded(db.seqs) && Live(db.rel, name).Some?
    ensures var t := db.rel.tables[name];
            t.id in db.logs && t.current == Head(db.logs[t.id]) && t.current < db.seqs.snapshot <= TWO_63
  {
    var t := db.rel.tables[name];
    var log := db.logs[t.id];
    assert TableOk(db.rel, log, t);
    if log != [] {
      assert log[|log| - 1].sid in db.rel.snapshots;
    }
  }

  /**
    A transaction is given the snapshot that was current when it began. If that is not
    0, which would ask for the current one of the moment, then a read at it lists the same
    until the table is gone.
   */
  lemma TransactionReadsRepeat(cfg: Config, ws: seq<World>, j: nat, k: nat, i: Thread, name': string)
    requires IsRun(cfg, ws) && j < k < |ws| && Step(cfg, ws[j], i, ReleaseShared) == Some(ws[j + 1])
    requires ws[j + 1].threads[i].Inserting? && Live(ws[k].db.rel, name').Some?
    requires ws[k].db.rel.tables[name'].id == ws[j + 1].threads[i].tableId
    ensures var name, s := ws[j].threads[i].req.table, ws[j + 1].threads[i].readSnapshot;
            && Live(ws[j].db.rel, name).Some? && s == CurrentSnapshot(ws[j].db.rel, name) && 0 <= s < TWO_63
            && (s != 0 ==> QueryPartitions(ws[k].db.rel, name', ReadAt(ws[k].db.rel, name', s))
                           == QueryPartitions(ws[j].db.rel, name, ReadAt(ws[j].db.rel, name, s)))
  {
    BeginsAtCurrent(cfg, ws, j, i);
    var name, s := ws[j].threads[i].req.table, ws[j + 1].threads[i].readSnapshot;
    CurrentInRange(cfg, ws, j, name);
    if s != 0 {
      RepeatableReads(cfg, ws, j, k, name, name', s);
    }
  }

  lemma CurrentInRange(cfg: Config, ws: seq<World>, j: nat, name: string)
    requires IsRun(cfg, ws) && j < |ws| && Live(ws[j].db.rel, name).Some?
    ensures 0 <= CurrentSnapshot(ws[j].db.rel, name) == ws[j].db.rel.tables[name].current < TWO_63
  {
    ResolvedInRange(cfg, ws, j, name);
  }

  lemma NotedIsLive(cfg: Config, w: World, i: Thread)
    requires Coherent(w) && Step(cfg, w, i, ReleaseShared).Some?
    requires Step(cfg, w, i, ReleaseShared).value.threads[i].Inserting?
    ensures var name, pc' := w.threads[i].req.table, Step(cfg, w, i, ReleaseShared).value.threads[i];
            && Live(w.db.rel, name).Some? && w.db.rel.tables[name].id == pc'.tableId
            && pc'.readSnapshot == CurrentSnapshot(w.db.rel, name)
  {
    PcFits(w, i);
  }

  lemma BeginsAtCurrent(cfg: Config, ws: seq<World>, j: nat, i: Thread)
    requires IsRun(cfg, ws) && j + 1 < |ws| && Step(cfg, ws[j], i, ReleaseShared) == Some(ws[j + 1])
    requires ws[j + 1].threads[i].Inserting?
    ensures var name := ws[j].threads[i].req.table;
            && Live(ws[j].db.rel, name).Some? && ws[j].db.rel.tables[name].id == ws[j + 1].threads[i].tableId
            && ws[j + 1].threads[i].readSnapshot == CurrentSnapshot(ws[j].db.rel, name)
  {
    RunInv(cfg, ws, j);
    NotedIsLive(cfg, ws[j], i);
  }

  // ----- no stale reads

  /** While a reader holds the shared lock, its rows are the query's answer up to the moment it caches them. */
  lemma CachedRowsAreCurrent(cfg: Config, ws: seq<World>, k: nat, i: Thread)
    requires IsRun(cfg, ws) && k < |ws| && i in ws[k].threads
    requires ws[k].threads[i].Reading? && ws[k].threads[i].rstage.Queried?
    ensures var pc := ws[k].threads[i];
            pc.rstage.rows == QueryPartitions(ws[k].db.rel, pc.req.table, pc.rstage.at)
  {
    RunInv(cfg, ws, k);
    PcFits(ws[k], i);
  }

  /** A rename or drop that has given back the lock of `t` and has not yet invalidated its entries. */
  ghost predicate PendingRemoval(ts: Threads, t: string) {
    exists j :: j in ts && MayStale(ts[j], t) && (ts[j].req.RenameTable? || ts[j].req.DropTable?)
  }

  /** A committer of `t` between its transaction and its invalidation, still alone on `t`. */
  ghost predicate PendingCommit(ts: Threads, t: string) {
    exists j :: j in ts && MayStale(ts[j], t) && ts[j].req.CommitSnapshot? && HoldsX(ts[j]) == {t}
  }

  lemma StaleKinds(ts: Threads, t: string)
    requires forall i :: i in ts ==> PcOk(ts[i])
    requires Stale(ts, t)
    ensures PendingRemoval(ts, t) || PendingCommit(ts, t)
  {
    var j :| j in ts && MayStale(ts[j], t);
    assert PcOk(ts[j]);
    if ts[j].req.CommitSnapshot? {
      CommitterHolds(ts[j], t);
    }
  }

  lemma CommitterHolds(pc: Pc, t: string)
    requires PcOk(pc) && MayStale(pc, t) && pc.req.CommitSnapshot?
    ensures HoldsX(pc) == {t}
  {
    ghost var n := Member(pc.held);
    assert n in Names(pc.req);
    assert t in Names(pc.req);
    forall x
      ensures x in pc.held <==> x == t
    {
      if x in pc.held {
        assert x in Names(pc.req);
      }
    }
  }

  lemma NoCommitterBesideReader(ts: Threads, i: Thread, t: string)
    requires LocksOk(ts) && i in ts && t in HoldsS(ts[i])
    ensures !PendingCommit(ts, t)
  {
    forall j | j in ts
      ensures HoldsX(ts[j]) != {t}
    {
      assert t !in HoldsX(ts[j]);
    }
  }

  /** A hit serves the query's present answer, unless a rename or drop of the name has yet to invalidate. */
  lemma HitServesCurrent(cfg: Config, w: World, i: Thread)
    requires Coherent(w) && Step(cfg, w, i, Probe).Some? && DoProbe(cfg, w, i).threads[i].rstage.Served?
    ensures var pc := DoProbe(cfg, w, i).threads[i];
            pc.rstage.rows == QueryPartitions(w.db.rel, pc.req.table, pc.rstage.at) || PendingRemoval(w.threads, pc.req.table)
  {
    var pc := w.threads[i];
    var t := pc.req.table;
    Recency.LookupFinds(w.cache, Key(t, pc.rstage.at));
    if Stale(w.threads, t) {
      StaleKinds(w.threads, t);
      NoCommitterBesideReader(w.threads, i, t);
    }
  }

  ghost predicate NoRemovals(w: World) {
    forall i :: i in w.threads ==>
      match w.threads[i]
      case Writing(req, _, _) => !req.RenameTable? && !req.DropTable?
      case Owing(req, _) => !req.RenameTable? && !req.DropTable?
      case _ => true
  }

  ghost predicate ServedOk(rel: Relations, pc: Pc) {
    pc.Reading? && pc.rstage.Served? ==> pc.rstage.rows == QueryPartitions(rel, pc.req.table, pc.rstage.at)
  }

  ghost predicate AllServedOk(w: World) {
    forall i :: i in w.threads ==> ServedOk(w.db.rel, w.threads[i])
  }

  lemma OtherServed(cfg: Config, w: World, i: Thread, a: Action, j: Thread)
    requires IdsOk(w.db) && Coherent(w) && Step(cfg, w, i, a).Some? && j in w.threads && j != i && ServedOk(w.db.rel, w.threads[j])
    ensures ServedOk(Step(cfg, w, i, a).value.db.rel, w.threads[j])
  {
    var pc := w.threads[j];
    if pc.Reading? && pc.rstage.Served? {
      PcFits(w, i);
      StepFrame(cfg, w, i, a);
      ReadNotWritten(w, i, j);
      SameNameServed(w.db.rel, Step(cfg, w, i, a).value.db.rel, pc);
    }
  }

  lemma ReadNotWritten(w: World, i: Thread, j: Thread)
    requires LocksOk(w.threads) && i in w.threads && j in w.threads && w.threads[j].Reading?
    ensures w.threads[j].req.table !in HoldsX(w.threads[i])
  {
    assert w.threads[j].req.table in HoldsS(w.threads[j]);
  }

  lemma SameNameServed(rel: Relations, rel': Relations, pc: Pc)
    requires ServedOk(rel, pc) && pc.Reading? && SameName(rel, rel', pc.req.table)
    ensures ServedOk(rel', pc)
  {
  }

  lemma OwnServed(cfg: Config, w: World, i: Thread, a: Action)
    requires Coherent(w) && Step(cfg, w, i, a).Some? && (cfg.caching ==> NoRemovals(w))
    ensures ServedOk(Step(cfg, w, i, a).value.db.rel, Step(cfg, w, i, a).value.threads[i])
  {
    PcFits(w, i);
    match a
    case Probe =>
      if DoProbe(cfg, w, i).threads[i].rstage.Served? {
        HitServesCurrent(cfg, w, i);
      }
    case _ =>
  }

  lemma NoneServed(w: World)
    requires Init(w)
    ensures AllServedOk(w)
  {
  }

  /** What a reader is served is the query's answer for as long as it holds its lock, if nothing is cached or nothing is renamed or dropped. */
  lemma {:induction false} ServedIsCurrent(cfg: Config, ws: seq<World>, k: nat)
    requires IsRun(cfg, ws) && k < |ws|
    requires cfg.caching ==> forall m :: 0 <= m <= k ==> NoRemovals(ws[m])
    ensures AllServedOk(ws[k])
  {
    if k == 0 {
      NoneServed(ws[0]);
    } else {
      ServedIsCurrent(cfg, ws, k - 1);
      NextServed(cfg, ws, k - 1);
    }
  }

  lemma NextServed(cfg: Config, ws: seq<World>, k: nat)
    requires IsRun(cfg, ws) && k + 1 < |ws| && (cfg.caching ==> NoRemovals(ws[k])) && AllServedOk(ws[k])
    ensures AllServedOk(ws[k + 1])
  {
    var i, a := StepOf(cfg, ws, k);
    ServedStep(cfg, ws[k], i, a);
  }

  /**
    Reads and commits, creates and alters in any interleaving: whatever a reader is
    served, from the cache or not, is the query's answer for as long as it holds its
    lock, and a cached entry differs from the query only while the committer that
    changed it still holds the table's lock and is about to invalidate.
   */
  lemma NoStaleReads(cfg: Config, ws: seq<World>, k: nat)
    requires IsRun(cfg, ws) && k < |ws|
    requires forall m :: 0 <= m <= k ==> NoRemovals(ws[m])
    ensures AllServedOk(ws[k])
    ensures forall t: string, s: uint64, n :: 0 <= n < |ws[k].cache| && ws[k].cache[n].key == Key(t, s) ==>
              QueryPartitions(ws[k].db.rel, t, s) == Some(ws[k].cache[n].value) || PendingCommit(ws[k].threads, t)
  {
    RunInv(cfg, ws, k);
    ServedIsCurrent(cfg, ws, k);
    CacheKinds(ws[k]);
  }

  lemma ServedStep(cfg: Config, w: World, i: Thread, a: Action)
    requires IdsOk(w.db) && Coherent(w) && Step(cfg, w, i, a).Some? && (cfg.caching ==> NoRemovals(w)) && AllServedOk(w)
    ensures AllServedOk(Step(cfg, w, i, a).value)
  {
    var w' := Step(cfg, w, i, a).value;
    OwnServed(cfg, w, i, a);
    forall j | j in w'.threads && j != i
      ensures ServedOk(w'.db.rel, w'.threads[j])
    {
      OtherServed(cfg, w, i, a, j);
    }
  }

  lemma CacheKinds(w: World)
    requires Coherent(w) && NoRemovals(w)
    ensures forall t: string, s: uint64, n :: 0 <= n < |w.cache| && w.cache[n].key == Key(t, s) ==>
              QueryPartitions(w.db.rel, t, s) == Some(w.cache[n].value) || PendingCommit(w.threads, t)
  {
    forall t: string | Stale(w.threads, t)
      ensures PendingCommit(w.threads, t)
    {
      StaleKinds(w.threads, t);
    }
  }

  /**
    With renames and drops as well: an entry that differs from the query belongs to a
    table whose invalidation is pending, and once that has run no entry of the table is left.
   */
  lemma StaleOnlyWhilePending(cfg: Config, ws: seq<World>, k: nat, t: string, s: uint64, n: nat)
    requires IsRun(cfg, ws) && k < |ws| && n < |ws[k].cache| && ws[k].cache[n].key == Key(t, s)
    requires QueryPartitions(ws[k].db.rel, t, s) != Some(ws[k].cache[n].value)
    ensures PendingRemoval(ws[k].threads, t) || PendingCommit(ws[k].threads, t)
  {
    RunInv(cfg, ws, k);
    StaleKinds(ws[k].threads, t);
  }

  lemma InvalidationEmpties(cfg: Config, w: World, i: Thread, name: string, s: uint64, n: nat)
    requires Step(cfg, w, i, Invalidate).Some?
    requires name == if w.threads[i].Writing? then w.threads[i].wstage.owed[0] else w.threads[i].names[0]
    requires n < |Step(cfg, w, i, Invalidate).value.cache|
    ensures Step(cfg, w, i, Invalidate).value.cache[n].key != Key(name, s)
  {
    var left := Step(cfg, w, i, Invalidate).value.cache;
    Recency.RemoveIfKeeps(w.cache, Covered(name), left[n]);
    assert left[n] in left;
    InvalidatedKeys(name, name, s);
  }
}
