/** When the deletion count of a snapshot is the number of rows that the snapshot deleted. */
module DeletionCounts {
  import opened Words
  import opened Tables
  import opened Commits
  import opened History
  import opened Invariants
  import opened Interleaving
  import opened StoreSteps
  import opened Runs
  import opened Reads
  import opened Lineage
  import opened Registry
  import opened CommitCalls
  import opened Scenarios

  /** How many elements of a list are among the keys. */
  function Hits(list: seq<string>, keys: seq<string>): nat {
    if list == [] then 0 else Hits(list[..|list| - 1], keys) + if list[|list| - 1] in keys then 1 else 0
  }

  function PartKeys(parts: seq<Part>): (r: seq<string>)
    ensures |r| == |parts| && forall i :: 0 <= i < |parts| ==> r[i] == parts[i].file.key
  {
    seq(|parts|, i requires 0 <= i < |parts| => parts[i].file.key)
  }

  lemma {:induction false} HitsAreLost(parts: seq<Part>, keys: seq<string>)
    ensures Hits(PartKeys(parts), keys) + |Surviving(parts, keys)| == |parts|
  {
    if parts != [] {
      HitsAreLost(parts[..|parts| - 1], keys);
      assert PartKeys(parts)[..|parts| - 1] == PartKeys(parts[..|parts| - 1]);
    }
  }

  lemma {:induction false} HitsOfBoth(a: seq<string>, b: seq<string>, keys: seq<string>)
    ensures Hits(a + b, keys) == Hits(a, keys) + Hits(b, keys)
  {
    if b == [] {
      assert a + b == a;
    } else {
      HitsOfBoth(a, b[..|b| - 1], keys);
      assert (a + b)[..|a| + |b| - 1] == a + b[..|b| - 1];
    }
  }

  /** The rows a commit deletes are those listed before it, or added by it, whose key it names. */
  lemma DeletedRows(tableId: int, log: Log, k: nat)
    requires LogOk(tableId, log) && k < |log|
    ensures var listed, c := Visible(Stored(log), Head(log[..k])), log[k].change;
            |DeletedBy(Stored(log), log[k].sid)| == Hits(PartKeys(listed), c.keys) + Hits(FileKeys(c.files), c.keys)
  {
    var listed, c := Visible(Stored(log), Head(log[..k])), log[k];
    VisibleCountChange(tableId, log, k);
    TimeTravel(tableId, log, c.sid);
    TimeTravel(tableId, log, Head(log[..k]));
    ReplayUpTo(tableId, log, k);
    ReplayParent(tableId, log, k);
    HitsAreLost(listed + c.parts, c.change.keys);
    assert RecordOk(tableId, c);
    assert PartKeys(listed + c.parts) == PartKeys(listed) + FileKeys(c.change.files);
    HitsOfBoth(PartKeys(listed), FileKeys(c.change.files), c.change.keys);
  }

  // ----- in a run

  /** A published commit keeps its place in the list of its table. */
  lemma PlaceInLog(cfg: Config, ws: seq<World>, j: nat, k: nat, i: Thread)
    requires IsRun(cfg, ws) && j < k < |ws| && Step(cfg, ws[j], i, Publish) == Some(ws[j + 1])
    ensures var pc := ws[j].threads[i]; var t := ws[j].db.rel.tables[pc.req.table];
            && t.id in ws[j].db.logs && t.id in ws[k].db.logs
            && ws[j].db.logs[t.id] + [CommitRecord(ws[j].db, pc.req.table, pc.wstage.sid, pc.wstage.ids, pc.req.change)]
               <= ws[k].db.logs[t.id]
  {
    RunLogs(cfg, ws, j + 1, k);
  }

  lemma CountsInLog(id: int, before: Log, log: Log, rec: CommitRec)
    requires LogOk(id, log) && before + [rec] <= log
    ensures |before| < |log| && log[|before|] == rec
    ensures |DeletedBy(Stored(log), rec.sid)|
         == Hits(PartKeys(Visible(Stored(log), Head(before))), rec.change.keys) + Hits(FileKeys(rec.change.files), rec.change.keys)
  {
    assert log[..|before|] == before && log[|before|] == (before + [rec])[|before|];
    DeletedRows(id, log, |before|);
  }

  /** What a table lists on its current snapshot it still lists there when its list of commits has grown. */
  lemma ListingInLog(db: Db, name: string, log: Log)
    requires TablesOk(db.rel, db.logs) && name in db.rel.tables
    requires db.rel.tables[name].id in db.logs && db.logs[db.rel.tables[name].id] <= log && LogOk(db.rel.tables[name].id, log)
    ensures var t := db.rel.tables[name]; QueryById(db.rel, t.id, t.current) == Visible(Stored(log), Head(db.logs[t.id]))
  {
    var t := db.rel.tables[name];
    assert TableOk(db.rel, db.logs[t.id], t);
    TimeTravel(t.id, db.logs[t.id], t.current);
    TimeTravel(t.id, log, t.current);
    LaterCommits(t.id, db.logs[t.id], log, t.current);
  }

  lemma StoredCounts(db: Db, name: string, p: nat)
    requires TablesOk(db.rel, db.logs) && name in db.rel.tables && db.rel.tables[name].id in db.logs
    requires p < |db.logs[db.rel.tables[name].id]|
    ensures var t := db.rel.tables[name]; var log := db.logs[t.id];
            && LogOk(t.id, log) && RowsOf(db.rel.partitions, t.id) == Stored(log)
            && log[p].sid in db.rel.snapshots && db.rel.snapshots[log[p].sid].deletedFiles == Wrap32(|log[p].change.keys|)
  {
    var t := db.rel.tables[name];
    assert TableOk(db.rel, db.logs[t.id], t);
    assert db.rel.snapshots[db.logs[t.id][p].sid] == SnapshotOf(t.id, db.logs[t.id], p);
  }

  lemma RunStoredCounts(cfg: Config, ws: seq<World>, k: nat, name: string, p: nat)
    requires IsRun(cfg, ws) && k < |ws| && name in ws[k].db.rel.tables && ws[k].db.rel.tables[name].id in ws[k].db.logs
    requires p < |ws[k].db.logs[ws[k].db.rel.tables[name].id]|
    ensures var rel, t := ws[k].db.rel, ws[k].db.rel.tables[name]; var log := ws[k].db.logs[t.id];
            && LogOk(t.id, log) && RowsOf(rel.partitions, t.id) == Stored(log)
            && log[p].sid in rel.snapshots && rel.snapshots[log[p].sid].deletedFiles == Wrap32(|log[p].change.keys|)
  {
    RunInv(cfg, ws, k);
    StoredCounts(ws[k].db, name, p);
  }

  lemma RunListingInLog(cfg: Config, ws: seq<World>, j: nat, name: string, log: Log)
    requires IsRun(cfg, ws) && j < |ws| && name in ws[j].db.rel.tables && ws[j].db.rel.tables[name].id in ws[j].db.logs
    requires ws[j].db.logs[ws[j].db.rel.tables[name].id] <= log && LogOk(ws[j].db.rel.tables[name].id, log)
    ensures var t := ws[j].db.rel.tables[name]; QueryById(ws[j].db.rel, t.id, t.current) == Visible(Stored(log), Head(ws[j].db.logs[t.id]))
  {
    RunInv(cfg, ws, j);
    ListingInLog(ws[j].db, name, log);
  }

  /**
    For every commit of every run, and in every later state as long as the table exists:
    the rows stamped with its snapshot are as many as there were rows listed before it, or
    files added by it, whose key it names. The snapshot's deletion count is that number
    exactly if as many keys were requested.
   */
  lemma DeletionCountIff(cfg: Config, ws: seq<World>, j: nat, k: nat, i: Thread, name': string)
    requires IsRun(cfg, ws) && j < k < |ws| && Step(cfg, ws[j], i, Publish) == Some(ws[j + 1])
    requires name' in ws[k].db.rel.tables
    requires ws[k].db.rel.tables[name'].id == ws[j].db.rel.tables[ws[j].threads[i].req.table].id
    ensures var t, c, sid := ws[j].db.rel.tables[ws[j].threads[i].req.table], ws[j].threads[i].req.change, ws[j].threads[i].wstage.sid;
            var hits := Hits(PartKeys(QueryById(ws[j].db.rel, t.id, t.current)), c.keys) + Hits(FileKeys(c.files), c.keys);
            && sid in ws[k].db.rel.snapshots
            && |DeletedBy(RowsOf(ws[k].db.rel.partitions, t.id), sid)| == hits
            && (ws[k].db.rel.snapshots[sid].deletedFiles == |DeletedBy(RowsOf(ws[k].db.rel.partitions, t.id), sid)|
                <==> Wrap32(|c.keys|) == hits)
  {
    PlaceInLog(cfg, ws, j, k, i);
    var pc := ws[j].threads[i];
    var id, rec := ws[j].db.rel.tables[pc.req.table].id, CommitRecord(ws[j].db, pc.req.table, pc.wstage.sid, pc.wstage.ids, pc.req.change);
    var before, log := ws[j].db.logs[id], ws[k].db.logs[id];
    RunStoredCounts(cfg, ws, k, name', |before|);
    CountsInLog(id, before, log, rec);
    RunListingInLog(cfg, ws, j, pc.req.table, log);
  }

  /** In every later state the snapshot row of a commit has the parent and the operation of its request, and its counts. */
  lemma SnapshotStaysOnRecord(cfg: Config, ws: seq<World>, j: nat, k: nat, i: Thread, name': string)
    requires IsRun(cfg, ws) && j < k < |ws| && Step(cfg, ws[j], i, Publish) == Some(ws[j + 1])
    requires name' in ws[k].db.rel.tables
    requires ws[k].db.rel.tables[name'].id == ws[j].db.rel.tables[ws[j].threads[i].req.table].id
    ensures var req, sid := ws[j].threads[i].req, ws[j].threads[i].wstage.sid;
            && sid in ws[k].db.rel.snapshots
            && var s := ws[k].db.rel.snapshots[sid];
               && s.tableId == ws[k].db.rel.tables[name'].id && s.parent == req.parent && s.operation == req.change.operation
               && s.addedFiles == Wrap32(|req.change.files|) && s.deletedFiles == Wrap32(|req.change.keys|)
  {
    PlaceInLog(cfg, ws, j, k, i);
    ParentInLog(cfg, ws, j, i);
    var pc := ws[j].threads[i];
    var id := ws[j].db.rel.tables[pc.req.table].id;
    var before, log := ws[j].db.logs[id], ws[k].db.logs[id];
    RunSnapshotOf(cfg, ws, k, name', |before|);
    assert log[..|before|] == before;
    assert log[|before|] == CommitRecord(ws[j].db, pc.req.table, pc.wstage.sid, pc.wstage.ids, pc.req.change);
  }

  lemma ParentInLog(cfg: Config, ws: seq<World>, j: nat, i: Thread)
    requires IsRun(cfg, ws) && j < |ws| && Step(cfg, ws[j], i, Publish).Some?
    ensures var req := ws[j].threads[i].req; var id := ws[j].db.rel.tables[req.table].id;
            id in ws[j].db.logs && req.parent == Head(ws[j].db.logs[id])
  {
    RunInv(cfg, ws, j);
    ParentIsHead(cfg, ws[j], i);
  }

  lemma RunSnapshotOf(cfg: Config, ws: seq<World>, k: nat, name: string, p: nat)
    requires IsRun(cfg, ws) && k < |ws| && name in ws[k].db.rel.tables && ws[k].db.rel.tables[name].id in ws[k].db.logs
    requires p < |ws[k].db.logs[ws[k].db.rel.tables[name].id]|
    ensures var rel, t := ws[k].db.rel, ws[k].db.rel.tables[name]; var log := ws[k].db.logs[t.id];
            log[p].sid in rel.snapshots && rel.snapshots[log[p].sid] == SnapshotOf(t.id, log, p)
  {
    RunInv(cfg, ws, k);
    var t := ws[k].db.rel.tables[name];
    assert TableOk(ws[k].db.rel, ws[k].db.logs[t.id], t);
  }

  // ----- a commit that deletes nothing

  /** The commit that asks for the deletion of one key and adds nothing. */
  function DeleteKey(t: string, key: string): Request {
    CommitSnapshot(t, 0, Change("delete", [], [key]))
  }

  lemma NothingStored(t: string, key: string)
    ensures Accepted(Pair(WithTable(t), [], Idle, Idle), DeleteKey(t, key))
    ensures WithTable(t).rel.tables[t].id in WithTable(t).logs && WithTable(t).seqs.snapshot == 1
    ensures var rel := AfterCommit(WithTable(t), t, DeleteKey(t, key).change).rel;
            && t in rel.tables && rel.tables[t].current == 1 && 1 in rel.snapshots
            && rel.snapshots[1].deletedFiles == 1 && RowsOf(rel.partitions, rel.tables[t].id) == []
  {
    EmptyListing(t);
    var rel := AfterCommit(WithTable(t), t, DeleteKey(t, key).change).rel;
    assert Wrap32(1) == 1;
    assert NewParts(rel.tables[t].id, 1, Consecutive(WithTable(t).seqs.partition, 0), []) == [];
    assert rel.partitions == map[];
    assert IdsOf(rel.partitions, rel.tables[t].id) == {};
  }

  lemma Deletes(cfg: Config, t: string, key: string) returns (drawn: World, done: World)
    ensures Next(cfg, Pair(WithTable(t), [], Writing(DeleteKey(t, key), {t}, Entered), Idle), drawn) && Next(cfg, drawn, done)
    ensures done.db == AfterCommit(WithTable(t), t, DeleteKey(t, key).change)
  {
    var req := DeleteKey(t, key);
    var w := Pair(WithTable(t), [], Writing(req, {t}, Entered), Idle);
    NothingStored(t, key);
    Begins(cfg, w, 0, req);
    Publishes(cfg, w, 0, req);
    drawn, done := AfterDrawing(w, 0, req, 0), Ended(w, 0, req, [t], AfterCommit(w.db, t, req.change));
  }

  /** A reachable snapshot that counts one deletion and deleted no row: its one key was no row's. */
  lemma AbsentKeyIsCounted(cfg: Config, t: string, key: string) returns (ws: seq<World>)
    ensures IsRun(cfg, ws)
    ensures var rel := ws[|ws| - 1].db.rel;
            && t in rel.tables && rel.tables[t].current in rel.snapshots
            && rel.snapshots[rel.tables[t].current].deletedFiles == 1
            && DeletedBy(RowsOf(rel.partitions, rel.tables[t].id), rel.tables[t].current) == []
  {
    var kinds, req := Kinds(false, false), DeleteKey(t, key);
    NothingStored(t, key);
    EmptyListing(t);
    var a := WriterRuns(cfg, kinds, EMPTY, [], CreateTable(t, "{}", "day"));
    var b := TakesLock(cfg, kinds, WithTable(t), [], req);
    ws := Join(cfg, kinds, a, b);
    assert {} + {t} == {t};
    var drawn, done := Deletes(cfg, t, key);
    ws := ws + [drawn, done];
  }
}
