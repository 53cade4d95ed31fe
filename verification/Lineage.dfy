/** The chain of snapshots, the bookkeeping of their manifests, and the version histories. */
module Lineage {
  import opened Words
  import opened Tables
  import opened Commits
  import opened Catalog
  import opened History
  import opened Invariants
  import opened Interleaving
  import opened Locking
  import opened Steps
  import opened StoreSteps
  import opened Runs
  import opened Purging

  // ----- linear history

  ghost predicate Snapshot(snapshots: map<int, SnapshotRow>, id: int, s: int) {
    s in snapshots && snapshots[s].tableId == id
  }

  /** One chain: each snapshot's parent is the one before it, 0 for the first; the head is the greatest. */
  ghost predicate Chain(snapshots: map<int, SnapshotRow>, id: int, head: int) {
    && (head == 0 || Snapshot(snapshots, id, head))
    && (forall s :: Snapshot(snapshots, id, s) ==> 0 < s <= head)
    && (forall s :: Snapshot(snapshots, id, s) ==> ParentPrecedes(snapshots, id, s))
    && (forall r, s :: Snapshot(snapshots, id, r) && Snapshot(snapshots, id, s) && snapshots[r].parent == snapshots[s].parent ==> r == s)
  }

  ghost predicate ParentPrecedes(snapshots: map<int, SnapshotRow>, id: int, s: int)
    requires s in snapshots
  {
    var p := snapshots[s].parent;
    && p < s
    && (p == 0 || Snapshot(snapshots, id, p))
    && (forall r :: Snapshot(snapshots, id, r) ==> r <= p || s <= r)
  }

  lemma Position(snapshots: map<int, SnapshotRow>, id: int, log: Log, s: int) returns (k: nat)
    requires SnapshotsOk(snapshots, id, log) && Snapshot(snapshots, id, s)
    ensures k < |log| && log[k].sid == s && snapshots[s] == SnapshotOf(id, log, k)
  {
    assert HasSid(log, s);
    k :| 0 <= k < |log| && log[k].sid == s;
  }

  lemma NoneBetween(snapshots: map<int, SnapshotRow>, id: int, log: Log, k: nat, r: int)
    requires LogOk(id, log) && SnapshotsOk(snapshots, id, log) && k < |log| && Snapshot(snapshots, id, r)
    ensures r <= Head(log[..k]) || log[k].sid <= r
  {
    var j := Position(snapshots, id, log, r);
    if j < k {
      BeforeHead(id, log, k, j);
    }
  }

  lemma BeforeHead(id: int, log: Log, k: nat, j: nat)
    requires LogOk(id, log) && j < k <= |log|
    ensures log[j].sid <= Head(log[..k])
  {
    assert log[..k][k - 1] == log[k - 1];
  }

  lemma ParentPosition(snapshots: map<int, SnapshotRow>, id: int, log: Log, k: nat)
    requires LogOk(id, log) && SnapshotsOk(snapshots, id, log) && k < |log|
    ensures 0 < log[k].sid <= Head(log) && Head(log[..k]) < log[k].sid
    ensures Head(log[..k]) == 0 || Snapshot(snapshots, id, Head(log[..k]))
  {
    assert RecordOk(id, log[k]);
    if k > 0 {
      assert snapshots[log[k - 1].sid] == SnapshotOf(id, log, k - 1);
    }
  }

  lemma ParentsPrecede(snapshots: map<int, SnapshotRow>, id: int, log: Log, s: int)
    requires LogOk(id, log) && SnapshotsOk(snapshots, id, log) && Snapshot(snapshots, id, s)
    ensures 0 < s <= Head(log) && ParentPrecedes(snapshots, id, s)
  {
    var k := Position(snapshots, id, log, s);
    ParentPosition(snapshots, id, log, k);
    forall r | Snapshot(snapshots, id, r)
      ensures r <= Head(log[..k]) || s <= r
    {
      NoneBetween(snapshots, id, log, k, r);
    }
  }

  lemma LogIsChain(snapshots: map<int, SnapshotRow>, id: int, log: Log)
    requires LogOk(id, log) && SnapshotsOk(snapshots, id, log)
    ensures Chain(snapshots, id, Head(log))
  {
    forall s | Snapshot(snapshots, id, s)
      ensures 0 < s <= Head(log) && ParentPrecedes(snapshots, id, s)
    {
      ParentsPrecede(snapshots, id, log, s);
    }
    forall r, s | Snapshot(snapshots, id, r) && Snapshot(snapshots, id, s) && snapshots[r].parent == snapshots[s].parent
      ensures r == s
    {
      assert ParentPrecedes(snapshots, id, r) && ParentPrecedes(snapshots, id, s);
    }
    if log != [] {
      assert snapshots[log[|log| - 1].sid] == SnapshotOf(id, log, |log| - 1);
    }
  }

  /** In every state of every run the snapshots of a table form one chain up to its current snapshot. */
  lemma LinearHistory(cfg: Config, ws: seq<World>, k: nat, name: string)
    requires IsRun(cfg, ws) && k < |ws| && name in ws[k].db.rel.tables
    ensures var t := ws[k].db.rel.tables[name]; Chain(ws[k].db.rel.snapshots, t.id, t.current)
  {
    RunInv(cfg, ws, k);
    var t := ws[k].db.rel.tables[name];
    assert TableOk(ws[k].db.rel, ws[k].db.logs[t.id], t);
    LogIsChain(ws[k].db.rel.snapshots, t.id, ws[k].db.logs[t.id]);
  }

  // ----- lost updates

  /** A commit becomes visible only on top of the parent it named. */
  lemma PublishedOnParent(cfg: Config, w: World, i: Thread)
    requires Coherent(w) && Step(cfg, w, i, Publish).Some?
    ensures var req := w.threads[i].req; var w' := Step(cfg, w, i, Publish).value;
            var before, after := w.db.rel.tables[req.table], w'.db.rel.tables[req.table];
            && before.current == req.parent
            && after == before.(current := w.threads[i].wstage.sid)
            && after.current in w'.db.rel.snapshots
            && w'.db.rel.snapshots[after.current].parent == req.parent
  {
    PcFits(w, i);
  }

  lemma CommittedLast(db: Db, name: string, sid: nat, ids: seq<int>, c: Change)
    requires TablesOk(db.rel, db.logs) && Drawn(db, name, sid, ids) && |ids| == |c.files|
    ensures var t := db.rel.tables[name]; var logs := Committed(db, name, sid, ids, c).logs;
            t.id in logs && logs[t.id] != [] && t.current < sid == Head(logs[t.id])
  {
    HeadStored(db, name);
  }

  /** The published commit ends the list of its table, behind the parent. */
  lemma PublishedLast(cfg: Config, w: World, i: Thread)
    requires TablesOk(w.db.rel, w.db.logs) && Step(cfg, w, i, Publish).Some? && DataOk(w.db, w.threads[i])
    ensures var req := w.threads[i].req; var id := w.db.rel.tables[req.table].id; var logs := Step(cfg, w, i, Publish).value.db.logs;
            id in logs && logs[id] != [] && req.parent < Head(logs[id])
  {
    var pc := w.threads[i];
    CommittedLast(w.db, pc.req.table, pc.wstage.sid, pc.wstage.ids, pc.req.change);
  }

  lemma HeadStored(db: Db, name: string)
    requires TablesOk(db.rel, db.logs) && name in db.rel.tables
    ensures var t := db.rel.tables[name]; t.current == 0 || Snapshot(db.rel.snapshots, t.id, t.current)
  {
    var t := db.rel.tables[name];
    var log := db.logs[t.id];
    assert TableOk(db.rel, log, t);
    if log != [] {
      assert db.rel.snapshots[log[|log| - 1].sid] == SnapshotOf(t.id, log, |log| - 1);
    }
  }

  /** A parent is named by the commit that becomes visible on it, and is the last of the list then. */
  lemma ParentIsHead(cfg: Config, w: World, i: Thread)
    requires Inv(w) && Step(cfg, w, i, Publish).Some?
    ensures var req := w.threads[i].req; var id := w.db.rel.tables[req.table].id;
            id in w.db.logs && LogOk(id, w.db.logs[id]) && req.parent == Head(w.db.logs[id])
  {
    PcFits(w, i);
    LogHead(w.db, w.threads[i].req.table);
  }

  /** Of two commits of one table that become visible in a run, the later one names a later parent. */
  lemma OneWinnerPerParent(cfg: Config, ws: seq<World>, j: nat, k: nat, a: Thread, b: Thread)
    requires IsRun(cfg, ws) && j < k && k + 1 < |ws|
    requires Step(cfg, ws[j], a, Publish) == Some(ws[j + 1]) && Step(cfg, ws[k], b, Publish) == Some(ws[k + 1])
    requires ws[j].db.rel.tables[ws[j].threads[a].req.table].id == ws[k].db.rel.tables[ws[k].threads[b].req.table].id
    ensures ws[j].threads[a].req.parent < ws[k].threads[b].req.parent
  {
    var id := ws[k].db.rel.tables[ws[k].threads[b].req.table].id;
    FirstPublish(cfg, ws, j, k, a);
    SecondPublish(cfg, ws, k, b);
    HeadGrows(id, ws[j + 1].db.logs[id], ws[k].db.logs[id]);
  }

  lemma FirstPublish(cfg: Config, ws: seq<World>, j: nat, k: nat, a: Thread)
    requires IsRun(cfg, ws) && j < k < |ws| && Step(cfg, ws[j], a, Publish) == Some(ws[j + 1])
    ensures var req := ws[j].threads[a].req; var id := ws[j].db.rel.tables[req.table].id;
            && id in ws[j + 1].db.logs && id in ws[k].db.logs && ws[j + 1].db.logs[id] <= ws[k].db.logs[id]
            && ws[j + 1].db.logs[id] != [] && req.parent < Head(ws[j + 1].db.logs[id])
  {
    RunInv(cfg, ws, j);
    PcFits(ws[j], a);
    PublishedLast(cfg, ws[j], a);
    RunLogs(cfg, ws, j + 1, k);
  }

  lemma SecondPublish(cfg: Config, ws: seq<World>, k: nat, b: Thread)
    requires IsRun(cfg, ws) && k + 1 < |ws| && Step(cfg, ws[k], b, Publish) == Some(ws[k + 1])
    ensures var req := ws[k].threads[b].req; var id := ws[k].db.rel.tables[req.table].id;
            id in ws[k].db.logs && LogOk(id, ws[k].db.logs[id]) && req.parent == Head(ws[k].db.logs[id])
  {
    RunInv(cfg, ws, k);
    ParentIsHead(cfg, ws[k], b);
  }

  lemma LogHead(db: Db, name: string)
    requires TablesOk(db.rel, db.logs) && name in db.rel.tables
    ensures var t := db.rel.tables[name]; t.id in db.logs && t.current == Head(db.logs[t.id]) && LogOk(t.id, db.logs[t.id])
  {
    assert TableOk(db.rel, db.logs[db.rel.tables[name].id], db.rel.tables[name]);
  }

  lemma HeadGrows(id: int, log: Log, log': Log)
    requires LogOk(id, log') && log <= log' && log != []
    ensures Head(log) <= Head(log')
  {
    assert log'[|log| - 1] == log[|log| - 1];
  }

  /** A commit between its first check and its outcome. */
  ghost predicate Committing(w: World, i: Thread, req: Request) {
    i in w.threads && w.threads[i].Writing? && w.threads[i].req == req && req.CommitSnapshot? && !w.threads[i].wstage.Done?
  }

  ghost predicate SameStored(w: World, w': World) {
    w'.db.rel == w.db.rel && w'.db.logs == w.db.logs && w'.cache == w.cache && SeqsGrow(w.db.seqs, w'.db.seqs)
  }

  lemma CommitStepOnlyDraws(cfg: Config, w: World, i: Thread, a: Action, req: Request)
    requires Committing(w, i, req) && Step(cfg, w, i, a).Some?
    requires var pc := Step(cfg, w, i, a).value.threads[i]; pc.Writing? && (pc.wstage.Done? ==> pc.wstage.owed == [])
    ensures SameStored(w, Step(cfg, w, i, a).value)
  {
  }

  lemma SameNameTwice(a: Relations, b: Relations, c: Relations, n: string)
    requires SameName(a, b, n) && SameName(b, c, n)
    ensures SameName(a, c, n)
  {
  }

  /** No one else's step touches the table either, because the commit holds its lock. */
  lemma TableUntouched(cfg: Config, ws: seq<World>, i: Thread, m: nat, req: Request)
    requires IsRun(cfg, ws) && m + 1 < |ws| && Committing(ws[m], i, req) && i in ws[m + 1].threads
    requires var pc := ws[m + 1].threads[i]; pc.Writing? && (pc.wstage.Done? ==> pc.wstage.owed == [])
    ensures SameName(ws[m].db.rel, ws[m + 1].db.rel, req.table)
  {
    var j, a := StepOf(cfg, ws, m);
    PcFits(ws[m], i);
    PcFits(ws[m], j);
    if j == i {
      CommitStepOnlyDraws(cfg, ws[m], i, a, req);
    } else {
      StepFrame(cfg, ws[m], j, a);
      assert req.table in Owns(ws[m].threads[i]);
    }
  }

  lemma {:induction false} TableUntouchedSince(cfg: Config, ws: seq<World>, i: Thread, j: nat, k: nat, req: Request)
    requires IsRun(cfg, ws) && j < k < |ws| && (forall m :: j <= m < k ==> Committing(ws[m], i, req))
    requires i in ws[k].threads && ws[k].threads[i].Writing? && (ws[k].threads[i].wstage.Done? ==> ws[k].threads[i].wstage.owed == [])
    ensures SameName(ws[j].db.rel, ws[k].db.rel, req.table)
  {
    TableUntouched(cfg, ws, i, k - 1, req);
    if j + 1 < k {
      TableUntouchedSince(cfg, ws, i, j, k - 1, req);
      SameNameTwice(ws[j].db.rel, ws[k - 1].db.rel, ws[k].db.rel, req.table);
    }
  }

  /**
    A commit that fails, at whatever point of its call, leaves relations, histories and
    cache as they were at each of its own steps, whatever other requests do in between,
    and at its end its table is stored just as it was when the commit got the lock.
   */
  lemma FailedCommitOnlyDraws(cfg: Config, ws: seq<World>, i: Thread, j: nat, k: nat, req: Request)
    requires IsRun(cfg, ws) && j < k < |ws| && (forall m :: j <= m < k ==> Committing(ws[m], i, req))
    requires i in ws[k].threads && ws[k].threads[i].Writing? && ws[k].threads[i].wstage == Done([])
    ensures forall m, a :: j <= m < k && Step(cfg, ws[m], i, a) == Some(ws[m + 1]) ==> SameStored(ws[m], ws[m + 1])
    ensures SameName(ws[j].db.rel, ws[k].db.rel, req.table)
  {
    forall m, a | j <= m < k && Step(cfg, ws[m], i, a) == Some(ws[m + 1])
      ensures SameStored(ws[m], ws[m + 1])
    {
      assert m + 1 < k ==> Committing(ws[m + 1], i, req);
      CommitStepOnlyDraws(cfg, ws[m], i, a, req);
    }
    TableUntouchedSince(cfg, ws, i, j, k, req);
  }

  // ----- manifests

  function AddedFiles(ms: seq<ManifestFile>): int {
    if ms == [] then 0 else AddedFiles(ms[..|ms| - 1]) + ms[|ms| - 1].addedFiles
  }

  function DeletedFiles(ms: seq<ManifestFile>): int {
    if ms == [] then 0 else DeletedFiles(ms[..|ms| - 1]) + ms[|ms| - 1].deletedFiles
  }

  function AddedRows(ms: seq<ManifestFile>): int {
    if ms == [] then 0 else AddedRows(ms[..|ms| - 1]) + ms[|ms| - 1].addedRows
  }

  function DeletedRows(ms: seq<ManifestFile>): int {
    if ms == [] then 0 else DeletedRows(ms[..|ms| - 1]) + ms[|ms| - 1].deletedRows
  }

  function RowTotal(parts: seq<Part>): int {
    if parts == [] then 0 else RowTotal(parts[..|parts| - 1]) + parts[|parts| - 1].file.rowCount
  }

  lemma {:induction false} RowTotals(parts: seq<Part>, files: seq<DataFile>)
    requires |parts| == |files| && forall i :: 0 <= i < |parts| ==> parts[i].file == files[i]
    ensures RowTotal(parts) == TotalRows(files)
  {
    if parts != [] {
      RowTotals(parts[..|parts| - 1], files[..|files| - 1]);
    }
  }

  lemma ManifestSums(table: string, id: int, specVersion: int, sid: nat, c: Change)
    ensures var ms := Manifests(table, id, specVersion, sid, c);
            && |ms| == (if c.files == [] then 0 else 1) + (if c.keys == [] then 0 else 1)
            && AddedFiles(ms) == Wrap32(|c.files|)
            && DeletedFiles(ms) == Wrap32(|c.keys|)
            && AddedRows(ms) == Wrap64(TotalRows(c.files))
            && DeletedRows(ms) == 0
  {
    assert Wrap32(0) == 0 && Wrap64(0) == 0;
    var ms := Manifests(table, id, specVersion, sid, c);
    if ms != [] {
      OneManifest(ms[0]);
      assert |ms| == 1 ==> ms == [ms[0]];
      if |ms| == 2 {
        assert ms[..1] == [ms[0]];
      }
    }
  }

  lemma OneManifest(m: ManifestFile)
    ensures AddedFiles([m]) == m.addedFiles && DeletedFiles([m]) == m.deletedFiles
    ensures AddedRows([m]) == m.addedRows && DeletedRows([m]) == m.deletedRows
  {
    assert [m][..0] == [];
  }

  /**
    The books of a committed snapshot balance: the manifest list counts its manifest
    files, of which there are at most two; the files' sums are the counts of the
    snapshot row and those of the partition rows born in the snapshot; and from its
    parent to it the visible count changes by the rows born less the rows it deleted.
   */
  lemma ManifestConservation(cfg: Config, ws: seq<World>, k: nat, name: string, sid: int)
    requires IsRun(cfg, ws) && k < |ws| && name in ws[k].db.rel.tables
    requires Snapshot(ws[k].db.rel.snapshots, ws[k].db.rel.tables[name].id, sid)
    ensures Balanced(ws[k].db.rel, ws[k].db.rel.tables[name].id, sid)
  {
    RunInv(cfg, ws, k);
    var t := ws[k].db.rel.tables[name];
    assert TableOk(ws[k].db.rel, ws[k].db.logs[t.id], t);
    BooksBalance(ws[k].db.rel, ws[k].db.logs[t.id], t, sid);
  }

  ghost predicate Balanced(rel: Relations, id: int, sid: int) {
    var ms, rows := ManifestsOf(rel.manifestFiles, sid), RowsOf(rel.partitions, id);
    && sid in rel.snapshots && sid in rel.manifestLists
    && rel.manifestLists[sid].count == |ms| <= 2
    && rel.snapshots[sid].addedFiles == AddedFiles(ms) == Wrap32(|Born(rows, sid)|)
    && rel.snapshots[sid].deletedFiles == DeletedFiles(ms)
    && AddedRows(ms) == Wrap64(RowTotal(Born(rows, sid)))
    && DeletedRows(ms) == 0
    && |Visible(rows, sid)| == |Visible(rows, rel.snapshots[sid].parent)| + |Born(rows, sid)| - |DeletedBy(rows, sid)|
  }

  lemma BooksBalance(rel: Relations, log: Log, t: TableRow, sid: int)
    requires TableOk(rel, log, t) && Snapshot(rel.snapshots, t.id, sid)
    ensures Balanced(rel, t.id, sid)
  {
    var k := Position(rel.snapshots, t.id, log, sid);
    var c := log[k];
    assert RecordOk(t.id, c) && RecordManifestsOk(rel.manifestFiles, rel.manifestLists, t.id, c);
    ManifestSums(c.table, t.id, c.specVersion, sid, c.change);
    BornInSnapshot(t.id, log, k);
    RowTotals(c.parts, c.change.files);
    VisibleCountChange(t.id, log, k);
  }

  // ----- version histories

  /** Spec versions 1 to the current one, schema versions 2 to the current one, without gaps, ending in the table's own. */
  lemma VersionHistories(cfg: Config, ws: seq<World>, k: nat, name: string)
    requires IsRun(cfg, ws) && k < |ws| && name in ws[k].db.rel.tables
    ensures SpecsOk(ws[k].db.rel.specs, ws[k].db.rel.tables[name])
    ensures SchemasOk(ws[k].db.rel.schemas, ws[k].db.rel.tables[name])
  {
    RunInv(cfg, ws, k);
    var t := ws[k].db.rel.tables[name];
    assert TableOk(ws[k].db.rel, ws[k].db.logs[t.id], t);
  }


  // ----- purges

  /**
    In every reachable state a purge succeeds exactly for a live table that no
    transaction row names. Every delete before the last is safe in any case. On success
    no row of the table id is left, and every other name answers every query as before.
   */
  lemma PurgeIsAllOrNothing(cfg: Config, ws: seq<World>, k: nat, name: string)
    requires IsRun(cfg, ws) && k < |ws|
    ensures var rel := ws[k].db.rel;
            && (Purge(rel, name).Some? <==> Live(rel, name).Some? && !Named(rel, rel.tables[name].id))
            && (name in rel.tables ==> forall d: nat :: d < DELETES ==> ForeignKeysHold(AfterDeletes(rel, name, rel.tables[name].id, d)))
            && (Purge(rel, name).Some? ==>
                  && Gone(Purge(rel, name).value, rel.tables[name].id)
                  && forall other, s: uint64 :: other != name ==>
                       QueryPartitions(Purge(rel, name).value, other, s) == QueryPartitions(rel, other, s))
  {
    RunInv(cfg, ws, k);
    PurgeInGood(ws[k].db, name);
  }

  lemma PurgeInGood(db: Db, name: string)
    requires Good(db)
    ensures var rel := db.rel;
            && (Purge(rel, name).Some? <==> Live(rel, name).Some? && !Named(rel, rel.tables[name].id))
            && (name in rel.tables ==> forall d: nat :: d < DELETES ==> ForeignKeysHold(AfterDeletes(rel, name, rel.tables[name].id, d)))
            && (Purge(rel, name).Some? ==>
                  && Gone(Purge(rel, name).value, rel.tables[name].id)
                  && forall other, s: uint64 :: other != name ==>
                       QueryPartitions(Purge(rel, name).value, other, s) == QueryPartitions(rel, other, s))
  {
    PurgeSucceedsIff(db, name);
    if name in db.rel.tables {
      forall d: nat | d < DELETES
        ensures ForeignKeysHold(AfterDeletes(db.rel, name, db.rel.tables[name].id, d))
      {
        DeletesAreSafe(db, name, d);
      }
    }
    if Purge(db.rel, name).Some? {
      PurgeLeavesNothing(db, name);
      forall other, s: uint64 | other != name
        ensures QueryPartitions(Purge(db.rel, name).value, other, s) == QueryPartitions(db.rel, other, s)
      {
        PurgeKeepsOtherQueries(db, name, other, s);
      }
    }
  }
}
