/** What every reachable catalog satisfies, and that each operation keeps it. */
module Invariants {
  import opened Words
  import opened Tables
  import opened Commits
  import opened Catalog
  import opened History
  import opened PartitionSpecs

  /** The stored state, with the list of commits of every table id ever created. */
  datatype Db = Db(rel: Relations, seqs: Sequences, logs: map<int, Log>)

  const EMPTY := Db(EMPTY_RELATIONS, FIRST_SEQUENCES, map[])

  // ----- one table

  ghost predicate SnapshotsOk(snapshots: map<int, SnapshotRow>, id: int, log: Log) {
    && (forall k :: 0 <= k < |log| ==> log[k].sid in snapshots && snapshots[log[k].sid] == SnapshotOf(id, log, k))
    && (forall s :: s in snapshots && snapshots[s].tableId == id ==> HasSid(log, s))
  }

  /** The snapshot row of the k-th commit: its parent is the commit before it. */
  function SnapshotOf(id: int, log: Log, k: nat): SnapshotRow
    requires k < |log|
  {
    var c := log[k].change;
    SnapshotRow(id, Head(log[..k]), c.operation, Wrap32(|c.files|), Wrap32(|c.keys|))
  }

  ghost predicate HasSid(log: Log, sid: int) {
    exists k :: 0 <= k < |log| && log[k].sid == sid
  }

  ghost predicate ManifestsOk(ms: seq<ManifestFile>, lists: map<int, ManifestList>, id: int, log: Log) {
    forall k :: 0 <= k < |log| ==> RecordManifestsOk(ms, lists, id, log[k])
  }

  ghost predicate RecordManifestsOk(ms: seq<ManifestFile>, lists: map<int, ManifestList>, id: int, c: CommitRec) {
    && c.sid >= 0
    && ManifestsOf(ms, c.sid) == Manifests(c.table, id, c.specVersion, c.sid, c.change)
    && c.sid in lists
    && lists[c.sid] == ManifestList(id, |ManifestsOf(ms, c.sid)|)
  }

  /** The spec history holds exactly versions 1 to the current one, which is the table's spec. */
  ghost predicate SpecsOk(specs: map<(int, int), Spec>, t: TableRow) {
    && 1 <= t.specVersion
    && (forall v :: (t.id, v) in specs <==> 1 <= v <= t.specVersion)
    && specs[(t.id, t.specVersion)] == t.spec
  }

  /** The schema history holds exactly versions 2 to the current one, in order. */
  ghost predicate SchemasOk(schemas: seq<SchemaRow>, t: TableRow) {
    var h := SchemasOf(schemas, t.id);
    && |h| == t.schemaVersion - 1
    && (forall k :: 0 <= k < |h| ==> h[k].version == k + 2)
    && (h != [] ==> h[|h| - 1].schema == t.schema)
  }

  ghost predicate TableOk(rel: Relations, log: Log, t: TableRow) {
    && LogOk(t.id, log)
    && RowsOf(rel.partitions, t.id) == Stored(log)
    && t.current == Head(log)
    && SnapshotsOk(rel.snapshots, t.id, log)
    && ManifestsOk(rel.manifestFiles, rel.manifestLists, t.id, log)
    && SpecsOk(rel.specs, t)
    && SchemasOk(rel.schemas, t)
  }

  // ----- the whole catalog

  ghost predicate IdsOk(db: Db) {
    && (forall n :: n in db.rel.tables ==> 0 < db.rel.tables[n].id < db.seqs.table)
    && (forall m, n :: m in db.rel.tables && n in db.rel.tables && db.rel.tables[m].id == db.rel.tables[n].id ==> m == n)
    && (forall id :: id in db.logs ==> id < db.seqs.table)
    && (forall s :: s in db.rel.snapshots ==> 0 < s < db.seqs.snapshot)
    && (forall p :: p in db.rel.partitions ==> 0 < p < db.seqs.partition && db.rel.partitions[p].part.id == p)
    && db.seqs.table > 0 && db.seqs.snapshot > 0 && db.seqs.partition > 0
  }

  // Foreign keys, and beyond them: a row that names a table and a snapshot names a snapshot of that table.

  ghost predicate SnapshotsRefer(snapshots: map<int, SnapshotRow>, ids: set<int>) {
    forall s :: s in snapshots ==> snapshots[s].tableId in ids
  }

  ghost predicate PartitionsRefer(partitions: map<int, PartRow>, snapshots: map<int, SnapshotRow>, ids: set<int>) {
    forall p :: p in partitions ==> PartRefers(partitions[p].part, snapshots, ids)
  }

  ghost predicate PartRefers(part: Part, snapshots: map<int, SnapshotRow>, ids: set<int>) {
    part.tableId in ids && part.snapshotId in snapshots && snapshots[part.snapshotId].tableId == part.tableId
  }

  ghost predicate ManifestsRefer(ms: seq<ManifestFile>, snapshots: map<int, SnapshotRow>, ids: set<int>) {
    forall i :: 0 <= i < |ms| ==>
      ms[i].tableId in ids && ms[i].snapshotId in snapshots && snapshots[ms[i].snapshotId].tableId == ms[i].tableId
  }

  ghost predicate ListsRefer(lists: map<int, ManifestList>, snapshots: map<int, SnapshotRow>, ids: set<int>) {
    forall s :: s in lists ==> lists[s].tableId in ids && s in snapshots && snapshots[s].tableId == lists[s].tableId
  }

  ghost predicate HistoriesRefer(rel: Relations, ids: set<int>) {
    && (forall k :: k in rel.specs ==> k.0 in ids)
    && (forall r :: r in rel.schemas ==> r.tableId in ids)
    && (forall t :: t in rel.transactions ==> t.tableId in ids)
  }

  ghost predicate References(rel: Relations) {
    var ids := TableIds(rel);
    && SnapshotsRefer(rel.snapshots, ids)
    && PartitionsRefer(rel.partitions, rel.snapshots, ids)
    && ManifestsRefer(rel.manifestFiles, rel.snapshots, ids)
    && ListsRefer(rel.manifestLists, rel.snapshots, ids)
    && HistoriesRefer(rel, ids)
  }

  lemma ReferencesAreKeys(rel: Relations)
    requires References(rel)
    ensures ForeignKeysHold(rel)
  {
    var ids := TableIds(rel);
    forall p | p in rel.partitions
      ensures rel.partitions[p].part.tableId in ids && rel.partitions[p].part.snapshotId in rel.snapshots
    {
      assert PartRefers(rel.partitions[p].part, rel.snapshots, ids);
    }
  }

  ghost predicate TablesOk(rel: Relations, logs: map<int, Log>) {
    forall n :: n in rel.tables ==> rel.tables[n].id in logs && TableOk(rel, logs[rel.tables[n].id], rel.tables[n])
  }

  ghost predicate Good(db: Db) {
    IdsOk(db) && References(db.rel) && TablesOk(db.rel, db.logs)
  }

  lemma EmptyIsGood()
    ensures Good(EMPTY)
  {
  }

  // ----- operations as steps of the database

  ghost predicate CreateStep(db: Db, name: string, schema: string, spec: Option<Spec>, db': Db)
  {
    && db.seqs.table < TWO_63
    && var r := Create(db.rel, name, db.seqs.table, schema, spec);
    && r.Some?
    && db' == Db(r.value, db.seqs.(table := db.seqs.table + 1), db.logs[db.seqs.table := []])
  }

  /** A commit whose snapshot and partition ids were drawn earlier from the sequences. */
  ghost predicate Drawn(db: Db, name: string, sid: int, ids: seq<int>) {
    && Live(db.rel, name).Some?
    && 0 < sid < db.seqs.snapshot && sid !in db.rel.snapshots
    && (forall s :: s in db.rel.snapshots && db.rel.snapshots[s].tableId == db.rel.tables[name].id ==> s < sid)
    && FreshIds(db.rel.partitions, db.rel.tables[name].id, ids)
    && (forall i :: 0 <= i < |ids| ==> 0 < ids[i] < db.seqs.partition)
  }

  function CommitRecord(db: Db, name: string, sid: int, ids: seq<int>, c: Change): CommitRec
    requires Live(db.rel, name).Some? && |ids| == |c.files|
  {
    var t := db.rel.tables[name];
    CommitRec(sid, name, t.specVersion, NewParts(t.id, sid, ids, c.files), c)
  }

  function Committed(db: Db, name: string, sid: nat, ids: seq<int>, c: Change): Db
    requires Live(db.rel, name).Some? && |ids| == |c.files|
    requires db.rel.tables[name].id in db.logs
  {
    var id := db.rel.tables[name].id;
    db.(rel := Commit(db.rel, name, sid, ids, c),
        logs := db.logs[id := db.logs[id] + [CommitRecord(db, name, sid, ids, c)]])
  }

  // ----- frames

  /** Nothing that `TableOk` reads about this table id has changed. */
  ghost predicate SameFor(rel: Relations, rel': Relations, id: int, log: Log) {
    && RowsOf(rel'.partitions, id) == RowsOf(rel.partitions, id)
    && (forall s :: s in rel.snapshots && rel.snapshots[s].tableId == id ==> s in rel'.snapshots && rel'.snapshots[s] == rel.snapshots[s])
    && (forall s :: s in rel'.snapshots && rel'.snapshots[s].tableId == id ==> s in rel.snapshots && rel.snapshots[s].tableId == id)
    && (forall k :: 0 <= k < |log| ==> ManifestsOf(rel'.manifestFiles, log[k].sid) == ManifestsOf(rel.manifestFiles, log[k].sid))
    && (forall k :: 0 <= k < |log| && log[k].sid in rel.manifestLists ==>
          log[k].sid in rel'.manifestLists && rel'.manifestLists[log[k].sid] == rel.manifestLists[log[k].sid])
    && (forall v :: (id, v) in rel'.specs <==> (id, v) in rel.specs)
    && (forall v :: (id, v) in rel.specs ==> rel'.specs[(id, v)] == rel.specs[(id, v)])
    && SchemasOf(rel'.schemas, id) == SchemasOf(rel.schemas, id)
  }

  lemma TableFrame(rel: Relations, rel': Relations, log: Log, t: TableRow)
    requires TableOk(rel, log, t) && SameFor(rel, rel', t.id, log)
    ensures TableOk(rel', log, t)
  {
    forall k | 0 <= k < |log|
      ensures log[k].sid in rel'.snapshots && rel'.snapshots[log[k].sid] == SnapshotOf(t.id, log, k)
      ensures RecordManifestsOk(rel'.manifestFiles, rel'.manifestLists, t.id, log[k])
    {
      assert RecordManifestsOk(rel.manifestFiles, rel.manifestLists, t.id, log[k]);
    }
  }

  /** Table rows may differ in what the histories do not depend on. */
  lemma RowFrame(rel: Relations, log: Log, t: TableRow, u: TableRow)
    requires TableOk(rel, log, t) && u == t.(deleted := u.deleted)
    ensures TableOk(rel, log, u)
  {
  }

  /** A row that stays, with all that its histories consist of. */
  ghost predicate Untouched(rel: Relations, rel': Relations, logs: map<int, Log>, logs': map<int, Log>, n: string) {
    && n in rel.tables && n in rel'.tables && rel'.tables[n] == rel.tables[n]
    && rel.tables[n].id in logs && rel.tables[n].id in logs' && logs'[rel.tables[n].id] == logs[rel.tables[n].id]
    && SameFor(rel, rel', rel.tables[n].id, logs[rel.tables[n].id])
  }

  /** It is enough to look at the row that changed and to see that the others were left alone. */
  lemma TablesFrame(rel: Relations, rel': Relations, logs: map<int, Log>, logs': map<int, Log>, changed: string)
    requires TablesOk(rel, logs)
    requires forall n :: n in rel'.tables && n != changed ==> Untouched(rel, rel', logs, logs', n)
    requires changed in rel'.tables ==>
      rel'.tables[changed].id in logs' && TableOk(rel', logs'[rel'.tables[changed].id], rel'.tables[changed])
    ensures TablesOk(rel', logs')
  {
    forall n | n in rel'.tables
      ensures rel'.tables[n].id in logs' && TableOk(rel', logs'[rel'.tables[n].id], rel'.tables[n])
    {
      if n != changed {
        assert Untouched(rel, rel', logs, logs', n);
        var u := rel.tables[n];
        TableFrame(rel, rel', logs[u.id], u);
      }
    }
  }
}
