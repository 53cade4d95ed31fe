/** Dropping a table with all its rows: referential safety, and what is left. */
module Purging {
  import opened Words
  import opened Sorting
  import opened Tables
  import opened Catalog
  import opened History
  import opened Invariants
  import opened Preservation
  import opened PreservationDdl

  ghost predicate Named(rel: Relations, id: int) {
    exists t :: t in rel.transactions && t.tableId == id
  }

  // ----- the rows that the deletes keep

  lemma {:induction false} KeptManifests(ms: seq<ManifestFile>, id: int)
    ensures forall m :: m in OtherManifests(ms, id) <==> m in ms && m.tableId != id
  {
    if ms != [] {
      KeptManifests(ms[..|ms| - 1], id);
      assert ms == ms[..|ms| - 1] + [ms[|ms| - 1]];
    }
  }

  lemma {:induction false} KeptSchemas(rows: seq<SchemaRow>, id: int)
    ensures forall r :: r in OtherSchemas(rows, id) <==> r in rows && r.tableId != id
  {
    if rows != [] {
      KeptSchemas(rows[..|rows| - 1], id);
      assert rows == rows[..|rows| - 1] + [rows[|rows| - 1]];
    }
  }

  /** Names and ids correspond one to one, so deleting the row of a name deletes its id. */
  lemma DeletedTableIds(db: Db, name: string)
    requires IdsOk(db) && name in db.rel.tables
    ensures TableIds(db.rel.(tables := db.rel.tables - {name})) == TableIds(db.rel) - {db.rel.tables[name].id}
  {
    var rel := db.rel.(tables := db.rel.tables - {name});
    forall id
      ensures id in TableIds(rel) <==> id in TableIds(db.rel) && id != db.rel.tables[name].id
    {
      if id in TableIds(db.rel) && id != db.rel.tables[name].id {
        var n :| n in db.rel.tables && db.rel.tables[n].id == id;
        assert n in rel.tables;
      }
    }
  }

  /** The table ids that exist after `k` deletes. */
  lemma IdsAfter(db: Db, name: string, k: nat)
    requires IdsOk(db) && name in db.rel.tables
    ensures var id := db.rel.tables[name].id;
            TableIds(AfterDeletes(db.rel, name, id, k)) == if k >= DELETES then TableIds(db.rel) - {id} else TableIds(db.rel)
  {
    DeletedTableIds(db, name);
    var rel := AfterDeletes(db.rel, name, db.rel.tables[name].id, k);
    assert rel.tables == if k >= DELETES then db.rel.tables - {name} else db.rel.tables;
  }

  /** `s'` and `t'` still hold every snapshot and table id other than those of table `id`. */
  ghost predicate KeepsOthers(s: map<int, SnapshotRow>, s': map<int, SnapshotRow>, t: set<int>, t': set<int>, id: int) {
    && (forall x :: x in s && s[x].tableId != id ==> x in s' && s'[x] == s[x])
    && (forall x :: x in t && x != id ==> x in t')
  }

  /** Rows refer to what they referred to: either nothing they need was deleted, or the rows of `id` went first. */
  lemma PartitionsStillRefer(
    m: map<int, PartRow>, m': map<int, PartRow>, s: map<int, SnapshotRow>, s': map<int, SnapshotRow>, t: set<int>, t': set<int>, id: int)
    requires PartitionsRefer(m, s, t) && KeepsOthers(s, s', t, t', id)
    requires forall p :: p in m' ==> p in m && m'[p] == m[p]
    requires (s' == s && t' == t) || forall p :: p in m' ==> m'[p].part.tableId != id
    ensures PartitionsRefer(m', s', t')
  {
    forall p | p in m'
      ensures PartRefers(m'[p].part, s', t')
    {
      assert PartRefers(m[p].part, s, t);
    }
  }

  lemma ManifestsStillRefer(
    m: seq<ManifestFile>, m': seq<ManifestFile>, s: map<int, SnapshotRow>, s': map<int, SnapshotRow>, t: set<int>, t': set<int>, id: int)
    requires ManifestsRefer(m, s, t) && KeepsOthers(s, s', t, t', id)
    requires forall x :: x in m' ==> x in m
    requires (s' == s && t' == t) || forall x :: x in m' ==> x.tableId != id
    ensures ManifestsRefer(m', s', t')
  {
    forall i | 0 <= i < |m'|
      ensures m'[i].tableId in t' && m'[i].snapshotId in s' && s'[m'[i].snapshotId].tableId == m'[i].tableId
    {
      assert m'[i] in m;
      var j :| 0 <= j < |m| && m[j] == m'[i];
    }
  }

  lemma ListsStillRefer(
    m: map<int, ManifestList>, m': map<int, ManifestList>, s: map<int, SnapshotRow>, s': map<int, SnapshotRow>, t: set<int>, t': set<int>, id: int)
    requires ListsRefer(m, s, t) && KeepsOthers(s, s', t, t', id)
    requires forall x :: x in m' ==> x in m && m'[x] == m[x]
    requires (s' == s && t' == t) || forall x :: x in m' ==> m'[x].tableId != id
    ensures ListsRefer(m', s', t')
  {
  }

  /** Each kind of row, after `k` deletes, refers to rows that still exist. */
  lemma ReferencesAfter(rel: Relations, name: string, id: int, k: nat, ids: set<int>)
    requires References(rel)
    requires ids == if k >= DELETES then TableIds(rel) - {id} else TableIds(rel)
    ensures var r := AfterDeletes(rel, name, id, k);
      && SnapshotsRefer(r.snapshots, ids)
      && PartitionsRefer(r.partitions, r.snapshots, ids)
      && ManifestsRefer(r.manifestFiles, r.snapshots, ids)
      && ListsRefer(r.manifestLists, r.snapshots, ids)
  {
    var r, t := AfterDeletes(rel, name, id, k), TableIds(rel);
    KeptManifests(rel.manifestFiles, id);
    assert KeepsOthers(rel.snapshots, r.snapshots, t, ids, id);
    PartitionsStillRefer(rel.partitions, r.partitions, rel.snapshots, r.snapshots, t, ids, id);
    ManifestsStillRefer(rel.manifestFiles, r.manifestFiles, rel.snapshots, r.snapshots, t, ids, id);
    ListsStillRefer(rel.manifestLists, r.manifestLists, rel.snapshots, r.snapshots, t, ids, id);
  }

  lemma HistoriesAfter(rel: Relations, name: string, id: int, k: nat, ids: set<int>)
    requires HistoriesRefer(rel, TableIds(rel))
    requires ids == if k >= DELETES then TableIds(rel) - {id} else TableIds(rel)
    requires k < DELETES || !Named(rel, id)
    ensures HistoriesRefer(AfterDeletes(rel, name, id, k), ids)
  {
    KeptSchemas(rel.schemas, id);
  }

  /**
    The deletes up to the last never break a foreign key. The last one, of the
    table row itself, does so exactly when a transaction names the table.
   */
  lemma DeletesAreSafe(db: Db, name: string, k: nat)
    requires Good(db) && name in db.rel.tables && k <= DELETES
    ensures ForeignKeysHold(AfterDeletes(db.rel, name, db.rel.tables[name].id, k))
       <==> k < DELETES || !Named(db.rel, db.rel.tables[name].id)
  {
    var id := db.rel.tables[name].id;
    var r := AfterDeletes(db.rel, name, id, k);
    IdsAfter(db, name, k);
    if k < DELETES || !Named(db.rel, id) {
      ReferencesAfter(db.rel, name, id, k, TableIds(r));
      HistoriesAfter(db.rel, name, id, k, TableIds(r));
      ReferencesAreKeys(r);
    } else {
      var t :| t in db.rel.transactions && t.tableId == id;
      assert t in r.transactions && id !in TableIds(r);
    }
  }

  /** A purge succeeds exactly for a live table that no transaction ever named. */
  lemma PurgeSucceedsIff(db: Db, name: string)
    requires Good(db)
    ensures Purge(db.rel, name).Some? <==> Live(db.rel, name).Some? && !Named(db.rel, db.rel.tables[name].id)
  {
    if Live(db.rel, name).Some? {
      forall k: nat | k <= DELETES
        ensures ForeignKeysHold(AfterDeletes(db.rel, name, db.rel.tables[name].id, k))
           <==> k < DELETES || !Named(db.rel, db.rel.tables[name].id)
      {
        DeletesAreSafe(db, name, k);
      }
    }
  }

  // ----- what a purge leaves

  lemma RowsKept(rel: Relations, id: int, other: int)
    requires other != id
    ensures RowsOf(OtherPartitions(rel.partitions, id), other) == RowsOf(rel.partitions, other)
    ensures IdsOf(OtherPartitions(rel.partitions, id), other) == IdsOf(rel.partitions, other)
  {
    var m, n := rel.partitions, OtherPartitions(rel.partitions, id);
    forall p
      ensures p in IdsOf(n, other) <==> p in IdsOf(m, other)
    {
    }
    assert IdsOf(n, other) == IdsOf(m, other);
    SortedIsSorted(IdsOf(m, other));
  }

  lemma {:induction false} ManifestsKept(ms: seq<ManifestFile>, id: int, sid: int)
    requires forall m :: m in ms && m.snapshotId == sid ==> m.tableId != id
    ensures ManifestsOf(OtherManifests(ms, id), sid) == ManifestsOf(ms, sid)
  {
    if ms != [] {
      var prefix, last := ms[..|ms| - 1], ms[|ms| - 1];
      assert last in ms;
      ManifestsKept(prefix, id, sid);
      ManifestsConcat(OtherManifests(prefix, id), [last], sid);
      assert OtherManifests(prefix, id) + [] == OtherManifests(prefix, id);
      assert ManifestsOf([last], sid) == if last.snapshotId == sid then [last] else [] by {
        assert [last][..0] == [];
      }
    }
  }

  lemma {:induction false} SchemasKept(rows: seq<SchemaRow>, id: int, other: int)
    requires other != id
    ensures SchemasOf(OtherSchemas(rows, id), other) == SchemasOf(rows, other)
  {
    if rows != [] {
      var prefix, last := rows[..|rows| - 1], rows[|rows| - 1];
      SchemasKept(prefix, id, other);
      SchemasAppend(OtherSchemas(prefix, id), last, other);
      assert OtherSchemas(prefix, id) + [] == OtherSchemas(prefix, id);
    }
  }

  /** Another table sees nothing of the purge. */
  lemma OthersUntouched(rel: Relations, name: string, id: int, u: TableRow, log: Log)
    requires References(rel) && TableOk(rel, log, u) && u.id != id
    ensures SameFor(rel, AfterDeletes(rel, name, id, DELETES), u.id, log)
  {
    RowsKept(rel, id, u.id);
    SchemasKept(rel.schemas, id, u.id);
    forall k | 0 <= k < |log|
      ensures ManifestsOf(OtherManifests(rel.manifestFiles, id), log[k].sid) == ManifestsOf(rel.manifestFiles, log[k].sid)
      ensures log[k].sid in rel.manifestLists && rel.manifestLists[log[k].sid].tableId == u.id
    {
      assert rel.snapshots[log[k].sid] == SnapshotOf(u.id, log, k);
      assert RecordManifestsOk(rel.manifestFiles, rel.manifestLists, u.id, log[k]);
      ManifestsKept(rel.manifestFiles, id, log[k].sid);
    }
  }

  lemma PurgeIdsOk(db: Db, name: string)
    requires IdsOk(db) && name in db.rel.tables
    ensures IdsOk(db.(rel := AfterDeletes(db.rel, name, db.rel.tables[name].id, DELETES)))
  {
  }

  lemma PurgeTables(db: Db, name: string)
    requires IdsOk(db) && References(db.rel) && TablesOk(db.rel, db.logs) && name in db.rel.tables
    ensures TablesOk(AfterDeletes(db.rel, name, db.rel.tables[name].id, DELETES), db.logs)
  {
    var id := db.rel.tables[name].id;
    var rel := AfterDeletes(db.rel, name, id, DELETES);
    forall n | n in rel.tables && n != name
      ensures Untouched(db.rel, rel, db.logs, db.logs, n)
    {
      OthersUntouched(db.rel, name, id, db.rel.tables[n], db.logs[db.rel.tables[n].id]);
    }
    TablesFrame(db.rel, rel, db.logs, db.logs, name);
  }

  lemma PurgeKeepsGood(db: Db, name: string)
    requires Good(db) && Purge(db.rel, name).Some?
    ensures Good(db.(rel := Purge(db.rel, name).value))
  {
    var id := db.rel.tables[name].id;
    var rel := AfterDeletes(db.rel, name, id, DELETES);
    IdsAfter(db, name, DELETES);
    PurgeSucceedsIff(db, name);
    ReferencesAfter(db.rel, name, id, DELETES, TableIds(rel));
    HistoriesAfter(db.rel, name, id, DELETES, TableIds(rel));
    PurgeIdsOk(db, name);
    PurgeTables(db, name);
  }

  /** No row of the table id remains anywhere. */
  ghost predicate Gone(rel: Relations, id: int) {
    && id !in TableIds(rel)
    && (forall s :: s in rel.snapshots ==> rel.snapshots[s].tableId != id)
    && (forall p :: p in rel.partitions ==> rel.partitions[p].part.tableId != id)
    && (forall m :: m in rel.manifestFiles ==> m.tableId != id)
    && (forall s :: s in rel.manifestLists ==> rel.manifestLists[s].tableId != id)
    && (forall k :: k in rel.specs ==> k.0 != id)
    && (forall r :: r in rel.schemas ==> r.tableId != id)
  }

  lemma PurgeLeavesNothing(db: Db, name: string)
    requires Good(db) && Purge(db.rel, name).Some?
    ensures Gone(Purge(db.rel, name).value, db.rel.tables[name].id)
  {
    var id := db.rel.tables[name].id;
    IdsAfter(db, name, DELETES);
    KeptManifests(db.rel.manifestFiles, id);
    KeptSchemas(db.rel.schemas, id);
  }

  /** Every other table answers every query as before. */
  lemma PurgeKeepsOtherQueries(db: Db, name: string, other: string, snapshot: uint64)
    requires IdsOk(db) && Purge(db.rel, name).Some? && other != name
    ensures QueryPartitions(Purge(db.rel, name).value, other, snapshot) == QueryPartitions(db.rel, other, snapshot)
  {
    if Live(db.rel, other).Some? {
      assert db.rel.tables[other].id != db.rel.tables[name].id;
      RowsKept(db.rel, db.rel.tables[name].id, db.rel.tables[other].id);
    }
  }
}
