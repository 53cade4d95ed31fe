/** The Postgres client: one method per statement or group of statements. */
module Database {
  import opened Words
  import opened PartitionSpecs
  import opened Tables
  import opened Commits
  import opened Catalog
  import opened History
  import opened Invariants

  /** An open transaction sees its own writes; no one else does until it commits. */
  class Tx {
    var rel: Relations

    constructor (rel: Relations)
      ensures this.rel == rel
    {
      this.rel := rel;
    }
  }

  class PGClient {
    var rel: Relations
    var seqs: Sequences
    /** The commits of every table id, for the specifications only. */
    ghost var logs: map<int, Log>

    ghost function Stored(): Db
      reads this
    {
      Db(rel, seqs, logs)
    }

    constructor ()
      ensures Stored() == EMPTY
    {
      rel := EMPTY_RELATIONS;
      seqs := FIRST_SEQUENCES;
      logs := map[];
    }

    method BeginTx() returns (tx: Tx)
      ensures fresh(tx) && tx.rel == rel
    {
      tx := new Tx(rel);
    }

    method CommitTx(tx: Tx)
      modifies this`rel
      ensures rel == tx.rel
    {
      rel := tx.rel;
    }

    // ----- selects

    method GetTable(name: string) returns (t: Option<TableRow>)
      ensures t == Live(rel, name)
    {
      if name in rel.tables && !rel.tables[name].deleted {
        return Some(rel.tables[name]);
      }
      return None;
    }

    method GetTableSpecVersion(name: string) returns (v: int)
      ensures v == if Live(rel, name).Some? then rel.tables[name].specVersion else 0
    {
      var t := GetTable(name);
      match t
      case None => v := 0;
      case Some(row) => v := row.specVersion;
    }

    method GetCurrentSnapshot(name: string) returns (s: int)
      ensures s == CurrentSnapshot(rel, name)
    {
      var t := GetTable(name);
      match t
      case None => s := 0;
      case Some(row) => s := if row.current < 0 then 0 else row.current;
    }

    // ----- the statements of a commit

    /** An unknown table is no error but gives the id 0. A failed call may have used up an id. */
    method InsertSnapshotTx(tx: Tx, name: string, parent: uint64, operation: string, added: int, deleted: int)
      returns (err: bool, sid: int, tableId: int)
      modifies tx, this`seqs
      ensures err <==> Live(old(tx.rel), name).Some? && old(seqs.snapshot) >= TWO_63
      ensures err || Live(old(tx.rel), name).None? ==> sid == 0 && tx.rel == old(tx.rel) && seqs == old(seqs)
      ensures !err && Live(old(tx.rel), name).Some? ==>
                && sid == old(seqs.snapshot) && seqs == old(seqs).(snapshot := old(seqs.snapshot) + 1)
                && tableId == old(tx.rel).tables[name].id
                && tx.rel == old(tx.rel).(snapshots := old(tx.rel.snapshots)[sid := SnapshotRow(tableId, AsInt64(parent), operation, added, deleted)])
    {
      err, sid, tableId := false, 0, 0;
      if Live(tx.rel, name).None? {
        return;
      }
      tableId := tx.rel.tables[name].id;
      if seqs.snapshot >= TWO_63 {
        err := true;
        return;
      }
      sid := seqs.snapshot;
      seqs := seqs.(snapshot := sid + 1);
      tx.rel := tx.rel.(snapshots := tx.rel.snapshots[sid := SnapshotRow(tableId, AsInt64(parent), operation, added, deleted)]);
    }

    /** The new row refers to its table and its snapshot; the latter has to exist. */
    method InsertPartitionTx(tx: Tx, name: string, sid: int, file: DataFile) returns (err: bool)
      modifies tx, this`seqs
      ensures err <==> Live(old(tx.rel), name).None? || sid !in old(tx.rel).snapshots || old(seqs.partition) >= TWO_63
      ensures err ==> tx.rel == old(tx.rel) && seqs == old(seqs)
      ensures !err ==>
                && seqs == old(seqs).(partition := old(seqs.partition) + 1)
                && tx.rel == old(tx.rel).(partitions := old(tx.rel.partitions)[old(seqs.partition) :=
                     PartRow(Part(old(seqs.partition), old(tx.rel).tables[name].id, sid, file), None)])
    {
      if Live(tx.rel, name).None? || sid !in tx.rel.snapshots || seqs.partition >= TWO_63 {
        return true;
      }
      var id := seqs.partition;
      seqs := seqs.(partition := id + 1);
      tx.rel := tx.rel.(partitions := tx.rel.partitions[id := PartRow(Part(id, tx.rel.tables[name].id, sid, file), None)]);
      return false;
    }

    method MarkPartitionDeletedTx(tx: Tx, name: string, key: string, sid: int) returns (err: bool)
      modifies tx
      ensures err <==> Live(old(tx.rel), name).None?
      ensures tx.rel == if err then old(tx.rel)
                        else old(tx.rel).(partitions := StampTable(old(tx.rel.partitions), old(tx.rel).tables[name].id, [key], sid))
    {
      if Live(tx.rel, name).None? {
        return true;
      }
      tx.rel := tx.rel.(partitions := StampTable(tx.rel.partitions, tx.rel.tables[name].id, [key], sid));
      return false;
    }

    method InsertManifestFileTx(tx: Tx, row: ManifestFile) returns (err: bool)
      modifies tx
      ensures err <==> row.tableId !in TableIds(old(tx.rel)) || row.snapshotId !in old(tx.rel).snapshots
      ensures tx.rel == if err then old(tx.rel) else old(tx.rel).(manifestFiles := old(tx.rel).manifestFiles + [row])
    {
      if row.tableId !in TableIds(tx.rel) || row.snapshotId !in tx.rel.snapshots {
        return true;
      }
      tx.rel := tx.rel.(manifestFiles := tx.rel.manifestFiles + [row]);
      return false;
    }

    /** One list for each snapshot. */
    method InsertManifestListTx(tx: Tx, sid: int, tableId: int, count: int) returns (err: bool)
      modifies tx
      ensures err <==> sid in old(tx.rel).manifestLists || tableId !in TableIds(old(tx.rel)) || sid !in old(tx.rel).snapshots
      ensures tx.rel == if err then old(tx.rel)
                        else old(tx.rel).(manifestLists := old(tx.rel).manifestLists[sid := ManifestList(tableId, count)])
    {
      if sid in tx.rel.manifestLists || tableId !in TableIds(tx.rel) || sid !in tx.rel.snapshots {
        return true;
      }
      tx.rel := tx.rel.(manifestLists := tx.rel.manifestLists[sid := ManifestList(tableId, count)]);
      return false;
    }

    /** An update that finds no row is no error. */
    method UpdateTableSnapshotTx(tx: Tx, name: string, sid: int)
      modifies tx
      ensures tx.rel == if Live(old(tx.rel), name).None? then old(tx.rel)
                        else old(tx.rel).(tables := old(tx.rel).tables[name := old(tx.rel).tables[name].(current := sid)])
    {
      if Live(tx.rel, name).Some? {
        tx.rel := tx.rel.(tables := tx.rel.tables[name := tx.rel.tables[name].(current := sid)]);
      }
    }

    // ----- the statements of the table operations

    /** A taken name inserts nothing, but an id is drawn all the same. */
    method CreateTableTx(tx: Tx, name: string, schema: string, spec: Option<Spec>) returns (err: bool, id: int, created: bool)
      modifies tx, this`seqs
      ensures err <==> spec.None? || old(seqs.table) >= TWO_63
      ensures err ==> !created && tx.rel == old(tx.rel) && seqs == old(seqs)
      ensures !err ==>
                && seqs == old(seqs).(table := old(seqs.table) + 1)
                && (created <==> name !in old(tx.rel).tables)
                && (created ==> id == old(seqs.table))
                && (created ==> tx.rel == old(tx.rel).(tables := old(tx.rel).tables[name := TableRow(id, schema, 1, spec.value, 1, 0, false)]))
                && (!created ==> tx.rel == old(tx.rel))
    {
      id, created := 0, false;
      err := spec.None? || seqs.table >= TWO_63;
      if !err {
        var next := seqs.table;
        seqs := seqs.(table := next + 1);
        if name !in tx.rel.tables {
          id, created := next, true;
          tx.rel := tx.rel.(tables := tx.rel.tables[name := TableRow(id, schema, 1, spec.value, 1, 0, false)]);
        }
      }
    }

    method InsertPartitionSpecTx(tx: Tx, tableId: int, version: int, spec: Spec) returns (err: bool)
      modifies tx
      ensures err <==> (tableId, version) in old(tx.rel).specs || tableId !in TableIds(old(tx.rel))
      ensures tx.rel == if err then old(tx.rel) else old(tx.rel).(specs := old(tx.rel).specs[(tableId, version) := spec])
    {
      if (tableId, version) in tx.rel.specs || tableId !in TableIds(tx.rel) {
        return true;
      }
      tx.rel := tx.rel.(specs := tx.rel.specs[(tableId, version) := spec]);
      return false;
    }

    method UpdateTablePartitionSpecTx(tx: Tx, name: string, spec: Spec, version: int)
      modifies tx
      ensures tx.rel == if Live(old(tx.rel), name).None? then old(tx.rel)
                        else old(tx.rel).(tables := old(tx.rel).tables[name := old(tx.rel).tables[name].(spec := spec, specVersion := version)])
    {
      if Live(tx.rel, name).Some? {
        tx.rel := tx.rel.(tables := tx.rel.tables[name := tx.rel.tables[name].(spec := spec, specVersion := version)]);
      }
    }

    /** Update, look-up of the id, insert into the history. */
    method UpdateTableSchema(tx: Tx, name: string, schema: string, version: int) returns (err: bool)
      modifies tx
      ensures err <==> Live(old(tx.rel), name).None?
      ensures err ==> tx.rel == old(tx.rel)
      ensures !err ==> var t := old(tx.rel).tables[name];
                tx.rel == old(tx.rel).(tables := old(tx.rel).tables[name := t.(schema := schema, schemaVersion := version)],
                                       schemas := old(tx.rel).schemas + [SchemaRow(t.id, version, schema)])
    {
      if Live(tx.rel, name).Some? {
        tx.rel := tx.rel.(tables := tx.rel.tables[name := tx.rel.tables[name].(schema := schema, schemaVersion := version)]);
      }
      if Live(tx.rel, name).None? {
        return true;
      }
      tx.rel := tx.rel.(schemas := tx.rel.schemas + [SchemaRow(tx.rel.tables[name].id, version, schema)]);
      return false;
    }

    /** A single statement outside any transaction; the unique key on names can refuse it. */
    method RenameTable(from: string, to: string) returns (err: bool, ok: bool)
      modifies this`rel
      ensures !err && ok <==> Catalog.Rename(old(rel), from, to).Some?
      ensures rel == if !err && ok then Catalog.Rename(old(rel), from, to).value else old(rel)
    {
      err, ok := false, false;
      if Live(rel, from).Some? {
        if to in rel.tables && to != from {
          err := true;
        } else {
          rel := rel.(tables := (rel.tables - {from})[to := rel.tables[from]]);
          ok := true;
        }
      }
    }

    method InsertTransaction(tableId: int, readSnapshot: int) returns (err: bool)
      modifies this`rel
      ensures err <==> Begin(old(rel), tableId, readSnapshot).None?
      ensures rel == if err then old(rel) else Begin(old(rel), tableId, readSnapshot).value
    {
      if tableId !in TableIds(rel) {
        return true;
      }
      rel := rel.(transactions := rel.transactions + [TxnRow(tableId, readSnapshot)]);
      return false;
    }

    // ----- dropping

    /**
      The k-th delete statement of a purge, refused if it would leave a reference
      without its row. Its own target is what `left` and the rows before it differ in.
     */
    method Delete(tx: Tx, left: Relations, ghost start: Relations, ghost name: string, ghost id: int, ghost k: nat) returns (err: bool)
      requires left == AfterDeletes(start, name, id, k)
      modifies tx
      ensures err <==> !ForeignKeysHold(AfterDeletes(start, name, id, k))
      ensures !err ==> tx.rel == AfterDeletes(start, name, id, k)
    {
      if !ForeignKeysHold(left) {
        return true;
      }
      tx.rel := left;
      return false;
    }

    method DeleteRows(tx: Tx, name: string, id: int) returns (err: bool)
      modifies tx
      ensures err <==> exists k :: 1 <= k <= DELETES && !ForeignKeysHold(AfterDeletes(old(tx.rel), name, id, k))
      ensures !err ==> tx.rel == AfterDeletes(old(tx.rel), name, id, DELETES)
    {
      ghost var start := tx.rel;
      err := Delete(tx, tx.rel.(manifestFiles := OtherManifests(tx.rel.manifestFiles, id)), start, name, id, 1);
      if err { return; }
      err := Delete(tx, tx.rel.(manifestLists := OtherLists(tx.rel.manifestLists, id)), start, name, id, 2);
      if err { return; }
      err := Delete(tx, tx.rel.(partitions := OtherPartitions(tx.rel.partitions, id)), start, name, id, 3);
      if err { return; }
      err := Delete(tx, tx.rel.(snapshots := OtherSnapshots(tx.rel.snapshots, id)), start, name, id, 4);
      if err { return; }
      err := Delete(tx, tx.rel.(schemas := OtherSchemas(tx.rel.schemas, id)), start, name, id, 5);
      if err { return; }
      err := Delete(tx, tx.rel.(specs := OtherSpecs(tx.rel.specs, id)), start, name, id, 6);
      if err { return; }
      err := Delete(tx, tx.rel.(tables := tx.rel.tables - {name}), start, name, id, 7);
    }

    /** With `purge` seven deletes in order, without it a mark on the row. */
    method DropTable(tx: Tx, name: string, purge: bool) returns (err: bool, ok: bool)
      requires ForeignKeysHold(tx.rel)
      modifies tx
      ensures !err && ok <==> Catalog.Drop(old(tx.rel), name, purge).Some?
      ensures !err && ok ==> tx.rel == Catalog.Drop(old(tx.rel), name, purge).value
    {
      err, ok := false, false;
      if Live(tx.rel, name).None? {
        return;
      }
      if purge {
        assert AfterDeletes(tx.rel, name, tx.rel.tables[name].id, 0) == tx.rel;
        err := DeleteRows(tx, name, tx.rel.tables[name].id);
        ok := !err;
      } else {
        tx.rel := tx.rel.(tables := tx.rel.tables[name := tx.rel.tables[name].(deleted := true)]);
        ok := true;
      }
    }
  }
}
