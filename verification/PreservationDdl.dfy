/** The table operations - create, alter, rename, drop, begin - keep `Good`. */
module PreservationDdl {
  import opened Words
  import opened Sorting
  import opened Tables
  import opened Catalog
  import opened History
  import opened PartitionSpecs
  import opened Invariants
  import opened Preservation

  // ----- create

  lemma NoRows(m: map<int, PartRow>, snapshots: map<int, SnapshotRow>, ids: set<int>, id: int)
    requires PartitionsRefer(m, snapshots, ids) && id !in ids
    ensures RowsOf(m, id) == []
  {
    forall p | p in m
      ensures m[p].part.tableId != id
    {
      assert PartRefers(m[p].part, snapshots, ids);
    }
    SortedIsSorted(IdsOf(m, id));
    assert |Sorted(IdsOf(m, id))| == 0;
  }

  lemma {:induction false} NoSchemas(rows: seq<SchemaRow>, ids: set<int>, id: int)
    requires (forall r :: r in rows ==> r.tableId in ids) && id !in ids
    ensures SchemasOf(rows, id) == []
  {
    if rows != [] {
      assert rows[|rows| - 1] in rows;
      NoSchemas(rows[..|rows| - 1], ids, id);
    }
  }

  /** A new table starts with an empty history. */
  lemma CreatedTable(rel: Relations, rel': Relations, t: TableRow)
    requires References(rel) && t.id !in TableIds(rel)
    requires t.schemaVersion == 1 && t.specVersion == 1 && t.current == 0
    requires rel' == rel.(tables := rel'.tables, specs := rel.specs[(t.id, 1) := t.spec])
    ensures TableOk(rel', [], t)
  {
    NoRows(rel.partitions, rel.snapshots, TableIds(rel), t.id);
    NoSchemas(rel.schemas, TableIds(rel), t.id);
  }

  lemma CreateKeepsGood(db: Db, name: string, schema: string, spec: Option<Spec>, db': Db)
    requires Good(db) && CreateStep(db, name, schema, spec, db')
    ensures Good(db')
  {
    NewTableId(db);
    CreatedTable(db.rel, db'.rel, db'.rel.tables[name]);
    GrowTableIds(db.rel, db'.rel, name);
    CreateReferences(db.rel, db'.rel, name);
    CreateOthers(db, name, schema, spec, db');
    CreateIdsOk(db, name, schema, spec, db');
  }

  lemma NewTableId(db: Db)
    requires IdsOk(db)
    ensures db.seqs.table !in TableIds(db.rel)
  {
  }

  lemma CreateIdsOk(db: Db, name: string, schema: string, spec: Option<Spec>, db': Db)
    requires IdsOk(db) && CreateStep(db, name, schema, spec, db')
    ensures IdsOk(db')
  {
  }

  lemma CreateOthers(db: Db, name: string, schema: string, spec: Option<Spec>, db': Db)
    requires IdsOk(db) && TablesOk(db.rel, db.logs) && CreateStep(db, name, schema, spec, db')
    requires TableOk(db'.rel, [], db'.rel.tables[name])
    ensures TablesOk(db'.rel, db'.logs)
  {
    forall n | n in db'.rel.tables && n != name
      ensures Untouched(db.rel, db'.rel, db.logs, db'.logs, n)
    {
      OtherSpec(db.rel, db'.rel, (db.seqs.table, 1), spec.value, db.rel.tables[n].id, db.logs[db.rel.tables[n].id]);
    }
    TablesFrame(db.rel, db'.rel, db.logs, db'.logs, name);
  }

  lemma GrowTableIds(rel: Relations, rel': Relations, name: string)
    requires name !in rel.tables && name in rel'.tables && rel'.tables == rel.tables[name := rel'.tables[name]]
    ensures TableIds(rel') == TableIds(rel) + {rel'.tables[name].id}
  {
    forall id
      ensures id in TableIds(rel') <==> id in TableIds(rel) || id == rel'.tables[name].id
    {
      if id in TableIds(rel) {
        var n :| n in rel.tables && rel.tables[n].id == id;
        assert rel'.tables[n].id == id;
      }
    }
  }

  lemma CreateReferences(rel: Relations, rel': Relations, name: string)
    requires References(rel) && name in rel'.tables && TableIds(rel') == TableIds(rel) + {rel'.tables[name].id}
    requires rel' == rel.(tables := rel'.tables, specs := rel.specs[(rel'.tables[name].id, 1) := rel'.tables[name].spec])
    ensures References(rel')
  {
    forall p | p in rel'.partitions
      ensures PartRefers(rel'.partitions[p].part, rel'.snapshots, TableIds(rel'))
    {
      assert PartRefers(rel.partitions[p].part, rel.snapshots, TableIds(rel));
    }
  }

  // ----- alter

  /** No other row has the id of this one. */
  ghost predicate Alone(rel: Relations, name: string)
    requires name in rel.tables
  {
    forall n :: n in rel.tables && n != name ==> rel.tables[n].id != rel.tables[name].id
  }

  lemma NextVersionIsFree(db: Db, name: string)
    requires TablesOk(db.rel, db.logs) && name in db.rel.tables
    ensures (db.rel.tables[name].id, db.rel.tables[name].specVersion + 1) !in db.rel.specs
  {
    assert SpecsOk(db.rel.specs, db.rel.tables[name]);
  }

  lemma AlterSpecKeepsGood(db: Db, name: string, spec: Spec)
    requires Good(db) && Live(db.rel, name).Some?
    ensures AlterSpec(db.rel, name, spec).Some?
    ensures Good(db.(rel := AlterSpec(db.rel, name, spec).value))
  {
    NextVersionIsFree(db, name);
    UpdateIdsOk(db, AlterSpec(db.rel, name, spec).value, name);
    AlteredReferences(db.rel, name, spec);
    AlterSpecTables(db, name, spec);
  }

  lemma AlteredReferences(rel: Relations, name: string, spec: Spec)
    requires References(rel) && AlterSpec(rel, name, spec).Some?
    ensures References(AlterSpec(rel, name, spec).value)
  {
    var t, rel' := rel.tables[name], AlterSpec(rel, name, spec).value;
    SameTableIds(rel.tables, name, rel'.tables[name], rel, rel');
    AlterSpecReferences(rel, rel', (t.id, t.specVersion + 1), spec);
  }

  /** Replacing a table row by one with the same id leaves the ids in order. */
  lemma UpdateIdsOk(db: Db, rel: Relations, name: string)
    requires IdsOk(db) && name in db.rel.tables && name in rel.tables && rel.tables[name].id == db.rel.tables[name].id
    requires rel.tables == db.rel.tables[name := rel.tables[name]]
    requires rel.snapshots == db.rel.snapshots && rel.partitions == db.rel.partitions
    ensures IdsOk(db.(rel := rel))
  {
  }

  lemma AlterSpecReferences(rel: Relations, rel': Relations, key: (int, int), spec: Spec)
    requires References(rel) && TableIds(rel') == TableIds(rel) && key.0 in TableIds(rel)
    requires rel' == rel.(tables := rel'.tables, specs := rel.specs[key := spec])
    ensures References(rel')
  {
  }

  lemma AlterSpecTables(db: Db, name: string, spec: Spec)
    requires AlterSpec(db.rel, name, spec).Some? && Alone(db.rel, name) && TablesOk(db.rel, db.logs)
    ensures TablesOk(AlterSpec(db.rel, name, spec).value, db.logs)
  {
    var t := db.rel.tables[name];
    var rel := AlterSpec(db.rel, name, spec).value;
    AlteredSpec(db.rel, db.logs[t.id], t, spec, rel);
    forall n | n in rel.tables && n != name
      ensures Untouched(db.rel, rel, db.logs, db.logs, n)
    {
      OtherSpec(db.rel, rel, (t.id, t.specVersion + 1), spec, db.rel.tables[n].id, db.logs[db.rel.tables[n].id]);
    }
    TablesFrame(db.rel, rel, db.logs, db.logs, name);
  }

  lemma OtherSpec(rel: Relations, rel': Relations, key: (int, int), spec: Spec, id: int, log: Log)
    requires rel' == rel.(tables := rel'.tables, specs := rel.specs[key := spec]) && id != key.0
    ensures SameFor(rel, rel', id, log)
  {
  }

  lemma AlteredSpec(rel: Relations, log: Log, t: TableRow, spec: Spec, rel': Relations)
    requires TableOk(rel, log, t)
    requires rel' == rel.(tables := rel'.tables, specs := rel.specs[(t.id, t.specVersion + 1) := spec])
    ensures TableOk(rel', log, t.(spec := spec, specVersion := t.specVersion + 1))
  {
  }

  lemma AlterSchemaKeepsGood(db: Db, name: string, schema: string)
    requires Good(db) && Live(db.rel, name).Some?
    ensures Good(db.(rel := AlterSchema(db.rel, name, schema).value))
  {
    var rel := AlterSchema(db.rel, name, schema).value;
    UpdateIdsOk(db, rel, name);
    SameTableIds(db.rel.tables, name, rel.tables[name], db.rel, rel);
    AlterSchemaReferences(db.rel, rel, SchemaRow(db.rel.tables[name].id, db.rel.tables[name].schemaVersion + 1, schema));
    AlterSchemaTables(db, name, schema);
  }

  lemma AlterSchemaTables(db: Db, name: string, schema: string)
    requires Live(db.rel, name).Some? && Alone(db.rel, name) && TablesOk(db.rel, db.logs)
    ensures TablesOk(AlterSchema(db.rel, name, schema).value, db.logs)
  {
    var t := db.rel.tables[name];
    var rel := AlterSchema(db.rel, name, schema).value;
    var row := SchemaRow(t.id, t.schemaVersion + 1, schema);
    AlteredSchema(db.rel, rel, db.logs[t.id], t, row);
    forall n | n in rel.tables && n != name
      ensures Untouched(db.rel, rel, db.logs, db.logs, n)
    {
      OtherSchema(db.rel, rel, row, db.rel.tables[n].id, db.logs[db.rel.tables[n].id]);
    }
    TablesFrame(db.rel, rel, db.logs, db.logs, name);
  }

  lemma OtherSchema(rel: Relations, rel': Relations, row: SchemaRow, id: int, log: Log)
    requires rel' == rel.(tables := rel'.tables, schemas := rel.schemas + [row]) && id != row.tableId
    ensures SameFor(rel, rel', id, log)
  {
    SchemasAppend(rel.schemas, row, id);
  }

  lemma AlterSchemaReferences(rel: Relations, rel': Relations, row: SchemaRow)
    requires References(rel) && TableIds(rel') == TableIds(rel) && row.tableId in TableIds(rel)
    requires rel' == rel.(tables := rel'.tables, schemas := rel.schemas + [row])
    ensures References(rel')
  {
  }

  lemma AlteredSchema(rel: Relations, rel': Relations, log: Log, t: TableRow, row: SchemaRow)
    requires TableOk(rel, log, t) && row.tableId == t.id && row.version == t.schemaVersion + 1
    requires rel' == rel.(tables := rel'.tables, schemas := rel.schemas + [row])
    ensures TableOk(rel', log, t.(schema := row.schema, schemaVersion := row.version))
  {
    SchemasAppend(rel.schemas, row, t.id);
  }

  lemma SchemasAppend(rows: seq<SchemaRow>, row: SchemaRow, id: int)
    ensures SchemasOf(rows + [row], id) == if row.tableId == id then SchemasOf(rows, id) + [row] else SchemasOf(rows, id)
  {
    assert (rows + [row])[..|rows|] == rows;
  }

  // ----- rename

  lemma RenameKeepsGood(db: Db, from: string, to: string)
    requires Good(db) && Rename(db.rel, from, to).Some?
    ensures Good(db.(rel := Rename(db.rel, from, to).value))
  {
    var rel := Rename(db.rel, from, to).value;
    RenameTableIds(db.rel, from, to);
    RenameIdsOk(db, from, to);
    RenameTables(db, from, to);
  }

  lemma RenameTableIds(rel: Relations, from: string, to: string)
    requires Rename(rel, from, to).Some?
    ensures TableIds(Rename(rel, from, to).value) == TableIds(rel)
  {
    var rel' := Rename(rel, from, to).value;
    forall id
      ensures id in TableIds(rel') <==> id in TableIds(rel)
    {
      if id in TableIds(rel') {
        var n :| n in rel'.tables && rel'.tables[n].id == id;
        assert rel.tables[if n == to then from else n].id == id;
      }
      if id in TableIds(rel) {
        var n :| n in rel.tables && rel.tables[n].id == id;
        assert rel'.tables[if n == from then to else n].id == id;
      }
    }
  }

  lemma RenameIdsOk(db: Db, from: string, to: string)
    requires IdsOk(db) && Rename(db.rel, from, to).Some?
    ensures IdsOk(db.(rel := Rename(db.rel, from, to).value))
  {
    var rel := Rename(db.rel, from, to).value;
    forall m, n | m in rel.tables && n in rel.tables && rel.tables[m].id == rel.tables[n].id
      ensures m == n
    {
      var m', n' := if m == to then from else m, if n == to then from else n;
      assert db.rel.tables[m'].id == db.rel.tables[n'].id;
    }
  }

  lemma RenameTables(db: Db, from: string, to: string)
    requires TablesOk(db.rel, db.logs) && Rename(db.rel, from, to).Some?
    ensures TablesOk(Rename(db.rel, from, to).value, db.logs)
  {
    var rel := Rename(db.rel, from, to).value;
    var t := db.rel.tables[from];
    TableFrame(db.rel, rel, db.logs[t.id], t);
    forall n | n in rel.tables && n != to
      ensures Untouched(db.rel, rel, db.logs, db.logs, n)
    {
    }
    TablesFrame(db.rel, rel, db.logs, db.logs, to);
  }

  // ----- begin

  lemma BeginKeepsGood(db: Db, tableId: int, readSnapshot: int)
    requires Good(db) && Begin(db.rel, tableId, readSnapshot).Some?
    ensures Good(db.(rel := Begin(db.rel, tableId, readSnapshot).value))
  {
    var rel := Begin(db.rel, tableId, readSnapshot).value;
    assert TableIds(rel) == TableIds(db.rel);
    BeginReferences(db.rel, rel, TxnRow(tableId, readSnapshot));
    SameStore(db.rel, rel, db.logs);
  }

  /** Relations that agree on everything the histories read. */
  lemma SameStore(rel: Relations, rel': Relations, logs: map<int, Log>)
    requires TablesOk(rel, logs) && rel'.tables == rel.tables && rel' == rel.(transactions := rel'.transactions)
    ensures TablesOk(rel', logs)
  {
    forall n | n in rel'.tables
      ensures TableOk(rel', logs[rel'.tables[n].id], rel'.tables[n])
    {
      TableFrame(rel, rel', logs[rel.tables[n].id], rel.tables[n]);
    }
  }

  lemma BeginReferences(rel: Relations, rel': Relations, row: TxnRow)
    requires References(rel) && TableIds(rel') == TableIds(rel) && row.tableId in TableIds(rel)
    requires rel' == rel.(transactions := rel.transactions + [row])
    ensures References(rel')
  {
  }

  // ----- drop

  lemma SoftDropKeepsGood(db: Db, name: string)
    requires Good(db) && Live(db.rel, name).Some?
    ensures Good(db.(rel := Drop(db.rel, name, false).value))
  {
    var rel := Drop(db.rel, name, false).value;
    UpdateIdsOk(db, rel, name);
    SameTableIds(db.rel.tables, name, rel.tables[name], db.rel, rel);
    SoftDropTables(db, name);
  }

  /** A change of table rows alone. */
  lemma SameHistories(rel: Relations, rel': Relations, id: int, log: Log)
    requires rel' == rel.(tables := rel'.tables)
    ensures SameFor(rel, rel', id, log)
  {
  }

  lemma SoftDropTables(db: Db, name: string)
    requires TablesOk(db.rel, db.logs) && Live(db.rel, name).Some?
    ensures TablesOk(Drop(db.rel, name, false).value, db.logs)
  {
    var t := db.rel.tables[name];
    var rel := Drop(db.rel, name, false).value;
    TableFrame(db.rel, rel, db.logs[t.id], t);
    RowFrame(rel, db.logs[t.id], t, rel.tables[name]);
    forall n | n in rel.tables && n != name
      ensures Untouched(db.rel, rel, db.logs, db.logs, n)
    {
      SameHistories(db.rel, rel, db.rel.tables[n].id, db.logs[db.rel.tables[n].id]);
    }
    TablesFrame(db.rel, rel, db.logs, db.logs, name);
  }
}
