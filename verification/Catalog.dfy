/** The effects of the table operations on the relations. `None` is a failed, rolled-back transaction. */
module Catalog {
  import opened Words
  import opened Tables
  import opened PartitionSpecs

  /** An empty spec text is no JSON value, so the insert fails; so does a taken name, deleted or not. */
  function Create(rel: Relations, name: string, id: int, schema: string, spec: Option<Spec>): Option<Relations> {
    if spec.None? || name in rel.tables then None
    else Some(rel.(tables := rel.tables[name := TableRow(id, schema, 1, spec.value, 1, 0, false)],
                   specs := rel.specs[(id, 1) := spec.value]))
  }

  /** The spec history has a unique key, which a second row of the same version would violate. */
  function AlterSpec(rel: Relations, name: string, spec: Spec): Option<Relations> {
    match Live(rel, name)
    case None => None
    case Some(t) =>
      if (t.id, t.specVersion + 1) in rel.specs then None
      else Some(rel.(tables := rel.tables[name := t.(spec := spec, specVersion := t.specVersion + 1)],
                     specs := rel.specs[(t.id, t.specVersion + 1) := spec]))
  }

  function AlterSchema(rel: Relations, name: string, schema: string): Option<Relations> {
    match Live(rel, name)
    case None => None
    case Some(t) =>
      Some(rel.(tables := rel.tables[name := t.(schema := schema, schemaVersion := t.schemaVersion + 1)],
                schemas := rel.schemas + [SchemaRow(t.id, t.schemaVersion + 1, schema)]))
  }

  /** Fails on an unknown table and on a new name that any row already has. */
  function Rename(rel: Relations, from: string, to: string): Option<Relations> {
    if Live(rel, from).None? || (to in rel.tables && to != from) then None
    else Some(rel.(tables := (rel.tables - {from})[to := rel.tables[from]]))
  }

  /** The transaction row refers to the table id read earlier. */
  function Begin(rel: Relations, tableId: int, readSnapshot: int): Option<Relations> {
    if tableId in TableIds(rel) then Some(rel.(transactions := rel.transactions + [TxnRow(tableId, readSnapshot)]))
    else None
  }

  // ----- what the operations do, row by row

  ghost predicate OtherNames(rel: Relations, rel': Relations, names: set<string>) {
    forall n :: n !in names ==> (n in rel'.tables <==> n in rel.tables) && (n in rel.tables ==> rel'.tables[n] == rel.tables[n])
  }

  /** A creation needs a spec and a name that no row has, and stores both texts of the request as the first versions. */
  lemma CreateMeans(rel: Relations, name: string, id: int, schema: string, spec: Option<Spec>)
    ensures Create(rel, name, id, schema, spec).Some? <==> spec.Some? && name !in rel.tables
    ensures Create(rel, name, id, schema, spec).Some? ==>
              var rel' := Create(rel, name, id, schema, spec).value;
              && OtherNames(rel, rel', {name}) && Live(rel', name).Some?
              && var t := rel'.tables[name];
                 && t.id == id && t.schema == schema && t.spec == spec.value
                 && t.schemaVersion == 1 && t.specVersion == 1 && t.current == 0
                 && (id, 1) in rel'.specs && rel'.specs[(id, 1)] == spec.value
  {
  }

  /** A spec change needs a live table and stores the proposed spec as its next version, in the table and in the history. */
  lemma AlterSpecMeans(rel: Relations, name: string, spec: Spec)
    requires AlterSpec(rel, name, spec).Some?
    ensures var rel' := AlterSpec(rel, name, spec).value;
            && Live(rel, name).Some? && Live(rel', name).Some? && OtherNames(rel, rel', {name})
            && var t, u := rel.tables[name], rel'.tables[name];
               && u.spec == spec && u.specVersion == t.specVersion + 1
               && u.id == t.id && u.schema == t.schema && u.schemaVersion == t.schemaVersion && u.current == t.current
               && (t.id, t.specVersion + 1) !in rel.specs && (t.id, t.specVersion + 1) in rel'.specs
               && rel'.specs[(t.id, t.specVersion + 1)] == spec
               && forall k :: k in rel.specs ==> k in rel'.specs && rel'.specs[k] == rel.specs[k]
  {
  }

  /** A schema change needs a live table; the table and the last row of the history carry the text of the request. */
  lemma AlterSchemaMeans(rel: Relations, name: string, schema: string)
    ensures AlterSchema(rel, name, schema).Some? <==> name in rel.tables && !rel.tables[name].deleted
    ensures AlterSchema(rel, name, schema).Some? ==>
              var rel' := AlterSchema(rel, name, schema).value;
              && Live(rel', name).Some? && OtherNames(rel, rel', {name})
              && var t, u := rel.tables[name], rel'.tables[name];
                 && u.schema == schema && u.schemaVersion == t.schemaVersion + 1
                 && u.id == t.id && u.spec == t.spec && u.specVersion == t.specVersion && u.current == t.current
                 && |rel'.schemas| == |rel.schemas| + 1 && rel'.schemas[..|rel.schemas|] == rel.schemas
                 && var r := rel'.schemas[|rel.schemas|]; r.schema == schema && r.tableId == t.id && r.version == t.schemaVersion + 1
  {
  }

  /** A rename needs a live table and a name that no other row has; the row moves as it is. */
  lemma RenameMeans(rel: Relations, from: string, to: string)
    requires from != to
    ensures Rename(rel, from, to).Some? <==> from in rel.tables && !rel.tables[from].deleted && to !in rel.tables
    ensures Rename(rel, from, to).Some? ==>
              var rel' := Rename(rel, from, to).value;
              && OtherNames(rel, rel', {from, to}) && from !in rel'.tables && to in rel'.tables && rel'.tables[to] == rel.tables[from]
              && rel' == rel.(tables := rel'.tables)
  {
  }

  /** A drop without purge needs a live table; the row stays under its name, only marked. */
  lemma SoftDropMeans(rel: Relations, name: string)
    ensures Drop(rel, name, false).Some? <==> name in rel.tables && !rel.tables[name].deleted
    ensures Drop(rel, name, false).Some? ==>
              var rel' := Drop(rel, name, false).value;
              && OtherNames(rel, rel', {name}) && name in rel'.tables && rel'.tables[name].deleted
              && rel'.tables[name].(deleted := false) == rel.tables[name]
              && rel' == rel.(tables := rel'.tables) && Live(rel', name).None?
  {
  }

  /** A transaction is recorded with its table and the snapshot it reads, behind those before it. */
  lemma BeginMeans(rel: Relations, tableId: int, readSnapshot: int)
    ensures Begin(rel, tableId, readSnapshot).Some? <==> exists n :: n in rel.tables && rel.tables[n].id == tableId
    ensures Begin(rel, tableId, readSnapshot).Some? ==>
              var rel' := Begin(rel, tableId, readSnapshot).value;
              && |rel'.transactions| == |rel.transactions| + 1 && rel'.transactions[..|rel.transactions|] == rel.transactions
              && rel'.transactions[|rel.transactions|].tableId == tableId
              && rel'.transactions[|rel.transactions|].readSnapshot == readSnapshot
              && rel' == rel.(transactions := rel'.transactions)
  {
  }

  // ----- dropping: what deleting the rows of one table id keeps of each relation

  function OtherManifests(ms: seq<ManifestFile>, id: int): seq<ManifestFile> {
    if ms == [] then []
    else OtherManifests(ms[..|ms| - 1], id) + if ms[|ms| - 1].tableId == id then [] else [ms[|ms| - 1]]
  }

  function OtherLists(lists: map<int, ManifestList>, id: int): map<int, ManifestList> {
    map s | s in lists && lists[s].tableId != id :: lists[s]
  }

  function OtherPartitions(m: map<int, PartRow>, id: int): map<int, PartRow> {
    map p | p in m && m[p].part.tableId != id :: m[p]
  }

  function OtherSnapshots(snapshots: map<int, SnapshotRow>, id: int): map<int, SnapshotRow> {
    map s | s in snapshots && snapshots[s].tableId != id :: snapshots[s]
  }

  function OtherSchemas(rows: seq<SchemaRow>, id: int): seq<SchemaRow> {
    if rows == [] then []
    else OtherSchemas(rows[..|rows| - 1], id) + if rows[|rows| - 1].tableId == id then [] else [rows[|rows| - 1]]
  }

  function OtherSpecs(specs: map<(int, int), Spec>, id: int): map<(int, int), Spec> {
    map k | k in specs && k.0 != id :: specs[k]
  }

  const DELETES: nat := 7

  /**
    The relations after the first `k` delete statements of a purge: manifest files,
    manifest lists, partitions, snapshots, schema history, specs, the table.
   */
  function AfterDeletes(rel: Relations, name: string, id: int, k: nat): Relations {
    Relations(
      if k >= 7 then rel.tables - {name} else rel.tables,
      if k >= 4 then OtherSnapshots(rel.snapshots, id) else rel.snapshots,
      if k >= 3 then OtherPartitions(rel.partitions, id) else rel.partitions,
      if k >= 1 then OtherManifests(rel.manifestFiles, id) else rel.manifestFiles,
      if k >= 2 then OtherLists(rel.manifestLists, id) else rel.manifestLists,
      if k >= 6 then OtherSpecs(rel.specs, id) else rel.specs,
      if k >= 5 then OtherSchemas(rel.schemas, id) else rel.schemas,
      rel.transactions)
  }

  /** Each statement is checked against the foreign keys; the first violation rolls everything back. */
  function Purge(rel: Relations, name: string): Option<Relations> {
    match Live(rel, name)
    case None => None
    case Some(t) =>
      if forall k | 0 <= k <= DELETES :: ForeignKeysHold(AfterDeletes(rel, name, t.id, k))
      then Some(AfterDeletes(rel, name, t.id, DELETES))
      else None
  }

  function Drop(rel: Relations, name: string, purge: bool): Option<Relations> {
    if purge then Purge(rel, name)
    else
      match Live(rel, name)
      case None => None
      case Some(t) => Some(rel.(tables := rel.tables[name := t.(deleted := true)]))
  }
}
