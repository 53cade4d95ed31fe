/** The catalog's relations and the selects over them. */
module Tables {
  import opened Words
  import opened Sorting
  import opened ColumnBounds
  import opened PartitionSpecs

  datatype DataFile = DataFile(
    key: string,
    path: string,
    format: string,
    rowCount: int,
    sizeBytes: int,
    stats: seq<ColumnStats>)

  /** What a select on `partitions` returns: the deletion columns are not part of it. */
  datatype Part = Part(id: int, tableId: int, snapshotId: int, file: DataFile)

  /** A stored row; `deletedAt` is `None` while `is_deleted` is false. */
  datatype PartRow = PartRow(part: Part, deletedAt: Option<int>)

  datatype TableRow = TableRow(
    id: int,
    schema: string,
    schemaVersion: int,
    spec: Spec,
    specVersion: int,
    current: int,
    deleted: bool)

  datatype SnapshotRow = SnapshotRow(tableId: int, parent: int, operation: string, addedFiles: int, deletedFiles: int)

  datatype ManifestFile = ManifestFile(
    tableId: int,
    snapshotId: int,
    path: string,
    specVersion: int,
    addedFiles: int,
    deletedFiles: int,
    addedRows: int,
    deletedRows: int,
    summaries: seq<string>)

  datatype ManifestList = ManifestList(tableId: int, count: int)

  datatype SchemaRow = SchemaRow(tableId: int, version: int, schema: string)

  datatype TxnRow = TxnRow(tableId: int, readSnapshot: int)

  /**
    The stored relations. Where SQL declares a unique key the relation is a map on
    that key: table name, snapshot id, partition id, the snapshot of a manifest
    list, and (table id, version) of a spec.
   */
  datatype Relations = Relations(
    tables: map<string, TableRow>,
    snapshots: map<int, SnapshotRow>,
    partitions: map<int, PartRow>,
    manifestFiles: seq<ManifestFile>,
    manifestLists: map<int, ManifestList>,
    specs: map<(int, int), Spec>,
    schemas: seq<SchemaRow>,
    transactions: seq<TxnRow>)

  /** The next values of the id sequences. They are never given back. */
  datatype Sequences = Sequences(table: int, snapshot: int, partition: int)

  const EMPTY_RELATIONS := Relations(map[], map[], map[], [], map[], map[], [], [])
  const FIRST_SEQUENCES := Sequences(1, 1, 1)

  // ----- selects on tables

  /** The row of the name, unless it is marked deleted. */
  function Live(rel: Relations, name: string): Option<TableRow> {
    if name in rel.tables && !rel.tables[name].deleted then Some(rel.tables[name]) else None
  }

  function CurrentSnapshot(rel: Relations, name: string): int {
    match Live(rel, name)
    case None => 0
    case Some(t) => if t.current < 0 then 0 else t.current
  }

  // ----- selects on partitions

  function IdsOf(m: map<int, PartRow>, tableId: int): set<int> {
    set id | id in m && m[id].part.tableId == tableId
  }

  function Pick(m: map<int, PartRow>, ids: seq<int>): (rows: seq<PartRow>)
    requires forall i :: 0 <= i < |ids| ==> ids[i] in m
    ensures |rows| == |ids| && forall i :: 0 <= i < |ids| ==> rows[i] == m[ids[i]]
  {
    seq(|ids|, i requires 0 <= i < |ids| => m[ids[i]])
  }

  /** All partition rows of a table id, deleted ones included, in the order of their ids. */
  function RowsOf(m: map<int, PartRow>, tableId: int): seq<PartRow> {
    SortedIsSorted(IdsOf(m, tableId));
    Pick(m, Sorted(IdsOf(m, tableId)))
  }

  /** Added no later than `s`, and not deleted or deleted only after `s`. */
  predicate VisibleAt(r: PartRow, s: int) {
    r.part.snapshotId <= s && (r.deletedAt.None? || r.deletedAt.value > s)
  }

  function Visible(rows: seq<PartRow>, s: int): seq<Part> {
    if rows == [] then []
    else Visible(rows[..|rows| - 1], s)
         + if VisibleAt(rows[|rows| - 1], s) then [rows[|rows| - 1].part] else []
  }

  function QueryById(rel: Relations, tableId: int, s: int): seq<Part> {
    Visible(RowsOf(rel.partitions, tableId), s)
  }

  /** `QueryPartitions`: nothing at all for an unknown table, otherwise the visible rows in order. */
  function QueryPartitions(rel: Relations, name: string, snapshot: uint64): Option<seq<Part>> {
    match Live(rel, name)
    case None => None
    case Some(t) => Some(QueryById(rel, t.id, AsInt64(snapshot)))
  }

  function After(parts: seq<Part>, lastId: int): seq<Part> {
    if parts == [] then []
    else (if parts[0].id > lastId then [parts[0]] else []) + After(parts[1..], lastId)
  }

  function Limit<T>(s: seq<T>, n: nat): seq<T> {
    if |s| <= n then s else s[..n]
  }

  /** `QueryPartitionsPaged`: rows behind `lastId`, at most a page of them. */
  function QueryPage(rel: Relations, name: string, snapshot: uint64, pageSize: int, lastId: int): Option<seq<Part>> {
    match QueryPartitions(rel, name, snapshot)
    case None => None
    case Some(parts) => Some(Limit(After(parts, lastId), if pageSize <= 0 then 1000 else pageSize))
  }

  // ----- selects on manifests and histories

  function ManifestsOf(ms: seq<ManifestFile>, snapshotId: int): seq<ManifestFile> {
    if ms == [] then []
    else ManifestsOf(ms[..|ms| - 1], snapshotId)
         + if ms[|ms| - 1].snapshotId == snapshotId then [ms[|ms| - 1]] else []
  }

  function SchemasOf(rows: seq<SchemaRow>, tableId: int): seq<SchemaRow> {
    if rows == [] then []
    else SchemasOf(rows[..|rows| - 1], tableId)
         + if rows[|rows| - 1].tableId == tableId then [rows[|rows| - 1]] else []
  }

  // ----- foreign keys

  function TableIds(rel: Relations): set<int> {
    set name | name in rel.tables :: rel.tables[name].id
  }

  /** Every `REFERENCES` clause of the schema holds. */
  predicate ForeignKeysHold(rel: Relations) {
    && (forall s | s in rel.snapshots :: rel.snapshots[s].tableId in TableIds(rel))
    && (forall p | p in rel.partitions ::
          rel.partitions[p].part.tableId in TableIds(rel) && rel.partitions[p].part.snapshotId in rel.snapshots)
    && (forall m | m in rel.manifestFiles :: m.tableId in TableIds(rel) && m.snapshotId in rel.snapshots)
    && (forall s | s in rel.manifestLists :: s in rel.snapshots && rel.manifestLists[s].tableId in TableIds(rel))
    && (forall k | k in rel.specs :: k.0 in TableIds(rel))
    && (forall r | r in rel.schemas :: r.tableId in TableIds(rel))
    && (forall t | t in rel.transactions :: t.tableId in TableIds(rel))
  }
}
