/** The effect of a snapshot commit on the relations. */
module Commits {
  import opened Words
  import opened Sorting
  import opened Tables
  import opened Decimal

  /** A row as the delete statements leave it: stamped once, at the first matching key. */
  function Stamp(r: PartRow, keys: seq<string>, snapshotId: int): PartRow {
    if r.deletedAt.None? && r.part.file.key in keys then r.(deletedAt := Some(snapshotId)) else r
  }

  function StampAll(rows: seq<PartRow>, keys: seq<string>, snapshotId: int): (r: seq<PartRow>)
    ensures |r| == |rows| && forall i :: 0 <= i < |rows| ==> r[i] == Stamp(rows[i], keys, snapshotId)
  {
    seq(|rows|, i requires 0 <= i < |rows| => Stamp(rows[i], keys, snapshotId))
  }

  /** The update of all rows of one table. */
  function StampTable(m: map<int, PartRow>, tableId: int, keys: seq<string>, snapshotId: int): map<int, PartRow> {
    map id | id in m :: if m[id].part.tableId == tableId then Stamp(m[id], keys, snapshotId) else m[id]
  }

  function NewParts(tableId: int, snapshotId: int, ids: seq<int>, files: seq<DataFile>): (r: seq<Part>)
    requires |ids| == |files|
    ensures |r| == |files| && forall i :: 0 <= i < |files| ==> r[i] == Part(ids[i], tableId, snapshotId, files[i])
  {
    seq(|files|, i requires 0 <= i < |files| => Part(ids[i], tableId, snapshotId, files[i]))
  }

  function Fresh(parts: seq<Part>): (r: seq<PartRow>)
    ensures |r| == |parts| && forall i :: 0 <= i < |parts| ==> r[i] == PartRow(parts[i], None)
  {
    seq(|parts|, i requires 0 <= i < |parts| => PartRow(parts[i], None))
  }

  function InsertParts(m: map<int, PartRow>, parts: seq<Part>): map<int, PartRow> {
    if parts == [] then m
    else InsertParts(m, parts[..|parts| - 1])[parts[|parts| - 1].id := PartRow(parts[|parts| - 1], None)]
  }

  function TotalRows(files: seq<DataFile>): int {
    if files == [] then 0 else TotalRows(files[..|files| - 1]) + files[|files| - 1].rowCount
  }

  function FileKeys(files: seq<DataFile>): (r: seq<string>)
    ensures |r| == |files| && forall i :: 0 <= i < |files| ==> r[i] == files[i].key
  {
    seq(|files|, i requires 0 <= i < |files| => files[i].key)
  }

  function ManifestPath(table: string, snapshotId: nat, n: nat): string {
    "iceberg://" + table + "/" + Format(snapshotId) + "/" + Format(n) + ".avro"
  }

  /** What a client asks to commit. */
  datatype Change = Change(operation: string, files: seq<DataFile>, keys: seq<string>)

  /** At most one manifest for the added files and one for the deleted keys, in this order. */
  function Manifests(table: string, tableId: int, specVersion: int, sid: nat, c: Change): seq<ManifestFile> {
    (if c.files == [] then []
     else [ManifestFile(tableId, sid, ManifestPath(table, sid, 0), specVersion,
                        Wrap32(|c.files|), 0, Wrap64(TotalRows(c.files)), 0, FileKeys(c.files))])
    + (if c.keys == [] then []
       else [ManifestFile(tableId, sid, ManifestPath(table, sid, if c.files == [] then 0 else 1), specVersion,
                          0, Wrap32(|c.keys|), 0, 0, c.keys)])
  }

  /** The relations after the commit transaction of snapshot `sid` with partition ids `ids`. */
  function Commit(rel: Relations, table: string, sid: nat, ids: seq<int>, c: Change): Relations
    requires Live(rel, table).Some? && |ids| == |c.files|
  {
    var row := rel.tables[table];
    var parts := NewParts(row.id, sid, ids, c.files);
    var manifests := Manifests(table, row.id, row.specVersion, sid, c);
    rel.(
      tables := rel.tables[table := row.(current := sid)],
      snapshots := rel.snapshots[sid := SnapshotRow(row.id, row.current, c.operation, Wrap32(|c.files|), Wrap32(|c.keys|))],
      partitions := StampTable(InsertParts(rel.partitions, parts), row.id, c.keys, sid),
      manifestFiles := rel.manifestFiles + manifests,
      manifestLists := rel.manifestLists[sid := ManifestList(row.id, |manifests|)])
  }

  lemma SlashEnds(n: nat, rest: string, m: nat, rest': string)
    requires Format(n) + "/" + rest == Format(m) + "/" + rest'
    ensures n == m && rest == rest'
  {
    FormatIsRead(n);
    FormatIsRead(m);
    FirstSlash(Format(n), rest, Format(m), rest');
    FormatInjective(n, m);
  }

  lemma FirstSlash(a: string, rest: string, b: string, rest': string)
    requires AllDigits(a) && AllDigits(b) && a + "/" + rest == b + "/" + rest'
    ensures a == b && rest == rest'
  {
    var s := a + "/" + rest;
    assert s[|a|] == '/' && s[|b|] == '/';
    assert forall i :: 0 <= i < |a| ==> s[i] == a[i];
    assert forall i :: 0 <= i < |b| ==> s[i] == b[i];
    assert a == s[..|a|] && b == s[..|b|];
    assert rest == s[|a| + 1..] && rest' == s[|b| + 1..];
  }

  /** No two manifests of a table share a path: neither those of one commit nor those of different ones. */
  lemma PathsDiffer(table: string, s: nat, n: nat, s': nat, n': nat)
    requires ManifestPath(table, s, n) == ManifestPath(table, s', n')
    ensures s == s' && n == n'
  {
    var head := "iceberg://" + table + "/";
    var tail, tail' := Format(n) + ".avro", Format(n') + ".avro";
    assert ManifestPath(table, s, n) == head + (Format(s) + "/" + tail);
    assert ManifestPath(table, s', n') == head + (Format(s') + "/" + tail');
    assert ManifestPath(table, s, n)[|head|..] == Format(s) + "/" + tail;
    assert ManifestPath(table, s', n')[|head|..] == Format(s') + "/" + tail';
    SlashEnds(s, tail, s', tail');
    assert tail[..|tail| - 5] == Format(n) && tail'[..|tail'| - 5] == Format(n');
    FormatInjective(n, n');
  }

  /** The manifests of a commit: one for its files and one for its deletions, as far as there are any, with paths of their own. */
  lemma ManifestsMean(table: string, tableId: int, specVersion: int, sid: nat, c: Change)
    ensures var ms := Manifests(table, tableId, specVersion, sid, c);
            && |ms| == (if c.files == [] then 0 else 1) + (if c.keys == [] then 0 else 1)
            && (forall i, j :: 0 <= i < j < |ms| ==> ms[i].path != ms[j].path)
            && (forall i :: 0 <= i < |ms| ==>
                  ms[i].tableId == tableId && ms[i].snapshotId == sid && ms[i].specVersion == specVersion
                  && ms[i].path == "iceberg://" + table + "/" + Format(sid) + "/" + Format(i) + ".avro")
            && (c.files != [] ==>
                  && ms[0].summaries == FileKeys(c.files) && ms[0].addedFiles == Wrap32(|c.files|) && ms[0].deletedFiles == 0
                  && ms[0].addedRows == Wrap64(TotalRows(c.files)))
            && (c.keys != [] ==>
                  && ms[|ms| - 1].summaries == c.keys && ms[|ms| - 1].deletedFiles == Wrap32(|c.keys|) && ms[|ms| - 1].addedFiles == 0
                  && ms[|ms| - 1].addedRows == 0)
            && (forall i :: 0 <= i < |ms| ==> ms[i].deletedRows == 0)
  {
    if ManifestPath(table, sid, 0) == ManifestPath(table, sid, 1) {
      PathsDiffer(table, sid, 0, sid, 1);
    }
  }

  // ----- effect on the ordered rows of a table

  ghost predicate FreshIds(m: map<int, PartRow>, tableId: int, ids: seq<int>) {
    && Increasing(ids)
    && (forall i :: 0 <= i < |ids| ==> ids[i] !in m)
    && (forall i, id :: 0 <= i < |ids| && id in IdsOf(m, tableId) ==> id < ids[i])
  }

  function PartIds(parts: seq<Part>): (r: seq<int>)
    ensures |r| == |parts| && forall i :: 0 <= i < |parts| ==> r[i] == parts[i].id
  {
    seq(|parts|, i requires 0 <= i < |parts| => parts[i].id)
  }

  lemma {:induction false} Inserted(m: map<int, PartRow>, parts: seq<Part>)
    requires Increasing(PartIds(parts))
    ensures forall id :: id in InsertParts(m, parts) <==> id in m || id in PartIds(parts)
    ensures forall i :: 0 <= i < |parts| ==> parts[i].id in InsertParts(m, parts) && InsertParts(m, parts)[parts[i].id] == PartRow(parts[i], None)
    ensures forall id :: id in m && id !in PartIds(parts) ==> InsertParts(m, parts)[id] == m[id]
  {
    if parts != [] {
      var prefix, last := parts[..|parts| - 1], parts[|parts| - 1];
      assert PartIds(prefix) == PartIds(parts)[..|parts| - 1];
      Inserted(m, prefix);
      assert PartIds(parts) == PartIds(prefix) + [last.id];
      var before, after := InsertParts(m, prefix), InsertParts(m, parts);
      assert after == before[last.id := PartRow(last, None)];
      forall i | 0 <= i < |prefix|
        ensures parts[i].id in after && after[parts[i].id] == PartRow(parts[i], None)
      {
        assert prefix[i] == parts[i] && PartIds(parts)[i] < PartIds(parts)[|prefix|];
      }
    }
  }

  lemma StampedIds(m: map<int, PartRow>, tableId: int, keys: seq<string>, sid: int, other: int)
    ensures IdsOf(StampTable(m, tableId, keys, sid), other) == IdsOf(m, other)
  {
    var stamped := StampTable(m, tableId, keys, sid);
    forall id
      ensures id in IdsOf(stamped, other) <==> id in IdsOf(m, other)
    {
      assert id in m <==> id in stamped;
    }
  }

  lemma InsertedIds(m: map<int, PartRow>, parts: seq<Part>, tableId: int)
    requires FreshIds(m, tableId, PartIds(parts))
    requires forall i :: 0 <= i < |parts| ==> parts[i].tableId == tableId
    ensures Sorted(IdsOf(InsertParts(m, parts), tableId)) == Sorted(IdsOf(m, tableId)) + PartIds(parts)
  {
    Inserted(m, parts);
    var ids := PartIds(parts);
    forall id
      ensures id in IdsOf(InsertParts(m, parts), tableId) <==> id in IdsOf(m, tableId) + (set y | y in ids)
    {
      if id in ids {
        var i :| 0 <= i < |parts| && ids[i] == id;
        assert parts[i].id == id;
      }
    }
    assert IdsOf(InsertParts(m, parts), tableId) == IdsOf(m, tableId) + (set y | y in ids);
    SortedAppend(IdsOf(m, tableId), ids);
  }

  /** The table's own rows: the new ones come last, then the deletions are stamped over all of them. */
  lemma CommittedRows(m: map<int, PartRow>, parts: seq<Part>, tableId: int, keys: seq<string>, sid: int)
    requires FreshIds(m, tableId, PartIds(parts))
    requires forall i :: 0 <= i < |parts| ==> parts[i].tableId == tableId
    ensures RowsOf(StampTable(InsertParts(m, parts), tableId, keys, sid), tableId)
         == StampAll(RowsOf(m, tableId) + Fresh(parts), keys, sid)
  {
    InsertedIds(m, parts, tableId);
    var stamped := StampTable(InsertParts(m, parts), tableId, keys, sid);
    StampedIds(InsertParts(m, parts), tableId, keys, sid, tableId);
    SortedIsSorted(IdsOf(m, tableId));
    SortedIsSorted(IdsOf(stamped, tableId));
    var left, right := RowsOf(stamped, tableId), StampAll(RowsOf(m, tableId) + Fresh(parts), keys, sid);
    assert |left| == |right|;
    forall i | 0 <= i < |left|
      ensures left[i] == right[i]
    {
      CommittedRow(m, parts, tableId, keys, sid, i);
    }
  }

  lemma CommittedRow(m: map<int, PartRow>, parts: seq<Part>, tableId: int, keys: seq<string>, sid: int, i: nat)
    requires FreshIds(m, tableId, PartIds(parts))
    requires forall i :: 0 <= i < |parts| ==> parts[i].tableId == tableId
    requires i < |Sorted(IdsOf(m, tableId))| + |parts|
    ensures var id := (Sorted(IdsOf(m, tableId)) + PartIds(parts))[i];
            var stamped := StampTable(InsertParts(m, parts), tableId, keys, sid);
            id in stamped && stamped[id] == Stamp((RowsOf(m, tableId) + Fresh(parts))[i], keys, sid)
  {
    Inserted(m, parts);
    SortedIsSorted(IdsOf(m, tableId));
    var ids := Sorted(IdsOf(m, tableId));
    if i < |ids| {
      assert ids[i] in IdsOf(m, tableId);
    } else {
      assert PartIds(parts)[i - |ids|] == parts[i - |ids|].id;
    }
  }

  /** Other tables see no change at all. */
  lemma OtherRows(m: map<int, PartRow>, parts: seq<Part>, tableId: int, keys: seq<string>, sid: int, other: int)
    requires Increasing(PartIds(parts)) && other != tableId
    requires forall i :: 0 <= i < |parts| ==> parts[i].tableId == tableId && parts[i].id !in m
    ensures RowsOf(StampTable(InsertParts(m, parts), tableId, keys, sid), other) == RowsOf(m, other)
    ensures IdsOf(StampTable(InsertParts(m, parts), tableId, keys, sid), other) == IdsOf(m, other)
  {
    Inserted(m, parts);
    var full := InsertParts(m, parts);
    forall id
      ensures id in IdsOf(full, other) <==> id in IdsOf(m, other)
    {
      if id in PartIds(parts) {
        var i :| 0 <= i < |parts| && PartIds(parts)[i] == id;
        assert parts[i].id == id;
      }
    }
    assert IdsOf(full, other) == IdsOf(m, other);
    StampedIds(full, tableId, keys, sid, other);
    SortedIsSorted(IdsOf(m, other));
    SortedIsSorted(IdsOf(StampTable(full, tableId, keys, sid), other));
    var ids := Sorted(IdsOf(m, other));
    forall i | 0 <= i < |ids|
      ensures StampTable(full, tableId, keys, sid)[ids[i]] == m[ids[i]]
    {
      assert ids[i] in IdsOf(m, other);
    }
  }

  /** Stamping key by key, as the loop does, is stamping with the whole list at once. */
  lemma StampOneMore(m: map<int, PartRow>, tableId: int, keys: seq<string>, k: string, sid: int)
    ensures StampTable(StampTable(m, tableId, keys, sid), tableId, [k], sid) == StampTable(m, tableId, keys + [k], sid)
  {
    var twice, once := StampTable(StampTable(m, tableId, keys, sid), tableId, [k], sid), StampTable(m, tableId, keys + [k], sid);
    forall id | id in m
      ensures twice[id] == once[id]
    {
    }
  }
}
