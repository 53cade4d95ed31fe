/** Each operation of the catalog keeps the invariant `Good`. */
module Preservation {
  import opened Sorting
  import opened Tables
  import opened Commits
  import opened History
  import opened Invariants

  // ----- commits

  /** The parts stored after a commit: the old ones, unchanged, and the new ones. */
  lemma CommittedParts(m: map<int, PartRow>, parts: seq<Part>, tableId: int, keys: seq<string>, sid: int)
    requires Increasing(PartIds(parts)) && forall i :: 0 <= i < |parts| ==> parts[i].id !in m
    ensures var p := StampTable(InsertParts(m, parts), tableId, keys, sid);
            && (forall id :: id in p <==> id in m || id in PartIds(parts))
            && (forall id :: id in m ==> p[id].part == m[id].part)
            && (forall i :: 0 <= i < |parts| ==> parts[i].id in p && p[parts[i].id].part == parts[i])
  {
    Inserted(m, parts);
    forall id | id in PartIds(parts)
      ensures id !in m
    {
      var i :| 0 <= i < |parts| && PartIds(parts)[i] == id;
      assert parts[i].id == id;
    }
  }

  lemma NewPartIds(tableId: int, sid: int, ids: seq<int>, files: seq<DataFile>)
    requires |ids| == |files|
    ensures PartIds(NewParts(tableId, sid, ids, files)) == ids
  {
  }

  lemma {:induction false} ManifestsConcat(a: seq<ManifestFile>, b: seq<ManifestFile>, sid: int)
    ensures ManifestsOf(a + b, sid) == ManifestsOf(a, sid) + ManifestsOf(b, sid)
  {
    if b == [] {
      assert a + b == a;
    } else {
      ManifestsConcat(a, b[..|b| - 1], sid);
      assert (a + b)[..|a| + |b| - 1] == a + b[..|b| - 1];
    }
  }

  lemma {:induction false} ManifestsAll(ms: seq<ManifestFile>, sid: int)
    ensures (forall i :: 0 <= i < |ms| ==> ms[i].snapshotId == sid) ==> ManifestsOf(ms, sid) == ms
    ensures (forall i :: 0 <= i < |ms| ==> ms[i].snapshotId != sid) ==> ManifestsOf(ms, sid) == []
  {
    if ms != [] {
      ManifestsAll(ms[..|ms| - 1], sid);
      assert ms[..|ms| - 1] + [ms[|ms| - 1]] == ms;
    }
  }

  lemma NewManifests(table: string, id: int, specVersion: int, sid: nat, c: Change)
    ensures var ms := Manifests(table, id, specVersion, sid, c);
            forall i :: 0 <= i < |ms| ==> ms[i].snapshotId == sid && ms[i].tableId == id
  {
  }

  lemma NewPartsMatch(id: int, sid: int, ids: seq<int>, files: seq<DataFile>, m: map<int, PartRow>)
    requires |ids| == |files| && FreshIds(m, id, ids)
    ensures var parts := NewParts(id, sid, ids, files);
            && PartIds(parts) == ids
            && forall i :: 0 <= i < |parts| ==> parts[i].id !in m && parts[i].tableId == id
  {
    NewPartIds(id, sid, ids, files);
  }

  lemma CommitIdsOk(db: Db, name: string, sid: nat, ids: seq<int>, c: Change)
    requires IdsOk(db) && Drawn(db, name, sid, ids) && |ids| == |c.files|
    requires db.rel.tables[name].id in db.logs
    ensures IdsOk(Committed(db, name, sid, ids, c))
  {
    var t := db.rel.tables[name];
    var parts := NewParts(t.id, sid, ids, c.files);
    NewPartsMatch(t.id, sid, ids, c.files, db.rel.partitions);
    CommittedParts(db.rel.partitions, parts, t.id, c.keys, sid);
    CommittedIdRange(db.rel.partitions, parts, t.id, c.keys, sid, db.seqs.partition);
  }

  lemma CommittedIdRange(m: map<int, PartRow>, parts: seq<Part>, tableId: int, keys: seq<string>, sid: int, bound: int)
    requires Increasing(PartIds(parts)) && forall i :: 0 <= i < |parts| ==> parts[i].id !in m && 0 < parts[i].id < bound
    requires forall p :: p in m ==> 0 < p < bound && m[p].part.id == p
    ensures var q := StampTable(InsertParts(m, parts), tableId, keys, sid);
            forall p :: p in q ==> 0 < p < bound && q[p].part.id == p
  {
    CommittedParts(m, parts, tableId, keys, sid);
    var q := StampTable(InsertParts(m, parts), tableId, keys, sid);
    forall p | p in q
      ensures 0 < p < bound && q[p].part.id == p
    {
      if p !in m {
        var i :| 0 <= i < |parts| && PartIds(parts)[i] == p;
        assert parts[i].id == p;
      }
    }
  }

  lemma CommitTableIds(rel: Relations, name: string, sid: nat, ids: seq<int>, c: Change)
    requires Live(rel, name).Some? && |ids| == |c.files|
    ensures TableIds(Commit(rel, name, sid, ids, c)) == TableIds(rel)
  {
    SameTableIds(rel.tables, name, rel.tables[name].(current := sid), rel, Commit(rel, name, sid, ids, c));
  }

  /** Replacing a row by one with the same id keeps the set of table ids. */
  lemma SameTableIds(tables: map<string, TableRow>, name: string, row: TableRow, rel: Relations, rel': Relations)
    requires name in tables && row.id == tables[name].id
    requires rel.tables == tables && rel'.tables == tables[name := row]
    ensures TableIds(rel') == TableIds(rel)
  {
    forall id
      ensures id in TableIds(rel) <==> id in TableIds(rel')
    {
      if id in TableIds(rel) {
        var n :| n in rel.tables && rel.tables[n].id == id;
        assert rel'.tables[n].id == id;
      }
      if id in TableIds(rel') {
        var n :| n in rel'.tables && rel'.tables[n].id == id;
        assert rel.tables[n].id == id;
      }
    }
  }

  lemma CommitPartitionsRefer(
    m: map<int, PartRow>, snapshots: map<int, SnapshotRow>, tables: set<int>, parts: seq<Part>, id: int, c: Change, sid: int, row: SnapshotRow)
    requires PartitionsRefer(m, snapshots, tables) && sid !in snapshots && row.tableId == id && id in tables
    requires Increasing(PartIds(parts))
    requires forall i :: 0 <= i < |parts| ==> parts[i].id !in m && parts[i].tableId == id && parts[i].snapshotId == sid
    ensures PartitionsRefer(StampTable(InsertParts(m, parts), id, c.keys, sid), snapshots[sid := row], tables)
  {
    CommittedParts(m, parts, id, c.keys, sid);
    var q := StampTable(InsertParts(m, parts), id, c.keys, sid);
    forall p | p in q
      ensures PartRefers(q[p].part, snapshots[sid := row], tables)
    {
      if p in m {
        assert PartRefers(m[p].part, snapshots, tables);
      } else {
        var i :| 0 <= i < |parts| && PartIds(parts)[i] == p;
        assert q[p].part == parts[i];
      }
    }
  }

  lemma CommitReferences(db: Db, name: string, sid: nat, ids: seq<int>, c: Change)
    requires References(db.rel) && Drawn(db, name, sid, ids) && |ids| == |c.files|
    ensures References(Commit(db.rel, name, sid, ids, c))
  {
    var t := db.rel.tables[name];
    var rel := Commit(db.rel, name, sid, ids, c);
    CommitTableIds(db.rel, name, sid, ids, c);
    NewPartsMatch(t.id, sid, ids, c.files, db.rel.partitions);
    CommitPartitionsRefer(db.rel.partitions, db.rel.snapshots, TableIds(db.rel), NewParts(t.id, sid, ids, c.files), t.id, c, sid, rel.snapshots[sid]);
    NewManifests(name, t.id, t.specVersion, sid, c);
  }

  lemma LogGrows(id: int, log: Log, rec: CommitRec)
    requires LogOk(id, log) && RecordOk(id, rec) && Head(log) < rec.sid
    ensures LogOk(id, log + [rec])
  {
    assert forall k :: 0 <= k < |log| ==> log[k].sid <= log[|log| - 1].sid;
  }

  lemma SnapshotsGrow(snapshots: map<int, SnapshotRow>, id: int, log: Log, rec: CommitRec)
    requires SnapshotsOk(snapshots, id, log) && rec.sid !in snapshots
    ensures SnapshotsOk(snapshots[rec.sid := SnapshotOf(id, log + [rec], |log|)], id, log + [rec])
  {
    var more := log + [rec];
    var after := snapshots[rec.sid := SnapshotOf(id, more, |log|)];
    forall k | 0 <= k < |more|
      ensures more[k].sid in after && after[more[k].sid] == SnapshotOf(id, more, k)
    {
      if k < |log| {
        assert more[..k] == log[..k] && more[k] == log[k];
        assert snapshots[log[k].sid] == SnapshotOf(id, log, k);
      }
    }
    forall s | s in after && after[s].tableId == id
      ensures HasSid(more, s)
    {
      if s == rec.sid {
        assert more[|log|].sid == s;
      } else {
        assert HasSid(log, s);
        var k :| 0 <= k < |log| && log[k].sid == s;
        assert more[k].sid == s;
      }
    }
  }

  lemma ManifestsGrow(ms: seq<ManifestFile>, lists: map<int, ManifestList>, id: int, log: Log, rec: CommitRec)
    requires ManifestsOk(ms, lists, id, log) && rec.sid >= 0
    requires forall k :: 0 <= k < |log| ==> log[k].sid != rec.sid
    requires ManifestsOf(ms, rec.sid) == []
    ensures var added := Manifests(rec.table, id, rec.specVersion, rec.sid, rec.change);
            ManifestsOk(ms + added, lists[rec.sid := ManifestList(id, |added|)], id, log + [rec])
  {
    var added := Manifests(rec.table, id, rec.specVersion, rec.sid, rec.change);
    var more, after := log + [rec], lists[rec.sid := ManifestList(id, |added|)];
    NewManifests(rec.table, id, rec.specVersion, rec.sid, rec.change);
    forall k | 0 <= k < |more|
      ensures RecordManifestsOk(ms + added, after, id, more[k])
    {
      ManifestsConcat(ms, added, more[k].sid);
      ManifestsAll(added, more[k].sid);
      if k < |log| {
        assert RecordManifestsOk(ms, lists, id, log[k]);
      }
    }
  }

  lemma {:induction false} NoManifestsYet(ms: seq<ManifestFile>, snapshots: map<int, SnapshotRow>, ids: set<int>, sid: int)
    requires sid !in snapshots && ManifestsRefer(ms, snapshots, ids)
    ensures ManifestsOf(ms, sid) == []
  {
    if ms != [] {
      NoManifestsYet(ms[..|ms| - 1], snapshots, ids, sid);
    }
  }

  lemma CommitOwnRows(m: map<int, PartRow>, id: int, log: Log, rec: CommitRec, ids: seq<int>)
    requires RowsOf(m, id) == Stored(log) && |ids| == |rec.change.files|
    requires FreshIds(m, id, ids) && rec.parts == NewParts(id, rec.sid, ids, rec.change.files)
    ensures RowsOf(StampTable(InsertParts(m, rec.parts), id, rec.change.keys, rec.sid), id) == Stored(log + [rec])
  {
    NewPartsMatch(id, rec.sid, ids, rec.change.files, m);
    CommittedRows(m, rec.parts, id, rec.change.keys, rec.sid);
    assert (log + [rec])[..|log|] == log;
  }

  lemma SidsBelow(snapshots: map<int, SnapshotRow>, id: int, log: Log, sid: int)
    requires SnapshotsOk(snapshots, id, log) && sid !in snapshots && 0 < sid
    requires forall s :: s in snapshots && snapshots[s].tableId == id ==> s < sid
    ensures Head(log) < sid
    ensures forall k :: 0 <= k < |log| ==> log[k].sid != sid
  {
    if log != [] {
      assert snapshots[Head(log)] == SnapshotOf(id, log, |log| - 1);
    }
  }

  lemma CommitOwnTable(db: Db, name: string, sid: nat, ids: seq<int>, c: Change)
    requires Drawn(db, name, sid, ids) && |ids| == |c.files|
    requires db.rel.tables[name].id in db.logs
    requires TableOk(db.rel, db.logs[db.rel.tables[name].id], db.rel.tables[name])
    requires ManifestsOf(db.rel.manifestFiles, sid) == []
    ensures var db' := Committed(db, name, sid, ids, c); var t := db'.rel.tables[name];
            TableOk(db'.rel, db'.logs[t.id], t)
  {
    var t := db.rel.tables[name];
    var log, rec := db.logs[t.id], CommitRecord(db, name, sid, ids, c);
    CommitOwnRows(db.rel.partitions, t.id, log, rec, ids);
    SidsBelow(db.rel.snapshots, t.id, log, sid);
    assert RecordOk(t.id, rec);
    LogGrows(t.id, log, rec);
    SnapshotsGrow(db.rel.snapshots, t.id, log, rec);
    assert SnapshotOf(t.id, log + [rec], |log|) == Commit(db.rel, name, sid, ids, c).snapshots[sid] by {
      assert (log + [rec])[..|log|] == log;
    }
    ManifestsGrow(db.rel.manifestFiles, db.rel.manifestLists, t.id, log, rec);
  }

  lemma CommitOtherTable(db: Db, name: string, sid: nat, ids: seq<int>, c: Change, u: TableRow, log: Log)
    requires Drawn(db, name, sid, ids) && |ids| == |c.files|
    requires u.id != db.rel.tables[name].id && TableOk(db.rel, log, u)
    ensures SameFor(db.rel, Commit(db.rel, name, sid, ids, c), u.id, log)
  {
    var t := db.rel.tables[name];
    var parts := NewParts(t.id, sid, ids, c.files);
    NewPartsMatch(t.id, sid, ids, c.files, db.rel.partitions);
    OtherRows(db.rel.partitions, parts, t.id, c.keys, sid, u.id);
    var ms := Manifests(name, t.id, t.specVersion, sid, c);
    NewManifests(name, t.id, t.specVersion, sid, c);
    forall k | 0 <= k < |log|
      ensures log[k].sid != sid
      ensures ManifestsOf(db.rel.manifestFiles + ms, log[k].sid) == ManifestsOf(db.rel.manifestFiles, log[k].sid)
    {
      assert log[k].sid in db.rel.snapshots;
      ManifestsConcat(db.rel.manifestFiles, ms, log[k].sid);
      ManifestsAll(ms, log[k].sid);
    }
  }

  lemma CommitOtherName(db: Db, name: string, sid: nat, ids: seq<int>, c: Change, n: string)
    requires Drawn(db, name, sid, ids) && |ids| == |c.files| && db.rel.tables[name].id in db.logs
    requires n in db.rel.tables && db.rel.tables[n].id != db.rel.tables[name].id && db.rel.tables[n].id in db.logs
    requires TableOk(db.rel, db.logs[db.rel.tables[n].id], db.rel.tables[n])
    ensures Untouched(db.rel, Committed(db, name, sid, ids, c).rel, db.logs, Committed(db, name, sid, ids, c).logs, n)
  {
    CommitOtherTable(db, name, sid, ids, c, db.rel.tables[n], db.logs[db.rel.tables[n].id]);
  }

  lemma CommitTables(db: Db, name: string, sid: nat, ids: seq<int>, c: Change)
    requires TablesOk(db.rel, db.logs) && Drawn(db, name, sid, ids) && |ids| == |c.files|
    requires forall n :: n in db.rel.tables && n != name ==> db.rel.tables[n].id != db.rel.tables[name].id
    requires ManifestsOf(db.rel.manifestFiles, sid) == []
    ensures TablesOk(Committed(db, name, sid, ids, c).rel, Committed(db, name, sid, ids, c).logs)
  {
    var db' := Committed(db, name, sid, ids, c);
    CommitOwnTable(db, name, sid, ids, c);
    forall n | n in db'.rel.tables && n != name
      ensures Untouched(db.rel, db'.rel, db.logs, db'.logs, n)
    {
      CommitOtherName(db, name, sid, ids, c, n);
    }
    TablesFrame(db.rel, db'.rel, db.logs, db'.logs, name);
  }

  /** A commit with drawn ids keeps the whole invariant. */
  lemma CommitKeepsGood(db: Db, name: string, sid: nat, ids: seq<int>, c: Change)
    requires Good(db) && Drawn(db, name, sid, ids) && |ids| == |c.files|
    ensures Good(Committed(db, name, sid, ids, c))
  {
    CommitIdsOk(db, name, sid, ids, c);
    CommitReferences(db, name, sid, ids, c);
    NoManifestsYet(db.rel.manifestFiles, db.rel.snapshots, TableIds(db.rel), sid);
    CommitTables(db, name, sid, ids, c);
  }
}
