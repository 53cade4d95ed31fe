/**
  The simple model behind the visibility windows: a table is the list of its
  commits, and each commit turns the visible list L into L ++ added with the
  deleted keys filtered out.
 */
module History {
  import opened Words
  import opened Tables
  import opened Commits

  /** A successful commit: its snapshot id, the rows it added, and what was asked for. */
  datatype CommitRec = CommitRec(sid: int, table: string, specVersion: int, parts: seq<Part>, change: Change)

  type Log = seq<CommitRec>

  /** The parts whose key is not deleted, in order. */
  function Surviving(parts: seq<Part>, keys: seq<string>): seq<Part> {
    if parts == [] then []
    else Surviving(parts[..|parts| - 1], keys)
         + if parts[|parts| - 1].file.key in keys then [] else [parts[|parts| - 1]]
  }

  /** The visible list at snapshot `s`, replayed from the first commit. */
  function Replay(log: Log, s: int): seq<Part> {
    if log == [] then []
    else
      var c, before := log[|log| - 1], Replay(log[..|log| - 1], s);
      if c.sid <= s then Surviving(before + c.parts, c.change.keys) else before
  }

  /** The stored rows that a log leaves behind. */
  function Stored(log: Log): seq<PartRow> {
    if log == [] then []
    else
      var c := log[|log| - 1];
      StampAll(Stored(log[..|log| - 1]) + Fresh(c.parts), c.change.keys, c.sid)
  }

  function Head(log: Log): int {
    if log == [] then 0 else log[|log| - 1].sid
  }

  /** Snapshot ids grow, and each commit's rows carry its id. */
  ghost predicate LogOk(tableId: int, log: Log) {
    && (forall i, j :: 0 <= i < j < |log| ==> log[i].sid < log[j].sid)
    && (forall i :: 0 <= i < |log| ==> RecordOk(tableId, log[i]))
  }

  ghost predicate RecordOk(tableId: int, c: CommitRec) {
    && c.sid > 0
    && |c.parts| == |c.change.files|
    && forall i :: 0 <= i < |c.parts| ==>
         c.parts[i].tableId == tableId && c.parts[i].snapshotId == c.sid && c.parts[i].file == c.change.files[i]
  }

  // ----- visibility of lists of rows

  lemma {:induction false} VisibleConcat(a: seq<PartRow>, b: seq<PartRow>, s: int)
    ensures Visible(a + b, s) == Visible(a, s) + Visible(b, s)
  {
    if b == [] {
      assert a + b == a;
    } else {
      VisibleConcat(a, b[..|b| - 1], s);
      assert (a + b)[..|a| + |b| - 1] == a + b[..|b| - 1];
    }
  }

  lemma {:induction false} VisiblePointwise(a: seq<PartRow>, b: seq<PartRow>, s: int)
    requires |a| == |b|
    requires forall i :: 0 <= i < |a| ==> a[i].part == b[i].part && (VisibleAt(a[i], s) <==> VisibleAt(b[i], s))
    ensures Visible(a, s) == Visible(b, s)
  {
    if a != [] {
      VisiblePointwise(a[..|a| - 1], b[..|b| - 1], s);
    }
  }

  lemma FreshPrefix(parts: seq<Part>)
    requires parts != []
    ensures Fresh(parts)[..|parts| - 1] == Fresh(parts[..|parts| - 1])
    ensures Fresh(parts)[|parts| - 1] == PartRow(parts[|parts| - 1], None)
    ensures parts[..|parts| - 1] + [parts[|parts| - 1]] == parts
  {
  }

  /** Rows of later commits are not visible. */
  lemma {:induction false} VisibleLater(parts: seq<Part>, s: int)
    requires forall i :: 0 <= i < |parts| ==> parts[i].snapshotId > s
    ensures Visible(Fresh(parts), s) == []
  {
    if parts != [] {
      FreshPrefix(parts);
      VisibleLater(parts[..|parts| - 1], s);
    }
  }

  /** Rows without a deletion of earlier ones are. */
  lemma {:induction false} VisibleEarlier(parts: seq<Part>, s: int)
    requires forall i :: 0 <= i < |parts| ==> parts[i].snapshotId <= s
    ensures Visible(Fresh(parts), s) == parts
  {
    if parts != [] {
      FreshPrefix(parts);
      VisibleEarlier(parts[..|parts| - 1], s);
    }
  }

  /** All the rows exist by `s`, and all deletions happened by `s`. */
  ghost predicate Bounded(rows: seq<PartRow>, s: int) {
    forall i :: 0 <= i < |rows| ==>
      rows[i].part.snapshotId <= s && (rows[i].deletedAt.Some? ==> rows[i].deletedAt.value <= s)
  }

  lemma {:induction false} VisibleStamped(rows: seq<PartRow>, keys: seq<string>, sid: int, s: int)
    requires Bounded(rows, s) && sid <= s
    ensures Visible(StampAll(rows, keys, sid), s) == Surviving(Visible(rows, s), keys)
  {
    if rows != [] {
      var prefix, r := rows[..|rows| - 1], rows[|rows| - 1];
      VisibleStamped(prefix, keys, sid, s);
      assert StampAll(rows, keys, sid)[..|rows| - 1] == StampAll(prefix, keys, sid);
      SurvivingLast(Visible(prefix, s), r.part, keys);
    }
  }

  lemma SurvivingLast(parts: seq<Part>, p: Part, keys: seq<string>)
    ensures Surviving(parts + [p], keys) == Surviving(parts, keys) + if p.file.key in keys then [] else [p]
    ensures Surviving(parts + [], keys) == Surviving(parts, keys)
  {
    assert (parts + [p])[..|parts|] == parts;
    assert parts + [] == parts;
  }

  lemma {:induction false} StoredBounded(tableId: int, log: Log)
    requires LogOk(tableId, log)
    ensures Bounded(Stored(log), Head(log))
  {
    if log != [] {
      var prefix, c := log[..|log| - 1], log[|log| - 1];
      StoredBounded(tableId, prefix);
      assert RecordOk(tableId, c);
      assert Head(prefix) < c.sid;
    }
  }

  // ----- time travel

  lemma StepVisible(rows: seq<PartRow>, c: CommitRec, tableId: int, s: int)
    requires RecordOk(tableId, c)
    requires c.sid <= s ==> Bounded(rows, s)
    ensures Visible(StampAll(rows + Fresh(c.parts), c.change.keys, c.sid), s)
         == if c.sid <= s then Surviving(Visible(rows, s) + c.parts, c.change.keys) else Visible(rows, s)
  {
    var all := rows + Fresh(c.parts);
    VisibleConcat(rows, Fresh(c.parts), s);
    if c.sid <= s {
      VisibleEarlier(c.parts, s);
      VisibleStamped(all, c.change.keys, c.sid, s);
    } else {
      VisibleLater(c.parts, s);
      VisiblePointwise(StampAll(all, c.change.keys, c.sid), all, s);
    }
  }

  /** The visibility windows encode exactly the replayed list, at every snapshot id. */
  lemma {:induction false} TimeTravel(tableId: int, log: Log, s: int)
    requires LogOk(tableId, log)
    ensures Visible(Stored(log), s) == Replay(log, s)
  {
    if log != [] {
      var prefix, c := log[..|log| - 1], log[|log| - 1];
      TimeTravel(tableId, prefix, s);
      StoredBounded(tableId, prefix);
      assert RecordOk(tableId, c) && Head(prefix) < c.sid;
      StepVisible(Stored(prefix), c, tableId, s);
    }
  }

  /** Commits after `s` do not show at `s`. */
  lemma {:induction false} ReplayPrefix(log: Log, more: Log, s: int)
    requires forall i :: 0 <= i < |more| ==> more[i].sid > s
    ensures Replay(log + more, s) == Replay(log, s)
  {
    if more == [] {
      assert log + more == log;
    } else {
      ReplayPrefix(log, more[..|more| - 1], s);
      assert (log + more)[..|log| + |more| - 1] == log + more[..|more| - 1];
    }
  }

  /** An id between two commits of the table reads as the earlier one. */
  lemma {:induction false} ReplayBetween(log: Log, s: int, t: int)
    requires forall i :: 0 <= i < |log| ==> (log[i].sid <= s <==> log[i].sid <= t)
    ensures Replay(log, s) == Replay(log, t)
  {
    if log != [] {
      ReplayBetween(log[..|log| - 1], s, t);
    }
  }

  lemma {:induction false} SurvivingHasNo(parts: seq<Part>, keys: seq<string>, p: Part)
    ensures p in Surviving(parts, keys) <==> p in parts && p.file.key !in keys
  {
    if parts != [] {
      SurvivingHasNo(parts[..|parts| - 1], keys, p);
      assert parts == parts[..|parts| - 1] + [parts[|parts| - 1]];
    }
  }

  /** A key that one commit both adds and deletes is invisible right after it. */
  lemma AddedAndDeletedIsInvisible(tableId: int, log: Log, k: nat, p: Part)
    requires LogOk(tableId, log) && k < |log| && p.file.key in log[k].change.keys
    ensures p !in Visible(Stored(log), log[k].sid)
  {
    TimeTravel(tableId, log, log[k].sid);
    ReplayUpTo(tableId, log, k);
    SurvivingHasNo(Replay(log[..k], log[k].sid) + log[k].parts, log[k].change.keys, p);
  }

  lemma ReplaySoFar(tableId: int, log: Log, k: nat)
    requires LogOk(tableId, log) && k < |log|
    ensures Replay(log, log[k].sid) == Replay(log[..k + 1], log[k].sid)
  {
    var upTo, more := log[..k + 1], log[k + 1..];
    assert log == upTo + more;
    ReplayPrefix(upTo, more, log[k].sid);
  }

  lemma ReplayUpTo(tableId: int, log: Log, k: nat)
    requires LogOk(tableId, log) && k < |log|
    ensures Replay(log, log[k].sid) == Surviving(Replay(log[..k], log[k].sid) + log[k].parts, log[k].change.keys)
  {
    ReplaySoFar(tableId, log, k);
    assert log[..k + 1][..k] == log[..k];
  }

  lemma SidsAround(tableId: int, log: Log, k: nat, i: nat)
    requires LogOk(tableId, log) && k < |log| && i < |log|
    ensures i < k ==> log[i].sid <= Head(log[..k]) && log[i].sid <= log[k].sid
    ensures i >= k ==> log[i].sid > Head(log[..k])
  {
    assert RecordOk(tableId, log[i]);
  }

  lemma ReplayParent(tableId: int, log: Log, k: nat)
    requires LogOk(tableId, log) && k < |log|
    ensures Replay(log[..k], log[k].sid) == Replay(log, Head(log[..k]))
  {
    var parent := Head(log[..k]);
    forall i | 0 <= i < |log|
      ensures i < k ==> log[i].sid <= parent && log[i].sid <= log[k].sid
      ensures i >= k ==> log[i].sid > parent
    {
      SidsAround(tableId, log, k, i);
    }
    ReplayBetween(log[..k], log[k].sid, parent);
    assert log == log[..k] + log[k..];
    ReplayPrefix(log[..k], log[k..], parent);
  }

  // ----- conservation of rows

  function Born(rows: seq<PartRow>, sid: int): seq<Part> {
    if rows == [] then []
    else Born(rows[..|rows| - 1], sid)
         + if rows[|rows| - 1].part.snapshotId == sid then [rows[|rows| - 1].part] else []
  }

  function DeletedBy(rows: seq<PartRow>, sid: int): seq<Part> {
    if rows == [] then []
    else DeletedBy(rows[..|rows| - 1], sid)
         + if rows[|rows| - 1].deletedAt == Some(sid) then [rows[|rows| - 1].part] else []
  }

  lemma {:induction false} BornConcat(a: seq<PartRow>, b: seq<PartRow>, sid: int)
    ensures Born(a + b, sid) == Born(a, sid) + Born(b, sid)
  {
    if b == [] {
      assert a + b == a;
    } else {
      BornConcat(a, b[..|b| - 1], sid);
      assert (a + b)[..|a| + |b| - 1] == a + b[..|b| - 1];
    }
  }

  lemma {:induction false} BornSame(a: seq<PartRow>, b: seq<PartRow>, sid: int)
    requires |a| == |b| && forall i :: 0 <= i < |a| ==> a[i].part == b[i].part
    ensures Born(a, sid) == Born(b, sid)
  {
    if a != [] {
      BornSame(a[..|a| - 1], b[..|b| - 1], sid);
    }
  }

  lemma {:induction false} BornFresh(parts: seq<Part>, sid: int)
    requires forall i :: 0 <= i < |parts| ==> parts[i].snapshotId == sid
    ensures Born(Fresh(parts), sid) == parts
  {
    if parts != [] {
      FreshPrefix(parts);
      BornFresh(parts[..|parts| - 1], sid);
    }
  }

  lemma {:induction false} BornAbsent(rows: seq<PartRow>, sid: int)
    requires forall i :: 0 <= i < |rows| ==> rows[i].part.snapshotId != sid
    ensures Born(rows, sid) == []
  {
    if rows != [] {
      BornAbsent(rows[..|rows| - 1], sid);
    }
  }

  /** The rows born in a snapshot are, for all time, the rows its commit added. */
  lemma {:induction false} BornInSnapshot(tableId: int, log: Log, k: nat)
    requires LogOk(tableId, log) && k < |log|
    ensures Born(Stored(log), log[k].sid) == log[k].parts
  {
    var prefix, c := log[..|log| - 1], log[|log| - 1];
    var rows := Stored(prefix) + Fresh(c.parts);
    BornSame(StampAll(rows, c.change.keys, c.sid), rows, log[k].sid);
    BornConcat(Stored(prefix), Fresh(c.parts), log[k].sid);
    assert RecordOk(tableId, c);
    if k == |log| - 1 {
      BornFresh(c.parts, c.sid);
      StoredBounded(tableId, prefix);
      assert Head(prefix) < c.sid;
      BornAbsent(Stored(prefix), c.sid);
    } else {
      BornAbsent(Fresh(c.parts), log[k].sid);
      BornInSnapshot(tableId, prefix, k);
    }
  }

  lemma {:induction false} DeletedConcat(a: seq<PartRow>, b: seq<PartRow>, sid: int)
    ensures DeletedBy(a + b, sid) == DeletedBy(a, sid) + DeletedBy(b, sid)
  {
    if b == [] {
      assert a + b == a;
    } else {
      DeletedConcat(a, b[..|b| - 1], sid);
      assert (a + b)[..|a| + |b| - 1] == a + b[..|b| - 1];
    }
  }

  lemma {:induction false} DeletedFresh(parts: seq<Part>, sid: int)
    ensures DeletedBy(Fresh(parts), sid) == []
  {
    if parts != [] {
      DeletedFresh(parts[..|parts| - 1], sid);
      assert Fresh(parts)[..|parts| - 1] == Fresh(parts[..|parts| - 1]);
    }
  }

  lemma {:induction false} DeletedByOther(rows: seq<PartRow>, keys: seq<string>, sid: int, other: int)
    requires sid != other
    ensures DeletedBy(StampAll(rows, keys, sid), other) == DeletedBy(rows, other)
  {
    if rows != [] {
      DeletedByOther(rows[..|rows| - 1], keys, sid, other);
      assert StampAll(rows, keys, sid)[..|rows| - 1] == StampAll(rows[..|rows| - 1], keys, sid);
    }
  }

  /** A later commit leaves the deletions of an earlier one as they are. */
  lemma {:induction false} DeletionsAreFinal(tableId: int, log: Log, k: nat)
    requires LogOk(tableId, log) && k < |log|
    ensures DeletedBy(Stored(log), log[k].sid) == DeletedBy(Stored(log[..k + 1]), log[k].sid)
    decreases |log|
  {
    if k == |log| - 1 {
      assert log[..k + 1] == log;
    } else {
      var prefix, c := log[..|log| - 1], log[|log| - 1];
      DeletionsAreFinal(tableId, prefix, k);
      assert prefix[..k + 1] == log[..k + 1];
      DeletedByOther(Stored(prefix) + Fresh(c.parts), c.change.keys, c.sid, log[k].sid);
      DeletedConcat(Stored(prefix), Fresh(c.parts), log[k].sid);
      DeletedFresh(c.parts, log[k].sid);
    }
  }

  /** Each visible row either stays visible or is stamped by the commit. */
  lemma {:induction false} VisibleOrDeleted(rows: seq<PartRow>, keys: seq<string>, sid: int)
    requires forall i :: 0 <= i < |rows| ==>
      rows[i].part.snapshotId <= sid && (rows[i].deletedAt.Some? ==> rows[i].deletedAt.value < sid)
    ensures |Visible(StampAll(rows, keys, sid), sid)| + |DeletedBy(StampAll(rows, keys, sid), sid)| == |Visible(rows, sid)|
  {
    if rows != [] {
      VisibleOrDeleted(rows[..|rows| - 1], keys, sid);
      assert StampAll(rows, keys, sid)[..|rows| - 1] == StampAll(rows[..|rows| - 1], keys, sid);
    }
  }

  /** The count right after one more commit. */
  lemma CountStep(tableId: int, before: Log, c: CommitRec)
    requires LogOk(tableId, before) && RecordOk(tableId, c) && Head(before) < c.sid
    ensures var rows := StampAll(Stored(before) + Fresh(c.parts), c.change.keys, c.sid);
            |Visible(rows, c.sid)| + |DeletedBy(rows, c.sid)| == |Visible(Stored(before), c.sid)| + |c.parts|
  {
    StoredBounded(tableId, before);
    var rows := Stored(before) + Fresh(c.parts);
    VisibleOrDeleted(rows, c.change.keys, c.sid);
    VisibleConcat(Stored(before), Fresh(c.parts), c.sid);
    VisibleEarlier(c.parts, c.sid);
  }

  lemma PrefixOk(tableId: int, log: Log, k: nat)
    requires LogOk(tableId, log) && k <= |log|
    ensures LogOk(tableId, log[..k])
  {
  }

  /** Later commits do not change what is visible at a commit. */
  lemma VisibleIsFinal(tableId: int, log: Log, k: nat)
    requires LogOk(tableId, log) && k < |log|
    ensures Visible(Stored(log), log[k].sid) == Visible(Stored(log[..k + 1]), log[k].sid)
  {
    PrefixOk(tableId, log, k + 1);
    TimeTravel(tableId, log, log[k].sid);
    TimeTravel(tableId, log[..k + 1], log[k].sid);
    ReplaySoFar(tableId, log, k);
  }

  lemma ParentIsFinal(tableId: int, log: Log, k: nat)
    requires LogOk(tableId, log) && k < |log|
    ensures Visible(Stored(log), Head(log[..k])) == Visible(Stored(log[..k]), log[k].sid)
  {
    PrefixOk(tableId, log, k);
    TimeTravel(tableId, log, Head(log[..k]));
    TimeTravel(tableId, log[..k], log[k].sid);
    ReplayParent(tableId, log, k);
  }

  lemma HeadBelow(tableId: int, log: Log, k: nat)
    requires LogOk(tableId, log) && k < |log|
    ensures Head(log[..k]) < log[k].sid
  {
    assert RecordOk(tableId, log[k]);
  }

  /** From parent to child the visible count grows by the rows added, less the rows the child stamped deleted. */
  lemma VisibleCountChange(tableId: int, log: Log, k: nat)
    requires LogOk(tableId, log) && k < |log|
    ensures |Visible(Stored(log), log[k].sid)|
         == |Visible(Stored(log), Head(log[..k]))| + |log[k].parts| - |DeletedBy(Stored(log), log[k].sid)|
  {
    VisibleIsFinal(tableId, log, k);
    ParentIsFinal(tableId, log, k);
    CountAt(tableId, log, k);
    DeletionsAreFinal(tableId, log, k);
  }

  lemma CountAt(tableId: int, log: Log, k: nat)
    requires LogOk(tableId, log) && k < |log|
    ensures var rows := Stored(log[..k + 1]);
            |Visible(rows, log[k].sid)| + |DeletedBy(rows, log[k].sid)| == |Visible(Stored(log[..k]), log[k].sid)| + |log[k].parts|
  {
    PrefixOk(tableId, log, k);
    HeadBelow(tableId, log, k);
    CountStep(tableId, log[..k], log[k]);
    assert log[..k + 1][..k] == log[..k];
  }
}
