/** The partition registry: commits, and reads through the cache. */
module Registry {
  import opened Words
  import opened CacheKeys
  import opened Tables
  import opened Commits
  import opened History
  import opened Invariants
  import opened Preservation
  import opened Interleaving
  import opened Locking
  import opened Steps
  import opened StoreSteps
  import opened Runs
  import opened Reads
  import opened Lineage
  import opened Database
  import Lru

  datatype CommitResult = Success(snapshotId: int) | Failure

  /** Consecutive ids from a sequence. */
  function Consecutive(first: int, n: nat): (ids: seq<int>)
    ensures |ids| == n && forall i :: 0 <= i < n ==> ids[i] == first + i
  {
    seq(n, i requires 0 <= i < n => first + i)
  }

  // ----- the loops of a commit, one more turn

  lemma OneMorePart(m: map<int, PartRow>, id: int, sid: int, first: int, files: seq<DataFile>, i: nat)
    requires i < |files|
    ensures InsertParts(m, NewParts(id, sid, Consecutive(first, i + 1), files[..i + 1]))
         == InsertParts(m, NewParts(id, sid, Consecutive(first, i), files[..i]))[first + i := PartRow(Part(first + i, id, sid, files[i]), None)]
  {
    var parts := NewParts(id, sid, Consecutive(first, i + 1), files[..i + 1]);
    assert parts[..i] == NewParts(id, sid, Consecutive(first, i), files[..i]);
    assert parts[i] == Part(first + i, id, sid, files[i]);
  }

  lemma NothingStamped(m: map<int, PartRow>, id: int, sid: int)
    ensures StampTable(m, id, [], sid) == m
  {
    forall p | p in m
      ensures StampTable(m, id, [], sid)[p] == m[p]
    {
    }
  }

  lemma OneMoreKey(m: map<int, PartRow>, id: int, keys: seq<string>, sid: int, i: nat)
    requires i < |keys|
    ensures StampTable(StampTable(m, id, keys[..i], sid), id, [keys[i]], sid) == StampTable(m, id, keys[..i + 1], sid)
  {
    StampOneMore(m, id, keys[..i], keys[i], sid);
    assert keys[..i] + [keys[i]] == keys[..i + 1];
  }

  lemma OneMoreFile(files: seq<DataFile>, i: nat)
    requires i < |files|
    ensures Wrap64(Wrap64(TotalRows(files[..i])) + files[i].rowCount) == Wrap64(TotalRows(files[..i + 1]))
    ensures FileKeys(files[..i]) + [files[i].key] == FileKeys(files[..i + 1])
  {
    assert files[..i + 1][..i] == files[..i];
    Wrap64Add(TotalRows(files[..i]), files[i].rowCount);
  }

  /** What a commit needs from the database to get through: enough ids, and no leftovers at the next snapshot id. */
  ghost predicate Consistent(rel: Relations, seqs: Sequences) {
    && ForeignKeysHold(rel)
    && seqs.snapshot > 0
    && (forall s :: s in rel.manifestLists ==> s < seqs.snapshot)
    && (forall n :: Live(rel, n).Some? ==> 0 <= rel.tables[n].current < TWO_63)
  }

  lemma GoodIsConsistent(db: Db)
    requires Good(db) && SeqsBounded(db.seqs)
    ensures Consistent(db.rel, db.seqs)
  {
    ReferencesAreKeys(db.rel);
    forall n | Live(db.rel, n).Some?
      ensures 0 <= db.rel.tables[n].current < TWO_63
    {
      CurrentIsHead(db, n);
      HeadInRange(db, n);
    }
  }

  /** The id sequences suffice for a commit of that many files. */
  predicate Enough(seqs: Sequences, files: nat) {
    seqs.snapshot < TWO_63 && (files == 0 || seqs.partition + files <= TWO_63)
  }

  /** The commits of the table, with this one behind them. */
  ghost function Extended(db: Db, name: string, sid: int, ids: seq<int>, c: Change): map<int, Log>
    requires Live(db.rel, name).Some? && |ids| == |c.files|
  {
    var id := db.rel.tables[name].id;
    if id in db.logs then db.logs[id := db.logs[id] + [CommitRecord(db, name, sid, ids, c)]] else db.logs
  }

  /** The state that a commit leaves which draws the next snapshot id and the next partition ids. */
  ghost function AfterCommit(db: Db, name: string, c: Change): Db
    requires Live(db.rel, name).Some? && db.seqs.snapshot >= 0
  {
    var sid, ids := db.seqs.snapshot, Consecutive(db.seqs.partition, |c.files|);
    Db(Commit(db.rel, name, sid, ids, c),
       db.seqs.(snapshot := sid + 1, partition := db.seqs.partition + |c.files|),
       Extended(db, name, sid, ids, c))
  }

  datatype Stats = Stats(partitions: int, rows: int, bytes: int, average: int)

  /** Go's integer division drops the fraction toward zero. */
  function Quotient(a: int, b: int): (q: int)
    requires b > 0
    ensures a >= 0 ==> 0 <= q * b <= a < q * b + b
    ensures a <= 0 ==> q * b - b < a <= q * b <= 0
  {
    if a >= 0 then a / b else -(-a / b)
  }

  function SizeTotal(parts: seq<Part>): int {
    if parts == [] then 0 else SizeTotal(parts[..|parts| - 1]) + parts[|parts| - 1].file.sizeBytes
  }

  /** The totals are sums: nothing for no row, one row's own figures for one, and the sum of both parts of a list. */
  lemma {:induction false} TotalsMean(a: seq<Part>, b: seq<Part>, p: Part)
    ensures RowTotal([]) == SizeTotal([]) == 0
    ensures RowTotal([p]) == p.file.rowCount && SizeTotal([p]) == p.file.sizeBytes
    ensures RowTotal(a + b) == RowTotal(a) + RowTotal(b) && SizeTotal(a + b) == SizeTotal(a) + SizeTotal(b)
  {
    assert [p][..0] == [];
    if b == [] {
      assert a + b == a;
    } else {
      TotalsMean(a, b[..|b| - 1], p);
      assert (a + b)[..|a + b| - 1] == a + b[..|b| - 1];
    }
  }

  lemma OneMoreListed(rows: seq<Part>, i: nat)
    requires i < |rows|
    ensures Wrap64(Wrap64(RowTotal(rows[..i])) + rows[i].file.rowCount) == Wrap64(RowTotal(rows[..i + 1]))
    ensures Wrap64(Wrap64(SizeTotal(rows[..i])) + rows[i].file.sizeBytes) == Wrap64(SizeTotal(rows[..i + 1]))
  {
    assert rows[..i + 1][..i] == rows[..i];
    Wrap64Add(RowTotal(rows[..i]), rows[i].file.rowCount);
    Wrap64Add(SizeTotal(rows[..i]), rows[i].file.sizeBytes);
  }

  class PartitionRegistry {
    const pg: PGClient
    const cache: Lru.LRU<string, seq<Part>>
    const disableCache: bool

    constructor (pg: PGClient, capacity: int, disableCache: bool)
      ensures this.pg == pg && fresh(cache) && cache.Valid() && cache.Contents() == [] && cache.Cells() == {} && this.disableCache == disableCache
    {
      this.pg := pg;
      this.cache := new Lru.LRU(capacity);
      this.disableCache := disableCache;
    }

    // ----- commits

    method InsertPartitions(tx: Tx, name: string, sid: int, files: seq<DataFile>) returns (err: bool)
      requires Live(tx.rel, name).Some? && sid in tx.rel.snapshots
      modifies tx, pg`seqs
      ensures err <==> old(pg.seqs.partition) + |files| > TWO_63 && files != []
      ensures pg.seqs == old(pg.seqs).(partition := pg.seqs.partition)
      ensures pg.seqs.partition == old(pg.seqs.partition) || old(pg.seqs.partition) <= pg.seqs.partition <= TWO_63
      ensures !err ==>
                && pg.seqs.partition == old(pg.seqs.partition) + |files|
                && tx.rel == old(tx.rel).(partitions := InsertParts(old(tx.rel).partitions,
                     NewParts(old(tx.rel).tables[name].id, sid, Consecutive(old(pg.seqs.partition), |files|), files)))
    {
      ghost var start, first := tx.rel, pg.seqs.partition;
      ghost var id := start.tables[name].id;
      for i := 0 to |files|
        invariant pg.seqs == old(pg.seqs).(partition := first + i)
        invariant i > 0 ==> first + i <= TWO_63
        invariant tx.rel == start.(partitions := InsertParts(start.partitions, NewParts(id, sid, Consecutive(first, i), files[..i])))
      {
        OneMorePart(start.partitions, id, sid, first, files, i);
        err := pg.InsertPartitionTx(tx, name, sid, files[i]);
        if err {
          return;
        }
      }
      assert files[..|files|] == files;
      err := false;
    }

    method MarkDeleted(tx: Tx, name: string, keys: seq<string>, sid: int) returns (err: bool)
      requires Live(tx.rel, name).Some?
      modifies tx
      ensures !err
      ensures tx.rel == old(tx.rel).(partitions := StampTable(old(tx.rel).partitions, old(tx.rel).tables[name].id, keys, sid))
    {
      ghost var start := tx.rel;
      ghost var id := start.tables[name].id;
      NothingStamped(start.partitions, id, sid);
      for i := 0 to |keys|
        invariant tx.rel == start.(partitions := StampTable(start.partitions, id, keys[..i], sid))
      {
        OneMoreKey(start.partitions, id, keys, sid, i);
        err := pg.MarkPartitionDeletedTx(tx, name, keys[i], sid);
        if err {
          return;
        }
      }
      assert keys[..|keys|] == keys;
      err := false;
    }

    /** The first manifest, when there are files to list. */
    method AddedManifest(name: string, tableId: int, specVersion: int, sid: nat, files: seq<DataFile>) returns (m: ManifestFile)
      ensures m == ManifestFile(tableId, sid, ManifestPath(name, sid, 0), specVersion,
                                Wrap32(|files|), 0, Wrap64(TotalRows(files)), 0, FileKeys(files))
    {
      var summaries: seq<string> := [];
      var totalRows := 0;
      for i := 0 to |files|
        invariant summaries == FileKeys(files[..i])
        invariant totalRows == Wrap64(TotalRows(files[..i]))
      {
        OneMoreFile(files, i);
        summaries := summaries + [files[i].key];
        totalRows := Wrap64(totalRows + files[i].rowCount);
      }
      assert files[..|files|] == files;
      m := ManifestFile(tableId, sid, ManifestPath(name, sid, 0), specVersion, Wrap32(|files|), 0, totalRows, 0, summaries);
    }

    method DeletedManifest(name: string, tableId: int, specVersion: int, sid: nat, count: nat, keys: seq<string>) returns (m: ManifestFile)
      ensures m == ManifestFile(tableId, sid, ManifestPath(name, sid, count), specVersion, 0, Wrap32(|keys|), 0, 0, keys)
    {
      var summaries: seq<string> := [];
      for i := 0 to |keys|
        invariant summaries == keys[..i]
      {
        summaries := summaries + [keys[i]];
      }
      m := ManifestFile(tableId, sid, ManifestPath(name, sid, count), specVersion, 0, Wrap32(|keys|), 0, 0, summaries);
    }

    method InsertManifests(tx: Tx, name: string, tableId: int, specVersion: int, sid: nat, c: Change) returns (err: bool)
      requires tableId in TableIds(tx.rel) && sid in tx.rel.snapshots && sid !in tx.rel.manifestLists
      modifies tx
      ensures !err
      ensures var ms := Manifests(name, tableId, specVersion, sid, c);
              tx.rel == old(tx.rel).(manifestFiles := old(tx.rel).manifestFiles + ms,
                                     manifestLists := old(tx.rel).manifestLists[sid := ManifestList(tableId, |ms|)])
    {
      ghost var start := tx.rel.manifestFiles;
      ghost var ms := Manifests(name, tableId, specVersion, sid, c);
      var manifestCount := 0;
      if |c.files| > 0 {
        var m := AddedManifest(name, tableId, specVersion, sid, c.files);
        err := pg.InsertManifestFileTx(tx, m);
        if err {
          return;
        }
        manifestCount := manifestCount + 1;
      }
      assert tx.rel == old(tx.rel).(manifestFiles := start + ms[..manifestCount]);
      if |c.keys| > 0 {
        var m := DeletedManifest(name, tableId, specVersion, sid, manifestCount, c.keys);
        err := pg.InsertManifestFileTx(tx, m);
        if err {
          return;
        }
        manifestCount := manifestCount + 1;
      }
      assert tx.rel == old(tx.rel).(manifestFiles := start + ms) && manifestCount == |ms|;
      err := pg.InsertManifestListTx(tx, sid, tableId, manifestCount);
    }

    /** Everything between the parent check and the commit of the transaction. */
    method WriteSnapshot(tx: Tx, name: string, parent: uint64, specVersion: int, c: Change) returns (err: bool, sid: int)
      requires Consistent(tx.rel, pg.seqs) && parent == CurrentSnapshot(tx.rel, name)
      requires Live(tx.rel, name).Some? ==> specVersion == tx.rel.tables[name].specVersion
      modifies tx, pg`seqs
      ensures !err <==> Live(old(tx.rel), name).Some? && Enough(old(pg.seqs), |c.files|)
      ensures SeqsGrow(old(pg.seqs), pg.seqs) && (SeqsBounded(old(pg.seqs)) ==> SeqsBounded(pg.seqs))
      ensures !err ==>
                && sid == old(pg.seqs.snapshot) >= 0
                && pg.seqs == old(pg.seqs).(snapshot := sid + 1, partition := old(pg.seqs.partition) + |c.files|)
                && tx.rel == Commit(old(tx.rel), name, sid, Consecutive(old(pg.seqs.partition), |c.files|), c)
    {
      ghost var start := tx.rel;
      var tableId: int;
      err, sid, tableId := pg.InsertSnapshotTx(tx, name, parent, c.operation, Wrap32(|c.files|), Wrap32(|c.keys|));
      if err || sid == 0 {
        err := true;
        return;
      }
      err := InsertPartitions(tx, name, sid, c.files);
      if err {
        return;
      }
      err := MarkDeleted(tx, name, c.keys, sid);
      if err {
        return;
      }
      err := InsertManifests(tx, name, tableId, specVersion, sid, c);
      if err {
        return;
      }
      pg.UpdateTableSnapshotTx(tx, name, sid);
    }

    /** The commit up to and including the end of its transaction. */
    method RunCommit(name: string, parent: uint64, c: Change) returns (r: CommitResult)
      requires Consistent(pg.rel, pg.seqs)
      modifies pg
      ensures r.Success? <==>
                Live(old(pg.rel), name).Some? && CurrentSnapshot(old(pg.rel), name) == parent && Enough(old(pg.seqs), |c.files|)
      ensures r.Success? ==>
                && r.snapshotId == old(pg.seqs.snapshot) >= 0
                && pg.Stored() == AfterCommit(old(pg.Stored()), name, c)
      ensures r.Failure? ==> pg.rel == old(pg.rel) && pg.logs == old(pg.logs)
      ensures SeqsGrow(old(pg.seqs), pg.seqs) && (SeqsBounded(old(pg.seqs)) ==> SeqsBounded(pg.seqs))
    {
      var specVersion := pg.GetTableSpecVersion(name);
      var current := pg.GetCurrentSnapshot(name);
      if parent != current {
        return Failure;
      }
      var tx := pg.BeginTx();
      var err, sid := WriteSnapshot(tx, name, parent, specVersion, c);
      if err {
        return Failure;
      }
      pg.logs := Extended(old(pg.Stored()), name, sid, Consecutive(old(pg.seqs.partition), |c.files|), c);
      pg.CommitTx(tx);
      return Success(sid);
    }

    /**
      Compare and swap on the table's snapshot pointer. A commit that is refused leaves
      everything as it was, except that sequence values may be used up.
     */
    method CommitSnapshot(name: string, parent: uint64, c: Change) returns (r: CommitResult)
      requires Consistent(pg.rel, pg.seqs) && cache.Valid()
      modifies pg, cache`items, cache`list
      ensures cache.Valid() && cache.Cells() <= old(cache.Cells())
      ensures r.Success? <==>
                Live(old(pg.rel), name).Some? && CurrentSnapshot(old(pg.rel), name) == parent && Enough(old(pg.seqs), |c.files|)
      ensures r.Success? ==>
                && r.snapshotId == old(pg.seqs.snapshot) >= 0
                && pg.Stored() == AfterCommit(old(pg.Stored()), name, c)
      ensures r.Failure? ==> pg.rel == old(pg.rel) && pg.logs == old(pg.logs)
      ensures SeqsGrow(old(pg.seqs), pg.seqs) && (SeqsBounded(old(pg.seqs)) ==> SeqsBounded(pg.seqs))
      ensures cache.Contents() == if r.Success? then Without(old(cache.Contents()), name) else old(cache.Contents())
    {
      r := RunCommit(name, parent, c);
      if r.Success? {
        var removed := InvalidateTableCache(name);
      }
    }

    method InvalidateTableCache(name: string) returns (removed: nat)
      requires cache.Valid()
      modifies cache`items, cache`list
      ensures cache.Valid() && cache.Cells() <= old(cache.Cells())
      ensures cache.Contents() == Without(old(cache.Contents()), name)
      ensures removed == |old(cache.Contents())| - |cache.Contents()|
    {
      removed := cache.InvalidateIf(Covered(name));
    }

    // ----- reads

    method ResolveSnapshot(name: string, snapshot: uint64) returns (at: uint64)
      requires Live(pg.rel, name).Some? ==> pg.rel.tables[name].current < TWO_64
      ensures at == ReadAt(pg.rel, name, snapshot)
    {
      if snapshot != 0 {
        return snapshot;
      }
      var current := pg.GetCurrentSnapshot(name);
      return current;
    }

    /** Cached entries are what the query would answer now. */
    ghost predicate Fresh()
      reads this, pg, cache, cache.list
    {
      CacheOk(pg.Stored(), cache.Contents(), map[])
    }

    method GetPartitions(name: string, snapshot: uint64) returns (rows: Option<seq<Part>>)
      requires cache.Valid() && (Live(pg.rel, name).Some? ==> pg.rel.tables[name].current < TWO_64)
      modifies cache, cache.Cells()
      ensures cache.Valid() && fresh(cache.Cells() - old(cache.Cells()))
      ensures old(Fresh()) ==> rows == QueryPartitions(pg.rel, name, ReadAt(pg.rel, name, snapshot)) && Fresh()
      ensures disableCache ==> cache.Contents() == old(cache.Contents())
      ensures !disableCache ==>
                var key := Key(name, ReadAt(pg.rel, name, snapshot));
                match Recency.Lookup(old(cache.Contents()), key)
                case Some(hit) => rows == Some(hit) && cache.Contents() == Recency.Hit(old(cache.Contents()), key)
                case None =>
                  && rows == QueryPartitions(pg.rel, name, ReadAt(pg.rel, name, snapshot))
                  && cache.Contents() == if rows.None? then old(cache.Contents())
                                         else Recency.Put(cache.capacity, old(cache.Contents()), key, rows.value)
    {
      var at := ResolveSnapshot(name, snapshot);
      var key := Key(name, at);
      ghost var before := cache.Contents();
      if !disableCache {
        var cached := cache.Get(key);
        if cached.Some? {
          HitIsCurrent(pg.Stored(), before, name, at);
          return cached;
        }
      }
      rows := QueryPartitions(pg.rel, name, at);
      if rows.None? {
        return;
      }
      if !disableCache {
        Remember(name, at, rows.value);
      }
    }

    method Remember(name: string, at: uint64, rows: seq<Part>)
      requires cache.Valid() && QueryPartitions(pg.rel, name, at) == Some(rows)
      modifies cache, cache.Cells()
      ensures cache.Valid() && fresh(cache.Cells() - old(cache.Cells()))
      ensures old(Fresh()) ==> Fresh()
      ensures cache.Contents() == Recency.Put(cache.capacity, old(cache.Contents()), Key(name, at), rows)
    {
      MissKeepsFresh(pg.Stored(), cache.Contents(), cache.capacity, name, at, rows);
      cache.Put(Key(name, at), rows);
    }

    /** Pages are never cached. */
    method GetPartitionsPaged(name: string, snapshot: uint64, pageSize: int, lastId: int) returns (rows: Option<seq<Part>>)
      requires Live(pg.rel, name).Some? ==> pg.rel.tables[name].current < TWO_64
      ensures rows == QueryPage(pg.rel, name, ReadAt(pg.rel, name, snapshot), pageSize, lastId)
    {
      var at := ResolveSnapshot(name, snapshot);
      rows := QueryPage(pg.rel, name, at, pageSize, lastId);
    }

    /** Totals over the present listing; an unknown table counts as empty. */
    method GetStats(name: string) returns (stats: Stats)
      requires Live(pg.rel, name).Some? ==> pg.rel.tables[name].current < TWO_64
      ensures var rows := QueryPartitions(pg.rel, name, ReadAt(pg.rel, name, 0));
              if rows.None? then stats == Stats(0, 0, 0, 0)
              else
                && stats.partitions == |rows.value|
                && stats.rows == Wrap64(RowTotal(rows.value))
                && stats.bytes == Wrap64(SizeTotal(rows.value))
                && (rows.value == [] ==> stats.average == 0)
                && (stats.bytes >= 0 ==> 0 <= stats.average * |rows.value| <= stats.bytes)
                && (stats.bytes <= 0 ==> stats.bytes <= stats.average * |rows.value| <= 0)
                && (rows.value != [] ==> -|rows.value| < stats.bytes - stats.average * |rows.value| < |rows.value|)
                && stats.average == if rows.value == [] then 0 else Quotient(stats.bytes, |rows.value|)
    {
      var at := ResolveSnapshot(name, 0);
      var found := QueryPartitions(pg.rel, name, at);
      if found.None? {
        return Stats(0, 0, 0, 0);
      }
      var rows := found.value;
      var totalRows, totalBytes := 0, 0;
      for i := 0 to |rows|
        invariant totalRows == Wrap64(RowTotal(rows[..i]))
        invariant totalBytes == Wrap64(SizeTotal(rows[..i]))
      {
        OneMoreListed(rows, i);
        totalRows := Wrap64(totalRows + rows[i].file.rowCount);
        totalBytes := Wrap64(totalBytes + rows[i].file.sizeBytes);
      }
      assert rows[..|rows|] == rows;
      stats := Stats(|rows|, totalRows, totalBytes, if |rows| > 0 then Quotient(totalBytes, |rows|) else 0);
    }
  }

  /** A snapshot with its parent, its operation and its counts, and its files under consecutive ids, as they were sent. */
  ghost predicate OnRecord(rel: Relations, name: string, sid: int, first: int, parent: int, c: Change) {
    && name in rel.tables && rel.tables[name].current == sid
    && sid in rel.snapshots
    && rel.snapshots[sid].tableId == rel.tables[name].id && rel.snapshots[sid].parent == parent
    && rel.snapshots[sid].operation == c.operation
    && rel.snapshots[sid].addedFiles == Wrap32(|c.files|) && rel.snapshots[sid].deletedFiles == Wrap32(|c.keys|)
    && forall i :: 0 <= i < |c.files| ==> HasFile(rel.partitions, first + i, rel.tables[name].id, sid, c.files[i])
  }

  ghost predicate HasFile(partitions: map<int, PartRow>, p: int, tableId: int, sid: int, file: DataFile) {
    && p in partitions
    && partitions[p].part.id == p && partitions[p].part.tableId == tableId && partitions[p].part.snapshotId == sid
    && partitions[p].part.file == file
  }

  lemma FileIsStored(m: map<int, PartRow>, id: int, sid: int, first: int, c: Change, i: nat)
    requires i < |c.files|
    ensures var stored := StampTable(InsertParts(m, NewParts(id, sid, Consecutive(first, |c.files|), c.files)), id, c.keys, sid);
            HasFile(stored, first + i, id, sid, c.files[i])
  {
    var parts := NewParts(id, sid, Consecutive(first, |c.files|), c.files);
    Inserted(m, parts);
    assert parts[i].id == first + i;
  }

  lemma CommitIsOnRecord(db: Db, name: string, c: Change)
    requires Live(db.rel, name).Some? && db.seqs.snapshot >= 0
    ensures OnRecord(AfterCommit(db, name, c).rel, name, db.seqs.snapshot, db.seqs.partition, db.rel.tables[name].current, c)
  {
    forall i | 0 <= i < |c.files|
      ensures HasFile(AfterCommit(db, name, c).rel.partitions, db.seqs.partition + i, db.rel.tables[name].id, db.seqs.snapshot, c.files[i])
    {
      FileIsStored(db.rel.partitions, db.rel.tables[name].id, db.seqs.snapshot, db.seqs.partition, c, i);
    }
  }

  // ----- what a commit call keeps

  /** The database after the draws of a commit and before its transaction. */
  function AfterDraws(db: Db, files: nat): Db {
    db.(seqs := db.seqs.(snapshot := db.seqs.snapshot + 1, partition := db.seqs.partition + files))
  }

  lemma CommitIsCommitted(db: Db, name: string, c: Change)
    requires Live(db.rel, name).Some? && db.seqs.snapshot >= 0 && db.rel.tables[name].id in db.logs
    ensures AfterCommit(db, name, c)
         == Committed(AfterDraws(db, |c.files|), name, db.seqs.snapshot, Consecutive(db.seqs.partition, |c.files|), c)
  {
  }

  lemma CommitKeepsInvariant(db: Db, name: string, c: Change)
    requires Good(db) && SeqsBounded(db.seqs) && Live(db.rel, name).Some? && Enough(db.seqs, |c.files|)
    ensures Good(AfterCommit(db, name, c)) && SeqsBounded(AfterCommit(db, name, c).seqs)
  {
    var drawn := AfterDraws(db, |c.files|);
    GoodGrows(db, drawn.seqs);
    NewIdsAreDrawn(db, name, |c.files|, drawn.seqs);
    CommitKeepsGood(drawn, name, db.seqs.snapshot, Consecutive(db.seqs.partition, |c.files|), c);
    CommitIsCommitted(db, name, c);
  }

  lemma CommitKeepsOthers(db: Db, name: string, c: Change, n: string)
    requires IdsOk(db) && Live(db.rel, name).Some? && n != name
    ensures SameName(db.rel, AfterCommit(db, name, c).rel, n)
  {
    var drawn := AfterDraws(db, |c.files|);
    NewIdsAreDrawn(db, name, |c.files|, drawn.seqs);
    PublishedOther(drawn, name, db.seqs.snapshot, Consecutive(db.seqs.partition, |c.files|), c, n);
  }

  lemma CommitThenInvalidate(db: Db, cache: PartCache, name: string, c: Change)
    requires IdsOk(db) && Live(db.rel, name).Some? && CacheOk(db, cache, map[])
    ensures CacheOk(AfterCommit(db, name, c), Without(cache, name), map[])
  {
    forall n | n != name
      ensures SameName(db.rel, AfterCommit(db, name, c).rel, n)
    {
      CommitKeepsOthers(db, name, c, n);
    }
    OnceCleaned(cache, name);
    CleanedNames(db, AfterCommit(db, name, c), cache, Without(cache, name), {name});
  }

  /**
    A commit on a catalog that satisfies the invariant keeps it, and after the
    invalidation the cache again holds only what the queries answer.
   */
  lemma CommitCallKeepsGood(db: Db, cache: PartCache, name: string, c: Change)
    requires Good(db) && SeqsBounded(db.seqs) && Live(db.rel, name).Some? && Enough(db.seqs, |c.files|)
    ensures Good(AfterCommit(db, name, c)) && SeqsBounded(AfterCommit(db, name, c).seqs)
    ensures CacheOk(db, cache, map[]) ==> CacheOk(AfterCommit(db, name, c), Without(cache, name), map[])
  {
    CommitKeepsInvariant(db, name, c);
    if CacheOk(db, cache, map[]) {
      CommitThenInvalidate(db, cache, name, c);
    }
  }

  lemma NewIdsAreDrawn(db: Db, name: string, n: nat, seqs: Sequences)
    requires IdsOk(db) && Live(db.rel, name).Some?
    requires seqs == db.seqs.(snapshot := db.seqs.snapshot + 1, partition := db.seqs.partition + n)
    ensures Drawn(db.(seqs := seqs), name, db.seqs.snapshot, Consecutive(db.seqs.partition, n))
  {
  }

  /** Entries that are still in the cache and whose names nobody touched are as current as before. */
  lemma CleanedNames(db: Db, db': Db, cache: PartCache, left: PartCache, names: set<string>)
    requires CacheOk(db, cache, map[])
    requires forall n :: n !in names ==> SameName(db.rel, db'.rel, n)
    requires forall e :: e in left ==> e in cache && forall n :: n in names ==> !OfTable(n, e.key)
    ensures CacheOk(db', left, map[])
  {
    forall t: string, s: uint64, k | 0 <= k < |left| && left[k].key == Key(t, s)
      ensures QueryPartitions(db'.rel, t, s) == Some(left[k].value)
    {
      InvalidatedKeys(t, t, s);
      assert left[k] in left && t !in names && SameName(db.rel, db'.rel, t);
      var j :| 0 <= j < |cache| && cache[j] == left[k];
      assert QueryPartitions(db.rel, t, s) == Some(cache[j].value);
    }
  }

  lemma OnceCleaned(cache: PartCache, name: string)
    ensures forall e :: e in Without(cache, name) ==> e in cache && !OfTable(name, e.key)
  {
    forall e | e in Without(cache, name)
      ensures e in cache && !OfTable(name, e.key)
    {
      Recency.RemoveIfKeeps(cache, Covered(name), e);
    }
  }

  lemma HitIsCurrent(db: Db, cache: PartCache, name: string, at: uint64)
    requires Recency.Lookup(cache, Key(name, at)).Some?
    ensures CacheOk(db, cache, map[]) ==>
              && Recency.Lookup(cache, Key(name, at)) == QueryPartitions(db.rel, name, at)
              && CacheOk(db, Recency.Hit(cache, Key(name, at)), map[])
  {
    if CacheOk(db, cache, map[]) {
      Recency.LookupFinds(cache, Key(name, at));
      HitKeepsCache(db, cache, map[], Key(name, at));
    }
  }

  lemma MissKeepsFresh(db: Db, cache: PartCache, capacity: int, name: string, at: uint64, rows: seq<Part>)
    requires QueryPartitions(db.rel, name, at) == Some(rows)
    ensures CacheOk(db, cache, map[]) ==> CacheOk(db, Recency.Put(capacity, cache, Key(name, at), rows), map[])
  {
    if CacheOk(db, cache, map[]) {
      PutKeepsCache(db, cache, map[], capacity, name, at, rows);
    }
  }
}
