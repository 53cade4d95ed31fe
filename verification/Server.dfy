/** The request handlers: validation, the catalog operation, and the invalidations that follow it. */
module Server {
  import opened Words
  import opened Decimal
  import opened CacheKeys
  import opened PartitionSpecs
  import opened Tables
  import opened Commits
  import opened Catalog
  import opened Invariants
  import opened Interleaving
  import opened Locking
  import opened Steps
  import opened StoreSteps
  import opened PreservationDdl
  import opened Runs
  import opened Database
  import opened Registry
  import opened Reads
  import opened Paging
  import CatalogManager

  datatype Reply = InvalidArgument | Outcome(success: bool)

  /** An empty field of a request takes its default. */
  function OrDefault(s: string, d: string): string {
    if s == "" then d else s
  }

  /** The files of a commit request as they are stored; a file without rows is refused. */
  function WithFormats(files: seq<DataFile>): (r: seq<DataFile>)
    ensures |r| == |files| && forall i :: 0 <= i < |files| ==> r[i] == files[i].(format := OrDefault(files[i].format, "parquet"))
  {
    seq(|files|, i requires 0 <= i < |files| => files[i].(format := OrDefault(files[i].format, "parquet")))
  }

  lemma DropThenInvalidate(db: Db, cache: PartCache, name: string, purge: bool)
    requires CacheOk(db, cache, map[]) && IdsOk(db) && Catalog.Drop(db.rel, name, purge).Some?
    ensures CacheOk(db.(rel := Catalog.Drop(db.rel, name, purge).value), Without(cache, name), map[])
  {
    DroppedFrame(db, name, purge);
    OnceCleaned(cache, name);
    CleanedNames(db, db.(rel := Catalog.Drop(db.rel, name, purge).value), cache, Without(cache, name), {name});
  }

  lemma RenameThenInvalidate(db: Db, cache: PartCache, from: string, to: string)
    requires CacheOk(db, cache, map[])
    ensures var db' := OrElse(db, Rename(db.rel, from, to));
            CacheOk(db', Without(Without(cache, from), to), map[])
  {
    var db' := OrElse(db, Rename(db.rel, from, to));
    SameStoreNames(db.rel, db'.rel, {from, to});
    OnceCleaned(cache, from);
    OnceCleaned(Without(cache, from), to);
    CleanedNames(db, db', cache, Without(Without(cache, from), to), {from, to});
  }

  lemma AlterThenInvalidate(db: Db, cache: PartCache, name: string, spec: Spec)
    requires CacheOk(db, cache, map[])
    ensures CacheOk(OrElse(db, AlterSpec(db.rel, name, spec)), Without(cache, name), map[])
  {
    var db' := OrElse(db, AlterSpec(db.rel, name, spec));
    SameStoreNames(db.rel, db'.rel, {name});
    OnceCleaned(cache, name);
    CleanedNames(db, db', cache, Without(cache, name), {name});
  }

  /** What holds between requests: the catalog's invariant, with all ids in their range. */
  ghost predicate Sound(db: Db) {
    Good(db) && SeqsBounded(db.seqs)
  }

  lemma TxKeepsSound(db: Db, req: Request)
    requires Sound(db)
    ensures Sound(TxResult(db, req).0)
  {
    TxGood(db, req);
  }

  /** A commit as its request sent it; only an empty operation or format has been filled in. */
  ghost predicate AsSent(rel: Relations, name: string, sid: int, first: int, parent: int, operation: string, files: seq<DataFile>, keys: seq<string>) {
    && name in rel.tables && rel.tables[name].current == sid && sid in rel.snapshots
    && rel.snapshots[sid].parent == parent
    && rel.snapshots[sid].operation == (if operation == "" then "append" else operation)
    && rel.snapshots[sid].addedFiles == Wrap32(|files|) && rel.snapshots[sid].deletedFiles == Wrap32(|keys|)
    && forall i :: 0 <= i < |files| ==>
         HasFile(rel.partitions, first + i, rel.tables[name].id, sid, if files[i].format == "" then files[i].(format := "parquet") else files[i])
  }

  lemma SentIsStored(db: Db, name: string, parent: uint64, operation: string, files: seq<DataFile>, keys: seq<string>)
    requires Sound(db) && Live(db.rel, name).Some? && CurrentSnapshot(db.rel, name) == parent && db.seqs.snapshot >= 0
    ensures AsSent(AfterCommit(db, name, Change(OrDefault(operation, "append"), WithFormats(files), keys)).rel,
                   name, db.seqs.snapshot, db.seqs.partition, parent, operation, files, keys)
  {
    CurrentsInRange(db);
    CommitIsOnRecord(db, name, Change(OrDefault(operation, "append"), WithFormats(files), keys));
  }

  /** What the transaction of a request does, by the function for its kind. */
  lemma TxOf(db: Db, req: Request)
    ensures req.ApplySpec? ==> TxResult(db, req).0 == OrElse(db, AlterSpec(db.rel, req.table, req.spec))
    ensures req.RenameTable? ==> TxResult(db, req).0 == OrElse(db, Rename(db.rel, req.table, req.to))
    ensures req.DropTable? ==> TxResult(db, req).0 == OrElse(db, Catalog.Drop(db.rel, req.table, req.purge))
  {
  }

  lemma DrawsKeepSound(db: Db, db': Db)
    requires Sound(db) && db' == db.(seqs := db'.seqs) && SeqsGrow(db.seqs, db'.seqs) && SeqsBounded(db'.seqs)
    ensures Sound(db')
  {
    GoodGrows(db, db'.seqs);
  }

  /** What a creation request does to the relations, and when. */
  lemma CreateTxMeans(db: Db, name: string, schema: string, rawSpec: string)
    ensures var rel' := TxResult(db, CreateTable(name, schema, rawSpec)).0.rel;
            && (rel' != db.rel <==> rawSpec != "" && name !in db.rel.tables && db.seqs.table < TWO_63)
            && (rel' != db.rel ==>
                  && name in rel'.tables && rel'.tables[name].schema == schema
                  && rel'.tables[name].spec == Spec([Field(1, rawSpec, "identity", None)])
                  && rel'.tables[name].current == 0 && !rel'.tables[name].deleted)
  {
    CreateMeans(db.rel, name, db.seqs.table, schema, RequestedSpec(rawSpec));
  }

  lemma CreateKeepsFresh(db: Db, cache: PartCache, name: string, schema: string, rawSpec: string)
    requires CacheOk(db, cache, map[])
    ensures CacheOk(TxResult(db, CreateTable(name, schema, rawSpec)).0, cache, map[])
  {
    var db' := TxResult(db, CreateTable(name, schema, rawSpec)).0;
    SameStoreNames(db.rel, db'.rel, {name});
    forall t: string, s: uint64, k | 0 <= k < |cache| && cache[k].key == Key(t, s)
      ensures QueryPartitions(db'.rel, t, s) == Some(cache[k].value)
    {
      assert QueryPartitions(db.rel, t, s) == Some(cache[k].value);
      assert t != name ==> SameName(db.rel, db'.rel, t);
    }
  }

  class MetadataServer {
    const pg: PGClient
    const partitions: PartitionRegistry
    const catalog: CatalogManager.Manager

    /** The parts of the server share one database client, and the cache is in order. */
    ghost predicate Wired()
      reads this, pg, partitions.cache, partitions.cache.list
    {
      partitions.pg == pg && catalog.pg == pg && partitions.cache.Valid()
    }

    ghost predicate Valid()
      reads this, pg, partitions.cache, partitions.cache.list
    {
      Wired() && Sound(pg.Stored())
    }

    /** Cached entries are what the queries answer. */
    ghost predicate Fresh()
      reads this, pg, partitions.cache, partitions.cache.list
    {
      CacheOk(pg.Stored(), partitions.cache.Contents(), map[])
    }

    constructor (pg: PGClient, capacity: int, disableCache: bool)
      requires Sound(pg.Stored())
      ensures this.pg == pg && Valid() && Fresh()
      ensures partitions.cache.Contents() == [] && partitions.cache.Cells() == {} && partitions.disableCache == disableCache
      ensures fresh(partitions) && fresh(partitions.cache) && fresh(catalog)
    {
      this.pg := pg;
      this.partitions := new PartitionRegistry(pg, capacity, disableCache);
      this.catalog := new CatalogManager.Manager(pg);
    }

    // ----- listings

    /** A token that is no number is ignored. */
    method ReadToken(token: string) returns (lastId: int)
      ensures lastId == LastId(token)
    {
      lastId := 0;
      if token != "" {
        var parsed := ParseInt64(token);
        if parsed.Some? {
          lastId := parsed.value;
        }
      }
    }

    method Respond(rows: Option<seq<Part>>, paged: bool) returns (r: Response)
      ensures r == Answer(rows, paged)
    {
      if rows.None? {
        return NotFound;
      }
      var next := "";
      if paged && |rows.value| > 0 {
        next := FormatId(rows.value[|rows.value| - 1].id);
      }
      r := Listed(rows.value, next);
    }

    method FetchRows(name: string, snapshot: uint64, pageSize: int, lastId: int) returns (rows: Option<seq<Part>>)
      requires Wired() && (Live(pg.rel, name).Some? ==> pg.rel.tables[name].current < TWO_64)
      modifies partitions.cache, partitions.cache.Cells()
      ensures Wired() && (old(Fresh()) ==> Fresh())
      ensures fresh(partitions.cache.Cells() - old(partitions.cache.Cells()))
      ensures pageSize > 0 || old(Fresh()) ==>
                rows == if pageSize > 0 then QueryPage(pg.rel, name, ReadAt(pg.rel, name, snapshot), pageSize, lastId)
                        else QueryPartitions(pg.rel, name, ReadAt(pg.rel, name, snapshot))
    {
      if pageSize > 0 {
        rows := partitions.GetPartitionsPaged(name, snapshot, pageSize, lastId);
      } else {
        assert old(Fresh()) ==> partitions.Fresh();
        rows := partitions.GetPartitions(name, snapshot);
      }
    }

    method ServeListing(name: string, snapshot: uint64, pageSize: int, token: string) returns (r: Response)
      requires Valid()
      modifies partitions.cache, partitions.cache.Cells()
      ensures Valid() && (old(Fresh()) ==> Fresh())
      ensures fresh(partitions.cache.Cells() - old(partitions.cache.Cells()))
      ensures pageSize > 0 || old(Fresh()) ==> r == ListPartitions(pg.rel, name, snapshot, pageSize, token)
    {
      CurrentsInRange(pg.Stored());
      var lastId := ReadToken(token);
      var rows := FetchRows(name, snapshot, pageSize, lastId);
      r := Respond(rows, pageSize > 0);
    }

    /** One page, always from the database, or the whole listing from the cache or the database. */
    method GetPartitions(name: string, snapshot: uint64, pageSize: int, token: string) returns (r: Response)
      requires Valid()
      modifies partitions.cache, partitions.cache.Cells()
      ensures Valid() && (old(Fresh()) ==> Fresh())
      ensures fresh(partitions.cache.Cells() - old(partitions.cache.Cells()))
      ensures pageSize > 0 || old(Fresh()) ==> r == ListPartitions(pg.rel, name, snapshot, pageSize, token)
      ensures pageSize > 0 || old(Fresh()) ==> Lists(r, ReadRows(pg.rel, name, snapshot), pageSize, token)
    {
      ghost var before := pg.Stored();
      r := ServeListing(name, snapshot, pageSize, token);
      if r == ListPartitions(before.rel, name, snapshot, pageSize, token) {
        ListingMeans(before, name, snapshot, pageSize, token);
      }
    }

    // ----- commits

    method CheckFiles(files: seq<DataFile>) returns (ok: bool, stored: seq<DataFile>)
      ensures ok <==> forall i :: 0 <= i < |files| ==> files[i].rowCount > 0
      ensures ok ==> stored == WithFormats(files)
    {
      stored := [];
      for i := 0 to |files|
        invariant forall j :: 0 <= j < i ==> files[j].rowCount > 0
        invariant stored == WithFormats(files[..i])
      {
        if files[i].rowCount <= 0 {
          return false, stored;
        }
        stored := stored + [files[i].(format := OrDefault(files[i].format, "parquet"))];
      }
      assert files[..|files|] == files;
      ok := true;
    }

    /** A refusal of any kind leaves the relations, their histories and the cache alone. */
    method CommitSnapshot(name: string, parent: uint64, operation: string, files: seq<DataFile>, keys: seq<string>)
      returns (r: CommitResult)
      requires Valid()
      modifies pg, partitions.cache`items, partitions.cache`list
      ensures Valid() && (old(Fresh()) ==> Fresh())
      ensures partitions.cache.Cells() <= old(partitions.cache.Cells())
      ensures r.Success? <==>
                && (forall i :: 0 <= i < |files| ==> files[i].rowCount > 0)
                && Live(old(pg.rel), name).Some? && CurrentSnapshot(old(pg.rel), name) == parent && Enough(old(pg.seqs), |files|)
      ensures (exists i :: 0 <= i < |files| && files[i].rowCount <= 0) ==> pg.seqs == old(pg.seqs)
      ensures r.Failure? ==>
                && pg.rel == old(pg.rel) && pg.logs == old(pg.logs) && SeqsGrow(old(pg.seqs), pg.seqs)
                && partitions.cache.Contents() == old(partitions.cache.Contents())
      ensures r.Success? ==>
                && r.snapshotId == old(pg.seqs.snapshot) >= 0
                && pg.Stored() == AfterCommit(old(pg.Stored()), name, Change(OrDefault(operation, "append"), WithFormats(files), keys))
                && partitions.cache.Contents() == Without(old(partitions.cache.Contents()), name)
      ensures r.Success? ==>
                AsSent(pg.rel, name, r.snapshotId, old(pg.seqs.partition), parent, operation, files, keys)
    {
      ghost var before := pg.Stored();
      r := CheckAndCommit(name, parent, operation, files, keys);
      if r.Success? {
        SentIsStored(before, name, parent, operation, files, keys);
      }
    }

    method CheckAndCommit(name: string, parent: uint64, operation: string, files: seq<DataFile>, keys: seq<string>)
      returns (r: CommitResult)
      requires Valid()
      modifies pg, partitions.cache`items, partitions.cache`list
      ensures Valid() && (old(Fresh()) ==> Fresh())
      ensures partitions.cache.Cells() <= old(partitions.cache.Cells())
      ensures r.Success? <==>
                && (forall i :: 0 <= i < |files| ==> files[i].rowCount > 0)
                && Live(old(pg.rel), name).Some? && CurrentSnapshot(old(pg.rel), name) == parent && Enough(old(pg.seqs), |files|)
      ensures (exists i :: 0 <= i < |files| && files[i].rowCount <= 0) ==> pg.seqs == old(pg.seqs)
      ensures r.Failure? ==>
                && pg.rel == old(pg.rel) && pg.logs == old(pg.logs) && SeqsGrow(old(pg.seqs), pg.seqs)
                && partitions.cache.Contents() == old(partitions.cache.Contents())
      ensures r.Success? ==>
                && r.snapshotId == old(pg.seqs.snapshot) >= 0
                && pg.Stored() == AfterCommit(old(pg.Stored()), name, Change(OrDefault(operation, "append"), WithFormats(files), keys))
                && partitions.cache.Contents() == Without(old(partitions.cache.Contents()), name)
    {
      var ok, stored := CheckFiles(files);
      if !ok {
        return Failure;
      }
      assert partitions.cache.Contents() == old(partitions.cache.Contents());
      r := CommitChange(name, parent, Change(OrDefault(operation, "append"), stored, keys));
    }

    method CommitChange(name: string, parent: uint64, c: Change) returns (r: CommitResult)
      requires Valid()
      modifies pg, partitions.cache`items, partitions.cache`list
      ensures Valid() && (old(Fresh()) ==> Fresh())
      ensures partitions.cache.Cells() <= old(partitions.cache.Cells())
      ensures r.Success? <==>
                Live(old(pg.rel), name).Some? && CurrentSnapshot(old(pg.rel), name) == parent && Enough(old(pg.seqs), |c.files|)
      ensures r.Failure? ==>
                && pg.rel == old(pg.rel) && pg.logs == old(pg.logs) && SeqsGrow(old(pg.seqs), pg.seqs)
                && partitions.cache.Contents() == old(partitions.cache.Contents())
      ensures r.Success? ==>
                && r.snapshotId == old(pg.seqs.snapshot) >= 0
                && pg.Stored() == AfterCommit(old(pg.Stored()), name, c)
                && partitions.cache.Contents() == Without(old(partitions.cache.Contents()), name)
    {
      ghost var before, cached := pg.Stored(), partitions.cache.Contents();
      GoodIsConsistent(before);
      r := partitions.CommitSnapshot(name, parent, c);
      if r.Success? {
        CommitCallKeepsGood(before, cached, name, c);
      } else {
        DrawsKeepSound(before, pg.Stored());
      }
    }

    // ----- table operations

    method RunCreate(name: string, schema: string, rawSpec: string) returns (ok: bool)
      requires Wired() && (pg.seqs.table, 1) !in pg.rel.specs
      modifies pg
      ensures Wired() && (old(Fresh()) ==> Fresh())
      ensures pg.Stored() == TxResult(old(pg.Stored()), Request.CreateTable(name, schema, rawSpec)).0
      ensures ok <==> pg.rel != old(pg.rel)
    {
      ghost var before, cached := pg.Stored(), partitions.cache.Contents();
      ok := catalog.CreateTable(name, schema, RequestedSpec(rawSpec));
      if CacheOk(before, cached, map[]) {
        CreateKeepsFresh(before, cached, name, schema, rawSpec);
      }
    }

    /** Names are not checked here; a taken one, and an empty spec, make the transaction fail. */
    method CreateTable(name: string, schema: string, rawSpec: string) returns (r: Reply)
      requires Valid()
      modifies pg
      ensures Valid() && (old(Fresh()) ==> Fresh())
      ensures pg.Stored() == TxResult(old(pg.Stored()), Request.CreateTable(name, schema, rawSpec)).0
      ensures r == Outcome(pg.rel != old(pg.rel))
      ensures r == Outcome(true) <==> rawSpec != "" && name !in old(pg.rel).tables && old(pg.seqs.table) < TWO_63
      ensures r == Outcome(true) ==>
                && name in pg.rel.tables && pg.rel.tables[name].schema == schema
                && pg.rel.tables[name].spec == Spec([Field(1, rawSpec, "identity", None)])
    {
      CreateTxMeans(pg.Stored(), name, schema, rawSpec);
      FirstVersionIsFree(pg.Stored());
      TxKeepsSound(pg.Stored(), Request.CreateTable(name, schema, rawSpec));
      var ok := RunCreate(name, schema, rawSpec);
      r := Outcome(ok);
    }

    method AlterCleanly(name: string, spec: Spec) returns (ok: bool)
      requires Wired()
      modifies pg`rel, partitions.cache`items, partitions.cache`list
      ensures Wired() && (old(Fresh()) ==> Fresh())
      ensures partitions.cache.Cells() <= old(partitions.cache.Cells())
      ensures ok <==> AlterSpec(old(pg.rel), name, spec).Some?
      ensures pg.Stored() == OrElse(old(pg.Stored()), AlterSpec(old(pg.rel), name, spec))
    {
      ghost var before, cached := pg.Stored(), partitions.cache.Contents();
      ok := catalog.AlterTablePartitionSpec(name, spec);
      var removed := partitions.InvalidateTableCache(name);
      if CacheOk(before, cached, map[]) {
        AlterThenInvalidate(before, cached, name, spec);
      }
    }

    method RunAlter(name: string, spec: Spec) returns (ok: bool)
      requires Wired()
      modifies pg`rel, partitions.cache`items, partitions.cache`list
      ensures Wired() && (old(Fresh()) ==> Fresh())
      ensures partitions.cache.Cells() <= old(partitions.cache.Cells())
      ensures ok <==> Allowed(SpecOf(Live(old(pg.rel), name)), spec) && AlterSpec(old(pg.rel), name, spec).Some?
      ensures pg.Stored() == if ok then OrElse(old(pg.Stored()), AlterSpec(old(pg.rel), name, spec)) else old(pg.Stored())
    {
      var current := pg.GetTable(name);
      var verdict := ValidateSpecChange(SpecOf(current), spec);
      if !verdict.Accepted? {
        return false;
      }
      ok := AlterCleanly(name, spec);
    }

    /** The change is validated against the present spec and then applied; alone on the server it is applied if it is allowed. */
    method AlterPartitionSpec(name: string, spec: Spec) returns (r: Reply)
      requires Valid()
      modifies pg`rel, partitions.cache`items, partitions.cache`list
      ensures Valid() && (old(Fresh()) ==> Fresh())
      ensures partitions.cache.Cells() <= old(partitions.cache.Cells())
      ensures r.InvalidArgument? <==> name == ""
      ensures r == Outcome(true) <==>
                name != "" && Allowed(SpecOf(Live(old(pg.rel), name)), spec) && AlterSpec(old(pg.rel), name, spec).Some?
      ensures pg.Stored() == if r == Outcome(true) then TxResult(old(pg.Stored()), ApplySpec(name, spec, None)).0 else old(pg.Stored())
      ensures r == Outcome(true) ==> name in pg.rel.tables && pg.rel.tables[name].spec == spec
    {
      if name == "" {
        return InvalidArgument;
      }
      TxKeepsSound(pg.Stored(), ApplySpec(name, spec, None));
      TxOf(pg.Stored(), ApplySpec(name, spec, None));
      var ok := RunAlter(name, spec);
      r := Outcome(ok);
    }

    method RunRename(name: string, to: string) returns (ok: bool)
      requires Wired() && name != to
      modifies pg`rel, partitions.cache`items, partitions.cache`list
      ensures Wired()
      ensures partitions.cache.Cells() <= old(partitions.cache.Cells())
      ensures ok <==> Live(old(pg.rel), name).Some? && to !in old(pg.rel).tables
      ensures pg.Stored() == OrElse(old(pg.Stored()), Rename(old(pg.rel), name, to))
      ensures partitions.cache.Contents()
           == Without(Without(old(partitions.cache.Contents()), name), to)
    {
      ok := catalog.RenameTable(name, to);
      var removed := partitions.InvalidateTableCache(name);
      removed := partitions.InvalidateTableCache(to);
    }

    method RenameCleanly(name: string, to: string) returns (ok: bool)
      requires Wired() && name != to
      modifies pg`rel, partitions.cache`items, partitions.cache`list
      ensures Wired() && (old(Fresh()) ==> Fresh())
      ensures partitions.cache.Cells() <= old(partitions.cache.Cells())
      ensures ok <==> Live(old(pg.rel), name).Some? && to !in old(pg.rel).tables
      ensures pg.Stored() == OrElse(old(pg.Stored()), Rename(old(pg.rel), name, to))
    {
      if CacheOk(pg.Stored(), partitions.cache.Contents(), map[]) {
        RenameThenInvalidate(pg.Stored(), partitions.cache.Contents(), name, to);
      }
      ok := RunRename(name, to);
    }

    /** A rename of a table to its own name never comes back, so it has no outcome to state. */
    method RenameTable(name: string, to: string) returns (r: Reply)
      requires Valid() && (name == to ==> name == "")
      modifies pg`rel, partitions.cache`items, partitions.cache`list
      ensures Valid() && (old(Fresh()) ==> Fresh())
      ensures partitions.cache.Cells() <= old(partitions.cache.Cells())
      ensures r.InvalidArgument? <==> name == "" || to == ""
      ensures r == Outcome(true) <==> name != "" && to != "" && Live(old(pg.rel), name).Some? && to !in old(pg.rel).tables
      ensures pg.Stored() == if r == Outcome(true) then TxResult(old(pg.Stored()), Request.RenameTable(name, to)).0 else old(pg.Stored())
    {
      if name == "" || to == "" {
        return InvalidArgument;
      }
      TxKeepsSound(pg.Stored(), Request.RenameTable(name, to));
      TxOf(pg.Stored(), Request.RenameTable(name, to));
      var ok := RenameCleanly(name, to);
      r := Outcome(ok);
    }

    method RunDrop(name: string, purge: bool) returns (ok: bool)
      requires Wired() && ForeignKeysHold(pg.rel)
      modifies pg`rel, partitions.cache`items, partitions.cache`list
      ensures Wired()
      ensures partitions.cache.Cells() <= old(partitions.cache.Cells())
      ensures ok <==> Catalog.Drop(old(pg.rel), name, purge).Some?
      ensures pg.Stored() == OrElse(old(pg.Stored()), Catalog.Drop(old(pg.rel), name, purge))
      ensures partitions.cache.Contents()
           == if ok then Without(old(partitions.cache.Contents()), name) else old(partitions.cache.Contents())
    {
      ok := catalog.DropTable(name, purge);
      if ok {
        var removed := partitions.InvalidateTableCache(name);
      }
    }

    method DropCleanly(name: string, purge: bool) returns (ok: bool)
      requires Wired() && ForeignKeysHold(pg.rel) && IdsOk(pg.Stored())
      modifies pg`rel, partitions.cache`items, partitions.cache`list
      ensures Wired() && (old(Fresh()) ==> Fresh())
      ensures partitions.cache.Cells() <= old(partitions.cache.Cells())
      ensures ok <==> Catalog.Drop(old(pg.rel), name, purge).Some?
      ensures pg.Stored() == OrElse(old(pg.Stored()), Catalog.Drop(old(pg.rel), name, purge))
      ensures !ok ==> partitions.cache.Contents() == old(partitions.cache.Contents())
    {
      if CacheOk(pg.Stored(), partitions.cache.Contents(), map[]) && Catalog.Drop(pg.rel, name, purge).Some? {
        DropThenInvalidate(pg.Stored(), partitions.cache.Contents(), name, purge);
      }
      ok := RunDrop(name, purge);
    }

    method DropTable(name: string, purge: bool) returns (r: Reply)
      requires Valid()
      modifies pg`rel, partitions.cache`items, partitions.cache`list
      ensures Valid() && (old(Fresh()) ==> Fresh())
      ensures partitions.cache.Cells() <= old(partitions.cache.Cells())
      ensures r.InvalidArgument? <==> name == ""
      ensures r == Outcome(true) <==> name != "" && Catalog.Drop(old(pg.rel), name, purge).Some?
      ensures pg.Stored() == if r == Outcome(true) then TxResult(old(pg.Stored()), Request.DropTable(name, purge)).0 else old(pg.Stored())
      ensures r != Outcome(true) ==> partitions.cache.Contents() == old(partitions.cache.Contents())
    {
      if name == "" {
        return InvalidArgument;
      }
      ReferencesAreKeys(pg.rel);
      TxKeepsSound(pg.Stored(), Request.DropTable(name, purge));
      TxOf(pg.Stored(), Request.DropTable(name, purge));
      var ok := DropCleanly(name, purge);
      r := Outcome(ok);
    }
  }

  lemma CurrentsInRange(db: Db)
    requires Sound(db)
    ensures forall n :: Live(db.rel, n).Some? ==> 0 <= db.rel.tables[n].current < TWO_63
  {
    GoodIsConsistent(db);
  }

  /** No spec is stored yet for the next table id. */
  lemma FirstVersionIsFree(db: Db)
    requires Good(db)
    ensures (db.seqs.table, 1) !in db.rel.specs
  {
    NewTableId(db);
  }
}
