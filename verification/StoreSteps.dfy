/** The steps that draw ids or run a transaction keep the invariant; so does every step of a run. */
module StoreSteps {
  import opened Words
  import opened Tables
  import opened Commits
  import opened Catalog
  import opened History
  import opened PartitionSpecs
  import opened Invariants
  import opened Preservation
  import opened PreservationDdl
  import opened Purging
  import opened Interleaving
  import opened Locking
  import opened Steps

  // ----- sequences

  lemma GoodGrows(db: Db, seqs: Sequences)
    requires Good(db) && SeqsGrow(db.seqs, seqs)
    ensures Good(db.(seqs := seqs))
  {
  }

  /** The step of a request that draws from the sequences and changes no relation. */
  ghost predicate SeqMove(db: Db, seqs: Sequences, pc: Pc, pc': Pc) {
    && SeqsGrow(db.seqs, seqs)
    && Owns(pc') == Owns(pc) && HoldsX(pc') == HoldsX(pc) && HoldsS(pc') == HoldsS(pc)
    && PcOk(pc') && DataOk(db.(seqs := seqs), pc')
    && (forall x :: x in DrawnSid(pc') ==> x in DrawnSid(pc) || x >= db.seqs.snapshot)
    && (forall x :: x in DrawnIds(pc') ==> x in DrawnIds(pc) || x >= db.seqs.partition)
    && (forall t :: MayStale(pc, t) ==> MayStale(pc', t))
  }

  lemma SeqStep(w: World, seqs: Sequences, i: Thread, pc': Pc)
    requires Coherent(w) && i in w.threads && SeqMove(w.db, seqs, w.threads[i], pc')
    ensures Coherent(Set(w, i, pc').(db := w.db.(seqs := seqs)))
  {
    var db' := w.db.(seqs := seqs);
    SwapLocks(w.threads, i, pc');
    forall j | j in w.threads && j != i
      ensures DataOk(db', w.threads[j])
    {
      DataFrame(w.db, db', w.threads[j], {}, {}, {});
    }
    forall j | j in w.threads && j != i
      ensures DrawnSid(w.threads[j]) !! DrawnSid(pc') && DrawnIds(w.threads[j]) !! DrawnIds(pc')
    {
      DrawnBelow(w.db, w.threads[j]);
    }
    QuietStale(w.db, w.cache, w.threads, i, pc');
  }

  /** What a request has drawn, the sequences will not give out again. */
  lemma DrawnBelow(db: Db, pc: Pc)
    requires PcOk(pc) && DataOk(db, pc)
    ensures forall x :: x in DrawnSid(pc) ==> x < db.seqs.snapshot
    ensures forall x :: x in DrawnIds(pc) ==> x < db.seqs.partition
  {
  }

  lemma CurrentIsHead(db: Db, name: string)
    requires TablesOk(db.rel, db.logs) && Live(db.rel, name).Some?
    ensures db.rel.tables[name].current >= 0
  {
    var t := db.rel.tables[name];
    assert TableOk(db.rel, db.logs[t.id], t);
    if db.logs[t.id] != [] {
      assert RecordOk(t.id, db.logs[t.id][|db.logs[t.id]| - 1]);
    }
  }

  lemma FirstDraw(db: Db, req: Request)
    requires IdsOk(db) && req.CommitSnapshot? && Live(db.rel, req.table).Some?
    requires db.rel.tables[req.table].current == req.parent
    ensures DrawingOk(db.(seqs := db.seqs.(snapshot := db.seqs.snapshot + 1)), req, db.seqs.snapshot, [])
  {
  }

  lemma NextDraw(db: Db, req: Request, sid: int, ids: seq<int>)
    requires IdsOk(db) && req.CommitSnapshot? && DrawingOk(db, req, sid, ids) && |ids| < |req.change.files|
    ensures DrawingOk(db.(seqs := db.seqs.(partition := db.seqs.partition + 1)), req, sid, ids + [db.seqs.partition])
  {
  }

  lemma PcFits(w: World, i: Thread)
    requires Coherent(w) && i in w.threads
    ensures PcOk(w.threads[i]) && DataOk(w.db, w.threads[i])
  {
  }

  lemma BeginCommitStep(w: World, i: Thread)
    requires Coherent(w) && i in w.threads && w.threads[i].Writing? && w.threads[i].req.CommitSnapshot? && w.threads[i].wstage.Entered?
    requires IdsOk(w.db) && (Live(w.db.rel, w.threads[i].req.table).Some? ==> w.db.rel.tables[w.threads[i].req.table].current >= 0)
    ensures Coherent(DoBeginCommit(w, i))
  {
    var pc := w.threads[i];
    assert PcOk(pc);
    var w' := DoBeginCommit(w, i);
    if w'.threads[i].wstage.Done? {
      GiveUpStep(w, i);
    } else {
      FirstDraw(w.db, pc.req);
      SeqStep(w, w'.db.seqs, i, w'.threads[i]);
    }
  }

  lemma DrawMove(db: Db, pc: Pc)
    requires IdsOk(db) && pc.Writing? && pc.req.CommitSnapshot? && pc.wstage.Drawing? && PcOk(pc) && DataOk(db, pc)
    requires |pc.wstage.ids| < |pc.req.change.files|
    ensures SeqMove(db, db.seqs.(partition := db.seqs.partition + 1), pc,
                    pc.(wstage := Drawing(pc.wstage.sid, pc.wstage.ids + [db.seqs.partition])))
  {
    NextDraw(db, pc.req, pc.wstage.sid, pc.wstage.ids);
  }

  lemma DrawStep(w: World, i: Thread)
    requires Coherent(w) && i in w.threads && w.threads[i].Writing? && w.threads[i].req.CommitSnapshot? && w.threads[i].wstage.Drawing?
    requires |w.threads[i].wstage.ids| < |w.threads[i].req.change.files| && IdsOk(w.db)
    ensures Coherent(DoDraw(w, i))
  {
    if w.db.seqs.partition >= TWO_63 {
      GiveUpStep(w, i);
    } else {
      PcFits(w, i);
      DrawMove(w.db, w.threads[i]);
      SeqStep(w, DoDraw(w, i).db.seqs, i, DoDraw(w, i).threads[i]);
    }
  }

  // ----- transactions

  lemma InsertMove(db: Db, pc: Pc)
    requires pc.Inserting? && Begin(db.rel, pc.tableId, pc.readSnapshot).Some?
    ensures DbMove(db, db.(rel := Begin(db.rel, pc.tableId, pc.readSnapshot).value), pc, Idle, {})
  {
  }

  lemma InsertStep(w: World, i: Thread)
    requires Coherent(w) && i in w.threads && w.threads[i].Inserting?
    ensures Coherent(DoInsert(w, i))
  {
    var pc := w.threads[i];
    var r := Begin(w.db.rel, pc.tableId, pc.readSnapshot);
    if r.None? {
      Quiet(w, i, Idle);
    } else {
      InsertMove(w.db, pc);
      DbStep(w, w.db.(rel := r.value), i, Idle, {});
    }
  }

  lemma PublishedParts(db: Db, name: string, sid: nat, ids: seq<int>, c: Change)
    requires Drawn(db, name, sid, ids) && |ids| == |c.files|
    ensures OnlyNew(db.rel, Commit(db.rel, name, sid, ids, c), {sid}, set x | x in ids)
  {
    var t := db.rel.tables[name];
    NewPartsMatch(t.id, sid, ids, c.files, db.rel.partitions);
    CommittedParts(db.rel.partitions, NewParts(t.id, sid, ids, c.files), t.id, c.keys, sid);
  }

  lemma PublishedOther(db: Db, name: string, sid: nat, ids: seq<int>, c: Change, n: string)
    requires IdsOk(db) && Drawn(db, name, sid, ids) && |ids| == |c.files| && n != name
    ensures SameName(db.rel, Commit(db.rel, name, sid, ids, c), n)
  {
    if n in db.rel.tables {
      var t := db.rel.tables[name];
      NewPartsMatch(t.id, sid, ids, c.files, db.rel.partitions);
      OtherRows(db.rel.partitions, NewParts(t.id, sid, ids, c.files), t.id, c.keys, sid, db.rel.tables[n].id);
    }
  }

  lemma PublishedOthers(db: Db, name: string, sid: nat, ids: seq<int>, c: Change)
    requires IdsOk(db) && Drawn(db, name, sid, ids) && |ids| == |c.files|
    ensures forall n :: n != name ==> SameName(db.rel, Commit(db.rel, name, sid, ids, c), n)
  {
    forall n | n != name
      ensures SameName(db.rel, Commit(db.rel, name, sid, ids, c), n)
    {
      PublishedOther(db, name, sid, ids, c, n);
    }
  }

  lemma PublishMove(db: Db, pc: Pc)
    requires IdsOk(db) && pc.Writing? && pc.req.CommitSnapshot? && pc.wstage.Drawing? && PcOk(pc) && DataOk(db, pc)
    requires pc.wstage.sid >= 0 && |pc.wstage.ids| == |pc.req.change.files|
    requires db.rel.tables[pc.req.table].id in db.logs
    ensures var db' := Committed(db, pc.req.table, pc.wstage.sid, pc.wstage.ids, pc.req.change);
            DbMove(db, db', pc, pc.(wstage := Done([pc.req.table])), {pc.req.table})
  {
    PublishedParts(db, pc.req.table, pc.wstage.sid, pc.wstage.ids, pc.req.change);
    PublishedOthers(db, pc.req.table, pc.wstage.sid, pc.wstage.ids, pc.req.change);
  }

  lemma PublishStep(w: World, i: Thread)
    requires Coherent(w) && i in w.threads && w.threads[i].Writing? && w.threads[i].req.CommitSnapshot? && w.threads[i].wstage.Drawing?
    requires w.threads[i].wstage.sid >= 0 && |w.threads[i].wstage.ids| == |w.threads[i].req.change.files|
    requires Live(w.db.rel, w.threads[i].req.table).Some? && w.db.rel.tables[w.threads[i].req.table].id in w.db.logs
    requires IdsOk(w.db)
    ensures Coherent(DoPublish(w, i))
  {
    var pc := w.threads[i];
    PcFits(w, i);
    PublishMove(w.db, pc);
    DbStep(w, DoPublish(w, i).db, i, pc.(wstage := Done([pc.req.table])), {pc.req.table});
  }

  /** A transaction on the table rows and histories alone. */
  lemma SameStoreNames(rel: Relations, rel': Relations, changed: set<string>)
    requires rel'.partitions == rel.partitions && rel'.snapshots == rel.snapshots
    requires forall n :: n !in changed ==> (n in rel.tables <==> n in rel'.tables) && (n in rel.tables ==> rel'.tables[n] == rel.tables[n])
    ensures forall n :: n !in changed ==> SameName(rel, rel', n)
    ensures OnlyNew(rel, rel', {}, {})
  {
  }

  /** A spec or schema change leaves every query as it was. */
  lemma SameQueries(rel: Relations, rel': Relations, pc': Pc, t: string)
    requires rel'.partitions == rel.partitions
    requires Live(rel, t).Some? ==> Live(rel', t).Some? && rel'.tables[t].id == rel.tables[t].id
    ensures CacheSafe(rel, rel', pc', t)
  {
    if Live(rel, t).Some? {
      assert forall s: uint64 :: QueryPartitions(rel', t, s) == QueryPartitions(rel, t, s);
    }
  }

  ghost predicate ReadyForTx(pc: Pc) {
    pc.Writing? && pc.wstage.Entered? && PcOk(pc) && !pc.req.CommitSnapshot?
  }

  /** A failed transaction leaves the request with its invalidations only. */
  lemma NothingDone(w: World, i: Thread, owed: seq<string>)
    requires Coherent(w) && i in w.threads && ReadyForTx(w.threads[i])
    requires forall n :: n in owed ==> n in Names(w.threads[i].req)
    ensures Coherent(Set(w, i, w.threads[i].(wstage := Done(owed))))
  {
    Quiet(w, i, w.threads[i].(wstage := Done(owed)));
  }

  lemma CreateMove(db: Db, pc: Pc)
    requires ReadyForTx(pc) && pc.req.CreateTable? && TxResult(db, pc.req).0.rel != db.rel
    ensures DbMove(db, TxResult(db, pc.req).0, pc, pc.(wstage := Done([])), {pc.req.table})
    ensures CreateStep(db, pc.req.table, pc.req.schema, RequestedSpec(pc.req.rawSpec), TxResult(db, pc.req).0)
  {
    SameStoreNames(db.rel, TxResult(db, pc.req).0.rel, {pc.req.table});
  }

  lemma CreateTxStep(w: World, i: Thread)
    requires Coherent(w) && i in w.threads && ReadyForTx(w.threads[i]) && w.threads[i].req.CreateTable?
    ensures Coherent(DoTx(w, i))
  {
    var pc := w.threads[i];
    var db' := TxResult(w.db, pc.req).0;
    if db' == w.db {
      NothingDone(w, i, []);
    } else if db'.rel == w.db.rel {
      SeqStep(w, db'.seqs, i, pc.(wstage := Done([])));
    } else {
      CreateMove(w.db, pc);
      DbStep(w, db', i, pc.(wstage := Done([])), {pc.req.table});
    }
  }

  lemma AlterMove(db: Db, pc: Pc)
    requires ReadyForTx(pc) && (pc.req.ApplySpec? || pc.req.ApplySchema?)
    ensures DbMove(db, TxResult(db, pc.req).0, pc, pc.(wstage := Done([pc.req.table])), {pc.req.table})
  {
    var db' := TxResult(db, pc.req).0;
    SameStoreNames(db.rel, db'.rel, {pc.req.table});
    SameQueries(db.rel, db'.rel, pc.(wstage := Done([pc.req.table])), pc.req.table);
  }

  lemma AlterTxStep(w: World, i: Thread)
    requires Coherent(w) && i in w.threads && ReadyForTx(w.threads[i])
    requires w.threads[i].req.ApplySpec? || w.threads[i].req.ApplySchema?
    ensures Coherent(DoTx(w, i))
  {
    var pc := w.threads[i];
    AlterMove(w.db, pc);
    DbStep(w, TxResult(w.db, pc.req).0, i, pc.(wstage := Done([pc.req.table])), {pc.req.table});
  }

  lemma RenameMove(db: Db, pc: Pc)
    requires ReadyForTx(pc) && pc.req.RenameTable?
    ensures DbMove(db, TxResult(db, pc.req).0, pc, pc.(wstage := Done([pc.req.table, pc.req.to])), {pc.req.table, pc.req.to})
  {
    SameStoreNames(db.rel, TxResult(db, pc.req).0.rel, {pc.req.table, pc.req.to});
  }

  lemma RenameTxStep(w: World, i: Thread)
    requires Coherent(w) && i in w.threads && ReadyForTx(w.threads[i]) && w.threads[i].req.RenameTable?
    ensures Coherent(DoTx(w, i))
  {
    var pc := w.threads[i];
    RenameMove(w.db, pc);
    DbStep(w, TxResult(w.db, pc.req).0, i, pc.(wstage := Done([pc.req.table, pc.req.to])), {pc.req.table, pc.req.to});
  }

  lemma PurgedOthers(db: Db, name: string, n: string)
    requires IdsOk(db) && Purge(db.rel, name).Some? && n != name
    ensures SameName(db.rel, Purge(db.rel, name).value, n)
  {
    if n in db.rel.tables {
      RowsKept(db.rel, db.rel.tables[name].id, db.rel.tables[n].id);
    }
  }

  lemma DroppedFrame(db: Db, name: string, purge: bool)
    requires IdsOk(db) && Catalog.Drop(db.rel, name, purge).Some?
    ensures forall n :: n != name ==> SameName(db.rel, Catalog.Drop(db.rel, name, purge).value, n)
    ensures OnlyNew(db.rel, Catalog.Drop(db.rel, name, purge).value, {}, {})
  {
    if purge {
      forall n | n != name
        ensures SameName(db.rel, Purge(db.rel, name).value, n)
      {
        PurgedOthers(db, name, n);
      }
    } else {
      SameStoreNames(db.rel, Catalog.Drop(db.rel, name, false).value, {name});
    }
  }

  lemma DropMove(db: Db, pc: Pc)
    requires IdsOk(db) && ReadyForTx(pc) && pc.req.DropTable? && Catalog.Drop(db.rel, pc.req.table, pc.req.purge).Some?
    ensures DbMove(db, OrElse(db, Catalog.Drop(db.rel, pc.req.table, pc.req.purge)), pc, pc.(wstage := Done([pc.req.table])), {pc.req.table})
  {
    DroppedFrame(db, pc.req.table, pc.req.purge);
  }

  lemma DropTxStep(w: World, i: Thread)
    requires Coherent(w) && i in w.threads && ReadyForTx(w.threads[i]) && w.threads[i].req.DropTable? && IdsOk(w.db)
    ensures Coherent(DoTx(w, i))
  {
    var pc := w.threads[i];
    if Catalog.Drop(w.db.rel, pc.req.table, pc.req.purge).None? {
      NothingDone(w, i, []);
    } else {
      DropMove(w.db, pc);
      DbStep(w, TxResult(w.db, pc.req).0, i, pc.(wstage := Done([pc.req.table])), {pc.req.table});
    }
  }

  lemma TxStep(w: World, i: Thread)
    requires Coherent(w) && i in w.threads && ReadyForTx(w.threads[i]) && IdsOk(w.db)
    ensures Coherent(DoTx(w, i))
  {
    match w.threads[i].req
    case CreateTable(_, _, _) => CreateTxStep(w, i);
    case ApplySpec(_, _, _) => AlterTxStep(w, i);
    case ApplySchema(_, _) => AlterTxStep(w, i);
    case RenameTable(_, _) => RenameTxStep(w, i);
    case DropTable(_, _) => DropTxStep(w, i);
  }

  // ----- the database alone

  lemma DropGood(db: Db, req: Request)
    requires Good(db) && req.DropTable?
    ensures Good(TxResult(db, req).0)
  {
    if Catalog.Drop(db.rel, req.table, req.purge).Some? {
      if req.purge {
        PurgeKeepsGood(db, req.table);
      } else {
        SoftDropKeepsGood(db, req.table);
      }
    }
  }

  lemma CreateGood(db: Db, req: Request)
    requires Good(db) && req.CreateTable?
    ensures Good(TxResult(db, req).0)
  {
    var db' := TxResult(db, req).0;
    if db'.rel == db.rel {
      GoodGrows(db, db'.seqs);
    } else {
      CreateKeepsGood(db, req.table, req.schema, RequestedSpec(req.rawSpec), db');
    }
  }

  lemma TxGood(db: Db, req: Request)
    requires Good(db)
    ensures Good(TxResult(db, req).0)
  {
    match req
    case CreateTable(_, _, _) => CreateGood(db, req);
    case ApplySpec(name, spec, _) =>
      if Live(db.rel, name).Some? {
        AlterSpecKeepsGood(db, name, spec);
      }
    case ApplySchema(name, schema) =>
      if Live(db.rel, name).Some? {
        AlterSchemaKeepsGood(db, name, schema);
      }
    case RenameTable(name, to) =>
      if Rename(db.rel, name, to).Some? {
        RenameKeepsGood(db, name, to);
      }
    case DropTable(_, _) => DropGood(db, req);
    case _ =>
  }

  lemma InsertGood(w: World, i: Thread)
    requires Good(w.db) && i in w.threads && w.threads[i].Inserting?
    ensures Good(DoInsert(w, i).db)
  {
    if Begin(w.db.rel, w.threads[i].tableId, w.threads[i].readSnapshot).Some? {
      BeginKeepsGood(w.db, w.threads[i].tableId, w.threads[i].readSnapshot);
    }
  }

  lemma DrawsGood(db: Db, db': Db)
    requires Good(db) && db' == db.(seqs := db'.seqs) && SeqsGrow(db.seqs, db'.seqs)
    ensures Good(db')
  {
    GoodGrows(db, db'.seqs);
  }

  lemma BeginCommitGood(w: World, i: Thread)
    requires Good(w.db) && i in w.threads && w.threads[i].Writing? && w.threads[i].req.CommitSnapshot?
    ensures Good(DoBeginCommit(w, i).db)
  {
    DrawsGood(w.db, DoBeginCommit(w, i).db);
  }

  lemma DrawGood(w: World, i: Thread)
    requires Good(w.db) && i in w.threads && w.threads[i].Writing? && w.threads[i].wstage.Drawing?
    ensures Good(DoDraw(w, i).db)
  {
    DrawsGood(w.db, DoDraw(w, i).db);
  }

  lemma PublishGood(w: World, i: Thread)
    requires Good(w.db) && i in w.threads && CanPublish(w, i) && DataOk(w.db, w.threads[i])
    ensures Good(DoPublish(w, i).db)
  {
    var pc := w.threads[i];
    CommitKeepsGood(w.db, pc.req.table, pc.wstage.sid, pc.wstage.ids, pc.req.change);
  }

  lemma CommitStepGood(w: World, i: Thread, a: Action)
    requires Good(w.db) && i in w.threads && DataOk(w.db, w.threads[i]) && !a.InsertTxn? && !a.RunTx?
    ensures Good(DbAfter(w, i, a))
  {
    var pc := w.threads[i];
    match a
    case BeginCommit =>
      if pc.Writing? && pc.req.CommitSnapshot? {
        BeginCommitGood(w, i);
      }
    case Draw =>
      if pc.Writing? && pc.wstage.Drawing? {
        DrawGood(w, i);
      }
    case Publish =>
      if CanPublish(w, i) {
        PublishGood(w, i);
      }
    case _ =>
  }

  lemma DbAfterGood(w: World, i: Thread, a: Action)
    requires Good(w.db) && i in w.threads && PcOk(w.threads[i]) && DataOk(w.db, w.threads[i])
    ensures Good(DbAfter(w, i, a))
  {
    var pc := w.threads[i];
    match a
    case InsertTxn =>
      if pc.Inserting? {
        InsertGood(w, i);
      }
    case RunTx =>
      if pc.Writing? {
        TxGood(w.db, pc.req);
      }
    case _ => CommitStepGood(w, i, a);
  }

  lemma StepKeepsGood(cfg: Config, w: World, i: Thread, a: Action)
    requires Good(w.db) && Step(cfg, w, i, a).Some? && PcOk(w.threads[i]) && DataOk(w.db, w.threads[i])
    ensures Good(Step(cfg, w, i, a).value.db)
  {
    StepDb(cfg, w, i, a);
    DbAfterGood(w, i, a);
  }

  // ----- every step

  lemma ReadingStep(cfg: Config, w: World, i: Thread, a: Action)
    requires Coherent(w) && Step(cfg, w, i, a).Some?
    requires a.Resolve? || a.Probe? || a.Query? || a.Store? || a.Note? || a.ReleaseShared?
    ensures Coherent(Step(cfg, w, i, a).value)
  {
    var pc := w.threads[i];
    PcFits(w, i);
    match a
    case Resolve => LookStep(w, i, Resolved(ReadAt(w.db.rel, pc.req.table, pc.req.snapshot)));
    case Probe => ProbeStep(cfg, w, i);
    case Query => LookStep(w, i, Queried(pc.rstage.at, QueryPartitions(w.db.rel, pc.req.table, pc.rstage.at)));
    case Store => StoreStep(cfg, w, i);
    case Note => LookStep(w, i, Noted(Live(w.db.rel, pc.req.table)));
    case ReleaseShared => ReleaseSharedStep(w, i);
  }

  lemma OwedStep(w: World, i: Thread)
    requires Coherent(w) && i in w.threads && w.threads[i].Owing? && w.threads[i].names != []
    ensures var pc := w.threads[i];
            Coherent(Cleaned(w, i, pc.names[0], if |pc.names| == 1 then Idle else Owing(pc.req, pc.names[1..])))
  {
    var pc := w.threads[i];
    InvalidateStep(w, i, pc.names[0], if |pc.names| == 1 then Idle else Owing(pc.req, pc.names[1..]));
  }

  lemma InvalidatingStep(cfg: Config, w: World, i: Thread)
    requires Coherent(w) && Step(cfg, w, i, Invalidate).Some?
    ensures Coherent(Step(cfg, w, i, Invalidate).value)
  {
    var pc := w.threads[i];
    assert PcOk(pc);
    if pc.Writing? {
      InvalidateStep(w, i, pc.wstage.owed[0], pc.(wstage := Done(pc.wstage.owed[1..])));
    } else {
      OwedStep(w, i);
    }
  }

  lemma WritingStep(cfg: Config, w: World, i: Thread, a: Action)
    requires Coherent(w) && Step(cfg, w, i, a).Some?
    requires IdsOk(w.db) && (w.threads[i].Writing? && Live(w.db.rel, w.threads[i].req.table).Some? ==> w.db.rel.tables[w.threads[i].req.table].current >= 0)
    requires a.InsertTxn? || a.BeginCommit? || a.Draw? || a.Abort? || a.Publish? || a.RunTx? || a.Invalidate? || a.ReleaseExclusive?
    ensures Coherent(Step(cfg, w, i, a).value)
  {
    PcFits(w, i);
    match a
    case InsertTxn => InsertStep(w, i);
    case BeginCommit => BeginCommitStep(w, i);
    case Draw => DrawStep(w, i);
    case Abort => GiveUpStep(w, i);
    case Publish => PublishStep(w, i);
    case RunTx => TxStep(w, i);
    case Invalidate => InvalidatingStep(cfg, w, i);
    case ReleaseExclusive(name) => ReleaseExclusiveStep(w, i, name);
  }

  lemma CurrentsAreHeads(db: Db)
    requires TablesOk(db.rel, db.logs)
    ensures forall n :: Live(db.rel, n).Some? ==> db.rel.tables[n].current >= 0
  {
    forall n | Live(db.rel, n).Some?
      ensures db.rel.tables[n].current >= 0
    {
      CurrentIsHead(db, n);
    }
  }

  lemma StepKeepsCoherent(cfg: Config, w: World, i: Thread, a: Action)
    requires Coherent(w) && Step(cfg, w, i, a).Some? && IdsOk(w.db)
    requires forall n :: Live(w.db.rel, n).Some? ==> w.db.rel.tables[n].current >= 0
    ensures Coherent(Step(cfg, w, i, a).value)
  {
    match a
    case Submit(req) => SubmitStep(w, i, req);
    case LockShared => LockSharedStep(w, i);
    case Announce => AnnounceStep(w, i);
    case LockExclusive => LockExclusiveStep(w, i);
    case Resolve => ReadingStep(cfg, w, i, a);
    case Probe => ReadingStep(cfg, w, i, a);
    case Query => ReadingStep(cfg, w, i, a);
    case Store => ReadingStep(cfg, w, i, a);
    case Note => ReadingStep(cfg, w, i, a);
    case ReleaseShared => ReadingStep(cfg, w, i, a);
    case _ => WritingStep(cfg, w, i, a);
  }

  lemma StepKeepsInv(cfg: Config, w: World, i: Thread, a: Action)
    requires Inv(w) && Step(cfg, w, i, a).Some?
    ensures Inv(Step(cfg, w, i, a).value)
  {
    PcFits(w, i);
    CurrentsAreHeads(w.db);
    StepKeepsGood(cfg, w, i, a);
    StepKeepsCoherent(cfg, w, i, a);
  }

  lemma NextKeepsInv(cfg: Config, w: World, w': World)
    requires Inv(w) && Next(cfg, w, w')
    ensures Inv(w')
  {
    var i, a :| Step(cfg, w, i, a) == Some(w');
    StepKeepsInv(cfg, w, i, a);
  }

  /** In every interleaving of any requests, every state satisfies the invariant. */
  lemma {:induction false} RunInv(cfg: Config, ws: seq<World>, k: nat)
    requires IsRun(cfg, ws) && k < |ws|
    ensures Inv(ws[k])
  {
    if k == 0 {
      InitInv(ws[0]);
    } else {
      RunInv(cfg, ws, k - 1);
      NextKeepsInv(cfg, ws[k - 1], ws[k]);
    }
  }
}
