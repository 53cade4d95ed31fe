/** A table that a transaction row names is never purged, so what it has stored can be read for ever. */
module Retention {
  import opened Words
  import opened Tables
  import opened Catalog
  import opened History
  import opened Invariants
  import opened Interleaving
  import opened StoreSteps
  import opened Runs
  import opened Purging
  import opened Scenarios
  import opened StableReads

  // ----- transaction rows stay

  lemma StepTransactions(w: World, i: Thread, a: Action)
    requires i in w.threads
    ensures w.db.rel.transactions <= DbAfter(w, i, a).rel.transactions
  {
    if a.RunTx? && w.threads[i].Writing? {
      TxTransactions(w.db, w.threads[i].req);
    }
  }

  lemma TxTransactions(db: Db, req: Request)
    ensures TxResult(db, req).0.rel.transactions == db.rel.transactions
  {
  }

  lemma StaysNamed(cfg: Config, ws: seq<World>, j: nat, id: int)
    requires IsRun(cfg, ws) && j + 1 < |ws| && Named(ws[j].db.rel, id)
    ensures Named(ws[j + 1].db.rel, id)
  {
    var i, a := StepOf(cfg, ws, j);
    StepDb(cfg, ws[j], i, a);
    StepTransactions(ws[j], i, a);
    var t :| t in ws[j].db.rel.transactions && t.tableId == id;
    assert t in ws[j + 1].db.rel.transactions;
  }

  lemma {:induction false} RunNamed(cfg: Config, ws: seq<World>, j: nat, k: nat, id: int)
    requires IsRun(cfg, ws) && j <= k < |ws| && Named(ws[j].db.rel, id)
    ensures Named(ws[k].db.rel, id)
    decreases k - j
  {
    if j < k {
      StaysNamed(cfg, ws, j, id);
      RunNamed(cfg, ws, j + 1, k, id);
    }
  }

  lemma NamedIsStored(db: Db, id: int) returns (name: string)
    requires References(db.rel) && Named(db.rel, id)
    ensures name in db.rel.tables && db.rel.tables[name].id == id
  {
    var t :| t in db.rel.transactions && t.tableId == id;
    assert id in TableIds(db.rel);
    name :| name in db.rel.tables && db.rel.tables[name].id == id;
  }

  /** From the first transaction on, the table keeps a row under some name, and no purge of it can succeed. */
  lemma NamedForEver(cfg: Config, ws: seq<World>, j: nat, k: nat, id: int) returns (name: string)
    requires IsRun(cfg, ws) && j <= k < |ws| && Named(ws[j].db.rel, id)
    ensures name in ws[k].db.rel.tables && ws[k].db.rel.tables[name].id == id && Purge(ws[k].db.rel, name).None?
  {
    RunNamed(cfg, ws, j, k, id);
    RunInv(cfg, ws, k);
    name := NamedIsStored(ws[k].db, id);
    PurgeSucceedsIff(ws[k].db, name);
  }

  // ----- and so do the rows it reads

  lemma StoredIsReplay(db: Db, name: string, s: int)
    requires Good(db) && name in db.rel.tables
    ensures var id := db.rel.tables[name].id; id in db.logs && QueryById(db.rel, id, s) == Replay(db.logs[id], s)
  {
    var t := db.rel.tables[name];
    assert TableOk(db.rel, db.logs[t.id], t);
    TimeTravel(t.id, db.logs[t.id], s);
  }

  lemma RunStored(cfg: Config, ws: seq<World>, k: nat, name: string, s: int)
    requires IsRun(cfg, ws) && k < |ws| && name in ws[k].db.rel.tables
    ensures var id := ws[k].db.rel.tables[name].id;
            id in ws[k].db.logs && QueryById(ws[k].db.rel, id, s) == Replay(ws[k].db.logs[id], s)
  {
    RunInv(cfg, ws, k);
    StoredIsReplay(ws[k].db, name, s);
  }

  /** A snapshot that the table has reached is settled: whatever a commit under way has drawn is greater. */
  lemma ReachedIsSettled(cfg: Config, ws: seq<World>, k: nat, name: string, s: int)
    requires IsRun(cfg, ws) && k < |ws| && name in ws[k].db.rel.tables && s <= ws[k].db.rel.tables[name].current
    ensures Settled(ws[k], ws[k].db.rel.tables[name].id, s)
  {
    RunInv(cfg, ws, k);
    var w, id := ws[k], ws[k].db.rel.tables[name].id;
    CurrentIsStored(w.db, name);
    forall i | i in w.threads && DrawsFor(w, i, id)
      ensures w.threads[i].wstage.sid > s
    {
      PcFits(w, i);
      assert w.threads[i].req.table == name;
    }
  }

  lemma CurrentIsStored(db: Db, name: string)
    requires Good(db) && name in db.rel.tables
    ensures var t := db.rel.tables[name];
            t.current < db.seqs.snapshot && (t.current == 0 || (t.current in db.rel.snapshots && db.rel.snapshots[t.current].tableId == t.id))
  {
    var t := db.rel.tables[name];
    var log := db.logs[t.id];
    assert TableOk(db.rel, log, t);
    if log != [] {
      assert db.rel.snapshots[log[|log| - 1].sid] == SnapshotOf(t.id, log, |log| - 1);
    }
  }

  /**
    Once a transaction row names a table, the rows stored for a settled snapshot of it
    are the same in all later states: through renames, soft drops and purges alike.
   */
  lemma NamedRowsStay(cfg: Config, ws: seq<World>, j: nat, k: nat, name: string, s: int)
    requires IsRun(cfg, ws) && j <= k < |ws| && name in ws[j].db.rel.tables
    requires Named(ws[j].db.rel, ws[j].db.rel.tables[name].id) && Settled(ws[j], ws[j].db.rel.tables[name].id, s)
    ensures var id := ws[j].db.rel.tables[name].id; QueryById(ws[k].db.rel, id, s) == QueryById(ws[j].db.rel, id, s)
  {
    var id := ws[j].db.rel.tables[name].id;
    var name' := NamedForEver(cfg, ws, j, k, id);
    RunStored(cfg, ws, j, name, s);
    RunStored(cfg, ws, k, name', s);
    RunSettled(cfg, ws, j, k, id, s);
    SameReplay(ws[j].db.logs[id], ws[k].db.logs[id], s);
  }

  // ----- a purge that a transaction blocks

  const DROPS := Kinds(true, false)

  /** The database with one table and one transaction that reads it. */
  function WithReader(t: string): Db {
    WithTable(t).(rel := WithTable(t).rel.(transactions := [TxnRow(1, 0)]))
  }

  lemma Inserts(cfg: Config, t: string)
    ensures Step(cfg, Pair(WithTable(t), [], Idle, Inserting(1, 0)), 1, InsertTxn) == Some(Pair(WithReader(t), [], Idle, Idle))
  {
    EmptyListing(t);
    assert WithTable(t).rel.tables[t].id in TableIds(WithTable(t).rel);
    assert WithTable(t).rel.transactions + [TxnRow(1, 0)] == [TxnRow(1, 0)];
    Moves(WithTable(t), [], Idle, Inserting(1, 0), Idle);
  }

  lemma Looks(cfg: Config, t: string)
    ensures var db, req := WithTable(t), BeginTxn(t);
            && Step(cfg, Pair(db, [], Idle, Idle), 1, Submit(req)) == Some(Pair(db, [], Idle, WaitShared(req)))
            && Step(cfg, Pair(db, [], Idle, WaitShared(req)), 1, LockShared) == Some(Pair(db, [], Idle, Reading(req, Locked)))
  {
    var db, req := WithTable(t), BeginTxn(t);
    Moves(db, [], Idle, Idle, WaitShared(req));
    Moves(db, [], Idle, WaitShared(req), Reading(req, Locked));
  }

  lemma Notes(cfg: Config, t: string)
    ensures var db, req := WithTable(t), BeginTxn(t);
            var noted := Reading(req, Noted(Live(db.rel, t)));
            && Step(cfg, Pair(db, [], Idle, Reading(req, Locked)), 1, Note) == Some(Pair(db, [], Idle, noted))
            && Step(cfg, Pair(db, [], Idle, noted), 1, ReleaseShared) == Some(Pair(db, [], Idle, Inserting(1, 0)))
  {
    var db, req := WithTable(t), BeginTxn(t);
    var noted := Reading(req, Noted(Live(db.rel, t)));
    EmptyListing(t);
    Moves(db, [], Idle, Reading(req, Locked), noted);
    Moves(db, [], Idle, noted, Inserting(1, 0));
  }

  /** A transaction begins on the one table there is. */
  lemma Begins(cfg: Config, t: string) returns (ws: seq<World>)
    ensures Path(cfg, DROPS, ws) && ws[0] == Pair(WithTable(t), [], Idle, Idle) && ws[|ws| - 1] == Pair(WithReader(t), [], Idle, Idle)
  {
    var db, req := WithTable(t), BeginTxn(t);
    Looks(cfg, t);
    Notes(cfg, t);
    Inserts(cfg, t);
    ws := Extend(cfg, DROPS, [Pair(db, [], Idle, Idle)], 1, Submit(req), Pair(db, [], Idle, WaitShared(req)));
    ws := Extend(cfg, DROPS, ws, 1, LockShared, Pair(db, [], Idle, Reading(req, Locked)));
    ws := Extend(cfg, DROPS, ws, 1, Note, Pair(db, [], Idle, Reading(req, Noted(Live(db.rel, t)))));
    ws := Extend(cfg, DROPS, ws, 1, ReleaseShared, Pair(db, [], Idle, Inserting(1, 0)));
    ws := Extend(cfg, DROPS, ws, 1, InsertTxn, Pair(WithReader(t), [], Idle, Idle));
  }

  lemma ReaderIsNamed(t: string)
    ensures Live(WithReader(t).rel, t).Some? && Named(WithReader(t).rel, WithReader(t).rel.tables[t].id)
  {
    EmptyListing(t);
    assert WithReader(t).rel.transactions[0] in WithReader(t).rel.transactions;
  }

  lemma BeforePurge(cfg: Config, t: string) returns (ws: seq<World>)
    ensures Path(cfg, DROPS, ws) && ws[0] == Pair(EMPTY, [], Idle, Idle)
    ensures ws[|ws| - 1] == Pair(WithReader(t), [], Writing(DropTable(t, true), {t}, Entered), Idle)
  {
    EmptyListing(t);
    var a := WriterRuns(cfg, DROPS, EMPTY, [], CreateTable(t, "{}", "day"));
    var b := Begins(cfg, t);
    var c := TakesLock(cfg, DROPS, WithReader(t), [], DropTable(t, true));
    assert {} + {t} == {t};
    ws := Join(cfg, DROPS, a, b);
    ws := Join(cfg, DROPS, ws, c);
  }

  /** For any table name: a table is created, a transaction on it begins, and the purge of the table runs and fails. */
  lemma ReaderBlocksPurge(cfg: Config, t: string) returns (ws: seq<World>)
    ensures IsRun(cfg, ws) && |ws| >= 2
    ensures var w, w' := ws[|ws| - 2], ws[|ws| - 1];
            && w == Pair(WithReader(t), [], Writing(DropTable(t, true), {t}, Entered), Idle)
            && Step(cfg, w, 0, RunTx) == Some(w')
            && w'.db == w.db && Live(w'.db.rel, t).Some? && Named(w'.db.rel, w'.db.rel.tables[t].id)
  {
    var before := BeforePurge(cfg, t);
    ReaderIsNamed(t);
    var none := NamedForEver(cfg, before, |before| - 1, |before| - 1, WithReader(t).rel.tables[t].id);
    PurgeFails(cfg, t, none);
    var after := Pair(WithReader(t), [], Writing(DropTable(t, true), {t}, Done([])), Idle);
    OneStepOn(cfg, before, after);
    ws := before + [after];
  }

  lemma PurgeFails(cfg: Config, t: string, n: string)
    requires n in WithReader(t).rel.tables && Purge(WithReader(t).rel, n).None?
    ensures Step(cfg, Pair(WithReader(t), [], Writing(DropTable(t, true), {t}, Entered), Idle), 0, RunTx)
         == Some(Pair(WithReader(t), [], Writing(DropTable(t, true), {t}, Done([])), Idle))
  {
    EmptyListing(t);
    RunsTx(cfg, WithReader(t), [], DropTable(t, true), {t});
  }
}
