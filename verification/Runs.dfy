/** What one step, and a whole run, leaves of the state before it. */
module Runs {
  import opened Words
  import opened Tables
  import opened History
  import opened Invariants
  import opened Interleaving
  import opened Locking
  import opened Steps
  import opened StoreSteps

  // ----- one step

  ghost predicate OnlyAtNames(rel: Relations, rel': Relations, names: set<string>) {
    forall n :: n !in names ==> SameName(rel, rel', n)
  }

  lemma TxFrame(db: Db, pc: Pc)
    requires IdsOk(db) && ReadyForTx(pc)
    ensures OnlyAtNames(db.rel, TxResult(db, pc.req).0.rel, HoldsX(pc))
  {
    var db' := TxResult(db, pc.req).0;
    if db'.rel != db.rel {
      match pc.req
      case CreateTable(_, _, _) => CreateMove(db, pc);
      case ApplySpec(_, _, _) => AlterMove(db, pc);
      case ApplySchema(_, _) => AlterMove(db, pc);
      case RenameTable(_, _) => RenameMove(db, pc);
      case DropTable(_, _) => DropMove(db, pc);
    }
  }

  /** A step moves no other request. */
  lemma StepIsOwn(cfg: Config, w: World, i: Thread, a: Action)
    requires Step(cfg, w, i, a).Some?
    ensures var ts := Step(cfg, w, i, a).value.threads; i in ts && ts == w.threads[i := ts[i]]
  {
  }

  /** A step changes what is stored only for the names that its request has locked exclusively. */
  lemma StepFrame(cfg: Config, w: World, i: Thread, a: Action)
    requires IdsOk(w.db) && Step(cfg, w, i, a).Some? && PcOk(w.threads[i]) && DataOk(w.db, w.threads[i])
    ensures OnlyAtNames(w.db.rel, Step(cfg, w, i, a).value.db.rel, HoldsX(w.threads[i]))
  {
    var pc := w.threads[i];
    match a
    case Publish => PublishMove(w.db, pc);
    case RunTx => TxFrame(w.db, pc);
    case _ =>
      SameStore(cfg, w, i, a);
      SameStoreNames(w.db.rel, Step(cfg, w, i, a).value.db.rel, {});
  }

  lemma SameStore(cfg: Config, w: World, i: Thread, a: Action)
    requires Step(cfg, w, i, a).Some? && !a.Publish? && !a.RunTx?
    ensures var rel := Step(cfg, w, i, a).value.db.rel;
            rel.tables == w.db.rel.tables && rel.partitions == w.db.rel.partitions && rel.snapshots == w.db.rel.snapshots
  {
  }

  /** Each list of commits stays, or grows by one commit of its own table with a larger id. */
  ghost predicate LogsGrow(logs: map<int, Log>, logs': map<int, Log>) {
    forall id :: id in logs ==> id in logs' && logs[id] <= logs'[id]
  }

  lemma StepLogs(cfg: Config, w: World, i: Thread, a: Action)
    requires IdsOk(w.db) && Step(cfg, w, i, a).Some?
    ensures LogsGrow(w.db.logs, Step(cfg, w, i, a).value.db.logs)
  {
  }

  ghost predicate SeqsBounded(s: Sequences) {
    s.table <= TWO_63 && s.snapshot <= TWO_63 && s.partition <= TWO_63
  }

  lemma StepSeqs(cfg: Config, w: World, i: Thread, a: Action)
    requires Step(cfg, w, i, a).Some?
    ensures SeqsGrow(w.db.seqs, Step(cfg, w, i, a).value.db.seqs)
    ensures SeqsBounded(w.db.seqs) ==> SeqsBounded(Step(cfg, w, i, a).value.db.seqs)
  {
  }

  // ----- a run

  ghost predicate AllIdle(w: World) {
    forall i :: i in w.threads ==> w.threads[i].Idle?
  }

  ghost predicate Continues(cfg: Config, ws: seq<World>, more: seq<World>) {
    IsRun(cfg, more) && ws <= more
  }

  lemma OneStepOn(cfg: Config, ws: seq<World>, w: World)
    requires IsRun(cfg, ws) && Next(cfg, ws[|ws| - 1], w)
    ensures Continues(cfg, ws, ws + [w])
  {
    var more := ws + [w];
    forall k | 0 < k < |more|
      ensures Next(cfg, more[k - 1], more[k])
    {
      assert k < |ws| ==> more[k] == ws[k];
    }
  }

  lemma StepOf(cfg: Config, ws: seq<World>, k: nat) returns (i: Thread, a: Action)
    requires IsRun(cfg, ws) && k + 1 < |ws|
    ensures Step(cfg, ws[k], i, a) == Some(ws[k + 1]) && i in ws[k].threads
    ensures Coherent(ws[k]) && IdsOk(ws[k].db)
  {
    RunInv(cfg, ws, k);
    assert Next(cfg, ws[k], ws[k + 1]);
    i, a :| Step(cfg, ws[k], i, a) == Some(ws[k + 1]);
  }

  lemma NextLogs(cfg: Config, ws: seq<World>, k: nat)
    requires IsRun(cfg, ws) && k + 1 < |ws|
    ensures LogsGrow(ws[k].db.logs, ws[k + 1].db.logs)
  {
    var i, a := StepOf(cfg, ws, k);
    StepLogs(cfg, ws[k], i, a);
  }

  lemma {:induction false} LogsGrowAlong(ws: seq<World>, j: nat, k: nat)
    requires j <= k < |ws| && forall m :: 0 < m < |ws| ==> LogsGrow(ws[m - 1].db.logs, ws[m].db.logs)
    ensures LogsGrow(ws[j].db.logs, ws[k].db.logs)
  {
    if j < k {
      LogsGrowAlong(ws, j, k - 1);
    }
  }

  /** Commits are never taken back, and a list is never given to another table. */
  lemma RunLogs(cfg: Config, ws: seq<World>, j: nat, k: nat)
    requires IsRun(cfg, ws) && j <= k < |ws|
    ensures LogsGrow(ws[j].db.logs, ws[k].db.logs)
  {
    forall m | 0 < m < |ws|
      ensures LogsGrow(ws[m - 1].db.logs, ws[m].db.logs)
    {
      NextLogs(cfg, ws, m - 1);
    }
    LogsGrowAlong(ws, j, k);
  }

  lemma NextSeqs(cfg: Config, ws: seq<World>, k: nat)
    requires IsRun(cfg, ws) && k + 1 < |ws| && SeqsBounded(ws[k].db.seqs)
    ensures SeqsBounded(ws[k + 1].db.seqs)
  {
    var i, a := StepOf(cfg, ws, k);
    StepSeqs(cfg, ws[k], i, a);
  }

  lemma {:induction false} RunSeqs(cfg: Config, ws: seq<World>, k: nat)
    requires IsRun(cfg, ws) && k < |ws|
    ensures SeqsBounded(ws[k].db.seqs)
  {
    if k > 0 {
      RunSeqs(cfg, ws, k - 1);
      NextSeqs(cfg, ws, k - 1);
    }
  }
}
