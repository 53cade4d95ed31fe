/** The commit call of the registry is the commit of the transition system, run by one request on its own. */
module CommitCalls {
  import opened Words
  import opened Tables
  import opened Invariants
  import opened Interleaving
  import opened Steps
  import opened Runs
  import opened Registry

  ghost predicate Moves(cfg: Config, w: World, i: Thread, w': World) {
    exists a :: Step(cfg, w, i, a) == Some(w')
  }

  /** Consecutive steps of one request. */
  ghost predicate Alone(cfg: Config, ws: seq<World>, i: Thread) {
    ws != [] && forall k :: 0 < k < |ws| ==> Moves(cfg, ws[k - 1], i, ws[k])
  }

  lemma OneMore(cfg: Config, ws: seq<World>, i: Thread, a: Action, w: World) returns (more: seq<World>)
    requires Alone(cfg, ws, i) && Step(cfg, ws[|ws| - 1], i, a) == Some(w)
    ensures Alone(cfg, more, i) && more[0] == ws[0] && more[|more| - 1] == w
  {
    more := ws + [w];
    assert Moves(cfg, ws[|ws| - 1], i, w);
    forall k | 0 < k < |more|
      ensures Moves(cfg, more[k - 1], i, more[k])
    {
      if k < |ws| {
        assert more[k] == ws[k];
      }
    }
  }

  /** A commit of `c` that has drawn its snapshot id and `n` partition ids. */
  function AfterDrawing(w: World, i: Thread, req: Request, n: nat): World
    requires i in w.threads && req.CommitSnapshot?
  {
    Set(w, i, Writing(req, {req.table}, Drawing(w.db.seqs.snapshot, Consecutive(w.db.seqs.partition, n)))).(db := AfterDraws(w.db, n))
  }

  function Ended(w: World, i: Thread, req: Request, owed: seq<string>, db: Db): World {
    Set(w, i, Writing(req, {req.table}, Done(owed))).(db := db)
  }

  /** The request holds the lock of its table and has done nothing yet. */
  ghost predicate AtStart(w: World, i: Thread, req: Request) {
    && req.CommitSnapshot?
    && i in w.threads && w.threads[i] == Writing(req, {req.table}, Entered)
    && SeqsBounded(w.db.seqs) && w.db.seqs.snapshot > 0
  }

  /** The checks that precede the draws. */
  predicate Accepted(w: World, req: Request)
    requires req.CommitSnapshot?
  {
    Live(w.db.rel, req.table).Some? && CurrentSnapshot(w.db.rel, req.table) == req.parent && w.db.seqs.snapshot < TWO_63
  }

  lemma SetTwice(w: World, i: Thread, p: Pc, q: Pc)
    ensures w.threads[i := p][i := q] == w.threads[i := q]
  {
  }

  lemma Begins(cfg: Config, w: World, i: Thread, req: Request)
    requires AtStart(w, i, req)
    ensures Step(cfg, w, i, BeginCommit) == Some(if Accepted(w, req) then AfterDrawing(w, i, req, 0) else Ended(w, i, req, [], w.db))
  {
    assert Consecutive(w.db.seqs.partition, 0) == [];
  }

  lemma DrawsNext(cfg: Config, w: World, i: Thread, req: Request, n: nat)
    requires AtStart(w, i, req) && n < |req.change.files|
    ensures Step(cfg, AfterDrawing(w, i, req, n), i, Draw)
         == Some(if w.db.seqs.partition + n >= TWO_63 then Ended(w, i, req, [], AfterDraws(w.db, n)) else AfterDrawing(w, i, req, n + 1))
  {
    var at := AfterDrawing(w, i, req, n);
    SetTwice(w, i, at.threads[i], Writing(req, {req.table}, Done([])));
    SetTwice(w, i, at.threads[i], AfterDrawing(w, i, req, n + 1).threads[i]);
    assert Consecutive(w.db.seqs.partition, n + 1) == Consecutive(w.db.seqs.partition, n) + [w.db.seqs.partition + n];
  }

  lemma {:induction false} Draws(cfg: Config, w: World, i: Thread, req: Request, n: nat) returns (ws: seq<World>)
    requires AtStart(w, i, req) && Accepted(w, req) && n <= |req.change.files|
    requires n > 0 ==> w.db.seqs.partition + n <= TWO_63
    ensures Alone(cfg, ws, i) && ws[0] == w && ws[|ws| - 1] == AfterDrawing(w, i, req, n)
    decreases n
  {
    if n == 0 {
      Begins(cfg, w, i, req);
      ws := OneMore(cfg, [w], i, BeginCommit, AfterDrawing(w, i, req, 0));
    } else {
      ws := Draws(cfg, w, i, req, n - 1);
      DrawsNext(cfg, w, i, req, n - 1);
      ws := OneMore(cfg, ws, i, Draw, AfterDrawing(w, i, req, n));
    }
  }

  lemma Publishes(cfg: Config, w: World, i: Thread, req: Request)
    requires AtStart(w, i, req) && Accepted(w, req) && w.db.rel.tables[req.table].id in w.db.logs
    ensures Step(cfg, AfterDrawing(w, i, req, |req.change.files|), i, Publish)
         == Some(Ended(w, i, req, [req.table], AfterCommit(w.db, req.table, req.change)))
  {
    CommitIsCommitted(w.db, req.table, req.change);
    SetTwice(w, i, AfterDrawing(w, i, req, |req.change.files|).threads[i], Writing(req, {req.table}, Done([req.table])));
  }

  /**
    Without interruption the steps of a commit end exactly as the commit call of the
    registry does: with the invalidation owed and the state of that call if it succeeds,
    and otherwise with nothing changed but the sequences.
   */
  lemma CommitAlone(cfg: Config, w: World, i: Thread, req: Request) returns (ws: seq<World>, db: Db)
    requires AtStart(w, i, req) && (Live(w.db.rel, req.table).Some? ==> w.db.rel.tables[req.table].id in w.db.logs)
    ensures Alone(cfg, ws, i) && ws[0] == w
    ensures var ok := Live(w.db.rel, req.table).Some? && CurrentSnapshot(w.db.rel, req.table) == req.parent
                      && Enough(w.db.seqs, |req.change.files|);
            && ws[|ws| - 1] == Ended(w, i, req, if ok then [req.table] else [], db)
            && (ok ==> db == AfterCommit(w.db, req.table, req.change))
            && (!ok ==> db == w.db.(seqs := db.seqs) && SeqsGrow(w.db.seqs, db.seqs) && SeqsBounded(db.seqs))
  {
    var n, room := |req.change.files|, TWO_63 - w.db.seqs.partition;
    if !Accepted(w, req) {
      Begins(cfg, w, i, req);
      db := w.db;
      ws := OneMore(cfg, [w], i, BeginCommit, Ended(w, i, req, [], db));
    } else if n > room {
      ws := Draws(cfg, w, i, req, room);
      DrawsNext(cfg, w, i, req, room);
      db := AfterDraws(w.db, room);
      ws := OneMore(cfg, ws, i, Draw, Ended(w, i, req, [], db));
    } else {
      ws := Draws(cfg, w, i, req, n);
      Publishes(cfg, w, i, req);
      db := AfterCommit(w.db, req.table, req.change);
      ws := OneMore(cfg, ws, i, Publish, Ended(w, i, req, [req.table], db));
    }
  }
}
