/** Exactly which snapshot ids read the same for ever. */
module StableReads {
  import opened Words
  import opened Tables
  import opened Commits
  import opened History
  import opened Invariants
  import opened Interleaving
  import opened Locking
  import opened Steps
  import opened StoreSteps
  import opened Runs
  import opened Reads
  import opened Registry
  import opened CommitCalls

  // ----- the rows of a read

  /** The greatest id a commit can have and still show in a read at `s`. */
  function Reach(s: uint64): int {
    if s == 0 then TWO_63 - 1 else AsInt64(s)
  }

  lemma ReadIsReplay(db: Db, name: string, s: uint64)
    requires Good(db) && SeqsBounded(db.seqs) && Live(db.rel, name).Some?
    ensures var id := db.rel.tables[name].id;
            id in db.logs && ReadRows(db.rel, name, s) == Some(Replay(db.logs[id], Reach(s)))
  {
    HeadInRange(db, name);
    CurrentIsHead(db, name);
    QueryIsReplay(db, name, ReadAt(db.rel, name, s));
    if s == 0 {
      var id := db.rel.tables[name].id;
      LogInRange(db, name);
      ReplayAll(id, db.logs[id], TWO_63 - 1);
    }
  }

  lemma LogInRange(db: Db, name: string)
    requires Good(db) && name in db.rel.tables
    ensures var id := db.rel.tables[name].id;
            id in db.logs && LogOk(id, db.logs[id]) && forall i :: 0 <= i < |db.logs[id]| ==> 0 < db.logs[id][i].sid < db.seqs.snapshot
  {
    var t := db.rel.tables[name];
    var log := db.logs[t.id];
    assert TableOk(db.rel, log, t);
    forall i | 0 <= i < |log|
      ensures 0 < log[i].sid < db.seqs.snapshot
    {
      assert log[i].sid in db.rel.snapshots;
    }
  }

  /** An id that no commit exceeds shows all commits. */
  lemma ReplayAll(id: int, log: Log, s: int)
    requires LogOk(id, log) && forall i :: 0 <= i < |log| ==> log[i].sid <= s
    ensures Replay(log, s) == Replay(log, Head(log))
  {
    ReplayBetween(log, s, Head(log));
  }

  // ----- below the draws nothing changes

  /** A commit under way that has drawn a snapshot id for the table. */
  predicate DrawsFor(w: World, i: Thread, id: int)
    requires i in w.threads
  {
    var pc := w.threads[i];
    pc.Writing? && pc.wstage.Drawing? && pc.req.table in w.db.rel.tables && w.db.rel.tables[pc.req.table].id == id
  }

  /** All ids up to `s` have been given away, and none of them to a commit of the table that is still under way. */
  ghost predicate Settled(w: World, id: int, s: int) {
    && s < w.db.seqs.snapshot
    && forall i :: i in w.threads && DrawsFor(w, i, id) ==> w.threads[i].wstage.sid > s
  }

  ghost predicate OnlyAbove(log: Log, log': Log, s: int) {
    log <= log' && forall m :: |log| <= m < |log'| ==> log'[m].sid > s
  }

  lemma DbAfterLog(w: World, i: Thread, a: Action, id: int, s: int)
    requires i in w.threads && IdsOk(w.db) && id in w.db.logs && (DrawsFor(w, i, id) ==> w.threads[i].wstage.sid > s)
    ensures id in DbAfter(w, i, a).logs && OnlyAbove(w.db.logs[id], DbAfter(w, i, a).logs[id], s)
  {
  }

  lemma OwnDraw(cfg: Config, w: World, i: Thread, a: Action, id: int, s: int)
    requires Step(cfg, w, i, a).Some? && Settled(w, id, s)
    ensures var w' := Step(cfg, w, i, a).value; i in w'.threads && (DrawsFor(w', i, id) ==> w'.threads[i].wstage.sid > s)
  {
  }

  lemma OtherDraw(cfg: Config, w: World, i: Thread, a: Action, j: Thread, id: int)
    requires IdsOk(w.db) && Coherent(w) && Step(cfg, w, i, a).Some? && j in w.threads && j != i
    ensures var w' := Step(cfg, w, i, a).value;
            j in w'.threads && w'.threads[j] == w.threads[j] && (DrawsFor(w', j, id) ==> DrawsFor(w, j, id))
  {
    StepIsOwn(cfg, w, i, a);
    if w.threads[j].Writing? && w.threads[j].wstage.Drawing? {
      DrawnTableKept(cfg, w, i, a, j);
    }
  }

  lemma DrawnTableKept(cfg: Config, w: World, i: Thread, a: Action, j: Thread)
    requires IdsOk(w.db) && Coherent(w) && Step(cfg, w, i, a).Some? && j in w.threads && j != i
    requires w.threads[j].Writing? && w.threads[j].wstage.Drawing?
    ensures SameName(w.db.rel, Step(cfg, w, i, a).value.db.rel, w.threads[j].req.table)
  {
    DrawnAlone(w, i, j);
    PcFits(w, i);
    StepFrame(cfg, w, i, a);
  }

  lemma DrawnAlone(w: World, i: Thread, j: Thread)
    requires Coherent(w) && i in w.threads && j in w.threads && i != j && w.threads[j].Writing? && w.threads[j].wstage.Drawing?
    ensures w.threads[j].req.table !in HoldsX(w.threads[i])
  {
    PcFits(w, j);
    assert w.threads[j].req.table in Owns(w.threads[j]);
  }

  lemma StaysSettled(cfg: Config, w: World, i: Thread, a: Action, id: int, s: int)
    requires IdsOk(w.db) && Coherent(w) && Step(cfg, w, i, a).Some? && Settled(w, id, s)
    ensures Settled(Step(cfg, w, i, a).value, id, s)
  {
    var w' := Step(cfg, w, i, a).value;
    StepSeqs(cfg, w, i, a);
    OwnDraw(cfg, w, i, a, id, s);
    forall j | j in w'.threads && j != i && DrawsFor(w', j, id)
      ensures w'.threads[j].wstage.sid > s
    {
      OtherDraw(cfg, w, i, a, j, id);
    }
  }

  lemma StepSettled(cfg: Config, w: World, i: Thread, a: Action, id: int, s: int)
    requires IdsOk(w.db) && Coherent(w) && Step(cfg, w, i, a).Some? && id in w.db.logs && Settled(w, id, s)
    ensures var w' := Step(cfg, w, i, a).value;
            id in w'.db.logs && OnlyAbove(w.db.logs[id], w'.db.logs[id], s) && Settled(w', id, s)
  {
    StaysSettled(cfg, w, i, a, id, s);
    StepDb(cfg, w, i, a);
    DbAfterLog(w, i, a, id, s);
  }

  lemma NextSettled(cfg: Config, ws: seq<World>, k: nat, id: int, s: int)
    requires IsRun(cfg, ws) && k + 1 < |ws| && id in ws[k].db.logs && Settled(ws[k], id, s)
    ensures id in ws[k + 1].db.logs && OnlyAbove(ws[k].db.logs[id], ws[k + 1].db.logs[id], s) && Settled(ws[k + 1], id, s)
  {
    var i, a := StepOf(cfg, ws, k);
    StepSettled(cfg, ws[k], i, a, id, s);
  }

  lemma AboveTwice(a: Log, b: Log, c: Log, s: int)
    requires OnlyAbove(a, b, s) && OnlyAbove(b, c, s)
    ensures OnlyAbove(a, c, s)
  {
  }

  lemma {:induction false} RunSettled(cfg: Config, ws: seq<World>, j: nat, k: nat, id: int, s: int)
    requires IsRun(cfg, ws) && j <= k < |ws| && id in ws[j].db.logs && Settled(ws[j], id, s)
    ensures id in ws[k].db.logs && OnlyAbove(ws[j].db.logs[id], ws[k].db.logs[id], s) && Settled(ws[k], id, s)
  {
    if j < k {
      RunSettled(cfg, ws, j, k - 1, id, s);
      NextSettled(cfg, ws, k - 1, id, s);
      AboveTwice(ws[j].db.logs[id], ws[k - 1].db.logs[id], ws[k].db.logs[id], s);
    }
  }

  lemma SameReplay(log: Log, log': Log, s: int)
    requires OnlyAbove(log, log', s)
    ensures Replay(log', s) == Replay(log, s)
  {
    assert log' == log + log'[|log|..];
    ReplayPrefix(log, log'[|log|..], s);
  }

  lemma RunReads(cfg: Config, ws: seq<World>, k: nat, name: string, s: uint64)
    requires IsRun(cfg, ws) && k < |ws| && Live(ws[k].db.rel, name).Some?
    ensures var id := ws[k].db.rel.tables[name].id;
            id in ws[k].db.logs && ReadRows(ws[k].db.rel, name, s) == Some(Replay(ws[k].db.logs[id], Reach(s)))
  {
    RunInv(cfg, ws, k);
    RunSeqs(cfg, ws, k);
    ReadIsReplay(ws[k].db, name, s);
  }

  /**
    Reached by the table or not: a read at an id that has been given away, but to no
    commit of the table that is still under way, is the same in all later states.
   */
  lemma SettledReadsRepeat(cfg: Config, ws: seq<World>, j: nat, k: nat, name: string, name': string, s: uint64)
    requires IsRun(cfg, ws) && j <= k < |ws|
    requires Live(ws[j].db.rel, name).Some? && Live(ws[k].db.rel, name').Some?
    requires ws[j].db.rel.tables[name].id == ws[k].db.rel.tables[name'].id
    requires Settled(ws[j], ws[j].db.rel.tables[name].id, Reach(s))
    ensures ReadRows(ws[k].db.rel, name', s) == ReadRows(ws[j].db.rel, name, s)
  {
    var id := ws[j].db.rel.tables[name].id;
    RunReads(cfg, ws, j, name, s);
    RunReads(cfg, ws, k, name', s);
    RunSettled(cfg, ws, j, k, id, Reach(s));
    SameReplay(ws[j].db.logs[id], ws[k].db.logs[id], Reach(s));
  }

  // ----- nothing to add and nothing to delete

  /** No partition id is left, nothing shows up to `s`, and no commit of the table under way has rows to add. */
  ghost predicate Barren(w: World, id: int, s: int) {
    && w.db.seqs.partition >= TWO_63
    && id in w.db.logs && Replay(w.db.logs[id], s) == []
    && forall i :: i in w.threads && DrawsFor(w, i, id) ==> w.threads[i].wstage.ids == []
  }

  lemma BarrenLog(w: World, i: Thread, a: Action, id: int, s: int)
    requires i in w.threads && IdsOk(w.db) && Barren(w, id, s)
    ensures id in DbAfter(w, i, a).logs && Replay(DbAfter(w, i, a).logs[id], s) == []
  {
    var pc := w.threads[i];
    if a.Publish? && CanPublish(w, i) && DrawsFor(w, i, id) {
      ReplayOneMore(w.db.logs[id], CommitRecord(w.db, pc.req.table, pc.wstage.sid, pc.wstage.ids, pc.req.change), s);
    }
  }

  lemma OwnBarren(cfg: Config, w: World, i: Thread, a: Action, id: int, s: int)
    requires Step(cfg, w, i, a).Some? && Barren(w, id, s)
    ensures var w' := Step(cfg, w, i, a).value; i in w'.threads && (DrawsFor(w', i, id) ==> w'.threads[i].wstage.ids == [])
  {
  }

  lemma StaysBarren(cfg: Config, w: World, i: Thread, a: Action, id: int, s: int)
    requires IdsOk(w.db) && Coherent(w) && Step(cfg, w, i, a).Some? && Barren(w, id, s)
    ensures Barren(Step(cfg, w, i, a).value, id, s)
  {
    var w' := Step(cfg, w, i, a).value;
    StepSeqs(cfg, w, i, a);
    StepDb(cfg, w, i, a);
    BarrenLog(w, i, a, id, s);
    OwnBarren(cfg, w, i, a, id, s);
    forall j | j in w'.threads && j != i && DrawsFor(w', j, id)
      ensures w'.threads[j].wstage.ids == []
    {
      OtherDraw(cfg, w, i, a, j, id);
    }
  }

  lemma NextBarren(cfg: Config, ws: seq<World>, k: nat, id: int, s: int)
    requires IsRun(cfg, ws) && k + 1 < |ws| && Barren(ws[k], id, s)
    ensures Barren(ws[k + 1], id, s)
  {
    var i, a := StepOf(cfg, ws, k);
    StaysBarren(cfg, ws[k], i, a, id, s);
  }

  lemma {:induction false} RunBarren(cfg: Config, ws: seq<World>, j: nat, k: nat, id: int, s: int)
    requires IsRun(cfg, ws) && j <= k < |ws| && Barren(ws[j], id, s)
    ensures Barren(ws[k], id, s)
    decreases k - j
  {
    if j < k {
      NextBarren(cfg, ws, j, id, s);
      RunBarren(cfg, ws, j + 1, k, id, s);
    }
  }

  lemma BarrenReadsRepeat(cfg: Config, ws: seq<World>, j: nat, k: nat, name: string, name': string, s: uint64)
    requires IsRun(cfg, ws) && j <= k < |ws|
    requires Live(ws[j].db.rel, name).Some? && Live(ws[k].db.rel, name').Some?
    requires ws[j].db.rel.tables[name].id == ws[k].db.rel.tables[name'].id
    requires Barren(ws[j], ws[j].db.rel.tables[name].id, Reach(s))
    ensures ReadRows(ws[k].db.rel, name', s) == ReadRows(ws[j].db.rel, name, s)
  {
    RunReads(cfg, ws, j, name, s);
    RunReads(cfg, ws, k, name', s);
    RunBarren(cfg, ws, j, k, ws[j].db.rel.tables[name].id, Reach(s));
  }

  // ----- at and above the next draw anything can come

  /** A change that shows: a row more, or, when no partition id is left, a listed row less. */
  function Visibly(db: Db, listed: seq<Part>): Change {
    if db.seqs.partition < TWO_63 then Change("append", [DataFile("k", "p", "parquet", 1, 1, [])], [])
    else Change("delete", [], if listed == [] then [] else [listed[0].file.key])
  }

  lemma LongerList(parts: seq<Part>, more: seq<Part>)
    requires more != []
    ensures Surviving(parts + more, []) != parts
  {
    NothingDeleted(parts + more);
    assert |parts + more| > |parts|;
  }

  lemma ShorterList(parts: seq<Part>)
    requires parts != []
    ensures Surviving(parts, [parts[0].file.key]) != parts
  {
    SurvivingHasNo(parts, [parts[0].file.key], parts[0]);
  }

  lemma VisiblyShows(db: Db, name: string, s: uint64)
    requires Good(db) && SeqsBounded(db.seqs) && Live(db.rel, name).Some? && Reach(s) >= db.seqs.snapshot
    requires db.seqs.partition < TWO_63 || ReadRows(db.rel, name, s) != Some([])
    ensures ReadRows(db.rel, name, s).Some?
    ensures var c := Visibly(db, ReadRows(db.rel, name, s).value);
            && Enough(db.seqs, |c.files|)
            && Live(AfterCommit(db, name, c).rel, name).Some?
            && AfterCommit(db, name, c).rel.tables[name].id == db.rel.tables[name].id
            && ReadRows(AfterCommit(db, name, c).rel, name, s) != ReadRows(db.rel, name, s)
  {
    ReadIsReplay(db, name, s);
    var listed := ReadRows(db.rel, name, s).value;
    CommittedRead(db, name, Visibly(db, listed), s);
    OtherList(db, listed, db.rel.tables[name].id);
  }

  lemma OtherList(db: Db, listed: seq<Part>, id: int)
    requires db.seqs.snapshot >= 0 && (db.seqs.partition < TWO_63 || listed != [])
    ensures var c := Visibly(db, listed);
            Surviving(listed + NewParts(id, db.seqs.snapshot, Consecutive(db.seqs.partition, |c.files|), c.files), c.keys) != listed
  {
    var c := Visibly(db, listed);
    var parts := NewParts(id, db.seqs.snapshot, Consecutive(db.seqs.partition, |c.files|), c.files);
    if db.seqs.partition < TWO_63 {
      LongerList(listed, parts);
    } else {
      assert listed + parts == listed;
      ShorterList(listed);
    }
  }

  /** What a read that reaches the next snapshot id answers after a commit. */
  lemma CommittedRead(db: Db, name: string, c: Change, s: uint64)
    requires Good(db) && SeqsBounded(db.seqs) && Live(db.rel, name).Some? && Enough(db.seqs, |c.files|) && Reach(s) >= db.seqs.snapshot
    ensures var id, db' := db.rel.tables[name].id, AfterCommit(db, name, c);
            && Live(db'.rel, name).Some? && db'.rel.tables[name].id == id
            && ReadRows(db.rel, name, s).Some?
            && ReadRows(db'.rel, name, s)
               == Some(Surviving(ReadRows(db.rel, name, s).value + NewParts(id, db.seqs.snapshot, Consecutive(db.seqs.partition, |c.files|), c.files), c.keys))
  {
    var id := db.rel.tables[name].id;
    ReadIsReplay(db, name, s);
    CommitKeepsInvariant(db, name, c);
    CommittedLog(db, name, c);
    ReadIsReplay(AfterCommit(db, name, c), name, s);
    ReplayOneMore(db.logs[id], CommitRecord(db, name, db.seqs.snapshot, Consecutive(db.seqs.partition, |c.files|), c), Reach(s));
  }

  lemma CommittedLog(db: Db, name: string, c: Change)
    requires Live(db.rel, name).Some? && db.seqs.snapshot >= 0 && db.rel.tables[name].id in db.logs
    ensures var id, db' := db.rel.tables[name].id, AfterCommit(db, name, c);
            && Live(db'.rel, name).Some? && db'.rel.tables[name].id == id && id in db'.logs
            && db'.logs[id] == db.logs[id] + [CommitRecord(db, name, db.seqs.snapshot, Consecutive(db.seqs.partition, |c.files|), c)]
  {
  }

  // ----- a commit in a server at rest

  lemma GetsLock(cfg: Config, w: World, i: Thread, req: Request) returns (ws: seq<World>)
    requires AllIdle(w) && i in w.threads && req.CommitSnapshot?
    ensures Alone(cfg, ws, i) && ws[0] == w && ws[|ws| - 1] == Set(w, i, Writing(req, {req.table}, Entered))
  {
    var p, q, r := WaitExclusive(req, {}, false), WaitExclusive(req, {}, true), Writing(req, {req.table}, Entered);
    assert {} + {req.table} == {req.table};
    SetTwice(w, i, p, q);
    SetTwice(w, i, q, r);
    ws := OneMore(cfg, [w], i, Submit(req), Set(w, i, p));
    ws := OneMore(cfg, ws, i, Announce, Set(w, i, q));
    ws := OneMore(cfg, ws, i, LockExclusive, Set(w, i, r));
  }

  lemma AloneContinues(cfg: Config, ws: seq<World>, i: Thread, on: seq<World>)
    requires IsRun(cfg, ws) && Alone(cfg, on, i) && on[0] == ws[|ws| - 1]
    ensures Continues(cfg, ws, ws + on[1..]) && (ws + on[1..])[|ws + on[1..]| - 1] == on[|on| - 1]
  {
    var more := ws + on[1..];
    forall k | 0 < k < |more|
      ensures Next(cfg, more[k - 1], more[k])
    {
      if k >= |ws| {
        assert more[k] == on[k - |ws| + 1] && more[k - 1] == on[k - |ws|];
        assert Moves(cfg, on[k - |ws| + 1 - 1], i, on[k - |ws| + 1]);
      }
    }
  }

  lemma HasLog(cfg: Config, ws: seq<World>, name: string)
    requires IsRun(cfg, ws) && name in ws[|ws| - 1].db.rel.tables
    ensures ws[|ws| - 1].db.rel.tables[name].id in ws[|ws| - 1].db.logs && ws[|ws| - 1].db.seqs.snapshot > 0
  {
    RunInv(cfg, ws, |ws| - 1);
    LogInRange(ws[|ws| - 1].db, name);
  }

  /** In a server at rest any commit of the present parent goes through that the sequences allow. */
  lemma CommitFromRest(cfg: Config, ws: seq<World>, i: Thread, name: string, c: Change) returns (more: seq<World>)
    requires IsRun(cfg, ws) && AllIdle(ws[|ws| - 1]) && i in ws[|ws| - 1].threads
    requires Live(ws[|ws| - 1].db.rel, name).Some? && Enough(ws[|ws| - 1].db.seqs, |c.files|)
    ensures ws[|ws| - 1].db.seqs.snapshot > 0
    ensures Continues(cfg, ws, more) && more[|more| - 1].db == AfterCommit(ws[|ws| - 1].db, name, c)
  {
    var w := ws[|ws| - 1];
    RunSeqs(cfg, ws, |ws| - 1);
    HasLog(cfg, ws, name);
    CurrentInRange(cfg, ws, |ws| - 1, name);
    var req := CommitSnapshot(name, CurrentSnapshot(w.db.rel, name), c);
    var lock := GetsLock(cfg, w, i, req);
    AloneContinues(cfg, ws, i, lock);
    var locked := ws + lock[1..];
    var commit, db := CommitAlone(cfg, locked[|locked| - 1], i, req);
    AloneContinues(cfg, locked, i, commit);
    more := locked + commit[1..];
  }

  // ----- exactly when

  ghost predicate Moved(cfg: Config, ws: seq<World>, more: seq<World>, name: string, name': string, s: uint64)
    requires ws != [] && Live(ws[|ws| - 1].db.rel, name).Some?
  {
    var rel := ws[|ws| - 1].db.rel;
    && Continues(cfg, ws, more) && more != []
    && var rel' := more[|more| - 1].db.rel;
       && Live(rel', name').Some? && rel'.tables[name'].id == rel.tables[name].id
       && ReadRows(rel', name', s) != ReadRows(rel, name, s)
  }

  /** Some continuation that keeps the table, under whatever name, changes what a read at `s` answers. */
  ghost predicate CanMove(cfg: Config, ws: seq<World>, name: string, s: uint64)
    requires ws != [] && Live(ws[|ws| - 1].db.rel, name).Some?
  {
    exists more, name' :: Moved(cfg, ws, more, name, name', s)
  }

  /**
    In any reachable state at rest: a read can come to answer something else if and only
    if it reaches the next snapshot id, and there is a partition id left for a new row or
    a row listed that can be deleted.
   */
  lemma ReadsMoveIff(cfg: Config, ws: seq<World>, name: string, s: uint64)
    requires IsRun(cfg, ws) && AllIdle(ws[|ws| - 1]) && ws[|ws| - 1].threads != map[]
    requires Live(ws[|ws| - 1].db.rel, name).Some?
    ensures var db := ws[|ws| - 1].db;
            CanMove(cfg, ws, name, s)
            <==> Reach(s) >= db.seqs.snapshot && (db.seqs.partition < TWO_63 || ReadRows(db.rel, name, s) != Some([]))
  {
    var db := ws[|ws| - 1].db;
    if Reach(s) >= db.seqs.snapshot && (db.seqs.partition < TWO_63 || ReadRows(db.rel, name, s) != Some([])) {
      ReadMoves(cfg, ws, name, s);
    } else if CanMove(cfg, ws, name, s) {
      var more, name' :| Moved(cfg, ws, more, name, name', s);
      ReadStays(cfg, ws, more, name, name', s);
      assert false;
    }
  }

  lemma ReadMoves(cfg: Config, ws: seq<World>, name: string, s: uint64)
    requires IsRun(cfg, ws) && AllIdle(ws[|ws| - 1]) && ws[|ws| - 1].threads != map[]
    requires Live(ws[|ws| - 1].db.rel, name).Some? && Reach(s) >= ws[|ws| - 1].db.seqs.snapshot
    requires ws[|ws| - 1].db.seqs.partition < TWO_63 || ReadRows(ws[|ws| - 1].db.rel, name, s) != Some([])
    ensures CanMove(cfg, ws, name, s)
  {
    var w := ws[|ws| - 1];
    RunInv(cfg, ws, |ws| - 1);
    RunSeqs(cfg, ws, |ws| - 1);
    VisiblyShows(w.db, name, s);
    var i :| i in w.threads;
    var more := CommitFromRest(cfg, ws, i, name, Visibly(w.db, ReadRows(w.db.rel, name, s).value));
    assert Moved(cfg, ws, more, name, name, s);
  }

  lemma ReadStays(cfg: Config, ws: seq<World>, more: seq<World>, name: string, name': string, s: uint64)
    requires IsRun(cfg, ws) && AllIdle(ws[|ws| - 1]) && Continues(cfg, ws, more) && more != []
    requires Live(ws[|ws| - 1].db.rel, name).Some? && Live(more[|more| - 1].db.rel, name').Some?
    requires more[|more| - 1].db.rel.tables[name'].id == ws[|ws| - 1].db.rel.tables[name].id
    requires Reach(s) < ws[|ws| - 1].db.seqs.snapshot
          || (ws[|ws| - 1].db.seqs.partition >= TWO_63 && ReadRows(ws[|ws| - 1].db.rel, name, s) == Some([]))
    ensures ReadRows(more[|more| - 1].db.rel, name', s) == ReadRows(ws[|ws| - 1].db.rel, name, s)
  {
    var j := |ws| - 1;
    assert more[j] == ws[j];
    if Reach(s) < ws[j].db.seqs.snapshot {
      SettledReadsRepeat(cfg, more, j, |more| - 1, name, name', s);
    } else {
      RunReads(cfg, ws, j, name, s);
      BarrenReadsRepeat(cfg, more, j, |more| - 1, name, name', s);
    }
  }
}
