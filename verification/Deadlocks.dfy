/** Who waits for whom: a rename is the only request that waits with a lock in hand. */
module Deadlocks {
  import opened Words
  import opened Invariants
  import opened Interleaving
  import opened Locking
  import opened StoreSteps
  import opened Runs

  predicate Waiting(pc: Pc) {
    pc.WaitShared? || pc.WaitExclusive?
  }

  function WaitsFor(pc: Pc): string
    requires Waiting(pc)
  {
    if pc.WaitShared? then pc.req.table else Target(pc.req, pc.held)
  }

  /** `i` cannot go on because of `j`: a writer that has announced itself waits for readers, all others for writers. */
  ghost predicate Blocks(ts: Threads, i: Thread, j: Thread) {
    && i in ts && j in ts && Waiting(ts[i])
    && if ts[i].WaitExclusive? && ts[i].announced then WaitsFor(ts[i]) in HoldsS(ts[j]) else WaitsFor(ts[i]) in Owns(ts[j])
  }

  ghost predicate WaitCycle(ts: Threads, c: seq<Thread>) {
    && c != []
    && (forall k :: 0 < k < |c| ==> Blocks(ts, c[k - 1], c[k]))
    && Blocks(ts, c[|c| - 1], c[0])
  }

  /** Every rename goes from a lower name to a higher one in one fixed order. */
  ghost predicate Upward(ts: Threads, rank: string -> int) {
    forall i :: i in ts && ts[i].WaitExclusive? && ts[i].req.RenameTable? ==> rank(ts[i].req.table) < rank(ts[i].req.to)
  }

  // ----- no cycle

  function Height(pc: Pc, rank: string -> int): int
    requires Waiting(pc)
  {
    2 * rank(WaitsFor(pc)) + if pc.WaitExclusive? && pc.announced then 1 else 0
  }

  /** Along each wait the awaited name rises, or the waiter is one who has announced itself for it. */
  lemma WaitsRise(ts: Threads, rank: string -> int, i: Thread, j: Thread)
    requires Upward(ts, rank) && Blocks(ts, i, j) && PcOk(ts[j]) && Waiting(ts[j])
    ensures Height(ts[i], rank) < Height(ts[j], rank)
  {
  }

  lemma CycleWaits(ts: Threads, c: seq<Thread>, k: nat)
    requires WaitCycle(ts, c) && k < |c|
    ensures c[k] in ts && Waiting(ts[c[k]])
  {
    assert k < |c| - 1 ==> Blocks(ts, c[k + 1 - 1], c[k + 1]);
  }

  lemma {:induction false} ChainRises(ts: Threads, rank: string -> int, c: seq<Thread>, k: nat)
    requires Upward(ts, rank) && WaitCycle(ts, c) && k < |c| && forall i :: i in ts ==> PcOk(ts[i])
    ensures c[0] in ts && c[k] in ts && Waiting(ts[c[0]]) && Waiting(ts[c[k]])
    ensures Height(ts[c[0]], rank) <= Height(ts[c[k]], rank)
  {
    CycleWaits(ts, c, 0);
    CycleWaits(ts, c, k);
    if k > 0 {
      ChainRises(ts, rank, c, k - 1);
      WaitsRise(ts, rank, c[k - 1], c[k]);
    }
  }

  /** In no reachable state do requests wait for each other in a circle, if all renames go upward. */
  lemma NoWaitCycle(cfg: Config, ws: seq<World>, k: nat, rank: string -> int, c: seq<Thread>)
    requires IsRun(cfg, ws) && k < |ws| && Upward(ws[k].threads, rank)
    ensures !WaitCycle(ws[k].threads, c)
  {
    RunInv(cfg, ws, k);
    if WaitCycle(ws[k].threads, c) {
      ChainRises(ws[k].threads, rank, c, |c| - 1);
      WaitsRise(ws[k].threads, rank, c[|c| - 1], c[0]);
    }
  }

  // ----- progress

  /** A step towards the outcome of a request: no new request, and no failure out of the blue. */
  predicate Proceeds(a: Action) {
    !a.Submit? && !a.Abort?
  }

  ghost predicate CanGoOn(cfg: Config, w: World, i: Thread) {
    exists a :: Proceeds(a) && Step(cfg, w, i, a).Some?
  }

  /** A request that is not waiting has a step to take. */
  lemma RunningGoesOn(cfg: Config, w: World, i: Thread)
    requires i in w.threads && PcOk(w.threads[i]) && !Waiting(w.threads[i]) && !w.threads[i].Idle?
    requires TablesOk(w.db.rel, w.db.logs) && DataOk(w.db, w.threads[i])
    ensures CanGoOn(cfg, w, i)
  {
    var pc := w.threads[i];
    match pc
    case Inserting(_, _) => assert Step(cfg, w, i, InsertTxn).Some?;
    case Owing(_, _) => assert Step(cfg, w, i, Invalidate).Some?;
    case Reading(_, _) => ReaderGoesOn(cfg, w, i);
    case Writing(_, _, _) => WriterGoesOn(cfg, w, i);
  }

  lemma ReaderGoesOn(cfg: Config, w: World, i: Thread)
    requires i in w.threads && PcOk(w.threads[i]) && w.threads[i].Reading?
    ensures CanGoOn(cfg, w, i)
  {
    var pc := w.threads[i];
    match pc.rstage
    case Locked => assert Step(cfg, w, i, if pc.req.Read? then Resolve else Note).Some?;
    case Resolved(_) => assert Step(cfg, w, i, Probe).Some?;
    case Missed(_) => assert Step(cfg, w, i, Query).Some?;
    case Queried(_, _) => assert Step(cfg, w, i, Store).Some?;
    case Served(_, _) => assert Step(cfg, w, i, ReleaseShared).Some?;
    case Noted(_) => assert Step(cfg, w, i, ReleaseShared).Some?;
  }

  /** A commit can draw its next id or, with all of them, publish. */
  lemma DrawingGoesOn(cfg: Config, w: World, i: Thread)
    requires i in w.threads && PcOk(w.threads[i]) && w.threads[i].Writing? && w.threads[i].wstage.Drawing?
    requires TablesOk(w.db.rel, w.db.logs) && DataOk(w.db, w.threads[i])
    ensures Step(cfg, w, i, Draw).Some? || Step(cfg, w, i, Publish).Some?
    ensures CanGoOn(cfg, w, i)
  {
    var pc := w.threads[i];
    if |pc.wstage.ids| >= |pc.req.change.files| {
      DrawnCanPublish(w, i);
    }
    DrawOrPublish(cfg, w, i);
  }

  lemma DrawOrPublish(cfg: Config, w: World, i: Thread)
    requires i in w.threads && w.threads[i].Writing? && w.threads[i].wstage.Drawing? && w.threads[i].req.CommitSnapshot?
    requires |w.threads[i].wstage.ids| < |w.threads[i].req.change.files| || CanPublish(w, i)
    ensures Step(cfg, w, i, Draw).Some? || Step(cfg, w, i, Publish).Some?
    ensures CanGoOn(cfg, w, i)
  {
    assert Step(cfg, w, i, Draw).Some? || Step(cfg, w, i, Publish).Some?;
  }

  lemma DrawnCanPublish(w: World, i: Thread)
    requires i in w.threads && w.threads[i].Writing? && w.threads[i].wstage.Drawing? && w.threads[i].req.CommitSnapshot?
    requires TablesOk(w.db.rel, w.db.logs) && DataOk(w.db, w.threads[i])
    requires |w.threads[i].wstage.ids| >= |w.threads[i].req.change.files|
    ensures CanPublish(w, i)
  {
  }

  lemma WriterGoesOn(cfg: Config, w: World, i: Thread)
    requires i in w.threads && PcOk(w.threads[i]) && w.threads[i].Writing?
    requires TablesOk(w.db.rel, w.db.logs) && DataOk(w.db, w.threads[i])
    ensures CanGoOn(cfg, w, i)
  {
    var pc := w.threads[i];
    match pc.wstage
    case Entered => assert Step(cfg, w, i, if pc.req.CommitSnapshot? then BeginCommit else RunTx).Some?;
    case Drawing(_, _) => DrawingGoesOn(cfg, w, i);
    case Done(owed) =>
      if pc.req.CommitSnapshot? && owed != [] {
        assert Step(cfg, w, i, Invalidate).Some?;
      } else {
        ghost var name := Member(pc.held);
        assert Step(cfg, w, i, ReleaseExclusive(name)).Some?;
      }
  }

  lemma UnblockedGoesOn(cfg: Config, w: World, i: Thread)
    requires i in w.threads && Waiting(w.threads[i]) && forall j :: !Blocks(w.threads, i, j)
    ensures CanGoOn(cfg, w, i)
  {
    var pc := w.threads[i];
    if pc.WaitShared? {
      forall j | j in w.threads
        ensures pc.req.table !in Owns(w.threads[j])
      {
        assert !Blocks(w.threads, i, j);
      }
      assert Step(cfg, w, i, LockShared).Some?;
    } else if pc.announced {
      forall j | j in w.threads
        ensures WaitsFor(pc) !in HoldsS(w.threads[j])
      {
        assert !Blocks(w.threads, i, j);
      }
      assert Step(cfg, w, i, LockExclusive).Some?;
    } else {
      forall j | j in w.threads
        ensures WaitsFor(pc) !in Owns(w.threads[j])
      {
        assert !Blocks(w.threads, i, j);
      }
      assert Step(cfg, w, i, Announce).Some?;
    }
  }

  /** The requests seen so far all wait at a lower height. */
  ghost predicate Below(ts: Threads, rank: string -> int, seen: set<Thread>, i: Thread) {
    && seen <= ts.Keys && i in ts && i !in seen
    && forall x :: x in seen ==> Waiting(ts[x]) && (Waiting(ts[i]) ==> Height(ts[x], rank) < Height(ts[i], rank))
  }

  lemma OneMoreWait(ts: Threads, rank: string -> int, seen: set<Thread>, i: Thread, next: Thread)
    requires Upward(ts, rank) && Below(ts, rank, seen, i) && Blocks(ts, i, next) && PcOk(ts[next])
    ensures Below(ts, rank, seen + {i}, next) && !ts[next].Idle?
    ensures |ts.Keys - (seen + {i})| < |ts.Keys - seen|
  {
    if Waiting(ts[next]) {
      WaitsRise(ts, rank, i, next);
    }
    assert ts.Keys - (seen + {i}) == (ts.Keys - seen) - {i};
  }

  /** Following the waits from any request leads to one that can go on. */
  lemma {:induction false} WaitsEnd(cfg: Config, w: World, rank: string -> int, i: Thread, seen: set<Thread>) returns (j: Thread)
    requires TablesOk(w.db.rel, w.db.logs) && Upward(w.threads, rank)
    requires forall x :: x in w.threads ==> PcOk(w.threads[x]) && DataOk(w.db, w.threads[x])
    requires Below(w.threads, rank, seen, i) && !w.threads[i].Idle?
    ensures CanGoOn(cfg, w, j)
    decreases |w.threads.Keys - seen|
  {
    j := i;
    if !Waiting(w.threads[i]) {
      RunningGoesOn(cfg, w, i);
    } else if next :| Blocks(w.threads, i, next) {
      OneMoreWait(w.threads, rank, seen, i, next);
      j := WaitsEnd(cfg, w, rank, next, seen + {i});
    } else {
      UnblockedGoesOn(cfg, w, i);
    }
  }

  /** In every reachable state with upward renames, if any request is under way then some request can go on. */
  lemma NeverAllStuck(cfg: Config, ws: seq<World>, k: nat, rank: string -> int, i: Thread)
    requires IsRun(cfg, ws) && k < |ws| && Upward(ws[k].threads, rank)
    requires i in ws[k].threads && !ws[k].threads[i].Idle?
    ensures exists j :: CanGoOn(cfg, ws[k], j)
  {
    RunInv(cfg, ws, k);
    var j := WaitsEnd(cfg, ws[k], rank, i, {});
  }

  /** A rename of a table to its own name waits for itself: once it has its first lock it has no step left, in any state. */
  lemma RenameToItselfStops(cfg: Config, w: World, i: Thread, t: string, a: Action)
    requires i in w.threads && w.threads[i] == WaitExclusive(RenameTable(t, t), {t}, false)
    ensures Step(cfg, w, i, a) == None && Blocks(w.threads, i, i)
  {
    assert t in Owns(w.threads[i]);
  }

  // ----- writers come before later readers

  ghost predicate Announcing(w: World, i: Thread, name: string) {
    i in w.threads && w.threads[i].WaitExclusive? && w.threads[i].announced && Target(w.threads[i].req, w.threads[i].held) == name
  }

  ghost predicate Reads(w: World, x: Thread, name: string) {
    x in w.threads && w.threads[x].Reading? && w.threads[x].req.table == name
  }

  /** A request comes to read a table only by taking the lock while no one owns the table. */
  lemma NewReaderFoundNoOwner(cfg: Config, w: World, y: Thread, a: Action, name: string, x: Thread)
    requires Step(cfg, w, y, a).Some? && Reads(Step(cfg, w, y, a).value, x, name) && !Reads(w, x, name)
    ensures NoOwner(w.threads, name)
  {
    StepIsOwn(cfg, w, y, a);
  }

  lemma AnnouncedOwns(w: World, i: Thread, name: string)
    requires Announcing(w, i, name)
    ensures !NoOwner(w.threads, name)
  {
    assert name in Owns(w.threads[i]);
  }

  lemma NoNewReader(cfg: Config, w: World, w': World, i: Thread, name: string, x: Thread)
    requires Next(cfg, w, w') && Announcing(w, i, name) && Reads(w', x, name)
    ensures Reads(w, x, name)
  {
    var y, a :| Step(cfg, w, y, a) == Some(w');
    AnnouncedOwns(w, i, name);
    if !Reads(w, x, name) {
      NewReaderFoundNoOwner(cfg, w, y, a, name, x);
    }
  }

  /** From its announcement on a writer is not overtaken: whoever reads its table later on has been reading it then, and no one else writes it. */
  lemma {:induction false} NoOvertaking(cfg: Config, ws: seq<World>, j: nat, k: nat, i: Thread, name: string, x: Thread)
    requires IsRun(cfg, ws) && j <= k < |ws| && forall m :: j <= m <= k ==> Announcing(ws[m], i, name)
    ensures Reads(ws[k], x, name) ==> Reads(ws[j], x, name)
    ensures x in ws[k].threads && x != i ==> name !in HoldsX(ws[k].threads[x])
    decreases k - j
  {
    NoOtherWriter(cfg, ws, k, i, name, x);
    if j < k && Reads(ws[k], x, name) {
      assert Announcing(ws[k - 1], i, name) && Next(cfg, ws[k - 1], ws[k]);
      NoNewReader(cfg, ws[k - 1], ws[k], i, name, x);
      NoOvertaking(cfg, ws, j, k - 1, i, name, x);
    }
  }

  lemma NoOtherWriter(cfg: Config, ws: seq<World>, k: nat, i: Thread, name: string, x: Thread)
    requires IsRun(cfg, ws) && k < |ws| && Announcing(ws[k], i, name)
    ensures x in ws[k].threads && x != i ==> name !in HoldsX(ws[k].threads[x])
  {
    RunInv(cfg, ws, k);
    assert name in Owns(ws[k].threads[i]);
  }
}
