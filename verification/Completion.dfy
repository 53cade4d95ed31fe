/** Every request ends: each step leaves less to do, and with upward renames there is always a step to take. */
module Completion {
  import opened Words
  import opened Interleaving
  import opened Locking
  import opened StoreSteps
  import opened Runs
  import opened Deadlocks

  // ----- the work of a request

  function FileCount(req: Request): nat {
    if req.CommitSnapshot? then |req.change.files| else 0
  }

  /** More steps than a request can still take on its own way. */
  function Left(pc: Pc): nat {
    match pc
    case Idle => 0
    case WaitShared(_) => 12
    case WaitExclusive(req, held, announced) => 6 + FileCount(req) + (if announced then 0 else 1) + (if held == {} then 2 else 0)
    case Reading(_, stage) => ReadingLeft(stage)
    case Writing(req, held, stage) => |held| + WritingLeft(req, stage)
    case Owing(_, names) => |names|
    case Inserting(_, _) => 1
  }

  function ReadingLeft(stage: ReadStage): nat {
    match stage
    case Locked => 11
    case Noted(_) => 10
    case Resolved(_) => 4
    case Missed(_) => 3
    case Queried(_, _) => 2
    case Served(_, _) => 1
  }

  function WritingLeft(req: Request, stage: WriteStage): nat {
    match stage
    case Entered => 3 + FileCount(req)
    case Drawing(_, ids) => 2 + (if |ids| < FileCount(req) then FileCount(req) - |ids| else 0)
    case Done(owed) => |owed|
  }

  lemma LockWorks(pc: Pc)
    requires PcOk(pc) && pc.WaitExclusive? && pc.announced
    ensures Left(Acquired(pc)) < Left(pc)
  {
    assert pc.held == {} ==> {} + {Target(pc.req, pc.held)} == {Target(pc.req, pc.held)};
  }

  lemma ReleaseWorks(pc: Pc, name: string)
    requires pc.Writing? && pc.wstage.Done? && name in pc.held
    ensures Left(Released(pc, name)) < Left(pc)
  {
    assert |pc.held - {name}| == |pc.held| - 1;
  }

  lemma ReadWorks(pc: Pc)
    requires pc.Reading? && (pc.rstage.Served? || pc.rstage.Noted?)
    ensures Left(AfterRead(pc)) < Left(pc)
  {
  }

  /** Every step but the arrival of a new request leaves its request less to do. */
  lemma StepWorks(cfg: Config, w: World, i: Thread, a: Action)
    requires Step(cfg, w, i, a).Some? && PcOk(w.threads[i]) && !a.Submit?
    ensures i in Step(cfg, w, i, a).value.threads && Left(Step(cfg, w, i, a).value.threads[i]) < Left(w.threads[i])
  {
    var pc := w.threads[i];
    match a
    case LockExclusive => LockWorks(pc);
    case ReleaseExclusive(name) => ReleaseWorks(pc, name);
    case ReleaseShared => ReadWorks(pc);
    case RunTx => TxWorks(w, i);
    case _ => PlainWorks(cfg, w, i, a);
  }

  lemma TxWorks(w: World, i: Thread)
    requires i in w.threads && w.threads[i].Writing? && w.threads[i].wstage.Entered?
    ensures Left(DoTx(w, i).threads[i]) < Left(w.threads[i])
  {
  }

  lemma PlainWorks(cfg: Config, w: World, i: Thread, a: Action)
    requires Step(cfg, w, i, a).Some? && !a.Submit? && !a.LockExclusive? && !a.ReleaseExclusive? && !a.ReleaseShared? && !a.RunTx?
    ensures i in Step(cfg, w, i, a).value.threads && Left(Step(cfg, w, i, a).value.threads[i]) < Left(w.threads[i])
  {
    if w.threads[i].Writing? {
      WriterWorks(cfg, w, i, a);
    } else {
      OtherWorks(cfg, w, i, a);
    }
  }

  lemma WriterWorks(cfg: Config, w: World, i: Thread, a: Action)
    requires Step(cfg, w, i, a).Some? && !a.ReleaseExclusive? && !a.RunTx? && w.threads[i].Writing?
    ensures i in Step(cfg, w, i, a).value.threads && Left(Step(cfg, w, i, a).value.threads[i]) < Left(w.threads[i])
  {
  }

  lemma OtherWorks(cfg: Config, w: World, i: Thread, a: Action)
    requires Step(cfg, w, i, a).Some? && !a.Submit? && !a.LockExclusive? && !a.ReleaseShared? && !w.threads[i].Writing?
    ensures i in Step(cfg, w, i, a).value.threads && Left(Step(cfg, w, i, a).value.threads[i]) < Left(w.threads[i])
  {
  }

  // ----- the work of all requests

  /** The work left of the first `n` request slots. */
  function Total(ts: Threads, n: nat): nat {
    if n == 0 then 0 else Total(ts, n - 1) + if n - 1 in ts then Left(ts[n - 1]) else 0
  }

  lemma {:induction false} TotalOf(ts: Threads, i: Thread, pc: Pc, n: nat)
    requires i in ts
    ensures Total(ts[i := pc], n) == Total(ts, n) + if i < n then Left(pc) - Left(ts[i]) else 0
  {
    if n > 0 {
      TotalOf(ts, i, pc, n - 1);
    }
  }

  ghost predicate Within(ts: Threads, n: nat) {
    forall i :: i in ts ==> i < n
  }

  lemma {:induction false} Slots(s: set<Thread>) returns (n: nat)
    ensures forall i :: i in s ==> i < n
  {
    n := 0;
    if s != {} {
      var x :| x in s;
      var rest := s - {x};
      var m := Slots(rest);
      n := if x < m then m else x + 1;
      assert forall i :: i in s ==> i == x || i in rest;
    }
  }

  /** A step of a request that is under way, of whatever kind. */
  ghost predicate Works(cfg: Config, w: World, w': World) {
    exists i, a: Action :: !a.Submit? && Step(cfg, w, i, a) == Some(w')
  }

  ghost predicate AllFit(w: World) {
    forall i :: i in w.threads ==> PcOk(w.threads[i])
  }

  lemma TotalFalls(cfg: Config, w: World, w': World, n: nat)
    requires Works(cfg, w, w') && AllFit(w) && Within(w.threads, n)
    ensures Within(w'.threads, n) && Total(w'.threads, n) < Total(w.threads, n)
  {
    var i, a: Action :| !a.Submit? && Step(cfg, w, i, a) == Some(w');
    StepIsOwn(cfg, w, i, a);
    StepWorks(cfg, w, i, a);
    TotalOf(w.threads, i, w'.threads[i], n);
  }

  lemma RunFits(cfg: Config, ws: seq<World>, k: nat)
    requires IsRun(cfg, ws) && k < |ws|
    ensures AllFit(ws[k])
  {
    RunInv(cfg, ws, k);
  }

  /** From any reachable state on, as long as no new request arrives, there are no more steps than there is work: nothing goes on for ever. */
  lemma {:induction false} WorkIsBounded(cfg: Config, ws: seq<World>, j: nat, k: nat, n: nat)
    requires IsRun(cfg, ws) && j <= k < |ws| && Within(ws[j].threads, n)
    requires forall m :: j < m <= k ==> Works(cfg, ws[m - 1], ws[m])
    ensures Within(ws[k].threads, n) && k - j + Total(ws[k].threads, n) <= Total(ws[j].threads, n)
  {
    if j < k {
      WorkIsBounded(cfg, ws, j, k - 1, n);
      RunFits(cfg, ws, k - 1);
      TotalFalls(cfg, ws[k - 1], ws[k], n);
    }
  }

  // ----- until all is done

  /** A step towards the outcome of a request. */
  ghost predicate Goes(cfg: Config, w: World, w': World) {
    exists i, a :: Proceeds(a) && Step(cfg, w, i, a) == Some(w')
  }

  /** A rename that waits has waited before. */
  lemma NoNewRename(cfg: Config, w: World, i: Thread, a: Action)
    requires Step(cfg, w, i, a).Some? && !a.Submit? && i in Step(cfg, w, i, a).value.threads
    ensures var pc, pc' := w.threads[i], Step(cfg, w, i, a).value.threads[i];
            pc'.WaitExclusive? && pc'.req.RenameTable? ==> pc.WaitExclusive? && pc.req == pc'.req
  {
  }

  lemma StaysUpward(cfg: Config, w: World, w': World, rank: string -> int)
    requires Goes(cfg, w, w') && Upward(w.threads, rank)
    ensures Upward(w'.threads, rank)
  {
    var i, a :| Proceeds(a) && Step(cfg, w, i, a) == Some(w');
    StepIsOwn(cfg, w, i, a);
    NoNewRename(cfg, w, i, a);
  }

  lemma NextOnTheWay(cfg: Config, ws: seq<World>, rank: string -> int) returns (w: World)
    requires IsRun(cfg, ws) && Upward(ws[|ws| - 1].threads, rank) && !AllIdle(ws[|ws| - 1])
    ensures Goes(cfg, ws[|ws| - 1], w)
  {
    var i :| i in ws[|ws| - 1].threads && !ws[|ws| - 1].threads[i].Idle?;
    NeverAllStuck(cfg, ws, |ws| - 1, rank, i);
    var j :| CanGoOn(cfg, ws[|ws| - 1], j);
    var a :| Proceeds(a) && Step(cfg, ws[|ws| - 1], j, a).Some?;
    w := Step(cfg, ws[|ws| - 1], j, a).value;
  }

  /** The steps after the first `j` worlds all lead on. */
  ghost predicate LeadsOn(cfg: Config, ws: seq<World>, j: nat) {
    forall m :: j <= m < |ws| && 0 < m ==> Goes(cfg, ws[m - 1], ws[m])
  }

  /** One step on the way keeps renames upward and leaves less to do. */
  lemma OneStepLess(cfg: Config, ws: seq<World>, rank: string -> int, n: nat) returns (w: World)
    requires IsRun(cfg, ws) && Upward(ws[|ws| - 1].threads, rank) && Within(ws[|ws| - 1].threads, n) && !AllIdle(ws[|ws| - 1])
    ensures Goes(cfg, ws[|ws| - 1], w) && Continues(cfg, ws, ws + [w])
    ensures Upward(w.threads, rank) && Within(w.threads, n) && Total(w.threads, n) < Total(ws[|ws| - 1].threads, n)
  {
    w := NextOnTheWay(cfg, ws, rank);
    RunFits(cfg, ws, |ws| - 1);
    TotalFalls(cfg, ws[|ws| - 1], w, n);
    StaysUpward(cfg, ws[|ws| - 1], w, rank);
    OneStepOn(cfg, ws, w);
  }

  lemma LedOn(cfg: Config, ws: seq<World>, w: World, more: seq<World>)
    requires ws != [] && Goes(cfg, ws[|ws| - 1], w) && Continues(cfg, ws + [w], more) && LeadsOn(cfg, more, |ws| + 1)
    ensures Continues(cfg, ws, more) && LeadsOn(cfg, more, |ws|)
  {
    assert more[..|ws| + 1] == ws + [w];
    assert more[|ws|] == w && more[|ws| - 1] == ws[|ws| - 1];
  }

  lemma {:induction false} FinishWithin(cfg: Config, ws: seq<World>, rank: string -> int, n: nat) returns (more: seq<World>)
    requires IsRun(cfg, ws) && Upward(ws[|ws| - 1].threads, rank) && Within(ws[|ws| - 1].threads, n)
    ensures Continues(cfg, ws, more) && LeadsOn(cfg, more, |ws|) && AllIdle(more[|more| - 1])
    decreases Total(ws[|ws| - 1].threads, n)
  {
    if AllIdle(ws[|ws| - 1]) {
      more := ws;
    } else {
      var w := OneStepLess(cfg, ws, rank, n);
      var on := ws + [w];
      assert on[|on| - 1] == w;
      more := FinishWithin(cfg, on, rank, n);
      LedOn(cfg, ws, w, more);
    }
  }

  /**
    With upward renames every reachable state has a continuation, without new requests
    and without spontaneous failures, in which all requests come to their end.
   */
  lemma EveryRequestEnds(cfg: Config, ws: seq<World>, rank: string -> int) returns (more: seq<World>)
    requires IsRun(cfg, ws) && Upward(ws[|ws| - 1].threads, rank)
    ensures Continues(cfg, ws, more) && LeadsOn(cfg, more, |ws|) && AllIdle(more[|more| - 1])
  {
    var n := Slots(ws[|ws| - 1].threads.Keys);
    more := FinishWithin(cfg, ws, rank, n);
  }
}
