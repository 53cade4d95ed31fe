/** Exactly which renames can deadlock: those that form a circle of names. */
module RenameCycles {
  import opened Words
  import opened Invariants
  import opened Interleaving
  import opened Locking
  import opened StoreSteps
  import opened Deadlocks

  /** Renames that lead from name to name and back to the first one; a rename to the same name is such a circle by itself. */
  ghost predicate RenameCycle(c: seq<Request>) {
    && c != []
    && (forall k :: 0 <= k < |c| ==> c[k].RenameTable?)
    && (forall k :: 0 < k < |c| ==> c[k - 1].to == c[k].table)
    && c[|c| - 1].to == c[0].table
  }

  ghost predicate Simple(c: seq<Request>) {
    forall i, j :: 0 <= i < j < |c| ==> c[i].table != c[j].table
  }

  // ----- a deadlock needs a circle

  /** Requests that wait in a circle are renames with their first lock in hand, each waiting for the first lock of the next. */
  lemma InCycle(ts: Threads, c: seq<Thread>, k: nat)
    requires WaitCycle(ts, c) && k < |c| && forall i :: i in ts ==> PcOk(ts[i])
    ensures c[k] in ts && ts[c[k]].WaitExclusive? && ts[c[k]].req.RenameTable? && ts[c[k]].held == {ts[c[k]].req.table}
    ensures !ts[c[k]].announced
  {
    var before, next := if k == 0 then c[|c| - 1] else c[k - 1], if k == |c| - 1 then c[0] else c[k + 1];
    var after := if k == |c| - 1 then 0 else k + 1;
    CycleWaits(ts, c, k);
    CycleWaits(ts, c, after);
    assert Blocks(ts, before, c[k]);
    assert Blocks(ts, c[k], next) by {
      assert k < |c| - 1 ==> Blocks(ts, c[k + 1 - 1], c[k + 1]);
    }
  }

  lemma WaitsForNext(ts: Threads, i: Thread, j: Thread)
    requires Blocks(ts, i, j) && ts[i].WaitExclusive? && ts[i].req.RenameTable? && ts[i].held != {} && !ts[i].announced
    requires ts[j].WaitExclusive? && ts[j].held == {ts[j].req.table} && !ts[j].announced
    ensures ts[i].req.to == ts[j].req.table
  {
  }

  function Requests(ts: Threads, c: seq<Thread>): (rs: seq<Request>)
    requires forall k :: 0 <= k < |c| ==> c[k] in ts && ts[c[k]].WaitExclusive?
    ensures |rs| == |c| && forall k :: 0 <= k < |c| ==> rs[k] == ts[c[k]].req
  {
    seq(|c|, k requires 0 <= k < |c| => ts[c[k]].req)
  }

  lemma DeadlockIsRenameCycle(ts: Threads, c: seq<Thread>) returns (rs: seq<Request>)
    requires WaitCycle(ts, c) && forall i :: i in ts ==> PcOk(ts[i])
    ensures RenameCycle(rs) && forall r :: r in rs ==> exists i :: i in ts && ts[i].WaitExclusive? && ts[i].req == r
  {
    forall k | 0 <= k < |c|
      ensures c[k] in ts && ts[c[k]].WaitExclusive? && ts[c[k]].req.RenameTable?
      ensures ts[c[k]].held == {ts[c[k]].req.table} && !ts[c[k]].announced
    {
      InCycle(ts, c, k);
    }
    rs := Requests(ts, c);
    forall k | 0 < k < |rs|
      ensures rs[k - 1].to == rs[k].table
    {
      WaitsForNext(ts, c[k - 1], c[k]);
    }
    WaitsForNext(ts, c[|c| - 1], c[0]);
  }

  /** A request in such a circle has no step to take. */
  lemma CycleHasNoStep(cfg: Config, w: World, c: seq<Thread>, k: nat, a: Action)
    requires WaitCycle(w.threads, c) && k < |c| && forall i :: i in w.threads ==> PcOk(w.threads[i])
    ensures Step(cfg, w, c[k], a) == None
  {
    InCycle(w.threads, c, k);
    var next := if k == |c| - 1 then c[0] else c[k + 1];
    assert Blocks(w.threads, c[k], next) by {
      assert k < |c| - 1 ==> Blocks(w.threads, c[k + 1 - 1], c[k + 1]);
    }
    assert Target(w.threads[c[k]].req, w.threads[c[k]].held) in Owns(w.threads[next]);
  }

  /** Whatever the other requests do, the circle stays. */
  lemma DeadlocksLast(cfg: Config, w: World, c: seq<Thread>, i: Thread, a: Action)
    requires WaitCycle(w.threads, c) && (forall i :: i in w.threads ==> PcOk(w.threads[i])) && Step(cfg, w, i, a).Some?
    ensures i !in c && WaitCycle(Step(cfg, w, i, a).value.threads, c)
  {
    var ts, us := w.threads, Step(cfg, w, i, a).value.threads;
    forall k | 0 <= k < |c|
      ensures c[k] != i
    {
      CycleHasNoStep(cfg, w, c, k, a);
    }
    forall k | 0 <= k < |c|
      ensures c[k] in ts && c[k] in us && us[c[k]] == ts[c[k]]
    {
      CycleWaits(ts, c, k);
      OthersStay(cfg, w, i, a, c[k]);
    }
    forall k | 0 < k < |c|
      ensures Blocks(us, c[k - 1], c[k])
    {
      assert Blocks(ts, c[k - 1], c[k]);
    }
  }

  lemma OthersStay(cfg: Config, w: World, i: Thread, a: Action, j: Thread)
    requires Step(cfg, w, i, a).Some? && j in w.threads && j != i
    ensures j in Step(cfg, w, i, a).value.threads && Step(cfg, w, i, a).value.threads[j] == w.threads[j]
  {
  }

  // ----- a circle makes a deadlock

  /** All renames that wait for a lock come from the given set. */
  ghost predicate Within(ts: Threads, renames: set<Request>) {
    forall i :: i in ts && ts[i].WaitExclusive? && ts[i].req.RenameTable? ==> ts[i].req in renames
  }

  /** Every circle goes through a circle that meets no name twice. */
  lemma {:induction false} SimpleCycle(c: seq<Request>) returns (d: seq<Request>)
    requires RenameCycle(c)
    ensures RenameCycle(d) && Simple(d) && forall r :: r in d ==> r in c
    decreases |c|
  {
    if i, j :| 0 <= i < j < |c| && c[i].table == c[j].table {
      var part := c[i..j];
      assert forall k :: 0 <= k < |part| ==> part[k] == c[i + k];
      d := SimpleCycle(part);
    } else {
      d := c;
    }
  }

  /** The first `k` renames have their first lock and wait for the second; the next one is as given, the others have not begun. */
  function Begun(c: seq<Request>, k: nat, next: Pc): World {
    World(EMPTY, [], map i: nat | i < |c| :: if i < k then WaitExclusive(c[i], {c[i].table}, false) else if i == k then next else Idle)
  }

  lemma Moves(c: seq<Request>, k: nat, p: Pc, q: Pc)
    requires k < |c|
    ensures Set(Begun(c, k, p), k, q) == Begun(c, k, q)
  {
  }

  lemma FirstMore(c: seq<Request>, k: nat)
    requires k < |c|
    ensures Begun(c, k, WaitExclusive(c[k], {c[k].table}, false)) == Begun(c, k + 1, Idle)
  {
  }

  /** Nobody holds the first lock of the next rename. */
  lemma FirstIsFree(c: seq<Request>, k: nat, announced: bool)
    requires RenameCycle(c) && Simple(c) && k < |c|
    ensures !announced ==> NoOwner(Begun(c, k, WaitExclusive(c[k], {}, announced)).threads, c[k].table)
    ensures NoReader(Begun(c, k, WaitExclusive(c[k], {}, announced)).threads, c[k].table)
  {
  }

  /** The next rename takes its first lock. */
  lemma NextBegins(cfg: Config, c: seq<Request>, k: nat)
    requires RenameCycle(c) && Simple(c) && k < |c|
    ensures Next(cfg, Begun(c, k, Idle), Begun(c, k, WaitExclusive(c[k], {}, false)))
    ensures Next(cfg, Begun(c, k, WaitExclusive(c[k], {}, false)), Begun(c, k, WaitExclusive(c[k], {}, true)))
    ensures Next(cfg, Begun(c, k, WaitExclusive(c[k], {}, true)), Begun(c, k + 1, Idle))
  {
    var r := c[k];
    var p, q, done := WaitExclusive(r, {}, false), WaitExclusive(r, {}, true), WaitExclusive(r, {r.table}, false);
    Moves(c, k, Idle, p);
    assert Step(cfg, Begun(c, k, Idle), k, Submit(r)) == Some(Begun(c, k, p));
    FirstIsFree(c, k, false);
    Moves(c, k, p, q);
    assert Step(cfg, Begun(c, k, p), k, Announce) == Some(Begun(c, k, q));
    FirstIsFree(c, k, true);
    Moves(c, k, q, done);
    FirstMore(c, k);
    assert Step(cfg, Begun(c, k, q), k, LockExclusive) == Some(Begun(c, k + 1, Idle));
  }

  ghost predicate RunWithin(cfg: Config, ws: seq<World>, renames: set<Request>) {
    IsRun(cfg, ws) && forall m :: 0 <= m < |ws| ==> Within(ws[m].threads, renames)
  }

  lemma OneStepMore(cfg: Config, ws: seq<World>, w: World, renames: set<Request>)
    requires RunWithin(cfg, ws, renames) && Next(cfg, ws[|ws| - 1], w) && Within(w.threads, renames)
    ensures RunWithin(cfg, ws + [w], renames)
  {
    var more := ws + [w];
    forall k | 0 < k < |more|
      ensures Next(cfg, more[k - 1], more[k])
    {
      if k < |ws| {
        assert more[k] == ws[k];
      }
    }
  }

  lemma WithinBegun(c: seq<Request>, k: nat, next: Pc, renames: set<Request>)
    requires forall r :: r in c ==> r in renames
    requires next.Idle? || (next.WaitExclusive? && next.req in c)
    ensures Within(Begun(c, k, next).threads, renames)
  {
  }

  lemma OneMoreRename(cfg: Config, c: seq<Request>, k: nat, renames: set<Request>, ws: seq<World>) returns (more: seq<World>)
    requires RenameCycle(c) && Simple(c) && k < |c| && forall r :: r in c ==> r in renames
    requires RunWithin(cfg, ws, renames) && ws[|ws| - 1] == Begun(c, k, Idle)
    ensures RunWithin(cfg, more, renames) && more[|more| - 1] == Begun(c, k + 1, Idle)
  {
    var p, q := WaitExclusive(c[k], {}, false), WaitExclusive(c[k], {}, true);
    NextBegins(cfg, c, k);
    WithinBegun(c, k, p, renames);
    WithinBegun(c, k, q, renames);
    WithinBegun(c, k + 1, Idle, renames);
    OneStepMore(cfg, ws, Begun(c, k, p), renames);
    more := ws + [Begun(c, k, p)];
    OneStepMore(cfg, more, Begun(c, k, q), renames);
    more := more + [Begun(c, k, q)];
    OneStepMore(cfg, more, Begun(c, k + 1, Idle), renames);
    more := more + [Begun(c, k + 1, Idle)];
  }

  lemma NothingBegun(cfg: Config, c: seq<Request>, renames: set<Request>)
    requires forall r :: r in c ==> r in renames
    ensures RunWithin(cfg, [Begun(c, 0, Idle)], renames)
  {
    WithinBegun(c, 0, Idle, renames);
  }

  lemma {:induction false} AllBegin(cfg: Config, c: seq<Request>, k: nat, renames: set<Request>) returns (ws: seq<World>)
    requires RenameCycle(c) && Simple(c) && k <= |c| && forall r :: r in c ==> r in renames
    ensures RunWithin(cfg, ws, renames) && ws[|ws| - 1] == Begun(c, k, Idle)
  {
    if k == 0 {
      NothingBegun(cfg, c, renames);
      ws := [Begun(c, 0, Idle)];
    } else {
      ws := AllBegin(cfg, c, k - 1, renames);
      ws := OneMoreRename(cfg, c, k - 1, renames, ws);
    }
  }

  lemma AllStuck(c: seq<Request>) returns (circle: seq<Thread>)
    requires RenameCycle(c) && Simple(c)
    ensures WaitCycle(Begun(c, |c|, Idle).threads, circle)
  {
    circle := seq(|c|, i requires 0 <= i < |c| => i);
    var ts := Begun(c, |c|, Idle).threads;
    forall k | 0 < k < |c|
      ensures Blocks(ts, circle[k - 1], circle[k])
    {
      assert c[k - 1].to in Owns(ts[circle[k]]);
    }
    assert c[|c| - 1].to in Owns(ts[circle[0]]);
  }

  // ----- exactly when

  ghost predicate CanDeadlock(cfg: Config, renames: set<Request>) {
    exists ws: seq<World>, k: nat, c: seq<Thread> :: IsRun(cfg, ws) && k < |ws| && Within(ws[k].threads, renames) && WaitCycle(ws[k].threads, c)
  }

  ghost predicate HasCycle(renames: set<Request>) {
    exists c :: RenameCycle(c) && forall r :: r in c ==> r in renames
  }

  /** Some run in which only these renames wait for locks reaches a circle of waiting requests exactly if their names form a circle. */
  lemma DeadlockIff(cfg: Config, renames: set<Request>)
    ensures CanDeadlock(cfg, renames) <==> HasCycle(renames)
  {
    if CanDeadlock(cfg, renames) {
      var ws: seq<World>, k: nat, c: seq<Thread> :| IsRun(cfg, ws) && k < |ws| && Within(ws[k].threads, renames) && WaitCycle(ws[k].threads, c);
      RunInv(cfg, ws, k);
      var rs := DeadlockIsRenameCycle(ws[k].threads, c);
      assert HasCycle(renames);
    }
    if HasCycle(renames) {
      var c :| RenameCycle(c) && forall r :: r in c ==> r in renames;
      var d := SimpleCycle(c);
      var ws := AllBegin(cfg, d, |d|, renames);
      var circle := AllStuck(d);
      assert WaitCycle(ws[|ws| - 1].threads, circle);
      assert Within(ws[|ws| - 1].threads, renames);
    }
  }
}
