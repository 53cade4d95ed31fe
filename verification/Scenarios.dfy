/** Exactly when a reader can be served stale rows: with a cache, beside renames or drops. */
module Scenarios {
  import opened Words
  import opened Sorting
  import opened Tables
  import opened Invariants
  import opened CacheKeys
  import opened Interleaving
  import opened Reads

  // ----- runs of two requests

  datatype Kinds = Kinds(drops: bool, renames: bool)

  predicate Admits(kinds: Kinds, req: Request) {
    (req.DropTable? ==> kinds.drops) && (req.RenameTable? ==> kinds.renames)
  }

  predicate PcAdmitted(kinds: Kinds, pc: Pc) {
    pc.Idle? || pc.Inserting? || Admits(kinds, pc.req)
  }

  /** Drops and renames are under way only if they are among the given kinds. */
  ghost predicate Only(kinds: Kinds, w: World) {
    forall i :: i in w.threads ==> PcAdmitted(kinds, w.threads[i])
  }

  function Pair(db: Db, cache: PartCache, p: Pc, q: Pc): World {
    World(db, cache, map[0 := p, 1 := q])
  }

  lemma Moves(db: Db, cache: PartCache, p: Pc, q: Pc, r: Pc)
    ensures Set(Pair(db, cache, p, q), 0, r) == Pair(db, cache, r, q)
    ensures Set(Pair(db, cache, p, q), 1, r) == Pair(db, cache, p, r)
  {
  }

  ghost predicate Path(cfg: Config, kinds: Kinds, ws: seq<World>) {
    && ws != []
    && (forall k :: 0 < k < |ws| ==> Next(cfg, ws[k - 1], ws[k]))
    && (forall k :: 0 <= k < |ws| ==> Only(kinds, ws[k]))
  }

  lemma Join(cfg: Config, kinds: Kinds, a: seq<World>, b: seq<World>) returns (c: seq<World>)
    requires Path(cfg, kinds, a) && Path(cfg, kinds, b) && a[|a| - 1] == b[0]
    ensures Path(cfg, kinds, c) && c[0] == a[0] && c[|c| - 1] == b[|b| - 1]
  {
    c := a + b[1..];
    forall k | 0 <= k < |c|
      ensures Only(kinds, c[k]) && (k > 0 ==> Next(cfg, c[k - 1], c[k]))
    {
      if k >= |a| {
        assert c[k] == b[k - |a| + 1] && c[k - 1] == b[k - |a|];
        assert Next(cfg, b[k - |a|], b[k - |a| + 1]);
      }
    }
  }

  /** A path grows by a step. */
  lemma Extend(cfg: Config, kinds: Kinds, ws: seq<World>, i: Thread, a: Action, w: World) returns (more: seq<World>)
    requires Path(cfg, kinds, ws) && Step(cfg, ws[|ws| - 1], i, a) == Some(w) && Only(kinds, w)
    ensures Path(cfg, kinds, more) && more[0] == ws[0] && more[|more| - 1] == w
  {
    assert Next(cfg, ws[|ws| - 1], w);
    more := ws + [w];
  }

  // ----- writers

  lemma Announces(cfg: Config, db: Db, cache: PartCache, req: Request, held: set<string>)
    requires Target(req, held) !in held
    ensures Step(cfg, Pair(db, cache, WaitExclusive(req, held, false), Idle), 0, Announce)
         == Some(Pair(db, cache, WaitExclusive(req, held, true), Idle))
  {
    Moves(db, cache, WaitExclusive(req, held, false), Idle, WaitExclusive(req, held, true));
  }

  lemma Locks(cfg: Config, db: Db, cache: PartCache, req: Request, held: set<string>)
    ensures Step(cfg, Pair(db, cache, WaitExclusive(req, held, true), Idle), 0, LockExclusive)
         == Some(Pair(db, cache, Acquired(WaitExclusive(req, held, true)), Idle))
  {
    Moves(db, cache, WaitExclusive(req, held, true), Idle, Acquired(WaitExclusive(req, held, true)));
  }

  /** A writer on its own gets its first lock. */
  lemma TakesLock(cfg: Config, kinds: Kinds, db: Db, cache: PartCache, req: Request) returns (ws: seq<World>)
    requires !Shared(req) && !req.ApplySpec? && Admits(kinds, req)
    ensures Path(cfg, kinds, ws) && ws[0] == Pair(db, cache, Idle, Idle)
    ensures ws[|ws| - 1] == Pair(db, cache, Acquired(WaitExclusive(req, {}, true)), Idle)
  {
    Moves(db, cache, Idle, Idle, WaitExclusive(req, {}, false));
    Announces(cfg, db, cache, req, {});
    Locks(cfg, db, cache, req, {});
    ws := Extend(cfg, kinds, [Pair(db, cache, Idle, Idle)], 0, Submit(req), Pair(db, cache, WaitExclusive(req, {}, false), Idle));
    ws := Extend(cfg, kinds, ws, 0, Announce, Pair(db, cache, WaitExclusive(req, {}, true), Idle));
    ws := Extend(cfg, kinds, ws, 0, LockExclusive, Pair(db, cache, Acquired(WaitExclusive(req, {}, true)), Idle));
  }

  lemma TakesSecondLock(cfg: Config, kinds: Kinds, db: Db, cache: PartCache, req: Request) returns (ws: seq<World>)
    requires req.RenameTable? && req.to != req.table && Admits(kinds, req)
    ensures Path(cfg, kinds, ws) && ws[0] == Pair(db, cache, WaitExclusive(req, {req.table}, false), Idle)
    ensures ws[|ws| - 1] == Pair(db, cache, Writing(req, {req.table} + {req.to}, Entered), Idle)
  {
    Announces(cfg, db, cache, req, {req.table});
    Locks(cfg, db, cache, req, {req.table});
    ws := Extend(cfg, kinds, [Pair(db, cache, WaitExclusive(req, {req.table}, false), Idle)], 0, Announce,
                 Pair(db, cache, WaitExclusive(req, {req.table}, true), Idle));
    ws := Extend(cfg, kinds, ws, 0, LockExclusive, Pair(db, cache, Writing(req, {req.table} + {req.to}, Entered), Idle));
  }

  lemma RunsTx(cfg: Config, db: Db, cache: PartCache, req: Request, held: set<string>)
    requires req.CreateTable? || req.DropTable? || req.RenameTable?
    ensures var (db', owed) := TxResult(db, req);
            Step(cfg, Pair(db, cache, Writing(req, held, Entered), Idle), 0, RunTx) == Some(Pair(db', cache, Writing(req, held, Done(owed)), Idle))
  {
    Moves(db, cache, Writing(req, held, Entered), Idle, Writing(req, held, Done(TxResult(db, req).1)));
  }

  lemma GivesBack(cfg: Config, db: Db, cache: PartCache, req: Request, held: set<string>, owed: seq<string>, name: string)
    requires !req.CommitSnapshot? && name in held
    ensures Step(cfg, Pair(db, cache, Writing(req, held, Done(owed)), Idle), 0, ReleaseExclusive(name))
         == Some(Pair(db, cache, if held - {name} != {} then Writing(req, held - {name}, Done(owed)) else if owed == [] then Idle else Owing(req, owed), Idle))
  {
    Moves(db, cache, Writing(req, held, Done(owed)), Idle, Released(Writing(req, held, Done(owed)), name));
  }

  /** A request that has its locks runs its transaction and gives them back, with its invalidations still to come. */
  lemma WriterEnds(cfg: Config, kinds: Kinds, db: Db, cache: PartCache, req: Request) returns (ws: seq<World>)
    requires (req.CreateTable? || req.DropTable?) && Admits(kinds, req)
    ensures Path(cfg, kinds, ws) && ws[0] == Pair(db, cache, Writing(req, {req.table}, Entered), Idle)
    ensures var (db', owed) := TxResult(db, req);
            ws[|ws| - 1] == Pair(db', cache, if owed == [] then Idle else Owing(req, owed), Idle)
  {
    var (db', owed) := TxResult(db, req);
    RunsTx(cfg, db, cache, req, {req.table});
    GivesBack(cfg, db', cache, req, {req.table}, owed, req.table);
    assert {req.table} - {req.table} == {};
    ws := [Pair(db, cache, Writing(req, {req.table}, Entered), Idle), Pair(db', cache, Writing(req, {req.table}, Done(owed)), Idle),
           Pair(db', cache, if owed == [] then Idle else Owing(req, owed), Idle)];
  }

  lemma WriterRuns(cfg: Config, kinds: Kinds, db: Db, cache: PartCache, req: Request) returns (ws: seq<World>)
    requires (req.CreateTable? || req.DropTable?) && Admits(kinds, req)
    ensures Path(cfg, kinds, ws) && ws[0] == Pair(db, cache, Idle, Idle)
    ensures var (db', owed) := TxResult(db, req);
            ws[|ws| - 1] == Pair(db', cache, if owed == [] then Idle else Owing(req, owed), Idle)
  {
    var lock := TakesLock(cfg, kinds, db, cache, req);
    assert {} + {req.table} == {req.table};
    var end := WriterEnds(cfg, kinds, db, cache, req);
    ws := Join(cfg, kinds, lock, end);
  }

  lemma RenameEnds(cfg: Config, kinds: Kinds, db: Db, cache: PartCache, req: Request) returns (ws: seq<World>)
    requires req.RenameTable? && req.to != req.table && Admits(kinds, req)
    ensures Path(cfg, kinds, ws) && ws[0] == Pair(db, cache, Writing(req, {req.table} + {req.to}, Entered), Idle)
    ensures ws[|ws| - 1] == Pair(TxResult(db, req).0, cache, Owing(req, [req.table, req.to]), Idle)
  {
    var held, owed, db' := {req.table} + {req.to}, [req.table, req.to], TxResult(db, req).0;
    RunsTx(cfg, db, cache, req, held);
    GivesBack(cfg, db', cache, req, held, owed, req.table);
    GivesBack(cfg, db', cache, req, {req.to}, owed, req.to);
    assert held - {req.table} == {req.to} && {req.to} - {req.to} == {};
    ws := [Pair(db, cache, Writing(req, held, Entered), Idle), Pair(db', cache, Writing(req, held, Done(owed)), Idle),
           Pair(db', cache, Writing(req, {req.to}, Done(owed)), Idle), Pair(db', cache, Owing(req, owed), Idle)];
  }

  lemma RenameRuns(cfg: Config, kinds: Kinds, db: Db, cache: PartCache, req: Request) returns (ws: seq<World>)
    requires req.RenameTable? && req.to != req.table && Admits(kinds, req)
    ensures Path(cfg, kinds, ws) && ws[0] == Pair(db, cache, Idle, Idle)
    ensures ws[|ws| - 1] == Pair(TxResult(db, req).0, cache, Owing(req, [req.table, req.to]), Idle)
  {
    var first := TakesLock(cfg, kinds, db, cache, req);
    var second := TakesSecondLock(cfg, kinds, db, cache, req);
    var end := RenameEnds(cfg, kinds, db, cache, req);
    ws := Join(cfg, kinds, first, second);
    ws := Join(cfg, kinds, ws, end);
  }

  // ----- readers

  lemma ReaderLocks(cfg: Config, kinds: Kinds, db: Db, cache: PartCache, t: string, p: Pc) returns (ws: seq<World>)
    requires t !in Owns(p) && PcAdmitted(kinds, p)
    ensures Path(cfg, kinds, ws) && ws[0] == Pair(db, cache, p, Idle)
    ensures ws[|ws| - 1] == Pair(db, cache, p, Reading(Read(t, 0), Locked))
  {
    var a, b := WaitShared(Read(t, 0)), Reading(Read(t, 0), Locked);
    ws := [Pair(db, cache, p, Idle), Pair(db, cache, p, a), Pair(db, cache, p, b)];
    Moves(db, cache, p, Idle, a);
    Moves(db, cache, p, a, b);
    assert Step(cfg, ws[0], 1, Submit(Read(t, 0))) == Some(ws[1]);
    assert Step(cfg, ws[1], 1, LockShared) == Some(ws[2]);
  }

  /** A read of the present gets as far as looking into the cache. */
  lemma ReaderResolves(cfg: Config, kinds: Kinds, db: Db, cache: PartCache, t: string, p: Pc) returns (ws: seq<World>)
    requires t !in Owns(p) && PcAdmitted(kinds, p)
    ensures Path(cfg, kinds, ws) && ws[0] == Pair(db, cache, p, Idle)
    ensures ws[|ws| - 1] == Pair(db, cache, p, Reading(Read(t, 0), Resolved(ReadAt(db.rel, t, 0))))
  {
    var b, c := Reading(Read(t, 0), Locked), Reading(Read(t, 0), Resolved(ReadAt(db.rel, t, 0)));
    var lock := ReaderLocks(cfg, kinds, db, cache, t, p);
    var look := [Pair(db, cache, p, b), Pair(db, cache, p, c)];
    Moves(db, cache, p, b, c);
    assert Step(cfg, look[0], 1, Resolve) == Some(look[1]);
    ws := Join(cfg, kinds, lock, look);
  }

  lemma ReaderQueries(cfg: Config, kinds: Kinds, db: Db, t: string, at: uint64, rows: seq<Part>) returns (ws: seq<World>)
    requires cfg.caching && QueryPartitions(db.rel, t, at) == Some(rows)
    ensures Path(cfg, kinds, ws) && ws[0] == Pair(db, [], Idle, Reading(Read(t, 0), Resolved(at)))
    ensures ws[|ws| - 1] == Pair(db, [], Idle, Reading(Read(t, 0), Queried(at, Some(rows))))
  {
    var req := Read(t, 0);
    var a, b, c := Reading(req, Resolved(at)), Reading(req, Missed(at)), Reading(req, Queried(at, Some(rows)));
    ws := [Pair(db, [], Idle, a), Pair(db, [], Idle, b), Pair(db, [], Idle, c)];
    Moves(db, [], Idle, a, b);
    Moves(db, [], Idle, b, c);
    assert Step(cfg, ws[0], 1, Probe) == Some(ws[1]);
    assert Step(cfg, ws[1], 1, Query) == Some(ws[2]);
  }

  lemma ReaderStores(cfg: Config, kinds: Kinds, db: Db, t: string, at: uint64, rows: seq<Part>) returns (ws: seq<World>)
    requires cfg.caching
    ensures Path(cfg, kinds, ws) && ws[0] == Pair(db, [], Idle, Reading(Read(t, 0), Queried(at, Some(rows))))
    ensures ws[|ws| - 1] == Pair(db, [Recency.Entry(Key(t, at), rows)], Idle, Idle)
  {
    var req, cache := Read(t, 0), [Recency.Entry(Key(t, at), rows)];
    var c, d := Reading(req, Queried(at, Some(rows))), Reading(req, Served(at, Some(rows)));
    ws := [Pair(db, [], Idle, c), Pair(db, cache, Idle, d), Pair(db, cache, Idle, Idle)];
    Moves(db, [], Idle, c, d);
    Moves(db, cache, Idle, d, Idle);
    assert Recency.Put(cfg.capacity, [], Key(t, at), rows) == cache;
    assert Step(cfg, ws[0], 1, Store) == Some(ws[1]);
    assert Step(cfg, ws[1], 1, ReleaseShared) == Some(ws[2]);
  }

  lemma StaleHit(cfg: Config, kinds: Kinds, db: Db, cache: PartCache, t: string, p: Pc) returns (ws: seq<World>)
    requires cfg.caching && cache == [Recency.Entry(Key(t, 0), [])] && PcAdmitted(kinds, p)
    ensures Path(cfg, kinds, ws) && ws[0] == Pair(db, cache, p, Reading(Read(t, 0), Resolved(0)))
    ensures ws[|ws| - 1] == Pair(db, cache, p, Reading(Read(t, 0), Served(0, Some([]))))
  {
    var a, b := Reading(Read(t, 0), Resolved(0)), Reading(Read(t, 0), Served(0, Some([])));
    ws := [Pair(db, cache, p, a), Pair(db, cache, p, b)];
    Moves(db, cache, p, a, b);
    assert Recency.Lookup(cache, Key(t, 0)) == Some(cache[0].value);
    assert Recency.Minus(cache, {Key(t, 0)}) == Recency.Minus(cache[1..], {Key(t, 0)}) == [];
    assert Recency.Hit(cache, Key(t, 0)) == cache;
    assert Step(cfg, ws[0], 1, Probe) == Some(ws[1]);
  }

  // ----- stale reads

  /** The database with one table, which has no snapshots yet. */
  function WithTable(t: string): Db {
    TxResult(EMPTY, CreateTable(t, "{}", "day")).0
  }

  lemma EmptyListing(t: string)
    ensures Live(WithTable(t).rel, t).Some? && WithTable(t).rel.tables == map[t := WithTable(t).rel.tables[t]]
    ensures WithTable(t).rel.tables[t].current == 0 && QueryPartitions(WithTable(t).rel, t, 0) == Some([])
    ensures TxResult(EMPTY, CreateTable(t, "{}", "day")).1 == []
  {
    SortedIsSorted(IdsOf(WithTable(t).rel.partitions, 1));
    assert IdsOf(WithTable(t).rel.partitions, 1) == {};
  }

  /** A table is created and its listing read into the cache. */
  lemma CacheFills(cfg: Config, kinds: Kinds, t: string) returns (ws: seq<World>)
    requires cfg.caching
    ensures Path(cfg, kinds, ws) && ws[0] == Pair(EMPTY, [], Idle, Idle)
    ensures ws[|ws| - 1] == Pair(WithTable(t), [Recency.Entry(Key(t, 0), [])], Idle, Idle)
  {
    EmptyListing(t);
    var a := WriterRuns(cfg, kinds, EMPTY, [], CreateTable(t, "{}", "day"));
    var b := ReaderResolves(cfg, kinds, WithTable(t), [], t, Idle);
    var c := ReaderQueries(cfg, kinds, WithTable(t), t, 0, []);
    var d := ReaderStores(cfg, kinds, WithTable(t), t, 0, []);
    ws := Join(cfg, kinds, a, b);
    ws := Join(cfg, kinds, ws, c);
    ws := Join(cfg, kinds, ws, d);
  }

  ghost predicate ServedStale(w: World) {
    exists i :: i in w.threads && !ServedOk(w.db.rel, w.threads[i])
  }

  /** While the invalidation of a table that is gone is owed, a reader is served its cached listing. */
  lemma ServesGoneTable(cfg: Config, kinds: Kinds, db: Db, t: string, p: Pc, before: seq<World>) returns (ws: seq<World>)
    requires cfg.caching && t !in Owns(p) && PcAdmitted(kinds, p) && Live(db.rel, t).None?
    requires Path(cfg, kinds, before) && before[|before| - 1] == Pair(db, [Recency.Entry(Key(t, 0), [])], p, Idle)
    ensures Path(cfg, kinds, ws) && ws[0] == before[0] && ServedStale(ws[|ws| - 1])
  {
    var cache := [Recency.Entry(Key(t, 0), [])];
    var a := ReaderResolves(cfg, kinds, db, cache, t, p);
    var b := StaleHit(cfg, kinds, db, cache, t, p);
    ws := Join(cfg, kinds, before, a);
    ws := Join(cfg, kinds, ws, b);
    var served := Reading(Read(t, 0), Served(0, Some([])));
    assert ws[|ws| - 1].threads[1] == served;
    assert !ServedOk(db.rel, served);
  }

  /**
    A soft drop gives back its lock before it invalidates: in between, a reader of the
    dropped table is served from the cache although the query answers that there is no such table.
   */
  lemma DropLetsAStaleReadThrough(cfg: Config, kinds: Kinds, t: string) returns (ws: seq<World>)
    requires cfg.caching && kinds.drops
    ensures Path(cfg, kinds, ws) && ws[0] == Pair(EMPTY, [], Idle, Idle) && ServedStale(ws[|ws| - 1])
  {
    EmptyListing(t);
    var drop := DropTable(t, false);
    var a := CacheFills(cfg, kinds, t);
    var b := WriterRuns(cfg, kinds, WithTable(t), [Recency.Entry(Key(t, 0), [])], drop);
    ws := Join(cfg, kinds, a, b);
    ws := ServesGoneTable(cfg, kinds, TxResult(WithTable(t), drop).0, t, Owing(drop, [t]), ws);
  }

  /** So does a rename, for readers of the old name. */
  lemma RenameLetsAStaleReadThrough(cfg: Config, kinds: Kinds, t: string, u: string) returns (ws: seq<World>)
    requires cfg.caching && kinds.renames && t != u
    ensures Path(cfg, kinds, ws) && ws[0] == Pair(EMPTY, [], Idle, Idle) && ServedStale(ws[|ws| - 1])
  {
    EmptyListing(t);
    var rename := RenameTable(t, u);
    var a := CacheFills(cfg, kinds, t);
    var b := RenameRuns(cfg, kinds, WithTable(t), [Recency.Entry(Key(t, 0), [])], rename);
    ws := Join(cfg, kinds, a, b);
    ws := ServesGoneTable(cfg, kinds, TxResult(WithTable(t), rename).0, t, Owing(rename, [t, u]), ws);
  }

  // ----- exactly when

  ghost predicate CanServeStale(cfg: Config, kinds: Kinds) {
    exists ws: seq<World> :: IsRun(cfg, ws) && Path(cfg, kinds, ws) && ServedStale(ws[|ws| - 1])
  }

  /** Some run serves rows that the query does not answer exactly if there is a cache and drops or renames are among the requests. */
  lemma StaleReadsIff(cfg: Config, kinds: Kinds)
    ensures CanServeStale(cfg, kinds) <==> cfg.caching && (kinds.drops || kinds.renames)
  {
    if CanServeStale(cfg, kinds) && !(cfg.caching && (kinds.drops || kinds.renames)) {
      var ws: seq<World> :| IsRun(cfg, ws) && Path(cfg, kinds, ws) && ServedStale(ws[|ws| - 1]);
      forall m | 0 <= m < |ws|
        ensures cfg.caching ==> NoRemovals(ws[m])
      {
        assert Only(kinds, ws[m]);
      }
      ServedIsCurrent(cfg, ws, |ws| - 1);
      assert false;
    }
    if cfg.caching && kinds.drops {
      var ws := DropLetsAStaleReadThrough(cfg, kinds, "t");
      assert IsRun(cfg, ws);
    }
    if cfg.caching && kinds.renames {
      var ws := RenameLetsAStaleReadThrough(cfg, kinds, "t", "u");
      assert IsRun(cfg, ws);
    }
  }
}
