/** Exactly when the server can record a spec history that breaks the rule of evolution. */
module Overlaps {
  import opened Words
  import opened Tables
  import opened PartitionSpecs
  import opened Invariants
  import opened Interleaving
  import opened SpecRuns
  import opened Scenarios

  // ----- one request of a pair, in either place

  function Me(first: bool): Thread {
    if first then 0 else 1
  }

  function Seats(first: bool, db: Db, cache: PartCache, mine: Pc, other: Pc): World {
    if first then Pair(db, cache, mine, other) else Pair(db, cache, other, mine)
  }

  lemma Changes(first: bool, db: Db, cache: PartCache, mine: Pc, other: Pc, next: Pc)
    ensures Set(Seats(first, db, cache, mine, other), Me(first), next) == Seats(first, db, cache, next, other)
  {
    Moves(db, cache, if first then mine else other, if first then other else mine, next);
  }

  const NEITHER := Kinds(false, false)

  /** The other request of the pair is no drop or rename and is not in the way at table `t`. */
  predicate Aside(other: Pc, t: string) {
    PcAdmitted(NEITHER, other) && t !in Owns(other) && t !in HoldsS(other)
  }

  lemma Looks(cfg: Config, first: bool, db: Db, cache: PartCache, req: Request, other: Pc)
    requires req.ProposeSpec? && Aside(other, req.table)
    ensures Step(cfg, Seats(first, db, cache, Idle, other), Me(first), Submit(req)) == Some(Seats(first, db, cache, WaitShared(req), other))
    ensures Step(cfg, Seats(first, db, cache, WaitShared(req), other), Me(first), LockShared)
         == Some(Seats(first, db, cache, Reading(req, Locked), other))
  {
    Changes(first, db, cache, Idle, other, WaitShared(req));
    Changes(first, db, cache, WaitShared(req), other, Reading(req, Locked));
  }

  lemma Notes(cfg: Config, first: bool, db: Db, cache: PartCache, req: Request, other: Pc)
    requires req.ProposeSpec? && Allowed(SpecOf(Live(db.rel, req.table)), req.spec)
    ensures Step(cfg, Seats(first, db, cache, Reading(req, Locked), other), Me(first), Note)
         == Some(Seats(first, db, cache, Reading(req, Noted(Live(db.rel, req.table))), other))
    ensures Step(cfg, Seats(first, db, cache, Reading(req, Noted(Live(db.rel, req.table))), other), Me(first), ReleaseShared)
         == Some(Seats(first, db, cache, WaitExclusive(ApplySpec(req.table, req.spec, Live(db.rel, req.table)), {}, false), other))
  {
    var noted := Reading(req, Noted(Live(db.rel, req.table)));
    Changes(first, db, cache, Reading(req, Locked), other, noted);
    Changes(first, db, cache, noted, other, WaitExclusive(ApplySpec(req.table, req.spec, Live(db.rel, req.table)), {}, false));
  }

  lemma Stays(first: bool, db: Db, cache: PartCache, mine: Pc, other: Pc)
    requires PcAdmitted(NEITHER, mine) && PcAdmitted(NEITHER, other)
    ensures Only(NEITHER, Seats(first, db, cache, mine, other))
  {
  }

  /** A spec change looks at the table, validates, and goes on to wait for the exclusive lock. */
  lemma Validates(cfg: Config, first: bool, db: Db, cache: PartCache, t: string, spec: Spec, other: Pc) returns (ws: seq<World>)
    requires Aside(other, t) && Allowed(SpecOf(Live(db.rel, t)), spec)
    ensures Path(cfg, NEITHER, ws) && ws[0] == Seats(first, db, cache, Idle, other)
    ensures ws[|ws| - 1] == Seats(first, db, cache, WaitExclusive(ApplySpec(t, spec, Live(db.rel, t)), {}, false), other)
  {
    var req, i := ProposeSpec(t, spec), Me(first);
    var noted, waiting := Reading(req, Noted(Live(db.rel, t))), WaitExclusive(ApplySpec(t, spec, Live(db.rel, t)), {}, false);
    Looks(cfg, first, db, cache, req, other);
    Notes(cfg, first, db, cache, req, other);
    forall p | p in {Idle, WaitShared(req), Reading(req, Locked), noted, waiting}
      ensures Only(NEITHER, Seats(first, db, cache, p, other))
    {
      Stays(first, db, cache, p, other);
    }
    ws := Extend(cfg, NEITHER, [Seats(first, db, cache, Idle, other)], i, Submit(req), Seats(first, db, cache, WaitShared(req), other));
    ws := Extend(cfg, NEITHER, ws, i, LockShared, Seats(first, db, cache, Reading(req, Locked), other));
    ws := Extend(cfg, NEITHER, ws, i, Note, Seats(first, db, cache, noted, other));
    ws := Extend(cfg, NEITHER, ws, i, ReleaseShared, Seats(first, db, cache, waiting, other));
  }

  lemma Queues(cfg: Config, first: bool, db: Db, cache: PartCache, req: Request, other: Pc)
    requires req.ApplySpec? && Aside(other, req.table)
    ensures Step(cfg, Seats(first, db, cache, WaitExclusive(req, {}, false), other), Me(first), Announce)
         == Some(Seats(first, db, cache, WaitExclusive(req, {}, true), other))
  {
    Changes(first, db, cache, WaitExclusive(req, {}, false), other, WaitExclusive(req, {}, true));
  }

  lemma Enters(cfg: Config, first: bool, db: Db, cache: PartCache, req: Request, other: Pc)
    requires req.ApplySpec? && Aside(other, req.table)
    ensures Step(cfg, Seats(first, db, cache, WaitExclusive(req, {}, true), other), Me(first), LockExclusive)
         == Some(Seats(first, db, cache, Writing(req, {req.table}, Entered), other))
  {
    assert {} + {req.table} == {req.table};
    Changes(first, db, cache, WaitExclusive(req, {}, true), other, Writing(req, {req.table}, Entered));
  }

  lemma RunsAlter(cfg: Config, first: bool, db: Db, cache: PartCache, req: Request, other: Pc)
    requires req.ApplySpec?
    ensures Step(cfg, Seats(first, db, cache, Writing(req, {req.table}, Entered), other), Me(first), RunTx)
         == Some(Seats(first, TxResult(db, req).0, cache, Writing(req, {req.table}, Done([req.table])), other))
  {
    Changes(first, db, cache, Writing(req, {req.table}, Entered), other, Writing(req, {req.table}, Done([req.table])));
  }

  lemma Leaves(cfg: Config, first: bool, db: Db, cache: PartCache, req: Request, other: Pc)
    requires req.ApplySpec?
    ensures Step(cfg, Seats(first, db, cache, Writing(req, {req.table}, Done([req.table])), other), Me(first), ReleaseExclusive(req.table))
         == Some(Seats(first, db, cache, Owing(req, [req.table]), other))
  {
    assert {req.table} - {req.table} == {};
    Changes(first, db, cache, Writing(req, {req.table}, Done([req.table])), other, Owing(req, [req.table]));
  }

  /** A validated spec change takes the lock, is applied, and gives the lock back. */
  lemma Applies(cfg: Config, first: bool, db: Db, cache: PartCache, req: Request, other: Pc) returns (ws: seq<World>)
    requires req.ApplySpec? && Aside(other, req.table)
    ensures Path(cfg, NEITHER, ws) && ws[0] == Seats(first, db, cache, WaitExclusive(req, {}, false), other)
    ensures ws[|ws| - 1] == Seats(first, TxResult(db, req).0, cache, Owing(req, [req.table]), other)
  {
    var i, db' := Me(first), TxResult(db, req).0;
    var entered, done := Writing(req, {req.table}, Entered), Writing(req, {req.table}, Done([req.table]));
    Queues(cfg, first, db, cache, req, other);
    Enters(cfg, first, db, cache, req, other);
    RunsAlter(cfg, first, db, cache, req, other);
    Leaves(cfg, first, db', cache, req, other);
    forall p | p in {WaitExclusive(req, {}, false), WaitExclusive(req, {}, true), entered, done, Owing(req, [req.table])}
      ensures Only(NEITHER, Seats(first, db, cache, p, other)) && Only(NEITHER, Seats(first, db', cache, p, other))
    {
      Stays(first, db, cache, p, other);
      Stays(first, db', cache, p, other);
    }
    ws := Extend(cfg, NEITHER, [Seats(first, db, cache, WaitExclusive(req, {}, false), other)], i, Announce,
                 Seats(first, db, cache, WaitExclusive(req, {}, true), other));
    ws := Extend(cfg, NEITHER, ws, i, LockExclusive, Seats(first, db, cache, entered, other));
    ws := Extend(cfg, NEITHER, ws, i, RunTx, Seats(first, db', cache, done, other));
    ws := Extend(cfg, NEITHER, ws, i, ReleaseExclusive(req.table), Seats(first, db', cache, Owing(req, [req.table]), other));
  }

  // ----- the overlap

  ghost predicate Broken(rel: Relations, name: string) {
    && name in rel.tables && SpecsOk(rel.specs, rel.tables[name])
    && !Evolution(Versions(rel.specs, rel.tables[name].id, rel.tables[name].specVersion))
  }

  /** The database after both changes, the second in ignorance of the first. */
  function AfterBoth(t: string, a: Spec, b: Spec): Db {
    var row := Live(WithTable(t).rel, t);
    TxResult(TxResult(WithTable(t), ApplySpec(t, a, row)).0, ApplySpec(t, b, row)).0
  }

  lemma BothRecorded(t: string, a: Spec, b: Spec)
    ensures var rel, v1 := AfterBoth(t, a, b).rel, InitialSpec("day");
            && t in rel.tables && rel.tables[t].specVersion == 3 && SpecsOk(rel.specs, rel.tables[t])
            && Versions(rel.specs, rel.tables[t].id, 3) == [v1, a, b]
    ensures SpecOf(Live(WithTable(t).rel, t)) == Some(InitialSpec("day"))
  {
    EmptyListing(t);
    assert WithTable(t).rel.specs == map[(1, 1) := InitialSpec("day")];
    var rel := AfterBoth(t, a, b).rel;
    assert rel.specs == map[(1, 1) := InitialSpec("day"), (1, 2) := a, (1, 3) := b];
  }

  /**
    For any table name and any two fields that give one new id different meanings: two
    requests that each add one of them can both pass validation and both be recorded.
   */
  lemma OverlapBreaksHistory(cfg: Config, t: string, f: Field, g: Field) returns (ws: seq<World>)
    requires FieldOk(f) && FieldOk(g) && f.fieldId == g.fieldId > 1 && !SameMeaning(f, g)
    ensures Path(cfg, NEITHER, ws) && ws[0] == Pair(EMPTY, [], Idle, Idle)
    ensures Broken(ws[|ws| - 1].db.rel, t)
  {
    var v1 := InitialSpec("day");
    var a, b := Spec(v1.fields + [f]), Spec(v1.fields + [g]);
    OverlappingChangesBreakTheChain(v1, f, g);
    BothAreBroken(t, a, b);
    ws := BothApply(cfg, t, a, b);
  }

  lemma BothAreBroken(t: string, a: Spec, b: Spec)
    requires !Allowed(Some(a), b)
    ensures Broken(AfterBoth(t, a, b).rel, t)
    ensures SpecOf(Live(WithTable(t).rel, t)) == Some(InitialSpec("day"))
  {
    BothRecorded(t, a, b);
    NoEvolution([InitialSpec("day"), a, b]);
  }

  lemma NoEvolution(versions: seq<Spec>)
    requires |versions| == 3 && !Allowed(Some(versions[1]), versions[2])
    ensures !Evolution(versions)
  {
    assert versions[2 - 1] == versions[1];
  }

  lemma BothApply(cfg: Config, t: string, a: Spec, b: Spec) returns (ws: seq<World>)
    requires var now := SpecOf(Live(WithTable(t).rel, t)); Allowed(now, a) && Allowed(now, b)
    ensures Path(cfg, NEITHER, ws) && ws[0] == Pair(EMPTY, [], Idle, Idle) && ws[|ws| - 1].db == AfterBoth(t, a, b)
  {
    EmptyListing(t);
    var row := Live(WithTable(t).rel, t);
    var p, q := ApplySpec(t, a, row), ApplySpec(t, b, row);
    var create := WriterRuns(cfg, NEITHER, EMPTY, [], CreateTable(t, "{}", "day"));
    var one := Validates(cfg, true, WithTable(t), [], t, a, Idle);
    var two := Validates(cfg, false, WithTable(t), [], t, b, WaitExclusive(p, {}, false));
    var three := Applies(cfg, true, WithTable(t), [], p, WaitExclusive(q, {}, false));
    var four := Applies(cfg, false, TxResult(WithTable(t), p).0, [], q, Owing(p, [t]));
    ws := Join(cfg, NEITHER, create, one);
    ws := Join(cfg, NEITHER, ws, two);
    ws := Join(cfg, NEITHER, ws, three);
    ws := Join(cfg, NEITHER, ws, four);
  }

  // ----- exactly when

  ghost predicate Admitted(cfg: Config, ws: seq<World>, overlaps: bool) {
    IsRun(cfg, ws) && (overlaps || forall m :: 0 <= m < |ws| ==> NonOverlapping(ws[m]))
  }

  ghost predicate EndsBroken(ws: seq<World>, name: string) {
    ws != [] && Broken(ws[|ws| - 1].db.rel, name)
  }

  /** Some run, in which spec changes overlap only if that is admitted, records a broken history. */
  ghost predicate CanBreakHistory(cfg: Config, overlaps: bool) {
    exists ws, name :: Admitted(cfg, ws, overlaps) && EndsBroken(ws, name)
  }

  /** A history can break the rule of evolution exactly if spec changes are admitted to overlap. */
  lemma BrokenHistoriesIff(cfg: Config, overlaps: bool)
    ensures CanBreakHistory(cfg, overlaps) <==> overlaps
  {
    if overlaps {
      var f, g := Field(2, "region", "identity", None), Field(2, "city", "identity", None);
      var ws := OverlapBreaksHistory(cfg, "t", f, g);
      assert Admitted(cfg, ws, overlaps) && EndsBroken(ws, "t");
    } else if CanBreakHistory(cfg, overlaps) {
      var ws, name :| Admitted(cfg, ws, overlaps) && EndsBroken(ws, name);
      HistoriesAreEvolutions(cfg, ws, |ws| - 1, name);
      assert false;
    }
  }
}
