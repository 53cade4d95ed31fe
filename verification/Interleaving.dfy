/**
  The server as a transition system: any number of requests in flight, each
  advancing one atomic step at a time under per-table read-write locks, over one
  database and one shared cache.
 */
module Interleaving {
  import opened Words
  import opened Tables
  import opened Commits
  import opened Catalog
  import opened PartitionSpecs
  import opened Invariants
  import opened CacheKeys
  import Recency

  datatype Request =
    | Read(table: string, snapshot: uint64)
    | BeginTxn(table: string)
    | ProposeSpec(table: string, spec: Spec)
    | CommitSnapshot(table: string, parent: uint64, change: Change)
    | CreateTable(table: string, schema: string, rawSpec: string)
    | ApplySpec(table: string, spec: Spec, basis: Option<TableRow>)
    | ApplySchema(table: string, schema: string)
    | RenameTable(table: string, to: string)
    | DropTable(table: string, purge: bool)

  /** Reads, and the table look-ups that begin a transaction or a spec change, take the shared lock. */
  predicate Shared(req: Request) {
    req.Read? || req.BeginTxn? || req.ProposeSpec?
  }

  /** The names a writer locks. */
  function Names(req: Request): set<string> {
    if req.RenameTable? then {req.table, req.to} else {req.table}
  }

  /** The operations whose transaction can change what a query returns for a table that exists. */
  predicate Taints(req: Request) {
    req.CommitSnapshot? || req.RenameTable? || req.DropTable?
  }

  datatype ReadStage =
    | Locked
    | Resolved(at: uint64)
    | Missed(at: uint64)
    | Queried(at: uint64, rows: Option<seq<Part>>)
    | Served(at: uint64, rows: Option<seq<Part>>)
    | Noted(row: Option<TableRow>)

  datatype WriteStage =
    | Entered
    | Drawing(sid: int, ids: seq<int>)
    | Done(owed: seq<string>)

  /** Where a request stands. `owed` and `names` are the cache invalidations still to run. */
  datatype Pc =
    | Idle
    | WaitShared(req: Request)
    | WaitExclusive(req: Request, held: set<string>, announced: bool)
    | Reading(req: Request, rstage: ReadStage)
    | Writing(req: Request, held: set<string>, wstage: WriteStage)
    | Owing(req: Request, names: seq<string>)
    | Inserting(tableId: int, readSnapshot: int)

  type Thread = nat
  type Threads = map<Thread, Pc>
  type PartCache = seq<Recency.Entry<string, seq<Part>>>

  datatype Config = Config(capacity: int, caching: bool)

  datatype World = World(db: Db, cache: PartCache, threads: Threads)

  // ----- locks

  /** The lock a writer is waiting for. */
  function Target(req: Request, held: set<string>): string {
    if held != {} && req.RenameTable? then req.to else req.table
  }

  function HoldsX(pc: Pc): set<string> {
    match pc
    case WaitExclusive(_, held, _) => held
    case Writing(_, held, _) => held
    case _ => {}
  }

  function HoldsS(pc: Pc): set<string> {
    if pc.Reading? then {pc.req.table} else {}
  }

  /** A writer that has announced itself keeps new readers and other writers out. */
  function Announced(pc: Pc): set<string> {
    if pc.WaitExclusive? && pc.announced then {Target(pc.req, pc.held)} else {}
  }

  function Owns(pc: Pc): set<string> {
    HoldsX(pc) + Announced(pc)
  }

  ghost predicate NoOwner(ts: Threads, name: string) {
    forall i :: i in ts ==> name !in Owns(ts[i])
  }

  ghost predicate NoReader(ts: Threads, name: string) {
    forall i :: i in ts ==> name !in HoldsS(ts[i])
  }

  // ----- steps

  datatype Action =
    | Submit(req: Request)
    | LockShared
    | Announce
    | LockExclusive
    | Resolve
    | Probe
    | Query
    | Store
    | Note
    | ReleaseShared
    | InsertTxn
    | BeginCommit
    | Draw
    | Abort
    | Publish
    | RunTx
    | Invalidate
    | ReleaseExclusive(name: string)

  function Set(w: World, i: Thread, pc: Pc): World {
    w.(threads := w.threads[i := pc])
  }

  /** A stored pointer as an unsigned word. */
  function ToWord(x: int): uint64 {
    if 0 <= x < TWO_64 then x else 0
  }

  function ReadAt(rel: Relations, table: string, requested: uint64): uint64 {
    if requested != 0 then requested else ToWord(CurrentSnapshot(rel, table))
  }

  ghost function Step(cfg: Config, w: World, i: Thread, a: Action): Option<World> {
    if i !in w.threads then None
    else
      var pc := w.threads[i];
      match a
      case Submit(req) => if pc.Idle? && !req.ApplySpec? then Some(Set(w, i, Start(req))) else None
      case LockShared =>
        if pc.WaitShared? && NoOwner(w.threads, pc.req.table) then Some(Set(w, i, Reading(pc.req, Locked))) else None
      case Announce =>
        if pc.WaitExclusive? && !pc.announced && NoOwner(w.threads, Target(pc.req, pc.held))
        then Some(Set(w, i, pc.(announced := true))) else None
      case LockExclusive =>
        if pc.WaitExclusive? && pc.announced && NoReader(w.threads, Target(pc.req, pc.held))
        then Some(Set(w, i, Acquired(pc))) else None
      case Resolve =>
        if pc.Reading? && pc.req.Read? && pc.rstage.Locked?
        then Some(Set(w, i, Reading(pc.req, Resolved(ReadAt(w.db.rel, pc.req.table, pc.req.snapshot))))) else None
      case Probe => if pc.Reading? && pc.req.Read? && pc.rstage.Resolved? then Some(DoProbe(cfg, w, i)) else None
      case Query =>
        if pc.Reading? && pc.req.Read? && pc.rstage.Missed?
        then Some(Set(w, i, Reading(pc.req, Queried(pc.rstage.at, QueryPartitions(w.db.rel, pc.req.table, pc.rstage.at))))) else None
      case Store => if pc.Reading? && pc.req.Read? && pc.rstage.Queried? then Some(DoStore(cfg, w, i)) else None
      case Note =>
        if pc.Reading? && !pc.req.Read? && pc.rstage.Locked?
        then Some(Set(w, i, Reading(pc.req, Noted(Live(w.db.rel, pc.req.table))))) else None
      case ReleaseShared =>
        if pc.Reading? && (pc.rstage.Served? || pc.rstage.Noted?) then Some(Set(w, i, AfterRead(pc))) else None
      case InsertTxn => if pc.Inserting? then Some(DoInsert(w, i)) else None
      case BeginCommit =>
        if pc.Writing? && pc.req.CommitSnapshot? && pc.wstage.Entered? then Some(DoBeginCommit(w, i)) else None
      case Draw =>
        if pc.Writing? && pc.req.CommitSnapshot? && pc.wstage.Drawing? && |pc.wstage.ids| < |pc.req.change.files|
        then Some(DoDraw(w, i)) else None
      case Abort => if pc.Writing? && pc.wstage.Drawing? then Some(Set(w, i, pc.(wstage := Done([])))) else None
      case Publish =>
        if CanPublish(w, i) then Some(DoPublish(w, i)) else None
      case RunTx =>
        if pc.Writing? && !pc.req.CommitSnapshot? && !Shared(pc.req) && pc.wstage.Entered? then Some(DoTx(w, i)) else None
      case Invalidate =>
        if pc.Writing? && pc.req.CommitSnapshot? && pc.wstage.Done? && pc.wstage.owed != []
        then Some(Cleaned(w, i, pc.wstage.owed[0], pc.(wstage := Done(pc.wstage.owed[1..]))))
        else if pc.Owing? && pc.names != []
        then Some(Cleaned(w, i, pc.names[0], if |pc.names| == 1 then Idle else Owing(pc.req, pc.names[1..])))
        else None
      case ReleaseExclusive(name) =>
        if pc.Writing? && pc.wstage.Done? && name in pc.held && (pc.req.CommitSnapshot? ==> pc.wstage.owed == [])
        then Some(Set(w, i, Released(pc, name))) else None
  }

  function Start(req: Request): Pc {
    if Shared(req) then WaitShared(req) else WaitExclusive(req, {}, false)
  }

  /** A rename goes on to wait for its second lock with the first one held. */
  function Acquired(pc: Pc): Pc
    requires pc.WaitExclusive?
  {
    if pc.req.RenameTable? && pc.held == {} then WaitExclusive(pc.req, {pc.req.table}, false)
    else Writing(pc.req, pc.held + {Target(pc.req, pc.held)}, Entered)
  }

  function DoProbe(cfg: Config, w: World, i: Thread): World
    requires i in w.threads && w.threads[i].Reading? && w.threads[i].req.Read? && w.threads[i].rstage.Resolved?
  {
    var req, at := w.threads[i].req, w.threads[i].rstage.at;
    var key := Key(req.table, at);
    if !cfg.caching then Set(w, i, Reading(req, Missed(at)))
    else
      match Recency.Lookup(w.cache, key)
      case None => Set(w, i, Reading(req, Missed(at)))
      case Some(rows) => Set(w, i, Reading(req, Served(at, Some(rows)))).(cache := Recency.Hit(w.cache, key))
  }

  function DoStore(cfg: Config, w: World, i: Thread): World
    requires i in w.threads && w.threads[i].Reading? && w.threads[i].req.Read? && w.threads[i].rstage.Queried?
  {
    var req, at, rows := w.threads[i].req, w.threads[i].rstage.at, w.threads[i].rstage.rows;
    var served := Set(w, i, Reading(req, Served(at, rows)));
    if rows.None? || !cfg.caching then served
    else served.(cache := Recency.Put(cfg.capacity, w.cache, Key(req.table, at), rows.value))
  }

  /** After its look-up a request is over, or goes on without the shared lock. */
  ghost function AfterRead(pc: Pc): Pc
    requires pc.Reading? && (pc.rstage.Served? || pc.rstage.Noted?)
  {
    if pc.rstage.Served? then Idle
    else
      var row := pc.rstage.row;
      match pc.req
      case BeginTxn(_) =>
        if row.None? then Idle else Inserting(row.value.id, if row.value.current > 0 then row.value.current else 0)
      case ProposeSpec(table, spec) =>
        if Allowed(SpecOf(row), spec) then WaitExclusive(ApplySpec(table, spec, row), {}, false) else Idle
      case _ => Idle
  }

  function SpecOf(row: Option<TableRow>): Option<Spec> {
    if row.Some? then Some(row.value.spec) else None
  }

  function DoInsert(w: World, i: Thread): World
    requires i in w.threads && w.threads[i].Inserting?
  {
    var r := Begin(w.db.rel, w.threads[i].tableId, w.threads[i].readSnapshot);
    Set(w, i, Idle).(db := if r.Some? then w.db.(rel := r.value) else w.db)
  }

  /** The parent check, then the draw of the snapshot id. */
  function DoBeginCommit(w: World, i: Thread): World
    requires i in w.threads && w.threads[i].Writing? && w.threads[i].req.CommitSnapshot?
  {
    var pc := w.threads[i];
    var seqs := w.db.seqs;
    if CurrentSnapshot(w.db.rel, pc.req.table) != pc.req.parent || Live(w.db.rel, pc.req.table).None? || seqs.snapshot >= TWO_63
    then Set(w, i, pc.(wstage := Done([])))
    else Set(w, i, pc.(wstage := Drawing(seqs.snapshot, []))).(db := w.db.(seqs := seqs.(snapshot := seqs.snapshot + 1)))
  }

  function DoDraw(w: World, i: Thread): World
    requires i in w.threads && w.threads[i].Writing? && w.threads[i].wstage.Drawing?
  {
    var pc := w.threads[i];
    var seqs := w.db.seqs;
    if seqs.partition >= TWO_63 then Set(w, i, pc.(wstage := Done([])))
    else Set(w, i, pc.(wstage := Drawing(pc.wstage.sid, pc.wstage.ids + [seqs.partition])))
           .(db := w.db.(seqs := seqs.(partition := seqs.partition + 1)))
  }

  /** All ids are drawn and the table is still there. */
  predicate CanPublish(w: World, i: Thread)
    requires i in w.threads
  {
    var pc := w.threads[i];
    && pc.Writing? && pc.req.CommitSnapshot? && pc.wstage.Drawing?
    && pc.wstage.sid >= 0 && |pc.wstage.ids| == |pc.req.change.files|
    && Live(w.db.rel, pc.req.table).Some? && w.db.rel.tables[pc.req.table].id in w.db.logs
  }

  /** The commit transaction becomes visible at once. */
  function DoPublish(w: World, i: Thread): World
    requires i in w.threads && CanPublish(w, i)
  {
    var pc := w.threads[i];
    Set(w, i, pc.(wstage := Done([pc.req.table])))
      .(db := Committed(w.db, pc.req.table, pc.wstage.sid, pc.wstage.ids, pc.req.change))
  }

  /** The other transactions, with the invalidations that the server runs after the lock is given back. */
  function DoTx(w: World, i: Thread): World
    requires i in w.threads && w.threads[i].Writing?
  {
    var pc := w.threads[i];
    var (db, owed) := TxResult(w.db, pc.req);
    Set(w, i, pc.(wstage := Done(owed))).(db := db)
  }

  function OrElse(db: Db, r: Option<Relations>): Db {
    if r.Some? then db.(rel := r.value) else db
  }

  function TxResult(db: Db, req: Request): (Db, seq<string>) {
    match req
    case CreateTable(name, schema, rawSpec) =>
      if rawSpec == "" || db.seqs.table >= TWO_63 then (db, [])
      else
        var drawn := db.(seqs := db.seqs.(table := db.seqs.table + 1));
        var r := Create(db.rel, name, db.seqs.table, schema, RequestedSpec(rawSpec));
        (if r.Some? then drawn.(rel := r.value, logs := db.logs[db.seqs.table := []]) else drawn, [])
    case ApplySpec(name, spec, _) => (OrElse(db, AlterSpec(db.rel, name, spec)), [name])
    case ApplySchema(name, schema) => (OrElse(db, AlterSchema(db.rel, name, schema)), [name])
    case RenameTable(name, to) => (OrElse(db, Rename(db.rel, name, to)), [name, to])
    case DropTable(name, purge) =>
      var r := Catalog.Drop(db.rel, name, purge);
      (OrElse(db, r), if r.Some? then [name] else [])
    case _ => (db, [])
  }

  /** The cache without the entries whose key starts with the name and a colon. */
  function Without(cache: PartCache, name: string): PartCache {
    Recency.RemoveIf(cache, Covered(name))
  }

  function Cleaned(w: World, i: Thread, name: string, pc: Pc): World {
    Set(w, i, pc).(cache := Without(w.cache, name))
  }

  function Released(pc: Pc, name: string): Pc
    requires pc.Writing? && pc.wstage.Done? && name in pc.held
  {
    var left := pc.held - {name};
    if left != {} then pc.(held := left)
    else if pc.wstage.owed == [] then Idle
    else Owing(pc.req, pc.wstage.owed)
  }

  /** Only five kinds of steps touch the database. */
  lemma StepDb(cfg: Config, w: World, i: Thread, a: Action)
    requires Step(cfg, w, i, a).Some?
    ensures Step(cfg, w, i, a).value.db == DbAfter(w, i, a)
  {
  }

  function DbAfter(w: World, i: Thread, a: Action): Db
    requires i in w.threads
  {
    var pc := w.threads[i];
    match a
    case InsertTxn => if pc.Inserting? then DoInsert(w, i).db else w.db
    case BeginCommit => if pc.Writing? && pc.req.CommitSnapshot? then DoBeginCommit(w, i).db else w.db
    case Draw => if pc.Writing? && pc.wstage.Drawing? then DoDraw(w, i).db else w.db
    case Publish => if CanPublish(w, i) then DoPublish(w, i).db else w.db
    case RunTx => if pc.Writing? then TxResult(w.db, pc.req).0 else w.db
    case _ => w.db
  }

  // ----- runs

  ghost predicate Init(w: World) {
    w.db == EMPTY && w.cache == [] && forall i :: i in w.threads ==> w.threads[i].Idle?
  }

  ghost predicate Next(cfg: Config, w: World, w': World) {
    exists i, a :: Step(cfg, w, i, a) == Some(w')
  }

  ghost predicate IsRun(cfg: Config, ws: seq<World>) {
    && ws != [] && Init(ws[0])
    && forall k :: 0 < k < |ws| ==> Next(cfg, ws[k - 1], ws[k])
  }
}
