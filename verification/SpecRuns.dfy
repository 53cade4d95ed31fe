/** Spec changes in a running server: validated under the shared lock, applied later under the exclusive one. */
module SpecRuns {
  import opened Words
  import opened Tables
  import opened Catalog
  import opened PartitionSpecs
  import opened Invariants
  import opened PreservationDdl
  import opened Interleaving
  import opened Locking
  import opened StoreSteps

  /** A spec change that has passed validation and is still to be applied. */
  predicate Pending(pc: Pc) {
    (pc.WaitExclusive? && pc.req.ApplySpec?) || (pc.Writing? && pc.wstage.Entered? && pc.req.ApplySpec?)
  }

  /** About to run a transaction that can change the spec a name stands for. */
  predicate Replaces(pc: Pc, t: string) {
    && pc.Writing? && pc.wstage.Entered? && t in Names(pc.req)
    && (pc.req.CreateTable? || pc.req.ApplySpec? || pc.req.RenameTable? || pc.req.DropTable?)
  }

  /** No one replaces the spec of a table between another request's validation and its transaction. */
  ghost predicate NonOverlapping(w: World) {
    forall i, j :: i in w.threads && j in w.threads && i != j && Pending(w.threads[i]) ==>
      !Replaces(w.threads[j], w.threads[i].req.table)
  }

  // ----- the invariant

  ghost predicate ChainOk(specs: map<(int, int), Spec>) {
    && (forall k :: k in specs ==> WellFormed(specs[k]))
    && (forall id, v :: v >= 1 && (id, v) in specs && (id, v + 1) in specs ==> Allowed(Some(specs[(id, v)]), specs[(id, v + 1)]))
  }

  ghost predicate BasisOk(rel: Relations, pc: Pc) {
    Pending(pc) ==>
      SpecOf(Live(rel, pc.req.table)) == SpecOf(pc.req.basis) && Allowed(SpecOf(pc.req.basis), pc.req.spec)
  }

  ghost predicate SpecInv(w: World) {
    ChainOk(w.db.rel.specs) && forall i :: i in w.threads ==> BasisOk(w.db.rel, w.threads[i])
  }

  // ----- one transaction

  lemma CreatedChain(rel: Relations, name: string, id: int, schema: string, rawSpec: string)
    requires ChainOk(rel.specs) && References(rel) && id !in TableIds(rel)
    requires Create(rel, name, id, schema, RequestedSpec(rawSpec)).Some?
    ensures ChainOk(Create(rel, name, id, schema, RequestedSpec(rawSpec)).value.specs)
  {
    assert WellFormed(InitialSpec(rawSpec));
  }

  lemma AlteredChain(rel: Relations, name: string, spec: Spec)
    requires ChainOk(rel.specs) && AlterSpec(rel, name, spec).Some? && SpecsOk(rel.specs, rel.tables[name])
    requires Allowed(Some(rel.tables[name].spec), spec)
    ensures ChainOk(AlterSpec(rel, name, spec).value.specs)
  {
  }

  lemma LiveSpecs(db: Db, name: string)
    requires TablesOk(db.rel, db.logs) && name in db.rel.tables
    ensures SpecsOk(db.rel.specs, db.rel.tables[name])
  {
    assert TableOk(db.rel, db.logs[db.rel.tables[name].id], db.rel.tables[name]);
  }

  lemma CreateTxChain(db: Db, req: Request)
    requires ChainOk(db.rel.specs) && References(db.rel) && IdsOk(db) && req.CreateTable?
    ensures ChainOk(TxResult(db, req).0.rel.specs)
  {
    NewTableId(db);
    if Create(db.rel, req.table, db.seqs.table, req.schema, RequestedSpec(req.rawSpec)).Some? {
      CreatedChain(db.rel, req.table, db.seqs.table, req.schema, req.rawSpec);
    }
  }

  lemma TxChain(db: Db, req: Request)
    requires ChainOk(db.rel.specs) && References(db.rel) && IdsOk(db)
    requires forall n :: n in db.rel.tables ==> SpecsOk(db.rel.specs, db.rel.tables[n])
    requires req.ApplySpec? ==> Allowed(SpecOf(Live(db.rel, req.table)), req.spec)
    ensures ChainOk(TxResult(db, req).0.rel.specs)
  {
    match req
    case CreateTable(_, _, _) => CreateTxChain(db, req);
    case ApplySpec(name, spec, _) =>
      if AlterSpec(db.rel, name, spec).Some? {
        AlteredChain(db.rel, name, spec);
      }
    case DropTable(_, _) => DroppedChain(db.rel.specs, TxResult(db, req).0.rel.specs);
    case _ =>
  }

  lemma DroppedChain(specs: map<(int, int), Spec>, specs': map<(int, int), Spec>)
    requires ChainOk(specs) && forall k :: k in specs' ==> k in specs && specs'[k] == specs[k]
    ensures ChainOk(specs')
  {
  }

  /** The spec behind a name that no one replaces stays. */
  lemma TxKeepsSpec(db: Db, pc: Pc, t: string)
    requires pc.Writing? && pc.wstage.Entered? && !Replaces(pc, t)
    ensures SpecOf(Live(TxResult(db, pc.req).0.rel, t)) == SpecOf(Live(db.rel, t))
  {
    match pc.req
    case CreateTable(name, _, _) => assert t != name;
    case ApplySpec(name, _, _) => assert t != name;
    case RenameTable(name, to) => assert t != name && t != to;
    case DropTable(name, purge) =>
      assert t != name;
      if Catalog.Drop(db.rel, name, purge).Some? {
        DropKeepsSpec(db, name, purge, t);
      }
    case _ =>
  }

  lemma DropKeepsSpec(db: Db, name: string, purge: bool, t: string)
    requires t != name && Catalog.Drop(db.rel, name, purge).Some?
    ensures Live(Catalog.Drop(db.rel, name, purge).value, t) == Live(db.rel, t)
  {
  }

  lemma StepKeepsSpec(cfg: Config, w: World, i: Thread, a: Action, t: string)
    requires Step(cfg, w, i, a).Some? && !Replaces(w.threads[i], t)
    ensures SpecOf(Live(Step(cfg, w, i, a).value.db.rel, t)) == SpecOf(Live(w.db.rel, t))
  {
    match a
    case RunTx => TxKeepsSpec(w.db, w.threads[i], t);
    case _ =>
  }

  // ----- one step

  lemma StepChain(cfg: Config, w: World, i: Thread, a: Action)
    requires Good(w.db) && ChainOk(w.db.rel.specs) && Step(cfg, w, i, a).Some? && BasisOk(w.db.rel, w.threads[i])
    ensures ChainOk(Step(cfg, w, i, a).value.db.rel.specs)
  {
    StepDb(cfg, w, i, a);
    if a.RunTx? {
      RunTxChain(w.db, w.threads[i]);
    }
  }

  lemma RunTxChain(db: Db, pc: Pc)
    requires Good(db) && ChainOk(db.rel.specs) && BasisOk(db.rel, pc) && pc.Writing? && pc.wstage.Entered?
    ensures ChainOk(TxResult(db, pc.req).0.rel.specs)
  {
    forall n | n in db.rel.tables
      ensures SpecsOk(db.rel.specs, db.rel.tables[n])
    {
      LiveSpecs(db, n);
    }
    TxChain(db, pc.req);
  }

  /** A request becomes pending with the spec it has just looked at, and leaves that state with its transaction. */
  lemma OwnBasis(cfg: Config, w: World, i: Thread, a: Action)
    requires Step(cfg, w, i, a).Some? && DataOk(w.db, w.threads[i]) && BasisOk(w.db.rel, w.threads[i])
    ensures BasisOk(Step(cfg, w, i, a).value.db.rel, Step(cfg, w, i, a).value.threads[i])
  {
  }

  lemma StepSpecInv(cfg: Config, w: World, i: Thread, a: Action)
    requires SpecInv(w) && NonOverlapping(w) && Step(cfg, w, i, a).Some? && DataOk(w.db, w.threads[i])
    requires ChainOk(Step(cfg, w, i, a).value.db.rel.specs)
    ensures SpecInv(Step(cfg, w, i, a).value)
  {
    var w' := Step(cfg, w, i, a).value;
    OwnBasis(cfg, w, i, a);
    forall j | j in w'.threads && j != i
      ensures BasisOk(w'.db.rel, w'.threads[j])
    {
      OtherBasis(cfg, w, i, a, j);
    }
  }

  lemma NextSpecInv(cfg: Config, w: World, w': World)
    requires Good(w.db) && Coherent(w) && SpecInv(w) && NonOverlapping(w) && Next(cfg, w, w')
    ensures SpecInv(w')
  {
    var i, a :| Step(cfg, w, i, a) == Some(w');
    PcFits(w, i);
    StepChain(cfg, w, i, a);
    StepSpecInv(cfg, w, i, a);
  }

  lemma OtherBasis(cfg: Config, w: World, i: Thread, a: Action, j: Thread)
    requires NonOverlapping(w) && Step(cfg, w, i, a).Some? && j in w.threads && j != i && BasisOk(w.db.rel, w.threads[j])
    ensures BasisOk(Step(cfg, w, i, a).value.db.rel, w.threads[j])
  {
    if Pending(w.threads[j]) {
      StepKeepsSpec(cfg, w, i, a, w.threads[j].req.table);
    }
  }

  // ----- whole runs

  lemma {:induction false} RunSpecInv(cfg: Config, ws: seq<World>, k: nat)
    requires IsRun(cfg, ws) && k < |ws| && forall m :: 0 <= m < k ==> NonOverlapping(ws[m])
    ensures SpecInv(ws[k])
  {
    if k > 0 {
      RunSpecInv(cfg, ws, k - 1);
      RunInv(cfg, ws, k - 1);
      NextSpecInv(cfg, ws[k - 1], ws[k]);
    }
  }

  /** Versions 1 to `n` of a table's spec. */
  function Versions(specs: map<(int, int), Spec>, id: int, n: nat): (vs: seq<Spec>)
    requires forall v :: 1 <= v <= n ==> (id, v) in specs
    ensures |vs| == n && forall i :: 0 <= i < n ==> vs[i] == specs[(id, i + 1)]
  {
    seq(n, i requires 0 <= i < n => specs[(id, i + 1)])
  }

  /**
    In any run whose spec changes do not overlap, the recorded history of every table is
    an evolution from the spec it was created with to the spec it has: each version was
    accepted against the one before it.
   */
  lemma HistoriesAreEvolutions(cfg: Config, ws: seq<World>, k: nat, name: string)
    requires IsRun(cfg, ws) && k < |ws| && forall m :: 0 <= m < k ==> NonOverlapping(ws[m])
    requires name in ws[k].db.rel.tables
    ensures var t := ws[k].db.rel.tables[name];
            && SpecsOk(ws[k].db.rel.specs, t)
            && Evolution(Versions(ws[k].db.rel.specs, t.id, t.specVersion))
  {
    RunInv(cfg, ws, k);
    RunSpecInv(cfg, ws, k);
    var t := ws[k].db.rel.tables[name];
    assert TableOk(ws[k].db.rel, ws[k].db.logs[t.id], t);
    ChainIsEvolution(ws[k].db.rel.specs, t);
  }

  lemma ChainIsEvolution(specs: map<(int, int), Spec>, t: TableRow)
    requires ChainOk(specs) && SpecsOk(specs, t)
    ensures Evolution(Versions(specs, t.id, t.specVersion))
  {
    var vs := Versions(specs, t.id, t.specVersion);
    forall i | 0 < i < |vs|
      ensures Allowed(Some(vs[i - 1]), vs[i])
    {
      assert (t.id, i) in specs && (t.id, i + 1) in specs;
    }
  }

  /** Between two versions no id changes its meaning, no field is lost, and what the later one introduces is above the earlier one. */
  ghost predicate Compatible(early: Spec, previous: Spec, last: Spec) {
    && DistinctIds(early)
    && Keeps(early, last)
    && (forall f, g :: f in early.fields && g in last.fields && f.fieldId == g.fieldId ==>
          f.sourceColumn == g.sourceColumn && f.transform == g.transform)
    && NewIdsExceed(early, previous, last)
  }

  /** So an id means the same column and transform in every version of the table, and no version reuses one. */
  lemma IdsMeanTheSameForEver(cfg: Config, ws: seq<World>, k: nat, name: string, i: nat, j: nat)
    requires IsRun(cfg, ws) && k < |ws| && forall m :: 0 <= m < k ==> NonOverlapping(ws[m])
    requires name in ws[k].db.rel.tables && 1 <= i < j <= ws[k].db.rel.tables[name].specVersion
    ensures SpecsOk(ws[k].db.rel.specs, ws[k].db.rel.tables[name])
    ensures var specs, id := ws[k].db.rel.specs, ws[k].db.rel.tables[name].id; Compatible(specs[(id, i)], specs[(id, j - 1)], specs[(id, j)])
  {
    HistoriesAreEvolutions(cfg, ws, k, name);
    VersionsCompatible(ws[k].db.rel.specs, ws[k].db.rel.tables[name], i, j);
  }

  lemma VersionsCompatible(specs: map<(int, int), Spec>, t: TableRow, i: nat, j: nat)
    requires SpecsOk(specs, t) && Evolution(Versions(specs, t.id, t.specVersion)) && 1 <= i < j <= t.specVersion
    ensures Compatible(specs[(t.id, i)], specs[(t.id, j - 1)], specs[(t.id, j)])
  {
    EvolutionCompatible(Versions(specs, t.id, t.specVersion), i - 1, j - 1);
  }

  lemma EvolutionCompatible(vs: seq<Spec>, i: nat, j: nat)
    requires Evolution(vs) && i < j < |vs|
    ensures Compatible(vs[i], vs[j - 1], vs[j])
  {
    EvolutionKeeps(vs, i, j);
    EvolutionGoesUp(vs, i, j);
  }

  /** The ids that `last` has and `previous` has not are greater than all of `early`. */
  ghost predicate NewIdsExceed(early: Spec, previous: Spec, last: Spec) {
    forall f, g :: f in early.fields && g in last.fields && !HasId(previous, g.fieldId) ==> g.fieldId > f.fieldId
  }

  lemma EvolutionKeeps(vs: seq<Spec>, i: nat, j: nat)
    requires Evolution(vs) && i <= j < |vs|
    ensures DistinctIds(vs[i]) && Keeps(vs[i], vs[j])
    ensures forall f, g :: f in vs[i].fields && g in vs[j].fields && f.fieldId == g.fieldId ==>
      f.sourceColumn == g.sourceColumn && f.transform == g.transform
  {
    FieldsSurvive(vs, i, j);
    forall f, g | f in vs[i].fields && g in vs[j].fields && f.fieldId == g.fieldId
      ensures f.sourceColumn == g.sourceColumn && f.transform == g.transform
    {
      IdsKeepTheirMeaning(vs, i, j, f, g);
    }
  }

  lemma EvolutionGoesUp(vs: seq<Spec>, i: nat, j: nat)
    requires Evolution(vs) && i < j < |vs|
    ensures NewIdsExceed(vs[i], vs[j - 1], vs[j])
  {
    forall f, g | f in vs[i].fields && g in vs[j].fields && !HasId(vs[j - 1], g.fieldId)
      ensures g.fieldId > f.fieldId
    {
      NewIdsExceedAllEarlier(vs, i, j, f, g);
    }
  }
}
