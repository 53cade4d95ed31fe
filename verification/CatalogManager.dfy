/** The catalog manager: each operation is one transaction that succeeds as a whole or changes nothing. */
module CatalogManager {
  import opened Words
  import opened PartitionSpecs
  import opened Tables
  import opened Catalog
  import opened Database

  class Manager {
    const pg: PGClient

    constructor (pg: PGClient)
      ensures this.pg == pg
    {
      this.pg := pg;
    }

    method CreateTable(name: string, schema: string, spec: Option<Spec>) returns (ok: bool)
      requires (pg.seqs.table, 1) !in pg.rel.specs
      modifies pg
      ensures ok <==> old(pg.seqs.table) < TWO_63 && Create(old(pg.rel), name, old(pg.seqs.table), schema, spec).Some?
      ensures ok ==>
                && pg.rel == Create(old(pg.rel), name, old(pg.seqs.table), schema, spec).value
                && pg.logs == old(pg.logs)[old(pg.seqs.table) := []]
                && pg.seqs == old(pg.seqs).(table := old(pg.seqs.table) + 1)
      ensures ok ==> Live(pg.rel, name).Some? && pg.rel.tables[name].schema == schema && Some(pg.rel.tables[name].spec) == spec
      ensures !ok ==> pg.rel == old(pg.rel) && pg.logs == old(pg.logs)
      ensures pg.seqs == if spec.Some? && old(pg.seqs.table) < TWO_63 then old(pg.seqs).(table := old(pg.seqs.table) + 1) else old(pg.seqs)
    {
      var tx := pg.BeginTx();
      var err, id, created := pg.CreateTableTx(tx, name, schema, spec);
      if err || !created {
        return false;
      }
      assert name in tx.rel.tables && tx.rel.tables[name].id == id;
      err := pg.InsertPartitionSpecTx(tx, id, 1, spec.value);
      if err {
        return false;
      }
      pg.logs := pg.logs[id := []];
      pg.CommitTx(tx);
      return true;
    }

    method AlterTablePartitionSpec(name: string, spec: Spec) returns (ok: bool)
      modifies pg`rel
      ensures ok <==> AlterSpec(old(pg.rel), name, spec).Some?
      ensures pg.rel == if ok then AlterSpec(old(pg.rel), name, spec).value else old(pg.rel)
      ensures ok ==> Live(pg.rel, name).Some? && pg.rel.tables[name].spec == spec
    {
      var existing := pg.GetTable(name);
      if existing.None? {
        return false;
      }
      var tx := pg.BeginTx();
      var version := existing.value.specVersion + 1;
      pg.UpdateTablePartitionSpecTx(tx, name, spec, version);
      assert tx.rel.tables[name].id == existing.value.id;
      var err := pg.InsertPartitionSpecTx(tx, existing.value.id, version, spec);
      if err {
        return false;
      }
      pg.CommitTx(tx);
      return true;
    }

    method AlterTableSchema(name: string, schema: string) returns (ok: bool)
      modifies pg`rel
      ensures ok <==> AlterSchema(old(pg.rel), name, schema).Some?
      ensures pg.rel == if ok then AlterSchema(old(pg.rel), name, schema).value else old(pg.rel)
      ensures ok ==> Live(pg.rel, name).Some? && pg.rel.tables[name].schema == schema
      ensures ok ==> pg.rel.schemas != [] && pg.rel.schemas[|pg.rel.schemas| - 1].schema == schema
    {
      var existing := pg.GetTable(name);
      if existing.None? {
        return false;
      }
      var tx := pg.BeginTx();
      var err := pg.UpdateTableSchema(tx, name, schema, existing.value.schemaVersion + 1);
      if err {
        return false;
      }
      pg.CommitTx(tx);
      return true;
    }

    /** With both names the same the second lock call waits for the first one for ever, so there is no return to describe. */
    method RenameTable(from: string, to: string) returns (ok: bool)
      requires from != to
      modifies pg`rel
      ensures ok <==> Live(old(pg.rel), from).Some? && to !in old(pg.rel).tables
      ensures ok <==> Rename(old(pg.rel), from, to).Some?
      ensures pg.rel == if ok then Rename(old(pg.rel), from, to).value else old(pg.rel)
    {
      var err, renamed := pg.RenameTable(from, to);
      return !err && renamed;
    }

    /** Referential safety: a purge goes through exactly if every one of its deletes does. */
    method DropTable(name: string, purge: bool) returns (ok: bool)
      requires ForeignKeysHold(pg.rel)
      modifies pg`rel
      ensures ok <==> Drop(old(pg.rel), name, purge).Some?
      ensures pg.rel == if ok then Drop(old(pg.rel), name, purge).value else old(pg.rel)
    {
      var tx := pg.BeginTx();
      var err, dropped := pg.DropTable(tx, name, purge);
      if err || !dropped {
        return false;
      }
      pg.CommitTx(tx);
      return true;
    }
  }
}
