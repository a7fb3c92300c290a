/**
  Purging one tenant (purgeTenant, backend/src/services/cleanup.service.ts): nine row-deleting steps, then the drop of
  the tenant's schemas and the re-creation of its primary one. Every step may fail and the others still run.

  Foreign keys: catalog metadata references a data source and blocks its deletion; catalog schemas are deleted with
  their source (backend/src/migrations/1000000000003-Catalog.ts).
 */
module Purge {
  import opened Identifiers

  /** The named steps; each row-deleting step also names the table it empties. */
  datatype Step =
    | CatalogMetadata | CatalogSchemas | Relationships | DataSources
    | ReplicationJobs | CopyJobs | QueryLogs | SavedAnalytics | AuditLogs
    | CheckTenantId | ListSchemas | DropSchema(name: string) | RecreateNamespace

  datatype Row = Row(id: nat, tenant: string)

  datatype Ref = Ref(id: nat, source: nat)

  /** `tables` holds the tenant-keyed tables under the name of the step that empties them; a missing table is absent. */
  datatype Db = Db(tables: map<Step, set<Row>>, metadata: set<Ref>, catalog: set<Ref>, schemas: set<string>)

  /** Which steps the server rejects, and whether the GRANT that ends the last step is rejected. */
  datatype Env = Env(fails: set<Step>, grantFails: bool)

  /** The plain `DELETE ... WHERE tenant_id = $1` steps after the data sources, in order. */
  const LATER := [ReplicationJobs, CopyJobs, QueryLogs, SavedAnalytics, AuditLogs]

  function Others(rows: set<Row>, t: string): set<Row> { set r | r in rows && r.tenant != t }

  function RowsOf(db: Db, name: Step): set<Row> { if name in db.tables then db.tables[name] else {} }

  function SourceIds(db: Db, t: string): set<nat> { set r | r in RowsOf(db, DataSources) && r.tenant == t :: r.id }

  function WithoutSources(refs: set<Ref>, ids: set<nat>): set<Ref> { set m | m in refs && m.source !in ids }

  function OwnedSchemas(schemas: set<string>, t: string): set<string> { set n | n in schemas && BelongsToTenant(n, t) }

  predicate DropFails(name: string, env: Env) { DropSchema(name) in env.fails || !CanQuote(name) }

  // ---- the result, step by step ----

  predicate PlainFails(db: Db, name: Step, env: Env) { name in env.fails || name !in db.tables }

  predicate MetadataFails(db: Db, env: Env) { CatalogMetadata in env.fails || DataSources !in db.tables }

  predicate CatalogFails(db: Db, env: Env) { CatalogSchemas in env.fails || DataSources !in db.tables }

  function MetadataLeft(db: Db, t: string, env: Env): set<Ref>
  {
    if MetadataFails(db, env) then db.metadata else WithoutSources(db.metadata, SourceIds(db, t))
  }

  /** Also rejected while a metadata row still references one of the sources. */
  predicate SourcesFail(db: Db, t: string, env: Env)
  {
    PlainFails(db, DataSources, env) || exists m | m in MetadataLeft(db, t, env) :: m.source in SourceIds(db, t)
  }

  predicate TableStepFails(db: Db, name: Step, t: string, env: Env)
  {
    if name == DataSources then SourcesFail(db, t, env) else PlainFails(db, name, env)
  }

  predicate IsLater(s: Step) { s.ReplicationJobs? || s.CopyJobs? || s.QueryLogs? || s.SavedAnalytics? || s.AuditLogs? }

  lemma {:induction false} LaterMembers(s: Step)
    ensures s in LATER <==> IsLater(s)
  {
    assert LATER[0] == ReplicationJobs && LATER[1] == CopyJobs && LATER[2] == QueryLogs
        && LATER[3] == SavedAnalytics && LATER[4] == AuditLogs;
  }

  predicate IsTableStep(name: Step) { name == Relationships || name == DataSources || IsLater(name) }

  function TableLeft(db: Db, name: Step, t: string, env: Env): set<Row>
    requires name in db.tables
  {
    if IsTableStep(name) && !TableStepFails(db, name, t, env) then Others(db.tables[name], t) else db.tables[name]
  }

  function CatalogLeft(db: Db, t: string, env: Env): set<Ref>
  {
    if CatalogFails(db, env) && SourcesFail(db, t, env) then db.catalog
    else WithoutSources(db.catalog, SourceIds(db, t))
  }

  predicate Lists(t: string, env: Env) { IsSafeTenantId(t) && ListSchemas !in env.fails }

  predicate Recreates(t: string, env: Env) { IsSafeTenantId(t) && RecreateNamespace !in env.fails }

  function SchemasLeft(db: Db, t: string, env: Env): set<string>
  {
    (set n | n in db.schemas && (!Lists(t, env) || !BelongsToTenant(n, t) || DropFails(n, env)))
    + (if Recreates(t, env) then {BaseSchema(t)} else {})
  }

  /** What is left of a database when tenant `t` is purged under `env`. */
  function Purged(db: Db, t: string, env: Env): Db
  {
    Db(map name | name in db.tables :: TableLeft(db, name, t, env),
       MetadataLeft(db, t, env), CatalogLeft(db, t, env), SchemasLeft(db, t, env))
  }

  function PlainFailures(steps: seq<Step>, db: Db, env: Env): seq<Step>
  {
    if steps == [] then []
    else (if PlainFails(db, steps[0], env) then [steps[0]] else []) + PlainFailures(steps[1..], db, env)
  }

  function CatalogFailures(db: Db, t: string, env: Env): seq<Step>
  {
    (if MetadataFails(db, env) then [CatalogMetadata] else [])
    + (if CatalogFails(db, env) then [CatalogSchemas] else [])
    + (if PlainFails(db, Relationships, env) then [Relationships] else [])
    + (if SourcesFail(db, t, env) then [DataSources] else [])
  }

  function FailedDrops(names: seq<string>, env: Env): seq<Step>
  {
    if names == [] then []
    else (if DropFails(names[0], env) then [DropSchema(names[0])] else []) + FailedDrops(names[1..], env)
  }

  function SchemaFailures(t: string, env: Env, listing: seq<string>): seq<Step>
  {
    if !IsSafeTenantId(t) then [CheckTenantId]
    else
      (if Lists(t, env) then FailedDrops(listing, env) else [ListSchemas])
      + (if Recreates(t, env) && !env.grantFails then [] else [RecreateNamespace])
  }

  /** Exactly the failing steps, in the order they ran. */
  function Failures(db: Db, t: string, env: Env, listing: seq<string>): seq<Step>
  {
    CatalogFailures(db, t, env) + PlainFailures(LATER, db, env) + SchemaFailures(t, env, listing)
  }

  // ---- the steps, one statement each ----

  function AfterMetadata(db: Db, t: string, env: Env): Db { db.(metadata := MetadataLeft(db, t, env)) }

  function AfterCatalog(db: Db, t: string, env: Env): Db
  {
    if CatalogFails(db, env) then db else db.(catalog := WithoutSources(db.catalog, SourceIds(db, t)))
  }

  function AfterPlain(db: Db, name: Step, t: string, env: Env): Db
  {
    if PlainFails(db, name, env) then db else db.(tables := db.tables[name := Others(db.tables[name], t)])
  }

  predicate SourcesBlocked(db: Db, t: string) { exists m | m in db.metadata :: m.source in SourceIds(db, t) }

  function AfterSources(db: Db, t: string, env: Env): Db
  {
    if PlainFails(db, DataSources, env) || SourcesBlocked(db, t) then db
    else AfterPlain(db, DataSources, t, env).(catalog := WithoutSources(db.catalog, SourceIds(db, t)))
  }

  function AfterSchemas(db: Db, t: string, env: Env): Db { db.(schemas := SchemasLeft(db, t, env)) }

  function AfterCatalogSteps(db: Db, t: string, env: Env): Db
  {
    AfterSources(AfterPlain(AfterCatalog(AfterMetadata(db, t, env), t, env), Relationships, t, env), t, env)
  }

  function AfterAll(steps: seq<Step>, db: Db, t: string, env: Env): Db
  {
    if steps == [] then db else AfterAll(steps[1..], AfterPlain(db, steps[0], t, env), t, env)
  }

  function DropAll(names: seq<string>, schemas: set<string>, env: Env): set<string>
  {
    if names == [] then schemas
    else DropAll(names[1..], if DropFails(names[0], env) then schemas else schemas - {names[0]}, env)
  }

  lemma {:induction false} DropAllDrops(names: seq<string>, schemas: set<string>, env: Env)
    ensures DropAll(names, schemas, env) == set n | n in schemas && (n !in names || DropFails(n, env))
    decreases |names|
  {
    if names != [] {
      var rest := if DropFails(names[0], env) then schemas else schemas - {names[0]};
      DropAllDrops(names[1..], rest, env);
      assert names == [names[0]] + names[1..];
    }
  }

  lemma {:induction false} DropStep(names: seq<string>, i: nat, schemas: set<string>, env: Env)
    requires i < |names|
    ensures DropAll(names[i..], schemas, env)
         == DropAll(names[i + 1..], if DropFails(names[i], env) then schemas else schemas - {names[i]}, env)
  {
    assert names[i..][1..] == names[i + 1..];
  }

  lemma {:induction false} TableStep(steps: seq<Step>, i: nat, now: Db, db: Db, failures: seq<Step>, t: string,
        env: Env)
    requires i < |steps| && now.tables.Keys == db.tables.Keys
    ensures AfterAll(steps[i..], now, t, env) == AfterAll(steps[i + 1..], AfterPlain(now, steps[i], t, env), t, env)
    ensures PlainFails(now, steps[i], env) == PlainFails(db, steps[i], env)
    ensures failures + PlainFailures(steps[i..], db, env)
         == (if PlainFails(db, steps[i], env) then failures + [steps[i]] else failures)
            + PlainFailures(steps[i + 1..], db, env)
  {
    assert steps[i..][1..] == steps[i + 1..];
    var rest := PlainFailures(steps[i + 1..], db, env);
    assert failures + ([steps[i]] + rest) == failures + [steps[i]] + rest;
  }

  lemma {:induction false} FailStep(names: seq<string>, i: nat, failures: seq<Step>, env: Env)
    requires i < |names|
    ensures failures + FailedDrops(names[i..], env)
         == (if DropFails(names[i], env) then failures + [DropSchema(names[i])] else failures)
            + FailedDrops(names[i + 1..], env)
  {
    assert names[i..][1..] == names[i + 1..];
    var rest := FailedDrops(names[i + 1..], env);
    assert failures + ([DropSchema(names[i])] + rest) == failures + [DropSchema(names[i])] + rest;
  }

  lemma {:induction false} AfterAllKeeps(steps: seq<Step>, db: Db, t: string, env: Env)
    ensures var r := AfterAll(steps, db, t, env);
            && r.metadata == db.metadata && r.catalog == db.catalog && r.schemas == db.schemas
            && r.tables.Keys == db.tables.Keys
            && forall n | n in db.tables ::
                 r.tables[n] == if n in steps && n !in env.fails then Others(db.tables[n], t) else db.tables[n]
    decreases |steps|
  {
    if steps != [] {
      AfterAllKeeps(steps[1..], AfterPlain(db, steps[0], t, env), t, env);
      assert steps == [steps[0]] + steps[1..];
      assert forall rows: set<Row> :: Others(Others(rows, t), t) == Others(rows, t);
    }
  }

  lemma {:induction false} CatalogStepsLeave(db: Db, t: string, env: Env)
    ensures var r := AfterCatalogSteps(db, t, env);
            && r.metadata == MetadataLeft(db, t, env) && r.catalog == CatalogLeft(db, t, env) && r.schemas == db.schemas
            && r.tables.Keys == db.tables.Keys
            && forall n | n in db.tables ::
                 r.tables[n]
                 == if n == Relationships || n == DataSources then TableLeft(db, n, t, env) else db.tables[n]
  {
    var d2 := AfterCatalog(AfterMetadata(db, t, env), t, env);
    var d3 := AfterPlain(d2, Relationships, t, env);
    assert RowsOf(d3, DataSources) == RowsOf(db, DataSources);
    assert SourceIds(d3, t) == SourceIds(db, t) == SourceIds(AfterMetadata(db, t, env), t);
    assert d3.metadata == MetadataLeft(db, t, env);
    assert SourcesBlocked(d3, t) <==> exists m | m in MetadataLeft(db, t, env) :: m.source in SourceIds(db, t);
    var ids := SourceIds(db, t);
    assert WithoutSources(WithoutSources(db.catalog, ids), ids) == WithoutSources(db.catalog, ids);
  }

  /** The steps one after another leave exactly `Purged`. */
  lemma {:induction false} StepsLeavePurged(db: Db, t: string, env: Env)
    ensures AfterSchemas(AfterAll(LATER, AfterCatalogSteps(db, t, env), t, env), t, env) == Purged(db, t, env)
  {
    var d4 := AfterCatalogSteps(db, t, env);
    CatalogStepsLeave(db, t, env);
    AfterAllKeeps(LATER, d4, t, env);
    forall n ensures n in LATER <==> IsLater(n) { LaterMembers(n); }
    SameTables(db, d4, AfterAll(LATER, d4, t, env), t, env);
  }

  lemma {:induction false} SameTables(db: Db, d4: Db, d9: Db, t: string, env: Env)
    requires d4.tables.Keys == db.tables.Keys == d9.tables.Keys
    requires forall n | n in db.tables ::
               d4.tables[n] == if n == Relationships || n == DataSources then TableLeft(db, n, t, env) else db.tables[n]
    requires forall n | n in db.tables ::
               d9.tables[n] == if IsLater(n) && n !in env.fails then Others(d4.tables[n], t) else d4.tables[n]
    ensures d9.tables == Purged(db, t, env).tables
  {
    var p := Purged(db, t, env).tables;
    assert p.Keys == db.tables.Keys;
    forall n | n in db.tables ensures d9.tables[n] == p[n] { SameTable(db, d4.tables[n], d9.tables[n], n, t, env); }
  }

  lemma {:induction false} SameTable(db: Db, four: set<Row>, nine: set<Row>, n: Step, t: string, env: Env)
    requires n in db.tables
    requires four == if n == Relationships || n == DataSources then TableLeft(db, n, t, env) else db.tables[n]
    requires nine == if IsLater(n) && n !in env.fails then Others(four, t) else four
    ensures nine == TableLeft(db, n, t, env)
  {
  }

  // ---- the method ----

  class TenantStore {
    var tables: map<Step, set<Row>>
    var metadata: set<Ref>
    var catalog: set<Ref>
    var schemas: set<string>

    ghost function Contents(): Db reads this { Db(tables, metadata, catalog, schemas) }

    constructor (db: Db)
      ensures Contents() == db
    {
      tables, metadata, catalog, schemas := db.tables, db.metadata, db.catalog, db.schemas;
    }

    /** `DELETE FROM <table> WHERE tenant_id = $1` */
    method DeleteRows(name: Step, t: string, env: Env) returns (ok: bool)
      modifies this
      ensures ok == !PlainFails(old(Contents()), name, env) && Contents() == AfterPlain(old(Contents()), name, t, env)
    {
      ok := name !in env.fails && name in tables;
      if ok { tables := tables[name := set r | r in tables[name] && r.tenant != t]; }
    }

    /** `SELECT id FROM public.data_sources WHERE tenant_id = $1` */
    method TenantSources(t: string) returns (ids: set<nat>)
      requires DataSources in tables
      ensures ids == SourceIds(Contents(), t)
    {
      ids := set r | r in tables[DataSources] && r.tenant == t :: r.id;
    }

    method DeleteMetadata(t: string, env: Env) returns (ok: bool)
      modifies this
      ensures ok == !MetadataFails(old(Contents()), env) && Contents() == AfterMetadata(old(Contents()), t, env)
    {
      ok := CatalogMetadata !in env.fails && DataSources in tables;
      if ok {
        var ids := TenantSources(t);
        metadata := set m | m in metadata && m.source !in ids;
      }
    }

    method DeleteCatalog(t: string, env: Env) returns (ok: bool)
      modifies this
      ensures ok == !CatalogFails(old(Contents()), env) && Contents() == AfterCatalog(old(Contents()), t, env)
    {
      ok := CatalogSchemas !in env.fails && DataSources in tables;
      if ok {
        var ids := TenantSources(t);
        catalog := set m | m in catalog && m.source !in ids;
      }
    }

    /** Rejected while metadata references a source; otherwise the catalog schemas go with their sources. */
    method DeleteSources(t: string, env: Env) returns (ok: bool)
      modifies this
      ensures ok == !(PlainFails(old(Contents()), DataSources, env) || SourcesBlocked(old(Contents()), t))
      ensures Contents() == AfterSources(old(Contents()), t, env)
    {
      if DataSources in env.fails || DataSources !in tables { return false; }
      var ids := TenantSources(t);
      if exists m | m in metadata :: m.source in ids { return false; }
      ok := DeleteRows(DataSources, t, env);
      catalog := set m | m in catalog && m.source !in ids;
    }

    /** The steps up to the data sources. */
    method PurgeCatalog(t: string, env: Env) returns (failures: seq<Step>)
      modifies this
      ensures Contents() == AfterCatalogSteps(old(Contents()), t, env)
      ensures failures == CatalogFailures(old(Contents()), t, env)
    {
      ghost var db := Contents();
      failures := [];
      var ok := DeleteMetadata(t, env);
      if !ok { failures := failures + [CatalogMetadata]; }
      ok := DeleteCatalog(t, env);
      if !ok { failures := failures + [CatalogSchemas]; }
      ok := DeleteRows(Relationships, t, env);
      if !ok { failures := failures + [Relationships]; }
      ghost var d3 := Contents();
      ok := DeleteSources(t, env);
      if !ok { failures := failures + [DataSources]; }
      SourcesStillThere(db, d3, t, env);
    }

    method PurgeTables(steps: seq<Step>, t: string, env: Env) returns (failures: seq<Step>)
      modifies this
      ensures Contents() == AfterAll(steps, old(Contents()), t, env)
      ensures failures == PlainFailures(steps, old(Contents()), env)
    {
      ghost var db := Contents();
      failures := [];
      var i := 0;
      while i < |steps|
        invariant 0 <= i <= |steps|
        invariant tables.Keys == db.tables.Keys
        invariant AfterAll(steps[i..], Contents(), t, env) == AfterAll(steps, db, t, env)
        invariant failures + PlainFailures(steps[i..], db, env) == PlainFailures(steps, db, env)
      {
        TableStep(steps, i, Contents(), db, failures, t, env);
        var ok := DeleteRows(steps[i], t, env);
        if !ok { failures := failures + [steps[i]]; }
        i := i + 1;
      }
    }

    method DropSchemas(names: seq<string>, env: Env) returns (failures: seq<Step>)
      modifies this`schemas
      ensures schemas == DropAll(names, old(schemas), env)
      ensures failures == FailedDrops(names, env)
    {
      failures := [];
      var i := 0;
      assert names[0..] == names;
      while i < |names|
        invariant 0 <= i <= |names|
        invariant DropAll(names[i..], schemas, env) == DropAll(names, old(schemas), env)
        invariant failures + FailedDrops(names[i..], env) == FailedDrops(names, env)
      {
        var name := names[i];
        DropStep(names, i, schemas, env);
        FailStep(names, i, failures, env);
        if DropSchema(name) in env.fails || QuoteAnyIdent(name).Err? { failures := failures + [DropSchema(name)]; }
        else { schemas := schemas - {name}; }
        i := i + 1;
      }
    }

    method PurgeSchemas(t: string, env: Env, listing: seq<string>) returns (failures: seq<Step>)
      requires forall n :: n in listing <==> n in schemas && SchemaQuerySelects(n, t)
      modifies this
      ensures Contents() == AfterSchemas(old(Contents()), t, env)
      ensures failures == SchemaFailures(t, env, listing)
    {
      ghost var before := schemas;
      if !IsSafeTenantId(t) { return [CheckTenantId]; }
      if ListSchemas in env.fails {
        failures := [ListSchemas];
      } else {
        failures := DropSchemas(listing, env);
        forall n ensures SchemaQuerySelects(n, t) <==> BelongsToTenant(n, t) { SchemaQueryIsBelongs(n, t); }
        DropAllDrops(listing, before, env);
      }
      assert schemas == set n | n in before && (!Lists(t, env) || !BelongsToTenant(n, t) || DropFails(n, env));
      if RecreateNamespace in env.fails {
        failures := failures + [RecreateNamespace];
      } else {
        schemas := schemas + {BaseSchema(t)};
        if env.grantFails { failures := failures + [RecreateNamespace]; }
      }
    }

    /** `listing` is the order in which the schema query returns its rows. */
    method PurgeTenant(t: string, env: Env, listing: seq<string>) returns (failures: seq<Step>)
      requires forall n :: n in listing <==> n in schemas && SchemaQuerySelects(n, t)
      modifies this
      ensures Contents() == Purged(old(Contents()), t, env)
      ensures failures == Failures(old(Contents()), t, env, listing)
    {
      ghost var db := Contents();
      failures := PurgeCatalog(t, env);
      ghost var d4 := Contents();
      CatalogStepsLeave(db, t, env);
      var f := PurgeTables(LATER, t, env);
      AfterAllKeeps(LATER, d4, t, env);
      SamePlainFailures(db, d4, LATER, env);
      failures := failures + f;
      f := PurgeSchemas(t, env, listing);
      failures := failures + f;
      StepsLeavePurged(db, t, env);
    }
  }

  lemma {:induction false} SourcesStillThere(db: Db, d3: Db, t: string, env: Env)
    requires d3 == AfterPlain(AfterCatalog(AfterMetadata(db, t, env), t, env), Relationships, t, env)
    ensures SourcesFail(db, t, env) <==> PlainFails(d3, DataSources, env) || SourcesBlocked(d3, t)
    ensures PlainFails(db, Relationships, env)
       <==> PlainFails(AfterCatalog(AfterMetadata(db, t, env), t, env), Relationships, env)
  {
    assert RowsOf(d3, DataSources) == RowsOf(db, DataSources);
    assert SourceIds(d3, t) == SourceIds(db, t);
    assert d3.metadata == MetadataLeft(db, t, env);
  }

  lemma {:induction false} SamePlainFailures(a: Db, b: Db, steps: seq<Step>, env: Env)
    requires a.tables.Keys == b.tables.Keys
    ensures PlainFailures(steps, a, env) == PlainFailures(steps, b, env)
  {
    if steps != [] { SamePlainFailures(a, b, steps[1..], env); }
  }

  // ---- what every purge keeps and what a clean one achieves ----

  function TenantRows(rows: set<Row>, u: string): set<Row> { set r | r in rows && r.tenant == u }

  /** Refs to the sources of tenant `u`. */
  function TenantRefs(refs: set<Ref>, db: Db, u: string): set<Ref> { set m | m in refs && m.source in SourceIds(db, u) }

  predicate SourceIdsUnique(db: Db)
  {
    forall a, b | a in RowsOf(db, DataSources) && b in RowsOf(db, DataSources) && a.id == b.id :: a == b
  }

  /** Whatever fails, another tenant keeps every row and every catalog entry. */
  lemma {:induction false} OtherRowsKept(db: Db, t: string, u: string, env: Env)
    requires t != u && SourceIdsUnique(db)
    ensures var p := Purged(db, t, env);
            && (forall n | n in db.tables :: TenantRows(p.tables[n], u) == TenantRows(db.tables[n], u))
            && TenantRefs(p.metadata, db, u) == TenantRefs(db.metadata, db, u)
            && TenantRefs(p.catalog, db, u) == TenantRefs(db.catalog, db, u)
  {
    assert SourceIds(db, t) !! SourceIds(db, u);
    forall n | n in db.tables
      ensures TenantRows(Purged(db, t, env).tables[n], u) == TenantRows(db.tables[n], u)
    {
      assert TenantRows(Others(db.tables[n], t), u) == TenantRows(db.tables[n], u);
    }
    assert TenantRefs(WithoutSources(db.metadata, SourceIds(db, t)), db, u) == TenantRefs(db.metadata, db, u);
    assert TenantRefs(WithoutSources(db.catalog, SourceIds(db, t)), db, u) == TenantRefs(db.catalog, db, u);
  }

  /** Whatever fails, no schema outside tenant `t` goes or comes, so a tenant with no overlapping id keeps its own. */
  lemma {:induction false} OtherSchemasKept(db: Db, t: string, u: string, env: Env)
    ensures forall n | !BelongsToTenant(n, t) :: n in Purged(db, t, env).schemas <==> n in db.schemas
    ensures t != u && !Overlap(t, u) ==> OwnedSchemas(Purged(db, t, env).schemas, u) == OwnedSchemas(db.schemas, u)
  {
    if t != u && !Overlap(t, u) {
      ShareIffOverlap(t, u);
      forall n | BelongsToTenant(n, u) ensures n in Purged(db, t, env).schemas <==> n in db.schemas {
        assert !BelongsToTenant(n, t);
      }
    }
  }

  /** Purging `t` leaves the schemas of tenant `u` alone, on every database and whatever fails. */
  ghost predicate SparesSchemas(t: string, u: string)
  {
    forall db: Db, env: Env :: OwnedSchemas(Purged(db, t, env).schemas, u) == OwnedSchemas(db.schemas, u)
  }

  lemma {:induction false} WordsCanBeQuoted(s: string)
    requires s != "" && AllWord(s) && |s| <= 128
    ensures CanQuote(s)
  {
    assert !IsWord('\0');
  }

  /** An undisturbed purge drops a schema of both tenants other than the primary one. */
  lemma {:induction false} SharedSchemaIsDropped(t: string, u: string, name: string)
    requires IsSafeTenantId(t) && BelongsToTenant(name, t) && BelongsToTenant(name, u)
    requires name != BaseSchema(t) && AllWord(name) && |name| <= 128
    ensures !SparesSchemas(t, u)
  {
    WordsCanBeQuoted(name);
    var db := Db(map[], {}, {}, {name});
    assert name in OwnedSchemas(db.schemas, u);
    assert name !in Purged(db, t, UNDISTURBED).schemas;
  }

  /** A purge spares another tenant's schemas exactly when the two ids do not overlap. */
  lemma {:induction false} SparesIffNoOverlap(t: string, u: string)
    requires t != u && IsSafeTenantId(t) && IsSafeTenantId(u)
    ensures SparesSchemas(t, u) <==> !Overlap(t, u)
  {
    if !Overlap(t, u) {
      forall db: Db, env: Env ensures OwnedSchemas(Purged(db, t, env).schemas, u) == OwnedSchemas(db.schemas, u) {
        OtherSchemasKept(db, t, u, env);
      }
    } else if t + "_" <= u {
      var name := BaseSchema(u);
      assert BaseSchema(t) + "_" == "tenant_" + (t + "_") <= name;
      SharedSchemaIsDropped(t, u, name);
    } else {
      var name := BaseSchema(t) + "_x";
      assert BaseSchema(u) + "_" == "tenant_" + (u + "_") <= BaseSchema(t) <= name;
      assert BaseSchema(t) + "_" <= name;
      SharedSchemaIsDropped(t, u, name);
    }
  }

  /** `t_ac` and `t_ac_foo` are such a pair: purging either can drop schemas of the other. */
  lemma {:induction false} OverlapBreaksTheFrame()
    ensures !SparesSchemas("t_ac", "t_ac_foo") && !SparesSchemas("t_ac_foo", "t_ac")
  {
    assert "t_ac" + "_" <= "t_ac_foo";
    SparesIffNoOverlap("t_ac", "t_ac_foo");
    SparesIffNoOverlap("t_ac_foo", "t_ac");
  }

  lemma {:induction false} NoPlainFailure(steps: seq<Step>, db: Db, env: Env)
    requires PlainFailures(steps, db, env) == []
    ensures forall i | 0 <= i < |steps| :: !PlainFails(db, steps[i], env)
  {
    if steps != [] {
      NoPlainFailure(steps[1..], db, env);
      assert forall i | 1 <= i < |steps| :: steps[i] == steps[1..][i - 1];
    }
  }

  lemma {:induction false} NoDropFailure(names: seq<string>, env: Env)
    requires FailedDrops(names, env) == []
    ensures forall i | 0 <= i < |names| :: !DropFails(names[i], env)
  {
    if names != [] {
      NoDropFailure(names[1..], env);
      assert forall i | 1 <= i < |names| :: names[i] == names[1..][i - 1];
    }
  }

  /**
    An empty failure list means the purge is complete: the schemas are the old ones minus the tenant's plus a fresh
    primary schema, and no row or catalog entry of the tenant is left.
   */
  lemma {:induction false} NoFailureMeansPurged(db: Db, t: string, env: Env, listing: seq<string>)
    requires forall n :: n in listing <==> n in db.schemas && SchemaQuerySelects(n, t)
    requires Failures(db, t, env, listing) == []
    ensures var p := Purged(db, t, env);
            && p.schemas == db.schemas - OwnedSchemas(db.schemas, t) + {BaseSchema(t)}
            && (forall n | n in db.tables && IsTableStep(n) :: TenantRows(p.tables[n], t) == {})
            && TenantRefs(p.metadata, db, t) == {} && TenantRefs(p.catalog, db, t) == {}
  {
    var p := Purged(db, t, env);
    assert CatalogFailures(db, t, env) == [] && PlainFailures(LATER, db, env) == [];
    assert SchemaFailures(t, env, listing) == [];
    NoPlainFailure(LATER, db, env);
    forall n | n in db.tables && IsTableStep(n) ensures TenantRows(p.tables[n], t) == {} {
      LaterMembers(n);
      assert p.tables[n] == TableLeft(db, n, t, env) == Others(db.tables[n], t);
    }
    assert FailedDrops(listing, env) == [];
    NoDropFailure(listing, env);
    forall n | n in db.schemas && BelongsToTenant(n, t) ensures !DropFails(n, env) {
      SchemaQueryIsBelongs(n, t);
      assert n in listing;
    }
    assert p.schemas == db.schemas - OwnedSchemas(db.schemas, t) + {BaseSchema(t)};
  }

  /** A step of the purge is attempted and rejected. */
  predicate Fails(db: Db, t: string, env: Env, listing: seq<string>, s: Step)
  {
    match s
    case CatalogMetadata => s in env.fails || DataSources !in db.tables
    case CatalogSchemas => s in env.fails || DataSources !in db.tables
    case DataSources =>
      s in env.fails || s !in db.tables || exists m | m in MetadataLeft(db, t, env) :: m.source in SourceIds(db, t)
    case CheckTenantId => !IsSafeTenantId(t)
    case ListSchemas => IsSafeTenantId(t) && s in env.fails
    case DropSchema(n) =>
      IsSafeTenantId(t) && ListSchemas !in env.fails && n in listing
      && (s in env.fails || n == "" || '\0' in n || |n| > 128)
    case RecreateNamespace => IsSafeTenantId(t) && (s in env.fails || env.grantFails)
    case _ => s in env.fails || s !in db.tables
  }

  lemma {:induction false} PlainListed(steps: seq<Step>, db: Db, env: Env, s: Step)
    ensures s in PlainFailures(steps, db, env) <==> s in steps && (s in env.fails || s !in db.tables)
  {
    if steps != [] {
      PlainListed(steps[1..], db, env, s);
      assert steps == [steps[0]] + steps[1..];
    }
  }

  lemma {:induction false} DropsListed(names: seq<string>, env: Env, s: Step)
    ensures s in FailedDrops(names, env) <==>
            s.DropSchema? && s.name in names && (s in env.fails || s.name == "" || '\0' in s.name || |s.name| > 128)
  {
    if names != [] {
      DropsListed(names[1..], env, s);
      assert names == [names[0]] + names[1..];
    }
  }

  lemma {:induction false} CatalogListed(db: Db, t: string, env: Env, s: Step)
    ensures s in CatalogFailures(db, t, env) <==>
            (s.CatalogMetadata? || s.CatalogSchemas? || s.Relationships? || s.DataSources?) && Fails(db, t, env, [], s)
  {
  }

  lemma {:induction false} SchemaListed(db: Db, t: string, env: Env, listing: seq<string>, s: Step)
    ensures s in SchemaFailures(t, env, listing) <==>
            (s.CheckTenantId? || s.ListSchemas? || s.DropSchema? || s.RecreateNamespace?)
            && Fails(db, t, env, listing, s)
  {
    DropsListed(listing, env, s);
  }

  /** A step is reported exactly when it was attempted and rejected. */
  lemma {:induction false} ReportedIffFailed(db: Db, t: string, env: Env, listing: seq<string>, s: Step)
    ensures s in Failures(db, t, env, listing) <==> Fails(db, t, env, listing, s)
  {
    CatalogListed(db, t, env, s);
    PlainListed(LATER, db, env, s);
    LaterMembers(s);
    SchemaListed(db, t, env, listing, s);
  }

  function StepOrder(s: Step): nat
  {
    match s
    case CatalogMetadata => 0 case CatalogSchemas => 1 case Relationships => 2 case DataSources => 3
    case ReplicationJobs => 4 case CopyJobs => 5 case QueryLogs => 6 case SavedAnalytics => 7 case AuditLogs => 8
    case CheckTenantId => 9 case ListSchemas => 10 case DropSchema(_) => 11 case RecreateNamespace => 12
  }

  predicate InStepOrder(steps: seq<Step>)
  {
    forall i, j | 0 <= i < j < |steps| ::
      StepOrder(steps[i]) < StepOrder(steps[j]) || (steps[i].DropSchema? && steps[j].DropSchema?)
  }

  lemma {:induction false} OrderJoins(a: seq<Step>, b: seq<Step>, n: nat)
    requires InStepOrder(a) && InStepOrder(b)
    requires (forall s | s in a :: StepOrder(s) < n) && forall s | s in b :: StepOrder(s) >= n
    ensures InStepOrder(a + b)
  {
    var all := a + b;
    forall i, j | 0 <= i < j < |all|
      ensures StepOrder(all[i]) < StepOrder(all[j]) || (all[i].DropSchema? && all[j].DropSchema?)
    {
      if i < |a| <= j { assert a[i] in a && b[j - |a|] in b; }
    }
  }

  lemma {:induction false} PlainInOrder(steps: seq<Step>, db: Db, env: Env)
    requires forall i, j | 0 <= i < j < |steps| :: StepOrder(steps[i]) < StepOrder(steps[j])
    ensures InStepOrder(PlainFailures(steps, db, env))
  {
    if steps != [] {
      PlainInOrder(steps[1..], db, env);
      var head := if PlainFails(db, steps[0], env) then [steps[0]] else [];
      var tail := PlainFailures(steps[1..], db, env);
      forall s | s in tail ensures StepOrder(s) >= StepOrder(steps[0]) + 1 {
        PlainListed(steps[1..], db, env, s);
        var i :| 0 <= i < |steps[1..]| && steps[1..][i] == s;
        assert steps[i + 1] == s;
      }
      OrderJoins(head, tail, StepOrder(steps[0]) + 1);
    }
  }

  lemma {:induction false} DropsInOrder(listing: seq<string>, env: Env)
    ensures InStepOrder(FailedDrops(listing, env)) && forall s | s in FailedDrops(listing, env) :: StepOrder(s) == 11
  {
    var drops := FailedDrops(listing, env);
    forall s | s in drops ensures s.DropSchema? { DropsListed(listing, env, s); }
    assert forall i | 0 <= i < |drops| :: drops[i] in drops;
  }

  lemma {:induction false} SchemaInOrder(t: string, env: Env, listing: seq<string>)
    ensures InStepOrder(SchemaFailures(t, env, listing))
    ensures forall s | s in SchemaFailures(t, env, listing) :: StepOrder(s) >= 9
  {
    if IsSafeTenantId(t) {
      DropsInOrder(listing, env);
      OrderJoins(if Lists(t, env) then FailedDrops(listing, env) else [ListSchemas],
                 if Recreates(t, env) && !env.grantFails then [] else [RecreateNamespace], 12);
    }
  }

  lemma {:induction false} LaterInOrder(db: Db, env: Env)
    ensures InStepOrder(PlainFailures(LATER, db, env))
    ensures forall s | s in PlainFailures(LATER, db, env) :: 4 <= StepOrder(s) < 9
  {
    PlainInOrder(LATER, db, env);
    forall s | s in PlainFailures(LATER, db, env) ensures 4 <= StepOrder(s) < 9 {
      PlainListed(LATER, db, env, s);
      LaterMembers(s);
    }
  }

  /** Reports come in the order in which the steps ran. */
  lemma {:induction false} ReportsInOrder(db: Db, t: string, env: Env, listing: seq<string>)
    ensures InStepOrder(Failures(db, t, env, listing))
  {
    var a, b, c := CatalogFailures(db, t, env), PlainFailures(LATER, db, env), SchemaFailures(t, env, listing);
    LaterInOrder(db, env);
    forall s | s in a ensures StepOrder(s) < 4 { CatalogListed(db, t, env, s); }
    OrderJoins(a, b, 4);
    SchemaInOrder(t, env, listing);
    OrderJoins(a + b, c, 9);
  }

  const UNDISTURBED := Env({}, false)

  /** After any partly failed purge, one undisturbed purge reaches the state a first undisturbed purge would have. */
  lemma {:induction false} RetryConverges(db: Db, t: string, env: Env)
    requires DataSources in db.tables
    ensures Purged(Purged(db, t, env), t, UNDISTURBED) == Purged(db, t, UNDISTURBED)
  {
    var once := Purged(db, t, env);
    var again, clean := Purged(once, t, UNDISTURBED), Purged(db, t, UNDISTURBED);
    RetryRefs(db, t, env);
    forall n | n in db.tables ensures again.tables[n] == clean.tables[n] {
      assert once.tables[n] == db.tables[n] || once.tables[n] == Others(db.tables[n], t);
      assert Others(Others(db.tables[n], t), t) == Others(db.tables[n], t);
      assert IsTableStep(n) ==> !TableStepFails(once, n, t, UNDISTURBED) && !TableStepFails(db, n, t, UNDISTURBED);
      assert again.tables[n] == TableLeft(once, n, t, UNDISTURBED);
    }
    assert again.tables == clean.tables;
    RetrySchemas(db, t, env);
  }

  lemma {:induction false} RetryRefs(db: Db, t: string, env: Env)
    requires DataSources in db.tables
    ensures var once := Purged(db, t, env);
            && MetadataLeft(once, t, UNDISTURBED) == MetadataLeft(db, t, UNDISTURBED)
            && CatalogLeft(once, t, UNDISTURBED) == CatalogLeft(db, t, UNDISTURBED)
            && !SourcesFail(once, t, UNDISTURBED) && !SourcesFail(db, t, UNDISTURBED)
  {
    var once := Purged(db, t, env);
    var ids := SourceIds(db, t);
    assert once.tables[DataSources] == TableLeft(db, DataSources, t, env);
    if SourcesFail(db, t, env) {
      assert SourceIds(once, t) == ids;
    } else {
      assert SourceIds(once, t) == {};
      assert WithoutSources(once.metadata, ids) == once.metadata;
      assert WithoutSources(once.metadata, {}) == once.metadata && WithoutSources(once.catalog, {}) == once.catalog;
    }
    assert WithoutSources(WithoutSources(db.metadata, ids), ids) == WithoutSources(db.metadata, ids);
    assert WithoutSources(WithoutSources(db.catalog, ids), ids) == WithoutSources(db.catalog, ids);
  }

  lemma {:induction false} RetrySchemas(db: Db, t: string, env: Env)
    ensures SchemasLeft(Purged(db, t, env), t, UNDISTURBED) == SchemasLeft(db, t, UNDISTURBED)
  {
    OtherSchemasKept(db, t, t, env);
    assert BelongsToTenant(BaseSchema(t), t);
  }
}
