/**
 Which persistence plane a relation is on (app/persistence_planes.py): read from
 declarations, refused when none covers the relation.
 */
module PersistencePlanes {
  import opened Collections
  import opened RuntimeAdmission

  datatype Plane = TenantPlane | ControlPlane

  datatype RelationPlane = RelationPlane(
    relation: string, plane: Plane, schema: string, declaredBy: string, permittedPrincipals: seq<string>)

  datatype SchemaPlane = SchemaPlane(schema: string, plane: Plane, declaredBy: string)

  datatype PlaneError =
    | AmbiguousPlaneDeclaration(relation: string)
    | UnclassifiedRelation(schema: string, relation: string)

  datatype PlaneVerdict = PlaneVerdict(
    schema: string, relation: string, plane: Plane, declaredBy: string,
    permittedPrincipals: seq<string>, schemaMoved: bool, declaredSchema: string)

  datatype PlaneResolver = PlaneResolver(byRelation: map<string, RelationPlane>, bySchema: map<string, SchemaPlane>)
  {
    /** A relation declaration decides; failing that the schema's; failing that, refusal. */
    function Resolve(schema: string, relation: string): Result<PlaneVerdict, PlaneError> {
      if relation in byRelation then
        var d := byRelation[relation];
        Success(PlaneVerdict(schema, relation, d.plane, d.declaredBy, d.permittedPrincipals, d.schema != schema,
                             d.schema))
      else if schema in bySchema then
        var d := bySchema[schema];
        Success(PlaneVerdict(schema, relation, d.plane, d.declaredBy, [], false, schema))
      else
        Failure(UnclassifiedRelation(schema, relation))
    }
  }

  function RelationName(): RelationPlane -> string { (d: RelationPlane) => d.relation }

  function SchemaName(): SchemaPlane -> string { (d: SchemaPlane) => d.schema }

  /** Two declarations of one relation name put it on different planes. */
  ghost predicate Disagree(ds: seq<RelationPlane>) {
    exists a, b :: a in ds && b in ds && a.relation == b.relation && a.plane != b.plane
  }

  lemma {:induction false} LatestSpeaksForAll(ds: seq<RelationPlane>, d: RelationPlane)
    requires !Disagree(ds) && d in ds
    ensures d.relation in IndexBy(ds, RelationName())
    ensures IndexBy(ds, RelationName())[d.relation].plane == d.plane
  {
    IndexByKeys(ds, RelationName());
    assert IndexBy(ds, RelationName())[d.relation].relation == d.relation;
  }

  lemma {:induction false} ClashFound(ds: seq<RelationPlane>, n: nat)
    requires n < |ds|
    requires var stored := IndexBy(ds[..n], RelationName());
             ds[n].relation in stored && stored[ds[n].relation].plane != ds[n].plane
    ensures Disagree(ds[..n + 1]) && Disagree(ds)
  {
    IndexByKeys(ds[..n], RelationName());
    var earlier := IndexBy(ds[..n], RelationName())[ds[n].relation];
    assert earlier in ds[..n + 1] && ds[..n + 1][n] == ds[n] && ds[n] in ds[..n + 1];
  }

  lemma {:induction false} NoClashYet(ds: seq<RelationPlane>, n: nat)
    requires n < |ds| && !Disagree(ds[..n])
    requires var stored := IndexBy(ds[..n], RelationName());
             ds[n].relation in stored ==> stored[ds[n].relation].plane == ds[n].plane
    ensures !Disagree(ds[..n + 1])
  {
    assert ds[..n + 1] == ds[..n] + [ds[n]];
    forall d | d in ds[..n] && d.relation == ds[n].relation
      ensures d.plane == ds[n].plane
    {
      LatestSpeaksForAll(ds[..n], d);
    }
  }

  /**
   Comparing each declaration with the latest stored one alone finds a clash
   exactly when some two declarations of one relation clash.
   */
  method Construct(relationPlanes: seq<RelationPlane>, schemaPlanes: seq<SchemaPlane>)
    returns (r: Result<PlaneResolver, PlaneError>)
    ensures r.Failure? <==> Disagree(relationPlanes)
    ensures r.Failure? ==>
              exists n: nat :: && n < |relationPlanes| && !Disagree(relationPlanes[..n])
                               && Disagree(relationPlanes[..n + 1])
                               && r.error == AmbiguousPlaneDeclaration(relationPlanes[n].relation)
    ensures r.Success? ==> r.value == PlaneResolver(
                                        IndexBy(relationPlanes, RelationName()), IndexBy(schemaPlanes, SchemaName()))
  {
    var byRelation: map<string, RelationPlane> := map[];
    for n := 0 to |relationPlanes|
      invariant byRelation == IndexBy(relationPlanes[..n], RelationName())
      invariant !Disagree(relationPlanes[..n])
    {
      var d := relationPlanes[n];
      PrefixStep(relationPlanes, n);
      if d.relation in byRelation && byRelation[d.relation].plane != d.plane {
        ClashFound(relationPlanes, n);
        return Failure(AmbiguousPlaneDeclaration(d.relation));
      }
      NoClashYet(relationPlanes, n);
      byRelation := byRelation[d.relation := d];
    }
    assert relationPlanes[..|relationPlanes|] == relationPlanes;
    r := Success(PlaneResolver(byRelation, IndexBy(schemaPlanes, SchemaName())));
  }

  function ResolverOver(ds: seq<RelationPlane>, ss: seq<SchemaPlane>): PlaneResolver {
    PlaneResolver(IndexBy(ds, RelationName()), IndexBy(ss, SchemaName()))
  }

  /** A declared relation is on its declared plane whatever schema it is seen in. */
  lemma {:induction false} DeclarationDecides(
      ds: seq<RelationPlane>, ss: seq<SchemaPlane>, d: RelationPlane, schema: string)
    requires !Disagree(ds) && d in ds
    ensures var verdict := ResolverOver(ds, ss).Resolve(schema, d.relation);
            verdict.Success? && verdict.value.plane == d.plane
  {
    LatestSpeaksForAll(ds, d);
  }

  /** Reordering the declarations moves no relation to another plane. */
  lemma {:induction false} DeclarationOrderIsIrrelevant(
      ds: seq<RelationPlane>, es: seq<RelationPlane>, ss: seq<SchemaPlane>, schema: string, relation: string)
    requires multiset(ds) == multiset(es) && !Disagree(ds)
    ensures !Disagree(es)
    ensures var a, b := ResolverOver(ds, ss).Resolve(schema, relation), ResolverOver(es, ss).Resolve(schema, relation);
            a.Success? == b.Success? && (a.Success? ==> a.value.plane == b.value.plane)
  {
    SameDeclarations(ds, es);
    IndexByKeys(ds, RelationName());
    IndexByKeys(es, RelationName());
    if relation in IndexBy(ds, RelationName()) {
      LatestSpeaksForAll(es, IndexBy(ds, RelationName())[relation]);
    }
  }

  lemma {:induction false} SameDeclarations(ds: seq<RelationPlane>, es: seq<RelationPlane>)
    requires multiset(ds) == multiset(es)
    ensures forall d :: d in ds <==> d in es
    ensures Disagree(ds) <==> Disagree(es)
  {
    assert forall d :: d in ds <==> d in multiset(ds);
    assert forall d :: d in es <==> d in multiset(es);
  }

  /** Resolution refuses exactly the relations that no declaration covers. */
  lemma {:induction false} RefusesExactlyTheUncovered(
      ds: seq<RelationPlane>, ss: seq<SchemaPlane>, schema: string, relation: string)
    ensures ResolverOver(ds, ss).Resolve(schema, relation) == Failure(UnclassifiedRelation(schema, relation)) <==>
            (forall d :: d in ds ==> d.relation != relation) && (forall s :: s in ss ==> s.schema != schema)
    ensures (forall d :: d in ds ==> d.relation != relation) && (exists s :: s in ss && s.schema == schema)
            ==> exists s :: s in ss && s.schema == schema
                            && ResolverOver(ds, ss).Resolve(schema, relation).value.plane == s.plane
  {
    IndexByKeys(ds, RelationName());
    IndexByKeys(ss, SchemaName());
  }

  function Declares(relation: string): RelationPlane -> bool { (d: RelationPlane) => d.relation == relation }

  function DeclaresSchema(schema: string): SchemaPlane -> bool { (d: SchemaPlane) => d.schema == schema }

  /** The verdict repeats the latest declaration of the relation; failing any, the latest of the schema. */
  ghost predicate Settles(
      ds: seq<RelationPlane>, ss: seq<SchemaPlane>, schema: string, relation: string, v: PlaneVerdict)
  {
    && v.schema == schema && v.relation == relation
    && if exists d :: d in ds && d.relation == relation then
         exists i: nat ::
           && IsLatest(ds, Declares(relation), i) && v.plane == ds[i].plane && v.declaredBy == ds[i].declaredBy
           && v.permittedPrincipals == ds[i].permittedPrincipals
           && v.declaredSchema == ds[i].schema && v.schemaMoved == (ds[i].schema != schema)
       else
         exists i: nat ::
           && IsLatest(ss, DeclaresSchema(schema), i) && v.plane == ss[i].plane && v.declaredBy == ss[i].declaredBy
           && v.permittedPrincipals == [] && v.declaredSchema == schema && !v.schemaMoved
  }

  lemma {:induction false} LatestDeclaration(ds: seq<RelationPlane>, relation: string)
    requires relation in IndexBy(ds, RelationName())
    ensures exists i: nat :: IsLatest(ds, Declares(relation), i) && ds[i] == IndexBy(ds, RelationName())[relation]
  {
    LatestIndexed(ds, RelationName(), relation, Declares(relation), IndexBy(ds, RelationName())[relation]);
  }

  lemma {:induction false} LatestSchema(ss: seq<SchemaPlane>, schema: string)
    requires schema in IndexBy(ss, SchemaName())
    ensures exists i: nat :: IsLatest(ss, DeclaresSchema(schema), i) && ss[i] == IndexBy(ss, SchemaName())[schema]
  {
    LatestIndexed(ss, SchemaName(), schema, DeclaresSchema(schema), IndexBy(ss, SchemaName())[schema]);
  }

  /** Plane, declarer, permitted principals and schema of a verdict are those of the declaration that settles it. */
  lemma {:induction false} VerdictSettled(
      ds: seq<RelationPlane>, ss: seq<SchemaPlane>, schema: string, relation: string)
    requires ResolverOver(ds, ss).Resolve(schema, relation).Success?
    ensures Settles(ds, ss, schema, relation, ResolverOver(ds, ss).Resolve(schema, relation).value)
  {
    IndexByKeys(ds, RelationName());
    if relation in IndexBy(ds, RelationName()) {
      LatestDeclaration(ds, relation);
    } else {
      LatestSchema(ss, schema);
    }
  }

  // ----- the declarations a composed module makes

  function TenantDeclaration(m: ComposedModule): string -> RelationPlane {
    (table: string) => RelationPlane(table, TenantPlane, m.schema, "module manifest: " + m.code + ".tables", [])
  }

  function PlatformDeclaration(m: ComposedModule): string -> RelationPlane {
    (table: string) =>
      RelationPlane(table, ControlPlane, m.schema, "module manifest: " + m.code + ".platform_tables",
                    ["platform_api", "app_admin"])
  }

  function ModuleDeclarations(): ComposedModule -> seq<RelationPlane> {
    (m: ComposedModule) => Map(m.tenantTables, TenantDeclaration(m)) + Map(m.platformTables, PlatformDeclaration(m))
  }

  method DeclarationsOf(m: ComposedModule) returns (declarations: seq<RelationPlane>)
    ensures declarations == ModuleDeclarations()(m)
  {
    var tenant, platform: seq<RelationPlane> := [], [];
    for t := 0 to |m.tenantTables|
      invariant tenant == Map(m.tenantTables[..t], TenantDeclaration(m))
    {
      PrefixStep(m.tenantTables, t);
      tenant := tenant + [TenantDeclaration(m)(m.tenantTables[t])];
    }
    assert m.tenantTables[..|m.tenantTables|] == m.tenantTables;
    for t := 0 to |m.platformTables|
      invariant platform == Map(m.platformTables[..t], PlatformDeclaration(m))
    {
      PrefixStep(m.platformTables, t);
      platform := platform + [PlatformDeclaration(m)(m.platformTables[t])];
    }
    assert m.platformTables[..|m.platformTables|] == m.platformTables;
    declarations := tenant + platform;
  }

  method ModuleRelationPlanes(modules: seq<ComposedModule>) returns (declarations: seq<RelationPlane>)
    ensures declarations == Collect(modules, ModuleDeclarations())
  {
    declarations := [];
    for n := 0 to |modules|
      invariant declarations == Collect(modules[..n], ModuleDeclarations())
    {
      PrefixStep(modules, n);
      var found := DeclarationsOf(modules[n]);
      declarations := declarations + found;
    }
    assert modules[..|modules|] == modules;
  }

  lemma {:induction false} ModuleDeclares(m: ComposedModule, d: RelationPlane)
    requires d in ModuleDeclarations()(m)
    ensures if d.plane.TenantPlane? then d.relation in m.tenantTables else d.relation in m.platformTables
    ensures d == if d.plane.TenantPlane? then TenantDeclaration(m)(d.relation) else PlatformDeclaration(m)(d.relation)
  {
    var tenant := Map(m.tenantTables, TenantDeclaration(m));
    var platform := Map(m.platformTables, PlatformDeclaration(m));
    assert d in tenant || d in platform;
  }

  lemma {:induction false} TableIsDeclared(m: ComposedModule, table: string)
    ensures table in m.tenantTables ==> TenantDeclaration(m)(table) in ModuleDeclarations()(m)
    ensures table in m.platformTables ==> PlatformDeclaration(m)(table) in ModuleDeclarations()(m)
  {
    var tenant := Map(m.tenantTables, TenantDeclaration(m));
    var platform := Map(m.platformTables, PlatformDeclaration(m));
    if table in m.tenantTables {
      var i :| 0 <= i < |m.tenantTables| && m.tenantTables[i] == table;
      assert (tenant + platform)[i] == TenantDeclaration(m)(table);
    }
    if table in m.platformTables {
      var i :| 0 <= i < |m.platformTables| && m.platformTables[i] == table;
      assert (tenant + platform)[|tenant| + i] == PlatformDeclaration(m)(table);
    }
  }

  /** The module declares its own tables under its own name: tenant tables for anyone, platform tables for two. */
  ghost predicate DeclaredIn(m: ComposedModule, d: RelationPlane) {
    && d.schema == m.schema
    && if d.plane.TenantPlane? then
         && d.relation in m.tenantTables && d.declaredBy == "module manifest: " + m.code + ".tables"
         && d.permittedPrincipals == []
       else
         && d.relation in m.platformTables && d.declaredBy == "module manifest: " + m.code + ".platform_tables"
         && d.permittedPrincipals == ["platform_api", "app_admin"]
  }

  /** A declaration is made exactly by a module that has the table. */
  lemma {:induction false} DeclarationsExactly(modules: seq<ComposedModule>, d: RelationPlane)
    ensures d in Collect(modules, ModuleDeclarations()) <==> exists m :: m in modules && DeclaredIn(m, d)
  {
    CollectMembers(modules, ModuleDeclarations());
    forall m
      ensures d in ModuleDeclarations()(m) <==> DeclaredIn(m, d)
    {
      if d in ModuleDeclarations()(m) {
        ModuleDeclares(m, d);
      }
      TableIsDeclared(m, d.relation);
    }
  }

  lemma {:induction false} TableOf(modules: seq<ComposedModule>, d: RelationPlane) returns (m: ComposedModule)
    requires d in Collect(modules, ModuleDeclarations())
    ensures m in modules
    ensures if d.plane.TenantPlane? then d.relation in m.tenantTables else d.relation in m.platformTables
  {
    CollectMembers(modules, ModuleDeclarations());
    m :| m in modules && d in ModuleDeclarations()(m);
    ModuleDeclares(m, d);
  }

  lemma {:induction false} DeclarationIn(modules: seq<ComposedModule>, m: ComposedModule, d: RelationPlane)
    requires m in modules && d in ModuleDeclarations()(m)
    ensures d in Collect(modules, ModuleDeclarations())
  {
    CollectMembers(modules, ModuleDeclarations());
  }

  ghost predicate OnBothHalves(modules: seq<ComposedModule>, table: string) {
    (exists a :: a in modules && table in a.tenantTables) && (exists b :: b in modules && table in b.platformTables)
  }

  /** The module half of the resolver can be built exactly when no table name is on both halves. */
  lemma {:induction false} ModulesAgree(modules: seq<ComposedModule>)
    ensures Disagree(Collect(modules, ModuleDeclarations())) <==> exists table :: OnBothHalves(modules, table)
  {
    var ds := Collect(modules, ModuleDeclarations());
    if Disagree(ds) {
      var x, y :| x in ds && y in ds && x.relation == y.relation && x.plane != y.plane;
      var a := TableOf(modules, x);
      var b := TableOf(modules, y);
      assert OnBothHalves(modules, x.relation);
    }
    if table :| OnBothHalves(modules, table) {
      var a :| a in modules && table in a.tenantTables;
      var b :| b in modules && table in b.platformTables;
      TableIsDeclared(a, table);
      TableIsDeclared(b, table);
      DeclarationIn(modules, a, TenantDeclaration(a)(table));
      DeclarationIn(modules, b, PlatformDeclaration(b)(table));
    }
  }
}
