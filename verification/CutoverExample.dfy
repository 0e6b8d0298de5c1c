/**
 One cutover that goes through (app/privilege_manifest.py): a census, a database
 and an observation that meet every condition of the end-to-end result.
 */
module CutoverExample {
  import opened Collections
  import opened PersistencePlanes
  import opened PrivilegeManifest
  import opened CutoverGuard
  import opened GuardExactness
  import opened CleanSnapshots
  import opened Signatures
  import opened ManifestGenerator
  import opened GeneratorFacts
  import opened ManifestContents
  import opened GrantScript
  import opened CutoverEndToEnd

  // ----- a small database

  /** A granted row, a denied relation and a denied function, and one privilege that stays preserved. */
  datatype Case = Case(
    source: string, target: string, runner: string, grant: GrantRow, denial: GrantRow, routine: GrantRow,
    preserved: string, scope: string)

  ghost predicate Sound(x: Case) {
    && x.source != x.target && x.source != x.runner && x.target != x.runner
    && PUBLIC_PSEUDO_ROLE !in {x.source, x.target, x.runner} && x.runner != NO_RUNTIME_EXECUTOR
    && x.grant.disposition.Grant? && x.denial.disposition.Denied? && x.routine.disposition.Denied?
    && x.denial.objectKind == KIND_RELATION && x.routine.objectKind == KIND_FUNCTION && KIND_RELATION != KIND_FUNCTION
    && x.grant.targetRole == x.target && x.routine.privilege == "EXECUTE"
    && x.grant.identity != x.denial.identity && x.grant.identity != x.routine.identity
    && x.denial.identity != x.routine.identity
    && x.preserved != x.grant.identity && x.preserved != x.denial.identity && x.preserved != x.routine.identity
    && !InModuleStorage(x.grant.identity) && !InModuleStorage(x.denial.identity) && !InModuleStorage(x.routine.identity)
    && IdentitySchema(x.preserved) == Some(x.scope)
  }

  /** All that the conditions ask about the manifest. */
  ghost predicate Describes(m: Manifest, x: Case) {
    && m.sourceRole == x.source && m.targetRole == x.target && PreservedScopes(m) == map[x.scope := 1]
    && forall row :: row in m.rows <==> row == x.grant || row == x.denial || row == x.routine
  }

  function Database(x: Case): World {
    World({Held(x.source, x.grant.identity, x.grant.privilege), Held(x.source, x.denial.identity, x.denial.privilege),
           Held(x.source, x.routine.identity, "EXECUTE"), Held(x.runner, x.routine.identity, "EXECUTE"),
           Held(x.target, x.preserved, "SELECT")},
          {}, {ObservedPosture(x.target, false, false)}, {})
  }

  function Seen(row: GrantRow): ObservedObject {
    ObservedObject(row.identity, true, row.objectKind, row.owner, row.relkind, row.identity, 1)
  }

  function DeniedTable(x: Case): string -> ObservedPrivilege {
    (p: string) => ObservedPrivilege(x.denial.identity, x.target, p, false, "")
  }

  function DeniedColumns(x: Case): string -> ObservedColumnGrant {
    (p: string) => ObservedColumnGrant(x.denial.identity, x.target, p, [], 1)
  }

  function Observation(x: Case): Snapshot {
    Snapshot(
      [Seen(x.grant), Seen(x.denial), Seen(x.routine)],
      [ObservedPrivilege(x.grant.identity, x.target, x.grant.privilege, true, DIRECT_ORIGIN),
       ObservedPrivilege(x.preserved, x.target, "SELECT", true, DIRECT_ORIGIN)],
      [ObservedPosture(x.target, false, false)], [], [],
      Map(DENIED_TABLE_PRIVILEGES, DeniedTable(x)), Map(COLUMN_LEVEL_PRIVILEGES, DeniedColumns(x)),
      [ObservedExecute(x.routine.identity, x.target, false, true, true),
       ObservedExecute(x.routine.identity, PUBLIC_PSEUDO_ROLE, false, true, true),
       ObservedExecute(x.routine.identity, x.runner, true, true, true)])
  }

  lemma {:induction false} Denials(m: Manifest, x: Case)
    requires Sound(x) && Describes(m, x)
    ensures DeniedIdentities(m) == {x.denial.identity, x.routine.identity}
    ensures forall key :: key in DeniedRelationKeys(m) <==> key == Single(x.denial.identity)
    ensures forall row :: row in DeniedFunctions(m) <==> row == x.routine
  {
    assert x.denial in m.rows && x.routine in m.rows;
    assert Single(x.denial.identity) in DeniedRelationKeys(m);
  }

  lemma {:induction false} StartKeepsDenials(m: Manifest, x: Case, c: Contract)
    requires Sound(x) && Describes(m, x) && c.executors == map[x.routine.identity := x.runner]
    ensures DenialsKept(c, m, Database(x))
  {
    Denials(m, x);
  }

  lemma {:induction false} StartKeepsRoles(m: Manifest, x: Case, c: Contract)
    requires Sound(x) && Describes(m, x)
    ensures RolesKept(c, m, Database(x))
  {
  }

  lemma {:induction false} OneInTheGap(m: Manifest, x: Case)
    requires Sound(x) && Describes(m, x)
    ensures GapRecorded(m, Database(x).acl)
  {
    var held := Held(x.target, x.preserved, "SELECT");
    assert forall h :: h in Database(x).acl && h.role == x.target <==> h == held;
    assert GapIn(Database(x).acl, m, x.scope) == {Pair(x.preserved, "SELECT")};
  }

  lemma {:induction false} RoutineRows(m: Manifest, x: Case)
    requires Sound(x) && Describes(m, x)
    ensures forall row :: row in Routine(m) <==> row == x.grant
    ensures RunsRoutine(m, Routine(m))
  {
  }

  lemma {:induction false} AppliedOnce(acl: Acl, rows: seq<GrantRow>, row: GrantRow)
    requires forall other :: other in rows <==> other == row
    ensures ApplyGrants(acl, rows) == acl + {Granted(row)}
  {
    AppliedExactly(acl, rows);
    assert (set other | other in rows :: Granted(other)) == {Granted(row)};
  }

  function Afterwards(x: Case): Acl { Database(x).acl + {Held(x.target, x.grant.identity, x.grant.privilege)} }

  lemma {:induction false} GrantedOnce(m: Manifest, x: Case)
    requires Sound(x) && Describes(m, x)
    ensures RunsRoutine(m, Routine(m)) && ApplyGrants(Database(x).acl, Routine(m)) == Afterwards(x)
  {
    RoutineRows(m, x);
    AppliedOnce(Database(x).acl, Routine(m), x.grant);
  }

  // ----- what is observed of it

  lemma {:induction false} LastOfThree<T, K>(a: T, b: T, c: T, key: T -> K)
    requires key(a) != key(b) && key(a) != key(c) && key(b) != key(c)
    ensures LastBy([a, b, c], key, key(a)) == Some(a)
    ensures LastBy([a, b, c], key, key(b)) == Some(b)
    ensures LastBy([a, b, c], key, key(c)) == Some(c)
  {
    assert [a, b, c][..2] == [a, b] && [a, b][..1] == [a];
    assert LastBy([a], key, key(a)) == Some(a) && LastBy([a, b], key, key(b)) == Some(b);
    assert LastBy([a, b], key, key(a)) == LastBy([a], key, key(a));
    assert LastBy([a, b, c], key, key(a)) == LastBy([a, b], key, key(a));
    assert LastBy([a, b, c], key, key(b)) == LastBy([a, b], key, key(b));
  }

  lemma {:induction false} ObjectsSeen(m: Manifest, x: Case)
    requires Sound(x) && Describes(m, x)
    ensures ObjectsAsRecorded(m, Observation(x))
  {
    LastOfThree(Seen(x.grant), Seen(x.denial), Seen(x.routine), ObjectKey());
  }

  /** The answers cover what is granted and what is preserved, and nothing else. */
  lemma {:induction false} AnswersOf(x: Case, e: ObservedPrivilege)
    requires e in Observation(x).privileges
    ensures e.role == x.target && e.held && e.origin == DIRECT_ORIGIN
    ensures Held(x.target, e.identity, e.privilege) in Afterwards(x)
    ensures (e.identity == x.grant.identity && e.privilege == x.grant.privilege)
            || (e.identity == x.preserved && e.privilege == "SELECT")
  {
  }

  lemma {:induction false} AllAsked(m: Manifest, x: Case)
    requires m.targetRole == x.target
    ensures Asked(m, Observation(x), x.grant.identity, x.grant.privilege)
            && Asked(m, Observation(x), x.preserved, "SELECT")
  {
    var s := Observation(x);
    assert s.privileges[0] in s.privileges && s.privileges[1] in s.privileges;
  }

  lemma {:induction false} OnlyPreserved(x: Case, h: Held)
    requires Sound(x) && h.role == x.target
    ensures h in Database(x).acl <==> h == Held(x.target, x.preserved, "SELECT")
    ensures Held(x.source, x.preserved, "SELECT") !in Database(x).acl
  {
  }

  lemma {:induction false} PrivilegesSeen(m: Manifest, x: Case)
    requires Sound(x) && Describes(m, x)
    ensures PrivilegesObserved(m, Database(x).acl, Afterwards(x), Observation(x))
  {
    AllAsked(m, x);
    forall h: Held | h in Database(x).acl && h.role == x.target
      ensures Asked(m, Observation(x), h.identity, h.privilege)
    {
      OnlyPreserved(x, h);
    }
    OnlyPreserved(x, Held(x.target, x.preserved, "SELECT"));
    assert x.grant in m.rows;
    forall e | e in Observation(x).privileges
      ensures e.role == x.target && e.held && e.origin == DIRECT_ORIGIN
      ensures Held(x.target, e.identity, e.privilege) in Afterwards(x)
      ensures (e.identity == x.grant.identity && e.privilege == x.grant.privilege)
              || (e.identity == x.preserved && e.privilege == "SELECT")
    {
      AnswersOf(x, e);
    }
  }

  lemma {:induction false} DenialsSeen(m: Manifest, x: Case, w: World)
    requires Sound(x) && Describes(m, x) && forall p :: Held(x.target, x.denial.identity, p) !in w.acl
    ensures DenialsObserved(m, w, Observation(x))
  {
    var s := Observation(x);
    Denials(m, x);
    forall p | p in DENIED_TABLE_PRIVILEGES
      ensures exists e :: e in s.deniedPrivileges && OfTarget(m)(e) && PrivilegeKey()(e) == Pair(x.denial.identity, p)
    {
      var i :| 0 <= i < |DENIED_TABLE_PRIVILEGES| && DENIED_TABLE_PRIVILEGES[i] == p;
      assert s.deniedPrivileges[i] == DeniedTable(x)(p);
      assert DeniedTable(x)(p) in s.deniedPrivileges;
    }
    forall p | p in COLUMN_LEVEL_PRIVILEGES
      ensures exists e ::
                e in s.deniedColumnGrants && ColumnsOfTarget(m)(e) && ColumnKey()(e) == Pair(x.denial.identity, p)
    {
      var i :| 0 <= i < |COLUMN_LEVEL_PRIVILEGES| && COLUMN_LEVEL_PRIVILEGES[i] == p;
      assert s.deniedColumnGrants[i] == DeniedColumns(x)(p);
      assert DeniedColumns(x)(p) in s.deniedColumnGrants;
    }
  }

  lemma {:induction false} ExecuteAnswersOf(x: Case, e: ObservedExecute)
    requires Sound(x) && e in Observation(x).deniedFunctionExecute
    ensures e.probed && e.effective && e.identity == x.routine.identity && e.held == (e.role == x.runner)
    ensures e.role in {x.target, PUBLIC_PSEUDO_ROLE, x.runner}
  {
  }

  lemma {:induction false} CanExecuteOf(x: Case, role: string)
    requires Sound(x) && role in {x.target, PUBLIC_PSEUDO_ROLE, x.runner}
    ensures CanExecute(Afterwards(x), role, x.routine.identity) <==> role == x.runner
  {
  }

  lemma {:induction false} ExecuteAsked(m: Manifest, x: Case, role: string)
    requires m.targetRole == x.target && role in WantedRoles(m, x.runner)
    ensures exists e :: e in Observation(x).deniedFunctionExecute && ExecuteKey()(e) == Pair(x.routine.identity, role)
  {
    var es := Observation(x).deniedFunctionExecute;
    WantedMembers(m, x.runner, role);
    assert es[0] in es && es[1] in es && es[2] in es;
    assert ExecuteKey()(es[0]) == Pair(x.routine.identity, x.target);
    assert ExecuteKey()(es[1]) == Pair(x.routine.identity, PUBLIC_PSEUDO_ROLE);
    assert ExecuteKey()(es[2]) == Pair(x.routine.identity, x.runner);
  }

  lemma {:induction false} ExecuteSeen(m: Manifest, x: Case, c: Contract)
    requires Sound(x) && Describes(m, x) && c.executors == map[x.routine.identity := x.runner]
    ensures ExecuteObserved(c, m, Afterwards(x), Observation(x))
  {
    Denials(m, x);
    forall row, role | row in DeniedFunctions(m) && row.identity in c.executors
                       && role in WantedRoles(m, c.executors[row.identity])
      ensures exists e :: e in Observation(x).deniedFunctionExecute && ExecuteKey()(e) == Pair(row.identity, role)
    {
      ExecuteAsked(m, x, role);
    }
    forall e | e in Observation(x).deniedFunctionExecute
      ensures e.probed && e.effective && (e.held <==> CanExecute(Afterwards(x), e.role, e.identity))
    {
      ExecuteAnswersOf(x, e);
      CanExecuteOf(x, e.role);
    }
  }

  lemma {:induction false} SeenFaithfully(m: Manifest, x: Case, c: Contract)
    requires Sound(x) && Describes(m, x) && c.executors == map[x.routine.identity := x.runner]
    ensures Faithful(c, m, Database(x).acl, Database(x).(acl := Afterwards(x)), Observation(x))
  {
    ObjectsSeen(m, x);
    PrivilegesSeen(m, x);
    NeverGranted(x);
    DenialsSeen(m, x, Database(x).(acl := Afterwards(x)));
    ExecuteSeen(m, x, c);
    RolesSeen(m, x);
  }

  lemma {:induction false} NeverGranted(x: Case)
    requires Sound(x)
    ensures forall p :: Held(x.target, x.denial.identity, p) !in Afterwards(x)
  {
  }

  lemma {:induction false} RolesSeen(m: Manifest, x: Case)
    ensures RolesObserved(m, Database(x).(acl := Afterwards(x)), Observation(x))
  {
  }

  // ----- a census of it

  const OLD: string := "app_old"
  const NEW: string := "app_new"
  const RUNNER: string := "runner"
  const OWNER: string := "owner"

  function Invoices(): string { RelationIdentity("app", "invoices") }

  function Tenants(): string { RelationIdentity("app", "tenants") }

  function Purge(): string { FunctionIdentity("app", "purge", "") }

  function Kept(): string { RelationIdentity("lib", "kept") }

  /** A tenant table, a control-plane table and a function, all of one schema; one privilege stays preserved. */
  function ExampleCensus(): Census {
    Census(Provenance("", "", "", ""), OLD, NEW, [],
           [CensusRelation("app", "invoices", "r", "SELECT", OWNER, true),
            CensusRelation("app", "tenants", "r", "SELECT", OWNER, true)],
           [], [CensusFunction("app", "purge()", true, OWNER)], [ReverseGap("lib", 1)])
  }

  function ExampleSources(): Sources {
    Sources(
      Contract(map[], map[], map[Purge() := RUNNER], {}, {"app"}),
      PlaneResolver(map["invoices" := RelationPlane("invoices", TenantPlane, "app", "", []),
                        "tenants" := RelationPlane("tenants", ControlPlane, "app", "", [])], map[]),
      {})
  }

  function InvoicesRow(): GrantRow {
    GrantRow(SECTION_RELATIONS, KIND_RELATION, Invoices(), "app", "invoices", "SELECT", OLD, NEW, OWNER, Grant,
             "r", "", Some(TenantPlane), "", [])
  }

  function TenantsRow(): GrantRow {
    GrantRow(SECTION_CONTROL_PLANE, KIND_RELATION, Tenants(), "app", "tenants", "SELECT", OLD, NEW, OWNER, Denied,
             "r", "", Some(ControlPlane), "", [])
  }

  function PurgeRow(): GrantRow {
    GrantRow(SECTION_FUNCTIONS, KIND_FUNCTION, Purge(), "app", "purge", "EXECUTE", OLD, NEW, OWNER, Denied,
             "", "", None, "", [RUNNER])
  }

  function Example(): Case {
    Case(OLD, NEW, RUNNER, InvoicesRow(), TenantsRow(), PurgeRow(), Kept(), "lib")
  }

  // ----- names

  lemma {:induction false} NamesApart()
    ensures Invoices() != Tenants() && Invoices() != Purge() && Tenants() != Purge()
    ensures Kept() != Invoices() && Kept() != Tenants() && Kept() != Purge()
  {
    assert Invoices()[13] == 'i' && Tenants()[13] == 't' && Invoices()[0] == 'r' && Purge()[0] == 'f';
    assert Tenants()[0] == 'r' && Kept()[0] == 'r' && Kept()[9] == 'l' && Invoices()[9] == 'a' && Tenants()[9] == 'a';
  }

  lemma {:induction false} RolesApart()
    ensures OLD != NEW && OLD != RUNNER && NEW != RUNNER
    ensures PUBLIC_PSEUDO_ROLE !in {OLD, NEW, RUNNER} && RUNNER != NO_RUNTIME_EXECUTOR
    ensures KIND_RELATION != KIND_FUNCTION
  {
    assert OLD[0] == NEW[0] == 'a' && OLD[4] == 'o' && NEW[4] == 'n' && RUNNER[0] == 'r'
           && PUBLIC_PSEUDO_ROLE[0] == 'P';
    assert KIND_RELATION[0] == 'r' && KIND_FUNCTION[0] == 'f';
  }

  lemma {:induction false} RelationSchema(schema: string, name: string)
    requires PlainSchema(schema)
    ensures IdentitySchema(RelationIdentity(schema, name)) == Some(schema)
  {
    assert "relation:" == "relation" + ":";
    SchemaOfIdentity("relation", schema, name);
  }

  lemma {:induction false} FunctionSchema(schema: string, name: string)
    requires PlainSchema(schema)
    ensures IdentitySchema(FunctionIdentity(schema, name, "")) == Some(schema)
  {
    assert "function:" == "function" + ":";
    SchemaOfIdentity("function", schema, name + "()");
    assert FunctionIdentity(schema, name, "") == "function:" + schema + "." + (name + "()");
  }

  lemma {:induction false} SchemasOf()
    ensures IdentitySchema(Invoices()) == IdentitySchema(Tenants()) == IdentitySchema(Purge()) == Some("app")
    ensures IdentitySchema(Kept()) == Some("lib")
  {
    RelationSchema("app", "invoices");
    RelationSchema("app", "tenants");
    RelationSchema("lib", "kept");
    FunctionSchema("app", "purge");
  }

  // ----- the manifest

  lemma {:induction false} PurgeParses()
    ensures ParseSignature({}, "purge()") == Success(("purge", ""))
  {
    assert "purge" + "(" + "" + ")" == "purge()";
    ParsesAs({}, "purge", "");
  }

  /** A census of two relations and one function. */
  ghost predicate Lists(c: Census, a: CensusRelation, b: CensusRelation, f: CensusFunction) {
    c.schemas == [] && c.relations == [a, b] && c.sequences == [] && c.functions == [f]
  }

  lemma {:induction false} ListedImages(
      c: Census, s: Sources, a: CensusRelation, b: CensusRelation, f: CensusFunction, row: GrantRow)
    requires Lists(c, a, b, f)
    ensures IsImage(c, s, row) <==>
            row == RelationImage(c, s)(a) || row == RelationImage(c, s)(b) || row == FunctionImage(c, s)(f)
  {
    assert c.relations[0] in c.relations && c.relations[1] in c.relations && c.functions[0] in c.functions;
  }

  lemma {:induction false} ListedAccepted(
      c: Census, s: Sources, a: CensusRelation, b: CensusRelation, f: CensusFunction)
    requires Lists(c, a, b, f) && a.directGrant && b.directGrant && a.name != b.name && FunctionAccepted(s, f)
    requires s.resolver.Resolve(a.schema, a.name).Success? && s.resolver.Resolve(b.schema, b.name).Success?
    requires a.schema in s.contract.settledSchemas && b.schema in s.contract.settledSchemas
    ensures Accepted(c, s)
  {
    assert Unsettled(c, s) == {};
  }

  lemma {:induction false} InvoicesImage()
    ensures RelationImage(ExampleCensus(), ExampleSources())(ExampleCensus().relations[0]) == InvoicesRow()
    ensures ExampleSources().resolver.Resolve("app", "invoices").Success?
  {
  }

  lemma {:induction false} TenantsImage()
    ensures RelationImage(ExampleCensus(), ExampleSources())(ExampleCensus().relations[1]) == TenantsRow()
    ensures ExampleSources().resolver.Resolve("app", "tenants").Success?
  {
  }

  lemma {:induction false} PurgeImage()
    ensures FunctionImage(ExampleCensus(), ExampleSources())(ExampleCensus().functions[0]) == PurgeRow()
    ensures FunctionAccepted(ExampleSources(), ExampleCensus().functions[0])
  {
    PurgeParses();
  }

  lemma {:induction false} ExampleImages(row: GrantRow)
    ensures Accepted(ExampleCensus(), ExampleSources())
    ensures IsImage(ExampleCensus(), ExampleSources(), row) <==>
            row == InvoicesRow() || row == TenantsRow() || row == PurgeRow()
  {
    var c, s := ExampleCensus(), ExampleSources();
    InvoicesImage();
    TenantsImage();
    PurgeImage();
    assert c.relations[0].name[0] == 'i' && c.relations[1].name[0] == 't';
    ListedImages(c, s, c.relations[0], c.relations[1], c.functions[0], row);
    ListedAccepted(c, s, c.relations[0], c.relations[1], c.functions[0]);
  }

  lemma {:induction false} OneExclusion(c: Census, gap: ReverseGap)
    requires c.reverseGap == [gap]
    ensures Exclusions(c) == [GapExclusion()(gap)]
  {
    SortBySame([gap], GapOrder());
  }

  lemma {:induction false} OneScope(m: Manifest, e: ExclusionRow)
    requires m.exclusions == [e] && IsPreserved()(e)
    ensures PreservedScopes(m) == map[e.scope := e.privileges]
  {
    assert [e][..0] == [];
    FilterAll([e], IsPreserved());
    assert IndexBy([e], ScopeKey()) == map[e.scope := e];
  }

  lemma {:induction false} ExampleGenerated() returns (m: Manifest)
    ensures Generate(ExampleCensus(), ExampleSources()) == Success(m) && Describes(m, Example())
  {
    var c, s := ExampleCensus(), ExampleSources();
    ExampleImages(InvoicesRow());
    AcceptanceExact(c, s);
    m := Generate(c, s).value;
    OneExclusion(c, ReverseGap("lib", 1));
    OneScope(m, GapExclusion()(ReverseGap("lib", 1)));
    forall row
      ensures row in m.rows <==> row == InvoicesRow() || row == TenantsRow() || row == PurgeRow()
    {
      RowsAreImages(c, s, m.rows, row);
      ExampleImages(row);
    }
  }

  lemma {:induction false} ExampleIsSound()
    ensures Sound(Example())
  {
    NamesApart();
    RolesApart();
    SchemasOf();
    assert MODULE_SCHEMA_PREFIX[0] == 'm' && "app"[0] == 'a';
  }

  lemma {:induction false} ListedOf(c: Census, s: Sources, x: Case, identity: string, privilege: string)
    requires Accepted(c, s)
    requires forall row :: IsImage(c, s, row) <==> row == x.grant || row == x.denial || row == x.routine
    ensures Names(c, s.knownTypes, identity, privilege) <==>
            || (identity == x.grant.identity && privilege == x.grant.privilege)
            || (identity == x.denial.identity && privilege == x.denial.privilege)
            || (identity == x.routine.identity && privilege == x.routine.privilege)
  {
    if Names(c, s.knownTypes, identity, privilege) {
      var row := NamedHasImage(c, s, identity, privilege);
    }
    ImageNames(c, s, x.grant);
    ImageNames(c, s, x.denial);
    ImageNames(c, s, x.routine);
  }

  lemma {:induction false} SourceHolds(x: Case, identity: string, privilege: string)
    requires Sound(x)
    ensures Held(x.source, identity, privilege) in Database(x).acl
            && Held(x.target, identity, privilege) !in Database(x).acl
            <==>
            || (identity == x.grant.identity && privilege == x.grant.privilege)
            || (identity == x.denial.identity && privilege == x.denial.privilege)
            || (identity == x.routine.identity && privilege == x.routine.privilege)
  {
  }

  lemma {:induction false} DeltaOf(c: Census, s: Sources, x: Case)
    requires Sound(x) && c.sourceRole == x.source && c.targetRole == x.target && Accepted(c, s)
    requires forall row :: IsImage(c, s, row) <==> row == x.grant || row == x.denial || row == x.routine
    ensures ExactDelta(Database(x).acl, c, s)
  {
    forall identity, privilege
      ensures Names(c, s.knownTypes, identity, privilege) <==>
              Held(c.sourceRole, identity, privilege) in Database(x).acl
              && Held(c.targetRole, identity, privilege) !in Database(x).acl
    {
      ListedOf(c, s, x, identity, privilege);
      SourceHolds(x, identity, privilege);
    }
  }

  lemma {:induction false} ExampleDelta()
    ensures ExactDelta(Database(Example()).acl, ExampleCensus(), ExampleSources())
  {
    ExampleIsSound();
    ExampleImages(InvoicesRow());
    forall row
      ensures IsImage(ExampleCensus(), ExampleSources(), row) <==>
              row == InvoicesRow() || row == TenantsRow() || row == PurgeRow()
    {
      ExampleImages(row);
    }
    DeltaOf(ExampleCensus(), ExampleSources(), Example());
  }

  /** The conditions of the end-to-end result, for a run of the routine rows in the manifest's order. */
  ghost predicate GoesThrough(c: Census, s: Sources, m: Manifest, w: World, o: Snapshot) {
    && Generate(c, s) == Success(m) && PlainCensus(c) && ExactDelta(w.acl, c, s) && RunsRoutine(m, Routine(m))
    && DenialsKept(s.contract, m, w) && RolesKept(s.contract, m, w) && GapRecorded(m, w.acl)
    && Faithful(s.contract, m, w.acl, w.(acl := ApplyGrants(w.acl, Routine(m))), o)
  }

  lemma {:induction false} CaseGoesThrough(c: Census, s: Sources, m: Manifest, x: Case)
    requires Sound(x) && Describes(m, x) && s.contract.executors == map[x.routine.identity := x.runner]
    requires Generate(c, s) == Success(m) && PlainCensus(c) && ExactDelta(Database(x).acl, c, s)
    ensures GoesThrough(c, s, m, Database(x), Observation(x))
  {
    StartKeepsDenials(m, x, s.contract);
    StartKeepsRoles(m, x, s.contract);
    OneInTheGap(m, x);
    GrantedOnce(m, x);
    SeenFaithfully(m, x, s.contract);
  }

  lemma {:induction false} NothingMissing(m: Manifest, x: Case)
    requires Sound(x) && Describes(m, x)
    ensures Routine(m) != [] && DeniedRelationKeys(m) != {} && DeniedFunctions(m) != [] && PreservedScopes(m) != map[]
  {
    RoutineRows(m, x);
    Denials(m, x);
    assert x.grant in Routine(m);
    assert x.routine in DeniedFunctions(m);
    assert Single(x.denial.identity) in DeniedRelationKeys(m);
    assert x.scope in PreservedScopes(m);
  }

  lemma {:induction false} ThenAccepted(c: Census, s: Sources, m: Manifest, w: World, o: Snapshot)
    requires GoesThrough(c, s, m, w, o)
    ensures CutoverRefusals(s.contract, m, o) == Success(BaselineRefusals(s.contract, m))
  {
    CutoverIsAccepted(c, s, m, w, Routine(m), o);
  }

  lemma {:induction false} ExampleIsPlain()
    ensures PlainCensus(ExampleCensus())
    ensures ExampleSources().contract.executors == map[Example().routine.identity := Example().runner]
  {
    assert "app"[0] == 'a' && "app"[1] == 'p' && "app"[2] == 'p';
  }

  /** The census of the example, with the manifest it gives, for the case it describes. */
  ghost predicate Generates(c: Census, s: Sources, m: Manifest, x: Case) {
    && Sound(x) && Describes(m, x) && s.contract.executors == map[x.routine.identity := x.runner]
    && Generate(c, s) == Success(m) && PlainCensus(c) && ExactDelta(Database(x).acl, c, s)
  }

  lemma {:induction false} ExampleGenerates() returns (c: Census, s: Sources, m: Manifest, x: Case)
    ensures Generates(c, s, m, x)
  {
    c, s, x := ExampleCensus(), ExampleSources(), Example();
    m := ExampleGenerated();
    ExampleIsSound();
    ExampleIsPlain();
    ExampleDelta();
  }

  /** Every condition of the end-to-end result is met at once, with a grant, two denials and a preserved privilege. */
  lemma {:induction false} CutoverCanSucceed() returns (c: Census, s: Sources, m: Manifest, w: World, o: Snapshot)
    ensures GoesThrough(c, s, m, w, o)
    ensures Routine(m) != [] && DeniedRelationKeys(m) != {} && DeniedFunctions(m) != [] && PreservedScopes(m) != map[]
    ensures CutoverRefusals(s.contract, m, o) == Success(BaselineRefusals(s.contract, m))
  {
    var x;
    c, s, m, x := ExampleGenerates();
    w, o := Database(x), Observation(x);
    CaseGoesThrough(c, s, m, x);
    NothingMissing(m, x);
    ThenAccepted(c, s, m, w, o);
  }
}
