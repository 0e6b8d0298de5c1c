/**
 End to end (app/privilege_manifest.py): take a census of the exact difference,
 generate, run the grants, observe faithfully, and the guard has nothing to say
 beyond the baseline counts.
 */
module CutoverEndToEnd {
  import opened Collections
  import opened PersistencePlanes
  import opened PrivilegeManifest
  import opened CutoverGuard
  import opened GuardExactness
  import opened CleanSnapshots
  import opened Signatures
  import opened ManifestGenerator
  import opened GeneratorFacts
  import opened ManifestContents
  import opened GrantScript
  import opened ManifestPayload

  // ----- identities of generated rows

  ghost predicate PlainCensus(c: Census) {
    && (forall e :: e in c.relations ==> PlainSchema(e.schema))
    && (forall e :: e in c.sequences ==> PlainSchema(e.schema))
  }

  lemma {:induction false} KindOfIdentity(kind: string, rest: string)
    requires ':' !in kind
    ensures Before(kind + ":" + rest, ':') == kind && After(kind + ":" + rest, ':') == rest
  {
    assert kind + ":" + rest == kind + [':'] + rest;
    BeforeFirst(kind, ':', rest);
    AfterFirst(kind, ':', rest);
  }

  lemma {:induction false} QualifiedParts(kind: string, schema: string, name: string)
    requires ':' !in kind && PlainSchema(schema)
    ensures var identity := kind + ":" + schema + "." + name;
            && Before(identity, ':') == kind
            && Before(After(identity, ':'), '.') == schema && After(After(identity, ':'), '.') == name
  {
    var rest := schema + "." + name;
    assert kind + ":" + schema + "." + name == kind + ":" + rest && rest == schema + ['.'] + name;
    KindOfIdentity(kind, rest);
    BeforeFirst(schema, '.', name);
    AfterFirst(schema, '.', name);
  }

  /** With no dot in a schema name a relation's identity gives schema and name back. */
  lemma {:induction false} RelationParts(schema: string, name: string)
    requires PlainSchema(schema)
    ensures var identity := RelationIdentity(schema, name);
            && Before(identity, ':') == KIND_RELATION
            && Before(After(identity, ':'), '.') == schema && After(After(identity, ':'), '.') == name
  {
    assert "relation:" == KIND_RELATION + ":";
    QualifiedParts(KIND_RELATION, schema, name);
  }

  /** The identity begins with the row's kind, and the row's own statement names it. */
  ghost predicate Proper(row: GrantRow) { Before(row.identity, ':') == row.objectKind && NamesItself(row) }

  lemma {:induction false} UsageProper(c: Census, schema: string)
    ensures Proper(UsageRow(c, schema))
  {
    assert SchemaIdentity(schema) == KIND_SCHEMA + ":" + schema;
    KindOfIdentity(KIND_SCHEMA, schema);
  }

  lemma {:induction false} RelationProper(c: Census, kind: string, verdict: PlaneVerdict, e: CensusRelation)
    ensures Proper(RelationRow(c, kind, verdict, e))
  {
    KindsApart();
    assert RelationIdentity(e.schema, e.name) == KIND_RELATION + ":" + (e.schema + "." + e.name);
    KindOfIdentity(KIND_RELATION, e.schema + "." + e.name);
  }

  lemma {:induction false} SequenceProper(c: Census, verdict: PlaneVerdict, e: CensusSequence)
    ensures Proper(SequenceRow(c, verdict, e))
  {
    KindsApart();
    assert SequenceIdentity(e.schema, e.name) == KIND_SEQUENCE + ":" + (e.schema + "." + e.name);
    KindOfIdentity(KIND_SEQUENCE, e.schema + "." + e.name);
  }

  lemma {:induction false} FunctionProper(
      c: Census, e: CensusFunction, name: string, arguments: string, executor: string)
    ensures Proper(FunctionRow(c, e, name, arguments, executor))
  {
    KindsApart();
    var rest := e.schema + "." + name + "(" + arguments + ")";
    assert FunctionIdentity(e.schema, name, arguments) == KIND_FUNCTION + ":" + rest;
    KindOfIdentity(KIND_FUNCTION, rest);
  }

  lemma {:induction false} RelationImageProper(c: Census, s: Sources, e: CensusRelation)
    ensures Proper(RelationImage(c, s)(e))
  {
    var verdict := s.resolver.Resolve(e.schema, e.name);
    if verdict.Success? {
      RelationProper(c, e.kind, verdict.value, e);
    } else {
      UsageProper(c, e.schema);
    }
  }

  lemma {:induction false} SequenceImageProper(c: Census, s: Sources, e: CensusSequence)
    ensures Proper(SequenceImage(c, s)(e))
  {
    var verdict := s.resolver.Resolve(e.schema, e.name);
    if verdict.Success? {
      SequenceProper(c, verdict.value, e);
    } else {
      UsageProper(c, e.schema);
    }
  }

  lemma {:induction false} FunctionImageProper(c: Census, s: Sources, e: CensusFunction)
    ensures Proper(FunctionImage(c, s)(e))
  {
    var parsed := ParseSignature(s.knownTypes, e.signature);
    if parsed.Success? {
      var identity := FunctionIdentity(e.schema, parsed.value.0, parsed.value.1);
      FunctionProper(c, e, parsed.value.0, parsed.value.1,
                     if identity in s.contract.executors then s.contract.executors[identity] else NO_RUNTIME_EXECUTOR);
    } else {
      UsageProper(c, e.schema);
    }
  }

  lemma {:induction false} ImageProper(c: Census, s: Sources, row: GrantRow)
    requires IsImage(c, s, row)
    ensures Proper(row)
  {
    if schema :| schema in c.schemas && row == UsageRow(c, schema) {
      UsageProper(c, schema);
    } else if e :| e in c.relations && row == RelationImage(c, s)(e) {
      RelationImageProper(c, s, e);
    } else if e :| e in c.sequences && row == SequenceImage(c, s)(e) {
      SequenceImageProper(c, s, e);
    } else {
      var e :| e in c.functions && row == FunctionImage(c, s)(e);
      FunctionImageProper(c, s, e);
    }
  }

  lemma {:induction false} RelationRowShape(c: Census, s: Sources, row: GrantRow)
    requires IsImage(c, s, row) && Accepted(c, s) && row.objectKind == KIND_RELATION
    ensures exists e :: e in c.relations && row == RelationImage(c, s)(e)
    ensures row.identity == RelationIdentity(row.schema, row.objectName)
  {
    KindsApart();
    assert forall e :: e in c.sequences ==> SequenceAccepted(s, e);
    assert forall e :: e in c.functions ==> FunctionAccepted(s, e);
    ImageProper(c, s, row);
  }

  /** In the census of plainly named schemas no identity is both granted and denied. */
  lemma {:induction false} GeneratedDispositions(c: Census, s: Sources, m: Manifest)
    requires Generate(c, s) == Success(m) && PlainCensus(c)
    ensures OneDispositionPerIdentity(m)
  {
    AcceptanceExact(c, s);
    forall a, b | a in m.rows && b in m.rows && a.identity == b.identity
      ensures a.disposition == b.disposition
    {
      SameDisposition(c, s, m, a, b);
    }
  }

  lemma {:induction false} SameDisposition(c: Census, s: Sources, m: Manifest, a: GrantRow, b: GrantRow)
    requires Generate(c, s) == Success(m) && Accepted(c, s) && PlainCensus(c)
    requires a in m.rows && b in m.rows && a.identity == b.identity
    ensures a.disposition == b.disposition
  {
    RowsAreImages(c, s, m.rows, a);
    RowsAreImages(c, s, m.rows, b);
    ImageProper(c, s, a);
    ImageProper(c, s, b);
    ImageDisposed(c, s, a);
    ImageDisposed(c, s, b);
    if a.objectKind == KIND_RELATION {
      RelationRowShape(c, s, a);
      RelationRowShape(c, s, b);
      RelationParts(a.schema, a.objectName);
      RelationParts(b.schema, b.objectName);
    }
  }

  /** With a dot in a schema name two relations can share one identity, so the plain names are needed. */
  lemma {:induction false} DottedSchemasCollide()
    ensures RelationIdentity("a.b", "c") == RelationIdentity("a", "b.c")
  {
    assert "relation:" + "a.b" + "." + "c" == "relation:" + "a" + "." + "b.c";
  }

  // ----- the census as a difference

  /** The census lists exactly what the source role holds and the target role does not. */
  ghost predicate ExactDelta(acl: Acl, c: Census, s: Sources) {
    forall identity, privilege ::
      Names(c, s.knownTypes, identity, privilege) <==>
      Held(c.sourceRole, identity, privilege) in acl && Held(c.targetRole, identity, privilege) !in acl
  }

  ghost predicate DeniedAt(m: Manifest, identity: string, privilege: string) {
    exists row :: row in m.rows && row.disposition.Denied? && row.identity == identity && row.privilege == privilege
  }

  /** Any run of the routine rows: in any order, each at least once. */
  ghost predicate RunsRoutine(m: Manifest, script: seq<GrantRow>) {
    forall row :: row in script <==> row in Routine(m)
  }

  lemma {:induction false} ListedRows(c: Census, s: Sources, m: Manifest, identity: string, privilege: string)
    requires Generate(c, s) == Success(m)
    ensures Names(c, s.knownTypes, identity, privilege) <==>
            exists row :: row in m.rows && row.identity == identity && row.privilege == privilege
  {
    AcceptanceExact(c, s);
    if Names(c, s.knownTypes, identity, privilege) {
      var row := NamedHasImage(c, s, identity, privilege);
      RowsAreImages(c, s, m.rows, row);
    }
    if row :| row in m.rows && row.identity == identity && row.privilege == privilege {
      RowsAreImages(c, s, m.rows, row);
      ImageNames(c, s, row);
    }
  }

  lemma {:induction false} AppliedTo(
      c: Census, s: Sources, m: Manifest, acl: Acl, script: seq<GrantRow>, role: string, identity: string,
      privilege: string)
    requires Generate(c, s) == Success(m) && RunsRoutine(m, script)
    ensures Held(role, identity, privilege) in ApplyGrants(acl, script) <==>
            || Held(role, identity, privilege) in acl
            || (role == c.targetRole
                && exists row ::
                     row in m.rows && row.disposition.Grant? && row.identity == identity && row.privilege == privilege)
  {
    AppliedExactly(acl, script);
    if Held(role, identity, privilege) in ApplyGrants(acl, script) && Held(role, identity, privilege) !in acl {
      var row :| row in script && Held(role, identity, privilege) == Held(row.targetRole, row.identity, row.privilege);
      assert row in Routine(m);
      DenialsFollowThePlane(c, s, m, row);
    }
    if row :| row in m.rows && row.disposition.Grant? && row.identity == identity && row.privilege == privilege {
      DenialsFollowThePlane(c, s, m, row);
      assert row in Routine(m) && Granted(row) == Held(c.targetRole, identity, privilege);
    }
  }

  /**
   The target ends up with what it had and what the source had, less exactly the
   denied rows; no other role gains or loses anything.
   */
  lemma {:induction false} GrantsReachEquivalence(c: Census, s: Sources, m: Manifest, acl: Acl, script: seq<GrantRow>)
    requires Generate(c, s) == Success(m) && PlainCensus(c) && ExactDelta(acl, c, s) && RunsRoutine(m, script)
    ensures forall identity, privilege ::
              Held(c.targetRole, identity, privilege) in ApplyGrants(acl, script) <==>
              || Held(c.targetRole, identity, privilege) in acl
              || (Held(c.sourceRole, identity, privilege) in acl && !DeniedAt(m, identity, privilege))
    ensures forall role, identity, privilege :: role != c.targetRole ==>
              (Held(role, identity, privilege) in ApplyGrants(acl, script) <==> Held(role, identity, privilege) in acl)
  {
    forall identity, privilege
      ensures Held(c.targetRole, identity, privilege) in ApplyGrants(acl, script) <==>
              || Held(c.targetRole, identity, privilege) in acl
              || (Held(c.sourceRole, identity, privilege) in acl && !DeniedAt(m, identity, privilege))
    {
      TargetAfter(c, s, m, acl, script, identity, privilege);
    }
    forall role, identity, privilege | role != c.targetRole
      ensures Held(role, identity, privilege) in ApplyGrants(acl, script) <==> Held(role, identity, privilege) in acl
    {
      AppliedTo(c, s, m, acl, script, role, identity, privilege);
    }
  }

  lemma {:induction false} TargetAfter(
      c: Census, s: Sources, m: Manifest, acl: Acl, script: seq<GrantRow>, identity: string, privilege: string)
    requires Generate(c, s) == Success(m) && PlainCensus(c) && ExactDelta(acl, c, s) && RunsRoutine(m, script)
    ensures Held(c.targetRole, identity, privilege) in ApplyGrants(acl, script) <==>
            || Held(c.targetRole, identity, privilege) in acl
            || (Held(c.sourceRole, identity, privilege) in acl && !DeniedAt(m, identity, privilege))
  {
    AppliedTo(c, s, m, acl, script, c.targetRole, identity, privilege);
    ListedRows(c, s, m, identity, privilege);
    GeneratedDispositions(c, s, m);
    forall row | row in m.rows
      ensures row.disposition.Grant? || row.disposition.Denied?
    {
      DenialsFollowThePlane(c, s, m, row);
    }
  }

  lemma {:induction false} GeneratedNamesItself(c: Census, s: Sources, m: Manifest, row: GrantRow)
    requires Generate(c, s) == Success(m) && row in m.rows
    ensures NamesItself(row)
  {
    AcceptanceExact(c, s);
    RowsAreImages(c, s, m.rows, row);
    ImageProper(c, s, row);
  }

  /** The rendered grant file does what the routine rows do. */
  lemma {:induction false} RenderedFileGrants(c: Census, s: Sources, m: Manifest, acl: Acl)
    requires Generate(c, s) == Success(m)
    ensures RunLines(acl, Lines(SortBy(Routine(m), SortKey()))) == ApplyGrants(acl, Routine(m))
  {
    forall row | row in Routine(m)
      ensures NamesItself(row)
    {
      GeneratedNamesItself(c, s, m, row);
    }
    ScriptGrantsItsRows(acl, Routine(m));
    AppliedExactly(acl, Routine(m));
  }

  /** Every generated manifest is read back from its payload as it was written. */
  lemma {:induction false} GeneratedSurvivesPayload(c: Census, s: Sources, m: Manifest)
    requires Generate(c, s) == Success(m)
    ensures FromPayload(ToPayload(m)) == m
  {
    AcceptanceExact(c, s);
    SortBySorted(AllRows(c, s).value, SortKey());
    forall row | row in m.rows
      ensures KnownSection(row.section)
    {
      DenialsFollowThePlane(c, s, m, row);
    }
    PayloadRoundTripExact(m);
  }

  /** A preserved scope is a schema of the reverse gap, with the count the census recorded for it. */
  lemma {:induction false} ScopeIsRecorded(c: Census, s: Sources, m: Manifest, scope: string)
    requires Generate(c, s) == Success(m) && scope in PreservedScopes(m)
    ensures exists e :: e in c.reverseGap && e.schema == scope && e.privileges == PreservedScopes(m)[scope]
  {
    var kept := Filter(m.exclusions, IsPreserved());
    IndexByKeys(kept, ScopeKey());
    var exclusion := IndexBy(kept, ScopeKey())[scope];
    MapMembers(SortBy(c.reverseGap, GapOrder()), GapExclusion());
    assert exclusion in Exclusions(c);
    var e :| e in SortBy(c.reverseGap, GapOrder()) && GapExclusion()(e) == exclusion;
  }

  /**
   A generated manifest is well-formed, so the negative control applies to it, when
   the reviewed executors are neither the tenant role nor PUBLIC and the census
   records one owner per object, module storage inside the allowlist only, plain
   reverse-gap schemas, and no object named like a synthetic one.
   */
  lemma {:induction false} GeneratedIsWellFormed(c: Census, s: Sources, m: Manifest)
    requires Generate(c, s) == Success(m) && PlainCensus(c)
    requires forall identity :: identity in s.contract.executors ==>
               s.contract.executors[identity] !in {c.targetRole, PUBLIC_PSEUDO_ROLE}
    requires forall a, b :: IsImage(c, s, a) && IsImage(c, s, b) && a.identity == b.identity ==> a.owner == b.owner
    requires forall row :: IsImage(c, s, row) && InModuleSchema()(row) ==> row.identity in s.contract.moduleEraAllowlist
    requires forall e :: e in c.reverseGap ==> PlainSchema(e.schema) && e.privileges >= 0
    requires forall row :: IsImage(c, s, row) ==> !Synthetic(m, row.identity)
    ensures WellFormed(s.contract, m)
  {
    AcceptanceExact(c, s);
    forall row | row in m.rows
      ensures IsImage(c, s, row) && DisposedByPlane(c, s, row)
    {
      RowsAreImages(c, s, m.rows, row);
      DenialsFollowThePlane(c, s, m, row);
    }
    GeneratedDispositions(c, s, m);
    forall scope | scope in PreservedScopes(m)
      ensures PlainSchema(scope) && PreservedScopes(m)[scope] >= 0
    {
      ScopeIsRecorded(c, s, m, scope);
    }
  }

  // ----- the database around the grants

  datatype ColumnHeld = ColumnHeld(role: string, identity: string, privilege: string, column: string)

  /** Privileges, column privileges, role attributes and memberships of one database. */
  datatype World = World(
    acl: Acl, columns: set<ColumnHeld>, postures: set<ObservedPosture>, memberships: set<ObservedMembership>)

  /** A function is executable through the role's own grant or through PUBLIC's. */
  ghost predicate CanExecute(acl: Acl, role: string, identity: string) {
    Held(role, identity, "EXECUTE") in acl || Held(PUBLIC_PSEUDO_ROLE, identity, "EXECUTE") in acl
  }

  /** The starting state keeps every denial the manifest states. */
  ghost predicate DenialsKept(c: Contract, m: Manifest, w: World) {
    && (forall identity, privilege :: identity in DeniedIdentities(m) ==>
          Held(m.targetRole, identity, privilege) !in w.acl)
    && (forall held :: held in w.columns && held.role == m.targetRole ==> held.identity !in DeniedIdentities(m))
    && (forall row :: row in DeniedFunctions(m) ==>
          && Held(PUBLIC_PSEUDO_ROLE, row.identity, "EXECUTE") !in w.acl
          && row.identity in c.executors
          && (c.executors[row.identity] != NO_RUNTIME_EXECUTOR ==>
                Held(c.executors[row.identity], row.identity, "EXECUTE") in w.acl))
  }

  ghost predicate InModuleStorage(identity: string) {
    IdentitySchema(identity).Some? && MODULE_SCHEMA_PREFIX <= IdentitySchema(identity).value
  }

  /** Neither role is privileged or a member of the other, and the legacy role stays out of module storage. */
  ghost predicate RolesKept(c: Contract, m: Manifest, w: World) {
    && (forall e :: e in w.postures && e.role in {m.sourceRole, m.targetRole} ==> !e.bypassRls && !e.superuser)
    && (forall e :: e in w.memberships ==>
          e.member != m.targetRole && !(e.member == m.sourceRole && e.grantedRole in {m.sourceRole, m.targetRole}))
    && (forall held :: held in w.acl && held.role == m.sourceRole && InModuleStorage(held.identity) ==>
          held.identity in c.moduleEraAllowlist)
  }

  /** What the target holds and the source does not, inside one schema. */
  ghost function GapIn(acl: Acl, m: Manifest, scope: string): set<Key> {
    set held | held in acl && held.role == m.targetRole && Held(m.sourceRole, held.identity, held.privilege) !in acl
               && IdentitySchema(held.identity) == Some(scope)
      :: Pair(held.identity, held.privilege)
  }

  /** The census's per-schema counts cover the reverse gap and count it right. */
  ghost predicate GapRecorded(m: Manifest, acl: Acl) {
    && (forall held ::
          held in acl && held.role == m.targetRole && Held(m.sourceRole, held.identity, held.privilege) !in acl ==>
            IdentitySchema(held.identity).Some? && IdentitySchema(held.identity).value in PreservedScopes(m))
    && (forall scope :: scope in PreservedScopes(m) ==> |GapIn(acl, m, scope)| == PreservedScopes(m)[scope])
  }

  // ----- a faithful observation

  /** The catalog still shows every manifest object as the census recorded it. */
  ghost predicate ObjectsAsRecorded(m: Manifest, s: Snapshot) {
    forall row :: row in m.rows ==>
      var seen := LastBy(s.objects, ObjectKey(), row.identity);
      && seen.Some? && seen.value.present
      && seen.value.objectKind == row.objectKind && seen.value.relkind == row.relkind
      && (row.owner != "" ==> seen.value.owner == row.owner)
      && seen.value.resolvedIdentity == row.identity && seen.value.candidateCount == 1
  }

  /** `acl0` is the state the census saw, `acl` the state observed now. */
  ghost predicate PrivilegesObserved(m: Manifest, acl0: Acl, acl: Acl, s: Snapshot) {
    && (forall e :: e in s.privileges && e.role == m.targetRole ==>
          (e.held <==> Held(m.targetRole, e.identity, e.privilege) in acl) && (e.held ==> e.origin == DIRECT_ORIGIN))
    && (forall row :: row in m.rows && !row.disposition.Denied? ==> Asked(m, s, row.identity, row.privilege))
    && (forall held ::
          held in acl0 && held.role == m.targetRole && Held(m.sourceRole, held.identity, held.privilege) !in acl0 ==>
            Asked(m, s, held.identity, held.privilege))
    && (forall e :: e in s.privileges && e.role == m.targetRole && e.held ==>
          || (exists row :: row in m.rows && row.identity == e.identity && row.privilege == e.privilege)
          || (Held(m.targetRole, e.identity, e.privilege) in acl0
              && Held(m.sourceRole, e.identity, e.privilege) !in acl0))
  }

  ghost predicate Asked(m: Manifest, s: Snapshot, identity: string, privilege: string) {
    exists e :: e in s.privileges && e.role == m.targetRole && e.identity == identity && e.privilege == privilege
  }

  ghost predicate DenialsObserved(m: Manifest, w: World, s: Snapshot) {
    && (forall key :: key in DeniedRelationKeys(m) ==>
          && (forall p :: p in DENIED_TABLE_PRIVILEGES ==>
                exists e :: e in s.deniedPrivileges && OfTarget(m)(e) && PrivilegeKey()(e) == Pair(key.first, p))
          && (forall p :: p in COLUMN_LEVEL_PRIVILEGES ==>
                exists e :: e in s.deniedColumnGrants && ColumnsOfTarget(m)(e) && ColumnKey()(e) == Pair(key.first, p)))
    && (forall e :: e in s.deniedPrivileges && OfTarget(m)(e) ==>
          (e.held <==> Held(m.targetRole, e.identity, e.privilege) in w.acl))
    && (forall e :: e in s.deniedColumnGrants && ColumnsOfTarget(m)(e) ==>
          e.columnsProbed > 0
          && forall column :: column in e.columnsHeld ==>
               ColumnHeld(m.targetRole, e.identity, e.privilege, column) in w.columns)
  }

  ghost predicate ExecuteObserved(c: Contract, m: Manifest, acl: Acl, s: Snapshot) {
    && (forall row, role :: row in DeniedFunctions(m) && row.identity in c.executors
                            && role in WantedRoles(m, c.executors[row.identity]) ==>
          exists e :: e in s.deniedFunctionExecute && ExecuteKey()(e) == Pair(row.identity, role))
    && (forall e :: e in s.deniedFunctionExecute ==>
          e.probed && e.effective && (e.held <==> CanExecute(acl, e.role, e.identity)))
  }

  ghost predicate RolesObserved(m: Manifest, w: World, s: Snapshot) {
    && (forall e :: e in s.postures ==> e in w.postures) && (forall e :: e in s.memberships ==> e in w.memberships)
    && (forall e :: e in s.legacyModulePrivileges && e.role == m.sourceRole && e.held ==>
          Held(m.sourceRole, e.identity, e.privilege) in w.acl && InModuleStorage(e.identity))
  }

  ghost predicate Faithful(c: Contract, m: Manifest, acl0: Acl, w: World, s: Snapshot) {
    && ObjectsAsRecorded(m, s) && PrivilegesObserved(m, acl0, w.acl, s) && DenialsObserved(m, w, s)
    && ExecuteObserved(c, m, w.acl, s) && RolesObserved(m, w, s)
  }

  // ----- each fact after the grants

  lemma {:induction false} ObjectsFollow(m: Manifest, s: Snapshot)
    requires ObjectsAsRecorded(m, s)
    ensures ObjectsIntact(m, ViewOf(m, s)) && OwnersUnchanged(m, ViewOf(m, s))
  {
    FirstRowsCover(m.rows);
    FirstRowsCover(Filter(m.rows, HasOwner()));
    forall row | row in m.rows
      ensures ObjectIntact(ViewOf(m, s), row)
      ensures row.owner != "" ==> ViewOf(m, s).objects[row.identity].owner == row.owner
    {
      IndexByIsLast(s.objects, ObjectKey(), row.identity);
    }
  }

  /** A held answer about an undenied identity reaches the guard's dictionary, and the answer there is true. */
  lemma {:induction false} AnswerSeen(
      m: Manifest, acl0: Acl, acl: Acl, s: Snapshot, identity: string, privilege: string)
    requires PrivilegesObserved(m, acl0, acl, s) && identity !in DeniedIdentities(m) && Asked(m, s, identity, privilege)
    ensures var v := ViewOf(m, s);
            && Pair(identity, privilege) in v.privileges
            && (v.privileges[Pair(identity, privilege)].held <==> Held(m.targetRole, identity, privilege) in acl)
            && (v.privileges[Pair(identity, privilege)].held ==>
                v.privileges[Pair(identity, privilege)].origin == DIRECT_ORIGIN)
  {
    var kept := Filter(s.privileges, OfTargetUndenied(m));
    IndexByKeys(kept, PrivilegeKey());
    var e :| e in s.privileges && e.role == m.targetRole && e.identity == identity && e.privilege == privilege;
    assert e in kept && PrivilegeKey()(e) == Pair(identity, privilege);
    var last := IndexBy(kept, PrivilegeKey())[Pair(identity, privilege)];
    assert last.identity == identity && last.privilege == privilege;
  }

  lemma {:induction false} GrantsFollow(
      c: Census, s: Sources, m: Manifest, acl0: Acl, script: seq<GrantRow>, o: Snapshot)
    requires Generate(c, s) == Success(m) && PlainCensus(c) && RunsRoutine(m, script)
    requires PrivilegesObserved(m, acl0, ApplyGrants(acl0, script), o)
    ensures GrantsHeld(m, ViewOf(m, o))
  {
    GeneratedDispositions(c, s, m);
    forall key | key in ExpectedKeys(m)
      ensures HeldDirectly(ViewOf(m, o), key)
    {
      var row :| row in m.rows && row.targetRole == m.targetRole && !row.disposition.Denied?
                 && key == Key(0, row.identity, row.privilege, "");
      DenialsFollowThePlane(c, s, m, row);
      AppliedTo(c, s, m, acl0, script, c.targetRole, row.identity, row.privilege);
      AnswerSeen(m, acl0, ApplyGrants(acl0, script), o, row.identity, row.privilege);
    }
  }

  lemma {:induction false} ExtraIsGap(
      c: Census, s: Sources, m: Manifest, acl0: Acl, acl: Acl, o: Snapshot, key: Key)
    requires Generate(c, s) == Success(m)
    requires PrivilegesObserved(m, acl0, acl, o)
    requires key in ViewOf(m, o).privileges && IsExtra(m, ViewOf(m, o))(key)
    ensures key == Pair(key.first, key.second)
    ensures Held(m.targetRole, key.first, key.second) in acl0 && Held(m.sourceRole, key.first, key.second) !in acl0
  {
    var kept := Filter(o.privileges, OfTargetUndenied(m));
    IndexByKeys(kept, PrivilegeKey());
    var e := IndexBy(kept, PrivilegeKey())[key];
    assert key == Key(0, e.identity, e.privilege, "");
    UndeniedIsExpected(c, s, m);
  }

  lemma {:induction false} UndeniedIsExpected(c: Census, s: Sources, m: Manifest)
    requires Generate(c, s) == Success(m)
    ensures forall row :: row in m.rows && row.identity !in DeniedIdentities(m) ==>
                            Pair(row.identity, row.privilege) in ExpectedKeys(m)
  {
    forall row | row in m.rows && row.identity !in DeniedIdentities(m)
      ensures Pair(row.identity, row.privilege) in ExpectedKeys(m)
    {
      DenialsFollowThePlane(c, s, m, row);
    }
  }

  lemma {:induction false} GapIsExtra(
      c: Census, s: Sources, m: Manifest, acl0: Acl, script: seq<GrantRow>, o: Snapshot, held: Held)
    requires Generate(c, s) == Success(m) && ExactDelta(acl0, c, s)
    requires PrivilegesObserved(m, acl0, ApplyGrants(acl0, script), o)
    requires held in acl0 && held.role == m.targetRole && Held(m.sourceRole, held.identity, held.privilege) !in acl0
    requires held.identity !in DeniedIdentities(m)
    ensures var v := ViewOf(m, o);
            Pair(held.identity, held.privilege) in v.privileges && IsExtra(m, v)(Pair(held.identity, held.privilege))
  {
    AnswerSeen(m, acl0, ApplyGrants(acl0, script), o, held.identity, held.privilege);
    AppliedExactly(acl0, script);
    assert held == Held(m.targetRole, held.identity, held.privilege);
    ListedRows(c, s, m, held.identity, held.privilege);
    assert forall row :: row in m.rows ==>
        Key(0, row.identity, row.privilege, "") != Key(0, held.identity, held.privilege, "");
  }

  lemma {:induction false} UnlistedIsTheGap(
      c: Census, s: Sources, m: Manifest, w: World, script: seq<GrantRow>, o: Snapshot, scope: string)
    requires Generate(c, s) == Success(m) && ExactDelta(w.acl, c, s) && DenialsKept(s.contract, m, w)
    requires PrivilegesObserved(m, w.acl, ApplyGrants(w.acl, script), o)
    ensures UnlistedIn(m, ViewOf(m, o), scope) == GapIn(w.acl, m, scope)
  {
    var v, acl := ViewOf(m, o), ApplyGrants(w.acl, script);
    forall key | key in UnlistedIn(m, v, scope)
      ensures key in GapIn(w.acl, m, scope)
    {
      ExtraIsGap(c, s, m, w.acl, acl, o, key);
      var held := Held(m.targetRole, key.first, key.second);
      assert key == Pair(held.identity, held.privilege);
    }
    forall key | key in GapIn(w.acl, m, scope)
      ensures key in UnlistedIn(m, v, scope)
    {
      var held :| held in w.acl && held.role == m.targetRole
                  && Held(m.sourceRole, held.identity, held.privilege) !in w.acl
                  && IdentitySchema(held.identity) == Some(scope) && key == Key(0, held.identity, held.privilege, "");
      assert held == Held(m.targetRole, held.identity, held.privilege);
      GapIsExtra(c, s, m, w.acl, script, o, held);
    }
  }

  lemma {:induction false} NothingElseFollows(
      c: Census, s: Sources, m: Manifest, w: World, script: seq<GrantRow>, o: Snapshot)
    requires Generate(c, s) == Success(m) && ExactDelta(w.acl, c, s) && DenialsKept(s.contract, m, w)
    requires GapRecorded(m, w.acl)
    requires PrivilegesObserved(m, w.acl, ApplyGrants(w.acl, script), o)
    ensures NothingUnlisted(m, ViewOf(m, o))
  {
    var v := ViewOf(m, o);
    forall key | key in v.privileges && IsExtra(m, v)(key)
      ensures IdentitySchema(key.first).Some? && IdentitySchema(key.first).value in PreservedScopes(m)
    {
      ExtraIsGap(c, s, m, w.acl, ApplyGrants(w.acl, script), o, key);
      var held := Held(m.targetRole, key.first, key.second);
      assert held in w.acl && held.role == m.targetRole;
    }
    forall scope | scope in PreservedScopes(m)
      ensures |UnlistedIn(m, v, scope)| == PreservedScopes(m)[scope]
    {
      UnlistedIsTheGap(c, s, m, w, script, o, scope);
    }
  }

  /** Granting the routine rows never touches a denied identity. */
  lemma {:induction false} DeniedStaysAsItWas(
      c: Census, s: Sources, m: Manifest, acl: Acl, script: seq<GrantRow>, role: string, identity: string,
      privilege: string)
    requires Generate(c, s) == Success(m) && PlainCensus(c) && RunsRoutine(m, script) && identity in DeniedIdentities(m)
    ensures Held(role, identity, privilege) in ApplyGrants(acl, script) <==> Held(role, identity, privilege) in acl
  {
    GeneratedDispositions(c, s, m);
    AppliedTo(c, s, m, acl, script, role, identity, privilege);
  }

  lemma {:induction false} DeniedTableFollows(
      c: Census, s: Sources, m: Manifest, w: World, script: seq<GrantRow>, o: Snapshot, key: Key, p: string)
    requires Generate(c, s) == Success(m) && PlainCensus(c) && RunsRoutine(m, script) && DenialsKept(s.contract, m, w)
    requires DenialsObserved(m, w.(acl := ApplyGrants(w.acl, script)), o)
    requires key in DeniedRelationKeys(m) && p in DENIED_TABLE_PRIVILEGES
    ensures var v := ViewOf(m, o);
            Pair(key.first, p) in v.tableAnswers && !v.tableAnswers[Pair(key.first, p)].held
  {
    var kept := Filter(o.deniedPrivileges, OfTarget(m));
    IndexByKeys(kept, PrivilegeKey());
    var e :| e in o.deniedPrivileges && OfTarget(m)(e) && PrivilegeKey()(e) == Key(0, key.first, p, "");
    assert e in kept;
    var last := IndexBy(kept, PrivilegeKey())[Pair(key.first, p)];
    assert last.identity == key.first && last.privilege == p;
    KeyIsDenied(m, key);
    DeniedStaysAsItWas(c, s, m, w.acl, script, m.targetRole, key.first, p);
  }

  lemma {:induction false} KeyIsDenied(m: Manifest, key: Key)
    requires key in DeniedRelationKeys(m)
    ensures key.first in DeniedIdentities(m)
  {
    var row :| row in m.rows && row.disposition.Denied? && row.objectKind == KIND_RELATION
               && key == Key(0, row.identity, "", "");
  }

  lemma {:induction false} DeniedColumnFollows(
      m: Manifest, c: Contract, w0: World, w: World, o: Snapshot, key: Key, p: string)
    requires DenialsKept(c, m, w0) && w.columns == w0.columns && DenialsObserved(m, w, o)
    requires key in DeniedRelationKeys(m) && p in COLUMN_LEVEL_PRIVILEGES
    ensures var v := ViewOf(m, o);
            && Pair(key.first, p) in v.columnAnswers && v.columnAnswers[Pair(key.first, p)].columnsProbed > 0
            && v.columnAnswers[Pair(key.first, p)].columnsHeld == []
  {
    var kept := Filter(o.deniedColumnGrants, ColumnsOfTarget(m));
    IndexByKeys(kept, ColumnKey());
    var e :| e in o.deniedColumnGrants && ColumnsOfTarget(m)(e) && ColumnKey()(e) == Key(0, key.first, p, "");
    assert e in kept;
    var last := IndexBy(kept, ColumnKey())[Pair(key.first, p)];
    assert last.identity == key.first && last.privilege == p;
    KeyIsDenied(m, key);
    NoColumnHeld(c, m, w0, last);
  }

  lemma {:induction false} HasMember<T>(xs: seq<T>)
    ensures xs != [] ==> exists x :: x in xs
  {
    if xs != [] {
      assert xs[0] in xs;
    }
  }

  lemma {:induction false} NoColumnHeld(c: Contract, m: Manifest, w: World, e: ObservedColumnGrant)
    requires DenialsKept(c, m, w) && e.identity in DeniedIdentities(m)
    requires forall column :: column in e.columnsHeld ==>
               ColumnHeld(m.targetRole, e.identity, e.privilege, column) in w.columns
    ensures e.columnsHeld == []
  {
    assert forall column :: ColumnHeld(m.targetRole, e.identity, e.privilege, column) !in w.columns;
    HasMember(e.columnsHeld);
    assert forall column :: column !in e.columnsHeld;
  }

  lemma {:induction false} RelationsFollow(
      c: Census, s: Sources, m: Manifest, w: World, script: seq<GrantRow>, o: Snapshot)
    requires Generate(c, s) == Success(m) && PlainCensus(c) && RunsRoutine(m, script) && DenialsKept(s.contract, m, w)
    requires DenialsObserved(m, w.(acl := ApplyGrants(w.acl, script)), o)
    ensures RelationsDenied(m, ViewOf(m, o))
  {
    var v := ViewOf(m, o);
    forall row | row in m.rows && row.disposition.Denied? && row.objectKind == KIND_RELATION
      ensures RelationDenied(v, row.identity)
    {
      assert Single(row.identity) in DeniedRelationKeys(m);
      forall p | p in DENIED_TABLE_PRIVILEGES
        ensures Pair(row.identity, p) in v.tableAnswers && !v.tableAnswers[Pair(row.identity, p)].held
      {
        DeniedTableFollows(c, s, m, w, script, o, Single(row.identity), p);
      }
      forall p | p in COLUMN_LEVEL_PRIVILEGES
        ensures Pair(row.identity, p) in v.columnAnswers && v.columnAnswers[Pair(row.identity, p)].columnsProbed > 0
                && v.columnAnswers[Pair(row.identity, p)].columnsHeld == []
      {
        DeniedColumnFollows(m, s.contract, w, w.(acl := ApplyGrants(w.acl, script)), o, Single(row.identity), p);
      }
    }
  }

  lemma {:induction false} ExecuteFollows(
      c: Census, s: Sources, m: Manifest, w: World, script: seq<GrantRow>, o: Snapshot, row: GrantRow, role: string)
    requires Generate(c, s) == Success(m) && PlainCensus(c) && RunsRoutine(m, script) && DenialsKept(s.contract, m, w)
    requires ExecuteObserved(s.contract, m, ApplyGrants(w.acl, script), o)
    requires row in DeniedFunctions(m) && row.identity in s.contract.executors
    requires role in WantedRoles(m, s.contract.executors[row.identity])
    ensures Answered(ViewOf(m, o), row.identity, role, Held(role, row.identity, "EXECUTE") in w.acl)
  {
    IndexByKeys(o.deniedFunctionExecute, ExecuteKey());
    var e :| e in o.deniedFunctionExecute && ExecuteKey()(e) == Key(0, row.identity, role, "");
    var last := IndexBy(o.deniedFunctionExecute, ExecuteKey())[Pair(row.identity, role)];
    assert last.identity == row.identity && last.role == role;
    DeniedStaysAsItWas(c, s, m, w.acl, script, role, row.identity, "EXECUTE");
    DeniedStaysAsItWas(c, s, m, w.acl, script, PUBLIC_PSEUDO_ROLE, row.identity, "EXECUTE");
  }

  lemma {:induction false} FunctionFollows(
      c: Census, s: Sources, m: Manifest, w: World, script: seq<GrantRow>, o: Snapshot, row: GrantRow)
    requires Generate(c, s) == Success(m) && PlainCensus(c) && RunsRoutine(m, script) && DenialsKept(s.contract, m, w)
    requires ExecuteObserved(s.contract, m, ApplyGrants(w.acl, script), o) && row in DeniedFunctions(m)
    ensures FunctionSealed(s.contract, m, ViewOf(m, o), row)
  {
    DenialsFollowThePlane(c, s, m, row);
    var executor := s.contract.executors[row.identity];
    WantedMembers(m, executor, m.targetRole);
    WantedMembers(m, executor, PUBLIC_PSEUDO_ROLE);
    WantedMembers(m, executor, executor);
    ExecuteFollows(c, s, m, w, script, o, row, m.targetRole);
    ExecuteFollows(c, s, m, w, script, o, row, PUBLIC_PSEUDO_ROLE);
    if executor != NO_RUNTIME_EXECUTOR {
      ExecuteFollows(c, s, m, w, script, o, row, executor);
    }
  }

  lemma {:induction false} RolesFollow(
      c: Census, s: Sources, m: Manifest, w: World, script: seq<GrantRow>, o: Snapshot)
    requires Generate(c, s) == Success(m) && ExactDelta(w.acl, c, s) && RunsRoutine(m, script)
    requires RolesKept(s.contract, m, w) && RolesObserved(m, w.(acl := ApplyGrants(w.acl, script)), o)
    ensures RolesSound(s.contract, m, o)
  {
    forall e | e in o.legacyModulePrivileges && e.role == m.sourceRole && e.held
      ensures e.identity in s.contract.moduleEraAllowlist
    {
      AppliedTo(c, s, m, w.acl, script, m.sourceRole, e.identity, e.privilege);
      ListedRows(c, s, m, e.identity, e.privilege);
      assert Held(m.sourceRole, e.identity, e.privilege) in w.acl;
    }
  }

  /**
   Census, generation, grants, observation, verdict: from a state that keeps the
   denials and the role rules, any run of the routine rows leads to a state whose
   faithful observation draws no refusal but those of the baseline counts.
   */
  lemma {:induction false} CutoverIsAccepted(
      c: Census, s: Sources, m: Manifest, w: World, script: seq<GrantRow>, o: Snapshot)
    requires Generate(c, s) == Success(m) && PlainCensus(c) && ExactDelta(w.acl, c, s) && RunsRoutine(m, script)
    requires DenialsKept(s.contract, m, w) && RolesKept(s.contract, m, w) && GapRecorded(m, w.acl)
    requires Faithful(s.contract, m, w.acl, w.(acl := ApplyGrants(w.acl, script)), o)
    ensures CutoverRefusals(s.contract, m, o) == Success(BaselineRefusals(s.contract, m))
  {
    ObjectsFollow(m, o);
    GrantsFollow(c, s, m, w.acl, script, o);
    NothingElseFollows(c, s, m, w, script, o);
    RelationsFollow(c, s, m, w, script, o);
    forall row | row in m.rows && row.disposition.Denied? && row.objectKind == KIND_FUNCTION
      ensures FunctionSealed(s.contract, m, ViewOf(m, o), row)
    {
      FunctionFollows(c, s, m, w, script, o, row);
    }
    RolesFollow(c, s, m, w, script, o);
    PartsExact(s.contract, m, o);
  }
}
