/**
 The reviewed contract of the identity cutover (app/privilege_manifest.py): what
 must be granted, what is denied, and what the read-only verifier observed.
 */
module PrivilegeManifest {
  import opened Collections
  import opened PersistencePlanes

  const SECTION_SCHEMA_USAGE: string := "schema_usage"
  const SECTION_RELATIONS: string := "relations"
  const SECTION_SEQUENCES: string := "sequences"
  const SECTION_FUNCTIONS: string := "functions"
  const SECTION_CONTROL_PLANE: string := "control_plane"

  const SECTIONS: seq<string> := [
    SECTION_SCHEMA_USAGE, SECTION_RELATIONS, SECTION_SEQUENCES, SECTION_FUNCTIONS, SECTION_CONTROL_PLANE]

  const KIND_SCHEMA: string := "schema"
  const KIND_RELATION: string := "relation"
  const KIND_SEQUENCE: string := "sequence"
  const KIND_FUNCTION: string := "function"

  const PUBLIC_PSEUDO_ROLE: string := "PUBLIC"
  const NO_RUNTIME_EXECUTOR: string := ""
  const MODULE_SCHEMA_PREFIX: string := "mod_"
  const DIRECT_ORIGIN: string := "direct"
  const PRESERVED_KIND: string := "preserved-target-privilege"

  const DENIED_TABLE_PRIVILEGES: seq<string> := [
    "SELECT", "INSERT", "UPDATE", "DELETE", "TRUNCATE", "REFERENCES", "TRIGGER"]

  const COLUMN_LEVEL_PRIVILEGES: seq<string> := ["SELECT", "INSERT", "UPDATE", "REFERENCES"]

  datatype Disposition = Grant | ReviewRequired | Denied

  datatype GrantRow = GrantRow(
    section: string,
    objectKind: string,
    identity: string,
    schema: string,
    objectName: string,
    privilege: string,
    sourceRole: string,
    targetRole: string,
    owner: string,
    disposition: Disposition,
    relkind: string,
    identityArguments: string,
    plane: Option<Plane>,
    declaredBy: string,
    permittedPrincipals: seq<string>)

  datatype ExclusionRow = ExclusionRow(exclusionId: string, kind: string, scope: string, privileges: int)

  datatype Provenance = Provenance(capturedAt: string, host: string, database: string, serverVersion: string)

  datatype Manifest = Manifest(
    provenance: Provenance,
    sourceRole: string,
    targetRole: string,
    rows: seq<GrantRow>,
    exclusions: seq<ExclusionRow>)

  /** The reviewed constants the guard and the generator are written against. */
  datatype Contract = Contract(
    baselineTotals: map<string, int>,
    deniedTotals: map<string, int>,
    executors: map<string, string>,
    moduleEraAllowlist: set<string>,
    settledSchemas: set<string>)

  function Total(totals: map<string, int>, section: string): int {
    if section in totals then totals[section] else 0
  }

  // ----- identities

  /** `s.partition(c)`: what stands before and after the first `c`. */
  function Before(s: string, c: char): string {
    if s == "" || s[0] == c then "" else [s[0]] + Before(s[1..], c)
  }

  function After(s: string, c: char): string {
    if s == "" then "" else if s[0] == c then s[1..] else After(s[1..], c)
  }

  function SchemaIdentity(schema: string): string { "schema:" + schema }

  function RelationIdentity(schema: string, name: string): string { "relation:" + schema + "." + name }

  function SequenceIdentity(schema: string, name: string): string { "sequence:" + schema + "." + name }

  function FunctionIdentity(schema: string, name: string, arguments: string): string {
    "function:" + schema + "." + name + "(" + arguments + ")"
  }

  /** The schema an identity names; a text with nothing after a colon names none. */
  function IdentitySchema(identity: string): Option<string> {
    var rest := After(identity, ':');
    if rest == "" then None else Some(Before(Before(rest, '.'), '('))
  }

  // ----- rows

  predicate KnownSection(section: string) { section in SECTIONS }

  function SectionIndex(section: string): int {
    if section == SECTION_SCHEMA_USAGE then 0
    else if section == SECTION_RELATIONS then 1
    else if section == SECTION_SEQUENCES then 2
    else if section == SECTION_FUNCTIONS then 3
    else if section == SECTION_CONTROL_PLANE then 4
    else 5
  }

  function SortKey(): GrantRow -> Key {
    (row: GrantRow) => Key(SectionIndex(row.section), row.identity, row.privilege, "")
  }

  function IsRoutine(): GrantRow -> bool { (row: GrantRow) => row.disposition.Grant? }

  function IsDeniedKind(kind: string): GrantRow -> bool {
    (row: GrantRow) => row.disposition.Denied? && row.objectKind == kind
  }

  function InSection(section: string): GrantRow -> bool { (row: GrantRow) => row.section == section }

  function DeniedIn(section: string): GrantRow -> bool {
    (row: GrantRow) => row.section == section && row.disposition.Denied?
  }

  function Section(m: Manifest, section: string): seq<GrantRow> { Filter(m.rows, InSection(section)) }

  function Routine(m: Manifest): seq<GrantRow> { Filter(m.rows, IsRoutine()) }

  function DeniedFunctions(m: Manifest): seq<GrantRow> { Filter(m.rows, IsDeniedKind(KIND_FUNCTION)) }

  function DeniedIdentities(m: Manifest): set<string> {
    set row | row in m.rows && row.disposition.Denied? :: row.identity
  }

  function DeniedRelationKeys(m: Manifest): set<Key> {
    set row | row in m.rows && row.disposition.Denied? && row.objectKind == KIND_RELATION :: Single(row.identity)
  }

  function Identities(rows: seq<GrantRow>): set<string> { set row | row in rows :: row.identity }

  /** The rows whose identity no earlier row carries. */
  function FirstRows(rows: seq<GrantRow>): seq<GrantRow> {
    if rows == [] then []
    else
      var init, last := rows[..|rows| - 1], rows[|rows| - 1];
      if last.identity in Identities(init) then FirstRows(init) else FirstRows(init) + [last]
  }

  lemma {:induction false} FirstRowsCover(rows: seq<GrantRow>)
    ensures Identities(FirstRows(rows)) == Identities(rows)
    ensures forall row :: row in FirstRows(rows) ==> row in rows
    ensures forall i, j :: 0 <= i < j < |FirstRows(rows)| ==> FirstRows(rows)[i].identity != FirstRows(rows)[j].identity
  {
    if rows != [] {
      InitLast(rows);
      var init, last := rows[..|rows| - 1], rows[|rows| - 1];
      FirstRowsCover(init);
      assert Identities(rows) == Identities(init) + {last.identity};
      if last.identity !in Identities(init) {
        assert Identities(FirstRows(init) + [last]) == Identities(FirstRows(init)) + {last.identity};
        forall i | 0 <= i < |FirstRows(init)|
          ensures FirstRows(init)[i].identity != last.identity
        {
          assert FirstRows(init)[i].identity in Identities(FirstRows(init));
        }
      }
    }
  }

  lemma {:induction false} FirstRowPerIdentity(rows: seq<GrantRow>, a: GrantRow, b: GrantRow)
    requires a in FirstRows(rows) && b in FirstRows(rows) && a.identity == b.identity
    ensures a == b
  {
    FirstRowsCover(rows);
    var firsts := FirstRows(rows);
    var i :| 0 <= i < |firsts| && firsts[i] == a;
    var j :| 0 <= j < |firsts| && firsts[j] == b;
  }

  function HasOwner(): GrantRow -> bool { (row: GrantRow) => row.owner != "" }

  function IsPreserved(): ExclusionRow -> bool { (e: ExclusionRow) => e.kind == PRESERVED_KIND }

  function ScopeKey(): ExclusionRow -> string { (e: ExclusionRow) => e.scope }

  /** Scope to count; a later exclusion of one scope replaces an earlier one. */
  function PreservedScopes(m: Manifest): map<string, int> {
    var byScope := IndexBy(Filter(m.exclusions, IsPreserved()), ScopeKey());
    map scope | scope in byScope :: byScope[scope].privileges
  }

  // ----- what the verifier observed

  datatype ObservedObject = ObservedObject(
    identity: string, present: bool, objectKind: string, owner: string, relkind: string,
    resolvedIdentity: string, candidateCount: int)

  datatype ObservedPrivilege = ObservedPrivilege(
    identity: string, role: string, privilege: string, held: bool, origin: string)

  datatype ObservedColumnGrant = ObservedColumnGrant(
    identity: string, role: string, privilege: string, columnsHeld: seq<string>, columnsProbed: nat)

  datatype ObservedExecute = ObservedExecute(
    identity: string, role: string, held: bool, effective: bool, probed: bool)

  datatype ObservedPosture = ObservedPosture(role: string, bypassRls: bool, superuser: bool)

  datatype ObservedMembership = ObservedMembership(member: string, grantedRole: string)

  datatype Snapshot = Snapshot(
    objects: seq<ObservedObject>,
    privileges: seq<ObservedPrivilege>,
    postures: seq<ObservedPosture>,
    memberships: seq<ObservedMembership>,
    legacyModulePrivileges: seq<ObservedPrivilege>,
    deniedPrivileges: seq<ObservedPrivilege>,
    deniedColumnGrants: seq<ObservedColumnGrant>,
    deniedFunctionExecute: seq<ObservedExecute>)

  function ObjectKey(): ObservedObject -> string { (e: ObservedObject) => e.identity }

  function PrivilegeKey(): ObservedPrivilege -> Key { (e: ObservedPrivilege) => Pair(e.identity, e.privilege) }

  function ColumnKey(): ObservedColumnGrant -> Key { (e: ObservedColumnGrant) => Pair(e.identity, e.privilege) }

  function ExecuteKey(): ObservedExecute -> Key { (e: ObservedExecute) => Pair(e.identity, e.role) }

  function OfTarget(m: Manifest): ObservedPrivilege -> bool { (e: ObservedPrivilege) => e.role == m.targetRole }

  function OfTargetUndenied(m: Manifest): ObservedPrivilege -> bool {
    (e: ObservedPrivilege) => e.role == m.targetRole && e.identity !in DeniedIdentities(m)
  }

  function ColumnsOfTarget(m: Manifest): ObservedColumnGrant -> bool {
    (e: ObservedColumnGrant) => e.role == m.targetRole
  }

  /** The dictionaries the guard builds before it judges anything. */
  datatype View = View(
    objects: map<string, ObservedObject>,
    privileges: map<Key, ObservedPrivilege>,
    tableAnswers: map<Key, ObservedPrivilege>,
    columnAnswers: map<Key, ObservedColumnGrant>,
    executeAnswers: map<Key, ObservedExecute>)

  function ViewOf(m: Manifest, s: Snapshot): View {
    View(
      IndexBy(s.objects, ObjectKey()),
      IndexBy(Filter(s.privileges, OfTargetUndenied(m)), PrivilegeKey()),
      IndexBy(Filter(s.deniedPrivileges, OfTarget(m)), PrivilegeKey()),
      IndexBy(Filter(s.deniedColumnGrants, ColumnsOfTarget(m)), ColumnKey()),
      IndexBy(s.deniedFunctionExecute, ExecuteKey()))
  }
}
