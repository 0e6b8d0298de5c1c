/**
 Role authority over the membership graph (app/migration_authority.py): one scan
 of the catalog closes the memberships of the subjects, and two policies judge
 the same reading of it.
 */
module RoleAuthority {
  import opened Collections

  datatype Attribute = Superuser | Createrole | Createdb | Replication | Bypassrls

  const ATTRIBUTE_NAMES: seq<Attribute> := [Superuser, Createrole, Createdb, Replication, Bypassrls]

  /** A role's own attributes. */
  datatype Attributes = Attributes(superuser: bool, createrole: bool, createdb: bool, replication: bool,
                                   bypassrls: bool) {
    predicate Held(attribute: Attribute) {
      match attribute
      case Superuser => superuser
      case Createrole => createrole
      case Createdb => createdb
      case Replication => replication
      case Bypassrls => bypassrls
    }
  }

  // ----- the catalog and its closure

  datatype Role = Role(name: string, attributes: Attributes)

  datatype Membership = Membership(member: nat, roleid: nat)

  /** Roles by oid, and who is a member of what; cycles are allowed. */
  datatype Catalog = Catalog(roles: map<nat, Role>, members: seq<Membership>)

  datatype Connection = Connection(sessionUser: string, currentUser: string, systemUser: Option<string>)

  datatype Reach = Reach(subject: string, target: nat)

  ghost predicate UniqueNames(c: Catalog) {
    forall a, b :: a in c.roles && b in c.roles && c.roles[a].name == c.roles[b].name ==> a == b
  }

  /** A walk of at least one membership. */
  ghost predicate Walk(c: Catalog, path: seq<nat>) {
    && |path| >= 2
    && forall i :: 0 <= i < |path| - 1 ==> Membership(path[i], path[i + 1]) in c.members
  }

  ghost predicate Starts(c: Catalog, subjects: set<string>, subject: string, oid: nat) {
    oid in c.roles && c.roles[oid].name == subject && subject in subjects
  }

  ghost predicate WalkOf(c: Catalog, subjects: set<string>, r: Reach, path: seq<nat>) {
    Walk(c, path) && Starts(c, subjects, r.subject, path[0]) && path[|path| - 1] == r.target
  }

  ghost predicate Reached(c: Catalog, subjects: set<string>, r: Reach) {
    exists path :: WalkOf(c, subjects, r, path)
  }

  function DirectEdges(c: Catalog, subjects: set<string>): set<Reach> {
    set oid, m | oid in c.roles && c.roles[oid].name in subjects && m in c.members && m.member == oid
      :: Reach(c.roles[oid].name, m.roleid)
  }

  function OneFurther(c: Catalog, working: set<Reach>): set<Reach> {
    set r, m | r in working && m in c.members && m.member == r.target :: Reach(r.subject, m.roleid)
  }

  ghost function AllPairs(c: Catalog, subjects: set<string>): set<Reach> {
    set subject, m | subject in subjects && m in c.members :: Reach(subject, m.roleid)
  }

  lemma {:induction false} DirectIsReached(c: Catalog, subjects: set<string>, r: Reach)
    requires r in DirectEdges(c, subjects)
    ensures Reached(c, subjects, r)
  {
    var oid, m :| oid in c.roles && c.roles[oid].name in subjects && m in c.members && m.member == oid
                  && r == Reach(c.roles[oid].name, m.roleid);
    assert m == Membership(oid, r.target);
    assert WalkOf(c, subjects, r, [oid, r.target]);
  }

  lemma {:induction false} FurtherIsReached(c: Catalog, subjects: set<string>, r: Reach, target: nat)
    requires Reached(c, subjects, r) && Membership(r.target, target) in c.members
    ensures Reached(c, subjects, Reach(r.subject, target))
  {
    var path :| WalkOf(c, subjects, r, path);
    assert WalkOf(c, subjects, Reach(r.subject, target), path + [target]);
  }

  /** A set holding the direct edges and closed under one more step holds every walk's end. */
  lemma {:induction false} ClosedHoldsWalks(
      c: Catalog, subjects: set<string>, found: set<Reach>, r: Reach, path: seq<nat>)
    requires DirectEdges(c, subjects) <= found && OneFurther(c, found) <= found
    requires WalkOf(c, subjects, r, path)
    ensures r in found
    decreases |path|
  {
    var n := |path|;
    assert Membership(path[n - 2], path[n - 2 + 1]) in c.members;
    if n == 2 {
      assert r in DirectEdges(c, subjects);
    } else {
      var init := path[..n - 1];
      ClosedHoldsWalks(c, subjects, found, Reach(r.subject, init[n - 2]), init);
      assert r in OneFurther(c, found);
    }
  }

  /** Everything found is reached, and only the working rows still have unfollowed memberships. */
  ghost predicate Progress(c: Catalog, subjects: set<string>, found: set<Reach>, working: set<Reach>) {
    && DirectEdges(c, subjects) <= found <= AllPairs(c, subjects)
    && working <= found
    && (forall r :: r in found ==> Reached(c, subjects, r))
    && OneFurther(c, found - working) <= found
  }

  lemma {:induction false} ProgressStarts(c: Catalog, subjects: set<string>)
    ensures Progress(c, subjects, DirectEdges(c, subjects), DirectEdges(c, subjects))
  {
    var found := DirectEdges(c, subjects);
    forall r | r in found
      ensures Reached(c, subjects, r)
    {
      DirectIsReached(c, subjects, r);
    }
    assert found - found == {};
  }

  lemma {:induction false} ProgressKept(
      c: Catalog, subjects: set<string>, found: set<Reach>, working: set<Reach>, next: set<Reach>)
    requires Progress(c, subjects, found, working) && next == OneFurther(c, working) - found
    ensures Progress(c, subjects, found + next, next)
  {
    assert found + next - next == found;
    assert OneFurther(c, found) == OneFurther(c, found - working) + OneFurther(c, working) by {
      assert found == (found - working) + working;
    }
    forall r | r in next
      ensures Reached(c, subjects, r) && r in AllPairs(c, subjects)
    {
      var q, m :| q in working && m in c.members && m.member == q.target && r == Reach(q.subject, m.roleid);
      assert m == Membership(q.target, r.target) && q in AllPairs(c, subjects);
      FurtherIsReached(c, subjects, q, r.target);
    }
  }

  lemma {:induction false} ProgressEnds(c: Catalog, subjects: set<string>, found: set<Reach>)
    requires Progress(c, subjects, found, {})
    ensures forall r :: r in found <==> Reached(c, subjects, r)
  {
    assert found - {} == found;
    forall r | Reached(c, subjects, r)
      ensures r in found
    {
      var path :| WalkOf(c, subjects, r, path);
      ClosedHoldsWalks(c, subjects, found, r, path);
    }
  }

  /** The recursive query: it ends on every finite graph, with exactly the transitive closure. */
  method Closure(c: Catalog, subjects: set<string>) returns (found: set<Reach>)
    ensures forall r :: r in found <==> Reached(c, subjects, r)
  {
    found := DirectEdges(c, subjects);
    var working := found;
    ProgressStarts(c, subjects);
    while working != {}
      invariant Progress(c, subjects, found, working)
      decreases |AllPairs(c, subjects) - found| + (if working == {} then 0 else 1)
    {
      var next := OneFurther(c, working) - found;
      ProgressKept(c, subjects, found, working, next);
      StepProgress(AllPairs(c, subjects), found, next);
      found, working := found + next, next;
    }
    ProgressEnds(c, subjects, found);
  }

  lemma {:induction false} StepProgress<T>(all: set<T>, found: set<T>, next: set<T>)
    requires next <= all && next !! found
    ensures |all - (found + next)| == |all - found| - |next|
    ensures next == {} || |next| > 0
  {
    assert all - found == (all - (found + next)) + next;
  }

  // ----- the scan's rows

  datatype ScanRow =
    | SessionRow(sessionUser: string, currentUser: string)
    | SystemUserRow(systemUser: Option<string>)
    | SubjectRow(name: string, attributes: Attributes)
    | MembershipRow(subject: string, target: string, direct: bool, attributes: Attributes)
    | OtherRow(kind: string)

  function MembershipRowOf(c: Catalog, subjects: set<string>, r: Reach): ScanRow
    requires r.target in c.roles
  {
    var role := c.roles[r.target];
    MembershipRow(r.subject, role.name, r in DirectEdges(c, subjects), role.attributes)
  }

  /** The rows the statement returns. */
  ghost predicate Returned(c: Catalog, conn: Connection, subjects: set<string>, row: ScanRow) {
    || row == SessionRow(conn.sessionUser, conn.currentUser)
    || row == SystemUserRow(conn.systemUser)
    || (exists oid ::
          oid in c.roles && c.roles[oid].name in subjects
          && row == SubjectRow(c.roles[oid].name, c.roles[oid].attributes))
    || (exists r :: Reached(c, subjects, r) && r.target in c.roles && row == MembershipRowOf(c, subjects, r))
  }

  ghost predicate Scanned(c: Catalog, conn: Connection, subjects: set<string>, rows: seq<ScanRow>) {
    forall row :: row in rows <==> Returned(c, conn, subjects, row)
  }

  /** The order of the statement: by kind, subject and target. */
  function RowKey(): ScanRow -> Key {
    (row: ScanRow) =>
      match row
      case SessionRow(sessionUser, currentUser) => Key(0, "session", sessionUser, currentUser)
      case SystemUserRow(systemUser) => Key(0, "system_user", if systemUser.Some? then systemUser.value else "", "")
      case SubjectRow(name, _) => Key(0, "subject", name, "")
      case MembershipRow(subject, target, _, _) => Key(0, "membership", subject, target)
      case OtherRow(kind) => Key(0, kind, "", "")
  }

  lemma {:induction false} SameRowSameReach(c: Catalog, subjects: set<string>, a: Reach, b: Reach)
    requires UniqueNames(c) && a.target in c.roles && b.target in c.roles
    requires MembershipRowOf(c, subjects, a).subject == MembershipRowOf(c, subjects, b).subject
    requires MembershipRowOf(c, subjects, a).target == MembershipRowOf(c, subjects, b).target
    ensures a == b
  {
  }

  lemma {:induction false} DistinctSnoc<T>(xs: seq<T>, x: T)
    requires Distinct(xs) && x !in xs
    ensures Distinct(xs + [x])
  {
  }

  lemma {:induction false} DistinctAppend<T>(xs: seq<T>, ys: seq<T>)
    requires Distinct(xs) && Distinct(ys) && forall x :: x in xs ==> x !in ys
    ensures Distinct(xs + ys)
  {
    forall i, j | 0 <= i < j < |xs + ys|
      ensures (xs + ys)[i] != (xs + ys)[j]
    {
      assert i < |xs| ==> (xs + ys)[i] in xs;
      assert j >= |xs| ==> (xs + ys)[j] in ys;
    }
  }

  method SubjectRows(c: Catalog, subjects: set<string>) returns (rows: seq<ScanRow>)
    ensures forall row :: row in rows <==>
              exists oid :: oid in c.roles && c.roles[oid].name in subjects
                            && row == SubjectRow(c.roles[oid].name, c.roles[oid].attributes)
    ensures UniqueNames(c) ==> Distinct(rows)
  {
    rows := [];
    var roles := c.roles.Keys;
    while roles != {}
      invariant roles <= c.roles.Keys
      invariant forall row :: row in rows <==>
                  exists oid :: oid in c.roles && oid !in roles && c.roles[oid].name in subjects
                                && row == SubjectRow(c.roles[oid].name, c.roles[oid].attributes)
      invariant UniqueNames(c) ==> Distinct(rows)
      decreases |roles|
    {
      var oid :| oid in roles;
      roles := roles - {oid};
      if c.roles[oid].name in subjects {
        if UniqueNames(c) {
          assert SubjectRow(c.roles[oid].name, c.roles[oid].attributes) !in rows;
          DistinctSnoc(rows, SubjectRow(c.roles[oid].name, c.roles[oid].attributes));
        }
        rows := rows + [SubjectRow(c.roles[oid].name, c.roles[oid].attributes)];
      }
    }
  }

  method MembershipRows(c: Catalog, subjects: set<string>) returns (rows: seq<ScanRow>)
    ensures forall row :: row in rows <==>
              exists r :: Reached(c, subjects, r) && r.target in c.roles && row == MembershipRowOf(c, subjects, r)
    ensures UniqueNames(c) ==> Distinct(rows)
  {
    rows := [];
    var found := Closure(c, subjects);
    var left := found;
    while left != {}
      invariant left <= found
      invariant forall row :: row in rows <==>
                  exists r :: r in found && r !in left && r.target in c.roles && row == MembershipRowOf(c, subjects, r)
      invariant UniqueNames(c) ==> Distinct(rows)
      decreases |left|
    {
      var r :| r in left;
      if r.target in c.roles {
        NewMembershipRow(c, subjects, found, left, rows, r);
        rows := rows + [MembershipRowOf(c, subjects, r)];
      }
      left := left - {r};
    }
  }

  lemma {:induction false} NewMembershipRow(
      c: Catalog, subjects: set<string>, found: set<Reach>, left: set<Reach>, rows: seq<ScanRow>, r: Reach)
    requires r in left && r.target in c.roles
    requires forall row :: row in rows <==>
               exists q :: q in found && q !in left && q.target in c.roles && row == MembershipRowOf(c, subjects, q)
    ensures UniqueNames(c) ==> MembershipRowOf(c, subjects, r) !in rows
    ensures UniqueNames(c) && Distinct(rows) ==> Distinct(rows + [MembershipRowOf(c, subjects, r)])
  {
    if UniqueNames(c) && Distinct(rows) {
      DistinctSnoc(rows, MembershipRowOf(c, subjects, r));
    }
  }

  lemma {:induction false} PartsDistinct(conn: Connection, subjectRows: seq<ScanRow>, membershipRows: seq<ScanRow>)
    requires Distinct(subjectRows) && Distinct(membershipRows)
    requires (forall row :: row in subjectRows ==> row.SubjectRow?)
             && forall row :: row in membershipRows ==> row.MembershipRow?
    ensures Distinct([SessionRow(conn.sessionUser, conn.currentUser), SystemUserRow(conn.systemUser)]
                     + subjectRows + membershipRows)
  {
    var head := [SessionRow(conn.sessionUser, conn.currentUser), SystemUserRow(conn.systemUser)];
    DistinctAppend(head, subjectRows);
    DistinctAppend(head + subjectRows, membershipRows);
  }

  /** The rows come back in the statement's order and, role names being unique, without repetition. */
  method Scan(c: Catalog, conn: Connection, subjects: set<string>) returns (rows: seq<ScanRow>)
    ensures Scanned(c, conn, subjects, rows)
    ensures UniqueNames(c) ==> Distinct(rows)
    ensures forall i, j :: 0 <= i < j < |rows| ==> !Less(RowKey()(rows[j]), RowKey()(rows[i]))
  {
    var subjectRows := SubjectRows(c, subjects);
    var membershipRows := MembershipRows(c, subjects);
    var all := [SessionRow(conn.sessionUser, conn.currentUser), SystemUserRow(conn.systemUser)]
               + subjectRows + membershipRows;
    if UniqueNames(c) {
      PartsDistinct(conn, subjectRows, membershipRows);
      SortByDistinct(all, RowKey());
    }
    SortBySorted(all, RowKey());
    rows := SortBy(all, RowKey());
  }

  // ----- the observation

  datatype Edge = Edge(subject: string, target: string, direct: bool, attributes: Attributes)

  datatype Observation = Observation(
    sessionUser: string, currentUser: string, systemUser: Option<string>,
    subjectAttributes: map<string, Attributes>, edges: seq<Edge>)

  datatype ScanError = NoSessionRow

  datatype Reading = Reading(
    session: Option<(string, string)>, systemUser: Option<string>,
    subjectAttributes: map<string, Attributes>, edges: seq<Edge>)

  function ReadRow(reading: Reading, row: ScanRow): Reading {
    match row
    case SessionRow(sessionUser, currentUser) => reading.(session := Some((sessionUser, currentUser)))
    case SystemUserRow(systemUser) => reading.(systemUser := systemUser)
    case SubjectRow(name, attributes) =>
      reading.(subjectAttributes := reading.subjectAttributes[name := attributes])
    case MembershipRow(subject, target, direct, attributes) =>
      reading.(edges := reading.edges + [Edge(subject, target, direct, attributes)])
    case OtherRow(_) => reading
  }

  function ReadRows(rows: seq<ScanRow>): Reading {
    if rows == [] then Reading(None, None, map[], [])
    else ReadRow(ReadRows(rows[..|rows| - 1]), rows[|rows| - 1])
  }

  function Observe(rows: seq<ScanRow>): Result<Observation, ScanError> {
    var r := ReadRows(rows);
    if r.session.None? then Failure(NoSessionRow)
    else Success(Observation(r.session.value.0, r.session.value.1, r.systemUser, r.subjectAttributes, r.edges))
  }

  method ObservationFromRows(rows: seq<ScanRow>) returns (r: Result<Observation, ScanError>)
    ensures r == Observe(rows)
    ensures r.Success? <==> exists row :: row in rows && row.SessionRow?
  {
    var session: Option<(string, string)> := None;
    var systemUser: Option<string> := None;
    var subjectAttributes: map<string, Attributes> := map[];
    var edges: seq<Edge> := [];
    for i := 0 to |rows|
      invariant Reading(session, systemUser, subjectAttributes, edges) == ReadRows(rows[..i])
      invariant session.Some? <==> exists row :: row in rows[..i] && row.SessionRow?
    {
      PrefixStep(rows, i);
      InitLast(rows[..i + 1]);
      match rows[i]
      case SessionRow(sessionUser, currentUser) => session := Some((sessionUser, currentUser));
      case SystemUserRow(user) => systemUser := user;
      case SubjectRow(name, attributes) => subjectAttributes := subjectAttributes[name := attributes];
      case MembershipRow(subject, target, direct, attributes) =>
        edges := edges + [Edge(subject, target, direct, attributes)];
      case OtherRow(_) =>
    }
    assert rows[..|rows|] == rows;
    if session.None? {
      return Failure(NoSessionRow);
    }
    return Success(Observation(session.value.0, session.value.1, systemUser, subjectAttributes, edges));
  }

  /** Rows that agree with each other are read back whatever their order. */
  lemma {:induction false} ReadRowsFinds(rows: seq<ScanRow>, conn: Connection)
    requires forall row :: row in rows && row.SessionRow? ==> row == SessionRow(conn.sessionUser, conn.currentUser)
    requires forall row :: row in rows && row.SystemUserRow? ==> row == SystemUserRow(conn.systemUser)
    requires forall a, b :: a in rows && b in rows && a.SubjectRow? && b.SubjectRow? && a.name == b.name ==> a == b
    ensures var r := ReadRows(rows);
            && (r.session.Some? <==> exists row :: row in rows && row.SessionRow?)
            && (r.session.Some? ==> r.session.value == (conn.sessionUser, conn.currentUser))
            && ((exists row :: row in rows && row.SystemUserRow?) ==> r.systemUser == conn.systemUser)
            && (forall name, attributes ::
                  (name in r.subjectAttributes && r.subjectAttributes[name] == attributes) <==>
                      SubjectRow(name, attributes) in rows)
            && (forall e :: e in r.edges <==> MembershipRow(e.subject, e.target, e.direct, e.attributes) in rows)
  {
    if rows != [] {
      InitLast(rows);
      ReadRowsFinds(rows[..|rows| - 1], conn);
    }
  }

  // ----- the policies

  datatype Code =
    | AuthenticationIdentityMismatch
    | ExecutorDirectAttributeForbidden | ExecutorPrivilegedMembership
    | RuntimeDirectAttributeForbidden | RuntimePrivilegedMembership

  datatype Expectation = Expectation(method_: string, identity: string) {
    function AsSystemUser(): string { method_ + ":" + identity }
  }

  datatype Policy = Policy(
    subjects: set<string>,
    required: map<Attribute, bool>,
    forbiddenAttributes: set<Attribute>,
    forbiddenRoles: set<string>,
    directCode: Code,
    membershipCode: Code,
    authenticatedSubject: Option<string>,
    authentication: Option<Expectation>)

  const MIGRATION_EXECUTOR: string := "app_admin"

  const SERVER_FILE_OR_PROGRAM_ROLES: set<string> :=
    {"pg_read_server_files", "pg_write_server_files", "pg_execute_server_program"}

  const RUNTIME_AUTHORITY_SUBJECTS: set<string> :=
    {"app_user", "platform_api", "outbox_dispatcher", "platform_outbox_dispatcher"}

  const RUNTIME_POLICY: Policy := Policy(
    RUNTIME_AUTHORITY_SUBJECTS,
    map[Superuser := false, Createrole := false, Bypassrls := false],
    {Superuser, Createrole, Bypassrls}, SERVER_FILE_OR_PROGRAM_ROLES,
    RuntimeDirectAttributeForbidden, RuntimePrivilegedMembership, None, None)

  const EXECUTOR_POLICY: Policy := Policy(
    {MIGRATION_EXECUTOR},
    map[Bypassrls := true, Superuser := false, Createrole := false, Createdb := false, Replication := false],
    {Superuser, Createrole}, SERVER_FILE_OR_PROGRAM_ROLES,
    ExecutorDirectAttributeForbidden, ExecutorPrivilegedMembership, Some(MIGRATION_EXECUTOR), None)

  const AUTHORITY_SUBJECTS: set<string> := RUNTIME_POLICY.subjects + EXECUTOR_POLICY.subjects

  // ----- the verdict

  datatype Reason = HasAttribute(attribute: Attribute) | ServerFileOrProgramAccess

  datatype Finding =
    | RunningAs(sessionUser: string, currentUser: string)
    | WrongIdentity(currentUser: string, expected: string)
    | NoSystemUser(wanted: string)
    | WrongSystemUser(systemUser: string, wanted: string)
    | WrongAttribute(subject: string, attribute: Attribute, required: bool)
    | ReachesForbidden(subject: string, target: string, direct: bool, reasons: seq<Reason>)

  datatype Violation = Violation(code: Code, finding: Finding)

  function IdentityFindings(expected: string, o: Observation): seq<Violation> {
    if o.sessionUser != o.currentUser then
      [Violation(AuthenticationIdentityMismatch, RunningAs(o.sessionUser, o.currentUser))]
    else if o.currentUser != expected then
      [Violation(AuthenticationIdentityMismatch, WrongIdentity(o.currentUser, expected))]
    else []
  }

  function SystemUserFindings(e: Expectation, o: Observation): seq<Violation> {
    if o.systemUser.None? then
      [Violation(AuthenticationIdentityMismatch, NoSystemUser(e.AsSystemUser()))]
    else if o.systemUser.value != e.AsSystemUser() then
      [Violation(AuthenticationIdentityMismatch, WrongSystemUser(o.systemUser.value, e.AsSystemUser()))]
    else []
  }

  function AuthenticationFindings(p: Policy, o: Observation): seq<Violation> {
    if p.authenticatedSubject.None? then []
    else if p.authentication.None? then IdentityFindings(p.authenticatedSubject.value, o)
    else IdentityFindings(p.authenticatedSubject.value, o) + SystemUserFindings(p.authentication.value, o)
  }

  function AttributeFinding(p: Policy, subject: string, attributes: Attributes): Attribute -> seq<Violation> {
    (a: Attribute) =>
      if a !in p.required || attributes.Held(a) == p.required[a] then []
      else [Violation(p.directCode, WrongAttribute(subject, a, p.required[a]))]
  }

  function SubjectFindings(p: Policy, o: Observation, names: seq<Attribute>): Key -> seq<Violation> {
    (k: Key) =>
      if k.first !in o.subjectAttributes then []
      else Collect(names, AttributeFinding(p, k.first, o.subjectAttributes[k.first]))
  }

  function SubjectKeys(p: Policy): set<Key> { set subject | subject in p.subjects :: Single(subject) }

  function DirectFindings(p: Policy, o: Observation, names: seq<Attribute>): seq<Violation> {
    Collect(SortedKeys(SubjectKeys(p)), SubjectFindings(p, o, names))
  }

  function Forbidden(p: Policy, attributes: Attributes): Attribute -> seq<Reason> {
    (a: Attribute) => if a in p.forbiddenAttributes && attributes.Held(a) then [HasAttribute(a)] else []
  }

  function Reasons(p: Policy, target: string, attributes: Attributes, names: seq<Attribute>): seq<Reason> {
    Collect(names, Forbidden(p, attributes)) + (if target in p.forbiddenRoles then [ServerFileOrProgramAccess] else [])
  }

  function EdgeKey(): Edge -> Key { (e: Edge) => Pair(e.subject, e.target) }

  function EdgeFindings(p: Policy, names: seq<Attribute>): Edge -> seq<Violation> {
    (e: Edge) =>
      if e.subject !in p.subjects || Reasons(p, e.target, e.attributes, names) == [] then []
      else [Violation(p.membershipCode, ReachesForbidden(e.subject, e.target, e.direct,
                                                         Reasons(p, e.target, e.attributes, names)))]
  }

  function MembershipFindings(p: Policy, o: Observation, names: seq<Attribute>): seq<Violation> {
    Collect(SortBy(o.edges, EdgeKey()), EdgeFindings(p, names))
  }

  function AuthorityFindings(p: Policy, o: Observation): seq<Violation> {
    AuthenticationFindings(p, o) + DirectFindings(p, o, ATTRIBUTE_NAMES) + MembershipFindings(p, o, ATTRIBUTE_NAMES)
  }

  // ----- the verdict, computed

  method AuthenticationViolations(p: Policy, o: Observation) returns (violations: seq<Violation>)
    ensures violations == AuthenticationFindings(p, o)
  {
    if p.authenticatedSubject.None? {
      return [];
    }
    var expected := p.authenticatedSubject.value;
    violations := [];
    if o.sessionUser != o.currentUser {
      violations := violations + [Violation(AuthenticationIdentityMismatch, RunningAs(o.sessionUser, o.currentUser))];
    } else if o.currentUser != expected {
      violations := violations + [Violation(AuthenticationIdentityMismatch, WrongIdentity(o.currentUser, expected))];
    }
    if p.authentication.None? {
      return;
    }
    var wanted := p.authentication.value.AsSystemUser();
    if o.systemUser.None? {
      violations := violations + [Violation(AuthenticationIdentityMismatch, NoSystemUser(wanted))];
    } else if o.systemUser.value != wanted {
      violations := violations + [Violation(AuthenticationIdentityMismatch,
                                            WrongSystemUser(o.systemUser.value, wanted))];
    }
  }

  method AttributeViolations(p: Policy, subject: string, attributes: Attributes, names: seq<Attribute>)
    returns (violations: seq<Violation>)
    ensures violations == Collect(names, AttributeFinding(p, subject, attributes))
  {
    violations := [];
    for i := 0 to |names|
      invariant violations == Collect(names[..i], AttributeFinding(p, subject, attributes))
    {
      PrefixStep(names, i);
      if names[i] !in p.required {
        continue;
      }
      var required := p.required[names[i]];
      if attributes.Held(names[i]) == required {
        continue;
      }
      violations := violations + [Violation(p.directCode, WrongAttribute(subject, names[i], required))];
    }
    assert names[..|names|] == names;
  }

  method DirectAttributeViolations(p: Policy, o: Observation, names: seq<Attribute>)
      returns (violations: seq<Violation>)
    ensures violations == DirectFindings(p, o, names)
  {
    violations := [];
    var subjects := SortedKeys(SubjectKeys(p));
    for i := 0 to |subjects|
      invariant violations == Collect(subjects[..i], SubjectFindings(p, o, names))
    {
      PrefixStep(subjects, i);
      if subjects[i].first !in o.subjectAttributes {
        continue;
      }
      var found := AttributeViolations(p, subjects[i].first, o.subjectAttributes[subjects[i].first], names);
      violations := violations + found;
    }
    assert subjects[..|subjects|] == subjects;
  }

  method ReasonsFor(p: Policy, edge: Edge, names: seq<Attribute>) returns (reasons: seq<Reason>)
    ensures reasons == Reasons(p, edge.target, edge.attributes, names)
  {
    reasons := [];
    for i := 0 to |names|
      invariant reasons == Collect(names[..i], Forbidden(p, edge.attributes))
    {
      PrefixStep(names, i);
      if names[i] in p.forbiddenAttributes && edge.attributes.Held(names[i]) {
        reasons := reasons + [HasAttribute(names[i])];
      }
    }
    assert names[..|names|] == names;
    if edge.target in p.forbiddenRoles {
      reasons := reasons + [ServerFileOrProgramAccess];
    }
  }

  method MembershipViolations(p: Policy, o: Observation, names: seq<Attribute>) returns (violations: seq<Violation>)
    ensures violations == MembershipFindings(p, o, names)
  {
    violations := [];
    var edges := SortBy(o.edges, EdgeKey());
    for i := 0 to |edges|
      invariant violations == Collect(edges[..i], EdgeFindings(p, names))
    {
      PrefixStep(edges, i);
      if edges[i].subject !in p.subjects {
        continue;
      }
      var reasons := ReasonsFor(p, edges[i], names);
      if reasons == [] {
        continue;
      }
      violations := violations + [
        Violation(p.membershipCode, ReachesForbidden(edges[i].subject, edges[i].target, edges[i].direct, reasons))];
    }
    assert edges[..|edges|] == edges;
  }

  method RoleAuthorityViolations(p: Policy, o: Observation) returns (violations: seq<Violation>)
    ensures violations == AuthorityFindings(p, o)
  {
    var authentication := AuthenticationViolations(p, o);
    var direct := DirectAttributeViolations(p, o, ATTRIBUTE_NAMES);
    var membership := MembershipViolations(p, o, ATTRIBUTE_NAMES);
    violations := authentication + direct + membership;
  }

  // ----- what the verdict says about the catalog

  ghost predicate AuthenticationMatches(p: Policy, conn: Connection) {
    p.authenticatedSubject.Some? ==>
      && conn.sessionUser == conn.currentUser == p.authenticatedSubject.value
      && (p.authentication.Some? ==> conn.systemUser == Some(p.authentication.value.AsSystemUser()))
  }

  ghost predicate AttributesRequired(p: Policy, c: Catalog) {
    forall oid, a :: oid in c.roles && c.roles[oid].name in p.subjects && a in p.required ==>
      c.roles[oid].attributes.Held(a) == p.required[a]
  }

  ghost predicate ForbiddenTarget(p: Policy, role: Role) {
    role.name in p.forbiddenRoles || exists a :: a in p.forbiddenAttributes && role.attributes.Held(a)
  }

  /** No chain of memberships leads a subject of the policy to a role it must not reach. */
  ghost predicate NoForbiddenWalk(p: Policy, c: Catalog) {
    forall path :: Walk(c, path) && path[0] in c.roles && c.roles[path[0]].name in p.subjects
      && path[|path| - 1] in c.roles
      ==> !ForbiddenTarget(p, c.roles[path[|path| - 1]])
  }

  lemma {:induction false} ScanIsRead(c: Catalog, conn: Connection, subjects: set<string>, rows: seq<ScanRow>)
    requires UniqueNames(c) && Scanned(c, conn, subjects, rows)
    ensures Observe(rows).Success?
    ensures var o := Observe(rows).value;
            && o.sessionUser == conn.sessionUser && o.currentUser == conn.currentUser && o.systemUser == conn.systemUser
            && (forall name, attributes :: (name in o.subjectAttributes && o.subjectAttributes[name] == attributes) <==>
                  Returned(c, conn, subjects, SubjectRow(name, attributes)))
            && (forall e :: e in o.edges <==>
                  Returned(c, conn, subjects, MembershipRow(e.subject, e.target, e.direct, e.attributes)))
  {
    assert Returned(c, conn, subjects, SessionRow(conn.sessionUser, conn.currentUser));
    assert Returned(c, conn, subjects, SystemUserRow(conn.systemUser));
    ReadRowsFinds(rows, conn);
  }

  lemma {:induction false} AuthenticationExact(p: Policy, o: Observation, conn: Connection)
    requires o.sessionUser == conn.sessionUser && o.currentUser == conn.currentUser && o.systemUser == conn.systemUser
    ensures AuthenticationFindings(p, o) == [] <==> AuthenticationMatches(p, conn)
  {
  }

  lemma {:induction false} SubjectExact(p: Policy, subject: string, attributes: Attributes, names: seq<Attribute>)
    requires forall a: Attribute :: a in names
    ensures Collect(names, AttributeFinding(p, subject, attributes)) == [] <==>
            forall a :: a in p.required ==> attributes.Held(a) == p.required[a]
  {
    var f := AttributeFinding(p, subject, attributes);
    CollectEmpty(names, f);
    assert forall a :: a in p.required ==> (f(a) == [] <==> attributes.Held(a) == p.required[a]);
    assert forall a :: a !in p.required ==> f(a) == [];
  }

  lemma {:induction false} DirectExact(p: Policy, o: Observation, names: seq<Attribute>)
    requires forall a: Attribute :: a in names
    ensures DirectFindings(p, o, names) == [] <==>
            forall subject, a :: subject in p.subjects && subject in o.subjectAttributes && a in p.required ==>
              o.subjectAttributes[subject].Held(a) == p.required[a]
  {
    CollectEmpty(SortedKeys(SubjectKeys(p)), SubjectFindings(p, o, names));
    forall subject | subject in p.subjects && subject in o.subjectAttributes
      ensures SubjectFindings(p, o, names)(Single(subject)) == [] <==>
              forall a :: a in p.required ==> o.subjectAttributes[subject].Held(a) == p.required[a]
    {
      SubjectExact(p, subject, o.subjectAttributes[subject], names);
    }
    assert forall subject :: subject in p.subjects ==> Single(subject) in SortedKeys(SubjectKeys(p));
  }

  lemma {:induction false} ReasonsExact(p: Policy, role: Role, names: seq<Attribute>)
    requires forall a: Attribute :: a in names
    ensures Reasons(p, role.name, role.attributes, names) == [] <==> !ForbiddenTarget(p, role)
  {
    var f := Forbidden(p, role.attributes);
    CollectEmpty(names, f);
    assert forall a :: f(a) == [] <==> !(a in p.forbiddenAttributes && role.attributes.Held(a));
  }

  /** The refusal of one reachable role: who reaches what, by one grant or a chain, and why it is forbidden. */
  function Refusal(p: Policy, c: Catalog, subjects: set<string>, r: Reach, names: seq<Attribute>): Violation
    requires r.target in c.roles
  {
    var role := c.roles[r.target];
    Violation(p.membershipCode,
              ReachesForbidden(r.subject, role.name, r in DirectEdges(c, subjects),
                               Reasons(p, role.name, role.attributes, names)))
  }

  ghost predicate RefusedReach(p: Policy, c: Catalog, subjects: set<string>, r: Reach) {
    r.subject in p.subjects && r.target in c.roles && Reached(c, subjects, r) && ForbiddenTarget(p, c.roles[r.target])
  }

  lemma {:induction false} RefusalHasWalk(
      p: Policy, c: Catalog, subjects: set<string>, e: Edge, names: seq<Attribute>, r: Reach)
    requires forall a: Attribute :: a in names
    requires Reached(c, subjects, r) && r.target in c.roles
    requires MembershipRow(e.subject, e.target, e.direct, e.attributes) == MembershipRowOf(c, subjects, r)
    ensures EdgeFindings(p, names)(e) ==
            if RefusedReach(p, c, subjects, r) then [Refusal(p, c, subjects, r, names)] else []
  {
    ReasonsExact(p, c.roles[r.target], names);
  }

  ghost predicate EdgesOf(c: Catalog, conn: Connection, subjects: set<string>, edges: seq<Edge>) {
    forall e :: e in edges <==> Returned(c, conn, subjects, MembershipRow(e.subject, e.target, e.direct, e.attributes))
  }

  lemma {:induction false} EdgeIsReached(c: Catalog, conn: Connection, subjects: set<string>, e: Edge)
      returns (r: Reach)
    requires Returned(c, conn, subjects, MembershipRow(e.subject, e.target, e.direct, e.attributes))
    ensures Reached(c, subjects, r) && r.target in c.roles
    ensures MembershipRow(e.subject, e.target, e.direct, e.attributes) == MembershipRowOf(c, subjects, r)
  {
    r :| Reached(c, subjects, r) && r.target in c.roles
         && MembershipRow(e.subject, e.target, e.direct, e.attributes) == MembershipRowOf(c, subjects, r);
  }

  lemma {:induction false} RefusalsAreWalks(
      p: Policy, c: Catalog, conn: Connection, subjects: set<string>, edges: seq<Edge>, names: seq<Attribute>,
      v: Violation)
    requires EdgesOf(c, conn, subjects, edges)
    requires forall a: Attribute :: a in names
    requires v in Collect(SortBy(edges, EdgeKey()), EdgeFindings(p, names))
    ensures exists r :: RefusedReach(p, c, subjects, r) && v == Refusal(p, c, subjects, r, names)
  {
    CollectMembers(SortBy(edges, EdgeKey()), EdgeFindings(p, names));
    var e :| e in edges && v in EdgeFindings(p, names)(e);
    var r := EdgeIsReached(c, conn, subjects, e);
    RefusalHasWalk(p, c, subjects, e, names, r);
  }

  lemma {:induction false} WalksAreRefused(
      p: Policy, c: Catalog, conn: Connection, subjects: set<string>, edges: seq<Edge>, names: seq<Attribute>, r: Reach)
    requires EdgesOf(c, conn, subjects, edges)
    requires forall a: Attribute :: a in names
    requires RefusedReach(p, c, subjects, r)
    ensures Refusal(p, c, subjects, r, names) in Collect(SortBy(edges, EdgeKey()), EdgeFindings(p, names))
  {
    CollectMembers(SortBy(edges, EdgeKey()), EdgeFindings(p, names));
    var row := MembershipRowOf(c, subjects, r);
    var e := Edge(row.subject, row.target, row.direct, row.attributes);
    assert Returned(c, conn, subjects, row) && e in edges;
    RefusalHasWalk(p, c, subjects, e, names, r);
  }

  /** The membership refusals are exactly the forbidden roles some walk reaches. */
  lemma {:induction false} MembershipExact(
      p: Policy, c: Catalog, conn: Connection, subjects: set<string>, rows: seq<ScanRow>, names: seq<Attribute>,
      v: Violation)
    requires UniqueNames(c) && Scanned(c, conn, subjects, rows) && Observe(rows).Success?
    requires forall a: Attribute :: a in names
    ensures v in MembershipFindings(p, Observe(rows).value, names) <==>
            exists r :: RefusedReach(p, c, subjects, r) && v == Refusal(p, c, subjects, r, names)
  {
    ScanIsRead(c, conn, subjects, rows);
    var edges := Observe(rows).value.edges;
    if v in MembershipFindings(p, Observe(rows).value, names) {
      RefusalsAreWalks(p, c, conn, subjects, edges, names, v);
    }
    if r :| RefusedReach(p, c, subjects, r) && v == Refusal(p, c, subjects, r, names) {
      WalksAreRefused(p, c, conn, subjects, edges, names, r);
    }
  }

  // ----- each pair once, in order

  lemma {:induction false} EdgesAreRows(rows: seq<ScanRow>)
    ensures forall e :: e in ReadRows(rows).edges <==>
              MembershipRow(e.subject, e.target, e.direct, e.attributes) in rows
  {
    if rows != [] {
      InitLast(rows);
      EdgesAreRows(rows[..|rows| - 1]);
    }
  }

  lemma {:induction false} EdgesDistinct(rows: seq<ScanRow>)
    requires Distinct(rows)
    ensures Distinct(ReadRows(rows).edges)
  {
    if rows != [] {
      var init, last := rows[..|rows| - 1], rows[|rows| - 1];
      EdgesDistinct(init);
      EdgesAreRows(init);
      if last.MembershipRow? {
        DistinctSnoc(ReadRows(init).edges, Edge(last.subject, last.target, last.direct, last.attributes));
      }
    }
  }

  lemma {:induction false} EdgeOfPair(
      c: Catalog, conn: Connection, subjects: set<string>, edges: seq<Edge>, a: Edge, b: Edge)
    requires UniqueNames(c) && EdgesOf(c, conn, subjects, edges) && a in edges && b in edges
    requires a.subject == b.subject && a.target == b.target
    ensures a == b
  {
    var q := EdgeIsReached(c, conn, subjects, a);
    var r := EdgeIsReached(c, conn, subjects, b);
    SameRowSameReach(c, subjects, q, r);
  }

  /** Sorted edges, no two of one subject and target. */
  ghost predicate EdgesAscend(edges: seq<Edge>) {
    forall i, j :: 0 <= i < j < |edges| ==> Less(EdgeKey()(edges[i]), EdgeKey()(edges[j]))
  }

  lemma {:induction false} SortedAscend(c: Catalog, conn: Connection, subjects: set<string>, edges: seq<Edge>)
    requires UniqueNames(c) && EdgesOf(c, conn, subjects, edges) && Distinct(edges)
    ensures EdgesAscend(SortBy(edges, EdgeKey()))
  {
    var sorted := SortBy(edges, EdgeKey());
    SortByDistinct(edges, EdgeKey());
    SortBySorted(edges, EdgeKey());
    forall i, j | 0 <= i < j < |sorted|
      ensures Less(EdgeKey()(sorted[i]), EdgeKey()(sorted[j]))
    {
      assert sorted[i] in edges && sorted[j] in edges;
      LessTotal(EdgeKey()(sorted[i]), EdgeKey()(sorted[j]));
      if EdgeKey()(sorted[i]) == EdgeKey()(sorted[j]) {
        EdgeOfPair(c, conn, subjects, edges, sorted[i], sorted[j]);
      }
    }
  }

  /** Whom a membership refusal names, and what it says is reached. */
  function PairOf(v: Violation): Key
    requires v.finding.ReachesForbidden?
  {
    Pair(v.finding.subject, v.finding.target)
  }

  ghost predicate RefusalsAscend(found: seq<Violation>) {
    && (forall v :: v in found ==> v.finding.ReachesForbidden?)
    && forall i, j :: 0 <= i < j < |found| ==> Less(PairOf(found[i]), PairOf(found[j]))
  }

  /** Every refusal is of one of the edges. */
  ghost predicate OfEdges(found: seq<Violation>, edges: seq<Edge>) {
    forall v :: v in found ==> v.finding.ReachesForbidden? && exists e :: e in edges && PairOf(v) == EdgeKey()(e)
  }

  lemma {:induction false} BelowTheLast(found: seq<Violation>, edges: seq<Edge>, v: Violation)
    requires edges != [] && EdgesAscend(edges) && OfEdges(found, edges[..|edges| - 1]) && v in found
    ensures Less(PairOf(v), EdgeKey()(edges[|edges| - 1]))
  {
    var e :| e in edges[..|edges| - 1] && PairOf(v) == EdgeKey()(e);
    var i :| 0 <= i < |edges| - 1 && edges[..|edges| - 1][i] == e;
    assert edges[i] == e;
  }

  lemma {:induction false} MoreOfEdges(before: seq<Violation>, more: seq<Violation>, init: seq<Edge>, last: Edge)
    requires OfEdges(before, init)
    requires more == [] || (|more| == 1 && more[0].finding.ReachesForbidden? && PairOf(more[0]) == EdgeKey()(last))
    ensures OfEdges(before + more, init + [last])
  {
    forall v | v in before + more
      ensures v.finding.ReachesForbidden? && exists e :: e in init + [last] && PairOf(v) == EdgeKey()(e)
    {
      if v in before {
        var e :| e in init && PairOf(v) == EdgeKey()(e);
        assert e in init + [last];
      } else {
        assert v == more[0] && last in init + [last];
      }
    }
  }

  lemma {:induction false} CollectedAscend(p: Policy, names: seq<Attribute>, edges: seq<Edge>)
    requires EdgesAscend(edges)
    ensures RefusalsAscend(Collect(edges, EdgeFindings(p, names)))
            && OfEdges(Collect(edges, EdgeFindings(p, names)), edges)
  {
    if edges != [] {
      var init, last := edges[..|edges| - 1], edges[|edges| - 1];
      InitLast(edges);
      CollectedAscend(p, names, init);
      var before, more := Collect(init, EdgeFindings(p, names)), EdgeFindings(p, names)(last);
      forall v | v in before
        ensures Less(PairOf(v), EdgeKey()(last))
      {
        BelowTheLast(before, edges, v);
      }
      MoreOfEdges(before, more, init, last);
      AscendSnoc(before, more, EdgeKey()(last));
    }
  }

  lemma {:induction false} AscendSnoc(before: seq<Violation>, more: seq<Violation>, k: Key)
    requires RefusalsAscend(before) && forall v :: v in before ==> Less(PairOf(v), k)
    requires more == [] || (|more| == 1 && more[0].finding.ReachesForbidden? && PairOf(more[0]) == k)
    ensures RefusalsAscend(before + more)
  {
    forall i, j | 0 <= i < j < |before + more|
      ensures Less(PairOf((before + more)[i]), PairOf((before + more)[j]))
    {
      assert i < |before| && before[i] in before;
    }
  }

  /**
   When the scan repeats no row, the membership refusals ascend by subject and
   target, and each forbidden pair is reported exactly once.
   */
  lemma {:induction false} MembershipOnce(
      p: Policy, c: Catalog, conn: Connection, subjects: set<string>, rows: seq<ScanRow>, names: seq<Attribute>)
    requires UniqueNames(c) && Scanned(c, conn, subjects, rows) && Distinct(rows) && Observe(rows).Success?
    requires forall a: Attribute :: a in names
    ensures var found := MembershipFindings(p, Observe(rows).value, names);
            && RefusalsAscend(found)
            && (forall r :: RefusedReach(p, c, subjects, r) ==> multiset(found)[Refusal(p, c, subjects, r, names)] == 1)
  {
    ScanIsRead(c, conn, subjects, rows);
    var edges := Observe(rows).value.edges;
    var found := MembershipFindings(p, Observe(rows).value, names);
    EdgesDistinct(rows);
    SortedAscend(c, conn, subjects, edges);
    CollectedAscend(p, names, SortBy(edges, EdgeKey()));
    AscendingOnce(found);
    DistinctMultiplicity(found);
    forall r | RefusedReach(p, c, subjects, r)
      ensures multiset(found)[Refusal(p, c, subjects, r, names)] == 1
    {
      WalksAreRefused(p, c, conn, subjects, edges, names, r);
    }
  }

  /** Two refusals that read the same are of one pair. */
  lemma {:induction false} RefusalTellsThePair(
      p: Policy, c: Catalog, subjects: set<string>, names: seq<Attribute>, q: Reach, r: Reach)
    requires UniqueNames(c) && q.target in c.roles && r.target in c.roles
    requires Refusal(p, c, subjects, q, names) == Refusal(p, c, subjects, r, names)
    ensures q == r
  {
    SameRowSameReach(c, subjects, q, r);
  }

  lemma {:induction false} AscendingOnce(found: seq<Violation>)
    requires RefusalsAscend(found)
    ensures Distinct(found)
  {
    forall i, j | 0 <= i < j < |found|
      ensures found[i] != found[j]
    {
      LessIrreflexive(PairOf(found[i]), PairOf(found[j]));
    }
  }

  lemma {:induction false} NoWalkNoRefusal(p: Policy, c: Catalog, subjects: set<string>)
    requires p.subjects <= subjects
    ensures NoForbiddenWalk(p, c) <==> forall r :: !RefusedReach(p, c, subjects, r)
  {
    if r :| RefusedReach(p, c, subjects, r) {
      var path :| WalkOf(c, subjects, r, path);
      assert ForbiddenTarget(p, c.roles[path[|path| - 1]]);
    }
    if forall r :: !RefusedReach(p, c, subjects, r) {
      forall path | Walk(c, path) && path[0] in c.roles && c.roles[path[0]].name in p.subjects
          && path[|path| - 1] in c.roles
        ensures !ForbiddenTarget(p, c.roles[path[|path| - 1]])
      {
        var r := Reach(c.roles[path[0]].name, path[|path| - 1]);
        assert WalkOf(c, subjects, r, path);
        assert !RefusedReach(p, c, subjects, r);
      }
    }
  }

  /**
   The verdict is empty exactly when the connection authenticated as required,
   every subject that exists holds the required attributes, and no walk leads a
   subject to a forbidden role.
   */
  lemma {:induction false} VerdictExact(
      p: Policy, c: Catalog, conn: Connection, subjects: set<string>, rows: seq<ScanRow>)
    requires UniqueNames(c) && Scanned(c, conn, subjects, rows) && p.subjects <= subjects
    ensures Observe(rows).Success?
    ensures AuthorityFindings(p, Observe(rows).value) == [] <==>
            AuthenticationMatches(p, conn) && AttributesRequired(p, c) && NoForbiddenWalk(p, c)
  {
    ScanIsRead(c, conn, subjects, rows);
    var o := Observe(rows).value;
    EveryAttributeNamed();
    AuthenticationExact(p, o, conn);
    DirectExact(p, o, ATTRIBUTE_NAMES);
    SubjectsAsInCatalog(p, c, conn, subjects, o);
    NoWalkNoRefusal(p, c, subjects);
    var found := MembershipFindings(p, o, ATTRIBUTE_NAMES);
    forall v
      ensures v in found <==>
              exists r :: RefusedReach(p, c, subjects, r) && v == Refusal(p, c, subjects, r, ATTRIBUTE_NAMES)
    {
      MembershipExact(p, c, conn, subjects, rows, ATTRIBUTE_NAMES, v);
    }
    assert found == [] || found[0] in found;
    assert forall r :: RefusedReach(p, c, subjects, r) ==> Refusal(p, c, subjects, r, ATTRIBUTE_NAMES) in found;
  }

  lemma {:induction false} EveryAttributeNamed()
    ensures forall a: Attribute :: a in ATTRIBUTE_NAMES
  {
    forall a: Attribute
      ensures a in ATTRIBUTE_NAMES
    {
      match a
      case Superuser => assert ATTRIBUTE_NAMES[0] == a;
      case Createrole => assert ATTRIBUTE_NAMES[1] == a;
      case Createdb => assert ATTRIBUTE_NAMES[2] == a;
      case Replication => assert ATTRIBUTE_NAMES[3] == a;
      case Bypassrls => assert ATTRIBUTE_NAMES[4] == a;
    }
  }

  lemma {:induction false} SubjectsAsInCatalog(
      p: Policy, c: Catalog, conn: Connection, subjects: set<string>, o: Observation)
    requires UniqueNames(c) && p.subjects <= subjects
    requires forall name, attributes :: (name in o.subjectAttributes && o.subjectAttributes[name] == attributes) <==>
               Returned(c, conn, subjects, SubjectRow(name, attributes))
    ensures AttributesRequired(p, c) <==>
            forall subject, a :: subject in p.subjects && subject in o.subjectAttributes && a in p.required ==>
              o.subjectAttributes[subject].Held(a) == p.required[a]
  {
    forall oid | oid in c.roles && c.roles[oid].name in p.subjects
      ensures c.roles[oid].name in o.subjectAttributes
              && o.subjectAttributes[c.roles[oid].name] == c.roles[oid].attributes
    {
      assert Returned(c, conn, subjects, SubjectRow(c.roles[oid].name, c.roles[oid].attributes));
    }
    forall subject | subject in p.subjects && subject in o.subjectAttributes
      ensures exists oid ::
                oid in c.roles && c.roles[oid].name == subject
                && c.roles[oid].attributes == o.subjectAttributes[subject]
    {
      assert Returned(c, conn, subjects, SubjectRow(subject, o.subjectAttributes[subject]));
    }
  }

  /**
   Both policies judge the one reading exactly; and when both are satisfied and
   the executor exists, no runtime role reaches the executor by any walk.
   */
  lemma {:induction false} OneReadingTwoPolicies(c: Catalog, conn: Connection, rows: seq<ScanRow>, path: seq<nat>)
    requires UniqueNames(c) && Scanned(c, conn, AUTHORITY_SUBJECTS, rows) && Observe(rows).Success?
    requires AuthorityFindings(RUNTIME_POLICY, Observe(rows).value) == []
    requires AuthorityFindings(EXECUTOR_POLICY, Observe(rows).value) == []
    requires Walk(c, path) && path[0] in c.roles && c.roles[path[0]].name in RUNTIME_AUTHORITY_SUBJECTS
    requires path[|path| - 1] in c.roles
    ensures c.roles[path[|path| - 1]].name != MIGRATION_EXECUTOR
  {
    VerdictExact(RUNTIME_POLICY, c, conn, AUTHORITY_SUBJECTS, rows);
    VerdictExact(EXECUTOR_POLICY, c, conn, AUTHORITY_SUBJECTS, rows);
    var target := c.roles[path[|path| - 1]];
    assert !ForbiddenTarget(RUNTIME_POLICY, target);
    assert Bypassrls in RUNTIME_POLICY.forbiddenAttributes && Bypassrls in EXECUTOR_POLICY.required;
    assert !target.attributes.Held(Bypassrls);
  }

  // ----- which findings, each once, in order

  function Spelling(a: Attribute): nat {
    match a
    case Superuser => 0
    case Createrole => 1
    case Createdb => 2
    case Replication => 3
    case Bypassrls => 4
  }

  lemma {:induction false} AttributesInOrder()
    ensures |ATTRIBUTE_NAMES| == 5 && forall i :: 0 <= i < 5 ==> Spelling(ATTRIBUTE_NAMES[i]) == i
    ensures forall a :: a in ATTRIBUTE_NAMES
  {
    EveryAttributeNamed();
  }

  /** `subject` holds `a` other than the policy requires. */
  ghost predicate WronglyHeld(p: Policy, o: Observation, subject: string, a: Attribute) {
    && subject in p.subjects && subject in o.subjectAttributes && a in p.required
    && o.subjectAttributes[subject].Held(a) != p.required[a]
  }

  /** Exactly the wrongly held attributes of the subjects that exist are reported, with the value required. */
  lemma {:induction false} DirectMembers(p: Policy, o: Observation, names: seq<Attribute>, v: Violation)
    requires forall a: Attribute :: a in names
    ensures v in DirectFindings(p, o, names) <==>
            exists subject, a ::
              WronglyHeld(p, o, subject, a) && v == Violation(p.directCode, WrongAttribute(subject, a, p.required[a]))
  {
    CollectMembers(SortedKeys(SubjectKeys(p)), SubjectFindings(p, o, names));
    if v in DirectFindings(p, o, names) {
      var k :| k in SubjectKeys(p) && v in SubjectFindings(p, o, names)(k);
      CollectMembers(names, AttributeFinding(p, k.first, o.subjectAttributes[k.first]));
      var a :| a in names && v in AttributeFinding(p, k.first, o.subjectAttributes[k.first])(a);
      assert WronglyHeld(p, o, k.first, a);
    }
    if subject, a :| WronglyHeld(p, o, subject, a)
                     && v == Violation(p.directCode, WrongAttribute(subject, a, p.required[a])) {
      CollectMembers(names, AttributeFinding(p, subject, o.subjectAttributes[subject]));
      assert v in AttributeFinding(p, subject, o.subjectAttributes[subject])(a);
      assert Single(subject) in SubjectKeys(p);
      assert v in SubjectFindings(p, o, names)(Single(subject));
    }
  }

  /** Subject before subject, and attribute before attribute of one subject. */
  function DirectBefore(): (Violation, Violation) -> bool {
    (v: Violation, w: Violation) =>
      && v.finding.WrongAttribute? && w.finding.WrongAttribute?
      && (StringLess(v.finding.subject, w.finding.subject)
          || (v.finding.subject == w.finding.subject
              && Spelling(v.finding.attribute) < Spelling(w.finding.attribute)))
  }

  lemma {:induction false} SubjectOrdered(p: Policy, o: Observation, names: seq<Attribute>, k: Key)
    requires forall i, j :: 0 <= i < j < |names| ==> Spelling(names[i]) < Spelling(names[j])
    ensures Ordered(SubjectFindings(p, o, names)(k), DirectBefore())
    ensures forall v :: v in SubjectFindings(p, o, names)(k) ==>
                          v.finding.WrongAttribute? && v.finding.subject == k.first
  {
    if k.first in o.subjectAttributes {
      var f := AttributeFinding(p, k.first, o.subjectAttributes[k.first]);
      CollectMembers(names, f);
      CollectOrdered(names, f, DirectBefore());
    }
  }

  lemma {:induction false} DirectOrdered(p: Policy, o: Observation, names: seq<Attribute>)
    requires forall i, j :: 0 <= i < j < |names| ==> Spelling(names[i]) < Spelling(names[j])
    ensures Ordered(DirectFindings(p, o, names), DirectBefore())
  {
    var keys, f := SortedKeys(SubjectKeys(p)), SubjectFindings(p, o, names);
    SortedKeysAscend(SubjectKeys(p));
    forall k | k in keys
      ensures Ordered(f(k), DirectBefore())
    {
      SubjectOrdered(p, o, names, k);
    }
    forall i, j | 0 <= i < j < |keys|
      ensures AllBefore(f(keys[i]), f(keys[j]), DirectBefore())
    {
      SubjectOrdered(p, o, names, keys[i]);
      SubjectOrdered(p, o, names, keys[j]);
      SubjectKeysApart(p, keys[i], keys[j]);
    }
    CollectOrdered(keys, f, DirectBefore());
  }

  lemma {:induction false} SubjectKeysApart(p: Policy, a: Key, b: Key)
    requires a in SubjectKeys(p) && b in SubjectKeys(p) && Less(a, b)
    ensures StringLess(a.first, b.first)
  {
  }

  /** Each wrongly held attribute is reported once, by subject and then in the order the attributes are spelled in. */
  lemma {:induction false} DirectExactly(p: Policy, o: Observation)
    ensures forall v :: v in DirectFindings(p, o, ATTRIBUTE_NAMES) <==>
                        exists subject, a ::
                          WronglyHeld(p, o, subject, a)
                          && v == Violation(p.directCode, WrongAttribute(subject, a, p.required[a]))
    ensures Ordered(DirectFindings(p, o, ATTRIBUTE_NAMES), DirectBefore())
    ensures Distinct(DirectFindings(p, o, ATTRIBUTE_NAMES))
  {
    AttributesInOrder();
    forall v
      ensures v in DirectFindings(p, o, ATTRIBUTE_NAMES) <==>
              exists subject, a ::
                WronglyHeld(p, o, subject, a)
                && v == Violation(p.directCode, WrongAttribute(subject, a, p.required[a]))
    {
      DirectMembers(p, o, ATTRIBUTE_NAMES, v);
    }
    DirectOrdered(p, o, ATTRIBUTE_NAMES);
    forall i | 0 <= i < |DirectFindings(p, o, ATTRIBUTE_NAMES)|
      ensures !DirectBefore()(DirectFindings(p, o, ATTRIBUTE_NAMES)[i], DirectFindings(p, o, ATTRIBUTE_NAMES)[i])
    {
      var v := DirectFindings(p, o, ATTRIBUTE_NAMES)[i];
      assert v in DirectFindings(p, o, ATTRIBUTE_NAMES);
      StringLessTotal(v.finding.subject, v.finding.subject);
    }
    OrderedIsDistinct(DirectFindings(p, o, ATTRIBUTE_NAMES), DirectBefore());
  }

  /** A role of the catalog that is a subject of the policy and holds `a` other than required. */
  ghost predicate RefusedAttribute(p: Policy, c: Catalog, v: Violation) {
    exists oid, a ::
      && oid in c.roles && c.roles[oid].name in p.subjects && a in p.required
      && c.roles[oid].attributes.Held(a) != p.required[a]
      && v == Violation(p.directCode, WrongAttribute(c.roles[oid].name, a, p.required[a]))
  }

  /** Over the catalog: the attribute findings are exactly the wrong attributes of the policy's roles. */
  lemma {:induction false} DirectOverCatalog(
      p: Policy, c: Catalog, conn: Connection, subjects: set<string>, rows: seq<ScanRow>, v: Violation)
    requires UniqueNames(c) && Scanned(c, conn, subjects, rows) && p.subjects <= subjects && Observe(rows).Success?
    ensures v in DirectFindings(p, Observe(rows).value, ATTRIBUTE_NAMES) <==> RefusedAttribute(p, c, v)
  {
    var o := Observe(rows).value;
    ScanIsRead(c, conn, subjects, rows);
    EveryAttributeNamed();
    DirectMembers(p, o, ATTRIBUTE_NAMES, v);
    if subject, a :| WronglyHeld(p, o, subject, a)
                     && v == Violation(p.directCode, WrongAttribute(subject, a, p.required[a])) {
      assert Returned(c, conn, subjects, SubjectRow(subject, o.subjectAttributes[subject]));
      var oid :| oid in c.roles && c.roles[oid].name in subjects
                 && SubjectRow(subject, o.subjectAttributes[subject]) ==
                    SubjectRow(c.roles[oid].name, c.roles[oid].attributes);
    }
    if RefusedAttribute(p, c, v) {
      var oid, a :| oid in c.roles && c.roles[oid].name in p.subjects && a in p.required
                    && c.roles[oid].attributes.Held(a) != p.required[a]
                    && v == Violation(p.directCode, WrongAttribute(c.roles[oid].name, a, p.required[a]));
      assert Returned(c, conn, subjects, SubjectRow(c.roles[oid].name, c.roles[oid].attributes));
      assert WronglyHeld(p, o, c.roles[oid].name, a);
    }
  }

  // ----- why a role is forbidden

  predicate ReasonHolds(p: Policy, role: Role, reason: Reason) {
    match reason
    case HasAttribute(a) => a in p.forbiddenAttributes && role.attributes.Held(a)
    case ServerFileOrProgramAccess => role.name in p.forbiddenRoles
  }

  function ReasonRank(reason: Reason): nat { if reason.HasAttribute? then Spelling(reason.attribute) else 5 }

  function ReasonBefore(): (Reason, Reason) -> bool { (a: Reason, b: Reason) => ReasonRank(a) < ReasonRank(b) }

  lemma {:induction false} AttributeReasons(p: Policy, role: Role, names: seq<Attribute>)
    requires forall i, j :: 0 <= i < j < |names| ==> Spelling(names[i]) < Spelling(names[j])
    requires forall a: Attribute :: a in names
    ensures var found := Collect(names, Forbidden(p, role.attributes));
            && (forall reason :: reason in found <==> reason.HasAttribute? && ReasonHolds(p, role, reason))
            && Ordered(found, ReasonBefore())
  {
    var f := Forbidden(p, role.attributes);
    CollectMembers(names, f);
    CollectOrdered(names, f, ReasonBefore());
    forall reason: Reason
      ensures reason in Collect(names, f) <==> reason.HasAttribute? && ReasonHolds(p, role, reason)
    {
      if reason.HasAttribute? && ReasonHolds(p, role, reason) {
        assert reason in f(reason.attribute);
      }
    }
  }

  lemma {:induction false} ServerReasonLast(p: Policy, role: Role, found: seq<Reason>)
    requires forall reason :: reason in found <==> reason.HasAttribute? && ReasonHolds(p, role, reason)
    requires Ordered(found, ReasonBefore())
    ensures var all := found + if role.name in p.forbiddenRoles then [ServerFileOrProgramAccess] else [];
            && (forall reason :: reason in all <==> ReasonHolds(p, role, reason))
            && Ordered(all, ReasonBefore())
  {
    forall i | 0 <= i < |found|
      ensures ReasonRank(found[i]) < 5
    {
      assert found[i] in found;
    }
  }

  /** Every reason that holds is given, once, the attributes first and in their order. */
  lemma {:induction false} ReasonsExactly(p: Policy, role: Role)
    ensures forall reason ::
              reason in Reasons(p, role.name, role.attributes, ATTRIBUTE_NAMES) <==> ReasonHolds(p, role, reason)
    ensures Ordered(Reasons(p, role.name, role.attributes, ATTRIBUTE_NAMES), ReasonBefore())
  {
    AttributesInOrder();
    AttributeReasons(p, role, ATTRIBUTE_NAMES);
    ServerReasonLast(p, role, Collect(ATTRIBUTE_NAMES, Forbidden(p, role.attributes)));
  }

  // ----- authentication

  /** What is wrong with how the connection authenticated. */
  ghost predicate RefusedAuthentication(p: Policy, o: Observation, v: Violation) {
    && p.authenticatedSubject.Some? && v.code == AuthenticationIdentityMismatch
    && match v.finding
       case RunningAs(session, current) =>
         o.sessionUser != o.currentUser && session == o.sessionUser && current == o.currentUser
       case WrongIdentity(current, expected) =>
         && o.sessionUser == o.currentUser == current && expected == p.authenticatedSubject.value && current != expected
       case NoSystemUser(wanted) =>
         p.authentication.Some? && o.systemUser.None? && wanted == p.authentication.value.AsSystemUser()
       case WrongSystemUser(found, wanted) =>
         p.authentication.Some? && o.systemUser == Some(found) && wanted == p.authentication.value.AsSystemUser()
         && found != wanted
       case WrongAttribute(_, _, _) => false
       case ReachesForbidden(_, _, _, _) => false
  }

  /** Identity, system user, attributes, memberships. */
  function FindingRank(): Violation -> nat {
    (v: Violation) =>
      match v.finding
      case RunningAs(_, _) => 0
      case WrongIdentity(_, _) => 0
      case NoSystemUser(_) => 1
      case WrongSystemUser(_, _) => 1
      case WrongAttribute(_, _, _) => 2
      case ReachesForbidden(_, _, _, _) => 3
  }

  lemma {:induction false} AuthenticationExactly(p: Policy, o: Observation, v: Violation)
    ensures v in AuthenticationFindings(p, o) <==> RefusedAuthentication(p, o, v)
    ensures Distinct(AuthenticationFindings(p, o))
    ensures Ranked(AuthenticationFindings(p, o), FindingRank())
            && RanksWithin(AuthenticationFindings(p, o), FindingRank(), 0, 1)
  {
  }

  // ----- the whole verdict

  ghost predicate RefusedMembership(p: Policy, c: Catalog, subjects: set<string>, v: Violation) {
    exists r :: RefusedReach(p, c, subjects, r) && v == Refusal(p, c, subjects, r, ATTRIBUTE_NAMES)
  }

  /** The verdict holds every refusal of each of the three kinds, whatever else is refused, and nothing more. */
  lemma {:induction false} VerdictMembers(
      p: Policy, c: Catalog, conn: Connection, subjects: set<string>, rows: seq<ScanRow>, v: Violation)
    requires UniqueNames(c) && Scanned(c, conn, subjects, rows) && p.subjects <= subjects && Observe(rows).Success?
    ensures v in AuthorityFindings(p, Observe(rows).value) <==>
            || RefusedAuthentication(p, Observe(rows).value, v)
            || RefusedAttribute(p, c, v)
            || RefusedMembership(p, c, subjects, v)
  {
    EveryAttributeNamed();
    AuthenticationExactly(p, Observe(rows).value, v);
    DirectOverCatalog(p, c, conn, subjects, rows, v);
    MembershipExact(p, c, conn, subjects, rows, ATTRIBUTE_NAMES, v);
  }

  lemma {:induction false} DirectRanked(p: Policy, o: Observation)
    ensures Ranked(DirectFindings(p, o, ATTRIBUTE_NAMES), FindingRank())
            && RanksWithin(DirectFindings(p, o, ATTRIBUTE_NAMES), FindingRank(), 2, 2)
  {
    forall v | v in DirectFindings(p, o, ATTRIBUTE_NAMES)
      ensures FindingRank()(v) == 2
    {
      EveryAttributeNamed();
      DirectMembers(p, o, ATTRIBUTE_NAMES, v);
    }
    RankedAlike(DirectFindings(p, o, ATTRIBUTE_NAMES), FindingRank(), 2);
  }

  lemma {:induction false} MembershipRanked(p: Policy, o: Observation, names: seq<Attribute>)
    ensures Ranked(MembershipFindings(p, o, names), FindingRank())
            && RanksWithin(MembershipFindings(p, o, names), FindingRank(), 3, 3)
  {
    CollectMembers(SortBy(o.edges, EdgeKey()), EdgeFindings(p, names));
    RankedAlike(MembershipFindings(p, o, names), FindingRank(), 3);
  }

  lemma {:induction false} PartsRanked(a: seq<Violation>, d: seq<Violation>, r: seq<Violation>)
    requires Ranked(a, FindingRank()) && RanksWithin(a, FindingRank(), 0, 1)
    requires Ranked(d, FindingRank()) && RanksWithin(d, FindingRank(), 2, 2)
    requires Ranked(r, FindingRank()) && RanksWithin(r, FindingRank(), 3, 3)
    ensures Ranked(a + d + r, FindingRank())
  {
    RankedAppend(a, d, FindingRank(), 0, 1, 2, 2);
    RankedAppend(a + d, r, FindingRank(), 0, 2, 3, 3);
  }

  /** Authentication first, then attributes, then memberships. */
  lemma {:induction false} VerdictInOrder(p: Policy, o: Observation)
    ensures Ranked(AuthorityFindings(p, o), FindingRank())
  {
    AuthenticationExactly(p, o, Violation(p.directCode, RunningAs("", "")));
    DirectRanked(p, o);
    MembershipRanked(p, o, ATTRIBUTE_NAMES);
    PartsRanked(AuthenticationFindings(p, o), DirectFindings(p, o, ATTRIBUTE_NAMES),
                MembershipFindings(p, o, ATTRIBUTE_NAMES));
  }
}
