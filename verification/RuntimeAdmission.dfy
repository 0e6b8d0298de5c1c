/**
 The runtime-admission verdict (app/runtime_admission.py): one snapshot of the
 serving connection, judged against every module a deployment declares active.
 */
module RuntimeAdmission {
  import opened Collections

  const RUNTIME_ROLE: string := "app_user"

  const REQUIRED_TABLE_PRIVILEGES: seq<string> := ["SELECT", "INSERT", "UPDATE", "DELETE"]

  datatype ComposedModule = ComposedModule(
    code: string,
    schema: string,
    tenantTables: seq<string>,
    platformTables: seq<string>,
    probeTable: string)

  datatype Posture = Posture(bypassRls: bool, superuser: bool)

  datatype SchemaUsage = SchemaUsage(schema: string, present: bool, usable: bool)

  datatype TablePrivilege = TablePrivilege(
    schema: string, table: string, privilege: string, present: bool, held: bool)

  datatype RlsProbe = RlsProbe(
    schema: string, table: string, executed: bool,
    foreignRowsUnderOwnContext: nat, ownRowsUnderOtherContext: nat)

  datatype Snapshot = Snapshot(
    currentUser: string,
    sessionUser: string,
    rolePosture: map<string, Posture>,
    escalationMemberships: seq<string>,
    schemaUsage: seq<SchemaUsage>,
    tablePrivileges: seq<TablePrivilege>,
    rlsProbes: seq<RlsProbe>,
    activeModules: seq<string>)

  datatype Refusal =
    | UndeclaredModule(code: string)
    | WrongCurrentUser(user: string)
    | SessionActsAsAnother(session: string, current: string)
    | WrongSessionUser(user: string)
    | EscalationMembership(role: string)
    | PostureUnknown
    | BypassesRls
    | IsSuperuser
    | SchemaUnobserved(schema: string)
    | SchemaMissing(schema: string)
    | SchemaUnusable(schema: string)
    | PrivilegeUnprobed(schema: string, table: string, privilege: string)
    | TableMissing(schema: string, table: string)
    | PrivilegeLacking(schema: string, table: string, privilege: string)
    | ProbeUnrecorded(schema: string, table: string)
    | ProbeNotExecuted(schema: string, table: string)
    | ForeignRowsVisible(schema: string, table: string)
    | OwnRowsSurviveSwitch(schema: string, table: string)

  // ----- lookups over the observed lists

  function UsageKey(): SchemaUsage -> string { (u: SchemaUsage) => u.schema }

  function TableKey(): TablePrivilege -> Key {
    (p: TablePrivilege) => Key(0, p.schema, p.table, p.privilege)
  }

  function ProbeKey(): RlsProbe -> Key { (p: RlsProbe) => Pair(p.schema, p.table) }

  function UsageOf(s: Snapshot): map<string, SchemaUsage> { IndexBy(s.schemaUsage, UsageKey()) }

  function AnswersOf(s: Snapshot): map<Key, TablePrivilege> { IndexBy(s.tablePrivileges, TableKey()) }

  function ProbesOf(s: Snapshot): map<Key, RlsProbe> { IndexBy(s.rlsProbes, ProbeKey()) }

  // ----- the refusals, list by list

  function IdentityRefusals(s: Snapshot): seq<Refusal> {
    (if s.currentUser != RUNTIME_ROLE then [WrongCurrentUser(s.currentUser)] else [])
    + (if s.sessionUser != s.currentUser then [SessionActsAsAnother(s.sessionUser, s.currentUser)]
       else if s.sessionUser != RUNTIME_ROLE then [WrongSessionUser(s.sessionUser)] else [])
    + Map(s.escalationMemberships, (role: string) => EscalationMembership(role))
  }

  function PostureRefusals(s: Snapshot): seq<Refusal> {
    match Lookup(s.rolePosture, RUNTIME_ROLE)
    case None => [PostureUnknown]
    case Some(p) => (if p.bypassRls then [BypassesRls] else []) + (if p.superuser then [IsSuperuser] else [])
  }

  type Answers = map<Key, TablePrivilege>

  /** Answers for one table, privilege by privilege; a missing table ends the list at once. */
  function TableRefusals(answers: Answers, m: ComposedModule, table: string, wanted: seq<string>): seq<Refusal> {
    if wanted == [] then []
    else
      var key := Key(0, m.schema, table, wanted[0]);
      if key in answers && !answers[key].present then [TableMissing(m.schema, table)]
      else PrivilegeRefusals(answers, m, table, wanted[0]) + TableRefusals(answers, m, table, wanted[1..])
  }

  function PrivilegeRefusals(answers: Answers, m: ComposedModule, table: string, privilege: string): seq<Refusal> {
    var key := Key(0, m.schema, table, privilege);
    if key !in answers then [PrivilegeUnprobed(m.schema, table, privilege)]
    else if !answers[key].held then [PrivilegeLacking(m.schema, table, privilege)]
    else []
  }

  function TableCheck(answers: Answers, m: ComposedModule): string -> seq<Refusal> {
    (table: string) => TableRefusals(answers, m, table, REQUIRED_TABLE_PRIVILEGES)
  }

  function GrantCheck(usage: map<string, SchemaUsage>, answers: Answers): ComposedModule -> seq<Refusal> {
    (m: ComposedModule) =>
      if m.schema !in usage then [SchemaUnobserved(m.schema)]
      else if !usage[m.schema].present then [SchemaMissing(m.schema)]
      else (if !usage[m.schema].usable then [SchemaUnusable(m.schema)] else [])
           + Collect(m.tenantTables, TableCheck(answers, m))
  }

  function RlsCheck(probes: map<Key, RlsProbe>): ComposedModule -> seq<Refusal> {
    (m: ComposedModule) =>
      var key := Pair(m.schema, m.probeTable);
      if key !in probes then [ProbeUnrecorded(m.schema, m.probeTable)]
      else if !probes[key].executed then [ProbeNotExecuted(m.schema, m.probeTable)]
      else
        (if probes[key].foreignRowsUnderOwnContext != 0 then [ForeignRowsVisible(m.schema, m.probeTable)] else [])
        + (if probes[key].ownRowsUnderOtherContext != 0 then [OwnRowsSurviveSwitch(m.schema, m.probeTable)] else [])
  }

  function UndeclaredCheck(byCode: map<string, ComposedModule>): string -> seq<Refusal> {
    (code: string) => if code in byCode then [] else [UndeclaredModule(code)]
  }

  function DeclaredCheck(byCode: map<string, ComposedModule>): string -> seq<ComposedModule> {
    (code: string) => if code in byCode then [byCode[code]] else []
  }

  function Verdict(byCode: map<string, ComposedModule>, s: Snapshot): seq<Refusal> {
    var modules := Collect(s.activeModules, DeclaredCheck(byCode));
    var undeclared := Collect(s.activeModules, UndeclaredCheck(byCode));
    if modules == [] then undeclared
    else undeclared + IdentityRefusals(s) + PostureRefusals(s)
         + Collect(modules, GrantCheck(UsageOf(s), AnswersOf(s))) + Collect(modules, RlsCheck(ProbesOf(s)))
  }

  // ----- the loops

  method TableViolations(answers: Answers, m: ComposedModule, table: string, wanted: seq<string>)
    returns (found: seq<Refusal>)
    ensures found == TableRefusals(answers, m, table, wanted)
  {
    found := [];
    ghost var all := TableRefusals(answers, m, table, wanted);
    for i := 0 to |wanted|
      invariant found + TableRefusals(answers, m, table, wanted[i..]) == all
    {
      assert wanted[i..][1..] == wanted[i + 1..];
      var key := Key(0, m.schema, table, wanted[i]);
      if key in answers && !answers[key].present {
        return found + [TableMissing(m.schema, table)];
      }
      AppendAssociates(found, PrivilegeRefusals(answers, m, table, wanted[i]),
                       TableRefusals(answers, m, table, wanted[i + 1..]));
      found := found + PrivilegeRefusals(answers, m, table, wanted[i]);
    }
  }

  method ModuleViolations(usage: map<string, SchemaUsage>, answers: Answers, m: ComposedModule)
    returns (found: seq<Refusal>)
    ensures found == GrantCheck(usage, answers)(m)
  {
    if m.schema !in usage {
      return [SchemaUnobserved(m.schema)];
    }
    if !usage[m.schema].present {
      return [SchemaMissing(m.schema)];
    }
    var tables: seq<Refusal> := [];
    for t := 0 to |m.tenantTables|
      invariant tables == Collect(m.tenantTables[..t], TableCheck(answers, m))
    {
      PrefixStep(m.tenantTables, t);
      var refusals := TableViolations(answers, m, m.tenantTables[t], REQUIRED_TABLE_PRIVILEGES);
      tables := tables + refusals;
    }
    assert m.tenantTables[..|m.tenantTables|] == m.tenantTables;
    found := (if usage[m.schema].usable then [] else [SchemaUnusable(m.schema)]) + tables;
  }

  method AdmissionViolations(byCode: map<string, ComposedModule>, s: Snapshot) returns (violations: seq<Refusal>)
    ensures violations == Verdict(byCode, s)
  {
    var modules: seq<ComposedModule> := [];
    violations := [];
    for n := 0 to |s.activeModules|
      invariant modules == Collect(s.activeModules[..n], DeclaredCheck(byCode))
      invariant violations == Collect(s.activeModules[..n], UndeclaredCheck(byCode))
    {
      PrefixStep(s.activeModules, n);
      var code := s.activeModules[n];
      if code in byCode {
        modules := modules + [byCode[code]];
      } else {
        violations := violations + [UndeclaredModule(code)];
      }
    }
    assert s.activeModules[..|s.activeModules|] == s.activeModules;
    if modules != [] {
      var grants, rls: seq<Refusal> := [], [];
      for n := 0 to |modules|
        invariant grants == Collect(modules[..n], GrantCheck(UsageOf(s), AnswersOf(s)))
        invariant rls == Collect(modules[..n], RlsCheck(ProbesOf(s)))
      {
        PrefixStep(modules, n);
        var found := ModuleViolations(UsageOf(s), AnswersOf(s), modules[n]);
        grants, rls := grants + found, rls + RlsCheck(ProbesOf(s))(modules[n]);
      }
      assert modules[..|modules|] == modules;
      violations := violations + IdentityRefusals(s) + PostureRefusals(s) + grants + rls;
    }
  }

  // ----- what an empty verdict means

  ghost predicate TableReachable(answers: Answers, m: ComposedModule, table: string, wanted: seq<string>) {
    forall privilege :: privilege in wanted ==>
      var key := Key(0, m.schema, table, privilege);
      key in answers && answers[key].present && answers[key].held
  }

  ghost predicate Isolated(probes: map<Key, RlsProbe>, m: ComposedModule) {
    var key := Pair(m.schema, m.probeTable);
    key in probes && probes[key].executed
    && probes[key].foreignRowsUnderOwnContext == 0 && probes[key].ownRowsUnderOtherContext == 0
  }

  ghost predicate ModuleAdmitted(s: Snapshot, m: ComposedModule) {
    m.schema in UsageOf(s) && UsageOf(s)[m.schema].present && UsageOf(s)[m.schema].usable
    && (forall table :: table in m.tenantTables ==> TableReachable(AnswersOf(s), m, table, REQUIRED_TABLE_PRIVILEGES))
    && Isolated(ProbesOf(s), m)
  }

  ghost predicate IdentityClean(s: Snapshot) {
    && s.currentUser == s.sessionUser == RUNTIME_ROLE
    && s.escalationMemberships == []
    && RUNTIME_ROLE in s.rolePosture && s.rolePosture[RUNTIME_ROLE] == Posture(false, false)
  }

  lemma {:induction false} TableRefusalsEmpty(answers: Answers, m: ComposedModule, table: string, wanted: seq<string>)
    ensures TableRefusals(answers, m, table, wanted) == [] <==> TableReachable(answers, m, table, wanted)
  {
    if wanted != [] {
      TableRefusalsEmpty(answers, m, table, wanted[1..]);
      assert wanted == [wanted[0]] + wanted[1..];
    }
  }

  lemma {:induction false} ModuleSilent(s: Snapshot, m: ComposedModule)
    ensures GrantCheck(UsageOf(s), AnswersOf(s))(m) == [] && RlsCheck(ProbesOf(s))(m) == [] <==> ModuleAdmitted(s, m)
  {
    CollectEmpty(m.tenantTables, TableCheck(AnswersOf(s), m));
    forall table
      ensures TableCheck(AnswersOf(s), m)(table) == []
              <==> TableReachable(AnswersOf(s), m, table, REQUIRED_TABLE_PRIVILEGES)
    {
      TableRefusalsEmpty(AnswersOf(s), m, table, REQUIRED_TABLE_PRIVILEGES);
    }
  }

  lemma {:induction false} DeclaredModules(byCode: map<string, ComposedModule>, codes: seq<string>)
    ensures forall code :: code in codes && code in byCode ==> byCode[code] in Collect(codes, DeclaredCheck(byCode))
    ensures forall m :: m in Collect(codes, DeclaredCheck(byCode)) ==>
                          exists code :: code in codes && code in byCode && byCode[code] == m
  {
    CollectMembers(codes, DeclaredCheck(byCode));
    forall code | code in codes && code in byCode
      ensures byCode[code] in Collect(codes, DeclaredCheck(byCode))
    {
      assert byCode[code] in DeclaredCheck(byCode)(code);
    }
  }

  lemma {:induction false} ModulesSilent(s: Snapshot, modules: seq<ComposedModule>)
    ensures Collect(modules, GrantCheck(UsageOf(s), AnswersOf(s))) == []
            && Collect(modules, RlsCheck(ProbesOf(s))) == []
            <==> forall m :: m in modules ==> ModuleAdmitted(s, m)
  {
    var grant, rls := GrantCheck(UsageOf(s), AnswersOf(s)), RlsCheck(ProbesOf(s));
    CollectEmpty(modules, grant);
    CollectEmpty(modules, rls);
    forall m
      ensures grant(m) == [] && rls(m) == [] <==> ModuleAdmitted(s, m)
    {
      ModuleSilent(s, m);
    }
  }

  lemma {:induction false} VerdictParts(byCode: map<string, ComposedModule>, s: Snapshot)
    requires Collect(s.activeModules, DeclaredCheck(byCode)) != []
    ensures var modules := Collect(s.activeModules, DeclaredCheck(byCode));
            Verdict(byCode, s) == [] <==>
            && Collect(s.activeModules, UndeclaredCheck(byCode)) == []
            && IdentityClean(s)
            && Collect(modules, GrantCheck(UsageOf(s), AnswersOf(s))) == []
            && Collect(modules, RlsCheck(ProbesOf(s))) == []
  {
    assert IdentityRefusals(s) == [] && PostureRefusals(s) == [] <==> IdentityClean(s);
  }

  /**
   With a declared module active, the verdict is empty exactly when every active
   code is declared, the identity is clean, and every active module is admitted.
   */
  lemma {:induction false} EmptyVerdictMeansAdmitted(byCode: map<string, ComposedModule>, s: Snapshot)
    requires exists code :: code in s.activeModules && code in byCode
    ensures Verdict(byCode, s) == [] <==>
            IdentityClean(s)
            && forall code :: code in s.activeModules ==> code in byCode && ModuleAdmitted(s, byCode[code])
  {
    DeclaredModules(byCode, s.activeModules);
    VerdictParts(byCode, s);
    CollectEmpty(s.activeModules, UndeclaredCheck(byCode));
    assert forall code :: UndeclaredCheck(byCode)(code) == [] <==> code in byCode;
    ModulesSilent(s, Collect(s.activeModules, DeclaredCheck(byCode)));
  }

  // ----- what the probe can see

  datatype Row = Row(tenant: string, id: int)

  /** A row-level policy: may this row be seen while the setting names `tenant`? */
  type Policy = (string, Row) -> bool

  function CountForeign(rows: seq<Row>, policy: Policy, context: string, own: string): nat {
    |Filter(rows, (r: Row) => r.tenant != own && policy(context, r))|
  }

  function CountOwn(rows: seq<Row>, policy: Policy, context: string, own: string): nat {
    |Filter(rows, (r: Row) => r.tenant == own && policy(context, r))|
  }

  /** The three counting statements of the probe, over the rows of one table. */
  function ProbeTable(m: ComposedModule, rows: seq<Row>, policy: Policy, own: string, other: string): RlsProbe {
    RlsProbe(m.schema, m.probeTable, true, CountForeign(rows, policy, own, own), CountOwn(rows, policy, other, own))
  }

  /**
   The probe is clean exactly when no foreign row shows in the own context and
   no own row shows in the other; a policy that never reads its context and
   shows one own row is therefore always refused.
   */
  lemma {:induction false} ProbePower(
      probes: map<Key, RlsProbe>, m: ComposedModule, rows: seq<Row>, policy: Policy, own: string, other: string)
    requires Lookup(probes, Pair(m.schema, m.probeTable)) == Some(ProbeTable(m, rows, policy, own, other))
    ensures RlsCheck(probes)(m) == [] <==>
            forall r :: r in rows ==> if r.tenant == own then !policy(other, r) else !policy(own, r)
    ensures (forall a, b, r :: policy(a, r) == policy(b, r))
            && (exists r :: r in rows && r.tenant == own && policy(own, r))
            ==> OwnRowsSurviveSwitch(m.schema, m.probeTable) in RlsCheck(probes)(m)
  {
    var foreign := Filter(rows, (r: Row) => r.tenant != own && policy(own, r));
    var surviving := Filter(rows, (r: Row) => r.tenant == own && policy(other, r));
    assert CountForeign(rows, policy, own, own) == |foreign|;
    assert CountOwn(rows, policy, other, own) == |surviving|;
    assert |foreign| == 0 <==> forall r :: r in rows ==> !(r.tenant != own && policy(own, r)) by {
      if |foreign| != 0 { assert foreign[0] in foreign; }
    }
    assert |surviving| == 0 <==> forall r :: r in rows ==> !(r.tenant == own && policy(other, r)) by {
      if |surviving| != 0 { assert surviving[0] in surviving; }
    }
  }
}
