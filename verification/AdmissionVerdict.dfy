/**
 Which refusals the admission verdict holds (app/runtime_admission.py), whatever
 else is wrong at the same time: exactly what each fact draws, each once, and in
 the order of the checks.
 */
module AdmissionVerdict {
  import opened Collections
  import opened RuntimeAdmission

  // ----- what is read out of the snapshot

  function UsageNamed(schema: string): SchemaUsage -> bool { (u: SchemaUsage) => u.schema == schema }

  function PrivilegeAsked(schema: string, table: string, privilege: string): TablePrivilege -> bool {
    (p: TablePrivilege) => p.schema == schema && p.table == table && p.privilege == privilege
  }

  function ProbeNamed(schema: string, table: string): RlsProbe -> bool {
    (p: RlsProbe) => p.schema == schema && p.table == table
  }

  lemma {:induction false} UsageRead(s: Snapshot, schema: string, x: SchemaUsage)
    ensures Lookup(UsageOf(s), schema) == Some(x) <==>
            exists i: nat :: IsLatest(s.schemaUsage, UsageNamed(schema), i) && s.schemaUsage[i] == x
  {
    LatestIndexed(s.schemaUsage, UsageKey(), schema, UsageNamed(schema), x);
  }

  lemma {:induction false} AnswerRead(s: Snapshot, schema: string, table: string, privilege: string, x: TablePrivilege)
    ensures Lookup(AnswersOf(s), Key(0, schema, table, privilege)) == Some(x) <==>
            exists i: nat ::
              IsLatest(s.tablePrivileges, PrivilegeAsked(schema, table, privilege), i) && s.tablePrivileges[i] == x
  {
    LatestIndexed(s.tablePrivileges, TableKey(), Key(0, schema, table, privilege),
                  PrivilegeAsked(schema, table, privilege), x);
  }

  lemma {:induction false} ProbeRead(s: Snapshot, schema: string, table: string, x: RlsProbe)
    ensures Lookup(ProbesOf(s), Pair(schema, table)) == Some(x) <==>
            exists i: nat :: IsLatest(s.rlsProbes, ProbeNamed(schema, table), i) && s.rlsProbes[i] == x
  {
    LatestIndexed(s.rlsProbes, ProbeKey(), Pair(schema, table), ProbeNamed(schema, table), x);
  }

  // ----- what draws a refusal

  ghost predicate Active(byCode: map<string, ComposedModule>, codes: seq<string>, m: ComposedModule) {
    exists code :: code in codes && code in byCode && byCode[code] == m
  }

  ghost predicate IdentityRefused(s: Snapshot, x: Refusal) {
    match x
    case WrongCurrentUser(user) => user == s.currentUser && user != RUNTIME_ROLE
    case SessionActsAsAnother(session, current) =>
      session == s.sessionUser && current == s.currentUser && session != current
    case WrongSessionUser(user) => user == s.sessionUser && user == s.currentUser && user != RUNTIME_ROLE
    case EscalationMembership(role) => role in s.escalationMemberships
    case PostureUnknown => RUNTIME_ROLE !in s.rolePosture
    case BypassesRls => RUNTIME_ROLE in s.rolePosture && s.rolePosture[RUNTIME_ROLE].bypassRls
    case IsSuperuser => RUNTIME_ROLE in s.rolePosture && s.rolePosture[RUNTIME_ROLE].superuser
    case _ => false
  }

  /** The answer to question `i` about the table says that there is no such table. */
  ghost predicate SaidMissing(answers: Answers, schema: string, table: string, wanted: seq<string>, i: nat) {
    && i < |wanted|
    && var key := Key(0, schema, table, wanted[i]);
       key in answers && !answers[key].present
  }

  /** Question `i` about the table is reached: no earlier answer says that the table is missing. */
  ghost predicate Reached(answers: Answers, schema: string, table: string, wanted: seq<string>, i: nat) {
    i < |wanted| && forall j: nat :: j < i ==> !SaidMissing(answers, schema, table, wanted, j)
  }

  ghost predicate Unprobed(answers: Answers, schema: string, table: string, wanted: seq<string>, i: nat) {
    Reached(answers, schema, table, wanted, i) && Key(0, schema, table, wanted[i]) !in answers
  }

  ghost predicate Lacking(answers: Answers, schema: string, table: string, wanted: seq<string>, i: nat) {
    && Reached(answers, schema, table, wanted, i)
    && var key := Key(0, schema, table, wanted[i]);
       key in answers && answers[key].present && !answers[key].held
  }

  ghost predicate TableRefused(answers: Answers, schema: string, table: string, wanted: seq<string>, x: Refusal) {
    match x
    case TableMissing(s, t) =>
      s == schema && t == table && exists i: nat :: SaidMissing(answers, schema, table, wanted, i)
    case PrivilegeUnprobed(s, t, p) =>
      s == schema && t == table
      && exists i: nat :: Unprobed(answers, schema, table, wanted, i) && wanted[i] == p
    case PrivilegeLacking(s, t, p) =>
      s == schema && t == table
      && exists i: nat :: Lacking(answers, schema, table, wanted, i) && wanted[i] == p
    case _ => false
  }

  ghost predicate GrantRefused(
      usage: map<string, SchemaUsage>, answers: Answers, m: ComposedModule, wanted: seq<string>, x: Refusal)
  {
    match x
    case SchemaUnobserved(schema) => schema == m.schema && schema !in usage
    case SchemaMissing(schema) => schema == m.schema && schema in usage && !usage[schema].present
    case SchemaUnusable(schema) =>
      schema == m.schema && schema in usage && usage[schema].present && !usage[schema].usable
    case _ =>
      && m.schema in usage && usage[m.schema].present
      && exists table :: table in m.tenantTables && TableRefused(answers, m.schema, table, wanted, x)
  }

  ghost predicate ProbeRefused(probes: map<Key, RlsProbe>, m: ComposedModule, x: Refusal) {
    var key := Pair(m.schema, m.probeTable);
    match x
    case ProbeUnrecorded(s, t) => s == m.schema && t == m.probeTable && key !in probes
    case ProbeNotExecuted(s, t) => s == m.schema && t == m.probeTable && key in probes && !probes[key].executed
    case ForeignRowsVisible(s, t) =>
      && s == m.schema && t == m.probeTable && key in probes && probes[key].executed
      && probes[key].foreignRowsUnderOwnContext > 0
    case OwnRowsSurviveSwitch(s, t) =>
      && s == m.schema && t == m.probeTable && key in probes && probes[key].executed
      && probes[key].ownRowsUnderOtherContext > 0
    case _ => false
  }

  ghost predicate Refused(byCode: map<string, ComposedModule>, s: Snapshot, x: Refusal) {
    || (x.UndeclaredModule? && x.code in s.activeModules && x.code !in byCode)
    || (IdentityRefused(s, x) && exists m :: Active(byCode, s.activeModules, m))
    || (exists m :: Active(byCode, s.activeModules, m)
                    && (GrantRefused(UsageOf(s), AnswersOf(s), m, REQUIRED_TABLE_PRIVILEGES, x)
                        || ProbeRefused(ProbesOf(s), m, x)))
  }

  // ----- membership

  lemma {:induction false} IdentityMembers(s: Snapshot, x: Refusal)
    ensures x in IdentityRefusals(s) + PostureRefusals(s) <==> IdentityRefused(s, x)
  {
    var roles := Map(s.escalationMemberships, (role: string) => EscalationMembership(role));
    if x.EscalationMembership? && x.role in s.escalationMemberships {
      var i :| 0 <= i < |s.escalationMemberships| && s.escalationMemberships[i] == x.role;
      assert roles[i] == x;
    }
    assert x in roles <==> x.EscalationMembership? && x.role in s.escalationMemberships;
  }

  lemma {:induction false} LaterQuestion(answers: Answers, schema: string, table: string, wanted: seq<string>, i: nat)
    requires i + 1 < |wanted|
    ensures SaidMissing(answers, schema, table, wanted, i + 1) <==> SaidMissing(answers, schema, table, wanted[1..], i)
    ensures Reached(answers, schema, table, wanted, i + 1) <==>
            !SaidMissing(answers, schema, table, wanted, 0) && Reached(answers, schema, table, wanted[1..], i)
    ensures Unprobed(answers, schema, table, wanted, i + 1) <==>
            !SaidMissing(answers, schema, table, wanted, 0) && Unprobed(answers, schema, table, wanted[1..], i)
    ensures Lacking(answers, schema, table, wanted, i + 1) <==>
            !SaidMissing(answers, schema, table, wanted, 0) && Lacking(answers, schema, table, wanted[1..], i)
  {
    forall j: nat | j + 1 < |wanted|
      ensures SaidMissing(answers, schema, table, wanted, j + 1) <==>
              SaidMissing(answers, schema, table, wanted[1..], j)
    {
      assert wanted[1..][j] == wanted[j + 1];
    }
    if Reached(answers, schema, table, wanted, i + 1) {
      forall j: nat | j < i
        ensures !SaidMissing(answers, schema, table, wanted[1..], j)
      {
        assert !SaidMissing(answers, schema, table, wanted, j + 1);
      }
    }
    if !SaidMissing(answers, schema, table, wanted, 0) && Reached(answers, schema, table, wanted[1..], i) {
      forall j: nat | j < i + 1
        ensures !SaidMissing(answers, schema, table, wanted, j)
      {
        if j > 0 {
          assert !SaidMissing(answers, schema, table, wanted[1..], j - 1);
        }
      }
    }
  }

  /** What the first question about the table draws. */
  ghost predicate FirstRefused(answers: Answers, schema: string, table: string, wanted: seq<string>, x: Refusal)
    requires wanted != []
  {
    var key := Key(0, schema, table, wanted[0]);
    match x
    case TableMissing(s, t) => s == schema && t == table && key in answers && !answers[key].present
    case PrivilegeUnprobed(s, t, p) => s == schema && t == table && p == wanted[0] && key !in answers
    case PrivilegeLacking(s, t, p) =>
      s == schema && t == table && p == wanted[0] && key in answers && answers[key].present && !answers[key].held
    case _ => false
  }

  lemma {:induction false} RefusedFirst(
      answers: Answers, schema: string, table: string, wanted: seq<string>, x: Refusal)
    requires wanted != []
    requires FirstRefused(answers, schema, table, wanted, x)
             || (!SaidMissing(answers, schema, table, wanted, 0)
                 && TableRefused(answers, schema, table, wanted[1..], x))
    ensures TableRefused(answers, schema, table, wanted, x)
  {
    if FirstRefused(answers, schema, table, wanted, x) {
      assert x.TableMissing? ==> SaidMissing(answers, schema, table, wanted, 0);
      assert x.PrivilegeUnprobed? ==> Unprobed(answers, schema, table, wanted, 0);
      assert x.PrivilegeLacking? ==> Lacking(answers, schema, table, wanted, 0);
    } else {
      var i: nat := LaterWitness(answers, schema, table, wanted[1..], x);
      LaterQuestion(answers, schema, table, wanted, i);
      assert wanted[1..][i] == wanted[i + 1];
    }
  }

  /** The question that draws the refusal. */
  ghost predicate Draws(answers: Answers, schema: string, table: string, wanted: seq<string>, x: Refusal, i: nat) {
    || (x.TableMissing? && SaidMissing(answers, schema, table, wanted, i))
    || (x.PrivilegeUnprobed? && Unprobed(answers, schema, table, wanted, i) && wanted[i] == x.privilege)
    || (x.PrivilegeLacking? && Lacking(answers, schema, table, wanted, i) && wanted[i] == x.privilege)
  }

  lemma {:induction false} LaterWitness(
      answers: Answers, schema: string, table: string, wanted: seq<string>, x: Refusal) returns (i: nat)
    requires TableRefused(answers, schema, table, wanted, x)
    ensures x.schema == schema && x.table == table && i < |wanted| && Draws(answers, schema, table, wanted, x, i)
  {
    if x.TableMissing? {
      i :| SaidMissing(answers, schema, table, wanted, i);
    } else if x.PrivilegeUnprobed? {
      i :| Unprobed(answers, schema, table, wanted, i) && wanted[i] == x.privilege;
    } else {
      i :| Lacking(answers, schema, table, wanted, i) && wanted[i] == x.privilege;
    }
  }

  lemma {:induction false} RefusedLater(
      answers: Answers, schema: string, table: string, wanted: seq<string>, x: Refusal)
    requires wanted != [] && TableRefused(answers, schema, table, wanted, x)
    ensures FirstRefused(answers, schema, table, wanted, x)
            || (!SaidMissing(answers, schema, table, wanted, 0)
                && TableRefused(answers, schema, table, wanted[1..], x))
  {
    var i := LaterWitness(answers, schema, table, wanted, x);
    if i > 0 {
      LaterQuestion(answers, schema, table, wanted, i - 1);
      assert wanted[1..][i - 1] == wanted[i];
    }
  }

  lemma {:induction false} FirstAnswered(
      answers: Answers, m: ComposedModule, table: string, wanted: seq<string>, x: Refusal)
    requires wanted != []
    ensures FirstRefused(answers, m.schema, table, wanted, x) <==>
            if SaidMissing(answers, m.schema, table, wanted, 0) then x == TableMissing(m.schema, table)
            else x in PrivilegeRefusals(answers, m, table, wanted[0])
  {
  }

  /** Every question is answered for itself, up to the first one that finds no table. */
  lemma {:induction false} TableMembers(
      answers: Answers, m: ComposedModule, table: string, wanted: seq<string>, x: Refusal)
    ensures x in TableRefusals(answers, m, table, wanted) <==> TableRefused(answers, m.schema, table, wanted, x)
  {
    if wanted != [] {
      TableMembers(answers, m, table, wanted[1..], x);
      FirstAnswered(answers, m, table, wanted, x);
      if TableRefused(answers, m.schema, table, wanted, x) {
        RefusedLater(answers, m.schema, table, wanted, x);
      }
      if FirstRefused(answers, m.schema, table, wanted, x)
         || (!SaidMissing(answers, m.schema, table, wanted, 0)
             && TableRefused(answers, m.schema, table, wanted[1..], x)) {
        RefusedFirst(answers, m.schema, table, wanted, x);
      }
    }
  }

  lemma {:induction false} TablesMembers(answers: Answers, m: ComposedModule, wanted: seq<string>, x: Refusal)
    requires wanted == REQUIRED_TABLE_PRIVILEGES
    ensures x in Collect(m.tenantTables, TableCheck(answers, m)) <==>
            exists table :: table in m.tenantTables && TableRefused(answers, m.schema, table, wanted, x)
  {
    CollectMembers(m.tenantTables, TableCheck(answers, m));
    forall table
      ensures x in TableCheck(answers, m)(table) <==> TableRefused(answers, m.schema, table, wanted, x)
    {
      TableMembers(answers, m, table, wanted, x);
    }
  }

  lemma {:induction false} GrantMembers(
      usage: map<string, SchemaUsage>, answers: Answers, m: ComposedModule, wanted: seq<string>, x: Refusal)
    requires wanted == REQUIRED_TABLE_PRIVILEGES
    ensures x in GrantCheck(usage, answers)(m) <==> GrantRefused(usage, answers, m, wanted, x)
  {
    TablesMembers(answers, m, wanted, x);
  }

  lemma {:induction false} ProbeMembers(probes: map<Key, RlsProbe>, m: ComposedModule, x: Refusal)
    ensures x in RlsCheck(probes)(m) <==> ProbeRefused(probes, m, x)
  {
  }

  lemma {:induction false} ActiveModules(byCode: map<string, ComposedModule>, codes: seq<string>, m: ComposedModule)
    ensures m in Collect(codes, DeclaredCheck(byCode)) <==> Active(byCode, codes, m)
  {
    DeclaredModules(byCode, codes);
  }

  lemma {:induction false} UndeclaredMembers(byCode: map<string, ComposedModule>, codes: seq<string>, x: Refusal)
    ensures x in Collect(codes, UndeclaredCheck(byCode)) <==>
            x.UndeclaredModule? && x.code in codes && x.code !in byCode
  {
    CollectMembers(codes, UndeclaredCheck(byCode));
    if x.UndeclaredModule? && x.code in codes && x.code !in byCode {
      assert x in UndeclaredCheck(byCode)(x.code);
    }
  }

  lemma {:induction false} ModuleMembers(
      byCode: map<string, ComposedModule>, s: Snapshot, modules: seq<ComposedModule>, x: Refusal)
    requires modules == Collect(s.activeModules, DeclaredCheck(byCode))
    ensures x in Collect(modules, GrantCheck(UsageOf(s), AnswersOf(s))) || x in Collect(modules, RlsCheck(ProbesOf(s)))
            <==> exists m :: Active(byCode, s.activeModules, m)
                             && (GrantRefused(UsageOf(s), AnswersOf(s), m, REQUIRED_TABLE_PRIVILEGES, x)
                                 || ProbeRefused(ProbesOf(s), m, x))
  {
    CollectMembers(modules, GrantCheck(UsageOf(s), AnswersOf(s)));
    CollectMembers(modules, RlsCheck(ProbesOf(s)));
    forall m
      ensures m in modules <==> Active(byCode, s.activeModules, m)
      ensures x in GrantCheck(UsageOf(s), AnswersOf(s))(m) <==>
              GrantRefused(UsageOf(s), AnswersOf(s), m, REQUIRED_TABLE_PRIVILEGES, x)
      ensures x in RlsCheck(ProbesOf(s))(m) <==> ProbeRefused(ProbesOf(s), m, x)
    {
      ActiveModules(byCode, s.activeModules, m);
      GrantMembers(UsageOf(s), AnswersOf(s), m, REQUIRED_TABLE_PRIVILEGES, x);
      ProbeMembers(ProbesOf(s), m, x);
    }
  }

  lemma {:induction false} PartsMembers(
      u: seq<Refusal>, i: seq<Refusal>, p: seq<Refusal>, g: seq<Refusal>, r: seq<Refusal>, x: Refusal)
    ensures x in u + i + p + g + r <==> x in u || x in i + p || x in g || x in r
  {
  }

  /** However many things are wrong, the verdict holds exactly the refusals they draw. */
  lemma {:induction false} VerdictMembers(byCode: map<string, ComposedModule>, s: Snapshot, x: Refusal)
    ensures x in Verdict(byCode, s) <==> Refused(byCode, s, x)
  {
    var modules := Collect(s.activeModules, DeclaredCheck(byCode));
    UndeclaredMembers(byCode, s.activeModules, x);
    IdentityMembers(s, x);
    ModuleMembers(byCode, s, modules, x);
    if modules == [] {
      forall m
        ensures !Active(byCode, s.activeModules, m)
      {
        ActiveModules(byCode, s.activeModules, m);
      }
    } else {
      assert modules[0] in modules;
      ActiveModules(byCode, s.activeModules, modules[0]);
      PartsMembers(Collect(s.activeModules, UndeclaredCheck(byCode)), IdentityRefusals(s), PostureRefusals(s),
                   Collect(modules, GrantCheck(UsageOf(s), AnswersOf(s))), Collect(modules, RlsCheck(ProbesOf(s))), x);
    }
  }

  // ----- once, and in order

  function Differ(): (Refusal, Refusal) -> bool { (x: Refusal, y: Refusal) => x != y }

  function SchemasDiffer(): (ComposedModule, ComposedModule) -> bool {
    (a: ComposedModule, b: ComposedModule) => a.schema != b.schema
  }

  /** Nothing is named twice: no code, no schema among the active modules, no table of one, no escalating role. */
  ghost predicate NamedOnce(byCode: map<string, ComposedModule>, s: Snapshot) {
    && Distinct(s.activeModules) && Distinct(s.escalationMemberships)
    && (forall code :: code in byCode ==> Distinct(byCode[code].tenantTables))
    && forall a, b :: a in byCode && b in byCode && a != b ==> byCode[a].schema != byCode[b].schema
  }

  lemma {:induction false} DifferApart(xs: seq<Refusal>, ys: seq<Refusal>)
    requires forall x :: x in xs ==> x !in ys
    ensures AllBefore(xs, ys, Differ())
  {
    assert forall i :: 0 <= i < |xs| ==> xs[i] in xs;
    assert forall i :: 0 <= i < |ys| ==> ys[i] in ys;
  }

  lemma {:induction false} TableOnce(answers: Answers, m: ComposedModule, table: string, wanted: seq<string>)
    requires Distinct(wanted)
    ensures Ordered(TableRefusals(answers, m, table, wanted), Differ())
  {
    if wanted != [] && !SaidMissing(answers, m.schema, table, wanted, 0) {
      var first, rest := PrivilegeRefusals(answers, m, table, wanted[0]), TableRefusals(answers, m, table, wanted[1..]);
      TableOnce(answers, m, table, wanted[1..]);
      forall x | x in first
        ensures x !in rest
      {
        TableMembers(answers, m, table, wanted[1..], x);
      }
      DifferApart(first, rest);
      OrderedAppend(first, rest, Differ());
    }
  }

  lemma {:induction false} TablesOnce(answers: Answers, m: ComposedModule, wanted: seq<string>)
    requires wanted == REQUIRED_TABLE_PRIVILEGES && Distinct(wanted) && Distinct(m.tenantTables)
    ensures Ordered(Collect(m.tenantTables, TableCheck(answers, m)), Differ())
  {
    var tables, check := m.tenantTables, TableCheck(answers, m);
    forall table | table in tables
      ensures Ordered(check(table), Differ())
    {
      TableOnce(answers, m, table, wanted);
    }
    forall i, j | 0 <= i < j < |tables|
      ensures AllBefore(check(tables[i]), check(tables[j]), Differ())
    {
      forall x | x in check(tables[i])
        ensures x !in check(tables[j])
      {
        TableMembers(answers, m, tables[i], wanted, x);
        TableMembers(answers, m, tables[j], wanted, x);
      }
      DifferApart(check(tables[i]), check(tables[j]));
    }
    CollectOrdered(tables, check, Differ());
  }

  lemma {:induction false} WantedOnce()
    ensures Distinct(REQUIRED_TABLE_PRIVILEGES)
  {
    assert "SELECT"[0] == 'S' && "INSERT"[0] == 'I' && "UPDATE"[0] == 'U' && "DELETE"[0] == 'D';
  }

  lemma {:induction false} GrantsOnce(usage: map<string, SchemaUsage>, answers: Answers, m: ComposedModule)
    requires Distinct(m.tenantTables)
    ensures Ordered(GrantCheck(usage, answers)(m), Differ())
  {
    WantedOnce();
    TablesOnce(answers, m, REQUIRED_TABLE_PRIVILEGES);
    var tables := Collect(m.tenantTables, TableCheck(answers, m));
    TablesMembers(answers, m, REQUIRED_TABLE_PRIVILEGES, SchemaUnusable(m.schema));
    DifferApart([SchemaUnusable(m.schema)], tables);
    OrderedAppend([SchemaUnusable(m.schema)], tables, Differ());
    assert [] + tables == tables;
  }

  /** The part a refusal belongs to: codes, identity, attributes, grants, isolation. */
  function Part(): Refusal -> nat {
    (x: Refusal) =>
      match x
      case UndeclaredModule(_) => 0
      case WrongCurrentUser(_) => 1
      case SessionActsAsAnother(_, _) => 2
      case WrongSessionUser(_) => 2
      case EscalationMembership(_) => 3
      case PostureUnknown => 4
      case BypassesRls => 4
      case IsSuperuser => 5
      case ProbeUnrecorded(_, _) => 7
      case ProbeNotExecuted(_, _) => 7
      case ForeignRowsVisible(_, _) => 7
      case OwnRowsSurviveSwitch(_, _) => 7
      case _ => 6
  }

  /** Whatever one module draws names its schema. */
  lemma {:induction false} NamesItsSchema(s: Snapshot, m: ComposedModule, x: Refusal)
    requires x in GrantCheck(UsageOf(s), AnswersOf(s))(m) || x in RlsCheck(ProbesOf(s))(m)
    ensures Part()(x) == (if x in GrantCheck(UsageOf(s), AnswersOf(s))(m) then 6 else 7) && x.schema == m.schema
  {
    GrantMembers(UsageOf(s), AnswersOf(s), m, REQUIRED_TABLE_PRIVILEGES, x);
    ProbeMembers(ProbesOf(s), m, x);
  }

  lemma {:induction false} ModulesApart(byCode: map<string, ComposedModule>, s: Snapshot)
    requires NamedOnce(byCode, s)
    ensures Ordered(Collect(s.activeModules, DeclaredCheck(byCode)), SchemasDiffer())
  {
    CollectOrdered(s.activeModules, DeclaredCheck(byCode), SchemasDiffer());
  }

  ghost predicate DrawnBy(m: ComposedModule, x: Refusal) { Part()(x) >= 6 && x.schema == m.schema }

  lemma {:induction false} DrawnApart(a: ComposedModule, b: ComposedModule, xs: seq<Refusal>, ys: seq<Refusal>)
    requires a.schema != b.schema
    requires (forall x :: x in xs ==> DrawnBy(a, x)) && forall y :: y in ys ==> DrawnBy(b, y)
    ensures AllBefore(xs, ys, Differ())
  {
    forall x | x in xs
      ensures x !in ys
    {
      assert DrawnBy(a, x) && !DrawnBy(b, x);
    }
    DifferApart(xs, ys);
  }

  lemma {:induction false} EachModuleOnce(modules: seq<ComposedModule>, check: ComposedModule -> seq<Refusal>)
    requires Ordered(modules, SchemasDiffer())
    requires forall m :: m in modules ==> Ordered(check(m), Differ())
    requires forall m, x :: m in modules && x in check(m) ==> DrawnBy(m, x)
    ensures Distinct(Collect(modules, check))
  {
    forall i, j | 0 <= i < j < |modules|
      ensures AllBefore(check(modules[i]), check(modules[j]), Differ())
    {
      assert modules[i] in modules && modules[j] in modules && SchemasDiffer()(modules[i], modules[j]);
      DrawnApart(modules[i], modules[j], check(modules[i]), check(modules[j]));
    }
    CollectOrdered(modules, check, Differ());
    OrderedIsDistinct(Collect(modules, check), Differ());
  }

  lemma {:induction false} GrantsOfModulesOnce(
      byCode: map<string, ComposedModule>, s: Snapshot, modules: seq<ComposedModule>)
    requires NamedOnce(byCode, s) && modules == Collect(s.activeModules, DeclaredCheck(byCode))
    ensures Distinct(Collect(modules, GrantCheck(UsageOf(s), AnswersOf(s))))
  {
    var check := GrantCheck(UsageOf(s), AnswersOf(s));
    ModulesApart(byCode, s);
    forall m, x | m in modules && x in check(m)
      ensures DrawnBy(m, x)
    {
      NamesItsSchema(s, m, x);
    }
    forall m | m in modules
      ensures Ordered(check(m), Differ())
    {
      ActiveModules(byCode, s.activeModules, m);
      GrantsOnce(UsageOf(s), AnswersOf(s), m);
    }
    EachModuleOnce(modules, check);
  }

  lemma {:induction false} ProbesOfModulesOnce(
      byCode: map<string, ComposedModule>, s: Snapshot, modules: seq<ComposedModule>)
    requires NamedOnce(byCode, s) && modules == Collect(s.activeModules, DeclaredCheck(byCode))
    ensures Distinct(Collect(modules, RlsCheck(ProbesOf(s))))
  {
    var check := RlsCheck(ProbesOf(s));
    ModulesApart(byCode, s);
    forall m, x | m in modules && x in check(m)
      ensures DrawnBy(m, x)
    {
      NamesItsSchema(s, m, x);
    }
    forall m | m in modules
      ensures Ordered(check(m), Differ())
    {
      ProbeOnce(ProbesOf(s), m);
    }
    EachModuleOnce(modules, check);
  }

  lemma {:induction false} ProbeOnce(probes: map<Key, RlsProbe>, m: ComposedModule)
    ensures Ordered(RlsCheck(probes)(m), Differ())
  {
  }

  ghost predicate AllOfPart(xs: seq<Refusal>, part: nat) { forall x :: x in xs ==> Part()(x) == part }

  lemma {:induction false} ModuleParts(s: Snapshot, modules: seq<ComposedModule>)
    ensures AllOfPart(Collect(modules, GrantCheck(UsageOf(s), AnswersOf(s))), 6)
    ensures AllOfPart(Collect(modules, RlsCheck(ProbesOf(s))), 7)
  {
    CollectMembers(modules, GrantCheck(UsageOf(s), AnswersOf(s)));
    CollectMembers(modules, RlsCheck(ProbesOf(s)));
    forall x | x in Collect(modules, GrantCheck(UsageOf(s), AnswersOf(s)))
      ensures Part()(x) == 6
    {
      var m :| m in modules && x in GrantCheck(UsageOf(s), AnswersOf(s))(m);
      NamesItsSchema(s, m, x);
    }
    forall x | x in Collect(modules, RlsCheck(ProbesOf(s)))
      ensures Part()(x) == 7
    {
      var m :| m in modules && x in RlsCheck(ProbesOf(s))(m);
      ProbeMembers(ProbesOf(s), m, x);
    }
  }

  lemma {:induction false} RolesInOrder(roles: seq<string>)
    ensures var found := Map(roles, (role: string) => EscalationMembership(role));
            && Ranked(found, Part()) && RanksWithin(found, Part(), 3, 3) && (Distinct(roles) ==> Distinct(found))
  {
  }

  lemma {:induction false} UsersInOrder(s: Snapshot)
    ensures var found := (if s.currentUser != RUNTIME_ROLE then [WrongCurrentUser(s.currentUser)] else [])
                         + (if s.sessionUser != s.currentUser then [SessionActsAsAnother(s.sessionUser, s.currentUser)]
                            else if s.sessionUser != RUNTIME_ROLE then [WrongSessionUser(s.sessionUser)] else []);
            Ranked(found, Part()) && RanksWithin(found, Part(), 1, 2) && Distinct(found)
  {
  }

  lemma {:induction false} PostureInOrder(s: Snapshot)
    ensures Ranked(PostureRefusals(s), Part()) && RanksWithin(PostureRefusals(s), Part(), 4, 5)
    ensures Distinct(PostureRefusals(s))
  {
  }

  lemma {:induction false} IdentityInOrder(s: Snapshot)
    ensures Ranked(IdentityRefusals(s) + PostureRefusals(s), Part())
    ensures RanksWithin(IdentityRefusals(s) + PostureRefusals(s), Part(), 1, 5)
    ensures Distinct(s.escalationMemberships) ==> Distinct(IdentityRefusals(s) + PostureRefusals(s))
  {
    var users := (if s.currentUser != RUNTIME_ROLE then [WrongCurrentUser(s.currentUser)] else [])
                 + (if s.sessionUser != s.currentUser then [SessionActsAsAnother(s.sessionUser, s.currentUser)]
                    else if s.sessionUser != RUNTIME_ROLE then [WrongSessionUser(s.sessionUser)] else []);
    var roles := Map(s.escalationMemberships, (role: string) => EscalationMembership(role));
    UsersInOrder(s);
    RolesInOrder(s.escalationMemberships);
    PostureInOrder(s);
    Together(users, roles, PostureRefusals(s));
    assert IdentityRefusals(s) == users + roles;
  }

  lemma {:induction false} Together(users: seq<Refusal>, roles: seq<Refusal>, posture: seq<Refusal>)
    requires Ranked(users, Part()) && RanksWithin(users, Part(), 1, 2) && Distinct(users)
    requires Ranked(roles, Part()) && RanksWithin(roles, Part(), 3, 3)
    requires Ranked(posture, Part()) && RanksWithin(posture, Part(), 4, 5) && Distinct(posture)
    ensures Ranked(users + roles + posture, Part()) && RanksWithin(users + roles + posture, Part(), 1, 5)
    ensures Distinct(roles) ==> Distinct(users + roles + posture)
  {
    RankedAppend(users, roles, Part(), 1, 2, 3, 3);
    RankedAppend(users + roles, posture, Part(), 1, 3, 4, 5);
    if Distinct(roles) {
      OnceByPart(users, roles, 1, 2, 3, 3);
      OnceByPart(users + roles, posture, 1, 3, 4, 5);
    }
  }

  lemma {:induction false} UndeclaredOnce(byCode: map<string, ComposedModule>, codes: seq<string>)
    ensures AllOfPart(Collect(codes, UndeclaredCheck(byCode)), 0)
    ensures Distinct(codes) ==> Distinct(Collect(codes, UndeclaredCheck(byCode)))
  {
    forall x | x in Collect(codes, UndeclaredCheck(byCode))
      ensures Part()(x) == 0
    {
      UndeclaredMembers(byCode, codes, x);
    }
    if Distinct(codes) {
      CollectOrdered(codes, UndeclaredCheck(byCode), Differ());
      OrderedIsDistinct(Collect(codes, UndeclaredCheck(byCode)), Differ());
    }
  }

  lemma {:induction false} OnceByPart(vs: seq<Refusal>, ws: seq<Refusal>, low: nat, middle: nat, next: nat, high: nat)
    requires RanksWithin(vs, Part(), low, middle) && RanksWithin(ws, Part(), next, high) && middle < next
    requires Distinct(vs) && Distinct(ws)
    ensures Distinct(vs + ws)
  {
  }

  lemma {:induction false} PartsTogether(u: seq<Refusal>, i: seq<Refusal>, g: seq<Refusal>, r: seq<Refusal>)
    requires AllOfPart(u, 0) && Ranked(i, Part()) && RanksWithin(i, Part(), 1, 5) && AllOfPart(g, 6) && AllOfPart(r, 7)
    ensures Ranked(u + i + g + r, Part())
    ensures Distinct(u) && Distinct(i) && Distinct(g) && Distinct(r) ==> Distinct(u + i + g + r)
  {
    RankedAlike(u, Part(), 0);
    RankedAlike(g, Part(), 6);
    RankedAlike(r, Part(), 7);
    RankedAppend(u, i, Part(), 0, 0, 1, 5);
    RankedAppend(u + i, g, Part(), 0, 5, 6, 6);
    RankedAppend(u + i + g, r, Part(), 0, 6, 7, 7);
    if Distinct(u) && Distinct(i) && Distinct(g) && Distinct(r) {
      OnceByPart(u, i, 0, 0, 1, 5);
      OnceByPart(u + i, g, 0, 5, 6, 6);
      OnceByPart(u + i + g, r, 0, 6, 7, 7);
    }
  }

  /** The parts come in order; and when nothing is named twice, every refusal comes once. */
  lemma {:induction false} VerdictInOrder(byCode: map<string, ComposedModule>, s: Snapshot)
    ensures Ranked(Verdict(byCode, s), Part())
    ensures NamedOnce(byCode, s) ==> Distinct(Verdict(byCode, s))
  {
    var modules := Collect(s.activeModules, DeclaredCheck(byCode));
    var undeclared := Collect(s.activeModules, UndeclaredCheck(byCode));
    UndeclaredOnce(byCode, s.activeModules);
    if modules == [] {
      RankedAlike(undeclared, Part(), 0);
    } else {
      IdentityInOrder(s);
      ModuleParts(s, modules);
      if NamedOnce(byCode, s) {
        GrantsOfModulesOnce(byCode, s, modules);
        ProbesOfModulesOnce(byCode, s, modules);
      }
      PartsTogether(undeclared, IdentityRefusals(s) + PostureRefusals(s),
                    Collect(modules, GrantCheck(UsageOf(s), AnswersOf(s))), Collect(modules, RlsCheck(ProbesOf(s))));
      AppendAssociates(undeclared, IdentityRefusals(s), PostureRefusals(s));
    }
  }
}
