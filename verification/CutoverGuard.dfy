/**
 The guard over one manifest and one snapshot (app/privilege_manifest.py): each
 sub-guard as the list its loop appends to, then the loops themselves.
 */
module CutoverGuard {
  import opened Collections
  import opened PrivilegeManifest

  datatype Violation =
    | BaselineMoved(section: string, actual: int, expected: int)
    | DenialsMoved(section: string, actual: int, expected: int)
    | UnobservedObject(identity: string)
    | ObjectVanished(identity: string)
    | KindChange(identity: string)
    | OverloadAmbiguity(identity: string)
    | OverloadConfusion(identity: string, resolved: string)
    | UnobservedPrivilege(identity: string, privilege: string)
    | PrivilegeAbsent(identity: string, privilege: string)
    | PrivilegeOrigin(identity: string, privilege: string)
    | PrivilegeAdded(identity: string, privilege: string)
    | ExclusionMoved(scope: string, actual: int, expected: int)
    | MembershipBetweenRoles(member: string, grantedRole: string)
    | TargetMembership(grantedRole: string)
    | RoleBypassesRls(role: string)
    | RoleIsSuperuser(role: string)
    | OwnershipChange(identity: string)
    | LegacyModulePrivilege(identity: string, privilege: string)
    | UnprobedDenial(identity: string, privilege: string)
    | DeniedPrivilegeHeld(identity: string, privilege: string)
    | UnprobedColumnDenial(identity: string, privilege: string)
    | DeniedColumnPrivilegeHeld(identity: string, privilege: string)
    | UndeclaredExecutor(identity: string)
    | UnprobedExecuteDenial(identity: string, role: string)
    | NonEffectiveExecute(identity: string, role: string)
    | PublicExecuteInherited(identity: string)
    | DeniedExecuteHeld(identity: string)
    | ExecutorCannotExecute(identity: string, role: string)

  /** What makes the guard raise instead of answering. */
  datatype GuardError = NotAnIdentityKey(identity: string) | UnknownSection(section: string)

  // ----- the baseline ratchet

  function BaselineCheck(c: Contract, m: Manifest): string -> seq<Violation> {
    (section: string) =>
      var actual, expected := |Section(m, section)|, Total(c.baselineTotals, section);
      if actual == expected then [] else [BaselineMoved(section, actual, expected)]
  }

  function DenialCountCheck(c: Contract, m: Manifest): Key -> seq<Violation> {
    (key: Key) =>
      var actual, expected := |Filter(m.rows, DeniedIn(key.first))|, Total(c.deniedTotals, key.first);
      if actual == expected then [] else [DenialsMoved(key.first, actual, expected)]
  }

  function DenialSections(c: Contract, m: Manifest): set<Key> {
    (set section | section in c.deniedTotals :: Single(section))
    + (set row | row in m.rows && row.disposition.Denied? :: Single(row.section))
  }

  function BaselineRefusals(c: Contract, m: Manifest): seq<Violation> {
    Collect(SECTIONS, BaselineCheck(c, m)) + Collect(SortedKeys(DenialSections(c, m)), DenialCountCheck(c, m))
  }

  // ----- objects

  function KindRefusals(e: ObservedObject, row: GrantRow): seq<Violation> {
    (if e.objectKind != row.objectKind || e.relkind != row.relkind then [KindChange(row.identity)] else [])
    + (if row.objectKind == KIND_FUNCTION && e.candidateCount != 1 then [OverloadAmbiguity(row.identity)] else [])
    + (if row.objectKind == KIND_FUNCTION && e.resolvedIdentity != "" && e.resolvedIdentity != row.identity
       then [OverloadConfusion(row.identity, e.resolvedIdentity)] else [])
  }

  function ObjectCheck(objects: map<string, ObservedObject>): GrantRow -> seq<Violation> {
    (row: GrantRow) =>
      if row.identity !in objects then [UnobservedObject(row.identity)]
      else if !objects[row.identity].present then [ObjectVanished(row.identity)]
      else KindRefusals(objects[row.identity], row)
  }

  function ObjectRefusals(m: Manifest, v: View): seq<Violation> { Collect(FirstRows(m.rows), ObjectCheck(v.objects)) }

  // ----- privileges

  function ExpectedKeys(m: Manifest): set<Key> {
    set row | row in m.rows && row.targetRole == m.targetRole && !row.disposition.Denied?
      :: Pair(row.identity, row.privilege)
  }

  function Vanished(v: View, identity: string): bool { identity in v.objects && !v.objects[identity].present }

  function ExpectedCheck(v: View): Key -> seq<Violation> {
    (key: Key) =>
      if Vanished(v, key.first) then []
      else if key !in v.privileges then [UnobservedPrivilege(key.first, key.second)]
      else if !v.privileges[key].held then [PrivilegeAbsent(key.first, key.second)]
      else if v.privileges[key].origin != DIRECT_ORIGIN then [PrivilegeOrigin(key.first, key.second)]
      else []
  }

  function IsExtra(m: Manifest, v: View): Key -> bool {
    (key: Key) => key in v.privileges && v.privileges[key].held && key !in ExpectedKeys(m)
  }

  /** Held privileges the manifest does not list, in the order the guard meets them. */
  function ExtraKeys(m: Manifest, v: View): seq<Key> {
    Filter(SortedKeys(v.privileges.Keys), IsExtra(m, v))
  }

  function FirstMalformed(keys: seq<Key>): Option<Key> {
    if keys == [] then None
    else
      var earlier := FirstMalformed(keys[..|keys| - 1]);
      if earlier.Some? then earlier
      else if IdentitySchema(keys[|keys| - 1].first).None? then Some(keys[|keys| - 1]) else None
  }

  function InScope(scope: string): Key -> bool { (key: Key) => IdentitySchema(key.first) == Some(scope) }

  /** How many of the extra keys lie in one schema. */
  function CountIn(extra: seq<Key>, scope: string): nat { |Filter(extra, InScope(scope))| }

  function AddedCheck(preserved: map<string, int>): Key -> seq<Violation> {
    (key: Key) =>
      var scope := IdentitySchema(key.first);
      if scope.Some? && scope.value in preserved then [] else [PrivilegeAdded(key.first, key.second)]
  }

  function ExclusionCheck(extra: seq<Key>, preserved: map<string, int>): Key -> seq<Violation> {
    (key: Key) =>
      var actual, expected := CountIn(extra, key.first), Total(preserved, key.first);
      if actual == expected then [] else [ExclusionMoved(key.first, actual, expected)]
  }

  function ScopeKeys(preserved: map<string, int>): set<Key> { set scope | scope in preserved :: Single(scope) }

  function ExpectedRefusals(m: Manifest, v: View): seq<Violation> {
    Collect(SortedKeys(ExpectedKeys(m)), ExpectedCheck(v))
  }

  function ExtraRefusals(extra: seq<Key>, preserved: map<string, int>): seq<Violation> {
    Collect(extra, AddedCheck(preserved)) + Collect(SortedKeys(ScopeKeys(preserved)), ExclusionCheck(extra, preserved))
  }

  function PrivilegeRefusals(m: Manifest, v: View): Result<seq<Violation>, GuardError> {
    var extra := ExtraKeys(m, v);
    match FirstMalformed(extra)
    case Some(key) => Failure(NotAnIdentityKey(key.first))
    case None => Success(ExpectedRefusals(m, v) + ExtraRefusals(extra, PreservedScopes(m)))
  }

  // ----- escalation

  function MembershipCheck(m: Manifest): ObservedMembership -> seq<Violation> {
    (e: ObservedMembership) =>
      var roles := {m.sourceRole, m.targetRole};
      if e.member in roles && e.grantedRole in roles then [MembershipBetweenRoles(e.member, e.grantedRole)]
      else if e.member == m.targetRole then [TargetMembership(e.grantedRole)]
      else []
  }

  function PostureCheck(m: Manifest): ObservedPosture -> seq<Violation> {
    (e: ObservedPosture) =>
      if e.role !in {m.sourceRole, m.targetRole} then []
      else (if e.bypassRls then [RoleBypassesRls(e.role)] else [])
           + (if e.superuser then [RoleIsSuperuser(e.role)] else [])
  }

  function OwnerCheck(objects: map<string, ObservedObject>): GrantRow -> seq<Violation> {
    (row: GrantRow) =>
      if row.identity in objects && objects[row.identity].present && objects[row.identity].owner != row.owner
      then [OwnershipChange(row.identity)] else []
  }

  /** Only the first row of an identity that records an owner is compared. */
  function OwnedRows(m: Manifest): seq<GrantRow> { FirstRows(Filter(m.rows, HasOwner())) }

  function OwnershipRefusals(m: Manifest, v: View): seq<Violation> { Collect(OwnedRows(m), OwnerCheck(v.objects)) }

  function RoleRefusals(m: Manifest, s: Snapshot): seq<Violation> {
    Collect(s.memberships, MembershipCheck(m)) + Collect(s.postures, PostureCheck(m))
  }

  // ----- the legacy role

  function LegacyCheck(c: Contract, m: Manifest): ObservedPrivilege -> seq<Violation> {
    (e: ObservedPrivilege) =>
      if e.role == m.sourceRole && e.held && e.identity !in c.moduleEraAllowlist
      then [LegacyModulePrivilege(e.identity, e.privilege)] else []
  }

  function LegacyRefusals(c: Contract, m: Manifest, s: Snapshot): seq<Violation> {
    Collect(SortBy(s.legacyModulePrivileges, PrivilegeKey()), LegacyCheck(c, m))
  }

  // ----- denied relations

  function TableCheck(v: View, identity: string): string -> seq<Violation> {
    (privilege: string) =>
      var key := Pair(identity, privilege);
      if key !in v.tableAnswers then [UnprobedDenial(identity, privilege)]
      else if v.tableAnswers[key].held then [DeniedPrivilegeHeld(identity, privilege)]
      else []
  }

  function ColumnCheck(v: View, identity: string): string -> seq<Violation> {
    (privilege: string) =>
      var key := Pair(identity, privilege);
      if key !in v.columnAnswers || v.columnAnswers[key].columnsProbed == 0
      then [UnprobedColumnDenial(identity, privilege)]
      else if v.columnAnswers[key].columnsHeld != [] then [DeniedColumnPrivilegeHeld(identity, privilege)]
      else []
  }

  function DenialCheckOver(v: View, tables: seq<string>, columns: seq<string>): Key -> seq<Violation> {
    (key: Key) => Collect(tables, TableCheck(v, key.first)) + Collect(columns, ColumnCheck(v, key.first))
  }

  function DenialCheck(v: View): Key -> seq<Violation> {
    DenialCheckOver(v, DENIED_TABLE_PRIVILEGES, COLUMN_LEVEL_PRIVILEGES)
  }

  function DenialRefusals(m: Manifest, v: View): seq<Violation> {
    Collect(SortedKeys(DeniedRelationKeys(m)), DenialCheck(v))
  }

  // ----- denied functions

  function WantedRoles(m: Manifest, executor: string): seq<string> {
    [m.targetRole, PUBLIC_PSEUDO_ROLE] + (if executor == NO_RUNTIME_EXECUTOR then [] else [executor])
  }

  function ExecuteCheck(m: Manifest, v: View, identity: string, executor: string): string -> seq<Violation> {
    (role: string) =>
      var key := Pair(identity, role);
      if key !in v.executeAnswers || !v.executeAnswers[key].probed then [UnprobedExecuteDenial(identity, role)]
      else if !v.executeAnswers[key].effective then [NonEffectiveExecute(identity, role)]
      else if role == PUBLIC_PSEUDO_ROLE && v.executeAnswers[key].held then [PublicExecuteInherited(identity)]
      else if role == m.targetRole && v.executeAnswers[key].held then [DeniedExecuteHeld(identity)]
      else if executor != NO_RUNTIME_EXECUTOR && role == executor && !v.executeAnswers[key].held
      then [ExecutorCannotExecute(identity, role)]
      else []
  }

  function FunctionCheck(c: Contract, m: Manifest, v: View): GrantRow -> seq<Violation> {
    (row: GrantRow) =>
      if row.identity !in c.executors then [UndeclaredExecutor(row.identity)]
      else Collect(WantedRoles(m, c.executors[row.identity]),
                   ExecuteCheck(m, v, row.identity, c.executors[row.identity]))
  }

  function FirstUnknownSection(rows: seq<GrantRow>): Option<string> {
    if rows == [] then None
    else
      var earlier := FirstUnknownSection(rows[..|rows| - 1]);
      if earlier.Some? then earlier
      else if !KnownSection(rows[|rows| - 1].section) then Some(rows[|rows| - 1].section) else None
  }

  function FunctionRefusals(c: Contract, m: Manifest, v: View): Result<seq<Violation>, GuardError> {
    match FirstUnknownSection(DeniedFunctions(m))
    case Some(section) => Failure(UnknownSection(section))
    case None => Success(Collect(SortBy(DeniedFunctions(m), SortKey()), FunctionCheck(c, m, v)))
  }

  // ----- every refusal

  type Outcome = Result<seq<Violation>, GuardError>

  /** The lists in the order they are reported, unless one of them could not be made. */
  function Glued(
      baseline: seq<Violation>, objects: seq<Violation>, privileges: Outcome, roles: seq<Violation>,
      owners: seq<Violation>, legacy: seq<Violation>, denials: seq<Violation>, functions: Outcome): Outcome
  {
    if privileges.Failure? then privileges
    else if functions.Failure? then functions
    else Success(
      baseline + objects + privileges.value + (roles + owners) + legacy + denials + functions.value)
  }

  function CutoverRefusals(c: Contract, m: Manifest, s: Snapshot): Outcome {
    var v := ViewOf(m, s);
    Glued(BaselineRefusals(c, m), ObjectRefusals(m, v), PrivilegeRefusals(m, v), RoleRefusals(m, s),
          OwnershipRefusals(m, v), LegacyRefusals(c, m, s), DenialRefusals(m, v), FunctionRefusals(c, m, v))
  }

  // ----- the loops

  method BaselineViolations(c: Contract, m: Manifest) returns (violations: seq<Violation>)
    ensures violations == BaselineRefusals(c, m)
  {
    violations := [];
    for n := 0 to |SECTIONS|
      invariant violations == Collect(SECTIONS[..n], BaselineCheck(c, m))
    {
      PrefixStep(SECTIONS, n);
      var actual, expected := |Section(m, SECTIONS[n])|, Total(c.baselineTotals, SECTIONS[n]);
      if actual != expected {
        violations := violations + [BaselineMoved(SECTIONS[n], actual, expected)];
      }
    }
    assert SECTIONS[..|SECTIONS|] == SECTIONS;
    var denials := DenialCountViolations(c, m);
    violations := violations + denials;
  }

  method CountDenials(rows: seq<GrantRow>) returns (counted: map<string, int>)
    ensures forall section :: Total(counted, section) == |Filter(rows, DeniedIn(section))|
  {
    counted := map[];
    for n := 0 to |rows|
      invariant forall section :: Total(counted, section) == |Filter(rows[..n], DeniedIn(section))|
    {
      PrefixStep(rows, n);
      if rows[n].disposition.Denied? {
        counted := counted[rows[n].section := Total(counted, rows[n].section) + 1];
      }
    }
    assert rows[..|rows|] == rows;
  }

  method DenialCountViolations(c: Contract, m: Manifest) returns (violations: seq<Violation>)
    ensures violations == Collect(SortedKeys(DenialSections(c, m)), DenialCountCheck(c, m))
  {
    var counted := CountDenials(m.rows);
    violations := [];
    var sections := SortedKeys(DenialSections(c, m));
    for n := 0 to |sections|
      invariant violations == Collect(sections[..n], DenialCountCheck(c, m))
    {
      PrefixStep(sections, n);
      var section := sections[n].first;
      if Total(counted, section) != Total(c.deniedTotals, section) {
        violations := violations + [DenialsMoved(section, Total(counted, section), Total(c.deniedTotals, section))];
      }
    }
    assert sections[..|sections|] == sections;
  }

  method ObjectViolations(m: Manifest, observed: map<string, ObservedObject>) returns (violations: seq<Violation>)
    ensures violations == Collect(FirstRows(m.rows), ObjectCheck(observed))
  {
    violations := [];
    var seen: set<string> := {};
    for n := 0 to |m.rows|
      invariant seen == Identities(m.rows[..n])
      invariant violations == Collect(FirstRows(m.rows[..n]), ObjectCheck(observed))
    {
      PrefixStep(m.rows, n);
      SeenStep(m.rows, n);
      var row := m.rows[n];
      if row.identity !in seen {
        seen := seen + {row.identity};
        AppendedFirstRow(m.rows, n, ObjectCheck(observed));
        violations := violations + ObjectCheck(observed)(row);
      }
    }
    assert m.rows[..|m.rows|] == m.rows;
  }

  lemma {:induction false} SeenStep(rows: seq<GrantRow>, n: nat)
    requires n < |rows|
    ensures Identities(rows[..n + 1]) == Identities(rows[..n]) + {rows[n].identity}
    ensures rows[n].identity in Identities(rows[..n]) ==> FirstRows(rows[..n + 1]) == FirstRows(rows[..n])
  {
    PrefixStep(rows, n);
    assert rows[..n + 1] == rows[..n] + [rows[n]];
  }

  lemma {:induction false} AppendedFirstRow(rows: seq<GrantRow>, n: nat, check: GrantRow -> seq<Violation>)
    requires n < |rows| && rows[n].identity !in Identities(rows[..n])
    ensures Collect(FirstRows(rows[..n + 1]), check) == Collect(FirstRows(rows[..n]), check) + check(rows[n])
  {
    PrefixStep(rows, n);
    var firsts := FirstRows(rows[..n]);
    assert FirstRows(rows[..n + 1]) == firsts + [rows[n]];
    assert (firsts + [rows[n]])[..|firsts|] == firsts;
  }

  method PrivilegeViolations(m: Manifest, v: View) returns (r: Result<seq<Violation>, GuardError>)
    ensures r == PrivilegeRefusals(m, v)
  {
    var violations: seq<Violation> := [];
    var keys := SortedKeys(ExpectedKeys(m));
    for n := 0 to |keys|
      invariant violations == Collect(keys[..n], ExpectedCheck(v))
    {
      PrefixStep(keys, n);
      violations := violations + ExpectedCheck(v)(keys[n]);
    }
    assert keys[..|keys|] == keys;
    var extra := ExtraViolations(m, v);
    r := if extra.Failure? then extra else Success(violations + extra.value);
  }

  method ExtraViolations(m: Manifest, v: View) returns (r: Result<seq<Violation>, GuardError>)
    ensures r == match FirstMalformed(ExtraKeys(m, v))
                 case Some(key) => Failure(NotAnIdentityKey(key.first))
                 case None => Success(ExtraRefusals(ExtraKeys(m, v), PreservedScopes(m)))
  {
    var preserved := PreservedScopes(m);
    var malformed, added, seen := CountExtras(SortedKeys(v.privileges.Keys), IsExtra(m, v), preserved);
    if malformed.Some? {
      return Failure(NotAnIdentityKey(malformed.value.first));
    }
    var counts := ExclusionViolations(preserved, seen, ExtraKeys(m, v));
    r := Success(added + counts);
  }

  ghost predicate Seen(extra: seq<Key>, seen: map<string, int>) {
    forall scope :: scope in seen ==> seen[scope] == CountIn(extra, scope)
  }

  /** The tally after the extra keys met so far. */
  ghost predicate Tallied(extra: seq<Key>, preserved: map<string, int>, added: seq<Violation>, seen: map<string, int>) {
    && FirstMalformed(extra).None?
    && added == Collect(extra, AddedCheck(preserved))
    && seen.Keys == preserved.Keys
    && Seen(extra, seen)
  }

  /** One extra key: malformed, counted in its preserved scope, or reported. */
  method CountExtra(
      key: Key, preserved: map<string, int>, added0: seq<Violation>, seen0: map<string, int>, ghost extra: seq<Key>)
    returns (malformed: bool, added: seq<Violation>, seen: map<string, int>)
    requires Tallied(extra, preserved, added0, seen0)
    ensures malformed ==> FirstMalformed(extra + [key]) == Some(key)
    ensures !malformed ==> Tallied(extra + [key], preserved, added, seen)
  {
    TallyStep(extra, key, preserved, added0, seen0);
    added, seen, malformed := added0, seen0, false;
    var scope := IdentitySchema(key.first);
    if scope.None? {
      malformed := true;
    } else if scope.value in preserved {
      seen := seen[scope.value := seen[scope.value] + 1];
    } else {
      added := added + [PrivilegeAdded(key.first, key.second)];
    }
  }

  method CountExtras(keys: seq<Key>, isExtra: Key -> bool, preserved: map<string, int>)
    returns (malformed: Option<Key>, added: seq<Violation>, seen: map<string, int>)
    ensures malformed == FirstMalformed(Filter(keys, isExtra))
    ensures malformed.None? ==> Tallied(Filter(keys, isExtra), preserved, added, seen)
  {
    seen := map scope | scope in preserved :: 0;
    added := [];
    malformed := None;
    for n := 0 to |keys|
      invariant Tallied(Filter(keys[..n], isExtra), preserved, added, seen)
    {
      FilterPrefix(keys, n, isExtra);
      if isExtra(keys[n]) {
        var bad;
        bad, added, seen := CountExtra(keys[n], preserved, added, seen, Filter(keys[..n], isExtra));
        if bad {
          MalformedStays(keys, n + 1, isExtra);
          malformed := Some(keys[n]);
          return;
        }
      }
    }
    assert keys[..|keys|] == keys;
  }

  lemma {:induction false} CountStep(extra: seq<Key>, key: Key, scope: string)
    ensures CountIn(extra + [key], scope) ==
            CountIn(extra, scope) + if IdentitySchema(key.first) == Some(scope) then 1 else 0
  {
    FilterSnoc(extra, key, InScope(scope));
  }

  lemma {:induction false} CountedInScope(extra: seq<Key>, key: Key, seen: map<string, int>, scope: string)
    requires Seen(extra, seen) && IdentitySchema(key.first) == Some(scope)
    ensures Seen(extra + [key], if scope in seen then seen[scope := seen[scope] + 1] else seen)
  {
    var after := if scope in seen then seen[scope := seen[scope] + 1] else seen;
    forall other | other in after
      ensures after[other] == CountIn(extra + [key], other)
    {
      CountStep(extra, key, other);
    }
  }

  lemma {:induction false} MalformedStep(extra: seq<Key>, key: Key)
    requires FirstMalformed(extra).None?
    ensures FirstMalformed(extra + [key]) == if IdentitySchema(key.first).None? then Some(key) else None
  {
    assert (extra + [key])[..|extra|] == extra;
  }

  lemma {:induction false} TallyStep(
      extra: seq<Key>, key: Key, preserved: map<string, int>, added: seq<Violation>, seen: map<string, int>)
    requires Tallied(extra, preserved, added, seen)
    ensures var scope := IdentitySchema(key.first);
            match scope
            case None => FirstMalformed(extra + [key]) == Some(key)
            case Some(name) =>
              if name in preserved then Tallied(extra + [key], preserved, added, seen[name := seen[name] + 1])
              else Tallied(extra + [key], preserved, added + [PrivilegeAdded(key.first, key.second)], seen)
  {
    MalformedStep(extra, key);
    CollectSnoc(extra, key, AddedCheck(preserved));
    var scope := IdentitySchema(key.first);
    if scope.Some? {
      CountedInScope(extra, key, seen, scope.value);
    }
  }

  method ExclusionViolations(preserved: map<string, int>, seen: map<string, int>, ghost extra: seq<Key>)
    returns (violations: seq<Violation>)
    requires seen.Keys == preserved.Keys
    requires Seen(extra, seen)
    ensures violations == Collect(SortedKeys(ScopeKeys(preserved)), ExclusionCheck(extra, preserved))
  {
    violations := [];
    var scopes := SortedKeys(ScopeKeys(preserved));
    for n := 0 to |scopes|
      invariant violations == Collect(scopes[..n], ExclusionCheck(extra, preserved))
    {
      PrefixStep(scopes, n);
      assert scopes[n] in scopes;
      var scope := scopes[n].first;
      if seen[scope] != preserved[scope] {
        violations := violations + [ExclusionMoved(scope, seen[scope], preserved[scope])];
      }
    }
    assert scopes[..|scopes|] == scopes;
  }

  lemma {:induction false} MalformedStays(keys: seq<Key>, n: nat, isExtra: Key -> bool)
    requires n <= |keys|
    requires FirstMalformed(Filter(keys[..n], isExtra)).Some?
    ensures FirstMalformed(Filter(keys, isExtra)) == FirstMalformed(Filter(keys[..n], isExtra))
  {
    if n == |keys| {
      assert keys[..n] == keys;
    } else {
      var init := keys[..|keys| - 1];
      assert init[..n] == keys[..n];
      MalformedStays(init, n, isExtra);
      var kept := Filter(init, isExtra);
      if isExtra(keys[|keys| - 1]) {
        assert (kept + [keys[|keys| - 1]])[..|kept|] == kept;
      }
    }
  }

  method RoleViolations(m: Manifest, s: Snapshot) returns (violations: seq<Violation>)
    ensures violations == RoleRefusals(m, s)
  {
    var memberships, postures: seq<Violation> := [], [];
    for n := 0 to |s.memberships|
      invariant memberships == Collect(s.memberships[..n], MembershipCheck(m))
    {
      PrefixStep(s.memberships, n);
      memberships := memberships + MembershipCheck(m)(s.memberships[n]);
    }
    assert s.memberships[..|s.memberships|] == s.memberships;
    for n := 0 to |s.postures|
      invariant postures == Collect(s.postures[..n], PostureCheck(m))
    {
      PrefixStep(s.postures, n);
      postures := postures + PostureCheck(m)(s.postures[n]);
    }
    assert s.postures[..|s.postures|] == s.postures;
    violations := memberships + postures;
  }

  method EscalationViolations(m: Manifest, s: Snapshot, observed: map<string, ObservedObject>)
    returns (violations: seq<Violation>)
    ensures violations == RoleRefusals(m, s) + Collect(OwnedRows(m), OwnerCheck(observed))
  {
    var roles := RoleViolations(m, s);
    var owners := OwnerViolations(m, observed);
    violations := roles + owners;
  }

  method OwnerViolations(m: Manifest, observed: map<string, ObservedObject>) returns (violations: seq<Violation>)
    ensures violations == Collect(OwnedRows(m), OwnerCheck(observed))
  {
    violations := [];
    var checked: set<string> := {};
    for n := 0 to |m.rows|
      invariant checked == Identities(Filter(m.rows[..n], HasOwner()))
      invariant violations == Collect(FirstRows(Filter(m.rows[..n], HasOwner())), OwnerCheck(observed))
    {
      FilterPrefix(m.rows, n, HasOwner());
      var row := m.rows[n];
      if row.owner != "" {
        OwnedStep(Filter(m.rows[..n], HasOwner()), row, OwnerCheck(observed));
        if row.identity !in checked {
          checked := checked + {row.identity};
          violations := violations + OwnerCheck(observed)(row);
        }
      }
    }
    assert m.rows[..|m.rows|] == m.rows;
  }

  lemma {:induction false} OwnedStep(owned: seq<GrantRow>, row: GrantRow, check: GrantRow -> seq<Violation>)
    ensures Identities(owned + [row]) == Identities(owned) + {row.identity}
    ensures Collect(FirstRows(owned + [row]), check) ==
            if row.identity in Identities(owned) then Collect(FirstRows(owned), check)
            else Collect(FirstRows(owned), check) + check(row)
  {
    var rows := owned + [row];
    assert rows[..|owned|] == owned && rows[..|owned| + 1] == rows;
    SeenStep(rows, |owned|);
    if row.identity !in Identities(owned) {
      AppendedFirstRow(rows, |owned|, check);
    }
  }

  method LegacyViolations(c: Contract, m: Manifest, s: Snapshot) returns (violations: seq<Violation>)
    ensures violations == LegacyRefusals(c, m, s)
  {
    violations := [];
    var entries := SortBy(s.legacyModulePrivileges, PrivilegeKey());
    for n := 0 to |entries|
      invariant violations == Collect(entries[..n], LegacyCheck(c, m))
    {
      PrefixStep(entries, n);
      violations := violations + LegacyCheck(c, m)(entries[n]);
    }
    assert entries[..|entries|] == entries;
  }

  method DenialViolations(m: Manifest, v: View) returns (violations: seq<Violation>)
    ensures violations == DenialRefusals(m, v)
  {
    violations := [];
    var denied := SortedKeys(DeniedRelationKeys(m));
    for n := 0 to |denied|
      invariant violations == Collect(denied[..n], DenialCheck(v))
    {
      PrefixStep(denied, n);
      var tables := ProbeViolations(DENIED_TABLE_PRIVILEGES, TableCheck(v, denied[n].first));
      var columns := ProbeViolations(COLUMN_LEVEL_PRIVILEGES, ColumnCheck(v, denied[n].first));
      violations := violations + (tables + columns);
    }
    assert denied[..|denied|] == denied;
  }

  method ProbeViolations(wanted: seq<string>, check: string -> seq<Violation>) returns (violations: seq<Violation>)
    ensures violations == Collect(wanted, check)
  {
    violations := [];
    for n := 0 to |wanted|
      invariant violations == Collect(wanted[..n], check)
    {
      PrefixStep(wanted, n);
      violations := violations + check(wanted[n]);
    }
    assert wanted[..|wanted|] == wanted;
  }

  method FunctionDenialViolations(c: Contract, m: Manifest, v: View) returns (r: Result<seq<Violation>, GuardError>)
    ensures r == FunctionRefusals(c, m, v)
  {
    var unknown := FirstUnknownSection(DeniedFunctions(m));
    if unknown.Some? {
      return Failure(UnknownSection(unknown.value));
    }
    var violations: seq<Violation> := [];
    var denied := SortBy(DeniedFunctions(m), SortKey());
    for n := 0 to |denied|
      invariant violations == Collect(denied[..n], FunctionCheck(c, m, v))
    {
      PrefixStep(denied, n);
      var row := denied[n];
      if row.identity !in c.executors {
        violations := violations + [UndeclaredExecutor(row.identity)];
      } else {
        var executor := c.executors[row.identity];
        var found := ProbeViolations(WantedRoles(m, executor), ExecuteCheck(m, v, row.identity, executor));
        violations := violations + found;
      }
    }
    assert denied[..|denied|] == denied;
    r := Success(violations);
  }

  method CutoverViolations(c: Contract, m: Manifest, s: Snapshot) returns (r: Result<seq<Violation>, GuardError>)
    ensures r == CutoverRefusals(c, m, s)
  {
    var v := ViewOf(m, s);
    var baseline := BaselineViolations(c, m);
    var objects := ObjectViolations(m, v.objects);
    var privileges := PrivilegeViolations(m, v);
    if privileges.Failure? {
      return privileges;
    }
    var escalation := EscalationViolations(m, s, v.objects);
    var legacy := LegacyViolations(c, m, s);
    var denials := DenialViolations(m, v);
    var functions := FunctionDenialViolations(c, m, v);
    if functions.Failure? {
      return functions;
    }
    r := Success(baseline + objects + privileges.value + escalation + legacy + denials + functions.value);
  }
}
