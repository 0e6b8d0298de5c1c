/**
 What a role gains, and what an object turns into, is seen once too
 (app/privilege_manifest.py): a membership, an attribute, a module privilege of
 the retired role, another kind.
 */
module RoleSensitivity {
  import opened Collections
  import opened PrivilegeManifest
  import opened CutoverGuard
  import opened GuardExactness
  import opened CleanSnapshots
  import opened Sensitivity

  lemma {:induction false} OneAmongRoles(b: seq<Violation>, x: Violation)
    ensures Glued(b, [], Success([]), [x], [], [], [], Success([])) == Success(b + [x])
    ensures Glued(b, [], Success([]), [], [], [x], [], Success([])) == Success(b + [x])
  {
    assert b + [] + [] + ([x] + []) + [] + [] + [] == b + [x];
    assert b + [] + [] + ([] + []) + [x] + [] + [] == b + [x];
  }

  /** A sound view, and one refusal about roles or about the retired role's privileges. */
  lemma {:induction false} OneRoleRefusal(c: Contract, m: Manifest, s: Snapshot, x: Violation)
    requires ViewSound(c, m, ViewOf(m, s))
    requires (RoleRefusals(m, s) == [x] && LegacyRefusals(c, m, s) == [])
             || (RoleRefusals(m, s) == [] && LegacyRefusals(c, m, s) == [x])
    ensures RefusesExactly(c, m, s, x)
  {
    ViewExact(c, m, ViewOf(m, s));
    OneAmongRoles(BaselineRefusals(c, m), x);
  }

  lemma {:induction false} CollectUpdated<T, V>(xs: seq<T>, f: T -> seq<V>, i: nat, y: T)
    requires i < |xs| && forall x :: x in xs ==> f(x) == []
    ensures Collect(xs[i := y], f) == f(y)
  {
    var init, last := xs[..|xs| - 1], xs[|xs| - 1];
    assert last in xs && forall x :: x in init ==> x in xs;
    if i == |xs| - 1 {
      assert xs[i := y][..i] == init;
      CollectEmpty(init, f);
    } else {
      assert xs[i := y][..|xs| - 1] == init[i := y] && xs[i := y][|xs| - 1] == last;
      CollectUpdated(init, f, i, y);
    }
  }

  // ----- a membership

  function WithMembership(s: Snapshot, e: ObservedMembership): Snapshot { s.(memberships := s.memberships + [e]) }

  /** A membership of the tenant role, or of the retired one in either. */
  predicate Escalates(m: Manifest, e: ObservedMembership) {
    e.member == m.targetRole || (e.member == m.sourceRole && e.grantedRole in {m.sourceRole, m.targetRole})
  }

  function MembershipRefusal(m: Manifest, e: ObservedMembership): Violation {
    if e.grantedRole in {m.sourceRole, m.targetRole} then MembershipBetweenRoles(e.member, e.grantedRole)
    else TargetMembership(e.grantedRole)
  }

  lemma {:induction false} MembershipRefused(m: Manifest, s: Snapshot, e: ObservedMembership)
    requires RoleRefusals(m, s) == [] && Escalates(m, e)
    ensures RoleRefusals(m, WithMembership(s, e)) == [MembershipRefusal(m, e)]
  {
    NoMembershipNoPosture(m, s);
    MembershipChecked(m, e);
    CollectSnoc(s.memberships, e, MembershipCheck(m));
    assert [] + [MembershipRefusal(m, e)] + [] == [MembershipRefusal(m, e)];
  }

  lemma {:induction false} NoMembershipNoPosture(m: Manifest, s: Snapshot)
    requires RoleRefusals(m, s) == []
    ensures Collect(s.memberships, MembershipCheck(m)) == [] && Collect(s.postures, PostureCheck(m)) == []
  {
  }

  lemma {:induction false} MembershipChecked(m: Manifest, e: ObservedMembership)
    requires Escalates(m, e)
    ensures MembershipCheck(m)(e) == [MembershipRefusal(m, e)]
  {
  }

  /** A membership gained is one refusal. */
  lemma {:induction false} MembershipSeenOnce(c: Contract, m: Manifest, s: Snapshot, e: ObservedMembership)
    requires SoundBesidesBaseline(c, m, s) && Escalates(m, e)
    ensures RefusesExactly(c, m, WithMembership(s, e), MembershipRefusal(m, e))
  {
    var s' := WithMembership(s, e);
    RolesExact(c, m, s);
    MembershipRefused(m, s, e);
    assert ViewOf(m, s') == ViewOf(m, s);
    assert LegacyRefusals(c, m, s') == LegacyRefusals(c, m, s);
    OneRoleRefusal(c, m, s', MembershipRefusal(m, e));
  }

  lemma {:induction false} MembershipIsCaught(c: Contract, m: Manifest, e: ObservedMembership)
    requires WellFormed(c, m) && Escalates(m, e)
    ensures RefusesExactly(c, m, WithMembership(CleanSnapshot(c, m), e), MembershipRefusal(m, e))
  {
    CleanIsSound(c, m);
    MembershipSeenOnce(c, m, CleanSnapshot(c, m), e);
  }

  // ----- an attribute

  /** Exactly one of the two attributes is gained. */
  function WithAttribute(s: Snapshot, i: nat, superuser: bool): Snapshot
    requires i < |s.postures|
  {
    s.(postures := s.postures[i := s.postures[i].(bypassRls := !superuser, superuser := superuser)])
  }

  function AttributeRefusal(role: string, superuser: bool): Violation {
    if superuser then RoleIsSuperuser(role) else RoleBypassesRls(role)
  }

  lemma {:induction false} AttributeRefused(m: Manifest, s: Snapshot, i: nat, superuser: bool)
    requires RoleRefusals(m, s) == [] && i < |s.postures| && s.postures[i].role in {m.sourceRole, m.targetRole}
    ensures RoleRefusals(m, WithAttribute(s, i, superuser)) == [AttributeRefusal(s.postures[i].role, superuser)]
  {
    CollectEmpty(s.postures, PostureCheck(m));
    CollectUpdated(s.postures, PostureCheck(m), i, WithAttribute(s, i, superuser).postures[i]);
  }

  /** A role of the cutover that is found to bypass row security, or to be a superuser, is one refusal. */
  lemma {:induction false} AttributeSeenOnce(c: Contract, m: Manifest, s: Snapshot, i: nat, superuser: bool)
    requires SoundBesidesBaseline(c, m, s) && i < |s.postures| && s.postures[i].role in {m.sourceRole, m.targetRole}
    ensures RefusesExactly(c, m, WithAttribute(s, i, superuser), AttributeRefusal(s.postures[i].role, superuser))
  {
    var s' := WithAttribute(s, i, superuser);
    RolesExact(c, m, s);
    AttributeRefused(m, s, i, superuser);
    assert ViewOf(m, s') == ViewOf(m, s);
    assert LegacyRefusals(c, m, s') == LegacyRefusals(c, m, s);
    OneRoleRefusal(c, m, s', AttributeRefusal(s.postures[i].role, superuser));
  }

  lemma {:induction false} AttributeIsCaught(c: Contract, m: Manifest, i: nat, superuser: bool)
    requires WellFormed(c, m) && i < |CleanSnapshot(c, m).postures|
    requires CleanSnapshot(c, m).postures[i].role in {m.sourceRole, m.targetRole}
    ensures RefusesExactly(c, m, WithAttribute(CleanSnapshot(c, m), i, superuser),
                           AttributeRefusal(CleanSnapshot(c, m).postures[i].role, superuser))
  {
    CleanIsSound(c, m);
    AttributeSeenOnce(c, m, CleanSnapshot(c, m), i, superuser);
  }

  // ----- a privilege of the retired role

  function WithLegacy(s: Snapshot, e: ObservedPrivilege): Snapshot {
    s.(legacyModulePrivileges := s.legacyModulePrivileges + [e])
  }

  lemma {:induction false} CollectInserted<T(!new), V>(xs: seq<T>, x: T, key: T -> Key, f: T -> seq<V>)
    requires forall y :: y in xs ==> f(y) == []
    ensures Collect(Insert(xs, x, key), f) == f(x)
  {
    if xs == [] || !Less(key(x), key(xs[|xs| - 1])) {
      CollectEmpty(xs, f);
      CollectSnoc(xs, x, f);
    } else {
      var init, last := xs[..|xs| - 1], xs[|xs| - 1];
      assert last in xs && forall y :: y in init ==> y in xs;
      CollectInserted(init, x, key, f);
      CollectSnoc(Insert(init, x, key), last, f);
    }
  }

  /** A module privilege that the retired role gains outside the allowed objects is one refusal. */
  lemma {:induction false} LegacyGainSeenOnce(c: Contract, m: Manifest, s: Snapshot, e: ObservedPrivilege)
    requires SoundBesidesBaseline(c, m, s) && e.role == m.sourceRole && e.held && e.identity !in c.moduleEraAllowlist
    ensures RefusesExactly(c, m, WithLegacy(s, e), LegacyModulePrivilege(e.identity, e.privilege))
  {
    var s' := WithLegacy(s, e);
    var before := SortBy(s.legacyModulePrivileges, PrivilegeKey());
    RolesExact(c, m, s);
    CollectEmpty(before, LegacyCheck(c, m));
    CollectInserted(before, e, PrivilegeKey(), LegacyCheck(c, m));
    assert s'.legacyModulePrivileges[..|s.legacyModulePrivileges|] == s.legacyModulePrivileges;
    assert ViewOf(m, s') == ViewOf(m, s);
    OneRoleRefusal(c, m, s', LegacyModulePrivilege(e.identity, e.privilege));
  }

  lemma {:induction false} LegacyGainIsCaught(c: Contract, m: Manifest, e: ObservedPrivilege)
    requires WellFormed(c, m) && e.role == m.sourceRole && e.held && e.identity !in c.moduleEraAllowlist
    ensures RefusesExactly(c, m, WithLegacy(CleanSnapshot(c, m), e), LegacyModulePrivilege(e.identity, e.privilege))
  {
    CleanIsSound(c, m);
    LegacyGainSeenOnce(c, m, CleanSnapshot(c, m), e);
  }

  // ----- a kind

  function Turning(identity: string, kind: string, relkind: string): ObservedObject -> ObservedObject {
    (e: ObservedObject) => if e.identity == identity then e.(objectKind := kind, relkind := relkind) else e
  }

  function WithKind(s: Snapshot, identity: string, kind: string, relkind: string): Snapshot {
    s.(objects := Map(s.objects, Turning(identity, kind, relkind)))
  }

  ghost predicate KindTurned(v: View, w: View, identity: string, kind: string, relkind: string) {
    && w.objects.Keys == v.objects.Keys
    && (forall id :: id in v.objects ==>
          w.objects[id] ==
          if id == identity then v.objects[id].(objectKind := kind, relkind := relkind) else v.objects[id])
    && w.privileges == v.privileges && w.tableAnswers == v.tableAnswers && w.columnAnswers == v.columnAnswers
    && w.executeAnswers == v.executeAnswers
  }

  lemma {:induction false} KindView(m: Manifest, s: Snapshot, identity: string, kind: string, relkind: string)
    ensures KindTurned(ViewOf(m, s), ViewOf(m, WithKind(s, identity, kind, relkind)), identity, kind, relkind)
  {
    IndexByRewrite(s.objects, ObjectKey(), Turning(identity, kind, relkind));
    IndexByKeys(s.objects, ObjectKey());
  }

  lemma {:induction false} KindCheck(
      m: Manifest, v: View, w: View, row: GrantRow, other: GrantRow, kind: string, relkind: string)
    requires ObjectsIntact(m, v) && row in FirstRows(m.rows) && other in FirstRows(m.rows)
    requires kind != row.objectKind || relkind != row.relkind
    requires KindTurned(v, w, row.identity, kind, relkind)
    ensures ObjectCheck(w.objects)(other) == if other == row then [KindChange(row.identity)] else []
  {
    assert ObjectIntact(v, other) && ObjectIntact(v, row);
    if other.identity == row.identity {
      FirstRowPerIdentity(m.rows, other, row);
    }
  }

  lemma {:induction false} KindRefused(m: Manifest, v: View, w: View, row: GrantRow, kind: string, relkind: string)
    requires ObjectsIntact(m, v) && row in FirstRows(m.rows) && (kind != row.objectKind || relkind != row.relkind)
    requires KindTurned(v, w, row.identity, kind, relkind)
    ensures ObjectRefusals(m, w) == [KindChange(row.identity)]
  {
    FirstRowsCover(m.rows);
    assert Distinct(FirstRows(m.rows));
    forall other | other in FirstRows(m.rows)
      ensures ObjectCheck(w.objects)(other) == if other == row then [KindChange(row.identity)] else []
    {
      KindCheck(m, v, w, row, other, kind, relkind);
    }
    CollectSingle(FirstRows(m.rows), ObjectCheck(w.objects), row);
  }

  lemma {:induction false} KindPrivileges(
      m: Manifest, v: View, w: View, identity: string, kind: string, relkind: string)
    requires GrantsHeld(m, v) && NothingUnlisted(m, v) && OwnersUnchanged(m, v)
    requires KindTurned(v, w, identity, kind, relkind)
    ensures PrivilegeRefusals(m, w) == Success([]) && OwnershipRefusals(m, w) == []
  {
    CollectEmpty(SortedKeys(ExpectedKeys(m)), ExpectedCheck(w));
    forall key | key in ExpectedKeys(m)
      ensures ExpectedCheck(w)(key) == []
    {
      assert HeldDirectly(v, key);
    }
    ExtrasUntouched(m, v, w);
    ExtrasSilent(m, v);
    PrivilegeParts(m, w, [], []);
    OwnershipExact(m, w);
  }

  /** An object of another kind is one refusal. */
  lemma {:induction false} KindChangeSeenOnce(
      c: Contract, m: Manifest, s: Snapshot, row: GrantRow, kind: string, relkind: string)
    requires SoundBesidesBaseline(c, m, s) && row in FirstRows(m.rows)
    requires kind != row.objectKind || relkind != row.relkind
    ensures RefusesExactly(c, m, WithKind(s, row.identity, kind, relkind), KindChange(row.identity))
  {
    var s' := WithKind(s, row.identity, kind, relkind);
    var v, w := ViewOf(m, s), ViewOf(m, s');
    KindView(m, s, row.identity, kind, relkind);
    KindRefused(m, v, w, row, kind, relkind);
    KindPrivileges(m, v, w, row.identity, kind, relkind);
    SameRelationAnswers(m, v, w);
    SameExecuteAnswers(c, m, v, w);
    SameRoles(c, m, s, s');
    OneRefusal(c, m, s', w, KindChange(row.identity));
  }

  lemma {:induction false} KindChangeIsCaught(c: Contract, m: Manifest, row: GrantRow, kind: string, relkind: string)
    requires WellFormed(c, m) && row in FirstRows(m.rows) && (kind != row.objectKind || relkind != row.relkind)
    ensures RefusesExactly(c, m, WithKind(CleanSnapshot(c, m), row.identity, kind, relkind), KindChange(row.identity))
  {
    CleanIsSound(c, m);
    KindChangeSeenOnce(c, m, CleanSnapshot(c, m), row, kind, relkind);
  }
}
