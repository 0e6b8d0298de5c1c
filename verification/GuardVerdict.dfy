/**
 The whole verdict of the guard (app/privilege_manifest.py): what stops it, which
 refusals it returns when several things are wrong, in what order, and each once.
 */
module GuardVerdict {
  import opened Collections
  import opened PrivilegeManifest
  import opened CutoverGuard
  import opened GuardExactness
  import opened Sensitivity
  import opened GuardMembers
  import opened GuardOrder

  // ----- each once

  lemma {:induction false} MembershipsOnce(m: Manifest, memberships: seq<ObservedMembership>)
    requires Distinct(memberships)
    ensures Distinct(Collect(memberships, MembershipCheck(m)))
  {
    CollectOrdered(memberships, MembershipCheck(m), Differ());
    OrderedIsDistinct(Collect(memberships, MembershipCheck(m)), Differ());
  }

  lemma {:induction false} PosturesOnce(m: Manifest, postures: seq<ObservedPosture>)
    requires forall i, j :: 0 <= i < j < |postures| ==> postures[i].role != postures[j].role
    ensures Distinct(Collect(postures, PostureCheck(m)))
  {
    CollectOrdered(postures, PostureCheck(m), Differ());
    OrderedIsDistinct(Collect(postures, PostureCheck(m)), Differ());
  }

  lemma {:induction false} OwnersOnce(m: Manifest, v: View)
    ensures Distinct(OwnershipRefusals(m, v))
  {
    FirstRowsCover(Filter(m.rows, HasOwner()));
    CollectOrdered(OwnedRows(m), OwnerCheck(v.objects), Differ());
    OrderedIsDistinct(OwnershipRefusals(m, v), Differ());
  }

  /** No privilege of a role is observed twice. */
  ghost predicate AskedOnce(privileges: seq<ObservedPrivilege>) {
    && Distinct(privileges)
    && forall e, f ::
         e in privileges && f in privileges && e.role == f.role && PrivilegeKey()(e) == PrivilegeKey()(f) ==>
         e == f
  }

  lemma {:induction false} LegacyOnce(c: Contract, m: Manifest, s: Snapshot)
    requires AskedOnce(s.legacyModulePrivileges)
    ensures Distinct(LegacyRefusals(c, m, s))
  {
    var entries, check := SortBy(s.legacyModulePrivileges, PrivilegeKey()), LegacyCheck(c, m);
    SortByDistinct(s.legacyModulePrivileges, PrivilegeKey());
    forall i, j | 0 <= i < j < |entries|
      ensures AllBefore(check(entries[i]), check(entries[j]), Differ())
    {
      assert entries[i] in s.legacyModulePrivileges && entries[j] in s.legacyModulePrivileges;
      LegacyApart(c, m, entries[i], entries[j]);
    }
    CollectOrdered(entries, check, Differ());
    OrderedIsDistinct(LegacyRefusals(c, m, s), Differ());
  }

  lemma {:induction false} LegacyApart(c: Contract, m: Manifest, e: ObservedPrivilege, f: ObservedPrivilege)
    requires e.role == f.role ==> PrivilegeKey()(e) != PrivilegeKey()(f)
    ensures AllBefore(LegacyCheck(c, m)(e), LegacyCheck(c, m)(f), Differ())
  {
    assert e.role == f.role ==> e.identity != f.identity || e.privilege != f.privilege;
  }

  // ----- denied functions

  predicate IsFunctionRefusal(x: Violation) {
    || x.UndeclaredExecutor? || x.UnprobedExecuteDenial? || x.NonEffectiveExecute? || x.PublicExecuteInherited?
    || x.DeniedExecuteHeld? || x.ExecutorCannotExecute?
  }

  lemma {:induction false} AnswersApart(
      m: Manifest, v: View, identity: string, executor: string, a: string, b: string)
    requires a != b && m.targetRole != PUBLIC_PSEUDO_ROLE
    ensures var check := ExecuteCheck(m, v, identity, executor);
            Ordered(check(a), Differ()) && AllBefore(check(a), check(b), Differ())
  {
  }

  lemma {:induction false} WantedOnce(m: Manifest, executor: string)
    requires m.targetRole != PUBLIC_PSEUDO_ROLE && executor !in {m.targetRole, PUBLIC_PSEUDO_ROLE}
    ensures Distinct(WantedRoles(m, executor))
  {
  }

  lemma {:induction false} OneFunctionOnce(c: Contract, m: Manifest, v: View, row: GrantRow)
    requires m.targetRole != PUBLIC_PSEUDO_ROLE
    requires row.identity in c.executors ==> c.executors[row.identity] !in {m.targetRole, PUBLIC_PSEUDO_ROLE}
    ensures Ordered(FunctionCheck(c, m, v)(row), Differ())
    ensures forall x :: x in FunctionCheck(c, m, v)(row) ==> IsFunctionRefusal(x) && x.identity == row.identity
  {
    forall x | x in FunctionCheck(c, m, v)(row)
      ensures IsFunctionRefusal(x) && x.identity == row.identity
    {
      FunctionChecked(c, m, v, row, x);
    }
    if row.identity in c.executors {
      var executor := c.executors[row.identity];
      var wanted, check := WantedRoles(m, executor), ExecuteCheck(m, v, row.identity, executor);
      WantedOnce(m, executor);
      forall role | role in wanted
        ensures Ordered(check(role), Differ())
      {
        SingleAnswer(m, v, row.identity, executor, role);
      }
      forall i, j | 0 <= i < j < |wanted|
        ensures AllBefore(check(wanted[i]), check(wanted[j]), Differ())
      {
        AnswersApart(m, v, row.identity, executor, wanted[i], wanted[j]);
      }
      CollectOrdered(wanted, check, Differ());
    }
  }

  lemma {:induction false} SingleAnswer(m: Manifest, v: View, identity: string, executor: string, role: string)
    ensures Ordered(ExecuteCheck(m, v, identity, executor)(role), Differ())
  {
  }

  lemma {:induction false} FunctionsApart(vs: seq<Violation>, ws: seq<Violation>, a: string, b: string)
    requires a != b
    requires (forall x :: x in vs ==> IsFunctionRefusal(x) && x.identity == a)
             && forall x :: x in ws ==> IsFunctionRefusal(x) && x.identity == b
    ensures AllBefore(vs, ws, Differ())
  {
    forall i, j | 0 <= i < |vs| && 0 <= j < |ws|
      ensures Differ()(vs[i], ws[j])
    {
      assert vs[i] in vs && ws[j] in ws;
    }
  }

  /** The executors are neither the tenant role nor PUBLIC, and no two denied rows name one function. */
  ghost predicate FunctionsTidy(c: Contract, m: Manifest) {
    && m.targetRole != PUBLIC_PSEUDO_ROLE && OneRowPerFunction(m)
    && forall identity :: identity in c.executors ==> c.executors[identity] !in {m.targetRole, PUBLIC_PSEUDO_ROLE}
  }

  lemma {:induction false} FunctionsOnce(c: Contract, m: Manifest, v: View)
    requires FunctionsTidy(c, m) && FunctionRefusals(c, m, v).Success?
    ensures Distinct(FunctionRefusals(c, m, v).value)
  {
    var denied, check := SortBy(DeniedFunctions(m), SortKey()), FunctionCheck(c, m, v);
    assert Distinct(DeniedFunctions(m));
    SortByDistinct(DeniedFunctions(m), SortKey());
    forall row | row in denied
      ensures Ordered(check(row), Differ())
    {
      OneFunctionOnce(c, m, v, row);
    }
    forall i, j | 0 <= i < j < |denied|
      ensures AllBefore(check(denied[i]), check(denied[j]), Differ())
    {
      assert denied[i] in denied && denied[j] in denied;
      OtherFunction(m, denied[i], denied[j]);
      OneFunctionOnce(c, m, v, denied[i]);
      OneFunctionOnce(c, m, v, denied[j]);
      FunctionsApart(check(denied[i]), check(denied[j]), denied[i].identity, denied[j].identity);
    }
    CollectOrdered(denied, check, Differ());
    OrderedIsDistinct(Collect(denied, check), Differ());
  }

  // ----- the parts

  /** Baselines, objects, privileges, roles, owners, the retired role, denied relations, denied functions. */
  function Part(): Violation -> nat {
    (x: Violation) =>
      match x
      case BaselineMoved(_, _, _) => 0
      case DenialsMoved(_, _, _) => 0
      case UnobservedObject(_) => 1
      case ObjectVanished(_) => 1
      case KindChange(_) => 1
      case OverloadAmbiguity(_) => 1
      case OverloadConfusion(_, _) => 1
      case UnobservedPrivilege(_, _) => 2
      case PrivilegeAbsent(_, _) => 2
      case PrivilegeOrigin(_, _) => 2
      case PrivilegeAdded(_, _) => 2
      case ExclusionMoved(_, _, _) => 2
      case MembershipBetweenRoles(_, _) => 3
      case TargetMembership(_) => 3
      case RoleBypassesRls(_) => 3
      case RoleIsSuperuser(_) => 3
      case OwnershipChange(_) => 4
      case LegacyModulePrivilege(_, _) => 5
      case UnprobedDenial(_, _) => 6
      case DeniedPrivilegeHeld(_, _) => 6
      case UnprobedColumnDenial(_, _) => 6
      case DeniedColumnPrivilegeHeld(_, _) => 6
      case UndeclaredExecutor(_) => 7
      case UnprobedExecuteDenial(_, _) => 7
      case NonEffectiveExecute(_, _) => 7
      case PublicExecuteInherited(_) => 7
      case DeniedExecuteHeld(_) => 7
      case ExecutorCannotExecute(_, _) => 7
  }

  ghost predicate AllOfPart(vs: seq<Violation>, part: nat) { forall x :: x in vs ==> Part()(x) == part }

  lemma {:induction false} FirstParts(c: Contract, m: Manifest, v: View)
    ensures AllOfPart(BaselineRefusals(c, m), 0) && AllOfPart(ObjectRefusals(m, v), 1)
  {
    forall x
      ensures x in BaselineRefusals(c, m) ==> Part()(x) == 0
      ensures x in ObjectRefusals(m, v) ==> Part()(x) == 1
    {
      BaselineMembers(c, m, x);
      ObjectMembers(m, v, x);
    }
  }

  lemma {:induction false} PrivilegeIsPart(m: Manifest, v: View, x: Violation)
    requires ExpectedRefused(m, v, x) || x.PrivilegeAdded? || x.ExclusionMoved?
    ensures Part()(x) == 2
  {
  }

  lemma {:induction false} PrivilegePart(m: Manifest, v: View)
    requires PrivilegeRefusals(m, v).Success?
    ensures AllOfPart(PrivilegeRefusals(m, v).value, 2)
  {
    forall x | x in PrivilegeRefusals(m, v).value
      ensures Part()(x) == 2
    {
      PrivilegeMember(m, v, x);
      PrivilegeIsPart(m, v, x);
    }
  }

  lemma {:induction false} RoleIsPart(m: Manifest, s: Snapshot, x: Violation)
    requires RoleRefused(m, s, x)
    ensures Part()(x) == 3
  {
  }

  lemma {:induction false} RolePart(m: Manifest, s: Snapshot)
    ensures AllOfPart(RoleRefusals(m, s), 3)
  {
    forall x | x in RoleRefusals(m, s)
      ensures Part()(x) == 3
    {
      RoleMembers(m, s, x);
      RoleIsPart(m, s, x);
    }
  }

  lemma {:induction false} OwnerPart(m: Manifest, v: View)
    ensures AllOfPart(OwnershipRefusals(m, v), 4)
  {
    forall x | x in OwnershipRefusals(m, v)
      ensures Part()(x) == 4
    {
      OwnerMembers(m, v, x);
      assert x.OwnershipChange?;
    }
  }

  lemma {:induction false} LegacyIsPart(c: Contract, m: Manifest, s: Snapshot, x: Violation)
    requires LegacyRefused(c, m, s, x)
    ensures Part()(x) == 5
  {
  }

  lemma {:induction false} LegacyPart(c: Contract, m: Manifest, s: Snapshot)
    ensures AllOfPart(LegacyRefusals(c, m, s), 5)
  {
    forall x | x in LegacyRefusals(c, m, s)
      ensures Part()(x) == 5
    {
      LegacyMembers(c, m, s, x);
      LegacyIsPart(c, m, s, x);
    }
  }

  lemma {:induction false} DenialIsPart(m: Manifest, v: View, x: Violation)
    requires DenialRefused(m, v, x)
    ensures Part()(x) == 6
  {
  }

  lemma {:induction false} DenialPart(m: Manifest, v: View)
    ensures AllOfPart(DenialRefusals(m, v), 6)
  {
    forall x | x in DenialRefusals(m, v)
      ensures Part()(x) == 6
    {
      DenialMembers(m, v, x);
      DenialIsPart(m, v, x);
    }
  }

  lemma {:induction false} FunctionIsPart(c: Contract, m: Manifest, v: View, x: Violation)
    requires FunctionRefused(c, m, v, x)
    ensures Part()(x) == 7
  {
    var row :| DeniedFunction(m, row) && FunctionRefusedAt(c, m, v, row.identity, x);
    if row.identity in c.executors {
      var role :| Wanted(m, c.executors[row.identity], role)
                  && AnswerRefused(m, v, row.identity, c.executors[row.identity], role, x);
      AnswerIsPart(m, v, row.identity, c.executors[row.identity], role, x);
    }
  }

  lemma {:induction false} AnswerIsPart(
      m: Manifest, v: View, identity: string, executor: string, role: string, x: Violation)
    requires AnswerRefused(m, v, identity, executor, role, x)
    ensures Part()(x) == 7
  {
  }

  lemma {:induction false} FunctionPart(c: Contract, m: Manifest, v: View)
    requires FunctionRefusals(c, m, v).Success?
    ensures AllOfPart(FunctionRefusals(c, m, v).value, 7)
  {
    forall x | x in FunctionRefusals(c, m, v).value
      ensures Part()(x) == 7
    {
      FunctionMember(c, m, v, x);
      FunctionIsPart(c, m, v, x);
    }
  }

  lemma {:induction false} PartAfterPart(vs: seq<Violation>, ws: seq<Violation>, high: nat, part: nat)
    requires Ranked(vs, Part()) && (forall x :: x in vs ==> Part()(x) <= high) && AllOfPart(ws, part) && high < part
    ensures Ranked(vs + ws, Part()) && forall x :: x in vs + ws ==> Part()(x) <= part
    ensures Distinct(vs) && Distinct(ws) ==> Distinct(vs + ws)
  {
    assert forall i :: 0 <= i < |vs| ==> vs[i] in vs;
    assert forall i :: 0 <= i < |ws| ==> ws[i] in ws;
  }

  lemma {:induction false} AlonePart(ws: seq<Violation>, part: nat)
    requires AllOfPart(ws, part)
    ensures Ranked(ws, Part()) && forall x :: x in ws ==> Part()(x) <= part
  {
    assert forall i :: 0 <= i < |ws| ==> ws[i] in ws;
  }

  ghost predicate AllOnce(a: seq<Violation>, b: seq<Violation>, c: seq<Violation>, d: seq<Violation>) {
    Distinct(a) && Distinct(b) && Distinct(c) && Distinct(d)
  }

  lemma {:induction false} PartsInOrder(
      b: seq<Violation>, o: seq<Violation>, p: seq<Violation>, r: seq<Violation>, w: seq<Violation>,
      l: seq<Violation>, d: seq<Violation>, f: seq<Violation>)
    requires AllOfPart(b, 0) && AllOfPart(o, 1) && AllOfPart(p, 2) && AllOfPart(r, 3) && AllOfPart(w, 4)
    requires AllOfPart(l, 5) && AllOfPart(d, 6) && AllOfPart(f, 7)
    ensures var all := b + o + p + (r + w) + l + d + f;
            && Ranked(all, Part())
            && (AllOnce(b, o, p, r) && AllOnce(w, l, d, f) ==> Distinct(all))
  {
    AlonePart(b, 0);
    PartAfterPart(b, o, 0, 1);
    PartAfterPart(b + o, p, 1, 2);
    PartAfterPart(b + o + p, r, 2, 3);
    PartAfterPart(b + o + p + r, w, 3, 4);
    PartAfterPart(b + o + p + r + w, l, 4, 5);
    PartAfterPart(b + o + p + r + w + l, d, 5, 6);
    PartAfterPart(b + o + p + r + w + l + d, f, 6, 7);
    AppendAssociates(b + o + p, r, w);
  }

  // ----- the verdict

  /** What draws a refusal, of whatever kind. */
  ghost predicate Refused(c: Contract, m: Manifest, s: Snapshot, v: View, x: Violation) {
    || BaselineRefused(c, m, x)
    || (exists i: nat :: IsFirst(m.rows, i) && ObjectRefused(v, m.rows[i], x))
    || ExpectedRefused(m, v, x) || AddedRefused(m, v, PreservedScopes(m), x)
    || ExclusionRefused(m, v, PreservedScopes(m), x)
    || RoleRefused(m, s, x) || OwnerRefused(m, v, x) || LegacyRefused(c, m, s, x)
    || DenialRefused(m, v, x) || FunctionRefused(c, m, v, x)
  }

  /** A privilege that names no schema stops the guard, and so does a denied function in an unknown section. */
  lemma {:induction false} VerdictStops(c: Contract, m: Manifest, s: Snapshot)
    ensures CutoverRefusals(c, m, s).Failure? <==>
            || (exists key :: Malformed(m, ViewOf(m, s), key))
            || (exists row :: DeniedFunction(m, row) && !KnownSection(row.section))
    ensures CutoverRefusals(c, m, s).Failure? ==>
              (CutoverRefusals(c, m, s).error.NotAnIdentityKey? <==> exists key :: Malformed(m, ViewOf(m, s), key))
  {
    PrivilegeMembers(m, ViewOf(m, s));
    FunctionMembers(c, m, ViewOf(m, s));
  }

  lemma {:induction false} GluedMembers(
      b: seq<Violation>, o: seq<Violation>, p: seq<Violation>, r: seq<Violation>, w: seq<Violation>,
      l: seq<Violation>, d: seq<Violation>, f: seq<Violation>, x: Violation)
    ensures x in b + o + p + (r + w) + l + d + f <==>
            x in b || x in o || x in p || x in r || x in w || x in l || x in d || x in f
  {
  }

  /** However many things are wrong, the verdict holds exactly the refusals they draw. */
  lemma {:induction false} VerdictMembers(c: Contract, m: Manifest, s: Snapshot, x: Violation)
    requires CutoverRefusals(c, m, s).Success?
    ensures x in CutoverRefusals(c, m, s).value <==> Refused(c, m, s, ViewOf(m, s), x)
  {
    var v := ViewOf(m, s);
    BaselineMembers(c, m, x);
    ObjectMembers(m, v, x);
    PrivilegeMember(m, v, x);
    RoleMembers(m, s, x);
    OwnerMembers(m, v, x);
    LegacyMembers(c, m, s, x);
    DenialMembers(m, v, x);
    FunctionMember(c, m, v, x);
    GluedMembers(BaselineRefusals(c, m), ObjectRefusals(m, v), PrivilegeRefusals(m, v).value, RoleRefusals(m, s),
                 OwnershipRefusals(m, v), LegacyRefusals(c, m, s), DenialRefusals(m, v),
                 FunctionRefusals(c, m, v).value, x);
  }

  /** Nothing is observed twice. */
  ghost predicate ObservedOnce(s: Snapshot) {
    && Distinct(s.memberships) && AskedOnce(s.legacyModulePrivileges)
    && forall i, j :: 0 <= i < j < |s.postures| ==> s.postures[i].role != s.postures[j].role
  }

  lemma {:induction false} PrivilegesOnce(m: Manifest, s: Snapshot)
    requires PrivilegeRefusals(m, ViewOf(m, s)).Success?
    ensures Distinct(PrivilegeRefusals(m, ViewOf(m, s)).value)
  {
    var v := ViewOf(m, s);
    ExpectedOrdered(m, v);
    ViewHasPairKeys(m, s);
    ExtrasOrdered(m, v);
    var expected, extra := ExpectedRefusals(m, v), ExtraRefusals(ExtraKeys(m, v), PreservedScopes(m));
    forall x | x in expected
      ensures x !in extra
    {
      ExpectedMembers(m, v, x);
      AddedMembers(m, v, PreservedScopes(m), x);
      ExclusionMembers(m, v, PreservedScopes(m), x);
    }
    OnceTogether(expected, extra);
  }

  lemma {:induction false} OnceTogether(vs: seq<Violation>, ws: seq<Violation>)
    requires Distinct(vs) && Distinct(ws) && forall x :: x in vs ==> x !in ws
    ensures Distinct(vs + ws)
  {
    assert forall i :: 0 <= i < |vs| ==> vs[i] in vs;
    assert forall i :: 0 <= i < |ws| ==> ws[i] in ws;
  }

  lemma {:induction false} RolesOnce(m: Manifest, s: Snapshot)
    requires ObservedOnce(s)
    ensures Distinct(RoleRefusals(m, s))
  {
    MembershipsOnce(m, s.memberships);
    PosturesOnce(m, s.postures);
    forall x | x in Collect(s.memberships, MembershipCheck(m))
      ensures x !in Collect(s.postures, PostureCheck(m))
    {
      MembershipMembers(m, s, x);
      PostureMembers(m, s, x);
    }
    OnceTogether(Collect(s.memberships, MembershipCheck(m)), Collect(s.postures, PostureCheck(m)));
  }

  /** The parts come in order; and when nothing is observed twice, every refusal comes once. */
  lemma {:induction false} VerdictInOrder(c: Contract, m: Manifest, s: Snapshot)
    requires CutoverRefusals(c, m, s).Success?
    ensures Ranked(CutoverRefusals(c, m, s).value, Part())
    ensures ObservedOnce(s) && FunctionsTidy(c, m) ==> Distinct(CutoverRefusals(c, m, s).value)
  {
    var v := ViewOf(m, s);
    FirstParts(c, m, v);
    PrivilegePart(m, v);
    RolePart(m, s);
    OwnerPart(m, v);
    LegacyPart(c, m, s);
    DenialPart(m, v);
    FunctionPart(c, m, v);
    PartsInOrder(BaselineRefusals(c, m), ObjectRefusals(m, v), PrivilegeRefusals(m, v).value, RoleRefusals(m, s),
                 OwnershipRefusals(m, v), LegacyRefusals(c, m, s), DenialRefusals(m, v),
                 FunctionRefusals(c, m, v).value);
    if ObservedOnce(s) && FunctionsTidy(c, m) {
      BaselineOrdered(c, m);
      ObjectsOrdered(m, v);
      PrivilegesOnce(m, s);
      RolesOnce(m, s);
      OwnersOnce(m, v);
      LegacyOnce(c, m, s);
      DenialsOrdered(m, v);
      FunctionsOnce(c, m, v);
    }
  }
}
