/**
 What the guard reads out of a snapshot (app/privilege_manifest.py): of several
 answers to one question the latest, and which answers are passed over.
 */
module GuardReading {
  import opened Collections
  import opened PrivilegeManifest

  function ObjectNamed(identity: string): ObservedObject -> bool { (e: ObservedObject) => e.identity == identity }

  function PrivilegeAsked(role: string, identity: string, privilege: string): ObservedPrivilege -> bool {
    (e: ObservedPrivilege) => e.role == role && e.identity == identity && e.privilege == privilege
  }

  function ColumnsAsked(role: string, identity: string, privilege: string): ObservedColumnGrant -> bool {
    (e: ObservedColumnGrant) => e.role == role && e.identity == identity && e.privilege == privilege
  }

  function ExecuteAsked(role: string, identity: string): ObservedExecute -> bool {
    (e: ObservedExecute) => e.role == role && e.identity == identity
  }

  function ScopeKept(scope: string): ExclusionRow -> bool {
    (e: ExclusionRow) => e.kind == "preserved-target-privilege" && e.scope == scope
  }

  /** An object is judged by the latest entry that names it. */
  lemma {:induction false} ObjectRead(m: Manifest, s: Snapshot, identity: string, x: ObservedObject)
    ensures Lookup(ViewOf(m, s).objects, identity) == Some(x) <==>
            exists i: nat :: IsLatest(s.objects, ObjectNamed(identity), i) && s.objects[i] == x
  {
    LatestIndexed(s.objects, ObjectKey(), identity, ObjectNamed(identity), x);
  }

  function AskedUndenied(denied: set<string>, role: string, identity: string, privilege: string):
    ObservedPrivilege -> bool
  {
    (e: ObservedPrivilege) =>
      e.identity !in denied && e.role == role && e.identity == identity && e.privilege == privilege
  }

  ghost predicate DeniedBy(m: Manifest, identity: string) {
    exists row :: row in m.rows && row.disposition.Denied? && row.identity == identity
  }

  lemma {:induction false} UndeniedAlike(
      xs: seq<ObservedPrivilege>, denied: set<string>, role: string, identity: string, privilege: string, i: nat)
    ensures IsLatest(xs, AskedUndenied(denied, role, identity, privilege), i) <==>
            identity !in denied && IsLatest(xs, PrivilegeAsked(role, identity, privilege), i)
  {
  }

  /** Of the target's answers the latest counts; what is said of a denied object is left to the denial checks. */
  lemma {:induction false} PrivilegeRead(
      m: Manifest, s: Snapshot, identity: string, privilege: string, x: ObservedPrivilege)
    ensures Lookup(ViewOf(m, s).privileges, Pair(identity, privilege)) == Some(x) <==>
            && !DeniedBy(m, identity)
            && exists i: nat ::
                 IsLatest(s.privileges, PrivilegeAsked(m.targetRole, identity, privilege), i) && s.privileges[i] == x
  {
    var asked := AskedUndenied(DeniedIdentities(m), m.targetRole, identity, privilege);
    LatestFiled(s.privileges, OfTargetUndenied(m), PrivilegeKey(), Pair(identity, privilege), asked, x);
    forall i: nat
      ensures IsLatest(s.privileges, asked, i) <==>
              !DeniedBy(m, identity) && IsLatest(s.privileges, PrivilegeAsked(m.targetRole, identity, privilege), i)
    {
      UndeniedAlike(s.privileges, DeniedIdentities(m), m.targetRole, identity, privilege, i);
    }
  }

  lemma {:induction false} TableAnswerRead(
      m: Manifest, s: Snapshot, identity: string, privilege: string, x: ObservedPrivilege)
    ensures Lookup(ViewOf(m, s).tableAnswers, Pair(identity, privilege)) == Some(x) <==>
            exists i: nat :: IsLatest(s.deniedPrivileges, PrivilegeAsked(m.targetRole, identity, privilege), i)
                             && s.deniedPrivileges[i] == x
  {
    LatestFiled(s.deniedPrivileges, OfTarget(m), PrivilegeKey(), Pair(identity, privilege),
                PrivilegeAsked(m.targetRole, identity, privilege), x);
  }

  lemma {:induction false} ColumnAnswerRead(
      m: Manifest, s: Snapshot, identity: string, privilege: string, x: ObservedColumnGrant)
    ensures Lookup(ViewOf(m, s).columnAnswers, Pair(identity, privilege)) == Some(x) <==>
            exists i: nat :: IsLatest(s.deniedColumnGrants, ColumnsAsked(m.targetRole, identity, privilege), i)
                             && s.deniedColumnGrants[i] == x
  {
    LatestFiled(s.deniedColumnGrants, ColumnsOfTarget(m), ColumnKey(), Pair(identity, privilege),
                ColumnsAsked(m.targetRole, identity, privilege), x);
  }

  lemma {:induction false} ExecuteAnswerRead(
      m: Manifest, s: Snapshot, identity: string, role: string, x: ObservedExecute)
    ensures Lookup(ViewOf(m, s).executeAnswers, Pair(identity, role)) == Some(x) <==>
            exists i: nat :: IsLatest(s.deniedFunctionExecute, ExecuteAsked(role, identity), i)
                             && s.deniedFunctionExecute[i] == x
  {
    LatestIndexed(s.deniedFunctionExecute, ExecuteKey(), Pair(identity, role), ExecuteAsked(role, identity), x);
  }

  /** A schema's preserved count is that of the latest exclusion of the preserving kind. */
  lemma {:induction false} ScopeRead(m: Manifest, scope: string, privileges: int)
    ensures Lookup(PreservedScopes(m), scope) == Some(privileges) <==>
            exists i: nat :: IsLatest(m.exclusions, ScopeKept(scope), i) && m.exclusions[i].privileges == privileges
  {
    var kept := IndexBy(Filter(m.exclusions, IsPreserved()), ScopeKey());
    forall x
      ensures Lookup(kept, scope) == Some(x) <==>
              exists i: nat :: IsLatest(m.exclusions, ScopeKept(scope), i) && m.exclusions[i] == x
    {
      LatestFiled(m.exclusions, IsPreserved(), ScopeKey(), scope, ScopeKept(scope), x);
    }
    if i: nat :| IsLatest(m.exclusions, ScopeKept(scope), i) && m.exclusions[i].privileges == privileges {
      assert Lookup(kept, scope) == Some(m.exclusions[i]);
    }
    if scope in kept {
      assert Lookup(kept, scope) == Some(kept[scope]);
    }
  }
}
