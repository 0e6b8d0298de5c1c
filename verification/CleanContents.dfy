/**
 What the synthetic clean observation holds (app/privilege_manifest.py): list by
 list, exactly these entries.
 */
module CleanContents {
  import opened Collections
  import opened PrivilegeManifest
  import opened CutoverGuard
  import opened CleanSnapshots
  import opened GuardMembers

  /** Every object once, as its first row describes it, and resolved to itself alone. */
  lemma {:induction false} ObjectsHeld(c: Contract, m: Manifest, e: ObservedObject)
    ensures e in CleanSnapshot(c, m).objects <==>
            exists i: nat ::
              && IsFirst(m.rows, i) && e.identity == m.rows[i].identity == e.resolvedIdentity && e.candidateCount == 1
              && e.present && e.objectKind == m.rows[i].objectKind && e.relkind == m.rows[i].relkind
              && e.owner == m.rows[i].owner
  {
    MapMembers(FirstRows(m.rows), CleanObject());
    if e in CleanSnapshot(c, m).objects {
      var row :| row in FirstRows(m.rows) && CleanObject()(row) == e;
      var i := FirstRowStands(m.rows, row);
    }
    if i: nat :|
         && IsFirst(m.rows, i) && e.identity == m.rows[i].identity == e.resolvedIdentity && e.candidateCount == 1
         && e.present && e.objectKind == m.rows[i].objectKind && e.relkind == m.rows[i].relkind
         && e.owner == m.rows[i].owner {
      FirstRowAt(m.rows, i);
      assert CleanObject()(m.rows[i]) == e;
    }
  }

  /** A privilege of the target for every row that is not denied. */
  ghost predicate OfRow(m: Manifest, e: ObservedPrivilege) {
    exists row :: row in m.rows && !row.disposition.Denied?
                  && e.identity == row.identity && e.privilege == row.privilege
  }

  /** One of the synthetic privileges that fill a preserved schema up to its count. */
  ghost predicate OfScope(m: Manifest, e: ObservedPrivilege) {
    exists scope, n: nat ::
      && scope in PreservedScopes(m) && n < PreservedScopes(m)[scope] && e.privilege == "SELECT"
      && e.identity == "relation:" + scope + "." + PreservedName(n)
  }

  lemma {:induction false} RangeHeld(m: Manifest, scope: string, count: int, e: ObservedPrivilege)
    ensures e in PreservedRange(m, scope, count) <==> exists n: nat :: n < count && e == PreservedEntry(m, scope, n)
    decreases count
  {
    if count > 0 {
      RangeHeld(m, scope, count - 1, e);
      if n: nat :| n < count && e == PreservedEntry(m, scope, n) {
        assert n == count - 1 || n < count - 1;
      }
    }
  }

  lemma {:induction false} RowPrivileges(m: Manifest, e: ObservedPrivilege)
    ensures e in Map(Filter(m.rows, NotDenied()), HeldBy(m.targetRole)) <==>
            OfRow(m, e) && e.role == m.targetRole && e.held && e.origin == "direct"
  {
    MapMembers(Filter(m.rows, NotDenied()), HeldBy(m.targetRole));
    if OfRow(m, e) && e.role == m.targetRole && e.held && e.origin == "direct" {
      var row :| row in m.rows && !row.disposition.Denied?
                 && e.identity == row.identity && e.privilege == row.privilege;
      assert row in Filter(m.rows, NotDenied()) && HeldBy(m.targetRole)(row) == e;
    }
  }

  lemma {:induction false} ScopePrivileges(m: Manifest, e: ObservedPrivilege)
    ensures e in Collect(SortedKeys(ScopeKeys(PreservedScopes(m))), PreservedEntries(m)) <==>
            OfScope(m, e) && e.role == m.targetRole && e.held && e.origin == "direct"
  {
    var keys := SortedKeys(ScopeKeys(PreservedScopes(m)));
    CollectMembers(keys, PreservedEntries(m));
    if e in Collect(keys, PreservedEntries(m)) {
      var key :| key in keys && e in PreservedEntries(m)(key);
      RangeHeld(m, key.first, Total(PreservedScopes(m), key.first), e);
      var n: nat :| n < Total(PreservedScopes(m), key.first) && e == PreservedEntry(m, key.first, n);
      assert key.first in PreservedScopes(m);
    }
    if OfScope(m, e) && e.role == m.targetRole && e.held && e.origin == "direct" {
      var scope, n: nat :|
        && scope in PreservedScopes(m) && n < PreservedScopes(m)[scope] && e.privilege == "SELECT"
        && e.identity == "relation:" + scope + "." + PreservedName(n);
      RangeHeld(m, scope, PreservedScopes(m)[scope], e);
      assert e == PreservedEntry(m, scope, n);
      assert Single(scope) in keys && e in PreservedEntries(m)(Single(scope));
    }
  }

  /** The target holds directly what its rows list, and as many privileges of a preserved schema as are recorded. */
  lemma {:induction false} PrivilegesHeld(c: Contract, m: Manifest, e: ObservedPrivilege)
    ensures e in CleanSnapshot(c, m).privileges <==>
            (OfRow(m, e) || OfScope(m, e)) && e.role == m.targetRole && e.held && e.origin == "direct"
  {
    RowPrivileges(m, e);
    ScopePrivileges(m, e);
  }

  /** Both roles are observed, without attributes and without memberships. */
  lemma {:induction false} RolesHeld(c: Contract, m: Manifest, e: ObservedPosture)
    ensures e in CleanSnapshot(c, m).postures <==>
            e.role in {m.sourceRole, m.targetRole} && !e.bypassRls && !e.superuser
    ensures CleanSnapshot(c, m).memberships == []
  {
  }

  /** The retired role holds what the rows of module storage list. */
  lemma {:induction false} LegacyHeld(c: Contract, m: Manifest, e: ObservedPrivilege)
    ensures e in CleanSnapshot(c, m).legacyModulePrivileges <==>
            && e.role == m.sourceRole && e.held && e.origin == "direct"
            && exists row :: row in m.rows && "mod_" <= row.schema
                             && e.identity == row.identity && e.privilege == row.privilege
  {
    MapMembers(Filter(m.rows, InModuleSchema()), HeldBy(m.sourceRole));
    if row :| e.role == m.sourceRole && e.held && e.origin == "direct"
              && row in m.rows && "mod_" <= row.schema && e.identity == row.identity && e.privilege == row.privilege {
      assert row in Filter(m.rows, InModuleSchema()) && HeldBy(m.sourceRole)(row) == e;
    }
  }

  lemma {:induction false} AnswersHeld(m: Manifest, identity: string, wanted: seq<string>, e: ObservedPrivilege)
    requires wanted == DENIED_TABLE_PRIVILEGES
    ensures e in DeniedAnswers(m)(Single(identity)) <==>
            e.identity == identity && e.role == m.targetRole && e.privilege in wanted && !e.held && e.origin == "none"
  {
    var answer := (p: string) => ObservedPrivilege(identity, m.targetRole, p, false, "none");
    MapMembers(wanted, answer);
    assert e.privilege in wanted && e == ObservedPrivilege(identity, m.targetRole, e.privilege, false, "none") ==>
        answer(e.privilege) == e;
  }

  /** Of every denied relation each table privilege is answered: not held. */
  lemma {:induction false} DenialsHeld(c: Contract, m: Manifest, e: ObservedPrivilege)
    ensures e in CleanSnapshot(c, m).deniedPrivileges <==>
            && DeniedRelation(m, e.identity) && e.role == m.targetRole && e.privilege in DENIED_TABLE_PRIVILEGES
            && !e.held && e.origin == "none"
  {
    var keys := SortedKeys(DeniedRelationKeys(m));
    CollectMembers(keys, DeniedAnswers(m));
    DeniedKeys(m, Single(e.identity));
    AnswersHeld(m, e.identity, DENIED_TABLE_PRIVILEGES, e);
    if e in Collect(keys, DeniedAnswers(m)) {
      var key :| key in keys && e in DeniedAnswers(m)(key);
      DeniedKeys(m, key);
      AnswersHeld(m, key.first, DENIED_TABLE_PRIVILEGES, e);
    }
  }

  lemma {:induction false} ColumnAnswersHeld(
      m: Manifest, identity: string, wanted: seq<string>, e: ObservedColumnGrant)
    requires wanted == COLUMN_LEVEL_PRIVILEGES
    ensures e in DeniedColumns(m)(Single(identity)) <==>
            && e.identity == identity && e.role == m.targetRole && e.privilege in wanted
            && e.columnsHeld == [] && e.columnsProbed == 12
  {
    var answer := (p: string) => ObservedColumnGrant(identity, m.targetRole, p, [], CLEAN_COLUMNS_PROBED);
    MapMembers(wanted, answer);
    assert e.privilege in wanted && e == ObservedColumnGrant(identity, m.targetRole, e.privilege, [], 12) ==>
        answer(e.privilege) == e;
  }

  /** And each column privilege: probed on some columns and held on none. */
  lemma {:induction false} ColumnsHeld(c: Contract, m: Manifest, e: ObservedColumnGrant)
    ensures e in CleanSnapshot(c, m).deniedColumnGrants <==>
            && DeniedRelation(m, e.identity) && e.role == m.targetRole && e.privilege in COLUMN_LEVEL_PRIVILEGES
            && e.columnsHeld == [] && e.columnsProbed == 12
  {
    var keys := SortedKeys(DeniedRelationKeys(m));
    CollectMembers(keys, DeniedColumns(m));
    DeniedKeys(m, Single(e.identity));
    ColumnAnswersHeld(m, e.identity, COLUMN_LEVEL_PRIVILEGES, e);
    if e in Collect(keys, DeniedColumns(m)) {
      var key :| key in keys && e in DeniedColumns(m)(key);
      DeniedKeys(m, key);
      ColumnAnswersHeld(m, key.first, COLUMN_LEVEL_PRIVILEGES, e);
    }
  }

  /** Refused to the target and PUBLIC, open to the executor there is. */
  ghost predicate OfFunction(c: Contract, m: Manifest, identity: string, e: ObservedExecute) {
    && e.identity == identity && e.probed && e.effective
    && ((!e.held && e.role in {m.targetRole, "PUBLIC"})
        || (e.held && identity in c.executors && e.role == c.executors[identity] != ""))
  }

  lemma {:induction false} ExecuteAnswersHeld(c: Contract, m: Manifest, row: GrantRow, e: ObservedExecute)
    ensures e in ExecuteAnswers(c, m)(row) <==> OfFunction(c, m, row.identity, e)
  {
  }

  /** Of every denied function: the target and PUBLIC may not execute it, its executor may. */
  lemma {:induction false} ExecutesHeld(c: Contract, m: Manifest, e: ObservedExecute)
    ensures e in CleanSnapshot(c, m).deniedFunctionExecute <==>
            exists row :: DeniedFunction(m, row) && OfFunction(c, m, row.identity, e)
  {
    CollectMembers(DeniedFunctions(m), ExecuteAnswers(c, m));
    forall row
      ensures e in ExecuteAnswers(c, m)(row) <==> OfFunction(c, m, row.identity, e)
    {
      ExecuteAnswersHeld(c, m, row, e);
    }
  }
}
