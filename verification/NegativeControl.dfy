/**
 The guard's negative control (app/privilege_manifest.py): on the clean snapshot
 of a well-formed manifest the guard says nothing but the baseline counts, and
 every single defect put into it is reported once.
 */
module NegativeControl {
  import opened Collections
  import opened PrivilegeManifest
  import opened CutoverGuard
  import opened GuardExactness
  import opened CleanSnapshots
  import opened Sensitivity

  lemma {:induction false} LostPrivilegeIsCaught(c: Contract, m: Manifest, row: GrantRow)
    requires WellFormed(c, m) && row in m.rows && !row.disposition.Denied?
    ensures var key := Pair(row.identity, row.privilege);
            RefusesExactly(c, m, WithAnswer(m, CleanSnapshot(c, m), key, false, DIRECT_ORIGIN),
                           AnswerRefusal(key, false))
  {
    CleanIsSound(c, m);
    GrantedAnswerSeenOnce(c, m, CleanSnapshot(c, m), Pair(row.identity, row.privilege), false, DIRECT_ORIGIN);
  }

  lemma {:induction false} IndirectPrivilegeIsCaught(c: Contract, m: Manifest, row: GrantRow, origin: string)
    requires WellFormed(c, m) && row in m.rows && !row.disposition.Denied? && origin != DIRECT_ORIGIN
    ensures var key := Pair(row.identity, row.privilege);
            RefusesExactly(c, m, WithAnswer(m, CleanSnapshot(c, m), key, true, origin), AnswerRefusal(key, true))
  {
    CleanIsSound(c, m);
    GrantedAnswerSeenOnce(c, m, CleanSnapshot(c, m), Pair(row.identity, row.privilege), true, origin);
  }

  lemma {:induction false} MovedOwnerIsCaught(c: Contract, m: Manifest, row: GrantRow, owner: string)
    requires WellFormed(c, m) && row in OwnedRows(m) && owner != row.owner
    ensures RefusesExactly(c, m, WithOwner(CleanSnapshot(c, m), row.identity, owner), OwnershipChange(row.identity))
  {
    CleanIsSound(c, m);
    OwnerMoveSeenOnce(c, m, CleanSnapshot(c, m), row, owner);
  }

  lemma {:induction false} LostPreservedPrivilegeIsCaught(c: Contract, m: Manifest, scope: string, n: nat)
    requires WellFormed(c, m) && scope in PreservedScopes(m) && n < PreservedScopes(m)[scope]
    ensures var key := Pair(PreservedEntry(m, scope, n).identity, "SELECT");
            RefusesExactly(c, m, WithAnswer(m, CleanSnapshot(c, m), key, false, DIRECT_ORIGIN),
                           ExclusionMoved(scope, PreservedScopes(m)[scope] - 1, PreservedScopes(m)[scope]))
  {
    CleanIsSound(c, m);
    CleanSyntheticIsExtra(c, m, scope, n);
    PreservedLossSeenOnce(c, m, CleanSnapshot(c, m), scope, Pair(PreservedEntry(m, scope, n).identity, "SELECT"));
  }

  lemma {:induction false} VanishedObjectIsCaught(c: Contract, m: Manifest, row: GrantRow)
    requires WellFormed(c, m) && row in FirstRows(m.rows)
    ensures RefusesExactly(c, m, WithoutObject(CleanSnapshot(c, m), row.identity), ObjectVanished(row.identity))
  {
    CleanIsSound(c, m);
    FirstRowsCover(m.rows);
    forall key | key in ViewOf(m, CleanSnapshot(c, m)).privileges && key.first == row.identity
      ensures !IsExtra(m, ViewOf(m, CleanSnapshot(c, m)))(key)
    {
      NoRowIsExtra(c, m, row, key);
    }
    VanishSeenOnce(c, m, CleanSnapshot(c, m), row);
  }

  lemma {:induction false} NoRowIsExtra(c: Contract, m: Manifest, row: GrantRow, key: Key)
    requires WellFormed(c, m) && row in m.rows && key.first == row.identity
    requires key in ViewOf(m, CleanSnapshot(c, m)).privileges
    ensures !IsExtra(m, ViewOf(m, CleanSnapshot(c, m)))(key)
  {
    if IsExtra(m, ViewOf(m, CleanSnapshot(c, m)))(key) {
      var scope, n := CleanExtra(c, m, key);
      assert Synthetic(m, row.identity);
    }
  }

  lemma {:induction false} DeniedAccessIsCaught(c: Contract, m: Manifest, identity: string, p: string)
    requires WellFormed(c, m) && Single(identity) in DeniedRelationKeys(m) && p in DENIED_TABLE_PRIVILEGES
    ensures RefusesExactly(c, m, WithDeniedHeld(m, CleanSnapshot(c, m), Pair(identity, p)),
                           DeniedPrivilegeHeld(identity, p))
  {
    CleanIsSound(c, m);
    DeniedHeldSeenOnce(c, m, CleanSnapshot(c, m), identity, p);
  }

  lemma {:induction false} TurnedExecuteIsCaught(c: Contract, m: Manifest, row: GrantRow, role: string)
    requires WellFormed(c, m) && m.targetRole != PUBLIC_PSEUDO_ROLE && OneRowPerFunction(m)
    requires row in DeniedFunctions(m) && role in WantedRoles(m, c.executors[row.identity])
    ensures RefusesExactly(c, m, WithTurnedAnswer(m, CleanSnapshot(c, m), row.identity, role),
                           ExecuteRefusal(m, row.identity, role))
  {
    CleanIsSound(c, m);
    ExecuteFlipSeenOnce(c, m, CleanSnapshot(c, m), row, role);
  }
}
