/**
 A privilege on single columns of a denied relation, or a column answer that was
 never probed, is seen once too (app/privilege_manifest.py).
 */
module ColumnSensitivity {
  import opened Collections
  import opened PrivilegeManifest
  import opened CutoverGuard
  import opened GuardExactness
  import opened CleanSnapshots
  import opened Sensitivity

  function Answering(m: Manifest, key: Key, columns: seq<string>, probed: nat)
    : ObservedColumnGrant -> ObservedColumnGrant
  {
    (e: ObservedColumnGrant) =>
      if e.role == m.targetRole && ColumnKey()(e) == key then e.(columnsHeld := columns, columnsProbed := probed) else e
  }

  function WithColumns(m: Manifest, s: Snapshot, key: Key, columns: seq<string>, probed: nat): Snapshot {
    s.(deniedColumnGrants := Map(s.deniedColumnGrants, Answering(m, key, columns, probed)))
  }

  function ColumnRefusal(identity: string, p: string, probed: nat): Violation {
    if probed == 0 then UnprobedColumnDenial(identity, p) else DeniedColumnPrivilegeHeld(identity, p)
  }

  ghost predicate ColumnsChanged(v: View, w: View, key: Key, columns: seq<string>, probed: nat) {
    && w.columnAnswers.Keys == v.columnAnswers.Keys
    && (forall k :: k in v.columnAnswers ==>
          w.columnAnswers[k] ==
          if k == key then v.columnAnswers[k].(columnsHeld := columns, columnsProbed := probed) else v.columnAnswers[k])
    && w.objects == v.objects && w.privileges == v.privileges && w.tableAnswers == v.tableAnswers
    && w.executeAnswers == v.executeAnswers
  }

  lemma {:induction false} ColumnsView(m: Manifest, s: Snapshot, key: Key, columns: seq<string>, probed: nat)
    ensures ColumnsChanged(ViewOf(m, s), ViewOf(m, WithColumns(m, s, key, columns, probed)), key, columns, probed)
  {
    var kept := Filter(s.deniedColumnGrants, ColumnsOfTarget(m));
    FilterRewrite(s.deniedColumnGrants, ColumnsOfTarget(m), Answering(m, key, columns, probed));
    IndexByRewrite(kept, ColumnKey(), Answering(m, key, columns, probed));
    IndexByKeys(kept, ColumnKey());
  }

  lemma {:induction false} ColumnPrivilegesDistinct()
    ensures Distinct(COLUMN_LEVEL_PRIVILEGES)
  {
    assert COLUMN_LEVEL_PRIVILEGES[0][0] == 'S' && COLUMN_LEVEL_PRIVILEGES[1][0] == 'I'
           && COLUMN_LEVEL_PRIVILEGES[2][0] == 'U' && COLUMN_LEVEL_PRIVILEGES[3][0] == 'R';
  }

  lemma {:induction false} ColumnRefused(
      v: View, w: View, identity: string, p: string, columns: seq<string>, probed: nat, wanted: seq<string>)
    requires Distinct(wanted) && p in wanted && ColumnsDenied(v, identity, wanted) && (probed == 0 || columns != [])
    requires ColumnsChanged(v, w, Pair(identity, p), columns, probed)
    ensures Collect(wanted, ColumnCheck(w, identity)) == [ColumnRefusal(identity, p, probed)]
  {
    CollectSingle(wanted, ColumnCheck(w, identity), p);
  }

  lemma {:induction false} CheckHere(
      v: View, w: View, identity: string, p: string, columns: seq<string>, probed: nat, tables: seq<string>,
      wanted: seq<string>)
    requires Distinct(wanted) && p in wanted && (probed == 0 || columns != [])
    requires TablesDenied(v, identity, tables) && ColumnsDenied(v, identity, wanted)
    requires ColumnsChanged(v, w, Pair(identity, p), columns, probed)
    ensures DenialCheckOver(w, tables, wanted)(Single(identity)) == [ColumnRefusal(identity, p, probed)]
  {
    TablesExact(w, identity, tables);
    ColumnRefused(v, w, identity, p, columns, probed, wanted);
    assert DenialCheckOver(w, tables, wanted)(Single(identity)) ==
           Collect(tables, TableCheck(w, identity)) + Collect(wanted, ColumnCheck(w, identity));
  }

  lemma {:induction false} ColumnsElsewhere(
      v: View, w: View, key: Key, columns: seq<string>, probed: nat, other: string, wanted: seq<string>)
    requires key.first != other && ColumnsChanged(v, w, key, columns, probed) && ColumnsDenied(v, other, wanted)
    ensures ColumnsDenied(w, other, wanted)
  {
    forall p | p in wanted
      ensures w.columnAnswers[Pair(other, p)] == v.columnAnswers[Pair(other, p)]
    {
      assert Pair(other, p).first == other;
    }
  }

  lemma {:induction false} CheckElsewhere(
      v: View, w: View, key: Key, columns: seq<string>, probed: nat, other: string, tables: seq<string>,
      wanted: seq<string>)
    requires key.first != other && ColumnsChanged(v, w, key, columns, probed)
    requires TablesDenied(v, other, tables) && ColumnsDenied(v, other, wanted)
    ensures DenialCheckOver(w, tables, wanted)(Single(other)) == []
  {
    ColumnsElsewhere(v, w, key, columns, probed, other, wanted);
    TablesExact(w, other, tables);
    ColumnsExact(w, other, wanted);
  }

  lemma {:induction false} DenialsRefused(
      m: Manifest, v: View, w: View, identity: string, p: string, columns: seq<string>, probed: nat)
    requires RelationsDenied(m, v) && Single(identity) in DeniedRelationKeys(m) && p in COLUMN_LEVEL_PRIVILEGES
    requires (probed == 0 || columns != []) && ColumnsChanged(v, w, Pair(identity, p), columns, probed)
    ensures DenialRefusals(m, w) == [ColumnRefusal(identity, p, probed)]
  {
    SortedKeysAscend(DeniedRelationKeys(m));
    DeniedKey(m, v, Single(identity));
    ColumnPrivilegesDistinct();
    CheckHere(v, w, identity, p, columns, probed, DENIED_TABLE_PRIVILEGES, COLUMN_LEVEL_PRIVILEGES);
    forall key | key in SortedKeys(DeniedRelationKeys(m)) && key != Single(identity)
      ensures DenialCheck(w)(key) == []
    {
      DeniedKey(m, v, key);
      CheckElsewhere(v, w, Pair(identity, p), columns, probed, key.first, DENIED_TABLE_PRIVILEGES,
                     COLUMN_LEVEL_PRIVILEGES);
    }
    CollectSingle(SortedKeys(DeniedRelationKeys(m)), DenialCheck(w), Single(identity));
  }

  lemma {:induction false} ColumnsReported(
      c: Contract, m: Manifest, v: View, w: View, identity: string, p: string, columns: seq<string>, probed: nat)
    requires ViewSound(c, m, v) && Single(identity) in DeniedRelationKeys(m) && p in COLUMN_LEVEL_PRIVILEGES
    requires (probed == 0 || columns != []) && ColumnsChanged(v, w, Pair(identity, p), columns, probed)
    ensures ViewReports(c, m, w, ColumnRefusal(identity, p, probed))
  {
    SameObjects(m, v, w);
    SamePrivileges(m, v, w);
    DenialsRefused(m, v, w, identity, p, columns, probed);
    SameExecuteAnswers(c, m, v, w);
  }

  /** Columns held on a denied relation, or none of them probed, is one refusal. */
  lemma {:induction false} DeniedColumnsSeenOnce(
      c: Contract, m: Manifest, s: Snapshot, identity: string, p: string, columns: seq<string>, probed: nat)
    requires SoundBesidesBaseline(c, m, s) && (probed == 0 || columns != [])
    requires Single(identity) in DeniedRelationKeys(m) && p in COLUMN_LEVEL_PRIVILEGES
    ensures RefusesExactly(c, m, WithColumns(m, s, Pair(identity, p), columns, probed),
                           ColumnRefusal(identity, p, probed))
  {
    var s' := WithColumns(m, s, Pair(identity, p), columns, probed);
    ColumnsView(m, s, Pair(identity, p), columns, probed);
    ColumnsReported(c, m, ViewOf(m, s), ViewOf(m, s'), identity, p, columns, probed);
    SameRoles(c, m, s, s');
    OneRefusal(c, m, s', ViewOf(m, s'), ColumnRefusal(identity, p, probed));
  }

  lemma {:induction false} DeniedColumnsAreCaught(
      c: Contract, m: Manifest, identity: string, p: string, columns: seq<string>, probed: nat)
    requires WellFormed(c, m) && (probed == 0 || columns != [])
    requires Single(identity) in DeniedRelationKeys(m) && p in COLUMN_LEVEL_PRIVILEGES
    ensures RefusesExactly(c, m, WithColumns(m, CleanSnapshot(c, m), Pair(identity, p), columns, probed),
                           ColumnRefusal(identity, p, probed))
  {
    CleanIsSound(c, m);
    DeniedColumnsSeenOnce(c, m, CleanSnapshot(c, m), identity, p, columns, probed);
  }
}
