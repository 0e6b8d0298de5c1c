/**
 Each defect is seen once (app/privilege_manifest.py): on a snapshot the guard
 would otherwise accept, every single change below adds exactly one refusal.
 */
module Sensitivity {
  import opened Collections
  import opened PrivilegeManifest
  import opened CutoverGuard
  import opened GuardExactness

  /** The baseline refusals and `x`, once, are all the guard reports. */
  ghost predicate RefusesExactly(c: Contract, m: Manifest, s: Snapshot, x: Violation) {
    var r := CutoverRefusals(c, m, s);
    r.Success? && multiset(r.value) == multiset(BaselineRefusals(c, m)) + multiset{x}
  }

  /** One of the five lists is `[x]` and the others are empty. */
  ghost predicate Alone(o: seq<Violation>, p: Outcome, w: seq<Violation>, d: seq<Violation>, f: Outcome, x: Violation) {
    && p.Success? && f.Success?
    && |o| + |p.value| + |w| + |d| + |f.value| == 1
    && (o == [x] || p.value == [x] || w == [x] || d == [x] || f.value == [x])
  }

  ghost predicate ViewReports(c: Contract, m: Manifest, v: View, x: Violation) {
    Alone(ObjectRefusals(m, v), PrivilegeRefusals(m, v), OwnershipRefusals(m, v), DenialRefusals(m, v),
          FunctionRefusals(c, m, v), x)
  }

  lemma {:induction false} GluedAlone(
      b: seq<Violation>, o: seq<Violation>, p: Outcome, w: seq<Violation>, d: seq<Violation>, f: Outcome, x: Violation)
    requires Alone(o, p, w, d, f, x)
    ensures Glued(b, o, p, [], w, [], d, f) == Success(b + [x])
  {
    var all := b + o + p.value + ([] + w) + [] + d + f.value;
    assert |all| == |b| + 1;
    assert all == b + [x];
  }

  lemma {:induction false} OneRefusal(c: Contract, m: Manifest, s: Snapshot, v: View, x: Violation)
    requires v == ViewOf(m, s) && ViewReports(c, m, v, x)
    requires RoleRefusals(m, s) == [] && LegacyRefusals(c, m, s) == []
    ensures RefusesExactly(c, m, s, x)
  {
    GluedAlone(BaselineRefusals(c, m), ObjectRefusals(m, v), PrivilegeRefusals(m, v), OwnershipRefusals(m, v),
               DenialRefusals(m, v), FunctionRefusals(c, m, v), x);
  }

  /** The roles and the legacy access do not depend on what the changes below touch. */
  lemma {:induction false} SameRoles(c: Contract, m: Manifest, s: Snapshot, s': Snapshot)
    requires RolesSound(c, m, s)
    requires s'.memberships == s.memberships && s'.postures == s.postures
    requires s'.legacyModulePrivileges == s.legacyModulePrivileges
    ensures RoleRefusals(m, s') == [] && LegacyRefusals(c, m, s') == []
  {
    RolesExact(c, m, s');
  }

  // ----- what depends on what

  lemma {:induction false} ExtrasUntouched(m: Manifest, v: View, w: View)
    requires v.privileges.Keys == w.privileges.Keys
    requires forall key :: key in v.privileges ==> IsExtra(m, v)(key) == IsExtra(m, w)(key)
    ensures ExtraKeys(m, v) == ExtraKeys(m, w)
  {
    FilterSame(SortedKeys(v.privileges.Keys), IsExtra(m, v), IsExtra(m, w));
  }

  lemma {:induction false} ExtrasSilent(m: Manifest, v: View)
    requires NothingUnlisted(m, v)
    ensures FirstMalformed(ExtraKeys(m, v)).None? && ExtraRefusals(ExtraKeys(m, v), PreservedScopes(m)) == []
  {
    ExtraExact(m, v);
  }

  lemma {:induction false} PrivilegeParts(m: Manifest, v: View, expected: seq<Violation>, extra: seq<Violation>)
    requires FirstMalformed(ExtraKeys(m, v)).None?
    requires ExpectedRefusals(m, v) == expected && ExtraRefusals(ExtraKeys(m, v), PreservedScopes(m)) == extra
    ensures PrivilegeRefusals(m, v) == Success(expected + extra)
    ensures extra == [] ==> PrivilegeRefusals(m, v) == Success(expected)
    ensures expected == [] ==> PrivilegeRefusals(m, v) == Success(extra)
  {
    assert extra == [] ==> expected + extra == expected;
    assert expected == [] ==> expected + extra == extra;
  }

  lemma {:induction false} SameObjects(m: Manifest, v: View, w: View)
    requires v.objects == w.objects && ObjectsIntact(m, v) && OwnersUnchanged(m, v)
    ensures ObjectsIntact(m, w) && ObjectRefusals(m, w) == [] && OwnershipRefusals(m, w) == []
  {
    forall row | row in FirstRows(m.rows)
      ensures ObjectIntact(w, row)
    {
      assert ObjectIntact(v, row);
    }
    ObjectExact(m, w);
    OwnershipExact(m, w);
  }

  lemma {:induction false} SamePrivileges(m: Manifest, v: View, w: View)
    requires v.privileges == w.privileges && ObjectsIntact(m, w) && GrantsHeld(m, v) && NothingUnlisted(m, v)
    ensures PrivilegeRefusals(m, w) == Success([])
  {
    forall key | key in ExpectedKeys(m)
      ensures HeldDirectly(w, key)
    {
      assert HeldDirectly(v, key);
    }
    ExtrasUntouched(m, v, w);
    ExtraExact(m, v);
    ExpectedExact(m, w);
  }

  lemma {:induction false} SameRelationAnswers(m: Manifest, v: View, w: View)
    requires v.tableAnswers == w.tableAnswers && v.columnAnswers == w.columnAnswers && RelationsDenied(m, v)
    ensures DenialRefusals(m, w) == []
  {
    forall row | row in m.rows && row.disposition.Denied? && row.objectKind == KIND_RELATION
      ensures RelationDenied(w, row.identity)
    {
      assert RelationDenied(v, row.identity);
    }
    DenialExact(m, w);
  }

  lemma {:induction false} SameExecuteAnswers(c: Contract, m: Manifest, v: View, w: View)
    requires v.executeAnswers == w.executeAnswers && FunctionsSealed(c, m, v)
    ensures FunctionRefusals(c, m, w) == Success([])
  {
    forall row | row in m.rows && row.disposition.Denied? && row.objectKind == KIND_FUNCTION
      ensures FunctionSealed(c, m, w, row)
    {
      assert FunctionSealed(c, m, v, row);
    }
    FunctionExact(c, m, w);
  }

  // ----- one privilege answer of the target

  function Answering(m: Manifest, key: Key, held: bool, origin: string): ObservedPrivilege -> ObservedPrivilege {
    (e: ObservedPrivilege) =>
      if e.role == m.targetRole && PrivilegeKey()(e) == key then e.(held := held, origin := origin) else e
  }

  function WithAnswer(m: Manifest, s: Snapshot, key: Key, held: bool, origin: string): Snapshot {
    s.(privileges := Map(s.privileges, Answering(m, key, held, origin)))
  }

  ghost predicate AnswerChanged(v: View, w: View, key: Key, held: bool, origin: string) {
    && w.privileges.Keys == v.privileges.Keys && key in v.privileges
    && (forall k :: k in v.privileges ==>
          w.privileges[k] == if k == key then v.privileges[k].(held := held, origin := origin) else v.privileges[k])
    && w.objects == v.objects && w.tableAnswers == v.tableAnswers && w.columnAnswers == v.columnAnswers
    && w.executeAnswers == v.executeAnswers
  }

  lemma {:induction false} AnswerView(m: Manifest, s: Snapshot, key: Key, held: bool, origin: string)
    requires key in ViewOf(m, s).privileges
    ensures AnswerChanged(ViewOf(m, s), ViewOf(m, WithAnswer(m, s, key, held, origin)), key, held, origin)
  {
    var kept := Filter(s.privileges, OfTargetUndenied(m));
    FilterRewrite(s.privileges, OfTargetUndenied(m), Answering(m, key, held, origin));
    IndexByRewrite(kept, PrivilegeKey(), Answering(m, key, held, origin));
    IndexByKeys(kept, PrivilegeKey());
  }

  /** The refusal a granted row draws when its privilege is gone, or reached some other way. */
  function AnswerRefusal(key: Key, held: bool): Violation {
    if held then PrivilegeOrigin(key.first, key.second) else PrivilegeAbsent(key.first, key.second)
  }

  lemma {:induction false} ExpectedAnswerRefused(m: Manifest, v: View, w: View, key: Key, held: bool, origin: string)
    requires ObjectsIntact(m, v) && GrantsHeld(m, v) && key in ExpectedKeys(m)
    requires (!held || origin != DIRECT_ORIGIN) && AnswerChanged(v, w, key, held, origin)
    ensures ExpectedRefusals(m, w) == [AnswerRefusal(key, held)]
  {
    var keys := SortedKeys(ExpectedKeys(m));
    SortedKeysAscend(ExpectedKeys(m));
    forall k | k in keys
      ensures k != key ==> ExpectedCheck(w)(k) == []
      ensures ExpectedCheck(w)(key) == [AnswerRefusal(key, held)]
    {
      NothingVanished(m, v, k);
      NothingVanished(m, v, key);
      assert HeldDirectly(v, k) && HeldDirectly(v, key);
    }
    CollectSingle(keys, ExpectedCheck(w), key);
  }

  lemma {:induction false} GrantedAnswerPrivileges(m: Manifest, v: View, w: View, key: Key, held: bool, origin: string)
    requires ObjectsIntact(m, v) && GrantsHeld(m, v) && NothingUnlisted(m, v) && key in ExpectedKeys(m)
    requires (!held || origin != DIRECT_ORIGIN) && AnswerChanged(v, w, key, held, origin)
    ensures PrivilegeRefusals(m, w) == Success([AnswerRefusal(key, held)])
  {
    ExpectedAnswerRefused(m, v, w, key, held, origin);
    ExtrasUntouched(m, v, w);
    ExtrasSilent(m, v);
    PrivilegeParts(m, w, [AnswerRefusal(key, held)], []);
  }

  lemma {:induction false} GrantedAnswerReported(
      c: Contract, m: Manifest, v: View, w: View, key: Key, held: bool, origin: string)
    requires ViewSound(c, m, v) && key in ExpectedKeys(m)
    requires (!held || origin != DIRECT_ORIGIN) && AnswerChanged(v, w, key, held, origin)
    ensures ViewReports(c, m, w, AnswerRefusal(key, held))
  {
    SameObjects(m, v, w);
    GrantedAnswerPrivileges(m, v, w, key, held, origin);
    SameRelationAnswers(m, v, w);
    SameExecuteAnswers(c, m, v, w);
  }

  /** A granted row whose privilege is withdrawn, or reached some other way, is one refusal. */
  lemma {:induction false} GrantedAnswerSeenOnce(
      c: Contract, m: Manifest, s: Snapshot, key: Key, held: bool, origin: string)
    requires SoundBesidesBaseline(c, m, s) && key in ExpectedKeys(m)
    requires !held || origin != DIRECT_ORIGIN
    ensures RefusesExactly(c, m, WithAnswer(m, s, key, held, origin), AnswerRefusal(key, held))
  {
    assert HeldDirectly(ViewOf(m, s), key);
    AnswerView(m, s, key, held, origin);
    GrantedAnswerReported(c, m, ViewOf(m, s), ViewOf(m, WithAnswer(m, s, key, held, origin)), key, held, origin);
    SameRoles(c, m, s, WithAnswer(m, s, key, held, origin));
    OneRefusal(c, m, WithAnswer(m, s, key, held, origin), ViewOf(m, WithAnswer(m, s, key, held, origin)),
               AnswerRefusal(key, held));
  }

  lemma {:induction false} ScopesAfterLoss(m: Manifest, v: View, w: View, scope: string, key: Key, other: string)
    requires key in UnlistedIn(m, v, scope) && AnswerChanged(v, w, key, false, DIRECT_ORIGIN)
    ensures |UnlistedIn(m, w, other)| == |UnlistedIn(m, v, other)| - (if other == scope then 1 else 0)
  {
    if other == scope {
      assert UnlistedIn(m, w, scope) == UnlistedIn(m, v, scope) - {key};
    } else {
      assert UnlistedIn(m, w, other) == UnlistedIn(m, v, other);
    }
  }

  lemma {:induction false} ShortScope(extra: seq<Key>, preserved: map<string, int>, scope: string)
    requires scope in preserved
    requires forall other :: other in preserved ==>
               CountIn(extra, other) == preserved[other] - (if other == scope then 1 else 0)
    ensures Collect(SortedKeys(ScopeKeys(preserved)), ExclusionCheck(extra, preserved)) ==
            [ExclusionMoved(scope, preserved[scope] - 1, preserved[scope])]
  {
    var scopes := SortedKeys(ScopeKeys(preserved));
    SortedKeysAscend(ScopeKeys(preserved));
    assert Single(scope) in scopes;
    CollectSingle(scopes, ExclusionCheck(extra, preserved), Single(scope));
  }

  lemma {:induction false} PreservedLossCounted(m: Manifest, v: View, w: View, scope: string, key: Key)
    requires NothingUnlisted(m, v) && scope in PreservedScopes(m) && key in UnlistedIn(m, v, scope)
    requires AnswerChanged(v, w, key, false, DIRECT_ORIGIN)
    ensures forall other :: other in PreservedScopes(m) ==>
              CountIn(ExtraKeys(m, w), other) == PreservedScopes(m)[other] - (if other == scope then 1 else 0)
  {
    forall other | other in PreservedScopes(m)
      ensures CountIn(ExtraKeys(m, w), other) == PreservedScopes(m)[other] - (if other == scope then 1 else 0)
    {
      ScopeCount(m, w, other);
      ScopesAfterLoss(m, v, w, scope, key, other);
    }
  }

  lemma {:induction false} PreservedLossAdds(m: Manifest, v: View, w: View, scope: string, key: Key)
    requires NothingUnlisted(m, v) && scope in PreservedScopes(m) && key in UnlistedIn(m, v, scope)
    requires AnswerChanged(v, w, key, false, DIRECT_ORIGIN)
    ensures FirstMalformed(ExtraKeys(m, w)).None? && Collect(ExtraKeys(m, w), AddedCheck(PreservedScopes(m))) == []
  {
    AddedExact(m, w, PreservedScopes(m));
  }

  lemma {:induction false} PreservedLossExtras(m: Manifest, v: View, w: View, scope: string, key: Key)
    requires NothingUnlisted(m, v) && scope in PreservedScopes(m) && key in UnlistedIn(m, v, scope)
    requires AnswerChanged(v, w, key, false, DIRECT_ORIGIN)
    ensures FirstMalformed(ExtraKeys(m, w)).None?
    ensures ExtraRefusals(ExtraKeys(m, w), PreservedScopes(m)) ==
            [ExclusionMoved(scope, PreservedScopes(m)[scope] - 1, PreservedScopes(m)[scope])]
  {
    PreservedLossCounted(m, v, w, scope, key);
    ShortScope(ExtraKeys(m, w), PreservedScopes(m), scope);
    PreservedLossAdds(m, v, w, scope, key);
  }

  lemma {:induction false} PreservedLossPrivileges(m: Manifest, v: View, w: View, scope: string, key: Key)
    requires ObjectsIntact(m, w) && GrantsHeld(m, v) && NothingUnlisted(m, v)
    requires scope in PreservedScopes(m) && key in UnlistedIn(m, v, scope)
             && AnswerChanged(v, w, key, false, DIRECT_ORIGIN)
    ensures PrivilegeRefusals(m, w) ==
            Success([ExclusionMoved(scope, PreservedScopes(m)[scope] - 1, PreservedScopes(m)[scope])])
  {
    PreservedLossExtras(m, v, w, scope, key);
    forall k | k in ExpectedKeys(m)
      ensures HeldDirectly(w, k)
    {
      assert HeldDirectly(v, k) && k != key;
    }
    ExpectedExact(m, w);
    PrivilegeParts(m, w, [], [ExclusionMoved(scope, PreservedScopes(m)[scope] - 1, PreservedScopes(m)[scope])]);
  }

  lemma {:induction false} PreservedLossReported(c: Contract, m: Manifest, v: View, w: View, scope: string, key: Key)
    requires ViewSound(c, m, v) && scope in PreservedScopes(m) && key in UnlistedIn(m, v, scope)
    requires AnswerChanged(v, w, key, false, DIRECT_ORIGIN)
    ensures ViewReports(c, m, w, ExclusionMoved(scope, PreservedScopes(m)[scope] - 1, PreservedScopes(m)[scope]))
  {
    SameObjects(m, v, w);
    PreservedLossPrivileges(m, v, w, scope, key);
    SameRelationAnswers(m, v, w);
    SameExecuteAnswers(c, m, v, w);
  }

  /** Losing one preserved privilege moves its scope's count and is one refusal. */
  lemma {:induction false} PreservedLossSeenOnce(c: Contract, m: Manifest, s: Snapshot, scope: string, key: Key)
    requires SoundBesidesBaseline(c, m, s) && scope in PreservedScopes(m)
    requires key in UnlistedIn(m, ViewOf(m, s), scope)
    ensures RefusesExactly(c, m, WithAnswer(m, s, key, false, DIRECT_ORIGIN),
                           ExclusionMoved(scope, PreservedScopes(m)[scope] - 1, PreservedScopes(m)[scope]))
  {
    var s' := WithAnswer(m, s, key, false, DIRECT_ORIGIN);
    AnswerView(m, s, key, false, DIRECT_ORIGIN);
    PreservedLossReported(c, m, ViewOf(m, s), ViewOf(m, s'), scope, key);
    SameRoles(c, m, s, s');
    OneRefusal(c, m, s', ViewOf(m, s'), ExclusionMoved(scope, PreservedScopes(m)[scope] - 1,
                                                       PreservedScopes(m)[scope]));
  }

  // ----- one object

  function Reowning(identity: string, owner: string): ObservedObject -> ObservedObject {
    (e: ObservedObject) => if e.identity == identity then e.(owner := owner) else e
  }

  function WithOwner(s: Snapshot, identity: string, owner: string): Snapshot {
    s.(objects := Map(s.objects, Reowning(identity, owner)))
  }

  ghost predicate OwnerChanged(v: View, w: View, identity: string, owner: string) {
    && w.objects.Keys == v.objects.Keys
    && (forall id :: id in v.objects ==>
          w.objects[id] == if id == identity then v.objects[id].(owner := owner) else v.objects[id])
    && w.privileges == v.privileges && w.tableAnswers == v.tableAnswers && w.columnAnswers == v.columnAnswers
    && w.executeAnswers == v.executeAnswers
  }

  lemma {:induction false} OwnerView(m: Manifest, s: Snapshot, identity: string, owner: string)
    ensures OwnerChanged(ViewOf(m, s), ViewOf(m, WithOwner(s, identity, owner)), identity, owner)
  {
    IndexByRewrite(s.objects, ObjectKey(), Reowning(identity, owner));
    IndexByKeys(s.objects, ObjectKey());
  }

  lemma {:induction false} OwnerMoveRefused(m: Manifest, v: View, w: View, row: GrantRow, owner: string)
    requires ObjectsIntact(m, v) && OwnersUnchanged(m, v) && row in OwnedRows(m) && owner != row.owner
    requires OwnerChanged(v, w, row.identity, owner)
    ensures OwnershipRefusals(m, w) == [OwnershipChange(row.identity)]
  {
    var rows := OwnedRows(m);
    FirstRowsCover(Filter(m.rows, HasOwner()));
    IntactByIdentity(m, v, row);
    assert Distinct(rows);
    forall other | other in rows && other != row
      ensures OwnerCheck(w.objects)(other) == []
    {
      var i :| 0 <= i < |rows| && rows[i] == row;
      var j :| 0 <= j < |rows| && rows[j] == other;
      assert other.identity != row.identity;
    }
    CollectSingle(rows, OwnerCheck(w.objects), row);
  }

  lemma {:induction false} OwnerMoveReported(c: Contract, m: Manifest, v: View, w: View, row: GrantRow, owner: string)
    requires ViewSound(c, m, v) && row in OwnedRows(m) && owner != row.owner && OwnerChanged(v, w, row.identity, owner)
    ensures ViewReports(c, m, w, OwnershipChange(row.identity))
  {
    forall first | first in FirstRows(m.rows)
      ensures ObjectIntact(w, first)
    {
      assert ObjectIntact(v, first);
    }
    ObjectExact(m, w);
    OwnerMoveRefused(m, v, w, row, owner);
    SamePrivileges(m, v, w);
    SameRelationAnswers(m, v, w);
    SameExecuteAnswers(c, m, v, w);
  }

  /** An object whose owner moved is one refusal. */
  lemma {:induction false} OwnerMoveSeenOnce(c: Contract, m: Manifest, s: Snapshot, row: GrantRow, owner: string)
    requires SoundBesidesBaseline(c, m, s) && row in OwnedRows(m) && owner != row.owner
    ensures RefusesExactly(c, m, WithOwner(s, row.identity, owner), OwnershipChange(row.identity))
  {
    OwnerView(m, s, row.identity, owner);
    OwnerMoveReported(c, m, ViewOf(m, s), ViewOf(m, WithOwner(s, row.identity, owner)), row, owner);
    SameRoles(c, m, s, WithOwner(s, row.identity, owner));
    OneRefusal(c, m, WithOwner(s, row.identity, owner), ViewOf(m, WithOwner(s, row.identity, owner)),
               OwnershipChange(row.identity));
  }

  function Vanishing(identity: string): ObservedObject -> ObservedObject {
    (e: ObservedObject) => if e.identity == identity then e.(present := false) else e
  }

  function Forgetting(identity: string): ObservedPrivilege -> ObservedPrivilege {
    (e: ObservedPrivilege) => if e.identity == identity then e.(held := false) else e
  }

  /** The object is gone, and with it every privilege that was answered on it. */
  function WithoutObject(s: Snapshot, identity: string): Snapshot {
    s.(objects := Map(s.objects, Vanishing(identity)), privileges := Map(s.privileges, Forgetting(identity)))
  }

  ghost predicate ObjectGone(v: View, w: View, identity: string) {
    && w.objects.Keys == v.objects.Keys && w.privileges.Keys == v.privileges.Keys
    && (forall id :: id in v.objects ==>
          w.objects[id] == if id == identity then v.objects[id].(present := false) else v.objects[id])
    && (forall key :: key in v.privileges ==>
          w.privileges[key] == if key.first == identity then v.privileges[key].(held := false) else v.privileges[key])
    && w.tableAnswers == v.tableAnswers && w.columnAnswers == v.columnAnswers && w.executeAnswers == v.executeAnswers
  }

  lemma {:induction false} VanishedView(m: Manifest, s: Snapshot, identity: string)
    ensures ObjectGone(ViewOf(m, s), ViewOf(m, WithoutObject(s, identity)), identity)
  {
    IndexByRewrite(s.objects, ObjectKey(), Vanishing(identity));
    IndexByKeys(s.objects, ObjectKey());
    var kept := Filter(s.privileges, OfTargetUndenied(m));
    FilterRewrite(s.privileges, OfTargetUndenied(m), Forgetting(identity));
    IndexByRewrite(kept, PrivilegeKey(), Forgetting(identity));
    IndexByKeys(kept, PrivilegeKey());
  }

  lemma {:induction false} VanishRefused(m: Manifest, v: View, w: View, row: GrantRow)
    requires ObjectsIntact(m, v) && row in FirstRows(m.rows) && ObjectGone(v, w, row.identity)
    ensures ObjectRefusals(m, w) == [ObjectVanished(row.identity)]
  {
    var rows := FirstRows(m.rows);
    FirstRowsCover(m.rows);
    assert Distinct(rows);
    forall other | other in rows
      ensures other != row ==> ObjectCheck(w.objects)(other) == []
      ensures ObjectCheck(w.objects)(row) == [ObjectVanished(row.identity)]
    {
      var i :| 0 <= i < |rows| && rows[i] == row;
      var j :| 0 <= j < |rows| && rows[j] == other;
      assert other != row ==> other.identity != row.identity;
      assert ObjectIntact(v, other) && ObjectIntact(v, row);
    }
    CollectSingle(rows, ObjectCheck(w.objects), row);
  }

  lemma {:induction false} VanishSilencesExpected(m: Manifest, v: View, w: View, identity: string)
    requires GrantsHeld(m, v) && ObjectGone(v, w, identity) && identity in v.objects
    ensures ExpectedRefusals(m, w) == []
  {
    CollectEmpty(SortedKeys(ExpectedKeys(m)), ExpectedCheck(w));
    forall key | key in ExpectedKeys(m)
      ensures ExpectedCheck(w)(key) == []
    {
      assert HeldDirectly(v, key);
    }
  }

  lemma {:induction false} VanishSilencesTheRest(m: Manifest, v: View, w: View, identity: string)
    requires ObjectsIntact(m, v) && GrantsHeld(m, v) && NothingUnlisted(m, v) && OwnersUnchanged(m, v)
    requires ObjectGone(v, w, identity) && identity in v.objects
    requires forall key :: key in v.privileges && key.first == identity ==> !IsExtra(m, v)(key)
    ensures PrivilegeRefusals(m, w) == Success([]) && OwnershipRefusals(m, w) == []
  {
    ExtrasUntouched(m, v, w);
    ExtraExact(m, v);
    OwnershipExact(m, w);
    VanishSilencesExpected(m, v, w, identity);
  }

  lemma {:induction false} VanishReported(c: Contract, m: Manifest, v: View, w: View, row: GrantRow)
    requires ViewSound(c, m, v) && row in FirstRows(m.rows) && ObjectGone(v, w, row.identity)
    requires forall key :: key in v.privileges && key.first == row.identity ==> !IsExtra(m, v)(key)
    ensures ViewReports(c, m, w, ObjectVanished(row.identity))
  {
    assert ObjectIntact(v, row);
    VanishRefused(m, v, w, row);
    VanishSilencesTheRest(m, v, w, row.identity);
    SameRelationAnswers(m, v, w);
    SameExecuteAnswers(c, m, v, w);
  }

  /** However many privileges are listed on it, an object that vanished is one refusal. */
  lemma {:induction false} VanishSeenOnce(c: Contract, m: Manifest, s: Snapshot, row: GrantRow)
    requires SoundBesidesBaseline(c, m, s) && row in FirstRows(m.rows)
    requires forall key :: key in ViewOf(m, s).privileges && key.first == row.identity ==>
               !IsExtra(m, ViewOf(m, s))(key)
    ensures RefusesExactly(c, m, WithoutObject(s, row.identity), ObjectVanished(row.identity))
  {
    VanishedView(m, s, row.identity);
    VanishReported(c, m, ViewOf(m, s), ViewOf(m, WithoutObject(s, row.identity)), row);
    SameRoles(c, m, s, WithoutObject(s, row.identity));
    OneRefusal(c, m, WithoutObject(s, row.identity), ViewOf(m, WithoutObject(s, row.identity)),
               ObjectVanished(row.identity));
  }

  // ----- one answer on a denied relation

  function Granting(m: Manifest, key: Key): ObservedPrivilege -> ObservedPrivilege {
    (e: ObservedPrivilege) => if e.role == m.targetRole && PrivilegeKey()(e) == key then e.(held := true) else e
  }

  function WithDeniedHeld(m: Manifest, s: Snapshot, key: Key): Snapshot {
    s.(deniedPrivileges := Map(s.deniedPrivileges, Granting(m, key)))
  }

  ghost predicate DeniedHeld(v: View, w: View, key: Key) {
    && w.tableAnswers.Keys == v.tableAnswers.Keys
    && (forall k :: k in v.tableAnswers ==>
          w.tableAnswers[k] == if k == key then v.tableAnswers[k].(held := true) else v.tableAnswers[k])
    && w.objects == v.objects && w.privileges == v.privileges && w.columnAnswers == v.columnAnswers
    && w.executeAnswers == v.executeAnswers
  }

  lemma {:induction false} DeniedHeldView(m: Manifest, s: Snapshot, key: Key)
    ensures DeniedHeld(ViewOf(m, s), ViewOf(m, WithDeniedHeld(m, s, key)), key)
  {
    var kept := Filter(s.deniedPrivileges, OfTarget(m));
    FilterRewrite(s.deniedPrivileges, OfTarget(m), Granting(m, key));
    IndexByRewrite(kept, PrivilegeKey(), Granting(m, key));
    IndexByKeys(kept, PrivilegeKey());
  }

  lemma {:induction false} DeniedTableRefused(v: View, w: View, identity: string, p: string, wanted: seq<string>)
    requires Distinct(wanted) && p in wanted && TablesDenied(v, identity, wanted) && DeniedHeld(v, w, Pair(identity, p))
    ensures Collect(wanted, TableCheck(w, identity)) == [DeniedPrivilegeHeld(identity, p)]
  {
    CollectSingle(wanted, TableCheck(w, identity), p);
  }

  lemma {:induction false} TablePrivilegesDistinct()
    ensures Distinct(DENIED_TABLE_PRIVILEGES)
  {
    assert |DENIED_TABLE_PRIVILEGES[0]| == 6 && |DENIED_TABLE_PRIVILEGES[4]| == 8 && |DENIED_TABLE_PRIVILEGES[5]| == 10
           && |DENIED_TABLE_PRIVILEGES[6]| == 7;
    assert DENIED_TABLE_PRIVILEGES[0][0] == 'S' && DENIED_TABLE_PRIVILEGES[1][0] == 'I'
           && DENIED_TABLE_PRIVILEGES[2][0] == 'U' && DENIED_TABLE_PRIVILEGES[3][0] == 'D'
           && DENIED_TABLE_PRIVILEGES[4][0] == 'T' && DENIED_TABLE_PRIVILEGES[5][0] == 'R'
           && DENIED_TABLE_PRIVILEGES[6][0] == 'T';
  }

  lemma {:induction false} ColumnsStaySilent(v: View, w: View, identity: string, columns: seq<string>)
    requires ColumnsDenied(v, identity, columns) && w.columnAnswers == v.columnAnswers
    ensures Collect(columns, ColumnCheck(w, identity)) == []
  {
    ColumnsExact(w, identity, columns);
  }

  lemma {:induction false} DeniedCheckHere(
      v: View, w: View, identity: string, p: string, tables: seq<string>, columns: seq<string>)
    requires Distinct(tables) && p in tables && DeniedHeld(v, w, Pair(identity, p))
    requires TablesDenied(v, identity, tables) && ColumnsDenied(v, identity, columns)
    ensures DenialCheckOver(w, tables, columns)(Single(identity)) == [DeniedPrivilegeHeld(identity, p)]
  {
    DeniedTableRefused(v, w, identity, p, tables);
    ColumnsStaySilent(v, w, identity, columns);
    assert DenialCheckOver(w, tables, columns)(Single(identity)) ==
           Collect(tables, TableCheck(w, identity)) + Collect(columns, ColumnCheck(w, identity));
  }

  lemma {:induction false} DeniedCheckElsewhere(
      v: View, w: View, identity: string, p: string, other: string, tables: seq<string>, columns: seq<string>)
    requires other != identity && DeniedHeld(v, w, Pair(identity, p))
    requires TablesDenied(v, other, tables) && ColumnsDenied(v, other, columns)
    ensures DenialCheckOver(w, tables, columns)(Single(other)) == []
  {
    TablesElsewhere(v, w, identity, p, other, tables);
    TablesExact(w, other, tables);
    ColumnsExact(w, other, columns);
  }

  lemma {:induction false} TablesElsewhere(
      v: View, w: View, identity: string, p: string, other: string, tables: seq<string>)
    requires other != identity && DeniedHeld(v, w, Pair(identity, p)) && TablesDenied(v, other, tables)
    ensures TablesDenied(w, other, tables)
  {
    forall q | q in tables
      ensures Pair(other, q) in w.tableAnswers && !w.tableAnswers[Pair(other, q)].held
    {
      assert Pair(other, q).first == other && Pair(identity, p).first == identity;
    }
  }

  lemma {:induction false} DeniedHeldRefused(m: Manifest, v: View, w: View, identity: string, p: string)
    requires RelationsDenied(m, v) && Single(identity) in DeniedRelationKeys(m) && p in DENIED_TABLE_PRIVILEGES
    requires DeniedHeld(v, w, Pair(identity, p))
    ensures DenialRefusals(m, w) == [DeniedPrivilegeHeld(identity, p)]
  {
    SortedKeysAscend(DeniedRelationKeys(m));
    DeniedKey(m, v, Single(identity));
    TablePrivilegesDistinct();
    DeniedCheckHere(v, w, identity, p, DENIED_TABLE_PRIVILEGES, COLUMN_LEVEL_PRIVILEGES);
    forall key | key in SortedKeys(DeniedRelationKeys(m)) && key != Single(identity)
      ensures DenialCheck(w)(key) == []
    {
      DeniedKey(m, v, key);
      DeniedCheckElsewhere(v, w, identity, p, key.first, DENIED_TABLE_PRIVILEGES, COLUMN_LEVEL_PRIVILEGES);
    }
    CollectSingle(SortedKeys(DeniedRelationKeys(m)), DenialCheck(w), Single(identity));
  }

  lemma {:induction false} DeniedKey(m: Manifest, v: View, key: Key)
    requires RelationsDenied(m, v) && key in DeniedRelationKeys(m)
    ensures key == Single(key.first) && RelationDenied(v, key.first)
  {
    var row :| row in m.rows && row.disposition.Denied? && row.objectKind == KIND_RELATION
               && key == Key(0, row.identity, "", "");
    assert RelationDenied(v, row.identity);
  }

  lemma {:induction false} DeniedHeldReported(c: Contract, m: Manifest, v: View, w: View, identity: string, p: string)
    requires ViewSound(c, m, v) && Single(identity) in DeniedRelationKeys(m) && p in DENIED_TABLE_PRIVILEGES
    requires DeniedHeld(v, w, Pair(identity, p))
    ensures ViewReports(c, m, w, DeniedPrivilegeHeld(identity, p))
  {
    SameObjects(m, v, w);
    SamePrivileges(m, v, w);
    DeniedHeldRefused(m, v, w, identity, p);
    SameExecuteAnswers(c, m, v, w);
  }

  /** Any one of the seven table privileges held on a denied relation is one refusal. */
  lemma {:induction false} DeniedHeldSeenOnce(c: Contract, m: Manifest, s: Snapshot, identity: string, p: string)
    requires SoundBesidesBaseline(c, m, s)
    requires Single(identity) in DeniedRelationKeys(m) && p in DENIED_TABLE_PRIVILEGES
    ensures RefusesExactly(c, m, WithDeniedHeld(m, s, Pair(identity, p)), DeniedPrivilegeHeld(identity, p))
  {
    var s' := WithDeniedHeld(m, s, Pair(identity, p));
    DeniedHeldView(m, s, Pair(identity, p));
    DeniedHeldReported(c, m, ViewOf(m, s), ViewOf(m, s'), identity, p);
    SameRoles(c, m, s, s');
    OneRefusal(c, m, s', ViewOf(m, s'), DeniedPrivilegeHeld(identity, p));
  }

  // ----- one effective EXECUTE answer

  function Executing(key: Key, held: bool): ObservedExecute -> ObservedExecute {
    (e: ObservedExecute) => if ExecuteKey()(e) == key then e.(held := held) else e
  }

  function WithExecute(s: Snapshot, key: Key, held: bool): Snapshot {
    s.(deniedFunctionExecute := Map(s.deniedFunctionExecute, Executing(key, held)))
  }

  ghost predicate ExecuteChanged(v: View, w: View, key: Key, held: bool) {
    && w.executeAnswers.Keys == v.executeAnswers.Keys
    && (forall k :: k in v.executeAnswers ==>
          w.executeAnswers[k] == if k == key then v.executeAnswers[k].(held := held) else v.executeAnswers[k])
    && w.objects == v.objects && w.privileges == v.privileges && w.tableAnswers == v.tableAnswers
    && w.columnAnswers == v.columnAnswers
  }

  lemma {:induction false} ExecuteView(m: Manifest, s: Snapshot, key: Key, held: bool)
    ensures ExecuteChanged(ViewOf(m, s), ViewOf(m, WithExecute(s, key, held)), key, held)
  {
    IndexByRewrite(s.deniedFunctionExecute, ExecuteKey(), Executing(key, held));
    IndexByKeys(s.deniedFunctionExecute, ExecuteKey());
  }

  /** What the guard says when the answer for one wanted role turns over. */
  function ExecuteRefusal(m: Manifest, identity: string, role: string): Violation {
    if role == PUBLIC_PSEUDO_ROLE then PublicExecuteInherited(identity)
    else if role == m.targetRole then DeniedExecuteHeld(identity)
    else ExecutorCannotExecute(identity, role)
  }

  lemma {:induction false} WantedApart(c: Contract, m: Manifest, v: View, row: GrantRow)
    requires FunctionSealed(c, m, v, row) && m.targetRole != PUBLIC_PSEUDO_ROLE
    ensures Distinct(WantedRoles(m, c.executors[row.identity]))
    ensures forall role :: role in WantedRoles(m, c.executors[row.identity]) ==>
                             Answered(v, row.identity, role, role != m.targetRole && role != PUBLIC_PSEUDO_ROLE)
  {
    forall role
      ensures role in WantedRoles(m, c.executors[row.identity]) <==>
              role == m.targetRole || role == PUBLIC_PSEUDO_ROLE
              || (c.executors[row.identity] != NO_RUNTIME_EXECUTOR && role == c.executors[row.identity])
    {
      WantedMembers(m, c.executors[row.identity], role);
    }
  }

  lemma {:induction false} ExecuteFlipRefused(c: Contract, m: Manifest, v: View, w: View, row: GrantRow, role: string)
    requires FunctionSealed(c, m, v, row) && m.targetRole != PUBLIC_PSEUDO_ROLE
    requires role in WantedRoles(m, c.executors[row.identity])
    requires ExecuteChanged(v, w, Pair(row.identity, role), role == m.targetRole || role == PUBLIC_PSEUDO_ROLE)
    ensures FunctionCheck(c, m, w)(row) == [ExecuteRefusal(m, row.identity, role)]
  {
    var executor := c.executors[row.identity];
    var check := ExecuteCheck(m, w, row.identity, executor);
    WantedApart(c, m, v, row);
    forall other | other in WantedRoles(m, executor)
      ensures check(other) == if other == role then [ExecuteRefusal(m, row.identity, role)] else []
    {
      WantedMembers(m, executor, other);
      assert Answered(v, row.identity, other, other != m.targetRole && other != PUBLIC_PSEUDO_ROLE);
    }
    CollectSingle(WantedRoles(m, executor), check, role);
  }

  lemma {:induction false} OtherFunctionsSilent(
      c: Contract, m: Manifest, v: View, w: View, row: GrantRow, identity: string, role: string, held: bool)
    requires FunctionSealed(c, m, v, row) && row.identity != identity
             && ExecuteChanged(v, w, Pair(identity, role), held)
    ensures FunctionCheck(c, m, w)(row) == []
  {
    assert FunctionSealed(c, m, w, row);
    FunctionCheckExact(c, m, w, row);
  }

  /** No two denied rows name one function. */
  ghost predicate OneRowPerFunction(m: Manifest) {
    var denied := DeniedFunctions(m);
    forall i, j :: 0 <= i < j < |denied| ==> denied[i].identity != denied[j].identity
  }

  lemma {:induction false} FunctionAfterFlip(
      c: Contract, m: Manifest, v: View, w: View, row: GrantRow, role: string, other: GrantRow)
    requires FunctionSealed(c, m, v, row) && FunctionSealed(c, m, v, other) && m.targetRole != PUBLIC_PSEUDO_ROLE
    requires other == row || other.identity != row.identity
    requires role in WantedRoles(m, c.executors[row.identity])
    requires ExecuteChanged(v, w, Pair(row.identity, role), role == m.targetRole || role == PUBLIC_PSEUDO_ROLE)
    ensures FunctionCheck(c, m, w)(other) == if other == row then [ExecuteRefusal(m, row.identity, role)] else []
  {
    if other == row {
      ExecuteFlipRefused(c, m, v, w, row, role);
    } else {
      OtherFunctionsSilent(c, m, v, w, other, row.identity, role, role == m.targetRole || role == PUBLIC_PSEUDO_ROLE);
    }
  }

  lemma {:induction false} OtherFunction(m: Manifest, row: GrantRow, other: GrantRow)
    requires OneRowPerFunction(m) && row in DeniedFunctions(m) && other in DeniedFunctions(m)
    ensures other == row || other.identity != row.identity
  {
    var denied := DeniedFunctions(m);
    var i :| 0 <= i < |denied| && denied[i] == row;
    var j :| 0 <= j < |denied| && denied[j] == other;
  }

  lemma {:induction false} ExecuteFlipCollected(c: Contract, m: Manifest, v: View, w: View, row: GrantRow, role: string)
    requires FunctionsSealed(c, m, v) && m.targetRole != PUBLIC_PSEUDO_ROLE && OneRowPerFunction(m)
    requires row in DeniedFunctions(m) && row.identity in c.executors
             && role in WantedRoles(m, c.executors[row.identity])
    requires ExecuteChanged(v, w, Pair(row.identity, role), role == m.targetRole || role == PUBLIC_PSEUDO_ROLE)
    ensures FunctionRefusals(c, m, w) == Success([ExecuteRefusal(m, row.identity, role)])
  {
    var denied := DeniedFunctions(m);
    var check := FunctionCheck(c, m, w);
    assert Distinct(denied);
    SortByDistinct(denied, SortKey());
    UnknownSectionExact(denied);
    assert FunctionSealed(c, m, v, row);
    forall other | other in denied
      ensures KnownSection(other.section)
      ensures check(other) == if other == row then [ExecuteRefusal(m, row.identity, role)] else []
    {
      assert FunctionSealed(c, m, v, other);
      OtherFunction(m, row, other);
      FunctionAfterFlip(c, m, v, w, row, role, other);
    }
    FunctionParts(c, m, w, row);
  }

  lemma {:induction false} FunctionParts(c: Contract, m: Manifest, w: View, row: GrantRow)
    requires Distinct(SortBy(DeniedFunctions(m), SortKey())) && row in DeniedFunctions(m)
    requires FirstUnknownSection(DeniedFunctions(m)).None?
    requires forall other :: other in DeniedFunctions(m) && other != row ==> FunctionCheck(c, m, w)(other) == []
    ensures FunctionRefusals(c, m, w) == Success(FunctionCheck(c, m, w)(row))
  {
    CollectSingle(SortBy(DeniedFunctions(m), SortKey()), FunctionCheck(c, m, w), row);
  }

  lemma {:induction false} ExecuteFlipReported(c: Contract, m: Manifest, v: View, w: View, row: GrantRow, role: string)
    requires ViewSound(c, m, v) && m.targetRole != PUBLIC_PSEUDO_ROLE && OneRowPerFunction(m)
    requires row in DeniedFunctions(m) && row.identity in c.executors
             && role in WantedRoles(m, c.executors[row.identity])
    requires ExecuteChanged(v, w, Pair(row.identity, role), role == m.targetRole || role == PUBLIC_PSEUDO_ROLE)
    ensures ViewReports(c, m, w, ExecuteRefusal(m, row.identity, role))
  {
    SameObjects(m, v, w);
    SamePrivileges(m, v, w);
    SameRelationAnswers(m, v, w);
    ExecuteFlipCollected(c, m, v, w, row, role);
  }

  /** The snapshot in which the answer for one wanted role of a denied function turns over. */
  function WithTurnedAnswer(m: Manifest, s: Snapshot, identity: string, role: string): Snapshot {
    WithExecute(s, Pair(identity, role), role == m.targetRole || role == PUBLIC_PSEUDO_ROLE)
  }

  lemma {:induction false} TurnedAnswerReported(c: Contract, m: Manifest, s: Snapshot, row: GrantRow, role: string)
    requires ViewSound(c, m, ViewOf(m, s)) && m.targetRole != PUBLIC_PSEUDO_ROLE && OneRowPerFunction(m)
    requires row in DeniedFunctions(m) && row.identity in c.executors
             && role in WantedRoles(m, c.executors[row.identity])
    ensures ViewReports(c, m, ViewOf(m, WithTurnedAnswer(m, s, row.identity, role)),
                        ExecuteRefusal(m, row.identity, role))
  {
    ExecuteView(m, s, Pair(row.identity, role), role == m.targetRole || role == PUBLIC_PSEUDO_ROLE);
    ExecuteFlipReported(c, m, ViewOf(m, s), ViewOf(m, WithTurnedAnswer(m, s, row.identity, role)), row, role);
  }

  /** The tenant role or PUBLIC gaining EXECUTE, or the executor losing it, is one refusal. */
  lemma {:induction false} ExecuteFlipSeenOnce(c: Contract, m: Manifest, s: Snapshot, row: GrantRow, role: string)
    requires SoundBesidesBaseline(c, m, s) && m.targetRole != PUBLIC_PSEUDO_ROLE && OneRowPerFunction(m)
    requires row in DeniedFunctions(m) && row.identity in c.executors
             && role in WantedRoles(m, c.executors[row.identity])
    ensures RefusesExactly(c, m, WithTurnedAnswer(m, s, row.identity, role), ExecuteRefusal(m, row.identity, role))
  {
    var s' := WithTurnedAnswer(m, s, row.identity, role);
    TurnedAnswerReported(c, m, s, row, role);
    SameRoles(c, m, s, s');
    OneRefusal(c, m, s', ViewOf(m, s'), ExecuteRefusal(m, row.identity, role));
  }
}
