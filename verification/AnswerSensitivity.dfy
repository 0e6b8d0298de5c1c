/**
 An answer that is missing, and a privilege nobody listed, are seen once too
 (app/privilege_manifest.py).
 */
module AnswerSensitivity {
  import opened Collections
  import opened PrivilegeManifest
  import opened CutoverGuard
  import opened GuardExactness
  import opened CleanSnapshots
  import opened Sensitivity

  // ----- dictionaries without a key

  ghost predicate Lost<K, V>(before: map<K, V>, after: map<K, V>, k: K) {
    && after.Keys == before.Keys - {k}
    && forall other :: other in after ==> after[other] == before[other]
  }

  /** Leaving out the entries filed under a key leaves the key out of the dictionary. */
  lemma {:induction false} IndexByWithout<T(!new), K>(xs: seq<T>, key: T -> K, k: K, p: T -> bool)
    requires forall x :: p(x) == (key(x) != k)
    ensures Lost(IndexBy(xs, key), IndexBy(Filter(xs, p), key), k)
  {
    if xs != [] {
      var init, last := xs[..|xs| - 1], xs[|xs| - 1];
      IndexByWithout(init, key, k, p);
      if p(last) {
        assert (Filter(init, p) + [last])[..|Filter(init, p)|] == Filter(init, p);
      }
    }
  }

  lemma {:induction false} FilterTwice<T(!new)>(xs: seq<T>, p: T -> bool, q: T -> bool, r: T -> bool)
    requires forall x :: q(x) ==> p(x) == r(x)
    ensures Filter(Filter(xs, p), q) == Filter(Filter(xs, q), r)
  {
    if xs != [] {
      var init, last := xs[..|xs| - 1], xs[|xs| - 1];
      FilterTwice(init, p, q, r);
      FilterSnoc(Filter(init, p), last, q);
      FilterSnoc(Filter(init, q), last, r);
    }
  }

  function PrivilegesBut(key: Key): ObservedPrivilege -> bool { (e: ObservedPrivilege) => PrivilegeKey()(e) != key }

  function TargetBut(m: Manifest, key: Key): ObservedPrivilege -> bool {
    (e: ObservedPrivilege) => !(e.role == m.targetRole && PrivilegeKey()(e) == key)
  }

  // ----- no answer for a listed privilege

  function WithoutAnswer(m: Manifest, s: Snapshot, key: Key): Snapshot {
    s.(privileges := Filter(s.privileges, TargetBut(m, key)))
  }

  ghost predicate AnswerMissing(v: View, w: View, key: Key) {
    && Lost(v.privileges, w.privileges, key) && w.objects == v.objects && w.tableAnswers == v.tableAnswers
    && w.columnAnswers == v.columnAnswers && w.executeAnswers == v.executeAnswers
  }

  lemma {:induction false} MissingView(m: Manifest, s: Snapshot, key: Key)
    ensures AnswerMissing(ViewOf(m, s), ViewOf(m, WithoutAnswer(m, s, key)), key)
  {
    FilterTwice(s.privileges, TargetBut(m, key), OfTargetUndenied(m), PrivilegesBut(key));
    IndexByWithout(Filter(s.privileges, OfTargetUndenied(m)), PrivilegeKey(), key, PrivilegesBut(key));
  }

  lemma {:induction false} MissingExpected(m: Manifest, v: View, w: View, key: Key)
    requires ObjectsIntact(m, v) && GrantsHeld(m, v) && key in ExpectedKeys(m) && AnswerMissing(v, w, key)
    ensures ExpectedRefusals(m, w) == [UnobservedPrivilege(key.first, key.second)]
  {
    var keys := SortedKeys(ExpectedKeys(m));
    SortedKeysAscend(ExpectedKeys(m));
    forall k | k in keys
      ensures ExpectedCheck(w)(k) == if k == key then [UnobservedPrivilege(key.first, key.second)] else []
    {
      NothingVanished(m, v, k);
      assert HeldDirectly(v, k);
    }
    CollectSingle(keys, ExpectedCheck(w), key);
  }

  lemma {:induction false} MissingLeavesExtras(m: Manifest, v: View, w: View, key: Key)
    requires NothingUnlisted(m, v) && key in ExpectedKeys(m) && AnswerMissing(v, w, key)
    ensures NothingUnlisted(m, w)
  {
    assert forall k :: k in w.privileges ==> IsExtra(m, w)(k) == IsExtra(m, v)(k);
    assert !IsExtra(m, v)(key);
    forall scope
      ensures UnlistedIn(m, w, scope) == UnlistedIn(m, v, scope)
    {
    }
  }

  /** A listed privilege without an answer is one refusal. */
  lemma {:induction false} MissingAnswerSeenOnce(c: Contract, m: Manifest, s: Snapshot, key: Key)
    requires SoundBesidesBaseline(c, m, s) && key in ExpectedKeys(m)
    ensures RefusesExactly(c, m, WithoutAnswer(m, s, key), UnobservedPrivilege(key.first, key.second))
  {
    var s' := WithoutAnswer(m, s, key);
    var v, w := ViewOf(m, s), ViewOf(m, s');
    MissingView(m, s, key);
    SameObjects(m, v, w);
    MissingExpected(m, v, w, key);
    MissingLeavesExtras(m, v, w, key);
    ExtrasSilent(m, w);
    PrivilegeParts(m, w, [UnobservedPrivilege(key.first, key.second)], []);
    SameRelationAnswers(m, v, w);
    SameExecuteAnswers(c, m, v, w);
    SameRoles(c, m, s, s');
    OneRefusal(c, m, s', w, UnobservedPrivilege(key.first, key.second));
  }

  lemma {:induction false} MissingAnswerIsCaught(c: Contract, m: Manifest, row: GrantRow)
    requires WellFormed(c, m) && row in m.rows && !row.disposition.Denied?
    ensures RefusesExactly(c, m, WithoutAnswer(m, CleanSnapshot(c, m), Pair(row.identity, row.privilege)),
                           UnobservedPrivilege(row.identity, row.privilege))
  {
    CleanIsSound(c, m);
    MissingAnswerSeenOnce(c, m, CleanSnapshot(c, m), Pair(row.identity, row.privilege));
  }

  // ----- no answer for an object

  function ObjectsBut(identity: string): ObservedObject -> bool { (e: ObservedObject) => ObjectKey()(e) != identity }

  function WithoutObservation(s: Snapshot, identity: string): Snapshot {
    s.(objects := Filter(s.objects, ObjectsBut(identity)))
  }

  ghost predicate ObjectMissing(v: View, w: View, identity: string) {
    && Lost(v.objects, w.objects, identity) && w.privileges == v.privileges && w.tableAnswers == v.tableAnswers
    && w.columnAnswers == v.columnAnswers && w.executeAnswers == v.executeAnswers
  }

  lemma {:induction false} ObjectMissingRefused(m: Manifest, v: View, w: View, row: GrantRow)
    requires ObjectsIntact(m, v) && row in FirstRows(m.rows) && ObjectMissing(v, w, row.identity)
    ensures ObjectRefusals(m, w) == [UnobservedObject(row.identity)]
  {
    FirstRowsCover(m.rows);
    assert Distinct(FirstRows(m.rows));
    forall other | other in FirstRows(m.rows)
      ensures ObjectCheck(w.objects)(other) == if other == row then [UnobservedObject(row.identity)] else []
    {
      assert ObjectIntact(v, other);
      if other.identity == row.identity {
        FirstRowPerIdentity(m.rows, other, row);
      }
    }
    CollectSingle(FirstRows(m.rows), ObjectCheck(w.objects), row);
  }

  lemma {:induction false} ObjectMissingElsewhere(m: Manifest, v: View, w: View, identity: string)
    requires GrantsHeld(m, v) && NothingUnlisted(m, v) && OwnersUnchanged(m, v) && ObjectMissing(v, w, identity)
    requires ObjectsIntact(m, v)
    ensures PrivilegeRefusals(m, w) == Success([]) && OwnershipRefusals(m, w) == []
  {
    CollectEmpty(SortedKeys(ExpectedKeys(m)), ExpectedCheck(w));
    forall key | key in ExpectedKeys(m)
      ensures ExpectedCheck(w)(key) == []
    {
      NothingVanished(m, v, key);
      assert HeldDirectly(v, key);
    }
    ExtrasUntouched(m, v, w);
    ExtrasSilent(m, v);
    PrivilegeParts(m, w, [], []);
    OwnershipExact(m, w);
  }

  /** An object nobody looked at is one refusal. */
  lemma {:induction false} MissingObjectSeenOnce(c: Contract, m: Manifest, s: Snapshot, row: GrantRow)
    requires SoundBesidesBaseline(c, m, s) && row in FirstRows(m.rows)
    ensures RefusesExactly(c, m, WithoutObservation(s, row.identity), UnobservedObject(row.identity))
  {
    var s' := WithoutObservation(s, row.identity);
    var v, w := ViewOf(m, s), ViewOf(m, s');
    IndexByWithout(s.objects, ObjectKey(), row.identity, ObjectsBut(row.identity));
    ObjectMissingRefused(m, v, w, row);
    ObjectMissingElsewhere(m, v, w, row.identity);
    SameRelationAnswers(m, v, w);
    SameExecuteAnswers(c, m, v, w);
    SameRoles(c, m, s, s');
    OneRefusal(c, m, s', w, UnobservedObject(row.identity));
  }

  lemma {:induction false} MissingObjectIsCaught(c: Contract, m: Manifest, row: GrantRow)
    requires WellFormed(c, m) && row in FirstRows(m.rows)
    ensures RefusesExactly(c, m, WithoutObservation(CleanSnapshot(c, m), row.identity), UnobservedObject(row.identity))
  {
    CleanIsSound(c, m);
    MissingObjectSeenOnce(c, m, CleanSnapshot(c, m), row);
  }

  // ----- no answer on a denied relation

  function WithoutDenial(m: Manifest, s: Snapshot, key: Key): Snapshot {
    s.(deniedPrivileges := Filter(s.deniedPrivileges, TargetBut(m, key)))
  }

  ghost predicate DenialMissing(v: View, w: View, key: Key) {
    && Lost(v.tableAnswers, w.tableAnswers, key) && w.objects == v.objects && w.privileges == v.privileges
    && w.columnAnswers == v.columnAnswers && w.executeAnswers == v.executeAnswers
  }

  lemma {:induction false} DenialMissingView(m: Manifest, s: Snapshot, key: Key)
    ensures DenialMissing(ViewOf(m, s), ViewOf(m, WithoutDenial(m, s, key)), key)
  {
    FilterTwice(s.deniedPrivileges, TargetBut(m, key), OfTarget(m), PrivilegesBut(key));
    IndexByWithout(Filter(s.deniedPrivileges, OfTarget(m)), PrivilegeKey(), key, PrivilegesBut(key));
  }

  lemma {:induction false} DenialMissingHere(
      v: View, w: View, identity: string, p: string, tables: seq<string>, columns: seq<string>)
    requires Distinct(tables) && p in tables && DenialMissing(v, w, Pair(identity, p))
    requires TablesDenied(v, identity, tables) && ColumnsDenied(v, identity, columns)
    ensures DenialCheckOver(w, tables, columns)(Single(identity)) == [UnprobedDenial(identity, p)]
  {
    CollectSingle(tables, TableCheck(w, identity), p);
    ColumnsStaySilent(v, w, identity, columns);
    assert DenialCheckOver(w, tables, columns)(Single(identity)) ==
           Collect(tables, TableCheck(w, identity)) + Collect(columns, ColumnCheck(w, identity));
  }

  lemma {:induction false} TablesStayDenied(v: View, w: View, key: Key, other: string, tables: seq<string>)
    requires other != key.first && DenialMissing(v, w, key) && TablesDenied(v, other, tables)
    ensures TablesDenied(w, other, tables)
  {
    forall q | q in tables
      ensures Pair(other, q) in w.tableAnswers && !w.tableAnswers[Pair(other, q)].held
    {
      assert Pair(other, q).first == other;
    }
  }

  lemma {:induction false} DenialMissingElsewhere(
      v: View, w: View, key: Key, other: string, tables: seq<string>, columns: seq<string>)
    requires other != key.first && DenialMissing(v, w, key)
    requires TablesDenied(v, other, tables) && ColumnsDenied(v, other, columns)
    ensures DenialCheckOver(w, tables, columns)(Single(other)) == []
  {
    TablesStayDenied(v, w, key, other, tables);
    TablesExact(w, other, tables);
    ColumnsStaySilent(v, w, other, columns);
  }

  lemma {:induction false} DenialMissingRefused(m: Manifest, v: View, w: View, identity: string, p: string)
    requires RelationsDenied(m, v) && Single(identity) in DeniedRelationKeys(m) && p in DENIED_TABLE_PRIVILEGES
    requires DenialMissing(v, w, Pair(identity, p))
    ensures DenialRefusals(m, w) == [UnprobedDenial(identity, p)]
  {
    SortedKeysAscend(DeniedRelationKeys(m));
    DeniedKey(m, v, Single(identity));
    TablePrivilegesDistinct();
    DenialMissingHere(v, w, identity, p, DENIED_TABLE_PRIVILEGES, COLUMN_LEVEL_PRIVILEGES);
    forall key | key in SortedKeys(DeniedRelationKeys(m)) && key != Single(identity)
      ensures DenialCheck(w)(key) == []
    {
      DeniedKey(m, v, key);
      DenialMissingElsewhere(v, w, Pair(identity, p), key.first, DENIED_TABLE_PRIVILEGES, COLUMN_LEVEL_PRIVILEGES);
    }
    CollectSingle(SortedKeys(DeniedRelationKeys(m)), DenialCheck(w), Single(identity));
  }

  /** A table privilege of a denied relation without an answer is one refusal. */
  lemma {:induction false} MissingDenialSeenOnce(c: Contract, m: Manifest, s: Snapshot, identity: string, p: string)
    requires SoundBesidesBaseline(c, m, s)
    requires Single(identity) in DeniedRelationKeys(m) && p in DENIED_TABLE_PRIVILEGES
    ensures RefusesExactly(c, m, WithoutDenial(m, s, Pair(identity, p)), UnprobedDenial(identity, p))
  {
    var s' := WithoutDenial(m, s, Pair(identity, p));
    var v, w := ViewOf(m, s), ViewOf(m, s');
    DenialMissingView(m, s, Pair(identity, p));
    SameObjects(m, v, w);
    SamePrivileges(m, v, w);
    DenialMissingRefused(m, v, w, identity, p);
    SameExecuteAnswers(c, m, v, w);
    SameRoles(c, m, s, s');
    OneRefusal(c, m, s', w, UnprobedDenial(identity, p));
  }

  lemma {:induction false} MissingDenialIsCaught(c: Contract, m: Manifest, identity: string, p: string)
    requires WellFormed(c, m) && Single(identity) in DeniedRelationKeys(m) && p in DENIED_TABLE_PRIVILEGES
    ensures RefusesExactly(c, m, WithoutDenial(m, CleanSnapshot(c, m), Pair(identity, p)), UnprobedDenial(identity, p))
  {
    CleanIsSound(c, m);
    MissingDenialSeenOnce(c, m, CleanSnapshot(c, m), identity, p);
  }

  // ----- no EXECUTE answer

  function ExecuteBut(key: Key): ObservedExecute -> bool { (e: ObservedExecute) => ExecuteKey()(e) != key }

  function WithoutExecute(s: Snapshot, key: Key): Snapshot {
    s.(deniedFunctionExecute := Filter(s.deniedFunctionExecute, ExecuteBut(key)))
  }

  ghost predicate ExecuteMissing(v: View, w: View, key: Key) {
    && Lost(v.executeAnswers, w.executeAnswers, key) && w.objects == v.objects && w.privileges == v.privileges
    && w.tableAnswers == v.tableAnswers && w.columnAnswers == v.columnAnswers
  }

  lemma {:induction false} ExecuteMissingHere(c: Contract, m: Manifest, v: View, w: View, row: GrantRow, role: string)
    requires FunctionSealed(c, m, v, row) && m.targetRole != PUBLIC_PSEUDO_ROLE
    requires role in WantedRoles(m, c.executors[row.identity]) && ExecuteMissing(v, w, Pair(row.identity, role))
    ensures FunctionCheck(c, m, w)(row) == [UnprobedExecuteDenial(row.identity, role)]
  {
    var executor := c.executors[row.identity];
    var check := ExecuteCheck(m, w, row.identity, executor);
    WantedApart(c, m, v, row);
    forall other | other in WantedRoles(m, executor)
      ensures check(other) == if other == role then [UnprobedExecuteDenial(row.identity, role)] else []
    {
      WantedMembers(m, executor, other);
      assert Answered(v, row.identity, other, other != m.targetRole && other != PUBLIC_PSEUDO_ROLE);
    }
    CollectSingle(WantedRoles(m, executor), check, role);
  }

  lemma {:induction false} ExecuteMissingElsewhere(
      c: Contract, m: Manifest, v: View, w: View, key: Key, other: GrantRow)
    requires FunctionSealed(c, m, v, other) && other.identity != key.first && ExecuteMissing(v, w, key)
    ensures FunctionCheck(c, m, w)(other) == []
  {
    assert FunctionSealed(c, m, w, other);
    FunctionCheckExact(c, m, w, other);
  }

  lemma {:induction false} ExecuteMissingRefused(
      c: Contract, m: Manifest, v: View, w: View, row: GrantRow, role: string)
    requires FunctionsSealed(c, m, v) && m.targetRole != PUBLIC_PSEUDO_ROLE && OneRowPerFunction(m)
    requires row in DeniedFunctions(m) && row.identity in c.executors
             && role in WantedRoles(m, c.executors[row.identity])
    requires ExecuteMissing(v, w, Pair(row.identity, role))
    ensures FunctionRefusals(c, m, w) == Success([UnprobedExecuteDenial(row.identity, role)])
  {
    var denied := DeniedFunctions(m);
    assert Distinct(denied);
    SortByDistinct(denied, SortKey());
    UnknownSectionExact(denied);
    assert FunctionSealed(c, m, v, row);
    forall other | other in denied
      ensures KnownSection(other.section) && (other != row ==> FunctionCheck(c, m, w)(other) == [])
    {
      assert FunctionSealed(c, m, v, other);
      OtherFunction(m, row, other);
      if other != row {
        ExecuteMissingElsewhere(c, m, v, w, Pair(row.identity, role), other);
      }
    }
    ExecuteMissingHere(c, m, v, w, row, role);
    FunctionParts(c, m, w, row);
  }

  /** A wanted role without an EXECUTE answer on a denied function is one refusal. */
  lemma {:induction false} MissingExecuteSeenOnce(c: Contract, m: Manifest, s: Snapshot, row: GrantRow, role: string)
    requires SoundBesidesBaseline(c, m, s) && m.targetRole != PUBLIC_PSEUDO_ROLE && OneRowPerFunction(m)
    requires row in DeniedFunctions(m) && row.identity in c.executors
             && role in WantedRoles(m, c.executors[row.identity])
    ensures RefusesExactly(c, m, WithoutExecute(s, Pair(row.identity, role)), UnprobedExecuteDenial(row.identity, role))
  {
    var s' := WithoutExecute(s, Pair(row.identity, role));
    var v, w := ViewOf(m, s), ViewOf(m, s');
    IndexByWithout(s.deniedFunctionExecute, ExecuteKey(), Pair(row.identity, role),
                   ExecuteBut(Pair(row.identity, role)));
    SameObjects(m, v, w);
    SamePrivileges(m, v, w);
    SameRelationAnswers(m, v, w);
    ExecuteMissingRefused(c, m, v, w, row, role);
    SameRoles(c, m, s, s');
    OneRefusal(c, m, s', w, UnprobedExecuteDenial(row.identity, role));
  }

  lemma {:induction false} MissingExecuteIsCaught(c: Contract, m: Manifest, row: GrantRow, role: string)
    requires WellFormed(c, m) && m.targetRole != PUBLIC_PSEUDO_ROLE && OneRowPerFunction(m)
    requires row in DeniedFunctions(m) && role in WantedRoles(m, c.executors[row.identity])
    ensures RefusesExactly(c, m, WithoutExecute(CleanSnapshot(c, m), Pair(row.identity, role)),
                           UnprobedExecuteDenial(row.identity, role))
  {
    CleanIsSound(c, m);
    MissingExecuteSeenOnce(c, m, CleanSnapshot(c, m), row, role);
  }

  // ----- a privilege nobody listed

  /** The tenant role also holds `key`. */
  function WithAdded(m: Manifest, s: Snapshot, key: Key, origin: string): Snapshot {
    s.(privileges := s.privileges + [ObservedPrivilege(key.first, m.targetRole, key.second, true, origin)])
  }

  ghost predicate Gained(v: View, w: View, key: Key) {
    && w.privileges.Keys == v.privileges.Keys + {key} && w.privileges[key].held
    && (forall k :: k in v.privileges && k != key ==> w.privileges[k] == v.privileges[k])
    && w.objects == v.objects && w.tableAnswers == v.tableAnswers && w.columnAnswers == v.columnAnswers
    && w.executeAnswers == v.executeAnswers
  }

  /** Neither listed nor denied, and not held before. */
  ghost predicate Unlisted(m: Manifest, v: View, key: Key) {
    && key == Pair(key.first, key.second) && key !in ExpectedKeys(m) && key.first !in DeniedIdentities(m)
    && !(key in v.privileges && v.privileges[key].held) && IdentitySchema(key.first).Some?
  }

  lemma {:induction false} IndexBySnoc<T, K>(xs: seq<T>, x: T, key: T -> K)
    ensures IndexBy(xs + [x], key) == IndexBy(xs, key)[key(x) := x]
  {
    assert (xs + [x])[..|xs|] == xs;
  }

  lemma {:induction false} GainedView(m: Manifest, s: Snapshot, key: Key, origin: string)
    requires Unlisted(m, ViewOf(m, s), key)
    ensures Gained(ViewOf(m, s), ViewOf(m, WithAdded(m, s, key, origin)), key)
  {
    var e := ObservedPrivilege(key.first, m.targetRole, key.second, true, origin);
    FilterSnoc(s.privileges, e, OfTargetUndenied(m));
    IndexBySnoc(Filter(s.privileges, OfTargetUndenied(m)), e, PrivilegeKey());
    assert ViewOf(m, WithAdded(m, s, key, origin)).privileges == ViewOf(m, s).privileges[key := e];
  }

  lemma {:induction false} GainedExpected(m: Manifest, v: View, w: View, key: Key)
    requires ObjectsIntact(m, v) && GrantsHeld(m, v) && key !in ExpectedKeys(m) && Gained(v, w, key)
    ensures ExpectedRefusals(m, w) == [] && ObjectsIntact(m, w)
  {
    forall row | row in FirstRows(m.rows)
      ensures ObjectIntact(w, row)
    {
      assert ObjectIntact(v, row);
    }
    forall k | k in ExpectedKeys(m)
      ensures HeldDirectly(w, k)
    {
      assert HeldDirectly(v, k);
    }
    ExpectedExact(m, w);
  }

  ghost function SchemaOf(key: Key): string
    requires IdentitySchema(key.first).Some?
  {
    IdentitySchema(key.first).value
  }

  lemma {:induction false} GainedIsExtra(m: Manifest, v: View, w: View, key: Key)
    requires Unlisted(m, v, key) && Gained(v, w, key)
    ensures IsExtra(m, w)(key) && !(key in v.privileges && IsExtra(m, v)(key))
    ensures forall k :: k in v.privileges && k != key ==> IsExtra(m, w)(k) == IsExtra(m, v)(k)
  {
  }

  lemma {:induction false} GainedMembers(m: Manifest, v: View, w: View, key: Key, scope: string, k: Key)
    requires Unlisted(m, v, key) && Gained(v, w, key)
    ensures k in UnlistedIn(m, w, scope) <==> k in UnlistedIn(m, v, scope) || (k == key && scope == SchemaOf(key))
    ensures key !in UnlistedIn(m, v, scope)
  {
    GainedIsExtra(m, v, w, key);
  }

  lemma {:induction false} OneMoreMember(s: set<Key>, t: set<Key>, key: Key, more: bool)
    requires key !in s && forall k :: k in t <==> k in s || (k == key && more)
    ensures |t| == |s| + if more then 1 else 0
  {
    assert t == if more then s + {key} else s;
  }

  lemma {:induction false} GainedCounts(m: Manifest, v: View, w: View, key: Key, scope: string)
    requires Unlisted(m, v, key) && Gained(v, w, key)
    ensures |UnlistedIn(m, w, scope)| == |UnlistedIn(m, v, scope)| + if scope == SchemaOf(key) then 1 else 0
  {
    forall k
      ensures k in UnlistedIn(m, w, scope) <==> k in UnlistedIn(m, v, scope) || (k == key && scope == SchemaOf(key))
    {
      GainedMembers(m, v, w, key, scope, k);
    }
    GainedMembers(m, v, w, key, scope, key);
    OneMoreMember(UnlistedIn(m, v, scope), UnlistedIn(m, w, scope), key, scope == SchemaOf(key));
  }

  lemma {:induction false} ExtraIsSeen(m: Manifest, w: View, key: Key)
    ensures key in ExtraKeys(m, w) <==> key in w.privileges && IsExtra(m, w)(key)
    ensures Distinct(ExtraKeys(m, w))
  {
    SortedKeysAscend(w.privileges.Keys);
    FilterDistinct(SortedKeys(w.privileges.Keys), IsExtra(m, w));
  }

  lemma {:induction false} GainedAdds(m: Manifest, v: View, w: View, key: Key, preserved: map<string, int>)
    requires Unlisted(m, v, key) && Gained(v, w, key)
    requires FirstMalformed(ExtraKeys(m, v)).None? && Collect(ExtraKeys(m, v), AddedCheck(preserved)) == []
    ensures FirstMalformed(ExtraKeys(m, w)).None?
    ensures Collect(ExtraKeys(m, w), AddedCheck(preserved)) ==
            if SchemaOf(key) in preserved then [] else [PrivilegeAdded(key.first, key.second)]
  {
    GainedIsExtra(m, v, w, key);
    AddedExact(m, v, preserved);
    ExtraIsSeen(m, w, key);
    forall k | k in ExtraKeys(m, w) && k != key
      ensures IdentitySchema(k.first).Some? && AddedCheck(preserved)(k) == []
    {
      ExtraIsSeen(m, w, k);
    }
    MalformedExact(ExtraKeys(m, w));
    CollectSingle(ExtraKeys(m, w), AddedCheck(preserved), key);
  }

  /** `scope` holds one more than was reviewed, every other preserved schema what was. */
  ghost predicate OneMoreIn(extra: seq<Key>, preserved: map<string, int>, scope: string) {
    forall other :: other in preserved ==> CountIn(extra, other) == preserved[other] + if other == scope then 1 else 0
  }

  lemma {:induction false} LongScopeChecked(extra: seq<Key>, preserved: map<string, int>, scope: string, key: Key)
    requires OneMoreIn(extra, preserved, scope) && key in ScopeKeys(preserved)
    ensures key == Single(key.first) && key.first in preserved
    ensures ExclusionCheck(extra, preserved)(key) ==
            if key.first == scope then [ExclusionMoved(scope, preserved[scope] + 1, preserved[scope])] else []
  {
    var other :| other in preserved && key == Key(0, other, "", "");
  }

  lemma {:induction false} LongScope(extra: seq<Key>, preserved: map<string, int>, scope: string)
    requires OneMoreIn(extra, preserved, scope)
    ensures Collect(SortedKeys(ScopeKeys(preserved)), ExclusionCheck(extra, preserved)) ==
            if scope in preserved then [ExclusionMoved(scope, preserved[scope] + 1, preserved[scope])] else []
  {
    var scopes, check := SortedKeys(ScopeKeys(preserved)), ExclusionCheck(extra, preserved);
    SortedKeysAscend(ScopeKeys(preserved));
    forall key | key in scopes
      ensures key.first in preserved && key == Single(key.first)
      ensures check(key) ==
              if key.first == scope then [ExclusionMoved(scope, preserved[scope] + 1, preserved[scope])] else []
    {
      LongScopeChecked(extra, preserved, scope, key);
    }
    if scope in preserved {
      assert Single(scope) in scopes;
      CollectSingle(scopes, check, Single(scope));
    } else {
      CollectEmpty(scopes, check);
    }
  }

  lemma {:induction false} GainedCount(m: Manifest, v: View, w: View, key: Key, scope: string, count: int)
    requires Unlisted(m, v, key) && Gained(v, w, key) && |UnlistedIn(m, v, scope)| == count
    ensures CountIn(ExtraKeys(m, w), scope) == count + if scope == SchemaOf(key) then 1 else 0
  {
    ScopeCount(m, w, scope);
    GainedCounts(m, v, w, key, scope);
  }

  lemma {:induction false} GainedMoves(m: Manifest, v: View, w: View, key: Key, preserved: map<string, int>)
    requires Unlisted(m, v, key) && Gained(v, w, key)
    requires forall scope :: scope in preserved ==> |UnlistedIn(m, v, scope)| == preserved[scope]
    ensures OneMoreIn(ExtraKeys(m, w), preserved, SchemaOf(key))
  {
    forall scope | scope in preserved
      ensures CountIn(ExtraKeys(m, w), scope) == preserved[scope] + if scope == SchemaOf(key) then 1 else 0
    {
      GainedCount(m, v, w, key, scope, preserved[scope]);
    }
  }

  /** A preserved schema holds one more than was reviewed, or the privilege is reported itself. */
  function GainRefusalIn(preserved: map<string, int>, key: Key, scope: string): Violation {
    if scope in preserved then ExclusionMoved(scope, preserved[scope] + 1, preserved[scope])
    else PrivilegeAdded(key.first, key.second)
  }

  function GainRefusal(m: Manifest, key: Key): Violation
    requires IdentitySchema(key.first).Some?
  {
    GainRefusalIn(PreservedScopes(m), key, IdentitySchema(key.first).value)
  }

  lemma {:induction false} AddedOrMoved(extra: seq<Key>, preserved: map<string, int>, key: Key, scope: string)
    requires Collect(extra, AddedCheck(preserved)) ==
             if scope in preserved then [] else [PrivilegeAdded(key.first, key.second)]
    requires OneMoreIn(extra, preserved, scope)
    ensures ExtraRefusals(extra, preserved) == [GainRefusalIn(preserved, key, scope)]
  {
    LongScope(extra, preserved, scope);
  }

  lemma {:induction false} GainedExtras(m: Manifest, v: View, w: View, key: Key)
    requires NothingUnlisted(m, v) && Unlisted(m, v, key) && Gained(v, w, key)
    ensures FirstMalformed(ExtraKeys(m, w)).None?
    ensures ExtraRefusals(ExtraKeys(m, w), PreservedScopes(m)) == [GainRefusal(m, key)]
  {
    AddedExact(m, v, PreservedScopes(m));
    GainedAdds(m, v, w, key, PreservedScopes(m));
    GainedMoves(m, v, w, key, PreservedScopes(m));
    AddedOrMoved(ExtraKeys(m, w), PreservedScopes(m), key, SchemaOf(key));
  }

  lemma {:induction false} GainedPrivileges(m: Manifest, v: View, w: View, key: Key)
    requires ObjectsIntact(m, v) && GrantsHeld(m, v) && NothingUnlisted(m, v)
    requires Unlisted(m, v, key) && Gained(v, w, key)
    ensures PrivilegeRefusals(m, w) == Success([GainRefusal(m, key)])
  {
    GainedExpected(m, v, w, key);
    GainedExtras(m, v, w, key);
    PrivilegeParts(m, w, [], [GainRefusal(m, key)]);
  }

  /** A privilege nobody listed is one refusal. */
  lemma {:induction false} AddedPrivilegeSeenOnce(c: Contract, m: Manifest, s: Snapshot, key: Key, origin: string)
    requires SoundBesidesBaseline(c, m, s) && Unlisted(m, ViewOf(m, s), key)
    ensures RefusesExactly(c, m, WithAdded(m, s, key, origin), GainRefusal(m, key))
  {
    var s' := WithAdded(m, s, key, origin);
    var v, w := ViewOf(m, s), ViewOf(m, s');
    GainedView(m, s, key, origin);
    SameObjects(m, v, w);
    GainedPrivileges(m, v, w, key);
    SameRelationAnswers(m, v, w);
    SameExecuteAnswers(c, m, v, w);
    SameRoles(c, m, s, s');
    OneRefusal(c, m, s', w, GainRefusal(m, key));
  }

  lemma {:induction false} AddedPrivilegeIsCaught(c: Contract, m: Manifest, key: Key, origin: string)
    requires WellFormed(c, m) && Unlisted(m, ViewOf(m, CleanSnapshot(c, m)), key)
    ensures RefusesExactly(c, m, WithAdded(m, CleanSnapshot(c, m), key, origin), GainRefusal(m, key))
  {
    CleanIsSound(c, m);
    AddedPrivilegeSeenOnce(c, m, CleanSnapshot(c, m), key, origin);
  }
}
