/**
 What an empty verdict means. Each sub-guard is silent exactly when the fact it
 stands for holds, and the whole guard exactly when all of them do.
 */
module GuardExactness {
  import opened Collections
  import opened PrivilegeManifest
  import opened CutoverGuard

  // ----- the facts

  ghost predicate BaselinesMatch(c: Contract, m: Manifest) {
    && (forall section :: section in SECTIONS ==> |Section(m, section)| == Total(c.baselineTotals, section))
    && (forall section :: |Filter(m.rows, DeniedIn(section))| == Total(c.deniedTotals, section))
  }

  ghost predicate ObjectIntact(v: View, row: GrantRow) {
    && row.identity in v.objects
    && var e := v.objects[row.identity];
       && e.present && e.objectKind == row.objectKind && e.relkind == row.relkind
       && (row.objectKind == KIND_FUNCTION ==>
             e.candidateCount == 1 && (e.resolvedIdentity == "" || e.resolvedIdentity == row.identity))
  }

  ghost predicate ObjectsIntact(m: Manifest, v: View) {
    forall row :: row in FirstRows(m.rows) ==> ObjectIntact(v, row)
  }

  ghost predicate HeldDirectly(v: View, key: Key) {
    key in v.privileges && v.privileges[key].held && v.privileges[key].origin == DIRECT_ORIGIN
  }

  ghost predicate GrantsHeld(m: Manifest, v: View) {
    forall key :: key in ExpectedKeys(m) ==> HeldDirectly(v, key)
  }

  ghost function Kept(s: set<Key>, p: Key -> bool, q: Key -> bool): set<Key> {
    set key | key in s && p(key) && q(key)
  }

  /** The held, unlisted privileges the guard sees inside one schema. */
  ghost function UnlistedIn(m: Manifest, v: View, scope: string): set<Key> {
    Kept(v.privileges.Keys, IsExtra(m, v), InScope(scope))
  }

  ghost predicate NothingUnlisted(m: Manifest, v: View) {
    var preserved := PreservedScopes(m);
    && (forall key :: key in v.privileges && IsExtra(m, v)(key) ==>
          IdentitySchema(key.first).Some? && IdentitySchema(key.first).value in preserved)
    && (forall scope :: scope in preserved ==> |UnlistedIn(m, v, scope)| == preserved[scope])
  }

  ghost predicate NoEscalation(m: Manifest, s: Snapshot) {
    && (forall e :: e in s.memberships ==>
          e.member != m.targetRole && !(e.member == m.sourceRole && e.grantedRole in {m.sourceRole, m.targetRole}))
    && (forall e :: e in s.postures && e.role in {m.sourceRole, m.targetRole} ==> !e.bypassRls && !e.superuser)
  }

  ghost predicate OwnersUnchanged(m: Manifest, v: View) {
    forall row :: row in OwnedRows(m) && row.identity in v.objects && v.objects[row.identity].present ==>
      v.objects[row.identity].owner == row.owner
  }

  ghost predicate LegacyStaysOut(c: Contract, m: Manifest, s: Snapshot) {
    forall e :: e in s.legacyModulePrivileges && e.role == m.sourceRole && e.held ==> e.identity in c.moduleEraAllowlist
  }

  ghost predicate TablesDenied(v: View, identity: string, wanted: seq<string>) {
    forall p :: p in wanted ==> Pair(identity, p) in v.tableAnswers && !v.tableAnswers[Pair(identity, p)].held
  }

  ghost predicate ColumnsDenied(v: View, identity: string, wanted: seq<string>) {
    forall p :: p in wanted ==>
      Pair(identity, p) in v.columnAnswers && v.columnAnswers[Pair(identity, p)].columnsProbed > 0
      && v.columnAnswers[Pair(identity, p)].columnsHeld == []
  }

  ghost predicate RelationDenied(v: View, identity: string) {
    TablesDenied(v, identity, DENIED_TABLE_PRIVILEGES) && ColumnsDenied(v, identity, COLUMN_LEVEL_PRIVILEGES)
  }

  ghost predicate RelationsDenied(m: Manifest, v: View) {
    forall row :: row in m.rows && row.disposition.Denied? && row.objectKind == KIND_RELATION ==>
      RelationDenied(v, row.identity)
  }

  ghost predicate Answered(v: View, identity: string, role: string, held: bool) {
    && Pair(identity, role) in v.executeAnswers
    && var e := v.executeAnswers[Pair(identity, role)];
       e.probed && e.effective && e.held == held
  }

  ghost predicate FunctionSealed(c: Contract, m: Manifest, v: View, row: GrantRow) {
    && KnownSection(row.section)
    && row.identity in c.executors
    && Answered(v, row.identity, m.targetRole, false)
    && Answered(v, row.identity, PUBLIC_PSEUDO_ROLE, false)
    && var executor := c.executors[row.identity];
       executor != NO_RUNTIME_EXECUTOR ==> Answered(v, row.identity, executor, true)
  }

  ghost predicate FunctionsSealed(c: Contract, m: Manifest, v: View) {
    forall row :: row in m.rows && row.disposition.Denied? && row.objectKind == KIND_FUNCTION ==>
      FunctionSealed(c, m, v, row)
  }

  // ----- each sub-guard

  lemma {:induction false} CountedSections(c: Contract, m: Manifest, section: string)
    requires Single(section) !in DenialSections(c, m)
    ensures |Filter(m.rows, DeniedIn(section))| == Total(c.deniedTotals, section)
  {
    forall row | row in m.rows && row.disposition.Denied?
      ensures row.section != section
    {
      assert Single(row.section) in DenialSections(c, m);
    }
    FilterNone(m.rows, DeniedIn(section));
    assert section in c.deniedTotals ==> Single(section) in DenialSections(c, m);
  }

  lemma {:induction false} BaselineExact(c: Contract, m: Manifest)
    ensures BaselineRefusals(c, m) == [] <==> BaselinesMatch(c, m)
  {
    var keys := SortedKeys(DenialSections(c, m));
    CollectEmpty(SECTIONS, BaselineCheck(c, m));
    CollectEmpty(keys, DenialCountCheck(c, m));
    if Collect(keys, DenialCountCheck(c, m)) == [] {
      forall section
        ensures |Filter(m.rows, DeniedIn(section))| == Total(c.deniedTotals, section)
      {
        if Single(section) in DenialSections(c, m) {
          assert DenialCountCheck(c, m)(Single(section)) == [];
        } else {
          CountedSections(c, m, section);
        }
      }
    }
  }

  lemma {:induction false} ObjectExact(m: Manifest, v: View)
    ensures ObjectRefusals(m, v) == [] <==> ObjectsIntact(m, v)
  {
    CollectEmpty(FirstRows(m.rows), ObjectCheck(v.objects));
    forall row
      ensures ObjectCheck(v.objects)(row) == [] <==> ObjectIntact(v, row)
    {
    }
  }

  /** No manifest object has vanished, so the skip for vanished objects skips nothing. */
  lemma {:induction false} NothingVanished(m: Manifest, v: View, key: Key)
    requires ObjectsIntact(m, v) && key in ExpectedKeys(m)
    ensures !Vanished(v, key.first)
  {
    var row :| row in m.rows && key == Key(0, row.identity, row.privilege, "");
    IntactByIdentity(m, v, row);
  }

  lemma {:induction false} IntactByIdentity(m: Manifest, v: View, row: GrantRow)
    requires ObjectsIntact(m, v) && row in m.rows
    ensures row.identity in v.objects && v.objects[row.identity].present
  {
    FirstRowsCover(m.rows);
    assert row.identity in Identities(FirstRows(m.rows));
    var first :| first in FirstRows(m.rows) && first.identity == row.identity;
    assert ObjectIntact(v, first);
  }

  lemma {:induction false} ExpectedExact(m: Manifest, v: View)
    requires ObjectsIntact(m, v)
    ensures ExpectedRefusals(m, v) == [] <==> GrantsHeld(m, v)
  {
    CollectEmpty(SortedKeys(ExpectedKeys(m)), ExpectedCheck(v));
    forall key | key in ExpectedKeys(m)
      ensures ExpectedCheck(v)(key) == [] <==> HeldDirectly(v, key)
    {
      NothingVanished(m, v, key);
    }
  }

  lemma {:induction false} MalformedExact(keys: seq<Key>)
    ensures FirstMalformed(keys).None? <==> forall key :: key in keys ==> IdentitySchema(key.first).Some?
  {
    if keys != [] {
      InitLast(keys);
      MalformedExact(keys[..|keys| - 1]);
    }
  }

  lemma {:induction false} FilterCounts(s: set<Key>, p: Key -> bool, q: Key -> bool)
    ensures |Filter(Filter(SortedKeys(s), p), q)| == |Kept(s, p, q)|
  {
    SortedKeysAscend(s);
    FilterDistinct(SortedKeys(s), p);
    FilterDistinct(Filter(SortedKeys(s), p), q);
    var kept := Filter(Filter(SortedKeys(s), p), q);
    DistinctCount(kept);
    assert (set key | key in kept) == Kept(s, p, q);
  }

  lemma {:induction false} FilterDistinct(keys: seq<Key>, p: Key -> bool)
    requires Distinct(keys)
    ensures Distinct(Filter(keys, p))
  {
    if keys != [] {
      InitLast(keys);
      FilterDistinct(keys[..|keys| - 1], p);
    }
  }

  lemma {:induction false} DistinctCount(keys: seq<Key>)
    requires Distinct(keys)
    ensures |set key | key in keys| == |keys|
  {
    if keys != [] {
      InitLast(keys);
      var init, last := keys[..|keys| - 1], keys[|keys| - 1];
      DistinctCount(init);
      assert (set key | key in keys) == (set key | key in init) + {last};
    }
  }

  lemma {:induction false} ScopeCount(m: Manifest, v: View, scope: string)
    ensures CountIn(ExtraKeys(m, v), scope) == |UnlistedIn(m, v, scope)|
  {
    FilterCounts(v.privileges.Keys, IsExtra(m, v), InScope(scope));
  }

  lemma {:induction false} AddedExact(m: Manifest, v: View, preserved: map<string, int>)
    ensures FirstMalformed(ExtraKeys(m, v)).None? && Collect(ExtraKeys(m, v), AddedCheck(preserved)) == []
            <==> forall key :: key in v.privileges && IsExtra(m, v)(key) ==>
                   IdentitySchema(key.first).Some? && IdentitySchema(key.first).value in preserved
  {
    MalformedExact(ExtraKeys(m, v));
    CollectEmpty(ExtraKeys(m, v), AddedCheck(preserved));
    assert forall key :: key in ExtraKeys(m, v) <==> key in v.privileges && IsExtra(m, v)(key);
  }

  lemma {:induction false} ExclusionExact(m: Manifest, v: View, preserved: map<string, int>)
    ensures Collect(SortedKeys(ScopeKeys(preserved)), ExclusionCheck(ExtraKeys(m, v), preserved)) == []
            <==> forall scope :: scope in preserved ==> |UnlistedIn(m, v, scope)| == preserved[scope]
  {
    var check := ExclusionCheck(ExtraKeys(m, v), preserved);
    CollectEmpty(SortedKeys(ScopeKeys(preserved)), check);
    forall scope | scope in preserved
      ensures Single(scope) in SortedKeys(ScopeKeys(preserved))
      ensures check(Single(scope)) == [] <==> |UnlistedIn(m, v, scope)| == preserved[scope]
    {
      ScopeCount(m, v, scope);
    }
  }

  lemma {:induction false} ExtraExact(m: Manifest, v: View)
    ensures FirstMalformed(ExtraKeys(m, v)).None? && ExtraRefusals(ExtraKeys(m, v), PreservedScopes(m)) == []
            <==> NothingUnlisted(m, v)
  {
    AddedExact(m, v, PreservedScopes(m));
    ExclusionExact(m, v, PreservedScopes(m));
  }

  lemma {:induction false} RoleExact(m: Manifest, s: Snapshot)
    ensures RoleRefusals(m, s) == [] <==> NoEscalation(m, s)
  {
    CollectEmpty(s.memberships, MembershipCheck(m));
    CollectEmpty(s.postures, PostureCheck(m));
  }

  lemma {:induction false} OwnershipExact(m: Manifest, v: View)
    ensures OwnershipRefusals(m, v) == [] <==> OwnersUnchanged(m, v)
  {
    CollectEmpty(OwnedRows(m), OwnerCheck(v.objects));
  }

  lemma {:induction false} LegacyExact(c: Contract, m: Manifest, s: Snapshot)
    ensures LegacyRefusals(c, m, s) == [] <==> LegacyStaysOut(c, m, s)
  {
    CollectEmpty(SortBy(s.legacyModulePrivileges, PrivilegeKey()), LegacyCheck(c, m));
  }

  lemma {:induction false} TablesExact(v: View, identity: string, wanted: seq<string>)
    ensures Collect(wanted, TableCheck(v, identity)) == [] <==> TablesDenied(v, identity, wanted)
  {
    CollectEmpty(wanted, TableCheck(v, identity));
  }

  lemma {:induction false} ColumnsExact(v: View, identity: string, wanted: seq<string>)
    ensures Collect(wanted, ColumnCheck(v, identity)) == [] <==> ColumnsDenied(v, identity, wanted)
  {
    CollectEmpty(wanted, ColumnCheck(v, identity));
  }

  lemma {:induction false} DenialCheckExact(v: View, identity: string)
    ensures DenialCheck(v)(Single(identity)) == [] <==> RelationDenied(v, identity)
  {
    TablesExact(v, identity, DENIED_TABLE_PRIVILEGES);
    ColumnsExact(v, identity, COLUMN_LEVEL_PRIVILEGES);
  }

  lemma {:induction false} DenialExact(m: Manifest, v: View)
    ensures DenialRefusals(m, v) == [] <==> RelationsDenied(m, v)
  {
    CollectEmpty(SortedKeys(DeniedRelationKeys(m)), DenialCheck(v));
    forall row | row in m.rows && row.disposition.Denied? && row.objectKind == KIND_RELATION
      ensures Single(row.identity) in DeniedRelationKeys(m)
      ensures DenialCheck(v)(Single(row.identity)) == [] <==> RelationDenied(v, row.identity)
    {
      DenialCheckExact(v, row.identity);
    }
  }

  lemma {:induction false} WantedMembers(m: Manifest, executor: string, role: string)
    ensures role in WantedRoles(m, executor) <==>
            role == m.targetRole || role == PUBLIC_PSEUDO_ROLE || (executor != NO_RUNTIME_EXECUTOR && role == executor)
  {
    assert WantedRoles(m, executor)[0] == m.targetRole && WantedRoles(m, executor)[1] == PUBLIC_PSEUDO_ROLE;
    assert executor != NO_RUNTIME_EXECUTOR ==> WantedRoles(m, executor)[2] == executor;
  }

  lemma {:induction false} ExecuteCheckExact(m: Manifest, v: View, identity: string, executor: string, role: string)
    ensures ExecuteCheck(m, v, identity, executor)(role) == [] <==>
            && (Answered(v, identity, role, true) || Answered(v, identity, role, false))
            && (role == m.targetRole || role == PUBLIC_PSEUDO_ROLE ==> Answered(v, identity, role, false))
            && (executor != NO_RUNTIME_EXECUTOR && role == executor ==> Answered(v, identity, role, true))
  {
  }

  lemma {:induction false} FunctionCheckExact(c: Contract, m: Manifest, v: View, row: GrantRow)
    requires KnownSection(row.section)
    ensures FunctionCheck(c, m, v)(row) == [] <==> FunctionSealed(c, m, v, row)
  {
    if row.identity in c.executors {
      var executor := c.executors[row.identity];
      var check := ExecuteCheck(m, v, row.identity, executor);
      CollectEmpty(WantedRoles(m, executor), check);
      forall role
        ensures role in WantedRoles(m, executor) <==>
                role == m.targetRole || role == PUBLIC_PSEUDO_ROLE
                  || (executor != NO_RUNTIME_EXECUTOR && role == executor)
        ensures check(role) == [] <==>
                && (Answered(v, row.identity, role, true) || Answered(v, row.identity, role, false))
                && (role == m.targetRole || role == PUBLIC_PSEUDO_ROLE ==> Answered(v, row.identity, role, false))
                && (executor != NO_RUNTIME_EXECUTOR && role == executor ==> Answered(v, row.identity, role, true))
      {
        WantedMembers(m, executor, role);
        ExecuteCheckExact(m, v, row.identity, executor, role);
      }
      assert FunctionCheck(c, m, v)(row) == [] <==>
               forall role :: role in WantedRoles(m, executor) ==> check(role) == [];
    }
  }

  lemma {:induction false} UnknownSectionExact(rows: seq<GrantRow>)
    ensures FirstUnknownSection(rows).None? <==> forall row :: row in rows ==> KnownSection(row.section)
  {
    if rows != [] {
      InitLast(rows);
      UnknownSectionExact(rows[..|rows| - 1]);
    }
  }

  lemma {:induction false} FunctionExact(c: Contract, m: Manifest, v: View)
    ensures FunctionRefusals(c, m, v) == Success([]) <==> FunctionsSealed(c, m, v)
  {
    var denied := SortBy(DeniedFunctions(m), SortKey());
    UnknownSectionExact(DeniedFunctions(m));
    CollectEmpty(denied, FunctionCheck(c, m, v));
    forall row | row in denied && KnownSection(row.section)
      ensures FunctionCheck(c, m, v)(row) == [] <==> FunctionSealed(c, m, v, row)
    {
      FunctionCheckExact(c, m, v, row);
    }
  }

  lemma {:induction false} PrivilegeExact(m: Manifest, v: View)
    requires ObjectsIntact(m, v)
    ensures PrivilegeRefusals(m, v) == Success([]) <==> GrantsHeld(m, v) && NothingUnlisted(m, v)
  {
    ExpectedExact(m, v);
    ExtraExact(m, v);
  }

  /** Every fact about what the target can reach and who owns it. */
  ghost predicate ViewSound(c: Contract, m: Manifest, v: View) {
    && ObjectsIntact(m, v) && GrantsHeld(m, v) && NothingUnlisted(m, v) && OwnersUnchanged(m, v)
    && RelationsDenied(m, v) && FunctionsSealed(c, m, v)
  }

  ghost predicate RolesSound(c: Contract, m: Manifest, s: Snapshot) {
    NoEscalation(m, s) && LegacyStaysOut(c, m, s)
  }

  /** Every fact but the two baseline counts. */
  ghost predicate SoundBesidesBaseline(c: Contract, m: Manifest, s: Snapshot) {
    ViewSound(c, m, ViewOf(m, s)) && RolesSound(c, m, s)
  }

  ghost predicate ViewSilent(c: Contract, m: Manifest, v: View) {
    && ObjectRefusals(m, v) == [] && PrivilegeRefusals(m, v) == Success([]) && OwnershipRefusals(m, v) == []
    && DenialRefusals(m, v) == [] && FunctionRefusals(c, m, v) == Success([])
  }

  lemma {:induction false} ViewExact(c: Contract, m: Manifest, v: View)
    ensures ViewSilent(c, m, v) <==> ViewSound(c, m, v)
  {
    ObjectExact(m, v);
    if ObjectsIntact(m, v) {
      PrivilegeExact(m, v);
    }
    OwnershipExact(m, v);
    DenialExact(m, v);
    FunctionExact(c, m, v);
  }

  lemma {:induction false} RolesExact(c: Contract, m: Manifest, s: Snapshot)
    ensures RoleRefusals(m, s) == [] && LegacyRefusals(c, m, s) == [] <==> RolesSound(c, m, s)
  {
    RoleExact(m, s);
    LegacyExact(c, m, s);
  }

  lemma {:induction false} GluedEmpty(
      b: seq<Violation>, o: seq<Violation>, p: Outcome, e: seq<Violation>, w: seq<Violation>,
      l: seq<Violation>, d: seq<Violation>, f: Outcome)
    ensures Glued(b, o, p, e, w, l, d, f) == Success([]) ==>
              b == [] && o == [] && p == Success([]) && e == [] && w == [] && l == [] && d == [] && f == Success([])
    ensures o == [] && p == Success([]) && e == [] && w == [] && l == [] && d == [] && f == Success([]) ==>
              Glued(b, o, p, e, w, l, d, f) == Success(b)
  {
    if p.Success? && f.Success? {
      var all := b + o + p.value + (e + w) + l + d + f.value;
      assert |all| == |b| + |o| + |p.value| + |e| + |w| + |l| + |d| + |f.value|;
      assert |all| == |b| ==> all == b;
    }
  }

  lemma {:induction false} SilentParts(c: Contract, m: Manifest, s: Snapshot, v: View)
    requires v == ViewOf(m, s)
    ensures ViewSilent(c, m, v) && RoleRefusals(m, s) == [] && LegacyRefusals(c, m, s) == [] ==>
              CutoverRefusals(c, m, s) == Success(BaselineRefusals(c, m))
    ensures CutoverRefusals(c, m, s) == Success([]) ==>
              ViewSilent(c, m, v) && RoleRefusals(m, s) == [] && LegacyRefusals(c, m, s) == []
                && BaselineRefusals(c, m) == []
  {
    GluedEmpty(BaselineRefusals(c, m), ObjectRefusals(m, v), PrivilegeRefusals(m, v), RoleRefusals(m, s),
               OwnershipRefusals(m, v), LegacyRefusals(c, m, s), DenialRefusals(m, v), FunctionRefusals(c, m, v));
  }

  lemma {:induction false} PartsExact(c: Contract, m: Manifest, s: Snapshot)
    ensures SoundBesidesBaseline(c, m, s) ==> CutoverRefusals(c, m, s) == Success(BaselineRefusals(c, m))
    ensures CutoverRefusals(c, m, s) == Success([]) ==> SoundBesidesBaseline(c, m, s) && BaselineRefusals(c, m) == []
  {
    ViewExact(c, m, ViewOf(m, s));
    RolesExact(c, m, s);
    SilentParts(c, m, s, ViewOf(m, s));
  }

  ghost predicate Admissible(c: Contract, m: Manifest, s: Snapshot) {
    BaselinesMatch(c, m) && SoundBesidesBaseline(c, m, s)
  }

  /** The guard accepts exactly the snapshots in which every required fact holds. */
  lemma {:induction false} GuardDecidesAdmissible(c: Contract, m: Manifest, s: Snapshot)
    ensures CutoverRefusals(c, m, s) == Success([]) <==> Admissible(c, m, s)
  {
    BaselineExact(c, m);
    PartsExact(c, m, s);
  }

  // ----- the two skips

  ghost predicate OneDispositionPerIdentity(m: Manifest) {
    forall a, b :: a in m.rows && b in m.rows && a.identity == b.identity ==> a.disposition == b.disposition
  }

  lemma {:induction false} LastBySnoc<T, K>(xs: seq<T>, x: T, key: T -> K, k: K)
    ensures LastBy(xs + [x], key, k) == if key(x) == k then Some(x) else LastBy(xs, key, k)
  {
    assert (xs + [x])[..|xs|] == xs;
  }

  lemma {:induction false} FilteredLast(xs: seq<ObservedPrivilege>, m: Manifest, identity: string, privilege: string)
    requires identity !in DeniedIdentities(m)
    ensures LastBy(Filter(xs, OfTargetUndenied(m)), PrivilegeKey(), Pair(identity, privilege)) ==
            LastBy(Filter(xs, OfTarget(m)), PrivilegeKey(), Pair(identity, privilege))
  {
    if xs != [] {
      var init, last := xs[..|xs| - 1], xs[|xs| - 1];
      InitLast(xs);
      FilteredLast(init, m, identity, privilege);
      FilterSnoc(init, last, OfTargetUndenied(m));
      FilterSnoc(init, last, OfTarget(m));
      LastBySnoc(Filter(init, OfTargetUndenied(m)), last, PrivilegeKey(), Pair(identity, privilege));
      LastBySnoc(Filter(init, OfTarget(m)), last, PrivilegeKey(), Pair(identity, privilege));
    }
  }

  lemma {:induction false} LastByMember<T, K>(xs: seq<T>, key: T -> K, k: K)
    ensures var last := LastBy(xs, key, k); last.Some? ==> last.value in xs && key(last.value) == k
  {
    if xs != [] {
      LastByMember(xs[..|xs| - 1], key, k);
    }
  }

  /**
   An accepted snapshot's last answer about every granted row, taken over all the
   target's answers, is a direct hold on an object that is present: neither the
   skip for vanished objects nor the one for denied identities hides a failure,
   and a manifest that both grants and denies one identity is never accepted.
   */
  lemma {:induction false} SkipsHideNothing(c: Contract, m: Manifest, s: Snapshot, row: GrantRow)
    requires CutoverRefusals(c, m, s) == Success([])
    requires row in m.rows && row.targetRole == m.targetRole && !row.disposition.Denied?
    ensures row.identity !in DeniedIdentities(m)
    ensures var last := LastBy(Filter(s.privileges, OfTarget(m)), PrivilegeKey(), Pair(row.identity, row.privilege));
            last.Some? && last.value.held && last.value.origin == DIRECT_ORIGIN
    ensures LastBy(s.objects, ObjectKey(), row.identity).Some?
            && LastBy(s.objects, ObjectKey(), row.identity).value.present
  {
    PartsExact(c, m, s);
    GrantSurvives(c, m, s, ViewOf(m, s), row);
    LastByMember(Filter(s.privileges, OfTargetUndenied(m)), PrivilegeKey(), Pair(row.identity, row.privilege));
    FilteredLast(s.privileges, m, row.identity, row.privilege);
    IndexByIsLast(s.objects, ObjectKey(), row.identity);
  }

  lemma {:induction false} GrantSurvives(c: Contract, m: Manifest, s: Snapshot, v: View, row: GrantRow)
    requires v == ViewOf(m, s) && ViewSound(c, m, v)
    requires row in m.rows && row.targetRole == m.targetRole && !row.disposition.Denied?
    ensures row.identity in v.objects && v.objects[row.identity].present
    ensures var last := LastBy(Filter(s.privileges, OfTargetUndenied(m)), PrivilegeKey(),
                               Pair(row.identity, row.privilege));
            last.Some? && last.value.held && last.value.origin == DIRECT_ORIGIN
  {
    assert Pair(row.identity, row.privilege) in ExpectedKeys(m);
    IntactByIdentity(m, v, row);
    LastHeld(m, s, Pair(row.identity, row.privilege));
  }

  lemma {:induction false} LastHeld(m: Manifest, s: Snapshot, key: Key)
    requires HeldDirectly(ViewOf(m, s), key)
    ensures var last := LastBy(Filter(s.privileges, OfTargetUndenied(m)), PrivilegeKey(), key);
            last.Some? && last.value.held && last.value.origin == DIRECT_ORIGIN
  {
    IndexByIsLast(Filter(s.privileges, OfTargetUndenied(m)), PrivilegeKey(), key);
  }
}
