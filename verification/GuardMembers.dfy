/**
 Which refusals the guard returns (app/privilege_manifest.py), whatever else is
 wrong at the same time: for each kind of refusal, exactly the facts that draw it,
 each once and in the order the guard goes through them.
 */
module GuardMembers {
  import opened Collections
  import opened PrivilegeManifest
  import opened CutoverGuard
  import opened GuardExactness

  // ----- counting

  ghost function Positions<T>(xs: seq<T>, p: T -> bool, n: nat): set<nat>
    requires n <= |xs|
  {
    set i: nat | i < n && p(xs[i])
  }

  lemma {:induction false} OnePositionMore<T>(xs: seq<T>, p: T -> bool, n: nat)
    requires n < |xs|
    ensures |Positions(xs, p, n + 1)| == |Positions(xs, p, n)| + if p(xs[n]) then 1 else 0
  {
    assert n !in Positions(xs, p, n);
    assert Positions(xs, p, n + 1) == if p(xs[n]) then Positions(xs, p, n) + {n} else Positions(xs, p, n);
  }

  /** The filter keeps as many of the first `n` elements as there are positions that pass. */
  ghost predicate Counted<T(!new)>(xs: seq<T>, p: T -> bool, n: nat)
    requires n <= |xs|
  {
    |Filter(xs[..n], p)| == |Positions(xs, p, n)|
  }

  lemma {:induction false} CountedOn<T(!new)>(xs: seq<T>, p: T -> bool, n: nat)
    requires n < |xs| && Counted(xs, p, n)
    ensures Counted(xs, p, n + 1)
  {
    FilterPrefix(xs, n, p);
    OnePositionMore(xs, p, n);
  }

  lemma {:induction false} FilterCount<T(!new)>(xs: seq<T>, p: T -> bool, n: nat)
    requires n <= |xs|
    ensures Counted(xs, p, n)
  {
    if n == 0 {
      assert Positions(xs, p, 0) == {} && xs[..0] == [];
    } else {
      FilterCount(xs, p, n - 1);
      CountedOn(xs, p, n - 1);
    }
  }

  /** The rows that lie in the section, and those of them that are denied. */
  ghost function RowsIn(rows: seq<GrantRow>, section: string): set<nat> {
    set i: nat | i < |rows| && rows[i].section == section
  }

  ghost function DeniedRowsIn(rows: seq<GrantRow>, section: string): set<nat> {
    set i: nat | i < |rows| && rows[i].section == section && rows[i].disposition.Denied?
  }

  lemma {:induction false} SectionCount(m: Manifest, section: string)
    ensures |Section(m, section)| == |RowsIn(m.rows, section)|
  {
    assert m.rows[..|m.rows|] == m.rows;
    FilterCount(m.rows, InSection(section), |m.rows|);
    assert Positions(m.rows, InSection(section), |m.rows|) == RowsIn(m.rows, section);
  }

  lemma {:induction false} DenialCount(m: Manifest, section: string)
    ensures |Filter(m.rows, DeniedIn(section))| == |DeniedRowsIn(m.rows, section)|
  {
    assert m.rows[..|m.rows|] == m.rows;
    FilterCount(m.rows, DeniedIn(section), |m.rows|);
    assert Positions(m.rows, DeniedIn(section), |m.rows|) == DeniedRowsIn(m.rows, section);
  }

  // ----- baselines

  /** A count that moved, with what was counted and what was reviewed. */
  ghost predicate BaselineRefused(c: Contract, m: Manifest, v: Violation) {
    match v
    case BaselineMoved(section, actual, expected) =>
      && section in {
           SECTION_SCHEMA_USAGE, SECTION_RELATIONS, SECTION_SEQUENCES, SECTION_FUNCTIONS, SECTION_CONTROL_PLANE}
      && actual == |RowsIn(m.rows, section)| && expected == Total(c.baselineTotals, section) && actual != expected
    case DenialsMoved(section, actual, expected) =>
      actual == |DeniedRowsIn(m.rows, section)| && expected == Total(c.deniedTotals, section) && actual != expected
    case _ => false
  }

  lemma {:induction false} EverySection()
    ensures forall section ::
              KnownSection(section) <==>
              section in {SECTION_SCHEMA_USAGE, SECTION_RELATIONS, SECTION_SEQUENCES, SECTION_FUNCTIONS,
                          SECTION_CONTROL_PLANE}
  {
    assert SECTIONS[0] == SECTION_SCHEMA_USAGE && SECTIONS[1] == SECTION_RELATIONS && SECTIONS[2] == SECTION_SEQUENCES;
    assert SECTIONS[3] == SECTION_FUNCTIONS && SECTIONS[4] == SECTION_CONTROL_PLANE;
  }

  lemma {:induction false} TotalsMembers(c: Contract, m: Manifest, sections: seq<string>, v: Violation)
    ensures v in Collect(sections, BaselineCheck(c, m)) <==>
            && v.BaselineMoved? && v.section in sections
            && v.actual == |RowsIn(m.rows, v.section)| && v.expected == Total(c.baselineTotals, v.section)
            && v.actual != v.expected
  {
    CollectMembers(sections, BaselineCheck(c, m));
    if v.BaselineMoved? {
      SectionCount(m, v.section);
      if v.section in sections && v in BaselineCheck(c, m)(v.section) {
      }
    }
  }

  lemma {:induction false} DenialTotalsMembers(c: Contract, m: Manifest, keys: seq<Key>, v: Violation)
    requires forall key :: key in keys <==> key in DenialSections(c, m)
    ensures v in Collect(keys, DenialCountCheck(c, m)) <==>
            && v.DenialsMoved? && v.actual == |DeniedRowsIn(m.rows, v.section)|
            && v.expected == Total(c.deniedTotals, v.section) && v.actual != v.expected
  {
    CollectMembers(keys, DenialCountCheck(c, m));
    if v.DenialsMoved? {
      DenialCount(m, v.section);
      if Single(v.section) !in DenialSections(c, m) {
        CountedSections(c, m, v.section);
      } else {
        assert v in DenialCountCheck(c, m)(Single(v.section)) <==>
               v.actual == |DeniedRowsIn(m.rows, v.section)| && v.expected == Total(c.deniedTotals, v.section)
               && v.actual != v.expected;
      }
    }
  }

  /** Every total that moved is reported, and every denial total, counted and reviewed the right way round. */
  lemma {:induction false} BaselineMembers(c: Contract, m: Manifest, v: Violation)
    ensures v in BaselineRefusals(c, m) <==> BaselineRefused(c, m, v)
  {
    EverySection();
    TotalsMembers(c, m, SECTIONS, v);
    DenialTotalsMembers(c, m, SortedKeys(DenialSections(c, m)), v);
  }

  // ----- objects

  /** What is wrong with the object that `row` names. */
  ghost predicate ObjectRefused(v: View, row: GrantRow, x: Violation) {
    var seen := row.identity in v.objects && v.objects[row.identity].present;
    match x
    case UnobservedObject(identity) => identity == row.identity && row.identity !in v.objects
    case ObjectVanished(identity) =>
      identity == row.identity && row.identity in v.objects && !v.objects[row.identity].present
    case KindChange(identity) =>
      identity == row.identity && seen
      && (v.objects[row.identity].objectKind != row.objectKind || v.objects[row.identity].relkind != row.relkind)
    case OverloadAmbiguity(identity) =>
      identity == row.identity && seen && row.objectKind == KIND_FUNCTION
      && v.objects[row.identity].candidateCount != 1
    case OverloadConfusion(identity, resolved) =>
      identity == row.identity && seen && row.objectKind == KIND_FUNCTION
      && v.objects[row.identity].resolvedIdentity == resolved && resolved != "" && resolved != row.identity
    case _ => false
  }

  lemma {:induction false} ObjectChecked(v: View, row: GrantRow, x: Violation)
    ensures x in ObjectCheck(v.objects)(row) <==> ObjectRefused(v, row, x)
  {
  }

  /** Position `i` is the first with its identity. */
  ghost predicate IsFirst(rows: seq<GrantRow>, i: nat) {
    i < |rows| && forall j :: 0 <= j < i ==> rows[j].identity != rows[i].identity
  }

  lemma {:induction false} LastIsFirst(rows: seq<GrantRow>)
    requires rows != []
    ensures IsFirst(rows, |rows| - 1) <==> rows[|rows| - 1].identity !in Identities(rows[..|rows| - 1])
  {
    var init, last := rows[..|rows| - 1], rows[|rows| - 1];
    if last.identity in Identities(init) {
      var row :| row in init && row.identity == last.identity;
      var j :| 0 <= j < |init| && init[j] == row;
      assert rows[j].identity == last.identity;
    } else if j :| 0 <= j < |init| && rows[j].identity == last.identity {
      assert init[j] in init;
    }
  }

  lemma {:induction false} FirstRowAt(rows: seq<GrantRow>, i: nat)
    requires IsFirst(rows, i)
    ensures rows[i] in FirstRows(rows)
  {
    LastIsFirst(rows);
    if i < |rows| - 1 {
      FirstRowAt(rows[..|rows| - 1], i);
    }
  }

  lemma {:induction false} FirstRowStands(rows: seq<GrantRow>, row: GrantRow) returns (i: nat)
    requires row in FirstRows(rows)
    ensures IsFirst(rows, i) && rows[i] == row
  {
    LastIsFirst(rows);
    if row in FirstRows(rows[..|rows| - 1]) {
      i := FirstRowStands(rows[..|rows| - 1], row);
    } else {
      i := |rows| - 1;
    }
  }

  /** Every wrong object is reported at its first row, with everything that is wrong with it. */
  lemma {:induction false} ObjectMembers(m: Manifest, v: View, x: Violation)
    ensures x in ObjectRefusals(m, v) <==> exists i: nat :: IsFirst(m.rows, i) && ObjectRefused(v, m.rows[i], x)
  {
    CollectMembers(FirstRows(m.rows), ObjectCheck(v.objects));
    if x in ObjectRefusals(m, v) {
      var row :| row in FirstRows(m.rows) && x in ObjectCheck(v.objects)(row);
      var i := FirstRowStands(m.rows, row);
      ObjectChecked(v, row, x);
    }
    if i: nat :| IsFirst(m.rows, i) && ObjectRefused(v, m.rows[i], x) {
      FirstRowAt(m.rows, i);
      ObjectChecked(v, m.rows[i], x);
    }
  }

  // ----- listed privileges

  /** A row of the tenant role lists the privilege, and no such row is denied. */
  ghost predicate Lists(m: Manifest, identity: string, privilege: string) {
    exists row :: row in m.rows && row.targetRole == m.targetRole && !row.disposition.Denied?
                  && row.identity == identity && row.privilege == privilege
  }

  lemma {:induction false} ListedKeys(m: Manifest, key: Key)
    ensures key in ExpectedKeys(m) <==> key == Pair(key.first, key.second) && Lists(m, key.first, key.second)
  {
    if key in ExpectedKeys(m) {
      var row :| row in m.rows && row.targetRole == m.targetRole && !row.disposition.Denied?
                 && key == Key(0, row.identity, row.privilege, "");
    }
  }

  lemma {:induction false} ExpectedChecked(v: View, identity: string, privilege: string, x: Violation)
    ensures x in ExpectedCheck(v)(Pair(identity, privilege)) <==>
            && (x.UnobservedPrivilege? || x.PrivilegeAbsent? || x.PrivilegeOrigin?)
            && x.identity == identity && x.privilege == privilege && ExpectedWrong(v, x)
  {
  }

  /** What is wrong with the answer about a listed privilege. */
  ghost predicate ExpectedWrong(v: View, x: Violation)
    requires x.UnobservedPrivilege? || x.PrivilegeAbsent? || x.PrivilegeOrigin?
  {
    var key := Pair(x.identity, x.privilege);
    && !Vanished(v, x.identity)
    && match x
       case UnobservedPrivilege(_, _) => key !in v.privileges
       case PrivilegeAbsent(_, _) => key in v.privileges && !v.privileges[key].held
       case PrivilegeOrigin(_, _) =>
         key in v.privileges && v.privileges[key].held && v.privileges[key].origin != DIRECT_ORIGIN
  }

  ghost predicate ExpectedRefused(m: Manifest, v: View, x: Violation) {
    && (x.UnobservedPrivilege? || x.PrivilegeAbsent? || x.PrivilegeOrigin?)
    && Lists(m, x.identity, x.privilege) && ExpectedWrong(v, x)
  }

  /** Every listed privilege of an object that is there is reported when unanswered, not held, or not held directly. */
  lemma {:induction false} ExpectedMembers(m: Manifest, v: View, x: Violation)
    ensures x in ExpectedRefusals(m, v) <==> ExpectedRefused(m, v, x)
  {
    var keys := SortedKeys(ExpectedKeys(m));
    CollectMembers(keys, ExpectedCheck(v));
    if x in ExpectedRefusals(m, v) {
      var key :| key in keys && x in ExpectedCheck(v)(key);
      ListedKeys(m, key);
      ExpectedChecked(v, key.first, key.second, x);
    }
    if ExpectedRefused(m, v, x) {
      ListedKeys(m, Pair(x.identity, x.privilege));
      ExpectedChecked(v, x.identity, x.privilege, x);
    }
  }

  // ----- unlisted privileges

  /** Held, and listed by no row. */
  ghost predicate HeldUnlisted(m: Manifest, v: View, key: Key) {
    key in v.privileges && v.privileges[key].held
    && !(key == Pair(key.first, key.second) && Lists(m, key.first, key.second))
  }

  /** The held, unlisted privileges of one schema. */
  ghost function UnlistedOf(m: Manifest, v: View, scope: string): set<Key> {
    set key | key in v.privileges && HeldUnlisted(m, v, key) && IdentitySchema(key.first) == Some(scope)
  }

  lemma {:induction false} ExtraMeans(m: Manifest, v: View, key: Key)
    requires key in v.privileges
    ensures IsExtra(m, v)(key) <==> HeldUnlisted(m, v, key)
  {
    ListedKeys(m, key);
  }

  lemma {:induction false} ExtraKeyMeans(m: Manifest, v: View, key: Key)
    ensures key in ExtraKeys(m, v) <==> HeldUnlisted(m, v, key)
  {
    if key in v.privileges {
      ExtraMeans(m, v, key);
    }
  }

  lemma {:induction false} ScopeMeans(m: Manifest, v: View, scope: string)
    ensures CountIn(ExtraKeys(m, v), scope) == |UnlistedOf(m, v, scope)|
  {
    ScopeCount(m, v, scope);
    forall key | key in v.privileges
      ensures IsExtra(m, v)(key) <==> HeldUnlisted(m, v, key)
    {
      ExtraMeans(m, v, key);
    }
    assert UnlistedIn(m, v, scope) == UnlistedOf(m, v, scope);
  }

  ghost predicate AddedRefused(m: Manifest, v: View, preserved: map<string, int>, x: Violation) {
    x.PrivilegeAdded?
    && exists key ::
         && HeldUnlisted(m, v, key) && key.first == x.identity && key.second == x.privilege
         && !(IdentitySchema(key.first).Some? && IdentitySchema(key.first).value in preserved)
  }

  ghost predicate ExclusionRefused(m: Manifest, v: View, preserved: map<string, int>, x: Violation) {
    && x.ExclusionMoved? && x.scope in preserved
    && x.actual == |UnlistedOf(m, v, x.scope)| && x.expected == preserved[x.scope] && x.actual != x.expected
  }

  lemma {:induction false} AddedChecked(preserved: map<string, int>, key: Key, x: Violation)
    ensures x in AddedCheck(preserved)(key) <==>
            && x == PrivilegeAdded(key.first, key.second)
            && !(IdentitySchema(key.first).Some? && IdentitySchema(key.first).value in preserved)
  {
  }

  lemma {:induction false} AddedMembers(m: Manifest, v: View, preserved: map<string, int>, x: Violation)
    ensures x in Collect(ExtraKeys(m, v), AddedCheck(preserved)) <==> AddedRefused(m, v, preserved, x)
  {
    CollectMembers(ExtraKeys(m, v), AddedCheck(preserved));
    if x in Collect(ExtraKeys(m, v), AddedCheck(preserved)) {
      var key :| key in ExtraKeys(m, v) && x in AddedCheck(preserved)(key);
      ExtraKeyMeans(m, v, key);
      AddedChecked(preserved, key, x);
    }
    if AddedRefused(m, v, preserved, x) {
      var key :| HeldUnlisted(m, v, key) && key.first == x.identity && key.second == x.privilege
                 && !(IdentitySchema(key.first).Some? && IdentitySchema(key.first).value in preserved);
      ExtraKeyMeans(m, v, key);
      AddedChecked(preserved, key, x);
    }
  }

  lemma {:induction false} CountChecked(extra: seq<Key>, preserved: map<string, int>, scope: string, x: Violation)
    requires scope in preserved
    ensures x in ExclusionCheck(extra, preserved)(Single(scope)) <==>
            && x == ExclusionMoved(scope, CountIn(extra, scope), preserved[scope])
            && CountIn(extra, scope) != preserved[scope]
  {
  }

  lemma {:induction false} CountsMembers(extra: seq<Key>, preserved: map<string, int>, x: Violation)
    ensures x in Collect(SortedKeys(ScopeKeys(preserved)), ExclusionCheck(extra, preserved)) <==>
            && x.ExclusionMoved? && x.scope in preserved
            && x.actual == CountIn(extra, x.scope) && x.expected == preserved[x.scope] && x.actual != x.expected
  {
    var keys, check := SortedKeys(ScopeKeys(preserved)), ExclusionCheck(extra, preserved);
    CollectMembers(keys, check);
    if x in Collect(keys, check) {
      var key :| key in keys && x in check(key);
      assert key == Single(key.first) && key.first in preserved;
      CountChecked(extra, preserved, key.first, x);
    }
    if x.ExclusionMoved? && x.scope in preserved {
      assert Single(x.scope) in keys;
      CountChecked(extra, preserved, x.scope, x);
    }
  }

  lemma {:induction false} ExclusionMembers(m: Manifest, v: View, preserved: map<string, int>, x: Violation)
    ensures x in Collect(SortedKeys(ScopeKeys(preserved)), ExclusionCheck(ExtraKeys(m, v), preserved)) <==>
            ExclusionRefused(m, v, preserved, x)
  {
    CountsMembers(ExtraKeys(m, v), preserved, x);
    if x.ExclusionMoved? {
      ScopeMeans(m, v, x.scope);
    }
  }

  /** A held, unlisted privilege whose identity names no schema. */
  ghost predicate Malformed(m: Manifest, v: View, key: Key) {
    HeldUnlisted(m, v, key) && IdentitySchema(key.first).None?
  }

  lemma {:induction false} FirstOfMalformed(keys: seq<Key>, key: Key)
    requires Ascending(keys) && FirstMalformed(keys) == Some(key)
    ensures key in keys && IdentitySchema(key.first).None?
    ensures forall other :: other in keys && IdentitySchema(other.first).None? ==> other == key || Less(key, other)
  {
    var init, last := keys[..|keys| - 1], keys[|keys| - 1];
    InitLast(keys);
    if FirstMalformed(init).Some? {
      FirstOfMalformed(init, key);
      var i :| 0 <= i < |init| && init[i] == key;
      assert Less(keys[i], keys[|keys| - 1]);
    } else {
      MalformedExact(init);
    }
  }

  lemma {:induction false} FilterAscends(keys: seq<Key>, p: Key -> bool)
    requires Ascending(keys)
    ensures Ascending(Filter(keys, p))
  {
    if keys != [] {
      var init, last := keys[..|keys| - 1], keys[|keys| - 1];
      FilterAscends(init, p);
      forall i | 0 <= i < |Filter(init, p)|
        ensures Less(Filter(init, p)[i], last)
      {
        assert Filter(init, p)[i] in init;
        var k :| 0 <= k < |init| && init[k] == Filter(init, p)[i];
        assert Less(keys[k], keys[|keys| - 1]);
      }
    }
  }

  /**
   The privilege refusals: an unlisted privilege that names no schema stops the
   guard, the first one in order; else all listed and all unlisted ones are judged.
   */
  lemma {:induction false} PrivilegeMembers(m: Manifest, v: View)
    ensures PrivilegeRefusals(m, v).Failure? <==> exists key :: Malformed(m, v, key)
    ensures PrivilegeRefusals(m, v).Failure? ==>
              exists key ::
                && Malformed(m, v, key) && PrivilegeRefusals(m, v).error == NotAnIdentityKey(key.first)
                && forall other :: Malformed(m, v, other) ==> other == key || Less(key, other)
    ensures PrivilegeRefusals(m, v).Success? ==>
              forall x :: x in PrivilegeRefusals(m, v).value <==>
                          || ExpectedRefused(m, v, x) || AddedRefused(m, v, PreservedScopes(m), x)
                          || ExclusionRefused(m, v, PreservedScopes(m), x)
  {
    var extra := ExtraKeys(m, v);
    MalformedExact(extra);
    forall key
      ensures key in extra <==> HeldUnlisted(m, v, key)
    {
      ExtraKeyMeans(m, v, key);
    }
    if FirstMalformed(extra).Some? {
      SortedKeysAscend(v.privileges.Keys);
      FilterAscends(SortedKeys(v.privileges.Keys), IsExtra(m, v));
      FirstOfMalformed(extra, FirstMalformed(extra).value);
      assert Malformed(m, v, FirstMalformed(extra).value);
    } else {
      forall x
        ensures x in PrivilegeRefusals(m, v).value <==>
                || ExpectedRefused(m, v, x) || AddedRefused(m, v, PreservedScopes(m), x)
                || ExclusionRefused(m, v, PreservedScopes(m), x)
      {
        PrivilegeMember(m, v, x);
      }
    }
  }

  lemma {:induction false} PrivilegeMember(m: Manifest, v: View, x: Violation)
    requires PrivilegeRefusals(m, v).Success?
    ensures x in PrivilegeRefusals(m, v).value <==>
            || ExpectedRefused(m, v, x) || AddedRefused(m, v, PreservedScopes(m), x)
            || ExclusionRefused(m, v, PreservedScopes(m), x)
  {
    ExpectedMembers(m, v, x);
    AddedMembers(m, v, PreservedScopes(m), x);
    ExclusionMembers(m, v, PreservedScopes(m), x);
  }

  // ----- roles, owners, the retired role

  ghost predicate RoleRefused(m: Manifest, s: Snapshot, x: Violation) {
    match x
    case MembershipBetweenRoles(member, granted) =>
      && ObservedMembership(member, granted) in s.memberships
      && member in {m.sourceRole, m.targetRole} && granted in {m.sourceRole, m.targetRole}
    case TargetMembership(granted) =>
      ObservedMembership(m.targetRole, granted) in s.memberships && granted !in {m.sourceRole, m.targetRole}
    case RoleBypassesRls(role) =>
      role in {m.sourceRole, m.targetRole} && exists e :: e in s.postures && e.role == role && e.bypassRls
    case RoleIsSuperuser(role) =>
      role in {m.sourceRole, m.targetRole} && exists e :: e in s.postures && e.role == role && e.superuser
    case _ => false
  }

  lemma {:induction false} MembershipMembers(m: Manifest, s: Snapshot, x: Violation)
    ensures x in Collect(s.memberships, MembershipCheck(m)) <==>
            (x.MembershipBetweenRoles? || x.TargetMembership?) && RoleRefused(m, s, x)
  {
    CollectMembers(s.memberships, MembershipCheck(m));
    if (x.MembershipBetweenRoles? || x.TargetMembership?) && RoleRefused(m, s, x) {
      var e := if x.TargetMembership? then ObservedMembership(m.targetRole, x.grantedRole)
               else ObservedMembership(x.member, x.grantedRole);
      assert x in MembershipCheck(m)(e);
    }
  }

  lemma {:induction false} PostureMembers(m: Manifest, s: Snapshot, x: Violation)
    ensures x in Collect(s.postures, PostureCheck(m)) <==>
            (x.RoleBypassesRls? || x.RoleIsSuperuser?) && RoleRefused(m, s, x)
  {
    CollectMembers(s.postures, PostureCheck(m));
    if (x.RoleBypassesRls? || x.RoleIsSuperuser?) && RoleRefused(m, s, x) {
      var e :| e in s.postures && e.role == x.role && (if x.RoleBypassesRls? then e.bypassRls else e.superuser);
      assert x in PostureCheck(m)(e);
    }
  }

  /** Every membership and every attribute that escalates is reported. */
  lemma {:induction false} RoleMembers(m: Manifest, s: Snapshot, x: Violation)
    ensures x in RoleRefusals(m, s) <==> RoleRefused(m, s, x)
  {
    MembershipMembers(m, s, x);
    PostureMembers(m, s, x);
  }

  /** The first row of an object that records an owner records another than the one seen. */
  ghost predicate OwnerRefused(m: Manifest, v: View, x: Violation) {
    && x.OwnershipChange? && x.identity in v.objects && v.objects[x.identity].present
    && exists i: nat ::
         && i < |m.rows| && m.rows[i].identity == x.identity && m.rows[i].owner != ""
         && (forall j :: 0 <= j < i && m.rows[j].identity == x.identity ==> m.rows[j].owner == "")
         && v.objects[x.identity].owner != m.rows[i].owner
  }

  ghost predicate IsFirstOwned(rows: seq<GrantRow>, i: nat) {
    i < |rows| && rows[i].owner != ""
    && forall j :: 0 <= j < i && rows[j].identity == rows[i].identity ==> rows[j].owner == ""
  }

  function OwnedFirst(rows: seq<GrantRow>): seq<GrantRow> { FirstRows(Filter(rows, HasOwner())) }

  lemma {:induction false} OwnedSplit(rows: seq<GrantRow>)
    requires rows != []
    ensures OwnedFirst(rows) ==
            OwnedFirst(rows[..|rows| - 1]) + if IsFirstOwned(rows, |rows| - 1) then [rows[|rows| - 1]] else []
  {
    var init, last := rows[..|rows| - 1], rows[|rows| - 1];
    var owned := Filter(init, HasOwner());
    InitLast(rows);
    FilterSnoc(init, last, HasOwner());
    assert (owned + [last])[..|owned|] == owned;
    LastIsFirstOwned(rows);
  }

  lemma {:induction false} OwnedRowAt(rows: seq<GrantRow>, i: nat)
    requires IsFirstOwned(rows, i)
    ensures rows[i] in OwnedFirst(rows)
  {
    OwnedSplit(rows);
    if i < |rows| - 1 {
      OwnedRowAt(rows[..|rows| - 1], i);
    }
  }

  lemma {:induction false} OwnedRowStands(rows: seq<GrantRow>, row: GrantRow) returns (i: nat)
    requires row in OwnedFirst(rows)
    ensures IsFirstOwned(rows, i) && rows[i] == row
  {
    assert rows != [];
    OwnedSplit(rows);
    if row in OwnedFirst(rows[..|rows| - 1]) {
      i := OwnedRowStands(rows[..|rows| - 1], row);
    } else {
      i := |rows| - 1;
    }
  }

  lemma {:induction false} LastIsFirstOwned(rows: seq<GrantRow>)
    requires rows != []
    ensures var init, last := rows[..|rows| - 1], rows[|rows| - 1];
            IsFirstOwned(rows, |rows| - 1) <==>
            last.owner != "" && last.identity !in Identities(Filter(init, HasOwner()))
  {
    var init, last := rows[..|rows| - 1], rows[|rows| - 1];
    if last.identity in Identities(Filter(init, HasOwner())) {
      var row :| row in Filter(init, HasOwner()) && row.identity == last.identity;
      var j :| 0 <= j < |init| && init[j] == row;
      assert rows[j].identity == last.identity && rows[j].owner != "";
    }
    forall j | 0 <= j < |init| && init[j].owner != ""
      ensures init[j] in Filter(init, HasOwner())
    {
      assert init[j] in init;
    }
  }

  lemma {:induction false} OwnerChecked(v: View, row: GrantRow, x: Violation)
    ensures x in OwnerCheck(v.objects)(row) <==>
            && x == OwnershipChange(row.identity) && row.identity in v.objects && v.objects[row.identity].present
            && v.objects[row.identity].owner != row.owner
  {
  }

  lemma {:induction false} OwnerMembers(m: Manifest, v: View, x: Violation)
    ensures x in OwnershipRefusals(m, v) <==> OwnerRefused(m, v, x)
  {
    CollectMembers(OwnedRows(m), OwnerCheck(v.objects));
    if x in OwnershipRefusals(m, v) {
      var row :| row in OwnedRows(m) && x in OwnerCheck(v.objects)(row);
      var i := OwnedRowStands(m.rows, row);
      OwnerChecked(v, row, x);
    }
    if OwnerRefused(m, v, x) {
      var i: nat :|
        && i < |m.rows| && m.rows[i].identity == x.identity && m.rows[i].owner != ""
        && (forall j :: 0 <= j < i && m.rows[j].identity == x.identity ==> m.rows[j].owner == "")
        && v.objects[x.identity].owner != m.rows[i].owner;
      OwnedRowAt(m.rows, i);
      OwnerChecked(v, m.rows[i], x);
    }
  }

  ghost predicate LegacyRefused(c: Contract, m: Manifest, s: Snapshot, x: Violation) {
    && x.LegacyModulePrivilege? && x.identity !in c.moduleEraAllowlist
    && exists e :: e in s.legacyModulePrivileges && e.role == m.sourceRole && e.held
                   && e.identity == x.identity && e.privilege == x.privilege
  }

  /** Every privilege of the retired role in module storage outside the allowed objects is reported. */
  lemma {:induction false} LegacyMembers(c: Contract, m: Manifest, s: Snapshot, x: Violation)
    ensures x in LegacyRefusals(c, m, s) <==> LegacyRefused(c, m, s, x)
  {
    CollectMembers(SortBy(s.legacyModulePrivileges, PrivilegeKey()), LegacyCheck(c, m));
    if LegacyRefused(c, m, s, x) {
      var e :| e in s.legacyModulePrivileges && e.role == m.sourceRole && e.held
               && e.identity == x.identity && e.privilege == x.privilege;
      assert x in LegacyCheck(c, m)(e);
    }
  }

  // ----- denied relations

  ghost predicate DeniedRelation(m: Manifest, identity: string) {
    exists row ::
      row in m.rows && row.disposition.Denied? && row.objectKind == KIND_RELATION && row.identity == identity
  }

  /** A table privilege of a denied relation unanswered or held, or a column privilege unprobed or held on a column. */
  ghost predicate DenialRefused(m: Manifest, v: View, x: Violation) {
    match x
    case UnprobedDenial(identity, p) =>
      DeniedRelation(m, identity) && p in DENIED_TABLE_PRIVILEGES && Pair(identity, p) !in v.tableAnswers
    case DeniedPrivilegeHeld(identity, p) =>
      && DeniedRelation(m, identity) && p in DENIED_TABLE_PRIVILEGES
      && Pair(identity, p) in v.tableAnswers && v.tableAnswers[Pair(identity, p)].held
    case UnprobedColumnDenial(identity, p) =>
      && DeniedRelation(m, identity) && p in COLUMN_LEVEL_PRIVILEGES
      && (Pair(identity, p) !in v.columnAnswers || v.columnAnswers[Pair(identity, p)].columnsProbed == 0)
    case DeniedColumnPrivilegeHeld(identity, p) =>
      && DeniedRelation(m, identity) && p in COLUMN_LEVEL_PRIVILEGES
      && Pair(identity, p) in v.columnAnswers && v.columnAnswers[Pair(identity, p)].columnsProbed > 0
      && v.columnAnswers[Pair(identity, p)].columnsHeld != []
    case _ => false
  }

  lemma {:induction false} DeniedKeys(m: Manifest, key: Key)
    ensures key in DeniedRelationKeys(m) <==> key == Single(key.first) && DeniedRelation(m, key.first)
  {
    if key in DeniedRelationKeys(m) {
      var row :| row in m.rows && row.disposition.Denied? && row.objectKind == KIND_RELATION
                 && key == Key(0, row.identity, "", "");
    }
  }

  ghost predicate TableRefused(v: View, identity: string, x: Violation) {
    match x
    case UnprobedDenial(id, p) => id == identity && Pair(identity, p) !in v.tableAnswers
    case DeniedPrivilegeHeld(id, p) =>
      id == identity && Pair(identity, p) in v.tableAnswers && v.tableAnswers[Pair(identity, p)].held
    case _ => false
  }

  ghost predicate ColumnRefused(v: View, identity: string, x: Violation) {
    match x
    case UnprobedColumnDenial(id, p) =>
      id == identity
      && (Pair(identity, p) !in v.columnAnswers || v.columnAnswers[Pair(identity, p)].columnsProbed == 0)
    case DeniedColumnPrivilegeHeld(id, p) =>
      id == identity && Pair(identity, p) in v.columnAnswers && v.columnAnswers[Pair(identity, p)].columnsProbed > 0
      && v.columnAnswers[Pair(identity, p)].columnsHeld != []
    case _ => false
  }

  lemma {:induction false} TableMembers(v: View, identity: string, tables: seq<string>, x: Violation)
    ensures x in Collect(tables, TableCheck(v, identity)) <==>
            TableRefused(v, identity, x) && x.privilege in tables
  {
    CollectMembers(tables, TableCheck(v, identity));
    if TableRefused(v, identity, x) && x.privilege in tables {
      assert x in TableCheck(v, identity)(x.privilege);
    }
  }

  lemma {:induction false} ColumnMembers(v: View, identity: string, columns: seq<string>, x: Violation)
    ensures x in Collect(columns, ColumnCheck(v, identity)) <==>
            ColumnRefused(v, identity, x) && x.privilege in columns
  {
    CollectMembers(columns, ColumnCheck(v, identity));
    if ColumnRefused(v, identity, x) && x.privilege in columns {
      assert x in ColumnCheck(v, identity)(x.privilege);
    }
  }

  ghost predicate DenialRefusedAt(
      v: View, tables: seq<string>, columns: seq<string>, identity: string, x: Violation)
  {
    || (TableRefused(v, identity, x) && x.privilege in tables)
    || (ColumnRefused(v, identity, x) && x.privilege in columns)
  }

  lemma {:induction false} DenialChecked(
      v: View, tables: seq<string>, columns: seq<string>, identity: string, x: Violation)
    ensures x in DenialCheckOver(v, tables, columns)(Single(identity)) <==>
            DenialRefusedAt(v, tables, columns, identity, x)
  {
    TableMembers(v, identity, tables, x);
    ColumnMembers(v, identity, columns, x);
    var found, more := Collect(tables, TableCheck(v, identity)), Collect(columns, ColumnCheck(v, identity));
    assert DenialCheckOver(v, tables, columns)(Single(identity)) == found + more;
  }

  lemma {:induction false} DenialCollected(
      m: Manifest, v: View, tables: seq<string>, columns: seq<string>, keys: seq<Key>, x: Violation)
    requires forall key :: key in keys <==> key in DeniedRelationKeys(m)
    ensures x in Collect(keys, DenialCheckOver(v, tables, columns)) <==>
            exists identity :: DeniedRelation(m, identity) && DenialRefusedAt(v, tables, columns, identity, x)
  {
    var check := DenialCheckOver(v, tables, columns);
    CollectMembers(keys, check);
    if x in Collect(keys, check) {
      var key :| key in keys && x in check(key);
      DeniedKeys(m, key);
      DenialChecked(v, tables, columns, key.first, x);
    }
    if identity :| DeniedRelation(m, identity) && DenialRefusedAt(v, tables, columns, identity, x) {
      DeniedKeys(m, Single(identity));
      DenialChecked(v, tables, columns, identity, x);
    }
  }

  /** Both probes of every denied relation are judged, whatever the other one found. */
  lemma {:induction false} DenialMembers(m: Manifest, v: View, x: Violation)
    ensures x in DenialRefusals(m, v) <==> DenialRefused(m, v, x)
  {
    DenialCollected(m, v, DENIED_TABLE_PRIVILEGES, COLUMN_LEVEL_PRIVILEGES, SortedKeys(DeniedRelationKeys(m)), x);
  }

  // ----- denied functions

  /** What one wanted role's answer on a denied function draws. */
  ghost predicate AnswerRefused(m: Manifest, v: View, identity: string, executor: string, role: string, x: Violation) {
    var key := Pair(identity, role);
    var probed := key in v.executeAnswers && v.executeAnswers[key].probed;
    var effective := probed && v.executeAnswers[key].effective;
    match x
    case UnprobedExecuteDenial(id, r) => id == identity && r == role && !probed
    case NonEffectiveExecute(id, r) => id == identity && r == role && probed && !v.executeAnswers[key].effective
    case PublicExecuteInherited(id) =>
      id == identity && role == PUBLIC_PSEUDO_ROLE && effective && v.executeAnswers[key].held
    case DeniedExecuteHeld(id) =>
      id == identity && role == m.targetRole && role != PUBLIC_PSEUDO_ROLE && effective && v.executeAnswers[key].held
    case ExecutorCannotExecute(id, r) =>
      id == identity && r == role == executor && executor != NO_RUNTIME_EXECUTOR && effective
      && !v.executeAnswers[key].held
    case _ => false
  }

  lemma {:induction false} AnswerChecked(
      m: Manifest, v: View, identity: string, executor: string, role: string, x: Violation)
    ensures x in ExecuteCheck(m, v, identity, executor)(role) <==> AnswerRefused(m, v, identity, executor, role, x)
  {
  }

  /** The tenant role, PUBLIC, and the declared executor if there is one. */
  predicate Wanted(m: Manifest, executor: string, role: string) {
    role == m.targetRole || role == PUBLIC_PSEUDO_ROLE || (executor != NO_RUNTIME_EXECUTOR && role == executor)
  }

  /** What a denied function draws: no declared executor, or some wanted role's answer. */
  ghost predicate FunctionRefusedAt(c: Contract, m: Manifest, v: View, identity: string, x: Violation) {
    if identity !in c.executors then x == UndeclaredExecutor(identity)
    else exists role :: Wanted(m, c.executors[identity], role)
                        && AnswerRefused(m, v, identity, c.executors[identity], role, x)
  }

  ghost predicate DeniedFunction(m: Manifest, row: GrantRow) {
    row in m.rows && row.disposition.Denied? && row.objectKind == KIND_FUNCTION
  }

  ghost predicate FunctionRefused(c: Contract, m: Manifest, v: View, x: Violation) {
    exists row :: DeniedFunction(m, row) && FunctionRefusedAt(c, m, v, row.identity, x)
  }

  lemma {:induction false} FunctionChecked(c: Contract, m: Manifest, v: View, row: GrantRow, x: Violation)
    ensures x in FunctionCheck(c, m, v)(row) <==> FunctionRefusedAt(c, m, v, row.identity, x)
  {
    if row.identity in c.executors {
      var executor := c.executors[row.identity];
      var check := ExecuteCheck(m, v, row.identity, executor);
      CollectMembers(WantedRoles(m, executor), check);
      if x in Collect(WantedRoles(m, executor), check) {
        var role :| role in WantedRoles(m, executor) && x in check(role);
        WantedMembers(m, executor, role);
        AnswerChecked(m, v, row.identity, executor, role, x);
      }
      if role :| Wanted(m, executor, role) && AnswerRefused(m, v, row.identity, executor, role, x) {
        WantedMembers(m, executor, role);
        AnswerChecked(m, v, row.identity, executor, role, x);
      }
    }
  }

  lemma {:induction false} FirstUnknownStands(rows: seq<GrantRow>, section: string) returns (i: nat)
    requires FirstUnknownSection(rows) == Some(section)
    ensures i < |rows| && rows[i].section == section && !KnownSection(section)
    ensures forall j :: 0 <= j < i ==> KnownSection(rows[j].section)
  {
    var init := rows[..|rows| - 1];
    if FirstUnknownSection(init).Some? {
      i := FirstUnknownStands(init, section);
    } else {
      i := |rows| - 1;
      UnknownSectionExact(init);
      forall j | 0 <= j < i
        ensures KnownSection(rows[j].section)
      {
        assert init[j] in init;
      }
    }
  }

  /** Denied functions: an unknown section stops the guard; else every wanted role of every one is judged. */
  lemma {:induction false} FunctionMembers(c: Contract, m: Manifest, v: View)
    ensures FunctionRefusals(c, m, v).Failure? <==>
            exists row :: DeniedFunction(m, row) && !KnownSection(row.section)
    ensures FunctionRefusals(c, m, v).Failure? ==>
              FunctionRefusals(c, m, v).error.UnknownSection?
              && exists row :: DeniedFunction(m, row) && !KnownSection(row.section)
                               && row.section == FunctionRefusals(c, m, v).error.section
    ensures FunctionRefusals(c, m, v).Success? ==>
              forall x :: x in FunctionRefusals(c, m, v).value <==> FunctionRefused(c, m, v, x)
  {
    UnknownSectionExact(DeniedFunctions(m));
    if FirstUnknownSection(DeniedFunctions(m)).Some? {
      var i := FirstUnknownStands(DeniedFunctions(m), FirstUnknownSection(DeniedFunctions(m)).value);
      assert DeniedFunctions(m)[i] in DeniedFunctions(m);
    } else {
      forall x
        ensures x in FunctionRefusals(c, m, v).value <==> FunctionRefused(c, m, v, x)
      {
        FunctionMember(c, m, v, x);
      }
    }
  }

  lemma {:induction false} FunctionMember(c: Contract, m: Manifest, v: View, x: Violation)
    requires FunctionRefusals(c, m, v).Success?
    ensures x in FunctionRefusals(c, m, v).value <==> FunctionRefused(c, m, v, x)
  {
    CollectMembers(SortBy(DeniedFunctions(m), SortKey()), FunctionCheck(c, m, v));
    if x in FunctionRefusals(c, m, v).value {
      var row :| row in DeniedFunctions(m) && x in FunctionCheck(c, m, v)(row);
      FunctionChecked(c, m, v, row, x);
    }
    if FunctionRefused(c, m, v, x) {
      var row :| DeniedFunction(m, row) && FunctionRefusedAt(c, m, v, row.identity, x);
      assert row in DeniedFunctions(m);
      FunctionChecked(c, m, v, row, x);
    }
  }
}
