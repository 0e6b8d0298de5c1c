/**
 The negative control (app/privilege_manifest.py): the snapshot a correctly
 cut-over database produces, and the proof that the guard refuses nothing on it
 beyond the baseline counts.
 */
module CleanSnapshots {
  import opened Collections
  import opened PrivilegeManifest
  import opened CutoverGuard
  import opened GuardExactness

  const CLEAN_COLUMNS_PROBED: nat := 12

  // ----- synthetic names

  function Digit(d: nat): char
    requires d < 10
  {
    '0' + d as char
  }

  function Digits(n: nat): string {
    if n < 10 then [Digit(n)] else Digits(n / 10) + [Digit(n % 10)]
  }

  /** The format `{n:03d}`. */
  function Padded(n: nat): string {
    if n < 10 then "00" + Digits(n) else if n < 100 then "0" + Digits(n) else Digits(n)
  }

  function PreservedName(n: nat): string { "preserved_" + Padded(n) }

  ghost function Reading(s: string): int {
    if s == "" then 0 else 10 * Reading(s[..|s| - 1]) + (s[|s| - 1] as int - '0' as int)
  }

  lemma {:induction false} ReadDigits(n: nat)
    ensures Reading(Digits(n)) == n
  {
    if n >= 10 {
      ReadDigits(n / 10);
      assert (Digits(n / 10) + [Digit(n % 10)])[..|Digits(n / 10)|] == Digits(n / 10);
    }
  }

  lemma {:induction false} ReadLeadingZero(s: string)
    ensures Reading("0" + s) == Reading(s)
  {
    if s == "" {
      assert ("0" + s)[..0] == "";
    } else {
      ReadLeadingZero(s[..|s| - 1]);
      assert ("0" + s)[..|s|] == "0" + s[..|s| - 1];
    }
  }

  lemma {:induction false} PaddedInjective(a: nat, b: nat)
    requires Padded(a) == Padded(b)
    ensures a == b
  {
    ReadPadded(a);
    ReadPadded(b);
  }

  lemma {:induction false} ReadPadded(n: nat)
    ensures Reading(Padded(n)) == n
  {
    ReadDigits(n);
    ReadLeadingZero(Digits(n));
    ReadLeadingZero("0" + Digits(n));
    assert "00" + Digits(n) == "0" + ("0" + Digits(n));
  }

  lemma {:induction false} AfterFirst(a: string, c: char, rest: string)
    requires c !in a
    ensures After(a + [c] + rest, c) == rest
  {
    if a == "" {
      assert a + [c] + rest == [c] + rest;
    } else {
      AfterFirst(a[1..], c, rest);
      assert (a + [c] + rest)[1..] == a[1..] + [c] + rest;
    }
  }

  lemma {:induction false} BeforeFirst(a: string, c: char, rest: string)
    requires c !in a
    ensures Before(a + [c] + rest, c) == a && Before(a, c) == a
  {
    if a == "" {
      assert a + [c] + rest == [c] + rest;
    } else {
      BeforeFirst(a[1..], c, rest);
      assert (a + [c] + rest)[1..] == a[1..] + [c] + rest;
    }
  }

  predicate PlainSchema(schema: string) { '.' !in schema && '(' !in schema }

  lemma {:induction false} SchemaOfIdentity(kind: string, schema: string, rest: string)
    requires ':' !in kind && PlainSchema(schema)
    ensures IdentitySchema(kind + ":" + schema + "." + rest) == Some(schema)
  {
    var identity := kind + ":" + schema + "." + rest;
    assert identity == kind + [':'] + (schema + ['.'] + rest);
    AfterFirst(kind, ':', schema + ['.'] + rest);
    BeforeFirst(schema, '.', rest);
    BeforeFirst(schema, '(', "");
  }

  // ----- the snapshot

  function CleanObject(): GrantRow -> ObservedObject {
    (row: GrantRow) => ObservedObject(row.identity, true, row.objectKind, row.owner, row.relkind, row.identity, 1)
  }

  function HeldBy(role: string): GrantRow -> ObservedPrivilege {
    (row: GrantRow) => ObservedPrivilege(row.identity, role, row.privilege, true, DIRECT_ORIGIN)
  }

  function NotDenied(): GrantRow -> bool { (row: GrantRow) => !row.disposition.Denied? }

  function StartsWith(s: string, prefix: string): bool { prefix <= s }

  function InModuleSchema(): GrantRow -> bool {
    (row: GrantRow) => StartsWith(row.schema, MODULE_SCHEMA_PREFIX)
  }

  function PreservedEntry(m: Manifest, scope: string, n: nat): ObservedPrivilege {
    ObservedPrivilege(RelationIdentity(scope, PreservedName(n)), m.targetRole, "SELECT", true, DIRECT_ORIGIN)
  }

  function PreservedRange(m: Manifest, scope: string, count: int): seq<ObservedPrivilege>
    decreases count
  {
    if count <= 0 then [] else PreservedRange(m, scope, count - 1) + [PreservedEntry(m, scope, count - 1)]
  }

  function PreservedEntries(m: Manifest): Key -> seq<ObservedPrivilege> {
    (key: Key) => PreservedRange(m, key.first, Total(PreservedScopes(m), key.first))
  }

  function DeniedAnswers(m: Manifest): Key -> seq<ObservedPrivilege> {
    (key: Key) =>
      Map(DENIED_TABLE_PRIVILEGES, (p: string) => ObservedPrivilege(key.first, m.targetRole, p, false, "none"))
  }

  function DeniedColumns(m: Manifest): Key -> seq<ObservedColumnGrant> {
    (key: Key) =>
      Map(COLUMN_LEVEL_PRIVILEGES,
          (p: string) => ObservedColumnGrant(key.first, m.targetRole, p, [], CLEAN_COLUMNS_PROBED))
  }

  function ExecuteAnswers(c: Contract, m: Manifest): GrantRow -> seq<ObservedExecute> {
    (row: GrantRow) =>
      var executor := if row.identity in c.executors then c.executors[row.identity] else NO_RUNTIME_EXECUTOR;
      [ObservedExecute(row.identity, m.targetRole, false, true, true),
       ObservedExecute(row.identity, PUBLIC_PSEUDO_ROLE, false, true, true)]
      + (if executor == NO_RUNTIME_EXECUTOR then [] else [ObservedExecute(row.identity, executor, true, true, true)])
  }

  predicate ExecutorsDeclared(c: Contract, m: Manifest) {
    forall row :: row in DeniedFunctions(m) ==> row.identity in c.executors
  }

  function CleanSnapshot(c: Contract, m: Manifest): Snapshot {
    Snapshot(
      Map(FirstRows(m.rows), CleanObject()),
      Map(Filter(m.rows, NotDenied()), HeldBy(m.targetRole))
      + Collect(SortedKeys(ScopeKeys(PreservedScopes(m))), PreservedEntries(m)),
      [ObservedPosture(m.sourceRole, false, false), ObservedPosture(m.targetRole, false, false)],
      [],
      Map(Filter(m.rows, InModuleSchema()), HeldBy(m.sourceRole)),
      Collect(SortedKeys(DeniedRelationKeys(m)), DeniedAnswers(m)),
      Collect(SortedKeys(DeniedRelationKeys(m)), DeniedColumns(m)),
      Collect(DeniedFunctions(m), ExecuteAnswers(c, m)))
  }

  // ----- the loops that build it

  method CleanExecutes(c: Contract, m: Manifest) returns (r: Option<seq<ObservedExecute>>)
    ensures r == if ExecutorsDeclared(c, m) then Some(Collect(DeniedFunctions(m), ExecuteAnswers(c, m))) else None
  {
    var denied := DeniedFunctions(m);
    var answers: seq<ObservedExecute> := [];
    for n := 0 to |denied|
      invariant answers == Collect(denied[..n], ExecuteAnswers(c, m))
      invariant forall row :: row in denied[..n] ==> row.identity in c.executors
    {
      PrefixStep(denied, n);
      assert denied[..n + 1] == denied[..n] + [denied[n]];
      var row := denied[n];
      if row.identity !in c.executors {
        return None;
      }
      answers := answers + ExecuteAnswers(c, m)(row);
    }
    assert denied[..|denied|] == denied;
    r := Some(answers);
  }

  method CleanObjects(m: Manifest) returns (objects: seq<ObservedObject>)
    ensures objects == Map(FirstRows(m.rows), CleanObject())
  {
    objects := [];
    var seen: set<string> := {};
    for n := 0 to |m.rows|
      invariant seen == Identities(m.rows[..n])
      invariant objects == Map(FirstRows(m.rows[..n]), CleanObject())
    {
      PrefixStep(m.rows, n);
      SeenStep(m.rows, n);
      var row := m.rows[n];
      if row.identity !in seen {
        seen := seen + {row.identity};
        objects := objects + [CleanObject()(row)];
      }
    }
    assert m.rows[..|m.rows|] == m.rows;
  }

  method CleanScope(m: Manifest, scope: string, count: int) returns (added: seq<ObservedPrivilege>)
    ensures added == PreservedRange(m, scope, count)
  {
    added := [];
    var index := 0;
    while index < count
      invariant 0 <= index && (index <= count || (index == 0 && count < 0))
      invariant added == PreservedRange(m, scope, index)
    {
      added := added + [PreservedEntry(m, scope, index)];
      index := index + 1;
    }
  }

  method CleanPreserved(m: Manifest) returns (entries: seq<ObservedPrivilege>)
    ensures entries == Collect(SortedKeys(ScopeKeys(PreservedScopes(m))), PreservedEntries(m))
  {
    entries := [];
    var scopes := SortedKeys(ScopeKeys(PreservedScopes(m)));
    for n := 0 to |scopes|
      invariant entries == Collect(scopes[..n], PreservedEntries(m))
    {
      PrefixStep(scopes, n);
      var added := CleanScope(m, scopes[n].first, Total(PreservedScopes(m), scopes[n].first));
      entries := entries + added;
    }
    assert scopes[..|scopes|] == scopes;
  }

  /** A denied function with no declared executor makes the construction fail. */
  method BuildCleanSnapshot(c: Contract, m: Manifest) returns (r: Option<Snapshot>)
    ensures r == if ExecutorsDeclared(c, m) then Some(CleanSnapshot(c, m)) else None
  {
    var objects := CleanObjects(m);
    var preserved := CleanPreserved(m);
    var executes := CleanExecutes(c, m);
    if executes.None? {
      return None;
    }
    var denied := SortedKeys(DeniedRelationKeys(m));
    r := Some(Snapshot(
      objects,
      Map(Filter(m.rows, NotDenied()), HeldBy(m.targetRole)) + preserved,
      [ObservedPosture(m.sourceRole, false, false), ObservedPosture(m.targetRole, false, false)],
      [],
      Map(Filter(m.rows, InModuleSchema()), HeldBy(m.sourceRole)),
      Collect(denied, DeniedAnswers(m)),
      Collect(denied, DeniedColumns(m)),
      executes.value));
  }

  // ----- what the manifest must be

  ghost predicate Synthetic(m: Manifest, identity: string) {
    exists scope, n: nat :: SyntheticAt(m, identity, scope, n)
  }

  ghost predicate SyntheticAt(m: Manifest, identity: string, scope: string, n: nat) {
    scope in PreservedScopes(m) && n < PreservedScopes(m)[scope] && PreservedEntry(m, scope, n).identity == identity
  }

  ghost predicate ExecutorsApart(c: Contract, m: Manifest) {
    forall row :: row in m.rows && row.disposition.Denied? && row.objectKind == KIND_FUNCTION ==>
      && KnownSection(row.section)
      && row.identity in c.executors
      && var executor := c.executors[row.identity];
         executor != NO_RUNTIME_EXECUTOR ==> executor != m.targetRole && executor != PUBLIC_PSEUDO_ROLE
  }

  ghost predicate WellFormed(c: Contract, m: Manifest) {
    && (forall row :: row in m.rows ==> row.targetRole == m.targetRole)
    && OneDispositionPerIdentity(m)
    && (forall a, b :: a in m.rows && b in m.rows && a.identity == b.identity ==> a.owner == b.owner)
    && (forall row :: row in m.rows && InModuleSchema()(row) ==> row.identity in c.moduleEraAllowlist)
    && ExecutorsApart(c, m)
    && (forall scope :: scope in PreservedScopes(m) ==> PlainSchema(scope) && PreservedScopes(m)[scope] >= 0)
    && (forall row :: row in m.rows ==> !Synthetic(m, row.identity))
  }

  // ----- the clean dictionaries

  lemma {:induction false} MapMembers<T(!new), U(!new)>(xs: seq<T>, f: T -> U)
    ensures forall y :: y in Map(xs, f) <==> exists x :: x in xs && f(x) == y
  {
    forall x | x in xs
      ensures f(x) in Map(xs, f)
    {
      var i :| 0 <= i < |xs| && xs[i] == x;
      assert Map(xs, f)[i] == f(x);
    }
  }

  lemma {:induction false} CleanObjectsApart(m: Manifest, x: ObservedObject, y: ObservedObject)
    requires x in Map(FirstRows(m.rows), CleanObject()) && y in Map(FirstRows(m.rows), CleanObject())
    requires ObjectKey()(x) == ObjectKey()(y)
    ensures x == y
  {
    MapMembers(FirstRows(m.rows), CleanObject());
    var a :| a in FirstRows(m.rows) && CleanObject()(a) == x;
    var b :| b in FirstRows(m.rows) && CleanObject()(b) == y;
    FirstRowPerIdentity(m.rows, a, b);
  }

  lemma {:induction false} CleanObjectsSeen(c: Contract, m: Manifest, row: GrantRow)
    requires row in FirstRows(m.rows)
    ensures Lookup(ViewOf(m, CleanSnapshot(c, m)).objects, row.identity) == Some(CleanObject()(row))
  {
    var objects := Map(FirstRows(m.rows), CleanObject());
    MapMembers(FirstRows(m.rows), CleanObject());
    forall x, y | x in objects && y in objects && ObjectKey()(x) == ObjectKey()(y)
      ensures x == y
    {
      CleanObjectsApart(m, x, y);
    }
    IndexByConsistent(objects, ObjectKey());
    assert CleanObject()(row) in objects;
  }

  lemma {:induction false} CleanObjectsIntact(c: Contract, m: Manifest)
    ensures ObjectsIntact(m, ViewOf(m, CleanSnapshot(c, m)))
  {
    forall row | row in FirstRows(m.rows)
      ensures ObjectIntact(ViewOf(m, CleanSnapshot(c, m)), row)
    {
      CleanObjectsSeen(c, m, row);
    }
  }

  lemma {:induction false} CleanOwners(c: Contract, m: Manifest)
    requires WellFormed(c, m)
    ensures OwnersUnchanged(m, ViewOf(m, CleanSnapshot(c, m)))
  {
    var v := ViewOf(m, CleanSnapshot(c, m));
    FirstRowsCover(m.rows);
    FirstRowsCover(Filter(m.rows, HasOwner()));
    forall row | row in OwnedRows(m)
      ensures row.identity in v.objects && v.objects[row.identity].owner == row.owner
    {
      assert row in m.rows && row.identity in Identities(FirstRows(m.rows));
      var first :| first in FirstRows(m.rows) && first.identity == row.identity;
      CleanObjectsSeen(c, m, first);
    }
  }

  lemma {:induction false} RangeMembers(m: Manifest, scope: string, count: int)
    ensures forall e :: e in PreservedRange(m, scope, count) <==>
                        exists n: nat :: n < count && e == PreservedEntry(m, scope, n)
    decreases count
  {
    if count > 0 {
      RangeMembers(m, scope, count - 1);
    }
  }

  lemma {:induction false} PreservedMembers(m: Manifest, e: ObservedPrivilege)
    ensures e in Collect(SortedKeys(ScopeKeys(PreservedScopes(m))), PreservedEntries(m)) <==>
            exists scope, n: nat :: SyntheticAt(m, e.identity, scope, n) && e == PreservedEntry(m, scope, n)
  {
    var preserved := PreservedScopes(m);
    var scopes := SortedKeys(ScopeKeys(preserved));
    CollectMembers(scopes, PreservedEntries(m));
    if e in Collect(scopes, PreservedEntries(m)) {
      var key :| key in scopes && e in PreservedEntries(m)(key);
      RangeMembers(m, key.first, Total(preserved, key.first));
      var n: nat :| n < Total(preserved, key.first) && e == PreservedEntry(m, key.first, n);
      assert SyntheticAt(m, e.identity, key.first, n);
    }
    if scope, n: nat :| SyntheticAt(m, e.identity, scope, n) && e == PreservedEntry(m, scope, n) {
      RangeMembers(m, scope, preserved[scope]);
      assert Single(scope) in scopes && e in PreservedEntries(m)(Single(scope));
    }
  }

  /** Every clean privilege is a granted row or a synthetic one, held directly by the target. */
  lemma {:induction false} CleanPrivilege(c: Contract, m: Manifest, e: ObservedPrivilege)
    requires e in CleanSnapshot(c, m).privileges
    ensures e.held && e.origin == DIRECT_ORIGIN && e.role == m.targetRole
    ensures (exists row :: row in m.rows && !row.disposition.Denied? && e == HeldBy(m.targetRole)(row))
            || (exists scope, n: nat :: SyntheticAt(m, e.identity, scope, n) && e == PreservedEntry(m, scope, n))
  {
    MapMembers(Filter(m.rows, NotDenied()), HeldBy(m.targetRole));
    PreservedMembers(m, e);
  }

  lemma {:induction false} CleanGrantSeen(c: Contract, m: Manifest, row: GrantRow)
    requires OneDispositionPerIdentity(m) && row in m.rows && !row.disposition.Denied?
    ensures HeldDirectly(ViewOf(m, CleanSnapshot(c, m)), Pair(row.identity, row.privilege))
  {
    var e := HeldBy(m.targetRole)(row);
    MapMembers(Filter(m.rows, NotDenied()), HeldBy(m.targetRole));
    assert e in CleanSnapshot(c, m).privileges;
    CleanEntrySeen(c, m, e);
  }

  lemma {:induction false} CleanEntrySeen(c: Contract, m: Manifest, e: ObservedPrivilege)
    requires e in CleanSnapshot(c, m).privileges && e.identity !in DeniedIdentities(m)
    ensures HeldDirectly(ViewOf(m, CleanSnapshot(c, m)), Pair(e.identity, e.privilege))
  {
    var kept := Filter(CleanSnapshot(c, m).privileges, OfTargetUndenied(m));
    CleanPrivilege(c, m, e);
    IndexByKeys(kept, PrivilegeKey());
    assert e in kept && PrivilegeKey()(e) == Pair(e.identity, e.privilege);
    CleanPrivilege(c, m, IndexBy(kept, PrivilegeKey())[Pair(e.identity, e.privilege)]);
  }

  /** A clean privilege the manifest does not list is a synthetic one. */
  lemma {:induction false} CleanExtra(c: Contract, m: Manifest, key: Key) returns (scope: string, n: nat)
    requires WellFormed(c, m)
    requires var v := ViewOf(m, CleanSnapshot(c, m)); key in v.privileges && IsExtra(m, v)(key)
    ensures SyntheticAt(m, key.first, scope, n) && key == Pair(PreservedEntry(m, scope, n).identity, "SELECT")
    ensures IdentitySchema(key.first) == Some(scope)
  {
    var kept := Filter(CleanSnapshot(c, m).privileges, OfTargetUndenied(m));
    IndexByKeys(kept, PrivilegeKey());
    var e := IndexBy(kept, PrivilegeKey())[key];
    assert key == Pair(e.identity, e.privilege);
    CleanPrivilege(c, m, e);
    assert forall row :: row in m.rows && !row.disposition.Denied? ==>
             Pair(row.identity, row.privilege) in ExpectedKeys(m);
    scope, n :| SyntheticAt(m, e.identity, scope, n) && e == PreservedEntry(m, scope, n);
    PreservedSchema(m, scope, n);
  }

  lemma {:induction false} PreservedSchema(m: Manifest, scope: string, n: nat)
    requires PlainSchema(scope)
    ensures IdentitySchema(PreservedEntry(m, scope, n).identity) == Some(scope)
  {
    assert "relation:" == "relation" + ":";
    SchemaOfIdentity("relation", scope, PreservedName(n));
  }

  lemma {:induction false} CleanSyntheticIsExtra(c: Contract, m: Manifest, scope: string, n: nat)
    requires WellFormed(c, m) && scope in PreservedScopes(m) && n < PreservedScopes(m)[scope]
    ensures Pair(PreservedEntry(m, scope, n).identity, "SELECT") in UnlistedIn(m, ViewOf(m, CleanSnapshot(c, m)), scope)
  {
    var e := PreservedEntry(m, scope, n);
    CleanSyntheticSeen(c, m, scope, n);
    SyntheticIsNoRow(c, m, e.identity, scope, n);
    PreservedSchema(m, scope, n);
  }

  lemma {:induction false} SyntheticIsNoRow(c: Contract, m: Manifest, identity: string, scope: string, n: nat)
    requires WellFormed(c, m) && SyntheticAt(m, identity, scope, n)
    ensures identity !in DeniedIdentities(m)
    ensures forall privilege :: Pair(identity, privilege) !in ExpectedKeys(m)
  {
    assert forall row :: row in m.rows ==> row.identity != identity;
  }

  lemma {:induction false} CleanSyntheticSeen(c: Contract, m: Manifest, scope: string, n: nat)
    requires WellFormed(c, m) && scope in PreservedScopes(m) && n < PreservedScopes(m)[scope]
    ensures HeldDirectly(ViewOf(m, CleanSnapshot(c, m)), Pair(PreservedEntry(m, scope, n).identity, "SELECT"))
  {
    var e := PreservedEntry(m, scope, n);
    assert SyntheticAt(m, e.identity, scope, n);
    SyntheticIsNoRow(c, m, e.identity, scope, n);
    PreservedMembers(m, e);
    CleanEntrySeen(c, m, e);
  }

  ghost function SyntheticKeys(m: Manifest, scope: string, count: nat): set<Key> {
    set n | 0 <= n < count :: Pair(PreservedEntry(m, scope, n).identity, "SELECT")
  }

  lemma {:induction false} SyntheticInjective(m: Manifest, scope: string, a: nat, b: nat)
    requires PreservedEntry(m, scope, a).identity == PreservedEntry(m, scope, b).identity
    ensures a == b
  {
    var prefix := "relation:" + scope + "." + "preserved_";
    assert PreservedEntry(m, scope, a).identity == prefix + Padded(a);
    assert PreservedEntry(m, scope, b).identity == prefix + Padded(b);
    assert (prefix + Padded(a))[|prefix|..] == Padded(a) && (prefix + Padded(b))[|prefix|..] == Padded(b);
    PaddedInjective(a, b);
  }

  lemma {:induction false} SyntheticCount(m: Manifest, scope: string, count: nat)
    ensures |SyntheticKeys(m, scope, count)| == count
  {
    if count > 0 {
      SyntheticCount(m, scope, count - 1);
      var last := Pair(PreservedEntry(m, scope, count - 1).identity, "SELECT");
      assert SyntheticKeys(m, scope, count) == SyntheticKeys(m, scope, count - 1) + {last};
      if last in SyntheticKeys(m, scope, count - 1) {
        var n :| 0 <= n < count - 1 && last == Key(0, PreservedEntry(m, scope, n).identity, "SELECT", "");
        SyntheticInjective(m, scope, n, count - 1);
        assert false;
      }
    }
  }

  lemma {:induction false} CleanUnlisted(c: Contract, m: Manifest, scope: string)
    requires WellFormed(c, m) && scope in PreservedScopes(m)
    ensures UnlistedIn(m, ViewOf(m, CleanSnapshot(c, m)), scope) == SyntheticKeys(m, scope, PreservedScopes(m)[scope])
  {
    var v := ViewOf(m, CleanSnapshot(c, m));
    forall key | key in UnlistedIn(m, v, scope)
      ensures key in SyntheticKeys(m, scope, PreservedScopes(m)[scope])
    {
      var found, n := CleanExtra(c, m, key);
    }
    forall n: nat | n < PreservedScopes(m)[scope]
      ensures Pair(PreservedEntry(m, scope, n).identity, "SELECT") in UnlistedIn(m, v, scope)
    {
      CleanSyntheticIsExtra(c, m, scope, n);
    }
  }

  lemma {:induction false} CleanNothingUnlisted(c: Contract, m: Manifest)
    requires WellFormed(c, m)
    ensures NothingUnlisted(m, ViewOf(m, CleanSnapshot(c, m)))
  {
    var v := ViewOf(m, CleanSnapshot(c, m));
    forall key | key in v.privileges && IsExtra(m, v)(key)
      ensures IdentitySchema(key.first).Some? && IdentitySchema(key.first).value in PreservedScopes(m)
    {
      var scope, n := CleanExtra(c, m, key);
    }
    forall scope | scope in PreservedScopes(m)
      ensures |UnlistedIn(m, v, scope)| == PreservedScopes(m)[scope]
    {
      CleanUnlisted(c, m, scope);
      SyntheticCount(m, scope, PreservedScopes(m)[scope]);
    }
  }

  lemma {:induction false} CleanTables(c: Contract, m: Manifest, identity: string, p: string)
    requires Single(identity) in DeniedRelationKeys(m) && p in DENIED_TABLE_PRIVILEGES
    ensures var v := ViewOf(m, CleanSnapshot(c, m));
            Pair(identity, p) in v.tableAnswers && !v.tableAnswers[Pair(identity, p)].held
  {
    var keys := SortedKeys(DeniedRelationKeys(m));
    var answers := Collect(keys, DeniedAnswers(m));
    CollectMembers(keys, DeniedAnswers(m));
    forall e | e in answers
      ensures !e.held && e.role == m.targetRole
    {
      var key :| key in keys && e in DeniedAnswers(m)(key);
    }
    var e := ObservedPrivilege(identity, m.targetRole, p, false, "none");
    var i :| 0 <= i < |DENIED_TABLE_PRIVILEGES| && DENIED_TABLE_PRIVILEGES[i] == p;
    assert DeniedAnswers(m)(Single(identity))[i] == e;
    assert e in answers;
    IndexByKeys(Filter(answers, OfTarget(m)), PrivilegeKey());
    assert PrivilegeKey()(e) == Pair(identity, p);
  }

  lemma {:induction false} CleanColumns(c: Contract, m: Manifest, identity: string, p: string)
    requires Single(identity) in DeniedRelationKeys(m) && p in COLUMN_LEVEL_PRIVILEGES
    ensures var v := ViewOf(m, CleanSnapshot(c, m));
            Pair(identity, p) in v.columnAnswers && v.columnAnswers[Pair(identity, p)].columnsProbed > 0
            && v.columnAnswers[Pair(identity, p)].columnsHeld == []
  {
    var keys := SortedKeys(DeniedRelationKeys(m));
    var answers := Collect(keys, DeniedColumns(m));
    CollectMembers(keys, DeniedColumns(m));
    forall e | e in answers
      ensures e.columnsHeld == [] && e.columnsProbed > 0 && e.role == m.targetRole
    {
      var key :| key in keys && e in DeniedColumns(m)(key);
    }
    var e := ObservedColumnGrant(identity, m.targetRole, p, [], CLEAN_COLUMNS_PROBED);
    var i :| 0 <= i < |COLUMN_LEVEL_PRIVILEGES| && COLUMN_LEVEL_PRIVILEGES[i] == p;
    assert DeniedColumns(m)(Single(identity))[i] == e;
    assert e in answers;
    IndexByKeys(Filter(answers, ColumnsOfTarget(m)), ColumnKey());
    assert ColumnKey()(e) == Pair(identity, p);
  }

  lemma {:induction false} CleanRelationsDenied(c: Contract, m: Manifest)
    ensures RelationsDenied(m, ViewOf(m, CleanSnapshot(c, m)))
  {
    var v := ViewOf(m, CleanSnapshot(c, m));
    forall row | row in m.rows && row.disposition.Denied? && row.objectKind == KIND_RELATION
      ensures RelationDenied(v, row.identity)
    {
      assert Single(row.identity) in DeniedRelationKeys(m);
      forall p | p in DENIED_TABLE_PRIVILEGES
        ensures Pair(row.identity, p) in v.tableAnswers && !v.tableAnswers[Pair(row.identity, p)].held
      {
        CleanTables(c, m, row.identity, p);
      }
      forall p | p in COLUMN_LEVEL_PRIVILEGES
        ensures Pair(row.identity, p) in v.columnAnswers && v.columnAnswers[Pair(row.identity, p)].columnsProbed > 0
                && v.columnAnswers[Pair(row.identity, p)].columnsHeld == []
      {
        CleanColumns(c, m, row.identity, p);
      }
    }
  }

  lemma {:induction false} ExecuteAnswerShape(c: Contract, m: Manifest, row: GrantRow, e: ObservedExecute)
    requires ExecutorsApart(c, m) && row in DeniedFunctions(m)
    ensures e in ExecuteAnswers(c, m)(row) <==>
            || e == ObservedExecute(row.identity, m.targetRole, false, true, true)
            || e == ObservedExecute(row.identity, PUBLIC_PSEUDO_ROLE, false, true, true)
            || (c.executors[row.identity] != NO_RUNTIME_EXECUTOR
                && e == ObservedExecute(row.identity, c.executors[row.identity], true, true, true))
  {
    var answers := ExecuteAnswers(c, m)(row);
    assert answers[0] == ObservedExecute(row.identity, m.targetRole, false, true, true);
    assert answers[1] == ObservedExecute(row.identity, PUBLIC_PSEUDO_ROLE, false, true, true);
    if c.executors[row.identity] != NO_RUNTIME_EXECUTOR {
      assert answers[2] == ObservedExecute(row.identity, c.executors[row.identity], true, true, true);
    }
  }

  lemma {:induction false} CleanExecuteSeen(c: Contract, m: Manifest, row: GrantRow, e: ObservedExecute)
    requires ExecutorsApart(c, m) && row in DeniedFunctions(m) && e in ExecuteAnswers(c, m)(row)
    ensures Answered(ViewOf(m, CleanSnapshot(c, m)), e.identity, e.role, e.held)
  {
    var denied := DeniedFunctions(m);
    var answers := Collect(denied, ExecuteAnswers(c, m));
    CollectMembers(denied, ExecuteAnswers(c, m));
    IndexByKeys(answers, ExecuteKey());
    assert e in answers && ExecuteKey()(e) == Pair(e.identity, e.role);
    var last := IndexBy(answers, ExecuteKey())[Pair(e.identity, e.role)];
    var other :| other in denied && last in ExecuteAnswers(c, m)(other);
    ExecuteAnswerShape(c, m, other, last);
    ExecuteAnswerShape(c, m, row, e);
  }

  lemma {:induction false} CleanFunctionsSealed(c: Contract, m: Manifest)
    requires ExecutorsApart(c, m)
    ensures FunctionsSealed(c, m, ViewOf(m, CleanSnapshot(c, m)))
  {
    forall row | row in m.rows && row.disposition.Denied? && row.objectKind == KIND_FUNCTION
      ensures FunctionSealed(c, m, ViewOf(m, CleanSnapshot(c, m)), row)
    {
      var a := ObservedExecute(row.identity, m.targetRole, false, true, true);
      var b := ObservedExecute(row.identity, PUBLIC_PSEUDO_ROLE, false, true, true);
      ExecuteAnswerShape(c, m, row, a);
      ExecuteAnswerShape(c, m, row, b);
      CleanExecuteSeen(c, m, row, a);
      CleanExecuteSeen(c, m, row, b);
      var executor := c.executors[row.identity];
      if executor != NO_RUNTIME_EXECUTOR {
        var e := ObservedExecute(row.identity, executor, true, true, true);
        ExecuteAnswerShape(c, m, row, e);
        CleanExecuteSeen(c, m, row, e);
      }
    }
  }

  lemma {:induction false} CleanLegacy(c: Contract, m: Manifest)
    requires WellFormed(c, m)
    ensures LegacyStaysOut(c, m, CleanSnapshot(c, m))
  {
    MapMembers(Filter(m.rows, InModuleSchema()), HeldBy(m.sourceRole));
  }

  lemma {:induction false} CleanIsSound(c: Contract, m: Manifest)
    requires WellFormed(c, m)
    ensures SoundBesidesBaseline(c, m, CleanSnapshot(c, m))
  {
    var s := CleanSnapshot(c, m);
    CleanObjectsIntact(c, m);
    CleanOwners(c, m);
    forall key | key in ExpectedKeys(m)
      ensures HeldDirectly(ViewOf(m, s), key)
    {
      var row :| row in m.rows && row.targetRole == m.targetRole && !row.disposition.Denied?
                 && key == Key(0, row.identity, row.privilege, "");
      CleanGrantSeen(c, m, row);
    }
    CleanNothingUnlisted(c, m);
    CleanLegacy(c, m);
    CleanRelationsDenied(c, m);
    CleanFunctionsSealed(c, m);
  }

  /** On the clean snapshot of a well-formed manifest the guard reports the baseline counts and nothing else. */
  lemma {:induction false} CleanSnapshotIsClean(c: Contract, m: Manifest)
    requires WellFormed(c, m)
    ensures CutoverRefusals(c, m, CleanSnapshot(c, m)) == Success(BaselineRefusals(c, m))
  {
    CleanIsSound(c, m);
    PartsExact(c, m, CleanSnapshot(c, m));
  }
}
