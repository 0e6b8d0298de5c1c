/**
 Each refusal of the guard is returned once, part after part in the order of the
 guard (app/privilege_manifest.py), whatever else is wrong at the same time.
 */
module GuardOrder {
  import opened Collections
  import opened PrivilegeManifest
  import opened CutoverGuard
  import opened GuardExactness
  import opened CleanSnapshots
  import opened Sensitivity
  import opened GuardMembers

  function Differ(): (Violation, Violation) -> bool { (v: Violation, w: Violation) => v != w }

  // ----- baselines

  /** Section totals in the order of the sections, then denial totals by name. */
  function BaselineBefore(): (Violation, Violation) -> bool {
    (v: Violation, w: Violation) =>
      || (v.BaselineMoved? && w.BaselineMoved? && SectionIndex(v.section) < SectionIndex(w.section))
      || (v.BaselineMoved? && w.DenialsMoved?)
      || (v.DenialsMoved? && w.DenialsMoved? && StringLess(v.section, w.section))
  }

  lemma {:induction false} SectionsInOrder()
    ensures forall i :: 0 <= i < |SECTIONS| ==> SectionIndex(SECTIONS[i]) == i
  {
    assert SECTION_SCHEMA_USAGE[0] == 's' && SECTION_SCHEMA_USAGE[1] == 'c' && SECTION_RELATIONS[0] == 'r';
    assert SECTION_SEQUENCES[0] == 's' && SECTION_SEQUENCES[1] == 'e' && SECTION_FUNCTIONS[0] == 'f';
    assert SECTION_CONTROL_PLANE[0] == 'c';
  }

  lemma {:induction false} TotalsOrdered(c: Contract, m: Manifest, sections: seq<string>)
    requires forall i, j :: 0 <= i < j < |sections| ==> SectionIndex(sections[i]) < SectionIndex(sections[j])
    ensures Ordered(Collect(sections, BaselineCheck(c, m)), BaselineBefore())
    ensures forall v :: v in Collect(sections, BaselineCheck(c, m)) ==> v.BaselineMoved?
  {
    CollectMembers(sections, BaselineCheck(c, m));
    CollectOrdered(sections, BaselineCheck(c, m), BaselineBefore());
  }

  lemma {:induction false} DenialTotalsOrdered(c: Contract, m: Manifest, keys: seq<Key>)
    requires Ascending(keys) && forall key :: key in keys ==> key == Single(key.first)
    ensures Ordered(Collect(keys, DenialCountCheck(c, m)), BaselineBefore())
    ensures forall v :: v in Collect(keys, DenialCountCheck(c, m)) ==> v.DenialsMoved?
  {
    CollectMembers(keys, DenialCountCheck(c, m));
    forall i, j | 0 <= i < j < |keys|
      ensures StringLess(keys[i].first, keys[j].first)
    {
      assert keys[i] in keys && keys[j] in keys && Less(keys[i], keys[j]);
    }
    CollectOrdered(keys, DenialCountCheck(c, m), BaselineBefore());
  }

  lemma {:induction false} KindsApart(vs: seq<Violation>, ws: seq<Violation>)
    requires Ordered(vs, BaselineBefore()) && Ordered(ws, BaselineBefore())
    requires (forall v :: v in vs ==> v.BaselineMoved?) && forall w :: w in ws ==> w.DenialsMoved?
    ensures Ordered(vs + ws, BaselineBefore())
  {
    forall i, j | 0 <= i < |vs| && 0 <= j < |ws|
      ensures BaselineBefore()(vs[i], ws[j])
    {
      assert vs[i] in vs && ws[j] in ws;
    }
    OrderedAppend(vs, ws, BaselineBefore());
  }

  lemma {:induction false} BaselineOrdered(c: Contract, m: Manifest)
    ensures Ordered(BaselineRefusals(c, m), BaselineBefore()) && Distinct(BaselineRefusals(c, m))
  {
    var keys := SortedKeys(DenialSections(c, m));
    SectionsInOrder();
    TotalsOrdered(c, m, SECTIONS);
    SortedKeysAscend(DenialSections(c, m));
    forall key | key in keys
      ensures key == Single(key.first)
    {
    }
    DenialTotalsOrdered(c, m, keys);
    KindsApart(Collect(SECTIONS, BaselineCheck(c, m)), Collect(keys, DenialCountCheck(c, m)));
    forall i | 0 <= i < |BaselineRefusals(c, m)|
      ensures !BaselineBefore()(BaselineRefusals(c, m)[i], BaselineRefusals(c, m)[i])
    {
      NotBeforeItself(BaselineRefusals(c, m)[i]);
    }
    OrderedIsDistinct(BaselineRefusals(c, m), BaselineBefore());
  }

  lemma {:induction false} NotBeforeItself(v: Violation)
    ensures !BaselineBefore()(v, v)
  {
    if v.DenialsMoved? {
      StringLessTotal(v.section, v.section);
    }
  }

  // ----- objects

  /** The first row with the identity. */
  function FirstAt(rows: seq<GrantRow>, identity: string): nat {
    if rows == [] || rows[0].identity == identity then 0 else 1 + FirstAt(rows[1..], identity)
  }

  function ObjectRank(rows: seq<GrantRow>): Violation -> nat {
    (v: Violation) =>
      match v
      case UnobservedObject(identity) => 3 * FirstAt(rows, identity)
      case ObjectVanished(identity) => 3 * FirstAt(rows, identity)
      case KindChange(identity) => 3 * FirstAt(rows, identity)
      case OverloadAmbiguity(identity) => 3 * FirstAt(rows, identity) + 1
      case OverloadConfusion(identity, _) => 3 * FirstAt(rows, identity) + 2
      case _ => 0
  }

  /** By the first row of the object, then kind, uniqueness, signature. */
  function ObjectBefore(rows: seq<GrantRow>): (Violation, Violation) -> bool {
    (v: Violation, w: Violation) => ObjectRank(rows)(v) < ObjectRank(rows)(w)
  }

  lemma {:induction false} FirstAtIs(rows: seq<GrantRow>, i: nat)
    requires IsFirst(rows, i)
    ensures FirstAt(rows, rows[i].identity) == i
  {
    if i > 0 {
      assert rows[0].identity != rows[i].identity;
      assert IsFirst(rows[1..], i - 1);
      FirstAtIs(rows[1..], i - 1);
    }
  }

  lemma {:induction false} RankedSingles(
      rows: seq<GrantRow>, a: seq<Violation>, b: seq<Violation>, c: seq<Violation>, base: nat)
    requires |a| <= 1 && |b| <= 1 && |c| <= 1
    requires (forall v :: v in a ==> ObjectRank(rows)(v) == base)
             && (forall v :: v in b ==> ObjectRank(rows)(v) == base + 1)
             && forall v :: v in c ==> ObjectRank(rows)(v) == base + 2
    ensures Ordered(a + b + c, ObjectBefore(rows))
    ensures forall v :: v in a + b + c ==> base <= ObjectRank(rows)(v) < base + 3
  {
    assert (a != [] ==> a[0] in a) && (b != [] ==> b[0] in b) && (c != [] ==> c[0] in c);
    OrderedAppend(a, b, ObjectBefore(rows));
    OrderedAppend(a + b, c, ObjectBefore(rows));
  }

  lemma {:induction false} ObjectCheckOrdered(rows: seq<GrantRow>, objects: map<string, ObservedObject>, row: GrantRow)
    ensures Ordered(ObjectCheck(objects)(row), ObjectBefore(rows))
    ensures forall v :: v in ObjectCheck(objects)(row) ==>
                          3 * FirstAt(rows, row.identity) <= ObjectRank(rows)(v) < 3 * FirstAt(rows, row.identity) + 3
  {
    if row.identity in objects && objects[row.identity].present {
      var e := objects[row.identity];
      var function_ := row.objectKind == KIND_FUNCTION;
      RankedSingles(
        rows,
        if e.objectKind != row.objectKind || e.relkind != row.relkind then [KindChange(row.identity)] else [],
        if function_ && e.candidateCount != 1 then [OverloadAmbiguity(row.identity)] else [],
        if function_ && e.resolvedIdentity != "" && e.resolvedIdentity != row.identity
        then [OverloadConfusion(row.identity, e.resolvedIdentity)] else [],
        3 * FirstAt(rows, row.identity));
    }
  }

  /** The first rows stand in the order of their positions. */
  lemma {:induction false} FirstRowsInOrder(rows: seq<GrantRow>, n: nat, i: nat, j: nat)
    requires n <= |rows| && i < j < |FirstRows(rows[..n])|
    ensures FirstAt(rows, FirstRows(rows[..n])[i].identity) < FirstAt(rows, FirstRows(rows[..n])[j].identity)
    decreases n
  {
    PrefixStep(rows, n - 1);
    var firsts := FirstRows(rows[..n - 1]);
    if j < |firsts| {
      FirstRowsInOrder(rows, n - 1, i, j);
    } else {
      assert FirstRows(rows[..n]) == firsts + [rows[n - 1]];
      FirstRowBefore(rows, n, firsts[i]);
    }
  }

  lemma {:induction false} FirstRowBefore(rows: seq<GrantRow>, n: nat, row: GrantRow)
    requires 0 < n <= |rows| && row in FirstRows(rows[..n - 1])
    requires rows[n - 1].identity !in Identities(rows[..n - 1])
    ensures FirstAt(rows, row.identity) < FirstAt(rows, rows[n - 1].identity) == n - 1
  {
    var i := FirstRowStands(rows[..n - 1], row);
    assert forall j :: 0 <= j < i ==> rows[..n - 1][j] == rows[j];
    assert IsFirst(rows, i) && rows[i] == row;
    FirstAtIs(rows, i);
    forall j | 0 <= j < n - 1
      ensures rows[j].identity != rows[n - 1].identity
    {
      assert rows[..n - 1][j] in rows[..n - 1];
    }
    FirstAtIs(rows, n - 1);
  }

  lemma {:induction false} ObjectsOrdered(m: Manifest, v: View)
    ensures Ordered(ObjectRefusals(m, v), ObjectBefore(m.rows)) && Distinct(ObjectRefusals(m, v))
  {
    var firsts, check := FirstRows(m.rows), ObjectCheck(v.objects);
    assert m.rows[..|m.rows|] == m.rows;
    forall row | row in firsts
      ensures Ordered(check(row), ObjectBefore(m.rows))
    {
      ObjectCheckOrdered(m.rows, v.objects, row);
    }
    forall i, j | 0 <= i < j < |firsts|
      ensures AllBefore(check(firsts[i]), check(firsts[j]), ObjectBefore(m.rows))
    {
      FirstRowsInOrder(m.rows, |m.rows|, i, j);
      ObjectCheckOrdered(m.rows, v.objects, firsts[i]);
      ObjectCheckOrdered(m.rows, v.objects, firsts[j]);
    }
    CollectOrdered(firsts, check, ObjectBefore(m.rows));
    OrderedIsDistinct(ObjectRefusals(m, v), ObjectBefore(m.rows));
  }

  // ----- privileges

  function ExpectedBefore(): (Violation, Violation) -> bool {
    (v: Violation, w: Violation) =>
      && (v.UnobservedPrivilege? || v.PrivilegeAbsent? || v.PrivilegeOrigin?)
      && (w.UnobservedPrivilege? || w.PrivilegeAbsent? || w.PrivilegeOrigin?)
      && Less(Pair(v.identity, v.privilege), Pair(w.identity, w.privilege))
  }

  lemma {:induction false} OneExpected(v: View, key: Key)
    requires key == Pair(key.first, key.second)
    ensures |ExpectedCheck(v)(key)| <= 1
    ensures forall x :: x in ExpectedCheck(v)(key) ==>
                          (x.UnobservedPrivilege? || x.PrivilegeAbsent? || x.PrivilegeOrigin?)
                          && Pair(x.identity, x.privilege) == key
  {
  }

  lemma {:induction false} ExpectedApart(v: View, a: Key, b: Key)
    requires a == Pair(a.first, a.second) && b == Pair(b.first, b.second) && Less(a, b)
    ensures AllBefore(ExpectedCheck(v)(a), ExpectedCheck(v)(b), ExpectedBefore())
  {
    OneExpected(v, a);
    OneExpected(v, b);
    var xs, ys := ExpectedCheck(v)(a), ExpectedCheck(v)(b);
    assert (xs != [] ==> xs[0] in xs) && (ys != [] ==> ys[0] in ys);
  }

  lemma {:induction false} ExpectedKeysOrdered(v: View, keys: seq<Key>)
    requires Ascending(keys) && forall key :: key in keys ==> key == Pair(key.first, key.second)
    ensures Ordered(Collect(keys, ExpectedCheck(v)), ExpectedBefore())
  {
    forall key | key in keys
      ensures Ordered(ExpectedCheck(v)(key), ExpectedBefore())
    {
      OneExpected(v, key);
    }
    forall i, j | 0 <= i < j < |keys|
      ensures AllBefore(ExpectedCheck(v)(keys[i]), ExpectedCheck(v)(keys[j]), ExpectedBefore())
    {
      assert keys[i] in keys && keys[j] in keys && Less(keys[i], keys[j]);
      ExpectedApart(v, keys[i], keys[j]);
    }
    CollectOrdered(keys, ExpectedCheck(v), ExpectedBefore());
  }

  lemma {:induction false} NotExpectedBeforeItself(x: Violation)
    ensures !ExpectedBefore()(x, x)
  {
    if ExpectedBefore()(x, x) {
      LessIrreflexive(Pair(x.identity, x.privilege), Pair(x.identity, x.privilege));
    }
  }

  lemma {:induction false} ExpectedOrdered(m: Manifest, v: View)
    ensures Ordered(ExpectedRefusals(m, v), ExpectedBefore()) && Distinct(ExpectedRefusals(m, v))
  {
    var keys := SortedKeys(ExpectedKeys(m));
    SortedKeysAscend(ExpectedKeys(m));
    forall key | key in keys
      ensures key == Pair(key.first, key.second)
    {
      ListedKeys(m, key);
    }
    ExpectedKeysOrdered(v, keys);
    forall i | 0 <= i < |ExpectedRefusals(m, v)|
      ensures !ExpectedBefore()(ExpectedRefusals(m, v)[i], ExpectedRefusals(m, v)[i])
    {
      NotExpectedBeforeItself(ExpectedRefusals(m, v)[i]);
    }
    OrderedIsDistinct(ExpectedRefusals(m, v), ExpectedBefore());
  }

  /** Every answer is filed under its identity and privilege. */
  ghost predicate PairKeys(v: View) { forall key :: key in v.privileges ==> key == Pair(key.first, key.second) }

  lemma {:induction false} ViewHasPairKeys(m: Manifest, s: Snapshot)
    ensures PairKeys(ViewOf(m, s))
  {
    var kept := Filter(s.privileges, OfTargetUndenied(m));
    IndexByKeys(kept, PrivilegeKey());
    forall key | key in IndexBy(kept, PrivilegeKey())
      ensures key == Pair(key.first, key.second)
    {
      assert PrivilegeKey()(IndexBy(kept, PrivilegeKey())[key]) == key;
    }
  }

  /** Unlisted privileges by identity and privilege, then preserved schemas by name. */
  function ExtraBefore(): (Violation, Violation) -> bool {
    (v: Violation, w: Violation) =>
      || (v.PrivilegeAdded? && w.PrivilegeAdded?
          && Less(Pair(v.identity, v.privilege), Pair(w.identity, w.privilege)))
      || (v.PrivilegeAdded? && w.ExclusionMoved?)
      || (v.ExclusionMoved? && w.ExclusionMoved? && Less(Single(v.scope), Single(w.scope)))
  }

  lemma {:induction false} AddedOrdered(keys: seq<Key>, preserved: map<string, int>)
    requires Ascending(keys) && forall key :: key in keys ==> key == Pair(key.first, key.second)
    ensures Ordered(Collect(keys, AddedCheck(preserved)), ExtraBefore())
    ensures forall x :: x in Collect(keys, AddedCheck(preserved)) ==> x.PrivilegeAdded?
  {
    CollectMembers(keys, AddedCheck(preserved));
    CollectOrdered(keys, AddedCheck(preserved), ExtraBefore());
  }

  lemma {:induction false} ExclusionsOrdered(keys: seq<Key>, extra: seq<Key>, preserved: map<string, int>)
    requires Ascending(keys) && forall key :: key in keys ==> key == Single(key.first)
    ensures Ordered(Collect(keys, ExclusionCheck(extra, preserved)), ExtraBefore())
    ensures forall x :: x in Collect(keys, ExclusionCheck(extra, preserved)) ==> x.ExclusionMoved?
  {
    CollectMembers(keys, ExclusionCheck(extra, preserved));
    CollectOrdered(keys, ExclusionCheck(extra, preserved), ExtraBefore());
  }

  lemma {:induction false} AddedThenMoved(vs: seq<Violation>, ws: seq<Violation>)
    requires Ordered(vs, ExtraBefore()) && Ordered(ws, ExtraBefore())
    requires (forall v :: v in vs ==> v.PrivilegeAdded?) && forall w :: w in ws ==> w.ExclusionMoved?
    ensures Ordered(vs + ws, ExtraBefore()) && Distinct(vs + ws)
  {
    forall i, j | 0 <= i < |vs| && 0 <= j < |ws|
      ensures ExtraBefore()(vs[i], ws[j])
    {
      assert vs[i] in vs && ws[j] in ws;
    }
    OrderedAppend(vs, ws, ExtraBefore());
    forall i | 0 <= i < |vs + ws|
      ensures !ExtraBefore()((vs + ws)[i], (vs + ws)[i])
    {
      NotExtraBeforeItself((vs + ws)[i]);
    }
    OrderedIsDistinct(vs + ws, ExtraBefore());
  }

  lemma {:induction false} NotExtraBeforeItself(x: Violation)
    ensures !ExtraBefore()(x, x)
  {
    if ExtraBefore()(x, x) {
      if x.PrivilegeAdded? {
        LessIrreflexive(Pair(x.identity, x.privilege), Pair(x.identity, x.privilege));
      } else {
        LessIrreflexive(Single(x.scope), Single(x.scope));
      }
    }
  }

  lemma {:induction false} ExtrasOrdered(m: Manifest, v: View)
    requires PairKeys(v)
    ensures var found := ExtraRefusals(ExtraKeys(m, v), PreservedScopes(m));
            Ordered(found, ExtraBefore()) && Distinct(found)
  {
    var extra, preserved := ExtraKeys(m, v), PreservedScopes(m);
    SortedKeysAscend(v.privileges.Keys);
    FilterAscends(SortedKeys(v.privileges.Keys), IsExtra(m, v));
    AddedOrdered(extra, preserved);
    SortedKeysAscend(ScopeKeys(preserved));
    ExclusionsOrdered(SortedKeys(ScopeKeys(preserved)), extra, preserved);
    AddedThenMoved(Collect(extra, AddedCheck(preserved)),
                   Collect(SortedKeys(ScopeKeys(preserved)), ExclusionCheck(extra, preserved)));
  }

  // ----- denied relations

  /** Where a privilege stands in the list. */
  function IndexIn(list: seq<string>, p: string): nat {
    if list == [] || list[0] == p then 0 else 1 + IndexIn(list[1..], p)
  }

  function DenialRank(tables: seq<string>, columns: seq<string>): Violation -> nat {
    (v: Violation) =>
      match v
      case UnprobedDenial(_, p) => IndexIn(tables, p)
      case DeniedPrivilegeHeld(_, p) => IndexIn(tables, p)
      case UnprobedColumnDenial(_, p) => |tables| + IndexIn(columns, p)
      case DeniedColumnPrivilegeHeld(_, p) => |tables| + IndexIn(columns, p)
      case _ => 0
  }

  predicate IsDenial(v: Violation) {
    v.UnprobedDenial? || v.DeniedPrivilegeHeld? || v.UnprobedColumnDenial? || v.DeniedColumnPrivilegeHeld?
  }

  /** By relation; within one, the table privileges in their order, then the column privileges in theirs. */
  function DenialBefore(tables: seq<string>, columns: seq<string>): (Violation, Violation) -> bool {
    (v: Violation, w: Violation) =>
      && IsDenial(v) && IsDenial(w)
      && (StringLess(v.identity, w.identity)
          || (v.identity == w.identity
              && DenialRank(tables, columns)(v) < DenialRank(tables, columns)(w)))
  }

  lemma {:induction false} IndexInIs(list: seq<string>, i: nat)
    requires Distinct(list) && i < |list|
    ensures IndexIn(list, list[i]) == i
  {
    if i > 0 {
      assert list[0] != list[i];
      assert forall a, b :: 0 <= a < b < |list[1..]| ==> list[1..][a] == list[a + 1] && list[1..][b] == list[b + 1];
      IndexInIs(list[1..], i - 1);
    }
  }

  lemma {:induction false} OneTable(v: View, tables: seq<string>, columns: seq<string>, identity: string, p: string)
    ensures |TableCheck(v, identity)(p)| <= 1
    ensures forall x :: x in TableCheck(v, identity)(p) ==>
                          IsDenial(x) && x.identity == identity
                          && DenialRank(tables, columns)(x) == IndexIn(tables, p)
  {
  }

  lemma {:induction false} OneColumn(v: View, tables: seq<string>, columns: seq<string>, identity: string, p: string)
    ensures |ColumnCheck(v, identity)(p)| <= 1
    ensures forall x :: x in ColumnCheck(v, identity)(p) ==>
                          IsDenial(x) && x.identity == identity
                          && DenialRank(tables, columns)(x) == |tables| + IndexIn(columns, p)
  {
  }

  lemma {:induction false} PrivilegesApart(
      vs: seq<Violation>, ws: seq<Violation>, identity: string, i: nat, j: nat, tables: seq<string>,
      columns: seq<string>)
    requires i < j
    requires forall x :: x in vs ==> IsDenial(x) && x.identity == identity && DenialRank(tables, columns)(x) == i
    requires forall x :: x in ws ==> IsDenial(x) && x.identity == identity && DenialRank(tables, columns)(x) == j
    ensures AllBefore(vs, ws, DenialBefore(tables, columns))
  {
    forall a, b | 0 <= a < |vs| && 0 <= b < |ws|
      ensures DenialBefore(tables, columns)(vs[a], ws[b])
    {
      assert vs[a] in vs && ws[b] in ws;
    }
  }

  /** A check that gives at most one refusal for each privilege of a list, ranked by its place there. */
  ghost predicate ByPlace(
      list: seq<string>, check: string -> seq<Violation>, offset: nat, identity: string,
      tables: seq<string>, columns: seq<string>)
  {
    forall p :: p in list ==>
      |check(p)| <= 1
      && forall x :: x in check(p) ==>
           IsDenial(x) && x.identity == identity && DenialRank(tables, columns)(x) == offset + IndexIn(list, p)
  }

  lemma {:induction false} PlacesOrdered(
      list: seq<string>, check: string -> seq<Violation>, offset: nat, identity: string,
      tables: seq<string>, columns: seq<string>)
    requires Distinct(list) && ByPlace(list, check, offset, identity, tables, columns)
    ensures Ordered(Collect(list, check), DenialBefore(tables, columns))
  {
    forall i, j | 0 <= i < j < |list|
      ensures AllBefore(check(list[i]), check(list[j]), DenialBefore(tables, columns))
    {
      IndexInIs(list, i);
      IndexInIs(list, j);
      assert list[i] in list && list[j] in list;
      PrivilegesApart(check(list[i]), check(list[j]), identity, offset + i, offset + j, tables, columns);
    }
    CollectOrdered(list, check, DenialBefore(tables, columns));
  }

  lemma {:induction false} PlacesRanked(
      list: seq<string>, check: string -> seq<Violation>, offset: nat, identity: string,
      tables: seq<string>, columns: seq<string>, x: Violation)
    requires Distinct(list) && ByPlace(list, check, offset, identity, tables, columns) && x in Collect(list, check)
    ensures IsDenial(x) && x.identity == identity && offset <= DenialRank(tables, columns)(x) < offset + |list|
  {
    CollectMembers(list, check);
    var p :| p in list && x in check(p);
    var i :| 0 <= i < |list| && list[i] == p;
    IndexInIs(list, i);
  }

  lemma {:induction false} TablesByPlace(v: View, tables: seq<string>, columns: seq<string>, identity: string)
    ensures ByPlace(tables, TableCheck(v, identity), 0, identity, tables, columns)
    ensures ByPlace(columns, ColumnCheck(v, identity), |tables|, identity, tables, columns)
  {
    forall p
      ensures |TableCheck(v, identity)(p)| <= 1 && |ColumnCheck(v, identity)(p)| <= 1
      ensures forall x :: x in TableCheck(v, identity)(p) ==>
                            IsDenial(x) && x.identity == identity
                            && DenialRank(tables, columns)(x) == IndexIn(tables, p)
      ensures forall x :: x in ColumnCheck(v, identity)(p) ==>
                            IsDenial(x) && x.identity == identity
                            && DenialRank(tables, columns)(x) == |tables| + IndexIn(columns, p)
    {
      OneTable(v, tables, columns, identity, p);
      OneColumn(v, tables, columns, identity, p);
    }
  }

  lemma {:induction false} RelationOrdered(v: View, tables: seq<string>, columns: seq<string>, identity: string)
    requires Distinct(tables) && Distinct(columns)
    ensures var found := DenialCheckOver(v, tables, columns)(Single(identity));
            && Ordered(found, DenialBefore(tables, columns))
            && forall x :: x in found ==> IsDenial(x) && x.identity == identity
  {
    var a, b := Collect(tables, TableCheck(v, identity)), Collect(columns, ColumnCheck(v, identity));
    TablesByPlace(v, tables, columns, identity);
    PlacesOrdered(tables, TableCheck(v, identity), 0, identity, tables, columns);
    PlacesOrdered(columns, ColumnCheck(v, identity), |tables|, identity, tables, columns);
    forall x | x in a
      ensures IsDenial(x) && x.identity == identity && DenialRank(tables, columns)(x) < |tables|
    {
      PlacesRanked(tables, TableCheck(v, identity), 0, identity, tables, columns, x);
    }
    forall x | x in b
      ensures IsDenial(x) && x.identity == identity && DenialRank(tables, columns)(x) >= |tables|
    {
      PlacesRanked(columns, ColumnCheck(v, identity), |tables|, identity, tables, columns, x);
    }
    TablesBeforeColumns(a, b, identity, tables, columns);
    assert DenialCheckOver(v, tables, columns)(Single(identity)) == a + b;
  }

  lemma {:induction false} TablesBeforeColumns(
      a: seq<Violation>, b: seq<Violation>, identity: string, tables: seq<string>, columns: seq<string>)
    requires Ordered(a, DenialBefore(tables, columns)) && Ordered(b, DenialBefore(tables, columns))
    requires forall x :: x in a ==> IsDenial(x) && x.identity == identity && DenialRank(tables, columns)(x) < |tables|
    requires forall x :: x in b ==> IsDenial(x) && x.identity == identity && DenialRank(tables, columns)(x) >= |tables|
    ensures Ordered(a + b, DenialBefore(tables, columns))
    ensures forall x :: x in a + b ==> IsDenial(x) && x.identity == identity
  {
    forall i, j | 0 <= i < |a| && 0 <= j < |b|
      ensures DenialBefore(tables, columns)(a[i], b[j])
    {
      assert a[i] in a && b[j] in b;
    }
    OrderedAppend(a, b, DenialBefore(tables, columns));
  }

  lemma {:induction false} RelationsOrdered(v: View, tables: seq<string>, columns: seq<string>, keys: seq<Key>)
    requires Distinct(tables) && Distinct(columns)
    requires Ascending(keys) && forall key :: key in keys ==> key == Single(key.first)
    ensures Ordered(Collect(keys, DenialCheckOver(v, tables, columns)), DenialBefore(tables, columns))
  {
    var check := DenialCheckOver(v, tables, columns);
    forall key | key in keys
      ensures Ordered(check(key), DenialBefore(tables, columns))
    {
      RelationOrdered(v, tables, columns, key.first);
    }
    forall i, j | 0 <= i < j < |keys|
      ensures AllBefore(check(keys[i]), check(keys[j]), DenialBefore(tables, columns))
    {
      assert keys[i] in keys && keys[j] in keys && Less(keys[i], keys[j]);
      RelationOrdered(v, tables, columns, keys[i].first);
      RelationOrdered(v, tables, columns, keys[j].first);
      RelationsApart(check(keys[i]), check(keys[j]), keys[i].first, keys[j].first, tables, columns);
    }
    CollectOrdered(keys, check, DenialBefore(tables, columns));
  }

  lemma {:induction false} RelationsApart(
      vs: seq<Violation>, ws: seq<Violation>, a: string, b: string, tables: seq<string>, columns: seq<string>)
    requires StringLess(a, b)
    requires forall v :: v in vs ==> IsDenial(v) && v.identity == a
    requires forall w :: w in ws ==> IsDenial(w) && w.identity == b
    ensures AllBefore(vs, ws, DenialBefore(tables, columns))
  {
    forall i, j | 0 <= i < |vs| && 0 <= j < |ws|
      ensures DenialBefore(tables, columns)(vs[i], ws[j])
    {
      assert vs[i] in vs && ws[j] in ws;
    }
  }

  lemma {:induction false} NotDenialBeforeItself(v: Violation, tables: seq<string>, columns: seq<string>)
    ensures !DenialBefore(tables, columns)(v, v)
  {
    if IsDenial(v) {
      StringLessTotal(v.identity, v.identity);
    }
  }

  /** Each refusal about a denied relation once, relation by relation, tables before columns. */
  lemma {:induction false} DenialsOrdered(m: Manifest, v: View)
    ensures Ordered(DenialRefusals(m, v), DenialBefore(DENIED_TABLE_PRIVILEGES, COLUMN_LEVEL_PRIVILEGES))
    ensures Distinct(DenialRefusals(m, v))
  {
    var keys := SortedKeys(DeniedRelationKeys(m));
    SortedKeysAscend(DeniedRelationKeys(m));
    TablePrivilegesDistinct();
    ColumnPrivilegesApart();
    forall key | key in keys
      ensures key == Single(key.first)
    {
      DeniedKeys(m, key);
    }
    RelationsOrdered(v, DENIED_TABLE_PRIVILEGES, COLUMN_LEVEL_PRIVILEGES, keys);
    forall i | 0 <= i < |DenialRefusals(m, v)|
      ensures !DenialBefore(DENIED_TABLE_PRIVILEGES, COLUMN_LEVEL_PRIVILEGES)(
                 DenialRefusals(m, v)[i], DenialRefusals(m, v)[i])
    {
      NotDenialBeforeItself(DenialRefusals(m, v)[i], DENIED_TABLE_PRIVILEGES, COLUMN_LEVEL_PRIVILEGES);
    }
    OrderedIsDistinct(DenialRefusals(m, v), DenialBefore(DENIED_TABLE_PRIVILEGES, COLUMN_LEVEL_PRIVILEGES));
  }

  lemma {:induction false} ColumnPrivilegesApart()
    ensures Distinct(COLUMN_LEVEL_PRIVILEGES)
  {
    assert COLUMN_LEVEL_PRIVILEGES[0][0] == 'S' && COLUMN_LEVEL_PRIVILEGES[1][0] == 'I'
           && COLUMN_LEVEL_PRIVILEGES[2][0] == 'U' && COLUMN_LEVEL_PRIVILEGES[3][0] == 'R';
  }
}
