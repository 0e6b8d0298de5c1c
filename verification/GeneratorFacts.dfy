/**
 What generation keeps (app/privilege_manifest.py): exactly when a census is
 accepted, one row for every entry, and the same rows whatever order they came in.
 */
module GeneratorFacts {
  import opened Collections
  import opened PersistencePlanes
  import opened PrivilegeManifest
  import opened Signatures
  import opened ManifestGenerator

  // ----- multisets of mapped sequences

  lemma {:induction false} MapAppend<T, U>(xs: seq<T>, ys: seq<T>, f: T -> U)
    ensures Map(xs + ys, f) == Map(xs, f) + Map(ys, f)
  {
  }

  lemma {:induction false} RemoveAt<T>(xs: seq<T>, i: nat)
    requires i < |xs|
    ensures multiset(xs) == multiset(xs[..i] + xs[i + 1..]) + multiset{xs[i]}
    ensures multiset(xs[..i] + xs[i + 1..]) == multiset(xs) - multiset{xs[i]}
  {
    assert xs == xs[..i] + [xs[i]] + xs[i + 1..];
  }

  lemma {:induction false} MapRemoveAt<T, U>(xs: seq<T>, i: nat, f: T -> U)
    requires i < |xs|
    ensures multiset(Map(xs, f)) == multiset(Map(xs[..i] + xs[i + 1..], f)) + multiset{f(xs[i])}
  {
    RemoveAt(Map(xs, f), i);
    assert Map(xs[..i] + xs[i + 1..], f) == Map(xs, f)[..i] + Map(xs, f)[i + 1..];
  }

  lemma {:induction false} MapMultiset<T, U>(xs: seq<T>, ys: seq<T>, f: T -> U)
    requires multiset(xs) == multiset(ys)
    ensures multiset(Map(xs, f)) == multiset(Map(ys, f))
    decreases |xs|
  {
    if xs == [] {
      assert |multiset(ys)| == 0;
    } else {
      var last := xs[|xs| - 1];
      assert last in multiset(xs) && last in multiset(ys);
      var i :| 0 <= i < |ys| && ys[i] == last;
      var n := |xs| - 1;
      RemoveAt(xs, n);
      RemoveAt(ys, i);
      MapMultiset(xs[..n] + xs[n + 1..], ys[..i] + ys[i + 1..], f);
      MapRemoveAt(xs, n, f);
      MapRemoveAt(ys, i, f);
    }
  }

  lemma {:induction false} MapSame<T, U>(xs: seq<T>, f: T -> U, g: T -> U)
    requires forall x :: x in xs ==> f(x) == g(x)
    ensures Map(xs, f) == Map(xs, g)
  {
  }

  lemma {:induction false} FilterSplit<T(!new)>(xs: seq<T>, p: T -> bool, q: T -> bool, either: T -> bool)
    requires forall x :: either(x) == (p(x) || q(x))
    requires forall x :: !(p(x) && q(x))
    ensures multiset(Filter(xs, either)) == multiset(Filter(xs, p)) + multiset(Filter(xs, q))
  {
    if xs != [] {
      FilterSplit(xs[..|xs| - 1], p, q, either);
    }
  }

  // ----- gathering

  lemma {:induction false} GatherSucceeds<T(!new)>(xs: seq<T>, rows: T -> Rows)
    ensures Gather(xs, rows).Success? <==> forall x :: x in xs ==> rows(x).Success?
  {
    if xs != [] {
      InitLast(xs);
      GatherSucceeds(xs[..|xs| - 1], rows);
    }
  }

  /** Entries that become one row each are gathered into their images, in order. */
  lemma {:induction false} GatherImages<T(!new)>(xs: seq<T>, rows: T -> Rows, image: T -> GrantRow)
    requires forall x :: x in xs ==> rows(x) == Success([image(x)])
    ensures Gather(xs, rows) == Success(Map(xs, image))
  {
    if xs != [] {
      InitLast(xs);
      GatherImages(xs[..|xs| - 1], rows, image);
    }
  }

  // ----- acceptance

  ghost predicate RelationsAccepted(c: Census, s: Sources) {
    && (forall e :: e in c.relations ==> e.directGrant && s.resolver.Resolve(e.schema, e.name).Success?)
    && (forall a, b :: a in c.relations && b in c.relations && a.schema == b.schema && a.name == b.name ==>
        a.kind == b.kind)
  }

  ghost predicate SequenceAccepted(s: Sources, e: CensusSequence) {
    var verdict := s.resolver.Resolve(e.schema, e.name);
    verdict.Success? && verdict.value.plane.TenantPlane?
  }

  ghost predicate FunctionAccepted(s: Sources, e: CensusFunction) {
    var parsed := ParseSignature(s.knownTypes, e.signature);
    && parsed.Success? && e.securityDefiner
    && FunctionIdentity(e.schema, parsed.value.0, parsed.value.1) in s.contract.executors
  }

  ghost predicate Accepted(c: Census, s: Sources) {
    && RelationsAccepted(c, s)
    && Unsettled(c, s) == {}
    && (forall e :: e in c.sequences ==> SequenceAccepted(s, e))
    && (forall e :: e in c.functions ==> FunctionAccepted(s, e))
  }

  lemma {:induction false} OneKind(entries: seq<CensusRelation>)
    requires entries != []
    ensures |Kinds(entries)| == 1 <==> forall a, b :: a in entries && b in entries ==> a.kind == b.kind
  {
    var kind := entries[0].kind;
    assert entries[0] in entries && kind in Kinds(entries);
    if |Kinds(entries)| == 1 {
      forall a | a in entries
        ensures a.kind == kind
      {
        assert a.kind in Kinds(entries);
        OneMember(Kinds(entries), a.kind, kind);
      }
    }
    if forall a, b :: a in entries && b in entries ==> a.kind == b.kind {
      assert Kinds(entries) == {kind};
    }
  }

  lemma {:induction false} OneMember<T>(s: set<T>, a: T, b: T)
    requires |s| == 1 && a in s && b in s
    ensures a == b
  {
    assert |s - {a}| == 0 && s == {a} + (s - {a});
  }

  lemma {:induction false} GroupAccepted(c: Census, s: Sources, key: Key)
    requires key in RelationKeys(c)
    ensures GroupRows(c, s, key).Success? <==>
            && s.resolver.Resolve(key.first, key.second).Success?
            && forall a, b :: a in c.relations && b in c.relations && RelationKey()(a) == key && RelationKey()(b) == key
                          ==> a.kind == b.kind
  {
    var entries := Filter(c.relations, Named(key));
    var e :| e in c.relations && key == Key(0, e.schema, e.name, "");
    assert RelationKey()(e) == key;
    assert e in entries;
    OneKind(entries);
  }

  /** The entries of one relation can be taken together. */
  ghost predicate GroupTaken(c: Census, s: Sources, key: Key) {
    && s.resolver.Resolve(key.first, key.second).Success?
    && forall a, b :: a in c.relations && b in c.relations && RelationKey()(a) == key && RelationKey()(b) == key ==>
         a.kind == b.kind
  }

  lemma {:induction false} AllGroupsTaken(c: Census, s: Sources, keys: seq<Key>)
    requires forall e :: e in c.relations ==> e.directGrant
    requires forall key :: key in keys <==> key in RelationKeys(c)
    ensures RelationsAccepted(c, s) <==> forall key :: key in keys ==> GroupTaken(c, s, key)
  {
    if forall key :: key in keys ==> GroupTaken(c, s, key) {
      forall e | e in c.relations
        ensures s.resolver.Resolve(e.schema, e.name).Success?
        ensures forall b :: b in c.relations && b.schema == e.schema && b.name == e.name ==> b.kind == e.kind
      {
        var key := Pair(e.schema, e.name);
        assert key in RelationKeys(c) && GroupTaken(c, s, key) && RelationKey()(e) == key;
      }
    }
    if RelationsAccepted(c, s) {
      forall key | key in keys
        ensures GroupTaken(c, s, key)
      {
        KeyEntry(c, key);
      }
    }
  }

  lemma {:induction false} RelationsGather(c: Census, s: Sources)
    requires forall e :: e in c.relations ==> e.directGrant
    ensures Gather(SortedKeys(RelationKeys(c)), GroupRowsOf(c, s)).Success? <==> RelationsAccepted(c, s)
  {
    var keys := SortedKeys(RelationKeys(c));
    GatherSucceeds(keys, GroupRowsOf(c, s));
    forall key | key in keys
      ensures GroupRowsOf(c, s)(key).Success? <==> GroupTaken(c, s, key)
    {
      GroupAccepted(c, s, key);
    }
    AllGroupsTaken(c, s, keys);
  }

  lemma {:induction false} KeyEntry(c: Census, key: Key)
    requires key in RelationKeys(c)
    ensures exists e :: e in c.relations && key == RelationKey()(e)
    ensures forall e :: key == RelationKey()(e) ==> e.schema == key.first && e.name == key.second
  {
    var e :| e in c.relations && key == Key(0, e.schema, e.name, "");
    assert RelationKey()(e) == key;
  }

  lemma {:induction false} RowsGathered(c: Census, s: Sources)
    requires forall e :: e in c.relations ==> e.directGrant
    ensures AllRows(c, s).Success? <==>
            && RelationsAccepted(c, s)
            && (forall e :: e in c.sequences ==> SequenceAccepted(s, e))
            && (forall e :: e in c.functions ==> FunctionAccepted(s, e))
  {
    RelationsGather(c, s);
    SequencesGather(c, s);
    FunctionsGather(c, s);
  }

  lemma {:induction false} SequencesGather(c: Census, s: Sources)
    ensures Gather(SortBy(c.sequences, SequenceOrder()), SequenceRowsOf(c, s)).Success? <==>
            forall e :: e in c.sequences ==> SequenceAccepted(s, e)
  {
    GatherSucceeds(SortBy(c.sequences, SequenceOrder()), SequenceRowsOf(c, s));
    assert forall e :: SequenceRowsOf(c, s)(e).Success? <==> SequenceAccepted(s, e);
  }

  lemma {:induction false} FunctionsGather(c: Census, s: Sources)
    ensures Gather(SortBy(c.functions, FunctionOrder()), FunctionRowsOf(c, s)).Success? <==>
            forall e :: e in c.functions ==> FunctionAccepted(s, e)
  {
    GatherSucceeds(SortBy(c.functions, FunctionOrder()), FunctionRowsOf(c, s));
    assert forall e :: FunctionRowsOf(c, s)(e).Success? <==> FunctionAccepted(s, e);
  }

  /** A census is turned into a manifest exactly when no entry of it has to be refused. */
  lemma {:induction false} AcceptanceExact(c: Census, s: Sources)
    ensures Generate(c, s).Success? <==> Accepted(c, s)
  {
    if forall e :: e in c.relations ==> e.directGrant {
      RowsGathered(c, s);
    }
  }

  // ----- one row for every entry

  function RelationImage(c: Census, s: Sources): CensusRelation -> GrantRow {
    (e: CensusRelation) =>
      var verdict := s.resolver.Resolve(e.schema, e.name);
      if verdict.Success? then RelationRow(c, e.kind, verdict.value, e) else UsageRow(c, e.schema)
  }

  function SequenceImage(c: Census, s: Sources): CensusSequence -> GrantRow {
    (e: CensusSequence) =>
      var verdict := s.resolver.Resolve(e.schema, e.name);
      if verdict.Success? then SequenceRow(c, verdict.value, e) else UsageRow(c, e.schema)
  }

  function FunctionImage(c: Census, s: Sources): CensusFunction -> GrantRow {
    (e: CensusFunction) =>
      var parsed := ParseSignature(s.knownTypes, e.signature);
      if parsed.Failure? then UsageRow(c, e.schema)
      else
        var identity := FunctionIdentity(e.schema, parsed.value.0, parsed.value.1);
        FunctionRow(c, e, parsed.value.0, parsed.value.1,
                    if identity in s.contract.executors then s.contract.executors[identity] else NO_RUNTIME_EXECUTOR)
  }

  function KeyIn(keys: seq<Key>): CensusRelation -> bool { (e: CensusRelation) => RelationKey()(e) in keys }

  lemma {:induction false} GroupImage(
      c: Census, s: Sources, key: Key, kind: string, verdict: PlaneVerdict, e: CensusRelation)
    requires RelationKey()(e) == key && e.kind == kind && s.resolver.Resolve(key.first, key.second) == Success(verdict)
    ensures RowOf(c, kind, verdict)(e) == RelationImage(c, s)(e)
  {
    assert key.first == e.schema && key.second == e.name;
  }

  lemma {:induction false} GroupSorted(
      c: Census, s: Sources, key: Key, entries: seq<CensusRelation>, kind: string, verdict: PlaneVerdict)
    requires s.resolver.Resolve(key.first, key.second) == Success(verdict)
    requires forall e :: e in entries ==> RelationKey()(e) == key && e.kind == kind
    ensures multiset(Map(SortBy(entries, RelationOrder()), RowOf(c, kind, verdict))) ==
            multiset(Map(entries, RelationImage(c, s)))
  {
    MapMultiset(SortBy(entries, RelationOrder()), entries, RowOf(c, kind, verdict));
    forall e | e in entries
      ensures RowOf(c, kind, verdict)(e) == RelationImage(c, s)(e)
    {
      GroupImage(c, s, key, kind, verdict, e);
    }
    MapSame(entries, RowOf(c, kind, verdict), RelationImage(c, s));
  }

  lemma {:induction false} GroupIsItsEntries(c: Census, s: Sources, key: Key)
    requires RelationsAccepted(c, s) && key in RelationKeys(c)
    ensures GroupRows(c, s, key).Success?
    ensures multiset(GroupRows(c, s, key).value) == multiset(Map(Filter(c.relations, Named(key)), RelationImage(c, s)))
  {
    KeyEntry(c, key);
    GroupAccepted(c, s, key);
    var entries := Filter(c.relations, Named(key));
    assert entries != [] && entries[0] in entries;
    GroupSorted(c, s, key, entries, entries[0].kind, s.resolver.Resolve(key.first, key.second).value);
  }

  lemma {:induction false} GroupsAreTheEntries(c: Census, s: Sources, keys: seq<Key>)
    requires RelationsAccepted(c, s) && Distinct(keys) && forall key :: key in keys ==> key in RelationKeys(c)
    ensures Gather(keys, GroupRowsOf(c, s)).Success?
    ensures multiset(Gather(keys, GroupRowsOf(c, s)).value) ==
            multiset(Map(Filter(c.relations, KeyIn(keys)), RelationImage(c, s)))
  {
    if keys == [] {
      FilterNone(c.relations, KeyIn(keys));
    } else {
      InitLast(keys);
      var init, last := keys[..|keys| - 1], keys[|keys| - 1];
      GroupsAreTheEntries(c, s, init);
      GroupIsItsEntries(c, s, last);
      FilterSplit(c.relations, KeyIn(init), Named(last), KeyIn(keys));
      MapSum(Filter(c.relations, KeyIn(keys)), Filter(c.relations, KeyIn(init)), Filter(c.relations, Named(last)),
             RelationImage(c, s));
    }
  }

  lemma {:induction false} MapSum<T, U>(all: seq<T>, a: seq<T>, b: seq<T>, f: T -> U)
    requires multiset(all) == multiset(a) + multiset(b)
    ensures multiset(Map(all, f)) == multiset(Map(a, f)) + multiset(Map(b, f))
  {
    MapMultiset(all, a + b, f);
    MapAppend(a, b, f);
  }

  lemma {:induction false} RelationRowsAreTheEntries(c: Census, s: Sources)
    requires RelationsAccepted(c, s)
    ensures Gather(SortedKeys(RelationKeys(c)), GroupRowsOf(c, s)).Success?
    ensures multiset(Gather(SortedKeys(RelationKeys(c)), GroupRowsOf(c, s)).value) ==
            multiset(Map(c.relations, RelationImage(c, s)))
  {
    SortedKeysAscend(RelationKeys(c));
    GroupsAreTheEntries(c, s, SortedKeys(RelationKeys(c)));
    EveryKeyIsIn(c, SortedKeys(RelationKeys(c)));
  }

  lemma {:induction false} EveryKeyIsIn(c: Census, keys: seq<Key>)
    requires forall e :: e in c.relations ==> Pair(e.schema, e.name) in keys
    ensures Filter(c.relations, KeyIn(keys)) == c.relations
  {
    forall e | e in c.relations
      ensures KeyIn(keys)(e)
    {
      assert RelationKey()(e) == Pair(e.schema, e.name);
    }
    FilterAll(c.relations, KeyIn(keys));
  }

  lemma {:induction false} SequenceRowsAreTheEntries(c: Census, s: Sources)
    requires forall e :: e in c.sequences ==> SequenceAccepted(s, e)
    ensures var rows := Gather(SortBy(c.sequences, SequenceOrder()), SequenceRowsOf(c, s));
            rows.Success? && multiset(rows.value) == multiset(Map(c.sequences, SequenceImage(c, s)))
  {
    var sorted := SortBy(c.sequences, SequenceOrder());
    forall e | e in sorted
      ensures SequenceRowsOf(c, s)(e) == Success([SequenceImage(c, s)(e)])
    {
      assert SequenceAccepted(s, e);
    }
    GatherImages(sorted, SequenceRowsOf(c, s), SequenceImage(c, s));
    MapMultiset(sorted, c.sequences, SequenceImage(c, s));
  }

  lemma {:induction false} FunctionRowsAreTheEntries(c: Census, s: Sources)
    requires forall e :: e in c.functions ==> FunctionAccepted(s, e)
    ensures var rows := Gather(SortBy(c.functions, FunctionOrder()), FunctionRowsOf(c, s));
            rows.Success? && multiset(rows.value) == multiset(Map(c.functions, FunctionImage(c, s)))
  {
    var sorted := SortBy(c.functions, FunctionOrder());
    forall e | e in sorted
      ensures FunctionRowsOf(c, s)(e) == Success([FunctionImage(c, s)(e)])
    {
      assert FunctionAccepted(s, e);
    }
    GatherImages(sorted, FunctionRowsOf(c, s), FunctionImage(c, s));
    MapMultiset(sorted, c.functions, FunctionImage(c, s));
  }

  /** Every distinct usage schema, every relation, sequence and function entry is one manifest row. */
  lemma {:induction false} RowsAreConserved(c: Census, s: Sources)
    requires Accepted(c, s)
    ensures Generate(c, s).Success?
    ensures multiset(Generate(c, s).value.rows) ==
            multiset(UsageRows(c)) + multiset(Map(c.relations, RelationImage(c, s)))
            + multiset(Map(c.sequences, SequenceImage(c, s))) + multiset(Map(c.functions, FunctionImage(c, s)))
    ensures |Generate(c, s).value.rows| ==
            |ObservedSchemas(c)| + |c.relations| + |c.sequences| + |c.functions|
  {
    AcceptanceExact(c, s);
    RelationRowsAreTheEntries(c, s);
    SequenceRowsAreTheEntries(c, s);
    FunctionRowsAreTheEntries(c, s);
    UsageCount(c);
    assert |multiset(Generate(c, s).value.rows)| == |Generate(c, s).value.rows|;
  }

  lemma {:induction false} UsageCount(c: Census)
    ensures |UsageRows(c)| == |ObservedSchemas(c)|
  {
    SortedKeysAscend(SchemaKeys(c));
    SingleCount(ObservedSchemas(c));
    assert SchemaKeys(c) == set schema | schema in ObservedSchemas(c) :: Single(schema);
  }

  lemma {:induction false} SingleCount(s: set<string>)
    ensures |set x | x in s :: Single(x)| == |s|
  {
    if s != {} {
      var x :| x in s;
      SingleCount(s - {x});
      assert (set y | y in s :: Single(y)) == (set y | y in s - {x} :: Single(y)) + {Single(x)};
    }
  }

  // ----- the order of the census

  /** The same entries, listed in another order. */
  ghost predicate Reordered(c: Census, d: Census) {
    && c.sourceRole == d.sourceRole && c.targetRole == d.targetRole && c.provenance == d.provenance
    && multiset(c.schemas) == multiset(d.schemas) && multiset(c.relations) == multiset(d.relations)
    && multiset(c.sequences) == multiset(d.sequences) && multiset(c.functions) == multiset(d.functions)
    && multiset(c.reverseGap) == multiset(d.reverseGap)
  }

  lemma {:induction false} SameMembers<T>(xs: seq<T>, ys: seq<T>)
    requires multiset(xs) == multiset(ys)
    ensures forall x :: x in xs <==> x in ys
  {
    assert forall x :: x in xs <==> x in multiset(xs);
    assert forall x :: x in ys <==> x in multiset(ys);
  }

  lemma {:induction false} ReorderedMembers(c: Census, d: Census)
    requires Reordered(c, d)
    ensures forall x :: x in c.schemas <==> x in d.schemas
    ensures forall x :: x in c.relations <==> x in d.relations
    ensures forall x :: x in c.sequences <==> x in d.sequences
    ensures forall x :: x in c.functions <==> x in d.functions
    ensures forall x :: x in c.reverseGap <==> x in d.reverseGap
  {
    SameMembers(c.schemas, d.schemas);
    SameMembers(c.relations, d.relations);
    SameMembers(c.sequences, d.sequences);
    SameMembers(c.functions, d.functions);
    SameMembers(c.reverseGap, d.reverseGap);
  }

  lemma {:induction false} ReorderedAccepted(c: Census, d: Census, s: Sources)
    requires Reordered(c, d) && Accepted(c, s)
    ensures Accepted(d, s)
  {
    ReorderedMembers(c, d);
    assert RelationSchemas(c) == RelationSchemas(d) && ObservedSchemas(c) == ObservedSchemas(d);
  }

  lemma {:induction false} ReorderedUsage(c: Census, d: Census)
    requires Reordered(c, d)
    ensures UsageRows(c) == UsageRows(d)
  {
    ReorderedMembers(c, d);
    assert SchemaKeys(c) == SchemaKeys(d);
    MapSame(SortedKeys(SchemaKeys(c)), UsageRowOf(c), UsageRowOf(d));
  }

  lemma {:induction false} ReorderedImages(c: Census, d: Census, s: Sources)
    requires Reordered(c, d)
    ensures multiset(Map(c.relations, RelationImage(c, s))) == multiset(Map(d.relations, RelationImage(d, s)))
    ensures multiset(Map(c.sequences, SequenceImage(c, s))) == multiset(Map(d.sequences, SequenceImage(d, s)))
    ensures multiset(Map(c.functions, FunctionImage(c, s))) == multiset(Map(d.functions, FunctionImage(d, s)))
  {
    MapSame(c.relations, RelationImage(c, s), RelationImage(d, s));
    MapSame(c.sequences, SequenceImage(c, s), SequenceImage(d, s));
    MapSame(c.functions, FunctionImage(c, s), FunctionImage(d, s));
    MapMultiset(c.relations, d.relations, RelationImage(d, s));
    MapMultiset(c.sequences, d.sequences, SequenceImage(d, s));
    MapMultiset(c.functions, d.functions, FunctionImage(d, s));
  }

  /** Two rows with one sort key are one row, and two gaps with one schema are one gap. */
  ghost predicate KeysTellApart(c: Census, s: Sources)
    requires Generate(c, s).Success?
  {
    var rows := Generate(c, s).value.rows;
    && (forall a, b :: a in rows && b in rows && SortKey()(a) == SortKey()(b) ==> a == b)
    && (forall a, b :: a in c.reverseGap && b in c.reverseGap && a.schema == b.schema ==> a == b)
  }

  lemma {:induction false} ReorderedExclusions(c: Census, d: Census)
    requires Reordered(c, d)
    requires forall a, b :: a in c.reverseGap && b in c.reverseGap && a.schema == b.schema ==> a == b
    ensures Exclusions(c) == Exclusions(d)
  {
    var x, y := SortBy(c.reverseGap, GapOrder()), SortBy(d.reverseGap, GapOrder());
    SortBySorted(c.reverseGap, GapOrder());
    SortBySorted(d.reverseGap, GapOrder());
    assert forall a, b :: a in x && b in x && GapOrder()(a) == GapOrder()(b) ==> a.schema == b.schema;
    SortedUnique(x, y, GapOrder());
  }

  /** Reordering the census changes nothing in the manifest. */
  lemma {:induction false} OrderIsIrrelevant(c: Census, d: Census, s: Sources)
    requires Reordered(c, d) && Generate(c, s).Success? && KeysTellApart(c, s)
    ensures Generate(d, s) == Generate(c, s)
  {
    AcceptanceExact(c, s);
    ReorderedAccepted(c, d, s);
    RowsAreConserved(c, s);
    RowsAreConserved(d, s);
    ReorderedUsage(c, d);
    ReorderedImages(c, d, s);
    ReorderedExclusions(c, d);
    SameSortedRows(Generate(c, s).value.rows, Generate(d, s).value.rows, AllRows(c, s).value, AllRows(d, s).value);
  }

  lemma {:induction false} SameSortedRows(x: seq<GrantRow>, y: seq<GrantRow>, a: seq<GrantRow>, b: seq<GrantRow>)
    requires x == SortBy(a, SortKey()) && y == SortBy(b, SortKey()) && multiset(x) == multiset(y)
    requires forall p, q :: p in x && q in x && SortKey()(p) == SortKey()(q) ==> p == q
    ensures x == y
  {
    SortBySorted(a, SortKey());
    SortBySorted(b, SortKey());
    SortedUnique(x, y, SortKey());
  }

  // ----- denials

  lemma {:induction false} MapMember<T(!new), U(!new)>(xs: seq<T>, f: T -> U, y: U)
    ensures y in Map(xs, f) <==> exists x :: x in xs && f(x) == y
  {
    if x :| x in xs && f(x) == y {
      var i :| 0 <= i < |xs| && xs[i] == x;
      assert Map(xs, f)[i] == y;
    }
  }

  /** A manifest row is the image of some census entry, and every image is a row. */
  ghost predicate IsImage(c: Census, s: Sources, row: GrantRow) {
    || (exists schema :: schema in c.schemas && row == UsageRow(c, schema))
    || (exists e :: e in c.relations && row == RelationImage(c, s)(e))
    || (exists e :: e in c.sequences && row == SequenceImage(c, s)(e))
    || (exists e :: e in c.functions && row == FunctionImage(c, s)(e))
  }

  lemma {:induction false} UsageMember(c: Census, row: GrantRow)
    ensures row in UsageRows(c) <==> exists schema :: schema in c.schemas && row == UsageRow(c, schema)
  {
    var keys := SortedKeys(SchemaKeys(c));
    MapMember(keys, UsageRowOf(c), row);
    if row in UsageRows(c) {
      var key :| key in keys && UsageRowOf(c)(key) == row;
      assert key.first in c.schemas;
    }
    if schema :| schema in c.schemas && row == UsageRow(c, schema) {
      assert Single(schema) in keys && UsageRowOf(c)(Single(schema)) == row;
    }
  }

  lemma {:induction false} SumMember<T>(all: seq<T>, w: seq<T>, x: seq<T>, y: seq<T>, z: seq<T>, e: T)
    requires multiset(all) == multiset(w) + multiset(x) + multiset(y) + multiset(z)
    ensures e in all <==> e in w || e in x || e in y || e in z
  {
    assert e in all <==> e in multiset(all);
  }

  lemma {:induction false} ImageMember(c: Census, s: Sources, row: GrantRow)
    ensures IsImage(c, s, row) <==>
            row in UsageRows(c) || row in Map(c.relations, RelationImage(c, s))
            || row in Map(c.sequences, SequenceImage(c, s)) || row in Map(c.functions, FunctionImage(c, s))
  {
    UsageMember(c, row);
    MapMember(c.relations, RelationImage(c, s), row);
    MapMember(c.sequences, SequenceImage(c, s), row);
    MapMember(c.functions, FunctionImage(c, s), row);
  }

  lemma {:induction false} RowsAreImages(c: Census, s: Sources, rows: seq<GrantRow>, row: GrantRow)
    requires Accepted(c, s) && Generate(c, s).Success? && rows == Generate(c, s).value.rows
    ensures row in rows <==> IsImage(c, s, row)
  {
    RowsAreConserved(c, s);
    SumMember(rows, UsageRows(c), Map(c.relations, RelationImage(c, s)), Map(c.sequences, SequenceImage(c, s)),
              Map(c.functions, FunctionImage(c, s)), row);
    ImageMember(c, s, row);
  }

  /** Which rows are denied, and by which of the two guards the denial is proved. */
  ghost predicate DisposedByPlane(c: Census, s: Sources, row: GrantRow) {
    && row.targetRole == c.targetRole && row.sourceRole == c.sourceRole && KnownSection(row.section)
    && (row.disposition.Grant? || row.disposition.Denied?)
    && (row.disposition.Denied? ==> row.objectKind == KIND_RELATION || row.objectKind == KIND_FUNCTION)
    && (row.objectKind == KIND_FUNCTION ==> row.disposition.Denied? && row.identity in s.contract.executors)
    && (row.objectKind == KIND_RELATION ==>
          var verdict := s.resolver.Resolve(row.schema, row.objectName);
          verdict.Success? && (row.disposition.Denied? <==> verdict.value.plane.ControlPlane?))
  }

  lemma {:induction false} UsageDisposed(c: Census, s: Sources, schema: string)
    ensures DisposedByPlane(c, s, UsageRow(c, schema))
  {
    KindsApart();
    assert SECTION_SCHEMA_USAGE == SECTIONS[0];
  }

  lemma {:induction false} RelationDisposed(c: Census, s: Sources, e: CensusRelation)
    requires s.resolver.Resolve(e.schema, e.name).Success?
    ensures DisposedByPlane(c, s, RelationImage(c, s)(e))
  {
    KindsApart();
    assert SECTION_RELATIONS == SECTIONS[1] && SECTION_CONTROL_PLANE == SECTIONS[4];
  }

  lemma {:induction false} SequenceDisposed(c: Census, s: Sources, e: CensusSequence)
    requires SequenceAccepted(s, e)
    ensures DisposedByPlane(c, s, SequenceImage(c, s)(e))
  {
    KindsApart();
    assert SECTION_SEQUENCES == SECTIONS[2];
  }

  lemma {:induction false} FunctionDisposed(c: Census, s: Sources, e: CensusFunction)
    requires FunctionAccepted(s, e)
    ensures DisposedByPlane(c, s, FunctionImage(c, s)(e))
  {
    KindsApart();
    assert SECTION_FUNCTIONS == SECTIONS[3];
  }

  lemma {:induction false} ImageDisposed(c: Census, s: Sources, row: GrantRow)
    requires Accepted(c, s) && IsImage(c, s, row)
    ensures DisposedByPlane(c, s, row)
  {
    if schema :| schema in c.schemas && row == UsageRow(c, schema) {
      UsageDisposed(c, s, schema);
    } else if e :| e in c.relations && row == RelationImage(c, s)(e) {
      RelationDisposed(c, s, e);
    } else if e :| e in c.sequences && row == SequenceImage(c, s)(e) {
      SequenceDisposed(c, s, e);
    } else {
      var e :| e in c.functions && row == FunctionImage(c, s)(e);
      FunctionDisposed(c, s, e);
    }
  }

  /**
   A relation's row is denied exactly when the resolver says control plane, every
   function's is denied, and no other: each denial has exactly one guard.
   */
  lemma {:induction false} DenialsFollowThePlane(c: Census, s: Sources, m: Manifest, row: GrantRow)
    requires Generate(c, s) == Success(m) && row in m.rows
    ensures DisposedByPlane(c, s, row)
    ensures KIND_RELATION != KIND_FUNCTION
  {
    AcceptanceExact(c, s);
    RowsAreImages(c, s, m.rows, row);
    ImageDisposed(c, s, row);
    KindsApart();
  }

  lemma {:induction false} KindsApart()
    ensures KIND_SCHEMA != KIND_RELATION && KIND_SCHEMA != KIND_FUNCTION && KIND_SEQUENCE != KIND_RELATION
    ensures KIND_SEQUENCE != KIND_FUNCTION && KIND_RELATION != KIND_FUNCTION && KIND_SCHEMA != KIND_SEQUENCE
  {
    assert KIND_SCHEMA[1] == 'c' && KIND_RELATION[1] == 'e' && KIND_SEQUENCE[1] == 'e' && KIND_FUNCTION[1] == 'u';
    assert KIND_RELATION[0] == 'r' && KIND_SEQUENCE[0] == 's';
  }
}
