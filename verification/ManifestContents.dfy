/**
 What a generated manifest says (app/privilege_manifest.py), told from the census
 and the declarations alone: which rows there are, and what stands in each.
 */
module ManifestContents {
  import opened Collections
  import opened PersistencePlanes
  import opened PrivilegeManifest
  import opened Signatures
  import opened ManifestGenerator
  import opened GeneratorFacts

  // ----- rows and entries

  /** What a row grants or denies, and what the object was found to be. */
  datatype Fact = Fact(
    identity: string, schema: string, name: string, privilege: string, relkind: string, owner: string)

  function FactOf(): GrantRow -> Fact {
    (row: GrantRow) => Fact(row.identity, row.schema, row.objectName, row.privilege, row.relkind, row.owner)
  }

  function OfKind(kind: string): GrantRow -> bool { (row: GrantRow) => row.objectKind == kind }

  function RelationFact(): CensusRelation -> Fact {
    (e: CensusRelation) => Fact("relation:" + e.schema + "." + e.name, e.schema, e.name, e.privilege, e.kind, e.owner)
  }

  function SequenceFact(): CensusSequence -> Fact {
    (e: CensusSequence) => Fact("sequence:" + e.schema + "." + e.name, e.schema, e.name, e.privilege, "", "")
  }

  /** Name and argument types as the signature is read. */
  function FunctionFact(known: set<string>): CensusFunction -> Fact {
    (e: CensusFunction) =>
      var read := ParseSignature(known, e.signature);
      if read.Failure? then Fact("", "", "", "", "", "")
      else
        Fact("function:" + e.schema + "." + read.value.0 + "(" + read.value.1 + ")", e.schema, read.value.0, "EXECUTE",
             "", e.owner)
  }

  function SchemaFact(): string -> Fact {
    (schema: string) => Fact("schema:" + schema, schema, schema, "USAGE", "", "")
  }

  // ----- filtering what was conserved

  lemma {:induction false} FilterRemoveAt<T(!new)>(xs: seq<T>, i: nat, p: T -> bool)
    requires i < |xs|
    ensures multiset(Filter(xs, p)) ==
            multiset(Filter(xs[..i] + xs[i + 1..], p)) + if p(xs[i]) then multiset{xs[i]} else multiset{}
  {
    assert xs == xs[..i] + [xs[i]] + xs[i + 1..];
    FilterAppend(xs[..i] + [xs[i]], xs[i + 1..], p);
    FilterSnoc(xs[..i], xs[i], p);
    FilterAppend(xs[..i], xs[i + 1..], p);
  }

  lemma {:induction false} FilterMultiset<T(!new)>(xs: seq<T>, ys: seq<T>, p: T -> bool)
    requires multiset(xs) == multiset(ys)
    ensures multiset(Filter(xs, p)) == multiset(Filter(ys, p))
    decreases |xs|
  {
    if xs == [] {
      assert |multiset(ys)| == 0;
    } else {
      var n := |xs| - 1;
      assert xs[n] in multiset(ys);
      var j :| 0 <= j < |ys| && ys[j] == xs[n];
      RemoveAt(xs, n);
      RemoveAt(ys, j);
      assert xs[..n] + xs[n + 1..] == xs[..n];
      FilterMultiset(xs[..n], ys[..j] + ys[j + 1..], p);
      FilterRemoveAt(xs, n, p);
      FilterRemoveAt(ys, j, p);
    }
  }

  lemma {:induction false} MapTwice<T, U, V>(xs: seq<T>, f: T -> U, g: U -> V, h: T -> V)
    requires forall x :: x in xs ==> g(f(x)) == h(x)
    ensures Map(Map(xs, f), g) == Map(xs, h)
  {
  }

  lemma {:induction false} MapAll<T, U(!new)>(xs: seq<T>, f: T -> U, p: U -> bool, wanted: bool)
    requires forall x :: x in xs ==> p(f(x)) == wanted
    ensures Filter(Map(xs, f), p) == if wanted then Map(xs, f) else []
  {
    forall u | u in Map(xs, f)
      ensures p(u) == wanted
    {
      var i :| 0 <= i < |xs| && Map(xs, f)[i] == u;
      assert xs[i] in xs;
    }
    if wanted {
      FilterAll(Map(xs, f), p);
    } else {
      FilterNone(Map(xs, f), p);
    }
  }

  lemma {:induction false} KindsOfGroups(c: Census, s: Sources, kind: string)
    requires Accepted(c, s)
    ensures Filter(UsageRows(c), OfKind(kind)) == if kind == KIND_SCHEMA then UsageRows(c) else []
    ensures Filter(Map(c.relations, RelationImage(c, s)), OfKind(kind)) ==
            if kind == KIND_RELATION then Map(c.relations, RelationImage(c, s)) else []
    ensures Filter(Map(c.sequences, SequenceImage(c, s)), OfKind(kind)) ==
            if kind == KIND_SEQUENCE then Map(c.sequences, SequenceImage(c, s)) else []
    ensures Filter(Map(c.functions, FunctionImage(c, s)), OfKind(kind)) ==
            if kind == KIND_FUNCTION then Map(c.functions, FunctionImage(c, s)) else []
  {
    KindsApart();
    MapAll(SortedKeys(SchemaKeys(c)), UsageRowOf(c), OfKind(kind), kind == KIND_SCHEMA);
    MapAll(c.relations, RelationImage(c, s), OfKind(kind), kind == KIND_RELATION);
    forall e | e in c.sequences
      ensures SequenceImage(c, s)(e).objectKind == KIND_SEQUENCE
    {
      assert SequenceAccepted(s, e);
    }
    MapAll(c.sequences, SequenceImage(c, s), OfKind(kind), kind == KIND_SEQUENCE);
    forall e | e in c.functions
      ensures FunctionImage(c, s)(e).objectKind == KIND_FUNCTION
    {
      assert FunctionAccepted(s, e);
    }
    MapAll(c.functions, FunctionImage(c, s), OfKind(kind), kind == KIND_FUNCTION);
  }

  lemma {:induction false} FilterGroups<T(!new)>(
      rows: seq<T>, u: seq<T>, r: seq<T>, q: seq<T>, f: seq<T>, p: T -> bool)
    requires multiset(rows) == multiset(u) + multiset(r) + multiset(q) + multiset(f)
    ensures multiset(Filter(rows, p)) ==
            multiset(Filter(u, p)) + multiset(Filter(r, p)) + multiset(Filter(q, p)) + multiset(Filter(f, p))
  {
    FilterMultiset(rows, u + r + q + f, p);
    FilterAppend(u + r + q, f, p);
    FilterAppend(u + r, q, p);
    FilterAppend(u, r, p);
  }

  /** The rows of one kind are those of its own group. */
  lemma {:induction false} RowsOfKind(c: Census, s: Sources, m: Manifest, kind: string)
    requires Generate(c, s) == Success(m)
    ensures Accepted(c, s)
    ensures kind == KIND_SCHEMA ==> multiset(Filter(m.rows, OfKind(kind))) == multiset(UsageRows(c))
    ensures kind == KIND_RELATION ==>
              multiset(Filter(m.rows, OfKind(kind))) == multiset(Map(c.relations, RelationImage(c, s)))
    ensures kind == KIND_SEQUENCE ==>
              multiset(Filter(m.rows, OfKind(kind))) == multiset(Map(c.sequences, SequenceImage(c, s)))
    ensures kind == KIND_FUNCTION ==>
              multiset(Filter(m.rows, OfKind(kind))) == multiset(Map(c.functions, FunctionImage(c, s)))
  {
    AcceptanceExact(c, s);
    RowsAreConserved(c, s);
    KindsApart();
    FilterGroups(m.rows, UsageRows(c), Map(c.relations, RelationImage(c, s)), Map(c.sequences, SequenceImage(c, s)),
                 Map(c.functions, FunctionImage(c, s)), OfKind(kind));
    KindsOfGroups(c, s, kind);
  }

  // ----- the laws

  /** The relation rows are the relation entries: identity, schema, name, privilege, kind and owner of each. */
  lemma {:induction false} RelationsKept(c: Census, s: Sources, m: Manifest)
    requires Generate(c, s) == Success(m)
    ensures multiset(Map(Filter(m.rows, OfKind(KIND_RELATION)), FactOf())) == multiset(Map(c.relations, RelationFact()))
  {
    KindsApart();
    RowsOfKind(c, s, m, KIND_RELATION);
    MapMultiset(Filter(m.rows, OfKind(KIND_RELATION)), Map(c.relations, RelationImage(c, s)), FactOf());
    MapTwice(c.relations, RelationImage(c, s), FactOf(), RelationFact());
  }

  lemma {:induction false} SequencesKept(c: Census, s: Sources, m: Manifest)
    requires Generate(c, s) == Success(m)
    ensures multiset(Map(Filter(m.rows, OfKind(KIND_SEQUENCE)), FactOf())) == multiset(Map(c.sequences, SequenceFact()))
  {
    KindsApart();
    RowsOfKind(c, s, m, KIND_SEQUENCE);
    MapMultiset(Filter(m.rows, OfKind(KIND_SEQUENCE)), Map(c.sequences, SequenceImage(c, s)), FactOf());
    forall e | e in c.sequences
      ensures FactOf()(SequenceImage(c, s)(e)) == SequenceFact()(e)
    {
      assert SequenceAccepted(s, e);
    }
    MapTwice(c.sequences, SequenceImage(c, s), FactOf(), SequenceFact());
  }

  lemma {:induction false} FunctionsKept(c: Census, s: Sources, m: Manifest)
    requires Generate(c, s) == Success(m)
    ensures multiset(Map(Filter(m.rows, OfKind(KIND_FUNCTION)), FactOf())) ==
            multiset(Map(c.functions, FunctionFact(s.knownTypes)))
  {
    KindsApart();
    RowsOfKind(c, s, m, KIND_FUNCTION);
    MapMultiset(Filter(m.rows, OfKind(KIND_FUNCTION)), Map(c.functions, FunctionImage(c, s)), FactOf());
    forall e | e in c.functions
      ensures FactOf()(FunctionImage(c, s)(e)) == FunctionFact(s.knownTypes)(e)
    {
      assert FunctionAccepted(s, e);
    }
    MapTwice(c.functions, FunctionImage(c, s), FactOf(), FunctionFact(s.knownTypes));
  }

  lemma {:induction false} UsageFact(c: Census, fact: Fact)
    ensures fact in Map(UsageRows(c), FactOf()) <==>
            exists schema :: schema in c.schemas && fact == SchemaFact()(schema)
  {
    MapMember(UsageRows(c), FactOf(), fact);
    if fact in Map(UsageRows(c), FactOf()) {
      var row :| row in UsageRows(c) && fact == FactOf()(row);
      UsageMember(c, row);
    }
    if schema :| schema in c.schemas && fact == SchemaFact()(schema) {
      UsageMember(c, UsageRow(c, schema));
      assert fact == FactOf()(UsageRow(c, schema));
    }
  }

  lemma {:induction false} SameCount<T, U>(xs: seq<T>, ys: seq<T>, f: T -> U)
    requires multiset(xs) == multiset(ys)
    ensures |Map(xs, f)| == |ys|
  {
    assert |xs| == |multiset(xs)| && |ys| == |multiset(ys)|;
  }

  /** Each usage schema of the census once, with USAGE. */
  lemma {:induction false} SchemasKept(c: Census, s: Sources, m: Manifest, fact: Fact)
    requires Generate(c, s) == Success(m)
    ensures var usage := Map(Filter(m.rows, OfKind(KIND_SCHEMA)), FactOf());
            && (fact in usage <==> exists schema :: schema in c.schemas && fact == SchemaFact()(schema))
            && |usage| == |ObservedSchemas(c)|
  {
    var rows := Filter(m.rows, OfKind(KIND_SCHEMA));
    RowsOfKind(c, s, m, KIND_SCHEMA);
    MapMultiset(rows, UsageRows(c), FactOf());
    SameMembers(Map(rows, FactOf()), Map(UsageRows(c), FactOf()));
    SameCount(rows, UsageRows(c), FactOf());
    UsageCount(c);
    UsageFact(c, fact);
  }

  /** What the declarations decide about a relation or sequence: plane, who declared it, who may use it. */
  ghost predicate DeclaredBy(r: PlaneResolver, row: GrantRow, permitted: seq<string>) {
    if row.objectName in r.byRelation then
      var d := r.byRelation[row.objectName];
      row.plane == Some(d.plane) && row.declaredBy == d.declaredBy && permitted == d.permittedPrincipals
    else
      && row.schema in r.bySchema
      && var d := r.bySchema[row.schema];
         row.plane == Some(d.plane) && row.declaredBy == d.declaredBy && permitted == []
  }

  /** What stands in a row besides its fact. */
  ghost predicate Decided(c: Census, s: Sources, row: GrantRow) {
    && row.sourceRole == c.sourceRole && row.targetRole == c.targetRole
    && row.objectKind in {KIND_SCHEMA, KIND_RELATION, KIND_SEQUENCE, KIND_FUNCTION}
    && (row.objectKind == KIND_SCHEMA ==>
          && row.section == SECTION_SCHEMA_USAGE && row.disposition == Grant && row.identityArguments == ""
          && row.plane == None && row.declaredBy == "" && row.permittedPrincipals == [])
    && (row.objectKind == KIND_RELATION ==>
          && DeclaredBy(s.resolver, row, row.permittedPrincipals) && row.identityArguments == ""
          && row.section == (if row.plane == Some(ControlPlane) then SECTION_CONTROL_PLANE else SECTION_RELATIONS)
          && row.disposition == if row.plane == Some(ControlPlane) then Denied else Grant)
    && (row.objectKind == KIND_SEQUENCE ==>
          && (exists permitted :: DeclaredBy(s.resolver, row, permitted)) && row.plane == Some(TenantPlane)
          && row.section == SECTION_SEQUENCES && row.disposition == Grant && row.identityArguments == ""
          && row.permittedPrincipals == [])
    && (row.objectKind == KIND_FUNCTION ==>
          && row.section == SECTION_FUNCTIONS && row.disposition == Denied && row.plane == None && row.declaredBy == ""
          && row.identity == FunctionIdentity(row.schema, row.objectName, row.identityArguments)
          && row.identity in s.contract.executors
          && row.permittedPrincipals == if s.contract.executors[row.identity] == NO_RUNTIME_EXECUTOR then []
                                        else [s.contract.executors[row.identity]])
  }

  lemma {:induction false} RelationDecided(c: Census, s: Sources, e: CensusRelation)
    requires s.resolver.Resolve(e.schema, e.name).Success?
    ensures Decided(c, s, RelationImage(c, s)(e))
  {
    KindsApart();
  }

  lemma {:induction false} SequenceDecided(c: Census, s: Sources, e: CensusSequence)
    requires SequenceAccepted(s, e)
    ensures Decided(c, s, SequenceImage(c, s)(e))
  {
    KindsApart();
    var r, row := s.resolver, SequenceImage(c, s)(e);
    assert DeclaredBy(r, row, if e.name in r.byRelation then r.byRelation[e.name].permittedPrincipals else []);
  }

  lemma {:induction false} FunctionDecided(c: Census, s: Sources, e: CensusFunction)
    requires FunctionAccepted(s, e)
    ensures Decided(c, s, FunctionImage(c, s)(e))
  {
    KindsApart();
  }

  lemma {:induction false} UsageDecided(c: Census, s: Sources, schema: string)
    ensures Decided(c, s, UsageRow(c, schema))
  {
    KindsApart();
  }

  /** Every row carries what the declarations and the contract decide about it. */
  lemma {:induction false} RowsDecided(c: Census, s: Sources, m: Manifest, row: GrantRow)
    requires Generate(c, s) == Success(m) && row in m.rows
    ensures Decided(c, s, row)
  {
    AcceptanceExact(c, s);
    RowsAreImages(c, s, m.rows, row);
    if schema :| schema in c.schemas && row == UsageRow(c, schema) {
      UsageDecided(c, s, schema);
    } else if e :| e in c.relations && row == RelationImage(c, s)(e) {
      RelationDecided(c, s, e);
    } else if e :| e in c.sequences && row == SequenceImage(c, s)(e) {
      SequenceDecided(c, s, e);
    } else {
      var e :| e in c.functions && row == FunctionImage(c, s)(e);
      FunctionDecided(c, s, e);
    }
  }

  // ----- the order of the rows, and what is preserved

  function SectionRank(section: string): int {
    if section == SECTION_SCHEMA_USAGE then 0
    else if section == SECTION_RELATIONS then 1
    else if section == SECTION_SEQUENCES then 2
    else if section == SECTION_FUNCTIONS then 3
    else if section == SECTION_CONTROL_PLANE then 4
    else 5
  }

  /** Row `b` may not stand before row `a`: by section, then identity, then privilege. */
  ghost predicate InOrder(a: GrantRow, b: GrantRow) {
    || SectionRank(a.section) < SectionRank(b.section)
    || (SectionRank(a.section) == SectionRank(b.section)
        && (StringLess(a.identity, b.identity)
            || (a.identity == b.identity && !StringLess(b.privilege, a.privilege))))
  }

  lemma {:induction false} NotLessInOrder(a: GrantRow, b: GrantRow)
    requires !Less(SortKey()(b), SortKey()(a))
    ensures InOrder(a, b)
  {
    StringLessTotal(a.identity, b.identity);
    StringLessTotal(a.privilege, b.privilege);
  }

  lemma {:induction false} SortedInOrder(rows: seq<GrantRow>, i: nat, j: nat)
    requires i < j < |SortBy(rows, SortKey())|
    ensures InOrder(SortBy(rows, SortKey())[i], SortBy(rows, SortKey())[j])
  {
    SortBySorted(rows, SortKey());
    NotLessInOrder(SortBy(rows, SortKey())[i], SortBy(rows, SortKey())[j]);
  }

  lemma {:induction false} RowsInOrder(c: Census, s: Sources, m: Manifest, i: nat, j: nat)
    requires Generate(c, s) == Success(m) && i < j < |m.rows|
    ensures InOrder(m.rows[i], m.rows[j])
  {
    var rows := AllRows(c, s).value;
    assert m.rows == SortBy(rows, SortKey());
    SortedInOrder(rows, i, j);
  }

  function ExclusionFact(): ReverseGap -> ExclusionRow {
    (e: ReverseGap) => ExclusionRow("reverse-gap:" + e.schema, "preserved-target-privilege", e.schema, e.privileges)
  }

  /** One exclusion for each schema whose target privileges are preserved, by schema, with the census's count. */
  lemma {:induction false} ExclusionsKept(c: Census, s: Sources, m: Manifest)
    requires Generate(c, s) == Success(m)
    ensures m.provenance == c.provenance && m.sourceRole == c.sourceRole && m.targetRole == c.targetRole
    ensures multiset(m.exclusions) == multiset(Map(c.reverseGap, ExclusionFact()))
    ensures forall i, j :: 0 <= i < j < |m.exclusions| ==> !StringLess(m.exclusions[j].scope, m.exclusions[i].scope)
  {
    var sorted := SortBy(c.reverseGap, GapOrder());
    MapMultiset(sorted, c.reverseGap, GapExclusion());
    MapSame(c.reverseGap, GapExclusion(), ExclusionFact());
    SortBySorted(c.reverseGap, GapOrder());
    forall i, j | 0 <= i < j < |m.exclusions|
      ensures !StringLess(m.exclusions[j].scope, m.exclusions[i].scope)
    {
      assert !Less(GapOrder()(sorted[j]), GapOrder()(sorted[i]));
      StringLessTotal(sorted[i].schema, sorted[j].schema);
    }
  }

  // ----- what the census lists

  /** An entry of the census names the object and the privilege. */
  ghost predicate Names(c: Census, known: set<string>, identity: string, privilege: string) {
    || (exists schema :: schema in c.schemas && identity == "schema:" + schema && privilege == "USAGE")
    || (exists e :: e in c.relations && identity == "relation:" + e.schema + "." + e.name && privilege == e.privilege)
    || (exists e :: e in c.sequences && identity == "sequence:" + e.schema + "." + e.name && privilege == e.privilege)
    || (exists e :: e in c.functions && FunctionNamed(known, e, identity) && privilege == "EXECUTE")
  }

  ghost predicate FunctionNamed(known: set<string>, e: CensusFunction, identity: string) {
    && ParseSignature(known, e.signature).Success?
    && var read := ParseSignature(known, e.signature).value;
       identity == "function:" + e.schema + "." + read.0 + "(" + read.1 + ")"
  }

  lemma {:induction false} RelationNames(c: Census, s: Sources, known: set<string>, e: CensusRelation)
    requires e in c.relations && s.resolver.Resolve(e.schema, e.name).Success?
    ensures var row := RelationImage(c, s)(e); Names(c, known, row.identity, row.privilege)
  {
  }

  lemma {:induction false} SequenceNames(c: Census, s: Sources, known: set<string>, e: CensusSequence)
    requires e in c.sequences && SequenceAccepted(s, e)
    ensures var row := SequenceImage(c, s)(e); Names(c, known, row.identity, row.privilege)
  {
  }

  lemma {:induction false} FunctionNames(c: Census, s: Sources, e: CensusFunction)
    requires e in c.functions && FunctionAccepted(s, e)
    ensures var row := FunctionImage(c, s)(e); Names(c, s.knownTypes, row.identity, row.privilege)
  {
    assert FunctionNamed(s.knownTypes, e, FunctionImage(c, s)(e).identity);
  }

  lemma {:induction false} ImageNames(c: Census, s: Sources, row: GrantRow)
    requires Accepted(c, s) && IsImage(c, s, row)
    ensures Names(c, s.knownTypes, row.identity, row.privilege)
  {
    if schema :| schema in c.schemas && row == UsageRow(c, schema) {
      assert row.identity == "schema:" + schema && row.privilege == "USAGE";
    } else if e :| e in c.relations && row == RelationImage(c, s)(e) {
      RelationNames(c, s, s.knownTypes, e);
    } else if e :| e in c.sequences && row == SequenceImage(c, s)(e) {
      SequenceNames(c, s, s.knownTypes, e);
    } else {
      var e :| e in c.functions && row == FunctionImage(c, s)(e);
      FunctionNames(c, s, e);
    }
  }

  lemma {:induction false} NamedHasImage(c: Census, s: Sources, identity: string, privilege: string)
    returns (row: GrantRow)
    requires Accepted(c, s) && Names(c, s.knownTypes, identity, privilege)
    ensures IsImage(c, s, row) && row.identity == identity && row.privilege == privilege
  {
    if schema :| schema in c.schemas && identity == "schema:" + schema && privilege == "USAGE" {
      row := UsageRow(c, schema);
    } else if e :| e in c.relations && identity == "relation:" + e.schema + "." + e.name && privilege == e.privilege {
      row := RelationImage(c, s)(e);
    } else if e :| e in c.sequences && identity == "sequence:" + e.schema + "." + e.name && privilege == e.privilege {
      assert SequenceAccepted(s, e);
      row := SequenceImage(c, s)(e);
    } else {
      var e :| e in c.functions && FunctionNamed(s.knownTypes, e, identity) && privilege == "EXECUTE";
      row := FunctionImage(c, s)(e);
    }
  }
}
