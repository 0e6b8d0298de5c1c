/**
 The generator (app/privilege_manifest.py): the frozen census of what the source
 role holds and the target does not, turned into one manifest row per entry.
 */
module ManifestGenerator {
  import opened Collections
  import opened PersistencePlanes
  import opened PrivilegeManifest
  import opened Signatures

  datatype CensusRelation = CensusRelation(
    schema: string, name: string, kind: string, privilege: string, owner: string, directGrant: bool)

  datatype CensusSequence = CensusSequence(schema: string, name: string, privilege: string)

  datatype CensusFunction = CensusFunction(schema: string, signature: string, securityDefiner: bool, owner: string)

  datatype ReverseGap = ReverseGap(schema: string, privileges: int)

  datatype Census = Census(
    provenance: Provenance,
    sourceRole: string,
    targetRole: string,
    schemas: seq<string>,
    relations: seq<CensusRelation>,
    sequences: seq<CensusSequence>,
    functions: seq<CensusFunction>,
    reverseGap: seq<ReverseGap>)

  datatype GenerateError =
    | NotDirect
    | UnsettledSchemas(schemas: set<string>)
    | MultipleRelkinds(schema: string, name: string)
    | Unclassified(error: PlaneError)
    | ControlPlaneSequence(schema: string, name: string)
    | BadSignature(parseError: ParseError)
    | NotSecurityDefiner(identity: string)
    | NoExecutor(identity: string)

  type Rows = Result<seq<GrantRow>, GenerateError>

  /** Everything besides the census that generation reads. */
  datatype Sources = Sources(contract: Contract, resolver: PlaneResolver, knownTypes: set<string>)

  // ----- the row each entry becomes

  function UsageRow(c: Census, schema: string): GrantRow {
    GrantRow(SECTION_SCHEMA_USAGE, KIND_SCHEMA, SchemaIdentity(schema), schema, schema, "USAGE",
             c.sourceRole, c.targetRole, "", Grant, "", "", None, "", [])
  }

  function RelationRow(c: Census, kind: string, verdict: PlaneVerdict, e: CensusRelation): GrantRow {
    var control := verdict.plane.ControlPlane?;
    GrantRow(if control then SECTION_CONTROL_PLANE else SECTION_RELATIONS, KIND_RELATION,
             RelationIdentity(e.schema, e.name), e.schema, e.name, e.privilege, c.sourceRole, c.targetRole, e.owner,
             if control then Denied else Grant, kind, "", Some(verdict.plane), verdict.declaredBy,
             verdict.permittedPrincipals)
  }

  function SequenceRow(c: Census, verdict: PlaneVerdict, e: CensusSequence): GrantRow {
    GrantRow(SECTION_SEQUENCES, KIND_SEQUENCE, SequenceIdentity(e.schema, e.name), e.schema, e.name, e.privilege,
             c.sourceRole, c.targetRole, "", Grant, "", "", Some(verdict.plane), verdict.declaredBy, [])
  }

  function FunctionRow(c: Census, e: CensusFunction, name: string, arguments: string, executor: string): GrantRow {
    GrantRow(SECTION_FUNCTIONS, KIND_FUNCTION, FunctionIdentity(e.schema, name, arguments), e.schema, name, "EXECUTE",
             c.sourceRole, c.targetRole, e.owner, Denied, "", arguments, None, "",
             if executor == NO_RUNTIME_EXECUTOR then [] else [executor])
  }

  // ----- one entry at a time, with its refusals

  function RelationKey(): CensusRelation -> Key { (e: CensusRelation) => Pair(e.schema, e.name) }

  function RelationOrder(): CensusRelation -> Key { (e: CensusRelation) => Single(e.privilege) }

  function SequenceOrder(): CensusSequence -> Key { (e: CensusSequence) => Key(0, e.schema, e.name, e.privilege) }

  function FunctionOrder(): CensusFunction -> Key { (e: CensusFunction) => Pair(e.schema, e.signature) }

  function GapOrder(): ReverseGap -> Key { (e: ReverseGap) => Single(e.schema) }

  function Named(key: Key): CensusRelation -> bool { (e: CensusRelation) => RelationKey()(e) == key }

  function RelationKeys(c: Census): set<Key> { set e | e in c.relations :: Pair(e.schema, e.name) }

  function Kinds(entries: seq<CensusRelation>): set<string> { set e | e in entries :: e.kind }

  function RowOf(c: Census, kind: string, verdict: PlaneVerdict): CensusRelation -> GrantRow {
    (e: CensusRelation) => RelationRow(c, kind, verdict, e)
  }

  /** The rows of one relation; all its census entries must report one kind. */
  function GroupRows(c: Census, s: Sources, key: Key): Rows {
    var entries := Filter(c.relations, Named(key));
    if |Kinds(entries)| != 1 then Failure(MultipleRelkinds(key.first, key.second))
    else
      var verdict := s.resolver.Resolve(key.first, key.second);
      if verdict.Failure? then Failure(Unclassified(verdict.error))
      else Success(Map(SortBy(entries, RelationOrder()), RowOf(c, entries[0].kind, verdict.value)))
  }

  function SequenceRows(c: Census, s: Sources, e: CensusSequence): Rows {
    var verdict := s.resolver.Resolve(e.schema, e.name);
    if verdict.Failure? then Failure(Unclassified(verdict.error))
    else if verdict.value.plane.ControlPlane? then Failure(ControlPlaneSequence(e.schema, e.name))
    else Success([SequenceRow(c, verdict.value, e)])
  }

  function FunctionRows(c: Census, s: Sources, e: CensusFunction): Rows {
    var parsed := ParseSignature(s.knownTypes, e.signature);
    if parsed.Failure? then Failure(BadSignature(parsed.error))
    else
      var identity := FunctionIdentity(e.schema, parsed.value.0, parsed.value.1);
      if !e.securityDefiner then Failure(NotSecurityDefiner(identity))
      else if identity !in s.contract.executors then Failure(NoExecutor(identity))
      else Success([FunctionRow(c, e, parsed.value.0, parsed.value.1, s.contract.executors[identity])])
  }

  /** Rows appended entry by entry until one of them refuses. */
  function Gather<T(!new)>(xs: seq<T>, rows: T -> Rows): Rows {
    if xs == [] then Success([])
    else
      var earlier, last := Gather(xs[..|xs| - 1], rows), rows(xs[|xs| - 1]);
      if earlier.Failure? then earlier
      else if last.Failure? then last
      else Success(earlier.value + last.value)
  }

  function GroupRowsOf(c: Census, s: Sources): Key -> Rows { (key: Key) => GroupRows(c, s, key) }

  function SequenceRowsOf(c: Census, s: Sources): CensusSequence -> Rows {
    (e: CensusSequence) => SequenceRows(c, s, e)
  }

  function FunctionRowsOf(c: Census, s: Sources): CensusFunction -> Rows {
    (e: CensusFunction) => FunctionRows(c, s, e)
  }

  function UsageRowOf(c: Census): Key -> GrantRow { (key: Key) => UsageRow(c, key.first) }

  function ObservedSchemas(c: Census): set<string> { set schema | schema in c.schemas }

  function RelationSchemas(c: Census): set<string> { set e | e in c.relations :: e.schema }

  function Unsettled(c: Census, s: Sources): set<string> {
    RelationSchemas(c) - ObservedSchemas(c) - s.contract.settledSchemas
  }

  function SchemaKeys(c: Census): set<Key> { set schema | schema in c.schemas :: Single(schema) }

  function UsageRows(c: Census): seq<GrantRow> { Map(SortedKeys(SchemaKeys(c)), UsageRowOf(c)) }

  function GapExclusion(): ReverseGap -> ExclusionRow {
    (e: ReverseGap) => ExclusionRow("reverse-gap:" + e.schema, PRESERVED_KIND, e.schema, e.privileges)
  }

  function Exclusions(c: Census): seq<ExclusionRow> { Map(SortBy(c.reverseGap, GapOrder()), GapExclusion()) }

  function AllRows(c: Census, s: Sources): Rows {
    var relations := Gather(SortedKeys(RelationKeys(c)), GroupRowsOf(c, s));
    if relations.Failure? then relations
    else
      var sequences := Gather(SortBy(c.sequences, SequenceOrder()), SequenceRowsOf(c, s));
      if sequences.Failure? then sequences
      else
        var functions := Gather(SortBy(c.functions, FunctionOrder()), FunctionRowsOf(c, s));
        if functions.Failure? then functions
        else Success(UsageRows(c) + relations.value + sequences.value + functions.value)
  }


  function Generate(c: Census, s: Sources): Result<Manifest, GenerateError> {
    if exists e :: e in c.relations && !e.directGrant then Failure(NotDirect)
    else if Unsettled(c, s) != {} then Failure(UnsettledSchemas(Unsettled(c, s)))
    else
      var rows := AllRows(c, s);
      if rows.Failure? then Failure(rows.error)
      else Success(Manifest(c.provenance, c.sourceRole, c.targetRole, SortBy(rows.value, SortKey()), Exclusions(c)))
  }

  // ----- the loops

  method ManifestFromCensus(c: Census, s: Sources) returns (r: Result<Manifest, GenerateError>)
    ensures r == Generate(c, s)
  {
    for n := 0 to |c.relations|
      invariant forall e :: e in c.relations[..n] ==> e.directGrant
    {
      if !c.relations[n].directGrant {
        assert c.relations[n] in c.relations;
        return Failure(NotDirect);
      }
    }
    assert c.relations[..|c.relations|] == c.relations;
    if Unsettled(c, s) != {} {
      return Failure(UnsettledSchemas(Unsettled(c, s)));
    }
    var rows := CollectRows(c, s);
    if rows.Failure? {
      return Failure(rows.error);
    }
    r := Success(Manifest(c.provenance, c.sourceRole, c.targetRole, SortBy(rows.value, SortKey()), Exclusions(c)));
  }

  method CollectRows(c: Census, s: Sources) returns (r: Rows)
    ensures r == AllRows(c, s)
  {
    var usage: seq<GrantRow> := [];
    var schemas := SortedKeys(SchemaKeys(c));
    for n := 0 to |schemas|
      invariant usage == Map(schemas[..n], UsageRowOf(c))
    {
      PrefixStep(schemas, n);
      usage := usage + [UsageRow(c, schemas[n].first)];
    }
    assert schemas[..|schemas|] == schemas;
    var relations := GatherRows(SortedKeys(RelationKeys(c)), GroupRowsOf(c, s));
    if relations.Failure? {
      return relations;
    }
    var sequences := GatherRows(SortBy(c.sequences, SequenceOrder()), SequenceRowsOf(c, s));
    if sequences.Failure? {
      return sequences;
    }
    var functions := GatherRows(SortBy(c.functions, FunctionOrder()), FunctionRowsOf(c, s));
    if functions.Failure? {
      return functions;
    }
    r := Success(usage + relations.value + sequences.value + functions.value);
  }

  method GatherRows<T(!new)>(xs: seq<T>, rows: T -> Rows) returns (r: Rows)
    ensures r == Gather(xs, rows)
  {
    var gathered: seq<GrantRow> := [];
    for n := 0 to |xs|
      invariant Gather(xs[..n], rows) == Success(gathered)
    {
      PrefixStep(xs, n);
      var made := rows(xs[n]);
      if made.Failure? {
        GatherStays(xs, n + 1, rows);
        return made;
      }
      gathered := gathered + made.value;
    }
    assert xs[..|xs|] == xs;
    r := Success(gathered);
  }

  lemma {:induction false} GatherStays<T(!new)>(xs: seq<T>, n: nat, rows: T -> Rows)
    requires n <= |xs| && Gather(xs[..n], rows).Failure?
    ensures Gather(xs, rows) == Gather(xs[..n], rows)
  {
    if n == |xs| {
      assert xs[..n] == xs;
    } else {
      assert xs[..|xs| - 1][..n] == xs[..n];
      GatherStays(xs[..|xs| - 1], n, rows);
    }
  }
}
