/**
 Which refusal a census draws (app/privilege_manifest.py): the steps of the
 generation in their order, and in each step the first entry that cannot be taken.
 */
module ManifestRefusals {
  import opened Collections
  import opened PersistencePlanes
  import opened PrivilegeManifest
  import opened Signatures
  import opened ManifestGenerator
  import opened GeneratorFacts

  // ----- what is wrong with one entry

  /** No declaration covers the relation, by name or by schema. */
  ghost predicate Uncovered(s: Sources, schema: string, name: string) {
    name !in s.resolver.byRelation && schema !in s.resolver.bySchema
  }

  ghost predicate TwoKinds(c: Census, schema: string, name: string) {
    exists a, b :: a in c.relations && b in c.relations && a.kind != b.kind
                   && a.schema == b.schema == schema && a.name == b.name == name
  }

  /** A relation reported with two kinds is refused before its plane is looked for. */
  ghost predicate RelationRefused(c: Census, s: Sources, schema: string, name: string, e: GenerateError) {
    if TwoKinds(c, schema, name) then e == MultipleRelkinds(schema, name)
    else Uncovered(s, schema, name) && e == Unclassified(UnclassifiedRelation(schema, name))
  }

  ghost predicate OnControlPlane(s: Sources, schema: string, name: string) {
    if name in s.resolver.byRelation then s.resolver.byRelation[name].plane == ControlPlane
    else schema in s.resolver.bySchema && s.resolver.bySchema[schema].plane == ControlPlane
  }

  ghost predicate SequenceRefused(s: Sources, x: CensusSequence, e: GenerateError) {
    if Uncovered(s, x.schema, x.name) then e == Unclassified(UnclassifiedRelation(x.schema, x.name))
    else OnControlPlane(s, x.schema, x.name) && e == ControlPlaneSequence(x.schema, x.name)
  }

  ghost predicate FunctionRefused(s: Sources, x: CensusFunction, e: GenerateError) {
    var read := ParseSignature(s.knownTypes, x.signature);
    if read.Failure? then e == BadSignature(read.error)
    else
      var identity := "function:" + x.schema + "." + read.value.0 + "(" + read.value.1 + ")";
      if !x.securityDefiner then e == NotSecurityDefiner(identity)
      else identity !in s.contract.executors && e == NoExecutor(identity)
  }

  // ----- the first one in order

  lemma {:induction false} GatherFails<T(!new)>(xs: seq<T>, rows: T -> Rows) returns (i: nat)
    requires Gather(xs, rows).Failure?
    ensures i < |xs| && rows(xs[i]).Failure? && Gather(xs, rows).error == rows(xs[i]).error
    ensures forall j :: 0 <= j < i ==> rows(xs[j]).Success?
  {
    var n := |xs| - 1;
    if Gather(xs[..n], rows).Failure? {
      i := GatherFails(xs[..n], rows);
    } else {
      i := n;
      GatherSucceeds(xs[..n], rows);
      assert forall j :: 0 <= j < n ==> xs[j] in xs[..n];
    }
  }

  lemma {:induction false} SomeTwoKinds(c: Census, key: Key, entries: seq<CensusRelation>)
    requires entries == Filter(c.relations, Named(key)) && entries != [] && key == Pair(key.first, key.second)
    ensures |Kinds(entries)| == 1 <==> !TwoKinds(c, key.first, key.second)
  {
    OneKind(entries);
    forall e
      ensures e in entries <==> e in c.relations && e.schema == key.first && e.name == key.second
    {
      assert RelationKey()(e) == Pair(e.schema, e.name);
    }
  }

  lemma {:induction false} GroupFails(c: Census, s: Sources, key: Key, e: GenerateError)
    requires key in RelationKeys(c)
    ensures GroupRows(c, s, key) == Failure(e) <==> RelationRefused(c, s, key.first, key.second, e)
    ensures key == Pair(key.first, key.second)
  {
    KeyEntry(c, key);
    var x :| x in c.relations && key == RelationKey()(x);
    var entries := Filter(c.relations, Named(key));
    assert x in entries;
    SomeTwoKinds(c, key, entries);
  }

  /** The relation refused is the least of those that are. */
  ghost predicate FirstRelation(c: Census, s: Sources, key: Key, e: GenerateError) {
    && key in RelationKeys(c) && RelationRefused(c, s, key.first, key.second, e)
    && forall other, f :: other in RelationKeys(c) && Less(other, key) ==>
         !RelationRefused(c, s, other.first, other.second, f)
  }

  lemma {:induction false} RelationsFail(c: Census, s: Sources) returns (key: Key)
    requires Gather(SortedKeys(RelationKeys(c)), GroupRowsOf(c, s)).Failure?
    ensures FirstRelation(c, s, key, Gather(SortedKeys(RelationKeys(c)), GroupRowsOf(c, s)).error)
  {
    var keys := SortedKeys(RelationKeys(c));
    SortedKeysAscend(RelationKeys(c));
    var i := GatherFails(keys, GroupRowsOf(c, s));
    key := keys[i];
    GroupFails(c, s, key, GroupRowsOf(c, s)(key).error);
    forall other, f | other in RelationKeys(c) && Less(other, key)
      ensures !RelationRefused(c, s, other.first, other.second, f)
    {
      var j :| 0 <= j < |keys| && keys[j] == other;
      LessTotal(keys[i], other);
      assert j < i;
      GroupFails(c, s, other, f);
    }
  }

  /** Entry `i` of the ordered list is refused, and none before it. */
  ghost predicate FirstSequence(s: Sources, ordered: seq<CensusSequence>, i: nat, e: GenerateError) {
    && i < |ordered| && SequenceRefused(s, ordered[i], e)
    && forall j, f :: 0 <= j < i ==> !SequenceRefused(s, ordered[j], f)
  }

  lemma {:induction false} SequenceFails(c: Census, s: Sources, x: CensusSequence, e: GenerateError)
    ensures SequenceRows(c, s, x) == Failure(e) <==> SequenceRefused(s, x, e)
  {
  }

  lemma {:induction false} SequencesFail(c: Census, s: Sources, ordered: seq<CensusSequence>) returns (i: nat)
    requires Gather(ordered, SequenceRowsOf(c, s)).Failure?
    ensures FirstSequence(s, ordered, i, Gather(ordered, SequenceRowsOf(c, s)).error)
  {
    i := GatherFails(ordered, SequenceRowsOf(c, s));
    SequenceFails(c, s, ordered[i], SequenceRowsOf(c, s)(ordered[i]).error);
    forall j, f | 0 <= j < i
      ensures !SequenceRefused(s, ordered[j], f)
    {
      assert SequenceRowsOf(c, s)(ordered[j]).Success?;
      SequenceFails(c, s, ordered[j], f);
    }
  }

  ghost predicate FirstFunction(s: Sources, ordered: seq<CensusFunction>, i: nat, e: GenerateError) {
    && i < |ordered| && FunctionRefused(s, ordered[i], e)
    && forall j, f :: 0 <= j < i ==> !FunctionRefused(s, ordered[j], f)
  }

  lemma {:induction false} FunctionFails(c: Census, s: Sources, x: CensusFunction, e: GenerateError)
    ensures FunctionRows(c, s, x) == Failure(e) <==> FunctionRefused(s, x, e)
  {
  }

  lemma {:induction false} FunctionsFail(c: Census, s: Sources, ordered: seq<CensusFunction>) returns (i: nat)
    requires Gather(ordered, FunctionRowsOf(c, s)).Failure?
    ensures FirstFunction(s, ordered, i, Gather(ordered, FunctionRowsOf(c, s)).error)
  {
    i := GatherFails(ordered, FunctionRowsOf(c, s));
    FunctionFails(c, s, ordered[i], FunctionRowsOf(c, s)(ordered[i]).error);
    forall j, f | 0 <= j < i
      ensures !FunctionRefused(s, ordered[j], f)
    {
      assert FunctionRowsOf(c, s)(ordered[j]).Success?;
      FunctionFails(c, s, ordered[j], f);
    }
  }

  // ----- the refusal

  ghost predicate AllDirect(c: Census) { forall e :: e in c.relations ==> e.directGrant }

  /** Schemas of relations that are neither usage schemas nor settled otherwise. */
  ghost function Homeless(c: Census, s: Sources): set<string> {
    set e | e in c.relations && e.schema !in c.schemas && e.schema !in s.contract.settledSchemas :: e.schema
  }

  ghost predicate RelationsTaken(c: Census, s: Sources) {
    forall e, f :: e in c.relations ==> !RelationRefused(c, s, e.schema, e.name, f)
  }

  ghost predicate SequencesTaken(c: Census, s: Sources) {
    forall x, f :: x in c.sequences ==> !SequenceRefused(s, x, f)
  }

  /** Why generation stopped: direct grants first, then schemas, relations, sequences, functions. */
  ghost predicate StopsFor(c: Census, s: Sources, e: GenerateError) {
    || (!AllDirect(c) && e == NotDirect)
    || (AllDirect(c) && Homeless(c, s) != {} && e == UnsettledSchemas(Homeless(c, s)))
    || (AllDirect(c) && Homeless(c, s) == {}
        && (|| (exists key :: FirstRelation(c, s, key, e))
            || (RelationsTaken(c, s) && exists i: nat :: FirstSequence(s, SortBy(c.sequences, SequenceOrder()), i, e))
            || (RelationsTaken(c, s) && SequencesTaken(c, s)
                && exists i: nat :: FirstFunction(s, SortBy(c.functions, FunctionOrder()), i, e))))
  }

  lemma {:induction false} HomelessMeans(c: Census, s: Sources)
    ensures Homeless(c, s) == Unsettled(c, s)
  {
  }

  lemma {:induction false} RelationsAreTaken(c: Census, s: Sources)
    requires Gather(SortedKeys(RelationKeys(c)), GroupRowsOf(c, s)).Success?
    ensures RelationsTaken(c, s)
  {
    GatherSucceeds(SortedKeys(RelationKeys(c)), GroupRowsOf(c, s));
    forall e, f | e in c.relations
      ensures !RelationRefused(c, s, e.schema, e.name, f)
    {
      var key := Pair(e.schema, e.name);
      assert key in RelationKeys(c) && GroupRowsOf(c, s)(key).Success?;
      GroupFails(c, s, key, f);
    }
  }

  lemma {:induction false} SequencesAreTaken(c: Census, s: Sources)
    requires Gather(SortBy(c.sequences, SequenceOrder()), SequenceRowsOf(c, s)).Success?
    ensures SequencesTaken(c, s)
  {
    GatherSucceeds(SortBy(c.sequences, SequenceOrder()), SequenceRowsOf(c, s));
    forall x, f | x in c.sequences
      ensures !SequenceRefused(s, x, f)
    {
      assert SequenceRowsOf(c, s)(x).Success?;
      SequenceFails(c, s, x, f);
    }
  }

  /** A census that cannot be turned into a manifest is refused for the first reason in the order of the steps. */
  lemma {:induction false} RefusalExactly(c: Census, s: Sources)
    requires Generate(c, s).Failure?
    ensures StopsFor(c, s, Generate(c, s).error)
  {
    HomelessMeans(c, s);
    if AllDirect(c) && Homeless(c, s) == {} {
      StepFails(c, s, Generate(c, s).error);
    }
  }

  lemma {:induction false} StepFails(c: Census, s: Sources, e: GenerateError)
    requires AllRows(c, s) == Failure(e) && AllDirect(c) && Homeless(c, s) == {}
    ensures StopsFor(c, s, e)
  {
    var sequences, functions := SortBy(c.sequences, SequenceOrder()), SortBy(c.functions, FunctionOrder());
    if Gather(SortedKeys(RelationKeys(c)), GroupRowsOf(c, s)).Failure? {
      var key := RelationsFail(c, s);
    } else {
      RelationsAreTaken(c, s);
      if Gather(sequences, SequenceRowsOf(c, s)).Failure? {
        var i := SequencesFail(c, s, sequences);
      } else {
        SequencesAreTaken(c, s);
        var i := FunctionsFail(c, s, functions);
      }
    }
  }
}
