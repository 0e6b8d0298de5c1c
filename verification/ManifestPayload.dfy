/**
 The manifest as a payload tree (app/privilege_manifest.py): rows are split by
 section on the way out, joined in section order and sorted on the way in.
 */
module ManifestPayload {
  import opened Collections
  import opened PrivilegeManifest

  datatype Payload = Payload(
    provenance: Provenance,
    sourceRole: string,
    targetRole: string,
    counts: map<string, int>,
    sections: map<string, seq<GrantRow>>,
    exclusions: seq<ExclusionRow>)

  function Counts(m: Manifest): map<string, int> {
    map name | name in SECTIONS :: |Section(m, name)|
  }

  function ToPayload(m: Manifest): Payload {
    Payload(m.provenance, m.sourceRole, m.targetRole, Counts(m),
            map name | name in SECTIONS :: Section(m, name), m.exclusions)
  }

  function SectionOf(sections: map<string, seq<GrantRow>>): string -> seq<GrantRow> {
    (name: string) => if name in sections then sections[name] else []
  }

  function FromPayload(p: Payload): Manifest {
    Manifest(p.provenance, p.sourceRole, p.targetRole,
             SortBy(Collect(SECTIONS, SectionOf(p.sections)), SortKey()), p.exclusions)
  }

  /** The rows as the generator leaves them: known sections only, in key order. */
  ghost predicate InOrder(rows: seq<GrantRow>) {
    SortedBy(rows, SortKey()) && forall row :: row in rows ==> KnownSection(row.section)
  }

  function Rows(rows: seq<GrantRow>): string -> seq<GrantRow> { (name: string) => Filter(rows, InSection(name)) }

  /** The names stand at the places their index says. */
  ghost predicate Indexed(names: seq<string>) {
    forall i :: 0 <= i < |names| ==> SectionIndex(names[i]) == i
  }

  lemma {:induction false} SectionsIndexed()
    ensures Indexed(SECTIONS) && forall name :: name in SECTIONS ==> SectionIndex(name) < |SECTIONS|
    ensures forall name :: SectionIndex(name) < |SECTIONS| ==> name in SECTIONS
  {
  }

  lemma {:induction false} OtherSectionsKeep(names: seq<string>, init: seq<GrantRow>, last: GrantRow)
    requires last.section !in names
    ensures Collect(names, Rows(init + [last])) == Collect(names, Rows(init))
  {
    forall name | name in names
      ensures Rows(init + [last])(name) == Rows(init)(name)
    {
      FilterSnoc(init, last, InSection(name));
    }
    CollectSame(names, Rows(init + [last]), Rows(init));
  }

  lemma {:induction false} IndexedApart(names: seq<string>, name: string)
    requires Indexed(names + [name])
    ensures Indexed(names) && name !in names && SectionIndex(name) == |names|
    ensures forall other :: other in names ==> SectionIndex(other) < |names|
  {
    assert forall i :: 0 <= i < |names| ==> (names + [name])[i] == names[i];
    assert (names + [name])[|names|] == name;
  }

  lemma {:induction false} CollectOneMore(names: seq<string>, name: string, f: string -> seq<GrantRow>)
    ensures Collect(names + [name], f) == Collect(names, f) + f(name)
  {
    CollectSnoc(names, name, f);
  }

  lemma {:induction false} LastRowHere(names: seq<string>, name: string, init: seq<GrantRow>, last: GrantRow)
    requires last.section == name && name !in names
    ensures Collect(names + [name], Rows(init + [last])) == Collect(names + [name], Rows(init)) + [last]
  {
    CollectOneMore(names, name, Rows(init + [last]));
    CollectOneMore(names, name, Rows(init));
    OtherSectionsKeep(names, init, last);
    FilterSnoc(init, last, InSection(name));
    AppendAssociates(Collect(names, Rows(init)), Filter(init, InSection(name)), [last]);
  }

  lemma {:induction false} LastRowEarlier(names: seq<string>, name: string, init: seq<GrantRow>, last: GrantRow)
    requires last.section != name && forall row :: row in init ==> row.section != name
    requires Collect(names, Rows(init + [last])) == Collect(names, Rows(init)) + [last]
    ensures Collect(names + [name], Rows(init + [last])) == Collect(names + [name], Rows(init)) + [last]
  {
    CollectOneMore(names, name, Rows(init + [last]));
    CollectOneMore(names, name, Rows(init));
    FilterSnoc(init, last, InSection(name));
    FilterNone(init, InSection(name));
  }

  /** A last row belonging to no earlier section than any other goes to the end of the joined rows. */
  lemma {:induction false} LastRowLast(names: seq<string>, init: seq<GrantRow>, last: GrantRow)
    requires Indexed(names) && last.section in names
    requires forall row :: row in init ==> SectionIndex(row.section) <= SectionIndex(last.section)
    ensures Collect(names, Rows(init + [last])) == Collect(names, Rows(init)) + [last]
  {
    var name, before := names[|names| - 1], names[..|names| - 1];
    InitLast(names);
    IndexedApart(before, name);
    if name == last.section {
      LastRowHere(before, name, init, last);
    } else {
      LastRowLast(before, init, last);
      LastRowEarlier(before, name, init, last);
    }
  }

  /** Joining the sections of ordered rows in section order gives the rows back. */
  lemma {:induction false} JoinedSections(names: seq<string>, rows: seq<GrantRow>)
    requires Indexed(names) && SortedBy(rows, SortKey()) && forall row :: row in rows ==> row.section in names
    ensures Collect(names, Rows(rows)) == rows
  {
    if rows == [] {
      CollectEmpty(names, Rows([]));
    } else {
      InitLast(rows);
      var init, last := rows[..|rows| - 1], rows[|rows| - 1];
      JoinedSections(names, init);
      forall i | 0 <= i < |init|
        ensures SectionIndex(init[i].section) <= SectionIndex(last.section)
      {
        assert !Less(SortKey()(rows[|rows| - 1]), SortKey()(rows[i]));
      }
      LastRowLast(names, init, last);
    }
  }

  lemma {:induction false} SectionsAreRows(m: Manifest)
    ensures Collect(SECTIONS, SectionOf(ToPayload(m).sections)) == Collect(SECTIONS, Rows(m.rows))
  {
    CollectSame(SECTIONS, SectionOf(ToPayload(m).sections), Rows(m.rows));
  }

  lemma {:induction false} JoinedRowsAreKnown(names: seq<string>, rows: seq<GrantRow>)
    ensures forall row :: row in Collect(names, Rows(rows)) ==> row.section in names
  {
    CollectMembers(names, Rows(rows));
  }

  /** Each known section of the payload holds that section's rows, in their order, and counts them. */
  lemma {:induction false} SectionsTell(m: Manifest, name: string) returns (ks: seq<nat>)
    requires KnownSection(name)
    ensures name in ToPayload(m).sections && StandAt(ToPayload(m).sections[name], m.rows, ks)
    ensures forall i: nat :: i in ks <==> i < |m.rows| && m.rows[i].section == name
    ensures name in ToPayload(m).counts && ToPayload(m).counts[name] == |ks|
  {
    ks := FilterStands(m.rows, InSection(name));
  }

  /** A manifest comes back from its payload as it was exactly when its rows are in order. */
  lemma {:induction false} PayloadRoundTripExact(m: Manifest)
    ensures FromPayload(ToPayload(m)) == m <==> InOrder(m.rows)
  {
    SectionsIndexed();
    SectionsAreRows(m);
    var joined := Collect(SECTIONS, Rows(m.rows));
    if InOrder(m.rows) {
      JoinedSections(SECTIONS, m.rows);
      SortBySame(m.rows, SortKey());
    }
    SortBySorted(joined, SortKey());
    JoinedRowsAreKnown(SECTIONS, m.rows);
  }

  /** What is read is in order again, whatever the file held, so writing and reading once more changes nothing. */
  lemma {:induction false} ReadingSettles(p: Payload)
    requires forall name, row :: name in p.sections && row in p.sections[name] ==> row.section == name
    ensures FromPayload(ToPayload(FromPayload(p))) == FromPayload(p)
  {
    var joined := Collect(SECTIONS, SectionOf(p.sections));
    SortBySorted(joined, SortKey());
    CollectMembers(SECTIONS, SectionOf(p.sections));
    PayloadRoundTripExact(FromPayload(p));
  }
}
