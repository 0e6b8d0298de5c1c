/**
 The grant file (app/privilege_manifest.py) and what running it does to an access
 control list: one GRANT per row, in manifest order, none of them for a denied row.
 */
module GrantScript {
  import opened Collections
  import opened PrivilegeManifest

  /** One entry of the database's access control list. */
  datatype Held = Held(role: string, identity: string, privilege: string)

  type Acl = set<Held>

  datatype Statement = Statement(
    kind: string, privilege: string, schema: string, objectName: string, arguments: string, target: string)

  datatype Line =
    | Header(count: nat)
    | Begin
    | SectionComment(section: string)
    | ObjectComment(identity: string, relkind: string)
    | Execute(statement: Statement)
    | Commit

  datatype RenderError =
    | SectionUnknown(section: string)
    | DeniedRows(identities: set<string>)
    | Unstatable(identity: string)

  predicate KnownKind(kind: string) { kind in {KIND_SCHEMA, KIND_RELATION, KIND_SEQUENCE, KIND_FUNCTION} }

  /** An empty name, or one with a NUL in it, cannot be quoted. */
  predicate Quotable(name: string) { name != "" && '\0' !in name }

  predicate Statable(row: GrantRow) {
    && KnownKind(row.objectKind) && Quotable(row.targetRole) && Quotable(row.schema)
    && (row.objectKind == KIND_SCHEMA || Quotable(row.objectName))
  }

  /** The statement names what its object kind needs and nothing else. */
  function GrantStatement(row: GrantRow): Statement {
    Statement(
      row.objectKind, row.privilege, row.schema,
      if row.objectKind == KIND_SCHEMA then "" else row.objectName,
      if row.objectKind == KIND_FUNCTION then row.identityArguments else "",
      row.targetRole)
  }

  function StatementIdentity(s: Statement): string {
    if s.kind == KIND_SCHEMA then SchemaIdentity(s.schema)
    else if s.kind == KIND_RELATION then RelationIdentity(s.schema, s.objectName)
    else if s.kind == KIND_SEQUENCE then SequenceIdentity(s.schema, s.objectName)
    else FunctionIdentity(s.schema, s.objectName, s.arguments)
  }

  /** The lines for the rows of an ordered list; comments appear where section or object changes. */
  function BodyLines(rows: seq<GrantRow>): seq<Line> {
    if rows == [] then []
    else
      var init, row := rows[..|rows| - 1], rows[|rows| - 1];
      var newSection := init == [] || init[|init| - 1].section != row.section;
      var newObject := newSection || init[|init| - 1].identity != row.identity;
      BodyLines(init)
      + (if newSection then [SectionComment(row.section)] else [])
      + (if newObject then [ObjectComment(row.identity, row.relkind)] else [])
      + [Execute(GrantStatement(row))]
  }

  function Lines(rows: seq<GrantRow>): seq<Line> {
    [Header(|rows|), Begin] + BodyLines(rows) + [Commit]
  }

  predicate Renderable(rows: seq<GrantRow>) {
    forall row :: row in rows ==> KnownSection(row.section) && !row.disposition.Denied? && Statable(row)
  }

  /** Row `n` is the first that fails. */
  ghost predicate IsFirstUnlike(rows: seq<GrantRow>, p: GrantRow -> bool, n: nat) {
    n < |rows| && !p(rows[n]) && forall i :: 0 <= i < n ==> p(rows[i])
  }

  function InKnownSection(): GrantRow -> bool { (row: GrantRow) => KnownSection(row.section) }

  function CanBeStated(): GrantRow -> bool { (row: GrantRow) => Statable(row) }

  ghost predicate AllKnown(rows: seq<GrantRow>) { forall row :: row in rows ==> KnownSection(row.section) }

  ghost function DeniedNames(rows: seq<GrantRow>): set<string> {
    set row | row in rows && row.disposition.Denied? :: row.identity
  }

  /** The first row of an unknown section, else all denied ones, else the first row in order that cannot be stated. */
  ghost predicate RefusedRightly(rows: seq<GrantRow>, e: RenderError) {
    match e
    case SectionUnknown(section) =>
      exists n: nat :: IsFirstUnlike(rows, InKnownSection(), n) && section == rows[n].section
    case DeniedRows(identities) => AllKnown(rows) && identities == DeniedNames(rows) != {}
    case Unstatable(identity) =>
      && AllKnown(rows) && DeniedNames(rows) == {}
      && var ordered := SortBy(rows, SortKey());
         exists n: nat :: IsFirstUnlike(ordered, CanBeStated(), n) && identity == ordered[n].identity
  }

  method RenderGrantSql(rows: seq<GrantRow>) returns (r: Result<seq<Line>, RenderError>)
    ensures r.Success? <==> Renderable(rows)
    ensures r.Success? ==> r.value == Lines(SortBy(rows, SortKey()))
    ensures r.Failure? ==> RefusedRightly(rows, r.error)
  {
    var n := FirstUnknown(rows);
    if n < |rows| {
      UnknownRefused(rows, n);
      return Failure(SectionUnknown(rows[n].section));
    }
    var ordered := SortBy(rows, SortKey());
    var denied := DeniedAmong(ordered);
    SameRows(rows, ordered);
    if denied != {} {
      return Failure(DeniedRows(denied));
    }
    r := RenderOrdered(ordered);
  }

  lemma {:induction false} UnknownRefused(rows: seq<GrantRow>, n: nat)
    requires IsFirstUnlike(rows, InKnownSection(), n)
    ensures !Renderable(rows) && RefusedRightly(rows, SectionUnknown(rows[n].section))
  {
    assert rows[n] in rows;
  }

  lemma {:induction false} SameRows(rows: seq<GrantRow>, ordered: seq<GrantRow>)
    requires forall row :: row in ordered <==> row in rows
    ensures DeniedNames(ordered) == DeniedNames(rows) && (AllKnown(ordered) <==> AllKnown(rows))
    ensures DeniedNames(rows) != {} ==> !Renderable(rows)
    ensures AllKnown(rows) && DeniedNames(rows) == {} ==>
              (Renderable(rows) <==> forall row :: row in ordered ==> Statable(row))
  {
    forall row | row in rows && row.disposition.Denied?
      ensures row.identity in DeniedNames(rows)
    {
    }
  }

  method FirstUnknown(rows: seq<GrantRow>) returns (n: nat)
    ensures n <= |rows| && (n < |rows| ==> IsFirstUnlike(rows, InKnownSection(), n))
    ensures n == |rows| ==> AllKnown(rows)
  {
    n := 0;
    while n < |rows| && KnownSection(rows[n].section)
      invariant n <= |rows| && forall i :: 0 <= i < n ==> InKnownSection()(rows[i])
    {
      n := n + 1;
    }
  }

  method DeniedAmong(rows: seq<GrantRow>) returns (identities: set<string>)
    ensures identities == DeniedNames(rows)
  {
    identities := {};
    for n := 0 to |rows|
      invariant identities == DeniedNames(rows[..n])
    {
      PrefixStep(rows, n);
      InitLast(rows[..n + 1]);
      if rows[n].disposition.Denied? {
        identities := identities + {rows[n].identity};
      }
    }
    assert rows[..|rows|] == rows;
  }

  method RenderOrdered(ordered: seq<GrantRow>) returns (r: Result<seq<Line>, RenderError>)
    requires AllKnown(ordered)
    ensures r.Success? <==> forall row :: row in ordered ==> Statable(row)
    ensures r.Success? ==> r.value == Lines(ordered)
    ensures r.Failure? ==>
              r.error.Unstatable?
              && exists n: nat :: IsFirstUnlike(ordered, CanBeStated(), n) && r.error.identity == ordered[n].identity
  {
    var body: seq<Line> := [];
    var currentSection, currentIdentity := "", "";
    for n := 0 to |ordered|
      invariant body == BodyLines(ordered[..n])
      invariant n == 0 ==> currentSection == ""
      invariant n > 0 ==> currentSection == ordered[n - 1].section && currentIdentity == ordered[n - 1].identity
      invariant forall row :: row in ordered[..n] ==> Statable(row)
    {
      PrefixStep(ordered, n);
      assert ordered[..n + 1] == ordered[..n] + [ordered[n]];
      var row := ordered[n];
      NoEmptySection(row.section);
      var lines: seq<Line> := [];
      if row.section != currentSection {
        lines := [SectionComment(row.section)];
      }
      if row.section != currentSection || row.identity != currentIdentity {
        lines := lines + [ObjectComment(row.identity, row.relkind)];
      }
      if !Statable(row) {
        assert forall i :: 0 <= i < n ==> ordered[i] in ordered[..n];
        assert row in ordered && IsFirstUnlike(ordered, CanBeStated(), n);
        return Failure(Unstatable(row.identity));
      }
      BodyStep(ordered, n);
      body := body + lines + [Execute(GrantStatement(row))];
      currentSection, currentIdentity := row.section, row.identity;
    }
    assert ordered[..|ordered|] == ordered;
    r := Success([Header(|ordered|), Begin] + body + [Commit]);
  }

  lemma {:induction false} NoEmptySection(section: string)
    requires KnownSection(section)
    ensures section != ""
  {
  }

  lemma {:induction false} BodyStep(rows: seq<GrantRow>, n: nat)
    requires n < |rows|
    ensures BodyLines(rows[..n + 1]) ==
            BodyLines(rows[..n]) + Headings(rows, n) + [Execute(GrantStatement(rows[n]))]
  {
    PrefixStep(rows, n);
    var newSection := n == 0 || rows[n - 1].section != rows[n].section;
    AppendAssociates(
      BodyLines(rows[..n]),
      if newSection then [SectionComment(rows[n].section)] else [],
      if newSection || rows[n - 1].identity != rows[n].identity
      then [ObjectComment(rows[n].identity, rows[n].relkind)] else []);
  }

  // ----- what running it does

  /** A GRANT asserts one entry; the entries already there stay. */
  function Granted(row: GrantRow): Held { Held(row.targetRole, row.identity, row.privilege) }

  function ApplyGrants(acl: Acl, rows: seq<GrantRow>): Acl {
    if rows == [] then acl else ApplyGrants(acl, rows[..|rows| - 1]) + {Granted(rows[|rows| - 1])}
  }

  function Asserted(s: Statement): Held { Held(s.target, StatementIdentity(s), s.privilege) }

  /** What is committed, and what an open transaction has made of it. */
  datatype Database = Database(committed: Acl, open: Option<Acl>) {
    /** Outside a transaction a statement commits by itself. */
    function Run(line: Line): Database {
      match line
      case Begin => if open.None? then Database(committed, Some(committed)) else this
      case Commit => if open.Some? then Database(open.value, None) else this
      case Execute(s) =>
        if open.Some? then Database(committed, Some(open.value + {Asserted(s)}))
        else Database(committed + {Asserted(s)}, None)
      case Header(_) => this
      case SectionComment(_) => this
      case ObjectComment(_, _) => this
    }
  }

  function RunAll(d: Database, lines: seq<Line>): Database {
    if lines == [] then d else RunAll(d, lines[..|lines| - 1]).Run(lines[|lines| - 1])
  }

  /** What is committed after the lines. */
  function RunLines(acl: Acl, lines: seq<Line>): Acl { RunAll(Database(acl, None), lines).committed }

  /** A row whose identity is the one its own statement names. */
  predicate NamesItself(row: GrantRow) { StatementIdentity(GrantStatement(row)) == row.identity }

  lemma {:induction false} AppliedExactly(acl: Acl, rows: seq<GrantRow>)
    ensures ApplyGrants(acl, rows) == acl + set row | row in rows :: Granted(row)
  {
    if rows != [] {
      InitLast(rows);
      AppliedExactly(acl, rows[..|rows| - 1]);
      assert (set row | row in rows :: Granted(row)) ==
             (set row | row in rows[..|rows| - 1] :: Granted(row)) + {Granted(rows[|rows| - 1])};
    }
  }

  /** Neither the order of the grants nor how often each is run makes a difference. */
  lemma {:induction false} GrantOrderIsIrrelevant(acl: Acl, xs: seq<GrantRow>, ys: seq<GrantRow>)
    requires forall row :: row in xs <==> row in ys
    ensures ApplyGrants(acl, xs) == ApplyGrants(acl, ys)
    ensures ApplyGrants(ApplyGrants(acl, xs), ys) == ApplyGrants(acl, ys)
    ensures forall n: nat :: n <= |xs| ==> ApplyGrants(ApplyGrants(acl, xs[..n]), ys) == ApplyGrants(acl, ys)
  {
    AppliedExactly(acl, xs);
    AppliedExactly(acl, ys);
    AppliedExactly(ApplyGrants(acl, xs), ys);
    forall n: nat | n <= |xs|
      ensures ApplyGrants(ApplyGrants(acl, xs[..n]), ys) == ApplyGrants(acl, ys)
    {
      AppliedExactly(acl, xs[..n]);
      AppliedExactly(ApplyGrants(acl, xs[..n]), ys);
    }
  }

  lemma {:induction false} RunAppend(d: Database, a: seq<Line>, b: seq<Line>)
    ensures RunAll(d, a + b) == RunAll(RunAll(d, a), b)
  {
    if b == [] {
      assert a + b == a;
    } else {
      RunAppend(d, a, b[..|b| - 1]);
      assert (a + b)[..|a + b| - 1] == a + b[..|b| - 1];
    }
  }

  predicate Inside(line: Line) { line.Execute? || line.SectionComment? || line.ObjectComment? }

  function StatementOf(): Line -> seq<Statement> { (line: Line) => if line.Execute? then [line.statement] else [] }

  function Rights(statements: seq<Statement>): Acl { set s | s in statements :: Asserted(s) }

  lemma {:induction false} RightsSnoc(statements: seq<Statement>, s: Statement)
    ensures Rights(statements + [s]) == Rights(statements) + {Asserted(s)}
  {
  }

  function AssertedIn(lines: seq<Line>): Acl {
    if lines == [] then {}
    else
      var last := lines[|lines| - 1];
      AssertedIn(lines[..|lines| - 1]) + if last.Execute? then {Asserted(last.statement)} else {}
  }

  lemma {:induction false} AssertedAreRights(lines: seq<Line>)
    ensures AssertedIn(lines) == Rights(Collect(lines, StatementOf()))
  {
    if lines == [] {
      assert Rights([]) == {};
    } else {
      var init, last := lines[..|lines| - 1], lines[|lines| - 1];
      AssertedAreRights(init);
      if last.Execute? {
        RightsSnoc(Collect(init, StatementOf()), last.statement);
      } else {
        assert Collect(init, StatementOf()) + [] == Collect(init, StatementOf());
      }
    }
  }

  lemma {:induction false} StepInside(committed: Acl, open: Acl, asserted: Acl, line: Line)
    requires Inside(line)
    ensures Database(committed, Some(open + asserted)).Run(line) ==
            Database(committed, Some(open + (asserted + if line.Execute? then {Asserted(line.statement)} else {})))
  {
    assert line.Execute? ==>
        open + asserted + {Asserted(line.statement)} == open + (asserted + {Asserted(line.statement)});
    assert asserted + {} == asserted;
  }

  /** Lines inside a transaction leave what is committed alone and assert their statements. */
  lemma {:induction false} RunInside(d: Database, lines: seq<Line>)
    requires d.open.Some? && forall line :: line in lines ==> Inside(line)
    ensures RunAll(d, lines) == Database(d.committed, Some(d.open.value + AssertedIn(lines)))
  {
    if lines == [] {
      assert d.open.value + {} == d.open.value;
    } else {
      RunInside(d, lines[..|lines| - 1]);
      StepInside(d.committed, d.open.value, AssertedIn(lines[..|lines| - 1]), lines[|lines| - 1]);
    }
  }

  function GrantOf(): GrantRow -> Statement { (row: GrantRow) => GrantStatement(row) }

  /** The headings above row `n`. */
  function Headings(rows: seq<GrantRow>, n: nat): seq<Line>
    requires n < |rows|
  {
    var newSection := n == 0 || rows[n - 1].section != rows[n].section;
    (if newSection then [SectionComment(rows[n].section)] else [])
    + if newSection || rows[n - 1].identity != rows[n].identity
      then [ObjectComment(rows[n].identity, rows[n].relkind)] else []
  }

  lemma {:induction false} HeadingsSayNothing(rows: seq<GrantRow>, n: nat)
    requires n < |rows|
    ensures forall line :: line in Headings(rows, n) ==> Inside(line)
    ensures Collect(Headings(rows, n), StatementOf()) == []
  {
    CollectEmpty(Headings(rows, n), StatementOf());
  }

  lemma {:induction false} OneStatementMore(before: seq<Line>, headings: seq<Line>, s: Statement)
    requires Collect(headings, StatementOf()) == []
    ensures Collect(before + headings + [Execute(s)], StatementOf()) == Collect(before, StatementOf()) + [s]
  {
    CollectAppend(before, headings, StatementOf());
    CollectSnoc(before + headings, Execute(s), StatementOf());
    assert Collect(before, StatementOf()) + [] == Collect(before, StatementOf());
  }

  lemma {:induction false} GrantsOfPrefix(rows: seq<GrantRow>, n: nat)
    requires n < |rows|
    ensures Map(rows[..n + 1], GrantOf()) == Map(rows[..n], GrantOf()) + [GrantStatement(rows[n])]
  {
    PrefixStep(rows, n);
  }

  ghost predicate AllInside(lines: seq<Line>) { forall line :: line in lines ==> Inside(line) }

  lemma {:induction false} InsideTogether(before: seq<Line>, headings: seq<Line>, s: Statement)
    requires AllInside(before) && AllInside(headings)
    ensures AllInside(before + headings + [Execute(s)])
  {
  }

  lemma {:induction false} InsideStep(rows: seq<GrantRow>, n: nat)
    requires n < |rows| && AllInside(BodyLines(rows[..n]))
    ensures AllInside(BodyLines(rows[..n + 1]))
  {
    BodyStep(rows, n);
    HeadingsSayNothing(rows, n);
    InsideTogether(BodyLines(rows[..n]), Headings(rows, n), GrantStatement(rows[n]));
  }

  /** Between begin and commit there is nothing but headings and statements. */
  lemma {:induction false} BodyIsInside(rows: seq<GrantRow>, n: nat)
    requires n <= |rows|
    ensures AllInside(BodyLines(rows[..n]))
  {
    if n == 0 {
      assert rows[..0] == [];
    } else {
      BodyIsInside(rows, n - 1);
      InsideStep(rows, n - 1);
    }
  }

  lemma {:induction false} SilentStep(rows: seq<GrantRow>, n: nat) returns (headings: seq<Line>)
    requires n < |rows|
    ensures Collect(headings, StatementOf()) == []
    ensures BodyLines(rows[..n + 1]) == BodyLines(rows[..n]) + headings + [Execute(GrantStatement(rows[n]))]
  {
    headings := Headings(rows, n);
    BodyStep(rows, n);
    HeadingsSayNothing(rows, n);
  }

  /** One statement for each row, in the order of the rows. */
  lemma {:induction false} StatementsOfBody(rows: seq<GrantRow>, n: nat)
    requires n <= |rows|
    ensures Collect(BodyLines(rows[..n]), StatementOf()) == Map(rows[..n], GrantOf())
  {
    if n > 0 {
      StatementsOfBody(rows, n - 1);
      var headings := SilentStep(rows, n - 1);
      OneStatementMore(BodyLines(rows[..n - 1]), headings, GrantStatement(rows[n - 1]));
      GrantsOfPrefix(rows, n - 1);
    }
  }

  lemma {:induction false} CollectAppend<T, V>(xs: seq<T>, ys: seq<T>, f: T -> seq<V>)
    ensures Collect(xs + ys, f) == Collect(xs, f) + Collect(ys, f)
  {
    if ys == [] {
      assert xs + ys == xs;
    } else {
      CollectAppend(xs, ys[..|ys| - 1], f);
      assert (xs + ys)[..|xs + ys| - 1] == xs + ys[..|ys| - 1];
    }
  }

  lemma {:induction false} InsideBody(count: nat, body: seq<Line>)
    requires forall line :: line in body ==> Inside(line)
    ensures var lines := [Header(count), Begin] + body + [Commit];
            && |lines| == |body| + 3 && lines[0] == Header(count) && lines[1] == Begin && lines[|lines| - 1] == Commit
            && (forall i :: 2 <= i < |lines| - 1 ==> Inside(lines[i]))
            && Collect(lines, StatementOf()) == Collect(body, StatementOf())
  {
    var lines := [Header(count), Begin] + body + [Commit];
    forall i | 2 <= i < |lines| - 1
      ensures Inside(lines[i])
    {
      assert lines[i] == body[i - 2] && body[i - 2] in body;
    }
    CollectAppend([Header(count), Begin], body, StatementOf());
    CollectEmpty([Header(count), Begin], StatementOf());
    CollectSnoc([Header(count), Begin] + body, Commit, StatementOf());
  }

  /** The file is one transaction: it opens before the first statement and commits after the last. */
  lemma {:induction false} OneTransaction(rows: seq<GrantRow>)
    ensures var lines := Lines(rows);
            && |lines| >= 3 && lines[0] == Header(|rows|) && lines[1] == Begin && lines[|lines| - 1] == Commit
            && (forall i :: 2 <= i < |lines| - 1 ==> Inside(lines[i]))
            && Collect(lines, StatementOf()) == Map(rows, GrantOf())
  {
    StatementsOfBody(rows, |rows|);
    BodyIsInside(rows, |rows|);
    assert rows[..|rows|] == rows;
    InsideBody(|rows|, BodyLines(rows));
  }

  lemma {:induction false} Opened(acl: Acl, count: nat)
    ensures RunAll(Database(acl, None), [Header(count), Begin]) == Database(acl, Some(acl))
  {
    assert [Header(count), Begin][..1] == [Header(count)] && [Header(count)][..0] == [];
    assert RunAll(Database(acl, None), [Header(count)]) == Database(acl, None);
  }

  /** Up to the last line nothing is committed. */
  lemma {:induction false} NothingBeforeTheCommit(acl: Acl, rows: seq<GrantRow>, n: nat)
    requires n < |Lines(rows)|
    ensures RunLines(acl, Lines(rows)[..n]) == acl
  {
    var lines, d := Lines(rows), Database(acl, None);
    OneTransaction(rows);
    if n >= 2 {
      assert lines[..n] == [Header(|rows|), Begin] + lines[2..n];
      RunAppend(d, [Header(|rows|), Begin], lines[2..n]);
      Opened(acl, |rows|);
      forall line | line in lines[2..n]
        ensures Inside(line)
      {
        var i :| 2 <= i < n && lines[i] == line;
      }
      RunInside(Database(acl, Some(acl)), lines[2..n]);
    } else if n == 1 {
      var first := lines[..1];
      assert first[..0] == [] && first[0] == Header(|rows|);
      assert RunAll(d, first[..0]) == d;
    }
  }

  lemma {:induction false} AssertedAreGranted(rows: seq<GrantRow>)
    requires forall row :: row in rows ==> NamesItself(row)
    ensures Rights(Map(rows, GrantOf())) == set row | row in rows :: Granted(row)
  {
    var statements := Map(rows, GrantOf());
    forall row | row in rows
      ensures GrantStatement(row) in statements && Asserted(GrantStatement(row)) == Granted(row)
    {
      var i :| 0 <= i < |rows| && rows[i] == row;
      assert statements[i] == GrantStatement(row);
    }
    forall s | s in statements
      ensures exists row :: row in rows && s == GrantStatement(row)
    {
      var i :| 0 <= i < |statements| && statements[i] == s;
      assert rows[i] in rows;
    }
  }

  /** Begin, lines inside, commit: all their statements at once. */
  lemma {:induction false} RunTransaction(acl: Acl, count: nat, body: seq<Line>)
    requires forall line :: line in body ==> Inside(line)
    ensures RunLines(acl, [Header(count), Begin] + body + [Commit]) == acl + Rights(Collect(body, StatementOf()))
  {
    var d, head := Database(acl, None), [Header(count), Begin];
    RunAppend(d, head, body);
    Opened(acl, count);
    RunInside(Database(acl, Some(acl)), body);
    AssertedAreRights(body);
    assert (head + body + [Commit])[..|head + body|] == head + body;
  }

  /** Running the rendered file grants every row handed to the renderer, and nothing else. */
  lemma {:induction false} ScriptGrantsItsRows(acl: Acl, rows: seq<GrantRow>)
    requires forall row :: row in rows ==> NamesItself(row)
    ensures RunLines(acl, Lines(SortBy(rows, SortKey()))) == acl + set row | row in rows :: Granted(row)
  {
    var ordered := SortBy(rows, SortKey());
    StatementsOfBody(ordered, |ordered|);
    BodyIsInside(ordered, |ordered|);
    assert ordered[..|ordered|] == ordered;
    RunTransaction(acl, |ordered|, BodyLines(ordered));
    AssertedAreGranted(ordered);
    assert (set row | row in ordered :: Granted(row)) == set row | row in rows :: Granted(row);
  }

  // ----- the headings

  /** A statement with the headings in force above it, and which of them stand directly before it. */
  datatype Told = Told(
    section: string, identity: string, relkind: string, newSection: bool, newObject: bool, statement: Statement)

  datatype Reading = Reading(
    section: string, identity: string, relkind: string, newSection: bool, newObject: bool, told: seq<Told>) {
    function Read(line: Line): Reading {
      match line
      case SectionComment(name) => this.(section := name, newSection := true)
      case ObjectComment(name, kind) => this.(identity := name, relkind := kind, newObject := true)
      case Execute(s) =>
        this.(newSection := false, newObject := false,
              told := told + [Told(section, identity, relkind, newSection, newObject, s)])
      case Header(_) => this
      case Begin => this
      case Commit => this
    }
  }

  function ReadAll(lines: seq<Line>): Reading {
    if lines == [] then Reading("", "", "", false, false, [])
    else ReadAll(lines[..|lines| - 1]).Read(lines[|lines| - 1])
  }

  /** What is told about row `n`: its section and identity, and a heading exactly where one of them changes. */
  ghost predicate TellsRow(rows: seq<GrantRow>, n: nat, t: Told)
    requires n < |rows|
  {
    && t.section == rows[n].section && t.identity == rows[n].identity && t.statement == GrantStatement(rows[n])
    && (t.newSection <==> n == 0 || rows[n - 1].section != rows[n].section)
    && (t.newObject <==> t.newSection || rows[n - 1].identity != rows[n].identity)
    && (t.newObject ==> t.relkind == rows[n].relkind)
  }

  ghost predicate TellsRows(rows: seq<GrantRow>, n: nat, r: Reading)
    requires n <= |rows|
  {
    && |r.told| == n && !r.newSection && !r.newObject
    && (n > 0 ==> r.section == rows[n - 1].section && r.identity == rows[n - 1].identity)
    && forall i :: 0 <= i < n ==> TellsRow(rows, i, r.told[i])
  }

  lemma {:induction false} ReadAppend(a: seq<Line>, b: seq<Line>, r: Reading)
    requires |b| <= 2 && r == ReadAll(a)
    ensures |b| == 0 ==> ReadAll(a + b) == r
    ensures |b| == 1 ==> ReadAll(a + b) == r.Read(b[0])
    ensures |b| == 2 ==> ReadAll(a + b) == r.Read(b[0]).Read(b[1])
  {
    if |b| == 0 {
      assert a + b == a;
    } else if |b| == 1 {
      assert (a + b)[..|a|] == a;
    } else {
      assert (a + b)[..|a| + 1] == a + [b[0]] && (a + [b[0]])[..|a|] == a;
    }
  }

  lemma {:induction false} ReadRow(rows: seq<GrantRow>, n: nat, r: Reading, after: Reading)
    requires n < |rows| && TellsRows(rows, n, r)
    requires var h := Headings(rows, n); var s := Execute(GrantStatement(rows[n]));
             after == (if |h| == 0 then r else if |h| == 1 then r.Read(h[0]) else r.Read(h[0]).Read(h[1])).Read(s)
    ensures TellsRows(rows, n + 1, after)
  {
  }

  /** Every statement stands under its own section and object, and a heading stands only where one begins. */
  lemma {:induction false} HeadingsTell(rows: seq<GrantRow>, n: nat)
    requires n <= |rows|
    ensures TellsRows(rows, n, ReadAll(BodyLines(rows[..n])))
  {
    if n > 0 {
      var before, h, s := BodyLines(rows[..n - 1]), Headings(rows, n - 1), Execute(GrantStatement(rows[n - 1]));
      HeadingsTell(rows, n - 1);
      BodyStep(rows, n - 1);
      ReadAppend(before, h, ReadAll(before));
      ReadAppend(before + h, [s], ReadAll(before + h));
      ReadRow(rows, n - 1, ReadAll(before), ReadAll(before + h + [s]));
    }
  }

  lemma {:induction false} ReadAfterBegin(count: nat, body: seq<Line>)
    ensures ReadAll([Header(count), Begin] + body) == ReadAll(body)
  {
    var head := [Header(count), Begin];
    if body == [] {
      assert head + body == head && head[..1] == [Header(count)] && head[..1][..0] == [];
      assert ReadAll(head[..1]) == ReadAll([]).Read(Header(count));
    } else {
      ReadAfterBegin(count, body[..|body| - 1]);
      assert (head + body)[..|head + body| - 1] == head + body[..|body| - 1];
    }
  }

  /** The whole file tells its rows, each under its own section and object. */
  lemma {:induction false} FileTellsItsRows(rows: seq<GrantRow>)
    ensures TellsRows(rows, |rows|, ReadAll(Lines(rows)))
  {
    HeadingsTell(rows, |rows|);
    assert rows[..|rows|] == rows;
    ReadAfterBegin(|rows|, BodyLines(rows));
    ReadAppend([Header(|rows|), Begin] + BodyLines(rows), [Commit], ReadAll(BodyLines(rows)));
  }
}
