/**
 Guards that let a migration script be run again (alembic/idempotent_ops.py): a
 create that meets its object and a drop that misses it become no-ops, each
 inside a savepoint of its own.
 */
module IdempotentOps {
  import opened Collections

  // ----- which errors are swallowed

  const DUPLICATE_CODES: set<string> := {"42P07", "42710", "42701"}

  const MISSING_CODES: set<string> := {"42P01", "42704", "42703"}

  const CREATE_OPS: set<string> := {
    "create_table", "create_index", "add_column", "create_foreign_key", "create_unique_constraint",
    "create_primary_key", "create_check_constraint", "create_exclude_constraint"}

  const DROP_OPS: set<string> := {"drop_table", "drop_index", "drop_column", "drop_constraint"}

  datatype DriverError = DriverError(sqlstate: Option<string>, pgcode: Option<string>)

  /** An exception: from the database, with what the driver raised, or anything else. */
  datatype Exception = DatabaseError(orig: Option<DriverError>) | OtherError

  function Sqlstate(e: Exception): Option<string> {
    match e
    case OtherError => None
    case DatabaseError(None) => None
    case DatabaseError(Some(d)) => if d.sqlstate.Some? && d.sqlstate.value != "" then d.sqlstate else d.pgcode
  }

  predicate Swallowed(opName: string, e: Exception) {
    var code := Sqlstate(e);
    if code.None? || code.value == "" then false
    else if opName in CREATE_OPS then code.value in DUPLICATE_CODES
    else if opName in DROP_OPS then code.value in MISSING_CODES
    else false
  }

  /** The driver reported this code: as its SQLSTATE, or as its older code when it gave no SQLSTATE. */
  ghost predicate Reports(e: Exception, code: string) {
    && code != "" && e.DatabaseError? && e.orig.Some?
    && (e.orig.value.sqlstate == Some(code)
        || (e.orig.value.sqlstate in {None, Some("")} && e.orig.value.pgcode == Some(code)))
  }

  /** Swallowed are a duplicate met by a create and a missing object met by a drop, and nothing else. */
  lemma {:induction false} SwallowedExactly(opName: string, e: Exception)
    ensures Swallowed(opName, e) <==>
            || (opName in CREATE_OPS && (Reports(e, "42P07") || Reports(e, "42710") || Reports(e, "42701")))
            || (opName in DROP_OPS && (Reports(e, "42P01") || Reports(e, "42704") || Reports(e, "42703")))
  {
    OpsApart(opName);
    if e.DatabaseError? && e.orig.Some? {
      var d := e.orig.value;
      assert forall code: string :: Reports(e, code) <==> code != "" && Sqlstate(e) == Some(code);
    }
  }

  lemma {:induction false} OpsApart(opName: string)
    ensures !(opName in CREATE_OPS && opName in DROP_OPS)
  {
    if opName in CREATE_OPS {
      assert opName[0] == 'c' || opName[0] == 'a';
    }
  }

  // ----- the schema and its operations

  datatype Kind = Column | Index | ForeignKey | Unique | Check | Exclude

  datatype Part = Part(kind: Kind, name: string)

  /** What belongs to each table: its columns, indexes and constraints with their definitions. */
  type Schema = map<string, map<Part, string>>

  /** `native` says whether the statement carries its own IF [NOT] EXISTS. */
  datatype Operation =
    | CreateTable(table: string, parts: map<Part, string>, native: bool)
    | DropTable(table: string, native: bool)
    | AddPart(table: string, part: Part, definition: string, native: bool)
    | DropPart(table: string, part: Part, native: bool)

  function OperationName(op: Operation): string {
    match op
    case CreateTable(_, _, _) => "create_table"
    case DropTable(_, _) => "drop_table"
    case AddPart(_, part, _, _) => (
      match part.kind
      case Column => "add_column"
      case Index => "create_index"
      case ForeignKey => "create_foreign_key"
      case Unique => "create_unique_constraint"
      case Check => "create_check_constraint"
      case Exclude => "create_exclude_constraint")
    case DropPart(_, part, _) =>
      if part.kind.Column? then "drop_column" else if part.kind.Index? then "drop_index" else "drop_constraint"
  }

  function DuplicateCode(kind: Kind): string {
    match kind
    case Column => "42701"
    case ForeignKey => "42710"
    case Check => "42710"
    case Index => "42P07"
    case Unique => "42P07"
    case Exclude => "42P07"
  }

  function MissingCode(kind: Kind): string { if kind.Column? then "42703" else "42704" }

  function ServerError(code: string): Exception { DatabaseError(Some(DriverError(Some(code), None))) }

  /** What the server answers to the bare statement. */
  function Execute(s: Schema, op: Operation): Result<Schema, Exception> {
    match op
    case CreateTable(t, parts, native) =>
      if t !in s then Success(s[t := parts]) else if native then Success(s) else Failure(ServerError("42P07"))
    case DropTable(t, native) =>
      if t in s then Success(s - {t}) else if native then Success(s) else Failure(ServerError("42P01"))
    case AddPart(t, part, definition, native) =>
      if t !in s then Failure(ServerError("42P01"))
      else if part !in s[t] then Success(s[t := s[t][part := definition]])
      else if native then Success(s) else Failure(ServerError(DuplicateCode(part.kind)))
    case DropPart(t, part, native) =>
      if t in s && part in s[t] then Success(s[t := s[t] - {part}])
      else if native then Success(s)
      else if t !in s then Failure(ServerError("42P01")) else Failure(ServerError(MissingCode(part.kind)))
  }

  /** The guard asks for the native form wherever the statement has one. */
  function WithNative(op: Operation): Operation {
    match op
    case CreateTable(t, parts, _) => CreateTable(t, parts, true)
    case DropTable(t, _) => DropTable(t, true)
    case AddPart(t, part, definition, native) => AddPart(t, part, definition, native || part.kind.Index?)
    case DropPart(t, part, native) => DropPart(t, part, native || part.kind.Index?)
  }

  // ----- one guarded operation

  /** A connection inside a transaction; after an error nothing but a rollback is accepted. */
  class Connection {
    var schema: Schema
    var aborted: bool
    var savepoint: Option<Schema>

    constructor (schema: Schema)
      ensures this.schema == schema && !aborted && savepoint == None
    {
      this.schema, aborted, savepoint := schema, false, None;
    }

    method BeginNested()
      requires !aborted && savepoint.None?
      modifies this`savepoint
      ensures savepoint == Some(schema)
    {
      savepoint := Some(schema);
    }

    method Release()
      requires !aborted && savepoint.Some?
      modifies this`savepoint
      ensures savepoint == None
    {
      savepoint := None;
    }

    method RollbackToSavepoint()
      requires savepoint.Some?
      modifies this
      ensures savepoint == None && !aborted && schema == old(savepoint.value)
    {
      schema, aborted, savepoint := savepoint.value, false, None;
    }

    method Run(op: Operation) returns (error: Option<Exception>)
      requires !aborted
      modifies this`schema, this`aborted
      ensures match Execute(old(schema), op)
              case Success(after) => error == None && schema == after && !aborted
              case Failure(e) => error == Some(e) && schema == old(schema) && aborted
    {
      match Execute(schema, op)
      case Success(after) =>
        schema := after;
        error := None;
      case Failure(e) =>
        aborted := true;
        error := Some(e);
    }
  }

  /** The schema a guarded operation leaves: a swallowed error changes nothing. */
  function Guarded(s: Schema, op: Operation): Result<Schema, Exception> {
    match Execute(s, WithNative(op))
    case Success(after) => Success(after)
    case Failure(e) => if Swallowed(OperationName(op), e) then Success(s) else Failure(e)
  }

  method RunGuarded(connection: Connection, op: Operation) returns (raised: Option<Exception>)
    requires !connection.aborted && connection.savepoint.None?
    modifies connection
    ensures !connection.aborted && connection.savepoint.None?
    ensures match Guarded(old(connection.schema), op)
            case Success(after) => raised == None && connection.schema == after
            case Failure(e) => raised == Some(e) && connection.schema == old(connection.schema)
  {
    connection.BeginNested();
    raised := connection.Run(WithNative(op));
    match raised
    case None =>
      connection.Release();
    case Some(e) =>
      connection.RollbackToSavepoint();
      if Swallowed(OperationName(op), e) {
        raised := None;
      }
  }

  // ----- what guarding means

  predicate TableThere(s: Schema, op: Operation) { op.AddPart? ==> op.table in s }

  /** Create if absent, drop if present. */
  function Applied(s: Schema, op: Operation): Schema {
    match op
    case CreateTable(t, parts, _) => if t in s then s else s[t := parts]
    case DropTable(t, _) => s - {t}
    case AddPart(t, part, definition, _) => if t !in s || part in s[t] then s else s[t := s[t][part := definition]]
    case DropPart(t, part, _) => if t !in s || part !in s[t] then s else s[t := s[t] - {part}]
  }

  /**
   A guarded operation raises exactly when it adds to a table that is not there;
   otherwise, with or without the native form, it is create-if-absent or drop-if-present.
   */
  lemma {:induction false} GuardedMeans(s: Schema, op: Operation)
    ensures Guarded(s, op).Success? <==> TableThere(s, op)
    ensures TableThere(s, op) ==> Guarded(s, op) == Success(Applied(s, op))
    ensures !TableThere(s, op) ==> Guarded(s, op) == Failure(ServerError("42P01"))
  {
    match op
    case CreateTable(t, parts, native) =>
    case DropTable(t, native) => assert t !in s ==> s - {t} == s;
    case AddPart(t, part, definition, native) => assert part.kind.Index? || OperationName(op) in CREATE_OPS;
    case DropPart(t, part, native) => assert part.kind.Index? || OperationName(op) in DROP_OPS;
  }

  /** A script, stopped by the first operation that raises. */
  function RunScript(s: Schema, ops: seq<Operation>): Result<Schema, Exception> {
    if ops == [] then Success(s)
    else
      var before := RunScript(s, ops[..|ops| - 1]);
      if before.Failure? then before else Guarded(before.value, ops[|ops| - 1])
  }

  method RunMigration(connection: Connection, ops: seq<Operation>) returns (raised: Option<Exception>)
    requires !connection.aborted && connection.savepoint.None?
    modifies connection
    ensures !connection.aborted && connection.savepoint.None?
    ensures match RunScript(old(connection.schema), ops)
            case Success(after) => raised == None && connection.schema == after
            case Failure(e) => raised == Some(e)
  {
    ghost var start := connection.schema;
    for i := 0 to |ops|
      invariant !connection.aborted && connection.savepoint.None?
      invariant RunScript(start, ops[..i]) == Success(connection.schema)
    {
      PrefixStep(ops, i);
      raised := RunGuarded(connection, ops[i]);
      if raised.Some? {
        StaysRaised(start, ops, i + 1);
        return;
      }
    }
    assert ops[..|ops|] == ops;
    raised := None;
  }

  lemma {:induction false} StaysRaised(s: Schema, ops: seq<Operation>, n: nat)
    requires n <= |ops| && RunScript(s, ops[..n]).Failure?
    ensures RunScript(s, ops) == RunScript(s, ops[..n])
    decreases |ops|
  {
    if n == |ops| {
      assert ops[..n] == ops;
    } else {
      var init := ops[..|ops| - 1];
      assert init[..n] == ops[..n];
      StaysRaised(s, init, n);
    }
  }
}
