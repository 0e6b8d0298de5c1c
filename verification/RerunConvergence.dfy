/**
 Running a guarded script again after any prefix of itself
 (alembic/idempotent_ops.py): when it reaches what one clean run reaches, and
 the one shape of script for which it does not.
 */
module RerunConvergence {
  import opened Collections
  import opened IdempotentOps

  // ----- one part of one table

  /** What the schema says of a part: its table is absent, the part is, or it has this definition. */
  datatype Cell = NoTable | NoPart | Has(definition: string)

  function CellOf(s: Schema, table: string, part: Part): Cell {
    if table !in s then NoTable else if part !in s[table] then NoPart else Has(s[table][part])
  }

  function CellStep(cell: Cell, op: Operation, table: string, part: Part): Cell {
    if op.table != table then cell
    else
      match op
      case CreateTable(_, parts, _) =>
        if !cell.NoTable? then cell else if part in parts then Has(parts[part]) else NoPart
      case DropTable(_, _) => NoTable
      case AddPart(_, p, definition, _) => if p == part && cell.NoPart? then Has(definition) else cell
      case DropPart(_, p, _) => if p == part && cell.Has? then NoPart else cell
  }

  function CellRun(cell: Cell, ops: seq<Operation>, table: string, part: Part): Cell {
    if ops == [] then cell
    else CellStep(CellRun(cell, ops[..|ops| - 1], table, part), ops[|ops| - 1], table, part)
  }

  lemma {:induction false} CellFollows(s: Schema, ops: seq<Operation>, table: string, part: Part)
    requires RunScript(s, ops).Success?
    ensures CellOf(RunScript(s, ops).value, table, part) == CellRun(CellOf(s, table, part), ops, table, part)
  {
    if ops != [] {
      var init, last := ops[..|ops| - 1], ops[|ops| - 1];
      CellFollows(s, init, table, part);
      GuardedMeans(RunScript(s, init).value, last);
    }
  }

  ghost predicate SameCells(s: Schema, t: Schema) {
    forall table, part :: CellOf(s, table, part) == CellOf(t, table, part)
  }

  /** Two schemas are one when all their cells agree. */
  lemma {:induction false} CellsDecide(s: Schema, t: Schema)
    ensures s == t <==> SameCells(s, t)
  {
    if SameCells(s, t) {
      forall table
        ensures table in s <==> table in t
        ensures table in s ==> s[table] == t[table]
      {
        CellsDecideTable(s, t, table);
      }
    }
  }

  lemma {:induction false} CellsDecideTable(s: Schema, t: Schema, table: string)
    requires SameCells(s, t)
    ensures table in s <==> table in t
    ensures table in s ==> s[table] == t[table]
  {
    assert CellOf(s, table, Part(Column, "")) == CellOf(t, table, Part(Column, ""));
    if table in s {
      forall part
        ensures part in s[table] <==> part in t[table]
        ensures part in s[table] ==> s[table][part] == t[table][part]
      {
        assert CellOf(s, table, part) == CellOf(t, table, part);
      }
    }
  }

  // ----- what a script does to one cell

  predicate DropsTable(op: Operation, table: string) { op.DropTable? && op.table == table }

  predicate CreatesTable(op: Operation, table: string) { op.CreateTable? && op.table == table }

  predicate DropsPart(op: Operation, table: string, part: Part) { op.DropPart? && op.table == table && op.part == part }

  predicate AddsPart(op: Operation, table: string, part: Part) { op.AddPart? && op.table == table && op.part == part }

  ghost predicate TableDropped(ops: seq<Operation>, table: string) { exists op :: op in ops && DropsTable(op, table) }

  ghost predicate PartDropped(ops: seq<Operation>, table: string, part: Part) {
    exists op :: op in ops && DropsPart(op, table, part)
  }

  ghost predicate TableCreated(ops: seq<Operation>, table: string) { exists op :: op in ops && CreatesTable(op, table) }

  /** What the first addition of the part defines. */
  function FirstAdded(ops: seq<Operation>, table: string, part: Part): Cell {
    if ops == [] then NoPart
    else
      var before := FirstAdded(ops[..|ops| - 1], table, part);
      if before.Has? then before
      else if AddsPart(ops[|ops| - 1], table, part) then Has(ops[|ops| - 1].definition)
      else NoPart
  }

  lemma {:induction false} DropForgets(a: Cell, b: Cell, ops: seq<Operation>, table: string, part: Part)
    requires TableDropped(ops, table) || (!a.NoTable? && !b.NoTable? && PartDropped(ops, table, part))
    ensures CellRun(a, ops, table, part) == CellRun(b, ops, table, part)
  {
    InitLast(ops);
    var init, last := ops[..|ops| - 1], ops[|ops| - 1];
    if DropsTable(last, table) {
    } else if TableDropped(init, table) {
      assert forall op :: op in init ==> op in ops;
      DropForgets(a, b, init, table, part);
    } else if !TableDropped(ops, table) && !PartDropped(init, table, part) {
      StaysPresent(a, init, table, part);
      StaysPresent(b, init, table, part);
    } else {
      DropForgets(a, b, init, table, part);
    }
  }

  lemma {:induction false} StaysPresent(a: Cell, ops: seq<Operation>, table: string, part: Part)
    requires !a.NoTable? && !TableDropped(ops, table)
    ensures !CellRun(a, ops, table, part).NoTable?
    ensures !PartDropped(ops, table, part) ==>
              CellRun(a, ops, table, part) == if a.Has? then a else FirstAdded(ops, table, part)
  {
    if ops != [] {
      InitLast(ops);
      var init := ops[..|ops| - 1];
      assert forall op :: op in init ==> op in ops;
      StaysPresent(a, init, table, part);
      assert ops[|ops| - 1] in ops;
    }
  }

  lemma {:induction false} StaysAbsent(ops: seq<Operation>, table: string, part: Part)
    requires !TableCreated(ops, table)
    ensures CellRun(NoTable, ops, table, part) == NoTable
  {
    if ops != [] {
      InitLast(ops);
      assert forall op :: op in ops[..|ops| - 1] ==> op in ops;
      StaysAbsent(ops[..|ops| - 1], table, part);
      assert ops[|ops| - 1] in ops;
    }
  }

  lemma {:induction false} CellRunParts(cell: Cell, xs: seq<Operation>, ys: seq<Operation>, table: string, part: Part)
    ensures CellRun(cell, xs + ys, table, part) == CellRun(CellRun(cell, xs, table, part), ys, table, part)
  {
    if ys == [] {
      assert xs + ys == xs;
    } else {
      assert (xs + ys)[..|xs + ys| - 1] == xs + ys[..|ys| - 1];
      CellRunParts(cell, xs, ys[..|ys| - 1], table, part);
    }
  }

  // ----- running again

  /** The script creates the table at `at` and not before, with the part defined as `definition`. */
  ghost predicate FirstCreation(ops: seq<Operation>, at: nat, table: string) {
    at < |ops| && CreatesTable(ops[at], table) && !TableCreated(ops[..at], table)
  }

  /**
   The trap: the table is new and never dropped, the interrupted run got past its
   creation with the part in it, the script drops the part before creating the
   table, and nothing afterwards drops it or adds it back as it was.
   */
  ghost predicate Trap(cell: Cell, ops: seq<Operation>, k: nat, table: string, part: Part)
    requires k <= |ops|
  {
    cell.NoTable? && !TableDropped(ops, table) && exists at :: TrapAt(ops, k, at, table, part)
  }

  ghost predicate TrapAt(ops: seq<Operation>, k: nat, at: nat, table: string, part: Part) {
    && at < k <= |ops| && FirstCreation(ops, at, table) && part in ops[at].parts
    && PartDropped(ops[..at], table, part) && !PartDropped(ops[at + 1..], table, part)
    && FirstAdded(ops[at + 1..], table, part) != Has(ops[at].parts[part])
  }

  ghost predicate Rejoins(cell: Cell, ops: seq<Operation>, k: nat, table: string, part: Part)
    requires k <= |ops|
  {
    CellRun(CellRun(cell, ops[..k], table, part), ops, table, part) == CellRun(cell, ops, table, part)
  }

  lemma {:induction false} PresentRejoins(cell: Cell, ops: seq<Operation>, k: nat, table: string, part: Part)
    requires k <= |ops| && !TableDropped(ops, table) && !cell.NoTable?
    ensures Rejoins(cell, ops, k, table, part)
  {
    var xs, ys := ops[..k], ops[k..];
    assert ops == xs + ys;
    assert forall op :: op in xs ==> op in ops;
    StaysPresent(cell, xs, table, part);
    var middle := CellRun(cell, xs, table, part);
    if PartDropped(ops, table, part) {
      DropForgets(cell, middle, ops, table, part);
    } else {
      StaysPresent(cell, ops, table, part);
      StaysPresent(middle, ops, table, part);
      FirstAddedParts(xs, ys, table, part);
    }
  }

  lemma {:induction false} FirstAddedParts(xs: seq<Operation>, ys: seq<Operation>, table: string, part: Part)
    ensures FirstAdded(xs + ys, table, part) ==
            if FirstAdded(xs, table, part).Has? then FirstAdded(xs, table, part) else FirstAdded(ys, table, part)
  {
    if ys == [] {
      assert xs + ys == xs;
    } else {
      assert (xs + ys)[..|xs + ys| - 1] == xs + ys[..|ys| - 1];
      FirstAddedParts(xs, ys[..|ys| - 1], table, part);
    }
  }

  lemma {:induction false} FindFirstCreation(ops: seq<Operation>, table: string) returns (at: nat)
    requires TableCreated(ops, table)
    ensures FirstCreation(ops, at, table)
  {
    InitLast(ops);
    var init := ops[..|ops| - 1];
    if TableCreated(init, table) {
      at := FindFirstCreation(init, table);
      assert init[..at] == ops[..at];
    } else {
      at := |ops| - 1;
    }
  }

  lemma {:induction false} SplitAt(ops: seq<Operation>, k: nat, at: nat, table: string)
    requires at < k <= |ops| && !TableDropped(ops, table)
    ensures ops == ops[..at] + [ops[at]] + ops[at + 1..]
    ensures ops[..k] == ops[..at] + [ops[at]] + ops[at + 1..][..k - at - 1]
    ensures !TableDropped(ops[..at], table) && !TableDropped(ops[at + 1..], table)
    ensures !TableDropped(ops[at + 1..][..k - at - 1], table)
  {
  }

  /** What the clean run leaves of a part: the creation's definition goes through the rest of the script. */
  lemma {:induction false} CleanRun(
      head: seq<Operation>, create: Operation, tail: seq<Operation>, table: string, part: Part)
    requires !TableCreated(head, table) && CreatesTable(create, table)
    ensures CellRun(NoTable, head + [create] + tail, table, part) ==
            CellRun(if part in create.parts then Has(create.parts[part]) else NoPart, tail, table, part)
  {
    StaysAbsent(head, table, part);
    CellRunParts(NoTable, head + [create], tail, table, part);
    CellRunParts(NoTable, head, [create], table, part);
    OneStep(NoTable, create, table, part);
  }

  lemma {:induction false} OneStep(cell: Cell, op: Operation, table: string, part: Part)
    ensures CellRun(cell, [op], table, part) == CellStep(cell, op, table, part)
  {
    assert [op][..0] == [];
    assert CellRun(cell, [], table, part) == cell;
  }

  /** What a second run does to a part that is there: the drops before the creation now strike. */
  lemma {:induction false} SecondRun(
      cell: Cell, head: seq<Operation>, create: Operation, tail: seq<Operation>, table: string, part: Part)
    requires !cell.NoTable? && !TableDropped(head, table) && CreatesTable(create, table)
    ensures CellRun(cell, head + [create] + tail, table, part) ==
            CellRun(CellRun(cell, head, table, part), tail, table, part)
  {
    StaysPresent(cell, head, table, part);
    CellRunParts(cell, head + [create], tail, table, part);
    CellRunParts(cell, head, [create], table, part);
    OneStep(CellRun(cell, head, table, part), create, table, part);
  }

  /** Additions before the creation would have raised, so the head of a clean run has none. */
  ghost predicate NoAddition(ops: seq<Operation>, table: string, part: Part) {
    forall op :: op in ops ==> !AddsPart(op, table, part)
  }

  lemma {:induction false} HeadOnlyDrops(cell: Cell, head: seq<Operation>, table: string, part: Part)
    requires !cell.NoTable? && !TableDropped(head, table) && NoAddition(head, table, part)
    ensures CellRun(cell, head, table, part) == if PartDropped(head, table, part) then NoPart else cell
  {
    if head != [] {
      InitLast(head);
      var init := head[..|head| - 1];
      assert forall op :: op in init ==> op in head;
      HeadOnlyDrops(cell, init, table, part);
      assert head[|head| - 1] in head;
    }
  }

  function Creation(create: Operation, part: Part): Cell
    requires create.CreateTable?
  {
    if part in create.parts then Has(create.parts[part]) else NoPart
  }

  lemma {:induction false} TailRejoins(d: Cell, tail: seq<Operation>, j: nat, table: string, part: Part)
    requires j <= |tail| && !TableDropped(tail, table) && !d.NoTable?
    ensures var middle := CellRun(d, tail[..j], table, part);
            !middle.NoTable? && CellRun(middle, tail, table, part) == CellRun(d, tail, table, part)
  {
    PresentRejoins(d, tail, j, table, part);
    assert forall op :: op in tail[..j] ==> op in tail;
    StaysPresent(d, tail[..j], table, part);
  }

  lemma {:induction false} EmptiedRejoins(d: Cell, tail: seq<Operation>, table: string, part: Part)
    requires !TableDropped(tail, table) && !d.NoTable?
    ensures CellRun(NoPart, tail, table, part) == CellRun(d, tail, table, part) <==>
            PartDropped(tail, table, part) || d.NoPart? || FirstAdded(tail, table, part) == d
  {
    StaysPresent(d, tail, table, part);
    StaysPresent(NoPart, tail, table, part);
    if PartDropped(tail, table, part) {
      DropForgets(d, NoPart, tail, table, part);
    }
  }

  lemma {:induction false} RerunOfNewTable(
      head: seq<Operation>, create: Operation, tail: seq<Operation>, j: nat, table: string, part: Part)
    requires j <= |tail| && CreatesTable(create, table) && !TableCreated(head, table)
    requires !TableDropped(head, table) && !TableDropped(tail, table) && NoAddition(head, table, part)
    ensures var d := Creation(create, part);
            CellRun(CellRun(NoTable, head + [create] + tail[..j], table, part), head + [create] + tail, table, part)
              == CellRun(NoTable, head + [create] + tail, table, part) <==>
            !PartDropped(head, table, part) || PartDropped(tail, table, part) || d.NoPart?
              || FirstAdded(tail, table, part) == d
  {
    var d := Creation(create, part);
    CleanRun(head, create, tail, table, part);
    CleanRun(head, create, tail[..j], table, part);
    TailRejoins(d, tail, j, table, part);
    var middle := CellRun(d, tail[..j], table, part);
    SecondRun(middle, head, create, tail, table, part);
    HeadOnlyDrops(middle, head, table, part);
    EmptiedRejoins(d, tail, table, part);
  }

  /** A table the script brings into being at `at`. */
  lemma {:induction false} NewTableRejoins(ops: seq<Operation>, k: nat, at: nat, table: string, part: Part)
    requires k <= |ops| && !TableDropped(ops, table) && FirstCreation(ops, at, table)
    requires NoAddition(ops[..at], table, part)
    ensures Rejoins(NoTable, ops, k, table, part) <==> !TrapAt(ops, k, at, table, part)
  {
    var head, tail := ops[..at], ops[at + 1..];
    if k <= at {
      assert ops[..k] == head[..k];
      assert forall op :: op in head[..k] ==> op in head;
      StaysAbsent(head[..k], table, part);
    } else {
      SplitAt(ops, k, at, table);
      RerunOfNewTable(head, ops[at], tail, k - at - 1, table, part);
    }
  }


  /** In a run that does not raise, nothing is added to a table before its first creation. */
  lemma {:induction false} NothingAddedBefore(s: Schema, ops: seq<Operation>, table: string, part: Part)
    requires table !in s && !TableCreated(ops, table) && RunScript(s, ops).Success?
    ensures table !in RunScript(s, ops).value && NoAddition(ops, table, part)
  {
    if ops != [] {
      InitLast(ops);
      var init, last := ops[..|ops| - 1], ops[|ops| - 1];
      assert forall op :: op in init ==> op in ops;
      NothingAddedBefore(s, init, table, part);
      GuardedMeans(RunScript(s, init).value, last);
      assert last in ops;
    }
  }

  lemma {:induction false} PrefixSucceeds(s: Schema, ops: seq<Operation>, n: nat)
    requires n <= |ops| && RunScript(s, ops).Success?
    ensures RunScript(s, ops[..n]).Success?
  {
    if RunScript(s, ops[..n]).Failure? {
      StaysRaised(s, ops, n);
    }
  }

  lemma {:induction false} CreationIsFirst(ops: seq<Operation>, a: nat, b: nat, table: string)
    requires FirstCreation(ops, a, table) && b < |ops| && CreatesTable(ops[b], table)
    ensures a <= b
  {
    assert forall i :: 0 <= i < a ==> ops[..a][i] == ops[i] && ops[..a][i] in ops[..a];
  }

  /** One part comes back as a clean run would have it, unless the script is a trap for it. */
  lemma {:induction false} CellRejoinsExactly(s: Schema, ops: seq<Operation>, k: nat, table: string, part: Part)
    requires k <= |ops| && RunScript(s, ops).Success?
    ensures Rejoins(CellOf(s, table, part), ops, k, table, part) <==> !Trap(CellOf(s, table, part), ops, k, table, part)
  {
    var cell := CellOf(s, table, part);
    if TableDropped(ops, table) {
      DropForgets(cell, CellRun(cell, ops[..k], table, part), ops, table, part);
    } else if !cell.NoTable? {
      PresentRejoins(cell, ops, k, table, part);
    } else if TableCreated(ops, table) {
      var at := FindFirstCreation(ops, table);
      PrefixSucceeds(s, ops, at);
      NothingAddedBefore(s, ops[..at], table, part);
      NewTableRejoins(ops, k, at, table, part);
      forall b | TrapAt(ops, k, b, table, part)
        ensures b == at
      {
        CreationIsFirst(ops, at, b, table);
        CreationIsFirst(ops, b, at, table);
      }
    } else {
      assert forall op :: op in ops[..k] ==> op in ops;
      StaysAbsent(ops[..k], table, part);
      assert forall at: nat :: at < |ops| ==> ops[at] in ops;
    }
  }

  /**
   A second run that does not raise reaches the schema of one clean run exactly
   when the script is a trap for no part of any table.
   */
  lemma {:induction false} RerunConvergesExactly(s: Schema, ops: seq<Operation>, k: nat)
    requires k <= |ops| && RunScript(s, ops).Success?
    ensures RunScript(s, ops[..k]).Success?
    ensures var again := RunScript(RunScript(s, ops[..k]).value, ops);
            again.Success? ==>
              (again == RunScript(s, ops) <==> forall table, part :: !Trap(CellOf(s, table, part), ops, k, table, part))
  {
    PrefixSucceeds(s, ops, k);
    var middle := RunScript(s, ops[..k]).value;
    var again := RunScript(middle, ops);
    if again.Success? {
      CellsDecide(again.value, RunScript(s, ops).value);
      forall table, part
        ensures CellOf(again.value, table, part) == CellOf(RunScript(s, ops).value, table, part) <==>
                !Trap(CellOf(s, table, part), ops, k, table, part)
      {
        CellFollows(s, ops, table, part);
        CellFollows(s, ops[..k], table, part);
        CellFollows(middle, ops, table, part);
        CellRejoinsExactly(s, ops, k, table, part);
      }
    }
  }

  /** The second run adds to a table the first run dropped, and nothing creates it in between. */
  ghost predicate Stranded(s: Schema, middle: Schema, ops: seq<Operation>, table: string) {
    && table in s && table !in middle
    && exists i :: 0 <= i < |ops| && ops[i].AddPart? && ops[i].table == table && !TableCreated(ops[..i], table)
  }

  lemma {:induction false} FirstRaise(s: Schema, ops: seq<Operation>) returns (i: nat)
    requires RunScript(s, ops).Failure?
    ensures i < |ops| && RunScript(s, ops[..i]).Success? && !TableThere(RunScript(s, ops[..i]).value, ops[i])
  {
    var init := ops[..|ops| - 1];
    if RunScript(s, init).Failure? {
      i := FirstRaise(s, init);
      assert init[..i] == ops[..i];
    } else {
      i := |ops| - 1;
      GuardedMeans(RunScript(s, init).value, ops[i]);
    }
  }

  lemma {:induction false} CreatedIsPresent(cell: Cell, ops: seq<Operation>, table: string, part: Part)
    requires TableCreated(ops, table) && !TableDropped(ops, table)
    ensures !CellRun(cell, ops, table, part).NoTable?
  {
    InitLast(ops);
    var init := ops[..|ops| - 1];
    assert forall op :: op in init ==> op in ops;
    assert ops[|ops| - 1] in ops;
    if TableCreated(init, table) {
      CreatedIsPresent(cell, init, table, part);
    }
  }

  lemma {:induction false} StrandedRaises(s: Schema, middle: Schema, ops: seq<Operation>, table: string)
    requires Stranded(s, middle, ops, table)
    ensures RunScript(middle, ops).Failure?
  {
    var i :| 0 <= i < |ops| && ops[i].AddPart? && ops[i].table == table && !TableCreated(ops[..i], table);
    PrefixStep(ops, i);
    if RunScript(middle, ops[..i]).Success? {
      CellFollows(middle, ops[..i], table, ops[i].part);
      StaysAbsent(ops[..i], table, ops[i].part);
      GuardedMeans(RunScript(middle, ops[..i]).value, ops[i]);
      StaysRaised(middle, ops, i + 1);
    } else {
      StaysRaised(middle, ops, i);
    }
  }

  lemma {:induction false} PresenceDiffers(a: Cell, b: Cell, ops: seq<Operation>, table: string, part: Part)
    requires !CellRun(a, ops, table, part).NoTable? && CellRun(b, ops, table, part).NoTable?
    ensures !a.NoTable? && b.NoTable? && !TableCreated(ops, table)
  {
    if TableDropped(ops, table) {
      DropForgets(a, b, ops, table, part);
    }
    if TableCreated(ops, table) {
      CreatedIsPresent(b, ops, table, part);
    }
    if a.NoTable? {
      StaysAbsent(ops, table, part);
    }
    if !b.NoTable? {
      StaysPresent(b, ops, table, part);
    }
  }

  lemma {:induction false} PrefixReaches(s: Schema, ops: seq<Operation>, i: nat)
    requires i < |ops| && RunScript(s, ops).Success?
    ensures RunScript(s, ops[..i]).Success? && TableThere(RunScript(s, ops[..i]).value, ops[i])
  {
    PrefixSucceeds(s, ops, i);
    PrefixSucceeds(s, ops, i + 1);
    PrefixStep(ops, i);
    GuardedMeans(RunScript(s, ops[..i]).value, ops[i]);
  }

  lemma {:induction false} RaiseIsStranded(s: Schema, middle: Schema, ops: seq<Operation>, i: nat)
    requires i < |ops| && RunScript(s, ops).Success?
    requires RunScript(middle, ops[..i]).Success? && !TableThere(RunScript(middle, ops[..i]).value, ops[i])
    ensures Stranded(s, middle, ops, ops[i].table)
  {
    var table, part := ops[i].table, ops[i].part;
    PrefixReaches(s, ops, i);
    CellFollows(s, ops[..i], table, part);
    CellFollows(middle, ops[..i], table, part);
    PresenceDiffers(CellOf(s, table, part), CellOf(middle, table, part), ops[..i], table, part);
  }

  /** The second run raises exactly when some table is stranded. */
  lemma {:induction false} RerunRaisesExactly(s: Schema, ops: seq<Operation>, k: nat)
    requires k <= |ops| && RunScript(s, ops).Success?
    ensures RunScript(s, ops[..k]).Success?
    ensures var middle := RunScript(s, ops[..k]).value;
            RunScript(middle, ops).Failure? <==> exists table :: Stranded(s, middle, ops, table)
  {
    PrefixSucceeds(s, ops, k);
    var middle := RunScript(s, ops[..k]).value;
    if RunScript(middle, ops).Failure? {
      var i := FirstRaise(middle, ops);
      RaiseIsStranded(s, middle, ops, i);
    }
    if table :| Stranded(s, middle, ops, table) {
      StrandedRaises(s, middle, ops, table);
    }
  }

  /** Two guarded statements that a second run does not repeat: it drops what the first run created. */
  lemma {:induction false} DropBeforeCreateDiverges(note: Part, key: Part)
    requires note == Part(Column, "note") && key == Part(Column, "id")
    ensures var ops := [DropPart("t", note, false), CreateTable("t", map[key := "uuid", note := "text"], false)];
            && RunScript(map[], ops) == Success(map["t" := map[key := "uuid", note := "text"]])
            && RunScript(RunScript(map[], ops).value, ops) == Success(map["t" := map[key := "uuid"]])
  {
    var drop, create := DropPart("t", note, false), CreateTable("t", map[key := "uuid", note := "text"], false);
    var full: Schema := map["t" := map[key := "uuid", note := "text"]];
    TwoSteps(map[], drop, create);
    TwoSteps(full, drop, create);
    assert map[key := "uuid", note := "text"] - {note} == map[key := "uuid"];
    assert full["t" := map[key := "uuid"]] == map["t" := map[key := "uuid"]];
  }

  lemma {:induction false} TwoSteps(s: Schema, a: Operation, b: Operation)
    requires TableThere(s, a) && TableThere(Applied(s, a), b)
    ensures RunScript(s, [a, b]) == Success(Applied(Applied(s, a), b))
  {
    assert [a, b][..1] == [a] && [a][..0] == [];
    assert RunScript(s, []) == Success(s);
    GuardedMeans(s, a);
    assert RunScript(s, [a]) == Success(Applied(s, a));
    GuardedMeans(Applied(s, a), b);
  }
}
