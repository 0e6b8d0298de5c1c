/**
 The source patcher (scripts/add_active_filters.py): find methods in a file, give
 each a call and a dictionary entry, editing the list of lines in place from the
 last method to the first. A line is what the patcher's patterns see of it.
 */
module FilterPatcher {
  import opened Collections

  /** What a return statement gives back; a bare `return` gives nothing. */
  datatype ReturnKind = ReturnDict | ReturnTemplate | ReturnOther | ReturnBare

  /** What the stripped line begins with. */
  datatype Head =
    | Blank | Comment | Def | ClassHead | Decorator | Import | Logger | OpenBrace | Return(kind: ReturnKind) | Other

  /** `braces` is opening minus closing braces on the line. */
  datatype Line = Line(
    text: string,
    indent: nat,
    head: Head,
    defines: Option<string>,
    braces: int,
    updates: bool,
    holdsBrace: bool,
    assignsContext: bool,
    beginsWithKey: bool,
    mentionsKey: bool,
    callsBuilder: bool,
    endsWithComma: bool,
    importsFilters: bool,
    isImportLine: bool)

  datatype Patch = Patch(method_: string, params: string, labels: Option<string>, options: Option<string>)

  /** A method to patch: its bounds, where the call goes and where its dictionary opens. */
  datatype Target = Target(start: nat, end: nat, call: nat, dictStart: nat, patch: Patch)

  const WINDOW: nat := 100

  const INDENT_WINDOW: nat := 8

  const LOOK_BACK: nat := 40

  function Min(a: nat, b: nat): nat { if a <= b then a else b }

  function InsertLines<T>(xs: seq<T>, i: nat, ys: seq<T>): seq<T> {
    if i <= |xs| then xs[..i] + ys + xs[i..] else xs + ys
  }

  /** The first line from `i` on that satisfies `p`, or the end. */
  function First(lines: seq<Line>, i: nat, p: Line -> bool): (r: nat)
    requires i <= |lines|
    ensures i <= r <= |lines| && (r < |lines| ==> p(lines[r]))
    decreases |lines| - i
  {
    if i == |lines| || p(lines[i]) then i else First(lines, i + 1, p)
  }

  // ----- the lines the patcher writes

  function Written(text: string, indent: nat): Line {
    Line(text, indent, Other, None, 0, false, false, false, false, false, false, true, false, false)
  }

  function ImportLine(): Line {
    Written("from app.services.common_filters import build_active_filters", 0)
      .(head := Import, endsWithComma := false, importsFilters := true, isImportLine := true)
  }

  function EntryLine(indent: nat): Line {
    Written("\"active_filters\": active_filters,", indent).(beginsWithKey := indent > 0, mentionsKey := true)
  }

  function CallLines(patch: Patch, indent: nat): seq<Line> {
    if patch.labels.None? && patch.options.None? then
      [Written("active_filters = build_active_filters(params=" + patch.params + ")", indent)
         .(callsBuilder := true, endsWithComma := false)]
    else
      [Written("active_filters = build_active_filters(", indent).(callsBuilder := true, endsWithComma := false),
       Written("params=" + patch.params + ",", indent + 4)]
      + (if patch.labels.Some? then [Written("labels=" + patch.labels.value + ",", indent + 4)] else [])
      + (if patch.options.Some? then [Written("options=" + patch.options.value + ",", indent + 4)] else [])
      + [Written(")", indent).(endsWithComma := false)]
  }

  // ----- finding a method

  function Defines(name: string): Line -> bool { (l: Line) => l.defines == Some(name) }

  function EndsMethod(indent: nat): Line -> bool {
    (l: Line) => l.indent <= indent && (l.head.Def? || l.head.ClassHead? || l.head.Decorator?)
  }

  function CallsBuilder(): Line -> bool { (l: Line) => l.callsBuilder }

  function MethodBounds(lines: seq<Line>, name: string): Option<(nat, nat)> {
    var start := First(lines, 0, Defines(name));
    if start == |lines| then None else Some((start, First(lines, start + 1, EndsMethod(lines[start].indent))))
  }

  function LastReturn(lines: seq<Line>, start: nat, end: nat): (r: Option<nat>)
    requires end <= |lines|
    ensures r.Some? ==> start < r.value < end && lines[r.value].head.Return?
  {
    if end <= start + 1 then None
    else if lines[end - 1].head.Return? then Some(end - 1)
    else LastReturn(lines, start, end - 1)
  }

  /** The nearest dictionary given to the template, looking back from `i` down to above `low`. */
  function LookBack(lines: seq<Line>, low: nat, i: nat): (r: Option<(nat, nat)>)
    requires i < |lines|
    ensures r.Some? ==> low < r.value.0 <= i && r.value.0 <= r.value.1 <= r.value.0 + 1 && r.value.1 < |lines|
  {
    if i <= low then None
    else if lines[i].updates && lines[i].holdsBrace then Some((i, i))
    else if lines[i].updates && i + 1 < |lines| && lines[i + 1].head.OpenBrace? then Some((i, i + 1))
    else if lines[i].assignsContext then Some((i, i))
    else LookBack(lines, low, i - 1)
  }

  function InsertionPoint(lines: seq<Line>, start: nat, end: nat): (r: Option<(nat, nat)>)
    requires start < end <= |lines|
    ensures r.Some? ==> start < r.value.0 <= r.value.1 < end
  {
    var last := LastReturn(lines, start, end);
    if last.None? then None
    else
      match lines[last.value].head.kind
      case ReturnDict => Some((last.value, last.value))
      case ReturnTemplate =>
        LookBack(lines, if start + LOOK_BACK <= last.value then last.value - LOOK_BACK else start, last.value - 1)
      case ReturnOther => None
      case ReturnBare => None
  }

  /** What one patch finds to do in the file, if anything. */
  function TargetOf(lines: seq<Line>, patch: Patch): Option<Target> {
    var bounds := MethodBounds(lines, patch.method_);
    if bounds.None? then None
    else
      var (start, end) := bounds.value;
      if First(lines, start, CallsBuilder()) < end then None
      else
        var point := InsertionPoint(lines, start, end);
        if point.None? then None else Some(Target(start, end, point.value.0, point.value.1, patch))
  }

  // ----- the edit of one method

  /** The line on which the braces opened from `start` on are closed, inside the window. */
  function Closing(lines: seq<Line>, start: nat, i: nat, depth: int): (r: Option<nat>)
    ensures r.Some? ==> i <= r.value < |lines| && r.value < start + WINDOW
    decreases start + WINDOW - i
  {
    if i >= Min(start + WINDOW, |lines|) then None
    else if depth + lines[i].braces <= 0 then Some(i)
    else Closing(lines, start, i + 1, depth + lines[i].braces)
  }

  /** The key already stands in the dictionary. */
  function Mentioned(lines: seq<Line>, start: nat, i: nat, depth: int): bool
    decreases start + WINDOW - i
  {
    if i >= Min(start + WINDOW, |lines|) then false
    else lines[i].mentionsKey
         || (depth + lines[i].braces > 0 && Mentioned(lines, start, i + 1, depth + lines[i].braces))
  }

  function EntryIndent(lines: seq<Line>, start: nat, i: nat): nat
    requires start < |lines|
    decreases start + INDENT_WINDOW - i
  {
    if i >= Min(start + INDENT_WINDOW, |lines|) then lines[start].indent + 4
    else if lines[i].beginsWithKey then lines[i].indent
    else EntryIndent(lines, start, i + 1)
  }

  predicate WantsComma(line: Line) {
    !line.head.Blank? && !line.endsWithComma && !line.head.Comment? && !line.head.OpenBrace?
  }

  /** A bare `return` that gains a comma is no return any more. */
  function WithComma(line: Line): Line {
    line.(text := line.text + ",", endsWithComma := true,
          head := if line.head == Return(ReturnBare) then Other else line.head)
  }

  /** One method's edit in the file's own line numbers. */
  datatype Edit = Edit(call: nat, callLines: seq<Line>, entryAt: Option<nat>, entry: Line, comma: Option<nat>)

  function EditOf(lines: seq<Line>, t: Target): Edit
    requires 0 < t.call <= t.dictStart < |lines|
  {
    var calls := CallLines(t.patch, lines[t.call].indent);
    var entry := EntryLine(EntryIndent(lines, t.dictStart, t.dictStart));
    var closing := Closing(lines, t.dictStart, t.dictStart, 0);
    if Mentioned(lines, t.dictStart, t.dictStart, 0) || closing.None? then Edit(t.call, calls, None, entry, None)
    else Edit(t.call, calls, closing, entry,
              if WantsComma(lines[closing.value - 1]) then Some(closing.value - 1) else None)
  }

  function Commaed(lines: seq<Line>, e: Edit): seq<Line> {
    if e.comma.Some? && e.comma.value < |lines| then lines[e.comma.value := WithComma(lines[e.comma.value])] else lines
  }

  function WithEntry(lines: seq<Line>, e: Edit): seq<Line> {
    if e.entryAt.Some? then InsertLines(Commaed(lines, e), e.entryAt.value, [e.entry]) else Commaed(lines, e)
  }

  function ApplyEdit(lines: seq<Line>, e: Edit): seq<Line> { InsertLines(WithEntry(lines, e), e.call, e.callLines) }

  predicate Fits(lines: seq<Line>, t: Target) { t.start < t.call <= t.dictStart < t.end <= |lines| }

  function ApplyTarget(lines: seq<Line>, t: Target): seq<Line> {
    if Fits(lines, t) then ApplyEdit(lines, EditOf(lines, t)) else lines
  }

  // ----- the whole file

  function LastImport(lines: seq<Line>, i: nat, last: nat): nat
    requires i <= |lines|
    decreases |lines| - i
  {
    if i == |lines| then last
    else if lines[i].head.Import? then LastImport(lines, i + 1, i)
    else if lines[i].head.ClassHead? || lines[i].head.Def? || lines[i].head.Logger? then last
    else LastImport(lines, i + 1, last)
  }

  predicate ImportsFilters(lines: seq<Line>) { exists l :: l in lines && l.importsFilters }

  predicate HasImportLine(lines: seq<Line>) { exists l :: l in lines && l.isImportLine }

  function AddedImport(lines: seq<Line>): seq<Line> {
    if ImportsFilters(lines) then lines
    else InsertLines(lines, LastImport(lines, 0, 0) + 1, [ImportLine()])
  }

  function Prepared(lines: seq<Line>): seq<Line> {
    if HasImportLine(lines) then lines else AddedImport(lines)
  }

  function Targets(lines: seq<Line>): Patch -> seq<Target> {
    (p: Patch) => var t := TargetOf(lines, p); if t.Some? then [t.value] else []
  }

  function FromTheEnd(): Target -> Key { (t: Target) => Key(-(t.call as int), "", "", "") }

  function Planned(lines: seq<Line>, patches: seq<Patch>): seq<Target> {
    SortBy(Collect(patches, Targets(lines)), FromTheEnd())
  }

  function ApplyInOrder(lines: seq<Line>, targets: seq<Target>): seq<Line>
    decreases |targets|
  {
    if targets == [] then lines
    else ApplyTarget(ApplyInOrder(lines, targets[..|targets| - 1]), targets[|targets| - 1])
  }

  /** The file after a run: untouched, the import included, when no patch finds anything to do. */
  function PatchedFile(lines: seq<Line>, patches: seq<Patch>): seq<Line> {
    var planned := Planned(Prepared(lines), patches);
    if planned == [] then lines else ApplyInOrder(Prepared(lines), planned)
  }

  // ----- the loops

  method FindFirst(lines: seq<Line>, i: nat, end: nat, p: Line -> bool) returns (r: nat)
    requires i <= end <= |lines|
    ensures r == Min(First(lines, i, p), end)
  {
    r := i;
    while r < end && !p(lines[r])
      invariant i <= r <= end
      invariant First(lines, i, p) == First(lines, r, p)
    {
      r := r + 1;
    }
  }

  method FindMethodBounds(lines: seq<Line>, name: string) returns (bounds: Option<(nat, nat)>)
    ensures bounds == MethodBounds(lines, name)
  {
    var start := FindFirst(lines, 0, |lines|, Defines(name));
    if start == |lines| {
      return None;
    }
    var end := FindFirst(lines, start + 1, |lines|, EndsMethod(lines[start].indent));
    bounds := Some((start, end));
  }

  method FindInsertionPoint(lines: seq<Line>, start: nat, end: nat) returns (point: Option<(nat, nat)>)
    requires start < end <= |lines|
    ensures point == InsertionPoint(lines, start, end)
  {
    var lastReturn: Option<nat> := None;
    for i := start + 1 to end
      invariant lastReturn == LastReturn(lines, start, i)
    {
      if lines[i].head.Return? {
        lastReturn := Some(i);
      }
    }
    if lastReturn.None? {
      return None;
    }
    var last := lastReturn.value;
    match lines[last].head.kind {
      case ReturnDict =>
        return Some((last, last));
      case ReturnOther =>
        return None;
      case ReturnBare =>
        return None;
      case ReturnTemplate =>
    }
    var low := if start + LOOK_BACK <= last then last - LOOK_BACK else start;
    var i := last - 1;
    while i > low
      invariant low <= i < last
      invariant InsertionPoint(lines, start, end) == LookBack(lines, low, i)
    {
      if lines[i].updates && lines[i].holdsBrace {
        return Some((i, i));
      }
      if lines[i].updates {
        if i + 1 < |lines| && lines[i + 1].head.OpenBrace? {
          return Some((i, i + 1));
        }
      }
      if lines[i].assignsContext {
        return Some((i, i));
      }
      i := i - 1;
    }
    point := None;
  }

  /** The three scans of the dictionary, then the comma and the entry. */
  method AddToDict(lines: seq<Line>, t: Target) returns (after: seq<Line>)
    requires Fits(lines, t)
    ensures after == WithEntry(lines, EditOf(lines, t))
  {
    var start := t.dictStart;
    var mentioned := IsMentioned(lines, start);
    if mentioned {
      return lines;
    }
    var indent := FindEntryIndent(lines, start);
    var closing := FindClosing(lines, start);
    if closing.None? {
      return lines;
    }
    ghost var e := EditOf(lines, t);
    assert e.entryAt == closing && e.entry == EntryLine(indent);
    after := lines;
    var previous := closing.value - 1;
    if WantsComma(after[previous]) {
      after := after[previous := WithComma(after[previous])];
    }
    assert after == Commaed(lines, e);
    after := InsertLines(after, closing.value, [EntryLine(indent)]);
  }

  method FindEntryIndent(lines: seq<Line>, start: nat) returns (indent: nat)
    requires start < |lines|
    ensures indent == EntryIndent(lines, start, start)
  {
    var k := start;
    while k < Min(start + INDENT_WINDOW, |lines|)
      invariant start <= k
      invariant EntryIndent(lines, start, start) == EntryIndent(lines, start, k)
    {
      if lines[k].beginsWithKey {
        return lines[k].indent;
      }
      k := k + 1;
    }
    indent := lines[start].indent + 4;
  }

  method IsMentioned(lines: seq<Line>, start: nat) returns (mentioned: bool)
    ensures mentioned == Mentioned(lines, start, start, 0)
  {
    var depth, i := 0, start;
    while i < Min(start + WINDOW, |lines|)
      invariant start <= i
      invariant Mentioned(lines, start, start, 0) == Mentioned(lines, start, i, depth)
    {
      if lines[i].mentionsKey {
        return true;
      }
      depth := depth + lines[i].braces;
      if depth <= 0 {
        return false;
      }
      i := i + 1;
    }
    mentioned := false;
  }

  method FindClosing(lines: seq<Line>, start: nat) returns (closing: Option<nat>)
    ensures closing == Closing(lines, start, start, 0)
  {
    var depth, i := 0, start;
    while i < Min(start + WINDOW, |lines|)
      invariant start <= i
      invariant Closing(lines, start, start, 0) == Closing(lines, start, i, depth)
    {
      depth := depth + lines[i].braces;
      if depth <= 0 {
        return Some(i);
      }
      i := i + 1;
    }
    closing := None;
  }

  method AddImport(lines: seq<Line>) returns (after: seq<Line>)
    ensures after == AddedImport(lines)
  {
    if ImportsFilters(lines) {
      return lines;
    }
    var last, i := 0, 0;
    while i < |lines|
      invariant i <= |lines|
      invariant LastImport(lines, 0, 0) == LastImport(lines, i, last)
    {
      if lines[i].head.Import? {
        last := i;
      } else if lines[i].head.ClassHead? || lines[i].head.Def? || lines[i].head.Logger? {
        break;
      }
      i := i + 1;
    }
    after := InsertLines(lines, last + 1, [ImportLine()]);
  }

  method CollectTargets(lines: seq<Line>, patches: seq<Patch>) returns (targets: seq<Target>)
    ensures targets == Collect(patches, Targets(lines))
  {
    targets := [];
    for n := 0 to |patches|
      invariant targets == Collect(patches[..n], Targets(lines))
    {
      PrefixStep(patches, n);
      var bounds := FindMethodBounds(lines, patches[n].method_);
      if bounds.None? {
        continue;
      }
      var start, end := bounds.value.0, bounds.value.1;
      var has := FindFirst(lines, start, end, CallsBuilder());
      if has < end {
        continue;
      }
      var point := FindInsertionPoint(lines, start, end);
      if point.None? {
        continue;
      }
      targets := targets + [Target(start, end, point.value.0, point.value.1, patches[n])];
    }
    assert patches[..|patches|] == patches;
  }

  /** One target: the dictionary first, then the call above it. */
  method PatchMethod(lines: seq<Line>, t: Target) returns (after: seq<Line>)
    requires Fits(lines, t)
    ensures after == ApplyTarget(lines, t) && |after| >= |lines|
  {
    var calls := CallLines(t.patch, lines[t.call].indent);
    after := AddToDict(lines, t);
    after := InsertLines(after, t.call, calls);
  }

  lemma {:induction false} PlannedFit(lines: seq<Line>, patches: seq<Patch>)
    ensures forall t :: t in Planned(lines, patches) ==> Fits(lines, t)
  {
    CollectMembers(patches, Targets(lines));
  }

  method PatchMethods(prepared: seq<Line>, targets: seq<Target>) returns (lines: seq<Line>)
    requires forall n :: 0 <= n < |targets| ==> Fits(prepared, targets[n])
    ensures lines == ApplyInOrder(prepared, targets)
  {
    lines := prepared;
    for n := 0 to |targets|
      invariant |lines| >= |prepared|
      invariant lines == ApplyInOrder(prepared, targets[..n])
    {
      PrefixStep(targets, n);
      assert Fits(prepared, targets[n]);
      lines := PatchMethod(lines, targets[n]);
    }
    assert targets[..|targets|] == targets;
  }

  method PatchFile(content: seq<Line>, patches: seq<Patch>) returns (after: seq<Line>, patched: nat)
    ensures after == PatchedFile(content, patches)
    ensures patched == |Planned(Prepared(content), patches)|
  {
    var prepared := content;
    if !HasImportLine(content) {
      prepared := AddImport(content);
    }
    var found := CollectTargets(prepared, patches);
    var targets := SortBy(found, FromTheEnd());
    PlannedFit(prepared, patches);
    assert forall n :: 0 <= n < |targets| ==> targets[n] in targets;
    var lines := PatchMethods(prepared, targets);
    patched := |targets|;
    after := if patched == 0 then content else lines;
  }
}
