/**
 What is left of a file's own lines after a run of the source patcher
 (scripts/add_active_filters.py), for every file and every list of patches.
 */
module GrownLines {
  import opened Collections
  import opened FilterPatcher

  // ----- the lines a run adds

  /** The import, an entry, or a line of some patch's call. */
  ghost predicate IsWritten(l: Line, patches: seq<Patch>) {
    || l == ImportLine()
    || l == EntryLine(l.indent)
    || exists p, indent :: p in patches && l in CallLines(p, indent)
  }

  predicate UpToComma(a: Line, b: Line) { b == a || (WantsComma(a) && b == WithComma(a)) }

  ghost predicate Added(l: Line, patches: seq<Patch>) {
    exists w :: IsWritten(w, patches) && UpToComma(w, l)
  }

  lemma {:induction false} UpToCommaTwice(a: Line, b: Line, c: Line)
    requires UpToComma(a, b) && UpToComma(b, c)
    ensures UpToComma(a, c)
  {
  }

  lemma {:induction false} AddedUpToComma(l: Line, m: Line, patches: seq<Patch>)
    requires Added(l, patches) && UpToComma(l, m)
    ensures Added(m, patches)
  {
    var w :| IsWritten(w, patches) && UpToComma(w, l);
    UpToCommaTwice(w, l, m);
  }

  // ----- inserting

  function Shift(k: nat, at: nat, n: nat): nat { if k < at then k else k + n }

  lemma {:induction false} InsertedOld<T>(xs: seq<T>, at: nat, ys: seq<T>, k: nat)
    requires at <= |xs| && k < |xs|
    ensures Shift(k, at, |ys|) < |InsertLines(xs, at, ys)| == |xs| + |ys|
    ensures InsertLines(xs, at, ys)[Shift(k, at, |ys|)] == xs[k]
  {
  }

  lemma {:induction false} InsertedNew<T>(xs: seq<T>, at: nat, ys: seq<T>, k: nat)
    requires at <= |xs| && at <= k < at + |ys|
    ensures |InsertLines(xs, at, ys)| == |xs| + |ys| && InsertLines(xs, at, ys)[k] == ys[k - at]
  {
  }

  function Unshift(k: nat, at: nat, n: nat): nat { if k < at then k else if k < at + n then at else k - n }

  function Shifted(pos: seq<nat>, at: nat, n: nat): seq<nat> {
    seq(|pos|, (i: nat) requires i < |pos| => Shift(pos[i], at, n))
  }

  function Standing(n: nat): seq<nat> { seq(n, (i: nat) => i) }

  // ----- a grown file

  /** The lines stand at these places, in order. */
  ghost predicate Ascends(pos: seq<nat>, end: nat) {
    && (forall i :: 0 <= i < |pos| ==> pos[i] < end)
    && (forall i, j :: 0 <= i < j < |pos| ==> pos[i] < pos[j])
  }

  /** Line `i` of the original stands at `pos[i]`, at most with a comma more. */
  ghost predicate LinesKept(lines: seq<Line>, after: seq<Line>, pos: seq<nat>)
    requires |pos| == |lines| && Ascends(pos, |after|)
  {
    forall i :: 0 <= i < |lines| ==> UpToComma(lines[i], after[pos[i]])
  }

  ghost predicate OthersAdded(after: seq<Line>, pos: seq<nat>, patches: seq<Patch>) {
    forall k :: 0 <= k < |after| && k !in pos ==> Added(after[k], patches)
  }

  /**
   Every original line is there, in order, at most with a comma more; and every
   other line is the import, an entry or a line of a call, at most with a comma more.
   */
  ghost predicate Grown(lines: seq<Line>, after: seq<Line>, pos: seq<nat>, patches: seq<Patch>) {
    |pos| == |lines| && Ascends(pos, |after|) && LinesKept(lines, after, pos) && OthersAdded(after, pos, patches)
  }

  lemma {:induction false} GrownSame(lines: seq<Line>, patches: seq<Patch>)
    ensures Grown(lines, lines, Standing(|lines|), patches)
  {
    forall k | 0 <= k < |lines|
      ensures k in Standing(|lines|)
    {
      assert Standing(|lines|)[k] == k;
    }
  }

  lemma {:induction false} CommaGrows(lines: seq<Line>, after: seq<Line>, pos: seq<nat>, k: nat, patches: seq<Patch>)
    requires Grown(lines, after, pos, patches) && k < |after| && WantsComma(after[k])
    ensures Grown(lines, after[k := WithComma(after[k])], pos, patches)
  {
    var later := after[k := WithComma(after[k])];
    forall i | 0 <= i < |lines|
      ensures UpToComma(lines[i], later[pos[i]])
    {
      assert UpToComma(after[pos[i]], later[pos[i]]);
      UpToCommaTwice(lines[i], after[pos[i]], later[pos[i]]);
    }
    forall j | 0 <= j < |later| && j !in pos
      ensures Added(later[j], patches)
    {
      AddedUpToComma(after[j], later[j], patches);
    }
  }

  lemma {:induction false} ShiftedAscends(pos: seq<nat>, end: nat, at: nat, n: nat)
    requires Ascends(pos, end)
    ensures Ascends(Shifted(pos, at, n), end + n)
  {
  }

  lemma {:induction false} InsertKeeps(
      lines: seq<Line>, after: seq<Line>, pos: seq<nat>, at: nat, ys: seq<Line>)
    requires |pos| == |lines| && Ascends(pos, |after|) && LinesKept(lines, after, pos) && at <= |after|
    ensures Ascends(Shifted(pos, at, |ys|), |InsertLines(after, at, ys)|)
    ensures LinesKept(lines, InsertLines(after, at, ys), Shifted(pos, at, |ys|))
  {
    ShiftedAscends(pos, |after|, at, |ys|);
    forall i | 0 <= i < |lines|
      ensures InsertLines(after, at, ys)[Shifted(pos, at, |ys|)[i]] == after[pos[i]]
    {
      InsertedOld(after, at, ys, pos[i]);
    }
  }

  lemma {:induction false} InsertAdds(after: seq<Line>, pos: seq<nat>, at: nat, ys: seq<Line>, patches: seq<Patch>)
    requires OthersAdded(after, pos, patches) && at <= |after| && forall y :: y in ys ==> Added(y, patches)
    ensures OthersAdded(InsertLines(after, at, ys), Shifted(pos, at, |ys|), patches)
  {
    var later := InsertLines(after, at, ys);
    forall k | 0 <= k < |later| && k !in Shifted(pos, at, |ys|)
      ensures Added(later[k], patches)
    {
      if at <= k < at + |ys| {
        InsertedNew(after, at, ys, k);
        assert ys[k - at] in ys;
      } else {
        var j := Unshift(k, at, |ys|);
        InsertedOld(after, at, ys, j);
        assert forall i :: 0 <= i < |pos| ==> Shifted(pos, at, |ys|)[i] == Shift(pos[i], at, |ys|);
        assert j !in pos;
      }
    }
  }

  lemma {:induction false} InsertGrows(
      lines: seq<Line>, after: seq<Line>, pos: seq<nat>, at: nat, ys: seq<Line>, patches: seq<Patch>)
    requires Grown(lines, after, pos, patches) && at <= |after| && forall y :: y in ys ==> Added(y, patches)
    ensures Grown(lines, InsertLines(after, at, ys), Shifted(pos, at, |ys|), patches)
  {
    InsertKeeps(lines, after, pos, at, ys);
    InsertAdds(after, pos, at, ys, patches);
  }

  // ----- what a pattern does not see

  /** No pattern of the patcher but the one for its own call applies to the line. */
  predicate Neutral(l: Line) {
    && l.defines.None? && (l.head.Other? || l.head.Import?)
    && !l.updates && !l.assignsContext && l.braces == 0
  }

  lemma {:induction false} CallsAreNeutral(p: Patch, indent: nat)
    ensures forall n :: 0 <= n < |CallLines(p, indent)| ==> Neutral(CallLines(p, indent)[n])
    ensures forall n :: 0 < n < |CallLines(p, indent)| ==> !CallLines(p, indent)[n].callsBuilder
    ensures CallLines(p, indent) != [] && CallLines(p, indent)[0].callsBuilder
  {
  }

  lemma {:induction false} WrittenIsNeutral(w: Line, patches: seq<Patch>)
    requires IsWritten(w, patches)
    ensures Neutral(w)
  {
    if w != ImportLine() && w != EntryLine(w.indent) {
      var p, indent :| p in patches && w in CallLines(p, indent);
      CallsAreNeutral(p, indent);
    }
  }

  lemma {:induction false} AddedIsNeutral(l: Line, patches: seq<Patch>)
    requires Added(l, patches)
    ensures Neutral(l)
  {
    var w :| IsWritten(w, patches) && UpToComma(w, l);
    WrittenIsNeutral(w, patches);
  }

  // ----- the gaps above the lines

  /** Behind the line before line `i`: where the gap above line `i` begins. */
  function Behind(pos: seq<nat>, i: nat): nat
    requires i <= |pos|
  {
    if i == 0 then 0 else pos[i - 1] + 1
  }

  /** Where line `i` stands, the end of the file included. */
  function Moved(after: seq<Line>, pos: seq<nat>, i: nat): nat
    requires i <= |pos|
  {
    if i == |pos| then |after| else pos[i]
  }

  lemma {:induction false} GapIsFree(pos: seq<nat>, end: nat, i: nat, k: nat)
    requires Ascends(pos, end) && i <= |pos| && Behind(pos, i) <= k && (i < |pos| ==> k < pos[i])
    ensures k !in pos
  {
    assert forall j :: 0 <= j < i ==> pos[j] < k;
    assert forall j :: i <= j < |pos| ==> pos[j] > k;
  }

  lemma {:induction false} LineKept(lines: seq<Line>, after: seq<Line>, pos: seq<nat>, patches: seq<Patch>, i: nat)
    requires Grown(lines, after, pos, patches) && i < |lines|
    ensures pos[i] < |after| && UpToComma(lines[i], after[pos[i]])
  {
  }

  lemma {:induction false} GapsGrow(pos: seq<nat>, end: nat, i: nat, j: nat)
    requires Ascends(pos, end) && i <= j < |pos|
    ensures pos[j] - pos[i] >= j - i
  {
    if i < j {
      GapsGrow(pos, end, i, j - 1);
    }
  }

  // ----- a run

  /** Where the lines that stood at `pos` stand once the entry is in. */
  function AfterEntry(pos: seq<nat>, e: Edit): seq<nat> {
    if e.entryAt.Some? then Shifted(pos, e.entryAt.value, 1) else pos
  }

  /** Where the lines that stood at `pos` stand after the edit of one method. */
  function Stepped(lines: seq<Line>, pos: seq<nat>, t: Target): seq<nat> {
    if !Fits(lines, t) then pos
    else
      var e := EditOf(lines, t);
      Shifted(AfterEntry(pos, e), e.call, |e.callLines|)
  }

  /** Where the lines stand after the run. */
  function Placed(lines: seq<Line>, targets: seq<Target>): seq<nat>
    decreases |targets|
  {
    if targets == [] then Standing(|lines|)
    else
      var init := targets[..|targets| - 1];
      Stepped(ApplyInOrder(lines, init), Placed(lines, init), targets[|targets| - 1])
  }

  lemma {:induction false} CallsAreAdded(p: Patch, indent: nat, patches: seq<Patch>)
    requires p in patches
    ensures forall y :: y in CallLines(p, indent) ==> Added(y, patches)
  {
    forall y | y in CallLines(p, indent)
      ensures Added(y, patches)
    {
      assert IsWritten(y, patches) && UpToComma(y, y);
    }
  }

  lemma {:induction false} EntryIsAdded(indent: nat, patches: seq<Patch>)
    ensures Added(EntryLine(indent), patches)
  {
    var y := EntryLine(indent);
    assert y == EntryLine(y.indent);
    assert IsWritten(y, patches) && UpToComma(y, y);
  }

  lemma {:induction false} CommaedGrows(
      lines: seq<Line>, after: seq<Line>, pos: seq<nat>, e: Edit, patches: seq<Patch>)
    requires Grown(lines, after, pos, patches)
    requires e.comma.Some? ==> e.comma.value < |after| && WantsComma(after[e.comma.value])
    ensures Grown(lines, Commaed(after, e), pos, patches) && |Commaed(after, e)| == |after|
  {
    if e.comma.Some? {
      CommaGrows(lines, after, pos, e.comma.value, patches);
    }
  }

  lemma {:induction false} EntryGrows(
      lines: seq<Line>, after: seq<Line>, pos: seq<nat>, e: Edit, patches: seq<Patch>)
    requires Grown(lines, after, pos, patches) && (e.entryAt.Some? ==> e.entryAt.value <= |after|)
    requires e.comma.Some? ==> e.comma.value < |after| && WantsComma(after[e.comma.value])
    requires e.entry == EntryLine(e.entry.indent)
    ensures Grown(lines, WithEntry(after, e), AfterEntry(pos, e), patches) && |WithEntry(after, e)| >= |after|
  {
    CommaedGrows(lines, after, pos, e, patches);
    if e.entryAt.Some? {
      EntryIsAdded(e.entry.indent, patches);
      InsertGrows(lines, Commaed(after, e), pos, e.entryAt.value, [e.entry], patches);
    }
  }

  lemma {:induction false} EditIsSound(lines: seq<Line>, t: Target)
    requires Fits(lines, t)
    ensures var e := EditOf(lines, t);
            && e.call < |lines| && e.entry == EntryLine(e.entry.indent)
            && (e.entryAt.Some? ==> e.entryAt.value <= |lines|)
            && (e.comma.Some? ==> e.comma.value < |lines| && WantsComma(lines[e.comma.value]))
  {
  }

  lemma {:induction false} StepGrows(
      lines: seq<Line>, after: seq<Line>, pos: seq<nat>, t: Target, patches: seq<Patch>)
    requires Grown(lines, after, pos, patches) && t.patch in patches
    ensures Grown(lines, ApplyTarget(after, t), Stepped(after, pos, t), patches)
  {
    if Fits(after, t) {
      var e := EditOf(after, t);
      EditIsSound(after, t);
      EntryGrows(lines, after, pos, e, patches);
      CallsAreAdded(t.patch, after[t.call].indent, patches);
      InsertGrows(lines, WithEntry(after, e), AfterEntry(pos, e), e.call, e.callLines, patches);
    }
  }

  ghost predicate FromPatches(targets: seq<Target>, patches: seq<Patch>) {
    forall n :: 0 <= n < |targets| ==> targets[n].patch in patches
  }

  lemma {:induction false} RunGrows(lines: seq<Line>, targets: seq<Target>, patches: seq<Patch>)
    requires FromPatches(targets, patches)
    ensures Grown(lines, ApplyInOrder(lines, targets), Placed(lines, targets), patches)
    decreases |targets|
  {
    if targets == [] {
      GrownSame(lines, patches);
    } else {
      var init := targets[..|targets| - 1];
      RunGrows(lines, init, patches);
      StepGrows(lines, ApplyInOrder(lines, init), Placed(lines, init), targets[|targets| - 1], patches);
    }
  }

  // ----- going up the file

  ghost predicate AllFit(lines: seq<Line>, targets: seq<Target>) {
    forall n :: 0 <= n < |targets| ==> Fits(lines, targets[n])
  }

  /** The calls go in from the end of the file to its beginning. */
  ghost predicate Descends(targets: seq<Target>) {
    forall i, j :: 0 <= i < j < |targets| ==> targets[j].call <= targets[i].call
  }

  /** The lines above `low` have not moved. */
  ghost predicate StillAbove(pos: seq<nat>, low: nat) {
    forall i :: 0 <= i < low && i < |pos| ==> pos[i] == i
  }

  lemma {:induction false} NeverUp(pos: seq<nat>, end: nat, i: nat)
    requires Ascends(pos, end) && i < |pos|
    ensures pos[i] >= i
  {
    if i > 0 {
      NeverUp(pos, end, i - 1);
    }
  }

  function Low(lines: seq<Line>, targets: seq<Target>): nat {
    if targets == [] then |lines| else targets[|targets| - 1].call
  }

  // ----- a file

  function Composed(first: seq<nat>, second: seq<nat>): seq<nat>
    requires forall i :: 0 <= i < |first| ==> first[i] < |second|
  {
    seq(|first|, (i: nat) requires i < |first| => second[first[i]])
  }

  lemma {:induction false} KeptTwice(
      lines: seq<Line>, mid: seq<Line>, after: seq<Line>, first: seq<nat>, second: seq<nat>)
    requires |first| == |lines| && Ascends(first, |mid|) && LinesKept(lines, mid, first)
    requires |second| == |mid| && Ascends(second, |after|) && LinesKept(mid, after, second)
    ensures Ascends(Composed(first, second), |after|) && LinesKept(lines, after, Composed(first, second))
  {
    forall i | 0 <= i < |lines|
      ensures UpToComma(lines[i], after[Composed(first, second)[i]])
    {
      UpToCommaTwice(lines[i], mid[first[i]], after[second[first[i]]]);
    }
  }

  lemma {:induction false} GrownTwice(
      lines: seq<Line>, mid: seq<Line>, after: seq<Line>, first: seq<nat>, second: seq<nat>, patches: seq<Patch>)
    requires Grown(lines, mid, first, patches) && Grown(mid, after, second, patches)
    ensures Grown(lines, after, Composed(first, second), patches)
  {
    var pos := Composed(first, second);
    KeptTwice(lines, mid, after, first, second);
    forall k | 0 <= k < |after| && k !in pos && k in second
      ensures Added(after[k], patches)
    {
      var j :| 0 <= j < |second| && second[j] == k;
      assert forall i :: 0 <= i < |first| ==> pos[i] == second[first[i]] && pos[i] in pos;
      assert j !in first;
      AddedUpToComma(mid[j], after[k], patches);
    }
  }

  function ImportAt(content: seq<Line>): nat { Min(LastImport(content, 0, 0) + 1, |content|) }

  /** Where the lines of the file stand once the import is there. */
  function AfterImport(content: seq<Line>): seq<nat> {
    if HasImportLine(content) || ImportsFilters(content) then Standing(|content|)
    else Shifted(Standing(|content|), ImportAt(content), 1)
  }

  lemma {:induction false} ImportGrows(content: seq<Line>, patches: seq<Patch>)
    ensures Grown(content, Prepared(content), AfterImport(content), patches)
  {
    GrownSame(content, patches);
    if !HasImportLine(content) && !ImportsFilters(content) {
      assert IsWritten(ImportLine(), patches) && UpToComma(ImportLine(), ImportLine());
      InsertGrows(content, content, Standing(|content|), ImportAt(content), [ImportLine()], patches);
      assert LastImport(content, 0, 0) + 1 > |content| ==>
               content + [ImportLine()] == InsertLines(content, |content|, [ImportLine()]);
    }
  }

  lemma {:induction false} PlannedFromPatches(lines: seq<Line>, patches: seq<Patch>)
    ensures FromPatches(Planned(lines, patches), patches)
  {
    CollectMembers(patches, Targets(lines));
    var planned := Planned(lines, patches);
    forall n | 0 <= n < |planned|
      ensures planned[n].patch in patches
    {
      assert planned[n] in planned;
      var p :| p in patches && planned[n] in Targets(lines)(p);
    }
  }

  /**
   After a run over any file with any patches, all original lines survive in order,
   each at most gaining a comma, and every other line is the inserted import, an
   inserted entry or a line of an inserted call.
   */
  lemma {:induction false} LinesSurvive(content: seq<Line>, patches: seq<Patch>) returns (pos: seq<nat>)
    ensures Grown(content, PatchedFile(content, patches), pos, patches)
  {
    var lines := Prepared(content);
    var planned := Planned(lines, patches);
    if planned == [] {
      GrownSame(content, patches);
      pos := Standing(|content|);
    } else {
      ImportGrows(content, patches);
      PlannedFromPatches(lines, patches);
      RunGrows(lines, planned, patches);
      pos := Composed(AfterImport(content), Placed(lines, planned));
      GrownTwice(content, lines, ApplyInOrder(lines, planned), AfterImport(content), Placed(lines, planned), patches);
    }
  }
}
