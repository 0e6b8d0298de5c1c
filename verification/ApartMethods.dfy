/**
 Files whose patched methods lie apart (scripts/add_active_filters.py): when the
 patched file is the original with every patch at its original position, and
 when a second run leaves it alone.
 */
module ApartMethods {
  import opened Collections
  import opened FilterPatcher
  import opened GrownLines
  import opened PatchedLines
  import opened PatchOrder
  import opened SecondPatch

  // ----- the targets of a file

  /** No two patches name methods that reach into each other. */
  ghost predicate Apart(lines: seq<Line>, patches: seq<Patch>) {
    forall i, j :: 0 <= i < j < |patches| ==>
      BoundsApart(MethodBounds(lines, patches[i].method_), MethodBounds(lines, patches[j].method_))
  }

  ghost predicate BoundsApart(a: Option<(nat, nat)>, b: Option<(nat, nat)>) {
    a.Some? && b.Some? ==> a.value.1 <= b.value.0 || b.value.1 <= a.value.0
  }

  lemma {:induction false} FoundTargets(lines: seq<Line>, patches: seq<Patch>)
    ensures forall t :: t in Collect(patches, Targets(lines)) <==>
              exists p :: p in patches && TargetOf(lines, p) == Some(t)
  {
    CollectMembers(patches, Targets(lines));
    forall t
      ensures t in Collect(patches, Targets(lines)) <==> exists p :: p in patches && TargetOf(lines, p) == Some(t)
    {
      if p :| p in patches && t in Targets(lines)(p) {
        assert TargetOf(lines, p) == Some(t);
      }
      if p :| p in patches && TargetOf(lines, p) == Some(t) {
        assert t in Targets(lines)(p);
      }
    }
  }

  lemma {:induction false} TargetHasBounds(lines: seq<Line>, p: Patch)
    requires TargetOf(lines, p).Some?
    ensures var t := TargetOf(lines, p).value;
            && Fits(lines, t) && t.dictStart <= t.call + 1 && t.patch == p
            && MethodBounds(lines, p.method_) == Some((t.start, t.end))
  {
  }

  lemma {:induction false} PatchesApart(lines: seq<Line>, patches: seq<Patch>, p: Patch, q: Patch)
    requires Apart(lines, patches) && p in patches && q in patches && p != q
    ensures BoundsApart(MethodBounds(lines, p.method_), MethodBounds(lines, q.method_))
  {
    var i :| 0 <= i < |patches| && patches[i] == p;
    var j :| 0 <= j < |patches| && patches[j] == q;
    assert i < j ==> BoundsApart(MethodBounds(lines, patches[i].method_), MethodBounds(lines, patches[j].method_));
    assert j < i ==> BoundsApart(MethodBounds(lines, patches[j].method_), MethodBounds(lines, patches[i].method_));
  }

  lemma {:induction false} TargetsApart(lines: seq<Line>, patches: seq<Patch>, t: Target, u: Target)
    requires Apart(lines, patches) && t != u
    requires t in Collect(patches, Targets(lines)) && u in Collect(patches, Targets(lines))
    ensures t.end <= u.start || u.end <= t.start
  {
    FoundTargets(lines, patches);
    var p :| p in patches && TargetOf(lines, p) == Some(t);
    var q :| q in patches && TargetOf(lines, q) == Some(u);
    TargetHasBounds(lines, p);
    TargetHasBounds(lines, q);
    PatchesApart(lines, patches, p, q);
  }

  lemma {:induction false} OtherTarget(lines: seq<Line>, patches: seq<Patch>, q: Patch, p: Patch)
    requires Apart(lines, patches) && patches != [] && p == patches[|patches| - 1] && q in patches[..|patches| - 1]
    requires TargetOf(lines, p).Some? && TargetOf(lines, q).Some?
    ensures TargetOf(lines, q) != TargetOf(lines, p)
  {
    TargetHasBounds(lines, p);
    TargetHasBounds(lines, q);
    var i :| 0 <= i < |patches| - 1 && patches[..|patches| - 1][i] == q;
    assert BoundsApart(MethodBounds(lines, patches[i].method_), MethodBounds(lines, p.method_));
  }

  lemma {:induction false} FoundAreDistinct(lines: seq<Line>, patches: seq<Patch>)
    requires Apart(lines, patches)
    ensures Distinct(Collect(patches, Targets(lines)))
  {
    if patches != [] {
      InitLast(patches);
      var init, p := patches[..|patches| - 1], patches[|patches| - 1];
      assert forall i :: 0 <= i < |init| ==> init[i] == patches[i];
      FoundAreDistinct(lines, init);
      FoundTargets(lines, init);
      if TargetOf(lines, p).Some? {
        forall t | t in Collect(init, Targets(lines))
          ensures t != TargetOf(lines, p).value
        {
          var q :| q in init && TargetOf(lines, q) == Some(t);
          OtherTarget(lines, patches, q, p);
        }
      }
    }
  }

  lemma {:induction false} PlannedIsFound(lines: seq<Line>, patches: seq<Patch>, n: nat)
    requires n < |Planned(lines, patches)|
    ensures var t := Planned(lines, patches)[n];
            && t in Collect(patches, Targets(lines)) && t.patch in patches && Fits(lines, t)
               && t.dictStart <= t.call + 1
            && MethodBounds(lines, t.patch.method_) == Some((t.start, t.end))
  {
    var t := Planned(lines, patches)[n];
    assert t in Planned(lines, patches);
    FoundTargets(lines, patches);
    var p :| p in patches && TargetOf(lines, p) == Some(t);
    TargetHasBounds(lines, p);
  }

  /** Sorting by the call line puts methods that lie apart from last to first. */
  lemma {:induction false} PlannedFromLastToFirst(lines: seq<Line>, patches: seq<Patch>)
    requires Apart(lines, patches)
    ensures FromLastToFirst(lines, Planned(lines, patches))
  {
    var found, planned := Collect(patches, Targets(lines)), Planned(lines, patches);
    FoundAreDistinct(lines, patches);
    SortByDistinct(found, FromTheEnd());
    PlannedFromTheEnd(lines, patches);
    forall n | 0 <= n < |planned|
      ensures planned[n].dictStart <= planned[n].call + 1
    {
      PlannedIsFound(lines, patches, n);
    }
    forall i, j | 0 <= i < j < |planned|
      ensures planned[j].end <= planned[i].start
    {
      PlannedIsFound(lines, patches, i);
      PlannedIsFound(lines, patches, j);
      TargetsApart(lines, patches, planned[i], planned[j]);
    }
  }

  // ----- every patch at its original position

  /** The file with every patch applied at its original position. */
  function PatchedAtOnce(content: seq<Line>, patches: seq<Patch>): seq<Line>
    requires AllFit(Prepared(content), Planned(Prepared(content), patches))
  {
    var lines := Prepared(content);
    var planned := Planned(lines, patches);
    if planned == [] then content else AtOnce(lines, EditsOf(lines, planned), 0, |lines|)
  }

  /**
   When the methods lie apart, the patched file is the original with every patch
   at its original position, exactly when no search reads into a later method
   that would change what it finds.
   */
  lemma {:induction false} PatchedIsAtOnceExactly(content: seq<Line>, patches: seq<Patch>)
    requires Apart(Prepared(content), patches)
    ensures var lines := Prepared(content); var planned := Planned(lines, patches);
            && FromLastToFirst(lines, planned)
            && (PatchedFile(content, patches) == PatchedAtOnce(content, patches) <==> AllUndisturbed(lines, planned))
  {
    PlannedFromLastToFirst(Prepared(content), patches);
    InOrderIsAtOnceExactly(Prepared(content), Planned(Prepared(content), patches));
  }

  /** A key of its own, or eight lines of its own, and the search for the indent ends above the later methods. */
  ghost predicate OwnIndent(lines: seq<Line>, t: Target, low: nat)
    requires Fits(lines, t)
  {
    t.dictStart + INDENT_WINDOW <= low
    || exists k :: t.dictStart <= k < low && k < t.dictStart + INDENT_WINDOW && k < |lines| && lines[k].beginsWithKey
  }

  ghost predicate SameKey(a: Line, b: Line) { a.beginsWithKey == b.beginsWithKey && a.indent == b.indent }

  ghost predicate SameKeys(lines: seq<Line>, after: seq<Line>, low: nat) {
    low <= |lines| && low <= |after| && forall k :: 0 <= k < low ==> SameKey(lines[k], after[k])
  }

  lemma {:induction false} IndentSettled(lines: seq<Line>, after: seq<Line>, start: nat, i: nat, k: nat)
    requires start <= i <= k && SameKeys(lines, after, k + 1)
    requires k + 1 >= start + INDENT_WINDOW || lines[k].beginsWithKey
    ensures EntryIndent(after, start, i) == EntryIndent(lines, start, i)
    decreases k - i
  {
    assert SameKey(lines[start], after[start]) && SameKey(lines[i], after[i]);
    if i < k {
      IndentSettled(lines, after, start, i + 1, k);
    }
  }

  lemma {:induction false} LastKept(a: seq<Line>, line: Line, b: seq<Line>, lines: seq<Line>)
    requires |a| < |lines| && a == lines[..|a|] && SameKey(lines[|a|], line)
    ensures SameKeys(lines, a + ([line] + b), |a| + 1)
  {
  }

  lemma {:induction false} JoinedKeys(f: nat -> seq<Line>, lines: seq<Line>, low: nat, line: Line)
    requires 0 < low <= |lines| && f(low - 1) == [line] && SameKey(lines[low - 1], line)
    requires forall i: nat :: i < low - 1 ==> f(i) == [lines[i]]
    ensures SameKeys(lines, Joined(f, 0, |lines|), low)
  {
    JoinedSplit(f, 0, low - 1, |lines|);
    JoinedSplit(f, low - 1, low, |lines|);
    JoinedSlice(f, lines, 0, low - 1);
    JoinedOne(f, low - 1);
    LastKept(lines[..low - 1], line, Joined(f, low, |lines|), lines);
  }

  lemma {:induction false} KeysAbove(lines: seq<Line>, edits: seq<Edit>, low: nat)
    requires FromOn(edits, low) && InsertsFrom(edits, low) && 0 < low <= |lines|
    ensures SameKeys(lines, AtOnce(lines, edits, 0, |lines|), low)
  {
    forall i: nat | i < low - 1
      ensures BlockAt(lines, edits)(i) == [lines[i]]
    {
      BlockUntouched(lines, edits, i);
    }
    CollectEmpty(edits, AboveAt(low - 1));
    JoinedKeys(BlockAt(lines, edits), lines, low, Kept(edits, lines[low - 1], low - 1));
  }

  /** A method whose dictionary closes, and whose indent is settled, above the later ones is not disturbed by them. */
  lemma {:induction false} OwnIndentIsUndisturbed(lines: seq<Line>, rest: seq<Target>, t: Target)
    requires FromLastToFirst(lines, rest + [t]) && AllFit(lines, rest) && Fits(lines, t)
    requires EditOf(lines, t).entryAt.Some? ==>
               EditOf(lines, t).entryAt.value < Low(lines, rest) && OwnIndent(lines, t, Low(lines, rest))
    ensures Undisturbed(lines, rest, t)
  {
    var low := Low(lines, rest);
    RestLiesBelow(lines, rest, t);
    if EditOf(lines, t).entryAt.Some? {
      EditsFrom(lines, rest, low);
      KeysAbove(lines, EditsOf(lines, rest), low);
      var k := if t.dictStart + INDENT_WINDOW <= low then t.dictStart + INDENT_WINDOW - 1
               else var k :| t.dictStart <= k < low && k < t.dictStart + INDENT_WINDOW && lines[k].beginsWithKey; k;
      IndentSettled(lines, AtOnce(lines, EditsOf(lines, rest), 0, |lines|), t.dictStart, t.dictStart, k);
    }
  }

  // ----- a second run

  lemma {:induction false} EntryMovedBack(
      lines: seq<Line>, after: seq<Line>, pos: seq<nat>, low: nat, patches: seq<Patch>, t: Target)
    requires RunState(lines, after, pos, low, patches) && Fits(lines, t) && t.dictStart < low && Fits(after, t)
    requires EditOf(after, t).entryAt.Some?
    ensures EditOf(lines, t).entryAt.Some? && EditOf(lines, t).entryAt.value < |lines| == |pos|
    ensures EditOf(after, t).entryAt == Some(pos[EditOf(lines, t).entryAt.value]) && Ascends(pos, |after|)
  {
    SameCalls(lines, after, pos, low, patches, t);
    EntryWasDue(lines, after, pos, patches, t);
    EditStands(lines, t);
  }

  lemma {:induction false} CommaAbove(pos: seq<nat>, end: nat, c: nat, i: nat)
    requires Ascends(pos, end) && c < |pos| && i < |pos| && pos[i] + 1 == pos[c]
    ensures i + 1 == c
  {
    if i <= c {
      GapsGrow(pos, end, i, c);
    } else {
      InOrderOf(pos, end, c, i);
    }
  }

  lemma {:induction false} CommaOf(lines: seq<Line>, after: seq<Line>, t: Target, c: nat, moved: nat, i: nat)
    requires Fits(lines, t) && Fits(after, t) && EditOf(lines, t).entryAt == Some(c) && i + 1 == c
    requires 0 < moved <= |after| && EditOf(after, t).comma == Some(moved - 1) && UpToComma(lines[i], after[moved - 1])
    ensures EditOf(lines, t).comma == Some(i)
  {
    assert WantsComma(after[moved - 1]);
  }

  lemma {:induction false} CommaMovedBack(
      lines: seq<Line>, after: seq<Line>, pos: seq<nat>, t: Target, c: nat, i: nat)
    requires Ascends(pos, |after|) && Fits(lines, t) && Fits(after, t) && c < |pos| == |lines| && i < |pos|
    requires EditOf(lines, t).entryAt == Some(c) && EditOf(after, t).entryAt == Some(pos[c])
    requires EditOf(after, t).comma == Some(pos[i]) && UpToComma(lines[i], after[pos[i]])
    ensures EditOf(lines, t).comma == Some(i)
  {
    CommaAbove(pos, |after|, c, i);
    CommaOf(lines, after, t, c, pos[c], i);
  }

  /** A comma the run puts behind an original line would go there on the original lines. */
  lemma {:induction false} CommaWasDue(
      lines: seq<Line>, after: seq<Line>, pos: seq<nat>, low: nat, patches: seq<Patch>, t: Target, i: nat)
    requires RunState(lines, after, pos, low, patches) && Fits(lines, t) && t.dictStart < low && Fits(after, t)
    requires i < |lines| && EditOf(after, t).comma == Some(pos[i])
    ensures EditOf(lines, t).comma == Some(i)
  {
    EntryMovedBack(lines, after, pos, low, patches, t);
    LineKept(lines, after, pos, patches, i);
    CommaMovedBack(lines, after, pos, t, EditOf(lines, t).entryAt.value, i);
  }

  lemma {:induction false} LineAfterStep(lines: seq<Line>, pos: seq<nat>, t: Target, i: nat)
    requires Fits(lines, t) && i < |pos| && pos[i] < |lines|
    ensures |Stepped(lines, pos, t)| == |pos| && Stepped(lines, pos, t)[i] < |ApplyTarget(lines, t)|
    ensures ApplyTarget(lines, t)[Stepped(lines, pos, t)[i]] == Commaed(lines, EditOf(lines, t))[pos[i]]
  {
    var e := EditOf(lines, t);
    EditStands(lines, t);
    if e.entryAt.Some? {
      InsertedOld(Commaed(lines, e), e.entryAt.value, [e.entry], pos[i]);
    }
    InsertedOld(WithEntry(lines, e), e.call, e.callLines, AfterEntry(pos, e)[i]);
  }

  /** Every line that gained a comma would have gained it on the original lines. */
  ghost predicate CommasWereDue(lines: seq<Line>, after: seq<Line>, pos: seq<nat>, edits: seq<Edit>) {
    forall i :: 0 <= i < |lines| && i < |pos| && pos[i] < |after| && after[pos[i]] != lines[i] ==> Commas(edits, i)
  }

  ghost predicate CommaDue(lines: seq<Line>, after: seq<Line>, pos: seq<nat>, t: Target, i: nat)
    requires Fits(lines, t) && Fits(after, t)
  {
    i < |pos| && EditOf(after, t).comma == Some(pos[i]) ==> EditOf(lines, t).comma == Some(i)
  }

  lemma {:induction false} CommasMore(edits: seq<Edit>, e: Edit, i: nat)
    requires Commas(edits, i) || e.comma == Some(i)
    ensures Commas(edits + [e], i)
  {
    if e.comma == Some(i) {
      assert e in edits + [e];
    } else {
      var d :| d in edits && d.comma == Some(i);
      assert d in edits + [e];
    }
  }

  lemma {:induction false} CommasAddUp(
      lines: seq<Line>, after: seq<Line>, pos: seq<nat>, edits: seq<Edit>, t: Target)
    requires |pos| == |lines| && Ascends(pos, |after|) && CommasWereDue(lines, after, pos, edits)
    requires Fits(lines, t) && Fits(after, t) && forall i :: 0 <= i < |lines| ==> CommaDue(lines, after, pos, t, i)
    ensures CommasWereDue(lines, ApplyTarget(after, t), Stepped(after, pos, t), edits + [EditOf(lines, t)])
  {
    var later, moved := ApplyTarget(after, t), Stepped(after, pos, t);
    forall i: nat | i < |lines| && i < |moved| && moved[i] < |later| && later[moved[i]] != lines[i]
      ensures Commas(edits + [EditOf(lines, t)], i)
    {
      LineAfterStep(after, pos, t, i);
      assert CommaDue(lines, after, pos, t, i);
      CommasMore(edits, EditOf(lines, t), i);
    }
  }

  lemma {:induction false} StepCommas(
      lines: seq<Line>, after: seq<Line>, pos: seq<nat>, low: nat, patches: seq<Patch>, edits: seq<Edit>, t: Target)
    requires RunState(lines, after, pos, low, patches) && CommasWereDue(lines, after, pos, edits)
    requires Fits(lines, t) && t.dictStart < low && Fits(after, t)
    ensures CommasWereDue(lines, ApplyTarget(after, t), Stepped(after, pos, t), edits + [EditOf(lines, t)])
  {
    forall i | 0 <= i < |lines|
      ensures CommaDue(lines, after, pos, t, i)
    {
      if EditOf(after, t).comma == Some(pos[i]) {
        CommaWasDue(lines, after, pos, low, patches, t, i);
      }
    }
    CommasAddUp(lines, after, pos, edits, t);
  }

  lemma {:induction false} RunCommas(lines: seq<Line>, targets: seq<Target>, patches: seq<Patch>)
    requires FromLastToFirst(lines, targets) && FromPatches(targets, patches)
    ensures CommasWereDue(lines, ApplyInOrder(lines, targets), Placed(lines, targets), EditsOf(lines, targets))
    decreases |targets|
  {
    if targets != [] {
      var rest, t := targets[..|targets| - 1], targets[|targets| - 1];
      InitLast(targets);
      RestLiesBelow(lines, rest, t);
      RunCommas(lines, rest, patches);
      RunStates(lines, rest, patches);
      FitsLonger(lines, ApplyInOrder(lines, rest), t);
      StepCommas(lines, ApplyInOrder(lines, rest), Placed(lines, rest), Low(lines, rest), patches,
                 EditsOf(lines, rest), t);
    }
  }

  /** On the original lines the entry of `t` puts a comma behind a bare return below its method. */
  predicate RunsOverReturn(lines: seq<Line>, t: Target) {
    && Fits(lines, t) && EditOf(lines, t).comma.Some? && t.end <= EditOf(lines, t).comma.value
    && lines[EditOf(lines, t).comma.value].head == Return(ReturnBare)
  }

  lemma {:induction false} EditAmong(lines: seq<Line>, targets: seq<Target>, e: Edit)
    requires AllFit(lines, targets) && e in EditsOf(lines, targets)
    ensures exists n :: 0 <= n < |targets| && EditOf(lines, targets[n]) == e
    decreases |targets|
  {
    var rest, t := targets[..|targets| - 1], targets[|targets| - 1];
    if e in EditsOf(lines, rest) {
      EditAmong(lines, rest, e);
      var n :| 0 <= n < |rest| && EditOf(lines, rest[n]) == e;
      assert targets[n] == rest[n];
    } else {
      assert e == EditOf(lines, t);
    }
  }

  /** The comma that spoils a method belongs to a dictionary of another one, opened above it. */
  lemma {:induction false} SpoiledFromAbove(lines: seq<Line>, patches: seq<Patch>, p: Patch, t: Target, r: nat)
    requires Apart(lines, patches) && p in patches && t.patch in patches && Fits(lines, t)
    requires MethodBounds(lines, t.patch.method_) == Some((t.start, t.end)) && MethodBounds(lines, p.method_).Some?
    requires var bounds := MethodBounds(lines, p.method_).value;
             bounds.0 < r < bounds.1 && !(bounds.0 < t.call <= bounds.1)
    requires EditOf(lines, t).comma == Some(r)
    ensures t.end <= r
  {
    EditStands(lines, t);
    if t.patch != p {
      PatchesApart(lines, patches, t.patch, p);
    }
  }

  lemma {:induction false} TargetWithComma(lines: seq<Line>, targets: seq<Target>, r: nat) returns (n: nat)
    requires AllFit(lines, targets) && Commas(EditsOf(lines, targets), r)
    ensures n < |targets| && EditOf(lines, targets[n]).comma == Some(r)
  {
    var edit :| edit in EditsOf(lines, targets) && edit.comma == Some(r);
    EditAmong(lines, targets, edit);
    n :| 0 <= n < |targets| && EditOf(lines, targets[n]) == edit;
  }

  lemma {:induction false} CommaFromAbove(
      lines: seq<Line>, patches: seq<Patch>, targets: seq<Target>, p: Patch, s: nat, e: nat, r: nat)
    requires Apart(lines, patches) && p in patches && MethodBounds(lines, p.method_) == Some((s, e))
    requires targets == Planned(lines, patches) && AllFit(lines, targets) && !CallGoesIn(targets, s, e)
    requires s < r < e <= |lines| && lines[r].head == Return(ReturnBare) && Commas(EditsOf(lines, targets), r)
    ensures exists n :: 0 <= n < |targets| && RunsOverReturn(lines, targets[n])
  {
    var n := TargetWithComma(lines, targets, r);
    PlannedIsFound(lines, patches, n);
    SpoiledFromAbove(lines, patches, p, targets[n], r);
    assert RunsOverReturn(lines, targets[n]);
  }

  lemma {:induction false} LostToADueComma(
      lines: seq<Line>, after: seq<Line>, pos: seq<nat>, edits: seq<Edit>, r: nat)
    requires r < |lines| == |pos| && Ascends(pos, |after|) && LostReturn(lines, after, pos, r)
    requires CommasWereDue(lines, after, pos, edits)
    ensures Commas(edits, r) && lines[r].head == Return(ReturnBare)
  {
  }

  lemma {:induction false} PlannedCommas(lines: seq<Line>, patches: seq<Patch>)
    requires Apart(lines, patches)
    ensures var planned := Planned(lines, patches);
            && AllFit(lines, planned)
            && CommasWereDue(lines, ApplyInOrder(lines, planned), Placed(lines, planned), EditsOf(lines, planned))
  {
    PlannedFromLastToFirst(lines, patches);
    PlannedFromPatches(lines, patches);
    RunCommas(lines, Planned(lines, patches), patches);
  }

  /** When the methods lie apart, only a dictionary that runs over a return below its method can spoil one. */
  lemma {:induction false} SpoiledByRunningOn(content: seq<Line>, patches: seq<Patch>, p: Patch)
    requires Apart(Prepared(content), patches) && p in patches && ReopenedBy(content, patches, p)
    ensures var lines := Prepared(content); var planned := Planned(lines, patches);
            exists n :: 0 <= n < |planned| && RunsOverReturn(lines, planned[n])
  {
    var lines := Prepared(content);
    var planned := Planned(lines, patches);
    SpoiledByAComma(content, patches, p);
    PlannedCommas(lines, patches);
    var after, pos, bounds := ApplyInOrder(lines, planned), Placed(lines, planned),
                              MethodBounds(lines, p.method_).value;
    var r :| bounds.0 < r < bounds.1 && LostReturn(lines, after, pos, r);
    LostToADueComma(lines, after, pos, EditsOf(lines, planned), r);
    CommaFromAbove(lines, patches, planned, p, bounds.0, bounds.1, r);
  }

  /** When the methods lie apart and no dictionary runs over a return below its method, a second run changes nothing. */
  lemma {:induction false} SecondRunChangesNothing(content: seq<Line>, patches: seq<Patch>)
    requires Apart(Prepared(content), patches)
    requires forall n :: 0 <= n < |Planned(Prepared(content), patches)| ==>
               !RunsOverReturn(Prepared(content), Planned(Prepared(content), patches)[n])
    ensures PatchedFile(PatchedFile(content, patches), patches) == PatchedFile(content, patches)
  {
    SecondRunExactly(content, patches);
    forall p | p in patches
      ensures !ReopenedBy(content, patches, p)
    {
      if ReopenedBy(content, patches, p) {
        SpoiledByRunningOn(content, patches, p);
      }
    }
  }

  // ----- a search that reads on

  /** A one-line dictionary, and right below it a method that gets an entry of its own. */
  function TwoMethods(): seq<Line> {
    [ImportLine(),
     PlainLine(4, Def).(defines := Some("a")),
     PlainLine(8, Return(ReturnDict)),
     PlainLine(0, Def).(defines := Some("b")),
     PlainLine(4, Return(ReturnDict)).(braces := 1),
     PlainLine(8, Other),
     PlainLine(4, Other).(braces := -1)]
  }

  function TwoPatches(): seq<Patch> { [Patch("b", "", None, None), Patch("a", "", None, None)] }

  function TwoTargets(): seq<Target> {
    [Target(3, 7, 4, 4, TwoPatches()[0]), Target(1, 3, 2, 2, TwoPatches()[1])]
  }

  lemma {:induction false} TwoBounds()
    ensures MethodBounds(TwoMethods(), "a") == Some((1, 3)) && MethodBounds(TwoMethods(), "b") == Some((3, 7))
  {
    var lines := TwoMethods();
    assert First(lines, 1, Defines("a")) == 1 && First(lines, 0, Defines("a")) == 1;
    assert First(lines, 3, EndsMethod(4)) == 3 && First(lines, 2, EndsMethod(4)) == 3;
    assert First(lines, 3, Defines("b")) == 3 && First(lines, 2, Defines("b")) == 3;
    assert First(lines, 1, Defines("b")) == 3 && First(lines, 0, Defines("b")) == 3;
    assert First(lines, 7, EndsMethod(0)) == 7 && First(lines, 6, EndsMethod(0)) == 7;
    assert First(lines, 5, EndsMethod(0)) == 7 && First(lines, 4, EndsMethod(0)) == 7;
  }

  lemma {:induction false} TwoFound()
    ensures TargetOf(TwoMethods(), TwoPatches()[0]) == Some(TwoTargets()[0])
    ensures TargetOf(TwoMethods(), TwoPatches()[1]) == Some(TwoTargets()[1])
  {
    var lines := TwoMethods();
    TwoBounds();
    forall k | 0 <= k < 7
      ensures !lines[k].callsBuilder
    {
    }
    SkipTo(lines, 3, 7, CallsBuilder());
    SkipTo(lines, 1, 7, CallsBuilder());
    LastReturnAt(lines, 1, 3, 2);
    LastReturnAt(lines, 3, 7, 4);
  }

  lemma {:induction false} TwoPlanned()
    ensures Planned(TwoMethods(), TwoPatches()) == TwoTargets()
  {
    var lines, patches := TwoMethods(), TwoPatches();
    TwoFound();
    assert patches[..1] == [patches[0]] && patches[..1][..0] == [];
    assert Collect(patches[..1], Targets(lines)) == [TwoTargets()[0]];
    assert Collect(patches, Targets(lines)) == TwoTargets();
    SortBySame(TwoTargets(), FromTheEnd());
  }

  lemma {:induction false} TwoEdits()
    ensures EditOf(TwoMethods(), TwoTargets()[0]) ==
            Edit(4, CallLines(TwoPatches()[0], 4), Some(6), EntryLine(8), Some(5))
    ensures EditOf(TwoMethods(), TwoTargets()[1]).entryAt == Some(2)
  {
    var lines := TwoMethods();
    assert Closing(lines, 4, 6, 1) == Some(6) && Closing(lines, 4, 5, 1) == Some(6)
           && Closing(lines, 4, 4, 0) == Some(6);
    assert !Mentioned(lines, 4, 6, 1) && !Mentioned(lines, 4, 5, 1) && !Mentioned(lines, 4, 4, 0);
    assert EntryIndent(lines, 4, 7) == 8 && EntryIndent(lines, 4, 6) == 8 && EntryIndent(lines, 4, 5) == 8;
    assert Closing(lines, 2, 2, 0) == Some(2) && !Mentioned(lines, 2, 2, 0);
  }

  lemma {:induction false} FirstIndent()
    ensures EntryIndent(TwoMethods(), 2, 2) == 12
  {
    var lines := TwoMethods();
    assert EntryIndent(lines, 2, 7) == 12 && EntryIndent(lines, 2, 6) == 12 && EntryIndent(lines, 2, 5) == 12;
    assert EntryIndent(lines, 2, 4) == 12 && EntryIndent(lines, 2, 3) == 12;
  }

  lemma {:induction false} IndentReadOn(after: seq<Line>)
    requires after == ApplyEdit(TwoMethods(), Edit(4, CallLines(TwoPatches()[0], 4), Some(6), EntryLine(8), Some(5)))
    ensures |after| == 9 && EntryIndent(after, 2, 2) == 8
  {
    var lines, calls := TwoMethods(), CallLines(TwoPatches()[0], 4);
    assert after == lines[..4] + calls + [lines[4], WithComma(lines[5]), EntryLine(8), lines[6]];
    assert EntryIndent(after, 2, 7) == 8 && EntryIndent(after, 2, 6) == 8 && EntryIndent(after, 2, 5) == 8;
    assert EntryIndent(after, 2, 4) == 8 && EntryIndent(after, 2, 3) == 8;
  }

  lemma {:induction false} OneAtOnce(lines: seq<Line>, t: Target)
    requires Fits(lines, t)
    ensures AllFit(lines, [t]) && AtOnce(lines, EditsOf(lines, [t]), 0, |lines|) == ApplyEdit(lines, EditOf(lines, t))
  {
    assert [t][..0] == [] && EditsOf(lines, []) == [];
    assert EditsOf(lines, [t]) == [EditOf(lines, t)];
    EditStands(lines, t);
    EditInPlace(lines, EditOf(lines, t));
  }

  lemma {:induction false} IndentDisturbed(lines: seq<Line>, u: Target, t: Target)
    requires Fits(lines, u) && Fits(lines, t) && EditOf(lines, t).entryAt.Some?
    requires var after := ApplyEdit(lines, EditOf(lines, u));
             t.dictStart < |after|
             && EntryIndent(after, t.dictStart, t.dictStart) != EntryIndent(lines, t.dictStart, t.dictStart)
    ensures AllFit(lines, [u, t]) && !AllUndisturbed(lines, [u, t])
  {
    OneAtOnce(lines, u);
    assert [u, t][..1] == [u];
    assert !Undisturbed(lines, [u], t);
  }

  lemma {:induction false} TwoDisturbed()
    ensures AllFit(TwoMethods(), TwoTargets()) && !AllUndisturbed(TwoMethods(), TwoTargets())
  {
    TwoEdits();
    FirstIndent();
    IndentReadOn(ApplyEdit(TwoMethods(), EditOf(TwoMethods(), TwoTargets()[0])));
    IndentDisturbed(TwoMethods(), TwoTargets()[0], TwoTargets()[1]);
  }

  lemma {:induction false} TwoAreApart()
    ensures Prepared(TwoMethods()) == TwoMethods() && Apart(TwoMethods(), TwoPatches())
  {
    assert TwoMethods()[0] in TwoMethods() && TwoMethods()[0].isImportLine;
    TwoBounds();
  }

  /**
   Here the methods lie apart, yet the search for the first one's indent reads on
   to the entry that the second one has just been given.
   */
  lemma {:induction false} SearchReadsOn()
    ensures Prepared(TwoMethods()) == TwoMethods() && Apart(TwoMethods(), TwoPatches())
    ensures AllFit(TwoMethods(), Planned(TwoMethods(), TwoPatches()))
    ensures PatchedFile(TwoMethods(), TwoPatches()) != PatchedAtOnce(TwoMethods(), TwoPatches())
  {
    TwoAreApart();
    TwoPlanned();
    TwoDisturbed();
    PatchedIsAtOnceExactly(TwoMethods(), TwoPatches());
  }
}
