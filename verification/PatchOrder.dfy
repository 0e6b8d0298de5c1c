/**
 The run of the source patcher goes from the last method to the first, on lines it
 has already edited (scripts/add_active_filters.py). When is that the same as
 applying every patch at its original position?
 */
module PatchOrder {
  import opened Collections
  import opened FilterPatcher
  import opened GrownLines
  import opened PatchedLines

  // ----- scanning a grown file

  lemma {:induction false} ClosingSkips(lines: seq<Line>, start: nat, a: nat, b: nat, depth: int)
    requires start <= a <= b <= |lines| && depth > 0 && forall k :: a <= k < b ==> lines[k].braces == 0
    ensures Closing(lines, start, a, depth) == Closing(lines, start, b, depth)
    ensures Mentioned(lines, start, b, depth) ==> Mentioned(lines, start, a, depth)
    decreases b - a
  {
    if a < b && a < start + WINDOW {
      ClosingSkips(lines, start, a + 1, b, depth);
    }
  }

  lemma {:induction false} GapIsFlat(
      lines: seq<Line>, after: seq<Line>, pos: seq<nat>, patches: seq<Patch>, i: nat, k: nat)
    requires Grown(lines, after, pos, patches) && i < |lines| && pos[i] < k < Moved(after, pos, i + 1)
    ensures k < |after| && after[k].braces == 0
  {
    GapIsFree(pos, |after|, i + 1, k);
    AddedIsNeutral(after[k], patches);
  }

  lemma {:induction false} ScanGap(
      lines: seq<Line>, after: seq<Line>, pos: seq<nat>, patches: seq<Patch>, start: nat, i: nat, depth: int)
    requires Grown(lines, after, pos, patches) && i < |lines| && start <= pos[i] && depth > 0
    ensures pos[i] + 1 <= Moved(after, pos, i + 1) <= |after|
    ensures Closing(after, start, pos[i] + 1, depth) == Closing(after, start, Moved(after, pos, i + 1), depth)
    ensures Mentioned(after, start, Moved(after, pos, i + 1), depth) ==> Mentioned(after, start, pos[i] + 1, depth)
  {
    forall k | pos[i] + 1 <= k < Moved(after, pos, i + 1)
      ensures after[k].braces == 0
    {
      GapIsFlat(lines, after, pos, patches, i, k);
    }
    ClosingSkips(after, start, pos[i] + 1, Moved(after, pos, i + 1), depth);
  }

  lemma {:induction false} NextLine(
      lines: seq<Line>, after: seq<Line>, pos: seq<nat>, patches: seq<Patch>, start: nat, i: nat, depth: int)
    requires Grown(lines, after, pos, patches) && start <= i < |lines| && pos[start] == start && depth > 0
    requires Closing(after, start, pos[i] + 1, depth).Some?
    ensures i + 1 < |lines| && Closing(after, start, pos[i + 1], depth) == Closing(after, start, pos[i] + 1, depth)
    ensures Mentioned(after, start, pos[i + 1], depth) ==> Mentioned(after, start, pos[i] + 1, depth)
  {
    GapsGrow(pos, |after|, start, i);
    ScanGap(lines, after, pos, patches, start, i, depth);
  }

  /** A closing brace found on the grown lines is one of the original lines, and found there too. */
  ghost predicate ScannedAlike(
      lines: seq<Line>, after: seq<Line>, pos: seq<nat>, start: nat, i: nat, depth: int)
    requires i < |lines| == |pos|
  {
    && Closing(lines, start, i, depth).Some?
    && Closing(after, start, pos[i], depth) == Some(pos[Closing(lines, start, i, depth).value])
    && (Mentioned(lines, start, i, depth) ==> Mentioned(after, start, pos[i], depth))
  }

  lemma {:induction false} ScansBack(
      lines: seq<Line>, after: seq<Line>, pos: seq<nat>, start: nat, i: nat, depth: int)
    requires |lines| == |pos| && i + 1 < |lines| && pos[i] < |after| && UpToComma(lines[i], after[pos[i]])
    requires start <= i && Closing(after, start, pos[i], depth).Some? && pos[i] >= i
    requires depth + lines[i].braces > 0
    requires ScannedAlike(lines, after, pos, start, i + 1, depth + lines[i].braces)
    requires var deeper := depth + lines[i].braces;
             && Closing(after, start, pos[i + 1], deeper) == Closing(after, start, pos[i] + 1, deeper)
             && (Mentioned(after, start, pos[i + 1], deeper) ==> Mentioned(after, start, pos[i] + 1, deeper))
    ensures ScannedAlike(lines, after, pos, start, i, depth)
  {
  }

  lemma {:induction false} ScansHere(
      lines: seq<Line>, after: seq<Line>, pos: seq<nat>, start: nat, i: nat, depth: int)
    requires |lines| == |pos| && i < |lines| && pos[i] < |after| && UpToComma(lines[i], after[pos[i]])
    requires start <= i <= pos[i] && Closing(after, start, pos[i], depth).Some? && depth + lines[i].braces <= 0
    ensures ScannedAlike(lines, after, pos, start, i, depth)
  {
  }

  lemma {:induction false} ScanAt(
      lines: seq<Line>, after: seq<Line>, pos: seq<nat>, patches: seq<Patch>, start: nat, i: nat, depth: int)
    requires Grown(lines, after, pos, patches) && start <= i < |lines| && pos[start] == start
    requires Closing(after, start, pos[i], depth).Some?
    ensures ScannedAlike(lines, after, pos, start, i, depth)
    decreases |lines| - i
  {
    LineKept(lines, after, pos, patches, i);
    GapsGrow(pos, |after|, start, i);
    var deeper := depth + lines[i].braces;
    if deeper > 0 {
      NextLine(lines, after, pos, patches, start, i, deeper);
      ScanAt(lines, after, pos, patches, start, i + 1, deeper);
      ScansBack(lines, after, pos, start, i, depth);
    } else {
      ScansHere(lines, after, pos, start, i, depth);
    }
  }

  /** An entry added to the grown lines would be added to the original ones, above the same line. */
  lemma {:induction false} EntryWasDue(
      lines: seq<Line>, after: seq<Line>, pos: seq<nat>, patches: seq<Patch>, t: Target)
    requires Grown(lines, after, pos, patches) && Fits(lines, t) && Fits(after, t) && pos[t.dictStart] == t.dictStart
    requires EditOf(after, t).entryAt.Some?
    ensures EditOf(lines, t).entryAt.Some?
    ensures EditOf(after, t).entryAt.value == pos[EditOf(lines, t).entryAt.value]
  {
    ScanAt(lines, after, pos, patches, t.dictStart, t.dictStart, 0);
  }

  /** Lines that agree up to the closing one close in the same place. */
  lemma {:induction false} SameScan(lines: seq<Line>, after: seq<Line>, start: nat, i: nat, depth: int)
    requires Closing(lines, start, i, depth).Some? && Closing(lines, start, i, depth).value < |after|
    requires forall k :: i <= k <= Closing(lines, start, i, depth).value ==> UpToComma(lines[k], after[k])
    ensures Closing(after, start, i, depth) == Closing(lines, start, i, depth)
    ensures Mentioned(after, start, i, depth) == Mentioned(lines, start, i, depth)
    decreases start + WINDOW - i
  {
    if depth + lines[i].braces > 0 {
      SameScan(lines, after, start, i + 1, depth + lines[i].braces);
    }
  }

  /** A scan that begins further down, with less open, ends no later. */
  lemma {:induction false} NestedScan(
      lines: seq<Line>, outer: nat, inner: nat, i: nat, more: int, less: int)
    requires outer <= inner <= i && less <= more && Closing(lines, outer, i, more).Some?
    ensures Closing(lines, inner, i, less).Some?
    ensures Closing(lines, inner, i, less).value <= Closing(lines, outer, i, more).value
    ensures Mentioned(lines, inner, i, less) ==> Mentioned(lines, outer, i, more)
    decreases outer + WINDOW - i
  {
    if less + lines[i].braces > 0 {
      NestedScan(lines, outer, inner, i + 1, more + lines[i].braces, less + lines[i].braces);
    }
  }

  /** The scan reaches every line before the closing one. */
  lemma {:induction false} ScanReaches(lines: seq<Line>, start: nat, i: nat, depth: int, j: nat)
    returns (at: int)
    requires start <= i <= j && Closing(lines, start, i, depth).Some? && j <= Closing(lines, start, i, depth).value
    ensures Closing(lines, start, j, at) == Closing(lines, start, i, depth)
    ensures Mentioned(lines, start, j, at) ==> Mentioned(lines, start, i, depth)
    ensures i < j ==> at > 0
    ensures i == j ==> at == depth
    decreases j - i
  {
    if i == j {
      at := depth;
    } else {
      at := ScanReaches(lines, start, i + 1, depth + lines[i].braces, j);
    }
  }

  // ----- methods that lie apart

  /**
   From the last method to the first, none reaching into another; a dictionary opens at
   the call or right below it.
   */
  ghost predicate FromLastToFirst(lines: seq<Line>, targets: seq<Target>) {
    && AllFit(lines, targets)
    && (forall n :: 0 <= n < |targets| ==> targets[n].dictStart <= targets[n].call + 1)
    && (forall i, j :: 0 <= i < j < |targets| ==> targets[j].end <= targets[i].start)
  }

  function EditsOf(lines: seq<Line>, targets: seq<Target>): seq<Edit>
    requires AllFit(lines, targets)
  {
    if targets == [] then []
    else EditsOf(lines, targets[..|targets| - 1]) + [EditOf(lines, targets[|targets| - 1])]
  }

  lemma {:induction false} EditStands(lines: seq<Line>, t: Target)
    requires Fits(lines, t)
    ensures Within(EditOf(lines, t), 0, |lines|) && EditOf(lines, t).call == t.call
    ensures EditOf(lines, t).entryAt.Some? ==> t.dictStart <= EditOf(lines, t).entryAt.value
  {
  }

  lemma {:induction false} EditsFrom(lines: seq<Line>, targets: seq<Target>, low: nat)
    requires AllFit(lines, targets) && forall n :: 0 <= n < |targets| ==> low <= targets[n].call
    ensures FromOn(EditsOf(lines, targets), low) && InsertsFrom(EditsOf(lines, targets), low)
  {
    if targets != [] {
      EditsFrom(lines, targets[..|targets| - 1], low);
      EditStands(lines, targets[|targets| - 1]);
    }
  }

  /** All of `rest` lies below `t`. */
  lemma {:induction false} RestLiesBelow(lines: seq<Line>, rest: seq<Target>, t: Target)
    requires FromLastToFirst(lines, rest + [t])
    ensures FromLastToFirst(lines, rest) && Fits(lines, t) && t.dictStart <= t.call + 1
    ensures t.end <= |lines| && t.dictStart < Low(lines, rest) <= |lines|
    ensures forall n :: 0 <= n < |rest| ==> t.end <= rest[n].start && Low(lines, rest) <= rest[n].call
  {
    assert forall n :: 0 <= n < |rest| ==> (rest + [t])[n] == rest[n];
    assert (rest + [t])[|rest|] == t;
    assert forall n :: 0 <= n < |rest| - 1 ==> rest[|rest| - 1].end <= rest[n].start;
  }

  // ----- the lines a run has not come to yet

  ghost predicate NotReached(lines: seq<Line>, after: seq<Line>, pos: seq<nat>, low: nat) {
    && |pos| == |lines| && low <= |lines| && low <= |after| && StillAbove(pos, low)
    && forall i :: 0 <= i && i + 1 < low ==> after[i] == lines[i]
  }

  lemma {:induction false} EntryNotReached(
      lines: seq<Line>, after: seq<Line>, pos: seq<nat>, e: Edit, low: nat, next: nat)
    requires NotReached(lines, after, pos, low) && next <= low && next <= |after|
    requires e.entryAt.Some? ==> next <= e.entryAt.value <= |after|
    requires e.comma.Some? ==> next <= e.comma.value + 1 && e.comma.value < |after|
    ensures NotReached(lines, WithEntry(after, e), AfterEntry(pos, e), next)
  {
  }

  lemma {:induction false} StepNotReached(lines: seq<Line>, after: seq<Line>, pos: seq<nat>, t: Target, low: nat)
    requires NotReached(lines, after, pos, low) && Fits(after, t) && t.call <= low
    ensures NotReached(lines, ApplyTarget(after, t), Stepped(after, pos, t), t.call)
  {
    var e := EditOf(after, t);
    EditStands(after, t);
    EntryNotReached(lines, after, pos, e, low, t.call);
  }

  lemma {:induction false} FitsLonger(lines: seq<Line>, after: seq<Line>, t: Target)
    requires Fits(lines, t) && |lines| <= |after|
    ensures Fits(after, t)
  {
  }

  function PatchesOf(targets: seq<Target>): seq<Patch> {
    seq(|targets|, (n: nat) requires n < |targets| => targets[n].patch)
  }

  /** What is known of the lines a run has left so far. */
  ghost predicate RunState(
      lines: seq<Line>, after: seq<Line>, pos: seq<nat>, low: nat, patches: seq<Patch>)
  {
    Grown(lines, after, pos, patches) && |lines| <= |after| && NotReached(lines, after, pos, low)
  }

  lemma {:induction false} NothingReached(lines: seq<Line>)
    ensures NotReached(lines, lines, Standing(|lines|), |lines|)
  {
  }

  lemma {:induction false} EditNeverShortens(lines: seq<Line>, t: Target)
    requires Fits(lines, t)
    ensures |ApplyTarget(lines, t)| >= |lines|
  {
  }

  lemma {:induction false} RunNotReached(lines: seq<Line>, targets: seq<Target>)
    requires FromLastToFirst(lines, targets)
    ensures |lines| <= |ApplyInOrder(lines, targets)|
    ensures NotReached(lines, ApplyInOrder(lines, targets), Placed(lines, targets), Low(lines, targets))
    decreases |targets|
  {
    if targets == [] {
      NothingReached(lines);
    } else {
      var rest, t := targets[..|targets| - 1], targets[|targets| - 1];
      InitLast(targets);
      RestLiesBelow(lines, rest, t);
      RunNotReached(lines, rest);
      FitsLonger(lines, ApplyInOrder(lines, rest), t);
      EditNeverShortens(ApplyInOrder(lines, rest), t);
      StepNotReached(lines, ApplyInOrder(lines, rest), Placed(lines, rest), t, Low(lines, rest));
    }
  }

  lemma {:induction false} RunStates(lines: seq<Line>, targets: seq<Target>, patches: seq<Patch>)
    requires FromLastToFirst(lines, targets) && FromPatches(targets, patches)
    ensures RunState(lines, ApplyInOrder(lines, targets), Placed(lines, targets), Low(lines, targets), patches)
  {
    RunGrows(lines, targets, patches);
    RunNotReached(lines, targets);
  }

  // ----- one step forward

  /** What a step finds on the lines the later methods have left is what it finds on the original ones. */
  ghost predicate Undisturbed(lines: seq<Line>, later: seq<Target>, t: Target)
    requires AllFit(lines, later) && Fits(lines, t)
  {
    var e := EditOf(lines, t);
    e.entryAt.None?
    || ((forall n :: 0 <= n < |later| ==> e.entryAt.value < later[n].call)
        && var after := AtOnce(lines, EditsOf(lines, later), 0, |lines|);
           t.dictStart < |after|
           && EntryIndent(after, t.dictStart, t.dictStart) == EntryIndent(lines, t.dictStart, t.dictStart))
  }

  lemma {:induction false} SameCalls(
      lines: seq<Line>, after: seq<Line>, pos: seq<nat>, low: nat, patches: seq<Patch>, t: Target)
    requires RunState(lines, after, pos, low, patches) && Fits(lines, t) && t.dictStart < low
    ensures Fits(after, t) && EditOf(after, t).callLines == EditOf(lines, t).callLines
    ensures pos[t.dictStart] == t.dictStart
  {
    LineKept(lines, after, pos, patches, t.call);
  }

  ghost predicate AlikeUpTo(lines: seq<Line>, after: seq<Line>, a: nat, c: nat) {
    c < |lines| && c < |after| && forall k :: a <= k <= c ==> UpToComma(lines[k], after[k])
  }

  lemma {:induction false} SameEntry(lines: seq<Line>, after: seq<Line>, t: Target)
    requires Fits(lines, t) && Fits(after, t) && EditOf(lines, t).entryAt.Some?
    requires AlikeUpTo(lines, after, t.dictStart, EditOf(lines, t).entryAt.value)
    ensures EditOf(after, t).entryAt == EditOf(lines, t).entryAt
  {
    SameScan(lines, after, t.dictStart, t.dictStart, 0);
  }

  lemma {:induction false} AlikeAbove(
      lines: seq<Line>, after: seq<Line>, pos: seq<nat>, low: nat, patches: seq<Patch>, a: nat, c: nat)
    requires RunState(lines, after, pos, low, patches) && c < low
    ensures AlikeUpTo(lines, after, a, c)
  {
    forall k | a <= k <= c
      ensures UpToComma(lines[k], after[k])
    {
      LineKept(lines, after, pos, patches, k);
    }
  }

  lemma {:induction false} SameComma(lines: seq<Line>, after: seq<Line>, t: Target, c: nat)
    requires Fits(lines, t) && Fits(after, t) && EditOf(lines, t).entryAt == Some(c)
             && EditOf(after, t).entryAt == Some(c)
    requires lines[c - 1] == after[c - 1]
    ensures EditOf(after, t).comma == EditOf(lines, t).comma
  {
  }

  /** A step whose dictionary closes above the lines already edited. */
  lemma {:induction false} ClosesAbove(
      lines: seq<Line>, after: seq<Line>, pos: seq<nat>, low: nat, patches: seq<Patch>, t: Target)
    requires RunState(lines, after, pos, low, patches) && Fits(lines, t) && t.dictStart < low && Fits(after, t)
    requires EditOf(lines, t).entryAt.Some? && EditOf(lines, t).entryAt.value < low
    ensures EditOf(after, t).entryAt == EditOf(lines, t).entryAt && EditOf(after, t).comma == EditOf(lines, t).comma
  {
    var c := EditOf(lines, t).entryAt.value;
    AlikeAbove(lines, after, pos, low, patches, t.dictStart, c);
    SameEntry(lines, after, t);
    assert after[c - 1] == lines[c - 1];
    SameComma(lines, after, t, c);
  }

  lemma {:induction false} SameEffect(lines: seq<Line>, e: Edit, f: Edit)
    requires e.call == f.call && e.callLines == f.callLines && e.entryAt == f.entryAt && e.comma == f.comma
    requires e.entryAt.Some? ==> e.entry == f.entry
    ensures ApplyEdit(lines, e) == ApplyEdit(lines, f)
  {
  }

  lemma {:induction false} StepForward(
      lines: seq<Line>, rest: seq<Target>, t: Target, pos: seq<nat>, patches: seq<Patch>, after: seq<Line>)
    requires FromLastToFirst(lines, rest + [t]) && AllFit(lines, rest) && Fits(lines, t)
    requires after == AtOnce(lines, EditsOf(lines, rest), 0, |lines|)
    requires RunState(lines, after, pos, Low(lines, rest), patches) && Undisturbed(lines, rest, t)
    ensures ApplyTarget(after, t) == AtOnce(lines, EditsOf(lines, rest) + [EditOf(lines, t)], 0, |lines|)
  {
    var low, e := Low(lines, rest), EditOf(lines, t);
    RestLiesBelow(lines, rest, t);
    SameCalls(lines, after, pos, low, patches, t);
    if e.entryAt.Some? {
      ClosesAbove(lines, after, pos, low, patches, t);
    } else if EditOf(after, t).entryAt.Some? {
      EntryWasDue(lines, after, pos, patches, t);
    }
    SameEffect(after, EditOf(after, t), e);
    EditsFrom(lines, rest, low);
    EditStands(lines, t);
    LowestEdit(lines, EditsOf(lines, rest), e, low);
  }

  // ----- one step back

  lemma {:induction false} StepLength(lines: seq<Line>, t: Target)
    requires Fits(lines, t)
    ensures var e := EditOf(lines, t);
            |ApplyTarget(lines, t)| == |lines| + |e.callLines| + if e.entryAt.Some? then 1 else 0
  {
  }

  lemma {:induction false} AtOnceStepLength(lines: seq<Line>, edits: seq<Edit>, t: Target)
    requires Fits(lines, t)
    ensures var e := EditOf(lines, t);
            |AtOnce(lines, edits + [e], 0, |lines|)| ==
            |AtOnce(lines, edits, 0, |lines|)| + |e.callLines| + if e.entryAt.Some? then 1 else 0
  {
    EditStands(lines, t);
    AtOnceLength(lines, edits, EditOf(lines, t), |lines|);
  }

  ghost predicate AddsAlike(lines: seq<Line>, after: seq<Line>, t: Target)
    requires Fits(lines, t) && Fits(after, t)
  {
    EditOf(after, t).entryAt.Some? <==> EditOf(lines, t).entryAt.Some?
  }

  /** A run never adds more lines than the patches at their original positions. */
  lemma {:induction false} NeverLonger(lines: seq<Line>, targets: seq<Target>, patches: seq<Patch>)
    requires FromLastToFirst(lines, targets) && FromPatches(targets, patches)
    ensures |ApplyInOrder(lines, targets)| <= |AtOnce(lines, EditsOf(lines, targets), 0, |lines|)|
    decreases |targets|
  {
    if targets == [] {
      AtOnceUntouched(lines, [], 0, |lines|);
    } else {
      var rest, t := targets[..|targets| - 1], targets[|targets| - 1];
      InitLast(targets);
      NeverLonger(lines, rest, patches);
      StepAddsNoMore(lines, rest, t, patches);
    }
  }

  lemma {:induction false} StepAddsNoMore(lines: seq<Line>, rest: seq<Target>, t: Target, patches: seq<Patch>)
    requires FromLastToFirst(lines, rest + [t]) && FromPatches(rest, patches)
    ensures AllFit(lines, rest) && Fits(lines, t) && Fits(ApplyInOrder(lines, rest), t)
    ensures var after, once := ApplyInOrder(lines, rest), AtOnce(lines, EditsOf(lines, rest), 0, |lines|);
            var both := AtOnce(lines, EditsOf(lines, rest) + [EditOf(lines, t)], 0, |lines|);
            && |ApplyTarget(after, t)| - |after| <= |both| - |once|
            && (|ApplyTarget(after, t)| - |after| == |both| - |once| <==> AddsAlike(lines, after, t))
  {
    var after, pos, low := ApplyInOrder(lines, rest), Placed(lines, rest), Low(lines, rest);
    RestLiesBelow(lines, rest, t);
    RunStates(lines, rest, patches);
    SameCalls(lines, after, pos, low, patches, t);
    StepLength(after, t);
    AtOnceStepLength(lines, EditsOf(lines, rest), t);
    if EditOf(after, t).entryAt.Some? {
      EntryWasDue(lines, after, pos, patches, t);
    }
  }

  lemma {:induction false} InsertInjective<T>(xs: seq<T>, zs: seq<T>, at: nat, ys: seq<T>)
    requires |xs| == |zs| && at <= |xs| && InsertLines(xs, at, ys) == InsertLines(zs, at, ys)
    ensures xs == zs
  {
    forall k | 0 <= k < |xs|
      ensures xs[k] == zs[k]
    {
      InsertedOld(xs, at, ys, k);
      InsertedOld(zs, at, ys, k);
    }
  }

  /** Two edits at the same place that leave the same lines were made to the same lines. */
  lemma {:induction false} EditInjective(xs: seq<Line>, zs: seq<Line>, e: Edit, f: Edit)
    requires |xs| == |zs| && ApplyEdit(xs, e) == ApplyEdit(zs, f)
    requires e.call == f.call <= |xs| && e.callLines == f.callLines && e.entryAt == f.entryAt && e.comma == f.comma
    requires e.entryAt.Some? ==> e.entryAt.value <= |xs|
    requires e.comma.Some? ==> e.comma.value < |xs| && xs[e.comma.value] == zs[e.comma.value]
    ensures xs == zs && (e.entryAt.Some? ==> e.entry == f.entry)
  {
    InsertInjective(WithEntry(xs, e), WithEntry(zs, f), e.call, e.callLines);
    if e.entryAt.Some? {
      InsertedNew(Commaed(xs, e), e.entryAt.value, [e.entry], e.entryAt.value);
      InsertedNew(Commaed(zs, f), e.entryAt.value, [f.entry], e.entryAt.value);
      InsertInjective(Commaed(xs, e), Commaed(zs, f), e.entryAt.value, [e.entry]);
    }
    forall k | 0 <= k < |xs|
      ensures xs[k] == zs[k]
    {
      assert Commaed(xs, e)[k] == Commaed(zs, f)[k];
    }
  }

  // ----- a dictionary that runs into the next method

  /** A dictionary opened inside another closes no later, and gets its entry if the outer one does. */
  lemma {:induction false} InnerGetsEntry(lines: seq<Line>, t: Target, u: Target)
    requires Fits(lines, t) && Fits(lines, u) && t.dictStart < u.dictStart && EditOf(lines, t).entryAt.Some?
    requires u.dictStart <= EditOf(lines, t).entryAt.value
    ensures EditOf(lines, u).entryAt.Some? && EditOf(lines, u).entryAt.value <= EditOf(lines, t).entryAt.value
  {
    var at := ScanReaches(lines, t.dictStart, t.dictStart, 0, u.dictStart);
    NestedScan(lines, t.dictStart, u.dictStart, u.dictStart, at, 0);
  }

  lemma {:induction false} EntryStands(after: seq<Line>, pos: seq<nat>, u: Target, i: nat)
    requires Fits(after, u) && i < |pos| && EditOf(after, u).entryAt == Some(pos[i])
    ensures var j := pos[i] + |EditOf(after, u).callLines|;
            && u.call <= j < |ApplyTarget(after, u)| && ApplyTarget(after, u)[j].mentionsKey
            && |Stepped(after, pos, u)| == |pos| && Stepped(after, pos, u)[i] == j + 1
  {
    var e := EditOf(after, u);
    EditStands(after, u);
    InsertedNew(Commaed(after, e), pos[i], [e.entry], pos[i]);
    InsertedOld(WithEntry(after, e), e.call, e.callLines, pos[i]);
  }

  lemma {:induction false} SeenFromOutside(lines: seq<Line>, start: nat, j: nat)
    requires start <= j && Closing(lines, start, start, 0).Some? && j <= Closing(lines, start, start, 0).value
    requires j < |lines| && lines[j].mentionsKey
    ensures Mentioned(lines, start, start, 0)
  {
    var at := ScanReaches(lines, start, start, 0, j);
  }

  lemma {:induction false} MentionBlocks(lines: seq<Line>, t: Target, j: nat, k: nat)
    requires Fits(lines, t) && t.dictStart <= j < k && j < |lines| && lines[j].mentionsKey
    ensures EditOf(lines, t).entryAt != Some(k)
  {
    if EditOf(lines, t).entryAt == Some(k) {
      SeenFromOutside(lines, t.dictStart, j);
    }
  }

  lemma {:induction false} InOrderOf(pos: seq<nat>, end: nat, i: nat, c: nat)
    requires Ascends(pos, end) && i <= c < |pos|
    ensures pos[i] <= pos[c]
  {
  }

  /** The entry of the inner dictionary keeps the outer one from getting its own. */
  lemma {:induction false} OuterGetsNone(
      before: seq<Line>, pos: seq<nat>, u: Target, t: Target, i: nat, c: nat)
    requires Fits(before, u) && t.dictStart < u.call && i <= c < |pos| && Fits(ApplyTarget(before, u), t)
    requires EditOf(before, u).entryAt == Some(pos[i])
    requires |Stepped(before, pos, u)| == |pos| && Ascends(Stepped(before, pos, u), |ApplyTarget(before, u)|)
    ensures EditOf(ApplyTarget(before, u), t).entryAt != Some(Stepped(before, pos, u)[c])
  {
    EntryStands(before, pos, u, i);
    InOrderOf(Stepped(before, pos, u), |ApplyTarget(before, u)|, i, c);
    MentionBlocks(ApplyTarget(before, u), t, pos[i] + |EditOf(before, u).callLines|, Stepped(before, pos, u)[c]);
  }

  lemma {:induction false} InsertedStands(lines: seq<Line>, c: nat, ys: seq<Line>)
    requires c <= |lines|
    ensures StandAt(InsertLines(lines, c, ys), ys, c)
  {
  }

  predicate StandAt(lines: seq<Line>, ys: seq<Line>, c: nat) { c + |ys| <= |lines| && lines[c..c + |ys|] == ys }

  lemma {:induction false} CallsStandAbove(lines: seq<Line>, before: seq<Line>, pos: seq<nat>, low: nat, u: Target)
    requires NotReached(lines, before, pos, low) && Fits(before, u) && u.call < low && u.call < |pos|
    requires EditOf(before, u).entryAt.Some? ==> EditOf(before, u).entryAt.value > u.call
    ensures var calls := EditOf(before, u).callLines; var after := ApplyTarget(before, u);
            && StandAt(after, calls, u.call)
            && |Stepped(before, pos, u)| == |pos| && Stepped(before, pos, u)[u.call] == u.call + |calls|
  {
    var e := EditOf(before, u);
    InsertedStands(WithEntry(before, e), e.call, e.callLines);
  }

  lemma {:induction false} LastCallWantsComma(p: Patch, indent: nat)
    ensures CallLines(p, indent) != []
    ensures var l := CallLines(p, indent)[|CallLines(p, indent)| - 1]; WantsComma(l) && WithComma(l) != l
  {
  }

  lemma {:induction false} PrefixLength(lines: seq<Line>, edits: seq<Edit>, low: nat, n: nat)
    requires n <= low && n <= |lines| && InsertsFrom(edits, low)
    ensures |AtOnce(lines, edits, 0, n)| == n
    decreases n
  {
    if n > 0 {
      PrefixLength(lines, edits, low, n - 1);
      CollectEmpty(edits, AboveAt(n - 1));
    }
  }

  lemma {:induction false} BlockAtCall(lines: seq<Line>, edits: seq<Edit>, d: Edit, e: Edit, c: nat)
    requires c < |lines| && InsertsFrom(edits, c + 1) && d.call == c && (d.entryAt.Some? ==> d.entryAt.value > c)
    requires e.call < c && e.entryAt == Some(c)
    ensures Block(lines, edits + [d] + [e], c) == d.callLines + [e.entry, Kept(edits + [d] + [e], lines[c], c)]
  {
    CollectEmpty(edits, AboveAt(c));
    CollectSnoc(edits, d, AboveAt(c));
    CollectSnoc(edits + [d], e, AboveAt(c));
    assert Above(d, c) == d.callLines && Above(e, c) == [e.entry];
  }

  lemma {:induction false} MiddleIndex<T>(x: seq<T>, y: seq<T>, z: seq<T>, rest: seq<T>, m: nat)
    requires m < |y|
    ensures |x| + m < |x + (y + z) + rest| && (x + (y + z) + rest)[|x| + m] == y[m]
  {
  }

  lemma {:induction false} LengthBeforeCall(lines: seq<Line>, edits: seq<Edit>, d: Edit, e: Edit, c: nat)
    requires c < |lines| && InsertsFrom(edits, c + 1) && d.call == c && (d.entryAt.Some? ==> d.entryAt.value > c)
    requires e.call < c && e.entryAt == Some(c)
    ensures |AtOnce(lines, edits + [d] + [e], 0, c)| == c + |e.callLines|
  {
    PrefixLength(lines, edits, c + 1, c);
    AtOnceLength(lines, edits, d, c);
    AtOnceLength(lines, edits + [d], e, c);
  }

  /** At its original position the inner call keeps its lines as they were written. */
  lemma {:induction false} CallKeptAtOnce(lines: seq<Line>, edits: seq<Edit>, d: Edit, e: Edit, c: nat, m: nat)
    requires c < |lines| && InsertsFrom(edits, c + 1) && d.call == c && (d.entryAt.Some? ==> d.entryAt.value > c)
    requires e.call < c && e.entryAt == Some(c) && m < |d.callLines|
    ensures var all := AtOnce(lines, edits + [d] + [e], 0, |lines|);
            c + |e.callLines| + m < |all| && all[c + |e.callLines| + m] == d.callLines[m]
  {
    var whole := edits + [d] + [e];
    LengthBeforeCall(lines, edits, d, e, c);
    BlockAtCall(lines, edits, d, e, c);
    AtOnceAround(lines, whole, c);
    MiddleIndex(AtOnce(lines, whole, 0, c), d.callLines, [e.entry, Kept(whole, lines[c], c)],
                AtOnce(lines, whole, c + 1, |lines|), m);
  }

  lemma {:induction false} AtOnceAround(lines: seq<Line>, edits: seq<Edit>, c: nat)
    requires c < |lines|
    ensures AtOnce(lines, edits, 0, |lines|) ==
            AtOnce(lines, edits, 0, c) + Block(lines, edits, c) + AtOnce(lines, edits, c + 1, |lines|)
  {
    AtOnceSplit(lines, edits, 0, c + 1, |lines|);
  }

  /** Where the last of `calls`, put above line `c`, stands below the lines `more`. */
  function CallEnd(c: nat, calls: seq<Line>, more: seq<Line>): nat
    requires calls != []
  {
    c + |more| + (|calls| - 1)
  }

  predicate GainedComma(lines: seq<Line>, k: nat, line: Line) { k < |lines| && lines[k] == WithComma(line) }

  /** In the run the last line of the inner call gains the comma of the outer dictionary. */
  lemma {:induction false} CallGainsComma(after: seq<Line>, t: Target, calls: seq<Line>, c: nat)
    requires Fits(after, t) && t.call < c && calls != [] && StandAt(after, calls, c) && WantsComma(calls[|calls| - 1])
    requires EditOf(after, t).entryAt == Some(c + |calls|)
    ensures GainedComma(ApplyTarget(after, t), CallEnd(c, calls, EditOf(after, t).callLines), calls[|calls| - 1])
  {
    var e := EditOf(after, t);
    var last := c + |calls| - 1;
    assert after[c..c + |calls|][|calls| - 1] == after[last];
    assert e.comma == Some(last);
    InsertedOld(Commaed(after, e), c + |calls|, [e.entry], last);
    InsertedOld(WithEntry(after, e), e.call, e.callLines, last);
  }

  /** The last of the later methods, split off. */
  lemma {:induction false} NearestLater(lines: seq<Line>, rest: seq<Target>, t: Target)
    requires FromLastToFirst(lines, rest + [t]) && rest != []
    ensures var u, later := rest[|rest| - 1], rest[..|rest| - 1];
            && rest == later + [u] && FromLastToFirst(lines, later + [u]) && Fits(lines, u) && u.dictStart <= u.call + 1
            && Low(lines, rest) == u.call < Low(lines, later) && t.dictStart < t.end <= u.start < u.call
            && (forall n :: 0 <= n < |later| ==> u.call < later[n].call)
  {
    InitLast(rest);
    RestLiesBelow(lines, rest, t);
    RestLiesBelow(lines, rest[..|rest| - 1], rest[|rest| - 1]);
    assert forall n :: 0 <= n < |rest| - 1 ==> rest[n] == rest[..|rest| - 1][n];
  }

  lemma {:induction false} LastStep(lines: seq<Line>, later: seq<Target>, u: Target)
    ensures ApplyInOrder(lines, later + [u]) == ApplyTarget(ApplyInOrder(lines, later), u)
    ensures Placed(lines, later + [u]) == Stepped(ApplyInOrder(lines, later), Placed(lines, later), u)
    ensures AllFit(lines, later + [u]) ==>
              AllFit(lines, later) && Fits(lines, u)
                && EditsOf(lines, later + [u]) == EditsOf(lines, later) + [EditOf(lines, u)]
  {
    assert (later + [u])[..|later|] == later;
    if AllFit(lines, later + [u]) {
      assert forall n :: 0 <= n < |later| ==> (later + [u])[n] == later[n];
      assert (later + [u])[|later|] == u;
    }
  }

  /** When the inner dictionary has got its entry, the outer one gets none. */
  lemma {:induction false} RunsIntoEntry(
      lines: seq<Line>, later: seq<Target>, u: Target, t: Target, patches: seq<Patch>)
    requires FromLastToFirst(lines, later + [u] + [t]) && FromPatches(later + [u], patches)
    requires Fits(lines, u) && Fits(lines, t) && Fits(ApplyInOrder(lines, later), u)
    requires Fits(ApplyInOrder(lines, later + [u]), t)
    requires EditOf(lines, t).entryAt.Some? && u.dictStart <= EditOf(lines, t).entryAt.value
    requires AddsAlike(lines, ApplyInOrder(lines, later), u)
    ensures EditOf(ApplyInOrder(lines, later + [u]), t).entryAt.None?
  {
    var before, pos, c := ApplyInOrder(lines, later), Placed(lines, later), EditOf(lines, t).entryAt.value;
    RestLiesBelow(lines, later + [u], t);
    RestLiesBelow(lines, later, u);
    assert (later + [u])[|later|] == u;
    EditStands(lines, t);
    InnerGetsEntry(lines, t, u);
    assert forall n :: 0 <= n < |later| ==> (later + [u])[n] == later[n];
    RunStates(lines, later, patches);
    SameCalls(lines, before, pos, Low(lines, later), patches, u);
    EntryWasDue(lines, before, pos, patches, u);
    LastStep(lines, later, u);
    RunStates(lines, later + [u], patches);
    OuterGetsNone(before, pos, u, t, EditOf(lines, u).entryAt.value, c);
    EntryOnlyThere(lines, later + [u], t, patches);
  }

  lemma {:induction false} EntryOnlyThere(lines: seq<Line>, rest: seq<Target>, t: Target, patches: seq<Patch>)
    requires FromLastToFirst(lines, rest + [t]) && FromPatches(rest, patches) && Fits(lines, t)
    ensures Fits(ApplyInOrder(lines, rest), t) && |Placed(lines, rest)| == |lines|
    ensures EditOf(ApplyInOrder(lines, rest), t).entryAt.Some? ==>
              && EditOf(lines, t).entryAt.Some?
              && EditOf(ApplyInOrder(lines, rest), t).entryAt ==
                   Some(Placed(lines, rest)[EditOf(lines, t).entryAt.value])
  {
    RestLiesBelow(lines, rest, t);
    RunStates(lines, rest, patches);
    SameCalls(lines, ApplyInOrder(lines, rest), Placed(lines, rest), Low(lines, rest), patches, t);
    if EditOf(ApplyInOrder(lines, rest), t).entryAt.Some? {
      EntryWasDue(lines, ApplyInOrder(lines, rest), Placed(lines, rest), patches, t);
    }
  }

  lemma {:induction false} CallsInRun(lines: seq<Line>, later: seq<Target>, u: Target, patches: seq<Patch>)
    requires FromLastToFirst(lines, later + [u]) && FromPatches(later, patches) && Fits(lines, u)
             && u.dictStart > u.call
    ensures var calls := EditOf(lines, u).callLines; var after := ApplyInOrder(lines, later + [u]);
            && StandAt(after, calls, u.call)
            && |Placed(lines, later + [u])| == |lines| && Placed(lines, later + [u])[u.call] == u.call + |calls|
  {
    var before, pos := ApplyInOrder(lines, later), Placed(lines, later);
    RestLiesBelow(lines, later, u);
    RunStates(lines, later, patches);
    SameCalls(lines, before, pos, Low(lines, later), patches, u);
    EditStands(before, u);
    CallsStandAbove(lines, before, pos, Low(lines, later), u);
    LastStep(lines, later, u);
  }

  lemma {:induction false} EntryMoved(
      lines: seq<Line>, after: seq<Line>, pos: seq<nat>, low: nat, patches: seq<Patch>, t: Target, c: nat)
    requires RunState(lines, after, pos, low, patches) && Fits(lines, t) && t.dictStart < low
    requires EditOf(lines, t).entryAt == Some(c) && Fits(after, t) && EditOf(after, t).entryAt.Some?
    ensures EditOf(after, t).entryAt == Some(pos[c]) && EditOf(after, t).callLines == EditOf(lines, t).callLines
  {
    SameCalls(lines, after, pos, low, patches, t);
    EntryWasDue(lines, after, pos, patches, t);
  }

  lemma {:induction false} CommaInRun(
      lines: seq<Line>, after: seq<Line>, pos: seq<nat>, low: nat, patches: seq<Patch>, t: Target, calls: seq<Line>,
      c: nat)
    requires RunState(lines, after, pos, low, patches) && Fits(lines, t) && t.dictStart < low && t.call < c
    requires EditOf(lines, t).entryAt == Some(c) && Fits(after, t) && EditOf(after, t).entryAt.Some?
    requires pos[c] == c + |calls| && calls != [] && WantsComma(calls[|calls| - 1])
    requires StandAt(after, calls, c)
    ensures GainedComma(ApplyTarget(after, t), CallEnd(c, calls, EditOf(lines, t).callLines), calls[|calls| - 1])
  {
    EntryMoved(lines, after, pos, low, patches, t, c);
    CallGainsComma(after, t, calls, c);
  }

  lemma {:induction false} KeptAtEnd(lines: seq<Line>, edits: seq<Edit>, d: Edit, e: Edit, c: nat)
    requires c < |lines| && InsertsFrom(edits, c + 1) && d.call == c && (d.entryAt.Some? ==> d.entryAt.value > c)
    requires e.call < c && e.entryAt == Some(c) && d.callLines != []
    ensures var all := AtOnce(lines, edits + [d] + [e], 0, |lines|); var k := CallEnd(c, d.callLines, e.callLines);
            k < |all| && all[k] == d.callLines[|d.callLines| - 1]
  {
    CallKeptAtOnce(lines, edits, d, e, c, |d.callLines| - 1);
  }

  lemma {:induction false} LaterBehind(lines: seq<Line>, later: seq<Target>, u: Target, t: Target)
    requires FromLastToFirst(lines, later + [u] + [t])
    ensures FromLastToFirst(lines, later + [u]) && t.call < u.call < |lines|
    ensures forall n :: 0 <= n < |later| ==> u.call + 1 <= later[n].call
  {
    NearestLater(lines, later + [u], t);
    RestLiesBelow(lines, later + [u], t);
    assert (later + [u])[..|later|] == later && (later + [u])[|later|] == u;
  }

  /** When the outer dictionary closes on the very line the inner call went above, the call gains its comma. */
  lemma {:induction false} RunsIntoCall(
      lines: seq<Line>, edits: seq<Edit>, d: Edit, e: Edit, c: nat, run: seq<Line>)
    requires c < |lines| && InsertsFrom(edits, c + 1) && d.call == c && (d.entryAt.Some? ==> d.entryAt.value > c)
    requires e.call < c && e.entryAt == Some(c)
    requires d.callLines != [] && WantsComma(d.callLines[|d.callLines| - 1])
    requires GainedComma(run, CallEnd(c, d.callLines, e.callLines), d.callLines[|d.callLines| - 1])
    ensures run != AtOnce(lines, edits + [d] + [e], 0, |lines|)
  {
    KeptAtEnd(lines, edits, d, e, c);
  }

  // ----- in order is at once

  /** The dictionary of `t` closes above everything the later methods were given. */
  lemma {:induction false} StepBackAbove(
      lines: seq<Line>, rest: seq<Target>, t: Target, patches: seq<Patch>)
    requires FromLastToFirst(lines, rest + [t]) && FromPatches(rest, patches) && AllFit(lines, rest) && Fits(lines, t)
    requires ApplyTarget(ApplyInOrder(lines, rest), t) ==
             AtOnce(lines, EditsOf(lines, rest) + [EditOf(lines, t)], 0, |lines|)
    requires |ApplyInOrder(lines, rest)| == |AtOnce(lines, EditsOf(lines, rest), 0, |lines|)|
    requires Fits(ApplyInOrder(lines, rest), t) && AddsAlike(lines, ApplyInOrder(lines, rest), t)
    requires Deepest(EditOf(lines, t)) < Low(lines, rest)
    ensures ApplyInOrder(lines, rest) == AtOnce(lines, EditsOf(lines, rest), 0, |lines|)
    ensures EditOf(lines, t).entryAt.Some? ==> EditOf(ApplyInOrder(lines, rest), t).entry == EditOf(lines, t).entry
  {
    var after, once, low := ApplyInOrder(lines, rest), AtOnce(lines, EditsOf(lines, rest), 0, |lines|),
                            Low(lines, rest);
    var e := EditOf(lines, t);
    RestLiesBelow(lines, rest, t);
    RunStates(lines, rest, patches);
    SameCalls(lines, after, Placed(lines, rest), low, patches, t);
    if e.entryAt.Some? {
      ClosesAbove(lines, after, Placed(lines, rest), low, patches, t);
    }
    EditsFrom(lines, rest, low);
    EditStands(lines, t);
    LowestEdit(lines, EditsOf(lines, rest), e, low);
    SameBeginning(lines, rest, e, low);
    EditInjective(after, once, EditOf(after, t), e);
  }

  lemma {:induction false} SameBeginning(lines: seq<Line>, rest: seq<Target>, e: Edit, low: nat)
    requires AllFit(lines, rest) && FromOn(EditsOf(lines, rest), low) && Within(e, 0, |lines|)
             && Deepest(e) < low <= |lines|
    ensures |AtOnce(lines, EditsOf(lines, rest), 0, |lines|)| >= Deepest(e)
    ensures e.comma.Some? ==> AtOnce(lines, EditsOf(lines, rest), 0, |lines|)[e.comma.value] == lines[e.comma.value]
  {
    AtOnceSplit(lines, EditsOf(lines, rest), 0, Deepest(e), |lines|);
    AtOnceUntouched(lines, EditsOf(lines, rest), 0, Deepest(e));
  }

  lemma {:induction false} OfLater(later: seq<Target>, u: Target, patches: seq<Patch>)
    requires FromPatches(later + [u], patches)
    ensures FromPatches(later, patches)
  {
    assert forall n :: 0 <= n < |later| ==> (later + [u])[n] == later[n];
  }

  lemma {:induction false} GainedInTheRun(
      lines: seq<Line>, later: seq<Target>, u: Target, t: Target, patches: seq<Patch>)
    requires FromLastToFirst(lines, later + [u] + [t]) && FromPatches(later + [u], patches)
    requires Fits(lines, u) && Fits(lines, t) && Fits(ApplyInOrder(lines, later + [u]), t) && t.call < u.call
    requires EditOf(lines, t).entryAt == Some(u.call) && EditOf(ApplyInOrder(lines, later + [u]), t).entryAt.Some?
    requires u.dictStart > u.call
    ensures EditOf(lines, u).callLines != []
    ensures GainedByCall(ApplyTarget(ApplyInOrder(lines, later + [u]), t), EditOf(lines, u), EditOf(lines, t))
  {
    LastCallWantsComma(u.patch, lines[u.call].indent);
    CallsInRunOfBoth(lines, later, u, t, patches);
    CommaInTheRun(lines, later, u, t, patches, EditOf(lines, u).callLines);
  }

  /** The last line of the call of `d` has the comma that belongs to the dictionary of `e`. */
  predicate GainedByCall(run: seq<Line>, d: Edit, e: Edit) {
    d.callLines != []
    && GainedComma(run, CallEnd(d.call, d.callLines, e.callLines), d.callLines[|d.callLines| - 1])
  }

  lemma {:induction false} RunsIntoCallInRun(
      lines: seq<Line>, later: seq<Target>, u: Target, t: Target, patches: seq<Patch>)
    requires FromLastToFirst(lines, later + [u] + [t]) && FromPatches(later + [u], patches)
    requires AllFit(lines, later) && Fits(lines, u) && Fits(lines, t) && Fits(ApplyInOrder(lines, later + [u]), t)
    requires EditOf(lines, t).entryAt == Some(u.call) && u.dictStart > u.call
    requires EditOf(ApplyInOrder(lines, later + [u]), t).entryAt.Some?
    ensures ApplyTarget(ApplyInOrder(lines, later + [u]), t) !=
            AtOnce(lines, EditsOf(lines, later) + [EditOf(lines, u)] + [EditOf(lines, t)], 0, |lines|)
  {
    LaterBehind(lines, later, u, t);
    GainedInTheRun(lines, later, u, t, patches);
    KeptAtOnceOf(lines, later, u, t, ApplyTarget(ApplyInOrder(lines, later + [u]), t));
  }

  lemma {:induction false} KeptAtOnceOf(
      lines: seq<Line>, later: seq<Target>, u: Target, t: Target, run: seq<Line>)
    requires AllFit(lines, later) && Fits(lines, u) && Fits(lines, t) && t.call < u.call < |lines|
    requires forall n :: 0 <= n < |later| ==> u.call + 1 <= later[n].call
    requires EditOf(lines, t).entryAt == Some(u.call) && u.dictStart > u.call
    requires GainedByCall(run, EditOf(lines, u), EditOf(lines, t))
    ensures run != AtOnce(lines, EditsOf(lines, later) + [EditOf(lines, u)] + [EditOf(lines, t)], 0, |lines|)
  {
    EditsFrom(lines, later, u.call + 1);
    EditStands(lines, u);
    EditStands(lines, t);
    LastCallWantsComma(u.patch, lines[u.call].indent);
    RunsIntoCall(lines, EditsOf(lines, later), EditOf(lines, u), EditOf(lines, t), u.call, run);
  }

  lemma {:induction false} CommaInTheRun(
      lines: seq<Line>, later: seq<Target>, u: Target, t: Target, patches: seq<Patch>, calls: seq<Line>)
    requires FromLastToFirst(lines, later + [u] + [t]) && FromPatches(later + [u], patches)
    requires Fits(lines, t) && Fits(ApplyInOrder(lines, later + [u]), t) && t.call < u.call
    requires EditOf(lines, t).entryAt == Some(u.call) && EditOf(ApplyInOrder(lines, later + [u]), t).entryAt.Some?
    requires calls != [] && WantsComma(calls[|calls| - 1]) && StandAt(ApplyInOrder(lines, later + [u]), calls, u.call)
    requires |Placed(lines, later + [u])| == |lines| && Placed(lines, later + [u])[u.call] == u.call + |calls|
    ensures GainedComma(ApplyTarget(ApplyInOrder(lines, later + [u]), t),
                        CallEnd(u.call, calls, EditOf(lines, t).callLines), calls[|calls| - 1])
  {
    ReachedTheCall(lines, later, u, t, patches);
    CommaInRun(lines, ApplyInOrder(lines, later + [u]), Placed(lines, later + [u]), u.call, patches, t, calls, u.call);
  }

  lemma {:induction false} CallsInRunOfBoth(
      lines: seq<Line>, later: seq<Target>, u: Target, t: Target, patches: seq<Patch>)
    requires FromLastToFirst(lines, later + [u] + [t]) && FromPatches(later + [u], patches)
    requires Fits(lines, u) && u.dictStart > u.call
    ensures var calls := EditOf(lines, u).callLines; var after := ApplyInOrder(lines, later + [u]);
            && StandAt(after, calls, u.call)
            && |Placed(lines, later + [u])| == |lines| && Placed(lines, later + [u])[u.call] == u.call + |calls|
  {
    OfLater(later, u, patches);
    RestLiesBelow(lines, later + [u], t);
    CallsInRun(lines, later, u, patches);
  }

  lemma {:induction false} ReachedTheCall(
      lines: seq<Line>, later: seq<Target>, u: Target, t: Target, patches: seq<Patch>)
    requires FromLastToFirst(lines, later + [u] + [t]) && FromPatches(later + [u], patches)
    ensures RunState(lines, ApplyInOrder(lines, later + [u]), Placed(lines, later + [u]), u.call, patches)
    ensures t.dictStart < u.call
  {
    RestLiesBelow(lines, later + [u], t);
    RunStates(lines, later + [u], patches);
    assert (later + [u])[|later|] == u;
  }

  /** A dictionary that closes behind a later method's call: the run and the original positions differ. */
  lemma {:induction false} RunsOn(lines: seq<Line>, later: seq<Target>, u: Target, t: Target, patches: seq<Patch>)
    requires FromLastToFirst(lines, later + [u] + [t]) && FromPatches(later + [u], patches)
    requires AllFit(lines, later) && Fits(lines, u) && Fits(lines, t) && u.dictStart <= u.call + 1
    requires Fits(ApplyInOrder(lines, later), u) && AddsAlike(lines, ApplyInOrder(lines, later), u)
    requires Fits(ApplyInOrder(lines, later + [u]), t) && AddsAlike(lines, ApplyInOrder(lines, later + [u]), t)
    requires EditOf(lines, t).entryAt.Some? && EditOf(lines, t).entryAt.value >= u.call
    ensures ApplyTarget(ApplyInOrder(lines, later + [u]), t) !=
            AtOnce(lines, EditsOf(lines, later) + [EditOf(lines, u)] + [EditOf(lines, t)], 0, |lines|)
  {
    if u.dictStart <= EditOf(lines, t).entryAt.value {
      RunsIntoEntry(lines, later, u, t, patches);
    } else {
      RunsIntoCallInRun(lines, later, u, t, patches);
    }
  }

  lemma {:induction false} AddedAlikeBefore(
      lines: seq<Line>, later: seq<Target>, u: Target, t: Target, patches: seq<Patch>)
    requires FromLastToFirst(lines, later + [u] + [t]) && FromPatches(later + [u], patches)
    requires AllFit(lines, later) && Fits(lines, u)
    requires |ApplyInOrder(lines, later + [u])| ==
             |AtOnce(lines, EditsOf(lines, later) + [EditOf(lines, u)], 0, |lines|)|
    ensures Fits(ApplyInOrder(lines, later), u) && AddsAlike(lines, ApplyInOrder(lines, later), u)
  {
    RestLiesBelow(lines, later + [u], t);
    RestLiesBelow(lines, later, u);
    OfLater(later, u, patches);
    LastStep(lines, later, u);
    NeverLonger(lines, later, patches);
    StepAddsNoMore(lines, later, u, patches);
  }

  lemma {:induction false} ClosesBeforeLater(lines: seq<Line>, rest: seq<Target>, t: Target, patches: seq<Patch>)
    requires FromLastToFirst(lines, rest + [t]) && FromPatches(rest, patches) && AllFit(lines, rest) && Fits(lines, t)
    requires ApplyTarget(ApplyInOrder(lines, rest), t) ==
             AtOnce(lines, EditsOf(lines, rest) + [EditOf(lines, t)], 0, |lines|)
    requires |ApplyInOrder(lines, rest)| == |AtOnce(lines, EditsOf(lines, rest), 0, |lines|)|
    requires Fits(ApplyInOrder(lines, rest), t) && AddsAlike(lines, ApplyInOrder(lines, rest), t)
    ensures Deepest(EditOf(lines, t)) < Low(lines, rest)
  {
    RestLiesBelow(lines, rest, t);
    EditStands(lines, t);
    if EditOf(lines, t).entryAt.Some? && EditOf(lines, t).entryAt.value >= Low(lines, rest) {
      NearestLater(lines, rest, t);
      var u, later := rest[|rest| - 1], rest[..|rest| - 1];
      LastStep(lines, later, u);
      AddedAlikeBefore(lines, later, u, t, patches);
      RunsOn(lines, later, u, t, patches);
    }
  }

  lemma {:induction false} StepBack(lines: seq<Line>, rest: seq<Target>, t: Target, patches: seq<Patch>)
    requires FromLastToFirst(lines, rest + [t]) && FromPatches(rest, patches) && AllFit(lines, rest) && Fits(lines, t)
    requires ApplyTarget(ApplyInOrder(lines, rest), t) ==
             AtOnce(lines, EditsOf(lines, rest) + [EditOf(lines, t)], 0, |lines|)
    ensures ApplyInOrder(lines, rest) == AtOnce(lines, EditsOf(lines, rest), 0, |lines|)
    ensures Undisturbed(lines, rest, t)
  {
    RestLiesBelow(lines, rest, t);
    NeverLonger(lines, rest, patches);
    StepAddsNoMore(lines, rest, t, patches);
    ClosesBeforeLater(lines, rest, t, patches);
    StepBackAbove(lines, rest, t, patches);
    assert forall n :: 0 <= n < |rest| ==> Low(lines, rest) <= rest[n].call;
  }

  ghost predicate AllUndisturbed(lines: seq<Line>, targets: seq<Target>)
    requires AllFit(lines, targets)
  {
    forall n :: 0 <= n < |targets| ==> Undisturbed(lines, targets[..n], targets[n])
  }

  lemma {:induction false} UndisturbedSplits(lines: seq<Line>, rest: seq<Target>, t: Target)
    requires AllFit(lines, rest + [t])
    ensures AllFit(lines, rest) && Fits(lines, t)
    ensures AllUndisturbed(lines, rest + [t]) <==> AllUndisturbed(lines, rest) && Undisturbed(lines, rest, t)
  {
    assert forall n :: 0 <= n < |rest| ==> (rest + [t])[..n] == rest[..n] && (rest + [t])[n] == rest[n];
    assert (rest + [t])[..|rest|] == rest && (rest + [t])[|rest|] == t;
  }

  /**
   For methods that lie apart, editing in place from the last to the first is
   applying every patch at its original position, exactly when every dictionary
   that gets an entry closes above the calls of all later methods, and the search
   for its indent is not misled by what those methods were given.
   */
  lemma {:induction false} InOrderIsAtOnceExactly(lines: seq<Line>, targets: seq<Target>)
    requires FromLastToFirst(lines, targets)
    ensures ApplyInOrder(lines, targets) == AtOnce(lines, EditsOf(lines, targets), 0, |lines|) <==>
            AllUndisturbed(lines, targets)
    decreases |targets|
  {
    if targets == [] {
      AtOnceUntouched(lines, [], 0, |lines|);
    } else {
      var rest, t := targets[..|targets| - 1], targets[|targets| - 1];
      InitLast(targets);
      RestLiesBelow(lines, rest, t);
      UndisturbedSplits(lines, rest, t);
      InOrderIsAtOnceExactly(lines, rest);
      var patches := PatchesOf(rest);
      OwnPatches(rest);
      if ApplyInOrder(lines, targets) == AtOnce(lines, EditsOf(lines, targets), 0, |lines|) {
        StepBack(lines, rest, t, patches);
      } else if AllUndisturbed(lines, targets) {
        RunStates(lines, rest, patches);
        StepForward(lines, rest, t, Placed(lines, rest), patches, ApplyInOrder(lines, rest));
      }
    }
  }

  lemma {:induction false} OwnPatches(targets: seq<Target>)
    ensures FromPatches(targets, PatchesOf(targets))
  {
    assert forall n :: 0 <= n < |targets| ==> PatchesOf(targets)[n] == targets[n].patch;
  }
}
