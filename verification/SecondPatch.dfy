/**
 Running the source patcher again (scripts/add_active_filters.py): the methods of
 a patched file are found where their lines have moved to, and the second run has
 something to do exactly when the first one spoiled a method's last return.
 */
module SecondPatch {
  import opened Collections
  import opened FilterPatcher
  import opened GrownLines

  // ----- searching the grown file

  /** A comma changes nothing, and no neutral line is found. */
  ghost predicate SeesOriginals(p: Line -> bool) {
    (forall l :: p(WithComma(l)) == p(l)) && (forall l :: Neutral(l) ==> !p(l))
  }

  /** A search finds the original lines where they stand, and nothing else. */
  ghost predicate FindsSame(lines: seq<Line>, after: seq<Line>, pos: seq<nat>, p: Line -> bool) {
    && |pos| == |lines| && Ascends(pos, |after|)
    && (forall i :: 0 <= i < |lines| ==> p(after[pos[i]]) == p(lines[i]))
    && (forall k :: 0 <= k < |after| && k !in pos ==> !p(after[k]))
  }

  lemma {:induction false} GrownFindsSame(
      lines: seq<Line>, after: seq<Line>, pos: seq<nat>, patches: seq<Patch>, p: Line -> bool)
    requires Grown(lines, after, pos, patches) && SeesOriginals(p)
    ensures FindsSame(lines, after, pos, p)
  {
    forall i | 0 <= i < |lines|
      ensures p(after[pos[i]]) == p(lines[i])
    {
      assert UpToComma(lines[i], after[pos[i]]);
    }
    forall k | 0 <= k < |after| && k !in pos
      ensures !p(after[k])
    {
      AddedIsNeutral(after[k], patches);
    }
  }

  lemma {:induction false} SkipTo(lines: seq<Line>, a: nat, b: nat, p: Line -> bool)
    requires a <= b <= |lines| && forall k :: a <= k < b ==> !p(lines[k])
    ensures First(lines, a, p) == First(lines, b, p)
    decreases b - a
  {
    if a < b {
      SkipTo(lines, a + 1, b, p);
    }
  }

  lemma {:induction false} StepOver(lines: seq<Line>, after: seq<Line>, pos: seq<nat>, i: nat, p: Line -> bool)
    requires FindsSame(lines, after, pos, p) && i <= |lines|
    ensures Behind(pos, i) <= Moved(after, pos, i) <= |after|
    ensures First(after, Behind(pos, i), p) == First(after, Moved(after, pos, i), p)
  {
    forall k | Behind(pos, i) <= k < Moved(after, pos, i)
      ensures !p(after[k])
    {
      GapIsFree(pos, |after|, i, k);
    }
    SkipTo(after, Behind(pos, i), Moved(after, pos, i), p);
  }

  /** A search ends where the line it found has moved to. */
  lemma {:induction false} FirstMoves(lines: seq<Line>, after: seq<Line>, pos: seq<nat>, i: nat, p: Line -> bool)
    requires FindsSame(lines, after, pos, p) && i <= |lines|
    ensures Behind(pos, i) <= |after|
    ensures First(after, Behind(pos, i), p) == Moved(after, pos, First(lines, i, p))
    decreases |lines| - i
  {
    StepOver(lines, after, pos, i, p);
    if i < |lines| && !p(lines[i]) {
      FirstMoves(lines, after, pos, i + 1, p);
    }
  }

  lemma {:induction false} PatternsSeeOriginals(name: string, indent: nat)
    ensures SeesOriginals(Defines(name)) && SeesOriginals(EndsMethod(indent))
  {
  }

  lemma {:induction false} StartMoves(
      lines: seq<Line>, after: seq<Line>, pos: seq<nat>, patches: seq<Patch>, name: string)
    requires Grown(lines, after, pos, patches)
    ensures First(after, 0, Defines(name)) == Moved(after, pos, First(lines, 0, Defines(name)))
  {
    PatternsSeeOriginals(name, 0);
    GrownFindsSame(lines, after, pos, patches, Defines(name));
    FirstMoves(lines, after, pos, 0, Defines(name));
  }

  /** Where the end search for a method that starts at `s` ends. */
  ghost predicate EndMoved(lines: seq<Line>, after: seq<Line>, pos: seq<nat>, s: nat)
    requires s < |lines| == |pos|
  {
    && pos[s] < |after| && after[pos[s]].indent == lines[s].indent
    && First(after, pos[s] + 1, EndsMethod(lines[s].indent)) ==
       Moved(after, pos, First(lines, s + 1, EndsMethod(lines[s].indent)))
  }

  lemma {:induction false} EndFound(lines: seq<Line>, after: seq<Line>, pos: seq<nat>, s: nat)
    requires s < |lines| && FindsSame(lines, after, pos, EndsMethod(lines[s].indent))
    requires after[pos[s]].indent == lines[s].indent
    ensures EndMoved(lines, after, pos, s)
  {
    FirstMoves(lines, after, pos, s + 1, EndsMethod(lines[s].indent));
  }

  lemma {:induction false} EndMoves(
      lines: seq<Line>, after: seq<Line>, pos: seq<nat>, patches: seq<Patch>, s: nat)
    requires Grown(lines, after, pos, patches) && s < |lines|
    ensures EndMoved(lines, after, pos, s)
  {
    LineKept(lines, after, pos, patches, s);
    PatternsSeeOriginals("", lines[s].indent);
    GrownFindsSame(lines, after, pos, patches, EndsMethod(lines[s].indent));
    EndFound(lines, after, pos, s);
  }

  lemma {:induction false} MovedBounds(lines: seq<Line>, after: seq<Line>, pos: seq<nat>, name: string)
    requires |pos| == |lines|
    requires First(after, 0, Defines(name)) == Moved(after, pos, First(lines, 0, Defines(name)))
    requires First(lines, 0, Defines(name)) < |lines| ==> EndMoved(lines, after, pos, First(lines, 0, Defines(name)))
    ensures var bounds := MethodBounds(lines, name);
            MethodBounds(after, name) ==
            if bounds.None? then None
            else Some((Moved(after, pos, bounds.value.0), Moved(after, pos, bounds.value.1)))
  {
  }

  /** A method of the grown file is the method of the original file, moved. */
  lemma {:induction false} BoundsMove(
      lines: seq<Line>, after: seq<Line>, pos: seq<nat>, patches: seq<Patch>, name: string)
    requires Grown(lines, after, pos, patches)
    ensures var bounds := MethodBounds(lines, name);
            MethodBounds(after, name) ==
            if bounds.None? then None
            else Some((Moved(after, pos, bounds.value.0), Moved(after, pos, bounds.value.1)))
  {
    StartMoves(lines, after, pos, patches, name);
    if First(lines, 0, Defines(name)) < |lines| {
      EndMoves(lines, after, pos, patches, First(lines, 0, Defines(name)));
    }
    MovedBounds(lines, after, pos, name);
  }

  // ----- where the calls stand

  /** A call of target `t` stands at `k`: in the gap above the line it was put before. */
  ghost predicate CallHere(after: seq<Line>, pos: seq<nat>, t: Target, k: nat) {
    && 0 < t.call < |pos| && k < |after|
    && pos[t.call - 1] < k < pos[t.call] && after[k].callsBuilder
  }

  ghost predicate CallStands(after: seq<Line>, pos: seq<nat>, t: Target) { exists k :: CallHere(after, pos, t, k) }

  ghost predicate EveryCallStands(after: seq<Line>, pos: seq<nat>, targets: seq<Target>) {
    forall n :: 0 <= n < |targets| ==> CallStands(after, pos, targets[n])
  }

  ghost predicate NoOtherCalls(after: seq<Line>, pos: seq<nat>, targets: seq<Target>) {
    forall k :: 0 <= k < |after| && k !in pos && after[k].callsBuilder ==>
      exists n :: 0 <= n < |targets| && CallHere(after, pos, targets[n], k)
  }

  lemma {:induction false} CallShifts(after: seq<Line>, pos: seq<nat>, t: Target, k: nat, at: nat, ys: seq<Line>)
    requires CallHere(after, pos, t, k) && at <= |after|
    ensures CallHere(InsertLines(after, at, ys), Shifted(pos, at, |ys|), t, Shift(k, at, |ys|))
  {
    InsertedOld(after, at, ys, k);
    var moved := Shifted(pos, at, |ys|);
    assert moved[t.call - 1] == Shift(pos[t.call - 1], at, |ys|) && moved[t.call] == Shift(pos[t.call], at, |ys|);
  }

  lemma {:induction false} CallsShift(after: seq<Line>, pos: seq<nat>, targets: seq<Target>, at: nat, ys: seq<Line>)
    requires EveryCallStands(after, pos, targets) && at <= |after|
    ensures EveryCallStands(InsertLines(after, at, ys), Shifted(pos, at, |ys|), targets)
  {
    forall n | 0 <= n < |targets|
      ensures CallStands(InsertLines(after, at, ys), Shifted(pos, at, |ys|), targets[n])
    {
      var k :| CallHere(after, pos, targets[n], k);
      CallShifts(after, pos, targets[n], k, at, ys);
    }
  }

  /** An inserted line that calls the builder belongs to the last target. */
  lemma {:induction false} OtherCallsShift(
      after: seq<Line>, pos: seq<nat>, targets: seq<Target>, at: nat, ys: seq<Line>, more: seq<Target>)
    requires NoOtherCalls(after, pos, targets) && at <= |after|
    requires forall m :: 0 <= m < |ys| && ys[m].callsBuilder ==>
               exists n :: 0 <= n < |more|
                 && CallHere(InsertLines(after, at, ys), Shifted(pos, at, |ys|), more[n], at + m)
    ensures NoOtherCalls(InsertLines(after, at, ys), Shifted(pos, at, |ys|), targets + more)
  {
    var later, moved := InsertLines(after, at, ys), Shifted(pos, at, |ys|);
    forall k | 0 <= k < |later| && k !in moved && later[k].callsBuilder
      ensures exists n :: 0 <= n < |targets + more| && CallHere(later, moved, (targets + more)[n], k)
    {
      if at <= k < at + |ys| {
        InsertedNew(after, at, ys, k);
        var n :| 0 <= n < |more| && CallHere(later, moved, more[n], at + (k - at));
        assert (targets + more)[|targets| + n] == more[n];
      } else {
        var j := Unshift(k, at, |ys|);
        InsertedOld(after, at, ys, j);
        assert forall i :: 0 <= i < |pos| ==> moved[i] == Shift(pos[i], at, |ys|) && moved[i] in moved;
        assert j !in pos;
        var n :| 0 <= n < |targets| && CallHere(after, pos, targets[n], j);
        CallShifts(after, pos, targets[n], j, at, ys);
        assert (targets + more)[n] == targets[n];
      }
    }
  }

  /** What a run keeps true while it goes up the file. */
  ghost predicate CallsTracked(after: seq<Line>, pos: seq<nat>, targets: seq<Target>, low: nat) {
    EveryCallStands(after, pos, targets) && NoOtherCalls(after, pos, targets) && StillAbove(pos, low)
  }

  lemma {:induction false} CommaTracks(after: seq<Line>, pos: seq<nat>, targets: seq<Target>, k: nat)
    requires k < |after| && EveryCallStands(after, pos, targets) && NoOtherCalls(after, pos, targets)
    ensures EveryCallStands(after[k := WithComma(after[k])], pos, targets)
    ensures NoOtherCalls(after[k := WithComma(after[k])], pos, targets)
  {
    var later := after[k := WithComma(after[k])];
    assert forall j :: 0 <= j < |after| ==> later[j].callsBuilder == after[j].callsBuilder;
    forall n | 0 <= n < |targets|
      ensures CallStands(later, pos, targets[n])
    {
      var j :| CallHere(after, pos, targets[n], j);
      assert CallHere(later, pos, targets[n], j);
    }
    forall j | 0 <= j < |later| && j !in pos && later[j].callsBuilder
      ensures exists n :: 0 <= n < |targets| && CallHere(later, pos, targets[n], j)
    {
      var n :| 0 <= n < |targets| && CallHere(after, pos, targets[n], j);
      assert CallHere(later, pos, targets[n], j);
    }
  }

  /** The comma and the entry of an edit. */
  lemma {:induction false} EntryTracks(
      after: seq<Line>, pos: seq<nat>, targets: seq<Target>, low: nat, t: Target)
    requires CallsTracked(after, pos, targets, low) && Fits(after, t) && t.call <= low
    ensures var e := EditOf(after, t);
            CallsTracked(WithEntry(after, e), AfterEntry(pos, e), targets, t.call)
  {
    var e := EditOf(after, t);
    if e.comma.Some? {
      CommaTracks(after, pos, targets, e.comma.value);
    }
    if e.entryAt.Some? {
      CallsShift(Commaed(after, e), pos, targets, e.entryAt.value, [e.entry]);
      OtherCallsShift(Commaed(after, e), pos, targets, e.entryAt.value, [e.entry], []);
      assert targets + [] == targets;
    }
  }

  lemma {:induction false} NewCall(after: seq<Line>, pos: seq<nat>, t: Target, ys: seq<Line>)
    requires 0 < t.call < |pos| && Ascends(pos, |after|) && StillAbove(pos, t.call)
    requires ys != [] && ys[0].callsBuilder
    ensures t.call <= |after| && CallHere(InsertLines(after, t.call, ys), Shifted(pos, t.call, |ys|), t, t.call)
  {
    NeverUp(pos, |after|, t.call);
    InsertedNew(after, t.call, ys, t.call);
  }

  lemma {:induction false} OneMoreStands(after: seq<Line>, pos: seq<nat>, targets: seq<Target>, t: Target, k: nat)
    requires EveryCallStands(after, pos, targets) && CallHere(after, pos, t, k)
    ensures EveryCallStands(after, pos, targets + [t])
  {
    forall n | 0 <= n < |targets + [t]|
      ensures CallStands(after, pos, (targets + [t])[n])
    {
      assert (targets + [t])[n] == if n < |targets| then targets[n] else t;
    }
  }

  lemma {:induction false} StillAboveShifted(pos: seq<nat>, at: nat, n: nat)
    requires StillAbove(pos, at)
    ensures StillAbove(Shifted(pos, at, n), at)
  {
  }

  lemma {:induction false} CallTracks(
      after: seq<Line>, pos: seq<nat>, targets: seq<Target>, t: Target, ys: seq<Line>)
    requires CallsTracked(after, pos, targets, t.call) && 0 < t.call < |pos| && Ascends(pos, |after|)
    requires ys != [] && ys[0].callsBuilder && forall n :: 0 < n < |ys| ==> !ys[n].callsBuilder
    ensures t.call <= |after|
    ensures CallsTracked(InsertLines(after, t.call, ys), Shifted(pos, t.call, |ys|), targets + [t], t.call)
  {
    NewCall(after, pos, t, ys);
    CallsShift(after, pos, targets, t.call, ys);
    OneMoreStands(InsertLines(after, t.call, ys), Shifted(pos, t.call, |ys|), targets, t, t.call);
    assert [t][0] == t;
    OtherCallsShift(after, pos, targets, t.call, ys, [t]);
    StillAboveShifted(pos, t.call, |ys|);
  }

  lemma {:induction false} FitsLater(lines: seq<Line>, after: seq<Line>, pos: seq<nat>, t: Target)
    requires |pos| == |lines| && Ascends(pos, |after|) && Fits(lines, t)
    ensures Fits(after, t) && t.call < |pos|
  {
    NeverUp(pos, |after|, |lines| - 1);
  }

  lemma {:induction false} StepTracks(after: seq<Line>, pos: seq<nat>, targets: seq<Target>, low: nat, t: Target)
    requires Fits(after, t) && t.call < |pos| && Ascends(pos, |after|)
    requires CallsTracked(after, pos, targets, low) && t.call <= low
    ensures CallsTracked(ApplyTarget(after, t), Stepped(after, pos, t), targets + [t], t.call)
  {
    var e := EditOf(after, t);
    EntryTracks(after, pos, targets, low, t);
    if e.entryAt.Some? {
      ShiftedAscends(pos, |after|, e.entryAt.value, 1);
    }
    CallsAreNeutral(t.patch, after[t.call].indent);
    CallTracks(WithEntry(after, e), AfterEntry(pos, e), targets, t, e.callLines);
  }

  lemma {:induction false} RunTracks(lines: seq<Line>, targets: seq<Target>, patches: seq<Patch>)
    requires FromPatches(targets, patches) && AllFit(lines, targets) && Descends(targets)
    ensures CallsTracked(ApplyInOrder(lines, targets), Placed(lines, targets), targets, Low(lines, targets))
    decreases |targets|
  {
    if targets == [] {
      forall k | 0 <= k < |lines|
        ensures k in Standing(|lines|)
      {
        assert Standing(|lines|)[k] == k;
      }
    } else {
      var init, t := targets[..|targets| - 1], targets[|targets| - 1];
      RunTracks(lines, init, patches);
      RunGrows(lines, init, patches);
      FitsLater(lines, ApplyInOrder(lines, init), Placed(lines, init), t);
      StepTracks(ApplyInOrder(lines, init), Placed(lines, init), init, Low(lines, init), t);
      InitLast(targets);
    }
  }

  // ----- is the builder called in the method?

  lemma {:induction false} FirstLess(lines: seq<Line>, i: nat, e: nat, p: Line -> bool)
    requires i <= e <= |lines|
    ensures First(lines, i, p) < e <==> exists k :: i <= k < e && p(lines[k])
    decreases e - i
  {
    if i < e && !p(lines[i]) {
      FirstLess(lines, i + 1, e, p);
    }
  }

  /** A planned call goes into the method, below its first line. */
  ghost predicate CallGoesIn(targets: seq<Target>, s: nat, e: nat) {
    exists n :: 0 <= n < |targets| && s < targets[n].call <= e
  }

  lemma {:induction false} CallInside(
      lines: seq<Line>, after: seq<Line>, pos: seq<nat>, t: Target, k: nat, s: nat, e: nat)
    requires |pos| == |lines| && Ascends(pos, |after|) && s < e <= |lines| && CallHere(after, pos, t, k)
    ensures pos[s] <= k < Moved(after, pos, e) <==> s < t.call <= e
  {
    assert s < t.call ==> s == t.call - 1 || pos[s] < pos[t.call - 1];
    assert t.call <= s ==> t.call == s || pos[t.call] < pos[s];
    if e < |lines| {
      assert t.call <= e ==> t.call == e || pos[t.call] < pos[e];
      assert e < t.call ==> e == t.call - 1 || pos[e] < pos[t.call - 1];
    }
  }

  lemma {:induction false} KeptInside(lines: seq<Line>, after: seq<Line>, pos: seq<nat>, i: nat, s: nat, e: nat)
    requires |pos| == |lines| && Ascends(pos, |after|) && s < e <= |lines| && i < |lines|
    ensures pos[s] <= pos[i] < Moved(after, pos, e) <==> s <= i < e
  {
    assert s < i ==> pos[s] < pos[i];
    assert i < s ==> pos[i] < pos[s];
    if e < |lines| {
      assert i < e ==> pos[i] < pos[e];
      assert e < i ==> pos[e] < pos[i];
    }
  }

  lemma {:induction false} CallFound(
      lines: seq<Line>, after: seq<Line>, pos: seq<nat>, patches: seq<Patch>, targets: seq<Target>, s: nat, e: nat)
    requires Grown(lines, after, pos, patches) && NoOtherCalls(after, pos, targets) && s < e <= |lines|
    requires First(after, pos[s], CallsBuilder()) < Moved(after, pos, e)
    ensures First(lines, s, CallsBuilder()) < e || CallGoesIn(targets, s, e)
  {
    var k := First(after, pos[s], CallsBuilder());
    if k in pos {
      var i :| 0 <= i < |pos| && pos[i] == k;
      KeptInside(lines, after, pos, i, s, e);
      LineKept(lines, after, pos, patches, i);
      FirstLess(lines, s, e, CallsBuilder());
      assert CallsBuilder()(lines[i]);
    } else {
      var n :| 0 <= n < |targets| && CallHere(after, pos, targets[n], k);
      CallInside(lines, after, pos, targets[n], k, s, e);
    }
  }

  lemma {:induction false} FoundBefore(
      lines: seq<Line>, after: seq<Line>, pos: seq<nat>, s: nat, e: nat, k: nat)
    requires |pos| == |lines| && Ascends(pos, |after|) && s < e <= |lines|
    requires pos[s] <= k < Moved(after, pos, e) && k < |after| && after[k].callsBuilder
    ensures First(after, pos[s], CallsBuilder()) < Moved(after, pos, e)
  {
    FirstLess(after, pos[s], Moved(after, pos, e), CallsBuilder());
    assert CallsBuilder()(after[k]);
  }

  lemma {:induction false} OldCallStays(
      lines: seq<Line>, after: seq<Line>, pos: seq<nat>, patches: seq<Patch>, s: nat, e: nat)
    requires Grown(lines, after, pos, patches) && s < e <= |lines| && First(lines, s, CallsBuilder()) < e
    ensures First(after, pos[s], CallsBuilder()) < Moved(after, pos, e)
  {
    var i := First(lines, s, CallsBuilder());
    KeptInside(lines, after, pos, i, s, e);
    LineKept(lines, after, pos, patches, i);
    FoundBefore(lines, after, pos, s, e, pos[i]);
  }

  lemma {:induction false} NewCallStays(
      lines: seq<Line>, after: seq<Line>, pos: seq<nat>, targets: seq<Target>, s: nat, e: nat)
    requires |pos| == |lines| && Ascends(pos, |after|) && EveryCallStands(after, pos, targets)
    requires s < e <= |lines| && CallGoesIn(targets, s, e)
    ensures First(after, pos[s], CallsBuilder()) < Moved(after, pos, e)
  {
    var n :| 0 <= n < |targets| && s < targets[n].call <= e;
    assert CallStands(after, pos, targets[n]);
    var k :| CallHere(after, pos, targets[n], k);
    CallInside(lines, after, pos, targets[n], k, s, e);
    FoundBefore(lines, after, pos, s, e, k);
  }

  // ----- has the method a place?

  lemma {:induction false} LastReturnIs(lines: seq<Line>, s: nat, e: nat)
    requires e <= |lines|
    ensures var r := LastReturn(lines, s, e);
            forall k :: (if r.Some? then r.value else s) < k < e ==> !lines[k].head.Return?
    decreases e
  {
    if e > s + 1 && !lines[e - 1].head.Return? {
      LastReturnIs(lines, s, e - 1);
    }
  }

  lemma {:induction false} LastReturnAt(lines: seq<Line>, s: nat, e: nat, r: nat)
    requires s < r < e <= |lines| && lines[r].head.Return? && forall k :: r < k < e ==> !lines[k].head.Return?
    ensures LastReturn(lines, s, e) == Some(r)
  {
    LastReturnIs(lines, s, e);
  }

  /** Looking back stops at this line. */
  predicate Hit(lines: seq<Line>, k: nat)
    requires k < |lines|
  {
    || (lines[k].updates && lines[k].holdsBrace)
    || (lines[k].updates && k + 1 < |lines| && lines[k + 1].head.OpenBrace?)
    || lines[k].assignsContext
  }

  lemma {:induction false} LookBackFinds(lines: seq<Line>, low: nat, i: nat)
    requires i < |lines|
    ensures LookBack(lines, low, i).Some? <==> exists k :: low < k <= i && Hit(lines, k)
    decreases i
  {
    if i > low && !Hit(lines, i) {
      LookBackFinds(lines, low, i - 1);
    }
  }

  /** No return below line `q` and above line `e`. */
  ghost predicate NoReturnIn(lines: seq<Line>, q: nat, e: nat)
    requires e <= |lines|
  {
    forall k :: q < k < e ==> !lines[k].head.Return?
  }

  /** The return at `q` is the method's last one and has a dictionary to give the key to. */
  ghost predicate PlaceAt(lines: seq<Line>, s: nat, e: nat, q: nat) {
    && s < q < e <= |lines| && NoReturnIn(lines, q, e)
    && (|| lines[q].head == Return(ReturnDict)
        || (lines[q].head == Return(ReturnTemplate)
            && exists k :: s < k < q && q - k < LOOK_BACK && Hit(lines, k)))
  }

  lemma {:induction false} PlaceExactly(lines: seq<Line>, s: nat, e: nat)
    requires s < e <= |lines|
    ensures InsertionPoint(lines, s, e).Some? <==> exists q :: PlaceAt(lines, s, e, q)
  {
    LastReturnIs(lines, s, e);
    var last := LastReturn(lines, s, e);
    if last.Some? {
      LookBackFinds(lines, if s + LOOK_BACK <= last.value then last.value - LOOK_BACK else s, last.value - 1);
      assert InsertionPoint(lines, s, e).Some? <==> PlaceAt(lines, s, e, last.value);
    }
    forall q: nat | PlaceAt(lines, s, e, q)
      ensures last == Some(q)
    {
      LastReturnAt(lines, s, e, q);
    }
  }

  // ----- what the run does to a method's place

  /** A bare return that gained a comma. */
  ghost predicate LostReturn(lines: seq<Line>, after: seq<Line>, pos: seq<nat>, r: nat)
    requires r < |lines| == |pos| && Ascends(pos, |after|)
  {
    lines[r].head == Return(ReturnBare) && after[pos[r]] != lines[r]
  }

  /** Looking back still stops at this line; a brace on the line below must still be right below. */
  predicate HitStays(lines: seq<Line>, pos: seq<nat>, k: nat)
    requires k < |lines| == |pos|
  {
    || (lines[k].updates && lines[k].holdsBrace)
    || (lines[k].updates && k + 1 < |lines| && pos[k + 1] == pos[k] + 1 && lines[k + 1].head.OpenBrace?)
    || lines[k].assignsContext
  }

  /** All returns below `q` are lost, and `q` has a dictionary to give the key to. */
  ghost predicate PlaceLeft(lines: seq<Line>, after: seq<Line>, pos: seq<nat>, s: nat, e: nat, q: nat)
    requires |lines| == |pos| && Ascends(pos, |after|)
  {
    && s < q < e <= |lines|
    && (forall r :: q < r < e && lines[r].head.Return? ==> LostReturn(lines, after, pos, r))
    && (|| lines[q].head == Return(ReturnDict)
        || (lines[q].head == Return(ReturnTemplate)
            && exists k :: s < k < q && pos[q] - pos[k] < LOOK_BACK && HitStays(lines, pos, k)))
  }

  lemma {:induction false} BraceBelowMoves(
      lines: seq<Line>, after: seq<Line>, pos: seq<nat>, patches: seq<Patch>, k: nat)
    requires Grown(lines, after, pos, patches) && k < |lines|
    ensures pos[k] + 1 < |after| && after[pos[k] + 1].head.OpenBrace? <==>
            k + 1 < |lines| && pos[k + 1] == pos[k] + 1 && lines[k + 1].head.OpenBrace?
  {
    if k + 1 < |lines| {
      assert pos[k] < pos[k + 1];
      LineKept(lines, after, pos, patches, k + 1);
    }
    if pos[k] + 1 < Moved(after, pos, k + 1) {
      GapIsFree(pos, |after|, k + 1, pos[k] + 1);
      AddedIsNeutral(after[pos[k] + 1], patches);
    }
  }

  lemma {:induction false} HitMoves(
      lines: seq<Line>, after: seq<Line>, pos: seq<nat>, patches: seq<Patch>, k: nat)
    requires Grown(lines, after, pos, patches) && k < |lines|
    ensures Hit(after, pos[k]) <==> HitStays(lines, pos, k)
  {
    LineKept(lines, after, pos, patches, k);
    BraceBelowMoves(lines, after, pos, patches, k);
  }

  lemma {:induction false} ReturnMoves(
      lines: seq<Line>, after: seq<Line>, pos: seq<nat>, patches: seq<Patch>, r: nat)
    requires Grown(lines, after, pos, patches) && r < |lines|
    ensures after[pos[r]].head.Return? <==> lines[r].head.Return? && !LostReturn(lines, after, pos, r)
    ensures after[pos[r]].head.Return? ==> after[pos[r]].head == lines[r].head
  {
    LineKept(lines, after, pos, patches, r);
  }

  lemma {:induction false} FoundKept(
      lines: seq<Line>, after: seq<Line>, pos: seq<nat>, patches: seq<Patch>, k: nat) returns (i: nat)
    requires Grown(lines, after, pos, patches) && k < |after| && !Neutral(after[k])
    ensures i < |lines| && pos[i] == k
  {
    if k !in pos {
      AddedIsNeutral(after[k], patches);
    }
    i :| 0 <= i < |pos| && pos[i] == k;
  }

  lemma {:induction false} PlaceWasLeft(
      lines: seq<Line>, after: seq<Line>, pos: seq<nat>, patches: seq<Patch>, s: nat, e: nat, there: nat)
    returns (q: nat)
    requires Grown(lines, after, pos, patches) && s < e <= |lines|
    requires PlaceAt(after, pos[s], Moved(after, pos, e), there)
    ensures PlaceLeft(lines, after, pos, s, e, q)
  {
    q := FoundKept(lines, after, pos, patches, there);
    KeptInside(lines, after, pos, q, s, e);
    ReturnMoves(lines, after, pos, patches, q);
    LostBelow(lines, after, pos, patches, q, e);
    if lines[q].head == Return(ReturnTemplate) {
      HitWasThere(lines, after, pos, patches, s, e, q);
    }
  }

  lemma {:induction false} LostBelow(
      lines: seq<Line>, after: seq<Line>, pos: seq<nat>, patches: seq<Patch>, q: nat, e: nat)
    requires Grown(lines, after, pos, patches) && q < e <= |lines|
    requires NoReturnIn(after, pos[q], Moved(after, pos, e))
    ensures forall r :: q < r < e && lines[r].head.Return? ==> LostReturn(lines, after, pos, r)
  {
    forall r | q < r < e && lines[r].head.Return?
      ensures LostReturn(lines, after, pos, r)
    {
      KeptInside(lines, after, pos, r, q, e);
      ReturnMoves(lines, after, pos, patches, r);
    }
  }

  lemma {:induction false} NoReturnBelow(
      lines: seq<Line>, after: seq<Line>, pos: seq<nat>, patches: seq<Patch>, q: nat, e: nat)
    requires Grown(lines, after, pos, patches) && q < e <= |lines|
    requires forall r :: q < r < e && lines[r].head.Return? ==> LostReturn(lines, after, pos, r)
    ensures NoReturnIn(after, pos[q], Moved(after, pos, e))
  {
    forall k | pos[q] < k < Moved(after, pos, e)
      ensures !after[k].head.Return?
    {
      if !Neutral(after[k]) {
        var r := FoundKept(lines, after, pos, patches, k);
        KeptInside(lines, after, pos, r, q, e);
        ReturnMoves(lines, after, pos, patches, r);
      }
    }
  }

  lemma {:induction false} HitWasThere(
      lines: seq<Line>, after: seq<Line>, pos: seq<nat>, patches: seq<Patch>, s: nat, e: nat, q: nat)
    requires Grown(lines, after, pos, patches) && s < q < e <= |lines|
    requires exists k :: pos[s] < k < pos[q] && pos[q] - k < LOOK_BACK && Hit(after, k)
    ensures exists k :: s < k < q && pos[q] - pos[k] < LOOK_BACK && HitStays(lines, pos, k)
  {
    var k :| pos[s] < k < pos[q] && pos[q] - k < LOOK_BACK && Hit(after, k);
    var i := FoundKept(lines, after, pos, patches, k);
    KeptInside(lines, after, pos, i, s, q);
    HitMoves(lines, after, pos, patches, i);
  }

  lemma {:induction false} PlaceIsLeft(
      lines: seq<Line>, after: seq<Line>, pos: seq<nat>, patches: seq<Patch>, s: nat, e: nat, q: nat)
    requires Grown(lines, after, pos, patches) && PlaceLeft(lines, after, pos, s, e, q)
    ensures PlaceAt(after, pos[s], Moved(after, pos, e), pos[q])
  {
    KeptInside(lines, after, pos, q, s, e);
    ReturnMoves(lines, after, pos, patches, q);
    NoReturnBelow(lines, after, pos, patches, q, e);
    if lines[q].head == Return(ReturnTemplate) {
      var k :| s < k < q && pos[q] - pos[k] < LOOK_BACK && HitStays(lines, pos, k);
      HitMoves(lines, after, pos, patches, k);
      assert pos[s] < pos[k] < pos[q];
    }
  }

  /** After the run a method offers a place exactly when one is left of its own lines. */
  lemma {:induction false} PlaceMoves(
      lines: seq<Line>, after: seq<Line>, pos: seq<nat>, patches: seq<Patch>, s: nat, e: nat)
    requires Grown(lines, after, pos, patches) && s < e <= |lines|
    ensures pos[s] < Moved(after, pos, e) <= |after|
    ensures InsertionPoint(after, pos[s], Moved(after, pos, e)).Some? <==>
              exists q :: PlaceLeft(lines, after, pos, s, e, q)
  {
    KeptInside(lines, after, pos, s, s, e);
    PlaceExactly(after, pos[s], Moved(after, pos, e));
    if there :| PlaceAt(after, pos[s], Moved(after, pos, e), there) {
      var q := PlaceWasLeft(lines, after, pos, patches, s, e, there);
    }
    if q :| PlaceLeft(lines, after, pos, s, e, q) {
      PlaceIsLeft(lines, after, pos, patches, s, e, q);
    }
  }

  // ----- a second run

  /**
   A patch that left its method alone finds it spoiled: nothing called the builder
   in it, no planned call went into it, yet of its own lines a place is left. Its
   last return must have been a bare one that gained a comma.
   */
  ghost predicate Reopened(
      lines: seq<Line>, after: seq<Line>, pos: seq<nat>, targets: seq<Target>, p: Patch)
    requires |lines| == |pos| && Ascends(pos, |after|)
  {
    var bounds := MethodBounds(lines, p.method_);
    && bounds.Some?
    && First(lines, bounds.value.0, CallsBuilder()) >= bounds.value.1
    && !CallGoesIn(targets, bounds.value.0, bounds.value.1)
    && exists q :: PlaceLeft(lines, after, pos, bounds.value.0, bounds.value.1, q)
  }

  lemma {:induction false} TargetExactly(lines: seq<Line>, p: Patch, s: nat, e: nat)
    requires MethodBounds(lines, p.method_) == Some((s, e))
    ensures s < e <= |lines|
    ensures TargetOf(lines, p).Some? <==> First(lines, s, CallsBuilder()) >= e && InsertionPoint(lines, s, e).Some?
  {
  }

  lemma {:induction false} FoundAgainExactly(
      lines: seq<Line>, after: seq<Line>, pos: seq<nat>, patches: seq<Patch>, targets: seq<Target>, p: Patch)
    requires Grown(lines, after, pos, patches)
    requires EveryCallStands(after, pos, targets) && NoOtherCalls(after, pos, targets)
    ensures TargetOf(after, p).Some? <==> Reopened(lines, after, pos, targets, p)
  {
    BoundsMove(lines, after, pos, patches, p.method_);
    var bounds := MethodBounds(lines, p.method_);
    if bounds.Some? {
      var s, e := bounds.value.0, bounds.value.1;
      TargetExactly(lines, p, s, e);
      TargetExactly(after, p, pos[s], Moved(after, pos, e));
      PlaceMoves(lines, after, pos, patches, s, e);
      if First(after, pos[s], CallsBuilder()) < Moved(after, pos, e) {
        CallFound(lines, after, pos, patches, targets, s, e);
      } else if First(lines, s, CallsBuilder()) < e {
        OldCallStays(lines, after, pos, patches, s, e);
      } else if CallGoesIn(targets, s, e) {
        NewCallStays(lines, after, pos, targets, s, e);
      }
    }
  }

  lemma {:induction false} PlannedFromTheEnd(lines: seq<Line>, patches: seq<Patch>)
    ensures AllFit(lines, Planned(lines, patches)) && Descends(Planned(lines, patches))
  {
    var found, planned := Collect(patches, Targets(lines)), Planned(lines, patches);
    PlannedFit(lines, patches);
    SortBySorted(found, FromTheEnd());
    forall n | 0 <= n < |planned|
      ensures Fits(lines, planned[n])
    {
      assert planned[n] in planned;
    }
    forall i, j | 0 <= i < j < |planned|
      ensures planned[j].call <= planned[i].call
    {
      assert !Less(FromTheEnd()(planned[j]), FromTheEnd()(planned[i]));
    }
  }

  lemma {:induction false} NothingPlannedExactly(lines: seq<Line>, patches: seq<Patch>)
    ensures Planned(lines, patches) == [] <==> forall p :: p in patches ==> TargetOf(lines, p).None?
  {
    CollectEmpty(patches, Targets(lines));
    assert |Planned(lines, patches)| == |multiset(Planned(lines, patches))|;
    assert |Collect(patches, Targets(lines))| == |multiset(Collect(patches, Targets(lines)))|;
    assert forall p :: Targets(lines)(p) == [] <==> TargetOf(lines, p).None?;
  }

  lemma {:induction false} EditLengthens(lines: seq<Line>, t: Target)
    requires Fits(lines, t)
    ensures |ApplyTarget(lines, t)| > |lines|
  {
    CallsAreNeutral(t.patch, lines[t.call].indent);
  }

  lemma {:induction false} RunLengthens(lines: seq<Line>, targets: seq<Target>)
    requires AllFit(lines, targets)
    ensures |ApplyInOrder(lines, targets)| >= |lines| + |targets|
    decreases |targets|
  {
    if targets != [] {
      RunLengthens(lines, targets[..|targets| - 1]);
      EditLengthens(ApplyInOrder(lines, targets[..|targets| - 1]), targets[|targets| - 1]);
    }
  }

  lemma {:induction false} ImportIsThere(content: seq<Line>)
    ensures exists i :: 0 <= i < |Prepared(content)|
                        && (Prepared(content)[i].isImportLine || Prepared(content)[i].importsFilters)
  {
    var lines := Prepared(content);
    if !HasImportLine(content) && !ImportsFilters(content) {
      assert ImportLine() in lines;
    }
    var l :| l in lines && (l.isImportLine || l.importsFilters);
    var i :| 0 <= i < |lines| && lines[i] == l;
  }

  lemma {:induction false} ImportStays(content: seq<Line>, after: seq<Line>, pos: seq<nat>, patches: seq<Patch>)
    requires Grown(Prepared(content), after, pos, patches)
    ensures Prepared(after) == after
  {
    ImportIsThere(content);
    var lines := Prepared(content);
    var i :| 0 <= i < |lines| && (lines[i].isImportLine || lines[i].importsFilters);
    LineKept(lines, after, pos, patches, i);
    assert after[pos[i]] in after;
  }

  ghost predicate Imports(lines: seq<Line>) {
    exists k :: 0 <= k < |lines| && (lines[k].isImportLine || lines[k].importsFilters)
  }

  lemma {:induction false} ImportKept(content: seq<Line>, after: seq<Line>, pos: seq<nat>, patches: seq<Patch>)
    requires Grown(Prepared(content), after, pos, patches)
    ensures Imports(after)
  {
    ImportIsThere(content);
    var lines := Prepared(content);
    var i :| 0 <= i < |lines| && (lines[i].isImportLine || lines[i].importsFilters);
    LineKept(lines, after, pos, patches, i);
    assert after[pos[i]].isImportLine || after[pos[i]].importsFilters;
  }

  lemma {:induction false} CallsArrive(lines: seq<Line>, patches: seq<Patch>)
    ensures var planned := Planned(lines, patches);
            EveryCallStands(ApplyInOrder(lines, planned), Placed(lines, planned), planned)
  {
    PlannedFromPatches(lines, patches);
    PlannedFromTheEnd(lines, patches);
    RunTracks(lines, Planned(lines, patches), patches);
  }

  /** A file in which some method is patched has the import afterwards, in some form, and the call of every patch. */
  lemma {:induction false} ImportAndCallsArrive(content: seq<Line>, patches: seq<Patch>)
    requires Planned(Prepared(content), patches) != []
    ensures Imports(PatchedFile(content, patches))
    ensures EveryCallStands(PatchedFile(content, patches),
                            Placed(Prepared(content), Planned(Prepared(content), patches)),
                            Planned(Prepared(content), patches))
  {
    var lines := Prepared(content);
    PlannedFromPatches(lines, patches);
    RunGrows(lines, Planned(lines, patches), patches);
    ImportKept(content, ApplyInOrder(lines, Planned(lines, patches)), Placed(lines, Planned(lines, patches)), patches);
    CallsArrive(lines, patches);
  }

  lemma {:induction false} PlannedFindsAgain(lines: seq<Line>, patches: seq<Patch>, p: Patch)
    ensures var planned := Planned(lines, patches); var pos := Placed(lines, planned);
            && |pos| == |lines| && Ascends(pos, |ApplyInOrder(lines, planned)|)
            && (TargetOf(ApplyInOrder(lines, planned), p).Some? <==>
                Reopened(lines, ApplyInOrder(lines, planned), pos, planned, p))
  {
    var planned := Planned(lines, patches);
    PlannedFromTheEnd(lines, patches);
    PlannedFromPatches(lines, patches);
    RunGrows(lines, planned, patches);
    RunTracks(lines, planned, patches);
    FoundAgainExactly(lines, ApplyInOrder(lines, planned), Placed(lines, planned), patches, planned, p);
  }

  /** The methods a run leaves spoiled. */
  ghost predicate ReopenedBy(content: seq<Line>, patches: seq<Patch>, p: Patch) {
    var lines := Prepared(content);
    var planned := Planned(lines, patches);
    var after, pos := ApplyInOrder(lines, planned), Placed(lines, planned);
    |pos| == |lines| && Ascends(pos, |after|) && Reopened(lines, after, pos, planned, p)
  }

  /**
   Over any file and any patches a second run leaves the file as the first one left
   it, exactly when the first one spoiled no method it had nothing to do for.
   */
  lemma {:induction false} SecondRunExactly(content: seq<Line>, patches: seq<Patch>)
    ensures PatchedFile(PatchedFile(content, patches), patches) == PatchedFile(content, patches) <==>
            forall p :: p in patches ==> !ReopenedBy(content, patches, p)
  {
    var lines := Prepared(content);
    var planned := Planned(lines, patches);
    var after := ApplyInOrder(lines, planned);
    forall p
      ensures TargetOf(after, p).Some? <==> ReopenedBy(content, patches, p)
    {
      PlannedFindsAgain(lines, patches, p);
    }
    NothingPlannedExactly(lines, patches);
    NothingPlannedExactly(after, patches);
    if planned != [] {
      PlannedFromPatches(lines, patches);
      RunGrows(lines, planned, patches);
      ImportStays(content, after, Placed(lines, planned), patches);
      PlannedFromTheEnd(after, patches);
      RunLengthens(after, Planned(after, patches));
    }
  }

  // ----- when nothing is spoiled

  lemma {:induction false} PlaceWasThere(
      lines: seq<Line>, after: seq<Line>, pos: seq<nat>, s: nat, e: nat, q: nat)
    requires |lines| == |pos| && Ascends(pos, |after|) && PlaceLeft(lines, after, pos, s, e, q)
    requires forall r :: s < r < e ==> !LostReturn(lines, after, pos, r)
    ensures PlaceAt(lines, s, e, q)
  {
    if lines[q].head == Return(ReturnTemplate) {
      var k :| s < k < q && pos[q] - pos[k] < LOOK_BACK && HitStays(lines, pos, k);
      GapsGrow(pos, |after|, k, q);
      assert Hit(lines, k);
    }
  }

  lemma {:induction false} TargetGoesIn(lines: seq<Line>, patches: seq<Patch>, p: Patch, s: nat, e: nat)
    requires p in patches && TargetOf(lines, p).Some? && MethodBounds(lines, p.method_) == Some((s, e))
    ensures CallGoesIn(Planned(lines, patches), s, e)
  {
    var t := TargetOf(lines, p).value;
    CollectMembers(patches, Targets(lines));
    assert t in Targets(lines)(p);
    assert t in Planned(lines, patches);
    var n :| 0 <= n < |Planned(lines, patches)| && Planned(lines, patches)[n] == t;
    assert s < t.call <= e;
  }

  lemma {:induction false} LosesItsReturn(
      lines: seq<Line>, after: seq<Line>, pos: seq<nat>, patches: seq<Patch>, p: Patch, s: nat, e: nat)
    requires |lines| == |pos| && Ascends(pos, |after|) && p in patches
    requires Reopened(lines, after, pos, Planned(lines, patches), p) && MethodBounds(lines, p.method_) == Some((s, e))
    ensures s < e <= |lines| && exists r :: s < r < e && LostReturn(lines, after, pos, r)
  {
    TargetExactly(lines, p, s, e);
    var q :| PlaceLeft(lines, after, pos, s, e, q);
    if forall r :: s < r < e ==> !LostReturn(lines, after, pos, r) {
      PlaceWasThere(lines, after, pos, s, e, q);
      PlaceExactly(lines, s, e);
      TargetGoesIn(lines, patches, p, s, e);
    }
  }

  /** In the method of that name a line that now stands elsewhere lost its bare return. */
  ghost predicate LosesReturn(lines: seq<Line>, after: seq<Line>, pos: seq<nat>, name: string) {
    var bounds := MethodBounds(lines, name);
    && |pos| == |lines| && Ascends(pos, |after|) && bounds.Some? && bounds.value.1 <= |lines|
    && exists r :: bounds.value.0 < r < bounds.value.1 && LostReturn(lines, after, pos, r)
  }

  /** The run put a comma behind a bare return in the method that `p` names. */
  ghost predicate CommaBehindReturn(content: seq<Line>, patches: seq<Patch>, p: Patch) {
    var lines := Prepared(content);
    var planned := Planned(lines, patches);
    LosesReturn(lines, ApplyInOrder(lines, planned), Placed(lines, planned), p.method_)
  }

  lemma {:induction false} ReopenedLosesReturn(
      lines: seq<Line>, after: seq<Line>, pos: seq<nat>, patches: seq<Patch>, p: Patch)
    requires |lines| == |pos| && Ascends(pos, |after|) && p in patches
    requires Reopened(lines, after, pos, Planned(lines, patches), p)
    ensures LosesReturn(lines, after, pos, p.method_)
  {
    var bounds := MethodBounds(lines, p.method_);
    LosesItsReturn(lines, after, pos, patches, p, bounds.value.0, bounds.value.1);
  }

  /** A spoiled method's last return was a bare one, and the run put a comma behind it. */
  lemma {:induction false} SpoiledByAComma(content: seq<Line>, patches: seq<Patch>, p: Patch)
    requires p in patches && ReopenedBy(content, patches, p)
    ensures CommaBehindReturn(content, patches, p)
  {
    var lines := Prepared(content);
    var planned := Planned(lines, patches);
    ReopenedLosesReturn(lines, ApplyInOrder(lines, planned), Placed(lines, planned), patches, p);
  }

  lemma {:induction false} NoCommaBehindReturn(content: seq<Line>, patches: seq<Patch>, p: Patch)
    requires forall l :: l in content ==> l.head != Return(ReturnBare)
    ensures !CommaBehindReturn(content, patches, p)
  {
    var lines := Prepared(content);
    forall i | 0 <= i < |lines|
      ensures lines[i].head != Return(ReturnBare)
    {
      assert lines[i] in content || lines[i] == ImportLine();
    }
  }

  /** In a file without a bare `return` a second run changes nothing. */
  lemma {:induction false} NoBareReturnNothingSpoiled(content: seq<Line>, patches: seq<Patch>)
    requires forall l :: l in content ==> l.head != Return(ReturnBare)
    ensures PatchedFile(PatchedFile(content, patches), patches) == PatchedFile(content, patches)
  {
    SecondRunExactly(content, patches);
    forall p | p in patches
      ensures !ReopenedBy(content, patches, p)
    {
      NoCommaBehindReturn(content, patches, p);
      if ReopenedBy(content, patches, p) {
        SpoiledByAComma(content, patches, p);
      }
    }
  }

  // ----- a file that is spoiled

  function PlainLine(indent: nat, head: Head): Line { Written("", indent).(head := head, endsWithComma := false) }

  /** A dictionary that stays open, holding a brace in a text, and behind it a method ending in a bare return. */
  function Spoiled(): seq<Line> {
    [ImportLine(),
     PlainLine(4, Def).(defines := Some("a")),
     PlainLine(8, Return(ReturnDict)).(braces := 2),
     PlainLine(4, Def).(defines := Some("b")),
     PlainLine(8, Return(ReturnDict)),
     PlainLine(8, Return(ReturnBare)),
     PlainLine(8, Other).(braces := -2)]
  }

  function BothMethods(): seq<Patch> { [Patch("a", "", None, None), Patch("b", "", None, None)] }

  lemma {:induction false} SpoiledMethods()
    ensures MethodBounds(Spoiled(), "a") == Some((1, 3)) && MethodBounds(Spoiled(), "b") == Some((3, 7))
  {
    var lines := Spoiled();
    assert First(lines, 1, Defines("a")) == 1 && First(lines, 0, Defines("a")) == 1;
    assert First(lines, 3, EndsMethod(4)) == 3 && First(lines, 2, EndsMethod(4)) == 3;
    assert First(lines, 3, Defines("b")) == 3 && First(lines, 2, Defines("b")) == 3;
    assert First(lines, 1, Defines("b")) == 3 && First(lines, 0, Defines("b")) == 3;
    assert First(lines, 7, EndsMethod(4)) == 7 && First(lines, 6, EndsMethod(4)) == 7;
    assert First(lines, 5, EndsMethod(4)) == 7 && First(lines, 4, EndsMethod(4)) == 7;
  }

  lemma {:induction false} SpoiledTargets()
    ensures TargetOf(Spoiled(), BothMethods()[0]) == Some(Target(1, 3, 2, 2, BothMethods()[0]))
    ensures First(Spoiled(), 3, CallsBuilder()) == 7 && TargetOf(Spoiled(), BothMethods()[1]) == None
  {
    var lines := Spoiled();
    SpoiledMethods();
    forall k | 0 <= k < 7
      ensures !lines[k].callsBuilder
    {
    }
    SkipTo(lines, 3, 7, CallsBuilder());
    SkipTo(lines, 1, 7, CallsBuilder());
    LastReturnAt(lines, 1, 3, 2);
    LastReturnAt(lines, 3, 7, 5);
  }

  lemma {:induction false} SpoiledPlan()
    ensures Planned(Spoiled(), BothMethods()) == [Target(1, 3, 2, 2, BothMethods()[0])]
  {
    var lines, patches := Spoiled(), BothMethods();
    SpoiledTargets();
    assert patches[..1] == [patches[0]] && patches[..0] == [];
    assert patches[..1][..0] == [];
    assert Collect(patches[..1], Targets(lines)) == Targets(lines)(patches[0]);
    assert Collect(patches, Targets(lines)) == [Target(1, 3, 2, 2, patches[0])];
    SortBySame([Target(1, 3, 2, 2, patches[0])], FromTheEnd());
  }

  lemma {:induction false} SpoiledEdit(t: Target)
    requires t == Target(1, 3, 2, 2, BothMethods()[0])
    ensures EditOf(Spoiled(), t).entryAt == Some(6) && EditOf(Spoiled(), t).comma == Some(5)
    ensures |EditOf(Spoiled(), t).callLines| == 1
  {
    var lines := Spoiled();
    assert Closing(lines, 2, 6, 2) == Some(6) && Closing(lines, 2, 5, 2) == Some(6)
           && Closing(lines, 2, 4, 2) == Some(6);
    assert Closing(lines, 2, 3, 2) == Some(6) && Closing(lines, 2, 2, 0) == Some(6);
    assert !Mentioned(lines, 2, 6, 2) && !Mentioned(lines, 2, 5, 2) && !Mentioned(lines, 2, 4, 2);
    assert !Mentioned(lines, 2, 3, 2) && !Mentioned(lines, 2, 2, 0);
  }

  lemma {:induction false} SpoiledReturn(t: Target)
    requires t == Target(1, 3, 2, 2, BothMethods()[0])
    ensures |Stepped(Spoiled(), Standing(7), t)| == 7 && Stepped(Spoiled(), Standing(7), t)[5] == 6
    ensures |ApplyTarget(Spoiled(), t)| == 9 && ApplyTarget(Spoiled(), t)[6] == WithComma(Spoiled()[5])
  {
    var lines := Spoiled();
    SpoiledEdit(t);
    var e := EditOf(lines, t);
    InsertedOld(Commaed(lines, e), 6, [e.entry], 5);
    InsertedOld(WithEntry(lines, e), 2, e.callLines, 5);
    assert Standing(7)[5] == 5;
  }

  lemma {:induction false} SpoiledRun(t: Target)
    requires t == Target(1, 3, 2, 2, BothMethods()[0])
    ensures ApplyInOrder(Spoiled(), [t]) == ApplyTarget(Spoiled(), t)
    ensures Placed(Spoiled(), [t]) == Stepped(Spoiled(), Standing(7), t)
  {
    assert [t][..0] == [];
    assert ApplyInOrder(Spoiled(), []) == Spoiled() && Placed(Spoiled(), []) == Standing(7);
  }

  lemma {:induction false} SpoiledReopened(after: seq<Line>, pos: seq<nat>, targets: seq<Target>)
    requires |pos| == 7 && Ascends(pos, |after|) && after[pos[5]] == WithComma(Spoiled()[5])
    requires forall n :: 0 <= n < |targets| ==> targets[n].call == 2
    ensures Reopened(Spoiled(), after, pos, targets, BothMethods()[1])
  {
    SpoiledMethods();
    SpoiledTargets();
    assert PlaceLeft(Spoiled(), after, pos, 3, 7, 4);
  }

  lemma {:induction false} SpoiledIsPrepared()
    ensures Prepared(Spoiled()) == Spoiled()
  {
    assert Spoiled()[0] in Spoiled() && Spoiled()[0].isImportLine;
  }

  lemma {:induction false} RunReopens(content: seq<Line>, patches: seq<Patch>, planned: seq<Target>, p: Patch)
    requires Prepared(content) == content && Planned(content, patches) == planned
    requires |Placed(content, planned)| == |content|
    requires Ascends(Placed(content, planned), |ApplyInOrder(content, planned)|)
    requires Reopened(content, ApplyInOrder(content, planned), Placed(content, planned), planned, p)
    ensures ReopenedBy(content, patches, p)
  {
  }

  lemma {:induction false} SpoiledAscends(t: Target)
    requires t == Target(1, 3, 2, 2, BothMethods()[0])
    ensures |Placed(Spoiled(), [t])| == 7 && Ascends(Placed(Spoiled(), [t]), |ApplyInOrder(Spoiled(), [t])|)
  {
    SpoiledPlan();
    PlannedFindsAgain(Spoiled(), BothMethods(), BothMethods()[1]);
  }

  lemma {:induction false} SpoiledRunReopens(t: Target, after: seq<Line>, pos: seq<nat>)
    requires t == Target(1, 3, 2, 2, BothMethods()[0])
    requires after == ApplyInOrder(Spoiled(), [t]) && pos == Placed(Spoiled(), [t])
    ensures |pos| == |Spoiled()| && Ascends(pos, |after|) && Reopened(Spoiled(), after, pos, [t], BothMethods()[1])
  {
    SpoiledReturn(t);
    SpoiledRun(t);
    SpoiledAscends(t);
    SpoiledReopened(after, pos, [t]);
  }

  lemma {:induction false} SpoiledFile()
    ensures ReopenedBy(Spoiled(), BothMethods(), BothMethods()[1])
  {
    var t := Target(1, 3, 2, 2, BothMethods()[0]);
    SpoiledIsPrepared();
    SpoiledPlan();
    SpoiledRunReopens(t, ApplyInOrder(Spoiled(), [t]), Placed(Spoiled(), [t]));
    RunReopens(Spoiled(), BothMethods(), [t], BothMethods()[1]);
  }

  /** Here the run puts a comma behind the bare return, so the second run patches the second method. */
  lemma {:induction false} SecondRunCanPatch()
    ensures PatchedFile(PatchedFile(Spoiled(), BothMethods()), BothMethods()) != PatchedFile(Spoiled(), BothMethods())
  {
    SpoiledFile();
    SecondRunExactly(Spoiled(), BothMethods());
    assert BothMethods()[1] in BothMethods();
  }
}
