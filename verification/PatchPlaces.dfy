/**
 Where the source patcher puts things (scripts/add_active_filters.py), said of the
 lines themselves: the import, the bounds of a method, the call, the entry.
 */
module PatchPlaces {
  import opened Collections
  import opened FilterPatcher

  // ----- the import

  /** The lines at which the search for imports ends. */
  predicate Stops(line: Line) { line.head.ClassHead? || line.head.Def? || line.head.Logger? }

  /** Position `stop` is the first line that ends the search, or the end of the file. */
  ghost predicate FirstStop(lines: seq<Line>, stop: nat) {
    stop <= |lines| && (stop < |lines| ==> Stops(lines[stop])) && forall k :: 0 <= k < stop ==> !Stops(lines[k])
  }

  /** The last import above the first stop line; the first line when there is none. */
  ghost predicate ImportBehind(lines: seq<Line>, stop: nat, i: nat)
    requires stop <= |lines|
  {
    && (forall k :: i < k < stop ==> !lines[k].head.Import?)
    && ((i < stop && lines[i].head.Import?) || (i == 0 && (stop > 0 ==> !lines[0].head.Import?)))
  }

  lemma {:induction false} StopExists(lines: seq<Line>, from: nat) returns (stop: nat)
    requires from <= |lines| && forall k :: 0 <= k < from ==> !Stops(lines[k])
    ensures FirstStop(lines, stop)
    decreases |lines| - from
  {
    if from == |lines| || Stops(lines[from]) {
      stop := from;
    } else {
      stop := StopExists(lines, from + 1);
    }
  }

  lemma {:induction false} LastImportFrom(lines: seq<Line>, stop: nat, i: nat, last: nat)
    requires FirstStop(lines, stop) && i <= stop <= |lines|
    requires (last < i && lines[last].head.Import?) || last == 0
    requires forall k :: last < k < i ==> !lines[k].head.Import?
    ensures ImportBehind(lines, stop, LastImport(lines, i, last))
    decreases stop - i
  {
    if i < stop {
      LastImportFrom(lines, stop, i + 1, if lines[i].head.Import? then i else last);
    }
  }

  /** The new line stands right behind line `i`, at the end when there is no line `i`. */
  ghost predicate StandsBehind(lines: seq<Line>, after: seq<Line>, i: nat) {
    var at := if i + 1 <= |lines| then i + 1 else |lines|;
    && |after| == |lines| + 1 && after[..at] == lines[..at] && after[at + 1..] == lines[at..]
    && after[at].text == "from app.services.common_filters import build_active_filters"
    && after[at].indent == 0 && after[at].head.Import? && after[at].importsFilters
  }

  /**
   Without the import a file gains it behind the last import above the first class,
   function or logger, or behind its first line when there is none; with it, nothing.
   */
  lemma {:induction false} ImportGoesBehind(lines: seq<Line>) returns (stop: nat, i: nat)
    ensures FirstStop(lines, stop) && ImportBehind(lines, stop, i)
    ensures (exists k :: 0 <= k < |lines| && lines[k].importsFilters) ==> AddedImport(lines) == lines
    ensures (forall k :: 0 <= k < |lines| ==> !lines[k].importsFilters) ==> StandsBehind(lines, AddedImport(lines), i)
  {
    stop := StopExists(lines, 0);
    i := LastImport(lines, 0, 0);
    LastImportFrom(lines, stop, 0, 0);
    if k :| 0 <= k < |lines| && lines[k].importsFilters {
      assert lines[k] in lines;
    }
  }

  /** The import stands above the first class, function or logger exactly when the very first line is none. */
  lemma {:induction false} ImportStandsAboveExactly(lines: seq<Line>, stop: nat, i: nat)
    requires FirstStop(lines, stop) && ImportBehind(lines, stop, i) && lines != []
    ensures i + 1 <= stop <==> !Stops(lines[0])
  {
  }

  // ----- a method

  /** The method begins at the first line that defines the name and ends before the next one of its own level. */
  ghost predicate BoundsAre(lines: seq<Line>, name: string, s: nat, e: nat) {
    && s < e <= |lines| && lines[s].defines == Some(name)
    && (forall k :: 0 <= k < s ==> lines[k].defines != Some(name))
    && (e < |lines| ==> lines[e].indent <= lines[s].indent
                        && (lines[e].head.Def? || lines[e].head.ClassHead? || lines[e].head.Decorator?))
    && forall k :: s < k < e ==>
         !(lines[k].indent <= lines[s].indent
           && (lines[k].head.Def? || lines[k].head.ClassHead? || lines[k].head.Decorator?))
  }

  lemma {:induction false} FirstExactly(lines: seq<Line>, i: nat, p: Line -> bool)
    requires i <= |lines|
    ensures forall k :: i <= k < First(lines, i, p) ==> !p(lines[k])
    decreases |lines| - i
  {
    if i < |lines| && !p(lines[i]) {
      FirstExactly(lines, i + 1, p);
    }
  }

  lemma {:induction false} BoundsExactly(lines: seq<Line>, name: string)
    ensures MethodBounds(lines, name).None? <==> forall k :: 0 <= k < |lines| ==> lines[k].defines != Some(name)
    ensures MethodBounds(lines, name).Some? ==>
              BoundsAre(lines, name, MethodBounds(lines, name).value.0, MethodBounds(lines, name).value.1)
  {
    FirstExactly(lines, 0, Defines(name));
    var s := First(lines, 0, Defines(name));
    if s < |lines| {
      FirstExactly(lines, s + 1, EndsMethod(lines[s].indent));
    }
  }

  // ----- the place in it

  /** Line `r` is the last return of the method. */
  ghost predicate LastReturnAt(lines: seq<Line>, s: nat, e: nat, r: nat) {
    s < r < e <= |lines| && lines[r].head.Return? && forall k :: r < k < e ==> !lines[k].head.Return?
  }

  /** A line that gives the template its dictionary, with the line on which that opens. */
  ghost predicate OpensAt(lines: seq<Line>, k: nat, open: nat) {
    && k < |lines| && open < |lines|
    && if lines[k].updates && lines[k].holdsBrace then open == k
       else if lines[k].updates && k + 1 < |lines| && lines[k + 1].head.OpenBrace? then open == k + 1
       else lines[k].assignsContext && open == k
  }

  ghost predicate Gives(lines: seq<Line>, k: nat) { exists open :: OpensAt(lines, k, open) }

  /** The call goes before a last return of a dictionary, or before the nearest line that gives the template one. */
  ghost predicate PointAt(lines: seq<Line>, s: nat, e: nat, r: nat, call: nat, open: nat) {
    && LastReturnAt(lines, s, e, r)
    && ((lines[r].head.kind == ReturnDict && call == open == r)
        || (lines[r].head.kind == ReturnTemplate && s < call < r && r - call < 40 && OpensAt(lines, call, open)
            && forall k :: call < k < r ==> !Gives(lines, k)))
  }

  ghost predicate PointIs(lines: seq<Line>, s: nat, e: nat, call: nat, open: nat) {
    exists r: nat :: PointAt(lines, s, e, r, call, open)
  }

  lemma {:induction false} LastReturnStands(lines: seq<Line>, s: nat, e: nat)
    requires e <= |lines|
    ensures LastReturn(lines, s, e).Some? ==> LastReturnAt(lines, s, e, LastReturn(lines, s, e).value)
    ensures LastReturn(lines, s, e).None? ==> forall k :: s < k < e ==> !lines[k].head.Return?
    decreases e
  {
    if e > s + 1 && !lines[e - 1].head.Return? {
      LastReturnStands(lines, s, e - 1);
    }
  }

  lemma {:induction false} GivesMeans(lines: seq<Line>, k: nat)
    requires k < |lines|
    ensures Gives(lines, k) <==>
            || (lines[k].updates && lines[k].holdsBrace)
            || (lines[k].updates && k + 1 < |lines| && lines[k + 1].head.OpenBrace?)
            || lines[k].assignsContext
  {
    if lines[k].updates && lines[k].holdsBrace {
      assert OpensAt(lines, k, k);
    } else if lines[k].updates && k + 1 < |lines| && lines[k + 1].head.OpenBrace? {
      assert OpensAt(lines, k, k + 1);
    } else if lines[k].assignsContext {
      assert OpensAt(lines, k, k);
    }
  }

  lemma {:induction false} NearestStands(lines: seq<Line>, low: nat, i: nat)
    requires i < |lines|
    ensures LookBack(lines, low, i).Some? ==>
              var (call, open) := LookBack(lines, low, i).value;
              low < call <= i && OpensAt(lines, call, open) && forall k :: call < k <= i ==> !Gives(lines, k)
    ensures LookBack(lines, low, i).None? ==> forall k :: low < k <= i ==> !Gives(lines, k)
    decreases i
  {
    GivesMeans(lines, i);
    if i > low && !Gives(lines, i) {
      NearestStands(lines, low, i - 1);
    }
  }

  lemma {:induction false} PointFound(lines: seq<Line>, s: nat, e: nat)
    requires s < e <= |lines| && InsertionPoint(lines, s, e).Some?
    ensures PointIs(lines, s, e, InsertionPoint(lines, s, e).value.0, InsertionPoint(lines, s, e).value.1)
  {
    LastReturnStands(lines, s, e);
    var last, point := LastReturn(lines, s, e).value, InsertionPoint(lines, s, e).value;
    if lines[last].head.kind == ReturnTemplate {
      NearestStands(lines, if s + LOOK_BACK <= last then last - LOOK_BACK else s, last - 1);
    }
    assert PointAt(lines, s, e, last, point.0, point.1);
  }

  lemma {:induction false} PointMissed(lines: seq<Line>, s: nat, e: nat, r: nat, call: nat, open: nat)
    requires s < e <= |lines| && PointAt(lines, s, e, r, call, open)
    ensures InsertionPoint(lines, s, e).Some?
  {
    LastReturnStands(lines, s, e);
    assert LastReturn(lines, s, e) == Some(r);
    if lines[r].head.kind == ReturnTemplate {
      assert Gives(lines, call);
      NearestStands(lines, if s + LOOK_BACK <= r then r - LOOK_BACK else s, r - 1);
    }
  }

  /** The place of the call and of the dictionary: the stated one if there is one, else none. */
  lemma {:induction false} PointExactly(lines: seq<Line>, s: nat, e: nat)
    requires s < e <= |lines|
    ensures InsertionPoint(lines, s, e).Some? ==>
              PointIs(lines, s, e, InsertionPoint(lines, s, e).value.0, InsertionPoint(lines, s, e).value.1)
    ensures (exists call: nat, open: nat :: PointIs(lines, s, e, call, open)) ==> InsertionPoint(lines, s, e).Some?
  {
    if InsertionPoint(lines, s, e).Some? {
      PointFound(lines, s, e);
    }
    if call: nat, open: nat :| PointIs(lines, s, e, call, open) {
      var r: nat :| PointAt(lines, s, e, r, call, open);
      PointMissed(lines, s, e, r, call, open);
    }
  }

  // ----- the dictionary

  /** Opening minus closing braces on the lines from `a` to `b`, both included. */
  function Balance(lines: seq<Line>, a: nat, b: nat): int
    requires a <= b < |lines|
    decreases b
  {
    lines[b].braces + if a == b then 0 else Balance(lines, a, b - 1)
  }

  /** On every line from `a` up to `b`, that one not included, a brace stays open. */
  ghost predicate StaysOpen(lines: seq<Line>, a: nat, b: nat) {
    b <= |lines| && forall k :: a <= k < b ==> Balance(lines, a, k) > 0
  }

  /** The first line on which nothing is open any more, within the hundred lines that are looked at. */
  ghost predicate ClosesAt(lines: seq<Line>, start: nat, c: nat) {
    start <= c < |lines| && c < start + 100 && StaysOpen(lines, start, c) && Balance(lines, start, c) <= 0
  }

  lemma {:induction false} ClosingFrom(lines: seq<Line>, start: nat, i: nat, depth: int)
    requires start <= i <= |lines| && i <= start + WINDOW && StaysOpen(lines, start, i)
    requires depth == if i == start then 0 else Balance(lines, start, i - 1)
    ensures Closing(lines, start, i, depth).Some? ==> ClosesAt(lines, start, Closing(lines, start, i, depth).value)
    ensures Closing(lines, start, i, depth).None? ==> forall c :: !ClosesAt(lines, start, c)
    ensures Mentioned(lines, start, i, depth) <==>
            exists j :: i <= j < |lines| && j < start + 100 && StaysOpen(lines, start, j) && lines[j].mentionsKey
    decreases start + WINDOW - i
  {
    if i < |lines| && i < start + WINDOW {
      assert depth + lines[i].braces == Balance(lines, start, i);
      if depth + lines[i].braces > 0 {
        ClosingFrom(lines, start, i + 1, depth + lines[i].braces);
        if lines[i].mentionsKey {
          assert StaysOpen(lines, start, i);
        }
      }
    }
  }

  /** The key stands in the dictionary that opens at `start`. */
  ghost predicate StandsIn(lines: seq<Line>, start: nat) {
    exists j :: start <= j < |lines| && j < start + 100 && StaysOpen(lines, start, j) && lines[j].mentionsKey
  }

  /** The dictionary gets the entry, on the line where it closes, exactly when it closes in sight and lacks the key. */
  lemma {:induction false} EntryGoesIn(lines: seq<Line>, t: Target)
    requires Fits(lines, t)
    ensures EditOf(lines, t).entryAt.Some? <==>
            !StandsIn(lines, t.dictStart) && exists c :: ClosesAt(lines, t.dictStart, c)
    ensures EditOf(lines, t).entryAt.Some? ==>
              var c := EditOf(lines, t).entryAt.value;
              && ClosesAt(lines, t.dictStart, c)
              && EditOf(lines, t).comma == if WantsComma(lines[c - 1]) then Some(c - 1) else None
    ensures EditOf(lines, t).entryAt.None? ==> EditOf(lines, t).comma.None?
    ensures EditOf(lines, t).entry.text == "\"active_filters\": active_filters,"
    ensures EditOf(lines, t).entry.indent == EntryIndent(lines, t.dictStart, t.dictStart)
    ensures EditOf(lines, t).call == t.call && EditOf(lines, t).callLines == CallLines(t.patch, lines[t.call].indent)
  {
    ClosingFrom(lines, t.dictStart, t.dictStart, 0);
  }

  /** The entry is indented like the first key within eight lines, else four more than the dictionary's first line. */
  lemma {:induction false} IndentFrom(lines: seq<Line>, start: nat, i: nat)
    requires start < |lines| && start <= i
    ensures forall k :: i <= k < |lines| && k < start + 8 && lines[k].beginsWithKey
                        && (forall j :: i <= j < k ==> !lines[j].beginsWithKey) ==>
                          EntryIndent(lines, start, i) == lines[k].indent
    ensures (forall k :: i <= k < |lines| && k < start + 8 ==> !lines[k].beginsWithKey) ==>
              EntryIndent(lines, start, i) == lines[start].indent + 4
    decreases start + INDENT_WINDOW - i
  {
    if i < |lines| && i < start + INDENT_WINDOW && !lines[i].beginsWithKey {
      IndentFrom(lines, start, i + 1);
    }
  }

  // ----- the call

  /** The lines of a call with labels or options: the parameters first, then each of the two that is given. */
  lemma {:induction false} CallNamesItsArguments(p: Patch, indent: nat)
    ensures var call := CallLines(p, indent);
            && call != [] && (forall k :: 0 < k < |call| ==> !call[k].callsBuilder) && call[0].callsBuilder
            && call[0].indent == indent && call[|call| - 1].indent == indent
            && (p.labels.None? && p.options.None? ==>
                  |call| == 1 && call[0].text == "active_filters = build_active_filters(params=" + p.params + ")")
            && (p.labels.Some? || p.options.Some? ==>
                  && |call| == 3 + (if p.labels.Some? then 1 else 0) + (if p.options.Some? then 1 else 0)
                  && call[0].text == "active_filters = build_active_filters(" && call[|call| - 1].text == ")"
                  && call[1].text == "params=" + p.params + ","
                  && (p.labels.Some? ==> call[2].text == "labels=" + p.labels.value + ",")
                  && (p.options.Some? ==> call[|call| - 2].text == "options=" + p.options.value + ",")
                  && forall k :: 0 < k < |call| - 1 ==> call[k].indent == indent + 4)
  {
  }

  // ----- what a patch finds to do

  ghost predicate HasCall(lines: seq<Line>, s: nat, e: nat) {
    e <= |lines| && exists k :: s <= k < e && lines[k].callsBuilder
  }

  lemma {:induction false} BoundsAreOne(lines: seq<Line>, name: string, s: nat, e: nat)
    requires BoundsAre(lines, name, s, e)
    ensures MethodBounds(lines, name) == Some((s, e))
  {
    BoundsExactly(lines, name);
    var a, b := MethodBounds(lines, name).value.0, MethodBounds(lines, name).value.1;
    assert a == s;
    assert b == e;
  }

  lemma {:induction false} CallFoundExactly(lines: seq<Line>, s: nat, e: nat)
    requires s <= e <= |lines|
    ensures First(lines, s, CallsBuilder()) < e <==> HasCall(lines, s, e)
  {
    FirstExactly(lines, s, CallsBuilder());
  }

  /** A patch has something to do in its method exactly when that calls no builder yet and offers a place. */
  lemma {:induction false} TargetExactly(lines: seq<Line>, p: Patch, s: nat, e: nat)
    requires BoundsAre(lines, p.method_, s, e)
    ensures TargetOf(lines, p).Some? <==>
            !HasCall(lines, s, e) && exists call: nat, open: nat :: PointIs(lines, s, e, call, open)
    ensures TargetOf(lines, p).Some? ==>
              var t := TargetOf(lines, p).value;
              t.start == s && t.end == e && t.patch == p && PointIs(lines, s, e, t.call, t.dictStart)
  {
    BoundsAreOne(lines, p.method_, s, e);
    CallFoundExactly(lines, s, e);
    PointExactly(lines, s, e);
  }

  /** Without the method there is nothing to do. */
  lemma {:induction false} NoMethodNoTarget(lines: seq<Line>, p: Patch)
    requires forall k :: 0 <= k < |lines| ==> lines[k].defines != Some(p.method_)
    ensures TargetOf(lines, p).None?
  {
    BoundsExactly(lines, p.method_);
  }
}
