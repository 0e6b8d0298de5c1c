/**
 Editing in place from the last method to the first, and applying every patch at
 its original position (scripts/add_active_filters.py): when the two agree.
 */
module PatchedLines {
  import opened Collections
  import opened FilterPatcher
  import opened GrownLines

  // ----- all edits at once

  /** What one edit puts before line `i`. */
  function Above(e: Edit, i: nat): seq<Line> {
    (if e.call == i then e.callLines else []) + (if e.entryAt == Some(i) then [e.entry] else [])
  }

  function AboveAt(i: nat): Edit -> seq<Line> { (e: Edit) => Above(e, i) }

  predicate Commas(edits: seq<Edit>, i: nat) { exists e :: e in edits && e.comma == Some(i) }

  function Kept(edits: seq<Edit>, line: Line, i: nat): Line { if Commas(edits, i) then WithComma(line) else line }

  /** Line `i` of the original, with everything the edits put before it. */
  function Block(lines: seq<Line>, edits: seq<Edit>, i: nat): seq<Line>
    requires i < |lines|
  {
    Collect(edits, AboveAt(i)) + [Kept(edits, lines[i], i)]
  }

  function BlockAt(lines: seq<Line>, edits: seq<Edit>): nat -> seq<Line> {
    (i: nat) => if i < |lines| then Block(lines, edits, i) else []
  }

  /** Every edit at its original position, for the lines from `a` up to `n`. */
  function AtOnce(lines: seq<Line>, edits: seq<Edit>, a: nat, n: nat): seq<Line>
    requires a <= n <= |lines|
  {
    Joined(BlockAt(lines, edits), a, n)
  }

  // ----- one edit

  ghost predicate Within(e: Edit, low: nat, high: nat) {
    && low <= e.call < high
    && (e.entryAt.Some? ==> e.call <= e.entryAt.value < high)
    && (e.comma.Some? ==> e.entryAt.Some? && low <= e.comma.value && e.comma.value + 1 == e.entryAt.value)
  }

  /** The first `n` original lines after the edit. */
  function UpTo(lines: seq<Line>, e: Edit, n: nat): seq<Line>
    requires n <= |lines| && Within(e, 0, |lines|)
  {
    var a := Commaed(lines, e);
    if n <= e.call then a[..n]
    else if e.entryAt.None? || n <= e.entryAt.value then a[..e.call] + e.callLines + a[e.call..n]
    else a[..e.call] + e.callLines + a[e.call..e.entryAt.value] + [e.entry] + a[e.entryAt.value..n]
  }

  lemma {:induction false} BlockOfOne(lines: seq<Line>, e: Edit, i: nat)
    requires i < |lines|
    ensures Block(lines, [e], i) == Above(e, i) + [Commaed(lines, e)[i]]
  {
    assert [e][..0] == [];
    assert Collect([e], AboveAt(i)) == Collect([], AboveAt(i)) + Above(e, i);
    assert e in [e];
  }

  lemma {:induction false} UpToStep(lines: seq<Line>, e: Edit, n: nat)
    requires n < |lines| && Within(e, 0, |lines|)
    ensures UpTo(lines, e, n + 1) == UpTo(lines, e, n) + (Above(e, n) + [Commaed(lines, e)[n]])
  {
    var a := Commaed(lines, e);
    if n < e.call {
      SliceStep(a, 0, n);
    } else if e.entryAt.None? || n < e.entryAt.value {
      SliceStep(a, e.call, n);
    } else {
      SliceStep(a, e.entryAt.value, n);
    }
  }

  lemma {:induction false} OneEdit(lines: seq<Line>, e: Edit, n: nat)
    requires n <= |lines| && Within(e, 0, |lines|)
    ensures AtOnce(lines, [e], 0, n) == UpTo(lines, e, n)
    decreases n
  {
    if n > 0 {
      OneEdit(lines, e, n - 1);
      UpToStep(lines, e, n - 1);
      BlockOfOne(lines, e, n - 1);
    }
  }

  lemma {:induction false} EditInPlace(lines: seq<Line>, e: Edit)
    requires Within(e, 0, |lines|)
    ensures ApplyEdit(lines, e) == AtOnce(lines, [e], 0, |lines|)
  {
    OneEdit(lines, e, |lines|);
    var a := Commaed(lines, e);
    if e.entryAt.Some? {
      var b := InsertLines(a, e.entryAt.value, [e.entry]);
      assert b[..e.call] == a[..e.call];
      assert b[e.call..] == a[e.call..e.entryAt.value] + [e.entry] + a[e.entryAt.value..];
    }
  }

  // ----- several edits

  ghost predicate Touches(e: Edit, i: nat) { e.call == i || e.entryAt == Some(i) || e.comma == Some(i) }

  lemma {:induction false} BlockWithout(lines: seq<Line>, edits: seq<Edit>, e: Edit, i: nat)
    requires i < |lines| && !Touches(e, i)
    ensures Block(lines, edits + [e], i) == Block(lines, edits, i)
  {
    CollectSnoc(edits, e, AboveAt(i));
    assert Commas(edits + [e], i) == Commas(edits, i);
  }

  lemma {:induction false} BlockAlone(lines: seq<Line>, edits: seq<Edit>, e: Edit, i: nat)
    requires i < |lines| && forall d :: d in edits ==> !Touches(d, i)
    ensures Block(lines, edits + [e], i) == Block(lines, [e], i)
  {
    CollectSnoc(edits, e, AboveAt(i));
    CollectSnoc([], e, AboveAt(i));
    assert [] + [e] == [e];
    CollectEmpty(edits, AboveAt(i));
    assert Commas(edits + [e], i) == Commas([e], i);
  }

  lemma {:induction false} BlockUntouched(lines: seq<Line>, edits: seq<Edit>, i: nat)
    requires i < |lines| && forall d :: d in edits ==> !Touches(d, i)
    ensures Block(lines, edits, i) == [lines[i]]
  {
    CollectEmpty(edits, AboveAt(i));
  }

  lemma {:induction false} AtOnceSplit(lines: seq<Line>, edits: seq<Edit>, a: nat, m: nat, n: nat)
    requires a <= m <= n <= |lines|
    ensures AtOnce(lines, edits, a, n) == AtOnce(lines, edits, a, m) + AtOnce(lines, edits, m, n)
  {
    JoinedSplit(BlockAt(lines, edits), a, m, n);
  }

  lemma {:induction false} AtOnceUntouched(lines: seq<Line>, edits: seq<Edit>, a: nat, n: nat)
    requires a <= n <= |lines| && forall i, d :: a <= i < n && d in edits ==> !Touches(d, i)
    ensures AtOnce(lines, edits, a, n) == lines[a..n]
  {
    forall i: nat | a <= i < n
      ensures BlockAt(lines, edits)(i) == [lines[i]]
    {
      BlockUntouched(lines, edits, i);
    }
    JoinedSlice(BlockAt(lines, edits), lines, a, n);
  }

  lemma {:induction false} BlockLength(lines: seq<Line>, edits: seq<Edit>, e: Edit, i: nat)
    requires i < |lines|
    ensures |Block(lines, edits + [e], i)| ==
            |Block(lines, edits, i)| + (if e.call == i then |e.callLines| else 0)
            + if e.entryAt == Some(i) then 1 else 0
  {
    CollectSnoc(edits, e, AboveAt(i));
  }

  lemma {:induction false} AtOnceStep(lines: seq<Line>, edits: seq<Edit>, n: nat)
    requires n < |lines|
    ensures |AtOnce(lines, edits, 0, n + 1)| == |AtOnce(lines, edits, 0, n)| + |Block(lines, edits, n)|
  {
  }

  /** One more edit makes the lines up to `n` longer by what it puts among them. */
  ghost predicate Lengthens(lines: seq<Line>, edits: seq<Edit>, e: Edit, n: nat)
    requires n <= |lines|
  {
    |AtOnce(lines, edits + [e], 0, n)| ==
    |AtOnce(lines, edits, 0, n)| + (if e.call < n then |e.callLines| else 0)
    + (if e.entryAt.Some? && e.entryAt.value < n then 1 else 0)
  }

  lemma {:induction false} LengthensNothing(lines: seq<Line>, edits: seq<Edit>, e: Edit)
    ensures Lengthens(lines, edits, e, 0)
  {
  }

  lemma {:induction false} LengthensOn(lines: seq<Line>, edits: seq<Edit>, e: Edit, n: nat)
    requires n < |lines| && Lengthens(lines, edits, e, n)
    ensures Lengthens(lines, edits, e, n + 1)
  {
    AtOnceStep(lines, edits + [e], n);
    AtOnceStep(lines, edits, n);
    BlockLength(lines, edits, e, n);
  }

  lemma {:induction false} AtOnceLength(lines: seq<Line>, edits: seq<Edit>, e: Edit, n: nat)
    requires n <= |lines|
    ensures Lengthens(lines, edits, e, n)
    decreases n
  {
    if n == 0 {
      LengthensNothing(lines, edits, e);
    } else {
      AtOnceLength(lines, edits, e, n - 1);
      LengthensOn(lines, edits, e, n - 1);
    }
  }

  // ----- an edit below all others

  lemma {:induction false} InsertInPrefix<T>(p: seq<T>, q: seq<T>, i: nat, ys: seq<T>)
    requires i <= |p|
    ensures InsertLines(p + q, i, ys) == InsertLines(p, i, ys) + q
  {
    assert (p + q)[..i] == p[..i] && (p + q)[i..] == p[i..] + q;
  }

  /** Editing a prefix, its end included, leaves the rest alone. */
  lemma {:induction false} EditOfPrefix(p: seq<Line>, q: seq<Line>, e: Edit)
    requires e.call <= |p| && (e.entryAt.Some? ==> e.entryAt.value <= |p|) && (e.comma.Some? ==> e.comma.value < |p|)
    ensures ApplyEdit(p + q, e) == ApplyEdit(p, e) + q
  {
    var a := Commaed(p, e);
    assert Commaed(p + q, e) == a + q;
    if e.entryAt.Some? {
      InsertInPrefix(a, q, e.entryAt.value, [e.entry]);
    }
    InsertInPrefix(WithEntry(p, e), q, e.call, e.callLines);
  }

  /** The last line an edit puts something above. */
  function Deepest(e: Edit): nat { if e.entryAt.Some? then e.entryAt.value else e.call }

  lemma {:induction false} EntryAtTheEnd<T>(p: seq<T>, call: nat, calls: seq<T>, entry: T)
    requires call <= |p|
    ensures InsertLines(InsertLines(p, |p|, [entry]), call, calls) == p[..call] + calls + p[call..] + [entry]
  {
    var q := p + [entry];
    assert q[..call] == p[..call] && q[call..] == p[call..] + [entry];
  }

  /** The lines above the deepest one, with everything an edit puts there. */
  function Edited(p: seq<Line>, e: Edit): seq<Line>
    requires e.call <= |p|
  {
    if e.entryAt.Some? then p[..e.call] + e.callLines + p[e.call..] + [e.entry] else p + e.callLines
  }

  lemma {:induction false} UpToDeepest(lines: seq<Line>, e: Edit)
    requires Within(e, 0, |lines|)
    ensures UpTo(lines, e, Deepest(e)) + Above(e, Deepest(e)) == Edited(Commaed(lines, e)[..Deepest(e)], e)
  {
  }

  lemma {:induction false} EditOfPart(p: seq<Line>, e: Edit)
    requires e.call <= |p| == Deepest(e)
    ensures ApplyEdit(p, e) == Edited(Commaed(p, e), e)
  {
    if e.entryAt.Some? {
      EntryAtTheEnd(Commaed(p, e), e.call, e.callLines, e.entry);
    }
  }

  lemma {:induction false} EditOfWhole(lines: seq<Line>, e: Edit)
    requires Within(e, 0, |lines|)
    ensures ApplyEdit(lines[..Deepest(e)], e) == AtOnce(lines, [e], 0, Deepest(e)) + Above(e, Deepest(e))
  {
    OneEdit(lines, e, Deepest(e));
    UpToDeepest(lines, e);
    EditOfPart(lines[..Deepest(e)], e);
    assert Commaed(lines[..Deepest(e)], e) == Commaed(lines, e)[..Deepest(e)];
  }

  ghost predicate FromOn(edits: seq<Edit>, low: nat) {
    forall d, i :: d in edits && 0 <= i && Touches(d, i) ==> i + 1 >= low
  }

  ghost predicate InsertsFrom(edits: seq<Edit>, low: nat) {
    forall d :: d in edits ==> d.call >= low && (d.entryAt.Some? ==> d.entryAt.value >= low)
  }

  lemma {:induction false} BlockAtDeepest(lines: seq<Line>, edits: seq<Edit>, e: Edit, low: nat)
    requires InsertsFrom(edits, low) && Within(e, 0, |lines|) && Deepest(e) < low
    ensures Block(lines, edits + [e], Deepest(e)) == Above(e, Deepest(e)) + Block(lines, edits, Deepest(e))
  {
    var z := Deepest(e);
    CollectSnoc(edits, e, AboveAt(z));
    CollectEmpty(edits, AboveAt(z));
    assert Commas(edits + [e], z) == Commas(edits, z);
  }

  lemma {:induction false} BehindDeepest(lines: seq<Line>, edits: seq<Edit>, e: Edit, low: nat)
    requires InsertsFrom(edits, low) && Within(e, 0, |lines|) && Deepest(e) < low
    ensures AtOnce(lines, edits + [e], Deepest(e), |lines|) ==
            Above(e, Deepest(e)) + AtOnce(lines, edits, Deepest(e), |lines|)
  {
    forall i: nat | Deepest(e) < i < |lines|
      ensures BlockAt(lines, edits + [e])(i) == BlockAt(lines, edits)(i)
    {
      BlockWithout(lines, edits, e, i);
    }
    BlockAtDeepest(lines, edits, e, low);
    JoinedBehind(BlockAt(lines, edits), BlockAt(lines, edits + [e]), Above(e, Deepest(e)), Deepest(e), |lines|);
  }

  lemma {:induction false} BeforeDeepest(lines: seq<Line>, edits: seq<Edit>, e: Edit, low: nat)
    requires FromOn(edits, low) && Within(e, 0, |lines|) && Deepest(e) < low
    ensures AtOnce(lines, edits + [e], 0, Deepest(e)) == AtOnce(lines, [e], 0, Deepest(e))
  {
    forall i: nat | 0 <= i < Deepest(e)
      ensures BlockAt(lines, edits + [e])(i) == BlockAt(lines, [e])(i)
    {
      BlockAlone(lines, edits, e, i);
    }
    JoinedSame(BlockAt(lines, edits + [e]), BlockAt(lines, [e]), 0, Deepest(e));
  }

  /** An edit that stays above all others applies to what they leave as to the original. */
  lemma {:induction false} LowestEdit(lines: seq<Line>, edits: seq<Edit>, e: Edit, low: nat)
    requires FromOn(edits, low) && InsertsFrom(edits, low) && Within(e, 0, |lines|) && Deepest(e) < low
    ensures ApplyEdit(AtOnce(lines, edits, 0, |lines|), e) == AtOnce(lines, edits + [e], 0, |lines|)
  {
    var z, n := Deepest(e), |lines|;
    var p, q := lines[..z], AtOnce(lines, edits, z, n);
    AtOnceSplit(lines, edits, 0, z, n);
    AtOnceUntouched(lines, edits, 0, z);
    EditOfPrefix(p, q, e);
    EditOfWhole(lines, e);
    AtOnceSplit(lines, edits + [e], 0, z, n);
    BeforeDeepest(lines, edits, e, low);
    BehindDeepest(lines, edits, e, low);
    AppendAssociates(AtOnce(lines, [e], 0, z), Above(e, z), q);
  }

  // ----- a one-line dictionary

  /**
   An entry lands inside the dictionary exactly when the first line leaves it open.
   Otherwise it goes above that line, and the line above gains the comma.
   */
  lemma {:induction false} EntryLandsInsideExactly(lines: seq<Line>, t: Target)
    requires Fits(lines, t) && EditOf(lines, t).entryAt.Some?
    ensures EditOf(lines, t).entryAt.value > t.dictStart <==> lines[t.dictStart].braces > 0
    ensures lines[t.dictStart].braces <= 0 ==>
              && EditOf(lines, t).entryAt == Some(t.dictStart)
              && EditOf(lines, t).comma == if WantsComma(lines[t.dictStart - 1]) then Some(t.dictStart - 1) else None
  {
  }
}
