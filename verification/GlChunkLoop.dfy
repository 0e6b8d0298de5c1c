/**
 The chunk loop of the general ledger backfill (scripts/backfill_gl_postings.py):
 fetch a chunk of what is still missing, process it, repeat until it stops. The
 loop itself is followed for any number of chunks, with commits that may fail and
 records that may behave differently in every chunk. Whether it ends is settled
 for commits that succeed and records that behave the same in every chunk.
 */
module GlChunkLoop {
  import opened Collections
  import opened Sessions
  import opened GlBackfill

  function Always(): nat -> bool { (i: nat) => true }

  function Left<W>(items: seq<Item<W>>, commits: nat -> bool): nat -> bool {
    (k: nat) => k < |items| && !DurablePosts(items, commits)(k)
  }

  function Itself<W>(items: seq<Item<W>>): nat -> seq<Item<W>> {
    (k: nat) => if k < |items| then [items[k]] else []
  }

  /** The records of a batch that are still missing after it, in order. */
  function Remaining<W>(items: seq<Item<W>>, commits: nat -> bool): seq<Item<W>> {
    Kept(0, |items|, Left(items, commits), Itself(items))
  }

  lemma {:induction false} RemainingUpTo<W>(items: seq<Item<W>>, commits: nat -> bool, n: nat)
    requires n <= |items|
    ensures |Kept(0, n, Left(items, commits), Itself(items))| == n - Count(0, n, DurablePosts(items, commits))
    ensures Count(0, n, DurablePosts(items, commits)) == 0 ==>
              Kept(0, n, Left(items, commits), Itself(items)) == items[..n]
  {
    if n > 0 {
      RemainingUpTo(items, commits, n - 1);
      PrefixStep(items, n - 1);
      InitLast(items[..n]);
    }
  }

  lemma {:induction false} RemainingShrinks<W>(items: seq<Item<W>>, commits: nat -> bool)
    ensures |Remaining(items, commits)| == |items| - Count(0, |items|, DurablePosts(items, commits))
    ensures Count(0, |items|, DurablePosts(items, commits)) == 0 ==> Remaining(items, commits) == items
  {
    RemainingUpTo(items, commits, |items|);
    assert items[..|items|] == items;
  }

  function Chunk<W>(queue: seq<Item<W>>, batchSize: nat): seq<Item<W>> {
    if batchSize <= |queue| then queue[..batchSize] else queue
  }

  /** The loop stops after an empty chunk, one in which every record failed, or a short one. */
  predicate StopsAfter<W>(items: seq<Item<W>>, batchSize: nat) {
    || |items| == 0
    || (Count(0, |items|, Posts(items)) == 0 && Count(0, |items|, Fails(items)) == |items|)
    || |items| < batchSize
  }

  function AfterChunk<W>(queue: seq<Item<W>>, batchSize: nat): (r: seq<Item<W>>)
    ensures |r| == |queue| - Count(0, |Chunk(queue, batchSize)|, DurablePosts(Chunk(queue, batchSize), Always()))
  {
    var chunk := Chunk(queue, batchSize);
    RemainingShrinks(chunk, Always());
    Remaining(chunk, Always()) + queue[|chunk|..]
  }

  /** A chunk that neither stops the loop nor posts anything durably. */
  predicate Stuck<W>(queue: seq<Item<W>>, batchSize: nat) {
    var chunk := Chunk(queue, batchSize);
    !StopsAfter(chunk, batchSize) && Count(0, |chunk|, DurablePosts(chunk, Always())) == 0
  }

  predicate NeverStuck<W>(queue: seq<Item<W>>, batchSize: nat)
    decreases |queue|
  {
    if Stuck(queue, batchSize) then false
    else if StopsAfter(Chunk(queue, batchSize), batchSize) then true
    else NeverStuck(AfterChunk(queue, batchSize), batchSize)
  }

  predicate StopsWithin<W>(queue: seq<Item<W>>, batchSize: nat, chunks: nat)
    decreases chunks
  {
    || StopsAfter(Chunk(queue, batchSize), batchSize)
    || (chunks > 0 && StopsWithin(AfterChunk(queue, batchSize), batchSize, chunks - 1))
  }

  ghost predicate Terminates<W>(queue: seq<Item<W>>, batchSize: nat) {
    exists chunks :: StopsWithin(queue, batchSize, chunks)
  }

  lemma {:induction false} StuckForever<W>(queue: seq<Item<W>>, batchSize: nat, chunks: nat)
    requires Stuck(queue, batchSize)
    ensures !StopsWithin(queue, batchSize, chunks)
    decreases chunks
  {
    if chunks > 0 {
      var chunk := Chunk(queue, batchSize);
      RemainingShrinks(chunk, Always());
      assert AfterChunk(queue, batchSize) == queue;
      StuckForever(queue, batchSize, chunks - 1);
    }
  }

  lemma {:induction false} NeverStuckStops<W>(queue: seq<Item<W>>, batchSize: nat)
    requires NeverStuck(queue, batchSize)
    ensures StopsWithin(queue, batchSize, |queue|)
    decreases |queue|
  {
    if !StopsAfter(Chunk(queue, batchSize), batchSize) {
      NeverStuckStops(AfterChunk(queue, batchSize), batchSize);
      MoreChunks(AfterChunk(queue, batchSize), batchSize, |AfterChunk(queue, batchSize)|, |queue| - 1);
    }
  }

  lemma {:induction false} MoreChunks<W>(queue: seq<Item<W>>, batchSize: nat, few: nat, many: nat)
    requires few <= many && StopsWithin(queue, batchSize, few)
    ensures StopsWithin(queue, batchSize, many)
    decreases many
  {
    if !StopsAfter(Chunk(queue, batchSize), batchSize) {
      MoreChunks(AfterChunk(queue, batchSize), batchSize, few - 1, many - 1);
    }
  }

  lemma {:induction false} StoppingIsNeverStuck<W>(queue: seq<Item<W>>, batchSize: nat, chunks: nat)
    requires StopsWithin(queue, batchSize, chunks)
    ensures NeverStuck(queue, batchSize)
    decreases chunks
  {
    if Stuck(queue, batchSize) {
      StuckForever(queue, batchSize, chunks);
    } else if !StopsAfter(Chunk(queue, batchSize), batchSize) {
      StoppingIsNeverStuck(AfterChunk(queue, batchSize), batchSize, chunks - 1);
    }
  }

  /**
   The loop terminates exactly when it never meets a chunk that continues it
   without a durable post, and then within as many chunks as records are missing.
   */
  lemma {:induction false} TerminatesExactly<W>(queue: seq<Item<W>>, batchSize: nat)
    ensures Terminates(queue, batchSize) <==> NeverStuck(queue, batchSize)
    ensures Terminates(queue, batchSize) ==> StopsWithin(queue, batchSize, |queue|)
  {
    if Terminates(queue, batchSize) {
      var chunks :| StopsWithin(queue, batchSize, chunks);
      StoppingIsNeverStuck(queue, batchSize, chunks);
    }
    if NeverStuck(queue, batchSize) {
      NeverStuckStops(queue, batchSize);
    }
  }

  // ----- the loop

  /** What the whole loop commits and what it leaves missing. */
  function Drained<W>(queue: seq<Item<W>>, batchSize: nat): (seq<W>, seq<Item<W>>)
    requires NeverStuck(queue, batchSize)
    decreases |queue|
  {
    var chunk := Chunk(queue, batchSize);
    var written := Kept(0, |chunk|, Durable(chunk, Always()), Writes(chunk));
    if StopsAfter(chunk, batchSize) then (written, AfterChunk(queue, batchSize))
    else
      var rest := Drained(AfterChunk(queue, batchSize), batchSize);
      (written + rest.0, rest.1)
  }

  /** How the records of a chunk behave in the given chunk, and which of its commits succeed. */
  datatype World<!W> = World(behaves: (nat, Item<W>) -> Item<W>, commits: (nat, nat) -> bool) {
    function Chunk(items: seq<Item<W>>, chunk: nat): seq<Item<W>> {
      seq(|items|, (i: nat) requires i < |items| => behaves(chunk, items[i]))
    }

    function Commits(chunk: nat): nat -> bool { (at: nat) => commits(chunk, at) }
  }

  /**
   What the first chunks of the loop, from the given one on, commit and leave missing, and
   whether the loop has ended.
   */
  datatype Progress<W> = Progress(written: seq<W>, left: seq<Item<W>>, ended: bool) {
    function Before(more: Progress<W>): Progress<W> { Progress(written + more.written, more.left, more.ended) }
  }

  function OneChunk<W>(queue: seq<Item<W>>, batchSize: nat, world: World<W>, chunk: nat): Progress<W> {
    var items := Chunk(queue, batchSize);
    var done := world.Chunk(items, chunk);
    Progress(Kept(0, |done|, Durable(done, world.Commits(chunk)), Writes(done)),
             Kept(0, |done|, Left(done, world.Commits(chunk)), Itself(items)) + queue[|items|..],
             StopsAfter(done, batchSize))
  }

  function Chunks<W>(queue: seq<Item<W>>, batchSize: nat, world: World<W>, chunk: nat, most: nat): Progress<W>
    decreases most
  {
    if most == 0 then Progress([], queue, false)
    else
      var one := OneChunk(queue, batchSize, world, chunk);
      if one.ended then one else one.Before(Chunks(one.left, batchSize, world, chunk + 1, most - 1))
  }

  /** After `chunk` chunks the loop has committed `sofar.written`, and what is still to come completes the whole. */
  ghost predicate OnTheWay<W>(
      base: seq<W>, committed: seq<W>, whole: Progress<W>, sofar: Progress<W>, more: Progress<W>)
  {
    committed == base + sofar.written && whole == if sofar.ended then sofar else sofar.Before(more)
  }

  lemma {:induction false} SetOut<W>(base: seq<W>, queue: seq<Item<W>>, whole: Progress<W>)
    ensures OnTheWay(base, base, whole, Progress([], queue, false), whole)
  {
    assert [] + whole.written == whole.written && base + [] == base;
  }

  lemma {:induction false} OneChunkFurther<W>(
      base: seq<W>, committed: seq<W>, whole: Progress<W>, sofar: Progress<W>,
      one: Progress<W>, rest: Progress<W>, more: Progress<W>)
    requires !sofar.ended && OnTheWay(base, committed, whole, sofar, more)
    requires more == if one.ended then one else one.Before(rest)
    ensures OnTheWay(base, committed + one.written, whole, sofar.Before(one), rest)
  {
    BeforeAssociates(sofar, one, rest);
    AppendAssociates(base, sofar.written, one.written);
  }

  lemma {:induction false} Arrived<W>(
      base: seq<W>, committed: seq<W>, whole: Progress<W>, sofar: Progress<W>, more: Progress<W>)
    requires OnTheWay(base, committed, whole, sofar, more) && (sofar.ended || more == Progress([], sofar.left, false))
    ensures committed == base + whole.written && sofar.left == whole.left && sofar.ended == whole.ended
  {
    assert sofar.written + [] == sofar.written;
  }

  method RunChunk<W>(session: Session<W>, queue: seq<Item<W>>, batchSize: nat, world: World<W>, chunk: nat)
    returns (left: seq<Item<W>>, ended: bool)
    requires session.Valid() && session.savepoint.None? && session.pending == []
    modifies session
    ensures session.Valid() && session.savepoint.None? && session.pending == []
    ensures session.committed == old(session.committed) + OneChunk(queue, batchSize, world, chunk).written
    ensures left == OneChunk(queue, batchSize, world, chunk).left
    ensures ended == OneChunk(queue, batchSize, world, chunk).ended
  {
    var items := Chunk(queue, batchSize);
    var done := world.Chunk(items, chunk);
    var totals := ProcessBatch(session, done, world.Commits(chunk));
    left := Kept(0, |done|, Left(done, world.Commits(chunk)), Itself(items)) + queue[|items|..];
    ended := totals.total == 0 || (totals.posted == 0 && totals.failed == totals.total) || totals.total < batchSize;
  }

  /** One chunk of the loop, on the way to what `most` chunks come to. */
  method NextChunk<W>(
      session: Session<W>, queue: seq<Item<W>>, batchSize: nat, world: World<W>, chunk: nat,
      ghost most: nat, ghost base: seq<W>, ghost whole: Progress<W>, ghost sofar: Progress<W>)
    returns (left: seq<Item<W>>, ended: bool, ghost next: Progress<W>)
    requires session.Valid() && session.savepoint.None? && session.pending == []
    requires chunk < most && queue == sofar.left && !sofar.ended
    requires OnTheWay(base, session.committed, whole, sofar, Chunks(queue, batchSize, world, chunk, most - chunk))
    modifies session
    ensures session.Valid() && session.savepoint.None? && session.pending == []
    ensures left == next.left && ended == next.ended
    ensures OnTheWay(base, session.committed, whole, next, Chunks(left, batchSize, world, chunk + 1, most - chunk - 1))
  {
    ghost var one := OneChunk(queue, batchSize, world, chunk);
    OneChunkFurther(base, session.committed, whole, sofar, one,
                    Chunks(one.left, batchSize, world, chunk + 1, most - chunk - 1),
                    Chunks(queue, batchSize, world, chunk, most - chunk));
    left, ended := RunChunk(session, queue, batchSize, world, chunk);
    next := sofar.Before(one);
  }

  /** The first `most` chunks of the loop: those of any run, ending or not. */
  method RunChunks<W>(session: Session<W>, queue: seq<Item<W>>, batchSize: nat, world: World<W>, most: nat)
    returns (left: seq<Item<W>>, ended: bool)
    requires session.Valid() && session.savepoint.None? && session.pending == []
    modifies session
    ensures session.Valid() && session.savepoint.None? && session.pending == []
    ensures session.committed == old(session.committed) + Chunks(queue, batchSize, world, 0, most).written
    ensures left == Chunks(queue, batchSize, world, 0, most).left
    ensures ended == Chunks(queue, batchSize, world, 0, most).ended
  {
    left, ended := queue, false;
    ghost var base, whole := session.committed, Chunks(queue, batchSize, world, 0, most);
    ghost var sofar := Progress([], queue, false);
    SetOut(base, queue, whole);
    var chunk := 0;
    while chunk < most && !ended
      invariant session.Valid() && session.savepoint.None? && session.pending == []
      invariant chunk <= most && left == sofar.left && ended == sofar.ended
      invariant OnTheWay(base, session.committed, whole, sofar, Chunks(left, batchSize, world, chunk, most - chunk))
      decreases most - chunk, !ended
    {
      left, ended, sofar := NextChunk(session, left, batchSize, world, chunk, most, base, whole, sofar);
      chunk := chunk + 1;
    }
    Arrived(base, session.committed, whole, sofar, Chunks(left, batchSize, world, chunk, most - chunk));
  }

  lemma {:induction false} BeforeAssociates<W>(a: Progress<W>, b: Progress<W>, c: Progress<W>)
    ensures a.Before(b).Before(c) == a.Before(b.Before(c))
  {
    AppendAssociates(a.written, b.written, c.written);
  }

  /** Every commit succeeds and every record behaves the same in every chunk. */
  function Steady<W>(): World<W> { World((chunk: nat, item: Item<W>) => item, (chunk: nat, at: nat) => true) }

  lemma {:induction false} SameCommit<W>(items: seq<Item<W>>, commits: nat -> bool, k: nat)
    requires k < |items| && forall at: nat :: commits(at)
    ensures Durable(items, commits)(k) == Durable(items, Always())(k)
    ensures Left(items, commits)(k) == Left(items, Always())(k)
  {
    assert commits(DecidingCommit(items, k)) && Always()(DecidingCommit(items, k));
    assert DurablePosts(items, commits)(k) == (Posts(items)(k) && Durable(items, commits)(k));
    assert DurablePosts(items, Always())(k) == (Posts(items)(k) && Durable(items, Always())(k));
  }

  lemma {:induction false} SteadyChunk<W>(queue: seq<Item<W>>, batchSize: nat, chunk: nat)
    ensures var items := Chunk(queue, batchSize);
            OneChunk(queue, batchSize, Steady(), chunk) ==
            Progress(Kept(0, |items|, Durable(items, Always()), Writes(items)), AfterChunk(queue, batchSize),
                     StopsAfter(items, batchSize))
  {
    var items, steady := Chunk(queue, batchSize), Steady<W>();
    assert steady.Chunk(items, chunk) == items;
    forall k: nat | k < |items|
      ensures Durable(items, steady.Commits(chunk))(k) == Durable(items, Always())(k)
      ensures Left(items, steady.Commits(chunk))(k) == Left(items, Always())(k)
    {
      SameCommit(items, steady.Commits(chunk), k);
    }
    KeptSame(0, |items|, Durable(items, steady.Commits(chunk)), Durable(items, Always()), Writes(items), Writes(items));
    KeptSame(0, |items|, Left(items, steady.Commits(chunk)), Left(items, Always()), Itself(items), Itself(items));
  }

  lemma {:induction false} SteadyEnds<W>(queue: seq<Item<W>>, batchSize: nat, chunk: nat, most: nat)
    ensures Chunks(queue, batchSize, Steady(), chunk, most + 1).ended <==> StopsWithin(queue, batchSize, most)
    decreases most
  {
    SteadyChunk(queue, batchSize, chunk);
    if !StopsAfter(Chunk(queue, batchSize), batchSize) && most > 0 {
      SteadyEnds(AfterChunk(queue, batchSize), batchSize, chunk + 1, most - 1);
    }
  }

  lemma {:induction false} SteadyDrains<W>(queue: seq<Item<W>>, batchSize: nat, chunk: nat, most: nat)
    requires NeverStuck(queue, batchSize) && |queue| < most
    ensures Chunks(queue, batchSize, Steady(), chunk, most) ==
            Progress(Drained(queue, batchSize).0, Drained(queue, batchSize).1, true)
    decreases |queue|
  {
    SteadyChunk(queue, batchSize, chunk);
    var one := OneChunk(queue, batchSize, Steady(), chunk);
    if !one.ended {
      assert !Stuck(queue, batchSize);
      SteadyDrains(one.left, batchSize, chunk + 1, most - 1);
      assert Drained(queue, batchSize) ==
             (one.written + Drained(one.left, batchSize).0, Drained(one.left, batchSize).1);
      assert Chunks(queue, batchSize, Steady(), chunk, most) ==
             one.Before(Chunks(one.left, batchSize, Steady(), chunk + 1, most - 1));
    } else {
      assert Drained(queue, batchSize) == (one.written, one.left);
    }
  }

  /** With steady records and commits some number of chunks ends the loop exactly when it never gets stuck. */
  lemma {:induction false} LoopEndsExactly<W>(queue: seq<Item<W>>, batchSize: nat)
    ensures (exists most: nat :: Chunks(queue, batchSize, Steady(), 0, most).ended) <==> NeverStuck(queue, batchSize)
    ensures NeverStuck(queue, batchSize) ==>
              Chunks(queue, batchSize, Steady(), 0, |queue| + 1) ==
              Progress(Drained(queue, batchSize).0, Drained(queue, batchSize).1, true)
  {
    if most: nat :| Chunks(queue, batchSize, Steady(), 0, most).ended {
      SteadyEnds(queue, batchSize, 0, most - 1);
      StoppingIsNeverStuck(queue, batchSize, most - 1);
    }
    if NeverStuck(queue, batchSize) {
      SteadyDrains(queue, batchSize, 0, |queue| + 1);
    }
  }

  // ----- no record raises

  ghost predicate NoneRaises<W>(items: seq<Item<W>>) { forall item :: item in items ==> !item.outcome.Raised? }

  function StaysMissing<W(!new)>(): Item<W> -> bool { (item: Item<W>) => item.outcome.NotPosted? }

  lemma {:induction false} QuietBatch<W(!new)>(items: seq<Item<W>>, n: nat)
    requires NoneRaises(items) && n <= |items|
    ensures Kept(0, n, Left(items, Always()), Itself(items)) == Filter(items[..n], StaysMissing())
    ensures Count(0, n, DurablePosts(items, Always())) == Count(0, n, Posts(items)) ==
              n - |Filter(items[..n], StaysMissing())|
    ensures Count(0, n, Fails(items)) == 0
  {
    if n > 0 {
      QuietBatch(items, n - 1);
      PrefixStep(items, n - 1);
      InitLast(items[..n]);
      FilterSnoc(items[..n - 1], items[n - 1], StaysMissing());
      QuietRecord(items, n - 1);
    }
  }

  lemma {:induction false} QuietRecord<W>(items: seq<Item<W>>, k: nat)
    requires NoneRaises(items) && k < |items|
    ensures DurablePosts(items, Always())(k) == items[k].outcome.Posted?
    ensures Left(items, Always())(k) == items[k].outcome.NotPosted?
    ensures Posts(items)(k) == items[k].outcome.Posted? && !Fails(items)(k)
  {
    assert items[k] in items;
    BlockMates(items, k);
    assert Survives(items, BlockEnd(items, k))(k) by {
      assert forall j :: k <= j < |items| ==> items[j] in items;
    }
    assert Always()(DecidingCommit(items, k));
    assert Durable(items, Always())(k);
  }

  lemma {:induction false} QuietChunk<W(!new)>(queue: seq<Item<W>>, batchSize: nat)
    requires NoneRaises(queue)
    ensures var chunk := Chunk(queue, batchSize);
            && AfterChunk(queue, batchSize) == Filter(chunk, StaysMissing()) + queue[|chunk|..]
            && NoneRaises(AfterChunk(queue, batchSize))
            && Filter(AfterChunk(queue, batchSize), StaysMissing()) == Filter(queue, StaysMissing())
            && (StopsAfter(chunk, batchSize) <==> |chunk| == 0 || |chunk| < batchSize)
            && (Stuck(queue, batchSize) <==> batchSize > 0 && |chunk| == batchSize == |Filter(chunk, StaysMissing())|)
  {
    var chunk := Chunk(queue, batchSize);
    var rest := queue[|chunk|..];
    assert queue == chunk + rest;
    QuietBatch(chunk, |chunk|);
    assert chunk[..|chunk|] == chunk;
    FilterAppend(chunk, rest, StaysMissing());
    FilterAppend(Filter(chunk, StaysMissing()), rest, StaysMissing());
    FilterAll(Filter(chunk, StaysMissing()), StaysMissing());
  }

  lemma {:induction false} QuietTerminates<W(!new)>(queue: seq<Item<W>>, batchSize: nat)
    requires NoneRaises(queue)
    requires batchSize == 0 || |Filter(queue, StaysMissing())| < batchSize
    ensures NeverStuck(queue, batchSize)
    ensures batchSize > 0 ==> Drained(queue, batchSize).1 == Filter(queue, StaysMissing())
    decreases |queue|
  {
    var chunk := Chunk(queue, batchSize);
    var rest := queue[|chunk|..];
    assert queue == chunk + rest;
    QuietChunk(queue, batchSize);
    FilterAppend(chunk, rest, StaysMissing());
    if !StopsAfter(chunk, batchSize) {
      QuietTerminates(AfterChunk(queue, batchSize), batchSize);
    } else {
      assert batchSize > 0 ==> rest == [];
    }
  }

  lemma {:induction false} QuietLoops<W(!new)>(queue: seq<Item<W>>, batchSize: nat, chunks: nat)
    requires NoneRaises(queue) && 0 < batchSize <= |Filter(queue, StaysMissing())|
    ensures !StopsWithin(queue, batchSize, chunks)
    decreases chunks
  {
    QuietChunk(queue, batchSize);
    FilterShorter(queue, StaysMissing());
    if chunks > 0 {
      QuietLoops(AfterChunk(queue, batchSize), batchSize, chunks - 1);
    }
  }

  lemma {:induction false} FilterShorter<T(!new)>(xs: seq<T>, p: T -> bool)
    ensures |Filter(xs, p)| <= |xs|
  {
    if xs != [] {
      FilterShorter(xs[..|xs| - 1], p);
    }
  }

  /**
   When no record raises, the loop terminates exactly when fewer records than a
   chunk holds answer false; and then it leaves those and nothing else missing.
   */
  lemma {:induction false} QuietTerminatesExactly<W(!new)>(queue: seq<Item<W>>, batchSize: nat)
    requires NoneRaises(queue) && batchSize > 0
    ensures Terminates(queue, batchSize) <==> |Filter(queue, StaysMissing())| < batchSize
    ensures Terminates(queue, batchSize) ==>
              NeverStuck(queue, batchSize) && Drained(queue, batchSize).1 == Filter(queue, StaysMissing())
  {
    TerminatesExactly(queue, batchSize);
    if |Filter(queue, StaysMissing())| < batchSize {
      QuietTerminates(queue, batchSize);
    } else {
      forall chunks: nat
        ensures !StopsWithin(queue, batchSize, chunks)
      {
        QuietLoops(queue, batchSize, chunks);
      }
    }
  }

  // ----- records that raise

  function RaisesAlways<W(!new)>(): Item<W> -> bool { (item: Item<W>) => item.outcome.Raised? }

  function NeverPosts<W(!new)>(): Item<W> -> bool { (item: Item<W>) => !item.outcome.Posted? }

  function Unposted<W>(items: seq<Item<W>>): nat -> bool {
    (k: nat) => k < |items| && items[k].outcome.NotPosted?
  }

  lemma {:induction false} CountSome(start: nat, end: nat, chosen: nat -> bool, k: nat)
    requires start <= k < end && chosen(k)
    ensures Count(start, end, chosen) >= 1
    decreases end
  {
    if k < end - 1 {
      CountSome(start, end - 1, chosen, k);
    }
  }

  lemma {:induction false} CountSplit(start: nat, middle: nat, end: nat, chosen: nat -> bool)
    requires start <= middle <= end
    ensures Count(start, end, chosen) == Count(start, middle, chosen) + Count(middle, end, chosen)
    decreases end
  {
    if middle < end {
      CountSplit(start, middle, end - 1, chosen);
    }
  }

  lemma {:induction false} CountOthers(start: nat, end: nat, chosen: nat -> bool, others: nat -> bool)
    requires start <= end && forall k: nat :: start <= k < end ==> chosen(k) == !others(k)
    ensures Count(start, end, chosen) + Count(start, end, others) == end - start
    decreases end
  {
    if start < end {
      CountOthers(start, end - 1, chosen, others);
    }
  }

  /** The records of `start..end` that stay missing are those answering false, and for each one that raises a block. */
  ghost predicate LossBounded<W>(items: seq<Item<W>>, start: nat, end: nat)
    requires start <= end
  {
    end - start <= Count(start, end, DurablePosts(items, Always())) + Count(start, end, Unposted(items))
                   + BLOCK * Count(start, end, Fails(items))
  }

  lemma {:induction false} CalmBlock<W>(items: seq<Item<W>>, q: nat, end: nat, at: nat, k: nat)
    requires Decides(items, q, end, at) && BLOCK * q <= k < end
    requires forall j :: BLOCK * q <= j < end ==> !items[j].outcome.Raised?
    ensures DurablePosts(items, Always())(k) == !Unposted(items)(k)
  {
    BlockOf(items, q, end, at);
    assert Survives(items, end)(k);
    assert Always()(DecidingCommit(items, k));
    assert Durable(items, Always())(k);
  }

  lemma {:induction false} BlockLoss<W>(items: seq<Item<W>>, q: nat, end: nat, at: nat)
    requires Decides(items, q, end, at)
    ensures LossBounded(items, BLOCK * q, end)
  {
    if j :| BLOCK * q <= j < end && items[j].outcome.Raised? {
      CountSome(BLOCK * q, end, Fails(items), j);
    } else {
      forall k: nat | BLOCK * q <= k < end
        ensures DurablePosts(items, Always())(k) == !Unposted(items)(k)
      {
        CalmBlock(items, q, end, at, k);
      }
      CountOthers(BLOCK * q, end, DurablePosts(items, Always()), Unposted(items));
    }
  }

  lemma {:induction false} LossAddsUp<W>(items: seq<Item<W>>, start: nat, middle: nat, end: nat)
    requires start <= middle <= end && LossBounded(items, start, middle) && LossBounded(items, middle, end)
    ensures LossBounded(items, start, end)
  {
    CountSplit(start, middle, end, DurablePosts(items, Always()));
    CountSplit(start, middle, end, Unposted(items));
    CountSplit(start, middle, end, Fails(items));
  }

  lemma {:induction false} LossOfBlocks<W>(items: seq<Item<W>>, q: nat)
    requires BLOCK * q <= |items|
    ensures LossBounded(items, 0, BLOCK * q)
    decreases q
  {
    if q > 0 {
      LossOfBlocks(items, q - 1);
      BlockLoss(items, q - 1, BLOCK * q, BLOCK * q - 1);
      LossAddsUp(items, 0, BLOCK * (q - 1), BLOCK * q);
    }
  }

  /** A batch leaves at most the records answering false missing, and a block for each one that raises. */
  lemma {:induction false} BatchLoss<W>(items: seq<Item<W>>)
    ensures LossBounded(items, 0, |items|)
  {
    var q := |items| / BLOCK;
    LossOfBlocks(items, q);
    if BLOCK * q < |items| {
      BlockLoss(items, q, |items|, |items|);
      LossAddsUp(items, 0, BLOCK * q, |items|);
    }
  }

  lemma {:induction false} CountIsFilter<W(!new)>(items: seq<Item<W>>, n: nat)
    requires n <= |items|
    ensures Count(0, n, Unposted(items)) == |Filter(items[..n], StaysMissing())|
    ensures Count(0, n, Fails(items)) == |Filter(items[..n], RaisesAlways())|
  {
    if n > 0 {
      CountIsFilter(items, n - 1);
      FilterPrefix(items, n - 1, StaysMissing());
      FilterPrefix(items, n - 1, RaisesAlways());
    }
  }

  lemma {:induction false} OneMoreLeft<W>(items: seq<Item<W>>, n: nat)
    requires n < |items|
    ensures var before := Kept(0, n, Left(items, Always()), Itself(items));
            var after := Kept(0, n + 1, Left(items, Always()), Itself(items));
            after == before + [items[n]] || (after == before && items[n].outcome.Posted?)
  {
    assert Left(items, Always())(n) == !DurablePosts(items, Always())(n);
    assert Itself(items)(n) == [items[n]];
    var before := Kept(0, n, Left(items, Always()), Itself(items));
    var after := Kept(0, n + 1, Left(items, Always()), Itself(items));
    assert after == before + if Left(items, Always())(n) then Itself(items)(n) else [];
    if !Left(items, Always())(n) {
      assert Posts(items)(n);
      assert after == before;
    }
  }

  lemma {:induction false} LeftBehind<W(!new)>(items: seq<Item<W>>, n: nat, p: Item<W> -> bool)
    requires n <= |items| && forall item: Item<W> :: p(item) ==> !item.outcome.Posted?
    ensures Filter(Kept(0, n, Left(items, Always()), Itself(items)), p) == Filter(items[..n], p)
  {
    if n > 0 {
      LeftBehind(items, n - 1, p);
      FilterPrefix(items, n - 1, p);
      OneMoreLeft(items, n - 1);
      FilterSnoc(Kept(0, n - 1, Left(items, Always()), Itself(items)), items[n - 1], p);
    }
  }

  /** A record that never posts is never taken out of the queue. */
  lemma {:induction false} NeverTakenOut<W(!new)>(queue: seq<Item<W>>, batchSize: nat, p: Item<W> -> bool)
    requires forall item: Item<W> :: p(item) ==> !item.outcome.Posted?
    ensures var chunk := Chunk(queue, batchSize);
            && Filter(Remaining(chunk, Always()), p) == Filter(chunk, p)
            && Filter(queue, p) == Filter(chunk, p) + Filter(queue[|chunk|..], p)
            && Filter(AfterChunk(queue, batchSize), p) == Filter(queue, p)
  {
    var chunk := Chunk(queue, batchSize);
    LeftBehind(chunk, |chunk|, p);
    assert chunk[..|chunk|] == chunk && queue == chunk + queue[|chunk|..];
    FilterAppend(chunk, queue[|chunk|..], p);
    FilterAppend(Remaining(chunk, Always()), queue[|chunk|..], p);
  }

  /** The most records a chunk can hold of this queue without a durable post. */
  function Holdups<W(!new)>(queue: seq<Item<W>>): nat {
    |Filter(queue, StaysMissing())| + BLOCK * |Filter(queue, RaisesAlways())|
  }

  lemma {:induction false} FewHoldupsNeverStuck<W(!new)>(queue: seq<Item<W>>, batchSize: nat)
    requires Holdups(queue) < batchSize
    ensures NeverStuck(queue, batchSize)
    decreases |queue|
  {
    var chunk := Chunk(queue, batchSize);
    if !StopsAfter(chunk, batchSize) {
      NeverTakenOut(queue, batchSize, StaysMissing());
      NeverTakenOut(queue, batchSize, RaisesAlways());
      BatchLoss(chunk);
      CountIsFilter(chunk, |chunk|);
      assert chunk[..|chunk|] == chunk;
      FewHoldupsNeverStuck(AfterChunk(queue, batchSize), batchSize);
    }
  }

  /**
   The loop ends when a chunk holds more records than answer false, counting
   fifty more for each that raises: it takes its block's successes with it.
   */
  lemma {:induction false} FewHoldupsTerminate<W(!new)>(queue: seq<Item<W>>, batchSize: nat)
    requires Holdups(queue) < batchSize
    ensures Terminates(queue, batchSize)
  {
    FewHoldupsNeverStuck(queue, batchSize);
    TerminatesExactly(queue, batchSize);
  }

  lemma {:induction false} NotAllFail<W>(items: seq<Item<W>>, n: nat, k: nat)
    requires k < n <= |items| && !items[k].outcome.Raised?
    ensures Count(0, n, Fails(items)) < n
    decreases n
  {
    if k < n - 1 {
      NotAllFail(items, n - 1, k);
    }
  }

  /** Enough records that never post to fill a chunk, one answering false in the first: the loop never ends. */
  lemma {:induction false} FullOfHoldupsLoops<W(!new)>(queue: seq<Item<W>>, batchSize: nat, chunks: nat)
    requires 0 < batchSize <= |Filter(queue, NeverPosts())|
    requires Filter(Chunk(queue, batchSize), StaysMissing()) != []
    ensures !StopsWithin(queue, batchSize, chunks)
    decreases chunks
  {
    var chunk := Chunk(queue, batchSize);
    FilterShorter(queue, NeverPosts());
    assert Filter(chunk, StaysMissing())[0] in chunk;
    var k :| 0 <= k < |chunk| && chunk[k] == Filter(chunk, StaysMissing())[0];
    NotAllFail(chunk, |chunk|, k);
    if chunks > 0 {
      NeverTakenOut(queue, batchSize, NeverPosts());
      NeverTakenOut(queue, batchSize, StaysMissing());
      StillInChunk(queue, batchSize);
      FullOfHoldupsLoops(AfterChunk(queue, batchSize), batchSize, chunks - 1);
    }
  }

  lemma {:induction false} StillInChunk<W(!new)>(queue: seq<Item<W>>, batchSize: nat)
    requires Filter(Remaining(Chunk(queue, batchSize), Always()), StaysMissing()) != []
    ensures Filter(Chunk(AfterChunk(queue, batchSize), batchSize), StaysMissing()) != []
  {
    var remaining := Remaining(Chunk(queue, batchSize), Always());
    RemainingShrinks(Chunk(queue, batchSize), Always());
    var item := Filter(remaining, StaysMissing())[0];
    assert item in Filter(remaining, StaysMissing());
    var k :| 0 <= k < |remaining| && remaining[k] == item;
    assert Chunk(AfterChunk(queue, batchSize), batchSize)[k] == item;
    assert item in Chunk(AfterChunk(queue, batchSize), batchSize);
  }

  /**
   When a record in the first chunk answers false, the loop ends only if those that never
   post do not fill a chunk.
   */
  lemma {:induction false} HoldupsThatFillLoopForever<W(!new)>(queue: seq<Item<W>>, batchSize: nat)
    requires 0 < batchSize <= |Filter(queue, NeverPosts())|
    requires Filter(Chunk(queue, batchSize), StaysMissing()) != []
    ensures !Terminates(queue, batchSize)
  {
    forall chunks: nat
      ensures !StopsWithin(queue, batchSize, chunks)
    {
      FullOfHoldupsLoops(queue, batchSize, chunks);
    }
  }

  /** One failing record behind a success is enough: the chunk is not all failures, and nothing stays posted. */
  lemma {:induction false} OneFailureLoopsForever<W>(w: W)
    ensures !Terminates([Item([w], Posted), Item([], Raised)], 2)
  {
    var queue := [Item([w], Posted), Item([], Raised)];
    TerminatesExactly(queue, 2);
    assert Chunk(queue, 2) == queue;
    assert Posts(queue)(0) && !Posts(queue)(1);
    assert Count(0, 1, Posts(queue)) == 1;
    assert BlockEnd(queue, 0) == BlockEnd(queue, 1) == 2 && queue[1].outcome.Raised?;
    assert !Survives(queue, 2)(0);
    assert !DurablePosts(queue, Always())(0);
    assert !DurablePosts(queue, Always())(1);
    assert Count(0, 1, DurablePosts(queue, Always())) == 0;
  }

  // ----- records that behave differently each time

  /** One chunk of a run in which commits may fail and records may change their minds. */
  datatype Round<W> = Round(missing: nat, items: seq<Item<W>>, commits: nat -> bool) {
    function DurableCount(): nat { Count(0, |items|, DurablePosts(items, commits)) }
  }

  ghost predicate Run<W>(rounds: seq<Round<W>>, batchSize: nat) {
    && (forall k :: 0 <= k < |rounds| ==>
          |rounds[k].items| == if batchSize <= rounds[k].missing then batchSize else rounds[k].missing)
    && (forall k :: 0 <= k < |rounds| - 1 ==>
          !StopsAfter(rounds[k].items, batchSize)
            && rounds[k + 1].missing == rounds[k].missing - rounds[k].DurableCount())
  }

  /** If every chunk that does not stop the loop makes a durable post, the loop ends. */
  lemma {:induction false} DurablePostsEndTheLoop<W>(rounds: seq<Round<W>>, batchSize: nat)
    requires Run(rounds, batchSize) && rounds != []
    requires forall k :: 0 <= k < |rounds| - 1 ==> rounds[k].DurableCount() >= 1
    ensures |rounds| + rounds[|rounds| - 1].missing <= rounds[0].missing + 1
  {
    if |rounds| > 1 {
      var init := rounds[..|rounds| - 1];
      DurablePostsEndTheLoop(init, batchSize);
      assert init[|init| - 1] == rounds[|rounds| - 2];
      assert rounds[|rounds| - 2 + 1].missing == rounds[|rounds| - 2].missing - rounds[|rounds| - 2].DurableCount();
    }
  }
}
