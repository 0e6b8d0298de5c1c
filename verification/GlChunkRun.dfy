/**
 What the chunks of the general ledger backfill take out of the queue
 (scripts/backfill_gl_postings.py): which records, once each, and what stays in
 which order; whatever the commits do and however records behave in each chunk.
 */
module GlChunkRun {
  import opened Collections
  import opened Sessions
  import opened GlBackfill
  import opened GlChunkLoop

  lemma {:induction false} KeptPositions<W>(queue: seq<Item<W>>, n: nat, chosen: nat -> bool) returns (ks: seq<nat>)
    requires n <= |queue|
    ensures StandAt(Kept(0, n, chosen, Itself(queue)), queue, ks)
    ensures forall i: nat :: i in ks <==> i < n && chosen(i)
  {
    if n == 0 {
      ks := [];
    } else {
      var init := KeptPositions(queue, n - 1, chosen);
      ks := init + if chosen(n - 1) then [n - 1] else [];
      forall i, j | 0 <= i < j < |ks|
        ensures ks[i] < ks[j]
      {
        assert ks[i] in init;
      }
    }
  }

  /** Nothing before `start` is told; from there on everything is chosen. */
  lemma {:induction false} KeptRest<W>(queue: seq<Item<W>>, start: nat, n: nat, chosen: nat -> bool)
    requires start <= n <= |queue| && forall i: nat :: start <= i < n ==> chosen(i)
    ensures Kept(start, n, chosen, Itself(queue)) == queue[start..n]
    decreases n
  {
    if start < n {
      KeptRest(queue, start, n - 1, chosen);
    }
  }

  /** How many records the chunk holds. */
  ghost function Size<W>(queue: seq<Item<W>>, batchSize: nat): nat {
    if batchSize <= |queue| then batchSize else |queue|
  }

  /** Record `i` of the queue is in the chunk, posted, and its post is durable. */
  ghost predicate TakenOut<W>(queue: seq<Item<W>>, batchSize: nat, world: World<W>, chunk: nat, i: nat) {
    && i < Size(queue, batchSize) && world.behaves(chunk, queue[i]).outcome.Posted?
    && Durable(world.Chunk(Chunk(queue, batchSize), chunk), world.Commits(chunk))(i)
  }

  ghost function StaysAt<W>(queue: seq<Item<W>>, batchSize: nat, world: World<W>, chunk: nat): nat -> bool {
    (i: nat) => !TakenOut(queue, batchSize, world, chunk, i)
  }

  lemma {:induction false} LeftStays<W>(queue: seq<Item<W>>, batchSize: nat, world: World<W>, chunk: nat, k: nat)
    requires k < |Chunk(queue, batchSize)|
    ensures Left(world.Chunk(Chunk(queue, batchSize), chunk), world.Commits(chunk))(k) ==
            StaysAt(queue, batchSize, world, chunk)(k)
  {
    var done, commits := world.Chunk(Chunk(queue, batchSize), chunk), world.Commits(chunk);
    assert done[k] == world.behaves(chunk, queue[k]);
    assert DurablePosts(done, commits)(k) == (Posts(done)(k) && Durable(done, commits)(k));
    assert Posts(done)(k) == done[k].outcome.Posted?;
  }

  lemma {:induction false} LeftOfChunk<W>(queue: seq<Item<W>>, batchSize: nat, world: World<W>, chunk: nat)
    ensures OneChunk(queue, batchSize, world, chunk).left ==
            Kept(0, |queue|, StaysAt(queue, batchSize, world, chunk), Itself(queue))
  {
    var items, stays := Chunk(queue, batchSize), StaysAt(queue, batchSize, world, chunk);
    var done := world.Chunk(items, chunk);
    KeptSplit(0, |items|, |queue|, stays, Itself(queue));
    forall k: nat | k < |items|
      ensures Left(done, world.Commits(chunk))(k) == stays(k) && Itself(items)(k) == Itself(queue)(k)
    {
      LeftStays(queue, batchSize, world, chunk, k);
    }
    KeptSame(0, |items|, Left(done, world.Commits(chunk)), stays, Itself(items), Itself(queue));
    KeptRest(queue, |items|, |queue|, stays);
  }

  /** A chunk leaves the queue as it was, in order, less exactly the records whose posts it made durable. */
  lemma {:induction false} ChunkLeaves<W>(queue: seq<Item<W>>, batchSize: nat, world: World<W>, chunk: nat)
    returns (ks: seq<nat>)
    ensures StandAt(OneChunk(queue, batchSize, world, chunk).left, queue, ks)
    ensures forall i: nat :: i in ks <==> i < |queue| && !TakenOut(queue, batchSize, world, chunk, i)
  {
    LeftOfChunk(queue, batchSize, world, chunk);
    ks := KeptPositions(queue, |queue|, StaysAt(queue, batchSize, world, chunk));
  }

  lemma {:induction false} CountAll(n: nat, chosen: nat -> bool)
    ensures Count(0, n, chosen) == n <==> forall i: nat :: i < n ==> chosen(i)
    ensures Count(0, n, chosen) == 0 <==> forall i: nat :: i < n ==> !chosen(i)
  {
    if n > 0 {
      CountAll(n - 1, chosen);
    }
  }

  /** The loop ends behind a chunk that is empty or short, or in which every record raised. */
  lemma {:induction false} EndsExactly<W>(queue: seq<Item<W>>, batchSize: nat, world: World<W>, chunk: nat)
    ensures OneChunk(queue, batchSize, world, chunk).ended <==>
            || queue == [] || |queue| < batchSize
            || forall i: nat :: i < Size(queue, batchSize) ==> world.behaves(chunk, queue[i]).outcome.Raised?
  {
    var items := Chunk(queue, batchSize);
    var done := world.Chunk(items, chunk);
    CountAll(|done|, Fails(done));
    CountAll(|done|, Posts(done));
    assert forall i: nat :: i < |done| ==> done[i] == world.behaves(chunk, queue[i]);
    assert forall i: nat :: i < |done| ==> (Fails(done)(i) <==> done[i].outcome.Raised?);
    assert forall i: nat :: i < |done| ==> (Posts(done)(i) <==> done[i].outcome.Posted?);
  }

  // ----- a run of chunks

  /** The records that the first chunks take out, chunk by chunk. */
  ghost function Taken<W>(queue: seq<Item<W>>, batchSize: nat, world: World<W>, chunk: nat, most: nat): seq<Item<W>>
    decreases most
  {
    if most == 0 then []
    else
      var one := OneChunk(queue, batchSize, world, chunk);
      TakenBy(queue, batchSize, world, chunk)
      + if one.ended then [] else Taken(one.left, batchSize, world, chunk + 1, most - 1)
  }

  ghost function TakenAt<W>(queue: seq<Item<W>>, batchSize: nat, world: World<W>, chunk: nat): nat -> bool {
    (i: nat) => TakenOut(queue, batchSize, world, chunk, i)
  }

  ghost function TakenBy<W>(queue: seq<Item<W>>, batchSize: nat, world: World<W>, chunk: nat): seq<Item<W>> {
    Kept(0, |queue|, TakenAt(queue, batchSize, world, chunk), Itself(queue))
  }

  lemma {:induction false} KeptOrNot<W>(queue: seq<Item<W>>, n: nat, chosen: nat -> bool, others: nat -> bool)
    requires n <= |queue| && forall i: nat :: chosen(i) == !others(i)
    ensures multiset(queue[..n]) ==
            multiset(Kept(0, n, chosen, Itself(queue))) + multiset(Kept(0, n, others, Itself(queue)))
  {
    if n > 0 {
      KeptOrNot(queue, n - 1, chosen, others);
      assert queue[..n] == queue[..n - 1] + [queue[n - 1]];
    }
  }

  /** The parts hold together exactly what the whole holds. */
  ghost predicate Splits<T>(all: seq<T>, a: seq<T>, b: seq<T>) { multiset(all) == multiset(a) + multiset(b) }

  lemma {:induction false} ChunkSplits<W>(queue: seq<Item<W>>, batchSize: nat, world: World<W>, chunk: nat)
    ensures Splits(queue, TakenBy(queue, batchSize, world, chunk), OneChunk(queue, batchSize, world, chunk).left)
  {
    LeftOfChunk(queue, batchSize, world, chunk);
    assert queue[..|queue|] == queue;
    KeptOrNot(queue, |queue|, TakenAt(queue, batchSize, world, chunk), StaysAt(queue, batchSize, world, chunk));
  }

  lemma {:induction false} SplitsTwice<T>(all: seq<T>, a: seq<T>, rest: seq<T>, b: seq<T>, end: seq<T>)
    requires Splits(all, a, rest) && Splits(rest, b, end)
    ensures Splits(all, a + b, end)
  {
    assert multiset(a + b) == multiset(a) + multiset(b);
  }

  lemma {:induction false} SplitsOff<T>(all: seq<T>)
    ensures Splits(all, [], all)
  {
  }

  lemma {:induction false} RunUnfolds<W>(
      queue: seq<Item<W>>, batchSize: nat, world: World<W>, chunk: nat, most: nat, one: Progress<W>)
    requires most > 0 && one == OneChunk(queue, batchSize, world, chunk)
    ensures Taken(queue, batchSize, world, chunk, most) ==
            TakenBy(queue, batchSize, world, chunk)
            + if one.ended then [] else Taken(one.left, batchSize, world, chunk + 1, most - 1)
    ensures Chunks(queue, batchSize, world, chunk, most).left ==
            if one.ended then one.left else Chunks(one.left, batchSize, world, chunk + 1, most - 1).left
  {
  }

  /** The queue holds exactly what the first chunks take out of it and what they leave. */
  ghost predicate RunSplits<W>(queue: seq<Item<W>>, batchSize: nat, world: World<W>, chunk: nat, most: nat) {
    Splits(queue, Taken(queue, batchSize, world, chunk, most), Chunks(queue, batchSize, world, chunk, most).left)
  }

  lemma {:induction false} NoChunkSplits<W>(queue: seq<Item<W>>, batchSize: nat, world: World<W>, chunk: nat)
    ensures RunSplits(queue, batchSize, world, chunk, 0)
  {
    SplitsOff(queue);
  }

  lemma {:induction false} LastChunkSplits<W>(
      queue: seq<Item<W>>, batchSize: nat, world: World<W>, chunk: nat, most: nat, one: Progress<W>)
    requires most > 0 && one == OneChunk(queue, batchSize, world, chunk) && one.ended
    ensures RunSplits(queue, batchSize, world, chunk, most)
  {
    ChunkSplits(queue, batchSize, world, chunk);
    RunUnfolds(queue, batchSize, world, chunk, most, one);
    SplitsOff(one.left);
    SplitsTwice(queue, TakenBy(queue, batchSize, world, chunk), one.left, [], one.left);
  }

  lemma {:induction false} EarlierChunkSplits<W>(
      queue: seq<Item<W>>, batchSize: nat, world: World<W>, chunk: nat, most: nat, one: Progress<W>)
    requires most > 0 && one == OneChunk(queue, batchSize, world, chunk) && !one.ended
    requires RunSplits(one.left, batchSize, world, chunk + 1, most - 1)
    ensures RunSplits(queue, batchSize, world, chunk, most)
  {
    ChunkSplits(queue, batchSize, world, chunk);
    RunUnfolds(queue, batchSize, world, chunk, most, one);
    SplitsTwice(queue, TakenBy(queue, batchSize, world, chunk), one.left,
                Taken(one.left, batchSize, world, chunk + 1, most - 1),
                Chunks(one.left, batchSize, world, chunk + 1, most - 1).left);
  }

  /** Whatever happens, each record of the queue is still missing or was taken out, once. */
  lemma {:induction false} NoRecordIsLost<W>(
      queue: seq<Item<W>>, batchSize: nat, world: World<W>, chunk: nat, most: nat)
    ensures RunSplits(queue, batchSize, world, chunk, most)
    decreases most
  {
    if most == 0 {
      NoChunkSplits(queue, batchSize, world, chunk);
    } else {
      var one := OneChunk(queue, batchSize, world, chunk);
      if one.ended {
        LastChunkSplits(queue, batchSize, world, chunk, most, one);
      } else {
        NoRecordIsLost(one.left, batchSize, world, chunk + 1, most - 1);
        EarlierChunkSplits(queue, batchSize, world, chunk, most, one);
      }
    }
  }

  lemma {:induction false} StandCompose<T>(
      inner: seq<T>, middle: seq<T>, outer: seq<T>, js: seq<nat>, ks: seq<nat>) returns (both: seq<nat>)
    requires StandAt(inner, middle, js) && StandAt(middle, outer, ks)
    ensures StandAt(inner, outer, both)
  {
    both := seq(|js|, (i: nat) requires i < |js| => ks[js[i]]);
  }

  /** And what is still missing stands in its old order. */
  lemma {:induction false} OrderIsKept<W>(
      queue: seq<Item<W>>, batchSize: nat, world: World<W>, chunk: nat, most: nat) returns (ks: seq<nat>)
    ensures StandAt(Chunks(queue, batchSize, world, chunk, most).left, queue, ks)
    decreases most
  {
    if most == 0 {
      ks := seq(|queue|, (i: nat) => i);
    } else {
      var one := OneChunk(queue, batchSize, world, chunk);
      ks := ChunkLeaves(queue, batchSize, world, chunk);
      if !one.ended {
        var later := OrderIsKept(one.left, batchSize, world, chunk + 1, most - 1);
        ks := StandCompose(Chunks(one.left, batchSize, world, chunk + 1, most - 1).left, one.left, queue, later, ks);
      }
    }
  }
}
