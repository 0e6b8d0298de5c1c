/**
 The general ledger backfill (scripts/backfill_gl_postings.py): no savepoints, so
 a record that raises rolls back its whole pending block; and a chunk loop that
 runs until a chunk comes back short, empty, or with nothing but failures.
 */
module GlBackfill {
  import opened Collections
  import opened Sessions

  /** What the posting function does: returns true, returns false, or raises. */
  datatype Outcome = Posted | NotPosted | Raised

  datatype Item<W> = Item(writes: seq<W>, outcome: Outcome)

  datatype Totals = Totals(total: nat, posted: nat, failed: nat)

  const BLOCK: nat := 50

  function Writes<W>(items: seq<Item<W>>): nat -> seq<W> {
    (i: nat) => if i < |items| then items[i].writes else []
  }

  function Posts<W>(items: seq<Item<W>>): nat -> bool {
    (i: nat) => i < |items| && items[i].outcome.Posted?
  }

  function Fails<W>(items: seq<Item<W>>): nat -> bool {
    (i: nat) => i < |items| && items[i].outcome.Raised?
  }

  /** Where the block of record `i` ends: at the next multiple of fifty, or with the batch. */
  function BlockEnd<W>(items: seq<Item<W>>, i: nat): nat {
    var boundary := (i / BLOCK + 1) * BLOCK;
    if boundary <= |items| then boundary else |items|
  }

  /** The commit deciding over record `i`: after the record it names, or the final one. */
  function DecidingCommit<W>(items: seq<Item<W>>, i: nat): nat {
    var boundary := (i / BLOCK + 1) * BLOCK;
    if boundary <= |items| then boundary - 1 else |items|
  }

  /** Record `k` did not raise and no record after it, before `end`, did. */
  function Survives<W>(items: seq<Item<W>>, end: nat): nat -> bool {
    (k: nat) => k < end <= |items| && forall j :: k <= j < end ==> !items[j].outcome.Raised?
  }

  function Durable<W>(items: seq<Item<W>>, commits: nat -> bool): nat -> bool {
    (k: nat) => k < |items| && Survives(items, BlockEnd(items, k))(k) && commits(DecidingCommit(items, k))
  }

  function DurablePosts<W>(items: seq<Item<W>>, commits: nat -> bool): nat -> bool {
    (k: nat) => Posts(items)(k) && Durable(items, commits)(k)
  }

  // ----- one batch

  /** `q` full blocks lie before `end`, and the commit `at` decides over the records since then. */
  ghost predicate Decides<W>(items: seq<Item<W>>, q: nat, end: nat, at: nat) {
    && BLOCK * q <= end <= |items|
    && ((at == |items| == end && end < BLOCK * q + BLOCK) || (end == BLOCK * q + BLOCK && at == end - 1))
  }

  lemma {:induction false} BlockOf<W>(items: seq<Item<W>>, q: nat, end: nat, at: nat)
    requires Decides(items, q, end, at)
    ensures forall k :: BLOCK * q <= k < end ==> BlockEnd(items, k) == end && DecidingCommit(items, k) == at
  {
    forall k | BLOCK * q <= k < end
      ensures k / BLOCK == q
    {
    }
  }

  lemma {:induction false} BlockDecided<W>(
      items: seq<Item<W>>, commits: nat -> bool, q: nat, start: nat, end: nat, at: nat)
    requires start == BLOCK * q && Decides(items, q, end, at)
    ensures Kept(0, end, Durable(items, commits), Writes(items)) ==
            Kept(0, start, Durable(items, commits), Writes(items)) +
            if commits(at) then Kept(start, end, Survives(items, end), Writes(items)) else []
  {
    var durable, writes := Durable(items, commits), Writes(items);
    KeptSplit(0, start, end, durable, writes);
    BlockOf(items, q, end, at);
    if commits(at) {
      KeptSame(start, end, durable, Survives(items, end), writes, writes);
    } else {
      KeptNone(start, end, durable, writes);
    }
  }

  /** A record that raises empties the pending block, its own writes included. */
  lemma {:induction false} PendingStep<W>(items: seq<Item<W>>, start: nat, i: nat)
    requires start <= i < |items|
    ensures Kept(start, i + 1, Survives(items, i + 1), Writes(items)) ==
            if items[i].outcome.Raised? then [] else Kept(start, i, Survives(items, i), Writes(items)) + items[i].writes
  {
    var after := Survives(items, i + 1);
    if items[i].outcome.Raised? {
      assert forall k :: start <= k < i + 1 ==> !after(k);
      KeptNone(start, i + 1, after, Writes(items));
    } else {
      forall k | start <= k < i
        ensures after(k) == Survives(items, i)(k)
      {
      }
      KeptSame(start, i, after, Survives(items, i), Writes(items), Writes(items));
      assert after(i);
    }
  }

  method PostItem<W>(session: Session<W>, item: Item<W>) returns (outcome: Outcome)
    requires session.Valid()
    modifies session`pending
    ensures session.Valid() && session.pending == old(session.pending) + item.writes && outcome == item.outcome
  {
    session.Write(item.writes);
    outcome := item.outcome;
  }

  lemma {:induction false} Boundary(q: nat, i: nat)
    requires BLOCK * q <= i < BLOCK * q + BLOCK
    ensures (i + 1) % BLOCK == 0 <==> i + 1 == BLOCK * q + BLOCK
    ensures (BLOCK * q + BLOCK) == BLOCK * (q + 1)
  {
  }

  ghost predicate Tallied<W>(items: seq<Item<W>>, i: nat, posted: nat, failed: nat) {
    posted == Count(0, i, Posts(items)) && failed == Count(0, i, Fails(items))
  }

  lemma {:induction false} TallyStep<W>(items: seq<Item<W>>, i: nat, posted: nat, failed: nat)
    requires i < |items| && Tallied(items, i, posted, failed)
    ensures Tallied(items, i + 1, posted + (if items[i].outcome.Posted? then 1 else 0),
                    failed + if items[i].outcome.Raised? then 1 else 0)
  {
  }

  /** One record: its writes join the pending block, or the block is rolled back with it. */
  method TryItem<W>(session: Session<W>, item: Item<W>) returns (outcome: Outcome)
    requires session.Valid() && session.savepoint.None?
    modifies session`pending, session`savepoint
    ensures session.Valid() && session.savepoint.None? && outcome == item.outcome
    ensures session.pending == if item.outcome.Raised? then [] else old(session.pending) + item.writes
  {
    outcome := PostItem(session, item);
    if outcome.Raised? {
      session.Rollback();
    }
  }

  /** After `i` records, `q` full blocks are settled and the rest of the current one is pending. */
  ghost predicate Standing<W>(
      items: seq<Item<W>>, commits: nat -> bool, base: seq<W>, committed: seq<W>, pending: seq<W>, q: nat, i: nat)
  {
    && BLOCK * q <= i <= |items| && i < BLOCK * q + BLOCK
    && committed == base + Kept(0, BLOCK * q, Durable(items, commits), Writes(items))
    && pending == Kept(BLOCK * q, i, Survives(items, i), Writes(items))
  }

  lemma {:induction false} Settled<W>(
      items: seq<Item<W>>, commits: nat -> bool, base: seq<W>, committed: seq<W>, pending: seq<W>, q: nat, end: nat,
      at: nat)
    requires Decides(items, q, end, at)
    requires committed == base + Kept(0, BLOCK * q, Durable(items, commits), Writes(items))
    requires pending == Kept(BLOCK * q, end, Survives(items, end), Writes(items))
    ensures committed + (if commits(at) then pending else []) ==
              base + Kept(0, end, Durable(items, commits), Writes(items))
  {
    BlockDecided(items, commits, q, BLOCK * q, end, at);
    AppendAssociates(base, Kept(0, BLOCK * q, Durable(items, commits), Writes(items)),
                     if commits(at) then pending else []);
  }

  /** One record, and the commit behind it when it is a fiftieth one. */
  method ProcessItem<W>(
      session: Session<W>, items: seq<Item<W>>, commits: nat -> bool, i: nat, ghost base: seq<W>, ghost q: nat)
    returns (outcome: Outcome, ghost next: nat)
    requires session.Valid() && session.savepoint.None? && i < |items|
    requires Standing(items, commits, base, session.committed, session.pending, q, i)
    modifies session
    ensures session.Valid() && session.savepoint.None? && outcome == items[i].outcome
    ensures Standing(items, commits, base, session.committed, session.pending, next, i + 1)
  {
    PendingStep(items, BLOCK * q, i);
    Boundary(q, i);
    outcome := TryItem(session, items[i]);
    next := q;
    if (i + 1) % BLOCK == 0 {
      Settled(items, commits, base, session.committed, session.pending, q, i + 1, i);
      session.CommitOrRollback(commits(i));
      next := q + 1;
    }
  }

  method ProcessBatch<W>(session: Session<W>, items: seq<Item<W>>, commits: nat -> bool) returns (totals: Totals)
    requires session.Valid() && session.savepoint.None? && session.pending == []
    modifies session
    ensures session.Valid() && session.savepoint.None? && session.pending == []
    ensures session.committed == old(session.committed) + Kept(0, |items|, Durable(items, commits), Writes(items))
    ensures totals == Totals(|items|, Count(0, |items|, Posts(items)), Count(0, |items|, Fails(items)))
  {
    var posted, failed := 0, 0;
    ghost var q, base := 0, session.committed;
    for i := 0 to |items|
      invariant session.Valid() && session.savepoint.None?
      invariant Standing(items, commits, base, session.committed, session.pending, q, i)
      invariant Tallied(items, i, posted, failed)
    {
      TallyStep(items, i, posted, failed);
      var outcome;
      outcome, q := ProcessItem(session, items, commits, i, base, q);
      match outcome
      case Posted => posted := posted + 1;
      case NotPosted =>
      case Raised => failed := failed + 1;
    }
    Settled(items, commits, base, session.committed, session.pending, q, |items|, |items|);
    session.CommitOrRollback(commits(|items|));
    totals := Totals(|items|, posted, failed);
  }

  // ----- what a batch keeps

  /** Only a record that raises counts as failed; one that answers false counts neither way. */
  lemma {:induction false} TotalsExactly<W>(items: seq<Item<W>>)
    ensures Count(0, |items|, Posts(items)) == |set i: nat | i < |items| && items[i].outcome == Posted|
    ensures Count(0, |items|, Fails(items)) == |set i: nat | i < |items| && items[i].outcome == Raised|
  {
    CountMeans(0, |items|, Posts(items), set i: nat | i < |items| && items[i].outcome == Posted);
    CountMeans(0, |items|, Fails(items), set i: nat | i < |items| && items[i].outcome == Raised);
  }

  /** A commit falls due behind record `at`: every fiftieth one, or the end. */
  ghost predicate CommitDue<W>(items: seq<Item<W>>, at: nat) { at == |items| || (at < |items| && at % 50 == 49) }

  /** The first commit due behind record `k` is `at`. */
  ghost predicate NextDue<W>(items: seq<Item<W>>, k: nat, at: nat) {
    k <= at && CommitDue(items, at) && forall j: nat :: k <= j < at ==> !CommitDue(items, j)
  }

  lemma {:induction false} PlaceInBlock(q: nat, j: nat)
    requires 50 * q <= j < 50 * q + 50
    ensures j % 50 == j - 50 * q && j / 50 == q
  {
  }

  lemma {:induction false} DecidingIsNext<W>(items: seq<Item<W>>, k: nat)
    requires k < |items|
    ensures var at := DecidingCommit(items, k);
            NextDue(items, k, at) && BlockEnd(items, k) == if at < |items| then at + 1 else |items|
  {
    var q := k / 50;
    var at := DecidingCommit(items, k);
    assert 50 * q <= k < 50 * q + 50 && (q + 1) * BLOCK == 50 * q + 50;
    forall j: nat | k <= j < 50 * q + 50
      ensures j % 50 == j - 50 * q
    {
      PlaceInBlock(q, j);
    }
  }

  /** A record's writes are durable exactly when nothing raises from it up to the next commit due, which succeeds. */
  lemma {:induction false} DurableExactly<W>(items: seq<Item<W>>, commits: nat -> bool, k: nat)
    ensures Durable(items, commits)(k) <==>
            && k < |items|
            && exists at: nat :: && NextDue(items, k, at) && commits(at)
                                 && forall j: nat :: k <= j <= at && j < |items| ==> items[j].outcome != Raised
  {
    if k < |items| {
      DecidingIsNext(items, k);
      forall at: nat | NextDue(items, k, at)
        ensures at == DecidingCommit(items, k)
      {
      }
      assert k < BlockEnd(items, k) <= |items| by {
        BlockMates(items, k);
      }
      assert NextDue(items, k, DecidingCommit(items, k));
    }
  }

  /** The report may promise more than the ledger holds, never less. */
  lemma {:induction false} DurableAtMostReported<W>(items: seq<Item<W>>, commits: nat -> bool)
    ensures Count(0, |items|, DurablePosts(items, commits)) <= Count(0, |items|, Posts(items))
  {
    CountMonotone(0, |items|, DurablePosts(items, commits), Posts(items));
  }

  /** No success is lost exactly when no record raises later in the block of a success. */
  lemma {:induction false} NothingLostExactly<W>(items: seq<Item<W>>, commits: nat -> bool)
    requires forall i :: commits(i)
    ensures (forall k :: Posts(items)(k) ==> Durable(items, commits)(k)) <==>
            (forall k, j :: 0 <= k < j < |items| && items[k].outcome.Posted? && k / 50 == j / 50
                            ==> !items[j].outcome.Raised?)
  {
    forall k | 0 <= k < |items|
      ensures k < BlockEnd(items, k) <= |items|
      ensures forall j :: k <= j < |items| ==> (j < BlockEnd(items, k) <==> j / BLOCK == k / BLOCK)
    {
      BlockMates(items, k);
    }
    if (forall k :: Posts(items)(k) ==> Durable(items, commits)(k)) {
      forall k, j | 0 <= k < j < |items| && items[k].outcome.Posted? && k / BLOCK == j / BLOCK
        ensures !items[j].outcome.Raised?
      {
        assert Posts(items)(k) && Survives(items, BlockEnd(items, k))(k);
      }
    }
    if forall k, j :: 0 <= k < j < |items| && items[k].outcome.Posted? && k / BLOCK == j / BLOCK ==>
         !items[j].outcome.Raised? {
      forall k | Posts(items)(k)
        ensures Durable(items, commits)(k)
      {
        assert Survives(items, BlockEnd(items, k))(k);
      }
    }
  }

  lemma {:induction false} BlockMates<W>(items: seq<Item<W>>, k: nat)
    requires k < |items|
    ensures k < BlockEnd(items, k) <= |items|
    ensures forall j :: k <= j < |items| ==> (j < BlockEnd(items, k) <==> j / BLOCK == k / BLOCK)
  {
    var q := k / BLOCK;
    assert BLOCK * q <= k < BLOCK * (q + 1);
    forall j | k <= j < |items|
      ensures j < (q + 1) * BLOCK <==> j / BLOCK == q
    {
    }
  }

  /** One failure does take earlier successes of its block with it, though they stay in the count. */
  lemma {:induction false} FailureCascades<W>(w: W, commits: nat -> bool)
    ensures var items := [Item([w], Posted), Item([], Raised)];
            && Count(0, 2, Posts(items)) == 1
            && Kept(0, 2, Durable(items, commits), Writes(items)) == []
  {
    var items := [Item([w], Posted), Item([], Raised)];
    assert BlockEnd(items, 0) == BlockEnd(items, 1) == 2;
    assert items[1].outcome.Raised?;
    assert !Survives(items, 2)(0) && !Survives(items, 2)(1);
    KeptNone(0, 2, Durable(items, commits), Writes(items));
    assert Posts(items)(0) && !Posts(items)(1);
    assert Count(0, 1, Posts(items)) == 1;
  }
}
