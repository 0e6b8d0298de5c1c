/**
 The inventory backfill (scripts/backfill_inventory_gl_postings.py): one
 savepoint per transaction, a commit at every fiftieth one, and a budget of
 transactions shared by all organizations.
 */
module InventoryBackfill {
  import opened Collections
  import opened Sessions

  datatype Outcome = Success | Refused | Raised

  /** One inventory transaction and what posting it writes and answers. */
  datatype Transaction<W> = Transaction(totalCost: Option<int>, writes: seq<W>, outcome: Outcome) {
    predicate ZeroCost() { totalCost == None || totalCost == Some(0) }
  }

  datatype Totals = Totals(total: nat, posted: nat, failed: nat, skippedZeroCost: nat)

  const BLOCK: nat := 50

  function Writes<W>(txns: seq<Transaction<W>>): nat -> seq<W> {
    (i: nat) => if i < |txns| then txns[i].writes else []
  }

  function Posts<W>(txns: seq<Transaction<W>>): nat -> bool {
    (i: nat) => i < |txns| && !txns[i].ZeroCost() && txns[i].outcome.Success?
  }

  function Fails<W>(txns: seq<Transaction<W>>): nat -> bool {
    (i: nat) => i < |txns| && !txns[i].ZeroCost() && !txns[i].outcome.Success?
  }

  function Skips<W>(txns: seq<Transaction<W>>): nat -> bool {
    (i: nat) => i < |txns| && txns[i].ZeroCost()
  }

  /** A commit follows every fiftieth transaction, unless that one is skipped for its zero cost. */
  predicate CommitsAfter<W>(txns: seq<Transaction<W>>, i: nat) {
    i < |txns| && !txns[i].ZeroCost() && (i + 1) % BLOCK == 0
  }

  /** The commit that decides over transaction `i`; `|txns|` stands for the final one. */
  function NextCommit<W>(txns: seq<Transaction<W>>, i: nat): (r: nat)
    requires i <= |txns|
    ensures i <= r <= |txns| && (r == |txns| || CommitsAfter(txns, r))
    ensures forall k :: i <= k < r ==> !CommitsAfter(txns, k)
    decreases |txns| - i
  {
    if i == |txns| || CommitsAfter(txns, i) then i else NextCommit(txns, i + 1)
  }

  /** `commits(i)` says whether the commit after transaction `i` succeeds, `commits(|txns|)` the final one. */
  function Durable<W>(txns: seq<Transaction<W>>, commits: nat -> bool): nat -> bool {
    (i: nat) => i < |txns| && Posts(txns)(i) && commits(NextCommit(txns, i))
  }

  method PostTransaction<W>(session: Session<W>, txn: Transaction<W>) returns (outcome: Outcome)
    requires session.Valid()
    modifies session`pending
    ensures session.Valid() && session.pending == old(session.pending) + txn.writes && outcome == txn.outcome
  {
    session.Write(txn.writes);
    outcome := txn.outcome;
  }

  /** One attempt inside its savepoint: a success stays pending, anything else leaves no trace. */
  method Attempt<W>(session: Session<W>, txn: Transaction<W>) returns (posted: bool)
    requires session.Valid() && session.savepoint.None?
    modifies session`pending, session`savepoint
    ensures session.Valid() && session.savepoint.None?
    ensures posted == txn.outcome.Success?
    ensures session.pending == old(session.pending) + if posted then txn.writes else []
  {
    session.BeginNested();
    var outcome := PostTransaction(session, txn);
    match outcome
    case Success =>
      posted := true;
      session.ReleaseSavepoint();
    case Refused =>
      posted := false;
      session.RollbackToSavepoint();
    case Raised =>
      posted := false;
      session.RollbackToSavepoint();
  }

  /** Nothing between the last commit point and here has been decided yet. */
  ghost predicate Undecided<W>(txns: seq<Transaction<W>>, last: nat, here: nat) {
    last <= here <= |txns| && forall k :: last <= k < here ==> !CommitsAfter(txns, k)
  }

  lemma {:induction false} BlockDecided<W>(
      txns: seq<Transaction<W>>, commits: nat -> bool, last: nat, end: nat, at: nat)
    requires Undecided(txns, last, at) && at <= end <= |txns| && end <= at + 1
    requires at == |txns| || (end == at + 1 && CommitsAfter(txns, at))
    ensures Kept(0, end, Durable(txns, commits), Writes(txns)) ==
            Kept(0, last, Durable(txns, commits), Writes(txns)) +
            if commits(at) then Kept(last, end, Posts(txns), Writes(txns)) else []
  {
    var durable, writes := Durable(txns, commits), Writes(txns);
    KeptSplit(0, last, end, durable, writes);
    forall k | last <= k < end
      ensures NextCommit(txns, k) == at
    {
    }
    if commits(at) {
      KeptSame(last, end, durable, Posts(txns), writes, writes);
    } else {
      KeptNone(last, end, durable, writes);
    }
  }

  /** The commit at a boundary settles everything since the last one. */
  method SettleBlock<W>(
      session: Session<W>, txns: seq<Transaction<W>>, commits: nat -> bool,
      ghost base: seq<W>, ghost last: nat, ghost end: nat, at: nat)
    requires session.Valid() && session.savepoint.None?
    requires Undecided(txns, last, at) && at <= end <= |txns| && end <= at + 1
    requires at == |txns| || (end == at + 1 && CommitsAfter(txns, at))
    requires session.committed == base + Kept(0, last, Durable(txns, commits), Writes(txns))
    requires session.pending == Kept(last, end, Posts(txns), Writes(txns))
    modifies session
    ensures session.Valid() && session.savepoint.None? && session.pending == []
    ensures session.committed == base + Kept(0, end, Durable(txns, commits), Writes(txns))
  {
    BlockDecided(txns, commits, last, end, at);
    AppendAssociates(base, Kept(0, last, Durable(txns, commits), Writes(txns)),
                     if commits(at) then session.pending else []);
    session.CommitOrRollback(commits(at));
  }

  ghost predicate Tallied<W>(txns: seq<Transaction<W>>, i: nat, posted: nat, failed: nat, skipped: nat) {
    posted == Count(0, i, Posts(txns)) && failed == Count(0, i, Fails(txns)) && skipped == Count(0, i, Skips(txns))
  }

  lemma {:induction false} TallyStep<W>(txns: seq<Transaction<W>>, i: nat, posted: nat, failed: nat, skipped: nat)
    requires i < |txns| && Tallied(txns, i, posted, failed, skipped)
    ensures Tallied(txns, i + 1, posted + (if Posts(txns)(i) then 1 else 0), failed + (if Fails(txns)(i) then 1 else 0),
                    skipped + if Skips(txns)(i) then 1 else 0)
  {
  }

  lemma {:induction false} KeptStep<W>(start: nat, txns: seq<Transaction<W>>, i: nat)
    requires start <= i < |txns|
    ensures Kept(start, i + 1, Posts(txns), Writes(txns)) ==
            Kept(start, i, Posts(txns), Writes(txns)) + if Posts(txns)(i) then txns[i].writes else []
  {
  }

  method ProcessBatch<W>(session: Session<W>, txns: seq<Transaction<W>>, commits: nat -> bool) returns (totals: Totals)
    requires session.Valid() && session.savepoint.None? && session.pending == []
    modifies session
    ensures session.Valid() && session.savepoint.None? && session.pending == []
    ensures session.committed == old(session.committed) + Kept(0, |txns|, Durable(txns, commits), Writes(txns))
    ensures totals == Totals(|txns|, Count(0, |txns|, Posts(txns)), Count(0, |txns|, Fails(txns)),
                             Count(0, |txns|, Skips(txns)))
  {
    var posted, failed, skippedZeroCost := 0, 0, 0;
    ghost var last := 0;
    for i := 0 to |txns|
      invariant session.Valid() && session.savepoint.None?
      invariant Undecided(txns, last, i)
      invariant session.committed == old(session.committed) + Kept(0, last, Durable(txns, commits), Writes(txns))
      invariant session.pending == Kept(last, i, Posts(txns), Writes(txns))
      invariant Tallied(txns, i, posted, failed, skippedZeroCost)
    {
      TallyStep(txns, i, posted, failed, skippedZeroCost);
      KeptStep(last, txns, i);
      if txns[i].ZeroCost() {
        skippedZeroCost := skippedZeroCost + 1;
        continue;
      }
      var success := Attempt(session, txns[i]);
      if success {
        posted := posted + 1;
      } else {
        failed := failed + 1;
      }
      if (i + 1) % BLOCK == 0 {
        SettleBlock(session, txns, commits, old(session.committed), last, i + 1, i);
        last := i + 1;
      }
    }
    SettleBlock(session, txns, commits, old(session.committed), last, |txns|, |txns|);
    totals := Totals(|txns|, posted, failed, skippedZeroCost);
  }

  // ----- what the totals and the durable writes mean

  /** Which transactions are attempted: those that cost something. */
  ghost function Attempted<W>(txns: seq<Transaction<W>>): set<nat> {
    set i: nat | i < |txns| && txns[i].totalCost != None && txns[i].totalCost != Some(0)
  }

  /** Successes and failures are told among the attempted; the others are the skipped ones. */
  lemma {:induction false} TotalsExactly<W>(txns: seq<Transaction<W>>)
    ensures Count(0, |txns|, Posts(txns)) == |set i | i in Attempted(txns) && txns[i].outcome.Success?|
    ensures Count(0, |txns|, Fails(txns)) == |set i | i in Attempted(txns) && !txns[i].outcome.Success?|
    ensures Count(0, |txns|, Skips(txns)) == |set i: nat | i < |txns| && txns[i].totalCost in {None, Some(0)}|
  {
    var attempted := Attempted(txns);
    CountMeans(0, |txns|, Posts(txns), set i | i in attempted && txns[i].outcome.Success?);
    CountMeans(0, |txns|, Fails(txns), set i | i in attempted && !txns[i].outcome.Success?);
    CountMeans(0, |txns|, Skips(txns), set i: nat | i < |txns| && txns[i].totalCost in {None, Some(0)});
  }

  /** A commit falls due behind transaction `at`: a fiftieth one that was attempted, or the end. */
  ghost predicate CommitDue<W>(txns: seq<Transaction<W>>, at: nat) {
    at == |txns| || (at in Attempted(txns) && at % 50 == 49)
  }

  /** The first commit due behind transaction `i` is `at`. */
  ghost predicate NextDue<W>(txns: seq<Transaction<W>>, i: nat, at: nat) {
    i <= at && CommitDue(txns, at) && forall k: nat :: i <= k < at ==> !CommitDue(txns, k)
  }

  lemma {:induction false} NextCommitIsNext<W>(txns: seq<Transaction<W>>, i: nat)
    requires i < |txns|
    ensures NextDue(txns, i, NextCommit(txns, i))
  {
    forall k: nat | k < |txns|
      ensures CommitsAfter(txns, k) <==> CommitDue(txns, k)
    {
      assert (k + 1) % 50 == 0 <==> k % 50 == 49;
    }
  }

  /** A transaction is durable exactly when it was attempted, succeeded, and the next commit due succeeds. */
  lemma {:induction false} DurableExactly<W>(txns: seq<Transaction<W>>, commits: nat -> bool, i: nat)
    ensures Durable(txns, commits)(i) <==>
            && i in Attempted(txns) && txns[i].outcome.Success?
            && exists at: nat :: NextDue(txns, i, at) && commits(at)
  {
    if i < |txns| {
      NextCommitIsNext(txns, i);
    }
  }

  lemma {:induction false} EveryTransactionIsCounted<W>(txns: seq<Transaction<W>>, n: nat)
    requires n <= |txns|
    ensures Count(0, n, Posts(txns)) + Count(0, n, Fails(txns)) + Count(0, n, Skips(txns)) == n
  {
    if n > 0 {
      EveryTransactionIsCounted(txns, n - 1);
    }
  }

  /** When every commit succeeds the durable writes are exactly those of the reported successes. */
  lemma {:induction false} SuccessesAreDurable<W>(txns: seq<Transaction<W>>, commits: nat -> bool)
    requires forall i :: commits(i)
    ensures Kept(0, |txns|, Durable(txns, commits), Writes(txns)) == Kept(0, |txns|, Posts(txns), Writes(txns))
    ensures Count(0, |txns|, Durable(txns, commits)) == Count(0, |txns|, Posts(txns))
  {
    KeptSame(0, |txns|, Durable(txns, commits), Posts(txns), Writes(txns), Writes(txns));
    CountMonotone(0, |txns|, Durable(txns, commits), Posts(txns));
    CountMonotone(0, |txns|, Posts(txns), Durable(txns, commits));
  }

  /** The same batch in which one transaction answers and writes something else. */
  function Answering<W>(txns: seq<Transaction<W>>, i: nat, writes: seq<W>, outcome: Outcome): seq<Transaction<W>>
    requires i < |txns|
  {
    txns[i := Transaction(txns[i].totalCost, writes, outcome)]
  }

  lemma {:induction false} SameCommits<W>(txns: seq<Transaction<W>>, i: nat, writes: seq<W>, outcome: Outcome, k: nat)
    requires i < |txns| && k <= |txns|
    ensures NextCommit(Answering(txns, i, writes, outcome), k) == NextCommit(txns, k)
    decreases |txns| - k
  {
    if k < |txns| {
      SameCommits(txns, i, writes, outcome, k + 1);
    }
  }

  /**
   However one transaction fails, and whatever it wrote before failing, the
   others keep exactly what they had without it.
   */
  lemma {:induction false} FailureDisturbsNothing<W>(
      txns: seq<Transaction<W>>, commits: nat -> bool, i: nat, writes: seq<W>, outcome: Outcome)
    requires i < |txns| && !outcome.Success?
    ensures forall k: nat :: k != i ==>
              Durable(Answering(txns, i, writes, outcome), commits)(k) == Durable(txns, commits)(k)
    ensures var after := Answering(txns, i, writes, outcome);
            Kept(0, |txns|, Durable(after, commits), Writes(after)) ==
            Kept(0, i, Durable(txns, commits), Writes(txns)) + Kept(i + 1, |txns|, Durable(txns, commits), Writes(txns))
  {
    var after := Answering(txns, i, writes, outcome);
    forall k: nat | k != i
      ensures Durable(after, commits)(k) == Durable(txns, commits)(k)
    {
      if k < |txns| {
        SameCommits(txns, i, writes, outcome, k);
        assert Posts(after)(k) == Posts(txns)(k);
      }
    }
    assert !Posts(after)(i);
    KeptSplit(0, i, |txns|, Durable(after, commits), Writes(after));
    KeptSplit(i, i + 1, |txns|, Durable(after, commits), Writes(after));
    KeptNone(i, i + 1, Durable(after, commits), Writes(after));
    KeptSame(0, i, Durable(after, commits), Durable(txns, commits), Writes(after), Writes(txns));
    KeptSame(i + 1, |txns|, Durable(after, commits), Durable(txns, commits), Writes(after), Writes(txns));
  }

  /**
   A refused commit takes along exactly the block it closes: from the last
   commit point before it up to itself, wherever skipped boundaries moved those.
   */
  lemma {:induction false} RefusedCommitLosesItsBlock<W>(
      txns: seq<Transaction<W>>, commits: nat -> bool, at: nat, i: nat)
    requires at <= |txns| && !commits(at) && (forall k :: k != at ==> commits(k))
    requires i < |txns| && Posts(txns)(i) && (at == |txns| || CommitsAfter(txns, at))
    ensures Durable(txns, commits)(i) <==> at < i || exists k :: i <= k < at && CommitsAfter(txns, k)
  {
  }

  // ----- the budget over all organizations

  function Sum(xs: seq<nat>): nat {
    if xs == [] then 0 else Sum(xs[..|xs| - 1]) + xs[|xs| - 1]
  }

  function Min(a: int, b: int): int { if a <= b then a else b }

  function Max(a: int, b: int): int { if a <= b then b else a }

  const DRY_RUN_CAP: int := 25

  function EffectiveLimit(requested: int, dryRun: bool): int {
    if dryRun then Min(requested, DRY_RUN_CAP) else requested
  }

  /** What one organization selects: its open transactions, up to the limit it is given. */
  method SelectForOrganization(available: nat, candidateLimit: int, dryRun: bool) returns (selected: nat)
    requires candidateLimit > 0
    ensures selected == Min(available, EffectiveLimit(candidateLimit, dryRun))
  {
    var limit := EffectiveLimit(candidateLimit, dryRun);
    if !dryRun && available == 0 {
      return 0;
    }
    selected := if available <= limit then available else limit;
  }

  /** What the budget still holds after the first `i` organizations. */
  ghost predicate BudgetLeft(available: seq<nat>, effective: int, i: nat, remaining: int)
    requires i <= |available|
  {
    if effective <= 0 then remaining == effective else remaining == Max(0, effective - Sum(available[..i]))
  }

  /** What organization `i` gets: what it has open, or what the earlier ones left. */
  function Share(available: seq<nat>, limit: int, i: nat): int
    requires i < |available|
  {
    Min(available[i], limit - Sum(available[..i]))
  }

  ghost predicate Shares(available: seq<nat>, limit: int, selected: seq<nat>) {
    && |selected| <= |available|
    && forall i :: 0 <= i < |selected| ==> selected[i] == Share(available, limit, i)
  }

  lemma {:induction false} BudgetStep(available: seq<nat>, effective: int, i: nat, remaining: int)
    requires i < |available| && BudgetLeft(available, effective, i, remaining) && remaining > 0
    ensures BudgetLeft(available, effective, i + 1, remaining - Min(available[i], remaining))
    ensures Min(available[i], remaining) == Share(available, effective, i) && effective > 0
  {
    PrefixStep(available, i);
  }

  lemma {:induction false} BudgetSpent(available: seq<nat>, effective: int, i: nat, remaining: int)
    requires i <= |available| && BudgetLeft(available, effective, i, remaining) && (i == |available| || remaining <= 0)
    ensures effective - remaining == Min(Max(0, effective), Sum(available))
    ensures forall k {:trigger Share(available, Max(0, effective), k)} ::
              i <= k < |available| ==> Share(available, Max(0, effective), k) <= 0
  {
    SumPrefixes(available);
    assert available[..|available|] == available;
  }

  /**
   All organizations together select the smaller of the budget and what is open,
   and an earlier organization takes what it can before a later one gets any.
   */
  method SelectAcrossOrganizations(available: seq<nat>, requested: int, dryRun: bool)
    returns (total: int, perOrganization: seq<nat>)
    ensures var limit := if requested <= 0 then 0 else if dryRun && requested > 25 then 25 else requested;
            && total == Min(limit, Sum(available))
            && Shares(available, limit, perOrganization)
            && forall i :: |perOrganization| <= i < |available| ==> Share(available, limit, i) <= 0
  {
    var effective := EffectiveLimit(requested, dryRun);
    var remaining := effective;
    perOrganization := [];
    while |perOrganization| < |available|
      invariant Shares(available, effective, perOrganization) && remaining <= effective
      invariant BudgetLeft(available, effective, |perOrganization|, remaining)
      invariant |perOrganization| > 0 ==> effective > 0
    {
      if remaining <= 0 {
        break;
      }
      var i := |perOrganization|;
      BudgetStep(available, effective, i, remaining);
      var selected := SelectForOrganization(available[i], remaining, dryRun);
      remaining := remaining - selected;
      perOrganization := perOrganization + [selected];
    }
    BudgetSpent(available, effective, |perOrganization|, remaining);
    total := effective - remaining;
  }

  lemma {:induction false} SumPrefixes(xs: seq<nat>)
    ensures forall i :: 0 <= i <= |xs| ==> Sum(xs[..i]) <= Sum(xs)
    ensures forall i, k :: 0 <= i <= k <= |xs| ==> Sum(xs[..i]) <= Sum(xs[..k])
  {
    if xs == [] {
    } else {
      var init := xs[..|xs| - 1];
      SumPrefixes(init);
      assert xs[..|xs|] == xs;
      assert forall i :: 0 <= i <= |init| ==> xs[..i] == init[..i];
    }
  }
}
