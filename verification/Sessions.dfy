/**
 A database session: what is committed, what is pending, and the one open
 savepoint. Both backfill scripts run on it.
 */
module Sessions {
  import opened Collections

  class Session<W> {
    var committed: seq<W>
    var pending: seq<W>
    var savepoint: Option<nat>

    ghost predicate Valid()
      reads this
    {
      savepoint.Some? ==> savepoint.value <= |pending|
    }

    constructor ()
      ensures Valid() && committed == [] && pending == [] && savepoint == None
    {
      committed, pending, savepoint := [], [], None;
    }

    method Write(ws: seq<W>)
      requires Valid()
      modifies this`pending
      ensures Valid() && pending == old(pending) + ws
    {
      pending := pending + ws;
    }

    method BeginNested()
      requires Valid() && savepoint.None?
      modifies this`savepoint
      ensures Valid() && savepoint == Some(|pending|)
    {
      savepoint := Some(|pending|);
    }

    method ReleaseSavepoint()
      requires Valid() && savepoint.Some?
      modifies this`savepoint
      ensures Valid() && savepoint == None
    {
      savepoint := None;
    }

    method RollbackToSavepoint()
      requires Valid() && savepoint.Some?
      modifies this`savepoint, this`pending
      ensures Valid() && savepoint == None && pending == old(pending[..savepoint.value])
    {
      pending := pending[..savepoint.value];
      savepoint := None;
    }

    method Rollback()
      requires Valid()
      modifies this`savepoint, this`pending
      ensures Valid() && savepoint == None && pending == []
    {
      pending, savepoint := [], None;
    }

    /** A commit the server may refuse; both scripts then roll the session back. */
    method CommitOrRollback(succeeds: bool)
      requires Valid() && savepoint.None?
      modifies this
      ensures Valid() && savepoint == None && pending == []
      ensures committed == old(committed) + if succeeds then old(pending) else []
    {
      if succeeds {
        committed := committed + pending;
        pending := [];
      } else {
        Rollback();
      }
    }
  }

  /** How many positions in `start..end` are chosen. */
  function Count(start: nat, end: nat, chosen: nat -> bool): (r: nat)
    requires start <= end
    ensures r <= end - start
    decreases end
  {
    if start == end then 0 else Count(start, end - 1, chosen) + if chosen(end - 1) then 1 else 0
  }

  /** What the chosen positions of `start..end` contribute, in order. */
  function Kept<W>(start: nat, end: nat, chosen: nat -> bool, writes: nat -> seq<W>): seq<W>
    requires start <= end
    decreases end
  {
    if start == end then [] else Kept(start, end - 1, chosen, writes) + if chosen(end - 1) then writes(end - 1) else []
  }

  lemma {:induction false} KeptSplit<W>(start: nat, middle: nat, end: nat, chosen: nat -> bool, writes: nat -> seq<W>)
    requires start <= middle <= end
    ensures Kept(start, end, chosen, writes) == Kept(start, middle, chosen, writes) + Kept(middle, end, chosen, writes)
    decreases end
  {
    if middle != end {
      KeptSplit(start, middle, end - 1, chosen, writes);
    }
  }

  lemma {:induction false} KeptSame<W>(
      start: nat, end: nat, chosen: nat -> bool, other: nat -> bool, writes: nat -> seq<W>, others: nat -> seq<W>)
    requires start <= end
    requires forall i :: start <= i < end ==> chosen(i) == other(i) && (chosen(i) ==> writes(i) == others(i))
    ensures Kept(start, end, chosen, writes) == Kept(start, end, other, others)
    decreases end
  {
    if start != end {
      KeptSame(start, end - 1, chosen, other, writes, others);
    }
  }

  lemma {:induction false} KeptNone<W>(start: nat, end: nat, chosen: nat -> bool, writes: nat -> seq<W>)
    requires start <= end && forall i :: start <= i < end ==> !chosen(i)
    ensures Kept(start, end, chosen, writes) == []
    decreases end
  {
    if start != end {
      KeptNone(start, end - 1, chosen, writes);
    }
  }

  lemma {:induction false} CountMonotone(start: nat, end: nat, chosen: nat -> bool, other: nat -> bool)
    requires start <= end && forall i :: start <= i < end && chosen(i) ==> other(i)
    ensures Count(start, end, chosen) <= Count(start, end, other)
    decreases end
  {
    if start != end {
      CountMonotone(start, end - 1, chosen, other);
    }
  }

  lemma {:induction false} CountMeans(start: nat, end: nat, chosen: nat -> bool, positions: set<nat>)
    requires start <= end && forall i: nat :: i in positions <==> start <= i < end && chosen(i)
    ensures Count(start, end, chosen) == |positions|
    decreases end
  {
    if start == end {
      assert positions == {};
    } else {
      CountMeans(start, end - 1, chosen, positions - {end - 1});
      assert chosen(end - 1) ==> positions == (positions - {end - 1}) + {end - 1};
      assert !chosen(end - 1) ==> positions - {end - 1} == positions;
    }
  }
}
