/**
 Fiscal periods around a backfill (scripts/backfill_inventory_gl_postings.py,
 scripts/backfill_gl_postings.py): both scripts walk the months of the range,
 open what is closed, create what is missing, and put statuses back afterwards.
 */
module FiscalPeriods {
  import opened Collections

  datatype PeriodStatus = FUTURE | OPEN | SOFT_CLOSED | HARD_CLOSED | REOPENED

  const ACCEPTS_POSTINGS: set<PeriodStatus> := {OPEN, REOPENED}

  /** What the inventory backfill opens, and what the general backfill opens. */
  const NOT_POSTABLE: set<PeriodStatus> := {FUTURE, SOFT_CLOSED, HARD_CLOSED}

  const CLOSED: set<PeriodStatus> := {SOFT_CLOSED, HARD_CLOSED}

  datatype Month = Month(year: int, number: int) {
    predicate Real() { 1 <= number <= 12 }

    predicate AtMost(other: Month) { year < other.year || (year == other.year && number <= other.number) }

    function Index(): int { 12 * year + number }

    function Next(): Month { if number + 1 > 12 then Month(year + 1, 1) else Month(year, number + 1) }
  }

  datatype Date = Date(month: Month, day: int) {
    predicate AtMost(other: Date) {
      if month == other.month then day <= other.day else month.AtMost(other.month)
    }
  }

  predicate LeapYear(y: int) { y % 4 == 0 && (y % 100 != 0 || y % 400 == 0) }

  function LastDay(m: Month): int {
    if m.number == 2 then (if LeapYear(m.year) then 29 else 28)
    else if m.number in {4, 6, 9, 11} then 30
    else 31
  }

  function MonthStart(m: Month): Date { Date(m, 1) }

  function MonthEnd(m: Month): Date { Date(m, LastDay(m)) }

  class FiscalPeriod {
    const id: nat
    const organization: string
    const start: Date
    const end: Date
    var status: PeriodStatus

    constructor (id: nat, organization: string, start: Date, end: Date, status: PeriodStatus)
      ensures this.id == id && this.organization == organization && this.start == start && this.end == end
      ensures this.status == status
    {
      this.id, this.organization, this.start, this.end, this.status := id, organization, start, end, status;
    }
  }

  predicate Covers(p: FiscalPeriod, organization: string, m: Month) {
    p.organization == organization && p.start.AtMost(MonthStart(m)) && MonthStart(m).AtMost(p.end)
  }

  predicate IsMonthly(p: FiscalPeriod, organization: string, m: Month) {
    p.organization == organization && p.start == MonthStart(m) && p.end == MonthEnd(m)
  }

  datatype Restore = Restore(id: nat, original: PeriodStatus)

  type Statuses = map<FiscalPeriod, PeriodStatus>

  /** The periods and fiscal years one session sees. */
  class Ledger {
    var periods: set<FiscalPeriod>
    var years: set<(string, int)>
    var nextId: nat

    ghost predicate Valid()
      reads this
    {
      && (forall p :: p in periods ==> p.id < nextId)
      && (forall p, q :: p in periods && q in periods && p.id == q.id ==> p == q)
    }

    ghost function Current(): Statuses
      reads this, periods
    {
      map p | p in periods :: p.status
    }

    constructor ()
      ensures Valid() && periods == {} && years == {}
    {
      periods, years, nextId := {}, {}, 0;
    }

    method AddPeriod(organization: string, m: Month) returns (p: FiscalPeriod)
      requires Valid()
      modifies this
      ensures Valid() && fresh(p) && IsMonthly(p, organization, m)
      ensures periods == old(periods) + {p} && years == old(years) + {(organization, m.year)}
      ensures Current() == old(Current())[p := OPEN]
    {
      if (organization, m.year) !in years {
        years := years + {(organization, m.year)};
      }
      p := new FiscalPeriod(nextId, organization, MonthStart(m), MonthEnd(m), OPEN);
      nextId := nextId + 1;
      periods := periods + {p};
    }

    method SetStatus(p: FiscalPeriod, status: PeriodStatus)
      requires Valid() && p in periods
      modifies p
      ensures Valid() && p.status == status && Current() == old(Current())[p := status]
    {
      p.status := status;
    }

    /** `db.get(FiscalPeriod, id)`. */
    method Get(id: nat) returns (p: FiscalPeriod?)
      requires Valid()
      ensures p == null ==> forall q :: q in periods ==> q.id != id
      ensures p != null ==> p in periods && p.id == id
    {
      if exists q :: q in periods && q.id == id {
        p :| p in periods && p.id == id;
      } else {
        p := null;
      }
    }
  }

  // ----- preparing

  /** The fiscal years added are those of the periods added. */
  ghost predicate YearsAdded(
      years0: set<(string, int)>, periods0: set<FiscalPeriod>, years: set<(string, int)>, periods: set<FiscalPeriod>)
  {
    && periods0 <= periods
    && years == years0 + set p | p in periods - periods0 :: (p.organization, p.start.month.year)
  }

  lemma {:induction false} YearsCompose(
      years0: set<(string, int)>, periods0: set<FiscalPeriod>, years1: set<(string, int)>, periods1: set<FiscalPeriod>,
      years2: set<(string, int)>, periods2: set<FiscalPeriod>)
    requires YearsAdded(years0, periods0, years1, periods1) && YearsAdded(years1, periods1, years2, periods2)
    ensures YearsAdded(years0, periods0, years2, periods2)
  {
    assert periods2 - periods0 == (periods1 - periods0) + (periods2 - periods1);
  }

  /** What visiting one month does to the statuses, and what it records. */
  ghost predicate Visit(
      before: Statuses, after: Statuses, closed: set<PeriodStatus>, organization: string, m: Month,
      records: seq<Restore>)
  {
    || (after == before && records == []
        && exists p :: p in before && Covers(p, organization, m) && before[p] !in closed)
    || (exists p :: p in before && Covers(p, organization, m) && before[p] in closed
                    && after == before[p := OPEN] && records == [Restore(p.id, before[p])])
    || (records == [] && (forall p :: p in before ==> !Covers(p, organization, m))
        && exists p :: p in after && p !in before && IsMonthly(p, organization, m) && after == before[p := OPEN])
  }

  /** Which covering period the query returns is left open. */
  method VisitMonth(ledger: Ledger, closed: set<PeriodStatus>, organization: string, m: Month)
    returns (records: seq<Restore>)
    requires ledger.Valid()
    modifies ledger, ledger.periods
    ensures ledger.Valid() && fresh(ledger.periods - old(ledger.periods))
    ensures Visit(old(ledger.Current()), ledger.Current(), closed, organization, m, records)
    ensures YearsAdded(old(ledger.years), old(ledger.periods), ledger.years, ledger.periods)
  {
    ghost var before := ledger.Current();
    if exists q :: q in ledger.periods && Covers(q, organization, m) {
      var p :| p in ledger.periods && Covers(p, organization, m);
      records := [];
      if p.status in closed {
        records := [Restore(p.id, p.status)];
        ledger.SetStatus(p, OPEN);
      }
      assert p in before && Covers(p, organization, m);
    } else {
      records := [];
      var p := ledger.AddPeriod(organization, m);
      assert p !in before && IsMonthly(p, organization, m);
      assert ledger.periods - old(ledger.periods) == {p};
    }
  }

  ghost predicate UniqueIds(statuses: Statuses) {
    forall p, q :: p in statuses && q in statuses && p.id == q.id ==> p == q
  }

  /** Every change is a recorded opening, recorded once with the true status. */
  ghost predicate Recorded(initial: Statuses, now: Statuses, closed: set<PeriodStatus>, records: seq<Restore>) {
    && initial.Keys <= now.Keys
    && (forall p :: p in now && p !in initial ==> now[p] == OPEN)
    && (forall p :: p in initial && now[p] != initial[p] ==>
          initial[p] in closed && now[p] == OPEN && Restore(p.id, initial[p]) in records)
    && (forall r :: r in records ==>
          exists p :: p in initial && r == Restore(p.id, initial[p]) && initial[p] in closed && now[p] == OPEN)
    && (forall i, j :: 0 <= i < j < |records| ==> records[i].id != records[j].id)
  }

  /** A visited month has a covering period that is not closed any more. */
  ghost predicate Served(now: Statuses, closed: set<PeriodStatus>, organization: string, m: Month) {
    exists p :: p in now && Covers(p, organization, m) && now[p] !in closed
  }

  ghost predicate Missing(initial: Statuses, organization: string, m: Month) {
    forall p :: p in initial ==> !Covers(p, organization, m)
  }

  /** Periods are created for visited months nothing covered, and for each only once. */
  ghost predicate Created(initial: Statuses, now: Statuses, visited: iset<(string, Month)>) {
    && (forall p :: p in now && p !in initial ==>
          (p.organization, p.start.month) in visited && IsMonthly(p, p.organization, p.start.month)
          && Missing(initial, p.organization, p.start.month))
    && (forall p, q ::
          p in now && p !in initial && q in now && q !in initial && p.organization == q.organization
            && p.start == q.start
          ==> p == q)
  }

  /** Nothing is opened but what covers a visited month. */
  ghost predicate OpenedForMonths(initial: Statuses, now: Statuses, visited: iset<(string, Month)>) {
    forall p :: p in initial && p in now && now[p] != initial[p] ==> exists v :: v in visited && Covers(p, v.0, v.1)
  }

  lemma {:induction false} VisitOpens(
      initial: Statuses, before: Statuses, after: Statuses, closed: set<PeriodStatus>, organization: string, m: Month,
      visited: iset<(string, Month)>, more: seq<Restore>)
    requires initial.Keys <= before.Keys
    requires OpenedForMonths(initial, before, visited) && Visit(before, after, closed, organization, m, more)
    ensures OpenedForMonths(initial, after, visited + iset{(organization, m)})
  {
    forall p | p in initial && p in after && after[p] != initial[p]
      ensures exists v :: v in visited + iset{(organization, m)} && Covers(p, v.0, v.1)
    {
      if before[p] == initial[p] {
        assert (organization, m) in visited + iset{(organization, m)} && Covers(p, organization, m);
      }
    }
  }

  ghost predicate Prepared(
      initial: Statuses, now: Statuses, closed: set<PeriodStatus>, visited: iset<(string, Month)>,
      records: seq<Restore>)
  {
    && Recorded(initial, now, closed, records)
    && Created(initial, now, visited)
    && OpenedForMonths(initial, now, visited)
    && AllServed(now, closed, visited)
  }

  lemma {:induction false} MonthlyCoversOnlyItself(p: FiscalPeriod, organization: string, m: Month, other: Month)
    requires IsMonthly(p, organization, m)
    ensures Covers(p, organization, other) <==> other == m
  {
  }

  lemma {:induction false} VisitRecords(
      initial: Statuses, before: Statuses, after: Statuses, closed: set<PeriodStatus>, organization: string, m: Month,
      records: seq<Restore>, more: seq<Restore>)
    requires OPEN !in closed && UniqueIds(initial)
    requires Recorded(initial, before, closed, records) && Visit(before, after, closed, organization, m, more)
    ensures Recorded(initial, after, closed, records + more)
  {
    if more == [] {
      assert records + more == records;
    } else {
      var p :| p in before && Covers(p, organization, m) && before[p] in closed
               && after == before[p := OPEN] && more == [Restore(p.id, before[p])];
      assert p in initial && before[p] == initial[p];
      forall i | 0 <= i < |records|
        ensures records[i].id != p.id
      {
        assert records[i] in records;
      }
      assert (records + more)[|records|] == Restore(p.id, initial[p]);
      forall r | r in records + more
        ensures r in records || r == Restore(p.id, initial[p])
      {
      }
    }
  }

  lemma {:induction false} VisitCreates(
      initial: Statuses, before: Statuses, after: Statuses, closed: set<PeriodStatus>, organization: string, m: Month,
      visited: iset<(string, Month)>, more: seq<Restore>)
    requires initial.Keys <= before.Keys
    requires Created(initial, before, visited) && Visit(before, after, closed, organization, m, more)
    ensures Created(initial, after, visited + iset{(organization, m)})
  {
    if after.Keys != before.Keys {
      var p :| p in after && p !in before && IsMonthly(p, organization, m) && after == before[p := OPEN];
      assert Missing(initial, organization, m);
      forall q | q in before && q !in initial && q.organization == organization && q.start == p.start
        ensures false
      {
        MonthlyCoversOnlyItself(q, organization, m, m);
      }
    }
  }

  lemma {:induction false} VisitServes(
      before: Statuses, after: Statuses, closed: set<PeriodStatus>, organization: string, m: Month, more: seq<Restore>,
      o: string, k: Month)
    requires OPEN !in closed && Visit(before, after, closed, organization, m, more)
    ensures Served(after, closed, organization, m)
    ensures Served(before, closed, o, k) ==> Served(after, closed, o, k)
  {
    if p :| p in before && Covers(p, organization, m) && before[p] !in closed && after == before {
    } else if p :| p in before && Covers(p, organization, m) && before[p] in closed && after == before[p := OPEN] {
      assert after[p] == OPEN;
    } else {
      var p :| p in after && p !in before && IsMonthly(p, organization, m) && after == before[p := OPEN];
      MonthlyCoversOnlyItself(p, organization, m, m);
      assert after[p] == OPEN;
    }
    if p :| Served(before, closed, o, k) && p in before && Covers(p, o, k) && before[p] !in closed {
      assert p in after && after[p] !in closed;
    }
  }

  lemma {:induction false} VisitPrepares(
      initial: Statuses, before: Statuses, after: Statuses, closed: set<PeriodStatus>, organization: string, m: Month,
      visited: iset<(string, Month)>, records: seq<Restore>, more: seq<Restore>)
    requires OPEN !in closed && UniqueIds(initial)
    requires Prepared(initial, before, closed, visited, records) && Visit(before, after, closed, organization, m, more)
    ensures Prepared(initial, after, closed, visited + iset{(organization, m)}, records + more)
  {
    VisitRecords(initial, before, after, closed, organization, m, records, more);
    VisitCreates(initial, before, after, closed, organization, m, visited, more);
    VisitOpens(initial, before, after, closed, organization, m, visited, more);
    VisitServesAll(before, after, closed, organization, m, visited, more);
  }

  ghost predicate AllServed(now: Statuses, closed: set<PeriodStatus>, visited: iset<(string, Month)>) {
    forall v :: v in visited ==> Served(now, closed, v.0, v.1)
  }

  lemma {:induction false} VisitServesAll(
      before: Statuses, after: Statuses, closed: set<PeriodStatus>, organization: string, m: Month,
      visited: iset<(string, Month)>, more: seq<Restore>)
    requires OPEN !in closed && AllServed(before, closed, visited)
    requires Visit(before, after, closed, organization, m, more)
    ensures AllServed(after, closed, visited + iset{(organization, m)})
  {
    forall v | v in visited + iset{(organization, m)}
      ensures Served(after, closed, v.0, v.1)
    {
      VisitServes(before, after, closed, organization, m, more, v.0, v.1);
    }
  }

  ghost predicate InRange(m: Month, first: Month, last: Month) { m.Real() && first.AtMost(m) && m.AtMost(last) }

  ghost function MonthsOf(organization: string, first: Month, last: Month): iset<(string, Month)> {
    iset m: Month | InRange(m, first, last) :: (organization, m)
  }

  /** The months already visited when the loop stands at `at`. */
  ghost function Passed(organization: string, first: Month, at: Month): iset<(string, Month)> {
    iset m: Month | m.Real() && first.AtMost(m) && !at.AtMost(m) :: (organization, m)
  }

  /** Where the loop may stand: on a month of the range, or just behind its last month. */
  predicate Standing(first: Month, last: Month, at: Month) {
    at.Real() && first.AtMost(at) && (at == first || at.AtMost(last.Next()))
  }

  lemma {:induction false} PassedStep(
      organization: string, first: Month, last: Month, at: Month, visited: iset<(string, Month)>,
      seen: iset<(string, Month)>)
    requires Standing(first, last, at) && at.AtMost(last) && last.Real()
    requires seen == visited + Passed(organization, first, at)
    ensures Standing(first, last, at.Next())
    ensures seen + iset{(organization, at)} == visited + Passed(organization, first, at.Next())
    ensures at.Index() <= last.Index() && at.Next().Index() == at.Index() + 1
  {
    forall m: Month | m.Real()
      ensures !at.Next().AtMost(m) <==> !at.AtMost(m) || m == at
    {
    }
    assert Passed(organization, first, at.Next()) == Passed(organization, first, at) + iset{(organization, at)};
  }

  lemma {:induction false} PassedAll(organization: string, first: Month, last: Month, at: Month)
    requires last.Real() && Standing(first, last, at) && !at.AtMost(last)
    ensures Passed(organization, first, at) == MonthsOf(organization, first, last)
  {
    forall m: Month | m.Real() && first.AtMost(m)
      ensures !at.AtMost(m) <==> m.AtMost(last)
    {
    }
  }

  method PrepareMonth(
      ledger: Ledger, closed: set<PeriodStatus>, organization: string, m: Month,
      records: seq<Restore>, ghost initial: Statuses, ghost visited: iset<(string, Month)>)
    returns (all: seq<Restore>)
    requires ledger.Valid() && OPEN !in closed && UniqueIds(initial)
    requires Prepared(initial, ledger.Current(), closed, visited, records)
    modifies ledger, ledger.periods
    ensures ledger.Valid() && fresh(ledger.periods - old(ledger.periods))
    ensures Prepared(initial, ledger.Current(), closed, visited + iset{(organization, m)}, all)
    ensures YearsAdded(old(ledger.years), old(ledger.periods), ledger.years, ledger.periods)
  {
    ghost var before := ledger.Current();
    var more := VisitMonth(ledger, closed, organization, m);
    VisitPrepares(initial, before, ledger.Current(), closed, organization, m, visited, records, more);
    all := records + more;
  }

  /** The month loop for one organization: each month of the range once, in order. */
  method PrepareOrganization(
      ledger: Ledger, closed: set<PeriodStatus>, organization: string, first: Month, last: Month,
      records: seq<Restore>, ghost initial: Statuses, ghost visited: iset<(string, Month)>)
    returns (all: seq<Restore>)
    requires ledger.Valid() && first.Real() && last.Real() && OPEN !in closed && UniqueIds(initial)
    requires Prepared(initial, ledger.Current(), closed, visited, records)
    modifies ledger, ledger.periods
    ensures ledger.Valid() && fresh(ledger.periods - old(ledger.periods))
    ensures Prepared(initial, ledger.Current(), closed, visited + MonthsOf(organization, first, last), all)
    ensures YearsAdded(old(ledger.years), old(ledger.periods), ledger.years, ledger.periods)
  {
    var y, n := first.year, first.number;
    all := records;
    assert visited + Passed(organization, first, first) == visited;
    ghost var seen := visited;
    while Month(y, n).AtMost(last)
      invariant Standing(first, last, Month(y, n))
      invariant ledger.Valid() && fresh(ledger.periods - old(ledger.periods))
      invariant Prepared(initial, ledger.Current(), closed, seen, all)
      invariant seen == visited + Passed(organization, first, Month(y, n))
      invariant YearsAdded(old(ledger.years), old(ledger.periods), ledger.years, ledger.periods)
      decreases last.Index() - Month(y, n).Index()
    {
      ghost var years, periods := ledger.years, ledger.periods;
      all := PrepareMonth(ledger, closed, organization, Month(y, n), all, initial, seen);
      YearsCompose(old(ledger.years), old(ledger.periods), years, periods, ledger.years, ledger.periods);
      PassedStep(organization, first, last, Month(y, n), visited, seen);
      seen := seen + iset{(organization, Month(y, n))};
      ghost var next := Month(y, n).Next();
      n := n + 1;
      if n > 12 {
        n := 1;
        y := y + 1;
      }
      assert Month(y, n) == next;
    }
    PassedAll(organization, first, last, Month(y, n));
  }

  /**
   The months of every organization, from the earliest to the latest open
   transaction; no transaction at all means nothing to prepare.
   */
  method PreparePeriods(
      ledger: Ledger, closed: set<PeriodStatus>, organizations: seq<string>, range: Option<(Date, Date)>)
    returns (records: seq<Restore>)
    requires ledger.Valid() && OPEN !in closed
    requires range.Some? ==> range.value.0.month.Real() && range.value.1.month.Real()
    modifies ledger, ledger.periods
    ensures ledger.Valid() && fresh(ledger.periods - old(ledger.periods))
    ensures range.None? ==> records == [] && ledger.Current() == old(ledger.Current())
    ensures range.Some? ==> Prepared(old(ledger.Current()), ledger.Current(), closed,
                                     Months(organizations, range.value), records)
    ensures YearsAdded(old(ledger.years), old(ledger.periods), ledger.years, ledger.periods)
  {
    records := [];
    if range.None? {
      return;
    }
    var first, last := range.value.0.month, range.value.1.month;
    ghost var initial, visited: iset<(string, Month)> := ledger.Current(), iset{};
    for i := 0 to |organizations|
      invariant ledger.Valid() && fresh(ledger.periods - old(ledger.periods))
      invariant Prepared(initial, ledger.Current(), closed, visited, records)
      invariant visited == Months(organizations[..i], range.value)
      invariant YearsAdded(old(ledger.years), old(ledger.periods), ledger.years, ledger.periods)
    {
      PrefixStep(organizations, i);
      InitLast(organizations[..i + 1]);
      ghost var years, periods := ledger.years, ledger.periods;
      records := PrepareOrganization(ledger, closed, organizations[i], first, last, records, initial, visited);
      YearsCompose(old(ledger.years), old(ledger.periods), years, periods, ledger.years, ledger.periods);
      visited := visited + MonthsOf(organizations[i], first, last);
    }
    assert organizations[..|organizations|] == organizations;
  }

  ghost function Months(organizations: seq<string>, range: (Date, Date)): iset<(string, Month)> {
    iset o: string, m: Month | o in organizations && InRange(m, range.0.month, range.1.month) :: (o, m)
  }

  method PrepareInventoryFiscalPeriods(ledger: Ledger, organizations: seq<string>, range: Option<(Date, Date)>)
    returns (records: seq<Restore>)
    requires ledger.Valid()
    requires range.Some? ==> range.value.0.month.Real() && range.value.1.month.Real()
    modifies ledger, ledger.periods
    ensures ledger.Valid() && fresh(ledger.periods - old(ledger.periods))
    ensures range.None? ==> records == [] && ledger.Current() == old(ledger.Current())
    ensures range.Some? ==>
              Prepared(old(ledger.Current()), ledger.Current(), NOT_POSTABLE, Months(organizations, range.value),
                       records)
    ensures YearsAdded(old(ledger.years), old(ledger.periods), ledger.years, ledger.periods)
  {
    records := PreparePeriods(ledger, NOT_POSTABLE, organizations, range);
  }

  /** The general backfill remembers which periods it opened, not what they were. */
  method PrepareFiscalPeriods(ledger: Ledger, organizations: seq<string>, range: Option<(Date, Date)>)
    returns (ids: seq<nat>, ghost records: seq<Restore>)
    requires ledger.Valid()
    requires range.Some? ==> range.value.0.month.Real() && range.value.1.month.Real()
    modifies ledger, ledger.periods
    ensures ledger.Valid() && fresh(ledger.periods - old(ledger.periods))
    ensures ids == Map(records, RestoreId())
    ensures range.None? ==> records == [] && ledger.Current() == old(ledger.Current())
    ensures range.Some? ==>
              Prepared(old(ledger.Current()), ledger.Current(), CLOSED, Months(organizations, range.value), records)
    ensures YearsAdded(old(ledger.years), old(ledger.periods), ledger.years, ledger.periods)
  {
    var reopened := PreparePeriods(ledger, CLOSED, organizations, range);
    records := reopened;
    ids := Map(reopened, RestoreId());
  }

  /** Every visited month ends up with a covering period that accepts postings. */
  lemma {:induction false} EveryMonthIsPostable(
      initial: Statuses, now: Statuses, visited: iset<(string, Month)>, records: seq<Restore>, organization: string,
      m: Month)
    requires Prepared(initial, now, NOT_POSTABLE, visited, records) && (organization, m) in visited
    ensures exists p :: p in now && Covers(p, organization, m) && now[p] in ACCEPTS_POSTINGS
  {
    assert Served(now, NOT_POSTABLE, (organization, m).0, (organization, m).1);
    var p :| p in now && Covers(p, organization, m) && now[p] !in NOT_POSTABLE;
    assert now[p] in ACCEPTS_POSTINGS;
  }

  /** The general backfill opens only closed periods, so a month may be left with a period still in the future. */
  lemma {:induction false} FutureMonthIsNotPostable(p: FiscalPeriod, m: Month)
    requires Covers(p, "org", m)
    ensures Visit(map[p := FUTURE], map[p := FUTURE], CLOSED, "org", m, [])
    ensures !exists q :: q in map[p := FUTURE] && Covers(q, "org", m) && map[p := FUTURE][q] in ACCEPTS_POSTINGS
  {
    assert p in map[p := FUTURE];
  }

  // ----- restoring

  function RestoreId(): Restore -> nat { (r: Restore) => r.id }

  /** The status a period has after the restore loop: the last record about it decides. */
  function RestoredTo(records: seq<Restore>, id: nat, status: PeriodStatus): PeriodStatus {
    var last := LastBy(records, RestoreId(), id);
    if last.Some? then last.value.original else status
  }

  function ReclosedTo(ids: seq<nat>, id: nat, status: PeriodStatus): PeriodStatus {
    if id in ids && status == OPEN then HARD_CLOSED else status
  }

  method RestoreInventoryFiscalPeriods(ledger: Ledger, records: seq<Restore>)
    requires ledger.Valid()
    modifies ledger.periods
    ensures ledger.Valid()
    ensures forall p :: p in ledger.periods ==> p.status == RestoredTo(records, p.id, old(p.status))
  {
    if records == [] {
      return;
    }
    for i := 0 to |records|
      invariant ledger.Valid()
      invariant forall p :: p in ledger.periods ==> p.status == RestoredTo(records[..i], p.id, old(p.status))
    {
      PrefixStep(records, i);
      var p := ledger.Get(records[i].id);
      if p == null {
        continue;
      }
      ledger.SetStatus(p, records[i].original);
    }
    assert records[..|records|] == records;
  }

  method RestoreFiscalPeriods(ledger: Ledger, ids: seq<nat>)
    requires ledger.Valid()
    modifies ledger.periods
    ensures ledger.Valid()
    ensures forall p :: p in ledger.periods ==> p.status == ReclosedTo(ids, p.id, old(p.status))
  {
    if ids == [] {
      return;
    }
    for i := 0 to |ids|
      invariant ledger.Valid()
      invariant forall p :: p in ledger.periods ==> p.status == ReclosedTo(ids[..i], p.id, old(p.status))
    {
      PrefixStep(ids, i);
      InitLast(ids[..i + 1]);
      var p := ledger.Get(ids[i]);
      if p != null && p.status == OPEN {
        ledger.SetStatus(p, HARD_CLOSED);
      }
    }
    assert ids[..|ids|] == ids;
  }

  lemma {:induction false} RecordIsFound(records: seq<Restore>, r: Restore)
    requires r in records && forall i, j :: 0 <= i < j < |records| ==> records[i].id != records[j].id
    ensures LastBy(records, RestoreId(), r.id) == Some(r)
  {
    var init, last := records[..|records| - 1], records[|records| - 1];
    InitLast(records);
    if last != r {
      RecordIsFound(init, r);
      var i :| 0 <= i < |init| && init[i] == r;
      assert records[i].id != records[|records| - 1].id;
    }
  }

  lemma {:induction false} NoRecordNotFound(records: seq<Restore>, id: nat)
    requires forall r :: r in records ==> r.id != id
    ensures LastBy(records, RestoreId(), id) == None
  {
    if records != [] {
      InitLast(records);
      NoRecordNotFound(records[..|records| - 1], id);
    }
  }

  /**
   Whatever happens to the recorded periods in between, restoring gives every
   period of the start its first status back.
   */
  lemma {:induction false} InventoryRoundTrip(
      initial: Statuses, prepared: Statuses, visited: iset<(string, Month)>, records: seq<Restore>,
      p: FiscalPeriod, later: PeriodStatus)
    requires UniqueIds(initial) && Prepared(initial, prepared, NOT_POSTABLE, visited, records) && p in initial
    requires (forall r :: r in records ==> r.id != p.id) ==> later == prepared[p]
    ensures RestoredTo(records, p.id, later) == initial[p]
  {
    if r :| r in records && r.id == p.id {
      var q :| q in initial && r == Restore(q.id, initial[q]);
      assert q == p;
      RecordIsFound(records, r);
    } else {
      NoRecordNotFound(records, p.id);
    }
  }

  /** The two inventory calls around a backfill that leaves statuses alone. */
  method InventoryPeriodsAroundBackfill(ledger: Ledger, organizations: seq<string>, range: Option<(Date, Date)>)
    requires ledger.Valid()
    requires range.Some? ==> range.value.0.month.Real() && range.value.1.month.Real()
    modifies ledger, ledger.periods
    ensures old(ledger.periods) <= ledger.periods
    ensures forall p :: p in old(ledger.periods) ==> p.status == old(p.status)
  {
    ghost var initial := ledger.Current();
    var records := PrepareInventoryFiscalPeriods(ledger, organizations, range);
    ghost var prepared := ledger.Current();
    RestoreInventoryFiscalPeriods(ledger, records);
    forall p | p in initial
      ensures p.status == initial[p]
    {
      assert p in prepared && p.status == RestoredTo(records, p.id, prepared[p]);
      if range.Some? {
        InventoryRoundTrip(initial, prepared, Months(organizations, range.value), records, p, prepared[p]);
      }
    }
  }

  /** The general backfill restores a period's status exactly unless it opened a soft-closed one. */
  lemma {:induction false} GeneralRestoresExactly(
      initial: Statuses, prepared: Statuses, visited: iset<(string, Month)>, records: seq<Restore>, p: FiscalPeriod)
    requires UniqueIds(initial) && Prepared(initial, prepared, CLOSED, visited, records) && p in initial
    ensures ReclosedTo(Map(records, RestoreId()), p.id, prepared[p]) == initial[p] <==>
            !(initial[p] == SOFT_CLOSED && prepared[p] != initial[p])
  {
    var ids := Map(records, RestoreId());
    assert forall i :: 0 <= i < |records| ==> ids[i] == records[i].id && ids[i] in ids;
    if p.id in ids {
      var i :| 0 <= i < |ids| && ids[i] == p.id;
      assert records[i] in records && records[i].id == p.id;
      var q :| q in initial && records[i] == Restore(q.id, initial[q]) && initial[q] in CLOSED && prepared[q] == OPEN;
      assert q == p;
    }
  }

  ghost predicate OnePeriodAtATime(initial: Statuses) {
    forall p, q, organization, m ::
      p in initial && q in initial && Covers(p, organization, m) && Covers(q, organization, m) ==> p == q
  }

  /** Without overlaps a closed period is opened exactly when it covers a month of the range. */
  lemma {:induction false} OpenedExactly(
      initial: Statuses, prepared: Statuses, closed: set<PeriodStatus>, visited: iset<(string, Month)>,
      records: seq<Restore>,
      p: FiscalPeriod)
    requires OPEN !in closed && OnePeriodAtATime(initial)
    requires Prepared(initial, prepared, closed, visited, records) && p in initial
    ensures prepared[p] != initial[p] <==>
            initial[p] in closed && exists v :: v in visited && Covers(p, v.0, v.1)
  {
    if v :| initial[p] in closed && v in visited && Covers(p, v.0, v.1) {
      assert Served(prepared, closed, v.0, v.1);
      var q :| q in prepared && Covers(q, v.0, v.1) && prepared[q] !in closed;
      if q !in initial {
        MonthlyCoversOnlyItself(q, q.organization, q.start.month, v.1);
        assert Missing(initial, v.0, v.1);
      }
    }
  }

  /** All statuses come back exactly when no soft-closed period covers a month of the range. */
  lemma {:induction false} GeneralRoundTripExact(
      initial: Statuses, prepared: Statuses, visited: iset<(string, Month)>, records: seq<Restore>)
    requires UniqueIds(initial) && OnePeriodAtATime(initial) && Prepared(initial, prepared, CLOSED, visited, records)
    ensures (forall p :: p in initial ==> ReclosedTo(Map(records, RestoreId()), p.id, prepared[p]) == initial[p]) <==>
            (forall p, v :: p in initial && initial[p] == SOFT_CLOSED && v in visited ==> !Covers(p, v.0, v.1))
  {
    forall p | p in initial
      ensures ReclosedTo(Map(records, RestoreId()), p.id, prepared[p]) == initial[p] <==>
              forall v :: initial[p] == SOFT_CLOSED && v in visited ==> !Covers(p, v.0, v.1)
    {
      GeneralRestoresExactly(initial, prepared, visited, records, p);
      OpenedExactly(initial, prepared, CLOSED, visited, records, p);
    }
  }

  // ----- the calendar

  predicate Day(d: Date) { d.month.Real() && 1 <= d.day <= LastDay(d.month) }

  /** A created period holds every day of its month and no other day. */
  lemma {:induction false} MonthlyPeriodIsItsMonth(p: FiscalPeriod, organization: string, m: Month, d: Date)
    requires IsMonthly(p, organization, m) && Day(d)
    ensures p.start.AtMost(d) && d.AtMost(p.end) <==> d.month == m
  {
  }

  /** Whole years of days before the first of March of year `y`, in the proleptic Gregorian calendar. */
  function DaysBeforeYear(y: int): int { 365 * y + y / 4 - y / 100 + y / 400 }

  /** Days from the first of March to the first of the month that many months later. */
  function DaysBeforeMonth(sinceMarch: int): int { (153 * sinceMarch + 2) / 5 }

  /** Days since the first of March of the year 0. */
  function DayNumber(d: Date): int {
    var m := d.month;
    if m.number <= 2 then DaysBeforeYear(m.year - 1) + DaysBeforeMonth(m.number + 9) + d.day - 1
    else DaysBeforeYear(m.year) + DaysBeforeMonth(m.number - 3) + d.day - 1
  }

  lemma {:induction false} FourthYears(y: int)
    ensures y / 4 - (y - 1) / 4 == if y % 4 == 0 then 1 else 0
  {
  }

  lemma {:induction false} HundredthYears(y: int, century: int, year: int)
    requires y == 100 * century + year && 0 <= year < 100
    ensures y / 100 - (y - 1) / 100 == if y % 100 == 0 then 1 else 0
    ensures y % 100 == 0 ==> y % 4 == 0
  {
    assert y / 100 == century && y % 100 == year;
    assert year > 0 ==> (y - 1) / 100 == century;
    assert year == 0 ==> (y - 1) / 100 == century - 1 && y == 4 * (25 * century);
  }

  lemma {:induction false} FourHundredthYears(y: int, cycle: int, year: int)
    requires y == 400 * cycle + year && 0 <= year < 400
    ensures y / 400 - (y - 1) / 400 == if y % 400 == 0 then 1 else 0
    ensures y % 400 == 0 ==> y % 100 == 0
  {
    assert y / 400 == cycle && y % 400 == year;
    assert year > 0 ==> (y - 1) / 400 == cycle;
    assert year == 0 ==> (y - 1) / 400 == cycle - 1 && y == 100 * (4 * cycle);
  }

  lemma {:induction false} YearLength(y: int)
    ensures DaysBeforeYear(y) - DaysBeforeYear(y - 1) == if LeapYear(y) then 366 else 365
  {
    FourthYears(y);
    HundredthYears(y, y / 100, y % 100);
    FourHundredthYears(y, y / 400, y % 400);
  }

  /** Each month ends on the day before the next one begins. */
  lemma {:induction false} MonthsMeet(m: Month)
    requires m.Real()
    ensures DayNumber(MonthEnd(m)) + 1 == DayNumber(MonthStart(m.Next()))
  {
    if m.number == 2 {
      YearLength(m.year);
    } else if m.number == 1 {
      assert DaysBeforeMonth(10) == 306 && DaysBeforeMonth(11) == 337;
    } else {
      MonthLength(m.number - 3, m);
    }
  }

  lemma {:induction false} MonthLength(sinceMarch: int, m: Month)
    requires 3 <= m.number <= 12 && sinceMarch == m.number - 3
    ensures DaysBeforeMonth(sinceMarch + 1) - DaysBeforeMonth(sinceMarch) == LastDay(m)
  {
  }
}
