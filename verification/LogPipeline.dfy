/**
 The log pipeline (app/monitoring.py): producers put records on a bounded queue
 without ever waiting, one listener takes them off and pushes them, backing off
 after failures.
 */
module LogPipeline {
  import opened Collections

  const CAPACITY: nat := 10_000

  const BACKOFF_MAX: real := 120.0

  /** The first power of two a double cannot hold is 2.0 ** 1024. */
  const OVERFLOW_AT: nat := 1024

  function PowerOfTwo(n: nat): (r: nat)
    ensures r >= 1
  {
    if n == 0 then 1 else 2 * PowerOfTwo(n - 1)
  }

  function Backoff(failures: nat): real {
    if PowerOfTwo(failures) as real < BACKOFF_MAX then PowerOfTwo(failures) as real else BACKOFF_MAX
  }

  /** Where the listener stands with the record it has taken. */
  datatype Phase<R> =
    | Idle
    | Taken(record: R)
    | Attempting(record: R, startedAt: real)
    | Dead(record: R)

  datatype Outcome = Accepted | Rejected | Threw

  /** One atomic step of a producer or of the listener, with the clock it reads. */
  datatype Event<R> =
    | Submit(record: R)
    | Take
    | BeginEmit(now: real)
    | FinishEmit(outcome: Outcome, now: real)

  /**
   The pipeline's state with its history: what was submitted, sent and dropped in
   order, and when the attempts of the current run of failures began.
   */
  datatype State<R> = State(
    queue: seq<R>,
    phase: Phase<R>,
    failures: nat,
    nextRetryAt: real,
    clock: real,
    submitted: seq<R>,
    sent: seq<R>,
    dropped: seq<R>,
    streak: seq<real>)

  function Initial<R>(): State<R> { State([], Idle, 0, 0.0, 0.0, [], [], [], []) }

  predicate Enabled<R>(s: State<R>, e: Event<R>) {
    match e
    case Submit(_) => true
    case Take => s.phase.Idle? && s.queue != []
    case BeginEmit(now) => s.phase.Taken? && s.clock <= now
    case FinishEmit(_, now) => s.phase.Attempting? && s.clock <= now
  }

  /** `_handle_failure`: from the 1024th failure on, computing the delay raises before the drop is counted. */
  function Failed<R>(s: State<R>, record: R, again: nat, now: real): State<R>
    requires again > 0
  {
    var failures := s.failures + 1;
    if failures >= OVERFLOW_AT then s.(phase := Dead(record), failures := s.failures + again)
    else s.(phase := Idle, failures := failures, nextRetryAt := now + Backoff(failures),
            dropped := s.dropped + [record])
  }

  function Step<R>(s: State<R>, e: Event<R>): State<R>
    requires Enabled(s, e)
  {
    match e
    case Submit(record) =>
      if |s.queue| < CAPACITY then s.(queue := s.queue + [record], submitted := s.submitted + [record])
      else s.(dropped := s.dropped + [record], submitted := s.submitted + [record])
    case Take => s.(queue := s.queue[1..], phase := Taken(s.queue[0]))
    case BeginEmit(now) =>
      if now < s.nextRetryAt then s.(clock := now, phase := Idle, dropped := s.dropped + [s.phase.record])
      else s.(clock := now, phase := Attempting(s.phase.record, now))
    case FinishEmit(outcome, now) =>
      var t := s.(clock := now, streak := s.streak + [s.phase.startedAt]);
      match outcome
      case Accepted => t.(phase := Idle, failures := 0, streak := [], sent := s.sent + [s.phase.record])
      // the overflow escapes the inner call, is caught as one more failure, and escapes again
      case Rejected => Failed(t, s.phase.record, 2, now)
      case Threw => Failed(t, s.phase.record, 1, now)
  }

  // ----- the handlers

  class Pipeline<R> {
    var queue: seq<R>
    var phase: Phase<R>
    var sent: nat
    var dropped: nat
    var consecutiveFailures: nat
    var nextRetryAt: real
    ghost var clock: real
    ghost var submittedLog: seq<R>
    ghost var sentLog: seq<R>
    ghost var droppedLog: seq<R>
    ghost var streak: seq<real>

    ghost function View(): State<R>
      reads this
    {
      State(queue, phase, consecutiveFailures, nextRetryAt, clock, submittedLog, sentLog, droppedLog, streak)
    }

    ghost predicate Valid()
      reads this
    {
      sent == |sentLog| && dropped == |droppedLog|
    }

    constructor ()
      ensures Valid() && View() == Initial()
    {
      queue, phase, sent, dropped, consecutiveFailures, nextRetryAt := [], Idle, 0, 0, 0, 0.0;
      clock, submittedLog, sentLog, droppedLog, streak := 0.0, [], [], [], [];
    }

    method Drop(record: R)
      requires Valid()
      modifies this`dropped, this`droppedLog
      ensures Valid() && droppedLog == old(droppedLog) + [record]
    {
      dropped := dropped + 1;
      droppedLog := droppedLog + [record];
    }

    /** A producer never waits: a full queue drops the record. */
    method Submit(record: R)
      requires Valid()
      modifies this
      ensures Valid() && View() == Step(old(View()), Event.Submit(record))
    {
      submittedLog := submittedLog + [record];
      if |queue| < CAPACITY {
        queue := queue + [record];
      } else {
        Drop(record);
      }
    }

    method Take()
      requires Valid() && Enabled(View(), Event.Take)
      modifies this
      ensures Valid() && View() == Step(old(View()), Event.Take)
    {
      phase := Taken(queue[0]);
      queue := queue[1..];
    }

    method BeginEmit(now: real)
      requires Valid() && Enabled(View(), Event.BeginEmit(now))
      modifies this
      ensures Valid() && View() == Step(old(View()), Event.BeginEmit(now))
    {
      clock := now;
      if now < nextRetryAt {
        Drop(phase.record);
        phase := Idle;
      } else {
        phase := Attempting(phase.record, now);
      }
    }

    /** Says whether computing the delay overflowed, in which case nothing else was done. */
    method HandleFailure(record: R, now: real) returns (raised: bool)
      requires Valid()
      modifies this`consecutiveFailures, this`nextRetryAt, this`dropped, this`droppedLog
      ensures Valid() && consecutiveFailures == old(consecutiveFailures) + 1
      ensures raised <==> consecutiveFailures >= OVERFLOW_AT
      ensures raised ==> nextRetryAt == old(nextRetryAt) && droppedLog == old(droppedLog)
      ensures !raised ==> nextRetryAt == now + Backoff(consecutiveFailures) && droppedLog == old(droppedLog) + [record]
    {
      consecutiveFailures := consecutiveFailures + 1;
      if consecutiveFailures >= OVERFLOW_AT {
        return true;
      }
      nextRetryAt := now + Backoff(consecutiveFailures);
      Drop(record);
      raised := false;
    }

    method FinishEmit(outcome: Outcome, now: real)
      requires Valid() && Enabled(View(), Event.FinishEmit(outcome, now))
      modifies this
      ensures Valid() && View() == Step(old(View()), Event.FinishEmit(outcome, now))
    {
      clock := now;
      var record := phase.record;
      streak := streak + [phase.startedAt];
      var raised := false;
      match outcome {
        case Accepted =>
          sent := sent + 1;
          sentLog := sentLog + [record];
          consecutiveFailures := 0;
          streak := [];
        case Rejected =>
          raised := HandleFailure(record, now);
          if raised {
            raised := HandleFailure(record, now);
          }
        case Threw =>
          raised := HandleFailure(record, now);
      }
      phase := if raised then Dead(record) else Idle;
    }
  }

  // ----- runs

  /** The interleaving `events` of producers and listener leads from `start` to `s`. */
  predicate Runs<R(==)>(start: State<R>, events: seq<Event<R>>, s: State<R>)
    decreases |events|
  {
    if events == [] then s == start
    else Enabled(start, events[0]) && Runs(Step(start, events[0]), events[1..], s)
  }

  function InFlight<R>(s: State<R>): seq<R> { if s.phase.Idle? then [] else [s.phase.record] }

  /** `xs` is what remains of `ys` after leaving some elements out. */
  ghost predicate Subsequence<R>(xs: seq<R>, ys: seq<R>) {
    if xs == [] then true
    else if ys == [] then false
    else if xs[|xs| - 1] == ys[|ys| - 1] && Subsequence(xs[..|xs| - 1], ys[..|ys| - 1]) then true
    else Subsequence(xs, ys[..|ys| - 1])
  }

  lemma {:induction false} SubsequenceLater<R>(xs: seq<R>, ys: seq<R>, y: R)
    requires Subsequence(xs, ys)
    ensures Subsequence(xs, ys + [y])
    ensures Subsequence(xs + [y], ys + [y])
  {
    assert (ys + [y])[..|ys|] == ys && (xs + [y])[..|xs|] == xs;
  }

  lemma {:induction false} SubsequenceWithout<R>(xs: seq<R>, i: nat, ys: seq<R>)
    requires Subsequence(xs, ys) && i < |xs|
    ensures Subsequence(xs[..i] + xs[i + 1..], ys)
    decreases |ys|
  {
    var less, init := xs[..i] + xs[i + 1..], ys[..|ys| - 1];
    if xs[|xs| - 1] == ys[|ys| - 1] && Subsequence(xs[..|xs| - 1], init) {
      var front := xs[..|xs| - 1];
      if i == |xs| - 1 {
        assert less == front;
        assert ys == init + [ys[|ys| - 1]];
        SubsequenceLater(front, init, ys[|ys| - 1]);
      } else {
        SubsequenceWithout(front, i, init);
        assert less[..|less| - 1] == front[..i] + front[i + 1..];
        assert less == (front[..i] + front[i + 1..]) + [ys[|ys| - 1]] && ys == init + [ys[|ys| - 1]];
        SubsequenceLater(front[..i] + front[i + 1..], init, ys[|ys| - 1]);
      }
    } else {
      SubsequenceWithout(xs, i, init);
      assert ys == init + [ys[|ys| - 1]];
      SubsequenceLater(less, init, ys[|ys| - 1]);
    }
  }

  // ----- conservation

  /** Every submitted record is in exactly one place, and what was sent or still waits keeps its order. */
  ghost predicate Conserved<R>(s: State<R>) {
    && |s.queue| <= CAPACITY
    && multiset(s.submitted) == multiset(s.queue) + multiset(InFlight(s)) + multiset(s.sent) + multiset(s.dropped)
    && Subsequence(s.sent + InFlight(s) + s.queue, s.submitted)
  }

  lemma {:induction false} SubmitConserves<R>(s: State<R>, record: R)
    requires Conserved(s)
    ensures Conserved(Step(s, Submit(record)))
  {
    var t := Step(s, Submit(record));
    var kept, arrived := s.sent + InFlight(s) + s.queue, s.submitted + [record];
    SubsequenceLater(kept, s.submitted, record);
    if |s.queue| < CAPACITY {
      assert t.sent + InFlight(t) + t.queue == kept + [record];
    } else {
      assert t.sent + InFlight(t) + t.queue == kept;
    }
  }

  lemma {:induction false} TakeConserves<R>(s: State<R>)
    requires Conserved(s) && Enabled(s, Event.Take)
    ensures Conserved(Step(s, Event.Take))
  {
    var t := Step(s, Event.Take);
    assert s.queue == [s.queue[0]] + s.queue[1..];
    assert s.sent + InFlight(s) + s.queue == t.sent + InFlight(t) + t.queue;
  }

  /** The record in flight goes to the dropped ones. */
  lemma {:induction false} DropConserves<R>(s: State<R>, t: State<R>)
    requires Conserved(s) && !s.phase.Idle? && t.phase.Idle?
    requires t.queue == s.queue && t.submitted == s.submitted && t.sent == s.sent
             && t.dropped == s.dropped + [s.phase.record]
    ensures Conserved(t)
  {
    var kept := s.sent + [s.phase.record] + s.queue;
    SubsequenceWithout(kept, |s.sent|, s.submitted);
    assert kept[..|s.sent|] + kept[|s.sent| + 1..] == t.sent + InFlight(t) + t.queue;
  }

  lemma {:induction false} SendConserves<R>(s: State<R>, t: State<R>)
    requires Conserved(s) && !s.phase.Idle? && t.phase.Idle?
    requires t.queue == s.queue && t.submitted == s.submitted && t.dropped == s.dropped
             && t.sent == s.sent + [s.phase.record]
    ensures Conserved(t)
  {
    assert s.sent + InFlight(s) + s.queue == t.sent + InFlight(t) + t.queue;
  }

  lemma {:induction false} StepConserves<R>(s: State<R>, e: Event<R>)
    requires Conserved(s) && Enabled(s, e)
    ensures Conserved(Step(s, e))
  {
    match e
    case Submit(record) => SubmitConserves(s, record);
    case Take => TakeConserves(s);
    case BeginEmit(now) =>
      if now < s.nextRetryAt {
        DropConserves(s, Step(s, e));
      }
    case FinishEmit(outcome, now) =>
      if outcome.Accepted? {
        SendConserves(s, Step(s, e));
      } else if s.failures + 1 < OVERFLOW_AT {
        DropConserves(s, Step(s, e));
      }
  }

  lemma {:induction false} RunConserves<R>(start: State<R>, events: seq<Event<R>>, s: State<R>)
    requires Conserved(start) && Runs(start, events, s)
    ensures Conserved(s)
    decreases |events|
  {
    if events != [] {
      StepConserves(start, events[0]);
      RunConserves(Step(start, events[0]), events[1..], s);
    }
  }

  /** Over every interleaving, nothing submitted is lost, doubled or reordered. */
  lemma {:induction false} NothingIsLost<R>(events: seq<Event<R>>, s: State<R>)
    requires Runs(Initial(), events, s)
    ensures |s.submitted| == |s.queue| + |InFlight(s)| + |s.sent| + |s.dropped|
    ensures Conserved(s)
  {
    RunConserves(Initial(), events, s);
    assert |s.submitted| == |multiset(s.submitted)|;
  }

  // ----- backing off

  /** The sum of the first `n` delays. */
  function Delays(n: nat): real { if n == 0 then 0.0 else Delays(n - 1) + Backoff(n) }

  lemma {:induction false} PowerGrows(n: nat)
    requires n >= 7
    ensures PowerOfTwo(n) >= 128
  {
    if n > 7 {
      PowerGrows(n - 1);
    } else {
      assert PowerOfTwo(4) == 16;
    }
  }

  lemma {:induction false} DelaysInClosedForm(n: nat)
    requires n >= 6
    ensures Delays(n) == 126.0 + 120.0 * (n - 6) as real
  {
    if n > 6 {
      PowerGrows(n);
      DelaysInClosedForm(n - 1);
    } else {
      assert PowerOfTwo(3) == 8;
      assert PowerOfTwo(6) == 64;
      assert Delays(3) == 14.0;
    }
  }

  /** The attempts at these times are spaced by the growing delays. */
  ghost predicate Spaced(streak: seq<real>) {
    forall k :: 0 <= k < |streak| ==> streak[k] >= streak[0] + Delays(k)
  }

  /**
   The run of failures so far: attempts are spaced by the delays, the next one is
   not allowed earlier, and the listener is alive while the delay can be computed.
   */
  ghost predicate BacksOff<R>(s: State<R>) {
    && (!s.phase.Dead? ==> |s.streak| == s.failures < OVERFLOW_AT)
    && (s.phase.Dead? ==> |s.streak| == OVERFLOW_AT <= s.failures)
    && Spaced(s.streak)
    && (s.streak != [] ==> s.streak[|s.streak| - 1] <= s.clock)
    && (s.streak != [] && !s.phase.Dead? ==> s.nextRetryAt >= s.streak[|s.streak| - 1] + Backoff(|s.streak|))
    && (s.phase.Attempting? ==> s.nextRetryAt <= s.phase.startedAt <= s.clock)
  }

  /** An attempt that starts when it may comes late enough after the first of its run. */
  lemma {:induction false} AttemptIsSpaced<R>(s: State<R>)
    requires BacksOff(s) && s.phase.Attempting?
    ensures Spaced(s.streak + [s.phase.startedAt])
  {
    var n := |s.streak|;
    if n > 0 {
      assert s.streak[n - 1] >= s.streak[0] + Delays(n - 1);
    }
  }

  lemma {:induction false} FailureBacksOff<R>(s: State<R>, again: nat, now: real)
    requires BacksOff(s) && s.phase.Attempting? && s.clock <= now && again > 0
    ensures BacksOff(Failed(s.(clock := now, streak := s.streak + [s.phase.startedAt]), s.phase.record, again, now))
  {
    AttemptIsSpaced(s);
  }

  lemma {:induction false} EmitBacksOff<R>(s: State<R>, now: real)
    requires BacksOff(s) && s.phase.Taken? && s.clock <= now
    ensures BacksOff(Step(s, BeginEmit(now)))
  {
  }

  lemma {:induction false} StepBacksOff<R>(s: State<R>, e: Event<R>)
    requires BacksOff(s) && Enabled(s, e)
    ensures BacksOff(Step(s, e))
  {
    match e
    case Submit(_) =>
    case Take =>
    case BeginEmit(now) => EmitBacksOff(s, now);
    case FinishEmit(Accepted, _) =>
    case FinishEmit(Rejected, now) => FailureBacksOff(s, 2, now);
    case FinishEmit(Threw, now) => FailureBacksOff(s, 1, now);
  }

  lemma {:induction false} RunBacksOff<R>(start: State<R>, events: seq<Event<R>>, s: State<R>)
    requires BacksOff(start) && Runs(start, events, s)
    ensures BacksOff(s)
    decreases |events|
  {
    if events != [] {
      StepBacksOff(start, events[0]);
      RunBacksOff(Step(start, events[0]), events[1..], s);
    }
  }

  /**
   In every reachable state no attempt begins before it may, and the n-th failed
   attempt in a row begins at least the sum of the first n - 1 delays after the first.
   */
  lemma {:induction false} FailuresAreSpaced<R>(events: seq<Event<R>>, s: State<R>)
    requires Runs(Initial(), events, s)
    ensures s.phase.Attempting? ==> s.phase.startedAt >= s.nextRetryAt
    ensures Spaced(s.streak)
    ensures BacksOff(s)
  {
    RunBacksOff(Initial(), events, s);
  }

  /** The listener dies exactly with the 1024th failure in a row, at the earliest 122166 seconds after the first. */
  lemma {:induction false} ListenerDiesExactly<R>(events: seq<Event<R>>, s: State<R>)
    requires Runs(Initial(), events, s)
    ensures s.phase.Dead? <==> s.failures >= OVERFLOW_AT
    ensures s.phase.Dead? ==> |s.streak| == OVERFLOW_AT && s.streak[OVERFLOW_AT - 1] >= s.streak[0] + 122166.0
  {
    FailuresAreSpaced(events, s);
    DelaysInClosedForm(OVERFLOW_AT - 1);
  }

  /** A dead listener sends nothing more; what is submitted fills the queue and is then dropped. */
  lemma {:induction false} DeadForGood<R>(start: State<R>, events: seq<Event<R>>, s: State<R>)
    requires start.phase.Dead? && |start.queue| <= CAPACITY && Runs(start, events, s)
    ensures s.phase == start.phase && s.sent == start.sent
    ensures |s.queue| == if |start.queue| + |events| <= CAPACITY then |start.queue| + |events| else CAPACITY
    ensures |s.dropped| == |start.dropped| + (|start.queue| + |events| - |s.queue|)
    decreases |events|
  {
    if events != [] {
      DeadForGood(Step(start, events[0]), events[1..], s);
    }
  }

  // ----- what the history alone tells

  predicate IsFailure<R>(e: Event<R>) { e.FinishEmit? && !e.outcome.Accepted? }

  /** How many attempts have failed since the last one that was accepted. */
  function FailuresIn<R>(events: seq<Event<R>>): nat {
    if events == [] then 0
    else
      var earlier, e := FailuresIn(events[..|events| - 1]), events[|events| - 1];
      if !e.FinishEmit? then earlier else if e.outcome.Accepted? then 0 else earlier + 1
  }

  /** When the last attempt failed. */
  function LastFailureAt<R>(events: seq<Event<R>>): real {
    if events == [] then 0.0
    else if IsFailure(events[|events| - 1]) then events[|events| - 1].now
    else LastFailureAt(events[..|events| - 1])
  }

  /** Two, four, eight, sixteen, thirty-two, sixty-four seconds, and two minutes from the seventh failure on. */
  function Delay(failures: nat): real {
    if failures >= 7 then 120.0 else [1.0, 2.0, 4.0, 8.0, 16.0, 32.0, 64.0][failures]
  }

  /** With nothing failed since the last success an attempt is due, else once the delay has passed. */
  predicate Due<R>(events: seq<Event<R>>, now: real) {
    FailuresIn(events) == 0 || now >= LastFailureAt(events) + Delay(FailuresIn(events))
  }

  /** The submitted records. */
  function SubmittedIn<R>(events: seq<Event<R>>): seq<R> {
    if events == [] then []
    else
      var e := events[|events| - 1];
      SubmittedIn(events[..|events| - 1]) + if e.Submit? then [e.record] else []
  }

  /** How many records the listener has taken off the queue. */
  function TakenIn<R>(events: seq<Event<R>>): nat {
    if events == [] then 0
    else TakenIn(events[..|events| - 1]) + if events[|events| - 1].Take? then 1 else 0
  }

  /** The records that found room, in order. */
  function AdmittedIn<R>(events: seq<Event<R>>): seq<R> {
    if events == [] then []
    else
      var init, e := events[..|events| - 1], events[|events| - 1];
      AdmittedIn(init) + if e.Submit? && |AdmittedIn(init)| < TakenIn(init) + 10_000 then [e.record] else []
  }

  /** The record the listener took last. */
  function InHand<R>(events: seq<Event<R>>): seq<R> {
    if 0 < TakenIn(events) <= |AdmittedIn(events)| then [AdmittedIn(events)[TakenIn(events) - 1]] else []
  }

  /** The records of attempts that were accepted. */
  function AcceptedIn<R>(events: seq<Event<R>>): seq<R> {
    if events == [] then []
    else
      var init, e := events[..|events| - 1], events[|events| - 1];
      AcceptedIn(init) + if e.FinishEmit? && e.outcome.Accepted? then InHand(init) else []
  }

  /** Why an event drops a record: no room, too early, or an attempt that failed short of the overflow. */
  predicate Drops<R>(init: seq<Event<R>>, e: Event<R>) {
    match e
    case Submit(_) => |AdmittedIn(init)| >= TakenIn(init) + 10_000
    case Take => false
    case BeginEmit(now) => !Due(init, now)
    case FinishEmit(outcome, _) => !outcome.Accepted? && FailuresIn(init) + 1 < 1024
  }

  function DroppedIn<R>(events: seq<Event<R>>): seq<R> {
    if events == [] then []
    else
      var init, e := events[..|events| - 1], events[|events| - 1];
      DroppedIn(init) + if !Drops(init, e) then [] else if e.Submit? then [e.record] else InHand(init)
  }

  lemma {:induction false} BackoffIsDelay(failures: nat)
    requires failures > 0
    ensures Backoff(failures) == Delay(failures)
  {
    if failures >= 7 {
      PowerGrows(failures);
    } else {
      assert PowerOfTwo(2) == 4 && PowerOfTwo(3) == 8 && PowerOfTwo(4) == 16;
      assert PowerOfTwo(5) == 32 && PowerOfTwo(6) == 64;
    }
  }

  lemma {:induction false} RunsSnoc<R>(start: State<R>, events: seq<Event<R>>, s: State<R>) returns (before: State<R>)
    requires events != [] && Runs(start, events, s)
    ensures var e := events[|events| - 1];
            Runs(start, events[..|events| - 1], before) && Enabled(before, e) && s == Step(before, e)
    decreases |events|
  {
    if |events| == 1 {
      before := start;
      assert events[1..] == [] && events[..0] == [];
    } else {
      before := RunsSnoc(Step(start, events[0]), events[1..], s);
      assert events[1..][..|events| - 2] == events[..|events| - 1][1..];
    }
  }

  /** The state is what the history says. */
  ghost predicate Tells<R>(events: seq<Event<R>>, s: State<R>) {
    && TakenIn(events) + |s.queue| == |AdmittedIn(events)| && s.queue == AdmittedIn(events)[TakenIn(events)..]
    && |s.queue| <= CAPACITY
    && (!s.phase.Idle? ==> InHand(events) == [s.phase.record])
    && s.submitted == SubmittedIn(events) && s.sent == AcceptedIn(events) && s.dropped == DroppedIn(events)
    && (s.phase.Dead? <==> FailuresIn(events) >= OVERFLOW_AT)
    && (!s.phase.Dead? ==> s.failures == FailuresIn(events))
    && (!s.phase.Dead? && s.failures > 0 ==> s.nextRetryAt == LastFailureAt(events) + Delay(s.failures))
    && (!s.phase.Dead? && s.failures == 0 ==> s.nextRetryAt <= s.clock)
  }

  lemma {:induction false} OneMoreEvent<R>(init: seq<Event<R>>, e: Event<R>)
    ensures var events := init + [e]; events != [] && events[..|events| - 1] == init && events[|events| - 1] == e
  {
  }

  lemma {:induction false} SubmitTells<R>(init: seq<Event<R>>, s: State<R>, record: R)
    requires Tells(init, s)
    ensures Tells(init + [Submit(record)], Step(s, Submit(record)))
  {
    var e := Submit(record);
    OneMoreEvent(init, e);
    assert AdmittedIn(init + [e]) == AdmittedIn(init) + if |s.queue| < CAPACITY then [record] else [];
    assert TakenIn(init + [e]) == TakenIn(init);
  }

  lemma {:induction false} TakeTells<R>(init: seq<Event<R>>, s: State<R>)
    requires Tells(init, s) && Enabled(s, Event.Take)
    ensures Tells(init + [Event.Take], Step(s, Event.Take))
  {
    OneMoreEvent(init, Event.Take);
    assert AdmittedIn(init + [Event.Take]) == AdmittedIn(init);
    assert TakenIn(init + [Event.Take]) == TakenIn(init) + 1;
  }

  lemma {:induction false} EmitTells<R>(init: seq<Event<R>>, s: State<R>, now: real)
    requires Tells(init, s) && Enabled(s, BeginEmit(now))
    ensures Tells(init + [BeginEmit(now)], Step(s, BeginEmit(now)))
    ensures Step(s, BeginEmit(now)).phase.Attempting? <==> Due(init, now)
  {
    var e := BeginEmit(now);
    OneMoreEvent(init, e);
    assert AdmittedIn(init + [e]) == AdmittedIn(init) && AcceptedIn(init + [e]) == AcceptedIn(init);
    assert InHand(init + [e]) == InHand(init) && SubmittedIn(init + [e]) == SubmittedIn(init);
    assert s.dropped + [] == s.dropped;
  }

  lemma {:induction false} FinishTells<R>(init: seq<Event<R>>, s: State<R>, outcome: Outcome, now: real)
    requires Tells(init, s) && BacksOff(s) && Enabled(s, FinishEmit(outcome, now))
    ensures Tells(init + [FinishEmit(outcome, now)], Step(s, FinishEmit(outcome, now)))
  {
    var e := FinishEmit(outcome, now);
    OneMoreEvent(init, e);
    assert AdmittedIn(init + [e]) == AdmittedIn(init) && InHand(init + [e]) == InHand(init);
    assert SubmittedIn(init + [e]) == SubmittedIn(init);
    BackoffIsDelay(s.failures + 1);
  }

  lemma {:induction false} HistoryTells<R>(events: seq<Event<R>>, s: State<R>)
    requires Runs(Initial(), events, s)
    ensures Tells(events, s)
    decreases |events|
  {
    if events != [] {
      var init, e := events[..|events| - 1], events[|events| - 1];
      var before := RunsSnoc(Initial(), events, s);
      HistoryTells(init, before);
      FailuresAreSpaced(init, before);
      InitLast(events);
      match e
      case Submit(record) => SubmitTells(init, before, record);
      case Take => TakeTells(init, before);
      case BeginEmit(now) => EmitTells(init, before, now);
      case FinishEmit(outcome, now) => FinishTells(init, before, outcome, now);
    }
  }

  /** A record that was taken is attempted exactly when an attempt is due; else it is dropped. */
  lemma {:induction false} AttemptedExactlyWhenDue<R>(events: seq<Event<R>>, now: real, s: State<R>, t: State<R>)
    requires Runs(Initial(), events, s) && s.phase.Taken? && s.clock <= now && t == Step(s, BeginEmit(now))
    ensures t.phase == if Due(events, now) then Attempting(s.phase.record, now) else Idle
    ensures t.dropped == if Due(events, now) then s.dropped else s.dropped + [s.phase.record]
  {
    HistoryTells(events, s);
    FailuresAreSpaced(events, s);
    EmitTells(events, s, now);
  }

  /**
   Over every run the dropped records are, in order, those that found the queue
   full, those begun before an attempt was due, and those of a failed attempt that
   left the listener alive; the sent ones are those of the accepted attempts.
   */
  lemma {:induction false} DroppedExactly<R>(events: seq<Event<R>>, s: State<R>)
    requires Runs(Initial(), events, s)
    ensures s.dropped == DroppedIn(events) && s.sent == AcceptedIn(events) && s.submitted == SubmittedIn(events)
    ensures TakenIn(events) <= |AdmittedIn(events)| && s.queue == AdmittedIn(events)[TakenIn(events)..]
    ensures !s.phase.Idle? ==> InHand(events) == [s.phase.record]
    ensures s.phase.Dead? <==> FailuresIn(events) >= 1024
  {
    HistoryTells(events, s);
  }
}
