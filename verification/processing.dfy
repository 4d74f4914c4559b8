/** What the processor does with one dequeued job, and what follows for the whole life of a job. */
module Processing {
  import opened Options
  import opened Jobs

  /** The retry settings of a task definition, as its constructor admits them. */
  datatype Policy = Policy(retries: nat, delay: real, backoff: real) {
    predicate Valid() { delay >= 0.0 && backoff >= 1.0 }
  }

  /** How the task function ends: it returns, after so many milliseconds by the wall clock, raises with a text, which
      may be empty, runs into its time limit, or its process is stopped by a revoke; or what it raises is no
      `Exception`, such as the cancellation of something it awaits. */
  datatype Verdict =
    | Returns(result: Json, elapsed: real)
    | Raises(error: string)
    | TimesOut(limit: string)
    | Stopped(reason: string)
    | Escapes

  predicate Fails(v: Verdict) { v.Raises? || v.TimesOut? }

  /** What the outside answers while one dequeued job is processed. `rescheduleError` is the text of an exception from
      working out or storing the next run of a recurring job. */
  datatype Delivery = Delivery(
    cancelled: bool, paused: bool, policy: Option<Policy>, verdict: Verdict, rescheduleError: Option<string>)

  /** A recurring job succeeded and could not be rescheduled. */
  predicate RescheduleFails(cron: bool, d: Delivery) {
    Executes(d) && d.verdict.Returns? && cron && d.rescheduleError.Some?
  }

  /** What the task raised passes every handler, and the job is neither finished nor put back. */
  predicate Unsettled(d: Delivery) { Executes(d) && d.verdict.Escapes? }

  /** A run that is handled as a failure. */
  predicate FailingRun(cron: bool, d: Delivery) {
    Executes(d) && (d.verdict.Raises? || d.verdict.TimesOut? || (d.verdict.Returns? && cron && d.rescheduleError.Some?))
  }

  /** The finish and retry calls on the queue, told apart by what led to them. */
  datatype Action = Skipped | Deferred | UnknownTask | Completed | StoppedMidway | Retried(delay: real) | FailedForGood

  function Pow(b: real, n: nat): real { if n == 0 then 1.0 else b * Pow(b, n - 1) }

  function DelayAt(p: Policy, attempt: nat): real
    requires attempt >= 1
  {
    p.delay * Pow(p.backoff, attempt - 1)
  }

  function FailureAction(p: Policy, attempt: nat): Action
    requires attempt >= 1
  {
    if attempt <= p.retries then Retried(DelayAt(p, attempt)) else FailedForGood
  }

  predicate Starts(d: Delivery) { !d.cancelled && !d.paused }

  predicate Executes(d: Delivery) { Starts(d) && d.policy.Some? }

  function AttemptsAfter(attempts: nat, d: Delivery): nat { if Starts(d) then attempts + 1 else attempts }

  /** The queue calls of one delivery. Success is settled inside the same `try` that runs the task, so an exception
      while a recurring job is rescheduled is handled as a failure of the job just finished. */
  function Actions(attempts: nat, cron: bool, d: Delivery): seq<Action> {
    if d.cancelled then [Skipped]
    else if d.paused then [Deferred]
    else if d.policy.None? then [UnknownTask]
    else
      match d.verdict
      case Returns(_, _) =>
        [Completed] + (if cron && d.rescheduleError.Some? then [FailureAction(d.policy.value, attempts + 1)] else [])
      case Raises(_) => [FailureAction(d.policy.value, attempts + 1)]
      case TimesOut(_) => [FailureAction(d.policy.value, attempts + 1)]
      case Stopped(_) => [StoppedMidway]
      case Escapes => []
  }

  /** One finish or retry per delivery, exactly unless a recurring job succeeds and cannot be rescheduled, which makes
      two, or what the task raises escapes, which makes none. */
  lemma OneActionPerDelivery(attempts: nat, cron: bool, d: Delivery)
    ensures |Actions(attempts, cron, d)| == 1 <==> !RescheduleFails(cron, d) && !Unsettled(d)
    ensures |Actions(attempts, cron, d)| == 2 <==> RescheduleFails(cron, d)
    ensures |Actions(attempts, cron, d)| == 0 <==> Unsettled(d)
  {
  }

  // ---------------------------------------------------------------------------------------------
  // Counters
  // ---------------------------------------------------------------------------------------------

  function Count(log: seq<(string, Action)>, kind: Action -> bool): nat {
    if log == [] then 0 else Count(log[..|log| - 1], kind) + (if kind(log[|log| - 1].1) then 1 else 0)
  }

  predicate IsProcessed(a: Action) { a.Completed? }
  predicate IsFailed(a: Action) { a.FailedForGood? || a.UnknownTask? }
  predicate IsRetried(a: Action) { a.Retried? }
  predicate IsCancelled(a: Action) { a.Skipped? || a.StoppedMidway? }
  predicate IsPaused(a: Action) { a.Deferred? }

  lemma {:induction false} EveryActionCounted(log: seq<(string, Action)>)
    ensures |log| == Count(log, IsProcessed) + Count(log, IsFailed) + Count(log, IsRetried) + Count(log, IsCancelled)
                     + Count(log, IsPaused)
  {
    if log != [] {
      EveryActionCounted(log[..|log| - 1]);
    }
  }

  lemma CountOneMore(log: seq<(string, Action)>, entry: (string, Action), kind: Action -> bool)
    ensures Count(log + [entry], kind) == Count(log, kind) + (if kind(entry.1) then 1 else 0)
  {
    assert (log + [entry])[..|log|] == log;
  }

  function Tagged(id: string, actions: seq<Action>): (log: seq<(string, Action)>)
    ensures |log| == |actions|
  {
    if actions == [] then [] else [(id, actions[0])] + Tagged(id, actions[1..])
  }

  /** One job handed to a processor, with its attempts at that moment. */
  datatype Turn = Turn(id: string, attempts: nat, cron: bool, d: Delivery)

  /** The queue calls of a run: any jobs, in the order they are taken. */
  function Log(turns: seq<Turn>): seq<(string, Action)> {
    if turns == [] then []
    else
      var t := turns[|turns| - 1];
      Log(turns[..|turns| - 1]) + Tagged(t.id, Actions(t.attempts, t.cron, t.d))
  }

  /** The deliveries that are settled twice. */
  function Doubles(turns: seq<Turn>): nat {
    if turns == [] then 0
    else
      Doubles(turns[..|turns| - 1])
      + (if RescheduleFails(turns[|turns| - 1].cron, turns[|turns| - 1].d) then 1 else 0)
  }

  /** The deliveries that are not settled at all. */
  function Strays(turns: seq<Turn>): nat {
    if turns == [] then 0
    else Strays(turns[..|turns| - 1]) + (if Unsettled(turns[|turns| - 1].d) then 1 else 0)
  }

  lemma {:induction false} LogLength(turns: seq<Turn>)
    ensures |Log(turns)| + Strays(turns) == |turns| + Doubles(turns)
  {
    if turns != [] {
      var t := turns[|turns| - 1];
      LogLength(turns[..|turns| - 1]);
      OneActionPerDelivery(t.attempts, t.cron, t.d);
    }
  }

  function Tally(turns: seq<Turn>, kind: Turn -> bool): nat {
    if turns == [] then 0 else Tally(turns[..|turns| - 1], kind) + (if kind(turns[|turns| - 1]) then 1 else 0)
  }

  predicate Succeeds(t: Turn) { Executes(t.d) && t.d.verdict.Returns? }

  predicate FailsForGood(t: Turn) {
    (Starts(t.d) && t.d.policy.None?) || (FailingRun(t.cron, t.d) && t.attempts >= t.d.policy.value.retries)
  }

  predicate IsRetryable(t: Turn) { FailingRun(t.cron, t.d) && t.attempts < t.d.policy.value.retries }

  predicate IsRevoked(t: Turn) { t.d.cancelled || (Executes(t.d) && t.d.verdict.Stopped?) }

  predicate IsHeldBack(t: Turn) { !t.d.cancelled && t.d.paused }

  lemma CountOne(id: string, a: Action, kind: Action -> bool)
    ensures Count([(id, a)], kind) == if kind(a) then 1 else 0
  {
    assert [(id, a)][..0] == [];
  }

  lemma CountTwo(id: string, a: Action, b: Action, kind: Action -> bool)
    ensures Count([(id, a), (id, b)], kind) == (if kind(a) then 1 else 0) + (if kind(b) then 1 else 0)
  {
    assert [(id, a), (id, b)][..1] == [(id, a)];
    CountOne(id, a, kind);
  }

  lemma TaggedCount(id: string, actions: seq<Action>, kind: Action -> bool)
    requires |actions| <= 2
    ensures Count(Tagged(id, actions), kind) ==
            (if |actions| > 0 && kind(actions[0]) then 1 else 0) + (if |actions| > 1 && kind(actions[1]) then 1 else 0)
  {
    if |actions| == 1 {
      CountOne(id, actions[0], kind);
      assert Tagged(id, actions) == [(id, actions[0])];
    } else if |actions| == 2 {
      CountTwo(id, actions[0], actions[1], kind);
      assert Tagged(id, actions[1..]) == [(id, actions[1])];
      assert Tagged(id, actions) == [(id, actions[0]), (id, actions[1])];
    }
  }

  /** The counts of one turn, in terms of what the outside answered. */
  lemma TurnCounts(t: Turn)
    ensures var log := Tagged(t.id, Actions(t.attempts, t.cron, t.d));
            && Count(log, IsProcessed) == (if Succeeds(t) then 1 else 0)
            && Count(log, IsFailed) == (if FailsForGood(t) then 1 else 0)
            && Count(log, IsRetried) == (if IsRetryable(t) then 1 else 0)
            && Count(log, IsCancelled) == (if IsRevoked(t) then 1 else 0)
            && Count(log, IsPaused) == (if IsHeldBack(t) then 1 else 0)
  {
    var actions := Actions(t.attempts, t.cron, t.d);
    TaggedCount(t.id, actions, IsProcessed);
    TaggedCount(t.id, actions, IsFailed);
    TaggedCount(t.id, actions, IsRetried);
    TaggedCount(t.id, actions, IsCancelled);
    TaggedCount(t.id, actions, IsPaused);
  }

  /** Over any run: processed counts the successes, failed the unknown tasks and the failures without a retry left,
      retried the other failures, cancelled the jobs revoked before or while they ran, paused the jobs held back. */
  lemma {:induction false} CountersTell(turns: seq<Turn>)
    ensures Count(Log(turns), IsProcessed) == Tally(turns, Succeeds)
    ensures Count(Log(turns), IsFailed) == Tally(turns, FailsForGood)
    ensures Count(Log(turns), IsRetried) == Tally(turns, IsRetryable)
    ensures Count(Log(turns), IsCancelled) == Tally(turns, IsRevoked)
    ensures Count(Log(turns), IsPaused) == Tally(turns, IsHeldBack)
  {
    if turns != [] {
      var front, t := turns[..|turns| - 1], turns[|turns| - 1];
      var calls := Tagged(t.id, Actions(t.attempts, t.cron, t.d));
      CountersTell(front);
      TurnCounts(t);
      CountConcat(Log(front), calls, IsProcessed);
      CountConcat(Log(front), calls, IsFailed);
      CountConcat(Log(front), calls, IsRetried);
      CountConcat(Log(front), calls, IsCancelled);
      CountConcat(Log(front), calls, IsPaused);
    }
  }

  /** The sum of the five counts of a run. */
  function Counted(turns: seq<Turn>): nat {
    Count(Log(turns), IsProcessed) + Count(Log(turns), IsFailed) + Count(Log(turns), IsRetried)
    + Count(Log(turns), IsCancelled) + Count(Log(turns), IsPaused)
  }

  /** Over any run of deliveries of any jobs, processed, failed, retried, cancelled and paused add up to the deliveries,
      but that each recurring success that could not be rescheduled counts twice and each task whose exception escaped
      does not count. */
  lemma DeliveriesCounted(turns: seq<Turn>)
    ensures Counted(turns) + Strays(turns) == |turns| + Doubles(turns)
    ensures Doubles(turns) == 0 <==> forall i :: 0 <= i < |turns| ==> !RescheduleFails(turns[i].cron, turns[i].d)
    ensures Strays(turns) == 0 <==> forall i :: 0 <= i < |turns| ==> !Unsettled(turns[i].d)
  {
    LogLength(turns);
    EveryActionCounted(Log(turns));
    NoDoubles(turns);
    NoStrays(turns);
  }

  lemma {:induction false} NoDoubles(turns: seq<Turn>)
    ensures Doubles(turns) == 0 <==> forall i :: 0 <= i < |turns| ==> !RescheduleFails(turns[i].cron, turns[i].d)
  {
    if turns != [] {
      NoDoubles(turns[..|turns| - 1]);
    }
  }

  lemma {:induction false} NoStrays(turns: seq<Turn>)
    ensures Strays(turns) == 0 <==> forall i :: 0 <= i < |turns| ==> !Unsettled(turns[i].d)
  {
    if turns != [] {
      NoStrays(turns[..|turns| - 1]);
    }
  }

  // ---------------------------------------------------------------------------------------------
  // Turns that overlap
  // ---------------------------------------------------------------------------------------------

  type Calls = seq<(string, Action)>

  /** The calls of each turn. */
  function CallsOf(turns: seq<Turn>): (parts: seq<Calls>)
    ensures |parts| == |turns|
  {
    if turns == [] then []
    else
      var t := turns[|turns| - 1];
      CallsOf(turns[..|turns| - 1]) + [Tagged(t.id, Actions(t.attempts, t.cron, t.d))]
  }

  /** `log` holds the calls of all turns, those of each turn in their order, interleaved in any way. */
  ghost predicate Shuffles(parts: seq<Calls>, log: Calls)
    decreases |log|
  {
    if log == [] then forall i :: 0 <= i < |parts| ==> parts[i] == []
    else
      exists i ::
        0 <= i < |parts| && EndsWithLast(parts[i], log) && Shuffles(WithoutLast(parts, i), log[..|log| - 1])
  }

  predicate EndsWithLast(part: Calls, log: Calls)
    requires log != []
  {
    part != [] && part[|part| - 1] == log[|log| - 1]
  }

  function WithoutLast(parts: seq<Calls>, i: nat): seq<Calls>
    requires i < |parts| && parts[i] != []
  {
    parts[i := parts[i][..|parts[i]| - 1]]
  }

  function Total(parts: seq<Calls>, kind: Action -> bool): nat {
    if parts == [] then 0 else Total(parts[..|parts| - 1], kind) + Count(parts[|parts| - 1], kind)
  }

  lemma {:induction false} TotalWithoutLast(parts: seq<Calls>, i: nat, kind: Action -> bool)
    requires i < |parts| && parts[i] != []
    ensures Total(parts, kind) ==
            Total(WithoutLast(parts, i), kind) + (if kind(parts[i][|parts[i]| - 1].1) then 1 else 0)
  {
    var front := parts[..|parts| - 1];
    if i < |parts| - 1 {
      TotalWithoutLast(front, i, kind);
      assert WithoutLast(parts, i)[..|parts| - 1] == WithoutLast(front, i);
    } else {
      assert WithoutLast(parts, i)[..|parts| - 1] == front;
    }
  }

  lemma {:induction false} NothingCounted(parts: seq<Calls>, kind: Action -> bool)
    requires forall i :: 0 <= i < |parts| ==> parts[i] == []
    ensures Total(parts, kind) == 0
  {
    if parts != [] {
      NothingCounted(parts[..|parts| - 1], kind);
    }
  }

  lemma {:induction false} ShuffleCounts(parts: seq<Calls>, log: Calls, kind: Action -> bool)
    requires Shuffles(parts, log)
    ensures Count(log, kind) == Total(parts, kind)
    decreases |log|
  {
    if log == [] {
      NothingCounted(parts, kind);
    } else {
      var i :| 0 <= i < |parts| && EndsWithLast(parts[i], log) && Shuffles(WithoutLast(parts, i), log[..|log| - 1]);
      ShuffleCounts(WithoutLast(parts, i), log[..|log| - 1], kind);
      TotalWithoutLast(parts, i, kind);
    }
  }

  lemma {:induction false} CountConcat(a: Calls, b: Calls, kind: Action -> bool)
    ensures Count(a + b, kind) == Count(a, kind) + Count(b, kind)
    decreases |b|
  {
    if b == [] {
      assert a + b == a;
    } else {
      CountConcat(a, b[..|b| - 1], kind);
      assert (a + b)[..|a + b| - 1] == a + b[..|b| - 1];
    }
  }

  lemma {:induction false} LogTotal(turns: seq<Turn>, kind: Action -> bool)
    ensures Total(CallsOf(turns), kind) == Count(Log(turns), kind)
  {
    if turns != [] {
      var front, t := turns[..|turns| - 1], turns[|turns| - 1];
      LogTotal(front, kind);
      CountConcat(Log(front), Tagged(t.id, Actions(t.attempts, t.cron, t.d)), kind);
      assert CallsOf(turns)[..|turns| - 1] == CallsOf(front);
    }
  }

  /** However the turns of the processor tasks overlap, every count is that of the turns taken one after another. */
  lemma OverlapCountsSame(turns: seq<Turn>, log: Calls, kind: Action -> bool)
    requires Shuffles(CallsOf(turns), log)
    ensures Count(log, kind) == Count(Log(turns), kind)
  {
    ShuffleCounts(CallsOf(turns), log, kind);
    LogTotal(turns, kind);
  }

  /** So the five counts add up to the deliveries, one more for each settled twice and one less for each not settled. */
  lemma OverlappingDeliveriesCounted(turns: seq<Turn>, log: Calls)
    requires Shuffles(CallsOf(turns), log)
    ensures Count(log, IsProcessed) + Count(log, IsFailed) + Count(log, IsRetried) + Count(log, IsCancelled)
            + Count(log, IsPaused) + Strays(turns) == |turns| + Doubles(turns)
  {
    OverlapCountsSame(turns, log, IsProcessed);
    OverlapCountsSame(turns, log, IsFailed);
    OverlapCountsSame(turns, log, IsRetried);
    OverlapCountsSame(turns, log, IsCancelled);
    OverlapCountsSame(turns, log, IsPaused);
    DeliveriesCounted(turns);
  }

  // ---------------------------------------------------------------------------------------------
  // The life of one job
  // ---------------------------------------------------------------------------------------------

  function AttemptsAt(ds: seq<Delivery>): nat {
    if ds == [] then 0 else AttemptsAfter(AttemptsAt(ds[..|ds| - 1]), ds[|ds| - 1])
  }

  function Executions(ds: seq<Delivery>): nat {
    if ds == [] then 0 else Executions(ds[..|ds| - 1]) + (if Executes(ds[|ds| - 1]) then 1 else 0)
  }

  function ActionsAt(cron: bool, ds: seq<Delivery>): seq<Action>
    requires ds != []
  {
    Actions(AttemptsAt(ds[..|ds| - 1]), cron, ds[|ds| - 1])
  }

  predicate Requeues(actions: seq<Action>) {
    actions != [] && (actions[|actions| - 1].Retried? || actions[|actions| - 1].Deferred?)
  }

  /** Deliveries of one job whose attempts start at 0 and are preserved by the queue: each but the last ended by
      requeueing it. A processor that knows the task knows it under the one policy. */
  predicate IsLife(p: Policy, cron: bool, ds: seq<Delivery>) {
    && (ds != [] ==> ds[|ds| - 1].policy.None? || ds[|ds| - 1].policy.value == p)
    && (|ds| >= 2 ==> IsLife(p, cron, ds[..|ds| - 1]) && Requeues(ActionsAt(cron, ds[..|ds| - 1])))
  }

  /** The last processor marked the job started and did not know its task. */
  predicate EndsUnknown(ds: seq<Delivery>) { ds != [] && Starts(ds[|ds| - 1]) && ds[|ds| - 1].policy.None? }

  lemma {:induction false} RequeuedWithinRetries(p: Policy, cron: bool, ds: seq<Delivery>)
    requires IsLife(p, cron, ds)
    ensures AttemptsAt(ds) == Executions(ds) + (if EndsUnknown(ds) then 1 else 0) && AttemptsAt(ds) <= p.retries + 1
    ensures ds != [] && Requeues(ActionsAt(cron, ds)) ==> AttemptsAt(ds) <= p.retries && !EndsUnknown(ds)
  {
    if ds != [] {
      var before := ds[..|ds| - 1];
      if |ds| == 1 {
        assert before == [];
      } else {
        RequeuedWithinRetries(p, cron, before);
      }
    }
  }

  /** However often it is redelivered, a job runs at most `retries + 1` times, once for each attempt unless its task
      turns out unknown; a run that fails is the last one exactly when it is run number `retries + 1`. */
  lemma BoundedExecutions(p: Policy, cron: bool, ds: seq<Delivery>)
    requires IsLife(p, cron, ds) && ds != []
    ensures Executions(ds) <= AttemptsAt(ds) <= p.retries + 1
    ensures Executions(ds) == AttemptsAt(ds) <==> !EndsUnknown(ds)
    ensures Executes(ds[|ds| - 1]) && Fails(ds[|ds| - 1].verdict) ==>
              (ActionsAt(cron, ds) == [FailedForGood] <==> AttemptsAt(ds) == p.retries + 1)
              && (ActionsAt(cron, ds) == [Retried(DelayAt(p, AttemptsAt(ds)))] <==> AttemptsAt(ds) <= p.retries)
  {
    RequeuedWithinRetries(p, cron, ds);
  }

  // ---------------------------------------------------------------------------------------------
  // Retry delays
  // ---------------------------------------------------------------------------------------------

  function RetryDelays(cron: bool, ds: seq<Delivery>): seq<real> {
    if ds == [] then []
    else
      var actions := ActionsAt(cron, ds);
      RetryDelays(cron, ds[..|ds| - 1])
      + (if actions != [] && actions[|actions| - 1].Retried? then [actions[|actions| - 1].delay] else [])
  }

  function DelaysUpTo(p: Policy, n: nat): seq<real> {
    if n == 0 then [] else DelaysUpTo(p, n - 1) + [DelayAt(p, n)]
  }

  function Sum(xs: seq<real>): real { if xs == [] then 0.0 else Sum(xs[..|xs| - 1]) + xs[|xs| - 1] }

  lemma {:induction false} DelaysOfRequeues(p: Policy, cron: bool, ds: seq<Delivery>)
    requires IsLife(p, cron, ds) && (ds != [] ==> Requeues(ActionsAt(cron, ds)))
    ensures RetryDelays(cron, ds) == DelaysUpTo(p, AttemptsAt(ds))
  {
    if ds != [] {
      var before := ds[..|ds| - 1];
      if |ds| == 1 {
        assert before == [];
      }
      DelaysOfRequeues(p, cron, before);
    }
  }

  lemma SeriesStep(b: real, d: real, s: real, q: real)
    requires (b - 1.0) * s == d * (q - 1.0)
    ensures (b - 1.0) * (s + d * q) == d * (b * q - 1.0)
  {
    assert (b - 1.0) * (s + d * q) == (b - 1.0) * s + (b - 1.0) * (d * q);
    assert (b - 1.0) * (d * q) == d * (b * q - q);
    assert d * (q - 1.0) + d * (b * q - q) == d * (b * q - 1.0);
  }

  lemma SumSnoc(xs: seq<real>, x: real)
    ensures Sum(xs + [x]) == Sum(xs) + x
  {
    assert (xs + [x])[..|xs|] == xs;
  }

  /** `s` is the sum of a geometric series that has reached the power `q` of its ratio `b`. */
  ghost predicate Series(b: real, d: real, s: real, q: real) { (b - 1.0) * s == d * (q - 1.0) }

  lemma SeriesStarts(p: Policy)
    ensures Series(p.backoff, p.delay, Sum(DelaysUpTo(p, 0)), Pow(p.backoff, 0))
  {
    assert (p.backoff - 1.0) * 0.0 == 0.0 && p.delay * (1.0 - 1.0) == 0.0;
  }

  lemma SeriesContinues(p: Policy, n: nat)
    requires n > 0 && Series(p.backoff, p.delay, Sum(DelaysUpTo(p, n - 1)), Pow(p.backoff, n - 1))
    ensures Series(p.backoff, p.delay, Sum(DelaysUpTo(p, n)), Pow(p.backoff, n))
  {
    var s, q := Sum(DelaysUpTo(p, n - 1)), Pow(p.backoff, n - 1);
    SumSnoc(DelaysUpTo(p, n - 1), DelayAt(p, n));
    SeriesStep(p.backoff, p.delay, s, q);
    assert Sum(DelaysUpTo(p, n)) == s + p.delay * q;
    assert Pow(p.backoff, n) == p.backoff * q;
  }

  lemma {:induction false} GeometricSum(p: Policy, n: nat)
    ensures Series(p.backoff, p.delay, Sum(DelaysUpTo(p, n)), Pow(p.backoff, n))
  {
    if n == 0 {
      SeriesStarts(p);
    } else {
      GeometricSum(p, n - 1);
      SeriesContinues(p, n);
    }
  }

  lemma {:induction false} DelaysGrow(p: Policy, n: nat)
    requires p.Valid()
    ensures |DelaysUpTo(p, n)| == n && Pow(p.backoff, n) >= 1.0
    ensures forall i, j :: 0 <= i <= j < n ==> DelaysUpTo(p, n)[i] <= DelaysUpTo(p, n)[j]
    ensures forall i :: 0 <= i < n ==> 0.0 <= DelaysUpTo(p, n)[i] <= p.delay * Pow(p.backoff, n)
  {
    if n > 0 {
      DelaysGrow(p, n - 1);
      var q := Pow(p.backoff, n - 1);
      assert p.backoff * q >= q by {
        assert (p.backoff - 1.0) * q >= 0.0;
      }
      assert p.delay * (p.backoff * q) >= p.delay * q by {
        assert p.delay * (p.backoff * q - q) >= 0.0;
      }
      assert p.delay * q >= 0.0;
    }
  }

  /** The delays a job is retried with never shrink. */
  lemma RetryDelaysNeverShrink(p: Policy, cron: bool, ds: seq<Delivery>)
    requires p.Valid() && IsLife(p, cron, ds) && ds != [] && Requeues(ActionsAt(cron, ds))
    ensures var delays := RetryDelays(cron, ds);
            |delays| == Executions(ds) && forall i, j :: 0 <= i <= j < |delays| ==> delays[i] <= delays[j]
  {
    DelaysOfRequeues(p, cron, ds);
    RequeuedWithinRetries(p, cron, ds);
    DelaysGrow(p, AttemptsAt(ds));
  }

  /** They add up as a geometric series in the number of runs so far. */
  lemma RetryDelaysAddUp(p: Policy, cron: bool, ds: seq<Delivery>)
    requires IsLife(p, cron, ds) && ds != [] && Requeues(ActionsAt(cron, ds))
    ensures Series(p.backoff, p.delay, Sum(RetryDelays(cron, ds)), Pow(p.backoff, Executions(ds)))
  {
    DelaysOfRequeues(p, cron, ds);
    RequeuedWithinRetries(p, cron, ds);
    GeometricSum(p, Executions(ds));
  }
}
