/** What every delivery sequence keeps, and exactly when an outcome wins whatever the order and duplication. */
module Convergence {
  import opened Options
  import opened Lifecycle

  // ---------------------------------------------------------------------------------------------
  // Row invariants over arbitrary deliveries
  // ---------------------------------------------------------------------------------------------

  predicate RowOk(row: Row) {
    && (row.status == Active ==> row.completedAt.None? && row.error.None? && row.result.None?)
    && (Terminal(row.status) ==> row.completedAt.Some?)
    && (row.status == Complete ==> row.progress == 1.0)
    && row.createdAt.Some?
  }

  lemma WrittenRowOk(row: Option<Row>, e: Event, persist: bool)
    requires row.Some? ==> RowOk(row.value)
    ensures After(row, e, persist).Some? ==> RowOk(After(row, e, persist).value)
    ensures row.Some? ==> row.value.attempts <= After(row, e, persist).value.attempts
  {
  }

  lemma {:induction false} RowInvariant(cfg: Config, st: Store, ds: seq<Delivery>, id: string)
    requires id in st.rows ==> RowOk(st.rows[id])
    ensures id in Run(cfg, st, ds).rows ==> RowOk(Run(cfg, st, ds).rows[id])
    ensures id in st.rows ==>
              id in Run(cfg, st, ds).rows && st.rows[id].attempts <= Run(cfg, st, ds).rows[id].attempts
  {
    if ds != [] {
      var front, last := ds[..|ds| - 1], ds[|ds| - 1];
      RowInvariant(cfg, st, front, id);
      var before := Run(cfg, st, front);
      StepOnRow(cfg, before, last, id);
      WrittenRowOk(RowOf(before, id), last.ev, Persists(cfg, before, last));
    }
  }

  // ---------------------------------------------------------------------------------------------
  // The progress throttle never disagrees with the rows
  // ---------------------------------------------------------------------------------------------

  ghost predicate Unique(table: seq<Entry>) {
    forall i, j :: 0 <= i < j < |table| ==> table[i].jobId != table[j].jobId
  }

  ghost predicate Agrees(st: Store) {
    && Unique(st.table)
    && (forall x :: x in st.table ==> x.jobId in st.rows && x.progress == st.rows[x.jobId].progress)
  }

  lemma ForgetKeeps(table: seq<Entry>, id: string)
    requires Unique(table)
    ensures Unique(Forget(table, id)) && |Forget(table, id)| <= |table|
    ensures forall x :: x in Forget(table, id) ==> x in table && x.jobId != id
  {
    var k := IndexOf(table, id);
    var f := Forget(table, id);
    assert forall i :: 0 <= i < |f| ==> f[i] == table[if i < k then i else i + 1];
    assert forall i :: 0 <= i < |table| && i != k ==> table[i].jobId != id;
  }

  lemma RememberKeeps(cap: int, table: seq<Entry>, entry: Entry)
    requires Unique(table)
    ensures Unique(Remember(cap, table, entry))
    ensures forall x :: x in Remember(cap, table, entry) ==> x == entry || (x in table && x.jobId != entry.jobId)
    ensures cap > 0 && |table| <= cap ==> |Remember(cap, table, entry)| <= cap
  {
    var k := IndexOf(table, entry.jobId);
    var t' := Remember(cap, table, entry);
    forall x | x in t' ensures x == entry || (x in table && x.jobId != entry.jobId) {
      var i :| 0 <= i < |t'| && t'[i] == x;
      if k < |table| {
        assert i == k || x == table[i];
      } else if 0 < cap <= |table| {
        assert i == |t'| - 1 || x == table[i + 1];
      } else {
        assert i == |t'| - 1 || x == table[i];
      }
    }
  }

  lemma StepAgrees(cfg: Config, st: Store, d: Delivery)
    requires Agrees(st)
    ensures Agrees(Step(cfg, st, d))
    ensures cfg.maxEntries > 0 && |st.table| <= cfg.maxEntries ==> |Step(cfg, st, d).table| <= cfg.maxEntries
  {
    var id := d.ev.jobId;
    var st' := Step(cfg, st, d);
    ForgetKeeps(st.table, id);
    var p := if d.ev.JobProgress? then d.ev.progress else 0.0;
    RememberKeeps(cfg.maxEntries, st.table, Entry(id, p, d.now));
    forall x | x in st'.table ensures x.jobId in st'.rows && x.progress == st'.rows[x.jobId].progress {
      if x in st.table && (d.ev.JobRetrying? || d.ev.JobCheckpoint?) {
        OnlyOutcomesAndStartsMoveProgress(RowOf(st, id), d.ev, Persists(cfg, st, d));
      }
    }
  }

  lemma OnlyOutcomesAndStartsMoveProgress(row: Option<Row>, e: Event, persist: bool)
    requires e.JobRetrying? || e.JobCheckpoint?
    ensures row.Some? ==> After(row, e, persist).value.progress == row.value.progress
  {
  }

  lemma {:induction false} ThrottleAgreesWithRows(cfg: Config, st: Store, ds: seq<Delivery>)
    requires Agrees(st)
    ensures Agrees(Run(cfg, st, ds))
    ensures cfg.maxEntries > 0 && |st.table| <= cfg.maxEntries ==> |Run(cfg, st, ds).table| <= cfg.maxEntries
  {
    if ds != [] {
      ThrottleAgreesWithRows(cfg, st, ds[..|ds| - 1]);
      StepAgrees(cfg, Run(cfg, st, ds[..|ds| - 1]), ds[|ds| - 1]);
    }
  }

  // ---------------------------------------------------------------------------------------------
  // A start is applied at most once
  // ---------------------------------------------------------------------------------------------

  /** The row is at a later attempt than (attempt, at), or at that attempt and not started before it. */
  ghost predicate StartSeen(st: Store, id: string, attempt: nat, at: Time) {
    && id in st.rows
    && (attempt < st.rows[id].attempts || (st.rows[id].attempts == attempt && NotAfter(at, st.rows[id].startedAt)))
  }

  lemma {:induction false} StartStaysSeen(cfg: Config, st: Store, ds: seq<Delivery>, id: string, attempt: nat, at: Time)
    requires StartSeen(st, id, attempt, at)
    ensures StartSeen(Run(cfg, st, ds), id, attempt, at)
  {
    if ds != [] {
      StartStaysSeen(cfg, st, ds[..|ds| - 1], id, attempt, at);
    }
  }

  /** Once a start has been applied, no later delivery of it is: after any further deliveries it writes nothing. */
  lemma StartNeverAppliedTwice(cfg: Config, st: Store, first: Delivery, ds: seq<Delivery>, again: Delivery)
    requires first.ev.JobStarted? && Write(cfg, st, first).Some?
    requires again.ev.JobStarted? && again.ev.jobId == first.ev.jobId
    requires again.ev.attempt == first.ev.attempt && again.ev.startedAt == first.ev.startedAt
    ensures Write(cfg, Run(cfg, Step(cfg, st, first), ds), again).None?
    ensures Step(cfg, Run(cfg, Step(cfg, st, first), ds), again) == Run(cfg, Step(cfg, st, first), ds)
  {
    var e := first.ev;
    StartStaysSeen(cfg, Step(cfg, st, first), ds, e.jobId, e.attempt, e.startedAt);
  }

  // ---------------------------------------------------------------------------------------------
  // Convergence
  // ---------------------------------------------------------------------------------------------

  datatype Outcome = Outcome(status: Status, attempts: nat, completedAt: Option<Time>)

  function OutcomeOfRow(row: Row): Outcome { Outcome(row.status, row.attempts, row.completedAt) }

  predicate IsOutcome(e: Event) { e.JobCompleted? || e.JobFailed? || e.JobCancelled? }

  function At(e: Event): Time
    requires IsOutcome(e)
  {
    if e.JobCompleted? then e.completedAt else if e.JobFailed? then e.failedAt else e.cancelledAt
  }

  function OutcomeOf(e: Event): Outcome
    requires IsOutcome(e)
  {
    Outcome(if e.JobCompleted? then Complete else if e.JobFailed? then Failed else Cancelled, e.attempt, Some(At(e)))
  }

  function AttemptOf(e: Event): nat { if e.JobProgress? || e.JobCheckpoint? then 0 else e.attempt }

  /** A caller's test on one event `e` of the job: `t` wins over `e` in whichever order the two arrive. */
  predicate YieldsTo(e: Event, t: Event)
    requires IsOutcome(t)
  {
    if e.JobProgress? || e.JobCheckpoint? then true
    else if e.JobStarted? then e.attempt < t.attempt || !t.JobCancelled? || e.startedAt <= At(t)
    else if e.JobRetrying? then e.attempt < t.attempt || e.retryAt <= At(t)
    else
      || OutcomeOf(e) == OutcomeOf(t)
      || (&& (At(e) < At(t) || (t.JobFailed? && e.JobCancelled?))
          && (e.attempt < t.attempt || (At(e) <= At(t) && !(e.JobFailed? && t.JobCancelled?))))
  }

  /** The deliveries in `ds` that concern the job of `t` are drawn from `history`. */
  ghost predicate DrawnFrom(ds: seq<Delivery>, history: set<Event>, t: Event) {
    forall i :: 0 <= i < |ds| && ds[i].ev.jobId == t.jobId ==> ds[i].ev in history
  }

  ghost predicate Delivered(ds: seq<Delivery>, t: Event) { exists i :: 0 <= i < |ds| && ds[i].ev == t }

  ghost predicate EndsWith(st: Store, t: Event)
    requires IsOutcome(t)
  {
    t.jobId in st.rows && OutcomeOfRow(st.rows[t.jobId]) == OutcomeOf(t)
  }

  /** Every delivery of `history` that includes `t`, in any order, with any duplication and mixed with any events
      of other jobs, ends with the outcome of `t`. */
  ghost predicate Converges(cfg: Config, history: set<Event>, t: Event)
    requires IsOutcome(t)
  {
    forall st: Store, ds: seq<Delivery> ::
      t.jobId !in st.rows && DrawnFrom(ds, history, t) && Delivered(ds, t) ==> EndsWith(Run(cfg, st, ds), t)
  }

  /** The row either shows the outcome of `t` already or would still take it. */
  predicate OpenTo(row: Option<Row>, t: Event)
    requires IsOutcome(t)
  {
    || row.None?
    || OutcomeOfRow(row.value) == OutcomeOf(t)
    || Takes(row.value, t, false)
  }

  function After(row: Option<Row>, e: Event, persist: bool): Option<Row> {
    var w := Written(row, e, persist);
    if w.Some? then w else row
  }

  lemma YieldingEventKeepsOutcome(row: Row, e: Event, persist: bool, t: Event)
    requires IsOutcome(t) && AttemptOf(e) <= t.attempt && YieldsTo(e, t)
    requires OutcomeOfRow(row) == OutcomeOf(t)
    ensures OutcomeOfRow(After(Some(row), e, persist).value) == OutcomeOf(t)
  {
  }

  lemma YieldingEventKeepsOpen(row: Option<Row>, e: Event, persist: bool, t: Event)
    requires IsOutcome(t) && AttemptOf(e) <= t.attempt && YieldsTo(e, t)
    requires OpenTo(row, t)
    ensures OpenTo(After(row, e, persist), t)
  {
    if row.Some? && OutcomeOfRow(row.value) == OutcomeOf(t) {
      YieldingEventKeepsOutcome(row.value, e, persist, t);
    }
  }

  lemma StepOnRow(cfg: Config, st: Store, d: Delivery, id: string)
    ensures RowOf(Step(cfg, st, d), id) ==
            if d.ev.jobId == id then After(RowOf(st, id), d.ev, Persists(cfg, st, d)) else RowOf(st, id)
  {
  }

  /** One delivery of the history keeps the row open to `t`, and showing it once it does; delivering `t` shows it. */
  lemma StepTowards(cfg: Config, st: Store, d: Delivery, t: Event)
    requires IsOutcome(t) && OpenTo(RowOf(st, t.jobId), t)
    requires d.ev.jobId == t.jobId ==> AttemptOf(d.ev) <= t.attempt && YieldsTo(d.ev, t)
    ensures OpenTo(RowOf(Step(cfg, st, d), t.jobId), t)
    ensures EndsWith(st, t) || d.ev == t ==> EndsWith(Step(cfg, st, d), t)
  {
    StepOnRow(cfg, st, d, t.jobId);
    if d.ev.jobId == t.jobId {
      YieldingEventKeepsOpen(RowOf(st, t.jobId), d.ev, Persists(cfg, st, d), t);
      if EndsWith(st, t) {
        YieldingEventKeepsOutcome(st.rows[t.jobId], d.ev, Persists(cfg, st, d), t);
      }
    }
  }

  lemma DeliveredEarlier(ds: seq<Delivery>, t: Event)
    requires ds != [] && Delivered(ds, t) && ds[|ds| - 1].ev != t
    ensures Delivered(ds[..|ds| - 1], t)
  {
    var i :| 0 <= i < |ds| && ds[i].ev == t;
    assert ds[..|ds| - 1][i].ev == t;
  }

  lemma {:induction false} RunTowards(cfg: Config, st: Store, ds: seq<Delivery>, history: set<Event>, t: Event)
    requires IsOutcome(t) && t.jobId !in st.rows && DrawnFrom(ds, history, t)
    requires forall e :: e in history ==> AttemptOf(e) <= t.attempt && YieldsTo(e, t)
    ensures OpenTo(RowOf(Run(cfg, st, ds), t.jobId), t)
    ensures Delivered(ds, t) ==> EndsWith(Run(cfg, st, ds), t)
  {
    if ds != [] {
      var front, last := ds[..|ds| - 1], ds[|ds| - 1];
      RunTowards(cfg, st, front, history, t);
      StepTowards(cfg, Run(cfg, st, front), last, t);
      if last.ev != t && Delivered(ds, t) {
        DeliveredEarlier(ds, t);
      }
    }
  }

  /** Of two outcomes the later one loses when it arrives first; any other event that does not yield arrives last. */
  predicate ArrivesFirst(e: Event, t: Event)
    requires IsOutcome(t)
  {
    IsOutcome(e) && !(At(e) < At(t) || (t.JobFailed? && e.JobCancelled?))
  }

  lemma TwoEventsMiss(e: Event, t: Event, persist: bool)
    requires IsOutcome(t) && AttemptOf(e) <= t.attempt && !YieldsTo(e, t)
    ensures ArrivesFirst(e, t) ==> OutcomeOfRow(After(Inserted(e), t, persist).value) != OutcomeOf(t)
    ensures !ArrivesFirst(e, t) ==> OutcomeOfRow(After(Inserted(t), e, persist).value) != OutcomeOf(t)
  {
  }

  lemma RunOfTwo(cfg: Config, st: Store, a: Delivery, b: Delivery)
    ensures Run(cfg, st, [a, b]) == Step(cfg, Step(cfg, st, a), b)
  {
    assert [a, b][..1] == [a] && [a][..0] == [];
    assert Run(cfg, st, [a]) == Step(cfg, st, a);
  }

  /** Two deliveries on an empty store that end elsewhere, for an event that does not yield. */
  lemma TwoDeliveriesMiss(cfg: Config, e: Event, t: Event) returns (ds: seq<Delivery>)
    requires IsOutcome(t) && e.jobId == t.jobId && AttemptOf(e) <= t.attempt && !YieldsTo(e, t)
    ensures |ds| == 2 && {ds[0].ev, ds[1].ev} == {e, t}
    ensures !EndsWith(Run(cfg, Store(map[], []), ds), t)
  {
    var empty := Store(map[], []);
    var a := Delivery(if ArrivesFirst(e, t) then e else t, 0.0);
    var b := Delivery(if ArrivesFirst(e, t) then t else e, 0.0);
    ds := [a, b];
    RunOfTwo(cfg, empty, a, b);
    StepOnRow(cfg, empty, a, t.jobId);
    var one := Step(cfg, empty, a);
    StepOnRow(cfg, one, b, t.jobId);
    TwoEventsMiss(e, t, Persists(cfg, one, b));
  }

  lemma UnyieldingMisses(cfg: Config, history: set<Event>, t: Event, e: Event)
    requires IsOutcome(t) && t in history && e in history && !YieldsTo(e, t)
    requires e.jobId == t.jobId && AttemptOf(e) <= t.attempt
    ensures !Converges(cfg, history, t)
  {
    var ds := TwoDeliveriesMiss(cfg, e, t);
    assert ds[0].ev in {e, t} && ds[1].ev in {e, t};
    assert t in {ds[0].ev, ds[1].ev};
    assert Delivered(ds, t);
    assert !EndsWith(Run(cfg, Store(map[], []), ds), t);
  }

  /** Exactly when an outcome `t` of the highest attempt wins against every delivery of a history: when each event
      of the history, taken alone, yields to it. */
  lemma ConvergenceExact(cfg: Config, history: set<Event>, t: Event)
    requires IsOutcome(t) && t in history
    requires forall e :: e in history ==> e.jobId == t.jobId && AttemptOf(e) <= t.attempt
    ensures Converges(cfg, history, t) <==> forall e :: e in history ==> YieldsTo(e, t)
  {
    if e :| e in history && !YieldsTo(e, t) {
      UnyieldingMisses(cfg, history, t, e);
    } else {
      forall st: Store, ds: seq<Delivery> | t.jobId !in st.rows && DrawnFrom(ds, history, t) && Delivered(ds, t)
        ensures EndsWith(Run(cfg, st, ds), t)
      {
        RunTowards(cfg, st, ds, history, t);
      }
    }
  }

  // ---------------------------------------------------------------------------------------------
  // The histories a worker produces
  // ---------------------------------------------------------------------------------------------

  datatype Attempt = Attempt(start: Event, retry: Option<Event>, outcome: Option<Event>)

  /** One start, at most one retrying event and at most one outcome, all of this attempt of this job. */
  predicate AttemptOk(a: Attempt, number: nat, id: string) {
    && a.start.JobStarted? && a.start.jobId == id && a.start.attempt == number
    && (a.retry.Some? ==> a.retry.value.JobRetrying? && a.retry.value.jobId == id && a.retry.value.attempt == number)
    && (a.outcome.Some? ==>
          IsOutcome(a.outcome.value) && a.outcome.value.jobId == id && a.outcome.value.attempt == number)
  }

  /** Attempts are numbered from 1, and earlier attempts have no outcome as late as the last one's. */
  ghost predicate HistoryOk(h: seq<Attempt>, id: string, end: Time) {
    && (forall k :: 0 <= k < |h| ==> AttemptOk(h[k], k + 1, id))
    && (forall k :: 0 <= k < |h| - 1 && h[k].outcome.Some? ==> At(h[k].outcome.value) < end)
  }

  ghost function EventsOf(h: seq<Attempt>): set<Event> {
    (set k | 0 <= k < |h| :: h[k].start)
    + (set k | 0 <= k < |h| && h[k].retry.Some? :: h[k].retry.value)
    + (set k | 0 <= k < |h| && h[k].outcome.Some? :: h[k].outcome.value)
  }

  lemma EventOfHistoryYields(h: seq<Attempt>, e: Event, t: Event)
    requires IsOutcome(t) && h != [] && h[|h| - 1].outcome == Some(t)
    requires HistoryOk(h, t.jobId, At(t)) && e in EventsOf(h)
    ensures e.jobId == t.jobId && AttemptOf(e) <= t.attempt
    ensures YieldsTo(e, t) || Some(e) == h[|h| - 1].retry || e == h[|h| - 1].start
  {
    assert AttemptOk(h[|h| - 1], |h|, t.jobId);
    var k :| 0 <= k < |h| && (h[k].start == e || h[k].retry == Some(e) || h[k].outcome == Some(e));
    assert AttemptOk(h[k], k + 1, t.jobId);
  }

  /** For the history of a worker, with any progress and checkpoint events besides, the outcome `t` of the last
      attempt wins exactly when neither its own start nor its own retrying event is stamped later than a
      cancellation, respectively than any outcome. */
  lemma WorkerHistoryConverges(cfg: Config, h: seq<Attempt>, extra: set<Event>, t: Event)
    requires IsOutcome(t) && h != [] && h[|h| - 1].outcome == Some(t)
    requires HistoryOk(h, t.jobId, At(t))
    requires forall e :: e in extra ==> e.jobId == t.jobId && (e.JobProgress? || e.JobCheckpoint?)
    ensures Converges(cfg, EventsOf(h) + extra, t) <==>
            && (t.JobCancelled? ==> h[|h| - 1].start.startedAt <= At(t))
            && (h[|h| - 1].retry.Some? ==> h[|h| - 1].retry.value.retryAt <= At(t))
  {
    var last := h[|h| - 1];
    var history := EventsOf(h) + extra;
    assert AttemptOk(last, |h|, t.jobId);
    forall e | e in EventsOf(h) ensures e.jobId == t.jobId && AttemptOf(e) <= t.attempt {
      EventOfHistoryYields(h, e, t);
    }
    ConvergenceExact(cfg, history, t);
    if (t.JobCancelled? ==> last.start.startedAt <= At(t)) && (last.retry.Some? ==> last.retry.value.retryAt <= At(t)) {
      forall e | e in history ensures YieldsTo(e, t) {
        if e !in extra {
          EventOfHistoryYields(h, e, t);
        }
      }
    } else {
      assert last.start in history && (last.retry.Some? ==> last.retry.value in history);
    }
  }

  const CANCELLATION := JobCancelled("job", 1, 5, "f", "f", None, None, "job")
  const LATE_START :=
    JobStarted("job", 1, 6, 0, "job", "f", "f", "{}", TaskSource, None, None, None, None, None, None, "job")
  const LATE_RETRY := JobRetrying("job", 1, 6, "f", "f", "boom", None, "job")
  const EARLIER_FAILURE := JobFailed("job", 1, 4, "f", "f", "boom", 0, None, "job")

  /** Where the code does not converge: after a cancellation of the same attempt it still takes a start or a
      retrying event stamped later, and a failure whatever its stamp. */
  lemma CancellationCanBeOverridden(cfg: Config)
    ensures !Converges(cfg, {CANCELLATION, LATE_START}, CANCELLATION)
    ensures !Converges(cfg, {CANCELLATION, LATE_RETRY}, CANCELLATION)
    ensures !Converges(cfg, {CANCELLATION, EARLIER_FAILURE}, CANCELLATION)
  {
    ConvergenceExact(cfg, {CANCELLATION, LATE_START}, CANCELLATION);
    ConvergenceExact(cfg, {CANCELLATION, LATE_RETRY}, CANCELLATION);
    ConvergenceExact(cfg, {CANCELLATION, EARLIER_FAILURE}, CANCELLATION);
  }
}
