/** The event handlers as the server runs them: they assign the fields of stored rows in place and keep the
    module-level progress table. Each is proved equal to one step of the projection. */
module EventProcessing {
  import opened Options
  import opened Lifecycle

  /** A row object of the jobs table. */
  class JobRow {
    var status: Status
    var attempts: nat
    var maxRetries: nat
    var createdAt: Option<Time>
    var startedAt: Option<Time>
    var completedAt: Option<Time>
    var progress: real
    var error: Option<string>
    var result: Option<Json>
    var checkpoint: Option<Json>
    var checkpointAt: Option<string>
    var about: About

    ghost function View(): Row
      reads this
    {
      Row(status, attempts, maxRetries, createdAt, startedAt, completedAt, progress, error, result, checkpoint,
          checkpointAt, about)
    }

    /** `record_job` with the defaults of a record that names only an outcome. */
    constructor (id: string, status: Status, attempt: nat, maxRetries: nat, at: Time, progress: real,
                 error: Option<string>, result: Option<Json>, fn: string, fnName: string,
                 parentId: Option<string>, rootId: string)
      ensures View() == FirstSeen(id, status, attempt, maxRetries, at, progress, error, result, fn, fnName, parentId,
                                  rootId)
    {
      this.status, attempts, this.maxRetries := status, attempt, maxRetries;
      createdAt, startedAt, completedAt := Some(at), None, Some(at);
      this.progress, this.error, this.result := progress, error, result;
      checkpoint, checkpointAt := None, None;
      about := About(id, fn, fnName, "{}", TASK_COLUMNS, None, None, None, parentId, rootId);
    }

    /** `record_job` for a start event. */
    constructor FromStart(e: Event)
      requires e.JobStarted?
      ensures Some(View()) == Inserted(e)
    {
      status, attempts, maxRetries := Active, e.attempt, e.maxRetries;
      createdAt, startedAt, completedAt := Some(e.startedAt), Some(e.startedAt), None;
      progress, error, result := 0.0, None, None;
      checkpoint, checkpointAt := e.checkpoint, e.checkpointAt;
      about := DescribedBy(e, e.kwargs);
    }

    method WriteStart(e: Event) returns (taken: bool)
      requires e.JobStarted?
      modifies this
      ensures taken == TakesStart(old(View()), e.attempt, e.startedAt)
      ensures View() == if taken then AfterStart(old(View()), e) else old(View())
    {
      if e.attempt < attempts {
        return false;
      }
      if (status == Complete || status == Failed) && e.attempt <= attempts {
        return false;
      }
      if completedAt.Some? && e.startedAt <= completedAt.value {
        return false;
      }
      if e.attempt == attempts && startedAt.Some? && e.startedAt <= startedAt.value {
        return false;
      }
      AssignStart(e);
      return true;
    }

    method AssignStart(e: Event)
      requires e.JobStarted?
      modifies this
      ensures View() == AfterStart(old(View()), e)
    {
      status := Active;
      about := DescribedBy(e, about.kwargs);
      attempts := Max(attempts, e.attempt);
      startedAt := Some(e.startedAt);
      ClearOutcome();
      checkpoint := e.checkpoint;
      checkpointAt := e.checkpointAt;
    }

    method ClearOutcome()
      modifies this`completedAt, this`progress, this`error, this`result
      ensures View() == old(View()).(completedAt := None, progress := 0.0, error := None, result := None)
    {
      completedAt := None;
      progress := 0.0;
      error := None;
      result := None;
    }

    method WriteCompletion(e: Event) returns (taken: bool)
      requires e.JobCompleted?
      modifies this
      ensures taken == TakesCompletion(old(View()), e.attempt, e.completedAt)
      ensures View() == if taken then AfterCompletion(old(View()), e) else old(View())
    {
      if e.attempt < attempts {
        return false;
      }
      if Terminal(status) && completedAt.Some? && e.completedAt <= completedAt.value {
        return false;
      }
      AssignOutcome(Complete, e.attempt, e.completedAt,
                    Renamed(about, e.function_, e.functionName, e.parentId, e.rootId));
      result := e.result;
      progress := 1.0;
      return true;
    }

    /** What the three outcomes assign alike. */
    method AssignOutcome(outcome: Status, attempt: nat, at: Time, renamed: About)
      modifies this`status, this`about, this`completedAt, this`attempts, this`createdAt
      ensures View() ==
              old(View()).(status := outcome, about := renamed, completedAt := Some(at),
                           attempts := Max(old(attempts), attempt),
                           createdAt := OrElse(old(createdAt), OrElse(old(startedAt), Some(at))))
    {
      status := outcome;
      about := renamed;
      completedAt := Some(at);
      attempts := Max(attempts, attempt);
      if createdAt.None? {
        createdAt := OrElse(startedAt, Some(at));
      }
    }

    method WriteFailure(e: Event) returns (taken: bool)
      requires e.JobFailed?
      modifies this
      ensures taken == TakesFailure(old(View()), e.attempt, e.failedAt)
      ensures View() == if taken then AfterFailure(old(View()), e) else old(View())
    {
      if e.attempt < attempts {
        return false;
      }
      if && (status == Complete || status == Failed)
         && completedAt.Some? && e.failedAt <= completedAt.value {
        return false;
      }
      AssignOutcome(Failed, e.attempt, e.failedAt, Renamed(about, e.function_, e.functionName, e.parentId, e.rootId));
      error := Some(e.error);
      maxRetries := Max(maxRetries, e.maxRetries);
      return true;
    }

    method WriteCancellation(e: Event) returns (taken: bool)
      requires e.JobCancelled?
      modifies this
      ensures taken == TakesCancellation(old(View()), e.attempt, e.cancelledAt)
      ensures View() == if taken then AfterCancellation(old(View()), e) else old(View())
    {
      if e.attempt < attempts {
        return false;
      }
      if Terminal(status) && completedAt.Some? && e.cancelledAt <= completedAt.value {
        return false;
      }
      AssignOutcome(Cancelled, e.attempt, e.cancelledAt,
                    Renamed(about, e.function_, e.functionName, e.parentId, e.rootId));
      error := e.reason;
      return true;
    }

    method WriteRetrying(e: Event)
      requires e.JobRetrying?
      modifies this
      ensures View() == AfterRetrying(old(View()), e)
    {
      status := Retrying;
      about := Renamed(about, e.function_, e.functionName, e.parentId, e.rootId);
      attempts := Max(attempts, e.attempt);
      error := Some(e.error);
      if createdAt.None? {
        createdAt := OrElse(startedAt, Some(e.retryAt));
      }
    }

    method WriteProgress(e: Event)
      requires e.JobProgress?
      modifies this
      ensures View() == AfterProgress(old(View()), e)
    {
      progress := e.progress;
      about := Reparented(about, e.parentId, e.rootId);
    }

    method WriteCheckpoint(e: Event)
      requires e.JobCheckpoint?
      modifies this
      ensures View() == AfterCheckpoint(old(View()), e)
    {
      checkpoint := Some(e.state);
      checkpointAt := Some(e.checkpointedAt);
      about := Reparented(about, e.parentId, e.rootId);
    }
  }

  /** `after` is `before` with `e` offered to the row of its job, the throttle untouched. */
  ghost predicate RecordedAs(before: Store, after: Store, e: Event, changed: bool) {
    var w := Written(RowOf(before, e.jobId), e, true);
    && changed == w.Some?
    && after == Store(if w.Some? then before.rows[e.jobId := w.value] else before.rows, before.table)
  }

  /** A start or an outcome is not subject to the throttle; it resets or drops the entry of its job. */
  lemma UnthrottledStep(cfg: Config, before: Store, after: Store, e: Event, changed: bool, now: real)
    requires e.JobStarted? || e.JobCompleted? || e.JobFailed? || e.JobCancelled?
    requires RecordedAs(before, after, e, changed)
    ensures Write(cfg, before, Delivery(e, now)).Some? == changed
    ensures Step(cfg, before, Delivery(e, now)) ==
            if !changed then after
            else if e.JobStarted? then
              Store(after.rows, Remember(cfg.maxEntries, after.table, Entry(e.jobId, 0.0, now)))
            else Store(after.rows, Forget(after.table, e.jobId))
  {
  }

  class EventProcessor {
    const cfg: Config
    var rows: map<string, JobRow>
    var table: seq<Entry>

    constructor (cfg: Config)
      ensures Valid() && State() == Store(map[], []) && this.cfg == cfg && rows == map[]
    {
      this.cfg := cfg;
      rows, table := map[], [];
    }

    /** No two jobs share a row object. */
    ghost predicate Valid()
      reads this
    {
      forall i, j :: i in rows && j in rows && i != j ==> rows[i] != rows[j]
    }

    ghost function State(): Store
      reads this, rows.Values
    {
      Store(map id | id in rows :: rows[id].View(), table)
    }

    method RecordProgressWrite(id: string, progress: real, now: real)
      modifies this`table
      ensures State() == Store(old(State()).rows, Remember(cfg.maxEntries, old(table), Entry(id, progress, now)))
    {
      var k := IndexOf(table, id);
      if cfg.maxEntries > 0 && k == |table| && |table| >= cfg.maxEntries {
        table := table[1..];
        table := table + [Entry(id, progress, now)];
      } else if k < |table| {
        table := table[k := Entry(id, progress, now)];
      } else {
        table := table + [Entry(id, progress, now)];
      }
    }

    method DropProgressWrite(id: string)
      modifies this`table
      ensures State() == Store(old(State()).rows, Forget(old(table), id))
    {
      table := Forget(table, id);
    }

    /** Assigning the fields of one row object changes the row of its job and no other. */
    twostate lemma OneRowTouched(id: string)
      requires old(Valid()) && id in old(rows) && rows == old(rows)
      requires forall r :: r in rows.Values && r != rows[id] ==> unchanged(r)
      ensures State().rows == old(State()).rows[id := rows[id].View()]
    {
      forall i | i in rows && i != id ensures rows[i].View() == old(rows[i].View()) {
        assert rows[i] in rows.Values && rows[i] != rows[id] && unchanged(rows[i]);
      }
    }

    method Insert(id: string, row: JobRow)
      requires Valid() && id !in rows && row !in rows.Values
      modifies this`rows
      ensures Valid() && rows == old(rows)[id := row]
      ensures State() == Store(old(State()).rows[id := row.View()], table)
    {
      rows := rows[id := row];
    }

    /** One typed lifecycle event, dispatched to its handler; returns whether persisted state changed. */
    method ProcessEvent(e: Event, now: real) returns (changed: bool)
      requires Valid()
      modifies this, rows.Values
      ensures Valid() && fresh(rows.Values - old(rows.Values))
      ensures State() == Step(cfg, old(State()), Delivery(e, now))
      ensures changed == Write(cfg, old(State()), Delivery(e, now)).Some?
    {
      if e.JobStarted? {
        changed := HandleStarted(e, now);
      } else if e.JobCompleted? {
        changed := HandleCompleted(e, now);
      } else if e.JobFailed? {
        changed := HandleFailed(e, now);
      } else if e.JobCancelled? {
        changed := HandleCancelled(e, now);
      } else if e.JobRetrying? {
        changed := HandleRetrying(e, now);
      } else if e.JobProgress? {
        changed := HandleProgress(e, now);
      } else {
        changed := HandleCheckpoint(e, now);
      }
    }

    method RecordStarted(e: Event) returns (changed: bool)
      requires Valid() && e.JobStarted?
      modifies this`rows, rows.Values
      ensures Valid() && fresh(rows.Values - old(rows.Values))
      ensures RecordedAs(old(State()), State(), e, changed)
    {
      if e.jobId in rows {
        var existing := rows[e.jobId];
        changed := existing.WriteStart(e);
        OneRowTouched(e.jobId);
      } else {
        var row := new JobRow.FromStart(e);
        Insert(e.jobId, row);
        changed := true;
      }
    }

    method HandleStarted(e: Event, now: real) returns (changed: bool)
      requires Valid() && e.JobStarted?
      modifies this, rows.Values
      ensures Valid() && fresh(rows.Values - old(rows.Values))
      ensures State() == Step(cfg, old(State()), Delivery(e, now))
      ensures changed == Write(cfg, old(State()), Delivery(e, now)).Some?
    {
      changed := RecordStarted(e);
      UnthrottledStep(cfg, old(State()), State(), e, changed, now);
      if changed {
        RecordProgressWrite(e.jobId, 0.0, now);
      }
    }

    method RecordCompleted(e: Event) returns (changed: bool)
      requires Valid() && e.JobCompleted?
      modifies this`rows, rows.Values
      ensures Valid() && fresh(rows.Values - old(rows.Values))
      ensures RecordedAs(old(State()), State(), e, changed)
    {
      if e.jobId in rows {
        var existing := rows[e.jobId];
        changed := existing.WriteCompletion(e);
        OneRowTouched(e.jobId);
      } else {
        var row := new JobRow(e.jobId, Complete, e.attempt, 0, e.completedAt, 1.0, None, e.result, e.function_,
                              e.functionName, e.parentId, e.rootId);
        Insert(e.jobId, row);
        changed := true;
      }
    }

    method HandleCompleted(e: Event, now: real) returns (changed: bool)
      requires Valid() && e.JobCompleted?
      modifies this, rows.Values
      ensures Valid() && fresh(rows.Values - old(rows.Values))
      ensures State() == Step(cfg, old(State()), Delivery(e, now))
      ensures changed == Write(cfg, old(State()), Delivery(e, now)).Some?
    {
      changed := RecordCompleted(e);
      UnthrottledStep(cfg, old(State()), State(), e, changed, now);
      if changed {
        DropProgressWrite(e.jobId);
      }
    }

    method RecordFailed(e: Event) returns (changed: bool)
      requires Valid() && e.JobFailed?
      modifies this`rows, rows.Values
      ensures Valid() && fresh(rows.Values - old(rows.Values))
      ensures RecordedAs(old(State()), State(), e, changed)
    {
      if e.jobId in rows {
        var existing := rows[e.jobId];
        changed := existing.WriteFailure(e);
        OneRowTouched(e.jobId);
      } else {
        var row := new JobRow(e.jobId, Failed, e.attempt, e.maxRetries, e.failedAt, 0.0, Some(e.error), None,
                              e.function_, e.functionName, e.parentId, e.rootId);
        Insert(e.jobId, row);
        changed := true;
      }
    }

    method HandleFailed(e: Event, now: real) returns (changed: bool)
      requires Valid() && e.JobFailed?
      modifies this, rows.Values
      ensures Valid() && fresh(rows.Values - old(rows.Values))
      ensures State() == Step(cfg, old(State()), Delivery(e, now))
      ensures changed == Write(cfg, old(State()), Delivery(e, now)).Some?
    {
      changed := RecordFailed(e);
      UnthrottledStep(cfg, old(State()), State(), e, changed, now);
      if changed {
        DropProgressWrite(e.jobId);
      }
    }

    method RecordCancelled(e: Event) returns (changed: bool)
      requires Valid() && e.JobCancelled?
      modifies this`rows, rows.Values
      ensures Valid() && fresh(rows.Values - old(rows.Values))
      ensures RecordedAs(old(State()), State(), e, changed)
    {
      if e.jobId in rows {
        var existing := rows[e.jobId];
        changed := existing.WriteCancellation(e);
        OneRowTouched(e.jobId);
      } else {
        var row := new JobRow(e.jobId, Cancelled, e.attempt, 0, e.cancelledAt, 0.0, e.reason, None, e.function_,
                              e.functionName, e.parentId, e.rootId);
        Insert(e.jobId, row);
        changed := true;
      }
    }

    method HandleCancelled(e: Event, now: real) returns (changed: bool)
      requires Valid() && e.JobCancelled?
      modifies this, rows.Values
      ensures Valid() && fresh(rows.Values - old(rows.Values))
      ensures State() == Step(cfg, old(State()), Delivery(e, now))
      ensures changed == Write(cfg, old(State()), Delivery(e, now)).Some?
    {
      changed := RecordCancelled(e);
      UnthrottledStep(cfg, old(State()), State(), e, changed, now);
      if changed {
        DropProgressWrite(e.jobId);
      }
    }

    method HandleRetrying(e: Event, now: real) returns (changed: bool)
      requires Valid() && e.JobRetrying?
      modifies rows.Values
      ensures Valid()
      ensures State() == Step(cfg, old(State()), Delivery(e, now))
      ensures changed == Write(cfg, old(State()), Delivery(e, now)).Some?
    {
      if e.jobId !in rows {
        return false;
      }
      var existing := rows[e.jobId];
      if e.attempt < existing.attempts {
        return false;
      }
      if Terminal(existing.status) && existing.completedAt.Some? && e.retryAt <= existing.completedAt.value {
        return false;
      }
      if existing.status == Retrying && e.attempt <= existing.attempts {
        return false;
      }
      existing.WriteRetrying(e);
      OneRowTouched(e.jobId);
      return true;
    }

    method HandleProgress(e: Event, now: real) returns (changed: bool)
      requires Valid() && e.JobProgress?
      modifies this`table, rows.Values
      ensures Valid()
      ensures State() == Step(cfg, old(State()), Delivery(e, now))
      ensures changed == Write(cfg, old(State()), Delivery(e, now)).Some?
    {
      if !ShouldPersist(cfg, table, e.jobId, e.progress, now) {
        return false;
      }
      if e.jobId !in rows {
        return false;
      }
      var existing := rows[e.jobId];
      if Terminal(existing.status) {
        DropProgressWrite(e.jobId);
        return false;
      }
      existing.WriteProgress(e);
      OneRowTouched(e.jobId);
      RecordProgressWrite(e.jobId, e.progress, now);
      return true;
    }

    method HandleCheckpoint(e: Event, now: real) returns (changed: bool)
      requires Valid() && e.JobCheckpoint?
      modifies rows.Values
      ensures Valid()
      ensures State() == Step(cfg, old(State()), Delivery(e, now))
      ensures changed == Write(cfg, old(State()), Delivery(e, now)).Some?
    {
      if e.jobId !in rows {
        return false;
      }
      var existing := rows[e.jobId];
      existing.WriteCheckpoint(e);
      OneRowTouched(e.jobId);
      return true;
    }

    /** Any sequence of deliveries, one after the other: the rows end where the projection says. */
    method ProcessAll(ds: seq<Delivery>)
      requires Valid()
      modifies this, rows.Values
      ensures Valid() && fresh(rows.Values - old(rows.Values))
      ensures State() == Run(cfg, old(State()), ds)
    {
      for i := 0 to |ds|
        invariant Valid() && fresh(rows.Values - old(rows.Values))
        invariant State() == Run(cfg, old(State()), ds[..i])
      {
        assert ds[..i + 1][..i] == ds[..i];
        var _ := ProcessEvent(ds[i].ev, ds[i].now);
      }
      assert ds[..|ds|] == ds;
    }
  }
}
