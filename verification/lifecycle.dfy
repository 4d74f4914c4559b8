/** The lifecycle event projection as functions on values: what one delivered event does to the persisted
    job rows and to the progress throttle, and how any sequence of deliveries folds into them. */
module Lifecycle {
  import opened Options

  type Time = int
  type Json = string

  datatype Status = Active | Complete | Failed | Cancelled | Retrying

  datatype JobSource =
    | TaskSource
    | CronSource(schedule: string, windowAt: Option<real>, reconciled: bool, policy: Option<string>)
    | EventSource(pattern: string, handlerName: string)

  datatype JobType = Task | Cron | Event

  datatype SourceColumns = SourceColumns(
    jobType: JobType, schedule: Option<string>, cronWindowAt: Option<real>, startupReconciled: bool,
    startupPolicy: Option<string>, eventPattern: Option<string>, eventHandlerName: Option<string>)

  const TASK_COLUMNS := SourceColumns(Task, None, None, false, None, None, None)

  function ColumnsOf(source: JobSource): SourceColumns {
    match source
    case CronSource(schedule, windowAt, reconciled, policy) =>
      SourceColumns(Cron, Some(schedule), windowAt, reconciled, policy, None, None)
    case EventSource(pattern, handlerName) =>
      SourceColumns(Event, None, None, false, None, Some(pattern), Some(handlerName))
    case TaskSource => TASK_COLUMNS
  }

  /** The descriptive columns of a row. */
  datatype About = About(
    jobKey: string, function_: string, functionName: string, kwargs: Json, columns: SourceColumns,
    scheduledAt: Option<Time>, queueWaitMs: Option<real>, workerId: Option<string>, parentId: Option<string>,
    rootId: string)

  /** One persisted job row. */
  datatype Row = Row(
    status: Status, attempts: nat, maxRetries: nat,
    createdAt: Option<Time>, startedAt: Option<Time>, completedAt: Option<Time>,
    progress: real, error: Option<string>, result: Option<Json>,
    checkpoint: Option<Json>, checkpointAt: Option<string>, about: About)

  datatype Event =
    | JobStarted(jobId: string, attempt: nat, startedAt: Time, maxRetries: nat, jobKey: string,
                 function_: string, functionName: string, kwargs: Json, source: JobSource,
                 checkpoint: Option<Json>, checkpointAt: Option<string>, scheduledAt: Option<Time>,
                 queueWaitMs: Option<real>, workerId: Option<string>, parentId: Option<string>, rootId: string)
    | JobCompleted(jobId: string, attempt: nat, completedAt: Time, function_: string, functionName: string,
                   result: Option<Json>, durationMs: Option<real>, parentId: Option<string>, rootId: string)
    | JobFailed(jobId: string, attempt: nat, failedAt: Time, function_: string, functionName: string,
                error: string, maxRetries: nat, parentId: Option<string>, rootId: string)
    | JobCancelled(jobId: string, attempt: nat, cancelledAt: Time, function_: string, functionName: string,
                   reason: Option<string>, parentId: Option<string>, rootId: string)
    | JobRetrying(jobId: string, attempt: nat, retryAt: Time, function_: string, functionName: string,
                  error: string, parentId: Option<string>, rootId: string)
    | JobProgress(jobId: string, progress: real, parentId: Option<string>, rootId: string)
    | JobCheckpoint(jobId: string, state: Json, checkpointedAt: string, parentId: Option<string>, rootId: string)

  predicate Terminal(s: Status) { s == Complete || s == Failed || s == Cancelled }

  predicate NotAfter(time: Time, bound: Option<Time>) { bound.Some? && time <= bound.value }

  function Max(a: nat, b: nat): nat { if a < b then b else a }

  function OrElse<T>(a: Option<T>, b: Option<T>): Option<T> { if a.Some? then a else b }

  // ---------------------------------------------------------------------------------------------
  // Guards: whether an existing row takes an event. The five handlers test different things.
  // ---------------------------------------------------------------------------------------------

  predicate TakesStart(row: Row, attempt: nat, at: Time) {
    && row.attempts <= attempt
    && !((row.status == Complete || row.status == Failed) && attempt <= row.attempts)
    && !NotAfter(at, row.completedAt)
    && !(attempt == row.attempts && NotAfter(at, row.startedAt))
  }

  predicate TakesCompletion(row: Row, attempt: nat, at: Time) {
    row.attempts <= attempt && !(Terminal(row.status) && NotAfter(at, row.completedAt))
  }

  /** Unlike the other two outcomes, a failure is not held back by an earlier cancellation. */
  predicate TakesFailure(row: Row, attempt: nat, at: Time) {
    row.attempts <= attempt && !((row.status == Complete || row.status == Failed) && NotAfter(at, row.completedAt))
  }

  predicate TakesCancellation(row: Row, attempt: nat, at: Time) {
    row.attempts <= attempt && !(Terminal(row.status) && NotAfter(at, row.completedAt))
  }

  predicate TakesRetry(row: Row, attempt: nat, at: Time) {
    && row.attempts <= attempt
    && !(Terminal(row.status) && NotAfter(at, row.completedAt))
    && !(row.status == Retrying && attempt <= row.attempts)
  }

  // ---------------------------------------------------------------------------------------------
  // Effect of one event on one row
  // ---------------------------------------------------------------------------------------------

  function DescribedBy(e: Event, kwargs: Json): About
    requires e.JobStarted?
  {
    About(e.jobKey, e.function_, e.functionName, kwargs, ColumnsOf(e.source), e.scheduledAt, e.queueWaitMs, e.workerId,
          e.parentId, e.rootId)
  }

  function Renamed(about: About, fn: string, fnName: string, parentId: Option<string>, rootId: string): About {
    about.(function_ := fn, functionName := fnName, parentId := parentId, rootId := rootId)
  }

  function Reparented(about: About, parentId: Option<string>, rootId: string): About {
    about.(parentId := parentId, rootId := rootId)
  }

  function AfterStart(r: Row, e: Event): Row
    requires e.JobStarted?
  {
    Row(Active, Max(r.attempts, e.attempt), r.maxRetries, r.createdAt, Some(e.startedAt), None, 0.0, None, None,
        e.checkpoint, e.checkpointAt, DescribedBy(e, r.about.kwargs))
  }

  function AfterCompletion(r: Row, e: Event): Row
    requires e.JobCompleted?
  {
    r.(status := Complete, result := e.result, completedAt := Some(e.completedAt),
       attempts := Max(r.attempts, e.attempt), progress := 1.0,
       createdAt := OrElse(r.createdAt, OrElse(r.startedAt, Some(e.completedAt))),
       about := Renamed(r.about, e.function_, e.functionName, e.parentId, e.rootId))
  }

  function AfterFailure(r: Row, e: Event): Row
    requires e.JobFailed?
  {
    r.(status := Failed, error := Some(e.error), completedAt := Some(e.failedAt),
       attempts := Max(r.attempts, e.attempt), maxRetries := Max(r.maxRetries, e.maxRetries),
       createdAt := OrElse(r.createdAt, OrElse(r.startedAt, Some(e.failedAt))),
       about := Renamed(r.about, e.function_, e.functionName, e.parentId, e.rootId))
  }

  function AfterCancellation(r: Row, e: Event): Row
    requires e.JobCancelled?
  {
    r.(status := Cancelled, error := e.reason, completedAt := Some(e.cancelledAt),
       attempts := Max(r.attempts, e.attempt),
       createdAt := OrElse(r.createdAt, OrElse(r.startedAt, Some(e.cancelledAt))),
       about := Renamed(r.about, e.function_, e.functionName, e.parentId, e.rootId))
  }

  function AfterRetrying(r: Row, e: Event): Row
    requires e.JobRetrying?
  {
    r.(status := Retrying, attempts := Max(r.attempts, e.attempt), error := Some(e.error),
       createdAt := OrElse(r.createdAt, OrElse(r.startedAt, Some(e.retryAt))),
       about := Renamed(r.about, e.function_, e.functionName, e.parentId, e.rootId))
  }

  function AfterProgress(r: Row, e: Event): Row
    requires e.JobProgress?
  {
    r.(progress := e.progress, about := Reparented(r.about, e.parentId, e.rootId))
  }

  function AfterCheckpoint(r: Row, e: Event): Row
    requires e.JobCheckpoint?
  {
    r.(checkpoint := Some(e.state), checkpointAt := Some(e.checkpointedAt),
       about := Reparented(r.about, e.parentId, e.rootId))
  }

  /** The row inserted for a job not seen before; progress, retrying and checkpoint events insert none. */
  function Inserted(e: Event): Option<Row> {
    if e.JobStarted? then
      Some(Row(Active, e.attempt, e.maxRetries, Some(e.startedAt), Some(e.startedAt), None, 0.0, None, None,
               e.checkpoint, e.checkpointAt, DescribedBy(e, e.kwargs)))
    else if e.JobCompleted? then
      Some(FirstSeen(e.jobId, Complete, e.attempt, 0, e.completedAt, 1.0, None, e.result, e.function_, e.functionName,
                     e.parentId, e.rootId))
    else if e.JobFailed? then
      Some(FirstSeen(e.jobId, Failed, e.attempt, e.maxRetries, e.failedAt, 0.0, Some(e.error), None, e.function_,
                     e.functionName, e.parentId, e.rootId))
    else if e.JobCancelled? then
      Some(FirstSeen(e.jobId, Cancelled, e.attempt, 0, e.cancelledAt, 0.0, e.reason, None, e.function_,
                     e.functionName, e.parentId, e.rootId))
    else None
  }

  /** Whether an existing row takes an event. `persist` is the throttle's verdict on a progress event. */
  predicate Takes(row: Row, e: Event, persist: bool) {
    if e.JobStarted? then TakesStart(row, e.attempt, e.startedAt)
    else if e.JobCompleted? then TakesCompletion(row, e.attempt, e.completedAt)
    else if e.JobFailed? then TakesFailure(row, e.attempt, e.failedAt)
    else if e.JobCancelled? then TakesCancellation(row, e.attempt, e.cancelledAt)
    else if e.JobRetrying? then TakesRetry(row, e.attempt, e.retryAt)
    else if e.JobProgress? then persist && !Terminal(row.status)
    else true
  }

  function Updated(row: Row, e: Event): Row {
    if e.JobStarted? then AfterStart(row, e)
    else if e.JobCompleted? then AfterCompletion(row, e)
    else if e.JobFailed? then AfterFailure(row, e)
    else if e.JobCancelled? then AfterCancellation(row, e)
    else if e.JobRetrying? then AfterRetrying(row, e)
    else if e.JobProgress? then AfterProgress(row, e)
    else AfterCheckpoint(row, e)
  }

  /** The row written by an event, or nothing when the event leaves the row alone. */
  function Written(row: Option<Row>, e: Event, persist: bool): Option<Row> {
    if row.None? then Inserted(e)
    else if Takes(row.value, e, persist) then Some(Updated(row.value, e))
    else None
  }

  /** The row inserted when an outcome arrives before any start. */
  function FirstSeen(id: string, status: Status, attempt: nat, maxRetries: nat, at: Time, progress: real,
                     error: Option<string>, result: Option<Json>, fn: string, fnName: string,
                     parentId: Option<string>, rootId: string): Row
  {
    Row(status, attempt, maxRetries, Some(at), None, Some(at), progress, error, result, None, None,
        About(id, fn, fnName, "{}", TASK_COLUMNS, None, None, None, parentId, rootId))
  }

  // ---------------------------------------------------------------------------------------------
  // Progress throttle: an insertion-ordered table of the last written progress of each job
  // ---------------------------------------------------------------------------------------------

  datatype Entry = Entry(jobId: string, progress: real, writtenAt: real)

  datatype Config = Config(minIntervalMs: int, minDelta: real, forceIntervalMs: int, maxEntries: int)

  function IndexOf(table: seq<Entry>, id: string): (k: nat)
    ensures k <= |table|
    ensures k < |table| ==> table[k].jobId == id
    ensures forall i :: 0 <= i < k ==> table[i].jobId != id
  {
    if table == [] || table[0].jobId == id then 0 else 1 + IndexOf(table[1..], id)
  }

  predicate Tracked(table: seq<Entry>, id: string) { IndexOf(table, id) < |table| }

  function Forget(table: seq<Entry>, id: string): seq<Entry> {
    var k := IndexOf(table, id);
    if k < |table| then table[..k] + table[k + 1..] else table
  }

  /** Writing a tracked job keeps its place; a new job goes last and, at the cap, pushes the oldest out. */
  function Remember(cap: int, table: seq<Entry>, entry: Entry): seq<Entry> {
    var k := IndexOf(table, entry.jobId);
    if k < |table| then table[k := entry]
    else if 0 < cap <= |table| then table[1..] + [entry]
    else table + [entry]
  }

  function AtLeastZero(x: int): real { if x < 0 then 0.0 else x as real }

  function Distance(a: real, b: real): real { if a < b then b - a else a - b }

  predicate ShouldPersist(cfg: Config, table: seq<Entry>, id: string, progress: real, now: real) {
    var k := IndexOf(table, id);
    var minDelta := if cfg.minDelta < 0.0 then 0.0 else cfg.minDelta;
    k == |table| ||
    (var elapsed := now - table[k].writtenAt;
     || progress >= 1.0
     || (cfg.forceIntervalMs > 0 && elapsed >= AtLeastZero(cfg.forceIntervalMs) / 1000.0)
     || Distance(progress, table[k].progress) >= minDelta
     || (minDelta <= 0.0 && elapsed >= AtLeastZero(cfg.minIntervalMs) / 1000.0))
  }

  // ---------------------------------------------------------------------------------------------
  // One delivery, and runs of deliveries
  // ---------------------------------------------------------------------------------------------

  datatype Store = Store(rows: map<string, Row>, table: seq<Entry>)

  datatype Delivery = Delivery(ev: Event, now: real)

  function RowOf(st: Store, id: string): Option<Row> { if id in st.rows then Some(st.rows[id]) else None }

  function Persists(cfg: Config, st: Store, d: Delivery): bool {
    d.ev.JobProgress? && ShouldPersist(cfg, st.table, d.ev.jobId, d.ev.progress, d.now)
  }

  /** The row a delivery writes, if it writes one; the handlers return whether it does. */
  function Write(cfg: Config, st: Store, d: Delivery): Option<Row> {
    Written(RowOf(st, d.ev.jobId), d.ev, Persists(cfg, st, d))
  }

  function Step(cfg: Config, st: Store, d: Delivery): Store {
    var id := d.ev.jobId;
    var w := Write(cfg, st, d);
    Store(if w.Some? then st.rows[id := w.value] else st.rows, NextTable(cfg, st, d))
  }

  function NextTable(cfg: Config, st: Store, d: Delivery): seq<Entry> {
    var id := d.ev.jobId;
    var wrote := Write(cfg, st, d).Some?;
    if d.ev.JobStarted? then
      if wrote then Remember(cfg.maxEntries, st.table, Entry(id, 0.0, d.now)) else st.table
    else if d.ev.JobProgress? then
      if wrote then Remember(cfg.maxEntries, st.table, Entry(id, d.ev.progress, d.now))
      else if Persists(cfg, st, d) && id in st.rows then Forget(st.table, id)
      else st.table
    else if d.ev.JobRetrying? || d.ev.JobCheckpoint? then st.table
    else if wrote then Forget(st.table, id)
    else st.table
  }

  function Run(cfg: Config, st: Store, ds: seq<Delivery>): Store {
    if ds == [] then st else Step(cfg, Run(cfg, st, ds[..|ds| - 1]), ds[|ds| - 1])
  }
}
