/** The job entity: its source, its state history, and its dictionary form. */
module Jobs {
  import opened Options

  type Time = int

  datatype JobStatus = Pending | Queued | Active | Complete | Failed | Cancelled | Retrying

  datatype FailureReason = Timeout | Exception | Revoked | Unknown

  datatype Source =
    | TaskSource
    | CronSource(schedule: string, windowAt: Option<real>, reconciled: bool, policy: Option<string>)
    | EventSource(pattern: string, handlerName: string)

  datatype Transition = Transition(state: JobStatus, at: Time, message: Option<string>, workerId: Option<string>)

  /** A job as a value. `kwargs`, `checkpoint` and `result` are data of the user's. */
  datatype JobData = JobData(
    id: string, key: string, function_: string, functionName: string, kwargs: Json,
    status: JobStatus, scheduledAt: Time, startedAt: Option<Time>, completedAt: Option<Time>,
    timeout: Option<real>, leaseTime: Option<real>, attempts: nat, maxRetries: nat, retryDelay: real,
    retryBackoff: real, workerId: Option<string>, parentId: Option<string>, rootId: string, progress: real,
    source: Source, checkpoint: Json, checkpointAt: Option<string>, result: Json, error: Option<string>,
    errorTraceback: Option<string>, failureReason: Option<FailureReason>, history: seq<Transition>)

  // ---------------------------------------------------------------------------------------------
  // State history
  // ---------------------------------------------------------------------------------------------

  datatype Mark =
    | MarkQueued(message: string)
    | MarkStarted(workerId: string, message: string)
    | MarkComplete(result: Json)
    | MarkFailed(error: string, traceback: Option<string>, message: string)
    | MarkCancelled
    | MarkRetrying(message: string)
    | ManualRetry

  function Noted(j: JobData, state: JobStatus, now: Time, message: string, workerId: Option<string>): JobData {
    j.(status := state, history := j.history + [Transition(state, now, Some(message), workerId)])
  }

  function Marked(j: JobData, m: Mark, now: Time): JobData {
    match m
    case MarkQueued(message) => Noted(j, Queued, now, message, None)
    case MarkStarted(worker, message) =>
      Noted(j, Active, now, message, Some(worker))
      .(startedAt := Some(now), workerId := Some(worker), attempts := j.attempts + 1)
    case MarkComplete(result) =>
      Noted(j, Complete, now, "Completed successfully", None)
      .(completedAt := Some(now), result := result, progress := 1.0)
    case MarkFailed(error, traceback, message) =>
      Noted(j, Failed, now, message, None)
      .(completedAt := Some(now), error := Some(error), errorTraceback := traceback)
    case MarkCancelled => Noted(j, Cancelled, now, "Cancelled", None).(completedAt := Some(now))
    case MarkRetrying(message) => Noted(j, Retrying, now, message, None)
    case ManualRetry =>
      Noted(j, Queued, now, "Manual retry requested", None)
      .(scheduledAt := now, startedAt := None, completedAt := None, workerId := None, error := None,
        errorTraceback := None, result := Null, progress := 0.0)
  }

  function MarkedAll(j: JobData, ms: seq<(Mark, Time)>): JobData {
    if ms == [] then j
    else Marked(MarkedAll(j, ms[..|ms| - 1]), ms[|ms| - 1].0, ms[|ms| - 1].1)
  }

  function StartCount(history: seq<Transition>): nat {
    if history == [] then 0
    else StartCount(history[..|history| - 1]) + (if history[|history| - 1].state == Active then 1 else 0)
  }

  /** The history ends in the present status and shows one start per attempt. */
  predicate HistoryMatches(j: JobData) {
    && StartCount(j.history) == j.attempts
    && (j.history != [] ==> j.history[|j.history| - 1].state == j.status)
  }

  lemma MarkKeepsHistory(j: JobData, m: Mark, now: Time)
    requires HistoryMatches(j)
    ensures HistoryMatches(Marked(j, m, now)) && |Marked(j, m, now).history| == |j.history| + 1
  {
    var h := Marked(j, m, now).history;
    assert h[..|h| - 1] == j.history;
  }

  lemma {:induction false} HistoryFollows(j: JobData, ms: seq<(Mark, Time)>)
    requires HistoryMatches(j)
    ensures HistoryMatches(MarkedAll(j, ms)) && |MarkedAll(j, ms).history| == |j.history| + |ms|
  {
    if ms != [] {
      HistoryFollows(j, ms[..|ms| - 1]);
      MarkKeepsHistory(MarkedAll(j, ms[..|ms| - 1]), ms[|ms| - 1].0, ms[|ms| - 1].1);
    }
  }

  // ---------------------------------------------------------------------------------------------
  // Dictionary form
  // ---------------------------------------------------------------------------------------------

  /** The keys of a job payload and of its nested source. */
  datatype Key =
    | KId | KKey | KFunction | KFunctionName | KJobType | KSource | KKwargs | KStatus | KScheduledAt | KStartedAt
    | KCompletedAt | KTimeout | KLeaseTime | KAttempts | KMaxRetries | KRetryDelay | KRetryBackoff | KWorkerId
    | KParentId | KRootId | KProgress | KSchedule | KCronWindowAt | KStartupReconciled | KStartupPolicy
    | KCheckpoint | KCheckpointAt | KEventPattern | KEventHandlerName | KResult | KError | KErrorTraceback
    | KFailureReason | KStateHistory | KType | KState | KTimestamp | KMessage

  /** A JSON value; `Moment` is the ISO text of a time and `Opaque` is data the job does not look into. */
  datatype Json =
    | Null
    | Flag(b: bool)
    | Whole(n: nat)
    | Num(x: real)
    | Text(s: string)
    | Moment(t: Time)
    | Opaque(data: string)
    | List(items: seq<Json>)
    | Object(fields: map<Key, Json>)

  type Dict = map<Key, Json>

  function Get(d: Dict, k: Key, default: Json): Json { if k in d then d[k] else default }

  predicate Truthy(j: Json) {
    match j
    case Null => false
    case Flag(b) => b
    case Whole(n) => n != 0
    case Num(x) => x != 0.0
    case Text(s) => s != ""
    case List(items) => items != []
    case Object(fields) => fields != map[]
    case _ => true
  }

  function Or(a: Json, b: Json): Json { if Truthy(a) then a else b }

  function OptText(s: Option<string>): Json { if s.Some? then Text(s.value) else Null }
  function OptNum(x: Option<real>): Json { if x.Some? then Num(x.value) else Null }
  function OptMoment(t: Option<Time>): Json { if t.Some? then Moment(t.value) else Null }

  function AsText(j: Json): Option<string> { if j.Text? then Some(j.s) else None }
  function AsNum(j: Json): Option<real> { if j.Num? then Some(j.x) else None }
  function AsMoment(j: Json): Option<Time> { if j.Moment? then Some(j.t) else None }
  function TextOr(j: Json, default: string): string { if j.Text? then j.s else default }
  function NumOr(j: Json, default: real): real { if j.Num? then j.x else default }
  function WholeOr(j: Json, default: nat): nat { if j.Whole? then j.n else default }

  function TypeName(source: Source): string {
    if source.TaskSource? then "task" else if source.CronSource? then "cron" else "event"
  }

  function SourceToDict(source: Source): Dict {
    match source
    case TaskSource => map[KType := Text("task")]
    case CronSource(schedule, windowAt, reconciled, policy) =>
      map[KType := Text("cron"), KSchedule := Text(schedule), KCronWindowAt := OptNum(windowAt),
          KStartupReconciled := Flag(reconciled), KStartupPolicy := OptText(policy)]
    case EventSource(pattern, handlerName) =>
      map[KType := Text("event"), KEventPattern := Text(pattern), KEventHandlerName := Text(handlerName)]
  }

  function SourceFromDict(data: Dict): Source {
    var raw := Get(data, KSource, Null);
    var src := if raw.Object? then raw.fields else data;
    var typ := Or(Get(src, KType, Null), Get(data, KJobType, Null));
    var schedule := Or(Get(src, KSchedule, Null), Get(data, KSchedule, Null));
    var pattern := Or(Get(src, KEventPattern, Null), Get(data, KEventPattern, Null));
    var handler := Or(Get(src, KEventHandlerName, Null), Get(data, KEventHandlerName, Null));
    if typ == Text("cron") && schedule.Text? && schedule.s != "" then
      CronSource(schedule.s, AsNum(Get(src, KCronWindowAt, Get(data, KCronWindowAt, Null))),
                 Truthy(Get(src, KStartupReconciled, Get(data, KStartupReconciled, Flag(false)))),
                 AsText(Get(src, KStartupPolicy, Get(data, KStartupPolicy, Null))))
    else if typ == Text("event") && pattern.Text? && handler.Text? then EventSource(pattern.s, handler.s)
    else LegacySource(data)
  }

  /** The source inferred from the flat fields alone. */
  function LegacySource(data: Dict): Source {
    var schedule := Get(data, KSchedule, Null);
    var pattern, handler := Get(data, KEventPattern, Null), Get(data, KEventHandlerName, Null);
    if schedule.Text? && schedule.s != "" then
      CronSource(schedule.s, AsNum(Get(data, KCronWindowAt, Null)),
                 Truthy(Get(data, KStartupReconciled, Flag(false))), AsText(Get(data, KStartupPolicy, Null)))
    else if pattern.Text? && handler.Text? then EventSource(pattern.s, handler.s)
    else TaskSource
  }

  function StatusName(s: JobStatus): string {
    match s
    case Pending => "pending"
    case Queued => "queued"
    case Active => "active"
    case Complete => "complete"
    case Failed => "failed"
    case Cancelled => "cancelled"
    case Retrying => "retrying"
  }

  function StatusOf(name: string): Option<JobStatus> {
    if name == "pending" then Some(Pending)
    else if name == "queued" then Some(Queued)
    else if name == "active" then Some(Active)
    else if name == "complete" then Some(Complete)
    else if name == "failed" then Some(Failed)
    else if name == "cancelled" then Some(Cancelled)
    else if name == "retrying" then Some(Retrying)
    else None
  }

  function ReasonName(r: FailureReason): string {
    match r
    case Timeout => "timeout"
    case Exception => "exception"
    case Revoked => "cancelled"
    case Unknown => "unknown"
  }

  function ReasonOf(name: string): Option<FailureReason> {
    if name == "timeout" then Some(Timeout)
    else if name == "exception" then Some(Exception)
    else if name == "cancelled" then Some(Revoked)
    else if name == "unknown" then Some(Unknown)
    else None
  }

  function TransitionToDict(t: Transition): Json {
    Object(map[KState := Text(StatusName(t.state)), KTimestamp := Moment(t.at), KMessage := OptText(t.message),
               KWorkerId := OptText(t.workerId)])
  }

  function TransitionFromDict(j: Json): Option<Transition> {
    if !j.Object? then None
    else
      var state, at := Get(j.fields, KState, Null), Get(j.fields, KTimestamp, Null);
      if state.Text? && StatusOf(state.s).Some? && at.Moment? then
        Some(Transition(StatusOf(state.s).value, at.t, AsText(Get(j.fields, KMessage, Null)),
                        AsText(Get(j.fields, KWorkerId, Null))))
      else None
  }

  function HistoryToList(h: seq<Transition>): seq<Json> {
    if h == [] then [] else [TransitionToDict(h[0])] + HistoryToList(h[1..])
  }

  function HistoryFromList(items: seq<Json>): Option<seq<Transition>> {
    if items == [] then Some([])
    else
      var head, tail := TransitionFromDict(items[0]), HistoryFromList(items[1..]);
      if head.Some? && tail.Some? then Some([head.value] + tail.value) else None
  }

  function IdentityDict(j: JobData): Dict {
    map[KId := Text(j.id), KKey := Text(j.key), KFunction := Text(j.function_), KFunctionName := Text(j.functionName),
        KKwargs := j.kwargs, KStatus := Text(StatusName(j.status)), KWorkerId := OptText(j.workerId),
        KParentId := OptText(j.parentId), KRootId := Text(j.rootId)]
  }

  function ExecutionDict(j: JobData): Dict {
    map[KScheduledAt := Moment(j.scheduledAt), KStartedAt := OptMoment(j.startedAt),
        KCompletedAt := OptMoment(j.completedAt), KTimeout := OptNum(j.timeout), KLeaseTime := OptNum(j.leaseTime),
        KAttempts := Whole(j.attempts), KMaxRetries := Whole(j.maxRetries), KRetryDelay := Num(j.retryDelay),
        KRetryBackoff := Num(j.retryBackoff), KProgress := Num(j.progress)]
  }

  function ResultDict(j: JobData): Dict {
    map[KCheckpoint := j.checkpoint, KCheckpointAt := OptText(j.checkpointAt), KResult := j.result,
        KError := OptText(j.error), KErrorTraceback := OptText(j.errorTraceback),
        KFailureReason := if j.failureReason.Some? then Text(ReasonName(j.failureReason.value)) else Null,
        KStateHistory := List(HistoryToList(j.history))]
  }

  /** The nested source and, beside it, its fields in the flat form. */
  function SourceEntries(j: JobData): Dict {
    var source := SourceToDict(j.source);
    map[KJobType := Text(TypeName(j.source)), KSource := Object(source),
        KSchedule := if j.source.CronSource? then Text(j.source.schedule) else Null,
        KCronWindowAt := Get(source, KCronWindowAt, Null),
        KStartupReconciled := Get(source, KStartupReconciled, Flag(false)),
        KStartupPolicy := Get(source, KStartupPolicy, Null), KEventPattern := Get(source, KEventPattern, Null),
        KEventHandlerName := Get(source, KEventHandlerName, Null)]
  }

  function ToDict(j: JobData): Dict { IdentityDict(j) + ExecutionDict(j) + ResultDict(j) + SourceEntries(j) }

  /** The defaults every job gets when it is built. */
  function PostInit(j: JobData): JobData {
    j.(key := if j.key == "" then j.id else j.key,
       rootId := if j.rootId == "" then j.id else j.rootId,
       functionName := if j.functionName == "" then j.function_ else j.functionName)
  }

  function StatusIn(d: Dict): Option<JobStatus> {
    var status := Get(d, KStatus, Null);
    if status.Text? then StatusOf(status.s) else None
  }

  /** An absent or empty reason is none. */
  function ReasonIn(d: Dict): Option<FailureReason> {
    var reason := Get(d, KFailureReason, Null);
    if Truthy(reason) && reason.Text? then ReasonOf(reason.s) else None
  }

  function HistoryIn(d: Dict): Option<seq<Transition>> {
    var history := Get(d, KStateHistory, List([]));
    if history.List? then HistoryFromList(history.items) else None
  }

  /** No required key is missing, and no value has another type than `ToDict` gives it. */
  predicate Decodable(d: Dict) {
    && Get(d, KId, Null).Text? && Get(d, KKey, Null).Text? && Get(d, KFunction, Null).Text?
    && StatusIn(d).Some? && Get(d, KScheduledAt, Null).Moment? && HistoryIn(d).Some?
    && (Truthy(Get(d, KFailureReason, Null)) ==> ReasonIn(d).Some?)
  }

  function FromDict(d: Dict): Option<JobData> {
    if Decodable(d) then
      Some(PostInit(Assembled(d, Get(d, KId, Null).s, Get(d, KKey, Null).s, Get(d, KFunction, Null).s,
                              StatusIn(d).value, Get(d, KScheduledAt, Null).t, ReasonIn(d), HistoryIn(d).value)))
    else None
  }

  function Assembled(d: Dict, id: string, key: string, fn: string, status: JobStatus, scheduledAt: Time,
                     reason: Option<FailureReason>, history: seq<Transition>): JobData
  {
    JobData(
      id, key, fn, TextOr(Get(d, KFunctionName, Text(fn)), ""), Get(d, KKwargs, Object(map[])), status, scheduledAt,
      AsMoment(Get(d, KStartedAt, Null)), AsMoment(Get(d, KCompletedAt, Null)), AsNum(Get(d, KTimeout, Null)),
      AsNum(Get(d, KLeaseTime, Null)), WholeOr(Get(d, KAttempts, Null), 0), WholeOr(Get(d, KMaxRetries, Null), 0),
      NumOr(Get(d, KRetryDelay, Null), 1.0), NumOr(Get(d, KRetryBackoff, Null), 2.0),
      AsText(Get(d, KWorkerId, Null)), AsText(Get(d, KParentId, Null)), TextOr(Get(d, KRootId, Text(id)), ""),
      NumOr(Get(d, KProgress, Null), 0.0), SourceFromDict(d), Get(d, KCheckpoint, Null),
      AsText(Get(d, KCheckpointAt, Null)), Get(d, KResult, Null), AsText(Get(d, KError, Null)),
      AsText(Get(d, KErrorTraceback, Null)), reason, history)
  }

  // ---------------------------------------------------------------------------------------------
  // Round trips
  // ---------------------------------------------------------------------------------------------

  predicate Initialised(j: JobData) {
    (j.key == "" ==> j.id == "") && (j.rootId == "" ==> j.id == "") && (j.functionName == "" ==> j.function_ == "")
  }

  lemma TransitionRoundTrip(t: Transition)
    ensures TransitionFromDict(TransitionToDict(t)) == Some(t)
  {
  }

  lemma {:induction false} HistoryRoundTrip(h: seq<Transition>)
    ensures HistoryFromList(HistoryToList(h)) == Some(h)
  {
    if h != [] {
      TransitionRoundTrip(h[0]);
      HistoryRoundTrip(h[1..]);
      assert HistoryToList(h)[1..] == HistoryToList(h[1..]);
      assert [h[0]] + h[1..] == h;
    }
  }

  /** A source comes back from its dictionary exactly when it is not a cron source without a schedule, which comes
      back as a task. */
  lemma SourceRoundTrip(j: JobData)
    ensures SourceFromDict(ToDict(j)) == if Recoverable(j.source) then j.source else TaskSource
  {
    PartsWithin(j);
    SourceEntriesSuffice(ToDict(j), j);
  }

  predicate Recoverable(source: Source) { source.CronSource? ==> source.schedule != "" }

  /** A dictionary with the nested form of a source and, beside it, its type and its flat fields. */
  ghost predicate Nested(d: Dict, source: Source) {
    && Get(d, KJobType, Null) == Text(TypeName(source)) && Get(d, KSource, Null) == Object(SourceToDict(source))
    && FlatFields(d, source)
  }

  lemma NestedTask(d: Dict)
    requires Nested(d, TaskSource)
    ensures SourceFromDict(d) == TaskSource
  {
  }

  lemma NestedEvent(d: Dict, source: Source)
    requires source.EventSource? && Nested(d, source)
    ensures SourceFromDict(d) == source
  {
  }

  lemma NestedCron(d: Dict, source: Source)
    requires source.CronSource? && Nested(d, source)
    ensures SourceFromDict(d) == if Recoverable(source) then source else TaskSource
  {
  }

  lemma SourceEntriesSuffice(d: Dict, j: JobData)
    requires Within(SourceEntries(j), d)
    ensures SourceFromDict(d) == if Recoverable(j.source) then j.source else TaskSource
  {
    SourceEntriesListed(d, j);
    if j.source.CronSource? {
      NestedCron(d, j.source);
    } else if j.source.EventSource? {
      NestedEvent(d, j.source);
    } else {
      NestedTask(d);
    }
  }

  lemma NestedListed(d: Dict, j: JobData)
    requires Within(SourceEntries(j), d)
    ensures Get(d, KJobType, Null) == Text(TypeName(j.source))
    ensures Get(d, KSource, Null) == Object(SourceToDict(j.source))
    ensures Get(d, KSchedule, Null) == (if j.source.CronSource? then Text(j.source.schedule) else Null)
  {
    var part := SourceEntries(j);
    assert KJobType in part && KSource in part && KSchedule in part;
  }

  lemma FlatFieldsListed(d: Dict, j: JobData)
    requires Within(SourceEntries(j), d)
    ensures FlatFields(d, j.source)
  {
    var part := SourceEntries(j);
    NestedListed(d, j);
    assert KCronWindowAt in part && KStartupReconciled in part && KStartupPolicy in part;
    assert KEventPattern in part && KEventHandlerName in part;
  }

  lemma SourceEntriesListed(d: Dict, j: JobData)
    requires Within(SourceEntries(j), d)
    ensures Nested(d, j.source)
  {
    NestedListed(d, j);
    FlatFieldsListed(d, j);
  }

  ghost predicate FlatFields(d: Dict, source: Source) {
    && Get(d, KSchedule, Null) == (if source.CronSource? then Text(source.schedule) else Null)
    && Get(d, KCronWindowAt, Null) == (if source.CronSource? then OptNum(source.windowAt) else Null)
    && Get(d, KStartupReconciled, Flag(false)) == Flag(source.CronSource? && source.reconciled)
    && Get(d, KStartupPolicy, Null) == (if source.CronSource? then OptText(source.policy) else Null)
    && Get(d, KEventPattern, Null) == (if source.EventSource? then Text(source.pattern) else Null)
    && Get(d, KEventHandlerName, Null) == (if source.EventSource? then Text(source.handlerName) else Null)
  }

  /** The entries of a dictionary, other than the source, are those of the job. */
  ghost predicate HoldsIdentity(d: Dict, j: JobData) {
    && Get(d, KId, Null) == Text(j.id) && Get(d, KKey, Null) == Text(j.key)
    && Get(d, KFunction, Null) == Text(j.function_) && Get(d, KFunctionName, Text(j.function_)) == Text(j.functionName)
    && Get(d, KKwargs, Object(map[])) == j.kwargs && Get(d, KStatus, Null) == Text(StatusName(j.status))
    && Get(d, KWorkerId, Null) == OptText(j.workerId) && Get(d, KParentId, Null) == OptText(j.parentId)
    && Get(d, KRootId, Text(j.id)) == Text(j.rootId)
  }

  ghost predicate HoldsExecution(d: Dict, j: JobData) { HoldsTimes(d, j) && HoldsRetries(d, j) }

  ghost predicate HoldsTimes(d: Dict, j: JobData) {
    && Get(d, KScheduledAt, Null) == Moment(j.scheduledAt) && Get(d, KStartedAt, Null) == OptMoment(j.startedAt)
    && Get(d, KCompletedAt, Null) == OptMoment(j.completedAt) && Get(d, KTimeout, Null) == OptNum(j.timeout)
    && Get(d, KLeaseTime, Null) == OptNum(j.leaseTime)
  }

  ghost predicate HoldsRetries(d: Dict, j: JobData) {
    && Get(d, KAttempts, Null) == Whole(j.attempts) && Get(d, KMaxRetries, Null) == Whole(j.maxRetries)
    && Get(d, KRetryDelay, Null) == Num(j.retryDelay) && Get(d, KRetryBackoff, Null) == Num(j.retryBackoff)
    && Get(d, KProgress, Null) == Num(j.progress)
  }

  ghost predicate HoldsResult(d: Dict, j: JobData) {
    && Get(d, KCheckpoint, Null) == j.checkpoint && Get(d, KCheckpointAt, Null) == OptText(j.checkpointAt)
    && Get(d, KResult, Null) == j.result && Get(d, KError, Null) == OptText(j.error)
    && Get(d, KErrorTraceback, Null) == OptText(j.errorTraceback)
    && (var reason := Get(d, KFailureReason, Null);
        reason == if j.failureReason.Some? then Text(ReasonName(j.failureReason.value)) else Null)
    && Get(d, KStateHistory, List([])) == List(HistoryToList(j.history))
  }

  ghost predicate Within(part: Dict, d: Dict) { forall k :: k in part ==> k in d && d[k] == part[k] }

  /** Which part of a job's dictionary a key belongs to; 0 for the keys of nested objects only. */
  function PartOf(k: Key): nat {
    match k
    case KId | KKey | KFunction | KFunctionName | KKwargs | KStatus | KWorkerId | KParentId | KRootId => 1
    case KScheduledAt | KStartedAt | KCompletedAt | KTimeout | KLeaseTime | KAttempts | KMaxRetries | KRetryDelay
      | KRetryBackoff | KProgress => 2
    case KCheckpoint | KCheckpointAt | KResult | KError | KErrorTraceback | KFailureReason | KStateHistory => 3
    case KJobType | KSource | KSchedule | KCronWindowAt | KStartupReconciled | KStartupPolicy | KEventPattern
      | KEventHandlerName => 4
    case _ => 0
  }

  lemma IdentityDictPart(j: JobData)
    ensures forall k :: k in IdentityDict(j) ==> PartOf(k) == 1
  {
  }

  lemma ExecutionDictPart(j: JobData)
    ensures forall k :: k in ExecutionDict(j) ==> PartOf(k) == 2
  {
  }

  lemma ResultDictPart(j: JobData)
    ensures forall k :: k in ResultDict(j) ==> PartOf(k) == 3
  {
  }

  lemma SourceEntriesPart(j: JobData)
    ensures forall k :: k in SourceEntries(j) ==> PartOf(k) == 4
  {
  }

  lemma UnionWithin(a: Dict, b: Dict, c: Dict, d: Dict)
    requires forall k :: k in a ==> PartOf(k) == 1
    requires forall k :: k in b ==> PartOf(k) == 2
    requires forall k :: k in c ==> PartOf(k) == 3
    requires forall k :: k in d ==> PartOf(k) == 4
    ensures Within(a, a + b + c + d) && Within(b, a + b + c + d) && Within(c, a + b + c + d) && Within(d, a + b + c + d)
    ensures KType !in a + b + c + d
  {
  }

  lemma PartsWithin(j: JobData)
    ensures Within(IdentityDict(j), ToDict(j)) && Within(ExecutionDict(j), ToDict(j))
    ensures Within(ResultDict(j), ToDict(j)) && Within(SourceEntries(j), ToDict(j))
    ensures KType !in ToDict(j)
  {
    IdentityDictPart(j);
    ExecutionDictPart(j);
    ResultDictPart(j);
    SourceEntriesPart(j);
    UnionWithin(IdentityDict(j), ExecutionDict(j), ResultDict(j), SourceEntries(j));
  }

  lemma IdentityHeld(d: Dict, j: JobData)
    requires Within(IdentityDict(j), d)
    ensures HoldsIdentity(d, j)
  {
    var part := IdentityDict(j);
    assert KId in part && KKey in part && KFunction in part && KFunctionName in part && KKwargs in part;
    assert KStatus in part && KWorkerId in part && KParentId in part && KRootId in part;
  }

  lemma TimesHeld(d: Dict, j: JobData)
    requires Within(ExecutionDict(j), d)
    ensures HoldsTimes(d, j)
  {
    var part := ExecutionDict(j);
    assert KScheduledAt in part && KStartedAt in part && KCompletedAt in part && KTimeout in part && KLeaseTime in part;
  }

  lemma RetriesHeld(d: Dict, j: JobData)
    requires Within(ExecutionDict(j), d)
    ensures HoldsRetries(d, j)
  {
    var part := ExecutionDict(j);
    assert KAttempts in part && KMaxRetries in part && KProgress in part;
    assert KRetryDelay in part && KRetryBackoff in part;
  }

  lemma ResultHeld(d: Dict, j: JobData)
    requires Within(ResultDict(j), d)
    ensures HoldsResult(d, j)
  {
    var part := ResultDict(j);
    assert KCheckpoint in part && KCheckpointAt in part && KResult in part && KError in part;
    assert KErrorTraceback in part && KFailureReason in part && KStateHistory in part;
  }

  lemma StatusRoundTrip(s: JobStatus)
    ensures StatusOf(StatusName(s)) == Some(s)
  {
  }

  lemma ReasonRoundTrip(r: FailureReason)
    ensures ReasonOf(ReasonName(r)) == Some(r) && ReasonName(r) != ""
  {
  }

  lemma AssembledFromHeld(d: Dict, j: JobData)
    requires HoldsIdentity(d, j) && HoldsExecution(d, j) && HoldsResult(d, j)
    ensures Assembled(d, j.id, j.key, j.function_, j.status, j.scheduledAt, j.failureReason, j.history) ==
            j.(source := SourceFromDict(d))
  {
  }

  lemma StatusHeld(d: Dict, j: JobData)
    requires Get(d, KStatus, Null) == Text(StatusName(j.status))
    ensures StatusIn(d) == Some(j.status)
  {
    StatusRoundTrip(j.status);
  }

  lemma ReasonHeld(d: Dict, j: JobData)
    requires Get(d, KFailureReason, Null) ==
             if j.failureReason.Some? then Text(ReasonName(j.failureReason.value)) else Null
    ensures ReasonIn(d) == j.failureReason && (Truthy(Get(d, KFailureReason, Null)) ==> ReasonIn(d).Some?)
  {
    if j.failureReason.Some? {
      ReasonRoundTrip(j.failureReason.value);
    }
  }

  lemma HistoryHeld(d: Dict, j: JobData)
    requires Get(d, KStateHistory, List([])) == List(HistoryToList(j.history))
    ensures HistoryIn(d) == Some(j.history)
  {
    HistoryRoundTrip(j.history);
  }

  lemma FromHeldEntries(d: Dict, j: JobData)
    requires HoldsIdentity(d, j) && HoldsExecution(d, j) && HoldsResult(d, j)
    ensures FromDict(d) == Some(PostInit(j.(source := SourceFromDict(d))))
  {
    StatusHeld(d, j);
    ReasonHeld(d, j);
    HistoryHeld(d, j);
    AssembledFromHeld(d, j);
  }

  /** A job comes back from its dictionary exactly when it has its defaults and its source comes back. */
  lemma JobRoundTrip(j: JobData)
    ensures FromDict(ToDict(j)) == Some(j) <==> Initialised(j) && Recoverable(j.source)
  {
    var d := ToDict(j);
    PartsWithin(j);
    SourceRoundTrip(j);
    IdentityHeld(d, j);
    TimesHeld(d, j);
    RetriesHeld(d, j);
    ResultHeld(d, j);
    FromHeldEntries(d, j);
  }

  lemma FlatSource(d: Dict, source: Source)
    requires KSource !in d && KType !in d && FlatFields(d, source)
    requires KJobType !in d || d[KJobType] == Text(TypeName(source))
    ensures SourceFromDict(d) == if Recoverable(source) then source else TaskSource
  {
  }

  /** A payload of the older, flat kind, which has no nested source, names the same source; so does one that does
      not even name its type. */
  lemma FlatPayloadSameSource(j: JobData)
    ensures SourceFromDict(ToDict(j) - {KSource}) == SourceFromDict(ToDict(j))
    ensures SourceFromDict(ToDict(j) - {KSource, KJobType}) == SourceFromDict(ToDict(j))
  {
    var d := ToDict(j);
    SourceRoundTrip(j);
    PartsWithin(j);
    SourceEntriesListed(d, j);
    FlatFieldsWithout(d, {KSource}, j.source);
    FlatFieldsWithout(d, {KSource, KJobType}, j.source);
    FlatSource(d - {KSource}, j.source);
    FlatSource(d - {KSource, KJobType}, j.source);
  }

  lemma FlatFieldsWithout(d: Dict, gone: set<Key>, source: Source)
    requires FlatFields(d, source) && gone <= {KSource, KJobType}
    ensures FlatFields(d - gone, source)
  {
    assert forall k, default :: k !in {KSource, KJobType} ==> Get(d - gone, k, default) == Get(d, k, default);
  }

  /** A job marked any number of times keeps a matching history across the dictionary. */
  lemma MarkedJobSurvives(j: JobData, ms: seq<(Mark, Time)>)
    requires HistoryMatches(j) && Initialised(j) && Recoverable(j.source)
    ensures var stored := FromDict(ToDict(MarkedAll(j, ms)));
            stored == Some(MarkedAll(j, ms)) && HistoryMatches(stored.value)
  {
    HistoryFollows(j, ms);
    MarkingKeepsIdentity(j, ms);
    JobRoundTrip(MarkedAll(j, ms));
  }

  lemma {:induction false} MarkingKeepsIdentity(j: JobData, ms: seq<(Mark, Time)>)
    ensures var k := MarkedAll(j, ms);
            && k.id == j.id && k.key == j.key && k.rootId == j.rootId && k.function_ == j.function_
            && k.functionName == j.functionName && k.source == j.source
  {
    if ms != [] {
      MarkingKeepsIdentity(j, ms[..|ms| - 1]);
    }
  }
}
