/** What the dictionary form of a job says, key by key and in its own words, and what a decoder makes of less. */
module JobDictionary {
  import opened Options
  import opened Jobs

  /** The names in use on the wire. */
  lemma StatusNames(s: JobStatus)
    ensures StatusName(s) == "pending" <==> s.Pending?
    ensures StatusName(s) == "queued" <==> s.Queued?
    ensures StatusName(s) == "active" <==> s.Active?
    ensures StatusName(s) == "complete" <==> s.Complete?
    ensures StatusName(s) == "failed" <==> s.Failed?
    ensures StatusName(s) == "cancelled" <==> s.Cancelled?
    ensures StatusName(s) == "retrying" <==> s.Retrying?
  {
  }

  /** No other name is a status. */
  lemma NoOtherStatus(name: string)
    ensures StatusOf(name).Some? ==> StatusName(StatusOf(name).value) == name
    ensures StatusOf(name).None? ==> forall s :: StatusName(s) != name
  {
    if s :| StatusName(s) == name {
      StatusRoundTrip(s);
    }
  }

  lemma ReasonNames(r: FailureReason)
    ensures ReasonName(r) == "timeout" <==> r.Timeout?
    ensures ReasonName(r) == "exception" <==> r.Exception?
    ensures ReasonName(r) == "cancelled" <==> r.Revoked?
    ensures ReasonName(r) == "unknown" <==> r.Unknown?
  {
  }

  /** The nested form of a source. */
  ghost predicate SaysSource(d: Dict, source: Source) {
    match source
    case TaskSource => d == map[KType := Text("task")]
    case CronSource(schedule, windowAt, reconciled, policy) =>
      && d.Keys == {KType, KSchedule, KCronWindowAt, KStartupReconciled, KStartupPolicy}
      && d[KType] == Text("cron") && d[KSchedule] == Text(schedule) && d[KStartupReconciled] == Flag(reconciled)
      && d[KCronWindowAt] == (if windowAt.Some? then Num(windowAt.value) else Null)
      && d[KStartupPolicy] == (if policy.Some? then Text(policy.value) else Null)
    case EventSource(pattern, handlerName) =>
      && d.Keys == {KType, KEventPattern, KEventHandlerName}
      && d[KType] == Text("event") && d[KEventPattern] == Text(pattern) && d[KEventHandlerName] == Text(handlerName)
  }

  lemma SourceSaid(source: Source)
    ensures SaysSource(SourceToDict(source), source)
  {
  }

  /** Every key of a job's dictionary, with its value; the source is there nested and flat. */
  lemma DictionarySays(j: JobData)
    ensures HoldsIdentity(ToDict(j), j) && HoldsExecution(ToDict(j), j) && HoldsResult(ToDict(j), j)
    ensures FlatFields(ToDict(j), j.source)
    ensures var d := ToDict(j);
            && KSource in d && d[KSource].Object? && SaysSource(d[KSource].fields, j.source)
            && Get(d, KJobType, Null) == Text(match j.source
                                              case TaskSource => "task"
                                              case CronSource(_, _, _, _) => "cron"
                                              case EventSource(_, _) => "event")
  {
    var d := ToDict(j);
    PartsWithin(j);
    IdentityHeld(d, j);
    TimesHeld(d, j);
    RetriesHeld(d, j);
    ResultHeld(d, j);
    SourceEntriesListed(d, j);
    SourceSaid(j.source);
    assert KSource in SourceEntries(j);
  }

  /** One entry of the history. */
  lemma TransitionSays(t: Transition)
    ensures var d := TransitionToDict(t);
            && d.Object? && d.fields.Keys == {KState, KTimestamp, KMessage, KWorkerId}
            && d.fields[KState] == Text(StatusName(t.state)) && d.fields[KTimestamp] == Moment(t.at)
            && d.fields[KMessage] == (if t.message.Some? then Text(t.message.value) else Null)
            && d.fields[KWorkerId] == (if t.workerId.Some? then Text(t.workerId.value) else Null)
  {
  }

  /** The dictionary with the required keys alone. */
  function Minimal(id: string, key: string, fn: string, status: JobStatus, at: Time): Dict {
    map[KId := Text(id), KKey := Text(key), KFunction := Text(fn), KStatus := Text(StatusName(status)),
        KScheduledAt := Moment(at)]
  }

  function WithDefaults(id: string, key: string, fn: string, status: JobStatus, at: Time): JobData {
    JobData(id, key, fn, fn, Object(map[]), status, at, None, None, None, None, 0, 0, 1.0, 2.0, None, None, id, 0.0,
            TaskSource, Null, None, Null, None, None, None, [])
  }

  lemma MinimalLacks(id: string, key: string, fn: string, status: JobStatus, at: Time, k: Key, default: Json)
    requires k !in {KId, KKey, KFunction, KStatus, KScheduledAt}
    ensures Get(Minimal(id, key, fn, status, at), k, default) == default
  {
  }

  lemma SourceOfMinimal(id: string, key: string, fn: string, status: JobStatus, at: Time)
    ensures SourceFromDict(Minimal(id, key, fn, status, at)) == TaskSource
  {
    var d := Minimal(id, key, fn, status, at);
    assert Get(d, KSource, Null) == Null && Get(d, KType, Null) == Null && Get(d, KJobType, Null) == Null;
    assert Get(d, KSchedule, Null) == Null && Get(d, KEventPattern, Null) == Null;
  }

  /** Absent values, for whatever is read with no default of its own. */
  ghost predicate LacksTexts(d: Dict) {
    && Get(d, KWorkerId, Null) == Null && Get(d, KParentId, Null) == Null && Get(d, KCheckpoint, Null) == Null
    && Get(d, KCheckpointAt, Null) == Null && Get(d, KResult, Null) == Null && Get(d, KError, Null) == Null
    && Get(d, KErrorTraceback, Null) == Null
  }

  ghost predicate LacksNumbers(d: Dict) {
    && Get(d, KStartedAt, Null) == Null && Get(d, KCompletedAt, Null) == Null && Get(d, KTimeout, Null) == Null
    && Get(d, KLeaseTime, Null) == Null && Get(d, KAttempts, Null) == Null && Get(d, KMaxRetries, Null) == Null
    && Get(d, KRetryDelay, Null) == Null && Get(d, KRetryBackoff, Null) == Null && Get(d, KProgress, Null) == Null
  }

  lemma MinimalLacksRest(id: string, key: string, fn: string, status: JobStatus, at: Time)
    ensures LacksTexts(Minimal(id, key, fn, status, at)) && LacksNumbers(Minimal(id, key, fn, status, at))
  {
  }

  lemma AssembledOfMinimal(id: string, key: string, fn: string, status: JobStatus, at: Time, d: Dict)
    requires LacksTexts(d) && LacksNumbers(d) && SourceFromDict(d) == TaskSource
    requires Get(d, KFunctionName, Text(fn)) == Text(fn) && Get(d, KRootId, Text(id)) == Text(id)
    requires Get(d, KKwargs, Object(map[])) == Object(map[])
    ensures Assembled(d, id, key, fn, status, at, None, []) == WithDefaults(id, key, fn, status, at)
  {
  }

  lemma MinimalDecodes(id: string, key: string, fn: string, status: JobStatus, at: Time)
    ensures var d := Minimal(id, key, fn, status, at);
            && Decodable(d) && Get(d, KId, Null) == Text(id) && Get(d, KKey, Null) == Text(key)
            && Get(d, KFunction, Null) == Text(fn) && StatusIn(d) == Some(status)
            && Get(d, KScheduledAt, Null) == Moment(at) && ReasonIn(d) == None && HistoryIn(d) == Some([])
  {
    StatusRoundTrip(status);
    MinimalLacks(id, key, fn, status, at, KFailureReason, Null);
    MinimalLacks(id, key, fn, status, at, KStateHistory, List([]));
  }

  /** The required keys are enough: the rest has its defaults. */
  lemma DefaultsOfMinimal(id: string, key: string, fn: string, status: JobStatus, at: Time)
    requires key != ""
    ensures FromDict(Minimal(id, key, fn, status, at)) == Some(WithDefaults(id, key, fn, status, at))
  {
    MinimalDecodes(id, key, fn, status, at);
    MinimalLacksRest(id, key, fn, status, at);
    SourceOfMinimal(id, key, fn, status, at);
    AssembledOfMinimal(id, key, fn, status, at, Minimal(id, key, fn, status, at));
  }

  /** And none of them can be missing. */
  lemma RequiredKeys(d: Dict, k: Key)
    requires k in {KId, KKey, KFunction, KStatus, KScheduledAt}
    ensures FromDict(d - {k}) == None
  {
    assert Get(d - {k}, k, Null) == Null;
  }

  /** A complete nested source is the job's, whatever the flat fields beside it say. */
  lemma NestedWins(d: Dict, source: Source)
    requires Get(d, KSource, Null) == Object(SourceToDict(source))
    requires match source
             case TaskSource => false
             case CronSource(schedule, _, _, _) => schedule != ""
             case EventSource(pattern, handlerName) => pattern != "" && handlerName != ""
    ensures SourceFromDict(d) == source
  {
  }
}
