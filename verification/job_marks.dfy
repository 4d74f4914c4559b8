/** What a job looks like after any marks: each field is what the last mark to set it said. */
module JobMarks {
  import opened Options
  import opened Jobs

  type Marks = seq<(Mark, Time)>

  function LastOf(ms: Marks, kind: Mark -> bool): (last: Option<(Mark, Time)>)
    ensures last.Some? ==> kind(last.value.0) && last.value in ms
  {
    if ms == [] then None
    else if kind(ms[|ms| - 1].0) then Some(ms[|ms| - 1])
    else LastOf(ms[..|ms| - 1], kind)
  }

  predicate AnyMark(m: Mark) { true }

  predicate SetsStart(m: Mark) { m.MarkStarted? || m.ManualRetry? }

  predicate SetsEnd(m: Mark) { m.MarkComplete? || m.MarkFailed? || m.MarkCancelled? || m.ManualRetry? }

  predicate SetsResult(m: Mark) { m.MarkComplete? || m.ManualRetry? }

  predicate SetsError(m: Mark) { m.MarkFailed? || m.ManualRetry? }

  predicate SetsSchedule(m: Mark) { m.ManualRetry? }

  function Starts(ms: Marks): nat {
    if ms == [] then 0 else Starts(ms[..|ms| - 1]) + (if ms[|ms| - 1].0.MarkStarted? then 1 else 0)
  }

  predicate HasStatus(m: Mark, s: JobStatus) {
    match m
    case MarkQueued(_) => s == Queued
    case MarkStarted(_, _) => s == Active
    case MarkComplete(_) => s == Complete
    case MarkFailed(_, _, _) => s == Failed
    case MarkCancelled => s == Cancelled
    case MarkRetrying(_) => s == Retrying
    case ManualRetry => s == Queued
  }

  ghost predicate TimesSaid(j: JobData, ms: Marks, k: JobData) {
    var state, start, end, schedule :=
      LastOf(ms, AnyMark), LastOf(ms, SetsStart), LastOf(ms, SetsEnd), LastOf(ms, SetsSchedule);
    && (if state.None? then k.status == j.status else HasStatus(state.value.0, k.status))
    && k.attempts == j.attempts + Starts(ms)
    && k.scheduledAt == (if schedule.None? then j.scheduledAt else schedule.value.1)
    && (if start.None? then k.startedAt == j.startedAt && k.workerId == j.workerId
        else if start.value.0.ManualRetry? then k.startedAt == None && k.workerId == None
        else k.startedAt == Some(start.value.1) && k.workerId == Some(start.value.0.workerId))
    && k.completedAt == (if end.None? then j.completedAt
                         else if end.value.0.ManualRetry? then None
                         else Some(end.value.1))
  }

  ghost predicate OutcomeSaid(j: JobData, ms: Marks, k: JobData) {
    var result, error := LastOf(ms, SetsResult), LastOf(ms, SetsError);
    && (if result.None? then k.result == j.result && k.progress == j.progress
        else if result.value.0.ManualRetry? then k.result == Null && k.progress == 0.0
        else k.result == result.value.0.result && k.progress == 1.0)
    && (if error.None? then k.error == j.error && k.errorTraceback == j.errorTraceback
        else if error.value.0.ManualRetry? then k.error == None && k.errorTraceback == None
        else k.error == Some(error.value.0.error) && k.errorTraceback == error.value.0.traceback)
  }

  /** Nothing else has changed. */
  predicate RestKept(j: JobData, k: JobData) {
    k == j.(status := k.status, attempts := k.attempts, scheduledAt := k.scheduledAt, startedAt := k.startedAt,
            completedAt := k.completedAt, workerId := k.workerId, progress := k.progress, result := k.result,
            error := k.error, errorTraceback := k.errorTraceback, history := k.history)
  }

  /** The entries a job's marks leave: one each, in order, with the status, the time and, of a start, the worker. */
  ghost predicate HistorySaid(j: JobData, ms: Marks, k: JobData) {
    && |k.history| == |j.history| + |ms| && k.history[..|j.history|] == j.history
    && forall i :: 0 <= i < |ms| ==>
         var t := k.history[|j.history| + i];
         && HasStatus(ms[i].0, t.state) && t.at == ms[i].1 && t.message.Some?
         && t.workerId == if ms[i].0.MarkStarted? then Some(ms[i].0.workerId) else None
  }

  lemma LastOfMore(ms: Marks, m: (Mark, Time), kind: Mark -> bool)
    ensures LastOf(ms + [m], kind) == if kind(m.0) then Some(m) else LastOf(ms, kind)
  {
    assert (ms + [m])[..|ms|] == ms;
  }

  lemma TimesMore(j: JobData, ms: Marks, k: JobData, m: (Mark, Time))
    requires TimesSaid(j, ms, k)
    ensures TimesSaid(j, ms + [m], Marked(k, m.0, m.1))
  {
    LastOfMore(ms, m, AnyMark);
    LastOfMore(ms, m, SetsStart);
    LastOfMore(ms, m, SetsEnd);
    LastOfMore(ms, m, SetsSchedule);
    assert (ms + [m])[..|ms|] == ms;
  }

  lemma OutcomeMore(j: JobData, ms: Marks, k: JobData, m: (Mark, Time))
    requires OutcomeSaid(j, ms, k)
    ensures OutcomeSaid(j, ms + [m], Marked(k, m.0, m.1))
  {
    LastOfMore(ms, m, SetsResult);
    LastOfMore(ms, m, SetsError);
  }

  lemma RestMore(j: JobData, k: JobData, m: (Mark, Time))
    requires RestKept(j, k)
    ensures RestKept(j, Marked(k, m.0, m.1))
  {
  }

  lemma EntryOfMark(k: JobData, m: (Mark, Time))
    ensures var h := Marked(k, m.0, m.1).history;
            && |h| == |k.history| + 1 && h[..|k.history|] == k.history
            && HasStatus(m.0, h[|k.history|].state) && h[|k.history|].at == m.1 && h[|k.history|].message.Some?
            && h[|k.history|].workerId == if m.0.MarkStarted? then Some(m.0.workerId) else None
  {
  }

  lemma HistoryMore(j: JobData, ms: Marks, k: JobData, m: (Mark, Time), k': JobData)
    requires HistorySaid(j, ms, k) && k' == Marked(k, m.0, m.1)
    ensures HistorySaid(j, ms + [m], k')
  {
    EntryOfMark(k, m);
    var n := |j.history|;
    assert k'.history[..n] == k'.history[..|k.history|][..n];
    forall q | n <= q < n + |ms| ensures k'.history[q] == k.history[q] {
      assert k'.history[..|k.history|][q] == k.history[q];
    }
  }

  ghost predicate Said(j: JobData, ms: Marks, k: JobData) {
    TimesSaid(j, ms, k) && OutcomeSaid(j, ms, k) && RestKept(j, k) && HistorySaid(j, ms, k)
  }

  lemma SaidMore(j: JobData, ms: Marks, k: JobData, m: (Mark, Time), ms': Marks, k': JobData)
    requires Said(j, ms, k) && ms' == ms + [m] && k' == Marked(k, m.0, m.1)
    ensures Said(j, ms', k')
  {
    TimesMore(j, ms, k, m);
    OutcomeMore(j, ms, k, m);
    RestMore(j, k, m);
    HistoryMore(j, ms, k, m, Marked(k, m.0, m.1));
  }

  lemma NothingSaid(j: JobData)
    ensures Said(j, [], j)
  {
  }

  /** After any sequence of marks, every field is what the last mark to set it said, the attempts are the starts, the
      history has one entry for each mark, and nothing else has changed. */
  lemma {:induction false} MarksSaid(j: JobData, ms: Marks)
    ensures Said(j, ms, MarkedAll(j, ms))
  {
    if ms == [] {
      NothingSaid(j);
    } else {
      var front, last := ms[..|ms| - 1], ms[|ms| - 1];
      MarksSaid(j, front);
      SaidMore(j, front, MarkedAll(j, front), last, ms, MarkedAll(j, ms));
    }
  }
}
