/** The job as the object workers share and mark in place. */
module JobObject {
  import opened Options
  import opened Jobs

  class Job {
    const base: JobData
    var status: JobStatus
    var attempts: nat
    var scheduledAt: Time
    var startedAt: Option<Time>
    var completedAt: Option<Time>
    var workerId: Option<string>
    var rootId: string
    var progress: real
    var result: Json
    var error: Option<string>
    var errorTraceback: Option<string>
    var failureReason: Option<FailureReason>
    var history: seq<Transition>

    constructor (j: JobData)
      ensures View() == PostInit(j)
      ensures View() == j.(key := View().key, rootId := View().rootId, functionName := View().functionName)
      ensures (j.key != "" ==> View().key == j.key) && (j.key == "" ==> View().key == j.id)
      ensures (j.rootId != "" ==> rootId == j.rootId) && (j.rootId == "" ==> rootId == j.id)
      ensures j.functionName != "" ==> View().functionName == j.functionName
      ensures j.functionName == "" ==> View().functionName == j.function_
    {
      var d := PostInit(j);
      base := d;
      status, attempts, scheduledAt, startedAt, completedAt := d.status, d.attempts, d.scheduledAt, d.startedAt,
                                                               d.completedAt;
      workerId, rootId, progress, result := d.workerId, d.rootId, d.progress, d.result;
      error, errorTraceback, failureReason, history := d.error, d.errorTraceback, d.failureReason, d.history;
    }

    ghost function View(): JobData
      reads this
    {
      base.(status := status, attempts := attempts, scheduledAt := scheduledAt, startedAt := startedAt,
            completedAt := completedAt, workerId := workerId, rootId := rootId, progress := progress,
            result := result, error := error, errorTraceback := errorTraceback, failureReason := failureReason,
            history := history)
    }

    method RecordTransition(state: JobStatus, now: Time, message: string, worker: Option<string>)
      modifies this`history
      ensures history == old(history) + [Transition(state, now, Some(message), worker)]
    {
      history := history + [Transition(state, now, Some(message), worker)];
    }

    /** The status and its history entry, which every mark writes together. */
    method MarkState(state: JobStatus, now: Time, message: string, worker: Option<string>)
      modifies this`status, this`history
      ensures View() == Noted(old(View()), state, now, message, worker)
    {
      status := state;
      RecordTransition(state, now, message, worker);
    }

    method MarkQueued(message: string, now: Time)
      modifies this`status, this`history
      ensures View() == Marked(old(View()), Mark.MarkQueued(message), now)
    {
      status := Queued;
      RecordTransition(Queued, now, message, None);
    }

    method MarkStarted(worker: string, message: string, now: Time)
      modifies this`status, this`startedAt, this`workerId, this`attempts, this`history
      ensures View() == Marked(old(View()), Mark.MarkStarted(worker, message), now)
      ensures attempts == old(attempts) + 1 && status == Active && workerId == Some(worker)
    {
      MarkState(Active, now, message, Some(worker));
      startedAt := Some(now);
      workerId := Some(worker);
      attempts := attempts + 1;
    }

    method MarkComplete(outcome: Json, now: Time)
      modifies this`status, this`completedAt, this`result, this`progress, this`history
      ensures View() == Marked(old(View()), Mark.MarkComplete(outcome), now)
    {
      MarkState(Complete, now, "Completed successfully", None);
      completedAt := Some(now);
      result := outcome;
      progress := 1.0;
    }

    method MarkFailed(reason: string, traceback: Option<string>, message: string, now: Time)
      modifies this`status, this`completedAt, this`error, this`errorTraceback, this`history
      ensures View() == Marked(old(View()), Mark.MarkFailed(reason, traceback, message), now)
    {
      MarkState(Failed, now, message, None);
      completedAt := Some(now);
      error := Some(reason);
      errorTraceback := traceback;
    }

    method MarkCancelled(now: Time)
      modifies this`status, this`completedAt, this`history
      ensures View() == Marked(old(View()), Mark.MarkCancelled, now)
    {
      status := Cancelled;
      completedAt := Some(now);
      RecordTransition(Cancelled, now, "Cancelled", None);
    }

    method MarkRetrying(message: string, now: Time)
      modifies this`status, this`history
      ensures View() == Marked(old(View()), Mark.MarkRetrying(message), now)
    {
      status := Retrying;
      RecordTransition(Retrying, now, message, None);
    }

    /** `prepare_job_for_manual_retry`: requeues and clears what the last run left, but not the attempts. */
    method PrepareForManualRetry(now: Time)
      modifies this
      ensures View() == Marked(old(View()), ManualRetry, now)
    {
      MarkQueued("Manual retry requested", now);
      scheduledAt := now;
      startedAt, completedAt, workerId := None, None, None;
      error, errorTraceback, result, progress := None, None, Null, 0.0;
    }
  }
}
