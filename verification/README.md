# UpNext: a verified model of how job state travels

UpNext is a Redis-backed job framework. A worker runs jobs, announces what happens to them as lifecycle events, and a
server folds those events into one stored row per job; around this run a progress throttle, a buffering event
publisher, bucketed request metrics, an event stream for browsers, and paged scans over Redis streams. These Dafny
modules model that logic with its own branches, constants and error cases, and prove what it keeps over all inputs and
runs, and over all interleavings where the code interleaves: the turns of a processor, the command drain, the workers
on a durable list, the calls on a publisher. `dafny verify dfyconfig.toml` checks everything.

| file | what it models |
|---|---|
| `lifecycle.dfy`, `convergence.dfy` | the event projection as functions on values; row invariants, replays, convergence |
| `row_history.dfy` | what a row and the throttle show, told by the events applied so far |
| `event_processor.dfy` | the handlers as they run, assigning row fields in place, each proved equal to a projection step |
| `processing.dfy`, `job_processor.dfy` | what one dequeued job leads to, the life of a job, the processor object, the pool |
| `intake.dfy` | the event contracts in front of the handlers: when an outcome is stored, when a row never ends |
| `job_life.dfy` | the events of a whole job life, and what its row shows of the end |
| `jobs.dfy`, `job_object.dfy` | the job entity, its history, its dictionary form, its mark methods |
| `job_marks.dfy`, `job_dictionary.dfy` | what any marks leave on a job; what its dictionary says, key by key |
| `publisher_spec.dfy`, `publisher.dfy`, `interleaving.dfy` | the status publisher against a Redis that may fail at will, one call after another |
| `shared_publisher.dfy`, `publisher_overlap.dfy`, `overlap_cases.dfy` | one publisher with many calls in flight, step by step: what is kept, and exactly when events are lost |
| `end_to_end.dfy` | from a drained publisher to the row of a finished job |
| `durable_list.dfy` | many workers sharing one durable list, step by step |
| `command_queue.dfy` | the lazily started command drain, step by step |
| `context.dfy`, `progress_drift.dfy` | a task's own progress throttle, and both throttles together |
| `sse_format.dfy`, `sse_lines.dfy`, `sse_reader.dfy` | the event-stream text, its printer, its lines and its incremental reader |
| `patterns.dfy` | wildcard matching of event names |
| `metrics.dfy` | request buckets with expiry, and the reader's sums |
| `streams.dfy`, `stream_deletion.dfy` | Redis streams that others change meanwhile, and paged deletion |
| `request_listing.dfy`, `request_pages.dfy` | paged listing, and a client that walks its pages |
| `options.dfy` | optional values |

Times are integers or reals handed in by the caller; the clock, Redis, the database and user code appear as
parameters, adversarial choices (`:= *`) or step relations. No proof relies on automatic induction. Code that updates
state in place is a class whose methods are proved equal to functions on values; the theorems are about those
functions.

## What the proofs found

* **Convergence has an exact condition.** An outcome of the highest attempt wins against every order and duplication of
  a history exactly when each other event, taken alone, yields to it (`Convergence.YieldsTo`). For a worker's history
  that leaves two conditions: a cancellation must not be stamped before the start of its own attempt, and no outcome
  before the retrying event of its own attempt. Three concrete histories show a cancellation being overridden: the
  started and retrying handlers compare time stamps, and the failed handler's test leaves `cancelled` out.
* **One publisher cannot carry two calls at once.** A worker gives one publisher to all its processor tasks, two by
  default, and their command drains. A flush reads the head of memory, awaits its publish, and then pops whatever is
  the head by then. Once all calls have returned, what was recorded is what was published, waits or overflowed exactly
  when every pop took off what its own call had published (`PublisherOverlap.ConservedExactly`). A call that reads the
  head, or overflows memory, while another is between its reading and its pop is exactly what can be continued to an
  event lost or published twice (`PublisherOverlap.QuietExactly`); no later step makes up for it. With one event
  waiting, the second pop raises and takes the new event of its call with it (`OverlapCases.SecondPopRaises`); with two,
  the second is lost without being counted as dropped (`OverlapCases.SecondEventLost`). The hint of a durable backlog is
  lost in a similar way (`OverlapCases.HintLost`).
* **One delivery can be settled twice, or not at all.** Success is handled inside the `try` that runs the task, so a
  recurring job that succeeds and cannot be rescheduled is then handled as failed. This is the only case of two calls.
  The row of such a job shows the last outcome exactly when that is accepted and has the latest time stamp
  (`JobLife.LifeStoredExactly`). A task that raises something other than an `Exception`, such as the cancellation of
  what it awaits, passes both handlers, and the job is neither finished nor put back.
* **Some jobs end unheard.** Once everything published for a finished job has arrived, its row shows the end exactly
  when that was announced in an event its contract accepts (`JobLife.Announced`); otherwise, unless an earlier success
  of a recurring job is in the way, it never shows any outcome.
  Unheard are: a job whose last run raises an exception without a text, since the failed and retrying events need one; a
  job cancelled before its first run, whose event carries attempt 0; a job whose task is unknown, for which nothing is
  published; and a success whose wall clock ran backwards, since the duration must not be negative. Such a job is
  finished on the queue while its row is active, retrying or absent.
* **Releasing the flush lock is two calls.** If it expires between them, another worker's lock is removed and two
  workers flush at once (`DurableList.ExpiryFreesAnothersLock`).
* **A listing can lose rows while it is read.** Every append to the request stream may trim it, so rows in range that
  have not been read yet can vanish between two pages and are then missing from the page and from `total`. All rows are
  listed exactly when none is trimmed before the read its place falls to (`RequestListing.AllListedExactly`).
* **Minute windows are complete up to 120 minutes and no further.** The summary for a window uses minute buckets up to
  1439 minutes; the undercounting starts at 121.
* **The shared durable list needs both its conditions.** If the flush lock expires between publish and pop, one event
  is published twice and another lost; if a trim reaches the head in between, an unpublished event is popped.
* **One throttle setting has no effect.** Progress is written when it differs by at least the minimum delta, so a
  minimum interval can only matter when that delta is not positive, and then every report is written anyway
  (`RowHistory.HeldBackExactly`).
* **The progress drift bound is tight.** The two minimum deltas add up, and every drift below their sum is reached.
* **A payload survives the event stream exactly when** it is not empty, has no line feed and does not begin with white
  space.
* **A job survives its dictionary exactly when** it has its defaults and, if recurring, a non-empty schedule.

## Model

| member | source | states |
|---|---|---|
| `Convergence.WrittenRowOk` | packages/server/src/server/services/events/processing.py:288-311 | whatever one event writes, an active row has no completion time, error or result, a terminal row has a completion time, a complete row has progress 1.0, and attempts never decrease |
| `Convergence.RowInvariant` | packages/server/src/server/services/events/processing.py:263-716 | the same for every row after every sequence of deliveries, in any order, with any duplication |
| `Convergence.StepAgrees` | packages/server/src/server/services/events/processing.py:68-80 | one delivery keeps every throttle entry equal to its row's progress, entries unique, and a positive cap respected |
| `Convergence.ThrottleAgreesWithRows` | packages/server/src/server/services/events/processing.py:68-105 | every run keeps them so |
| `Convergence.StartStaysSeen` | packages/server/src/server/services/events/processing.py:263-311 | once the row is past a start, no deliveries take it back |
| `Convergence.StartNeverAppliedTwice` | packages/server/src/server/services/events/processing.py:263-311 | after a start has been applied and any further deliveries, a replay of it writes nothing and changes neither rows nor throttle |
| `Convergence.YieldingEventKeepsOutcome` | packages/server/src/server/services/events/processing.py:380-400 | an event that yields to an outcome leaves a row that shows it showing it |
| `Convergence.YieldingEventKeepsOpen` | packages/server/src/server/services/events/processing.py:462-475 | an event that yields to an outcome leaves the row showing that outcome or still taking it |
| `Convergence.TwoEventsMiss` | packages/server/src/server/services/events/processing.py:547-587 | of an outcome and an event that does not yield to it, one order of the two leaves the row elsewhere |
| `Convergence.TwoDeliveriesMiss` | packages/server/src/server/services/events/processing.py:630-657 | an event that does not yield has a concrete order of two deliveries that ends elsewhere |
| `Convergence.ConvergenceExact` | packages/server/src/server/services/events/processing.py:263-657 | an outcome of the highest attempt wins against every delivery sequence of a history if and only if every event of the history yields to it |
| `Convergence.WorkerHistoryConverges` | packages/server/src/server/services/events/processing.py:263-657 | for one start, at most one retry and at most one outcome per attempt, plus any progress and checkpoints: the last outcome wins if and only if its own start (for a cancellation) and its own retrying event are not stamped after it |
| `Convergence.CancellationCanBeOverridden` | packages/server/src/server/services/events/processing.py:462-475 | three concrete histories in which a cancellation is overridden |
| `RowHistory.RowShowsApplied` | packages/server/src/server/services/events/processing.py:263-749 | after any deliveries a job has a row if and only if an event of it was applied, and each column is what the last applied event to speak of it said: status, attempts, times, error, result, progress, checkpoint, retries, names and source |
| `RowHistory.AppliedExactly` | packages/server/src/server/services/events/processing.py:263-749 | after any deliveries, whether the next event is applied, told by the last applied event of an attempt, the last start and the last start or outcome |
| `RowHistory.InOrderIsApplied` | packages/server/src/server/services/events/processing.py:232-657 | of a history delivered in order, events lost or not, every start, outcome and retry is applied |
| `RowHistory.InOrderIsShown` | packages/server/src/server/services/events/processing.py:232-657 | and after each the row shows its kind, its attempt and its own time, error, result or reason |
| `RowHistory.StartThenRetryShown` | packages/server/src/server/services/events/processing.py:630-657 | a retrying event of the attempt last started is taken, whatever was stored before, and shows its error |
| `RowHistory.HeldBackExactly` | packages/server/src/server/services/events/processing.py:83-105 | a progress event is held back if and only if it is closer than the minimum delta to the value last written, is not the end, and the forced interval has not passed; the minimum interval plays no part |
| `RowHistory.EntryAfterStep` | packages/server/src/server/services/events/processing.py:68-80 | what one delivery makes of the throttle entry of any job: set, dropped, pushed out as the oldest of a full table, or left |
| `RowHistory.RememberedInOrder` | packages/server/src/server/services/events/processing.py:68-80 | entries stand in the order in which their jobs entered |
| `EventProcessing.JobRow.WriteStart` | packages/server/src/server/services/events/processing.py:263-311 | the four guards and the fields assigned, as a function of the row before |
| `EventProcessing.JobRow.WriteCompletion` | packages/server/src/server/services/events/processing.py:380-406 | the guards and the fields assigned on completion |
| `EventProcessing.JobRow.WriteFailure` | packages/server/src/server/services/events/processing.py:462-490 | the guards and the fields assigned on failure; a cancelled row is not held back |
| `EventProcessing.JobRow.WriteCancellation` | packages/server/src/server/services/events/processing.py:547-574 | the guards and the fields assigned on cancellation |
| `EventProcessing.EventProcessor.RecordProgressWrite` | packages/server/src/server/services/events/processing.py:68-80 | the table after a write: in place for a tracked job, oldest out at the cap; the rows untouched |
| `EventProcessing.EventProcessor.HandleStarted` | packages/server/src/server/services/events/processing.py:232-352 | the whole store and table after the handler equal one projection step |
| `EventProcessing.EventProcessor.HandleCompleted` | packages/server/src/server/services/events/processing.py:355-431 | likewise on completion, inserting the row when the outcome comes first |
| `EventProcessing.EventProcessor.HandleFailed` | packages/server/src/server/services/events/processing.py:434-517 | likewise on failure |
| `EventProcessing.EventProcessor.HandleCancelled` | packages/server/src/server/services/events/processing.py:520-600 | likewise on cancellation |
| `EventProcessing.EventProcessor.HandleRetrying` | packages/server/src/server/services/events/processing.py:603-657 | likewise on a retry, which never inserts; which retries are taken is `RowHistory.AppliedExactly` |
| `EventProcessing.EventProcessor.HandleProgress` | packages/server/src/server/services/events/processing.py:660-716 | likewise on progress: throttled, dropped for a terminal row together with its table entry |
| `EventProcessing.EventProcessor.HandleCheckpoint` | packages/server/src/server/services/events/processing.py:719-749 | likewise on a checkpoint |
| `EventProcessing.EventProcessor.ProcessEvent` | packages/server/src/server/services/events/processing.py:132-182 | the dispatch: any event takes store and table one projection step, and the answer is whether a row was written |
| `EventProcessing.EventProcessor.ProcessAll` | packages/server/src/server/services/events/processing.py:132-182 | any sequence of deliveries runs the projection, so the theorems above hold of the handlers |
| `Processing.OneActionPerDelivery` | packages/upnext/src/upnext/engine/job_processor.py:369-507 | exactly one finish or retry per delivery, if and only if it is neither a success of a recurring job whose rescheduling raises, which makes two, nor a task raising what is no `Exception`, which makes none |
| `Processing.DeliveriesCounted` | packages/upnext/src/upnext/engine/job_processor.py:369-507 | over any run of deliveries of any jobs, processed + failed + retried + cancelled + paused + deliveries not settled at all = deliveries + recurring successes that could not be rescheduled |
| `Processing.CountersTell` | packages/upnext/src/upnext/engine/job_processor.py:369-507 | over any run: processed = runs that returned, failed = unknown tasks and failing runs without a retry left, retried = the other failing runs, cancelled = jobs revoked before or in the run, paused = jobs held back |
| `Processing.OverlapCountsSame` | packages/upnext/src/upnext/engine/job_processor.py:355-367 | however the turns of the processor tasks overlap, every count of calls is that of the turns taken one after another |
| `Processing.OverlappingDeliveriesCounted` | packages/upnext/src/upnext/engine/job_processor.py:369-507 | so the equation above holds of every interleaving of the turns' calls |
| `JobProcessing.JobProcessor.ProcessEach` | packages/upnext/src/upnext/engine/job_processor.py:369-507 | of turns taken one after another, the queue calls are the log the counts speak of |
| `JobProcessing.RunFresh` | packages/upnext/src/upnext/engine/job_processor.py:195-222 | from a new processor, its counters with the cancelled and paused calls add up to the deliveries, one more for each delivery settled twice and one less for each not settled; each counter is the number of the deliveries it speaks of |
| `Processing.RequeuedWithinRetries` | packages/upnext/src/upnext/engine/job_processor.py:862-917 | runs equal attempts, but for a last attempt whose task is unknown; a job put back has run at most `retries` times, pauses not counted |
| `Processing.BoundedExecutions` | packages/upnext/src/upnext/engine/job_processor.py:437-507 | a job runs at most `retries + 1` times, and a failing run is final exactly when it is number `retries + 1` |
| `Processing.DelaysGrow` | packages/upnext/src/upnext/engine/registry.py:51-56 | the admitted settings make the delay sequence nondecreasing and nonnegative |
| `Processing.RetryDelaysNeverShrink` | packages/upnext/src/upnext/engine/job_processor.py:872-875 | the delays a job is actually retried with never shrink, one for each run so far |
| `Processing.GeometricSum` | packages/shared/src/shared/domain/jobs.py:468-470 | (b - 1) * sum = delay * (b^n - 1) for the first n delays |
| `Processing.RetryDelaysAddUp` | packages/upnext/src/upnext/engine/job_processor.py:872-875 | the same for the delays of a life with its number of runs |
| `JobProcessing.JobProcessor.HandleFailure` | packages/upnext/src/upnext/engine/job_processor.py:842-917 | retry or final failure by attempts, the failure reason kept if already set, attempts untouched |
| `JobProcessing.JobProcessor.ExecuteAndSettle` | packages/upnext/src/upnext/engine/job_processor.py:493-502 | the queue calls of a run are those of the specification, whatever the verdict; a time limit leaves the reason timeout and a revoke the reason cancelled, an exception leaves the reason there was or else exception, and any other end leaves it alone; the status is retrying exactly after a failing run with a retry left |
| `JobProcessing.JobProcessor.ProcessOne` | packages/upnext/src/upnext/engine/job_processor.py:369-507 | queue calls, attempts, counters and active table after one delivery; the failure reason, worker, start time, root and status it leaves; a paused job is left untouched and a cancelled one but for its root |
| `JobProcessing.NoMoreJobsThanTasks` | packages/upnext/src/upnext/engine/job_processor.py:209-212 | executing jobs never outnumber processor tasks |
| `JobProcessing.PoolStaysFull` | packages/upnext/src/upnext/engine/job_processor.py:355-367 | in every run active jobs and tasks stay within `concurrency`, and until stop there are exactly that many tasks |
| `Intake.StoresExactly` | packages/server/src/server/services/events/subscriber.py:470-534 | an outcome of the highest accepted attempt is stored against every delivery sequence if and only if its contract accepts it and every accepted event yields to it |
| `Intake.RefusedExactly` | packages/shared/src/shared/contracts/events.py:28-129 | the complete list of what an event is refused for |
| `Intake.TerminalRowWitnessed` | packages/server/src/server/services/events/processing.py:263-657 | a row that shows an outcome shows that of an event delivered for it, attempts and time included |
| `Intake.NeverEndsExactly` | packages/shared/src/shared/contracts/events.py:28-129 | a row never shows an outcome, whatever is delivered, if and only if no outcome published for the job is accepted |
| `Intake.NotStoredUnannounced` | packages/server/src/server/services/events/subscriber.py:511-534 | an outcome that no accepted event announces is not what the row shows once everything has arrived |
| `JobLife.StoryIsOpen` | packages/upnext/src/upnext/engine/job_processor.py:369-507 | events published while a job keeps being put back are starts, retries and successes of its attempts so far; no failure or cancellation is among them |
| `JobLife.LastDelivery` | packages/upnext/src/upnext/engine/job_processor.py:745-764 | the last event published for a delivery is of the newest attempt, and what precedes it there leaves the job open |
| `JobLife.EarlierEventYields` | packages/server/src/server/services/events/processing.py:263-657 | an earlier open event yields to a later outcome if and only if it is no outcome with the same time stamp |
| `JobLife.LifeStoredExactly` | packages/upnext/src/upnext/engine/job_processor.py:842-950 | from processor to row: the outcome a life ended with is stored, for every order and duplication, if and only if its contract accepts it and every earlier accepted outcome is stamped strictly before |
| `JobLife.LifeStoredAs` | packages/upnext/src/upnext/engine/job_processor.py:369-507 | once everything published for a finished job has been delivered, in any order and number, the row shows the status and attempts it was finished with if and only if the end was announced acceptably |
| `JobLife.LifeShownExactly` | packages/upnext/src/upnext/engine/job_processor.py:369-507 | the same of each single delivery sequence: with the end not announced acceptably, no sequence ever leaves the row with it |
| `JobLife.OrdinaryLifeStoredAs` | packages/upnext/src/upnext/engine/job_processor.py:785-840 | without a failed rescheduling, the same for any stamps in order, and otherwise the row never shows an outcome, whatever is delivered |
| `JobLife.FinalFailureStored` | packages/upnext/src/upnext/engine/job_processor.py:850-950 | a job that raises in its last permitted run is stored as failed if and only if the exception has a text, and its row never ends if and only if it has none |
| `JobLife.SilentFailureStaysActive` | packages/shared/src/shared/contracts/events.py:69-82 | one run that raises: finished as failed on the queue, and with an empty text still active in the rows after both its events |
| `JobLife.UnknownTaskNeverEnds` | packages/upnext/src/upnext/engine/job_processor.py:437-452 | a job whose task is unknown is finished as failed and its row never shows an outcome |
| `JobLife.EscapedNeverEnds` | packages/upnext/src/upnext/engine/job_processor.py:493-507 | a job whose task raises what no handler catches is not settled, and its row never shows an outcome |
| `Jobs.MarkKeepsHistory` | packages/shared/src/shared/domain/jobs.py:358-372 | one mark appends one history entry, with the new status last and one start per attempt |
| `Jobs.HistoryFollows` | packages/shared/src/shared/domain/jobs.py:484-529 | any sequence of marks keeps that |
| `JobMarks.MarksSaid` | packages/shared/src/shared/domain/jobs.py:484-529 | after any sequence of marks every field is what the last mark to set it said, the attempts are the starts, the history has one entry a mark with its status, time and worker, and nothing else has changed |
| `Jobs.SourceRoundTrip` | packages/shared/src/shared/domain/jobs.py:148-225 | a source comes back from a job's dictionary, except a recurring one without a schedule, which comes back as a task |
| `Jobs.HistoryRoundTrip` | packages/shared/src/shared/domain/jobs.py:26-43 | a state history comes back from its list |
| `Jobs.JobRoundTrip` | packages/shared/src/shared/domain/jobs.py:374-457 | `from_dict(to_dict(j)) = j` if and only if j has its defaults and its source comes back |
| `Jobs.FlatPayloadSameSource` | packages/shared/src/shared/domain/jobs.py:167-225 | a payload without the nested source, and one without the type besides, decode to the same source as the nested one |
| `JobDictionary.DictionarySays` | packages/shared/src/shared/domain/jobs.py:374-412 | every key of a job's dictionary with its value, the source nested and flat |
| `JobDictionary.StatusNames` | packages/shared/src/shared/domain/jobs.py:55-66 | the name of each status |
| `JobDictionary.NoOtherStatus` | packages/shared/src/shared/domain/jobs.py:55-66 | no other name is read as a status |
| `JobDictionary.ReasonNames` | packages/shared/src/shared/domain/jobs.py:46-52 | the name of each failure reason |
| `JobDictionary.TransitionSays` | packages/shared/src/shared/domain/jobs.py:26-33 | the dictionary of one history entry |
| `JobDictionary.DefaultsOfMinimal` | packages/shared/src/shared/domain/jobs.py:414-457 | a payload with the five required keys alone decodes to the job with every default |
| `JobDictionary.RequiredKeys` | packages/shared/src/shared/domain/jobs.py:414-457 | none of the five can be missing |
| `JobDictionary.NestedWins` | packages/shared/src/shared/domain/jobs.py:167-201 | a complete nested source is the job's whatever the flat fields beside it say |
| `Jobs.MarkedJobSurvives` | packages/shared/src/shared/domain/jobs.py:484-529 | after any marks the dictionary gives the job back with a matching history |
| `JobObject.Job.constructor` | packages/shared/src/shared/domain/jobs.py:298-305 | a new job has the defaults for key, root and function name |
| `JobObject.Job.MarkStarted` | packages/shared/src/shared/domain/jobs.py:489-499 | the whole job afterwards, one attempt more |
| `JobObject.Job.MarkComplete` | packages/shared/src/shared/domain/jobs.py:501-507 | the whole job afterwards |
| `JobObject.Job.MarkFailed` | packages/shared/src/shared/domain/jobs.py:509-515 | the whole job afterwards |
| `JobObject.Job.MarkRetrying` | packages/shared/src/shared/domain/jobs.py:523-529 | the whole job afterwards |
| `JobObject.Job.PrepareForManualRetry` | packages/shared/src/shared/queue_mutations.py:11-21 | the job is queued again and cleared of its last run, attempts kept |
| `PublisherSpec.FlushKeepsOrder` | packages/upnext/src/upnext/engine/status.py:165-184 | whatever a flush manages before it stops, it published prefixes of the two buffers, each in its own order, and left the rest |
| `PublisherSpec.FlushConserves` | packages/upnext/src/upnext/engine/status.py:244-274 | a flush conserves every event |
| `PublisherSpec.PlacementConserves` | packages/upnext/src/upnext/engine/status.py:146-163 | a new event is in exactly one place more |
| `PublisherSpec.MemoryKeepsNewest` | packages/upnext/src/upnext/engine/status.py:341-369 | keeping an event in memory appends it to overflow and waiting taken together; the buffer grows by one up to its cap and stays full there |
| `PublisherSpec.DurableKeepsNewest` | packages/upnext/src/upnext/engine/status.py:204-217 | the same of the durable list and what was trimmed from it |
| `PublisherSpec.RecordedJoinsLast` | packages/upnext/src/upnext/engine/status.py:146-163 | a recorded event is the last published, the last in the durable list, or the last in memory, after first parts of both buffers were published |
| `PublisherSpec.RunKeepsOrder` | packages/upnext/src/upnext/engine/status.py:123-202 | over any run, in either buffer, overflow and waiting together are in the order of recording |
| `PublisherSpec.RunConserves` | packages/upnext/src/upnext/engine/status.py:123-202 | over any run of calls that do not overlap, with any failures: recorded = published + in memory + durable + overflow, as multisets |
| `PublisherSpec.RunStaysWithinCaps` | packages/upnext/src/upnext/engine/status.py:341-369 | neither buffer ever exceeds its cap |
| `PublisherSpec.DrainedRunPublishes` | packages/upnext/src/upnext/engine/status.py:190-202 | a run of such calls that ends with nothing waiting or overflowed has published exactly what was recorded |
| `StatusPublishing.StatusPublisher.PublishWithRetry` | packages/upnext/src/upnext/engine/status.py:308-339 | the stream gains the event once if the call reports success and not at all if not; of the calls made, all but the deciding one failed, they are one more than the retries if none decides sooner, and an argument that is not known is left out in one last call |
| `StatusPublishing.StatusPublisher.BufferPending` | packages/upnext/src/upnext/engine/status.py:341-369 | the oldest goes at the cap and the new event is the last; the drop counter counts exactly what went |
| `StatusPublishing.StatusPublisher.BufferPendingDurable` | packages/upnext/src/upnext/engine/status.py:204-217 | pushed and trimmed in one go, or nothing at all |
| `StatusPublishing.StatusPublisher.Record` | packages/upnext/src/upnext/engine/status.py:123-163 | of a call by itself: a flush, then the event is published if its publish works, else kept durably if there is a list and the push works, else kept in memory; it raises if and only if strict and not published, and has then been kept all the same |
| `StatusPublishing.StatusPublisher.FlushPendingIfDue` | packages/upnext/src/upnext/engine/status.py:165-184 | of a call by itself: it only flushes, at most one batch of memory and exactly that when nothing fails; with the lock free a due or forced flush shrinks the durable list |
| `StatusPublishing.StatusPublisher.ProbeDurablePending` | packages/upnext/src/upnext/engine/status.py:219-229 | a probe only ever raises the hint, only over a list that is not empty, no sooner than the interval after the last |
| `StatusPublishing.StatusPublisher.FlushDurablePendingIfDue` | packages/upnext/src/upnext/engine/status.py:231-242 | of a call by itself: nothing unless due; keeps the hint sound: no hint, nothing in the durable list; when the next one is due |
| `StatusPublishing.StatusPublisher.FlushDurablePending` | packages/upnext/src/upnext/engine/status.py:244-274 | reports no more work only when the list is empty, and releases the lock |
| `StatusPublishing.StatusPublisher.ReleaseDurableLock` | packages/upnext/src/upnext/engine/status.py:297-306 | only the holder's own token is removed |
| `StatusPublishing.StatusPublisher.Close` | packages/upnext/src/upnext/engine/status.py:190-202 | ends without the clock, since each turn shrinks the backlog, uses up a failed count or exits; when no call fails and batches are positive only the deadline leaves anything in memory, with or without a durable list, and with the lock free and every entry decoding only it leaves anything in the durable list |
| `StatusPublishing.StatusPublisher.PerformEach` | packages/upnext/src/upnext/engine/status.py:123-188 | calls on the object one after another are a run of the ledgers, so recorded = published + in memory + durable + overflow of the object's own buffers |
| `SharedPublisher.StepKeepsAccounts` | packages/upnext/src/upnext/engine/status.py:123-242 | with many calls in flight, no step but a pop can change in how many places an event is against how often it was recorded |
| `SharedPublisher.PopTips` | packages/upnext/src/upnext/engine/status.py:177-183 | a pop leaves every event accounted for if and only if it takes off what its own call has published |
| `SharedPublisher.RunApart` | packages/upnext/src/upnext/engine/status.py:123-184 | under every interleaving an event is in at most one call's hands, and none that waits in memory or is being published from it is |
| `PublisherOverlap.QuietRunsConserve` | packages/upnext/src/upnext/engine/status.py:165-184 | under every interleaving of calls in which none reads or pushes out the head while another is between reading and popping: every event is accounted for, none is given up by a raise, and memory is flushed in the order in which it was filled; once the calls have returned, recorded = published + waiting + overflow |
| `PublisherOverlap.ConservedExactly` | packages/upnext/src/upnext/engine/status.py:123-202 | under every interleaving whatever, once the calls have returned: recorded = published + waiting + overflow if and only if every pop took off what its own call had published |
| `PublisherOverlap.QuietExactly` | packages/upnext/src/upnext/engine/status.py:176-183 | after a run as above, a next step can be continued to an event lost or published twice if and only if it reads or pushes out the head while another call is between reading and popping |
| `PublisherOverlap.SpoiltForGood` | packages/upnext/src/upnext/engine/status.py:165-184 | an event lost or published twice stays so, whatever is done |
| `OverlapCases.SecondPopRaises` | packages/upnext/src/upnext/sdk/worker.py:357-370 | two calls on one waiting event: it is published twice, the second pop raises, and the event its call had come to record is nowhere |
| `OverlapCases.SecondEventLost` | packages/upnext/src/upnext/engine/status.py:176-183 | two calls on two waiting events: the first is published twice, and the second is lost without being counted as dropped |
| `OverlapCases.HintBreaksExactly` | packages/upnext/src/upnext/engine/status.py:231-242 | of all steps, the hint comes to deny a durable list that is not empty only by a call setting it back after the list has filled |
| `OverlapCases.HintLost` | packages/upnext/src/upnext/engine/status.py:231-242 | two calls reach that: an event in the durable list, the hint down, no call under way |
| `EndToEnd.DrainedShowsTheEnd` | packages/upnext/src/upnext/engine/status.py:123-202 | with calls that do not overlap and a publisher drained without overflow, and every entry of the stream delivered at least once in any order: the row of a finished job shows its status and attempts if and only if its end was announced acceptably |
| `EndToEnd.SharedDrainedShowsTheEnd` | packages/upnext/src/upnext/engine/status.py:123-202 | the same under every interleaving of calls in which every pop took off what its own call had published |
| `DurableList.PopKeeps` | packages/upnext/src/upnext/engine/status.py:258-272 | a pop removes the entry its worker has just published |
| `DurableList.FlushedOnceInOrder` | packages/upnext/src/upnext/engine/status.py:244-306 | under every interleaving of workers, while locks outlive flushes and trims miss the head: first in first out, nothing lost, nothing repeated but once per crash |
| `DurableList.FlushesEnd` | packages/upnext/src/upnext/engine/status.py:255-272 | under every interleaving no flush publishes more than its batch, and it ends at the first publish that fails |
| `DurableList.HalfwayReached` | packages/upnext/src/upnext/engine/status.py:252-270 | a timely run reaches a worker between publish and pop with another entry behind, where the next two start |
| `DurableList.ExpiryLosesAndDuplicates` | packages/upnext/src/upnext/engine/status.py:285-295 | an expired lock makes one event appear twice and another vanish |
| `DurableList.OnTheWayOutReached` | packages/upnext/src/upnext/engine/status.py:297-306 | a timely run reaches a worker between looking at its lock and removing it |
| `DurableList.ExpiryFreesAnothersLock` | packages/upnext/src/upnext/engine/status.py:297-306 | an expiry there removes another worker's lock, and two workers flush at once |
| `DurableList.TrimLoses` | packages/upnext/src/upnext/engine/status.py:204-217 | a trim that reaches the head makes an unpublished event vanish |
| `CommandQueue.RunsKeep` | packages/upnext/src/upnext/engine/job_processor.py:1124-1174 | the invariant of all interleavings of puts, scheduled starts, drain and close |
| `CommandQueue.ClosedMeansDispatched` | packages/upnext/src/upnext/engine/job_processor.py:1165-1220 | at most one drain; dispatched, in-hand and queued commands are those put, in order; a returned close has dispatched all that were put before it |
| `CommandQueue.UnusedMeansNothingPut` | packages/upnext/src/upnext/engine/job_processor.py:1165-1167 | a close that finds no queue finds no command and no drain |
| `CommandQueue.CloseReturnsEventually` | packages/upnext/src/upnext/engine/job_processor.py:1165-1174 | a waiting close is never stuck, and a measure counts down to its return that nobody raises |
| `TaskContext.Context.SetProgress` | packages/upnext/src/upnext/sdk/context.py:124-169 | the error case, the coalescing state and the command put, as functions of the call and the state before; what those mean is said by the three rows below |
| `TaskContext.NormalisedTells` | packages/upnext/src/upnext/sdk/context.py:136-143 | values up to 1 stand for themselves, up to 100 for percentages, others are refused |
| `TaskContext.KeptBackExactly` | packages/upnext/src/upnext/sdk/context.py:145-166 | an accepted report is kept back if and only if it is not the end, has the message last sent, and is within both the minimum delta and the minimum interval of what was last sent |
| `TaskContext.LastReportKnown` | packages/upnext/src/upnext/sdk/context.py:145-169 | after any reports, the last accepted one was sent, or has the message last sent and is that near; the end is always sent |
| `ProgressDrift.StoredProgressIsNear` | packages/server/src/server/services/events/processing.py:83-105 | after any deliveries, a row not ended shows its last delivered progress to within the server's minimum delta |
| `ProgressDrift.AlwaysInStep` | packages/upnext/src/upnext/sdk/context.py:143-167 | in every run what the context last sent is what the published events show, and the last value asked for is within the client's minimum delta of it |
| `ProgressDrift.DriftIsBounded` | packages/upnext/src/upnext/sdk/context.py:136-169 | over every run with in-order delivery, stored progress is within the two deltas of the last value the task reported |
| `ProgressDrift.DriftIsTight` | packages/server/src/server/services/events/processing.py:83-105 | every drift below the sum of the deltas is reached by a concrete run |
| `SseFormat.SplitMore` | packages/server/web/src/hooks/use-event-source.ts:225-227 | more text changes nothing before the last part of the text so far |
| `SseFormat.MessagesMore` | packages/server/web/src/hooks/use-event-source.ts:225-245 | the messages of a longer text are those so far and those of the open part with the rest |
| `SseFormat.FramesHeard` | packages/server/src/server/routes/events_stream.py:40-60 | every sequence of printed frames with clean payloads is heard exactly, in order, with nothing left over |
| `SseFormat.DeliveredIffClean` | packages/server/web/src/hooks/use-event-source.ts:229-245 | a data frame delivers its payload alone and whole if and only if the payload is not empty, has no line feed and starts with no white space |
| `SseLines.PartsJoined` | packages/server/web/src/hooks/use-event-source.ts:225-227 | the parts with a blank line between each two are the text |
| `SseLines.ManyLinesHeard` | packages/server/web/src/hooks/use-event-source.ts:229-241 | a part of several data lines is one message, their texts with a line feed between each two |
| `SseLines.LeadingSpaceLost` | packages/server/web/src/hooks/use-event-source.ts:232-236 | white space in front of a payload is lost |
| `SseReader.ChunksDoNotMatter` | packages/server/web/src/hooks/use-event-source.ts:217-245 | any cut of the text into chunks gives the messages of the whole text |
| `SseReader.AnyCutOfFramesHeard` | packages/server/web/src/hooks/use-event-source.ts:217-245 | what the server printed is heard whatever the cut |
| `SseReader.EventReader.Read` | packages/server/web/src/hooks/use-event-source.ts:222-245 | buffer and deliveries after a chunk, as a function of those before |
| `SseReader.EventReader.GatherData` | packages/server/web/src/hooks/use-event-source.ts:231-236 | the data lines of a part joined |
| `SseReader.EventReader.ReadAll` | packages/server/web/src/hooks/use-event-source.ts:217-245 | reading chunk by chunk delivers the messages of the joined text |
| `Patterns.RegexMeansSegment` | packages/shared/src/shared/patterns.py:10-19 | the compiled expression of a segment matches if and only if the segment can be cut into pieces its pattern characters stand for |
| `Patterns.SegmentRegex` | packages/shared/src/shared/patterns.py:10-19 | the token list built, one token for each pattern character |
| `Patterns.LoopDecides` | packages/shared/src/shared/patterns.py:57-72 | from any segment on, what the two indices decide is whether the segments left on both sides match |
| `Patterns.MatchesEventPattern` | packages/shared/src/shared/patterns.py:22-72 | the two-index loop returns true if and only if the declarative relation holds |
| `Patterns.GetMatchingPatterns` | packages/shared/src/shared/patterns.py:75-86 | exactly the matching patterns, in the order given |
| `Patterns.LoneMultiMatchesAll` | packages/shared/src/shared/patterns.py:50-51 | the shortcut for a lone `**` changes no answer |
| `Patterns.EventMatchesItself` | packages/shared/src/shared/patterns.py:22-72 | every event name matches itself as a pattern |
| `Patterns.StarMatchesOneSegment` | packages/shared/src/shared/patterns.py:10-19 | `*` stands for any one segment that is not empty |
| `Patterns.TrailingMultiMeansPrefix` | packages/shared/src/shared/patterns.py:52-72 | a trailing `.**` accepts an event if and only if the pattern without it accepts some leading part |
| `Patterns.InnerMultiIgnoresRest` | packages/shared/src/shared/patterns.py:57-72 | once a `**` that is not last meets a segment, what follows it in the pattern is not looked at |
| `Patterns.PlainMeansEqual` | packages/shared/src/shared/patterns.py:22-72 | a pattern without wildcards matches its own name and no other |
| `Metrics.WindowTallies` | packages/upnext/src/upnext/sdk/middleware.py:45-50 | in any window requests are the sum of the three classes and errors of the last two |
| `Metrics.WindowSummarises` | packages/upnext/src/upnext/sdk/middleware.py:45-50 | in any window requests and latency are those of the log in its seconds, and the classes count the statuses below 400, from 400 to 499, and from 500 on |
| `Metrics.RecordRefines` | packages/upnext/src/upnext/sdk/middleware.py:206-230 | one request keeps every bucket equal to the log's share of its slot and alive long enough |
| `Metrics.TableRefines` | packages/upnext/src/upnext/sdk/middleware.py:206-230 | so does every log |
| `Metrics.WindowCompleteExactly` | packages/server/src/server/services/apis/tracking.py:383-472 | reader sums equal log sums for every log, endpoints and time if and only if the window fits in the time to live |
| `Metrics.CompleteWindows` | packages/shared/src/shared/keys/api.py:18-22 | minute windows are complete up to 120 minutes and no further, hourly ones up to 720 hours |
| `Metrics.ApiMetrics.Record` | packages/upnext/src/upnext/sdk/middleware.py:176-230 | both tables follow the log |
| `Metrics.ApiMetrics.Increment` | packages/upnext/src/upnext/sdk/middleware.py:218-222 | the field increments add exactly the request's share and renew the expiry |
| `Metrics.LongWindowUndercounts` | packages/server/src/server/services/apis/tracking.py:344-365 | a window longer than the time to live has a log whose sum the reader misses |
| `Metrics.ApiMetrics.AggregateMinutes` | packages/server/src/server/services/apis/tracking.py:428-472 | the nested sums count the logged requests of the last minutes, the present one included, each by its own status, while the window is complete; at least one minute is read |
| `Metrics.ApiMetrics.AggregateHourly` | packages/server/src/server/services/apis/tracking.py:383-426 | likewise for hours |
| `Metrics.ApiMetrics.HourlyTrends` | packages/server/src/server/services/apis/tracking.py:260-321 | one row an hour, oldest first, each with the numbers of successes, client errors and server errors logged in that hour |
| `StreamDeletion.CleanPage` | packages/shared/src/shared/queue_mutations.py:49-62 | after a page has been read and its matches deleted, none of the entries up to it is a match, though others may have appended and removed entries in between |
| `StreamDeletion.OfExactly` | packages/shared/src/shared/queue_mutations.py:51-55 | whose message it is: the bytes key decides, unless it is absent or empty |
| `StreamDeletion.RestOfStream` | packages/shared/src/shared/queue_mutations.py:43-48 | reading on after the last scanned id gives exactly what is left of the entries not passed yet, whoever removed what |
| `StreamDeletion.ScanPages` | packages/shared/src/shared/queue_mutations.py:38-68 | the cursor loop ends, having cleared a first part of everything ever appended: all that was there at the call, or at least `max_scan` entries |
| `StreamDeletion.DeleteEntriesForJob` | packages/shared/src/shared/queue_mutations.py:24-68 | while others append, acknowledge and trim: no match is left in the part passed, nothing but matches in it was deleted, the answer counts what was, and fewer than `max_scan + batch_size` are scanned; on a stream nobody else changes, the scanned part loses exactly its matches, order kept, and a stream within `max_scan` is filtered whole |
| `StreamDeletion.CleanedIsFilter` | packages/shared/src/shared/queue_mutations.py:33-68 | the outcome is the filtered stream if and only if no match lies beyond the scanned part |
| `RequestListing.NextPage` | packages/server/src/server/services/apis/request_events.py:60-88 | after any number of rows the cursor finds, whatever was appended meanwhile, what a trim has left of the rows that follow |
| `RequestListing.PagedRows` | packages/server/src/server/services/apis/request_events.py:52-88 | of the rows in range at the first read, newest first and each once, all up to the first that was trimmed by the read its place falls to, for every page size; all of them on a stream at rest |
| `RequestListing.AllListedExactly` | packages/upnext/src/upnext/sdk/middleware.py:252-265 | all rows are listed if and only if none is trimmed before the read its place falls to |
| `RequestListing.MissedAreTrimmed` | packages/upnext/src/upnext/sdk/middleware.py:252-265 | the rows missed are the oldest, and every one of them has been trimmed |
| `RequestListing.RowLost` | packages/server/src/server/services/apis/request_events.py:60-88 | three rows, pages of two and one append that trims between them: the listing ends without the oldest row |
| `RequestListing.TimeBounds` | packages/server/src/server/services/apis/request_events.py:11-20 | which ids the time bounds admit, with the loss beyond a million ids in the last millisecond |
| `RequestListing.NewestBetween` | packages/server/src/server/services/apis/request_events.py:11-20 | of what is there at the first read all that lies between the two times is in range, and nothing outside them; an absent time bounds nothing |
| `RequestListing.PassesExactly` | packages/server/src/server/routes/apis/apis_stream.py:153-171 | an event passes if and only if every filter given and not empty names its own value; `__none__` asks for events without an instance |
| `RequestListing.ReadCountTells` | packages/server/src/server/routes/apis/apis_stream.py:144 | four rows are read for each event asked for, within 500 and 5000 |
| `RequestListing.FilterAndSlice` | packages/server/src/server/routes/apis/apis_stream.py:145-186 | one pass gives the slice, the total and whether more matches lie past it |
| `RequestListing.ListRequestEvents` | packages/server/src/server/routes/apis/apis_stream.py:102-186 | of the matches among the rows the paged reading finds, newest first: those from the offset on, as many as the limit, `total` = all of them, `has_more` if and only if some remain past them; a negative offset is 0, the limit is kept within 1 and 2000, and an absent one is the configured limit; no row lies outside the two times |
| `RequestPages.AnswersComplete` | packages/server/src/server/routes/apis/apis_stream.py:143-186 | the answers to requests at offsets 0, limit, twice the limit and so on, over the same matches, put together are all of them if and only if the last says that there are no more |
| `RequestPages.AnswersMissNothing` | packages/server/src/server/routes/apis/apis_stream.py:143-186 | with new matches coming in front between the requests, they show all that matched at the first, once the last says so |
| `RequestPages.WalkEnds` | packages/server/src/server/routes/apis/apis_stream.py:180-186 | over the same matches an answer past the last full page says so |
| `RequestListing.WalkEndsComplete` | packages/server/src/server/routes/apis/apis_stream.py:180-186 | while the matching events stay the same, pages asked for in turn make up all of them if and only if the last page had no more |
| `RequestListing.WalkMissesNothing` | packages/server/src/server/routes/apis/apis_stream.py:180-186 | while new matches come in front between the requests, a walk to the end misses none that matched at its first request |

## Where the code and its documentation differ

* The middleware's header gives minute buckets ten minutes to live (`packages/upnext/src/upnext/sdk/middleware.py:4`)
  and the key constants speak of one-hour windows, while the constant is 7200 seconds and the reader takes minute
  windows of up to a day; the model follows the code.
* The event-stream client trims all leading white space of a data line and knows no line end but the line feed, unlike
  section 9.2 of the WHATWG HTML standard; the model follows the client.

## Left out

- Redis, SQL, HTTP and storage clients: I/O; Redis structures are sequences and maps with the operations used.
- The Redis queue and the backend repositories: only that a retry preserves attempts and that finish and retry do not raise.
- Sessions, commits, artifact promotion and the projection's own SSE publications: the store is one map, one workspace.
- Event payload validation: events come typed, and `Intake.Accepted` states the field bounds; the envelope, the retry delay and the archive of refused events are not modelled.
- Convergence.ThrottleAgreesWithRows: the throttle is a table of one process; with several server processes reading the stream an entry may be older than the row, and a progress event may be held back against it.
- The subscriber's batches: within one, earlier progress events of a job are replaced by later ones; the projection theorems hold of whatever is delivered.
- PublisherSpec.RunConserves: speaks of calls that do not overlap; with overlapping calls it fails, and `PublisherOverlap` says exactly when.
- StatusPublishing.StatusPublisher.Record: a call by itself; when another call pops between its publish and its pop it can raise without keeping the event (`OverlapCases.SecondPopRaises`). No claim when LINDEX, LPOP or the trim raises, since the exception then escapes before the new event is kept.
- StatusPublishing.StatusPublisher.FlushPendingIfDue: a call by itself; that the head stays in place while its publish is awaited is the condition of `PublisherOverlap.QuietExactly`.
- StatusPublishing.StatusPublisher.FlushDurablePendingIfDue: a call by itself; what another call can do to the hint meanwhile is `OverlapCases.HintBreaksExactly`.
- SharedPublisher: events count as distinct, a call's flush of the durable list moves one head at a time (`DurableList` has its steps, a call being a worker there), other workers' events in that list are left out, and when flushes are due is left open.
- StatusPublishing.StatusPublisher.Close: one publisher on the durable list; many publishers are `DurableList`, which has no memory buffer.
- Global order of published status events: a new event is published even while older ones wait.
- The status stream's own length limit: published means accepted by XADD.
- Processing.BoundedExecutions: processors that know the task know it under one policy throughout the life of the job.
- JobLife.LifeStoredAs: names that a job always carries are taken to be non-empty, and no event is lost on the way; losses are the publisher's part, and `EndToEnd` joins the two.
- JobLife.EscapedNeverEnds: whether the queue hands the job out again later is not part of this model.
- JobProcessing.JobProcessor.ProcessOne: a task that is stopped from outside in the middle of a job is not followed further; time limits and subprocesses are the verdict of the run, and hooks are taken to raise nothing but an `Exception`, which is caught.
- Cron arithmetic, heartbeats, signals and health files: foreign calls or timing only.
- The texts of history messages: parameters of the marks.
- Jobs.JobRoundTrip: ISO text and time are taken to be each other's inverse, and values of other types than `to_dict` gives are refused as a whole.
- ProgressDrift.DriftIsBounded: assumes the channel from task to server keeps order; the publisher alone does not guarantee it.
- Rounding: progress, delays and latencies are real numbers; a delay too large for a float is not modelled.
- Metrics: endpoints and slots are keys themselves rather than key strings, all writers share a clock, and the endpoint registry with its refresh interval is not modelled; averages and rates derived from the sums would add easy members.
- RequestListing.ListRequestEvents: only the trimming appends of the middleware change the stream while it is read; rows arrive parsed or refused, the verb filter arrives in upper case, times are not before 1970, and the empty answer without Redis is left out.
- UTF-8 decoding across chunks, reconnection and idle timers of the event-stream client: text arrives decoded.
- SSE snapshots, runtime tokens, catalog, routers, command line and user interface: easy or unrelated members.
