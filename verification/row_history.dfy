/** What a row shows, told by the events that were applied to it: each column is what the last event that speaks of it
    said. So is whether the next event is applied, and a history delivered in order is applied whole. */
module RowHistory {
  import opened Options
  import opened Lifecycle
  import C = Convergence

  /** The events of the job that were applied, in order. */
  function Applied(cfg: Config, st: Store, ds: seq<Delivery>, id: string): seq<Event> {
    if ds == [] then []
    else
      var front, last := ds[..|ds| - 1], ds[|ds| - 1];
      Applied(cfg, st, front, id)
      + (if last.ev.jobId == id && Write(cfg, Run(cfg, st, front), last).Some? then [last.ev] else [])
  }

  function LastOf(es: seq<Event>, kind: Event -> bool): (last: Option<Event>)
    ensures last.Some? ==> kind(last.value) && last.value in es
    ensures last.None? ==> forall e :: e in es ==> !kind(e)
  {
    if es == [] then None
    else if kind(es[|es| - 1]) then Some(es[|es| - 1])
    else LastOf(es[..|es| - 1], kind)
  }

  predicate IsStart(e: Event) { e.JobStarted? }

  /** Events of an attempt: all but progress and checkpoints. */
  predicate OfAttempt(e: Event) { !e.JobProgress? && !e.JobCheckpoint? }

  predicate SpeaksOfEnd(e: Event) { e.JobStarted? || C.IsOutcome(e) }

  predicate SpeaksOfError(e: Event) { e.JobStarted? || e.JobFailed? || e.JobCancelled? || e.JobRetrying? }

  predicate SpeaksOfResult(e: Event) { e.JobStarted? || e.JobCompleted? }

  predicate SpeaksOfProgress(e: Event) { e.JobStarted? || e.JobCompleted? || e.JobProgress? }

  predicate SpeaksOfCheckpoint(e: Event) { e.JobStarted? || e.JobCheckpoint? }

  // ---------------------------------------------------------------------------------------------
  // The columns
  // ---------------------------------------------------------------------------------------------

  /** Status, attempt and times. */
  ghost predicate ShowsState(row: Row, es: seq<Event>)
    requires es != []
  {
    var said, start, end := LastOf(es, OfAttempt), LastOf(es, IsStart), LastOf(es, SpeaksOfEnd);
    && said.Some? && row.attempts == said.value.attempt
    && (row.status == Active <==> said.value.JobStarted?) && (row.status == Complete <==> said.value.JobCompleted?)
    && (row.status == Failed <==> said.value.JobFailed?) && (row.status == Cancelled <==> said.value.JobCancelled?)
    && (row.status == Retrying <==> said.value.JobRetrying?)
    && row.startedAt == (if start.Some? then Some(start.value.startedAt) else None)
    && row.completedAt == (if end.Some? && !end.value.JobStarted? then Some(C.At(end.value)) else None)
    && (es[0].JobStarted? || C.IsOutcome(es[0]))
    && row.createdAt == Some(if es[0].JobStarted? then es[0].startedAt else C.At(es[0]))
  }

  /** What the task left behind. */
  ghost predicate ShowsResult(row: Row, es: seq<Event>) {
    var error, result := LastOf(es, SpeaksOfError), LastOf(es, SpeaksOfResult);
    var progress, checkpoint := LastOf(es, SpeaksOfProgress), LastOf(es, SpeaksOfCheckpoint);
    && row.error == (if error.None? || error.value.JobStarted? then None
                     else if error.value.JobCancelled? then error.value.reason
                     else Some(error.value.error))
    && row.result == (if result.Some? && result.value.JobCompleted? then result.value.result else None)
    && row.progress == (if progress.None? || progress.value.JobStarted? then 0.0
                        else if progress.value.JobCompleted? then 1.0
                        else progress.value.progress)
    && row.checkpoint == (if checkpoint.None? then None
                          else if checkpoint.value.JobStarted? then checkpoint.value.checkpoint
                          else Some(checkpoint.value.state))
    && row.checkpointAt == (if checkpoint.None? then None
                            else if checkpoint.value.JobStarted? then checkpoint.value.checkpointAt
                            else Some(checkpoint.value.checkpointedAt))
  }

  predicate DescribesSource(columns: SourceColumns, source: JobSource) {
    match source
    case CronSource(schedule, windowAt, reconciled, policy) =>
      && columns.jobType == Cron && columns.schedule == Some(schedule) && columns.cronWindowAt == windowAt
      && columns.startupReconciled == reconciled && columns.startupPolicy == policy
      && columns.eventPattern == None && columns.eventHandlerName == None
    case EventSource(pattern, handler) =>
      && columns.jobType == Event && columns.eventPattern == Some(pattern) && columns.eventHandlerName == Some(handler)
      && columns.schedule == None && columns.cronWindowAt == None && columns.startupPolicy == None
      && !columns.startupReconciled
    case TaskSource => columns == SourceColumns(Task, None, None, false, None, None, None)
  }

  /** Who and what the job is. */
  ghost predicate ShowsJob(row: Row, es: seq<Event>, id: string)
    requires es != []
  {
    var said, start, last := LastOf(es, OfAttempt), LastOf(es, IsStart), es[|es| - 1];
    && said.Some? && row.about.function_ == said.value.function_ && row.about.functionName == said.value.functionName
    && row.about.parentId == last.parentId && row.about.rootId == last.rootId
    && row.about.kwargs == (if es[0].JobStarted? then es[0].kwargs else "{}")
    && row.about.jobKey == (if start.Some? then start.value.jobKey else id)
    && row.about.scheduledAt == (if start.Some? then start.value.scheduledAt else None)
    && row.about.queueWaitMs == (if start.Some? then start.value.queueWaitMs else None)
    && row.about.workerId == (if start.Some? then start.value.workerId else None)
    && DescribesSource(row.about.columns, if start.Some? then start.value.source else TaskSource)
  }

  /** The most retries that the first event and the failures speak of. */
  function RetriesSaid(es: seq<Event>): nat {
    if es == [] then 0
    else
      var before, last := RetriesSaid(es[..|es| - 1]), es[|es| - 1];
      if !last.JobFailed? && !(|es| == 1 && last.JobStarted?) then before
      else if before < last.maxRetries then last.maxRetries
      else before
  }

  ghost predicate Shows(row: Row, es: seq<Event>, id: string) {
    && es != [] && ShowsState(row, es) && ShowsResult(row, es) && ShowsJob(row, es, id)
    && row.maxRetries == RetriesSaid(es)
  }

  lemma LastOfMore(es: seq<Event>, e: Event, kind: Event -> bool)
    ensures LastOf(es + [e], kind) == if kind(e) then Some(e) else LastOf(es, kind)
  {
    assert (es + [e])[..|es|] == es;
  }

  lemma RetriesMore(es: seq<Event>, e: Event)
    requires es != []
    ensures RetriesSaid(es + [e]) == if e.JobFailed? then Max(RetriesSaid(es), e.maxRetries) else RetriesSaid(es)
  {
    assert (es + [e])[..|es|] == es;
  }

  lemma LastOfOne(e: Event, kind: Event -> bool)
    ensures LastOf([e], kind) == if kind(e) then Some(e) else None
  {
    assert [e][..0] == [];
  }

  lemma InsertedShowsState(e: Event)
    requires Inserted(e).Some?
    ensures ShowsState(Inserted(e).value, [e])
  {
    LastOfOne(e, OfAttempt);
    LastOfOne(e, IsStart);
    LastOfOne(e, SpeaksOfEnd);
  }

  lemma InsertedShowsResult(e: Event)
    requires Inserted(e).Some?
    ensures ShowsResult(Inserted(e).value, [e])
  {
    LastOfOne(e, SpeaksOfError);
    LastOfOne(e, SpeaksOfResult);
    LastOfOne(e, SpeaksOfProgress);
    LastOfOne(e, SpeaksOfCheckpoint);
  }

  lemma InsertedShowsJob(e: Event)
    requires Inserted(e).Some?
    ensures ShowsJob(Inserted(e).value, [e], e.jobId)
  {
    LastOfOne(e, OfAttempt);
    LastOfOne(e, IsStart);
  }

  lemma InsertedShows(e: Event)
    requires Inserted(e).Some?
    ensures Shows(Inserted(e).value, [e], e.jobId)
  {
    InsertedShowsState(e);
    InsertedShowsResult(e);
    InsertedShowsJob(e);
    assert RetriesSaid([e][..0]) == 0;
  }

  lemma UpdatedShowsState(row: Row, es: seq<Event>, e: Event, persist: bool)
    requires es != [] && ShowsState(row, es) && Takes(row, e, persist)
    ensures ShowsState(Updated(row, e), es + [e])
  {
    LastOfMore(es, e, OfAttempt);
    LastOfMore(es, e, IsStart);
    LastOfMore(es, e, SpeaksOfEnd);
  }

  lemma UpdatedShowsResult(row: Row, es: seq<Event>, e: Event)
    requires ShowsResult(row, es)
    ensures ShowsResult(Updated(row, e), es + [e])
  {
    LastOfMore(es, e, SpeaksOfError);
    LastOfMore(es, e, SpeaksOfResult);
    LastOfMore(es, e, SpeaksOfProgress);
    LastOfMore(es, e, SpeaksOfCheckpoint);
  }

  lemma UpdatedShowsJob(row: Row, es: seq<Event>, e: Event, id: string)
    requires es != [] && ShowsJob(row, es, id)
    ensures ShowsJob(Updated(row, e), es + [e], id)
  {
    LastOfMore(es, e, OfAttempt);
    LastOfMore(es, e, IsStart);
  }

  lemma UpdatedShows(row: Row, es: seq<Event>, e: Event, persist: bool, id: string)
    requires Shows(row, es, id) && Takes(row, e, persist)
    ensures Shows(Updated(row, e), es + [e], id)
  {
    UpdatedShowsState(row, es, e, persist);
    UpdatedShowsResult(row, es, e);
    UpdatedShowsJob(row, es, e, id);
    RetriesMore(es, e);
  }

  /** There is a row exactly when an event was applied, and then it shows what they said. */
  ghost predicate Tells(row: Option<Row>, es: seq<Event>, id: string) {
    (row.Some? <==> es != []) && (row.Some? ==> Shows(row.value, es, id))
  }

  lemma WrittenTells(row: Option<Row>, es: seq<Event>, e: Event, persist: bool, id: string)
    requires Tells(row, es, id) && e.jobId == id
    ensures Tells(C.After(row, e, persist), es + (if Written(row, e, persist).Some? then [e] else []), id)
  {
    if row.None? {
      assert [] + [e] == [e];
      if Inserted(e).Some? {
        InsertedShows(e);
      }
    } else if Takes(row.value, e, persist) {
      UpdatedShows(row.value, es, e, persist, id);
    } else {
      assert es + [] == es;
    }
  }

  /** After any deliveries whatever, the job has a row exactly when an event of it was applied, and every column of the
      row is what the last applied event to speak of it said. */
  lemma {:induction false} RowShowsApplied(cfg: Config, st: Store, ds: seq<Delivery>, id: string)
    requires id !in st.rows
    ensures Tells(RowOf(Run(cfg, st, ds), id), Applied(cfg, st, ds, id), id)
  {
    if ds != [] {
      var front, last := ds[..|ds| - 1], ds[|ds| - 1];
      RowShowsApplied(cfg, st, front, id);
      var before := Run(cfg, st, front);
      C.StepOnRow(cfg, before, last, id);
      if last.ev.jobId == id {
        WrittenTells(RowOf(before, id), Applied(cfg, st, front, id), last.ev, Persists(cfg, before, last), id);
      } else {
        assert Applied(cfg, st, ds, id) == Applied(cfg, st, front, id);
      }
    }
  }

  // ---------------------------------------------------------------------------------------------
  // Which events are applied
  // ---------------------------------------------------------------------------------------------

  function When(e: Event): Time
    requires OfAttempt(e)
  {
    if e.JobStarted? then e.startedAt else if e.JobRetrying? then e.retryAt else C.At(e)
  }

  /** Whether a next event is applied, told by the events applied so far: by the last one of an attempt, the last start,
      and the last start or outcome. */
  ghost predicate Follows(es: seq<Event>, e: Event, persist: bool) {
    var said, start, end := LastOf(es, OfAttempt), LastOf(es, IsStart), LastOf(es, SpeaksOfEnd);
    if said.None? then SpeaksOfEnd(e)
    else if e.JobCheckpoint? then true
    else if e.JobProgress? then persist && !C.IsOutcome(said.value)
    else
      && said.value.attempt <= e.attempt
      && match e
         case JobStarted(_, _, _, _, _, _, _, _, _, _, _, _, _, _, _, _) =>
           && (said.value.JobCompleted? || said.value.JobFailed? ==> said.value.attempt < e.attempt)
           && (end.Some? && C.IsOutcome(end.value) ==> C.At(end.value) < When(e))
           && (start.Some? && said.value.attempt == e.attempt ==> When(start.value) < When(e))
         case JobFailed(_, _, _, _, _, _, _, _, _) =>
           said.value.JobCompleted? || said.value.JobFailed? ==> C.At(said.value) < When(e)
         case JobRetrying(_, _, _, _, _, _, _, _) =>
           && (C.IsOutcome(said.value) ==> C.At(said.value) < When(e))
           && (said.value.JobRetrying? ==> said.value.attempt < e.attempt)
         case _ =>
           C.IsOutcome(said.value) ==> C.At(said.value) < When(e)
  }

  /** Of a row showing an outcome, the last start or outcome is that outcome. */
  lemma {:induction false} EndOfAttempt(es: seq<Event>)
    requires LastOf(es, OfAttempt).Some? && C.IsOutcome(LastOf(es, OfAttempt).value)
    ensures LastOf(es, SpeaksOfEnd) == LastOf(es, OfAttempt)
  {
    if !OfAttempt(es[|es| - 1]) {
      EndOfAttempt(es[..|es| - 1]);
    }
  }

  lemma StartFollows(row: Row, es: seq<Event>, e: Event, persist: bool)
    requires es != [] && ShowsState(row, es) && e.JobStarted?
    ensures Takes(row, e, persist) <==> Follows(es, e, persist)
  {
  }

  lemma TakesFollows(row: Row, es: seq<Event>, e: Event, persist: bool)
    requires es != [] && ShowsState(row, es) && !e.JobStarted?
    ensures Takes(row, e, persist) <==> Follows(es, e, persist)
  {
    if C.IsOutcome(LastOf(es, OfAttempt).value) {
      EndOfAttempt(es);
    }
  }

  lemma WrittenFollows(row: Option<Row>, es: seq<Event>, e: Event, persist: bool, id: string)
    requires Tells(row, es, id) && e.jobId == id
    ensures Written(row, e, persist).Some? <==> Follows(es, e, persist)
  {
    if row.Some? {
      if e.JobStarted? {
        StartFollows(row.value, es, e, persist);
      } else {
        TakesFollows(row.value, es, e, persist);
      }
    }
  }

  /** After any deliveries whatever, the next event of the job is applied if and only if it follows those applied so
      far; a progress event must pass the throttle besides. */
  lemma AppliedExactly(cfg: Config, st: Store, ds: seq<Delivery>, d: Delivery)
    requires d.ev.jobId !in st.rows
    ensures var before := Run(cfg, st, ds);
            Write(cfg, before, d).Some? <==>
            Follows(Applied(cfg, st, ds, d.ev.jobId), d.ev, Persists(cfg, before, d))
  {
    var before := Run(cfg, st, ds);
    RowShowsApplied(cfg, st, ds, d.ev.jobId);
    WrittenFollows(RowOf(before, d.ev.jobId), Applied(cfg, st, ds, d.ev.jobId), d.ev, Persists(cfg, before, d),
                   d.ev.jobId);
  }

  // ---------------------------------------------------------------------------------------------
  // Histories delivered in order
  // ---------------------------------------------------------------------------------------------

  /** Of two events of a job, `b` comes later: it is of no earlier attempt and stamped after any outcome before it; one
      attempt is retried once; starts are stamped in order, and what completed or failed does not start again. */
  predicate Later(a: Event, b: Event)
    requires OfAttempt(a) && OfAttempt(b)
  {
    && a.attempt <= b.attempt
    && (C.IsOutcome(a) ==> C.At(a) < When(b))
    && (a.JobRetrying? && b.JobRetrying? ==> a.attempt < b.attempt)
    && (a.JobStarted? && b.JobStarted? ==> When(a) < When(b))
    && (b.JobStarted? && (a.JobCompleted? || a.JobFailed?) ==> a.attempt < b.attempt)
  }

  predicate Concerns(d: Delivery, id: string) { d.ev.jobId == id && OfAttempt(d.ev) }

  /** The events of the job's attempts come in order, mixed with any progress, checkpoints and events of other jobs. The
      first is not a retry. */
  ghost predicate InOrder(ds: seq<Delivery>, id: string) {
    && (forall i, j :: 0 <= i < j < |ds| && Concerns(ds[i], id) && Concerns(ds[j], id) ==> Later(ds[i].ev, ds[j].ev))
    && (forall j :: 0 <= j < |ds| && Concerns(ds[j], id) && ds[j].ev.JobRetrying? ==>
          exists i :: 0 <= i < j && Concerns(ds[i], id))
  }

  lemma {:induction false} AppliedDelivered(cfg: Config, st: Store, ds: seq<Delivery>, id: string, e: Event)
    requires e in Applied(cfg, st, ds, id) && OfAttempt(e)
    ensures exists i :: 0 <= i < |ds| && ds[i].ev == e && Concerns(ds[i], id)
  {
    var front, last := ds[..|ds| - 1], ds[|ds| - 1];
    if e in Applied(cfg, st, front, id) {
      AppliedDelivered(cfg, st, front, id, e);
      var i :| 0 <= i < |front| && front[i].ev == e && Concerns(front[i], id);
      assert ds[i].ev == e;
    } else {
      assert ds[|ds| - 1].ev == e;
    }
  }

  lemma LaterFollows(es: seq<Event>, e: Event, persist: bool)
    requires OfAttempt(e) && forall a :: a in es && OfAttempt(a) ==> Later(a, e)
    requires e.JobRetrying? ==> exists a :: a in es && OfAttempt(a)
    ensures Follows(es, e, persist)
  {
  }

  lemma AppliedIsEarlier(cfg: Config, st: Store, ds: seq<Delivery>, id: string, k: nat)
    requires InOrder(ds, id) && k < |ds| && Concerns(ds[k], id)
    ensures forall a :: a in Applied(cfg, st, ds[..k], id) && OfAttempt(a) ==> Later(a, ds[k].ev)
  {
    forall a | a in Applied(cfg, st, ds[..k], id) && OfAttempt(a) ensures Later(a, ds[k].ev) {
      AppliedDelivered(cfg, st, ds[..k], id, a);
      var i :| 0 <= i < k && ds[..k][i].ev == a && Concerns(ds[..k][i], id);
      assert Concerns(ds[i], id) && Concerns(ds[k], id);
    }
  }

  /** Each event of an attempt in a history delivered in order is applied. */
  lemma {:induction false} InOrderIsApplied(cfg: Config, st: Store, ds: seq<Delivery>, id: string, k: nat)
    requires id !in st.rows && InOrder(ds, id) && k < |ds| && Concerns(ds[k], id)
    ensures Write(cfg, Run(cfg, st, ds[..k]), ds[k]).Some?
    decreases k
  {
    var front := ds[..k];
    var es := Applied(cfg, st, front, id);
    AppliedIsEarlier(cfg, st, ds, id, k);
    if ds[k].ev.JobRetrying? {
      var i :| 0 <= i < k && Concerns(ds[i], id);
      InOrderIsApplied(cfg, st, ds, id, i);
      assert front[..i] == ds[..i];
      AppliedStays(cfg, st, front, id, i);
    }
    LaterFollows(es, ds[k].ev, Persists(cfg, Run(cfg, st, front), ds[k]));
    AppliedExactly(cfg, st, front, ds[k]);
  }

  lemma {:induction false} AppliedStays(cfg: Config, st: Store, ds: seq<Delivery>, id: string, i: nat)
    requires i < |ds| && ds[i].ev.jobId == id && Write(cfg, Run(cfg, st, ds[..i]), ds[i]).Some?
    ensures ds[i].ev in Applied(cfg, st, ds, id)
  {
    var front := ds[..|ds| - 1];
    if i < |front| {
      assert front[..i] == ds[..i];
      AppliedStays(cfg, st, front, id, i);
    }
  }

  /** So after each of them the row shows its kind, its attempt and its own time, error or result. */
  lemma InOrderIsShown(cfg: Config, st: Store, ds: seq<Delivery>, id: string, k: nat)
    requires id !in st.rows && InOrder(ds, id) && k < |ds| && Concerns(ds[k], id)
    ensures var st', e := Run(cfg, st, ds[..k + 1]), ds[k].ev;
            && id in st'.rows
            && var row := st'.rows[id];
               && row.attempts == e.attempt
               && match e
                  case JobStarted(_, _, at, _, _, _, _, _, _, _, _, _, _, _, _, _) =>
                    row.status == Active && row.startedAt == Some(at) && row.completedAt == None && row.error == None
                  case JobCompleted(_, _, at, _, _, result, _, _, _) =>
                    row.status == Complete && row.completedAt == Some(at) && row.result == result && row.progress == 1.0
                  case JobFailed(_, _, at, _, _, error, _, _, _) =>
                    row.status == Failed && row.completedAt == Some(at) && row.error == Some(error)
                  case JobCancelled(_, _, at, _, _, reason, _, _) =>
                    row.status == Cancelled && row.completedAt == Some(at) && row.error == reason
                  case JobRetrying(_, _, _, _, _, error, _, _) =>
                    row.status == Retrying && row.error == Some(error)
                  case _ => true
  {
    var through := ds[..k + 1];
    InOrderIsApplied(cfg, st, ds, id, k);
    assert through[..k] == ds[..k];
    RowShowsApplied(cfg, st, through, id);
    var es := Applied(cfg, st, through, id);
    LastOfMore(es[..|es| - 1], ds[k].ev, OfAttempt);
    assert es == es[..|es| - 1] + [ds[k].ev];
  }

  /** In particular a job that was started and is to be retried shows so, in whatever state its row was before. */
  lemma StartThenRetryShown(cfg: Config, st: Store, s: Delivery, d: Delivery)
    requires s.ev.JobStarted? && Write(cfg, st, s).Some?
    requires d.ev.JobRetrying? && d.ev.jobId == s.ev.jobId && d.ev.attempt == s.ev.attempt
    ensures var w := Write(cfg, Step(cfg, st, s), d);
            && w.Some? && w.value.status == Retrying && w.value.attempts == d.ev.attempt
            && w.value.error == Some(d.ev.error)
  {
  }

  // ---------------------------------------------------------------------------------------------
  // The throttle's table
  // ---------------------------------------------------------------------------------------------

  /** The entry of a job, if it has one. */
  function EntryOf(table: seq<Entry>, id: string): Option<Entry> {
    if table == [] then None else if table[0].jobId == id then Some(table[0]) else EntryOf(table[1..], id)
  }

  lemma {:induction false} EntryAtIndex(table: seq<Entry>, id: string)
    ensures EntryOf(table, id) == if IndexOf(table, id) < |table| then Some(table[IndexOf(table, id)]) else None
  {
    if table != [] && table[0].jobId != id {
      EntryAtIndex(table[1..], id);
    }
  }

  /** A progress event is held back exactly when its job has an entry from which it differs by less than the minimum
      delta, it is not the end, and the forced interval, if any, has not passed: the minimum interval plays no part. */
  lemma HeldBackExactly(cfg: Config, st: Store, d: Delivery)
    requires d.ev.JobProgress?
    ensures var x := EntryOf(st.table, d.ev.jobId);
            !Persists(cfg, st, d) <==>
            && x.Some? && d.ev.progress < 1.0
            && -cfg.minDelta < d.ev.progress - x.value.progress < cfg.minDelta
            && (cfg.forceIntervalMs > 0 ==> (d.now - x.value.writtenAt) * 1000.0 < cfg.forceIntervalMs as real)
  {
    EntryAtIndex(st.table, d.ev.jobId);
  }

  lemma {:induction false} EntryIn(table: seq<Entry>, id: string)
    ensures EntryOf(table, id).Some? ==> EntryOf(table, id).value in table && EntryOf(table, id).value.jobId == id
    ensures EntryOf(table, id).None? ==> forall x :: x in table ==> x.jobId != id
  {
    if table != [] && table[0].jobId != id {
      EntryIn(table[1..], id);
    }
  }

  lemma {:induction false} EntryJoined(a: seq<Entry>, b: seq<Entry>, id: string)
    ensures EntryOf(a + b, id) == OrElse(EntryOf(a, id), EntryOf(b, id))
  {
    if a == [] {
      assert a + b == b;
    } else {
      EntryJoined(a[1..], b, id);
      assert (a + b)[1..] == a[1..] + b;
    }
  }

  lemma EntryAtPlace(table: seq<Entry>, k: nat, id: string)
    requires k < |table|
    ensures EntryOf(table, id) ==
            OrElse(EntryOf(table[..k], id),
                   if table[k].jobId == id then Some(table[k]) else EntryOf(table[k + 1..], id))
  {
    assert table == table[..k] + table[k..];
    EntryJoined(table[..k], table[k..], id);
    assert table[k..][1..] == table[k + 1..];
  }

  lemma EntriesForgotten(table: seq<Entry>, id: string, other: string)
    requires C.Unique(table)
    ensures EntryOf(Forget(table, id), other) == if other == id then None else EntryOf(table, other)
  {
    C.ForgetKeeps(table, id);
    EntryIn(Forget(table, id), id);
    var k := IndexOf(table, id);
    if k < |table| {
      EntryAtPlace(table, k, other);
      EntryJoined(table[..k], table[k + 1..], other);
    }
  }

  lemma EntriesRemembered(cap: int, table: seq<Entry>, entry: Entry, other: string)
    requires C.Unique(table)
    ensures EntryOf(Remember(cap, table, entry), other) ==
            if other == entry.jobId then Some(entry)
            else if 0 < cap <= |table| && EntryOf(table, entry.jobId).None? && table[0].jobId == other then None
            else EntryOf(table, other)
  {
    var k := IndexOf(table, entry.jobId);
    var t' := Remember(cap, table, entry);
    EntryAtIndex(table, entry.jobId);
    EntryAtIndex(table[..k], entry.jobId);
    if k < |table| {
      EntryAtPlace(table, k, other);
      EntryAtPlace(t', k, other);
      assert t'[..k] == table[..k] && t'[k + 1..] == table[k + 1..];
    } else if 0 < cap <= |table| {
      EntryJoined(table[1..], [entry], other);
      EntryIn(table[1..], table[0].jobId);
    } else {
      EntryJoined(table, [entry], other);
    }
  }

  /** One delivery and the entry of any job: a written start or progress event sets its own job's, a written outcome and
      a progress event that finds its job ended remove it; another job's entry goes only when it is the oldest of a full
      table and a job without an entry is written. */
  lemma EntryAfterStep(cfg: Config, st: Store, d: Delivery, id: string)
    requires C.Unique(st.table)
    ensures var own, wrote := d.ev.jobId == id, Write(cfg, st, d).Some?;
            var sets := wrote && (d.ev.JobStarted? || d.ev.JobProgress?);
            var drops := (wrote && C.IsOutcome(d.ev))
                         || (d.ev.JobProgress? && !wrote && Persists(cfg, st, d) && d.ev.jobId in st.rows);
            var full := 0 < cfg.maxEntries <= |st.table| && EntryOf(st.table, d.ev.jobId).None?;
            EntryOf(Step(cfg, st, d).table, id) ==
            if own && sets then Some(Entry(id, if d.ev.JobStarted? then 0.0 else d.ev.progress, d.now))
            else if own && drops then None
            else if sets && full && st.table[0].jobId == id then None
            else EntryOf(st.table, id)
  {
    var p := if d.ev.JobProgress? then d.ev.progress else 0.0;
    EntriesRemembered(cfg.maxEntries, st.table, Entry(d.ev.jobId, p, d.now), id);
    EntriesForgotten(st.table, d.ev.jobId, id);
  }

  /** Entries stand in the order in which their jobs entered, so that the first is the oldest. */
  predicate InFrontOf(table: seq<Entry>, a: string, b: string) {
    exists i, j :: 0 <= i < j < |table| && table[i].jobId == a && table[j].jobId == b
  }

  lemma InFrontAt(table: seq<Entry>, i: nat, j: nat, a: string, b: string)
    requires i < j < |table| && table[i].jobId == a && table[j].jobId == b
    ensures InFrontOf(table, a, b)
  {
  }

  lemma RemovedInOrder(table: seq<Entry>, k: nat, a: string, b: string)
    requires k < |table| && table[k].jobId != a && table[k].jobId != b
    ensures InFrontOf(table[..k] + table[k + 1..], a, b) <==> InFrontOf(table, a, b)
  {
    var f := table[..k] + table[k + 1..];
    assert forall i :: 0 <= i < |f| ==> f[i] == table[if i < k then i else i + 1];
    if i, j :| 0 <= i < j < |table| && table[i].jobId == a && table[j].jobId == b {
      InFrontAt(f, if i < k then i else i - 1, if j < k then j else j - 1, a, b);
    }
    if i, j :| 0 <= i < j < |f| && f[i].jobId == a && f[j].jobId == b {
      InFrontAt(table, if i < k then i else i + 1, if j < k then j else j + 1, a, b);
    }
  }

  /** Dropping an entry leaves the others in order. */
  lemma ForgottenInOrder(table: seq<Entry>, id: string, a: string, b: string)
    requires a != id && b != id
    ensures InFrontOf(Forget(table, id), a, b) <==> InFrontOf(table, a, b)
  {
    if IndexOf(table, id) < |table| {
      RemovedInOrder(table, IndexOf(table, id), a, b);
    }
  }

  lemma ReplacedInOrder(table: seq<Entry>, k: nat, entry: Entry, a: string, b: string)
    requires k < |table| && table[k].jobId == entry.jobId
    ensures InFrontOf(table[k := entry], a, b) <==> InFrontOf(table, a, b)
  {
    assert forall i :: 0 <= i < |table| ==> table[k := entry][i].jobId == table[i].jobId;
  }

  lemma AppendedInOrder(table: seq<Entry>, entry: Entry, a: string, b: string)
    requires EntryOf(table, entry.jobId).None?
    ensures InFrontOf(table + [entry], a, b) <==>
            if b == entry.jobId then EntryOf(table, a).Some? else InFrontOf(table, a, b)
  {
    var t' := table + [entry];
    EntryIn(table, entry.jobId);
    EntryIn(table, a);
    if i, j :| 0 <= i < j < |table| && table[i].jobId == a && table[j].jobId == b {
      InFrontAt(t', i, j, a, b);
    }
    if b == entry.jobId && EntryOf(table, a).Some? {
      var i :| 0 <= i < |table| && table[i] == EntryOf(table, a).value;
      InFrontAt(t', i, |table|, a, b);
    }
  }

  /** A job already in the table keeps its place; another enters behind all that stay, and at the cap the first goes. */
  lemma RememberedInOrder(cap: int, table: seq<Entry>, entry: Entry, a: string, b: string)
    requires C.Unique(table)
    ensures var t', tracked := Remember(cap, table, entry), EntryOf(table, entry.jobId).Some?;
            var stay := if !tracked && 0 < cap <= |table| then table[1..] else table;
            InFrontOf(t', a, b) <==>
            if !tracked && b == entry.jobId then EntryOf(stay, a).Some? else InFrontOf(stay, a, b)
  {
    var k := IndexOf(table, entry.jobId);
    EntryAtIndex(table, entry.jobId);
    EntryIn(table, entry.jobId);
    if k < |table| {
      ReplacedInOrder(table, k, entry, a, b);
    } else if 0 < cap <= |table| {
      EntryIn(table[1..], entry.jobId);
      AppendedInOrder(table[1..], entry, a, b);
    } else {
      AppendedInOrder(table, entry, a, b);
    }
  }
}
