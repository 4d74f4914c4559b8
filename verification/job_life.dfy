/** From the processor to the stored row: the lifecycle events that the deliveries of one job give rise to, and what
    the row shows of the job's end, whatever the event transport does to their order and number. */
module JobLife {
  import opened Options
  import opened Lifecycle
  import C = Convergence
  import I = Intake
  import P = Processing

  /** One delivery of the job to a processor, with the events published while it is processed. */
  datatype Emission = Emission(d: P.Delivery, events: seq<Event>)

  /** The names a job carries; none of them is ever empty. */
  predicate Labelled(e: Event, id: string) {
    && e.jobId == id != "" && e.rootId != ""
    && !e.JobProgress? && !e.JobCheckpoint? && e.function_ != "" && e.functionName != ""
  }

  predicate IsStart(e: Event, id: string, attempt: nat) {
    && Labelled(e, id) && e.JobStarted? && e.attempt == attempt && e.jobKey != ""
    && (e.queueWaitMs.Some? ==> e.queueWaitMs.value >= 0.0)
  }

  predicate IsCancellation(e: Event, id: string, attempt: nat) {
    Labelled(e, id) && e.JobCancelled? && e.attempt == attempt
  }

  predicate IsCompletion(e: Event, id: string, attempt: nat, elapsed: real) {
    Labelled(e, id) && e.JobCompleted? && e.attempt == attempt && e.durationMs == Some(elapsed)
  }

  /** A failed run is announced as retrying while retries are left, and as failed after the last, with the text of
      its error. */
  predicate IsFailureReport(e: Event, p: P.Policy, id: string, attempt: nat, text: string) {
    && Labelled(e, id)
    && (if attempt <= p.retries then e.JobRetrying? else e.JobFailed?)
    && e.attempt == attempt && e.error == text
  }

  function TimeoutText(id: string, limit: string): string { "Job " + id + " timed out after " + limit + "s" }

  /** What is published for a delivery, accepted or not: nothing for a paused job nor for one whose task is unknown. */
  predicate Publishes(p: P.Policy, id: string, cron: bool, attempts: nat, x: Emission) {
    var d, events, n := x.d, x.events, attempts + 1;
    if d.cancelled then |events| == 1 && IsCancellation(events[0], id, attempts)
    else if d.paused || d.policy.None? then events == []
    else
      && events != [] && IsStart(events[0], id, n)
      && match d.verdict
         case Returns(_, elapsed) =>
           && |events| >= 2 && IsCompletion(events[1], id, n, elapsed)
           && (if cron && d.rescheduleError.Some? then
                 |events| == 3 && IsFailureReport(events[2], p, id, n, d.rescheduleError.value)
               else |events| == 2)
         case Raises(error) => |events| == 2 && IsFailureReport(events[1], p, id, n, error)
         case TimesOut(limit) => |events| == 2 && IsFailureReport(events[1], p, id, n, TimeoutText(id, limit))
         case Stopped(_) => |events| == 2 && IsCancellation(events[1], id, n)
         case Escapes => |events| == 1
  }

  function Deliveries(xs: seq<Emission>): (ds: seq<P.Delivery>)
    ensures |ds| == |xs|
  {
    if xs == [] then [] else Deliveries(xs[..|xs| - 1]) + [xs[|xs| - 1].d]
  }

  function Story(xs: seq<Emission>): seq<Event> {
    if xs == [] then [] else Story(xs[..|xs| - 1]) + xs[|xs| - 1].events
  }

  /** A life of the job, from its first delivery on, with what it published. */
  predicate Told(p: P.Policy, id: string, cron: bool, xs: seq<Emission>) {
    && P.IsLife(p, cron, Deliveries(xs))
    && (xs != [] ==>
          && Told(p, id, cron, xs[..|xs| - 1])
          && Publishes(p, id, cron, P.AttemptsAt(Deliveries(xs[..|xs| - 1])), xs[|xs| - 1]))
  }

  function Stamp(e: Event): Time {
    if e.JobStarted? then e.startedAt
    else if e.JobRetrying? then e.retryAt
    else if C.IsOutcome(e) then C.At(e)
    else 0
  }

  ghost predicate StampedInOrder(events: seq<Event>) {
    forall i, j :: 0 <= i < j < |events| ==> Stamp(events[i]) <= Stamp(events[j])
  }

  /** An event that does not end the job for good: a start, a retry, or the success of a recurring job. */
  predicate LeavesOpen(e: Event) { e.JobStarted? || e.JobRetrying? || e.JobCompleted? }

  predicate InLife(e: Event, id: string, attempts: nat) {
    (LeavesOpen(e) || e.JobFailed? || e.JobCancelled?) && e.jobId == id && e.attempt <= attempts
  }

  lemma {:induction false} DeliveriesFront(xs: seq<Emission>)
    requires xs != []
    ensures var ds := Deliveries(xs);
            ds[..|ds| - 1] == Deliveries(xs[..|xs| - 1]) && ds[|ds| - 1] == xs[|xs| - 1].d
  {
  }

  lemma {:induction false} LastEvents(p: P.Policy, id: string, cron: bool, attempts: nat, x: Emission)
    requires Publishes(p, id, cron, attempts, x) && (x.d.policy.None? || x.d.policy.value == p)
    ensures forall e :: e in x.events ==> InLife(e, id, P.AttemptsAfter(attempts, x.d))
    ensures forall i :: 0 <= i < |x.events| - 1 ==> LeavesOpen(x.events[i])
    ensures x.events != [] ==> x.events[|x.events| - 1].attempt == P.AttemptsAfter(attempts, x.d)
    ensures P.Requeues(P.Actions(attempts, cron, x.d)) ==> forall e :: e in x.events ==> LeavesOpen(e)
  {
  }

  lemma {:induction false} StoryIsOpen(p: P.Policy, id: string, cron: bool, xs: seq<Emission>)
    requires Told(p, id, cron, xs)
    ensures forall e :: e in Story(xs) ==> InLife(e, id, P.AttemptsAt(Deliveries(xs)))
    ensures xs != [] && P.Requeues(P.ActionsAt(cron, Deliveries(xs))) ==> forall e :: e in Story(xs) ==> LeavesOpen(e)
  {
    if xs != [] {
      var before := xs[..|xs| - 1];
      StoryIsOpen(p, id, cron, before);
      DeliveriesFront(xs);
      LastEvents(p, id, cron, P.AttemptsAt(Deliveries(before)), xs[|xs| - 1]);
    }
  }

  /** Everything published before the last event of a life is open, belongs to no later attempt, and yields to a
      later-stamped outcome. */
  lemma {:induction false} EarlierEventYields(e: Event, t: Event, id: string)
    requires C.IsOutcome(t) && t.jobId == id
    requires LeavesOpen(e) && InLife(e, id, t.attempt) && Stamp(e) <= Stamp(t) && e != t
    requires e.JobCompleted? && t.JobCompleted? ==> e.attempt < t.attempt
    ensures C.YieldsTo(e, t) <==> (C.IsOutcome(e) ==> C.At(e) < C.At(t))
  {
  }

  /** What was published before the last event of the life. */
  function Before(xs: seq<Emission>): seq<Event>
    requires xs != [] && xs[|xs| - 1].events != []
  {
    var events := xs[|xs| - 1].events;
    Story(xs[..|xs| - 1]) + events[..|events| - 1]
  }

  lemma {:induction false} BeforeAndLast(xs: seq<Emission>)
    requires xs != [] && xs[|xs| - 1].events != []
    ensures var events := xs[|xs| - 1].events; Story(xs) == Before(xs) + [events[|events| - 1]]
  {
    var events := xs[|xs| - 1].events;
    assert events == events[..|events| - 1] + [events[|events| - 1]];
  }

  /** A life that ends with the outcome `t`: its story up to there is open. */
  ghost predicate EndsIn(p: P.Policy, id: string, cron: bool, xs: seq<Emission>, t: Event) {
    && Told(p, id, cron, xs) && xs != [] && xs[|xs| - 1].events != []
    && t == xs[|xs| - 1].events[|xs[|xs| - 1].events| - 1]
    && C.IsOutcome(t)
  }

  lemma {:induction false} LastDelivery(p: P.Policy, id: string, cron: bool, attempts: nat, x: Emission, t: Event)
    requires Publishes(p, id, cron, attempts, x) && x.events != [] && t == x.events[|x.events| - 1]
    ensures t.jobId == id && C.AttemptOf(t) >= attempts
    ensures t.JobCompleted? ==> C.AttemptOf(t) == attempts + 1
    ensures forall e :: e in x.events[..|x.events| - 1] ==>
              LeavesOpen(e) && InLife(e, id, C.AttemptOf(t)) && !(e.JobCompleted? && t.JobCompleted?)
  {
    var front := x.events[..|x.events| - 1];
    forall e | e in front
      ensures LeavesOpen(e) && InLife(e, id, C.AttemptOf(t)) && !(e.JobCompleted? && t.JobCompleted?)
    {
      var i :| 0 <= i < |front| && front[i] == e;
      assert e == x.events[i];
    }
  }

  lemma {:induction false} EarlierDeliveriesOpen(p: P.Policy, id: string, cron: bool, xs: seq<Emission>)
    requires Told(p, id, cron, xs)
    ensures xs != [] ==>
              forall e :: e in Story(xs[..|xs| - 1]) ==>
                LeavesOpen(e) && InLife(e, id, P.AttemptsAt(Deliveries(xs[..|xs| - 1])))
  {
    if xs != [] {
      DeliveriesFront(xs);
      StoryIsOpen(p, id, cron, xs[..|xs| - 1]);
    }
  }

  lemma {:induction false} BeforeIsOpen(p: P.Policy, id: string, cron: bool, xs: seq<Emission>, t: Event)
    requires EndsIn(p, id, cron, xs, t)
    ensures t.jobId == id
    ensures forall e :: e in Before(xs) ==> LeavesOpen(e) && InLife(e, id, t.attempt)
    ensures t.JobCompleted? ==> forall e :: e in Before(xs) && e.JobCompleted? ==> e.attempt < t.attempt
  {
    var before, last := xs[..|xs| - 1], xs[|xs| - 1];
    EarlierDeliveriesOpen(p, id, cron, xs);
    LastDelivery(p, id, cron, P.AttemptsAt(Deliveries(before)), last, t);
    assert forall e :: e in Before(xs) ==> e in Story(before) || e in last.events[..|last.events| - 1];
  }

  lemma {:induction false} BeforeIsEarlier(xs: seq<Emission>, e: Event, t: Event)
    requires xs != [] && xs[|xs| - 1].events != [] && t == xs[|xs| - 1].events[|xs[|xs| - 1].events| - 1]
    requires StampedInOrder(Story(xs)) && e in Before(xs)
    ensures Stamp(e) <= Stamp(t)
  {
    BeforeAndLast(xs);
    var i :| 0 <= i < |Before(xs)| && Before(xs)[i] == e;
    assert Story(xs)[i] == e && Story(xs)[|Before(xs)|] == t;
  }

  function EventsTold(xs: seq<Emission>): set<Event> { set e | e in Story(xs) }

  ghost predicate Besides(extra: set<Event>, id: string) {
    forall e :: e in extra ==> e.jobId == id && (e.JobProgress? || e.JobCheckpoint?)
  }

  lemma {:induction false} EarlierTold(p: P.Policy, id: string, cron: bool, xs: seq<Emission>, t: Event, e: Event)
    requires EndsIn(p, id, cron, xs, t) && StampedInOrder(Story(xs)) && e in EventsTold(xs) && e != t
    ensures e.jobId == id == t.jobId && C.AttemptOf(e) <= t.attempt
    ensures C.YieldsTo(e, t) <==> (C.IsOutcome(e) ==> C.At(e) < C.At(t))
  {
    BeforeAndLast(xs);
    BeforeIsOpen(p, id, cron, xs, t);
    assert e in Before(xs);
    BeforeIsEarlier(xs, e, t);
    EarlierEventYields(e, t, id);
  }

  lemma {:induction false} LastTold(p: P.Policy, id: string, cron: bool, xs: seq<Emission>, t: Event)
    requires EndsIn(p, id, cron, xs, t)
    ensures t in EventsTold(xs) && t.jobId == id && C.YieldsTo(t, t)
  {
    BeforeAndLast(xs);
    BeforeIsOpen(p, id, cron, xs, t);
    assert Story(xs)[|Before(xs)|] == t;
  }

  /** The outcome a life ended with is stored, for every order, duplication and mixture with other events in which it
      arrives, exactly when it is accepted and every earlier accepted success of the job bears an earlier stamp. */
  lemma {:induction false} LifeStoredExactly(cfg: Config, p: P.Policy, id: string, cron: bool, xs: seq<Emission>,
                                             extra: set<Event>, t: Event)
    requires EndsIn(p, id, cron, xs, t) && StampedInOrder(Story(xs)) && Besides(extra, id)
    ensures I.Stores(cfg, EventsTold(xs) + extra, t) <==>
            && I.Accepted(t)
            && forall e :: e in EventsTold(xs) && e != t && C.IsOutcome(e) && I.Accepted(e) ==> C.At(e) < C.At(t)
  {
    LastTold(p, id, cron, xs, t);
    forall e | e in EventsTold(xs) && e != t
      ensures e.jobId == id && C.AttemptOf(e) <= t.attempt
      ensures C.YieldsTo(e, t) <==> (C.IsOutcome(e) ==> C.At(e) < C.At(t))
    {
      EarlierTold(p, id, cron, xs, t, e);
    }
    I.StoresExactly(cfg, EventsTold(xs) + extra, t);
  }

  // ---------------------------------------------------------------------------------------------
  // How a job ends, and whether anyone hears of it
  // ---------------------------------------------------------------------------------------------

  /** The life is over: the last delivery finished the job and did not put it back. */
  predicate Over(p: P.Policy, id: string, cron: bool, xs: seq<Emission>) {
    && Told(p, id, cron, xs) && xs != []
    && !P.Unsettled(xs[|xs| - 1].d) && !P.Requeues(P.ActionsAt(cron, Deliveries(xs)))
  }

  /** The status the job is finished with on the queue. */
  function FinalStatus(actions: seq<P.Action>): Status {
    if actions != [] && actions[|actions| - 1].Completed? then Complete
    else if actions != [] && (actions[|actions| - 1].FailedForGood? || actions[|actions| - 1].UnknownTask?) then Failed
    else Cancelled
  }

  /** Whether the end of a job is published in an event that its contract accepts. It is not for a job cancelled
      before its first run, whose event carries attempt 0; for an unknown task, which says nothing; for an error
      without a text; and for a success whose wall clock ran backwards. */
  predicate Announced(cron: bool, attempts: nat, d: P.Delivery) {
    if d.cancelled then attempts >= 1
    else if d.policy.None? then false
    else
      match d.verdict
      case Returns(_, elapsed) =>
        if cron && d.rescheduleError.Some? then d.rescheduleError.value != "" else elapsed >= 0.0
      case Raises(error) => error != ""
      case TimesOut(_) => true
      case Stopped(_) => true
      case Escapes => false
  }

  /** Outcomes of one job are never stamped alike. */
  ghost predicate OutcomesApart(events: seq<Event>) {
    forall i, j :: 0 <= i < j < |events| && C.IsOutcome(events[i]) && C.IsOutcome(events[j]) ==>
      Stamp(events[i]) < Stamp(events[j])
  }

  lemma {:induction false} EndOfDelivery(p: P.Policy, id: string, cron: bool, attempts: nat, x: Emission)
    requires Publishes(p, id, cron, attempts, x) && (x.d.policy.None? || x.d.policy.value == p)
    requires !P.Requeues(P.Actions(attempts, cron, x.d))
    ensures var n, status := P.AttemptsAfter(attempts, x.d), FinalStatus(P.Actions(attempts, cron, x.d));
            if Announced(cron, attempts, x.d) then
              && x.events != []
              && var t := x.events[|x.events| - 1];
                 C.IsOutcome(t) && I.Accepted(t) && C.OutcomeOf(t).status == status && t.attempt == n
            else forall e :: e in x.events && I.Accepted(e) && C.IsOutcome(e) ==> C.OutcomeOf(e).status != status
  {
  }

  lemma {:induction false} EarlierOutcomesApart(xs: seq<Emission>, e: Event, t: Event)
    requires xs != [] && xs[|xs| - 1].events != [] && t == xs[|xs| - 1].events[|xs[|xs| - 1].events| - 1]
    requires OutcomesApart(Story(xs)) && e in EventsTold(xs) && e != t && C.IsOutcome(e) && C.IsOutcome(t)
    ensures C.At(e) < C.At(t)
  {
    BeforeAndLast(xs);
    var i :| 0 <= i < |Story(xs)| && Story(xs)[i] == e;
    assert Story(xs)[|Before(xs)|] == t;
  }

  lemma {:induction false} AnnouncedIsStored(cfg: Config, p: P.Policy, id: string, cron: bool, xs: seq<Emission>,
                                             extra: set<Event>)
    requires Over(p, id, cron, xs) && StampedInOrder(Story(xs)) && OutcomesApart(Story(xs)) && Besides(extra, id)
    requires Announced(cron, P.AttemptsAt(Deliveries(xs[..|xs| - 1])), xs[|xs| - 1].d)
    ensures I.StoredAs(cfg, EventsTold(xs) + extra, id, FinalStatus(P.ActionsAt(cron, Deliveries(xs))),
                       P.AttemptsAt(Deliveries(xs)))
  {
    var before, last := xs[..|xs| - 1], xs[|xs| - 1];
    DeliveriesFront(xs);
    EndOfDelivery(p, id, cron, P.AttemptsAt(Deliveries(before)), last);
    var t := last.events[|last.events| - 1];
    LifeStoredExactly(cfg, p, id, cron, xs, extra, t);
    forall e | e in EventsTold(xs) && e != t && C.IsOutcome(e) && I.Accepted(e) ensures C.At(e) < C.At(t) {
      EarlierOutcomesApart(xs, e, t);
    }
    BeforeAndLast(xs);
    BeforeIsOpen(p, id, cron, xs, t);
    assert t in Story(xs);
    I.StoredWhenStores(cfg, EventsTold(xs) + extra, t);
  }

  lemma {:induction false} UnannouncedIsUnmatched(p: P.Policy, id: string, cron: bool, xs: seq<Emission>, e: Event)
    requires Over(p, id, cron, xs) && e in Story(xs)
    requires !Announced(cron, P.AttemptsAt(Deliveries(xs[..|xs| - 1])), xs[|xs| - 1].d)
    requires I.Accepted(e) && C.IsOutcome(e)
    ensures e.jobId == id
    ensures !(C.OutcomeOf(e).status == FinalStatus(P.ActionsAt(cron, Deliveries(xs)))
              && e.attempt == P.AttemptsAt(Deliveries(xs)))
  {
    var before, last := xs[..|xs| - 1], xs[|xs| - 1];
    DeliveriesFront(xs);
    StoryIsOpen(p, id, cron, before);
    StoryIsOpen(p, id, cron, xs);
    EndOfDelivery(p, id, cron, P.AttemptsAt(Deliveries(before)), last);
  }

  /** Once everything published for a finished job has been delivered, in whatever order and however often, its row
      shows the status and the attempts the job was finished with, exactly when the end was announced acceptably. */
  lemma {:induction false} LifeStoredAs(cfg: Config, p: P.Policy, id: string, cron: bool, xs: seq<Emission>,
                                        extra: set<Event>)
    requires Over(p, id, cron, xs) && StampedInOrder(Story(xs)) && OutcomesApart(Story(xs)) && Besides(extra, id)
    ensures I.StoredAs(cfg, EventsTold(xs) + extra, id, FinalStatus(P.ActionsAt(cron, Deliveries(xs))),
                       P.AttemptsAt(Deliveries(xs)))
            <==> Announced(cron, P.AttemptsAt(Deliveries(xs[..|xs| - 1])), xs[|xs| - 1].d)
  {
    if Announced(cron, P.AttemptsAt(Deliveries(xs[..|xs| - 1])), xs[|xs| - 1].d) {
      AnnouncedIsStored(cfg, p, id, cron, xs, extra);
    } else {
      var published := EventsTold(xs) + extra;
      StoryIsOpen(p, id, cron, xs);
      forall e | e in published && I.Accepted(e) && C.IsOutcome(e)
        ensures !(C.OutcomeOf(e).status == FinalStatus(P.ActionsAt(cron, Deliveries(xs)))
                  && e.attempt == P.AttemptsAt(Deliveries(xs)))
      {
        UnannouncedIsUnmatched(p, id, cron, xs, e);
      }
      I.NotStoredUnannounced(cfg, published, id, FinalStatus(P.ActionsAt(cron, Deliveries(xs))),
                             P.AttemptsAt(Deliveries(xs)));
    }
  }

  /** The same of one delivery sequence: all that was published for the job, each event at least once. */
  lemma {:induction false} LifeShownExactly(cfg: Config, p: P.Policy, id: string, cron: bool, xs: seq<Emission>,
                                            extra: set<Event>, st: Store, ds: seq<Delivery>)
    requires Over(p, id, cron, xs) && StampedInOrder(Story(xs)) && OutcomesApart(Story(xs)) && Besides(extra, id)
    requires id !in st.rows && I.Drawn(ds, EventsTold(xs) + extra, id) && I.AllDelivered(ds, EventsTold(xs) + extra)
    ensures I.Shows(I.Ingested(cfg, st, ds), id, FinalStatus(P.ActionsAt(cron, Deliveries(xs))),
                    P.AttemptsAt(Deliveries(xs)))
            <==> Announced(cron, P.AttemptsAt(Deliveries(xs[..|xs| - 1])), xs[|xs| - 1].d)
  {
    var published := EventsTold(xs) + extra;
    var status, attempts := FinalStatus(P.ActionsAt(cron, Deliveries(xs))), P.AttemptsAt(Deliveries(xs));
    if Announced(cron, P.AttemptsAt(Deliveries(xs[..|xs| - 1])), xs[|xs| - 1].d) {
      AnnouncedIsStored(cfg, p, id, cron, xs, extra);
    } else {
      forall e | e in published && I.Accepted(e) && C.IsOutcome(e)
        ensures !(C.OutcomeOf(e).status == status && e.attempt == attempts)
      {
        UnannouncedIsUnmatched(p, id, cron, xs, e);
      }
      I.UnannouncedIsNotShown(cfg, published, id, status, attempts, st, ds);
    }
  }

  // ---------------------------------------------------------------------------------------------
  // Lives without a failed rescheduling
  // ---------------------------------------------------------------------------------------------

  predicate Ordinary(cron: bool, xs: seq<Emission>) { forall x :: x in xs ==> !P.RescheduleFails(cron, x.d) }

  lemma {:induction false} NoOutcomeWhenRequeued(p: P.Policy, id: string, cron: bool, attempts: nat, x: Emission)
    requires Publishes(p, id, cron, attempts, x) && (x.d.policy.None? || x.d.policy.value == p)
    requires !P.RescheduleFails(cron, x.d) && P.Requeues(P.Actions(attempts, cron, x.d))
    ensures forall e :: e in x.events ==> !C.IsOutcome(e)
  {
  }

  lemma {:induction false} NoSuccessBeforeRequeue(p: P.Policy, id: string, cron: bool, xs: seq<Emission>)
    requires Told(p, id, cron, xs) && Ordinary(cron, xs)
    requires xs != [] ==> P.Requeues(P.ActionsAt(cron, Deliveries(xs)))
    ensures forall e :: e in Story(xs) ==> !C.IsOutcome(e)
  {
    if xs != [] {
      var before, last := xs[..|xs| - 1], xs[|xs| - 1];
      DeliveriesFront(xs);
      if |xs| == 1 {
        assert before == [];
      }
      NoSuccessBeforeRequeue(p, id, cron, before);
      assert last in xs;
      NoOutcomeWhenRequeued(p, id, cron, P.AttemptsAt(Deliveries(before)), last);
    }
  }

  lemma {:induction false} LastAloneIsOutcome(p: P.Policy, id: string, cron: bool, attempts: nat, x: Emission)
    requires Publishes(p, id, cron, attempts, x) && (x.d.policy.None? || x.d.policy.value == p)
    requires !P.RescheduleFails(cron, x.d)
    ensures forall i :: 0 <= i < |x.events| - 1 ==> !C.IsOutcome(x.events[i])
    ensures !Announced(cron, attempts, x.d) ==> forall e :: e in x.events && C.IsOutcome(e) ==> !I.Accepted(e)
  {
  }

  lemma {:induction false} OneOutcomeAtMost(p: P.Policy, id: string, cron: bool, xs: seq<Emission>)
    requires Over(p, id, cron, xs) && Ordinary(cron, xs)
    ensures OutcomesApart(Story(xs))
    ensures !Announced(cron, P.AttemptsAt(Deliveries(xs[..|xs| - 1])), xs[|xs| - 1].d) ==>
              forall e :: e in Story(xs) && C.IsOutcome(e) ==> !I.Accepted(e)
  {
    var before, last := xs[..|xs| - 1], xs[|xs| - 1];
    DeliveriesFront(xs);
    NoSuccessBeforeRequeue(p, id, cron, before);
    assert last in xs;
    LastAloneIsOutcome(p, id, cron, P.AttemptsAt(Deliveries(before)), last);
    var n := |Story(before)|;
    forall i | 0 <= i < |Story(xs)| - 1 ensures !C.IsOutcome(Story(xs)[i]) {
      assert Story(xs)[i] == if i < n then Story(before)[i] else last.events[i - n];
      assert i < n ==> Story(before)[i] in Story(before);
    }
  }

  /** Of a job that was never left unscheduled: the row shows its end exactly when the end was announced acceptably,
      and otherwise it never shows any outcome at all. */
  lemma {:induction false} OrdinaryLifeStoredAs(cfg: Config, p: P.Policy, id: string, cron: bool, xs: seq<Emission>,
                                                extra: set<Event>)
    requires Over(p, id, cron, xs) && Ordinary(cron, xs) && StampedInOrder(Story(xs)) && Besides(extra, id)
    ensures var announced := Announced(cron, P.AttemptsAt(Deliveries(xs[..|xs| - 1])), xs[|xs| - 1].d);
            var status, attempts := FinalStatus(P.ActionsAt(cron, Deliveries(xs))), P.AttemptsAt(Deliveries(xs));
            && (I.StoredAs(cfg, EventsTold(xs) + extra, id, status, attempts) <==> announced)
            && (I.NeverEnds(cfg, EventsTold(xs) + extra, id) <==> !announced)
  {
    OneOutcomeAtMost(p, id, cron, xs);
    LifeStoredAs(cfg, p, id, cron, xs, extra);
    StoryIsOpen(p, id, cron, xs);
    I.NeverEndsExactly(cfg, EventsTold(xs) + extra, id);
    var before, last := xs[..|xs| - 1], xs[|xs| - 1];
    DeliveriesFront(xs);
    EndOfDelivery(p, id, cron, P.AttemptsAt(Deliveries(before)), last);
    if Announced(cron, P.AttemptsAt(Deliveries(before)), last.d) {
      assert last.events[|last.events| - 1] in Story(xs);
    }
  }

  /** A job that raises in its last permitted run is stored as failed exactly when the exception has a text. */
  lemma {:induction false} FinalFailureStored(cfg: Config, p: P.Policy, id: string, cron: bool, xs: seq<Emission>,
                                              extra: set<Event>)
    requires Over(p, id, cron, xs) && Ordinary(cron, xs) && StampedInOrder(Story(xs)) && Besides(extra, id)
    requires P.Executes(xs[|xs| - 1].d) && xs[|xs| - 1].d.verdict.Raises?
    ensures P.AttemptsAt(Deliveries(xs)) == p.retries + 1
    ensures I.StoredAs(cfg, EventsTold(xs) + extra, id, Failed, p.retries + 1) <==> xs[|xs| - 1].d.verdict.error != ""
    ensures I.NeverEnds(cfg, EventsTold(xs) + extra, id) <==> xs[|xs| - 1].d.verdict.error == ""
  {
    DeliveriesFront(xs);
    P.RequeuedWithinRetries(p, cron, Deliveries(xs));
    OrdinaryLifeStoredAs(cfg, p, id, cron, xs, extra);
  }

  // ---------------------------------------------------------------------------------------------
  // A job that fails without a word
  // ---------------------------------------------------------------------------------------------

  const ONE_RUN := P.Policy(0, 1.0, 2.0)
  const STARTED :=
    JobStarted("job", 1, 1, 0, "job", "f", "f", "{}", TaskSource, None, None, None, None, None, None, "job")

  /** One permitted run, which raises with the given text. */
  function FailingRun(error: string): Emission {
    Emission(P.Delivery(false, false, Some(ONE_RUN), P.Raises(error), None),
             [STARTED, JobFailed("job", 1, 2, "f", "f", error, 0, None, "job")])
  }

  lemma {:induction false} OneEmission(x: Emission)
    ensures Deliveries([x]) == [x.d] && Deliveries([x])[..0] == [] && Story([x]) == x.events
    ensures Deliveries([x][..0]) == []
  {
    assert [x][..0] == [];
    assert Story([]) == [] && Deliveries([]) == [];
  }

  lemma {:induction false} OneEmissionTold(p: P.Policy, id: string, cron: bool, x: Emission)
    requires Publishes(p, id, cron, 0, x) && (x.d.policy.None? || x.d.policy.value == p)
    ensures Told(p, id, cron, [x])
  {
    OneEmission(x);
    assert P.AttemptsAt([]) == 0 && Told(p, id, cron, [x][..0]);
  }

  lemma {:induction false} FailingRunPublishes(error: string)
    ensures Publishes(ONE_RUN, "job", false, 0, FailingRun(error))
  {
    assert IsStart(STARTED, "job", 1);
    assert IsFailureReport(FailingRun(error).events[1], ONE_RUN, "job", 1, error);
  }

  lemma {:induction false} FailingRunIsLife(error: string)
    ensures Told(ONE_RUN, "job", false, [FailingRun(error)])
  {
    FailingRunPublishes(error);
    OneEmissionTold(ONE_RUN, "job", false, FailingRun(error));
  }

  lemma {:induction false} FailingRunIsOver(error: string)
    ensures Over(ONE_RUN, "job", false, [FailingRun(error)])
    ensures P.ActionsAt(false, Deliveries([FailingRun(error)])) == [P.FailedForGood]
  {
    FailingRunIsLife(error);
    OneEmission(FailingRun(error));
  }

  /** With an empty text, both events delivered in order leave the row active; with any other, failed. */
  lemma {:induction false} SilentFailureStaysActive(cfg: Config, error: string)
    ensures var xs := [FailingRun(error)];
            var ds := [Delivery(xs[0].events[0], 0.0), Delivery(xs[0].events[1], 1.0)];
            var rows := I.Ingested(cfg, Store(map[], []), ds).rows;
            && P.ActionsAt(false, Deliveries(xs)) == [P.FailedForGood]
            && "job" in rows && rows["job"].status == if error == "" then Active else Failed
  {
    var xs := [FailingRun(error)];
    var a, b := Delivery(xs[0].events[0], 0.0), Delivery(xs[0].events[1], 1.0);
    var empty := Store(map[], []);
    FailingRunIsOver(error);
    I.AdmittedOne(a);
    assert [a, b][..1] == [a] && [a][..0] == [];
    assert I.Admitted([a, b]) == if error == "" then [a] else [a] + [b];
    assert Run(cfg, empty, [a]) == Step(cfg, empty, a);
    C.RunOfTwo(cfg, empty, a, b);
    assert [a] + [b] == [a, b];
  }

  /** The task turned out unknown: the job is finished as failed, and its row never shows an outcome. */
  lemma {:induction false} UnknownTaskNeverEnds(cfg: Config, p: P.Policy, id: string, cron: bool, xs: seq<Emission>,
                                                extra: set<Event>)
    requires Over(p, id, cron, xs) && Ordinary(cron, xs) && StampedInOrder(Story(xs)) && Besides(extra, id)
    requires P.EndsUnknown(Deliveries(xs))
    ensures P.ActionsAt(cron, Deliveries(xs)) == [P.UnknownTask]
    ensures I.NeverEnds(cfg, EventsTold(xs) + extra, id)
  {
    DeliveriesFront(xs);
    OrdinaryLifeStoredAs(cfg, p, id, cron, xs, extra);
  }

  lemma {:induction false} OnlyStartEscapes(p: P.Policy, id: string, cron: bool, attempts: nat, x: Emission)
    requires Publishes(p, id, cron, attempts, x) && P.Unsettled(x.d)
    ensures P.Actions(attempts, cron, x.d) == []
    ensures forall e :: e in x.events ==> !C.IsOutcome(e)
  {
  }

  lemma {:induction false} EscapedIsSilent(p: P.Policy, id: string, cron: bool, xs: seq<Emission>)
    requires Told(p, id, cron, xs) && xs != [] && P.Unsettled(xs[|xs| - 1].d) && Ordinary(cron, xs)
    ensures P.ActionsAt(cron, Deliveries(xs)) == []
    ensures forall e :: e in Story(xs) ==> !C.IsOutcome(e)
  {
    var before, last := xs[..|xs| - 1], xs[|xs| - 1];
    DeliveriesFront(xs);
    if |xs| == 1 {
      assert before == [];
    }
    NoSuccessBeforeRequeue(p, id, cron, before);
    OnlyStartEscapes(p, id, cron, P.AttemptsAt(Deliveries(before)), last);
  }

  /** What the task raised has escaped: the job is not settled, and its row never shows an outcome. */
  lemma {:induction false} EscapedNeverEnds(cfg: Config, p: P.Policy, id: string, cron: bool, xs: seq<Emission>,
                                            extra: set<Event>)
    requires Told(p, id, cron, xs) && xs != [] && P.Unsettled(xs[|xs| - 1].d)
    requires Ordinary(cron, xs) && Besides(extra, id)
    ensures P.ActionsAt(cron, Deliveries(xs)) == []
    ensures I.NeverEnds(cfg, EventsTold(xs) + extra, id)
  {
    EscapedIsSilent(p, id, cron, xs);
    StoryIsOpen(p, id, cron, xs);
    I.NeverEndsExactly(cfg, EventsTold(xs) + extra, id);
  }
}
