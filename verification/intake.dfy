/** What stands between the status stream and the handlers: events that break their contract are discarded, so the
    rows see the accepted ones only. */
module Intake {
  import opened Options
  import opened Lifecycle
  import C = Convergence

  predicate Named(fn: string, fnName: string, attempt: nat) { fn != "" && fnName != "" && attempt >= 1 }

  /** The field bounds of the event contracts. */
  predicate Accepted(e: Event) {
    && e.jobId != "" && e.rootId != ""
    && match e
       case JobStarted(_, attempt, _, _, jobKey, fn, fnName, _, _, _, _, _, wait, _, _, _) =>
         Named(fn, fnName, attempt) && jobKey != "" && (wait.Some? ==> wait.value >= 0.0)
       case JobCompleted(_, attempt, _, fn, fnName, _, duration, _, _) =>
         Named(fn, fnName, attempt) && (duration.Some? ==> duration.value >= 0.0)
       case JobFailed(_, attempt, _, fn, fnName, error, _, _, _) => Named(fn, fnName, attempt) && error != ""
       case JobCancelled(_, attempt, _, fn, fnName, _, _, _) => Named(fn, fnName, attempt)
       case JobRetrying(_, attempt, _, fn, fnName, error, _, _) => Named(fn, fnName, attempt) && error != ""
       case JobProgress(_, progress, _, _) => 0.0 <= progress <= 1.0
       case JobCheckpoint(_, _, _, _, _) => true
  }

  function FunctionOf(e: Event): (string, string)
    requires !e.JobProgress? && !e.JobCheckpoint?
  {
    (e.function_, e.functionName)
  }

  /** What an event is refused for: no job, no root, progress outside the unit interval, attempt 0, no function or
      function name, no key or a negative wait in a start, a negative duration, or an error without a text. */
  lemma RefusedExactly(e: Event)
    ensures !Accepted(e) <==>
            || e.jobId == "" || e.rootId == ""
            || (e.JobProgress? && (e.progress < 0.0 || e.progress > 1.0))
            || (!e.JobProgress? && !e.JobCheckpoint? &&
                (e.attempt == 0 || FunctionOf(e).0 == "" || FunctionOf(e).1 == ""))
            || (e.JobStarted? && (e.jobKey == "" || (e.queueWaitMs.Some? && e.queueWaitMs.value < 0.0)))
            || (e.JobCompleted? && e.durationMs.Some? && e.durationMs.value < 0.0)
            || ((e.JobFailed? || e.JobRetrying?) && e.error == "")
  {
  }

  function Admitted(ds: seq<Delivery>): seq<Delivery> {
    if ds == [] then []
    else Admitted(ds[..|ds| - 1]) + (if Accepted(ds[|ds| - 1].ev) then [ds[|ds| - 1]] else [])
  }

  function Ingested(cfg: Config, st: Store, ds: seq<Delivery>): Store { Run(cfg, st, Admitted(ds)) }

  function AcceptedOf(published: set<Event>): set<Event> { set e | e in published && Accepted(e) }

  /** The deliveries in `ds` that concern the job are drawn from what was published for it. */
  ghost predicate Drawn(ds: seq<Delivery>, published: set<Event>, id: string) {
    forall i :: 0 <= i < |ds| && ds[i].ev.jobId == id ==> ds[i].ev in published
  }

  ghost predicate AllDelivered(ds: seq<Delivery>, published: set<Event>) {
    forall e :: e in published ==> C.Delivered(ds, e)
  }

  lemma {:induction false} AdmittedDrawn(ds: seq<Delivery>, published: set<Event>, id: string)
    requires Drawn(ds, published, id)
    ensures Drawn(Admitted(ds), AcceptedOf(published), id)
  {
    if ds != [] {
      AdmittedDrawn(ds[..|ds| - 1], published, id);
    }
  }

  lemma {:induction false} AdmittedDelivers(ds: seq<Delivery>, t: Event)
    requires C.Delivered(ds, t) && Accepted(t)
    ensures C.Delivered(Admitted(ds), t)
  {
    var front, last := ds[..|ds| - 1], ds[|ds| - 1];
    if last.ev == t {
      assert Admitted(ds)[|Admitted(ds)| - 1].ev == t;
    } else {
      var i :| 0 <= i < |ds| && ds[i].ev == t;
      assert front[i].ev == t;
      AdmittedDelivers(front, t);
      var k :| 0 <= k < |Admitted(front)| && Admitted(front)[k].ev == t;
      assert Admitted(ds)[k].ev == t;
    }
  }

  // ---------------------------------------------------------------------------------------------
  // When an outcome is stored
  // ---------------------------------------------------------------------------------------------

  /** Every delivery of what was published that includes `t`, in any order, with any duplication and mixed with any
      events of other jobs, leaves the row with the outcome of `t`. */
  ghost predicate Stores(cfg: Config, published: set<Event>, t: Event)
    requires C.IsOutcome(t)
  {
    forall st: Store, ds: seq<Delivery> ::
      t.jobId !in st.rows && Drawn(ds, published, t.jobId) && C.Delivered(ds, t) ==>
        C.EndsWith(Ingested(cfg, st, ds), t)
  }

  lemma {:induction false} AdmittedOne(d: Delivery)
    ensures Admitted([d]) == if Accepted(d.ev) then [d] else []
  {
    assert [d][..0] == [];
  }

  lemma {:induction false} AdmittedTwo(a: Delivery, b: Delivery)
    requires Accepted(a.ev) && Accepted(b.ev)
    ensures Admitted([a, b]) == [a, b]
  {
    assert [a, b][..1] == [a];
    AdmittedOne(a);
  }

  lemma {:induction false} RefusedIsNotStored(cfg: Config, published: set<Event>, t: Event)
    requires C.IsOutcome(t) && t in published && !Accepted(t)
    ensures !Stores(cfg, published, t)
  {
    var empty, ds := Store(map[], []), [Delivery(t, 0.0)];
    AdmittedOne(ds[0]);
    assert ds[0].ev == t && C.Delivered(ds, t);
    assert !C.EndsWith(Ingested(cfg, empty, ds), t);
  }

  lemma {:induction false} UnyieldingIsNotStored(cfg: Config, published: set<Event>, t: Event, e: Event)
    requires C.IsOutcome(t) && t in published && Accepted(t)
    requires e in published && Accepted(e) && e.jobId == t.jobId && C.AttemptOf(e) <= t.attempt && !C.YieldsTo(e, t)
    ensures !Stores(cfg, published, t)
  {
    var ds := C.TwoDeliveriesMiss(cfg, e, t);
    assert ds[0].ev in {e, t} && ds[1].ev in {e, t} && t in {ds[0].ev, ds[1].ev};
    assert ds == [ds[0], ds[1]];
    AdmittedTwo(ds[0], ds[1]);
    assert C.Delivered(ds, t) && Drawn(ds, published, t.jobId);
    assert !C.EndsWith(Ingested(cfg, Store(map[], []), ds), t);
  }

  lemma {:induction false} YieldedIsStored(cfg: Config, published: set<Event>, t: Event)
    requires C.IsOutcome(t) && Accepted(t)
    requires forall e :: e in published && Accepted(e) ==> C.AttemptOf(e) <= t.attempt && C.YieldsTo(e, t)
    ensures Stores(cfg, published, t)
  {
    forall st: Store, ds: seq<Delivery>
      | t.jobId !in st.rows && Drawn(ds, published, t.jobId) && C.Delivered(ds, t)
      ensures C.EndsWith(Ingested(cfg, st, ds), t)
    {
      AdmittedDrawn(ds, published, t.jobId);
      AdmittedDelivers(ds, t);
      C.RunTowards(cfg, st, Admitted(ds), AcceptedOf(published), t);
    }
  }

  /** An outcome of the highest accepted attempt is stored exactly when it is accepted and every accepted event yields
      to it. */
  lemma {:induction false} StoresExactly(cfg: Config, published: set<Event>, t: Event)
    requires C.IsOutcome(t) && t in published
    requires forall e :: e in published ==> e.jobId == t.jobId && (Accepted(e) ==> C.AttemptOf(e) <= t.attempt)
    ensures Stores(cfg, published, t) <==>
            Accepted(t) && forall e :: e in published && Accepted(e) ==> C.YieldsTo(e, t)
  {
    if !Accepted(t) {
      RefusedIsNotStored(cfg, published, t);
    } else if e :| e in published && Accepted(e) && !C.YieldsTo(e, t) {
      UnyieldingIsNotStored(cfg, published, t, e);
    } else {
      YieldedIsStored(cfg, published, t);
    }
  }

  // ---------------------------------------------------------------------------------------------
  // When a row never ends
  // ---------------------------------------------------------------------------------------------

  /** A terminal row shows the outcome of an event that was delivered. */
  ghost predicate Witnessed(row: Row, events: set<Event>) {
    Terminal(row.status) ==> exists e :: e in events && C.IsOutcome(e) && C.OutcomeOf(e) == C.OutcomeOfRow(row)
  }

  lemma {:induction false} StepWitnessed(row: Option<Row>, e: Event, persist: bool, events: set<Event>)
    requires e in events && (row.Some? ==> Witnessed(row.value, events))
    ensures C.After(row, e, persist).Some? ==> Witnessed(C.After(row, e, persist).value, events)
  {
  }

  lemma {:induction false} TerminalRowWitnessed(cfg: Config, st: Store, ds: seq<Delivery>, events: set<Event>,
                                                id: string)
    requires id !in st.rows && Drawn(ds, events, id)
    ensures id in Run(cfg, st, ds).rows ==> Witnessed(Run(cfg, st, ds).rows[id], events)
  {
    if ds != [] {
      var front, last := ds[..|ds| - 1], ds[|ds| - 1];
      TerminalRowWitnessed(cfg, st, front, events, id);
      var before := Run(cfg, st, front);
      C.StepOnRow(cfg, before, last, id);
      if last.ev.jobId == id {
        StepWitnessed(RowOf(before, id), last.ev, Persists(cfg, before, last), events);
      }
    }
  }

  /** No delivery of what was published, in any order or number, leaves the row with an outcome. */
  ghost predicate NeverEnds(cfg: Config, published: set<Event>, id: string) {
    forall st: Store, ds: seq<Delivery> ::
      id !in st.rows && Drawn(ds, published, id) && id in Ingested(cfg, st, ds).rows ==>
        !Terminal(Ingested(cfg, st, ds).rows[id].status)
  }

  /** A job's row never ends exactly when no outcome published for it is accepted. */
  lemma {:induction false} NeverEndsExactly(cfg: Config, published: set<Event>, id: string)
    requires forall e :: e in published ==> e.jobId == id
    ensures NeverEnds(cfg, published, id) <==> forall e :: e in published && C.IsOutcome(e) ==> !Accepted(e)
  {
    if e :| e in published && C.IsOutcome(e) && Accepted(e) {
      var d, empty := Delivery(e, 0.0), Store(map[], []);
      assert [d][..0] == [];
      AdmittedOne(d);
      assert Run(cfg, empty, [d]) == Step(cfg, empty, d);
      assert Drawn([d], published, id) && Terminal(Ingested(cfg, empty, [d]).rows[id].status);
    } else {
      forall st: Store, ds: seq<Delivery>
        | id !in st.rows && Drawn(ds, published, id) && id in Ingested(cfg, st, ds).rows
        ensures !Terminal(Ingested(cfg, st, ds).rows[id].status)
      {
        AdmittedDrawn(ds, published, id);
        TerminalRowWitnessed(cfg, st, Admitted(ds), AcceptedOf(published), id);
      }
    }
  }

  // ---------------------------------------------------------------------------------------------
  // When everything published has arrived
  // ---------------------------------------------------------------------------------------------

  ghost predicate Shows(st: Store, id: string, status: Status, attempts: nat) {
    id in st.rows && st.rows[id].status == status && st.rows[id].attempts == attempts
  }

  /** Once every published event has been delivered at least once, in whatever order, the row shows the outcome. */
  ghost predicate StoredAs(cfg: Config, published: set<Event>, id: string, status: Status, attempts: nat) {
    forall st: Store, ds: seq<Delivery> ::
      id !in st.rows && Drawn(ds, published, id) && AllDelivered(ds, published) ==>
        Shows(Ingested(cfg, st, ds), id, status, attempts)
  }

  lemma {:induction false} SomeDelivery(published: set<Event>) returns (ds: seq<Delivery>)
    ensures forall i :: 0 <= i < |ds| ==> ds[i].ev in published
    ensures AllDelivered(ds, published)
  {
    if published == {} {
      ds := [];
    } else {
      var e :| e in published;
      var rest := SomeDelivery(published - {e});
      ds := [Delivery(e, 0.0)] + rest;
      forall x | x in published ensures C.Delivered(ds, x) {
        if x == e {
          assert ds[0].ev == x;
        } else {
          assert C.Delivered(rest, x);
          var i :| 0 <= i < |rest| && rest[i].ev == x;
          assert ds[i + 1].ev == x;
        }
      }
    }
  }

  lemma {:induction false} StoredWhenStores(cfg: Config, published: set<Event>, t: Event)
    requires C.IsOutcome(t) && t in published && Stores(cfg, published, t)
    ensures StoredAs(cfg, published, t.jobId, C.OutcomeOf(t).status, t.attempt)
  {
    forall st: Store, ds: seq<Delivery>
      | t.jobId !in st.rows && Drawn(ds, published, t.jobId) && AllDelivered(ds, published)
      ensures Shows(Ingested(cfg, st, ds), t.jobId, C.OutcomeOf(t).status, t.attempt)
    {
      assert C.Delivered(ds, t);
      assert C.EndsWith(Ingested(cfg, st, ds), t);
    }
  }

  /** An outcome that no accepted event announces is never what the row shows, whatever is delivered. */
  lemma {:induction false} UnannouncedIsNotShown(cfg: Config, published: set<Event>, id: string, status: Status,
                                                 attempts: nat, st: Store, ds: seq<Delivery>)
    requires Terminal(status) && id !in st.rows && Drawn(ds, published, id)
    requires forall e :: e in published && Accepted(e) && C.IsOutcome(e) ==>
               !(C.OutcomeOf(e).status == status && e.attempt == attempts)
    ensures !Shows(Ingested(cfg, st, ds), id, status, attempts)
  {
    AdmittedDrawn(ds, published, id);
    TerminalRowWitnessed(cfg, st, Admitted(ds), AcceptedOf(published), id);
  }

  /** So it is not what the row shows once everything has arrived. */
  lemma {:induction false} NotStoredUnannounced(cfg: Config, published: set<Event>, id: string, status: Status,
                                                attempts: nat)
    requires Terminal(status) && forall e :: e in published ==> e.jobId == id
    requires forall e :: e in published && Accepted(e) && C.IsOutcome(e) ==>
               !(C.OutcomeOf(e).status == status && e.attempt == attempts)
    ensures !StoredAs(cfg, published, id, status, attempts)
  {
    var ds := SomeDelivery(published);
    var empty := Store(map[], []);
    assert Drawn(ds, published, id);
    UnannouncedIsNotShown(cfg, published, id, status, attempts, empty, ds);
  }
}
