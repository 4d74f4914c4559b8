/** From a worker's publisher to the stored row: what the row of a finished job shows once the publisher has drained. */
module EndToEnd {
  import opened Options
  import opened Lifecycle
  import C = Convergence
  import I = Intake
  import P = Processing
  import L = JobLife
  import S = PublisherSpec
  import O = PublisherOverlap
  import Shared = SharedPublisher

  /** Of what was recorded, by all jobs of the worker, the events of this job are those published for it. An entry is
      what the publisher handles, a payload or its number; `read` is what the server makes of it. */
  ghost predicate RecordsFor<T(!new)>(recorded: multiset<T>, read: T -> Option<Event>, id: string,
                                      published: set<Event>)
  {
    && (forall t :: t in recorded && read(t).Some? && read(t).value.jobId == id ==> read(t).value in published)
    && (forall e :: e in published ==> exists t :: t in recorded && read(t) == Some(e))
  }

  /** What is delivered are the entries of the stream, each at least once, in any order. */
  ghost predicate Heard<T(!new)>(ds: seq<Delivery>, stream: seq<T>, read: T -> Option<Event>) {
    && (forall i :: 0 <= i < |ds| ==> exists t :: t in stream && read(t) == Some(ds[i].ev))
    && (forall t :: t in stream && read(t).Some? ==> C.Delivered(ds, read(t).value))
  }

  /** The job's life is over, and all that was published for it was among what the publisher recorded. */
  ghost predicate Finished<T(!new)>(p: P.Policy, id: string, cron: bool, xs: seq<L.Emission>, extra: set<Event>,
                                    recorded: multiset<T>, read: T -> Option<Event>)
  {
    && L.Over(p, id, cron, xs) && L.StampedInOrder(L.Story(xs)) && L.OutcomesApart(L.Story(xs))
    && L.Besides(extra, id) && RecordsFor(recorded, read, id, L.EventsTold(xs) + extra)
  }

  ghost predicate ShowsTheEnd(st: Store, id: string, cron: bool, xs: seq<L.Emission>)
    requires xs != []
  {
    I.Shows(st, id, L.FinalStatus(P.ActionsAt(cron, L.Deliveries(xs))), P.AttemptsAt(L.Deliveries(xs)))
  }

  predicate EndAnnounced(cron: bool, xs: seq<L.Emission>)
    requires xs != []
  {
    L.Announced(cron, P.AttemptsAt(L.Deliveries(xs[..|xs| - 1])), xs[|xs| - 1].d)
  }

  lemma HeardIsDrawn<T(!new)>(ds: seq<Delivery>, stream: seq<T>, read: T -> Option<Event>, id: string,
                              published: set<Event>)
    requires Heard(ds, stream, read) && RecordsFor(multiset(stream), read, id, published)
    ensures I.Drawn(ds, published, id) && I.AllDelivered(ds, published)
  {
    forall i | 0 <= i < |ds| && ds[i].ev.jobId == id ensures ds[i].ev in published {
      var t :| t in stream && read(t) == Some(ds[i].ev);
      assert t in multiset(stream);
    }
    forall e | e in published ensures C.Delivered(ds, e) {
      var t :| t in multiset(stream) && read(t) == Some(e);
      assert t in stream;
    }
  }

  lemma StreamShowsTheEnd<T(!new)>(cfg: Config, p: P.Policy, id: string, cron: bool, xs: seq<L.Emission>,
                                   extra: set<Event>, stream: seq<T>, read: T -> Option<Event>, st: Store,
                                   ds: seq<Delivery>)
    requires Finished(p, id, cron, xs, extra, multiset(stream), read)
    requires id !in st.rows && Heard(ds, stream, read)
    ensures ShowsTheEnd(I.Ingested(cfg, st, ds), id, cron, xs) <==> EndAnnounced(cron, xs)
  {
    HeardIsDrawn(ds, stream, read, id, L.EventsTold(xs) + extra);
    L.LifeShownExactly(cfg, p, id, cron, xs, extra, st, ds);
  }

  /** Calls that do not overlap: once the publisher has drained with nothing overflowed, whatever failed on the way,
      the row shows how the job ended exactly when its end was announced acceptably. */
  lemma DrainedShowsTheEnd(cfg: Config, settings: S.Config, calls: seq<S.Call>, ledgers: seq<S.Ledger>, p: P.Policy,
                           id: string, cron: bool, xs: seq<L.Emission>, extra: set<Event>,
                           read: S.Payload -> Option<Event>, st: Store, ds: seq<Delivery>)
    requires S.IsRun(settings, calls, ledgers) && ledgers[0] == S.EMPTY && S.Drained(ledgers[|calls|])
    requires Finished(p, id, cron, xs, extra, S.RecordedPayloads(calls), read)
    requires id !in st.rows && Heard(ds, ledgers[|calls|].stream, read)
    ensures ShowsTheEnd(I.Ingested(cfg, st, ds), id, cron, xs) <==> EndAnnounced(cron, xs)
  {
    S.DrainedRunPublishes(settings, calls, ledgers);
    StreamShowsTheEnd(cfg, p, id, cron, xs, extra, ledgers[|calls|].stream, read, st, ds);
  }

  /** Calls that overlap in any way: the same, as long as every pop took off what its own call had published. */
  lemma SharedDrainedShowsTheEnd(cfg: Config, l: Shared.Limits, calls: nat, steps: seq<Shared.Step>, p: P.Policy,
                                 id: string, cron: bool, xs: seq<L.Emission>, extra: set<Event>,
                                 read: Shared.Item -> Option<Event>, st: Store, ds: seq<Delivery>)
    requires Shared.RunFrom(l, Shared.Start(calls), steps, false).Some?
    requires O.OwnPops(l, Shared.Start(calls), steps)
    requires var s := Shared.RunFrom(l, Shared.Start(calls), steps, false).value;
             && O.AllReturned(s) && s.pending == s.durable == s.dropped == s.trimmed == []
             && Finished(p, id, cron, xs, extra, multiset(s.recorded), read)
             && Heard(ds, s.stream, read)
    requires id !in st.rows
    ensures ShowsTheEnd(I.Ingested(cfg, st, ds), id, cron, xs) <==> EndAnnounced(cron, xs)
  {
    O.ConservedExactly(l, calls, steps);
    var s := Shared.RunFrom(l, Shared.Start(calls), steps, false).value;
    assert multiset(s.recorded) == multiset(s.stream);
    StreamShowsTheEnd(cfg, p, id, cron, xs, extra, s.stream, read, st, ds);
  }
}
