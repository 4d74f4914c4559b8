/** How far the stored progress of a running job can lag behind what its task last reported, across the two
    throttles: the one in the task's context and the one in front of the rows. */
module ProgressDrift {
  import opened Options
  import opened Lifecycle
  import opened TaskContext
  import C = Convergence

  /** Equal, or closer than `delta`. */
  predicate Near(a: real, b: real, delta: real) { a == b || Distance(a, b) < delta }

  function Positive(x: real): real { if x < 0.0 then 0.0 else x }

  // ---------------------------------------------------------------------------------------------
  // The server's half, for any deliveries in any order
  // ---------------------------------------------------------------------------------------------

  /** A start, an outcome or a retry of the job: progress reported before it is no longer what the row shows. */
  predicate Resets(e: Event, id: string) {
    e.jobId == id && !e.JobProgress? && !e.JobCheckpoint?
  }

  /** The last progress of the job among the events, since the last one that resets it. */
  function Shown(events: seq<Event>, id: string): Option<real> {
    if events == [] then None
    else
      var last := events[|events| - 1];
      if Resets(last, id) then None
      else if last.JobProgress? && last.jobId == id then Some(last.progress)
      else Shown(events[..|events| - 1], id)
  }

  function EventsIn(ds: seq<Delivery>): (r: seq<Event>)
    ensures |r| == |ds|
  {
    if ds == [] then [] else EventsIn(ds[..|ds| - 1]) + [ds[|ds| - 1].ev]
  }

  ghost predicate Shows(st: Store, id: string, shown: Option<real>, delta: real) {
    shown.Some? && id in st.rows && !Terminal(st.rows[id].status) ==> Near(st.rows[id].progress, shown.value, delta)
  }

  lemma EntryAgrees(st: Store, id: string)
    requires C.Agrees(st) && Tracked(st.table, id)
    ensures id in st.rows && st.table[IndexOf(st.table, id)].progress == st.rows[id].progress
  {
    assert st.table[IndexOf(st.table, id)] in st.table;
  }

  lemma ProgressShown(cfg: Config, st: Store, d: Delivery)
    requires C.Agrees(st) && d.ev.JobProgress?
    ensures Shows(Step(cfg, st, d), d.ev.jobId, Some(d.ev.progress), Positive(cfg.minDelta))
  {
    var id := d.ev.jobId;
    if id in st.rows && !Terminal(st.rows[id].status) && !Persists(cfg, st, d) {
      EntryAgrees(st, id);
    }
  }

  lemma OthersKeepShown(cfg: Config, st: Store, d: Delivery, id: string, shown: Option<real>, delta: real)
    requires Shows(st, id, shown, delta)
    requires !Resets(d.ev, id) && !(d.ev.JobProgress? && d.ev.jobId == id)
    ensures Shows(Step(cfg, st, d), id, shown, delta)
  {
  }

  /** Whatever is delivered, a job not ended shows its last delivered progress to within the server's minimum delta. */
  lemma {:induction false} StoredProgressIsNear(cfg: Config, st: Store, ds: seq<Delivery>, id: string)
    requires C.Agrees(st)
    ensures Shows(Run(cfg, st, ds), id, Shown(EventsIn(ds), id), Positive(cfg.minDelta))
  {
    if ds != [] {
      var front, last := ds[..|ds| - 1], ds[|ds| - 1];
      StoredProgressIsNear(cfg, st, front, id);
      C.ThrottleAgreesWithRows(cfg, st, front);
      assert EventsIn(ds)[..|ds| - 1] == EventsIn(front);
      if Resets(last.ev, id) {
      } else if last.ev.JobProgress? && last.ev.jobId == id {
        ProgressShown(cfg, Run(cfg, st, front), last);
      } else {
        OthersKeepShown(cfg, Run(cfg, st, front), last, id, Shown(EventsIn(front), id), Positive(cfg.minDelta));
      }
    }
  }

  // ---------------------------------------------------------------------------------------------
  // The whole way from a task to its row, over a channel that keeps order
  // ---------------------------------------------------------------------------------------------

  /** A running attempt has its own context; `asked` is the last value the task reported in it. */
  datatype System = System(
    running: bool, sent: Sent, asked: Option<real>, channel: seq<Event>, delivered: seq<Delivery>)

  datatype Action =
    | Begin(start: Event)
    | Report(call: Call, parentId: Option<string>, rootId: string)
    | Emit(ev: Event)
    | Deliver(now: real)

  /** A start of the job comes with a fresh context; any other event that resets its progress ends the attempt. */
  function Next(limits: Limits, id: string, s: System, a: Action): System {
    match a
    case Begin(start) =>
      if start.JobStarted? && start.jobId == id then
        s.(running := true, sent := NOTHING_SENT, asked := None, channel := s.channel + [start])
      else s
    case Report(call, parentId, rootId) =>
      if !s.running || Normalised(call.value).None? then s
      else
        var put := Put(limits, s.sent, call);
        s.(sent := AfterCall(limits, s.sent, call), asked := Normalised(call.value),
           channel := s.channel +
             (if put.Some? then [JobProgress(id, put.value.progress, parentId, rootId)] else []))
    case Emit(ev) =>
      if ev.jobId == id && (ev.JobStarted? || ev.JobProgress?) then s
      else if Resets(ev, id) then s.(running := false, asked := None, channel := s.channel + [ev])
      else s.(channel := s.channel + [ev])
    case Deliver(now) =>
      if s.channel == [] then s
      else s.(channel := s.channel[1..], delivered := s.delivered + [Delivery(s.channel[0], now)])
  }

  function Reached(limits: Limits, id: string, actions: seq<Action>): System {
    if actions == [] then System(false, NOTHING_SENT, None, [], [])
    else Next(limits, id, Reached(limits, id, actions[..|actions| - 1]), actions[|actions| - 1])
  }

  /** All events put on the channel so far. */
  function Emitted(s: System): seq<Event> { EventsIn(s.delivered) + s.channel }

  /** What the context last sent is what the events show, and what the task last asked for is near it. */
  ghost predicate InStep(limits: Limits, id: string, s: System) {
    && (s.running ==> s.sent.progress == Shown(Emitted(s), id))
    && (s.asked.Some? ==>
          && s.running && s.sent.progress.Some?
          && Near(s.asked.value, s.sent.progress.value, Positive(limits.minDelta)))
  }

  lemma ShownAfter(events: seq<Event>, e: Event, id: string)
    ensures Shown(events + [e], id) ==
            if Resets(e, id) then None
            else if e.JobProgress? && e.jobId == id then Some(e.progress) else Shown(events, id)
  {
    assert (events + [e])[..|events|] == events;
  }

  lemma DeliveryEmitsNothing(s: System, now: real)
    requires s.channel != []
    ensures Emitted(s.(channel := s.channel[1..], delivered := s.delivered + [Delivery(s.channel[0], now)])) ==
            Emitted(s)
  {
    var ds := s.delivered + [Delivery(s.channel[0], now)];
    assert ds[..|s.delivered|] == s.delivered;
    assert EventsIn(s.delivered) + s.channel == EventsIn(s.delivered) + [s.channel[0]] + s.channel[1..];
  }

  lemma NextInStep(limits: Limits, id: string, s: System, a: Action)
    requires InStep(limits, id, s)
    ensures InStep(limits, id, Next(limits, id, s, a))
  {
    var s' := Next(limits, id, s, a);
    if a.Deliver? {
      if s.channel != [] {
        DeliveryEmitsNothing(s, a.now);
      }
    } else if s'.channel != s.channel {
      var e := s'.channel[|s.channel|];
      assert s'.channel == s.channel + [e];
      assert Emitted(s') == Emitted(s) + [e];
      ShownAfter(Emitted(s), e, id);
    }
  }

  lemma {:induction false} AlwaysInStep(limits: Limits, id: string, actions: seq<Action>)
    ensures InStep(limits, id, Reached(limits, id, actions))
  {
    if actions != [] {
      AlwaysInStep(limits, id, actions[..|actions| - 1]);
      NextInStep(limits, id, Reached(limits, id, actions[..|actions| - 1]), actions[|actions| - 1]);
    }
  }

  /** Nothing on the way touches the job's progress. */
  ghost predicate NothingUnderWay(s: System, id: string) {
    forall e :: e in s.channel ==> !Resets(e, id) && !(e.JobProgress? && e.jobId == id)
  }

  lemma {:induction false} QuietChannelShowsSame(before: seq<Event>, more: seq<Event>, id: string)
    requires forall e :: e in more ==> !Resets(e, id) && !(e.JobProgress? && e.jobId == id)
    ensures Shown(before + more, id) == Shown(before, id)
  {
    if more == [] {
      assert before + more == before;
    } else {
      var front, last := more[..|more| - 1], more[|more| - 1];
      QuietChannelShowsSame(before, front, id);
      assert before + more == before + front + [last];
      ShownAfter(before + front, last, id);
    }
  }

  lemma NearAdds(a: real, b: real, c: real, x: real, y: real)
    requires Near(a, b, x) && Near(b, c, y) && x >= 0.0 && y >= 0.0
    ensures Near(a, c, x + y)
  {
  }

  /** Once a running attempt's reports have been delivered, the row of a job not ended is within the two minimum deltas
      of the last value its task reported, over every run of reports, deliveries and events of this and other jobs. */
  lemma DriftIsBounded(limits: Limits, cfg: Config, st: Store, id: string, actions: seq<Action>)
    requires C.Agrees(st)
    ensures var s := Reached(limits, id, actions);
            var rows := Run(cfg, st, s.delivered).rows;
            NothingUnderWay(s, id) && s.asked.Some? && id in rows && !Terminal(rows[id].status) ==>
              Near(rows[id].progress, s.asked.value, Positive(cfg.minDelta) + Positive(limits.minDelta))
  {
    var s := Reached(limits, id, actions);
    var end := Run(cfg, st, s.delivered);
    if NothingUnderWay(s, id) && s.asked.Some? && id in end.rows && !Terminal(end.rows[id].status) {
      AlwaysInStep(limits, id, actions);
      StoredProgressIsNear(cfg, st, s.delivered, id);
      QuietChannelShowsSame(EventsIn(s.delivered), s.channel, id);
      var shown := s.sent.progress.value;
      assert Near(shown, s.asked.value, Positive(limits.minDelta));
      NearAdds(end.rows[id].progress, shown, s.asked.value, Positive(cfg.minDelta), Positive(limits.minDelta));
    }
  }

  // ---------------------------------------------------------------------------------------------
  // The bound is tight
  // ---------------------------------------------------------------------------------------------

  function FirstStart(id: string): Event {
    JobStarted(id, 1, 0, 0, "", "", "", "", TaskSource, None, None, None, None, None, None, id)
  }

  lemma ReachedNext(limits: Limits, id: string, front: seq<Action>, a: Action)
    ensures Reached(limits, id, front + [a]) == Next(limits, id, Reached(limits, id, front), a)
  {
    assert (front + [a])[..|front|] == front;
  }

  lemma RunNext(cfg: Config, st: Store, ds: seq<Delivery>, d: Delivery)
    ensures Run(cfg, st, ds + [d]) == Step(cfg, Run(cfg, st, ds), d)
  {
    assert (ds + [d])[..|ds|] == ds;
  }

  /** A started job, one delivered report of `y`, and one report of `x + y` that the context keeps to itself. */
  function TightRun(id: string, x: real, y: real): seq<Action> {
    [Begin(FirstStart(id)), Deliver(0.0)] + [Report(Call(y, None, 0.0), None, id)] + [Deliver(0.0)] +
    [Report(Call(x + y, None, 0.0), None, id)]
  }

  lemma TightStart(limits: Limits, id: string)
    ensures Reached(limits, id, [Begin(FirstStart(id)), Deliver(0.0)]) ==
            System(true, NOTHING_SENT, None, [], [Delivery(FirstStart(id), 0.0)])
  {
    var begin := Begin(FirstStart(id));
    assert [begin, Deliver(0.0)] == [] + [begin] + [Deliver(0.0)];
    ReachedNext(limits, id, [], begin);
    ReachedNext(limits, id, [] + [begin], Deliver(0.0));
    assert [FirstStart(id)][1..] == [] && [] + [FirstStart(id)] == [FirstStart(id)];
    assert [] + [Delivery(FirstStart(id), 0.0)] == [Delivery(FirstStart(id), 0.0)];
  }

  lemma TightReports(limits: Limits, id: string, x: real, y: real, s: System)
    requires 0.0 <= x < limits.minDelta && 0.0 <= y && x + y < 1.0 && limits.minInterval > 0.0
    requires s.running && s.sent == NOTHING_SENT && s.channel == []
    ensures var e := JobProgress(id, y, None, id);
            var s1 := Next(limits, id, s, Report(Call(y, None, 0.0), None, id));
            var s2 := Next(limits, id, s1, Deliver(0.0));
            var s3 := Next(limits, id, s2, Report(Call(x + y, None, 0.0), None, id));
            s3.channel == [] && s3.asked == Some(x + y) && s3.delivered == s.delivered + [Delivery(e, 0.0)]
  {
    var e := JobProgress(id, y, None, id);
    assert [] + [e] == [e] && [e][1..] == [];
  }

  lemma TightRunReaches(limits: Limits, id: string, x: real, y: real)
    requires 0.0 <= x < limits.minDelta && 0.0 <= y && x + y < 1.0 && limits.minInterval > 0.0
    ensures var s := Reached(limits, id, TightRun(id, x, y));
            && s.channel == [] && s.asked == Some(x + y)
            && s.delivered == [Delivery(FirstStart(id), 0.0)] + [Delivery(JobProgress(id, y, None, id), 0.0)]
  {
    var first := [Begin(FirstStart(id)), Deliver(0.0)];
    var report, again := Report(Call(y, None, 0.0), None, id), Report(Call(x + y, None, 0.0), None, id);
    TightStart(limits, id);
    TightReports(limits, id, x, y, Reached(limits, id, first));
    ReachedNext(limits, id, first, report);
    ReachedNext(limits, id, first + [report], Deliver(0.0));
    ReachedNext(limits, id, first + [report] + [Deliver(0.0)], again);
  }

  /** The row and the throttle after the start: a report within the server's delta is not written. */
  lemma StartedThenHeldBack(cfg: Config, id: string, y: real)
    requires 0.0 <= y < cfg.minDelta && y < 1.0
    ensures var started := Step(cfg, Store(map[], []), Delivery(FirstStart(id), 0.0));
            && id in started.rows && started.rows[id].status == Active && started.rows[id].progress == 0.0
            && Step(cfg, started, Delivery(JobProgress(id, y, None, id), 0.0)) == started
  {
    var started := Step(cfg, Store(map[], []), Delivery(FirstStart(id), 0.0));
    assert started.table == [Entry(id, 0.0, 0.0)];
    assert IndexOf(started.table, id) == 0;
    assert !Persists(cfg, started, Delivery(JobProgress(id, y, None, id), 0.0));
  }

  /** No smaller bound holds: every drift below the two deltas together is reached by some run. */
  lemma DriftIsTight(limits: Limits, cfg: Config, id: string, x: real, y: real)
    requires 0.0 <= x < limits.minDelta && 0.0 <= y < cfg.minDelta && x + y < 1.0 && limits.minInterval > 0.0
    ensures var s := Reached(limits, id, TightRun(id, x, y));
            var rows := Run(cfg, Store(map[], []), s.delivered).rows;
            && NothingUnderWay(s, id) && s.asked.Some? && id in rows && !Terminal(rows[id].status)
            && Distance(rows[id].progress, s.asked.value) == x + y
  {
    var empty, d := Store(map[], []), Delivery(FirstStart(id), 0.0);
    TightRunReaches(limits, id, x, y);
    StartedThenHeldBack(cfg, id, y);
    RunNext(cfg, empty, [], d);
    RunNext(cfg, empty, [d], Delivery(JobProgress(id, y, None, id), 0.0));
    assert [] + [d] == [d];
  }
}
