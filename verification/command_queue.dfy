/** The lazily started command queue of one job: task threads put commands, the event loop starts at most one drain
    task, and closing waits for it. The steps below are the atomic actions of the two sides; they interleave freely. */
module CommandQueue {
  import opened Options

  type Thread = nat
  type Command = nat

  /** `Sentinel` is the `None` that tells the drain to stop. */
  datatype Item = Command(c: Command) | Sentinel

  /** Where a thread is inside `put`. */
  datatype Putter = Resting | Activated(c: Command) | Scheduled(c: Command)

  datatype Drain = NotStarted | Waiting | Dispatching(c: Command) | Finished

  /** Where the closing coroutine is. `before` and `goal` are the commands put when it began, respectively when it
      put the sentinel. */
  datatype Closer =
    | Open
    | Starting(before: seq<Command>)
    | Awaiting(before: seq<Command>, goal: seq<Command>)
    | ClosedUnused
    | Closed(before: seq<Command>, goal: seq<Command>)

  datatype State = State(queue: Option<seq<Item>>, putters: map<Thread, Putter>, pendingStarts: nat, drain: Drain,
                         drainsCreated: nat, put: seq<Command>, dispatched: seq<Command>, closer: Closer)

  datatype Step =
    | PutActivate(t: Thread, c: Command)
    | PutSchedule(t: Thread, onLoop: bool)
    | PutEnqueue(t: Thread)
    | RunScheduledStart
    | Get
    | Dispatch(succeeds: bool)
    | CloseBegin
    | CloseSentinel
    | CloseReturn

  const INIT := State(None, map[], 0, NotStarted, 0, [], [], Open)

  function PutterOf(s: State, t: Thread): Putter { if t in s.putters then s.putters[t] else Resting }

  function StartDrain(s: State): State {
    if s.queue.None? || !s.drain.NotStarted? then s else s.(drain := Waiting, drainsCreated := s.drainsCreated + 1)
  }

  predicate Enabled(s: State, step: Step) {
    match step
    case PutActivate(t, _) => PutterOf(s, t).Resting?
    case PutSchedule(t, _) => PutterOf(s, t).Activated?
    case PutEnqueue(t) => PutterOf(s, t).Scheduled? && s.queue.Some?
    case RunScheduledStart => s.pendingStarts > 0
    case Get => s.drain.Waiting? && s.queue.Some? && s.queue.value != []
    case Dispatch(_) => s.drain.Dispatching?
    case CloseBegin => s.closer.Open?
    case CloseSentinel => s.closer.Starting? && s.queue.Some?
    case CloseReturn => s.closer.Awaiting? && s.drain.Finished?
  }

  function Do(s: State, step: Step): State
    requires Enabled(s, step)
  {
    match step
    case PutActivate(t, c) =>
      s.(queue := if s.queue.None? then Some([]) else s.queue, putters := s.putters[t := Activated(c)])
    case PutSchedule(t, onLoop) =>
      var s' := s.(putters := s.putters[t := Scheduled(PutterOf(s, t).c)]);
      if onLoop then StartDrain(s') else s'.(pendingStarts := s.pendingStarts + 1)
    case PutEnqueue(t) =>
      var c := PutterOf(s, t).c;
      s.(queue := Some(s.queue.value + [Command(c)]), put := s.put + [c], putters := s.putters[t := Resting])
    case RunScheduledStart => StartDrain(s.(pendingStarts := s.pendingStarts - 1))
    case Get =>
      var head := s.queue.value[0];
      s.(queue := Some(s.queue.value[1..]), drain := if head.Sentinel? then Finished else Dispatching(head.c))
    case Dispatch(_) => s.(dispatched := s.dispatched + [s.drain.c], drain := Waiting)
    case CloseBegin =>
      if s.queue.None? then s.(closer := ClosedUnused) else StartDrain(s).(closer := Starting(s.put))
    case CloseSentinel =>
      s.(queue := Some(s.queue.value + [Sentinel]), closer := Awaiting(s.closer.before, s.put))
    case CloseReturn => s.(closer := Closed(s.closer.before, s.closer.goal))
  }

  ghost function Run(steps: seq<Step>): Option<State>
    decreases |steps|
  {
    if steps == [] then Some(INIT)
    else
      var before, last := Run(steps[..|steps| - 1]), steps[|steps| - 1];
      if before.Some? && Enabled(before.value, last) then Some(Do(before.value, last)) else None
  }

  // ---------------------------------------------------------------------------------------------
  // Invariant
  // ---------------------------------------------------------------------------------------------

  function Items(s: State): seq<Item> { if s.queue.Some? then s.queue.value else [] }

  function CommandsIn(q: seq<Item>): seq<Command> {
    if q == [] then []
    else CommandsIn(q[..|q| - 1]) + (if q[|q| - 1].Command? then [q[|q| - 1].c] else [])
  }

  /** The commands ahead of the first sentinel. */
  function Ahead(q: seq<Item>): nat
    ensures Ahead(q) <= |q|
    ensures forall i :: 0 <= i < Ahead(q) ==> q[i].Command?
    ensures Ahead(q) < |q| ==> q[Ahead(q)].Sentinel?
  {
    if q == [] || q[0].Sentinel? then 0 else 1 + Ahead(q[1..])
  }

  function InHand(s: State): seq<Command> { if s.drain.Dispatching? then [s.drain.c] else [] }

  lemma {:induction false} CommandsInFront(q: seq<Item>)
    requires q != []
    ensures CommandsIn(q) == (if q[0].Command? then [q[0].c] else []) + CommandsIn(q[1..])
    decreases |q|
  {
    if |q| == 1 {
      assert q[..0] == [] && q[1..] == [];
    } else {
      var r := q[..|q| - 1];
      CommandsInFront(r);
      assert r[1..] == q[1..][..|q[1..]| - 1];
    }
  }

  lemma CommandsInBack(q: seq<Item>, x: Item)
    ensures CommandsIn(q + [x]) == CommandsIn(q) + (if x.Command? then [x.c] else [])
  {
    assert (q + [x])[..|q|] == q;
  }

  lemma {:induction false} AheadStays(q: seq<Item>, x: Item)
    ensures Ahead(q) < |q| ==> Ahead(q + [x]) == Ahead(q)
    ensures Ahead(q) == |q| ==> Ahead(q + [x]) == if x.Command? then |q| + 1 else |q|
    decreases |q|
  {
    if q != [] {
      AheadStays(q[1..], x);
      assert (q + [x])[1..] == q[1..] + [x];
    } else {
      assert [x][1..] == [];
    }
  }

  /** What the close is waiting for: the commands up to the sentinel are those of the goal. */
  ghost predicate CloserOk(s: State) {
    var q := Items(s);
    match s.closer
    case Open => Ahead(q) == |q| && !s.drain.Finished?
    case ClosedUnused => Ahead(q) == |q| && !s.drain.Finished?
    case Starting(before) =>
      Ahead(q) == |q| && !s.drain.Finished? && !s.drain.NotStarted? && before <= s.put
    case Awaiting(before, goal) =>
      && before <= goal <= s.put && !s.drain.NotStarted?
      && (if s.drain.Finished? then s.dispatched == goal
          else Ahead(q) < |q| && s.dispatched + InHand(s) + CommandsIn(q[..Ahead(q)]) == goal)
    case Closed(before, goal) => before <= goal <= s.put && s.drain.Finished? && s.dispatched == goal
  }

  ghost predicate Inv(s: State) {
    && s.dispatched + InHand(s) + CommandsIn(Items(s)) == s.put
    && s.drainsCreated == (if s.drain.NotStarted? then 0 else 1)
    && (s.queue.None? ==> s.drain.NotStarted? && s.put == [] && s.putters == map[])
    && CloserOk(s)
  }

  lemma PutKeeps(s: State, step: Step)
    requires Inv(s) && Enabled(s, step) && (step.PutActivate? || step.PutSchedule? || step.RunScheduledStart?)
    ensures Inv(Do(s, step))
  {
    var s' := Do(s, step);
    assert Items(s') == Items(s) && InHand(s') == InHand(s);
  }

  lemma EnqueueKeeps(s: State, t: Thread)
    requires Inv(s) && Enabled(s, PutEnqueue(t))
    ensures Inv(Do(s, PutEnqueue(t)))
  {
    var s' := Do(s, PutEnqueue(t));
    var q, x := Items(s), Command(PutterOf(s, t).c);
    CommandsInBack(q, x);
    AheadStays(q, x);
    assert s'.put == s'.dispatched + InHand(s') + CommandsIn(Items(s'));
    assert Ahead(q) < |q| ==> (q + [x])[..Ahead(q)] == q[..Ahead(q)];
  }

  lemma GetSentinelKeeps(s: State)
    requires Inv(s) && Enabled(s, Get) && Items(s)[0].Sentinel?
    ensures Inv(Do(s, Get))
  {
    var q := Items(s);
    CommandsInFront(q);
    assert s.dispatched + [] == s.dispatched;
    assert CommandsIn(q[..0]) == [];
  }

  lemma AheadOfRest(q: seq<Item>)
    requires q != [] && q[0].Command?
    ensures Ahead(q) == 1 + Ahead(q[1..])
    ensures CommandsIn(q[..Ahead(q)]) == [q[0].c] + CommandsIn(q[1..][..Ahead(q[1..])])
  {
    var front := q[..Ahead(q)];
    CommandsInFront(front);
    assert front[1..] == q[1..][..Ahead(q[1..])];
  }

  lemma GetCommandKeeps(s: State)
    requires Inv(s) && Enabled(s, Get) && Items(s)[0].Command?
    ensures Inv(Do(s, Get))
  {
    var q := Items(s);
    var rest := q[1..];
    CommandsInFront(q);
    AheadOfRest(q);
    assert s.dispatched + [] == s.dispatched;
    assert s.dispatched + ([q[0].c] + CommandsIn(rest)) == s.dispatched + [q[0].c] + CommandsIn(rest);
    assert s.dispatched + ([q[0].c] + CommandsIn(rest[..Ahead(rest)])) ==
           s.dispatched + [q[0].c] + CommandsIn(rest[..Ahead(rest)]);
  }

  lemma GetKeeps(s: State)
    requires Inv(s) && Enabled(s, Get)
    ensures Inv(Do(s, Get))
  {
    if Items(s)[0].Sentinel? {
      GetSentinelKeeps(s);
    } else {
      GetCommandKeeps(s);
    }
  }

  lemma DispatchKeeps(s: State, ok: bool)
    requires Inv(s) && Enabled(s, Dispatch(ok))
    ensures Inv(Do(s, Dispatch(ok)))
  {
    var s' := Do(s, Dispatch(ok));
    assert s'.dispatched + InHand(s') == s.dispatched + InHand(s);
  }

  lemma SentinelKeeps(s: State)
    requires Inv(s) && Enabled(s, CloseSentinel)
    ensures Inv(Do(s, CloseSentinel))
  {
    var s' := Do(s, CloseSentinel);
    var q := Items(s);
    CommandsInBack(q, Sentinel);
    AheadStays(q, Sentinel);
    assert Items(s')[..|q|] == q && InHand(s') == InHand(s);
  }

  lemma CloseKeeps(s: State, step: Step)
    requires Inv(s) && Enabled(s, step) && (step.CloseBegin? || step.CloseReturn?)
    ensures Inv(Do(s, step))
  {
    var s' := Do(s, step);
    assert InHand(s') == InHand(s) && Items(s') == Items(s);
  }

  lemma {:induction false} RunsKeep(steps: seq<Step>)
    requires Run(steps).Some?
    ensures Inv(Run(steps).value)
    decreases |steps|
  {
    if steps != [] {
      RunsKeep(steps[..|steps| - 1]);
      var s, step := Run(steps[..|steps| - 1]).value, steps[|steps| - 1];
      match step
      case PutActivate(_, _) => PutKeeps(s, step);
      case PutSchedule(_, _) => PutKeeps(s, step);
      case RunScheduledStart => PutKeeps(s, step);
      case PutEnqueue(t) => EnqueueKeeps(s, t);
      case Get => GetKeeps(s);
      case Dispatch(ok) => DispatchKeeps(s, ok);
      case CloseSentinel => SentinelKeeps(s);
      case _ => CloseKeeps(s, step);
    }
  }

  /** For every interleaving: at most one drain task is created; dispatched, in-hand and queued commands together
      are the commands put, in order; and once the close has returned, the commands dispatched are a prefix of
      those put that contains every command put before it began. A command that fails is dispatched all the same. */
  lemma ClosedMeansDispatched(steps: seq<Step>, s: State)
    requires Run(steps) == Some(s)
    ensures s.drainsCreated <= 1
    ensures s.dispatched + InHand(s) + CommandsIn(Items(s)) == s.put
    ensures s.closer.Closed? ==> s.closer.before <= s.dispatched <= s.put && s.drain.Finished?
  {
    RunsKeep(steps);
  }

  /** A close that finds no queue finds no command either. */
  lemma UnusedMeansNothingPut(steps: seq<Step>, s: State)
    requires Run(steps) == Some(s) && s.closer.Open? && Do(s, CloseBegin).closer.ClosedUnused?
    ensures s.put == [] && s.drainsCreated == 0
  {
    RunsKeep(steps);
  }

  // ---------------------------------------------------------------------------------------------
  // The close does return
  // ---------------------------------------------------------------------------------------------

  function Remaining(s: State): nat {
    if s.drain.Finished? then 0 else 1 + 2 * Ahead(Items(s)) + |InHand(s)|
  }

  /** While a close waits, the drain always has a next step, that step brings it nearer, and no step of anyone takes
      it further away; so it ends after finitely many drain steps. */
  lemma CloseReturnsEventually(steps: seq<Step>, s: State, other: Step)
    requires Run(steps) == Some(s) && s.closer.Awaiting?
    ensures s.drain.Finished? ==> Enabled(s, CloseReturn)
    ensures !s.drain.Finished? ==> Enabled(s, Get) || Enabled(s, Dispatch(true))
    ensures Enabled(s, Get) ==> Remaining(Do(s, Get)) < Remaining(s)
    ensures Enabled(s, Dispatch(true)) ==> Remaining(Do(s, Dispatch(true))) < Remaining(s)
    ensures Enabled(s, other) ==> Remaining(Do(s, other)) <= Remaining(s)
  {
    RunsKeep(steps);
    if other.PutEnqueue? && Enabled(s, other) {
      AheadStays(Items(s), Command(PutterOf(s, other.t).c));
    }
  }
}
