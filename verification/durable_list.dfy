/** Many workers share one durable list. Any of them appends at its tail at any time; the holder of the flush lock
    publishes the head and then pops it. The steps below are the single Redis calls, which interleave freely. */
module DurableList {
  import opened Options

  type Worker = nat
  type Item = nat

  /** Where a worker is inside its flush. `sofar` counts the entries popped in this batch. */
  datatype Pc =
    | Idle
    | Locked(sofar: nat)
    | Read(x: Item, sofar: nat)
    | Sent(x: Item, sofar: nat)
    | Leaving
    | Releasing

  datatype State = State(durable: seq<Item>, stream: seq<Item>, pushed: seq<Item>, popped: seq<Item>,
                         lock: Option<Worker>, pcs: map<Worker, Pc>, crashes: nat)

  datatype Step =
    | Push(x: Item)
    | Trim(cap: nat)
    | Acquire(w: Worker)
    | Peek(w: Worker, batch: nat)
    | Send(w: Worker, ok: bool)
    | Pop(w: Worker)
    | CheckLock(w: Worker, ok: bool)
    | DropLock(w: Worker, ok: bool)
    | Crash(w: Worker)
    | Expire

  const INIT := State([], [], [], [], None, map[], 0)

  function PcOf(s: State, w: Worker): Pc { if w in s.pcs then s.pcs[w] else Idle }

  function At(s: State, w: Worker, pc: Pc): State { s.(pcs := s.pcs[w := pc]) }

  predicate Enabled(s: State, step: Step) {
    match step
    case Acquire(w) => PcOf(s, w).Idle?
    case Peek(w, _) => PcOf(s, w).Locked?
    case Send(w, _) => PcOf(s, w).Read?
    case Pop(w) => PcOf(s, w).Sent?
    case CheckLock(w, _) => PcOf(s, w).Leaving?
    case DropLock(w, _) => PcOf(s, w).Releasing?
    case _ => true
  }

  function Do(s: State, step: Step): State
    requires Enabled(s, step)
  {
    match step
    case Push(x) => s.(durable := s.durable + [x], pushed := s.pushed + [x])
    case Trim(cap) => if |s.durable| <= cap then s else s.(durable := s.durable[|s.durable| - cap..])
    case Acquire(w) => if s.lock.None? then At(s, w, Locked(0)).(lock := Some(w)) else s
    case Peek(w, batch) =>
      var n := PcOf(s, w).sofar;
      if n >= batch || s.durable == [] then At(s, w, Leaving) else At(s, w, Read(s.durable[0], n))
    case Send(w, ok) =>
      var pc := PcOf(s, w);
      if ok then At(s, w, Sent(pc.x, pc.sofar)).(stream := s.stream + [pc.x]) else At(s, w, Leaving)
    case Pop(w) =>
      var s' := At(s, w, Locked(PcOf(s, w).sofar + 1));
      if s.durable == [] then s' else s'.(durable := s.durable[1..], popped := s.popped + [s.durable[0]])
    case CheckLock(w, ok) => At(s, w, if ok && s.lock == Some(w) then Releasing else Idle)
    case DropLock(w, ok) =>
      var s' := At(s, w, Idle);
      if ok then s'.(lock := None) else s'
    case Crash(w) => At(s, w, Idle).(crashes := s.crashes + 1)
    case Expire => s.(lock := None)
  }

  /** What the configuration is chosen to ensure: the list is not so long that a trim reaches its head, and the
      lock outlives the flush it protects. */
  ghost predicate Timely(s: State, step: Step) {
    && (step.Trim? ==> |s.durable| <= step.cap)
    && (step.Expire? ==> forall w: Worker :: PcOf(s, w).Idle?)
  }

  /** The state after a run of enabled steps; with `timely`, of timely steps only. */
  ghost function Run(steps: seq<Step>, timely: bool): Option<State>
    decreases |steps|
  {
    if steps == [] then Some(INIT)
    else
      var before, last := Run(steps[..|steps| - 1], timely), steps[|steps| - 1];
      if before.Some? && Enabled(before.value, last) && (timely ==> Timely(before.value, last)) then
        Some(Do(before.value, last))
      else None
  }

  // ---------------------------------------------------------------------------------------------
  // Stuttering: the same entries in the same order, some repeated on the spot
  // ---------------------------------------------------------------------------------------------

  ghost predicate Stutters(s: seq<Item>, b: seq<Item>)
    decreases |s|
  {
    if s == [] then b == []
    else
      && b != [] && s[|s| - 1] == b[|b| - 1]
      && (Stutters(s[..|s| - 1], b[..|b| - 1]) || Stutters(s[..|s| - 1], b))
  }

  lemma StutterNew(s: seq<Item>, b: seq<Item>, x: Item)
    requires Stutters(s, b)
    ensures Stutters(s + [x], b + [x])
  {
    assert (s + [x])[..|s|] == s && (b + [x])[..|b|] == b;
  }

  lemma StutterAgain(s: seq<Item>, b: seq<Item>, x: Item)
    requires Stutters(s, b + [x])
    ensures Stutters(s + [x], b + [x])
  {
    assert (s + [x])[..|s|] == s;
  }

  lemma {:induction false} StutterLength(s: seq<Item>, b: seq<Item>)
    requires Stutters(s, b)
    ensures |b| <= |s| && (|b| == |s| ==> s == b)
    decreases |s|
  {
    if s != [] {
      var s', b' := s[..|s| - 1], b[..|b| - 1];
      assert s == s' + [s[|s| - 1]] && b == b' + [b[|b| - 1]];
      if Stutters(s', b') {
        StutterLength(s', b');
      } else {
        StutterLength(s', b);
      }
    }
  }

  // ---------------------------------------------------------------------------------------------
  // The invariant of all timely runs
  // ---------------------------------------------------------------------------------------------

  predicate HeadSent(s: State) { s.lock.Some? && PcOf(s, s.lock.value).Sent? }

  /** The stream holds the popped entries, or those and the present head, which a crash may have left behind. */
  ghost predicate StreamFollows(s: State) {
    || (Stutters(s.stream, s.popped) && !HeadSent(s))
    || (s.durable != [] && Stutters(s.stream, s.popped + [s.durable[0]]))
  }

  ghost predicate Inv(s: State) {
    && (forall w: Worker :: PcOf(s, w).Idle? || s.lock == Some(w))
    && (forall w: Worker :: PcOf(s, w).Read? || PcOf(s, w).Sent? ==> s.durable != [] && s.durable[0] == PcOf(s, w).x)
    && s.pushed == s.popped + s.durable
    && StreamFollows(s)
    && |s.stream| <= |s.popped| + s.crashes + (if HeadSent(s) then 1 else 0)
  }

  lemma PcAfter(s: State, w: Worker, pc: Pc, v: Worker)
    ensures PcOf(At(s, w, pc), v) == if v == w then pc else PcOf(s, v)
  {
  }

  lemma PushKeeps(s: State, x: Item)
    requires Inv(s)
    ensures Inv(Do(s, Push(x)))
  {
    var s' := Do(s, Push(x));
    assert forall w: Worker :: PcOf(s', w) == PcOf(s, w);
    assert s'.pushed == s'.popped + s'.durable;
    if s.durable != [] {
      assert s'.durable[0] == s.durable[0];
    }
  }

  lemma AcquireKeeps(s: State, w: Worker)
    requires Inv(s) && Enabled(s, Acquire(w))
    ensures Inv(Do(s, Acquire(w)))
  {
    var s' := Do(s, Acquire(w));
    forall v: Worker ensures PcOf(s', v) == if v == w && s.lock.None? then Locked(0) else PcOf(s, v) {
      PcAfter(s, w, Locked(0), v);
    }
  }

  lemma PeekKeeps(s: State, w: Worker, batch: nat)
    requires Inv(s) && Enabled(s, Peek(w, batch))
    ensures Inv(Do(s, Peek(w, batch)))
  {
    var s' := Do(s, Peek(w, batch));
    forall v: Worker ensures v != w ==> PcOf(s', v) == PcOf(s, v) {
    }
  }

  lemma SendKeeps(s: State, w: Worker, ok: bool)
    requires Inv(s) && Enabled(s, Send(w, ok))
    ensures Inv(Do(s, Send(w, ok)))
  {
    var s' := Do(s, Send(w, ok));
    forall v: Worker ensures v != w ==> PcOf(s', v) == PcOf(s, v) {
    }
    assert s.lock == Some(w);
    if ok {
      var x := PcOf(s, w).x;
      if Stutters(s.stream, s.popped) {
        StutterNew(s.stream, s.popped, x);
      } else {
        StutterAgain(s.stream, s.popped, x);
      }
    }
  }

  lemma PopKeeps(s: State, w: Worker)
    requires Inv(s) && Enabled(s, Pop(w))
    ensures Inv(Do(s, Pop(w)))
    ensures Do(s, Pop(w)).popped == s.popped + [PcOf(s, w).x]
  {
    var s' := Do(s, Pop(w));
    forall v: Worker ensures v != w ==> PcOf(s', v) == PcOf(s, v) {
    }
    assert s.lock == Some(w);
    assert s.durable == [s.durable[0]] + s.durable[1..];
    assert s'.pushed == s'.popped + s'.durable;
  }

  lemma LeaveKeeps(s: State, step: Step)
    requires Inv(s) && Enabled(s, step) && Timely(s, step)
    requires step.CheckLock? || step.DropLock? || step.Crash? || step.Expire?
    ensures Inv(Do(s, step))
  {
    var s' := Do(s, step);
    forall v: Worker ensures PcOf(s', v) == PcOf(s, v) || !(PcOf(s', v).Read? || PcOf(s', v).Sent?) {
    }
    assert step.DropLock? ==> s.lock == Some(step.w);
    forall v: Worker ensures PcOf(s', v).Idle? || s'.lock == Some(v) {
      assert PcOf(s, v).Idle? || s.lock == Some(v);
    }
  }

  lemma StepKeeps(s: State, step: Step)
    requires Inv(s) && Enabled(s, step) && Timely(s, step)
    ensures Inv(Do(s, step))
  {
    match step
    case Push(x) => PushKeeps(s, x);
    case Trim(cap) =>
    case Acquire(w) => AcquireKeeps(s, w);
    case Peek(w, batch) => PeekKeeps(s, w, batch);
    case Send(w, ok) => SendKeeps(s, w, ok);
    case Pop(w) => PopKeeps(s, w);
    case _ => LeaveKeeps(s, step);
  }

  lemma {:induction false} TimelyRunsKeep(steps: seq<Step>)
    requires Run(steps, true).Some?
    ensures Inv(Run(steps, true).value)
    decreases |steps|
  {
    if steps != [] {
      var before := steps[..|steps| - 1];
      TimelyRunsKeep(before);
      StepKeeps(Run(before, true).value, steps[|steps| - 1]);
    }
  }

  function InFlight(s: State): seq<Item> { if HeadSent(s) then [PcOf(s, s.lock.value).x] else [] }

  /** In every timely run, whatever the interleaving: nothing leaves the list but by a pop, in first-in-first-out
      order; every pop takes the entry its worker has just published; at most one worker is inside a flush; and the
      stream is the popped list, give or take the head in flight, with at most one repetition for each crash. */
  lemma FlushedOnceInOrder(steps: seq<Step>, s: State)
    requires Run(steps, true) == Some(s)
    ensures s.pushed == s.popped + s.durable
    ensures forall w: Worker :: PcOf(s, w).Sent? ==> Do(s, Pop(w)).popped == s.popped + [PcOf(s, w).x]
    ensures forall v: Worker, w: Worker :: !PcOf(s, v).Idle? && !PcOf(s, w).Idle? ==> v == w
    ensures Stutters(s.stream, s.popped) || (s.durable != [] && Stutters(s.stream, s.popped + [s.durable[0]]))
    ensures |s.stream| <= |s.popped| + |InFlight(s)| + s.crashes
    ensures s.crashes == 0 ==> s.stream == s.popped + InFlight(s)
  {
    TimelyRunsKeep(steps);
    forall w: Worker | PcOf(s, w).Sent? ensures Do(s, Pop(w)).popped == s.popped + [PcOf(s, w).x] {
      PopKeeps(s, w);
    }
    if s.crashes == 0 {
      if Stutters(s.stream, s.popped) && !HeadSent(s) {
        StutterLength(s.stream, s.popped);
      } else {
        StutterLength(s.stream, s.popped + [s.durable[0]]);
      }
    }
  }

  /** How far a worker has come in its batch. */
  ghost predicate InBatch(s: State, batch: nat) {
    forall w: Worker ::
      && (PcOf(s, w).Locked? ==> PcOf(s, w).sofar <= batch)
      && (PcOf(s, w).Read? || PcOf(s, w).Sent? ==> PcOf(s, w).sofar < batch)
  }

  lemma StepInBatch(s: State, step: Step, batch: nat)
    requires InBatch(s, batch) && Enabled(s, step) && (step.Peek? ==> step.batch == batch)
    ensures InBatch(Do(s, step), batch)
  {
    var s' := Do(s, step);
    if !step.Push? && !step.Trim? && !step.Expire? {
      forall v: Worker ensures v != step.w ==> PcOf(s', v) == PcOf(s, v) {
      }
    } else {
      assert forall v: Worker :: PcOf(s', v) == PcOf(s, v);
    }
  }

  /** Whatever the interleaving, timely or not: no flush publishes more than its batch, and it ends at the first publish
      that fails. */
  lemma {:induction false} FlushesEnd(steps: seq<Step>, timely: bool, batch: nat)
    requires Run(steps, timely).Some? && forall i :: 0 <= i < |steps| && steps[i].Peek? ==> steps[i].batch == batch
    ensures var s := Run(steps, timely).value;
            && InBatch(s, batch)
            && forall w: Worker :: PcOf(s, w).Read? ==> PcOf(Do(s, Send(w, false)), w).Leaving?
    decreases |steps|
  {
    if steps != [] {
      var before := steps[..|steps| - 1];
      FlushesEnd(before, timely, batch);
      StepInBatch(Run(before, timely).value, steps[|steps| - 1], batch);
    }
  }

  // ---------------------------------------------------------------------------------------------
  // Both conditions are needed
  // ---------------------------------------------------------------------------------------------

  /** Two entries pushed, and one worker between publish and pop. */
  const HALFWAY := [Push(7), Push(8), Acquire(0), Peek(0, 1), Send(0, true)]

  lemma RunMore(steps: seq<Step>, step: Step, timely: bool)
    requires Run(steps, timely).Some? && Enabled(Run(steps, timely).value, step)
    requires timely ==> Timely(Run(steps, timely).value, step)
    ensures Run(steps + [step], timely) == Some(Do(Run(steps, timely).value, step))
  {
    assert (steps + [step])[..|steps|] == steps;
  }

  /** A timely run reaches the states the two lemmas below start from. */
  lemma HalfwayReached()
    ensures var s := Run(HALFWAY, true);
            && s.Some? && Inv(s.value) && PcOf(s.value, 0).Sent? && PcOf(s.value, 1).Idle? && s.value.durable == [7, 8]
  {
    RunMore([], Push(7), true);
    RunMore([] + [Push(7)], Push(8), true);
    RunMore([] + [Push(7)] + [Push(8)], Acquire(0), true);
    RunMore([] + [Push(7)] + [Push(8)] + [Acquire(0)], Peek(0, 1), true);
    RunMore([] + [Push(7)] + [Push(8)] + [Acquire(0)] + [Peek(0, 1)], Send(0, true), true);
    assert HALFWAY == [] + [Push(7)] + [Push(8)] + [Acquire(0)] + [Peek(0, 1)] + [Send(0, true)];
    TimelyRunsKeep(HALFWAY);
  }

  /** If the lock expires between publish and pop and another worker flushes, the head is published twice and the
      entry behind it is popped unpublished. */
  lemma ExpiryLosesAndDuplicates(s: State, v: Worker, w: Worker)
    requires Inv(s) && PcOf(s, v).Sent? && PcOf(s, w).Idle? && |s.durable| >= 2
    ensures var s1 := Do(Do(s, Expire), Acquire(w));
            && Enabled(s1, Peek(w, 1))
            && var s2 := Do(s1, Peek(w, 1));
            && Enabled(s2, Send(w, true))
            && var s3 := Do(s2, Send(w, true));
            && Enabled(s3, Pop(v))
            && var s4 := Do(s3, Pop(v));
            && Enabled(s4, Pop(w))
            && var s5 := Do(s4, Pop(w));
            && s5.stream == s.stream + [s.durable[0]]
            && s5.popped == s.popped + s.durable[..2]
  {
    var s1 := Do(Do(s, Expire), Acquire(w));
    var s2 := Do(s1, Peek(w, 1));
    var s3 := Do(s2, Send(w, true));
    var s4 := Do(s3, Pop(v));
    assert PcOf(s3, v) == PcOf(s, v) && PcOf(s4, w).Sent?;
    assert s4.durable == s.durable[1..] && s4.popped == s.popped + [s.durable[0]];
    assert s.durable[..2] == [s.durable[0], s.durable[1]];
  }

  /** If a trim reaches the head between publish and pop, the entry then popped is another, unpublished one. */
  lemma TrimLoses(s: State, v: Worker, cap: nat)
    requires Inv(s) && PcOf(s, v).Sent? && 1 <= cap < |s.durable|
    ensures var s' := Do(Do(s, Trim(cap)), Pop(v));
            s'.stream == s.stream && s'.popped == s.popped + [s.durable[|s.durable| - cap]]
  {
    assert PcOf(Do(s, Trim(cap)), v) == PcOf(s, v);
  }

  /** A worker that found nothing and is about to remove its lock. */
  const ON_THE_WAY_OUT := [Acquire(0), Peek(0, 1), CheckLock(0, true)]

  lemma OnTheWayOutReached()
    ensures var s := Run(ON_THE_WAY_OUT, true);
            && s.Some? && PcOf(s.value, 0).Releasing? && PcOf(s.value, 1).Idle? && PcOf(s.value, 2).Idle?
  {
    RunMore([], Acquire(0), true);
    RunMore([] + [Acquire(0)], Peek(0, 1), true);
    RunMore([] + [Acquire(0)] + [Peek(0, 1)], CheckLock(0, true), true);
    assert ON_THE_WAY_OUT == [] + [Acquire(0)] + [Peek(0, 1)] + [CheckLock(0, true)];
  }

  /** If the lock expires between the holder's look at it and its removal, another worker's lock is removed, and a
      third worker flushes beside it. */
  lemma ExpiryFreesAnothersLock(s: State, u: Worker, v: Worker, w: Worker)
    requires PcOf(s, u).Releasing? && PcOf(s, v).Idle? && PcOf(s, w).Idle? && v != w
    ensures var s1 := Do(Do(s, Expire), Acquire(v));
            && Enabled(s1, DropLock(u, true))
            && var s2 := Do(s1, DropLock(u, true));
            && Enabled(s2, Acquire(w))
            && var s3 := Do(s2, Acquire(w));
            PcOf(s3, v).Locked? && PcOf(s3, w).Locked?
  {
    var s1 := Do(Do(s, Expire), Acquire(v));
    assert PcOf(s1, u) == PcOf(s, u) && PcOf(s1, w) == PcOf(s, w);
    var s2 := Do(s1, DropLock(u, true));
    assert PcOf(s2, v) == PcOf(s1, v) && PcOf(s2, w) == PcOf(s1, w);
  }
}
