/** What overlapping calls on one status publisher keep and what they lose. Runs in which no call reads or pushes out
    the head while another is between its reading and its pop conserve every event; any other step can be continued to
    an event lost or published twice. */
module PublisherOverlap {
  import opened Options
  import opened Interleaving
  import opened SharedPublisher

  // ---------------------------------------------------------------------------------------------
  // What every run keeps
  // ---------------------------------------------------------------------------------------------

  /** Memory is first in first out: what has left it was popped or pushed out, in the order it was kept. */
  ghost predicate FirstInFirstOut(l: Limits, s: State) {
    && s.kept == s.left + s.pending && Interleaves(s.left, s.popped, s.dropped)
    && |s.pending| <= (if l.cap < 1 then 1 else l.cap)
  }

  lemma LeavesMemory(left: seq<Item>, popped: seq<Item>, dropped: seq<Item>, e: Item)
    requires Interleaves(left, popped, dropped)
    ensures Interleaves(left + [e], popped + [e], dropped) && Interleaves(left + [e], popped, dropped + [e])
  {
    assert (left + [e])[..|left|] == left;
    assert (popped + [e])[..|popped|] == popped;
    assert (dropped + [e])[..|dropped|] == dropped;
  }

  lemma HeadMoves(left: seq<Item>, pending: seq<Item>, more: seq<Item>)
    requires pending != []
    ensures left + [pending[0]] + (pending[1..] + more) == left + pending + more
  {
    assert pending == [pending[0]] + pending[1..];
  }

  lemma PopFirstInFirstOut(l: Limits, s: State, c: nat)
    requires FirstInFirstOut(l, s) && c < |s.calls| && s.calls[c].Sent?
    ensures FirstInFirstOut(l, DoPop(l, s, c))
  {
    if s.pending != [] {
      HeadMoves(s.left, s.pending, []);
      LeavesMemory(s.left, s.popped, s.dropped, s.pending[0]);
    }
  }

  lemma OverflowFirstInFirstOut(l: Limits, s: State, c: nat)
    requires FirstInFirstOut(l, s) && c < |s.calls| && s.calls[c].Keeping? && Overflows(l, s)
    ensures FirstInFirstOut(l, DoKeep(l, s, c, false))
  {
    var s' := DoKeep(l, s, c, false);
    HeadMoves(s.left, s.pending, [s.calls[c].e]);
    LeavesMemory(s.left, s.popped, s.dropped, s.pending[0]);
    assert s'.popped == s.popped && s'.left == s.left + [s.pending[0]] && s'.dropped == s.dropped + [s.pending[0]];
  }

  lemma KeepFirstInFirstOut(l: Limits, s: State, c: nat, durably: bool)
    requires FirstInFirstOut(l, s) && c < |s.calls| && s.calls[c].Keeping?
    ensures FirstInFirstOut(l, DoKeep(l, s, c, durably))
  {
    if !durably && Overflows(l, s) {
      OverflowFirstInFirstOut(l, s, c);
    } else {
      var s' := DoKeep(l, s, c, durably);
      assert s'.left == s.left && s'.popped == s.popped && s'.dropped == s.dropped;
    }
  }

  lemma StepFirstInFirstOut(l: Limits, s: State, step: Step)
    requires FirstInFirstOut(l, s) && Enabled(l, s, step)
    ensures FirstInFirstOut(l, Do(l, s, step))
  {
    var s' := Do(l, s, step);
    if step.Pop? {
      PopFirstInFirstOut(l, s, step.c);
    } else if step.Keep? {
      KeepFirstInFirstOut(l, s, step.c, step.durably);
    } else {
      assert s'.kept == s.kept && s'.left == s.left && s'.pending == s.pending;
      assert s'.popped == s.popped && s'.dropped == s.dropped;
    }
  }

  // ---------------------------------------------------------------------------------------------
  // What quiet runs keep
  // ---------------------------------------------------------------------------------------------

  predicate OneBusy(s: State) {
    forall a, b :: 0 <= a < |s.calls| && 0 <= b < |s.calls| && Busy(s.calls[a]) && Busy(s.calls[b]) ==> a == b
  }

  /** The head a call has read is still the head. */
  predicate HeadStays(s: State) {
    forall c :: 0 <= c < |s.calls| && Busy(s.calls[c]) ==> s.pending != [] && s.pending[0] == s.calls[c].p
  }

  predicate NoneSent(s: State) { forall c :: 0 <= c < |s.calls| ==> !s.calls[c].Sent? }

  /** Flushes publish what they pop, in the same order, each once; one event may be published and not yet popped. */
  predicate FlushedInOrder(s: State) {
    && (NoneSent(s) ==> s.flushed == s.popped)
    && forall c :: 0 <= c < |s.calls| && s.calls[c].Sent? ==>
         s.flushed == s.popped + [s.calls[c].p] && s.calls[c].p in s.stream
  }

  predicate InTurn(s: State) { OneBusy(s) && HeadStays(s) && FlushedInOrder(s) && s.abandoned == [] }

  ghost predicate OnceRecorded(s: State) { forall e: Item :: Times(s.recorded, e) <= 1 }

  ghost predicate Orderly(l: Limits, s: State) {
    Apart(s) && OnceRecorded(s) && Balanced(s) && FirstInFirstOut(l, s) && InTurn(s)
  }

  /** A call that is and was not between reading and popping leaves the others in turn. */
  lemma InTurnApartFrom(s: State, s': State, c: nat)
    requires InTurn(s) && c < |s.calls| == |s'.calls| && s'.calls == s.calls[c := s'.calls[c]]
    requires !Busy(s.calls[c]) && !Busy(s'.calls[c])
    requires s'.flushed == s.flushed && s'.popped == s.popped && s'.abandoned == []
    requires forall e :: e in s.stream ==> e in s'.stream
    requires NoneBusyBut(s, c) || (s.pending != [] ==> s'.pending != [] && s'.pending[0] == s.pending[0])
    ensures InTurn(s')
  {
    assert forall d :: 0 <= d < |s.calls| && d != c ==> s'.calls[d] == s.calls[d];
    assert NoneSent(s') ==> NoneSent(s) by {
      assert forall d :: 0 <= d < |s.calls| && s.calls[d].Sent? ==> d != c && s'.calls[d].Sent?;
    }
  }

  /** A call that reads the head when no other is busy. */
  lemma InTurnReads(s: State, s': State, c: nat)
    requires InTurn(s) && c < |s.calls| == |s'.calls| && s'.calls == s.calls[c := s'.calls[c]] && NoneBusyBut(s, c)
    requires s'.calls[c].Reading? && s'.pending != [] && s'.calls[c].p == s'.pending[0]
    requires s'.flushed == s'.popped && s'.abandoned == []
    ensures InTurn(s')
  {
    assert forall d :: 0 <= d < |s.calls| && d != c ==> s'.calls[d] == s.calls[d];
  }

  lemma InTurnPass(l: Limits, s: State, step: Step)
    requires InTurn(s) && Enabled(l, s, step) && Passes(step) && Quiet(l, s, step)
    ensures InTurn(Do(l, s, step))
  {
    var s', c := Do(l, s, step), step.c;
    PassOn(l, s, step);
    if Busy(s'.calls[c]) {
      assert s'.calls[c].Reading? && Reads(l, s, step);
      assert NoneSent(s) by {
        assert forall d :: 0 <= d < |s.calls| && s.calls[d].Sent? ==> Busy(s.calls[d]);
      }
      InTurnReads(s, s', c);
    } else {
      InTurnApartFrom(s, s', c);
    }
  }

  lemma OthersNotBusy(s: State, c: nat)
    requires OneBusy(s) && c < |s.calls| && Busy(s.calls[c])
    ensures NoneBusyBut(s, c)
  {
  }

  lemma InTurnPublish(s: State, c: nat, ok: bool)
    requires InTurn(s) && c < |s.calls| && s.calls[c].Reading?
    ensures InTurn(DoPublish(s, c, ok))
  {
    var s' := DoPublish(s, c, ok);
    OthersNotBusy(s, c);
    assert forall d :: 0 <= d < |s.calls| && d != c ==> s'.calls[d] == s.calls[d];
    assert NoneSent(s) && (ok ==> s'.calls[c].Sent?);
  }

  lemma InTurnPop(l: Limits, s: State, c: nat)
    requires InTurn(s) && c < |s.calls| && s.calls[c].Sent?
    ensures InTurn(DoPop(l, s, c)) && TakesOwn(s, c)
  {
    var s' := DoPop(l, s, c);
    OthersNotBusy(s, c);
    assert TakesOwn(s, c) && s'.popped == s.popped + [s.calls[c].p];
    if Busy(s'.calls[c]) {
      InTurnReads(s, s', c);
    } else {
      assert forall d :: 0 <= d < |s.calls| && d != c ==> s'.calls[d] == s.calls[d];
    }
  }

  lemma InTurnKeep(l: Limits, s: State, c: nat, durably: bool)
    requires InTurn(s) && Enabled(l, s, Keep(c, durably)) && Quiet(l, s, Keep(c, durably))
    ensures InTurn(DoKeep(l, s, c, durably))
  {
    InTurnApartFrom(s, DoKeep(l, s, c, durably), c);
  }

  lemma InTurnSend(s: State, c: nat, ok: bool)
    requires InTurn(s) && c < |s.calls| && s.calls[c].Sending?
    ensures InTurn(DoSend(s, c, ok))
  {
    InTurnApartFrom(s, DoSend(s, c, ok), c);
  }

  lemma InTurnStep(l: Limits, s: State, step: Step)
    requires InTurn(s) && Enabled(l, s, step) && Quiet(l, s, step)
    ensures InTurn(Do(l, s, step))
  {
    if Passes(step) {
      InTurnPass(l, s, step);
    } else {
      match step
      case Begin(c, _) => InTurnApartFrom(s, Do(l, s, step), c);
      case Publish(c, ok) => InTurnPublish(s, c, ok);
      case Pop(c) => InTurnPop(l, s, c);
      case SendOwn(c, ok) => InTurnSend(s, c, ok);
      case Keep(c, durably) => InTurnKeep(l, s, c, durably);
      case _ =>
    }
  }

  lemma StepBalanced(l: Limits, s: State, step: Step)
    requires Balanced(s) && Apart(s) && Enabled(l, s, step)
    ensures Balanced(Do(l, s, step)) <==> (step.Pop? ==> TakesOwn(s, step.c))
  {
    if step.Pop? {
      OwnIsAnother(s, step.c);
      PopTips(l, s, step.c);
    } else {
      forall e: Item ensures Accounted(Do(l, s, step), e) {
        assert Accounted(s, e);
        StepKeepsAccounts(l, s, step, e);
      }
    }
  }

  lemma StepOnceRecorded(l: Limits, s: State, step: Step)
    requires OnceRecorded(s) && Enabled(l, s, step)
    ensures OnceRecorded(Do(l, s, step))
  {
    var s' := Do(l, s, step);
    if step.Begin? && step.own.Some? {
      forall e: Item ensures Times(s'.recorded, e) <= 1 {
        assert Times(s.recorded, e) <= 1;
        TimesJoined(s.recorded, [step.own.value], e);
      }
    } else {
      assert s'.recorded == s.recorded;
    }
  }

  lemma StepOrderly(l: Limits, s: State, step: Step)
    requires Orderly(l, s) && Enabled(l, s, step) && Quiet(l, s, step)
    ensures Orderly(l, Do(l, s, step))
  {
    ApartStep(l, s, step);
    StepOnceRecorded(l, s, step);
    StepFirstInFirstOut(l, s, step);
    InTurnStep(l, s, step);
    if step.Pop? {
      InTurnPop(l, s, step.c);
    }
    StepBalanced(l, s, step);
  }

  lemma StartOrderly(l: Limits, calls: nat)
    ensures Orderly(l, Start(calls))
  {
    StartApart(calls);
  }

  lemma {:induction false} RunOrderly(l: Limits, s: State, steps: seq<Step>)
    requires Orderly(l, s) && RunFrom(l, s, steps, true).Some?
    ensures Orderly(l, RunFrom(l, s, steps, true).value)
    decreases |steps|
  {
    if steps != [] {
      var before := steps[..|steps| - 1];
      RunOrderly(l, s, before);
      StepOrderly(l, RunFrom(l, s, before, true).value, steps[|steps| - 1]);
    }
  }

  /** However the steps of many calls interleave, if each is quiet: every event is in as many places as it was recorded,
      no call raises for want of a head, and flushes publish from memory what they pop, in the order it was kept. */
  lemma QuietRunsConserve(l: Limits, calls: nat, steps: seq<Step>)
    requires RunFrom(l, Start(calls), steps, true).Some?
    ensures var s := RunFrom(l, Start(calls), steps, true).value;
            && Balanced(s) && s.abandoned == [] && FirstInFirstOut(l, s) && FlushedInOrder(s)
            && (AllReturned(s) ==> multiset(s.recorded) == Everywhere(s) && s.flushed == s.popped)
  {
    StartOrderly(l, calls);
    RunOrderly(l, Start(calls), steps);
    var s := RunFrom(l, Start(calls), steps, true).value;
    if AllReturned(s) {
      BalancedMeansConserved(s);
    }
  }

  predicate AllReturned(s: State) { forall c :: 0 <= c < |s.calls| ==> s.calls[c].Idle? }

  /** The events that are published, waiting, or among the overflow. */
  function Everywhere(s: State): multiset<Item> {
    multiset(s.stream) + multiset(s.pending) + multiset(s.durable) + multiset(s.dropped) + multiset(s.trimmed)
  }

  lemma EverywhereCounts(s: State, e: Item)
    ensures Everywhere(s)[e] == Places(s, e)
  {
  }

  lemma BalancedMeansConserved(s: State)
    requires Balanced(s) && AllReturned(s)
    ensures multiset(s.recorded) == Everywhere(s)
  {
    forall e: Item ensures multiset(s.recorded)[e] == Everywhere(s)[e] {
      AllIdle(s.calls, e);
      EverywhereCounts(s, e);
      assert Accounted(s, e);
    }
  }

  // ---------------------------------------------------------------------------------------------
  // Over every interleaving, quiet or not
  // ---------------------------------------------------------------------------------------------

  /** How often the event is where no pop can take it from. */
  function Fixed(s: State, e: Item): nat {
    Times(s.stream, e) + Times(s.durable, e) + Times(s.dropped, e) + Times(s.trimmed, e)
  }

  lemma DurableFixed(l: Limits, s: State, step: Step, e: Item)
    requires Enabled(l, s, step) && (step.MoveDurable? || step.Trim?)
    ensures Fixed(Do(l, s, step), e) == Fixed(s, e)
  {
    TimesHead(s.durable, e);
    if step.MoveDurable? {
      TimesJoined(s.stream, [s.durable[0]], e);
    } else {
      TimesJoined(s.trimmed, [s.durable[0]], e);
    }
  }

  lemma KeepFixed(l: Limits, s: State, c: nat, durably: bool, e: Item)
    requires c < |s.calls| && s.calls[c].Keeping?
    ensures Fixed(DoKeep(l, s, c, durably), e) >= Fixed(s, e)
  {
    if durably {
      TimesJoined(s.durable, [s.calls[c].e], e);
    } else if Overflows(l, s) {
      TimesJoined(s.dropped, [s.pending[0]], e);
    }
  }

  lemma StreamGrows(l: Limits, s: State, step: Step)
    requires Enabled(l, s, step)
    ensures var s' := Do(l, s, step);
            s'.stream == s.stream || (|s'.stream| > 0 && s'.stream == s.stream + [s'.stream[|s'.stream| - 1]])
  {
  }

  lemma FixedGrows(l: Limits, s: State, step: Step, e: Item)
    requires Enabled(l, s, step)
    ensures Fixed(Do(l, s, step), e) >= Fixed(s, e)
  {
    if step.MoveDurable? || step.Trim? {
      DurableFixed(l, s, step, e);
    } else if step.Keep? {
      KeepFixed(l, s, step.c, step.durably, e);
    } else {
      var s' := Do(l, s, step);
      assert s'.durable == s.durable && s'.dropped == s.dropped && s'.trimmed == s.trimmed;
      StreamGrows(l, s, step);
    }
  }

  /** An event being published from memory is at its head, or no longer there. */
  predicate AtFront(s: State) {
    forall c :: 0 <= c < |s.calls| && Busy(s.calls[c]) && s.calls[c].p in s.pending ==> s.pending[0] == s.calls[c].p
  }

  lemma HeadOnce(q: seq<Item>)
    requires Distinct(q) && q != []
    ensures q[0] !in q[1..]
  {
  }

  lemma PopAtFront(l: Limits, s: State, c: nat)
    requires AtFront(s) && Apart(s) && c < |s.calls| && s.calls[c].Sent?
    ensures AtFront(DoPop(l, s, c))
  {
    var s' := DoPop(l, s, c);
    forall d | 0 <= d < |s.calls| && Busy(s'.calls[d]) && s'.calls[d].p in s'.pending
      ensures s'.pending[0] == s'.calls[d].p
    {
      HeadOnce(s.pending);
    }
  }

  lemma KeepAtFront(l: Limits, s: State, c: nat, durably: bool)
    requires AtFront(s) && Apart(s) && c < |s.calls| && s.calls[c].Keeping?
    ensures AtFront(DoKeep(l, s, c, durably))
  {
    var s', e := DoKeep(l, s, c, durably), s.calls[c].e;
    HeldIsNotPlaced(s, c, e);
    forall d | 0 <= d < |s.calls| && Busy(s'.calls[d]) && s'.calls[d].p in s'.pending
      ensures s'.pending[0] == s'.calls[d].p
    {
      var p := s.calls[d].p;
      assert d != c && p != e;
      HeadOnce(s.pending);
    }
  }

  lemma OneAtFront(s: State, s': State, c: nat)
    requires AtFront(s) && c < |s.calls| == |s'.calls| && s'.calls == s.calls[c := s'.calls[c]]
    requires s'.pending == s.pending
    requires Busy(s'.calls[c]) && s'.calls[c].p in s.pending ==> s'.calls[c].p == s.pending[0]
    ensures AtFront(s')
  {
    assert forall d :: 0 <= d < |s.calls| && d != c ==> s'.calls[d] == s.calls[d];
  }

  lemma StepAtFront(l: Limits, s: State, step: Step)
    requires AtFront(s) && Apart(s) && Enabled(l, s, step)
    ensures AtFront(Do(l, s, step))
  {
    if step.Pop? {
      PopAtFront(l, s, step.c);
    } else if step.Keep? {
      KeepAtFront(l, s, step.c, step.durably);
    } else if Passes(step) {
      PassOn(l, s, step);
      OneAtFront(s, Do(l, s, step), step.c);
    } else if step.Publish? {
      OneAtFront(s, DoPublish(s, step.c, step.ok), step.c);
    } else if step.SendOwn? {
      OneAtFront(s, DoSend(s, step.c, step.ok), step.c);
    } else if step.Begin? {
      OneAtFront(s, Do(l, s, step), step.c);
    }
  }

  lemma {:induction false} FlierInFlight(calls: seq<Pc>, c: nat, e: Item)
    requires c < |calls| && Flies(calls[c], e)
    ensures InFlight(calls, e) >= 1
  {
    if c < |calls| - 1 {
      FlierInFlight(calls[..|calls| - 1], c, e);
    }
  }

  ghost predicate Twice(s: State) { exists e: Item :: Fixed(s, e) >= 2 }

  /** What a call has published is, when its pop would take another event, out of memory and elsewhere twice. */
  lemma WrongPopIsTwice(s: State, c: nat)
    requires Balanced(s) && Apart(s) && AtFront(s) && c < |s.calls| && s.calls[c].Sent? && !TakesOwn(s, c)
    ensures Fixed(s, s.calls[c].p) >= 2
  {
    var p := s.calls[c].p;
    FlierInFlight(s.calls, c, p);
    assert p !in s.pending && Placed(s, p) && Accounted(s, p);
  }

  /** Every pop of the run takes off what its own call has published. */
  ghost predicate OwnPops(l: Limits, s: State, steps: seq<Step>)
    requires RunFrom(l, s, steps, false).Some?
    decreases |steps|
  {
    steps != [] ==>
      var before, last := steps[..|steps| - 1], steps[|steps| - 1];
      OwnPops(l, s, before) && (last.Pop? ==> TakesOwn(RunFrom(l, s, before, false).value, last.c))
  }

  /** A run of pops all its own stays balanced at every moment; after any other an event is somewhere twice for good. */
  lemma {:induction false} BalancedOrTwice(l: Limits, calls: nat, steps: seq<Step>)
    requires RunFrom(l, Start(calls), steps, false).Some?
    ensures var s := RunFrom(l, Start(calls), steps, false).value;
            && Apart(s) && AtFront(s) && OnceRecorded(s)
            && if OwnPops(l, Start(calls), steps) then Balanced(s) else Twice(s)
    decreases |steps|
  {
    RunApart(l, calls, steps, false);
    if steps == [] {
      StartApart(calls);
    } else {
      var before, last := steps[..|steps| - 1], steps[|steps| - 1];
      var s := RunFrom(l, Start(calls), before, false).value;
      BalancedOrTwice(l, calls, before);
      StepAtFront(l, s, last);
      StepOnceRecorded(l, s, last);
      if OwnPops(l, Start(calls), before) {
        StepBalanced(l, s, last);
        if last.Pop? && !TakesOwn(s, last.c) {
          WrongPopIsTwice(s, last.c);
          FixedGrows(l, s, last, s.calls[last.c].p);
        }
      } else {
        var e: Item :| Fixed(s, e) >= 2;
        FixedGrows(l, s, last, e);
      }
    }
  }

  /** Of any number of calls, interleaved in any way, once they have returned: what was recorded is what is published,
      waiting or among the overflow if and only if every pop took off what its own call had published. */
  lemma ConservedExactly(l: Limits, calls: nat, steps: seq<Step>)
    requires RunFrom(l, Start(calls), steps, false).Some?
    requires AllReturned(RunFrom(l, Start(calls), steps, false).value)
    ensures var s := RunFrom(l, Start(calls), steps, false).value;
            multiset(s.recorded) == Everywhere(s) <==> OwnPops(l, Start(calls), steps)
  {
    var s := RunFrom(l, Start(calls), steps, false).value;
    BalancedOrTwice(l, calls, steps);
    if OwnPops(l, Start(calls), steps) {
      BalancedMeansConserved(s);
    } else {
      var e: Item :| Fixed(s, e) >= 2;
      EverywhereCounts(s, e);
      assert Times(s.recorded, e) <= 1;
      assert Everywhere(s)[e] >= 2;
    }
  }

  // ---------------------------------------------------------------------------------------------
  // A step that is not quiet can be continued to a loss
  // ---------------------------------------------------------------------------------------------

  /** The event is in no place and in no hand, and no call is about to publish it. */
  ghost predicate Lost(s: State, e: Item) {
    && e in s.recorded && Places(s, e) == 0 && InHand(s.calls, e) == 0
    && forall c :: 0 <= c < |s.calls| && Busy(s.calls[c]) ==> s.calls[c].p != e
  }

  ghost predicate Spoilt(s: State) { exists e: Item :: Lost(s, e) || Times(s.stream, e) >= 2 }

  /** A step whose call does not have the event afterwards puts it into no hand. */
  lemma NotInHand(s: State, s': State, c: nat, e: Item)
    requires InHand(s.calls, e) == 0 && c < |s.calls| == |s'.calls| && s'.calls == s.calls[c := s'.calls[c]]
    requires Own(s'.calls[c]) != Some(e)
    ensures InHand(s'.calls, e) == 0
  {
    InHandUpdate(s.calls, c, s'.calls[c], e);
  }

  lemma NotHeld(s: State, c: nat, e: Item)
    requires InHand(s.calls, e) == 0 && c < |s.calls|
    ensures Own(s.calls[c]) != Some(e)
  {
    if Own(s.calls[c]) == Some(e) {
      HolderInHand(s.calls, c, e);
    }
  }

  lemma NotMovedHere(l: Limits, s: State, step: Step, e: Item)
    requires Enabled(l, s, step) && Lost(s, e) && (step.MoveDurable? || step.Trim?)
    ensures Lost(Do(l, s, step), e)
  {
    DurableFixed(l, s, step, e);
  }

  /** The calls after a step of one of them. */
  lemma OthersStay(l: Limits, s: State, step: Step)
    requires Enabled(l, s, step) && !step.MoveDurable? && !step.Trim?
    ensures var s' := Do(l, s, step);
            && step.c < |s.calls| == |s'.calls| && s'.calls == s.calls[step.c := s'.calls[step.c]]
            && (Own(s'.calls[step.c]) == Own(s.calls[step.c]) || Own(s'.calls[step.c]) == None || step.Begin?)
  {
  }

  lemma ReadsFromMemory(l: Limits, s: State, step: Step)
    requires Enabled(l, s, step) && !step.MoveDurable? && !step.Trim? && Busy(Do(l, s, step).calls[step.c])
    ensures var p := Do(l, s, step).calls[step.c].p;
            p in s.pending || (Busy(s.calls[step.c]) && p == s.calls[step.c].p)
  {
  }

  lemma KeepPlaces(l: Limits, s: State, c: nat, durably: bool, e: Item)
    requires c < |s.calls| && s.calls[c].Keeping? && s.calls[c].e != e && Places(s, e) == 0
    ensures Places(DoKeep(l, s, c, durably), e) == 0
  {
    var s' := DoKeep(l, s, c, durably);
    assert e !in s.pending && e !in s.durable && e !in s.dropped;
    assert e !in s'.pending && e !in s'.durable && e !in s'.dropped;
  }

  lemma SendPlaces(s: State, c: nat, ok: bool, e: Item)
    requires c < |s.calls| && s.calls[c].Sending? && s.calls[c].e != e && Places(s, e) == 0
    ensures Places(DoSend(s, c, ok), e) == 0
  {
    TimesJoined(s.stream, [s.calls[c].e], e);
  }

  lemma PublishPlaces(s: State, c: nat, ok: bool, e: Item)
    requires c < |s.calls| && s.calls[c].Reading? && s.calls[c].p != e && Places(s, e) == 0
    ensures Places(DoPublish(s, c, ok), e) == 0
  {
    TimesJoined(s.stream, [s.calls[c].p], e);
  }

  lemma PopPlaces(l: Limits, s: State, c: nat, e: Item)
    requires c < |s.calls| && s.calls[c].Sent? && Places(s, e) == 0
    ensures Places(DoPop(l, s, c), e) == 0
  {
    if s.pending != [] {
      TimesHead(s.pending, e);
    }
  }

  lemma PlacesOfLost(l: Limits, s: State, step: Step, e: Item)
    requires Enabled(l, s, step) && Lost(s, e) && !step.MoveDurable? && !step.Trim?
    ensures Places(Do(l, s, step), e) == 0
  {
    NotHeld(s, step.c, e);
    match step
    case Keep(c, durably) => KeepPlaces(l, s, c, durably, e);
    case SendOwn(c, ok) => SendPlaces(s, c, ok, e);
    case Publish(c, ok) => PublishPlaces(s, c, ok, e);
    case Pop(c) => PopPlaces(l, s, c, e);
    case _ =>
  }

  /** What is lost stays lost. */
  lemma LostForGood(l: Limits, s: State, step: Step, e: Item)
    requires Enabled(l, s, step) && Lost(s, e)
    ensures Lost(Do(l, s, step), e)
  {
    if step.MoveDurable? || step.Trim? {
      NotMovedHere(l, s, step, e);
    } else {
      OthersStay(l, s, step);
      NotHeld(s, step.c, e);
      NotInHand(s, Do(l, s, step), step.c, e);
      PlacesOfLost(l, s, step, e);
      if Busy(Do(l, s, step).calls[step.c]) {
        ReadsFromMemory(l, s, step);
      }
    }
  }

  /** No step makes up for it. */
  lemma SpoiltForGood(l: Limits, s: State, step: Step)
    requires Enabled(l, s, step) && Spoilt(s)
    ensures Spoilt(Do(l, s, step))
  {
    var e: Item :| Lost(s, e) || Times(s.stream, e) >= 2;
    if Lost(s, e) {
      LostForGood(l, s, step, e);
    } else {
      var s' := Do(l, s, step);
      StreamGrows(l, s, step);
      assert Times(s'.stream, e) >= Times(s.stream, e);
    }
  }

  lemma OrderlyIsNotSpoilt(l: Limits, s: State)
    requires Orderly(l, s)
    ensures !Spoilt(s)
  {
    forall e: Item ensures !Lost(s, e) && Times(s.stream, e) <= 1 {
      assert Accounted(s, e) && Times(s.recorded, e) <= 1;
      FlightsOfOne(s, e);
    }
  }

  /** At most one call has the event in flight, and then it is the head. */
  lemma FlightsOfOne(s: State, e: Item)
    requires InTurn(s)
    ensures InFlight(s.calls, e) == 0 || (InFlight(s.calls, e) == 1 && Times(s.pending, e) >= 1)
  {
    if c :| 0 <= c < |s.calls| && Flies(s.calls[c], e) {
      OnlyFlight(s.calls, c, e);
      assert s.pending[0] == e;
    } else {
      NoFlight(s.calls, e);
    }
  }

  lemma {:induction false} NoFlight(calls: seq<Pc>, e: Item)
    requires forall c :: 0 <= c < |calls| ==> !Flies(calls[c], e)
    ensures InFlight(calls, e) == 0
  {
    if calls != [] {
      NoFlight(calls[..|calls| - 1], e);
    }
  }

  lemma OnlyFlight(calls: seq<Pc>, c: nat, e: Item)
    requires c < |calls| && Flies(calls[c], e) && forall d :: 0 <= d < |calls| && d != c ==> !Busy(calls[d])
    ensures InFlight(calls, e) == 1
  {
    InFlightUpdate(calls, c, Idle, e);
    NoFlight(calls[c := Idle], e);
  }

  ghost predicate Reaches(l: Limits, s: State, t: State, quiet: bool) {
    exists steps :: RunFrom(l, s, steps, quiet) == Some(t)
  }

  lemma ReachesSelf(l: Limits, s: State, quiet: bool)
    ensures Reaches(l, s, s, quiet)
  {
    var none: seq<Step> := [];
    assert RunFrom(l, s, none, quiet) == Some(s);
  }

  lemma ReachesNext(l: Limits, s: State, t: State, quiet: bool, step: Step)
    requires Reaches(l, s, t, quiet) && Enabled(l, t, step) && (quiet ==> Quiet(l, t, step))
    ensures Reaches(l, s, Do(l, t, step), quiet)
  {
    var steps :| RunFrom(l, s, steps, quiet) == Some(t);
    var more := steps + [step];
    assert more[..|more| - 1] == steps;
    assert RunFrom(l, s, more, quiet) == Some(Do(l, t, step));
  }

  /** Quiet steps lead to an event lost or published twice. */
  ghost predicate CanSpoil(l: Limits, s: State) { exists t :: Reaches(l, s, t, true) && Spoilt(t) }

  /** A call that has read an event gets as far as having published it. */
  lemma Sends(l: Limits, s: State, t: State, c: nat) returns (u: State)
    requires Reaches(l, s, t, true) && c < |t.calls| && t.calls[c].Reading?
    ensures Reaches(l, s, u, true) && u == DoPublish(t, c, true)
  {
    ReachesNext(l, s, t, true, Publish(c, true));
    u := Do(l, t, Publish(c, true));
  }

  /** Two calls have read the same head: both publish it. */
  lemma SharedReadSpoils(l: Limits, s: State, a: nat, b: nat)
    requires a < |s.calls| && b < |s.calls| && a != b && Busy(s.calls[a]) && s.calls[b].Reading?
    requires s.calls[a].p == s.calls[b].p && (s.calls[a].Sent? ==> s.calls[a].p in s.stream)
    ensures CanSpoil(l, s)
  {
    var p := s.calls[b].p;
    ReachesSelf(l, s, true);
    var u := s;
    if s.calls[a].Reading? {
      u := Sends(l, s, s, a);
      assert u.stream == s.stream + [p];
    }
    assert p in u.stream && u.calls[b] == s.calls[b];
    var v := Sends(l, s, u, b);
    TimesJoined(u.stream, [p], p);
    assert Times(v.stream, p) >= 2;
  }

  /** One call has an event in flight that is no longer the head: its pop loses the event that is. */
  lemma StalePopLoses(l: Limits, s: State, t: State, a: nat)
    requires Reaches(l, s, t, true) && Apart(t) && OnceRecorded(t) && Balanced(t) && NoneBusyBut(t, a)
    requires a < |t.calls| && t.calls[a].Sent? && t.pending != [] && t.pending[0] != t.calls[a].p
    ensures CanSpoil(l, s)
  {
    var y := t.pending[0];
    var u := Do(l, t, Pop(a));
    assert Quiet(l, t, Pop(a));
    ReachesNext(l, s, t, true, Pop(a));
    ApartPop(l, t, a);
    assert Placed(t, y) && Accounted(t, y) && Times(t.recorded, y) == 1;
    NoFlight(t.calls, y);
    TimesHead(t.pending, y);
    HeadGone(l, t, a);
    assert Lost(u, y);
  }

  lemma HeadGone(l: Limits, t: State, a: nat)
    requires Apart(t) && a < |t.calls| && t.calls[a].Sent? && t.pending != [] && NoneBusyBut(t, a)
    ensures var u, y := DoPop(l, t, a), t.pending[0];
            && InHand(u.calls, y) == 0
            && forall c :: 0 <= c < |u.calls| && Busy(u.calls[c]) ==> u.calls[c].p != y
  {
    var u, y := DoPop(l, t, a), t.pending[0];
    assert Placed(t, y) && Eases(t, u, a);
    EasedHands(t, u, a, y);
    forall c | 0 <= c < |u.calls| && Busy(u.calls[c]) ensures u.calls[c].p != y {
      assert c == a && u.calls[c].p == t.pending[1..][0];
    }
  }

  lemma OverflowMakesStale(l: Limits, s: State, c: nat, a: nat)
    requires Orderly(l, s) && c < |s.calls| && s.calls[c].Keeping? && Overflows(l, s)
    requires a < |s.calls| && Busy(s.calls[a])
    ensures var t := DoKeep(l, s, c, false);
            && t.calls[a] == s.calls[a] && NoneBusyBut(t, a) && t.pending != [] && t.pending[0] != s.calls[a].p
  {
    var t, p := DoKeep(l, s, c, false), s.calls[a].p;
    HeldIsNotPlaced(s, c, s.calls[c].e);
    OthersNotBusy(s, a);
    assert s.pending[0] == p && s.calls[c].e != p;
    assert |s.pending| > 1 ==> t.pending[0] == s.pending[1];
  }

  /** Another call's overflow has pushed out the head one call is publishing. */
  lemma OverflowSpoils(l: Limits, s: State, c: nat, a: nat)
    requires Orderly(l, s) && Enabled(l, s, Keep(c, false)) && Overflows(l, s) && a < |s.calls| && Busy(s.calls[a])
    ensures CanSpoil(l, Do(l, s, Keep(c, false)))
  {
    var t := Do(l, s, Keep(c, false));
    ApartStep(l, s, Keep(c, false));
    StepBalanced(l, s, Keep(c, false));
    OverflowMakesStale(l, s, c, a);
    ReachesSelf(l, t, true);
    if t.calls[a].Sent? {
      StalePopLoses(l, t, t, a);
    } else {
      var u := Sends(l, t, t, a);
      ApartStep(l, t, Publish(a, true));
      StepBalanced(l, t, Publish(a, true));
      StalePopLoses(l, t, u, a);
    }
  }

  lemma NotQuietSpoils(l: Limits, s: State, step: Step)
    requires Orderly(l, s) && Enabled(l, s, step) && !Quiet(l, s, step)
    ensures CanSpoil(l, Do(l, s, step))
  {
    var a :| 0 <= a < |s.calls| && a != step.c && Busy(s.calls[a]);
    var t := Do(l, s, step);
    if step.Keep? {
      OverflowSpoils(l, s, step.c, a);
    } else {
      assert !step.Pop?;
      PassOn(l, s, step);
      SharedReadSpoils(l, t, a, step.c);
    }
  }

  /** The condition is exact at every step: after a quiet run, the next step can be continued, by quiet steps alone, to
      an event lost or published twice if and only if it is not quiet. */
  lemma QuietExactly(l: Limits, calls: nat, steps: seq<Step>, step: Step)
    requires RunFrom(l, Start(calls), steps, true).Some?
    requires Enabled(l, RunFrom(l, Start(calls), steps, true).value, step)
    ensures var s := RunFrom(l, Start(calls), steps, true).value;
            CanSpoil(l, Do(l, s, step)) <==> !Quiet(l, s, step)
  {
    StartOrderly(l, calls);
    RunOrderly(l, Start(calls), steps);
    var s := RunFrom(l, Start(calls), steps, true).value;
    if Quiet(l, s, step) {
      StepOrderly(l, s, step);
      forall t | Reaches(l, Do(l, s, step), t, true) ensures !Spoilt(t) {
        var more :| RunFrom(l, Do(l, s, step), more, true) == Some(t);
        RunOrderly(l, Do(l, s, step), more);
        OrderlyIsNotSpoilt(l, t);
      }
    } else {
      NotQuietSpoils(l, s, step);
    }
  }
}
