/** Concrete runs in which two calls on one status publisher lose an event or the hint, and exactly which step can lower
    the hint over a durable list that is not empty. */
module OverlapCases {
  import opened Options
  import opened SharedPublisher
  import opened PublisherOverlap

  // ---------------------------------------------------------------------------------------------
  // Two calls that flush at once
  // ---------------------------------------------------------------------------------------------

  /** A call that comes with `e` and can publish nothing from memory. */
  lemma FailedFlush(l: Limits, s: State, t: State, e: Item) returns (u: State)
    requires Reaches(l, s, t, false) && |t.calls| > 0 && t.calls[0].Idle? && e !in t.recorded && l.batch > 0
    ensures Reaches(l, s, u, false)
    ensures u == t.(recorded := t.recorded + [e], calls := t.calls[0 := Sending(e)])
  {
    u := Next(l, s, t, Begin(0, Some(e)));
    u := Next(l, s, u, SkipDurable(0));
    if t.pending != [] {
      u := Next(l, s, u, Publish(0, false));
    }
    assert u.calls == t.calls[0 := Sending(e)];
  }

  /** Nor that one: it is kept in memory. */
  lemma FailedRecord(l: Limits, s: State, t: State, e: Item) returns (u: State)
    requires Reaches(l, s, t, false) && |t.calls| > 0 && t.calls[0].Idle? && e !in t.recorded && l.batch > 0
    requires |t.pending| < l.cap || t.pending == []
    ensures u == t.(recorded := t.recorded + [e], pending := t.pending + [e], kept := t.kept + [e])
    ensures Reaches(l, s, u, false)
  {
    u := FailedFlush(l, s, t, e);
    u := Next(l, s, u, SendOwn(0, false));
    u := Next(l, s, u, Keep(0, false));
    assert u.calls == t.calls;
  }

  lemma Next(l: Limits, s: State, t: State, step: Step) returns (u: State)
    requires Reaches(l, s, t, false) && Enabled(l, t, step)
    ensures u == Do(l, t, step) && Reaches(l, s, u, false)
  {
    ReachesNext(l, s, t, false, step);
    u := Do(l, t, step);
  }

  /** Two calls come with an event each, and both read the head before either publishes it. */
  lemma BothRead(l: Limits, s: State, t: State, a: Item, b: Item) returns (u: State)
    requires Reaches(l, s, t, false) && t.calls == [Idle, Idle] && t.pending != [] && l.batch > 0
    requires a !in t.recorded && b !in t.recorded && a != b
    ensures Reaches(l, s, u, false)
    ensures u == t.(recorded := t.recorded + [a, b],
                    calls := [Reading(t.pending[0], Some(a), 0), Reading(t.pending[0], Some(b), 0)])
  {
    u := Next(l, s, t, Begin(0, Some(a)));
    u := Next(l, s, u, Begin(1, Some(b)));
    assert u == t.(recorded := t.recorded + [a, b], calls := [Entering(Some(a)), Entering(Some(b))]);
    u := Next(l, s, u, SkipDurable(0));
    u := Next(l, s, u, SkipDurable(1));
    assert u.calls == [Reading(t.pending[0], Some(a), 0), Reading(t.pending[0], Some(b), 0)];
  }

  /** So both publish it. */
  lemma BothPublish(l: Limits, s: State, t: State, a: Item, b: Item) returns (u: State)
    requires Reaches(l, s, t, false) && t.calls == [Idle, Idle] && t.pending != [] && l.batch > 0
    requires a !in t.recorded && b !in t.recorded && a != b
    ensures Reaches(l, s, u, false) && u.pending == t.pending && u.recorded == t.recorded + [a, b]
    ensures u.stream == t.stream + [t.pending[0], t.pending[0]] && u.abandoned == t.abandoned
    ensures u.calls == [Sent(t.pending[0], Some(a), 0), Sent(t.pending[0], Some(b), 0)]
    ensures u.durable == t.durable && u.dropped == t.dropped && u.trimmed == t.trimmed
  {
    u := BothRead(l, s, t, a, b);
    u := Next(l, s, u, Publish(0, true));
    u := Next(l, s, u, Publish(1, true));
  }

  lemma {:induction false} NoHand(calls: seq<Pc>, e: Item)
    requires forall c :: 0 <= c < |calls| ==> Own(calls[c]) != Some(e)
    ensures InHand(calls, e) == 0
  {
    if calls != [] {
      NoHand(calls[..|calls| - 1], e);
    }
  }

  lemma IsLost(s: State, e: Item)
    requires e in s.recorded && e !in s.stream + s.pending + s.durable + s.dropped + s.trimmed
    requires forall c :: 0 <= c < |s.calls| ==> Own(s.calls[c]) != Some(e) && (Busy(s.calls[c]) ==> s.calls[c].p != e)
    ensures Lost(s, e)
  {
    NoHand(s.calls, e);
  }

  /** The second of two pops finds nothing left. */
  lemma PopRaises(l: Limits, s: State, t: State, p: Item, a: Item, b: Item) returns (u: State)
    requires Reaches(l, s, t, false) && t.pending == [p] && t.calls == [Sent(p, Some(a), 0), Sent(p, Some(b), 0)]
    ensures Reaches(l, s, u, false) && u.pending == [] && u.calls == [Sending(a), Idle]
    ensures u.recorded == t.recorded && u.stream == t.stream && u.abandoned == t.abandoned + [b]
    ensures u.durable == t.durable && u.dropped == t.dropped && u.trimmed == t.trimmed
  {
    u := Next(l, s, t, Pop(0));
    assert u.calls == [Sending(a), Sent(p, Some(b), 0)];
    u := Next(l, s, u, Pop(1));
  }

  /** One event waits: it is published twice, and the second pop finds nothing and raises; the event its call had come
      to record is lost. */
  lemma SecondPopRaises(l: Limits)
    requires l.batch > 0
    ensures exists t :: Reaches(l, Start(2), t, false) && t.stream == [1, 1] && t.abandoned == [3] && Lost(t, 3)
  {
    ReachesSelf(l, Start(2), false);
    var t := FailedRecord(l, Start(2), Start(2), 1);
    t := BothPublish(l, Start(2), t, 2, 3);
    t := PopRaises(l, Start(2), t, 1, 2, 3);
    IsLost(t, 3);
  }

  lemma TwoWait(l: Limits) returns (t: State)
    requires l.batch > 0 && l.cap > 1
    ensures Reaches(l, Start(2), t, false) && t.pending == t.recorded == [1, 2] && t.calls == [Idle, Idle]
    ensures t.stream == t.abandoned == t.durable == t.dropped == t.trimmed == []
  {
    ReachesSelf(l, Start(2), false);
    t := FailedRecord(l, Start(2), Start(2), 1);
    t := FailedRecord(l, Start(2), t, 2);
  }

  /** The second of two pops takes what the first call may already have read; that is then not published. */
  lemma PopsAnother(l: Limits, s: State, t: State, p: Item, q: Item, a: Item, b: Item) returns (u: State)
    requires Reaches(l, s, t, false) && t.pending == [p, q]
    requires t.calls == [Sent(p, Some(a), 0), Sent(p, Some(b), 0)]
    ensures Reaches(l, s, u, false) && u.pending == [] && u.calls == [Sending(a), Sending(b)]
    ensures u.recorded == t.recorded && u.stream == t.stream && u.abandoned == t.abandoned
    ensures u.durable == t.durable && u.dropped == t.dropped && u.trimmed == t.trimmed
  {
    u := Next(l, s, t, Pop(0));
    var reading := if 1 < l.batch then Reading(q, Some(a), 1) else Sending(a);
    assert u.pending == [q] && u.calls == [reading, Sent(p, Some(b), 0)];
    u := Next(l, s, u, Pop(1));
    assert u.pending == [] && u.calls == [reading, Sending(b)];
    if 1 < l.batch {
      u := Next(l, s, u, Publish(0, false));
    }
  }

  /** Two events wait: the first is published twice and both are popped. The first call reads the second before it is
      popped, if its batch allows, and when it fails to publish it, or does not read on, that one is lost; nothing is
      counted as dropped. */
  lemma SecondEventLost(l: Limits)
    requires l.batch > 0 && l.cap > 1
    ensures exists t :: Reaches(l, Start(2), t, false) && t.stream == [1, 1] && t.pending == [] && t.dropped == []
                        && t.abandoned == [] && Lost(t, 2)
  {
    var t := TwoWait(l);
    t := BothPublish(l, Start(2), t, 3, 4);
    t := PopsAnother(l, Start(2), t, 1, 2, 3, 4);
    IsLost(t, 2);
  }

  // ---------------------------------------------------------------------------------------------
  // The hint
  // ---------------------------------------------------------------------------------------------

  /** While events wait in the durable list, the hint says so or a call is about to set it. */
  predicate HintSound(s: State) {
    s.durable != [] ==> s.hint || exists c :: 0 <= c < |s.calls| && s.calls[c].Noting?
  }

  /** A call sets the hint back over a list that has filled since it saw it empty. */
  predicate StaleHint(s: State, step: Step) {
    && step.SetHint? && step.c < |s.calls| && s.calls[step.c].HintDue? && !s.calls[step.c].more && s.durable != []
    && forall d :: 0 <= d < |s.calls| ==> !s.calls[d].Noting?
  }

  lemma HintBreaksExactly(l: Limits, s: State, step: Step)
    requires Enabled(l, s, step) && HintSound(s)
    ensures HintSound(Do(l, s, step)) <==> !StaleHint(s, step)
  {
    var s' := Do(l, s, step);
    if !step.MoveDurable? && !step.Trim? && !step.Note? {
      OthersStay(l, s, step);
      if d :| 0 <= d < |s.calls| && s.calls[d].Noting? {
        assert d != step.c ==> s'.calls[d].Noting?;
      }
      if step.Keep? && step.durably {
        assert s'.calls[step.c].Noting?;
      }
      if StaleHint(s, step) {
        assert forall d :: 0 <= d < |s.calls| && d != step.c ==> s'.calls[d] == s.calls[d];
      }
    }
  }

  /** A call finds the durable list flushed by another, which it takes for more to come. */
  lemma FindsLocked(l: Limits, s: State, t: State, pc: Pc, e: Item) returns (u: State)
    requires Reaches(l, s, t, false) && t.calls == [pc, Idle] && e !in t.recorded && t.pending == []
    requires l.durable && t.hint
    ensures Reaches(l, s, u, false) && u.calls == [pc, Sending(e)] && u.durable == t.durable && u.pending == []
  {
    u := Next(l, s, t, Begin(1, Some(e)));
    u := Next(l, s, u, EnterDurable(1));
    u := Next(l, s, u, DurableDone(1, true));
    u := Next(l, s, u, SetHint(1));
  }

  lemma KeptDurably(l: Limits, s: State, t: State, pc: Pc, e: Item) returns (u: State)
    requires Reaches(l, s, t, false) && t.calls == [pc, Sending(e)] && t.pending == [] && l.durable
    ensures Reaches(l, s, u, false) && u.calls == [pc, Idle] && u.durable == t.durable + [e] && u.pending == []
  {
    u := Next(l, s, t, SendOwn(1, false));
    u := Next(l, s, u, Keep(1, true));
    u := Next(l, s, u, Note(1));
  }

  /** A forced flush has found the list empty and still has to set the hint. */
  lemma SeesEmpty(l: Limits, s: State, t: State) returns (u: State)
    requires Reaches(l, s, t, false) && t.calls == [Idle, Idle] && t.durable == [] && l.durable
    ensures Reaches(l, s, u, false) && u == t.(calls := [HintDue(false, None), Idle], hint := true)
  {
    u := Next(l, s, t, Begin(0, None));
    u := Next(l, s, u, EnterDurable(0));
    u := Next(l, s, u, DurableDone(0, false));
    assert u.calls == [HintDue(false, None), Idle];
  }

  /** Two calls reach it: the list is not empty, the hint is down, and no call is about to raise it. */
  lemma HintLost(l: Limits)
    requires l.durable
    ensures exists t :: Reaches(l, Start(2), t, false) && t.durable == [1] && !t.hint && t.calls == [Idle, Idle]
  {
    ReachesSelf(l, Start(2), false);
    var t := SeesEmpty(l, Start(2), Start(2));
    t := FindsLocked(l, Start(2), t, HintDue(false, None), 1);
    t := KeptDurably(l, Start(2), t, HintDue(false, None), 1);
    t := Next(l, Start(2), t, SetHint(0));
    assert t.calls == [Idle, Idle];
  }
}
