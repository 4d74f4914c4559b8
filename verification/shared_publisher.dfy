/** Many calls in flight on one status publisher: the processor tasks of a worker and their command drains share it on
    one event loop, and every awaited call lets the others go on. One step is what runs between two awaits: a call that
    has popped a head reads the next one at once. How flushes share the durable list is the subject of `DurableList`, a
    call being a worker there; here such a flush moves one head at a time. */
module SharedPublisher {
  import opened Options

  type Item = nat

  /** Where a call is. `own` is the event it has come to record; a call that only flushes has none, and is forced. A
      call that is `Reading` awaits the publish of `p`, one that is `Sent` awaits no more and pops next. */
  datatype Pc =
    | Idle
    | Entering(own: Option<Item>)
    | Draining(own: Option<Item>)
    | HintDue(more: bool, own: Option<Item>)
    | Reading(p: Item, own: Option<Item>, n: nat)
    | Sent(p: Item, own: Option<Item>, n: nat)
    | Sending(e: Item)
    | Keeping(e: Item)
    | Noting

  datatype Limits = Limits(cap: nat, batch: nat, durable: bool, durableCap: nat)

  /** `kept` and `left` are what has entered and left memory, `flushed` and `popped` what a flush of memory has
      published and taken off; `abandoned` are events whose call raised. */
  datatype State = State(
    stream: seq<Item>, durable: seq<Item>, pending: seq<Item>, dropped: seq<Item>, trimmed: seq<Item>, hint: bool,
    calls: seq<Pc>, recorded: seq<Item>, kept: seq<Item>, left: seq<Item>, flushed: seq<Item>, popped: seq<Item>,
    abandoned: seq<Item>)

  datatype Step =
    | Begin(c: nat, own: Option<Item>)
    | Probe(c: nat)
    | SkipDurable(c: nat)
    | EnterDurable(c: nat)
    | MoveDurable
    | DurableDone(c: nat, more: bool)
    | SetHint(c: nat)
    | Publish(c: nat, ok: bool)
    | Pop(c: nat)
    | SendOwn(c: nat, ok: bool)
    | Keep(c: nat, durably: bool)
    | Note(c: nat)
    | Trim

  function Start(calls: nat): State {
    State([], [], [], [], [], false, seq(calls, _ => Idle), [], [], [], [], [], [])
  }

  predicate Enabled(l: Limits, s: State, step: Step) {
    match step
    case MoveDurable => s.durable != []
    case Trim => |s.durable| > l.durableCap
    case _ =>
      && step.c < |s.calls|
      && var pc := s.calls[step.c];
         match step
         case Begin(_, own) => pc.Idle? && (own.Some? ==> own.value !in s.recorded)
         case Probe(_) => pc.Entering? && l.durable
         case SkipDurable(_) => pc.Entering? && (l.durable ==> pc.own.Some?)
         case EnterDurable(_) => pc.Entering? && l.durable && (pc.own.None? || s.hint)
         case DurableDone(_, more) => pc.Draining? && (more || s.durable == [])
         case SetHint(_) => pc.HintDue?
         case Publish(_, _) => pc.Reading?
         case Pop(_) => pc.Sent?
         case SendOwn(_, _) => pc.Sending?
         case Keep(_, durably) => pc.Keeping? && (durably ==> l.durable)
         case Note(_) => pc.Noting?
  }

  function At(s: State, c: nat, pc: Pc): State
    requires c < |s.calls|
  {
    s.(calls := s.calls[c := pc])
  }

  function ListOf(own: Option<Item>): seq<Item> { if own.Some? then [own.value] else [] }

  /** After the flush a recording call publishes its own event, and a flushing call returns. */
  function AfterFlush(own: Option<Item>): Pc { if own.Some? then Sending(own.value) else Idle }

  /** The test at the top of the flush loop. */
  function ReadHead(l: Limits, pending: seq<Item>, own: Option<Item>, n: nat): Pc {
    if pending != [] && n < l.batch then Reading(pending[0], own, n) else AfterFlush(own)
  }

  predicate Overflows(l: Limits, s: State) { s.pending != [] && |s.pending| >= l.cap }

  function DoPop(l: Limits, s: State, c: nat): State
    requires c < |s.calls| && s.calls[c].Sent?
  {
    var pc := s.calls[c];
    if s.pending == [] then At(s, c, Idle).(abandoned := s.abandoned + ListOf(pc.own))
    else
      var head, rest := s.pending[0], s.pending[1..];
      At(s, c, ReadHead(l, rest, pc.own, pc.n + 1))
      .(pending := rest, left := s.left + [head], popped := s.popped + [head])
  }

  function DoKeep(l: Limits, s: State, c: nat, durably: bool): State
    requires c < |s.calls| && s.calls[c].Keeping?
  {
    var e := s.calls[c].e;
    if durably then At(s, c, Noting).(durable := s.durable + [e])
    else if Overflows(l, s) then
      At(s, c, Idle).(pending := s.pending[1..] + [e], kept := s.kept + [e], left := s.left + [s.pending[0]],
                      dropped := s.dropped + [s.pending[0]])
    else At(s, c, Idle).(pending := s.pending + [e], kept := s.kept + [e])
  }

  function DoPublish(s: State, c: nat, ok: bool): State
    requires c < |s.calls| && s.calls[c].Reading?
  {
    var pc := s.calls[c];
    if ok then At(s, c, Sent(pc.p, pc.own, pc.n)).(stream := s.stream + [pc.p], flushed := s.flushed + [pc.p])
    else At(s, c, AfterFlush(pc.own))
  }

  function DoSend(s: State, c: nat, ok: bool): State
    requires c < |s.calls| && s.calls[c].Sending?
  {
    var e := s.calls[c].e;
    if ok then At(s, c, Idle).(stream := s.stream + [e]) else At(s, c, Keeping(e))
  }

  function Do(l: Limits, s: State, step: Step): State
    requires Enabled(l, s, step)
  {
    match step
    case Begin(c, own) => At(s, c, Entering(own)).(recorded := s.recorded + ListOf(own), hint := s.hint || own.None?)
    case Probe(_) => s.(hint := s.hint || s.durable != [])
    case SkipDurable(c) => At(s, c, ReadHead(l, s.pending, s.calls[c].own, 0))
    case EnterDurable(c) => At(s, c, Draining(s.calls[c].own))
    case MoveDurable => s.(durable := s.durable[1..], stream := s.stream + [s.durable[0]])
    case DurableDone(c, more) => At(s, c, HintDue(more, s.calls[c].own))
    case SetHint(c) => At(s, c, ReadHead(l, s.pending, s.calls[c].own, 0)).(hint := s.calls[c].more)
    case Publish(c, ok) => DoPublish(s, c, ok)
    case Pop(c) => DoPop(l, s, c)
    case SendOwn(c, ok) => DoSend(s, c, ok)
    case Keep(c, durably) => DoKeep(l, s, c, durably)
    case Note(c) => At(s, c, Idle).(hint := true)
    case Trim => s.(durable := s.durable[1..], trimmed := s.trimmed + [s.durable[0]])
  }

  /** Between the reading of a head and its pop. */
  predicate Busy(pc: Pc) { pc.Reading? || pc.Sent? }

  predicate NoneBusyBut(s: State, c: nat) { forall d :: 0 <= d < |s.calls| && d != c ==> !Busy(s.calls[d]) }

  predicate Reads(l: Limits, s: State, step: Step)
    requires Enabled(l, s, step)
  {
    (step.SkipDurable? || step.SetHint? || step.Pop?) && Do(l, s, step).calls[step.c].Reading?
  }

  /** No call reads the head, and none pushes it out, while another is between its reading and its pop. */
  predicate Quiet(l: Limits, s: State, step: Step)
    requires Enabled(l, s, step)
  {
    Reads(l, s, step) || (step.Keep? && !step.durably && Overflows(l, s)) ==> NoneBusyBut(s, step.c)
  }

  /** The state after a run of enabled steps from `s`; with `quiet`, of quiet steps only. */
  ghost function RunFrom(l: Limits, s: State, steps: seq<Step>, quiet: bool): Option<State>
    decreases |steps|
  {
    if steps == [] then Some(s)
    else
      var before, last := RunFrom(l, s, steps[..|steps| - 1], quiet), steps[|steps| - 1];
      if before.Some? && Enabled(l, before.value, last) && (quiet ==> Quiet(l, before.value, last)) then
        Some(Do(l, before.value, last))
      else None
  }

  // ---------------------------------------------------------------------------------------------
  // Accounts
  // ---------------------------------------------------------------------------------------------

  function Own(pc: Pc): Option<Item> {
    match pc
    case Idle => None
    case Noting => None
    case Sending(e) => Some(e)
    case Keeping(e) => Some(e)
    case _ => pc.own
  }

  predicate Holds(pc: Pc, e: Item) { Own(pc) == Some(e) }

  predicate Flies(pc: Pc, e: Item) { pc.Sent? && pc.p == e }

  /** How many calls have the event in their hands. */
  function InHand(calls: seq<Pc>, e: Item): nat {
    if calls == [] then 0
    else InHand(calls[..|calls| - 1], e) + (if Holds(calls[|calls| - 1], e) then 1 else 0)
  }

  /** How many calls have published the event from memory and not popped yet: it is in two places. */
  function InFlight(calls: seq<Pc>, e: Item): nat {
    if calls == [] then 0
    else InFlight(calls[..|calls| - 1], e) + (if Flies(calls[|calls| - 1], e) then 1 else 0)
  }

  function Times(q: seq<Item>, e: Item): nat { multiset(q)[e] }

  function Places(s: State, e: Item): nat {
    Times(s.stream, e) + Times(s.pending, e) + Times(s.durable, e) + Times(s.dropped, e) +
    Times(s.trimmed, e)
  }

  /** The event is in as many places and hands as it was recorded. */
  predicate Accounted(s: State, e: Item) {
    Places(s, e) + InHand(s.calls, e) == Times(s.recorded, e) + InFlight(s.calls, e)
  }

  ghost predicate Balanced(s: State) { forall e: Item :: Accounted(s, e) }

  lemma {:induction false} InHandUpdate(calls: seq<Pc>, c: nat, pc: Pc, e: Item)
    requires c < |calls|
    ensures InHand(calls[c := pc], e) + (if Holds(calls[c], e) then 1 else 0) ==
            InHand(calls, e) + (if Holds(pc, e) then 1 else 0)
  {
    var front := calls[..|calls| - 1];
    if c < |front| {
      InHandUpdate(front, c, pc, e);
      assert calls[c := pc][..|calls| - 1] == front[c := pc];
    } else {
      assert calls[c := pc][..|calls| - 1] == front;
    }
  }

  lemma {:induction false} InFlightUpdate(calls: seq<Pc>, c: nat, pc: Pc, e: Item)
    requires c < |calls|
    ensures InFlight(calls[c := pc], e) + (if Flies(calls[c], e) then 1 else 0) ==
            InFlight(calls, e) + (if Flies(pc, e) then 1 else 0)
  {
    var front := calls[..|calls| - 1];
    if c < |front| {
      InFlightUpdate(front, c, pc, e);
      assert calls[c := pc][..|calls| - 1] == front[c := pc];
    } else {
      assert calls[c := pc][..|calls| - 1] == front;
    }
  }

  lemma {:induction false} AllIdle(calls: seq<Pc>, e: Item)
    requires forall c :: 0 <= c < |calls| ==> calls[c].Idle?
    ensures InHand(calls, e) == 0 && InFlight(calls, e) == 0
  {
    if calls != [] {
      AllIdle(calls[..|calls| - 1], e);
    }
  }

  lemma {:induction false} HolderInHand(calls: seq<Pc>, c: nat, e: Item)
    requires c < |calls| && Holds(calls[c], e)
    ensures InHand(calls, e) >= 1
  {
    if c < |calls| - 1 {
      HolderInHand(calls[..|calls| - 1], c, e);
    }
  }

  lemma TimesJoined(a: seq<Item>, b: seq<Item>, e: Item)
    ensures Times(a + b, e) == Times(a, e) + Times(b, e)
  {
  }

  lemma TimesOwn(own: Option<Item>, e: Item)
    ensures Times(ListOf(own), e) == if own == Some(e) then 1 else 0
  {
  }

  lemma TimesHead(q: seq<Item>, e: Item)
    requires q != []
    ensures Times(q, e) == Times(q[1..], e) + (if q[0] == e then 1 else 0)
  {
    assert q == [q[0]] + q[1..];
  }

  // ---------------------------------------------------------------------------------------------
  // Which step tips the balance
  // ---------------------------------------------------------------------------------------------

  /** The pop takes off what its call has published. */
  predicate TakesOwn(s: State, c: nat)
    requires c < |s.calls| && s.calls[c].Sent?
  {
    s.pending != [] && s.pending[0] == s.calls[c].p
  }

  function Hand(pc: Pc, e: Item): nat { if Holds(pc, e) then 1 else 0 }

  function Flight(pc: Pc, e: Item): nat { if Flies(pc, e) then 1 else 0 }

  /** When one call moves, the event stays accounted for exactly when what it gains is what it loses. */
  lemma MoveAccounts(s: State, s': State, c: nat, e: Item)
    requires c < |s.calls| == |s'.calls| && s'.calls == s.calls[c := s'.calls[c]] && Accounted(s, e)
    ensures Accounted(s', e) <==>
            Places(s', e) - Places(s, e) + Hand(s'.calls[c], e) - Hand(s.calls[c], e) ==
            Times(s'.recorded, e) - Times(s.recorded, e) + Flight(s'.calls[c], e) - Flight(s.calls[c], e)
  {
    InHandUpdate(s.calls, c, s'.calls[c], e);
    InFlightUpdate(s.calls, c, s'.calls[c], e);
  }

  /** A call that only goes on. */
  lemma AtKeeps(s: State, c: nat, pc: Pc, e: Item)
    requires c < |s.calls| && Accounted(s, e)
    requires Own(pc) == Own(s.calls[c]) && !pc.Sent? && !s.calls[c].Sent?
    ensures Accounted(At(s, c, pc), e)
  {
    InHandUpdate(s.calls, c, pc, e);
    InFlightUpdate(s.calls, c, pc, e);
  }

  /** A call that goes on with what it has come for. */
  predicate Passes(step: Step) {
    step.SkipDurable? || step.EnterDurable? || step.DurableDone? || step.SetHint? || step.Note?
  }

  lemma PassOn(l: Limits, s: State, step: Step)
    requires Enabled(l, s, step) && Passes(step)
    ensures var s' := Do(l, s, step);
            && s' == At(s, step.c, s'.calls[step.c]).(hint := s'.hint)
            && Own(s'.calls[step.c]) == Own(s.calls[step.c]) && !s'.calls[step.c].Sent? && !Busy(s.calls[step.c])
            && (Busy(s'.calls[step.c]) ==> s.pending != [] && s'.calls[step.c].p == s.pending[0])
  {
  }

  lemma PassKeeps(l: Limits, s: State, step: Step, e: Item)
    requires Enabled(l, s, step) && Passes(step) && Accounted(s, e)
    ensures Accounted(Do(l, s, step), e)
  {
    PassOn(l, s, step);
    AtKeeps(s, step.c, Do(l, s, step).calls[step.c], e);
  }

  lemma MoveDurableKeeps(l: Limits, s: State, e: Item)
    requires Enabled(l, s, MoveDurable) && Accounted(s, e)
    ensures Accounted(Do(l, s, MoveDurable), e)
  {
    TimesHead(s.durable, e);
    TimesJoined(s.stream, [s.durable[0]], e);
  }

  lemma TrimKeeps(l: Limits, s: State, e: Item)
    requires Enabled(l, s, Trim) && Accounted(s, e)
    ensures Accounted(Do(l, s, Trim), e)
  {
    TimesHead(s.durable, e);
    TimesJoined(s.trimmed, [s.durable[0]], e);
  }

  lemma BeginKeeps(l: Limits, s: State, c: nat, own: Option<Item>, e: Item)
    requires Enabled(l, s, Begin(c, own)) && Accounted(s, e)
    ensures Accounted(Do(l, s, Begin(c, own)), e)
  {
    MoveAccounts(s, Do(l, s, Begin(c, own)), c, e);
    TimesOwn(own, e);
    TimesJoined(s.recorded, ListOf(own), e);
  }

  lemma SendKeeps(s: State, c: nat, ok: bool, e: Item)
    requires c < |s.calls| && s.calls[c].Sending? && Accounted(s, e)
    ensures Accounted(DoSend(s, c, ok), e)
  {
    MoveAccounts(s, DoSend(s, c, ok), c, e);
    TimesJoined(s.stream, [s.calls[c].e], e);
  }

  lemma KeepKeeps(l: Limits, s: State, c: nat, durably: bool, e: Item)
    requires c < |s.calls| && s.calls[c].Keeping? && Accounted(s, e) && (durably || !Overflows(l, s))
    ensures Accounted(DoKeep(l, s, c, durably), e)
  {
    MoveAccounts(s, DoKeep(l, s, c, durably), c, e);
    TimesJoined(s.durable, [s.calls[c].e], e);
    TimesJoined(s.pending, [s.calls[c].e], e);
  }

  lemma OverflowKeeps(l: Limits, s: State, c: nat, e: Item)
    requires c < |s.calls| && s.calls[c].Keeping? && Accounted(s, e) && Overflows(l, s)
    ensures Accounted(DoKeep(l, s, c, false), e)
  {
    MoveAccounts(s, DoKeep(l, s, c, false), c, e);
    TimesHead(s.pending, e);
    TimesJoined(s.pending[1..], [s.calls[c].e], e);
    TimesJoined(s.dropped, [s.pending[0]], e);
  }

  lemma PublishKeeps(s: State, c: nat, ok: bool, e: Item)
    requires c < |s.calls| && s.calls[c].Reading? && Accounted(s, e)
    ensures Accounted(DoPublish(s, c, ok), e)
  {
    MoveAccounts(s, DoPublish(s, c, ok), c, e);
    TimesJoined(s.stream, [s.calls[c].p], e);
  }

  /** No step but a pop can tip the balance. */
  lemma StepKeepsAccounts(l: Limits, s: State, step: Step, e: Item)
    requires Enabled(l, s, step) && Accounted(s, e) && !step.Pop?
    ensures Accounted(Do(l, s, step), e)
  {
    if Passes(step) {
      PassKeeps(l, s, step, e);
    } else {
      match step
      case Begin(c, own) => BeginKeeps(l, s, c, own, e);
      case MoveDurable => MoveDurableKeeps(l, s, e);
      case Publish(c, ok) => PublishKeeps(s, c, ok, e);
      case SendOwn(c, ok) => SendKeeps(s, c, ok, e);
      case Keep(c, durably) =>
        if !durably && Overflows(l, s) {
          OverflowKeeps(l, s, c, e);
        } else {
          KeepKeeps(l, s, c, durably, e);
        }
      case Trim => TrimKeeps(l, s, e);
      case _ =>
    }
  }

  lemma OwnPopKeeps(l: Limits, s: State, c: nat, e: Item)
    requires c < |s.calls| && s.calls[c].Sent? && Accounted(s, e) && TakesOwn(s, c)
    ensures Accounted(DoPop(l, s, c), e)
  {
    MoveAccounts(s, DoPop(l, s, c), c, e);
    TimesHead(s.pending, e);
  }

  /** Popping another event leaves the one published in two places. */
  lemma WrongPopTips(l: Limits, s: State, c: nat)
    requires c < |s.calls| && s.calls[c].Sent? && s.calls[c].own != Some(s.calls[c].p)
    requires Accounted(s, s.calls[c].p) && !TakesOwn(s, c)
    ensures !Accounted(DoPop(l, s, c), s.calls[c].p)
  {
    var p := s.calls[c].p;
    MoveAccounts(s, DoPop(l, s, c), c, p);
    if s.pending != [] {
      TimesHead(s.pending, p);
    }
  }

  /** So a balanced state stays balanced exactly when every pop takes off what its call has published. */
  lemma PopTips(l: Limits, s: State, c: nat)
    requires Enabled(l, s, Pop(c)) && Balanced(s) && s.calls[c].own != Some(s.calls[c].p)
    ensures Balanced(Do(l, s, Pop(c))) <==> TakesOwn(s, c)
  {
    assert Accounted(s, s.calls[c].p);
    if TakesOwn(s, c) {
      forall e: Item ensures Accounted(DoPop(l, s, c), e) {
        assert Accounted(s, e);
        OwnPopKeeps(l, s, c, e);
      }
    } else {
      WrongPopTips(l, s, c);
    }
  }

  // ---------------------------------------------------------------------------------------------
  // No event is in hand and in a place at once
  // ---------------------------------------------------------------------------------------------

  predicate Distinct(q: seq<Item>) { forall i, j :: 0 <= i < j < |q| ==> q[i] != q[j] }

  /** The event has left the hands of its call. */
  predicate Placed(s: State, e: Item) { e in s.recorded && InHand(s.calls, e) == 0 }

  ghost predicate Apart(s: State) {
    && (forall e: Item :: InHand(s.calls, e) <= 1 && (InHand(s.calls, e) == 1 ==> e in s.recorded))
    && (forall e :: e in s.pending ==> Placed(s, e)) && Distinct(s.pending)
    && (forall c :: 0 <= c < |s.calls| && Busy(s.calls[c]) ==> Placed(s, s.calls[c].p))
  }

  lemma OwnIsAnother(s: State, c: nat)
    requires Apart(s) && c < |s.calls| && Busy(s.calls[c])
    ensures s.calls[c].own != Some(s.calls[c].p)
  {
    if s.calls[c].own == Some(s.calls[c].p) {
      HolderInHand(s.calls, c, s.calls[c].p);
    }
  }

  /** A call that takes nothing into its hands. */
  ghost predicate Eases(s: State, s': State, c: nat) {
    && c < |s.calls| == |s'.calls| && s'.calls == s.calls[c := s'.calls[c]] && s'.recorded == s.recorded
    && (Own(s'.calls[c]) == Own(s.calls[c]) || Own(s'.calls[c]) == None)
  }

  lemma EasedHands(s: State, s': State, c: nat, e: Item)
    requires Eases(s, s', c)
    ensures InHand(s'.calls, e) + Hand(s.calls[c], e) == InHand(s.calls, e) + Hand(s'.calls[c], e)
    ensures InHand(s'.calls, e) <= InHand(s.calls, e) && (Placed(s, e) ==> Placed(s', e))
  {
    InHandUpdate(s.calls, c, s'.calls[c], e);
  }

  lemma ApartEased(s: State, s': State, c: nat)
    requires Apart(s) && Eases(s, s', c)
    requires Distinct(s'.pending) && forall e :: e in s'.pending ==> Placed(s, e) || Placed(s', e)
    requires Busy(s'.calls[c]) ==> Placed(s, s'.calls[c].p)
    ensures Apart(s')
  {
    forall e: Item
      ensures InHand(s'.calls, e) <= InHand(s.calls, e) && (Placed(s, e) ==> Placed(s', e))
    {
      EasedHands(s, s', c, e);
    }
    forall d | 0 <= d < |s'.calls| && Busy(s'.calls[d]) ensures Placed(s, s'.calls[d].p) {
      assert d != c ==> s'.calls[d] == s.calls[d];
    }
  }

  lemma ApartBegin(l: Limits, s: State, c: nat, own: Option<Item>)
    requires Apart(s) && Enabled(l, s, Begin(c, own))
    ensures Apart(Do(l, s, Begin(c, own)))
  {
    var s' := Do(l, s, Begin(c, own));
    forall e: Item ensures InHand(s'.calls, e) == InHand(s.calls, e) + (if own == Some(e) then 1 else 0) {
      InHandUpdate(s.calls, c, s'.calls[c], e);
    }
    forall e: Item ensures Placed(s, e) ==> Placed(s', e) {
    }
    forall d | 0 <= d < |s'.calls| && Busy(s'.calls[d]) ensures Placed(s', s'.calls[d].p) {
      assert s'.calls[d] == s.calls[d];
    }
  }

  lemma ApartPass(l: Limits, s: State, step: Step)
    requires Apart(s) && Enabled(l, s, step) && Passes(step)
    ensures Apart(Do(l, s, step))
  {
    PassOn(l, s, step);
    ApartEased(s, Do(l, s, step), step.c);
  }

  lemma ApartPop(l: Limits, s: State, c: nat)
    requires Apart(s) && c < |s.calls| && s.calls[c].Sent?
    ensures Apart(DoPop(l, s, c))
  {
    if s.pending != [] {
      assert forall e :: e in s.pending[1..] ==> e in s.pending;
    }
    ApartEased(s, DoPop(l, s, c), c);
  }

  lemma ApartPublish(s: State, c: nat, ok: bool)
    requires Apart(s) && c < |s.calls| && s.calls[c].Reading?
    ensures Apart(DoPublish(s, c, ok))
  {
    ApartEased(s, DoPublish(s, c, ok), c);
  }

  lemma AppendDistinct(q: seq<Item>, e: Item)
    requires Distinct(q) && e !in q
    ensures Distinct(q + [e])
  {
  }

  /** An event that a call has in its hands is in no other hand, not in memory, and not being published from there. */
  lemma HeldIsNotPlaced(s: State, c: nat, e: Item)
    requires Apart(s) && c < |s.calls| && Holds(s.calls[c], e)
    ensures InHand(s.calls, e) == 1 && e in s.recorded && e !in s.pending
    ensures forall d :: 0 <= d < |s.calls| && Busy(s.calls[d]) ==> s.calls[d].p != e
  {
    HolderInHand(s.calls, c, e);
    assert InHand(s.calls, e) <= 1;
  }

  lemma ApartKeep(l: Limits, s: State, c: nat, durably: bool)
    requires Apart(s) && c < |s.calls| && s.calls[c].Keeping?
    ensures Apart(DoKeep(l, s, c, durably))
  {
    var s', e := DoKeep(l, s, c, durably), s.calls[c].e;
    HeldIsNotPlaced(s, c, e);
    EasedHands(s, s', c, e);
    assert Placed(s', e);
    AppendDistinct(if Overflows(l, s) then s.pending[1..] else s.pending, e);
    ApartEased(s, s', c);
  }

  lemma ApartSend(s: State, c: nat, ok: bool)
    requires Apart(s) && c < |s.calls| && s.calls[c].Sending?
    ensures Apart(DoSend(s, c, ok))
  {
    ApartEased(s, DoSend(s, c, ok), c);
  }

  lemma ApartStep(l: Limits, s: State, step: Step)
    requires Apart(s) && Enabled(l, s, step)
    ensures Apart(Do(l, s, step))
  {
    if Passes(step) {
      ApartPass(l, s, step);
    } else {
      match step
      case Begin(c, own) => ApartBegin(l, s, c, own);
      case Publish(c, ok) => ApartPublish(s, c, ok);
      case Pop(c) => ApartPop(l, s, c);
      case SendOwn(c, ok) => ApartSend(s, c, ok);
      case Keep(c, durably) => ApartKeep(l, s, c, durably);
      case _ =>
    }
  }

  lemma StartApart(calls: nat)
    ensures Apart(Start(calls)) && Balanced(Start(calls))
  {
    forall e: Item ensures InHand(Start(calls).calls, e) == 0 && InFlight(Start(calls).calls, e) == 0 {
      AllIdle(Start(calls).calls, e);
    }
  }

  lemma {:induction false} RunApart(l: Limits, calls: nat, steps: seq<Step>, quiet: bool)
    requires RunFrom(l, Start(calls), steps, quiet).Some?
    ensures Apart(RunFrom(l, Start(calls), steps, quiet).value)
    decreases |steps|
  {
    if steps == [] {
      StartApart(calls);
    } else {
      var before := steps[..|steps| - 1];
      RunApart(l, calls, before, quiet);
      ApartStep(l, RunFrom(l, Start(calls), before, quiet).value, steps[|steps| - 1]);
    }
  }
}
