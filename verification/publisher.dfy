/** The status publisher: publish to the stream or keep the event, in a shared durable list or in memory. */
module StatusPublishing {
  import opened Options
  import opened PublisherSpec

  /** `Unsupported` is the TypeError of a client that does not know the approximate-trim argument. */
  datatype Reply = Done | Unsupported | Raised

  /** One publish call, with or without the approximate-trim argument, and its answer. */
  datatype Try = Try(approximate: bool, reply: Reply)

  /** Up to `retries` failed calls, then the one that decides: a call that works, or fails when no retry is left, or one
      whose argument is not known, which is repeated once without it. */
  ghost predicate Tried(tries: seq<Try>, retries: nat, ok: bool) {
    && tries != []
    && var last := tries[|tries| - 1];
       && ok == (last.reply == Done)
       && if last.approximate then
            && (forall i :: 0 <= i < |tries| - 1 ==> tries[i] == Try(true, Raised))
            && (if ok then |tries| <= retries + 1 else last.reply == Raised && |tries| == retries + 1)
          else
            && 2 <= |tries| <= retries + 2 && tries[|tries| - 2] == Try(true, Unsupported)
            && forall i :: 0 <= i < |tries| - 2 ==> tries[i] == Try(true, Raised)
  }

  /** The Redis calls the publisher makes. While `faulty`, any publish, push, count or lock call may fail at will;
      a failed call has no effect. `countFaults` bounds how many count calls may fail. */
  class Redis {
    const faulty: bool
    var stream: seq<Payload>
    var durable: seq<Payload>
    var lock: Option<int>
    ghost var trimmed: seq<Payload>
    ghost var tries: seq<Try>
    ghost var failedPushes: nat
    var countFaults: nat

    constructor (faulty: bool, durable: seq<Payload>, lock: Option<int>, countFaults: nat)
      ensures this.faulty == faulty && stream == [] && this.durable == durable && trimmed == []
      ensures this.lock == lock && this.countFaults == countFaults
    {
      this.faulty, stream, this.durable, trimmed, tries := faulty, [], durable, [], [];
      this.lock, this.countFaults, failedPushes := lock, countFaults, 0;
    }

    method Xadd(p: Payload, approximate: bool) returns (r: Reply)
      modifies this`stream, this`tries
      ensures tries == old(tries) + [Try(approximate, r)]
      ensures stream == if r == Done then old(stream) + [p] else old(stream)
      ensures !approximate ==> r != Unsupported
      ensures !faulty ==> r != Raised
    {
      r := *;
      if (r == Raised && !faulty) || (r == Unsupported && !approximate) {
        r := Done;
      }
      if r == Done {
        stream := stream + [p];
      }
      tries := tries + [Try(approximate, r)];
    }

    method Lindex0() returns (head: Option<Payload>)
      ensures head == if durable == [] then None else Some(durable[0])
    {
      head := if durable == [] then None else Some(durable[0]);
    }

    method Lpop()
      modifies this`durable
      ensures durable == if old(durable) == [] then [] else old(durable)[1..]
    {
      if durable != [] {
        durable := durable[1..];
      }
    }

    /** One pipeline: push at the tail, keep the last `cap`. */
    method PushAndTrim(p: Payload, cap: nat) returns (ok: bool)
      modifies this`durable, this`trimmed, this`failedPushes
      ensures !faulty ==> ok
      ensures failedPushes == old(failedPushes) + (if ok then 0 else 1)
      ensures !ok ==> durable == old(durable) && trimmed == old(trimmed)
      ensures ok ==> var grown := old(durable) + [p];
                     var k := Excess(cap, grown);
                     durable == grown[k..] && trimmed == old(trimmed) + grown[..k]
    {
      ok := *;
      ok := ok || !faulty;
      if ok {
        durable := durable + [p];
        var k := Excess(cap, durable);
        trimmed := trimmed + durable[..k];
        durable := durable[k..];
      } else {
        failedPushes := failedPushes + 1;
      }
    }

    method Llen() returns (count: Option<nat>)
      modifies this`countFaults
      ensures count.Some? ==> count.value == |durable| && countFaults == old(countFaults)
      ensures count.None? ==> faulty && countFaults + 1 == old(countFaults)
    {
      var fails: bool := *;
      if fails && faulty && countFaults > 0 {
        countFaults := countFaults - 1;
        return None;
      }
      return Some(|durable|);
    }

    /** SET NX with a time to live: a lock held by anyone may have expired by now. */
    method SetNx(token: int) returns (acquired: bool)
      modifies this`lock
      ensures acquired ==> lock == Some(token)
      ensures !acquired ==> lock == old(lock) || lock == None
      ensures !faulty && old(lock) == None ==> acquired
    {
      var expired: bool, fails: bool := *, *;
      if expired {
        lock := None;
      }
      if (fails && faulty) || lock.Some? {
        return false;
      }
      lock := Some(token);
      return true;
    }

    method GetLock() returns (ok: bool, current: Option<int>)
      ensures ok ==> current == lock
      ensures !faulty ==> ok
    {
      var fails: bool := *;
      ok := !(fails && faulty);
      current := lock;
    }

    method DeleteLock() returns (ok: bool)
      modifies this`lock
      ensures lock == if ok then None else old(lock)
      ensures !faulty ==> ok
    {
      var fails: bool := *;
      ok := !(fails && faulty);
      if ok {
        lock := None;
      }
    }
  }

  predicate HeadDecodes(durable: seq<Payload>) { durable != [] && durable[0].Payload? }

  datatype CloseExit = NothingLeft | NoChange | DeadlinePassed

  class StatusPublisher {
    const redis: Redis
    const cfg: Config
    var pending: seq<Payload>
    var droppedPending: nat
    var durablePendingHint: bool
    var nextDurableProbeAt: real
    var nextDurableFlushAt: real
    ghost var lost: seq<Payload>

    constructor (redis: Redis, cfg: Config)
      ensures this.redis == redis && this.cfg == cfg && Valid()
      ensures pending == [] && lost == [] && !durablePendingHint
    {
      this.redis, this.cfg := redis, cfg;
      pending, droppedPending, lost := [], 0, [];
      durablePendingHint, nextDurableProbeAt, nextDurableFlushAt := false, 0.0, 0.0;
    }

    ghost predicate Valid()
      reads this
    {
      |pending| <= PendingCap(cfg) && droppedPending == |lost|
    }

    ghost function View(): Ledger
      reads this, redis
    {
      Ledger(redis.stream, redis.durable, pending, lost, redis.trimmed)
    }

    /** With one publisher, no hint means there is nothing in the durable list. */
    ghost predicate HintSound()
      reads this, redis
    {
      cfg.durableKey && !durablePendingHint ==> redis.durable == []
    }

    // -------------------------------------------------------------------------------------------
    // Publishing
    // -------------------------------------------------------------------------------------------

    method PublishWithRetry(p: Payload) returns (ok: bool)
      modifies redis`stream, redis`tries
      ensures |old(redis.tries)| <= |redis.tries|
      ensures redis.tries[..|old(redis.tries)|] == old(redis.tries)
      ensures Tried(redis.tries[|old(redis.tries)|..], AtLeast(0, cfg.retryAttempts), ok)
      ensures redis.stream == if ok then old(redis.stream) + [p] else old(redis.stream)
      ensures !redis.faulty ==> ok
    {
      var attempts := AtLeast(0, cfg.retryAttempts);
      for attempt := 0 to attempts + 1
        invariant redis.stream == old(redis.stream)
        invariant !redis.faulty ==> attempt == 0
        invariant |redis.tries| == |old(redis.tries)| + attempt
        invariant redis.tries[..|old(redis.tries)|] == old(redis.tries)
        invariant forall i :: |old(redis.tries)| <= i < |redis.tries| ==> redis.tries[i] == Try(true, Raised)
      {
        var r := redis.Xadd(p, true);
        match r
        case Done => return true;
        case Unsupported =>
          var fallback := redis.Xadd(p, false);
          return fallback == Done;
        case Raised =>
          if attempt >= attempts {
            return false;
          }
      }
      return false;
    }

    method BufferPending(p: Payload)
      requires Valid()
      modifies this`pending, this`droppedPending, this`lost
      ensures Valid() && View() == KeptInMemory(cfg, old(View()), p)
      ensures JoinsMemory(cfg, old(View()), p, View())
    {
      MemoryKeepsNewest(cfg, View(), p);
      if |pending| >= PendingCap(cfg) {
        lost := lost + [pending[0]];
        pending := pending[1..];
        droppedPending := droppedPending + 1;
      }
      pending := pending + [p];
    }

    method BufferPendingDurable(p: Payload) returns (ok: bool)
      modifies redis`durable, redis`trimmed, redis`failedPushes
      ensures redis.failedPushes == old(redis.failedPushes) + (if cfg.durableKey && !ok then 1 else 0)
      ensures ok ==> cfg.durableKey && View() == KeptDurably(cfg, old(View()), p)
      ensures ok ==> JoinsDurable(cfg, old(View()), p, View())
      ensures !ok ==> View() == old(View())
    {
      if !cfg.durableKey {
        return false;
      }
      DurableKeepsNewest(cfg, View(), p);
      ok := redis.PushAndTrim(p, DurableCap(cfg));
    }

    /** `record`: an event whose publish, the last call made, has failed is kept durably unless there is no list or the
        push fails, and then in memory. It raises only in strict mode, and then the event has been kept all the same. */
    method Record(p: Payload, now: real) returns (raised: bool)
      requires Valid()
      modifies this, redis
      ensures Valid() && Recorded(cfg, old(View()), p, View())
      ensures old(HintSound()) ==> HintSound()
      ensures redis.tries != []
      ensures var published := redis.tries[|redis.tries| - 1].reply == Done;
              && raised == (cfg.strict && !published)
              && exists m ::
                   && Flushed(old(View()), m)
                   && View() == if published then Published(m, p)
                                else if cfg.durableKey && redis.failedPushes == old(redis.failedPushes)
                                then KeptDurably(cfg, m, p)
                                else KeptInMemory(cfg, m, p)
      ensures !redis.faulty ==> !raised && redis.stream != [] && redis.stream[|redis.stream| - 1] == p
    {
      FlushPendingIfDue(now, false);
      ghost var flushed := View();
      assert Flushed(old(View()), flushed);
      var published := PublishWithRetry(p);
      if published {
        assert View() == Published(flushed, p);
        return false;
      }
      var durably := BufferPendingDurable(p);
      if durably {
        durablePendingHint := true;
        nextDurableFlushAt := 0.0;
        assert View() == KeptDurably(cfg, flushed, p);
      } else {
        BufferPending(p);
        assert View() == KeptInMemory(cfg, flushed, p);
      }
      return cfg.strict;
    }

    // -------------------------------------------------------------------------------------------
    // Flushing
    // -------------------------------------------------------------------------------------------

    /** `_flush_pending`: the durable backlog first when due, then up to one batch from memory. */
    method FlushPendingIfDue(now: real, force: bool)
      requires Valid()
      modifies this, redis
      ensures Valid() && Flushed(old(View()), View())
      ensures old(HintSound()) ==> HintSound()
      ensures redis.countFaults <= old(redis.countFaults)
      ensures !redis.faulty && old(redis.lock) == None ==> redis.lock == None
      ensures (force || (old(durablePendingHint) && now >= old(nextDurableFlushAt))) && cfg.durableKey &&
              !redis.faulty && old(redis.lock) == None && HeadDecodes(old(redis.durable)) ==>
                |redis.durable| < |old(redis.durable)|
      ensures !redis.faulty && cfg.flushBatchSize >= 1 && old(pending) != [] ==> |pending| < |old(pending)|
      ensures cfg.flushBatchSize <= 0 ==> pending == old(pending)
      ensures |old(pending)| - |pending| <= Batch(old(pending))
      ensures !redis.faulty ==> |old(pending)| - |pending| == Batch(old(pending))
      ensures !force && (!cfg.durableKey || (old(durablePendingHint) && now < old(nextDurableFlushAt))) ==>
                redis.durable == old(redis.durable)
      ensures redis.failedPushes == old(redis.failedPushes)
    {
      if force {
        durablePendingHint := true;
        nextDurableFlushAt := 0.0;
      }
      ProbeDurablePending(now);
      FlushDurablePendingIfDue(now, force);
      ghost var mid := View();
      FlushMemory();
      FlushTwice(old(View()), mid, View());
    }

    /** How many of these one flush publishes when nothing fails. */
    function Batch(waiting: seq<Payload>): nat {
      var size := AtLeast(0, cfg.flushBatchSize);
      if |waiting| < size then |waiting| else size
    }

    method FlushMemory()
      requires Valid()
      modifies this`pending, redis`stream, redis`tries
      ensures Valid() && Flushed(old(View()), View())
      ensures !redis.faulty && cfg.flushBatchSize >= 1 && old(pending) != [] ==> |pending| < |old(pending)|
      ensures cfg.flushBatchSize <= 0 ==> pending == old(pending)
      ensures |old(pending)| - |pending| <= Batch(old(pending))
      ensures !redis.faulty ==> |old(pending)| - |pending| == Batch(old(pending))
    {
      var flushed := 0;
      while pending != [] && flushed < cfg.flushBatchSize
        invariant Valid() && Flushed(old(View()), View())
        invariant flushed == 0 ==> pending == old(pending)
        invariant |pending| == |old(pending)| - flushed
        invariant 0 <= flushed <= AtLeast(0, cfg.flushBatchSize)
        decreases |pending|
      {
        ghost var before := View();
        var ok := PublishWithRetry(pending[0]);
        if !ok {
          return;
        }
        pending := pending[1..];
        flushed := flushed + 1;
        assert Flushed(before, View());
        FlushTwice(old(View()), before, View());
      }
    }

    method ProbeDurablePending(now: real)
      modifies this`durablePendingHint, this`nextDurableProbeAt, this`nextDurableFlushAt, redis`countFaults
      ensures durablePendingHint || !old(durablePendingHint)
      ensures durablePendingHint && !old(durablePendingHint) ==> redis.durable != [] && nextDurableFlushAt == now
      ensures !old(durablePendingHint) && cfg.durableKey && now >= old(nextDurableProbeAt) ==>
                && nextDurableProbeAt >= now + 0.1 && nextDurableProbeAt >= now + cfg.probeInterval
                && (nextDurableProbeAt == now + 0.1 || nextDurableProbeAt == now + cfg.probeInterval)
                && (!redis.faulty && redis.durable != [] ==> durablePendingHint)
      ensures old(durablePendingHint) || !cfg.durableKey || now < old(nextDurableProbeAt) ==> unchanged(this)
      ensures redis.countFaults <= old(redis.countFaults)
    {
      if !cfg.durableKey || durablePendingHint {
        return;
      }
      if now < nextDurableProbeAt {
        return;
      }
      nextDurableProbeAt := now + (if cfg.probeInterval < 0.1 then 0.1 else cfg.probeInterval);
      var count := DurablePendingCount();
      if count > 0 {
        durablePendingHint := true;
        nextDurableFlushAt := now;
      }
    }

    method FlushDurablePendingIfDue(now: real, force: bool)
      modifies this`durablePendingHint, this`nextDurableFlushAt, redis`stream, redis`tries, redis`durable, redis`lock
      ensures Flushed(old(View()), View())
      ensures old(HintSound()) ==> HintSound()
      ensures !redis.faulty && old(redis.lock) == None ==> redis.lock == None
      ensures (force || (old(durablePendingHint) && now >= old(nextDurableFlushAt))) && cfg.durableKey &&
              !redis.faulty && old(redis.lock) == None && HeadDecodes(old(redis.durable)) ==>
                |redis.durable| < |old(redis.durable)|
      ensures !cfg.durableKey || (!force && (!old(durablePendingHint) || now < old(nextDurableFlushAt))) ==>
                unchanged(this) && unchanged(redis)
      ensures cfg.durableKey && (force || (old(durablePendingHint) && now >= old(nextDurableFlushAt))) ==>
                if durablePendingHint then
                  && nextDurableFlushAt >= now + 0.05 && nextDurableFlushAt >= now + cfg.flushInterval
                  && (nextDurableFlushAt == now + 0.05 || nextDurableFlushAt == now + cfg.flushInterval)
                else nextDurableFlushAt == 0.0
    {
      if !cfg.durableKey {
        return;
      }
      if !(force || durablePendingHint) {
        return;
      }
      if !force && now < nextDurableFlushAt {
        return;
      }
      var hasMore := FlushDurablePending();
      durablePendingHint := hasMore;
      var interval := if cfg.flushInterval < 0.05 then 0.05 else cfg.flushInterval;
      nextDurableFlushAt := if hasMore then now + interval else 0.0;
    }

    /** Under the flush lock, publish the head of the durable list and pop it, up to one batch. */
    method FlushDurablePending() returns (hasMore: bool)
      modifies redis`stream, redis`tries, redis`durable, redis`lock
      ensures Flushed(old(View()), View())
      ensures cfg.durableKey && !hasMore ==> redis.durable == []
      ensures !redis.faulty && old(redis.lock) == None ==> redis.lock == None
      ensures cfg.durableKey && !redis.faulty && old(redis.lock) == None && HeadDecodes(old(redis.durable)) ==>
                |redis.durable| < |old(redis.durable)|
    {
      if !cfg.durableKey {
        return false;
      }
      var token: int := *;
      var acquired := redis.SetNx(token);
      if !acquired {
        return true;
      }
      hasMore := FlushUnderLock();
      ReleaseDurableLock(token);
    }

    method FlushUnderLock() returns (hasMore: bool)
      modifies redis`stream, redis`tries, redis`durable
      ensures Flushed(old(View()), View())
      ensures !hasMore ==> redis.durable == []
      ensures !redis.faulty && HeadDecodes(old(redis.durable)) ==>
                |redis.durable| < |old(redis.durable)|
      ensures |old(redis.durable)| - |redis.durable| <= AtLeast(1, cfg.flushBatchSize)
      ensures !redis.faulty && AllDecode(old(redis.durable)) && redis.durable != [] ==>
                |old(redis.durable)| - |redis.durable| == AtLeast(1, cfg.flushBatchSize)
    {
      var flushed := 0;
      var maxBatch := AtLeast(1, cfg.flushBatchSize);
      while flushed < maxBatch
        invariant Flushed(old(View()), View())
        invariant flushed == 0 ==> redis.durable == old(redis.durable)
        invariant |redis.durable| == |old(redis.durable)| - flushed
        invariant 0 <= flushed <= maxBatch
        invariant AllDecode(old(redis.durable)) ==> AllDecode(redis.durable)
        decreases maxBatch - flushed
      {
        ghost var before := View();
        var head := redis.Lindex0();
        if head.None? {
          return false;
        }
        if head.value.Malformed? {
          return true;
        }
        var ok := PublishWithRetry(head.value);
        if !ok {
          return true;
        }
        redis.Lpop();
        flushed := flushed + 1;
        assert Flushed(before, View());
        FlushTwice(old(View()), before, View());
      }
      return true;
    }

    method ReleaseDurableLock(token: int)
      modifies redis`lock
      ensures redis.lock == old(redis.lock) || (old(redis.lock) == Some(token) && redis.lock == None)
      ensures !redis.faulty && old(redis.lock) == Some(token) ==> redis.lock == None
    {
      var ok, current := redis.GetLock();
      if ok && current == Some(token) {
        var _ := redis.DeleteLock();
      }
    }

    method DurablePendingCount() returns (count: nat)
      modifies redis`countFaults
      ensures redis.countFaults <= old(redis.countFaults)
      ensures redis.countFaults == old(redis.countFaults) ==> count == if cfg.durableKey then |redis.durable| else 0
      ensures count != 0 ==> cfg.durableKey && count == |redis.durable|
      ensures !redis.faulty ==> redis.countFaults == old(redis.countFaults)
    {
      if !cfg.durableKey {
        return 0;
      }
      var n := redis.Llen();
      return if n.Some? then n.value else 0;
    }

    // -------------------------------------------------------------------------------------------
    // Closing
    // -------------------------------------------------------------------------------------------

    /** `close`: flushes until nothing is left, nothing changes or the deadline passes. The loop needs no clock to
        end: each turn shrinks the backlog, uses up a failed count or exits. When no call fails, only the deadline or a
        non-positive batch size leaves anything in memory, and, with the lock free and every durable entry decoding,
        only the deadline leaves anything in the durable list. */
    method Close() returns (exit: CloseExit)
      requires Valid()
      modifies this, redis
      ensures Valid() && Flushed(old(View()), View())
      ensures old(HintSound()) ==> HintSound()
      ensures exit == NothingLeft && (!redis.faulty || redis.countFaults == old(redis.countFaults)) ==>
                pending == [] && (cfg.durableKey ==> redis.durable == [])
      ensures !redis.faulty && old(redis.lock) == None && exit != DeadlinePassed && cfg.durableKey &&
              AllDecode(old(redis.durable)) ==>
                redis.durable == []
      ensures !redis.faulty && exit != DeadlinePassed && cfg.flushBatchSize >= 1 ==> pending == []
      ensures cfg.flushBatchSize <= 0 ==> pending == old(pending)
    {
      while true
        invariant Valid() && Flushed(old(View()), View())
        invariant old(HintSound()) ==> HintSound()
        invariant redis.countFaults <= old(redis.countFaults)
        invariant !redis.faulty && old(redis.lock) == None ==> redis.lock == None
        invariant AllDecode(old(redis.durable)) ==> AllDecode(redis.durable)
        invariant cfg.flushBatchSize <= 0 ==> pending == old(pending)
        decreases |pending| + |redis.durable| + redis.countFaults
      {
        ghost var start := View();
        var late: bool, now: real := *, *;
        if late {
          return DeadlinePassed;
        }
        var beforeMemory := |pending|;
        var beforeDurable := DurablePendingCount();
        if beforeMemory == 0 && beforeDurable == 0 {
          return NothingLeft;
        }
        FlushPendingIfDue(now, true);
        FlushTwice(old(View()), start, View());
        FlushShrinks(start, View());
        var afterMemory := |pending|;
        var afterDurable := DurablePendingCount();
        if beforeMemory == afterMemory && beforeDurable == afterDurable {
          return NoChange;
        }
      }
    }

    // -------------------------------------------------------------------------------------------
    // Runs of calls
    // -------------------------------------------------------------------------------------------

    /** One call by itself; `flush_pending` is forced. */
    method Perform(c: Call, now: real)
      requires Valid()
      modifies this, redis
      ensures Valid() && Next(cfg, c, old(View()), View())
    {
      match c
      case Record(p) => var _ := Record(p, now);
      case Flush => FlushPendingIfDue(now, true);
    }

    /** Calls one after another, at times the caller does not choose: they are a run of ledgers, so what was recorded
        is published, waiting or among the overflow, whatever failed. */
    method PerformEach(calls: seq<Call>) returns (ghost ledgers: seq<Ledger>)
      requires Valid()
      modifies this, redis
      ensures Valid() && IsRun(cfg, calls, ledgers) && ledgers[0] == old(View()) && ledgers[|calls|] == View()
      ensures Accounted(View()) == Accounted(old(View())) + RecordedPayloads(calls)
      ensures droppedPending - old(droppedPending) == |View().lost| - |old(View()).lost|
    {
      ledgers := [View()];
      for i := 0 to |calls|
        invariant Valid() && IsRun(cfg, calls[..i], ledgers) && ledgers[0] == old(View()) && ledgers[i] == View()
      {
        var now: real := *;
        Perform(calls[i], now);
        OneCallMore(cfg, calls[..i], ledgers, calls[i], View());
        ledgers := ledgers + [View()];
        assert calls[..i + 1] == calls[..i] + [calls[i]];
      }
      assert calls[..|calls|] == calls;
      RunConserves(cfg, calls, ledgers);
    }
  }
}
