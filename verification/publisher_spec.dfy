/** What one call on a status publisher may do to the events it is responsible for, and what every run of calls
    conserves. Failures are adversarial: the relations allow each call to stop early. */
module PublisherSpec {
  import opened Interleaving

  /** `Malformed` stands for a durable entry that does not decode to an object. */
  datatype Payload = Payload(body: string) | Malformed(text: string)

  datatype Config = Config(
    retryAttempts: int, pendingBufferSize: int, flushBatchSize: int, durableKey: bool, durableMaxlen: int,
    probeInterval: real, flushInterval: real, strict: bool)

  /** The places an event can be. `lost` and `trimmed` are what overflowed from memory and from the durable list. */
  datatype Ledger = Ledger(
    stream: seq<Payload>, durable: seq<Payload>, pending: seq<Payload>, lost: seq<Payload>, trimmed: seq<Payload>)

  function AtLeast(low: int, x: int): int { if x < low then low else x }

  function PendingCap(cfg: Config): nat { AtLeast(1, cfg.pendingBufferSize) }

  function DurableCap(cfg: Config): nat { AtLeast(1, cfg.durableMaxlen) }

  function Excess(cap: nat, s: seq<Payload>): nat { if |s| > cap then |s| - cap else 0 }

  function PublishDurableHead(a: Ledger): Ledger
    requires a.durable != []
  {
    a.(stream := a.stream + [a.durable[0]], durable := a.durable[1..])
  }

  function PublishPendingHead(a: Ledger): Ledger
    requires a.pending != []
  {
    a.(stream := a.stream + [a.pending[0]], pending := a.pending[1..])
  }

  /** Any number of heads of the two buffers, in any order, have moved to the stream. */
  ghost predicate Flushed(a: Ledger, b: Ledger)
    decreases |a.durable| + |a.pending|
  {
    || a == b
    || (a.durable != [] && Flushed(PublishDurableHead(a), b))
    || (a.pending != [] && Flushed(PublishPendingHead(a), b))
  }

  function Published(a: Ledger, p: Payload): Ledger { a.(stream := a.stream + [p]) }

  function KeptDurably(cfg: Config, a: Ledger, p: Payload): Ledger {
    var grown := a.durable + [p];
    var k := Excess(DurableCap(cfg), grown);
    a.(durable := grown[k..], trimmed := a.trimmed + grown[..k])
  }

  function KeptInMemory(cfg: Config, a: Ledger, p: Payload): Ledger {
    if a.pending != [] && |a.pending| >= PendingCap(cfg) then
      a.(pending := a.pending[1..] + [p], lost := a.lost + [a.pending[0]])
    else a.(pending := a.pending + [p])
  }

  ghost predicate Placed(cfg: Config, a: Ledger, p: Payload, b: Ledger) {
    b == Published(a, p) || (cfg.durableKey && b == KeptDurably(cfg, a, p)) || b == KeptInMemory(cfg, a, p)
  }

  /** `record`: a flush of older events, then the new one goes to exactly one place. */
  ghost predicate Recorded(cfg: Config, a: Ledger, p: Payload, b: Ledger) {
    exists m :: Flushed(a, m) && Placed(cfg, m, p, b)
  }

  lemma {:induction false} FlushTwice(a: Ledger, b: Ledger, c: Ledger)
    requires Flushed(a, b) && Flushed(b, c)
    ensures Flushed(a, c)
    decreases |a.durable| + |a.pending|
  {
    if a != b {
      if a.durable != [] && Flushed(PublishDurableHead(a), b) {
        FlushTwice(PublishDurableHead(a), b, c);
      } else {
        FlushTwice(PublishPendingHead(a), b, c);
      }
    }
  }

  /** What a flush amounts to: prefixes of the two buffers were published, each in its own order. */
  ghost predicate PrefixesPublished(a: Ledger, b: Ledger) {
    && |b.durable| <= |a.durable| && b.durable == a.durable[|a.durable| - |b.durable|..]
    && |b.pending| <= |a.pending| && b.pending == a.pending[|a.pending| - |b.pending|..]
    && |a.stream| <= |b.stream| && b.stream[..|a.stream|] == a.stream
    && Interleaves(b.stream[|a.stream|..], a.durable[..|a.durable| - |b.durable|],
                   a.pending[..|a.pending| - |b.pending|])
    && b.lost == a.lost && b.trimmed == a.trimmed
  }

  lemma InterleavesOne(p: Payload)
    ensures Interleaves([p], [p], []) && Interleaves([p], [], [p])
  {
    assert [p][..0] == [] && Interleaves<Payload>([], [], []);
  }

  /** The stream part of publishing a head first: what was published after it follows it. */
  lemma HeadThenRest(stream: seq<Payload>, p: Payload, end: seq<Payload>, x: seq<Payload>, y: seq<Payload>)
    requires |stream| + 1 <= |end| && end[..|stream| + 1] == stream + [p]
    requires Interleaves(end[|stream| + 1..], x, y)
    ensures end[..|stream|] == stream
    ensures Interleaves(end[|stream|..], [p] + x, y) && Interleaves(end[|stream|..], x, [p] + y)
  {
    var d: seq<Payload> := [p];
    InterleavesOne(p);
    StreamGrows(stream, p, end);
    Append(d, d, [], end[|stream| + 1..], x, y);
    Append(d, [], d, end[|stream| + 1..], x, y);
    assert [] + x == x && [] + y == y;
  }

  lemma Prefixes(s: seq<Payload>, i: nat)
    requires s != [] && i < |s|
    ensures s[..i + 1] == [s[0]] + s[1..][..i] && s[i + 1..] == s[1..][i..]
  {
  }

  lemma DurableHeadFirst(a: Ledger, b: Ledger)
    requires a.durable != [] && PrefixesPublished(PublishDurableHead(a), b)
    ensures PrefixesPublished(a, b)
  {
    var i, j := |a.durable| - 1 - |b.durable|, |a.pending| - |b.pending|;
    Prefixes(a.durable, i);
    HeadThenRest(a.stream, a.durable[0], b.stream, a.durable[1..][..i], a.pending[..j]);
    assert b.durable == a.durable[i + 1..];
  }

  lemma PendingHeadFirst(a: Ledger, b: Ledger)
    requires a.pending != [] && PrefixesPublished(PublishPendingHead(a), b)
    ensures PrefixesPublished(a, b)
  {
    var i, j := |a.durable| - |b.durable|, |a.pending| - 1 - |b.pending|;
    Prefixes(a.pending, j);
    HeadThenRest(a.stream, a.pending[0], b.stream, a.durable[..i], a.pending[1..][..j]);
    assert b.pending == a.pending[j + 1..];
  }

  lemma {:induction false} FlushKeepsOrder(a: Ledger, b: Ledger)
    requires Flushed(a, b)
    ensures PrefixesPublished(a, b)
    decreases |a.durable| + |a.pending|
  {
    if a == b {
    } else if a.durable != [] && Flushed(PublishDurableHead(a), b) {
      FlushKeepsOrder(PublishDurableHead(a), b);
      DurableHeadFirst(a, b);
    } else {
      FlushKeepsOrder(PublishPendingHead(a), b);
      PendingHeadFirst(a, b);
    }
  }

  predicate AllDecode(durable: seq<Payload>) { forall i :: 0 <= i < |durable| ==> durable[i].Payload? }

  lemma FlushShrinks(a: Ledger, b: Ledger)
    requires Flushed(a, b)
    ensures |b.pending| <= |a.pending| && |b.durable| <= |a.durable|
    ensures AllDecode(a.durable) ==> AllDecode(b.durable)
  {
    FlushKeepsOrder(a, b);
  }

  lemma StreamGrows(s: seq<Payload>, p: Payload, t: seq<Payload>)
    requires |s| + 1 <= |t| && t[..|s| + 1] == s + [p]
    ensures t[..|s|] == s && t[|s|..] == [p] + t[|s| + 1..]
  {
    assert t[..|s|] == t[..|s| + 1][..|s|];
    assert t[|s|] == t[..|s| + 1][|s|];
  }

  // ---------------------------------------------------------------------------------------------
  // Conservation
  // ---------------------------------------------------------------------------------------------

  function Accounted(a: Ledger): multiset<Payload> {
    multiset(a.stream) + multiset(a.durable) + multiset(a.pending) + multiset(a.lost) + multiset(a.trimmed)
  }

  /** What a flush moves to the stream is what it takes from the two buffers. */
  lemma FlushConserves(a: Ledger, b: Ledger)
    requires Flushed(a, b)
    ensures Accounted(b) == Accounted(a)
  {
    FlushKeepsOrder(a, b);
    var i, j, n := |a.durable| - |b.durable|, |a.pending| - |b.pending|, |a.stream|;
    SplitElements(a.durable, i);
    SplitElements(a.pending, j);
    SplitElements(b.stream, n);
    SameElements(b.stream[n..], a.durable[..i], a.pending[..j]);
  }

  lemma DurableKeepConserves(cfg: Config, a: Ledger, p: Payload)
    ensures Accounted(KeptDurably(cfg, a, p)) == Accounted(a) + multiset{p}
  {
    var grown := a.durable + [p];
    var k := Excess(DurableCap(cfg), grown);
    var b := KeptDurably(cfg, a, p);
    SplitElements(grown, k);
    assert b.durable == grown[k..] && b.trimmed == a.trimmed + grown[..k];
    assert multiset(grown) == multiset(a.durable) + multiset{p};
    assert multiset(b.trimmed) == multiset(a.trimmed) + multiset(grown[..k]);
    assert multiset(b.durable) + multiset(b.trimmed) == multiset(a.trimmed) + multiset(grown);
    var rest := multiset(a.stream) + multiset(a.pending) + multiset(a.lost);
    assert Accounted(b) == rest + (multiset(b.durable) + multiset(b.trimmed));
    assert Accounted(a) == rest + (multiset(a.durable) + multiset(a.trimmed));
  }

  lemma SplitElements(s: seq<Payload>, k: nat)
    requires k <= |s|
    ensures multiset(s) == multiset(s[..k]) + multiset(s[k..])
  {
    assert s == s[..k] + s[k..];
  }

  lemma MemoryKeepConserves(cfg: Config, a: Ledger, p: Payload)
    ensures Accounted(KeptInMemory(cfg, a, p)) == Accounted(a) + multiset{p}
  {
    if a.pending != [] && |a.pending| >= PendingCap(cfg) {
      assert a.pending == [a.pending[0]] + a.pending[1..];
      assert multiset(a.pending) == multiset{a.pending[0]} + multiset(a.pending[1..]);
    }
  }

  lemma PlacementConserves(cfg: Config, a: Ledger, p: Payload, b: Ledger)
    requires Placed(cfg, a, p, b)
    ensures Accounted(b) == Accounted(a) + multiset{p}
  {
    if b == Published(a, p) {
      assert multiset(a.stream + [p]) == multiset(a.stream) + multiset{p};
    } else if b == KeptInMemory(cfg, a, p) {
      MemoryKeepConserves(cfg, a, p);
    } else {
      DurableKeepConserves(cfg, a, p);
    }
  }

  // ---------------------------------------------------------------------------------------------
  // Order, and which events overflow
  // ---------------------------------------------------------------------------------------------

  /** Of what waits and what has overflowed, the new event is the newest and the overflow the oldest; a buffer holds as
      many as its cap allows. */
  ghost predicate JoinsMemory(cfg: Config, a: Ledger, p: Payload, b: Ledger) {
    && b.lost + b.pending == a.lost + a.pending + [p]
    && |b.pending| == (if a.pending == [] || |a.pending| < cfg.pendingBufferSize then |a.pending| + 1 else |a.pending|)
    && b.stream == a.stream && b.durable == a.durable && b.trimmed == a.trimmed
  }

  ghost predicate JoinsDurable(cfg: Config, a: Ledger, p: Payload, b: Ledger) {
    && b.trimmed + b.durable == a.trimmed + a.durable + [p]
    && |b.durable| == (if a.durable == [] || |a.durable| < cfg.durableMaxlen then |a.durable| + 1
                       else if cfg.durableMaxlen < 1 then 1 else cfg.durableMaxlen)
    && b.stream == a.stream && b.pending == a.pending && b.lost == a.lost
  }

  lemma MemoryKeepsNewest(cfg: Config, a: Ledger, p: Payload)
    ensures JoinsMemory(cfg, a, p, KeptInMemory(cfg, a, p))
  {
    var b := KeptInMemory(cfg, a, p);
    if a.pending != [] && |a.pending| >= PendingCap(cfg) {
      assert a.pending == [a.pending[0]] + a.pending[1..];
      assert b.lost + b.pending == a.lost + a.pending + [p];
    }
  }

  lemma SplitGrown(trimmed: seq<Payload>, grown: seq<Payload>, k: nat)
    requires k <= |grown|
    ensures trimmed + grown[..k] + grown[k..] == trimmed + grown
  {
    assert grown == grown[..k] + grown[k..];
  }

  lemma DurableKeepsNewest(cfg: Config, a: Ledger, p: Payload)
    ensures JoinsDurable(cfg, a, p, KeptDurably(cfg, a, p))
  {
    var grown := a.durable + [p];
    SplitGrown(a.trimmed, grown, Excess(DurableCap(cfg), grown));
    assert a.trimmed + grown == a.trimmed + a.durable + [p];
  }

  /** What one recording does to the sequences: it publishes first parts of the buffers, and then the new event is
      published last, or is the last in the durable list, or is the last in memory. */
  lemma RecordedJoinsLast(cfg: Config, a: Ledger, p: Payload, b: Ledger)
    requires Recorded(cfg, a, p, b)
    ensures exists m :: PrefixesPublished(a, m)
                        && (b == m.(stream := m.stream + [p]) || (cfg.durableKey && JoinsDurable(cfg, m, p, b))
                            || JoinsMemory(cfg, m, p, b))
  {
    var m :| Flushed(a, m) && Placed(cfg, m, p, b);
    FlushKeepsOrder(a, m);
    MemoryKeepsNewest(cfg, m, p);
    DurableKeepsNewest(cfg, m, p);
  }

  /** `x` is `s` with some elements left out. */
  ghost predicate Within(x: seq<Payload>, s: seq<Payload>)
    decreases |s|
  {
    if s == [] then x == []
    else
      || Within(x, s[..|s| - 1])
      || (x != [] && x[|x| - 1] == s[|s| - 1] && Within(x[..|x| - 1], s[..|s| - 1]))
  }

  lemma {:induction false} NothingWithin(s: seq<Payload>)
    ensures Within([], s)
  {
    if s != [] {
      NothingWithin(s[..|s| - 1]);
    }
  }

  lemma WithinMore(x: seq<Payload>, s: seq<Payload>, p: Payload)
    requires Within(x, s)
    ensures Within(x, s + [p]) && Within(x + [p], s + [p])
  {
    assert (s + [p])[..|s|] == s && (x + [p])[..|x|] == x;
  }

  /** Leaving out more from the middle. */
  lemma {:induction false} WithinLess(x: seq<Payload>, y: seq<Payload>, z: seq<Payload>, s: seq<Payload>)
    requires Within(x + y + z, s)
    ensures Within(x + z, s)
    decreases |s|
  {
    var all := x + y + z;
    if s == [] {
    } else if Within(all, s[..|s| - 1]) {
      WithinLess(x, y, z, s[..|s| - 1]);
    } else if z != [] {
      assert all[..|all| - 1] == x + y + z[..|z| - 1];
      WithinLess(x, y, z[..|z| - 1], s[..|s| - 1]);
      assert (x + z)[..|x + z| - 1] == x + z[..|z| - 1];
    } else if y != [] {
      assert all[..|all| - 1] == x + y[..|y| - 1] + z;
      WithinLess(x, y[..|y| - 1], z, s[..|s| - 1]);
    } else {
      assert all == x + z;
    }
  }

  /** The payloads recorded, in order. */
  function Recordings(calls: seq<Call>): seq<Payload> {
    if calls == [] then []
    else
      Recordings(calls[..|calls| - 1]) + (if calls[|calls| - 1].Record? then [calls[|calls| - 1].p] else [])
  }

  /** In both buffers what overflowed and what waits are in the order of recording. */
  ghost predicate InRecordingOrder(a: Ledger, recorded: seq<Payload>) {
    Within(a.lost + a.pending, recorded) && Within(a.trimmed + a.durable, recorded)
  }

  lemma FlushInOrder(a: Ledger, b: Ledger, recorded: seq<Payload>)
    requires InRecordingOrder(a, recorded) && PrefixesPublished(a, b)
    ensures InRecordingOrder(b, recorded)
  {
    var i, j := |a.durable| - |b.durable|, |a.pending| - |b.pending|;
    assert a.trimmed + a.durable == a.trimmed + a.durable[..i] + a.durable[i..];
    assert a.lost + a.pending == a.lost + a.pending[..j] + a.pending[j..];
    WithinLess(a.trimmed, a.durable[..i], a.durable[i..], recorded);
    WithinLess(a.lost, a.pending[..j], a.pending[j..], recorded);
  }

  lemma PlacedInOrder(cfg: Config, m: Ledger, p: Payload, b: Ledger, recorded: seq<Payload>)
    requires InRecordingOrder(m, recorded) && Placed(cfg, m, p, b)
    ensures InRecordingOrder(b, recorded + [p])
  {
    var memory, durable := m.lost + m.pending, m.trimmed + m.durable;
    WithinMore(memory, recorded, p);
    WithinMore(durable, recorded, p);
    if b == KeptInMemory(cfg, m, p) {
      MemoryKeepsNewest(cfg, m, p);
      assert b.lost + b.pending == memory + [p] && b.trimmed + b.durable == durable;
    } else if b == Published(m, p) {
      assert b.lost + b.pending == memory && b.trimmed + b.durable == durable;
    } else {
      DurableKeepsNewest(cfg, m, p);
      assert b.lost + b.pending == memory && b.trimmed + b.durable == durable + [p];
    }
  }

  lemma RecordInOrder(cfg: Config, a: Ledger, p: Payload, b: Ledger, recorded: seq<Payload>)
    requires InRecordingOrder(a, recorded) && Recorded(cfg, a, p, b)
    ensures InRecordingOrder(b, recorded + [p])
  {
    var m :| Flushed(a, m) && Placed(cfg, m, p, b);
    FlushKeepsOrder(a, m);
    FlushInOrder(a, m, recorded);
    PlacedInOrder(cfg, m, p, b, recorded);
  }

  /** Over any run, whatever fails: what waits and what overflowed are in the order of recording in either buffer, and
      in each the overflow is older than all that waits. */
  lemma {:induction false} RunKeepsOrder(cfg: Config, calls: seq<Call>, ledgers: seq<Ledger>)
    requires IsRun(cfg, calls, ledgers) && ledgers[0] == EMPTY
    ensures InRecordingOrder(ledgers[|calls|], Recordings(calls))
    decreases |calls|
  {
    if calls == [] {
      assert EMPTY.lost + EMPTY.pending == [] && EMPTY.trimmed + EMPTY.durable == [];
    } else {
      var n := |calls| - 1;
      RunKeepsOrder(cfg, calls[..n], ledgers[..n + 1]);
      assert Next(cfg, calls[n], ledgers[n], ledgers[n + 1]);
      if calls[n].Record? {
        RecordInOrder(cfg, ledgers[n], calls[n].p, ledgers[n + 1], Recordings(calls[..n]));
      } else {
        FlushKeepsOrder(ledgers[n], ledgers[n + 1]);
        FlushInOrder(ledgers[n], ledgers[n + 1], Recordings(calls[..n]));
        assert Recordings(calls) == Recordings(calls[..n]);
      }
    }
  }

  ghost predicate WithinCaps(cfg: Config, a: Ledger) {
    |a.pending| <= PendingCap(cfg) && |a.durable| <= DurableCap(cfg)
  }

  lemma PlacementWithinCaps(cfg: Config, a: Ledger, p: Payload, b: Ledger)
    requires Placed(cfg, a, p, b) && WithinCaps(cfg, a)
    ensures WithinCaps(cfg, b)
  {
    if b == KeptInMemory(cfg, a, p) {
      assert |b.pending| <= PendingCap(cfg);
    }
  }

  lemma CallWithinCaps(cfg: Config, c: Call, a: Ledger, b: Ledger)
    requires Next(cfg, c, a, b) && WithinCaps(cfg, a)
    ensures WithinCaps(cfg, b)
  {
    if c.Record? {
      var m :| Flushed(a, m) && Placed(cfg, m, c.p, b);
      FlushKeepsOrder(a, m);
      PlacementWithinCaps(cfg, m, c.p, b);
    } else {
      FlushKeepsOrder(a, b);
    }
  }

  /** The public calls; `Close` and `FlushPending` only flush. */
  datatype Call = Record(p: Payload) | Flush

  ghost predicate Next(cfg: Config, c: Call, a: Ledger, b: Ledger) {
    match c
    case Record(p) => Recorded(cfg, a, p, b)
    case Flush => Flushed(a, b)
  }

  ghost predicate IsRun(cfg: Config, calls: seq<Call>, ledgers: seq<Ledger>) {
    |ledgers| == |calls| + 1 && forall k :: 0 <= k < |calls| ==> Next(cfg, calls[k], ledgers[k], ledgers[k + 1])
  }

  function RecordedPayloads(calls: seq<Call>): multiset<Payload> {
    if calls == [] then multiset{}
    else
      RecordedPayloads(calls[..|calls| - 1])
      + (if calls[|calls| - 1].Record? then multiset{calls[|calls| - 1].p} else multiset{})
  }

  lemma CallConserves(cfg: Config, c: Call, a: Ledger, b: Ledger)
    requires Next(cfg, c, a, b)
    ensures Accounted(b) == Accounted(a) + (if c.Record? then multiset{c.p} else multiset{})
  {
    if c.Record? {
      var m :| Flushed(a, m) && Placed(cfg, m, c.p, b);
      FlushConserves(a, m);
      PlacementConserves(cfg, m, c.p, b);
    } else {
      FlushConserves(a, b);
    }
  }

  /** Over any run of calls, with any pattern of failures, every recorded event is published, waiting or among the
      overflow, exactly as often as it was recorded, and nothing else appears. */
  lemma {:induction false} RunConserves(cfg: Config, calls: seq<Call>, ledgers: seq<Ledger>)
    requires IsRun(cfg, calls, ledgers)
    ensures Accounted(ledgers[|calls|]) == Accounted(ledgers[0]) + RecordedPayloads(calls)
    decreases |calls|
  {
    if calls != [] {
      var n := |calls| - 1;
      RunConserves(cfg, calls[..n], ledgers[..n + 1]);
      assert Next(cfg, calls[n], ledgers[n], ledgers[n + 1]);
      CallConserves(cfg, calls[n], ledgers[n], ledgers[n + 1]);
    }
  }

  const EMPTY := Ledger([], [], [], [], [])

  /** Nothing waits and nothing has overflowed. */
  predicate Drained(a: Ledger) { a.durable == [] && a.pending == [] && a.lost == [] && a.trimmed == [] }

  /** A run that ends drained has published what was recorded, each as often as it was. */
  lemma DrainedRunPublishes(cfg: Config, calls: seq<Call>, ledgers: seq<Ledger>)
    requires IsRun(cfg, calls, ledgers) && ledgers[0] == EMPTY && Drained(ledgers[|calls|])
    ensures multiset(ledgers[|calls|].stream) == RecordedPayloads(calls)
  {
    RunConserves(cfg, calls, ledgers);
    var none: seq<Payload> := [];
    assert multiset(none) == multiset{} && Accounted(EMPTY) == multiset{};
    assert Accounted(ledgers[|calls|]) == multiset(ledgers[|calls|].stream);
  }

  lemma OneCallMore(cfg: Config, calls: seq<Call>, ledgers: seq<Ledger>, c: Call, next: Ledger)
    requires IsRun(cfg, calls, ledgers) && Next(cfg, c, ledgers[|calls|], next)
    ensures IsRun(cfg, calls + [c], ledgers + [next])
  {
    forall k | 0 <= k < |calls| + 1
      ensures Next(cfg, (calls + [c])[k], (ledgers + [next])[k], (ledgers + [next])[k + 1])
    {
      assert k < |calls| ==> Next(cfg, calls[k], ledgers[k], ledgers[k + 1]);
    }
  }

  lemma {:induction false} RunStaysWithinCaps(cfg: Config, calls: seq<Call>, ledgers: seq<Ledger>)
    requires IsRun(cfg, calls, ledgers) && WithinCaps(cfg, ledgers[0])
    ensures WithinCaps(cfg, ledgers[|calls|])
    decreases |calls|
  {
    if calls != [] {
      var n := |calls| - 1;
      RunStaysWithinCaps(cfg, calls[..n], ledgers[..n + 1]);
      assert Next(cfg, calls[n], ledgers[n], ledgers[n + 1]);
      CallWithinCaps(cfg, calls[n], ledgers[n], ledgers[n + 1]);
    }
  }
}
