/** Bucketed request metrics: the plain request log they summarise, the buckets the middleware writes, and the sums
    the reader takes. Times are whole seconds. */
module Metrics {
  type Endpoint = string

  const MINUTE := 60
  const HOUR := 3600
  const MINUTE_BUCKET_TTL := 7200
  const HOURLY_BUCKET_TTL := 2592000

  /** One tracked request; `latency` is already rounded. */
  datatype Request = Request(endpoint: Endpoint, at: nat, status: int, latency: real)

  datatype Totals = Totals(requests: int, errors: int, latency: real, ok: int, client: int, server: int)

  function Zero(): Totals { Totals(0, 0, 0.0, 0, 0, 0) }

  function Plus(a: Totals, b: Totals): Totals {
    Totals(a.requests + b.requests, a.errors + b.errors, a.latency + b.latency, a.ok + b.ok, a.client + b.client,
           a.server + b.server)
  }

  datatype StatusBucket = Status2xx | Status4xx | Status5xx

  function BucketOf(status: int): StatusBucket {
    if status >= 500 then Status5xx else if status >= 400 then Status4xx else Status2xx
  }

  function Single(r: Request): Totals {
    var b := BucketOf(r.status);
    Totals(1, if r.status >= 400 then 1 else 0, r.latency, if b.Status2xx? then 1 else 0,
           if b.Status4xx? then 1 else 0, if b.Status5xx? then 1 else 0)
  }

  // ---------------------------------------------------------------------------------------------
  // The log
  // ---------------------------------------------------------------------------------------------

  /** One endpoint in one slot of `width` seconds. */
  datatype Cell = Cell(endpoint: Endpoint, slot: int)

  function CellOf(r: Request, width: nat): Cell
    requires width > 0
  {
    Cell(r.endpoint, r.at / width)
  }

  /** What a request adds, and to which cell. */
  datatype Addition = Addition(cell: Cell, totals: Totals)

  function Additions(log: seq<Request>, width: nat): seq<Addition>
    requires width > 0
  {
    if log == [] then []
    else
      var r := log[|log| - 1];
      Additions(log[..|log| - 1], width) + [Addition(CellOf(r, width), Single(r))]
  }

  function InCell(adds: seq<Addition>, cell: Cell): Totals {
    if adds == [] then Zero()
    else
      var last, before := adds[|adds| - 1], InCell(adds[..|adds| - 1], cell);
      if last.cell == cell then Plus(before, last.totals) else before
  }

  predicate Covers(endpoints: seq<Endpoint>, first: int, slots: nat, cell: Cell) {
    cell.endpoint in endpoints && first <= cell.slot < first + slots
  }

  function InGrid(adds: seq<Addition>, endpoints: seq<Endpoint>, first: int, slots: nat): Totals {
    if adds == [] then Zero()
    else
      var last, before := adds[|adds| - 1], InGrid(adds[..|adds| - 1], endpoints, first, slots);
      if Covers(endpoints, first, slots, last.cell) then Plus(before, last.totals) else before
  }

  /** The requests of the log of the given endpoints in the slots from `first` on. */
  function InWindow(log: seq<Request>, endpoints: seq<Endpoint>, first: int, slots: nat, width: nat): Totals
    requires width > 0
  {
    InGrid(Additions(log, width), endpoints, first, slots)
  }

  predicate Tallies(t: Totals) { t.requests == t.ok + t.client + t.server && t.errors == t.client + t.server }

  /** In any window, requests are the sum of the three status classes and errors the sum of the last two. */
  lemma {:induction false} WindowTallies(log: seq<Request>, endpoints: seq<Endpoint>, first: int, slots: nat,
                                         width: nat)
    requires width > 0
    ensures Tallies(InWindow(log, endpoints, first, slots, width))
  {
    if log != [] {
      var before := log[..|log| - 1];
      WindowTallies(before, endpoints, first, slots, width);
      assert Additions(log, width)[..|log| - 1] == Additions(before, width) by {
        AdditionsLength(before, width);
      }
    }
  }

  lemma {:induction false} AdditionsLength(log: seq<Request>, width: nat)
    requires width > 0
    ensures |Additions(log, width)| == |log|
  {
    if log != [] {
      AdditionsLength(log[..|log| - 1], width);
    }
  }

  // ---------------------------------------------------------------------------------------------
  // What the totals mean
  // ---------------------------------------------------------------------------------------------

  predicate IsSuccess(r: Request) { r.status < 400 }

  predicate IsClientError(r: Request) { 400 <= r.status < 500 }

  predicate IsServerError(r: Request) { r.status >= 500 }

  /** The logged requests to some endpoints from one second on and before another. */
  function Picked(log: seq<Request>, endpoints: seq<Endpoint>, from: int, until: int): seq<Request> {
    if log == [] then []
    else
      var r := log[|log| - 1];
      Picked(log[..|log| - 1], endpoints, from, until)
      + (if r.endpoint in endpoints && from <= r.at < until then [r] else [])
  }

  function Number(rs: seq<Request>, kind: Request -> bool): nat {
    if rs == [] then 0 else Number(rs[..|rs| - 1], kind) + (if kind(rs[|rs| - 1]) then 1 else 0)
  }

  function LatencyOf(rs: seq<Request>): real {
    if rs == [] then 0.0 else LatencyOf(rs[..|rs| - 1]) + rs[|rs| - 1].latency
  }

  /** The totals are those of these requests, each counted by its own status. */
  ghost predicate Summarises(t: Totals, rs: seq<Request>) {
    && t.requests == |rs| && t.latency == LatencyOf(rs)
    && t.ok == Number(rs, IsSuccess) && t.client == Number(rs, IsClientError) && t.server == Number(rs, IsServerError)
    && t.errors == Number(rs, IsClientError) + Number(rs, IsServerError)
  }

  /** Successes, client errors and server errors. */
  function ByStatus(rs: seq<Request>): (int, int, int) {
    (Number(rs, IsSuccess), Number(rs, IsClientError), Number(rs, IsServerError))
  }

  lemma NumberMore(rs: seq<Request>, r: Request, kind: Request -> bool)
    ensures Number(rs + [r], kind) == Number(rs, kind) + (if kind(r) then 1 else 0)
  {
    assert (rs + [r])[..|rs|] == rs;
  }

  lemma SummaryMore(t: Totals, rs: seq<Request>, r: Request)
    requires Summarises(t, rs)
    ensures Summarises(Plus(t, Single(r)), rs + [r])
  {
    NumberMore(rs, r, IsSuccess);
    NumberMore(rs, r, IsClientError);
    NumberMore(rs, r, IsServerError);
    assert (rs + [r])[..|rs|] == rs;
  }

  lemma AtLeastSlot(q: int, rest: int, n: int, width: nat)
    requires 0 <= rest < width
    ensures n <= q <==> n * width <= q * width + rest
  {
    if n <= q {
      assert (q - n) * width >= 0;
    } else {
      assert (n - q - 1) * width >= 0;
    }
  }

  lemma SlotIsSpan(at: nat, first: int, slots: nat, width: nat)
    requires width > 0
    ensures first <= at / width < first + slots <==> first * width <= at < (first + slots) * width
  {
    AtLeastSlot(at / width, at % width, first, width);
    AtLeastSlot(at / width, at % width, first + slots, width);
    assert at == at / width * width + at % width;
  }

  lemma WindowMore(log: seq<Request>, endpoints: seq<Endpoint>, first: int, slots: nat, width: nat)
    requires width > 0 && log != []
    ensures var before, r := InWindow(log[..|log| - 1], endpoints, first, slots, width), log[|log| - 1];
            InWindow(log, endpoints, first, slots, width) ==
            if Covers(endpoints, first, slots, CellOf(r, width)) then Plus(before, Single(r)) else before
  {
    var before := log[..|log| - 1];
    AdditionsLength(before, width);
    assert Additions(log, width)[..|log| - 1] == Additions(before, width);
  }

  lemma CoversSpan(r: Request, endpoints: seq<Endpoint>, first: int, slots: nat, width: nat)
    requires width > 0
    ensures Covers(endpoints, first, slots, CellOf(r, width)) <==>
            r.endpoint in endpoints && first * width <= r.at < (first + slots) * width
  {
    SlotIsSpan(r.at, first, slots, width);
  }

  lemma {:induction false} TotalsSummarise(log: seq<Request>, endpoints: seq<Endpoint>, first: int, slots: nat,
                                           width: nat, from: int, until: int)
    requires width > 0 && from == first * width && until == (first + slots) * width
    ensures Summarises(InWindow(log, endpoints, first, slots, width), Picked(log, endpoints, from, until))
  {
    if log != [] {
      var before, r := log[..|log| - 1], log[|log| - 1];
      TotalsSummarise(before, endpoints, first, slots, width, from, until);
      WindowMore(log, endpoints, first, slots, width);
      CoversSpan(r, endpoints, first, slots, width);
      var rs := Picked(before, endpoints, from, until);
      if r.endpoint in endpoints && from <= r.at < until {
        SummaryMore(InWindow(before, endpoints, first, slots, width), rs, r);
      } else {
        assert Picked(log, endpoints, from, until) == rs;
      }
    }
  }

  /** In any window the totals count the requests logged in its seconds, each by its own status. */
  lemma WindowSummarises(log: seq<Request>, endpoints: seq<Endpoint>, first: int, slots: nat, width: nat)
    requires width > 0
    ensures Summarises(InWindow(log, endpoints, first, slots, width),
                       Picked(log, endpoints, first * width, (first + slots) * width))
  {
    TotalsSummarise(log, endpoints, first, slots, width, first * width, (first + slots) * width);
  }

  // ---------------------------------------------------------------------------------------------
  // Buckets
  // ---------------------------------------------------------------------------------------------

  datatype Bucket = Bucket(totals: Totals, expiresAt: nat)

  type Table = map<Cell, Bucket>

  /** What a reader at time `now` gets for a cell; an expired hash is gone. */
  function Visible(table: Table, cell: Cell, now: nat): Totals {
    if cell in table && now < table[cell].expiresAt then table[cell].totals else Zero()
  }

  /** The increments of one request and the new time to live of the bucket they fall in. */
  function Recorded(table: Table, r: Request, width: nat, ttl: nat): Table
    requires width > 0
  {
    var cell := CellOf(r, width);
    table[cell := Bucket(Plus(Visible(table, cell, r.at), Single(r)), r.at + ttl)]
  }

  function TableOf(log: seq<Request>, width: nat, ttl: nat): Table
    requires width > 0
  {
    if log == [] then map[] else Recorded(TableOf(log[..|log| - 1], width, ttl), log[|log| - 1], width, ttl)
  }

  /** Every bucket holds exactly what the log adds to its cell, and lives at least from the start of its slot. */
  ghost predicate Refines(table: Table, adds: seq<Addition>, width: nat, ttl: nat) {
    && (forall c :: c in table ==> table[c].totals == InCell(adds, c) && table[c].expiresAt >= c.slot * width + ttl)
    && (forall c :: c !in table ==> InCell(adds, c) == Zero())
  }

  lemma SlotBounds(at: nat, width: nat)
    requires width > 0
    ensures (at / width) * width <= at < (at / width) * width + width
  {
  }

  lemma BucketStillLive(table: Table, adds: seq<Addition>, r: Request, width: nat, ttl: nat)
    requires 0 < width <= ttl && Refines(table, adds, width, ttl)
    ensures Visible(table, CellOf(r, width), r.at) == InCell(adds, CellOf(r, width))
  {
    SlotBounds(r.at, width);
  }

  lemma AddOne(adds: seq<Addition>, a: Addition, cell: Cell)
    ensures InCell(adds + [a], cell) ==
            if a.cell == cell then Plus(InCell(adds, cell), a.totals) else InCell(adds, cell)
  {
    assert (adds + [a])[..|adds|] == adds;
  }

  lemma RecordRefines(table: Table, adds: seq<Addition>, r: Request, width: nat, ttl: nat)
    requires 0 < width <= ttl && Refines(table, adds, width, ttl)
    ensures Refines(Recorded(table, r, width, ttl), adds + [Addition(CellOf(r, width), Single(r))], width, ttl)
  {
    var cell := CellOf(r, width);
    var a := Addition(cell, Single(r));
    BucketStillLive(table, adds, r, width, ttl);
    SlotBounds(r.at, width);
    forall c ensures InCell(adds + [a], c) == if c == cell then Plus(InCell(adds, c), a.totals) else InCell(adds, c) {
      AddOne(adds, a, c);
    }
  }

  lemma {:induction false} TableRefines(log: seq<Request>, width: nat, ttl: nat)
    requires 0 < width <= ttl
    ensures Refines(TableOf(log, width, ttl), Additions(log, width), width, ttl)
  {
    if log != [] {
      var before := log[..|log| - 1];
      TableRefines(before, width, ttl);
      RecordRefines(TableOf(before, width, ttl), Additions(before, width), log[|log| - 1], width, ttl);
    }
  }

  // ---------------------------------------------------------------------------------------------
  // Sums over cells
  // ---------------------------------------------------------------------------------------------

  function SumSlots(table: Table, endpoint: Endpoint, first: int, slots: nat, now: nat): Totals {
    if slots == 0 then Zero()
    else Plus(SumSlots(table, endpoint, first, slots - 1, now), Visible(table, Cell(endpoint, first + slots - 1), now))
  }

  function SumGrid(table: Table, endpoints: seq<Endpoint>, first: int, slots: nat, now: nat): Totals {
    if endpoints == [] then Zero()
    else
      Plus(SumGrid(table, endpoints[..|endpoints| - 1], first, slots, now),
           SumSlots(table, endpoints[|endpoints| - 1], first, slots, now))
  }

  predicate Distinct(endpoints: seq<Endpoint>) {
    forall i, j :: 0 <= i < j < |endpoints| ==> endpoints[i] != endpoints[j]
  }

  lemma PlusNothing(a: Totals)
    ensures Plus(a, Zero()) == a && Plus(Zero(), a) == a
  {
  }

  lemma PlusSwaps(a: Totals, b: Totals, x: Totals)
    ensures Plus(Plus(a, x), b) == Plus(Plus(a, b), x) && Plus(a, Plus(b, x)) == Plus(Plus(a, b), x)
    ensures Plus(a, Plus(x, b)) == Plus(Plus(a, x), b)
  {
  }

  lemma {:induction false} OneMoreSlot(adds: seq<Addition>, endpoint: Endpoint, first: int, slots: nat)
    ensures InGrid(adds, [endpoint], first, slots + 1) ==
            Plus(InGrid(adds, [endpoint], first, slots), InCell(adds, Cell(endpoint, first + slots)))
  {
    if adds != [] {
      var before, last := adds[..|adds| - 1], adds[|adds| - 1];
      OneMoreSlot(before, endpoint, first, slots);
      var grid, cell := InGrid(before, [endpoint], first, slots), InCell(before, Cell(endpoint, first + slots));
      PlusSwaps(grid, cell, last.totals);
      assert Covers([endpoint], first, slots + 1, last.cell) <==>
             Covers([endpoint], first, slots, last.cell) || last.cell == Cell(endpoint, first + slots);
    }
  }

  lemma {:induction false} EmptyGrid(adds: seq<Addition>, endpoints: seq<Endpoint>, first: int, slots: nat)
    requires slots == 0 || endpoints == []
    ensures InGrid(adds, endpoints, first, slots) == Zero()
  {
    if adds != [] {
      EmptyGrid(adds[..|adds| - 1], endpoints, first, slots);
    }
  }

  lemma {:induction false} OneMoreEndpoint(adds: seq<Addition>, endpoints: seq<Endpoint>, endpoint: Endpoint,
                                           first: int, slots: nat)
    requires endpoint !in endpoints
    ensures InGrid(adds, endpoints + [endpoint], first, slots) ==
            Plus(InGrid(adds, endpoints, first, slots), InGrid(adds, [endpoint], first, slots))
  {
    if adds != [] {
      var before, last := adds[..|adds| - 1], adds[|adds| - 1];
      OneMoreEndpoint(before, endpoints, endpoint, first, slots);
      PlusSwaps(InGrid(before, endpoints, first, slots), InGrid(before, [endpoint], first, slots), last.totals);
      assert Covers(endpoints + [endpoint], first, slots, last.cell) <==>
             Covers(endpoints, first, slots, last.cell) || Covers([endpoint], first, slots, last.cell);
      assert !(Covers(endpoints, first, slots, last.cell) && Covers([endpoint], first, slots, last.cell));
    }
  }

  /** No bucket of the window has expired by `now`. */
  ghost predicate AllLive(table: Table, first: int, now: nat) {
    forall c :: c in table && c.slot >= first ==> now < table[c].expiresAt
  }

  lemma {:induction false} SlotsMatch(table: Table, adds: seq<Addition>, endpoint: Endpoint, first: int, slots: nat,
                                      width: nat, ttl: nat, now: nat)
    requires Refines(table, adds, width, ttl) && AllLive(table, first, now)
    ensures SumSlots(table, endpoint, first, slots, now) == InGrid(adds, [endpoint], first, slots)
  {
    if slots == 0 {
      EmptyGrid(adds, [endpoint], first, 0);
    } else {
      SlotsMatch(table, adds, endpoint, first, slots - 1, width, ttl, now);
      OneMoreSlot(adds, endpoint, first, slots - 1);
      var cell := Cell(endpoint, first + slots - 1);
      assert Visible(table, cell, now) == InCell(adds, cell);
    }
  }

  lemma {:induction false} GridMatches(table: Table, adds: seq<Addition>, endpoints: seq<Endpoint>, first: int,
                                       slots: nat, width: nat, ttl: nat, now: nat)
    requires Refines(table, adds, width, ttl) && AllLive(table, first, now) && Distinct(endpoints)
    ensures SumGrid(table, endpoints, first, slots, now) == InGrid(adds, endpoints, first, slots)
    decreases |endpoints|
  {
    if endpoints == [] {
      EmptyGrid(adds, [], first, slots);
    } else {
      var front, last := endpoints[..|endpoints| - 1], endpoints[|endpoints| - 1];
      GridMatches(table, adds, front, first, slots, width, ttl, now);
      SlotsMatch(table, adds, last, first, slots, width, ttl, now);
      OneMoreEndpoint(adds, front, last, first, slots);
      assert front + [last] == endpoints;
    }
  }

  /** The first of the `slots` slots that end with the present one. */
  function FirstSlot(now: nat, slots: nat, width: nat): int
    requires width > 0
  {
    now / width - slots + 1
  }

  lemma TimesOrdered(a: int, b: int, width: nat)
    requires a <= b
    ensures a * width <= b * width
  {
    assert (b - a) * width >= 0;
  }

  lemma SpanOfWindow(now: nat, slots: nat, width: nat)
    requires width > 0
    ensures FirstSlot(now, slots, width) * width == now - now % width - width * (slots - 1)
    ensures (FirstSlot(now, slots, width) + slots) * width == now - now % width + width
  {
    assert now == now / width * width + now % width;
  }

  lemma WindowLive(table: Table, adds: seq<Addition>, slots: nat, width: nat, ttl: nat, now: nat)
    requires 0 < width && Refines(table, adds, width, ttl) && slots * width <= ttl
    ensures AllLive(table, FirstSlot(now, slots, width), now)
  {
    var first := FirstSlot(now, slots, width);
    SpanOfWindow(now, slots, width);
    forall c | c in table && c.slot >= first ensures now < table[c].expiresAt {
      TimesOrdered(first, c.slot, width);
      assert now < first * width + width * slots;
    }
  }

  /** The reader's sum over a window equals the log's, for every log, set of endpoints and time. */
  ghost predicate WindowComplete(slots: nat, width: nat, ttl: nat)
    requires width > 0
  {
    forall log: seq<Request>, endpoints: seq<Endpoint>, now: nat ::
      Distinct(endpoints) ==>
        SumGrid(TableOf(log, width, ttl), endpoints, FirstSlot(now, slots, width), slots, now) ==
        InWindow(log, endpoints, FirstSlot(now, slots, width), slots, width)
  }

  /** Buckets refine the log exactly as far back as their time to live covers the window. */
  lemma WindowCompleteExactly(slots: nat, width: nat, ttl: nat)
    requires 0 < width <= ttl
    ensures WindowComplete(slots, width, ttl) <==> slots * width <= ttl
  {
    if slots * width <= ttl {
      forall log: seq<Request>, endpoints: seq<Endpoint>, now: nat | Distinct(endpoints)
        ensures SumGrid(TableOf(log, width, ttl), endpoints, FirstSlot(now, slots, width), slots, now) ==
                InWindow(log, endpoints, FirstSlot(now, slots, width), slots, width)
      {
        TableRefines(log, width, ttl);
        var table, adds := TableOf(log, width, ttl), Additions(log, width);
        WindowLive(table, adds, slots, width, ttl, now);
        GridMatches(table, adds, endpoints, FirstSlot(now, slots, width), slots, width, ttl, now);
      }
    } else {
      LongWindowUndercounts(slots, width, ttl);
    }
  }

  lemma LongWindowUndercounts(slots: nat, width: nat, ttl: nat)
    requires 0 < width <= ttl && slots * width > ttl
    ensures !WindowComplete(slots, width, ttl)
  {
    var log, endpoints := [Request("e", 0, 200, 0.0)], ["e"];
    ReaderSeesNothing(log[0], FirstSlot(ttl, slots, width), slots, width, ttl);
    QuotientBelow(ttl, width, slots);
    OldRequestInWindow(log[0], width, FirstSlot(ttl, slots, width), slots);
    assert log == [log[0]] && Distinct(endpoints);
    assert SumGrid(TableOf(log, width, ttl), endpoints, FirstSlot(ttl, slots, width), slots, ttl).requests !=
           InWindow(log, endpoints, FirstSlot(ttl, slots, width), slots, width).requests;
  }

  lemma ReaderSeesNothing(r: Request, first: int, slots: nat, width: nat, ttl: nat)
    requires width > 0 && r.at == 0
    ensures SumGrid(TableOf([r], width, ttl), ["e"], first, slots, ttl).requests == 0
  {
    var table := TableOf([r], width, ttl);
    TableOfOne(r, width, ttl);
    NothingVisible(table, "e", first, slots, ttl);
    assert ["e"][..0] == [] && SumGrid(table, [], first, slots, ttl) == Zero();
  }

  lemma SmallerFactor(q: int, slots: int, width: nat)
    requires q * width < slots * width
    ensures q < slots
  {
    assert (slots - q) * width > 0;
  }

  lemma QuotientBelow(x: nat, width: nat, slots: nat)
    requires 0 < width <= x < slots * width
    ensures x / width < slots
  {
    SlotBounds(x, width);
    SmallerFactor(x / width, slots, width);
  }

  lemma TableOfOne(r: Request, width: nat, ttl: nat)
    requires width > 0 && r.at == 0
    ensures forall c :: c in TableOf([r], width, ttl) ==> TableOf([r], width, ttl)[c].expiresAt == ttl
  {
    assert [r][..0] == [];
    assert TableOf([r], width, ttl) == Recorded(map[], r, width, ttl);
  }

  lemma OldRequestInWindow(r: Request, width: nat, first: int, slots: nat)
    requires width > 0 && r.at == 0 && r.endpoint == "e" && first <= 0 < first + slots
    ensures InWindow([r], ["e"], first, slots, width).requests == 1
  {
    assert [r][..0] == [] && 0 / width == 0;
    var a := Addition(Cell("e", 0), Single(r));
    assert Additions([r], width) == [a];
    assert [a][..0] == [] && Covers(["e"], first, slots, a.cell);
    assert InGrid([a], ["e"], first, slots) == Plus(Zero(), Single(r));
  }

  lemma {:induction false} NothingVisible(table: Table, endpoint: Endpoint, first: int, slots: nat, now: nat)
    requires forall c :: c in table ==> table[c].expiresAt <= now
    ensures SumSlots(table, endpoint, first, slots, now) == Zero()
  {
    if slots > 0 {
      NothingVisible(table, endpoint, first, slots - 1, now);
    }
  }

  /** Minute windows are complete up to 120 minutes and no further, hourly ones up to 720 hours. */
  lemma CompleteWindows(slots: nat)
    ensures WindowComplete(slots, MINUTE, MINUTE_BUCKET_TTL) <==> slots <= 120
    ensures WindowComplete(slots, HOUR, HOURLY_BUCKET_TTL) <==> slots <= 720
  {
    WindowCompleteExactly(slots, MINUTE, MINUTE_BUCKET_TTL);
    WindowCompleteExactly(slots, HOUR, HOURLY_BUCKET_TTL);
  }

  /** The same of the last minutes or hours, the present one included. */
  lemma RecentSummarised(log: seq<Request>, endpoints: seq<Endpoint>, slots: nat, width: nat, now: nat)
    requires width > 0
    ensures Summarises(InWindow(log, endpoints, FirstSlot(now, slots, width), slots, width),
                       Picked(log, endpoints, now - now % width - width * (slots - 1), now - now % width + width))
  {
    WindowSummarises(log, endpoints, FirstSlot(now, slots, width), slots, width);
    SpanOfWindow(now, slots, width);
  }

  /** What the reader of a complete window gets, in terms of the log. */
  lemma CompleteWindowSummarised(log: seq<Request>, endpoints: seq<Endpoint>, slots: nat, width: nat, ttl: nat,
                                 now: nat)
    requires 0 < width <= ttl && slots * width <= ttl && Distinct(endpoints)
    ensures var t := SumGrid(TableOf(log, width, ttl), endpoints, FirstSlot(now, slots, width), slots, now);
            && t == InWindow(log, endpoints, FirstSlot(now, slots, width), slots, width)
            && Summarises(t, Picked(log, endpoints, now - now % width - width * (slots - 1), now - now % width + width))
  {
    WindowCompleteExactly(slots, width, ttl);
    assert WindowComplete(slots, width, ttl);
    RecentSummarised(log, endpoints, slots, width, now);
  }

  /** One hour of a complete window. */
  lemma HourSummarised(log: seq<Request>, endpoints: seq<Endpoint>, hoursBack: nat, i: nat, now: nat)
    requires i < hoursBack <= 720 && Distinct(endpoints)
    ensures var table, start := TableOf(log, HOUR, HOURLY_BUCKET_TTL), now - now % HOUR - HOUR * (hoursBack - 1 - i);
            Summarises(SumGrid(table, endpoints, FirstSlot(now, hoursBack, HOUR) + i, 1, now),
                       Picked(log, endpoints, start, start + HOUR))
  {
    var table, adds, first := TableOf(log, HOUR, HOURLY_BUCKET_TTL), Additions(log, HOUR),
                              FirstSlot(now, hoursBack, HOUR);
    TableRefines(log, HOUR, HOURLY_BUCKET_TTL);
    WindowLive(table, adds, hoursBack, HOUR, HOURLY_BUCKET_TTL, now);
    GridMatches(table, adds, endpoints, first + i, 1, HOUR, HOURLY_BUCKET_TTL, now);
    WindowSummarises(log, endpoints, first + i, 1, HOUR);
    SpanOfWindow(now, hoursBack, HOUR);
  }

  // ---------------------------------------------------------------------------------------------
  // The middleware's writes and the reader's loops
  // ---------------------------------------------------------------------------------------------

  class ApiMetrics {
    var minutes: Table
    var hours: Table
    ghost var log: seq<Request>

    constructor ()
      ensures Valid() && log == []
    {
      minutes, hours, log := map[], map[], [];
    }

    ghost predicate Valid()
      reads this
    {
      && minutes == TableOf(log, MINUTE, MINUTE_BUCKET_TTL)
      && hours == TableOf(log, HOUR, HOURLY_BUCKET_TTL)
    }

    method Record(r: Request)
      requires Valid()
      modifies this
      ensures Valid() && log == old(log) + [r]
    {
      assert (log + [r])[..|log|] == log;
      minutes := Increment(minutes, r, MINUTE, MINUTE_BUCKET_TTL);
      hours := Increment(hours, r, HOUR, HOURLY_BUCKET_TTL);
      log := log + [r];
    }

    /** The hash commands of one request on one table, in order. */
    static method Increment(table: Table, r: Request, width: nat, ttl: nat) returns (table': Table)
      requires width > 0
      ensures table' == Recorded(table, r, width, ttl)
    {
      var cell := CellOf(r, width);
      var t := Visible(table, cell, r.at);
      t := t.(requests := t.requests + 1);
      t := t.(errors := t.errors + (if r.status >= 400 then 1 else 0));
      t := t.(latency := t.latency + r.latency);
      match BucketOf(r.status) {
        case Status2xx => t := t.(ok := t.ok + 1);
        case Status4xx => t := t.(client := t.client + 1);
        case Status5xx => t := t.(server := t.server + 1);
      }
      table' := table[cell := Bucket(t, r.at + ttl)];
    }

    /** `_aggregate_minutes`: at least one minute is read. */
    method AggregateMinutes(endpoints: seq<Endpoint>, minutesBack: int, now: nat) returns (totals: Totals)
      requires Valid() && Distinct(endpoints)
      ensures var n: nat := if minutesBack < 1 then 1 else minutesBack;
              && totals == SumGrid(minutes, endpoints, FirstSlot(now, n, MINUTE), n, now)
              && (n <= 120 ==> totals == InWindow(log, endpoints, FirstSlot(now, n, MINUTE), n, MINUTE))
              && (n <= 120 ==> Summarises(totals, Picked(log, endpoints, now - now % 60 - 60 * (n - 1),
                                                         now - now % 60 + 60)))
    {
      var safeMinutes: nat := if minutesBack < 1 then 1 else minutesBack;
      totals := Aggregate(minutes, endpoints, FirstSlot(now, safeMinutes, MINUTE), safeMinutes, now);
      if safeMinutes <= 120 {
        CompleteWindowSummarised(log, endpoints, safeMinutes, MINUTE, MINUTE_BUCKET_TTL, now);
      }
    }

    method AggregateHourly(endpoints: seq<Endpoint>, hoursBack: nat, now: nat) returns (totals: Totals)
      requires Valid() && Distinct(endpoints)
      ensures totals == SumGrid(hours, endpoints, FirstSlot(now, hoursBack, HOUR), hoursBack, now)
      ensures hoursBack <= 720 ==>
                && totals == InWindow(log, endpoints, FirstSlot(now, hoursBack, HOUR), hoursBack, HOUR)
                && Summarises(totals, Picked(log, endpoints, now - now % 3600 - 3600 * (hoursBack - 1),
                                             now - now % 3600 + 3600))
    {
      totals := Aggregate(hours, endpoints, FirstSlot(now, hoursBack, HOUR), hoursBack, now);
      if hoursBack <= 720 {
        CompleteWindowSummarised(log, endpoints, hoursBack, HOUR, HOURLY_BUCKET_TTL, now);
      }
    }

    static method Aggregate(table: Table, endpoints: seq<Endpoint>, first: int, slots: nat, now: nat)
      returns (totals: Totals)
      ensures totals == SumGrid(table, endpoints, first, slots, now)
    {
      totals := Zero();
      for i := 0 to |endpoints|
        invariant totals == SumGrid(table, endpoints[..i], first, slots, now)
      {
        assert endpoints[..i + 1][..i] == endpoints[..i];
        totals := AddSlots(table, endpoints[i], first, slots, now, totals);
      }
      assert endpoints[..|endpoints|] == endpoints;
    }

    /** The inner loop: one endpoint's buckets added to the totals so far. */
    static method AddSlots(table: Table, endpoint: Endpoint, first: int, slots: nat, now: nat, before: Totals)
      returns (totals: Totals)
      ensures totals == Plus(before, SumSlots(table, endpoint, first, slots, now))
    {
      totals := before;
      PlusNothing(before);
      for k := 0 to slots
        invariant totals == Plus(before, SumSlots(table, endpoint, first, k, now))
      {
        var bucket := Visible(table, Cell(endpoint, first + k), now);
        PlusSwaps(before, bucket, SumSlots(table, endpoint, first, k, now));
        totals := Added(totals, bucket);
      }
    }

    static method Added(totals: Totals, bucket: Totals) returns (sum: Totals)
      ensures sum == Plus(totals, bucket)
    {
      sum := totals.(requests := totals.requests + bucket.requests);
      sum := sum.(errors := totals.errors + bucket.errors);
      sum := sum.(latency := totals.latency + bucket.latency);
      sum := sum.(ok := totals.ok + bucket.ok);
      sum := sum.(client := totals.client + bucket.client);
      sum := sum.(server := totals.server + bucket.server);
    }

    /** `get_hourly_trends`: one row per hour, oldest first, over all endpoints. */
    method HourlyTrends(endpoints: seq<Endpoint>, hoursBack: nat, now: nat) returns (rows: seq<(int, int, int)>)
      requires Valid() && Distinct(endpoints)
      ensures |rows| == hoursBack
      ensures hoursBack <= 720 ==> forall i :: 0 <= i < hoursBack ==>
                var start := now - now % 3600 - 3600 * (hoursBack - 1 - i);
                rows[i] == ByStatus(Picked(log, endpoints, start, start + 3600))
    {
      rows := [];
      var first := FirstSlot(now, hoursBack, HOUR);
      for i := 0 to hoursBack
        invariant |rows| == i
        invariant hoursBack <= 720 ==> forall k :: 0 <= k < i ==>
                    var start := now - now % 3600 - 3600 * (hoursBack - 1 - k);
                    rows[k] == ByStatus(Picked(log, endpoints, start, start + 3600))
      {
        var t := Aggregate(hours, endpoints, first + i, 1, now);
        if hoursBack <= 720 {
          HourSummarised(log, endpoints, hoursBack, i, now);
        }
        rows := rows + [(t.ok, t.client, t.server)];
      }
    }
  }
}
