/** Reading request events back from their stream: newest first, a page at a time, then filtered and sliced. */
module RequestListing {
  import opened Options
  import opened Streams

  // ---------------------------------------------------------------------------------------------
  // The reverse cursor on a stream that is trimmed while it is read
  // ---------------------------------------------------------------------------------------------

  /** Every append to this stream may trim it, so of what was ever appended a first part is gone. */
  ghost predicate GoneFromFront<T>(history: seq<Entry<T>>, gone: set<Id>) {
    forall i, j :: 0 <= i < j < |history| && history[j].id in gone ==> history[i].id in gone
  }

  ghost predicate OnlyTrims<T>(history: seq<Entry<T>>, taken: set<Id>, changes: seq<Change<T>>) {
    forall r: nat :: GoneFromFront(ArrivedBy(history, changes, r), GoneBy(taken, changes, r))
  }

  function Min(a: int, b: int): int { if a < b then a else b }

  /** In an increasing sequence the entries older than the one at `m` are the first `m`. */
  lemma OlderThan<T>(all: seq<Entry<T>>, m: nat)
    requires Increasing(all) && m < |all|
    ensures Within(all, Open, Excluding(all[m].id)) == all[..m]
  {
    var keep := (e: Entry<T>) => InRange(e.id, Open, Excluding(all[m].id));
    var older, rest := all[..m], all[m..];
    assert all == older + rest;
    forall e | e in older ensures keep(e) {
      var i :| 0 <= i < m && all[i] == e;
      assert Before(all[i].id, all[m].id);
    }
    forall e | e in rest ensures !keep(e) {
      var i :| 0 <= i < |rest| && rest[i] == e;
      assert i > 0 ==> Before(all[m].id, all[m + i].id);
    }
    WhereConcat(older, rest, keep);
    WhereAll(older, keep);
    WhereNone(rest, keep);
  }

  /** Entries appended after one that is excluded from above are not in the range. */
  lemma LateIsNewer<T>(history: seq<Entry<T>>, late: seq<Entry<T>>, gone: set<Id>, low: Bound, x: Entry<T>)
    requires Increasing(history + late) && x in history
    ensures Within(Left(history + late, gone), low, Excluding(x.id)) ==
            Within(Left(history, gone), low, Excluding(x.id))
  {
    var keep := (e: Entry<T>) => InRange(e.id, low, Excluding(x.id));
    PartsIncreasing(history, late);
    WhereConcat(history, late, (e: Entry<T>) => e.id !in gone);
    WhereConcat(Left(history, gone), Left(late, gone), keep);
    WhereIncreasing(late, (e: Entry<T>) => e.id !in gone);
    forall e | e in Left(late, gone) ensures !keep(e) {
      assert Before(x.id, e.id);
    }
    WhereNone(Left(late, gone), keep);
  }

  /** The order of narrowing a range and of losing entries does not matter. */
  lemma Narrowed<T>(history: seq<Entry<T>>, gone: set<Id>, gone': set<Id>, low: Bound, high: Bound, id: Id)
    requires gone <= gone' && Below(id, high)
    ensures Within(Left(history, gone'), low, Excluding(id)) ==
            Left(Within(Within(Left(history, gone), low, high), Open, Excluding(id)), gone')
  {
    var p, p' := (e: Entry<T>) => e.id !in gone, (e: Entry<T>) => e.id !in gone';
    var range := (e: Entry<T>) => InRange(e.id, low, high);
    var older := (e: Entry<T>) => InRange(e.id, Open, Excluding(id));
    var narrow := (e: Entry<T>) => InRange(e.id, low, Excluding(id));
    var both := (e: Entry<T>) => e.id !in gone' && InRange(e.id, low, Excluding(id));
    var kept := (e: Entry<T>) => e.id !in gone && InRange(e.id, low, high);
    var older' := (e: Entry<T>) => e.id !in gone && InRange(e.id, low, Excluding(id));
    WhereWhere(history, p', narrow, both);
    WhereWhere(history, p, range, kept);
    WhereWhere(history, kept, older, older');
    WhereWhere(history, older', p', both);
  }

  /** What has gone of an increasing part of the history is a first part of it. */
  lemma {:induction false} TrimLeavesSuffix<T>(s: seq<Entry<T>>, gone: set<Id>) returns (d: nat)
    requires forall i, j :: 0 <= i < j < |s| && s[j].id in gone ==> s[i].id in gone
    ensures d <= |s| && Left(s, gone) == s[d..]
    ensures forall i :: 0 <= i < |s| ==> (s[i].id in gone <==> i < d)
  {
    var keep := (e: Entry<T>) => e.id !in gone;
    if s == [] || s[0].id !in gone {
      d := 0;
      WhereAll(s, keep);
    } else {
      var rest := s[1..];
      assert forall i :: 0 <= i < |rest| ==> rest[i] == s[i + 1];
      var d' := TrimLeavesSuffix(rest, gone);
      d := d' + 1;
      assert rest[d'..] == s[d..];
    }
  }

  lemma WithinFromHistory<T>(history: seq<Entry<T>>, gone: set<Id>, gone': set<Id>, low: Bound, high: Bound)
    requires Increasing(history) && GoneFromFront(history, gone')
    ensures var all := Within(Left(history, gone), low, high);
            && Increasing(all) && (forall e :: e in all ==> e in history && InRange(e.id, low, high))
            && forall i, j :: 0 <= i < j < |all| && all[j].id in gone' ==> all[i].id in gone'
  {
    var left := Left(history, gone);
    var all := Within(left, low, high);
    WhereIncreasing(history, (e: Entry<T>) => e.id !in gone);
    WhereIncreasing(left, (e: Entry<T>) => InRange(e.id, low, high));
    forall i, j | 0 <= i < j < |all| && all[j].id in gone' ensures all[i].id in gone' {
      assert Before(all[i].id, all[j].id) && all[i] in history && all[j] in history;
      OlderIsGone(history, gone', all[i], all[j]);
    }
  }

  lemma OlderIsGone<T>(history: seq<Entry<T>>, gone: set<Id>, x: Entry<T>, y: Entry<T>)
    requires Increasing(history) && GoneFromFront(history, gone)
    requires x in history && y in history && Before(x.id, y.id) && y.id in gone
    ensures x.id in gone
  {
    var i :| 0 <= i < |history| && history[i] == x;
    var j :| 0 <= j < |history| && history[j] == y;
    assert j < i ==> Before(y.id, x.id);
  }

  /** The range below the row at `m` holds what is left of the rows before it, whatever was appended meanwhile. */
  lemma RangeBelow<T>(history: seq<Entry<T>>, late: seq<Entry<T>>, gone: set<Id>, gone': set<Id>, low: Bound,
                      high: Bound, m: nat)
    requires Increasing(history + late) && gone <= gone' && m < |Within(Left(history, gone), low, high)|
    ensures var all := Within(Left(history, gone), low, high);
            Within(Left(history + late, gone'), low, Excluding(all[m].id)) == Left(all[..m], gone')
  {
    var all := Within(Left(history, gone), low, high);
    PartsIncreasing(history, late);
    WhereIncreasing(history, (e: Entry<T>) => e.id !in gone);
    WhereIncreasing(Left(history, gone), (e: Entry<T>) => InRange(e.id, low, high));
    assert all[m] in all;
    LateIsNewer(history, late, gone', low, all[m]);
    Narrowed(history, gone, gone', low, high, all[m].id);
    OlderThan(all, m);
  }

  lemma FrontOfHistory<T>(history: seq<Entry<T>>, late: seq<Entry<T>>, gone: set<Id>)
    requires Increasing(history + late) && GoneFromFront(history + late, gone)
    ensures Increasing(history) && GoneFromFront(history, gone)
  {
    PartsIncreasing(history, late);
    assert forall i :: 0 <= i < |history| ==> history[i] == (history + late)[i];
  }

  /** After `n` rows newest first, of those in range when the reading began, the range below the last of them holds
      what a trim has left of the others, which is all but a first part. */
  lemma NextPage<T>(history: seq<Entry<T>>, late: seq<Entry<T>>, gone: set<Id>, gone': set<Id>, low: Bound, high: Bound,
                    n: nat) returns (d: nat)
    requires Increasing(history + late) && GoneFromFront(history + late, gone') && gone <= gone'
    requires 0 < n <= |Within(Left(history, gone), low, high)|
    ensures var all := Within(Left(history, gone), low, high);
            var m := |all| - n;
            && d <= m
            && Within(Left(history + late, gone'), low, Excluding(all[m].id)) == all[d..m]
            && forall i :: 0 <= i < m ==> (all[i].id in gone' <==> i < d)
  {
    var all := Within(Left(history, gone), low, high);
    var front := all[..|all| - n];
    RangeBelow(history, late, gone, gone', low, high, |all| - n);
    FrontOfHistory(history, late, gone');
    WithinFromHistory(history, gone, gone', low, high);
    assert forall i :: 0 <= i < |front| ==> front[i] == all[i];
    d := TrimLeavesSuffix(front, gone');
    assert front[d..] == all[d..|all| - n];
  }

  lemma ReversePart<T>(all: seq<T>, d: nat, m: nat)
    requires d <= m <= |all|
    ensures Reverse(all[d..m]) == Reverse(all)[|all| - m..|all| - d]
  {
    var part := Reverse(all)[|all| - m..|all| - d];
    assert forall i :: 0 <= i < m - d ==> Reverse(all[d..m])[i] == all[m - 1 - i];
    assert forall i :: 0 <= i < m - d ==> part[i] == all[m - 1 - i];
  }

  /** What one read adds to `n` rows: the next rows, a page of them or as many as a trim has left. */
  ghost predicate ReadsOn<T>(page: seq<Entry<T>>, newest: seq<Entry<T>>, n: nat, count: nat, gone: set<Id>) {
    && n + |page| <= |newest| && page == newest[n..n + |page|] && |page| <= count
    && (forall q :: n <= q < n + |page| ==> newest[q].id !in gone)
    && (|page| < count && n + |page| < |newest| ==> newest[n + |page|].id in gone)
  }

  lemma PageIsSlice<T>(all: seq<T>, n: nat, count: nat, d: nat)
    requires n <= |all| && d <= |all| - n
    ensures var page := Take(Reverse(all[d..|all| - n]), count);
            && |page| == Min(count, |all| - n - d)
            && page == Reverse(all)[n..n + |page|]
  {
    ReversePart(all, d, |all| - n);
    var left := Reverse(all)[n..|all| - d];
    assert |left| > count ==> left[..count] == Reverse(all)[n..n + count];
  }

  lemma GoneByPlace<T>(all: seq<Entry<T>>, n: nat, gone: set<Id>, d: nat)
    requires n <= |all| && d <= |all| - n && forall i :: 0 <= i < |all| - n ==> (all[i].id in gone <==> i < d)
    ensures forall q :: n <= q < |all| ==> (Reverse(all)[q].id in gone <==> q >= |all| - d)
  {
    forall q | n <= q < |all| ensures Reverse(all)[q].id in gone <==> q >= |all| - d {
      assert Reverse(all)[q] == all[|all| - 1 - q];
    }
  }

  lemma PageReadsOn<T>(all: seq<Entry<T>>, n: nat, count: nat, gone: set<Id>, d: nat)
    requires n <= |all| && d <= |all| - n && forall i :: 0 <= i < |all| - n ==> (all[i].id in gone <==> i < d)
    ensures ReadsOn(Take(Reverse(all[d..|all| - n]), count), Reverse(all), n, count, gone)
  {
    PageIsSlice(all, n, count, d);
    GoneByPlace(all, n, gone, d);
  }

  lemma PageAfter<T>(history: seq<Entry<T>>, taken: set<Id>, h: seq<Entry<T>>, gone: set<Id>, low: Bound, high: Bound,
                     n: nat, count: nat, cursor: Id)
    requires Increasing(history) && GoneFromFront(history, taken) && h <= history && gone <= taken
    requires 0 < n <= |Within(Left(h, gone), low, high)|
    requires cursor == Reverse(Within(Left(h, gone), low, high))[n - 1].id
    ensures ReadsOn(Take(Reverse(Within(Left(history, taken), low, Excluding(cursor))), count),
                    Reverse(Within(Left(h, gone), low, high)), n, count, taken)
  {
    var all := Within(Left(h, gone), low, high);
    var late := history[|h|..];
    assert history == h + late;
    assert cursor == all[|all| - n].id;
    var d := NextPage(h, late, gone, taken, low, high, n);
    PageReadsOn(all, n, count, taken, d);
  }

  /** The page after the first `n` rows. */
  method ReadPage<T>(stream: Stream<T>, cursor: Id, low: Bound, count: nat, ghost h: seq<Entry<T>>, ghost gone: set<Id>,
                     ghost high: Bound, ghost n: nat) returns (page: seq<Entry<T>>)
    requires stream.Valid() && stream.deleted == {} && h <= stream.history && gone <= stream.taken
    requires NextTrims(stream.history, stream.taken, stream.incoming)
    requires 0 < n <= |Within(Left(h, gone), low, high)|
    requires cursor == Reverse(Within(Left(h, gone), low, high))[n - 1].id
    modifies stream`entries, stream`incoming, stream`history, stream`taken
    ensures stream.Valid() && stream.Changed(old(stream.history), old(stream.taken), old(stream.incoming))
    ensures ReadsOn(page, Reverse(Within(Left(h, gone), low, high)), n, count, stream.taken)
  {
    page := stream.RevRange(Excluding(cursor), low, count);
    PartsIncreasing(stream.history, Upcoming(stream.incoming));
    assert stream.taken + stream.deleted == stream.taken;
    PageAfter(stream.history, stream.taken, h, gone, low, high, n, count, cursor);
  }

  /** After the next change, too, only a first part is gone. */
  ghost predicate NextTrims<T>(history: seq<Entry<T>>, taken: set<Id>, changes: seq<Change<T>>) {
    if changes == [] then GoneFromFront(history, taken)
    else GoneFromFront(history + changes[0].arrived, taken + changes[0].gone)
  }

  lemma NextTrimsAt<T>(history: seq<Entry<T>>, taken: set<Id>, changes: seq<Change<T>>, r: nat)
    requires OnlyTrims(history, taken, changes)
    ensures NextTrims(ArrivedBy(history, changes, r), GoneBy(taken, changes, r), Remaining(changes, r))
  {
    assert GoneFromFront(ArrivedBy(history, changes, r + 1), GoneBy(taken, changes, r + 1));
    if r >= |changes| {
      assert ArrivedBy(history, changes, r + 1) == ArrivedBy(history, changes, r);
      assert GoneBy(taken, changes, r + 1) == GoneBy(taken, changes, r);
    }
  }

  /** The state of a stream after its `r`th change by others. */
  ghost predicate At<T>(stream: Stream<T>, history: seq<Entry<T>>, taken: set<Id>, changes: seq<Change<T>>, r: nat)
    reads stream
  {
    && stream.history == ArrivedBy(history, changes, r) && stream.taken == GoneBy(taken, changes, r)
    && stream.incoming == Remaining(changes, r)
  }

  lemma ChangedOnce<T>(stream: Stream<T>, history: seq<Entry<T>>, taken: set<Id>, changes: seq<Change<T>>, r: nat)
    requires stream.Changed(ArrivedBy(history, changes, r), GoneBy(taken, changes, r), Remaining(changes, r))
    ensures At(stream, history, taken, changes, r + 1)
  {
  }

  /** Which read a place in the list falls to, the pages being full. */
  function ReadOf(q: nat, count: nat): nat
    requires count >= 1
  {
    if q < count then 1 else 1 + ReadOf(q - count, count)
  }

  ghost predicate StartsRead(n: nat, count: nat, r: nat)
    requires count >= 1
  {
    forall q: nat :: n <= q < n + count ==> ReadOf(q, count) == r
  }

  lemma NextReadStarts(n: nat, count: nat, r: nat)
    requires count >= 1 && StartsRead(n, count, r)
    ensures StartsRead(n + count, count, r + 1)
  {
    forall q: nat | n + count <= q < n + count + count ensures ReadOf(q, count) == r + 1 {
      assert ReadOf(q - count, count) == r;
    }
  }

  /** Each of the first `n` rows was still there at the read that its place in the list falls to. */
  ghost predicate Listed<T>(newest: seq<Entry<T>>, n: nat, taken: set<Id>, changes: seq<Change<T>>, count: nat)
    requires count >= 1
  {
    n <= |newest| && forall q :: 0 <= q < n ==> newest[q].id !in GoneBy(taken, changes, ReadOf(q, count))
  }

  /** The row after the first `n`, if there is one, was gone at the read that its place falls to. */
  ghost predicate CutOff<T>(newest: seq<Entry<T>>, n: nat, taken: set<Id>, changes: seq<Change<T>>, count: nat)
    requires count >= 1
  {
    n < |newest| ==> newest[n].id in GoneBy(taken, changes, ReadOf(n, count))
  }

  lemma ListedFurther<T>(newest: seq<Entry<T>>, n: nat, page: seq<Entry<T>>, taken: set<Id>, changes: seq<Change<T>>,
                         count: nat, r: nat)
    requires count >= 1 && Listed(newest, n, taken, changes, count) && StartsRead(n, count, r)
    requires ReadsOn(page, newest, n, count, GoneBy(taken, changes, r))
    ensures Listed(newest, n + |page|, taken, changes, count)
    ensures |page| < count ==> CutOff(newest, n + |page|, taken, changes, count)
  {
    assert forall q :: n <= q < n + |page| ==> ReadOf(q, count) == r;
    assert |page| < count ==> ReadOf(n + |page|, count) == r;
  }

  /** The first read: of the rows it finds, all are there. */
  lemma FirstPage<T>(entries: seq<Entry<T>>, history: seq<Entry<T>>, gone: set<Id>, low: Bound, high: Bound, count: nat)
    requires entries == Left(history, gone)
    ensures var all := Within(entries, low, high);
            ReadsOn(Take(Reverse(all), count), Reverse(all), 0, count, gone)
  {
    var all := Within(entries, low, high);
    forall i | 0 <= i < |all| ensures all[i].id !in gone {
      WhereMembers(entries, (e: Entry<T>) => InRange(e.id, low, high), all[i]);
      WhereMembers(history, (e: Entry<T>) => e.id !in gone, all[i]);
    }
    PageReadsOn(all, 0, count, gone, 0);
    assert all[0..|all| - 0] == all;
  }

  lemma {:induction false} GoneGrows<T>(taken: set<Id>, changes: seq<Change<T>>, r: nat, s: nat)
    requires r <= s
    ensures GoneBy(taken, changes, r) <= GoneBy(taken, changes, s)
  {
    if r < s {
      GoneGrows(taken, changes, r, s - 1);
    }
  }

  lemma {:induction false} ArrivedGrows<T>(history: seq<Entry<T>>, changes: seq<Change<T>>, r: nat, s: nat)
    requires r <= s
    ensures ArrivedBy(history, changes, r) <= ArrivedBy(history, changes, s)
  {
    if r < s {
      ArrivedGrows(history, changes, r, s - 1);
    }
  }

  /** The rows in range at the first read, newest first. */
  function Newest<T>(history: seq<Entry<T>>, taken: set<Id>, changes: seq<Change<T>>, low: Bound, high: Bound)
    : seq<Entry<T>>
  {
    Reverse(Within(Left(ArrivedBy(history, changes, 1), GoneBy(taken, changes, 1)), low, high))
  }

  method FirstRead<T>(stream: Stream<T>, high: Bound, low: Bound, count: nat) returns (page: seq<Entry<T>>)
    requires stream.Valid() && stream.deleted == {}
    modifies stream`entries, stream`incoming, stream`history, stream`taken
    ensures stream.Valid() && At(stream, old(stream.history), old(stream.taken), old(stream.incoming), 1)
    ensures ReadsOn(page, Newest(old(stream.history), old(stream.taken), old(stream.incoming), low, high), 0, count,
                    GoneBy(old(stream.taken), old(stream.incoming), 1))
  {
    assert ArrivedBy(stream.history, stream.incoming, 0) == stream.history;
    assert GoneBy(stream.taken, stream.incoming, 0) == stream.taken;
    page := stream.RevRange(high, low, count);
    ChangedOnce(stream, old(stream.history), old(stream.taken), old(stream.incoming), 0);
    assert stream.taken + stream.deleted == stream.taken;
    FirstPage(stream.entries, stream.history, stream.taken, low, high, count);
  }

  method NextRead<T>(stream: Stream<T>, cursor: Id, high: Bound, low: Bound, count: nat, ghost h: seq<Entry<T>>,
                     ghost t: set<Id>, ghost changes: seq<Change<T>>, ghost r: nat, ghost n: nat)
    returns (page: seq<Entry<T>>)
    requires stream.Valid() && stream.deleted == {} && OnlyTrims(h, t, changes) && r >= 1
    requires At(stream, h, t, changes, r)
    requires 0 < n <= |Newest(h, t, changes, low, high)| && cursor == Newest(h, t, changes, low, high)[n - 1].id
    modifies stream`entries, stream`incoming, stream`history, stream`taken
    ensures stream.Valid() && At(stream, h, t, changes, r + 1)
    ensures ReadsOn(page, Newest(h, t, changes, low, high), n, count, GoneBy(t, changes, r + 1))
  {
    NextTrimsAt(h, t, changes, r);
    GoneGrows(t, changes, 1, r);
    ArrivedGrows(h, changes, 1, r);
    page := ReadPage(stream, cursor, low, count, ArrivedBy(h, changes, 1), GoneBy(t, changes, 1), high, n);
    ChangedOnce(stream, h, t, changes, r);
  }

  /** Where the reading stands after its `r`th read, which gave `page`. */
  ghost predicate Standing<T>(rows: seq<Entry<T>>, page: seq<Entry<T>>, newest: seq<Entry<T>>, taken: set<Id>,
                              changes: seq<Change<T>>, count: nat, r: nat)
    requires count >= 1
  {
    && |page| <= |rows| <= |newest| && rows == newest[..|rows|] && |page| <= count
    && StartsRead(|rows| - |page|, count, r)
    && (page != [] ==> rows[|rows| - 1] == page[|page| - 1])
    && Listed(newest, |rows|, taken, changes, count)
    && (|page| < count ==> CutOff(newest, |rows|, taken, changes, count))
  }

  lemma StandingFirst<T>(page: seq<Entry<T>>, newest: seq<Entry<T>>, taken: set<Id>, changes: seq<Change<T>>,
                         count: nat)
    requires count >= 1 && ReadsOn(page, newest, 0, count, GoneBy(taken, changes, 1))
    ensures Standing(page, page, newest, taken, changes, count, 1)
  {
    assert StartsRead(0, count, 1);
    ListedFurther(newest, 0, page, taken, changes, count, 1);
  }

  lemma SlicesJoin<T>(s: seq<T>, m: nat, n: nat)
    requires m <= n <= |s|
    ensures s[..m] + s[m..n] == s[..n]
  {
  }

  lemma LastOfJoined<T>(rows: seq<T>, page: seq<T>)
    ensures page != [] ==> (rows + page)[|rows + page| - 1] == page[|page| - 1]
    ensures |rows + page| - |page| == |rows|
  {
  }

  lemma RowsFurther<T>(rows: seq<T>, page: seq<T>, newest: seq<T>)
    requires |rows| + |page| <= |newest| && rows == newest[..|rows|]
    requires page == newest[|rows|..|rows| + |page|]
    ensures |rows + page| == |rows| + |page| && rows + page == newest[..|rows| + |page|]
    ensures page != [] ==> (rows + page)[|rows + page| - 1] == page[|page| - 1]
  {
    SlicesJoin(newest, |rows|, |rows| + |page|);
    LastOfJoined(rows, page);
  }

  lemma StandingFurther<T>(rows: seq<Entry<T>>, last: seq<Entry<T>>, page: seq<Entry<T>>, newest: seq<Entry<T>>,
                           taken: set<Id>, changes: seq<Change<T>>, count: nat, r: nat)
    requires count >= 1 && Standing(rows, last, newest, taken, changes, count, r) && |last| == count
    requires ReadsOn(page, newest, |rows|, count, GoneBy(taken, changes, r + 1))
    ensures Standing(rows + page, page, newest, taken, changes, count, r + 1)
  {
    NextReadStarts(|rows| - |last|, count, r);
    ListedFurther(newest, |rows|, page, taken, changes, count, r + 1);
    RowsFurther(rows, page, newest);
  }

  /** All rows are listed exactly when each is still there at the read its place falls to. */
  lemma AllListedExactly<T>(rows: seq<Entry<T>>, newest: seq<Entry<T>>, taken: set<Id>, changes: seq<Change<T>>,
                            count: nat)
    requires count >= 1 && |rows| <= |newest| && rows == newest[..|rows|]
    requires Listed(newest, |rows|, taken, changes, count) && CutOff(newest, |rows|, taken, changes, count)
    ensures rows == newest <==> Listed(newest, |newest|, taken, changes, count)
    ensures changes == [] && (forall e :: e in newest ==> e.id !in taken) ==> rows == newest
  {
    assert |rows| < |newest| ==> newest[|rows|] in newest;
    NoChanges(taken, changes, if |rows| < |newest| then ReadOf(|rows|, count) else 0);
    assert newest[..|newest|] == newest;
  }

  lemma {:induction false} NoChanges<T>(taken: set<Id>, changes: seq<Change<T>>, r: nat)
    ensures changes == [] ==> GoneBy(taken, changes, r) == taken
  {
    if r > 0 {
      NoChanges(taken, changes, r - 1);
    }
  }

  lemma NewestPresent<T>(history: seq<Entry<T>>, taken: set<Id>, changes: seq<Change<T>>, low: Bound, high: Bound)
    ensures forall e :: e in Newest(history, taken, changes, low, high) ==> e.id !in GoneBy(taken, changes, 1)
  {
    var h, gone := ArrivedBy(history, changes, 1), GoneBy(taken, changes, 1);
    var all := Within(Left(h, gone), low, high);
    forall e | e in Reverse(all) ensures e.id !in gone {
      var i :| 0 <= i < |all| && Reverse(all)[i] == e;
      assert e == all[|all| - 1 - i] && e in all;
      WhereMembers(Left(h, gone), (x: Entry<T>) => InRange(x.id, low, high), e);
      WhereMembers(h, (x: Entry<T>) => x.id !in gone, e);
    }
  }

  lemma AllListedAtRest<T>(rows: seq<Entry<T>>, history: seq<Entry<T>>, taken: set<Id>, changes: seq<Change<T>>,
                           low: Bound, high: Bound, count: nat)
    requires var newest := Newest(history, taken, changes, low, high);
             && count >= 1 && |rows| <= |newest| && rows == newest[..|rows|]
             && Listed(newest, |rows|, taken, changes, count) && CutOff(newest, |rows|, taken, changes, count)
    ensures changes == [] ==> rows == Newest(history, taken, changes, low, high)
  {
    NewestPresent(history, taken, changes, low, high);
    NoChanges(taken, changes, 1);
    AllListedExactly(rows, Newest(history, taken, changes, low, high), taken, changes, count);
  }

  /** One more read after a full page. */
  method ReadMore<T>(stream: Stream<T>, high: Bound, low: Bound, count: nat, rows: seq<Entry<T>>, last: seq<Entry<T>>,
                     ghost h: seq<Entry<T>>, ghost t: set<Id>, ghost changes: seq<Change<T>>, ghost r: nat)
    returns (page: seq<Entry<T>>)
    requires stream.Valid() && stream.deleted == {} && count >= 1 && |last| == count
    requires OnlyTrims(h, t, changes) && r >= 1 && At(stream, h, t, changes, r)
    requires Standing(rows, last, Newest(h, t, changes, low, high), t, changes, count, r)
    modifies stream`entries, stream`incoming, stream`history, stream`taken
    ensures stream.Valid() && At(stream, h, t, changes, r + 1)
    ensures Standing(rows + page, page, Newest(h, t, changes, low, high), t, changes, count, r + 1)
  {
    ghost var newest := Newest(h, t, changes, low, high);
    var cursor := last[|last| - 1].id;
    assert cursor == newest[|rows| - 1].id;
    page := NextRead(stream, cursor, high, low, count, h, t, changes, r, |rows|);
    StandingFurther(rows, last, page, newest, t, changes, count, r);
  }

  /** The pages after the first, for as long as they are full. */
  method ReadOn<T>(stream: Stream<T>, high: Bound, low: Bound, count: nat, first: seq<Entry<T>>, ghost h: seq<Entry<T>>,
                   ghost t: set<Id>, ghost changes: seq<Change<T>>) returns (rows: seq<Entry<T>>)
    requires stream.Valid() && stream.deleted == {} && count >= 1
    requires OnlyTrims(h, t, changes) && At(stream, h, t, changes, 1)
    requires Standing(first, first, Newest(h, t, changes, low, high), t, changes, count, 1)
    modifies stream`entries, stream`incoming, stream`history, stream`taken
    ensures var newest := Newest(h, t, changes, low, high);
            && |rows| <= |newest| && rows == newest[..|rows|]
            && Listed(newest, |rows|, t, changes, count) && CutOff(newest, |rows|, t, changes, count)
  {
    ghost var newest, r := Newest(h, t, changes, low, high), 1;
    var page := first;
    rows := first;
    while |page| == count
      invariant r >= 1 && stream.Valid() && stream.deleted == {} && At(stream, h, t, changes, r)
      invariant Standing(rows, page, newest, t, changes, count, r)
      decreases |newest| - |rows|, |page|
    {
      page := ReadMore(stream, high, low, count, rows, page, h, t, changes, r);
      rows, r := rows + page, r + 1;
    }
  }

  /** `iter_api_request_rows`: of the rows in range at the first read, newest first, all up to the first one that a trim
      has removed by the read its place falls to. */
  method PagedRows<T>(stream: Stream<T>, high: Bound, low: Bound, count: nat) returns (rows: seq<Entry<T>>)
    requires stream.Valid() && stream.deleted == {} && count >= 1
    requires OnlyTrims(stream.history, stream.taken, stream.incoming)
    modifies stream`entries, stream`incoming, stream`history, stream`taken
    ensures var newest := Newest(old(stream.history), old(stream.taken), old(stream.incoming), low, high);
            && |rows| <= |newest| && rows == newest[..|rows|]
            && Listed(newest, |rows|, old(stream.taken), old(stream.incoming), count)
            && CutOff(newest, |rows|, old(stream.taken), old(stream.incoming), count)
            && (old(stream.incoming) == [] ==> rows == newest)
  {
    ghost var h, t, changes := stream.history, stream.taken, stream.incoming;
    var first := FirstRead(stream, high, low, count);
    StandingFirst(first, Newest(h, t, changes, low, high), t, changes, count);
    rows := ReadOn(stream, high, low, count, first, h, t, changes);
    AllListedAtRest(rows, h, t, changes, low, high, count);
  }

  /** The rows missed are the oldest, and every one of them has been trimmed by then. */
  lemma MissedAreTrimmed<T>(n: nat, history: seq<Entry<T>>, taken: set<Id>, changes: seq<Change<T>>, low: Bound,
                            high: Bound, count: nat)
    requires count >= 1 && OnlyTrims(history, taken, changes)
    requires Increasing(ArrivedBy(history, changes, 1)) && n <= |Newest(history, taken, changes, low, high)|
    requires CutOff(Newest(history, taken, changes, low, high), n, taken, changes, count)
    ensures var newest := Newest(history, taken, changes, low, high);
            forall q :: n <= q < |newest| ==> newest[q].id in GoneBy(taken, changes, ReadOf(n, count))
  {
    var r := ReadOf(n, count);
    var h, gone, gone' := ArrivedBy(history, changes, 1), GoneBy(taken, changes, 1), GoneBy(taken, changes, r);
    ArrivedGrows(history, changes, 1, r);
    assert GoneFromFront(ArrivedBy(history, changes, r), gone');
    assert forall i :: 0 <= i < |h| ==> h[i] == ArrivedBy(history, changes, r)[i];
    WithinFromHistory(h, gone, gone', low, high);
    var all := Within(Left(h, gone), low, high);
    var newest := Reverse(all);
    assert forall q :: 0 <= q < |newest| ==> newest[q] == all[|all| - 1 - q];
  }

  lemma Untouched<T>(h: seq<Entry<T>>, gone: set<Id>, low: Bound, high: Bound)
    requires forall e :: e in h ==> e.id !in gone && InRange(e.id, low, high)
    ensures Within(Left(h, gone), low, high) == h
  {
    WhereAll(h, (e: Entry<T>) => e.id !in gone);
    WhereAll(h, (e: Entry<T>) => InRange(e.id, low, high));
  }

  const OLDEST := Entry(Id(1, 0), 1)
  const MIDDLE := Entry(Id(2, 0), 2)
  const NEWEST := Entry(Id(3, 0), 3)
  const LATE := Entry(Id(4, 0), 4)

  /** Nothing before the first read, then one append that trims the oldest of three rows. */
  const TRIMMING: seq<Change<int>> := [Change([], {}), Change([LATE], {Id(1, 0)})]

  lemma {:induction false} TrimmingTakesOldest(r: nat)
    ensures GoneBy({}, TRIMMING, r) <= {Id(1, 0)}
    ensures [OLDEST, MIDDLE, NEWEST] <= ArrivedBy([OLDEST, MIDDLE, NEWEST], TRIMMING, r)
    ensures forall e :: e in ArrivedBy([OLDEST, MIDDLE, NEWEST], TRIMMING, r)[1..] ==> e.id.ms > 1
  {
    if r > 0 {
      TrimmingTakesOldest(r - 1);
      var before := ArrivedBy([OLDEST, MIDDLE, NEWEST], TRIMMING, r - 1);
      var more := if r <= 2 then TRIMMING[r - 1].arrived else [];
      assert (before + more)[1..] == before[1..] + more;
    }
  }

  /** That stream is one the listing may meet. */
  lemma TrimmingIsOrdinary()
    ensures OnlyTrims([OLDEST, MIDDLE, NEWEST], {}, TRIMMING)
    ensures Increasing([OLDEST, MIDDLE, NEWEST] + Upcoming(TRIMMING)) && Orderly(TRIMMING)
  {
    forall r: nat
      ensures GoneFromFront(ArrivedBy([OLDEST, MIDDLE, NEWEST], TRIMMING, r), GoneBy({}, TRIMMING, r))
    {
      TrimmingTakesOldest(r);
      var h := ArrivedBy([OLDEST, MIDDLE, NEWEST], TRIMMING, r);
      assert forall j :: 0 < j < |h| ==> h[j] == h[1..][j - 1];
    }
    var last := [TRIMMING[1]];
    assert TRIMMING[1..] == last && last[1..] == [] && Upcoming<int>([]) == [];
    assert Upcoming(last) == [LATE] + [] && Upcoming(TRIMMING) == [] + Upcoming(last);
    assert Upcoming(TRIMMING) == [LATE];
  }

  /** Where a row is lost: with pages of two, the append comes before the second read, and the listing ends without the
      oldest row, which was in range when it began. */
  lemma RowLost(rows: seq<Entry<int>>)
    ensures var newest := Newest([OLDEST, MIDDLE, NEWEST], {}, TRIMMING, Open, Open);
            && newest == [NEWEST, MIDDLE, OLDEST]
            && (|rows| <= |newest| && rows == newest[..|rows|] && Listed(newest, |rows|, {}, TRIMMING, 2)
                && CutOff(newest, |rows|, {}, TRIMMING, 2)
                ==> rows == [NEWEST, MIDDLE])
  {
    var h := [OLDEST, MIDDLE, NEWEST];
    assert ArrivedBy(h, TRIMMING, 0) == h && ArrivedBy(h, TRIMMING, 1) == h;
    assert GoneBy<int>({}, TRIMMING, 0) == {} && GoneBy({}, TRIMMING, 1) == {};
    assert GoneBy({}, TRIMMING, 2) == {Id(1, 0)};
    Untouched(h, {}, Open, Open);
    var newest := Newest(h, {}, TRIMMING, Open, Open);
    assert newest == Reverse(h);
    assert ReadOf(0, 2) == 1 && ReadOf(1, 2) == 1 && ReadOf(2, 2) == 2;
    assert newest[0] == NEWEST && newest[1] == MIDDLE && newest[2] == OLDEST;
  }

  // ---------------------------------------------------------------------------------------------
  // Time bounds
  // ---------------------------------------------------------------------------------------------

  const LAST_COUNTER := 999999

  /** The inclusive bounds for a time in microseconds. */
  function Floor(micros: nat): Bound { Including(Id(micros / 1000, 0)) }

  function Ceil(micros: nat): Bound { Including(Id(micros / 1000, LAST_COUNTER)) }

  function From(after: Option<nat>): Bound { if after.Some? then Floor(after.value) else Open }

  function Until(before: Option<nat>): Bound { if before.Some? then Ceil(before.value) else Open }

  /** Which entry times the bounds let through: every id of a millisecond that lies between the two times, widened to
      the whole first millisecond, unless more than a million ids share the last one. */
  lemma TimeBounds(id: Id, after: nat, before: nat)
    ensures after <= id.ms * 1000 <= before && id.counter <= LAST_COUNTER ==> InRange(id, Floor(after), Ceil(before))
    ensures InRange(id, Floor(after), Ceil(before)) ==> after < id.ms * 1000 + 1000 && id.ms * 1000 <= before
    ensures id.ms == before / 1000 && id.counter > LAST_COUNTER ==> !InRange(id, Floor(after), Ceil(before))
  {
  }

  /** The id's time lies between the two times, either of which may be absent. */
  predicate Between(id: Id, after: Option<nat>, before: Option<nat>) {
    && (after.Some? ==> after.value <= id.ms * 1000)
    && (before.Some? ==> id.ms * 1000 <= before.value && id.counter <= LAST_COUNTER)
  }

  /** Not before the millisecond of the first time nor after the second. */
  predicate NotOutside(id: Id, after: Option<nat>, before: Option<nat>) {
    (after.Some? ==> after.value < id.ms * 1000 + 1000) && (before.Some? ==> id.ms * 1000 <= before.value)
  }

  lemma {:induction false} WhereHolds<T>(s: seq<T>, keep: T -> bool, x: T)
    ensures x in Where(s, keep) <==> x in s && keep(x)
  {
    if s != [] {
      WhereHolds(s[1..], keep, x);
    }
  }

  lemma ReverseHolds<T>(s: seq<T>, x: T)
    ensures x in Reverse(s) <==> x in s
  {
    if i :| 0 <= i < |s| && s[i] == x {
      assert Reverse(s)[|s| - 1 - i] == x;
    }
    if i :| 0 <= i < |s| && Reverse(s)[i] == x {
      assert s[|s| - 1 - i] == x;
    }
  }

  lemma InNewest<T>(history: seq<Entry<T>>, taken: set<Id>, changes: seq<Change<T>>, low: Bound, high: Bound,
                    e: Entry<T>)
    ensures e in Newest(history, taken, changes, low, high) <==>
            && e in ArrivedBy(history, changes, 1) && e.id !in GoneBy(taken, changes, 1)
            && InRange(e.id, low, high)
  {
    var h, gone := ArrivedBy(history, changes, 1), GoneBy(taken, changes, 1);
    WhereHolds(h, (x: Entry<T>) => x.id !in gone, e);
    WhereHolds(Left(h, gone), (x: Entry<T>) => InRange(x.id, low, high), e);
    ReverseHolds(Within(Left(h, gone), low, high), e);
  }

  /** What is listed in the limits of the two times: all that is there at the first read and lies between them, and
      nothing outside. */
  lemma NewestBetween<T>(history: seq<Entry<T>>, taken: set<Id>, changes: seq<Change<T>>, after: Option<nat>,
                         before: Option<nat>, e: Entry<T>)
    ensures var newest := Newest(history, taken, changes, From(after), Until(before));
            && (e in newest ==> NotOutside(e.id, after, before))
            && (Between(e.id, after, before) ==>
                  (e in newest <==> e in ArrivedBy(history, changes, 1) && e.id !in GoneBy(taken, changes, 1)))
  {
    InNewest(history, taken, changes, From(after), Until(before), e);
  }

  // ---------------------------------------------------------------------------------------------
  // The listing
  // ---------------------------------------------------------------------------------------------

  datatype RequestEvent = RequestEvent(
    apiName: string, verb: string, path: string, status: int, instanceId: Option<string>)

  /** The query's filters; `verb` is upper case by now. */
  datatype Filters = Filters(
    apiName: Option<string>, verb: Option<string>, path: Option<string>, status: Option<int>,
    instanceId: Option<string>)

  const NO_INSTANCE := "__none__"

  /** An absent or empty filter lets everything through. */
  predicate Admits(filter: Option<string>, value: string) {
    filter.None? || filter.value == "" || filter.value == value
  }

  predicate AdmitsInstance(filter: Option<string>, instanceId: Option<string>) {
    || filter.None? || filter.value == ""
    || (filter.value == NO_INSTANCE && (instanceId.None? || instanceId.value == ""))
    || (filter.value != NO_INSTANCE && instanceId == filter)
  }

  predicate Passes(f: Filters, e: RequestEvent) {
    && Admits(f.apiName, e.apiName)
    && Admits(f.verb, e.verb)
    && Admits(f.path, e.path)
    && (f.status.Some? ==> f.status.value == e.status)
    && AdmitsInstance(f.instanceId, e.instanceId)
  }

  /** The readable rows that pass, in order. */
  function Matching(rows: seq<Entry<Option<RequestEvent>>>, f: Filters): (m: seq<RequestEvent>) {
    if rows == [] then []
    else
      var last := rows[|rows| - 1].row;
      Matching(rows[..|rows| - 1], f) + (if last.Some? && Passes(f, last.value) then [last.value] else [])
  }

  function PageOf<T>(m: seq<T>, offset: nat, limit: nat): seq<T> {
    m[Min(offset, |m|)..Min(offset + limit, |m|)]
  }

  predicate HasMore<T>(m: seq<T>, offset: nat, limit: nat) { offset + limit < |m| }

  function EffectiveLimit(limit: Option<int>, configured: int): nat {
    var fallback := if configured < 1 then 1 else configured;
    var wanted := if limit.Some? && limit.value != 0 then limit.value else fallback;
    if wanted < 1 then 1 else Min(wanted, 2000)
  }

  function EffectiveOffset(offset: int): nat { if offset < 0 then 0 else offset }

  function ReadCount(limit: nat): nat {
    var wanted := if limit * 4 < 500 then 500 else limit * 4;
    Min(wanted, 5000)
  }

  predicate Skips(f: Filters, e: RequestEvent) {
    || (f.apiName.Some? && f.apiName.value != "" && e.apiName != f.apiName.value)
    || (f.verb.Some? && f.verb.value != "" && e.verb != f.verb.value)
    || (f.path.Some? && f.path.value != "" && e.path != f.path.value)
    || (f.status.Some? && e.status != f.status.value)
    || (f.instanceId.Some? && f.instanceId.value != "" &&
        (if f.instanceId.value == NO_INSTANCE then e.instanceId.Some? && e.instanceId.value != ""
         else e.instanceId != f.instanceId))
  }

  lemma PageOfOneMore<T>(m: seq<T>, x: T, offset: nat, limit: nat)
    ensures PageOf(m + [x], offset, limit) ==
            PageOf(m, offset, limit) + (if offset <= |m| < offset + limit then [x] else [])
    ensures |PageOf(m, offset, limit)| == Min(offset + limit, |m|) - Min(offset, |m|)
  {
  }

  lemma MatchingOneMore(rows: seq<Entry<Option<RequestEvent>>>, i: nat, f: Filters)
    requires i < |rows|
    ensures Matching(rows[..i + 1], f) ==
            Matching(rows[..i], f)
            + (if rows[i].row.Some? && Passes(f, rows[i].row.value) then [rows[i].row.value] else [])
  {
    assert rows[..i + 1][..i] == rows[..i];
  }

  predicate Names(filter: Option<string>, value: string) {
    filter == None || filter == Some("") || filter == Some(value)
  }

  /** A filter that is not empty names the event's own value; the instance filter may ask for events without one. */
  lemma PassesExactly(f: Filters, e: RequestEvent)
    ensures Passes(f, e) <==>
            && Names(f.apiName, e.apiName) && Names(f.verb, e.verb) && Names(f.path, e.path)
            && (f.status == None || f.status == Some(e.status))
            && if e.instanceId.None? || e.instanceId.value == "" then Names(f.instanceId, NO_INSTANCE)
               else Names(f.instanceId, e.instanceId.value) && f.instanceId != Some(NO_INSTANCE)
  {
  }

  /** The matches of rows in two parts are those of the parts in turn. */
  lemma {:induction false} MatchingParts(a: seq<Entry<Option<RequestEvent>>>, b: seq<Entry<Option<RequestEvent>>>,
                                         f: Filters)
    ensures Matching(a + b, f) == Matching(a, f) + Matching(b, f)
    decreases |b|
  {
    if b == [] {
      assert a + b == a;
    } else {
      MatchingParts(a, b[..|b| - 1], f);
      assert (a + b)[..|a + b| - 1] == a + b[..|b| - 1];
    }
  }

  /** What a client gets. */
  datatype Answer = Answer(events: seq<RequestEvent>, total: nat, hasMore: bool)

  /** The `limit` matches from number `offset` on, or those there are. */
  ghost predicate IsSlice(m: seq<RequestEvent>, offset: nat, limit: nat, a: Answer) {
    && a.total == |m| && (a.hasMore <==> offset + limit < |m|)
    && a.events == if offset >= |m| then []
                   else if offset + limit <= |m| then m[offset..offset + limit]
                   else m[offset..]
  }

  /** The answer in the request's own terms: a negative offset is that of the first page, a limit is kept between 1 and
      2000, and an absent one or zero stands for the configured limit, kept so too. */
  ghost predicate IsAnswer(m: seq<RequestEvent>, offset: int, limit: Option<int>, configured: int, a: Answer) {
    var from := if offset < 0 then 0 else offset;
    if limit.None? || limit.value == 0 then
      IsSlice(m, from, if configured < 1 then 1 else if configured > 2000 then 2000 else configured, a)
    else if limit.value < 0 then IsSlice(m, from, 1, a)
    else if limit.value > 2000 then IsSlice(m, from, 2000, a)
    else IsSlice(m, from, limit.value, a)
  }

  lemma PageIsAnswer(m: seq<RequestEvent>, offset: int, limit: Option<int>, configured: int, a: Answer)
    requires a.events == PageOf(m, EffectiveOffset(offset), EffectiveLimit(limit, configured)) && a.total == |m|
    requires a.hasMore <==> HasMore(m, EffectiveOffset(offset), EffectiveLimit(limit, configured))
    ensures IsAnswer(m, offset, limit, configured, a)
  {
  }

  /** How many rows are read at a time: four for each event asked for, within 500 and 5000. */
  lemma ReadCountTells(limit: int, configured: int)
    ensures 1 <= limit <= 2000 ==>
              var count := ReadCount(EffectiveLimit(Some(limit), configured));
              500 <= count <= 5000 && (125 <= limit <= 1250 ==> count == 4 * limit)
              && (limit < 125 ==> count == 500) && (limit > 1250 ==> count == 5000)
  {
  }

  method FilterAndSlice(rows: seq<Entry<Option<RequestEvent>>>, f: Filters, offset: nat, limit: nat)
    returns (events: seq<RequestEvent>, total: nat, hasMore: bool)
    ensures events == PageOf(Matching(rows, f), offset, limit)
    ensures total == |Matching(rows, f)|
    ensures hasMore <==> HasMore(Matching(rows, f), offset, limit)
  {
    events, total := [], 0;
    for i := 0 to |rows|
      invariant total == |Matching(rows[..i], f)|
      invariant events == PageOf(Matching(rows[..i], f), offset, limit)
    {
      MatchingOneMore(rows, i, f);
      var parsed := rows[i].row;
      if parsed.None? || Skips(f, parsed.value) {
        continue;
      }
      PageOfOneMore(Matching(rows[..i], f), parsed.value, offset, limit);
      total := total + 1;
      if total <= offset {
        continue;
      }
      if |events| < limit {
        events := events + [parsed.value];
      }
    }
    assert rows[..|rows|] == rows;
    hasMore := offset + |events| < total;
  }

  lemma RowsBetween<T>(rows: seq<Entry<T>>, history: seq<Entry<T>>, taken: set<Id>, changes: seq<Change<T>>,
                       after: Option<nat>, before: Option<nat>)
    requires var newest := Newest(history, taken, changes, From(after), Until(before));
             |rows| <= |newest| && rows == newest[..|rows|] && (changes == [] ==> rows == newest)
    ensures forall e :: e in rows ==> NotOutside(e.id, after, before)
    ensures changes == [] ==>
              forall e :: e in history && e.id !in taken && Between(e.id, after, before) ==> e in rows
  {
    forall e | e in rows ensures NotOutside(e.id, after, before) {
      NewestBetween(history, taken, changes, after, before, e);
    }
    if changes == [] {
      assert ArrivedBy(history, changes, 0) == history && GoneBy(taken, changes, 0) == taken;
      assert ArrivedBy(history, changes, 1) == history && GoneBy(taken, changes, 1) == taken;
      forall e | e in history && e.id !in taken && Between(e.id, after, before) ensures e in rows {
        NewestBetween(history, taken, changes, after, before, e);
      }
    }
  }

  /** `list_api_request_events`: a page of the matching events in the time range, newest first, out of the rows that
      the paged reading found. */
  method ListRequestEvents(stream: Stream<Option<RequestEvent>>, f: Filters, after: Option<nat>, before: Option<nat>,
                           limit: Option<int>, offset: int, configuredLimit: int)
    returns (events: seq<RequestEvent>, total: nat, hasMore: bool, ghost rows: seq<Entry<Option<RequestEvent>>>)
    requires stream.Valid() && stream.deleted == {}
    requires OnlyTrims(stream.history, stream.taken, stream.incoming)
    modifies stream`entries, stream`incoming, stream`history, stream`taken
    ensures var low, high := From(after), Until(before);
            var newest := Newest(old(stream.history), old(stream.taken), old(stream.incoming), low, high);
            var count := ReadCount(EffectiveLimit(limit, configuredLimit));
            && |rows| <= |newest| && rows == newest[..|rows|]
            && Listed(newest, |rows|, old(stream.taken), old(stream.incoming), count)
            && CutOff(newest, |rows|, old(stream.taken), old(stream.incoming), count)
            && (old(stream.incoming) == [] ==> rows == newest)
    ensures var m := Matching(rows, f);
            && events == PageOf(m, EffectiveOffset(offset), EffectiveLimit(limit, configuredLimit))
            && total == |m|
            && (hasMore <==> HasMore(m, EffectiveOffset(offset), EffectiveLimit(limit, configuredLimit)))
            && IsAnswer(m, offset, limit, configuredLimit, Answer(events, total, hasMore))
    ensures forall e :: e in rows ==> NotOutside(e.id, after, before)
    ensures old(stream.incoming) == [] ==>
              forall e :: e in old(stream.history) && e.id !in old(stream.taken) && Between(e.id, after, before) ==>
                e in rows
  {
    var effectiveLimit := EffectiveLimit(limit, configuredLimit);
    var effectiveOffset := EffectiveOffset(offset);
    var found := PagedRows(stream, Until(before), From(after), ReadCount(effectiveLimit));
    events, total, hasMore := FilterAndSlice(found, f, effectiveOffset, effectiveLimit);
    PageIsAnswer(Matching(found, f), offset, limit, configuredLimit, Answer(events, total, hasMore));
    rows := found;
    RowsBetween(rows, old(stream.history), old(stream.taken), old(stream.incoming), after, before);
  }

  // ---------------------------------------------------------------------------------------------
  // Walking the pages
  // ---------------------------------------------------------------------------------------------

  /** What a client has after asking for `k` pages of `limit` events, advancing the offset by `limit` each time. */
  function Walked<T>(m: seq<T>, limit: nat, k: nat): seq<T> {
    if k == 0 then [] else Walked(m, limit, k - 1) + PageOf(m, (k - 1) * limit, limit)
  }

  lemma {:induction false} WalkedIsPrefix<T>(m: seq<T>, limit: nat, k: nat)
    ensures Walked(m, limit, k) == m[..Min(k * limit, |m|)]
  {
    if k > 0 {
      WalkedIsPrefix(m, limit, k - 1);
      assert k * limit == (k - 1) * limit + limit;
    }
  }

  /** While the matching events stay the same, asking for pages until `has_more` is false yields every one of them once,
      in order, and stops no sooner. */
  lemma WalkEndsComplete<T>(m: seq<T>, limit: nat, k: nat)
    requires k > 0
    ensures Walked(m, limit, k) == m <==> !HasMore(m, (k - 1) * limit, limit)
  {
    WalkedIsPrefix(m, limit, k);
    assert k * limit == (k - 1) * limit + limit;
  }

  /** The matching events at each request of a walk: newer ones may have come in front since the request before. */
  ghost predicate GrowsInFront<T>(ms: seq<seq<T>>) {
    forall i :: 0 < i < |ms| ==> EndsWith(ms[i], ms[i - 1])
  }

  ghost predicate EndsWith<T>(s: seq<T>, end: seq<T>) { |end| <= |s| && s[|s| - |end|..] == end }

  function WalkedOver<T>(ms: seq<seq<T>>, limit: nat): seq<T> {
    if ms == [] then []
    else
      var k := |ms| - 1;
      WalkedOver(ms[..k], limit) + PageOf(ms[k], k * limit, limit)
  }

  lemma {:induction false} LastEndsWithFirst<T>(ms: seq<seq<T>>)
    requires ms != [] && GrowsInFront(ms)
    ensures EndsWith(ms[|ms| - 1], ms[0])
  {
    var k := |ms| - 1;
    if k > 0 {
      LastEndsWithFirst(ms[..k]);
      SuffixOfSuffix(ms[k], ms[k - 1], ms[0]);
    }
  }

  lemma SuffixOfSuffix<T>(a: seq<T>, b: seq<T>, c: seq<T>)
    requires EndsWith(a, b) && EndsWith(b, c)
    ensures EndsWith(a, c)
  {
    forall i | 0 <= i < |c| ensures a[|a| - |c| + i] == c[i] {
      assert b[|b| - |c|..][i] == c[i];
      assert a[|a| - |b|..][|b| - |c| + i] == b[|b| - |c| + i];
    }
  }

  lemma InPage<T>(m: seq<T>, offset: nat, limit: nat, i: nat)
    requires offset <= i < offset + limit && i < |m|
    ensures m[i] in PageOf(m, offset, limit)
  {
    assert PageOf(m, offset, limit)[i - offset] == m[i];
  }

  /** After all pages but for what arrived meanwhile: the events of the first request that have been seen. */
  lemma {:induction false} WalkCovers<T>(ms: seq<seq<T>>, limit: nat, j: nat)
    requires ms != [] && GrowsInFront(ms) && j < |ms[0]|
    requires j + |ms[|ms| - 1]| - |ms[0]| < |ms| * limit
    ensures ms[0][j] in WalkedOver(ms, limit)
  {
    var k := |ms| - 1;
    var shift := |ms[k]| - |ms[0]|;
    LastEndsWithFirst(ms);
    assert ms[k][shift..][j] == ms[0][j];
    assert |ms| * limit == k * limit + limit;
    if j + shift >= k * limit {
      InPage(ms[k], k * limit, limit, j + shift);
    } else {
      assert k > 0 && EndsWith(ms[k], ms[k - 1]);
      assert |ms[..k]| == k && ms[..k][k - 1] == ms[k - 1];
      WalkCovers(ms[..k], limit, j);
    }
  }

  /** When new events arrive between the requests of a walk, some are seen twice, but none of those that matched at the
      first request is missed. */
  lemma WalkMissesNothing<T>(ms: seq<seq<T>>, limit: nat)
    requires ms != [] && GrowsInFront(ms) && !HasMore(ms[|ms| - 1], (|ms| - 1) * limit, limit)
    ensures forall x :: x in ms[0] ==> x in WalkedOver(ms, limit)
  {
    LastEndsWithFirst(ms);
    assert |ms| * limit == (|ms| - 1) * limit + limit;
    forall x | x in ms[0] ensures x in WalkedOver(ms, limit) {
      var j :| 0 <= j < |ms[0]| && ms[0][j] == x;
      WalkCovers(ms, limit, j);
    }
  }
}
