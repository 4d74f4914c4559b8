/** Removing the queued stream entries of one job, a page at a time. */
module StreamDeletion {
  import opened Options
  import opened Streams

  /** The job id under the bytes key and under the text key of a message. */
  datatype Message = Message(bytesId: Option<string>, textId: Option<string>)

  function JobIdOf(m: Message): Option<string> {
    if m.bytesId.Some? && m.bytesId.value != "" then m.bytesId else m.textId
  }

  predicate Of(m: Message, job: string) { JobIdOf(m) == Some(job) }

  /** A message is a job's if its bytes key names the job, or if that key is absent or empty and the text key does. */
  lemma OfExactly(m: Message, job: string)
    ensures Of(m, job) <==>
            if m.bytesId in {None, Some("")} then m.textId == Some(job) else m.bytesId == Some(job)
  {
  }

  function Others(s: seq<Entry<Message>>, job: string): seq<Entry<Message>> {
    Where(s, (e: Entry<Message>) => !Of(e.row, job))
  }

  function Matches(s: seq<Entry<Message>>, job: string): seq<Entry<Message>> {
    Where(s, (e: Entry<Message>) => Of(e.row, job))
  }

  lemma MatchesAndOthers(s: seq<Entry<Message>>, job: string)
    ensures |Others(s, job)| + |Matches(s, job)| == |s|
  {
    WhereCounts(s, (e: Entry<Message>) => !Of(e.row, job), (e: Entry<Message>) => Of(e.row, job));
  }

  function Ids(s: seq<Entry<Message>>, job: string): (r: seq<Id>)
    ensures forall i :: i in r ==> exists e :: e in s && e.id == i && Of(e.row, job)
    ensures forall e :: e in s && Of(e.row, job) ==> e.id in r
  {
    if s == [] then []
    else Ids(s[..|s| - 1], job) + (if Of(s[|s| - 1].row, job) then [s[|s| - 1].id] else [])
  }

  method CollectIds(rows: seq<Entry<Message>>, job: string) returns (ids: seq<Id>)
    ensures ids == Ids(rows, job)
  {
    ids := [];
    for i := 0 to |rows|
      invariant ids == Ids(rows[..i], job)
    {
      assert rows[..i + 1][..i] == rows[..i];
      if Of(rows[i].row, job) {
        ids := ids + [rows[i].id];
      }
    }
    assert rows[..|rows|] == rows;
  }

  // ---------------------------------------------------------------------------------------------
  // One page
  // ---------------------------------------------------------------------------------------------

  /** Where reading goes on once the first `k` entries ever appended have been passed. */
  function Frontier(history: seq<Entry<Message>>, k: nat): Bound
    requires k <= |history|
  {
    if k == 0 then Open else Excluding(history[k - 1].id)
  }

  lemma BehindFrontier(history: seq<Entry<Message>>, k: nat, gone: set<Id>)
    requires Increasing(history) && k <= |history|
    ensures Within(Left(history[..k], gone), Frontier(history, k), Open) == []
  {
    var done := history[..k];
    var left := Left(done, gone);
    forall e | e in left ensures !InRange(e.id, Frontier(history, k), Open) {
      WhereMembers(done, (x: Entry<Message>) => x.id !in gone, e);
      var i :| 0 <= i < k && done[i] == e;
      assert i < k - 1 ==> Before(history[i].id, history[k - 1].id);
    }
    WhereNone(left, (e: Entry<Message>) => InRange(e.id, Frontier(history, k), Open));
  }

  lemma BeyondFrontier(history: seq<Entry<Message>>, k: nat, gone: set<Id>)
    requires Increasing(history) && k <= |history|
    ensures Within(Left(history[k..], gone), Frontier(history, k), Open) == Left(history[k..], gone)
  {
    var rest := history[k..];
    var left := Left(rest, gone);
    forall e | e in left ensures InRange(e.id, Frontier(history, k), Open) {
      WhereMembers(rest, (x: Entry<Message>) => x.id !in gone, e);
      var i :| 0 <= i < |rest| && rest[i] == e;
      assert k > 0 ==> Before(history[k - 1].id, history[k + i].id);
    }
    WhereAll(left, (e: Entry<Message>) => InRange(e.id, Frontier(history, k), Open));
  }

  /** Among increasing ids, what lies beyond the frontier is what is left of the entries not passed yet. */
  lemma RestOfStream(history: seq<Entry<Message>>, k: nat, gone: set<Id>)
    requires Increasing(history) && k <= |history|
    ensures Within(Left(history, gone), Frontier(history, k), Open) == Left(history[k..], gone)
  {
    assert history == history[..k] + history[k..];
    WhereConcat(history[..k], history[k..], (e: Entry<Message>) => e.id !in gone);
    WhereConcat(Left(history[..k], gone), Left(history[k..], gone),
                (e: Entry<Message>) => InRange(e.id, Frontier(history, k), Open));
    BehindFrontier(history, k, gone);
    BeyondFrontier(history, k, gone);
  }

  /** A page of what is left of `s` is what is left of some first part of `s`: all of `s` if the page is not full, and
      otherwise the part that ends with the page's last entry. */
  lemma {:induction false} PageOfLeft(s: seq<Entry<Message>>, gone: set<Id>, count: nat) returns (n: nat)
    ensures n <= |s| && Take(Left(s, gone), count) == Left(s[..n], gone)
    ensures |Left(s, gone)| < count ==> n == |s|
    ensures count > 0 && |Left(s, gone)| >= count ==> n > 0 && Take(Left(s, gone), count)[count - 1] == s[n - 1]
  {
    var left := Left(s, gone);
    if |left| < count {
      n := |s|;
      assert s[..n] == s;
    } else if count == 0 {
      n := 0;
    } else {
      var last := s[|s| - 1];
      var front := s[..|s| - 1];
      assert s == front + [last];
      WhereConcat(front, [last], (e: Entry<Message>) => e.id !in gone);
      if |Left(front, gone)| >= count {
        n := PageOfLeft(front, gone, count);
        assert front[..n] == s[..n];
      } else {
        n := |s|;
        assert s[..n] == s;
      }
    }
  }

  /** A page read beyond the frontier at `k`. */
  ghost predicate IsPage(rows: seq<Entry<Message>>, history: seq<Entry<Message>>, gone: set<Id>, k: nat, n: nat,
                         batch: nat)
  {
    && k <= n <= |history| && rows == Left(history[k..n], gone) && |rows| <= batch
    && (|rows| < batch ==> n == |history|)
    && (|rows| == batch > 0 ==> n > 0 && rows[|rows| - 1] == history[n - 1])
  }

  lemma PageBeyond(history: seq<Entry<Message>>, gone: set<Id>, k: nat, batch: nat) returns (n: nat)
    requires Increasing(history) && k <= |history|
    ensures IsPage(Take(Within(Left(history, gone), Frontier(history, k), Open), batch), history, gone, k, n, batch)
  {
    RestOfStream(history, k, gone);
    var m := PageOfLeft(history[k..], gone, batch);
    n := k + m;
    assert history[k..][..m] == history[k..n];
  }

  /** The page after the first `k` entries: what is left of the next ones, up to the `n`th. */
  method ReadPage(stream: Stream<Message>, start: Bound, batch: nat, ghost k: nat)
    returns (rows: seq<Entry<Message>>, ghost n: nat)
    requires stream.Valid() && k <= |stream.history| && start == Frontier(stream.history, k)
    modifies stream`entries, stream`incoming, stream`history, stream`taken
    ensures stream.Valid() && stream.Changed(old(stream.history), old(stream.taken), old(stream.incoming))
    ensures IsPage(rows, stream.history, stream.taken + stream.deleted, k, n, batch)
    ensures old(stream.incoming) == [] ==> stream.entries == old(stream.entries)
  {
    rows := stream.Range(start, Open, batch);
    PartsIncreasing(stream.history, Upcoming(stream.incoming));
    n := PageBeyond(stream.history, stream.taken + stream.deleted, k, batch);
  }

  // ---------------------------------------------------------------------------------------------
  // The scan
  // ---------------------------------------------------------------------------------------------

  function MatchIds(s: seq<Entry<Message>>, job: string): set<Id> {
    set e | e in s && Of(e.row, job) :: e.id
  }

  /** Of the first `k` entries ever appended no match is left; what this scan has deleted, beyond `before`, are
      matches among them. */
  ghost predicate Cleared(history: seq<Entry<Message>>, taken: set<Id>, deleted: set<Id>, before: set<Id>, k: nat,
                          job: string)
  {
    && k <= |history|
    && MatchIds(history[..k], job) <= taken + deleted
    && before <= deleted <= before + MatchIds(history[..k], job)
  }

  lemma MatchIdsConcat(a: seq<Entry<Message>>, b: seq<Entry<Message>>, job: string)
    ensures MatchIds(a + b, job) == MatchIds(a, job) + MatchIds(b, job)
  {
    assert forall e :: e in a + b <==> e in a || e in b;
  }

  /** The ids collected from a page account for the matches of the stretch it was read from, but for those that were
      gone already. */
  lemma PageMatches(s: seq<Entry<Message>>, gone: set<Id>, job: string)
    ensures forall i :: i in Ids(Left(s, gone), job) ==> i in MatchIds(s, job)
    ensures forall i :: i in MatchIds(s, job) ==> i in gone || i in Ids(Left(s, gone), job)
  {
    forall e ensures e in Left(s, gone) <==> e in s && e.id !in gone {
      WhereMembers(s, (x: Entry<Message>) => x.id !in gone, e);
    }
  }

  lemma ClearedFurther(history: seq<Entry<Message>>, taken: set<Id>, deleted: set<Id>, before: set<Id>, k: nat, n: nat,
                       job: string, later: seq<Entry<Message>>, taken': set<Id>, deleted': set<Id>)
    requires Cleared(history, taken, deleted, before, k, job) && k <= n <= |history| && history <= later
    requires taken <= taken' && deleted <= deleted'
    requires deleted' <= deleted + MatchIds(history[k..n], job)
    requires MatchIds(history[k..n], job) <= taken' + deleted'
    ensures Cleared(later, taken', deleted', before, n, job)
  {
    assert later[..n] == history[..k] + history[k..n];
    MatchIdsConcat(history[..k], history[k..n], job);
  }

  method DropMatches(stream: Stream<Message>, rows: seq<Entry<Message>>, job: string) returns (removed: nat)
    requires stream.Valid() && forall e :: e in rows ==> e in stream.history
    modifies stream
    ensures stream.Valid() && old(stream.history) <= stream.history && old(stream.taken) <= stream.taken
    ensures old(stream.deleted) <= stream.deleted <= old(stream.deleted) + (set i | i in Ids(rows, job))
    ensures forall i :: i in Ids(rows, job) ==> i in stream.taken + stream.deleted
    ensures removed == |stream.deleted| - |old(stream.deleted)|
    ensures old(stream.incoming) == [] ==>
              && stream.incoming == [] && stream.history == old(stream.history) && stream.taken == old(stream.taken)
              && removed == |old(stream.entries)| - |stream.entries|
  {
    removed := 0;
    var ids := CollectIds(rows, job);
    if ids != [] {
      removed := stream.Delete(ids);
    }
  }

  lemma PageWithin(rows: seq<Entry<Message>>, h: seq<Entry<Message>>, gone: set<Id>, k: nat, n: nat)
    requires k <= n <= |h| && rows == Left(h[k..n], gone)
    ensures forall e :: e in rows ==> e in h
  {
    forall e | e in rows ensures e in h {
      WhereMembers(h[k..n], (x: Entry<Message>) => x.id !in gone, e);
    }
  }

  /** Deletes the matches of the page read from the `k`th to the `n`th entry. */
  method CleanPage(stream: Stream<Message>, rows: seq<Entry<Message>>, job: string, ghost before: set<Id>, ghost k: nat,
                   ghost n: nat) returns (removed: nat)
    requires stream.Valid() && Cleared(stream.history, stream.taken, stream.deleted, before, k, job)
    requires k <= n <= |stream.history| && rows == Left(stream.history[k..n], stream.taken + stream.deleted)
    modifies stream
    ensures stream.Valid() && old(stream.history) <= stream.history && old(stream.taken) <= stream.taken
    ensures Cleared(stream.history, stream.taken, stream.deleted, before, n, job)
    ensures removed == |stream.deleted| - |old(stream.deleted)|
    ensures old(stream.incoming) == [] ==>
              && stream.incoming == [] && stream.history == old(stream.history) && stream.taken == old(stream.taken)
              && removed == |old(stream.entries)| - |stream.entries|
  {
    ghost var h, t, d := stream.history, stream.taken, stream.deleted;
    PageMatches(h[k..n], t + d, job);
    PageWithin(rows, h, t + d, k, n);
    removed := DropMatches(stream, rows, job);
    ClearedFurther(h, t, d, before, k, n, job, stream.history, stream.taken, stream.deleted);
  }

  /** After a full page the frontier is where the page ends, whatever is appended later. */
  lemma PageFrontier(rows: seq<Entry<Message>>, h: seq<Entry<Message>>, gone: set<Id>, k: nat, n: nat, batch: nat,
                     later: seq<Entry<Message>>)
    requires IsPage(rows, h, gone, k, n, batch) && h <= later
    ensures |rows| == batch > 0 ==> Excluding(rows[|rows| - 1].id) == Frontier(later, n)
    ensures |rows| <= n - k
  {
  }

  /** One page: read beyond the frontier, delete its matches, and move the frontier to the last id read. */
  method ScanPage(stream: Stream<Message>, start: Bound, batch: nat, job: string, ghost before: set<Id>, ghost k: nat)
    returns (fetched: nat, next: Bound, removed: nat, ghost n: nat)
    requires stream.Valid() && Cleared(stream.history, stream.taken, stream.deleted, before, k, job)
    requires start == Frontier(stream.history, k)
    modifies stream
    ensures stream.Valid() && old(stream.history) <= stream.history && old(stream.taken) <= stream.taken
    ensures Cleared(stream.history, stream.taken, stream.deleted, before, n, job)
    ensures k <= n && fetched <= n - k && fetched <= batch
    ensures fetched == batch > 0 ==> next == Frontier(stream.history, n)
    ensures fetched < batch ==> |old(stream.history)| <= n
    ensures removed == |stream.deleted| - |old(stream.deleted)|
    ensures old(stream.incoming) == [] ==>
              && stream.incoming == [] && stream.history == old(stream.history) && stream.taken == old(stream.taken)
              && removed == |old(stream.entries)| - |stream.entries|
              && fetched == |Left(stream.history[k..n], stream.taken + old(stream.deleted))|
  {
    var rows;
    rows, n := ReadPage(stream, start, batch, k);
    ghost var h, t, d := stream.history, stream.taken, stream.deleted;
    fetched := |rows|;
    next := if rows == [] then start else Excluding(rows[|rows| - 1].id);
    ClearedFurther(old(stream.history), old(stream.taken), d, before, k, k, job, h, t, d);
    removed := CleanPage(stream, rows, job, before, k, n);
    PageFrontier(rows, h, t + d, k, n, batch, stream.history);
  }

  /** What this scan deletes behind the frontier changes nothing beyond it. */
  lemma ScanCounts(h: seq<Entry<Message>>, taken: set<Id>, deleted: set<Id>, before: set<Id>, k: nat, n: nat,
                   job: string)
    requires Increasing(h) && k <= n <= |h| && before <= deleted <= before + MatchIds(h[..k], job)
    ensures |Left(h[..n], taken + before)| ==
            |Left(h[..k], taken + before)| + |Left(h[k..n], taken + deleted)|
  {
    var done, page := h[..k], h[k..n];
    assert h[..n] == done + page;
    assert h == h[..n] + h[n..];
    PartsIncreasing(h[..n], h[n..]);
    PartsIncreasing(done, page);
    WhereConcat(done, page, (e: Entry<Message>) => e.id !in taken + before);
    WhereSame(page, (e: Entry<Message>) => e.id !in taken + before, (e: Entry<Message>) => e.id !in taken + deleted);
  }

  method ScanPages(stream: Stream<Message>, job: string, batch: nat, maxScan: int)
    returns (removed: nat, scanned: nat, ghost k: nat)
    requires stream.Valid() && batch >= 1
    modifies stream
    ensures stream.Valid() && old(stream.history) <= stream.history && old(stream.taken) <= stream.taken
    ensures Cleared(stream.history, stream.taken, stream.deleted, old(stream.deleted), k, job)
    ensures removed == |stream.deleted| - |old(stream.deleted)|
    ensures maxScan <= scanned || |old(stream.history)| <= k
    ensures scanned == 0 || scanned < maxScan + batch
    ensures old(stream.incoming) == [] ==>
              && stream.history == old(stream.history) && stream.taken == old(stream.taken)
              && removed == |old(stream.entries)| - |stream.entries|
              && scanned == |Left(stream.history[..k], old(stream.taken + stream.deleted))|
  {
    var start: Bound := Open;
    removed, scanned, k := 0, 0, 0;
    ghost var before := stream.deleted;
    while scanned < maxScan
      invariant stream.Valid() && old(stream.history) <= stream.history && old(stream.taken) <= stream.taken
      invariant Cleared(stream.history, stream.taken, stream.deleted, before, k, job)
      invariant start == Frontier(stream.history, k)
      invariant removed == |stream.deleted| - |before| && (scanned == 0 || scanned < maxScan + batch)
      invariant old(stream.incoming) == [] ==>
                  && stream.incoming == [] && stream.history == old(stream.history)
                  && stream.taken == old(stream.taken) && removed == |old(stream.entries)| - |stream.entries|
                  && scanned == |Left(stream.history[..k], stream.taken + before)|
      decreases maxScan - scanned
    {
      ghost var deleted, n := stream.deleted, 0;
      var fetched, next, count;
      fetched, next, count, n := ScanPage(stream, start, batch, job, before, k);
      PartsIncreasing(stream.history, Upcoming(stream.incoming));
      if old(stream.incoming) == [] {
        ScanCounts(stream.history, stream.taken, deleted, before, k, n, job);
      }
      removed, scanned, k := removed + count, scanned + fetched, n;
      if fetched < batch {
        break;
      }
      start := next;
    }
  }

  // ---------------------------------------------------------------------------------------------
  // What the scan amounts to
  // ---------------------------------------------------------------------------------------------

  /** The stream once its first `k` entries have been scanned and nothing else has changed. */
  function Cleaned(s: seq<Entry<Message>>, k: nat, job: string): seq<Entry<Message>>
    requires k <= |s|
  {
    Others(s[..k], job) + s[k..]
  }

  /** Scanning a part of the stream amounts to filtering all of it exactly when the rest holds no match; a stream no
      longer than the scan limit is always scanned whole. */
  lemma CleanedIsFilter(s: seq<Entry<Message>>, k: nat, job: string)
    requires k <= |s|
    ensures Cleaned(s, k, job) == Others(s, job) <==> Matches(s[k..], job) == []
    ensures k == |s| ==> Cleaned(s, k, job) == Others(s, job)
  {
    assert s == s[..k] + s[k..];
    WhereConcat(s[..k], s[k..], (e: Entry<Message>) => !Of(e.row, job));
    MatchesAndOthers(s[k..], job);
    if Matches(s[k..], job) == [] {
      NoMatchesAllOthers(s[k..], job);
    }
  }

  lemma {:induction false} NoMatchesAllOthers(s: seq<Entry<Message>>, job: string)
    requires Matches(s, job) == []
    ensures Others(s, job) == s
  {
    if s != [] {
      assert !Of(s[0].row, job);
      NoMatchesAllOthers(s[1..], job);
    }
  }

  lemma SameIdSameEntry(h: seq<Entry<Message>>, x: Entry<Message>, y: Entry<Message>)
    requires Increasing(h) && x in h && y in h && x.id == y.id
    ensures x == y
  {
    var i :| 0 <= i < |h| && h[i] == x;
    var j :| 0 <= j < |h| && h[j] == y;
    assert i < j ==> Before(x.id, y.id);
    assert j < i ==> Before(y.id, x.id);
  }

  lemma MatchIdsMatch(h: seq<Entry<Message>>, s: seq<Entry<Message>>, job: string, e: Entry<Message>)
    requires Increasing(h) && e in h && (forall x :: x in s ==> x in h) && e.id in MatchIds(s, job)
    ensures e in s && Of(e.row, job)
  {
    var m :| m in s && Of(m.row, job) && m.id == e.id;
    SameIdSameEntry(h, e, m);
  }

  /** Behind the frontier exactly the matches have gone. */
  lemma ScannedPartFiltered(h: seq<Entry<Message>>, gone: set<Id>, gone': set<Id>, k: nat, job: string)
    requires Increasing(h) && k <= |h| && gone <= gone' <= gone + MatchIds(h[..k], job)
    requires MatchIds(h[..k], job) <= gone'
    ensures Left(h[..k], gone') == Others(Left(h[..k], gone), job)
  {
    var done := h[..k];
    forall e | e in done ensures (e.id !in gone') == (e.id !in gone && !Of(e.row, job)) {
      if e.id in gone' && e.id !in gone {
        MatchIdsMatch(h, done, job, e);
      }
    }
    WhereWhere(done, (e: Entry<Message>) => e.id !in gone, (e: Entry<Message>) => !Of(e.row, job),
               (e: Entry<Message>) => e.id !in gone');
  }

  /** Beyond the frontier nothing has. */
  lemma RestUntouched(h: seq<Entry<Message>>, gone: set<Id>, gone': set<Id>, k: nat, job: string)
    requires Increasing(h) && k <= |h| && gone <= gone' <= gone + MatchIds(h[..k], job)
    ensures Left(h[k..], gone') == Left(h[k..], gone)
  {
    assert h == h[..k] + h[k..];
    PartsIncreasing(h[..k], h[k..]);
    WhereSame(h[k..], (e: Entry<Message>) => e.id !in gone', (e: Entry<Message>) => e.id !in gone);
  }

  lemma ScanCleans(h: seq<Entry<Message>>, gone: set<Id>, gone': set<Id>, k: nat, job: string)
    requires Increasing(h) && k <= |h| && gone <= gone' <= gone + MatchIds(h[..k], job)
    requires MatchIds(h[..k], job) <= gone'
    ensures |Left(h[..k], gone)| <= |Left(h, gone)|
    ensures Left(h, gone') == Cleaned(Left(h, gone), |Left(h[..k], gone)|, job)
  {
    ScannedPartFiltered(h, gone, gone', k, job);
    RestUntouched(h, gone, gone', k, job);
    assert h == h[..k] + h[k..];
    WhereConcat(h[..k], h[k..], (e: Entry<Message>) => e.id !in gone);
    WhereConcat(h[..k], h[k..], (e: Entry<Message>) => e.id !in gone');
  }

  lemma CleanedCounts(s: seq<Entry<Message>>, k: nat, job: string)
    requires k <= |s|
    ensures |s| - |Cleaned(s, k, job)| == |Matches(s[..k], job)|
  {
    MatchesAndOthers(s[..k], job);
  }

  /** Nothing but matches has gone through this connection, and no match behind the frontier is left. */
  lemma OnlyMatchesGone(h: seq<Entry<Message>>, taken: set<Id>, deleted: set<Id>, before: set<Id>, k: nat, job: string)
    requires Increasing(h) && Cleared(h, taken, deleted, before, k, job)
    ensures forall e :: e in h[..k] && Of(e.row, job) ==> e !in Left(h, taken + deleted)
    ensures forall e :: e in h && e !in Left(h, taken + deleted) ==>
              e.id in taken || e.id in before || (e in h[..k] && Of(e.row, job))
  {
    forall e | e in h
      ensures e in Left(h, taken + deleted) <==> e.id !in taken + deleted
      ensures e.id in deleted && e.id !in before ==> e in h[..k] && Of(e.row, job)
    {
      WhereMembers(h, (x: Entry<Message>) => x.id !in taken + deleted, e);
      if e.id in deleted && e.id !in before {
        MatchIdsMatch(h, h[..k], job, e);
      }
    }
  }

  /** The message names the job under one of its keys and nothing else under the other. */
  predicate Names(m: Message, job: string) {
    job != "" && (m == Message(Some(job), None) || m == Message(None, Some(job)) || m == Message(Some(job), Some(job)))
  }

  /** `delete_stream_entries_for_job`, while others append, acknowledge and trim: no match is left among the first `k`
      entries, nothing but such matches was deleted, and the answer counts what was. */
  method DeleteEntriesForJob(stream: Stream<Message>, job: string, batch: nat, maxScan: int)
    returns (removed: nat, ghost scanned: nat, ghost k: nat)
    requires stream.Valid() && batch >= 1
    modifies stream
    ensures stream.Valid() && old(stream.history) <= stream.history && k <= |stream.history|
    ensures forall e :: e in stream.history[..k] && Of(e.row, job) ==> e !in stream.entries
    ensures forall e :: e in stream.history[..k] && Names(e.row, job) ==> e !in stream.entries
    ensures forall e :: e in stream.history && e !in stream.entries ==>
              e.id in stream.taken || e.id in old(stream.deleted) || (e in stream.history[..k] && Of(e.row, job))
    ensures removed == |stream.deleted| - |old(stream.deleted)|
    ensures maxScan <= scanned || |old(stream.history)| <= k
    ensures scanned == 0 || scanned < maxScan + batch
    ensures old(stream.incoming) == [] ==>
              && scanned <= |old(stream.entries)|
              && stream.entries == Cleaned(old(stream.entries), scanned, job)
              && removed == |Matches(old(stream.entries)[..scanned], job)|
              && (|old(stream.entries)| <= maxScan ==> stream.entries == Others(old(stream.entries), job))
  {
    removed, scanned, k := ScanPages(stream, job, batch, maxScan);
    ghost var h, before := stream.history, old(stream.deleted);
    PartsIncreasing(h, Upcoming(stream.incoming));
    OnlyMatchesGone(h, stream.taken, stream.deleted, before, k, job);
    if old(stream.incoming) == [] {
      ScanCleans(h, stream.taken + before, stream.taken + stream.deleted, k, job);
      CleanedCounts(old(stream.entries), scanned, job);
      WholeScanned(h, stream.taken + before, k);
      CleanedIsFilter(old(stream.entries), scanned, job);
    }
  }

  lemma WholeScanned(h: seq<Entry<Message>>, gone: set<Id>, k: nat)
    requires k <= |h|
    ensures k == |h| ==> |Left(h[..k], gone)| == |Left(h, gone)|
  {
    assert k == |h| ==> h[..k] == h;
  }
}
