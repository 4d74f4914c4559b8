/** Redis streams as sequences of entries with increasing ids, and the range reads over them. */
module Streams {
  /** A stream id: milliseconds, then a counter within the millisecond. */
  datatype Id = Id(ms: nat, counter: nat)

  datatype Entry<T> = Entry(id: Id, row: T)

  predicate Before(a: Id, b: Id) { a.ms < b.ms || (a.ms == b.ms && a.counter < b.counter) }

  ghost predicate Increasing<T>(s: seq<Entry<T>>) {
    forall i, j :: 0 <= i < j < |s| ==> Before(s[i].id, s[j].id)
  }

  /** One end of a range: open (`-` or `+`), an id, or an id excluded by a leading parenthesis. */
  datatype Bound = Open | Including(id: Id) | Excluding(id: Id)

  predicate Above(id: Id, low: Bound) {
    low.Open? || (if low.Including? then !Before(id, low.id) else Before(low.id, id))
  }

  predicate Below(id: Id, high: Bound) {
    high.Open? || (if high.Including? then !Before(high.id, id) else Before(id, high.id))
  }

  predicate InRange(id: Id, low: Bound, high: Bound) { Above(id, low) && Below(id, high) }

  function Where<T>(s: seq<T>, keep: T -> bool): (r: seq<T>)
    ensures |r| <= |s|
  {
    if s == [] then [] else (if keep(s[0]) then [s[0]] else []) + Where(s[1..], keep)
  }

  lemma {:induction false} WhereConcat<T>(a: seq<T>, b: seq<T>, keep: T -> bool)
    ensures Where(a + b, keep) == Where(a, keep) + Where(b, keep)
  {
    if a == [] {
      assert a + b == b;
    } else {
      var head := if keep(a[0]) then [a[0]] else [];
      WhereConcat(a[1..], b, keep);
      assert (a + b)[0] == a[0] && (a + b)[1..] == a[1..] + b;
      assert Where(a + b, keep) == head + (Where(a[1..], keep) + Where(b, keep));
      assert Where(a, keep) == head + Where(a[1..], keep);
    }
  }

  lemma {:induction false} WhereAll<T>(s: seq<T>, keep: T -> bool)
    requires forall x :: x in s ==> keep(x)
    ensures Where(s, keep) == s
  {
    if s != [] {
      WhereAll(s[1..], keep);
    }
  }

  lemma {:induction false} WhereNone<T>(s: seq<T>, keep: T -> bool)
    requires forall x :: x in s ==> !keep(x)
    ensures Where(s, keep) == []
  {
    if s != [] {
      WhereNone(s[1..], keep);
    }
  }

  lemma {:induction false} WhereSame<T>(s: seq<T>, p: T -> bool, q: T -> bool)
    requires forall x :: x in s ==> p(x) == q(x)
    ensures Where(s, p) == Where(s, q)
  {
    if s != [] {
      WhereSame(s[1..], p, q);
    }
  }

  lemma {:induction false} WhereMembers<T>(s: seq<T>, keep: T -> bool, x: T)
    ensures x in Where(s, keep) <==> x in s && keep(x)
  {
    if s != [] {
      WhereMembers(s[1..], keep, x);
    }
  }

  /** What the filter keeps and what it drops are together as many as there were. */
  lemma {:induction false} WhereCounts<T>(s: seq<T>, p: T -> bool, q: T -> bool)
    requires forall x :: x in s ==> p(x) != q(x)
    ensures |Where(s, p)| + |Where(s, q)| == |s|
  {
    if s != [] {
      WhereCounts(s[1..], p, q);
    }
  }

  function Reverse<T>(s: seq<T>): (r: seq<T>)
    ensures |r| == |s|
    ensures forall i :: 0 <= i < |s| ==> r[i] == s[|s| - 1 - i]
  {
    seq(|s|, i requires 0 <= i < |s| => s[|s| - 1 - i])
  }

  function Take<T>(s: seq<T>, n: nat): seq<T> { if |s| <= n then s else s[..n] }

  /** The entries of a stream between two bounds, oldest first. */
  function Within<T>(s: seq<Entry<T>>, low: Bound, high: Bound): seq<Entry<T>> {
    Where(s, (e: Entry<T>) => InRange(e.id, low, high))
  }

  // ---------------------------------------------------------------------------------------------
  // A stream that others change
  // ---------------------------------------------------------------------------------------------

  /** What is left of everything appended once the entries with the given ids are gone. */
  function Left<T>(history: seq<Entry<T>>, gone: set<Id>): seq<Entry<T>> {
    Where(history, (e: Entry<T>) => e.id !in gone)
  }

  /** What other clients do between two calls: appends, and removals by acknowledging or trimming. */
  datatype Change<T> = Change(arrived: seq<Entry<T>>, gone: set<Id>)

  function Upcoming<T>(changes: seq<Change<T>>): seq<Entry<T>> {
    if changes == [] then [] else changes[0].arrived + Upcoming(changes[1..])
  }

  ghost predicate Absent<T>(s: seq<Entry<T>>, ids: set<Id>) { forall e :: e in s ==> e.id !in ids }

  /** Nothing is removed before it has been appended. */
  ghost predicate Orderly<T>(changes: seq<Change<T>>) {
    changes != [] ==> Absent(Upcoming(changes[1..]), changes[0].gone) && Orderly(changes[1..])
  }

  /** Everything appended by the time of the `r`th of the changes, and everything others have removed. */
  function ArrivedBy<T>(history: seq<Entry<T>>, changes: seq<Change<T>>, r: nat): seq<Entry<T>> {
    if r == 0 then history
    else ArrivedBy(history, changes, r - 1) + (if r <= |changes| then changes[r - 1].arrived else [])
  }

  function GoneBy<T>(taken: set<Id>, changes: seq<Change<T>>, r: nat): set<Id> {
    if r == 0 then taken
    else GoneBy(taken, changes, r - 1) + (if r <= |changes| then changes[r - 1].gone else {})
  }

  function Remaining<T>(changes: seq<Change<T>>, r: nat): seq<Change<T>> {
    if |changes| <= r then [] else changes[r..]
  }

  lemma {:induction false} LeftLater<T>(history: seq<Entry<T>>, removed: set<Id>, arrived: seq<Entry<T>>, gone: set<Id>)
    requires Absent(arrived, removed)
    ensures Left(Left(history, removed) + arrived, gone) == Left(history + arrived, removed + gone)
  {
    var keep := (e: Entry<T>) => e.id !in gone;
    var keepBoth := (e: Entry<T>) => e.id !in removed + gone;
    WhereConcat(Left(history, removed), arrived, keep);
    WhereConcat(history, arrived, keepBoth);
    WhereSame(arrived, keep, keepBoth);
    LeftTwice(history, removed, gone);
  }

  lemma {:induction false} LeftTwice<T>(history: seq<Entry<T>>, removed: set<Id>, gone: set<Id>)
    ensures Left(Left(history, removed), gone) == Left(history, removed + gone)
  {
    WhereWhere(history, (e: Entry<T>) => e.id !in removed, (e: Entry<T>) => e.id !in gone,
               (e: Entry<T>) => e.id !in removed + gone);
  }

  lemma {:induction false} WhereWhere<T>(s: seq<T>, p: T -> bool, q: T -> bool, both: T -> bool)
    requires forall x :: x in s ==> both(x) == (p(x) && q(x))
    ensures Where(Where(s, p), q) == Where(s, both)
  {
    if s != [] {
      assert s[0] in s;
      WhereWhere(s[1..], p, q, both);
      var head := if p(s[0]) then [s[0]] else [];
      WhereConcat(head, Where(s[1..], p), q);
    }
  }

  ghost function IdsOf<T>(s: seq<Entry<T>>): set<Id> { set e | e in s :: e.id }

  lemma TailIncreasing<T>(s: seq<Entry<T>>)
    requires Increasing(s) && s != []
    ensures Increasing(s[1..]) && forall e :: e in s[1..] ==> Before(s[0].id, e.id)
  {
    var rest := s[1..];
    assert forall i :: 0 <= i < |rest| ==> rest[i] == s[i + 1];
    forall e | e in rest ensures Before(s[0].id, e.id) {
      var i :| 0 <= i < |rest| && rest[i] == e;
      assert Before(s[0].id, s[i + 1].id);
    }
  }

  /** Entries with increasing ids are as many as their ids. */
  lemma {:induction false} IdsCount<T>(s: seq<Entry<T>>)
    requires Increasing(s)
    ensures |IdsOf(s)| == |s|
  {
    if s != [] {
      TailIncreasing(s);
      IdsCount(s[1..]);
      HeadId(s);
    }
  }

  lemma HeadId<T>(s: seq<Entry<T>>)
    requires s != [] && forall e :: e in s[1..] ==> Before(s[0].id, e.id)
    ensures IdsOf(s) == {s[0].id} + IdsOf(s[1..]) && s[0].id !in IdsOf(s[1..])
  {
    forall e | e in s ensures e == s[0] || e in s[1..] {
      var i :| 0 <= i < |s| && s[i] == e;
      assert i > 0 ==> s[1..][i - 1] == e;
    }
  }

  lemma {:induction false} WhereIncreasing<T>(s: seq<Entry<T>>, keep: Entry<T> -> bool)
    requires Increasing(s)
    ensures Increasing(Where(s, keep))
    ensures forall e :: e in Where(s, keep) ==> e in s && keep(e)
  {
    if s != [] {
      TailIncreasing(s);
      WhereIncreasing(s[1..], keep);
      if keep(s[0]) {
        HeadIncreasing(s[0], Where(s[1..], keep));
      }
    }
  }

  lemma HeadIncreasing<T>(x: Entry<T>, s: seq<Entry<T>>)
    requires Increasing(s) && forall e :: e in s ==> Before(x.id, e.id)
    ensures Increasing([x] + s)
  {
    forall i, j | 0 <= i < j < |[x] + s| ensures Before(([x] + s)[i].id, ([x] + s)[j].id) {
      assert ([x] + s)[j] == s[j - 1] && s[j - 1] in s;
    }
  }

  lemma PartsIncreasing<T>(a: seq<Entry<T>>, b: seq<Entry<T>>)
    requires Increasing(a + b)
    ensures Increasing(a) && Increasing(b)
    ensures forall x, y :: x in a && y in b ==> Before(x.id, y.id)
  {
    assert forall i :: 0 <= i < |a| ==> (a + b)[i] == a[i];
    assert forall j :: 0 <= j < |b| ==> (a + b)[|a| + j] == b[j];
    forall i, j | 0 <= i < j < |b| ensures Before(b[i].id, b[j].id) {
      assert Before((a + b)[|a| + i].id, (a + b)[|a| + j].id);
    }
    forall x, y | x in a && y in b ensures Before(x.id, y.id) {
      var i :| 0 <= i < |a| && a[i] == x;
      var j :| 0 <= j < |b| && b[j] == y;
      assert Before((a + b)[i].id, (a + b)[|a| + j].id);
    }
  }

  /** A stream and the changes that others will make to it, one before each of our calls. Beside the entries it holds,
      it remembers everything ever appended and who removed what is no longer there. */
  class Stream<T> {
    var entries: seq<Entry<T>>
    var incoming: seq<Change<T>>
    ghost var history: seq<Entry<T>>
    ghost var taken: set<Id>
    ghost var deleted: set<Id>

    ghost predicate Valid()
      reads this
    {
      && entries == Left(history, taken + deleted)
      && Increasing(history + Upcoming(incoming))
      && Absent(Upcoming(incoming), taken + deleted) && Orderly(incoming)
    }

    /** The next change by others, if there is one. */
    ghost predicate Changed(h: seq<Entry<T>>, t: set<Id>, changes: seq<Change<T>>)
      reads this
    {
      && history == (if changes == [] then h else h + changes[0].arrived)
      && taken == (if changes == [] then t else t + changes[0].gone)
      && incoming == (if changes == [] then [] else changes[1..])
    }

    method Arrive()
      requires Valid()
      modifies `entries, `incoming, `history, `taken
      ensures Valid() && Changed(old(history), old(taken), old(incoming))
      ensures old(incoming) == [] ==> entries == old(entries)
    {
      if incoming != [] {
        var c := incoming[0];
        ArrivalKeeps(history, taken, deleted, incoming);
        entries := Left(entries + c.arrived, c.gone);
        history, taken, incoming := history + c.arrived, taken + c.gone, incoming[1..];
      }
    }

    /** XRANGE: the oldest `count` entries of the range. */
    method Range(low: Bound, high: Bound, count: nat) returns (rows: seq<Entry<T>>)
      requires Valid()
      modifies `entries, `incoming, `history, `taken
      ensures Valid() && Changed(old(history), old(taken), old(incoming))
      ensures rows == Take(Within(entries, low, high), count)
      ensures old(incoming) == [] ==> entries == old(entries)
    {
      Arrive();
      rows := Take(Within(entries, low, high), count);
    }

    /** XREVRANGE: the newest `count` entries of the range, newest first. */
    method RevRange(high: Bound, low: Bound, count: nat) returns (rows: seq<Entry<T>>)
      requires Valid()
      modifies `entries, `incoming, `history, `taken
      ensures Valid() && Changed(old(history), old(taken), old(incoming))
      ensures rows == Take(Reverse(Within(entries, low, high)), count)
    {
      Arrive();
      rows := Take(Reverse(Within(entries, low, high)), count);
    }

    /** XDEL: removes those of the given entries that are still there, and returns how many those were. */
    method Delete(ids: seq<Id>) returns (count: nat)
      requires Valid() && forall i :: i in ids ==> i in IdsOf(history)
      modifies this
      ensures Valid() && Changed(old(history), old(taken), old(incoming))
      ensures old(deleted) <= deleted <= old(deleted) + (set i | i in ids)
      ensures forall i :: i in ids ==> i in taken + deleted
      ensures count == |deleted| - |old(deleted)|
      ensures old(incoming) == [] ==> count == |old(entries)| - |entries|
    {
      Arrive();
      count := Remove(ids);
    }

    method Remove(ids: seq<Id>) returns (count: nat)
      requires Valid() && forall i :: i in ids ==> i in IdsOf(history)
      modifies `entries, `deleted
      ensures Valid()
      ensures old(deleted) <= deleted <= old(deleted) + (set i | i in ids)
      ensures forall i :: i in ids ==> i in taken + deleted
      ensures count == |deleted| - |old(deleted)| == |old(entries)| - |entries|
    {
      ghost var present := Where(Left(history, taken + deleted), (e: Entry<T>) => e.id in ids);
      DeletionKeeps(history, taken, deleted, incoming, ids, present);
      var rest := Where(entries, (e: Entry<T>) => e.id !in ids);
      count := |entries| - |rest|;
      entries := rest;
      deleted := deleted + IdsOf(present);
    }
  }

  lemma DeletionKeeps<T>(history: seq<Entry<T>>, taken: set<Id>, deleted: set<Id>, changes: seq<Change<T>>,
                         ids: seq<Id>, present: seq<Entry<T>>)
    requires Increasing(history + Upcoming(changes)) && Absent(Upcoming(changes), taken + deleted)
    requires forall i :: i in ids ==> i in IdsOf(history)
    requires present == Where(Left(history, taken + deleted), (e: Entry<T>) => e.id in ids)
    ensures var rest := Where(Left(history, taken + deleted), (e: Entry<T>) => e.id !in ids);
            && rest == Left(history, taken + (deleted + IdsOf(present)))
            && |Left(history, taken + deleted)| - |rest| == |deleted + IdsOf(present)| - |deleted|
    ensures Absent(Upcoming(changes), taken + (deleted + IdsOf(present)))
    ensures IdsOf(present) <= (set i | i in ids)
    ensures forall i :: i in ids ==> i in taken + (deleted + IdsOf(present))
  {
    var all := Left(history, taken + deleted);
    PartsIncreasing(history, Upcoming(changes));
    WhereIncreasing(history, (e: Entry<T>) => e.id !in taken + deleted);
    WhereIncreasing(all, (e: Entry<T>) => e.id in ids);
    PresentIds(history, taken + deleted, ids, present);
    WhereWhere(history, (e: Entry<T>) => e.id !in taken + deleted, (e: Entry<T>) => e.id !in ids,
               (e: Entry<T>) => e.id !in taken + (deleted + IdsOf(present)));
    WhereCounts(all, (e: Entry<T>) => e.id in ids, (e: Entry<T>) => e.id !in ids);
    IdsCount(present);
    assert deleted !! IdsOf(present);
  }

  lemma PresentIds<T>(history: seq<Entry<T>>, gone: set<Id>, ids: seq<Id>, present: seq<Entry<T>>)
    requires present == Where(Left(history, gone), (e: Entry<T>) => e.id in ids)
    ensures forall e :: e in history ==> (e.id in IdsOf(present) <==> e.id in ids && e.id !in gone)
    ensures forall e :: e in present ==> e.id in ids && e.id !in gone
  {
    forall e | e in history ensures e.id in ids && e.id !in gone ==> e in present {
      WhereMembers(history, (x: Entry<T>) => x.id !in gone, e);
      WhereMembers(Left(history, gone), (x: Entry<T>) => x.id in ids, e);
    }
    forall e | e in present ensures e.id in ids && e.id !in gone {
      WhereMembers(Left(history, gone), (x: Entry<T>) => x.id in ids, e);
      WhereMembers(history, (x: Entry<T>) => x.id !in gone, e);
    }
  }

  lemma ArrivalKeeps<T>(history: seq<Entry<T>>, taken: set<Id>, deleted: set<Id>, changes: seq<Change<T>>)
    requires changes != [] && Orderly(changes) && Absent(Upcoming(changes), taken + deleted)
    requires Increasing(history + Upcoming(changes))
    ensures var c, rest := changes[0], changes[1..];
            && Left(Left(history, taken + deleted) + c.arrived, c.gone) ==
               Left(history + c.arrived, (taken + c.gone) + deleted)
            && Increasing((history + c.arrived) + Upcoming(rest))
            && Absent(Upcoming(rest), (taken + c.gone) + deleted) && Orderly(rest)
  {
    var c, rest := changes[0], changes[1..];
    assert forall e :: e in c.arrived ==> e in Upcoming(changes);
    assert forall e :: e in Upcoming(rest) ==> e in Upcoming(changes);
    LeftLater(history, taken + deleted, c.arrived, c.gone);
    assert (taken + deleted) + c.gone == (taken + c.gone) + deleted;
    assert (history + c.arrived) + Upcoming(rest) == history + Upcoming(changes);
  }
}
