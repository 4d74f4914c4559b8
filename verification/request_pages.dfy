/** A client that walks the pages of the request listing, in terms of the answers it gets. */
module RequestPages {
  import opened Options
  import opened RequestListing

  function EventsOf(answers: seq<Answer>): seq<RequestEvent> {
    if answers == [] then [] else EventsOf(answers[..|answers| - 1]) + answers[|answers| - 1].events
  }

  /** The offset of request `k`. */
  function OffsetOf(k: nat, limit: nat): nat { k * limit }

  /** The answers to requests for `limit` events at offsets 0, `limit`, twice `limit` and so on, when `ms[k]` are the
      matching events at request `k`. */
  ghost predicate AreAnswers(ms: seq<seq<RequestEvent>>, limit: nat, configured: int, answers: seq<Answer>) {
    && |answers| == |ms|
    && forall k :: 0 <= k < |ms| ==> IsAnswer(ms[k], OffsetOf(k, limit), Some(limit), configured, answers[k])
  }

  lemma AnswerIsPage(m: seq<RequestEvent>, offset: nat, limit: nat, configured: int, a: Answer)
    requires 1 <= limit <= 2000 && IsAnswer(m, offset, Some(limit), configured, a)
    ensures a.events == PageOf(m, offset, limit) && (a.hasMore <==> HasMore(m, offset, limit))
  {
  }

  lemma AnswerAt(ms: seq<seq<RequestEvent>>, limit: nat, configured: int, answers: seq<Answer>, k: nat)
    requires 1 <= limit <= 2000 && AreAnswers(ms, limit, configured, answers) && k < |ms|
    ensures answers[k].events == PageOf(ms[k], k * limit, limit)
    ensures answers[k].hasMore <==> HasMore(ms[k], k * limit, limit)
  {
    AnswerIsPage(ms[k], OffsetOf(k, limit), limit, configured, answers[k]);
  }

  lemma AnswersBefore(ms: seq<seq<RequestEvent>>, limit: nat, configured: int, answers: seq<Answer>)
    requires ms != [] && AreAnswers(ms, limit, configured, answers)
    ensures AreAnswers(ms[..|ms| - 1], limit, configured, answers[..|ms| - 1])
  {
  }

  lemma {:induction false} AnswersAreWalked(ms: seq<seq<RequestEvent>>, limit: nat, configured: int,
                                            answers: seq<Answer>)
    requires 1 <= limit <= 2000 && AreAnswers(ms, limit, configured, answers)
    ensures EventsOf(answers) == WalkedOver(ms, limit)
    decreases |ms|
  {
    if ms != [] {
      var k := |ms| - 1;
      AnswersBefore(ms, limit, configured, answers);
      AnswersAreWalked(ms[..k], limit, configured, answers[..k]);
      AnswerAt(ms, limit, configured, answers, k);
    }
  }

  lemma {:induction false} WalkedOverSame(ms: seq<seq<RequestEvent>>, m: seq<RequestEvent>, limit: nat)
    requires forall k :: 0 <= k < |ms| ==> ms[k] == m
    ensures WalkedOver(ms, limit) == Walked(m, limit, |ms|)
    decreases |ms|
  {
    if ms != [] {
      WalkedOverSame(ms[..|ms| - 1], m, limit);
    }
  }

  lemma LastPageSame(ms: seq<seq<RequestEvent>>, m: seq<RequestEvent>, limit: nat)
    requires ms != [] && forall k :: 0 <= k < |ms| ==> ms[k] == m
    ensures WalkedOver(ms, limit) == m <==> !HasMore(m, (|ms| - 1) * limit, limit)
  {
    WalkedOverSame(ms, m, limit);
    WalkEndsComplete(m, limit, |ms|);
  }

  /** While the matching events stay the same, the answers put together are all of them, each once and in order, if and
      only if the last one says that there are no more. */
  lemma AnswersComplete(ms: seq<seq<RequestEvent>>, m: seq<RequestEvent>, limit: nat, configured: int,
                        answers: seq<Answer>)
    requires 1 <= limit <= 2000 && ms != [] && AreAnswers(ms, limit, configured, answers)
    requires forall k :: 0 <= k < |ms| ==> ms[k] == m
    ensures EventsOf(answers) == m <==> !answers[|ms| - 1].hasMore
  {
    AnswersAreWalked(ms, limit, configured, answers);
    LastPageSame(ms, m, limit);
    AnswerAt(ms, limit, configured, answers, |ms| - 1);
  }

  /** While newer matches come in front between the requests, a walk whose last answer says that there are no more has
      shown every event that matched at its first request. */
  lemma AnswersMissNothing(ms: seq<seq<RequestEvent>>, limit: nat, configured: int, answers: seq<Answer>)
    requires 1 <= limit <= 2000 && ms != [] && AreAnswers(ms, limit, configured, answers) && GrowsInFront(ms)
    requires !answers[|ms| - 1].hasMore
    ensures forall x :: x in ms[0] ==> x in EventsOf(answers)
  {
    AnswersAreWalked(ms, limit, configured, answers);
    AnswerAt(ms, limit, configured, answers, |ms| - 1);
    WalkMissesNothing(ms, limit);
  }

  lemma Quotient(n: nat, limit: nat)
    requires limit > 0
    ensures (n / limit) * limit <= n < (n / limit + 1) * limit
  {
    assert n == n / limit * limit + n % limit;
  }

  /** A walk comes to an end: over the same matches, the answer at or past the last full page says no more. */
  lemma WalkEnds(m: seq<RequestEvent>, limit: nat, configured: int, k: nat, a: Answer)
    requires 1 <= limit <= 2000 && IsAnswer(m, OffsetOf(k, limit), Some(limit), configured, a) && k >= |m| / limit
    ensures !a.hasMore
  {
    Quotient(|m|, limit);
    assert (k - |m| / limit) * limit >= 0;
  }
}
