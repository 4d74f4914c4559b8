/** A task's own progress reports: normalised, checked, and coalesced before they reach the command queue. */
module TaskContext {
  import opened Options
  import opened Lifecycle

  datatype Limits = Limits(minDelta: real, minInterval: real)

  /** What was last put on the queue, when, and with which message. */
  datatype Sent = Sent(progress: Option<real>, at: real, message: Option<string>)

  const NOTHING_SENT := Sent(None, 0.0, None)

  datatype Call = Call(value: real, message: Option<string>, now: real)

  datatype Command = SetProgress(progress: real, message: Option<string>)

  /** Values above one are percentages; what is then outside the unit interval is refused. */
  function Normalised(value: real): Option<real> {
    var p := if value > 1.0 then value / 100.0 else value;
    if 0.0 <= p <= 1.0 then Some(p) else None
  }

  /** The values of the unit interval stand for themselves and those up to a hundred for percentages; the rest are
      refused. */
  lemma NormalisedTells(value: real)
    ensures 0.0 <= value <= 1.0 ==> Normalised(value) == Some(value)
    ensures 1.0 < value <= 100.0 ==> Normalised(value).Some? && Normalised(value).value * 100.0 == value
    ensures value < 0.0 || value > 100.0 ==> Normalised(value) == None
  {
  }

  predicate Due(limits: Limits, sent: Sent, progress: real, message: Option<string>, now: real) {
    || progress >= 1.0
    || message != sent.message
    || sent.progress.None?
    || Distance(progress, sent.progress.value) >= limits.minDelta
    || now - sent.at >= limits.minInterval
  }

  /** The command a call puts on the queue, if any. */
  function Put(limits: Limits, sent: Sent, c: Call): Option<Command> {
    var p := Normalised(c.value);
    if p.Some? && Due(limits, sent, p.value, c.message, c.now) then Some(SetProgress(p.value, c.message)) else None
  }

  function AfterCall(limits: Limits, sent: Sent, c: Call): Sent {
    var put := Put(limits, sent, c);
    if put.Some? then Sent(Some(put.value.progress), c.now, c.message) else sent
  }

  /** An accepted report is kept back exactly when it is not the end, has the message last sent, and is both closer than
      the minimum delta to the progress last sent and sooner than the minimum interval after it. */
  lemma KeptBackExactly(limits: Limits, sent: Sent, c: Call)
    requires Normalised(c.value).Some?
    ensures var p := Normalised(c.value).value;
            Put(limits, sent, c).None? <==>
            && p < 1.0 && sent.message == c.message && sent.progress.Some?
            && -limits.minDelta < p - sent.progress.value < limits.minDelta && c.now < sent.at + limits.minInterval
  {
  }

  function SentAfter(limits: Limits, calls: seq<Call>): Sent {
    if calls == [] then NOTHING_SENT else AfterCall(limits, SentAfter(limits, calls[..|calls| - 1]), calls[|calls| - 1])
  }

  predicate IsAccepted(c: Call) { 0.0 <= c.value <= 100.0 }

  /** After any reports, the last accepted one has been sent or differs from what was last sent neither in its message
      nor by the minimum delta, and came sooner than the minimum interval after that; the end is always sent. */
  lemma LastReportKnown(limits: Limits, calls: seq<Call>)
    requires calls != [] && IsAccepted(calls[|calls| - 1])
    ensures var sent, last := SentAfter(limits, calls), calls[|calls| - 1];
            var p := if last.value > 1.0 then last.value / 100.0 else last.value;
            && sent.message == last.message && sent.progress.Some?
            && (sent == Sent(Some(p), last.now, last.message)
                || (p < 1.0 && Distance(p, sent.progress.value) < limits.minDelta
                    && last.now < sent.at + limits.minInterval))
  {
  }

  class Context {
    const limits: Limits
    var lastProgress: Option<real>
    var lastProgressAt: real
    var lastProgressMessage: Option<string>
    var commands: seq<Command>

    constructor (limits: Limits)
      ensures this.limits == limits && LastSent() == NOTHING_SENT && commands == []
    {
      this.limits := limits;
      lastProgress, lastProgressAt, lastProgressMessage, commands := None, 0.0, None, [];
    }

    function LastSent(): Sent
      reads this
    {
      Sent(lastProgress, lastProgressAt, lastProgressMessage)
    }

    /** `set_progress`; `ok` is false where the source raises ValueError. */
    method SetProgress(value: real, message: Option<string>, now: real) returns (ok: bool)
      modifies this
      ensures ok == Normalised(value).Some?
      ensures LastSent() == AfterCall(limits, old(LastSent()), Call(value, message, now))
      ensures var put := Put(limits, old(LastSent()), Call(value, message, now));
              commands == old(commands) + (if put.Some? then [put.value] else [])
    {
      var progress := value;
      if progress > 1.0 {
        progress := progress / 100.0;
      }
      if !(0.0 <= progress <= 1.0) {
        return false;
      }
      ok := true;
      var isTerminal := progress >= 1.0;
      var changedMessage := message != lastProgressMessage;
      var changedProgress := lastProgress.None? || Distance(progress, lastProgress.value) >= limits.minDelta;
      var intervalElapsed := now - lastProgressAt >= limits.minInterval;
      if !(isTerminal || changedMessage || changedProgress || intervalElapsed) {
        return;
      }
      lastProgress := Some(progress);
      lastProgressAt := now;
      lastProgressMessage := message;
      commands := commands + [Command.SetProgress(progress, message)];
    }
  }
}
