/** The event-stream text format as the client reads it and as the server prints it. The client follows its own
    trimming rules rather than those of section 9.2 of the WHATWG HTML standard: it removes all leading white space
    of a data line, and knows no line end but the line feed. */
module SseFormat {
  // ---------------------------------------------------------------------------------------------
  // Splitting
  // ---------------------------------------------------------------------------------------------

  /** Two line feeds in a row. */
  predicate BreakAt(s: string, i: nat) { i + 1 < |s| && s[i] == '\n' && s[i + 1] == '\n' }

  /** The place of the first blank line, or the length of the text. */
  function FirstBlank(s: string): (k: nat)
    ensures k <= |s| && (k < |s| ==> BreakAt(s, k))
    ensures forall i :: 0 <= i < k ==> !BreakAt(s, i)
  {
    if |s| <= 1 then |s|
    else if BreakAt(s, 0) then 0
    else
      var rest := FirstBlank(s[1..]);
      assert forall i :: 0 < i <= rest ==> BreakAt(s, i) == BreakAt(s[1..], i - 1);
      1 + rest
  }

  /** `split("\n\n")`: always at least one part. */
  function SplitBlank(s: string): (parts: seq<string>)
    ensures |parts| >= 1
    decreases |s|
  {
    var k := FirstBlank(s);
    if k == |s| then [s] else [s[..k]] + SplitBlank(s[k + 2..])
  }

  function SplitLines(s: string): (lines: seq<string>)
    ensures |lines| >= 1
    ensures forall i :: 0 <= i < |lines| ==> '\n' !in lines[i]
    decreases |s|
  {
    if s == "" then [""]
    else
      var tail := SplitLines(s[1..]);
      if s[0] == '\n' then [""] + tail else [[s[0]] + tail[0]] + tail[1..]
  }

  function Front<T>(s: seq<T>): seq<T>
    requires s != []
  {
    s[..|s| - 1]
  }

  function Last<T>(s: seq<T>): T
    requires s != []
  {
    s[|s| - 1]
  }

  // ---------------------------------------------------------------------------------------------
  // From a part to a message
  // ---------------------------------------------------------------------------------------------

  /** White space and line ends in the sense of the language the client is written in. */
  predicate IsSpace(c: char) {
    || c == '\t' || c == '\n' || c == '\U{000B}' || c == '\U{000C}' || c == '\r' || c == ' ' || c == '\U{00A0}'
    || c == '\U{1680}' || '\U{2000}' <= c <= '\U{200A}' || c == '\U{2028}' || c == '\U{2029}' || c == '\U{202F}'
    || c == '\U{205F}' || c == '\U{3000}' || c == '\U{FEFF}'
  }

  function TrimStart(s: string): (t: string)
    ensures |t| <= |s| && t == s[|s| - |t|..]
    ensures t != "" ==> !IsSpace(t[0])
  {
    if s != "" && IsSpace(s[0]) then TrimStart(s[1..]) else s
  }

  predicate IsBlank(s: string) { TrimStart(s) == "" }

  const DATA := "data:"

  predicate IsData(line: string) { |line| >= 5 && line[..5] == DATA }

  /** What a line adds to the data gathered so far. */
  function WithLine(data: string, line: string): string {
    if IsData(line) then data + (if data != "" then "\n" else "") + TrimStart(line[5..]) else data
  }

  function DataOf(lines: seq<string>): string {
    if lines == [] then "" else WithLine(DataOf(Front(lines)), Last(lines))
  }

  /** The message of a part, if it has one. */
  function MessageOf(part: string): seq<string> {
    var data := DataOf(SplitLines(part));
    if IsBlank(part) || data == "" then [] else [data]
  }

  function MessagesOf(parts: seq<string>): seq<string> {
    if parts == [] then [] else MessagesOf(Front(parts)) + MessageOf(Last(parts))
  }

  /** What the whole text of a stream says: the last part is not complete yet. */
  function Messages(text: string): seq<string> { MessagesOf(Front(SplitBlank(text))) }

  // ---------------------------------------------------------------------------------------------
  // Splitting is incremental
  // ---------------------------------------------------------------------------------------------

  lemma FirstBlankIs(s: string, k: nat)
    requires BreakAt(s, k) && forall i :: 0 <= i < k ==> !BreakAt(s, i)
    ensures FirstBlank(s) == k
  {
    assert FirstBlank(s) < |s| ==> BreakAt(s, FirstBlank(s));
  }

  lemma FirstBlankStays(a: string, b: string)
    requires FirstBlank(a) < |a|
    ensures FirstBlank(a + b) == FirstBlank(a)
  {
    var k := FirstBlank(a);
    forall i | 0 <= i <= k ensures BreakAt(a + b, i) == BreakAt(a, i) {
    }
    FirstBlankIs(a + b, k);
  }

  lemma SplitAt(s: string, k: nat, head: string, tail: string)
    requires FirstBlank(s) == k < |s| && head == s[..k] && tail == s[k + 2..]
    ensures SplitBlank(s) == [head] + SplitBlank(tail)
    ensures Front(SplitBlank(s)) == [head] + Front(SplitBlank(tail)) && Last(SplitBlank(s)) == Last(SplitBlank(tail))
  {
  }

  /** More text changes nothing before the last part of the text so far. */
  lemma {:induction false} SplitMore(a: string, b: string)
    ensures SplitBlank(a + b) == Front(SplitBlank(a)) + SplitBlank(Last(SplitBlank(a)) + b)
    decreases |a|
  {
    var k := FirstBlank(a);
    if k == |a| {
      assert SplitBlank(a) == [a] && Front(SplitBlank(a)) == [];
    } else {
      var head, tail := a[..k], a[k + 2..];
      FirstBlankStays(a, b);
      SplitAt(a, k, head, tail);
      assert (a + b)[..k] == head && (a + b)[k + 2..] == tail + b;
      SplitAt(a + b, k, head, tail + b);
      SplitMore(tail, b);
      Prepend(head, Front(SplitBlank(tail)), SplitBlank(Last(SplitBlank(tail)) + b));
    }
  }

  lemma Prepend(x: string, y: seq<string>, z: seq<string>)
    ensures [x] + (y + z) == [x] + y + z
  {
  }

  lemma {:induction false} MessagesOfConcat(x: seq<string>, y: seq<string>)
    ensures MessagesOf(x + y) == MessagesOf(x) + MessagesOf(y)
    decreases |y|
  {
    if y == [] {
      assert x + y == x;
    } else {
      MessagesOfConcat(x, Front(y));
      assert Front(x + y) == x + Front(y) && Last(x + y) == Last(y);
      assert MessagesOf(x + y) == (MessagesOf(x) + MessagesOf(Front(y))) + MessageOf(Last(y));
    }
  }

  /** The messages of a longer text: those of the shorter one, then those of its open part with the rest. */
  lemma MessagesMore(a: string, b: string)
    ensures Messages(a + b) == Messages(a) + Messages(Last(SplitBlank(a)) + b)
    ensures Last(SplitBlank(a + b)) == Last(SplitBlank(Last(SplitBlank(a)) + b))
  {
    SplitMore(a, b);
    var head, tail := Front(SplitBlank(a)), SplitBlank(Last(SplitBlank(a)) + b);
    assert Front(head + tail) == head + Front(tail);
    MessagesOfConcat(head, Front(tail));
  }

  // ---------------------------------------------------------------------------------------------
  // Frames
  // ---------------------------------------------------------------------------------------------

  datatype Frame = Opened | Data(payload: string) | KeepAlive | Disconnected

  const FAREWELL := "{\"error\": \"stream disconnected\"}"

  const OPENED := "event: open" + "\n" + ("data: " + "connected")
  const KEEP_ALIVE := ": keep-alive"
  const DISCONNECTED := "event: error" + "\n" + ("data: " + FAREWELL)

  function Body(f: Frame): string {
    match f
    case Opened => OPENED
    case Data(payload) => "data: " + payload
    case KeepAlive => KEEP_ALIVE
    case Disconnected => DISCONNECTED
  }

  function Print(frames: seq<Frame>): string {
    if frames == [] then "" else Print(Front(frames)) + (Body(Last(frames)) + "\n\n")
  }

  function Said(f: Frame): seq<string> {
    match f
    case Opened => ["connected"]
    case Data(payload) => [payload]
    case KeepAlive => []
    case Disconnected => [FAREWELL]
  }

  function AllSaid(frames: seq<Frame>): seq<string> {
    if frames == [] then [] else AllSaid(Front(frames)) + Said(Last(frames))
  }

  /** A payload the format carries unchanged. */
  predicate Clean(payload: string) { payload != "" && '\n' !in payload && !IsSpace(payload[0]) }

  predicate AllClean(frames: seq<Frame>) {
    forall i :: 0 <= i < |frames| && frames[i].Data? ==> Clean(frames[i].payload)
  }

  /** A frame body has no blank line and no line feed at its end. */
  predicate Framable(body: string) {
    (forall i :: 0 <= i < |body| ==> !BreakAt(body, i)) && (body != "" ==> body[|body| - 1] != '\n')
  }

  lemma OneLineFramable(line: string)
    requires '\n' !in line
    ensures Framable(line)
  {
  }

  lemma TwoLinesFramable(a: string, b: string)
    requires '\n' !in a && '\n' !in b && b != ""
    ensures Framable(a + "\n" + b)
  {
    var s := a + "\n" + b;
    forall i | 0 <= i < |s| && i != |a| ensures s[i] != '\n' {
      assert s[i] == if i < |a| then a[i] else b[i - |a| - 1];
    }
  }

  lemma BlankEndsFrame(body: string, s: string)
    requires Framable(body) && |s| == |body| + 2 && s[..|body|] == body && BreakAt(s, |body|)
    ensures FirstBlank(s) == |body|
  {
    forall i | 0 <= i < |body| ensures !BreakAt(s, i) {
      assert s[i] == body[i];
      assert i + 1 < |body| ==> s[i + 1] == body[i + 1] && !BreakAt(body, i);
    }
    FirstBlankIs(s, |body|);
  }

  lemma FrameSplits(body: string)
    requires Framable(body)
    ensures SplitBlank(body + "\n\n") == [body, ""]
  {
    var s := body + "\n\n";
    assert s[..|body|] == body && s[|body| + 2..] == "";
    BlankEndsFrame(body, s);
    SplitAt(s, |body|, body, "");
  }

  lemma {:induction false} OneLine(s: string)
    requires '\n' !in s
    ensures SplitLines(s) == [s]
  {
    if s != "" {
      OneLine(s[1..]);
      assert [s[0]] + s[1..] == s;
    }
  }

  lemma {:induction false} TwoLines(a: string, b: string)
    requires '\n' !in a && '\n' !in b
    ensures SplitLines(a + "\n" + b) == [a, b]
    decreases |a|
  {
    var s := a + "\n" + b;
    if a == "" {
      assert s[0] == '\n' && s[1..] == b;
      OneLine(b);
    } else {
      assert s[0] == a[0] && s[1..] == a[1..] + "\n" + b;
      TwoLines(a[1..], b);
      assert [a[0]] + a[1..] == a;
    }
  }

  lemma DataLine(payload: string)
    ensures IsData("data: " + payload) && ("data: " + payload)[5..] == " " + payload
    ensures TrimStart(" " + payload) == TrimStart(payload)
  {
    assert (" " + payload)[1..] == payload;
  }

  lemma NotBlank(s: string, k: nat)
    requires k < |s| && !IsSpace(s[k])
    ensures !IsBlank(s)
  {
    var t := TrimStart(s);
    TrimStops(s, k);
  }

  lemma {:induction false} TrimStops(s: string, k: nat)
    requires k < |s| && !IsSpace(s[k])
    ensures |TrimStart(s)| >= |s| - k
    decreases k
  {
    if IsSpace(s[0]) {
      TrimStops(s[1..], k - 1);
    }
  }

  lemma DataOfOne(line: string)
    ensures DataOf([line]) == if IsData(line) then TrimStart(line[5..]) else ""
  {
    assert Front([line]) == [] && Last([line]) == line;
  }

  lemma DataOfTwo(a: string, b: string)
    requires !IsData(a)
    ensures DataOf([a, b]) == if IsData(b) then TrimStart(b[5..]) else ""
  {
    assert Front([a, b]) == [a] && Last([a, b]) == b;
    DataOfOne(a);
  }

  lemma DataStartsWithD(line: string)
    ensures IsData(line) ==> line[0] == 'd'
  {
    if IsData(line) {
      assert line[..5][0] == line[0] && DATA[0] == 'd';
    }
  }

  lemma SingleLineMessage(line: string)
    requires '\n' !in line
    ensures MessageOf(line) == if IsData(line) && TrimStart(line[5..]) != "" then [TrimStart(line[5..])] else []
  {
    OneLine(line);
    DataOfOne(line);
    if IsData(line) {
      DataStartsWithD(line);
      NotBlank(line, 0);
    }
  }

  /** What a data frame with a newline-free payload says. */
  lemma DataFrameSays(payload: string)
    requires '\n' !in payload
    ensures Messages("data: " + payload + "\n\n") == if TrimStart(payload) == "" then [] else [TrimStart(payload)]
    ensures SplitBlank("data: " + payload + "\n\n") == ["data: " + payload, ""]
  {
    var body := "data: " + payload;
    OneLineFramable(body);
    FrameSplits(body);
    OnePart(body);
    SingleLineMessage(body);
    DataLine(payload);
  }

  lemma OnePart(body: string)
    requires SplitBlank(body + "\n\n") == [body, ""]
    ensures Messages(body + "\n\n") == MessageOf(body)
  {
    assert Front([body, ""]) == [body] && Front([body]) == [] && Last([body]) == body;
    assert MessagesOf([body]) == MessagesOf([]) + MessageOf(body);
  }

  lemma HeadedPartSays(head: string, line: string)
    requires '\n' !in head && !IsData(head) && head != "" && !IsSpace(head[0])
    requires '\n' !in line && IsData(line) && TrimStart(line[5..]) != ""
    ensures MessageOf(head + "\n" + line) == [TrimStart(line[5..])]
  {
    TwoLines(head, line);
    DataOfTwo(head, line);
    NotBlank(head + "\n" + line, 0);
  }

  lemma HeadedFrameSays(head: string, payload: string)
    requires '\n' !in head && !IsData(head) && head != "" && !IsSpace(head[0]) && Clean(payload)
    ensures var body := head + "\n" + ("data: " + payload);
            Messages(body + "\n\n") == [payload] && SplitBlank(body + "\n\n") == [body, ""]
  {
    var line := "data: " + payload;
    var body := head + "\n" + line;
    DataLine(payload);
    TwoLinesFramable(head, line);
    FrameSplits(body);
    HeadedPartSays(head, line);
    OnePart(body);
  }

  lemma KeepAliveSays()
    ensures Messages(KEEP_ALIVE + "\n\n") == [] && SplitBlank(KEEP_ALIVE + "\n\n") == [KEEP_ALIVE, ""]
  {
    OneLineFramable(KEEP_ALIVE);
    FrameSplits(KEEP_ALIVE);
    DataStartsWithD(KEEP_ALIVE);
    SingleLineMessage(KEEP_ALIVE);
    OnePart(KEEP_ALIVE);
  }

  lemma OpenedSays()
    ensures Messages(OPENED + "\n\n") == ["connected"] && SplitBlank(OPENED + "\n\n") == [OPENED, ""]
  {
    DataStartsWithD("event: open");
    HeadedFrameSays("event: open", "connected");
  }

  lemma DisconnectedSays()
    ensures Messages(DISCONNECTED + "\n\n") == [FAREWELL] && SplitBlank(DISCONNECTED + "\n\n") == [DISCONNECTED, ""]
  {
    DataStartsWithD("event: error");
    HeadedFrameSays("event: error", FAREWELL);
  }

  lemma FrameSays(f: Frame)
    requires f.Data? ==> Clean(f.payload)
    ensures Messages(Body(f) + "\n\n") == Said(f) && SplitBlank(Body(f) + "\n\n") == [Body(f), ""]
  {
    match f
    case Data(payload) => DataFrameSays(payload);
    case Opened => OpenedSays();
    case Disconnected => DisconnectedSays();
    case KeepAlive => KeepAliveSays();
  }

  /** Whatever frames the server prints, with clean payloads, the client hears exactly their payloads in order. */
  lemma {:induction false} FramesHeard(frames: seq<Frame>)
    requires AllClean(frames)
    ensures Messages(Print(frames)) == AllSaid(frames) && Last(SplitBlank(Print(frames))) == ""
  {
    if frames == [] {
      assert SplitBlank("") == [""];
    } else {
      FramesHeard(Front(frames));
      FrameSays(Last(frames));
      var more := Body(Last(frames)) + "\n\n";
      MessagesMore(Print(Front(frames)), more);
      assert "" + more == more;
    }
  }

  // ---------------------------------------------------------------------------------------------
  // No other payload survives
  // ---------------------------------------------------------------------------------------------

  function DataLines(lines: seq<string>): nat {
    if lines == [] then 0 else DataLines(Front(lines)) + (if IsData(Last(lines)) then 1 else 0)
  }

  function Size(lines: seq<string>): nat { if lines == [] then 0 else Size(Front(lines)) + |Last(lines)| + 1 }

  lemma {:induction false} DataBound(lines: seq<string>)
    requires forall i :: 0 <= i < |lines| ==> '\n' !in lines[i]
    ensures |DataOf(lines)| + 5 * DataLines(lines) <= Size(lines)
    ensures DataLines(lines) == 0 ==> DataOf(lines) == ""
    ensures '\n' in DataOf(lines) ==> DataLines(lines) >= 2
  {
    if lines != [] {
      DataBound(Front(lines));
      var tail := if IsData(Last(lines)) then TrimStart(Last(lines)[5..]) else "";
      assert '\n' !in tail;
    }
  }

  lemma {:induction false} SizeSnoc(x: string, lines: seq<string>)
    ensures Size([x] + lines) == |x| + 1 + Size(lines)
    decreases |lines|
  {
    if lines == [] {
      assert [x] + lines == [x] && Front([x]) == [];
    } else {
      SizeSnoc(x, Front(lines));
      assert Front([x] + lines) == [x] + Front(lines) && Last([x] + lines) == Last(lines);
    }
  }

  lemma {:induction false} LinesSize(s: string)
    ensures Size(SplitLines(s)) == |s| + 1
    decreases |s|
  {
    if s == "" {
      SizeSnoc("", []);
      assert [""] + [] == [""];
    } else {
      LinesSize(s[1..]);
      var tail := SplitLines(s[1..]);
      SizeSnoc(tail[0], tail[1..]);
      assert [tail[0]] + tail[1..] == tail;
      if s[0] == '\n' {
        SizeSnoc("", tail);
      } else {
        SizeSnoc([s[0]] + tail[0], tail[1..]);
      }
    }
  }

  lemma {:induction false} PartsShorter(s: string, i: nat)
    requires i < |SplitBlank(s)|
    ensures |SplitBlank(s)[i]| <= if |SplitBlank(s)| > 1 then |s| - 2 else |s|
    decreases |s|
  {
    var k := FirstBlank(s);
    if k < |s| {
      var head, tail := s[..k], s[k + 2..];
      SplitAt(s, k, head, tail);
      if i > 0 {
        PartsShorter(tail, i - 1);
        assert SplitBlank(s)[i] == SplitBlank(tail)[i - 1];
      }
    }
  }

  lemma {:induction false} MessageFromPart(parts: seq<string>, m: string) returns (i: nat)
    requires m in MessagesOf(parts)
    ensures i < |parts| && MessageOf(parts[i]) == [m]
  {
    if m in MessageOf(Last(parts)) {
      i := |parts| - 1;
    } else {
      i := MessageFromPart(Front(parts), m);
    }
  }

  /** A message with a line feed in it takes two data lines, which cost more than it gains. */
  lemma LongMessageCosts(text: string, m: string)
    requires m in Messages(text) && '\n' in m
    ensures |m| + 11 <= |text|
  {
    var parts := SplitBlank(text);
    var i := MessageFromPart(Front(parts), m);
    PartsShorter(text, i);
    LinesSize(parts[i]);
    DataBound(SplitLines(parts[i]));
  }

  lemma PrintedAlone(payload: string)
    ensures Print([Data(payload)]) == "data: " + payload + "\n\n"
  {
    assert Front([Data(payload)]) == [] && Print([]) == "";
    assert Print([Data(payload)]) == "" + ("data: " + payload + "\n\n");
  }

  /** A payload reaches the client as one message equal to it exactly when it is clean. */
  lemma DeliveredIffClean(payload: string)
    ensures Messages(Print([Data(payload)])) == [payload] <==> Clean(payload)
  {
    PrintedAlone(payload);
    if '\n' in payload {
      assert payload !in Messages(Print([Data(payload)])) by {
        if payload in Messages(Print([Data(payload)])) {
          LongMessageCosts(Print([Data(payload)]), payload);
        }
      }
      assert payload in [payload];
    } else {
      DataFrameSays(payload);
      assert payload != "" && IsSpace(payload[0]) ==> |TrimStart(payload)| < |payload|;
    }
  }
}
