/** What splitting an event stream into parts and lines means, and messages of several data lines. */
module SseLines {
  import opened SseFormat

  /** The pieces with `separator` between each two. */
  function Join(pieces: seq<string>, separator: string): string
    requires pieces != []
  {
    if |pieces| == 1 then pieces[0] else pieces[0] + separator + Join(pieces[1..], separator)
  }

  /** Lines are what lies between the line feeds. */
  lemma {:induction false} LinesJoined(s: string)
    ensures Join(SplitLines(s), "\n") == s
  {
    if s != "" {
      LinesJoined(s[1..]);
      var tail := SplitLines(s[1..]);
      if s[0] == '\n' {
        assert ([""] + tail)[1..] == tail;
        assert "" + "\n" + s[1..] == s;
      } else {
        assert SplitLines(s)[1..] == tail[1..];
        assert [s[0]] + s[1..] == s;
      }
    }
  }

  predicate Unbroken(part: string) { forall i :: 0 <= i < |part| ==> !BreakAt(part, i) }

  lemma BeforeBlank(s: string, k: nat)
    requires k == FirstBlank(s)
    ensures Unbroken(s[..k])
  {
    forall i | 0 <= i < k ensures !BreakAt(s[..k], i) {
      if i + 1 < k {
        assert s[..k][i] == s[i] && s[..k][i + 1] == s[i + 1] && !BreakAt(s, i);
      }
    }
  }

  /** No part has a blank line in it. */
  lemma {:induction false} PartsUnbroken(s: string)
    ensures forall part :: part in SplitBlank(s) ==> Unbroken(part)
    decreases |s|
  {
    var k := FirstBlank(s);
    if k < |s| {
      PartsUnbroken(s[k + 2..]);
      BeforeBlank(s, k);
    }
  }

  lemma SeamJoined(s: string, k: nat)
    requires BreakAt(s, k)
    ensures s[..k] + "\n\n" + s[k + 2..] == s
  {
  }

  lemma JoinMore(head: string, pieces: seq<string>, separator: string)
    requires pieces != []
    ensures Join([head] + pieces, separator) == head + separator + Join(pieces, separator)
  {
    assert ([head] + pieces)[1..] == pieces;
  }

  /** Parts are what lies between blank lines. */
  lemma {:induction false} PartsJoined(s: string)
    ensures Join(SplitBlank(s), "\n\n") == s
    decreases |s|
  {
    var k := FirstBlank(s);
    if k < |s| {
      PartsJoined(s[k + 2..]);
      SplitAt(s, k, s[..k], s[k + 2..]);
      JoinMore(s[..k], SplitBlank(s[k + 2..]), "\n\n");
      SeamJoined(s, k);
    }
  }

  function Prefixed(lines: seq<string>): (r: seq<string>)
    ensures |r| == |lines|
  {
    seq(|lines|, i requires 0 <= i < |lines| => "data: " + lines[i])
  }

  lemma {:induction false} LinesOfJoin(lines: seq<string>)
    requires lines != [] && forall i :: 0 <= i < |lines| ==> '\n' !in lines[i]
    ensures SplitLines(Join(lines, "\n")) == lines
    decreases |lines|
  {
    if |lines| == 1 {
      OneLine(lines[0]);
    } else {
      LinesOfJoin(lines[1..]);
      LineThenRest(lines[0], Join(lines[1..], "\n"));
      assert [lines[0]] + lines[1..] == lines;
    }
  }

  lemma {:induction false} LineThenRest(a: string, b: string)
    requires '\n' !in a
    ensures SplitLines(a + "\n" + b) == [a] + SplitLines(b)
    decreases |a|
  {
    var s := a + "\n" + b;
    if a == "" {
      assert s[0] == '\n' && s[1..] == b;
    } else {
      assert s[0] == a[0] && s[1..] == a[1..] + "\n" + b;
      LineThenRest(a[1..], b);
      assert [a[0]] + a[1..] == a;
      assert ([a[1..]] + SplitLines(b))[1..] == SplitLines(b);
    }
  }

  lemma {:induction false} JoinLast(pieces: seq<string>, separator: string)
    requires |pieces| >= 2
    ensures Join(pieces, separator) == Join(Front(pieces), separator) + separator + Last(pieces)
    decreases |pieces|
  {
    var tail := pieces[1..];
    if |pieces| == 2 {
      assert Front(pieces) == [pieces[0]] && tail == [Last(pieces)];
    } else {
      JoinLast(tail, separator);
      assert Front(pieces)[1..] == Front(tail) && Front(pieces)[0] == pieces[0];
    }
  }

  /** What the client can carry as one line of several: no line feed, and no white space in front. */
  predicate Carries(line: string) { '\n' !in line && (line != "" ==> !IsSpace(line[0])) }

  lemma {:induction false} DataJoined(lines: seq<string>)
    requires lines != [] && lines[0] != "" && forall i :: 0 <= i < |lines| ==> Carries(lines[i])
    ensures DataOf(Prefixed(lines)) == Join(lines, "\n")
    decreases |lines|
  {
    var last := Last(lines);
    DataLine(last);
    assert TrimStart(last) == last;
    if |lines| == 1 {
      assert Prefixed(lines) == ["data: " + last];
      DataOfOne("data: " + last);
    } else {
      DataJoined(Front(lines));
      JoinLast(lines, "\n");
      assert Front(Prefixed(lines)) == Prefixed(Front(lines));
      assert Last(Prefixed(lines)) == "data: " + last;
      NotEmptyJoin(Front(lines), "\n");
    }
  }

  lemma NotEmptyJoin(pieces: seq<string>, separator: string)
    requires pieces != [] && pieces[0] != ""
    ensures Join(pieces, separator) != "" && Join(pieces, separator)[0] == pieces[0][0]
  {
  }

  lemma PrefixedLines(lines: seq<string>, i: nat)
    requires i < |lines| && '\n' !in lines[i]
    ensures '\n' !in Prefixed(lines)[i] && Prefixed(lines)[i] != "" && Prefixed(lines)[i][0] == 'd'
  {
    assert Prefixed(lines)[i] == "data: " + lines[i] && '\n' !in "data: ";
  }

  lemma PartHeard(lines: seq<string>, data: string)
    requires lines != [] && (forall i :: 0 <= i < |lines| ==> '\n' !in lines[i])
    requires lines[0] != "" && lines[0][0] == 'd' && DataOf(lines) == data != ""
    ensures MessageOf(Join(lines, "\n")) == [data]
  {
    LinesOfJoin(lines);
    NotEmptyJoin(lines, "\n");
    NotBlank(Join(lines, "\n"), 0);
  }

  /** A part of several data lines is one message: their texts with a line feed between each two. */
  lemma ManyLinesHeard(lines: seq<string>)
    requires lines != [] && lines[0] != "" && forall i :: 0 <= i < |lines| ==> Carries(lines[i])
    ensures MessageOf(Join(Prefixed(lines), "\n")) == [Join(lines, "\n")]
  {
    var parts := Prefixed(lines);
    forall i | 0 <= i < |parts| ensures '\n' !in parts[i] && parts[i] != "" && parts[i][0] == 'd' {
      PrefixedLines(lines, i);
    }
    DataJoined(lines);
    NotEmptyJoin(lines, "\n");
    PartHeard(parts, Join(lines, "\n"));
  }

  /** White space in front of a payload is lost. */
  lemma LeadingSpaceLost(c: char, payload: string)
    requires c in {' ', '\t', '\r', '\U{000B}', '\U{000C}', '\U{00A0}', '\U{2003}', '\U{3000}', '\U{FEFF}'}
    requires Clean(payload)
    ensures Messages(Print([Data([c] + payload)])) == [payload]
  {
    PrintedAlone([c] + payload);
    assert c != '\n' && IsSpace(c);
    DataFrameSays([c] + payload);
    assert ([c] + payload)[1..] == payload;
    assert TrimStart([c] + payload) == TrimStart(payload) == payload;
  }
}
