/** Wildcard matching of dotted event names. */
module Patterns {
  // ---------------------------------------------------------------------------------------------
  // What a match is
  // ---------------------------------------------------------------------------------------------

  /** `split(".")`: always at least one segment. */
  function SplitDots(s: string): (segments: seq<string>)
    ensures |segments| >= 1
    ensures forall i :: 0 <= i < |segments| ==> '.' !in segments[i]
  {
    if s == "" then [""]
    else
      var tail := SplitDots(s[1..]);
      if s[0] == '.' then [""] + tail else [[s[0]] + tail[0]] + tail[1..]
  }

  function Glued(pieces: seq<string>): string {
    if pieces == [] then "" else pieces[0] + Glued(pieces[1..])
  }

  /** A piece of a segment that one pattern character stands for. */
  predicate StandsFor(c: char, piece: string) {
    if c == '*' then piece != "" && '.' !in piece else piece == [c]
  }

  /** The segment can be cut so that each pattern character stands for one piece. */
  ghost predicate SegmentMatches(pattern: string, segment: string) {
    exists pieces: seq<string> ::
      && |pieces| == |pattern| && Glued(pieces) == segment
      && forall i :: 0 <= i < |pattern| ==> StandsFor(pattern[i], pieces[i])
  }

  const MULTI := "**"

  /** The segments in front of the first multi-segment wildcard. */
  function PlainPrefix(pattern: seq<string>): (k: nat)
    ensures k <= |pattern| && (k < |pattern| ==> pattern[k] == MULTI)
    ensures forall i :: 0 <= i < k ==> pattern[i] != MULTI
  {
    if pattern == [] || pattern[0] == MULTI then 0 else 1 + PlainPrefix(pattern[1..])
  }

  /** Without a multi-segment wildcard, segments match one for one. The first such wildcard absorbs what is left of
      the event and whatever follows it in the pattern; only as the last segment may it absorb nothing. */
  ghost predicate SegmentsMatch(event: seq<string>, pattern: seq<string>) {
    var k := PlainPrefix(pattern);
    && (if k == |pattern| then |event| == k else |event| > k || (|event| == k && k == |pattern| - 1))
    && forall i :: 0 <= i < k ==> SegmentMatches(pattern[i], event[i])
  }

  ghost predicate EventMatches(event: string, pattern: string) {
    SegmentsMatch(SplitDots(event), SplitDots(pattern))
  }

  // ---------------------------------------------------------------------------------------------
  // The regular expression of one segment
  // ---------------------------------------------------------------------------------------------

  /** A literal character, or one or more characters other than a dot. */
  datatype Token = Literal(c: char) | AnyRun

  method SegmentRegex(pattern: string) returns (out: seq<Token>)
    ensures out == TokensOf(pattern)
  {
    out := [];
    for i := 0 to |pattern|
      invariant out == TokensOf(pattern[..i])
    {
      assert pattern[..i + 1][..i] == pattern[..i];
      if pattern[i] == '*' {
        out := out + [AnyRun];
      } else {
        out := out + [Literal(pattern[i])];
      }
    }
    assert pattern[..|pattern|] == pattern;
  }

  function TokensOf(pattern: string): (out: seq<Token>)
    ensures |out| == |pattern|
    ensures forall i :: 0 <= i < |out| ==> out[i] == if pattern[i] == '*' then AnyRun else Literal(pattern[i])
  {
    if pattern == "" then []
    else
      var c := pattern[|pattern| - 1];
      TokensOf(pattern[..|pattern| - 1]) + [if c == '*' then AnyRun else Literal(c)]
  }

  /** A full match by backtracking: a run takes one character and then stops or goes on. */
  predicate FullMatch(tokens: seq<Token>, s: string)
    decreases |tokens| + |s|
  {
    if tokens == [] then s == ""
    else if s == "" then false
    else if tokens[0].Literal? then s[0] == tokens[0].c && FullMatch(tokens[1..], s[1..])
    else s[0] != '.' && (FullMatch(tokens[1..], s[1..]) || FullMatch(tokens, s[1..]))
  }

  predicate Fits(token: Token, piece: string) {
    if token.AnyRun? then piece != "" && '.' !in piece else piece == [token.c]
  }

  ghost predicate Cut(tokens: seq<Token>, s: string, pieces: seq<string>) {
    && |pieces| == |tokens| && Glued(pieces) == s
    && forall i :: 0 <= i < |tokens| ==> Fits(tokens[i], pieces[i])
  }

  lemma {:induction false} MatchGivesCut(tokens: seq<Token>, s: string) returns (pieces: seq<string>)
    requires FullMatch(tokens, s)
    ensures Cut(tokens, s, pieces)
    decreases |tokens| + |s|
  {
    if tokens == [] {
      pieces := [];
    } else if tokens[0].Literal? || FullMatch(tokens[1..], s[1..]) {
      var rest := MatchGivesCut(tokens[1..], s[1..]);
      pieces := [[s[0]]] + rest;
      assert pieces[1..] == rest;
    } else {
      var rest := MatchGivesCut(tokens, s[1..]);
      pieces := [[s[0]] + rest[0]] + rest[1..];
      assert pieces[1..] == rest[1..];
      assert Glued(pieces) == [s[0]] + (rest[0] + Glued(rest[1..]));
    }
  }

  lemma {:induction false} CutGivesMatch(tokens: seq<Token>, s: string, pieces: seq<string>)
    requires Cut(tokens, s, pieces)
    ensures FullMatch(tokens, s)
    decreases |tokens| + |s|
  {
    if tokens != [] {
      var first, rest := pieces[0], pieces[1..];
      assert s == first + Glued(rest) && Fits(tokens[0], first);
      if |first| == 1 {
        assert s[1..] == Glued(rest);
        CutGivesMatch(tokens[1..], s[1..], rest);
      } else {
        var shorter := [first[1..]] + rest;
        assert shorter[1..] == rest && s[1..] == first[1..] + Glued(rest);
        CutGivesMatch(tokens, s[1..], shorter);
      }
    }
  }

  /** The compiled expression of a segment matches exactly what the segment pattern means. */
  lemma RegexMeansSegment(pattern: string, segment: string)
    ensures FullMatch(TokensOf(pattern), segment) <==> SegmentMatches(pattern, segment)
  {
    var tokens := TokensOf(pattern);
    if FullMatch(tokens, segment) {
      var pieces := MatchGivesCut(tokens, segment);
      assert forall i :: 0 <= i < |pattern| ==> Fits(tokens[i], pieces[i]) ==> StandsFor(pattern[i], pieces[i]);
    }
    if SegmentMatches(pattern, segment) {
      var pieces: seq<string> :|
        && |pieces| == |pattern| && Glued(pieces) == segment
        && forall i :: 0 <= i < |pattern| ==> StandsFor(pattern[i], pieces[i]);
      assert forall i :: 0 <= i < |pattern| ==> StandsFor(pattern[i], pieces[i]) ==> Fits(tokens[i], pieces[i]);
      CutGivesMatch(tokens, segment, pieces);
    }
  }

  // ---------------------------------------------------------------------------------------------
  // The matching loop
  // ---------------------------------------------------------------------------------------------

  /** The first segments decide, and the rest is matched by the rest. */
  lemma Peel(event: seq<string>, pattern: seq<string>)
    requires event != [] && pattern != [] && pattern[0] != MULTI
    ensures SegmentsMatch(event, pattern) <==>
            SegmentMatches(pattern[0], event[0]) && SegmentsMatch(event[1..], pattern[1..])
  {
    var k := PlainPrefix(pattern[1..]);
    assert PlainPrefix(pattern) == k + 1;
    assert forall i :: 0 <= i < k ==> pattern[1..][i] == pattern[i + 1];
    if SegmentsMatch(event, pattern) {
      forall i | 0 <= i < k ensures SegmentMatches(pattern[1..][i], event[1..][i]) {
        assert SegmentMatches(pattern[i + 1], event[i + 1]);
      }
    }
    if SegmentMatches(pattern[0], event[0]) && SegmentsMatch(event[1..], pattern[1..]) {
      forall i | 0 <= i < k + 1 ensures SegmentMatches(pattern[i], event[i]) {
        if i > 0 {
          assert SegmentMatches(pattern[1..][i - 1], event[1..][i - 1]);
        }
      }
    }
  }

  lemma NothingLeft(event: seq<string>, pattern: seq<string>)
    requires event == [] || pattern == [] || pattern[0] == MULTI
    ensures SegmentsMatch(event, pattern) <==>
            if event == [] then pattern == [] || (|pattern| == 1 && pattern[0] == MULTI) else pattern != []
  {
    if pattern != [] && pattern[0] != MULTI {
      assert PlainPrefix(pattern) >= 1;
    }
  }

  /** What the loop decides from the `i`th segment on. */
  ghost predicate MatchesFrom(event: seq<string>, pattern: seq<string>, i: nat)
    requires i <= |event| && i <= |pattern|
    decreases |event| - i
  {
    if i < |event| && i < |pattern| then
      pattern[i] == MULTI || (FullMatch(TokensOf(pattern[i]), event[i]) && MatchesFrom(event, pattern, i + 1))
    else (i == |pattern| && i == |event|) || (i == |pattern| - 1 && pattern[i] == MULTI)
  }

  /** It decides whether the segments left on both sides match. */
  lemma {:induction false} LoopDecides(event: seq<string>, pattern: seq<string>, i: nat)
    requires i <= |event| && i <= |pattern|
    ensures MatchesFrom(event, pattern, i) <==> SegmentsMatch(event[i..], pattern[i..])
    decreases |event| - i
  {
    if i < |event| && i < |pattern| && pattern[i] != MULTI {
      LoopDecides(event, pattern, i + 1);
      RegexMeansSegment(pattern[i], event[i]);
      Peel(event[i..], pattern[i..]);
      assert event[i..][1..] == event[i + 1..] && pattern[i..][1..] == pattern[i + 1..];
    } else {
      NothingLeft(event[i..], pattern[i..]);
    }
  }

  method MatchesEventPattern(event: string, pattern: string) returns (matches: bool)
    ensures matches <==> EventMatches(event, pattern)
  {
    if pattern == MULTI {
      LoneMultiMatchesAll(event);
      return true;
    }
    var eventParts, patternParts := SplitDots(event), SplitDots(pattern);
    LoopDecides(eventParts, patternParts, 0);
    assert eventParts[0..] == eventParts && patternParts[0..] == patternParts;
    matches := MatchParts(eventParts, patternParts);
  }

  /** The two indices move through both lists of segments together. */
  method MatchParts(eventParts: seq<string>, patternParts: seq<string>) returns (matches: bool)
    ensures matches <==> MatchesFrom(eventParts, patternParts, 0)
  {
    var i, j := 0, 0;
    while i < |patternParts| && j < |eventParts|
      invariant i == j <= |patternParts| && j <= |eventParts|
      invariant MatchesFrom(eventParts, patternParts, 0) <==> MatchesFrom(eventParts, patternParts, i)
    {
      var segment := patternParts[i];
      if segment == MULTI {
        return true;
      }
      var regex := SegmentRegex(segment);
      if !FullMatch(regex, eventParts[j]) {
        return false;
      }
      i := i + 1;
      j := j + 1;
    }
    if i == |patternParts| && j == |eventParts| {
      return true;
    }
    if i == |patternParts| - 1 && patternParts[i] == MULTI {
      return true;
    }
    return false;
  }

  /** The patterns an event matches, in the order given. */
  method GetMatchingPatterns(event: string, patterns: seq<string>) returns (found: seq<string>)
    ensures found == Matching(event, patterns)
  {
    found := [];
    for i := 0 to |patterns|
      invariant found == Matching(event, patterns[..i])
    {
      assert patterns[..i + 1][..i] == patterns[..i];
      var matches := MatchesEventPattern(event, patterns[i]);
      if matches {
        found := found + [patterns[i]];
      }
    }
    assert patterns[..|patterns|] == patterns;
  }

  ghost function Matching(event: string, patterns: seq<string>): seq<string> {
    if patterns == [] then []
    else
      var last := patterns[|patterns| - 1];
      Matching(event, patterns[..|patterns| - 1]) + (if EventMatches(event, last) then [last] else [])
  }

  // ---------------------------------------------------------------------------------------------
  // What follows
  // ---------------------------------------------------------------------------------------------

  lemma {:induction false} DotlessSplit(s: string)
    requires '.' !in s
    ensures SplitDots(s) == [s]
  {
    if s != "" {
      DotlessSplit(s[1..]);
      assert [s[0]] + s[1..] == s;
    }
  }

  lemma LoneMultiMatchesAll(event: string)
    ensures EventMatches(event, MULTI)
  {
    DotlessSplit(MULTI);
    NothingLeft(SplitDots(event), [MULTI]);
  }

  lemma {:induction false} SegmentMatchesItself(s: string)
    requires '.' !in s
    ensures SegmentMatches(s, s)
  {
    var pieces := Letters(s);
    assert forall i :: 0 <= i < |s| ==> StandsFor(s[i], pieces[i]);
  }

  function Letters(s: string): (pieces: seq<string>)
    ensures |pieces| == |s| && Glued(pieces) == s
    ensures forall i :: 0 <= i < |s| ==> pieces[i] == [s[i]]
  {
    if s == "" then [] else
      var tail := Letters(s[1..]);
      assert ([[s[0]]] + tail)[1..] == tail;
      [[s[0]]] + tail
  }

  /** Every event name, read as a pattern, matches itself, wildcards and all. */
  lemma EventMatchesItself(event: string)
    ensures EventMatches(event, event)
  {
    var segments := SplitDots(event);
    forall i | 0 <= i < |segments| ensures SegmentMatches(segments[i], segments[i]) {
      SegmentMatchesItself(segments[i]);
    }
  }

  /** A lone `*` stands for any one segment that is not empty. */
  lemma StarMatchesOneSegment(segment: string)
    requires '.' !in segment
    ensures SegmentMatches("*", segment) <==> segment != ""
  {
    if segment != "" {
      assert [segment][1..] == [] && Glued([segment]) == segment;
      assert StandsFor("*"[0], [segment][0]);
    }
    if SegmentMatches("*", segment) {
      var pieces: seq<string> :|
        && |pieces| == |"*"| && Glued(pieces) == segment
        && forall i :: 0 <= i < |"*"| ==> StandsFor("*"[i], pieces[i]);
      assert StandsFor("*"[0], pieces[0]) && |segment| >= |pieces[0]|;
    }
  }

  lemma {:induction false} SplitJoined(a: string, b: string)
    ensures SplitDots(a + "." + b) == SplitDots(a) + SplitDots(b)
    decreases |a|
  {
    var s := a + "." + b;
    if a == "" {
      assert s[0] == '.' && s[1..] == b;
    } else {
      assert s[0] == a[0] && s[1..] == a[1..] + "." + b;
      SplitJoined(a[1..], b);
      HeadChanged(SplitDots(a[1..]), SplitDots(b), a[0]);
    }
  }

  lemma HeadChanged(x: seq<string>, y: seq<string>, c: char)
    requires x != []
    ensures [[c] + (x + y)[0]] + (x + y)[1..] == [[c] + x[0]] + x[1..] + y
  {
  }

  lemma SplitAppend(pattern: string)
    ensures SplitDots(pattern + ".**") == SplitDots(pattern) + [MULTI]
  {
    SplitJoined(pattern, MULTI);
    DotlessSplit(MULTI);
    assert pattern + ".**" == pattern + "." + MULTI;
  }

  /** A trailing `.**` accepts an event exactly when the pattern without it accepts some leading part of the event,
      the whole event included. */
  lemma TrailingMultiMeansPrefix(event: string, pattern: string, extended: string)
    requires MULTI !in SplitDots(pattern) && extended == pattern + ".**"
    ensures EventMatches(event, extended) <==>
            exists n :: 0 <= n <= |SplitDots(event)| && SegmentsMatch(SplitDots(event)[..n], SplitDots(pattern))
  {
    SplitAppend(pattern);
    TrailingMulti(SplitDots(event), SplitDots(pattern));
  }

  lemma TrailingMulti(e: seq<string>, p: seq<string>)
    requires MULTI !in p
    ensures SegmentsMatch(e, p + [MULTI]) <==> exists n :: 0 <= n <= |e| && SegmentsMatch(e[..n], p)
  {
    var q := p + [MULTI];
    assert q[|p|] == MULTI && forall i :: 0 <= i < |p| ==> q[i] == p[i] && p[i] in p;
    assert PlainPrefix(p) == |p| && PlainPrefix(q) == |p|;
    if SegmentsMatch(e, q) {
      forall i | 0 <= i < |p| ensures SegmentMatches(p[i], e[..|p|][i]) {
        assert SegmentMatches(q[i], e[i]);
      }
      assert SegmentsMatch(e[..|p|], p);
    }
    if n :| 0 <= n <= |e| && SegmentsMatch(e[..n], p) {
      forall i | 0 <= i < |p| ensures SegmentMatches(q[i], e[i]) {
        assert SegmentMatches(p[i], e[..n][i]);
      }
    }
  }

  /** Once a multi-segment wildcard is met with something left of the event, what follows it in the pattern is not
      looked at. */
  lemma InnerMultiIgnoresRest(e: seq<string>, p: seq<string>, rest: seq<string>)
    requires MULTI !in p && rest != []
    ensures SegmentsMatch(e, p + [MULTI] + rest) <==> |e| > |p| && SegmentsMatch(e[..|p|], p)
  {
    var q := p + [MULTI] + rest;
    assert q[|p|] == MULTI && forall i :: 0 <= i < |p| ==> q[i] == p[i] && p[i] in p;
    assert PlainPrefix(p) == |p| && PlainPrefix(q) == |p|;
    if |e| > |p| {
      assert forall i :: 0 <= i < |p| ==> e[..|p|][i] == e[i];
      assert forall i :: 0 <= i < |p| ==> (SegmentMatches(q[i], e[i]) <==> SegmentMatches(p[i], e[..|p|][i]));
    }
  }

  /** The segments with a dot between each two. */
  function Dotted(segments: seq<string>): string
    requires segments != []
  {
    if |segments| == 1 then segments[0] else segments[0] + "." + Dotted(segments[1..])
  }

  lemma {:induction false} SplitIsDotted(s: string)
    ensures Dotted(SplitDots(s)) == s
  {
    if s != "" {
      SplitIsDotted(s[1..]);
      var tail := SplitDots(s[1..]);
      if s[0] == '.' {
        assert ([""] + tail)[1..] == tail;
        assert "" + "." + s[1..] == s;
      } else {
        assert SplitDots(s)[1..] == tail[1..];
        assert [s[0]] + s[1..] == s;
      }
    }
  }

  lemma {:induction false} GluedLetters(pattern: string, pieces: seq<string>)
    requires |pieces| == |pattern| && '*' !in pattern
    requires forall i :: 0 <= i < |pattern| ==> StandsFor(pattern[i], pieces[i])
    ensures Glued(pieces) == pattern
  {
    if pattern != "" {
      GluedLetters(pattern[1..], pieces[1..]);
      assert StandsFor(pattern[0], pieces[0]);
      assert [pattern[0]] + pattern[1..] == pattern;
    }
  }

  lemma PlainSegment(pattern: string, segment: string)
    requires '*' !in pattern && '.' !in pattern
    ensures SegmentMatches(pattern, segment) <==> segment == pattern
  {
    if SegmentMatches(pattern, segment) {
      var pieces: seq<string> :|
        && |pieces| == |pattern| && Glued(pieces) == segment
        && forall i :: 0 <= i < |pattern| ==> StandsFor(pattern[i], pieces[i]);
      GluedLetters(pattern, pieces);
    }
    SegmentMatchesItself(pattern);
  }

  lemma {:induction false} SegmentsOf(s: string, c: char)
    ensures c != '.' && c !in s ==> forall i :: 0 <= i < |SplitDots(s)| ==> c !in SplitDots(s)[i]
  {
    if s != "" {
      SegmentsOf(s[1..], c);
    }
  }

  /** A pattern without wildcards stands for one event name: itself. */
  lemma PlainMeansEqual(event: string, pattern: string)
    requires '*' !in pattern
    ensures EventMatches(event, pattern) <==> event == pattern
  {
    var e, p := SplitDots(event), SplitDots(pattern);
    SegmentsOf(pattern, '*');
    forall i | 0 <= i < |p| ensures p[i] != MULTI {
      assert '*' !in p[i] && MULTI[0] == '*';
    }
    assert PlainPrefix(p) == |p|;
    if EventMatches(event, pattern) {
      forall i | 0 <= i < |p| ensures e[i] == p[i] {
        PlainSegment(p[i], e[i]);
      }
      assert e == p;
      SplitIsDotted(event);
      SplitIsDotted(pattern);
    }
    EventMatchesItself(pattern);
  }
}
