/** Merging two sequences without changing the order inside either. */
module Interleaving {
  ghost predicate Interleaves<T>(s: seq<T>, x: seq<T>, y: seq<T>)
    decreases |s|
  {
    if s == [] then x == [] && y == []
    else
      var front, last := s[..|s| - 1], s[|s| - 1];
      || (x != [] && x[|x| - 1] == last && Interleaves(front, x[..|x| - 1], y))
      || (y != [] && y[|y| - 1] == last && Interleaves(front, x, y[..|y| - 1]))
  }

  lemma {:induction false} Append<T>(s: seq<T>, x: seq<T>, y: seq<T>, s': seq<T>, x': seq<T>, y': seq<T>)
    requires Interleaves(s, x, y) && Interleaves(s', x', y')
    ensures Interleaves(s + s', x + x', y + y')
    decreases |s'|
  {
    if s' == [] {
      assert s + s' == s && x + x' == x && y + y' == y;
    } else {
      var front, last := s'[..|s'| - 1], s'[|s'| - 1];
      assert (s + s')[..|s + s'| - 1] == s + front;
      if x' != [] && x'[|x'| - 1] == last && Interleaves(front, x'[..|x'| - 1], y') {
        Append(s, x, y, front, x'[..|x'| - 1], y');
        assert (x + x')[..|x + x'| - 1] == x + x'[..|x'| - 1];
      } else {
        Append(s, x, y, front, x', y'[..|y'| - 1]);
        assert (y + y')[..|y + y'| - 1] == y + y'[..|y'| - 1];
      }
    }
  }

  lemma {:induction false} SameElements<T>(s: seq<T>, x: seq<T>, y: seq<T>)
    requires Interleaves(s, x, y)
    ensures multiset(s) == multiset(x) + multiset(y)
    decreases |s|
  {
    if s != [] {
      var front, last := s[..|s| - 1], s[|s| - 1];
      assert s == front + [last];
      if x != [] && x[|x| - 1] == last && Interleaves(front, x[..|x| - 1], y) {
        SameElements(front, x[..|x| - 1], y);
        assert x == x[..|x| - 1] + [last];
      } else {
        SameElements(front, x, y[..|y| - 1]);
        assert y == y[..|y| - 1] + [last];
      }
    }
  }
}
