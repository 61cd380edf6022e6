/** Sets put in order. */
module Sorting {

  ghost predicate TotalOrder<T(!new)>(less: (T, T) -> bool) {
    && (forall a :: !less(a, a))
    && (forall a, b, c :: less(a, b) && less(b, c) ==> less(a, c))
    && (forall a, b :: a == b || less(a, b) || less(b, a))
  }

  predicate Sorted<T>(less: (T, T) -> bool, s: seq<T>) {
    forall i, j :: 0 <= i < j < |s| ==> less(s[i], s[j])
  }

  function Elements<T>(s: seq<T>): set<T> {
    set x | x in s
  }

  lemma EmptyElements<T>(s: seq<T>)
    ensures Elements(s) == {} <==> s == []
  {
    if s != [] { assert s[0] in Elements(s); }
  }

  ghost predicate IsLeast<T>(less: (T, T) -> bool, xs: set<T>, x: T) {
    x in xs && forall y :: y in xs && y != x ==> less(x, y)
  }

  lemma {:induction false} LeastExists<T(!new)>(less: (T, T) -> bool, xs: set<T>) returns (x: T)
    requires TotalOrder(less) && xs != {}
    ensures IsLeast(less, xs, x)
    decreases xs
  {
    var y :| y in xs;
    if xs == {y} {
      x := y;
    } else {
      var z := LeastExists(less, xs - {y});
      x := if less(y, z) then y else z;
      forall w | w in xs && w != x ensures less(x, w) {
        if w != y && w != z { assert less(z, w); }
      }
    }
  }

  lemma LeastUnique<T(!new)>(less: (T, T) -> bool, xs: set<T>, x: T, y: T)
    requires TotalOrder(less) && IsLeast(less, xs, x) && IsLeast(less, xs, y)
    ensures x == y
  {
  }

  ghost function Least<T(!new)>(less: (T, T) -> bool, xs: set<T>): (x: T)
    requires TotalOrder(less) && xs != {}
    ensures IsLeast(less, xs, x)
  {
    assert exists x :: IsLeast(less, xs, x) by { var x := LeastExists(less, xs); }
    var x :| IsLeast(less, xs, x); x
  }

  /** The elements of `xs` in ascending order. */
  ghost function Ordered<T(!new)>(less: (T, T) -> bool, xs: set<T>): (s: seq<T>)
    requires TotalOrder(less)
    ensures |s| == |xs|
  {
    if xs == {} then [] else [Least(less, xs)] + Ordered(less, xs - {Least(less, xs)})
  }

  lemma Prepend<T>(less: (T, T) -> bool, m: T, rest: seq<T>)
    requires Sorted(less, rest) && forall x :: x in rest ==> less(m, x)
    ensures Sorted(less, [m] + rest) && Elements([m] + rest) == {m} + Elements(rest)
  {
  }

  lemma {:induction false} OrderedSorted<T(!new)>(less: (T, T) -> bool, xs: set<T>)
    requires TotalOrder(less)
    ensures Sorted(less, Ordered(less, xs)) && Elements(Ordered(less, xs)) == xs
    decreases xs
  {
    if xs == {} {
    } else {
      var m := Least(less, xs);
      var rest := Ordered(less, xs - {m});
      OrderedSorted(less, xs - {m});
      forall x | x in rest ensures less(m, x) {
        assert x in Elements(rest);
      }
      Prepend(less, m, rest);
    }
  }

  lemma SplitHead<T>(less: (T, T) -> bool, s: seq<T>)
    requires Sorted(less, s) && s != [] && !less(s[0], s[0])
    ensures Elements(s[1..]) == Elements(s) - {s[0]} && IsLeast(less, Elements(s), s[0]) && Sorted(less, s[1..])
  {
    forall y | y in s[1..] ensures y in s && y != s[0] {
      var k :| 0 <= k < |s[1..]| && s[1..][k] == y;
      assert s[k + 1] == y && less(s[0], s[k + 1]);
    }
    forall y | y in s && y != s[0] ensures y in s[1..] && less(s[0], y) {
      var k :| 0 <= k < |s| && s[k] == y;
      assert s[1..][k - 1] == y;
    }
  }

  /** There is only one ascending order. */
  lemma {:induction false} OrderedIs<T(!new)>(less: (T, T) -> bool, s: seq<T>)
    requires TotalOrder(less) && Sorted(less, s)
    ensures Ordered(less, Elements(s)) == s
    decreases |s|
  {
    if s == [] {
      assert Elements(s) == {};
    } else {
      SplitHead(less, s);
      LeastUnique(less, Elements(s), s[0], Least(less, Elements(s)));
      OrderedIs(less, s[1..]);
      assert s == [s[0]] + s[1..];
    }
  }

  method First<T(!new, ==)>(less: (T, T) -> bool, xs: set<T>) returns (first: T)
    requires TotalOrder(less) && xs != {}
    ensures first == Least(less, xs)
  {
    var left := xs;
    first :| first in left;
    left := left - {first};
    while left != {}
      invariant left <= xs && IsLeast(less, xs - left, first)
      decreases left
    {
      var next :| next in left;
      if less(next, first) {
        first := next;
      }
      left := left - {next};
    }
    assert xs - left == xs;
  }

  /** What a library sort of distinct elements gives. */
  method Sort<T(!new, ==)>(less: (T, T) -> bool, xs: set<T>) returns (s: seq<T>)
    requires TotalOrder(less)
    ensures s == Ordered(less, xs)
  {
    s := [];
    var left := xs;
    while left != {}
      invariant Ordered(less, xs) == s + Ordered(less, left)
      decreases left
    {
      var x := First(less, left);
      assert s + Ordered(less, left) == (s + [x]) + Ordered(less, left - {x});
      s, left := s + [x], left - {x};
    }
  }
}
