/** Listing a finite set in a strict total order: the listing exists and is the only one. */
module Ordering {

  ghost predicate StrictTotal<T(!new)>(less: (T, T) -> bool) {
    && (forall a :: !less(a, a))
    && (forall a, b, c :: less(a, b) && less(b, c) ==> less(a, c))
    && (forall a, b :: a == b || less(a, b) || less(b, a))
  }

  /** Every earlier element is less than every later one. */
  predicate Sorted<T>(xs: seq<T>, less: (T, T) -> bool) {
    forall i, j :: 0 <= i < j < |xs| ==> less(xs[i], xs[j])
  }

  function ElementsOf<T>(xs: seq<T>): set<T> {
    set x | x in xs
  }

  /** `xs` is the set `s` in order, each element once. */
  predicate Lists<T>(xs: seq<T>, s: set<T>, less: (T, T) -> bool) {
    Sorted(xs, less) && ElementsOf(xs) == s
  }

  lemma SortedTail<T(!new)>(xs: seq<T>, less: (T, T) -> bool)
    requires StrictTotal(less) && xs != [] && Sorted(xs, less)
    ensures Sorted(xs[1..], less) && ElementsOf(xs[1..]) == ElementsOf(xs) - {xs[0]}
  {
    forall x | x in ElementsOf(xs) - {xs[0]} ensures x in xs[1..] {
      var i :| 0 <= i < |xs| && xs[i] == x;
      assert xs[1..][i - 1] == x;
    }
  }

  lemma FirstIsLeast<T(!new)>(xs: seq<T>, s: set<T>, less: (T, T) -> bool, x: T)
    requires Lists(xs, s, less) && x in s
    ensures xs != [] && (x == xs[0] || less(xs[0], x))
  {
    var i :| 0 <= i < |xs| && xs[i] == x;
  }

  lemma NonEmpty<T>(xs: seq<T>)
    requires xs != []
    ensures ElementsOf(xs) != {}
  {
    assert xs[0] in ElementsOf(xs);
  }

  /** A set has one sorted listing. */
  lemma {:induction false} ListingUnique<T(!new)>(xs: seq<T>, ys: seq<T>, s: set<T>, less: (T, T) -> bool)
    requires StrictTotal(less) && Lists(xs, s, less) && Lists(ys, s, less)
    ensures xs == ys
    decreases |xs|
  {
    if s == {} {
      if xs != [] {
        NonEmpty(xs);
      }
      if ys != [] {
        NonEmpty(ys);
      }
    } else {
      var x :| x in s;
      FirstIsLeast(xs, s, less, x);
      FirstIsLeast(ys, s, less, x);
      assert xs[0] in s && ys[0] in s;
      FirstIsLeast(xs, s, less, ys[0]);
      FirstIsLeast(ys, s, less, xs[0]);
      SortedTail(xs, less);
      SortedTail(ys, less);
      ListingUnique(xs[1..], ys[1..], s - {xs[0]}, less);
      assert xs == [xs[0]] + xs[1..] && ys == [ys[0]] + ys[1..];
    }
  }

  lemma {:induction false} Least<T(!new)>(s: set<T>, less: (T, T) -> bool) returns (least: T)
    requires StrictTotal(less) && s != {}
    ensures least in s && forall x :: x in s && x != least ==> less(least, x)
  {
    var x :| x in s;
    if s == {x} {
      least := x;
    } else {
      var m := Least(s - {x}, less);
      least := if less(x, m) then x else m;
      forall y | y in s && y != least ensures less(least, y) {
        if y != x && y != m {
          assert y in s - {x} && less(m, y);
        }
      }
    }
  }

  lemma ElementsSnoc<T>(xs: seq<T>, x: T)
    ensures ElementsOf(xs + [x]) == ElementsOf(xs) + {x}
  {
    var all := xs + [x];
    assert all[|xs|] == x;
    forall y | y in ElementsOf(xs) ensures y in all {
      var i :| 0 <= i < |xs| && xs[i] == y;
      assert all[i] == y;
    }
  }

  /** Lists a set in order. */
  method Sort<T(==, !new)>(s: set<T>, less: (T, T) -> bool) returns (xs: seq<T>)
    requires StrictTotal(less)
    ensures Lists(xs, s, less) && |xs| == |s|
  {
    var rest := s;
    xs := [];
    while rest != {}
      invariant rest <= s && ElementsOf(xs) == s - rest && |xs| + |rest| == |s|
      invariant Sorted(xs, less)
      invariant forall i, y :: 0 <= i < |xs| && y in rest ==> less(xs[i], y)
      decreases rest
    {
      ghost var least := Least(rest, less);
      var x :| x in rest && forall y :: y in rest && y != x ==> less(x, y);
      ElementsSnoc(xs, x);
      xs := xs + [x];
      rest := rest - {x};
    }
  }

}
