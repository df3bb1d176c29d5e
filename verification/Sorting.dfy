/** sorted() over elements that the key tells apart, by insertion. */
module Sorting {
  import opened Collections

  ghost predicate Transitive<T(!new)>(less: (T, T) -> bool) {
    forall a, b, c :: less(a, b) && less(b, c) ==> less(a, c)
  }

  ghost predicate Comparable<T>(xs: seq<T>, less: (T, T) -> bool) {
    forall i, j :: 0 <= i < j < |xs| ==> less(xs[i], xs[j]) || less(xs[j], xs[i])
  }

  ghost predicate Sorted<T>(xs: seq<T>, less: (T, T) -> bool) {
    forall i, j :: 0 <= i < j < |xs| ==> less(xs[i], xs[j])
  }

  lemma InsertAdds<T>(ys: seq<T>, x: T, at: nat)
    requires at <= |ys|
    ensures multiset(ys[..at] + [x] + ys[at..]) == multiset(ys) + multiset{x}
  {
    assert ys == ys[..at] + ys[at..];
  }

  lemma InsertKeepsSorted<T(!new)>(ys: seq<T>, less: (T, T) -> bool, x: T, at: nat)
    requires Transitive(less) && Sorted(ys, less) && at <= |ys|
    requires forall k :: 0 <= k < at ==> less(ys[k], x)
    requires at < |ys| ==> less(x, ys[at])
    ensures Sorted(ys[..at] + [x] + ys[at..], less)
  {
    forall k | at <= k < |ys|
      ensures less(x, ys[k])
    {
      if k > at {
        assert less(ys[at], ys[k]);
      }
    }
  }

  method Insert<T(!new)>(ys: seq<T>, less: (T, T) -> bool, x: T) returns (zs: seq<T>)
    requires Transitive(less) && Sorted(ys, less)
    requires forall y :: y in ys ==> less(y, x) || less(x, y)
    ensures Sorted(zs, less) && multiset(zs) == multiset(ys) + multiset{x}
  {
    var at := 0;
    while at < |ys| && less(ys[at], x)
      invariant at <= |ys|
      invariant forall k :: 0 <= k < at ==> less(ys[k], x)
    {
      at := at + 1;
    }
    InsertKeepsSorted(ys, less, x, at);
    InsertAdds(ys, x, at);
    zs := ys[..at] + [x] + ys[at..];
  }

  lemma NextComparable<T>(xs: seq<T>, less: (T, T) -> bool, i: nat, ys: seq<T>)
    requires i < |xs| && Comparable(xs, less) && multiset(ys) == multiset(xs[..i])
    ensures forall y :: y in ys ==> less(y, xs[i]) || less(xs[i], y)
  {
    forall y | y in ys
      ensures less(y, xs[i]) || less(xs[i], y)
    {
      assert y in multiset(ys);
      var k :| 0 <= k < i && xs[..i][k] == y;
      assert xs[k] == y;
    }
  }

  method Sort<T(!new)>(xs: seq<T>, less: (T, T) -> bool) returns (ys: seq<T>)
    requires Transitive(less) && Comparable(xs, less)
    ensures Sorted(ys, less) && multiset(ys) == multiset(xs)
  {
    ys := [];
    for i := 0 to |xs|
      invariant Sorted(ys, less) && multiset(ys) == multiset(xs[..i])
    {
      NextComparable(xs, less, i, ys);
      assert xs[..i + 1] == xs[..i] + [xs[i]];
      ys := Insert(ys, less, xs[i]);
    }
    assert xs[..|xs|] == xs;
  }

  method SortSet<T(!new, ==)>(s: set<T>, less: (T, T) -> bool) returns (ys: seq<T>)
    requires Transitive(less) && forall a, b :: a in s && b in s && a != b ==> less(a, b) || less(b, a)
    ensures Sorted(ys, less) && multiset(ys) == multiset(s)
  {
    ys := [];
    var rest := s;
    while rest != {}
      invariant rest <= s && Sorted(ys, less) && multiset(ys) + multiset(rest) == multiset(s)
    {
      var x :| x in rest;
      forall y | y in ys
        ensures less(y, x) || less(x, y)
      {
        assert y in multiset(ys);
        assert multiset(s)[y] <= 1 && multiset(rest)[x] == 1;
      }
      ys := Insert(ys, less, x);
      rest := rest - {x};
    }
  }
}
