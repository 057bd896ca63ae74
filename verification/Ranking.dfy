/**
 Ranking by a strict total order. Where the order never ties, the ranked sequence is determined by the set of
 things ranked, so the order in which a hash map happens to hand them over cannot show.
 */
module Ranking {

  ghost predicate StrictTotalOrder<T(!new)>(less: (T, T) -> bool, domain: set<T>) {
    && (forall x | x in domain :: !less(x, x))
    && (forall x, y, z | x in domain && y in domain && z in domain && less(x, y) && less(y, z) :: less(x, z))
    && (forall x, y | x in domain && y in domain :: x == y || less(x, y) || less(y, x))
  }

  ghost predicate Ranked<T>(xs: seq<T>, less: (T, T) -> bool) {
    forall i, j | 0 <= i < j < |xs| :: less(xs[i], xs[j])
  }

  function Elements<T>(xs: seq<T>): set<T> { set x | x in xs }

  function Insert<T>(x: T, xs: seq<T>, less: (T, T) -> bool): seq<T> {
    if xs == [] || less(x, xs[0]) then [x] + xs else [xs[0]] + Insert(x, xs[1..], less)
  }

  function SortBy<T>(xs: seq<T>, less: (T, T) -> bool): seq<T> {
    if xs == [] then [] else Insert(xs[0], SortBy(xs[1..], less), less)
  }

  lemma {:induction false} InsertKeeps<T(!new)>(x: T, xs: seq<T>, less: (T, T) -> bool, domain: set<T>)
    requires StrictTotalOrder(less, domain) && Elements(xs) <= domain && x in domain && x !in xs
    requires Ranked(xs, less)
    ensures Ranked(Insert(x, xs, less), less)
    ensures Elements(Insert(x, xs, less)) == {x} + Elements(xs)
    ensures |Insert(x, xs, less)| == |xs| + 1
  {
    if xs == [] {
      assert Insert(x, xs, less) == [x];
    } else if less(x, xs[0]) {
      var out := [x] + xs;
      forall i, j | 0 <= i < j < |out|
        ensures less(out[i], out[j])
      {
        if i == 0 && j > 1 {
          assert xs[j - 1] in Elements(xs) && xs[0] in Elements(xs);
          assert less(xs[0], xs[j - 1]);
        }
      }
      assert Elements(out) == {x} + Elements(xs);
    } else {
      var tail := Insert(x, xs[1..], less);
      assert forall y | y in xs[1..] :: y in xs;
      assert Elements(xs) == {xs[0]} + Elements(xs[1..]);
      InsertKeeps(x, xs[1..], less, domain);
      var out := [xs[0]] + tail;
      assert xs[0] in Elements(xs) && less(xs[0], x);
      forall j | 1 <= j < |out|
        ensures less(xs[0], out[j])
      {
        assert tail[j - 1] in Elements(tail);
        if tail[j - 1] != x {
          assert tail[j - 1] in xs[1..];
        }
      }
      assert Elements(out) == {xs[0]} + Elements(tail);
    }
  }

  ghost predicate Distinct<T>(xs: seq<T>) {
    forall i, j | 0 <= i < j < |xs| :: xs[i] != xs[j]
  }

  lemma {:induction false} SortByRanks<T(!new)>(xs: seq<T>, less: (T, T) -> bool, domain: set<T>)
    requires StrictTotalOrder(less, domain) && Elements(xs) <= domain && Distinct(xs)
    ensures Ranked(SortBy(xs, less), less)
    ensures Elements(SortBy(xs, less)) == Elements(xs) && |SortBy(xs, less)| == |xs|
  {
    if xs == [] {
    } else {
      assert Elements(xs) == {xs[0]} + Elements(xs[1..]);
      SortByRanks(xs[1..], less, domain);
      var sorted := SortBy(xs[1..], less);
      assert xs[0] !in Elements(sorted);
      InsertKeeps(xs[0], sorted, less, domain);
    }
  }

  lemma RankedIsDistinct<T(!new)>(xs: seq<T>, less: (T, T) -> bool, domain: set<T>)
    requires StrictTotalOrder(less, domain) && Elements(xs) <= domain && Ranked(xs, less)
    ensures Distinct(xs)
  {
    forall i, j | 0 <= i < j < |xs|
      ensures xs[i] != xs[j]
    {
      assert xs[i] in Elements(xs) && less(xs[i], xs[j]);
    }
  }

  lemma HasElements<T>(xs: seq<T>)
    ensures xs != [] ==> Elements(xs) != {}
  {
    if xs != [] {
      assert xs[0] in Elements(xs);
    }
  }

  lemma FirstIsBelow<T>(xs: seq<T>, y: T, less: (T, T) -> bool)
    requires Ranked(xs, less) && y in xs
    ensures xs[0] == y || less(xs[0], y)
  {
    var j :| 0 <= j < |xs| && xs[j] == y;
    assert j == 0 || less(xs[0], xs[j]);
  }

  /** The first of a ranking is the least of its elements. */
  lemma FirstIsLeast<T(!new)>(xs: seq<T>, ys: seq<T>, less: (T, T) -> bool, domain: set<T>)
    requires StrictTotalOrder(less, domain) && Elements(xs) <= domain
    requires Ranked(xs, less) && Ranked(ys, less) && Elements(xs) == Elements(ys) && xs != []
    ensures ys != [] && xs[0] == ys[0]
  {
    HasElements(xs);
    HasElements(ys);
    assert xs[0] in Elements(ys);
    assert ys[0] in Elements(xs);
    FirstIsBelow(ys, xs[0], less);
    FirstIsBelow(xs, ys[0], less);
  }

  /** A set has one ranking. */
  lemma {:induction false} RankingIsUnique<T(!new)>(xs: seq<T>, ys: seq<T>, less: (T, T) -> bool, domain: set<T>)
    requires StrictTotalOrder(less, domain) && Elements(xs) <= domain
    requires Ranked(xs, less) && Ranked(ys, less) && Elements(xs) == Elements(ys)
    ensures xs == ys
    decreases |xs|
  {
    if xs == [] {
      HasElements(ys);
    } else {
      FirstIsLeast(xs, ys, less, domain);
      RankedIsDistinct(xs, less, domain);
      RankedIsDistinct(ys, less, domain);
      ElementsOfTail(xs);
      ElementsOfTail(ys);
      RankingIsUnique(xs[1..], ys[1..], less, domain);
      assert xs == [xs[0]] + xs[1..] && ys == [ys[0]] + ys[1..];
    }
  }

  lemma ElementsOfTail<T>(xs: seq<T>)
    requires xs != [] && Distinct(xs)
    ensures Elements(xs[1..]) == Elements(xs) - {xs[0]}
  {
  }

  function Filter<T(!new)>(xs: seq<T>, keep: T -> bool): (ys: seq<T>)
    ensures forall x :: x in ys <==> x in xs && keep(x)
  {
    if xs == [] then [] else (if keep(xs[0]) then [xs[0]] else []) + Filter(xs[1..], keep)
  }

  /** Dropping rows from a ranking leaves a ranking. */
  lemma {:induction false} FilterStaysRanked<T(!new)>(xs: seq<T>, keep: T -> bool, less: (T, T) -> bool)
    requires Ranked(xs, less)
    ensures Ranked(Filter(xs, keep), less)
  {
    if xs == [] {
    } else {
      FilterStaysRanked(xs[1..], keep, less);
      var tail := Filter(xs[1..], keep);
      forall j | 0 <= j < |tail|
        ensures less(xs[0], tail[j])
      {
        assert tail[j] in tail;
        assert tail[j] in xs[1..];
      }
    }
  }

  lemma ConsElements<T(!new)>(x: T, tail: seq<T>, s: set<T>)
    requires x in s && Elements(tail) == s - {x} && Distinct(tail)
    ensures Elements([x] + tail) == s && Distinct([x] + tail)
  {
    var xs := [x] + tail;
    assert xs[1..] == tail;
    forall y
      ensures y in Elements(xs) <==> y in s
    {
      assert y in Elements(xs) <==> y == x || y in Elements(tail);
    }
    forall i, j | 0 <= i < j < |xs|
      ensures xs[i] != xs[j]
    {
      assert xs[j] == tail[j - 1];
      if i == 0 {
        assert xs[j] in Elements(tail);
      } else {
        assert xs[i] == tail[i - 1];
      }
    }
  }

  /** The elements of a set, in some order. */
  ghost function InSomeOrder<T(!new)>(s: set<T>): (xs: seq<T>)
    ensures Elements(xs) == s && Distinct(xs)
  {
    if s == {} then []
    else
      var x :| x in s;
      var tail := InSomeOrder(s - {x});
      ConsElements(x, tail, s);
      [x] + tail
  }

  /** At most `limit` rows from the front. */
  function Truncate<T>(xs: seq<T>, limit: nat): (ys: seq<T>)
    ensures ys <= xs && (|ys| == limit || (ys == xs && |xs| < limit))
  {
    if |xs| <= limit then xs else xs[..limit]
  }

  /** Some key of a map: the one an iteration happens to yield first. */
  ghost function Pick<K, V>(m: map<K, V>): (key: K)
    requires m != map[]
    ensures key in m
  {
    assert m.Keys == {} ==> m == map[];
    var key :| key in m.Keys; key
  }
}
