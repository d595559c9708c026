/** Stable sorting by a rank, characterised without reference to the algorithm. */
module Sorting {
  import opened Collections

  function Insert<T, K>(rank: T -> K, less: (K, K) -> bool, x: T, xs: seq<T>): seq<T> {
    if xs == [] then [x]
    else if less(rank(xs[0]), rank(x)) then [xs[0]] + Insert(rank, less, x, xs[1..])
    else [x] + xs
  }

  function StableSort<T, K>(rank: T -> K, less: (K, K) -> bool, xs: seq<T>): seq<T> {
    if xs == [] then [] else Insert(rank, less, xs[0], StableSort(rank, less, xs[1..]))
  }

  ghost predicate SortedBy<T, K>(rank: T -> K, less: (K, K) -> bool, xs: seq<T>) {
    forall i, j :: 0 <= i < j < |xs| ==> !less(rank(xs[j]), rank(xs[i]))
  }

  /** The elements of one rank, in order. */
  function OfRank<T(!new), K(==)>(rank: T -> K, k: K, xs: seq<T>): seq<T> {
    Filter((x: T) => rank(x) == k, xs)
  }

  lemma {:induction false} InsertKeepsElements<T, K>(rank: T -> K, less: (K, K) -> bool, x: T, xs: seq<T>)
    ensures multiset(Insert(rank, less, x, xs)) == multiset(xs) + multiset{x}
  {
    if xs != [] {
      assert xs == [xs[0]] + xs[1..];
      InsertKeepsElements(rank, less, x, xs[1..]);
    }
  }

  lemma {:induction false} InsertKeepsOrder<T(!new), K(!new)>(rank: T -> K, less: (K, K) -> bool, x: T, xs: seq<T>)
    requires StrictTotal(less) && SortedBy(rank, less, xs)
    ensures SortedBy(rank, less, Insert(rank, less, x, xs))
  {
    if xs != [] {
      if less(rank(xs[0]), rank(x)) {
        var rest := Insert(rank, less, x, xs[1..]);
        InsertKeepsOrder(rank, less, x, xs[1..]);
        InsertKeepsElements(rank, less, x, xs[1..]);
        forall y | y in rest ensures !less(rank(y), rank(xs[0])) {
          assert y in multiset(xs[1..]) + multiset{x};
        }
      } else {
        forall y | y in xs ensures !less(rank(y), rank(x)) {
          assert !less(rank(y), rank(xs[0]));
        }
      }
    }
  }

  lemma {:induction false} InsertIsStable<T(!new), K(!new)>(rank: T -> K, less: (K, K) -> bool, x: T, xs: seq<T>, k: K)
    requires StrictTotal(less)
    ensures OfRank(rank, k, Insert(rank, less, x, xs)) == (if rank(x) == k then [x] else []) + OfRank(rank, k, xs)
  {
    if xs != [] && less(rank(xs[0]), rank(x)) {
      InsertIsStable(rank, less, x, xs[1..], k);
      assert Insert(rank, less, x, xs)[1..] == Insert(rank, less, x, xs[1..]);
    } else {
      assert ([x] + xs)[1..] == xs && (xs == [] ==> [x] + xs == [x]);
    }
  }

  /** The result is a sorted permutation that keeps the order of equally ranked elements. */
  lemma {:induction false} StableSortCorrect<T(!new), K(!new)>(rank: T -> K, less: (K, K) -> bool, xs: seq<T>)
    requires StrictTotal(less)
    ensures multiset(StableSort(rank, less, xs)) == multiset(xs)
    ensures SortedBy(rank, less, StableSort(rank, less, xs))
    ensures forall k :: OfRank(rank, k, StableSort(rank, less, xs)) == OfRank(rank, k, xs)
  {
    if xs != [] {
      var rest := StableSort(rank, less, xs[1..]);
      StableSortCorrect(rank, less, xs[1..]);
      InsertKeepsElements(rank, less, xs[0], rest);
      InsertKeepsOrder(rank, less, xs[0], rest);
      assert xs == [xs[0]] + xs[1..];
      forall k ensures OfRank(rank, k, StableSort(rank, less, xs)) == OfRank(rank, k, xs) {
        InsertIsStable(rank, less, xs[0], rest, k);
      }
    }
  }

  lemma FirstOfRank<T(!new), K(!new)>(rank: T -> K, less: (K, K) -> bool, xs: seq<T>, ys: seq<T>)
    requires StrictTotal(less) && SortedBy(rank, less, xs) && SortedBy(rank, less, ys)
    requires forall k :: OfRank(rank, k, xs) == OfRank(rank, k, ys)
    requires xs != []
    ensures ys != [] && xs[0] == ys[0]
  {
    var k := rank(xs[0]);
    assert xs[0] in OfRank(rank, k, xs);
    assert xs[0] in OfRank(rank, k, ys);
    assert ys[0] in OfRank(rank, rank(ys[0]), ys);
    assert ys[0] in OfRank(rank, rank(ys[0]), xs);
    assert !less(rank(xs[0]), rank(ys[0])) by {
      var j :| 0 <= j < |ys| && ys[j] == xs[0];
    }
    assert !less(rank(ys[0]), rank(xs[0])) by {
      var i :| 0 <= i < |xs| && xs[i] == ys[0];
    }
    assert OfRank(rank, k, xs)[0] == xs[0] && OfRank(rank, k, ys)[0] == ys[0];
  }

  lemma OfRankTail<T(!new), K>(rank: T -> K, k: K, xs: seq<T>)
    requires xs != []
    ensures OfRank(rank, k, xs[1..]) == if rank(xs[0]) == k then OfRank(rank, k, xs)[1..] else OfRank(rank, k, xs)
  {}

  lemma AllOfRank<T(!new), K(!new)>(rank: T -> K, k: K, xs: seq<T>)
    requires forall x :: x in xs ==> rank(x) == k
    ensures OfRank(rank, k, xs) == xs
  {
    FilterAll((x: T) => rank(x) == k, xs);
  }

  /** Sorted listings are determined by their elements of each rank. */
  lemma {:induction false} SortedByUnique<T(!new), K(!new)>(rank: T -> K, less: (K, K) -> bool, xs: seq<T>, ys: seq<T>)
    requires StrictTotal(less) && SortedBy(rank, less, xs) && SortedBy(rank, less, ys)
    requires forall k :: OfRank(rank, k, xs) == OfRank(rank, k, ys)
    ensures xs == ys
    decreases |xs|
  {
    if xs == [] {
      if ys != [] { FirstOfRank(rank, less, ys, xs); }
    } else {
      FirstOfRank(rank, less, xs, ys);
      forall k ensures OfRank(rank, k, xs[1..]) == OfRank(rank, k, ys[1..]) {
        assert OfRank(rank, k, xs) == OfRank(rank, k, ys);
        OfRankTail(rank, k, xs);
        OfRankTail(rank, k, ys);
      }
      SortedByUnique(rank, less, xs[1..], ys[1..]);
      assert xs == [xs[0]] + xs[1..] && ys == [ys[0]] + ys[1..];
    }
  }
}
