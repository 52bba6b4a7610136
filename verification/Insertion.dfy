/** Sorting by insertion, for any order. */
module Insertion {

  /** Put `x` before the first element it fits before: `x` came earlier in the input. */
  function Insert<T>(x: T, sorted: seq<T>, fits: (T, T) -> bool): seq<T> {
    if sorted == [] || fits(x, sorted[0]) then [x] + sorted
    else [sorted[0]] + Insert(x, sorted[1..], fits)
  }

  function SortBy<T>(xs: seq<T>, fits: (T, T) -> bool): seq<T> {
    if xs == [] then [] else Insert(xs[0], SortBy(xs[1..], fits), fits)
  }

  lemma {:induction false} InsertPermutes<T>(x: T, sorted: seq<T>, fits: (T, T) -> bool)
    ensures multiset(Insert(x, sorted, fits)) == multiset{x} + multiset(sorted)
  {
    if !(sorted == [] || fits(x, sorted[0])) {
      InsertPermutes(x, sorted[1..], fits);
      assert sorted == [sorted[0]] + sorted[1..];
    }
  }

  lemma InsertMembers<T>(x: T, sorted: seq<T>, fits: (T, T) -> bool, y: T)
    ensures y in Insert(x, sorted, fits) <==> y == x || y in sorted
  {
    InsertPermutes(x, sorted, fits);
    assert y in Insert(x, sorted, fits) <==> y in multiset(Insert(x, sorted, fits));
    assert y in sorted <==> y in multiset(sorted);
  }

  lemma {:induction false} SortPermutes<T>(xs: seq<T>, fits: (T, T) -> bool)
    ensures multiset(SortBy(xs, fits)) == multiset(xs)
  {
    if xs != [] {
      SortPermutes(xs[1..], fits);
      InsertPermutes(xs[0], SortBy(xs[1..], fits), fits);
      assert xs == [xs[0]] + xs[1..];
    }
  }

  lemma SortMembers<T>(xs: seq<T>, fits: (T, T) -> bool, y: T)
    ensures y in SortBy(xs, fits) <==> y in xs
  {
    SortPermutes(xs, fits);
    assert y in SortBy(xs, fits) <==> y in multiset(SortBy(xs, fits));
    assert y in xs <==> y in multiset(xs);
  }
}
