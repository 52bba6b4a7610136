/** The stable sort by descending key that panes and detection rules are put through. */
module StableSort {
  import Insertion

  /** An element of equal key keeps its place in front. */
  function AtLeast<T>(key: T -> int): (T, T) -> bool {
    (x, y) => key(x) >= key(y)
  }

  /** `slices.SortStableFunc` comparing right key with left key. */
  function Sort<T>(xs: seq<T>, key: T -> int): seq<T> {
    Insertion.SortBy(xs, AtLeast(key))
  }

  ghost predicate Descending<T>(xs: seq<T>, key: T -> int) {
    forall i, j :: 0 <= i < j < |xs| ==> key(xs[i]) >= key(xs[j])
  }

  /** The elements with key `k`, in the order of the list. */
  function WithKey<T>(xs: seq<T>, key: T -> int, k: int): seq<T> {
    if xs == [] then []
    else (if key(xs[0]) == k then [xs[0]] else []) + WithKey(xs[1..], key, k)
  }

  lemma {:induction false} InsertDescending<T>(x: T, sorted: seq<T>, key: T -> int)
    requires Descending(sorted, key)
    ensures Descending(Insertion.Insert(x, sorted, AtLeast(key)), key)
  {
    if !(sorted == [] || key(x) >= key(sorted[0])) {
      var tail := Insertion.Insert(x, sorted[1..], AtLeast(key));
      InsertDescending(x, sorted[1..], key);
      forall i | 0 <= i < |tail| ensures key(tail[i]) <= key(sorted[0]) {
        Insertion.InsertMembers(x, sorted[1..], AtLeast(key), tail[i]);
      }
    }
  }

  function Own<T>(x: T, key: T -> int, k: int): seq<T> {
    if key(x) == k then [x] else []
  }

  lemma WithKeySplits<T>(x: T, xs: seq<T>, key: T -> int, k: int)
    ensures WithKey([x] + xs, key, k) == Own(x, key, k) + WithKey(xs, key, k)
  {
    assert ([x] + xs)[1..] == xs;
  }

  lemma InsertPasses<T>(x: T, head: T, tail: seq<T>, key: T -> int)
    requires key(x) < key(head)
    ensures Insertion.Insert(x, [head] + tail, AtLeast(key)) == [head] + Insertion.Insert(x, tail, AtLeast(key))
  {
    assert ([head] + tail)[1..] == tail;
  }

  lemma Swap<T>(a: seq<T>, b: seq<T>, c: seq<T>)
    requires a == [] || b == []
    ensures a + (b + c) == b + (a + c)
  {
    if a == [] {
      assert a + (b + c) == b + c && a + c == c;
    } else {
      assert b + c == c && b + (a + c) == a + c;
    }
  }

  lemma {:induction false} InsertKeepsOrder<T>(x: T, sorted: seq<T>, key: T -> int, k: int)
    ensures WithKey(Insertion.Insert(x, sorted, AtLeast(key)), key, k) == Own(x, key, k) + WithKey(sorted, key, k)
  {
    if sorted == [] || key(x) >= key(sorted[0]) {
      WithKeySplits(x, sorted, key, k);
    } else {
      var (head, tail) := (sorted[0], sorted[1..]);
      assert sorted == [head] + tail;
      InsertPasses(x, head, tail, key);
      InsertKeepsOrder(x, tail, key, k);
      WithKeySplits(head, Insertion.Insert(x, tail, AtLeast(key)), key, k);
      WithKeySplits(head, tail, key, k);
      Swap(Own(head, key, k), Own(x, key, k), WithKey(tail, key, k));
    }
  }

  lemma {:induction false} SortDescends<T>(xs: seq<T>, key: T -> int)
    ensures Descending(Sort(xs, key), key)
  {
    if xs != [] {
      SortDescends(xs[1..], key);
      InsertDescending(xs[0], Sort(xs[1..], key), key);
    }
  }

  lemma SortPermutes<T>(xs: seq<T>, key: T -> int)
    ensures multiset(Sort(xs, key)) == multiset(xs)
  {
    Insertion.SortPermutes(xs, AtLeast(key));
  }

  lemma SortMembers<T>(xs: seq<T>, key: T -> int, y: T)
    ensures y in Sort(xs, key) <==> y in xs
  {
    Insertion.SortMembers(xs, AtLeast(key), y);
  }

  /** Elements of equal key stay in input order. */
  lemma {:induction false} SortIsStable<T>(xs: seq<T>, key: T -> int, k: int)
    ensures WithKey(Sort(xs, key), key, k) == WithKey(xs, key, k)
  {
    if xs != [] {
      SortIsStable(xs[1..], key, k);
      InsertKeepsOrder(xs[0], Sort(xs[1..], key), key, k);
      assert xs == [xs[0]] + xs[1..];
      WithKeySplits(xs[0], xs[1..], key, k);
    }
  }
}
