/** Picking the first match from a list sorted by priority. */
module FirstInLine {
  import opened StableSort

  /** The first element in line that passes. */
  function FirstMatch<T>(xs: seq<T>, test: T -> bool): (n: nat)
    ensures n <= |xs|
  {
    if xs == [] || test(xs[0]) then 0 else 1 + FirstMatch(xs[1..], test)
  }

  lemma {:induction false} FirstMatchIsFirst<T>(xs: seq<T>, test: T -> bool)
    ensures var n := FirstMatch(xs, test);
            (n < |xs| ==> test(xs[n])) && forall i :: 0 <= i < n ==> !test(xs[i])
  {
    if xs != [] && !test(xs[0]) {
      var rest := xs[1..];
      FirstMatchIsFirst(rest, test);
      assert forall i :: 0 < i < |xs| ==> xs[i] == rest[i - 1];
    }
  }

  lemma FirstMatchIs<T>(xs: seq<T>, test: T -> bool, n: nat)
    requires n < |xs| && test(xs[n]) && forall i :: 0 <= i < n ==> !test(xs[i])
    ensures FirstMatch(xs, test) == n
  {
    FirstMatchIsFirst(xs, test);
  }

  lemma FirstMatchAfter<T>(first: T, rest: seq<T>, test: T -> bool)
    ensures FirstMatch([first] + rest, test) == if test(first) then 0 else 1 + FirstMatch(rest, test)
  {
    assert ([first] + rest)[1..] == rest;
  }

  lemma WithKeyAfter<T>(xs: seq<T>, key: T -> int, k: int)
    requires xs != []
    ensures WithKey(xs, key, k) == if key(xs[0]) == k then [xs[0]] + WithKey(xs[1..], key, k) else WithKey(xs[1..], key, k)
  {
  }

  /** The first match is also the first among the elements of its own key. */
  lemma {:induction false} FirstAmongEquals<T>(xs: seq<T>, test: T -> bool, key: T -> int, k: int)
    requires var n := FirstMatch(xs, test); n < |xs| && key(xs[n]) == k
    ensures var (ys, n) := (WithKey(xs, key, k), FirstMatch(xs, test));
            FirstMatch(ys, test) < |ys| && ys[FirstMatch(ys, test)] == xs[n]
  {
    WithKeyAfter(xs, key, k);
    FirstMatchAfter(xs[0], WithKey(xs[1..], key, k), test);
    FirstMatchIsFirst(xs, test);
    if !test(xs[0]) {
      FirstAmongEquals(xs[1..], test, key, k);
    }
  }

  /** `w` is the place of the first match with key `k`, which is `x`. */
  ghost predicate FirstAt<T>(xs: seq<T>, test: T -> bool, key: T -> int, k: int, w: nat, x: T) {
    && w < |xs| && test(xs[w]) && key(xs[w]) == k && xs[w] == x
    && forall i :: 0 <= i < w && test(xs[i]) ==> key(xs[i]) != k
  }

  lemma FirstAtLater<T>(head: T, rest: seq<T>, test: T -> bool, key: T -> int, k: int, w: nat, x: T)
    requires FirstAt(rest, test, key, k, w, x) && !(test(head) && key(head) == k)
    ensures FirstAt([head] + rest, test, key, k, w + 1, x)
  {
    assert forall i :: 0 < i < w + 1 ==> ([head] + rest)[i] == rest[i - 1];
  }

  /** Where in the list the first match with key `k` stands. */
  lemma {:induction false} PlaceOfFirst<T>(xs: seq<T>, test: T -> bool, key: T -> int, k: int, m: nat) returns (w: nat)
    requires m == FirstMatch(WithKey(xs, key, k), test) < |WithKey(xs, key, k)|
    ensures FirstAt(xs, test, key, k, w, WithKey(xs, key, k)[m])
  {
    var (head, rest) := (xs[0], xs[1..]);
    assert xs == [head] + rest;
    WithKeyAfter(xs, key, k);
    FirstMatchAfter(head, WithKey(rest, key, k), test);
    if key(head) == k && test(head) {
      w := 0;
    } else {
      var n := FirstMatch(WithKey(rest, key, k), test);
      var v := PlaceOfFirst(rest, test, key, k, n);
      FirstAtLater(head, rest, test, key, k, v, WithKey(rest, key, k)[n]);
      w := v + 1;
    }
  }

  /** `w` is the match of highest key, and the first of these in the list. */
  ghost predicate Wins<T>(xs: seq<T>, test: T -> bool, key: T -> int, w: nat) {
    && w < |xs| && test(xs[w])
    && (forall i :: 0 <= i < |xs| && test(xs[i]) ==> key(xs[i]) <= key(xs[w]))
    && (forall i :: 0 <= i < w && test(xs[i]) ==> key(xs[i]) < key(xs[w]))
  }

  /** `sorted` is `xs` in descending order, equals in their order. */
  ghost predicate SortedFrom<T>(xs: seq<T>, sorted: seq<T>, key: T -> int) {
    && Descending(sorted, key)
    && (forall y :: y in xs ==> y in sorted)
    && (forall k :: WithKey(sorted, key, k) == WithKey(xs, key, k))
  }

  lemma SortIsSortedFrom<T>(xs: seq<T>, key: T -> int)
    ensures SortedFrom(xs, Sort(xs, key), key)
  {
    SortDescends(xs, key);
    forall y | y in xs ensures y in Sort(xs, key) {
      SortMembers(xs, key, y);
    }
    forall k ensures WithKey(Sort(xs, key), key, k) == WithKey(xs, key, k) {
      SortIsStable(xs, key, k);
    }
  }

  lemma FirstIsHighest<T>(sorted: seq<T>, test: T -> bool, key: T -> int, x: T)
    requires Descending(sorted, key) && x in sorted && test(x)
    ensures var n := FirstMatch(sorted, test); n < |sorted| && key(x) <= key(sorted[n])
  {
    FirstMatchIsFirst(sorted, test);
    var j :| 0 <= j < |sorted| && sorted[j] == x;
  }

  /** Picking from the sorted list is picking by key, and by place in the list among equals. */
  lemma FirstInLineWins<T>(xs: seq<T>, sorted: seq<T>, test: T -> bool, key: T -> int)
    requires SortedFrom(xs, sorted, key)
    ensures var n := FirstMatch(sorted, test);
            if n < |sorted| then exists w: nat :: Wins(xs, test, key, w) && xs[w] == sorted[n]
            else forall i :: 0 <= i < |xs| ==> !test(xs[i])
  {
    var n := FirstMatch(sorted, test);
    forall i | 0 <= i < |xs| && test(xs[i]) ensures n < |sorted| && key(xs[i]) <= key(sorted[n]) {
      FirstIsHighest(sorted, test, key, xs[i]);
    }
    if n < |sorted| {
      var k := key(sorted[n]);
      FirstAmongEquals(sorted, test, key, k);
      var w := PlaceOfFirst(xs, test, key, k, FirstMatch(WithKey(xs, key, k), test));
      assert Wins(xs, test, key, w);
    }
  }
}
