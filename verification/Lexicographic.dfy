/** Byte-wise order of strings, common prefixes, and how the two fit together. */
module Lexicographic {
  import Insertion

  /** `strings.Compare(a, b) <= 0` */
  predicate Leq(a: string, b: string) {
    a == [] || (b != [] && (a[0] < b[0] || (a[0] == b[0] && Leq(a[1..], b[1..]))))
  }

  function Common(a: string, b: string): (n: nat)
    ensures n <= |a| && n <= |b|
  {
    if a == [] || b == [] || a[0] != b[0] then 0 else 1 + Common(a[1..], b[1..])
  }

  predicate Ascending(s: seq<string>) {
    forall i, j :: 0 <= i < j < |s| ==> Leq(s[i], s[j])
  }

  predicate Distinct(s: seq<string>) {
    forall i, j :: 0 <= i < j < |s| ==> s[i] != s[j]
  }

  lemma {:induction false} LeqTotal(a: string, b: string)
    ensures Leq(a, b) || Leq(b, a)
  {
    if a != [] && b != [] && a[0] == b[0] {
      LeqTotal(a[1..], b[1..]);
    }
  }

  lemma {:induction false} LeqTransitive(a: string, b: string, c: string)
    requires Leq(a, b) && Leq(b, c)
    ensures Leq(a, c)
  {
    if a != [] && a[0] == b[0] == c[0] {
      LeqTransitive(a[1..], b[1..], c[1..]);
    }
  }

  /** A string is a prefix of another up to just the length they have in common. */
  lemma {:induction false} CommonIsLongest(a: string, b: string, n: nat)
    requires n <= |a|
    ensures a[..n] <= b <==> n <= Common(a, b)
  {
    if n > 0 && b != [] {
      assert a[..n][0] == a[0] && a[..n][1..] == a[1..][..n - 1];
      if a[0] == b[0] {
        CommonIsLongest(a[1..], b[1..], n - 1);
        assert a[..n] <= b <==> a[1..][..n - 1] <= b[1..];
      }
    }
  }

  lemma {:induction false} CommonSymmetric(a: string, b: string)
    ensures Common(a, b) == Common(b, a)
  {
    if a != [] && b != [] && a[0] == b[0] {
      CommonSymmetric(a[1..], b[1..]);
    }
  }

  /** Whatever lies between two strings shares at least as much with each as they share with one another. */
  lemma {:induction false} BetweenSharesMore(a: string, b: string, c: string)
    requires Leq(a, b) && Leq(b, c)
    ensures Common(a, c) <= Common(a, b) && Common(a, c) <= Common(b, c)
  {
    if a != [] && c != [] && a[0] == c[0] {
      BetweenSharesMore(a[1..], b[1..], c[1..]);
    }
  }

  /** In a sorted list no other entry shares more with entry `i` than one of its two neighbours does. */
  lemma NeighboursShareMost(s: seq<string>, i: nat, j: nat)
    requires Ascending(s) && i < |s| && j < |s| && i != j
    ensures i < j ==> Common(s[i], s[j]) <= Common(s[i], s[i + 1])
    ensures j < i ==> Common(s[i], s[j]) <= Common(s[i], s[i - 1])
  {
    if i + 1 < j {
      BetweenSharesMore(s[i], s[i + 1], s[j]);
    } else if j < i - 1 {
      BetweenSharesMore(s[j], s[i - 1], s[i]);
      CommonSymmetric(s[i], s[j]);
      CommonSymmetric(s[i], s[i - 1]);
    }
  }

  /** Any sort will do here: equal strings cannot be told apart. */
  function Sort(s: seq<string>): seq<string> {
    Insertion.SortBy(s, Leq)
  }

  lemma {:induction false} InsertAscends(x: string, s: seq<string>)
    requires Ascending(s)
    ensures Ascending(Insertion.Insert(x, s, Leq))
  {
    if s == [] {
    } else if Leq(x, s[0]) {
      forall j | 0 < j < |s| ensures Leq(x, s[j]) {
        LeqTransitive(x, s[0], s[j]);
      }
    } else {
      LeqTotal(x, s[0]);
      InsertAscends(x, s[1..]);
      var r := Insertion.Insert(x, s[1..], Leq);
      forall j | 0 <= j < |r| ensures Leq(s[0], r[j]) {
        Insertion.InsertMembers(x, s[1..], Leq, r[j]);
      }
    }
  }

  lemma DistinctBySize(s: seq<string>)
    ensures Distinct(s) <==> forall y :: multiset(s)[y] <= 1
  {
    forall i, j | 0 <= i < j < |s| && s[i] == s[j] ensures multiset(s)[s[i]] >= 2 {
      assert s == s[..i] + [s[i]] + s[i + 1..j] + [s[j]] + s[j + 1..];
    }
    if Distinct(s) {
      forall y ensures multiset(s)[y] <= 1 {
        AtMostOnce(s, y);
      }
    }
  }

  lemma {:induction false} AtMostOnce(s: seq<string>, y: string)
    requires Distinct(s)
    ensures multiset(s)[y] <= 1
  {
    if s != [] {
      AtMostOnce(s[1..], y);
      assert s == [s[0]] + s[1..];
    }
  }

  lemma SortSorts(s: seq<string>)
    ensures |Sort(s)| == |s| && Ascending(Sort(s))
    ensures forall y :: y in Sort(s) <==> y in s
    ensures Distinct(s) ==> Distinct(Sort(s))
  {
    forall y ensures y in Sort(s) <==> y in s { Insertion.SortMembers(s, Leq, y); }
    Insertion.SortPermutes(s, Leq);
    assert |multiset(Sort(s))| == |multiset(s)|;
    DistinctBySize(s);
    DistinctBySize(Sort(s));
    SortAscends(s);
  }

  lemma {:induction false} SortAscends(s: seq<string>)
    ensures Ascending(Sort(s))
  {
    if s != [] {
      SortAscends(s[1..]);
      InsertAscends(s[0], Sort(s[1..]));
    }
  }
}
