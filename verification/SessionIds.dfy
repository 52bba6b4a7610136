/**
 * Registry IDs in short: the display cuts an ID after a few characters, looking only
 * at its neighbours in sorted order; the resolver has to find the session again.
 */
module SessionIds {
  import opened Options
  import opened Lexicographic

  const SHORT := 8

  // ---------------------------------------------------------------- shortening

  /** One past the last dash; 0 if there is none. */
  function AfterLastDash(id: string): (n: nat)
    ensures n <= |id|
    ensures n == 0 || id[n - 1] == '-'
    ensures '-' !in id[n..]
  {
    if id == [] || id[|id| - 1] == '-' then |id|
    else
      var n := AfterLastDash(id[..|id| - 1]);
      assert id[n..] == id[..|id| - 1][n..] + [id[|id| - 1]];
      n
  }

  function Prefix(id: string): string {
    id[..AfterLastDash(id)]
  }

  function Suffix(id: string): string {
    id[AfterLastDash(id)..]
  }

  /** A group prefix is empty or ends in a dash. */
  predicate IsPrefix(p: string) {
    p == "" || p[|p| - 1] == '-'
  }

  lemma SplitIsUnique(p: string, s: string)
    requires IsPrefix(p) && '-' !in s
    ensures Prefix(p + s) == p && Suffix(p + s) == s
  {
    var (id, n) := (p + s, AfterLastDash(p + s));
    assert p != "" ==> id[|p| - 1] == '-';
    forall i | n <= i < |id| ensures id[i] != '-' {
      assert id[n..][i - n] == id[i];
    }
    forall i | |p| <= i < |id| ensures id[i] != '-' {
      assert s[i - |p|] == id[i];
    }
  }

  /** `commonPrefixLength` */
  method CommonPrefixLength(left: string, right: string) returns (n: nat)
    ensures n == Common(left, right)
  {
    var limit := if |left| < |right| then |left| else |right|;
    for i := 0 to limit
      invariant left[..i] == right[..i]
    {
      if left[i] != right[i] {
        CommonIsLongest(left, right, i);
        CommonIsLongest(left, right, i + 1);
        assert left[..i + 1][i] == left[i];
        return i;
      }
    }
    CommonIsLongest(left, right, limit);
    return limit;
  }

  /** How many characters of a suffix are kept next to the given neighbours. */
  function Kept(suffix: string, previous: string, next: string): (n: nat)
    ensures n <= |suffix|
  {
    var a := Longer(suffix, if |suffix| < SHORT then |suffix| else SHORT, Common(suffix, previous));
    Longer(suffix, a, Common(suffix, next))
  }

  function Longer(suffix: string, length: nat, common: nat): (n: nat)
    requires length <= |suffix|
    ensures length <= n <= |suffix|
  {
    if common < length then length else if common + 1 < |suffix| then common + 1 else |suffix|
  }

  /** `abbreviatedRegistryID` */
  method AbbreviatedId(id: string, prefix: string, suffix: string, previous: string, next: string)
    returns (short: string)
    requires id == prefix + suffix
    ensures short == prefix + suffix[..Kept(suffix, previous, next)]
  {
    if |suffix| <= SHORT {
      assert suffix[..|suffix|] == suffix;
      return id;
    }
    var length := SHORT;
    var neighbours := [previous, next];
    for i := 0 to 2
      invariant length <= |suffix|
      invariant length == if i == 0 then SHORT
                          else if i == 1 then Longer(suffix, SHORT, Common(suffix, previous))
                          else Kept(suffix, previous, next)
    {
      var common := CommonPrefixLength(suffix, neighbours[i]);
      if common >= length {
        length := if common + 1 < |suffix| then common + 1 else |suffix|;
      }
    }
    return prefix + suffix[..length];
  }

  // ---------------------------------------------------------------- what a short form is

  /** `n` characters tell the suffix apart from every other one in the list, or are all it has. */
  ghost predicate TellsApart(suffixes: seq<string>, suffix: string, n: nat) {
    n <= |suffix| && (n == |suffix| || forall other :: other in suffixes && other != suffix ==> !(suffix[..n] <= other))
  }

  /** The short form, stated over all IDs of the group: as few characters as tell the ID apart, but at least eight. */
  ghost predicate IsShort(ids: seq<string>, id: string, short: string) {
    exists n: nat ::
      && n <= |Suffix(id)| && short == Prefix(id) + Suffix(id)[..n] && (n >= SHORT || n == |Suffix(id)|)
      && (n == |Suffix(id)| || forall other :: other in ids && other != id && Prefix(other) == Prefix(id)
                                               ==> !(short <= other))
      && (Distinct(ids) && n > SHORT ==> exists other :: other in ids && other != id && Prefix(other) == Prefix(id)
                                                         && short[..|short| - 1] <= other)
  }

  /** Among distinct IDs there is one such form only. */
  lemma ShortIsUnique(ids: seq<string>, id: string, a: string, b: string)
    requires Distinct(ids) && IsShort(ids, id, a) && IsShort(ids, id, b)
    ensures a == b
  {
    if |a| < |b| {
      ShorterFails(ids, id, a, b);
    } else if |b| < |a| {
      ShorterFails(ids, id, b, a);
    }
  }

  lemma ShorterFails(ids: seq<string>, id: string, a: string, b: string)
    requires Distinct(ids) && IsShort(ids, id, b) && |a| < |b|
    ensures !IsShort(ids, id, a)
  {
    ShortIsPrefix(ids, id, b);
    if IsShort(ids, id, a) {
      ShortIsPrefix(ids, id, a);
    }
  }

  function At(s: seq<string>, i: int): string {
    if 0 <= i < |s| then s[i] else ""
  }

  /** Comparing with the two neighbours is as good as comparing with the whole group. */
  lemma NeighboursSuffice(s: seq<string>, i: nat)
    requires Ascending(s) && i < |s|
    ensures var n := Kept(s[i], At(s, i - 1), At(s, i + 1));
            && TellsApart(s, s[i], n)
            && (n >= SHORT || n == |s[i]|)
            && (Distinct(s) && n > SHORT ==> exists j :: 0 <= j < |s| && j != i && s[i][..n - 1] <= s[j])
  {
    var n := Kept(s[i], At(s, i - 1), At(s, i + 1));
    if n < |s[i]| {
      forall other | other in s && other != s[i] ensures !(s[i][..n] <= other) {
        var j :| 0 <= j < |s| && s[j] == other;
        NeighboursShareMost(s, i, j);
        CommonIsLongest(s[i], s[j], n);
      }
    }
    if n > SHORT {
      CommonIsLongest(s[i], At(s, i - 1), n - 1);
      CommonIsLongest(s[i], At(s, i + 1), n - 1);
      assert n - 1 <= Common(s[i], At(s, i - 1)) || n - 1 <= Common(s[i], At(s, i + 1));
    }
  }

  // ---------------------------------------------------------------- the whole list

  /** The IDs sorted into groups by prefix, each group holding its suffixes. */
  ghost predicate Grouped(ids: seq<string>, groups: map<string, seq<string>>) {
    && (forall id :: id in ids ==> Prefix(id) in groups && Suffix(id) in groups[Prefix(id)])
    && (forall p, s :: p in groups && s in groups[p] ==> p + s in ids && Prefix(p + s) == p && Suffix(p + s) == s)
    && (Distinct(ids) ==> forall p :: p in groups ==> Distinct(groups[p]))
  }

  lemma PrefixCancels(p: string, a: string, b: string)
    ensures p + a <= p + b <==> a <= b
  {
    assert (p + a)[|p|..] == a && (p + b)[|p|..] == b;
    if p + a <= p + b {
      assert forall i :: 0 <= i < |a| ==> a[i] == (p + a)[|p| + i] == (p + b)[|p| + i] == b[i];
    }
  }

  lemma DistinctExtended<T>(s: seq<T>, x: T)
    ensures (forall i, j :: 0 <= i < j < |s + [x]| ==> (s + [x])[i] != (s + [x])[j])
            <==> (forall i, j :: 0 <= i < j < |s| ==> s[i] != s[j]) && x !in s
  {
    var t := s + [x];
    assert t[|s|] == x && forall i :: 0 <= i < |s| ==> t[i] == s[i];
    if x in s {
      var i :| 0 <= i < |s| && s[i] == x;
      assert t[i] == t[|s|];
    }
    if i, j :| 0 <= i < j < |s| && s[i] == s[j] {
      assert t[i] == t[j];
    }
  }

  lemma GroupedExtended(ids: seq<string>, groups: map<string, seq<string>>, id: string, p: string, s: string)
    requires Grouped(ids, groups) && p == Prefix(id) && s == Suffix(id) && p + s == id
    ensures Grouped(ids + [id], groups[p := (if p in groups then groups[p] else []) + [s]])
  {
    var earlier := if p in groups then groups[p] else [];
    var g := groups[p := earlier + [s]];
    if Distinct(ids + [id]) {
      DistinctExtended(ids, id);
      DistinctExtended(earlier, s);
      assert s !in earlier;
      assert Distinct(g[p]);
    }
    assert forall t :: t in g[p] ==> t == s || t in earlier;
  }

  /** `s` lists the suffixes of the group with prefix `p`. */
  ghost predicate IsGroup(ids: seq<string>, p: string, s: seq<string>) {
    && (forall id :: id in ids && Prefix(id) == p ==> Suffix(id) in s)
    && (forall t :: t in s ==> p + t in ids && Prefix(p + t) == p && Suffix(p + t) == t)
  }

  lemma ApartInGroup(ids: seq<string>, p: string, s: seq<string>, t: string, n: nat, other: string)
    requires IsGroup(ids, p, s) && t in s && TellsApart(s, t, n) && n < |t|
    requires other in ids && Prefix(other) == p && other != p + t
    ensures !(p + t[..n] <= other)
  {
    assert other == p + Suffix(other);
    PrefixCancels(p, t[..n], Suffix(other));
  }

  /** Nobody else in the group has this beginning. */
  lemma NoOtherBegins(ids: seq<string>, p: string, s: seq<string>, i: nat, n: nat)
    requires IsGroup(ids, p, s) && i < |s| && n < |s[i]| && TellsApart(s, s[i], n)
    ensures forall other :: other in ids && other != p + s[i] && Prefix(other) == p ==> !(p + s[i][..n] <= other)
  {
    assert s[i] in s;
    forall other | other in ids && other != p + s[i] && Prefix(other) == p ensures !(p + s[i][..n] <= other) {
      ApartInGroup(ids, p, s, s[i], n, other);
    }
  }

  /** With one character less, somebody has. */
  lemma AnotherBegins(ids: seq<string>, p: string, s: seq<string>, i: nat, n: nat, j: nat)
    requires IsGroup(ids, p, s) && Distinct(s) && i < |s| && 0 < n <= |s[i]|
    requires j < |s| && j != i && s[i][..n - 1] <= s[j]
    ensures exists other :: other in ids && other != p + s[i] && Prefix(other) == p
                            && (p + s[i][..n])[..|p + s[i][..n]| - 1] <= other
  {
    var short := p + s[i][..n];
    assert short[..|short| - 1] == p + s[i][..n - 1];
    assert s[j] in s && p + s[j] in ids;
    PrefixCancels(p, s[i][..n - 1], s[j]);
    PrefixCancels(p, s[i], s[j]);
    PrefixCancels(p, s[j], s[i]);
    assert p + s[j] != p + s[i];
  }

  lemma ShortInGroup(ids: seq<string>, p: string, s: seq<string>, i: nat)
    requires IsGroup(ids, p, s) && Ascending(s) && (Distinct(ids) ==> Distinct(s)) && i < |s|
    ensures p + s[i] in ids && IsShort(ids, p + s[i], p + s[i][..Kept(s[i], At(s, i - 1), At(s, i + 1))])
  {
    var n := Kept(s[i], At(s, i - 1), At(s, i + 1));
    NeighboursSuffice(s, i);
    assert s[i] in s;
    if n < |s[i]| {
      NoOtherBegins(ids, p, s, i, n);
    }
    if Distinct(ids) && n > SHORT {
      var j :| 0 <= j < |s| && j != i && s[i][..n - 1] <= s[j];
      AnotherBegins(ids, p, s, i, n, j);
    }
  }

  /** `byPrefix` as `abbreviatedRegistryIDs` builds it. */
  method GroupByPrefix(ids: seq<string>) returns (groups: map<string, seq<string>>)
    ensures Grouped(ids, groups)
  {
    groups := map[];
    for k := 0 to |ids|
      invariant Grouped(ids[..k], groups)
    {
      var (p, s) := (Prefix(ids[k]), Suffix(ids[k]));
      GroupedExtended(ids[..k], groups, ids[k], p, s);
      assert ids[..k] + [ids[k]] == ids[..k + 1];
      groups := groups[p := (if p in groups then groups[p] else []) + [s]];
    }
    assert ids[..|ids|] == ids;
  }

  /** The IDs with prefix `p` and the given suffixes. */
  function Joined(p: string, suffixes: seq<string>): set<string> {
    set s | s in suffixes :: p + s
  }

  lemma JoinedExtended(p: string, suffixes: seq<string>, i: nat)
    requires i < |suffixes|
    ensures Joined(p, suffixes[..i + 1]) == Joined(p, suffixes[..i]) + {p + suffixes[i]}
  {
    assert suffixes[..i + 1] == suffixes[..i] + [suffixes[i]];
  }

  /** Item `i` of a sorted group with the form its neighbours call for. */
  function Shortened(p: string, items: seq<string>, i: int): (string, string)
    requires 0 <= i < |items|
  {
    (p + items[i], p + items[i][..Kept(items[i], At(items, i - 1), At(items, i + 1))])
  }

  ghost predicate Covered(p: string, items: seq<string>, shorts: iset<(string, string)>) {
    forall i :: 0 <= i < |items| ==> Shortened(p, items, i) in shorts
  }

  method AbbreviateItem(
    prefix: string, items: seq<string>, i: nat, before: map<string, string>, ghost shorts: iset<(string, string)>)
    returns (result: map<string, string>)
    requires i < |items| && Covered(prefix, items, shorts)
    requires forall id :: id in before ==> (id, before[id]) in shorts
    ensures result.Keys == before.Keys + {prefix + items[i]}
    ensures forall id :: id in result ==> (id, result[id]) in shorts
  {
    var id := prefix + items[i];
    var short := AbbreviatedId(id, prefix, items[i], At(items, i - 1), At(items, i + 1));
    assert (id, short) == Shortened(prefix, items, i);
    result := before[id := short];
  }

  /** One group of `abbreviatedRegistryIDs`, its suffixes sorted; `shorts` holds the pairs allowed into the result. */
  method AbbreviateGroup(
    prefix: string, items: seq<string>, before: map<string, string>, ghost shorts: iset<(string, string)>)
    returns (result: map<string, string>)
    requires forall id :: id in before ==> (id, before[id]) in shorts
    requires Covered(prefix, items, shorts)
    ensures result.Keys == before.Keys + Joined(prefix, items)
    ensures forall id :: id in result ==> (id, result[id]) in shorts
  {
    result := before;
    for i := 0 to |items|
      invariant result.Keys == before.Keys + Joined(prefix, items[..i])
      invariant forall id :: id in result ==> (id, result[id]) in shorts
    {
      JoinedExtended(prefix, items, i);
      result := AbbreviateItem(prefix, items, i, result, shorts);
    }
    assert items[..|items|] == items;
  }

  ghost function Shorts(ids: seq<string>): iset<(string, string)> {
    iset id, short | id in ids && IsShort(ids, id, short) :: (id, short)
  }

  lemma GroupIsCovered(ids: seq<string>, groups: map<string, seq<string>>, p: string)
    requires Grouped(ids, groups) && p in groups
    ensures var items := Sort(groups[p]);
            && Covered(p, items, Shorts(ids))
            && forall id :: id in ids && Prefix(id) == p ==> id in Joined(p, items)
  {
    var items := Sort(groups[p]);
    SortSorts(groups[p]);
    forall i | 0 <= i < |items|
      ensures Shortened(p, items, i) in Shorts(ids)
    {
      ShortInGroup(ids, p, items, i);
    }
    forall id | id in ids && Prefix(id) == p ensures id in Joined(p, items) {
      assert Suffix(id) in items && id == p + Suffix(id);
    }
  }

  /** `abbreviatedRegistryIDs` */
  method AbbreviatedIds(ids: seq<string>) returns (result: map<string, string>)
    ensures forall id :: id in result <==> id in ids
    ensures forall id :: id in ids ==> IsShort(ids, id, result[id])
  {
    var groups := GroupByPrefix(ids);
    ghost var shorts := Shorts(ids);
    result := map[];
    var rest := groups.Keys;
    while rest != {}
      invariant rest <= groups.Keys
      invariant forall id :: id in ids && Prefix(id) !in rest ==> id in result
      invariant forall id :: id in result ==> (id, result[id]) in shorts
      decreases |rest|
    {
      var prefix :| prefix in rest;
      rest := rest - {prefix};
      GroupIsCovered(ids, groups, prefix);
      result := AbbreviateGroup(prefix, Sort(groups[prefix]), result, shorts);
    }
  }

  // ---------------------------------------------------------------- distinctness

  /**
   * A group prefix `q` that goes on after `p` for at least eight characters without
   * a dash: those eight could be the short form of an ID of group `p`.
   */
  predicate Confusable(p: string, q: string) {
    |p| + SHORT <= |q| && p <= q && '-' !in q[|p|..|p| + SHORT]
  }

  ghost predicate NoConfusion(ids: seq<string>) {
    forall a, b :: a in ids && b in ids ==> !Confusable(Prefix(a), Prefix(b))
  }

  /** Only an ID of a confusable group can begin like the short form of an ID of another group. */
  lemma StrangersAreConfusable(p: string, shown: string, y: string)
    requires IsPrefix(p) && '-' !in shown && |shown| >= SHORT && p + shown <= y && Prefix(y) != p
    ensures Confusable(p, Prefix(y))
  {
    var q := Prefix(y);
    forall i | |q| <= i < |y| ensures y[i] != '-' {
      assert y[i] == Suffix(y)[i - |q|];
    }
    assert p != "" ==> y[|p| - 1] == '-';
    assert |p| <= |q| && q[..|p|] == p;
    forall i | |p| <= i < |p| + |shown| ensures y[i] != '-' {
      assert y[i] == shown[i - |p|];
    }
    assert y[|q| - 1] == '-';
    assert q[|p|..|p| + SHORT] == shown[..SHORT];
  }

  /** A short form that is not the whole ID is a prefix of no other ID in the list. */
  lemma OnlyOwnIdMatches(ids: seq<string>, x: string, short: string, y: string)
    requires NoConfusion(ids) && x in ids && y in ids && x != y && IsShort(ids, x, short) && short <= y
    ensures short == x
  {
    var p := Prefix(x);
    var n: nat :| n <= |Suffix(x)| && short == p + Suffix(x)[..n] && (n >= SHORT || n == |Suffix(x)|)
      && (n == |Suffix(x)| || forall other :: other in ids && other != x && Prefix(other) == p ==> !(short <= other));
    if n == |Suffix(x)| {
      assert Suffix(x)[..n] == Suffix(x);
    } else if Prefix(y) != p {
      StrangersAreConfusable(p, Suffix(x)[..n], y);
    }
  }

  /** Different IDs are shown differently. */
  lemma ShortFormsDiffer(ids: seq<string>, x: string, y: string, short: string)
    requires NoConfusion(ids) && x in ids && y in ids
    requires IsShort(ids, x, short) && IsShort(ids, y, short)
    ensures x == y
  {
    if x != y {
      ShortIsPrefix(ids, x, short);
      ShortIsPrefix(ids, y, short);
      OnlyOwnIdMatches(ids, x, short, y);
      OnlyOwnIdMatches(ids, y, short, x);
    }
  }

  lemma ShortIsPrefix(ids: seq<string>, x: string, short: string)
    requires IsShort(ids, x, short)
    ensures short <= x
  {
    assert x == Prefix(x) + Suffix(x);
  }
}
