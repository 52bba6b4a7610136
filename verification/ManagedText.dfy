/** A marked block of text kept in a file owned by someone else. */
module ManagedText {
  import opened Options
  import opened Text

  /** Two texts can overlap so that `b` begins within `a`. */
  predicate Overlaps(a: string, b: string, k: int)
    requires 0 <= k < |a|
  {
    a[k..] <= b || b <= a[k..]
  }

  /** Markers without line breaks, of which the second cannot begin inside the first. */
  datatype Markers = Markers(start: string, end: string)

  ghost predicate Sound(m: Markers) {
    && m.start != "" && '\n' !in m.start
    && forall k :: 0 <= k < |m.start| ==> !Overlaps(m.start, m.end, k)
  }

  /** `strings.TrimRight(s, " \t\r\n")` */
  function TrimEnd(s: string): string {
    if s != "" && s[|s| - 1] in {' ', '\t', '\r', '\n'} then TrimEnd(s[..|s| - 1]) else s
  }

  /** `strings.TrimLeft(s, "\r\n")` */
  function TrimStart(s: string): string {
    if s != "" && s[0] in {'\r', '\n'} then TrimStart(s[1..]) else s
  }

  /** What is left around a removed block, with one blank line between the two parts. */
  function Seam(before: string, after: string): string {
    var (b, a) := (TrimEnd(before), TrimStart(after));
    if b == "" then a else if a == "" then b else b + "\n\n" + a
  }

  lemma {:induction false} TrimEndFacts(s: string)
    ensures TrimEnd(s) <= s && TrimEnd(TrimEnd(s)) == TrimEnd(s)
    ensures TrimEnd(s + "\n") == TrimEnd(s)
  {
    assert (s + "\n")[..|s|] == s;
    if s != "" && s[|s| - 1] in {' ', '\t', '\r', '\n'} {
      TrimEndFacts(s[..|s| - 1]);
    }
  }

  lemma {:induction false} TrimStartFacts(s: string)
    ensures |TrimStart(s)| <= |s| && TrimStart(s) == s[|s| - |TrimStart(s)|..]
  {
    if s != "" && s[0] in {'\r', '\n'} {
      TrimStartFacts(s[1..]);
    }
  }

  // ---------------------------------------------------------------- occurrences

  lemma OverlapSeen(a: string, b: string, t: string, j: int)
    requires a <= t && At(t, b, j) && j < |a|
    ensures Overlaps(a, b, j)
  {
    assert a[j..] == t[j..|a|];
    assert b == t[j..j + |b|];
    if |b| <= |a| - j {
      assert b == a[j..][..|b|];
    } else {
      assert a[j..] == b[..|a| - j];
    }
  }

  lemma EndComesAfterStart(m: Markers, s: string, i: int, j: int)
    requires Sound(m) && At(s, m.start, i) && At(s[i..], m.end, j)
    ensures j >= |m.start|
  {
    assert s[i..][..|m.start|] == m.start;
    if j < |m.start| {
      OverlapSeen(m.start, m.end, s[i..], j);
    }
  }

  lemma CharInside(s: string, part: string, p: int, q: int)
    requires At(s, part, p) && p <= q < p + |part|
    ensures s[q] in part
  {
    assert part[q - p] == s[p..p + |part|][q - p];
  }

  /** A text without line breaks lies on one side of the seam or the other. */
  lemma OneSideOfSeam(b: string, a: string, part: string, p: int)
    requires part != "" && '\n' !in part && At(b + "\n\n" + a, part, p)
    ensures At(b, part, p) || (p >= |b| + 2 && At(a, part, p - |b| - 2))
  {
    var s := b + "\n\n" + a;
    if p < |b| < p + |part| {
      CharInside(s, part, p, |b|);
    } else if |b| <= p < |b| + 2 {
      CharInside(s, part, p, p);
    } else if p < |b| {
      assert b[p..p + |part|] == s[p..p + |part|];
    } else {
      assert a[p - |b| - 2..p - |b| - 2 + |part|] == s[p..p + |part|];
    }
  }

  ghost predicate Absent(s: string, part: string) {
    forall i :: !At(s, part, i)
  }

  lemma AbsentIndex(s: string, part: string)
    ensures Absent(s, part) <==> Index(s, part) < 0
  {
    IndexIsFirst(s, part);
  }

  lemma AbsentInPrefix(s: string, part: string, t: string)
    requires Absent(s, part) && t <= s
    ensures Absent(t, part)
  {
    forall i | At(t, part, i) ensures At(s, part, i) {
      assert t[i..i + |part|] == s[i..i + |part|];
    }
  }

  /** No start marker begins in front of the text after the seam. */
  lemma NothingBeforeSeam(m: Markers, before: string, after: string, p: int)
    requires Sound(m) && Absent(before, m.start) && At(Seam(before, after), m.start, p)
    ensures |Seam(before, after)| - p <= |after|
  {
    var (b, a) := (TrimEnd(before), TrimStart(after));
    TrimEndFacts(before);
    TrimStartFacts(after);
    AbsentInPrefix(before, m.start, b);
    if b != "" && a != "" {
      OneSideOfSeam(b, a, m.start, p);
    }
  }

  // ---------------------------------------------------------------- removal

  /** How much of the text is left to look at: what begins at the first start marker. */
  function Left(s: string, start: string): nat {
    if Index(s, start) < 0 || Index(s, start) > |s| then 0 else |s| - Index(s, start)
  }

  lemma FirstLeavesNothingBefore(s: string, part: string)
    requires part != "" && Index(s, part) >= 0
    ensures var i := Index(s, part); At(s, part, i) && i < |s| && Absent(s[..i], part)
  {
    IndexIsFirst(s, part);
    var i := Index(s, part);
    forall p | At(s[..i], part, p) ensures At(s, part, p) && p < i {
      assert s[..i][p..p + |part|] == s[p..p + |part|];
    }
  }

  /** The block that begins with the first start marker: its end relative to that, if it is well formed. */
  function BlockEnd(m: Markers, s: string, i: int): Option<int>
    requires 0 <= i <= |s|
  {
    var j := Index(s[i..], m.end);
    if j < |m.start| || i + j > |s| || Contains(s[i + |m.start|..i + j], m.start) then None else Some(j + |m.end|)
  }

  lemma BlockFits(m: Markers, s: string, i: int)
    requires 0 <= i <= |s| && BlockEnd(m, s, i).Some?
    ensures |m.start| <= BlockEnd(m, s, i).value && i + BlockEnd(m, s, i).value <= |s|
  {
    IndexIsFirst(s[i..], m.end);
  }

  lemma SeamIsShorter(m: Markers, before: string, after: string)
    requires Sound(m) && Absent(before, m.start)
    ensures Left(Seam(before, after), m.start) <= |after|
  {
    var next := Seam(before, after);
    if Index(next, m.start) >= 0 {
      FirstLeavesNothingBefore(next, m.start);
      NothingBeforeSeam(m, before, after, Index(next, m.start));
    }
  }

  lemma LeftFrom(m: Markers, s: string, i: int)
    requires i == Index(s, m.start) && 0 <= i <= |s|
    ensures Left(s, m.start) == |s| - i
  {
  }

  lemma SeamAtLeavesLess(m: Markers, s: string, i: int, n: int)
    requires Sound(m) && i == Index(s, m.start) && 0 <= i <= |s| && Absent(s[..i], m.start)
    requires |m.start| <= n && i + n <= |s|
    ensures Left(Seam(s[..i], s[i + n..]), m.start) < Left(s, m.start)
  {
    SeamIsShorter(m, s[..i], s[i + n..]);
    LeftFrom(m, s, i);
  }

  lemma SeamLeavesLess(m: Markers, s: string, i: int, n: int)
    requires Sound(m) && i == Index(s, m.start) && 0 <= i <= |s| && BlockEnd(m, s, i) == Some(n)
    ensures 0 <= n && i + n <= |s| && Left(Seam(s[..i], s[i + n..]), m.start) < Left(s, m.start)
  {
    FirstLeavesNothingBefore(s, m.start);
    BlockFits(m, s, i);
    SeamAtLeavesLess(m, s, i, n);
  }

  /** The text without its first block. */
  ghost function Next(m: Markers, s: string): (t: Option<string>)
    requires Sound(m) && Index(s, m.start) >= 0
    ensures t.Some? ==> Left(t.value, m.start) < Left(s, m.start)
  {
    FirstLeavesNothingBefore(s, m.start);
    var i := Index(s, m.start);
    match BlockEnd(m, s, i)
    case None => None
    case Some(n) =>
      SeamLeavesLess(m, s, i, n);
      Some(Seam(s[..i], s[i + n..]))
  }

  /** The text without any block; `None` for markers that do not match. */
  ghost function Removed(m: Markers, s: string): (r: Option<string>)
    requires Sound(m)
    ensures r.Some? ==> Index(r.value, m.start) < 0
    decreases Left(s, m.start)
  {
    if Index(s, m.start) < 0 then Some(s)
    else
      match Next(m, s)
      case None => None
      case Some(t) => Removed(m, t)
  }

  /** The checks of `removeManagedTextBlock` on the block that starts at `i`. */
  method FindBlockEnd(m: Markers, s: string, i: int) returns (n: Option<int>)
    requires Sound(m) && At(s, m.start, i)
    ensures n == BlockEnd(m, s, i)
  {
    var j := Index(s[i..], m.end);
    if j >= 0 {
      IndexIsFirst(s[i..], m.end);
      EndComesAfterStart(m, s, i, j);
    }
    if j < 0 || Contains(s[i + |m.start|..i + j], m.start) {
      return None;
    }
    return Some(j + |m.end|);
  }

  /** `removeManagedTextBlock`: it always ends, and what it returns holds no start marker. */
  method RemoveBlocks(m: Markers, text: string) returns (r: Option<string>)
    requires Sound(m)
    ensures r == Removed(m, text)
    ensures r.Some? ==> Absent(r.value, m.start)
  {
    var current := text;
    var i := Index(current, m.start);
    while i >= 0
      invariant i == Index(current, m.start) && Removed(m, text) == Removed(m, current)
      decreases Left(current, m.start)
    {
      FirstLeavesNothingBefore(current, m.start);
      var n := FindBlockEnd(m, current, i);
      if n.None? {
        return None;
      }
      SeamLeavesLess(m, current, i, n.value);
      current := Seam(current[..i], current[i + n.value..]);
      i := Index(current, m.start);
    }
    AbsentIndex(current, m.start);
    return Some(current);
  }

  // ---------------------------------------------------------------- installation

  /** `appendManagedTextBlock` */
  function Append(current: string, block: string): string {
    if TrimEnd(current) == "" then block else TrimEnd(current) + "\n\n" + block
  }

  function Installed(text: Option<string>, block: string): Option<string> {
    if text.None? then None else Some(Append(text.value, block))
  }

  predicate LineBreaks(s: string) {
    forall c :: c in s ==> c == '\r' || c == '\n'
  }

  /** A block as the plans write it: the start marker, a body free of both markers, the end marker, line breaks. */
  ghost predicate Framed(m: Markers, block: string) {
    exists body, tail :: FramedBy(m, block, body, tail)
  }

  ghost predicate FramedBy(m: Markers, block: string, body: string, tail: string) {
    && block == m.start + body + m.end + tail && LineBreaks(tail)
    && Index(block, m.end) == |m.start| + |body| && Absent(body, m.start)
  }

  // ---------------------------------------------------------------- the rest of the text

  /** The text without blanks and line breaks. */
  function Ink(s: string): string {
    if s == "" then ""
    else Ink(s[..|s| - 1]) + if s[|s| - 1] in {' ', '\t', '\r', '\n'} then "" else [s[|s| - 1]]
  }

  lemma {:induction false} InkAppends(a: string, b: string)
    ensures Ink(a + b) == Ink(a) + Ink(b)
  {
    if b == "" {
      assert a + b == a;
    } else {
      var (init, last) := (b[..|b| - 1], b[|b| - 1]);
      InkAppends(a, init);
      assert (a + b)[..|a + b| - 1] == a + init && (a + b)[|a + b| - 1] == last;
    }
  }

  lemma {:induction false} InkTrimmedEnd(s: string)
    ensures Ink(TrimEnd(s)) == Ink(s)
  {
    if s != "" && s[|s| - 1] in {' ', '\t', '\r', '\n'} {
      InkTrimmedEnd(s[..|s| - 1]);
      assert Ink(s[..|s| - 1]) + "" == Ink(s[..|s| - 1]);
    }
  }

  lemma {:induction false} InkTrimmedStart(s: string)
    ensures Ink(TrimStart(s)) == Ink(s)
  {
    if s != "" && s[0] in {'\r', '\n'} {
      InkTrimmedStart(s[1..]);
      InkAppends([s[0]], s[1..]);
      assert [s[0]] + s[1..] == s && [s[0]][..0] == "";
      assert "" + Ink(s[1..]) == Ink(s[1..]);
    }
  }

  /** A seam loses nothing but blanks and line breaks. */
  lemma InkAcrossSeam(before: string, after: string)
    ensures Ink(Seam(before, after)) == Ink(before) + Ink(after)
  {
    var (b, a) := (TrimEnd(before), TrimStart(after));
    InkTrimmedEnd(before);
    InkTrimmedStart(after);
    InkAppends(b + "\n\n", a);
    InkAppends(b, "\n\n");
    assert "\n\n"[..1] == "\n" && "\n"[..0] == "" && Ink("\n\n") == "";
    assert Ink(b) + "" == Ink(b) && "" + Ink(a) == Ink(a);
  }

  /** From its start marker to the first end marker, with no other start marker between. */
  ghost predicate IsBlock(m: Markers, block: string) {
    && |m.start| + |m.end| <= |block| && m.start <= block && IsFirst(block, m.end, |block| - |m.end|)
    && Absent(block[|m.start|..|block| - |m.end|], m.start)
  }

  ghost predicate IsFirst(s: string, part: string, i: int) {
    At(s, part, i) && forall j :: At(s, part, j) ==> i <= j
  }

  ghost predicate BlockAt(m: Markers, s: string, i: int, n: int) {
    0 <= i <= i + n <= |s| && IsBlock(m, s[i..i + n])
  }

  /** `t` is `s` without the block of length `n` at `i`, the first there is, but for blanks and line breaks around it. */
  ghost predicate WithoutBlock(m: Markers, s: string, i: int, n: int, t: string) {
    BlockAt(m, s, i, n) && Absent(s[..i], m.start) && Ink(t) == Ink(s[..i]) + Ink(s[i + n..])
  }

  ghost predicate BlockGone(m: Markers, s: string, t: string) {
    exists i, n :: WithoutBlock(m, s, i, n, t)
  }

  lemma FirstInPart(s: string, part: string, n: int)
    requires 0 <= n <= |s| && Index(s, part) >= 0 && Index(s, part) + |part| == n
    ensures IsFirst(s[..n], part, n - |part|)
  {
    IndexIsFirst(s, part);
    assert s[..n][n - |part|..n] == s[n - |part|..n];
    forall j | At(s[..n], part, j) ensures At(s, part, j) {
      assert s[..n][j..j + |part|] == s[j..j + |part|];
    }
  }

  lemma BlockInRest(m: Markers, rest: string, j: int)
    requires j == Index(rest, m.end) && |m.start| <= j && j + |m.end| <= |rest| && m.start <= rest
    requires Absent(rest[|m.start|..j], m.start)
    ensures IsBlock(m, rest[..j + |m.end|])
  {
    FirstInPart(rest, m.end, j + |m.end|);
    assert rest[..j + |m.end|][|m.start|..j] == rest[|m.start|..j];
  }

  lemma BlockEndMeans(m: Markers, s: string, i: int, n: int)
    requires Sound(m) && 0 <= i <= |s| && BlockEnd(m, s, i) == Some(n)
    ensures var j := n - |m.end|;
      j == Index(s[i..], m.end) && |m.start| <= j && i + n <= |s| && Absent(s[i..][|m.start|..j], m.start)
  {
    BlockFits(m, s, i);
    var j := n - |m.end|;
    assert s[i..][|m.start|..j] == s[i + |m.start|..i + j];
    AbsentIndex(s[i..][|m.start|..j], m.start);
  }

  lemma BlockCut(m: Markers, s: string, i: int, n: int)
    requires Sound(m) && At(s, m.start, i) && BlockEnd(m, s, i) == Some(n)
    ensures BlockAt(m, s, i, n)
  {
    BlockEndMeans(m, s, i, n);
    assert s[i..][..|m.start|] == m.start;
    assert IsBlock(m, s[i..][..n]) by {
      BlockInRest(m, s[i..], n - |m.end|);
    }
    assert s[i..][..n] == s[i..i + n];
  }

  lemma NextTakesABlock(m: Markers, s: string)
    requires Sound(m) && Index(s, m.start) >= 0 && Next(m, s).Some?
    ensures BlockGone(m, s, Next(m, s).value)
  {
    FirstLeavesNothingBefore(s, m.start);
    var i := Index(s, m.start);
    var n := BlockEnd(m, s, i).value;
    BlockCut(m, s, i, n);
    InkAcrossSeam(s[..i], s[i + n..]);
    assert WithoutBlock(m, s, i, n, Next(m, s).value);
  }

  lemma FirstSeen(rest: string, part: string, n: int)
    requires part != "" && |part| <= n <= |rest| && IsFirst(rest[..n], part, n - |part|)
    ensures Index(rest, part) == n - |part|
  {
    assert rest[n - |part|..n] == rest[..n][n - |part|..n];
    assert At(rest, part, n - |part|);
    IndexIsFirst(rest, part);
    var i := Index(rest, part);
    assert rest[..n][i..i + |part|] == rest[i..i + |part|];
    assert At(rest[..n], part, i);
  }

  lemma PartOfPart(s: string, i: int, n: int, a: int, b: int)
    requires 0 <= i <= i + n <= |s| && 0 <= a <= b <= n
    ensures s[i..i + n][a..b] == s[i + a..i + b]
  {
    var (part, same) := (s[i..i + n][a..b], s[i + a..i + b]);
    assert |part| == |same| && forall k :: 0 <= k < |same| ==> part[k] == same[k];
  }

  lemma BlockSeen(m: Markers, s: string, i: int, n: int)
    requires Sound(m) && BlockAt(m, s, i, n)
    ensures BlockEnd(m, s, i) == Some(n)
  {
    assert m.end == "" ==> Overlaps(m.start, m.end, 0);
    var j := n - |m.end|;
    assert s[i..][..n] == s[i..i + n];
    FirstSeen(s[i..], m.end, n);
    assert Absent(s[i..i + n][|m.start|..j], m.start) by {
      assert |s[i..i + n]| == n;
    }
    PartOfPart(s, i, n, |m.start|, j);
    AbsentIndex(s[i + |m.start|..i + j], m.start);
  }

  /** A text is refused exactly if its first start marker begins no block. */
  lemma RefusedWithoutBlock(m: Markers, s: string)
    requires Sound(m) && Index(s, m.start) >= 0
    ensures Next(m, s).Some? <==> exists n :: BlockAt(m, s, Index(s, m.start), n)
  {
    var i := Index(s, m.start);
    FirstLeavesNothingBefore(s, m.start);
    if BlockEnd(m, s, i).Some? {
      BlockCut(m, s, i, BlockEnd(m, s, i).value);
    }
    if n :| BlockAt(m, s, i, n) {
      BlockSeen(m, s, i, n);
    }
  }

  /** From the first text to the last, one block goes after the other, and nothing else. */
  ghost predicate OnlyBlocksGo(m: Markers, texts: seq<string>) {
    forall k :: 0 < k < |texts| ==> BlockGone(m, texts[k - 1], texts[k])
  }

  /** Removal takes out whole blocks until none is left, and of everything else at most blanks and line breaks. */
  lemma {:induction false} OnlyBlocksAreRemoved(m: Markers, s: string) returns (texts: seq<string>)
    requires Sound(m) && Removed(m, s).Some?
    ensures texts != [] && texts[0] == s && texts[|texts| - 1] == Removed(m, s).value
    ensures OnlyBlocksGo(m, texts) && Absent(Removed(m, s).value, m.start)
    decreases Left(s, m.start)
  {
    if Index(s, m.start) < 0 {
      texts := [s];
      AbsentIndex(s, m.start);
    } else {
      NextTakesABlock(m, s);
      var rest := OnlyBlocksAreRemoved(m, Next(m, s).value);
      texts := [s] + rest;
    }
  }

  /** Installation keeps all of the cleaned text, and puts the block behind it. */
  lemma InstallKeepsText(cleaned: string, block: string)
    ensures Ink(Append(cleaned, block)) == Ink(cleaned) + Ink(block)
    ensures |Append(cleaned, block)| >= |block| && Append(cleaned, block)[|Append(cleaned, block)| - |block|..] == block
  {
    var head := TrimEnd(cleaned);
    InkTrimmedEnd(cleaned);
    InkAppends(head + "\n\n", block);
    InkAppends(head, "\n\n");
    assert "\n\n"[..1] == "\n" && "\n"[..0] == "" && Ink("\n\n") == "";
    assert Ink(head) + "" == Ink(head) && "" + Ink(block) == Ink(block);
  }

  // ---------------------------------------------------------------- installing and removing

  lemma {:induction false} LineBreaksTrim(s: string)
    requires LineBreaks(s)
    ensures TrimStart(s) == ""
  {
    if s != "" {
      assert s[0] in s && forall c :: c in s[1..] ==> c in s;
      LineBreaksTrim(s[1..]);
    }
  }

  /** In a text that a block has been appended to, the first start marker is the block's own. */
  lemma BlockIsFirst(m: Markers, head: string, block: string)
    requires Sound(m) && Absent(head, m.start) && m.start <= block
    ensures Index(head + "\n\n" + block, m.start) == |head| + 2
    ensures Index(block, m.start) == 0
  {
    var s := head + "\n\n" + block;
    assert s[|head| + 2..|head| + 2 + |m.start|] == block[..|m.start|];
    assert At(s, m.start, |head| + 2);
    IndexIsFirst(s, m.start);
    OneSideOfSeam(head, block, m.start, Index(s, m.start));
    assert block[0..|m.start|] == m.start;
    assert At(block, m.start, 0);
    IndexIsFirst(block, m.start);
  }

  lemma BlockIsWhole(m: Markers, head: string, block: string, body: string, tail: string, s: string, n: int)
    requires Sound(m) && FramedBy(m, block, body, tail) && s == head + block && n == |block| - |tail|
    ensures 0 <= n && |head| + n <= |s|
    ensures BlockEnd(m, s, |head|) == Some(n)
    ensures s[|head| + n..] == tail
  {
    assert s[|head|..] == block;
    assert s[|head| + |m.start|..|head| + |m.start| + |body|] == body;
    AbsentIndex(body, m.start);
  }

  lemma NextIs(m: Markers, s: string, before: string, n: int, after: string)
    requires Sound(m) && before <= s && Index(s, m.start) == |before| && BlockEnd(m, s, |before|) == Some(n)
    requires 0 <= n && |before| + n <= |s| && after == s[|before| + n..]
    ensures Next(m, s) == Some(Seam(before, after))
  {
    assert s[..|before|] == before;
  }

  lemma SeamAtEnd(before: string, after: string)
    requires TrimStart(after) == ""
    ensures Seam(before, after) == TrimEnd(before)
  {
  }

  lemma TrimGap(head: string)
    ensures TrimEnd(head + "\n\n") == TrimEnd(head)
  {
    TrimEndFacts(head);
    TrimEndFacts(head + "\n");
    assert head + "\n\n" == head + "\n" + "\n";
  }

  /** Taking out a block at the end leaves what stands before it. */
  lemma WholeBlockGoes(m: Markers, head: string, block: string, body: string, tail: string)
    requires Sound(m) && FramedBy(m, block, body, tail) && Index(head + block, m.start) == |head|
    ensures Next(m, head + block) == Some(TrimEnd(head))
  {
    var (s, n) := (head + block, |block| - |tail|);
    BlockIsWhole(m, head, block, body, tail, s, n);
    LineBreaksTrim(tail);
    NextIs(m, s, head, n, tail);
    SeamAtEnd(head, tail);
  }

  /** The appended block is found, and taking it out leaves what it was appended to. */
  lemma BlockComesOut(m: Markers, head: string, block: string)
    requires Sound(m) && Framed(m, block) && Absent(head, m.start) && TrimEnd(head) == head
    ensures var s := if head == "" then block else head + "\n\n" + block;
            Index(s, m.start) >= 0 && Next(m, s) == Some(head)
  {
    var body, tail :| FramedBy(m, block, body, tail);
    FramedStarts(m, block, body, tail);
    BlockIsFirst(m, head, block);
    if head == "" {
      assert "" + block == block;
      WholeBlockGoes(m, "", block, body, tail);
    } else {
      TrimGap(head);
      WholeBlockGoes(m, head + "\n\n", block, body, tail);
    }
  }

  lemma FramedStarts(m: Markers, block: string, body: string, tail: string)
    requires FramedBy(m, block, body, tail)
    ensures m.start <= block
  {
  }

  /** Removing what was installed leaves the text as it was cleaned, without white space at its end. */
  lemma RemoveAfterInstall(m: Markers, cleaned: string, block: string)
    requires Sound(m) && Framed(m, block) && Absent(cleaned, m.start)
    ensures Removed(m, Append(cleaned, block)) == Some(TrimEnd(cleaned))
  {
    TrimEndFacts(cleaned);
    AbsentInPrefix(cleaned, m.start, TrimEnd(cleaned));
    BlockComesOut(m, TrimEnd(cleaned), block);
    AbsentIndex(TrimEnd(cleaned), m.start);
  }

  /** Installing twice is installing once, and removal undoes either. */
  lemma InstallIsStable(m: Markers, text: string, block: string)
    requires Sound(m) && Framed(m, block) && Removed(m, text).Some?
    ensures var once := Append(Removed(m, text).value, block);
            && Installed(Removed(m, once), block) == Some(once)
            && Removed(m, once) == Some(TrimEnd(Removed(m, text).value))
  {
    var cleaned := Removed(m, text).value;
    AbsentIndex(cleaned, m.start);
    RemoveAfterInstall(m, cleaned, block);
    TrimEndFacts(cleaned);
  }

  /** The markers in use are comment lines that part after two characters; a `#` begins nothing else in them. */
  lemma CommentMarkersAreSound(m: Markers)
    requires |m.start| > 2 && |m.end| > 2 && m.start[2] != m.end[2] && m.end[0] == '#' && '\n' !in m.start
    requires forall k :: 0 < k < |m.start| ==> m.start[k] != '#'
    ensures Sound(m)
  {
    forall k | 0 <= k < |m.start| ensures !Overlaps(m.start, m.end, k) {
      assert m.start[k..][0] == m.start[k];
      assert k == 0 ==> m.start[k..] == m.start;
    }
  }
}
