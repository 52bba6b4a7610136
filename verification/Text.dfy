/** Substring search and trimming, as the `strings` package does it. */
module Text {

  /** `part` stands at position `i` of `text`. */
  predicate At(text: string, part: string, i: int) {
    0 <= i && i + |part| <= |text| && text[i..i + |part|] == part
  }

  /** The first position from `i` on, or -1. */
  function IndexFrom(text: string, part: string, i: nat): int
    decreases |text| - i
  {
    if At(text, part, i) then i else if i >= |text| then -1 else IndexFrom(text, part, i + 1)
  }

  /** `strings.Index` */
  function Index(text: string, part: string): int {
    IndexFrom(text, part, 0)
  }

  predicate Contains(text: string, part: string) {
    Index(text, part) >= 0
  }

  lemma {:induction false} IndexFromIsFirst(text: string, part: string, i: nat)
    ensures var r := IndexFrom(text, part, i);
            && (r >= 0 ==> At(text, part, r) && i <= r)
            && forall j :: i <= j && At(text, part, j) ==> 0 <= r <= j
    decreases |text| - i
  {
    if !At(text, part, i) && i < |text| {
      IndexFromIsFirst(text, part, i + 1);
    }
  }

  lemma IndexIsFirst(text: string, part: string)
    ensures Index(text, part) >= 0 ==> At(text, part, Index(text, part))
    ensures forall i :: At(text, part, i) ==> 0 <= Index(text, part) <= i
  {
    IndexFromIsFirst(text, part, 0);
  }

  /** `strings.Join` with line feeds between */
  function JoinLines(lines: seq<string>): string {
    if lines == [] then "" else if |lines| == 1 then lines[0] else lines[0] + "\n" + JoinLines(lines[1..])
  }

  /** `unicode.IsSpace` */
  predicate IsSpace(c: char) {
    c in {'\t', '\n', '\U{B}', '\U{C}', '\r', ' ', '\U{85}', '\U{A0}', '\U{1680}',
          '\U{2028}', '\U{2029}', '\U{202F}', '\U{205F}', '\U{3000}'}
    || '\U{2000}' <= c <= '\U{200A}'
  }

  function TrimLeft(text: string): string {
    if text != [] && IsSpace(text[0]) then TrimLeft(text[1..]) else text
  }

  function TrimRight(text: string): string {
    if text != [] && IsSpace(text[|text| - 1]) then TrimRight(text[..|text| - 1]) else text
  }

  /** `strings.TrimSpace` */
  function TrimSpace(text: string): string {
    TrimRight(TrimLeft(text))
  }

  lemma {:induction false} TrimLeftFacts(text: string)
    ensures |TrimLeft(text)| <= |text| && TrimLeft(text) == text[|text| - |TrimLeft(text)|..]
    ensures TrimLeft(text) != "" ==> !IsSpace(TrimLeft(text)[0])
  {
    if text != [] && IsSpace(text[0]) {
      TrimLeftFacts(text[1..]);
    }
  }

  lemma {:induction false} TrimRightFacts(text: string)
    ensures TrimRight(text) <= text
    ensures TrimRight(text) != "" ==> !IsSpace(TrimRight(text)[|TrimRight(text)| - 1])
  {
    if text != [] && IsSpace(text[|text| - 1]) {
      TrimRightFacts(text[..|text| - 1]);
    }
  }

  lemma TrimSpaceFacts(text: string)
    ensures |TrimSpace(text)| <= |text|
    ensures TrimSpace(text) != "" ==> !IsSpace(TrimSpace(text)[0]) && !IsSpace(TrimSpace(text)[|TrimSpace(text)| - 1])
    ensures text != "" && !IsSpace(text[0]) && !IsSpace(text[|text| - 1]) ==> TrimSpace(text) == text
  {
    TrimLeftFacts(text);
    TrimRightFacts(TrimLeft(text));
  }

  /** White space in front makes no difference. */
  lemma TrimSkips(c: char, text: string)
    requires IsSpace(c)
    ensures TrimSpace([c] + text) == TrimSpace(text)
  {
    assert ([c] + text)[1..] == text;
  }
}
