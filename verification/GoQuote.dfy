/** `strconv.Quote` and `strconv.Unquote` for double-quoted strings, over Unicode scalar values. */
module GoQuote {
  import opened Options

  const BEL := 7 as char
  const BACKSPACE := 8 as char
  const VT := 11 as char
  const FF := 12 as char
  const DEL := 127 as char

  /** `strconv.IsPrint`: fixed for ASCII; above that any table will do. */
  type Printable = p: char -> bool | AsciiPrintable(p) ghost witness (c: char) => ' ' <= c && c != DEL

  ghost predicate AsciiPrintable(p: char -> bool) {
    forall c: char :: c <= DEL ==> (p(c) <==> ' ' <= c < DEL)
  }

  function HexDigit(d: nat): char
    requires d < 16
  {
    if d < 10 then '0' + d as char else 'a' + (d - 10) as char
  }

  function HexValue(c: char): Option<nat> {
    if '0' <= c <= '9' then Some((c - '0') as nat)
    else if 'a' <= c <= 'f' then Some((c - 'a') as nat + 10)
    else if 'A' <= c <= 'F' then Some((c - 'A') as nat + 10)
    else None
  }

  function Power16(n: nat): nat {
    if n == 0 then 1 else 16 * Power16(n - 1)
  }

  /** The lowest `n` hex digits of `v`. */
  function Hex(v: nat, n: nat): (s: string)
    ensures |s| == n
  {
    if n == 0 then "" else Hex(v / 16, n - 1) + [HexDigit(v % 16)]
  }

  function FromHex(s: string): Option<nat> {
    if s == "" then Some(0)
    else
      var (high, low) := (FromHex(s[..|s| - 1]), HexValue(s[|s| - 1]));
      if high.None? || low.None? then None else Some(16 * high.value + low.value)
  }

  lemma {:induction false} HexReads(v: nat, n: nat)
    requires v < Power16(n)
    ensures FromHex(Hex(v, n)) == Some(v)
    ensures Plain(Hex(v, n))
  {
    if n > 0 {
      HexReads(v / 16, n - 1);
      assert Hex(v, n)[..n - 1] == Hex(v / 16, n - 1);
    }
  }

  /** Nothing a scan for the closing quote stops at. */
  predicate Plain(s: string) {
    '"' !in s && '\\' !in s && '\n' !in s
  }

  /** `appendEscapedRune` */
  function Escape(p: Printable, c: char): string {
    if c == '"' || c == '\\' then ['\\', c]
    else if p(c) then [c]
    else if c == BEL then ['\\', 'a']
    else if c == BACKSPACE then ['\\', 'b']
    else if c == FF then ['\\', 'f']
    else if c == '\n' then ['\\', 'n']
    else if c == '\r' then ['\\', 'r']
    else if c == '\t' then ['\\', 't']
    else if c == VT then ['\\', 'v']
    else if c < ' ' || c == DEL then ['\\', 'x'] + Hex(c as int, 2)
    else if c as int < 0x1_0000 then ['\\', 'u'] + Hex(c as int, 4)
    else ['\\', 'U'] + Hex(c as int, 8)
  }

  function Escaper(p: Printable): char -> string {
    (c: char) => Escape(p, c)
  }

  /** Every character spelled out. */
  function Spelled(f: char -> string, s: string): string {
    if s == "" then "" else f(s[0]) + Spelled(f, s[1..])
  }

  function EscapeAll(p: Printable, s: string): string {
    Spelled(Escaper(p), s)
  }

  function Quote(p: Printable, s: string): string {
    "\"" + EscapeAll(p, s) + "\""
  }

  predicate IsScalar(v: nat) {
    v < 0xD800 || 0xE000 <= v < 0x11_0000
  }

  /** `\x`, `\u` and `\U` with `n` digits; a byte above ASCII is not a character of its own. */
  function Numeric(s: string, n: nat, limit: nat): Option<(char, string)> {
    if |s| < 2 + n then None
    else
      match FromHex(s[2..2 + n])
      case None => None
      case Some(v) => if v < limit && IsScalar(v) then Some((v as char, s[2 + n..])) else None
  }

  function Octal(s: string): Option<(char, string)> {
    if |s| < 4 || exists i :: 1 <= i < 4 && !('0' <= s[i] <= '7') then None
    else
      var v := (s[1] - '0') as nat * 64 + (s[2] - '0') as nat * 8 + (s[3] - '0') as nat;
      if v < 0x80 then Some((v as char, s[4..])) else None
  }

  /** `UnquoteChar` on an escape, with the double quote as delimiter. */
  function Unescape(s: string): Option<(char, string)>
    requires s != "" && s[0] == '\\'
  {
    if |s| < 2 then None
    else
      match s[1]
      case 'a' => Some((BEL, s[2..]))
      case 'b' => Some((BACKSPACE, s[2..]))
      case 'f' => Some((FF, s[2..]))
      case 'n' => Some(('\n', s[2..]))
      case 'r' => Some(('\r', s[2..]))
      case 't' => Some(('\t', s[2..]))
      case 'v' => Some((VT, s[2..]))
      case 'x' => Numeric(s, 2, 0x80)
      case 'u' => Numeric(s, 4, 0x11_0000)
      case 'U' => Numeric(s, 8, 0x11_0000)
      case '\\' => Some(('\\', s[2..]))
      case '"' => Some(('"', s[2..]))
      case _ => if '0' <= s[1] <= '7' then Octal(s) else None
  }

  /** The text between the quotes. */
  function UnescapeAll(s: string): Option<string>
    decreases |s|
  {
    if s == "" then Some("")
    else if s[0] == '"' || s[0] == '\n' then None
    else if s[0] != '\\' then Prepend(s[0], UnescapeAll(s[1..]))
    else
      match Unescape(s)
      case None => None
      case Some((c, rest)) => if |rest| < |s| then Prepend(c, UnescapeAll(rest)) else None
  }

  function Prepend(c: char, s: Option<string>): Option<string> {
    if s.None? then None else Some([c] + s.value)
  }

  function Unquote(s: string): Option<string> {
    if |s| < 2 || s[0] != '"' || s[|s| - 1] != '"' then None else UnescapeAll(s[1..|s| - 1])
  }

  // ---------------------------------------------------------------- round trip

  lemma NumericReads(c: char, letter: char, n: nat, limit: nat, t: string)
    requires c as int < Power16(n) && c as int < limit
    ensures Numeric(['\\', letter] + Hex(c as int, n) + t, n, limit) == Some((c, t))
  {
    HexReads(c as int, n);
    var s := ['\\', letter] + Hex(c as int, n) + t;
    assert s[2..2 + n] == Hex(c as int, n);
    assert s[2 + n..] == t;
  }

  lemma Powers()
    ensures Power16(2) == 0x100 && Power16(4) == 0x1_0000 && Power16(8) == 0x1_0000_0000
  {
    assert Power16(3) == 0x1000 && Power16(5) == 0x10_0000 && Power16(6) == 0x100_0000 && Power16(7) == 0x1000_0000;
  }

  /** A character that stands for itself. */
  predicate Raw(p: Printable, c: char) {
    c != '"' && c != '\\' && p(c)
  }

  lemma NewlineIsNotRaw(p: Printable)
    ensures !Raw(p, '\n')
  {
    assert AsciiPrintable(p);
  }

  /** The escape sequences name the character they stand for. */
  lemma EscapeUnescapes(p: Printable, c: char, t: string)
    requires !Raw(p, c)
    ensures (Escape(p, c) + t)[0] == '\\' && Unescape(Escape(p, c) + t) == Some((c, t))
  {
    var s := Escape(p, c) + t;
    Powers();
    match s[1] {
      case 'x' => NumericReads(c, 'x', 2, 0x80, t);
      case 'u' => NumericReads(c, 'u', 4, 0x11_0000, t);
      case 'U' => NumericReads(c, 'U', 8, 0x11_0000, t);
      case _ => assert s[2..] == t;
    }
  }

  /** One escaped character reads back as itself, whatever follows. */
  lemma EscapeReads(p: Printable, c: char, t: string)
    ensures UnescapeAll(Escape(p, c) + t) == Prepend(c, UnescapeAll(t))
  {
    NewlineIsNotRaw(p);
    if Raw(p, c) {
      assert ([c] + t)[1..] == t;
    } else {
      EscapeUnescapes(p, c, t);
    }
  }

  lemma {:induction false} EscapeAllReads(p: Printable, s: string)
    ensures UnescapeAll(EscapeAll(p, s)) == Some(s)
  {
    if s != "" {
      EscapeReads(p, s[0], EscapeAll(p, s[1..]));
      EscapeAllReads(p, s[1..]);
      assert [s[0]] + s[1..] == s;
    }
  }

  /** Unquoting undoes quoting for every string. */
  lemma QuoteRoundTrip(p: Printable, s: string)
    ensures Unquote(Quote(p, s)) == Some(s)
  {
    EscapeAllReads(p, s);
    assert Quote(p, s)[1..|Quote(p, s)| - 1] == EscapeAll(p, s);
  }

  // ---------------------------------------------------------------- finding the closing quote

  /** Where the first quote not behind a backslash stands. */
  function ClosingQuote(s: string): Option<nat>
    decreases |s|
  {
    if s == "" then None
    else if s[0] == '"' then Some(0)
    else if s[0] == '\\' then if |s| < 2 then None else Shift(2, ClosingQuote(s[2..]))
    else Shift(1, ClosingQuote(s[1..]))
  }

  function Shift(n: nat, at: Option<nat>): Option<nat> {
    if at.None? then None else Some(at.value + n)
  }

  lemma {:induction false} PlainIsSkipped(s: string, t: string)
    requires Plain(s)
    ensures ClosingQuote(s + t) == Shift(|s|, ClosingQuote(t))
  {
    if s == "" {
      assert s + t == t;
    } else {
      PlainIsSkipped(s[1..], t);
      assert (s + t)[1..] == s[1..] + t;
    }
  }

  lemma EscapeIsPlain(p: Printable, c: char)
    requires !Raw(p, c)
    ensures var e := Escape(p, c); |e| >= 2 && e[0] == '\\' && e[1] != '\n' && Plain(e[2..])
  {
    Powers();
    var e := Escape(p, c);
    match e[1] {
      case 'x' => HexReads(c as int, 2); assert e[2..] == Hex(c as int, 2);
      case 'u' => HexReads(c as int, 4); assert e[2..] == Hex(c as int, 4);
      case 'U' => HexReads(c as int, 8); assert e[2..] == Hex(c as int, 8);
      case _ => assert e[2..] == "";
    }
  }

  lemma BackslashSkips(a: char, e: string, t: string)
    requires Plain(e)
    ensures ClosingQuote(['\\', a] + e + t) == Shift(2 + |e|, ClosingQuote(t))
  {
    var s := ['\\', a] + e + t;
    assert s[0] == '\\' && s[2..] == e + t;
    PlainIsSkipped(e, t);
  }

  lemma LongEscapeIsSkipped(p: Printable, c: char, t: string)
    requires !Raw(p, c)
    ensures ClosingQuote(Escape(p, c) + t) == Shift(|Escape(p, c)|, ClosingQuote(t))
    ensures '\n' !in Escape(p, c)
  {
    var e := Escape(p, c);
    EscapeIsPlain(p, c);
    assert e == [e[0], e[1]] + e[2..];
    BackslashSkips(e[1], e[2..], t);
  }

  lemma EscapeIsSkipped(p: Printable, c: char, t: string)
    ensures ClosingQuote(Escape(p, c) + t) == Shift(|Escape(p, c)|, ClosingQuote(t))
    ensures '\n' !in Escape(p, c)
  {
    if Raw(p, c) {
      NewlineIsNotRaw(p);
      PlainIsSkipped([c], t);
    } else {
      LongEscapeIsSkipped(p, c, t);
    }
  }

  predicate IsSkipped(e: string, t: string) {
    ClosingQuote(e + t) == Shift(|e|, ClosingQuote(t))
  }

  /** No spelling of a character closes the quotes. */
  ghost predicate Skippable(f: char -> string) {
    forall c, t :: IsSkipped(f(c), t)
  }

  lemma {:induction false} SpelledCloses(f: char -> string, s: string, rest: string)
    requires Skippable(f) && rest != "" && rest[0] == '"'
    ensures ClosingQuote(Spelled(f, s) + rest) == Some(|Spelled(f, s)|)
  {
    if s == "" {
      assert Spelled(f, s) + rest == rest;
    } else {
      var u := Spelled(f, s[1..]) + rest;
      SpelledCloses(f, s[1..], rest);
      assert IsSkipped(f(s[0]), u);
      assert Spelled(f, s) + rest == f(s[0]) + u;
    }
  }

  lemma {:induction false} SpelledInOneLine(f: char -> string, s: string)
    requires forall c :: '\n' !in f(c)
    ensures '\n' !in Spelled(f, s)
  {
    if s != "" {
      SpelledInOneLine(f, s[1..]);
    }
  }

  lemma QuoteCloses(p: Printable, s: string, t: string)
    ensures ClosingQuote(EscapeAll(p, s) + "\"" + t) == Some(|EscapeAll(p, s)|)
    ensures '\n' !in EscapeAll(p, s)
  {
    var f := Escaper(p);
    forall c, u ensures IsSkipped(f(c), u) { EscapeIsSkipped(p, c, u); }
    forall c ensures '\n' !in f(c) { EscapeIsSkipped(p, c, ""); }
    SpelledCloses(f, s, "\"" + t);
    SpelledInOneLine(f, s);
    assert EscapeAll(p, s) + "\"" + t == Spelled(f, s) + ("\"" + t);
  }
}
