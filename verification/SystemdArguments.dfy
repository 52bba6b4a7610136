/** One command line of a systemd unit: rendering arguments, and reading them back. */
module SystemdArguments {
  import opened Options
  import opened GoQuote
  import Text

  // ---------------------------------------------------------------- doubling

  /** `strings.ReplaceAll(s, c, cc)` */
  function Double(s: string, c: char): string {
    if s == "" then "" else (if s[0] == c then [c, c] else [s[0]]) + Double(s[1..], c)
  }

  /** `strings.ReplaceAll(s, cc, r)` */
  function ReplacePairs(s: string, c: char, r: string): string {
    if |s| < 2 then s
    else if s[0] == c && s[1] == c then r + ReplacePairs(s[2..], c, r)
    else [s[0]] + ReplacePairs(s[1..], c, r)
  }

  lemma {:induction false} PairsUndoDoubling(s: string, c: char, r: string)
    ensures r == [c] ==> ReplacePairs(Double(s, c), c, r) == s
    ensures r == "" ==> c !in ReplacePairs(Double(s, c), c, r)
  {
    if s != "" {
      var d := Double(s[1..], c);
      PairsUndoDoubling(s[1..], c, r);
      if s[0] == c {
        assert ([c, c] + d)[2..] == d;
      } else {
        assert ([s[0]] + d)[1..] == d;
        if d == "" {
          assert s[1..] == "";
        }
      }
      assert s == [s[0]] + s[1..];
    }
  }

  lemma {:induction false} DoublingsCommute(s: string, c: char, d: char)
    requires c != d
    ensures Double(Double(s, c), d) == Double(Double(s, d), c)
  {
    if s != "" {
      DoublingsCommute(s[1..], c, d);
      DoubleAppends(if s[0] == c then [c, c] else [s[0]], Double(s[1..], c), d);
      DoubleAppends(if s[0] == d then [d, d] else [s[0]], Double(s[1..], d), c);
    }
  }

  lemma {:induction false} DoubleAppends(s: string, t: string, c: char)
    ensures Double(s + t, c) == Double(s, c) + Double(t, c)
  {
    if s == "" {
      assert s + t == t;
    } else {
      assert (s + t)[1..] == s[1..] + t;
      DoubleAppends(s[1..], t, c);
    }
  }

  lemma {:induction false} DoubleKeeps(s: string, c: char)
    ensures forall x :: x in Double(s, c) <==> x in s
    ensures Double(s, c) == "" <==> s == ""
    ensures s != "" ==> Double(s, c)[0] == s[0] && Double(s, c)[|Double(s, c)| - 1] == s[|s| - 1]
  {
    if s != "" {
      DoubleKeeps(s[1..], c);
      assert s == [s[0]] + s[1..];
    }
  }

  // ---------------------------------------------------------------- one argument

  function Doubled(s: string): string {
    Double(Double(s, '%'), '$')
  }

  predicate NeedsQuotes(s: string) {
    exists i :: 0 <= i < |s| && s[i] in {' ', '\t', '\n', '"', '\'', '\\'}
  }

  /** `systemdArg` */
  function SystemdArg(p: Printable, value: string): string {
    if value == "" then "\"\""
    else if NeedsQuotes(Doubled(value)) then Quote(p, Doubled(value))
    else Doubled(value)
  }

  /** Up to the first blank. */
  function WordLength(s: string): (n: nat)
    ensures n <= |s|
  {
    if s == "" || s[0] == ' ' || s[0] == '\t' then 0 else 1 + WordLength(s[1..])
  }

  /** `consumeSystemdArgument`: the argument, and what follows it. */
  function Consume(command: string): (r: Option<(string, string)>)
    requires command != ""
    ensures r.Some? && command[0] != ' ' && command[0] != '\t' ==> |r.value.1| < |command|
  {
    if command[0] != '"' then
      var value := command[..WordLength(command)];
      if exists i :: 0 <= i < |value| && value[i] in {'\\', '"', '\''} then None
      else Some((value, command[WordLength(command)..]))
    else
      match ClosingQuote(command[1..])
      case None => None
      case Some(n) => if n + 2 > |command| then None else Closed(Unquote(command[..n + 2]), command[n + 2..])
  }

  function Closed(value: Option<string>, rest: string): Option<(string, string)> {
    if value.None? || (rest != "" && rest[0] != ' ' && rest[0] != '\t') then None else Some((value.value, rest))
  }

  /** The doubled signs halved again; a single percent sign is refused. */
  function Literal(value: string): Option<string> {
    if '%' in ReplacePairs(value, '%', "") then None
    else Some(ReplacePairs(ReplacePairs(value, '%', "%"), '$', "$"))
  }

  lemma LiteralUndoesDoubling(s: string)
    ensures Literal(Doubled(s)) == Some(s)
  {
    DoublingsCommute(s, '%', '$');
    PairsUndoDoubling(Double(s, '$'), '%', "");
    PairsUndoDoubling(Double(s, '$'), '%', "%");
    PairsUndoDoubling(s, '$', "$");
  }

  lemma {:induction false} WordEnds(word: string, rest: string)
    requires ' ' !in word && '\t' !in word
    requires rest == "" || rest[0] == ' ' || rest[0] == '\t'
    ensures WordLength(word + rest) == |word|
  {
    if word == "" {
      assert word + rest == rest;
    } else {
      assert (word + rest)[1..] == word[1..] + rest;
      WordEnds(word[1..], rest);
    }
  }

  predicate Ends(rest: string) {
    rest == "" || rest[0] == ' ' || rest[0] == '\t'
  }

  lemma ConsumeQuoted(s: string, n: nat)
    requires s != "" && s[0] == '"' && ClosingQuote(s[1..]) == Some(n) && n + 2 <= |s|
    ensures Consume(s) == Closed(Unquote(s[..n + 2]), s[n + 2..])
  {
  }

  /** The pieces of a text in quotes with more text after it. */
  lemma QuotedPieces(body: string, rest: string)
    ensures var s := "\"" + body + "\"" + rest;
            && s != "" && s[0] == '"' && s[1..] == body + "\"" + rest && |body| + 2 <= |s|
            && s[..|body| + 2] == "\"" + body + "\"" && s[|body| + 2..] == rest
  {
  }

  lemma QuotedIsConsumed(p: Printable, d: string, rest: string)
    requires Ends(rest)
    ensures Consume(Quote(p, d) + rest) == Some((d, rest))
  {
    var body := EscapeAll(p, d);
    var s := "\"" + body + "\"" + rest;
    QuotedPieces(body, rest);
    QuoteCloses(p, d, rest);
    QuoteRoundTrip(p, d);
    ConsumeQuoted(s, |body|);
  }

  lemma BareIsConsumed(d: string, rest: string)
    requires Ends(rest) && d != "" && !NeedsQuotes(d)
    ensures Consume(d + rest) == Some((d, rest))
  {
    WordEnds(d, rest);
    assert (d + rest)[..|d|] == d && (d + rest)[|d|..] == rest;
  }

  lemma DoubledKeeps(s: string)
    ensures forall x :: x in Doubled(s) <==> x in s
    ensures Doubled(s) == "" <==> s == ""
    ensures s != "" ==> Doubled(s)[0] == s[0] && Doubled(s)[|Doubled(s)| - 1] == s[|s| - 1]
  {
    DoubleKeeps(s, '%');
    DoubleKeeps(Double(s, '%'), '$');
  }

  /** A rendered argument is consumed whole, and means what it was rendered from. */
  lemma ArgumentReads(p: Printable, value: string, rest: string)
    requires Ends(rest)
    ensures Consume(SystemdArg(p, value) + rest) == Some((Doubled(value), rest)) && Literal(Doubled(value)) == Some(value)
  {
    LiteralUndoesDoubling(value);
    DoubledKeeps(value);
    if value == "" || NeedsQuotes(Doubled(value)) {
      assert value == "" ==> Quote(p, Doubled(value)) == "\"\"";
      QuotedIsConsumed(p, Doubled(value), rest);
    } else {
      BareIsConsumed(Doubled(value), rest);
    }
  }

  // ---------------------------------------------------------------- the command line

  function Line(p: Printable, args: seq<string>): string
  {
    if args == [] then "" else SystemdArg(p, args[0]) + (if |args| == 1 then "" else " " + Line(p, args[1..]))
  }

  /** The arguments of a command, from the front; white space around what is left is dropped. */
  function Arguments(command: string): Option<seq<string>>
    decreases |command|
  {
    var c := Text.TrimSpace(command);
    Text.TrimSpaceFacts(command);
    if c == "" then Some([])
    else
      match Consume(c)
      case None => None
      case Some((value, rest)) => Cons(Literal(value), Arguments(rest))
  }

  function Cons(first: Option<string>, others: Option<seq<string>>): Option<seq<string>> {
    if first.None? || others.None? then None else Some([first.value] + others.value)
  }

  /** Trimming leaves the argument alone. */
  predicate Firm(value: string) {
    value == "" || NeedsQuotes(value) || !Text.IsSpace(value[0])
  }

  lemma ArgumentIsFirm(p: Printable, value: string)
    requires Firm(value)
    ensures SystemdArg(p, value) != "" && !Text.IsSpace(SystemdArg(p, value)[0])
    ensures NeedsQuotes(Doubled(value)) <==> NeedsQuotes(value)
  {
    DoubledKeeps(value);
    SameNeeds(value, Doubled(value));
  }

  lemma SameNeeds(s: string, t: string)
    requires forall x :: x in s <==> x in t
    ensures NeedsQuotes(s) <==> NeedsQuotes(t)
  {
    if i :| 0 <= i < |s| && s[i] in {' ', '\t', '\n', '"', '\'', '\\'} {
      assert s[i] in t;
    }
    if i :| 0 <= i < |t| && t[i] in {' ', '\t', '\n', '"', '\'', '\\'} {
      assert t[i] in s;
    }
  }

  /** Every argument can be told from the blanks around it, and the line does not end in white space. */
  ghost predicate Readable(p: Printable, args: seq<string>) {
    && args != [] && (forall i :: 0 <= i < |args| ==> Firm(args[i]))
    && var last := SystemdArg(p, args[|args| - 1]); last != "" && !Text.IsSpace(last[|last| - 1])
  }

  lemma ReadableTail(p: Printable, args: seq<string>)
    requires Readable(p, args) && |args| > 1
    ensures Readable(p, args[1..])
  {
    var tail := args[1..];
    assert tail[|tail| - 1] == args[|args| - 1];
    assert forall i :: 0 <= i < |tail| ==> tail[i] == args[i + 1];
  }

  lemma LineSplits(p: Printable, args: seq<string>)
    requires |args| > 1
    ensures Line(p, args) == SystemdArg(p, args[0]) + " " + Line(p, args[1..])
  {
  }

  lemma SameEnd(a: string, b: string)
    requires b != ""
    ensures (a + b)[|a + b| - 1] == b[|b| - 1]
  {
  }

  lemma {:induction false} LineEnds(p: Printable, args: seq<string>)
    requires args != [] && SystemdArg(p, args[|args| - 1]) != ""
    ensures Line(p, args) != ""
    ensures var (line, last) := (Line(p, args), SystemdArg(p, args[|args| - 1])); line[|line| - 1] == last[|last| - 1]
  {
    if |args| > 1 {
      assert args[1..][|args| - 2] == args[|args| - 1];
      LineEnds(p, args[1..]);
      LineSplits(p, args);
      SameEnd(SystemdArg(p, args[0]) + " ", Line(p, args[1..]));
    }
  }

  lemma LineBegins(p: Printable, args: seq<string>)
    requires args != [] && SystemdArg(p, args[0]) != ""
    ensures Line(p, args) != "" && Line(p, args)[0] == SystemdArg(p, args[0])[0]
  {
  }

  lemma LineIsTrimmed(p: Printable, args: seq<string>)
    requires Readable(p, args)
    ensures Text.TrimSpace(Line(p, args)) == Line(p, args)
  {
    ArgumentIsFirm(p, args[0]);
    LineBegins(p, args);
    LineEnds(p, args);
    Text.TrimSpaceFacts(Line(p, args));
  }

  lemma FirstArgumentReads(p: Printable, value: string, rest: string)
    requires rest == "" || rest[0] == ' '
    requires Text.TrimSpace(SystemdArg(p, value) + rest) == SystemdArg(p, value) + rest
    ensures Arguments(SystemdArg(p, value) + rest) == Cons(Some(value), Arguments(rest))
  {
    ArgumentReads(p, value, rest);
  }

  lemma ArgumentsSkipBlank(line: string)
    ensures Arguments(" " + line) == Arguments(line)
  {
    Text.TrimSkips(' ', line);
  }

  lemma LineReads(p: Printable, args: seq<string>, rest: string)
    requires args != [] && (rest == "" || rest[0] == ' ') && Arguments(rest) == Some(args[1..])
    requires Text.TrimSpace(SystemdArg(p, args[0]) + rest) == SystemdArg(p, args[0]) + rest
    ensures Arguments(SystemdArg(p, args[0]) + rest) == Some(args)
  {
    FirstArgumentReads(p, args[0], rest);
    assert args == [args[0]] + args[1..];
  }

  /** Reading a rendered command line gives back the arguments it was rendered from. */
  lemma {:induction false} LineRoundTrip(p: Printable, args: seq<string>)
    requires Readable(p, args)
    ensures Arguments(Line(p, args)) == Some(args)
  {
    LineIsTrimmed(p, args);
    var rest := if |args| == 1 then "" else " " + Line(p, args[1..]);
    if |args| == 1 {
      NoArguments();
      assert args[1..] == [];
    } else {
      ReadableTail(p, args);
      LineRoundTrip(p, args[1..]);
      ArgumentsSkipBlank(Line(p, args[1..]));
    }
    LineReads(p, args, rest);
  }

  lemma NoArguments()
    ensures Arguments("") == Some([])
  {
  }

  // ---------------------------------------------------------------- the loops of the decoder

  /** The scan of `consumeSystemdArgument` for the closing quote. */
  method FindClosingQuote(command: string) returns (end: nat)
    requires command != "" && command[0] == '"'
    ensures match ClosingQuote(command[1..])
            case None => end >= |command|
            case Some(n) => end == n + 1 && end < |command|
  {
    end := 1;
    while end < |command|
      invariant 1 <= end
      invariant end <= |command| ==>
                  ClosingQuote(command[1..]) == Shift(end - 1, ClosingQuote(command[end..]))
      invariant end > |command| ==> ClosingQuote(command[1..]) == None
    {
      if command[end] == '\\' {
        assert end + 2 <= |command| ==> command[end..][2..] == command[end + 2..];
        end := end + 2;
        continue;
      }
      if command[end] == '"' {
        break;
      }
      assert command[end..][1..] == command[end + 1..];
      end := end + 1;
    }
  }

  /** The argument loop of `installedArguments`. */
  method ReadArguments(line: string) returns (args: Option<seq<string>>)
    ensures args == Arguments(line)
  {
    var command := Text.TrimSpace(line);
    ghost var at := line;
    var read: seq<string> := [];
    Text.TrimSpaceFacts(line);
    JoinNothing(Arguments(line));
    while command != ""
      invariant command == Text.TrimSpace(at)
      invariant Arguments(line) == Join(read, Arguments(at))
      decreases |at|
    {
      Text.TrimSpaceFacts(at);
      var consumed := Consume(command);
      if consumed.None? {
        return None;
      }
      var literal := Literal(consumed.value.0);
      if literal.None? {
        return None;
      }
      assert Arguments(at) == Cons(literal, Arguments(consumed.value.1));
      JoinCons(read, literal.value, Arguments(consumed.value.1));
      read := read + [literal.value];
      at := consumed.value.1;
      command := Text.TrimSpace(consumed.value.1);
    }
    assert Arguments(at) == Some([]) && read + [] == read;
    return Some(read);
  }

  function Join(read: seq<string>, others: Option<seq<string>>): Option<seq<string>> {
    if others.None? then None else Some(read + others.value)
  }

  lemma JoinNothing(others: Option<seq<string>>)
    ensures Join([], others) == others
  {
    if others.Some? {
      assert [] + others.value == others.value;
    }
  }

  lemma JoinCons(read: seq<string>, x: string, others: Option<seq<string>>)
    ensures Join(read, Cons(Some(x), others)) == Join(read + [x], others)
  {
    if others.Some? {
      assert read + ([x] + others.value) == read + [x] + others.value;
    }
  }
}
