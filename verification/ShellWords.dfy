/** Quoting words for a shell, and reading them back as POSIX.1-2017 XCU sections 2.2 and 2.3 say. */
module ShellWords {
  import opened Options

  // ---------------------------------------------------------------- quoting

  /** `isSafeShellRune` */
  predicate Safe(c: char) {
    c in {'/', '.', '_', '-', '+', ':', '='} || '0' <= c <= '9' || 'A' <= c <= 'Z' || 'a' <= c <= 'z'
  }

  predicate SafeWord(s: string) {
    forall i :: 0 <= i < |s| ==> Safe(s[i])
  }

  const SINGLE := "'\"'\"'"

  /** `strings.ReplaceAll(s, "'", SINGLE)` */
  function Escaped(s: string): string {
    if s == "" then "" else (if s[0] == '\'' then SINGLE else [s[0]]) + Escaped(s[1..])
  }

  /** `ShellQuote` */
  function ShellQuote(s: string): string {
    if s == "" then "''" else if SafeWord(s) then s else "'" + Escaped(s) + "'"
  }

  function Joined(words: seq<string>): string {
    if words == [] then "" else words[0] + (if |words| == 1 then "" else " " + Joined(words[1..]))
  }

  // ---------------------------------------------------------------- reading

  /** Between words, inside one, or inside quotes in one. */
  datatype Mode = Between | Bare | Single | Double

  predicate Blank(c: char) {
    c == ' ' || c == '\t'
  }

  /** Operators, expansions, patterns and comments: text with one of these unquoted is not a plain list of words. */
  predicate Special(c: char) {
    c in {'|', '&', ';', '<', '>', '(', ')', '$', '`', '\n', '*', '?', '[', '#', '~'}
  }

  /** The words of `s`, the first of which already has the characters `word`. */
  function Lex(s: string, mode: Mode, word: string): Option<seq<string>>
    decreases |s|
  {
    match mode
    case Between =>
      if s == "" then Some([]) else if Blank(s[0]) then Lex(s[1..], Between, "") else Unquoted(s, mode, "")
    case Bare =>
      if s == "" then Some([word]) else if Blank(s[0]) then Cons(word, Lex(s[1..], Between, "")) else Unquoted(s, mode, word)
    case Single =>
      if s == "" then None
      else if s[0] == '\'' then Lex(s[1..], Bare, word)
      else Lex(s[1..], Single, word + [s[0]])
    case Double =>
      if s == "" || s[0] == '$' || s[0] == '`' then None
      else if s[0] == '"' then Lex(s[1..], Bare, word)
      else if s[0] != '\\' || |s| == 1 then Lex(s[1..], Double, word + [s[0]])
      else if s[1] == '\n' then Lex(s[2..], Double, word)
      else if s[1] in {'$', '`', '"', '\\'} then Lex(s[2..], Double, word + [s[1]])
      else Lex(s[1..], Double, word + ['\\'])
  }

  function Unquoted(s: string, mode: Mode, word: string): Option<seq<string>>
    requires s != "" && !Blank(s[0])
    decreases |s|, 0
  {
    if s[0] == '\'' then Lex(s[1..], Single, word)
    else if s[0] == '"' then Lex(s[1..], Double, word)
    else if s[0] == '\\' then
      if |s| == 1 then None
      else if s[1] == '\n' then Lex(s[2..], mode, word)
      else Lex(s[2..], Bare, word + [s[1]])
    else if Special(s[0]) then None
    else Lex(s[1..], Bare, word + [s[0]])
  }

  function Cons(word: string, rest: Option<seq<string>>): Option<seq<string>> {
    if rest.None? then None else Some([word] + rest.value)
  }

  // ---------------------------------------------------------------- round trip

  lemma {:induction false} SafeReads(s: string, word: string, rest: string)
    requires SafeWord(s)
    ensures Lex(s + rest, Bare, word) == Lex(rest, Bare, word + s)
  {
    if s == "" {
      assert s + rest == rest && word + s == word;
    } else {
      assert Safe(s[0]);
      assert (s + rest)[1..] == s[1..] + rest;
      SafeReads(s[1..], word + [s[0]], rest);
      assert word + [s[0]] + s[1..] == word + s;
    }
  }

  /** Leaving the single quotes for one quoted quote, and entering them again. */
  lemma QuoteReads(word: string, rest: string)
    ensures Lex(SINGLE + rest, Single, word) == Lex(rest, Single, word + "'")
  {
    var s := SINGLE + rest;
    assert s == "'\"'\"'" + rest;
    assert s[1..] == "\"'\"'" + rest && s[1..][1..] == "'\"'" + rest;
    assert s[2..] == "'\"'" + rest && s[3..] == "\"'" + rest && s[4..] == "'" + rest && s[5..] == rest;
    calc {
      Lex(s, Single, word);
      Lex(s[1..], Bare, word);
      { assert s[1..][1..] == s[2..]; }
      Lex(s[2..], Double, word);
      { assert s[2..][1..] == s[3..]; }
      Lex(s[3..], Double, word + "'");
      { assert s[3..][1..] == s[4..]; }
      Lex(s[4..], Bare, word + "'");
      { assert s[4..][1..] == s[5..]; }
      Lex(s[5..], Single, word + "'");
    }
  }

  lemma {:induction false} EscapedReads(s: string, word: string, rest: string)
    ensures Lex(Escaped(s) + "'" + rest, Single, word) == Lex(rest, Bare, word + s)
  {
    if s == "" {
      assert Escaped(s) + "'" + rest == "'" + rest;
      assert ("'" + rest)[1..] == rest && word + s == word;
    } else {
      var tail := Escaped(s[1..]) + "'" + rest;
      EscapedReads(s[1..], word + [s[0]], rest);
      assert word + [s[0]] + s[1..] == word + s;
      if s[0] == '\'' {
        QuoteReads(word, tail);
        assert Escaped(s) + "'" + rest == SINGLE + tail;
      } else {
        assert Escaped(s) + "'" + rest == [s[0]] + tail;
        assert ([s[0]] + tail)[1..] == tail;
      }
    }
  }

  lemma SafeWordReads(s: string, rest: string)
    requires s != "" && SafeWord(s)
    ensures Lex(s + rest, Between, "") == Lex(rest, Bare, s)
  {
    assert Safe(s[0]) && (s + rest)[0] == s[0] && !Blank(s[0]);
    assert (s + rest)[1..] == s[1..] + rest;
    assert "" + [s[0]] == [s[0]];
    assert Lex(s + rest, Between, "") == Unquoted(s + rest, Between, "") == Lex(s[1..] + rest, Bare, [s[0]]);
    SafeReads(s[1..], [s[0]], rest);
    assert [s[0]] + s[1..] == s;
  }

  lemma OpeningQuote(text: string)
    ensures Lex("'" + text, Between, "") == Lex(text, Single, "")
  {
    var t := "'" + text;
    assert t[0] == '\'' && t[1..] == text && !Blank(t[0]);
    assert Lex(t, Between, "") == Unquoted(t, Between, "");
  }

  lemma QuotedShape(s: string)
    requires s == "" || !SafeWord(s)
    ensures ShellQuote(s) == "'" + (Escaped(s) + "'")
  {
  }

  lemma Reassociated(a: string, b: string, c: string, d: string)
    ensures a + (b + c) + d == a + (b + c + d)
  {
  }

  /** A quoted word is read as that word, whatever blank-separated text follows. */
  lemma WordReads(s: string, rest: string)
    ensures Lex(ShellQuote(s) + rest, Between, "") == Lex(rest, Bare, s)
  {
    if s != "" && SafeWord(s) {
      SafeWordReads(s, rest);
    } else {
      QuotedShape(s);
      Reassociated("'", Escaped(s), "'", rest);
      OpeningQuote(Escaped(s) + "'" + rest);
      EscapedReads(s, "", rest);
      assert "" + s == s;
    }
  }

  function Quoted(words: seq<string>): (r: seq<string>)
    ensures |r| == |words| && forall i :: 0 <= i < |r| ==> r[i] == ShellQuote(words[i])
  {
    seq(|words|, i requires 0 <= i < |words| => ShellQuote(words[i]))
  }

  /** Any list of words survives quoting, joining with blanks, and splitting by a shell. */
  lemma {:induction false} WordListRoundTrip(words: seq<string>)
    ensures Lex(Joined(Quoted(words)), Between, "") == Some(words)
  {
    if words != [] {
      var q := Quoted(words);
      assert q[1..] == Quoted(words[1..]);
      WordListRoundTrip(words[1..]);
      if |words| == 1 {
        WordReads(words[0], "");
        assert ShellQuote(words[0]) + "" == ShellQuote(words[0]) == Joined(q);
        assert words == [words[0]];
      } else {
        var rest := " " + Joined(q[1..]);
        WordReads(words[0], rest);
        assert rest[1..] == Joined(q[1..]);
      }
      assert words == [words[0]] + words[1..];
    }
  }

  // ---------------------------------------------------------------- hook commands

  datatype Transition = Running | Waiting | Idle | FailedTurn | Interrupted | Live | Gone

  /** `storedHookTransitionArgument` */
  function Argument(t: Transition): (string, string) {
    match t
    case Running => ("--activity", "running")
    case Waiting => ("--activity", "waiting")
    case Idle => ("--activity", "idle")
    case FailedTurn => ("--activity", "failed")
    case Interrupted => ("--activity", "interrupted")
    case Live => ("--presence", "live")
    case Gone => ("--presence", "gone")
  }

  const VERSION := "15"

  /** The argument vector a hook is meant to run with. */
  function HookArguments(binary: string, harness: string, t: Transition, event: string, source: string, stdin: string): seq<string> {
    [binary, "report", harness, Argument(t).0, Argument(t).1] + (if event == "" then [] else ["--event", event])
    + ["--reporter-version", VERSION, "--reporter", source, stdin, "--quiet"]
  }

  /** The words `reportHookCommand` writes: some quoted, some as they are. */
  function HookWords(binary: string, harness: string, t: Transition, event: string, source: string, stdin: string): seq<string> {
    [ShellQuote(binary), "report", ShellQuote(harness), Argument(t).0, ShellQuote(Argument(t).1)]
    + (if event == "" then [] else ["--event", ShellQuote(event)])
    + ["--reporter-version", ShellQuote(VERSION), "--reporter", ShellQuote(source), stdin, "--quiet"]
  }

  lemma SafeStays(s: string)
    requires s != "" && SafeWord(s)
    ensures ShellQuote(s) == s
  {
  }

  lemma TransitionStays(t: Transition)
    ensures ShellQuote(Argument(t).0) == Argument(t).0
  {
    SafeStays(Argument(t).0);
  }

  lemma ReportStays()
    ensures ShellQuote("report") == "report"
  {
    SafeStays("report");
  }

  lemma FlagsStay()
    ensures ShellQuote("--reporter-version") == "--reporter-version"
    ensures ShellQuote("--reporter") == "--reporter" && ShellQuote("--quiet") == "--quiet"
  {
    SafeStays("--reporter-version");
    SafeStays("--reporter");
    SafeStays("--quiet");
  }

  lemma StdinStays(stdin: string)
    requires stdin in {"--raw-stdin", "--raw-stdin-defaults-only"}
    ensures ShellQuote(stdin) == stdin
  {
    SafeStays(stdin);
  }

  lemma QuotedTwo(a: string, b: string)
    ensures Quoted([a, b]) == [ShellQuote(a), ShellQuote(b)] && Quoted([]) == []
  {
  }

  lemma QuotedThree(a: string, b: string, c: string)
    ensures Quoted([a, b, c]) == [ShellQuote(a), ShellQuote(b), ShellQuote(c)]
  {
  }

  /** Words that need no quotes may be left as they are. */
  lemma FirstWords(binary: string, report: string, harness: string, flag: string, value: string)
    requires ShellQuote(report) == report && ShellQuote(flag) == flag
    ensures Quoted([binary, report, harness, flag, value])
         == [ShellQuote(binary), report, ShellQuote(harness), flag, ShellQuote(value)]
  {
    QuotedTwo(binary, report);
    QuotedThree(harness, flag, value);
    QuotedAppends([binary, report], [harness, flag, value]);
    assert [binary, report, harness, flag, value] == [binary, report] + [harness, flag, value];
  }

  lemma EventWords(event: string)
    ensures Quoted(["--event", event]) == ["--event", ShellQuote(event)] && Quoted([]) == []
  {
    SafeStays("--event");
    QuotedTwo("--event", event);
  }

  lemma LastWords(versionFlag: string, version: string, sourceFlag: string, source: string, stdin: string, quiet: string)
    requires ShellQuote(versionFlag) == versionFlag && ShellQuote(sourceFlag) == sourceFlag
    requires ShellQuote(stdin) == stdin && ShellQuote(quiet) == quiet
    ensures Quoted([versionFlag, version, sourceFlag, source, stdin, quiet])
         == [versionFlag, ShellQuote(version), sourceFlag, ShellQuote(source), stdin, quiet]
  {
    QuotedThree(versionFlag, version, sourceFlag);
    QuotedThree(source, stdin, quiet);
    QuotedAppends([versionFlag, version, sourceFlag], [source, stdin, quiet]);
    assert [versionFlag, version, sourceFlag, source, stdin, quiet] == [versionFlag, version, sourceFlag] + [source, stdin, quiet];
  }

  lemma HookWordsAreQuoted(binary: string, harness: string, t: Transition, event: string, source: string, stdin: string)
    requires stdin in {"--raw-stdin", "--raw-stdin-defaults-only"}
    ensures HookWords(binary, harness, t, event, source, stdin) == Quoted(HookArguments(binary, harness, t, event, source, stdin))
  {
    TransitionStays(t);
    ReportStays();
    FlagsStay();
    StdinStays(stdin);
    FirstWords(binary, "report", harness, Argument(t).0, Argument(t).1);
    EventWords(event);
    LastWords("--reporter-version", VERSION, "--reporter", source, stdin, "--quiet");
    var first := [binary, "report", harness, Argument(t).0, Argument(t).1];
    var middle := if event == "" then [] else ["--event", event];
    QuotedAppends(first, middle);
    QuotedAppends(first + middle, ["--reporter-version", VERSION, "--reporter", source, stdin, "--quiet"]);
  }

  /** The words of a hook's command are the arguments meant; whether the first of them is run is another matter. */
  lemma HookCommandSplits(binary: string, harness: string, t: Transition, event: string, source: string, stdin: string)
    requires stdin in {"--raw-stdin", "--raw-stdin-defaults-only"}
    ensures Lex(Joined(HookWords(binary, harness, t, event, source, stdin)), Between, "")
         == Some(HookArguments(binary, harness, t, event, source, stdin))
  {
    HookWordsAreQuoted(binary, harness, t, event, source, stdin);
    WordListRoundTrip(HookArguments(binary, harness, t, event, source, stdin));
  }

  lemma QuotedAppends(a: seq<string>, b: seq<string>)
    ensures Quoted(a + b) == Quoted(a) + Quoted(b)
  {
  }

  // ---------------------------------------------------------------- the first word

  predicate NameChar(c: char) {
    'a' <= c <= 'z' || 'A' <= c <= 'Z' || c == '_' || '0' <= c <= '9'
  }

  /** A word that begins with a name and an equals sign sets a variable when it comes first (XCU section 2.10.2, rule 7). */
  predicate IsAssignment(text: string) {
    exists n :: 0 < n < |text| && text[n] == '=' && !('0' <= text[0] <= '9') && forall i :: 0 <= i < n ==> NameChar(text[i])
  }

  /**
   * Words section 2.4 reserves, or lets an implementation reserve, when no character
   * of theirs is quoted; among them a name with a colon after it.
   */
  predicate IsReserved(text: string) {
    || text in {"!", "{", "}", "case", "do", "done", "elif", "else", "esac", "fi", "for", "if", "in", "then", "until", "while"}
    || text in {"[[", "]]", "function", "select"}
    || IsLabel(text)
  }

  predicate IsLabel(text: string) {
    && |text| > 1 && text[|text| - 1] == ':' && !('0' <= text[0] <= '9')
    && forall i :: 0 <= i < |text| - 1 ==> NameChar(text[i])
  }

  /** The first word of a command, with its quotes, is where a shell looks for a program's name. */
  predicate NamesCommand(token: string) {
    !IsAssignment(token) && !IsReserved(token)
  }

  /** The text of a word up to the first unquoted blank, with its quotes but without line continuations. */
  function Token(s: string, mode: Mode): string
    decreases |s|
  {
    if s == "" then ""
    else if s[0] == '\\' && mode != Single && |s| > 1 then
      (if s[1] == '\n' then "" else s[..2]) + Token(s[2..], mode)
    else
      match mode
      case Single => [s[0]] + Token(s[1..], if s[0] == '\'' then Bare else Single)
      case Double => [s[0]] + Token(s[1..], if s[0] == '"' then Bare else Double)
      case _ =>
        if Blank(s[0]) then ""
        else [s[0]] + Token(s[1..], if s[0] == '\'' then Single else if s[0] == '"' then Double else Bare)
  }

  function FirstToken(s: string): string
    decreases |s|
  {
    if s != "" && Blank(s[0]) then FirstToken(s[1..])
    else if |s| > 1 && s[0] == '\\' && s[1] == '\n' then FirstToken(s[2..])
    else Token(s, Bare)
  }

  /** The argument vector of a line that is one plain command. */
  function Command(text: string): Option<seq<string>> {
    var words := Lex(text, Between, "");
    if words.None? || words.value == [] || !NamesCommand(FirstToken(text)) then None else words
  }

  predicate Ends(rest: string) {
    rest == "" || Blank(rest[0])
  }

  lemma {:induction false} TokenOfSafe(s: string, rest: string)
    requires SafeWord(s) && Ends(rest)
    ensures Token(s + rest, Bare) == s
  {
    if s == "" {
      assert s + rest == rest;
    } else {
      assert Safe(s[0]) && (s + rest)[0] == s[0];
      assert (s + rest)[1..] == s[1..] + rest;
      TokenOfSafe(s[1..], rest);
    }
  }

  lemma TokenInSingle(rest: string)
    ensures Token("'" + rest, Single) == "'" + Token(rest, Bare)
  {
    assert ("'" + rest)[1..] == rest;
  }

  lemma TokenAtSingle(rest: string)
    ensures Token("'" + rest, Bare) == "'" + Token(rest, Single)
  {
    assert ("'" + rest)[1..] == rest;
  }

  lemma TokenAtDouble(rest: string)
    ensures Token("\"" + rest, Bare) == "\"" + Token(rest, Double)
  {
    assert ("\"" + rest)[1..] == rest;
  }

  lemma TokenInDouble(rest: string)
    ensures Token("\"" + rest, Double) == "\"" + Token(rest, Bare)
    ensures Token("'" + rest, Double) == "'" + Token(rest, Double)
  {
    assert ("\"" + rest)[1..] == rest && ("'" + rest)[1..] == rest;
  }

  lemma SingleSpelled(text: string)
    ensures SINGLE + text == "'" + ("\"" + ("'" + ("\"" + ("'" + text))))
  {
  }

  lemma TokenOfSingle(rest: string)
    ensures Token(SINGLE + rest, Single) == SINGLE + Token(rest, Single)
  {
    var r1 := "'" + rest;
    var r2 := "\"" + r1;
    var r3 := "'" + r2;
    TokenAtSingle(rest);
    TokenInDouble(r1);
    TokenInDouble(r2);
    TokenAtDouble(r3);
    TokenInSingle("\"" + r3);
    SingleSpelled(rest);
    SingleSpelled(Token(rest, Single));
  }

  lemma {:induction false} TokenOfEscaped(s: string, rest: string)
    requires Ends(rest)
    ensures Token(Escaped(s) + "'" + rest, Single) == Escaped(s) + "'"
  {
    if s == "" {
      assert Escaped(s) + "'" + rest == "'" + rest && ("'" + rest)[1..] == rest;
    } else {
      var tail := Escaped(s[1..]) + "'" + rest;
      TokenOfEscaped(s[1..], rest);
      if s[0] == '\'' {
        assert Escaped(s) + "'" + rest == SINGLE + tail;
        TokenOfSingle(tail);
      } else {
        assert Escaped(s) + "'" + rest == [s[0]] + tail && ([s[0]] + tail)[1..] == tail;
      }
    }
  }

  /** A shell sees the first word as it was quoted. */
  lemma TokenOfQuoted(s: string, rest: string)
    requires Ends(rest)
    ensures FirstToken(ShellQuote(s) + rest) == ShellQuote(s)
  {
    var q := ShellQuote(s);
    if s != "" && SafeWord(s) {
      assert Safe(s[0]) && (q + rest)[0] == s[0];
      TokenOfSafe(s, rest);
    } else {
      assert q == "'" + Escaped(s) + "'";
      assert (q + rest)[0] == '\'' && (q + rest)[1..] == Escaped(s) + "'" + rest;
      TokenOfEscaped(s, rest);
    }
  }

  /** A word that quoting leaves as it is although a shell would not look for a program of that name. */
  predicate NotAProgram(s: string) {
    SafeWord(s) && (IsAssignment(s) || IsReserved(s))
  }

  /**
   * Quoting does not keep a first word from being a variable setting or a reserved
   * word. With these exceptions, of which no absolute path is one, every word can be
   * the name of a program.
   */
  lemma FirstWordNamesCommand(s: string)
    ensures IsAssignment(ShellQuote(s)) <==> SafeWord(s) && IsAssignment(s)
    ensures IsReserved(ShellQuote(s)) <==> SafeWord(s) && IsReserved(s)
    ensures NamesCommand(ShellQuote(s)) <==> !NotAProgram(s)
    ensures s != "" && s[0] == '/' ==> NamesCommand(ShellQuote(s))
    ensures !NamesCommand(ShellQuote("A=b")) && !NamesCommand(ShellQuote("if")) && !NamesCommand(ShellQuote("a:"))
  {
    assert IsAssignment("A=b") by { assert "A=b"[1] == '='; }
    SafeStays("A=b");
    SafeStays("if");
    SafeStays("a:");
    if s == "" || !SafeWord(s) {
      assert ShellQuote(s)[0] == '\'';
    }
  }

  /** Any non-empty list of words is run with exactly these arguments, unless the first is one of the exceptions. */
  lemma CommandRoundTrip(words: seq<string>)
    requires words != []
    ensures Command(Joined(Quoted(words))) == if NotAProgram(words[0]) then None else Some(words)
  {
    WordListRoundTrip(words);
    var q := Quoted(words);
    var rest := if |q| == 1 then "" else " " + Joined(q[1..]);
    assert Joined(q) == ShellQuote(words[0]) + rest;
    TokenOfQuoted(words[0], rest);
    FirstWordNamesCommand(words[0]);
  }

  /** A hook runs the binary with exactly the arguments meant, if and only if the binary's name can be that of a program. */
  lemma HookCommandRuns(binary: string, harness: string, t: Transition, event: string, source: string, stdin: string)
    requires stdin in {"--raw-stdin", "--raw-stdin-defaults-only"}
    ensures Command(Joined(HookWords(binary, harness, t, event, source, stdin)))
         == if NotAProgram(binary) then None else Some(HookArguments(binary, harness, t, event, source, stdin))
  {
    HookWordsAreQuoted(binary, harness, t, event, source, stdin);
    CommandRoundTrip(HookArguments(binary, harness, t, event, source, stdin));
  }
}
