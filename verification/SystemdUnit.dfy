/** The managed systemd unit: rendered from options, and read back when it is upgraded. */
module SystemdUnit {
  import opened Options
  import opened GoQuote
  import opened SystemdArguments
  import Text

  datatype ServiceOptions = ServiceOptions(binary: string, store: string, interval: int, grace: int)

  /** Surroundings: `LookPath`, `filepath.Abs`, and printing and parsing of durations. */
  datatype Env = Env(
    look: string -> Option<string>,
    abs: string -> string,
    show: int -> string,
    parse: string -> Option<int>,
    printable: Printable)

  const DEFAULT_INTERVAL := 300_000_000

  /** Letters, digits and a few signs: nothing that needs quoting, doubling or trimming. */
  predicate PlainChar(c: char) {
    'a' <= c <= 'z' || '0' <= c <= '9' || c in {'-', '.', '\U{B5}'}
  }

  predicate PlainWord(s: string) {
    s != "" && forall c :: c in s ==> PlainChar(c)
  }

  /** Absolute paths are absolute and stay the same; a printed duration is one word and parses back. */
  ghost predicate Sane(env: Env) {
    && (forall path :: env.abs(path) != "" && env.abs(path)[0] == '/' && env.abs(env.abs(path)) == env.abs(path))
    && (forall d: int :: d >= 0 ==> PlainWord(env.show(d)) && env.parse(env.show(d)) == Some(d))
  }

  function ResolveBinary(env: Env, binary: string): Option<string> {
    if binary == "" then None
    else if '/' !in binary || binary == "/" then
      match env.look(binary)
      case None => None
      case Some(found) => Some(env.abs(found))
    else Some(env.abs(binary))
  }

  /** `normalizeOptions` */
  function Normalize(env: Env, o: ServiceOptions): Option<ServiceOptions> {
    if o.binary == "" || o.store == "" then None
    else
      match ResolveBinary(env, o.binary)
      case None => None
      case Some(binary) =>
        var interval := if o.interval == 0 then DEFAULT_INTERVAL else o.interval;
        if interval <= 0 || o.grace < 0 then None
        else Some(ServiceOptions(binary, env.abs(o.store), interval, o.grace))
  }

  const HEADER := [
    "# aht managed observer service", "# version: 8", "[Unit]", "Description=AHT observer",
    "StartLimitIntervalSec=0", "", "[Service]"]

  const FOOTER := ["Restart=on-failure", "RestartSec=30s", "", "[Install]", "WantedBy=default.target", ""]

  const EXEC := "ExecStart="

  /** Words with one blank between each two. */
  function Spaced(words: seq<string>): string {
    if words == [] then "" else words[0] + (if |words| == 1 then "" else " " + Spaced(words[1..]))
  }

  /** The words of the command line, of which only the two paths are quoted. */
  function CommandWords(env: Env, o: ServiceOptions): (words: seq<string>)
    ensures |words| == 11
  {
    Args(env, o)[0 := SystemdArg(env.printable, o.binary)][2 := SystemdArg(env.printable, o.store)]
  }

  /** The command line for normalized options; only the two paths are quoted. */
  function ExecStart(env: Env, o: ServiceOptions): string {
    Spaced(CommandWords(env, o))
  }

  function Args(env: Env, o: ServiceOptions): seq<string> {
    [o.binary, "--store", o.store, "manage", "tracker", "run",
     "--interval", env.show(o.interval), "--grace-period", env.show(o.grace), "--quiet"]
  }

  /** `RenderSystemdUnit` */
  function Render(env: Env, o: ServiceOptions): Option<string> {
    match Normalize(env, o)
    case None => None
    case Some(n) => Some(Text.JoinLines(HEADER + [EXEC + ExecStart(env, n)] + FOOTER))
  }

  // ---------------------------------------------------------------- reading back

  /** Up to and including the first newline. */
  function LineLength(s: string): (n: nat)
    ensures n <= |s| && (s != "" ==> n > 0)
  {
    if s == "" then 0 else if s[0] == '\n' then 1 else 1 + LineLength(s[1..])
  }

  /** The one `ExecStart=` line of a unit; `command` is what has been found before. */
  function Command(content: string, command: string): Option<string>
    decreases |content|
  {
    if content == "" then Some(command)
    else
      var (line, rest) := (Text.TrimSpace(content[..LineLength(content)]), content[LineLength(content)..]);
      if !(EXEC <= line) then Command(rest, command)
      else if command != "" then None
      else Command(rest, line[|EXEC|..])
  }

  function Installed(content: string): Option<seq<string>> {
    match Command(content, "")
    case None => None
    case Some(command) => if Arguments(command) == Some([]) then None else Arguments(command)
  }

  /** `installedArguments` */
  method InstalledArguments(content: string) returns (args: Option<seq<string>>)
    ensures args == Installed(content)
  {
    var (rest, command) := (content, "");
    while rest != ""
      invariant Command(content, "") == Command(rest, command)
      decreases |rest|
    {
      var n := LineLength(rest);
      var line := Text.TrimSpace(rest[..n]);
      if EXEC <= line {
        if command != "" {
          return None;
        }
        command := line[|EXEC|..];
      }
      rest := rest[n..];
    }
    args := ReadArguments(command);
    if args == Some([]) {
      return None;
    }
  }

  const IGNORED := {"manage", "tracker", "run", "observe", "monitor", "--quiet"}

  /** The arguments after the binary, folded into options. */
  function Folded(env: Env, args: seq<string>, o: ServiceOptions): Option<ServiceOptions> {
    if args == [] then Some(o)
    else if args[0] in {"--store", "--interval", "--grace-period"} then
      if |args| == 1 then None
      else if args[0] == "--store" then Folded(env, args[2..], o.(store := args[1]))
      else if env.parse(args[1]).None? then None
      else if args[0] == "--interval" then Folded(env, args[2..], o.(interval := env.parse(args[1]).value))
      else Folded(env, args[2..], o.(grace := env.parse(args[1]).value))
    else if args[0] in IGNORED then Folded(env, args[1..], o)
    else None
  }

  function Recovered(env: Env, args: seq<string>, binary: string): Option<ServiceOptions> {
    var o := Folded(env, if args == [] then [] else args[1..], ServiceOptions(binary, "", 0, 0));
    if o.None? || o.value.store == "" || o.value.interval <= 0 then None else o
  }

  /** `recoverOptions` */
  method RecoverOptions(env: Env, args: seq<string>, binary: string) returns (r: Option<ServiceOptions>)
    ensures r == Recovered(env, args, binary)
  {
    var options := ServiceOptions(binary, "", 0, 0);
    var i := 1;
    while i < |args|
      invariant 1 <= i && (i <= |args| || args == [])
      invariant Folded(env, if args == [] then [] else args[1..], ServiceOptions(binary, "", 0, 0))
             == Folded(env, if args == [] then [] else args[i..], options)
      decreases |args| - i
    {
      var flag := args[i];
      assert args[i..][1..] == args[i + 1..];
      if flag in {"--store", "--interval", "--grace-period"} {
        i := i + 1;
        if i >= |args| {
          return None;
        }
        assert args[i - 1..][2..] == args[i + 1..];
        if flag == "--store" {
          options := options.(store := args[i]);
        } else {
          var value := env.parse(args[i]);
          if value.None? {
            return None;
          }
          options := if flag == "--interval" then options.(interval := value.value) else options.(grace := value.value);
        }
      } else if flag !in IGNORED {
        return None;
      }
      i := i + 1;
    }
    if options.store == "" || options.interval <= 0 {
      return None;
    }
    return Some(options);
  }

  // ---------------------------------------------------------------- which arguments are understood

  /** A flag with its value, or a word of its own. */
  datatype Item = Setting(flag: string, value: string) | Word(word: string)

  predicate Understood(env: Env, item: Item) {
    match item
    case Setting(flag, value) => flag == "--store" || (flag in {"--interval", "--grace-period"} && env.parse(value).Some?)
    case Word(word) => word in IGNORED
  }

  ghost predicate AllUnderstood(env: Env, items: seq<Item>) {
    forall item :: item in items ==> Understood(env, item)
  }

  function Spelled(items: seq<Item>): seq<string> {
    if items == [] then []
    else (match items[0] case Setting(flag, value) => [flag, value] case Word(word) => [word]) + Spelled(items[1..])
  }

  /** The last value a flag is given. */
  function LastOf(items: seq<Item>, flag: string): Option<string> {
    if items == [] then None
    else if LastOf(items[1..], flag).Some? then LastOf(items[1..], flag)
    else if items[0].Setting? && items[0].flag == flag then Some(items[0].value)
    else None
  }

  function Duration(env: Env, text: Option<string>, otherwise: int): int {
    if text.Some? && env.parse(text.value).Some? then env.parse(text.value).value else otherwise
  }

  /** The options with what the items set. */
  function Applied(env: Env, items: seq<Item>, o: ServiceOptions): ServiceOptions {
    o.(store := if LastOf(items, "--store").Some? then LastOf(items, "--store").value else o.store,
       interval := Duration(env, LastOf(items, "--interval"), o.interval),
       grace := Duration(env, LastOf(items, "--grace-period"), o.grace))
  }

  lemma {:induction false} LastIsUnderstood(env: Env, items: seq<Item>, flag: string)
    requires AllUnderstood(env, items) && flag in {"--interval", "--grace-period"}
    ensures LastOf(items, flag).Some? ==> env.parse(LastOf(items, flag).value).Some?
  {
    if items != [] {
      assert items[0] in items && forall item :: item in items[1..] ==> item in items;
      LastIsUnderstood(env, items[1..], flag);
    }
  }

  lemma AppliedOne(env: Env, item: Item, o: ServiceOptions)
    ensures LastOf([item], "--store") == if item.Setting? && item.flag == "--store" then Some(item.value) else None
    ensures LastOf([item], "--interval") == if item.Setting? && item.flag == "--interval" then Some(item.value) else None
    ensures LastOf([item], "--grace-period") == if item.Setting? && item.flag == "--grace-period" then Some(item.value) else None
  {
    assert [item][1..] == [];
  }

  lemma AppliedFirst(env: Env, items: seq<Item>, o: ServiceOptions)
    requires items != [] && AllUnderstood(env, items)
    ensures Applied(env, items, o) == Applied(env, items[1..], Applied(env, [items[0]], o))
  {
    AppliedOne(env, items[0], o);
    assert items[0] in items && forall item :: item in items[1..] ==> item in items;
    LastIsUnderstood(env, items[1..], "--interval");
    LastIsUnderstood(env, items[1..], "--grace-period");
  }

  /** Folding in one item comes to what it sets. */
  lemma FoldedFirst(env: Env, item: Item, rest: seq<string>, o: ServiceOptions)
    requires Understood(env, item)
    ensures Folded(env, Spelled([item]) + rest, o) == Folded(env, rest, Applied(env, [item], o))
  {
    AppliedOne(env, item, o);
    assert [item][1..] == [];
    var args := Spelled([item]) + rest;
    match item {
      case Setting(flag, value) =>
        assert Spelled([item]) == [flag, value] + [] == [flag, value];
        assert args[2..] == rest;
      case Word(word) =>
        assert Spelled([item]) == [word] + [] == [word];
        assert args[1..] == rest;
    }
  }

  lemma SpelledFirst(first: Item, rest: seq<Item>)
    ensures Spelled([first] + rest) == Spelled([first]) + Spelled(rest)
  {
    assert ([first] + rest)[1..] == rest && [first][1..] == [];
  }

  lemma AllUnderstoodFirst(env: Env, items: seq<Item>)
    requires items != [] && AllUnderstood(env, items)
    ensures items == [items[0]] + items[1..] && Understood(env, items[0]) && AllUnderstood(env, items[1..])
  {
    assert items[0] in items && forall item :: item in items[1..] ==> item in items;
  }

  lemma {:induction false} FoldedItems(env: Env, items: seq<Item>, o: ServiceOptions)
    requires AllUnderstood(env, items)
    ensures Folded(env, Spelled(items), o) == Some(Applied(env, items, o))
    decreases |items|
  {
    if items != [] {
      AllUnderstoodFirst(env, items);
      var (first, rest) := (items[0], items[1..]);
      var next := Applied(env, [first], o);
      assert Folded(env, Spelled(items), o) == Folded(env, Spelled(rest), next) by {
        SpelledFirst(first, rest);
        FoldedFirst(env, first, Spelled(rest), o);
      }
      assert Applied(env, items, o) == Applied(env, rest, next) by {
        AppliedFirst(env, items, o);
      }
      FoldedItems(env, rest, next);
    }
  }

  lemma {:induction false} ItemsOf(env: Env, args: seq<string>, o: ServiceOptions) returns (items: seq<Item>)
    requires Folded(env, args, o).Some?
    ensures Spelled(items) == args && AllUnderstood(env, items)
    decreases |args|
  {
    if args == [] {
      items := [];
    } else {
      var n := if args[0] in {"--store", "--interval", "--grace-period"} then 2 else 1;
      var first := if n == 2 then Setting(args[0], args[1]) else Word(args[0]);
      assert [first][1..] == [];
      assert args == Spelled([first]) + args[n..];
      FoldedFirst(env, first, args[n..], o);
      var rest := ItemsOf(env, args[n..], Applied(env, [first], o));
      items := [first] + rest;
    }
  }

  ghost predicate Reads(env: Env, args: seq<string>, binary: string, items: seq<Item>, o: ServiceOptions) {
    && (if args == [] then [] else args[1..]) == Spelled(items) && AllUnderstood(env, items)
    && o == Applied(env, items, ServiceOptions(binary, "", 0, 0))
  }

  /**
   * Options are recovered from exactly those arguments that are, after the binary, flags
   * with a value and words without meaning; each flag counts with its last value, and the
   * store and a positive interval must be among them.
   */
  lemma RecoveredMeans(env: Env, args: seq<string>, binary: string, o: ServiceOptions)
    ensures Recovered(env, args, binary) == Some(o) <==>
            o.store != "" && o.interval > 0 && exists items :: Reads(env, args, binary, items, o)
  {
    var (rest, start) := (if args == [] then [] else args[1..], ServiceOptions(binary, "", 0, 0));
    if Folded(env, rest, start).Some? {
      var items := ItemsOf(env, rest, start);
      FoldedItems(env, items, start);
      assert Reads(env, args, binary, items, Folded(env, rest, start).value);
    }
    if items :| Reads(env, args, binary, items, o) {
      FoldedItems(env, items, start);
    }
  }

  // ---------------------------------------------------------------- round trip

  lemma PlainIsFirm(s: string)
    requires PlainWord(s)
    ensures !NeedsQuotes(s) && !Text.IsSpace(s[0]) && !Text.IsSpace(s[|s| - 1])
  {
    assert forall i :: 0 <= i < |s| ==> s[i] in s && PlainChar(s[i]);
  }

  lemma PlainIsNotDoubled(s: string)
    requires PlainWord(s)
    ensures Doubled(s) == s
  {
    assert forall i :: 0 <= i < |s| ==> s[i] in s && PlainChar(s[i]);
    NothingToDouble(s, '%');
    NothingToDouble(s, '$');
  }

  lemma PlainStays(p: Printable, s: string)
    requires PlainWord(s)
    ensures SystemdArg(p, s) == s && Firm(s) && !Text.IsSpace(s[|s| - 1])
  {
    PlainIsFirm(s);
    PlainIsNotDoubled(s);
  }

  lemma {:induction false} NothingToDouble(s: string, c: char)
    requires forall i :: 0 <= i < |s| ==> s[i] != c
    ensures Double(s, c) == s
  {
    if s != "" {
      NothingToDouble(s[1..], c);
      assert s == [s[0]] + s[1..];
    }
  }

  lemma LiteralsArePlain()
    ensures PlainWord("--store") && PlainWord("manage") && PlainWord("tracker") && PlainWord("run")
    ensures PlainWord("--interval") && PlainWord("--grace-period") && PlainWord("--quiet")
  {
  }

  predicate Normal(o: ServiceOptions) {
    o.binary != "" && o.binary[0] == '/' && o.store != "" && o.store[0] == '/' && o.interval > 0 && o.grace >= 0
  }

  function Rendered(p: Printable, args: seq<string>): (r: seq<string>)
    ensures |r| == |args| && forall i :: 0 <= i < |r| ==> r[i] == SystemdArg(p, args[i])
  {
    seq(|args|, i requires 0 <= i < |args| => SystemdArg(p, args[i]))
  }

  lemma {:induction false} LineIsSpaced(p: Printable, args: seq<string>)
    ensures Line(p, args) == Spaced(Rendered(p, args))
  {
    if args != [] {
      LineIsSpaced(p, args[1..]);
      assert Rendered(p, args)[1..] == Rendered(p, args[1..]);
    }
  }

  lemma ArgsArePlain(env: Env, o: ServiceOptions, i: nat)
    requires Sane(env) && Normal(o) && i < 11 && i != 0 && i != 2
    ensures PlainWord(Args(env, o)[i])
  {
    LiteralsArePlain();
  }

  lemma ArgStays(env: Env, o: ServiceOptions, i: nat)
    requires Sane(env) && Normal(o) && i < 11 && i != 0 && i != 2
    ensures var a := Args(env, o)[i];
            SystemdArg(env.printable, a) == a && Firm(a) && a != "" && !Text.IsSpace(a[|a| - 1])
  {
    ArgsArePlain(env, o, i);
    PlainStays(env.printable, Args(env, o)[i]);
  }

  lemma WordIsRendered(env: Env, o: ServiceOptions, i: nat)
    requires Sane(env) && Normal(o) && i < 11
    ensures CommandWords(env, o)[i] == SystemdArg(env.printable, Args(env, o)[i])
  {
    if i != 0 && i != 2 {
      ArgStays(env, o, i);
    }
  }

  /** The command line is the rendered argument list: only the paths ever need quoting. */
  lemma ExecStartIsLine(env: Env, o: ServiceOptions)
    requires Sane(env) && Normal(o)
    ensures ExecStart(env, o) == Line(env.printable, Args(env, o))
  {
    var (words, rendered) := (CommandWords(env, o), Rendered(env.printable, Args(env, o)));
    LineIsSpaced(env.printable, Args(env, o));
    forall i | 0 <= i < 11 ensures rendered[i] == words[i] {
      WordIsRendered(env, o, i);
    }
    assert rendered == words;
  }

  lemma ArgsAreReadable(env: Env, o: ServiceOptions)
    requires Sane(env) && Normal(o)
    ensures Readable(env.printable, Args(env, o))
  {
    var args := Args(env, o);
    forall i | 0 <= i < |args| ensures Firm(args[i]) {
      if i != 0 && i != 2 {
        ArgStays(env, o, i);
      }
    }
    ArgStays(env, o, 10);
  }

  // ---------------------------------------------------------------- lines

  /** A line of the unit that cannot be taken for the command. */
  predicate Other(line: string) {
    '\n' !in line && (line == "" || (!Text.IsSpace(line[0]) && line[0] != 'E'))
  }

  lemma {:induction false} LineLengthIs(line: string, rest: string)
    requires '\n' !in line
    ensures LineLength(line + "\n" + rest) == |line| + 1
    ensures LineLength(line) == |line|
  {
    if line != "" {
      LineLengthIs(line[1..], rest);
      assert (line + "\n" + rest)[1..] == line[1..] + "\n" + rest;
    } else {
      assert line + "\n" + rest == "\n" + rest;
    }
  }

  /** Trimming a line that begins firmly takes nothing from its front. */
  lemma {:induction false} TrimRightKeepsFirst(s: string)
    requires s != "" && !Text.IsSpace(s[0])
    ensures Text.TrimSpace(s) != "" && Text.TrimSpace(s)[0] == s[0]
  {
    if Text.IsSpace(s[|s| - 1]) {
      TrimRightKeepsFirst(s[..|s| - 1]);
    }
  }

  lemma OtherIsNoCommand(line: string)
    requires Other(line)
    ensures !(EXEC <= Text.TrimSpace(line)) && !(EXEC <= Text.TrimSpace(line + "\n"))
  {
    if line == "" {
      assert line + "\n" == "\n";
      assert Text.TrimLeft("\n") == "";
    } else {
      TrimRightKeepsFirst(line);
      TrimRightKeepsFirst(line + "\n");
      assert EXEC[0] == 'E';
    }
  }

  lemma CommandSkips(line: string, rest: string, command: string)
    requires Other(line)
    ensures Command(line + "\n" + rest, command) == Command(rest, command)
    ensures Command(line, command) == Some(command)
  {
    LineLengthIs(line, rest);
    OtherIsNoCommand(line);
    var s := line + "\n" + rest;
    assert s[..|line| + 1] == line + "\n" && s[|line| + 1..] == rest;
    assert line[..|line|] == line && line[|line|..] == "";
  }

  lemma {:induction false} OthersAreSkipped(lines: seq<string>, rest: string, command: string)
    requires forall i :: 0 <= i < |lines| ==> Other(lines[i])
    ensures Command(Text.JoinLines(lines), command) == Some(command)
    ensures lines != [] ==> Command(Text.JoinLines(lines) + "\n" + rest, command) == Command(rest, command)
  {
    if |lines| == 1 {
      CommandSkips(lines[0], rest, command);
    } else if lines != [] {
      OthersAreSkipped(lines[1..], rest, command);
      CommandSkips(lines[0], Text.JoinLines(lines[1..]), command);
      CommandSkips(lines[0], Text.JoinLines(lines[1..]) + "\n" + rest, command);
      assert Text.JoinLines(lines) + "\n" + rest == lines[0] + "\n" + (Text.JoinLines(lines[1..]) + "\n" + rest);
    }
  }

  lemma CommandTakes(value: string, rest: string)
    requires value != "" && '\n' !in value && !Text.IsSpace(value[|value| - 1])
    ensures Command(EXEC + value + "\n" + rest, "") == Command(rest, value)
  {
    var line := EXEC + value;
    LineLengthIs(line, rest);
    var s := line + "\n" + rest;
    assert s[..|line| + 1] == line + "\n" && s[|line| + 1..] == rest;
    TrimNewline(line);
    assert line[|EXEC|..] == value;
  }

  lemma TrimNewline(line: string)
    requires line != "" && !Text.IsSpace(line[0]) && !Text.IsSpace(line[|line| - 1])
    ensures Text.TrimSpace(line + "\n") == line
  {
    var s := line + "\n";
    assert Text.TrimLeft(s) == s;
    assert s[..|s| - 1] == line;
    assert Text.TrimRight(s) == Text.TrimRight(line);
  }

  lemma {:induction false} JoinAround(before: seq<string>, line: string, after: seq<string>)
    requires before != [] && after != []
    ensures Text.JoinLines(before + [line] + after) == Text.JoinLines(before) + "\n" + (line + "\n" + Text.JoinLines(after))
  {
    var all := before + [line] + after;
    if |before| == 1 {
      assert all[1..] == [line] + after && ([line] + after)[1..] == after;
    } else {
      JoinAround(before[1..], line, after);
      assert all[1..] == before[1..] + [line] + after;
    }
  }

  lemma HeaderAndFooterAreOther()
    ensures forall i :: 0 <= i < |HEADER| ==> Other(HEADER[i])
    ensures forall i :: 0 <= i < |FOOTER| ==> Other(FOOTER[i])
  {
  }

  lemma ArgHasNoNewline(p: Printable, value: string)
    ensures '\n' !in SystemdArg(p, value)
  {
    var d := Doubled(value);
    if value != "" && NeedsQuotes(d) {
      QuoteCloses(p, d, "");
    } else if value != "" {
      if i :| 0 <= i < |d| && d[i] == '\n' {
        assert NeedsQuotes(d);
      }
    }
  }

  lemma {:induction false} LineHasNoNewline(p: Printable, args: seq<string>)
    ensures '\n' !in Line(p, args)
  {
    if args != [] {
      ArgHasNoNewline(p, args[0]);
      LineHasNoNewline(p, args[1..]);
    }
  }

  /** Whatever characters the paths contain, a rendered unit is read back as the arguments it was rendered from. */
  lemma UnitReads(env: Env, o: ServiceOptions)
    requires Sane(env) && Normal(o)
    ensures Installed(Text.JoinLines(HEADER + [EXEC + ExecStart(env, o)] + FOOTER)) == Some(Args(env, o))
  {
    CommandIsClean(env, o);
    CommandMeansArgs(env, o);
    CommandFound(ExecStart(env, o));
  }

  lemma CommandIsClean(env: Env, o: ServiceOptions)
    requires Sane(env) && Normal(o)
    ensures var c := ExecStart(env, o); c != "" && '\n' !in c && !Text.IsSpace(c[|c| - 1])
  {
    ExecStartIsLine(env, o);
    LineHasNoNewline(env.printable, Args(env, o));
    ArgStays(env, o, 10);
    LineEnds(env.printable, Args(env, o));
  }

  lemma CommandMeansArgs(env: Env, o: ServiceOptions)
    requires Sane(env) && Normal(o)
    ensures Arguments(ExecStart(env, o)) == Some(Args(env, o))
  {
    ExecStartIsLine(env, o);
    ArgsAreReadable(env, o);
    LineRoundTrip(env.printable, Args(env, o));
  }

  lemma CommandFound(value: string)
    requires value != "" && '\n' !in value && !Text.IsSpace(value[|value| - 1])
    ensures Command(Text.JoinLines(HEADER + [EXEC + value] + FOOTER), "") == Some(value)
  {
    HeaderAndFooterAreOther();
    var footer := Text.JoinLines(FOOTER);
    JoinAround(HEADER, EXEC + value, FOOTER);
    OthersAreSkipped(HEADER, EXEC + value + "\n" + footer, "");
    CommandTakes(value, footer);
    OthersAreSkipped(FOOTER, "", value);
  }

  /** The first half of the arguments: command, store and a flag without meaning. */
  lemma StoreFolds(env: Env, o: ServiceOptions, start: ServiceOptions)
    ensures var args := Args(env, o);
            Folded(env, args[1..], start) == Folded(env, args[6..], start.(store := o.store))
  {
    var (args, stored) := (Args(env, o), start.(store := o.store));
    assert args[1..][2..] == args[3..] && args[3..][1..] == args[4..] && args[4..][1..] == args[5..] && args[5..][1..] == args[6..];
    assert Folded(env, args[1..], start) == Folded(env, args[3..], stored);
    assert Folded(env, args[3..], stored) == Folded(env, args[4..], stored);
    assert Folded(env, args[4..], stored) == Folded(env, args[5..], stored);
    assert Folded(env, args[5..], stored) == Folded(env, args[6..], stored);
  }

  /** The second half: the two durations. */
  lemma DurationsFold(env: Env, o: ServiceOptions, stored: ServiceOptions)
    requires Sane(env) && Normal(o)
    ensures Folded(env, Args(env, o)[6..], stored) == Some(stored.(interval := o.interval, grace := o.grace))
  {
    var args := Args(env, o);
    var timed := stored.(interval := o.interval);
    assert args[6..][2..] == args[8..] && args[8..][2..] == args[10..];
    assert Folded(env, args[6..], stored) == Folded(env, args[8..], timed);
    assert Folded(env, args[8..], timed) == Folded(env, args[10..], timed.(grace := o.grace));
    assert args[10..][1..] == [] && args[10..][0] == "--quiet";
    assert Folded(env, args[10..], timed.(grace := o.grace)) == Some(timed.(grace := o.grace));
  }

  lemma ArgsFold(env: Env, o: ServiceOptions, binary: string)
    requires Sane(env) && Normal(o)
    ensures Recovered(env, Args(env, o), binary) == Some(o.(binary := binary))
  {
    var start := ServiceOptions(binary, "", 0, 0);
    StoreFolds(env, o, start);
    DurationsFold(env, o, start.(store := o.store));
  }

  /**
   * Upgrading keeps the definition: the options recovered from a rendered unit, with any
   * binary that resolves to the same path, render to the same text again.
   */
  lemma UpgradeIsStable(env: Env, o: ServiceOptions, binary: string)
    requires Sane(env) && Render(env, o).Some?
    requires ResolveBinary(env, binary) == ResolveBinary(env, o.binary)
    ensures var args := Installed(Render(env, o).value);
            && args.Some?
            && var recovered := Recovered(env, args.value, binary);
               recovered.Some? && Render(env, recovered.value) == Render(env, o)
  {
    var n := Normalize(env, o).value;
    assert Normal(n);
    UnitReads(env, n);
    ArgsFold(env, n, binary);
    assert Normalize(env, n.(binary := binary)) == Some(n);
  }
}
