/** One detection rule against one screen: the live test and the explaining one. */
module DetectionRules {
  import opened Options
  import Text

  datatype Rule = Rule(
    id: string, state: string, detail: string, priority: int, region: string, caseSensitive: bool,
    all: seq<string>, any: seq<string>, none: seq<string>,
    regexAll: seq<string>, regexAny: seq<string>, regexNone: seq<string>,
    titleAny: seq<string>, titleRegexAny: seq<string>)

  datatype Snapshot = Snapshot(lines: seq<string>, title: string)

  /** Case folding, regular expressions, number parsing and activity names, taken as given. */
  datatype Env = Env(
    lower: string -> string,
    regex: (string, bool, string) -> bool,
    atoi: string -> Option<int>,
    quote: string -> string,
    normalize: string -> string,
    validDetail: (string, string) -> bool)

  function TrimBlankEnd(lines: seq<string>): (r: seq<string>)
    ensures r <= lines
  {
    if lines != [] && Text.TrimSpace(lines[|lines| - 1]) == "" then TrimBlankEnd(lines[..|lines| - 1]) else lines
  }

  /** `selectRegion` */
  function SelectRegion(env: Env, region: string, lines: seq<string>): Option<seq<string>> {
    var value := Text.TrimSpace(region);
    if value == "" || value == "all" then Some(lines)
    else
      var colon := Text.Index(value, ":");
      if colon < 0 || colon + 1 > |value| || Text.Contains(value[colon + 1..], ":") then None
      else if value[..colon] != "bottom" && value[..colon] != "top" then None
      else
        match env.atoi(value[colon + 1..])
        case None => None
        case Some(n) =>
          if n <= 0 then None
          else if value[..colon] == "top" then Some(lines[..if n < |lines| then n else |lines|])
          else
            var kept := TrimBlankEnd(lines);
            Some(kept[|kept| - (if n < |kept| then n else |kept|)..])
  }

  function Folded(env: Env, rule: Rule, text: string): string {
    if rule.caseSensitive then text else env.lower(text)
  }

  /** Whether a literal occurs in a text, folded alike. */
  function Literal(env: Env, rule: Rule, text: string): string -> bool {
    (literal: string) => Text.Contains(text, Folded(env, rule, literal))
  }

  function Pattern(env: Env, rule: Rule, text: string): string -> bool {
    (expression: string) => env.regex(expression, rule.caseSensitive, text)
  }

  predicate EveryOne(items: seq<string>, test: string -> bool) {
    forall i :: 0 <= i < |items| ==> test(items[i])
  }

  predicate AnyOne(items: seq<string>, test: string -> bool) {
    exists i :: 0 <= i < |items| && test(items[i])
  }

  // ---------------------------------------------------------------- the live test

  predicate LiteralsMatch(rule: Rule, literal: string -> bool) {
    EveryOne(rule.all, literal) && (rule.any != [] ==> AnyOne(rule.any, literal)) && !AnyOne(rule.none, literal)
  }

  predicate PatternsMatch(rule: Rule, pattern: string -> bool) {
    && EveryOne(rule.regexAll, pattern) && (rule.regexAny != [] ==> AnyOne(rule.regexAny, pattern))
    && !AnyOne(rule.regexNone, pattern)
  }

  /** `matchesText` */
  predicate MatchesText(env: Env, rule: Rule, text: string) {
    LiteralsMatch(rule, Literal(env, rule, text)) && PatternsMatch(rule, Pattern(env, rule, text))
  }

  predicate TitleMatches(rule: Rule, literal: string -> bool, pattern: string -> bool) {
    && (rule.titleAny != [] ==> AnyOne(rule.titleAny, literal))
    && (rule.titleRegexAny != [] ==> AnyOne(rule.titleRegexAny, pattern))
  }

  /** `matchesTitle` */
  predicate MatchesTitle(env: Env, rule: Rule, title: string) {
    TitleMatches(rule, Literal(env, rule, title), Pattern(env, rule, title))
  }

  /** `matches` */
  predicate Matches(env: Env, rule: Rule, snapshot: Snapshot) {
    match SelectRegion(env, rule.region, snapshot.lines)
    case None => false
    case Some(lines) =>
      MatchesText(env, rule, Folded(env, rule, Text.JoinLines(lines))) && MatchesTitle(env, rule, Folded(env, rule, snapshot.title))
  }

  // ---------------------------------------------------------------- the explaining test

  /** One configured matcher with its verdict; `failure` is why it failed. */
  datatype Check = Check(name: string, passed: bool, failure: string)

  /** `inspectAllMatcher`, `inspectRegexAllMatcher`: the first item that fails is named. */
  method InspectEvery(env: Env, name: string, problem: string, items: seq<string>, test: string -> bool) returns (c: Check)
    ensures c.name == name && (c.passed <==> EveryOne(items, test))
    ensures if c.passed then c.failure == "" else name + ": " <= c.failure
  {
    for i := 0 to |items|
      invariant EveryOne(items[..i], test)
    {
      if !test(items[i]) {
        return Check(name, false, name + ": " + problem + env.quote(items[i]));
      }
    }
    assert items[..|items|] == items;
    return Check(name, true, "");
  }

  /** `inspectAnyMatcher`, `inspectRegexAnyMatcher` and the two title matchers. */
  method InspectAny(name: string, problem: string, items: seq<string>, test: string -> bool) returns (c: Check)
    ensures c.name == name && (c.passed <==> AnyOne(items, test))
    ensures if c.passed then c.failure == "" else name + ": " <= c.failure
  {
    for i := 0 to |items|
      invariant !AnyOne(items[..i], test)
    {
      if test(items[i]) {
        return Check(name, true, "");
      }
    }
    assert items[..|items|] == items;
    return Check(name, false, name + ": " + problem);
  }

  /** `inspectNoneMatcher`, `inspectRegexNoneMatcher`. */
  method InspectNone(env: Env, name: string, problem: string, items: seq<string>, test: string -> bool) returns (c: Check)
    ensures c.name == name && (c.passed <==> !AnyOne(items, test))
    ensures if c.passed then c.failure == "" else name + ": " <= c.failure
  {
    for i := 0 to |items|
      invariant !AnyOne(items[..i], test)
    {
      if test(items[i]) {
        return Check(name, false, name + ": " + problem + env.quote(items[i]));
      }
    }
    assert items[..|items|] == items;
    return Check(name, true, "");
  }

  /** What has been checked so far, and the first failure among it. */
  datatype Report = Report(checks: seq<Check>, firstFailure: string)

  /** Failures are never empty texts, so the first of them tells whether there is one. */
  ghost predicate Telling(r: Report) {
    r.firstFailure == "" <==> forall i :: 0 <= i < |r.checks| ==> r.checks[i].passed
  }

  /** `appendMatcher` */
  method AppendMatcher(before: Report, c: Check) returns (r: Report)
    requires Telling(before) && (if c.passed then c.failure == "" else c.failure != "")
    ensures r.checks == before.checks + [c] && Telling(r)
    ensures r.firstFailure == if before.firstFailure == "" then c.failure else before.firstFailure
  {
    r := Report(before.checks + [c], if !c.passed && before.firstFailure == "" then c.failure else before.firstFailure);
    assert r.checks[|before.checks|] == c && forall i :: 0 <= i < |before.checks| ==> r.checks[i] == before.checks[i];
  }

  /** One group of matchers; a group that is not configured is not reported. */
  datatype Group = Every | Any | NoneOf

  predicate Holds(group: Group, items: seq<string>, test: string -> bool) {
    match group
    case Every => EveryOne(items, test)
    case Any => items != [] ==> AnyOne(items, test)
    case NoneOf => !AnyOne(items, test)
  }

  method InspectGroup(env: Env, group: Group, name: string, items: seq<string>, test: string -> bool, before: Report)
    returns (r: Report)
    requires Telling(before)
    ensures Telling(r) && before.checks <= r.checks
    ensures r.firstFailure == "" <==> before.firstFailure == "" && Holds(group, items, test)
  {
    if items == [] {
      return before;
    }
    var c: Check;
    match group {
      case Every => c := InspectEvery(env, name, "missing ", items, test);
      case Any => c := InspectAny(name, "nothing matched", items, test);
      case NoneOf => c := InspectNone(env, name, "matched excluded ", items, test);
    }
    r := AppendMatcher(before, c);
  }

  method InspectLiterals(env: Env, rule: Rule, literal: string -> bool, before: Report) returns (r: Report)
    requires Telling(before)
    ensures Telling(r) && (r.firstFailure == "" <==> before.firstFailure == "" && LiteralsMatch(rule, literal))
  {
    r := InspectGroup(env, Every, "all", rule.all, literal, before);
    r := InspectGroup(env, Any, "any", rule.any, literal, r);
    r := InspectGroup(env, NoneOf, "none", rule.none, literal, r);
  }

  method InspectPatterns(env: Env, rule: Rule, pattern: string -> bool, before: Report) returns (r: Report)
    requires Telling(before)
    ensures Telling(r) && (r.firstFailure == "" <==> before.firstFailure == "" && PatternsMatch(rule, pattern))
  {
    r := InspectGroup(env, Every, "regex_all", rule.regexAll, pattern, before);
    r := InspectGroup(env, Any, "regex_any", rule.regexAny, pattern, r);
    r := InspectGroup(env, NoneOf, "regex_none", rule.regexNone, pattern, r);
  }

  /** `inspectTitleMatchers` */
  method InspectTitle(env: Env, rule: Rule, literal: string -> bool, pattern: string -> bool, before: Report)
    returns (r: Report)
    requires Telling(before)
    ensures Telling(r) && (r.firstFailure == "" <==> before.firstFailure == "" && TitleMatches(rule, literal, pattern))
  {
    r := InspectGroup(env, Any, "title_any", rule.titleAny, literal, before);
    r := InspectGroup(env, Any, "title_regex_any", rule.titleRegexAny, pattern, r);
  }

  /** `inspectTextMatchers`, then `inspectTitleMatchers` */
  method InspectMatchers(env: Env, rule: Rule, text: string, title: string, before: Report) returns (r: Report)
    requires Telling(before)
    ensures Telling(r)
    ensures r.firstFailure == "" <==>
            before.firstFailure == "" && MatchesText(env, rule, text) && MatchesTitle(env, rule, title)
  {
    r := InspectLiterals(env, rule, Literal(env, rule, text), before);
    r := InspectPatterns(env, rule, Pattern(env, rule, text), r);
    r := InspectTitle(env, rule, Literal(env, rule, title), Pattern(env, rule, title), r);
  }

  /** `inspect`: it explains exactly the verdict of the live test. */
  method InspectRule(env: Env, rule: Rule, snapshot: Snapshot) returns (matched: bool, r: Report)
    ensures matched == Matches(env, rule, snapshot) == (r.firstFailure == "")
    ensures Telling(r)
  {
    var region := SelectRegion(env, rule.region, snapshot.lines);
    r := Report([], "");
    if rule.region != "" && rule.region != "all" {
      if region.None? {
        var failure := "region: " + env.quote(rule.region);
        r := Report([Check("region", false, failure)], failure);
        assert !r.checks[0].passed;
        return false, r;
      }
      r := Report([Check("region", true, "")], "");
    } else {
      PlainRegion(env, rule.region, snapshot.lines);
    }
    var text := Folded(env, rule, Text.JoinLines(region.value));
    r := InspectMatchers(env, rule, text, Folded(env, rule, snapshot.title), r);
    return r.firstFailure == "", r;
  }

  lemma PlainRegion(env: Env, region: string, lines: seq<string>)
    requires region == "" || region == "all"
    ensures SelectRegion(env, region, lines) == Some(lines)
  {
    if region == "all" {
      Text.TrimSpaceFacts("all");
      assert Text.TrimSpace("all") == "all" by {
        assert !Text.IsSpace("all"[0]) && !Text.IsSpace("all"[2]);
      }
    } else {
      assert Text.TrimSpace("") == "";
    }
  }

  // ---------------------------------------------------------------- what a rule looks at

  /** `region` names all lines, or so many at the top or at the bottom. */
  ghost predicate Names(env: Env, region: string, place: string, n: int) {
    exists digits: string :: Text.TrimSpace(region) == place + ":" + digits && ':' !in digits && env.atoi(digits) == Some(n)
  }

  predicate Blank(line: string) {
    Text.TrimSpace(line) == ""
  }

  /** The first `n` lines, or all there are. */
  predicate IsTop(r: seq<string>, n: int, lines: seq<string>) {
    r <= lines && |r| == if n < |lines| then n else |lines|
  }

  /** The last `n` lines before `end`, after which all is blank, or all up to there. */
  predicate IsBottom(r: seq<string>, n: int, lines: seq<string>, end: nat) {
    && end <= |lines| && (forall i :: end <= i < |lines| ==> Blank(lines[i])) && (end > 0 ==> !Blank(lines[end - 1]))
    && |r| == (if n < end then n else end) && r == lines[end - |r|..end]
  }

  ghost predicate IsRegion(env: Env, region: string, lines: seq<string>, r: seq<string>) {
    || (Text.TrimSpace(region) in {"", "all"} && r == lines)
    || (exists n :: n > 0 && Names(env, region, "top", n) && IsTop(r, n, lines))
    || (exists n, end: nat :: n > 0 && Names(env, region, "bottom", n) && IsBottom(r, n, lines, end))
  }

  lemma {:induction false} TrimmedEnd(lines: seq<string>)
    ensures var end := |TrimBlankEnd(lines)|;
      && end <= |lines| && TrimBlankEnd(lines) == lines[..end]
      && (forall i :: end <= i < |lines| ==> Blank(lines[i])) && (end > 0 ==> !Blank(lines[end - 1]))
  {
    if lines != [] && Blank(lines[|lines| - 1]) {
      TrimmedEnd(lines[..|lines| - 1]);
    }
  }

  lemma ColonFound(text: string)
    ensures Text.Contains(text, ":") <==> ':' in text
  {
    Text.IndexIsFirst(text, ":");
    if Text.Contains(text, ":") {
      assert text[Text.Index(text, ":")..][0] == ':';
    }
    if i :| 0 <= i < |text| && text[i] == ':' {
      assert Text.At(text, ":", i);
    }
  }

  lemma ColonAfter(place: string, digits: string)
    requires ':' !in place
    ensures Text.Index(place + ":" + digits, ":") == |place|
  {
    var text := place + ":" + digits;
    Text.IndexIsFirst(text, ":");
    assert Text.At(text, ":", |place|);
    var i := Text.Index(text, ":");
    assert text[i..i + 1] == ":" && text[i] == ':';
  }

  lemma SplitAtColon(text: string)
    requires Text.Contains(text, ":")
    ensures var colon := Text.Index(text, ":"); 0 <= colon < |text| && text == text[..colon] + ":" + text[colon + 1..]
  {
    Text.IndexIsFirst(text, ":");
    var colon := Text.Index(text, ":");
    assert text[colon..colon + 1] == ":";
  }

  lemma NamedParts(region: string, place: string, digits: string)
    requires (place == "top" || place == "bottom") && Text.TrimSpace(region) == place + ":" + digits && ':' !in digits
    ensures var value := Text.TrimSpace(region);
      && value != "" && value != "all" && Text.Index(value, ":") == |place|
      && value[..|place|] == place && value[|place| + 1..] == digits && !Text.Contains(digits, ":")
  {
    var value := Text.TrimSpace(region);
    ColonAfter(place, digits);
    ColonFound(digits);
    assert value[..|place|] == place && value[|place| + 1..] == digits;
    assert value != "all" by { assert value[|place|] == ':'; }
  }

  lemma SelectedIsNamed(env: Env, region: string, lines: seq<string>, r: seq<string>)
    requires SelectRegion(env, region, lines) == Some(r)
    ensures IsRegion(env, region, lines, r)
  {
    var value := Text.TrimSpace(region);
    if value !in {"", "all"} {
      SplitAtColon(value);
      var colon := Text.Index(value, ":");
      var (place, digits) := (value[..colon], value[colon + 1..]);
      ColonFound(digits);
      var n := env.atoi(digits).value;
      assert Names(env, region, place, n);
      TrimmedEnd(lines);
      if place == "bottom" {
        assert IsBottom(r, n, lines, |TrimBlankEnd(lines)|);
      }
    }
  }

  lemma TopIsSelected(env: Env, region: string, lines: seq<string>, r: seq<string>, n: int)
    requires n > 0 && Names(env, region, "top", n) && IsTop(r, n, lines)
    ensures SelectRegion(env, region, lines) == Some(r)
  {
    var digits: string :| Text.TrimSpace(region) == "top" + ":" + digits && ':' !in digits && env.atoi(digits) == Some(n);
    NamedParts(region, "top", digits);
    assert r == lines[..|r|];
  }

  lemma BottomIsSelected(env: Env, region: string, lines: seq<string>, r: seq<string>, n: int, end: nat)
    requires n > 0 && Names(env, region, "bottom", n) && IsBottom(r, n, lines, end)
    ensures SelectRegion(env, region, lines) == Some(r)
  {
    var digits: string :| Text.TrimSpace(region) == "bottom" + ":" + digits && ':' !in digits && env.atoi(digits) == Some(n);
    NamedParts(region, "bottom", digits);
    TrimmedEnd(lines);
    var kept := TrimBlankEnd(lines);
    assert end == |kept| && r == kept[|kept| - |r|..];
  }

  /** A rule looks at the region it names, and at none if it names none. */
  lemma RegionMeans(env: Env, region: string, lines: seq<string>, r: seq<string>)
    ensures SelectRegion(env, region, lines) == Some(r) <==> IsRegion(env, region, lines, r)
  {
    if SelectRegion(env, region, lines) == Some(r) {
      SelectedIsNamed(env, region, lines, r);
    }
    if n :| n > 0 && Names(env, region, "top", n) && IsTop(r, n, lines) {
      TopIsSelected(env, region, lines, r, n);
    }
    if n, end: nat :| n > 0 && Names(env, region, "bottom", n) && IsBottom(r, n, lines, end) {
      BottomIsSelected(env, region, lines, r, n, end);
    }
  }

  // ---------------------------------------------------------------- what a match means

  /** The literal stands somewhere in the text, both in the case the rule asks for. */
  ghost predicate Occurs(env: Env, rule: Rule, text: string, literal: string) {
    exists i :: if rule.caseSensitive then Text.At(text, literal, i) else Text.At(env.lower(text), env.lower(literal), i)
  }

  /** The expression is found in the text, which is folded unless the rule minds its case. */
  predicate Found(env: Env, rule: Rule, text: string, expression: string) {
    env.regex(expression, rule.caseSensitive, if rule.caseSensitive then text else env.lower(text))
  }

  predicate Each(items: seq<string>, meaning: string -> bool) {
    forall s :: s in items ==> meaning(s)
  }

  predicate One(items: seq<string>, meaning: string -> bool) {
    exists s :: s in items && meaning(s)
  }

  ghost predicate LiteralsFit(env: Env, rule: Rule, text: string) {
    var occurs := (s: string) => Occurs(env, rule, text, s);
    Each(rule.all, occurs) && (rule.any != [] ==> One(rule.any, occurs)) && !One(rule.none, occurs)
  }

  ghost predicate PatternsFit(env: Env, rule: Rule, text: string) {
    var found := (s: string) => Found(env, rule, text, s);
    Each(rule.regexAll, found) && (rule.regexAny != [] ==> One(rule.regexAny, found)) && !One(rule.regexNone, found)
  }

  ghost predicate TitleFits(env: Env, rule: Rule, title: string) {
    && (rule.titleAny != [] ==> One(rule.titleAny, (s: string) => Occurs(env, rule, title, s)))
    && (rule.titleRegexAny != [] ==> One(rule.titleRegexAny, (s: string) => Found(env, rule, title, s)))
  }

  /** What the rule asks of the text of its region and of the title. */
  ghost predicate Fits(env: Env, rule: Rule, text: string, title: string) {
    LiteralsFit(env, rule, text) && PatternsFit(env, rule, text) && TitleFits(env, rule, title)
  }

  lemma ItemsMean(items: seq<string>, test: string -> bool, meaning: string -> bool)
    requires forall s :: s in items ==> (test(s) <==> meaning(s))
    ensures EveryOne(items, test) <==> Each(items, meaning)
    ensures AnyOne(items, test) <==> One(items, meaning)
  {
    assert forall i :: 0 <= i < |items| ==> items[i] in items;
  }

  lemma LiteralMeans(env: Env, rule: Rule, text: string, literal: string)
    ensures Literal(env, rule, Folded(env, rule, text))(literal) <==> Occurs(env, rule, text, literal)
  {
    Text.IndexIsFirst(Folded(env, rule, text), Folded(env, rule, literal));
  }

  lemma LiteralItems(env: Env, rule: Rule, text: string, items: seq<string>)
    ensures var (literal, occurs) := (Literal(env, rule, Folded(env, rule, text)), (s: string) => Occurs(env, rule, text, s));
      (EveryOne(items, literal) <==> Each(items, occurs)) && (AnyOne(items, literal) <==> One(items, occurs))
  {
    var (literal, occurs) := (Literal(env, rule, Folded(env, rule, text)), (s: string) => Occurs(env, rule, text, s));
    forall s | s in items ensures literal(s) <==> occurs(s) {
      LiteralMeans(env, rule, text, s);
    }
    ItemsMean(items, literal, occurs);
  }

  lemma PatternItems(env: Env, rule: Rule, text: string, items: seq<string>)
    ensures var (pattern, found) := (Pattern(env, rule, Folded(env, rule, text)), (s: string) => Found(env, rule, text, s));
      (EveryOne(items, pattern) <==> Each(items, found)) && (AnyOne(items, pattern) <==> One(items, found))
  {
    ItemsMean(items, Pattern(env, rule, Folded(env, rule, text)), (s: string) => Found(env, rule, text, s));
  }

  lemma TextMeans(env: Env, rule: Rule, text: string)
    ensures MatchesText(env, rule, Folded(env, rule, text)) <==> LiteralsFit(env, rule, text) && PatternsFit(env, rule, text)
  {
    LiteralItems(env, rule, text, rule.all);
    LiteralItems(env, rule, text, rule.any);
    LiteralItems(env, rule, text, rule.none);
    PatternItems(env, rule, text, rule.regexAll);
    PatternItems(env, rule, text, rule.regexAny);
    PatternItems(env, rule, text, rule.regexNone);
  }

  lemma TitleMeans(env: Env, rule: Rule, title: string)
    ensures MatchesTitle(env, rule, Folded(env, rule, title)) <==> TitleFits(env, rule, title)
  {
    LiteralItems(env, rule, title, rule.titleAny);
    PatternItems(env, rule, title, rule.titleRegexAny);
  }

  /** A rule matches exactly if it names a region, and that and the title fit. */
  lemma MatchMeans(env: Env, rule: Rule, snapshot: Snapshot)
    ensures Matches(env, rule, snapshot) <==>
            exists r :: IsRegion(env, rule.region, snapshot.lines, r) && Fits(env, rule, Text.JoinLines(r), snapshot.title)
  {
    forall r ensures SelectRegion(env, rule.region, snapshot.lines) == Some(r) <==> IsRegion(env, rule.region, snapshot.lines, r) {
      RegionMeans(env, rule.region, snapshot.lines, r);
    }
    var region := SelectRegion(env, rule.region, snapshot.lines);
    if region.Some? {
      TextMeans(env, rule, Text.JoinLines(region.value));
      TitleMeans(env, rule, snapshot.title);
    }
  }
}
