/** A manifest of detection rules: the live evaluator and the explaining one. */
module RuleEvaluation {
  import opened Options
  import opened DetectionRules
  import opened FirstInLine
  import StableSort
  import Text

  datatype Evidence = Evidence(ruleId: string, matched: bool)

  datatype Decision = Decision(activity: string, detail: string, reason: string, ruleId: string, evidence: seq<Evidence>)

  datatype Reason = Won | EqualPriority(id: string) | HigherPriority(id: string, priority: int) | Failed(text: string)

  datatype Candidate = Candidate(id: string, matched: bool, winner: bool, reason: Reason)

  datatype Manifest = Manifest(version: int, rules: seq<Rule>)

  const UNDECIDED := Decision("unknown", "", "no_rule_matched", "", [])

  function Priority(): Rule -> int {
    (rule: Rule) => rule.priority
  }

  /** `sortedRules` */
  function Sorted(rules: seq<Rule>): seq<Rule> {
    StableSort.Sort(rules, Priority())
  }

  function Seen(rules: seq<Rule>, test: Rule -> bool): (e: seq<Evidence>)
    ensures |e| == |rules| && forall i :: 0 <= i < |e| ==> e[i] == Evidence(rules[i].id, test(rules[i]))
  {
    seq(|rules|, i requires 0 <= i < |rules| => Evidence(rules[i].id, test(rules[i])))
  }

  function Decided(env: Env, rule: Rule, evidence: seq<Evidence>): Decision {
    Decision(env.normalize(rule.state), rule.detail, "manifest_rule", rule.id, evidence)
  }

  // ---------------------------------------------------------------- what is decided

  /** The first matching rule decides, and what is recorded ends with it. */
  function Verdict(env: Env, rules: seq<Rule>, test: Rule -> bool): Decision {
    var n := FirstMatch(rules, test);
    if n == |rules| then UNDECIDED.(evidence := Seen(rules, test)) else Decided(env, rules[n], Seen(rules[..n + 1], test))
  }

  /** One rule of the explaining evaluator: it goes on looking while the winner has no name. */
  function Step(env: Env, rule: Rule, matched: bool, d: Decision): Decision {
    if d.ruleId != "" then d
    else
      var evidence := d.evidence + [Evidence(rule.id, matched)];
      if matched then Decided(env, rule, evidence) else d.(evidence := evidence)
  }

  /** What the explaining evaluator has decided once it has been through all rules. */
  function Explained(env: Env, rules: seq<Rule>, test: Rule -> bool, d: Decision): Decision {
    if rules == [] then d else Explained(env, rules[1..], test, Step(env, rules[0], test(rules[0]), d))
  }

  lemma {:induction false} NamedStays(env: Env, rules: seq<Rule>, test: Rule -> bool, d: Decision)
    requires d.ruleId != ""
    ensures Explained(env, rules, test, d) == d
  {
    if rules != [] {
      NamedStays(env, rules[1..], test, d);
    }
  }

  lemma {:induction false} ExplainedSeesMore(env: Env, rules: seq<Rule>, test: Rule -> bool, d: Decision)
    ensures |Explained(env, rules, test, d).evidence| >= |d.evidence|
    ensures rules != [] && d.ruleId == "" ==> |Explained(env, rules, test, d).evidence| > |d.evidence|
  {
    if rules != [] {
      ExplainedSeesMore(env, rules[1..], test, Step(env, rules[0], test(rules[0]), d));
    }
  }

  lemma SeenGrows(before: seq<Evidence>, rules: seq<Rule>, test: Rule -> bool)
    requires rules != []
    ensures before + Seen(rules, test) == before + [Evidence(rules[0].id, test(rules[0]))] + Seen(rules[1..], test)
  {
  }

  /** With nothing decided, the explaining evaluator reaches the first match as the live one does. */
  lemma {:induction false} ExplainedReaches(env: Env, rules: seq<Rule>, test: Rule -> bool, d: Decision)
    requires d.ruleId == ""
    ensures var n := FirstMatch(rules, test);
            Explained(env, rules, test, d) ==
            if n == |rules| then d.(evidence := d.evidence + Seen(rules, test))
            else Explained(env, rules[n + 1..], test, Decided(env, rules[n], d.evidence + Seen(rules[..n + 1], test)))
  {
    if rules == [] {
      assert d.evidence + Seen(rules, test) == d.evidence;
    } else if test(rules[0]) {
      assert Seen(rules[..1], test) == [Evidence(rules[0].id, test(rules[0]))];
    } else {
      var (n, tail, d') := (FirstMatch(rules, test), rules[1..], Step(env, rules[0], false, d));
      ExplainedReaches(env, tail, test, d');
      if n == |rules| {
        SeenGrows(d.evidence, rules, test);
      } else {
        SeenGrows(d.evidence, rules[..n + 1], test);
        assert rules[..n + 1][1..] == tail[..n] && rules[n + 1..] == tail[n..];
      }
    }
  }

  /** What the explaining evaluator makes of what comes after the first match. */
  lemma ExplainedAfterMatch(env: Env, rules: seq<Rule>, test: Rule -> bool, d: Decision)
    ensures Explained(env, rules, test, d) == d <==> d.ruleId != "" || rules == []
  {
    if d.ruleId != "" {
      NamedStays(env, rules, test, d);
    } else if rules != [] {
      ExplainedSeesMore(env, rules, test, d);
    }
  }

  /** The two evaluators agree, unless the winner has no name and rules come after it. */
  lemma AgreeUnlessNameless(env: Env, rules: seq<Rule>, test: Rule -> bool)
    ensures var n := FirstMatch(rules, test);
            Explained(env, rules, test, UNDECIDED) == Verdict(env, rules, test) <==>
            n == |rules| || rules[n].id != "" || n == |rules| - 1
  {
    var n := FirstMatch(rules, test);
    ExplainedReaches(env, rules, test, UNDECIDED);
    if n == |rules| {
      assert [] + Seen(rules, test) == Seen(rules, test);
    } else {
      assert [] + Seen(rules[..n + 1], test) == Seen(rules[..n + 1], test);
      ExplainedAfterMatch(env, rules[n + 1..], test, Decided(env, rules[n], Seen(rules[..n + 1], test)));
    }
  }

  // ---------------------------------------------------------------- the evaluators

  function Test(env: Env, snapshot: Snapshot): Rule -> bool {
    (rule: Rule) => Matches(env, rule, snapshot)
  }

  ghost predicate IsTest(test: Rule -> bool, env: Env, snapshot: Snapshot) {
    forall rule {:trigger Matches(env, rule, snapshot)} :: test(rule) == Matches(env, rule, snapshot)
  }

  lemma TestIsTest(env: Env, snapshot: Snapshot)
    ensures IsTest(Test(env, snapshot), env, snapshot)
  {
  }

  /** `Evaluate` */
  method Evaluate(env: Env, manifest: Manifest, snapshot: Snapshot) returns (d: Decision)
    ensures d == Verdict(env, Sorted(manifest.rules), Test(env, snapshot))
  {
    TestIsTest(env, snapshot);
    d := EvaluateInOrder(env, Sorted(manifest.rules), snapshot, Test(env, snapshot));
  }

  /** The loop of `Evaluate` */
  method EvaluateInOrder(env: Env, rules: seq<Rule>, snapshot: Snapshot, ghost test: Rule -> bool) returns (d: Decision)
    requires IsTest(test, env, snapshot)
    ensures d == Verdict(env, rules, test)
  {
    d := UNDECIDED;
    for i := 0 to |rules|
      invariant d == UNDECIDED.(evidence := Seen(rules[..i], test))
      invariant forall j :: 0 <= j < i ==> !test(rules[j])
    {
      var matched := Matches(env, rules[i], snapshot);
      d := d.(evidence := d.evidence + [Evidence(rules[i].id, matched)]);
      assert d.evidence == Seen(rules[..i + 1], test);
      if matched {
        FirstMatchIs(rules, test, i);
        return Decided(env, rules[i], d.evidence);
      }
    }
    FirstMatchIsFirst(rules, test);
    assert rules[..|rules|] == rules;
  }

  /** Candidate `c` tells the truth about `rule`. */
  ghost predicate Truthful(c: Candidate, rule: Rule, test: Rule -> bool) {
    c.id == rule.id && c.matched == test(rule) && (c.winner ==> test(rule)) && (c.reason == Won <==> c.winner)
  }

  ghost predicate AllNamed(rules: seq<Rule>) {
    forall i :: 0 <= i < |rules| ==> rules[i].id != ""
  }

  /** `Inspect`: every rule is explained, and the decision is the one `Explained` describes. */
  method Inspect(env: Env, manifest: Manifest, snapshot: Snapshot) returns (d: Decision, candidates: seq<Candidate>)
    ensures d == Explained(env, Sorted(manifest.rules), Test(env, snapshot), UNDECIDED)
    ensures |candidates| == |manifest.rules| == |Sorted(manifest.rules)|
    ensures forall i :: 0 <= i < |candidates| ==>
              Truthful(candidates[i], Sorted(manifest.rules)[i], Test(env, snapshot))
    ensures Validated(env, manifest) ==>
              forall i :: 0 <= i < |candidates| ==>
                (candidates[i].winner <==> i == FirstMatch(Sorted(manifest.rules), Test(env, snapshot)))
  {
    TestIsTest(env, snapshot);
    SortedSize(manifest.rules);
    d, candidates := InspectInOrder(env, Sorted(manifest.rules), snapshot, Test(env, snapshot));
    if Validated(env, manifest) {
      SortedKeepsNames(env, manifest);
    }
  }

  /** One pass of the loop of `Inspect` */
  method InspectNext(
    env: Env, rule: Rule, snapshot: Snapshot, d: Decision, winnerPriority: int, ghost test: Rule -> bool)
    returns (d': Decision, winnerPriority': int, c: Candidate)
    requires IsTest(test, env, snapshot)
    ensures d' == Step(env, rule, test(rule), d)
    ensures Truthful(c, rule, test) && (c.winner <==> test(rule) && d.ruleId == "")
  {
    var matched, report := InspectRule(env, rule, snapshot);
    var winner := matched && d.ruleId == "";
    d', winnerPriority' := d, winnerPriority;
    if d.ruleId == "" {
      d' := d.(evidence := d.evidence + [Evidence(rule.id, matched)]);
      if winner {
        d', winnerPriority' := Decided(env, rule, d'.evidence), rule.priority;
      }
    }
    var reason :=
      if winner then Won
      else if !matched then Failed(if report.firstFailure != "" then report.firstFailure else "did not match")
      else if winnerPriority' == rule.priority then EqualPriority(d'.ruleId)
      else HigherPriority(d'.ruleId, winnerPriority');
    c := Candidate(rule.id, matched, winner, reason);
  }

  /** The loop of `Inspect` */
  method InspectInOrder(env: Env, rules: seq<Rule>, snapshot: Snapshot, ghost test: Rule -> bool)
    returns (d: Decision, candidates: seq<Candidate>)
    requires IsTest(test, env, snapshot)
    ensures d == Explained(env, rules, test, UNDECIDED) && |candidates| == |rules|
    ensures forall i :: 0 <= i < |candidates| ==> Truthful(candidates[i], rules[i], test)
    ensures AllNamed(rules) ==> forall i :: 0 <= i < |rules| ==> (candidates[i].winner <==> i == FirstMatch(rules, test))
  {
    ghost var n := FirstMatch(rules, test);
    FirstMatchIsFirst(rules, test);
    d, candidates := UNDECIDED, [];
    var winnerPriority := 0;
    for i := 0 to |rules|
      invariant |candidates| == i
      invariant Explained(env, rules, test, UNDECIDED) == Explained(env, rules[i..], test, d)
      invariant forall j :: 0 <= j < i ==> Truthful(candidates[j], rules[j], test)
      invariant AllNamed(rules) ==> (d.ruleId == "" <==> i <= n)
      invariant AllNamed(rules) ==> forall j :: 0 <= j < i ==> (candidates[j].winner <==> j == n)
    {
      assert rules[i..][0] == rules[i] && rules[i..][1..] == rules[i + 1..];
      var candidate;
      d, winnerPriority, candidate := InspectNext(env, rules[i], snapshot, d, winnerPriority, test);
      candidates := candidates + [candidate];
    }
    assert rules[|rules|..] == [];
  }

  lemma SortedSize(rules: seq<Rule>)
    ensures |Sorted(rules)| == |rules|
  {
    StableSort.SortPermutes(rules, Priority());
    assert |multiset(Sorted(rules))| == |multiset(rules)|;
  }

  // ---------------------------------------------------------------- validation

  /** `Rule.validate`: a known state, a fitting detail, a region, and matchers none of which is blank. */
  predicate ValidRule(env: Env, rule: Rule) {
    var activity := env.normalize(rule.state);
    && activity != "" && activity != "unknown"
    && (rule.detail != "" ==> env.validDetail(rule.detail, activity))
    && SelectRegion(env, rule.region, []).Some?
    && |rule.all| + |rule.any| + |rule.regexAll| + |rule.regexAny| + |rule.titleAny| + |rule.titleRegexAny| > 0
    && NoneBlank(rule.all) && NoneBlank(rule.any) && NoneBlank(rule.none) && NoneBlank(rule.regexAll)
    && NoneBlank(rule.regexAny) && NoneBlank(rule.regexNone) && NoneBlank(rule.titleAny) && NoneBlank(rule.titleRegexAny)
  }

  predicate NoneBlank(items: seq<string>) {
    forall i :: 0 <= i < |items| ==> Text.TrimSpace(items[i]) != ""
  }

  /** Named and well formed. */
  predicate Sane(env: Env, rule: Rule) {
    Text.TrimSpace(rule.id) != "" && ValidRule(env, rule)
  }

  ghost predicate AllSane(env: Env, rules: seq<Rule>) {
    && (forall i :: 0 <= i < |rules| ==> Sane(env, rules[i]))
    && (forall i, j :: 0 <= i < j < |rules| ==> rules[i].id != rules[j].id)
  }

  ghost predicate Validated(env: Env, manifest: Manifest) {
    manifest.version == 1 && manifest.rules != [] && AllSane(env, manifest.rules)
  }

  /** `Manifest.validate` */
  method Validate(env: Env, manifest: Manifest) returns (ok: bool)
    ensures ok <==> Validated(env, manifest)
  {
    if manifest.version != 1 || manifest.rules == [] {
      return false;
    }
    var rules := manifest.rules;
    var seen: set<string> := {};
    for i := 0 to |rules|
      invariant seen == Ids(rules[..i]) && AllSane(env, rules[..i])
    {
      OneMoreRule(env, rules, i);
      if Text.TrimSpace(rules[i].id) == "" || rules[i].id in seen {
        return false;
      }
      seen := seen + {rules[i].id};
      if !ValidRule(env, rules[i]) {
        return false;
      }
    }
    assert rules[..|rules|] == rules;
    return true;
  }

  function Ids(rules: seq<Rule>): set<string> {
    set i | 0 <= i < |rules| :: rules[i].id
  }

  /** The first rules are fine together with the next one exactly if that is fine and its ID is new. */
  lemma OneMoreRule(env: Env, rules: seq<Rule>, i: nat)
    requires i < |rules|
    ensures Ids(rules[..i + 1]) == Ids(rules[..i]) + {rules[i].id}
    ensures AllSane(env, rules[..i + 1]) <==> AllSane(env, rules[..i]) && Sane(env, rules[i]) && rules[i].id !in Ids(rules[..i])
    ensures AllSane(env, rules) ==> AllSane(env, rules[..i + 1])
  {
    var (before, all) := (rules[..i], rules[..i + 1]);
    assert all == before + [rules[i]];
    SplitIds(before, rules[i]);
    if AllSane(env, all) {
      forall j, k | 0 <= j < k < |before| ensures before[j].id != before[k].id {
        assert all[j] == before[j] && all[k] == before[k];
      }
      forall j | 0 <= j < |before| ensures Sane(env, before[j]) && before[j].id != rules[i].id {
        assert all[j] == before[j] && all[i] == rules[i];
      }
    }
  }

  lemma SplitIds(before: seq<Rule>, last: Rule)
    ensures Ids(before + [last]) == Ids(before) + {last.id}
    ensures last.id in Ids(before) <==> exists j :: 0 <= j < |before| && before[j].id == last.id
  {
    var all := before + [last];
    forall id | id in Ids(before) ensures id in Ids(all) {
      var j :| 0 <= j < |before| && before[j].id == id;
      assert all[j] == before[j];
    }
    assert all[|before|] == last;
  }

  lemma SortedKeepsNames(env: Env, manifest: Manifest)
    requires Validated(env, manifest)
    ensures forall i :: 0 <= i < |Sorted(manifest.rules)| ==> Sorted(manifest.rules)[i].id != ""
  {
    var rules := Sorted(manifest.rules);
    forall i | 0 <= i < |rules| ensures rules[i].id != "" {
      StableSort.SortMembers(manifest.rules, Priority(), rules[i]);
      var j :| 0 <= j < |manifest.rules| && manifest.rules[j] == rules[i];
      assert Text.TrimSpace("") == "";
    }
  }

  // ---------------------------------------------------------------- main results

  /** For a manifest that passes validation the explanation shows the very decision that is taken live. */
  lemma ExplanationIsFaithful(env: Env, manifest: Manifest, snapshot: Snapshot)
    requires Validated(env, manifest)
    ensures Explained(env, Sorted(manifest.rules), Test(env, snapshot), UNDECIDED)
         == Verdict(env, Sorted(manifest.rules), Test(env, snapshot))
  {
    SortedKeepsNames(env, manifest);
    AgreeUnlessNameless(env, Sorted(manifest.rules), Test(env, snapshot));
  }

  /** The rule that decides has the highest priority of all that match, and comes first among those in the manifest. */
  lemma HighestPriorityWins(env: Env, manifest: Manifest, snapshot: Snapshot)
    ensures var (sorted, test) := (Sorted(manifest.rules), Test(env, snapshot));
            var n := FirstMatch(sorted, test);
            if n < |sorted| then
              exists w: nat :: Wins(manifest.rules, test, Priority(), w) && manifest.rules[w] == sorted[n]
            else forall i :: 0 <= i < |manifest.rules| ==> !test(manifest.rules[i])
  {
    SortIsSortedFrom(manifest.rules, Priority());
    FirstInLineWins(manifest.rules, Sorted(manifest.rules), Test(env, snapshot), Priority());
  }
}
