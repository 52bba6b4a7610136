/** Resolving a reference to one session, and the round trip from its displayed short form. */
module SessionReferences {
  import opened Options
  import opened Lexicographic
  import opened SessionIds

  /** `native` and `path` may be empty. */
  datatype Session = Session(id: string, native: string, path: string)

  /** `qualifies` stands for all qualifiers, `samePath` for `PathsEqual`. */
  datatype Selector = Selector(reference: string, qualifies: Session -> bool, samePath: (string, string) -> bool)

  datatype Trouble = NotFound | Ambiguous(matches: seq<string>)

  function Ids(sessions: seq<Session>): (ids: seq<string>)
    ensures |ids| == |sessions| && forall i :: 0 <= i < |ids| ==> ids[i] == sessions[i].id
  {
    seq(|sessions|, i requires 0 <= i < |sessions| => sessions[i].id)
  }

  /** The sessions a test lets through, in their order. */
  function Select(sessions: seq<Session>, keep: Session -> bool): seq<Session> {
    if sessions == [] then []
    else Select(sessions[..|sessions| - 1], keep)
         + if keep(sessions[|sessions| - 1]) then [sessions[|sessions| - 1]] else []
  }

  lemma {:induction false} SelectMembers(sessions: seq<Session>, keep: Session -> bool)
    ensures forall s :: s in Select(sessions, keep) <==> s in sessions && keep(s)
  {
    if sessions != [] {
      var init := sessions[..|sessions| - 1];
      SelectMembers(init, keep);
      assert sessions == init + [sessions[|sessions| - 1]];
    }
  }

  lemma {:induction false} SelectKeepsDistinct(sessions: seq<Session>, keep: Session -> bool)
    requires Distinct(Ids(sessions))
    ensures Distinct(Ids(Select(sessions, keep)))
  {
    if sessions != [] {
      var (init, last) := (sessions[..|sessions| - 1], sessions[|sessions| - 1]);
      assert Ids(sessions)[|sessions| - 1] == last.id;
      assert forall i :: 0 <= i < |init| ==> Ids(init)[i] == Ids(sessions)[i];
      SelectKeepsDistinct(init, keep);
      SelectMembers(init, keep);
      var r := Select(init, keep);
      forall i | 0 <= i < |r| ensures r[i].id != last.id {
        assert r[i] in r;
        var j :| 0 <= j < |init| && init[j] == r[i];
        assert Ids(sessions)[j] == r[i].id;
      }
    }
  }

  /** `matchesReferenceCandidate` */
  predicate Candidate(s: Session, selector: Selector) {
    || selector.reference <= s.id
    || MatchesNatively(s, selector)
  }

  /** The reference is the session's native ID or its path. */
  predicate MatchesNatively(s: Session, selector: Selector) {
    || (s.native != "" && s.native == selector.reference)
    || (s.path != "" && (s.path == selector.reference || selector.samePath(s.path, selector.reference)))
  }

  /** An exact ID first; otherwise the only candidate. */
  function Resolved(qualified: seq<Session>, selector: Selector): Result<Session, Trouble> {
    var exact := Select(qualified, (s: Session) => s.id == selector.reference);
    var matches := Select(qualified, (s: Session) => Candidate(s, selector));
    if exact != [] then Ok(exact[0]) else Only(matches)
  }

  function Only(matches: seq<Session>): Result<Session, Trouble> {
    if matches == [] then Err(NotFound)
    else if |matches| == 1 then Ok(matches[0])
    else Err(Ambiguous(Ids(matches)))
  }

  /** `resolveWithReference` */
  method ResolveWithReference(qualified: seq<Session>, selector: Selector) returns (r: Result<Session, Trouble>)
    ensures r == Resolved(qualified, selector)
  {
    var exact := (s: Session) => s.id == selector.reference;
    for i := 0 to |qualified|
      invariant Select(qualified[..i], exact) == []
    {
      assert qualified[..i + 1][..i] == qualified[..i];
      if qualified[i].id == selector.reference {
        FirstStaysFirst(qualified, i + 1, exact);
        return Ok(qualified[i]);
      }
    }
    assert qualified[..|qualified|] == qualified;
    var matches: seq<Session> := [];
    for i := 0 to |qualified|
      invariant matches == Select(qualified[..i], (s: Session) => Candidate(s, selector))
    {
      assert qualified[..i + 1][..i] == qualified[..i];
      if Candidate(qualified[i], selector) {
        matches := matches + [qualified[i]];
      }
    }
    return Only(matches);
  }

  lemma {:induction false} FirstStaysFirst(sessions: seq<Session>, n: nat, keep: Session -> bool)
    requires n <= |sessions| && Select(sessions[..n], keep) != []
    ensures Select(sessions, keep) != [] && Select(sessions, keep)[0] == Select(sessions[..n], keep)[0]
  {
    if n < |sessions| {
      var init := sessions[..|sessions| - 1];
      assert init[..n] == sessions[..n];
      FirstStaysFirst(init, n, keep);
    } else {
      assert sessions[..n] == sessions;
    }
  }

  /** `ResolveSessions`, with `filterByQualifiers`. */
  method ResolveSessions(sessions: seq<Session>, selector: Selector) returns (r: Result<Session, Trouble>)
    ensures r == Resolution(sessions, selector)
  {
    var qualified: seq<Session> := [];
    for i := 0 to |sessions|
      invariant qualified == Select(sessions[..i], selector.qualifies)
    {
      assert sessions[..i + 1][..i] == sessions[..i];
      if selector.qualifies(sessions[i]) {
        qualified := qualified + [sessions[i]];
      }
    }
    assert sessions[..|sessions|] == sessions;
    if selector.reference == "" {
      return Only(qualified);
    }
    r := ResolveWithReference(qualified, selector);
  }

  // ---------------------------------------------------------------- what is found

  /** A session in question; without a reference that is every one that qualifies. */
  predicate Eligible(selector: Selector, s: Session) {
    && selector.qualifies(s)
    && (selector.reference <= s.id || (s.native != "" && s.native == selector.reference)
        || (s.path != "" && (s.path == selector.reference || selector.samePath(s.path, selector.reference))))
  }

  ghost predicate OnlyAt(sessions: seq<Session>, keep: Session -> bool, i: int) {
    0 <= i < |sessions| && keep(sessions[i]) && forall j :: 0 <= j < |sessions| && keep(sessions[j]) ==> j == i
  }

  lemma OneMoreToSelect(init: seq<Session>, last: Session, keep: Session -> bool, i: int)
    ensures !keep(last) ==> (OnlyAt(init + [last], keep, i) <==> OnlyAt(init, keep, i))
    ensures keep(last) ==> (OnlyAt(init + [last], keep, i) <==> i == |init| && forall s :: s in init ==> !keep(s))
  {
    var all := init + [last];
    assert all[|init|] == last && forall j :: 0 <= j < |init| ==> all[j] == init[j] && init[j] in init;
    if !keep(last) {
      assert forall j :: 0 <= j < |all| && keep(all[j]) ==> j < |init|;
    } else if OnlyAt(all, keep, i) {
      assert i == |init|;
      forall s | s in init ensures !keep(s) {
        var j :| 0 <= j < |init| && init[j] == s;
        assert all[j] == s;
      }
    }
  }

  lemma {:induction false} SelectedOne(sessions: seq<Session>, keep: Session -> bool)
    ensures |Select(sessions, keep)| == 1 ==> exists i :: OnlyAt(sessions, keep, i)
    ensures forall i :: OnlyAt(sessions, keep, i) ==> Select(sessions, keep) == [sessions[i]]
  {
    if sessions != [] {
      var (init, last) := (sessions[..|sessions| - 1], sessions[|sessions| - 1]);
      assert sessions == init + [last];
      SelectedOne(init, keep);
      SelectMembers(init, keep);
      if |Select(sessions, keep)| == 1 {
        if keep(last) {
          OneMoreToSelect(init, last, keep, |init|);
        } else {
          var i :| OnlyAt(init, keep, i);
          OneMoreToSelect(init, last, keep, i);
        }
      }
      forall i | OnlyAt(sessions, keep, i) ensures Select(sessions, keep) == [sessions[i]] {
        OneMoreToSelect(init, last, keep, i);
        if Select(init, keep) != [] {
          assert Select(init, keep)[0] in Select(init, keep);
        }
      }
    }
  }

  lemma {:induction false} SelectTwice(sessions: seq<Session>, a: Session -> bool, b: Session -> bool, both: Session -> bool)
    requires forall s :: both(s) <==> a(s) && b(s)
    ensures Select(Select(sessions, a), b) == Select(sessions, both)
  {
    if sessions != [] {
      var (init, last) := (sessions[..|sessions| - 1], sessions[|sessions| - 1]);
      SelectTwice(init, a, b, both);
      var r := Select(init, a);
      assert (r + [last])[..|r|] == r;
      assert a(last) || Select(sessions, a) == r;
    }
  }

  /** What `ResolveSessions` comes to. */
  function Resolution(sessions: seq<Session>, selector: Selector): Result<Session, Trouble> {
    var qualified := Select(sessions, selector.qualifies);
    if selector.reference == "" then Only(qualified) else Resolved(qualified, selector)
  }

  ghost predicate HasExact(sessions: seq<Session>, selector: Selector) {
    selector.reference != "" && exists s :: s in sessions && selector.qualifies(s) && s.id == selector.reference
  }

  lemma ResolutionIs(sessions: seq<Session>, selector: Selector)
    ensures !HasExact(sessions, selector) ==>
              Resolution(sessions, selector) == Only(Select(sessions, (s: Session) => Eligible(selector, s)))
    ensures HasExact(sessions, selector) ==>
              var r := Resolution(sessions, selector);
              r.Ok? && r.value in sessions && selector.qualifies(r.value) && r.value.id == selector.reference
  {
    var (qualified, exact) := (Select(sessions, selector.qualifies), (s: Session) => s.id == selector.reference);
    SelectMembers(sessions, selector.qualifies);
    SelectMembers(qualified, exact);
    SelectTwice(sessions, selector.qualifies, (s: Session) => Candidate(s, selector), (s: Session) => Eligible(selector, s));
    if selector.reference == "" {
      SelectTwice(sessions, selector.qualifies, (s: Session) => true, (s: Session) => Eligible(selector, s));
      SelectAll(qualified);
    }
    if HasExact(sessions, selector) {
      var s :| s in sessions && selector.qualifies(s) && s.id == selector.reference;
      assert s in Select(qualified, exact);
      assert Select(qualified, exact)[0] in Select(qualified, exact);
    } else if selector.reference != "" && Select(qualified, exact) != [] {
      assert Select(qualified, exact)[0] in Select(qualified, exact);
    }
  }

  lemma {:induction false} SelectAll(sessions: seq<Session>)
    ensures Select(sessions, (s: Session) => true) == sessions
  {
    if sessions != [] {
      SelectAll(sessions[..|sessions| - 1]);
    }
  }

  lemma OnlyMeans(sessions: seq<Session>, keep: Session -> bool)
    ensures var r := Only(Select(sessions, keep));
      && (r.Ok? <==> exists i :: OnlyAt(sessions, keep, i))
      && (forall i :: OnlyAt(sessions, keep, i) ==> r == Ok(sessions[i]))
      && (r == Err(NotFound) <==> forall s :: s in sessions ==> !keep(s))
      && (r.Err? && r.error.Ambiguous? ==>
            forall id :: id in r.error.matches <==> exists s :: s in sessions && keep(s) && s.id == id)
  {
    var matches := Select(sessions, keep);
    SelectedOne(sessions, keep);
    SelectMembers(sessions, keep);
    if matches != [] {
      assert matches[0] in matches;
    }
    forall s | s in matches ensures s.id in Ids(matches) {
      var i :| 0 <= i < |matches| && matches[i] == s;
      assert Ids(matches)[i] == s.id;
    }
    forall id | id in Ids(matches) ensures exists s :: s in sessions && keep(s) && s.id == id {
      var i :| 0 <= i < |matches| && Ids(matches)[i] == id;
      assert matches[i] in matches;
    }
  }

  /**
   * A reference finds a qualified session of that very ID; failing that, the one eligible
   * session there is. With none it is not found, and with several all their IDs are named.
   */
  lemma ResolutionMeans(sessions: seq<Session>, selector: Selector)
    ensures var (r, eligible) := (Resolution(sessions, selector), (s: Session) => Eligible(selector, s));
      if HasExact(sessions, selector) then
        r.Ok? && r.value in sessions && selector.qualifies(r.value) && r.value.id == selector.reference
      else
        && (r.Ok? <==> exists i :: OnlyAt(sessions, eligible, i))
        && (forall i :: OnlyAt(sessions, eligible, i) ==> r == Ok(sessions[i]))
        && (r == Err(NotFound) <==> forall s :: s in sessions ==> !eligible(s))
        && (r.Err? && r.error.Ambiguous? ==>
              forall id :: id in r.error.matches <==> exists s :: s in sessions && eligible(s) && s.id == id)
  {
    ResolutionIs(sessions, selector);
    OnlyMeans(sessions, (s: Session) => Eligible(selector, s));
  }

  // ---------------------------------------------------------------- the round trip

  lemma RepeatedIsNotDistinct(ids: seq<string>, id: string)
    requires |ids| > 1 && forall i :: 0 <= i < |ids| ==> ids[i] == id
    ensures !Distinct(ids)
  {
    assert ids[0] == ids[1];
  }

  lemma {:induction false} NoneSelected(sessions: seq<Session>, keep: Session -> bool)
    requires forall s :: s in sessions ==> !keep(s)
    ensures Select(sessions, keep) == []
  {
    if sessions != [] {
      NoneSelected(sessions[..|sessions| - 1], keep);
    }
  }

  lemma SoleSurvivor(sessions: seq<Session>, keep: Session -> bool, x: Session)
    requires Distinct(Ids(sessions)) && x in sessions && keep(x)
    requires forall s :: s in sessions && keep(s) ==> s.id == x.id
    ensures Select(sessions, keep) == [x]
  {
    SelectMembers(sessions, keep);
    SelectKeepsDistinct(sessions, keep);
    var r := Select(sessions, keep);
    assert x in r;
    forall i | 0 <= i < |r| ensures r[i].id == x.id {
      assert r[i] in r;
    }
    if |r| > 1 {
      RepeatedIsNotDistinct(Ids(r), x.id);
    }
  }

  /**
   * The short form shown for a session, passed back as a reference, gives that session
   * again: over the whole list, or over any part of it the qualifiers leave it in.
   */
  lemma ShortFormResolves(sessions: seq<Session>, selector: Selector, x: Session)
    requires Distinct(Ids(sessions)) && NoConfusion(Ids(sessions))
    requires x in sessions && selector.qualifies(x) && IsShort(Ids(sessions), x.id, selector.reference)
    requires forall y :: y in sessions && MatchesNatively(y, selector) ==> y == x
    ensures Resolved(Select(sessions, selector.qualifies), selector) == Ok(x)
  {
    var qualified := Select(sessions, selector.qualifies);
    SelectMembers(sessions, selector.qualifies);
    SelectKeepsDistinct(sessions, selector.qualifies);
    ShortIsPrefix(Ids(sessions), x.id, selector.reference);
    forall y | y in sessions ensures y.id in Ids(sessions) {
      var i :| 0 <= i < |sessions| && sessions[i] == y;
      assert Ids(sessions)[i] == y.id;
    }
    if selector.reference == x.id {
      SoleSurvivor(qualified, (s: Session) => s.id == selector.reference, x);
    } else {
      forall y | y in qualified && selector.reference <= y.id ensures y.id == x.id {
        if y.id != x.id {
          OnlyOwnIdMatches(Ids(sessions), x.id, selector.reference, y.id);
        }
      }
      NoneSelected(qualified, (s: Session) => s.id == selector.reference);
      SoleSurvivor(qualified, (s: Session) => Candidate(s, selector), x);
    }
  }

  /**
   * The condition on group prefixes cannot be dropped: for any two confusable ones there
   * are two sessions of which one cannot be found again by the form it is shown in.
   */
  lemma ConfusionIsReal(p: string, q: string) returns (x: Session, y: Session, selector: Selector)
    requires IsPrefix(p) && IsPrefix(q) && Confusable(p, q)
    ensures Prefix(x.id) == p && Prefix(y.id) == q
    ensures IsShort([x.id, y.id], x.id, selector.reference)
    ensures !MatchesNatively(x, selector) && !MatchesNatively(y, selector)
    ensures Resolved([x, y], selector) == Err(Ambiguous([x.id, y.id]))
  {
    var shown := q[|p|..|p| + SHORT];
    x, y := Session(p + (shown + "0"), "", ""), Session(q + "0", "", "");
    selector := Selector(p + shown, _ => true, (a, b) => false);
    ShownAlike(p, q, shown);
    PairIsAmbiguous(x, y, selector);
  }

  lemma PairIsAmbiguous(x: Session, y: Session, selector: Selector)
    requires Candidate(x, selector) && Candidate(y, selector)
    requires x.id != selector.reference && y.id != selector.reference
    ensures Resolved([x, y], selector) == Err(Ambiguous([x.id, y.id]))
  {
    assert Ids([x, y]) == [x.id, y.id];
    BothSelected(x, y, (s: Session) => Candidate(s, selector));
    NoneSelected([x, y], (s: Session) => s.id == selector.reference);
  }

  lemma ShownAlike(p: string, q: string, shown: string)
    requires IsPrefix(p) && IsPrefix(q) && Confusable(p, q) && shown == q[|p|..|p| + SHORT]
    ensures Prefix(p + (shown + "0")) == p && Prefix(q + "0") == q
    ensures IsShort([p + (shown + "0"), q + "0"], p + (shown + "0"), p + shown)
    ensures p + shown <= p + (shown + "0") && p + shown <= q + "0"
    ensures p + shown != p + (shown + "0") && p + shown != q + "0"
  {
    SplitIsUnique(p, shown + "0");
    SplitIsUnique(q, "0");
    assert (shown + "0")[..SHORT] == shown;
    assert p != q;
  }

  lemma BothSelected(x: Session, y: Session, keep: Session -> bool)
    requires keep(x) && keep(y)
    ensures Select([x, y], keep) == [x, y]
  {
    assert [x, y][..1] == [x] && [x][..0] == [];
    assert Select([x], keep) == [x];
  }
}
