/**
 * What has become of requests, errors and waiters after any script of steps, told from
 * the script: who recorded what and when, who decided on it, how often it was reset.
 */
module ProviderRuns {
  import opened Options
  import opened ProviderSessions
  import opened ProviderSteps

  /** Some steps, and the states before, between and after them. */
  datatype Steps = Steps(steps: seq<Action>, states: seq<State>)

  ghost predicate Taken(r: Steps, n: nat)
    requires |r.states| == |r.steps| + 1 && n < |r.steps|
  {
    r.states[n + 1] == Step(r.states[n], r.steps[n])
  }

  ghost predicate FromTheStart(r: Steps) {
    |r.states| == |r.steps| + 1 && r.states[0] == START && forall n: nat :: n < |r.steps| ==> Taken(r, n)
  }

  type Run = r: Steps | FromTheStart(r) ghost witness Steps([], [START])

  /** Every script has its run, which ends as the server does. */
  lemma {:induction false} RunOf(script: seq<Action>) returns (run: Run)
    ensures run.steps == script && run.states[|script|] == After(START, script)
  {
    if script == [] {
      run := Steps([], [START]);
    } else {
      var n := |script| - 1;
      var before := RunOf(script[..n]);
      var r := Steps(script, before.states + [Step(before.states[n], script[n])]);
      forall k: nat | k < |script| ensures Taken(r, k) {
        if k < n {
          assert Taken(before, k);
        }
      }
      run := r;
    }
  }

  lemma {:induction false} EveryMomentIsSound(run: Run, n: nat)
    requires n <= |run.steps|
    ensures Sound(run.states[n])
  {
    if n > 0 {
      EveryMomentIsSound(run, n - 1);
      assert Taken(run, n - 1);
      StepIsSound(run.states[n - 1], run.steps[n - 1]);
    }
  }

  // ---------------------------------------------------------------- what a script says

  /** How often the server has been reset before step `n`. */
  function Resets(run: Run, n: nat): nat
    requires n <= |run.steps|
  {
    if n == 0 then 0 else Resets(run, n - 1) + if run.steps[n - 1].Reset? then 1 else 0
  }

  /** Step `i` records a request of this kind. */
  predicate RecordsAt(run: Run, i: nat, kind: Kind, h: nat) {
    i < |run.steps| && HasEntered(run.states[i], h) && run.steps[i] == RecordBy(h, kind)
  }

  /** The requests of one kind recorded before step `n`, after `g` resets. */
  function Filed(run: Run, n: nat, g: nat, kind: Kind): nat
    requires n <= |run.steps|
  {
    if n == 0 then 0
    else
      var i := n - 1;
      var h := if run.steps[i].RecordConversation? || run.steps[i].RecordSide? then run.steps[i].h else 0;
      Filed(run, i, g, kind) + if RecordsAt(run, i, kind, h) && Resets(run, i) == g then 1 else 0
  }

  /** Handler `h` records the request `r` at step `i`. */
  predicate BeginsAt(run: Run, i: nat, h: nat, r: Ref) {
    RecordsAt(run, i, r.kind, h) && r.gen == Resets(run, i) && r.index == Filed(run, i, r.gen, r.kind)
  }

  predicate Called(run: Run, n: nat)
    requires n <= |run.steps|
  {
    exists i :: 0 <= i < n && run.steps[i] == CallClose
  }

  /** Handler `h` decides at step `i` that the outcome of `r` is to be `o`. */
  predicate DecidesAt(run: Run, i: nat, h: nat, r: Ref, o: Outcome) {
    i < |run.steps| && Decides(run.states[i], run.steps[i], h, r, o)
  }

  /** What its handler has decided on for `r`, it has also set. */
  predicate SetTo(run: Run, i: nat, k: nat, h: nat, r: Ref, o: Outcome) {
    i < k < |run.steps| && DecidesAt(run, i, h, r, o) && run.steps[k] == SetOutcome(h)
  }

  ghost predicate SetBefore(run: Run, n: nat, r: Ref, o: Outcome) {
    exists i: nat, k: nat, h: nat :: k < n && SetTo(run, i, k, h, r, o)
  }

  ghost predicate BegunBefore(run: Run, n: nat, h: nat, r: Ref) {
    exists i: nat :: i < n && BeginsAt(run, i, h, r)
  }

  /** A script of `h` panics at step `i` when asked for a reply to `r`. */
  predicate PanicsAt(run: Run, i: nat, h: nat, r: Ref) {
    i < |run.steps| && run.steps[i] == Panic(h) && HasRecorded(run.states[i], h) && run.states[i].handlers[h].ref == r && r.kind.Conversation?
  }

  /** Step `i` reports `err` to session `g`. */
  predicate ReportsAt(run: Run, i: nat, g: nat, err: string) {
    i < |run.steps| && Reports(run.states[i], run.steps[i], g, err)
  }

  // ---------------------------------------------------------------- whole runs

  /** There is one session more than resets, and the server is closed once `Close` has been called. */
  lemma {:induction false} SessionsCounted(run: Run, n: nat)
    requires n <= |run.steps|
    ensures |run.states[n].sessions| == 1 + Resets(run, n) && (run.states[n].closed <==> Called(run, n))
  {
    if n > 0 {
      SessionsCounted(run, n - 1);
      assert Taken(run, n - 1);
      SessionsAfter(run.states[n - 1], run.steps[n - 1], run.states[n]);
    }
  }

  /** The sessions before the last reset have been abandoned. */
  lemma AbandonedByReset(run: Run, n: nat, g: nat)
    requires n <= |run.steps|
    ensures IsAbandoned(run.states[n], g) <==> g < Resets(run, n)
  {
    SessionsCounted(run, n);
    EveryMomentIsSound(run, n);
  }

  /** Every session holds as many requests of each kind as were recorded between its two resets. */
  lemma {:induction false} RequestsCounted(run: Run, n: nat, g: nat, kind: Kind)
    requires n <= |run.steps|
    ensures Length(run.states[n], g, kind) == Filed(run, n, g, kind)
  {
    if n > 0 {
      RequestsCounted(run, n - 1, g, kind);
      assert Taken(run, n - 1);
      SessionsCounted(run, n - 1);
      LengthAfter(run.states[n - 1], run.steps[n - 1], run.states[n], g, kind);
    }
  }

  /** The request of a handler is the one it recorded, in the session current at the time and behind those already there. */
  lemma {:induction false} HandlersKeepTheirRequest(run: Run, n: nat, h: nat)
    requires n <= |run.steps| && h in run.states[n].handlers
    ensures var r := RefOf(run.states[n].handlers[h]); r.Some? ==> BegunBefore(run, n, h, r.value)
  {
    var r := RefOf(run.states[n].handlers[h]);
    if n > 0 && r.Some? {
      var (s, a) := (run.states[n - 1], run.steps[n - 1]);
      assert Taken(run, n - 1);
      SessionsCounted(run, n - 1);
      RefAfter(s, a, run.states[n], h);
      if h in s.handlers && RefOf(s.handlers[h]) == r {
        HandlersKeepTheirRequest(run, n - 1, h);
      } else {
        RequestsCounted(run, n - 1, r.value.gen, r.value.kind);
        assert BeginsAt(run, n - 1, h, r.value);
      }
    }
  }

  /** A decision stands until it is set. */
  lemma {:induction false} DecisionStands(run: Run, i: nat, n: nat, h: nat, r: Ref, o: Outcome)
    requires i < n <= |run.steps| && DecidesAt(run, i, h, r, o)
    requires forall k :: i < k < n ==> run.steps[k] != SetOutcome(h)
    ensures h in run.states[n].handlers && run.states[n].handlers[h] == Settling(r, o)
  {
    assert Taken(run, n - 1);
    if i < n - 1 {
      DecisionStands(run, i, n - 1, h, r, o);
      SettlingAfter(run.states[n - 1], run.steps[n - 1], run.states[n], h);
    } else {
      DecisionAfter(run.states[i], run.steps[i], run.states[n], h, r, o);
    }
  }

  /** What a handler is about to set, it has decided on, and nothing has been set since. */
  lemma {:induction false} SettlingWasDecided(run: Run, n: nat, h: nat) returns (i: nat)
    requires n <= |run.steps| && h in run.states[n].handlers && run.states[n].handlers[h].Settling?
    ensures i < n && DecidesAt(run, i, h, run.states[n].handlers[h].ref, run.states[n].handlers[h].outcome)
  {
    var p := run.states[n].handlers[h];
    assert n > 0;
    var s := run.states[n - 1];
    assert Taken(run, n - 1);
    SessionsCounted(run, n - 1);
    PhaseAfter(s, run.steps[n - 1], run.states[n], h);
    if h in s.handlers && s.handlers[h] == p {
      i := SettlingWasDecided(run, n - 1, h);
    } else {
      i := n - 1;
    }
  }

  lemma SettlerOwns(run: Run, n: nat, h: nat)
    requires n <= |run.steps| && h in run.states[n].handlers && run.states[n].handlers[h].Settling?
    ensures var (s, r) := (run.states[n].sessions, run.states[n].handlers[h].ref); Exists(s, r) && At(s, r).outcome == Pending
  {
    EveryMomentIsSound(run, n);
    var s := run.states[n];
    assert RefOf(s.handlers[h]) == Some(s.handlers[h].ref);
  }

  lemma OutcomeNext(run: Run, n: nat, r: Ref, o: Outcome)
    requires n < |run.steps| && HasOutcome(run.states[n], r, o) && o != Pending
    ensures HasOutcome(run.states[n + 1], r, o)
  {
    var (s, a) := (run.states[n], run.steps[n]);
    if a.SetOutcome? && a.h in s.handlers && s.handlers[a.h].Settling? {
      SettlerOwns(run, n, a.h);
    }
    assert Taken(run, n);
    OutcomeStays(s, a, run.states[n + 1], r, o);
  }

  lemma {:induction false} SettledStays(run: Run, m: nat, n: nat, r: Ref, o: Outcome)
    requires m <= n <= |run.steps| && HasOutcome(run.states[m], r, o) && o != Pending
    ensures HasOutcome(run.states[n], r, o)
  {
    if m < n {
      SettledStays(run, m, n - 1, r, o);
      OutcomeNext(run, n - 1, r, o);
    }
  }

  /** A request that is settled was settled by its handler, as it had decided. */
  lemma {:induction false} SettledAsDecided(run: Run, n: nat, r: Ref, o: Outcome)
    requires n <= |run.steps| && HasOutcome(run.states[n], r, o) && o != Pending
    ensures SetBefore(run, n, r, o)
  {
    assert n > 0;
    var (s, a) := (run.states[n - 1], run.steps[n - 1]);
    assert Taken(run, n - 1);
    SessionsCounted(run, n - 1);
    if !Exists(s.sessions, r) {
      NewIsPending(s, a, run.states[n], r);
    } else {
      OutcomeAfter(s, a, run.states[n], r);
      if At(s.sessions, r).outcome == o {
        SettledAsDecided(run, n - 1, r, o);
      } else {
        var i := SettlingWasDecided(run, n - 1, a.h);
        assert SetTo(run, i, n - 1, a.h, r, o);
      }
    }
  }

  function FirstSetting(run: Run, i: nat, k: nat, h: nat): (j: nat)
    requires i < k < |run.steps| && run.steps[k] == SetOutcome(h)
    ensures i < j <= k && run.steps[j] == SetOutcome(h) && forall m :: i < m < j ==> run.steps[m] != SetOutcome(h)
    decreases k - i
  {
    if run.steps[i + 1] == SetOutcome(h) then i + 1 else FirstSetting(run, i + 1, k, h)
  }

  /** What a handler has decided on and set is the outcome, whatever happens in between and afterwards. */
  lemma DecidedIsSettled(run: Run, i: nat, k: nat, n: nat, h: nat, r: Ref, o: Outcome)
    requires k < n <= |run.steps| && SetTo(run, i, k, h, r, o)
    ensures HasOutcome(run.states[n], r, o)
  {
    var j := FirstSetting(run, i, k, h);
    DecisionStands(run, i, j, h, r, o);
    SettlerOwns(run, j, h);
    assert Taken(run, j);
    OutcomeAfter(run.states[j], run.steps[j], run.states[j + 1], r);
    SettledStays(run, j + 1, n, r, o);
  }

  /**
   * The outcome of a request is what its handler decided on and then set: the verdict on
   * its reply, `Rejected` for a failure, `Canceled` for a hold given up. Neither resets
   * nor other handlers have a say in it.
   */
  lemma SettledExactlyAsDecided(run: Run, n: nat, r: Ref, o: Outcome)
    requires n <= |run.steps| && o != Pending
    ensures HasOutcome(run.states[n], r, o) <==> SetBefore(run, n, r, o)
  {
    if SetBefore(run, n, r, o) {
      var i: nat, k: nat, h: nat :| k < n && SetTo(run, i, k, h, r, o);
      DecidedIsSettled(run, i, k, n, h, r, o);
    }
    if HasOutcome(run.states[n], r, o) {
      SettledAsDecided(run, n, r, o);
    }
  }

  /** A hold is given up only if the request's context is done, the server closes, or the session has been reset. */
  lemma HoldsGivenUpWithCause(run: Run, i: nat, h: nat, contextDone: bool, r: Ref, o: Outcome)
    requires DecidesAt(run, i, h, r, o) && run.steps[i] == GiveUp(h, contextDone)
    ensures contextDone || Called(run, i) || r.gen < Resets(run, i)
  {
    SessionsCounted(run, i);
    AbandonedByReset(run, i, r.gen);
  }

  lemma {:induction false} FiledOnlyGrows(run: Run, m: nat, n: nat, g: nat, kind: Kind)
    requires m <= n <= |run.steps|
    ensures Filed(run, m, g, kind) <= Filed(run, n, g, kind) && Resets(run, m) <= Resets(run, n)
  {
    if m < n {
      FiledOnlyGrows(run, m, n - 1, g, kind);
    }
  }

  lemma {:induction false} FiledWasRecorded(run: Run, n: nat, r: Ref) returns (i: nat, h: nat)
    requires n <= |run.steps| && r.index < Filed(run, n, r.gen, r.kind)
    ensures i < n && BeginsAt(run, i, h, r)
  {
    if r.index < Filed(run, n - 1, r.gen, r.kind) {
      i, h := FiledWasRecorded(run, n - 1, r);
    } else {
      i, h := n - 1, run.steps[n - 1].h;
    }
  }

  /** Requests are exactly those some handler has recorded, each in the session current at that step and at the place free then. */
  lemma RequestsAreThoseRecorded(run: Run, n: nat, r: Ref)
    requires n <= |run.steps|
    ensures Exists(run.states[n].sessions, r) <==> exists h: nat :: BegunBefore(run, n, h, r)
  {
    RequestsCounted(run, n, r.gen, r.kind);
    if Exists(run.states[n].sessions, r) {
      var i, h := FiledWasRecorded(run, n, r);
      assert BegunBefore(run, n, h, r);
    }
    if h: nat :| BegunBefore(run, n, h, r) {
      var i: nat :| i < n && BeginsAt(run, i, h, r);
      assert Filed(run, i + 1, r.gen, r.kind) == r.index + 1;
      FiledOnlyGrows(run, i + 1, n, r.gen, r.kind);
    }
  }

  ghost predicate PanickedBefore(run: Run, n: nat, r: Ref) {
    exists i: nat, h: nat :: i < n && PanicsAt(run, i, h, r)
  }

  /** A request is left behind exactly if its script panicked. */
  lemma {:induction false} CrashedExactly(run: Run, n: nat, r: Ref)
    requires n <= |run.steps|
    ensures r in run.states[n].crashed <==> PanickedBefore(run, n, r)
  {
    if n > 0 {
      CrashedExactly(run, n - 1, r);
      assert Taken(run, n - 1);
      var (s, a) := (run.states[n - 1], run.steps[n - 1]);
      CrashedAfter(s, a, run.states[n], r);
      assert a.Panic? && HasRecorded(s, a.h) && s.handlers[a.h].ref == r && r.kind.Conversation? ==> PanicsAt(run, n - 1, a.h, r);
    }
  }

  ghost predicate FirstReport(run: Run, n: nat, g: nat, err: string) {
    exists i: nat :: i < n && ReportsAt(run, i, g, err) && !ReportedBefore(run, i, g)
  }

  ghost predicate ReportedBefore(run: Run, n: nat, g: nat) {
    exists i: nat, e :: i < n && ReportsAt(run, i, g, e)
  }

  lemma ReportsReach(run: Run, i: nat, g: nat, err: string)
    requires ReportsAt(run, i, g, err)
    ensures g <= Resets(run, i)
  {
    SessionsCounted(run, i);
    EveryMomentIsSound(run, i);
    var (s, h) := (run.states[i], run.steps[i].h);
    assert RefOf(s.handlers[h]).Some? ==> Exists(s.sessions, RefOf(s.handlers[h]).value);
  }

  lemma ErrorNext(run: Run, n: nat, g: nat, err: string)
    requires n < |run.steps|
    ensures HasError(run.states[n + 1], g, err) <==>
            HasError(run.states[n], g, err) || (ReportsAt(run, n, g, err) && !HasFailed(run.states[n], g))
  {
    assert Taken(run, n);
    var s := run.states[n];
    SessionsCounted(run, n);
    if g < |s.sessions| {
      ErrorAfter(s, run.steps[n], run.states[n + 1], g);
    } else {
      NewHasNoError(s, run.steps[n], run.states[n + 1], g, err);
      if ReportsAt(run, n, g, err) {
        ReportsReach(run, n, g, err);
      }
    }
  }

  lemma {:induction false} ReportIsKept(run: Run, i: nat, n: nat, g: nat, err: string)
    requires i < n <= |run.steps| && ReportsAt(run, i, g, err)
    ensures HasFailed(run.states[n], g)
    ensures !HasFailed(run.states[i], g) ==> HasError(run.states[n], g, err)
  {
    if i < n - 1 {
      ReportIsKept(run, i, n - 1, g, err);
    }
    if HasFailed(run.states[n - 1], g) {
      ErrorNext(run, n - 1, g, run.states[n - 1].sessions[g].err.value);
    } else {
      ErrorNext(run, n - 1, g, err);
    }
  }

  lemma {:induction false} ErrorWasReported(run: Run, n: nat, g: nat, err: string) returns (i: nat)
    requires n <= |run.steps| && HasError(run.states[n], g, err)
    ensures i < n && ReportsAt(run, i, g, err) && !HasFailed(run.states[i], g)
  {
    assert n > 0;
    ErrorNext(run, n - 1, g, err);
    if HasError(run.states[n - 1], g, err) {
      i := ErrorWasReported(run, n - 1, g, err);
    } else {
      i := n - 1;
    }
  }

  lemma NothingReportedYet(run: Run, n: nat, g: nat)
    requires n <= |run.steps|
    ensures HasFailed(run.states[n], g) <==> ReportedBefore(run, n, g)
  {
    if HasFailed(run.states[n], g) {
      var i := ErrorWasReported(run, n, g, run.states[n].sessions[g].err.value);
    }
    if i: nat, e :| i < n && ReportsAt(run, i, g, e) {
      ReportIsKept(run, i, n, g, e);
    }
  }

  /** The error of a session is the first that was reported to it. */
  lemma FirstErrorStays(run: Run, n: nat, g: nat, err: string)
    requires n <= |run.steps|
    ensures HasError(run.states[n], g, err) <==> FirstReport(run, n, g, err)
  {
    if HasError(run.states[n], g, err) {
      var i := ErrorWasReported(run, n, g, err);
      NothingReportedYet(run, i, g);
    }
    if i: nat :| i < n && ReportsAt(run, i, g, err) && !ReportedBefore(run, i, g) {
      NothingReportedYet(run, i, g);
      ReportIsKept(run, i, n, g, err);
    }
  }

  /** A rejection is reported to the session that was current when it began. */
  lemma {:induction false} RejectionsBegan(run: Run, n: nat, h: nat) returns (i: nat)
    requires n <= |run.steps| && h in run.states[n].handlers && run.states[n].handlers[h].Rejecting?
    ensures i < n && run.steps[i] == BeginReject(h) && HasEntered(run.states[i], h)
    ensures run.states[n].handlers[h].gen == Resets(run, i)
  {
    assert n > 0;
    var s := run.states[n - 1];
    assert Taken(run, n - 1);
    SessionsCounted(run, n - 1);
    PhaseAfter(s, run.steps[n - 1], run.states[n], h);
    if h in s.handlers && s.handlers[h] == run.states[n].handlers[h] {
      i := RejectionsBegan(run, n - 1, h);
    } else {
      i := n - 1;
    }
  }

  // ---------------------------------------------------------------- waiting and closing

  /** Someone asleep asked for that many requests. */
  lemma {:induction false} SleepersAsked(run: Run, n: nat, w: nat)
    requires n <= |run.steps| && w in run.states[n].waiters
    ensures exists i: nat :: i < n && run.steps[i] == AskFor(w, run.states[n].waiters[w].count)
  {
    var (s, a) := (run.states[n - 1], run.steps[n - 1]);
    assert Taken(run, n - 1);
    WaitersAfter(s, a, run.states[n], w);
    if w in s.waiters && s.waiters[w].count == run.states[n].waiters[w].count {
      SleepersAsked(run, n - 1, w);
    }
  }

  /**
   * No wake-up is lost: whoever sleeps although enough requests were recorded in the
   * current session can be woken, and then is done.
   */
  lemma NoLostWakeup(run: Run, n: nat, w: nat)
    requires n <= |run.steps| && w in run.states[n].waiters
    requires Filed(run, n, Resets(run, n), Conversation) >= run.states[n].waiters[w].count
    ensures var s := run.states[n]; CanWake(s, w, Changed) && w !in Step(s, Wake(w, Changed)).waiters
  {
    var s := run.states[n];
    assert |s.sessions[|s.sessions| - 1].requests| == Filed(run, n, Resets(run, n), Conversation) by {
      SessionsCounted(run, n);
      RequestsCounted(run, n, Resets(run, n), Conversation);
    }
    assert Sleepers(s.sessions, s.epoch, s.waiters) by {
      EveryMomentIsSound(run, n);
    }
    SleeperWakes(s, w);
  }

  predicate Unaided(a: Action) {
    a.Probe? || a.FinishReject? || a.Answer? || a.SetOutcome? || a.Leave? || (a.GiveUp? && !a.contextDone)
  }

  lemma {:induction false} Continued(s: State, first: seq<Action>, second: seq<Action>)
    ensures After(s, first + second) == After(After(s, first), second)
  {
    if second == [] {
      assert first + second == first;
    } else {
      var n := |second| - 1;
      assert (first + second)[..|first + second| - 1] == first + second[..n];
      Continued(s, first, second[..n]);
    }
  }

  /** The steps of `rest`, which handlers take unaided, lead from `s` to `t`. */
  ghost predicate Leads(s: State, rest: seq<Action>, t: State) {
    After(s, rest) == t && forall i :: 0 <= i < |rest| ==> Unaided(rest[i])
  }

  lemma LeadsFurther(s: State, first: seq<Action>, t: State, second: seq<Action>, u: State)
    requires Leads(s, first, t) && Leads(t, second, u)
    ensures Leads(s, first + second, u)
  {
    Continued(s, first, second);
  }

  lemma OneStep(s: State, a: Action)
    ensures After(s, [a]) == Step(s, a)
  {
    assert [a][..0] == [];
  }

  lemma OneStepNearer(s: State, h: nat) returns (t: State)
    requires Sound(s) && s.closed && h in s.handlers && !s.handlers[h].Finished?
    ensures Leads(s, [NextOf(h, s.handlers[h])], t) && Sound(t)
    ensures h in t.handlers && t.handlers.Keys == s.handlers.Keys && SameClosing(s, t) && Left(t.handlers[h]) < Left(s.handlers[h])
  {
    t := Step(s, NextOf(h, s.handlers[h]));
    OneStep(s, NextOf(h, s.handlers[h]));
    if s.handlers[h].Settling? {
      SettlingIsSound(s, h);
    }
    NearerTheEnd(s, h);
    assert Sound(t) by { StepIsSound(s, NextOf(h, s.handlers[h])); }
  }

  lemma LastStep(s: State, h: nat) returns (t: State)
    requires Sound(s) && h in s.handlers && s.handlers[h].Finished?
    ensures Leads(s, [Leave(h)], t) && Sound(t)
    ensures t.handlers.Keys == s.handlers.Keys - {h} && SameClosing(s, t)
  {
    t := Step(s, Leave(h));
    OneStep(s, Leave(h));
    StepIsSound(s, Leave(h));
    AtTheEnd(s, h);
  }

  /** A closed server's handler can finish by itself, wherever it is. */
  lemma {:induction false} HandlerFinishes(s: State, h: nat) returns (rest: seq<Action>, t: State)
    requires Sound(s) && s.closed && h in s.handlers
    ensures Leads(s, rest, t) && Sound(t) && t.handlers.Keys == s.handlers.Keys - {h} && SameClosing(s, t)
    decreases Left(s.handlers[h])
  {
    if s.handlers[h].Finished? {
      t := LastStep(s, h);
      rest := [Leave(h)];
    } else {
      var nearer := OneStepNearer(s, h);
      rest, t := HandlerFinishes(nearer, h);
      LeadsFurther(s, [NextOf(h, s.handlers[h])], nearer, rest, t);
      rest := [NextOf(h, s.handlers[h])] + rest;
    }
  }

  lemma {:induction false} HandlersFinish(s: State) returns (rest: seq<Action>, t: State)
    requires Sound(s) && s.closed
    ensures Leads(s, rest, t) && t.handlers == map[] && SameClosing(s, t)
    decreases s.handlers.Keys
  {
    if s.handlers == map[] {
      rest, t := [], s;
    } else {
      var h :| h in s.handlers;
      var first, u := HandlerFinishes(s, h);
      var others, v := HandlersFinish(u);
      LeadsFurther(s, first, u, others, v);
      rest, t := first + others, v;
    }
  }

  /**
   * `Close` releases whoever is held: after any script, with the server closed, the
   * handlers can all finish by themselves, and the `Close` still waiting can then return.
   */
  lemma CloseCanReturn(script: seq<Action>) returns (rest: seq<Action>, t: State)
    requires After(START, script).closed
    ensures t == After(START, script + rest) && forall i :: 0 <= i < |rest| ==> Unaided(rest[i])
    ensures t.handlers == map[] && SameClosing(After(START, script), t)
    ensures t.closing ==> Step(t, FinishClose).closings == t.closings + [Return(true, {})]
  {
    assert Sound(After(START, script)) by {
      var run := RunOf(script);
      EveryMomentIsSound(run, |script|);
    }
    rest, t := HandlersFinish(After(START, script));
    Continued(START, script, rest);
  }

  // ---------------------------------------------------------------- handlers

  /** Who is inside: whoever came in while the server was open, and has neither left when finished nor panicked. */
  lemma InsideExactly(run: Run, n: nat, h: nat)
    requires n < |run.steps|
    ensures var (s, a) := (run.states[n], run.steps[n]);
      h in run.states[n + 1].handlers <==>
      if h in s.handlers
      then !(a == Leave(h) && s.handlers[h].Finished?) && !(a == Panic(h) && s.handlers[h].Recorded? && s.handlers[h].ref.kind.Conversation?)
      else a == Enter(h) && !Called(run, n)
  {
    SessionsCounted(run, n);
    assert Taken(run, n);
    PresenceAfter(run.states[n], run.steps[n], run.states[n + 1], h);
  }

  /** A hold ends by release, once it has been offered, or is given up; nothing else gets a handler past it. */
  lemma HoldEnds(run: Run, n: nat, h: nat)
    requires n < |run.steps| && h in run.states[n].handlers && run.states[n].handlers[h].Held?
    ensures h in run.states[n + 1].handlers
    ensures var (p, q) := (run.states[n].handlers[h], run.states[n + 1].handlers[h]);
      || q == p || (q == Held(p.ref, true) && run.steps[n] == Offer(h))
      || (q == Recorded(p.ref) && run.steps[n] == Release(h) && p.offered)
      || (q == Settling(p.ref, Canceled) && DecidesAt(run, n, h, p.ref, Canceled))
  {
    assert Taken(run, n);
    HeldAfter(run.states[n], run.steps[n], run.states[n + 1], h);
  }

  lemma {:induction false} OffersWereMade(run: Run, n: nat, h: nat) returns (i: nat)
    requires n <= |run.steps| && h in run.states[n].handlers && run.states[n].handlers[h].Held? && run.states[n].handlers[h].offered
    ensures i < n && run.steps[i] == Offer(h) && h in run.states[i].handlers
    ensures run.states[i].handlers[h] == Held(run.states[n].handlers[h].ref, false)
  {
    assert Taken(run, n - 1);
    var s := run.states[n - 1];
    OfferedAfter(s, run.steps[n - 1], run.states[n], h);
    if h in s.handlers && s.handlers[h] == run.states[n].handlers[h] {
      i := OffersWereMade(run, n - 1, h);
    } else {
      i := n - 1;
    }
  }

  // ---------------------------------------------------------------- service

  function Arrival(h: nat, kind: Kind): seq<Action> {
    [Enter(h), RecordBy(h, kind)]
  }

  function Departure(h: nat, o: Outcome): seq<Action> {
    [Answer(h, o), SetOutcome(h), Leave(h)]
  }

  lemma TwoSteps(s: State, a: Action, b: Action)
    ensures After(s, [a, b]) == Step(Step(s, a), b)
  {
    assert [a, b] == [a] + [b];
    Continued(s, [a], [b]);
    OneStep(s, a);
    OneStep(Step(s, a), b);
  }

  lemma ThreeSteps(s: State, a: Action, b: Action, c: Action)
    ensures After(s, [a, b, c]) == Step(Step(Step(s, a), b), c)
  {
    assert [a, b, c] == [a, b] + [c];
    Continued(s, [a, b], [c]);
    TwoSteps(s, a, b);
    OneStep(Step(Step(s, a), b), c);
  }

  lemma RecordingIs(s: State, h: nat, kind: Kind)
    requires HasEntered(s, h)
    ensures Step(s, RecordBy(h, kind)).handlers == s.handlers[h := Recorded(NextRef(s, kind))]
    ensures Step(s, RecordBy(h, kind)).sessions == Filing(s.sessions, kind)
  {
  }

  /** On an open server a newcomer records one request, pending. */
  lemma NewcomersRecord(s: State, h: nat, kind: Kind)
    requires s.sessions != [] && !s.closed && h !in s.handlers
    ensures var (g, t) := (|s.sessions| - 1, After(s, Arrival(h, kind)));
      && t.handlers == s.handlers[h := Recorded(Ref(g, kind, |List(s.sessions[g], kind)|))]
      && t.sessions == s.sessions[g := WithList(s.sessions[g], kind, List(s.sessions[g], kind) + [Request(kind, |List(s.sessions[g], kind)|, Pending)])]
  {
    var u := s.(handlers := s.handlers[h := Entered]);
    assert After(s, Arrival(h, kind)) == Step(u, RecordBy(h, kind)) by {
      TwoSteps(s, Enter(h), RecordBy(h, kind));
      assert Step(s, Enter(h)) == u;
    }
    RecordingIs(u, h, kind);
    assert u.handlers[h := Recorded(NextRef(s, kind))] == s.handlers[h := Recorded(NextRef(s, kind))];
  }

  lemma OfferedAndReleased(s: State, h: nat)
    requires h in s.handlers && s.handlers[h].Held? && !s.handlers[h].offered
    ensures After(s, [Offer(h), Release(h)]) == s.(handlers := s.handlers[h := Recorded(s.handlers[h].ref)])
  {
    var offered := s.(handlers := s.handlers[h := Held(s.handlers[h].ref, true)]);
    assert After(s, [Offer(h), Release(h)]) == Step(offered, Release(h)) by {
      TwoSteps(s, Offer(h), Release(h));
      MovingIs(s, Offer(h));
    }
    MovingIs(offered, Release(h));
    assert offered.handlers[h := Recorded(s.handlers[h].ref)] == s.handlers[h := Recorded(s.handlers[h].ref)];
  }

  /** A conversation that is held, offered and released goes on as if it had not been. */
  lemma ReleasedAsIfNeverHeld(s: State, h: nat)
    requires h in s.handlers && s.handlers[h].Recorded? && s.handlers[h].ref.kind.Conversation?
    ensures After(s, [Hold(h)] + [Offer(h), Release(h)]) == s
  {
    var ref := s.handlers[h].ref;
    var held := s.(handlers := s.handlers[h := Held(ref, false)]);
    assert After(s, [Hold(h)] + [Offer(h), Release(h)]) == After(held, [Offer(h), Release(h)]) by {
      Continued(s, [Hold(h)], [Offer(h), Release(h)]);
      OneStep(s, Hold(h));
      MovingIs(s, Hold(h));
    }
    assert After(held, [Offer(h), Release(h)]) == s by {
      OfferedAndReleased(held, h);
      assert held.handlers[h := Recorded(ref)] == s.handlers;
    }
  }

  /** A verdict is set on the handler's own request, wherever the current session is by then, and the handler leaves. */
  lemma VerdictsAreSet(s: State, h: nat, o: Outcome)
    requires h in s.handlers && s.handlers[h].Recorded? && o != Pending && Exists(s.sessions, s.handlers[h].ref)
    ensures var t := After(s, Departure(h, o));
      t.handlers == s.handlers - {h} && Resettled(s.sessions, s.handlers[h].ref, o, t.sessions)
  {
    ThreeSteps(s, Answer(h, o), SetOutcome(h), Leave(h));
    var ref := s.handlers[h].ref;
    OutcomeReplaced(s.sessions, ref, o);
    assert Step(s, Answer(h, o)) == s.(handlers := s.handlers[h := Settling(ref, o)]);
    assert Step(Step(s, Answer(h, o)), SetOutcome(h)).sessions == WithOutcome(s.sessions, ref, o);
  }

  lemma NewcomersBeginRejecting(s: State, h: nat)
    requires s.sessions != [] && !s.closed && h !in s.handlers
    ensures After(s, [Enter(h), BeginReject(h)]) == s.(handlers := s.handlers[h := Rejecting(|s.sessions| - 1)])
  {
    TwoSteps(s, Enter(h), BeginReject(h));
    assert Step(s, Enter(h)) == s.(handlers := s.handlers[h := Entered]);
    assert s.handlers[h := Entered][h := Rejecting(|s.sessions| - 1)] == s.handlers[h := Rejecting(|s.sessions| - 1)];
  }

  lemma RejectionIs(s: State, h: nat, g: nat, err: string)
    requires h in s.handlers && s.handlers[h] == Rejecting(g)
    ensures Step(s, FinishReject(h, err)).handlers == s.handlers[h := Finished]
    ensures Step(s, FinishReject(h, err)).sessions == Reporting(s.sessions, g, err)
  {
  }

  /** A rejection of a newcomer is the error of the current session, unless it already has one. */
  lemma NewcomersAreRejected(s: State, h: nat, err: string)
    requires s.sessions != [] && !s.closed && h !in s.handlers
    ensures var t := After(s, [Enter(h), BeginReject(h)] + [FinishReject(h, err)]);
      t.handlers == s.handlers[h := Finished] && t.sessions == Reporting(s.sessions, |s.sessions| - 1, err)
  {
    var u := s.(handlers := s.handlers[h := Rejecting(|s.sessions| - 1)]);
    assert After(s, [Enter(h), BeginReject(h)] + [FinishReject(h, err)]) == Step(u, FinishReject(h, err)) by {
      NewcomersBeginRejecting(s, h);
      Continued(s, [Enter(h), BeginReject(h)], [FinishReject(h, err)]);
      OneStep(u, FinishReject(h, err));
    }
    RejectionIs(u, h, |s.sessions| - 1, err);
    assert u.handlers[h := Finished] == s.handlers[h := Finished];
  }

  /** The first error of a session stays. */
  lemma ReportingMeans(sessions: seq<Session>, g: nat, err: string)
    requires g < |sessions|
    ensures var r := Reporting(sessions, g, err);
      && |r| == |sessions| && r[g] == sessions[g].(err := if sessions[g].err.Some? then sessions[g].err else Some(err))
      && forall i :: 0 <= i < |r| && i != g ==> r[i] == sessions[i]
  {
  }

  /** A waiter that asks sleeps exactly if too few requests have been recorded in the current session. */
  lemma AskersSleep(run: Run, n: nat, w: nat, count: int)
    requires n < |run.steps| && run.steps[n] == AskFor(w, count) && w !in run.states[n].waiters
    ensures w in run.states[n + 1].waiters <==> count > Filed(run, n, Resets(run, n), Conversation)
  {
    SessionsCounted(run, n);
    RequestsCounted(run, n, Resets(run, n), Conversation);
    assert Taken(run, n);
  }
}
