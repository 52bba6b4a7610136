/** What a single step of the fake provider keeps, and what it does to sessions, requests, handlers and waiters. */
module ProviderSteps {
  import opened Options
  import opened ProviderSessions

  // ---------------------------------------------------------------- what always holds

  ghost predicate Sound(s: State) {
    InOrder(s.sessions, s.handlers, s.crashed) && Sleepers(s.sessions, s.epoch, s.waiters)
  }

  lemma EnteringIsSound(s: State, h: nat)
    requires Sound(s)
    ensures Sound(Step(s, Enter(h)))
  {
    if h !in s.handlers {
      MovedIsSound(s.sessions, s.handlers, s.crashed, h, Entered);
    }
  }

  lemma LeavingIsSound(s: State, h: nat)
    requires Sound(s)
    ensures Sound(Step(s, Leave(h)))
  {
    if h in s.handlers && s.handlers[h].Finished? {
      LeftIsSound(s.sessions, s.handlers, s.crashed, h);
    }
  }

  lemma PanickingIsSound(s: State, h: nat)
    requires Sound(s)
    ensures Sound(Step(s, Panic(h)))
  {
    if HasRecorded(s, h) {
      assert RefOf(s.handlers[h]) == Some(s.handlers[h].ref);
      CrashedIsSound(s.sessions, s.handlers, s.crashed, h, s.handlers[h].ref);
    }
  }

  lemma WaitOrCloseIsSound(s: State, a: Action)
    requires Sound(s) && (a.AskFor? || a.Wake? || a.CallClose? || a.FinishClose?)
    ensures Sound(Step(s, a))
  {
  }

  lemma MovesKeepTheRequest(s: State, a: Action, p: Phase)
    requires OnlyMoves(a)
    ensures var q := NextPhase(s, a, p);
      RefOf(q) == RefOf(p) && (q.Settling? ==> q == p || q.outcome != Pending) && (q.Rejecting? ==> q == p || q.gen == Current(s))
  {
  }

  lemma MovedStateIsSound(s: State, h: nat, p: Phase)
    requires Sound(s) && h in s.handlers && RefOf(p) == RefOf(s.handlers[h])
    requires p == s.handlers[h] || ((p.Settling? ==> p.outcome != Pending) && (p.Rejecting? ==> p.gen == Current(s)))
    ensures Sound(s.(handlers := s.handlers[h := p]))
  {
    MovedIsSound(s.sessions, s.handlers, s.crashed, h, p);
  }

  lemma MovingIsSound(s: State, a: Action)
    requires Sound(s) && OnlyMoves(a)
    ensures Sound(Step(s, a))
  {
    MovingIs(s, a);
    if a.h in s.handlers {
      MovesKeepTheRequest(s, a, s.handlers[a.h]);
      MovedStateIsSound(s, a.h, NextPhase(s, a, s.handlers[a.h]));
    }
  }

  function RecordBy(h: nat, kind: Kind): Action {
    if kind.Conversation? then RecordConversation(h) else RecordSide(h)
  }

  lemma RecordingIsSound(s: State, h: nat, kind: Kind)
    requires Sound(s)
    ensures Sound(Step(s, RecordBy(h, kind)))
  {
    if HasEntered(s, h) {
      RecordedIsSound(s.sessions, s.handlers, s.crashed, h, kind, Filing(s.sessions, kind), NextRef(s, kind));
    }
  }

  lemma ReportingIsSound(s: State, gen: nat, err: string)
    requires Sound(s)
    ensures Sound(s.(sessions := Reporting(s.sessions, gen, err)))
  {
    if gen < |s.sessions| && s.sessions[gen].err.None? {
      SameRequestsAreSound(s.sessions, s.handlers, s.crashed, Reporting(s.sessions, gen, err));
    }
  }

  lemma RejectionIsSound(s: State, h: nat, err: string)
    requires Sound(s)
    ensures Sound(Step(s, FinishReject(h, err)))
  {
    if h in s.handlers && s.handlers[h].Rejecting? {
      ReportingIsSound(s, s.handlers[h].gen, err);
      MovedIsSound(Reporting(s.sessions, s.handlers[h].gen, err), s.handlers, s.crashed, h, Finished);
    }
  }

  lemma FailureIsSound(s: State, h: nat, err: string)
    requires Sound(s)
    ensures Sound(Step(s, Fail(h, err)))
  {
    FailureIs(s, h, err);
    if HasRecorded(s, h) {
      var r := s.handlers[h].ref;
      ReportingIsSound(s, r.gen, err);
      MovedStateIsSound(s.(sessions := Reporting(s.sessions, r.gen, err)), h, Settling(r, Rejected));
    }
  }

  lemma SettlingIsSound(s: State, h: nat)
    requires Sound(s)
    ensures h in s.handlers && s.handlers[h].Settling? ==> Exists(s.sessions, s.handlers[h].ref)
    ensures Sound(Step(s, SetOutcome(h)))
  {
    if h in s.handlers && s.handlers[h].Settling? {
      var (r, o) := (s.handlers[h].ref, s.handlers[h].outcome);
      assert RefOf(s.handlers[h]) == Some(r);
      OutcomeReplaced(s.sessions, r, o);
      FinishedIsSensible(s.sessions, s.handlers, h, WithOutcome(s.sessions, r, o));
      SettledIsSound(s.sessions, s.handlers, s.crashed, h, r, o, WithOutcome(s.sessions, r, o));
    }
  }

  lemma ResettingIsSound(s: State)
    requires Sound(s)
    ensures Sound(Step(s, Reset))
  {
    SameRequestsAreSound(s.sessions, s.handlers, s.crashed, Resetting(s.sessions));
  }

  lemma StepIsSound(s: State, a: Action)
    requires Sound(s)
    ensures Sound(Step(s, a))
  {
    match a
    case Enter(h) => EnteringIsSound(s, h);
    case Leave(h) => LeavingIsSound(s, h);
    case Panic(h) => PanickingIsSound(s, h);
    case Probe(_) | BeginReject(_) | Hold(_) | Offer(_) | Release(_) | GiveUp(_, _) | Answer(_, _) => MovingIsSound(s, a);
    case RecordConversation(h) => RecordingIsSound(s, h, Conversation);
    case RecordSide(h) => RecordingIsSound(s, h, Side);
    case FinishReject(h, err) => RejectionIsSound(s, h, err);
    case Fail(h, err) => FailureIsSound(s, h, err);
    case SetOutcome(h) => SettlingIsSound(s, h);
    case Reset => ResettingIsSound(s);
    case CallClose | FinishClose | AskFor(_, _) | Wake(_, _) => WaitOrCloseIsSound(s, a);
  }

  lemma SleeperWakes(s: State, w: nat)
    requires Sleepers(s.sessions, s.epoch, s.waiters) && w in s.waiters
    requires |s.sessions[|s.sessions| - 1].requests| >= s.waiters[w].count
    ensures CanWake(s, w, Changed) && w !in Step(s, Wake(w, Changed)).waiters
  {
  }

  // ---------------------------------------------------------------- one step

  function Length(s: State, g: nat, kind: Kind): nat {
    if g < |s.sessions| then |List(s.sessions[g], kind)| else 0
  }

  predicate Records(s: State, a: Action, h: nat, kind: Kind) {
    HasEntered(s, h) && a == RecordBy(h, kind)
  }

  lemma SessionsAfter(s: State, a: Action, t: State)
    requires t == Step(s, a) && s.sessions != []
    ensures |t.sessions| == |s.sessions| + (if a.Reset? then 1 else 0)
    ensures t.closed == (s.closed || a.CallClose?)
  {
  }

  lemma LengthAfter(s: State, a: Action, t: State, g: nat, kind: Kind)
    requires t == Step(s, a) && s.sessions != []
    ensures Length(t, g, kind) == Length(s, g, kind) +
            if (if kind.Conversation? then a.RecordConversation? else a.RecordSide?) && HasEntered(s, a.h) && g == |s.sessions| - 1 then 1 else 0
  {
  }

  predicate Decides(s: State, a: Action, h: nat, r: Ref, o: Outcome) {
    && h in s.handlers && o != Pending
    && match a
      case Answer(h', outcome) => h' == h && s.handlers[h] == Recorded(r) && o == outcome
      case Fail(h', _) => h' == h && s.handlers[h] == Recorded(r) && o == Rejected
      case GiveUp(h', contextDone) =>
        h' == h && s.handlers[h].Held? && s.handlers[h].ref == r && o == Canceled && (contextDone || s.closed || IsAbandoned(s, r.gen))
      case _ => false
  }

  lemma PhaseAfter(s: State, a: Action, t: State, h: nat)
    requires t == Step(s, a) && s.sessions != [] && h in t.handlers
    ensures var p := t.handlers[h];
      && (p.Rejecting? ==> (h in s.handlers && s.handlers[h] == p) || (a == BeginReject(h) && HasEntered(s, h) && p.gen == |s.sessions| - 1))
      && (p.Settling? ==> (h in s.handlers && s.handlers[h] == p) || Decides(s, a, h, p.ref, p.outcome))
  {
  }

  lemma RefAfter(s: State, a: Action, t: State, h: nat)
    requires t == Step(s, a) && s.sessions != [] && h in t.handlers
    ensures var p := RefOf(t.handlers[h]);
      p.Some? ==> (h in s.handlers && RefOf(s.handlers[h]) == p)
                  || (Records(s, a, h, p.value.kind) && p.value.gen == |s.sessions| - 1 && p.value.index == Length(s, p.value.gen, p.value.kind))
  {
  }

  lemma SettlingAfter(s: State, a: Action, t: State, h: nat)
    requires t == Step(s, a) && h in s.handlers && s.handlers[h].Settling? && a != SetOutcome(h)
    ensures h in t.handlers && t.handlers[h] == s.handlers[h]
  {
  }

  lemma DecisionAfter(s: State, a: Action, t: State, h: nat, r: Ref, o: Outcome)
    requires t == Step(s, a) && Decides(s, a, h, r, o)
    ensures h in t.handlers && t.handlers[h] == Settling(r, o)
  {
  }

  lemma OutcomeAfter(s: State, a: Action, t: State, r: Ref)
    requires t == Step(s, a) && s.sessions != [] && Exists(s.sessions, r)
    ensures Exists(t.sessions, r)
    ensures At(t.sessions, r).outcome ==
            if a.SetOutcome? && a.h in s.handlers && s.handlers[a.h].Settling? && s.handlers[a.h].ref == r then s.handlers[a.h].outcome
            else At(s.sessions, r).outcome
  {
    match a
    case SetOutcome(h) =>
      if h in s.handlers && s.handlers[h].Settling? && Exists(s.sessions, s.handlers[h].ref) {
        OutcomeReplaced(s.sessions, s.handlers[h].ref, s.handlers[h].outcome);
      }
    case _ =>
  }

  predicate Reports(s: State, a: Action, g: nat, err: string) {
    match a
    case FinishReject(h, e) => h in s.handlers && s.handlers[h] == Rejecting(g) && e == err
    case Fail(h, e) => HasRecorded(s, h) && s.handlers[h].ref.gen == g && e == err
    case _ => false
  }

  lemma ErrorAfter(s: State, a: Action, t: State, g: nat)
    requires t == Step(s, a) && g < |s.sessions|
    ensures g < |t.sessions|
    ensures s.sessions[g].err.Some? ==> t.sessions[g].err == s.sessions[g].err
    ensures forall e: string :: s.sessions[g].err.None? ==> (t.sessions[g].err == Some(e) <==> Reports(s, a, g, e))
  {
  }

  lemma CrashedAfter(s: State, a: Action, t: State, r: Ref)
    requires t == Step(s, a)
    ensures r in t.crashed <==> (r in s.crashed || (a.Panic? && HasRecorded(s, a.h) && s.handlers[a.h].ref == r && r.kind.Conversation?))
  {
  }

  lemma NewIsPending(s: State, a: Action, t: State, r: Ref)
    requires t == Step(s, a) && s.sessions != [] && Exists(t.sessions, r) && !Exists(s.sessions, r)
    ensures At(t.sessions, r).outcome == Pending
  {
    match a
    case SetOutcome(h) =>
      if h in s.handlers && s.handlers[h].Settling? && Exists(s.sessions, s.handlers[h].ref) {
        OutcomeReplaced(s.sessions, s.handlers[h].ref, s.handlers[h].outcome);
      }
    case _ =>
  }

  /** The outcome of `r` is `o`. */
  predicate HasOutcome(s: State, r: Ref, o: Outcome) {
    Exists(s.sessions, r) && At(s.sessions, r).outcome == o
  }

  lemma OutcomeStays(s: State, a: Action, t: State, r: Ref, o: Outcome)
    requires t == Step(s, a) && s.sessions != [] && HasOutcome(s, r, o)
    requires !(a.SetOutcome? && a.h in s.handlers && s.handlers[a.h].Settling? && s.handlers[a.h].ref == r)
    ensures HasOutcome(t, r, o)
  {
    OutcomeAfter(s, a, t, r);
  }

  ghost predicate HasError(s: State, g: nat, err: string) {
    g < |s.sessions| && s.sessions[g].err == Some(err)
  }

  predicate HasFailed(s: State, g: nat) {
    g < |s.sessions| && s.sessions[g].err.Some?
  }

  lemma NewHasNoError(s: State, a: Action, t: State, g: nat, err: string)
    requires t == Step(s, a) && s.sessions != [] && g >= |s.sessions|
    ensures !HasError(t, g, err)
  {
  }

  lemma WaitersAfter(s: State, a: Action, t: State, w: nat)
    requires t == Step(s, a) && w in t.waiters
    ensures (w in s.waiters && t.waiters[w].count == s.waiters[w].count) || a == AskFor(w, t.waiters[w].count)
  {
  }

  lemma PresenceAfter(s: State, a: Action, t: State, h: nat)
    requires t == Step(s, a)
    ensures h in t.handlers <==>
            if h in s.handlers
            then !(a == Leave(h) && s.handlers[h].Finished?) && !(a == Panic(h) && s.handlers[h].Recorded? && s.handlers[h].ref.kind.Conversation?)
            else a == Enter(h) && !s.closed
  {
  }

  lemma HeldAfter(s: State, a: Action, t: State, h: nat)
    requires t == Step(s, a) && h in s.handlers && s.handlers[h].Held?
    ensures h in t.handlers
    ensures var (p, q) := (s.handlers[h], t.handlers[h]);
      || q == p || (q == Held(p.ref, true) && a == Offer(h)) || (q == Recorded(p.ref) && a == Release(h) && p.offered)
      || (q == Settling(p.ref, Canceled) && Decides(s, a, h, p.ref, Canceled))
  {
  }

  lemma OfferedAfter(s: State, a: Action, t: State, h: nat)
    requires t == Step(s, a) && h in t.handlers && t.handlers[h].Held? && t.handlers[h].offered
    ensures h in s.handlers
    ensures s.handlers[h] == t.handlers[h] || (a == Offer(h) && s.handlers[h] == Held(t.handlers[h].ref, false))
  {
  }

  /** The next step of handler `h` towards its end once the server is closed; nobody has to release it or end its context. */
  function NextOf(h: nat, p: Phase): Action {
    match p
    case Entered => Probe(h)
    case Rejecting(_) => FinishReject(h, "")
    case Recorded(_) => Answer(h, Completed)
    case Held(_, _) => GiveUp(h, false)
    case Settling(_, _) => SetOutcome(h)
    case Finished => Leave(h)
  }

  predicate SameClosing(s: State, t: State) {
    t.closed == s.closed && t.closing == s.closing && t.closings == s.closings
  }

  lemma NearerTheEnd(s: State, h: nat)
    requires s.closed && h in s.handlers && !s.handlers[h].Finished?
    requires s.handlers[h].Settling? ==> Exists(s.sessions, s.handlers[h].ref)
    ensures var t := Step(s, NextOf(h, s.handlers[h]));
      && h in t.handlers && t.handlers.Keys == s.handlers.Keys && SameClosing(s, t) && Left(t.handlers[h]) < Left(s.handlers[h])
  {
  }

  function Left(p: Phase): nat {
    if p.Finished? then 0 else if p.Settling? then 1 else 2
  }

  lemma AtTheEnd(s: State, h: nat)
    requires h in s.handlers && s.handlers[h].Finished?
    ensures Step(s, Leave(h)).handlers == s.handlers - {h} && SameClosing(s, Step(s, Leave(h)))
  {
  }
}
