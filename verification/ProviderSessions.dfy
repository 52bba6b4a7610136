/**
 * The sessions of the fake provider under concurrent handlers, resets and closing. Every
 * region guarded by the server's mutex is one step; steps of different handlers, resets
 * and closes may come in any order.
 */
module ProviderSessions {
  import opened Options

  datatype Kind = Conversation | Side

  datatype Outcome = Pending | Completed | Rejected | Dropped | Canceled

  datatype Request = Request(kind: Kind, index: nat, outcome: Outcome)

  datatype Session = Session(requests: seq<Request>, side: seq<Request>, err: Option<string>, abandoned: bool)

  const NEW_SESSION := Session([], [], None, false)

  /** Where a handler's request is recorded. */
  datatype Ref = Ref(gen: nat, kind: Kind, index: nat)

  /** Where a handler is between two steps. `Rejecting` has read the current session but not yet reported to it. */
  datatype Phase =
    | Entered
    | Rejecting(gen: nat)
    | Recorded(ref: Ref)
    | Held(ref: Ref, offered: bool)
    | Settling(ref: Ref, outcome: Outcome)
    | Finished

  /** Someone waiting for `count` requests, asleep on the channel of `epoch`. */
  datatype Waiter = Waiter(count: nat, epoch: nat)

  /** The request a handler still has to settle. */
  function RefOf(p: Phase): Option<Ref> {
    match p
    case Recorded(ref) => Some(ref)
    case Held(ref, _) => Some(ref)
    case Settling(ref, _) => Some(ref)
    case _ => None
  }

  function List(s: Session, k: Kind): seq<Request> {
    if k.Conversation? then s.requests else s.side
  }

  function WithList(s: Session, k: Kind, rs: seq<Request>): Session {
    if k.Conversation? then s.(requests := rs) else s.(side := rs)
  }

  predicate Exists(sessions: seq<Session>, r: Ref) {
    r.gen < |sessions| && r.index < |List(sessions[r.gen], r.kind)|
  }

  function At(sessions: seq<Session>, r: Ref): Request
    requires Exists(sessions, r)
  {
    List(sessions[r.gen], r.kind)[r.index]
  }

  // ---------------------------------------------------------------- what always holds

  /** Every request carries its own kind and position. */
  ghost predicate Positioned(sessions: seq<Session>) {
    forall r: Ref :: Exists(sessions, r) ==> At(sessions, r).kind == r.kind && At(sessions, r).index == r.index
  }

  /**
   * The requests still pending are exactly those some handler has to settle and those of
   * `crashed`, whose handler is gone; no two handlers share one.
   */
  ghost predicate Owned(sessions: seq<Session>, handlers: map<nat, Phase>, crashed: set<Ref>) {
    && (forall h :: h in handlers && RefOf(handlers[h]).Some? ==>
          Exists(sessions, RefOf(handlers[h]).value) && At(sessions, RefOf(handlers[h]).value).outcome == Pending)
    && (forall h, h' :: h in handlers && h' in handlers && RefOf(handlers[h]).Some? && RefOf(handlers[h]) == RefOf(handlers[h'])
          ==> h == h')
    && (forall r: Ref :: r in crashed ==> Exists(sessions, r) && At(sessions, r).outcome == Pending && !HasOwner(handlers, r))
    && (forall r: Ref :: Exists(sessions, r) && At(sessions, r).outcome == Pending ==> HasOwner(handlers, r) || r in crashed)
  }

  ghost predicate HasOwner(handlers: map<nat, Phase>, r: Ref) {
    exists h :: h in handlers && RefOf(handlers[h]) == Some(r)
  }

  /** All sessions but the last have been abandoned. */
  predicate Generations(sessions: seq<Session>) {
    sessions != [] && forall g :: 0 <= g < |sessions| ==> (sessions[g].abandoned <==> g < |sessions| - 1)
  }

  predicate Sensible(sessions: seq<Session>, handlers: map<nat, Phase>) {
    forall h :: h in handlers ==>
      && (handlers[h].Settling? ==> handlers[h].outcome != Pending)
      && (handlers[h].Rejecting? ==> handlers[h].gen < |sessions|)
  }

  ghost predicate InOrder(sessions: seq<Session>, handlers: map<nat, Phase>, crashed: set<Ref>) {
    Positioned(sessions) && Owned(sessions, handlers, crashed) && Generations(sessions) && Sensible(sessions, handlers)
  }

  /** Nobody sleeps on the present channel while the requests waited for are there. */
  ghost predicate Sleepers(sessions: seq<Session>, epoch: nat, waiters: map<nat, Waiter>) {
    && sessions != []
    && (forall w :: w in waiters ==> waiters[w].epoch <= epoch)
    && (forall w :: w in waiters && waiters[w].epoch == epoch ==> |sessions[|sessions| - 1].requests| < waiters[w].count)
  }

  // ---------------------------------------------------------------- what a step may change

  /** Requests stay where they are; a pending one may be settled, and a settled one never changes again. */
  ghost predicate Evolves(a: seq<Session>, b: seq<Session>) {
    && |a| <= |b|
    && (forall r: Ref :: Exists(a, r) ==>
          Exists(b, r) && (At(a, r) == At(b, r) || (At(a, r).outcome == Pending && At(b, r) == At(a, r).(outcome := At(b, r).outcome))))
    && (forall g :: 0 <= g < |a| ==> (a[g].err.Some? ==> b[g].err == a[g].err) && (a[g].abandoned ==> b[g].abandoned))
  }

  lemma EvolvesTransitive(a: seq<Session>, b: seq<Session>, c: seq<Session>)
    requires Evolves(a, b) && Evolves(b, c)
    ensures Evolves(a, c)
  {
    forall r: Ref | Exists(a, r)
      ensures Exists(c, r) && (At(a, r) == At(c, r)
              || (At(a, r).outcome == Pending && At(c, r) == At(a, r).(outcome := At(c, r).outcome)))
    {
      assert Exists(b, r);
    }
  }

  /** `t` is `s` with one more request, the pending `r`. */
  ghost predicate Grown(s: seq<Session>, r: Ref, t: seq<Session>) {
    && |t| == |s| && !Exists(s, r) && Exists(t, r) && At(t, r) == Request(r.kind, r.index, Pending)
    && (forall q: Ref :: Exists(t, q) <==> Exists(s, q) || q == r)
    && (forall q: Ref :: Exists(s, q) && Exists(t, q) ==> At(t, q) == At(s, q))
    && (forall g :: 0 <= g < |s| ==> t[g].err == s[g].err && t[g].abandoned == s[g].abandoned)
  }

  lemma RequestAppended(s: seq<Session>, k: Kind, t: seq<Session>, r: Ref)
    requires s != [] && r == Ref(|s| - 1, k, |List(s[|s| - 1], k)|)
    requires t == s[|s| - 1 := WithList(s[|s| - 1], k, List(s[|s| - 1], k) + [Request(k, r.index, Pending)])]
    ensures Grown(s, r, t)
  {
  }

  lemma RecordedIsOwned(s: seq<Session>, hs: map<nat, Phase>, crashed: set<Ref>, h: nat, t: seq<Session>, r: Ref)
    requires Owned(s, hs, crashed) && h in hs && RefOf(hs[h]).None? && Grown(s, r, t)
    ensures Owned(t, hs[h := Recorded(r)], crashed)
  {
    var hs' := hs[h := Recorded(r)];
    forall q: Ref | Exists(t, q) && At(t, q).outcome == Pending ensures HasOwner(hs', q) || q in crashed {
      if q == r {
        assert RefOf(hs'[h]) == Some(r);
      } else if q !in crashed {
        var g :| g in hs && RefOf(hs[g]) == Some(q);
        assert g in hs' && RefOf(hs'[g]) == Some(q);
      }
    }
    forall g | g in hs' && RefOf(hs'[g]).Some?
      ensures Exists(t, RefOf(hs'[g]).value) && At(t, RefOf(hs'[g]).value).outcome == Pending
    {
      if g != h {
        assert Exists(s, RefOf(hs[g]).value);
      }
    }
  }

  /** One list of one session has grown by a pending request. */
  lemma RecordedIsSound(s: seq<Session>, hs: map<nat, Phase>, crashed: set<Ref>, h: nat, k: Kind, t: seq<Session>, r: Ref)
    requires Positioned(s) && Owned(s, hs, crashed) && Generations(s) && h in hs && RefOf(hs[h]).None?
    requires r == Ref(|s| - 1, k, |List(s[|s| - 1], k)|)
    requires t == s[|s| - 1 := WithList(s[|s| - 1], k, List(s[|s| - 1], k) + [Request(k, r.index, Pending)])]
    ensures Positioned(t) && Owned(t, hs[h := Recorded(r)], crashed) && Generations(t) && Evolves(s, t)
  {
    RequestAppended(s, k, t, r);
    RecordedIsOwned(s, hs, crashed, h, t, r);
  }

  /** `t` is `s` with another outcome at `r`. */
  ghost predicate Resettled(s: seq<Session>, r: Ref, o: Outcome, t: seq<Session>) {
    && |t| == |s| && Exists(s, r)
    && (forall q: Ref :: Exists(t, q) <==> Exists(s, q))
    && (forall q: Ref :: Exists(s, q) && Exists(t, q) ==> At(t, q) == if q == r then At(s, r).(outcome := o) else At(s, q))
    && (forall g :: 0 <= g < |s| ==> t[g].err == s[g].err && t[g].abandoned == s[g].abandoned)
  }

  function WithOutcome(s: seq<Session>, r: Ref, o: Outcome): seq<Session>
    requires Exists(s, r)
  {
    s[r.gen := WithList(s[r.gen], r.kind, List(s[r.gen], r.kind)[r.index := At(s, r).(outcome := o)])]
  }

  lemma OutcomeReplaced(s: seq<Session>, r: Ref, o: Outcome)
    requires Exists(s, r)
    ensures Resettled(s, r, o, WithOutcome(s, r, o))
  {
  }

  lemma SettledIsOwned(s: seq<Session>, hs: map<nat, Phase>, crashed: set<Ref>, h: nat, r: Ref, o: Outcome, t: seq<Session>)
    requires Owned(s, hs, crashed) && h in hs && RefOf(hs[h]) == Some(r) && o != Pending
    requires Resettled(s, r, o, t)
    ensures Owned(t, hs[h := Finished], crashed)
  {
    var hs' := hs[h := Finished];
    forall q: Ref | HasOwner(hs, q) && q != r ensures HasOwner(hs', q) {
      var g :| g in hs && RefOf(hs[g]) == Some(q);
      assert g in hs' && RefOf(hs'[g]) == Some(q);
    }
    forall g | g in hs' && RefOf(hs'[g]).Some?
      ensures Exists(t, RefOf(hs'[g]).value) && At(t, RefOf(hs'[g]).value).outcome == Pending
    {
      assert g != h;
      assert RefOf(hs[g]).value != r;
    }
    forall q: Ref | q in crashed ensures Exists(t, q) && At(t, q).outcome == Pending && !HasOwner(hs', q) {
      assert q != r;
    }
  }

  /** One request has been settled by its handler. */
  lemma SettledIsSound(s: seq<Session>, hs: map<nat, Phase>, crashed: set<Ref>, h: nat, r: Ref, o: Outcome, t: seq<Session>)
    requires Positioned(s) && Owned(s, hs, crashed) && Generations(s) && h in hs && RefOf(hs[h]) == Some(r) && o != Pending
    requires Exists(s, r) && t == WithOutcome(s, r, o)
    ensures Positioned(t) && Owned(t, hs[h := Finished], crashed) && Generations(t) && Evolves(s, t)
  {
    OutcomeReplaced(s, r, o);
    SettledIsOwned(s, hs, crashed, h, r, o, t);
    assert At(s, r).outcome == Pending;
  }

  /** A handler moves on without touching its request. */
  lemma MovedIsSound(s: seq<Session>, hs: map<nat, Phase>, crashed: set<Ref>, h: nat, p: Phase)
    requires Owned(s, hs, crashed) && (if h in hs then RefOf(p) == RefOf(hs[h]) else RefOf(p).None?)
    ensures Owned(s, hs[h := p], crashed)
  {
    var hs' := hs[h := p];
    forall q: Ref | HasOwner(hs, q) ensures HasOwner(hs', q) {
      var g :| g in hs && RefOf(hs[g]) == Some(q);
      assert g in hs' && RefOf(hs'[g]) == Some(q);
    }
  }

  /** A handler is gone before it has settled its request, which then belongs to nobody. */
  lemma CrashedIsSound(s: seq<Session>, hs: map<nat, Phase>, crashed: set<Ref>, h: nat, r: Ref)
    requires Owned(s, hs, crashed) && h in hs && RefOf(hs[h]) == Some(r)
    ensures Owned(s, hs - {h}, crashed + {r})
  {
    forall q: Ref | HasOwner(hs, q) && q != r ensures HasOwner(hs - {h}, q) {
      var g :| g in hs && RefOf(hs[g]) == Some(q);
      assert g in hs - {h};
    }
  }

  lemma FinishedIsSensible(s: seq<Session>, hs: map<nat, Phase>, h: nat, t: seq<Session>)
    requires Sensible(s, hs) && |t| == |s|
    ensures Sensible(t, hs[h := Finished])
  {
  }

  lemma LeftIsSound(s: seq<Session>, hs: map<nat, Phase>, crashed: set<Ref>, h: nat)
    requires Owned(s, hs, crashed) && h in hs && RefOf(hs[h]).None?
    ensures Owned(s, hs - {h}, crashed)
  {
    forall q: Ref | HasOwner(hs, q) ensures HasOwner(hs - {h}, q) {
      var g :| g in hs && RefOf(hs[g]) == Some(q);
      assert g in hs - {h};
    }
  }

  /** Requests are the same; only errors and abandonment differ, and perhaps an empty session has been added. */
  lemma SameRequestsAreSound(s: seq<Session>, hs: map<nat, Phase>, crashed: set<Ref>, t: seq<Session>)
    requires Positioned(s) && Owned(s, hs, crashed) && |s| <= |t|
    requires forall g :: 0 <= g < |s| ==> t[g].requests == s[g].requests && t[g].side == s[g].side
    requires forall g :: |s| <= g < |t| ==> t[g].requests == [] && t[g].side == []
    ensures Positioned(t) && Owned(t, hs, crashed)
  {
    forall q: Ref ensures Exists(t, q) <==> Exists(s, q) {
    }
    forall q: Ref | Exists(s, q) ensures At(t, q) == At(s, q) {
    }
  }

  // ---------------------------------------------------------------- the server

  /** One step of one of the concurrent parties. */
  datatype Action =
    | Enter(h: nat) | Probe(h: nat) | BeginReject(h: nat) | FinishReject(h: nat, err: string)
    | RecordConversation(h: nat) | RecordSide(h: nat)
    | Hold(h: nat) | Offer(h: nat) | Release(h: nat) | GiveUp(h: nat, contextDone: bool)
    | Fail(h: nat, err: string) | Answer(h: nat, outcome: Outcome)
    | SetOutcome(h: nat) | Leave(h: nat) | Panic(h: nat)
    | Reset | CallClose | FinishClose
    | AskFor(w: nat, count: int) | Wake(w: nat, cause: Cause)

  /** What ends the sleep of a waiter. */
  datatype Cause = Changed | Closing | ContextDone

  /** What `WaitRequests` comes to: requests, another sleep, or an error. */
  datatype Waited = Found(requests: seq<Request>) | Asleep | NegativeCount | ServerClosed | ContextError

  /** A `Close` that has returned: whether it found the server open, and which handlers were running then. */
  datatype Return = Return(foundOpen: bool, running: set<nat>)

  // ---------------------------------------------------------------- what each step does

  datatype State = State(
    closed: bool, closing: bool, closings: seq<Return>, sessions: seq<Session>, handlers: map<nat, Phase>,
    epoch: nat, waiters: map<nat, Waiter>, crashed: set<Ref>)

  const START := State(false, false, [], [NEW_SESSION], map[], 0, map[], {})

  predicate HasEntered(s: State, h: nat) {
    h in s.handlers && s.handlers[h].Entered?
  }

  /** The handler has recorded its request and has been released, if it was held. */
  predicate HasRecorded(s: State, h: nat) {
    h in s.handlers && s.handlers[h].Recorded?
  }

  predicate IsAbandoned(s: State, gen: nat) {
    gen < |s.sessions| && s.sessions[gen].abandoned
  }

  /** The session requests go to. */
  function Current(s: State): nat {
    if s.sessions == [] then 0 else |s.sessions| - 1
  }

  /** Where the next request is recorded. */
  function NextRef(s: State, kind: Kind): Ref {
    Ref(Current(s), kind, if s.sessions == [] then 0 else |List(s.sessions[Current(s)], kind)|)
  }

  /** The request is appended, pending, to the current session. */
  function Filing(sessions: seq<Session>, kind: Kind): seq<Session> {
    if sessions == [] then sessions
    else
      var (g, list) := (|sessions| - 1, List(sessions[|sessions| - 1], kind));
      sessions[g := WithList(sessions[g], kind, list + [Request(kind, |list|, Pending)])]
  }

  /** The first error of a session stays. */
  function Reporting(sessions: seq<Session>, gen: nat, err: string): seq<Session> {
    if gen < |sessions| && sessions[gen].err.None? then sessions[gen := sessions[gen].(err := Some(err))] else sessions
  }

  /** The current session is abandoned, and a new one begins. */
  function Resetting(sessions: seq<Session>): seq<Session> {
    if sessions == [] then sessions
    else
      var g := |sessions| - 1;
      sessions[g := sessions[g].(abandoned := true)] + [NEW_SESSION]
  }

  /** What a look at the requests comes to: the end of waiting, or sleep until something has changed. */
  function Looking(s: State, w: nat, count: nat): map<nat, Waiter> {
    if s.sessions == [] then s.waiters
    else if |s.sessions[|s.sessions| - 1].requests| >= count then s.waiters - {w}
    else s.waiters[w := Waiter(count, s.epoch)]
  }

  predicate CanWake(s: State, w: nat, cause: Cause) {
    w in s.waiters && (cause.Changed? ==> s.waiters[w].epoch < s.epoch) && (cause.Closing? ==> s.closed)
  }

  /** A hold ends without release only with a cause. */
  predicate CanGiveUp(s: State, r: Ref, contextDone: bool) {
    contextDone || s.closed || IsAbandoned(s, r.gen)
  }

  /** Where a step takes the handler that takes it. A step that is not enabled changes nothing. */
  function NextPhase(s: State, a: Action, p: Phase): Phase {
    match a
    case Probe(_) => if p.Entered? then Finished else p
    case BeginReject(_) => if p.Entered? then Rejecting(Current(s)) else p
    case FinishReject(_, _) => if p.Rejecting? then Finished else p
    case RecordConversation(_) => if p.Entered? then Recorded(NextRef(s, Conversation)) else p
    case RecordSide(_) => if p.Entered? then Recorded(NextRef(s, Side)) else p
    case Hold(_) => if p.Recorded? && p.ref.kind.Conversation? then Held(p.ref, false) else p
    case Offer(_) => if p.Held? then Held(p.ref, true) else p
    case Release(_) => if p.Held? && p.offered then Recorded(p.ref) else p
    case GiveUp(_, contextDone) => if p.Held? && CanGiveUp(s, p.ref, contextDone) then Settling(p.ref, Canceled) else p
    case Answer(_, outcome) => if p.Recorded? && outcome != Pending then Settling(p.ref, outcome) else p
    case Fail(_, _) => if p.Recorded? then Settling(p.ref, Rejected) else p
    case SetOutcome(_) => if p.Settling? then Finished else p
    case _ => p
  }

  function NextHandlers(s: State, a: Action): map<nat, Phase> {
    match a
    case Enter(h) => if h !in s.handlers && !s.closed then s.handlers[h := Entered] else s.handlers
    case Leave(h) => if h in s.handlers && s.handlers[h].Finished? then s.handlers - {h} else s.handlers
    case Panic(h) => if HasRecorded(s, h) && s.handlers[h].ref.kind.Conversation? then s.handlers - {h} else s.handlers
    case Reset | CallClose | FinishClose | AskFor(_, _) | Wake(_, _) => s.handlers
    case _ =>
      if a.h in s.handlers && NextPhase(s, a, s.handlers[a.h]) != s.handlers[a.h]
      then s.handlers[a.h := NextPhase(s, a, s.handlers[a.h])] else s.handlers
  }

  function NextSessions(s: State, a: Action): seq<Session> {
    match a
    case RecordConversation(h) => if HasEntered(s, h) then Filing(s.sessions, Conversation) else s.sessions
    case RecordSide(h) => if HasEntered(s, h) then Filing(s.sessions, Side) else s.sessions
    case FinishReject(h, err) =>
      if h in s.handlers && s.handlers[h].Rejecting? then Reporting(s.sessions, s.handlers[h].gen, err) else s.sessions
    case Fail(h, err) => if HasRecorded(s, h) then Reporting(s.sessions, s.handlers[h].ref.gen, err) else s.sessions
    case SetOutcome(h) =>
      if h in s.handlers && s.handlers[h].Settling? && Exists(s.sessions, s.handlers[h].ref)
      then WithOutcome(s.sessions, s.handlers[h].ref, s.handlers[h].outcome) else s.sessions
    case Reset => Resetting(s.sessions)
    case _ => s.sessions
  }

  /** New conversations and resets wake those who wait. */
  function NextEpoch(s: State, a: Action): nat {
    if a.Reset? || (a.RecordConversation? && HasEntered(s, a.h)) then s.epoch + 1 else s.epoch
  }

  function NextWaiters(s: State, a: Action): map<nat, Waiter> {
    match a
    case AskFor(w, count) => if w in s.waiters || count < 0 then s.waiters else Looking(s, w, count)
    case Wake(w, cause) =>
      if !CanWake(s, w, cause) then s.waiters
      else if cause.Changed? then Looking(s, w, s.waiters[w].count)
      else s.waiters - {w}
    case _ => s.waiters
  }

  function NextClosings(s: State, a: Action): seq<Return> {
    match a
    case CallClose => if s.closed then s.closings + [Return(false, s.handlers.Keys)] else s.closings
    case FinishClose => if s.closing && s.handlers == map[] then s.closings + [Return(true, {})] else s.closings
    case _ => s.closings
  }

  predicate NextClosing(s: State, a: Action) {
    if a.CallClose? then s.closing || !s.closed else s.closing && !(a.FinishClose? && s.handlers == map[])
  }

  function NextCrashed(s: State, a: Action): set<Ref> {
    if a.Panic? && HasRecorded(s, a.h) && s.handlers[a.h].ref.kind.Conversation? then s.crashed + {s.handlers[a.h].ref} else s.crashed
  }

  /** The state after a step. */
  function Step(s: State, a: Action): State {
    State(s.closed || a.CallClose?, NextClosing(s, a), NextClosings(s, a), NextSessions(s, a), NextHandlers(s, a),
          NextEpoch(s, a), NextWaiters(s, a), NextCrashed(s, a))
  }

  /** The steps of handlers that leave the sessions alone. */
  predicate OnlyMoves(a: Action) {
    a.Probe? || a.BeginReject? || a.Hold? || a.Offer? || a.Release? || a.GiveUp? || a.Answer?
  }

  lemma MovingIs(s: State, a: Action)
    requires OnlyMoves(a)
    ensures Step(s, a) == if a.h in s.handlers then s.(handlers := s.handlers[a.h := NextPhase(s, a, s.handlers[a.h])]) else s
  {
    assert a.h in s.handlers ==> s.handlers[a.h := s.handlers[a.h]] == s.handlers;
  }

  lemma FailureIs(s: State, h: nat, err: string)
    ensures HasRecorded(s, h) ==>
              var r := s.handlers[h].ref;
              Step(s, Fail(h, err)) == s.(sessions := Reporting(s.sessions, r.gen, err), handlers := s.handlers[h := Settling(r, Rejected)])
    ensures !HasRecorded(s, h) ==> Step(s, Fail(h, err)) == s
  {
  }

  lemma SettlingIs(s: State, h: nat)
    ensures h in s.handlers && s.handlers[h].Settling? && Exists(s.sessions, s.handlers[h].ref) ==>
              var (r, o) := (s.handlers[h].ref, s.handlers[h].outcome);
              Step(s, SetOutcome(h)) == s.(sessions := WithOutcome(s.sessions, r, o), handlers := s.handlers[h := Finished])
    ensures h !in s.handlers || !s.handlers[h].Settling? ==> Step(s, SetOutcome(h)) == s
  {
  }

  /** A step of a handler that is inside, or a reset. */
  predicate OfRequests(a: Action) {
    !(a.Enter? || a.Leave? || a.Panic? || a.CallClose? || a.FinishClose? || a.AskFor? || a.Wake?)
  }

  /** The state after a whole script. */
  function After(s: State, script: seq<Action>): State {
    if script == [] then s else Step(After(s, script[..|script| - 1]), script[|script| - 1])
  }

  /**
   * Who is running now was running when any `Close` returned, and nobody was when the
   * one that found the server open did.
   */
  ghost predicate Closes(closed: bool, closing: bool, closings: seq<Return>, running: set<nat>) {
    && (closing || closings != [] ==> closed)
    && forall i :: 0 <= i < |closings| ==> running <= closings[i].running && (closings[i].foundOpen ==> closings[i].running == {})
  }

  class Server {
    var closed: bool
    /** The `Close` that found the server open still waits for handlers. */
    var closing: bool
    var closings: seq<Return>
    var sessions: seq<Session>
    var handlers: map<nat, Phase>
    /** Counts how often the channel waiters sleep on has been closed and replaced. */
    var epoch: nat
    var waiters: map<nat, Waiter>
    /** The requests whose script panicked while it was asked for a reply. */
    ghost var crashed: set<Ref>

    constructor ()
      ensures Valid() && Abs() == START
    {
      closed, closing, closings := false, false, [];
      sessions, handlers, epoch, waiters := [NEW_SESSION], map[], 0, map[];
      crashed := {};
    }

    ghost function Abs(): State
      reads this
    {
      State(closed, closing, closings, sessions, handlers, epoch, waiters, crashed)
    }

    /**
     * Requests are in place and owned; nobody has come in since a `Close` returned; and
     * nobody sleeps while the requests waited for are there.
     */
    ghost predicate Valid()
      reads this
    {
      && InOrder(sessions, handlers, crashed) && Closes(closed, closing, closings, handlers.Keys)
      && Sleepers(sessions, epoch, waiters)
    }

    /** `enter` */
    method TryEnter(h: nat)
      requires Valid() && h !in handlers
      modifies this`handlers
      ensures Valid()
      ensures handlers == if closed then old(handlers) else old(handlers)[h := Entered]
    {
      if !closed {
        MovedIsSound(sessions, handlers, crashed, h, Entered);
        handlers := handlers[h := Entered];
      }
    }

    /** A step of handler `h` that leaves the sessions alone. */
    method Move(h: nat, p: Phase)
      requires Valid() && h in handlers && RefOf(p) == RefOf(handlers[h])
      requires (p.Settling? ==> p.outcome != Pending) && (p.Rejecting? ==> p.gen < |sessions|)
      modifies this`handlers
      ensures Valid() && handlers == old(handlers)[h := p] && Abs() == old(Abs()).(handlers := old(handlers)[h := p])
    {
      MovedIsSound(sessions, handlers, crashed, h, p);
      handlers := handlers[h := p];
    }

    /** `recordConversation` and `recordSide` */
    method Record(h: nat, kind: Kind)
      requires Valid() && h in handlers && handlers[h].Entered?
      modifies this`sessions, this`handlers, this`epoch
      ensures Valid() && Evolves(old(sessions), sessions) && handlers.Keys == old(handlers).Keys
      ensures var gen := |old(sessions)| - 1;
              var list := List(old(sessions)[gen], kind);
              && handlers == old(handlers)[h := Recorded(Ref(gen, kind, |list|))]
              && sessions == old(sessions)[gen := WithList(old(sessions)[gen], kind, list + [Request(kind, |list|, Pending)])]
      ensures epoch == if kind.Conversation? then old(epoch) + 1 else old(epoch)
    {
      var gen := |sessions| - 1;
      var list := List(sessions[gen], kind);
      ghost var before := sessions;
      var ref := Ref(gen, kind, |list|);
      sessions := sessions[gen := WithList(sessions[gen], kind, list + [Request(kind, |list|, Pending)])];
      RecordedIsSound(before, handlers, crashed, h, kind, sessions, ref);
      handlers := handlers[h := Recorded(ref)];
      if kind.Conversation? {
        epoch := epoch + 1;
      }
    }

    /** `setOutcome` */
    method Settle(h: nat)
      requires Valid() && h in handlers && handlers[h].Settling?
      modifies this`sessions, this`handlers
      ensures Valid() && Evolves(old(sessions), sessions) && handlers == old(handlers)[h := Finished]
      ensures var r := old(handlers[h]).ref;
              Exists(sessions, r) && At(sessions, r) == At(old(sessions), r).(outcome := old(handlers[h]).outcome)
      ensures Exists(old(sessions), old(handlers[h]).ref) && sessions == WithOutcome(old(sessions), old(handlers[h]).ref, old(handlers[h]).outcome)
    {
      var (r, o) := (handlers[h].ref, handlers[h].outcome);
      assert RefOf(handlers[h]) == Some(r) && Exists(sessions, r);
      ghost var before := sessions;
      sessions := WithOutcome(sessions, r, o);
      OutcomeReplaced(before, r, o);
      FinishedIsSensible(before, handlers, h, sessions);
      SettledIsSound(before, handlers, crashed, h, r, o, sessions);
      handlers := handlers[h := Finished];
    }

    /** `fail`: the first error of a session stays. */
    method Report(gen: nat, err: string)
      requires Valid() && gen < |sessions|
      modifies this`sessions
      ensures Valid() && Evolves(old(sessions), sessions) && |sessions| == |old(sessions)|
      ensures Abs() == old(Abs()).(sessions := Reporting(old(sessions), gen, err))
    {
      if sessions[gen].err.None? {
        ghost var before := sessions;
        sessions := sessions[gen := sessions[gen].(err := Some(err))];
        SameRequestsAreSound(before, handlers, crashed, sessions);
      }
    }

    /** `Reset`: the session is abandoned, its requests stay with their handlers, and a new one begins. */
    method StartSession()
      requires Valid()
      modifies this`sessions, this`epoch
      ensures Valid() && Evolves(old(sessions), sessions)
      ensures |sessions| == |old(sessions)| + 1 && sessions[|old(sessions)|] == NEW_SESSION
      ensures sessions == Resetting(old(sessions)) && epoch == old(epoch) + 1
    {
      ghost var before := sessions;
      var last := |sessions| - 1;
      sessions := sessions[last := sessions[last].(abandoned := true)] + [NEW_SESSION];
      SameRequestsAreSound(before, handlers, crashed, sessions);
      epoch := epoch + 1;
    }

    /** The deferred `handlers.Done` */
    method Depart(h: nat)
      requires Valid() && h in handlers && handlers[h].Finished?
      modifies this`handlers
      ensures Valid() && handlers == old(handlers) - {h}
    {
      LeftIsSound(sessions, handlers, crashed, h);
      handlers := handlers - {h};
    }

    /** The script panics: the deferred `handlers.Done` runs, but nothing settles the request. */
    method Crash(h: nat)
      requires Valid() && h in handlers && handlers[h].Recorded?
      modifies this`handlers, this`crashed
      ensures Valid() && handlers == old(handlers) - {h} && crashed == old(crashed) + {old(handlers)[h].ref}
    {
      assert RefOf(handlers[h]) == Some(handlers[h].ref);
      CrashedIsSound(sessions, handlers, crashed, h, handlers[h].ref);
      crashed := crashed + {handlers[h].ref};
      handlers := handlers - {h};
    }

    /** `await`, when it returns: true only for an offered hold, false only with a cause. */
    predicate MayGiveUp(h: nat, contextDone: bool)
      reads this
    {
      h in handlers && handlers[h].Held?
      && (contextDone || closed || (handlers[h].ref.gen < |sessions| && sessions[handlers[h].ref.gen].abandoned))
    }

    /** One pass of `WaitRequests`: the requests if there are enough, sleep otherwise. */
    method Look(w: nat, count: nat) returns (r: Waited)
      requires Valid()
      modifies this`waiters
      ensures Valid()
      ensures var requests := sessions[|sessions| - 1].requests;
              if |requests| >= count then r == Found(requests[..count]) && waiters == old(waiters) - {w}
              else r == Asleep && waiters == old(waiters)[w := Waiter(count, epoch)]
      ensures waiters == Looking(old(Abs()), w, count)
    {
      var requests := sessions[|sessions| - 1].requests;
      if |requests| >= count {
        waiters := waiters - {w};
        return Found(requests[..count]);
      }
      waiters := waiters[w := Waiter(count, epoch)];
      return Asleep;
    }

    /** `WaitRequests` up to its first sleep */
    method Ask(w: nat, count: int) returns (r: Waited)
      requires Valid() && w !in waiters
      modifies this`waiters
      ensures Valid() && (w in waiters <==> r.Asleep?)
      ensures r.NegativeCount? <==> count < 0
      ensures r.Found? <==> 0 <= count <= |sessions[|sessions| - 1].requests|
      ensures r.Found? ==> r.requests == sessions[|sessions| - 1].requests[..count]
      ensures waiters == if r.Asleep? then old(waiters)[w := Waiter(count, epoch)] else old(waiters)
      ensures r in {NegativeCount, Asleep} || r.Found?
      ensures Abs() == Step(old(Abs()), AskFor(w, count))
    {
      if count < 0 {
        return NegativeCount;
      }
      r := Look(w, count);
    }

    /** A sleeper can be woken by what has happened; its context may end at any time. */
    predicate MayWake(w: nat, cause: Cause)
      reads this
    {
      w in waiters && (cause.Changed? ==> waiters[w].epoch < epoch) && (cause.Closing? ==> closed)
    }

    /** The select of `WaitRequests` and what follows it */
    method Awake(w: nat, cause: Cause) returns (r: Waited)
      requires Valid() && MayWake(w, cause)
      modifies this`waiters
      ensures Valid() && (w in waiters <==> r.Asleep?)
      ensures forall v :: v != w ==> (v in waiters <==> v in old(waiters)) && (v in waiters ==> waiters[v] == old(waiters)[v])
      ensures r.ServerClosed? <==> cause.Closing?
      ensures r.ContextError? <==> cause.ContextDone?
      ensures r.Found? <==> cause.Changed? && |sessions[|sessions| - 1].requests| >= old(waiters)[w].count
      ensures r.Found? ==> r.requests == sessions[|sessions| - 1].requests[..old(waiters)[w].count]
      ensures r.Asleep? ==> waiters[w] == old(waiters)[w].(epoch := epoch)
      ensures Abs() == Step(old(Abs()), Wake(w, cause))
    {
      match cause {
        case Changed => r := Look(w, waiters[w].count);
        case Closing =>
          waiters := waiters - {w};
          r := ServerClosed;
        case ContextDone =>
          waiters := waiters - {w};
          r := ContextError;
      }
    }

    method BeginHold(h: nat)
      requires Valid()
      modifies this`handlers
      ensures Valid() && handlers.Keys == old(handlers).Keys && Abs() == Step(old(Abs()), Hold(h))
    {
      if h in handlers && handlers[h].Recorded? && handlers[h].ref.kind.Conversation? {
        Move(h, Held(handlers[h].ref, false));
      }
    }

    method OfferHold(h: nat)
      requires Valid()
      modifies this`handlers
      ensures Valid() && handlers.Keys == old(handlers).Keys && Abs() == Step(old(Abs()), Offer(h))
    {
      if h in handlers && handlers[h].Held? && !handlers[h].offered {
        Move(h, Held(handlers[h].ref, true));
      }
    }

    method ReleaseHold(h: nat)
      requires Valid()
      modifies this`handlers
      ensures Valid() && handlers.Keys == old(handlers).Keys && Abs() == Step(old(Abs()), Release(h))
    {
      MovingIs(Abs(), Release(h));
      if h in handlers && handlers[h].Held? && handlers[h].offered {
        Move(h, Recorded(handlers[h].ref));
      }
    }

    method GiveUpHold(h: nat, contextDone: bool)
      requires Valid()
      modifies this`handlers
      ensures Valid() && handlers.Keys == old(handlers).Keys && Abs() == Step(old(Abs()), GiveUp(h, contextDone))
    {
      if MayGiveUp(h, contextDone) {
        Move(h, Settling(handlers[h].ref, Canceled));
      }
    }

    /** A hold: begun, offered, and ended by release or with a cause. */
    method PerformHold(a: Action)
      requires Valid() && (a.Hold? || a.Offer? || a.Release? || a.GiveUp?)
      modifies this`handlers
      ensures Valid() && handlers.Keys == old(handlers).Keys
      ensures Abs() == Step(old(Abs()), a)
    {
      match a {
        case Hold(h) => BeginHold(h);
        case Offer(h) => OfferHold(h);
        case Release(h) => ReleaseHold(h);
        case GiveUp(h, contextDone) => GiveUpHold(h, contextDone);
      }
    }

    method ProbeBy(h: nat)
      requires Valid()
      modifies this`handlers
      ensures Valid() && handlers.Keys == old(handlers).Keys && Abs() == Step(old(Abs()), Probe(h))
    {
      if h in handlers && handlers[h].Entered? {
        Move(h, Finished);
      }
    }

    /** `reject` up to where it has read the current session */
    method BeginRejecting(h: nat)
      requires Valid()
      modifies this`handlers
      ensures Valid() && handlers.Keys == old(handlers).Keys && Abs() == Step(old(Abs()), BeginReject(h))
    {
      if h in handlers && handlers[h].Entered? {
        Move(h, Rejecting(|sessions| - 1));
      }
    }

    /** `writeReply`, which comes to an outcome */
    method AnswerWith(h: nat, outcome: Outcome)
      requires Valid()
      modifies this`handlers
      ensures Valid() && handlers.Keys == old(handlers).Keys && Abs() == Step(old(Abs()), Answer(h, outcome))
    {
      MovingIs(Abs(), Answer(h, outcome));
      if h in handlers && handlers[h].Recorded? && outcome != Pending {
        Move(h, Settling(handlers[h].ref, outcome));
      }
    }

    /** The steps of handlers that only move on. */
    method PerformMove(a: Action)
      requires Valid() && (a.Probe? || a.BeginReject? || a.Answer?)
      modifies this`handlers
      ensures Valid() && handlers.Keys == old(handlers).Keys
      ensures Abs() == Step(old(Abs()), a)
    {
      match a {
        case Probe(h) => ProbeBy(h);
        case BeginReject(h) => BeginRejecting(h);
        case Answer(h, outcome) => AnswerWith(h, outcome);
      }
    }

    /** `serveConversation` up to its request */
    method BeginConversation(h: nat)
      requires Valid()
      modifies this`sessions, this`handlers, this`epoch
      ensures Valid() && Evolves(old(sessions), sessions) && handlers.Keys == old(handlers).Keys
      ensures Abs() == Step(old(Abs()), RecordConversation(h))
    {
      if h in handlers && handlers[h].Entered? {
        Record(h, Conversation);
      }
    }

    /** `serveSide` up to its request */
    method BeginSide(h: nat)
      requires Valid()
      modifies this`sessions, this`handlers, this`epoch
      ensures Valid() && Evolves(old(sessions), sessions) && handlers.Keys == old(handlers).Keys
      ensures Abs() == Step(old(Abs()), RecordSide(h))
    {
      if h in handlers && handlers[h].Entered? {
        Record(h, Side);
      }
    }

    /** The steps that begin a request. */
    method PerformRecord(a: Action)
      requires Valid() && (a.RecordConversation? || a.RecordSide?)
      modifies this`sessions, this`handlers, this`epoch
      ensures Valid() && Evolves(old(sessions), sessions) && handlers.Keys == old(handlers).Keys
      ensures Abs() == Step(old(Abs()), a)
    {
      match a {
        case RecordConversation(h) => BeginConversation(h);
        case RecordSide(h) => BeginSide(h);
      }
    }

    /** The end of `reject` */
    method RejectWith(h: nat, err: string)
      requires Valid()
      modifies this`sessions, this`handlers
      ensures Valid() && Evolves(old(sessions), sessions) && handlers.Keys == old(handlers).Keys
      ensures Abs() == Step(old(Abs()), FinishReject(h, err))
    {
      if h in handlers && handlers[h].Rejecting? {
        Report(handlers[h].gen, err);
        Move(h, Finished);
      }
    }

    /** `failRequest` up to the outcome */
    method FailWith(h: nat, err: string)
      requires Valid()
      modifies this`sessions, this`handlers
      ensures Valid() && Evolves(old(sessions), sessions) && handlers.Keys == old(handlers).Keys
      ensures Abs() == Step(old(Abs()), Fail(h, err))
    {
      if h in handlers && handlers[h].Recorded? {
        assert RefOf(handlers[h]).Some?;
        FailureIs(Abs(), h, err);
        Report(handlers[h].ref.gen, err);
        Move(h, Settling(handlers[h].ref, Rejected));
      } else {
        FailureIs(Abs(), h, err);
      }
    }

    /** The steps that report an error to a session. */
    method PerformReport(a: Action)
      requires Valid() && (a.FinishReject? || a.Fail?)
      modifies this`sessions, this`handlers
      ensures Valid() && Evolves(old(sessions), sessions) && handlers.Keys == old(handlers).Keys
      ensures Abs() == Step(old(Abs()), a)
    {
      match a {
        case FinishReject(h, err) => RejectWith(h, err);
        case Fail(h, err) => FailWith(h, err);
      }
    }

    method SettleWith(h: nat)
      requires Valid()
      modifies this`sessions, this`handlers
      ensures Valid() && Evolves(old(sessions), sessions) && handlers.Keys == old(handlers).Keys
      ensures Abs() == Step(old(Abs()), SetOutcome(h))
    {
      SettlingIs(Abs(), h);
      if h in handlers && handlers[h].Settling? {
        Settle(h);
      }
    }

    /** The other steps that write to a session. */
    method PerformWrite(a: Action)
      requires Valid() && (a.SetOutcome? || a.Reset?)
      modifies this`sessions, this`handlers, this`epoch
      ensures Valid() && Evolves(old(sessions), sessions) && handlers.Keys == old(handlers).Keys
      ensures Abs() == Step(old(Abs()), a)
    {
      match a {
        case SetOutcome(h) => SettleWith(h);
        case Reset => StartSession();
      }
    }

    method EnterAs(h: nat)
      requires Valid()
      modifies this`handlers
      ensures Valid() && (closed ==> handlers == old(handlers)) && Abs() == Step(old(Abs()), Enter(h))
    {
      if h !in handlers {
        TryEnter(h);
      }
    }

    method LeaveBy(h: nat)
      requires Valid()
      modifies this`handlers
      ensures Valid() && handlers.Keys <= old(handlers).Keys && Abs() == Step(old(Abs()), Leave(h))
    {
      if h in handlers && handlers[h].Finished? {
        Depart(h);
      }
    }

    method PanicBy(h: nat)
      requires Valid()
      modifies this`handlers, this`crashed
      ensures Valid() && handlers.Keys <= old(handlers).Keys && old(crashed) <= crashed && Abs() == Step(old(Abs()), Panic(h))
    {
      if h in handlers && handlers[h].Recorded? && handlers[h].ref.kind.Conversation? {
        Crash(h);
      }
    }

    /** Handlers coming and going. */
    method PerformPresence(a: Action)
      requires Valid() && (a.Enter? || a.Leave? || a.Panic?)
      modifies this`handlers, this`crashed
      ensures Valid() && (closed ==> handlers.Keys <= old(handlers).Keys)
      ensures old(crashed) <= crashed && (!a.Panic? ==> crashed == old(crashed))
      ensures Abs() == Step(old(Abs()), a)
    {
      match a {
        case Enter(h) => EnterAs(h);
        case Leave(h) => LeaveBy(h);
        case Panic(h) => PanicBy(h);
      }
    }

    /** Those who wait for requests. */
    method PerformWait(a: Action)
      requires Valid() && (a.AskFor? || a.Wake?)
      modifies this`waiters
      ensures Valid()
      ensures Abs() == Step(old(Abs()), a)
    {
      match a {
        case AskFor(w, count) =>
          if w !in waiters {
            var _ := Ask(w, count);
          }
        case Wake(w, cause) =>
          if MayWake(w, cause) {
            var _ := Awake(w, cause);
          }
      }
    }

    /** `Close` up to where it waits for handlers; one that finds the server closed returns at once. */
    method CallClose()
      requires Valid()
      modifies this`closed, this`closing, this`closings
      ensures Valid() && closed
      ensures if old(closed) then closings == old(closings) + [Return(false, handlers.Keys)] && closing == old(closing)
              else closings == old(closings) && closing
    {
      if closed {
        closings := closings + [Return(false, handlers.Keys)];
        return;
      }
      closed, closing := true, true;
    }

    /** The rest of `Close`, once all handlers are done. */
    method FinishClose()
      requires Valid() && closing && handlers == map[]
      modifies this`closing, this`closings
      ensures Valid() && !closing && closings == old(closings) + [Return(true, {})]
    {
      closing, closings := false, closings + [Return(true, {})];
    }

    method PerformClose(a: Action)
      requires Valid() && (a.CallClose? || a.FinishClose?)
      modifies this`closed, this`closing, this`closings
      ensures Valid() && old(closings) <= closings && (closed <==> old(closed) || a.CallClose?)
      ensures a.CallClose? && old(closed) ==> closings == old(closings) + [Return(false, handlers.Keys)]
      ensures a.FinishClose? && old(closing) && handlers == map[] ==> closings == old(closings) + [Return(true, {})]
      ensures Abs() == Step(old(Abs()), a)
    {
      match a {
        case CallClose => CallClose();
        case FinishClose =>
          if closing && handlers == map[] { FinishClose(); }
      }
    }

    /** What running handlers and resets do to requests. */
    method PerformRequest(a: Action)
      requires Valid() && OfRequests(a)
      modifies this`sessions, this`handlers, this`epoch
      ensures Valid() && Evolves(old(sessions), sessions) && handlers.Keys == old(handlers).Keys
      ensures Abs() == Step(old(Abs()), a)
    {
      match a {
        case Hold(_) | Offer(_) | Release(_) | GiveUp(_, _) => PerformHold(a);
        case Probe(_) | BeginReject(_) | Answer(_, _) => PerformMove(a);
        case RecordConversation(_) | RecordSide(_) => PerformRecord(a);
        case FinishReject(_, _) | Fail(_, _) => PerformReport(a);
        case SetOutcome(_) | Reset => PerformWrite(a);
      }
    }

    /** Who comes, goes, waits and closes. */
    method PerformPresenceOrClose(a: Action)
      requires Valid() && !OfRequests(a)
      modifies this`handlers, this`crashed, this`waiters, this`closed, this`closing, this`closings
      ensures Valid() && (old(closed) ==> closed && handlers.Keys <= old(handlers).Keys)
      ensures old(closings) <= closings && (a.CallClose? ==> closed)
      ensures old(crashed) <= crashed && (!a.Panic? ==> crashed == old(crashed))
      ensures Abs() == Step(old(Abs()), a)
    {
      match a {
        case Enter(_) | Leave(_) | Panic(_) => PerformPresence(a);
        case CallClose | FinishClose => PerformClose(a);
        case AskFor(_, _) | Wake(_, _) => PerformWait(a);
      }
    }

    /** One step, if it is enabled; otherwise nothing happens. */
    method Perform(a: Action)
      requires Valid()
      modifies this
      ensures Valid() && Evolves(old(sessions), sessions)
      ensures old(closed) ==> closed && forall h :: h in handlers ==> h in old(handlers)
      ensures old(closings) <= closings && (a.CallClose? ==> closed)
      ensures old(crashed) <= crashed && (!a.Panic? ==> crashed == old(crashed))
      ensures Abs() == Step(old(Abs()), a)
    {
      if OfRequests(a) {
        PerformRequest(a);
      } else {
        PerformPresenceOrClose(a);
      }
    }

    /**
     * Any interleaving of any steps. Requests keep their places and their outcome is set
     * once; those of a handler still running are the pending ones. Nobody comes in after a
     * `Close` has returned, whichever it was; and after the one that found the server open,
     * or any other at whose return the handlers had gone, nobody is there.
     */
    method Run(script: seq<Action>)
      requires Valid()
      modifies this
      ensures Valid() && Evolves(old(sessions), sessions)
      ensures old(closed) ==> forall h :: h in handlers ==> h in old(handlers)
      ensures old(closings) <= closings
      ensures forall i :: 0 <= i < |closings| ==> handlers.Keys <= closings[i].running
      ensures forall i :: 0 <= i < |closings| && (closings[i].foundOpen || closings[i].running == {}) ==> handlers == map[]
      ensures old(crashed) <= crashed && ((forall i :: 0 <= i < |script| ==> !script[i].Panic?) ==> crashed == old(crashed))
      ensures Abs() == After(old(Abs()), script)
    {
      for i := 0 to |script|
        invariant Valid() && Evolves(old(sessions), sessions)
        invariant old(closed) ==> closed && forall h :: h in handlers ==> h in old(handlers)
        invariant old(closings) <= closings
        invariant Abs() == After(old(Abs()), script[..i])
        invariant old(crashed) <= crashed && ((forall j :: 0 <= j < i ==> !script[j].Panic?) ==> crashed == old(crashed))
      {
        ghost var before := sessions;
        Perform(script[i]);
        EvolvesTransitive(old(sessions), before, sessions);
        assert script[..i + 1][..i] == script[..i];
      }
      assert script[..|script|] == script;
    }
  }

  /** A handler comes in, `Close` is called and waits, and another call returns at once: the handler is still running. */
  method SecondCloseReturnsEarly() returns (server: Server)
    ensures fresh(server) && server.Valid()
    ensures server.closings == [Return(false, {0})] && server.handlers.Keys == {0} && server.closing
  {
    server := new Server();
    server.TryEnter(0);
    assert server.handlers.Keys == {0};
    server.CallClose();
    server.CallClose();
  }

  // ---------------------------------------------------------------- what follows

  /** With no handler left, a request is unsettled if and only if its script panicked; and every request is in its place. */
  lemma NobodyLeftNothingPending(sessions: seq<Session>, crashed: set<Ref>, r: Ref)
    requires Positioned(sessions) && Owned(sessions, map[], crashed) && Exists(sessions, r)
    ensures At(sessions, r).outcome == Pending <==> r in crashed
    ensures At(sessions, r).index == r.index && At(sessions, r).kind == r.kind
  {
    assert !HasOwner(map[], r);
  }

  /** Over a whole run, seen at any three moments, an outcome that has been set is never set again. */
  lemma SettledForGood(a: seq<Session>, b: seq<Session>, c: seq<Session>, r: Ref)
    requires Evolves(a, b) && Evolves(b, c) && Exists(a, r) && At(b, r).outcome != Pending
    ensures Exists(c, r) && At(c, r) == At(b, r)
    ensures At(a, r).outcome == Pending || At(a, r) == At(c, r)
  {
    assert Exists(b, r);
  }
}
