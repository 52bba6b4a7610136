/**
 * The loop behind `Wait`: queued snapshots, one stability timer, and a stream that
 * may fail and be replaced once. The environment is any finite script of turns.
 */
module WaitRun {
  import opened Options
  import opened WaitCondition

  /** `fallback`: the error is one of those that mean the broker is not there (`IsUnavailable`, `StreamClosed`). */
  datatype Delivery = Snapshot(sessions: seq<Session>) | Failure(reason: string, fallback: bool)

  datatype Arrivals = Arrivals(deliveries: seq<Delivery>, closes: bool)

  datatype Ready = Cancellation | Timer | Event

  /**
   * What happens around one pass of the loop: whether the context is done, what arrives
   * before the first look at the stream, how long the pass then waits, what arrives
   * meanwhile, and which of several ready channels is picked.
   */
  datatype Turn = Turn(canceled: bool, early: Arrivals, wait: nat, late: Arrivals, canceledLate: bool, pick: Ready)

  datatype Next =
    | GotEvent(delivery: Option<Delivery>) // `None` on a closed stream
    | Stable | TimerFired | CanceledNow | Idle

  /**
   * One snapshot as the run judged it: the session it shows, all that it lists, whether
   * it met the condition or why that cannot be told, on which stream it came, and when.
   */
  datatype Seen = Seen(session: Session, listed: seq<Session>, verdict: Result<bool, Problem>, stream: nat, at: int)
  {
    predicate Matched() {
      verdict == Ok(true)
    }
  }

  datatype Outcome = Waiting | Accepted(session: Session, initial: bool) | Failed(problem: Problem)

  const NOTHING := Seen(Session("", Unset, None, 0, ""), [], Ok(false), 0, 0)

  // ---------------------------------------------------------------- what a stable wait means

  /** From `k` on every snapshot met the condition, for the same process and on the same stream as the last one. */
  ghost predicate Steady(h: seq<Seen>, k: int) {
    0 <= k <= |h| && forall i :: k <= i < |h| ==>
      h[i].Matched() && h[i].stream == h[|h| - 1].stream && h[i].session.process == h[|h| - 1].session.process
  }

  /** Where the present unbroken run of matching snapshots began; the length of `h` if there is none. */
  function Since(h: seq<Seen>): (k: nat)
    ensures k <= |h|
  {
    if h == [] then 0 else Extended(h[..|h| - 1], Since(h[..|h| - 1]), h[|h| - 1])
  }

  /** The beginning of the run once `last` follows `before`, in which it began at `k`. */
  function Extended(before: seq<Seen>, k: nat, last: Seen): (k': nat)
    requires k <= |before|
    ensures k' <= |before| + 1
  {
    if !last.Matched() then |before| + 1
    else if k < |before|
            && before[|before| - 1].stream == last.stream
            && before[|before| - 1].session.process == last.session.process then k
    else |before|
  }

  lemma SinceExtended(before: seq<Seen>, last: Seen)
    ensures Since(before + [last]) == Extended(before, Since(before), last)
  {
    assert (before + [last])[..|before|] == before;
  }

  /** Such a run goes on with one more snapshot if that matches, for the same process and on the same stream. */
  lemma SteadyExtended(before: seq<Seen>, last: Seen, k: nat)
    requires k < |before|
    ensures Steady(before + [last], k) <==>
            && Steady(before, k) && last.Matched() && before[|before| - 1].stream == last.stream
            && before[|before| - 1].session.process == last.session.process
  {
    var (h, n) := (before + [last], |before|);
    assert h[n] == last && h[n - 1] == before[n - 1];
    assert forall i :: 0 <= i < n ==> h[i] == before[i];
    if Steady(h, k) {
      assert h[n - 1].stream == h[n].stream;
    }
  }

  /** The run the loop keeps up step by step is the longest one there is. */
  lemma {:induction false} SinceIsEarliest(h: seq<Seen>, k: nat)
    requires k <= |h|
    ensures Steady(h, k) <==> Since(h) <= k
  {
    if h != [] {
      var (before, last) := (h[..|h| - 1], h[|h| - 1]);
      assert h == before + [last];
      if k < |before| {
        SinceIsEarliest(before, k);
        SteadyExtended(before, last, k);
      }
    }
  }

  /** The longest run of matching snapshots the history ends with begins at `k`. */
  ghost predicate LongestFrom(h: seq<Seen>, k: int) {
    Steady(h, k) && k < |h| && (k > 0 ==> !Steady(h, k - 1))
  }

  lemma SinceIsLongest(h: seq<Seen>, stream: nat)
    requires Holding(h, stream)
    ensures LongestFrom(h, Since(h))
  {
    SinceIsEarliest(h, Since(h));
    if Since(h) > 0 {
      SinceIsEarliest(h, Since(h) - 1);
    }
  }

  function Judged(o: WaitOptions, s: Session, listed: seq<Session>, stream: nat, at: int): Seen {
    Seen(s, listed, Evaluate(s, o), stream, at)
  }

  function LastOf(h: seq<Seen>): Option<Session> {
    if h == [] then None else Some(h[|h| - 1].session)
  }

  /** Without a stability time there has been no match yet. */
  ghost predicate NoMatch(o: WaitOptions, h: seq<Seen>) {
    o.stableFor == 0 ==> forall i :: 0 <= i < |h| ==> !h[i].Matched()
  }

  lemma OnlyTheLast(h: seq<Seen>, last: Seen)
    requires last.Matched() && forall i :: 0 <= i < |h| ==> !h[i].Matched()
    ensures forall i :: 0 <= i < |h + [last]| ==> ((h + [last])[i].Matched() <==> i == |h|)
  {
  }

  /** Entry `i` is about the session its snapshot lists, or about the last one as gone; and it is judged rightly. */
  ghost predicate EntryRight(o: WaitOptions, h: seq<Seen>, i: nat)
    requires i < |h|
  {
    h[i] == Judged(o, h[i].session, h[i].listed, h[i].stream, h[i].at) && Shows(o.id, h, i)
  }

  ghost predicate AllRight(o: WaitOptions, h: seq<Seen>) {
    forall i: nat :: i < |h| ==> EntryRight(o, h, i)
  }

  lemma RightOneMore(o: WaitOptions, h: seq<Seen>, last: Seen)
    requires AllRight(o, h) && last == Judged(o, last.session, last.listed, last.stream, last.at)
    requires Some(last.session) == Current(o.id, LastOf(h), last.listed, last.at)
    ensures AllRight(o, h + [last])
  {
    var all := h + [last];
    forall i: nat | i < |all| ensures EntryRight(o, all, i) {
      if i < |h| {
        assert EntryRight(o, h, i);
        assert all[i] == h[i] && (i > 0 ==> all[i - 1] == h[i - 1]);
      }
    }
  }

  /** For validated options a snapshot matched if and only if it shows what was asked for. */
  lemma JudgedMeansSatisfies(o: WaitOptions, h: seq<Seen>)
    requires Validate(o) == None && AllRight(o, h)
    ensures forall i :: 0 <= i < |h| ==> (h[i].Matched() <==> Satisfies(h[i].session, o))
    ensures forall i: nat :: i < |h| ==> Shows(o.id, h, i)
  {
    forall i: nat | i < |h| ensures (h[i].Matched() <==> Satisfies(h[i].session, o)) && Shows(o.id, h, i) {
      assert EntryRight(o, h, i);
      EvaluateMeansSatisfies(h[i].session, o);
    }
  }

  predicate Shows(id: string, h: seq<Seen>, i: nat)
    requires i < |h|
  {
    match Lookup(id, h[i].listed)
    case Some(s) => h[i].session == s
    case None => i > 0 && h[i].session == Removed(h[i - 1].session, h[i].at)
  }

  /** The candidate, when its timer is due, whether the timer can still fire, and whether it has. */
  datatype Watch = Watch(candidate: Option<Session>, deadline: Option<int>, armed: bool, ready: bool)

  const IDLE := Watch(None, None, false, false)

  /** The last snapshot continues an unbroken run on the present stream. */
  ghost predicate Holding(h: seq<Seen>, stream: nat) {
    HoldingFrom(h, Since(h), stream)
  }

  predicate HoldingFrom(h: seq<Seen>, k: nat, stream: nat) {
    k < |h| && h[|h| - 1].stream == stream
  }

  /** The timer runs from the first snapshot of the unbroken run, entry `k`, and it does not fire early. */
  ghost predicate Timed(stableFor: int, h: seq<Seen>, k: nat, stream: nat, w: Watch, now: int) {
    if stableFor > 0 && HoldingFrom(h, k, stream) then
      && w.candidate == Some(h[|h| - 1].session) && w.deadline == Some(h[k].at + stableFor)
      && w.armed == !w.ready && (w.ready ==> w.deadline.value <= now)
    else w == IDLE
  }

  lemma TimePasses(stableFor: int, h: seq<Seen>, k: nat, stream: nat, w: Watch, now: int, w': Watch, now': int)
    requires Timed(stableFor, h, k, stream, w, now) && now <= now'
    requires w' == w || (w.armed && w.deadline.value <= now' && w' == w.(armed := false, ready := true))
    ensures Timed(stableFor, h, k, stream, w', now')
  {
  }

  // ---------------------------------------------------------------- what becomes of deliveries

  /** The deliveries that the entries from `base` on stand for. */
  function Taken(h: seq<Seen>, base: nat): (r: seq<Delivery>)
    requires base <= |h|
    ensures |r| == |h| - base
  {
    seq(|h| - base, j requires 0 <= j < |h| - base => Snapshot(h[base + j].listed))
  }

  lemma TakenOneMore(h: seq<Seen>, base: nat, last: Seen)
    requires base <= |h|
    ensures Taken(h + [last], base) == Taken(h, base) + [Snapshot(last.listed)]
  {
    assert (h + [last])[..|h|] == h;
  }

  lemma TakenNow(h: seq<Seen>, base: nat, last: Seen, queue: seq<Delivery>)
    requires base <= |h|
    ensures Taken(h, base) + ([Snapshot(last.listed)] + queue) == Taken(h + [last], base) + ([] + queue)
  {
    TakenOneMore(h, base, last);
  }

  /** How things stood at the beginning of a turn: the time, whether nothing was left to look at, how much had been seen. */
  datatype Start = Start(at: int, drained: bool, seen: nat, stream: nat)

  /** In every turn that began with something to look at, a snapshot was judged or the stream replaced. */
  ghost predicate Busy(starts: seq<Start>) {
    forall i :: 0 <= i < |starts| - 1 && !starts[i].drained ==>
      starts[i].seen < starts[i + 1].seen || starts[i].stream < starts[i + 1].stream
  }

  lemma StillBusy(starts: seq<Start>, next: Start)
    requires starts != [] && Busy(starts)
    requires var last := starts[|starts| - 1]; !last.drained ==> last.seen < next.seen || last.stream < next.stream
    ensures Busy(starts + [next])
  {
    var more := starts + [next];
    forall i | 0 <= i < |more| - 1 && !more[i].drained
      ensures more[i].seen < more[i + 1].seen || more[i].stream < more[i + 1].stream
    {
      assert more[i] == starts[i];
      if i + 1 < |starts| {
        assert more[i + 1] == starts[i + 1];
      }
    }
  }

  /** Turn `i` was quiet, and when it ended the run of matches had lasted long enough. */
  ghost predicate Elapsed(o: WaitOptions, script: seq<Turn>, starts: seq<Start>, h: seq<Seen>, i: nat)
    requires i < |script| && i + 1 < |starts|
  {
    && Quiet(script[i]) && starts[i].drained && starts[i].seen <= |h|
    && Holding(h[..starts[i].seen], starts[i].stream)
    && starts[i + 1].at - h[Since(h[..starts[i].seen])].at >= o.stableFor
  }

  /** No quiet turn has followed such a one. */
  ghost predicate NeverIgnored(o: WaitOptions, script: seq<Turn>, starts: seq<Start>, h: seq<Seen>)
    requires |starts| <= |script| + 1
  {
    forall i :: 0 <= i && i + 2 < |starts| && Elapsed(o, script, starts, h, i) ==> !Quiet(script[i + 1])
  }

  /** What happens later makes no difference. */
  lemma ElapsedStays(o: WaitOptions, script: seq<Turn>, starts: seq<Start>, h: seq<Seen>, more: seq<Start>, h': seq<Seen>, i: nat)
    requires i < |script| && i + 1 < |starts| && starts <= more && h <= h' && starts[i].seen <= |h|
    ensures Elapsed(o, script, more, h', i) <==> Elapsed(o, script, starts, h, i)
  {
    var n := starts[i].seen;
    assert more[i] == starts[i] && more[i + 1] == starts[i + 1] && h'[..n] == h[..n];
  }

  /** How things stand between two turns. */
  datatype Stand = Stand(now: int, drained: bool, ready: bool, stream: nat)

  /** The turns so far have left nothing undone. */
  ghost predicate SoundBy(o: WaitOptions, script: seq<Turn>, starts: seq<Start>, h: seq<Seen>, at: Stand) {
    var n := |starts| - 1;
    && 0 <= n <= |script| && starts[n] == Start(at.now, at.drained, |h|, at.stream)
    && (forall i :: 0 <= i <= n ==> starts[i].seen <= |h|)
    && NeverIgnored(o, script, starts, h)
    && (n > 0 && Elapsed(o, script, starts, h, n - 1) ==> at.drained && at.ready && Holding(h, at.stream))
  }

  lemma StillNeverIgnored(o: WaitOptions, script: seq<Turn>, starts: seq<Start>, h: seq<Seen>, next: Start, h': seq<Seen>)
    requires 0 < |starts| <= |script| && h <= h' && NeverIgnored(o, script, starts, h)
    requires forall i :: 0 <= i < |starts| ==> starts[i].seen <= |h|
    requires |starts| > 1 && Elapsed(o, script, starts, h, |starts| - 2) ==> !Quiet(script[|starts| - 1])
    ensures NeverIgnored(o, script, starts + [next], h')
  {
    var more := starts + [next];
    forall i | 0 <= i && i + 2 < |more| && Elapsed(o, script, more, h', i) ensures !Quiet(script[i + 1]) {
      ElapsedStays(o, script, starts, h, more, h', i);
    }
  }

  /** What `Elapsed` says of the turn that has just ended. */
  lemma JustElapsed(o: WaitOptions, script: seq<Turn>, starts: seq<Start>, h: seq<Seen>, at: Stand, h': seq<Seen>, next: Start)
    requires 0 < |starts| <= |script| && h <= h' && starts[|starts| - 1] == Start(at.now, at.drained, |h|, at.stream)
    ensures Elapsed(o, script, starts + [next], h', |starts| - 1) <==>
            Quiet(script[|starts| - 1]) && at.drained && Holding(h, at.stream) && next.at - h[Since(h)].at >= o.stableFor
  {
    var (more, n) := (starts + [next], |starts| - 1);
    assert more[n] == starts[n] && more[n + 1] == next && h'[..|h|] == h;
  }

  lemma OneMoreTurn(o: WaitOptions, script: seq<Turn>, starts: seq<Start>, h: seq<Seen>, at: Stand, h': seq<Seen>, at': Stand)
    requires SoundBy(o, script, starts, h, at) && |starts| <= |script| && h <= h'
    requires Quiet(script[|starts| - 1]) && at.drained && Holding(h, at.stream) ==>
               && !at.ready && h' == h && at'.stream == at.stream && at'.drained
               && (at'.ready <==> at'.now - h[Since(h)].at >= o.stableFor)
    ensures SoundBy(o, script, starts + [Start(at'.now, at'.drained, |h'|, at'.stream)], h', at')
  {
    var next := Start(at'.now, at'.drained, |h'|, at'.stream);
    StillNeverIgnored(o, script, starts, h, next, h');
    JustElapsed(o, script, starts, h, at, h', next);
    var more := starts + [next];
    assert forall i :: 0 <= i < |starts| ==> more[i] == starts[i];
  }

  /** Nothing arrives during the turn, and nothing is cancelled. */
  predicate Quiet(turn: Turn) {
    && !turn.canceled && !turn.canceledLate
    && turn.early == Arrivals([], false) && turn.late == Arrivals([], false)
  }

  // ---------------------------------------------------------------- the run

  class Run {
    const opts: WaitOptions
    /** The client chose its stream itself and may fall back to the store. */
    const auto: bool
    var durable: bool
    var queue: seq<Delivery>
    var closed: bool
    /** When the stability timer is due, while there is one. */
    var deadline: Option<int>
    /** The timer's channel has not been received from. */
    var armed: bool
    var stableReady: bool
    var candidate: Option<Session>
    var lastSeen: Option<Session>
    var seenInitial: bool
    var now: int
    ghost var history: seq<Seen>
    /** Where the unbroken run of matches at the end of the history begins. */
    ghost var since: nat
    /** How often the stream has been replaced. */
    ghost var stream: nat
    /** What the present stream has handed over, and where the history stood when it began. */
    ghost var came: seq<Delivery>
    ghost var base: nat

    constructor (opts: WaitOptions, auto: bool, durable: bool, now: int)
      ensures this.opts == opts && this.auto == auto && this.durable == durable
      ensures Valid() && Balanced(None) && history == [] && stream == 0
    {
      this.opts, this.auto, this.durable, this.now := opts, auto, durable, now;
      queue, closed, deadline, armed, stableReady := [], false, None, false, false;
      candidate, lastSeen, seenInitial := None, None, false;
      history, since, stream := [], 0, 0;
      came, base := [], 0;
    }

    /** Every delivery has been judged, in order, or is in hand, or is still queued. */
    ghost predicate Balanced(d: Option<Delivery>)
      reads this`came, this`base, this`queue, this`history
    {
      base <= |history| && came == Taken(history, base) + ((if d.Some? then [d.value] else []) + queue)
    }

    /** Every entry is about the right session and judged rightly, and the run of matches is the one at their end. */
    ghost predicate Kept()
      reads this`history, this`since
    {
      AllRight(opts, history) && since == Since(history)
    }

    /** What the run remembers is what it has seen; without a stability time it has met no match yet. */
    ghost predicate Remembers()
      reads this`history, this`since, this`lastSeen, this`seenInitial, this`stream
    {
      && (lastSeen == if history == [] then None else Some(history[|history| - 1].session))
      && (seenInitial <==> history != [])
      && (history != [] ==> history[|history| - 1].stream <= stream)
      && NoMatch(opts, history) && since <= |history|
    }

    /** Candidate and timer are exactly what the snapshots seen so far call for. */
    ghost predicate Valid()
      reads this`history, this`since, this`lastSeen, this`seenInitial, this`stream
      reads this`candidate, this`deadline, this`armed, this`stableReady, this`now
    {
      Remembers() && Timed(opts.stableFor, history, since, stream, Watch(candidate, deadline, armed, stableReady), now)
    }

    /** Nothing the environment could still hand over is waiting. */
    predicate Drained()
      reads this
    {
      queue == [] && !closed
    }

    method Receive(a: Arrivals)
      modifies this`queue, this`closed, this`came
      ensures queue == old(queue) + (if old(closed) then [] else a.deliveries) && closed == (old(closed) || a.closes)
      ensures old(Balanced(None)) ==> Balanced(None)
    {
      if !closed {
        queue, closed := queue + a.deliveries, a.closes;
        came := came + a.deliveries;
      }
    }

    /** Receives from the stream; a closed stream hands over what is queued first. */
    method Pop() returns (d: Option<Delivery>)
      requires !Drained()
      modifies this`queue
      ensures old(Balanced(None)) ==> Balanced(d)
      ensures d.None? ==> queue == [] && closed
      ensures if old(queue) == [] then d == None && queue == [] else d == Some(old(queue)[0]) && queue == old(queue)[1..]
    {
      if queue == [] {
        return None;
      }
      d, queue := Some(queue[0]), queue[1..];
    }

    /** `nextEvent`: what is already queued comes before an elapsed timer. */
    method NextEvent(turn: Turn) returns (next: Next)
      requires Timed(opts.stableFor, history, since, stream, Watch(candidate, deadline, armed, stableReady), now) && Balanced(None)
      modifies this`queue, this`closed, this`came, this`now, this`stableReady, this`armed
      ensures Timed(opts.stableFor, history, since, stream, Watch(candidate, deadline, armed, stableReady), now)
      ensures old(now) <= now && Balanced(if next.GotEvent? then next.delivery else None)
      ensures turn.canceled ==> next.CanceledNow?
      ensures next.CanceledNow? ==> turn.canceled || turn.canceledLate
      ensures next.Stable? <==>
                !turn.canceled && old(stableReady)
                && old(queue) == [] && !old(closed) && turn.early.deliveries == [] && !turn.early.closes
      ensures next.Stable? ==> Drained() && now == old(now) && stableReady
      ensures stableReady && !old(stableReady) <==> next.TimerFired?
      ensures next == GotEvent(None) ==> queue == [] && closed
      ensures !turn.canceled && !old(Drained()) ==> next.GotEvent?
      ensures Quiet(turn) && old(Drained()) && !old(stableReady) ==>
                && Drained() && now == old(now) + turn.wait
                && next == if old(armed) && deadline.Some? && deadline.value <= now then TimerFired else Idle
    {
      if turn.canceled {
        return CanceledNow;
      }
      Receive(turn.early);
      if !Drained() {
        var d := Pop();
        return GotEvent(d);
      }
      if stableReady && candidate.Some? {
        return Stable;
      }
      next := Await(turn);
    }

    /** The blocking half of `nextEvent`. */
    method Await(turn: Turn) returns (next: Next)
      requires Timed(opts.stableFor, history, since, stream, Watch(candidate, deadline, armed, stableReady), now) && Balanced(None)
      requires !stableReady
      modifies this`queue, this`closed, this`came, this`now, this`stableReady, this`armed
      ensures Timed(opts.stableFor, history, since, stream, Watch(candidate, deadline, armed, stableReady), now)
      ensures now == old(now) + turn.wait && !next.Stable? && Balanced(if next.GotEvent? then next.delivery else None)
      ensures next.CanceledNow? ==> turn.canceledLate
      ensures stableReady <==> next.TimerFired?
      ensures next == GotEvent(None) ==> queue == [] && closed
      ensures Quiet(turn) && old(Drained()) ==>
                Drained() && next == if old(armed) && deadline.Some? && deadline.value <= now then TimerFired else Idle
    {
      ghost var w, before := Watch(candidate, deadline, armed, stableReady), now;
      now := now + turn.wait;
      Receive(turn.late);
      var due := armed && deadline.value <= now;
      if turn.canceledLate && (turn.pick.Cancellation? || (!due && Drained())) {
        TimePasses(opts.stableFor, history, since, stream, w, before, w, now);
        return CanceledNow;
      }
      if due && (turn.pick.Timer? || Drained()) {
        stableReady, armed := true, false;
        TimePasses(opts.stableFor, history, since, stream, w, before, w.(armed := false, ready := true), now);
        return TimerFired;
      }
      TimePasses(opts.stableFor, history, since, stream, w, before, w, now);
      if !Drained() {
        var d := Pop();
        return GotEvent(d);
      }
      return Idle;
    }

    /** `resetStable` */
    method ResetStable()
      modifies this`stableReady, this`deadline, this`armed, this`candidate
      ensures candidate == None && deadline == None && !armed && !stableReady
    {
      stableReady, deadline, armed, candidate := false, None, false, None;
    }

    /** `replaceFailedStream` with `fallsBackToDurable` */
    method ReplaceFailedStream(d: Option<Delivery>) returns (problem: Option<Problem>)
      requires Valid() && (d.Some? ==> d.value.Failure?)
      modifies this`stableReady, this`deadline, this`armed, this`candidate
      modifies this`queue, this`closed, this`durable, this`stream, this`came, this`base
      ensures history == old(history) && now == old(now)
      ensures problem.None? <==> auto && !old(durable) && (d.None? || d.value.fallback)
      ensures problem.None? ==> Valid() && Balanced(None) && durable && stream == old(stream) + 1 && Drained()
      ensures problem.Some? ==> stream == old(stream) && durable == old(durable) && queue == old(queue) && closed == old(closed)
      ensures problem.Some? ==> came == old(came) && base == old(base)
      ensures problem.Some? ==> problem.value == if d.None? then StreamClosed else StreamBroken(d.value.reason)
    {
      ResetStable();
      if !auto || durable || !(d.None? || d.value.fallback) {
        return Some(if d.None? then StreamClosed else StreamBroken(d.value.reason));
      }
      FallBack();
      return None;
    }

    /** The new stream starts with nothing handed over. */
    method FallBack()
      requires Remembers() && Watch(candidate, deadline, armed, stableReady) == IDLE
      modifies this`queue, this`closed, this`durable, this`stream, this`came, this`base
      ensures Valid() && Balanced(None) && durable && stream == old(stream) + 1 && Drained()
    {
      queue, closed := [], false;
      durable, stream := true, stream + 1;
      came, base := [], |history|;
    }

    /** `holdCandidate`, for a match that `history` already ends with. */
    method HoldCandidate(current: Session, ghost h: seq<Seen>, ghost k: nat, ghost last: Seen)
      requires opts.stableFor > 0 && history == h + [last] && k <= |h| && since == Extended(h, k, last)
      requires last.session == current && last.Matched() && last.stream == stream && last.at == now
      requires Timed(opts.stableFor, h, k, stream, Watch(candidate, deadline, armed, stableReady), now)
      modifies this`stableReady, this`deadline, this`armed, this`candidate
      ensures Timed(opts.stableFor, history, since, stream, Watch(candidate, deadline, armed, stableReady), now)
    {
      if candidate.Some? && candidate.value.process != current.process {
        ResetStable();
      }
      candidate := Some(current);
      if deadline.None? {
        deadline, armed := Some(now + opts.stableFor), true;
      }
    }

    /** The first half of `observe`: which session the snapshot shows, remembered and judged. */
    method See(sessions: seq<Session>) returns (current: Option<Session>, ghost last: Seen)
      requires Remembers() && Kept()
      modifies this`seenInitial, this`lastSeen, this`history, this`since
      ensures Kept()
      ensures current.None? ==> history == old(history) == []
      ensures current.Some? ==> history == old(history) + [last] && last == Judged(opts, current.value, sessions, stream, now)
      ensures if current.None? then since == old(since) else since == Extended(old(history), old(since), last)
      ensures current.Some? && (last.Matched() ==> opts.stableFor != 0) ==> Remembers()
    {
      seenInitial := true;
      current := Current(opts.id, lastSeen, sessions, now);
      last := NOTHING;
      if current.Some? {
        lastSeen := current;
        last := Judged(opts, current.value, sessions, stream, now);
        RightOneMore(opts, history, last);
        SinceExtended(history, last);
        since := Extended(history, since, last);
        history := history + [last];
      }
    }

    /** `observe` */
    method Observe(sessions: seq<Session>) returns (r: Outcome, ghost last: Seen)
      requires Valid() && Kept() && opts.stableFor >= 0
      modifies this`seenInitial, this`lastSeen, this`history, this`since
      modifies this`stableReady, this`deadline, this`armed, this`candidate
      ensures Kept()
      ensures r == Failed(NotFound) ==> history == old(history) == []
      ensures r != Failed(NotFound) ==> history == old(history) + [last] && last.listed == sessions
      ensures r.Waiting? ==> Valid() && last.verdict.Ok?
      ensures r.Accepted? ==> opts.stableFor == 0 && FirstMatch(r.session, r.initial)
      ensures r.Failed? ==> r.problem == NotFound || Unclear(r.problem)
    {
      var isInitial := !seenInitial;
      ghost var h, k := history, since;
      var current;
      current, last := See(sessions);
      if current.None? {
        ResetStable();
        return Failed(NotFound), last;
      }
      r := Judge(current.value, sessions, isInitial, h, k, last);
    }

    /** The last snapshot, and no other, matched. */
    ghost predicate FirstMatch(session: Session, initial: bool)
      reads this`history
    {
      && history != [] && session == history[|history| - 1].session
      && (forall i :: 0 <= i < |history| ==> (history[i].Matched() <==> i == |history| - 1))
      && (initial <==> |history| == 1)
    }

    /** The last snapshot shows why it is no use waiting. */
    ghost predicate Unclear(problem: Problem)
      reads this`history
    {
      history != [] && history[|history| - 1].verdict == Err(problem) && (problem.Disappeared? || problem.UnknownState?)
    }

    /** The second half of `observe`, for a session that `history` already ends with. */
    method Judge(
      current: Session, ghost listed: seq<Session>, isInitial: bool, ghost h: seq<Seen>, ghost k: nat, ghost last: Seen)
      returns (r: Outcome)
      requires opts.stableFor >= 0 && last == Judged(opts, current, listed, stream, now) && history == h + [last]
      requires Timed(opts.stableFor, h, k, stream, Watch(candidate, deadline, armed, stableReady), now)
      requires k <= |h| && since == Extended(h, k, last)
      requires NoMatch(opts, h) && (isInitial <==> h == [])
      modifies this`stableReady, this`deadline, this`armed, this`candidate
      ensures r.Waiting? ==>
                && Timed(opts.stableFor, history, since, stream, Watch(candidate, deadline, armed, stableReady), now)
                && (last.Matched() ==> opts.stableFor != 0) && last.verdict.Ok?
      ensures r.Accepted? ==> opts.stableFor == 0 && FirstMatch(r.session, r.initial)
      ensures r.Failed? ==> Unclear(r.problem)
    {
      var matched := Evaluate(current, opts);
      if matched != Ok(true) {
        ResetStable();
        return if matched.Err? then Failed(matched.error) else Waiting;
      }
      if opts.stableFor == 0 {
        OnlyTheLast(h, last);
        return Accepted(current, isInitial);
      }
      HoldCandidate(current, h, k, last);
      return Waiting;
    }

    /** What a result says about the snapshots seen. */
    ghost predicate Justified(r: Outcome)
      reads this
    {
      match r
      case Waiting => Valid() && Balanced(None)
      case Accepted(session, initial) =>
        if opts.stableFor > 0 then StableMatch(session) && Drained() && !initial else FirstMatch(session, initial)
      case Failed(problem) => Caused(problem)
    }

    /** The last snapshot stands at the end of a run of matches that has lasted long enough. */
    ghost predicate StableMatch(session: Session)
      reads this`history, this`since, this`stream, this`now
    {
      && HoldingFrom(history, since, stream) && session == history[|history| - 1].session
      && now - history[since].at >= opts.stableFor
    }

    /** Why a wait may fail; `Canceled` is up to the turn. */
    ghost predicate Caused(problem: Problem)
      reads this
    {
      match problem
      case Canceled => true
      case NotFound => history == []
      case Disappeared => Unclear(problem)
      case UnknownState => Unclear(problem)
      case StreamClosed => (!auto || durable) && queue == [] && closed
      case StreamBroken(reason) => exists fallback :: Broken(reason, fallback) && (!auto || durable || !fallback)
      case _ => false
    }

    /** The delivery after those that have been judged is this failure. */
    ghost predicate Broken(reason: string, fallback: bool)
      reads this`came, this`base, this`history, this`queue
    {
      Balanced(Some(Failure(reason, fallback)))
    }

    /** All snapshots from the `n`-th on could be told to match or not. */
    ghost predicate Tellable(n: nat)
      reads this`history
    {
      forall i :: n <= i < |history| ==> history[i].verdict.Ok?
    }

    /** One pass of `loop`. */
    method Pass(turn: Turn) returns (r: Outcome)
      requires Valid() && Balanced(None) && Kept() && opts.stableFor >= 0
      modifies this
      ensures Kept() && Justified(r)
      ensures (stream == old(stream) && durable == old(durable))
              || (stream == old(stream) + 1 && auto && durable && !old(durable))
      ensures old(history) <= history && old(now) <= now
      ensures turn.canceled ==> r == Failed(Canceled)
      ensures r == Failed(Canceled) ==> turn.canceled || turn.canceledLate
      ensures r.Waiting? ==> Tellable(|old(history)|)
      // if there is something to look at, it is
      ensures r.Waiting? && !old(Drained()) ==> |old(history)| < |history| || old(stream) < stream
      // a quiet turn accepts if the timer has fired, and otherwise lets it fire if it is due
      ensures Quiet(turn) && old(Drained()) && old(HoldingFrom(history, since, stream)) && opts.stableFor > 0 ==>
                if old(stableReady) then r == Accepted(old(history)[|old(history)| - 1].session, false)
                else r.Waiting? && history == old(history) && since == old(since) && stream == old(stream) && Drained()
                     && (stableReady <==> now - history[since].at >= opts.stableFor)
    {
      var next := NextEvent(turn);
      match next {
        case CanceledNow => r := Failed(Canceled);
        case Stable => r := Accepted(candidate.value, false);
        case TimerFired => r := Waiting;
        case Idle => r := Waiting;
        case GotEvent(d) => r := Handle(d);
      }
    }

    /** What `loop` does with an event. */
    method Handle(d: Option<Delivery>) returns (r: Outcome)
      requires Valid() && Balanced(d) && Kept() && opts.stableFor >= 0
      requires d.None? ==> queue == [] && closed
      modifies this
      ensures Kept() && Justified(r) && r != Failed(Canceled)
      ensures (stream == old(stream) && durable == old(durable))
              || (stream == old(stream) + 1 && auto && durable && !old(durable))
      ensures old(history) <= history && now == old(now)
      ensures r.Waiting? ==> Tellable(|old(history)|)
      ensures r.Waiting? ==> |old(history)| < |history| || old(stream) < stream
    {
      if d.Some? && d.value.Snapshot? {
        r := HandleSnapshot(d.value.sessions);
      } else {
        r := HandleFailure(d);
      }
    }

    /** The stream has closed or failed: it is replaced, or that is the end. */
    method HandleFailure(d: Option<Delivery>) returns (r: Outcome)
      requires Valid() && Balanced(d) && (d.None? ==> queue == [] && closed) && (d.Some? ==> d.value.Failure?)
      modifies this`stableReady, this`deadline, this`armed, this`candidate
      modifies this`queue, this`closed, this`durable, this`stream, this`came, this`base
      ensures r.Waiting? || (r.Failed? && r.problem != Canceled && Caused(r.problem))
      ensures r.Waiting? ==> Valid() && Balanced(None) && stream == old(stream) + 1 && auto && durable && !old(durable)
      ensures r.Failed? ==> stream == old(stream) && durable == old(durable)
    {
      var problem := ReplaceFailedStream(d);
      if problem.None? {
        return Waiting;
      }
      assert d.Some? ==> Broken(d.value.reason, d.value.fallback);
      r := Failed(problem.value);
    }

    /** A snapshot is judged and thereby taken. */
    method HandleSnapshot(sessions: seq<Session>) returns (r: Outcome)
      requires Valid() && Balanced(Some(Snapshot(sessions))) && Kept() && opts.stableFor >= 0
      modifies this`seenInitial, this`lastSeen, this`history, this`since
      modifies this`stableReady, this`deadline, this`armed, this`candidate
      ensures Kept() && Justified(r) && r != Failed(Canceled)
      ensures old(history) <= history && (r.Waiting? ==> Tellable(|old(history)|))
      ensures r.Waiting? ==> |old(history)| < |history|
    {
      ghost var h := history;
      ghost var last;
      r, last := Observe(sessions);
      if r.Waiting? {
        TakenNow(h, base, last, queue);
      }
    }

    ghost function Standing(): Stand
      reads this
    {
      Stand(now, Drained(), stableReady, stream)
    }

    /** The last turn begins with how things stand. */
    ghost predicate Ends(starts: seq<Start>)
      reads this
    {
      starts != [] && starts[|starts| - 1] == Start(now, Drained(), |history|, stream)
    }

    /** One more turn. */
    method Take(script: seq<Turn>, i: nat, ghost starts: seq<Start>) returns (r: Outcome, ghost more: seq<Start>)
      requires Valid() && Balanced(None) && Kept() && opts.stableFor >= 0
      requires Ends(starts) && Busy(starts)
      requires i < |script| && |starts| == i + 1 && (opts.stableFor > 0 ==> SoundBy(opts, script, starts, history, Standing()))
      modifies this
      ensures Kept() && Justified(r)
      ensures (stream == old(stream) && durable == old(durable))
              || (stream == old(stream) + 1 && auto && durable && !old(durable))
      ensures script[i].canceled ==> r == Failed(Canceled)
      ensures r == Failed(Canceled) ==> script[i].canceled || script[i].canceledLate
      ensures old(history) <= history && (r.Waiting? ==> Tellable(|old(history)|))
      ensures r.Waiting? ==> Ends(more) && Busy(more)
      ensures |more| == i + 2
      ensures r.Waiting? && opts.stableFor > 0 ==> SoundBy(opts, script, more, history, Standing())
    {
      ghost var h, at := history, Standing();
      r := Pass(script[i]);
      more := starts + [Start(now, Drained(), |history|, stream)];
      if r.Waiting? {
        StillBusy(starts, more[i + 1]);
      }
      if r.Waiting? && opts.stableFor > 0 {
        OneMoreTurn(opts, script, starts, h, at, history, Standing());
      }
    }

    /** `loop`; `used` turns have been taken. */
    method Loop(script: seq<Turn>) returns (r: Outcome, used: nat, ghost starts: seq<Start>)
      requires Valid() && Balanced(None) && opts.stableFor >= 0 && history == [] && stream == 0
      modifies this
      ensures Kept() && Justified(r)
      ensures stream <= 1 && (stream == 1 ==> auto && durable && !old(durable))
      ensures used <= |script| && (r.Waiting? ==> used == |script|)
      ensures forall i :: 0 <= i < used && script[i].canceled ==> i == used - 1 && r == Failed(Canceled)
      ensures r == Failed(Canceled) ==> used > 0 && (script[used - 1].canceled || script[used - 1].canceledLate)
      ensures r.Waiting? ==> Tellable(0) && |starts| == |script| + 1 && Busy(starts)
      ensures r.Waiting? && opts.stableFor > 0 ==> SoundBy(opts, script, starts, history, Standing())
    {
      used, starts := 0, [Start(now, Drained(), 0, 0)];
      while used < |script|
        invariant used <= |script| && |starts| == used + 1
        invariant Valid() && Balanced(None) && Kept() && Tellable(0)
        invariant opts.stableFor > 0 ==> SoundBy(opts, script, starts, history, Standing())
        invariant Ends(starts) && Busy(starts)
        invariant stream == 0 ==> durable == old(durable)
        invariant stream <= 1 && (stream == 1 ==> auto && durable && !old(durable))
        invariant forall i :: 0 <= i < used ==> !script[i].canceled
        decreases |script| - used
      {
        ghost var more, h := starts, history;
        r, more := Take(script, used, starts);
        used := used + 1;
        if !r.Waiting? {
          return;
        }
        StillTellable(|h|);
        starts := more;
      }
      return Waiting, used, starts;
    }

    lemma StillTellable(n: nat)
      requires Tellable(n) && forall i :: 0 <= i < n && i < |history| ==> history[i].verdict.Ok?
      ensures Tellable(0)
    {
    }

    /** Everything seen was judged against what was asked for, about the right session. */
    ghost predicate JudgedRightly()
      reads this`history
    {
      && (forall i :: 0 <= i < |history| ==> (history[i].Matched() <==> Satisfies(history[i].session, opts)))
      && (forall i: nat :: i < |history| ==> Shows(opts.id, history, i))
    }

    /**
     * The last snapshot is what was waited for: the first match there is, or the end of the
     * longest unbroken run of matches of one process on one stream, after the full stability
     * time measured from the first of them and with nothing left to look at.
     */
    ghost predicate AcceptedRightly(session: Session, initial: bool)
      reads this
    {
      && history != [] && history[|history| - 1].session == session && Satisfies(session, opts)
      && if opts.stableFor > 0
         then !initial && history[|history| - 1].stream == stream && Drained()
              && exists k :: LongestFrom(history, k) && now - history[k].at >= opts.stableFor
         else (initial <==> |history| == 1)
              && forall i :: 0 <= i < |history| ==> (Satisfies(history[i].session, opts) <==> i == |history| - 1)
    }

    lemma AcceptedMeans(session: Session, initial: bool)
      requires Justified(Accepted(session, initial)) && Kept() && JudgedRightly() && opts.stableFor >= 0
      ensures AcceptedRightly(session, initial)
    {
      if opts.stableFor > 0 {
        SinceIsLongest(history, stream);
        assert history[|history| - 1].Matched();
      }
    }

    /** It is no use waiting any longer, for one of these reasons. */
    ghost predicate FailedRightly(script: seq<Turn>, problem: Problem)
      reads this
    {
      match problem
      case NotFound => history == []
      case Disappeared => history != [] && history[|history| - 1].session.Presence() == PRESENCE_GONE != opts.presence
      case UnknownState =>
        && history != [] && history[|history| - 1].session.Presence() == PRESENCE_UNKNOWN
        && opts.presence !in {PRESENCE_UNKNOWN, PRESENCE_GONE}
      case Canceled => exists i :: 0 <= i < |script| && (script[i].canceled || script[i].canceledLate)
      case StreamClosed => (!auto || durable) && queue == [] && closed
      case StreamBroken(reason) => exists fallback :: Broken(reason, fallback) && (!auto || durable || !fallback)
      case _ => false
    }

    lemma FailedMeans(script: seq<Turn>, problem: Problem)
      requires Justified(Failed(problem)) && Kept()
      requires problem == Canceled ==> exists i :: 0 <= i < |script| && (script[i].canceled || script[i].canceledLate)
      ensures FailedRightly(script, problem)
    {
      if problem.Disappeared? || problem.UnknownState? {
        assert EntryRight(opts, history, |history| - 1);
        ProblemsMean(history[|history| - 1].session, opts);
      }
    }

    /** Why the wait is not over: nothing has been missed, and nothing that has been seen ends it. */
    ghost predicate NothingToReport(script: seq<Turn>, starts: seq<Start>)
      reads this
    {
      && (forall i :: 0 <= i < |script| ==> !script[i].canceled)
      && Balanced(None) && Tellable(0)
      && (opts.stableFor == 0 ==> forall i :: 0 <= i < |history| ==> !Satisfies(history[i].session, opts))
      && |starts| == |script| + 1 && Busy(starts)
      && (opts.stableFor > 0 ==> NeverIgnored(opts, script, starts, history))
    }

    /**
     * `Wait`. A session is accepted, and a wait is given up, only with a reason. As long as
     * the wait goes on, every snapshot delivered has been judged in order or is queued, one
     * at least in each turn that had any, none settled the matter, and no quiet turn has
     * followed one at the end of which a run of matches had lasted long enough.
     */
    method Wait(script: seq<Turn>) returns (r: Outcome, ghost starts: seq<Start>)
      requires Valid() && Kept() && Balanced(None) && history == [] && stream == 0
      modifies this
      ensures Validate(opts).Some? ==> r == Failed(Validate(opts).value)
      ensures Validate(opts).None? ==> JudgedRightly()
      ensures Validate(opts).None? ==>
                match r
                case Accepted(session, initial) => AcceptedRightly(session, initial)
                case Failed(problem) => FailedRightly(script, problem)
                case Waiting => NothingToReport(script, starts)
      ensures stream <= 1 && (stream == 1 ==> auto && durable && !old(durable))
    {
      var problem := Validate(opts);
      starts := [];
      if problem.Some? {
        return Failed(problem.value), starts;
      }
      var used;
      r, used, starts := Loop(script);
      JudgedMeansSatisfies(opts, history);
      match r {
        case Accepted(session, initial) => AcceptedMeans(session, initial);
        case Failed(reason) => FailedMeans(script, reason);
        case Waiting =>
      }
    }
  }
}
