/**
 * Safety of the tracker over whole runs: any number of cycles, any mix of store
 * answers and failed listings, single-shot and continuous cycles in any order.
 */
module ObserverRuns {
  import opened Options
  import opened Processes
  import opened CycleInventory
  import opened Observations
  import opened PanePlacement
  import opened ObserverCycle

  type Run = seq<Record>

  ghost function After(cfg: Settings, run: Run): State {
    if run == [] then FRESH else Step(cfg, After(cfg, run[..|run| - 1]), run[|run| - 1])
  }

  /** Cycle `i` starts where the cycles before it ended. */
  ghost predicate PossibleAt(cfg: Settings, run: Run, i: nat) {
    i < |run| && Possible(cfg, After(cfg, run[..i]), run[i])
  }

  ghost predicate IsRun(cfg: Settings, run: Run) {
    forall i :: 0 <= i < |run| ==> PossibleAt(cfg, run, i)
  }

  /** The state in which cycle `i` of the run does its work. */
  ghost function Working(cfg: Settings, run: Run, i: nat): State
    requires i < |run|
  {
    Initialized(After(cfg, run[..i]), run[i].cycle)
  }

  /** Cycle `i` got through all its listings. */
  ghost predicate Ran(cfg: Settings, run: Run, i: nat)
    requires i < |run|
  {
    Complete(Working(cfg, run, i), run[i].cycle)
  }

  /** Cycle `i` was recorded: the store took its batch, or there was nothing to send. */
  ghost predicate Taken(cfg: Settings, run: Run, i: nat)
    requires i < |run|
  {
    Ran(cfg, run, i) && (run[i].batch == [] || run[i].cycle.answer == Accepted)
  }

  /** Cycle `i` updated the tracked processes; this includes cycles that ended in a conflict. */
  ghost predicate Committed(cfg: Settings, run: Run, i: nat)
    requires i < |run|
  {
    Ran(cfg, run, i) && (run[i].batch == [] || run[i].cycle.answer != Failure)
  }

  ghost predicate SeenAt(run: Run, i: nat, key: Key)
    requires i < |run|
  {
    key in run[i].current
  }

  /** No committed cycle from `i` on saw the process. */
  ghost predicate UnseenFrom(cfg: Settings, run: Run, i: nat, key: Key) {
    forall j :: i <= j < |run| && Committed(cfg, run, j) ==> !SeenAt(run, j, key)
  }

  /** Cycle `i` took the process over from the store, where it was last seen at `at`. */
  ghost predicate SeededAt(cfg: Settings, run: Run, i: nat, key: Key, at: Time)
    requires i < |run|
  {
    && !After(cfg, run[..i]).initialized && run[i].cycle.live.Some?
    && exists seed :: seed in run[i].cycle.live.value && Seeds(seed, key, at)
  }

  predicate Seeds(seed: Seed, key: Key, at: Time) {
    && seed.present && CompleteRef(ProcessRef(seed.process.pid, seed.process.start))
    && KeyOf(seed.process, seed.harness) == key && seed.observedAt == at
  }

  /** What a cycle did does not depend on the cycles after it. */
  lemma SameBefore(cfg: Settings, run: Run, n: nat, i: nat)
    requires i < n <= |run|
    ensures Working(cfg, run[..n], i) == Working(cfg, run, i)
    ensures Ran(cfg, run[..n], i) == Ran(cfg, run, i) && Taken(cfg, run[..n], i) == Taken(cfg, run, i)
    ensures Committed(cfg, run[..n], i) == Committed(cfg, run, i)
    ensures forall key, at :: SeededAt(cfg, run[..n], i, key, at) == SeededAt(cfg, run, i, key, at)
  {
    assert run[..n][..i] == run[..i];
  }

  lemma SamePossible(cfg: Settings, run: Run, n: nat, i: nat)
    requires i < n <= |run|
    ensures PossibleAt(cfg, run[..n], i) == PossibleAt(cfg, run, i)
  {
    assert run[..n][..i] == run[..i];
  }

  lemma RunPrefix(cfg: Settings, run: Run, n: nat)
    requires IsRun(cfg, run) && n <= |run|
    ensures IsRun(cfg, run[..n])
  {
    forall i | 0 <= i < n ensures PossibleAt(cfg, run[..n], i) {
      SamePossible(cfg, run, n, i);
    }
  }

  lemma CycleSaysRight(cfg: Settings, run: Run, i: nat)
    requires IsRun(cfg, run) && i < |run|
    ensures SaysRight(cfg, After(cfg, run[..i]), run[i])
  {
    assert PossibleAt(cfg, run, i);
  }

  // ---------------------------------------------------------------- tracked processes

  lemma SettledDropsOnlyRetired(cfg: Settings, s: State, sent: bool, answer: Answer, current: map<Key, Process>,
                                at: Time, pending: map<Key, Time>, key: Key)
    requires key in s.tracked
    requires key !in Settled(s, sent, answer, NextOf(s.tracked, current, at),
                             RetiredOf(cfg, s.tracked, current, at), pending).tracked
    ensures key in RetiredOf(cfg, s.tracked, current, at) && (!sent || answer == Accepted)
  {
  }

  /** A process leaves the tracked set only when the store accepted a batch reporting it absent. */
  lemma LeavesTrackedOnlyWhenAbsenceTaken(cfg: Settings, s: State, r: Record, key: Key)
    requires SaysRight(cfg, s, r)
    requires key in s.tracked && key !in Step(cfg, s, r).tracked
    ensures Complete(Initialized(s, r.cycle), r.cycle)
    ensures r.cycle.answer == Accepted && Sighting(key, false) in r.batch
    ensures key in RetiredBy(cfg, Initialized(s, r.cycle), r)
  {
    SeedsOnlyAdd(s.tracked, if r.cycle.live.Some? then r.cycle.live.value else []);
    var s1 := Initialized(s, r.cycle);
    SettledDropsOnlyRetired(cfg, s1, r.batch != [], r.cycle.answer, r.current, r.cycle.at, r.held, key);
  }

  lemma {:induction false} SeedsOnlyAdd(tracked: map<Key, Tracked>, seeds: seq<Seed>)
    ensures tracked.Keys <= SeedAll(tracked, seeds).Keys
  {
    if seeds != [] {
      SeedsOnlyAdd(tracked, seeds[..|seeds| - 1]);
    }
  }

  /** A process that is in the scan is not one the session sweep can find gone. */
  lemma SightedIsNotGone(index: map<int, Process>, agents: map<int, Harness>, confirmed: set<Key>, key: Key)
    requires key in CurrentOf(ByKey(index, agents), confirmed)
    ensures !Gone(ProcessRef(key.pid, key.start), index)
  {
    ByKeyAt(index, agents, key);
  }

  lemma LostIsGone(s: State, c: Cycle, key: Key)
    requires key in LostProcesses(s, c)
    ensures Gone(ProcessRef(key.pid, key.start), Scanned(c))
  {
  }

  lemma CurrentIsNotLost(cfg: Settings, s: State, c: Cycle, key: Key)
    requires key in Current(cfg, s, c)
    ensures key !in LostProcesses(s, c)
  {
    SightedIsNotGone(Scanned(c), Agents(ScanOf(c)), ConfirmedKeys(cfg, s, c), key);
    if key in LostProcesses(s, c) {
      LostIsGone(s, c, key);
    }
  }

  lemma SaysOneThing(batch: seq<Observation>, current: set<Key>, retired: set<Key>, lost: iset<Key>, complete: bool, key: Key)
    requires Says(batch, current, retired, lost) && PlacesEach(batch, current, complete)
    requires current !! retired && (key in current ==> key !in lost)
    ensures !(Sighting(key, true) in batch && Sighting(key, false) in batch)
    ensures PlacedOrRead(batch, key) ==> Sighting(key, true) in batch
    ensures Sighting(key, true) in batch ==> PlacesEach(batch, {key}, complete)
  {
  }

  /** The agent's best claim among the panes of the cycle, whose selections count if they name an agent. */
  ghost predicate PlacedAt(c: Cycle, kept: map<int, Harness>, key: Key, pane: Option<nat>) {
    var byPid := Filed(NormalizedScan(ScanOf(c)));
    key.pid in kept && key.pid in byPid && IsBestClaim(AllCleared(c.panes, kept.Keys), byPid[key.pid], byPid, pane)
  }

  lemma PlacementsAreRight(cfg: Settings, s: State, r: Record, key: Key)
    requires Possible(cfg, s, r)
    ensures forall pane :: Placement(key, pane) in r.batch ==> PlacedAt(r.cycle, Kept(cfg, Initialized(s, r.cycle), r.cycle), key, pane)
  {
    if Complete(Initialized(s, r.cycle), r.cycle) {
      forall pane | Placement(key, pane) in r.batch
        ensures PlacedAt(r.cycle, Kept(cfg, Initialized(s, r.cycle), r.cycle), key, pane)
      {
        assert Placement(key, pane).Placement?;
      }
    }
  }

  ghost predicate PlacedOrRead(batch: seq<Observation>, key: Key) {
    exists o :: o in batch && (o.Placement? || o.Reading?) && o.key == key
  }

  /**
   * No batch reports one process both present and absent, and only processes it
   * reports present are placed or read: each in one place if all panes could be
   * listed, at most one otherwise, with at most as many readings; and each where its best
   * claim among the panes is.
   */
  lemma BatchIsConsistent(cfg: Settings, s: State, r: Record, key: Key)
    requires Possible(cfg, s, r)
    ensures !(Sighting(key, true) in r.batch && Sighting(key, false) in r.batch)
    ensures PlacedOrRead(r.batch, key) ==> Sighting(key, true) in r.batch
    ensures Sighting(key, true) in r.batch ==> PlacesEach(r.batch, {key}, r.cycle.panesComplete)
    ensures forall pane :: Placement(key, pane) in r.batch ==> PlacedAt(r.cycle, Kept(cfg, Initialized(s, r.cycle), r.cycle), key, pane)
  {
    PlacementsAreRight(cfg, s, r, key);
    var s1 := Initialized(s, r.cycle);
    if Complete(s1, r.cycle) {
      if key in r.current {
        CurrentIsNotLost(cfg, s1, r.cycle, key);
      }
      SaysOneThing(r.batch, r.current.Keys, RetiredBy(cfg, s1, r), LostProcesses(s1, r.cycle), r.cycle.panesComplete, key);
    }
  }

  /** How many committed cycles in a row, up to the end of the run, missed the process. */
  ghost function Misses(cfg: Settings, run: Run, key: Key): nat {
    if run == [] then 0
    else
      var i := |run| - 1;
      if !Committed(cfg, run, i) then Misses(cfg, run[..i], key)
      else if SeenAt(run, i, key) then 0
      else Misses(cfg, run[..i], key) + 1
  }

  /** The process was taken over from the store and no committed cycle has seen it since. */
  ghost predicate OnlySeeded(cfg: Settings, run: Run, key: Key) {
    run != [] &&
    var i := |run| - 1;
    && (OnlySeeded(cfg, run[..i], key) || exists at :: SeededAt(cfg, run, i, key, at))
    && !(Committed(cfg, run, i) && SeenAt(run, i, key))
  }

  /** An entry taken over from the store counts as missed once already. */
  lemma {:induction false} SeedEntry(seeds: seq<Seed>, key: Key) returns (seed: Seed)
    requires key in SeedAll(map[], seeds)
    ensures seed in seeds && Seeds(seed, key, SeedAll(map[], seeds)[key].missingSince)
    ensures SeedAll(map[], seeds)[key].missingCount == MISSING_SNAPSHOTS - 1
  {
    var last := seeds[|seeds| - 1];
    if Seeds(last, key, last.observedAt) {
      seed := last;
    } else {
      seed := SeedEntry(seeds[..|seeds| - 1], key);
    }
  }

  lemma {:induction false} SeedsAreTracked(seeds: seq<Seed>, key: Key, seed: Seed)
    requires seed in seeds && Seeds(seed, key, seed.observedAt)
    ensures key in SeedAll(map[], seeds)
  {
    var last := seeds[|seeds| - 1];
    if seed != last {
      assert seed in seeds[..|seeds| - 1];
      SeedsAreTracked(seeds[..|seeds| - 1], key, seed);
    }
  }

  /** Until the store's sessions have been listed once, nothing has happened. */
  lemma {:induction false} NothingBeforeInitialization(cfg: Settings, run: Run, key: Key)
    requires !After(cfg, run).initialized
    ensures After(cfg, run) == FRESH && Misses(cfg, run, key) == 0 && !OnlySeeded(cfg, run, key)
  {
    if run != [] {
      NothingBeforeInitialization(cfg, run[..|run| - 1], key);
    }
  }

  /** The entry a cycle works with, against the history before it. */
  lemma WorkingEntry(cfg: Settings, run: Run, i: nat, key: Key)
    requires i < |run| && key in Working(cfg, run, i).tracked
    ensures var t := Working(cfg, run, i).tracked[key];
            if After(cfg, run[..i]).initialized then key in After(cfg, run[..i]).tracked && t == After(cfg, run[..i]).tracked[key]
            else t.missingCount == 1 && SeededAt(cfg, run, i, key, t.missingSince)
  {
    if !After(cfg, run[..i]).initialized {
      NothingBeforeInitialization(cfg, run[..i], key);
      if run[i].cycle.live.Some? {
        var seed := SeedEntry(run[i].cycle.live.value, key);
      }
    }
  }

  lemma SettledEntry(cfg: Settings, s: State, sent: bool, answer: Answer, current: map<Key, Process>, at: Time,
                     pending: map<Key, Time>, key: Key)
    ensures var next := NextOf(s.tracked, current, at);
            var s' := Settled(s, sent, answer, next, RetiredOf(cfg, s.tracked, current, at), pending);
            && (sent && answer == Failure ==> s'.tracked == s.tracked)
            && (!(sent && answer == Failure) && key in s'.tracked ==>
                  if key in current then s'.tracked[key] == Tracked(current[key], NEVER, 0)
                  else key in s.tracked && s'.tracked[key] == Missed(s.tracked[key], at))
            && (sent && answer != Accepted && key in s.tracked ==> key in s'.tracked)
  {
  }

  /** What one cycle does to the entry of one process. */
  lemma EntryAfter(cfg: Settings, run: Run, i: nat, key: Key)
    requires i < |run|
    ensures After(cfg, run[..i + 1]).initialized == Working(cfg, run, i).initialized
    ensures var w, after := Working(cfg, run, i).tracked, After(cfg, run[..i + 1]).tracked;
            && (!Committed(cfg, run, i) ==> after == w)
            && (key in after && Committed(cfg, run, i) && SeenAt(run, i, key) ==>
                  after[key].missingCount == 0 && after[key].missingSince == NEVER)
            && (key in after && Committed(cfg, run, i) && !SeenAt(run, i, key) ==>
                  key in w && after[key] == Missed(w[key], run[i].cycle.at))
            && (key in w && !Taken(cfg, run, i) ==> key in after)
  {
    assert run[..i + 1][..i] == run[..i];
    var r := run[i];
    SettledEntry(cfg, Working(cfg, run, i), r.batch != [], r.cycle.answer, r.current, r.cycle.at, r.held, key);
  }

  /**
   * The counter of a tracked process is exactly the number of committed cycles in
   * a row that missed it, plus one if it only comes from the store.
   */
  lemma {:induction false} MissCounter(cfg: Settings, run: Run, key: Key)
    requires key in After(cfg, run).tracked
    ensures After(cfg, run).tracked[key].missingCount
            == Misses(cfg, run, key) + if OnlySeeded(cfg, run, key) then 1 else 0
    decreases |run|, 1
  {
    var i := |run| - 1;
    assert run[..i + 1] == run;
    EntryAfter(cfg, run, i, key);
    if key in Working(cfg, run, i).tracked {
      WorkingMissCounter(cfg, run, key);
    }
  }

  /** The same for the entry the last cycle works with. */
  lemma {:induction false} WorkingMissCounter(cfg: Settings, run: Run, key: Key)
    requires run != [] && key in Working(cfg, run, |run| - 1).tracked
    ensures var i := |run| - 1;
            Working(cfg, run, i).tracked[key].missingCount
            == Misses(cfg, run[..i], key)
               + if OnlySeeded(cfg, run[..i], key) || exists at :: SeededAt(cfg, run, i, key, at) then 1 else 0
    decreases |run|, 0
  {
    var i := |run| - 1;
    WorkingEntry(cfg, run, i, key);
    if After(cfg, run[..i]).initialized {
      MissCounter(cfg, run[..i], key);
    } else {
      NothingBeforeInitialization(cfg, run[..i], key);
    }
  }

  /** A tracked process is reported absent exactly when it is due for retirement. */
  lemma AbsenceOfTracked(cfg: Settings, run: Run, i: nat, key: Key)
    requires IsRun(cfg, run) && i < |run| && Ran(cfg, run, i) && key in Working(cfg, run, i).tracked
    ensures Sighting(key, false) in run[i].batch <==>
              !SeenAt(run, i, key)
              && Due(cfg, Missed(Working(cfg, run, i).tracked[key], run[i].cycle.at), run[i].cycle.at)
  {
    CycleSaysRight(cfg, run, i);
    TrackedSaid(cfg, After(cfg, run[..i]), run[i], key);
  }

  /** The same for one cycle. */
  lemma TrackedSaid(cfg: Settings, s: State, r: Record, key: Key)
    requires SaysRight(cfg, s, r)
    requires var s1 := Initialized(s, r.cycle); Complete(s1, r.cycle) && key in s1.tracked
    ensures Sighting(key, false) in r.batch <==>
              key !in r.current && Due(cfg, Missed(Initialized(s, r.cycle).tracked[key], r.cycle.at), r.cycle.at)
  {
    var s1 := Initialized(s, r.cycle);
    TrackedIsNotLost(s1, r.cycle, key);
    SaysAbsent(r.batch, r.current.Keys, RetiredBy(cfg, s1, r), LostProcesses(s1, r.cycle), key);
  }

  lemma SaysAbsent(batch: seq<Observation>, current: set<Key>, retired: set<Key>, lost: iset<Key>, key: Key)
    requires Says(batch, current, retired, lost) && key !in lost
    ensures Sighting(key, false) in batch <==> key in retired
  {
  }

  /** The session sweep leaves tracked processes alone. */
  lemma TrackedIsNotLost(s: State, c: Cycle, key: Key)
    requires key in s.tracked
    ensures key !in LostProcesses(s, c)
  {
  }

  /** The process list has another process under this PID, or none; a process of unknown start may be the same. */
  predicate ProvenGone(scan: Scan, pid: int, start: string) {
    pid > 0 && start != "" && forall p :: p in scan && p.pid == pid ==> p.start != "" && p.start != start
  }

  /** A session that has not ended names this process, and no tracked process can be the one it names. */
  ghost predicate NamedByUntracked(tracked: map<Key, Tracked>, sessions: seq<Session>, key: Key) {
    exists x :: x in sessions && !x.gone && x.harness == key.harness && x.process == Some(ProcessRef(key.pid, key.start))
                && !CoveredByTracked(tracked, key)
  }

  ghost predicate CoveredByTracked(tracked: map<Key, Tracked>, key: Key) {
    exists k :: k in tracked && k.harness == key.harness && k.pid == key.pid && (k.start == key.start || k.start == "" || key.start == "")
  }

  lemma GoneMeans(scan: Scan, p: ProcessRef)
    requires p.pid > 0
    ensures Gone(p, IndexOf(scan)) <==> forall q :: q in scan && q.pid == p.pid ==> q.start != "" && q.start != p.start
  {
    forall q | q in scan && q.pid == p.pid ensures p.pid in IndexOf(scan) && IndexOf(scan)[p.pid] == q {
      var i :| 0 <= i < |scan| && scan[i] == q;
    }
  }

  lemma LostMeans(s: State, c: Cycle, key: Key)
    ensures LostProcess(s, c, key) <==>
            ProvenGone(ScanOf(c), key.pid, key.start) && NamedByUntracked(s.tracked, SessionsOf(c), key)
  {
    if key.pid > 0 {
      GoneMeans(ScanOf(c), ProcessRef(key.pid, key.start));
    }
    forall x: Session | x.harness == key.harness && x.process == Some(ProcessRef(key.pid, key.start))
      ensures IsTracked(s.tracked, x) <==> CoveredByTracked(s.tracked, key)
    {
      if k :| k in s.tracked && Covers(k, x.harness, x.process.value) {
        assert k.harness == key.harness && k.pid == key.pid;
      }
      if k :| k in s.tracked && k.harness == key.harness && k.pid == key.pid && (k.start == key.start || k.start == "" || key.start == "") {
        assert Covers(k, x.harness, x.process.value);
      }
    }
  }

  /** In any run, a process that is not tracked is reported absent exactly if a session still names it and the scan proves it gone. */
  lemma AbsenceOfUntracked(cfg: Settings, run: Run, i: nat, key: Key)
    requires IsRun(cfg, run) && i < |run| && Ran(cfg, run, i) && key !in Working(cfg, run, i).tracked
    ensures Sighting(key, false) in run[i].batch <==>
            && ProvenGone(ScanOf(run[i].cycle), key.pid, key.start)
            && NamedByUntracked(Working(cfg, run, i).tracked, SessionsOf(run[i].cycle), key)
  {
    CycleSaysRight(cfg, run, i);
    UntrackedSaid(cfg, After(cfg, run[..i]), run[i], key);
    LostMeans(Working(cfg, run, i), run[i].cycle, key);
  }

  lemma UntrackedSaid(cfg: Settings, s: State, r: Record, key: Key)
    requires SaysRight(cfg, s, r)
    requires var s1 := Initialized(s, r.cycle); Complete(s1, r.cycle) && key !in s1.tracked
    ensures Sighting(key, false) in r.batch <==> LostProcess(Initialized(s, r.cycle), r.cycle, key)
  {
    var s1 := Initialized(s, r.cycle);
    assert key !in RetiredBy(cfg, s1, r);
  }

  /**
   * Without a grace period, a process is reported absent exactly on a miss that
   * follows at least one committed miss in a row, or on its first miss if it was
   * only ever known from the store.
   */
  lemma AbsenceAfterTwoMisses(cfg: Settings, run: Run, key: Key)
    requires cfg.grace == 0 && IsRun(cfg, run) && run != []
    requires Ran(cfg, run, |run| - 1) && key in Working(cfg, run, |run| - 1).tracked
    ensures var i := |run| - 1;
            Sighting(key, false) in run[i].batch <==>
              !SeenAt(run, i, key)
              && (Misses(cfg, run[..i], key) >= 1 || OnlySeeded(cfg, run[..i], key)
                  || exists at :: SeededAt(cfg, run, i, key, at))
  {
    AbsenceOfTracked(cfg, run, |run| - 1, key);
    WorkingMissCounter(cfg, run, key);
  }

  /** Cycle `i` starts the current stretch of misses, at time `at`. */
  ghost predicate MissingFrom(cfg: Settings, run: Run, i: nat, key: Key, at: Time) {
    && i < |run|
    && ((Committed(cfg, run, i) && run[i].cycle.at == at) || SeededAt(cfg, run, i, key, at))
    && UnseenFrom(cfg, run, i, key)
  }

  lemma UnseenStays(cfg: Settings, run: Run, i: nat, key: Key, at: Time)
    requires run != [] && MissingFrom(cfg, run[..|run| - 1], i, key, at)
    requires !(Committed(cfg, run, |run| - 1) && SeenAt(run, |run| - 1, key))
    ensures MissingFrom(cfg, run, i, key, at)
  {
    var n := |run| - 1;
    SameBefore(cfg, run, n, i);
    forall j | i <= j < |run| && Committed(cfg, run, j) ensures !SeenAt(run, j, key) {
      if j < n {
        SameBefore(cfg, run, n, j);
      }
    }
  }

  /** A recorded start of absence is the time of a real miss, unbroken since. */
  lemma {:induction false} MissingSince(cfg: Settings, run: Run, key: Key) returns (i: nat)
    requires key in After(cfg, run).tracked && After(cfg, run).tracked[key].missingSince != NEVER
    ensures MissingFrom(cfg, run, i, key, After(cfg, run).tracked[key].missingSince)
  {
    var n := |run| - 1;
    var t := After(cfg, run).tracked[key];
    assert run[..n + 1] == run;
    EntryAfter(cfg, run, n, key);
    var w := Working(cfg, run, n).tracked[key];
    WorkingEntry(cfg, run, n, key);
    i := n;
    if w.missingSince == t.missingSince && After(cfg, run[..n]).initialized {
      i := MissingSince(cfg, run[..n], key);
      UnseenStays(cfg, run, i, key, t.missingSince);
    }
  }

  /** With a grace period, a process is reported absent only when its unbroken absence has lasted that long. */
  lemma AbsenceAfterGrace(cfg: Settings, run: Run, key: Key) returns (i: nat, since: Time)
    requires cfg.grace > 0 && IsRun(cfg, run) && run != []
    requires Ran(cfg, run, |run| - 1) && key in Working(cfg, run, |run| - 1).tracked
    requires Sighting(key, false) in run[|run| - 1].batch
    ensures run[|run| - 1].cycle.at - since >= cfg.grace && !SeenAt(run, |run| - 1, key)
    ensures MissingFrom(cfg, run[..|run| - 1], i, key, since) || SeededAt(cfg, run, |run| - 1, key, since)
  {
    var n := |run| - 1;
    i, since := n, Working(cfg, run, n).tracked[key].missingSince;
    AbsenceOfTracked(cfg, run, n, key);
    WorkingEntry(cfg, run, n, key);
    if After(cfg, run[..n]).initialized {
      i := MissingSince(cfg, run[..n], key);
    }
  }

  /** When the last of these seeds has last seen the process. */
  function SeedTime(seeds: seq<Seed>, key: Key): Time {
    if seeds == [] then NEVER
    else
      var last := seeds[|seeds| - 1];
      if Seeds(last, key, last.observedAt) then last.observedAt else SeedTime(seeds[..|seeds| - 1], key)
  }

  /** Since when the process has been away, as cycle `i` finds it: the first miss after it was last seen, or before that the store's word. */
  ghost function AwayBefore(cfg: Settings, run: Run, i: nat, key: Key): Time
    requires i < |run|
    decreases i, 1
  {
    if After(cfg, run[..i]).initialized then AwaySince(cfg, run[..i], key)
    else if run[i].cycle.live.Some? then SeedTime(run[i].cycle.live.value, key)
    else NEVER
  }

  ghost function AwaySince(cfg: Settings, run: Run, key: Key): Time
    decreases |run|, 0
  {
    if run == [] then NEVER
    else
      var i := |run| - 1;
      var before := AwayBefore(cfg, run, i, key);
      if !Committed(cfg, run, i) then before
      else if SeenAt(run, i, key) then NEVER
      else if before == NEVER then run[i].cycle.at
      else before
  }

  lemma {:induction false} SeedEntryTime(seeds: seq<Seed>, key: Key)
    requires key in SeedAll(map[], seeds)
    ensures SeedAll(map[], seeds)[key].missingSince == SeedTime(seeds, key)
  {
    var last := seeds[|seeds| - 1];
    if !Seeds(last, key, last.observedAt) {
      SeedEntryTime(seeds[..|seeds| - 1], key);
    }
  }

  lemma WorkingAway(cfg: Settings, run: Run, i: nat, key: Key)
    requires i < |run| && key in Working(cfg, run, i).tracked
    requires After(cfg, run[..i]).initialized ==> After(cfg, run[..i]).tracked[key].missingSince == AwaySince(cfg, run[..i], key)
    ensures Working(cfg, run, i).tracked[key].missingSince == AwayBefore(cfg, run, i, key)
  {
    if !After(cfg, run[..i]).initialized {
      NothingBeforeInitialization(cfg, run[..i], key);
      if run[i].cycle.live.Some? {
        SeedEntryTime(run[i].cycle.live.value, key);
      }
    }
  }

  /** The start of absence noted for a tracked process is the true one. */
  lemma {:induction false} AwayIsNoted(cfg: Settings, run: Run, key: Key)
    requires key in After(cfg, run).tracked
    ensures After(cfg, run).tracked[key].missingSince == AwaySince(cfg, run, key)
  {
    var n := |run| - 1;
    assert run[..n + 1] == run;
    EntryAfter(cfg, run, n, key);
    if key in Working(cfg, run, n).tracked {
      WorkingEntry(cfg, run, n, key);
      if After(cfg, run[..n]).initialized {
        AwayIsNoted(cfg, run[..n], key);
      }
      WorkingAway(cfg, run, n, key);
    }
  }

  /** With a grace period, a process is reported absent exactly when its unbroken absence has lasted that long. */
  lemma AbsenceExactlyAfterGrace(cfg: Settings, run: Run, n: nat, key: Key)
    requires cfg.grace > 0 && IsRun(cfg, run) && n < |run|
    requires Ran(cfg, run, n) && key in Working(cfg, run, n).tracked
    ensures Sighting(key, false) in run[n].batch <==>
            && !SeenAt(run, n, key) && AwayBefore(cfg, run, n, key) != NEVER
            && run[n].cycle.at - AwayBefore(cfg, run, n, key) >= cfg.grace
  {
    AbsenceOfTracked(cfg, run, n, key);
    WorkingEntry(cfg, run, n, key);
    if After(cfg, run[..n]).initialized {
      AwayIsNoted(cfg, run[..n], key);
    }
    WorkingAway(cfg, run, n, key);
  }

  /** A negative grace period keeps every tracked process for good. */
  lemma NegativeGraceNeverRetires(cfg: Settings, s: State, r: Record)
    requires cfg.grace < 0 && SaysRight(cfg, s, r)
    ensures s.tracked.Keys <= Step(cfg, s, r).tracked.Keys
  {
    forall key | key in s.tracked ensures key in Step(cfg, s, r).tracked {
      if key !in Step(cfg, s, r).tracked {
        LeavesTrackedOnlyWhenAbsenceTaken(cfg, s, r, key);
      }
    }
  }

  // ---------------------------------------------------------------- pending absences

  /** The process stays due for retirement, whenever it is looked at from `from` on. */
  ghost predicate Overdue(cfg: Settings, t: Tracked, from: Time) {
    if cfg.grace == 0 then t.missingCount >= MISSING_SNAPSHOTS - 1
    else cfg.grace > 0 && t.missingSince != NEVER && from - t.missingSince >= cfg.grace
  }

  lemma OverdueMeansDue(cfg: Settings, t: Tracked, from: Time, at: Time)
    requires Overdue(cfg, t, from) && from <= at
    ensures Due(cfg, Missed(t, at), at) && Overdue(cfg, Missed(t, at), from)
  {
  }

  /**
   * A store that refuses or fails never makes the tracker forget an absence: as
   * long as the clock does not run backwards and the process stays away, every
   * later cycle that gets to send anything reports it absent again, until the
   * store takes a batch.
   */
  lemma {:induction false} PendingAbsenceIsRepeated(cfg: Settings, run: Run, i: nat, j: nat, key: Key)
    requires IsRun(cfg, run) && i < j < |run|
    requires Ran(cfg, run, i) && key in Working(cfg, run, i).tracked && Sighting(key, false) in run[i].batch
    requires forall k :: i <= k < j ==> !Taken(cfg, run, k)
    requires forall k :: i <= k <= j ==> run[i].cycle.at <= run[k].cycle.at && !SeenAt(run, k, key)
    ensures key in Working(cfg, run, j).tracked
    ensures Ran(cfg, run, j) ==> Sighting(key, false) in run[j].batch
  {
    AbsenceOfTracked(cfg, run, i, key);
    for k := i to j
      invariant key in Working(cfg, run, k).tracked
      invariant Overdue(cfg, Working(cfg, run, k).tracked[key], run[i].cycle.at)
      invariant Working(cfg, run, k).initialized
    {
      OverdueMeansDue(cfg, Working(cfg, run, k).tracked[key], run[i].cycle.at, run[k].cycle.at);
      EntryAfter(cfg, run, k, key);
    }
    OverdueMeansDue(cfg, Working(cfg, run, j).tracked[key], run[i].cycle.at, run[j].cycle.at);
    if Ran(cfg, run, j) {
      AbsenceOfTracked(cfg, run, j, key);
    }
  }

  // ---------------------------------------------------------------- candidates

  /** Candidates change only in a cycle that was recorded, and then are what it held back. */
  lemma CandidatesAfter(cfg: Settings, run: Run, i: nat)
    requires i < |run|
    ensures After(cfg, run[..i + 1]).candidates
            == if Taken(cfg, run, i) then run[i].held else After(cfg, run[..i]).candidates
  {
    assert run[..i + 1][..i] == run[..i];
  }

  /** What it takes to be held back. */
  lemma HeldEntry(cfg: Settings, s: State, c: Cycle, key: Key)
    ensures key in Held(cfg, s, c) <==> key in Sighted(c) && !Confirmed(cfg, s, c, key)
    ensures key in Held(cfg, s, c) ==> Held(cfg, s, c)[key] == FirstSeen(s.candidates, key, c.at)
    ensures key in Current(cfg, s, c) <==> key in Sighted(c) && Confirmed(cfg, s, c, key)
  {
  }

  /** What a cycle of a run holds back is neither tracked nor current, and it remembers when it was first seen. */
  lemma HeldAt(cfg: Settings, run: Run, i: nat, key: Key)
    requires IsRun(cfg, run) && i < |run| && Ran(cfg, run, i) && key in run[i].held
    ensures run[i].held[key] == FirstSeen(After(cfg, run[..i]).candidates, key, run[i].cycle.at)
    ensures key !in Working(cfg, run, i).tracked && key !in run[i].current
  {
    CycleSaysRight(cfg, run, i);
    HeldEntry(cfg, Working(cfg, run, i), run[i].cycle, key);
  }

  /** From cycle `i` on, every recorded cycle saw the process and held it back. */
  ghost predicate HeldFrom(cfg: Settings, run: Run, i: nat, key: Key) {
    && i < |run| && Taken(cfg, run, i)
    && forall j :: i <= j < |run| && Taken(cfg, run, j) ==> key in run[j].held
  }

  lemma HeldStays(cfg: Settings, run: Run, i: nat, key: Key)
    requires run != [] && HeldFrom(cfg, run[..|run| - 1], i, key)
    requires Taken(cfg, run, |run| - 1) ==> key in run[|run| - 1].held
    ensures HeldFrom(cfg, run, i, key)
  {
    var n := |run| - 1;
    SameBefore(cfg, run, n, i);
    forall j | i <= j < |run| && Taken(cfg, run, j) ensures key in run[j].held {
      if j < n {
        SameBefore(cfg, run, n, j);
      }
    }
  }

  /** The time noted for a candidate is that of a recorded cycle, and it was held ever since. */
  lemma {:induction false} CandidateSince(cfg: Settings, run: Run, key: Key) returns (i: nat)
    requires IsRun(cfg, run) && key in After(cfg, run).candidates
    ensures HeldFrom(cfg, run, i, key) && run[i].cycle.at == After(cfg, run).candidates[key]
  {
    var n := |run| - 1;
    assert run[..n + 1] == run;
    CandidatesAfter(cfg, run, n);
    i := n;
    if Taken(cfg, run, n) {
      HeldAt(cfg, run, n, key);
    }
    if key in After(cfg, run[..n]).candidates {
      RunPrefix(cfg, run, n);
      i := CandidateSince(cfg, run[..n], key);
      HeldStays(cfg, run, i, key);
    }
  }

  /** Cycle `i` is the first of the unbroken run of recorded cycles, up to the last one, that held the process back. */
  ghost predicate FirstHeldAt(cfg: Settings, run: Run, i: nat, key: Key) {
    HeldFrom(cfg, run, i, key) && forall j :: 0 <= j < i ==> !HeldFrom(cfg, run, j, key)
  }

  lemma HeldFromPrefix(cfg: Settings, run: Run, i: nat, key: Key)
    requires i < |run| - 1
    ensures HeldFrom(cfg, run, i, key) <==>
            && HeldFrom(cfg, run[..|run| - 1], i, key)
            && (Taken(cfg, run, |run| - 1) ==> key in run[|run| - 1].held)
  {
    var n := |run| - 1;
    SameBefore(cfg, run, n, i);
    if HeldFrom(cfg, run, i, key) {
      forall j | i <= j < n && Taken(cfg, run[..n], j) ensures key in run[..n][j].held {
        SameBefore(cfg, run, n, j);
      }
    }
    if HeldFrom(cfg, run[..n], i, key) && (Taken(cfg, run, n) ==> key in run[n].held) {
      HeldStays(cfg, run, i, key);
    }
  }

  lemma FirstHeldPrefix(cfg: Settings, run: Run, i: nat, key: Key)
    requires i < |run| - 1 && FirstHeldAt(cfg, run[..|run| - 1], i, key)
    requires Taken(cfg, run, |run| - 1) ==> key in run[|run| - 1].held
    ensures FirstHeldAt(cfg, run, i, key)
  {
    HeldFromPrefix(cfg, run, i, key);
    forall j | 0 <= j < i ensures !HeldFrom(cfg, run, j, key) {
      HeldFromPrefix(cfg, run, j, key);
    }
  }

  lemma OneFirstHeld(cfg: Settings, run: Run, i: nat, j: nat, key: Key)
    requires FirstHeldAt(cfg, run, i, key) && FirstHeldAt(cfg, run, j, key)
    ensures i == j
  {
  }

  /** The process is a candidate, noted with the time of cycle `i`. */
  ghost predicate NotedAt(cfg: Settings, run: Run, i: nat, key: Key) {
    FirstHeldAt(cfg, run, i, key) && key in After(cfg, run).candidates && After(cfg, run).candidates[key] == run[i].cycle.at
  }

  /** A process is a candidate exactly if such a run of cycles holds it back, noted with the time of the first of them. */
  lemma {:induction false} CandidateExactly(cfg: Settings, run: Run, key: Key) returns (i: nat)
    requires IsRun(cfg, run)
    ensures key in After(cfg, run).candidates ==> NotedAt(cfg, run, i, key)
    ensures key !in After(cfg, run).candidates ==> forall j: nat :: !HeldFrom(cfg, run, j, key)
  {
    i := 0;
    if run != [] {
      var n := |run| - 1;
      assert run[..n + 1] == run;
      CandidatesAfter(cfg, run, n);
      RunPrefix(cfg, run, n);
      i := CandidateExactly(cfg, run[..n], key);
      if key in After(cfg, run[..n]).candidates && (Taken(cfg, run, n) ==> key in run[n].held) {
        FirstHeldPrefix(cfg, run, i, key);
        if Taken(cfg, run, n) {
          HeldAt(cfg, run, n, key);
        }
      } else if Taken(cfg, run, n) && key in run[n].held {
        HeldAt(cfg, run, n, key);
        forall j | 0 <= j < n ensures !HeldFrom(cfg, run, j, key) {
          HeldFromPrefix(cfg, run, j, key);
        }
        i := n;
      } else {
        forall j: nat ensures !HeldFrom(cfg, run, j, key) {
          if j < n {
            HeldFromPrefix(cfg, run, j, key);
          }
        }
      }
    }
  }

  /** The run of cycles before cycle `n` that held the process back has lasted for the confirmation period. */
  ghost predicate HeldLongEnough(cfg: Settings, run: Run, n: nat, key: Key)
    requires n < |run|
  {
    exists i: nat :: FirstHeldAt(cfg, run[..n], i, key) && run[n].cycle.at - run[i].cycle.at >= cfg.confirmAfter
  }

  lemma CandidateLongEnough(cfg: Settings, run: Run, n: nat, key: Key)
    requires IsRun(cfg, run) && n < |run|
    ensures var candidates := After(cfg, run[..n]).candidates;
            HeldLongEnough(cfg, run, n, key) <==> key in candidates && run[n].cycle.at - candidates[key] >= cfg.confirmAfter
  {
    RunPrefix(cfg, run, n);
    var i := CandidateExactly(cfg, run[..n], key);
    if HeldLongEnough(cfg, run, n, key) {
      var j: nat :| FirstHeldAt(cfg, run[..n], j, key) && run[n].cycle.at - run[j].cycle.at >= cfg.confirmAfter;
      assert HeldFrom(cfg, run[..n], j, key);
      OneFirstHeld(cfg, run[..n], i, j, key);
    }
  }

  /** Something other than time speaks for the process, or none is asked for. */
  ghost predicate VouchedFor(cfg: Settings, s: State, c: Cycle, key: Key) {
    || !c.continuous || cfg.confirmAfter < 0 || key in s.tracked
    || InCatalog(c.catalog, Scanned(c), key) || HasSession(SessionsOf(c), key)
  }

  lemma PresentIfConfirmed(cfg: Settings, s: State, r: Record, key: Key)
    requires SaysRight(cfg, s, r) && Complete(Initialized(s, r.cycle), r.cycle) && key in Sighted(r.cycle)
    ensures var s1 := Initialized(s, r.cycle);
            var long := key in s.candidates && r.cycle.at - s.candidates[key] >= cfg.confirmAfter;
            && (Sighting(key, true) in r.batch <==> VouchedFor(cfg, s1, r.cycle, key) || long)
            && (key in r.held <==> !(VouchedFor(cfg, s1, r.cycle, key) || long))
  {
    InitializingKeepsCandidates(s, r.cycle);
    HeldEntry(cfg, Initialized(s, r.cycle), r.cycle, key);
  }

  /**
   * When an agent in the scan is reported and when it is held back: it is reported present
   * exactly if something vouches for it, or if all recorded cycles since one that lies the
   * confirmation period back have held it. Otherwise it is held.
   */
  lemma ReportedExactlyWhenConfirmed(cfg: Settings, run: Run, n: nat, key: Key)
    requires IsRun(cfg, run) && n < |run| && Ran(cfg, run, n) && key in Sighted(run[n].cycle)
    ensures Sighting(key, true) in run[n].batch <==>
            VouchedFor(cfg, Working(cfg, run, n), run[n].cycle, key) || HeldLongEnough(cfg, run, n, key)
    ensures key in run[n].held <==> Sighting(key, true) !in run[n].batch
  {
    CycleSaysRight(cfg, run, n);
    PresentIfConfirmed(cfg, After(cfg, run[..n]), run[n], key);
    CandidateLongEnough(cfg, run, n, key);
  }

  /** The observation is about this process, or about a session or catalog entry that belongs to it. */
  predicate About(o: Observation, key: Key) {
    match o
    case Sighting(k, _) => k == key
    case Placement(k, _) => k == key
    case Reading(k) => k == key
    case SessionLost(x) => x.harness == key.harness && x.process == Some(ProcessRef(key.pid, key.start))
    case Verification(x) => x.harness == key.harness && x.process == Some(ProcessRef(key.pid, key.start))
    case Listing(e) => e.current && e.pid > 0 && e.pid == key.pid && e.harness == key.harness
  }

  /** The process appears in some observation of the batch. */
  ghost predicate Mentions(batch: seq<Observation>, key: Key) {
    exists o :: o in batch && About(o, key)
  }

  /** In a continuous run, nothing but time can confirm this process. */
  ghost predicate Unvouched(cfg: Settings, s: State, c: Cycle, key: Key) {
    && c.continuous && cfg.confirmAfter >= 0 && key !in s.tracked
    && !InCatalog(c.catalog, Scanned(c), key) && !HasSession(SessionsOf(c), key)
  }

  lemma OnlyTimeConfirms(cfg: Settings, s: State, c: Cycle, key: Key)
    requires Unvouched(cfg, s, c, key) && key in Current(cfg, s, c)
    ensures key in s.candidates && c.at - s.candidates[key] >= cfg.confirmAfter
  {
    HeldEntry(cfg, s, c, key);
  }

  /** Nothing but a sighting, a place or a reading can be about a process that nobody vouches for. */
  lemma NoSessionOrEntry(cfg: Settings, s: State, c: Cycle, key: Key, o: Observation)
    requires Unvouched(cfg, s, c, key) && About(o, key)
    requires IsMeant(s, c, o)
    ensures o.Sighting? || o.Placement? || o.Reading?
  {
  }

  /** Nor can it be reported gone. */
  lemma NotReportedGone(cfg: Settings, s: State, c: Cycle, key: Key)
    requires Unvouched(cfg, s, c, key)
    ensures key !in LostProcesses(s, c)
  {
  }

  /** What is not reported gone and yet seen, placed or read is current. */
  lemma SaidOfCurrent(batch: seq<Observation>, current: set<Key>, retired: set<Key>, lost: iset<Key>, o: Observation, key: Key)
    requires Says(batch, current, retired, lost) && o in batch && About(o, key) && key !in retired && key !in lost
    requires o.Sighting? || o.Placement? || o.Reading?
    ensures key in current
  {
    if o.Sighting? {
      assert o == Sighting(key, o.present);
    }
  }

  lemma OnlyTrackedRetire(cfg: Settings, s: State, r: Record, key: Key)
    requires key !in s.tracked
    ensures key !in RetiredBy(cfg, s, r)
  {
  }

  /** Sessions and entries in a batch are the ones it should report and list. */
  ghost predicate IsMeant(s1: State, c: Cycle, o: Observation) {
    match o
    case SessionLost(x) => x in LostSessions(s1, c)
    case Verification(x) => x in UnverifiedSessions(s1, c)
    case Listing(e) => e in ListingsOf(c.catalog, Scanned(c))
    case _ => true
  }

  lemma SaysWhatIsMeant(cfg: Settings, s: State, r: Record, o: Observation)
    requires SaysRight(cfg, s, r) && o in r.batch
    ensures IsMeant(Initialized(s, r.cycle), r.cycle, o)
  {
  }

  lemma SaysOfProcesses(cfg: Settings, s: State, r: Record)
    requires SaysRight(cfg, s, r) && r.batch != []
    ensures var s1 := Initialized(s, r.cycle);
            && Says(r.batch, r.current.Keys, RetiredBy(cfg, s1, r), LostProcesses(s1, r.cycle))
            && r.current == Current(cfg, s1, r.cycle)
  {
  }

  lemma MentionedIsCurrent(cfg: Settings, s: State, r: Record, key: Key)
    requires SaysRight(cfg, s, r) && Mentions(r.batch, key)
    requires Unvouched(cfg, Initialized(s, r.cycle), r.cycle, key)
    ensures key in Current(cfg, Initialized(s, r.cycle), r.cycle)
  {
    var s1 := Initialized(s, r.cycle);
    var o :| o in r.batch && About(o, key);
    SaysWhatIsMeant(cfg, s, r, o);
    SaysOfProcesses(cfg, s, r);
    NoSessionOrEntry(cfg, s1, r.cycle, key, o);
    NotReportedGone(cfg, s1, r.cycle, key);
    OnlyTrackedRetire(cfg, s1, r, key);
    SaidOfCurrent(r.batch, r.current.Keys, RetiredBy(cfg, s1, r), LostProcesses(s1, r.cycle), o, key);
  }

  lemma MentionedIsCurrentAt(cfg: Settings, run: Run, i: nat, key: Key)
    requires IsRun(cfg, run) && i < |run| && Mentions(run[i].batch, key)
    requires Unvouched(cfg, Working(cfg, run, i), run[i].cycle, key)
    ensures key in Current(cfg, Working(cfg, run, i), run[i].cycle)
  {
    CycleSaysRight(cfg, run, i);
    MentionedIsCurrent(cfg, After(cfg, run[..i]), run[i], key);
  }

  lemma InitializingKeepsCandidates(s: State, c: Cycle)
    ensures Initialized(s, c).candidates == s.candidates
  {
  }

  lemma ConfirmedByTime(cfg: Settings, s: State, s1: State, c: Cycle, key: Key)
    requires s1.candidates == s.candidates && Unvouched(cfg, s1, c, key) && key in Current(cfg, s1, c)
    ensures key in s.candidates && c.at - s.candidates[key] >= cfg.confirmAfter
  {
    OnlyTimeConfirms(cfg, s1, c, key);
  }

  lemma MentionedAt(cfg: Settings, run: Run, i: nat, key: Key)
    requires IsRun(cfg, run) && i < |run| && Mentions(run[i].batch, key)
    requires Unvouched(cfg, Working(cfg, run, i), run[i].cycle, key)
    ensures var candidates := After(cfg, run[..i]).candidates;
            key in candidates && run[i].cycle.at - candidates[key] >= cfg.confirmAfter
  {
    MentionedIsCurrentAt(cfg, run, i, key);
    InitializingKeepsCandidates(After(cfg, run[..i]), run[i].cycle);
    ConfirmedByTime(cfg, After(cfg, run[..i]), Working(cfg, run, i), run[i].cycle, key);
  }

  /**
   * While the tracker runs continuously, a process that nothing else vouches for
   * is not mentioned to the registry before it has been seen, in every recorded
   * cycle, for the whole confirmation period.
   */
  lemma NotMentionedBeforeConfirmation(cfg: Settings, run: Run, key: Key) returns (i: nat)
    requires IsRun(cfg, run) && run != []
    requires Unvouched(cfg, Working(cfg, run, |run| - 1), run[|run| - 1].cycle, key)
    requires Mentions(run[|run| - 1].batch, key)
    ensures HeldFrom(cfg, run[..|run| - 1], i, key)
    ensures run[|run| - 1].cycle.at - run[i].cycle.at >= cfg.confirmAfter
  {
    var n := |run| - 1;
    assert run[..n] == run[..|run| - 1];
    MentionedAt(cfg, run, n, key);
    RunPrefix(cfg, run, n);
    i := CandidateSince(cfg, run[..n], key);
  }

  /** After every recorded cycle, nothing is both tracked and held back. */
  lemma TrackedAndHeldAreDisjoint(cfg: Settings, run: Run)
    requires IsRun(cfg, run) && run != [] && Taken(cfg, run, |run| - 1)
    ensures After(cfg, run).tracked.Keys !! After(cfg, run).candidates.Keys
  {
    var n := |run| - 1;
    assert run[..n + 1] == run;
    CandidatesAfter(cfg, run, n);
    forall key | key in After(cfg, run).candidates ensures key !in After(cfg, run).tracked {
      EntryAfter(cfg, run, n, key);
      HeldAt(cfg, run, n, key);
    }
  }

  lemma TrackedIsNotHeld(cfg: Settings, s: State, r: Record, key: Key)
    requires SaysRight(cfg, s, r) && Complete(Initialized(s, r.cycle), r.cycle) && key in s.tracked
    ensures key !in r.held
  {
    var s1 := Initialized(s, r.cycle);
    SeedsOnlyAdd(s.tracked, if r.cycle.live.Some? then r.cycle.live.value else []);
    assert key in s1.tracked;
    HeldEntry(cfg, s1, r.cycle, key);
  }

  /** A cycle that does not report a tracked process absent keeps it. */
  lemma TrackedStays(cfg: Settings, s: State, r: Record, key: Key)
    requires SaysRight(cfg, s, r) && key in s.tracked
    requires Complete(Initialized(s, r.cycle), r.cycle) && (r.batch == [] || r.cycle.answer == Accepted) ==>
               Sighting(key, false) !in r.batch
    ensures key in Step(cfg, s, r).tracked
  {
    if key !in Step(cfg, s, r).tracked {
      LeavesTrackedOnlyWhenAbsenceTaken(cfg, s, r, key);
    }
  }

  lemma AfterOneMore(cfg: Settings, run: Run, i: nat)
    requires i < |run|
    ensures After(cfg, run[..i + 1]) == Step(cfg, After(cfg, run[..i]), run[i])
  {
    assert run[..i + 1][..i] == run[..i];
  }

  lemma StaysTrackedAt(cfg: Settings, run: Run, i: nat, key: Key)
    requires IsRun(cfg, run) && i < |run| && key in After(cfg, run[..i]).tracked
    requires Taken(cfg, run, i) ==> Sighting(key, false) !in run[i].batch
    ensures key in After(cfg, run[..i + 1]).tracked
  {
    CycleSaysRight(cfg, run, i);
    AfterOneMore(cfg, run, i);
    TrackedStays(cfg, After(cfg, run[..i]), run[i], key);
  }

  lemma NotHeldAt(cfg: Settings, run: Run, i: nat, key: Key)
    requires IsRun(cfg, run) && i < |run| && Ran(cfg, run, i) && key in After(cfg, run[..i]).tracked
    ensures key !in run[i].held
  {
    CycleSaysRight(cfg, run, i);
    TrackedIsNotHeld(cfg, After(cfg, run[..i]), run[i], key);
  }

  /** From cycle `i` on and before cycle `j`, the store has taken no batch that reports the process absent. */
  ghost predicate NotTakenAway(cfg: Settings, run: Run, i: nat, j: nat, key: Key)
    requires i <= j <= |run|
  {
    forall k :: i <= k < j && Taken(cfg, run, k) ==> Sighting(key, false) !in run[k].batch
  }

  lemma NotTakenAwayBefore(cfg: Settings, run: Run, i: nat, j: nat, key: Key)
    requires i < j <= |run| && NotTakenAway(cfg, run, i, j, key)
    ensures NotTakenAway(cfg, run, i, j - 1, key)
    ensures Taken(cfg, run, j - 1) ==> Sighting(key, false) !in run[j - 1].batch
  {
  }

  lemma {:induction false} OnceTrackedAlwaysTracked(cfg: Settings, run: Run, i: nat, j: nat, key: Key)
    requires IsRun(cfg, run) && i <= j <= |run| && key in After(cfg, run[..i]).tracked
    requires NotTakenAway(cfg, run, i, j, key)
    ensures key in After(cfg, run[..j]).tracked
    decreases j
  {
    if i < j {
      NotTakenAwayBefore(cfg, run, i, j, key);
      OnceTrackedAlwaysTracked(cfg, run, i, j - 1, key);
      StaysTrackedAt(cfg, run, j - 1, key);
    }
  }

  /**
   * Once tracked, a process stays tracked and is never held back again, through
   * any cycles, until the store takes a batch that reports it absent.
   */
  lemma OnceTrackedNeverHeld(cfg: Settings, run: Run, i: nat, j: nat, key: Key)
    requires IsRun(cfg, run) && i <= j < |run| && key in After(cfg, run[..i]).tracked
    requires NotTakenAway(cfg, run, i, j, key)
    ensures key in After(cfg, run[..j]).tracked
    ensures Ran(cfg, run, j) ==> key !in run[j].held
  {
    OnceTrackedAlwaysTracked(cfg, run, i, j, key);
    if Ran(cfg, run, j) {
      NotHeldAt(cfg, run, j, key);
    }
  }
}
