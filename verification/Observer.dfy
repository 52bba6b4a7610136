/** The tracker object, whose fields a cycle updates in place. */
module Observer {
  import opened Options
  import opened Processes
  import opened CycleInventory
  import opened Observations
  import opened PanePlacement
  import opened ObserverCycle
  import Sets

  /** The result of `claimCurrentCatalogEntries`: one vouching entry for every vouched PID. */
  ghost predicate ClaimedBy(catalog: seq<CatalogEntry>, byPid: map<int, Process>, claims: map<int, CatalogEntry>) {
    && (forall pid :: pid in claims ==>
          claims[pid] in catalog && claims[pid].current && claims[pid].pid == pid && ListedProcess(claims[pid], byPid))
    && (forall e :: e in catalog && e.current && ListedProcess(e, byPid) ==> e.pid in claims)
  }

  /** `claimCurrentCatalogEntries`: a claim on a PID that runs something else is dropped from the entry. */
  method ClaimCatalog(catalog: seq<CatalogEntry>, byPid: map<int, Process>)
    returns (entries: seq<CatalogEntry>, claims: map<int, CatalogEntry>)
    requires Index(byPid)
    ensures ClaimedBy(catalog, byPid, claims)
    ensures |entries| == |catalog|
    ensures forall i :: 0 <= i < |catalog| ==> entries[i] == EntryOf(catalog[i], byPid)
  {
    entries, claims := catalog, map[];
    for i := 0 to |catalog|
      invariant ClaimedBy(catalog[..i], byPid, claims)
      invariant |entries| == |catalog|
      invariant forall j :: i <= j < |catalog| ==> entries[j] == catalog[j]
      invariant forall j :: 0 <= j < i ==> entries[j] == EntryOf(catalog[j], byPid)
    {
      assert catalog[..i + 1] == catalog[..i] + [catalog[i]];
      var entry := catalog[i];
      if !entry.current || entry.pid <= 0 {
        continue;
      }
      if entry.pid !in byPid || byPid[entry.pid].start == "" || byPid[entry.pid].named !in {None, Some(entry.harness)}
         || byPid[entry.pid].resolved != Some(entry.harness) {
        entries := entries[i := entry.(current := false, pid := 0)];
        continue;
      }
      claims := claims[entry.pid := entry];
    }
    assert catalog[..|catalog|] == catalog;
  }

  /**
   * The process side of a cycle: index, resolve, prune, normalize. `index` is the
   * PID index as catalog entries are checked against it, `byPid` the one used afterwards.
   */
  method Prepare(scan: Scan)
    returns (index: map<int, Process>, processes: seq<Process>, byPid: map<int, Process>, harnessByPid: map<int, Harness>)
    ensures index == IndexOf(scan) && Processes.Index(index) && harnessByPid == Agents(scan)
    ensures Listed(processes, byPid) && HarnessTable(byPid, harnessByPid)
    ensures processes == NormalizedScan(scan) && byPid == Filed(NormalizedScan(scan))
    ensures forall pid :: pid in harnessByPid ==>
              pid in index && byPid[pid] in processes && byPid[pid] == Normalized(index[pid], index, harnessByPid)
    ensures forall p: ProcessRef :: p.pid > 0 ==> (Gone(p, byPid) <==> Gone(p, index))
    ensures forall pid :: pid > 0 ==> (pid in byPid <==> pid in index)
  {
    var inventory := new Inventory(scan);
    IndexIsDetermined(scan, inventory.byPid);
    HarnessesAreDetermined(scan, inventory.byPid, inventory.harnessByPid);
    index := inventory.byPid;
    inventory.PruneNested();
    AgentsAreIndexed(scan);
    inventory.NormalizeForeground();
    processes, byPid, harnessByPid := inventory.processes, inventory.byPid, inventory.harnessByPid;
    forall i, j | 0 <= i < j < |processes| ensures processes[i].pid != processes[j].pid {
      assert processes[i].pid == scan[i].pid && processes[j].pid == scan[j].pid;
    }
    NormalizedIndex(scan, index, harnessByPid, processes, byPid);
    NormalizedIsDetermined(scan, processes);
    FiledIsDetermined(processes, byPid);
  }

  lemma NormalizedIsDetermined(scan: Scan, processes: seq<Process>)
    requires |processes| == |scan|
    requires forall i :: 0 <= i < |scan| ==> processes[i] == Normalized(scan[i], IndexOf(scan), Agents(scan))
    ensures processes == NormalizedScan(scan)
  {
  }

  lemma FiledIsDetermined(processes: Scan, byPid: map<int, Process>)
    requires WellKeyed(byPid)
    requires forall i :: 0 <= i < |processes| ==> processes[i].pid in byPid && byPid[processes[i].pid] == processes[i]
    requires forall pid :: pid in byPid ==> byPid[pid] in processes
    ensures byPid == Filed(processes)
  {
    forall pid | pid in byPid ensures pid in Filed(processes) && Filed(processes)[pid] == byPid[pid] {
      var i :| 0 <= i < |processes| && processes[i] == byPid[pid];
    }
  }

  lemma IndexIsDetermined(scan: Scan, byPid: map<int, Process>)
    requires Snapshot(scan, byPid)
    ensures byPid == IndexOf(scan)
  {
    forall pid | pid in byPid ensures pid in IndexOf(scan) && IndexOf(scan)[pid] == byPid[pid] {
      var i :| 0 <= i < |scan| && scan[i] == byPid[pid];
    }
  }

  lemma HarnessesAreDetermined(scan: Scan, byPid: map<int, Process>, harnessByPid: map<int, Harness>)
    requires Snapshot(scan, byPid) && HarnessTable(byPid, harnessByPid)
    requires forall p :: p in scan ==> (p.pid in harnessByPid <==> p.pid > 0 && p.start != "" && p.resolved.Some?)
    requires forall p :: p in scan && p.pid in harnessByPid ==> p.resolved == Some(harnessByPid[p.pid])
    ensures harnessByPid == Resolved(scan)
  {
    forall pid | pid in harnessByPid ensures pid in Resolved(scan) && Resolved(scan)[pid] == harnessByPid[pid] {
      assert pid in byPid.Keys;
      var i :| 0 <= i < |scan| && scan[i] == byPid[pid];
      assert scan[i] in scan;
    }
    forall pid | pid in Resolved(scan) ensures pid in harnessByPid {
      var i :| 0 <= i < |scan| && scan[i].pid == pid && pid > 0 && scan[i].start != "" && scan[i].resolved.Some?;
      assert scan[i] in scan;
    }
  }

  lemma NormalizedIndex(scan: seq<Process>, index: map<int, Process>, agents: map<int, Harness>,
                        processes: seq<Process>, byPid: map<int, Process>)
    requires Snapshot(scan, index) && HarnessTable(index, agents)
    requires |processes| == |scan| && WellKeyed(byPid)
    requires forall i :: 0 <= i < |scan| ==> processes[i] == Normalized(scan[i], index, agents)
    requires forall i :: 0 <= i < |scan| ==> processes[i].pid in byPid && byPid[processes[i].pid] == processes[i]
    requires forall pid :: pid in byPid && pid > 0 ==> pid in index
    ensures forall pid :: pid in index ==> pid in byPid && byPid[pid] in processes
    ensures forall pid :: pid in index ==> byPid[pid] == Normalized(index[pid], index, agents)
  {
    forall pid | pid in index
      ensures pid in byPid && byPid[pid] in processes && byPid[pid] == Normalized(index[pid], index, agents)
    {
      var i :| 0 <= i < |scan| && scan[i] == index[pid];
      assert processes[i] in processes;
    }
  }

  /** `processSightings`: one present sighting per agent, and the map of what is current. */
  method ProcessSightings(processes: seq<Process>, byPid: map<int, Process>, harnessByPid: map<int, Harness>)
    returns (batch: seq<Observation>, current: map<Key, Process>)
    requires Listed(processes, byPid)
    requires forall pid :: pid in harnessByPid ==> pid in byPid && byPid[pid] in processes
    ensures forall key :: key in current <==>
              key.pid in harnessByPid && key == KeyOf(byPid[key.pid], harnessByPid[key.pid])
    ensures forall key :: key in current ==> current[key] == byPid[key.pid]
    ensures forall o :: o in batch <==> o.Sighting? && o.present && o.key in current
  {
    batch, current := [], map[];
    for i := 0 to |processes|
      invariant forall j :: 0 <= j < i && processes[j].pid in harnessByPid ==>
                  KeyOf(processes[j], harnessByPid[processes[j].pid]) in current
      invariant forall key :: key in current ==>
                  key.pid in harnessByPid && key == KeyOf(byPid[key.pid], harnessByPid[key.pid])
                  && current[key] == byPid[key.pid]
      invariant forall o :: o in batch ==> o.Sighting? && o.present && o.key in current
      invariant forall key :: key in current ==> Sighting(key, true) in batch
    {
      var p := processes[i];
      assert p in processes;
      if p.pid in harnessByPid {
        var key := KeyOf(p, harnessByPid[p.pid]);
        current := current[key := p];
        batch := batch + [Sighting(key, true)];
      }
    }
    forall key: Key | key.pid in harnessByPid && key == KeyOf(byPid[key.pid], harnessByPid[key.pid])
      ensures key in current
    {
      var j :| 0 <= j < |processes| && processes[j] == byPid[key.pid];
    }
  }

  /** `catalogObservations` */
  method CatalogObservations(entries: seq<CatalogEntry>) returns (batch: seq<Observation>)
    ensures forall o :: o in batch <==> o.Listing? && o.entry in entries && o.entry.harness != "" && o.entry.sessionId != ""
  {
    batch := [];
    for i := 0 to |entries|
      invariant forall o :: o in batch <==>
                  o.Listing? && o.entry in entries[..i] && o.entry.harness != "" && o.entry.sessionId != ""
    {
      assert entries[..i + 1] == entries[..i] + [entries[i]];
      if entries[i].harness != "" && entries[i].sessionId != "" {
        batch := batch + [Listing(entries[i])];
      }
    }
    assert entries[..|entries|] == entries;
  }

  lemma ListingsMatch(catalog: seq<CatalogEntry>, byPid: map<int, Process>, entries: seq<CatalogEntry>, batch: seq<Observation>)
    requires |entries| == |catalog| && forall i :: 0 <= i < |catalog| ==> entries[i] == EntryOf(catalog[i], byPid)
    requires forall o :: o in batch <==>
               o.Listing? && o.entry in entries && o.entry.harness != "" && o.entry.sessionId != ""
    ensures Lists(batch, ListingsOf(catalog, byPid))
  {
    forall e | e in ListingsOf(catalog, byPid) ensures Listing(e) in batch {
      var c :| c in catalog && c.harness != "" && c.sessionId != "" && EntryOf(c, byPid) == e;
      var i :| 0 <= i < |catalog| && catalog[i] == c;
      assert entries[i] == e;
    }
    forall e | Listing(e) in batch ensures e in ListingsOf(catalog, byPid) {
      assert Listing(e).entry in entries;
      var i :| 0 <= i < |entries| && entries[i] == e;
      assert catalog[i] in catalog && EntryOf(catalog[i], byPid) == e;
    }
  }

  /** A pane only ever selects a process that still carries a harness. */
  method SettleSelections(panes: seq<Pane>, harnessByPid: map<int, Harness>) returns (settled: seq<Pane>)
    ensures settled == AllCleared(panes, harnessByPid.Keys)
  {
    settled := [];
    for i := 0 to |panes|
      invariant settled == AllCleared(panes, harnessByPid.Keys)[..i]
    {
      var pane := panes[i];
      settled := settled + [if pane.selected.Some? && pane.selected.value !in harnessByPid
                            then pane.(selected := None) else pane];
    }
  }

  /** An index whose agents are the normalized ones of `index`. */
  ghost predicate AgentIndex(index: map<int, Process>, agents: map<int, Harness>, byPid: map<int, Process>) {
    forall pid :: pid in agents ==>
      pid in byPid && pid in index && index[pid].pid == pid && byPid[pid] == Normalized(index[pid], index, agents)
  }

  lemma ByKeyIn(index: map<int, Process>, agents: map<int, Harness>, byPid: map<int, Process>, key: Key)
    requires AgentIndex(index, agents, byPid)
    ensures key in ByKey(index, agents) <==> key.pid in agents && key == KeyOf(byPid[key.pid], agents[key.pid])
    ensures key in ByKey(index, agents) ==> ByKey(index, agents)[key] == byPid[key.pid]
  {
    ByKeyAt(index, agents, key);
  }

  /** `kept` is the part of `agents` whose keys are confirmed. */
  ghost predicate KeptBy(byPid: map<int, Process>, agents: map<int, Harness>, kept: map<int, Harness>, confirmed: set<Key>) {
    && kept.Keys <= agents.Keys <= byPid.Keys
    && (forall pid :: pid in kept ==> kept[pid] == agents[pid])
    && (forall pid :: pid in agents ==> (pid in kept <==> KeyOf(byPid[pid], agents[pid]) in confirmed))
  }

  lemma CurrentMatches(index: map<int, Process>, agents: map<int, Harness>, byPid: map<int, Process>,
                       kept: map<int, Harness>, confirmed: set<Key>, current: map<Key, Process>)
    requires AgentIndex(index, agents, byPid) && KeptBy(byPid, agents, kept, confirmed)
    requires forall key :: key in current <==> key.pid in kept && key == KeyOf(byPid[key.pid], kept[key.pid])
    requires forall key :: key in current ==> current[key] == byPid[key.pid]
    ensures current == CurrentOf(ByKey(index, agents), confirmed)
  {
    forall key { ByKeyIn(index, agents, byPid, key); }
  }

  lemma HeldMatches(index: map<int, Process>, agents: map<int, Harness>, byPid: map<int, Process>,
                    kept: map<int, Harness>, confirmed: set<Key>, candidates: map<Key, Time>, at: Time,
                    pending: map<Key, Time>)
    requires AgentIndex(index, agents, byPid) && KeptBy(byPid, agents, kept, confirmed)
    requires forall key :: key in pending <==>
               key.pid in agents && key.pid !in kept && key == KeyOf(byPid[key.pid], agents[key.pid])
    requires forall key :: key in pending ==> pending[key] == FirstSeen(candidates, key, at)
    ensures pending == HeldOf(ByKey(index, agents), confirmed, candidates, at)
  {
    forall key { ByKeyIn(index, agents, byPid, key); }
  }

  lemma KeptIsConfirmed(index: map<int, Process>, agents: map<int, Harness>, byPid: map<int, Process>,
                        kept: map<int, Harness>, confirmed: iset<Key>)
    requires AgentIndex(index, agents, byPid)
    requires kept.Keys <= agents.Keys && forall pid :: pid in kept ==> kept[pid] == agents[pid]
    requires forall pid :: pid in agents ==> (pid in kept <==> KeyOf(byPid[pid], agents[pid]) in confirmed)
    ensures KeptBy(byPid, agents, kept, Among(ByKey(index, agents), confirmed))
  {
    assert forall pid :: pid in agents.Keys ==> pid in agents && pid in byPid.Keys;
    forall pid | pid in agents ensures KeyOf(byPid[pid], agents[pid]) in ByKey(index, agents) {
      ByKeyIn(index, agents, byPid, KeyOf(byPid[pid], agents[pid]));
    }
  }

  lemma KeptMatches(index: map<int, Process>, agents: map<int, Harness>, byPid: map<int, Process>,
                    kept: map<int, Harness>, confirmed: iset<Key>)
    requires AgentIndex(index, agents, byPid)
    requires kept.Keys <= agents.Keys && forall pid :: pid in kept ==> kept[pid] == agents[pid]
    requires forall pid :: pid in agents ==> (pid in kept <==> KeyOf(byPid[pid], agents[pid]) in confirmed)
    ensures kept == KeptAmong(index, agents, confirmed)
  {
    var all := KeptAmong(index, agents, confirmed);
    forall pid | pid in agents ensures pid in kept <==> pid in all {
      assert KeyOf(byPid[pid], agents[pid]) == KeyOf(index[pid], agents[pid]);
    }
    forall pid ensures (pid in kept <==> pid in all) && (pid in kept ==> kept[pid] == all[pid]) {
      assert pid in kept.Keys ==> pid in agents.Keys;
    }
  }

  /** The parts of a batch, in the order they are put together. */
  datatype Parts = Parts(sightings: seq<Observation>, placements: seq<Observation>, listings: seq<Observation>,
                         gone: seq<Observation>, reconciled: seq<Observation>)
  {
    function Whole(): seq<Observation> {
      sightings + placements + listings + gone + reconciled
    }

    /** Each part holds only observations of its own kinds. */
    ghost predicate Sorted() {
      && (forall o :: o in sightings ==> o.Sighting? && o.present)
      && (forall o :: o in placements ==> o.Placement? || o.Reading?)
      && (forall o :: o in listings ==> o.Listing?)
      && (forall o :: o in gone ==> o.Sighting? && !o.present)
      && (forall o :: o in reconciled ==> (o.Sighting? && !o.present) || o.SessionLost? || o.Verification?)
    }

    lemma Members()
      ensures forall o :: o in Whole() <==>
                o in sightings || o in placements || o in listings || o in gone || o in reconciled
    {
    }

    /** Only one part places anything. */
    lemma Counts(pid: int)
      requires Sorted()
      ensures Placements(Whole(), pid) == Placements(placements, pid) && Readings(Whole(), pid) == Readings(placements, pid)
    {
      NothingPlaced(sightings, pid);
      NothingPlaced(listings, pid);
      NothingPlaced(gone, pid);
      NothingPlaced(reconciled, pid);
      CountsAdd(sightings, placements, pid);
      CountsAdd(sightings + placements, listings, pid);
      CountsAdd(sightings + placements + listings, gone, pid);
      CountsAdd(sightings + placements + listings + gone, reconciled, pid);
    }
  }

  /** The parts of a batch put together say about processes what the cycle calls for. */
  lemma BatchAssembles(b: Parts, current: set<Key>, retired: set<Key>, lost: iset<Key>)
    requires b.Sorted()
    requires forall o :: o in b.sightings <==> o.Sighting? && o.present && o.key in current
    requires forall o :: o in b.placements ==> o.key in current
    requires AbsencesOf(b.gone, retired)
    requires forall key :: Sighting(key, false) in b.reconciled <==> key in lost
    ensures Says(b.Whole(), current, retired, lost)
  {
    b.Members();
  }

  lemma BatchSettles(b: Parts, lost: iset<Session>, unverified: iset<Session>)
    requires b.Sorted() && Settles(b.reconciled, lost, unverified)
    ensures Settles(b.Whole(), lost, unverified)
  {
    b.Members();
  }

  lemma BatchPlacesRight(b: Parts, panes: seq<Pane>, complete: bool, unreadable: set<int>, processes: seq<Process>,
                         byPid: map<int, Process>, kept: map<int, Harness>)
    requires b.Sorted() && PlacedRight(b.placements, panes, complete, unreadable, processes, byPid, kept)
    ensures PlacedRight(b.Whole(), panes, complete, unreadable, processes, byPid, kept)
  {
    b.Members();
    forall pid { b.Counts(pid); }
  }

  lemma BatchLists(b: Parts, entries: set<CatalogEntry>)
    requires b.Sorted() && Lists(b.listings, entries)
    ensures Lists(b.Whole(), entries)
  {
    b.Members();
  }

  lemma BatchPlaces(b: Parts, current: set<Key>, complete: bool)
    requires b.Sorted() && PlacesEach(b.placements, current, complete)
    ensures PlacesEach(b.Whole(), current, complete)
  {
    forall key | key in current { b.Counts(key.pid); }
  }

  /** The batch reports exactly these processes absent, and nothing else. */
  ghost predicate AbsencesOf(batch: seq<Observation>, retired: set<Key>) {
    forall o :: o in batch <==> o.Sighting? && !o.present && o.key in retired
  }

  lemma AddAbsence(batch: seq<Observation>, retired: set<Key>, key: Key)
    requires AbsencesOf(batch, retired)
    ensures AbsencesOf(batch + [Sighting(key, false)], retired + {key})
  {
  }

  /** The result of `retireMissingProcesses` while the tracked processes in `rest` are still to come. */
  ghost predicate Walked(cfg: Settings, tracked: map<Key, Tracked>, rest: set<Key>, current: map<Key, Process>,
                         at: Time, next: map<Key, Tracked>, retired: set<Key>) {
    next == NextOf(tracked - rest, current, at) && retired == RetiredOf(cfg, tracked - rest, current, at)
  }

  lemma OneMoreMissing(cfg: Settings, tracked: map<Key, Tracked>, rest: set<Key>, current: map<Key, Process>,
                       at: Time, key: Key, next: map<Key, Tracked>, retired: set<Key>)
    requires key in rest && key in tracked && Walked(cfg, tracked, rest, current, at, next, retired)
    ensures key in current ==> Walked(cfg, tracked, rest - {key}, current, at, next, retired)
    ensures key !in current ==>
              var missed := Missed(tracked[key], at);
              Walked(cfg, tracked, rest - {key}, current, at, next[key := missed],
                     if Due(cfg, missed, at) then retired + {key} else retired)
  {
    assert tracked - (rest - {key}) == (tracked - rest)[key := tracked[key]];
  }

  lemma NothingWalked(cfg: Settings, tracked: map<Key, Tracked>, current: map<Key, Process>, at: Time)
    ensures Walked(cfg, tracked, tracked.Keys, current, at, map key | key in current :: Tracked(current[key], NEVER, 0), {})
  {
  }

  lemma AllWalked(cfg: Settings, tracked: map<Key, Tracked>, current: map<Key, Process>, at: Time,
                  next: map<Key, Tracked>, retired: set<Key>)
    requires Walked(cfg, tracked, {}, current, at, next, retired)
    ensures next == NextOf(tracked, current, at) && retired == RetiredOf(cfg, tracked, current, at)
  {
    assert tracked - {} == tracked;
  }

  /** What is to be said about one session. */
  ghost function ReportOn(x: Session, s: State, byPid: map<int, Process>): seq<Observation> {
    if x.gone || IsTracked(s.tracked, x) then []
    else if x.process.Some? && CompleteRef(x.process.value) then
      if Gone(x.process.value, byPid) then [Sighting(RefKey(x.harness, x.process.value), false)] else []
    else if PaneGone(x, byPid) then [SessionLost(x)]
    else if x.unsettled then [Verification(x)]
    else []
  }

  lemma SameReport(x: Session, s: State, a: map<int, Process>, b: map<int, Process>)
    requires forall p: ProcessRef :: p.pid > 0 ==> (Gone(p, a) <==> Gone(p, b))
    requires forall pid :: pid > 0 ==> (pid in a <==> pid in b)
    ensures ReportOn(x, s, a) == ReportOn(x, s, b)
  {
  }

  /** The batch consists of the reports on these sessions. */
  ghost predicate Reports(batch: seq<Observation>, sessions: seq<Session>, s: State, byPid: map<int, Process>) {
    forall o :: o in batch <==> exists j :: 0 <= j < |sessions| && o in ReportOn(sessions[j], s, byPid)
  }

  lemma OneMoreReport(batch: seq<Observation>, sessions: seq<Session>, x: Session, s: State, byPid: map<int, Process>)
    requires Reports(batch, sessions, s, byPid)
    ensures Reports(batch + ReportOn(x, s, byPid), sessions + [x], s, byPid)
  {
    var (more, all) := (batch + ReportOn(x, s, byPid), sessions + [x]);
    forall o | o in more ensures exists j :: 0 <= j < |all| && o in ReportOn(all[j], s, byPid) {
      if o in batch {
        var j :| 0 <= j < |sessions| && o in ReportOn(sessions[j], s, byPid);
        assert all[j] == sessions[j];
      } else {
        assert all[|sessions|] == x;
      }
    }
    forall j, o | 0 <= j < |all| && o in ReportOn(all[j], s, byPid) ensures o in more {
      if j < |sessions| {
        assert all[j] == sessions[j];
      }
    }
  }

  /** An observation is made if and only if some session calls for it. */
  lemma Reported(batch: seq<Observation>, sessions: seq<Session>, s: State, byPid: map<int, Process>, o: Observation)
    requires Reports(batch, sessions, s, byPid)
    ensures o in batch <==> exists x :: x in sessions && o in ReportOn(x, s, byPid)
  {
    if o in batch {
      var j :| 0 <= j < |sessions| && o in ReportOn(sessions[j], s, byPid);
      assert sessions[j] in sessions;
    }
  }

  lemma LostReported(batch: seq<Observation>, s: State, c: Cycle, key: Key)
    requires Reports(batch, SessionsOf(c), s, Scanned(c))
    ensures Sighting(key, false) in batch <==> key in LostProcesses(s, c)
  {
    Reported(batch, SessionsOf(c), s, Scanned(c), Sighting(key, false));
    if key in LostProcesses(s, c) {
      var x :| Untracked(s, c, x) && x.harness == key.harness && x.process == Some(ProcessRef(key.pid, key.start));
      assert RefKey(x.harness, x.process.value) == key;
      assert Sighting(key, false) in ReportOn(x, s, Scanned(c));
    }
  }

  /** What is said about one session names no other. */
  lemma ReportNames(x: Session, s: State, byPid: map<int, Process>, y: Session)
    ensures SessionLost(y) in ReportOn(x, s, byPid) <==> y == x && !x.gone && !IsTracked(s.tracked, x) && PaneGone(x, byPid)
    ensures Verification(y) in ReportOn(x, s, byPid) <==>
              && y == x && !x.gone && !IsTracked(s.tracked, x) && !PaneGone(x, byPid)
              && x.unsettled && !(x.process.Some? && CompleteRef(x.process.value))
  {
  }

  lemma LostSessionReported(batch: seq<Observation>, s: State, c: Cycle, x: Session)
    requires Reports(batch, SessionsOf(c), s, Scanned(c))
    ensures SessionLost(x) in batch <==> x in LostSessions(s, c)
  {
    var byPid := Scanned(c);
    Reported(batch, SessionsOf(c), s, byPid, SessionLost(x));
    forall y: Session { ReportNames(y, s, byPid, x); }
  }

  lemma UnverifiedReported(batch: seq<Observation>, s: State, c: Cycle, x: Session)
    requires Reports(batch, SessionsOf(c), s, Scanned(c))
    ensures Verification(x) in batch <==> x in UnverifiedSessions(s, c)
  {
    var byPid := Scanned(c);
    Reported(batch, SessionsOf(c), s, byPid, Verification(x));
    forall y: Session { ReportNames(y, s, byPid, x); }
  }

  /** The reports on all sessions are the processes lost, the sessions lost and those unverified. */
  lemma ReportsMean(s: State, c: Cycle, batch: seq<Observation>)
    requires Reports(batch, SessionsOf(c), s, Scanned(c))
    ensures forall key :: Sighting(key, false) in batch <==> key in LostProcesses(s, c)
    ensures Settles(batch, LostSessions(s, c), UnverifiedSessions(s, c))
    ensures forall o :: o in batch ==> (o.Sighting? && !o.present) || o.SessionLost? || o.Verification?
  {
    forall key { LostReported(batch, s, c, key); }
    forall x: Session { LostSessionReported(batch, s, c, x); }
    forall x: Session { UnverifiedReported(batch, s, c, x); }
    forall o | o in batch ensures (o.Sighting? && !o.present) || o.SessionLost? || o.Verification? {
      Reported(batch, SessionsOf(c), s, Scanned(c), o);
    }
  }

  class Observer {
    const settings: Settings
    var initialized: bool
    var tracked: map<Key, Tracked>
    var candidates: map<Key, Time>

    ghost function Abs(): State
      reads this
    {
      State(initialized, tracked, candidates)
    }

    constructor (settings: Settings)
      ensures Abs() == FRESH && this.settings == settings
    {
      this.settings := settings;
      initialized, tracked, candidates := false, map[], map[];
    }

    /** `initializeTracked` */
    method InitializeTracked(c: Cycle) returns (ok: bool)
      modifies this
      ensures Abs() == Initialized(old(Abs()), c)
      ensures ok <==> initialized
    {
      if initialized {
        return true;
      }
      if c.live.None? {
        return false;
      }
      var seeds := c.live.value;
      for i := 0 to |seeds|
        invariant tracked == SeedAll(old(tracked), seeds[..i])
        invariant candidates == old(candidates) && initialized == old(initialized)
      {
        assert seeds[..i + 1][..i] == seeds[..i];
        var seed := seeds[i];
        if !seed.present || !CompleteRef(ProcessRef(seed.process.pid, seed.process.start)) {
          continue;
        }
        tracked := tracked[KeyOf(seed.process, seed.harness)
                           := Tracked(seed.process, seed.observedAt, MISSING_SNAPSHOTS - 1)];
      }
      assert seeds[..|seeds|] == seeds;
      initialized := true;
      return true;
    }

    /** `processConfirmed`; `claims` are the current catalog entries by PID. */
    method ProcessConfirmed(key: Key, c: Cycle, claims: map<int, CatalogEntry>) returns (confirmed: bool)
      requires ClaimedBy(c.catalog, Scanned(c), claims)
      ensures confirmed <==> key in AllConfirmed(settings, Abs(), c)
    {
      if !c.continuous || settings.confirmAfter < 0 || key in tracked {
        return true;
      }
      if key.pid in claims && claims[key.pid].harness == key.harness {
        return true;
      }
      var sessions := SessionsOf(c);
      for i := 0 to |sessions|
        invariant forall j :: 0 <= j < i ==>
          !(sessions[j].harness == key.harness && sessions[j].process == Some(ProcessRef(key.pid, key.start)))
      {
        if sessions[i].harness == key.harness && sessions[i].process == Some(ProcessRef(key.pid, key.start)) {
          assert sessions[i] in sessions;
          return true;
        }
      }
      return key in candidates && c.at - candidates[key] >= settings.confirmAfter;
    }

    /**
     * `holdUnconfirmedProcesses`: unconfirmed agents are deleted from the harness
     * table while it is walked, in whatever order the map yields its entries.
     */
    method HoldUnconfirmed(c: Cycle, claims: map<int, CatalogEntry>, byPid: map<int, Process>,
                           harnessByPid: map<int, Harness>)
      returns (pending: map<Key, Time>, kept: map<int, Harness>)
      requires ClaimedBy(c.catalog, Scanned(c), claims)
      requires HarnessTable(byPid, harnessByPid) && WellKeyed(byPid)
      ensures kept.Keys <= harnessByPid.Keys && forall pid :: pid in kept ==> kept[pid] == harnessByPid[pid]
      ensures forall pid :: pid in harnessByPid ==>
                (pid in kept <==> KeyOf(byPid[pid], harnessByPid[pid]) in AllConfirmed(settings, Abs(), c))
      ensures forall key :: key in pending <==>
                key.pid in harnessByPid && key.pid !in kept && key == KeyOf(byPid[key.pid], harnessByPid[key.pid])
      ensures forall key :: key in pending ==> pending[key] == FirstSeen(candidates, key, c.at)
    {
      pending, kept := map[], harnessByPid;
      var rest := harnessByPid.Keys;
      while rest != {}
        invariant rest <= kept.Keys <= harnessByPid.Keys
        invariant forall pid :: pid in kept ==> kept[pid] == harnessByPid[pid]
        invariant forall pid :: pid in harnessByPid.Keys - rest ==>
                    (pid in kept <==> KeyOf(byPid[pid], harnessByPid[pid]) in AllConfirmed(settings, Abs(), c))
        invariant forall key :: key in pending <==>
                    key.pid in harnessByPid && key.pid !in kept && key == KeyOf(byPid[key.pid], harnessByPid[key.pid])
        invariant forall key :: key in pending ==> pending[key] == FirstSeen(candidates, key, c.at)
        decreases |rest|
      {
        ghost var member := Sets.SomeMember(rest);
        var pid :| pid in rest;
        rest := rest - {pid};
        var key := KeyOf(byPid[pid], harnessByPid[pid]);
        var confirmed := ProcessConfirmed(key, c, claims);
        if confirmed {
          continue;
        }
        pending := pending[key := FirstSeen(candidates, key, c.at)];
        kept := kept - {pid};
      }
    }

    /** `retireMissingProcesses`, walking the tracked processes in any order. */
    method RetireMissing(current: map<Key, Process>, at: Time)
      returns (batch: seq<Observation>, next: map<Key, Tracked>, retired: set<Key>)
      ensures next == NextOf(tracked, current, at) && retired == RetiredOf(settings, tracked, current, at)
      ensures AbsencesOf(batch, retired)
    {
      batch, retired := [], {};
      next := map key | key in current :: Tracked(current[key], NEVER, 0);
      var rest := tracked.Keys;
      NothingWalked(settings, tracked, current, at);
      while rest != {}
        invariant rest <= tracked.Keys
        invariant Walked(settings, tracked, rest, current, at, next, retired)
        invariant AbsencesOf(batch, retired)
        decreases |rest|
      {
        ghost var member := Sets.SomeMember(rest);
        var key :| key in rest;
        OneMoreMissing(settings, tracked, rest, current, at, key, next, retired);
        rest := rest - {key};
        if key in current {
          continue;
        }
        var missed := Missed(tracked[key], at);
        next := next[key := missed];
        if Due(settings, missed, at) {
          AddAbsence(batch, retired, key);
          batch := batch + [Sighting(key, false)];
          retired := retired + {key};
        }
      }
      AllWalked(settings, tracked, current, at, next, retired);
    }

    /** `isProcessTracked` */
    method IsProcessTracked(x: Session) returns (covered: bool)
      ensures covered <==> IsTracked(tracked, x)
    {
      if x.process.None? {
        return false;
      }
      return exists key :: key in tracked.Keys && Covers(key, x.harness, x.process.value);
    }

    /**
     * `reconcileUnobservedSessions`: sessions outside the tracked set whose owner
     * the scan proves gone, and sessions whose location verdict changed.
     */
    method ReconcileSessions(c: Cycle, byPid: map<int, Process>) returns (batch: seq<Observation>)
      requires forall p: ProcessRef :: p.pid > 0 ==> (Gone(p, byPid) <==> Gone(p, Scanned(c)))
      requires forall pid :: pid > 0 ==> (pid in byPid <==> pid in Scanned(c))
      ensures forall key :: Sighting(key, false) in batch <==> key in LostProcesses(Abs(), c)
      ensures Settles(batch, LostSessions(Abs(), c), UnverifiedSessions(Abs(), c))
      ensures forall o :: o in batch ==> (o.Sighting? && !o.present) || o.SessionLost? || o.Verification?
    {
      batch := [];
      var sessions := SessionsOf(c);
      for i := 0 to |sessions|
        invariant Reports(batch, sessions[..i], Abs(), Scanned(c))
      {
        var x := sessions[i];
        assert sessions[..i + 1] == sessions[..i] + [x];
        var report := Reconcile(x, byPid);
        SameReport(x, Abs(), byPid, Scanned(c));
        OneMoreReport(batch, sessions[..i], x, Abs(), Scanned(c));
        batch := batch + report;
      }
      assert sessions[..|sessions|] == sessions;
      ReportsMean(Abs(), c, batch);
    }

    /** One session of `reconcileUnobservedSessions` */
    method Reconcile(x: Session, byPid: map<int, Process>) returns (report: seq<Observation>)
      ensures report == ReportOn(x, Abs(), byPid)
    {
      var covered := IsProcessTracked(x);
      if x.gone || covered {
        return [];
      }
      if x.process.Some? && CompleteRef(x.process.value) {
        return if Gone(x.process.value, byPid) then [Sighting(RefKey(x.harness, x.process.value), false)] else [];
      }
      if x.process.None? && x.panePid > 0 && x.panePid !in byPid {
        return [SessionLost(x)];
      }
      return if x.unsettled then [Verification(x)] else [];
    }

    /** The catalog side of a cycle: which entries vouch, and what is listed. */
    method ListCatalog(c: Cycle, index: map<int, Process>) returns (listings: seq<Observation>, claims: map<int, CatalogEntry>)
      requires Index(index) && index == Scanned(c)
      ensures ClaimedBy(c.catalog, Scanned(c), claims)
      ensures Lists(listings, ListingsOf(c.catalog, Scanned(c))) && forall o :: o in listings ==> o.Listing?
    {
      var entries;
      entries, claims := ClaimCatalog(c.catalog, index);
      listings := CatalogObservations(entries);
      ListingsMatch(c.catalog, index, entries, listings);
    }

    /** Which agents of the scan are current, and which are held back. */
    method SeeAgents(c: Cycle, index: map<int, Process>, processes: seq<Process>, byPid: map<int, Process>,
                     agents: map<int, Harness>, claims: map<int, CatalogEntry>)
      returns (pending: map<Key, Time>, kept: map<int, Harness>, sightings: seq<Observation>, current: map<Key, Process>)
      requires index == Scanned(c) && Index(index) && agents == Agents(ScanOf(c))
      requires ClaimedBy(c.catalog, Scanned(c), claims)
      requires Listed(processes, byPid) && HarnessTable(byPid, agents)
      requires forall pid :: pid in agents ==>
                 pid in index && byPid[pid] in processes && byPid[pid] == Normalized(index[pid], index, agents)
      ensures current == Current(settings, Abs(), c) && pending == Held(settings, Abs(), c)
      ensures forall o :: o in sightings <==> o.Sighting? && o.present && o.key in current
      ensures HarnessTable(byPid, kept) && forall pid :: pid in kept ==> byPid[pid] in processes
      ensures kept == Kept(settings, Abs(), c)
      ensures forall key :: key in current <==> key.pid in kept && key == KeyOf(byPid[key.pid], kept[key.pid])
    {
      pending, kept := HoldUnconfirmed(c, claims, byPid, agents);
      sightings, current := ProcessSightings(processes, byPid, kept);
      KeptIsConfirmed(index, agents, byPid, kept, AllConfirmed(settings, Abs(), c));
      ghost var confirmed := ConfirmedKeys(settings, Abs(), c);
      CurrentMatches(index, agents, byPid, kept, confirmed, current);
      HeldMatches(index, agents, byPid, kept, confirmed, candidates, c.at, pending);
      KeptMatches(index, agents, byPid, kept, AllConfirmed(settings, Abs(), c));
    }

    /** Where the current agents are. */
    method PlaceCurrent(c: Cycle, processes: seq<Process>, byPid: map<int, Process>, kept: map<int, Harness>,
                        current: map<Key, Process>)
      returns (placements: seq<Observation>)
      requires Listed(processes, byPid) && HarnessTable(byPid, kept) && forall pid :: pid in kept ==> byPid[pid] in processes
      requires forall key :: key in current <==> key.pid in kept && key == KeyOf(byPid[key.pid], kept[key.pid])
      ensures PlacesEach(placements, current.Keys, c.panesComplete)
      ensures PlacedRight(placements, AllCleared(c.panes, kept.Keys), c.panesComplete, c.unreadable, processes, byPid, kept)
      ensures forall o :: o in placements ==> (o.Placement? || o.Reading?) && o.key in current
    {
      var panes := SettleSelections(c.panes, kept);
      placements := PlaceAgents(panes, c.panesComplete, processes, byPid, kept, c.unreadable);
    }

    /** What a complete cycle sends, and what it will remember if the store takes it. */
    method Observe(c: Cycle)
      returns (batch: seq<Observation>, current: map<Key, Process>, pending: map<Key, Time>, next: map<Key, Tracked>, retired: set<Key>)
      ensures current == Current(settings, Abs(), c) && pending == Held(settings, Abs(), c)
      ensures next == NextOf(tracked, current, c.at) && retired == RetiredOf(settings, tracked, current, c.at)
      ensures Says(batch, current.Keys, retired, LostProcesses(Abs(), c))
      ensures Settles(batch, LostSessions(Abs(), c), UnverifiedSessions(Abs(), c))
      ensures PlacesEach(batch, current.Keys, c.panesComplete)
      ensures Lists(batch, ListingsOf(c.catalog, Scanned(c)))
      ensures PlacesRight(batch, c, Kept(settings, Abs(), c))
    {
      var index, processes, byPid, agents := Prepare(ScanOf(c));
      var listings, claims := ListCatalog(c, index);
      var kept, sightings;
      pending, kept, sightings, current := SeeAgents(c, index, processes, byPid, agents, claims);
      var placements := PlaceCurrent(c, processes, byPid, kept, current);
      var gone;
      gone, next, retired := RetireMissing(current, c.at);
      var reconciled := ReconcileSessions(c, byPid);
      var parts := Parts(sightings, placements, listings, gone, reconciled);
      batch := parts.Whole();
      BatchAssembles(parts, current.Keys, retired, LostProcesses(Abs(), c));
      BatchSettles(parts, LostSessions(Abs(), c), UnverifiedSessions(Abs(), c));
      BatchPlaces(parts, current.Keys, c.panesComplete);
      BatchPlacesRight(parts, AllCleared(c.panes, kept.Keys), c.panesComplete, c.unreadable, processes, byPid, kept);
      BatchLists(parts, ListingsOf(c.catalog, Scanned(c)));
    }

    /**
     * `runCycle`: the batch is what the cycle sent to the store (nothing if it
     * stopped early), and the fields afterwards are the step for that batch.
     */
    method RunCycle(c: Cycle) returns (batch: seq<Observation>, current: map<Key, Process>, pending: map<Key, Time>)
      modifies this
      ensures Possible(settings, old(Abs()), Record(c, current, pending, batch))
      ensures Abs() == Step(settings, old(Abs()), Record(c, current, pending, batch))
    {
      var ok := InitializeTracked(c);
      if !ok || c.scan.None? || c.sessions.None? {
        return [], map[], map[];
      }
      var next, retired;
      batch, current, pending, next, retired := Observe(c);
      RecordObservations(batch, c.answer, next, retired, pending);
    }

    /** `recordObservations`: the fields change only as far as the store's answer allows. */
    method RecordObservations(batch: seq<Observation>, answer: Answer, next: map<Key, Tracked>, retired: set<Key>,
                              pending: map<Key, Time>)
      modifies this
      ensures Abs() == Settled(old(Abs()), batch != [], answer, next, retired, pending)
    {
      if |batch| > 0 && answer != Accepted {
        if answer == Conflict {
          tracked := next;
        }
        return;
      }
      tracked := next - retired;
      candidates := pending;
    }
  }

  function RefKey(harness: Harness, p: ProcessRef): Key {
    Key(harness, p.pid, p.start)
  }
}
