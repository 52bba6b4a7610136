/** The messages a tracker cycle sends to the registry. */
module Observations {
  import opened Options
  import opened Processes

  /** A process identity together with the harness it was matched to. */
  datatype Key = Key(harness: Harness, pid: int, start: string)

  datatype ProcessRef = ProcessRef(pid: int, start: string)

  /**
   * A known session. `unsettled` says that the location check of this cycle
   * reached a verdict the session does not carry yet.
   */
  datatype Session = Session(harness: Harness, id: string, process: Option<ProcessRef>,
                             panePid: int, gone: bool, unsettled: bool)

  datatype CatalogEntry = CatalogEntry(harness: Harness, sessionId: string, pid: int, current: bool)

  datatype Observation =
    | Sighting(key: Key, present: bool)
    | SessionLost(session: Session)
    | Verification(session: Session)
    | Placement(key: Key, pane: Option<nat>)
    | Reading(key: Key)
    | Listing(entry: CatalogEntry)
}

/** Which multiplexer pane an agent is shown in. */
module PanePlacement {
  import opened Options
  import opened Processes
  import opened ProcessForest
  import opened Observations
  import Sets
  import StableSort

  /**
   * `priority` ranks the multiplexer kind. `selected` is the process that
   * `multiplexerPaneProcess` picks for the pane, `identified` the processes whose
   * multiplexer identity matches its location, and `readable` says that a screen
   * reading of the selected process would be accepted.
   */
  datatype Pane = Pane(id: nat, priority: int, locationPid: int, locationTty: string, processTty: string,
                       references: seq<int>, selected: Option<int>, identified: set<int>, readable: bool)

  /** `paneLocation`: gaps in the reported location are filled from the pane's processes. */
  function PanePid(pane: Pane): int {
    if pane.locationPid == 0 && |pane.references| > 0 then pane.references[0] else pane.locationPid
  }

  function PaneTty(pane: Pane): string {
    if pane.locationTty == "" then pane.processTty else pane.locationTty
  }

  ghost predicate Under(p: Process, root: int, byPid: map<int, Process>) {
    p.pid == root || (root > 0 && Above(byPid, p, root))
  }

  /** `processTiedToPane` */
  ghost predicate Tied(p: Process, pane: Pane, byPid: map<int, Process>) {
    || (PaneTty(pane) != "" && p.tty == PaneTty(pane))
    || Under(p, PanePid(pane), byPid)
    || (exists r :: r in pane.references && Under(p, r, byPid))
    || p.pid in pane.identified
  }

  ghost predicate Claims(pane: Pane, p: Process, byPid: map<int, Process>) {
    pane.selected == Some(p.pid) || Tied(p, pane, byPid)
  }

  /** The list that placements are read from: each listed process is the indexed one. */
  ghost predicate Listed(processes: seq<Process>, byPid: map<int, Process>) {
    && WellKeyed(byPid)
    && (forall p :: p in processes ==> p.pid in byPid && byPid[p.pid] == p)
    && (forall i, j :: 0 <= i < j < |processes| ==> processes[i].pid != processes[j].pid)
  }

  /** Harness entries and pane selections only name listed processes. */
  ghost predicate Consistent(processes: seq<Process>, byPid: map<int, Process>,
                             harnessByPid: map<int, Harness>, panes: seq<Pane>)
  {
    && Listed(processes, byPid) && HarnessTable(byPid, harnessByPid)
    && (forall pid :: pid in harnessByPid ==> byPid[pid] in processes)
    && (forall pane :: pane in panes && pane.selected.Some? ==> pane.selected.value in harnessByPid)
  }

  function KeyOf(p: Process, harness: Harness): Key {
    Key(harness, p.pid, p.start)
  }

  /** How many placements a batch holds for one process, and how many readings. */
  ghost function Placements(batch: seq<Observation>, pid: int): nat {
    if batch == [] then 0
    else Placements(batch[..|batch| - 1], pid)
         + if batch[|batch| - 1].Placement? && batch[|batch| - 1].key.pid == pid then 1 else 0
  }

  ghost function Readings(batch: seq<Observation>, pid: int): nat {
    if batch == [] then 0
    else Readings(batch[..|batch| - 1], pid)
         + if batch[|batch| - 1].Reading? && batch[|batch| - 1].key.pid == pid then 1 else 0
  }

  lemma Appended(batch: seq<Observation>, o: Observation, pid: int)
    ensures Placements(batch + [o], pid) == Placements(batch, pid) + if o.Placement? && o.key.pid == pid then 1 else 0
    ensures Readings(batch + [o], pid) == Readings(batch, pid) + if o.Reading? && o.key.pid == pid then 1 else 0
  {
    assert (batch + [o])[..|batch|] == batch;
  }

  lemma {:induction false} CountsAdd(a: seq<Observation>, b: seq<Observation>, pid: int)
    ensures Placements(a + b, pid) == Placements(a, pid) + Placements(b, pid)
    ensures Readings(a + b, pid) == Readings(a, pid) + Readings(b, pid)
  {
    if b == [] {
      assert a + b == a;
    } else {
      var (init, last) := (b[..|b| - 1], b[|b| - 1]);
      CountsAdd(a, init, pid);
      Appended(init, last, pid);
      Appended(a + init, last, pid);
      assert init + [last] == b && a + init + [last] == a + b;
    }
  }

  lemma {:induction false} NothingPlaced(batch: seq<Observation>, pid: int)
    requires forall o :: o in batch ==> !o.Placement? && !o.Reading?
    ensures Placements(batch, pid) == 0 && Readings(batch, pid) == 0
  {
    if batch != [] {
      NothingPlaced(batch[..|batch| - 1], pid);
    }
  }

  /** The first pane, in the order given, that claims the process. */
  ghost function FirstClaim(panes: seq<Pane>, p: Process, byPid: map<int, Process>): Option<nat> {
    if panes == [] then None
    else if Claims(panes[0], p, byPid) then Some(panes[0].id)
    else FirstClaim(panes[1..], p, byPid)
  }

  lemma {:induction false} FirstClaimGrows(panes: seq<Pane>, last: Pane, p: Process, byPid: map<int, Process>)
    ensures FirstClaim(panes + [last], p, byPid)
            == if FirstClaim(panes, p, byPid).Some? then FirstClaim(panes, p, byPid)
               else if Claims(last, p, byPid) then Some(last.id) else None
  {
    if panes == [] {
      assert panes + [last] == [last];
      assert [last][1..] == [];
    } else {
      FirstClaimGrows(panes[1..], last, p, byPid);
      assert (panes + [last])[1..] == panes[1..] + [last];
    }
  }

  function Priority(pane: Pane): int {
    pane.priority
  }

  /**
   * The pane an agent belongs to, read off the unsorted list: no pane of higher
   * priority claims it, and of that priority it is the first that does.
   */
  ghost predicate IsBestClaim(panes: seq<Pane>, p: Process, byPid: map<int, Process>, best: Option<nat>) {
    if best.None? then forall pane :: pane in panes ==> !Claims(pane, p, byPid)
    else exists k :: && FirstClaim(StableSort.WithKey(panes, Priority, k), p, byPid) == best
                     && forall pane :: pane in panes && Claims(pane, p, byPid) ==> pane.priority <= k
  }

  /** In priority order, the first claim is the first one among those of its own priority. */
  lemma {:induction false} FirstClaimAmongEquals(panes: seq<Pane>, p: Process, byPid: map<int, Process>)
    returns (k: int)
    requires StableSort.Descending(panes, Priority)
    ensures FirstClaim(panes, p, byPid).None? ==> forall pane :: pane in panes ==> !Claims(pane, p, byPid)
    ensures FirstClaim(panes, p, byPid).Some? ==>
              FirstClaim(StableSort.WithKey(panes, Priority, k), p, byPid) == FirstClaim(panes, p, byPid)
              && forall pane :: pane in panes && Claims(pane, p, byPid) ==> pane.priority <= k
  {
    k := 0;
    if panes != [] {
      assert panes == [panes[0]] + panes[1..];
      if Claims(panes[0], p, byPid) {
        k := panes[0].priority;
        var rest := StableSort.WithKey(panes[1..], Priority, k);
        assert StableSort.WithKey(panes, Priority, k) == [panes[0]] + rest;
        forall pane | pane in panes ensures Priority(pane) <= k {
          var j :| 0 <= j < |panes| && panes[j] == pane;
        }
      } else {
        k := FirstClaimAmongEquals(panes[1..], p, byPid);
        var rest := StableSort.WithKey(panes[1..], Priority, k);
        assert ([panes[0]] + rest)[1..] == rest && [] + rest == rest;
        assert StableSort.WithKey(panes, Priority, k) == [panes[0]] + rest || StableSort.WithKey(panes, Priority, k) == rest;
      }
    }
  }

  lemma SortedClaimIsBest(panes: seq<Pane>, p: Process, byPid: map<int, Process>)
    ensures IsBestClaim(panes, p, byPid, FirstClaim(StableSort.Sort(panes, Priority), p, byPid))
  {
    var sorted := StableSort.Sort(panes, Priority);
    StableSort.SortDescends(panes, Priority);
    var k := FirstClaimAmongEquals(sorted, p, byPid);
    StableSort.SortIsStable(panes, Priority, k);
    forall pane | pane in panes ensures pane in sorted {
      StableSort.SortMembers(panes, Priority, pane);
    }
  }

  /** A batch places exactly the processes of `placed`, each once, where `panes` first claim it. */
  ghost predicate PlacedBy(batch: seq<Observation>, placed: set<int>, panes: seq<Pane>, byPid: map<int, Process>,
                           harnessByPid: map<int, Harness>)
  {
    && placed <= harnessByPid.Keys <= byPid.Keys
    && (forall pid :: Placements(batch, pid) == if pid in placed then 1 else 0)
    && (forall pid :: Readings(batch, pid) <= if pid in placed then 1 else 0)
    && (forall o :: o in batch ==> o.Placement? || o.Reading?)
    && (forall o :: o in batch ==> o.key.pid in placed && o.key == KeyOf(byPid[o.key.pid], harnessByPid[o.key.pid]))
    && (forall o :: o in batch && o.Placement? ==> o.pane == FirstClaim(panes, byPid[o.key.pid], byPid))
  }

  /** `processTiedToPane` */
  method TiedToPane(p: Process, pane: Pane, byPid: map<int, Process>) returns (tied: bool)
    requires WellKeyed(byPid) && p.pid in byPid && byPid[p.pid] == p
    ensures tied <==> Tied(p, pane, byPid)
  {
    if PaneTty(pane) != "" && p.tty == PaneTty(pane) {
      return true;
    }
    var under := DescendsFrom(p, PanePid(pane), byPid);
    if p.pid == PanePid(pane) || under {
      return true;
    }
    for i := 0 to |pane.references|
      invariant forall j :: 0 <= j < i ==> !Under(p, pane.references[j], byPid)
    {
      under := DescendsFrom(p, pane.references[i], byPid);
      if p.pid == pane.references[i] || under {
        assert pane.references[i] in pane.references;
        return true;
      }
    }
    return p.pid in pane.identified;
  }

  /** One more pane at the end changes nothing for what is placed already. */
  lemma PlacedByGrows(batch: seq<Observation>, placed: set<int>, panes: seq<Pane>, last: Pane,
                      byPid: map<int, Process>, harnessByPid: map<int, Harness>)
    requires PlacedBy(batch, placed, panes, byPid, harnessByPid)
    requires forall pid :: pid in placed ==> FirstClaim(panes, byPid[pid], byPid).Some?
    ensures PlacedBy(batch, placed, panes + [last], byPid, harnessByPid)
  {
    forall o | o in batch && o.Placement? ensures o.pane == FirstClaim(panes + [last], byPid[o.key.pid], byPid) {
      FirstClaimGrows(panes, last, byPid[o.key.pid], byPid);
    }
  }

  /** Placing one more process where the panes first claim it. */
  lemma PlaceOne(batch: seq<Observation>, placed: set<int>, panes: seq<Pane>, byPid: map<int, Process>,
                 harnessByPid: map<int, Harness>, pid: int)
    requires PlacedBy(batch, placed, panes, byPid, harnessByPid) && WellKeyed(byPid)
    requires pid in harnessByPid && pid !in placed
    ensures var o := Placement(KeyOf(byPid[pid], harnessByPid[pid]), FirstClaim(panes, byPid[pid], byPid));
            PlacedBy(batch + [o], placed + {pid}, panes, byPid, harnessByPid)
            && forall q :: Readings(batch + [o], q) == Readings(batch, q)
  {
    var o := Placement(KeyOf(byPid[pid], harnessByPid[pid]), FirstClaim(panes, byPid[pid], byPid));
    forall q { Appended(batch, o, q); }
  }

  /** The agents among `processes` that a pane claims. */
  ghost function Claimed(pane: Pane, processes: seq<Process>, byPid: map<int, Process>, harnessByPid: map<int, Harness>): set<int> {
    set p | p in processes && p.pid in harnessByPid && Claims(pane, p, byPid) :: p.pid
  }

  lemma ClaimedOneMore(pane: Pane, processes: seq<Process>, p: Process, byPid: map<int, Process>, harnessByPid: map<int, Harness>)
    ensures Claimed(pane, processes + [p], byPid, harnessByPid)
         == Claimed(pane, processes, byPid, harnessByPid)
            + if p.pid in harnessByPid && Claims(pane, p, byPid) then {p.pid} else {}
  {
    assert p in processes + [p];
    assert forall q :: q in processes + [p] <==> q in processes || q == p;
  }

  /** The same readings as before. */
  ghost predicate SameReadings(batch: seq<Observation>, batch': seq<Observation>) {
    && (forall pid :: Readings(batch', pid) == Readings(batch, pid))
    && (forall o :: o in batch' && o.Reading? ==> o in batch)
  }

  /** One process: it is placed if the pane claims it and it has no place yet. */
  method PlaceProcess(ghost earlier: seq<Pane>, pane: Pane, p: Process, byPid: map<int, Process>,
                      harnessByPid: map<int, Harness>, batch: seq<Observation>, located: set<int>)
    returns (batch': seq<Observation>, located': set<int>)
    requires WellKeyed(byPid) && p.pid in byPid && byPid[p.pid] == p
    requires PlacedBy(batch, located, earlier + [pane], byPid, harnessByPid)
    requires p.pid in harnessByPid && p.pid !in located ==> FirstClaim(earlier, p, byPid).None?
    ensures PlacedBy(batch', located', earlier + [pane], byPid, harnessByPid)
    ensures SameReadings(batch, batch')
    ensures located' == located + if p.pid in harnessByPid && Claims(pane, p, byPid) then {p.pid} else {}
  {
    batch', located' := batch, located;
    if p.pid !in harnessByPid || p.pid in located {
      return;
    }
    if pane.selected != Some(p.pid) {
      var tied := TiedToPane(p, pane, byPid);
      if !tied {
        return;
      }
    }
    FirstClaimGrows(earlier, pane, p, byPid);
    PlaceOne(batch, located, earlier + [pane], byPid, harnessByPid, p.pid);
    batch' := batch + [Placement(KeyOf(p, harnessByPid[p.pid]), Some(pane.id))];
    located' := located + {p.pid};
  }

  /** The loop over all processes, of which each is the indexed one. */
  method PlaceClaimed(ghost earlier: seq<Pane>, pane: Pane, processes: seq<Process>, byPid: map<int, Process>,
                      harnessByPid: map<int, Harness>, batch: seq<Observation>, located: set<int>)
    returns (batch': seq<Observation>, located': set<int>)
    requires WellKeyed(byPid) && forall p :: p in processes ==> p.pid in byPid && byPid[p.pid] == p
    requires PlacedBy(batch, located, earlier + [pane], byPid, harnessByPid)
    requires LocatedBy(located, earlier, byPid, harnessByPid)
    ensures PlacedBy(batch', located', earlier + [pane], byPid, harnessByPid)
    ensures SameReadings(batch, batch')
    ensures located' == located + Claimed(pane, processes, byPid, harnessByPid)
  {
    batch', located' := batch, located;
    for i := 0 to |processes|
      invariant PlacedBy(batch', located', earlier + [pane], byPid, harnessByPid)
      invariant SameReadings(batch, batch')
      invariant located' == located + Claimed(pane, processes[..i], byPid, harnessByPid)
    {
      var p := processes[i];
      assert processes[..i + 1] == processes[..i] + [p];
      ClaimedOneMore(pane, processes[..i], p, byPid, harnessByPid);
      batch', located' := PlaceProcess(earlier, pane, p, byPid, harnessByPid, batch', located');
    }
    assert processes[..|processes|] == processes;
  }

  /** `panePlacementObservations`: every claimed process that no earlier pane took. */
  method PlacePane(ghost earlier: seq<Pane>, pane: Pane, processes: seq<Process>, byPid: map<int, Process>,
                   harnessByPid: map<int, Harness>, batch: seq<Observation>, located: set<int>)
    returns (batch': seq<Observation>, located': set<int>)
    requires Consistent(processes, byPid, harnessByPid, earlier + [pane])
    requires PlacedBy(batch, located, earlier, byPid, harnessByPid)
    requires LocatedBy(located, earlier, byPid, harnessByPid)
    ensures PlacedBy(batch', located', earlier + [pane], byPid, harnessByPid)
    ensures LocatedBy(located', earlier + [pane], byPid, harnessByPid)
    ensures SameReadings(batch, batch')
  {
    PlacedByGrows(batch, located, earlier, pane, byPid, harnessByPid);
    batch', located' := PlaceClaimed(earlier, pane, processes, byPid, harnessByPid, batch, located);
    LocatedGrows(located, earlier, pane, processes, byPid, harnessByPid);
  }

  /** The agents with a place are those that some pane claims. */
  ghost predicate LocatedBy(located: set<int>, panes: seq<Pane>, byPid: map<int, Process>, harnessByPid: map<int, Harness>) {
    harnessByPid.Keys <= byPid.Keys
    && forall pid :: pid in harnessByPid ==> (pid in located <==> FirstClaim(panes, byPid[pid], byPid).Some?)
  }

  lemma LocatedGrows(located: set<int>, earlier: seq<Pane>, pane: Pane, processes: seq<Process>, byPid: map<int, Process>,
                     harnessByPid: map<int, Harness>)
    requires Consistent(processes, byPid, harnessByPid, earlier + [pane])
    requires LocatedBy(located, earlier, byPid, harnessByPid)
    ensures LocatedBy(located + Claimed(pane, processes, byPid, harnessByPid), earlier + [pane], byPid, harnessByPid)
  {
    var claimed := Claimed(pane, processes, byPid, harnessByPid);
    forall pid | pid in harnessByPid
      ensures pid in located + claimed <==> FirstClaim(earlier + [pane], byPid[pid], byPid).Some?
    {
      FirstClaimGrows(earlier, pane, byPid[pid], byPid);
      assert byPid[pid] in processes && byPid[pid].pid == pid;
      if pid in claimed {
        var p :| p in processes && Claims(pane, p, byPid) && p.pid == pid;
        assert byPid[pid] == p;
      }
    }
  }

  /** A first reading of a placed process. */
  lemma ReadOne(batch: seq<Observation>, placed: set<int>, panes: seq<Pane>, byPid: map<int, Process>,
                harnessByPid: map<int, Harness>, pid: int)
    requires PlacedBy(batch, placed, panes, byPid, harnessByPid) && WellKeyed(byPid)
    requires pid in placed && Readings(batch, pid) == 0
    ensures PlacedBy(batch + [Reading(KeyOf(byPid[pid], harnessByPid[pid]))], placed, panes, byPid, harnessByPid)
  {
    forall q { Appended(batch, Reading(KeyOf(byPid[pid], harnessByPid[pid])), q); }
  }

  /** `paneForegroundKnown` */
  predicate ForegroundKnown(pane: Pane, processes: seq<Process>) {
    exists i :: 0 <= i < |processes| && PaneTty(pane) != "" && processes[i].tty == PaneTty(pane)
                && (processes[i].foreground || processes[i].group > 0)
  }

  /** Job control says that the process owns its terminal, or says nothing about it. */
  predicate MayOwnForeground(pane: Pane, p: Process, processes: seq<Process>) {
    p.foreground || (!(p.group > 0 && p.tty != "") && !ForegroundKnown(pane, processes))
  }

  /** Pane `i` is where the agent's screen is read: it selects the agent, no earlier pane claims it, and it is no inner one. */
  ghost predicate ReadAt(panes: seq<Pane>, i: nat, processes: seq<Process>, byPid: map<int, Process>,
                         harnessByPid: map<int, Harness>, p: Process)
    requires i < |panes|
  {
    && panes[i].selected == Some(p.pid) && FirstClaim(panes[..i], p, byPid).None?
    && !Nested(byPid, harnessByPid, p) && MayOwnForeground(panes[i], p, processes) && panes[i].readable
  }

  ghost predicate ReadFrom(panes: seq<Pane>, processes: seq<Process>, byPid: map<int, Process>,
                           harnessByPid: map<int, Harness>, p: Process)
  {
    exists i :: 0 <= i < |panes| && ReadAt(panes, i, processes, byPid, harnessByPid, p)
  }

  lemma ReadFromGrows(panes: seq<Pane>, last: Pane, processes: seq<Process>, byPid: map<int, Process>,
                      harnessByPid: map<int, Harness>, p: Process)
    ensures ReadFrom(panes + [last], processes, byPid, harnessByPid, p)
       <==> ReadFrom(panes, processes, byPid, harnessByPid, p)
            || (last.selected == Some(p.pid) && FirstClaim(panes, p, byPid).None? && !Nested(byPid, harnessByPid, p)
                && MayOwnForeground(last, p, processes) && last.readable)
  {
    var all := panes + [last];
    assert all[..|panes|] == panes && all[|panes|] == last;
    forall i | 0 <= i < |panes|
      ensures ReadAt(all, i, processes, byPid, harnessByPid, p) <==> ReadAt(panes, i, processes, byPid, harnessByPid, p)
    {
      assert all[..i] == panes[..i] && all[i] == panes[i];
    }
    if ReadFrom(panes, processes, byPid, harnessByPid, p) {
      var i :| 0 <= i < |panes| && ReadAt(panes, i, processes, byPid, harnessByPid, p);
      assert ReadAt(all, i, processes, byPid, harnessByPid, p);
    }
    if ReadFrom(all, processes, byPid, harnessByPid, p) {
      var i :| 0 <= i < |all| && ReadAt(all, i, processes, byPid, harnessByPid, p);
      assert i < |panes| ==> ReadAt(panes, i, processes, byPid, harnessByPid, p);
    }
    if !ReadFrom(all, processes, byPid, harnessByPid, p) {
      assert !ReadAt(all, |panes|, processes, byPid, harnessByPid, p);
    }
  }

  /** Exactly the agents that a pane says so are read. */
  ghost predicate ReadBy(batch: seq<Observation>, panes: seq<Pane>, processes: seq<Process>, byPid: map<int, Process>,
                         harnessByPid: map<int, Harness>)
    requires harnessByPid.Keys <= byPid.Keys
  {
    forall pid :: pid in harnessByPid ==>
      Readings(batch, pid) == if ReadFrom(panes, processes, byPid, harnessByPid, byPid[pid]) then 1 else 0
  }

  /** One more pane, from which at most the process it selects is read. */
  lemma ReadByGrows(batch: seq<Observation>, earlier: seq<Pane>, pane: Pane, processes: seq<Process>, byPid: map<int, Process>,
                    harnessByPid: map<int, Harness>, batch': seq<Observation>, read: Option<int>)
    requires WellKeyed(byPid) && harnessByPid.Keys <= byPid.Keys && ReadBy(batch, earlier, processes, byPid, harnessByPid)
    requires forall pid :: pid in harnessByPid ==> Readings(batch', pid) == Readings(batch, pid) + if read == Some(pid) then 1 else 0
    requires forall pid :: pid in harnessByPid ==>
               (read == Some(pid) <==>
                 && pane.selected == Some(pid) && FirstClaim(earlier, byPid[pid], byPid).None?
                 && !Nested(byPid, harnessByPid, byPid[pid]) && MayOwnForeground(pane, byPid[pid], processes) && pane.readable)
    requires forall pid :: pid in harnessByPid && read == Some(pid) ==> Readings(batch, pid) == 0
    ensures ReadBy(batch', earlier + [pane], processes, byPid, harnessByPid)
  {
    forall pid | pid in harnessByPid
      ensures Readings(batch', pid) == if ReadFrom(earlier + [pane], processes, byPid, harnessByPid, byPid[pid]) then 1 else 0
    {
      ReadFromGrows(earlier, pane, processes, byPid, harnessByPid, byPid[pid]);
    }
  }

  /** Whether the pane's selected process is read, once it is known not to be claimed. */
  method ReadsSelected(pane: Pane, processes: seq<Process>, byPid: map<int, Process>, harnessByPid: map<int, Harness>, p: Process)
    returns (read: bool)
    requires WellKeyed(byPid) && HarnessTable(byPid, harnessByPid) && p.pid in byPid && byPid[p.pid] == p
    ensures read <==> !Nested(byPid, harnessByPid, p) && MayOwnForeground(pane, p, processes) && pane.readable
  {
    var nested := NestedHarness(p, byPid, harnessByPid);
    if nested || (!p.foreground && ((p.group > 0 && p.tty != "") || ForegroundKnown(pane, processes))) {
      return false;
    }
    return pane.readable;
  }

  /**
   * One round of `paneObservations`: placements for every claimed agent, and a
   * screen reading for the agent the pane selected exactly if no earlier pane
   * claimed it, it runs inside no other agent, and it may own the foreground.
   */
  method ObservePane(ghost earlier: seq<Pane>, pane: Pane, processes: seq<Process>, byPid: map<int, Process>,
                     harnessByPid: map<int, Harness>, batch: seq<Observation>, located: set<int>)
    returns (batch': seq<Observation>, located': set<int>)
    requires Consistent(processes, byPid, harnessByPid, earlier + [pane])
    requires PlacedBy(batch, located, earlier, byPid, harnessByPid)
    requires LocatedBy(located, earlier, byPid, harnessByPid)
    requires ReadBy(batch, earlier, processes, byPid, harnessByPid)
    ensures PlacedBy(batch', located', earlier + [pane], byPid, harnessByPid)
    ensures LocatedBy(located', earlier + [pane], byPid, harnessByPid)
    ensures ReadBy(batch', earlier + [pane], processes, byPid, harnessByPid)
  {
    var claimed := pane.selected.Some? && pane.selected.value in located;
    batch', located' := PlacePane(earlier, pane, processes, byPid, harnessByPid, batch, located);
    assert pane in earlier + [pane];
    if pane.selected.None? || claimed {
      ReadByGrows(batch, earlier, pane, processes, byPid, harnessByPid, batch', None);
      return;
    }
    ghost var placed := batch';
    var p := byPid[pane.selected.value];
    assert p.pid == pane.selected.value && p.pid in harnessByPid;
    FirstClaimGrows(earlier, pane, p, byPid);
    var read := ReadsSelected(pane, processes, byPid, harnessByPid, p);
    if read {
      assert Readings(batch, p.pid) == 0;
      ReadOne(batch', located', earlier + [pane], byPid, harnessByPid, p.pid);
      batch' := batch' + [Reading(KeyOf(p, harnessByPid[p.pid]))];
    }
    forall pid { Appended(placed, Reading(KeyOf(p, harnessByPid[p.pid])), pid); }
    ReadByGrows(batch, earlier, pane, processes, byPid, harnessByPid, batch', if read then Some(p.pid) else None);
  }

  /** `paneObservations` over panes in priority order. */
  method PaneObservations(panes: seq<Pane>, processes: seq<Process>, byPid: map<int, Process>,
                          harnessByPid: map<int, Harness>)
    returns (batch: seq<Observation>, located: set<int>)
    requires Consistent(processes, byPid, harnessByPid, panes)
    ensures PlacedBy(batch, located, panes, byPid, harnessByPid)
    ensures LocatedBy(located, panes, byPid, harnessByPid)
    ensures ReadBy(batch, panes, processes, byPid, harnessByPid)
  {
    batch, located := [], {};
    for i := 0 to |panes|
      invariant PlacedBy(batch, located, panes[..i], byPid, harnessByPid)
      invariant LocatedBy(located, panes[..i], byPid, harnessByPid)
      invariant ReadBy(batch, panes[..i], processes, byPid, harnessByPid)
    {
      assert panes[..i + 1] == panes[..i] + [panes[i]];
      batch, located := ObservePane(panes[..i], panes[i], processes, byPid, harnessByPid, batch, located);
    }
    assert panes[..|panes|] == panes;
  }

  /** The readings once the agents of `rest` are the only ones left without a place. */
  ghost predicate ReadBut(batch: seq<Observation>, before: seq<Observation>, missing: set<int>, rest: set<int>) {
    forall pid :: Readings(batch, pid) == Readings(before, pid) + if pid in missing - rest then 1 else 0
  }

  lemma OneLessUnread(before: seq<Observation>, batch: seq<Observation>, next: seq<Observation>, missing: set<int>, rest: set<int>,
                      pid: int, unread: bool)
    requires ReadBut(batch, before, missing, rest) && pid in rest && (pid in missing <==> unread)
    requires forall q :: Readings(next, q) == Readings(batch, q) + if q == pid && unread then 1 else 0
    ensures ReadBut(next, before, missing, rest - {pid})
  {
  }

  /** `observationsForUnlocatedProcesses`: the empty location for whatever no pane claimed. */
  method PlaceUnlocated(ghost panes: seq<Pane>, byPid: map<int, Process>, harnessByPid: map<int, Harness>,
                        unreadable: set<int>, batch: seq<Observation>, located: set<int>)
    returns (batch': seq<Observation>)
    requires WellKeyed(byPid) && PlacedBy(batch, located, panes, byPid, harnessByPid)
    requires LocatedBy(located, panes, byPid, harnessByPid)
    ensures PlacedBy(batch', harnessByPid.Keys, panes, byPid, harnessByPid)
    ensures ReadBut(batch', batch, (harnessByPid.Keys - located) * unreadable, {})
  {
    batch' := batch;
    var rest := harnessByPid.Keys - located;
    ghost var missing := rest * unreadable;
    while rest != {}
      invariant rest <= harnessByPid.Keys - located
      invariant PlacedBy(batch', harnessByPid.Keys - rest, panes, byPid, harnessByPid)
      invariant ReadBut(batch', batch, missing, rest)
      decreases |rest|
    {
      ghost var member := Sets.SomeMember(rest);
      var pid :| pid in rest;
      assert harnessByPid.Keys - (rest - {pid}) == (harnessByPid.Keys - rest) + {pid};
      var next := PlaceNowhere(panes, byPid, harnessByPid, unreadable, batch', harnessByPid.Keys - rest, pid);
      OneLessUnread(batch, batch', next, missing, rest, pid, pid in unreadable);
      batch' := next;
      rest := rest - {pid};
    }
    assert harnessByPid.Keys - rest == harnessByPid.Keys;
  }

  /** One agent that no pane claims. */
  method PlaceNowhere(ghost panes: seq<Pane>, byPid: map<int, Process>, harnessByPid: map<int, Harness>,
                      unreadable: set<int>, batch: seq<Observation>, ghost placed: set<int>, pid: int)
    returns (batch': seq<Observation>)
    requires WellKeyed(byPid) && PlacedBy(batch, placed, panes, byPid, harnessByPid)
    requires pid in harnessByPid && pid !in placed && FirstClaim(panes, byPid[pid], byPid).None?
    ensures PlacedBy(batch', placed + {pid}, panes, byPid, harnessByPid)
    ensures forall q :: Readings(batch', q) == Readings(batch, q) + if q == pid && pid in unreadable then 1 else 0
  {
    var key := KeyOf(byPid[pid], harnessByPid[pid]);
    PlaceOne(batch, placed, panes, byPid, harnessByPid, pid);
    batch' := batch + [Placement(key, None)];
    if pid in unreadable {
      ReadOne(batch', placed + {pid}, panes, byPid, harnessByPid, pid);
      forall q { Appended(batch', Reading(key), q); }
      batch' := batch' + [Reading(key)];
    }
  }

  // ---------------------------------------------------------------- one cycle

  /** A pane's selection counts only if it is one of these. */
  function Cleared(pane: Pane, agents: set<int>): Pane {
    if pane.selected.Some? && pane.selected.value !in agents then pane.(selected := None) else pane
  }

  function AllCleared(panes: seq<Pane>, agents: set<int>): (r: seq<Pane>)
    ensures |r| == |panes| && forall i :: 0 <= i < |r| ==> r[i] == Cleared(panes[i], agents)
  {
    seq(|panes|, i requires 0 <= i < |panes| => Cleared(panes[i], agents))
  }

  /** The agent's screen is read: from a pane, or as missing if no pane claims it. */
  ghost predicate IsRead(panes: seq<Pane>, complete: bool, unreadable: set<int>, processes: seq<Process>,
                         byPid: map<int, Process>, agents: map<int, Harness>, p: Process)
  {
    var sorted := StableSort.Sort(panes, Priority);
    || ReadFrom(sorted, processes, byPid, agents, p)
    || (complete && p.pid in unreadable && forall pane :: pane in panes ==> !Claims(pane, p, byPid))
  }

  /** Every placement is where the agent's best claim is, and exactly those agents are read that should be. */
  ghost predicate PlacedRight(batch: seq<Observation>, panes: seq<Pane>, complete: bool, unreadable: set<int>,
                              processes: seq<Process>, byPid: map<int, Process>, agents: map<int, Harness>)
  {
    && (forall o :: o in batch && o.Placement? ==>
          o.key.pid in agents && o.key.pid in byPid && IsBestClaim(panes, byPid[o.key.pid], byPid, o.pane))
    && (forall pid :: pid in agents && pid in byPid ==>
          Readings(batch, pid) == if IsRead(panes, complete, unreadable, processes, byPid, agents, byPid[pid]) then 1 else 0)
  }

  /** No pane has a first claim exactly if none has any. */
  lemma {:induction false} NoFirstClaim(panes: seq<Pane>, p: Process, byPid: map<int, Process>)
    ensures FirstClaim(panes, p, byPid).None? <==> forall pane :: pane in panes ==> !Claims(pane, p, byPid)
  {
    if panes != [] && !Claims(panes[0], p, byPid) {
      NoFirstClaim(panes[1..], p, byPid);
      assert panes == [panes[0]] + panes[1..];
    }
  }

  lemma ReadSomewhere(panes: seq<Pane>, processes: seq<Process>, byPid: map<int, Process>, agents: map<int, Harness>, p: Process)
    requires ReadFrom(panes, processes, byPid, agents, p)
    ensures exists pane :: pane in panes && Claims(pane, p, byPid)
  {
    var i :| 0 <= i < |panes| && ReadAt(panes, i, processes, byPid, agents, p);
    assert panes[i] in panes && Claims(panes[i], p, byPid);
  }

  /**
   * One cycle's placements: the panes in priority order and, when they could all
   * be listed, the empty location for every agent no pane claims. `unreadable` are
   * the agents whose missing screen is itself recorded as a reading.
   */
  method PlaceAgents(listed: seq<Pane>, complete: bool, processes: seq<Process>, byPid: map<int, Process>,
                     harnessByPid: map<int, Harness>, unreadable: set<int>) returns (batch: seq<Observation>)
    requires Consistent(processes, byPid, harnessByPid, listed)
    ensures forall pid :: Placements(batch, pid) <= (if pid in harnessByPid then 1 else 0)
    ensures complete ==> forall pid :: pid in harnessByPid ==> Placements(batch, pid) == 1
    ensures forall pid :: Readings(batch, pid) <= Placements(batch, pid)
    ensures forall o :: o in batch ==> o.Placement? || o.Reading?
    ensures forall o :: o in batch ==>
              o.key.pid in harnessByPid && o.key == KeyOf(byPid[o.key.pid], harnessByPid[o.key.pid])
    ensures PlacedRight(batch, listed, complete, unreadable, processes, byPid, harnessByPid)
  {
    var panes := StableSort.Sort(listed, Priority);
    forall pane ensures pane in panes <==> pane in listed { StableSort.SortMembers(listed, Priority, pane); }
    var located;
    batch, located := PaneObservations(panes, processes, byPid, harnessByPid);
    ghost var before := batch;
    if complete {
      batch := PlaceUnlocated(panes, byPid, harnessByPid, unreadable, batch, located);
    }
    forall o | o in batch && o.Placement? ensures IsBestClaim(listed, byPid[o.key.pid], byPid, o.pane) {
      SortedClaimIsBest(listed, byPid[o.key.pid], byPid);
    }
    forall pid | pid in harnessByPid
      ensures Readings(batch, pid)
           == if IsRead(listed, complete, unreadable, processes, byPid, harnessByPid, byPid[pid]) then 1 else 0
    {
      NoFirstClaim(panes, byPid[pid], byPid);
      if ReadFrom(panes, processes, byPid, harnessByPid, byPid[pid]) {
        ReadSomewhere(panes, processes, byPid, harnessByPid, byPid[pid]);
      }
    }
  }
}
