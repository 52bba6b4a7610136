/**
 * The reconciliation cycle of the tracker as a step on the state it keeps between
 * cycles: the processes it tracks and the candidates it holds back.
 */
module ObserverCycle {
  import opened Options
  import opened Processes
  import opened CycleInventory
  import opened Observations
  import opened PanePlacement

  type Time = int

  /** The zero value of a timestamp, which the code reads as "not set". */
  const NEVER: Time := 0

  const MISSING_SNAPSHOTS := 2

  datatype Tracked = Tracked(process: Process, missingSince: Time, missingCount: int)

  datatype Settings = Settings(grace: int, confirmAfter: int)

  /**
   * What the store says to a batch: taken whole, refused for a conflict, or failed
   * otherwise. After a conflict each observation has been offered once more on its
   * own, so parts of the batch may be stored; the tracker cannot tell which.
   */
  datatype Answer = Accepted | Conflict | Failure

  /** A live session of the store that carries a process observation. */
  datatype Seed = Seed(harness: Harness, process: Process, present: bool, observedAt: Time)

  /**
   * Everything one cycle reads from outside; `None` stands for a listing that failed.
   * `answer` is what the store says if the cycle gets as far as sending a batch.
   */
  datatype Cycle = Cycle(
    at: Time,
    continuous: bool,
    live: Option<seq<Seed>>,
    scan: Option<Scan>,
    sessions: Option<seq<Session>>,
    panes: seq<Pane>,
    panesComplete: bool,
    unreadable: set<int>,
    catalog: seq<CatalogEntry>,
    answer: Answer
  )

  datatype State = State(initialized: bool, tracked: map<Key, Tracked>, candidates: map<Key, Time>)

  const FRESH := State(false, map[], map[])

  // ---------------------------------------------------------------- the scan

  ghost predicate UniquePids(scan: seq<Process>) {
    forall i, j :: 0 <= i < j < |scan| ==> scan[i].pid != scan[j].pid
  }

  /** A process list; the kernel lists a PID once. */
  type Scan = scan: seq<Process> | UniquePids(scan)

  ghost function IndexOf(scan: Scan): map<int, Process> {
    map i | 0 <= i < |scan| && scan[i].pid > 0 :: scan[i].pid := scan[i]
  }

  ghost function Resolved(scan: Scan): map<int, Harness> {
    map i | 0 <= i < |scan| && scan[i].pid > 0 && scan[i].start != "" && scan[i].resolved.Some?
      :: scan[i].pid := scan[i].resolved.value
  }

  /** The agents of a scan: what is left of the matched processes after pruning. */
  ghost function Agents(scan: Scan): map<int, Harness> {
    Pruned(scan, IndexOf(scan), Resolved(scan))
  }

  lemma IndexedAt(scan: Scan, pid: int)
    requires pid in IndexOf(scan)
    ensures pid > 0 && IndexOf(scan)[pid] in scan && IndexOf(scan)[pid].pid == pid
  {
    var i :| 0 <= i < |scan| && scan[i].pid == pid;
  }

  lemma ScanIsIndexed(scan: Scan)
    ensures Snapshot(scan, IndexOf(scan)) && HarnessTable(IndexOf(scan), Resolved(scan))
  {
    forall pid | pid in IndexOf(scan) ensures pid > 0 && IndexOf(scan)[pid] in scan && IndexOf(scan)[pid].pid == pid {
      IndexedAt(scan, pid);
    }
  }

  lemma AgentsAreIndexed(scan: Scan)
    ensures Snapshot(scan, IndexOf(scan)) && HarnessTable(IndexOf(scan), Resolved(scan))
    ensures HarnessTable(IndexOf(scan), Agents(scan))
    ensures forall pid :: pid in Agents(scan) ==> pid in Resolved(scan) && Agents(scan)[pid] == Resolved(scan)[pid]
  {
    ScanIsIndexed(scan);
    PrunedIsPart(scan, IndexOf(scan), Resolved(scan));
  }

  // ---------------------------------------------------------------- one complete cycle

  ghost predicate ListedProcess(entry: CatalogEntry, byPid: map<int, Process>) {
    && entry.pid in byPid && byPid[entry.pid].pid > 0 && byPid[entry.pid].start != ""
    && byPid[entry.pid].named in {None, Some(entry.harness)}
    && byPid[entry.pid].resolved == Some(entry.harness)
  }

  /** A current catalog entry vouches for the process. */
  ghost predicate InCatalog(catalog: seq<CatalogEntry>, byPid: map<int, Process>, key: Key) {
    exists e :: e in catalog && e.current && e.pid == key.pid && e.harness == key.harness && ListedProcess(e, byPid)
  }

  /** A known session belongs to exactly this process. */
  ghost predicate HasSession(sessions: seq<Session>, key: Key) {
    exists x :: x in sessions && x.harness == key.harness && x.process == Some(ProcessRef(key.pid, key.start))
  }

  /** A cycle whose listings all worked; only such a cycle gets to record anything. */
  ghost predicate Complete(s: State, c: Cycle) {
    (s.initialized || c.live.Some?) && c.scan.Some? && c.sessions.Some?
  }

  function ScanOf(c: Cycle): Scan {
    if c.scan.Some? then c.scan.value else []
  }

  function SessionsOf(c: Cycle): seq<Session> {
    if c.sessions.Some? then c.sessions.value else []
  }

  ghost function Scanned(c: Cycle): map<int, Process> {
    IndexOf(ScanOf(c))
  }

  /** Agents by key, each with its normalized process. */
  ghost function ByKey(index: map<int, Process>, agents: map<int, Harness>): map<Key, Process> {
    map pid | pid in agents && pid in index && index[pid].pid == pid
      :: KeyOf(index[pid], agents[pid]) := Normalized(index[pid], index, agents)
  }

  lemma ByKeyAt(index: map<int, Process>, agents: map<int, Harness>, key: Key)
    ensures key in ByKey(index, agents) <==>
              && key.pid in agents && key.pid in index && index[key.pid].pid == key.pid
              && key == KeyOf(index[key.pid], agents[key.pid])
    ensures key in ByKey(index, agents) ==>
              ByKey(index, agents)[key] == Normalized(index[key.pid], index, agents)
  {
  }

  /** The agents a cycle sees, before any is held back. */
  ghost function Sighted(c: Cycle): map<Key, Process> {
    ByKey(Scanned(c), Agents(ScanOf(c)))
  }

  /** `processConfirmed` */
  ghost predicate Confirmed(cfg: Settings, s: State, c: Cycle, key: Key) {
    || !c.continuous
    || cfg.confirmAfter < 0
    || key in s.tracked
    || InCatalog(c.catalog, Scanned(c), key)
    || HasSession(SessionsOf(c), key)
    || (key in s.candidates && c.at - s.candidates[key] >= cfg.confirmAfter)
  }

  ghost function AllConfirmed(cfg: Settings, s: State, c: Cycle): iset<Key> {
    iset key | Confirmed(cfg, s, c, key)
  }

  ghost function Among(sighted: map<Key, Process>, keys: iset<Key>): set<Key> {
    set key | key in sighted && key in keys
  }

  ghost function ConfirmedKeys(cfg: Settings, s: State, c: Cycle): set<Key> {
    Among(Sighted(c), AllConfirmed(cfg, s, c))
  }

  /** The scan with its flags normalized. */
  ghost function NormalizedScan(scan: Scan): (r: Scan)
    ensures |r| == |scan| && forall i :: 0 <= i < |scan| ==> r[i] == Normalized(scan[i], IndexOf(scan), Agents(scan))
  {
    var r := seq(|scan|, i requires 0 <= i < |scan| => Normalized(scan[i], IndexOf(scan), Agents(scan)));
    assert UniquePids(r);
    r
  }

  /** Every process under its PID, also one whose PID is not positive: the index as places are looked up in. */
  ghost function Filed(processes: Scan): map<int, Process> {
    map i | 0 <= i < |processes| :: processes[i].pid := processes[i]
  }

  /** The harness table once unconfirmed agents are held back. */
  ghost function KeptAmong(index: map<int, Process>, agents: map<int, Harness>, confirmed: iset<Key>): map<int, Harness> {
    map pid | pid in agents && pid in index && KeyOf(index[pid], agents[pid]) in confirmed :: agents[pid]
  }

  ghost function Kept(cfg: Settings, s: State, c: Cycle): map<int, Harness> {
    KeptAmong(Scanned(c), Agents(ScanOf(c)), AllConfirmed(cfg, s, c))
  }

  /** The batch places and reads the agents it should, where it should. */
  ghost predicate PlacesRight(batch: seq<Observation>, c: Cycle, kept: map<int, Harness>) {
    PlacedRight(batch, AllCleared(c.panes, kept.Keys), c.panesComplete, c.unreadable,
                NormalizedScan(ScanOf(c)), Filed(NormalizedScan(ScanOf(c))), kept)
  }

  function FirstSeen(candidates: map<Key, Time>, key: Key, at: Time): Time {
    if key in candidates then candidates[key] else at
  }

  ghost function HeldOf(sighted: map<Key, Process>, confirmed: set<Key>, candidates: map<Key, Time>, at: Time)
    : map<Key, Time>
  {
    map key | key in sighted.Keys - confirmed :: FirstSeen(candidates, key, at)
  }

  ghost function CurrentOf(sighted: map<Key, Process>, confirmed: set<Key>): map<Key, Process> {
    map key | key in sighted.Keys * confirmed :: sighted[key]
  }

  /** The candidates of a cycle: unconfirmed agents, with the time each was first seen. */
  ghost function Held(cfg: Settings, s: State, c: Cycle): map<Key, Time> {
    HeldOf(Sighted(c), ConfirmedKeys(cfg, s, c), s.candidates, c.at)
  }

  ghost function Current(cfg: Settings, s: State, c: Cycle): map<Key, Process> {
    CurrentOf(Sighted(c), ConfirmedKeys(cfg, s, c))
  }

  /** A tracked process after one more cycle without it. */
  function Missed(t: Tracked, at: Time): Tracked {
    t.(missingCount := t.missingCount + 1, missingSince := if t.missingSince == NEVER then at else t.missingSince)
  }

  /** `missingProcessRetired` */
  predicate Due(cfg: Settings, t: Tracked, at: Time) {
    if cfg.grace == 0 then t.missingCount >= MISSING_SNAPSHOTS
    else cfg.grace > 0 && at - t.missingSince >= cfg.grace
  }

  /** What is tracked after a cycle that saw `current`, before retirements. */
  ghost function NextOf(tracked: map<Key, Tracked>, current: map<Key, Process>, at: Time): map<Key, Tracked> {
    map key | key in tracked.Keys + current.Keys ::
      if key in current then Tracked(current[key], NEVER, 0) else Missed(tracked[key], at)
  }

  ghost function RetiredOf(cfg: Settings, tracked: map<Key, Tracked>, current: map<Key, Process>, at: Time): set<Key> {
    set key | key in tracked && key !in current && Due(cfg, Missed(tracked[key], at), at)
  }

  predicate Covers(key: Key, harness: Harness, p: ProcessRef) {
    && key.harness == harness && key.pid == p.pid
    && (key.start == "" || p.start == "" || key.start == p.start)
  }

  /** `isProcessTracked`: an unknown start identity on either side matches any. */
  ghost predicate IsTracked(tracked: map<Key, Tracked>, x: Session) {
    x.process.Some? && exists key :: key in tracked && Covers(key, x.harness, x.process.value)
  }

  predicate CompleteRef(p: ProcessRef) {
    p.pid > 0 && p.start != ""
  }

  predicate Gone(p: ProcessRef, byPid: map<int, Process>) {
    p.pid in byPid ==> byPid[p.pid].start != "" && byPid[p.pid].start != p.start
  }

  /** The processes of untracked sessions that the scan proves gone. */
  ghost predicate LostProcess(s: State, c: Cycle, key: Key) {
    && CompleteRef(ProcessRef(key.pid, key.start)) && Gone(ProcessRef(key.pid, key.start), Scanned(c))
    && exists x :: Untracked(s, c, x) && x.harness == key.harness && x.process == Some(ProcessRef(key.pid, key.start))
  }

  ghost function LostProcesses(s: State, c: Cycle): iset<Key> {
    iset key | LostProcess(s, c, key)
  }

  /** The batch reports `current` present, `retired` and `lost` absent, and places or reads only what is current. */
  ghost predicate Says(batch: seq<Observation>, current: set<Key>, retired: set<Key>, lost: iset<Key>) {
    && (forall key :: Sighting(key, true) in batch <==> key in current)
    && (forall key :: Sighting(key, false) in batch <==> key in retired || key in lost)
    && (forall o :: o in batch && (o.Placement? || o.Reading?) ==> o.key in current)
  }

  ghost predicate Untracked(s: State, c: Cycle, x: Session) {
    x in SessionsOf(c) && !x.gone && !IsTracked(s.tracked, x)
  }

  predicate PaneGone(x: Session, byPid: map<int, Process>) {
    x.process.None? && x.panePid > 0 && x.panePid !in byPid
  }

  /** The untracked sessions known only by a pane whose own process the scan does not list. */
  ghost function LostSessions(s: State, c: Cycle): iset<Session> {
    iset x | Untracked(s, c, x) && PaneGone(x, Scanned(c))
  }

  /** The other untracked sessions without a complete process, if the location check has news of them. */
  ghost function UnverifiedSessions(s: State, c: Cycle): iset<Session> {
    iset x | Untracked(s, c, x) && x.unsettled && !PaneGone(x, Scanned(c))
             && !(x.process.Some? && CompleteRef(x.process.value))
  }

  /** The batch reports exactly these sessions lost, and exactly these unverified. */
  ghost predicate Settles(batch: seq<Observation>, lost: iset<Session>, unverified: iset<Session>) {
    && (forall x :: SessionLost(x) in batch <==> x in lost)
    && (forall x :: Verification(x) in batch <==> x in unverified)
  }

  /** A catalog entry loses its claim on a process that runs something else. */
  ghost function EntryOf(e: CatalogEntry, byPid: map<int, Process>): CatalogEntry {
    if e.current && e.pid > 0 && !ListedProcess(e, byPid) then e.(current := false, pid := 0) else e
  }

  ghost function ListingsOf(catalog: seq<CatalogEntry>, byPid: map<int, Process>): set<CatalogEntry> {
    set e | e in catalog && e.harness != "" && e.sessionId != "" :: EntryOf(e, byPid)
  }

  /** The batch lists exactly these catalog entries. */
  ghost predicate Lists(batch: seq<Observation>, entries: set<CatalogEntry>) {
    forall e :: Listing(e) in batch <==> e in entries
  }

  /** Every agent has one place if all panes could be listed, at most one otherwise, and no more readings than places. */
  ghost predicate PlacesEach(batch: seq<Observation>, current: set<Key>, complete: bool) {
    forall key :: key in current ==>
      && Placements(batch, key.pid) <= 1 && (complete ==> Placements(batch, key.pid) == 1)
      && Readings(batch, key.pid) <= Placements(batch, key.pid)
  }

  // ---------------------------------------------------------------- the step

  function SeedOne(tracked: map<Key, Tracked>, seed: Seed): map<Key, Tracked> {
    if seed.present && CompleteRef(ProcessRef(seed.process.pid, seed.process.start))
    then tracked[KeyOf(seed.process, seed.harness) := Tracked(seed.process, seed.observedAt, MISSING_SNAPSHOTS - 1)]
    else tracked
  }

  function SeedAll(tracked: map<Key, Tracked>, seeds: seq<Seed>): map<Key, Tracked> {
    if seeds == [] then tracked
    else SeedOne(SeedAll(tracked, seeds[..|seeds| - 1]), seeds[|seeds| - 1])
  }

  /** `initializeTracked` */
  function Initialized(s: State, c: Cycle): State {
    if s.initialized || c.live.None? then s
    else s.(initialized := true, tracked := SeedAll(s.tracked, c.live.value))
  }

  /** A cycle together with what it saw, what it held back, and the batch it sent. */
  datatype Record = Record(cycle: Cycle, current: map<Key, Process>, held: map<Key, Time>, batch: seq<Observation>)

  /** `recordObservations`: what the store answered decides what the tracker remembers. */
  function Settled(s: State, sent: bool, answer: Answer, next: map<Key, Tracked>, retired: set<Key>,
                   pending: map<Key, Time>): State
  {
    if !sent || answer == Accepted then s.(tracked := next - retired, candidates := pending)
    else if answer == Conflict then s.(tracked := next)
    else s
  }

  ghost function RetiredBy(cfg: Settings, s: State, r: Record): set<Key> {
    RetiredOf(cfg, s.tracked, r.current, r.cycle.at)
  }

  /** The state `s` (already initialized) after a complete cycle. */
  ghost function Recorded(cfg: Settings, s: State, r: Record): State {
    Settled(s, r.batch != [], r.cycle.answer, NextOf(s.tracked, r.current, r.cycle.at), RetiredBy(cfg, s, r), r.held)
  }

  ghost function Step(cfg: Settings, s: State, r: Record): State {
    var s1 := Initialized(s, r.cycle);
    if Complete(s1, r.cycle) then Recorded(cfg, s1, r) else s1
  }

  /** What the record saw, held back and reported, apart from places. */
  ghost predicate SaysRight(cfg: Settings, s: State, r: Record) {
    var s1 := Initialized(s, r.cycle);
    if Complete(s1, r.cycle) then
      && r.current == Current(cfg, s1, r.cycle) && r.held == Held(cfg, s1, r.cycle)
      && Says(r.batch, r.current.Keys, RetiredBy(cfg, s1, r), LostProcesses(s1, r.cycle))
      && Settles(r.batch, LostSessions(s1, r.cycle), UnverifiedSessions(s1, r.cycle))
      && PlacesEach(r.batch, r.current.Keys, r.cycle.panesComplete)
      && Lists(r.batch, ListingsOf(r.cycle.catalog, Scanned(r.cycle)))
    else
      r.batch == []
  }

  /**
   * The record is one that a cycle starting in `s` can leave. The batch is pinned
   * down up to the order in which maps are walked.
   */
  ghost predicate Possible(cfg: Settings, s: State, r: Record) {
    var s1 := Initialized(s, r.cycle);
    SaysRight(cfg, s, r) && (Complete(s1, r.cycle) ==> PlacesRight(r.batch, r.cycle, Kept(cfg, s1, r.cycle)))
  }
}
