/** Stock result types shared by the whole project. */
module Options {
  datatype Option<+T> = None | Some(value: T)

  datatype Result<+T, +E> = Ok(value: T) | Err(error: E)
}

/** Elementary facts about finite sets. */
module Sets {
  lemma SomeMember<T>(s: set<T>) returns (x: T)
    requires s != {}
    ensures x in s
  {
    x :| x in s;
  }

  lemma SubsetSize<T>(a: set<T>, b: set<T>)
    requires a <= b
    ensures |a| <= |b|
  {
    assert b == a + (b - a);
  }
}

/** One entry of the process snapshot that a tracker cycle works on. */
module Processes {
  import opened Options

  type Harness = string

  /**
   * `resolved` is the answer of the command-name matcher (`resolveHarness`),
   * `named` the harness its executable name alone stands for, and `wrapper` the
   * answer of `IsAgentWrapper`; all three only look at this process.
   */
  datatype Process = Process(
    pid: int,
    ppid: int,
    start: string,
    resolved: Option<Harness>,
    named: Option<Harness>,
    wrapper: bool,
    foreground: bool,
    group: int,
    tty: string
  )

  /** A PID index: every entry is filed under its own PID. */
  ghost predicate WellKeyed(byPid: map<int, Process>) {
    forall pid :: pid in byPid ==> byPid[pid].pid == pid
  }

  /** As built by `processesByPID`: kernel processes without a PID are not indexed. */
  ghost predicate Index(byPid: map<int, Process>) {
    WellKeyed(byPid) && forall pid :: pid in byPid ==> pid > 0
  }

  /** The process list and its index describe one scan, in which a PID occurs once. */
  ghost predicate Snapshot(processes: seq<Process>, byPid: map<int, Process>) {
    && Index(byPid)
    && (forall i :: 0 <= i < |processes| && processes[i].pid > 0 ==>
          processes[i].pid in byPid && byPid[processes[i].pid] == processes[i])
    && (forall pid :: pid in byPid ==> byPid[pid] in processes)
    && (forall i, j :: 0 <= i < j < |processes| ==> processes[i].pid != processes[j].pid)
  }

  /** A harness table of one scan: only indexed PIDs carry a harness. */
  ghost predicate HarnessTable(byPid: map<int, Process>, harnessByPid: map<int, Harness>) {
    harnessByPid.Keys <= byPid.Keys
  }
}
