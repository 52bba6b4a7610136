/**
 * The process side of one tracker cycle: which process runs which harness,
 * after agents nested inside other agents have been pruned.
 */
module CycleInventory {
  import opened Options
  import opened Processes
  import opened ProcessForest

  // ---------------------------------------------------------------- the two pruning passes

  /** Some process of the same harness runs below `wrapperPid`, with only wrappers in between. */
  ghost predicate LaunchesThroughWrappers(wrapperPid: int, harness: Harness, processes: seq<Process>,
                                          byPid: map<int, Process>, harnessByPid: map<int, Harness>)
  {
    exists i :: 0 <= i < |processes| && processes[i].pid != wrapperPid && processes[i].pid in harnessByPid
                && harnessByPid[processes[i].pid] == harness && Above(Wrappers(byPid), processes[i], wrapperPid)
  }

  /** The harness table after the first `n` processes of the wrapper pass. */
  ghost function WrapperPass(processes: seq<Process>, n: nat, byPid: map<int, Process>,
                             harnessByPid: map<int, Harness>): (h: map<int, Harness>)
    requires n <= |processes|
    ensures h.Keys <= harnessByPid.Keys && forall pid :: pid in h ==> h[pid] == harnessByPid[pid]
  {
    if n == 0 then harnessByPid
    else
      var h := WrapperPass(processes, n - 1, byPid, harnessByPid);
      var p := processes[n - 1];
      if p.pid in h && p.wrapper && LaunchesThroughWrappers(p.pid, h[p.pid], processes, byPid, h)
      then h - {p.pid} else h
  }

  /** The harness table after the first `n` processes of the nesting pass. */
  ghost function NestingPass(processes: seq<Process>, n: nat, byPid: map<int, Process>,
                             harnessByPid: map<int, Harness>): (h: map<int, Harness>)
    requires n <= |processes|
    ensures h.Keys <= harnessByPid.Keys && forall pid :: pid in h ==> h[pid] == harnessByPid[pid]
  {
    if n == 0 then harnessByPid
    else
      var h := NestingPass(processes, n - 1, byPid, harnessByPid);
      var p := processes[n - 1];
      if p.pid in h && UnderHarness(byPid, h, p, h[p.pid]) then h - {p.pid} else h
  }

  ghost function Pruned(processes: seq<Process>, byPid: map<int, Process>, harnessByPid: map<int, Harness>)
    : map<int, Harness>
  {
    NestingPass(processes, |processes|, byPid, WrapperPass(processes, |processes|, byPid, harnessByPid))
  }

  // ---------------------------------------------------------------- what pruning keeps

  lemma PrunedIsPart(processes: seq<Process>, byPid: map<int, Process>, harnessByPid: map<int, Harness>)
    requires HarnessTable(byPid, harnessByPid)
    ensures var h := Pruned(processes, byPid, harnessByPid);
            HarnessTable(byPid, h) && forall pid :: pid in h ==> pid in harnessByPid && h[pid] == harnessByPid[pid]
  {
  }

  /** One step of the wrapper pass drops at most one wrapper, and not the process it led to. */
  lemma WrapperStep(processes: seq<Process>, n: nat, byPid: map<int, Process>,
                    harnessByPid: map<int, Harness>, x: int) returns (q: int)
    requires 0 < n <= |processes| && Snapshot(processes, byPid) && HarnessTable(byPid, harnessByPid)
    requires x in WrapperPass(processes, n - 1, byPid, harnessByPid)
    ensures forall r :: r in WrapperPass(processes, n - 1, byPid, harnessByPid) && r != processes[n - 1].pid ==>
              r in WrapperPass(processes, n, byPid, harnessByPid)
    ensures x !in WrapperPass(processes, n, byPid, harnessByPid) ==>
              q in WrapperPass(processes, n, byPid, harnessByPid) && x in Wrappers(byPid)
              && harnessByPid[q] == harnessByPid[x] && Above(Wrappers(byPid), byPid[q], x)
  {
    var before := WrapperPass(processes, n - 1, byPid, harnessByPid);
    q := x;
    if x !in WrapperPass(processes, n, byPid, harnessByPid) {
      assert x == processes[n - 1].pid && LaunchesThroughWrappers(x, before[x], processes, byPid, before);
      var i :| 0 <= i < |processes| && processes[i].pid != x && processes[i].pid in before
               && before[processes[i].pid] == before[x] && Above(Wrappers(byPid), processes[i], x);
      q := processes[i].pid;
    }
  }

  /** A wrapper that was dropped still has a process of its harness running below it. */
  lemma {:induction false} DroppedWrapperHasDescendant(processes: seq<Process>, n: nat, byPid: map<int, Process>,
                                                       harnessByPid: map<int, Harness>, x: int) returns (q: int)
    requires n <= |processes| && Snapshot(processes, byPid) && HarnessTable(byPid, harnessByPid)
    requires x in harnessByPid && x !in WrapperPass(processes, n, byPid, harnessByPid)
    ensures q in WrapperPass(processes, n, byPid, harnessByPid) && x in Wrappers(byPid)
            && harnessByPid[q] == harnessByPid[x] && Above(Wrappers(byPid), byPid[q], x)
  {
    if x in WrapperPass(processes, n - 1, byPid, harnessByPid) {
      q := WrapperStep(processes, n, byPid, harnessByPid, x);
    } else {
      var r := DroppedWrapperHasDescendant(processes, n - 1, byPid, harnessByPid, x);
      q := WrapperStep(processes, n, byPid, harnessByPid, r);
      if r in WrapperPass(processes, n, byPid, harnessByPid) {
        q := r;
      } else {
        AboveTransitive(Wrappers(byPid), byPid[q], r, x);
      }
    }
  }

  /** One step of the nesting pass drops at most one agent, and not the ancestor that made it nested. */
  lemma NestingStep(processes: seq<Process>, n: nat, byPid: map<int, Process>,
                    harnessByPid: map<int, Harness>, x: int) returns (a: int)
    requires 0 < n <= |processes| && Snapshot(processes, byPid) && HarnessTable(byPid, harnessByPid)
    requires x in NestingPass(processes, n - 1, byPid, harnessByPid)
    ensures x !in NestingPass(processes, n, byPid, harnessByPid) ==>
              a in NestingPass(processes, n, byPid, harnessByPid)
              && harnessByPid[a] == harnessByPid[x] && Above(byPid, byPid[x], a)
  {
    var before := NestingPass(processes, n - 1, byPid, harnessByPid);
    a := x;
    if x !in NestingPass(processes, n, byPid, harnessByPid) {
      var p := processes[n - 1];
      assert x == p.pid && UnderHarness(byPid, before, p, before[x]);
      a :| a in before && a != p.pid && before[a] == before[p.pid] && Above(byPid, p, a);
    }
  }

  /** A nested agent that was dropped still has an ancestor running its harness. */
  lemma {:induction false} DroppedNestedHasAncestor(processes: seq<Process>, n: nat, byPid: map<int, Process>,
                                                    harnessByPid: map<int, Harness>, x: int) returns (a: int)
    requires n <= |processes| && Snapshot(processes, byPid) && HarnessTable(byPid, harnessByPid)
    requires x in harnessByPid && x !in NestingPass(processes, n, byPid, harnessByPid)
    ensures a in NestingPass(processes, n, byPid, harnessByPid)
            && harnessByPid[a] == harnessByPid[x] && Above(byPid, byPid[x], a)
  {
    if x in NestingPass(processes, n - 1, byPid, harnessByPid) {
      a := NestingStep(processes, n, byPid, harnessByPid, x);
    } else {
      var b := DroppedNestedHasAncestor(processes, n - 1, byPid, harnessByPid, x);
      a := NestingStep(processes, n, byPid, harnessByPid, b);
      if b in NestingPass(processes, n, byPid, harnessByPid) {
        a := b;
      } else {
        AboveTransitive(byPid, byPid[x], b, a);
      }
    }
  }

  /** Having no same-harness ancestor is kept while the table shrinks. */
  lemma {:induction false} NestingPassLeavesRoots(processes: seq<Process>, n: nat, byPid: map<int, Process>,
                                                  harnessByPid: map<int, Harness>, i: nat)
    requires i < n <= |processes|
    requires processes[i].pid in NestingPass(processes, n, byPid, harnessByPid)
    ensures !UnderHarness(byPid, NestingPass(processes, n, byPid, harnessByPid), processes[i],
                          harnessByPid[processes[i].pid])
  {
    if i < n - 1 {
      NestingPassLeavesRoots(processes, n - 1, byPid, harnessByPid, i);
    }
  }

  /** After pruning, no agent runs below another surviving agent of the same harness. */
  lemma NoSurvivorIsNested(processes: seq<Process>, byPid: map<int, Process>, harnessByPid: map<int, Harness>)
    requires Snapshot(processes, byPid) && HarnessTable(byPid, harnessByPid)
    ensures var pruned := Pruned(processes, byPid, harnessByPid);
            forall pid :: pid in pruned ==> !UnderHarness(byPid, pruned, byPid[pid], pruned[pid])
  {
    var kept := WrapperPass(processes, |processes|, byPid, harnessByPid);
    var pruned := Pruned(processes, byPid, harnessByPid);
    forall pid | pid in pruned ensures !UnderHarness(byPid, pruned, byPid[pid], pruned[pid]) {
      var i :| 0 <= i < |processes| && processes[i] == byPid[pid];
      NestingPassLeavesRoots(processes, |processes|, byPid, kept, i);
    }
  }

  /**
   * Every agent that pruning drops has a surviving relative of its harness, above
   * or below it, whether or not the parent links are acyclic.
   */
  lemma DroppedHasSurvivingRelative(processes: seq<Process>, byPid: map<int, Process>,
                                    harnessByPid: map<int, Harness>, x: int)
    requires Snapshot(processes, byPid) && HarnessTable(byPid, harnessByPid)
    requires x in harnessByPid && x !in Pruned(processes, byPid, harnessByPid)
    ensures exists y :: y in Pruned(processes, byPid, harnessByPid) && harnessByPid[y] == harnessByPid[x]
                        && (Above(byPid, byPid[y], x) || Above(byPid, byPid[x], y))
  {
    var n := |processes|;
    var kept := WrapperPass(processes, n, byPid, harnessByPid);
    if x in kept {
      var a := DroppedNestedHasAncestor(processes, n, byPid, kept, x);
    } else {
      var q := DroppedWrapperHasDescendant(processes, n, byPid, harnessByPid, x);
      WrapperChainIsChain(byPid, byPid[q], x);
      if q !in Pruned(processes, byPid, harnessByPid) {
        var a := DroppedNestedHasAncestor(processes, n, byPid, kept, q);
        AncestorsComparable(byPid, byPid[q], x, a);
      }
    }
  }

  /** No harness disappears from a cycle because of pruning. */
  lemma NoHarnessIsLost(processes: seq<Process>, byPid: map<int, Process>, harnessByPid: map<int, Harness>)
    requires Snapshot(processes, byPid) && HarnessTable(byPid, harnessByPid)
    ensures forall x :: x in harnessByPid ==> Runs(Pruned(processes, byPid, harnessByPid), harnessByPid[x])
  {
    forall x | x in harnessByPid ensures Runs(Pruned(processes, byPid, harnessByPid), harnessByPid[x]) {
      if x !in Pruned(processes, byPid, harnessByPid) {
        DroppedHasSurvivingRelative(processes, byPid, harnessByPid, x);
      }
    }
  }

  /** Some process of the table runs harness `h`. */
  ghost predicate Runs(harnessByPid: map<int, Harness>, h: Harness) {
    exists y :: y in harnessByPid && harnessByPid[y] == h
  }

  ghost predicate Acyclic(byPid: map<int, Process>) {
    forall x :: x in byPid ==> !Above(byPid, byPid[x], x)
  }

  /** On acyclic links the order of the scan is irrelevant: exactly the topmost agents stay. */
  lemma AcyclicNestingKeepsTopmost(processes: seq<Process>, byPid: map<int, Process>,
                                   harnessByPid: map<int, Harness>, pid: int)
    requires Snapshot(processes, byPid) && HarnessTable(byPid, harnessByPid) && Acyclic(byPid)
    requires pid in harnessByPid
    ensures pid in NestingPass(processes, |processes|, byPid, harnessByPid)
            <==> !UnderHarness(byPid, harnessByPid, byPid[pid], harnessByPid[pid])
  {
    var n := |processes|;
    var kept := NestingPass(processes, n, byPid, harnessByPid);
    if pid in kept && UnderHarness(byPid, harnessByPid, byPid[pid], harnessByPid[pid]) {
      var a :| a in harnessByPid && a != pid && harnessByPid[a] == harnessByPid[pid] && Above(byPid, byPid[pid], a);
      var b := a;
      if a !in kept {
        b := DroppedNestedHasAncestor(processes, n, byPid, harnessByPid, a);
        AboveTransitive(byPid, byPid[pid], a, b);
      }
      var i :| 0 <= i < |processes| && processes[i] == byPid[pid];
      NestingPassLeavesRoots(processes, n, byPid, harnessByPid, i);
      assert false;
    }
    if pid !in kept {
      var a := DroppedNestedHasAncestor(processes, n, byPid, harnessByPid, pid);
    }
  }

  // ---------------------------------------------------------------- which wrappers go

  /** A wrapper that only launches another process of its harness. */
  ghost predicate Launcher(processes: seq<Process>, byPid: map<int, Process>, harnessByPid: map<int, Harness>, pid: int) {
    && pid in harnessByPid && pid in byPid && byPid[pid].wrapper
    && LaunchesThroughWrappers(pid, harnessByPid[pid], processes, byPid, harnessByPid)
  }

  /** An agent of the table that runs the harness is above the process. */
  ghost predicate HasAncestorIn(byPid: map<int, Process>, harnessByPid: map<int, Harness>, p: Process, harness: Harness) {
    exists a :: a in harnessByPid && harnessByPid[a] == harness && Above(byPid, p, a)
  }

  /** With fewer agents in the table there are no new launchers. */
  lemma LaunchersShrink(processes: seq<Process>, byPid: map<int, Process>, few: map<int, Harness>, many: map<int, Harness>, pid: int)
    requires forall x :: x in few ==> x in many && few[x] == many[x]
    requires Launcher(processes, byPid, few, pid)
    ensures Launcher(processes, byPid, many, pid)
  {
    var i :| 0 <= i < |processes| && processes[i].pid != pid && processes[i].pid in few
             && few[processes[i].pid] == few[pid] && Above(Wrappers(byPid), processes[i], pid);
    assert many[processes[i].pid] == many[pid];
  }

  lemma {:induction false} WrapperPassLeavesNoLauncher(processes: seq<Process>, n: nat, byPid: map<int, Process>,
                                                       harnessByPid: map<int, Harness>, i: nat)
    requires i < n <= |processes| && Snapshot(processes, byPid) && HarnessTable(byPid, harnessByPid)
    requires processes[i].pid in harnessByPid
    ensures !Launcher(processes, byPid, WrapperPass(processes, n, byPid, harnessByPid), processes[i].pid)
  {
    var (h, pid) := (WrapperPass(processes, n, byPid, harnessByPid), processes[i].pid);
    assert byPid[pid] == processes[i];
    if Launcher(processes, byPid, h, pid) {
      LaunchersShrink(processes, byPid, h, WrapperPass(processes, n - 1, byPid, harnessByPid), pid);
      if i < n - 1 {
        WrapperPassLeavesNoLauncher(processes, n - 1, byPid, harnessByPid, i);
      }
    }
  }

  /** No surviving wrapper launches a surviving agent of its harness. */
  lemma NoSurvivorIsLauncher(processes: seq<Process>, byPid: map<int, Process>, harnessByPid: map<int, Harness>)
    requires Snapshot(processes, byPid) && HarnessTable(byPid, harnessByPid)
    ensures forall pid :: !Launcher(processes, byPid, Pruned(processes, byPid, harnessByPid), pid)
  {
    var n := |processes|;
    var kept := WrapperPass(processes, n, byPid, harnessByPid);
    forall pid ensures !Launcher(processes, byPid, Pruned(processes, byPid, harnessByPid), pid) {
      if Launcher(processes, byPid, Pruned(processes, byPid, harnessByPid), pid) {
        LaunchersShrink(processes, byPid, Pruned(processes, byPid, harnessByPid), kept, pid);
        var i :| 0 <= i < n && processes[i] == byPid[pid];
        WrapperPassLeavesNoLauncher(processes, n, byPid, harnessByPid, i);
      }
    }
  }

  lemma {:induction false} OnlyLaunchersGo(processes: seq<Process>, n: nat, byPid: map<int, Process>,
                                           harnessByPid: map<int, Harness>, x: int)
    requires n <= |processes| && Snapshot(processes, byPid) && HarnessTable(byPid, harnessByPid)
    requires x in harnessByPid && x !in WrapperPass(processes, n, byPid, harnessByPid)
    ensures Launcher(processes, byPid, harnessByPid, x)
  {
    var before := WrapperPass(processes, n - 1, byPid, harnessByPid);
    if x in before {
      assert processes[n - 1].pid == x && byPid[x] == processes[n - 1];
      LaunchersShrink(processes, byPid, before, harnessByPid, x);
    } else {
      OnlyLaunchersGo(processes, n - 1, byPid, harnessByPid, x);
    }
  }

  /** An agent that is dropped without being a launcher runs below a surviving one of its harness. */
  lemma DroppedAgentIsNested(processes: seq<Process>, byPid: map<int, Process>, harnessByPid: map<int, Harness>, x: int)
    requires Snapshot(processes, byPid) && HarnessTable(byPid, harnessByPid)
    requires x in harnessByPid && x !in Pruned(processes, byPid, harnessByPid) && !Launcher(processes, byPid, harnessByPid, x)
    ensures HasAncestorIn(byPid, Pruned(processes, byPid, harnessByPid), byPid[x], harnessByPid[x])
  {
    var n := |processes|;
    var kept := WrapperPass(processes, n, byPid, harnessByPid);
    if x !in kept {
      OnlyLaunchersGo(processes, n, byPid, harnessByPid, x);
    }
    var a := DroppedNestedHasAncestor(processes, n, byPid, kept, x);
  }

  /** The agents that are not launchers. */
  ghost function WithoutLaunchers(processes: seq<Process>, byPid: map<int, Process>, harnessByPid: map<int, Harness>)
    : map<int, Harness>
  {
    map pid | pid in harnessByPid && !Launcher(processes, byPid, harnessByPid, pid) :: harnessByPid[pid]
  }

  /** On acyclic links the wrapper pass drops exactly the launchers, although it works on a shrinking table. */
  lemma AcyclicWrapperPass(processes: seq<Process>, byPid: map<int, Process>, harnessByPid: map<int, Harness>)
    requires Snapshot(processes, byPid) && HarnessTable(byPid, harnessByPid) && Acyclic(byPid)
    ensures WrapperPass(processes, |processes|, byPid, harnessByPid) == WithoutLaunchers(processes, byPid, harnessByPid)
  {
    var n := |processes|;
    var kept := WrapperPass(processes, n, byPid, harnessByPid);
    forall pid | pid in harnessByPid ensures pid in kept <==> !Launcher(processes, byPid, harnessByPid, pid) {
      if pid !in kept {
        OnlyLaunchersGo(processes, n, byPid, harnessByPid, pid);
      } else if Launcher(processes, byPid, harnessByPid, pid) {
        LauncherIsDropped(processes, byPid, harnessByPid, pid);
      }
    }
  }

  lemma LauncherIsDropped(processes: seq<Process>, byPid: map<int, Process>, harnessByPid: map<int, Harness>, pid: int)
    requires Snapshot(processes, byPid) && HarnessTable(byPid, harnessByPid) && Acyclic(byPid)
    requires Launcher(processes, byPid, harnessByPid, pid)
    ensures pid !in WrapperPass(processes, |processes|, byPid, harnessByPid)
  {
    var n := |processes|;
    var kept := WrapperPass(processes, n, byPid, harnessByPid);
    var j :| 0 <= j < n && processes[j].pid != pid && processes[j].pid in harnessByPid
             && harnessByPid[processes[j].pid] == harnessByPid[pid] && Above(Wrappers(byPid), processes[j], pid);
    var q := processes[j].pid;
    assert byPid[q] == processes[j];
    if q !in kept {
      var d := DroppedWrapperHasDescendant(processes, n, byPid, harnessByPid, q);
      AboveTransitive(Wrappers(byPid), byPid[d], q, pid);
      q := d;
    }
    WrapperChainIsChain(byPid, byPid[q], pid);
    assert q != pid;
    var k :| 0 <= k < n && processes[k] == byPid[q];
    var i :| 0 <= i < n && processes[i] == byPid[pid];
    if pid in kept {
      assert LaunchesThroughWrappers(pid, kept[pid], processes, byPid, kept);
      WrapperPassLeavesNoLauncher(processes, n, byPid, harnessByPid, i);
    }
  }

  /**
   * On acyclic links pruning does not depend on the order of the scan: of the agents that
   * are not launchers, exactly those survive that run below no other such one of their harness.
   */
  lemma AcyclicPruning(processes: seq<Process>, byPid: map<int, Process>, harnessByPid: map<int, Harness>, pid: int)
    requires Snapshot(processes, byPid) && HarnessTable(byPid, harnessByPid) && Acyclic(byPid)
    ensures var agents := WithoutLaunchers(processes, byPid, harnessByPid);
            pid in Pruned(processes, byPid, harnessByPid)
            <==> pid in agents && !UnderHarness(byPid, agents, byPid[pid], agents[pid])
  {
    AcyclicWrapperPass(processes, byPid, harnessByPid);
    var agents := WithoutLaunchers(processes, byPid, harnessByPid);
    if pid in agents {
      AcyclicNestingKeepsTopmost(processes, byPid, agents, pid);
    }
  }

  // ---------------------------------------------------------------- foreground flags

  /** What `normalizeHarnessForeground` leaves of a process. */
  ghost function Normalized(p: Process, byPid: map<int, Process>, harnessByPid: map<int, Harness>): Process {
    p.(foreground := p.foreground && !(p.pid in harnessByPid && Nested(byPid, harnessByPid, p)))
  }

  /** Every parent link of `a` is one of `b`. */
  ghost predicate LinksWithin(a: map<int, Process>, b: map<int, Process>) {
    forall pid :: pid in a ==> pid in b && a[pid].ppid == b[pid].ppid
  }

  /** Ancestry only reads parent links. */
  lemma {:induction false} SameLinksSameAncestor(a: map<int, Process>, b: map<int, Process>, p: Process, q: Process, k: nat)
    requires LinksWithin(a, b) && p.ppid == q.ppid && Ancestor(a, p, k).Some?
    ensures Ancestor(b, q, k).Some? && Ancestor(b, q, k).value.ppid == Ancestor(a, p, k).value.ppid
  {
    if k > 0 {
      SameLinksSameAncestor(a, b, p, q, k - 1);
    }
  }

  lemma SameLinksSameAbove(a: map<int, Process>, b: map<int, Process>, p: Process, q: Process, root: int)
    requires LinksWithin(a, b) && p.ppid == q.ppid && Above(a, p, root)
    ensures Above(b, q, root)
  {
    var k: nat :| Ancestor(a, p, k).Some? && Ancestor(a, p, k).value.ppid == root;
    SameLinksSameAncestor(a, b, p, q, k);
  }

  /** Whatever is above a process by the one index is so by the other. */
  ghost predicate AncestryWithin(a: map<int, Process>, b: map<int, Process>) {
    forall p: Process, q: Process, root :: p.ppid == q.ppid && Above(a, p, root) ==> Above(b, q, root)
  }

  lemma LinksDecideAncestry(a: map<int, Process>, b: map<int, Process>)
    requires LinksWithin(a, b)
    ensures AncestryWithin(a, b)
  {
    forall p: Process, q: Process, root | p.ppid == q.ppid && Above(a, p, root) ensures Above(b, q, root) {
      SameLinksSameAbove(a, b, p, q, root);
    }
  }

  /** Clearing flags keeps all links; only processes without a PID come to be indexed. */
  lemma NormalizingKeepsLinks(scan: seq<Process>, index: map<int, Process>, processes: seq<Process>, byPid: map<int, Process>)
    requires Snapshot(scan, index) && |processes| == |scan| && WellKeyed(byPid)
    requires forall i :: 0 <= i < |scan| ==> processes[i].pid == scan[i].pid && processes[i].ppid == scan[i].ppid
    requires forall i :: 0 <= i < |scan| ==> processes[i].pid in byPid && byPid[processes[i].pid] == processes[i]
    requires forall pid :: pid in byPid && pid > 0 ==> pid in index
    requires forall pid :: pid in byPid && pid !in index ==> byPid[pid] in processes
    ensures LinksWithin(index, byPid)
    ensures (forall p :: p in scan ==> p.pid > 0) ==> LinksWithin(byPid, index)
  {
    forall pid | pid in index ensures pid in byPid && index[pid].ppid == byPid[pid].ppid {
      var i :| 0 <= i < |scan| && scan[i] == index[pid];
      assert processes[i].pid == pid;
    }
  }

  // ---------------------------------------------------------------- the inventory

  /** The process list, its PID index and the harness table that a cycle works on. */
  class Inventory {
    var processes: seq<Process>
    var byPid: map<int, Process>
    var harnessByPid: map<int, Harness>

    ghost predicate Valid()
      reads this
    {
      Snapshot(processes, byPid) && HarnessTable(byPid, harnessByPid)
    }

    /** `processesByPID` and `resolveHarnesses` over one scan, in which PIDs are unique. */
    constructor (scan: seq<Process>)
      requires forall i, j :: 0 <= i < j < |scan| ==> scan[i].pid != scan[j].pid
      ensures Valid() && processes == scan
      ensures forall p :: p in scan && p.pid > 0 ==> p.pid in byPid && byPid[p.pid] == p
      ensures forall p :: p in scan ==>
                (p.pid in harnessByPid <==> p.pid > 0 && p.start != "" && p.resolved.Some?)
      ensures forall p :: p in scan && p.pid in harnessByPid ==> p.resolved == Some(harnessByPid[p.pid])
    {
      var index: map<int, Process> := map[];
      var harnesses: map<int, Harness> := map[];
      for i := 0 to |scan|
        invariant Index(index) && HarnessTable(index, harnesses)
        invariant forall j :: 0 <= j < i && scan[j].pid > 0 ==> scan[j].pid in index && index[scan[j].pid] == scan[j]
        invariant forall pid :: pid in index ==> index[pid] in scan[..i]
        invariant forall j :: 0 <= j < i ==>
          (scan[j].pid in harnesses <==> scan[j].pid > 0 && scan[j].start != "" && scan[j].resolved.Some?)
        invariant forall j :: 0 <= j < i && scan[j].pid in harnesses ==> scan[j].resolved == Some(harnesses[scan[j].pid])
      {
        var p := scan[i];
        assert scan[..i + 1] == scan[..i] + [p];
        if p.pid > 0 {
          index := index[p.pid := p];
          if p.start != "" && p.resolved.Some? {
            harnesses := harnesses[p.pid := p.resolved.value];
          }
        }
      }
      assert scan[..|scan|] == scan;
      processes, byPid, harnessByPid := scan, index, harnesses;
    }

    /** `launchesHarnessThroughWrappers` */
    method LaunchesHarness(wrapperPid: int, harness: Harness) returns (found: bool)
      requires Valid() && wrapperPid in byPid
      ensures found <==> LaunchesThroughWrappers(wrapperPid, harness, processes, byPid, harnessByPid)
    {
      for i := 0 to |processes|
        invariant forall j :: 0 <= j < i && processes[j].pid != wrapperPid && processes[j].pid in harnessByPid
                              && harnessByPid[processes[j].pid] == harness
                              ==> !Above(Wrappers(byPid), processes[j], wrapperPid)
      {
        var p := processes[i];
        if p.pid == wrapperPid || p.pid !in harnessByPid || harnessByPid[p.pid] != harness {
          continue;
        }
        var reached := ReachedThroughWrappers(p, wrapperPid, byPid);
        if reached {
          return true;
        }
      }
      return false;
    }

    /** The first loop of `pruneNestedHarnesses`: entries are deleted while the scan is walked. */
    method PruneWrappers()
      requires Valid()
      modifies this`harnessByPid
      ensures Valid() && harnessByPid == WrapperPass(processes, |processes|, byPid, old(harnessByPid))
    {
      for i := 0 to |processes|
        invariant harnessByPid == WrapperPass(processes, i, byPid, old(harnessByPid))
      {
        var p := processes[i];
        if p.pid in harnessByPid && p.wrapper {
          var launches := LaunchesHarness(p.pid, harnessByPid[p.pid]);
          if launches {
            harnessByPid := harnessByPid - {p.pid};
          }
        }
      }
    }

    /** The second loop of `pruneNestedHarnesses` */
    method PruneDescendants()
      requires Valid()
      modifies this`harnessByPid
      ensures Valid() && harnessByPid == NestingPass(processes, |processes|, byPid, old(harnessByPid))
    {
      for i := 0 to |processes|
        invariant harnessByPid == NestingPass(processes, i, byPid, old(harnessByPid))
      {
        var p := processes[i];
        if p.pid in harnessByPid {
          var nested := HasAncestorHarness(p.pid, harnessByPid[p.pid], byPid, harnessByPid);
          if nested {
            harnessByPid := harnessByPid - {p.pid};
          }
        }
      }
    }

    /** `pruneNestedHarnesses` */
    method PruneNested()
      requires Valid()
      modifies this`harnessByPid
      ensures Valid() && harnessByPid == Pruned(processes, byPid, old(harnessByPid))
      ensures forall x :: x in old(harnessByPid) ==> Runs(harnessByPid, old(harnessByPid)[x])
      ensures forall pid :: pid in harnessByPid ==>
                !UnderHarness(byPid, harnessByPid, byPid[pid], harnessByPid[pid])
      ensures forall pid :: !Launcher(processes, byPid, harnessByPid, pid)
      ensures forall x :: x in old(harnessByPid) && x !in harnessByPid && !Launcher(processes, byPid, old(harnessByPid), x) ==>
                HasAncestorIn(byPid, harnessByPid, byPid[x], old(harnessByPid)[x])
    {
      forall x | x in harnessByPid && x !in Pruned(processes, byPid, harnessByPid) && !Launcher(processes, byPid, harnessByPid, x)
        ensures HasAncestorIn(byPid, Pruned(processes, byPid, harnessByPid), byPid[x], harnessByPid[x])
      {
        DroppedAgentIsNested(processes, byPid, harnessByPid, x);
      }
      NoSurvivorIsLauncher(processes, byPid, harnessByPid);
      NoHarnessIsLost(processes, byPid, harnessByPid);
      NoSurvivorIsNested(processes, byPid, harnessByPid);
      PruneWrappers();
      PruneDescendants();
    }

    /**
     * `normalizeHarnessForeground`: the kernel's foreground flag covers a whole
     * process group, so it is taken away from agents nested inside other agents.
     * The index afterwards files every listed process, also one without a PID.
     */
    method NormalizeForeground()
      requires Valid()
      modifies this`processes, this`byPid
      ensures |processes| == |old(processes)| && WellKeyed(byPid) && HarnessTable(byPid, harnessByPid)
      ensures forall pid :: pid in byPid && pid > 0 ==> pid in old(byPid)
      ensures forall pid :: pid in byPid && pid !in old(byPid) ==> byPid[pid] in processes
      ensures forall i :: 0 <= i < |processes| ==>
                processes[i] == Normalized(old(processes)[i], old(byPid), harnessByPid)
                && processes[i].pid in byPid && byPid[processes[i].pid] == processes[i]
      ensures forall i :: 0 <= i < |processes| ==>
                var (p, was) := (processes[i], old(processes)[i]);
                p == was.(foreground := p.foreground)
                && (p.foreground <==> was.foreground && !(was.pid in harnessByPid && Nested(old(byPid), harnessByPid, was)))
      ensures AncestryWithin(old(byPid), byPid)
      ensures (forall p :: p in old(processes) ==> p.pid > 0) ==> AncestryWithin(byPid, old(byPid))
    {
      ghost var was, index := processes, byPid;
      ClearForeground();
      FileAgain();
      NormalizingKeepsLinks(was, index, processes, byPid);
      LinksDecideAncestry(index, byPid);
      if forall p :: p in was ==> p.pid > 0 {
        LinksDecideAncestry(byPid, index);
      }
    }

    /** The first loop of `normalizeHarnessForeground` */
    method ClearForeground()
      requires Valid()
      modifies this`processes
      ensures |processes| == |old(processes)|
      ensures forall i :: 0 <= i < |processes| ==> processes[i] == Normalized(old(processes)[i], byPid, harnessByPid)
    {
      ghost var was := processes;
      for i := 0 to |processes|
        invariant |processes| == |was|
        invariant forall j :: 0 <= j < i ==> processes[j] == Normalized(was[j], byPid, harnessByPid)
        invariant forall j :: i <= j < |was| ==> processes[j] == was[j]
      {
        var p := processes[i];
        if p.foreground && p.pid in harnessByPid {
          var nested := NestedHarness(p, byPid, harnessByPid);
          if nested {
            processes := processes[i := p.(foreground := false)];
          }
        }
      }
    }

    /** The second loop of `normalizeHarnessForeground`, which files every process under its PID again. */
    method FileAgain()
      requires WellKeyed(byPid) && HarnessTable(byPid, harnessByPid)
      requires forall i :: 0 <= i < |processes| && processes[i].pid > 0 ==> processes[i].pid in byPid
      requires forall i, j :: 0 <= i < j < |processes| ==> processes[i].pid != processes[j].pid
      modifies this`byPid
      ensures WellKeyed(byPid) && HarnessTable(byPid, harnessByPid)
      ensures forall pid :: pid in byPid && pid > 0 ==> pid in old(byPid)
      ensures forall pid :: pid in byPid && pid !in old(byPid) ==> byPid[pid] in processes
      ensures forall i :: 0 <= i < |processes| ==> processes[i].pid in byPid && byPid[processes[i].pid] == processes[i]
    {
      ghost var index := byPid;
      for i := 0 to |processes|
        invariant WellKeyed(byPid) && index.Keys <= byPid.Keys
        invariant forall pid :: pid in byPid && pid > 0 ==> pid in index
        invariant forall pid :: pid in byPid && pid !in index ==> byPid[pid] in processes
        invariant forall j :: 0 <= j < i ==> processes[j].pid in byPid && byPid[processes[j].pid] == processes[j]
      {
        byPid := byPid[processes[i].pid := processes[i]];
      }
    }
  }
}
