/**
 * Parent links of a process snapshot. The links come from the kernel while
 * processes start and exit, so nothing rules out self-loops or cycles; every
 * result below holds for an arbitrary parent relation.
 */
module ProcessForest {
  import opened Options
  import opened Processes
  import Sets

  // ---------------------------------------------------------------- reachability

  /** The k-th parent of `p`, as far as the index knows it. */
  ghost function Ancestor(byPid: map<int, Process>, p: Process, k: nat): Option<Process> {
    if k == 0 then Some(p)
    else match Ancestor(byPid, p, k - 1)
      case None => None
      case Some(q) => if q.ppid in byPid then Some(byPid[q.ppid]) else None
  }

  /** PID `a` is named by some parent link on the way up from `p`. */
  ghost predicate Above(byPid: map<int, Process>, p: Process, a: int) {
    exists k: nat :: Ancestor(byPid, p, k).Some? && Ancestor(byPid, p, k).value.ppid == a
  }

  /** Some other process above `p` carries harness `h`. */
  ghost predicate UnderHarness(byPid: map<int, Process>, harnessByPid: map<int, Harness>, p: Process, h: Harness) {
    exists a :: a in harnessByPid && a != p.pid && harnessByPid[a] == h && Above(byPid, p, a)
  }

  /** Some other process above `p` carries a harness. */
  ghost predicate Nested(byPid: map<int, Process>, harnessByPid: map<int, Harness>, p: Process) {
    exists a :: a in harnessByPid && a != p.pid && Above(byPid, p, a)
  }

  /** The part of the index that a chain of wrappers may pass through. */
  ghost function Wrappers(byPid: map<int, Process>): map<int, Process> {
    map pid | pid in byPid && byPid[pid].wrapper :: byPid[pid]
  }

  lemma {:induction false} AncestorSplit(byPid: map<int, Process>, p: Process, i: nat, j: nat)
    requires Ancestor(byPid, p, i).Some?
    ensures Ancestor(byPid, p, i + j) == Ancestor(byPid, Ancestor(byPid, p, i).value, j)
  {
    if j > 0 {
      AncestorSplit(byPid, p, i, j - 1);
    }
  }

  /** Ancestry is transitive, cycles or not. */
  lemma AboveTransitive(byPid: map<int, Process>, p: Process, a: int, b: int)
    requires Above(byPid, p, a) && a in byPid && Above(byPid, byPid[a], b)
    ensures Above(byPid, p, b)
  {
    var i: nat :| Ancestor(byPid, p, i).Some? && Ancestor(byPid, p, i).value.ppid == a;
    var j: nat :| Ancestor(byPid, byPid[a], j).Some? && Ancestor(byPid, byPid[a], j).value.ppid == b;
    assert Ancestor(byPid, p, i + 1) == Some(byPid[a]);
    AncestorSplit(byPid, p, i + 1, j);
  }

  /** Two ancestors of one process lie on one line. */
  lemma AncestorsComparable(byPid: map<int, Process>, p: Process, a: int, b: int)
    requires Above(byPid, p, a) && Above(byPid, p, b) && a in byPid && b in byPid && a != b
    ensures Above(byPid, byPid[a], b) || Above(byPid, byPid[b], a)
  {
    var i: nat :| Ancestor(byPid, p, i).Some? && Ancestor(byPid, p, i).value.ppid == a;
    var j: nat :| Ancestor(byPid, p, j).Some? && Ancestor(byPid, p, j).value.ppid == b;
    if i < j {
      assert Ancestor(byPid, p, i + 1) == Some(byPid[a]);
      AncestorSplit(byPid, p, i + 1, j - i - 1);
      assert Ancestor(byPid, byPid[a], j - i - 1).Some?;
    } else {
      assert Ancestor(byPid, p, j + 1) == Some(byPid[b]);
      AncestorSplit(byPid, p, j + 1, i - j - 1);
      assert Ancestor(byPid, byPid[b], i - j - 1).Some?;
    }
  }

  lemma {:induction false} SubIndexAncestor(sub: map<int, Process>, byPid: map<int, Process>, p: Process, k: nat)
    requires forall pid :: pid in sub ==> pid in byPid && byPid[pid] == sub[pid]
    requires Ancestor(sub, p, k).Some?
    ensures Ancestor(byPid, p, k) == Ancestor(sub, p, k)
  {
    if k > 0 {
      SubIndexAncestor(sub, byPid, p, k - 1);
    }
  }

  /** A chain through wrappers is a chain. */
  lemma WrapperChainIsChain(byPid: map<int, Process>, p: Process, a: int)
    requires Above(Wrappers(byPid), p, a)
    ensures Above(byPid, p, a)
  {
    var k: nat :| Ancestor(Wrappers(byPid), p, k).Some? && Ancestor(Wrappers(byPid), p, k).value.ppid == a;
    SubIndexAncestor(Wrappers(byPid), byPid, p, k);
  }

  /** A set of PIDs that parent links cannot leave. */
  ghost predicate ClosedUp(byPid: map<int, Process>, s: set<int>) {
    forall x :: x in s && x in byPid ==> byPid[x].ppid in s
  }

  lemma {:induction false} ClosedAncestor(byPid: map<int, Process>, s: set<int>, p: Process, k: nat)
    requires ClosedUp(byPid, s) && p.ppid in s
    ensures Ancestor(byPid, p, k).Some? ==> Ancestor(byPid, p, k).value.ppid in s
  {
    if k > 0 {
      ClosedAncestor(byPid, s, p, k - 1);
    }
  }

  lemma ClosedHoldsAncestors(byPid: map<int, Process>, s: set<int>, p: Process)
    requires ClosedUp(byPid, s) && p.ppid in s
    ensures forall a :: Above(byPid, p, a) ==> a in s
  {
    forall a | Above(byPid, p, a) ensures a in s {
      var k: nat :| Ancestor(byPid, p, k).Some? && Ancestor(byPid, p, k).value.ppid == a;
      ClosedAncestor(byPid, s, p, k);
    }
  }

  // ---------------------------------------------------------------- walks with a visited set

  /** `hasAncestorHarness`: a walk that stops at the first PID seen twice. */
  method HasAncestorHarness(pid: int, harness: Harness, byPid: map<int, Process>, harnessByPid: map<int, Harness>)
    returns (found: bool)
    requires Index(byPid) && HarnessTable(byPid, harnessByPid)
    ensures found <==> pid in byPid && UnderHarness(byPid, harnessByPid, byPid[pid], harness)
  {
    if pid !in byPid {
      return false;
    }
    var start := byPid[pid];
    var ppid := start.ppid;
    var visited := {pid};
    ghost var k: nat := 0;
    while ppid > 0 && ppid !in visited
      invariant Ancestor(byPid, start, k).Some? && Ancestor(byPid, start, k).value.ppid == ppid
      invariant pid in visited
      invariant forall x :: x in visited && x in byPid ==> byPid[x].ppid in visited || byPid[x].ppid == ppid
      invariant forall x :: x in visited && x != pid && x in harnessByPid ==> harnessByPid[x] != harness
      decreases byPid.Keys - visited, if ppid in byPid then 1 else 0
    {
      visited := visited + {ppid};
      if ppid in harnessByPid && harnessByPid[ppid] == harness {
        assert Above(byPid, start, ppid);
        return true;
      }
      if ppid !in byPid {
        break;
      }
      ghost var was := ppid;
      ppid := byPid[ppid].ppid;
      k := k + 1;
      assert was in byPid.Keys;
    }
    assert ClosedUp(byPid, visited + {ppid});
    ClosedHoldsAncestors(byPid, visited + {ppid}, start);
    return false;
  }

  /** The inner walk of `launchesHarnessThroughWrappers`. */
  method ReachedThroughWrappers(process: Process, wrapperPid: int, byPid: map<int, Process>) returns (found: bool)
    requires Index(byPid) && process.pid in byPid && byPid[process.pid] == process
    requires wrapperPid > 0 && process.pid != wrapperPid
    ensures found <==> Above(Wrappers(byPid), process, wrapperPid)
  {
    ghost var via := Wrappers(byPid);
    var ppid := process.ppid;
    var visited := {process.pid};
    ghost var k: nat := 0;
    while ppid > 0 && ppid !in visited
      invariant Ancestor(via, process, k).Some? && Ancestor(via, process, k).value.ppid == ppid
      invariant process.pid in visited && wrapperPid !in visited
      invariant process.ppid in visited || process.ppid == ppid
      invariant forall x :: x in visited && x in via ==> via[x].ppid in visited || via[x].ppid == ppid
      decreases byPid.Keys - visited, if ppid in byPid then 1 else 0
    {
      if ppid == wrapperPid {
        return true;
      }
      visited := visited + {ppid};
      if ppid !in byPid || !byPid[ppid].wrapper {
        break;
      }
      ghost var was := ppid;
      ppid := byPid[ppid].ppid;
      k := k + 1;
      assert was in byPid.Keys;
    }
    assert ClosedUp(via, visited + {ppid});
    ClosedHoldsAncestors(via, visited + {ppid}, process);
    return false;
  }

  // ---------------------------------------------------------------- walks bounded by the index size

  /** PIDs whose links have been followed, in a walk bounded by a counter. */
  ghost predicate Followed(byPid: map<int, Process>, seen: set<int>, cursor: int) {
    && seen <= byPid.Keys
    && forall x :: x in seen ==> byPid[x].ppid in seen + {cursor}
  }

  /** After as many steps as the index has entries, a walk has nowhere new to go. */
  lemma FullWalkIsClosed(byPid: map<int, Process>, seen: set<int>, cursor: int)
    requires Followed(byPid, seen, cursor) && cursor in byPid
    requires cursor in seen || |seen| >= |byPid|
    ensures cursor in seen && ClosedUp(byPid, seen)
  {
    if cursor !in seen {
      assert |byPid.Keys| == |byPid|;
      assert seen + {cursor} <= byPid.Keys;
      Sets.SubsetSize(seen + {cursor}, byPid.Keys);
    }
  }

  /** `processDescendsFrom`: at most `|byPid|` links are followed. */
  method DescendsFrom(process: Process, rootPid: int, byPid: map<int, Process>) returns (found: bool)
    requires WellKeyed(byPid) && process.pid in byPid && byPid[process.pid] == process
    ensures found <==> rootPid > 0 && Above(byPid, process, rootPid)
  {
    if rootPid <= 0 {
      return false;
    }
    var cursor := process;
    ghost var seen: set<int> := {};
    for n := 0 to |byPid|
      invariant Ancestor(byPid, process, n) == Some(cursor)
      invariant cursor.pid in byPid && byPid[cursor.pid] == cursor
      invariant Followed(byPid, seen, cursor.pid) && process.pid in seen + {cursor.pid}
      invariant forall x :: x in seen ==> byPid[x].ppid != rootPid
      invariant cursor.pid in seen || |seen| == n
    {
      if cursor.ppid == rootPid {
        return true;
      }
      if cursor.ppid !in byPid || byPid[cursor.ppid].pid == cursor.pid {
        ghost var all := seen + {cursor.pid, cursor.ppid};
        assert ClosedUp(byPid, all);
        ClosedHoldsAncestors(byPid, all, process);
        NoLinkTo(byPid, all, process, rootPid);
        return false;
      }
      seen := seen + {cursor.pid};
      cursor := byPid[cursor.ppid];
    }
    FullWalkIsClosed(byPid, seen, cursor.pid);
    NoLinkTo(byPid, seen, process, rootPid);
    return false;
  }

  /** Nothing outside a closed set lies above one of its members. */
  lemma NoLinkTo(byPid: map<int, Process>, s: set<int>, p: Process, root: int)
    requires ClosedUp(byPid, s) && p.ppid in s
    requires forall x :: x in s && x in byPid ==> byPid[x].ppid != root
    requires p.ppid != root
    ensures !Above(byPid, p, root)
  {
    if Above(byPid, p, root) {
      var k: nat :| Ancestor(byPid, p, k).Some? && Ancestor(byPid, p, k).value.ppid == root;
      if k > 0 {
        ClosedAncestor(byPid, s, p, k - 1);
      }
    }
  }

  /** `nestedHarnessProcess`: stops at a self-loop or on coming back to the start. */
  method NestedHarness(process: Process, byPid: map<int, Process>, harnessByPid: map<int, Harness>)
    returns (found: bool)
    requires WellKeyed(byPid) && HarnessTable(byPid, harnessByPid)
    requires process.pid in byPid && byPid[process.pid] == process
    ensures found <==> Nested(byPid, harnessByPid, process)
  {
    var ancestor := process;
    ghost var seen: set<int> := {};
    for n := 0 to |byPid|
      invariant Ancestor(byPid, process, n) == Some(ancestor)
      invariant ancestor.pid in byPid && byPid[ancestor.pid] == ancestor
      invariant Followed(byPid, seen, ancestor.pid) && process.pid in seen + {ancestor.pid}
      invariant forall x :: x in seen + {ancestor.pid} && x != process.pid ==> x !in harnessByPid
      invariant ancestor.pid in seen || |seen| == n
    {
      if ancestor.ppid !in byPid || byPid[ancestor.ppid].pid in {ancestor.pid, process.pid} {
        ghost var all := seen + {ancestor.pid, ancestor.ppid};
        assert ClosedUp(byPid, all);
        ClosedHoldsAncestors(byPid, all, process);
        return false;
      }
      var parent := byPid[ancestor.ppid];
      if parent.pid in harnessByPid {
        assert Above(byPid, process, parent.pid);
        return true;
      }
      seen := seen + {ancestor.pid};
      ancestor := parent;
    }
    FullWalkIsClosed(byPid, seen, ancestor.pid);
    ClosedHoldsAncestors(byPid, seen, process);
    return false;
  }
}
