/**
 * Crashes: an installation or a removal is cut off after any of its steps, and so is
 * recovery, any number of times, until one runs to its end.
 */
module PluginCrashes {
  import opened Options
  import opened PluginNames
  import opened PluginRecovery
  import opened PluginDirectory

  /** A run of recovery: how its steps turn out, and after how many of them it is cut off. */
  datatype Attempt = Attempt(schedule: Schedule, cut: nat)

  function Cut(history: seq<World>, n: nat): World
    requires history != []
  {
    if n < |history| then history[n] else history[|history| - 1]
  }

  /** Wherever recovery is cut off, the disk is as good as the one it began with. */
  method CutRecovery(plan: Plan, w: World, a: Attempt) returns (next: World)
    requires AllManaged(plan, w.siblings)
    ensures Refines(plan, w.siblings, next.siblings) && next.manifest == w.manifest
  {
    var plugin := new Plugin(plan, a.schedule, w.siblings, w.manifest, 0);
    var _ := plugin.Recover(false);
    next := Cut(plugin.history, a.cut);
  }

  lemma RefinesTransitive(plan: Plan, s: Siblings, t: Siblings, u: Siblings)
    requires Refines(plan, s, t) && Refines(plan, t, u)
    ensures Refines(plan, s, u)
  {
  }

  /** Recovery cut off as often as `attempts` says, and then run to its end. */
  method RecoverAtLast(plan: Plan, start: World, attempts: seq<Attempt>, last: Schedule)
    returns (r: Result<bool, Fault>, end: World)
    requires AllManaged(plan, start.siblings)
    ensures Refines(plan, start.siblings, end.siblings) && end.manifest == start.manifest
    ensures r.Ok? ==> Clean(plan, end.siblings) && RecoversTo(plan, start.siblings, Target(plan, end.siblings))
    ensures r != Err(Foreign) && (FineFrom(last, 0) ==> r.Ok?)
  {
    var w := start;
    for i := 0 to |attempts|
      invariant Refines(plan, start.siblings, w.siblings) && w.manifest == start.manifest
    {
      var next := CutRecovery(plan, w, attempts[i]);
      RefinesTransitive(plan, start.siblings, w.siblings, next.siblings);
      w := next;
    }
    var plugin := new Plugin(plan, last, w.siblings, w.manifest, 0);
    r := plugin.Recover(false);
    end := World(plugin.siblings, plugin.manifest);
    RefinesTransitive(plan, start.siblings, w.siblings, end.siblings);
  }

  /** What is recoverable stays so, and in the end it is in place. */
  lemma RecoverableStays(plan: Plan, s: Siblings, t: Siblings)
    requires Refines(plan, s, t) && Recoverable(plan, s)
    ensures Recoverable(plan, t) && (Clean(plan, t) ==> plan.base in t)
  {
    RecoveryHasAnOutcome(plan, s);
    RecoveryHasAnOutcome(plan, t);
  }

  /**
   * An installation cut off anywhere, recovery cut off anywhere any number of times, and
   * one that succeeds, as it does if no step fails: the directory is exactly the old or exactly the new one, nothing
   * is left beside it, and if the directory was there before, it is there.
   */
  method CrashedInstall(
    plan: Plan, s: Siblings, m: Manifest, clock: int, schedule: Schedule,
    changed: bool, next: Option<seq<string>>, cut: nat, attempts: seq<Attempt>, last: Schedule)
    returns (r: Result<bool, Fault>, end: World)
    requires Settled(plan, s) && Dated(s, clock) && Managed(plan, Dir(plan.files, clock))
    requires changed || plan.base in s
    ensures r.Ok? ==> Clean(plan, end.siblings) && Holds(Target(plan, end.siblings), Target(plan, s), Some(plan.files))
    ensures r.Ok? && plan.base in s ==> plan.base in end.siblings
    ensures r != Err(Foreign) && (FineFrom(last, 0) ==> r.Ok?) && end.manifest in {m, Rewritten(m, next)}
  {
    var plugin := new Plugin(plan, schedule, s, m, clock);
    var _ := plugin.Install(changed, next, "");
    var crashed := Cut(plugin.history, cut);
    SettledIsSafe(plan, s, Some(plan.files));
    assert CrashSafe(plan, crashed.siblings, Target(plan, s), Some(plan.files));
    r, end := RecoverAtLast(plan, crashed, attempts, last);
  }

  /**
   * The same for a removal. An import still listed names a directory that is there. As
   * long as the manifest had not been rewritten, the directory is what recovery would
   * have made of the disk before; without backups from before it is the old one or none.
   */
  method CrashedRemoval(
    plan: Plan, s: Siblings, m: Manifest, clock: int, schedule: Schedule,
    next: Option<seq<string>>, name: string, cut: nat, attempts: seq<Attempt>, last: Schedule)
    returns (r: Result<bool, Fault>, end: World)
    requires Removable(plan, s) && AllManaged(plan, s)
    requires if next.Some? then name !in next.value else !Imported(m, name)
    ensures r.Ok? ==> Clean(plan, end.siblings)
    ensures r.Ok? && Linked(plan, name, World(s, m)) && Imported(end.manifest, name) ==> plan.base in end.siblings
    ensures r.Ok? && Outdated(plan, s) && end.manifest == m != Rewritten(m, next) ==>
              RecoversTo(plan, s, Target(plan, end.siblings))
    ensures r.Ok? && (forall b :: !IsBackup(plan, s, b)) ==> Target(plan, end.siblings) in {Target(plan, s), None}
    ensures r != Err(Foreign) && (FineFrom(last, 0) ==> r.Ok?) && end.manifest in {m, Rewritten(m, next)}
  {
    var plugin := new Plugin(plan, schedule, s, m, clock);
    var _ := plugin.Remove(plan.base in s, next, name);
    var crashed := Cut(plugin.history, cut);
    NotBegun(plan, name, s, m, Rewritten(m, next));
    assert Removing(plan, name, s, m, Rewritten(m, next), crashed);
    r, end := RecoverAtLast(plan, crashed, attempts, last);
    if Recoverable(plan, crashed.siblings) {
      RecoverableStays(plan, crashed.siblings, end.siblings);
    }
  }

  lemma NotBegun(plan: Plan, name: string, s: Siblings, before: Manifest, after: Manifest)
    requires Removable(plan, s) && !Imported(after, name)
    ensures Removing(plan, name, s, before, after, World(s, before))
  {
    assert s + map[] == s && OnDisk(plan, s, Untouched, map[], s);
    BeforeTheCommit(plan, name, s, before, after, World(s, before));
  }
}
