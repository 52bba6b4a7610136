/**
 * Installing, removing and recovering a plugin directory together with its
 * import manifest. Every atomic step may fail; `history` lists the disk after
 * each one, so a statement about all of `history` is one about a crash at any point.
 */
module PluginDirectory {
  import opened Options
  import opened PluginNames
  import opened PluginRecovery
  import Sets

  /** The names the import manifest lists; `None` while the file does not exist. */
  type Manifest = Option<seq<string>>

  datatype World = World(siblings: Siblings, manifest: Manifest)

  datatype Renamed = Done | Missing | Failed

  datatype Fault = Foreign | Io

  /** What a step does to the disk; `Looking` only reads it, or asks for it to be made durable. */
  datatype Step = Renaming | Deleting | Drawing | Writing | Recording | Looking

  datatype Fate = Works | Fails | FailsLate

  /** How the steps of a run turn out, in the order they are taken, and the numbers drawn for names. */
  datatype Schedule = Schedule(fate: (nat, Step) -> Fate, number: nat -> nat)

  datatype Recovery = Recovery(backups: set<string>, leftovers: set<string>, newest: Option<string>)

  /** The outcome of a step that undoes itself on failure; `intact` says that undoing worked. */
  datatype Attempted = Undone(intact: bool) | Kept(backup: string, present: bool)

  /** `Unfinished`: the change is in force, but tidying up after it failed. */
  datatype Outcome = Success | Failure(rolledBack: bool) | Unfinished

  predicate Imported(m: Manifest, name: string) {
    m.Some? && name in m.value
  }

  /** The manifest once the change is made; no `next` leaves it as it is. */
  function Rewritten(m: Manifest, next: Option<seq<string>>): Manifest {
    if next.Some? then next else m
  }

  /** An import never names a directory that is lost. */
  ghost predicate Linked(plan: Plan, name: string, w: World) {
    Imported(w.manifest, name) ==> Recoverable(plan, w.siblings)
  }

  /** Whether a rename may put an entry in the place of another. */
  predicate Replaceable(moved: Entry, there: Entry) {
    (moved.Dir? && there.Dir? && there.files == map[]) || (moved.Other? && there.Other?)
  }

  /** The files of a stage while `rest` are still to be written. */
  function Written(files: map<string, string>, rest: set<string>): map<string, string> {
    files - rest
  }

  lemma WrittenSoFar(files: map<string, string>, rest: set<string>)
    ensures rest == {} ==> Written(files, rest) == files
    ensures rest == files.Keys ==> Written(files, rest) == map[]
  {
  }

  lemma WrittenNext(files: map<string, string>, rest: set<string>, file: string)
    requires rest <= files.Keys && file in rest
    ensures Written(files, rest)[file := files[file]] == Written(files, rest - {file})
  {
  }

  function Without(names: seq<string>, name: string): seq<string> {
    if names == [] then []
    else Without(names[..|names| - 1], name) + if names[|names| - 1] == name then [] else [names[|names| - 1]]
  }

  /** `removeImport`: afterwards the import is not listed, and every other keeps its place. */
  method RemoveImport(names: seq<string>, name: string) returns (next: seq<string>, removed: bool)
    ensures next == Without(names, name) && name !in next
    ensures removed <==> name in names
    ensures !removed ==> next == names
    ensures forall other :: other != name ==> (other in next <==> other in names)
  {
    next, removed := [], false;
    for i := 0 to |names|
      invariant next == Without(names[..i], name) && name !in next
      invariant removed <==> name in names[..i]
      invariant !removed ==> next == names[..i]
      invariant forall other :: other != name ==> (other in next <==> other in names[..i])
    {
      assert names[..i + 1] == names[..i] + [names[i]];
      assert names[..i + 1][..i] == names[..i];
      if names[i] == name {
        removed := true;
        continue;
      }
      next := next + [names[i]];
    }
    assert names[..|names|] == names;
  }

  /** What holds of every disk a removal begun on `s` passes through. */
  ghost predicate Removing(plan: Plan, name: string, s: Siblings, before: Manifest, after: Manifest, w: World) {
    && SameOutside(plan, s, w.siblings) && w.manifest in {before, after}
    && (AllManaged(plan, s) ==> AllManaged(plan, w.siblings))
    && (Linked(plan, name, World(s, before)) ==> Linked(plan, name, w))
    // until the manifest is rewritten, recovery makes of the disk what it would have made before
    && (Outdated(plan, s) && before != after && w.manifest == before ==>
          forall e :: RecoversTo(plan, w.siblings, e) ==> RecoversTo(plan, s, e))
    // and if no older backup was left over, it is the old directory or nothing throughout
    && ((forall b :: !IsBackup(plan, s, b)) ==> CrashSafe(plan, w.siblings, Target(plan, s), None))
  }

  lemma BeforeTheCommit(plan: Plan, name: string, s: Siblings, before: Manifest, after: Manifest, w: World)
    requires Removable(plan, s) && ReachedAside(plan, s, w.siblings) && w.manifest in {before, after}
    requires !Imported(after, name)
    ensures Removing(plan, name, s, before, after, w)
  {
    RemovalPath(plan, s, w.siblings);
  }

  lemma AfterTheCommit(plan: Plan, name: string, s: Siblings, before: Manifest, after: Manifest, w: World)
    requires w == World(s - {plan.base}, after) && !Imported(after, name)
    ensures Removing(plan, name, s, before, after, w)
  {
    Gone(plan, s);
  }

  /** Nothing fails except, perhaps, writing the manifest; the names drawn are free on `s`. */
  ghost predicate Smooth(schedule: Schedule, plan: Plan, s: Siblings) {
    && (forall t, step: Step :: step.Recording? || schedule.fate(t, step).Works?)
    && forall t :: schedule.number(t) < UINT32_LIMIT && Free(plan, s, schedule.number(t))
  }

  predicate Free(plan: Plan, s: Siblings, n: nat) {
    Drawn(plan, true, n) !in s && Drawn(plan, false, n) !in s
  }

  /** The manifest is rewritten and an error reported all the same: syncing its directory failed. */
  ghost predicate RecordsLate(schedule: Schedule) {
    forall t :: schedule.fate(t, Recording).FailsLate?
  }

  ghost predicate NothingFails(schedule: Schedule) {
    forall t :: schedule.fate(t, Recording).Works?
  }

  /** At most the step at time `z` goes wrong. */
  ghost predicate OneFault(schedule: Schedule, z: nat) {
    forall t, step :: t != z ==> schedule.fate(t, step).Works?
  }

  ghost predicate FineFrom(schedule: Schedule, n: nat) {
    forall t, step :: n <= t ==> schedule.fate(t, step).Works?
  }

  /** As long as a number is free, there are such schedules. */
  lemma SomeAreSmooth(plan: Plan, s: Siblings, n: nat)
    requires n < UINT32_LIMIT && Free(plan, s, n)
    ensures exists schedule :: Smooth(schedule, plan, s) && RecordsLate(schedule)
    ensures exists schedule :: Smooth(schedule, plan, s) && NothingFails(schedule)
  {
    var late := Schedule((t, step: Step) => if step.Recording? then FailsLate else Works, t => n);
    assert Smooth(late, plan, s) && RecordsLate(late);
    var well := Schedule((t, step) => Works, t => n);
    assert Smooth(well, plan, s) && NothingFails(well);
  }

  /** The import listed over a settled disk without the directory. */
  lemma Unlinked(plan: Plan, name: string, s: Siblings, m: Manifest)
    requires Settled(plan, s)
    ensures Linked(plan, name, World(s, m)) <==> plan.base in s || !Imported(m, name)
  {
  }

  lemma UnlinkedIn(plan: Plan, name: string, s: Siblings, m: Manifest, history: seq<World>, n: nat)
    requires Settled(plan, s) && n <= |history|
    ensures plan.base !in s && Imported(m, name) && World(s, m) in history[n..] ==>
              exists i :: n <= i < |history| && !Linked(plan, name, history[i])
  {
    Unlinked(plan, name, s, m);
    if World(s, m) in history[n..] {
      var i :| 0 <= i < |history[n..]| && history[n..][i] == World(s, m);
      assert history[n + i] == World(s, m);
    }
  }

  /** What an installation begun on `s` makes of the disk and of the import, at every step. */
  lemma InstallPath(plan: Plan, name: string, s: Siblings, m: Manifest, next: Option<seq<string>>, history: seq<World>, n: nat)
    requires Settled(plan, s) && n <= |history|
    requires forall i :: n <= i < |history| ==>
               Reached(plan, s, history[i].siblings) && history[i].manifest in {m, Rewritten(m, next)}
    ensures forall i :: n <= i < |history| ==>
              CrashSafe(plan, history[i].siblings, Target(plan, s), Some(plan.files)) && SameOutside(plan, s, history[i].siblings)
    ensures Linked(plan, name, World(s, m)) && (plan.base in s || next.None? || name !in next.value) ==>
              forall i :: n <= i < |history| ==> Linked(plan, name, history[i])
    ensures Linked(plan, name, World(s, m)) ==>
              forall i :: n <= i < |history| && (history[i].manifest == m || plan.base in history[i].siblings) ==>
                Linked(plan, name, history[i])
  {
    forall i | n <= i < |history|
      ensures CrashSafe(plan, history[i].siblings, Target(plan, s), Some(plan.files)) && SameOutside(plan, s, history[i].siblings)
      ensures plan.base in s ==> Recoverable(plan, history[i].siblings)
    {
      ReachedIsSafe(plan, s, history[i].siblings);
    }
  }

  class Plugin {
    const plan: Plan
    const schedule: Schedule
    var steps: nat
    var siblings: Siblings
    var manifest: Manifest
    var clock: int
    /** The disk after every step. */
    var history: seq<World>

    constructor (plan: Plan, schedule: Schedule, siblings: Siblings, manifest: Manifest, clock: int)
      ensures steps == 0 && this.plan == plan && this.schedule == schedule && this.siblings == siblings && this.manifest == manifest && this.clock == clock
      ensures history == [World(siblings, manifest)]
    {
      this.plan, this.schedule, this.siblings, this.manifest, this.clock := plan, schedule, siblings, manifest, clock;
      steps := 0;
      history := [World(siblings, manifest)];
    }

    /** Since `n` the disk has only gone through allowed states, and the manifest has not changed. */
    ghost predicate Within(n: nat, allowed: iset<Siblings>)
      reads this
    {
      && n <= |history| && siblings in allowed
      && forall i :: n <= i < |history| ==> history[i].siblings in allowed && history[i].manifest == manifest
    }

    // -------------------------------------------------------------- atomic steps

    /** How the next step turns out. */
    method Next(step: Step) returns (fate: Fate)
      modifies this`steps
      ensures steps == old(steps) + 1
      ensures fate == schedule.fate(old(steps), step)
    {
      fate := schedule.fate(steps, step);
      steps := steps + 1;
    }

    method Rename(a: string, b: string) returns (r: Renamed)
      requires a != b
      modifies this`siblings, this`steps, this`history
      ensures r.Done? ==> a in old(siblings) && siblings == (old(siblings) - {a})[b := old(siblings)[a]]
      ensures r.Done? && b in old(siblings) ==> Replaceable(old(siblings)[a], old(siblings)[b])
      ensures !r.Done? ==> siblings == old(siblings)
      ensures r.Missing? <==> a !in old(siblings)
      ensures schedule.fate(old(steps), Renaming).Works? && b !in old(siblings) ==> !r.Failed?
      ensures history == old(history) + [World(siblings, manifest)]
      ensures steps == old(steps) + 1
    {
      var fate := Next(Renaming);
      if a !in siblings {
        r := Missing;
      } else if !fate.Works? {
        r := Failed;
      } else if b in siblings && !Replaceable(siblings[a], siblings[b]) {
        r := Failed;
      } else {
        siblings := (siblings - {a})[b := siblings[a]];
        r := Done;
      }
      history := history + [World(siblings, manifest)];
    }

    /** `os.RemoveAll`: removing what is not there succeeds. */
    method RemoveAll(name: string) returns (ok: bool)
      modifies this`siblings, this`steps, this`history
      ensures ok <==> schedule.fate(old(steps), Deleting).Works?
      ensures siblings == if ok then old(siblings) - {name} else old(siblings)
      ensures history == old(history) + [World(siblings, manifest)]
      ensures steps == old(steps) + 1
    {
      var fate := Next(Deleting);
      ok := fate.Works?;
      if ok {
        siblings := siblings - {name};
      }
      history := history + [World(siblings, manifest)];
    }

    /** `os.MkdirTemp`: any free number may be drawn. */
    method MkdirTemp(backup: bool) returns (name: Option<string>)
      modifies this`siblings, this`clock, this`steps, this`history
      ensures name.None? ==> siblings == old(siblings)
      ensures name.Some? && backup ==> BackupName(plan, name.value)
      ensures name.Some? && !backup ==> StageName(plan, name.value)
      ensures name.Some? ==> name.value !in old(siblings)
                             && siblings == old(siblings)[name.value := Dir(map[], old(clock))]
      ensures clock == if name.Some? then old(clock) + 1 else old(clock)
      ensures var n := schedule.number(old(steps));
              schedule.fate(old(steps), Drawing).Works? && n < UINT32_LIMIT && Drawn(plan, backup, n) !in old(siblings)
              <==> name.Some?
      ensures history == old(history) + [World(siblings, manifest)]
      ensures steps == old(steps) + 1
    {
      var n := schedule.number(steps);
      var fate := Next(Drawing);
      name := None;
      if fate.Works? && n < UINT32_LIMIT && Drawn(plan, backup, n) !in siblings {
        DrawnWell(plan, n);
        name := Some(Drawn(plan, backup, n));
        siblings := siblings[name.value := Dir(map[], clock)];
        clock := clock + 1;
      }
      history := history + [World(siblings, manifest)];
    }

    /** `writeStagedPluginFile` */
    method WriteStagedFile(dir: string, file: string, content: string) returns (ok: bool)
      requires dir in siblings && siblings[dir].Dir?
      modifies this`siblings, this`clock, this`steps, this`history
      ensures ok <==> schedule.fate(old(steps), Writing).Works?
      ensures siblings == if ok then old(siblings)[dir := Dir(old(siblings)[dir].files[file := content], old(clock))]
                          else old(siblings)
      ensures clock == if ok then old(clock) + 1 else old(clock)
      ensures history == old(history) + [World(siblings, manifest)]
      ensures steps == old(steps) + 1
    {
      var fate := Next(Writing);
      ok := fate.Works?;
      if ok {
        siblings := siblings[dir := Dir(siblings[dir].files[file := content], clock)];
        clock := clock + 1;
      }
      history := history + [World(siblings, manifest)];
    }

    /** A step that changes nothing recovery could see, like syncing a directory. */
    method Attempt() returns (ok: bool)
      modifies this`steps
      ensures ok <==> schedule.fate(old(steps), Looking).Works?
      ensures steps == old(steps) + 1
    {
      var fate := Next(Looking);
      ok := fate.Works?;
    }

    // -------------------------------------------------------------- recovery

    /** `inspectRecovery` and `collectBackup`, in whatever order the parent directory is listed. */
    method InspectRecovery() returns (r: Result<Recovery, Fault>)
      modifies this`steps
      ensures r.Ok? ==> AllManaged(plan, siblings)
      ensures r.Ok? ==> forall name :: name in r.value.backups <==> IsBackup(plan, siblings, name)
      ensures r.Ok? ==> forall name :: name in r.value.leftovers <==> IsLeftover(plan, siblings, name)
      ensures r.Ok? ==> if r.value.newest.None? then r.value.backups == {} else Newest(plan, siblings, r.value.newest.value)
      ensures r == Err(Foreign) ==> !AllManaged(plan, siblings)
      ensures FineFrom(schedule, old(steps)) && AllManaged(plan, siblings) ==> r.Ok?
      ensures old(steps) <= steps
    {
      var backups: set<string>, leftovers: set<string>, newest: Option<string> := {}, {}, None;
      var rest := siblings.Keys;
      while rest != {}
        invariant rest <= siblings.Keys
        invariant forall name :: name in backups <==> IsBackup(plan, siblings, name) && name !in rest
        invariant forall name :: name in leftovers <==> IsLeftover(plan, siblings, name) && name !in rest
        invariant forall name :: name in backups ==> Managed(plan, siblings[name])
        invariant if newest.None? then backups == {}
                  else newest.value in backups
                       && forall other :: other in backups ==> siblings[other].mtime <= siblings[newest.value].mtime
        invariant old(steps) <= steps
        decreases |rest|
      {
        ghost var member := Sets.SomeMember(rest);
        var name :| name in rest;
        rest := rest - {name};
        var entry := siblings[name];
        if entry.Other? || (!BackupName(plan, name) && !StageName(plan, name)) {
          continue;
        }
        if !BackupName(plan, name) {
          leftovers := leftovers + {name};
          continue;
        }
        var readable := Attempt();
        if !readable {
          return Err(Io);
        }
        if entry.files == map[] {
          leftovers := leftovers + {name};
          continue;
        }
        if !Managed(plan, entry) {
          assert IsBackup(plan, siblings, name);
          return Err(Foreign);
        }
        backups := backups + {name};
        if newest.None? || entry.mtime > siblings[newest.value].mtime {
          newest := Some(name);
        }
      }
      return Ok(Recovery(backups, leftovers, newest));
    }

    /** Every disk from `n` on, and the present one, is as good for recovery as `s`. */
    ghost predicate RefinesSince(n: nat, s: Siblings)
      reads this
    {
      && n <= |history| && Refines(plan, s, siblings) && SameOutside(plan, s, siblings)
      && forall i :: n <= i < |history| ==>
           Refines(plan, s, history[i].siblings) && history[i].manifest == manifest
    }

    /** The end of `recover`: backups and leftovers go, one by one. */
    method RemoveEach(names: set<string>) returns (ok: bool)
      modifies this`siblings, this`steps, this`history
      ensures old(history) <= history && PartlySwept(old(siblings), names, siblings)
      ensures forall i :: |old(history)| <= i < |history| ==>
                PartlySwept(old(siblings), names, history[i].siblings) && history[i].manifest == manifest
      ensures ok ==> siblings == old(siblings) - names
      ensures FineFrom(schedule, old(steps)) ==> ok
      ensures old(steps) <= steps
    {
      var rest := names;
      assert siblings == siblings - (names - rest);
      while rest != {}
        invariant rest <= names && siblings == old(siblings) - (names - rest)
        invariant old(history) <= history
        invariant forall i :: |old(history)| <= i < |history| ==>
                    PartlySwept(old(siblings), names, history[i].siblings) && history[i].manifest == manifest
        invariant old(steps) <= steps
        decreases |rest|
      {
        ghost var member := Sets.SomeMember(rest);
        var name :| name in rest;
        var removed := RemoveAll(name);
        if !removed {
          return false;
        }
        rest := rest - {name};
        assert siblings == old(siblings) - (names - rest);
      }
      assert names - rest == names;
      return true;
    }

    method Sweep(names: set<string>) returns (ok: bool)
      requires AllManaged(plan, siblings) && (plan.base in siblings || forall name :: !IsBackup(plan, siblings, name))
      requires forall name :: name in names ==> BackupName(plan, name) || StageName(plan, name)
      requires forall name :: IsBackup(plan, siblings, name) || IsLeftover(plan, siblings, name) ==> name in names
      modifies this`siblings, this`steps, this`history
      ensures old(history) <= history && RefinesSince(|old(history)|, old(siblings))
      ensures ok ==> Clean(plan, siblings)
      ensures names == {} ==> siblings == old(siblings)
      ensures FineFrom(schedule, old(steps)) ==> ok
      ensures old(steps) <= steps
    {
      ghost var s, n := siblings, |history|;
      ok := RemoveEach(names);
      SweptSince(n, s, names);
      Swept(plan, s, names);
    }

    lemma SweptSince(n: nat, s: Siblings, names: set<string>)
      requires AllManaged(plan, s) && (plan.base in s || forall name :: !IsBackup(plan, s, name))
      requires forall name :: name in names ==> BackupName(plan, name) || StageName(plan, name)
      requires n <= |history| && PartlySwept(s, names, siblings)
      requires forall i :: n <= i < |history| ==>
                 PartlySwept(s, names, history[i].siblings) && history[i].manifest == manifest
      ensures RefinesSince(n, s)
    {
      forall t | PartlySwept(s, names, t) ensures Refines(plan, s, t) && SameOutside(plan, s, t) {
        var gone: set<string> :| gone <= names && t == s - gone;
        Swept(plan, s, gone);
      }
    }

    /** The rename in `recover` */
    method PutNewestBack(newest: string) returns (ok: bool)
      requires AllManaged(plan, siblings) && plan.base !in siblings && Newest(plan, siblings, newest)
      modifies this`siblings, this`steps, this`history
      ensures old(history) <= history && RefinesSince(|old(history)|, old(siblings))
      ensures forall name :: IsBackup(plan, siblings, name) ==> IsBackup(plan, old(siblings), name)
      ensures forall name :: IsLeftover(plan, siblings, name) ==> IsLeftover(plan, old(siblings), name)
      ensures ok ==> plan.base in siblings
      ensures FineFrom(schedule, old(steps)) ==> ok
      ensures old(steps) <= steps
    {
      PutBack(plan, siblings, newest);
      var moved := Rename(newest, plan.base);
      if !moved.Done? {
        return false;
      }
      ok := Attempt();
    }

    /**
     * `recover`. When it succeeds nothing is left over and the directory is what the
     * disk at the start called for; a crash anywhere inside leaves no less to recover.
     */
    method Recover(dryRun: bool) returns (r: Result<bool, Fault>)
      modifies this`siblings, this`steps, this`history
      ensures r.Ok? ==> AllManaged(plan, old(siblings)) && (r.value <==> !Clean(plan, old(siblings)))
      ensures r.Ok? && !dryRun ==> Clean(plan, siblings) && RecoversTo(plan, old(siblings), Target(plan, siblings))
      ensures r == Err(Foreign) ==> !AllManaged(plan, old(siblings))
      ensures FineFrom(schedule, old(steps)) && AllManaged(plan, old(siblings)) ==> r.Ok?
      ensures dryRun || !AllManaged(plan, old(siblings)) || Clean(plan, old(siblings)) ==> siblings == old(siblings)
      ensures old(history) <= history
      ensures AllManaged(plan, old(siblings)) ==> RefinesSince(|old(history)|, old(siblings))
    {
      var inspected := InspectRecovery();
      if inspected.Err? {
        return Err(inspected.error);
      }
      var recovery := inspected.value;
      var names := recovery.backups + recovery.leftovers;
      var pending := names != {};
      if dryRun {
        return Ok(pending);
      }
      var looked := Attempt();
      if !looked {
        return Err(Io);
      }
      if plan.base !in siblings && recovery.newest.Some? {
        var put := PutNewestBack(recovery.newest.value);
        if !put {
          return Err(Io);
        }
      }
      ghost var s, n := siblings, |history|;
      var swept := Sweep(names);
      RefinesFurther(old(siblings), s, n);
      if !swept {
        return Err(Io);
      }
      assert RecoversTo(plan, siblings, Target(plan, siblings));
      if pending {
        var synced := Attempt();
        if !synced {
          return Err(Io);
        }
      }
      return Ok(pending);
    }

    lemma RefinesFurther(s: Siblings, t: Siblings, n: nat)
      requires Refines(plan, s, t) && SameOutside(plan, s, t) && RefinesSince(n, t)
      ensures RefinesSince(n, s)
    {
    }

    // -------------------------------------------------------------- replacement

    /** `writeStagedPluginFile` in a stage beside `s` */
    method WriteFile(
      ghost s: Siblings, ghost n: nat, ghost since: int, ghost allowed: iset<Siblings>,
      dir: string, file: string, content: string)
      returns (ok: bool)
      requires CoversAside(plan, s, allowed) && StageName(plan, dir) && Within(n, allowed)
      requires OneBeside(s, dir, siblings) && since <= siblings[dir].mtime < clock
      modifies this`siblings, this`clock, this`steps, this`history
      ensures old(history) <= history && Within(n, allowed)
      ensures OneBeside(s, dir, siblings) && since <= siblings[dir].mtime < clock
      ensures siblings[dir].files == if ok then old(siblings[dir].files)[file := content] else old(siblings[dir].files)
      ensures Smooth(schedule, plan, s) ==> ok
    {
      ok := WriteStagedFile(dir, file, content);
      assert siblings - {dir} == s;
      StagesBeside(plan, s, dir);
    }

    /** The loop of `stage`: every disk on the way has a directory at `dir`, which is then complete. */
    method WriteFiles(ghost s: Siblings, ghost since: int, ghost allowed: iset<Siblings>, dir: string) returns (ok: bool)
      requires CoversAside(plan, s, allowed) && StageName(plan, dir) && siblings in allowed
      requires OneBeside(s, dir, siblings) && siblings[dir].files == map[] && since <= siblings[dir].mtime < clock
      modifies this`siblings, this`clock, this`steps, this`history
      ensures old(history) <= history && Within(|old(history)|, allowed)
      ensures OneBeside(s, dir, siblings) && since <= siblings[dir].mtime < clock
      ensures ok ==> siblings[dir].files == plan.files
      ensures Smooth(schedule, plan, s) ==> ok
    {
      ghost var n := |history|;
      var rest := plan.files.Keys;
      WrittenSoFar(plan.files, rest);
      while rest != {}
        invariant rest <= plan.files.Keys
        invariant OneBeside(s, dir, siblings) && siblings[dir].files == Written(plan.files, rest)
        invariant since <= siblings[dir].mtime < clock
        invariant old(history) <= history && Within(n, allowed)
        decreases |rest|
      {
        ghost var member := Sets.SomeMember(rest);
        var file :| file in rest;
        WrittenNext(plan.files, rest, file);
        ok := WriteFile(s, n, since, allowed, dir, file, plan.files[file]);
        if !ok {
          return;
        }
        rest := rest - {file};
      }
      WrittenSoFar(plan.files, rest);
      ok := true;
    }

    /** `stage` */
    method Stage(ghost allowed: iset<Siblings>) returns (staged: Option<string>)
      requires CoversAside(plan, siblings, allowed)
      modifies this`siblings, this`clock, this`steps, this`history
      ensures old(history) <= history && Within(|old(history)|, allowed)
      ensures staged.None? ==> Intact(plan, old(siblings), siblings)
      ensures Smooth(schedule, plan, old(siblings)) ==> staged.Some?
      ensures staged.Some? ==> StageName(plan, staged.value) && staged.value !in old(siblings)
      ensures staged.Some? ==>
                exists m :: old(clock) <= m && siblings == old(siblings) + map[staged.value := Dir(plan.files, m)]
    {
      ghost var s := siblings;
      assert s + map[] == s;
      assert OnDisk(plan, s, Untouched, map[], siblings);
      staged := MkdirTemp(false);
      if staged.None? {
        return;
      }
      var dir := staged.value;
      StagesBeside(plan, s, dir);
      assert siblings - {dir} == s;
      assert OneBeside(s, dir, siblings);
      var written := WriteFiles(s, old(clock), allowed, dir);
      if written {
        var synced := Attempt();
        if synced {
          assert siblings[dir] == Dir(plan.files, siblings[dir].mtime);
          return;
        }
      }
      ghost var x := map[dir := siblings[dir]];
      assert OnDisk(plan, s, Untouched, x, siblings);
      Discard(s, Untouched, x, dir);
      return None;
    }

    /** The deferred `os.RemoveAll(stagedDir)`, whose failure is ignored. */
    method Discard(ghost s: Siblings, ghost at: PluginRecovery.Stage, ghost x: Siblings, staged: string)
      requires OnDisk(plan, s, at, x, siblings) && StageName(plan, staged) && staged !in s
      modifies this`siblings, this`steps, this`history
      ensures history == old(history) + [World(siblings, manifest)]
      ensures siblings == old(siblings) || siblings == old(siblings) - {staged}
      ensures OnDisk(plan, s, at, x, siblings) || OnDisk(plan, s, at, x - {staged}, siblings)
    {
      ScratchRemoved(plan, s, at, x, siblings, staged);
      var _ := RemoveAll(staged);
    }

    /** `backupCurrent`; `s` is the disk the operation began with. */
    method BackupCurrent(ghost s: Siblings, ghost x: Siblings, ghost allowed: iset<Siblings>) returns (r: Attempted)
      requires CoversAside(plan, s, allowed)
      requires OnDisk(plan, s, Untouched, x, siblings)
      modifies this`siblings, this`clock, this`steps, this`history
      ensures old(history) <= history && Within(|old(history)|, allowed)
      ensures forall z: nat :: OneFault(schedule, z) ==> r != Undone(false)
      ensures r == Undone(true) ==> Intact(plan, s, siblings)
      ensures r.Undone? ==> ReachedAside(plan, s, siblings)
      ensures r.Kept? ==> r.present == (plan.base in s) && FreshBackup(plan, s, x, r.backup)
      ensures r.Kept? ==> OnDisk(plan, s, if r.present then AsideAt(r.backup) else Untouched, x, siblings)
      ensures Smooth(schedule, plan, s) && (forall name :: name in x ==> StageName(plan, name)) ==> r.Kept?
    {
      ghost var n := |history|;
      var drawn := MkdirTemp(true);
      if drawn.None? {
        return Undone(true);
      }
      var backup := drawn.value;
      ghost var y := x[backup := siblings[backup]];
      assert siblings == s + y;
      assert OnDisk(plan, s, Untouched, y, siblings);
      var freed := RemoveAll(backup);
      if !freed {
        return Undone(true);
      }
      assert siblings == s + x;
      r := MoveAside(s, x, allowed, backup);
    }

    /** The second half of `backupCurrent`, once a free name is known. */
    method MoveAside(ghost s: Siblings, ghost x: Siblings, ghost allowed: iset<Siblings>, backup: string)
      returns (r: Attempted)
      requires CoversAside(plan, s, allowed)
      requires OnDisk(plan, s, Untouched, x, siblings) && FreshBackup(plan, s, x, backup)
      modifies this`siblings, this`steps, this`history
      ensures old(history) <= history && Within(|old(history)|, allowed)
      ensures forall z: nat :: OneFault(schedule, z) ==> r != Undone(false)
      ensures r == Undone(true) ==> OnDisk(plan, s, Untouched, x, siblings)
      ensures r.Undone? ==> ReachedAside(plan, s, siblings)
      ensures r.Kept? ==> r.backup == backup && r.present == (plan.base in s)
      ensures r.Kept? ==> OnDisk(plan, s, if r.present then AsideAt(backup) else Untouched, x, siblings)
      ensures Smooth(schedule, plan, s) ==> r.Kept?
    {
      Renames(plan, s, x, backup);
      var moved := Rename(plan.base, backup);
      if moved.Failed? {
        return Undone(true);
      }
      if moved.Missing? {
        return Kept(backup, false);
      }
      assert OnDisk(plan, s, AsideAt(backup), x, siblings);
      var synced := Attempt();
      if !synced {
        var restored := RestoreBackup(backup, true);
        assert restored ==> OnDisk(plan, s, Untouched, x, siblings);
        return Undone(restored);
      }
      return Kept(backup, true);
    }

    /** `restoreBackup` */
    method RestoreBackup(backup: string, present: bool) returns (ok: bool)
      requires backup != plan.base
      modifies this`siblings, this`steps, this`history
      ensures history == old(history) + (if present then [World(siblings, manifest)] else [])
      ensures !ok || !present ==> siblings == old(siblings)
      ensures ok && present ==>
                backup in old(siblings)
                && siblings == (old(siblings) - {backup})[plan.base := old(siblings)[backup]]
      ensures !present ==> ok
      ensures FineFrom(schedule, old(steps)) && backup in old(siblings) && plan.base !in old(siblings) ==> ok
      ensures old(steps) <= steps
    {
      if !present {
        return true;
      }
      var moved := Rename(backup, plan.base);
      return moved.Done?;
    }

    /** `rollbackReplacement` */
    method RollbackReplacement(
      ghost s: Siblings, ghost x: Siblings, ghost e: Entry, ghost allowed: iset<Siblings>, backup: string, present: bool)
      returns (ok: bool)
      requires Covers(plan, s, allowed)
      requires OnDisk(plan, s, SwappedFor(backup, e), x, siblings) && present == (plan.base in s)
      modifies this`siblings, this`steps, this`history
      ensures old(history) <= history && Within(|old(history)|, allowed)
      ensures ok ==> OnDisk(plan, s, Untouched, x, siblings)
      ensures Reached(plan, s, siblings)
      ensures Smooth(schedule, plan, s) && !present ==> World(s + x, manifest) in history[|old(history)|..]
      ensures FineFrom(schedule, old(steps)) ==> ok
      ensures old(steps) <= steps
    {
      RollbackDisks(plan, s, x, backup, e, siblings);
      var removed := RemoveAll(plan.base);
      assert removed && !present ==> history[|old(history)|] == World(s + x, manifest);
      var restored := RestoreBackup(backup, present);
      var synced := Attempt();
      assert removed && !present ==> history[|old(history)|..][0] == World(s + x, manifest);
      return removed && restored && synced;
    }

    /** `replace` */
    method Replace(ghost s: Siblings, ghost e: Entry, ghost allowed: iset<Siblings>, staged: string) returns (r: Attempted)
      requires Covers(plan, s, allowed)
      requires OnDisk(plan, s, Untouched, map[staged := e], siblings) && StageName(plan, staged)
      requires e.Dir? && e.files == plan.files
      modifies this`siblings, this`clock, this`steps, this`history
      ensures old(history) <= history && Within(|old(history)|, allowed)
      ensures forall z: nat :: OneFault(schedule, z) ==> r != Undone(false)
      ensures r == Undone(true) ==> Intact(plan, s, siblings)
      ensures r.Undone? ==> Reached(plan, s, siblings)
      ensures r.Kept? ==> r.present == (plan.base in s) && OnDisk(plan, s, SwappedFor(r.backup, e), map[], siblings)
      ensures Smooth(schedule, plan, s) ==> r.Kept?
    {
      ghost var x := map[staged := e];
      r := BackupCurrent(s, x, allowed);
      if r.Undone? {
        return;
      }
      var backup, present := r.backup, r.present;
      r := PutInPlace(s, e, allowed, staged, backup, present);
    }

    /** The second half of `replace`, once the old directory is out of the way. */
    method PutInPlace(
      ghost s: Siblings, ghost e: Entry, ghost allowed: iset<Siblings>, staged: string, backup: string, present: bool)
      returns (r: Attempted)
      requires Covers(plan, s, allowed) && present == (plan.base in s) && StageName(plan, staged)
      requires OnDisk(plan, s, if present then AsideAt(backup) else Untouched, map[staged := e], siblings)
      requires FreshBackup(plan, s, map[staged := e], backup) && e.Dir? && e.files == plan.files
      modifies this`siblings, this`steps, this`history
      ensures old(history) <= history && Within(|old(history)|, allowed)
      ensures forall z: nat :: OneFault(schedule, z) ==> r != Undone(false)
      ensures r == Undone(true) ==> Intact(plan, s, siblings)
      ensures r.Undone? ==> Reached(plan, s, siblings)
      ensures r.Kept? ==> r.backup == backup && r.present == present
      ensures r.Kept? ==> OnDisk(plan, s, SwappedFor(backup, e), map[], siblings)
      ensures Smooth(schedule, plan, s) ==> r.Kept?
    {
      PlacingDisks(plan, s, staged, e, backup, siblings);
      var moved := Rename(staged, plan.base);
      if !moved.Done? {
        var restored := RestoreBackup(backup, present);
        return Undone(restored);
      }
      r := Confirm(s, e, allowed, backup, present);
    }

    /** The end of `replace`: a new directory that cannot be made durable is taken back. */
    method Confirm(ghost s: Siblings, ghost e: Entry, ghost allowed: iset<Siblings>, backup: string, present: bool) returns (r: Attempted)
      requires Covers(plan, s, allowed) && present == (plan.base in s)
      requires OnDisk(plan, s, SwappedFor(backup, e), map[], siblings)
      modifies this`siblings, this`steps, this`history
      ensures old(history) <= history && Within(|old(history)|, allowed)
      ensures forall z: nat :: OneFault(schedule, z) ==> r != Undone(false)
      ensures r == Undone(true) ==> Intact(plan, s, siblings)
      ensures r.Undone? ==> Reached(plan, s, siblings)
      ensures r.Kept? ==> r == Kept(backup, present) && siblings == old(siblings)
      ensures Smooth(schedule, plan, s) ==> r.Kept?
    {
      var synced := Attempt();
      if !synced {
        var undone := RollbackReplacement(s, map[], e, allowed, backup, present);
        return Undone(undone);
      }
      return Kept(backup, present);
    }

    /** The deferred cleanup of `installStaged`, after whichever outcome. */
    method Cleanup(ghost s: Siblings, r: Attempted, ghost e: Entry, staged: string, ghost allowed: iset<Siblings>)
      requires Covers(plan, s, allowed) && StageName(plan, staged) && staged !in s
      requires Reached(plan, s, siblings) && (r == Undone(true) ==> Intact(plan, s, siblings))
      requires r.Kept? ==> OnDisk(plan, s, SwappedFor(r.backup, e), map[], siblings)
      modifies this`siblings, this`steps, this`history
      ensures old(history) <= history && Within(|old(history)|, allowed)
      ensures r == Undone(true) ==> Intact(plan, s, siblings)
      ensures r.Kept? ==> OnDisk(plan, s, SwappedFor(r.backup, e), map[], siblings)
    {
      ghost var at: PluginRecovery.Stage, x: Siblings;
      if r.Kept? {
        at, x := SwappedFor(r.backup, e), map[];
      } else if r.intact {
        at := Untouched;
        x :| OnDisk(plan, s, at, x, siblings);
      } else {
        at, x :| OnDisk(plan, s, at, x, siblings);
      }
      Discard(s, at, x, staged);
      assert r.Kept? ==> x - {staged} == map[];
    }

    /** `installStaged` */
    method InstallStaged(ghost allowed: iset<Siblings>) returns (r: Attempted, ghost e: Entry)
      requires Covers(plan, siblings, allowed)
      modifies this`siblings, this`clock, this`steps, this`history
      ensures old(history) <= history && Within(|old(history)|, allowed)
      ensures forall z: nat :: OneFault(schedule, z) ==> r != Undone(false)
      ensures r == Undone(true) ==> Intact(plan, old(siblings), siblings)
      ensures r.Kept? ==> r.present == (plan.base in old(siblings)) && e.Dir? && old(clock) <= e.mtime
      ensures r.Kept? ==> OnDisk(plan, old(siblings), SwappedFor(r.backup, e), map[], siblings)
      ensures Smooth(schedule, plan, old(siblings)) ==> r.Kept?
    {
      ghost var s := siblings;
      e := Other;
      var staged := Stage(allowed);
      if staged.None? {
        return Undone(true), e;
      }
      ghost var m :| old(clock) <= m && siblings == s + map[staged.value := Dir(plan.files, m)];
      e := Dir(plan.files, m);
      assert OnDisk(plan, s, Untouched, map[staged.value := e], siblings);
      r := Replace(s, e, allowed, staged.value);
      Cleanup(s, r, e, staged.value, allowed);
    }

    /** `commitReplacement` */
    method CommitReplacement(backup: string, present: bool) returns (ok: bool)
      modifies this`siblings, this`steps, this`history
      ensures history == old(history) + (if present then [World(siblings, manifest)] else [])
      ensures siblings == old(siblings) || (present && siblings == old(siblings) - {backup})
      ensures ok && present ==> siblings == old(siblings) - {backup}
      ensures (forall t, step: Step :: step.Recording? || schedule.fate(t, step).Works?) ==> ok
    {
      if present {
        ok := RemoveAll(backup);
        if !ok {
          return;
        }
      }
      ok := Attempt();
    }

    // -------------------------------------------------------------- with the import manifest

    /** `writeFileAtomic` on the manifest, or its removal: a failure may come before or after the effect. */
    method WriteManifest(m: Manifest) returns (ok: bool)
      modifies this`manifest, this`steps, this`history
      ensures ok <==> schedule.fate(old(steps), Recording).Works?
      ensures manifest == if schedule.fate(old(steps), Recording).Fails? then old(manifest) else m
      ensures history == old(history) + [World(siblings, manifest)]
      ensures steps == old(steps) + 1
    {
      var fate := Next(Recording);
      ok := fate.Works?;
      if !fate.Fails? {
        manifest := m;
      }
      history := history + [World(siblings, manifest)];
    }

    /** Since `n` every disk was allowed, and the manifest was `before` or `after`. */
    ghost predicate Coupled(n: nat, allowed: iset<Siblings>, before: Manifest, after: Manifest)
      reads this
    {
      n <= |history| && forall i :: n <= i < |history| ==>
        history[i].siblings in allowed && history[i].manifest in {before, after}
    }

    /** The change, if there is one, has been made but not committed. */
    ghost predicate InForce(s: Siblings, changed: bool, swap: Attempted, e: Entry)
      reads this
    {
      if changed
      then swap.Kept? && swap.present == (plan.base in s) && OnDisk(plan, s, SwappedFor(swap.backup, e), map[], siblings)
      else siblings == s
    }

    /** `rollbackPluginDirectoryAndManifest`, or `rollbackPluginDirectory` if the manifest could not be read. */
    method RollBack(
      ghost s: Siblings, ghost e: Entry, ghost allowed: iset<Siblings>,
      changed: bool, swap: Attempted, readable: bool, previous: Manifest)
      returns (undone: bool)
      requires Covers(plan, s, allowed) && s in allowed && InForce(s, changed, swap, e)
      requires !readable ==> manifest == previous
      modifies this`siblings, this`manifest, this`steps, this`history
      ensures old(history) <= history && Coupled(|old(history)|, allowed, old(manifest), previous)
      ensures siblings in allowed && manifest in {old(manifest), previous}
      ensures if changed then undone ==> OnDisk(plan, s, Untouched, map[], siblings) else siblings == s
      ensures undone ==> manifest == previous
      ensures FineFrom(schedule, old(steps)) ==> undone
      ensures Smooth(schedule, plan, s) && changed && !swap.present ==> World(s, old(manifest)) in history[|old(history)|..]
    {
      undone := true;
      if changed {
        undone := RollbackReplacement(s, map[], e, allowed, swap.backup, swap.present);
        assert s + map[] == s;
      }
      ghost var soFar := history;
      if readable {
        var restored := WriteManifest(previous);
        undone := undone && restored;
        assert history[|old(history)|..] == soFar[|old(history)|..] + [World(siblings, manifest)];
      }
    }

    /** The middle of `writePluginDirectoryChanges`: the manifest follows the directory, or both go back. */
    method Publish(
      ghost s: Siblings, ghost e: Entry, ghost allowed: iset<Siblings>,
      changed: bool, swap: Attempted, next: seq<string>)
      returns (r: Outcome)
      requires Covers(plan, s, allowed) && s in allowed && InForce(s, changed, swap, e)
      modifies this`siblings, this`manifest, this`steps, this`history
      ensures old(history) <= history && Coupled(|old(history)|, allowed, old(manifest), Some(next))
      ensures siblings in allowed && !r.Unfinished?
      ensures forall z: nat :: OneFault(schedule, z) ==> r != Failure(false)
      ensures r.Success? ==> manifest == Some(next) && siblings == old(siblings)
      ensures r == Failure(true) ==> manifest == old(manifest)
      ensures r == Failure(true) ==> if changed then OnDisk(plan, s, Untouched, map[], siblings) else siblings == s
      ensures !changed ==> siblings == s
      ensures r.Success? ==> forall i :: |old(history)| <= i < |history| ==> history[i].siblings == siblings
      ensures Smooth(schedule, plan, s) && NothingFails(schedule) ==> r.Success?
      ensures Smooth(schedule, plan, s) && RecordsLate(schedule) && changed && plan.base !in s ==>
                World(s, Some(next)) in history[|old(history)|..]
    {
      var previous := manifest;
      var readable := Attempt();
      if readable {
        var written := WriteManifest(Some(next));
        if written {
          return Success;
        }
      }
      var undone := RollBack(s, e, allowed, changed, swap, readable, previous);
      return Failure(undone);
    }

    /** The end of `writePluginDirectoryChanges`. */
    method Commit(ghost s: Siblings, ghost e: Entry, ghost allowed: iset<Siblings>, swap: Attempted) returns (r: Outcome)
      requires Covers(plan, s, allowed) && InForce(s, true, swap, e)
      modifies this`siblings, this`steps, this`history
      ensures old(history) <= history && Within(|old(history)|, allowed)
      ensures PresentWhenRewritten(|old(history)|, manifest)
      ensures !r.Failure?
      ensures r.Success? ==> OnDisk(plan, s, Committed(e), map[], siblings)
      ensures OnDisk(plan, s, Committed(e), map[], siblings) || OnDisk(plan, s, SwappedFor(swap.backup, e), map[], siblings)
      ensures forall i :: |old(history)| <= i < |history| ==> plan.base in history[i].siblings
      ensures Smooth(schedule, plan, s) ==> r.Success?
    {
      CommitLeaves(plan, s, swap.backup, e, siblings);
      var committed := CommitReplacement(swap.backup, swap.present);
      return if committed then Success else Unfinished;
    }

    /** Since `n` the manifest was only rewritten while the directory stood in its place. */
    ghost predicate PresentWhenRewritten(n: nat, before: Manifest)
      reads this
    {
      forall i :: n <= i < |history| ==> history[i].manifest == before || plan.base in history[i].siblings
    }

    /** `writePluginDirectoryChanges`; `next` is the manifest to write if it changes. */
    method WriteChanges(changed: bool, next: Option<seq<string>>, ghost allowed: iset<Siblings>)
      returns (r: Outcome, ghost e: Entry)
      requires Covers(plan, siblings, allowed)
      modifies this
      ensures old(history) <= history && Coupled(|old(history)|, allowed, old(manifest), Rewritten(old(manifest), next))
      ensures !changed ==> siblings == old(siblings)
      ensures forall z: nat :: OneFault(schedule, z) ==> r != Failure(false)
      ensures r == Failure(true) ==> Intact(plan, old(siblings), siblings) && manifest == old(manifest)
      ensures !r.Failure? ==> manifest == Rewritten(old(manifest), next)
      ensures !r.Failure? && changed ==> e.Dir? && e.files == plan.files && old(clock) <= e.mtime
      ensures r.Success? && changed ==> OnDisk(plan, old(siblings), Committed(e), map[], siblings)
      ensures r.Unfinished? ==> changed && (OnDisk(plan, old(siblings), Committed(e), map[], siblings)
                                            || exists b :: OnDisk(plan, old(siblings), SwappedFor(b, e), map[], siblings))
      ensures !r.Failure? && (changed || plan.base in old(siblings)) ==>
                PresentWhenRewritten(|old(history)|, old(manifest))
      ensures Smooth(schedule, plan, old(siblings)) && (next.None? || NothingFails(schedule)) ==> r.Success?
      ensures Smooth(schedule, plan, old(siblings)) && RecordsLate(schedule)
              && changed && next.Some? && plan.base !in old(siblings) ==>
                World(old(siblings), next) in history[|old(history)|..]
    {
      ghost var s := siblings;
      assert s + map[] == s;
      assert OnDisk(plan, s, Untouched, map[], s);
      e := Other;
      var swap := Kept("", false);
      if changed {
        swap, e := InstallStaged(allowed);
        if swap.Undone? {
          return Failure(swap.intact), e;
        }
      }
      if next.Some? {
        r := Publish(s, e, allowed, changed, swap, next.value);
        if r.Failure? {
          return;
        }
      }
      if !changed {
        return Success, e;
      }
      r := Commit(s, e, allowed, swap);
    }

    /**
     * Installing over a settled disk. A crash after any step leaves a disk from which
     * recovery makes the old or the new directory; without a crash directory and
     * manifest end both old or both new, unless a rollback step fails as well.
     */
    method Install(changed: bool, next: Option<seq<string>>, ghost name: string) returns (r: Outcome)
      requires Settled(plan, siblings) && Dated(siblings, clock) && Managed(plan, Dir(plan.files, clock))
      requires changed || plan.base in siblings
      modifies this
      ensures old(history) <= history
      ensures forall i :: |old(history)| <= i < |history| ==>
                && CrashSafe(plan, history[i].siblings, Target(plan, old(siblings)), Some(plan.files))
                && SameOutside(plan, old(siblings), history[i].siblings)
                && history[i].manifest in {old(manifest), Rewritten(old(manifest), next)}
      // an import names a directory that recovery finds, unless it is new and so is the directory
      ensures Linked(plan, name, World(old(siblings), old(manifest)))
              && (plan.base in old(siblings) || next.None? || name !in next.value) ==>
                forall i :: |old(history)| <= i < |history| ==> Linked(plan, name, history[i])
      // in which case there is a run through a disk with the import and no directory
      ensures plan.base !in old(siblings) && next.Some? && name in next.value
              && Smooth(schedule, plan, old(siblings)) && RecordsLate(schedule) ==>
                exists i :: |old(history)| <= i < |history| && !Linked(plan, name, history[i])
      ensures !r.Failure? && Linked(plan, name, World(old(siblings), old(manifest))) ==>
                forall i :: |old(history)| <= i < |history| ==> Linked(plan, name, history[i])
      ensures r == Failure(true) ==> Target(plan, siblings) == Target(plan, old(siblings)) && manifest == old(manifest)
      ensures !r.Failure? ==> manifest == Rewritten(old(manifest), next)
      ensures !r.Failure? ==> plan.base in siblings && siblings[plan.base].Dir?
      ensures !r.Failure? && changed ==> siblings[plan.base].files == plan.files
      ensures r != Failure(false) ==> Settled(plan, siblings)
      ensures forall z: nat :: OneFault(schedule, z) ==> r != Failure(false)
      ensures Smooth(schedule, plan, old(siblings)) && (next.None? || NothingFails(schedule)) ==> r.Success?
    {
      ghost var s, m := siblings, manifest;
      ghost var allowed := iset t | Reached(plan, s, t);
      ghost var e;
      r, e := WriteChanges(changed, next, allowed);
      InstallPath(plan, name, s, m, next, history, |old(history)|);
      if r == Failure(true) {
        IntactIsSettled(plan, s, siblings);
      }
      if !r.Failure? && changed {
        SwappedInIsSettled(plan, s, e, siblings);
      }
      UnlinkedIn(plan, name, s, next, history, |old(history)|);
    }

    // -------------------------------------------------------------- removal

    /** `applyPluginRemovalWithFinalizer` up to the commit boundary. */
    method PrepareRemoval(present: bool, next: Option<seq<string>>, ghost allowed: iset<Siblings>)
      returns (r: Outcome, backup: string)
      requires present == (plan.base in siblings)
      requires CoversAside(plan, siblings, allowed)
      modifies this
      ensures old(history) <= history && Coupled(|old(history)|, allowed, old(manifest), Rewritten(old(manifest), next))
      ensures !r.Unfinished?
      ensures forall z: nat :: OneFault(schedule, z) ==> r != Failure(false)
      ensures r == Failure(true) ==> Intact(plan, old(siblings), siblings) && manifest == old(manifest)
      ensures r.Success? ==> manifest == Rewritten(old(manifest), next)
      ensures r.Success? && !present ==> siblings == old(siblings)
      ensures r.Success? && present ==> OnDisk(plan, old(siblings), AsideAt(backup), map[], siblings)
      ensures Smooth(schedule, plan, old(siblings)) && (next.None? || NothingFails(schedule)) ==> r.Success?
    {
      ghost var s := siblings;
      assert s + map[] == s;
      assert OnDisk(plan, s, Untouched, map[], s);
      backup := "";
      var previous := manifest;
      if next.Some? {
        var readable := Attempt();
        if !readable {
          return Failure(true), backup;
        }
      }
      if present {
        var aside := BackupCurrent(s, map[], allowed);
        if aside.Undone? {
          return Failure(aside.intact), backup;
        }
        backup := aside.backup;
      }
      if next.Some? {
        r := PublishRemoval(s, allowed, present, backup, previous, next.value);
      } else {
        r := Success;
      }
    }

    /** The manifest is rewritten; if that fails, directory and manifest go back. */
    method PublishRemoval(
      ghost s: Siblings, ghost allowed: iset<Siblings>,
      present: bool, backup: string, previous: Manifest, next: seq<string>)
      returns (r: Outcome)
      requires present == (plan.base in s) && CoversAside(plan, s, allowed) && previous == manifest
      requires OnDisk(plan, s, if present then AsideAt(backup) else Untouched, map[], siblings)
      modifies this`siblings, this`manifest, this`steps, this`history
      ensures old(history) <= history && Coupled(|old(history)|, allowed, old(manifest), Some(next))
      ensures siblings in allowed && !r.Unfinished?
      ensures forall z: nat :: OneFault(schedule, z) ==> r != Failure(false)
      ensures r.Success? ==> manifest == Some(next) && siblings == old(siblings)
      ensures r == Failure(true) ==> manifest == old(manifest) && OnDisk(plan, s, Untouched, map[], siblings)
      ensures NothingFails(schedule) ==> r.Success?
    {
      var written := WriteManifest(Some(next));
      if written {
        return Success;
      }
      var undone := true;
      if present {
        Renames(plan, s, map[], backup);
        undone := RestoreBackup(backup, present);
        assert undone ==> OnDisk(plan, s, Untouched, map[], siblings);
        var synced := Attempt();
        undone := undone && synced;
      }
      var restored := WriteManifest(previous);
      return Failure(undone && restored);
    }

    /** Past the commit boundary: the directory set aside is deleted. */
    method FinishRemoval(ghost s: Siblings, backup: string) returns (r: Outcome)
      requires plan.base in s && OnDisk(plan, s, AsideAt(backup), map[], siblings)
      modifies this`siblings, this`steps, this`history
      ensures history == old(history) + [World(siblings, manifest)]
      ensures siblings == old(siblings) || siblings == s - {plan.base}
      ensures plan.base !in siblings && !r.Failure?
      ensures r.Success? ==> siblings == s - {plan.base}
      ensures Smooth(schedule, plan, s) ==> r.Success?
    {
      GoneAfterCommit(plan, s, backup, siblings);
      var finished := CommitReplacement(backup, true);
      return if finished then Success else Unfinished;
    }

    /** `applyPluginRemovalWithFinalizer`; `path` holds every disk it may pass through. */
    method RemoveSteps(present: bool, next: Option<seq<string>>, ghost allowed: iset<Siblings>, ghost path: iset<World>)
      returns (r: Outcome)
      requires present == (plan.base in siblings) && CoversAside(plan, siblings, allowed)
      requires forall w: World :: w.siblings in allowed && w.manifest in {manifest, Rewritten(manifest, next)} ==> w in path
      requires World(siblings - {plan.base}, Rewritten(manifest, next)) in path
      modifies this
      ensures old(history) <= history && forall i :: |old(history)| <= i < |history| ==> history[i] in path
      ensures r == Failure(true) ==> Intact(plan, old(siblings), siblings) && manifest == old(manifest)
      ensures !r.Failure? ==> plan.base !in siblings && manifest == Rewritten(old(manifest), next)
      ensures r.Success? ==> siblings == old(siblings) - {plan.base}
      ensures forall z: nat :: OneFault(schedule, z) ==> r != Failure(false)
      ensures Smooth(schedule, plan, old(siblings)) && (next.None? || NothingFails(schedule)) ==> r.Success?
    {
      ghost var s := siblings;
      var backup;
      r, backup := PrepareRemoval(present, next, allowed);
      if r.Failure? || !present {
        return;
      }
      r := FinishRemoval(s, backup);
    }

    /**
     * Removing a plugin, from whatever disk an earlier installation has left. Until the
     * manifest is rewritten a crash gives the directory back, and an import never outlives
     * its directory. Once the removal is final, a backup that was there before, left over or
     * set aside by a replacement cut short, can bring a directory back.
     */
    method Remove(present: bool, next: Option<seq<string>>, ghost name: string) returns (r: Outcome)
      requires Removable(plan, siblings) && present == (plan.base in siblings)
      requires if next.Some? then name !in next.value else !Imported(manifest, name)
      modifies this
      ensures old(history) <= history
      ensures forall i :: |old(history)| <= i < |history| ==>
                Removing(plan, name, old(siblings), old(manifest), Rewritten(old(manifest), next), history[i])
      ensures r == Failure(true) ==>
                && Target(plan, siblings) == Target(plan, old(siblings)) && manifest == old(manifest)
                && (Settled(plan, old(siblings)) ==> Settled(plan, siblings))
      ensures !r.Failure? ==> plan.base !in siblings && manifest == Rewritten(old(manifest), next)
      ensures r.Success? ==> siblings == old(siblings) - {plan.base}
      ensures forall z: nat :: OneFault(schedule, z) ==> r != Failure(false)
      ensures r.Success? ==> (Recoverable(plan, siblings) <==> exists b :: IsBackup(plan, old(siblings), b))
      ensures Smooth(schedule, plan, old(siblings)) && (next.None? || NothingFails(schedule)) ==> r.Success?
    {
      ghost var s := siblings;
      ghost var before, after := manifest, Rewritten(manifest, next);
      ghost var allowed := iset t | ReachedAside(plan, s, t);
      ghost var path := iset w: World | Removing(plan, name, s, before, after, w);
      forall w: World | w.siblings in allowed && w.manifest in {before, after} ensures w in path {
        BeforeTheCommit(plan, name, s, before, after, w);
      }
      AfterTheCommit(plan, name, s, before, after, World(s - {plan.base}, after));
      r := RemoveSteps(present, next, allowed, path);
      if r == Failure(true) {
        IntactIsSettled(plan, s, siblings);
      }
      Gone(plan, s);
    }
  }
}
