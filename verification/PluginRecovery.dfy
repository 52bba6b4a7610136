/**
 * What a crash can leave beside a plugin directory, and what recovery makes of it.
 * The parent directory is a map from names to entries; a rename and the removal
 * of a whole tree are single steps.
 */
module PluginRecovery {
  import opened Options
  import opened PluginNames
  import Text

  const MANAGED_MARKER := "aht managed integration"

  /** `mtime` is the time a directory's own list of entries last changed; renaming keeps it. */
  datatype Entry = Dir(files: map<string, string>, mtime: int) | Other

  type Siblings = map<string, Entry>

  /**
   * The directory's own name, the file that marks it as managed, the files to
   * install, and the test each kind of temporary name has to pass.
   */
  datatype RawPlan = RawPlan(
    base: string,
    marker: string,
    files: map<string, string>,
    backup: string -> bool,
    stage: string -> bool)

  predicate BackupName(plan: RawPlan, name: string) {
    plan.backup(name)
  }

  predicate StageName(plan: RawPlan, name: string) {
    plan.stage(name)
  }

  /** What `os.MkdirTemp` makes of one random number. */
  function Drawn(p: RawPlan, backup: bool, n: nat): string {
    TempName(p.base, if backup then "backup" else "stage", n)
  }

  /** All that the proofs need of the naming scheme. */
  ghost predicate Named(p: RawPlan) {
    && (forall n: nat :: n < UINT32_LIMIT ==> BackupName(p, Drawn(p, true, n)))
    && (forall n: nat :: n < UINT32_LIMIT ==> StageName(p, Drawn(p, false, n)))
    && (forall name :: !(BackupName(p, name) && StageName(p, name)))
    && !BackupName(p, p.base) && !StageName(p, p.base)
  }

  type Plan = p: RawPlan | Named(p) ghost witness PlanFor("", "", map[])

  /** `newPluginDirectoryInstall` with `temporaryName` */
  function PlanFor(base: string, marker: string, files: map<string, string>): (p: RawPlan)
    ensures Named(p)
  {
    var p := RawPlan(base, marker, files, name => IsTemporary(base, "backup", name), name => IsTemporary(base, "stage", name));
    assert Named(p) by {
      forall n: nat | n < UINT32_LIMIT
        ensures BackupName(p, Drawn(p, true, n)) && StageName(p, Drawn(p, false, n))
      {
        DrawnIsTemporary(base, "backup", n);
        DrawnIsTemporary(base, "stage", n);
      }
      forall name ensures !(BackupName(p, name) && StageName(p, name)) {
        TemporaryKindsDiffer(base, name);
      }
      TemporaryKindsDiffer(base, base);
    }
    p
  }

  /** `managed`, for an entry that exists */
  predicate Managed(plan: Plan, e: Entry) {
    && e.Dir? && plan.marker != "" && plan.marker in e.files && Text.Contains(e.files[plan.marker], MANAGED_MARKER)
  }

  /** A backup that holds something; recovery may restore it. */
  predicate IsBackup(plan: Plan, s: Siblings, name: string) {
    name in s && BackupName(plan, name) && s[name].Dir? && s[name].files != map[]
  }

  /** A stage, or the empty directory that reserves a backup name; recovery only removes it. */
  predicate IsLeftover(plan: Plan, s: Siblings, name: string) {
    && name in s && s[name].Dir? && !IsBackup(plan, s, name)
    && (BackupName(plan, name) || StageName(plan, name))
  }

  ghost predicate Clean(plan: Plan, s: Siblings) {
    forall name :: name in s ==> !IsBackup(plan, s, name) && !IsLeftover(plan, s, name)
  }

  ghost predicate AllManaged(plan: Plan, s: Siblings) {
    forall name :: IsBackup(plan, s, name) ==> Managed(plan, s[name])
  }

  ghost predicate Newest(plan: Plan, s: Siblings, name: string) {
    && IsBackup(plan, s, name)
    && forall other :: IsBackup(plan, s, other) ==> s[other].mtime <= s[name].mtime
  }

  function Target(plan: Plan, s: Siblings): Option<Entry> {
    if plan.base in s then Some(s[plan.base]) else None
  }

  /**
   * Recovery may leave `e` in place of the directory. Backups of equal age leave a
   * choice, which depends on the order the parent directory is listed in.
   */
  ghost predicate RecoversTo(plan: Plan, s: Siblings, e: Option<Entry>) {
    if plan.base in s then e == Some(s[plan.base])
    else if e.None? then forall name :: !IsBackup(plan, s, name)
    else exists name :: Newest(plan, s, name) && s[name] == e.value
  }

  /** `e` is the old directory, or one holding exactly the new files; no new files mean no directory. */
  ghost predicate Holds(e: Option<Entry>, before: Option<Entry>, renewed: Option<map<string, string>>) {
    e == before || if renewed.None? then e.None? else e.Some? && e.value.Dir? && e.value.files == renewed.value
  }

  /** Recovery will not refuse this disk, and it leaves the old or the new directory, complete. */
  ghost predicate CrashSafe(plan: Plan, s: Siblings, before: Option<Entry>, renewed: Option<map<string, string>>) {
    AllManaged(plan, s) && forall e :: RecoversTo(plan, s, e) ==> Holds(e, before, renewed)
  }

  /** `t` is as good as `s`: recovery refuses neither and finds nothing in `t` it might not have left of `s`. */
  ghost predicate Refines(plan: Plan, s: Siblings, t: Siblings) {
    AllManaged(plan, t) && forall e :: RecoversTo(plan, t, e) ==> RecoversTo(plan, s, e)
  }

  /** Recovery ends with some directory in place. */
  ghost predicate Recoverable(plan: Plan, s: Siblings) {
    plan.base in s || exists name :: IsBackup(plan, s, name)
  }

  /** Entries that are none of the plugin's business. */
  ghost predicate SameOutside(plan: Plan, s: Siblings, t: Siblings) {
    forall name :: name != plan.base && !BackupName(plan, name) && !StageName(plan, name) ==>
      (name in s <==> name in t) && (name in s ==> s[name] == t[name])
  }

  /** Between operations: the directory is managed and younger than any backup left over. */
  ghost predicate Settled(plan: Plan, s: Siblings) {
    && AllManaged(plan, s)
    && if plan.base in s
       then Managed(plan, s[plan.base])
            && forall name :: IsBackup(plan, s, name) ==> s[name].mtime < s[plan.base].mtime
       else forall name :: !IsBackup(plan, s, name)
  }

  /** Every timestamp on the disk lies before `now`. */
  ghost predicate Dated(s: Siblings, now: int) {
    forall name :: name in s && s[name].Dir? ==> s[name].mtime < now
  }

  /** What recovery leaves is settled, as long as the directory itself is ours. */
  lemma CleanIsSettled(plan: Plan, s: Siblings)
    requires Clean(plan, s) && (plan.base in s ==> Managed(plan, s[plan.base]))
    ensures Settled(plan, s)
  {
  }

  lemma DrawnWell(plan: Plan, n: nat)
    requires n < UINT32_LIMIT
    ensures BackupName(plan, Drawn(plan, true, n)) && StageName(plan, Drawn(plan, false, n))
  {
  }

  // ---------------------------------------------------------------- what recovery sees of a change

  /** Same directory and same backups; stages and reserved names may differ. */
  ghost predicate SameForRecovery(plan: Plan, s: Siblings, t: Siblings) {
    && Target(plan, s) == Target(plan, t)
    && forall name :: (IsBackup(plan, s, name) <==> IsBackup(plan, t, name))
                      && (IsBackup(plan, s, name) ==> s[name] == t[name])
  }

  lemma SameForRecoveryRecoversTheSame(plan: Plan, s: Siblings, t: Siblings)
    requires SameForRecovery(plan, s, t)
    ensures AllManaged(plan, s) == AllManaged(plan, t)
    ensures forall e :: RecoversTo(plan, s, e) <==> RecoversTo(plan, t, e)
    ensures Settled(plan, s) == Settled(plan, t)
    ensures Recoverable(plan, s) == Recoverable(plan, t)
  {
    forall name ensures Newest(plan, s, name) <==> Newest(plan, t, name) {
    }
    forall e ensures RecoversTo(plan, s, e) <==> RecoversTo(plan, t, e) {
      if e.Some? && plan.base !in s {
        if RecoversTo(plan, s, e) {
          var name :| Newest(plan, s, name) && s[name] == e.value;
          assert Newest(plan, t, name) && t[name] == e.value;
        }
        if RecoversTo(plan, t, e) {
          var name :| Newest(plan, t, name) && t[name] == e.value;
          assert Newest(plan, s, name) && s[name] == e.value;
        }
      }
    }
  }

  // ---------------------------------------------------------------- the disks of a recovery

  /** The newest backup has been put back. */
  lemma PutBack(plan: Plan, s: Siblings, newest: string)
    requires AllManaged(plan, s) && plan.base !in s && Newest(plan, s, newest)
    ensures var t := (s - {newest})[plan.base := s[newest]];
            && Refines(plan, s, t) && SameOutside(plan, s, t)
            && (forall name :: IsBackup(plan, t, name) ==> IsBackup(plan, s, name))
            && (forall name :: IsLeftover(plan, t, name) ==> IsLeftover(plan, s, name))
  {
    assert RecoversTo(plan, s, Some(s[newest]));
  }

  /** `t` is `s` without some of `names`. */
  ghost predicate PartlySwept(s: Siblings, names: set<string>, t: Siblings) {
    exists gone: set<string> :: gone <= names && t == s - gone
  }

  /** With the directory in place, or nothing to restore, temporary entries may go. */
  lemma Swept(plan: Plan, s: Siblings, gone: set<string>)
    requires AllManaged(plan, s) && (plan.base in s || forall name :: !IsBackup(plan, s, name))
    requires forall name :: name in gone ==> BackupName(plan, name) || StageName(plan, name)
    ensures Refines(plan, s, s - gone) && SameOutside(plan, s, s - gone)
    ensures (forall name :: IsBackup(plan, s, name) || IsLeftover(plan, s, name) ==> name in gone) ==> Clean(plan, s - gone)
  {
  }

  // ---------------------------------------------------------------- the disks of a replacement

  /** The directory has been moved to a backup name. */
  function Aside(plan: Plan, s: Siblings, backup: string): Siblings
    requires plan.base in s
  {
    (s - {plan.base})[backup := s[plan.base]]
  }

  /** A new directory has taken the place of the old one, which is kept as a backup if there was one. */
  function Swapped(plan: Plan, s: Siblings, backup: string, e: Entry): Siblings {
    (if plan.base in s then Aside(plan, s, backup) else s)[plan.base := e]
  }

  /** With nothing under way there is nothing for recovery to choose. */
  lemma SettledIsSafe(plan: Plan, s: Siblings, renewed: Option<map<string, string>>)
    requires Settled(plan, s)
    ensures CrashSafe(plan, s, Target(plan, s), renewed)
  {
  }

  /** The directory has been moved to a fresh backup name: only it can come back. */
  lemma AsideIsSafe(plan: Plan, s: Siblings, backup: string, renewed: Option<map<string, string>>)
    requires Settled(plan, s) && plan.base in s && BackupName(plan, backup) && backup !in s
    ensures CrashSafe(plan, Aside(plan, s, backup), Target(plan, s), renewed)
    ensures SameOutside(plan, s, Aside(plan, s, backup))
    ensures Recoverable(plan, Aside(plan, s, backup))
  {
    var t := Aside(plan, s, backup);
    forall name ensures IsBackup(plan, t, name) <==> name == backup || IsBackup(plan, s, name) {
      assert Managed(plan, s[plan.base]) ==> s[plan.base].files != map[];
    }
    assert IsBackup(plan, t, backup);
    forall e | RecoversTo(plan, t, e) ensures e == Some(s[plan.base]) {
      if e.Some? {
        var name :| Newest(plan, t, name) && t[name] == e.value;
        assert t[backup].mtime <= t[name].mtime;
      }
    }
  }

  /** The new directory is in place, and so it stays. */
  lemma SwappedIsSafe(plan: Plan, s: Siblings, backup: string, e: Entry)
    requires Settled(plan, s) && e.Dir? && BackupName(plan, backup) && backup !in s
    ensures CrashSafe(plan, Swapped(plan, s, backup, e), Target(plan, s), Some(e.files))
    ensures SameOutside(plan, s, Swapped(plan, s, backup, e))
  {
    var t := Swapped(plan, s, backup, e);
    forall name | IsBackup(plan, t, name) ensures Managed(plan, t[name]) {
      assert name == backup || IsBackup(plan, s, name);
    }
  }

  /** The backup is gone too. */
  lemma CommittedIsSafe(plan: Plan, s: Siblings, e: Entry)
    requires Settled(plan, s) && e.Dir?
    ensures CrashSafe(plan, s[plan.base := e], Target(plan, s), Some(e.files))
    ensures SameOutside(plan, s, s[plan.base := e])
  {
    var t := s[plan.base := e];
    forall name | IsBackup(plan, t, name) ensures Managed(plan, t[name]) {
      assert IsBackup(plan, s, name);
    }
  }

  /** The new directory is settled in once it is the youngest thing on the disk. */
  lemma SwappedIsSettled(plan: Plan, s: Siblings, e: Entry)
    requires Settled(plan, s) && Managed(plan, e) && Dated(s, e.mtime)
    ensures Settled(plan, s[plan.base := e])
  {
    CommittedIsSafe(plan, s, e);
    forall name | IsBackup(plan, s[plan.base := e], name) ensures IsBackup(plan, s, name) {
    }
  }

  lemma SwapWithBackupIsSettled(plan: Plan, s: Siblings, backup: string, e: Entry)
    requires Settled(plan, s) && Managed(plan, e) && BackupName(plan, backup) && backup !in s && Dated(s, e.mtime)
    ensures Settled(plan, Swapped(plan, s, backup, e))
  {
    SwappedIsSafe(plan, s, backup, e);
    var t := Swapped(plan, s, backup, e);
    forall name | IsBackup(plan, t, name) ensures t[name].mtime < e.mtime {
      assert IsBackup(plan, s, name) || (name == backup && plan.base in s);
    }
  }

  /** How far a replacement or a removal has come. */
  datatype Stage = Untouched | AsideAt(backup: string) | SwappedFor(backup: string, e: Entry) | Committed(e: Entry)

  /** A backup name can be given to the directory only if it is free and drawn for it. */
  predicate FreshBackup(plan: Plan, s: Siblings, x: Siblings, backup: string) {
    BackupName(plan, backup) && backup !in s && backup !in x
  }

  /** Entries beside the directory that recovery will only delete: a stage, a reserved backup name. */
  predicate Scratch(plan: Plan, s: Siblings, x: Siblings) {
    forall name :: name in x ==>
      name !in s && x[name].Dir? && (StageName(plan, name) || (BackupName(plan, name) && x[name].files == map[]))
  }

  predicate Sound(plan: Plan, s: Siblings, at: Stage, x: Siblings) {
    match at
    case Untouched => true
    case AsideAt(backup) => plan.base in s && FreshBackup(plan, s, x, backup)
    case SwappedFor(backup, e) => FreshBackup(plan, s, x, backup) && e.Dir? && e.files == plan.files
    case Committed(e) => e.Dir? && e.files == plan.files
  }

  function Shape(plan: Plan, s: Siblings, at: Stage): Siblings {
    match at
    case Untouched => s
    case AsideAt(backup) => if plan.base in s then Aside(plan, s, backup) else s
    case SwappedFor(backup, e) => Swapped(plan, s, backup, e)
    case Committed(e) => s[plan.base := e]
  }

  /** `t` is the disk `s` at stage `at`, with scratch entries `x` beside it. */
  predicate OnDisk(plan: Plan, s: Siblings, at: Stage, x: Siblings, t: Siblings) {
    Scratch(plan, s, x) && Sound(plan, s, at, x) && t == Shape(plan, s, at) + x
  }

  /** `t` is one of the disks an operation begun on `s` can pass through. */
  ghost predicate Reached(plan: Plan, s: Siblings, t: Siblings) {
    exists at, x :: OnDisk(plan, s, at, x, t)
  }

  /** `allowed` holds every disk an operation begun on `s` can pass through. */
  ghost predicate Covers(plan: Plan, s: Siblings, allowed: iset<Siblings>) {
    forall at, x, t :: OnDisk(plan, s, at, x, t) ==> t in allowed
  }

  /** The same without the new directory: all that making a backup and undoing it can leave. */
  ghost predicate CoversAside(plan: Plan, s: Siblings, allowed: iset<Siblings>) {
    forall at, x, t :: OnDisk(plan, s, at, x, t) && (at.Untouched? || at.AsideAt?) ==> t in allowed
  }

  ghost predicate ReachedAside(plan: Plan, s: Siblings, t: Siblings) {
    exists at, x :: OnDisk(plan, s, at, x, t) && (at.Untouched? || at.AsideAt?)
  }

  ghost predicate Intact(plan: Plan, s: Siblings, t: Siblings) {
    exists x :: OnDisk(plan, s, Untouched, x, t)
  }

  /** `t` is `s` with a directory beside it. */
  ghost predicate OneBeside(s: Siblings, name: string, t: Siblings) {
    name in t && t[name].Dir? && t - {name} == s
  }

  lemma StagesBeside(plan: Plan, s: Siblings, name: string)
    requires StageName(plan, name) && name !in s
    ensures forall t :: OneBeside(s, name, t) ==> OnDisk(plan, s, Untouched, map[name := t[name]], t)
  {
    forall t | OneBeside(s, name, t) ensures t == s + map[name := t[name]] {
    }
  }

  /** Scratch entries make no difference to recovery. */
  lemma ScratchIsInvisible(plan: Plan, s: Siblings, at: Stage, x: Siblings, t: Siblings)
    requires OnDisk(plan, s, at, x, t)
    ensures SameForRecovery(plan, Shape(plan, s, at), t) && SameOutside(plan, Shape(plan, s, at), t)
  {
    forall name | name in x ensures name !in Shape(plan, s, at) && name != plan.base && !IsBackup(plan, t, name) {
    }
  }

  /** Wherever a crash stops a replacement, recovery leaves the old directory or the new. */
  lemma ReachedIsSafe(plan: Plan, s: Siblings, t: Siblings)
    requires Settled(plan, s) && Reached(plan, s, t)
    ensures CrashSafe(plan, t, Target(plan, s), Some(plan.files))
    ensures SameOutside(plan, s, t)
    ensures plan.base in s ==> Recoverable(plan, t)
  {
    var at, x :| OnDisk(plan, s, at, x, t);
    ScratchIsInvisible(plan, s, at, x, t);
    var u := Shape(plan, s, at);
    match at {
      case Untouched => SettledIsSafe(plan, s, Some(plan.files));
      case AsideAt(backup) => AsideIsSafe(plan, s, backup, Some(plan.files));
      case SwappedFor(backup, e) => SwappedIsSafe(plan, s, backup, e);
      case Committed(e) => CommittedIsSafe(plan, s, e);
    }
    SameForRecoveryRecoversTheSame(plan, u, t);
  }

  /** What removal asks of a disk: the directory, if there is one, is ours. Backups it does not look at. */
  predicate Removable(plan: Plan, s: Siblings) {
    plan.base in s ==> Managed(plan, s[plan.base])
  }

  /** Moved aside, the directory would be the one recovery picks. */
  ghost predicate Outdated(plan: Plan, s: Siblings) {
    plan.base in s && s[plan.base].Dir? ==>
      forall b :: IsBackup(plan, s, b) ==> s[b].mtime < s[plan.base].mtime || s[b] == s[plan.base]
  }

  lemma AsideIsBackup(plan: Plan, s: Siblings, backup: string)
    requires plan.base in s && Managed(plan, s[plan.base]) && BackupName(plan, backup) && backup !in s
    ensures forall name :: IsBackup(plan, Aside(plan, s, backup), name) <==> name == backup || IsBackup(plan, s, name)
  {
    assert s[plan.base].files != map[];
  }

  /** The directory set aside comes back if and only if no other backup is as young as it. */
  lemma AsideComesBack(plan: Plan, s: Siblings, backup: string)
    requires plan.base in s && Managed(plan, s[plan.base]) && BackupName(plan, backup) && backup !in s
    ensures Outdated(plan, s) <==> forall e :: RecoversTo(plan, Aside(plan, s, backup), e) ==> e == Some(s[plan.base])
  {
    var t := Aside(plan, s, backup);
    AsideIsBackup(plan, s, backup);
    if Outdated(plan, s) {
      forall e | RecoversTo(plan, t, e) ensures e == Some(s[plan.base]) {
        assert IsBackup(plan, t, backup);
        var name :| Newest(plan, t, name) && t[name] == e.value;
        assert t[backup].mtime <= t[name].mtime;
      }
    } else {
      var b :| IsBackup(plan, s, b) && s[b].mtime >= s[plan.base].mtime && s[b] != s[plan.base];
      var all := set name | name in t && IsBackup(plan, t, name);
      assert b in all;
      var newest := NewestOf(plan, t, all);
      var best := if s[b].mtime == t[newest].mtime then b else newest;
      assert Newest(plan, t, best) && t[best] != s[plan.base];
      assert RecoversTo(plan, t, Some(t[best]));
    }
  }

  /** What recovery makes of the disks a removal passes through before it is final. */
  lemma RemovalPath(plan: Plan, s: Siblings, t: Siblings)
    requires Removable(plan, s) && ReachedAside(plan, s, t)
    ensures SameOutside(plan, s, t)
    ensures Recoverable(plan, s) ==> Recoverable(plan, t)
    ensures AllManaged(plan, s) ==> AllManaged(plan, t)
    ensures Outdated(plan, s) ==> forall e :: RecoversTo(plan, t, e) ==> RecoversTo(plan, s, e)
    ensures (forall b :: !IsBackup(plan, s, b)) ==> CrashSafe(plan, t, Target(plan, s), None)
  {
    var at, x :| OnDisk(plan, s, at, x, t) && (at.Untouched? || at.AsideAt?);
    ScratchIsInvisible(plan, s, at, x, t);
    SameForRecoveryRecoversTheSame(plan, Shape(plan, s, at), t);
    if at.AsideAt? {
      AsideIsBackup(plan, s, at.backup);
      AsideComesBack(plan, s, at.backup);
      assert IsBackup(plan, Aside(plan, s, at.backup), at.backup);
    }
  }

  /** A finished replacement leaves a settled disk, whether or not the backup is gone. */
  lemma SwappedInIsSettled(plan: Plan, s: Siblings, e: Entry, t: Siblings)
    requires Settled(plan, s) && Managed(plan, e) && Dated(s, e.mtime)
    requires OnDisk(plan, s, Committed(e), map[], t) || exists b :: OnDisk(plan, s, SwappedFor(b, e), map[], t)
    ensures Settled(plan, t) && plan.base in t && t[plan.base] == e
  {
    if OnDisk(plan, s, Committed(e), map[], t) {
      assert t == s[plan.base := e];
      SwappedIsSettled(plan, s, e);
    } else {
      var b :| OnDisk(plan, s, SwappedFor(b, e), map[], t);
      assert t == Swapped(plan, s, b, e);
      SwappedIsSettled(plan, s, e);
      SwapWithBackupIsSettled(plan, s, b, e);
    }
  }

  /** The disk without the directory: recovery has only older backups left to choose from. */
  lemma Gone(plan: Plan, s: Siblings)
    ensures AllManaged(plan, s) ==> AllManaged(plan, s - {plan.base})
    ensures SameOutside(plan, s, s - {plan.base})
    ensures Recoverable(plan, s - {plan.base}) <==> exists b :: IsBackup(plan, s, b)
    ensures plan.base !in s ==> s - {plan.base} == s
    ensures (forall b :: !IsBackup(plan, s, b)) ==> CrashSafe(plan, s - {plan.base}, Target(plan, s), None)
  {
    var t := s - {plan.base};
    forall b ensures IsBackup(plan, t, b) <==> IsBackup(plan, s, b) {
    }
  }

  /**
   * A replacement that stopped with the old directory set aside: a removal finds no
   * directory and nothing to do but the manifest, and recovery then brings the old one back.
   */
  lemma CrashedInstallComesBack(base: string, marker: string, files: map<string, string>, n: nat)
    returns (s: Siblings, crashed: Siblings)
    requires marker != "" && n < UINT32_LIMIT
    ensures var plan := PlanFor(base, marker, files);
            && Settled(plan, s) && base in s && Reached(plan, s, crashed)
            && base !in crashed && Removable(plan, crashed) && AllManaged(plan, crashed)
            && crashed - {base} == crashed
            && forall e :: RecoversTo(plan, crashed, e) <==> e == Some(s[base])
  {
    var plan: Plan := PlanFor(base, marker, files);
    var older := Dir(map[marker := MANAGED_MARKER], 0);
    var backup := Drawn(plan, true, n);
    DrawnWell(plan, n);
    assert Text.At(MANAGED_MARKER, MANAGED_MARKER, 0);
    Text.IndexIsFirst(MANAGED_MARKER, MANAGED_MARKER);
    s := map[base := older];
    OnlyDirectory(plan, s, backup);
    crashed := Aside(plan, s, backup);
  }

  /** A disk with nothing but the directory, and the same directory set aside. */
  lemma OnlyDirectory(plan: Plan, s: Siblings, backup: string)
    requires s.Keys == {plan.base} && Managed(plan, s[plan.base]) && BackupName(plan, backup)
    ensures Settled(plan, s)
    ensures var t := Aside(plan, s, backup);
            && Reached(plan, s, t) && plan.base !in t && t - {plan.base} == t && AllManaged(plan, t)
            && forall e :: RecoversTo(plan, t, e) <==> e == Some(s[plan.base])
  {
    var t := Aside(plan, s, backup);
    AsideIsBackup(plan, s, backup);
    AsideComesBack(plan, s, backup);
    assert t + map[] == t && OnDisk(plan, s, AsideAt(backup), map[], t);
    assert Newest(plan, t, backup);
  }

  /** A backup left over from before a removal is what recovery puts in place afterwards. */
  lemma OlderBackupComesBack(base: string, marker: string, files: map<string, string>, n: nat) returns (s: Siblings)
    requires marker != "" && n < UINT32_LIMIT
    ensures var plan := PlanFor(base, marker, files);
            && Settled(plan, s) && base in s
            && var older := Dir(map[marker := MANAGED_MARKER], 0);
               s[base] != older && forall e :: RecoversTo(plan, s - {base}, e) <==> e == Some(older)
  {
    var plan: Plan := PlanFor(base, marker, files);
    var older := Dir(map[marker := MANAGED_MARKER], 0);
    var backup := Drawn(plan, true, n);
    DrawnWell(plan, n);
    assert Text.At(MANAGED_MARKER, MANAGED_MARKER, 0);
    Text.IndexIsFirst(MANAGED_MARKER, MANAGED_MARKER);
    s := map[base := Dir(older.files, 1), backup := older];
    assert marker in older.files;
    forall name ensures IsBackup(plan, s, name) <==> name == backup {
    }
    assert Newest(plan, s - {base}, backup);
  }

  lemma GoneAfterCommit(plan: Plan, s: Siblings, backup: string, t: Siblings)
    requires plan.base in s && OnDisk(plan, s, AsideAt(backup), map[], t)
    ensures t - {backup} == s - {plan.base} && plan.base !in t
  {
    assert t == Aside(plan, s, backup);
  }

  /** The renames that lead from one stage to the next and back. */
  lemma Renames(plan: Plan, s: Siblings, x: Siblings, backup: string)
    requires Scratch(plan, s, x) && FreshBackup(plan, s, x, backup)
    ensures plan.base !in x && backup != plan.base
    ensures plan.base in s ==> (s + x - {plan.base})[backup := s[plan.base]] == Aside(plan, s, backup) + x
    ensures plan.base in s ==> (Aside(plan, s, backup) + x - {backup})[plan.base := s[plan.base]] == s + x
  {
    if plan.base in x {
    }
  }

  lemma SwapUndone(plan: Plan, s: Siblings, x: Siblings, backup: string, e: Entry)
    requires Scratch(plan, s, x) && FreshBackup(plan, s, x, backup)
    ensures (Swapped(plan, s, backup, e) + x) - {plan.base} == if plan.base in s then Aside(plan, s, backup) + x else s + x
    ensures plan.base in s ==> (Swapped(plan, s, backup, e) + x - {backup})[plan.base := s[plan.base]] == s + x
  {
    assert plan.base !in x;
  }

  /** The disks of a rollback, whether or not the new directory could be removed first. */
  lemma RollbackDisks(plan: Plan, s: Siblings, x: Siblings, backup: string, e: Entry, t: Siblings)
    requires OnDisk(plan, s, SwappedFor(backup, e), x, t)
    ensures backup != plan.base
    ensures OnDisk(plan, s, if plan.base in s then AsideAt(backup) else Untouched, x, t - {plan.base})
    ensures plan.base !in s ==> t - {plan.base} == s + x
    ensures plan.base in s ==> backup in t && t[backup] == s[plan.base]
    ensures plan.base in s ==> OnDisk(plan, s, Untouched, x, (t - {backup})[plan.base := s[plan.base]])
    ensures plan.base in s ==> OnDisk(plan, s, Untouched, x, (t - {plan.base} - {backup})[plan.base := s[plan.base]])
  {
    Renames(plan, s, x, backup);
    SwapUndone(plan, s, x, backup, e);
  }

  /** Removing the backup commits the new directory. */
  lemma CommitLeaves(plan: Plan, s: Siblings, backup: string, e: Entry, t: Siblings)
    requires OnDisk(plan, s, SwappedFor(backup, e), map[], t)
    ensures OnDisk(plan, s, Committed(e), map[], if plan.base in s then t - {backup} else t)
  {
    assert Shape(plan, s, SwappedFor(backup, e)) + map[] == Shape(plan, s, SwappedFor(backup, e));
    assert s[plan.base := e] + map[] == s[plan.base := e];
  }

  /** The stage takes the place of the directory. */
  lemma StageMoved(plan: Plan, s: Siblings, staged: string, e: Entry, backup: string)
    requires StageName(plan, staged) && BackupName(plan, backup)
    ensures plan.base in s ==>
              (Aside(plan, s, backup) + map[staged := e] - {staged})[plan.base := e] == Swapped(plan, s, backup, e) - {staged}
    ensures plan.base !in s ==> (s + map[staged := e] - {staged})[plan.base := e] == Swapped(plan, s, backup, e) - {staged}
  {
  }

  /** The disks between moving the old directory aside and having the new one in place. */
  lemma PlacingDisks(plan: Plan, s: Siblings, staged: string, e: Entry, backup: string, t: Siblings)
    requires StageName(plan, staged) && FreshBackup(plan, s, map[staged := e], backup) && e.Dir? && e.files == plan.files
    requires OnDisk(plan, s, if plan.base in s then AsideAt(backup) else Untouched, map[staged := e], t)
    ensures staged != plan.base && backup != plan.base && plan.base !in t && staged in t && t[staged] == e
    ensures OnDisk(plan, s, SwappedFor(backup, e), map[], (t - {staged})[plan.base := e])
    ensures plan.base in s ==> backup in t && t[backup] == s[plan.base]
    ensures plan.base in s ==> OnDisk(plan, s, Untouched, map[staged := e], (t - {backup})[plan.base := s[plan.base]])
  {
    var x := map[staged := e];
    Renames(plan, s, x, backup);
    StageMoved(plan, s, staged, e, backup);
    assert (t - {staged})[plan.base := e] == Shape(plan, s, SwappedFor(backup, e)) + map[];
  }

  lemma ScratchRemoved(plan: Plan, s: Siblings, at: Stage, x: Siblings, t: Siblings, staged: string)
    requires OnDisk(plan, s, at, x, t) && StageName(plan, staged) && staged !in s
    ensures OnDisk(plan, s, at, x - {staged}, t - {staged})
  {
    assert staged !in Shape(plan, s, at);
  }

  /** A replacement undone leaves a disk that is as settled as before, with the same directory. */
  lemma IntactIsSettled(plan: Plan, s: Siblings, t: Siblings)
    requires Intact(plan, s, t)
    ensures SameForRecovery(plan, s, t) && (Settled(plan, s) ==> Settled(plan, t)) && Reached(plan, s, t)
  {
    var x :| OnDisk(plan, s, Untouched, x, t);
    ScratchIsInvisible(plan, s, Untouched, x, t);
    SameForRecoveryRecoversTheSame(plan, s, t);
  }

  // ---------------------------------------------------------------- the meaning of recovery

  lemma {:induction false} NewestOf(plan: Plan, s: Siblings, names: set<string>) returns (newest: string)
    requires names != {} && forall name :: name in names ==> IsBackup(plan, s, name)
    ensures newest in names && IsBackup(plan, s, newest)
    ensures forall name :: name in names ==> IsBackup(plan, s, name) && s[name].mtime <= s[newest].mtime
    decreases |names|
  {
    newest :| newest in names;
    if names != {newest} {
      assert names - {newest} != {};
      var rest := NewestOf(plan, s, names - {newest});
      if s[newest].mtime < s[rest].mtime {
        newest := rest;
      }
    }
  }

  /** Recovery always has an outcome; it is a directory exactly if there is one to keep or to restore. */
  lemma RecoveryHasAnOutcome(plan: Plan, s: Siblings)
    ensures exists e :: RecoversTo(plan, s, e)
    ensures Recoverable(plan, s) <==> forall e :: RecoversTo(plan, s, e) ==> e.Some?
  {
    var backups := set name | name in s && IsBackup(plan, s, name);
    if plan.base in s {
      assert RecoversTo(plan, s, Some(s[plan.base]));
    } else if backups == {} {
      forall name ensures !IsBackup(plan, s, name) {
        assert IsBackup(plan, s, name) ==> name in backups;
      }
      assert RecoversTo(plan, s, None);
    } else {
      var newest := NewestOf(plan, s, backups);
      assert Newest(plan, s, newest);
      assert RecoversTo(plan, s, Some(s[newest]));
    }
  }

  /**
   * Recovery interrupted any number of times and run again: as long as each disk
   * is as good as the one before, the run ends with the old or the new directory.
   */
  lemma {:induction false} ManyCrashes(plan: Plan, run: seq<Siblings>, before: Option<Entry>, renewed: Option<map<string, string>>)
    requires run != [] && CrashSafe(plan, run[0], before, renewed)
    requires forall i :: 0 <= i < |run| - 1 ==> Refines(plan, run[i], run[i + 1])
    ensures CrashSafe(plan, run[|run| - 1], before, renewed)
    ensures Clean(plan, run[|run| - 1]) ==> Holds(Target(plan, run[|run| - 1]), before, renewed)
  {
    if |run| > 1 {
      ManyCrashes(plan, run[1..], before, renewed);
    } else if Clean(plan, run[0]) {
      assert RecoversTo(plan, run[0], Target(plan, run[0]));
    }
  }
}
