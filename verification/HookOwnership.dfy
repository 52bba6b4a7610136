/**
 * Which commands count as ours. The answer is derived from the configuration at hand:
 * a command is ours if it is tagged as such, or if it is a hook command of a binary
 * that some tagged or marked hook of the configuration vouches for.
 */
module HookOwnership {
  import opened Options
  import opened HookGroups
  import opened ManagedHooks
  import Sets

  const MARKER := "aht managed integration"

  /**
   * What can be read off a command: whether it carries the tag of our source, the binary
   * of a report command, and the binary of a hook command in canonical form.
   */
  datatype Signs = Signs(tagged: string -> bool, reporter: string -> Option<string>, native: string -> Option<string>)

  function Text(fields: map<string, Json>, key: string): Option<string> {
    if key in fields && fields[key].Str? then Some(fields[key].s) else None
  }

  /** `ownedHookBinary` */
  function OwnedBinary(hook: map<string, Json>, signs: Signs): Option<string> {
    match Text(hook, "command")
    case None => None
    case Some(command) =>
      if signs.tagged(command) && signs.reporter(command).Some? then signs.reporter(command)
      else if Text(hook, "statusMessage") == Some(MARKER) then signs.native(command)
      else None
  }

  function Singleton(b: Option<string>): set<string> {
    if b.Some? then {b.value} else {}
  }

  /** The binaries that a value vouches for, at any depth. */
  function Binaries(v: Json, signs: Signs): set<string> {
    match v
    case Arr(items) => set i, b | 0 <= i < |items| && b in Binaries(items[i], signs) :: b
    case Obj(fields) =>
      Singleton(OwnedBinary(fields, signs)) + set k, b | k in fields && b in Binaries(fields[k], signs) :: b
    case _ => {}
  }

  /** `isManagedSourceHookCommand`, once the binaries are known */
  function OwnerOf(signs: Signs, binaries: set<string>): Owner {
    (command: string) => signs.tagged(command) || (signs.native(command).Some? && signs.native(command).value in binaries)
  }

  /** One of the first `n` items vouches for the binary. */
  ghost predicate SomeItem(items: seq<Json>, n: nat, signs: Signs, b: string)
    requires n <= |items|
  {
    exists i :: 0 <= i < n && b in Binaries(items[i], signs)
  }

  /** A value under one of these keys does. */
  ghost predicate SomeField(fields: map<string, Json>, keys: set<string>, signs: Signs, b: string) {
    exists k :: k in keys && k in fields && b in Binaries(fields[k], signs)
  }

  /** `collectOwnedHookBinaries` */
  method Collect(v: Json, signs: Signs, binaries: set<string>) returns (all: set<string>)
    ensures all == binaries + Binaries(v, signs)
    decreases v, 1
  {
    match v {
      case Arr(items) => all := CollectItems(items, signs, binaries);
      case Obj(fields) => all := CollectFields(fields, signs, binaries + Singleton(OwnedBinary(fields, signs)));
      case _ => all := binaries;
    }
  }

  method CollectItems(items: seq<Json>, signs: Signs, binaries: set<string>) returns (all: set<string>)
    ensures all == binaries + Binaries(Arr(items), signs)
    decreases Arr(items), 0
  {
    all := binaries;
    for i := 0 to |items|
      invariant forall b :: b in all <==> b in binaries || SomeItem(items, i, signs, b)
    {
      all := Collect(items[i], signs, all);
      forall b ensures SomeItem(items, i + 1, signs, b) <==> SomeItem(items, i, signs, b) || b in Binaries(items[i], signs) {
      }
    }
    forall b ensures b in Binaries(Arr(items), signs) <==> SomeItem(items, |items|, signs, b) {
    }
  }

  method CollectFields(fields: map<string, Json>, signs: Signs, binaries: set<string>) returns (all: set<string>)
    ensures all + Singleton(OwnedBinary(fields, signs)) == binaries + Binaries(Obj(fields), signs)
    ensures binaries <= all
    decreases Obj(fields), 0
  {
    all := binaries;
    var rest := fields.Keys;
    while rest != {}
      invariant rest <= fields.Keys
      invariant forall b :: b in all <==> b in binaries || SomeField(fields, fields.Keys - rest, signs, b)
      decreases |rest|
    {
      ghost var member := Sets.SomeMember(rest);
      var key :| key in rest;
      all := Collect(fields[key], signs, all);
      forall b ensures SomeField(fields, fields.Keys - (rest - {key}), signs, b)
                       <==> SomeField(fields, fields.Keys - rest, signs, b) || b in Binaries(fields[key], signs) {
      }
      rest := rest - {key};
    }
    forall b ensures b in Binaries(Obj(fields), signs)
                     <==> b in Singleton(OwnedBinary(fields, signs)) || SomeField(fields, fields.Keys - rest, signs, b) {
    }
  }

  // ---------------------------------------------------------------- what is planned

  datatype Spec = Spec(event: string, matcher: string, status: string, timeout: real, command: string)

  /** `commandHookGroup` */
  function CommandGroup(spec: Spec): Json {
    var hook := map["type" := Str("command"), "command" := Str(spec.command), "timeout" := Num(spec.timeout)];
    var marked := if spec.status != "" then hook["statusMessage" := Str(spec.status)] else hook;
    var group := map["hooks" := Arr([Obj(marked)])];
    Obj(if spec.matcher != "" then group["matcher" := Str(spec.matcher)] else group)
  }

  /** The groups planned for one event, in order. */
  function GroupsFor(specs: seq<Spec>, event: string): seq<Json> {
    if specs == [] then []
    else GroupsFor(specs[..|specs| - 1], event)
         + if specs[|specs| - 1].event == event then [CommandGroup(specs[|specs| - 1])] else []
  }

  /** `buildJSONCommandHooks` */
  function PlanOf(specs: seq<Spec>): Plan {
    map e | e in (set i | 0 <= i < |specs| :: specs[i].event) :: GroupsFor(specs, e)
  }

  function Commands(specs: seq<Spec>): (r: seq<Json>)
    ensures |r| == |specs|
  {
    seq(|specs|, i requires 0 <= i < |specs| => Obj(map["command" := Str(specs[i].command)]))
  }

  function DesiredConfig(specs: seq<Spec>): Json {
    Obj(map["hooks" := Arr(Commands(specs))])
  }

  /** A tagged report command, as `reportHookCommand` writes it. */
  predicate IsReport(command: string, signs: Signs) {
    signs.tagged(command) && signs.reporter(command).Some?
  }

  /** Some planned report command runs this binary. */
  ghost predicate ReportedBy(specs: seq<Spec>, signs: Signs, binary: string) {
    exists k :: 0 <= k < |specs| && IsReport(specs[k].command, signs) && signs.reporter(specs[k].command) == Some(binary)
  }

  /** Every planned command is a report command, or a hook command of a binary that another one reports with. */
  ghost predicate Reports(specs: seq<Spec>, signs: Signs) {
    forall i :: 0 <= i < |specs| ==>
      || IsReport(specs[i].command, signs)
      || (signs.native(specs[i].command).Some? && ReportedBy(specs, signs, signs.native(specs[i].command).value))
  }

  /** The owner installation works with, and the one removal works with. */
  function InstallOwner(config: Config, specs: seq<Spec>, signs: Signs): Owner {
    OwnerOf(signs, Binaries(Obj(config), signs) + Binaries(DesiredConfig(specs), signs))
  }

  function RemoveOwner(config: Config, signs: Signs): Owner {
    OwnerOf(signs, Binaries(Obj(config), signs))
  }

  lemma {:induction false} GroupIsPlanned(specs: seq<Spec>, event: string, g: Json) returns (k: nat)
    requires g in GroupsFor(specs, event)
    ensures k < |specs| && specs[k].event == event && g == CommandGroup(specs[k])
  {
    var (init, last) := (specs[..|specs| - 1], specs[|specs| - 1]);
    k := |init|;
    if last.event != event || g != CommandGroup(last) {
      k := GroupIsPlanned(init, event, g);
    }
  }

  lemma {:induction false} PlannedEventHasGroups(specs: seq<Spec>, k: nat)
    requires k < |specs|
    ensures CommandGroup(specs[k]) in GroupsFor(specs, specs[k].event)
  {
    if k < |specs| - 1 {
      PlannedEventHasGroups(specs[..|specs| - 1], k);
    }
  }

  lemma GroupHolds(spec: Spec)
    ensures var g := CommandGroup(spec);
            HooksOf(g).Some? && |HooksOf(g).value| == 1 && HooksOf(g).value[0].Obj?
            && Text(HooksOf(g).value[0].fields, "command") == Some(spec.command)
  {
  }

  lemma CommandVouches(command: string, signs: Signs)
    ensures Binaries(Obj(map["command" := Str(command)]), signs)
         == if IsReport(command, signs) then Singleton(signs.reporter(command)) else {}
  {
    var fields := map["command" := Str(command)];
    assert Binaries(fields["command"], signs) == {};
    assert OwnedBinary(fields, signs) == if IsReport(command, signs) then signs.reporter(command) else None;
  }

  /** The plan vouches for exactly the binaries its report commands run. */
  lemma DesiredVouches(specs: seq<Spec>, signs: Signs, binary: string)
    ensures binary in Binaries(DesiredConfig(specs), signs) <==> ReportedBy(specs, signs, binary)
  {
    var (commands, fields) := (Commands(specs), map["hooks" := Arr(Commands(specs))]);
    assert Text(fields, "command") == None;
    assert binary in Binaries(DesiredConfig(specs), signs) <==> binary in Binaries(fields["hooks"], signs);
    if binary in Binaries(Arr(commands), signs) {
      var k :| 0 <= k < |commands| && binary in Binaries(commands[k], signs);
      CommandVouches(specs[k].command, signs);
    }
    if k :| 0 <= k < |specs| && IsReport(specs[k].command, signs) && signs.reporter(specs[k].command) == Some(binary) {
      CommandVouches(specs[k].command, signs);
      assert binary in Binaries(commands[k], signs);
    }
  }

  /** A planned command is ours for whoever knows the binaries of the plan. */
  lemma PlannedIsOurs(specs: seq<Spec>, signs: Signs, binaries: set<string>, k: nat)
    requires Reports(specs, signs) && k < |specs| && Binaries(DesiredConfig(specs), signs) <= binaries
    ensures OwnerOf(signs, binaries)(specs[k].command)
  {
    var command := specs[k].command;
    if !IsReport(command, signs) {
      DesiredVouches(specs, signs, signs.native(command).value);
    }
  }

  /** So planned groups are ours, wherever other binaries come from. */
  lemma PlanIsProper(specs: seq<Spec>, signs: Signs, binaries: set<string>)
    requires Reports(specs, signs) && Binaries(DesiredConfig(specs), signs) <= binaries
    ensures Proper(PlanOf(specs), OwnerOf(signs, binaries))
  {
    var (plan, m) := (PlanOf(specs), OwnerOf(signs, binaries));
    forall e | e in plan ensures plan[e] != [] && AllDesired(plan[e], m) {
      var k :| 0 <= k < |specs| && specs[k].event == e;
      PlannedEventHasGroups(specs, k);
      forall i | 0 <= i < |plan[e]| ensures Desired(plan[e][i], m) {
        var j := GroupIsPlanned(specs, e, plan[e][i]);
        GroupHolds(specs[j]);
        PlannedIsOurs(specs, signs, binaries, j);
      }
    }
  }

  // ---------------------------------------------------------------- on the file

  /** `installJSONCommandHooks` with the owner it derives */
  method InstallHooks(file: HookFile, specs: seq<Spec>, signs: Signs) returns (ok: bool, changed: bool)
    requires Reports(specs, signs)
    modifies file
    ensures var plan, m := PlanOf(specs), InstallOwner(old(file.config), specs, signs);
            && (ok <==> HooksIn(old(file.config)).Some?
                        && forall e :: e in plan ==> Listable(At(HooksIn(old(file.config)).value, e)))
            && (!ok ==> file.config == old(file.config))
            && (ok ==> FileInstalled(old(file.config), plan, m, file.config))
            && (ok ==> (changed <==> !Current(HooksIn(old(file.config)).value, plan, m)))
  {
    var binaries := Collect(Obj(file.config), signs, {});
    binaries := Collect(DesiredConfig(specs), signs, binaries);
    assert binaries == Binaries(Obj(file.config), signs) + Binaries(DesiredConfig(specs), signs);
    PlanIsProper(specs, signs, binaries);
    ok, changed := file.Install(PlanOf(specs), OwnerOf(signs, binaries));
  }

  /** `removeJSONCommandHooks` with the owner it derives */
  method RemoveHooks(file: HookFile, signs: Signs) returns (changed: bool)
    modifies file
    ensures FileRemoved(old(file.config), RemoveOwner(old(file.config), signs), file.config)
    ensures changed <==> FileHolds(old(file.config), RemoveOwner(old(file.config), signs))
    ensures !changed ==> file.config == old(file.config)
  {
    var binaries := Collect(Obj(file.config), signs, {});
    assert binaries == Binaries(Obj(file.config), signs);
    changed := file.Remove(OwnerOf(signs, binaries));
  }

  // ---------------------------------------------------------------- fewer vouchers, fewer commands

  lemma ItemVouches(items: seq<Json>, signs: Signs, item: Json)
    requires item in items
    ensures Binaries(item, signs) <= Binaries(Arr(items), signs)
  {
    var i :| 0 <= i < |items| && items[i] == item;
  }

  /** A list vouches for no more than the others do if each of its items does not. */
  lemma ListVouches(items: seq<Json>, signs: Signs, bound: set<string>)
    requires forall i :: 0 <= i < |items| ==> Binaries(items[i], signs) <= bound
    ensures Binaries(Arr(items), signs) <= bound
  {
  }

  lemma FieldVouches(fields: map<string, Json>, signs: Signs, k: string)
    requires k in fields
    ensures Binaries(fields[k], signs) <= Binaries(Obj(fields), signs)
  {
  }

  lemma ObjectVouches(fields: map<string, Json>, signs: Signs, bound: set<string>)
    requires Singleton(OwnedBinary(fields, signs)) <= bound
    requires forall k :: k in fields ==> Binaries(fields[k], signs) <= bound
    ensures Binaries(Obj(fields), signs) <= bound
  {
  }

  lemma {:induction false} ForeignMembers(hs: seq<Json>, m: Owner, h: Json)
    requires h in Foreign(hs, m)
    ensures h in hs
  {
    var (init, last) := (hs[..|hs| - 1], hs[|hs| - 1]);
    if h in Foreign(init, m) {
      ForeignMembers(init, m, h);
    }
  }

  lemma ForeignVouches(hs: seq<Json>, m: Owner, signs: Signs)
    ensures Binaries(Arr(Foreign(hs, m)), signs) <= Binaries(Arr(hs), signs)
  {
    var fs := Foreign(hs, m);
    forall i | 0 <= i < |fs| ensures Binaries(fs[i], signs) <= Binaries(Arr(hs), signs) {
      ForeignMembers(hs, m, fs[i]);
      ItemVouches(hs, signs, fs[i]);
    }
    ListVouches(fs, signs, Binaries(Arr(hs), signs));
  }

  /** Another value under a key that says nothing about ownership. */
  lemma ReplacedVouches(fields: map<string, Json>, key: string, v: Json, signs: Signs, bound: set<string>)
    requires key != "command" && key != "statusMessage"
    requires Binaries(Obj(fields), signs) <= bound && Binaries(v, signs) <= bound
    ensures Binaries(Obj(fields[key := v]), signs) <= bound
  {
    var next := fields[key := v];
    assert OwnedBinary(next, signs) == OwnedBinary(fields, signs);
    forall k | k in next ensures Binaries(next[k], signs) <= bound {
      if k != key {
        FieldVouches(fields, signs, k);
      }
    }
    ObjectVouches(next, signs, bound);
  }

  lemma CleanGroupVouches(g: Json, m: Owner, signs: Signs, c: Json)
    requires c in CleanGroup(g, m)
    ensures Binaries(c, signs) <= Binaries(g, signs)
  {
    if HasManaged(g, m) {
      var hs := HooksOf(g).value;
      ForeignVouches(hs, m, signs);
      FieldVouches(g.fields, signs, "hooks");
      assert g.fields["hooks"] == Arr(hs);
      ReplacedVouches(g.fields, "hooks", Arr(Foreign(hs, m)), signs, Binaries(g, signs));
    }
  }

  lemma {:induction false} CleanVouches(groups: seq<Json>, m: Owner, signs: Signs, c: Json)
    requires c in Clean(groups, m)
    ensures Binaries(c, signs) <= Binaries(Arr(groups), signs)
    decreases |groups|
  {
    var init, last := SplitLast(groups);
    CleanLast(init, last, m);
    if c in CleanGroup(last, m) {
      CleanGroupVouches(last, m, signs, c);
      ItemVouches(groups, signs, last);
    } else {
      CleanVouches(init, m, signs, c);
      ListWithin(init, groups, signs);
    }
  }

  lemma ListWithin(part: seq<Json>, whole: seq<Json>, signs: Signs)
    requires part <= whole
    ensures Binaries(Arr(part), signs) <= Binaries(Arr(whole), signs)
  {
    forall i | 0 <= i < |part| ensures Binaries(part[i], signs) <= Binaries(Arr(whole), signs) {
      ItemVouches(whole, signs, whole[i]);
    }
    ListVouches(part, signs, Binaries(Arr(whole), signs));
  }

  /** Cleaned groups with planned ones after them. */
  lemma RenewedVouches(groups: seq<Json>, desired: seq<Json>, m: Owner, signs: Signs, bound: set<string>)
    requires Binaries(Arr(groups), signs) <= bound
    requires forall i :: 0 <= i < |desired| ==> Binaries(desired[i], signs) <= bound
    ensures Binaries(Arr(Clean(groups, m) + desired), signs) <= bound
  {
    var all := Clean(groups, m) + desired;
    forall i | 0 <= i < |all| ensures Binaries(all[i], signs) <= bound {
      if i < |Clean(groups, m)| {
        CleanVouches(groups, m, signs, all[i]);
      } else {
        assert all[i] == desired[i - |Clean(groups, m)|];
      }
    }
    ListVouches(all, signs, bound);
  }

  lemma PlannedGroupVouches(specs: seq<Spec>, signs: Signs, k: nat)
    requires k < |specs| && Reports(specs, signs)
    ensures Binaries(CommandGroup(specs[k]), signs) <= Binaries(DesiredConfig(specs), signs)
  {
    var (spec, bound) := (specs[k], Binaries(DesiredConfig(specs), signs));
    var binary := if IsReport(spec.command, signs) then signs.reporter(spec.command).value else signs.native(spec.command).value;
    DesiredVouches(specs, signs, binary);
    var g := CommandGroup(spec).fields;
    var hook := HooksOf(CommandGroup(spec)).value[0];
    GroupHolds(spec);
    PlannedHookVouches(spec, signs, binary);
    ListVouches([hook], signs, bound);
    forall key | key in g ensures Binaries(g[key], signs) <= bound {
    }
    assert Text(g, "command") == None;
    ObjectVouches(g, signs, bound);
  }

  lemma PlannedHookVouches(spec: Spec, signs: Signs, binary: string)
    requires Some(binary) == if IsReport(spec.command, signs) then signs.reporter(spec.command) else signs.native(spec.command)
    ensures Binaries(HooksOf(CommandGroup(spec)).value[0], signs) <= {binary}
    ensures IsReport(spec.command, signs) ==> binary in Binaries(HooksOf(CommandGroup(spec)).value[0], signs)
  {
    GroupHolds(spec);
    var fields := HooksOf(CommandGroup(spec)).value[0].fields;
    assert Singleton(OwnedBinary(fields, signs)) <= {binary};
    forall k | k in fields ensures Binaries(fields[k], signs) <= {binary} {
    }
    ObjectVouches(fields, signs, {binary});
  }

  /** A group of a report command vouches for its binary. */
  lemma ReportGroupVouches(spec: Spec, signs: Signs, binary: string)
    requires IsReport(spec.command, signs) && signs.reporter(spec.command) == Some(binary)
    ensures binary in Binaries(CommandGroup(spec), signs)
  {
    var (g, hook) := (CommandGroup(spec).fields, HooksOf(CommandGroup(spec)).value[0]);
    GroupHolds(spec);
    PlannedHookVouches(spec, signs, binary);
    ItemVouches([hook], signs, hook);
    FieldVouches(g, signs, "hooks");
    assert g["hooks"] == Arr([hook]);
  }

  /** What installing makes of one event vouches for no more than the event did and the plan does. */
  lemma EventVouches(v: Option<Json>, desired: seq<Json>, m: Owner, signs: Signs, bound: set<string>)
    requires v.Some? ==> Binaries(v.value, signs) <= bound
    requires forall i :: 0 <= i < |desired| ==> Binaries(desired[i], signs) <= bound
    ensures var with := WithOurs(v, desired, m); with.Some? ==> Binaries(with.value, signs) <= bound
    ensures var without := WithoutOurs(v, m); without.Some? ==> Binaries(without.value, signs) <= bound
  {
    var groups := ListOf(v);
    assert Binaries(Arr([]), signs) == {};
    assert Binaries(Arr(groups), signs) <= bound;
    RenewedVouches(groups, desired, m, signs, bound);
    RenewedVouches(groups, [], m, signs, bound);
    assert Clean(groups, m) + [] == Clean(groups, m);
  }

  lemma HooksVouch(before: Hooks, specs: seq<Spec>, signs: Signs, m: Owner, after: Hooks)
    requires Reports(specs, signs) && Installed(before, PlanOf(specs), m, after)
    ensures Binaries(Obj(after), signs) <= Binaries(Obj(before), signs) + Binaries(DesiredConfig(specs), signs)
  {
    var bound := Binaries(Obj(before), signs) + Binaries(DesiredConfig(specs), signs);
    forall e | e in after ensures Binaries(after[e], signs) <= bound {
      var desired := Wanted(e, PlanOf(specs));
      forall i | 0 <= i < |desired| ensures Binaries(desired[i], signs) <= bound {
        var k := GroupIsPlanned(specs, e, desired[i]);
        PlannedGroupVouches(specs, signs, k);
      }
      if e in before {
        FieldVouches(before, signs, e);
      }
      assert At(after, e) == Some(after[e]);
      EventVouches(At(before, e), desired, m, signs, bound);
    }
    TextsStay(before, PlanOf(specs), m, after, "command");
    TextsStay(before, PlanOf(specs), m, after, "statusMessage");
    assert Singleton(OwnedBinary(after, signs)) <= Singleton(OwnedBinary(before, signs));
    ObjectVouches(after, signs, bound);
  }

  /** Installing never writes a text in the place of an event. */
  lemma TextsStay(before: Hooks, plan: Plan, m: Owner, after: Hooks, key: string)
    requires Installed(before, plan, m, after)
    ensures Text(after, key).Some? ==> Text(before, key) == Text(after, key)
  {
    assert At(after, key) == if key in plan then WithOurs(At(before, key), plan[key], m) else WithoutOurs(At(before, key), m);
  }

  lemma HooksInVouch(a: Config, signs: Signs)
    requires HooksIn(a).Some?
    ensures Binaries(Obj(HooksIn(a).value), signs) <= Binaries(Obj(a), signs)
  {
    if "hooks" in a && a["hooks"].Obj? {
      FieldVouches(a, signs, "hooks");
    } else {
      assert Binaries(Obj(map[]), signs) == {};
    }
  }

  /** After installing, the configuration vouches for nothing new. */
  lemma InstalledVouches(a: Config, specs: seq<Spec>, signs: Signs, m: Owner, b: Config)
    requires Reports(specs, signs) && FileInstalled(a, PlanOf(specs), m, b)
    ensures Binaries(Obj(b), signs) <= Binaries(Obj(a), signs) + Binaries(DesiredConfig(specs), signs)
  {
    var bound := Binaries(Obj(a), signs) + Binaries(DesiredConfig(specs), signs);
    var before := HooksIn(a).value;
    var after :| Installed(before, PlanOf(specs), m, after)
                 && b == if Current(before, PlanOf(specs), m) then a else a["hooks" := Obj(after)];
    HooksVouch(before, specs, signs, m, after);
    HooksInVouch(a, signs);
    ReplacedVouches(a, "hooks", Obj(after), signs, bound);
  }

  // ---------------------------------------------------------------- the owners agree where it matters

  /** Both owners give the same answer for every hook of these groups. */
  ghost predicate Agree(groups: seq<Json>, m: Owner, n: Owner) {
    forall g, h :: g in groups && HooksOf(g).Some? && h in HooksOf(g).value ==> (IsManaged(h, m) <==> IsManaged(h, n))
  }

  lemma {:induction false} AgreeOnHooks(hs: seq<Json>, m: Owner, n: Owner)
    requires forall h :: h in hs ==> (IsManaged(h, m) <==> IsManaged(h, n))
    ensures Count(hs, m) == Count(hs, n) && Foreign(hs, m) == Foreign(hs, n)
  {
    if hs != [] {
      AgreeOnHooks(hs[..|hs| - 1], m, n);
    }
  }

  lemma AgreeOnGroup(g: Json, m: Owner, n: Owner)
    requires HooksOf(g).Some? ==> forall h :: h in HooksOf(g).value ==> (IsManaged(h, m) <==> IsManaged(h, n))
    ensures HasManaged(g, m) == HasManaged(g, n) && CleanGroup(g, m) == CleanGroup(g, n)
  {
    if HooksOf(g).Some? {
      AgreeOnHooks(HooksOf(g).value, m, n);
    }
  }

  lemma {:induction false} AgreeOnGroups(groups: seq<Json>, m: Owner, n: Owner)
    requires Agree(groups, m, n)
    ensures Managed(groups, m) == Managed(groups, n) && Clean(groups, m) == Clean(groups, n)
    decreases |groups|
  {
    if groups != [] {
      var init, last := SplitLast(groups);
      assert last in groups && forall g :: g in init ==> g in groups;
      AgreeOnGroups(init, m, n);
      AgreeOnGroup(last, m, n);
      CleanLast(init, last, m);
      CleanLast(init, last, n);
    }
  }

  lemma {:induction false} ManagedMembers(groups: seq<Json>, m: Owner, g: Json)
    requires g in groups && HasManaged(g, m)
    ensures g in Managed(groups, m)
    decreases |groups|
  {
    var init, last := SplitLast(groups);
    CleanLast(init, last, m);
    if g != last {
      ManagedMembers(init, m, g);
    }
  }

  lemma {:induction false} ManagedCounts(hs: seq<Json>, m: Owner, h: Json)
    requires h in hs && IsManaged(h, m)
    ensures Count(hs, m) > 0
  {
    var (init, last) := (hs[..|hs| - 1], hs[|hs| - 1]);
    if h != last {
      ManagedCounts(init, m, h);
    }
  }

  /** An owner that knows fewer binaries, but those of the plan, agrees in groups whose managed ones are planned. */
  lemma OwnersAgree(groups: seq<Json>, specs: seq<Spec>, event: string, signs: Signs, few: set<string>, many: set<string>)
    requires Reports(specs, signs) && Binaries(DesiredConfig(specs), signs) <= few <= many
    requires Managed(groups, OwnerOf(signs, many)) == GroupsFor(specs, event)
    ensures Agree(groups, OwnerOf(signs, many), OwnerOf(signs, few))
  {
    var (m, n) := (OwnerOf(signs, many), OwnerOf(signs, few));
    forall g, h | g in groups && HooksOf(g).Some? && h in HooksOf(g).value
      ensures IsManaged(h, m) <==> IsManaged(h, n)
    {
      if IsManaged(h, m) {
        ManagedCounts(HooksOf(g).value, m, h);
        ManagedMembers(groups, m, g);
        var k := GroupIsPlanned(specs, event, g);
        GroupHolds(specs[k]);
        PlannedIsOurs(specs, signs, few, k);
        assert h == HooksOf(g).value[0];
      }
    }
  }

  lemma {:induction false} NoGroupsFor(specs: seq<Spec>, event: string)
    requires forall i :: 0 <= i < |specs| ==> specs[i].event != event
    ensures GroupsFor(specs, event) == []
  {
    if specs != [] {
      NoGroupsFor(specs[..|specs| - 1], event);
    }
  }

  lemma WantedIsGroups(specs: seq<Spec>, event: string)
    ensures Wanted(event, PlanOf(specs)) == GroupsFor(specs, event)
  {
    if event !in PlanOf(specs) {
      NoGroupsFor(specs, event);
    }
  }

  /** Where installing has been, the owners agree on every event. */
  lemma EventsAgree(hooks: Hooks, specs: seq<Spec>, signs: Signs, few: set<string>, many: set<string>, e: string)
    requires Reports(specs, signs) && Binaries(DesiredConfig(specs), signs) <= few <= many
    requires Current(hooks, PlanOf(specs), OwnerOf(signs, many))
    ensures !Off(At(hooks, e), Wanted(e, PlanOf(specs)), OwnerOf(signs, few))
    ensures WithoutOurs(At(hooks, e), OwnerOf(signs, few)) == WithoutOurs(At(hooks, e), OwnerOf(signs, many))
  {
    var groups := ListOf(At(hooks, e));
    assert !Off(At(hooks, e), Wanted(e, PlanOf(specs)), OwnerOf(signs, many));
    WantedIsGroups(specs, e);
    OwnersAgree(groups, specs, e, signs, few, many);
    AgreeOnGroups(groups, OwnerOf(signs, many), OwnerOf(signs, few));
  }

  // ---------------------------------------------------------------- the laws, each command judged anew

  /** The hooks of an installed file, whichever way it came about. */
  lemma InstalledFile(a: Config, plan: Plan, m: Owner, b: Config) returns (before: Hooks, after: Hooks)
    requires Proper(plan, m) && FileInstalled(a, plan, m, b)
    ensures HooksIn(a) == Some(before) && HooksIn(b) == Some(after)
    ensures Installed(before, plan, m, after) && Current(after, plan, m)
    ensures b == if Current(before, plan, m) then a else a["hooks" := Obj(after)]
  {
    before := HooksIn(a).value;
    after :| Installed(before, plan, m, after) && b == if Current(before, plan, m) then a else a["hooks" := Obj(after)];
    assert Current(after, plan, m) by {
      InstallIsRight(before, plan, m, after);
    }
    if Current(before, plan, m) {
      InstalledIsSettled(before, plan, m, after);
    }
  }

  lemma {:induction false} ManagedWithin(groups: seq<Json>, m: Owner, g: Json)
    requires g in Managed(groups, m)
    ensures g in groups
    decreases |groups|
  {
    var init, last := SplitLast(groups);
    CleanLast(init, last, m);
    if g in Managed(init, m) {
      ManagedWithin(init, m, g);
    }
  }

  /** An installed file vouches for the binaries of the plan. */
  lemma InstalledVouchesForPlan(b: Config, specs: seq<Spec>, signs: Signs, m: Owner)
    requires HooksIn(b).Some? && Current(HooksIn(b).value, PlanOf(specs), m)
    ensures Binaries(DesiredConfig(specs), signs) <= Binaries(Obj(b), signs)
  {
    var hooks := HooksIn(b).value;
    forall binary | binary in Binaries(DesiredConfig(specs), signs) ensures binary in Binaries(Obj(b), signs) {
      DesiredVouches(specs, signs, binary);
      var k :| 0 <= k < |specs| && IsReport(specs[k].command, signs) && signs.reporter(specs[k].command) == Some(binary);
      var (e, g) := (specs[k].event, CommandGroup(specs[k]));
      ReportGroupVouches(specs[k], signs, binary);
      PlannedEventHasGroups(specs, k);
      WantedIsGroups(specs, e);
      assert !Off(At(hooks, e), Wanted(e, PlanOf(specs)), m);
      ManagedWithin(ListOf(At(hooks, e)), m, g);
      ItemVouches(ListOf(At(hooks, e)), signs, g);
      FieldVouches(hooks, signs, e);
      HooksInVouch(b, signs);
    }
  }

  lemma InstalledHooks(a: Config, specs: seq<Spec>, signs: Signs, b: Config) returns (before: Hooks, after: Hooks)
    requires Reports(specs, signs) && FileInstalled(a, PlanOf(specs), InstallOwner(a, specs, signs), b)
    ensures HooksIn(a) == Some(before) && HooksIn(b) == Some(after)
    ensures Installed(before, PlanOf(specs), InstallOwner(a, specs, signs), after)
    ensures Current(after, PlanOf(specs), InstallOwner(a, specs, signs))
  {
    PlanIsProper(specs, signs, Binaries(Obj(a), signs) + Binaries(DesiredConfig(specs), signs));
    before, after := InstalledFile(a, PlanOf(specs), InstallOwner(a, specs, signs), b);
  }

  /** Installing a second time, with ownership judged by what the first time left, finds nothing to do. */
  lemma InstallTwice(a: Config, specs: seq<Spec>, signs: Signs, b: Config)
    requires Reports(specs, signs) && FileInstalled(a, PlanOf(specs), InstallOwner(a, specs, signs), b)
    ensures HooksIn(b).Some? && Current(HooksIn(b).value, PlanOf(specs), InstallOwner(b, specs, signs))
  {
    var many := Binaries(Obj(a), signs) + Binaries(DesiredConfig(specs), signs);
    var before, after := InstalledHooks(a, specs, signs, b);
    InstalledVouches(a, specs, signs, InstallOwner(a, specs, signs), b);
    forall e ensures !Off(At(after, e), Wanted(e, PlanOf(specs)), InstallOwner(b, specs, signs)) {
      EventsAgree(after, specs, signs, Binaries(Obj(b), signs) + Binaries(DesiredConfig(specs), signs), many, e);
    }
  }

  /** Removal, which judges ownership by the installed file, takes out what installation would have. */
  lemma RemovesTheSame(a: Config, specs: seq<Spec>, signs: Signs, b: Config, c: Config)
    requires Reports(specs, signs) && FileInstalled(a, PlanOf(specs), InstallOwner(a, specs, signs), b)
    requires FileRemoved(b, RemoveOwner(b, signs), c)
    ensures FileRemoved(b, InstallOwner(a, specs, signs), c)
  {
    var many := Binaries(Obj(a), signs) + Binaries(DesiredConfig(specs), signs);
    var before, after := InstalledHooks(a, specs, signs, b);
    InstalledVouches(a, specs, signs, InstallOwner(a, specs, signs), b);
    InstalledVouchesForPlan(b, specs, signs, InstallOwner(a, specs, signs));
    if "hooks" in b && b["hooks"].Obj? {
      var end :| Removed(after, RemoveOwner(b, signs), end)
                 && c == if end == after then b else if end == map[] then b - {"hooks"} else b["hooks" := Obj(end)];
      forall e ensures At(end, e) == WithoutOurs(At(after, e), InstallOwner(a, specs, signs)) {
        EventsAgree(after, specs, signs, Binaries(Obj(b), signs), many, e);
      }
      assert Removed(after, InstallOwner(a, specs, signs), end);
    }
  }

  /** The hooks of a file that still has some after a removal. */
  lemma RemovedFile(a: Config, m: Owner, b: Config) returns (before: Hooks, end: Hooks)
    requires FileRemoved(a, m, b) && "hooks" in b && b["hooks"].Obj?
    ensures "hooks" in a && a["hooks"] == Obj(before) && b["hooks"] == Obj(end)
    ensures Removed(before, m, end) && b == a["hooks" := Obj(end)]
  {
    before := a["hooks"].fields;
    end :| Removed(before, m, end)
           && b == if end == before then a else if end == map[] then a - {"hooks"} else a["hooks" := Obj(end)];
  }

  lemma NothingPlannedVouches(signs: Signs)
    ensures Binaries(DesiredConfig([]), signs) == {}
  {
    forall binary ensures binary !in Binaries(DesiredConfig([]), signs) {
      DesiredVouches([], signs, binary);
    }
  }

  lemma NothingLeft(before: Hooks, end: Hooks, signs: Signs, few: set<string>, many: set<string>, e: string)
    requires Removed(before, OwnerOf(signs, many), end) && few <= many
    ensures !Off(At(end, e), [], OwnerOf(signs, few))
  {
    forall x ensures !Off(At(end, x), Wanted(x, PlanOf([])), OwnerOf(signs, many)) {
      WithoutOursIsRight(At(before, x), OwnerOf(signs, many));
    }
    NothingPlannedVouches(signs);
    EventsAgree(end, [], signs, few, many, e);
  }

  lemma RemovedVouches(a: Config, before: Hooks, m: Owner, end: Hooks, signs: Signs)
    requires "hooks" in a && a["hooks"] == Obj(before) && Removed(before, m, end)
    ensures Binaries(Obj(a["hooks" := Obj(end)]), signs) <= Binaries(Obj(a), signs)
  {
    assert Installed(before, PlanOf([]), m, end);
    HooksVouch(before, [], signs, m, end);
    NothingPlannedVouches(signs);
    FieldVouches(a, signs, "hooks");
    ReplacedVouches(a, "hooks", Obj(end), signs, Binaries(Obj(a), signs));
  }

  /** After a removal, the file judged anew holds nothing of ours: removing again finds nothing. */
  lemma RemoveTwice(a: Config, signs: Signs, b: Config)
    requires FileRemoved(a, RemoveOwner(a, signs), b)
    ensures !FileHolds(b, RemoveOwner(b, signs))
  {
    if "hooks" in b && b["hooks"].Obj? {
      var before, end := RemovedFile(a, RemoveOwner(a, signs), b);
      RemovedVouches(a, before, RemoveOwner(a, signs), end, signs);
      forall e ensures !Off(At(end, e), [], RemoveOwner(b, signs)) {
        NothingLeft(before, end, signs, Binaries(Obj(b), signs), Binaries(Obj(a), signs), e);
      }
    }
  }

  /**
   * Installing and then removing, each with the ownership its own reading of the file
   * gives: the very same configuration comes back exactly if it had no hooks at all, or a
   * hooks object with something in it where nothing was ours and no planned event was an
   * empty list or null.
   */
  lemma RestoredWithOwnJudgement(a: Config, specs: seq<Spec>, signs: Signs, b: Config, c: Config)
    requires Reports(specs, signs) && specs != []
    requires FileInstalled(a, PlanOf(specs), InstallOwner(a, specs, signs), b)
    requires FileRemoved(b, RemoveOwner(b, signs), c)
    requires forall e :: e in PlanOf(specs) ==> Listable(At(HooksIn(a).value, e))
    ensures c == a <==>
            || "hooks" !in a
            || (a["hooks"].Obj? && a["hooks"].fields != map[]
                && AllComeBack(a["hooks"].fields, PlanOf(specs), InstallOwner(a, specs, signs)))
  {
    PlanIsProper(specs, signs, Binaries(Obj(a), signs) + Binaries(DesiredConfig(specs), signs));
    RemovesTheSame(a, specs, signs, b, c);
    assert specs[0].event in PlanOf(specs);
    FileRestored(a, PlanOf(specs), InstallOwner(a, specs, signs), b, c);
  }
}
