/**
 * Installing our command hooks into a configuration file and taking them out again.
 * The configuration's `hooks` object is edited in place, event by event.
 */
module ManagedHooks {
  import opened Options
  import opened HookGroups
  import Sets

  type Hooks = map<string, Json>

  /** The groups planned for each event; an event is only in the plan with at least one group. */
  type Plan = map<string, seq<Json>>

  ghost predicate Proper(plan: Plan, m: Owner) {
    forall e :: e in plan ==> plan[e] != [] && AllDesired(plan[e], m)
  }

  function At(hooks: Hooks, e: string): Option<Json> {
    if e in hooks then Some(hooks[e]) else None
  }

  /** `hookEventList`: a missing or null list is empty, and anything else must be an array. */
  predicate Listable(v: Option<Json>) {
    v.None? || v.value.Null? || v.value.Arr?
  }

  function ListOf(v: Option<Json>): seq<Json> {
    if v.Some? && v.value.Arr? then v.value.items else []
  }

  // ---------------------------------------------------------------- one event

  /** What an event holds of ours is not what is wanted. */
  predicate Off(v: Option<Json>, wanted: seq<Json>, m: Owner) {
    Managed(ListOf(v), m) != wanted
  }

  /** An event of the plan after installing. */
  function WithOurs(v: Option<Json>, desired: seq<Json>, m: Owner): Option<Json> {
    if Off(v, desired, m) then Some(Arr(Upserted(ListOf(v), desired, m))) else v
  }

  /** An event with our hooks taken out; a list that held nothing else goes altogether. */
  function WithoutOurs(v: Option<Json>, m: Owner): Option<Json> {
    if !Off(v, [], m) then v
    else if Clean(ListOf(v), m) == [] then None
    else Some(Arr(Clean(ListOf(v), m)))
  }

  /** `b` is `a` but for one event. */
  ghost predicate Changes(a: Hooks, b: Hooks, event: string, v: Option<Json>) {
    At(b, event) == v && forall e :: e != event ==> At(b, e) == At(a, e)
  }

  /** `upsertManagedCommandHookGroups` */
  method Upsert(hooks: Hooks, event: string, desired: seq<Json>, m: Owner) returns (r: Option<Hooks>, changed: bool)
    requires AllDesired(desired, m)
    ensures r.Some? <==> Listable(At(hooks, event))
    ensures r.Some? ==> Changes(hooks, r.value, event, WithOurs(At(hooks, event), desired, m))
    ensures r.Some? ==> (changed <==> Off(At(hooks, event), desired, m))
    ensures r.Some? && !changed ==> r.value == hooks
  {
    if !Listable(At(hooks, event)) {
      return None, false;
    }
    var groups := ListOf(At(hooks, event));
    var current := GroupsCurrent(groups, desired, m);
    if current {
      return Some(hooks), false;
    }
    var cleaned, removed := RemoveManagedGroups(groups, m);
    return Some(hooks[event := Arr(cleaned + desired)]), true;
  }

  /** `removeManagedJSONHookEvent` */
  method RemoveEvent(hooks: Hooks, event: string, m: Owner) returns (r: Hooks, changed: bool)
    ensures Changes(hooks, r, event, WithoutOurs(At(hooks, event), m))
    ensures changed <==> Off(At(hooks, event), [], m)
    ensures !changed ==> r == hooks
  {
    if event !in hooks || !hooks[event].Arr? {
      return hooks, false;
    }
    var cleaned, removed := RemoveManagedGroups(hooks[event].items, m);
    if !removed {
      return hooks, false;
    }
    return if cleaned == [] then hooks - {event} else hooks[event := Arr(cleaned)], true;
  }

  // ---------------------------------------------------------------- all events

  /** What installing makes of each event: the planned ones get ours, all others lose ours. */
  function Planned(v: Option<Json>, e: string, plan: Plan, m: Owner): Option<Json> {
    if e in plan then WithOurs(v, plan[e], m) else v
  }

  function Dropped(v: Option<Json>, e: string, kept: set<string>, m: Owner): Option<Json> {
    if e in kept then v else WithoutOurs(v, m)
  }

  function Wanted(e: string, plan: Plan): seq<Json> {
    if e in plan then plan[e] else []
  }

  ghost predicate Installed(before: Hooks, plan: Plan, m: Owner, after: Hooks) {
    forall e :: At(after, e) == if e in plan then WithOurs(At(before, e), plan[e], m) else WithoutOurs(At(before, e), m)
  }

  ghost predicate Removed(before: Hooks, m: Owner, after: Hooks) {
    forall e :: At(after, e) == WithoutOurs(At(before, e), m)
  }

  /** Nothing of ours is anywhere but where the plan has it. */
  ghost predicate Current(hooks: Hooks, plan: Plan, m: Owner) {
    forall e :: !Off(At(hooks, e), Wanted(e, plan), m)
  }

  method ApplyPlanned(before: Hooks, plan: Plan, m: Owner) returns (r: Option<Hooks>, changed: bool)
    requires Proper(plan, m)
    ensures r.Some? <==> forall e :: e in plan ==> Listable(At(before, e))
    ensures r.Some? ==> forall e :: At(r.value, e) == Planned(At(before, e), e, plan, m)
    ensures r.Some? ==> (changed <==> exists e :: e in plan && Off(At(before, e), plan[e], m))
    ensures r.Some? && !changed ==> r.value == before
  {
    var hooks := before;
    changed := false;
    var rest := plan.Keys;
    while rest != {}
      invariant rest <= plan.Keys
      invariant forall e :: e in plan && e !in rest ==> Listable(At(before, e))
      invariant forall e :: At(hooks, e) == if e in rest then At(before, e) else Planned(At(before, e), e, plan, m)
      invariant changed <==> exists e :: e in plan && e !in rest && Off(At(before, e), plan[e], m)
      invariant !changed ==> hooks == before
      decreases |rest|
    {
      ghost var member := Sets.SomeMember(rest);
      var event :| event in rest;
      assert At(hooks, event) == At(before, event);
      var updated, differs := Upsert(hooks, event, plan[event], m);
      if updated.None? {
        return None, false;
      }
      hooks := updated.value;
      changed := changed || differs;
      rest := rest - {event};
    }
    return Some(hooks), changed;
  }

  /** All events but `rest` have been gone through. */
  ghost predicate DroppedBut(before: Hooks, hooks: Hooks, kept: set<string>, rest: set<string>, m: Owner) {
    forall e :: At(hooks, e) == if e in rest then At(before, e) else Dropped(At(before, e), e, kept, m)
  }

  ghost predicate SomethingDropped(before: Hooks, kept: set<string>, rest: set<string>, m: Owner) {
    exists e :: e !in kept && e !in rest && Off(At(before, e), [], m)
  }

  lemma OneMoreDropped(before: Hooks, hooks: Hooks, kept: set<string>, rest: set<string>, m: Owner, event: string, next: Hooks)
    requires DroppedBut(before, hooks, kept, rest, m) && event in rest && event !in kept
    requires Changes(hooks, next, event, WithoutOurs(At(before, event), m))
    ensures DroppedBut(before, next, kept, rest - {event}, m)
    ensures SomethingDropped(before, kept, rest - {event}, m) <==>
            SomethingDropped(before, kept, rest, m) || Off(At(before, event), [], m)
  {
    if SomethingDropped(before, kept, rest, m) {
      var e :| e !in kept && e !in rest && Off(At(before, e), [], m);
      assert e !in rest - {event};
    }
  }

  lemma NothingDropped(before: Hooks, kept: set<string>, m: Owner)
    ensures DroppedBut(before, before, kept, before.Keys - kept, m)
    ensures !SomethingDropped(before, kept, before.Keys - kept, m)
  {
  }

  /** The loops over all events: `removeManagedCommandHookEvents`, or with some events to be left alone. */
  method DropOthers(before: Hooks, kept: set<string>, m: Owner) returns (hooks: Hooks, changed: bool)
    ensures forall e :: At(hooks, e) == Dropped(At(before, e), e, kept, m)
    ensures changed <==> exists e :: e !in kept && Off(At(before, e), [], m)
    ensures !changed ==> hooks == before
  {
    NothingDropped(before, kept, m);
    hooks, changed := before, false;
    var rest := before.Keys - kept;
    while rest != {}
      invariant rest <= before.Keys - kept
      invariant DroppedBut(before, hooks, kept, rest, m)
      invariant changed <==> SomethingDropped(before, kept, rest, m)
      invariant !changed ==> hooks == before
      decreases |rest|
    {
      ghost var member := Sets.SomeMember(rest);
      var event :| event in rest;
      var next, differs := RemoveEvent(hooks, event, m);
      assert At(hooks, event) == At(before, event);
      OneMoreDropped(before, hooks, kept, rest, m, event, next);
      hooks := next;
      changed := changed || differs;
      rest := rest - {event};
    }
  }

  /** The nested form of `applyJSONCommandHooks`, on the hooks object. */
  method Apply(before: Hooks, plan: Plan, m: Owner) returns (r: Option<Hooks>, changed: bool)
    requires Proper(plan, m)
    ensures r.Some? <==> forall e :: e in plan ==> Listable(At(before, e))
    ensures r.Some? ==> Installed(before, plan, m, r.value)
    ensures r.Some? && !changed ==> r.value == before
    ensures r.Some? ==> (changed <==> !Current(before, plan, m))
  {
    var planned;
    planned, changed := ApplyPlanned(before, plan, m);
    if planned.None? {
      return None, false;
    }
    var hooks, dropped := DropOthers(planned.value, plan.Keys, m);
    return Some(hooks), changed || dropped;
  }

  // ---------------------------------------------------------------- laws of one event

  /** What others keep in an event. */
  function Theirs(v: Option<Json>, m: Owner): seq<Json> {
    Clean(ListOf(v), m)
  }

  /** The same hook by hook, each with the group it stands in. */
  function OthersAt(v: Option<Json>, m: Owner): seq<Piece> {
    Others(ListOf(v), m)
  }

  lemma WithOursIsRight(v: Option<Json>, desired: seq<Json>, m: Owner)
    requires AllDesired(desired, m)
    ensures var after := WithOurs(v, desired, m);
            && !Off(after, desired, m) && Theirs(after, m) == Theirs(v, m) && OthersAt(after, m) == OthersAt(v, m)
            && WithOurs(after, desired, m) == after
  {
    UpsertedIsRight(ListOf(v), desired, m);
  }

  lemma WithoutOursIsRight(v: Option<Json>, m: Owner)
    ensures var after := WithoutOurs(v, m);
            && !Off(after, [], m) && Theirs(after, m) == Theirs(v, m) == ListOf(after) && OthersAt(after, m) == OthersAt(v, m)
            && WithoutOurs(after, m) == after
            && (after == v <==> !Off(v, [], m))
  {
    CleanIsClean(ListOf(v), m);
    CleanKeepsOthers(ListOf(v), m);
  }

  /** Taking out what was put in: the event is as before exactly if it held nothing of ours and was not an empty list or null. */
  lemma OutAfterIn(v: Option<Json>, desired: seq<Json>, m: Owner)
    requires Listable(v) && desired != [] && AllDesired(desired, m)
    ensures var after := WithoutOurs(WithOurs(v, desired, m), m);
            && ListOf(after) == Theirs(v, m) && OthersAt(after, m) == OthersAt(v, m)
            && (after == v <==> !Off(v, [], m) && (v.None? || ListOf(v) != []))
  {
    WithOursIsRight(v, desired, m);
    WithoutOursIsRight(WithOurs(v, desired, m), m);
    CleanIsClean(ListOf(v), m);
  }

  // ---------------------------------------------------------------- laws of the hooks object

  /**
   * After installing, our groups are exactly the planned ones, event by event and in
   * order, and nowhere else; what others have is untouched; installing again changes nothing.
   */
  lemma InstallIsRight(before: Hooks, plan: Plan, m: Owner, after: Hooks)
    requires Proper(plan, m) && Installed(before, plan, m, after)
    ensures Current(after, plan, m)
    ensures forall e :: Theirs(At(after, e), m) == Theirs(At(before, e), m) && OthersAt(At(after, e), m) == OthersAt(At(before, e), m)
    ensures Installed(after, plan, m, after)
  {
    forall e
      ensures !Off(At(after, e), Wanted(e, plan), m)
      ensures Theirs(At(after, e), m) == Theirs(At(before, e), m) && OthersAt(At(after, e), m) == OthersAt(At(before, e), m)
      ensures At(after, e) == if e in plan then WithOurs(At(after, e), plan[e], m) else WithoutOurs(At(after, e), m)
    {
      if e in plan {
        WithOursIsRight(At(before, e), plan[e], m);
      } else {
        WithoutOursIsRight(At(before, e), m);
      }
    }
  }

  /** The event comes back as it was. */
  ghost predicate ComesBack(before: Hooks, plan: Plan, m: Owner, e: string) {
    !Off(At(before, e), [], m) && (e in plan ==> e !in before || ListOf(At(before, e)) != [])
  }

  ghost predicate AllComeBack(before: Hooks, plan: Plan, m: Owner) {
    forall e :: ComesBack(before, plan, m, e)
  }

  /**
   * Removal after installation leaves others just what they had before. The object as a
   * whole is restored exactly if nothing of ours was there and no planned event was an
   * empty list or null.
   */
  lemma RemoveAfterInstall(before: Hooks, plan: Plan, m: Owner, after: Hooks, end: Hooks)
    requires Proper(plan, m) && (forall e :: e in plan ==> Listable(At(before, e)))
    requires Installed(before, plan, m, after) && Removed(after, m, end)
    ensures forall e :: ListOf(At(end, e)) == Theirs(At(before, e), m) && OthersAt(At(end, e), m) == OthersAt(At(before, e), m)
    ensures end == before <==> AllComeBack(before, plan, m)
  {
    forall e
      ensures ListOf(At(end, e)) == Theirs(At(before, e), m) && OthersAt(At(end, e), m) == OthersAt(At(before, e), m)
      ensures At(end, e) == At(before, e) <==> ComesBack(before, plan, m, e)
    {
      if e in plan {
        OutAfterIn(At(before, e), plan[e], m);
      } else {
        WithoutOursIsRight(At(before, e), m);
      }
    }
    SameAtEvery(before, end);
  }

  lemma SameAtEvery(a: Hooks, b: Hooks)
    ensures a == b <==> forall e :: At(a, e) == At(b, e)
  {
    if forall e :: At(a, e) == At(b, e) {
      forall e ensures (e in a <==> e in b) && (e in a ==> a[e] == b[e]) {
        assert At(a, e) == At(b, e);
      }
    }
  }

  // ---------------------------------------------------------------- the file

  type Config = map<string, Json>

  /** `hooksObject`: a missing or null value counts as an empty object, anything else must be one. */
  function HooksIn(config: Config): Option<Hooks> {
    if "hooks" !in config || config["hooks"].Null? then Some(map[])
    else if config["hooks"].Obj? then Some(config["hooks"].fields)
    else None
  }

  /** The configuration file; it is written only when something has changed. */
  class HookFile {
    var config: Config

    constructor (config: Config)
      ensures this.config == config
    {
      this.config := config;
    }

    /** `applyJSONCommandHooks` on the file */
    method Install(plan: Plan, m: Owner) returns (ok: bool, changed: bool)
      requires Proper(plan, m)
      modifies this
      ensures ok <==> HooksIn(old(config)).Some?
                      && forall e :: e in plan ==> Listable(At(HooksIn(old(config)).value, e))
      ensures !ok ==> config == old(config)
      ensures ok ==> (changed <==> !Current(HooksIn(old(config)).value, plan, m))
      ensures ok ==> FileInstalled(old(config), plan, m, config)
    {
      var hooks := HooksIn(config);
      if hooks.None? {
        return false, false;
      }
      var applied;
      applied, changed := Apply(hooks.value, plan, m);
      if applied.None? {
        return false, false;
      }
      if changed {
        config := config["hooks" := Obj(applied.value)];
      }
      ok := true;
    }

    /** `removeWrappedCommandHooks` on the file */
    method Remove(m: Owner) returns (changed: bool)
      modifies this
      ensures FileRemoved(old(config), m, config)
      ensures changed <==> FileHolds(old(config), m)
      ensures !changed ==> config == old(config)
    {
      if "hooks" !in config || !config["hooks"].Obj? {
        return false;
      }
      var hooks;
      hooks, changed := DropOthers(config["hooks"].fields, {}, m);
      assert Removed(config["hooks"].fields, m, hooks);
      if changed {
        config := if hooks == map[] then config - {"hooks"} else config["hooks" := Obj(hooks)];
      }
    }
  }

  /** Some event of the file holds a hook of ours. */
  ghost predicate FileHolds(config: Config, m: Owner) {
    "hooks" in config && config["hooks"].Obj? && exists e :: Off(At(config["hooks"].fields, e), [], m)
  }

  ghost predicate FileInstalled(a: Config, plan: Plan, m: Owner, b: Config) {
    HooksIn(a).Some? && exists hooks ::
      && Installed(HooksIn(a).value, plan, m, hooks)
      && b == if Current(HooksIn(a).value, plan, m) then a else a["hooks" := Obj(hooks)]
  }

  /** A hooks object emptied by the removal is deleted; one that was empty before is not. */
  ghost predicate FileRemoved(a: Config, m: Owner, b: Config) {
    if "hooks" !in a || !a["hooks"].Obj? then b == a
    else exists hooks ::
      && Removed(a["hooks"].fields, m, hooks)
      && b == if hooks == a["hooks"].fields then a
              else if hooks == map[] then a - {"hooks"} else a["hooks" := Obj(hooks)]
  }

  /**
   * Installing and removing again gives back the very same configuration exactly if it
   * had no hooks at all, or a hooks object with something in it where nothing was ours
   * and no planned event was an empty list or null.
   */
  lemma FileRestored(a: Config, plan: Plan, m: Owner, b: Config, c: Config)
    requires Proper(plan, m) && plan != map[]
    requires FileInstalled(a, plan, m, b) && FileRemoved(b, m, c)
    requires forall e :: e in plan ==> Listable(At(HooksIn(a).value, e))
    ensures c == a <==>
            || "hooks" !in a
            || (a["hooks"].Obj? && a["hooks"].fields != map[] && AllComeBack(a["hooks"].fields, plan, m))
  {
    var before := HooksIn(a).value;
    var after :| Installed(before, plan, m, after)
                 && b == if Current(before, plan, m) then a else a["hooks" := Obj(after)];
    InstalledFileHasHooks(a, plan, m, after, b);
    var end :| Removed(after, m, end)
               && c == if end == after then b else if end == map[] then b - {"hooks"} else b["hooks" := Obj(end)];
    HooksRestored(before, plan, m, after, end);
    WrittenBack(a, before, after, end, c);
  }

  lemma InstalledFileHasHooks(a: Config, plan: Plan, m: Owner, after: Hooks, b: Config)
    requires Proper(plan, m) && plan != map[] && HooksIn(a).Some? && Installed(HooksIn(a).value, plan, m, after)
    requires b == if Current(HooksIn(a).value, plan, m) then a else a["hooks" := Obj(after)]
    ensures b == a["hooks" := Obj(after)]
  {
    ghost var member := Sets.SomeMember(plan.Keys);
    NothingToSee(m, plan, member);
    if Current(HooksIn(a).value, plan, m) {
      InstalledIsSettled(HooksIn(a).value, plan, m, after);
    }
  }

  lemma WrittenBack(a: Config, before: Hooks, after: Hooks, end: Hooks, c: Config)
    requires HooksIn(a) == Some(before)
    requires var b := a["hooks" := Obj(after)]; c == if end == map[] then b - {"hooks"} else b["hooks" := Obj(end)]
    ensures c == a <==>
            ("hooks" !in a && end == map[]) || ("hooks" in a && a["hooks"].Obj? && end == before && before != map[])
  {
    if "hooks" !in a {
      assert a["hooks" := Obj(after)] - {"hooks"} == a;
    }
    if "hooks" in a && a["hooks"].Obj? && end == before && before != map[] {
      assert c == a;
    }
  }

  lemma HooksRestored(before: Hooks, plan: Plan, m: Owner, after: Hooks, end: Hooks)
    requires Proper(plan, m) && plan != map[] && (forall e :: e in plan ==> Listable(At(before, e)))
    requires Installed(before, plan, m, after) && Removed(after, m, end)
    ensures end != after && (end == before <==> AllComeBack(before, plan, m))
    ensures before == map[] ==> AllComeBack(before, plan, m) && !Current(before, plan, m)
  {
    InstallIsRight(before, plan, m, after);
    RemoveAfterInstall(before, plan, m, after, end);
    ghost var member := Sets.SomeMember(plan.Keys);
    assert !Off(At(after, member), Wanted(member, plan), m);
    WithoutOursIsRight(At(after, member), m);
    assert At(end, member) != At(after, member);
    if before == map[] {
      NothingToSee(m, plan, member);
    }
  }

  lemma NothingToSee(m: Owner, plan: Plan, event: string)
    requires Proper(plan, m) && event in plan
    ensures AllComeBack(map[], plan, m) && !Current(map[], plan, m)
  {
    var none: Hooks := map[];
    forall e ensures ComesBack(none, plan, m, e) {
      assert At(none, e) == None;
    }
    assert Off(At(none, event), Wanted(event, plan), m);
  }

  /** A file that needs no change has the hooks object installing would make. */
  lemma InstalledIsSettled(before: Hooks, plan: Plan, m: Owner, after: Hooks)
    requires Proper(plan, m) && Installed(before, plan, m, after) && Current(before, plan, m)
    ensures after == before
  {
    forall e ensures At(after, e) == At(before, e) {
      assert !Off(At(before, e), Wanted(e, plan), m);
    }
    SameAtEvery(before, after);
  }
}
