/** Command hooks in a configuration owned by someone else: one event's list of hook groups. */
module HookGroups {
  import opened Options

  /** Numbers are compared by value, however they are spelled. */
  datatype Json =
    | Null | Bool(b: bool) | Num(n: real) | Str(s: string)
    | Arr(items: seq<Json>) | Obj(fields: map<string, Json>)

  /** Whether a command is one of ours. */
  type Owner = string -> bool

  predicate IsManaged(h: Json, m: Owner) {
    h.Obj? && "command" in h.fields && h.fields["command"].Str? && m(h.fields["command"].s)
  }

  /** The hooks of a group, if it has the shape of one. */
  function HooksOf(g: Json): Option<seq<Json>> {
    if g.Obj? && "hooks" in g.fields && g.fields["hooks"].Arr? then Some(g.fields["hooks"].items) else None
  }

  function Count(hs: seq<Json>, m: Owner): nat {
    if hs == [] then 0 else Count(hs[..|hs| - 1], m) + if IsManaged(hs[|hs| - 1], m) then 1 else 0
  }

  /** The hooks that are not ours. */
  function Foreign(hs: seq<Json>, m: Owner): seq<Json> {
    if hs == [] then [] else Foreign(hs[..|hs| - 1], m) + if IsManaged(hs[|hs| - 1], m) then [] else [hs[|hs| - 1]]
  }

  predicate HasManaged(g: Json, m: Owner) {
    HooksOf(g).Some? && Count(HooksOf(g).value, m) > 0
  }

  /** A group without our hooks; a group that held nothing else goes altogether. */
  function CleanGroup(g: Json, m: Owner): seq<Json> {
    if !HasManaged(g, m) then [g]
    else if Foreign(HooksOf(g).value, m) == [] then []
    else [Obj(g.fields["hooks" := Arr(Foreign(HooksOf(g).value, m))])]
  }

  /** What an event's list holds of others. */
  function Clean(groups: seq<Json>, m: Owner): seq<Json> {
    if groups == [] then [] else Clean(groups[..|groups| - 1], m) + CleanGroup(groups[|groups| - 1], m)
  }

  /** The groups with any of our hooks in them. */
  function Managed(groups: seq<Json>, m: Owner): seq<Json> {
    if groups == [] then []
    else Managed(groups[..|groups| - 1], m) + if HasManaged(groups[|groups| - 1], m) then [groups[|groups| - 1]] else []
  }

  /** A group as the plan writes it: one hook, and it is ours. */
  predicate Desired(g: Json, m: Owner) {
    HooksOf(g).Some? && |HooksOf(g).value| == 1 && IsManaged(HooksOf(g).value[0], m)
  }

  ghost predicate AllDesired(groups: seq<Json>, m: Owner) {
    forall i :: 0 <= i < |groups| ==> Desired(groups[i], m)
  }

  // ---------------------------------------------------------------- laws

  lemma {:induction false} ForeignHasNoManaged(hs: seq<Json>, m: Owner)
    ensures Count(Foreign(hs, m), m) == 0
    ensures Count(hs, m) == 0 <==> Foreign(hs, m) == hs
    ensures |Foreign(hs, m)| + Count(hs, m) == |hs|
  {
    if hs != [] {
      var init := hs[..|hs| - 1];
      ForeignHasNoManaged(init, m);
      var f := Foreign(init, m);
      if !IsManaged(hs[|hs| - 1], m) {
        assert (f + [hs[|hs| - 1]])[..|f|] == f;
        assert hs == init + [hs[|hs| - 1]];
      } else {
        assert f + [] == f;
      }
    }
  }

  lemma DesiredIsOneManaged(g: Json, m: Owner)
    requires Desired(g, m)
    ensures Count(HooksOf(g).value, m) == 1 && HasManaged(g, m) && CleanGroup(g, m) == []
  {
    var hs := HooksOf(g).value;
    assert hs[..0] == [];
    ForeignHasNoManaged(hs, m);
  }

  function FlatMap<T, U>(s: seq<T>, f: T -> seq<U>): seq<U> {
    if s == [] then [] else FlatMap(s[..|s| - 1], f) + f(s[|s| - 1])
  }

  lemma FlatMapLast<T, U>(init: seq<T>, last: T, f: T -> seq<U>)
    ensures FlatMap(init + [last], f) == FlatMap(init, f) + f(last)
  {
    assert (init + [last])[..|init|] == init;
  }

  lemma Regroup<T>(a: seq<T>, b: seq<T>, c: seq<T>)
    ensures a + (b + c) == a + b + c
  {
  }

  lemma {:induction false} FlatMapAppends<T, U>(a: seq<T>, b: seq<T>, f: T -> seq<U>)
    ensures FlatMap(a + b, f) == FlatMap(a, f) + FlatMap(b, f)
  {
    if b == [] {
      assert a + b == a;
    } else {
      var (init, last) := (b[..|b| - 1], b[|b| - 1]);
      assert b == init + [last];
      calc {
        FlatMap(a + b, f);
        { Regroup(a, init, [last]); }
        FlatMap(a + init + [last], f);
        { FlatMapLast(a + init, last, f); }
        FlatMap(a + init, f) + f(last);
        { FlatMapAppends(a, init, f); }
        FlatMap(a, f) + FlatMap(init, f) + f(last);
        { Regroup(FlatMap(a, f), FlatMap(init, f), f(last)); }
        FlatMap(a, f) + (FlatMap(init, f) + f(last));
        { FlatMapLast(init, last, f); }
        FlatMap(a, f) + FlatMap(b, f);
      }
    }
  }

  function Cleaner(m: Owner): Json -> seq<Json> {
    (g: Json) => CleanGroup(g, m)
  }

  lemma {:induction false} CleanIsFlatMap(groups: seq<Json>, m: Owner)
    ensures Clean(groups, m) == FlatMap(groups, Cleaner(m))
  {
    if groups != [] {
      CleanIsFlatMap(groups[..|groups| - 1], m);
    }
  }

  lemma CleanAppends(a: seq<Json>, b: seq<Json>, m: Owner)
    ensures Clean(a + b, m) == Clean(a, m) + Clean(b, m)
  {
    CleanIsFlatMap(a, m);
    CleanIsFlatMap(b, m);
    CleanIsFlatMap(a + b, m);
    FlatMapAppends(a, b, Cleaner(m));
  }

  lemma {:induction false} ManagedAppends(a: seq<Json>, b: seq<Json>, m: Owner)
    ensures Managed(a + b, m) == Managed(a, m) + Managed(b, m)
  {
    if b == [] {
      assert a + b == a;
    } else {
      var (init, last) := (b[..|b| - 1], b[|b| - 1]);
      ManagedAppends(a, init, m);
      assert (a + b)[..|a + b| - 1] == a + init && (a + b)[|a + b| - 1] == last;
    }
  }

  lemma {:induction false} DesiredCleanAway(groups: seq<Json>, m: Owner)
    requires AllDesired(groups, m)
    ensures Clean(groups, m) == [] && Managed(groups, m) == groups
  {
    if groups != [] {
      DesiredCleanAway(groups[..|groups| - 1], m);
      DesiredIsOneManaged(groups[|groups| - 1], m);
      assert groups == groups[..|groups| - 1] + [groups[|groups| - 1]];
    }
  }

  lemma CleanGroupIsClean(g: Json, m: Owner)
    ensures forall c :: c in CleanGroup(g, m) ==> !HasManaged(c, m)
  {
    if HasManaged(g, m) {
      ForeignHasNoManaged(HooksOf(g).value, m);
    }
  }

  /** Cleaning leaves nothing of ours. */
  lemma {:induction false} CleanHasNoManaged(groups: seq<Json>, m: Owner)
    ensures Managed(Clean(groups, m), m) == []
  {
    if groups != [] {
      var (init, last) := (groups[..|groups| - 1], groups[|groups| - 1]);
      CleanHasNoManaged(init, m);
      CleanGroupIsClean(last, m);
      ManagedAppends(Clean(init, m), CleanGroup(last, m), m);
      ManagedOfOne(CleanGroup(last, m), m);
    }
  }

  lemma CleanLast(init: seq<Json>, last: Json, m: Owner)
    ensures Clean(init + [last], m) == Clean(init, m) + CleanGroup(last, m)
    ensures Managed(init + [last], m) == Managed(init, m) + if HasManaged(last, m) then [last] else []
    ensures !HasManaged(last, m) ==> CleanGroup(last, m) == [last]
  {
    assert (init + [last])[..|init|] == init;
  }

  lemma SplitLast(groups: seq<Json>) returns (init: seq<Json>, last: Json)
    requires groups != []
    ensures groups == init + [last] && |init| < |groups|
  {
    init, last := groups[..|groups| - 1], groups[|groups| - 1];
  }

  /** A list without anything of ours is left as it is. */
  lemma {:induction false} NothingToClean(groups: seq<Json>, m: Owner)
    requires Managed(groups, m) == []
    ensures Clean(groups, m) == groups
    decreases |groups|
  {
    if groups != [] {
      var init, last := SplitLast(groups);
      CleanLast(init, last, m);
      assert !HasManaged(last, m) && Managed(init, m) == [];
      NothingToClean(init, m);
    }
  }

  /** Cleaning is the identity on just those lists. */
  lemma CleanIsClean(groups: seq<Json>, m: Owner)
    ensures Managed(Clean(groups, m), m) == [] && Clean(Clean(groups, m), m) == Clean(groups, m)
    ensures Managed(groups, m) == [] <==> Clean(groups, m) == groups
  {
    CleanHasNoManaged(groups, m);
    NothingToClean(Clean(groups, m), m);
    if Managed(groups, m) == [] {
      NothingToClean(groups, m);
    }
  }

  lemma ManagedOfOne(groups: seq<Json>, m: Owner)
    requires |groups| <= 1 && forall c :: c in groups ==> !HasManaged(c, m)
    ensures Managed(groups, m) == []
  {
    if |groups| == 1 {
      assert groups[..0] == [];
    }
  }

  // ---------------------------------------------------------------- what others have

  /** A group that holds no hooks at all, or one hook of others with the group it stands in. */
  datatype Piece = Whole(group: Json) | Single(around: Json, hook: Json)

  function PieceOf(around: Json, m: Owner): Json -> seq<Piece> {
    (h: Json) => if IsManaged(h, m) then [] else [Single(around, h)]
  }

  /** What others have in a group, hook by hook. */
  function OthersIn(g: Json, m: Owner): seq<Piece> {
    if HooksOf(g).None? || HooksOf(g).value == [] then [Whole(g)]
    else FlatMap(HooksOf(g).value, PieceOf(Obj(g.fields - {"hooks"}), m))
  }

  function OthersOf(m: Owner): Json -> seq<Piece> {
    (g: Json) => OthersIn(g, m)
  }

  function Others(groups: seq<Json>, m: Owner): seq<Piece> {
    FlatMap(groups, OthersOf(m))
  }

  lemma {:induction false} ForeignPieces(hs: seq<Json>, around: Json, m: Owner)
    ensures FlatMap(Foreign(hs, m), PieceOf(around, m)) == FlatMap(hs, PieceOf(around, m))
  {
    if hs != [] {
      var (init, last) := (hs[..|hs| - 1], hs[|hs| - 1]);
      ForeignPieces(init, around, m);
      if !IsManaged(last, m) {
        FlatMapLast(Foreign(init, m), last, PieceOf(around, m));
      } else {
        assert Foreign(init, m) + [] == Foreign(init, m);
      }
    }
  }

  lemma FlatMapOne<T, U>(x: T, f: T -> seq<U>)
    ensures FlatMap([x], f) == f(x)
  {
    FlatMapLast([], x, f);
    assert [] + [x] == [x];
  }

  lemma CleanGroupKeepsOthers(g: Json, m: Owner)
    ensures Others(CleanGroup(g, m), m) == OthersIn(g, m)
  {
    FlatMapOne(g, OthersOf(m));
    if HasManaged(g, m) {
      var (hs, around) := (HooksOf(g).value, Obj(g.fields - {"hooks"}));
      var cleaned := Obj(g.fields["hooks" := Arr(Foreign(hs, m))]);
      ForeignPieces(hs, around, m);
      FlatMapOne(cleaned, OthersOf(m));
      assert cleaned.fields - {"hooks"} == around.fields;
    }
  }

  /** Cleaning loses nothing of others, reorders nothing, and leaves every hook in its group. */
  lemma {:induction false} CleanKeepsOthers(groups: seq<Json>, m: Owner)
    ensures Others(Clean(groups, m), m) == Others(groups, m)
  {
    if groups != [] {
      var (init, last) := (groups[..|groups| - 1], groups[|groups| - 1]);
      CleanKeepsOthers(init, m);
      CleanGroupKeepsOthers(last, m);
      FlatMapAppends(Clean(init, m), CleanGroup(last, m), OthersOf(m));
    }
  }

  lemma {:induction false} DesiredHoldNoOthers(groups: seq<Json>, m: Owner)
    requires AllDesired(groups, m)
    ensures Others(groups, m) == []
  {
    if groups != [] {
      var last := groups[|groups| - 1];
      DesiredHoldNoOthers(groups[..|groups| - 1], m);
      FlatMapOne(HooksOf(last).value[0], PieceOf(Obj(last.fields - {"hooks"}), m));
      assert HooksOf(last).value == [HooksOf(last).value[0]];
    }
  }

  // ---------------------------------------------------------------- installing into one event

  /** The list after installing: left alone if ours are in it already just as wanted. */
  function Upserted(groups: seq<Json>, desired: seq<Json>, m: Owner): seq<Json> {
    if Managed(groups, m) == desired then groups else Clean(groups, m) + desired
  }

  /**
   * Ours are then exactly the planned groups in order, the rest of the list is as it was,
   * and installing again changes nothing.
   */
  lemma UpsertedIsRight(groups: seq<Json>, desired: seq<Json>, m: Owner)
    requires AllDesired(desired, m)
    ensures var after := Upserted(groups, desired, m);
            && Managed(after, m) == desired
            && Clean(after, m) == Clean(groups, m) && Others(after, m) == Others(groups, m)
            && Upserted(after, desired, m) == after
  {
    CleanKeepsOthers(groups, m);
    DesiredHoldNoOthers(desired, m);
    FlatMapAppends(Clean(groups, m), desired, OthersOf(m));
    CleanIsClean(groups, m);
    DesiredCleanAway(desired, m);
    CleanAppends(Clean(groups, m), desired, m);
    ManagedAppends(Clean(groups, m), desired, m);
  }

  // ---------------------------------------------------------------- the loops

  /** `countManagedHooks` */
  method CountManagedHooks(hs: seq<Json>, m: Owner) returns (count: nat)
    ensures count == Count(hs, m)
  {
    count := 0;
    for i := 0 to |hs|
      invariant count == Count(hs[..i], m)
    {
      assert hs[..i + 1][..i] == hs[..i];
      if IsManaged(hs[i], m) {
        count := count + 1;
      }
    }
    assert hs[..|hs|] == hs;
  }

  function TotalCount(groups: seq<Json>, m: Owner): nat {
    if groups == [] then 0
    else
      var last := groups[|groups| - 1];
      TotalCount(groups[..|groups| - 1], m) + if HooksOf(last).Some? then Count(HooksOf(last).value, m) else 0
  }

  lemma {:induction false} ManagedGrows(groups: seq<Json>, i: nat, m: Owner)
    requires i <= |groups|
    ensures Managed(groups[..i], m) <= Managed(groups, m)
    ensures TotalCount(groups, m) >= |Managed(groups, m)|
  {
    if i == |groups| {
      assert groups[..i] == groups;
      if groups != [] {
        ManagedGrows(groups[..i - 1], i - 1, m);
      }
    } else {
      ManagedGrows(groups[..|groups| - 1], i, m);
      assert groups[..|groups| - 1][..i] == groups[..i];
    }
  }

  lemma {:induction false} TotalOfDesired(groups: seq<Json>, m: Owner)
    requires AllDesired(Managed(groups, m), m)
    ensures TotalCount(groups, m) == |Managed(groups, m)|
  {
    if groups != [] {
      var (init, last) := (groups[..|groups| - 1], groups[|groups| - 1]);
      assert AllDesired(Managed(init, m), m) by {
        assert forall i :: 0 <= i < |Managed(init, m)| ==> Managed(groups, m)[i] == Managed(init, m)[i];
      }
      TotalOfDesired(init, m);
      if HasManaged(last, m) {
        assert Managed(groups, m)[|Managed(groups, m)| - 1] == last;
        DesiredIsOneManaged(last, m);
      }
    }
  }

  /** `managedCommandHookGroupsCurrent`; groups compare equal when they are equal values. */
  method GroupsCurrent(groups: seq<Json>, desired: seq<Json>, m: Owner) returns (current: bool)
    requires AllDesired(desired, m)
    ensures current <==> Managed(groups, m) == desired
  {
    var managedCount, desiredCount := 0, 0;
    for i := 0 to |groups|
      invariant desiredCount <= |desired| && managedCount == TotalCount(groups[..i], m)
      invariant Managed(groups[..i], m) == desired[..desiredCount]
    {
      assert groups[..i + 1][..i] == groups[..i];
      ManagedGrows(groups, i + 1, m);
      if HooksOf(groups[i]).Some? {
        var inGroup := CountManagedHooks(HooksOf(groups[i]).value, m);
        if inGroup > 0 {
          managedCount := managedCount + inGroup;
          if desiredCount >= |desired| || groups[i] != desired[desiredCount] {
            assert Managed(groups[..i + 1], m)[desiredCount] == groups[i];
            return false;
          }
          desiredCount := desiredCount + 1;
          assert desired[..desiredCount] == desired[..desiredCount - 1] + [groups[i]];
        }
      }
    }
    assert groups[..|groups|] == groups;
    if desiredCount == |desired| {
      assert desired[..desiredCount] == desired;
      TotalOfDesired(groups, m);
    }
    return managedCount == |desired| && desiredCount == |desired|;
  }

  /** `removeManagedCommandHookGroups` */
  method RemoveManagedGroups(groups: seq<Json>, m: Owner) returns (cleaned: seq<Json>, removed: bool)
    ensures cleaned == Clean(groups, m) && (removed <==> Managed(groups, m) != [])
  {
    cleaned, removed := [], false;
    for i := 0 to |groups|
      invariant cleaned == Clean(groups[..i], m)
      invariant removed <==> Managed(groups[..i], m) != []
    {
      assert groups[..i + 1][..i] == groups[..i];
      if HooksOf(groups[i]).None? {
        cleaned := cleaned + [groups[i]];
        continue;
      }
      var hooks := HooksOf(groups[i]).value;
      var kept, inGroup := RemoveManagedHooks(hooks, m);
      if !inGroup {
        cleaned := cleaned + [groups[i]];
        continue;
      }
      removed := true;
      if kept != [] {
        cleaned := cleaned + [Obj(groups[i].fields["hooks" := Arr(kept)])];
      }
    }
    assert groups[..|groups|] == groups;
  }

  /** The inner loop of `removeManagedCommandHookGroups`. */
  method RemoveManagedHooks(hooks: seq<Json>, m: Owner) returns (kept: seq<Json>, removed: bool)
    ensures kept == Foreign(hooks, m) && (removed <==> Count(hooks, m) > 0)
  {
    kept, removed := [], false;
    for i := 0 to |hooks|
      invariant kept == Foreign(hooks[..i], m) && (removed <==> Count(hooks[..i], m) > 0)
    {
      assert hooks[..i + 1][..i] == hooks[..i];
      if IsManaged(hooks[i], m) {
        removed := true;
      } else {
        kept := kept + [hooks[i]];
      }
    }
    assert hooks[..|hooks|] == hooks;
  }
}
