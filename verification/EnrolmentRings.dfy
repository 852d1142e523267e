// Enrolment and the ring branches (internal/app/enrolment_rings.go): a branch is
// fast-forwarded to the commit that enrolled a device when every device already in
// the ring has the same shape and globals in the document at its pin and in the
// console's snapshot. A device builds from the source tree at the revision too,
// which nothing compares: RingKeepsItsBuilds says when the move rebuilds nobody.
module EnrolmentRings {
  import opened Wrappers
  import opened Order
  import opened Fleet
  import opened Resolve
  import opened BlastRadius
  import opened Gate
  import opened RingRefs
  import opened RolloutPlan
  import Rollout

  /** withoutGroupPins: a group's pin is rollout bookkeeping, not a build input. */
  function WithoutGroupPins(f: Fleet): Fleet {
    f.(groups := map g | g in f.groups :: f.groups[g].(pin := ""))
  }

  function ClassKeyOf(f: Fleet, tag: string): Option<Shape> {
    if Builds(f, tag) then Some(ShapeOf(f, tag)) else None
  }

  // ---- Levelling the pins changes nothing else ------------------------

  /** Two group maps that differ in pins at most. */
  ghost predicate SameTree(a: map<string, Group>, b: map<string, Group>) {
    a.Keys == b.Keys && forall g :: g in a ==> b[g].parent == a[g].parent && b[g].own == a[g].own
  }

  lemma {:induction false} SameClimb(a: map<string, Group>, b: map<string, Group>, cur: string, seen: set<string>)
    requires SameTree(a, b)
    ensures Climb(a, cur, seen) == Climb(b, cur, seen)
    decreases a.Keys - seen
  {
    if cur != "" && cur !in seen && cur in a {
      SameClimb(a, b, a[cur].parent, seen + {cur});
    }
  }

  lemma SameMeets(a: map<string, Group>, b: map<string, Group>, members: seq<string>, g: string)
    requires SameTree(a, b)
    ensures Meets(a, members, g) <==> Meets(b, members, g)
  {
    forall i | 0 <= i < |members| ensures Ancestry(a, members[i]) == Ancestry(b, members[i]) {
      SameClimb(a, b, members[i], {});
    }
  }

  lemma {:induction false} SameOrder(a: map<string, Group>, b: map<string, Group>, members: seq<string>)
    requires SameTree(a, b)
    ensures ScopeOrder(a, members) == ScopeOrder(b, members)
    ensures MemberApps(a, members) == MemberApps(b, members)
  {
    if members != [] {
      var n := |members| - 1;
      SameOrder(a, b, members[..n]);
      SameClimb(a, b, members[n], {});
      SameAncestryApps(a, b, Ancestry(a, members[n]));
    }
  }

  lemma {:induction false} SameAncestryApps(a: map<string, Group>, b: map<string, Group>, chain: seq<string>)
    requires SameTree(a, b)
    ensures AncestryApps(a, chain) == AncestryApps(b, chain)
  {
    if chain != [] {
      SameAncestryApps(a, b, chain[..|chain| - 1]);
    }
  }

  lemma {:induction false} SameGroupPart(a: map<string, Group>, b: map<string, Group>, order: seq<string>)
    requires SameTree(a, b)
    ensures GroupPart(a, order) == GroupPart(b, order)
  {
    if order != [] {
      SameGroupPart(a, b, order[..|order| - 1]);
    }
  }

  lemma LevelledTree(f: Fleet)
    ensures SameTree(f.groups, WithoutGroupPins(f).groups)
  {
  }

  lemma LevelledView(f: Fleet, tag: string)
    ensures SameView(f, WithoutGroupPins(f), tag)
  {
    var f' := WithoutGroupPins(f);
    LevelledTree(f);
    SameOrder(f.groups, f'.groups, DeviceAt(f, tag).groups);
    hide MemberApps, ScopeOrder;
    forall g ensures g in AncestorSet(f, tag) <==> g in AncestorSet(f', tag) {
      SameMeets(f.groups, f'.groups, DeviceAt(f, tag).groups, g);
    }
  }

  lemma LevelledChain(f: Fleet, tag: string)
    ensures Chain(WithoutGroupPins(f), tag) == Chain(f, tag)
  {
    hide WithoutGroupPins, SameTree, GroupPart, PolicyPart;
    var f' := WithoutGroupPins(f);
    LevelledView(f, tag);
    LevelledTree(f);
    PolicyFrame(f, f', tag, |f.assignments|);
    SameGroupPart(f.groups, f'.groups, OrderOf(f, tag));
  }

  lemma LevelledApps(f: Fleet, tag: string)
    ensures AppsOf(WithoutGroupPins(f), tag) == AppsOf(f, tag)
  {
    hide DedupedApps, MemberApps, SameTree, SameView;
    LevelledTree(f);
    SameOrder(f.groups, WithoutGroupPins(f).groups, DeviceAt(f, tag).groups);
    assert GatheredApps(f, tag) == GatheredApps(WithoutGroupPins(f), tag);
  }

  lemma LevelledPins(f: Fleet, tag: string)
    ensures GroupPins(WithoutGroupPins(f), tag) == map g | g in GroupPins(f, tag) :: ""
  {
    LevelledView(f, tag);
  }

  /** The shape with the group pins levelled is the shape but for its pins. */
  lemma LevelledShape(f: Fleet, tag: string)
    ensures var s := ShapeOf(f, tag);
            ShapeOf(WithoutGroupPins(f), tag) == s.(groupPins := map g | g in s.groupPins :: "")
  {
    hide GroupPins, AppsOf, Chain, SettingsFrom;
    LevelledChain(f, tag);
    LevelledApps(f, tag);
    LevelledPins(f, tag);
  }

  // ---- The guard ------------------------------------------------------

  /** A member of the ring at the old pin that is not being enrolled. */
  predicate Member(old_: Fleet, group: string, enrolling: seq<string>, tag: string) {
    tag in old_.devices && tag !in enrolling && group in AncestorSet(old_, tag)
  }

  predicate Differs(old_: Fleet, now: Fleet, tag: string) {
    old_.globals != now.globals || ClassKeyOf(WithoutGroupPins(old_), tag) != ClassKeyOf(WithoutGroupPins(now), tag)
  }

  function MembersChanged(old_: Fleet, now: Fleet, group: string, enrolling: seq<string>): (r: set<string>)
    ensures forall tag :: tag in r <==> Member(old_, group, enrolling, tag) && Differs(old_, now, tag)
  {
    set tag | tag in old_.devices && Member(old_, group, enrolling, tag) && Differs(old_, now, tag)
  }

  /** What git holds at a revision: the rest of the tree, and the document. */
  datatype Tree = Tree(source: string, fleet: Fleet)

  /** membersChangedBetween, over the revisions that can be read. */
  method MembersChangedBetween(trees: map<string, Tree>, now: Fleet, group: string, pin: string, enrolling: seq<string>)
    returns (r: Result<seq<string>>)
    ensures r.Ok? <==> pin in trees
    ensures r.Ok? ==> Sorted(r.value) && Distinct(r.value)
    ensures r.Ok? ==> Elements(r.value) == MembersChanged(trees[pin].fleet, now, group, enrolling)
  {
    if pin !in trees {
      return Err("read fleet document at pin");
    }
    var old_ := trees[pin].fleet;
    var changed := [];
    var left := old_.devices.Keys;
    while left != {}
      invariant left <= old_.devices.Keys && Distinct(changed)
      invariant forall tag :: tag in changed <==> tag in MembersChanged(old_, now, group, enrolling) && tag !in left
      decreases left
    {
      var tag :| tag in left;
      left := left - {tag};
      if Member(old_, group, enrolling, tag) && Differs(old_, now, tag) {
        changed := changed + [tag];
      }
    }
    SortSorted(changed);
    SortDistinct(changed);
    return Ok(Sort(changed));
  }

  /** A device's shape with the pins of its groups left out: the generator reads the
      group names, never their pins. */
  function Inputs(f: Fleet, tag: string): Shape {
    var s := ShapeOf(f, tag);
    s.(groupPins := map g | g in s.groupPins :: "")
  }

  /** What the guard compares: it passes exactly when every member at the old pin is
      built by the newer document if it was by the older, from the same inputs and -
      for any member at all - the same globals. */
  lemma GuardComparesDocuments(old_: Fleet, now: Fleet, group: string, enrolling: seq<string>)
    ensures MembersChanged(old_, now, group, enrolling) == {} <==>
            forall tag :: Member(old_, group, enrolling, tag) ==>
              old_.globals == now.globals && (Builds(old_, tag) <==> Builds(now, tag)) &&
              (Builds(now, tag) ==> Inputs(old_, tag) == Inputs(now, tag))
  {
    hide ShapeOf, WithoutGroupPins, Member;
    forall tag ensures Differs(old_, now, tag) <==>
      !(old_.globals == now.globals && (Builds(old_, tag) <==> Builds(now, tag)) &&
        (Builds(now, tag) ==> Inputs(old_, tag) == Inputs(now, tag)))
    {
      DiffersMeans(old_, now, tag);
    }
    if MembersChanged(old_, now, group, enrolling) != {} {
      var tag :| tag in MembersChanged(old_, now, group, enrolling);
    }
  }

  // ---- What the guard does not compare --------------------------------

  /** What the device builds from at a revision, if it builds. */
  function BuildOf(t: Tree, tag: string): Option<Key<Globals, Shape>> {
    if Builds(t.fleet, tag) then Some(Key(t.source, t.fleet.globals, Inputs(t.fleet, tag))) else None
  }

  /** Moving the ring from one revision to the other rebuilds none of its members. */
  ghost predicate KeepsBuilds(from: Tree, to: Tree, group: string, enrolling: seq<string>) {
    forall tag :: Member(from.fleet, group, enrolling, tag) ==> BuildOf(from, tag) == BuildOf(to, tag)
  }

  ghost predicate SomeMemberBuilds(from: Tree, t: Tree, group: string, enrolling: seq<string>) {
    exists tag :: Member(from.fleet, group, enrolling, tag) && Builds(t.fleet, tag)
  }

  /** The move rebuilds nobody exactly when no member builds at either revision, or
      the guard passes against the document at the new revision and the rest of the
      tree is the same there. */
  lemma RingKeepsItsBuilds(from: Tree, to: Tree, group: string, enrolling: seq<string>)
    ensures KeepsBuilds(from, to, group, enrolling) <==>
            (!SomeMemberBuilds(from, from, group, enrolling) && !SomeMemberBuilds(from, to, group, enrolling)) ||
            (MembersChanged(from.fleet, to.fleet, group, enrolling) == {} && from.source == to.source)
  {
    hide Inputs, Member, Builds;
    GuardComparesDocuments(from.fleet, to.fleet, group, enrolling);
    if KeepsBuilds(from, to, group, enrolling) &&
       (SomeMemberBuilds(from, from, group, enrolling) || SomeMemberBuilds(from, to, group, enrolling)) {
      var tag :| Member(from.fleet, group, enrolling, tag) && (Builds(from.fleet, tag) || Builds(to.fleet, tag));
      assert BuildOf(from, tag) == BuildOf(to, tag);
    }
  }

  /** The guard compares with the snapshot, not with the document at the revision the
      ring moves to. Once it passed, and some member builds at the pin, the move
      rebuilds nobody exactly when the rest of the tree is the same and the members
      build at the revision what the snapshot says they do. */
  lemma SnapshotHasToBeTheRevision(from: Tree, now: Fleet, to: Tree, group: string, enrolling: seq<string>)
    requires MembersChanged(from.fleet, now, group, enrolling) == {} && SomeMemberBuilds(from, from, group, enrolling)
    ensures KeepsBuilds(from, to, group, enrolling) <==>
            from.source == to.source &&
            forall tag :: Member(from.fleet, group, enrolling, tag) ==>
                BuildOf(Tree(to.source, now), tag) == BuildOf(to, tag)
  {
    hide Inputs, Member, Builds, MembersChanged, BuildOf;
    forall tag | Member(from.fleet, group, enrolling, tag)
        ensures BuildOf(from, tag) == BuildOf(Tree(from.source, now), tag) {
      GuardedBuild(from, now, group, enrolling, tag);
    }
    if KeepsBuilds(from, to, group, enrolling) {
      var tag :| Member(from.fleet, group, enrolling, tag) && Builds(from.fleet, tag);
      SourceOfBuild(from, tag);
      SourceOfBuild(to, tag);
    }
  }

  lemma GuardedBuild(from: Tree, now: Fleet, group: string, enrolling: seq<string>, tag: string)
    requires MembersChanged(from.fleet, now, group, enrolling) == {} && Member(from.fleet, group, enrolling, tag)
    ensures BuildOf(from, tag) == BuildOf(Tree(from.source, now), tag)
  {
    hide Inputs, Member, Builds;
    GuardComparesDocuments(from.fleet, now, group, enrolling);
  }

  lemma SourceOfBuild(t: Tree, tag: string)
    ensures BuildOf(t, tag).Some? <==> Builds(t.fleet, tag)
    ensures BuildOf(t, tag).Some? ==> BuildOf(t, tag).value.source == t.source
  {
  }

  function OneLaptop(model: string, pin: string): Fleet {
    Fleet(None, map["g" := Group("", pin, NO_SCOPE)],
          map["a" := Device(Lifecycle.Active, "", ["g"], "", "", model, map[], NO_SCOPE)], map[], [], map[], Globals(None, Null))
  }

  lemma LaptopIsAMember(model: string, pin: string)
    ensures Member(OneLaptop(model, pin), "g", ["t"], "a") && Builds(OneLaptop(model, pin), "a")
  {
    var f := OneLaptop(model, pin);
    var none: set<string> := {};
    assert none + {"g"} == {"g"};
    assert Climb(f.groups, "g", none) == Climb(f.groups, "", none + {"g"}) + ["g"];
    assert f.devices["a"].groups[0] == "g";
  }

  /** A core bump between the pin and the enrolment leaves the document alone: the
      guard passes, and the member rebuilds. */
  lemma CoreBumpPassesTheGuard(pin: string)
    ensures var from, to := Tree("core 1", OneLaptop("m1", pin)), Tree("core 2", OneLaptop("m1", pin));
            MembersChanged(from.fleet, to.fleet, "g", ["t"]) == {} && !KeepsBuilds(from, to, "g", ["t"])
  {
    var f := OneLaptop("m1", pin);
    LaptopIsAMember("m1", pin);
    GuardComparesDocuments(f, f, "g", ["t"]);
    hide Inputs, Member, Builds;
    assert BuildOf(Tree("core 1", f), "a") != BuildOf(Tree("core 2", f), "a");
  }

  /** So does a snapshot read before the revision: the document compared is the old
      one, the one moved to has another model. */
  lemma StaleSnapshotPassesTheGuard(pin: string)
    ensures var from, now, to := Tree("core", OneLaptop("m1", pin)), OneLaptop("m1", pin), Tree("core", OneLaptop("m2", pin));
            MembersChanged(from.fleet, now, "g", ["t"]) == {} && !KeepsBuilds(from, to, "g", ["t"])
  {
    var f, f' := OneLaptop("m1", pin), OneLaptop("m2", pin);
    LaptopIsAMember("m1", pin);
    LaptopIsAMember("m2", pin);
    GuardComparesDocuments(f, f, "g", ["t"]);
    ModelIsAnInput("m1", pin);
    ModelIsAnInput("m2", pin);
    hide Inputs, Member, Builds;
    assert BuildOf(Tree("core", f), "a") != BuildOf(Tree("core", f'), "a");
  }

  lemma ModelIsAnInput(model: string, pin: string)
    ensures Inputs(OneLaptop(model, pin), "a").hardware == model
  {
    hide GroupPins, SettingsFrom, AppsOf, Chain;
  }

  lemma DiffersMeans(old_: Fleet, now: Fleet, tag: string)
    ensures Differs(old_, now, tag) <==>
            !(old_.globals == now.globals && (Builds(old_, tag) <==> Builds(now, tag)) &&
              (Builds(now, tag) ==> Inputs(old_, tag) == Inputs(now, tag)))
  {
    hide ShapeOf;
    LevelledShape(old_, tag);
    LevelledShape(now, tag);
    SameBuilders(old_, tag);
    SameBuilders(now, tag);
  }

  lemma SameBuilders(f: Fleet, tag: string)
    ensures Builds(WithoutGroupPins(f), tag) <==> Builds(f, tag)
  {
  }

  // ---- Moving the rings -----------------------------------------------

  predicate Lags(now: Fleet, rev: string, g: string) {
    g in now.groups && now.groups[g].pin != "" && now.groups[g].pin != rev
  }

  predicate CoversOne(now: Fleet, tags: seq<string>, g: string) {
    exists i :: 0 <= i < |tags| && tags[i] in now.devices && g in AncestorSet(now, tags[i])
  }

  /** The rings to move: the pinned groups, not at rev, in the ancestry of a device
      being enrolled. */
  predicate ToMove(now: Fleet, tags: seq<string>, rev: string, g: string) {
    Lags(now, rev, g) && CoversOne(now, tags, g)
  }

  predicate Guard(trees: map<string, Tree>, now: Fleet, tags: seq<string>, g: string) {
    g in now.groups && now.groups[g].pin in trees && MembersChanged(trees[now.groups[g].pin].fleet, now, g, tags) == {}
  }

  /** What the guard is for, on the documents alone: a device of the old one that is
      not being enrolled and lists a group from which the ring is reached over parent
      links keeps the globals, whether it builds, and what it builds from. */
  ghost predicate Untouched(old_: Fleet, now: Fleet, group: string, enrolling: seq<string>) {
    forall tag, i :: tag in old_.devices && tag !in enrolling && 0 <= i < |old_.devices[tag].groups| &&
                     IsAncestor(old_.groups, old_.devices[tag].groups[i], group) ==>
      Same(old_, now, tag)
  }

  ghost predicate Same(old_: Fleet, now: Fleet, tag: string) {
    old_.globals == now.globals && (Builds(old_, tag) <==> Builds(now, tag)) &&
    (Builds(now, tag) ==> Inputs(old_, tag) == Inputs(now, tag))
  }

  lemma MembersReach(f: Fleet, group: string, enrolling: seq<string>, tag: string)
    ensures Member(f, group, enrolling, tag) <==>
            tag in f.devices && tag !in enrolling &&
            exists i :: 0 <= i < |f.devices[tag].groups| && IsAncestor(f.groups, f.devices[tag].groups[i], group)
  {
    if tag in f.devices {
      ReachesIsMeets(f.groups, f.devices[tag].groups, group);
    }
  }

  /** The guard passes exactly when the pin can be read and that holds. */
  lemma GuardProtects(trees: map<string, Tree>, now: Fleet, tags: seq<string>, g: string)
    requires g in now.groups
    ensures Guard(trees, now, tags, g) <==>
            now.groups[g].pin in trees && Untouched(trees[now.groups[g].pin].fleet, now, g, tags)
  {
    hide Inputs, Builds, Member, IsAncestor, MembersChanged;
    if now.groups[g].pin in trees {
      var old_ := trees[now.groups[g].pin].fleet;
      GuardComparesDocuments(old_, now, g, tags);
      forall tag ensures Member(old_, g, tags, tag) <==>
          tag in old_.devices && tag !in tags &&
          exists i :: 0 <= i < |old_.devices[tag].groups| && IsAncestor(old_.groups, old_.devices[tag].groups[i], g)
      {
        MembersReach(old_, g, tags, tag);
      }
    }
  }

  /** The rings enrolment concerns, on the document alone: pinned, not at the revision,
      and reached over parent links from a group an enrolled device lists. */
  lemma RingsInQuestion(now: Fleet, tags: seq<string>, rev: string, g: string)
    ensures ToMove(now, tags, rev, g) <==>
            g in now.groups && now.groups[g].pin != "" && now.groups[g].pin != rev &&
            exists t, i :: t in tags && t in now.devices && 0 <= i < |now.devices[t].groups| &&
                           IsAncestor(now.groups, now.devices[t].groups[i], g)
  {
    hide IsAncestor, Meets;
    forall t | t in now.devices ensures g in AncestorSet(now, t) <==>
        exists i :: 0 <= i < |now.devices[t].groups| && IsAncestor(now.groups, now.devices[t].groups[i], g)
    {
      ReachesIsMeets(now.groups, now.devices[t].groups, g);
    }
    hide AncestorSet;
    if t, i :| t in tags && t in now.devices && 0 <= i < |now.devices[t].groups| &&
               IsAncestor(now.groups, now.devices[t].groups[i], g) {
      var k :| 0 <= k < |tags| && tags[k] == t;
    }
  }

  /** Moving the ring to the document touches none of its other members. */
  ghost predicate Spared(trees: map<string, Tree>, now: Fleet, tags: seq<string>, g: string) {
    g in now.groups && now.groups[g].pin in trees && Untouched(trees[now.groups[g].pin].fleet, now, g, tags)
  }

  datatype Outcome =
    | Advanced(groups: seq<string>)
    | Unreadable(group: string) | Refused(group: string)  // by the guard
    | GitFailed(group: string)

  function Moved(refs: map<string, string>, groups: seq<string>, rev: string): map<string, string> {
    refs + map g | g in groups :: rev
  }

  /** pins: collected over the devices' groups and their ancestry. */
  method RingsToMove(now: Fleet, tags: seq<string>, rev: string) returns (groups: seq<string>)
    ensures Sorted(groups) && Distinct(groups) && forall g :: g in groups <==> ToMove(now, tags, rev, g)
  {
    var found := [];
    for i := 0 to |tags|
      invariant Distinct(found)
      invariant forall g :: g in found <==> Lags(now, rev, g) && CoversOne(now, tags[..i], g)
    {
      var more: seq<string> := [];
      if tags[i] in now.devices {
        var left := AncestorSet(now, tags[i]);
        while left != {}
          invariant left <= AncestorSet(now, tags[i])
          invariant forall g :: g in more <==> Lags(now, rev, g) && g in AncestorSet(now, tags[i]) && g !in left
          decreases left
        {
          var g :| g in left;
          left := left - {g};
          if Lags(now, rev, g) {
            more := more + [g];
          }
        }
      }
      CoversStep(now, tags, i);
      found := AddNew(found, more);
    }
    assert tags[..|tags|] == tags;
    SortSorted(found);
    SortDistinct(found);
    groups := Sort(found);
  }

  lemma CoversStep(now: Fleet, tags: seq<string>, i: nat)
    requires i < |tags|
    ensures forall g :: CoversOne(now, tags[..i + 1], g) <==>
              CoversOne(now, tags[..i], g) || (tags[i] in now.devices && g in AncestorSet(now, tags[i]))
  {
    hide AncestorSet;
    var a, b := tags[..i], tags[..i + 1];
    forall g ensures CoversOne(now, b, g) <==>
        CoversOne(now, a, g) || (tags[i] in now.devices && g in AncestorSet(now, tags[i])) {
      if CoversOne(now, a, g) {
        var k :| 0 <= k < |a| && a[k] in now.devices && g in AncestorSet(now, a[k]);
        assert b[k] == a[k];
      }
      if tags[i] in now.devices && g in AncestorSet(now, tags[i]) {
        assert b[i] == tags[i];
      }
    }
  }

  /** One ring: the guard, then the branch, then the push. */
  method AdvanceRing(refs: Refs, trees: map<string, Tree>, now: Fleet, tags: seq<string>, rev: string, g: string)
      returns (out: Option<Outcome>)
    requires g in now.groups
    modifies refs
    ensures match out
            case None => Guard(trees, now, tags, g) && refs.local == old(refs.local)[g := rev] &&
                refs.remote == old(refs.remote)[g := rev]
            case Some(Unreadable(h)) => h == g && PinOf(now.groups, g) !in trees
            case Some(Refused(h)) => h == g && PinOf(now.groups, g) in trees && !Guard(trees, now, tags, g)
            case Some(GitFailed(h)) => h == g && Guard(trees, now, tags, g) && refs.faulty
            case Some(Advanced(_)) => false
    ensures out.Some? && !out.value.GitFailed? ==> refs.local == old(refs.local) && refs.remote == old(refs.remote)
    ensures refs.local == old(refs.local) || refs.local == old(refs.local)[g := rev]
    ensures refs.remote == old(refs.remote) || refs.remote == old(refs.remote)[g := rev]
  {
    var changed := MembersChangedBetween(trees, now, g, now.groups[g].pin, tags);
    if changed.Err? {
      return Some(Unreadable(g));
    }
    EmptyChanges(changed.value, MembersChanged(trees[now.groups[g].pin].fleet, now, g, tags));
    if |changed.value| > 0 {
      return Some(Refused(g));
    }
    var ok := refs.SetRef(g, rev);
    if !ok {
      return Some(GitFailed(g));
    }
    ok := refs.PushRef(g);
    return if ok then None else Some(GitFailed(g));
  }

  /** EnsureRingsContain: the rings moved and pushed are an initial segment of the
      sorted list, each past the guard. An error names the ring after them - so a
      refusal leaves everything in place exactly when it names the first one. canRead
      says whether the repository can read old revisions at all: without that the
      answer is a success that moved nothing, whatever lags. */
  method EnsureRingsContain(refs: Refs, canRead: bool, trees: map<string, Tree>, now: Fleet, tags: seq<string>,
      rev: string)
    returns (out: Outcome, groups: seq<string>, k: nat)
    modifies refs
    ensures k <= |groups| && Sorted(groups) && Distinct(groups)
    ensures forall g :: g in groups <==> rev != "" && ToMove(now, tags, rev, g)
    ensures forall j :: 0 <= j < k ==> Guard(trees, now, tags, groups[j])
    ensures forall j :: 0 <= j < k ==> Spared(trees, now, tags, groups[j])
    ensures out.Refused? ==> !Spared(trees, now, tags, out.group)
    ensures out.Advanced? ==> (out.groups == groups <==> canRead || groups == [])
    ensures !canRead ==> out == Advanced([]) && k == 0
    ensures match out
            case Advanced(moved) => moved == groups[..k] && (canRead ==> k == |groups|)
            case Unreadable(g) => k < |groups| && g == groups[k] && PinOf(now.groups, g) !in trees
            case Refused(g) => k < |groups| && g == groups[k] && PinOf(now.groups, g) in trees &&
                !Guard(trees, now, tags, g)
            case GitFailed(g) => k < |groups| && g == groups[k] && Guard(trees, now, tags, g) && refs.faulty
    ensures MovedUpTo(old(refs.local), refs.local, groups, k, rev, out.GitFailed?)
    ensures MovedUpTo(old(refs.remote), refs.remote, groups, k, rev, out.GitFailed?)
  {
    hide Guard, Untouched, ToMove, Sorted, Distinct, Moved;
    groups, k := [], 0;
    if rev == "" || tags == [] {
      NothingMoves(refs.local, now, tags, rev);
      NothingMoves(refs.remote, now, tags, rev);
      return Advanced([]), groups, k;
    }
    groups := RingsToMove(now, tags, rev);
    if !canRead {
      NothingMoves(refs.local, now, tags, rev);
      NothingMoves(refs.remote, now, tags, rev);
      return Advanced([]), groups, 0;
    }
    NothingMoves(refs.local, now, tags, rev);
    NothingMoves(refs.remote, now, tags, rev);
    while k < |groups|
      invariant k <= |groups|
      invariant forall j :: 0 <= j < k ==> Guard(trees, now, tags, groups[j]) && Spared(trees, now, tags, groups[j])
      invariant refs.local == Moved(old(refs.local), groups[..k], rev)
      invariant refs.remote == Moved(old(refs.remote), groups[..k], rev)
    {
      var g := groups[k];
      InTheFleet(now, tags, rev, g);
      var stopped := AdvanceRing(refs, trees, now, tags, rev, g);
      GuardProtects(trees, now, tags, g);
      MovedStep(old(refs.local), groups, k, rev);
      MovedStep(old(refs.remote), groups, k, rev);
      if stopped.Some? {
        return stopped.value, groups, k;
      }
      k := k + 1;
    }
    return Advanced(groups), groups, k;
  }

  /** The first k rings moved; after a git failure the next one may have too. */
  predicate MovedUpTo(before: map<string, string>, after: map<string, string>, groups: seq<string>, k: nat, rev: string,
      failed: bool)
    requires k <= |groups|
  {
    after == Moved(before, groups[..k], rev) || (failed && k < |groups| && after == Moved(before, groups[..k + 1], rev))
  }

  lemma NothingMoves(refs: map<string, string>, now: Fleet, tags: seq<string>, rev: string)
    ensures Moved(refs, [], rev) == refs
    ensures Sorted([]) && Distinct<string>([])
    ensures tags == [] ==> forall g :: !ToMove(now, tags, rev, g)
  {
  }

  lemma InTheFleet(now: Fleet, tags: seq<string>, rev: string, g: string)
    requires ToMove(now, tags, rev, g)
    ensures g in now.groups
  {
  }

  lemma EmptyChanges(list: seq<string>, s: set<string>)
    requires Elements(list) == s
    ensures |list| == 0 <==> s == {}
  {
    if list != [] {
      assert list[0] in Elements(list);
    }
  }

  lemma MovedStep(refs: map<string, string>, groups: seq<string>, k: nat, rev: string)
    requires k < |groups|
    ensures Moved(refs, groups[..k], rev)[groups[k] := rev] == Moved(refs, groups[..k + 1], rev)
  {
    assert groups[..k + 1] == groups[..k] + [groups[k]];
  }

  // ---- Two things the method does not promise -------------------------

  /** An error can leave a moved ring behind: of two rings in order, the first
      passes the guard and the second one's old document cannot be read. */
  lemma ErrorAfterAMove()
    ensures exists trees: map<string, Tree>, now: Fleet ::
              Lags(now, "r", "a") && Lags(now, "r", "b") && Guard(trees, now, ["t"], "a") &&
                  !Guard(trees, now, ["t"], "b")
  {
    var now := Fleet(None, map["a" := Group("", "p", NO_SCOPE), "b" := Group("", "q", NO_SCOPE)],
                     map["t" := NO_DEVICE.(groups := ["a", "b"])], map[], [], map[], Globals(None, Null));
    var trees := map["p" := Tree("core", now)];
    assert forall tag :: !Member(now, "a", ["t"], tag);
    assert MembersChanged(now, now, "a", ["t"]) == {};
    assert Guard(trees, now, ["t"], "a") && !Guard(trees, now, ["t"], "b");
    assert Lags(now, "r", "a") && Lags(now, "r", "b");
  }

  /** Nobody asks whether a run is in flight. Moving one of its rings and pushing it
      leaves the run its branches exactly when the revision is where the run found
      that branch, locally and on the remote - or is the run's own target, for a
      group it released, which only an operator's re-pin can make lag. */
  lemma MidRunAdvanceIff(f: Rollout.Funnel, hasRefs: bool, now: Fleet, g: string, rev: string)
    requires Rollout.Inv(f, hasRefs) && InFlight(f.run) && Lags(now, rev, g)
    ensures Rollout.Owns(f.(local := Moved(f.local, [g], rev), remote := Moved(f.remote, [g], rev))) <==>
            (rev == f.run.target && Rollout.Released(f, g)) ||
            (g in f.foundLocal && f.foundLocal[g] == rev && g in f.foundRemote && f.foundRemote[g] == rev)
    ensures now.groups[g].pin == f.run.target ==>
              (Rollout.Owns(f.(local := Moved(f.local, [g], rev), remote := Moved(f.remote, [g], rev))) <==>
               g in f.foundLocal && f.foundLocal[g] == rev && g in f.foundRemote && f.foundRemote[g] == rev)
  {
    hide Rollout.Inv, Rollout.Owns, Rollout.Released;
    MovedOne(f.local, g, rev);
    MovedOne(f.remote, g, rev);
    Rollout.ForeignMoveKeepsIff(f, hasRefs, g, rev);
  }

  lemma MovedOne(refs: map<string, string>, g: string, rev: string)
    ensures Moved(refs, [g], rev) == refs[g := rev]
  {
  }
}
