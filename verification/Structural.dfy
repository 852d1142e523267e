// The structural edits of the console (internal/domain/fleet/device.go), which skip
// the evaluator: what they change of what devices build.
module Structural {
  import opened Wrappers
  import opened Order
  import opened Fleet
  import opened Resolve
  import opened Gate
  import opened BlastRadius

  /** RetireDevice: the device stops building, and no other device notices. */
  function Retired(f: Fleet, tag: string): Fleet
    requires tag in f.devices
  {
    WithDevice(f, tag, f.devices[tag].(state := Lifecycle.Retired))
  }

  lemma RetiringIsHarmless(accept: Key<Globals, Shape> -> bool, source: string, f: Fleet, tag: string)
    requires tag in f.devices
    ensures Harmless(accept, source, ViewOf(f), ViewOf(Retired(f, tag)))
  {
    hide ShapeOf;
    var f' := Retired(f, tag);
    forall u | u in ViewOf(f').built
      ensures u in ViewOf(f).built && KeyOf(source, ViewOf(f), u) == KeyOf(source, ViewOf(f'), u)
    {
      assert u != tag;
      DeviceEditFrame(f, tag, f.devices[tag].(state := Lifecycle.Retired), u);
    }
    HarmlessIsExact(source, ViewOf(f), ViewOf(f'));
  }

  /** AddGroup. */
  function WithNewGroup(f: Fleet, name: string, rec: Group): Fleet {
    WithGroup(f, name, rec)
  }

  lemma {:induction false} ClimbWithout(groups: map<string, Group>, name: string, rec: Group, cur: string,
      seen: set<string>)
    requires name !in groups && name != "" && name !in seen && name !in Climb(groups[name := rec], cur, seen)
    ensures Climb(groups, cur, seen) == Climb(groups[name := rec], cur, seen)
    decreases groups[name := rec].Keys - seen
  {
    if cur != "" && cur !in seen && cur in groups {
      ClimbWithout(groups, name, rec, groups[cur].parent, seen + {cur});
    }
  }

  lemma {:induction false} OrderWithout(groups: map<string, Group>, name: string, rec: Group, members: seq<string>)
    requires name !in groups && name != ""
    requires forall i :: 0 <= i < |members| ==> name !in Ancestry(groups[name := rec], members[i])
    ensures ScopeOrder(groups[name := rec], members) == ScopeOrder(groups, members)
    ensures MemberApps(groups[name := rec], members) == MemberApps(groups, members)
    ensures name !in ScopeOrder(groups, members)
  {
    if members != [] {
      var n := |members| - 1;
      OrderWithout(groups, name, rec, members[..n]);
      ClimbWithout(groups, name, rec, members[n], {});
      AncestryAppsFrame(groups, name, rec, Ancestry(groups, members[n]));
    }
  }

  lemma ViewWithout(f: Fleet, name: string, rec: Group, tag: string)
    requires name !in f.groups && name != "" && name !in AncestorSet(WithNewGroup(f, name, rec), tag)
    ensures SameView(f, WithNewGroup(f, name, rec), tag) && name !in OrderOf(f, tag)
    ensures MemberApps(f.groups[name := rec], DeviceAt(f, tag).groups) == MemberApps(f.groups, DeviceAt(f, tag).groups)
  {
    var members := DeviceAt(f, tag).groups;
    var f' := WithNewGroup(f, name, rec);
    forall i | 0 <= i < |members|
      ensures name !in Ancestry(f'.groups, members[i]) &&
              Ancestry(f.groups, members[i]) == Ancestry(f'.groups, members[i])
    {
      assert name !in Ancestry(f'.groups, members[i]);
      ClimbWithout(f.groups, name, rec, members[i], {});
    }
    OrderWithout(f.groups, name, rec, members);
    hide MemberApps, ScopeOrder, Ancestry;
    assert AncestorSet(f, tag) == AncestorSet(f', tag);
  }

  lemma ChainWithout(f: Fleet, name: string, rec: Group, tag: string)
    requires name !in f.groups && name !in OrderOf(f, tag) && SameView(f, WithNewGroup(f, name, rec), tag)
    ensures Chain(WithNewGroup(f, name, rec), tag) == Chain(f, tag)
  {
    var f' := WithNewGroup(f, name, rec);
    GroupPartFrame(f.groups, name, rec, OrderOf(f, tag));
    PolicyFrame(f, f', tag, |f.assignments|);
    hide PolicyPart, GroupPart, AncestorSet;
  }

  lemma AppsWithout(f: Fleet, name: string, rec: Group, tag: string)
    requires MemberApps(f.groups[name := rec], DeviceAt(f, tag).groups) == MemberApps(f.groups, DeviceAt(f, tag).groups)
    ensures AppsOf(WithNewGroup(f, name, rec), tag) == AppsOf(f, tag)
  {
    hide MemberApps, DedupedApps;
  }

  lemma ShapeWithout(f: Fleet, name: string, rec: Group, tag: string)
    requires name !in f.groups && name != "" && name !in AncestorSet(WithNewGroup(f, name, rec), tag)
    ensures ShapeOf(WithNewGroup(f, name, rec), tag) == ShapeOf(f, tag)
  {
    hide AncestorSet, Chain, AppsOf, GroupPins, MemberApps, SettingsFrom, OrderOf;
    ViewWithout(f, name, rec, tag);
    ChainWithout(f, name, rec, tag);
    AppsWithout(f, name, rec, tag);
    PinsWithout(f, name, rec, tag);
  }

  lemma PinsWithout(f: Fleet, name: string, rec: Group, tag: string)
    requires name !in AncestorSet(WithNewGroup(f, name, rec), tag) && SameView(f, WithNewGroup(f, name, rec), tag)
    ensures GroupPins(WithNewGroup(f, name, rec), tag) == GroupPins(f, tag)
  {
  }

  lemma AncestorsExist(f: Fleet, tag: string)
    ensures AncestorSet(f, tag) <= f.groups.Keys
  {
    forall g | g in AncestorSet(f, tag) ensures g in f.groups {
      var i :| 0 <= i < |DeviceAt(f, tag).groups| && g in Ancestry(f.groups, DeviceAt(f, tag).groups[i]);
      ClimbMembers(f.groups, DeviceAt(f, tag).groups[i], {});
    }
  }

  /** Adding a group changes a device's shape exactly when a membership or a parent
      link that named it before it existed puts it in the device's ancestry. */
  lemma NewGroupReaches(f: Fleet, name: string, rec: Group, tag: string)
    requires name !in f.groups && name != ""
    ensures ShapeOf(WithNewGroup(f, name, rec), tag) != ShapeOf(f, tag) <==>
            name in AncestorSet(WithNewGroup(f, name, rec), tag)
  {
    if name in AncestorSet(WithNewGroup(f, name, rec), tag) {
      AncestorsExist(f, tag);
      assert name in ShapeOf(WithNewGroup(f, name, rec), tag).groupPins;
      assert name !in ShapeOf(f, tag).groupPins;
    } else {
      ShapeWithout(f, name, rec, tag);
    }
  }

  /** So the edit meets the structural contract under every evaluator exactly when no
      active device has the new group in its ancestry. */
  lemma AddGroupIsHarmlessIff(source: string, f: Fleet, name: string, rec: Group)
    requires name !in f.groups && name != ""
    ensures (forall accept: Key<Globals, Shape> -> bool ::
            Harmless(accept, source, ViewOf(f), ViewOf(WithNewGroup(f, name, rec)))) <==>
            GroupRadius(WithNewGroup(f, name, rec), name) == {}
  {
    var f' := WithNewGroup(f, name, rec);
    HarmlessIsExact(source, ViewOf(f), ViewOf(f'));
    forall tag ensures Builds(f', tag) <==> Builds(f, tag) {
    }
    forall tag | tag in ViewOf(f').built
      ensures KeyOf(source, ViewOf(f), tag) == KeyOf(source, ViewOf(f'), tag) <==> tag !in GroupRadius(f', name)
    {
      NewGroupReaches(f, name, rec, tag);
    }
    hide ShapeOf, AncestorSet;
    if GroupRadius(f', name) != {} {
      var tag :| tag in GroupRadius(f', name);
      assert tag in ViewOf(f').built;
    }
  }

  /** A device enrolled into a group that does not exist yet: creating the group
      changes what it builds, and no evaluator is asked. */
  lemma DanglingMembershipChangesShape(rec: Group)
    ensures var f := Fleet(None, map[], map["a" := NO_DEVICE.(groups := ["g"])], map[], [], map[], Globals(None, Null));
            ShapeOf(WithNewGroup(f, "g", rec), "a") != ShapeOf(f, "a")
  {
    var f := Fleet(None, map[], map["a" := NO_DEVICE.(groups := ["g"])], map[], [], map[], Globals(None, Null));
    var f' := WithNewGroup(f, "g", rec);
    var none: set<string> := {};
    assert Climb(f'.groups, "g", none) == Climb(f'.groups, rec.parent, none + {"g"}) + ["g"];
    assert f'.devices["a"].groups[0] == "g";
    NewGroupReaches(f, "g", rec, "a");
  }
}
