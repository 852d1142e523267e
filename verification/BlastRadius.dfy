// AffectedHosts (hosts.go) and why it is enough: a group or device edit leaves
// the compiled configuration of every device outside the radius untouched.
module BlastRadius {
  import opened Wrappers
  import opened Order
  import opened Fleet
  import opened Resolve
  import opened Gate

  /** The active devices with the group in their expanded ancestry. */
  function GroupRadius(f: Fleet, g: string): set<string> {
    set tag | tag in f.devices && Builds(f, tag) && g in AncestorSet(f, tag)
  }

  /** The inner loop of AffectedHosts over one device's groups. */
  method Contains(f: Fleet, members: seq<string>, g: string) returns (found: bool)
    ensures found <==> Meets(f.groups, members, g)
  {
    for i := 0 to |members|
      invariant forall j :: 0 <= j < i ==> g !in Ancestry(f.groups, members[j])
    {
      var chain := GroupAncestry(f, members[i]);
      if g in chain {
        return true;
      }
    }
    return false;
  }

  /** AffectedHosts: nil means "validate everything". */
  method AffectedHosts(f: Fleet, ref: Target) returns (tags: seq<string>)
    ensures ref.GroupTarget? ==>
              Sorted(tags) && Distinct(tags) && Elements(tags) == GroupRadius(f, ref.group)
    ensures ref.DeviceTarget? ==>
              tags == if ref.tag in f.devices && f.devices[ref.tag].state.Retired? then [] else [ref.tag]
    ensures ref.OrgTarget? || ref.BadTarget? ==> tags == []
  {
    tags := [];
    match ref {
      case DeviceTarget(tag) =>
        if tag in f.devices && f.devices[tag].state.Retired? {
          return [];
        }
        return [tag];
      case GroupTarget(g) =>
        var todo := f.devices.Keys;
        while todo != {}
          invariant todo <= f.devices.Keys
          invariant Distinct(tags)
          invariant forall t :: t in tags <==> t in GroupRadius(f, g) && t !in todo
          decreases todo
        {
          var tag :| tag in todo;
          todo := todo - {tag};
          if Builds(f, tag) {
            var hit := Contains(f, f.devices[tag].groups, g);
            if hit {
              tags := tags + [tag];
            }
          }
        }
        SortSorted(tags);
        SortDistinct(tags);
        tags := Sort(tags);
      case OrgTarget =>
      case BadTarget(_) =>
    }
  }

  // ---- The frame ------------------------------------------------------

  /** Any rewrite of one existing group's record: settings, apps, pin or parent. */
  function WithGroup(f: Fleet, g: string, rec: Group): Fleet {
    f.(groups := f.groups[g := rec])
  }

  function WithDevice(f: Fleet, tag: string, rec: Device): Fleet {
    f.(devices := f.devices[tag := rec])
  }

  lemma {:induction false} ClimbFrame(groups: map<string, Group>, g: string, rec: Group, cur: string, seen: set<string>)
    requires g in groups && g !in Climb(groups, cur, seen) && g !in seen
    ensures Climb(groups[g := rec], cur, seen) == Climb(groups, cur, seen)
    decreases groups.Keys - seen
  {
    assert groups[g := rec].Keys == groups.Keys;
    if cur != "" && cur !in seen && cur in groups {
      ClimbFrame(groups, g, rec, groups[cur].parent, seen + {cur});
    }
  }

  lemma {:induction false} ClimbStillMeets(groups: map<string, Group>, g: string, rec: Group, cur: string,
      seen: set<string>)
    requires g in groups && g in Climb(groups, cur, seen)
    ensures g in Climb(groups[g := rec], cur, seen)
    decreases groups.Keys - seen
  {
    assert groups[g := rec].Keys == groups.Keys;
    if cur != g {
      ClimbMembers(groups, cur, seen);
      ClimbStillMeets(groups, g, rec, groups[cur].parent, seen + {cur});
    }
  }

  lemma AncestryFrame(groups: map<string, Group>, g: string, rec: Group, from: string)
    requires g in groups
    ensures g in Ancestry(groups, from) <==> g in Ancestry(groups[g := rec], from)
    ensures g !in Ancestry(groups, from) ==> Ancestry(groups[g := rec], from) == Ancestry(groups, from)
  {
    if g in Ancestry(groups, from) {
      ClimbStillMeets(groups, g, rec, from, {});
    } else {
      ClimbFrame(groups, g, rec, from, {});
    }
  }

  /** The radius read off the old document is the radius of the new one, even
      when the edit re-parents the group. */
  lemma RadiusStable(f: Fleet, g: string, rec: Group)
    requires g in f.groups
    ensures GroupRadius(WithGroup(f, g, rec), g) == GroupRadius(f, g)
  {
    forall tag ensures g in AncestorSet(f, tag) <==> g in AncestorSet(WithGroup(f, g, rec), tag) {
      MeetsStable(f, g, rec, tag);
    }
  }

  lemma MeetsStable(f: Fleet, g: string, rec: Group, tag: string)
    requires g in f.groups
    ensures g in AncestorSet(f, tag) <==> g in AncestorSet(WithGroup(f, g, rec), tag)
  {
    var members := DeviceAt(f, tag).groups;
    forall i | 0 <= i < |members|
      ensures g in Ancestry(f.groups, members[i]) <==> g in Ancestry(f.groups[g := rec], members[i])
    {
      AncestryFrame(f.groups, g, rec, members[i]);
    }
  }

  lemma AncestorSetFrame(f: Fleet, g: string, rec: Group, tag: string)
    requires g in f.groups && g !in AncestorSet(f, tag)
    ensures AncestorSet(WithGroup(f, g, rec), tag) == AncestorSet(f, tag)
  {
    var members := DeviceAt(f, tag).groups;
    forall i | 0 <= i < |members|
      ensures Ancestry(f.groups[g := rec], members[i]) == Ancestry(f.groups, members[i])
    {
      assert g !in Ancestry(f.groups, members[i]);
      AncestryFrame(f.groups, g, rec, members[i]);
    }
  }

  lemma {:induction false} ScopeOrderFrame(groups: map<string, Group>, g: string, rec: Group, members: seq<string>)
    requires g in groups
    requires forall i :: 0 <= i < |members| ==> g !in Ancestry(groups, members[i])
    ensures ScopeOrder(groups[g := rec], members) == ScopeOrder(groups, members)
    ensures g !in ScopeOrder(groups, members)
  {
    hide Ancestry;
    if members != [] {
      var n := |members| - 1;
      ScopeOrderFrame(groups, g, rec, members[..n]);
      AncestryFrame(groups, g, rec, members[n]);
    }
  }

  lemma {:induction false} MemberAppsFrame(groups: map<string, Group>, g: string, rec: Group, members: seq<string>)
    requires g in groups
    requires forall i :: 0 <= i < |members| ==> g !in Ancestry(groups, members[i])
    ensures MemberApps(groups[g := rec], members) == MemberApps(groups, members)
  {
    if members != [] {
      var n := |members| - 1;
      MemberAppsFrame(groups, g, rec, members[..n]);
      AncestryFrame(groups, g, rec, members[n]);
      AncestryAppsFrame(groups, g, rec, Ancestry(groups, members[n]));
    }
  }

  lemma {:induction false} AncestryAppsFrame(groups: map<string, Group>, g: string, rec: Group, chain: seq<string>)
    requires g !in chain
    ensures AncestryApps(groups[g := rec], chain) == AncestryApps(groups, chain)
  {
    if chain != [] {
      AncestryAppsFrame(groups, g, rec, chain[..|chain| - 1]);
      assert chain[|chain| - 1] != g;
    }
  }

  lemma {:induction false} GroupPartFrame(groups: map<string, Group>, g: string, rec: Group, order: seq<string>)
    requires g !in order
    ensures GroupPart(groups[g := rec], order) == GroupPart(groups, order)
  {
    if order != [] {
      GroupPartFrame(groups, g, rec, order[..|order| - 1]);
      assert order[|order| - 1] != g;
    }
  }

  /** Two documents agree on everything one device's filters can look at. */
  ghost predicate SameView(f: Fleet, f': Fleet, tag: string) {
    && (tag in f.devices <==> tag in f'.devices) && DeviceAt(f, tag) == DeviceAt(f', tag)
    && AncestorSet(f, tag) == AncestorSet(f', tag) && OrderOf(f, tag) == OrderOf(f', tag)
    && f.policies == f'.policies && f.assignments == f'.assignments && f.filters == f'.filters
    && f.org == f'.org
  }

  lemma MatchFrame(f: Fleet, f': Fleet, tag: string, fl: Filter)
    requires SameView(f, f', tag)
    ensures MatchesFilter(f, fl, tag) == MatchesFilter(f', fl, tag)
  {
    forall i | 0 <= i < |fl.rules| ensures MatchesRule(f, fl.rules[i], tag) == MatchesRule(f', fl.rules[i], tag) {
      RuleFrame(f, f', tag, fl.rules[i]);
    }
  }

  lemma RuleFrame(f: Fleet, f': Fleet, tag: string, r: Rule)
    requires SameView(f, f', tag)
    ensures MatchesRule(f, r, tag) == MatchesRule(f', r, tag)
  {
    assert AttrValue(f, r.attr, tag) == AttrValue(f', r.attr, tag);
  }

  lemma {:induction false} PolicyFrame(f: Fleet, f': Fleet, tag: string, n: nat)
    requires SameView(f, f', tag) && n <= |f.assignments|
    ensures PolicyPart(f, tag, n) == PolicyPart(f', tag, n)
  {
    if n > 0 {
      PolicyFrame(f, f', tag, n - 1);
      var a := f.assignments[n - 1];
      if a.filter in f.filters {
        MatchFrame(f, f', tag, f.filters[a.filter]);
      }
    }
  }

  lemma GroupEditSameView(f: Fleet, g: string, rec: Group, tag: string)
    requires g in f.groups && g !in AncestorSet(f, tag)
    ensures SameView(f, WithGroup(f, g, rec), tag) && g !in OrderOf(f, tag)
    ensures MemberApps(f.groups[g := rec], DeviceAt(f, tag).groups) == MemberApps(f.groups, DeviceAt(f, tag).groups)
  {
    AncestorSetFrame(f, g, rec, tag);
    ScopeOrderFrame(f.groups, g, rec, DeviceAt(f, tag).groups);
    MemberAppsFrame(f.groups, g, rec, DeviceAt(f, tag).groups);
  }

  lemma GroupEditChainFrame(f: Fleet, g: string, rec: Group, tag: string)
    requires g in f.groups && g !in AncestorSet(f, tag)
    ensures Chain(WithGroup(f, g, rec), tag) == Chain(f, tag)
  {
    GroupEditSameView(f, g, rec, tag);
    GroupPartFrame(f.groups, g, rec, OrderOf(f, tag));
    PolicyFrame(f, WithGroup(f, g, rec), tag, |f.assignments|);
  }

  lemma GroupEditAppsFrame(f: Fleet, g: string, rec: Group, tag: string)
    requires g in f.groups && g !in AncestorSet(f, tag)
    ensures AppsOf(WithGroup(f, g, rec), tag) == AppsOf(f, tag)
    ensures GroupPins(WithGroup(f, g, rec), tag) == GroupPins(f, tag)
  {
    GroupEditSameView(f, g, rec, tag);
    assert GatheredApps(WithGroup(f, g, rec), tag) == GatheredApps(f, tag);
  }

  /** Editing a group - its settings, locks, apps, pin or parent link - changes
      neither the chain, nor the apps, nor the shape of a device that does not
      have the group in its ancestry. Parent links may be cyclic or dangling and
      assignments may filter on group membership. */
  lemma GroupEditFrame(f: Fleet, g: string, rec: Group, tag: string)
    requires g in f.groups && g !in AncestorSet(f, tag)
    ensures Chain(WithGroup(f, g, rec), tag) == Chain(f, tag)
    ensures AppsOf(WithGroup(f, g, rec), tag) == AppsOf(f, tag)
    ensures ShapeOf(WithGroup(f, g, rec), tag) == ShapeOf(f, tag)
  {
    GroupEditChainFrame(f, g, rec, tag);
    GroupEditAppsFrame(f, g, rec, tag);
  }

  /** Editing one device's record changes no other device. */
  lemma DeviceEditFrame(f: Fleet, edited: string, rec: Device, tag: string)
    requires tag != edited
    ensures Chain(WithDevice(f, edited, rec), tag) == Chain(f, tag)
    ensures ShapeOf(WithDevice(f, edited, rec), tag) == ShapeOf(f, tag)
  {
    var f' := WithDevice(f, edited, rec);
    assert SameView(f, f', tag);
    PolicyFrame(f, f', tag, |f.assignments|);
    assert Chain(f', tag) == Chain(f, tag);
  }

  /** The radius is tight: moving a group's pin changes a device's shape exactly
      when the group is in the device's ancestry. */
  lemma PinReachesExactlyTheRadius(f: Fleet, g: string, pin: string, tag: string)
    requires g in f.groups && pin != f.groups[g].pin
    ensures ShapeOf(WithGroup(f, g, f.groups[g].(pin := pin)), tag) != ShapeOf(f, tag) <==> g in AncestorSet(f, tag)
  {
    var rec := f.groups[g].(pin := pin);
    if g in AncestorSet(f, tag) {
      MeetsStable(f, g, rec, tag);
      assert ShapeOf(WithGroup(f, g, rec), tag).groupPins[g] == pin;
      assert ShapeOf(f, tag).groupPins[g] == f.groups[g].pin;
    } else {
      GroupEditFrame(f, g, rec, tag);
    }
  }

  // ---- What a scoped gate may rely on --------------------------------

  function ViewOf(f: Fleet): View<Globals, Shape> {
    View(f.globals, Built(f))
  }

  /** A group edit is covered by hosts that include the radius the group has in the
      document it lands on. */
  lemma GroupEditCovered(f: Fleet, g: string, rec: Group, hosts: seq<string>)
    requires g in f.groups && GroupRadius(f, g) <= Elements(hosts)
    ensures Covers(ViewOf(f), ViewOf(WithGroup(f, g, rec)), hosts)
  {
    forall tag | Builds(WithGroup(f, g, rec), tag) && tag !in hosts
      ensures ShapeOf(WithGroup(f, g, rec), tag) == ShapeOf(f, tag)
    {
      assert tag !in Elements(hosts);
      assert tag !in GroupRadius(f, g);
      GroupEditFrame(f, g, rec, tag);
    }
  }

  lemma DeviceEditCovered(f: Fleet, edited: string, rec: Device, hosts: seq<string>)
    requires edited in hosts
    ensures Covers(ViewOf(f), ViewOf(WithDevice(f, edited, rec)), hosts)
  {
    forall tag | Builds(WithDevice(f, edited, rec), tag) && tag !in hosts
      ensures ShapeOf(WithDevice(f, edited, rec), tag) == ShapeOf(f, tag)
    {
      DeviceEditFrame(f, edited, rec, tag);
    }
  }
}
