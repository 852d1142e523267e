// The fleet document (fleet.json) and what a device's configuration is compiled
// from: the group tree, the scope chain, filters, assigned policies, additive
// app lists, and the configuration shape the gate samples on.
module Fleet {
  import opened Wrappers
  import opened Order

  datatype Value = Null | Flag(on: bool) | Number(n: int) | Words(text: string) | Items(items: seq<Value>)

  datatype Apps = Apps(packages: seq<string>, flatpaks: seq<string>, overlays: seq<string>)

  /** What one scope sets directly: settings, the keys it locks, its apps. */
  datatype Scope = Scope(settings: map<string, Value>, enforced: seq<string>, apps: Apps)

  datatype Group = Group(parent: string, pin: string, own: Scope)

  datatype Lifecycle = Active | Provisional | Retired

  datatype Device = Device(
    state: Lifecycle, pin: string, groups: seq<string>, assignedUser: string,
    cls: string, hardware: string, labels: map<string, string>, own: Scope)

  datatype Policy = Policy(
    name: string, description: string, controls: seq<string>, conditions: seq<string>,
    profile: string, settings: map<string, Value>, enforced: seq<string>)

  datatype Target = OrgTarget | GroupTarget(group: string) | DeviceTarget(tag: string) | BadTarget(text: string)

  datatype Assignment = Assignment(policy: string, target: Target, filter: string)

  datatype Op = Eq | Ne | Prefix | In | BadOp
  datatype Attr = TagAttr | ClassAttr | HardwareAttr | UserAttr | GroupAttr | LabelAttr(key: string) | BadAttr
  datatype Match = Unset | All | Any | BadMatch
  datatype Rule = Rule(attr: Attr, op: Op, value: string, values: seq<string>)
  datatype Filter = Filter(match_: Match, rules: seq<Rule>)

  datatype Ring = Ring(groups: seq<string>, requireApproval: bool)
  datatype Plan = Plan(rings: seq<Ring>, autoFlow: Option<bool>)

  /** The top-level fields outside the resolver's reach. */
  datatype Globals = Globals(rollout: Option<Plan>, rest: Value)

  datatype Fleet = Fleet(
    org: Option<Scope>, groups: map<string, Group>, devices: map<string, Device>,
    policies: map<string, Policy>, assignments: seq<Assignment>, filters: map<string, Filter>,
    globals: Globals)

  const NO_APPS := Apps([], [], [])
  const NO_SCOPE := Scope(map[], [], NO_APPS)
  const NO_DEVICE := Device(Active, "", [], "", "", "", map[], NO_SCOPE)

  /** Reading a Go map: an absent tag yields the zero device. */
  function DeviceAt(f: Fleet, tag: string): Device {
    if tag in f.devices then f.devices[tag] else NO_DEVICE
  }

  /** Devices that build: enrolled and not retired. */
  predicate Builds(f: Fleet, tag: string) {
    tag in f.devices && !f.devices[tag].state.Retired?
  }

  // ---- The group tree -------------------------------------------------

  /** The parent walk from cur, general to specific, cut at the first missing
      or already visited group. */
  function Climb(groups: map<string, Group>, cur: string, seen: set<string>): (chain: seq<string>)
    decreases groups.Keys - seen
  {
    if cur == "" || cur in seen || cur !in groups then []
    else Climb(groups, groups[cur].parent, seen + {cur}) + [cur]
  }

  function Ancestry(groups: map<string, Group>, g: string): (chain: seq<string>) {
    Climb(groups, g, {})
  }

  /** GroupAncestry, as the loop the console runs. */
  method GroupAncestry(f: Fleet, g: string) returns (chain: seq<string>)
    ensures chain == Ancestry(f.groups, g)
  {
    chain := [];
    var seen: set<string> := {};
    var cur := g;
    while cur != ""
      invariant Climb(f.groups, cur, seen) + chain == Ancestry(f.groups, g)
      decreases f.groups.Keys - seen, cur != ""
    {
      if cur in seen {
        break;
      }
      if cur !in f.groups {
        break;
      }
      assert Climb(f.groups, cur, seen) == Climb(f.groups, f.groups[cur].parent, seen + {cur}) + [cur];
      seen := seen + {cur};
      chain := [cur] + chain;
      cur := f.groups[cur].parent;
    }
  }

  /** One of the listed groups has g in its ancestry. */
  predicate Meets(groups: map<string, Group>, members: seq<string>, g: string) {
    exists i :: 0 <= i < |members| && g in Ancestry(groups, members[i])
  }

  function AncestorsOf(groups: map<string, Group>, members: seq<string>): (r: set<string>)
    ensures forall g :: g in r <==> Meets(groups, members, g)
  {
    set i, a | 0 <= i < |members| && a in Ancestry(groups, members[i]) :: a
  }

  /** Every ancestor of every group the device lists. */
  function AncestorSet(f: Fleet, tag: string): set<string> {
    AncestorsOf(f.groups, DeviceAt(f, tag).groups)
  }

  lemma {:induction false} ClimbMembers(groups: map<string, Group>, cur: string, seen: set<string>)
    ensures forall a :: a in Climb(groups, cur, seen) ==> a in groups && a !in seen && a != ""
    decreases groups.Keys - seen
  {
    if cur != "" && cur !in seen && cur in groups {
      ClimbMembers(groups, groups[cur].parent, seen + {cur});
    }
  }

  lemma {:induction false} ClimbDistinct(groups: map<string, Group>, cur: string, seen: set<string>)
    ensures Distinct(Climb(groups, cur, seen))
    decreases groups.Keys - seen
  {
    if cur != "" && cur !in seen && cur in groups {
      ClimbDistinct(groups, groups[cur].parent, seen + {cur});
      ClimbMembers(groups, groups[cur].parent, seen + {cur});
    }
  }

  // An independent reading of "ancestor": k parent links from g, every group
  // on the way existing.

  ghost predicate ReachesIn(groups: map<string, Group>, g: string, a: string, k: nat)
    decreases k
  {
    g != "" && g in groups && (if k == 0 then g == a else ReachesIn(groups, groups[g].parent, a, k - 1))
  }

  ghost predicate IsAncestor(groups: map<string, Group>, g: string, a: string) {
    exists k: nat :: ReachesIn(groups, g, a, k)
  }

  lemma {:induction false} ClimbReaches(groups: map<string, Group>, cur: string, seen: set<string>, a: string)
      returns (k: nat)
    requires a in Climb(groups, cur, seen)
    ensures ReachesIn(groups, cur, a, k)
    decreases groups.Keys - seen
  {
    if a == cur {
      k := 0;
    } else {
      var j := ClimbReaches(groups, groups[cur].parent, seen + {cur}, a);
      k := j + 1;
    }
  }

  /** Cutting the walk at a repeat loses nothing: whatever is not in the chain
      was already visited. */
  lemma {:induction false} ClimbClosed(groups: map<string, Group>, cur: string, seen: set<string>, a: string)
    requires a in Climb(groups, cur, seen)
    ensures a in groups
    ensures var p := groups[a].parent;
            p != "" && p in groups ==> p in Climb(groups, cur, seen) || p in seen
    decreases groups.Keys - seen
  {
    ClimbMembers(groups, cur, seen);
    var up := groups[cur].parent;
    if a != cur {
      ClimbClosed(groups, up, seen + {cur}, a);
    } else if up != "" && up in groups && up !in seen + {cur} {
      assert up in Climb(groups, up, seen + {cur});
    }
  }

  lemma {:induction false} ReachedIsClimbed(groups: map<string, Group>, g: string, from: string, a: string, k: nat)
    requires from in Ancestry(groups, g) && ReachesIn(groups, from, a, k)
    ensures a in Ancestry(groups, g)
    decreases k
  {
    if k > 0 {
      ClimbClosed(groups, g, {}, from);
      ReachedIsClimbed(groups, g, groups[from].parent, a, k - 1);
    }
  }

  /** Even over cyclic or dangling parent links, the walk yields exactly the
      groups reachable over existing parents, each once. */
  lemma AncestryIsReachability(groups: map<string, Group>, g: string, a: string)
    ensures a in Ancestry(groups, g) <==> IsAncestor(groups, g, a)
    ensures Distinct(Ancestry(groups, g))
  {
    ClimbDistinct(groups, g, {});
    if a in Ancestry(groups, g) {
      var k := ClimbReaches(groups, g, {}, a);
    }
    if IsAncestor(groups, g, a) {
      var k: nat :| ReachesIn(groups, g, a, k);
      assert g in Climb(groups, g, {});
      ReachedIsClimbed(groups, g, g, a, k);
    }
  }

  /** One of the listed groups has g in its ancestry when g is reached from it. */
  lemma ReachesIsMeets(groups: map<string, Group>, members: seq<string>, g: string)
    ensures Meets(groups, members, g) <==> exists i :: 0 <= i < |members| && IsAncestor(groups, members[i], g)
  {
    hide IsAncestor, Ancestry;
    forall i | 0 <= i < |members| ensures g in Ancestry(groups, members[i]) <==> IsAncestor(groups, members[i], g) {
      AncestryIsReachability(groups, members[i], g);
    }
  }

  // ---- The scope chain ------------------------------------------------

  /** The device's group scopes in chain order: each listed group's ancestry,
      root to leaf, in membership order, first seen first. */
  function ScopeOrder(groups: map<string, Group>, members: seq<string>): (r: seq<string>)
    ensures Distinct(r)
  {
    if members == [] then []
    else AddNew(ScopeOrder(groups, members[..|members| - 1]), Ancestry(groups, members[|members| - 1]))
  }

  datatype Ref = OrgRef | GroupRef(group: string) | DeviceRef

  function OrderOf(f: Fleet, tag: string): seq<string> {
    ScopeOrder(f.groups, DeviceAt(f, tag).groups)
  }

  /** Org, then the groups in chain order. */
  function ScopePlaces(order: seq<string>): (pos: map<Ref, int>)
    ensures forall r :: r in pos <==> r == OrgRef || (r.GroupRef? && r.group in order)
  {
    if order == [] then map[OrgRef := 0]
    else
      var n := |order| - 1;
      assert order == order[..n] + [order[n]];
      ScopePlaces(order[..n])[GroupRef(order[n]) := n + 1]
  }

  function PositionsOf(order: seq<string>): map<Ref, int> {
    ScopePlaces(order)[DeviceRef := |order| + 1]
  }

  lemma {:induction false} PlaceOf(order: seq<string>, i: nat)
    requires Distinct(order) && i < |order|
    ensures PositionsOf(order)[GroupRef(order[i])] == i + 1 == ScopePlaces(order)[GroupRef(order[i])]
    ensures PositionsOf(order)[OrgRef] == 0
  {
    var n := |order| - 1;
    OrgIsFirst(order);
    if i < n {
      PlaceOf(order[..n], i);
    }
  }

  /** The device stands after everything else on its chain. */
  lemma {:induction false} DeviceIsLast(order: seq<string>, ref: Ref)
    requires ref in PositionsOf(order) && ref != DeviceRef
    ensures 0 <= PositionsOf(order)[ref] < PositionsOf(order)[DeviceRef] == |order| + 1
  {
    if order != [] && ref != GroupRef(order[|order| - 1]) {
      DeviceIsLast(order[..|order| - 1], ref);
    }
  }

  lemma {:induction false} OrgIsFirst(order: seq<string>)
    ensures ScopePlaces(order)[OrgRef] == 0
  {
    if order != [] {
      OrgIsFirst(order[..|order| - 1]);
    }
  }

  lemma PositionsGrow(order: seq<string>, g: string)
    ensures ScopePlaces(order + [g]) == ScopePlaces(order)[GroupRef(g) := |order| + 1]
  {
    assert (order + [g])[..|order|] == order;
  }

  /** Gives the next positions to the groups of one ancestry not seen yet. */
  method Place(pos0: map<Ref, int>, next0: int, ghost order0: seq<string>, chain: seq<string>)
    returns (pos: map<Ref, int>, next: int)
    requires pos0 == ScopePlaces(order0) && next0 == |order0| + 1
    ensures pos == ScopePlaces(AddNew(order0, chain)) && next == |AddNew(order0, chain)| + 1
  {
    pos, next := pos0, next0;
    ghost var order := order0;
    for j := 0 to |chain|
      invariant AddNew(order, chain[j..]) == AddNew(order0, chain)
      invariant pos == ScopePlaces(order) && next == |order| + 1
    {
      assert chain[j..][1..] == chain[j + 1..];
      if GroupRef(chain[j]) !in pos {
        PositionsGrow(order, chain[j]);
        pos := pos[GroupRef(chain[j]) := next];
        order := order + [chain[j]];
        next := next + 1;
      }
    }
  }

  lemma ScopeOrderStep(groups: map<string, Group>, members: seq<string>, i: nat)
    requires i < |members|
    ensures ScopeOrder(groups, members[..i + 1]) == AddNew(ScopeOrder(groups, members[..i]), Ancestry(groups, members[i]))
  {
    assert members[..i + 1][..i] == members[..i];
  }

  /** scopePositions: general to specific, org 0, groups 1.., device last. */
  method ScopePositions(f: Fleet, tag: string) returns (pos: map<Ref, int>)
    ensures pos == PositionsOf(OrderOf(f, tag))
  {
    pos := map[OrgRef := 0];
    var next := 1;
    var members := DeviceAt(f, tag).groups;
    for i := 0 to |members|
      invariant pos == ScopePlaces(ScopeOrder(f.groups, members[..i]))
      invariant next == |ScopeOrder(f.groups, members[..i])| + 1
    {
      var chain := GroupAncestry(f, members[i]);
      ScopeOrderStep(f.groups, members, i);
      pos, next := Place(pos, next, ScopeOrder(f.groups, members[..i]), chain);
    }
    assert members[..|members|] == members;
    pos := pos[DeviceRef := next];
  }

  // ---- Filters --------------------------------------------------------

  predicate HasPrefix(s: string, p: string) {
    p <= s
  }

  function AttrValue(f: Fleet, attr: Attr, tag: string): Option<string> {
    var d := DeviceAt(f, tag);
    match attr
    case TagAttr => Some(tag)
    case ClassAttr => Some(d.cls)
    case HardwareAttr => Some(d.hardware)
    case UserAttr => Some(d.assignedUser)
    case LabelAttr(k) => Some(if k in d.labels then d.labels[k] else "")
    case GroupAttr => None
    case BadAttr => None
  }

  /** matchesRule: unknown attributes and operators never match. */
  predicate MatchesRule(f: Fleet, r: Rule, tag: string) {
    if tag !in f.devices then false
    else if r.attr.GroupAttr? then
      var within := AncestorSet(f, tag);
      match r.op
      case Eq => r.value in within
      case Ne => r.value !in within
      case Prefix => exists g :: g in within && HasPrefix(g, r.value)
      case In => exists v :: v in r.values && v in within
      case BadOp => false
    else
      match AttrValue(f, r.attr, tag)
      case None => false
      case Some(got) =>
        match r.op
        case Eq => got == r.value
        case Ne => got != r.value
        case Prefix => got != "" && HasPrefix(got, r.value)
        case In => got in r.values
        case BadOp => false
  }

  /** matchesFilter: no rules selects nothing; an unknown match mode neither
      fails nor succeeds on a rule and ends without a match. */
  predicate MatchesFilter(f: Fleet, fl: Filter, tag: string) {
    fl.rules != [] &&
    match fl.match_
    case Unset => forall i :: 0 <= i < |fl.rules| ==> MatchesRule(f, fl.rules[i], tag)
    case All => forall i :: 0 <= i < |fl.rules| ==> MatchesRule(f, fl.rules[i], tag)
    case Any => exists i :: 0 <= i < |fl.rules| && MatchesRule(f, fl.rules[i], tag)
    case BadMatch => false
  }

  /** The membership a group rule tests: every ancestor of every listed group. */
  method Membership(f: Fleet, tag: string) returns (within: set<string>)
    ensures within == AncestorSet(f, tag)
  {
    within := {};
    var members := DeviceAt(f, tag).groups;
    for i := 0 to |members|
      invariant within == AncestorsOf(f.groups, members[..i])
    {
      var chain := GroupAncestry(f, members[i]);
      ghost var before := within;
      for j := 0 to |chain|
        invariant within == before + Elements(chain[..j])
      {
        assert chain[..j + 1] == chain[..j] + [chain[j]];
        within := within + {chain[j]};
      }
      assert chain[..|chain|] == chain;
      AncestorsStep(f.groups, members, i);
    }
    assert members[..|members|] == members;
  }

  lemma AncestorsStep(groups: map<string, Group>, members: seq<string>, i: nat)
    requires i < |members|
    ensures AncestorsOf(groups, members[..i + 1]) == AncestorsOf(groups, members[..i]) + Elements(Ancestry(groups, members[i]))
  {
    var a, b := members[..i], members[..i + 1];
    forall g ensures Meets(groups, b, g) <==> Meets(groups, a, g) || g in Ancestry(groups, members[i]) {
      if Meets(groups, a, g) {
        var k :| 0 <= k < |a| && g in Ancestry(groups, a[k]);
        assert b[k] == a[k];
      }
      if g in Ancestry(groups, members[i]) {
        assert b[i] == members[i];
      }
    }
  }

  /** matchesFilter, as it runs: the mode decides which rule ends the loop. */
  method FilterMatches(f: Fleet, fl: Filter, tag: string) returns (ok: bool)
    ensures ok == MatchesFilter(f, fl, tag)
  {
    var all := fl.match_ == Unset || fl.match_ == All;
    if fl.rules == [] {
      return false;
    }
    for i := 0 to |fl.rules|
      invariant all ==> forall j :: 0 <= j < i ==> MatchesRule(f, fl.rules[j], tag)
      invariant fl.match_ == Any ==> forall j :: 0 <= j < i ==> !MatchesRule(f, fl.rules[j], tag)
    {
      var hit := MatchesRule(f, fl.rules[i], tag);
      if all && !hit {
        return false;
      }
      if fl.match_ == Any && hit {
        return true;
      }
    }
    return all;
  }

  predicate KnownAttr(attr: Attr) {
    !attr.BadAttr?
  }

  /** The operators against each other, for an enrolled device and a known
      attribute: ne is not-eq, in is eq to one of the values. */
  lemma OperatorsAgree(f: Fleet, attr: Attr, value: string, values: seq<string>, tag: string)
    requires tag in f.devices && KnownAttr(attr)
    ensures MatchesRule(f, Rule(attr, Ne, value, values), tag) <==> !MatchesRule(f, Rule(attr, Eq, value, values), tag)
    ensures MatchesRule(f, Rule(attr, In, value, values), tag) <==>
            exists v :: v in values && MatchesRule(f, Rule(attr, Eq, v, values), tag)
  {
    if attr.GroupAttr? {
      assert forall v :: MatchesRule(f, Rule(attr, Eq, v, values), tag) <==> v in AncestorSet(f, tag);
    } else {
      var got := AttrValue(f, attr, tag).value;
      assert forall v :: MatchesRule(f, Rule(attr, Eq, v, values), tag) <==> got == v;
    }
  }

  /** An eq rule reads the field its attribute names. */
  lemma RulesReadTheirField(f: Fleet, tag: string, value: string, values: seq<string>, key: string)
    requires tag in f.devices
    ensures var d := f.devices[tag];
            && (MatchesRule(f, Rule(TagAttr, Eq, value, values), tag) <==> tag == value)
            && (MatchesRule(f, Rule(ClassAttr, Eq, value, values), tag) <==> d.cls == value)
            && (MatchesRule(f, Rule(HardwareAttr, Eq, value, values), tag) <==> d.hardware == value)
            && (MatchesRule(f, Rule(UserAttr, Eq, value, values), tag) <==> d.assignedUser == value)
            && (MatchesRule(f, Rule(LabelAttr(key), Eq, value, values), tag) <==>
                  if key in d.labels then d.labels[key] == value else value == "")
  {
  }

  /** A prefix rule matches what the value extends by something, or is. */
  lemma PrefixMatches(f: Fleet, attr: Attr, value: string, rest: string, values: seq<string>, tag: string)
    requires tag in f.devices && !attr.GroupAttr? && !attr.BadAttr?
    requires MatchesRule(f, Rule(attr, Eq, value + rest, values), tag) && value + rest != ""
    ensures MatchesRule(f, Rule(attr, Prefix, value, values), tag)
  {
    assert value <= value + rest;
  }

  /** A rule more narrows an all-filter and widens an any-filter; one rule alone is
      the same in both. */
  lemma ModesCombine(f: Fleet, rules: seq<Rule>, r: Rule, tag: string, mode: Match)
    requires rules != []
    ensures var (before, after, one) := (Filter(mode, rules), Filter(mode, rules + [r]), Filter(mode, [r]));
            && (mode.All? || mode.Unset? ==>
                  (MatchesFilter(f, after, tag) <==> MatchesFilter(f, before, tag) && MatchesRule(f, r, tag)))
            && (mode.Any? ==>
                  (MatchesFilter(f, after, tag) <==> MatchesFilter(f, before, tag) || MatchesRule(f, r, tag)))
            && (!mode.BadMatch? ==> (MatchesFilter(f, one, tag) <==> MatchesRule(f, r, tag)))
            && !MatchesFilter(f, Filter(mode, []), tag)
            && (mode.BadMatch? ==> !MatchesFilter(f, before, tag))
  {
    var longer := rules + [r];
    assert forall i :: 0 <= i < |rules| ==> longer[i] == rules[i];
    assert longer[|rules|] == r && [r][0] == r;
  }

  /** A filter on a group matches the devices of its whole subtree: those one of
      whose groups reaches it over parent links. */
  lemma GroupFilterCoversTheSubtree(f: Fleet, g: string, values: seq<string>, tag: string)
    requires tag in f.devices
    ensures MatchesRule(f, Rule(GroupAttr, Eq, g, values), tag) <==>
            exists i :: 0 <= i < |f.devices[tag].groups| && IsAncestor(f.groups, f.devices[tag].groups[i], g)
  {
    hide IsAncestor, Ancestry;
    var members := f.devices[tag].groups;
    forall i | 0 <= i < |members| ensures g in Ancestry(f.groups, members[i]) <==> IsAncestor(f.groups, members[i], g) {
      AncestryIsReachability(f.groups, members[i], g);
    }
  }

  lemma {:induction false} ScopeOrderMembers(groups: map<string, Group>, members: seq<string>, g: string)
    ensures g in ScopeOrder(groups, members) <==> exists i :: 0 <= i < |members| && g in Ancestry(groups, members[i])
  {
    if members != [] {
      var n := |members| - 1;
      ScopeOrderMembers(groups, members[..n], g);
      assert forall i :: 0 <= i < n ==> members[..n][i] == members[i];
    }
  }

  /** A target is on a device's chain exactly when it is the organisation, a group
      one of the device's groups reaches, or the device. */
  lemma TargetIsOnTheChain(f: Fleet, target: Target, tag: string)
    ensures TargetPosition(OrderOf(f, tag), target, tag).Some? <==>
            target.OrgTarget? || (target.DeviceTarget? && target.tag == tag) ||
            (target.GroupTarget? && Meets(f.groups, DeviceAt(f, tag).groups, target.group))
  {
    if target.GroupTarget? {
      ScopeOrderMembers(f.groups, DeviceAt(f, tag).groups, target.group);
    }
  }

  // ---- Contributors ---------------------------------------------------

  datatype Source = Source(scope: Ref, policy: string)

  datatype Contributor = Contributor(
    specificity: int, inline: bool, order: nat, source: Source,
    settings: map<string, Value>, enforced: set<string>)

  predicate SaysSomething(own: Scope) {
    |own.settings| > 0 || |own.enforced| > 0
  }

  function Inline(at: int, ref: Ref, own: Scope): Contributor {
    Contributor(at, true, 0, Source(ref, ""), own.settings, Elements(own.enforced))
  }

  function OwnScope(groups: map<string, Group>, g: string): Scope {
    if g in groups then groups[g].own else NO_SCOPE
  }

  /** assignmentPosition. */
  function TargetPosition(order: seq<string>, target: Target, tag: string): Option<int> {
    match target
    case OrgTarget => Some(0)
    case GroupTarget(g) => if g in order then Some(PositionsOf(order)[GroupRef(g)]) else None
    case DeviceTarget(t) => if t == tag then Some(|order| + 1) else None
    case BadTarget(_) => None
  }

  function TargetRef(target: Target): Ref {
    match target
    case OrgTarget => OrgRef
    case GroupTarget(g) => GroupRef(g)
    case DeviceTarget(_) => DeviceRef
    case BadTarget(_) => OrgRef
  }

  predicate Selects(f: Fleet, filter: string, tag: string) {
    filter == "" || (filter in f.filters && MatchesFilter(f, f.filters[filter], tag))
  }

  /** What assignment i contributes to the device, if anything. */
  function Contribution(f: Fleet, tag: string, i: nat): Option<Contributor>
    requires i < |f.assignments|
  {
    var a := f.assignments[i];
    var at := TargetPosition(OrderOf(f, tag), a.target, tag);
    if a.policy !in f.policies || at.None? || !Selects(f, a.filter, tag) then None
    else
      var p := f.policies[a.policy];
      Some(Contributor(at.value, false, i, Source(TargetRef(a.target), a.policy), p.settings, Elements(p.enforced)))
  }

  function OrgPart(f: Fleet): seq<Contributor> {
    if f.org.Some? && SaysSomething(f.org.value) then [Inline(0, OrgRef, f.org.value)] else []
  }

  function GroupPart(groups: map<string, Group>, order: seq<string>): seq<Contributor> {
    if order == [] then []
    else
      var n := |order| - 1;
      GroupPart(groups, order[..n]) +
      (if SaysSomething(OwnScope(groups, order[n]))
       then [Inline(n + 1, GroupRef(order[n]), OwnScope(groups, order[n]))] else [])
  }

  function DevicePart(f: Fleet, tag: string): seq<Contributor> {
    var own := DeviceAt(f, tag).own;
    if SaysSomething(own) then [Inline(|OrderOf(f, tag)| + 1, DeviceRef, own)] else []
  }

  function PolicyPart(f: Fleet, tag: string, n: nat): seq<Contributor>
    requires n <= |f.assignments|
  {
    if n == 0 then []
    else
      PolicyPart(f, tag, n - 1) +
      (match Contribution(f, tag, n - 1) case None => [] case Some(c) => [c])
  }

  /** The compiled chain, in one canonical order. */
  function Chain(f: Fleet, tag: string): seq<Contributor> {
    OrgPart(f) + GroupPart(f.groups, OrderOf(f, tag)) + DevicePart(f, tag) + PolicyPart(f, tag, |f.assignments|)
  }

  lemma {:induction false} GroupPartMembers(groups: map<string, Group>, order: seq<string>, c: Contributor)
    ensures c in GroupPart(groups, order) <==>
            exists i :: 0 <= i < |order| && SaysSomething(OwnScope(groups, order[i])) &&
                        c == Inline(i + 1, GroupRef(order[i]), OwnScope(groups, order[i]))
  {
    if order != [] {
      var n := |order| - 1;
      GroupPartMembers(groups, order[..n], c);
      if c in GroupPart(groups, order) && c !in GroupPart(groups, order[..n]) {
        assert c == Inline(n + 1, GroupRef(order[n]), OwnScope(groups, order[n]));
      }
    }
  }

  lemma {:induction false} PolicyPartMembers(f: Fleet, tag: string, n: nat, c: Contributor)
    requires n <= |f.assignments|
    ensures c in PolicyPart(f, tag, n) <==>
            exists i :: 0 <= i < n && Contribution(f, tag, i) == Some(c)
  {
    if n > 0 {
      PolicyPartMembers(f, tag, n - 1, c);
      if Contribution(f, tag, n - 1) == Some(c) {
        assert c in PolicyPart(f, tag, n);
      }
    }
  }

  /** The inline settings of the group scopes on the chain, taken in map
      iteration order: any order. */
  method InlineGroups(groups: map<string, Group>, pos: map<Ref, int>, ghost order: seq<string>)
    returns (chain: seq<Contributor>)
    requires Distinct(order) && pos == PositionsOf(order)
    ensures forall c :: c in chain <==> c in GroupPart(groups, order)
  {
    chain := [];
    var todo := pos.Keys;
    while todo != {}
      invariant todo <= pos.Keys
      invariant forall c :: c in chain ==> c in GroupPart(groups, order)
      invariant forall i :: 0 <= i < |order| && GroupRef(order[i]) !in todo && SaysSomething(OwnScope(groups, order[i])) ==>
                  Inline(i + 1, GroupRef(order[i]), OwnScope(groups, order[i])) in chain
      decreases todo
    {
      var ref :| ref in todo;
      todo := todo - {ref};
      if ref.GroupRef? {
        var own := OwnScope(groups, ref.group);
        if SaysSomething(own) {
          ghost var i :| 0 <= i < |order| && order[i] == ref.group;
          PlaceOf(order, i);
          var c := Inline(pos[ref], ref, own);
          GroupPartMembers(groups, order, c);
          chain := chain + [c];
        }
      }
    }
    forall c | c in GroupPart(groups, order) ensures c in chain {
      GroupPartMembers(groups, order, c);
    }
  }

  /** chainFor: the group scopes come out in map iteration order, so the list
      is the canonical one up to order. */
  method ChainFor(f: Fleet, tag: string) returns (chain: seq<Contributor>)
    ensures Elements(chain) == Elements(Chain(f, tag))
  {
    hide Contribution, Inline, GroupPart, PositionsOf, DevicePart, OrgPart;
    var pos := ScopePositions(f, tag);
    var inline := InlineGroups(f.groups, pos, OrderOf(f, tag));
    chain := OrgPart(f) + inline + DevicePart(f, tag);
    ghost var before := chain;
    for i := 0 to |f.assignments|
      invariant chain == before + PolicyPart(f, tag, i)
    {
      var c := Contribution(f, tag, i);
      if c.Some? {
        chain := chain + [c.value];
      }
    }
  }
}
