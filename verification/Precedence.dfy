// What the precedence rule means on the document (chain.go, resolve.go): where a
// device's scopes stand, and which of them a key is taken from - the most specific
// one that sets it, or the most general one that locks it.
module Precedence {
  import opened Wrappers
  import opened Order
  import opened Fleet
  import opened Resolve

  // ---- Where the scopes stand -----------------------------------------

  /** a is reached from g over parent links, and g not from a: on a tree, a proper
      ancestor. */
  ghost predicate Above(groups: map<string, Group>, a: string, g: string) {
    IsAncestor(groups, g, a) && !IsAncestor(groups, a, g)
  }

  predicate ParentBefore(groups: map<string, Group>, chain: seq<string>, i: nat)
    requires i < |chain|
  {
    chain[i] in groups && (i > 0 ==> groups[chain[i]].parent == chain[i - 1])
  }

  /** Each element of a walk is the parent of the next one, and it ends where it
      started. */
  lemma {:induction false} ClimbLinks(groups: map<string, Group>, cur: string, seen: set<string>)
    ensures var chain := Climb(groups, cur, seen);
            (chain != [] ==> chain[|chain| - 1] == cur) &&
            forall i :: 0 <= i < |chain| ==> ParentBefore(groups, chain, i)
    decreases groups.Keys - seen
  {
    ClimbMembers(groups, cur, seen);
    if cur != "" && cur !in seen && cur in groups {
      var up := Climb(groups, groups[cur].parent, seen + {cur});
      ClimbLinks(groups, groups[cur].parent, seen + {cur});
      forall i | 0 <= i < |up| + 1 ensures ParentBefore(groups, up + [cur], i) {
        assert i < |up| ==> ParentBefore(groups, up, i);
      }
    }
  }

  lemma {:induction false} LaterReachesEarlier(groups: map<string, Group>, m: string, i: nat, j: nat)
    requires j <= i < |Ancestry(groups, m)|
    ensures ReachesIn(groups, Ancestry(groups, m)[i], Ancestry(groups, m)[j], i - j)
    decreases i
  {
    ClimbLinks(groups, m, {});
    ClimbMembers(groups, m, {});
    assert Ancestry(groups, m)[i] in Ancestry(groups, m) && ParentBefore(groups, Ancestry(groups, m), i);
    if j < i {
      LaterReachesEarlier(groups, m, i - 1, j);
    }
  }

  /** A walk is root first: what is above a group comes before it. */
  lemma AncestorsComeFirst(groups: map<string, Group>, m: string, k: nat, a: string)
    requires k < |Ancestry(groups, m)| && Above(groups, a, Ancestry(groups, m)[k])
    ensures a in Ancestry(groups, m)[..k]
  {
    var chain := Ancestry(groups, m);
    var steps: nat :| ReachesIn(groups, chain[k], a, steps);
    hide Ancestry;
    ReachedIsClimbed(groups, m, chain[k], a, steps);
    var i :| 0 <= i < |chain| && chain[i] == a;
    if i >= k {
      LaterReachesEarlier(groups, m, i, k);
    }
    assert chain[..k][i] == a;
  }

  /** Whatever is above a group stands before it. */
  ghost predicate RootFirst(groups: map<string, Group>, order: seq<string>) {
    forall j, a :: 0 <= j < |order| && Above(groups, a, order[j]) ==> a in order[..j]
  }

  lemma {:induction false} AddedRootFirst(groups: map<string, Group>, order: seq<string>, m: string, k: nat)
    requires RootFirst(groups, order) && k <= |Ancestry(groups, m)|
    requires forall x :: x in Ancestry(groups, m)[..k] ==> x in order
    ensures RootFirst(groups, AddNew(order, Ancestry(groups, m)[k..]))
    decreases |Ancestry(groups, m)| - k
  {
    var chain := Ancestry(groups, m);
    hide Ancestry, Above;
    if k < |chain| {
      var x := chain[k];
      assert chain[k..][0] == x && chain[k..][1..] == chain[k + 1..];
      assert chain[..k + 1] == chain[..k] + [x];
      var next := if x in order then order else order + [x];
      forall j, a | 0 <= j < |next| && Above(groups, a, next[j]) ensures a in next[..j] {
        if j < |order| {
          assert next[..j] == order[..j];
        } else {
          AncestorsComeFirst(groups, m, k, a);
          assert next[..j] == order;
        }
      }
      AddedRootFirst(groups, next, m, k + 1);
    }
  }

  lemma {:induction false} ScopesAreRootFirst(groups: map<string, Group>, members: seq<string>)
    ensures RootFirst(groups, ScopeOrder(groups, members))
  {
    if members != [] {
      var n := |members| - 1;
      ScopesAreRootFirst(groups, members[..n]);
      AddedRootFirst(groups, ScopeOrder(groups, members[..n]), members[n], 0);
      assert Ancestry(groups, members[n])[0..] == Ancestry(groups, members[n]);
    }
  }

  lemma {:induction false} AddNewExtends(order: seq<string>, xs: seq<string>)
    ensures order <= AddNew(order, xs)
    decreases |xs|
  {
    if xs != [] {
      AddNewExtends(if xs[0] in order then order else order + [xs[0]], xs[1..]);
    }
  }

  lemma {:induction false} ScopesExtend(groups: map<string, Group>, members: seq<string>, j: nat)
    requires j <= |members|
    ensures ScopeOrder(groups, members[..j]) <= ScopeOrder(groups, members)
    decreases |members|
  {
    if j == |members| {
      assert members[..j] == members;
    } else {
      var n := |members| - 1;
      assert members[..n][..j] == members[..j];
      ScopesExtend(groups, members[..n], j);
      AddNewExtends(ScopeOrder(groups, members[..n]), Ancestry(groups, members[n]));
    }
  }

  /** The device lists a group that reaches a before any that reaches g. */
  ghost predicate ListedBefore(f: Fleet, tag: string, a: string, g: string) {
    var members := DeviceAt(f, tag).groups;
    exists j :: 0 <= j <= |members| && Meets(f.groups, members[..j], a) && !Meets(f.groups, members[..j], g)
  }

  /** a is more general than g for the device. */
  ghost predicate MoreGeneral(f: Fleet, tag: string, a: string, g: string) {
    Above(f.groups, a, g) || ListedBefore(f, tag, a, g)
  }

  lemma GeneralStandsFirst(f: Fleet, tag: string, j: nat, a: string)
    requires j < |OrderOf(f, tag)| && MoreGeneral(f, tag, a, OrderOf(f, tag)[j])
    ensures a in OrderOf(f, tag)[..j]
  {
    var order, members := OrderOf(f, tag), DeviceAt(f, tag).groups;
    ScopesAreRootFirst(f.groups, members);
    hide Above, ScopeOrder;
    if !Above(f.groups, a, order[j]) {
      var k :| 0 <= k <= |members| && Meets(f.groups, members[..k], a) && !Meets(f.groups, members[..k], order[j]);
      var before := ScopeOrder(f.groups, members[..k]);
      ScopesExtend(f.groups, members, k);
      ScopeOrderMembers(f.groups, members[..k], a);
      ScopeOrderMembers(f.groups, members[..k], order[j]);
      hide Meets;
      assert forall i :: 0 <= i < |before| ==> before[i] == order[i] && before[i] in before;
      var i :| 0 <= i < |before| && before[i] == a;
      assert order[..j][i] == a;
    }
  }

  /** Every contributor has the specificity of its scope: the organisation 0, the
      device one past its last group. */
  lemma SpecificityIsThePlace(f: Fleet, tag: string, c: Contributor)
    requires c in Chain(f, tag)
    ensures var order := OrderOf(f, tag);
            match c.source.scope
            case OrgRef => c.specificity == 0
            case DeviceRef => c.specificity == |order| + 1
            case GroupRef(g) => 1 <= c.specificity <= |order| && order[c.specificity - 1] == g
  {
    var order := OrderOf(f, tag);
    if c in PolicyPart(f, tag, |f.assignments|) {
      PolicyContributorShape(f, tag, c);
      var target := f.assignments[c.order].target;
      hide PolicyPart, Selects;
      if target.GroupTarget? {
        var i :| 0 <= i < |order| && order[i] == target.group;
        PlaceOf(order, i);
      }
    } else {
      InlineContributorShape(f, tag, c);
    }
  }

  // ---- The rule on the numbers ----------------------------------------

  /** What a key is taken from: without a lock, a contributor of the largest
      specificity that sets it; with one, of the smallest that locks it. Within a
      specificity the inline one, else the earliest assignment. */
  ghost predicate Wins(chain: seq<Contributor>, key: string, r: Resolution, w: Contributor) {
    && w in chain && key in w.settings && (r.enforced ==> key in w.enforced)
    && r.value == w.settings[key] && r.source == w.source
    && forall c :: c in chain && key in c.settings && (r.enforced ==> key in c.enforced) ==>
         && (r.enforced ==> w.specificity <= c.specificity)
         && (!r.enforced ==> w.specificity >= c.specificity)
         && (w.specificity == c.specificity && c.inline ==> w.inline)
         && (w.specificity == c.specificity && c.inline == w.inline ==> w.order <= c.order)
  }

  lemma WinnerOnTheNumbers(chain: seq<Contributor>, key: string) returns (w: Contributor)
    requires ResolveIn(chain, key).Some?
    ensures Wins(chain, key, ResolveIn(chain, key).value, w)
    ensures ResolveIn(chain, key).value.enforced <==> exists c :: c in chain && key in c.settings && key in c.enforced
  {
    BestIsExtreme(chain, key, true);
    BestIsExtreme(chain, key, false);
    hide Best;
    if Best(chain, key, true).Some? {
      w := Best(chain, key, true).value;
      assert Carries(w, key, true);
    } else {
      w := Best(chain, key, false).value;
      forall c | c in chain && key in c.settings ensures key !in c.enforced && Carries(c, key, false) {
        assert !Carries(c, key, true);
      }
    }
  }

  // ---- The rule on the document ---------------------------------------

  /** What a scope of the device says itself. */
  function OwnAt(f: Fleet, tag: string, ref: Ref): Scope {
    match ref
    case OrgRef => if f.org.Some? then f.org.value else NO_SCOPE
    case GroupRef(g) => if g in AncestorSet(f, tag) then OwnScope(f.groups, g) else NO_SCOPE
    case DeviceRef => DeviceAt(f, tag).own
  }

  predicate OwnSets(f: Fleet, tag: string, ref: Ref, key: string, locked: bool) {
    var own := OwnAt(f, tag, ref);
    key in own.settings && (locked ==> key in own.enforced)
  }

  /** Assignment i reaches the device, through the scope. */
  predicate AssignedAt(f: Fleet, tag: string, ref: Ref, i: nat) {
    i < |f.assignments| &&
    var a := f.assignments[i];
    && a.policy in f.policies && Selects(f, a.filter, tag)
    && match a.target
       case OrgTarget => ref == OrgRef
       case GroupTarget(g) => ref == GroupRef(g) && g in AncestorSet(f, tag)
       case DeviceTarget(t) => ref == DeviceRef && t == tag
       case BadTarget(_) => false
  }

  predicate PolicySets(f: Fleet, tag: string, ref: Ref, key: string, locked: bool, i: nat) {
    AssignedAt(f, tag, ref, i) &&
    var p := f.policies[f.assignments[i].policy];
    key in p.settings && (locked ==> key in p.enforced)
  }

  ghost predicate Sets(f: Fleet, tag: string, ref: Ref, key: string, locked: bool) {
    OwnSets(f, tag, ref, key, locked) || exists i: nat :: PolicySets(f, tag, ref, key, locked, i)
  }

  ghost predicate OnChain(f: Fleet, tag: string, c: Contributor, ref: Ref, key: string, locked: bool) {
    c in Chain(f, tag) && c.source.scope == ref && key in c.settings && (locked ==> key in c.enforced)
  }

  lemma OwnIsOnTheChain(f: Fleet, tag: string, ref: Ref, key: string, locked: bool) returns (c: Contributor)
    requires OwnSets(f, tag, ref, key, locked)
    ensures OnChain(f, tag, c, ref, key, locked) && c.inline && c.source == Source(ref, "")
    ensures c.settings == OwnAt(f, tag, ref).settings
  {
    var order, own := OrderOf(f, tag), OwnAt(f, tag, ref);
    match ref
    case OrgRef =>
      c := Inline(0, OrgRef, own);
    case DeviceRef =>
      c := Inline(|order| + 1, DeviceRef, own);
    case GroupRef(g) =>
      ScopeOrderMembers(f.groups, DeviceAt(f, tag).groups, g);
      var i :| 0 <= i < |order| && order[i] == g;
      c := Inline(i + 1, GroupRef(order[i]), OwnScope(f.groups, order[i]));
      GroupPartMembers(f.groups, order, c);
  }

  /** A scope has a contributor of its own on the chain exactly when it sets or locks
      something. */
  lemma OwnScopesOnTheChain(f: Fleet, tag: string, ref: Ref)
    ensures (exists c :: c in Chain(f, tag) && c.inline && c.source.scope == ref) <==>
            OwnAt(f, tag, ref).settings != map[] || OwnAt(f, tag, ref).enforced != []
  {
    var order, own := OrderOf(f, tag), OwnAt(f, tag, ref);
    if c :| c in Chain(f, tag) && c.inline && c.source.scope == ref {
      InlineMeansOwn(f, tag, c);
    }
    if SaysSomething(own) {
      match ref
      case OrgRef =>
        assert Inline(0, OrgRef, own) in OrgPart(f);
      case DeviceRef =>
        assert Inline(|order| + 1, DeviceRef, own) in DevicePart(f, tag);
      case GroupRef(g) =>
        ScopeOrderMembers(f.groups, DeviceAt(f, tag).groups, g);
        var i :| 0 <= i < |order| && order[i] == g;
        GroupPartMembers(f.groups, order, Inline(i + 1, GroupRef(order[i]), own));
    }
  }

  lemma InlineMeansOwn(f: Fleet, tag: string, c: Contributor)
    requires c in Chain(f, tag) && c.inline
    ensures SaysSomething(OwnAt(f, tag, c.source.scope))
  {
    var order := OrderOf(f, tag);
    if c in PolicyPart(f, tag, |f.assignments|) {
      PolicyContributorShape(f, tag, c);
    } else if c in GroupPart(f.groups, order) {
      GroupPartMembers(f.groups, order, c);
      var i :| 0 <= i < |order| && SaysSomething(OwnScope(f.groups, order[i])) &&
               c == Inline(i + 1, GroupRef(order[i]), OwnScope(f.groups, order[i]));
      ScopeOrderMembers(f.groups, DeviceAt(f, tag).groups, order[i]);
    }
  }

  lemma TargetsAgree(f: Fleet, tag: string, ref: Ref, i: nat)
    requires i < |f.assignments|
    ensures AssignedAt(f, tag, ref, i) <==>
            Contribution(f, tag, i).Some? && Contribution(f, tag, i).value.source.scope == ref
  {
    TargetIsOnTheChain(f, f.assignments[i].target, tag);
  }

  lemma PolicyIsOnTheChain(f: Fleet, tag: string, ref: Ref, key: string, locked: bool, i: nat)
      returns (c: Contributor)
    requires PolicySets(f, tag, ref, key, locked, i)
    ensures OnChain(f, tag, c, ref, key, locked) && !c.inline && c.order == i
  {
    TargetsAgree(f, tag, ref, i);
    c := Contribution(f, tag, i).value;
    PolicyPartMembers(f, tag, |f.assignments|, c);
  }

  /** What stands on the chain for a scope is what the scope itself says, or what a
      policy assigned to it says. */
  lemma ChainSpeaks(f: Fleet, tag: string, c: Contributor, ref: Ref, key: string, locked: bool)
    requires OnChain(f, tag, c, ref, key, locked)
    ensures c.inline ==> OwnSets(f, tag, ref, key, locked) && c.settings == OwnAt(f, tag, ref).settings
    ensures c.inline ==> c.source == Source(ref, "")
    ensures !c.inline ==> PolicySets(f, tag, ref, key, locked, c.order) &&
                          c.settings == f.policies[f.assignments[c.order].policy].settings &&
                          c.source.policy == f.assignments[c.order].policy
  {
    if c in PolicyPart(f, tag, |f.assignments|) {
      PolicyContributorShape(f, tag, c);
      TargetsAgree(f, tag, ref, c.order);
    } else {
      InlineContributorShape(f, tag, c);
      var order := OrderOf(f, tag);
      hide Chain;
      if ref.GroupRef? {
        assert order[c.specificity - 1] == ref.group;
        ScopeOrderMembers(f.groups, DeviceAt(f, tag).groups, ref.group);
      }
    }
  }

  lemma SetIsOnTheChain(f: Fleet, tag: string, ref: Ref, key: string, locked: bool) returns (c: Contributor)
    requires Sets(f, tag, ref, key, locked)
    ensures OnChain(f, tag, c, ref, key, locked)
  {
    hide Chain;
    if OwnSets(f, tag, ref, key, locked) {
      c := OwnIsOnTheChain(f, tag, ref, key, locked);
    } else {
      var i: nat :| PolicySets(f, tag, ref, key, locked, i);
      c := PolicyIsOnTheChain(f, tag, ref, key, locked, i);
    }
  }

  /** A scope that sets the key, and the winner: who has the larger specificity. */
  lemma SetterAndWinner(f: Fleet, tag: string, key: string, ref: Ref, w: Contributor) returns (c: Contributor)
    requires ResolveIn(Chain(f, tag), key).Some? && Wins(Chain(f, tag), key, ResolveIn(Chain(f, tag), key).value, w)
    requires Sets(f, tag, ref, key, ResolveIn(Chain(f, tag), key).value.enforced)
    ensures OnChain(f, tag, c, ref, key, ResolveIn(Chain(f, tag), key).value.enforced)
    ensures if ResolveIn(Chain(f, tag), key).value.enforced then w.specificity <= c.specificity
            else w.specificity >= c.specificity
  {
    hide Chain, Sets;
    c := SetIsOnTheChain(f, tag, ref, key, ResolveIn(Chain(f, tag), key).value.enforced);
  }

  lemma PlacesOfGroups(f: Fleet, tag: string, a: Contributor, b: Contributor)
    requires a in Chain(f, tag) && b in Chain(f, tag) && a.source.scope.GroupRef? && b.source.scope.GroupRef?
    requires MoreGeneral(f, tag, a.source.scope.group, b.source.scope.group)
    ensures a.specificity < b.specificity
  {
    var order := OrderOf(f, tag);
    SpecificityIsThePlace(f, tag, a);
    SpecificityIsThePlace(f, tag, b);
    hide Chain, MoreGeneral;
    GeneralStandsFirst(f, tag, b.specificity - 1, a.source.scope.group);
    var j := b.specificity - 1;
    assert order[j] == b.source.scope.group;
    var i :| 0 <= i < j && order[..j][i] == a.source.scope.group;
    assert order[i] == order[a.specificity - 1];
  }

  /** An unlocked key: the device before its groups, a group before whatever is above
      it or reached from an earlier listed group, any group before the organisation -
      whether they set it themselves or by policy. */
  lemma MoreSpecificWins(f: Fleet, tag: string, key: string)
    requires ResolveIn(Chain(f, tag), key).Some? && !ResolveIn(Chain(f, tag), key).value.enforced
    ensures var from := ResolveIn(Chain(f, tag), key).value.source.scope;
            && (Sets(f, tag, DeviceRef, key, false) ==> from == DeviceRef)
            && (forall a, g :: MoreGeneral(f, tag, a, g) && Sets(f, tag, GroupRef(g), key, false) ==>
                from != GroupRef(a))
            && (forall g :: Sets(f, tag, GroupRef(g), key, false) ==> from != OrgRef)
  {
    var w := WinnerOnTheNumbers(Chain(f, tag), key);
    SpecificityIsThePlace(f, tag, w);
    hide Chain, MoreGeneral, Sets;
    if Sets(f, tag, DeviceRef, key, false) {
      var c := SetterAndWinner(f, tag, key, DeviceRef, w);
      SpecificityIsThePlace(f, tag, c);
    }
    forall g | Sets(f, tag, GroupRef(g), key, false)
      ensures w.source.scope != OrgRef
      ensures forall a :: MoreGeneral(f, tag, a, g) ==> w.source.scope != GroupRef(a)
    {
      var c := SetterAndWinner(f, tag, key, GroupRef(g), w);
      SpecificityIsThePlace(f, tag, c);
      if w.source.scope.GroupRef? && MoreGeneral(f, tag, w.source.scope.group, g) {
        PlacesOfGroups(f, tag, w, c);
      }
    }
  }

  /** A locked key: the other way round, among the scopes that lock it. */
  lemma MoreGeneralLockWins(f: Fleet, tag: string, key: string)
    requires ResolveIn(Chain(f, tag), key).Some? && ResolveIn(Chain(f, tag), key).value.enforced
    ensures var from := ResolveIn(Chain(f, tag), key).value.source.scope;
            && (Sets(f, tag, OrgRef, key, true) ==> from == OrgRef)
            && (forall a, g :: MoreGeneral(f, tag, a, g) && Sets(f, tag, GroupRef(a), key, true) ==>
                from != GroupRef(g))
            && (forall g :: Sets(f, tag, GroupRef(g), key, true) ==> from != DeviceRef)
  {
    var w := WinnerOnTheNumbers(Chain(f, tag), key);
    SpecificityIsThePlace(f, tag, w);
    hide Chain, MoreGeneral, Sets;
    if Sets(f, tag, OrgRef, key, true) {
      var c := SetterAndWinner(f, tag, key, OrgRef, w);
      SpecificityIsThePlace(f, tag, c);
    }
    forall a | Sets(f, tag, GroupRef(a), key, true)
      ensures w.source.scope != DeviceRef
      ensures forall g :: MoreGeneral(f, tag, a, g) ==> w.source.scope != GroupRef(g)
    {
      var c := SetterAndWinner(f, tag, key, GroupRef(a), w);
      SpecificityIsThePlace(f, tag, c);
      if w.source.scope.GroupRef? && MoreGeneral(f, tag, a, w.source.scope.group) {
        PlacesOfGroups(f, tag, c, w);
      }
    }
  }

  /** Whether anything sets or locks the key for the device decides whether it
      resolves, and whether to a lock. */
  lemma ResolvesWhenSet(f: Fleet, tag: string, key: string)
    ensures ResolveIn(Chain(f, tag), key).Some? <==> exists ref :: Sets(f, tag, ref, key, false)
    ensures ResolveIn(Chain(f, tag), key).Some? && ResolveIn(Chain(f, tag), key).value.enforced <==>
            exists ref :: Sets(f, tag, ref, key, true)
  {
    Precedence(f, tag, key);
    SomebodySets(f, tag, key, false);
    SomebodySets(f, tag, key, true);
    hide Chain, Sets;
    assert forall c :: Carries(c, key, false) <==> key in c.settings;
  }

  lemma SomebodySets(f: Fleet, tag: string, key: string, locked: bool)
    ensures (exists ref :: Sets(f, tag, ref, key, locked)) <==>
            exists c :: c in Chain(f, tag) && Carries(c, key, locked)
  {
    hide Chain, Sets;
    if c :| c in Chain(f, tag) && Carries(c, key, locked) {
      ChainSpeaks(f, tag, c, c.source.scope, key, locked);
      SpokenIsSet(f, tag, c.source.scope, key, locked, c);
    }
    if ref :| Sets(f, tag, ref, key, locked) {
      var c := SetIsOnTheChain(f, tag, ref, key, locked);
      assert Carries(c, key, locked);
    }
  }

  lemma SpokenIsSet(f: Fleet, tag: string, ref: Ref, key: string, locked: bool, c: Contributor)
    requires OwnSets(f, tag, ref, key, locked) || PolicySets(f, tag, ref, key, locked, c.order)
    ensures Sets(f, tag, ref, key, locked)
  {
  }

  /** Within the winning scope: what the scope says itself, else the policy assigned
      first. */
  lemma WithinTheScope(f: Fleet, tag: string, key: string)
    requires ResolveIn(Chain(f, tag), key).Some?
    ensures var r := ResolveIn(Chain(f, tag), key).value;
            var ref := r.source.scope;
            if OwnSets(f, tag, ref, key, r.enforced) then
              r.source == Source(ref, "") && r.value == OwnAt(f, tag, ref).settings[key]
            else
              exists i: nat :: PolicySets(f, tag, ref, key, r.enforced, i) &&
                r.source == Source(ref, f.assignments[i].policy) &&
                r.value == f.policies[f.assignments[i].policy].settings[key] &&
                forall j: nat :: PolicySets(f, tag, ref, key, r.enforced, j) ==> i <= j
  {
    var r := ResolveIn(Chain(f, tag), key).value;
    var ref := r.source.scope;
    var w := WinnerOnTheNumbers(Chain(f, tag), key);
    SpecificityIsThePlace(f, tag, w);
    ChainSpeaks(f, tag, w, ref, key, r.enforced);
    if OwnSets(f, tag, ref, key, r.enforced) {
      var c := OwnIsOnTheChain(f, tag, ref, key, r.enforced);
      SamePlace(f, tag, c, w);
    } else {
      forall j: nat | PolicySets(f, tag, ref, key, r.enforced, j) ensures w.order <= j {
        var c := PolicyIsOnTheChain(f, tag, ref, key, r.enforced, j);
        SamePlace(f, tag, c, w);
      }
    }
  }

  lemma SamePlace(f: Fleet, tag: string, a: Contributor, b: Contributor)
    requires a in Chain(f, tag) && b in Chain(f, tag) && a.source.scope == b.source.scope
    ensures a.specificity == b.specificity
  {
    SpecificityIsThePlace(f, tag, a);
    SpecificityIsThePlace(f, tag, b);
  }

  /** End to end: a device's own value is what it gets unless somebody locks the key. */
  lemma DevicesOwnValue(f: Fleet, tag: string, key: string)
    requires key in DeviceAt(f, tag).own.settings && forall ref :: !Sets(f, tag, ref, key, true)
    ensures ResolveIn(Chain(f, tag), key) ==
            Some(Resolution(DeviceAt(f, tag).own.settings[key], Source(DeviceRef, ""), false))
    ensures var settings := SettingsFrom(Chain(f, tag));
            key in settings && settings[key] == (DeviceAt(f, tag).own.settings[key], false)
  {
    hide Chain;
    assert OwnSets(f, tag, DeviceRef, key, false);
    assert Sets(f, tag, DeviceRef, key, false);
    ResolvesWhenSet(f, tag, key);
    MoreSpecificWins(f, tag, key);
    WithinTheScope(f, tag, key);
    EffectiveSettings(f, tag, key);
  }

  /** The settings a device builds from are its resolved keys. */
  lemma EffectiveSettings(f: Fleet, tag: string, key: string)
    ensures var chain := Chain(f, tag);
            var settings := SettingsFrom(chain);
            (key in settings <==> ResolveIn(chain, key).Some?) &&
            (key in settings ==>
               settings[key] == (ResolveIn(chain, key).value.value, ResolveIn(chain, key).value.enforced))
  {
    Precedence(f, tag, key);
  }

  /** ... and what the organisation sets and locks is what everybody gets. */
  lemma OrganisationsLock(f: Fleet, tag: string, key: string)
    requires f.org.Some? && key in f.org.value.settings && key in f.org.value.enforced
    ensures ResolveIn(Chain(f, tag), key) == Some(Resolution(f.org.value.settings[key], Source(OrgRef, ""), true))
    ensures var settings := SettingsFrom(Chain(f, tag));
            key in settings && settings[key] == (f.org.value.settings[key], true)
  {
    hide Chain;
    assert OwnSets(f, tag, OrgRef, key, true);
    assert Sets(f, tag, OrgRef, key, true);
    ResolvesWhenSet(f, tag, key);
    MoreGeneralLockWins(f, tag, key);
    WithinTheScope(f, tag, key);
    EffectiveSettings(f, tag, key);
  }

  // ---- What a shape tells ---------------------------------------------

  /** The group is reached over parent links from one the device lists. */
  ghost predicate InReach(f: Fleet, tag: string, g: string) {
    var members := DeviceAt(f, tag).groups;
    exists i :: 0 <= i < |members| && IsAncestor(f.groups, members[i], g)
  }

  /** The key resolves alike, wherever from. */
  ghost predicate ResolvesAlike(f: Fleet, a: string, f': Fleet, b: string, key: string) {
    var r, r' := ResolveIn(Chain(f, a), key), ResolveIn(Chain(f', b), key);
    (r.Some? <==> r'.Some?) && (r.Some? ==> r.value.value == r'.value.value && r.value.enforced == r'.value.enforced)
  }

  ghost predicate GroupsAlike(f: Fleet, a: string, f': Fleet, b: string) {
    forall g :: (InReach(f, a, g) <==> InReach(f', b, g)) &&
                (InReach(f, a, g) ==> PinOf(f.groups, g) == PinOf(f'.groups, g))
  }

  ghost predicate AppsAlike(f: Fleet, a: string, f': Fleet, b: string) {
    forall kind, x :: x in ListOf(AppsOf(f, a), kind) <==> x in ListOf(AppsOf(f', b), kind)
  }

  lemma ReachIsAncestry(f: Fleet, tag: string, g: string)
    ensures InReach(f, tag, g) <==> g in GroupPins(f, tag)
    ensures InReach(f, tag, g) ==> GroupPins(f, tag)[g] == PinOf(f.groups, g)
  {
    ReachesIsMeets(f.groups, DeviceAt(f, tag).groups, g);
  }

  lemma GroupPinsTell(f: Fleet, a: string, f': Fleet, b: string)
    ensures GroupPins(f, a) == GroupPins(f', b) <==> GroupsAlike(f, a, f', b)
  {
    var p, p' := GroupPins(f, a), GroupPins(f', b);
    hide InReach, PinOf;
    forall g ensures (g in p <==> InReach(f, a, g)) && (g in p ==> p[g] == PinOf(f.groups, g)) {
      ReachIsAncestry(f, a, g);
    }
    forall g ensures (g in p' <==> InReach(f', b, g)) && (g in p' ==> p'[g] == PinOf(f'.groups, g)) {
      ReachIsAncestry(f', b, g);
    }
    hide GroupPins;
    if GroupsAlike(f, a, f', b) {
      assert forall g :: g in p <==> g in p';
    }
  }

  lemma SettingsTell(f: Fleet, a: string, f': Fleet, b: string)
    ensures SettingsFrom(Chain(f, a)) == SettingsFrom(Chain(f', b)) <==> forall key :: ResolvesAlike(f, a, f', b, key)
  {
    var s, s' := SettingsFrom(Chain(f, a)), SettingsFrom(Chain(f', b));
    hide Chain, ResolveIn;
    forall key ensures ResolvesAlike(f, a, f', b, key) <==>
        ((key in s <==> key in s') && (key in s && key in s' ==> s[key] == s'[key]))
    {
      EffectiveSettings(f, a, key);
      EffectiveSettings(f', b, key);
    }
    hide SettingsFrom, ResolvesAlike;
    if forall key :: ResolvesAlike(f, a, f', b, key) {
      assert forall key :: key in s <==> key in s';
    }
  }

  lemma AppsTell(f: Fleet, a: string, f': Fleet, b: string)
    ensures AppsOf(f, a) == AppsOf(f', b) <==> AppsAlike(f, a, f', b)
  {
    hide AppsOf;
    if AppsAlike(f, a, f', b) {
      forall kind ensures ListOf(AppsOf(f, a), kind) == ListOf(AppsOf(f', b), kind) {
        AppsAreTheUnion(f, a, kind, "");
        AppsAreTheUnion(f', b, kind, "");
        SortedUnique(ListOf(AppsOf(f, a), kind), ListOf(AppsOf(f', b), kind));
      }
      assert ListOf(AppsOf(f, a), PackageKind) == AppsOf(f, a).packages;
      assert ListOf(AppsOf(f, a), FlatpakKind) == AppsOf(f, a).flatpaks;
      assert ListOf(AppsOf(f, a), OverlayKind) == AppsOf(f, a).overlays;
    }
  }

  /** Two devices have one shape exactly when they have the same model, class and pin,
      reach the same groups under the same pins, resolve every key to the same value
      and lock, and get the same apps of each kind. */
  lemma ShapeIsExactly(f: Fleet, a: string, f': Fleet, b: string)
    ensures var d, d' := DeviceAt(f, a), DeviceAt(f', b);
            ShapeOf(f, a) == ShapeOf(f', b) <==>
              && d.hardware == d'.hardware && d.cls == d'.cls && d.pin == d'.pin
              && GroupsAlike(f, a, f', b) && AppsAlike(f, a, f', b)
              && forall key :: ResolvesAlike(f, a, f', b, key)
  {
    GroupPinsTell(f, a, f', b);
    SettingsTell(f, a, f', b);
    AppsTell(f, a, f', b);
    hide GroupPins, SettingsFrom, AppsOf, Chain, GroupsAlike, AppsAlike, ResolvesAlike;
  }
}
