// Settings that follow a hardware model (internal/domain/fleet/hardware_config.go):
// a filter, a policy and an assignment written as one mutation of the document,
// and what that mutation means for the chain a device is compiled from.
module HardwareConfig {
  import opened Wrappers
  import opened Order
  import opened Fleet
  import opened Resolve
  import opened Assignments
  import Text

  function PolicyID(profile: string): string {
    "hw-" + profile
  }

  function FilterID(profile: string): string {
    "hardware-" + profile
  }

  /** selectsExactly looks at the rules only. */
  predicate SelectsExactly(fl: Filter, profile: string) {
    |fl.rules| == 1 && fl.rules[0].attr == HardwareAttr && fl.rules[0].op == Eq && fl.rules[0].value == profile
  }

  predicate ValidTarget(f: Fleet, target: Target) {
    target.OrgTarget? || (target.GroupTarget? && target.group in f.groups)
  }

  predicate ValidProfile(profile: string) {
    profile != "" && Text.Slug(PolicyID(profile)) && Text.Slug(FilterID(profile))
  }

  /** The assignment the configuration of one model owns. */
  predicate IsOurs(a: Assignment, profile: string) {
    a.policy == PolicyID(profile) && a.filter == FilterID(profile)
  }

  /** slices.DeleteFunc. */
  function Others(assignments: seq<Assignment>, profile: string): seq<Assignment> {
    if assignments == [] then []
    else
      var n := |assignments| - 1;
      Others(assignments[..n], profile) + if IsOurs(assignments[n], profile) then [] else [assignments[n]]
  }

  predicate FilterUsed(assignments: seq<Assignment>, filter: string) {
    exists i :: 0 <= i < |assignments| && assignments[i].filter == filter
  }

  /** The policy written: the settings, under what name and description an earlier
      configuration of the model had. */
  function PolicyFor(f: Fleet, profile: string, settings: map<string, Value>, enforced: seq<string>): Policy {
    var id := PolicyID(profile);
    if id in f.policies then
      var prev := f.policies[id];
      Policy(
        if prev.name != "" then prev.name else profile, prev.description, prev.controls, [], "", settings, enforced)
    else Policy(profile, "", [], [], "", settings, enforced)
  }

  /** An earlier configuration's name stays unless it was blank, its description and
      controls stay, and nothing else of the policy does. */
  lemma PolicyKeepsItsTexts(f: Fleet, profile: string, settings: map<string, Value>, enforced: seq<string>)
    ensures var p := PolicyFor(f, profile, settings, enforced);
            && p.settings == settings && p.enforced == enforced && p.conditions == [] && p.profile == ""
            && (PolicyID(profile) !in f.policies ==> p.name == profile && p.description == "" && p.controls == [])
            && (PolicyID(profile) in f.policies ==>
                  var prev := f.policies[PolicyID(profile)];
                  p.description == prev.description && p.controls == prev.controls &&
                  (prev.name == "" ==> p.name == profile) && (prev.name != "" ==> p.name == prev.name))
  {
  }

  /** Why a configuration with settings is refused, past the name and target. */
  predicate Clashes(f: Fleet, profile: string, settings: map<string, Value>, enforced: seq<string>) {
    || (FilterID(profile) in f.filters && !SelectsExactly(f.filters[FilterID(profile)], profile))
    || (PolicyID(profile) in f.policies && f.policies[PolicyID(profile)].profile != "")
    || (exists i :: 0 <= i < |enforced| && enforced[i] !in settings)
  }

  function ModelFilter(profile: string): Filter {
    Filter(Unset, [Rule(HardwareAttr, Eq, profile, [])])
  }

  function WithSettings(f: Fleet, profile: string, target: Target, settings: map<string, Value>,
      enforced: seq<string>): Fleet {
    f.(filters := if FilterID(profile) in f.filters then f.filters
        else f.filters[FilterID(profile) := ModelFilter(profile)],
       policies := f.policies[PolicyID(profile) := PolicyFor(f, profile, settings, enforced)],
       assignments := Others(f.assignments, profile) + [Assignment(PolicyID(profile), target, FilterID(profile))])
  }

  function Emptied(f: Fleet, profile: string): Fleet {
    var rest := Others(f.assignments, profile);
    f.(assignments := rest, policies := f.policies - {PolicyID(profile)},
       filters := if FilterUsed(rest, FilterID(profile)) then f.filters else f.filters - {FilterID(profile)})
  }

  /** ConfigureHardware, on a name already trimmed. */
  function Configured(f: Fleet, profile: string, target: Target, settings: map<string, Value>,
      enforced: seq<string>): Result<Fleet> {
    if !ValidProfile(profile) then Err("cannot be configured")
    else if !ValidTarget(f, target) then Err("hardware settings bind to org or a group")
    else if settings == map[] then Ok(Emptied(f, profile))
    else if Clashes(f, profile, settings, enforced) then Err("clashes")
    else Ok(WithSettings(f, profile, target, settings, enforced))
  }

  // ---- The mutation in place ------------------------------------------

  /** The document under edit. A refused edit may leave it half-changed; the write
      transaction then throws the copy away. */
  class Document {
    const org: Option<Scope>
    const groups: map<string, Group>
    const devices: map<string, Device>
    const globals: Globals
    var policies: map<string, Policy>
    var assignments: seq<Assignment>
    var filters: map<string, Filter>

    function Doc(): Fleet
      reads this
    {
      Fleet(org, groups, devices, policies, assignments, filters, globals)
    }

    constructor (f: Fleet)
      ensures Doc() == f
    {
      org, groups, devices, globals := f.org, f.groups, f.devices, f.globals;
      policies, assignments, filters := f.policies, f.assignments, f.filters;
    }

    method DeleteOurs(profile: string)
      modifies this`assignments
      ensures assignments == Others(old(assignments), profile)
    {
      var kept := [];
      for i := 0 to |assignments|
        invariant assignments == old(assignments)
        invariant kept == Others(assignments[..i], profile)
      {
        assert assignments[..i + 1][..i] == assignments[..i];
        if !IsOurs(assignments[i], profile) {
          kept := kept + [assignments[i]];
        }
      }
      assert assignments[..|assignments|] == assignments;
      assignments := kept;
    }

    /** PutPolicy. */
    method PutPolicy(id: string, p: Policy) returns (ok: bool)
      modifies this`policies
      ensures ok <==>
              Text.Slug(id) && (p.settings != map[] || p.conditions != []) &&
              forall i :: 0 <= i < |p.enforced| ==> p.enforced[i] in p.settings
      ensures policies == if ok then old(policies)[id := p] else old(policies)
    {
      if !Text.Slug(id) || (p.settings == map[] && p.conditions == []) {
        return false;
      }
      for i := 0 to |p.enforced|
        invariant forall j :: 0 <= j < i ==> p.enforced[j] in p.settings
      {
        if p.enforced[i] !in p.settings {
          return false;
        }
      }
      policies := policies[id := p];
      return true;
    }

    /** Assign: the policy, the target and the filter exist and no equal triple does. */
    method Assign(a: Assignment) returns (ok: bool)
      requires ValidTarget(Doc(), a.target)
      modifies this`assignments
      ensures ok <==> a.policy in policies && (a.filter == "" || a.filter in filters) && a !in old(assignments)
      ensures assignments == if ok then old(assignments) + [a] else old(assignments)
    {
      if a.policy !in policies || (a.filter != "" && a.filter !in filters) || a in assignments {
        return false;
      }
      assignments := assignments + [a];
      return true;
    }

    method Unconfigure(profile: string)
      modifies this
      ensures Doc() == Emptied(old(Doc()), profile)
    {
      DeleteOurs(profile);
      policies := policies - {PolicyID(profile)};
      if !FilterUsed(assignments, FilterID(profile)) {
        filters := filters - {FilterID(profile)};
      }
    }

    /** Reuses a filter of that name only while it selects exactly the model. */
    method EnsureFilter(profile: string) returns (ok: bool)
      modifies this`filters
      ensures ok <==> FilterID(profile) in old(filters) ==> SelectsExactly(old(filters)[FilterID(profile)], profile)
      ensures filters == if FilterID(profile) in old(filters) then old(filters)
              else old(filters)[FilterID(profile) := ModelFilter(profile)]
    {
      if FilterID(profile) in filters {
        return SelectsExactly(filters[FilterID(profile)], profile);
      }
      filters := filters[FilterID(profile) := ModelFilter(profile)];
      return true;
    }

    method EnsurePolicy(profile: string, settings: map<string, Value>, enforced: seq<string>) returns (ok: bool)
      requires Text.Slug(PolicyID(profile)) && settings != map[]
      modifies this`policies
      ensures ok <==>
              (PolicyID(profile) in old(policies) ==> old(policies)[PolicyID(profile)].profile == "") &&
              forall i :: 0 <= i < |enforced| ==> enforced[i] in settings
      ensures ok ==> policies == old(policies)[PolicyID(profile) := PolicyFor(old(Doc()), profile, settings, enforced)]
    {
      var pol := Policy(profile, "", [], [], "", settings, enforced);
      if PolicyID(profile) in policies {
        var prev := policies[PolicyID(profile)];
        if prev.profile != "" {
          return false;
        }
        if prev.name != "" {
          pol := pol.(name := prev.name);
        }
        pol := pol.(description := prev.description, controls := prev.controls);
      }
      ok := PutPolicy(PolicyID(profile), pol);
    }

    method ConfigureHardware(name: string, target: Target, settings: map<string, Value>, enforced: seq<string>)
        returns (ok: bool)
      modifies this
      ensures ok <==> Configured(old(Doc()), Text.Trim(name), target, settings, enforced).Ok?
      ensures ok ==> Doc() == Configured(old(Doc()), Text.Trim(name), target, settings, enforced).value
    {
      hide Text.Slug, Text.Trim, Others, SelectsExactly;
      var profile := Text.Trim(name);
      if profile == "" || !Text.Slug(PolicyID(profile)) || !Text.Slug(FilterID(profile)) ||
          !ValidTarget(Doc(), target) {
        return false;
      }
      if settings == map[] {
        Unconfigure(profile);
        return true;
      }
      ok := EnsureFilter(profile);
      if !ok {
        return;
      }
      ok := EnsurePolicy(profile, settings, enforced);
      if !ok {
        return;
      }
      DeleteOurs(profile);
      NoneOfOurs(old(assignments), profile);
      ok := Assign(Assignment(PolicyID(profile), target, FilterID(profile)));
    }
  }

  lemma {:induction false} NoneOfOurs(assignments: seq<Assignment>, profile: string)
    ensures forall a :: a in Others(assignments, profile) <==> a in assignments && !IsOurs(a, profile)
  {
    if assignments != [] {
      var n := |assignments| - 1;
      NoneOfOurs(assignments[..n], profile);
      assert assignments == assignments[..n] + [assignments[n]];
    }
  }

  // ---- What it means for a device -------------------------------------

  /** A filter over exactly one model matches exactly that model's devices - unless
      its match mode is one the matcher does not know, when it matches none. */
  lemma ModelFilterMatches(f: Fleet, fl: Filter, profile: string, tag: string)
    requires SelectsExactly(fl, profile) && tag in f.devices
    ensures MatchesFilter(f, fl, tag) <==> f.devices[tag].hardware == profile && fl.match_ != BadMatch
  {
    assert MatchesRule(f, fl.rules[0], tag) <==> f.devices[tag].hardware == profile;
  }

  ghost predicate ReachesAs(f: Fleet, tag: string, i: nat) {
    exists c :: c in Chain(f, tag) && !c.inline && c.order == i
  }

  /** The compiled chain carries assignment i exactly when it contributes. */
  lemma ChainCarries(f: Fleet, tag: string, i: nat)
    requires i < |f.assignments|
    ensures ReachesAs(f, tag, i) <==> Contribution(f, tag, i).Some?
  {
    if Contribution(f, tag, i).Some? {
      var c := Contribution(f, tag, i).value;
      PolicyPartMembers(f, tag, |f.assignments|, c);
      assert c in Chain(f, tag);
    }
    if ReachesAs(f, tag, i) {
      var c :| c in Chain(f, tag) && !c.inline && c.order == i;
      NotInline(f, tag, c);
      PolicyPartMembers(f, tag, |f.assignments|, c);
    }
  }

  lemma NotInline(f: Fleet, tag: string, c: Contributor)
    requires c in Chain(f, tag) && !c.inline
    ensures c in PolicyPart(f, tag, |f.assignments|)
  {
    GroupPartMembers(f.groups, OrderOf(f, tag), c);
  }

  lemma OursIsLast(f: Fleet, profile: string, target: Target, settings: map<string, Value>, enforced: seq<string>)
    ensures var f' := WithSettings(f, profile, target, settings, enforced);
            forall i :: 0 <= i < |f'.assignments| ==>
                (IsOurs(f'.assignments[i], profile) <==> i == |f'.assignments| - 1)
  {
    NoneOfOurs(f.assignments, profile);
    var rest := Others(f.assignments, profile);
    assert forall i :: 0 <= i < |rest| ==> rest[i] in rest;
  }

  /** After a configuration with settings, exactly one assignment carries them, and
      it is on a device's compiled chain exactly when the device is of the model and
      the target is on its chain - given a filter whose match mode is known. */
  lemma ReachesExactlyTheModel(f: Fleet, profile: string, target: Target, settings: map<string, Value>,
      enforced: seq<string>, tag: string)
    requires settings != map[] && Configured(f, profile, target, settings, enforced).Ok? && tag in f.devices
    ensures var f' := Configured(f, profile, target, settings, enforced).value;
            var i := |f'.assignments| - 1;
            && i >= 0 && (forall j :: 0 <= j < |f'.assignments| ==> (IsOurs(f'.assignments[j], profile) <==> j == i))
            && f'.policies[PolicyID(profile)].settings == settings &&
               f'.policies[PolicyID(profile)].enforced == enforced
            && (ReachesAs(f', tag, i) <==>
                f.devices[tag].hardware == profile && TargetPosition(OrderOf(f, tag), target, tag).Some? &&
                f'.filters[FilterID(profile)].match_ != BadMatch)
  {
    var f' := WithSettings(f, profile, target, settings, enforced);
    OursIsLast(f, profile, target, settings, enforced);
    ChainCarries(f', tag, |f'.assignments| - 1);
    ModelFilterMatches(f', f'.filters[FilterID(profile)], profile, tag);
  }

  /** A filter the console wrote is never in that odd mode: it is the document
      edited by hand that can hold one, and selectsExactly lets it pass. */
  lemma OddMatchModeReachesNobody(f: Fleet, profile: string, target: Target, settings: map<string, Value>,
      enforced: seq<string>, tag: string)
    requires settings != map[] && Configured(f, profile, target, settings, enforced).Ok? && tag in f.devices
    requires FilterID(profile) in f.filters && f.filters[FilterID(profile)].match_ == BadMatch
    ensures var f' := Configured(f, profile, target, settings, enforced).value;
            !ReachesAs(f', tag, |f'.assignments| - 1)
  {
    ReachesExactlyTheModel(f, profile, target, settings, enforced, tag);
  }

  lemma {:induction false} OthersAgain(a: seq<Assignment>, profile: string)
    requires forall i :: 0 <= i < |a| ==> !IsOurs(a[i], profile)
    ensures Others(a, profile) == a
  {
    if a != [] {
      OthersAgain(a[..|a| - 1], profile);
    }
  }

  lemma OthersOfConfigured(f: Fleet, profile: string, ours: Assignment)
    requires IsOurs(ours, profile)
    ensures Others(Others(f.assignments, profile) + [ours], profile) == Others(f.assignments, profile)
  {
    var rest := Others(f.assignments, profile);
    NoneOfOurs(f.assignments, profile);
    assert forall i :: 0 <= i < |rest| ==> rest[i] in rest;
    OthersAgain(rest, profile);
    assert (rest + [ours])[..|rest|] == rest;
  }

  /** Configuring again changes nothing; configuring for another target moves the
      one assignment; every other assignment keeps its place among the others. */
  lemma ConfiguringAgain(
      f: Fleet, profile: string, target: Target, settings: map<string, Value>, enforced: seq<string>,
      target': Target, settings': map<string, Value>, enforced': seq<string>)
    requires settings != map[] && settings' != map[] && ValidTarget(f, target')
    requires Configured(f, profile, target, settings, enforced).Ok?
    requires forall i :: 0 <= i < |enforced'| ==> enforced'[i] in settings'
    ensures var once := Configured(f, profile, target, settings, enforced).value;
            var again := Configured(once, profile, target', settings', enforced');
            && again.Ok?
            && (target' == target && settings' == settings && enforced' == enforced ==> again.value == once)
            && again.value.filters == once.filters
            && again.value.policies == once.policies[PolicyID(profile) := PolicyFor(once, profile, settings', enforced')]
            && again.value.assignments == Others(f.assignments, profile) + [Assignment(PolicyID(profile), target', FilterID(profile))]
  {
    var once := WithSettings(f, profile, target, settings, enforced);
    OthersOfConfigured(f, profile, Assignment(PolicyID(profile), target, FilterID(profile)));
    assert !Clashes(once, profile, settings', enforced');
    if settings' == settings && enforced' == enforced {
      assert PolicyFor(once, profile, settings, enforced) == once.policies[PolicyID(profile)];
      assert once.policies[PolicyID(profile) := once.policies[PolicyID(profile)]] == once.policies;
    }
  }

  /** Emptying: no assignment of the pair is left, and nothing of the policy reaches
      any device - through any assignment that still names it. */
  lemma EmptyingRemovesTheContribution(f: Fleet, profile: string, target: Target, enforced: seq<string>, tag: string)
    requires Configured(f, profile, target, map[], enforced).Ok?
    ensures var f' := Configured(f, profile, target, map[], enforced).value;
            && (forall i :: 0 <= i < |f'.assignments| ==> !IsOurs(f'.assignments[i], profile))
            && (forall i :: 0 <= i < |f'.assignments| && f'.assignments[i].policy == PolicyID(profile) ==>
                !ReachesAs(f', tag, i))
            && f'.assignments == Others(f.assignments, profile)
  {
    var f' := Emptied(f, profile);
    NoneOfOurs(f.assignments, profile);
    forall i | 0 <= i < |f'.assignments|
      ensures !IsOurs(f'.assignments[i], profile)
      ensures f'.assignments[i].policy == PolicyID(profile) ==> !ReachesAs(f', tag, i)
    {
      assert f'.assignments[i] in f'.assignments;
      ChainCarries(f', tag, i);
    }
  }

  /** The assignment named this model's filter before there was one, and would have
      reached the device but for that. */
  predicate Awakens(f: Fleet, profile: string, settings: map<string, Value>, tag: string, a: Assignment) {
    && settings != map[] && a.filter == FilterID(profile) && FilterID(profile) !in f.filters
    && tag in f.devices && f.devices[tag].hardware == profile
    && a.policy in f.policies && TargetPosition(OrderOf(f, tag), a.target, tag).Some?
  }

  /** Everybody else's assignments stay, and say to a device what they said exactly
      when configuring the model does not give them the filter they were missing. */
  lemma OtherAssignmentsSayTheSame(
      f: Fleet, profile: string, target: Target, settings: map<string, Value>, enforced: seq<string>, tag: string,
      a: Assignment)
    requires Configured(f, profile, target, settings, enforced).Ok?
    requires a in f.assignments && a.policy != PolicyID(profile)
    ensures var f' := Configured(f, profile, target, settings, enforced).value;
            a in f'.assignments &&
            (Voice(f', tag, a) == Voice(f, tag, a) <==> !Awakens(f, profile, settings, tag, a))
  {
    var f' := Configured(f, profile, target, settings, enforced).value;
    NoneOfOurs(f.assignments, profile);
    var rest := Others(f.assignments, profile);
    assert a in rest;
    var i :| 0 <= i < |rest| && rest[i] == a;
    if a.filter == FilterID(profile) && FilterID(profile) !in f.filters {
      if settings != map[] {
        SelectsTheModel(f', profile, tag);
      }
    } else {
      SameSelection(f, f', tag, a.filter);
      VoiceFrame(f, f', tag, a);
    }
  }

  lemma SelectsTheModel(f: Fleet, profile: string, tag: string)
    requires FilterID(profile) in f.filters && f.filters[FilterID(profile)] == ModelFilter(profile)
    ensures Selects(f, FilterID(profile), tag) <==> tag in f.devices && f.devices[tag].hardware == profile
  {
    var fl := f.filters[FilterID(profile)];
    assert fl.rules[0] == Rule(HardwareAttr, Eq, profile, []);
    if tag in f.devices {
      ModelFilterMatches(f, fl, profile, tag);
    } else {
      assert !MatchesRule(f, fl.rules[0], tag);
    }
  }

  // ---- Devices of other models ----------------------------------------

  /** Some assignment hands the device the model's policy: not the configuration's
      own, unless somebody made its filter select other devices. */
  ghost predicate HandsThePolicy(f: Fleet, profile: string, tag: string) {
    exists i :: 0 <= i < |f.assignments| && f.assignments[i].policy == PolicyID(profile) &&
      Heard(f, f.assignments[i], tag)
  }

  predicate Heard(f: Fleet, a: Assignment, tag: string) {
    TargetPosition(OrderOf(f, tag), a.target, tag).Some? && Selects(f, a.filter, tag)
  }

  /** The pair's own assignment is never the exception while its filter selects
      exactly the model - which configuring with settings insists on. */
  lemma OursIsNotHeard(f: Fleet, profile: string, tag: string, a: Assignment)
    requires FilterID(profile) in f.filters ==> SelectsExactly(f.filters[FilterID(profile)], profile)
    requires a.filter == FilterID(profile)
    requires tag in f.devices ==> f.devices[tag].hardware != profile
    ensures !Heard(f, a, tag) && Voice(f, tag, a).None?
  {
    if FilterID(profile) in f.filters {
      var fl := f.filters[FilterID(profile)];
      if tag in f.devices {
        ModelFilterMatches(f, fl, profile, tag);
      } else {
        assert !MatchesRule(f, fl.rules[0], tag);
      }
    }
  }

  /** Every assignment that stays says to a device of another model what it said. */
  lemma OtherModelHearsTheSame(
      f: Fleet, profile: string, target: Target, settings: map<string, Value>, enforced: seq<string>, tag: string,
      a: Assignment)
    requires Configured(f, profile, target, settings, enforced).Ok?
    requires tag in f.devices ==> f.devices[tag].hardware != profile
    requires a in f.assignments && !IsOurs(a, profile) && !HandsThePolicy(f, profile, tag)
    ensures var f' := Configured(f, profile, target, settings, enforced).value;
            Voice(f', tag, a) == Voice(f, tag, a)
  {
    hide Selects, Configured;
    if a.policy == PolicyID(profile) {
      NotHeard(f, profile, tag, a);
      SelectionOfOthers(f, profile, target, settings, enforced, tag, a);
    } else {
      OtherAssignmentsSayTheSame(f, profile, target, settings, enforced, tag, a);
    }
  }

  lemma NotHeard(f: Fleet, profile: string, tag: string, a: Assignment)
    requires a in f.assignments && a.policy == PolicyID(profile) && !HandsThePolicy(f, profile, tag)
    ensures !Heard(f, a, tag) && Voice(f, tag, a).None?
  {
    hide Heard;
    var i :| 0 <= i < |f.assignments| && f.assignments[i] == a;
    assert !Heard(f, f.assignments[i], tag);
    SilentIfNotHeard(f, tag, a);
  }

  lemma SilentIfNotHeard(f: Fleet, tag: string, a: Assignment)
    requires !Heard(f, a, tag)
    ensures Voice(f, tag, a).None?
  {
  }

  lemma SelectionOfOthers(
      f: Fleet, profile: string, target: Target, settings: map<string, Value>, enforced: seq<string>, tag: string,
      a: Assignment)
    requires Configured(f, profile, target, settings, enforced).Ok? && a.filter != FilterID(profile)
    ensures var f' := Configured(f, profile, target, settings, enforced).value;
            Heard(f', a, tag) == Heard(f, a, tag) && (!Heard(f, a, tag) ==> Voice(f', tag, a).None?)
  {
    var f' := Configured(f, profile, target, settings, enforced).value;
    SameSelection(f, f', tag, a.filter);
    assert OrderOf(f', tag) == OrderOf(f, tag);
  }

  /** One assignment's share, if it stays. */
  lemma OneHeardTheSame(
      f: Fleet, profile: string, target: Target, settings: map<string, Value>, enforced: seq<string>, tag: string,
      a: Assignment)
    requires Configured(f, profile, target, settings, enforced).Ok?
    requires tag in f.devices ==> f.devices[tag].hardware != profile
    requires !HandsThePolicy(f, profile, tag) && a in f.assignments
    ensures var f' := Configured(f, profile, target, settings, enforced).value;
            VoiceOf(f, tag, a) == if IsOurs(a, profile) then [] else VoiceOf(f', tag, a)
  {
    hide Configured, Voice, HandsThePolicy;
    if IsOurs(a, profile) {
      NotHeard(f, profile, tag, a);
    } else {
      OtherModelHearsTheSame(f, profile, target, settings, enforced, tag, a);
    }
  }

  lemma {:induction false} OthersHeardTheSame(
      f: Fleet, profile: string, target: Target, settings: map<string, Value>, enforced: seq<string>, tag: string,
      n: nat)
    requires Configured(f, profile, target, settings, enforced).Ok?
    requires tag in f.devices ==> f.devices[tag].hardware != profile
    requires !HandsThePolicy(f, profile, tag) && n <= |f.assignments|
    ensures var f' := Configured(f, profile, target, settings, enforced).value;
            Voices(f', tag, Others(f.assignments[..n], profile)) == Voices(f, tag, f.assignments[..n])
  {
    hide Configured, VoiceOf, HandsThePolicy, IsOurs;
    var f' := Configured(f, profile, target, settings, enforced).value;
    if n > 0 {
      var a, before := f.assignments[n - 1], f.assignments[..n - 1];
      OthersHeardTheSame(f, profile, target, settings, enforced, tag, n - 1);
      OneHeardTheSame(f, profile, target, settings, enforced, tag, a);
      assert f.assignments[..n] == before + [a] && (before + [a])[..n - 1] == before;
      var kept := Others(before, profile);
      assert Others(f.assignments[..n], profile) == kept + if IsOurs(a, profile) then [] else [a];
      hide Others, Voices;
      VoicesAppend(f, tag, before, a);
      VoicesAppend(f', tag, kept, a);
      assert kept + [] == kept;
    }
  }

  /** Configuring a model, or emptying it, changes nothing a device of another model
      builds from - unless an assignment hands that device the model's policy. */
  lemma OtherModelsAreUntouched(f: Fleet, profile: string, target: Target, settings: map<string, Value>,
      enforced: seq<string>, tag: string)
    requires Configured(f, profile, target, settings, enforced).Ok?
    requires tag in f.devices ==> f.devices[tag].hardware != profile
    requires !HandsThePolicy(f, profile, tag)
    ensures var f' := Configured(f, profile, target, settings, enforced).value;
            SettingsFrom(Chain(f', tag)) == SettingsFrom(Chain(f, tag)) && ShapeOf(f', tag) == ShapeOf(f, tag)
  {
    hide ShapeOf, Voice, Voices, Heard, HandsThePolicy;
    var f' := Configured(f, profile, target, settings, enforced).value;
    OthersHeardTheSame(f, profile, target, settings, enforced, tag, |f.assignments|);
    assert f.assignments[..|f.assignments|] == f.assignments;
    if settings != map[] {
      var ours := Assignment(PolicyID(profile), target, FilterID(profile));
      OursIsNotHeard(f', profile, tag, ours);
      VoicesAppend(f', tag, Others(f.assignments, profile), ours);
      assert VoiceOf(f', tag, ours) == [];
    }
    SameVoicesSameShape(f, f', tag);
  }

  /** The exception is real: another assignment of the model's policy goes silent
      when the model is emptied, though it is still in the list. */
  lemma EmptyingSilencesOtherAssignments(f: Fleet, profile: string, target: Target, enforced: seq<string>, tag: string,
      a: Assignment)
    requires Configured(f, profile, target, map[], enforced).Ok?
    requires a in f.assignments && a.policy == PolicyID(profile) && a.filter != FilterID(profile)
    ensures var f' := Configured(f, profile, target, map[], enforced).value;
            a in f'.assignments && Voice(f', tag, a) == None
  {
    NoneOfOurs(f.assignments, profile);
  }

  /** A policy that came from an overlay profile cannot be overwritten, but it can
      be emptied away. */
  lemma OverlayPolicyCanOnlyBeDeleted(f: Fleet, profile: string, target: Target, settings: map<string, Value>,
      enforced: seq<string>)
    requires ValidProfile(profile) && ValidTarget(f, target)
    requires PolicyID(profile) in f.policies && f.policies[PolicyID(profile)].profile != ""
    ensures Configured(f, profile, target, settings, enforced).Ok? <==> settings == map[]
    ensures settings == map[] ==>
            PolicyID(profile) !in Configured(f, profile, target, settings, enforced).value.policies
  {
  }
}
