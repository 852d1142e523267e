// Editing the assignment list (internal/domain/fleet/policy.go): what a device's
// settings resolve to depends on what each assignment says to it and in which
// order, not on where in the list it stands - so an assignment that says nothing
// to a device may come and go.
module Assignments {
  import opened Wrappers
  import opened Order
  import opened Fleet
  import opened Resolve
  import opened Gate
  import opened BlastRadius

  /** What an assignment says to a device, wherever it stands in the list. */
  function Voice(f: Fleet, tag: string, a: Assignment): Option<Contributor> {
    var at := TargetPosition(OrderOf(f, tag), a.target, tag);
    if a.policy !in f.policies || at.None? || !Selects(f, a.filter, tag) then None
    else
      var p := f.policies[a.policy];
      Some(Contributor(at.value, false, 0, Source(TargetRef(a.target), a.policy), p.settings, Elements(p.enforced)))
  }

  function VoiceOf(f: Fleet, tag: string, a: Assignment): seq<Contributor> {
    match Voice(f, tag, a) case None => [] case Some(c) => [c]
  }

  function Voices(f: Fleet, tag: string, assignments: seq<Assignment>): seq<Contributor> {
    if assignments == [] then []
    else
      var n := |assignments| - 1;
      Voices(f, tag, assignments[..n]) + VoiceOf(f, tag, assignments[n])
  }

  // ---- Resolution ignores the numbering -------------------------------

  /** The same contributor, but for where its assignment stands. */
  predicate SameBut(a: Contributor, b: Contributor) {
    a.(order := 0) == b.(order := 0) && (a.inline ==> a.order == b.order)
  }

  ghost predicate Ascending(chain: seq<Contributor>) {
    forall i, j :: 0 <= i < j < |chain| && !chain[i].inline && !chain[j].inline ==> chain[i].order < chain[j].order
  }

  ghost predicate Parallel(a: seq<Contributor>, b: seq<Contributor>) {
    |a| == |b| && Ascending(a) && Ascending(b) && forall i :: 0 <= i < |a| ==> SameBut(a[i], b[i])
  }

  lemma {:induction false} BestParallel(a: seq<Contributor>, b: seq<Contributor>, key: string, locked: bool)
      returns (i: nat)
    requires Parallel(a, b)
    ensures Best(a, key, locked).None? <==> Best(b, key, locked).None?
    ensures Best(a, key, locked).Some? ==>
            i < |a| && Best(a, key, locked) == Some(a[i]) && Best(b, key, locked) == Some(b[i])
  {
    i := 0;
    if a != [] {
      var n := |a| - 1;
      i := BestParallel(a[..n], b[..n], key, locked);
      assert SameBut(a[n], b[n]);
      if Best(a[..n], key, locked).Some? {
        assert a[..n][i] == a[i] && b[..n][i] == b[i];
        BeatsParallel(a, b, i, n, locked);
      }
      if Best(a, key, locked) == Some(a[n]) && Best(b, key, locked) == Some(b[n]) {
        i := n;
      }
    }
  }

  lemma BeatsParallel(a: seq<Contributor>, b: seq<Contributor>, i: nat, n: nat, locked: bool)
    requires Parallel(a, b) && i < n < |a|
    ensures Beats(a[n], a[i], locked) <==> Beats(b[n], b[i], locked)
  {
    assert SameBut(a[n], b[n]) && SameBut(a[i], b[i]);
  }

  lemma ResolvesParallel(a: seq<Contributor>, b: seq<Contributor>, key: string)
    requires Parallel(a, b)
    ensures ResolveIn(a, key) == ResolveIn(b, key)
  {
    var i := BestParallel(a, b, key, true);
    var j := BestParallel(a, b, key, false);
    assert i < |a| ==> SameBut(a[i], b[i]);
    assert j < |a| ==> SameBut(a[j], b[j]);
  }

  lemma SettingsParallel(a: seq<Contributor>, b: seq<Contributor>)
    requires Parallel(a, b)
    ensures SettingsFrom(a) == SettingsFrom(b)
  {
    forall k ensures k in KeysOf(a) <==> k in KeysOf(b) {
      if k in KeysOf(a) {
        var i :| 0 <= i < |a| && k in a[i].settings;
        assert SameBut(a[i], b[i]) && b[i] in b;
      }
      if k in KeysOf(b) {
        var i :| 0 <= i < |b| && k in b[i].settings;
        assert SameBut(a[i], b[i]) && a[i] in a;
      }
    }
    forall k ensures ResolveIn(a, k) == ResolveIn(b, k) {
      ResolvesParallel(a, b, k);
    }
    hide ResolveIn, KeysOf;
  }

  // ---- The policy part is the voices, numbered ------------------------

  ghost predicate Numbers(part: seq<Contributor>, voices: seq<Contributor>, below: nat) {
    && |part| == |voices| && Ascending(part)
    && forall i :: 0 <= i < |part| ==> !part[i].inline && part[i].order < below && part[i].(order := 0) == voices[i]
  }

  lemma {:induction false} PolicyPartVoices(f: Fleet, tag: string, n: nat)
    requires n <= |f.assignments|
    ensures Numbers(PolicyPart(f, tag, n), Voices(f, tag, f.assignments[..n]), n)
  {
    if n > 0 {
      PolicyPartVoices(f, tag, n - 1);
      assert f.assignments[..n][..n - 1] == f.assignments[..n - 1];
      var before := PolicyPart(f, tag, n - 1);
      var c := Contribution(f, tag, n - 1);
      if c.Some? {
        assert Voice(f, tag, f.assignments[n - 1]) == Some(c.value.(order := 0));
        assert PolicyPart(f, tag, n) == before + [c.value];
      }
    }
  }

  /** The inline part of the chain. */
  function Inlined(f: Fleet, tag: string): seq<Contributor> {
    OrgPart(f) + GroupPart(f.groups, OrderOf(f, tag)) + DevicePart(f, tag)
  }

  lemma InlinedIsInline(f: Fleet, tag: string)
    ensures forall i :: 0 <= i < |Inlined(f, tag)| ==> Inlined(f, tag)[i].inline
  {
    forall i | 0 <= i < |Inlined(f, tag)| ensures Inlined(f, tag)[i].inline {
      InlineContributorShape(f, tag, Inlined(f, tag)[i]);
    }
  }

  lemma SameInlined(f: Fleet, f': Fleet, tag: string)
    requires f'.org == f.org && f'.groups == f.groups && f'.devices == f.devices
    ensures Inlined(f', tag) == Inlined(f, tag)
  {
  }

  lemma NumberedChain(inlined: seq<Contributor>, a: seq<Contributor>, b: seq<Contributor>, voices: seq<Contributor>,
      n: nat, m: nat)
    requires Numbers(a, voices, n) && Numbers(b, voices, m) && forall i :: 0 <= i < |inlined| ==> inlined[i].inline
    ensures Parallel(inlined + a, inlined + b)
  {
  }

  /** A device whose document is the same but for the assignments, and who is told
      the same in the same order, builds the same. */
  lemma SameVoicesSameShape(f: Fleet, f': Fleet, tag: string)
    requires f'.org == f.org && f'.groups == f.groups && f'.devices == f.devices
    requires Voices(f', tag, f'.assignments) == Voices(f, tag, f.assignments)
    ensures SettingsFrom(Chain(f', tag)) == SettingsFrom(Chain(f, tag))
    ensures ShapeOf(f', tag) == ShapeOf(f, tag)
  {
    SameVoicesSameChain(f, f', tag);
    hide Chain, Parallel, GroupPins;
    SettingsParallel(Chain(f', tag), Chain(f, tag));
    SameApps(f, f', tag);
  }

  lemma SameVoicesSameChain(f: Fleet, f': Fleet, tag: string)
    requires f'.org == f.org && f'.groups == f.groups && f'.devices == f.devices
    requires Voices(f', tag, f'.assignments) == Voices(f, tag, f.assignments)
    ensures Parallel(Chain(f', tag), Chain(f, tag))
  {
    var n, m := |f'.assignments|, |f.assignments|;
    hide PolicyPart, GroupPart, Voices, Numbers, Parallel, OrderOf, DevicePart, OrgPart;
    PolicyPartVoices(f', tag, n);
    PolicyPartVoices(f, tag, m);
    InlinedIsInline(f, tag);
    SameInlined(f, f', tag);
    assert f'.assignments[..n] == f'.assignments && f.assignments[..m] == f.assignments;
    NumberedChain(Inlined(f, tag), PolicyPart(f', tag, n), PolicyPart(f, tag, m), Voices(f, tag, f.assignments), n, m);
  }

  lemma SameApps(f: Fleet, f': Fleet, tag: string)
    requires f'.org == f.org && f'.groups == f.groups && f'.devices == f.devices
    ensures AppsOf(f', tag) == AppsOf(f, tag) && GroupPins(f', tag) == GroupPins(f, tag)
  {
    hide DedupedApps, MemberApps;
  }

  // ---- Assign and unassign --------------------------------------------

  function Assigned(f: Fleet, a: Assignment): Fleet {
    f.(assignments := f.assignments + [a])
  }

  function Dropped(assignments: seq<Assignment>, a: Assignment): seq<Assignment> {
    if assignments == [] then []
    else
      var n := |assignments| - 1;
      Dropped(assignments[..n], a) + if assignments[n] == a then [] else [assignments[n]]
  }

  function Unassigned(f: Fleet, a: Assignment): Fleet {
    f.(assignments := Dropped(f.assignments, a))
  }

  lemma VoiceFrame(f: Fleet, f': Fleet, tag: string, a: Assignment)
    requires f'.groups == f.groups && f'.devices == f.devices
    requires a.policy in f.policies <==> a.policy in f'.policies
    requires a.policy in f.policies ==> f'.policies[a.policy] == f.policies[a.policy]
    requires Selects(f', a.filter, tag) == Selects(f, a.filter, tag)
    ensures Voice(f', tag, a) == Voice(f, tag, a)
  {
  }

  lemma SameSelection(f: Fleet, f': Fleet, tag: string, filter: string)
    requires f'.devices == f.devices && f'.groups == f.groups
    requires filter in f.filters <==> filter in f'.filters
    requires filter in f.filters ==> f'.filters[filter] == f.filters[filter]
    ensures Selects(f', filter, tag) == Selects(f, filter, tag)
  {
    if filter in f.filters {
      SameMatches(f, f', f.filters[filter], tag);
    }
  }

  lemma SameMatches(f: Fleet, f': Fleet, fl: Filter, tag: string)
    requires f'.devices == f.devices && f'.groups == f.groups
    ensures MatchesFilter(f', fl, tag) == MatchesFilter(f, fl, tag)
  {
    forall i | 0 <= i < |fl.rules| ensures MatchesRule(f', fl.rules[i], tag) == MatchesRule(f, fl.rules[i], tag) {
      assert AttrValue(f', fl.rules[i].attr, tag) == AttrValue(f, fl.rules[i].attr, tag);
    }
  }

  lemma {:induction false} VoicesFrame(f: Fleet, f': Fleet, tag: string, assignments: seq<Assignment>)
    requires f'.groups == f.groups && f'.devices == f.devices && f'.policies == f.policies && f'.filters == f.filters
    ensures Voices(f', tag, assignments) == Voices(f, tag, assignments)
  {
    if assignments != [] {
      var n := |assignments| - 1;
      VoicesFrame(f, f', tag, assignments[..n]);
      SameSelection(f, f', tag, assignments[n].filter);
      VoiceFrame(f, f', tag, assignments[n]);
    }
  }

  lemma VoicesAppend(f: Fleet, tag: string, assignments: seq<Assignment>, a: Assignment)
    ensures Voices(f, tag, assignments + [a]) == Voices(f, tag, assignments) + VoiceOf(f, tag, a)
  {
    assert (assignments + [a])[..|assignments|] == assignments;
  }

  lemma {:induction false} SilentMayGo(f: Fleet, tag: string, assignments: seq<Assignment>, a: Assignment)
    requires Voice(f, tag, a).None?
    ensures Voices(f, tag, Dropped(assignments, a)) == Voices(f, tag, assignments)
  {
    if assignments != [] {
      var n := |assignments| - 1;
      SilentMayGo(f, tag, assignments[..n], a);
      assert assignments == assignments[..n] + [assignments[n]];
      VoicesAppend(f, tag, assignments[..n], assignments[n]);
      var kept := Dropped(assignments[..n], a);
      VoicesAppend(f, tag, kept, assignments[n]);
      if assignments[n] == a {
        assert Dropped(assignments, a) == kept && VoiceOf(f, tag, a) == [];
      } else {
        assert Dropped(assignments, a) == kept + [assignments[n]];
      }
    }
  }

  /** Assigning or unassigning at a target leaves a device alone whose chain the
      target is not on. */
  lemma AssignmentEditFrame(f: Fleet, a: Assignment, tag: string)
    requires TargetPosition(OrderOf(f, tag), a.target, tag).None?
    ensures ShapeOf(Assigned(f, a), tag) == ShapeOf(f, tag)
    ensures ShapeOf(Unassigned(f, a), tag) == ShapeOf(f, tag)
  {
    hide ShapeOf;
    var on, off := Assigned(f, a), Unassigned(f, a);
    assert on.assignments[..|f.assignments|] == f.assignments;
    assert Voice(f, tag, a).None?;
    VoicesFrame(f, on, tag, f.assignments);
    VoicesFrame(f, off, tag, off.assignments);
    VoiceFrame2(f, on, tag, a);
    SilentMayGo(f, tag, f.assignments, a);
    assert Voices(on, tag, on.assignments) == Voices(f, tag, f.assignments);
    SameVoicesSameShape(f, on, tag);
    SameVoicesSameShape(f, off, tag);
  }

  lemma VoiceFrame2(f: Fleet, f': Fleet, tag: string, a: Assignment)
    requires f'.groups == f.groups && f'.devices == f.devices && f'.policies == f.policies && f'.filters == f.filters
    ensures Voice(f', tag, a) == Voice(f, tag, a)
  {
    SameSelection(f, f', tag, a.filter);
    VoiceFrame(f, f', tag, a);
  }

  /** The hosts such an edit is gated on, AffectedHosts of its target read off the
      document it lands on, cover it: the device, the group's radius, or everything. */
  lemma AssignmentEditCovered(f: Fleet, a: Assignment, hosts: seq<string>)
    requires match a.target
             case OrgTarget => hosts == []
             case GroupTarget(g) => hosts == [] || GroupRadius(f, g) <= Elements(hosts)
             case DeviceTarget(t) => hosts == [] || t in hosts
             case BadTarget(_) => true
    ensures Covers(ViewOf(f), ViewOf(Assigned(f, a)), hosts) && Covers(ViewOf(f), ViewOf(Unassigned(f, a)), hosts)
  {
    if hosts != [] {
      forall tag | Builds(f, tag) && tag !in hosts
        ensures ShapeOf(Assigned(f, a), tag) == ShapeOf(f, tag) && ShapeOf(Unassigned(f, a), tag) == ShapeOf(f, tag)
      {
        OutsideIsOffTheChain(f, a.target, hosts, tag);
        AssignmentEditFrame(f, a, tag);
      }
    }
  }

  lemma OutsideIsOffTheChain(f: Fleet, target: Target, hosts: seq<string>, tag: string)
    requires Builds(f, tag) && tag !in hosts && !target.OrgTarget?
    requires target.GroupTarget? ==> GroupRadius(f, target.group) <= Elements(hosts)
    requires target.DeviceTarget? ==> target.tag in hosts
    ensures TargetPosition(OrderOf(f, tag), target, tag).None?
  {
    TargetIsOnTheChain(f, target, tag);
    if target.GroupTarget? {
      assert tag !in Elements(hosts);
      assert tag !in GroupRadius(f, target.group);
    }
  }
}
