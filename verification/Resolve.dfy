// Resolution over the compiled chain (resolve.go), the additive app lists
// (apps.go) and the configuration shape built from both (classes.go classKey).
module Resolve {
  import opened Wrappers
  import opened Order
  import opened Fleet
  import Text

  datatype Resolution = Resolution(value: Value, source: Source, enforced: bool)

  /** The contributor sets the key; in the enforced pass it must also lock it. */
  predicate Carries(c: Contributor, key: string, locked: bool) {
    key in c.settings && (locked ==> key in c.enforced)
  }

  /** One precedence rule for both passes: the more general (enforced pass) or
      more specific (default pass) scope, then inline over policy, then the
      earlier assignment. */
  predicate Beats(a: Contributor, b: Contributor, general: bool) {
    if a.specificity != b.specificity then
      if general then a.specificity < b.specificity else a.specificity > b.specificity
    else if a.inline != b.inline then a.inline
    else a.order < b.order
  }

  function Best(chain: seq<Contributor>, key: string, locked: bool): Option<Contributor> {
    if chain == [] then None
    else
      var c := chain[|chain| - 1];
      var best := Best(chain[..|chain| - 1], key, locked);
      if Carries(c, key, locked) && (best.None? || Beats(c, best.value, locked)) then Some(c) else best
  }

  function ResolveIn(chain: seq<Contributor>, key: string): Option<Resolution> {
    match Best(chain, key, true)
    case Some(c) => if key in c.settings then Some(Resolution(c.settings[key], c.source, true)) else None
    case None =>
      match Best(chain, key, false)
      case Some(c) => if key in c.settings then Some(Resolution(c.settings[key], c.source, false)) else None
      case None => None
  }

  /** One pass of resolveKey. */
  method Scan(chain: seq<Contributor>, key: string, locked: bool) returns (best: Option<Contributor>)
    ensures best == Best(chain, key, locked)
  {
    best := None;
    for i := 0 to |chain|
      invariant best == Best(chain[..i], key, locked)
    {
      assert chain[..i + 1][..i] == chain[..i];
      var c := chain[i];
      if Carries(c, key, locked) && (best.None? || Beats(c, best.value, locked)) {
        best := Some(c);
      }
    }
    assert chain[..|chain|] == chain;
  }

  method ResolveKey(chain: seq<Contributor>, key: string) returns (r: Option<Resolution>)
    ensures r == ResolveIn(chain, key)
  {
    BestIsExtreme(chain, key, true);
    BestIsExtreme(chain, key, false);
    var winner := Scan(chain, key, true);
    if winner.Some? {
      return Some(Resolution(winner.value.settings[key], winner.value.source, true));
    }
    winner := Scan(chain, key, false);
    if winner.Some? {
      return Some(Resolution(winner.value.settings[key], winner.value.source, false));
    }
    return None;
  }

  lemma {:induction false} BestIsExtreme(chain: seq<Contributor>, key: string, locked: bool)
    ensures Best(chain, key, locked).None? <==> forall c :: c in chain ==> !Carries(c, key, locked)
    ensures Best(chain, key, locked).Some? ==>
              var b := Best(chain, key, locked).value;
              b in chain && Carries(b, key, locked) &&
              forall c :: c in chain && Carries(c, key, locked) ==> !Beats(c, b, locked)
  {
    if chain != [] {
      var n := |chain| - 1;
      assert chain == chain[..n] + [chain[n]];
      BestIsExtreme(chain[..n], key, locked);
    }
  }

  predicate SameRank(a: Contributor, b: Contributor) {
    a.specificity == b.specificity && a.inline == b.inline && a.order == b.order
  }

  /** No two contributors of a device's chain tie on specificity, inline-ness
      and assignment order together. */
  ghost predicate RanksDistinct(chain: set<Contributor>) {
    forall a, b :: a in chain && b in chain && SameRank(a, b) ==> a == b
  }

  lemma PolicyContributorShape(f: Fleet, tag: string, c: Contributor)
    requires c in PolicyPart(f, tag, |f.assignments|)
    ensures !c.inline && c.order < |f.assignments| && Contribution(f, tag, c.order) == Some(c)
  {
    PolicyPartMembers(f, tag, |f.assignments|, c);
  }

  lemma InlineContributorShape(f: Fleet, tag: string, c: Contributor)
    requires c in OrgPart(f) + GroupPart(f.groups, OrderOf(f, tag)) + DevicePart(f, tag)
    ensures c.inline && c.order == 0
    ensures var order := OrderOf(f, tag);
            || (c.specificity == 0 && f.org.Some? && c == Inline(0, OrgRef, f.org.value))
            || (1 <= c.specificity <= |order| &&
                c == Inline(c.specificity, GroupRef(order[c.specificity - 1]), OwnScope(f.groups, order[c.specificity - 1])))
            || (c.specificity == |order| + 1 && c == Inline(c.specificity, DeviceRef, DeviceAt(f, tag).own))
  {
    GroupPartMembers(f.groups, OrderOf(f, tag), c);
  }

  lemma ChainRanksDistinct(f: Fleet, tag: string)
    ensures RanksDistinct(Elements(Chain(f, tag)))
  {
    forall a, b | a in Chain(f, tag) && b in Chain(f, tag) && SameRank(a, b)
      ensures a == b
    {
      if a in PolicyPart(f, tag, |f.assignments|) {
        PolicyContributorShape(f, tag, a);
      } else {
        InlineContributorShape(f, tag, a);
      }
      if b in PolicyPart(f, tag, |f.assignments|) {
        PolicyContributorShape(f, tag, b);
      } else {
        InlineContributorShape(f, tag, b);
      }
    }
  }

  /** Whatever order the chain was assembled in, the winner is the same. */
  lemma OrderIndependent(f: Fleet, tag: string, chain: seq<Contributor>, key: string)
    requires Elements(chain) == Elements(Chain(f, tag))
    ensures ResolveIn(chain, key) == ResolveIn(Chain(f, tag), key)
  {
    ChainRanksDistinct(f, tag);
    SameWinner(chain, Chain(f, tag), key, true);
    SameWinner(chain, Chain(f, tag), key, false);
  }

  lemma SameWinner(a: seq<Contributor>, b: seq<Contributor>, key: string, locked: bool)
    requires Elements(a) == Elements(b) && RanksDistinct(Elements(b))
    ensures Best(a, key, locked) == Best(b, key, locked)
  {
    BestIsExtreme(a, key, locked);
    BestIsExtreme(b, key, locked);
    assert forall c :: c in a <==> c in Elements(a);
    assert forall c :: c in b <==> c in Elements(b);
  }

  /** The precedence rule, stated on the chain as a set: a locked key takes the
      value of the locking contributor every other locking contributor is below
      in generality; an unlocked key takes the most specific one. */
  lemma Precedence(f: Fleet, tag: string, key: string)
    ensures ResolveIn(Chain(f, tag), key).Some? <==> exists c :: c in Chain(f, tag) && key in c.settings
    ensures ResolveIn(Chain(f, tag), key).Some? ==>
              var r := ResolveIn(Chain(f, tag), key).value;
              (r.enforced <==> exists c :: c in Chain(f, tag) && Carries(c, key, true)) &&
              exists w :: w in Chain(f, tag) && Carries(w, key, r.enforced) &&
                r.value == w.settings[key] && r.source == w.source &&
                forall c :: c in Chain(f, tag) && Carries(c, key, r.enforced) && c != w ==> Beats(w, c, r.enforced)
  {
    ChainRanksDistinct(f, tag);
    hide Chain;
    PrecedenceIn(Chain(f, tag), key);
  }

  lemma PrecedenceIn(chain: seq<Contributor>, key: string)
    requires RanksDistinct(Elements(chain))
    ensures ResolveIn(chain, key).Some? <==> exists c :: c in chain && key in c.settings
    ensures ResolveIn(chain, key).Some? ==>
              var r := ResolveIn(chain, key).value;
              (r.enforced <==> exists c :: c in chain && Carries(c, key, true)) &&
              exists w :: w in chain && Carries(w, key, r.enforced) &&
                r.value == w.settings[key] && r.source == w.source &&
                forall c :: c in chain && Carries(c, key, r.enforced) && c != w ==> Beats(w, c, r.enforced)
  {
    BestIsExtreme(chain, key, true);
    BestIsExtreme(chain, key, false);
    assert forall c :: c in chain <==> c in Elements(chain);
    hide Best;
    if Best(chain, key, true).Some? {
      var w := Best(chain, key, true).value;
      assert Carries(w, key, true);
    } else if Best(chain, key, false).Some? {
      var w := Best(chain, key, false).value;
      assert Carries(w, key, false);
    } else {
      forall c | c in chain ensures key !in c.settings {
        assert !Carries(c, key, false);
      }
    }
  }

  function KeysOf(chain: seq<Contributor>): (keys: set<string>)
    ensures forall k :: k in keys <==> exists c :: c in chain && k in c.settings
  {
    set c, k | c in chain && k in c.settings :: k
  }

  /** ResolveSorted, as a map: effective value and whether it is enforced. */
  function SettingsFrom(chain: seq<Contributor>): map<string, (Value, bool)> {
    map k | k in KeysOf(chain) && ResolveIn(chain, k).Some? ::
      (ResolveIn(chain, k).value.value, ResolveIn(chain, k).value.enforced)
  }

  // ---- Apps -----------------------------------------------------------

  function TrimAll(xs: seq<string>): (r: seq<string>)
    ensures |r| == |xs| && forall i :: 0 <= i < |xs| ==> r[i] == Text.Trim(xs[i])
  {
    seq(|xs|, i requires 0 <= i < |xs| => Text.Trim(xs[i]))
  }

  /** What dedup keeps of the trimmed names, in order of first appearance. */
  function Kept(xs: seq<string>): seq<string> {
    if xs == [] then [] else Keep(Kept(xs[..|xs| - 1]), xs[|xs| - 1])
  }

  function Keep(kept: seq<string>, x: string): seq<string> {
    if x == "" || x in kept then kept else kept + [x]
  }

  lemma {:induction false} KeptMeaning(xs: seq<string>)
    ensures forall x :: x in Kept(xs) <==> x != "" && x in xs
    ensures Distinct(Kept(xs))
  {
    if xs != [] {
      assert xs == xs[..|xs| - 1] + [xs[|xs| - 1]];
      KeptMeaning(xs[..|xs| - 1]);
    }
  }

  function Deduped(xs: seq<string>): seq<string> {
    Sort(Kept(TrimAll(xs)))
  }

  lemma KeptStep(xs: seq<string>, i: nat)
    requires i < |xs|
    ensures Kept(xs[..i + 1]) == Keep(Kept(xs[..i]), xs[i])
  {
    assert xs[..i + 1][..i] == xs[..i];
  }

  /** dedup: trims, drops blanks and repeats, sorts. */
  method Dedup(xs: seq<string>) returns (out: seq<string>)
    ensures out == Deduped(xs)
  {
    var seen: set<string> := {};
    out := [];
    ghost var trimmed := TrimAll(xs);
    for i := 0 to |xs|
      invariant out == Kept(trimmed[..i])
      invariant forall x :: x in seen <==> x in out
    {
      var s := Text.Trim(xs[i]);
      KeptStep(trimmed, i);
      if !(s == "" || s in seen) {
        seen := seen + {s};
        out := out + [s];
      }
    }
    assert trimmed[..|xs|] == trimmed;
    out := Sort(out);
  }

  /** dedup is exactly the set of trimmed non-blank names, sorted and without
      repeats; doing it twice changes nothing. */
  lemma DedupMeaning(xs: seq<string>)
    ensures forall x :: x in Deduped(xs) <==> x != "" && x in TrimAll(xs)
    ensures Sorted(Deduped(xs)) && Distinct(Deduped(xs))
    ensures Deduped(Deduped(xs)) == Deduped(xs)
  {
    DedupMembers(xs);
    hide Deduped, Sorted, Distinct;
    var once := Deduped(xs);
    forall i | 0 <= i < |once| ensures Text.Trim(once[i]) == once[i] && once[i] != "" {
      assert once[i] in once;
    }
    DedupAgain(once);
  }

  lemma DedupMembers(xs: seq<string>)
    ensures forall x :: x in Deduped(xs) <==> x != "" && x in TrimAll(xs)
    ensures Sorted(Deduped(xs)) && Distinct(Deduped(xs))
    ensures forall x :: x in Deduped(xs) ==> Text.Trim(x) == x
  {
    hide Text.Trim, Sort, Kept;
    KeptMeaning(TrimAll(xs));
    SortSorted(Kept(TrimAll(xs)));
    SortDistinct(Kept(TrimAll(xs)));
    forall x | x in Deduped(xs) ensures Text.Trim(x) == x {
      assert x in TrimAll(xs);
      var i :| 0 <= i < |xs| && TrimAll(xs)[i] == x;
      TrimTwice(xs[i]);
    }
  }

  lemma TrimTwice(x: string)
    ensures Text.Trim(Text.Trim(x)) == Text.Trim(x)
  {
  }

  /** A list dedup left is left alone by dedup. */
  lemma DedupAgain(once: seq<string>)
    requires Sorted(once) && Distinct(once) && forall i :: 0 <= i < |once| ==>
             Text.Trim(once[i]) == once[i] && once[i] != ""
    ensures Deduped(once) == once
  {
    hide Text.Trim;
    assert TrimAll(once) == once;
    DedupMembers(once);
    assert forall x :: x in Deduped(once) <==> x in once;
    hide Deduped, Sorted, Distinct;
    assert Elements(Deduped(once)) == Elements(once);
    SortedUnique(Deduped(once), once);
  }

  function JoinApps(a: Apps, b: Apps): Apps {
    Apps(a.packages + b.packages, a.flatpaks + b.flatpaks, a.overlays + b.overlays)
  }

  function AncestryApps(groups: map<string, Group>, chain: seq<string>): Apps {
    if chain == [] then NO_APPS
    else
      var n := |chain| - 1;
      JoinApps(AncestryApps(groups, chain[..n]), OwnScope(groups, chain[n]).apps)
  }

  function MemberApps(groups: map<string, Group>, members: seq<string>): Apps {
    if members == [] then NO_APPS
    else
      var n := |members| - 1;
      JoinApps(MemberApps(groups, members[..n]), AncestryApps(groups, Ancestry(groups, members[n])))
  }

  function GatheredApps(f: Fleet, tag: string): Apps {
    var org := if f.org.Some? then f.org.value.apps else NO_APPS;
    JoinApps(JoinApps(org, MemberApps(f.groups, DeviceAt(f, tag).groups)), DeviceAt(f, tag).own.apps)
  }

  function DedupedApps(all: Apps): Apps {
    Apps(Deduped(all.packages), Deduped(all.flatpaks), Deduped(all.overlays))
  }

  /** ResolveApps: org, group ancestry and device, unioned. */
  function AppsOf(f: Fleet, tag: string): Apps {
    DedupedApps(GatheredApps(f, tag))
  }

  datatype AppKind = PackageKind | FlatpakKind | OverlayKind

  function ListOf(a: Apps, kind: AppKind): seq<string> {
    match kind
    case PackageKind => a.packages
    case FlatpakKind => a.flatpaks
    case OverlayKind => a.overlays
  }

  lemma JoinedLists(a: Apps, b: Apps, kind: AppKind, x: string)
    ensures x in ListOf(JoinApps(a, b), kind) <==> x in ListOf(a, kind) || x in ListOf(b, kind)
  {
  }

  lemma {:induction false} AncestryAppsMembers(groups: map<string, Group>, chain: seq<string>, kind: AppKind, x: string)
    ensures x in ListOf(AncestryApps(groups, chain), kind) <==>
            exists g :: g in chain && x in ListOf(OwnScope(groups, g).apps, kind)
  {
    if chain != [] {
      var n := |chain| - 1;
      assert chain == chain[..n] + [chain[n]];
      AncestryAppsMembers(groups, chain[..n], kind, x);
      JoinedLists(AncestryApps(groups, chain[..n]), OwnScope(groups, chain[n]).apps, kind, x);
    }
  }

  lemma {:induction false} MemberAppsMembers(groups: map<string, Group>, members: seq<string>, kind: AppKind, x: string)
    ensures x in ListOf(MemberApps(groups, members), kind) <==>
            exists g :: Meets(groups, members, g) && x in ListOf(OwnScope(groups, g).apps, kind)
  {
    if members != [] {
      var n := |members| - 1;
      MemberAppsMembers(groups, members[..n], kind, x);
      AncestryAppsMembers(groups, Ancestry(groups, members[n]), kind, x);
      JoinedLists(MemberApps(groups, members[..n]), AncestryApps(groups, Ancestry(groups, members[n])), kind, x);
      forall g ensures Meets(groups, members, g) <==>
          Meets(groups, members[..n], g) || g in Ancestry(groups, members[n]) {
        MeetsStep(groups, members, g);
      }
    }
  }

  lemma MeetsStep(groups: map<string, Group>, members: seq<string>, g: string)
    requires members != []
    ensures var n := |members| - 1;
            Meets(groups, members, g) <==> Meets(groups, members[..n], g) || g in Ancestry(groups, members[n])
  {
    var n := |members| - 1;
    if Meets(groups, members[..n], g) {
      var i :| 0 <= i < n && g in Ancestry(groups, members[..n][i]);
      assert g in Ancestry(groups, members[i]);
    }
    if Meets(groups, members, g) && g !in Ancestry(groups, members[n]) {
      var i :| 0 <= i < |members| && g in Ancestry(groups, members[i]);
      assert members[..n][i] == members[i];
    }
  }

  /** Some scope of the device lists the text: the organisation, a group of its
      ancestry, or the device itself. */
  ghost predicate Lists(f: Fleet, tag: string, kind: AppKind, x: string) {
    || (f.org.Some? && x in ListOf(f.org.value.apps, kind))
    || (exists g :: g in AncestorSet(f, tag) && x in ListOf(OwnScope(f.groups, g).apps, kind))
    || x in ListOf(DeviceAt(f, tag).own.apps, kind)
  }

  lemma GatheredFromScopes(f: Fleet, tag: string, kind: AppKind, x: string)
    ensures x in ListOf(GatheredApps(f, tag), kind) <==> Lists(f, tag, kind, x)
  {
    var org := if f.org.Some? then f.org.value.apps else NO_APPS;
    var groups := MemberApps(f.groups, DeviceAt(f, tag).groups);
    JoinedLists(org, groups, kind, x);
    JoinedLists(JoinApps(org, groups), DeviceAt(f, tag).own.apps, kind, x);
    MemberAppsMembers(f.groups, DeviceAt(f, tag).groups, kind, x);
  }

  /** Apps are additive: a device gets exactly the trimmed non-blank names some
      scope on its chain lists, each once, ascending. */
  lemma AppsAreTheUnion(f: Fleet, tag: string, kind: AppKind, x: string)
    ensures x in ListOf(AppsOf(f, tag), kind) <==>
            x != "" && exists raw :: Text.Trim(raw) == x && Lists(f, tag, kind, raw)
    ensures Sorted(ListOf(AppsOf(f, tag), kind)) && Distinct(ListOf(AppsOf(f, tag), kind))
  {
    hide Deduped, Text.Trim, GatheredApps, Lists;
    var all := ListOf(GatheredApps(f, tag), kind);
    assert ListOf(AppsOf(f, tag), kind) == Deduped(all);
    DedupMeaning(all);
    forall raw ensures raw in all <==> Lists(f, tag, kind, raw) {
      GatheredFromScopes(f, tag, kind, raw);
    }
    assert forall i :: 0 <= i < |all| ==> TrimAll(all)[i] == Text.Trim(all[i]);
    if x in TrimAll(all) {
      var i :| 0 <= i < |all| && TrimAll(all)[i] == x;
      assert Lists(f, tag, kind, all[i]);
    }
    if raw :| Text.Trim(raw) == x && Lists(f, tag, kind, raw) {
      var i :| 0 <= i < |all| && all[i] == raw;
      assert TrimAll(all)[i] == x;
    }
  }

  /** The inner loop of ResolveApps: one group's ancestry. */
  method AddAncestry(f: Fleet, g: string, before: Apps) returns (all: Apps)
    ensures all == JoinApps(before, AncestryApps(f.groups, Ancestry(f.groups, g)))
  {
    all := before;
    var chain := GroupAncestry(f, g);
    for j := 0 to |chain|
      invariant all == JoinApps(before, AncestryApps(f.groups, chain[..j]))
    {
      assert chain[..j + 1][..j] == chain[..j];
      all := JoinApps(all, OwnScope(f.groups, chain[j]).apps);
    }
    assert chain[..|chain|] == chain;
  }

  method GatherApps(f: Fleet, tag: string) returns (all: Apps)
    ensures all == GatheredApps(f, tag)
  {
    hide AncestryApps, Ancestry;
    var org := if f.org.Some? then f.org.value.apps else NO_APPS;
    all := org;
    var members := DeviceAt(f, tag).groups;
    for i := 0 to |members|
      invariant all == JoinApps(org, MemberApps(f.groups, members[..i]))
    {
      assert members[..i + 1][..i] == members[..i];
      ghost var before := MemberApps(f.groups, members[..i]);
      all := AddAncestry(f, members[i], all);
      JoinAssociates(org, before, AncestryApps(f.groups, Ancestry(f.groups, members[i])));
    }
    assert members[..|members|] == members;
    all := JoinApps(all, DeviceAt(f, tag).own.apps);
  }

  lemma JoinAssociates(a: Apps, b: Apps, c: Apps)
    ensures JoinApps(JoinApps(a, b), c) == JoinApps(a, JoinApps(b, c))
  {
  }

  /** ResolveApps, as the loops the console runs. */
  method ResolveApps(f: Fleet, tag: string) returns (apps: Apps)
    ensures apps == AppsOf(f, tag)
  {
    hide Deduped, GatheredApps;
    var all := GatherApps(f, tag);
    var packages := Dedup(all.packages);
    var flatpaks := Dedup(all.flatpaks);
    var overlays := Dedup(all.overlays);
    apps := Apps(packages, flatpaks, overlays);
  }

  // ---- The configuration shape ---------------------------------------

  /** What classKey fingerprints: identity-adjacent inputs, group membership
      with pins, effective settings with enforcement, effective apps. */
  datatype Shape = Shape(
    hardware: string, cls: string, pin: string, groupPins: map<string, string>,
    settings: map<string, (Value, bool)>, apps: Apps)

  function PinOf(groups: map<string, Group>, g: string): string {
    if g in groups then groups[g].pin else ""
  }

  function GroupPins(f: Fleet, tag: string): map<string, string> {
    map g | g in AncestorSet(f, tag) :: PinOf(f.groups, g)
  }

  function ShapeOf(f: Fleet, tag: string): Shape {
    var d := DeviceAt(f, tag);
    Shape(d.hardware, d.cls, d.pin, GroupPins(f, tag), SettingsFrom(Chain(f, tag)), AppsOf(f, tag))
  }

  /** The active devices and the shape each builds from. ClassKeyOf reads this
      map: a device outside it (unknown or retired) has no class key. */
  function Built(f: Fleet): (built: map<string, Shape>)
    ensures forall tag :: tag in built <==> Builds(f, tag)
    ensures forall tag :: tag in built ==> built[tag] == ShapeOf(f, tag)
  {
    map tag | tag in f.devices && Builds(f, tag) :: ShapeOf(f, tag)
  }
}
