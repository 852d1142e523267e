// Change requests (internal/domain/change/change.go) and the radius a submit
// and a merge are gated on (internal/app/change.go): what a change records of
// its edits, what is sampled from it, and what a pass then proves.
module Change {
  import opened Order
  import opened Gate
  import opened Wrappers
  import Sampling

  datatype Status = Draft | Building | Failed | Ready | Merged | Abandoned

  /** The status machine's table. */
  predicate CanTransition(from: Status, to: Status) {
    match from
    case Draft => to in {Building, Abandoned}
    case Building => to in {Ready, Failed}
    case Failed => to in {Draft, Building, Abandoned}
    case Ready => to in {Merged, Draft, Abandoned}
    case Merged => false
    case Abandoned => false
  }

  /** The table read by where it leads: who may be gated, who gets a verdict, who may
      be edited again, merged, or given up. */
  lemma WhoMay(s: Status)
    ensures CanTransition(s, Building) <==> s == Draft || s == Failed
    ensures CanTransition(s, Ready) <==> s == Building
    ensures CanTransition(s, Failed) <==> s == Building
    ensures CanTransition(s, Draft) <==> s == Failed || s == Ready
    ensures CanTransition(s, Merged) <==> s == Ready
    ensures CanTransition(s, Abandoned) <==> s == Draft || s == Failed || s == Ready
  {
  }

  /** The union of the edits' radii; wholeFleet once one was unbounded. */
  datatype Radius = Radius(hosts: seq<string>, wholeFleet: bool)

  const NO_RADIUS := Radius([], false)

  function Widened(r: Radius, hosts: seq<string>): Radius {
    if hosts == [] then r.(wholeFleet := true) else r.(hosts := AddNew(r.hosts, hosts))
  }

  /** GateHosts: no hosts stand for the whole fleet. */
  function Scope(r: Radius): seq<string> {
    if r.wholeFleet || r.hosts == [] then [] else r.hosts
  }

  lemma AddNewStep(hosts: seq<string>, more: seq<string>, i: nat)
    requires i < |more|
    ensures AddNew(hosts, more[i..]) == AddNew(if more[i] in hosts then hosts else hosts + [more[i]], more[i + 1..])
  {
    assert more[i..][0] == more[i] && more[i..][1..] == more[i + 1..];
  }

  class CR {
    var status: Status
    var error: string
    var hosts: seq<string>
    var wholeFleet: bool

    function Recorded(): Radius
      reads this
    {
      Radius(hosts, wholeFleet)
    }

    constructor ()
      ensures status == Draft && Recorded() == NO_RADIUS && error == ""
    {
      status, error, hosts, wholeFleet := Draft, "", [], false;
    }

    method Transition(to: Status) returns (ok: bool)
      modifies this`status
      ensures ok <==> CanTransition(old(status), to)
      ensures status == if ok then to else old(status)
    {
      ok := CanTransition(status, to);
      if ok {
        status := to;
      }
    }

    method RecordHosts(more: seq<string>)
      modifies this`hosts, this`wholeFleet
      ensures Recorded() == Widened(old(Recorded()), more)
    {
      if more == [] {
        wholeFleet := true;
        return;
      }
      var seen := Elements(hosts);
      for i := 0 to |more|
        invariant seen == Elements(hosts) && wholeFleet == old(wholeFleet)
        invariant AddNew(hosts, more[i..]) == AddNew(old(hosts), more)
      {
        var h := more[i];
        AddNewStep(hosts, more, i);
        if h !in seen {
          hosts := hosts + [h];
          seen := seen + {h};
        }
      }
    }

    method GateHosts() returns (scope: seq<string>)
      ensures scope == Scope(Recorded())
    {
      if wholeFleet || hosts == [] {
        return [];
      }
      return hosts;
    }
  }

  /** Merged is only ever reached through a build that came back green. */
  lemma {:induction false} MergedWasGated(path: seq<Status>, n: nat) returns (i: nat)
    requires n < |path| && path[0] == Draft && path[n] == Merged
    requires forall j :: 0 < j < |path| ==> path[j] == path[j - 1] || CanTransition(path[j - 1], path[j])
    ensures i + 1 < n && path[i] == Building && path[i + 1] == Ready
  {
    if path[n - 1] == Merged {
      i := MergedWasGated(path, n - 1);
    } else {
      i := ReadyWasGated(path, n - 1);
    }
  }

  lemma {:induction false} ReadyWasGated(path: seq<Status>, n: nat) returns (i: nat)
    requires n < |path| && path[0] == Draft && path[n] == Ready
    requires forall j :: 0 < j < |path| ==> path[j] == path[j - 1] || CanTransition(path[j - 1], path[j])
    ensures i + 1 <= n && path[i] == Building && path[i + 1] == Ready
  {
    if path[n - 1] == Ready {
      i := ReadyWasGated(path, n - 1);
    } else {
      i := n - 1;
    }
  }

  // ---- The radius over a history of edits -----------------------------

  /** One edit of a branch: the hosts it named (EditFile names none), whether the
      record was stored after the commit, and the branch's tree and document then. */
  datatype BranchEdit<G, K> = BranchEdit(hosts: seq<string>, saved: bool, source: string, view: View<G, K>)

  function RecordedFrom<G, K>(edits: seq<BranchEdit<G, K>>): Radius {
    if edits == [] then NO_RADIUS
    else
      var n := |edits| - 1;
      var before := RecordedFrom(edits[..n]);
      if edits[n].saved then Widened(before, edits[n].hosts) else before
  }

  ghost predicate Names<G, K>(edits: seq<BranchEdit<G, K>>, i: nat, h: string) {
    i < |edits| && edits[i].saved && h in edits[i].hosts
  }

  ghost predicate Unbounded<G, K>(edits: seq<BranchEdit<G, K>>, i: nat) {
    i < |edits| && edits[i].saved && edits[i].hosts == []
  }

  /** The record is exactly the union of the stored edits' radii, each host once,
      and whole-fleet exactly from the first unbounded one on. */
  lemma {:induction false} RecordIsTheUnion<G, K>(edits: seq<BranchEdit<G, K>>)
    ensures Distinct(RecordedFrom(edits).hosts)
    ensures RecordedFrom(edits).wholeFleet <==> exists i :: Unbounded(edits, i)
    ensures forall h :: h in RecordedFrom(edits).hosts <==> exists i :: Names(edits, i, h)
  {
    if edits != [] {
      var n := |edits| - 1;
      var before := edits[..n];
      RecordIsTheUnion(before);
      assert forall i :: Unbounded(before, i) ==> Unbounded(edits, i);
      assert forall i: nat :: i < n && Unbounded(edits, i) ==> Unbounded(before, i);
      forall h ensures h in RecordedFrom(edits).hosts <==> exists i :: Names(edits, i, h) {
        assert forall i :: Names(before, i, h) ==> Names(edits, i, h);
        assert forall i: nat :: i < n && Names(edits, i, h) ==> Names(before, i, h);
        assert Names(edits, n, h) <==> edits[n].saved && h in edits[n].hosts;
      }
      assert Unbounded(edits, n) <==> edits[n].saved && edits[n].hosts == [];
    }
  }

  /** What GateHosts hands a submit: nothing, standing for the whole fleet, exactly
      when a stored edit was unbounded or none named a host; else each host a stored
      edit named, and no other, once. */
  lemma GateHostsAreTheUnion<G, K>(edits: seq<BranchEdit<G, K>>)
    ensures Scope(RecordedFrom(edits)) == [] <==>
            (exists i :: Unbounded(edits, i)) || forall i, h :: !Names(edits, i, h)
    ensures Scope(RecordedFrom(edits)) != [] ==> forall h :: h in Scope(RecordedFrom(edits)) <==>
            exists i :: Names(edits, i, h)
    ensures Distinct(Scope(RecordedFrom(edits)))
  {
    RecordIsTheUnion(edits);
    var r := RecordedFrom(edits);
    NoElements(r.hosts);
    if forall i, h :: !Names(edits, i, h) {
      assert forall h :: h !in r.hosts;
    } else {
      var i, h :| Names(edits, i, h);
      assert h in r.hosts;
    }
  }

  ghost predicate Gated<G, K>(edits: seq<BranchEdit<G, K>>, i: nat)
    requires i < |edits|
  {
    edits[i].hosts != [] && forall h :: h in edits[i].hosts ==> h in Scope(RecordedFrom(edits))
  }

  /** The gate's scope contains every edit's radius, or is the whole fleet. */
  ghost predicate ScopeCovers<G, K>(edits: seq<BranchEdit<G, K>>) {
    Scope(RecordedFrom(edits)) == [] || forall i :: 0 <= i < |edits| ==> Gated(edits, i)
  }

  /** An edit that committed but whose record was not stored (the store refused
      the write) is covered exactly when the stored ones already named its hosts. */
  ghost predicate Recovered<G, K>(edits: seq<BranchEdit<G, K>>, i: nat)
    requires i < |edits|
  {
    edits[i].hosts != [] && forall h :: h in edits[i].hosts ==> exists j :: Names(edits, j, h)
  }

  lemma CoverageCondition<G, K>(edits: seq<BranchEdit<G, K>>)
    ensures ScopeCovers(edits) <==>
            (Scope(RecordedFrom(edits)) == [] || forall i :: 0 <= i < |edits| && !edits[i].saved ==>
                Recovered(edits, i))
  {
    RecordIsTheUnion(edits);
    var scope := Scope(RecordedFrom(edits));
    if scope != [] {
      forall i | 0 <= i < |edits| ensures Gated(edits, i) <==> Recovered(edits, i) {
      }
      forall i | 0 <= i < |edits| && edits[i].saved ensures Recovered(edits, i) {
        assert !Unbounded(edits, i);
        assert forall h :: h in edits[i].hosts ==> Names(edits, i, h);
      }
    }
  }

  /** As long as every record was stored, nothing escapes. */
  lemma StoredEditsAreCovered<G, K>(edits: seq<BranchEdit<G, K>>)
    requires forall i :: 0 <= i < |edits| ==> edits[i].saved
    ensures ScopeCovers(edits)
  {
    CoverageCondition(edits);
  }

  /** It can escape: the second edit's record is lost, and submit gates only the
      first edit's host. */
  lemma LostRecordEscapes<G, K>(source: string, view: View<G, K>)
    ensures var edits := [BranchEdit(["a"], true, source, view), BranchEdit(["b"], false, source, view)];
            Scope(RecordedFrom(edits)) == ["a"] && !ScopeCovers(edits)
  {
    var first := BranchEdit(["a"], true, source, view);
    var edits := [first, BranchEdit(["b"], false, source, view)];
    assert edits[..1] == [first];
    assert [first][..0] == [];
    assert RecordedFrom([first]) == Widened(NO_RADIUS, ["a"]);
    assert !Gated(edits, 1) by {
      assert "b" in edits[1].hosts;
      assert RecordedFrom(edits).hosts == AddNew([], ["a"]) == ["a"];
    }
  }

  // ---- What a submit and a merge evaluate -----------------------------

  /** gateScope: one host per shape of the candidate within the recorded radius,
      or of the whole candidate; the raw radius when the candidate is unreadable. */
  method GateScope<G, K(==)>(candidate: Option<View<G, K>>, recorded: seq<string>) returns (scope: seq<string>)
    ensures candidate.None? ==> scope == recorded
    ensures candidate.Some? ==> IsSampledRadius(candidate.value, recorded, scope)
  {
    if candidate.None? {
      return recorded;
    }
    if |recorded| > 0 {
      scope := Sampling.SampleHosts(candidate.value.built, recorded);
    } else {
      scope := Sampling.Representatives(candidate.value.built);
    }
  }

  /** Every shape an active device of the recorded radius builds has a
      representative in the scope; an empty scope is the whole fleet. */
  lemma ScopeRepresentsEveryShape<G, K>(edits: seq<BranchEdit<G, K>>, v: View<G, K>, scope: seq<string>, i: nat,
      tag: string)
    requires IsSampledRadius(v, Scope(RecordedFrom(edits)), scope)
    requires tag in v.built && i < |edits| && edits[i].saved && (edits[i].hosts == [] || tag in edits[i].hosts)
    ensures exists rep :: rep in scope && SameShape(v, rep, tag)
  {
    RecordIsTheUnion(edits);
    var hosts := Scope(RecordedFrom(edits));
    if hosts == [] {
      var rep := Sampling.EveryShapeSampled(v.built, v.built.Keys, tag);
      assert rep in Elements(scope) && SameShape(v, rep, tag);
    } else {
      assert !Unbounded(edits, i);
      assert Names(edits, i, tag);
      assert tag in hosts;
      if |hosts| == 1 {
        assert tag in scope && SameShape(v, tag, tag);
      } else {
        var rep := Sampling.EveryShapeSampled(v.built, Elements(hosts), tag);
        assert rep in Elements(scope) && SameShape(v, rep, tag);
      }
    }
  }

  /** A gate over the scope decides exactly what evaluating every active device of
      the radius would, if the radius is unbounded or has one. */
  lemma ScopeDecides<G(!new), K(!new)>(accept: Key<G, K> -> bool, source: string, v: View<G, K>, hosts: seq<string>,
      scope: seq<string>)
    requires IsSampledRadius(v, hosts, scope)
    ensures hosts == [] || SomeActive(v, hosts) ==>
              (Validates(accept, source, v, scope) <==> RadiusPasses(accept, source, v, hosts))
    ensures hosts != [] && !SomeActive(v, hosts) ==>
              (Validates(accept, source, v, scope) <==> |hosts| > 1 && AllPass(accept, source, v))
  {
    assert IsTodo({}, source, v, scope, scope);
    MemoAndSamplingRefineTheFullGate(accept, {}, source, v, hosts, scope, scope);
  }

  // ---- What a pass proves of the branch -------------------------------

  function TreeAt<G, K>(source: string, view: View<G, K>, edits: seq<BranchEdit<G, K>>, i: nat): (string, View<G, K>)
    requires i <= |edits|
  {
    if i == 0 then (source, view) else (edits[i - 1].source, edits[i - 1].view)
  }

  /** Every edit that names hosts is a document edit covered by them. */
  ghost predicate Honest<G, K>(source: string, view: View<G, K>, edits: seq<BranchEdit<G, K>>) {
    forall i :: 0 <= i < |edits| && edits[i].hosts != [] ==>
      var before := TreeAt(source, view, edits, i);
      edits[i].source == before.0 && Covers(before.1, edits[i].view, edits[i].hosts)
  }

  /** A device no edit named still builds what the base built from it. */
  lemma {:induction false} UnnamedIsUntouched<G, K>(source: string, view: View<G, K>, edits: seq<BranchEdit<G, K>>,
      n: nat, tag: string)
    requires Honest(source, view, edits) && n <= |edits|
    requires forall i :: 0 <= i < n ==> edits[i].hosts != [] && tag !in edits[i].hosts
    requires tag in TreeAt(source, view, edits, n).1.built
    ensures tag in view.built && TreeAt(source, view, edits, n).0 == source
    ensures KeyOf(source, TreeAt(source, view, edits, n).1, tag) == KeyOf(source, view, tag)
  {
    if n > 0 {
      assert edits[n - 1].hosts != [];
      UnnamedIsUntouched(source, view, edits, n - 1, tag);
    }
  }

  /** A branch of honest, covered edits is shielded by its scope. */
  lemma HonestBranchIsShielded<G, K>(source: string, view: View<G, K>, edits: seq<BranchEdit<G, K>>)
    requires Honest(source, view, edits) && ScopeCovers(edits)
    ensures var tip := TreeAt(source, view, edits, |edits|);
            Shielded(source, view, tip.0, tip.1, Scope(RecordedFrom(edits)))
  {
    var tip := TreeAt(source, view, edits, |edits|);
    var hosts := Scope(RecordedFrom(edits));
    if hosts != [] {
      forall tag | tag in tip.1.built ensures Vouched(source, view, tip.0, tip.1, hosts, tag) {
        if tag in hosts {
          assert SameShape(tip.1, tag, tag);
        } else {
          forall i | 0 <= i < |edits| ensures edits[i].hosts != [] && tag !in edits[i].hosts {
            assert Gated(edits, i);
          }
          UnnamedIsUntouched(source, view, edits, |edits|, tag);
        }
      }
    }
  }

  /** A gate over the scope, read against a base: if every active device of the base
      evaluates and the scope passes, every active device of the tip does. */
  ghost predicate ScopeProves<G, K>(
      accept: Key<G, K> -> bool, source: string, base: View<G, K>, source': string, tip: View<G, K>,
          scope: seq<string>) {
    AllPass(accept, source, base) && Validates(accept, source', tip, scope) ==> AllPass(accept, source', tip)
  }

  /** What a scoped gate proves of the whole document, with no memo and no earlier
      verdict used: it does under every evaluator exactly when base and scope
      together vouch for every build of the tip. The base of a submit is what the
      branch was cut from, the base of a merge is main. */
  lemma ScopedGateIsExact<G(!new), K(!new)>(
      source: string, base: View<G, K>, source': string, tip: View<G, K>, hosts: seq<string>, scope: seq<string>)
    requires IsSampledRadius(tip, hosts, scope)
    ensures (forall accept: Key<G, K> -> bool :: ScopeProves(accept, source, base, source', tip, scope)) <==>
            Shielded(source, base, source', tip, hosts)
  {
    forall accept: Key<G, K> -> bool
      ensures ScopeProves(accept, source, base, source', tip, scope) <==>
              Protects(accept, source, base, source', tip, hosts)
    {
      ScopeIsDecision(accept, source', tip, hosts, scope);
    }
    ShieldIsExact(source, base, source', tip, hosts);
    hide Shielded, ScopeProves, Protects;
    if forall accept: Key<G, K> -> bool :: ScopeProves(accept, source, base, source', tip, scope) {
      assert forall accept: Key<G, K> -> bool :: Protects(accept, source, base, source', tip, hosts);
    }
    if forall accept: Key<G, K> -> bool :: Protects(accept, source, base, source', tip, hosts) {
      assert forall accept: Key<G, K> -> bool :: ScopeProves(accept, source, base, source', tip, scope);
    }
  }

  lemma ScopeIsDecision<G(!new), K(!new)>(accept: Key<G, K> -> bool, source: string, v: View<G, K>, hosts: seq<string>,
      scope: seq<string>)
    requires IsSampledRadius(v, hosts, scope)
    ensures Validates(accept, source, v, scope) <==> GateDecision(accept, source, v, hosts)
  {
    ScopeDecides(accept, source, v, hosts, scope);
  }

  /** The submit gate proves the whole branch: from a base on which every active
      device evaluates, a shielded branch whose scoped gate passes leaves none that
      does not - the unnamed ones included. */
  lemma SubmitProvesTheBranch<G(!new), K(!new)>(
      accept: Key<G, K> -> bool, source: string, view: View<G, K>, edits: seq<BranchEdit<G, K>>, scope: seq<string>)
    requires AllPass(accept, source, view)
    requires var tip := TreeAt(source, view, edits, |edits|);
             Shielded(source, view, tip.0, tip.1, Scope(RecordedFrom(edits))) &&
             IsSampledRadius(tip.1, Scope(RecordedFrom(edits)), scope) && Validates(accept, tip.0, tip.1, scope)
    ensures var tip := TreeAt(source, view, edits, |edits|);
            AllPass(accept, tip.0, tip.1)
  {
    var tip := TreeAt(source, view, edits, |edits|);
    ScopeIsDecision(accept, tip.0, tip.1, Scope(RecordedFrom(edits)), scope);
    ShieldProtects(accept, source, view, tip.0, tip.1, Scope(RecordedFrom(edits)));
  }

  /** The merge gate proves main, for a merged document main and the recorded hosts
      vouch for. */
  lemma MergeProvesMain<G(!new), K(!new)>(
      accept: Key<G, K> -> bool, source: string, main: View<G, K>, source': string, merged: View<G, K>,
          hosts: seq<string>, scope: seq<string>)
    requires AllPass(accept, source, main) && Shielded(source, main, source', merged, hosts)
    requires IsSampledRadius(merged, hosts, scope) && Validates(accept, source', merged, scope)
    ensures AllPass(accept, source', merged)
  {
    ScopeIsDecision(accept, source', merged, hosts, scope);
    ShieldProtects(accept, source, main, source', merged, hosts);
  }
}
