// Change requests over real fleet documents: the recorded hosts date from the edit,
// read off main's snapshot then; the branch was cut from another main, and the
// change merges into a third.
module ChangeFleet {
  import opened Wrappers
  import opened Order
  import opened Fleet
  import opened Resolve
  import opened Gate
  import opened BlastRadius
  import opened Change
  import opened ConfigFleet

  /** Merging a branch's pin edit of a group into main as it stands by then: the
      recorded hosts cover the difference exactly when they name every active device
      with the group in its ancestry on the merged document. */
  lemma MergeIsCoveredIff(main: Fleet, g: string, pin: string, hosts: seq<string>)
    requires g in main.groups && pin != main.groups[g].pin && hosts != []
    ensures Covers(ViewOf(main), ViewOf(WithPin(main, g, pin)), hosts) <==>
            forall tag :: tag in GroupRadius(WithPin(main, g, pin), g) ==> tag in hosts
  {
    hide ViewOf, GroupRadius, WithPin;
    PinCoveredIff(main, g, pin, hosts);
    SameRadius(main, g, pin);
    assert GroupRadius(WithPin(main, g, pin), g) == GroupRadius(main, g);
    assert forall tag :: tag in hosts <==> tag in Elements(hosts);
  }

  lemma SameRadius(f: Fleet, g: string, pin: string)
    requires g in f.groups
    ensures GroupRadius(WithPin(f, g, pin), g) == GroupRadius(f, g)
  {
    RadiusStable(f, g, f.groups[g].(pin := pin));
  }

  /** The merge gate over them keeps main valid under every evaluator exactly when
      every such device builds the shape of a recorded host - or no recorded host
      builds at all. */
  lemma MergeIsSafeIff(source: string, main: Fleet, g: string, pin: string, hosts: seq<string>, scope: seq<string>)
    requires g in main.groups && pin != main.groups[g].pin
    requires IsSampledRadius(ViewOf(WithPin(main, g, pin)), hosts, scope)
    ensures var merged := ViewOf(WithPin(main, g, pin));
            (forall accept: Key<Globals, Shape> -> bool ::
                ScopeProves(accept, source, ViewOf(main), source, merged, scope)) <==>
            hosts == [] || !SomeActive(merged, hosts) ||
            forall tag :: tag in GroupRadius(main, g) ==> exists h :: h in hosts && SameShape(merged, h, tag)
  {
    hide ViewOf, GroupRadius, ScopeProves, SameShape;
    ScopedGateIsExact(source, ViewOf(main), source, ViewOf(WithPin(main, g, pin)), hosts, scope);
    PinShieldedIff(source, main, g, pin, hosts);
  }

  /** Any group edit, merged over hosts that name the group's radius on main. */
  lemma MergeOfGroupEdit(
      accept: Key<Globals, Shape> -> bool, source: string, main: Fleet, g: string, rec: Group, hosts: seq<string>,
          scope: seq<string>)
    requires g in main.groups && (hosts == [] || GroupRadius(main, g) <= Elements(hosts))
    requires AllPass(accept, source, ViewOf(main)) && IsSampledRadius(ViewOf(WithGroup(main, g, rec)), hosts, scope)
    requires Validates(accept, source, ViewOf(WithGroup(main, g, rec)), scope)
    ensures AllPass(accept, source, ViewOf(WithGroup(main, g, rec)))
  {
    hide ViewOf, GroupRadius;
    if hosts != [] {
      GroupEditCovered(main, g, rec, hosts);
      CoversShields(source, ViewOf(main), ViewOf(WithGroup(main, g, rec)), hosts);
    }
    MergeProvesMain(accept, source, ViewOf(main), source, ViewOf(WithGroup(main, g, rec)), hosts, scope);
  }

  function PinnedTwo(groupsOfB: seq<string>): (f: Fleet)
    ensures "g" in TwoLaptops(groupsOfB).groups && f == WithPin(TwoLaptops(groupsOfB), "g", "r")
  {
    WithPin(TwoLaptops(groupsOfB), "g", "r")
  }

  /** The case the merge gate is run for, and misses: the pin of "g" is edited and
      gated while "a" is alone in the group, so ["a"] is recorded; "b" then joins the
      group on main. The branch passed its submit, main is valid, the merged result
      passes the gate - and does not evaluate. */
  lemma StaleMerge(source: string) returns (accept: Key<Globals, Shape> -> bool)
    ensures Elements(["a"]) == GroupRadius(TwoLaptops([]), "g")
    ensures AllPass(accept, source, ViewOf(TwoLaptops([]))) && AllPass(accept, source, ViewOf(PinnedTwo([])))
    ensures AllPass(accept, source, ViewOf(TwoLaptops(["g"])))
    ensures IsSampledRadius(ViewOf(PinnedTwo(["g"])), ["a"], ["a"]) &&
            Validates(accept, source, ViewOf(PinnedTwo(["g"])), ["a"])
    ensures !AllPass(accept, source, ViewOf(PinnedTwo(["g"])))
  {
    hide ViewOf, GroupRadius, TwoLaptops, AllPass, Vouched, Validates, GateDecision, PinnedTwo;
    var bad, tag;
    accept, bad, tag := RejectsOnePinned(source);
    UnpinnedLaptopsPass(accept, bad, source, []);
    UnpinnedLaptopsPass(accept, bad, source, ["g"]);
    RadiusOfLaptops([]);
    BranchPasses(accept, bad, source, tag);
    assert Elements(["a"]) == {"a"};
    ScopeIsDecision(accept, source, ViewOf(PinnedTwo(["g"])), ["a"], ["a"]);
  }

  lemma RejectsOnePinned(source: string)
      returns (accept: Key<Globals, Shape> -> bool, bad: Key<Globals, Shape>, tag: string)
    ensures tag in ViewOf(PinnedTwo(["g"])).built && bad == KeyOf(source, ViewOf(PinnedTwo(["g"])), tag)
    ensures (forall k :: accept(k) <==> k != bad) && "g" in bad.shape.groupPins && bad.shape.groupPins["g"] == "r"
    ensures !Vouched(source, ViewOf(TwoLaptops(["g"])), source, ViewOf(PinnedTwo(["g"])), ["a"], tag)
    ensures AllPass(accept, source, ViewOf(TwoLaptops(["g"]))) &&
            GateDecision(accept, source, ViewOf(PinnedTwo(["g"])), ["a"])
    ensures !AllPass(accept, source, ViewOf(PinnedTwo(["g"])))
  {
    hide ViewOf, TwoLaptops, AllPass, Vouched;
    var f := TwoLaptops(["g"]);
    LaptopsDiffer(f);
    StaleRadiusIsNoShield(source);
    tag :| tag in ViewOf(PinnedTwo(["g"])).built &&
        !Vouched(source, ViewOf(f), source, ViewOf(PinnedTwo(["g"])), ["a"], tag);
    accept := Unvouched(source, ViewOf(f), source, ViewOf(PinnedTwo(["g"])), ["a"], tag);
    BadBuildIsPinned(source, f, tag);
    bad := KeyOf(source, ViewOf(PinnedTwo(["g"])), tag);
  }

  /** On the branch only "a" is pinned, and builds there what it builds merged. */
  lemma BranchPasses(accept: Key<Globals, Shape> -> bool, bad: Key<Globals, Shape>, source: string, tag: string)
    requires tag in ViewOf(PinnedTwo(["g"])).built && bad == KeyOf(source, ViewOf(PinnedTwo(["g"])), tag)
    requires (forall k :: accept(k) <==> k != bad) && "g" in bad.shape.groupPins && bad.shape.groupPins["g"] == "r"
    requires !Vouched(source, ViewOf(TwoLaptops(["g"])), source, ViewOf(PinnedTwo(["g"])), ["a"], tag)
    ensures AllPass(accept, source, ViewOf(PinnedTwo([])))
  {
    var branch, merged := PinnedTwo([]), PinnedTwo(["g"]);
    forall u | u in ViewOf(branch).built ensures HostPasses(accept, source, ViewOf(branch), u) {
      if u == "a" {
        ASameOnBoth(branch, merged);
        assert "a" in ["a"] && (tag == "a" ==> SameShape(ViewOf(merged), "a", tag));
        assert ViewOf(merged).built["a"] == ViewOf(merged).built[tag] ==> SameShape(ViewOf(merged), "a", tag);
      } else {
        UnpinnedB(branch, u);
      }
    }
  }

  lemma ASameOnBoth(branch: Fleet, merged: Fleet)
    requires branch == PinnedTwo([]) && merged == PinnedTwo(["g"])
    ensures "a" in ViewOf(branch).built && "a" in ViewOf(merged).built &&
            ViewOf(branch).built["a"] == ViewOf(merged).built["a"]
    ensures ViewOf(branch).globals == ViewOf(merged).globals
  {
    JoinedOnTheBranch(branch, merged);
    hide ShapeOf, PinnedTwo;
    DeviceEditFrame(branch, "b", Laptop("m2", ["g"]), "a");
  }

  lemma JoinedOnTheBranch(branch: Fleet, merged: Fleet)
    requires branch == PinnedTwo([]) && merged == PinnedTwo(["g"])
    ensures merged == WithDevice(branch, "b", Laptop("m2", ["g"])) && Builds(branch, "a") && Builds(merged, "a")
  {
    assert branch.devices["b" := Laptop("m2", ["g"])] == merged.devices;
  }

  lemma UnpinnedB(branch: Fleet, u: string)
    requires branch == PinnedTwo([]) && u in ViewOf(branch).built && u != "a"
    ensures "g" !in ViewOf(branch).built[u].groupPins
  {
    hide SettingsFrom, AppsOf, Chain;
    assert u == "b" && branch.devices["b"].groups == [];
    assert AncestorSet(branch, "b") == {};
  }

  /** A submit misses the same way: the branch was cut while "b" was in the group,
      "b" left it on main, and the edit took its radius from main. */
  lemma StaleSubmit(source: string)
      returns (accept: Key<Globals, Shape> -> bool, edits: seq<BranchEdit<Globals, Shape>>)
    ensures edits == [BranchEdit(["a"], true, source, ViewOf(PinnedTwo(["g"])))]
    ensures Elements(["a"]) == GroupRadius(TwoLaptops([]), "g") && Change.Scope(RecordedFrom(edits)) == ["a"]
    ensures AllPass(accept, source, ViewOf(TwoLaptops(["g"]))) && IsSampledRadius(edits[0].view, ["a"], ["a"])
    ensures Validates(accept, source, edits[0].view, ["a"]) && !AllPass(accept, source, edits[0].view)
  {
    hide ViewOf, GroupRadius, TwoLaptops, AllPass, Validates, PinnedTwo;
    accept := StaleMerge(source);
    var edit := BranchEdit(["a"], true, source, ViewOf(PinnedTwo(["g"])));
    edits := [edit];
    assert edits[..0] == [];
    assert RecordedFrom(edits) == Widened(NO_RADIUS, ["a"]);
    assert AddNew([], ["a"]) == ["a"];
  }
}
