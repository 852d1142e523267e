// The configuration plane over real fleet documents. Every caller reads an edit's
// radius off the published snapshot, before the write lock is taken and before a
// sync; these lemmas say when that radius is enough for the document the edit
// lands on, and what happens when it is not.
module ConfigFleet {
  import opened Wrappers
  import opened Order
  import opened Fleet
  import opened Resolve
  import opened Gate
  import opened BlastRadius
  import opened ConfigTx
  import opened ConfigRuns
  import opened ConfigService

  // ---- When a host list is enough -------------------------------------

  function WithPin(f: Fleet, g: string, pin: string): Fleet
    requires g in f.groups
  {
    WithGroup(f, g, f.groups[g].(pin := pin))
  }

  lemma PinnedShape(f: Fleet, g: string, pin: string, tag: string)
    requires g in f.groups
    ensures tag in GroupRadius(f, g) ==> g in ShapeOf(f, tag).groupPins
    ensures g in ShapeOf(f, tag).groupPins ==> ShapeOf(f, tag).groupPins[g] == f.groups[g].pin
    ensures Builds(f, tag) <==> Builds(WithPin(f, g, pin), tag)
    ensures tag in GroupRadius(WithPin(f, g, pin), g) <==> tag in GroupRadius(f, g)
  {
    RadiusStable(f, g, f.groups[g].(pin := pin));
  }

  /** A pin edit is covered exactly when the hosts are the whole fleet or include
      every active device with the group in its ancestry - in the document the edit
      lands on, not the one the hosts were read off. */
  lemma PinCoveredIff(f: Fleet, g: string, pin: string, hosts: seq<string>)
    requires g in f.groups && pin != f.groups[g].pin
    ensures Covers(ViewOf(f), ViewOf(WithPin(f, g, pin)), hosts) <==>
            hosts == [] || GroupRadius(f, g) <= Elements(hosts)
  {
    hide ShapeOf;
    var rec := f.groups[g].(pin := pin);
    if hosts != [] && GroupRadius(f, g) <= Elements(hosts) {
      GroupEditCovered(f, g, rec, hosts);
    } else if hosts != [] {
      var tag :| tag in GroupRadius(f, g) && tag !in Elements(hosts);
      PinReachesExactlyTheRadius(f, g, pin, tag);
    }
  }

  /** ... and safe under every evaluator exactly when every such device builds the
      shape of some host named - or no host named builds at all. */
  lemma PinShieldedIff(source: string, f: Fleet, g: string, pin: string, hosts: seq<string>)
    requires g in f.groups && pin != f.groups[g].pin
    ensures var v := ViewOf(WithPin(f, g, pin));
            Shielded(source, ViewOf(f), source, v, hosts) <==>
            hosts == [] || !SomeActive(v, hosts) ||
            forall tag :: tag in GroupRadius(f, g) ==> exists h :: h in hosts && SameShape(v, h, tag)
  {
    hide ShapeOf, GroupRadius, Builds;
    var v := ViewOf(WithPin(f, g, pin));
    forall tag | tag in v.built
      ensures Vouched(source, ViewOf(f), source, v, hosts, tag) <==>
              tag !in GroupRadius(f, g) || exists h :: h in hosts && SameShape(v, h, tag)
    {
      PinVouched(source, f, g, pin, hosts, tag);
    }
    forall tag | tag in GroupRadius(f, g) ensures tag in v.built {
      RadiusBuilds(f, g, pin, tag);
    }
  }

  lemma RadiusBuilds(f: Fleet, g: string, pin: string, tag: string)
    requires g in f.groups && tag in GroupRadius(f, g)
    ensures tag in ViewOf(WithPin(f, g, pin)).built
  {
  }

  lemma PinVouched(source: string, f: Fleet, g: string, pin: string, hosts: seq<string>, tag: string)
    requires g in f.groups && pin != f.groups[g].pin && tag in ViewOf(WithPin(f, g, pin)).built
    ensures var v := ViewOf(WithPin(f, g, pin));
            Vouched(source, ViewOf(f), source, v, hosts, tag) <==>
            tag !in GroupRadius(f, g) || exists h :: h in hosts && SameShape(v, h, tag)
  {
    hide ShapeOf;
    var f' := WithPin(f, g, pin);
    PinnedShape(f, g, pin, tag);
    if tag in GroupRadius(f, g) {
      PinnedShape(f', g, pin, tag);
      forall u | u in ViewOf(f).built ensures KeyOf(source, ViewOf(f), u) != KeyOf(source, ViewOf(f'), tag) {
        PinnedShape(f, g, pin, u);
      }
    } else {
      PinReachesExactlyTheRadius(f, g, pin, tag);
      assert KeyOf(source, ViewOf(f), tag) == KeyOf(source, ViewOf(f'), tag);
    }
  }

  /** Any group edit is safe under hosts that include the group's radius in the
      document it lands on. */
  lemma GroupEditMeetsTheContract(accept: Key<Globals, Shape> -> bool, w: World<Fleet, Globals, Shape>, e: Event<Fleet>,
      g: string, rec: Group)
    requires e.Tx? && e.kind.EvalGate? && w.work.Doc? && g in w.work.doc.groups
    requires e.edit(w.work.doc) == Ok(WithGroup(w.work.doc, g, rec))
    requires e.hosts == [] || GroupRadius(w.work.doc, g) <= Elements(e.hosts)
    ensures Contract(ViewOf, accept, w, e)
  {
    hide ViewOf, Covers;
    if e.hosts != [] {
      GroupEditCovered(w.work.doc, g, rec, e.hosts);
      CoversShields(SourceOf(w.log), ViewOf(w.work.doc), ViewOf(WithGroup(w.work.doc, g, rec)), e.hosts);
    }
  }

  /** A device edit names its device, whatever the document: it cannot be stale. */
  lemma DeviceEditMeetsTheContract(accept: Key<Globals, Shape> -> bool, w: World<Fleet, Globals, Shape>,
      e: Event<Fleet>, tag: string, rec: Device)
    requires e.Tx? && e.kind.EvalGate? && w.work.Doc? && e.hosts == [tag]
    requires e.edit(w.work.doc) == Ok(WithDevice(w.work.doc, tag, rec))
    ensures Contract(ViewOf, accept, w, e)
  {
    hide ViewOf, Covers, Shielded;
    DeviceEditCovered(w.work.doc, tag, rec, e.hosts);
    CoversShields(SourceOf(w.log), ViewOf(w.work.doc), ViewOf(WithDevice(w.work.doc, tag, rec)), e.hosts);
  }

  // ---- The caller, as it runs -----------------------------------------

  /** SetGroupPin against a remote: the radius off the snapshot, then the retry loop
      with that one list. The remote's document is left valid by an attempt on a
      valid base exactly under the condition on that base; otherwise nothing is
      promised of it. */
  method PinGroup(svc: ConfigService<Fleet, Globals, Shape>, g: string, pin: string)
    returns (r: ApplyResult<Fleet>, hosts: seq<string>, ghost base: seq<Commit<Fleet>>, ghost landed: bool,
        ghost tries: nat)
    requires svc.Valid() && svc.repo.hasRemote && svc.view == ViewOf
    modifies svc.repo, svc.verdicts, svc`snapshot
    ensures svc.Valid() && Elements(hosts) == GroupRadius(old(svc.snapshot), g)
    ensures landed ==> PushedOnto(PinEdit(g, pin), base, svc.snapshot, svc.repo.remote)
    ensures r.Applied? ==> landed && svc.snapshot == r.doc
    ensures landed && SoundMemo(svc.accept, Elements(old(svc.verdicts.order))) && svc.repo.remote != base &&
            AllPass(svc.accept, SourceOf(base), ViewOf(HeadFile(base).doc)) &&
            Shielded(SourceOf(base), ViewOf(HeadFile(base).doc), SourceOf(base), ViewOf(svc.snapshot), hosts) ==>
              AllPass(svc.accept, SourceOf(svc.repo.remote), ViewOf(svc.snapshot))
    ensures !svc.repo.faulty && SoundMemo(svc.accept, Elements(old(svc.verdicts.order))) ==>
              (r.NotApplied? <==>
                 !GoesThrough(ViewOf, svc.accept, EvalGate, PinEdit(g, pin), hosts, base) ||
                 (tries == 5 && Overtaken(base, svc.repo.remote)))
  {
    hide ViewOf, Shielded, GroupRadius, SoundMemo, GoesThrough, LostRaces;
    hosts := AffectedHosts(svc.snapshot, GroupTarget(g));
    var pushes;
    ghost var bases;
    r, pushes, bases, landed := svc.ApplyRemote(PinEdit(g, pin), hosts, EvalGate);
    tries := |bases|;
    base := if bases == [] then [] else bases[|bases| - 1];
    if landed && SoundMemo(svc.accept, Elements(old(svc.verdicts.order))) && svc.repo.remote != base &&
       Shielded(SourceOf(base), ViewOf(HeadFile(base).doc), SourceOf(base), ViewOf(svc.snapshot), hosts) {
      ShieldProtects(
        svc.accept, SourceOf(base), ViewOf(HeadFile(base).doc), SourceOf(base), ViewOf(svc.snapshot), hosts);
    }
  }

  function PinEdit(g: string, pin: string): Fleet -> Result<Fleet> {
    (f: Fleet) => if g in f.groups then Ok(WithPin(f, g, pin)) else Err("unknown group")
  }

  // ---- A radius gone stale --------------------------------------------

  function Laptop(model: string, groups: seq<string>): Device {
    Device(Active, "", groups, "", "", model, map[], NO_SCOPE)
  }

  /** One group; "a" is in it, and "b", of another model, is as listed. */
  function TwoLaptops(groupsOfB: seq<string>): Fleet {
    Fleet(None, map["g" := Group("", "", NO_SCOPE)],
          map["a" := Laptop("m1", ["g"]), "b" := Laptop("m2", groupsOfB)],
          map[], [], map[], Globals(None, Null))
  }

  function JoinB(f: Fleet): Result<Fleet> {
    if "b" in f.devices then Ok(WithDevice(f, "b", Laptop("m2", ["g"]))) else Err("unknown device")
  }

  function PinG(f: Fleet): Result<Fleet> {
    if "g" in f.groups then Ok(WithPin(f, "g", "r")) else Err("unknown group")
  }

  lemma JoinedLaptops()
    ensures JoinB(TwoLaptops([])) == Ok(TwoLaptops(["g"]))
  {
    assert TwoLaptops([]).devices["b" := Laptop("m2", ["g"])] == TwoLaptops(["g"]).devices;
  }

  lemma RadiusOfLaptops(groupsOfB: seq<string>)
    requires groupsOfB == [] || groupsOfB == ["g"]
    ensures GroupRadius(TwoLaptops(groupsOfB), "g") == if groupsOfB == [] then {"a"} else {"a", "b"}
  {
    var f := TwoLaptops(groupsOfB);
    var none: set<string> := {};
    assert none + {"g"} == {"g"};
    assert Climb(f.groups, "g", none) == Climb(f.groups, "", none + {"g"}) + ["g"];
    assert f.devices["a"].groups[0] == "g" && "g" in AncestorSet(f, "a");
    if groupsOfB == ["g"] {
      assert f.devices["b"].groups[0] == "g" && "g" in AncestorSet(f, "b");
    } else {
      assert "g" !in AncestorSet(f, "b");
    }
  }

  /** The radius read while "a" is alone in the group does not shield the pin edit
      once "b" is in it too. */
  lemma StaleRadiusIsNoShield(source: string)
    ensures var f := TwoLaptops(["g"]);
            !Shielded(source, ViewOf(f), source, ViewOf(WithPin(f, "g", "r")), ["a"])
  {
    var f := TwoLaptops(["g"]);
    RadiusOfLaptops(["g"]);
    LaptopModels(f);
    OneModelMissing(source, f);
  }

  lemma OneModelMissing(source: string, f: Fleet)
    requires "g" in f.groups && f.groups["g"].pin != "r" && "b" in GroupRadius(f, "g")
    requires var built := ViewOf(WithPin(f, "g", "r")).built;
             "a" in built && "b" in built && built["a"] != built["b"]
    ensures !Shielded(source, ViewOf(f), source, ViewOf(WithPin(f, "g", "r")), ["a"])
  {
    hide ViewOf, GroupRadius, Shielded, WithPin;
    var v := ViewOf(WithPin(f, "g", "r"));
    PinShieldedIff(source, f, "g", "r", ["a"]);
    assert "a" in ["a"] && SomeActive(v, ["a"]);
    assert forall h :: h in ["a"] ==> !SameShape(v, h, "b");
  }

  lemma LaptopModels(f: Fleet)
    requires f == TwoLaptops(["g"])
    ensures var built := ViewOf(WithPin(f, "g", "r")).built;
            "a" in built && "b" in built && built["a"] != built["b"]
  {
    hide SettingsFrom, Chain, AppsOf, GroupPins;
    var built := ViewOf(WithPin(f, "g", "r")).built;
    assert built["a"].hardware == "m1" && built["b"].hardware == "m2";
  }

  function AtDoc(f: Fleet, source: string): World<Fleet, Globals, Shape> {
    World(Doc(f, true), [Commit(Doc(f, true), source, true)], [])
  }

  /** No device of either document has the new pin, so an evaluator that rejects one
      build with it passes them. */
  lemma UnpinnedLaptopsPass(accept: Key<Globals, Shape> -> bool, bad: Key<Globals, Shape>, source: string,
      groupsOfB: seq<string>)
    requires groupsOfB == [] || groupsOfB == ["g"]
    requires forall k :: accept(k) <==> k != bad
    requires "g" in bad.shape.groupPins && bad.shape.groupPins["g"] == "r"
    ensures AllPass(accept, source, ViewOf(TwoLaptops(groupsOfB)))
  {
    var f := TwoLaptops(groupsOfB);
    forall tag | tag in ViewOf(f).built ensures HostPasses(accept, source, ViewOf(f), tag) {
      PinnedShape(f, "g", "r", tag);
      assert KeyOf(source, ViewOf(f), tag) != bad;
    }
  }

  lemma BadBuildIsPinned(source: string, f: Fleet, tag: string)
    requires "g" in f.groups && f.groups["g"].pin != "r" && tag in ViewOf(WithPin(f, "g", "r")).built
    requires !Vouched(source, ViewOf(f), source, ViewOf(WithPin(f, "g", "r")), ["a"], tag)
    ensures var shape := ViewOf(WithPin(f, "g", "r")).built[tag];
            "g" in shape.groupPins && shape.groupPins["g"] == "r"
  {
    hide ShapeOf;
    PinVouched(source, f, "g", "r", ["a"], tag);
    PinnedShape(WithPin(f, "g", "r"), "g", "r", tag);
    PinnedShape(f, "g", "r", tag);
  }

  /** A valid fleet, a valid step - "b" joins the group, gated on ["b"] by this
      console, or committed by a rival and synced - and then the pin of the group
      lands under the radius read before it. Every step is accepted, without a
      fault, and HEAD is invalid. */
  lemma StaleRadiusBreaksHead(byRival: bool, source: string)
    returns (accept: Key<Globals, Shape> -> bool, ws: seq<World<Fleet, Globals, Shape>>, es: seq<Event<Fleet>>)
    ensures Run(ViewOf, accept, false, ws, es) && |es| == 2 && ws[0] == AtDoc(TwoLaptops([]), source)
    ensures es[0] == FirstEvent(byRival) && es[1] == PinEvent() &&
            Elements(es[1].hosts) == GroupRadius(TwoLaptops([]), "g")
    ensures Contract(ViewOf, accept, ws[0], es[0]) && Sound(ViewOf, accept, ws[0]) && Sound(ViewOf, accept, ws[1])
    ensures !Sound(ViewOf, accept, ws[2])
  {
    hide Step, Sound, Contract, ViewOf, GroupRadius, TwoLaptops, AllPass, WithPin;
    var w0 := AtDoc(TwoLaptops([]), source);
    var w1 := Committed(w0, TwoLaptops(["g"]));
    var bad;
    accept, bad := PinLandsUnshielded(source, w1);
    UnpinnedLaptopsPass(accept, bad, source, []);
    UnpinnedLaptopsPass(accept, bad, source, ["g"]);
    FirstStep(byRival, source, accept, FirstEvent(byRival));
    RadiusOfLaptops([]);
    LaptopsDiffer(TwoLaptops(["g"]));
    assert Elements(["a"]) == {"a"};
    ws, es := [w0, w1, Committed(w1, WithPin(TwoLaptops(["g"]), "g", "r"))], [FirstEvent(byRival), PinEvent()];
  }

  function FirstEvent(byRival: bool): Event<Fleet> {
    if byRival then Synced else Tx(JoinB, ["b"], EvalGate, Landed(TwoLaptops(["g"])))
  }

  function PinEvent(): Event<Fleet> {
    Tx(PinG, ["a"], EvalGate, Landed(WithPin(TwoLaptops(["g"]), "g", "r")))
  }

  lemma PinLandsUnshielded(source: string, w: World<Fleet, Globals, Shape>)
    returns (accept: Key<Globals, Shape> -> bool, bad: Key<Globals, Shape>)
    requires w == Committed(AtDoc(TwoLaptops([]), source), TwoLaptops(["g"]))
    ensures forall k :: accept(k) <==> k != bad
    ensures "g" in bad.shape.groupPins && bad.shape.groupPins["g"] == "r"
    ensures var pinned := WithPin(TwoLaptops(["g"]), "g", "r");
            Step(ViewOf, accept, false, w, PinEvent(), Committed(w, pinned)) &&
                !Sound(ViewOf, accept, Committed(w, pinned))
  {
    hide ViewOf, Shielded, Sound, Step, TwoLaptops, Vouched;
    var joined := TwoLaptops(["g"]);
    LaptopsDiffer(joined);
    StaleRadiusIsNoShield(source);
    var pinned := WithPin(joined, "g", "r");
    assert SourceOf(w.log) == source && w.work == HeadFile(w.log);
    var tag;
    accept, tag := UnshieldedEditBreaksHead(ViewOf, w, PinG, pinned, ["a"]);
    BadBuildIsPinned(source, joined, tag);
    bad := KeyOf(source, ViewOf(pinned), tag);
  }

  lemma LaptopsDiffer(joined: Fleet)
    requires joined == TwoLaptops(["g"])
    ensures "g" in joined.groups && joined.groups["g"].pin != "r"
    ensures PinG(joined) == Ok(WithPin(joined, "g", "r")) && WithPin(joined, "g", "r") != joined
  {
    var pinned := WithPin(joined, "g", "r");
    assert pinned.groups["g"].pin == "r" && joined.groups["g"].pin == "";
  }

  lemma FirstStep(byRival: bool, source: string, accept: Key<Globals, Shape> -> bool, e: Event<Fleet>)
    requires AllPass(accept, source, ViewOf(TwoLaptops([]))) && AllPass(accept, source, ViewOf(TwoLaptops(["g"])))
    requires e == FirstEvent(byRival)
    ensures var w0 := AtDoc(TwoLaptops([]), source);
            var w1 := Committed(w0, TwoLaptops(["g"]));
            Step(ViewOf, accept, false, w0, e, w1) && Contract(ViewOf, accept, w0, e) && Sound(ViewOf, accept, w0) &&
                Sound(ViewOf, accept, w1)
  {
    hide ViewOf, TwoLaptops, AllPass, Shielded;
    var w0 := AtDoc(TwoLaptops([]), source);
    var w1 := Committed(w0, TwoLaptops(["g"]));
    assert SourceOf(w1.log) == source && HeadFile(w1.log) == w1.work;
    if !byRival {
      JoinedLaptops();
      BIsKnown();
      DeviceEditMeetsTheContract(accept, w0, e, "b", Laptop("m2", ["g"]));
      PassesAreAccepted(accept, source, ViewOf(TwoLaptops(["g"])), ["b"]);
    }
  }

  lemma BIsKnown()
    ensures JoinB(TwoLaptops([])) == Ok(WithDevice(TwoLaptops([]), "b", Laptop("m2", ["g"]))) &&
            TwoLaptops([]) != TwoLaptops(["g"])
    ensures "b" in ViewOf(TwoLaptops(["g"])).built
  {
    assert TwoLaptops([]).devices["b"].groups != TwoLaptops(["g"]).devices["b"].groups;
  }

  lemma PassesAreAccepted(accept: Key<Globals, Shape> -> bool, source: string, v: View<Globals, Shape>,
      hosts: seq<string>)
    requires AllPass(accept, source, v) && SomeActive(v, hosts)
    ensures GateDecision(accept, source, v, hosts)
  {
  }
}
