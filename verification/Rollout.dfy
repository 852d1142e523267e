// The rollout service (internal/app/rollout.go): what its calls keep of the ring
// pins and branches, whatever the decision engine answers and wherever a call
// fails. The tick lock makes every call here one call at a time.
module Rollout {
  import opened Wrappers
  import opened RolloutPlan
  import opened RingRefs

  /** Why a wave's release may ship: there is no builder, nothing will pull it, or
      the builder reported it done for the wave's active devices; with the active
      devices of each group as they were when that was decided. */
  datatype Clearance = NoBuilder | NoHosts(seen: map<string, seq<string>>) | Built(seen: map<string, seq<string>>)

  /** The run, the branches, and where the run found them; and what the run did: the
      waves it cleared for shipping, the groups it pinned to its target, and the
      groups whose branch it then moved and pushed. The pins themselves are the
      document's, which operators edit too. */
  datatype Funnel = Funnel(
    run: Run, local: map<string, string>, remote: map<string, string>,
    foundLocal: map<string, string>, foundRemote: map<string, string>,
    cleared: set<nat>, pinned: set<string>, offered: set<string>)

  predicate Covers(f: Funnel, w: nat, g: string) {
    w < |f.run.rings| && g in f.run.rings[w].groups
  }

  /** A group whose branch the run may have moved: it pinned the group, in a wave up
      to the current one that was cleared. */
  ghost predicate Released(f: Funnel, g: string) {
    g in f.pinned && exists w: nat :: w <= f.run.ring && Covers(f, w, g) && w in f.cleared
  }

  /** Every branch is where the run found it, or at the target for cause. */
  ghost predicate Owned(f: Funnel, refs: map<string, string>, found: map<string, string>) {
    && (forall g :: g in refs ==> (g in found && refs[g] == found[g]) || (refs[g] == f.run.target && Released(f, g)))
    && (forall g :: g in found ==> g in refs)
  }

  ghost predicate Owns(f: Funnel) {
    InFlight(f.run) ==> Owned(f, f.local, f.foundLocal) && Owned(f, f.remote, f.foundRemote)
  }

  predicate Offered(f: Funnel, g: string) {
    g in f.local && f.local[g] == f.run.target && g in f.remote && f.remote[g] == f.run.target
  }

  /** What was moved and pushed stays there while the run is in flight. */
  ghost predicate Holds(f: Funnel) {
    InFlight(f.run) ==> forall g :: g in f.offered ==> Offered(f, g)
  }

  /** A promoted wave: cleared, every group of it pinned to the target by this run,
      its branch moved and pushed. */
  ghost predicate Shipped(f: Funnel, hasRefs: bool, w: nat) {
    && w <= f.run.ring && w < |f.run.rings| && w in f.cleared
    && forall g :: g in f.run.rings[w].groups ==> g in f.pinned && (hasRefs ==> g in f.offered)
  }

  ghost predicate Inv(f: Funnel, hasRefs: bool) {
    && f.run.target != "" && f.run.rings != []
    && Owns(f) && Holds(f)
    && forall w :: w in f.run.promotedAt ==> Shipped(f, hasRefs, w)
  }

  // ---- What each durable step keeps -----------------------------------

  /** More of the run's own work done takes nothing away. */
  lemma WorkKeeps(f: Funnel, hasRefs: bool, cleared: set<nat>, pinned: set<string>)
    requires Inv(f, hasRefs) && f.cleared <= cleared && f.pinned <= pinned
    ensures Inv(f.(cleared := cleared, pinned := pinned), hasRefs)
  {
    var f' := f.(cleared := cleared, pinned := pinned);
    forall h | Released(f, h) ensures Released(f', h) {
      var w: nat :| w <= f.run.ring && Covers(f, w, h) && w in f.cleared;
      assert Covers(f', w, h);
    }
    forall w | w in f'.run.promotedAt ensures Shipped(f', hasRefs, w) {
      assert Shipped(f, hasRefs, w);
    }
  }

  /** The branch of a group the run pinned, in the current, cleared wave, moves to
      the target. */
  lemma MoveKeeps(f: Funnel, hasRefs: bool, g: string, local: map<string, string>, remote: map<string, string>)
    requires Inv(f, hasRefs) && g in f.pinned && Covers(f, f.run.ring, g) && f.run.ring in f.cleared
    requires local == f.local || local == f.local[g := f.run.target]
    requires remote == f.remote || remote == f.remote[g := f.run.target]
    ensures Inv(f.(local := local, remote := remote), hasRefs)
  {
    var f' := f.(local := local, remote := remote);
    assert Covers(f', f.run.ring, g);
    forall h | Released(f, h) || h == g ensures Released(f', h) {
      if h != g {
        var w: nat :| w <= f.run.ring && Covers(f, w, h) && w in f.cleared;
        assert Covers(f', w, h);
      }
    }
    forall w | w in f'.run.promotedAt ensures Shipped(f', hasRefs, w) {
      assert Shipped(f, hasRefs, w);
    }
    assert forall h :: Offered(f, h) ==> Offered(f', h);
  }

  lemma OfferKeeps(f: Funnel, hasRefs: bool, g: string)
    requires Inv(f, hasRefs) && Offered(f, g)
    ensures Inv(f.(offered := f.offered + {g}), hasRefs)
  {
    var f' := f.(offered := f.offered + {g});
    forall h | Released(f, h) ensures Released(f', h) {
      var w: nat :| w <= f.run.ring && Covers(f, w, h) && w in f.cleared;
      assert Covers(f', w, h);
    }
    forall w | w in f'.run.promotedAt ensures Shipped(f', hasRefs, w) {
      assert Shipped(f, hasRefs, w);
    }
    forall h | h in f'.offered && InFlight(f.run) ensures Offered(f', h) {
      assert h != g ==> Offered(f, h);
    }
  }

  /** Between runs a branch may go anywhere: what a run did stays what it did. */
  lemma FollowKeeps(f: Funnel, hasRefs: bool, local: map<string, string>, remote: map<string, string>)
    requires Inv(f, hasRefs) && !InFlight(f.run)
    ensures Inv(f.(local := local, remote := remote), hasRefs)
  {
    var f' := f.(local := local, remote := remote);
    forall w | w in f'.run.promotedAt ensures Shipped(f', hasRefs, w) {
      assert Shipped(f, hasRefs, w);
    }
  }

  /** The record may change in any way that keeps the plan, does not step back, and
      promotes nothing but the current wave, shipped. */
  lemma RecordKeeps(f: Funnel, hasRefs: bool, run: Run)
    requires Inv(f, hasRefs) && run.target == f.run.target && run.rings == f.run.rings && run.ring >= f.run.ring
    requires InFlight(run) ==> InFlight(f.run)
    requires forall w :: w in run.promotedAt ==> w in f.run.promotedAt || (w == f.run.ring && Shipped(f, hasRefs, w))
    ensures Inv(f.(run := run), hasRefs)
  {
    var f' := f.(run := run);
    forall h | Released(f, h) ensures Released(f', h) {
      var w: nat :| w <= f.run.ring && Covers(f, w, h) && w in f.cleared;
      assert Covers(f', w, h);
    }
    forall w | w in run.promotedAt ensures Shipped(f', hasRefs, w) {
      assert Shipped(f, hasRefs, w);
    }
    assert forall h :: Offered(f, h) ==> Offered(f', h);
  }

  lemma NewRunKeeps(f: Funnel, hasRefs: bool)
    requires f.run == NewRun(f.run.target, f.run.rings) && f.run.target != "" && f.run.rings != []
    requires f.foundLocal == f.local && f.foundRemote == f.remote && f.offered == {}
    ensures Inv(f, hasRefs)
  {
  }

  /** In flight, a branch the current wave has not reached is where it was found. */
  lemma LaterWavesStayPut(f: Funnel, hasRefs: bool, g: string)
    requires Inv(f, hasRefs) && InFlight(f.run)
    requires forall w: nat :: w <= f.run.ring ==> !Covers(f, w, g)
    ensures g in f.local <==> g in f.foundLocal
    ensures g in f.local ==> f.local[g] == f.foundLocal[g]
    ensures g in f.remote <==> g in f.foundRemote
    ensures g in f.remote ==> f.remote[g] == f.foundRemote[g]
  {
  }

  /** In flight, the branches of a promoted wave are at the target, locally and on
      the remote - whatever became of the pins. */
  lemma PromotedWavesAreOffered(f: Funnel, w: nat, g: string)
    requires Inv(f, true) && InFlight(f.run) && w in f.run.promotedAt && Covers(f, w, g)
    ensures Offered(f, g)
  {
    assert Shipped(f, true, w);
  }

  /** Somebody else moving one branch to a revision, in flight: the run still owns its
      branches exactly when the revision is the target of a group it released, or is
      where it found that branch, locally and on the remote. */
  lemma ForeignMoveKeepsIff(f: Funnel, hasRefs: bool, g: string, rev: string)
    requires Inv(f, hasRefs) && InFlight(f.run)
    ensures Owns(f.(local := f.local[g := rev], remote := f.remote[g := rev])) <==>
            (rev == f.run.target && Released(f, g)) ||
            (g in f.foundLocal && f.foundLocal[g] == rev && g in f.foundRemote && f.foundRemote[g] == rev)
  {
    hide Released, Owned, Holds, Shipped;
    var f' := f.(local := f.local[g := rev], remote := f.remote[g := rev]);
    OneBranchMoved(f, f', f.local, f.foundLocal, g, rev);
    OneBranchMoved(f, f', f.remote, f.foundRemote, g, rev);
  }

  lemma OneBranchMoved(f: Funnel, f': Funnel, refs: map<string, string>, found: map<string, string>, g: string,
      rev: string)
    requires f'.run == f.run && f'.cleared == f.cleared && f'.pinned == f.pinned && Owned(f, refs, found)
    ensures Owned(f', refs[g := rev], found) <==>
            (rev == f.run.target && Released(f, g)) || (g in found && found[g] == rev)
  {
    forall h ensures Released(f', h) <==> Released(f, h) {
      SameWork(f, f', h);
    }
    hide Released;
    var moved := refs[g := rev];
    if Owned(f', moved, found) {
      assert g in moved && moved[g] == rev;
    }
    assert forall h :: h in moved <==> h == g || h in refs;
    assert forall h :: h in refs && h != g ==> moved[h] == refs[h];
  }

  lemma SameWork(f: Funnel, f': Funnel, g: string)
    requires f'.run == f.run && f'.cleared == f.cleared && f'.pinned == f.pinned
    ensures Released(f', g) <==> Released(f, g)
  {
    if Released(f, g) {
      var w: nat :| w <= f.run.ring && Covers(f, w, g) && w in f.cleared;
      assert Covers(f', w, g);
    }
    if Released(f', g) {
      var w: nat :| w <= f.run.ring && Covers(f', w, g) && w in f.cleared;
      assert Covers(f, w, g);
    }
  }

  // ---- The service ----------------------------------------------------

  datatype BuildPhase = NoAnswer | BuildDone | BuildFails | BuildRuns

  /** An expedited run shortens every soak, never anything else. */
  function Expedited(rings: seq<Ring>): (short: seq<Ring>)
    ensures |short| == |rings|
  {
    seq(|rings|, i requires 0 <= i < |rings| =>
      if rings[i].soakMinutes == 0 || rings[i].soakMinutes > 5 then rings[i].(soakMinutes := 5) else rings[i])
  }

  /** Every wave soaks five minutes at the most, and changes in nothing else. */
  lemma ExpeditedShortens(rings: seq<Ring>, i: nat)
    requires i < |rings|
    ensures Expedited(rings)[i].(soakMinutes := rings[i].soakMinutes) == rings[i]
    ensures Expedited(rings)[i].soakMinutes <= 5
    ensures Expedited(rings)[i].soakMinutes != rings[i].soakMinutes ==>
            Expedited(rings)[i].soakMinutes == 5 && (rings[i].soakMinutes == 0 || rings[i].soakMinutes > 5)
    ensures rings[i].soakMinutes == 0 ==> Expedited(rings)[i].soakMinutes == 5
  {
  }

  /** A scoped run: the plan's test wave, then one wave of the named groups. */
  function Scoped(planned: seq<Ring>, groups: seq<string>): (rings: seq<Ring>)
    requires planned != []
    ensures rings != []
  {
    if groups == [] then planned
    else if |groups| == 1 && planned[0].groups == groups then [planned[0]]
    else [planned[0], Ring(groups, 30, 0, false, 0, 0)]
  }

  /** A scoped run starts with the test wave, reaches the named groups and no others,
      and has one wave exactly when the test wave is the one group named. */
  lemma ScopedReaches(planned: seq<Ring>, groups: seq<string>, g: string)
    requires planned != [] && groups != []
    ensures var rings := Scoped(planned, groups);
            && rings[0] == planned[0] && |rings| <= 2
            && (|rings| == 1 <==> |groups| == 1 && planned[0].groups == groups)
            && (|rings| == 2 ==> rings[1].groups == groups && rings[1].soakMinutes == 30 &&
                                 MinHealthy(rings[1]) == 95 && !rings[1].requireApproval && rings[1].maxDevices == 0)
            && ((exists w :: 0 <= w < |rings| && g in rings[w].groups) <==> g in planned[0].groups || g in groups)
  {
    var rings := Scoped(planned, groups);
    if g in groups {
      assert g in rings[|rings| - 1].groups;
    }
    if g in planned[0].groups {
      assert g in rings[0].groups;
    }
  }

  function WaveHosts(active: map<string, seq<string>>, groups: seq<string>): seq<string> {
    if groups == [] then []
    else
      var n := |groups| - 1;
      WaveHosts(active, groups[..n]) + if groups[n] in active then active[groups[n]] else []
  }

  /** The wave's hosts are the active devices of its groups. */
  lemma {:induction false} WaveHostsAre(active: map<string, seq<string>>, groups: seq<string>, h: string)
    ensures h in WaveHosts(active, groups) <==> exists g :: g in groups && g in active && h in active[g]
  {
    if groups != [] {
      var n := |groups| - 1;
      WaveHostsAre(active, groups[..n], h);
      assert groups == groups[..n] + [groups[n]];
    }
  }

  /** Only the wave's groups moved, and only to the target. */
  predicate OnlyWave(before: map<string, string>, after: map<string, string>, groups: seq<string>, target: string) {
    (forall g :: g in before ==> g in after) &&
    forall g :: g in after ==> (g in before && after[g] == before[g]) || (g in groups && after[g] == target)
  }

  lemma OnlyWaveStep(before: map<string, string>, after: map<string, string>, groups: seq<string>, target: string,
      g: string)
    requires before == after || OnlyWave(before, after, groups, target)
    ensures OnlyWave(before, after, groups, target)
    ensures g in groups ==> OnlyWave(before, after[g := target], groups, target)
  {
  }

  /** The store, a gated commit or the builder's link, which can fail or refuse where
      faults occur. */
  method Works(faulty: bool) returns (ok: bool)
    ensures !ok ==> faulty
  {
    ok := *;
    ok := ok || !faulty;
  }

  /** What the builder's answer makes of a promotion. */
  function CheckOf(answer: BuildPhase): BuildCheck {
    match answer
    case NoAnswer => Unreachable
    case BuildDone => BuildCheck.Cleared(true)
    case BuildFails => BuildFailed
    case BuildRuns => StillBuilding
  }

  /** What the build check has to come to: nothing to build, or what the builder
      answered, asked once. */
  predicate Checked(hasBuilder: bool, hosts: seq<string>, before: seq<BuildPhase>, answers: seq<BuildPhase>,
      check: BuildCheck) {
    if !hasBuilder || hosts == [] then answers == before && check == BuildCheck.Cleared(false)
    else |answers| == |before| + 1 && check == CheckOf(answers[|answers| - 1])
  }

  /** So a release goes ahead without a builder, without hosts, or once it is built; a
      failed build halts, and everything else waits. */
  lemma BuilderDecides(hasBuilder: bool, hosts: seq<string>, before: seq<BuildPhase>, answers: seq<BuildPhase>,
      check: BuildCheck)
    requires Checked(hasBuilder, hosts, before, answers, check)
    ensures check.Cleared? <==> !hasBuilder || hosts == [] || answers[|answers| - 1] == BuildDone
    ensures check.BuildFailed? <==> hasBuilder && hosts != [] && answers[|answers| - 1] == BuildFails
    ensures check.StillBuilding? <==> hasBuilder && hosts != [] && answers[|answers| - 1] == BuildRuns
    ensures check.Cleared? ==> (check.built <==> hasBuilder && hosts != [])
  {
  }

  /** The current wave has yet to be promoted; or it is promoted and looked at. */
  predicate Promoting(s: Run) {
    s.ring < |s.rings| && s.ring !in s.promotedAt
  }

  predicate Observing(s: Run) {
    s.ring < |s.rings| && s.ring in s.promotedAt
  }

  /** The tick decided on what was observed of a promoted wave, and on nothing else. */
  predicate Ticked(s: Run, seen: Option<RingStatus>, now: int, e: Event, check: BuildCheck) {
    e.Tick? ==> e.now == now && e.check == check &&
                if Observing(s) then seen == Some(e.rs) else e.rs == UNOBSERVED
  }

  class RolloutService {
    const faulty: bool
    const hasRefs: bool
    const hasBuilder: bool
    const refs: Refs
    var run: Option<Run>
    var pins: map<string, string>           // the fleet's groups, "" when unpinned
    var plan: seq<Ring>
    var head: string
    var active: map<string, seq<string>>    // each group's active devices
    ghost var foundLocal: map<string, string>
    ghost var foundRemote: map<string, string>
    ghost var clearances: map<nat, Clearance>
    ghost var pinned: set<string>           // groups this run pinned
    ghost var offered: set<string>          // groups this run moved and pushed
    ghost var finished: set<(string, seq<string>)>  // builds the builder reported done
    ghost var answers: seq<BuildPhase>      // everything the builder answered

    ghost function State(): Funnel
      requires run.Some?
      reads this, refs
    {
      Funnel(run.value, refs.local, refs.remote, foundLocal, foundRemote, clearances.Keys, pinned, offered)
    }

    /** What a clearance says was so when the wave was cleared. */
    ghost predicate Accounted()
      requires run.Some?
      reads this
    {
      forall w :: w in clearances ==>
        w < |run.value.rings| &&
        match clearances[w]
        case NoBuilder => !hasBuilder
        case NoHosts(seen) => WaveHosts(seen, run.value.rings[w].groups) == []
        case Built(seen) =>
          var hosts := WaveHosts(seen, run.value.rings[w].groups);
          hosts != [] && (run.value.target, hosts) in finished
    }

    ghost predicate Valid()
      reads this, refs
    {
      run.Some? ==> Inv(State(), hasRefs) && Accounted()
    }

    constructor (faulty: bool, refs: Refs, hasRefs: bool, hasBuilder: bool, pins: map<string, string>, plan: seq<Ring>,
        head: string)
      ensures Valid() && run == None && this.refs == refs && this.pins == pins && this.faulty == faulty
    {
      this.faulty, this.refs, this.hasRefs, this.hasBuilder := faulty, refs, hasRefs, hasBuilder;
      this.pins, this.plan, this.head, answers := pins, plan, head, [];
      run, active := None, map[];
      foundLocal, foundRemote, clearances, pinned, offered, finished := map[], map[], map[], {}, {}, {};
    }

    /** Everybody else: main moves on, devices come and go, the plan is edited, and
        operators pin and unpin groups - a promoted one too, during a run or after. */
    method Others(head: string, plan: seq<Ring>, active: map<string, seq<string>>, pins: map<string, string>)
      requires Valid()
      modifies this`head, this`plan, this`active, this`pins
      ensures Valid() && this.pins == pins
    {
      this.head, this.plan, this.active, this.pins := head, plan, active, pins;
    }

    // -- starting and stopping

    method StartWith(target: string, groups: seq<string>, expedited: bool) returns (r: Result<()>)
      requires Valid()
      modifies this`run, this`foundLocal, this`foundRemote, this`clearances, this`pinned, this`offered
      ensures Valid()
      ensures var fine := target != "" && plan != [] && (old(run).Some? ==> old(run).value.status != Active) &&
                          (forall i, g :: 0 <= i < |plan| && g in plan[i].groups ==> g in pins) &&
                          forall g :: g in groups ==> g in pins;
              (r.Ok? ==> fine) && (!faulty ==> (r.Ok? <==> fine))
      ensures r.Ok? ==> run == Some(NewRun(target, if expedited then Expedited(Scoped(plan, groups))
              else Scoped(plan, groups)))
      ensures r.Ok? ==> foundLocal == refs.local && foundRemote == refs.remote
      ensures r.Err? ==> run == old(run) && foundLocal == old(foundLocal) && foundRemote == old(foundRemote)
    {
      hide Expedited, Scoped, Inv;
      if target == "" {
        return Err("rollout needs a target revision");
      }
      if plan == [] {
        return Err("no rollout rings configured");
      }
      if exists i, g :: 0 <= i < |plan| && g in plan[i].groups && g !in pins {
        return Err("rollout ring names unknown group");
      }
      if exists g :: g in groups && g !in pins {
        return Err("unknown scope group");
      }
      var rings := Scoped(plan, groups);
      if expedited {
        rings := Expedited(rings);
      }
      if run.Some? && run.value.status == Active {
        return Err("a rollout is already active");
      }
      var put := Works(faulty);
      if !put {
        return Err("record not stored");
      }
      run := Some(NewRun(target, rings));
      foundLocal, foundRemote, clearances, pinned, offered := refs.local, refs.remote, map[], {}, {};
      NewRunKeeps(State(), hasRefs);
      r := Ok(());
    }

    /** The operator's calls: each a single step of the run record, or an error. */
    method Operate(e: Event) returns (ok: bool)
      requires Valid() && (e.Pause? || e.Resume? || e.Cancel? || e.Approve?)
      modifies this`run
      ensures Valid()
      ensures ok ==> old(run).Some? && run.Some? && Step(old(run).value, e, run.value)
      ensures !ok ==> run == old(run)
      ensures !faulty ==>
                (ok <==> old(run).Some? &&
                         match e
                         case Resume => old(run).value.status == Paused
                         case Cancel => InFlight(old(run).value)
                         case _ => old(run).value.status == Active)
    {
      var put := Works(faulty);
      if run.None? || !put {
        return false;
      }
      var s := run.value;
      var s';
      match e {
        case Pause =>
          if s.status != Active { return false; }
          s' := s.(status := Paused);
        case Resume =>
          if s.status != Paused { return false; }
          s' := s.(status := Active);
        case Approve(now) =>
          if s.status != Active { return false; }
          s' := s.(approvedAt := s.approvedAt[s.ring := now]);
        case _ =>
          if s.status != Active && s.status != Paused && s.status != Halted { return false; }
          s' := s.(status := Cancelled);
      }
      RecordKeeps(State(), hasRefs, s');
      run := Some(s');
      ok := true;
    }

    // -- one tick

    predicate Ticking()
      reads this
    {
      run.Some? && run.value.status == Active && run.value.ring < |run.value.rings|
    }

    method AskBuilder(rev: string, hosts: seq<string>) returns (phase: BuildPhase)
      modifies this`finished, this`answers
      ensures answers == old(answers) + [phase]
      ensures finished == if phase == BuildDone then old(finished) + {(rev, hosts)} else old(finished)
    {
      phase := *;
      if phase == BuildDone {
        finished := finished + {(rev, hosts)};
      }
      answers := answers + [phase];
    }

    /** ensureRingBuilt: the wave is cleared only without a builder, without active
        devices, or with its release done for exactly those devices. */
    method EnsureRingBuilt() returns (check: BuildCheck)
      requires Valid() && Ticking()
      modifies this`clearances, this`finished, this`answers
      ensures Valid()
      ensures var hosts := WaveHosts(active, run.value.rings[run.value.ring].groups);
              Checked(hasBuilder, hosts, old(answers), answers, check)
      ensures var w, hosts := run.value.ring, WaveHosts(active, run.value.rings[run.value.ring].groups);
              (check.Cleared? ==>
                 w in clearances && clearances[w] == if !hasBuilder then NoBuilder
                     else if hosts == [] then NoHosts(active) else Built(active))
      ensures check.Cleared? && hasBuilder && WaveHosts(active, run.value.rings[run.value.ring].groups) != [] ==>
                (run.value.target, WaveHosts(active, run.value.rings[run.value.ring].groups)) in finished
      ensures check.Cleared? ==> (check.built <==> clearances[run.value.ring].Built?)
    {
      var s := run.value;
      if !hasBuilder {
        WorkKeeps(State(), hasRefs, clearances.Keys + {s.ring}, pinned);
        clearances := clearances[s.ring := NoBuilder];
        assert clearances.Keys == old(clearances).Keys + {s.ring};
        return BuildCheck.Cleared(false);
      }
      var hosts := [];
      var groups := s.rings[s.ring].groups;
      for i := 0 to |groups|
        invariant hosts == WaveHosts(active, groups[..i])
      {
        assert groups[..i + 1][..i] == groups[..i];
        if groups[i] in active {
          hosts := hosts + active[groups[i]];
        }
      }
      assert groups[..|groups|] == groups;
      if hosts == [] {
        WorkKeeps(State(), hasRefs, clearances.Keys + {s.ring}, pinned);
        clearances := clearances[s.ring := NoHosts(active)];
        assert clearances.Keys == old(clearances).Keys + {s.ring};
        return BuildCheck.Cleared(false);
      }
      var phase := AskBuilder(s.target, hosts);
      match phase {
        case NoAnswer => return Unreachable;
        case BuildFails => return BuildFailed;
        case BuildRuns => return StillBuilding;
        case BuildDone =>
          WorkKeeps(State(), hasRefs, clearances.Keys + {s.ring}, pinned);
          clearances := clearances[s.ring := Built(active)];
          assert clearances.Keys == old(clearances).Keys + {s.ring};
          return BuildCheck.Cleared(true);
      }
    }

    /** The pin commits, one gated write per group; the first refusal ends the tick. */
    method PinWave() returns (ok: bool)
      requires Valid() && Ticking()
      modifies this`pins, this`head, this`pinned
      ensures Valid() && OnlyWave(old(pins), pins, run.value.rings[run.value.ring].groups, run.value.target)
      ensures ok ==> forall g :: g in run.value.rings[run.value.ring].groups ==>
              g in pinned && g in pins && pins[g] == run.value.target
      ensures pins.Keys == old(pins).Keys
      ensures !faulty ==> (ok <==> forall g :: g in run.value.rings[run.value.ring].groups ==> g in pins)
    {
      hide Inv, OnlyWave, WaveHosts;
      var groups, target := run.value.rings[run.value.ring].groups, run.value.target;
      OnlyWaveStep(pins, pins, groups, target, "");
      for i := 0 to |groups|
        invariant Valid() && OnlyWave(old(pins), pins, groups, target) && pins.Keys == old(pins).Keys
        invariant forall g :: g in groups[..i] ==> g in pinned && g in pins && pins[g] == target
      {
        var committed := Works(faulty);
        if !committed || groups[i] !in pins {
          return false;
        }
        WorkKeeps(State(), hasRefs, clearances.Keys, pinned + {groups[i]});
        assert groups[i] in groups;
        OnlyWaveStep(old(pins), pins, groups, target, groups[i]);
        pins, pinned := pins[groups[i] := target], pinned + {groups[i]};
        head := *;
        assert groups[..i + 1] == groups[..i] + [groups[i]];
      }
      assert groups[..|groups|] == groups;
      ok := true;
    }

    /** moveRingRef: set, then always push, even when the local branch was there. */
    method MoveRingRef(group: string, rev: string) returns (ok: bool)
      modifies refs
      ensures refs.local == old(refs.local) || refs.local == old(refs.local)[group := rev]
      ensures refs.remote == old(refs.remote) ||
              (refs.local == old(refs.local)[group := rev] && refs.remote == old(refs.remote)[group := rev])
      ensures ok ==> refs.local == old(refs.local)[group := rev] && refs.remote == old(refs.remote)[group := rev]
      ensures !ok ==> refs.faulty
    {
      ok := refs.SetRef(group, rev);
      if !ok {
        return;
      }
      ok := refs.PushRef(group);
    }

    method MoveWave() returns (ok: bool)
      requires Valid() && Ticking() && run.value.ring in clearances
      requires forall g :: g in run.value.rings[run.value.ring].groups ==> g in pinned
      modifies refs, this`offered
      ensures Valid()
      ensures OnlyWave(old(refs.local), refs.local, run.value.rings[run.value.ring].groups, run.value.target)
      ensures OnlyWave(old(refs.remote), refs.remote, run.value.rings[run.value.ring].groups, run.value.target)
      ensures ok ==> forall g :: g in run.value.rings[run.value.ring].groups ==> g in offered
      ensures !ok ==> refs.faulty
    {
      hide Inv;
      var groups, target := run.value.rings[run.value.ring].groups, run.value.target;
      for i := 0 to |groups|
        invariant Valid()
        invariant OnlyWave(old(refs.local), refs.local, groups, target) &&
                  OnlyWave(old(refs.remote), refs.remote, groups, target)
        invariant forall g :: g in groups[..i] ==> g in offered
      {
        ghost var before := State();
        assert groups[i] in groups;
        ok := MoveRingRef(groups[i], target);
        MoveKeeps(before, hasRefs, groups[i], refs.local, refs.remote);
        if !ok {
          return;
        }
        OfferKeeps(State(), hasRefs, groups[i]);
        offered := offered + {groups[i]};
        assert groups[..i + 1] == groups[..i] + [groups[i]];
      }
      assert groups[..|groups|] == groups;
      ok := true;
    }

    /** What the engine's answer does to pins and branches, whatever the answer; a
        promotion stops at the first failure and is asked for again. */
    method PromoteWave() returns (ready: bool, check: BuildCheck)
      requires Valid() && Ticking()
      modifies this`pins, this`head, this`clearances, this`pinned, this`offered, this`finished, this`answers, refs
      ensures Valid()
      ensures var hosts := WaveHosts(active, run.value.rings[run.value.ring].groups);
              Checked(hasBuilder, hosts, old(answers), answers, check)
      ensures !faulty && !refs.faulty && check.Cleared? ==>
                (ready <==> forall g :: g in run.value.rings[run.value.ring].groups ==> g in old(pins))
      ensures ready ==> check.Cleared? && Shipped(State(), hasRefs, run.value.ring)
      ensures var groups, target := run.value.rings[run.value.ring].groups, run.value.target;
              OnlyWave(old(pins), pins, groups, target) && OnlyWave(old(refs.local), refs.local, groups, target) &&
              OnlyWave(old(refs.remote), refs.remote, groups, target)
      ensures !check.Cleared? ==>
              !ready && pins == old(pins) && refs.local == old(refs.local) && refs.remote == old(refs.remote)
    {
      hide Inv;
      check := EnsureRingBuilt();
      if !check.Cleared? {
        return false, check;
      }
      ready := PinWave();
      if !ready {
        return;
      }
      if run.value.rings[run.value.ring].maxDevices > 0 {
        ready := Works(faulty);
        if !ready {
          return;
        }
      }
      if hasRefs {
        ready := MoveWave();
      }
    }

    lemma SameRefs(m: map<string, string>, run: Run)
      ensures run.ring < |run.rings| ==> OnlyWave(m, m, run.rings[run.ring].groups, run.target)
    {
    }

    method Execute(act: Action, rs: RingStatus, now: int) returns (stored: bool, check: BuildCheck)
      requires Valid() && run.Some? && run.value.status == Active
      requires act.Promote? || act.WidenCohort? ==> run.value.ring < |run.value.rings|
      modifies this, refs
      ensures Valid() && foundLocal == old(foundLocal) && foundRemote == old(foundRemote) && active == old(active)
      ensures act.Promote? ==>
                var hosts := WaveHosts(active, old(run).value.rings[old(run).value.ring].groups);
                Checked(hasBuilder, hosts, old(answers), answers, check)
      ensures !faulty && !refs.faulty ==>
                (stored <==> (act.Promote? && check.Cleared? ==>
                   forall g :: g in old(run).value.rings[old(run).value.ring].groups ==> g in old(pins)))
      ensures run == if stored then Some(AfterTick(old(run).value, act, rs, check, now)) else old(run)
      ensures !act.Promote? ==> pins == old(pins) && refs.local == old(refs.local) && refs.remote == old(refs.remote)
      ensures act.Promote? ==>
                var groups, target := run.value.rings[old(run).value.ring].groups, run.value.target;
                OnlyWave(old(pins), pins, groups, target) && OnlyWave(old(refs.local), refs.local, groups, target) &&
                OnlyWave(old(refs.remote), refs.remote, groups, target)
    {
      hide Inv, OnlyWave, Checked, WaveHosts;
      check, stored := Unreachable, false;
      SameRefs(pins, run.value);
      SameRefs(refs.local, run.value);
      SameRefs(refs.remote, run.value);
      if act.Promote? {
        var ready;
        ready, check := PromoteWave();
        if check.Cleared? && !ready {
          return;
        }
      } else if act.WidenCohort? {
        var released := Works(faulty);
        if !released {
          return;
        }
      }
      var s' := AfterTick(run.value, act, rs, check, now);
      stored := Works(faulty);
      if stored {
        RecordKeeps(State(), hasRefs, s');
        run := Some(s');
      }
    }

    /** Tick: at most one action of the engine, on what was observed of the current
        wave; none when the observation fails. */
    method Tick(seen: Option<RingStatus>, now: int) returns (ghost e: Event, ghost check: BuildCheck)
      requires Valid()
      modifies this, refs
      ensures Valid() && foundLocal == old(foundLocal) && foundRemote == old(foundRemote)
      ensures old(run).None? || old(run).value.status != Active ==>
                run == old(run) && pins == old(pins) && refs.local == old(refs.local) && refs.remote == old(refs.remote)
      ensures old(run).Some? && old(run).value.status == Active ==>
                run.Some? && Step(old(run).value, e, run.value) && (e.Tick? || e.Lost?) &&
                Ticked(old(run).value, seen, now, e, check) &&
                (run.value.status == Halted <==> Halts(old(run).value, e))
      ensures old(run).Some? && old(run).value.status == Active && Promoting(old(run).value) ==>
                var wave := old(run).value.rings[old(run).value.ring].groups;
                Checked(hasBuilder, WaveHosts(active, wave), old(answers), answers, check)
      ensures !faulty && !refs.faulty && old(run).Some? && old(run).value.status == Active ==>
                (e.Tick? <==>
                   if Promoting(old(run).value) then
                     var wave := old(run).value.rings[old(run).value.ring].groups;
                     check.Cleared? ==> forall g :: g in wave ==> g in old(pins)
                   else Observing(old(run).value) ==> seen.Some?)
    {
      hide Inv;
      e, check := Lost, Unreachable;
      if run.None? || run.value.status != Active {
        return;
      }
      var s := run.value;
      var rs := UNOBSERVED;
      if s.ring in s.promotedAt && s.ring < |s.rings| {
        if seen.None? {
          return;
        }
        rs := seen.value;
      }
      var act := Decide(s.rings, s, rs, now);
      var stored, answer := Execute(act, rs, now);
      check := answer;
      if stored {
        e := Event.Tick(rs, check, now);
        StatusMoves(s, e, run.value);
      }
    }

    // -- between runs

    /** Only branches of unpinned plan groups moved, and only to main's head. */
    predicate Followed(before: map<string, string>, after: map<string, string>)
      reads this
    {
      (forall g :: g in before ==> g in after) &&
      forall g :: g in after ==>
        (g in before && after[g] == before[g]) ||
        (after[g] == head && g in pins && pins[g] == "" && exists i :: 0 <= i < |plan| && g in plan[i].groups)
    }

    predicate Follows(g: string)
      reads this, refs
    {
      g in refs.local && refs.local[g] == head && g in refs.remote && refs.remote[g] == head
    }

    /** FollowHead: nothing while a run is in flight; otherwise every unpinned
        branch of the plan goes to main's head, and no pinned one moves. */
    method FollowHead() returns (ok: bool)
      requires Valid()
      modifies refs
      ensures Valid()
      ensures !hasRefs || (run.Some? && InFlight(run.value)) ==>
              refs.local == old(refs.local) && refs.remote == old(refs.remote)
      ensures Followed(old(refs.local), refs.local) && Followed(old(refs.remote), refs.remote)
      ensures ok && hasRefs && !(run.Some? && InFlight(run.value)) ==>
                forall i, g :: 0 <= i < |plan| && g in plan[i].groups && g in pins && pins[g] == "" ==> Follows(g)
      ensures !ok ==> refs.faulty
    {
      hide Inv;
      if !hasRefs || (run.Some? && InFlight(run.value)) {
        return true;
      }
      for i := 0 to |plan|
        invariant Valid() && Followed(old(refs.local), refs.local) && Followed(old(refs.remote), refs.remote)
        invariant forall j, g :: 0 <= j < i && g in plan[j].groups && g in pins && pins[g] == "" ==> Follows(g)
      {
        ok := FollowRing(i);
        if !ok {
          return;
        }
      }
      ok := true;
    }

    lemma FollowedStep(a: map<string, string>, b: map<string, string>, c: map<string, string>, i: nat, g: string)
      requires Followed(a, b) && (c == b || c == b[g := head])
      requires i < |plan| && g in plan[i].groups && g in pins && pins[g] == ""
      ensures Followed(a, c)
    {
    }

    method FollowGroup(g: string) returns (ok: bool)
      requires Valid() && !(run.Some? && InFlight(run.value)) && g in pins && pins[g] == ""
      modifies refs
      ensures Valid()
      ensures refs.local == old(refs.local) || refs.local == old(refs.local)[g := head]
      ensures refs.remote == old(refs.remote) || refs.remote == old(refs.remote)[g := head]
      ensures ok ==> Follows(g)
      ensures !ok ==> refs.faulty
    {
      hide Inv;
      ghost var l, r := refs.local, refs.remote;
      ok := MoveRingRef(g, head);
      if run.Some? {
        FollowKeeps(State().(local := l, remote := r), hasRefs, refs.local, refs.remote);
      }
    }

    method FollowRing(i: nat) returns (ok: bool)
      requires Valid() && i < |plan| && !(run.Some? && InFlight(run.value))
      modifies refs
      ensures Valid() && Followed(old(refs.local), refs.local) && Followed(old(refs.remote), refs.remote)
      ensures ok ==> forall g :: g in plan[i].groups && g in pins && pins[g] == "" ==> Follows(g)
      ensures !ok ==> refs.faulty
      ensures forall g :: old(Follows(g)) ==> Follows(g)
    {
      hide Inv, Valid, Followed;
      var groups := plan[i].groups;
      Unmoved(refs.local);
      Unmoved(refs.remote);
      for k := 0 to |groups|
        invariant Valid() && Followed(old(refs.local), refs.local) && Followed(old(refs.remote), refs.remote)
        invariant forall g :: g in groups[..k] && g in pins && pins[g] == "" ==> Follows(g)
        invariant forall g :: old(Follows(g)) ==> Follows(g)
      {
        var g := groups[k];
        assert groups[..k + 1] == groups[..k] + [g];
        if g in pins && pins[g] == "" {
          ghost var l, r := refs.local, refs.remote;
          ok := FollowGroup(g);
          FollowedStep(old(refs.local), l, refs.local, i, g);
          FollowedStep(old(refs.remote), r, refs.remote, i, g);
          if !ok {
            return;
          }
        }
      }
      assert groups[..|groups|] == groups;
      ok := true;
    }

    lemma Unmoved(m: map<string, string>)
      ensures Followed(m, m)
    {
    }
  }
}
