// Auto-flow (internal/app/rollout.go): when the idle engine starts a run by
// itself. The damping walk reads the configuration log, newest first.
module AutoFlow {
  import opened Wrappers
  import opened RolloutPlan
  import opened Rollout
  import Text

  const LOG_DEPTH := 200
  const RISK_HIGH := "[risk:high]"
  const MACHINES := {"sextant-rollout", "sextant-agent"}

  datatype Entry = Entry(hash: string, author: string, subject: string)

  /** The engine's own commits and the device agent's. */
  predicate IsMachine(e: Entry) {
    e.author == "sextant-rollout" || e.author == "sextant-agent"
  }

  /** A commit that asks for a run, and one that asks for an operator instead. */
  predicate Warrants(e: Entry) {
    !IsMachine(e)
  }

  predicate Risky(e: Entry) {
    !IsMachine(e) && Text.Contains(e.subject, RISK_HIGH)
  }

  datatype Scan = Scan(roll: bool, risk: Option<Entry>)

  function Window(log: seq<Entry>): seq<Entry> {
    if |log| <= LOG_DEPTH then log else log[..LOG_DEPTH]
  }

  /** How many commits of the window are newer than the baseline. */
  function Newer(window: seq<Entry>, baseline: string): (n: nat)
    ensures n <= |window|
    ensures forall i :: 0 <= i < n ==> window[i].hash != baseline
    ensures n < |window| ==> window[n].hash == baseline
  {
    if window == [] || window[0].hash == baseline then 0 else 1 + Newer(window[1..], baseline)
  }

  lemma {:induction false} NewerIsTheFirst(window: seq<Entry>, baseline: string, n: nat)
    requires n <= |window| && forall i :: 0 <= i < n ==> window[i].hash != baseline
    requires n < |window| ==> window[n].hash == baseline
    ensures Newer(window, baseline) == n
  {
    if n > 0 {
      NewerIsTheFirst(window[1..], baseline, n - 1);
    }
  }

  ghost predicate IsScan(scan: Scan, window: seq<Entry>, baseline: string) {
    var n := Newer(window, baseline);
    && (scan.roll <==> n == |window| || exists i :: 0 <= i < n && window[i].author !in MACHINES)
    && (scan.risk.None? ==> forall i :: 0 <= i < n ==> !Risky(window[i]))
    && (scan.risk.Some? ==> exists i :: 0 <= i < n && NewestRisk(window, i, scan.risk.value))
  }

  ghost predicate NewestRisk(window: seq<Entry>, i: nat, e: Entry)
    requires i < |window|
  {
    window[i] == e && e.author !in MACHINES && Risky(e) && forall j :: 0 <= j < i ==> !Risky(window[j])
  }

  /** nonMachineCommitsSince: a run is warranted exactly when somebody else's commit
      sits above the baseline or the baseline is out of the window; the risk
      reported is the newest marked commit of somebody else's above it. */
  method NonMachineCommitsSince(log: seq<Entry>, baseline: string) returns (scan: Scan)
    ensures IsScan(scan, Window(log), baseline)
  {
    var entries := Window(log);
    scan := Scan(false, None);
    for k := 0 to |entries|
      invariant forall i :: 0 <= i < k ==> entries[i].hash != baseline
      invariant scan.roll <==> exists i :: 0 <= i < k && Warrants(entries[i])
      invariant scan.risk.None? ==> forall i :: 0 <= i < k ==> !Risky(entries[i])
      invariant scan.risk.Some? ==> exists i :: 0 <= i < k && NewestRisk(entries, i, scan.risk.value)
    {
      var e := entries[k];
      if e.hash == baseline {
        NewerIsTheFirst(entries, baseline, k);
        return;
      }
      if IsMachine(e) {
        continue;
      }
      assert Warrants(entries[k]);
      scan := scan.(roll := true);
      if scan.risk.None? && Text.Contains(e.subject, RISK_HIGH) {
        assert NewestRisk(entries, k, e);
        scan := scan.(risk := Some(e));
      }
    }
    NewerIsTheFirst(entries, baseline, |entries|);
    scan := scan.(roll := true);
  }

  /** Damping: above a baseline, a trail of machine commits alone warrants a run
      exactly when it fills the window. */
  lemma MachineTrail(log: seq<Entry>, baseline: string, n: nat, scan: Scan)
    requires n < |log| && log[n].hash == baseline
    requires forall i :: 0 <= i < n ==> IsMachine(log[i]) && log[i].hash != baseline
    requires IsScan(scan, Window(log), baseline)
    ensures scan.roll <==> n >= LOG_DEPTH
    ensures scan.risk == None
  {
    NewerIsTheFirst(Window(log), baseline, if n < LOG_DEPTH then n else LOG_DEPTH);
  }

  // ---- The promoted baseline ------------------------------------------

  function PinsOf(pins: map<string, string>, groups: seq<string>): seq<string> {
    if groups == [] then []
    else
      var n := |groups| - 1;
      PinsOf(pins, groups[..n]) + if groups[n] in pins && pins[groups[n]] != "" then [pins[groups[n]]] else []
  }

  function PlanPins(pins: map<string, string>, plan: seq<Ring>): seq<string> {
    if plan == [] then []
    else
      var n := |plan| - 1;
      PlanPins(pins, plan[..n]) + PinsOf(pins, plan[n].groups)
  }

  /** promotedBaseline: the first pin in plan order, and whether every pin is at the
      revision asked about. */
  method PromotedBaseline(pins: map<string, string>, plan: seq<Ring>, rev: string)
      returns (baseline: Option<string>, atRev: bool)
    ensures var all := PlanPins(pins, plan);
            baseline == (if all == [] then None else Some(all[0])) && (atRev <==> forall p :: p in all ==> p == rev)
  {
    var all := [];
    for i := 0 to |plan|
      invariant all == PlanPins(pins, plan[..i])
    {
      assert plan[..i + 1][..i] == plan[..i];
      var groups := plan[i].groups;
      ghost var before := all;
      for k := 0 to |groups|
        invariant all == before + PinsOf(pins, groups[..k])
      {
        assert groups[..k + 1][..k] == groups[..k];
        if groups[k] in pins && pins[groups[k]] != "" {
          all := all + [pins[groups[k]]];
        }
      }
      assert groups[..|groups|] == groups;
    }
    assert plan[..|plan|] == plan;
    baseline := if all == [] then None else Some(all[0]);
    atRev := forall p :: p in all ==> p == rev;
  }

  /** The place in the plan: its wave, and its position there. */
  predicate EarlierPlace(i: nat, k: nat, j: nat, l: nat) {
    i < j || (i == j && k < l)
  }

  predicate PinnedPlace(pins: map<string, string>, plan: seq<Ring>, i: nat, k: nat) {
    i < |plan| && k < |plan[i].groups| && plan[i].groups[k] in pins && pins[plan[i].groups[k]] != ""
  }

  lemma {:induction false} FirstOfWave(pins: map<string, string>, groups: seq<string>) returns (k: nat)
    requires PinsOf(pins, groups) != []
    ensures k < |groups| && groups[k] in pins && pins[groups[k]] != "" && PinsOf(pins, groups)[0] == pins[groups[k]]
    ensures forall l :: 0 <= l < k ==> groups[l] !in pins || pins[groups[l]] == ""
  {
    var n := |groups| - 1;
    if PinsOf(pins, groups[..n]) != [] {
      k := FirstOfWave(pins, groups[..n]);
      assert forall l :: 0 <= l < n ==> groups[..n][l] == groups[l];
    } else {
      PinsAre(pins, groups[..n]);
      k := n;
      forall l | 0 <= l < k ensures groups[l] !in pins || pins[groups[l]] == "" {
        assert groups[l] in groups[..n];
        assert groups[l] in pins ==> pins[groups[l]] !in PinsOf(pins, groups[..n]);
      }
    }
  }

  /** The baseline is the pin of the first pinned group, wave by wave in plan order. */
  lemma {:induction false} BaselineIsTheFirst(pins: map<string, string>, plan: seq<Ring>) returns (i: nat, k: nat)
    requires PlanPins(pins, plan) != []
    ensures PinnedPlace(pins, plan, i, k) && PlanPins(pins, plan)[0] == pins[plan[i].groups[k]]
    ensures forall j: nat, l: nat :: EarlierPlace(j, l, i, k) ==> !PinnedPlace(pins, plan, j, l)
  {
    var n := |plan| - 1;
    if PlanPins(pins, plan[..n]) != [] {
      i, k := BaselineIsTheFirst(pins, plan[..n]);
      forall j: nat, l: nat | EarlierPlace(j, l, i, k) ensures !PinnedPlace(pins, plan, j, l) {
        assert PinnedPlace(pins, plan[..n], j, l) <==> PinnedPlace(pins, plan, j, l);
      }
    } else {
      i := n;
      k := FirstOfWave(pins, plan[n].groups);
      forall j: nat, l: nat | EarlierPlace(j, l, i, k) ensures !PinnedPlace(pins, plan, j, l) {
        if j < n && PinnedPlace(pins, plan, j, l) {
          var g := plan[j].groups[l];
          assert PinnedAt(pins, plan[..n], j, g, pins[g]);
          PlanPinsAre(pins, plan[..n], pins[g]);
        }
      }
    }
  }

  lemma {:induction false} PinsAre(pins: map<string, string>, groups: seq<string>)
    ensures forall p :: p in PinsOf(pins, groups) <==> p != "" && exists g :: g in groups && g in pins && pins[g] == p
  {
    if groups != [] {
      var n := |groups| - 1;
      PinsAre(pins, groups[..n]);
      assert groups == groups[..n] + [groups[n]];
    }
  }

  ghost predicate PinnedAt(pins: map<string, string>, plan: seq<Ring>, i: nat, g: string, p: string) {
    i < |plan| && g in plan[i].groups && g in pins && pins[g] == p
  }

  lemma {:induction false} PlanPinsAre(pins: map<string, string>, plan: seq<Ring>, p: string)
    ensures p in PlanPins(pins, plan) <==> p != "" && exists i, g :: PinnedAt(pins, plan, i, g, p)
  {
    if plan != [] {
      var n := |plan| - 1;
      PlanPinsAre(pins, plan[..n], p);
      PinsAre(pins, plan[n].groups);
      assert forall i, g :: PinnedAt(pins, plan[..n], i, g, p) ==> PinnedAt(pins, plan, i, g, p);
      assert forall i: nat, g :: i < n && PinnedAt(pins, plan, i, g, p) ==> PinnedAt(pins, plan[..n], i, g, p);
      if p in PinsOf(pins, plan[n].groups) {
        var g :| g in plan[n].groups && g in pins && pins[g] == p;
        assert PinnedAt(pins, plan, n, g, p);
      }
    }
  }

  // ---- Starting by itself ---------------------------------------------

  predicate Idle(run: Option<Run>) {
    run.None? || run.value.status == Completed || run.value.status == Cancelled
  }

  /** What has to hold for a run to start itself: a funnel and a plan, auto-flow on,
      an idle engine, a readable log, pins that are not all at main's head, and a walk
      that warrants a run and found nothing high-risk. */
  ghost predicate StartsItself(
      hasRefs: bool, enabled: bool, run: Option<Run>, pins: map<string, string>, plan: seq<Ring>, head: string,
          log: Option<seq<Entry>>) {
    && hasRefs && enabled && plan != [] && Idle(run) && log.Some?
    && PlanPins(pins, plan) != [] && (exists p :: p in PlanPins(pins, plan) && p != head)
    && forall scan :: IsScan(scan, Window(log.value), PlanPins(pins, plan)[0]) ==> scan.roll && scan.risk.None?
  }

  /** Two walks of the same window agree on whether to roll and whether to hold. */
  lemma ScansAgree(a: Scan, b: Scan, window: seq<Entry>, baseline: string)
    requires IsScan(a, window, baseline) && IsScan(b, window, baseline)
    ensures a.roll == b.roll && (a.risk.None? <==> b.risk.None?)
  {
    var n := Newer(window, baseline);
    if a.risk.Some? {
      var i :| 0 <= i < n && NewestRisk(window, i, a.risk.value);
      assert Risky(window[i]);
    }
    if b.risk.Some? {
      var i :| 0 <= i < n && NewestRisk(window, i, b.risk.value);
      assert Risky(window[i]);
    }
  }

  /** maybeAutoStart: a run starts only when all of that holds, to main's head over
      the full plan; when it holds and no run starts, starting one was refused - or
      the stored run or main's head could not be read, which ends the tick first. */
  method MaybeAutoStart(service: RolloutService, enabled: bool, log: Option<seq<Entry>>)
      returns (started: bool, refused: bool, unread: bool)
    requires service.Valid()
    modifies service`run, service`foundLocal, service`foundRemote, service`clearances, service`pinned, service`offered
    ensures service.Valid()
    ensures !started ==> service.run == old(service.run)
    ensures started ==> service.run == Some(NewRun(service.head, service.plan))
    ensures started || refused <==>
            !unread &&
            StartsItself(service.hasRefs, enabled, old(service.run), service.pins, service.plan, service.head, log)
    ensures !(started && refused)
    ensures unread ==> service.hasRefs && enabled && service.plan != [] && service.faulty
    ensures refused ==>
            service.faulty || service.head == "" ||
            exists i, g :: 0 <= i < |service.plan| && g in service.plan[i].groups && g !in service.pins
  {
    started, refused, unread := false, false, false;
    if !service.hasRefs || service.plan == [] || !enabled {
      return;
    }
    var got := Works(service.faulty);
    if !got {
      unread := true;
      return;
    }
    if !Idle(service.run) {
      return;
    }
    var headRead := Works(service.faulty);
    if !headRead {
      unread := true;
      return;
    }
    var baseline, atHead := PromotedBaseline(service.pins, service.plan, service.head);
    if baseline.None? || atHead || log.None? {
      return;
    }
    var scan := NonMachineCommitsSince(log.value, baseline.value);
    forall other | IsScan(other, Window(log.value), baseline.value)
      ensures other.roll == scan.roll && (other.risk.None? <==> scan.risk.None?)
    {
      ScansAgree(other, scan, Window(log.value), baseline.value);
    }
    if !scan.roll || scan.risk.Some? {
      return;
    }
    var r := service.StartWith(service.head, [], false);
    started, refused := r.Ok?, r.Err?;
  }

  /** A full-ladder run that promoted every wave leaves every pin of the plan at its
      target, as long as nobody has moved one of those pins since. */
  lemma CompletedSetsTheBaseline(f: Funnel, hasRefs: bool, pins: map<string, string>, plan: seq<Ring>)
    requires Inv(f, hasRefs) && f.run.rings == plan
    requires forall w: nat :: w < |plan| ==> w in f.run.promotedAt
    requires forall g :: g in f.pinned ==> g in pins && pins[g] == f.run.target
    requires exists i, g :: 0 <= i < |plan| && g in plan[i].groups
    ensures PlanPins(pins, plan) != [] && forall p :: p in PlanPins(pins, plan) ==> p == f.run.target
  {
    var i, g :| 0 <= i < |plan| && g in plan[i].groups;
    assert Shipped(f, hasRefs, i);
    assert PinnedAt(pins, plan, i, g, f.run.target);
    PlanPinsAre(pins, plan, f.run.target);
    forall p | p in PlanPins(pins, plan) ensures p == f.run.target {
      PlanPinsAre(pins, plan, p);
      var j, h :| PinnedAt(pins, plan, j, h, p);
      assert Shipped(f, hasRefs, j);
    }
  }

  /** Auto-flow does not feed itself. After a full-ladder run to what was then the
      head completes, with its pins untouched, the engine's and agents' own commits on
      top of it start no further run, while there are fewer of them than the walk is
      deep - and start one from then on, if the engine is asked to at all. */
  lemma OwnCommitsStartNothing(
      ss: seq<Run>, es: seq<Event>, f: Funnel, hasRefs: bool, enabled: bool, pins: map<string, string>, head: string,
      log: seq<Entry>, n: nat)
    requires Trace(ss, es) && ss[0] == NewRun(ss[0].target, ss[0].rings) && f.run == ss[|ss| - 1] &&
             f.run.status == Completed
    requires Inv(f, hasRefs) && forall g :: g in f.pinned ==> g in pins && pins[g] == f.run.target
    requires exists i, g :: 0 <= i < |f.run.rings| && g in f.run.rings[i].groups
    requires n < |log| && log[n].hash == f.run.target && log[0].hash == head
    requires forall i :: 0 <= i < n ==> IsMachine(log[i]) && log[i].hash != f.run.target
    ensures StartsItself(hasRefs, enabled, Some(f.run), pins, f.run.rings, head, Some(log)) <==>
            hasRefs && enabled && n >= LOG_DEPTH
  {
    hide Inv, Window, IsScan, Step;
    var plan := f.run.rings;
    PlanNeverChanges(ss, es, |ss| - 1);
    CompletedPromotedEveryWave(ss, es, |ss| - 1);
    CompletedSetsTheBaseline(f, hasRefs, pins, plan);
    var all := PlanPins(pins, plan);
    assert all[0] in all && all[0] == f.run.target;
    forall scan | IsScan(scan, Window(log), f.run.target) ensures (scan.roll <==> n >= LOG_DEPTH) && scan.risk == None {
      MachineTrail(log, f.run.target, n, scan);
    }
    var scan := SomeScan(log, f.run.target);
  }

  lemma SomeScan(log: seq<Entry>, baseline: string) returns (scan: Scan)
    ensures IsScan(scan, Window(log), baseline)
  {
    var window := Window(log);
    var n := Newer(window, baseline);
    var roll := n == |window| || exists i :: 0 <= i < n && Warrants(window[i]);
    scan := Scan(roll, None);
    var i := 0;
    while i < n
      invariant 0 <= i <= n && scan.roll == roll
      invariant scan.risk.None? ==> forall j :: 0 <= j < i ==> !Risky(window[j])
      invariant scan.risk.Some? ==> exists j :: 0 <= j < i && NewestRisk(window, j, scan.risk.value)
    {
      if scan.risk.None? && Risky(window[i]) {
        assert NewestRisk(window, i, window[i]);
        scan := Scan(roll, Some(window[i]));
      }
      i := i + 1;
    }
  }
}
