// The decision engine of staged rollouts (internal/domain/rollout/rollout.go) and
// the run record a tick writes from its answer (internal/app/rollout.go). Times
// are seconds.
module RolloutPlan {
  datatype Ring = Ring(
    groups: seq<string>, soakMinutes: int, minHealthyPercent: int, requireApproval: bool, minDevices: int,
        maxDevices: int)

  /** One observation of a wave: its released cohort and how it is doing. */
  datatype RingStatus = RingStatus(
    total: nat, onTarget: nat, healthy: nat, broken: nat, absent: nat, released: nat, groupTotal: nat)

  const UNOBSERVED := RingStatus(0, 0, 0, 0, 0, 0, 0)

  datatype RunStatus = Active | Paused | Halted | Completed | Cancelled

  datatype Run = Run(
    target: string, rings: seq<Ring>, ring: nat,
    promotedAt: map<nat, int>, convergedAt: map<nat, int>, approvedAt: map<nat, int>, buildRequestedAt: map<nat, int>,
    status: RunStatus)

  datatype Action = Promote | Wait | Advance | WidenCohort | Halt | AwaitApproval | Done

  function MinHealthy(r: Ring): int {
    if r.minHealthyPercent <= 0 then 95 else r.minHealthyPercent
  }

  /** The evidence floor: half the cohort unless the wave says otherwise, at least
      one device, never more than the cohort has - an empty one aside. */
  function MinPresent(r: Ring, total: nat): (want: int)
    ensures want >= 1 && (total >= 1 ==> want <= total)
  {
    var want := if r.minDevices <= 0 then (total + 1) / 2 else r.minDevices;
    var want := if want > total then total else want;
    if want < 1 then 1 else want
  }

  function Present(rs: RingStatus): (n: nat) {
    if rs.total > rs.absent then rs.total - rs.absent else 0
  }

  predicate EnoughEvidence(r: Ring, rs: RingStatus) {
    Present(rs) >= MinPresent(r, rs.total)
  }

  predicate Converged(r: Ring, rs: RingStatus) {
    EnoughEvidence(r, rs) && Present(rs) > 0 && rs.healthy * 100 / Present(rs) >= MinHealthy(r)
  }

  predicate TooBroken(r: Ring, rs: RingStatus) {
    Present(rs) > 0 && rs.broken * 100 / Present(rs) > 100 - MinHealthy(r)
  }

  function Decide(rings: seq<Ring>, s: Run, rs: RingStatus, now: int): Action {
    if s.status != Active then Done
    else if s.ring >= |rings| then Done
    else
      var ring := rings[s.ring];
      if s.ring !in s.promotedAt then Promote
      else if rs.total == 0 then Advance
      else if TooBroken(ring, rs) then Halt
      else if Present(rs) == 0 then Wait
      else if !EnoughEvidence(ring, rs) then Wait
      else if !Converged(ring, rs) then Wait
      else if s.ring !in s.convergedAt then Wait
      else if now - s.convergedAt[s.ring] < ring.soakMinutes * 60 then Wait
      else if ring.maxDevices > 0 && rs.released < rs.groupTotal then WidenCohort
      else if s.ring == |rings| - 1 then Done
      else if ring.requireApproval && s.ring !in s.approvedAt then AwaitApproval
      else Advance
  }

  lemma FloorAtLeast(a: nat, p: nat, m: int)
    requires p > 0
    ensures a / p >= m <==> a >= m * p
  {
    var q := a / p;
    assert a == q * p + a % p;
    if q >= m {
      Scaled(m, q, p);
    } else {
      Scaled(q + 1, m, p);
      assert (q + 1) * p == q * p + p;
    }
  }

  lemma Scaled(a: int, b: int, p: nat)
    requires a <= b
    ensures a * p <= b * p
  {
  }

  /** By default half of the cohort must be reachable; a wave that names a number
      needs that many, or everybody. */
  lemma EvidenceMeans(r: Ring, rs: RingStatus)
    requires rs.total > 0
    ensures r.minDevices <= 0 ==> (EnoughEvidence(r, rs) <==> 2 * Present(rs) >= rs.total)
    ensures r.minDevices > 0 ==> (EnoughEvidence(r, rs) <==> Present(rs) >= r.minDevices || rs.absent == 0)
  {
  }

  /** The two gates without their divisions, the threshold being the wave's own or 95:
      the rounding of the second one lets a share of almost one percent above the
      failure budget pass. */
  lemma GatesMean(r: Ring, rs: RingStatus)
    requires Present(rs) > 0
    ensures MinHealthy(r) == if r.minHealthyPercent >= 1 then r.minHealthyPercent else 95
    ensures Converged(r, rs) <==> EnoughEvidence(r, rs) && rs.healthy * 100 >= MinHealthy(r) * Present(rs)
    ensures TooBroken(r, rs) <==> rs.broken * 100 >= (101 - MinHealthy(r)) * Present(rs)
  {
    FloorAtLeast(rs.healthy * 100, Present(rs), MinHealthy(r));
    FloorAtLeast(rs.broken * 100, Present(rs), 101 - MinHealthy(r));
  }

  /** So a wave whose present devices are all settled, well or broken, neither
      converges nor halts exactly in that gap: the broken ones already exceed the
      budget, and the run waits until a device changes. */
  lemma NeitherConvergedNorBroken(r: Ring, rs: RingStatus)
    requires Present(rs) > 0 && EnoughEvidence(r, rs) && rs.healthy + rs.broken == Present(rs)
    ensures !Converged(r, rs) && !TooBroken(r, rs) <==>
            (100 - MinHealthy(r)) * Present(rs) < rs.broken * 100 < (101 - MinHealthy(r)) * Present(rs)
  {
    GatesMean(r, rs);
    var p, m := Present(rs), MinHealthy(r);
    assert rs.healthy * 100 == 100 * p - rs.broken * 100;
    assert (100 - m) * p == 100 * p - m * p;
  }

  /** Two broken devices of thirty-nine, under the default threshold. */
  lemma SettledWaveThatWaits()
    ensures var r, rs := Ring(["g"], 0, 0, false, 0, 0), RingStatus(39, 39, 37, 2, 0, 39, 39);
            Present(rs) == 39 && rs.healthy + rs.broken == 39 && !Converged(r, rs) && !TooBroken(r, rs)
  {
  }

  /** A wave may be left: it soaked, nothing of it is too broken, all of it is
      released - or nobody is in it. */
  predicate Soaked(s: Run, rs: RingStatus, now: int)
    requires s.ring < |s.rings|
  {
    var ring := s.rings[s.ring];
    rs.total == 0 ||
    (!TooBroken(ring, rs) && Converged(ring, rs) && s.ring in s.convergedAt &&
     now - s.convergedAt[s.ring] >= ring.soakMinutes * 60 &&
     (ring.maxDevices > 0 ==> rs.released >= rs.groupTotal))
  }

  /** The engine's answers for a promoted wave, each exactly when: it halts on a
      broken wave, leaves a soaked one - ends the run with the last, asks for a
      missing sign-off - and otherwise waits or widens. */
  lemma AnswersAreExact(s: Run, rs: RingStatus, now: int)
    requires s.status == Active && s.ring < |s.rings| && s.ring in s.promotedAt
    ensures var act, ring, last := Decide(s.rings, s, rs, now), s.rings[s.ring], s.ring == |s.rings| - 1;
            && (act == Halt <==> rs.total > 0 && TooBroken(ring, rs))
            && (act == Done <==> rs.total > 0 && last && Soaked(s, rs, now))
            && (act == AwaitApproval <==>
                  rs.total > 0 && !last && Soaked(s, rs, now) && ring.requireApproval && s.ring !in s.approvedAt)
            && (act == Advance || act == Done || act == AwaitApproval <==> Soaked(s, rs, now))
            && (act == WidenCohort ==> Converged(ring, rs) && rs.released < rs.groupTotal)
            && act != Promote
  {
  }

  // ---- The record a tick writes ---------------------------------------

  /** What the build check of a promotion answers: go ahead (built, or nothing to
      build), ask again later, still building, or failed. */
  datatype BuildCheck = Cleared(built: bool) | Unreachable | StillBuilding | BuildFailed

  function Promoted(s: Run, check: BuildCheck, now: int): Run {
    match check
    case Unreachable => s
    case BuildFailed => s.(status := Halted)
    case StillBuilding =>
      if s.ring in s.buildRequestedAt then s else s.(buildRequestedAt := s.buildRequestedAt[s.ring := now])
    case Cleared(built) =>
      s.(promotedAt := s.promotedAt[s.ring := now],
         buildRequestedAt := if built then s.buildRequestedAt - {s.ring} else s.buildRequestedAt)
  }

  function AfterTick(s: Run, act: Action, rs: RingStatus, check: BuildCheck, now: int): Run {
    match act
    case Promote => Promoted(s, check, now)
    case WidenCohort => s.(convergedAt := s.convergedAt - {s.ring})
    case Wait =>
      if s.ring < |s.rings| && Converged(s.rings[s.ring], rs) && s.ring !in s.convergedAt
      then s.(convergedAt := s.convergedAt[s.ring := now]) else s
    case AwaitApproval => s
    case Advance => s.(ring := s.ring + 1)
    case Halt => s.(status := Halted)
    case Done => s.(status := Completed)
  }

  function NewRun(target: string, rings: seq<Ring>): Run {
    Run(target, rings, 0, map[], map[], map[], map[], Active)
  }

  // ---- Whole runs under the engine's own decisions --------------------

  /** A tick that failed before its record was stored is Lost. */
  datatype Event =
    | Tick(rs: RingStatus, check: BuildCheck, now: int) | Lost
    | Pause | Resume | Approve(now: int) | Cancel

  predicate InFlight(s: Run) {
    s.status == Active || s.status == Paused || s.status == Halted
  }

  ghost predicate Step(s: Run, e: Event, s': Run) {
    match e
    case Tick(rs, check, now) =>
      s.status == Active && (s.ring !in s.promotedAt ==> rs == UNOBSERVED) &&
      s' == AfterTick(s, Decide(s.rings, s, rs, now), rs, check, now)
    case Lost => s' == s
    case Pause => s.status == Active && s' == s.(status := Paused)
    case Resume => s.status == Paused && s' == s.(status := Active)
    case Approve(now) => s.status == Active && s' == s.(approvedAt := s.approvedAt[s.ring := now])
    case Cancel => InFlight(s) && s' == s.(status := Cancelled)
  }

  ghost predicate Trace(ss: seq<Run>, es: seq<Event>) {
    && |ss| == |es| + 1
    && forall i :: 0 <= i < |es| ==> Step(ss[i], es[i], ss[i + 1])
  }

  /** The wave was let go of for cause, and signed off where it has to be. */
  ghost predicate LeftForCause(s: Run, e: Event, w: nat) {
    && e.Tick? && s.ring == w && w < |s.rings| && w in s.promotedAt
    && Soaked(s, e.rs, e.now)
    && (e.rs.total > 0 && s.rings[w].requireApproval ==> w in s.approvedAt)
  }

  lemma {:induction false} PlanNeverChanges(ss: seq<Run>, es: seq<Event>, n: nat)
    requires Trace(ss, es) && n < |ss|
    ensures ss[n].rings == ss[0].rings && ss[n].target == ss[0].target
  {
    if n > 0 {
      PlanNeverChanges(ss, es, n - 1);
      assert Step(ss[n - 1], es[n - 1], ss[n]);
    }
  }

  /** A run reaches a wave only after every earlier one was promoted and left for
      cause, and records nothing about waves it has not reached. */
  lemma {:induction false} WavesInOrder(ss: seq<Run>, es: seq<Event>, n: nat, w: nat) returns (i: nat)
    requires Trace(ss, es) && ss[0] == NewRun(ss[0].target, ss[0].rings) && n < |ss| && w < ss[n].ring
    ensures i < n && LeftForCause(ss[i], es[i], w) && ss[i + 1].ring == w + 1
  {
    assert n > 0;
    assert Step(ss[n - 1], es[n - 1], ss[n]);
    if w < ss[n - 1].ring {
      i := WavesInOrder(ss, es, n - 1, w);
    } else {
      i := n - 1;
    }
  }

  lemma {:induction false} RecordsTrailTheRing(ss: seq<Run>, es: seq<Event>, n: nat)
    requires Trace(ss, es) && ss[0] == NewRun(ss[0].target, ss[0].rings) && n < |ss|
    ensures forall w :: w in ss[n].promotedAt || w in ss[n].convergedAt || w in ss[n].approvedAt ==> w <= ss[n].ring
    ensures forall w :: w in ss[n].convergedAt ==> w in ss[n].promotedAt
    ensures forall w: nat :: w < ss[n].ring ==> w in ss[n].promotedAt
  {
    if n > 0 {
      RecordsTrailTheRing(ss, es, n - 1);
      assert Step(ss[n - 1], es[n - 1], ss[n]);
      forall w: nat | w < ss[n].ring ensures w in ss[n].promotedAt {
        assert w < ss[n - 1].ring || w == ss[n - 1].ring;
      }
    }
  }

  /** A recorded convergence was observed: at that moment, on that wave. */
  lemma {:induction false} ConvergenceWasSeen(ss: seq<Run>, es: seq<Event>, n: nat, w: nat) returns (i: nat)
    requires Trace(ss, es) && ss[0] == NewRun(ss[0].target, ss[0].rings) && n < |ss| && w in ss[n].convergedAt
    ensures i < n && es[i].Tick? && ss[i].ring == w && es[i].now == ss[n].convergedAt[w]
    ensures w < |ss[i].rings| && Converged(ss[i].rings[w], es[i].rs)
  {
    assert n > 0;
    assert Step(ss[n - 1], es[n - 1], ss[n]);
    if w in ss[n - 1].convergedAt && ss[n - 1].convergedAt[w] == ss[n].convergedAt[w] {
      i := ConvergenceWasSeen(ss, es, n - 1, w);
    } else {
      i := n - 1;
    }
  }

  /** Completed means every wave was left for cause, the last one too. */
  lemma {:induction false} CompletedMeansEveryWave(ss: seq<Run>, es: seq<Event>, n: nat, w: nat) returns (i: nat)
    requires Trace(ss, es) && ss[0] == NewRun(ss[0].target, ss[0].rings) && n < |ss|
    requires ss[n].status == Completed && w < |ss[0].rings|
    ensures i < n && es[i].Tick? && ss[i].ring == w && w < |ss[i].rings| && w in ss[i].promotedAt &&
            Soaked(ss[i], es[i].rs, es[i].now)
  {
    assert n > 0;
    assert Step(ss[n - 1], es[n - 1], ss[n]);
    PlanNeverChanges(ss, es, n - 1);
    if ss[n - 1].status == Completed {
      i := CompletedMeansEveryWave(ss, es, n - 1, w);
    } else if w < ss[n - 1].ring {
      i := WavesInOrder(ss, es, n - 1, w);
    } else {
      i := n - 1;
    }
  }

  lemma {:induction false} PromotionsStay(ss: seq<Run>, es: seq<Event>, i: nat, n: nat, w: nat)
    requires Trace(ss, es) && i <= n < |ss| && w in ss[i].promotedAt
    ensures w in ss[n].promotedAt
    decreases n
  {
    if i < n {
      PromotionsStay(ss, es, i, n - 1, w);
      assert Step(ss[n - 1], es[n - 1], ss[n]);
    }
  }

  lemma CompletedPromotedEveryWave(ss: seq<Run>, es: seq<Event>, n: nat)
    requires Trace(ss, es) && ss[0] == NewRun(ss[0].target, ss[0].rings) && n < |ss| && ss[n].status == Completed
    ensures forall w: nat :: w < |ss[0].rings| ==> w in ss[n].promotedAt
  {
    forall w: nat | w < |ss[0].rings| ensures w in ss[n].promotedAt {
      var i := CompletedMeansEveryWave(ss, es, n, w);
      PromotionsStay(ss, es, i, n, w);
    }
  }

  // ---- What ends a run, and what a record tells ------------------------

  /** The tick saw the promoted wave it is at too broken, or the build of the wave it
      would promote failed. */
  predicate Halts(s: Run, e: Event) {
    e.Tick? && s.ring < |s.rings| &&
    if s.ring in s.promotedAt then e.rs.total > 0 && TooBroken(s.rings[s.ring], e.rs) else e.check.BuildFailed?
  }

  /** The tick found nothing left: past the last wave, or the last one soaked. */
  predicate Finishes(s: Run, e: Event) {
    e.Tick? &&
    (s.ring >= |s.rings| ||
     (s.ring == |s.rings| - 1 && s.ring in s.promotedAt && e.rs.total > 0 && Soaked(s, e.rs, e.now)))
  }

  /** The tick left wave w: nobody is in it, or it soaked, is not the last and is
      signed off where it has to be. */
  predicate Leaves(s: Run, e: Event, w: nat) {
    e.Tick? && s.ring == w < |s.rings| && w in s.promotedAt && Soaked(s, e.rs, e.now) &&
    (e.rs.total > 0 ==> w < |s.rings| - 1 && (s.rings[w].requireApproval ==> w in s.approvedAt))
  }

  /** The tick was asked to promote wave w and its build check cleared it. */
  predicate Promotes(s: Run, e: Event, w: nat) {
    e.Tick? && s.ring == w < |s.rings| && w !in s.promotedAt && e.check.Cleared?
  }

  lemma StatusMoves(s: Run, e: Event, s': Run)
    requires Step(s, e, s')
    ensures s'.status == Halted <==> (s.status == Halted && e != Cancel) || Halts(s, e)
    ensures s'.status == Completed <==> s.status == Completed || Finishes(s, e)
    ensures s'.status == Cancelled <==> s.status == Cancelled || e == Cancel
    ensures s'.status == Paused <==> (s.status == Paused && e != Resume && e != Cancel) || e == Pause
  {
  }

  /** Over any run: it is halted exactly when some tick halted it and nobody cancelled
      it since - no tick, pause, sign-off or resume gets it out of there. */
  lemma {:induction false} HaltedIff(ss: seq<Run>, es: seq<Event>, n: nat)
    requires Trace(ss, es) && ss[0] == NewRun(ss[0].target, ss[0].rings) && n < |ss|
    ensures ss[n].status == Halted <==>
            exists i :: 0 <= i < n && Halts(ss[i], es[i]) && forall j :: i < j < n ==> es[j] != Cancel
  {
    hide Step, Halts;
    if n > 0 {
      HaltedIff(ss, es, n - 1);
      assert Step(ss[n - 1], es[n - 1], ss[n]);
      StatusMoves(ss[n - 1], es[n - 1], ss[n]);
    }
  }

  /** ... completed exactly when some tick found nothing left - for good. */
  lemma {:induction false} CompletedIff(ss: seq<Run>, es: seq<Event>, n: nat)
    requires Trace(ss, es) && ss[0] == NewRun(ss[0].target, ss[0].rings) && n < |ss|
    ensures ss[n].status == Completed <==> exists i :: 0 <= i < n && Finishes(ss[i], es[i])
  {
    hide Step, Finishes;
    if n > 0 {
      CompletedIff(ss, es, n - 1);
      assert Step(ss[n - 1], es[n - 1], ss[n]);
      StatusMoves(ss[n - 1], es[n - 1], ss[n]);
    }
  }

  lemma RingMoves(s: Run, e: Event, s': Run, w: nat)
    requires Step(s, e, s')
    ensures w < s'.ring <==> w < s.ring || Leaves(s, e, w)
  {
  }

  lemma PromotionMoves(s: Run, e: Event, s': Run, w: nat)
    requires Step(s, e, s')
    ensures w in s'.promotedAt <==> w in s.promotedAt || Promotes(s, e, w)
    ensures w in s'.promotedAt ==> s'.promotedAt[w] == if Promotes(s, e, w) then e.now else s.promotedAt[w]
    ensures Promotes(s, e, w) ==> e.Tick? && w !in s.promotedAt
  {
  }

  lemma ApprovalMoves(s: Run, e: Event, s': Run, w: nat)
    requires Step(s, e, s')
    ensures w in s'.approvedAt <==> w in s.approvedAt || (e.Approve? && s.ring == w)
  {
  }

  /** ... has a wave behind it exactly when some tick left that wave. */
  lemma {:induction false} WaveLeftIff(ss: seq<Run>, es: seq<Event>, n: nat, w: nat)
    requires Trace(ss, es) && ss[0] == NewRun(ss[0].target, ss[0].rings) && n < |ss|
    ensures w < ss[n].ring <==> exists i :: 0 <= i < n && Leaves(ss[i], es[i], w)
  {
    hide Step, Leaves;
    if n > 0 {
      WaveLeftIff(ss, es, n - 1, w);
      assert Step(ss[n - 1], es[n - 1], ss[n]);
      RingMoves(ss[n - 1], es[n - 1], ss[n], w);
    }
  }

  /** ... and records a promotion, with its time, exactly when a tick promoted it. */
  lemma {:induction false} PromotedIff(ss: seq<Run>, es: seq<Event>, n: nat, w: nat, at: int)
    requires Trace(ss, es) && ss[0] == NewRun(ss[0].target, ss[0].rings) && n < |ss|
    ensures w in ss[n].promotedAt && ss[n].promotedAt[w] == at <==>
            exists i :: 0 <= i < n && Promotes(ss[i], es[i], w) && es[i].Tick? && es[i].now == at
  {
    hide Step, Leaves, Promotes;
    if n > 0 {
      PromotedIff(ss, es, n - 1, w, at);
      assert Step(ss[n - 1], es[n - 1], ss[n]);
      PromotionMoves(ss[n - 1], es[n - 1], ss[n], w);
    }
  }

  /** ... and a sign-off exactly when one was given while that wave was current. */
  lemma {:induction false} ApprovedIff(ss: seq<Run>, es: seq<Event>, n: nat, w: nat)
    requires Trace(ss, es) && ss[0] == NewRun(ss[0].target, ss[0].rings) && n < |ss|
    ensures w in ss[n].approvedAt <==> exists i :: 0 <= i < n && es[i].Approve? && ss[i].ring == w
  {
    hide Step, Leaves, Promotes;
    if n > 0 {
      ApprovedIff(ss, es, n - 1, w);
      assert Step(ss[n - 1], es[n - 1], ss[n]);
      ApprovalMoves(ss[n - 1], es[n - 1], ss[n], w);
    }
  }

  /** The soak clock of the current wave: started by the tick that first saw it
      converge, and reset when the cohort is widened. */
  predicate StartsClock(s: Run, e: Event, w: nat) {
    e.Tick? && s.ring == w < |s.rings| && w in s.promotedAt && w !in s.convergedAt && e.rs.total > 0 &&
    !TooBroken(s.rings[w], e.rs) && Converged(s.rings[w], e.rs)
  }

  predicate ResetsClock(s: Run, e: Event, w: nat) {
    e.Tick? && s.ring == w < |s.rings| && w in s.promotedAt && w in s.convergedAt && e.rs.total > 0 &&
    !TooBroken(s.rings[w], e.rs) && Converged(s.rings[w], e.rs) &&
    e.now - s.convergedAt[w] >= s.rings[w].soakMinutes * 60 &&
    s.rings[w].maxDevices > 0 && e.rs.released < e.rs.groupTotal
  }

  lemma ClockMoves(s: Run, e: Event, s': Run, w: nat)
    requires Step(s, e, s')
    ensures w in s'.convergedAt <==> StartsClock(s, e, w) || (w in s.convergedAt && !ResetsClock(s, e, w))
    ensures w in s'.convergedAt ==> s'.convergedAt[w] == if StartsClock(s, e, w) then e.now else s.convergedAt[w]
    ensures StartsClock(s, e, w) ==> e.Tick? && w !in s.convergedAt
  {
  }

  /** The clock shows a time exactly when a tick at that time started it and none has
      reset it since. */
  lemma {:induction false} ClockIff(ss: seq<Run>, es: seq<Event>, n: nat, w: nat, at: int)
    requires Trace(ss, es) && ss[0] == NewRun(ss[0].target, ss[0].rings) && n < |ss|
    ensures w in ss[n].convergedAt && ss[n].convergedAt[w] == at <==>
            exists i :: 0 <= i < n && StartsClock(ss[i], es[i], w) && es[i].Tick? && es[i].now == at &&
                        forall j :: i < j < n ==> !ResetsClock(ss[j], es[j], w)
  {
    hide Step, StartsClock, ResetsClock;
    if n > 0 {
      ClockIff(ss, es, n - 1, w, at);
      assert Step(ss[n - 1], es[n - 1], ss[n]);
      ClockMoves(ss[n - 1], es[n - 1], ss[n], w);
    }
  }

  /** A release build is asked for by the first tick that finds it still building, and
      done with by the promotion that found it built. */
  predicate AsksForBuild(s: Run, e: Event, w: nat) {
    e.Tick? && s.ring == w < |s.rings| && w !in s.promotedAt && w !in s.buildRequestedAt && e.check.StillBuilding?
  }

  predicate UsesBuild(s: Run, e: Event, w: nat) {
    Promotes(s, e, w) && e.check.built
  }

  lemma RequestMoves(s: Run, e: Event, s': Run, w: nat)
    requires Step(s, e, s')
    ensures w in s'.buildRequestedAt <==> AsksForBuild(s, e, w) || (w in s.buildRequestedAt && !UsesBuild(s, e, w))
    ensures w in s'.buildRequestedAt ==>
            s'.buildRequestedAt[w] == if AsksForBuild(s, e, w) then e.now else s.buildRequestedAt[w]
    ensures AsksForBuild(s, e, w) ==> e.Tick? && w !in s.buildRequestedAt
  {
  }

  /** The record of a requested build shows a time exactly when a tick then asked for
      it and the wave was not promoted on it since. */
  lemma {:induction false} RequestIff(ss: seq<Run>, es: seq<Event>, n: nat, w: nat, at: int)
    requires Trace(ss, es) && ss[0] == NewRun(ss[0].target, ss[0].rings) && n < |ss|
    ensures w in ss[n].buildRequestedAt && ss[n].buildRequestedAt[w] == at <==>
            exists i :: 0 <= i < n && AsksForBuild(ss[i], es[i], w) && es[i].Tick? && es[i].now == at &&
                        forall j :: i < j < n ==> !UsesBuild(ss[j], es[j], w)
  {
    hide Step, AsksForBuild, UsesBuild;
    if n > 0 {
      RequestIff(ss, es, n - 1, w, at);
      assert Step(ss[n - 1], es[n - 1], ss[n]);
      RequestMoves(ss[n - 1], es[n - 1], ss[n], w);
    }
  }

  /** A sign-off counts from the moment its wave is current, soaked or not: once
      recorded, the gate behind that wave no longer holds the run. */
  lemma SignOffHoldsFromTheStart(s: Run, approvedAt: int, rs: RingStatus, now: int)
    requires s.status == Active && s.ring < |s.rings|
    ensures var s' := s.(approvedAt := s.approvedAt[s.ring := approvedAt]);
            Decide(s'.rings, s', rs, now) != AwaitApproval &&
            (Decide(s.rings, s, rs, now) == AwaitApproval ==> Decide(s'.rings, s', rs, now) == Advance)
  {
  }
}
