// The cancelling worker pool of the evaluation gate (gate.go evalBatches), as a
// transition system over all interleavings: a feeder on an unbuffered channel,
// workers that stop at their first failure, an error channel with one slot per
// worker, and a shared context that a failing worker - or the caller - cancels.
module EvalPool {

  /** Why an evaluation failed: on its own account, or because the shared context
      was cancelled under it. */
  datatype Cause = Own | Cancellation

  datatype Failure = Failure(batch: nat, cause: Cause)

  datatype Worker =
    | Waiting                  // in the receive of its range loop
    | Evaluating(batch: nat)
    | Failing                  // its error is sent, cancel() is not called yet
    | Exited(failed: bool)

  datatype Feeder = Feeding(next: nat) | Closed(fed: nat)

  /** passed collects the batches whose evaluation succeeded. */
  datatype Pool = Pool(
    batches: nat, feeder: Feeder, workers: seq<Worker>, errs: seq<Failure>,
    cancelled: bool, callerEnded: bool, passed: set<nat>)

  datatype Event =
    | Deliver(w: nat) | StopFeeding | FinishFeeding
    | Pass(w: nat) | Fail(w: nat, cause: Cause) | Cancel(w: nat) | Exit(w: nat)
    | CallerEnds

  function Start(batches: nat, workers: nat): Pool {
    Pool(batches, Feeding(0), seq(workers, _ => Waiting), [], false, false, {})
  }

  ghost predicate IsWorker(p: Pool, w: nat, s: Worker) {
    w < |p.workers| && p.workers[w] == s
  }

  function Put(p: Pool, w: nat, s: Worker): Pool
    requires w < |p.workers|
  {
    p.(workers := p.workers[w := s])
  }

  /** One atomic step. rejects says which batches the evaluator turns down on
      their own account; a cancelled context may make any evaluation fail. */
  ghost predicate Step(rejects: nat -> bool, p: Pool, e: Event, p': Pool) {
    match e
    case Deliver(w) =>
      && p.feeder.Feeding? && p.feeder.next < p.batches && IsWorker(p, w, Waiting)
      && p' == Put(p, w, Evaluating(p.feeder.next)).(feeder := Feeding(p.feeder.next + 1))
    case StopFeeding =>
      && p.feeder.Feeding? && p.feeder.next < p.batches && p.cancelled
      && p' == p.(feeder := Closed(p.feeder.next))
    case FinishFeeding =>
      p.feeder == Feeding(p.batches) && p' == p.(feeder := Closed(p.batches))
    case Pass(w) =>
      && w < |p.workers| && p.workers[w].Evaluating? && !rejects(p.workers[w].batch)
      && p' == Put(p, w, Waiting).(passed := p.passed + {p.workers[w].batch})
    case Fail(w, cause) =>
      && w < |p.workers| && p.workers[w].Evaluating?
      && (if cause.Own? then rejects(p.workers[w].batch) else p.cancelled)
      && p' == Put(p, w, Failing).(errs :=
           if |p.errs| < |p.workers| then p.errs + [Failure(p.workers[w].batch, cause)] else p.errs)
    case Cancel(w) =>
      IsWorker(p, w, Failing) && p' == Put(p, w, Exited(true)).(cancelled := true)
    case Exit(w) =>
      IsWorker(p, w, Waiting) && p.feeder.Closed? && p' == Put(p, w, Exited(false))
    case CallerEnds =>
      !p.callerEnded && p' == p.(callerEnded := true, cancelled := true)
  }

  /** wg.Wait has returned. */
  predicate Returned(p: Pool) {
    p.feeder.Closed? && forall w :: 0 <= w < |p.workers| ==> p.workers[w].Exited?
  }

  datatype Answer = Nil | Rejected(failure: Failure) | ContextEnded

  function ResultOf(p: Pool): Answer {
    if p.errs != [] then Rejected(p.errs[0]) else if p.cancelled then ContextEnded else Nil
  }

  // ---- The invariant --------------------------------------------------

  function Fed(p: Pool): nat {
    match p.feeder case Feeding(n) => n case Closed(n) => n
  }

  predicate HasFailed(s: Worker) {
    s.Failing? || (s.Exited? && s.failed)
  }

  function Failed(workers: seq<Worker>): set<nat> {
    set w: nat | w < |workers| && HasFailed(workers[w])
  }

  ghost predicate UnderWay(p: Pool, b: nat) {
    exists w :: 0 <= w < |p.workers| && p.workers[w] == Evaluating(b)
  }

  ghost predicate Accounted(p: Pool, b: nat) {
    b in p.passed || UnderWay(p, b) || p.errs != []
  }

  ghost predicate Inv(rejects: nat -> bool, p: Pool) {
    && Fed(p) <= p.batches
    && (p.feeder.Closed? ==> p.feeder.fed == p.batches || p.cancelled)
    && (forall b: nat :: b < Fed(p) ==> Accounted(p, b))
    && (forall b :: b in p.passed ==> !rejects(b))
    && (p.cancelled ==> p.callerEnded || p.errs != [])
    && (p.errs != [] ==> if p.errs[0].cause.Own? then rejects(p.errs[0].batch) else p.callerEnded)
    && |p.errs| == |Failed(p.workers)|
    && ExitsExplained(p)
  }

  /** A worker leaves its loop by failing or because no batch will come. */
  ghost predicate ExitsExplained(p: Pool) {
    forall w :: 0 <= w < |p.workers| && p.workers[w].Exited? ==>
      if p.workers[w].failed then p.cancelled else p.feeder.Closed?
  }

  /** Every worker sends at most one error, so the channel always has room. */
  lemma ChannelHasRoom(p: Pool, w: nat, s: Worker)
    requires |p.errs| == |Failed(p.workers)|
    requires w < |p.workers| && !HasFailed(p.workers[w])
    ensures |p.errs| < |p.workers|
    ensures |Failed(p.workers[w := s])| == |p.errs| + if HasFailed(s) then 1 else 0
  {
    FailedFits(p.workers, w);
    FailedAfter(p.workers, w, s);
  }

  lemma FailedAfter(workers: seq<Worker>, w: nat, s: Worker)
    requires w < |workers| && !HasFailed(workers[w])
    ensures w !in Failed(workers)
    ensures Failed(workers[w := s]) == if HasFailed(s) then Failed(workers) + {w} else Failed(workers)
  {
    var after := workers[w := s];
    forall v: nat ensures v in Failed(after) <==> (v in Failed(workers) || (v == w && HasFailed(s))) {
      if v < |workers| && v != w {
        assert after[v] == workers[v];
      }
    }
  }

  lemma FailedFits(workers: seq<Worker>, w: nat)
    requires w < |workers| && !HasFailed(workers[w])
    ensures |Failed(workers)| < |workers|
  {
    var others := Below(|workers|) - {w};
    Smaller(Failed(workers), others);
  }

  ghost function Below(n: nat): (r: set<nat>)
    ensures |r| == n && forall i: nat :: i in r <==> i < n
  {
    if n == 0 then {} else Below(n - 1) + {n - 1}
  }

  lemma {:induction false} Smaller(a: set<nat>, b: set<nat>)
    requires a <= b
    ensures |a| <= |b|
    decreases a
  {
    if a != {} {
      var x :| x in a;
      Smaller(a - {x}, b - {x});
    }
  }

  lemma StartInv(rejects: nat -> bool, batches: nat, workers: nat)
    ensures Inv(rejects, Start(batches, workers))
  {
    assert Failed(Start(batches, workers).workers) == {};
  }

  lemma DeliverKeepsAccounts(p: Pool, w: nat, p': Pool)
    requires Step(b => false, p, Deliver(w), p')
    requires forall b: nat :: b < Fed(p) ==> Accounted(p, b)
    ensures forall b: nat :: b < Fed(p') ==> Accounted(p', b)
  {
    forall b: nat | b < Fed(p') ensures Accounted(p', b) {
      assert b < Fed(p) ==> Accounted(p, b);
      if b == Fed(p) {
        assert p'.workers[w] == Evaluating(b);
      } else if UnderWay(p, b) {
        var v :| 0 <= v < |p.workers| && p.workers[v] == Evaluating(b);
        assert p'.workers[v] == Evaluating(b);
      }
    }
  }

  lemma PassKeepsAccounts(p: Pool, w: nat, p': Pool)
    requires w < |p.workers| && p.workers[w].Evaluating?
    requires p' == Put(p, w, Waiting).(passed := p.passed + {p.workers[w].batch})
    requires forall b: nat :: b < Fed(p) ==> Accounted(p, b)
    ensures forall b: nat :: b < Fed(p') ==> Accounted(p', b)
  {
    forall b: nat | b < Fed(p') ensures Accounted(p', b) {
      assert Accounted(p, b);
      if UnderWay(p, b) && b !in p'.passed {
        var v :| 0 <= v < |p.workers| && p.workers[v] == Evaluating(b);
        assert p'.workers[v] == Evaluating(b);
      }
    }
  }

  lemma IdleKeepsAccounts(p: Pool, w: nat, p': Pool)
    requires w < |p.workers| && !p.workers[w].Evaluating?
    requires |p'.workers| == |p.workers| && p'.workers == p.workers[w := p'.workers[w]]
    requires p'.passed == p.passed && p'.errs == p.errs && Fed(p') == Fed(p)
    requires forall b: nat :: b < Fed(p) ==> Accounted(p, b)
    ensures forall b: nat :: b < Fed(p') ==> Accounted(p', b)
  {
    forall b: nat | b < Fed(p') ensures Accounted(p', b) {
      assert Accounted(p, b);
      if UnderWay(p, b) {
        var v :| 0 <= v < |p.workers| && p.workers[v] == Evaluating(b);
        assert p'.workers[v] == Evaluating(b);
      }
    }
  }

  lemma SameWorkersKeepAccounts(p: Pool, p': Pool)
    requires p'.workers == p.workers && p'.passed == p.passed && p'.errs == p.errs && Fed(p') == Fed(p)
    requires forall b: nat :: b < Fed(p) ==> Accounted(p, b)
    ensures forall b: nat :: b < Fed(p') ==> Accounted(p', b)
  {
    forall b: nat | b < Fed(p') ensures Accounted(p', b) {
      assert Accounted(p, b);
    }
  }

  lemma DeliverKeepsInv(rejects: nat -> bool, p: Pool, w: nat, p': Pool)
    requires Inv(rejects, p) && Step(rejects, p, Deliver(w), p')
    ensures Inv(rejects, p')
  {
    ChannelHasRoom(p, w, Evaluating(p.feeder.next));
    DeliverKeepsAccounts(p, w, p');
  }

  lemma PassKeepsInv(rejects: nat -> bool, p: Pool, w: nat, p': Pool)
    requires Inv(rejects, p) && Step(rejects, p, Pass(w), p')
    ensures Inv(rejects, p')
  {
    ChannelHasRoom(p, w, Waiting);
    PassKeepsAccounts(p, w, p');
  }

  lemma FailKeepsInv(rejects: nat -> bool, p: Pool, w: nat, cause: Cause, p': Pool)
    requires Inv(rejects, p) && Step(rejects, p, Fail(w, cause), p')
    ensures Inv(rejects, p')
  {
    ChannelHasRoom(p, w, Failing);
  }

  lemma ExitKeepsInv(rejects: nat -> bool, p: Pool, w: nat, p': Pool)
    requires Inv(rejects, p) && Step(rejects, p, Exit(w), p')
    ensures Inv(rejects, p')
  {
    ChannelHasRoom(p, w, Exited(false));
    IdleKeepsAccounts(p, w, p');
  }

  lemma CancelKeepsInv(rejects: nat -> bool, p: Pool, w: nat, p': Pool)
    requires Inv(rejects, p) && Step(rejects, p, Cancel(w), p')
    ensures Inv(rejects, p')
  {
    assert Failed(p'.workers) == Failed(p.workers);
    assert w in Failed(p.workers);
    IdleKeepsAccounts(p, w, p');
  }

  lemma OthersKeepInv(rejects: nat -> bool, p: Pool, e: Event, p': Pool)
    requires Inv(rejects, p) && Step(rejects, p, e, p') && (e.CallerEnds? || e.StopFeeding? || e.FinishFeeding?)
    ensures Inv(rejects, p')
  {
    SameWorkersKeepAccounts(p, p');
  }

  lemma StepKeepsInv(rejects: nat -> bool, p: Pool, e: Event, p': Pool)
    requires Inv(rejects, p) && Step(rejects, p, e, p')
    ensures Inv(rejects, p')
  {
    hide Inv, Step;
    match e
    case Deliver(w) => DeliverKeepsInv(rejects, p, w, p');
    case Pass(w) => PassKeepsInv(rejects, p, w, p');
    case Fail(w, cause) => FailKeepsInv(rejects, p, w, cause, p');
    case Exit(w) => ExitKeepsInv(rejects, p, w, p');
    case Cancel(w) => CancelKeepsInv(rejects, p, w, p');
    case _ => OthersKeepInv(rejects, p, e, p');
  }

  // ---- Runs -----------------------------------------------------------

  ghost predicate Run(rejects: nat -> bool, ps: seq<Pool>, es: seq<Event>) {
    && |ps| == |es| + 1
    && forall i :: 0 <= i < |es| ==> Step(rejects, ps[i], es[i], ps[i + 1])
  }

  lemma {:induction false} RunKeepsInv(rejects: nat -> bool, ps: seq<Pool>, es: seq<Event>, n: nat)
    requires Run(rejects, ps, es) && n < |ps| && Inv(rejects, ps[0])
    ensures Inv(rejects, ps[n])
    ensures ps[n].batches == ps[0].batches
  {
    if n > 0 {
      RunKeepsInv(rejects, ps, es, n - 1);
      assert Step(rejects, ps[n - 1], es[n - 1], ps[n]);
      StepKeepsInv(rejects, ps[n - 1], es[n - 1], ps[n]);
    }
  }

  /** Completeness, for every interleaving: the pool returns nil only after every
      batch was evaluated and passed. */
  lemma NilMeansAllPassed(rejects: nat -> bool, p: Pool, b: nat)
    requires Inv(rejects, p) && Returned(p) && ResultOf(p).Nil?
    requires b < p.batches
    ensures b in p.passed && !rejects(b)
  {
    assert Accounted(p, b);
  }

  /** An error that comes back is a batch's own rejection, never the cancellation
      it caused - unless the caller's context ended. */
  lemma ErrorIsHonest(rejects: nat -> bool, p: Pool)
    requires Inv(rejects, p) && !p.callerEnded
    ensures ResultOf(p).Rejected? ==> ResultOf(p).failure.cause.Own? && rejects(ResultOf(p).failure.batch)
    ensures !ResultOf(p).ContextEnded?
  {
  }

  /** Over any complete run in which the caller stays: nil exactly when no batch
      is rejected, else one of the rejected batches' own errors. */
  lemma PoolDecides(rejects: nat -> bool, batches: nat, workers: nat, ps: seq<Pool>, es: seq<Event>)
    requires Run(rejects, ps, es) && ps[0] == Start(batches, workers)
    requires var last := ps[|ps| - 1]; Returned(last) && !last.callerEnded
    ensures var r := ResultOf(ps[|ps| - 1]);
            && (r.Nil? <==> forall b: nat :: b < batches ==> !rejects(b))
            && (!r.Nil? ==> r.Rejected? && r.failure.batch < batches && rejects(r.failure.batch))
  {
    var last := ps[|ps| - 1];
    StartInv(rejects, batches, workers);
    RunKeepsInv(rejects, ps, es, |ps| - 1);
    RunKeepsRange(rejects, ps, es, |ps| - 1);
    ErrorIsHonest(rejects, last);
    if ResultOf(last).Nil? {
      forall b: nat | b < batches ensures !rejects(b) {
        NilMeansAllPassed(rejects, last, b);
      }
    }
  }

  ghost predicate InRange(p: Pool) {
    && Fed(p) <= p.batches
    && (forall w :: 0 <= w < |p.workers| && p.workers[w].Evaluating? ==> p.workers[w].batch < p.batches)
    && (forall i :: 0 <= i < |p.errs| ==> p.errs[i].batch < p.batches)
  }

  lemma {:induction false} RunKeepsRange(rejects: nat -> bool, ps: seq<Pool>, es: seq<Event>, n: nat)
    requires Run(rejects, ps, es) && n < |ps| && InRange(ps[0])
    ensures InRange(ps[n])
  {
    if n > 0 {
      RunKeepsRange(rejects, ps, es, n - 1);
      assert Step(rejects, ps[n - 1], es[n - 1], ps[n]);
    }
  }

  // ---- Termination ----------------------------------------------------

  function Weight(s: Worker): nat {
    match s case Exited(_) => 0 case Waiting => 1 case Failing => 1 case Evaluating(_) => 2
  }

  function Weights(ws: seq<Worker>): nat {
    if ws == [] then 0 else Weights(ws[..|ws| - 1]) + Weight(ws[|ws| - 1])
  }

  function FeederWork(p: Pool): nat {
    match p.feeder
    case Closed(_) => 0
    case Feeding(next) => if next <= p.batches then 2 * (p.batches - next) + 1 else 0
  }

  /** The steps a pool can still take, at most. */
  function Work(p: Pool): nat {
    FeederWork(p) + Weights(p.workers) + if p.callerEnded then 0 else 1
  }

  lemma {:induction false} WeightsUpdate(ws: seq<Worker>, w: nat, s: Worker)
    requires w < |ws|
    ensures Weights(ws[w := s]) + Weight(ws[w]) == Weights(ws) + Weight(s)
  {
    var n := |ws| - 1;
    if w < n {
      WeightsUpdate(ws[..n], w, s);
      assert ws[w := s][..n] == ws[..n][w := s];
    } else {
      assert ws[w := s][..n] == ws[..n];
    }
  }

  lemma StepDoesWork(rejects: nat -> bool, p: Pool, e: Event, p': Pool)
    requires Step(rejects, p, e, p')
    ensures Work(p') < Work(p)
  {
    match e
    case Deliver(w) => WeightsUpdate(p.workers, w, Evaluating(p.feeder.next));
    case Pass(w) => WeightsUpdate(p.workers, w, Waiting);
    case Fail(w, _) => WeightsUpdate(p.workers, w, Failing);
    case Cancel(w) => WeightsUpdate(p.workers, w, Exited(true));
    case Exit(w) => WeightsUpdate(p.workers, w, Exited(false));
    case StopFeeding =>
    case FinishFeeding =>
    case CallerEnds =>
  }

  /** No run is longer than the work it started with. */
  lemma {:induction false} RunIsBounded(rejects: nat -> bool, ps: seq<Pool>, es: seq<Event>, n: nat)
    requires Run(rejects, ps, es) && n < |ps|
    ensures n + Work(ps[n]) <= Work(ps[0])
  {
    if n > 0 {
      RunIsBounded(rejects, ps, es, n - 1);
      assert Step(rejects, ps[n - 1], es[n - 1], ps[n]);
      StepDoesWork(rejects, ps[n - 1], es[n - 1], ps[n]);
    }
  }

  /** Nobody blocks for ever: until the pool returns, the feeder or a worker can
      move, without any help from the caller. */
  lemma NeverStuck(rejects: nat -> bool, p: Pool) returns (e: Event, p': Pool)
    requires Inv(rejects, p) && !Returned(p) && |p.workers| > 0
    ensures Step(rejects, p, e, p') && !e.CallerEnds?
  {
    if w :| 0 <= w < |p.workers| && p.workers[w].Evaluating? {
      if rejects(p.workers[w].batch) {
        e := Fail(w, Own);
        p' := Put(p, w, Failing).(errs :=
          if |p.errs| < |p.workers| then p.errs + [Failure(p.workers[w].batch, Own)] else p.errs);
      } else {
        e := Pass(w);
        p' := Put(p, w, Waiting).(passed := p.passed + {p.workers[w].batch});
      }
    } else if w :| 0 <= w < |p.workers| && p.workers[w].Failing? {
      e := Cancel(w);
      p' := Put(p, w, Exited(true)).(cancelled := true);
    } else if w :| 0 <= w < |p.workers| && p.workers[w].Waiting? {
      e, p' := IdleMoves(rejects, p, w);
    } else {
      assert forall w :: 0 <= w < |p.workers| ==> p.workers[w].Exited?;
      e, p' := FeederMoves(rejects, p);
    }
  }

  lemma IdleMoves(rejects: nat -> bool, p: Pool, w: nat) returns (e: Event, p': Pool)
    requires Inv(rejects, p) && w < |p.workers| && p.workers[w].Waiting?
    ensures Step(rejects, p, e, p') && !e.CallerEnds?
  {
    if p.feeder.Closed? {
      e := Exit(w);
      p' := Put(p, w, Exited(false));
    } else if p.feeder.next < p.batches {
      e := Deliver(w);
      p' := Put(p, w, Evaluating(p.feeder.next)).(feeder := Feeding(p.feeder.next + 1));
    } else {
      e := FinishFeeding;
      p' := p.(feeder := Closed(p.batches));
    }
  }

  lemma FeederMoves(rejects: nat -> bool, p: Pool) returns (e: Event, p': Pool)
    requires Inv(rejects, p) && |p.workers| > 0 && p.feeder.Feeding?
    requires forall w :: 0 <= w < |p.workers| ==> p.workers[w].Exited?
    ensures Step(rejects, p, e, p') && !e.CallerEnds?
  {
    assert p.workers[0].Exited?;
    if p.feeder.next < p.batches {
      e := StopFeeding;
      p' := p.(feeder := Closed(p.feeder.next));
    } else {
      e := FinishFeeding;
      p' := p.(feeder := Closed(p.batches));
    }
  }

  /** So from wherever it is, the pool can run out while the caller stays. */
  lemma {:induction false} RunsOut(rejects: nat -> bool, p: Pool) returns (ps: seq<Pool>, es: seq<Event>)
    requires Inv(rejects, p) && !p.callerEnded && |p.workers| > 0
    ensures Run(rejects, ps, es) && ps[0] == p && Returned(ps[|ps| - 1]) && !ps[|ps| - 1].callerEnded
    decreases Work(p)
  {
    if Returned(p) {
      ps, es := [p], [];
    } else {
      var e, p' := NeverStuck(rejects, p);
      StepKeepsInv(rejects, p, e, p');
      StepDoesWork(rejects, p, e, p');
      var rest, more := RunsOut(rejects, p');
      ps, es := [p] + rest, [e] + more;
      assert forall i :: 0 < i < |ps| ==> ps[i] == rest[i - 1];
      assert forall i :: 0 < i < |es| ==> es[i] == more[i - 1];
    }
  }

  /** Every pool with a worker returns a decision: there is a complete run from its
      start, and PoolDecides says what it answers. */
  lemma PoolReturns(rejects: nat -> bool, batches: nat, workers: nat) returns (ps: seq<Pool>, es: seq<Event>)
    requires workers > 0
    ensures Run(rejects, ps, es) && ps[0] == Start(batches, workers)
    ensures Returned(ps[|ps| - 1]) && !ps[|ps| - 1].callerEnded
    ensures ResultOf(ps[|ps| - 1]).Nil? <==> forall b: nat :: b < batches ==> !rejects(b)
  {
    StartInv(rejects, batches, workers);
    ps, es := RunsOut(rejects, Start(batches, workers));
    PoolDecides(rejects, batches, workers, ps, es);
  }
}
