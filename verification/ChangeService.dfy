// The change service's methods (internal/app/change.go), run against the
// protocol: the service keeps its own history, and every method extends it by
// protocol steps only. Faults of the store, of git and of the gate are arbitrary.
module ChangeService {
  import opened Wrappers
  import opened Change
  import opened ChangeProtocol
  import Text

  /** idRe. */
  predicate ValidID(id: string) {
    Text.Slug(id)
  }

  /** main grew by direct writes alone. */
  ghost predicate OnlyWrites(before: seq<Commit>, after: seq<Commit>) {
    before <= after && forall k :: |before| <= k < |after| ==> after[k].Config?
  }

  lemma WritesGoOn(a: seq<Commit>, b: seq<Commit>, doc: nat)
    requires OnlyWrites(a, b)
    ensures OnlyWrites(a, b + [Config(doc)])
  {
  }

  lemma WritesCompose(a: seq<Commit>, b: seq<Commit>, c: seq<Commit>)
    requires OnlyWrites(a, b) && OnlyWrites(b, c)
    ensures OnlyWrites(a, c)
  {
    assert forall k :: |a| <= k < |b| ==> c[k] == b[k];
  }

  /** The only record a reconcile changes is that of a ready change. */
  ghost predicate Corrected(before: map<string, Status>, after: map<string, Status>) {
    before.Keys == after.Keys &&
    forall id :: id in after && after[id] != before[id] ==> before[id] == Ready && after[id] == Status.Merged
  }

  lemma CorrectionsCompose(a: map<string, Status>, b: map<string, Status>, c: map<string, Status>)
    requires Corrected(a, b) && Corrected(b, c)
    ensures Corrected(a, c)
  {
  }

  /** main grew by direct writes and then, at most, the merge of one branch. */
  ghost predicate WritesThenMerge(before: seq<Commit>, after: seq<Commit>, id: string, tip: nat) {
    OnlyWrites(before, after) ||
    (|after| > 0 && after[|after| - 1] == Merge(id, tip) && OnlyWrites(before, after[..|after| - 1]))
  }

  lemma ThenMerge(before: seq<Commit>, after: seq<Commit>, id: string, tip: nat)
    requires OnlyWrites(before, after)
    ensures WritesThenMerge(before, after + [Merge(id, tip)], id, tip)
  {
    assert (after + [Merge(id, tip)])[..|after|] == after;
  }

  /** How a merge ends; SnapshotStale is the error returned when everything is
      recorded but the console's snapshot could not be reloaded. */
  datatype MergeOutcome = NotReady | Conflict | RolledBack | RollbackFailed | NotRecorded | SnapshotStale | Done {
    predicate Recorded() {
      Done? || SnapshotStale?
    }
  }

  /** An operation of the store or of git, which can go wrong where faults occur. */
  method Works(faulty: bool) returns (ok: bool)
    ensures !ok ==> faulty
  {
    ok := *;
    ok := ok || !faulty;
  }

  /** Settled: nothing leaves these two. */
  predicate SettledAt(store: map<string, Status>, id: string) {
    id in store && (store[id] == Abandoned || store[id] == Status.Merged)
  }

  class ChangeService {
    const faulty: bool  // the store, git or the gate's machinery may fail
    /** What git and the gate say of a merge when they answer: whether the branch
        merges into main without a conflict, and whether the result evaluates. */
    const merges: (seq<Commit>, string) -> bool
    const passes: seq<Commit> -> bool
    var store: map<string, Status>
    var branches: map<string, Branch>
    var live: set<string>
    var main: seq<Commit>
    ghost var flow: Flow
    ghost var runs: multiset<Run>
    ghost var proved: set<string>
    ghost var states: seq<System>
    ghost var events: seq<Event>

    ghost function State(): System
      reads this
    {
      System(store, branches, live, main, flow, runs, proved)
    }

    /** The history is a run of the protocol from a repository without changes. */
    ghost predicate Valid()
      reads this
    {
      Trace(states, events) && Fresh(states[0]) && states[|states| - 1] == State()
    }

    constructor (faulty: bool, merges: (seq<Commit>, string) -> bool, passes: seq<Commit> -> bool, commits: seq<Commit>)
      requires Unmerged(commits)
      ensures Valid() && flow == Idle && store == map[] && main == commits
      ensures this.faulty == faulty && this.merges == merges && this.passes == passes
    {
      this.faulty, this.merges, this.passes := faulty, merges, passes;
      store, branches, live, main := map[], map[], {}, commits;
      flow, runs, proved := Idle, multiset{}, {};
      states := [System(map[], map[], {}, commits, Idle, multiset{}, {})];
      events := [];
    }

    /** Every step of the code is a step of the protocol. */
    ghost method Log(e: Event)
      requires Trace(states, events) && Fresh(states[0])
      requires Step(states[|states| - 1], e, State())
      modifies this`states, this`events
      ensures Valid() && old(states) <= states && events == old(events) + [e]
    {
      hide Step;
      states, events := states + [State()], events + [e];
    }

    lemma Reachable()
      requires Valid()
      ensures Inv(State()) && forall id :: id in store ==> id in branches
    {
      hide Step;
      TraceKeepsInv(states, events, |states| - 1);
    }

    /** What direct configuration writes did to main while the lock was free. */
    method Others()
      requires Valid() && !WriteLockHeld(flow)
      modifies this`main, this`states, this`events
      ensures Valid() && old(states) <= states && OnlyWrites(old(main), main)
    {
      var n: nat :| n >= 0;
      for i := 0 to n
        invariant Valid() && old(states) <= states && OnlyWrites(old(main), main)
      {
        WritesGoOn(old(main), main, i);
        main := main + [Config(i)];
        Log(ConfigCommit(i));
      }
    }

    // ---- One durable step each ----------------------------------------

    method CreateBranch(id: string)
      requires Valid() && flow == Idle && id !in store && id !in live
      modifies this
      ensures Valid() && old(states) <= states
      ensures State() == old(State()).(branches := branches, live := old(live) + {id}, flow := Opened(id))
      ensures branches == old(branches)[id := Branch(|main|, 0)]
    {
      branches, live := branches[id := Branch(|main|, 0)], live + {id};
      flow := Opened(id);
      Log(Cut(id));
    }

    method StoreDraft(id: string) returns (put: bool)
      requires Valid() && flow == Opened(id)
      modifies this
      ensures Valid() && old(states) <= states
      ensures put ==> State() == old(State()).(store := old(store)[id := Draft], flow := Idle)
      ensures !put ==>
              State() == old(State()).(live := live, flow := Idle) && (live == old(live) || live == old(live) - {id})
      ensures !put ==> faulty
    {
      put := Works(faulty);
      var undone := Works(faulty);
      if put {
        store := store[id := Draft];
      } else if undone {
        live := live - {id};
      }
      flow := Idle;
      Log(StoreOpened(put, undone));
    }

    method CommitOnBranch(id: string, effective: bool)
      requires Valid() && flow == Idle && (Reads(State(), id, Draft) || Reads(State(), id, Failed)) && id in live &&
               id in branches
      modifies this
      ensures Valid() && old(states) <= states
      ensures State() == old(State()).(branches := branches, flow := Edited(id))
      ensures var b := old(branches)[id];
              branches == old(branches)[id := if effective then b.(tip := b.tip + 1) else b]
    {
      var b := branches[id];
      if effective {
        branches := branches[id := b.(tip := b.tip + 1)];
      } else {
        branches := branches[id := b];
      }
      flow := Edited(id);
      Log(CommitEdit(id, effective));
    }

    method StoreEdit(id: string) returns (put: bool)
      requires Valid() && flow == Edited(id)
      modifies this
      ensures Valid() && old(states) <= states
      ensures State() == old(State()).(store := if put then old(store)[id := Draft] else old(store), flow := Idle)
      ensures !put ==> faulty
    {
      put := Works(faulty);
      if put {
        store := store[id := Draft];
      }
      flow := Idle;
      Log(StoreEdited(put));
    }

    method LockAndReadHead(id: string)
      requires Valid() && flow == Idle && Reads(State(), id, Ready)
      modifies this
      ensures Valid() && old(states) <= states && State() == old(State()).(flow := Locked(id, |main|))
    {
      flow := Locked(id, |main|);
      Log(Lock(id));
    }

    /** MergeNoFF: a conflict or a missing branch leaves main alone. */
    method MergeNoFF(id: string, pre: nat) returns (ok: bool)
      requires Valid() && flow == Locked(id, pre)
      modifies this
      ensures Valid() && old(states) <= states
      ensures ok ==>
              id in live && id in old(branches) &&
              State() == old(State()).(main := MainAfterMerge(old(State()), id), flow := Landed(id, pre))
      ensures !ok ==> State() == old(State()).(flow := Idle)
      ensures !faulty ==> (ok <==> id in live && id in branches && merges(old(main), id))
    {
      ok := Works(faulty);
      ok := ok && id in live && id in branches && merges(main, id);
      if !ok {
        flow := Idle;
        Log(LandFails);
        return;
      }
      var b := branches[id];
      if !InMain(main, id, b) {
        main := main + [Commit.Merge(id, b.tip)];
      }
      flow := Landed(id, pre);
      Log(Land);
    }

    /** The gate on the merged result. */
    method ValidateMerged(id: string, pre: nat) returns (accepted: bool)
      requires Valid() && flow == Landed(id, pre)
      modifies this`flow, this`proved, this`states, this`events
      ensures Valid() && old(states) <= states
      ensures State() == if accepted then old(State()).(flow := Proved(id), proved := old(proved) + {id})
              else old(State())
      ensures accepted ==> passes(main)
      ensures !faulty ==> (accepted <==> passes(main))
    {
      accepted := Works(faulty);
      accepted := accepted && passes(main);
      if accepted {
        flow, proved := Proved(id), proved + {id};
        Log(Accept);
      }
    }

    method ResetHard(id: string, pre: nat) returns (undone: bool)
      requires Valid() && flow == Landed(id, pre) && pre <= |main|
      modifies this
      ensures Valid() && old(states) <= states
      ensures State() == old(State()).(main := if undone then old(main)[..pre] else old(main), flow := Idle)
      ensures !undone ==> faulty
    {
      undone := Works(faulty);
      if undone {
        main := main[..pre];
      }
      flow := Idle;
      Log(Refuse(undone));
    }

    method StoreMerge(id: string) returns (put: bool)
      requires Valid() && flow == Proved(id) && Reads(State(), id, Ready)
      modifies this
      ensures Valid() && old(states) <= states
      ensures State() == if put then old(State()).(store := old(store)[id := Merged], flow := Cleaning(id))
              else old(State()).(flow := Idle)
      ensures !put ==> faulty
    {
      put := Works(faulty);
      if put {
        store := store[id := Merged];
        flow := Cleaning(id);
      } else {
        flow := Idle;
      }
      Log(StoreMerged(put));
    }

    method CleanUp(id: string)
      requires Valid() && flow == Cleaning(id)
      modifies this
      ensures Valid() && old(states) <= states
      ensures State() == old(State()).(live := live, flow := Idle) && (live == old(live) || live == old(live) - {id})
      ensures !faulty ==> id !in live
    {
      var deleted := Works(faulty);
      if deleted {
        live := live - {id};
      }
      flow := Idle;
      Log(Cleanup(deleted));
    }

    /** cleanup removes the branch, best effort; the record follows. */
    method TearDown(id: string)
      requires Valid() && flow == Idle && id in store && CanTransition(store[id], Abandoned)
      modifies this
      ensures Valid() && old(states) <= states
      ensures State() == old(State()).(live := live, flow := Abandoning(id)) &&
              (live == old(live) || live == old(live) - {id})
      ensures !faulty ==> id !in live
    {
      var deleted := Works(faulty);
      if deleted {
        live := live - {id};
      }
      flow := Abandoning(id);
      Log(Teardown(id, deleted));
    }

    method StoreAbandon(id: string) returns (put: bool)
      requires Valid() && flow == Abandoning(id)
      modifies this
      ensures Valid() && old(states) <= states
      ensures State() == old(State()).(store := if put then old(store)[id := Abandoned] else old(store), flow := Idle)
      ensures !put ==> faulty
    {
      put := Works(faulty);
      if put {
        store := store[id := Abandoned];
      }
      flow := Idle;
      Log(StoreAbandoned(put));
    }

    method ListChanges() returns (todo: seq<string>)
      requires Valid() && flow == Idle
      modifies this`flow, this`states, this`events
      ensures Valid() && old(states) <= states && (forall id :: id in store ==> id in todo)
      ensures State() == old(State()).(flow := Reconciling(todo, true))
    {
      todo := [];
      var left := store.Keys;
      while left != {}
        invariant left <= store.Keys && forall id :: id in store ==> id in left || id in todo
        decreases left
      {
        var id :| id in left;
        todo, left := todo + [id], left - {id};
      }
      flow := Reconciling(todo, true);
      Log(Listed(todo));
    }

    lemma ExamineIsAStep(id: string, rest: seq<string>, clean: bool, answered: bool, put: bool, deleted: bool)
      requires flow == Reconciling([id] + rest, clean)
      ensures Step(State(), Examine(answered, put, deleted), Examined(State(), id, rest, clean, answered, put, deleted))
    {
      assert ([id] + rest)[1..] == rest;
    }

    /** What examining one change comes to: skipped when git would not answer for a
        ready change's branch, stopped when storing its record failed. */
    lemma ExamineMeans(s: System, id: string, rest: seq<string>, clean: bool, answered: bool, put: bool, deleted: bool)
      requires s.flow == Reconciling([id] + rest, clean)
      ensures var s' := Examined(s, id, rest, clean, answered, put, deleted);
              var ready := Reads(s, id, Ready) && id in s.live;
              && s' == s.(store := s'.store, live := s'.live, flow := s'.flow)
              && s'.store == (if Overdue(s, id) && answered && put then s.store[id := Status.Merged] else s.store)
              && s'.live == (if SettledAt(s.store, id) && answered && deleted then s.live - {id} else s.live)
              && s'.flow == if ready && !answered then Reconciling(rest, false)
                            else if !Overdue(s, id) then Reconciling(rest, clean)
                            else if put then Sweeping(id, rest, clean) else Idle
    {
      hide InMain;
    }

    /** One change of the list; not ok when storing the record failed, skipped when
        git would not answer for a ready change's branch. */
    method ExamineChange(id: string, ghost rest: seq<string>, ghost clean: bool)
        returns (ok: bool, merged: bool, skipped: bool)
      requires Valid() && flow == Reconciling([id] + rest, clean)
      modifies this
      ensures Valid() && old(states) <= states && main == old(main) && branches == old(branches) && runs == old(runs)
      ensures flow == if !ok then Idle else if merged then Sweeping(id, rest, clean)
              else Reconciling(rest, clean && !skipped)
      ensures merged ==> Overdue(old(State()), id) && ok && !skipped
      ensures store == if merged then old(store)[id := Merged] else old(store)
      ensures live == old(live) || (live == old(live) - {id} && SettledAt(old(store), id))
      ensures !faulty ==> ok && !skipped && (merged <==> Overdue(old(State()), id))
      ensures !faulty && SettledAt(old(store), id) ==> id !in live
    {
      hide Step, Trace, Fresh, InMain, Examined, Overdue;
      ok, merged, skipped := true, false, false;
      var answered := Works(faulty);
      var put := Works(faulty);
      var deleted := Works(faulty);
      ghost var before := State();
      ExamineIsAStep(id, rest, clean, answered, put, deleted);
      ExamineMeans(before, id, rest, clean, answered, put, deleted);
      if id !in store {
        OverdueMeans(before, id);
      } else if store[id] == Abandoned || store[id] == Status.Merged {
        OverdueMeans(before, id);
        if answered && deleted {
          live := live - {id};
        }
      } else if store[id] != Ready || id !in live {
        OverdueMeans(before, id);
      } else if !answered {
        skipped := true;
      } else if id !in branches || !InMain(main, id, branches[id]) {
        OverdueMeans(before, id);
      } else {
        OverdueMeans(before, id);
        if !put {
          ok := false;
        } else {
          merged, store := true, store[id := Status.Merged];
        }
      }
      flow := if !ok then Idle else if merged then Sweeping(id, rest, clean)
              else Reconciling(rest, clean && !skipped);
      assert State() == Examined(before, id, rest, clean, answered, put, deleted);
      Log(Examine(answered, put, deleted));
    }

    lemma OverdueMeans(s: System, id: string)
      ensures Overdue(s, id) <==>
              Reads(s, id, Ready) && id in s.live && id in s.branches && InMain(s.main, id, s.branches[id])
    {
      hide InMain;
    }

    method SweepBranch(id: string, ghost rest: seq<string>, ghost clean: bool)
      requires Valid() && flow == Sweeping(id, rest, clean)
      modifies this
      ensures Valid() && old(states) <= states
      ensures State() == old(State()).(live := live, flow := Reconciling(rest, clean))
      ensures live == old(live) || live == old(live) - {id}
      ensures !faulty ==> id !in live
    {
      var deleted := Works(faulty);
      if deleted {
        live := live - {id};
      }
      flow := Reconciling(rest, clean);
      Log(Sweep(deleted));
    }

    method EndReconcile(ghost clean: bool)
      requires Valid() && flow == Reconciling([], clean)
      modifies this`flow, this`states, this`events
      ensures Valid() && old(states) <= states && flow == Idle
      ensures clean ==> forall id :: !Overdue(State(), id)
    {
      hide Trace, Fresh;
      Reachable();
      assert clean ==> forall id :: !Overdue(State(), id);
      flow := Idle;
      Log(Reconciled);
      assert forall id :: Overdue(State(), id) == Overdue(old(State()), id);
    }

    // ---- The service --------------------------------------------------

    /** Open: a branch off main and a draft record, or neither - unless taking the
        branch away again fails too. */
    method Open(id: string, title: string) returns (r: Result<()>)
      requires Valid() && flow == Idle
      modifies this
      ensures Valid() && flow == Idle && old(states) <= states && OnlyWrites(old(main), main) && runs == old(runs)
      ensures r.Ok? ==> ValidID(id) && title != "" && id !in old(store)
      ensures r.Ok? ==> store == old(store)[id := Draft] && live == old(live) + {id}
      ensures r.Err? ==> store == old(store) && (live == old(live) || (live == old(live) + {id} && id !in store))
      ensures !faulty ==> (r.Ok? <==> ValidID(id) && title != "" && id !in old(store) && id !in old(live))
      ensures r.Ok? ==> branches == old(branches)[id := Branch(|old(main)|, 0)]
    {
      hide Step, Trace, Fresh, ValidID;
      if !ValidID(id) {
        return Err("invalid change-request id");
      }
      if title == "" {
        return Err("change request needs a title");
      }
      if id in store {
        return Err("already exists");
      }
      if id in live {
        return Err("branch exists");
      }
      CreateBranch(id);
      Others();
      var put := StoreDraft(id);
      r := if put then Ok(()) else Err("record not stored");
    }

    /** Edit and EditFile: only a draft or a failed change, on its own branch, by the
        one commit an edit that changes something makes; a stored edit leaves it a
        draft. refused is the write transaction's answer on the branch. */
    method Edit(id: string, refused: bool, effective: bool) returns (r: Result<()>)
      requires Valid() && flow == Idle
      modifies this
      ensures Valid() && flow == Idle && old(states) <= states && OnlyWrites(old(main), main) && runs == old(runs) &&
              live == old(live)
      ensures store == if r.Ok? then old(store)[id := Draft] else old(store)
      ensures var editable := ValidID(id) && (Reads(old(State()), id, Draft) || Reads(old(State()), id, Failed)) &&
                              id in live && id in old(branches) && !refused;
              && (r.Ok? ==> editable) && (!faulty ==> (r.Ok? <==> editable))
              && branches == if editable && effective
                   then old(branches)[id := old(branches)[id].(tip := old(branches)[id].tip + 1)] else old(branches)
    {
      hide Step, Trace, Fresh, ValidID;
      if !ValidID(id) || id !in store || (store[id] != Draft && store[id] != Failed) {
        return Err("only draft or failed changes accept edits");
      }
      if id !in live || id !in branches {
        return Err("no branch to edit");
      }
      if refused {
        return Err("refused");
      }
      CommitOnBranch(id, effective);
      Others();
      var put := StoreEdit(id);
      r := if put then Ok(()) else Err("record not stored");
    }

    /** beginSubmit: once Building is stored the gate may run, the lock released. */
    method BeginSubmit(id: string) returns (r: Result<Run>)
      requires Valid() && flow == Idle
      modifies this
      ensures Valid() && old(states) <= states
      ensures r.Ok? ==>
                id in old(store) && CanTransition(old(store)[id], Building) && id in branches &&
                r.value == Run(id, branches[id]) && r.value !in old(runs) &&
                State() == old(State()).(store := old(store)[id := Building], runs := old(runs) + multiset{r.value})
      ensures r.Err? ==> State() == old(State())
      ensures !faulty ==>
                (r.Ok? <==> ValidID(id) && id in old(store) && CanTransition(old(store)[id], Building) &&
                            id in live && id in branches)
    {
      hide Trace, Fresh, ValidID;
      Reachable();
      if !ValidID(id) || id !in store {
        return Err("unknown change");
      }
      if id !in live || id !in branches {
        return Err("no worktree");
      }
      if !CanTransition(store[id], Building) {
        return Err("cannot move to building");
      }
      var put := Works(faulty);
      if !put {
        return Err("record not stored");
      }
      ghost var run := Run(id, branches[id]);
      store, runs := store[id := Building], runs + multiset{run};
      Log(Begin(id, true));
      r := Ok(Run(id, branches[id]));
    }

    lemma FinishIsAStep(run: Run, accepted: bool, put: bool, diffed: bool)
      requires flow == Idle && run in runs && Reads(State(), run.id, Building)
      requires diffed && run.branch.tip == 0 ==> !accepted
      ensures var to := if accepted then Ready else Failed;
              Step(State(), Finish(run, accepted, put, diffed),
                   Put(State(), run.id, to, put).(runs := runs - multiset{run}))
    {
    }

    lemma StillBuilding(run: Run)
      requires Valid() && run in runs
      ensures Reads(State(), run.id, Building) && run.id in branches && branches[run.id] == run.branch
    {
      hide Trace, Fresh, Step;
      Reachable();
    }

    /** The end of Submit: a branch whose diff git gives and that has no commits is
        refused without the gate, and the verdict always has a legal transition to
        record. */
    method FinishSubmit(run: Run, passed: bool, diffed: bool) returns (r: Result<Status>)
      requires Valid() && flow == Idle && run in runs
      modifies this
      ensures Valid() && old(states) <= states
      ensures run.id in old(store) && old(store)[run.id] == Building
      ensures run.id in branches && branches[run.id] == run.branch
      ensures r.Ok? ==> store == old(store)[run.id := r.value]
      ensures r.Ok? ==> r.value == if passed && !(diffed && run.branch.tip == 0) then Ready else Failed
      ensures r.Err? ==> store == old(store)
      ensures State() == old(State()).(store := store, runs := old(runs) - multiset{run})
      ensures !faulty ==> r.Ok?
    {
      hide Trace, Fresh, Step;
      StillBuilding(run);
      var accepted := passed && !(diffed && run.branch.tip == 0);
      var to := if accepted then Ready else Failed;
      var put := Works(faulty);
      FinishIsAStep(run, accepted, put, diffed);
      if CanTransition(store[run.id], to) && put {
        store := store[run.id := to];
        r := Ok(to);
      } else {
        r := Err("record not stored");
      }
      runs := runs - multiset{run};
      Log(Finish(run, accepted, put, diffed));
    }

    /** The part of Merge under the write lock. */
    method MergeLocked(id: string) returns (r: MergeOutcome)
      requires Valid() && flow == Idle && Reads(State(), id, Ready) && id in branches
      modifies this
      ensures Valid() && flow == Idle && old(states) <= states && branches == old(branches) && runs == old(runs) &&
              !r.NotReady?
      ensures main == if r.Conflict? || r.RolledBack? then old(main) else MainAfterMerge(old(State()), id)
      ensures proved == if r.NotRecorded? || r.Recorded() then old(proved) + {id} else old(proved)
      ensures store == if r.Recorded() then old(store)[id := Status.Merged] else old(store)
      ensures live == old(live) || (r.Recorded() && live == old(live) - {id})
      ensures r.NotRecorded? || r.Recorded() ==> passes(main)
      ensures !faulty ==> r.Conflict? || r.RolledBack? || r.Done?
      ensures !faulty ==> (r.Conflict? <==> !(id in old(live) && merges(old(main), id)))
      ensures !faulty && !r.Conflict? ==> (r.Done? <==> passes(MainAfterMerge(old(State()), id)))
      ensures !faulty && r.Done? ==> id !in live
    {
      hide Step, Trace, Fresh, InMain;
      LockAndReadHead(id);
      var pre := |main|;
      var landed := MergeNoFF(id, pre);
      if !landed {
        return Conflict;
      }
      assert main[..pre] == old(main);
      var accepted := ValidateMerged(id, pre);
      if !accepted {
        var undone := ResetHard(id, pre);
        return if undone then RolledBack else RollbackFailed;
      }
      var put := StoreMerge(id);
      if !put {
        return NotRecorded;
      }
      CleanUp(id);
      var reloaded := Works(faulty);
      return if reloaded then Done else SnapshotStale;
    }

    /** Merge: recorded only for a ready change whose merged result the gate
        accepted, and rolled back to exactly what the other writers left. */
    method Merge(id: string) returns (r: MergeOutcome)
      requires Valid() && flow == Idle
      modifies this
      ensures Valid() && flow == Idle && old(states) <= states && branches == old(branches) && runs == old(runs)
      ensures r.NotReady? <==> !(ValidID(id) && Reads(old(State()), id, Ready))
      ensures r.NotReady? ==> State() == old(State())
      ensures r.Conflict? || r.RolledBack? ==> OnlyWrites(old(main), main)
      ensures !r.NotReady? ==> id in branches && WritesThenMerge(old(main), main, id, branches[id].tip)
      ensures r.RollbackFailed? || r.NotRecorded? || r.Recorded() ==> Contained(State(), id)
      ensures proved == if r.NotRecorded? || r.Recorded() then old(proved) + {id} else old(proved)
      ensures store == if r.Recorded() then old(store)[id := Status.Merged] else old(store)
      ensures live == old(live) || (r.Recorded() && live == old(live) - {id})
      ensures r.NotRecorded? || r.Recorded() ==> passes(main)
      ensures !faulty ==> r.NotReady? || r.Conflict? || r.RolledBack? || r.Done?
      ensures !faulty && r.Conflict? ==> !(id in old(live) && merges(main, id))
      ensures !faulty && r.RolledBack? ==>
                id in old(live) && merges(main, id) && id in branches && !passes(MainAfterMerge(State(), id))
      ensures !faulty && r.Done? ==> id !in live
    {
      hide Step, Trace, Fresh, ValidID, Inv;
      if !ValidID(id) || id !in store || store[id] != Ready {
        return NotReady;
      }
      Reachable();
      Others();
      ThenMerge(old(main), main, id, branches[id].tip);
      r := MergeLocked(id);
    }

    /** Abandon: not while Building, and final once recorded. */
    method Abandon(id: string) returns (r: Result<()>)
      requires Valid() && flow == Idle
      modifies this
      ensures Valid() && flow == Idle && old(states) <= states && OnlyWrites(old(main), main)
      ensures branches == old(branches) && runs == old(runs) && proved == old(proved)
      ensures r.Ok? ==> id in old(store) && CanTransition(old(store)[id], Abandoned)
      ensures store == if r.Ok? then old(store)[id := Abandoned] else old(store)
      ensures live == old(live) ||
              (live == old(live) - {id} && id in old(store) && CanTransition(old(store)[id], Abandoned))
      ensures !faulty ==>
                (r.Ok? <==> ValidID(id) && id in old(store) && CanTransition(old(store)[id], Abandoned)) &&
                (r.Ok? ==> id !in live)
    {
      hide Step, Trace, Fresh, ValidID;
      if !ValidID(id) || id !in store {
        return Err("unknown change");
      }
      if !CanTransition(store[id], Abandoned) {
        return Err("cannot be abandoned");
      }
      TearDown(id);
      Others();
      var put := StoreAbandon(id);
      r := if put then Ok(()) else Err("record not stored");
    }

    lemma MergedNowIsContained()
      requires Valid()
      ensures forall id :: Reads(State(), id, Status.Merged) ==> Contained(State(), id)
    {
      hide Step, Trace, Fresh, InMain;
      Reachable();
      forall id | Reads(State(), id, Status.Merged) ensures Contained(State(), id) {
        BelowIsInMain(main, Floor(State()), id, branches[id]);
      }
    }

    /** One round of the loop. */
    method ReconcileOne(todo: seq<string>, silent: bool) returns (ok: bool, skipped: bool)
      requires Valid() && todo != [] && flow == Reconciling(todo, !silent)
      modifies this
      ensures Valid() && old(states) <= states && OnlyWrites(old(main), main)
      ensures branches == old(branches) && runs == old(runs) && Corrected(old(store), store)
      ensures flow == if ok then Reconciling(todo[1..], !skipped) else Idle
      ensures live == old(live) || (live == old(live) - {todo[0]} && SettledAt(store, todo[0]))
      ensures forall i :: SettledAt(old(store), i) ==> SettledAt(store, i)
      ensures forall i :: SettledAt(store, i) ==> SettledAt(old(store), i) || i == todo[0]
      ensures !faulty ==> ok && skipped == silent && (SettledAt(store, todo[0]) ==> todo[0] !in live)
    {
      hide Step, Trace, Fresh, Inv, Contained;
      Others();
      var id := todo[0];
      assert todo == [id] + todo[1..];
      ghost var before := State();
      var merged, unanswered;
      ok, merged, unanswered := ExamineChange(id, todo[1..], !silent);
      assert merged ==> Overdue(before, id);
      if merged {
        SweepBranch(id, todo[1..], !silent);
      }
      skipped := silent || unanswered;
    }

    /** Reconcile: git decides. If it answered for every ready change, none is left
        waiting whose branch main already contains. */
    method Reconcile() returns (r: Result<()>, skipped: bool)
      requires Valid() && flow == Idle
      modifies this
      ensures Valid() && flow == Idle && old(states) <= states && OnlyWrites(old(main), main)
      ensures branches == old(branches) && runs == old(runs)
      ensures Corrected(old(store), store) && forall id :: Reads(State(), id, Status.Merged) ==> Contained(State(), id)
      ensures r.Ok? && !skipped ==> forall id :: !Overdue(State(), id)
      ensures live <= old(live) && forall id :: id in old(live) && id !in live ==> SettledAt(store, id)
      ensures !faulty ==> r.Ok? && !skipped && forall id :: SettledAt(store, id) ==> id !in live
    {
      hide Step, Trace, Fresh, Inv, Overdue, Contained, Corrected, OnlyWrites, SettledAt;
      skipped := false;
      var todo := ListChanges();
      Nothing(main, store);
      SettledIsStored();
      while todo != []
        invariant Valid() && old(states) <= states && OnlyWrites(old(main), main)
        invariant branches == old(branches) && runs == old(runs) && Corrected(old(store), store)
        invariant flow == Reconciling(todo, !skipped)
        invariant live <= old(live) && forall id :: id in old(live) && id !in live ==> SettledAt(store, id)
        invariant !faulty ==> !skipped && forall id :: SettledAt(store, id) && id in live ==> id in todo
      {
        ghost var m, st, l := main, store, live;
        assert forall id :: id in todo ==> id == todo[0] || id in todo[1..];
        var ok;
        ok, skipped := ReconcileOne(todo, skipped);
        WritesCompose(old(main), m, main);
        CorrectionsCompose(old(store), st, store);
        if !ok {
          MergedNowIsContained();
          return Err("record not stored"), skipped;
        }
        todo := todo[1..];
      }
      EndReconcile(!skipped);
      MergedNowIsContained();
      r := Ok(());
    }

    lemma SettledIsStored()
      ensures forall id :: SettledAt(store, id) ==> id in store
    {
    }

    lemma Nothing(m: seq<Commit>, st: map<string, Status>)
      ensures OnlyWrites(m, m) && Corrected(st, st)
    {
    }
  }
}
