// The change-request protocol (internal/app/change.go) as a state machine over
// its durable steps. The change flow's own lock is the flow field: one method is
// inside it at a time. Gate runs of a submit are outside it; direct
// configuration writes interleave wherever the write lock is free; a crash can
// fall between any two steps. The repository has no remote.
module ChangeProtocol {
  import opened Change

  /** A change's branch: the length main had when it was cut, and its own commits. */
  datatype Branch = Branch(fork: nat, tip: nat)

  datatype Commit = Config(doc: nat) | Merge(id: string, tip: nat)

  /** Where the holder of the flow's lock stands. */
  datatype Flow =
    | Idle
    | Opened(id: string)                // branch cut, record not stored
    | Edited(id: string)                // commit made, record not stored
    | Locked(id: string, pre: nat)      // write lock held, pre-merge tip read
    | Landed(id: string, pre: nat)      // merge in main, not validated
    | Proved(id: string)                // merge validated, record not stored
    | Cleaning(id: string)              // merge recorded, branch not removed
    | Abandoning(id: string)            // branch removed, record not stored
    | Reconciling(todo: seq<string>, clean: bool)
    | Sweeping(id: string, todo: seq<string>, clean: bool)

  datatype Run = Run(id: string, branch: Branch)

  /** Durable: store, branches (with live naming those that still exist) and main.
      Memory: the flow and the submits whose gate is running. proved remembers the
      changes whose merged result a gate accepted. */
  datatype System = System(
    store: map<string, Status>, branches: map<string, Branch>, live: set<string>,
    main: seq<Commit>, flow: Flow, runs: multiset<Run>, proved: set<string>)

  datatype Event =
    | Cut(id: string) | StoreOpened(put: bool, undone: bool)
    | CommitEdit(id: string, effective: bool) | StoreEdited(put: bool)
    | Begin(id: string, put: bool) | Finish(run: Run, accepted: bool, put: bool, diffed: bool)
    | Lock(id: string) | Land | LandFails | Refuse(undone: bool) | Accept
    | StoreMerged(put: bool) | Cleanup(deleted: bool)
    | Teardown(id: string, deleted: bool) | StoreAbandoned(put: bool)
    | Listed(todo: seq<string>) | Examine(answered: bool, put: bool, deleted: bool)
    | Sweep(deleted: bool) | Reconciled
    | ConfigCommit(doc: nat) | Crash

  /** BranchMerged: the branch's tip is reachable from main. */
  predicate InMain(main: seq<Commit>, id: string, b: Branch) {
    (b.tip == 0 && b.fork <= |main|) || Merge(id, b.tip) in main
  }

  predicate Contained(s: System, id: string) {
    id in s.branches && InMain(s.main, id, s.branches[id])
  }

  predicate Reads(s: System, id: string, status: Status) {
    id in s.store && s.store[id] == status
  }

  predicate WriteLockHeld(flow: Flow) {
    flow.Locked? || flow.Landed? || flow.Proved? || flow.Cleaning?
  }

  function Put(s: System, id: string, status: Status, ok: bool): System {
    if ok then s.(store := s.store[id := status]) else s
  }

  function Dropped(s: System, id: string, ok: bool): System {
    if ok then s.(live := s.live - {id}) else s
  }

  /** MergeNoFF of a branch already in main succeeds without a commit. */
  function MainAfterMerge(s: System, id: string): seq<Commit>
    requires id in s.branches
  {
    if Contained(s, id) then s.main else s.main + [Merge(id, s.branches[id].tip)]
  }

  /** One change of Reconcile's list. */
  function Examined(s: System, id: string, rest: seq<string>, clean: bool, answered: bool, put: bool,
      deleted: bool): System {
    if id !in s.store then s.(flow := Reconciling(rest, clean))
    else if s.store[id] in {Abandoned, Merged} then
      Dropped(s, id, id in s.live && answered && deleted).(flow := Reconciling(rest, clean))
    else if s.store[id] != Ready then s.(flow := Reconciling(rest, clean))
    else if id !in s.live || !answered then s.(flow := Reconciling(rest, clean && id !in s.live))
    else if !Contained(s, id) then s.(flow := Reconciling(rest, clean))
    else if !put then s.(flow := Idle)
    else Put(s, id, Merged, true).(flow := Sweeping(id, rest, clean))
  }

  ghost predicate Step(s: System, e: Event, s': System) {
    match e
    case Cut(id) =>
      s.flow == Idle && id !in s.store && id !in s.live &&
      s' == s.(branches := s.branches[id := Branch(|s.main|, 0)], live := s.live + {id}, flow := Opened(id))
    case StoreOpened(put, undone) =>
      s.flow.Opened? && s' == Dropped(Put(s, s.flow.id, Draft, put), s.flow.id, !put && undone).(flow := Idle)
    case CommitEdit(id, effective) =>
      s.flow == Idle && (Reads(s, id, Draft) || Reads(s, id, Failed)) && id in s.live && id in s.branches &&
      var b := s.branches[id];
      s' == s.(branches := s.branches[id := if effective then b.(tip := b.tip + 1) else b], flow := Edited(id))
    case StoreEdited(put) =>
      s.flow.Edited? && s' == Put(s, s.flow.id, Draft, put).(flow := Idle)
    case Begin(id, put) =>
      s.flow == Idle && id in s.store && CanTransition(s.store[id], Building) && id in s.live && id in s.branches &&
      s' == if put then Put(s, id, Building, true).(runs := s.runs + multiset{Run(id, s.branches[id])}) else s
    case Finish(run, accepted, put, diffed) =>
      s.flow == Idle && run in s.runs && run.id in s.store && (diffed && run.branch.tip == 0 ==> !accepted) &&
      var to := if accepted then Ready else Failed;
      s' == Put(s, run.id, to, put && CanTransition(s.store[run.id], to)).(runs := s.runs - multiset{run})
    case Lock(id) =>
      s.flow == Idle && Reads(s, id, Ready) && s' == s.(flow := Locked(id, |s.main|))
    case Land =>
      s.flow.Locked? && s.flow.id in s.live && s.flow.id in s.branches &&
      s' == s.(main := MainAfterMerge(s, s.flow.id), flow := Landed(s.flow.id, s.flow.pre))
    case LandFails =>
      s.flow.Locked? && s' == s.(flow := Idle)
    case Refuse(undone) =>
      s.flow.Landed? && s.flow.pre <= |s.main| &&
      s' == s.(main := if undone then s.main[..s.flow.pre] else s.main, flow := Idle)
    case Accept =>
      s.flow.Landed? && s' == s.(flow := Proved(s.flow.id), proved := s.proved + {s.flow.id})
    case StoreMerged(put) =>
      s.flow.Proved? && s.flow.id in s.store &&
      s' == Put(s, s.flow.id, Merged, put && CanTransition(s.store[s.flow.id], Merged)).(
        flow := if put && CanTransition(s.store[s.flow.id], Merged) then Cleaning(s.flow.id) else Idle)
    case Cleanup(deleted) =>
      s.flow.Cleaning? && s' == Dropped(s, s.flow.id, deleted).(flow := Idle)
    case Teardown(id, deleted) =>
      s.flow == Idle && id in s.store && CanTransition(s.store[id], Abandoned) &&
      s' == Dropped(s, id, deleted).(flow := Abandoning(id))
    case StoreAbandoned(put) =>
      s.flow.Abandoning? && s' == Put(s, s.flow.id, Abandoned, put).(flow := Idle)
    case Listed(todo) =>
      s.flow == Idle && (forall id :: id in s.store ==> id in todo) && s' == s.(flow := Reconciling(todo, true))
    case Examine(answered, put, deleted) =>
      s.flow.Reconciling? && s.flow.todo != [] &&
      s' == Examined(s, s.flow.todo[0], s.flow.todo[1..], s.flow.clean, answered, put, deleted)
    case Sweep(deleted) =>
      s.flow.Sweeping? && s' == Dropped(s, s.flow.id, deleted).(flow := Reconciling(s.flow.todo, s.flow.clean))
    case Reconciled =>
      s.flow.Reconciling? && s.flow.todo == [] && s' == s.(flow := Idle)
    case ConfigCommit(doc) =>
      !WriteLockHeld(s.flow) && s' == s.(main := s.main + [Config(doc)])
    case Crash =>
      s' == s.(flow := Idle, runs := multiset{})
  }

  // ---- The invariant --------------------------------------------------

  /** The part of main no rollback can reach. */
  function Floor(s: System): nat {
    if (s.flow.Locked? || s.flow.Landed?) && s.flow.pre <= |s.main| then s.flow.pre else |s.main|
  }

  /** Every branch was cut below the floor, and every change recorded as merged is
      contained below it. */
  ghost predicate GitAgrees(s: System) {
    && (forall id :: id in s.store ==> id in s.branches)
    && (forall id :: id in s.branches ==> s.branches[id].fork <= Floor(s))
    && (forall id :: Reads(s, id, Merged) ==> InMain(s.main[..Floor(s)], id, s.branches[id]))
  }

  /** A submit in flight: still Building, the branch it validates untouched and
      present, and no second submit of the same change. */
  ghost predicate Window(s: System) {
    && (forall r :: r in s.runs ==> s.runs[r] == 1 && Reads(s, r.id, Building))
    && (forall r :: r in s.runs ==> r.id in s.branches && s.branches[r.id] == r.branch)
    && (forall r, q :: r in s.runs && q in s.runs && r.id == q.id ==> r == q)
  }

  ghost predicate FlowAgrees(s: System) {
    match s.flow
    case Idle => true
    case Opened(id) => id !in s.store && id in s.branches
    case Edited(id) => Reads(s, id, Draft) || Reads(s, id, Failed)
    case Locked(id, pre) => Reads(s, id, Ready) && pre == |s.main|
    case Landed(id, pre) =>
      Reads(s, id, Ready) && Contained(s, id) && pre <= |s.main| &&
      (|s.main| == pre || (|s.main| == pre + 1 && s.main[pre] == Merge(id, s.branches[id].tip)))
    case Proved(id) => Reads(s, id, Ready) && Contained(s, id) && id in s.proved
    case Cleaning(id) => Reads(s, id, Merged)
    case Abandoning(id) => id in s.store && CanTransition(s.store[id], Abandoned)
    case Reconciling(todo, clean) => clean ==> forall id :: id in s.store && id !in todo ==> !Overdue(s, id)
    case Sweeping(id, todo, clean) =>
      Reads(s, id, Merged) && (clean ==> forall i :: i in s.store && i !in todo ==> !Overdue(s, i))
  }

  /** Ready, its branch alive, and already in main. */
  predicate Overdue(s: System, id: string) {
    Reads(s, id, Ready) && id in s.live && Contained(s, id)
  }

  ghost predicate Inv(s: System) {
    GitAgrees(s) && Window(s) && FlowAgrees(s)
  }

  lemma InMainGrows(main: seq<Commit>, more: seq<Commit>, id: string, b: Branch)
    ensures InMain(main, id, b) ==> InMain(main + more, id, b)
  {
  }

  lemma BelowIsInMain(main: seq<Commit>, n: nat, id: string, b: Branch)
    requires n <= |main| && InMain(main[..n], id, b)
    ensures InMain(main, id, b)
  {
    assert main == main[..n] + main[n..];
    InMainGrows(main[..n], main[n..], id, b);
  }

  predicate MovesMain(e: Event) {
    e.Land? || e.Refuse? || e.ConfigCommit?
  }

  lemma MainStays(s: System, e: Event, s': System)
    requires Step(s, e, s') && !MovesMain(e)
    ensures s'.main == s.main
  {
  }

  lemma LandAndRefuse(s: System, e: Event, s': System)
    requires FlowAgrees(s) && Step(s, e, s') && MovesMain(e)
    ensures s'.main == s.main || (|s'.main| == |s.main| + 1 && s'.main[..|s.main|] == s.main) ||
            (|s.main| == |s'.main| + 1 && s.main[..|s'.main|] == s'.main && e == Refuse(true) &&
                s.main[|s'.main|].Merge?)
  {
  }

  /** What a step does to main: nothing, one commit more, or one merge less. */
  lemma MainMoves(s: System, e: Event, s': System)
    requires Inv(s) && Step(s, e, s')
    ensures s'.main == s.main || (|s'.main| == |s.main| + 1 && s'.main[..|s.main|] == s.main) ||
            (|s.main| == |s'.main| + 1 && s.main[..|s'.main|] == s'.main && e == Refuse(true) &&
                s.main[|s'.main|].Merge?)
    ensures s'.main != s.main ==> MovesMain(e)
  {
    hide Step, FlowAgrees, GitAgrees, Window;
    if MovesMain(e) {
      LandAndRefuse(s, e, s');
    } else {
      MainStays(s, e, s');
    }
  }

  lemma FloorMovesWithMain(s: System, e: Event, s': System)
    requires FlowAgrees(s) && Step(s, e, s') && MovesMain(e)
    ensures Floor(s) <= Floor(s') && Floor(s) <= |s.main| && s'.main[..Floor(s)] == s.main[..Floor(s)]
  {
  }

  /** Without a move of main, only taking the write lock sets a floor, at main. */
  lemma FloorMovesAlone(s: System, e: Event, s': System)
    requires FlowAgrees(s) && Step(s, e, s') && !MovesMain(e)
    ensures s'.flow.Locked? || s'.flow.Landed? ==> s'.flow == s.flow || s'.flow.pre == |s.main|
  {
  }

  lemma FloorRises(s: System, e: Event, s': System)
    requires FlowAgrees(s) && Step(s, e, s')
    ensures Floor(s) <= Floor(s') && Floor(s) <= |s.main| && s'.main[..Floor(s)] == s.main[..Floor(s)]
  {
    hide Step, FlowAgrees;
    if MovesMain(e) {
      FloorMovesWithMain(s, e, s');
    } else {
      MainStays(s, e, s');
      FloorMovesAlone(s, e, s');
    }
  }

  /** Branches are cut at main's tip and then keep where they were cut. */
  lemma BranchesMove(s: System, e: Event, s': System)
    requires Step(s, e, s')
    ensures forall id :: id in s'.branches ==>
              (id in s.branches && s'.branches[id].fork == s.branches[id].fork) ||
              (e == Cut(id) && s'.branches[id] == Branch(|s.main|, 0) && Floor(s') == |s.main|)
    ensures forall id :: id in s.branches ==> id in s'.branches
  {
  }

  /** The one record a step may store: a new draft, the status it had, or a legal
      transition, and Merged only for a change whose branch main contains. */
  ghost predicate MayStore(s: System, e: Event, id: string, status: Status) {
    && id in s.branches
    && (if id in s.store then status == s.store[id] || CanTransition(s.store[id], status) else status == Draft)
    && (status == Ready && !Reads(s, id, Ready) ==> e.Finish? && e.accepted && e.run.id == id)
    && (Reads(s, id, Building) ==> e.Finish? && e.run.id == id)
    && (status == Merged ==> Contained(s, id) && (e.StoreMerged? || e.Examine?))
  }

  ghost predicate StoreMove(s: System, e: Event, s': System, id: string, status: Status) {
    s'.store == s.store || (s'.store == s.store[id := status] && MayStore(s, e, id, status))
  }

  lemma OpenStores(s: System, e: Event, s': System) returns (id: string)
    requires FlowAgrees(s) && Step(s, e, s') && e.StoreOpened?
    ensures StoreMove(s, e, s', id, Draft)
  {
    id := s.flow.id;
  }

  lemma EditStores(s: System, e: Event, s': System) returns (id: string)
    requires GitAgrees(s) && FlowAgrees(s) && Step(s, e, s') && e.StoreEdited?
    ensures StoreMove(s, e, s', id, Draft)
  {
    id := s.flow.id;
  }

  lemma BeginStores(s: System, e: Event, s': System)
    requires GitAgrees(s) && Step(s, e, s') && e.Begin?
    ensures StoreMove(s, e, s', e.id, Building)
  {
  }

  /** A verdict's transition is always legal: the change is still Building. */
  lemma FinishStores(s: System, e: Event, s': System)
    requires GitAgrees(s) && Window(s) && Step(s, e, s') && e.Finish?
    ensures var to := if e.accepted then Ready else Failed;
            MayStore(s, e, e.run.id, to) && s'.store == if e.put then s.store[e.run.id := to] else s.store
  {
  }

  lemma MergeStores(s: System, e: Event, s': System) returns (id: string)
    requires GitAgrees(s) && FlowAgrees(s) && Step(s, e, s') && e.StoreMerged?
    ensures StoreMove(s, e, s', id, Merged)
  {
    id := s.flow.id;
  }

  lemma AbandonStores(s: System, e: Event, s': System) returns (id: string)
    requires GitAgrees(s) && FlowAgrees(s) && Step(s, e, s') && e.StoreAbandoned?
    ensures StoreMove(s, e, s', id, Abandoned)
  {
    id := s.flow.id;
  }

  lemma ExamineStores(s: System, e: Event, s': System) returns (id: string)
    requires GitAgrees(s) && Step(s, e, s') && e.Examine?
    ensures StoreMove(s, e, s', id, Merged)
  {
    id := s.flow.todo[0];
  }

  predicate Stores(e: Event) {
    e.StoreOpened? || e.StoreEdited? || e.Begin? || e.Finish? || e.StoreMerged? || e.StoreAbandoned? || e.Examine?
  }

  lemma OthersStoreNothing(s: System, e: Event, s': System)
    requires Step(s, e, s') && !Stores(e)
    ensures s'.store == s.store
  {
  }

  lemma StoreMoves(s: System, e: Event, s': System) returns (id: string, status: Status)
    requires Inv(s) && Step(s, e, s')
    ensures StoreMove(s, e, s', id, status)
  {
    hide Step;
    id, status := "", Draft;
    match e
    case StoreOpened(_, _) => id := OpenStores(s, e, s');
    case StoreEdited(_) => id := EditStores(s, e, s');
    case Begin(i, _) => BeginStores(s, e, s'); id, status := i, Building;
    case Finish(run, accepted, _, _) => FinishStores(s, e, s'); id, status := run.id, if accepted then Ready else Failed;
    case StoreMerged(_) => id := MergeStores(s, e, s'); status := Merged;
    case StoreAbandoned(_) => id := AbandonStores(s, e, s'); status := Abandoned;
    case Examine(_, _, _) => id := ExamineStores(s, e, s'); status := Merged;
    case _ => OthersStoreNothing(s, e, s');
  }

  lemma MergedStaysPut(s: System, e: Event, s': System, id: string)
    requires Step(s, e, s') && Reads(s, id, Merged) && id in s.branches
    ensures id in s'.branches && s'.branches[id] == s.branches[id]
  {
  }

  lemma MergingMovesNothing(s: System, e: Event, s': System)
    requires Step(s, e, s') && (e.StoreMerged? || e.Examine?)
    ensures s'.main == s.main && s'.branches == s.branches && Floor(s') == |s.main|
  {
  }

  lemma GitStep(s: System, e: Event, s': System)
    requires Inv(s) && Step(s, e, s')
    ensures GitAgrees(s')
  {
    hide Step, FlowAgrees, Window;
    FloorRises(s, e, s');
    BranchesMove(s, e, s');
    var id, status := StoreMoves(s, e, s');
    forall i | Reads(s', i, Merged) ensures i in s'.branches && InMain(s'.main[..Floor(s')], i, s'.branches[i]) {
      if Reads(s, i, Merged) {
        MergedStaysPut(s, e, s', i);
        assert s'.main[..Floor(s')] == s.main[..Floor(s)] + s'.main[Floor(s)..Floor(s')];
        InMainGrows(s.main[..Floor(s)], s'.main[Floor(s)..Floor(s')], i, s.branches[i]);
      } else {
        MergingMovesNothing(s, e, s');
        assert s'.main[..Floor(s')] == s.main;
      }
    }
  }

  // Building is a state nothing but a verdict leaves or edits.

  lemma BuildingStays(s: System, e: Event, s': System, id: string)
    requires Inv(s) && Step(s, e, s') && Reads(s, id, Building) && !(e.Finish? && e.run.id == id)
    ensures Reads(s', id, Building)
  {
    hide Step, FlowAgrees, GitAgrees, Window;
    var i, status := StoreMoves(s, e, s');
  }

  lemma BuildingIsNotEdited(s: System, e: Event, s': System, id: string)
    requires Step(s, e, s') && Reads(s, id, Building) && id in s.branches
    ensures id in s'.branches && s'.branches[id] == s.branches[id]
  {
  }

  lemma RunsMove(s: System, e: Event, s': System)
    requires Step(s, e, s')
    ensures match e
            case Begin(id, put) =>
              id in s.branches && id in s.store && s.store[id] != Building &&
              (s'.runs == s.runs || (s'.runs == s.runs + multiset{Run(id, s.branches[id])} && Reads(s', id, Building)))
            case Finish(run, _, _, _) => run in s.runs && s'.runs == s.runs - multiset{run}
            case Crash => s'.runs == multiset{}
            case _ => s'.runs == s.runs
  {
  }

  lemma RunKept(s: System, e: Event, s': System, r: Run)
    requires Inv(s) && Step(s, e, s') && r in s.runs && !(e.Finish? && e.run.id == r.id)
    ensures Reads(s', r.id, Building) && r.id in s'.branches && s'.branches[r.id] == r.branch
  {
    hide Step, FlowAgrees, GitAgrees;
    BuildingStays(s, e, s', r.id);
    BuildingIsNotEdited(s, e, s', r.id);
  }

  lemma FinishedRunIsGone(s: System, run: Run)
    requires Window(s) && run in s.runs
    ensures forall r :: r in s.runs - multiset{run} ==>
            r in s.runs && r.id != run.id && (s.runs - multiset{run})[r] == 1
  {
  }

  lemma BegunRunIsAlone(s: System, e: Event, run: Run)
    requires Window(s) && e.Begin? && run.id == e.id && e.id in s.store && s.store[e.id] != Building
    ensures forall r :: r in s.runs + multiset{run} ==>
            (r == run || (r in s.runs && r.id != run.id)) && (s.runs + multiset{run})[r] == 1
  {
    NotYetRunning(s, e);
  }

  lemma WindowStep(s: System, e: Event, s': System)
    requires Inv(s) && Step(s, e, s')
    ensures Window(s')
  {
    hide Step, FlowAgrees, GitAgrees, Reads;
    RunsMove(s, e, s');
    forall r | r in s'.runs && r in s.runs && !(e.Finish? && e.run.id == r.id)
      ensures Reads(s', r.id, Building) && r.id in s'.branches && s'.branches[r.id] == r.branch
    {
      RunKept(s, e, s', r);
    }
    if e.Begin? && s'.runs != s.runs {
      BeginKeepsBranches(s, e, s');
      BegunRunIsAlone(s, e, Run(e.id, s.branches[e.id]));
    } else if e.Finish? {
      FinishedRunIsGone(s, e.run);
    }
  }

  lemma NotYetRunning(s: System, e: Event)
    requires Window(s) && e.Begin? && e.id in s.store && s.store[e.id] != Building
    ensures forall r :: r in s.runs ==> r.id != e.id
  {
  }

  lemma BeginKeepsBranches(s: System, e: Event, s': System)
    requires Step(s, e, s') && e.Begin?
    ensures s'.branches == s.branches
  {
  }

  // ---- What the flow's holder knows -----------------------------------

  lemma LandingFlow(s: System, e: Event, s': System)
    requires GitAgrees(s) && FlowAgrees(s) && Step(s, e, s')
    requires e.Lock? || e.Land? || e.Accept? || e.StoreMerged?
    ensures FlowAgrees(s')
  {
  }

  lemma StartingFlow(s: System, e: Event, s': System)
    requires FlowAgrees(s) && Step(s, e, s')
    requires e.Cut? || e.CommitEdit? || e.Teardown? || e.Listed? || e.Begin? || e.Finish?
    ensures FlowAgrees(s')
  {
  }

  lemma EndingFlow(s: System, e: Event, s': System)
    requires Step(s, e, s')
    requires e.StoreOpened? || e.StoreEdited? || e.LandFails? || e.Refuse? || e.Cleanup? || e.StoreAbandoned? ||
             e.Reconciled? || e.Crash?
    ensures FlowAgrees(s')
  {
  }

  /** A direct write changes no containment. */
  lemma WriteFlow(s: System, e: Event, s': System)
    requires GitAgrees(s) && FlowAgrees(s) && Step(s, e, s') && e.ConfigCommit?
    ensures FlowAgrees(s')
  {
    forall id | Overdue(s', id) ensures Overdue(s, id) {
    }
  }

  lemma ReconcileFlow(s: System, e: Event, s': System)
    requires FlowAgrees(s) && Step(s, e, s') && (e.Examine? || e.Sweep?)
    ensures FlowAgrees(s')
  {
    forall id | Overdue(s', id) ensures Overdue(s, id) {
    }
    if e.Examine? {
      var id, rest := s.flow.todo[0], s.flow.todo[1..];
      assert s.flow.todo == [id] + rest;
      forall i | i !in rest ensures i == id || i !in s.flow.todo {
      }
    }
  }

  lemma FlowStep(s: System, e: Event, s': System)
    requires Inv(s) && Step(s, e, s')
    ensures FlowAgrees(s')
  {
    hide Step, FlowAgrees, GitAgrees, Window;
    match e
    case Cut(_) | CommitEdit(_, _) | Teardown(_, _) | Listed(_) | Begin(_, _) | Finish(_, _, _, _) =>
      StartingFlow(s, e, s');
    case Lock(_) | Land | Accept | StoreMerged(_) => LandingFlow(s, e, s');
    case ConfigCommit(_) => WriteFlow(s, e, s');
    case Examine(_, _, _) | Sweep(_) => ReconcileFlow(s, e, s');
    case _ => EndingFlow(s, e, s');
  }

  lemma StepKeepsInv(s: System, e: Event, s': System)
    requires Inv(s) && Step(s, e, s')
    ensures Inv(s')
  {
    GitStep(s, e, s');
    WindowStep(s, e, s');
    FlowStep(s, e, s');
    hide Step, FlowAgrees, GitAgrees, Window;
  }

  // ---- Whole runs, crashes included -----------------------------------

  ghost predicate Trace(ss: seq<System>, es: seq<Event>) {
    && |ss| == |es| + 1
    && forall i :: 0 <= i < |es| ==> Step(ss[i], es[i], ss[i + 1])
  }

  /** No changes yet, over any history of main. */
  ghost predicate Fresh(s: System) {
    s.store == map[] && s.branches == map[] && s.flow == Idle && s.runs == multiset{} && Unmerged(s.main)
  }

  ghost predicate Unmerged(main: seq<Commit>) {
    forall c :: c in main ==> c.Config?
  }

  lemma {:induction false} TraceKeepsInv(ss: seq<System>, es: seq<Event>, n: nat)
    requires Trace(ss, es) && Fresh(ss[0]) && n < |ss|
    ensures Inv(ss[n])
  {
    hide Step;
    if n > 0 {
      TraceKeepsInv(ss, es, n - 1);
      assert Step(ss[n - 1], es[n - 1], ss[n]);
      StepKeepsInv(ss[n - 1], es[n - 1], ss[n]);
    }
  }

  /** Git and the store agree in every reachable state: a change recorded merged
      is in main, and stays recorded and in main for good. */
  lemma {:induction false} MergedIsInMain(ss: seq<System>, es: seq<Event>, id: string, i: nat, n: nat)
    requires Trace(ss, es) && Fresh(ss[0]) && i <= n < |ss| && Reads(ss[i], id, Merged)
    ensures Reads(ss[n], id, Merged) && Contained(ss[n], id)
    decreases n
  {
    hide Step, FlowAgrees, Window;
    TraceKeepsInv(ss, es, n);
    if i < n {
      MergedIsInMain(ss, es, id, i, n - 1);
      TraceKeepsInv(ss, es, n - 1);
      assert Step(ss[n - 1], es[n - 1], ss[n]);
      var j, status := StoreMoves(ss[n - 1], es[n - 1], ss[n]);
    }
    BelowIsInMain(ss[n].main, Floor(ss[n]), id, ss[n].branches[id]);
  }

  function ConfigsOf(main: seq<Commit>): seq<nat> {
    if main == [] then []
    else
      var n := |main| - 1;
      ConfigsOf(main[..n]) + if main[n].Config? then [main[n].doc] else []
  }

  lemma ConfigsStep(main: seq<Commit>, main': seq<Commit>)
    requires |main'| == |main| + 1 && main'[..|main|] == main
    ensures ConfigsOf(main) <= ConfigsOf(main')
    ensures main'[|main|].Merge? ==> ConfigsOf(main') == ConfigsOf(main)
  {
  }

  lemma StepKeepsWrites(s: System, e: Event, s': System)
    requires Inv(s) && Step(s, e, s')
    ensures ConfigsOf(s.main) <= ConfigsOf(s'.main)
  {
    hide Step, Inv;
    MainMoves(s, e, s');
    if |s'.main| == |s.main| + 1 {
      ConfigsStep(s.main, s'.main);
    } else if |s.main| == |s'.main| + 1 {
      ConfigsStep(s'.main, s.main);
    }
  }

  /** A rollback discards its own merge and nothing else: no direct write that
      ever landed on main is lost, and their order is kept. */
  lemma {:induction false} NoWriteIsLost(ss: seq<System>, es: seq<Event>, i: nat, n: nat)
    requires Trace(ss, es) && Fresh(ss[0]) && i <= n < |ss|
    ensures ConfigsOf(ss[i].main) <= ConfigsOf(ss[n].main)
    decreases n
  {
    hide Step, Inv, ConfigsOf;
    if i < n {
      NoWriteIsLost(ss, es, i, n - 1);
      TraceKeepsInv(ss, es, n - 1);
      assert Step(ss[n - 1], es[n - 1], ss[n]);
      StepKeepsWrites(ss[n - 1], es[n - 1], ss[n]);
    }
  }

  /** The submit window: while a submit's gate runs, with the lock free and any
      operation on any change interleaved, the change stays Building on the branch
      the submit began with, and no second submit of it runs. */
  lemma SubmitWindow(ss: seq<System>, es: seq<Event>, n: nat, run: Run)
    requires Trace(ss, es) && Fresh(ss[0]) && n < |ss| && run in ss[n].runs
    ensures Reads(ss[n], run.id, Building)
    ensures run.id in ss[n].branches && ss[n].branches[run.id] == run.branch
    ensures forall q :: q in ss[n].runs - multiset{run} ==> q.id != run.id
  {
    TraceKeepsInv(ss, es, n);
  }

  /** ... so a verdict is never refused by the status machine. */
  lemma VerdictLands(ss: seq<System>, es: seq<Event>, n: nat)
    requires Trace(ss, es) && Fresh(ss[0]) && n < |es| && es[n].Finish? && es[n].put
    ensures Reads(ss[n + 1], es[n].run.id, if es[n].accepted then Ready else Failed)
  {
    TraceKeepsInv(ss, es, n);
    assert Step(ss[n], es[n], ss[n + 1]);
    FinishStores(ss[n], es[n], ss[n + 1]);
  }

  ghost predicate Accepted(es: seq<Event>, i: nat, run: Run) {
    i < |es| && es[i].Finish? && es[i].accepted && es[i].run == run
  }

  lemma FinishedAsBegun(s: System, e: Event, s': System)
    requires Window(s) && Step(s, e, s') && e.Finish?
    ensures e.run.id in s'.branches && e.run == Run(e.run.id, s'.branches[e.run.id])
  {
  }

  lemma BecameReady(s: System, e: Event, s': System, id: string)
    requires Inv(s) && Step(s, e, s') && Reads(s', id, Ready) && !Reads(s, id, Ready)
    ensures e.Finish? && e.accepted && id in s'.branches && e.run == Run(id, s'.branches[id])
  {
    hide Step, FlowAgrees, GitAgrees, Window;
    var j, status := StoreMoves(s, e, s');
    FinishedAsBegun(s, e, s');
  }

  lemma ReadyIsNotEdited(s: System, e: Event, s': System, id: string)
    requires Step(s, e, s') && (Reads(s, id, Ready) || Reads(s, id, Merged)) && id in s.branches
    ensures id in s'.branches && s'.branches[id] == s.branches[id]
  {
  }

  lemma BecameMerged(s: System, e: Event, s': System, id: string)
    requires Inv(s) && Step(s, e, s') && Reads(s', id, Merged)
    ensures Reads(s, id, Ready) || Reads(s, id, Merged)
  {
    hide Step, FlowAgrees, GitAgrees, Window;
    var j, status := StoreMoves(s, e, s');
  }

  /** What is ready, and what is merged, is exactly the branch a submit's gate
      accepted: not a commit more. */
  lemma {:induction false} WhatMergesWasAccepted(ss: seq<System>, es: seq<Event>, id: string, n: nat) returns (i: nat)
    requires Trace(ss, es) && Fresh(ss[0]) && n < |ss| && (Reads(ss[n], id, Ready) || Reads(ss[n], id, Merged))
    ensures i < n && id in ss[n].branches && Accepted(es, i, Run(id, ss[n].branches[id]))
  {
    hide Step, FlowAgrees;
    TraceKeepsInv(ss, es, n);
    if n > 0 {
      TraceKeepsInv(ss, es, n - 1);
      assert Step(ss[n - 1], es[n - 1], ss[n]);
      if Reads(ss[n], id, Merged) {
        BecameMerged(ss[n - 1], es[n - 1], ss[n], id);
      }
      if Reads(ss[n - 1], id, Ready) || Reads(ss[n - 1], id, Merged) {
        i := WhatMergesWasAccepted(ss, es, id, n - 1);
        ReadyIsNotEdited(ss[n - 1], es[n - 1], ss[n], id);
      } else {
        i := n - 1;
        BecameReady(ss[n - 1], es[n - 1], ss[n], id);
      }
    }
  }

  /** After a reconcile that git answered throughout, no ready change with a live
      branch is already in main. */
  lemma ReconcileSettles(ss: seq<System>, es: seq<Event>, n: nat, id: string)
    requires Trace(ss, es) && Fresh(ss[0]) && n < |es| && es[n] == Reconciled && ss[n].flow.Reconciling? &&
             ss[n].flow.clean
    ensures !Overdue(ss[n + 1], id)
  {
    TraceKeepsInv(ss, es, n);
    assert Step(ss[n], es[n], ss[n + 1]);
    assert Overdue(ss[n + 1], id) ==> Overdue(ss[n], id);
  }

  // ---- What the gate proved of main -----------------------------------

  /** A merge of the change is on main, no gate ever accepted its merged result, and
      it is not the one being validated right now. */
  ghost predicate Unproved(s: System, id: string) {
    id !in s.proved && exists k: nat :: Stray(s, id, k)
  }

  predicate Stray(s: System, id: string, k: nat) {
    k < |s.main| && s.main[k].Merge? && s.main[k].id == id && !(s.flow == Landed(id, k))
  }

  ghost predicate MergesProved(s: System) {
    forall id :: !Unproved(s, id)
  }

  /** The two steps that leave a merge behind unproved: a crash, or a rollback that
      fails, between the merge commit and its verdict. */
  predicate Untidy(s: System, e: Event) {
    s.flow.Landed? && (e == Crash || e == Refuse(false))
  }

  predicate LeavesUnproved(s: System, e: Event, id: string) {
    Untidy(s, e) && s.flow.id == id && id !in s.proved && |s.main| > s.flow.pre
  }

  predicate Proves(s: System, e: Event, id: string) {
    e.Accept? && s.flow.Landed? && s.flow.id == id
  }

  lemma LandedMerges(s: System, e: Event, s': System, id: string)
    requires FlowAgrees(s) && Step(s, e, s') && s.flow.Landed?
    ensures Unproved(s', id) <==> LeavesUnproved(s, e, id) || (Unproved(s, id) && !Proves(s, e, id))
  {
    var pre := s.flow.pre;
    assert s'.main == s.main || s'.main == s.main[..pre];
    assert s'.flow == s.flow || !s'.flow.Landed?;
    if Unproved(s', id) {
      var k: nat :| Stray(s', id, k);
      assert s.main[k] == s'.main[k];
      assert Stray(s, id, k) || s.flow == Landed(id, k);
    }
    if LeavesUnproved(s, e, id) {
      assert Stray(s', id, pre);
    } else if Unproved(s, id) && !Proves(s, e, id) {
      var k: nat :| Stray(s, id, k);
      assert k < pre || s'.main == s.main;
      assert Stray(s', id, k);
    }
  }

  lemma OtherMerges(s: System, e: Event, s': System, id: string)
    requires FlowAgrees(s) && Step(s, e, s') && !s.flow.Landed?
    ensures Unproved(s', id) <==> Unproved(s, id)
  {
    ProofsGrow(s, e, s');
    if Unproved(s', id) {
      var k: nat :| Stray(s', id, k);
      assert Stray(s, id, k);
    }
    if Unproved(s, id) {
      var k: nat :| Stray(s, id, k);
      assert s'.main[k] == s.main[k];
      assert Stray(s', id, k);
    }
  }

  lemma ProofsGrow(s: System, e: Event, s': System)
    requires FlowAgrees(s) && Step(s, e, s') && !s.flow.Landed?
    ensures s'.proved == s.proved
    ensures s'.flow.Landed? ==> e.Land? && s'.flow == Landed(s.flow.id, |s.main|)
    ensures s'.main == s.main || (e.ConfigCommit? && s'.main == s.main + [Config(e.doc)]) ||
            (e.Land? && s.flow.id in s.branches && s'.main == s.main + [Merge(s.flow.id, s.branches[s.flow.id].tip)])
  {
  }

  /** One step: a merge becomes unproved exactly in an untidy step over it, and stops
      being so exactly when merging the change again is accepted. */
  lemma UnprovedStep(s: System, e: Event, s': System, id: string)
    requires Inv(s) && Step(s, e, s')
    ensures Unproved(s', id) <==> LeavesUnproved(s, e, id) || (Unproved(s, id) && !Proves(s, e, id))
  {
    hide Step, FlowAgrees, GitAgrees, Window, Unproved;
    if s.flow.Landed? {
      LandedMerges(s, e, s', id);
    } else {
      OtherMerges(s, e, s', id);
    }
  }

  /** A step out of a state whose merges are all proved leaves them all proved unless
      it is untidy over a merge commit that is not. */
  lemma ProofsKeptIff(s: System, e: Event, s': System)
    requires Inv(s) && Step(s, e, s') && MergesProved(s)
    ensures MergesProved(s') <==> !(Untidy(s, e) && s.flow.id !in s.proved && |s.main| > s.flow.pre)
  {
    hide Step, Inv, Unproved;
    forall id ensures Unproved(s', id) <==> LeavesUnproved(s, e, id) {
      UnprovedStep(s, e, s', id);
    }
    if Untidy(s, e) && s.flow.id !in s.proved && |s.main| > s.flow.pre {
      assert LeavesUnproved(s, e, s.flow.id);
    }
  }

  /** The step left a merge of the change unproved, and nothing has proved it since. */
  ghost predicate LeftUnproved(ss: seq<System>, es: seq<Event>, id: string, i: nat, n: nat)
    requires n <= |es| && n <= |ss|
  {
    i < n && LeavesUnproved(ss[i], es[i], id) && forall j :: i < j < n ==> !Proves(ss[j], es[j], id)
  }

  /** Over whole runs: an unproved merge is on main exactly when some step left it
      there and no later merge of the change was accepted. */
  lemma {:induction false} UnprovedIff(ss: seq<System>, es: seq<Event>, id: string, n: nat)
    requires Trace(ss, es) && Fresh(ss[0]) && n < |ss|
    ensures Unproved(ss[n], id) <==> exists i: nat :: LeftUnproved(ss, es, id, i, n)
  {
    hide Step, Inv, Unproved, LeavesUnproved, Proves;
    if n == 0 {
      NothingMerged(ss[0], id);
    } else {
      var m: nat := n - 1;
      UnprovedIff(ss, es, id, m);
      TraceKeepsInv(ss, es, m);
      assert Step(ss[m], es[m], ss[n]);
      UnprovedStep(ss[m], es[m], ss[n], id);
      if i: nat :| LeftUnproved(ss, es, id, i, m) {
        assert !Proves(ss[m], es[m], id) ==> LeftUnproved(ss, es, id, i, n);
      }
      if i: nat :| LeftUnproved(ss, es, id, i, n) {
        assert i < m ==> LeftUnproved(ss, es, id, i, m);
      }
      if LeavesUnproved(ss[m], es[m], id) {
        assert LeftUnproved(ss, es, id, m, n);
      }
    }
  }

  lemma NothingMerged(s: System, id: string)
    requires Fresh(s)
    ensures !Unproved(s, id)
  {
    forall k: nat ensures !Stray(s, id, k) {
      if k < |s.main| {
        assert s.main[k] in s.main;
      }
    }
  }

  lemma TidyRunsProveEveryMerge(ss: seq<System>, es: seq<Event>, n: nat)
    requires Trace(ss, es) && Fresh(ss[0]) && n < |ss|
    requires forall i :: 0 <= i < n ==> !Untidy(ss[i], es[i])
    ensures MergesProved(ss[n])
  {
    hide Unproved, Step;
    forall id ensures !Unproved(ss[n], id) {
      UnprovedIff(ss, es, id, n);
    }
  }

  // ---- What the gate proved of the records ----------------------------

  /** Recorded as merged, though no gate ever accepted its merged result. */
  predicate Ungated(s: System, id: string) {
    Reads(s, id, Merged) && id !in s.proved
  }

  /** The step in which a reconcile records the change. */
  predicate Corrects(s: System, e: Event, id: string) {
    e.Examine? && e.answered && e.put && s.flow.Reconciling? && s.flow.todo != [] && s.flow.todo[0] == id &&
    Overdue(s, id)
  }

  /** A branch without commits is in main from the start. */
  predicate Bare(s: System, id: string) {
    id in s.branches && s.branches[id].tip == 0 && id !in s.proved
  }

  lemma ExamineCorrects(s: System, e: Event, s': System, id: string)
    requires Step(s, e, s') && e.Examine?
    ensures s'.proved == s.proved
    ensures Reads(s', id, Merged) <==> Reads(s, id, Merged) || Corrects(s, e, id)
  {
  }

  /** A merge that was validated is proved; a change recorded merged is not accepted
      a second time. */
  lemma ElseRecordsProved(s: System, e: Event, s': System, id: string)
    requires Inv(s) && Step(s, e, s') && !e.Examine?
    ensures Ungated(s', id) <==> Ungated(s, id)
  {
    hide GitAgrees, Window;
    if Reads(s', id, Merged) != Reads(s, id, Merged) {
      RecordMoves(s, e, s', id);
    }
  }

  lemma RecordMoves(s: System, e: Event, s': System, id: string)
    requires Inv(s) && Step(s, e, s') && !e.Examine? && Reads(s', id, Merged) != Reads(s, id, Merged)
    ensures e.StoreMerged? && s.flow == Proved(id) && s'.proved == s.proved
  {
    hide FlowAgrees, GitAgrees, Window;
    hide Step;
    var i, status := StoreMoves(s, e, s');
    MergedByTheFlow(s, e, s');
  }

  lemma MergedByTheFlow(s: System, e: Event, s': System)
    requires Step(s, e, s') && e.StoreMerged?
    ensures s.flow.Proved? && s'.proved == s.proved
    ensures s'.store == s.store || s'.store == s.store[s.flow.id := Merged]
  {
  }

  lemma UngatedStep(s: System, e: Event, s': System, id: string)
    requires Inv(s) && Step(s, e, s')
    ensures Ungated(s', id) <==> Ungated(s, id) || (Corrects(s, e, id) && id !in s.proved)
  {
    hide Step, FlowAgrees, GitAgrees, Window;
    if e.Examine? {
      ExamineCorrects(s, e, s', id);
    } else {
      ElseRecordsProved(s, e, s', id);
    }
  }

  /** What a reconcile corrects without a proof is a branch without commits, or a
      merge some step left unproved. */
  lemma CorrectedForCause(s: System, e: Event, id: string)
    requires Corrects(s, e, id)
    ensures id !in s.proved <==> Bare(s, id) || Unproved(s, id)
  {
    if id !in s.proved && s.branches[id].tip > 0 {
      var k :| 0 <= k < |s.main| && s.main[k] == Merge(id, s.branches[id].tip);
      assert Stray(s, id, k);
    }
  }

  /** The reconcile at step i recorded the change, and its branch had no commits, or
      some earlier step had left its merge unproved. */
  ghost predicate RecordedUngated(ss: seq<System>, es: seq<Event>, id: string, i: nat)
    requires i < |es| && i < |ss|
  {
    Corrects(ss[i], es[i], id) && (Bare(ss[i], id) || exists j: nat :: LeftUnproved(ss, es, id, j, i))
  }

  /** A change is recorded merged without its merged result ever having been gated
      exactly when that happened. */
  lemma {:induction false} UngatedIff(ss: seq<System>, es: seq<Event>, id: string, n: nat)
    requires Trace(ss, es) && Fresh(ss[0]) && n < |ss|
    ensures Ungated(ss[n], id) <==> exists i :: 0 <= i < n && RecordedUngated(ss, es, id, i)
  {
    hide Step, Inv, Unproved, Bare, LeftUnproved, Corrects;
    if n > 0 {
      UngatedIff(ss, es, id, n - 1);
      TraceKeepsInv(ss, es, n - 1);
      assert Step(ss[n - 1], es[n - 1], ss[n]);
      UngatedStep(ss[n - 1], es[n - 1], ss[n], id);
      UnprovedIff(ss, es, id, n - 1);
      if Corrects(ss[n - 1], es[n - 1], id) {
        CorrectedForCause(ss[n - 1], es[n - 1], id);
        assert id !in ss[n - 1].proved <==> RecordedUngated(ss, es, id, n - 1);
      } else {
        assert !RecordedUngated(ss, es, id, n - 1);
      }
    }
  }

  /** A submit accepted the branch although it had no commits: git could not answer
      for its diff. */
  ghost predicate AcceptedBare(es: seq<Event>, i: nat, id: string) {
    i < |es| && es[i].Finish? && es[i].accepted && es[i].run.id == id && es[i].run.branch.tip == 0
  }

  lemma BareWasNotDiffed(s: System, e: Event, s': System)
    requires Step(s, e, s') && e.Finish? && e.accepted && e.run.branch.tip == 0
    ensures !e.diffed
  {
  }

  /** What is ready without commits passed a submit whose diff git could not give. */
  lemma BareTookALostDiff(ss: seq<System>, es: seq<Event>, id: string, n: nat) returns (i: nat)
    requires Trace(ss, es) && Fresh(ss[0]) && n < |ss| && Reads(ss[n], id, Ready)
    requires id in ss[n].branches && ss[n].branches[id].tip == 0
    ensures i < n && AcceptedBare(es, i, id) && !es[i].diffed
  {
    hide Step;
    i := WhatMergesWasAccepted(ss, es, id, n);
    assert Step(ss[i], es[i], ss[i + 1]);
    BareWasNotDiffed(ss[i], es[i], ss[i + 1]);
  }

  /** So as long as git answers for the diffs and no step is untidy, everything
      recorded merged passed the gate as merged. */
  lemma TidyRecordsAreProved(ss: seq<System>, es: seq<Event>, id: string, n: nat)
    requires Trace(ss, es) && Fresh(ss[0]) && n < |ss|
    requires forall i :: 0 <= i < n ==> !Untidy(ss[i], es[i]) && (es[i].Finish? ==> es[i].diffed)
    ensures Reads(ss[n], id, Merged) ==> id in ss[n].proved
  {
    hide Step, Untidy;
    UngatedIff(ss, es, id, n);
    if i :| 0 <= i < n && RecordedUngated(ss, es, id, i) {
      if Bare(ss[i], id) {
        var j := BareTookALostDiff(ss, es, id, i);
      }
    }
  }

  function LandedAfter(s: System, id: string): System
    requires id in s.branches
  {
    s.(main := MainAfterMerge(s, id), flow := Landed(id, |s.main|))
  }

  lemma LandsAndCrashes(s: System, id: string)
    requires s.flow == Idle && Reads(s, id, Ready) && id in s.live && id in s.branches
    ensures Step(s, Lock(id), s.(flow := Locked(id, |s.main|)))
    ensures Step(s.(flow := Locked(id, |s.main|)), Land, LandedAfter(s, id))
    ensures Step(LandedAfter(s, id), Crash, LandedAfter(s, id).(flow := Idle, runs := multiset{}))
  {
  }

  lemma ExamineMerges(s: System, id: string)
    requires s.flow == Reconciling([id], true) && Overdue(s, id)
    ensures Step(s, Examine(true, true, true), Put(s, id, Merged, true).(flow := Sweeping(id, [], true)))
  {
    assert [id][1..] == [];
  }

  /** ... and the next reconcile records it as merged. */
  lemma CrashThenReconcileMergesUngated(id: string, s: System) returns (ss: seq<System>, es: seq<Event>)
    requires s.flow == Idle && Reads(s, id, Ready) && id in s.live && id in s.branches && id !in s.proved
    requires s.store.Keys == {id}
    ensures Trace(ss, es) && ss[0] == s && Accept !in es
    ensures var last := ss[|ss| - 1]; Reads(last, id, Merged) && id !in last.proved
  {
    LandsAndCrashes(s, id);
    var crashed := LandedAfter(s, id).(flow := Idle, runs := multiset{});
    var listed := crashed.(flow := Reconciling([id], true));
    var merged := Put(listed, id, Merged, true).(flow := Sweeping(id, [], true));
    assert Step(crashed, Listed([id]), listed);
    ExamineMerges(listed, id);
    hide Step;
    ss := [s, s.(flow := Locked(id, |s.main|)), LandedAfter(s, id), crashed, listed, merged];
    es := [Lock(id), Land, Crash, Listed([id]), Examine(true, true, true)];
  }

  /** A change nobody edited, from its draft to its record. */
  function BareDraft(s: System, id: string): System {
    s.(branches := s.branches[id := Branch(|s.main|, 0)], live := s.live + {id}, store := s.store[id := Draft])
  }

  function BareCut(s: System, id: string): System {
    BareDraft(s, id).(store := s.store, flow := Opened(id))
  }

  function BareBuilding(s: System, id: string): System {
    Put(BareDraft(s, id), id, Building, true).(runs := multiset{Run(id, Branch(|s.main|, 0))})
  }

  function BareReady(s: System, id: string): System {
    Put(BareBuilding(s, id), id, Ready, true).(runs := multiset{})
  }

  function BareListed(s: System, id: string): System {
    BareReady(s, id).(flow := Reconciling([id], true))
  }

  function BareMerged(s: System, id: string): System {
    Put(BareListed(s, id), id, Merged, true).(flow := Sweeping(id, [], true))
  }

  lemma BareIsSubmitted(s: System, id: string)
    requires Fresh(s) && id !in s.live
    ensures Step(s, Cut(id), BareCut(s, id))
    ensures Step(BareCut(s, id), StoreOpened(true, false), BareDraft(s, id))
    ensures Step(BareDraft(s, id), Begin(id, true), BareBuilding(s, id))
  {
    assert multiset{} + multiset{Run(id, Branch(|s.main|, 0))} == multiset{Run(id, Branch(|s.main|, 0))};
  }

  lemma BareIsReconciled(s: System, id: string)
    requires Fresh(s) && id !in s.live
    ensures Step(BareBuilding(s, id), Finish(Run(id, Branch(|s.main|, 0)), true, true, false), BareReady(s, id))
    ensures Step(BareReady(s, id), Listed([id]), BareListed(s, id))
    ensures Step(BareListed(s, id), Examine(true, true, true), BareMerged(s, id))
  {
    var run := Run(id, Branch(|s.main|, 0));
    assert multiset{run} - multiset{run} == multiset{};
    ExamineMerges(BareListed(s, id), id);
  }

  /** The other way: submitted while git could not answer for its diff, such a change
      is in main from the start, and the next reconcile records it merged. */
  lemma BareChangeIsRecordedMerged(id: string, s: System) returns (ss: seq<System>, es: seq<Event>)
    requires Fresh(s) && id !in s.live && id !in s.proved
    ensures Trace(ss, es) && ss[0] == s && es == [
              Cut(id), StoreOpened(true, false), Begin(id, true),
              Finish(Run(id, Branch(|s.main|, 0)), true, true, false), Listed([id]), Examine(true, true, true)]
    ensures Ungated(ss[|ss| - 1], id) && ss[|ss| - 1].main == s.main
  {
    hide Fresh, Ungated, Step, Trace, BareCut, BareDraft, BareBuilding, BareReady, BareListed, BareMerged;
    BareIsSubmitted(s, id);
    BareIsReconciled(s, id);
    BareIsUngated(s, id);
    ss, es := [s], [];
    TraceStarts(s);
    TraceGoesOn(ss, es, Cut(id), BareCut(s, id));
    ss, es := ss + [BareCut(s, id)], es + [Cut(id)];
    TraceGoesOn(ss, es, StoreOpened(true, false), BareDraft(s, id));
    ss, es := ss + [BareDraft(s, id)], es + [StoreOpened(true, false)];
    TraceGoesOn(ss, es, Begin(id, true), BareBuilding(s, id));
    ss, es := ss + [BareBuilding(s, id)], es + [Begin(id, true)];
    var verdict := Finish(Run(id, Branch(|s.main|, 0)), true, true, false);
    TraceGoesOn(ss, es, verdict, BareReady(s, id));
    ss, es := ss + [BareReady(s, id)], es + [verdict];
    TraceGoesOn(ss, es, Listed([id]), BareListed(s, id));
    ss, es := ss + [BareListed(s, id)], es + [Listed([id])];
    TraceGoesOn(ss, es, Examine(true, true, true), BareMerged(s, id));
    ss, es := ss + [BareMerged(s, id)], es + [Examine(true, true, true)];
  }

  lemma BareIsUngated(s: System, id: string)
    requires id !in s.proved
    ensures Ungated(BareMerged(s, id), id) && BareMerged(s, id).main == s.main
  {
  }

  lemma TraceStarts(s: System)
    ensures Trace([s], [])
  {
  }

  lemma TraceGoesOn(ss: seq<System>, es: seq<Event>, e: Event, s': System)
    requires Trace(ss, es) && Step(ss[|ss| - 1], e, s')
    ensures Trace(ss + [s'], es + [e])
  {
    hide Step;
  }

  // ---- A submit that never reported -----------------------------------

  ghost predicate Stranded(s: System, id: string) {
    Reads(s, id, Building) && forall r :: r in s.runs ==> r.id != id
  }

  lemma StrandedStays(s: System, e: Event, s': System, id: string)
    requires Inv(s) && Step(s, e, s') && Stranded(s, id)
    ensures Stranded(s', id)
  {
    hide Step, FlowAgrees, GitAgrees, Window;
    RunsMove(s, e, s');
    BuildingStays(s, e, s', id);
  }

  /** A change whose submit died with the process stays Building in every run that
      follows: no operation, reconcile included, ever leaves that status again. */
  lemma {:induction false} StrandedForever(ss: seq<System>, es: seq<Event>, id: string, i: nat, n: nat)
    requires Trace(ss, es) && Fresh(ss[0]) && i <= n < |ss| && Stranded(ss[i], id)
    ensures Stranded(ss[n], id)
    decreases n
  {
    hide Step, Inv, Stranded;
    if i < n {
      StrandedForever(ss, es, id, i, n - 1);
      TraceKeepsInv(ss, es, n - 1);
      assert Step(ss[n - 1], es[n - 1], ss[n]);
      StrandedStays(ss[n - 1], es[n - 1], ss[n], id);
    }
  }

  /** The steps that strand a change whose submit is in flight: the process dies, or
      its verdict arrives and the store refuses it. */
  predicate Strands(s: System, e: Event, id: string) {
    (exists r :: r in s.runs && r.id == id) && (e.Crash? || (e.Finish? && e.run.id == id && !e.put))
  }

  lemma StrandsExactly(s: System, e: Event, s': System, id: string)
    requires Inv(s) && Step(s, e, s') && !Stranded(s, id)
    ensures Stranded(s', id) <==> Strands(s, e, id)
  {
    hide Step, FlowAgrees, GitAgrees, Window;
    RunsMove(s, e, s');
    if r :| r in s.runs && r.id == id {
      InFlightMoves(s, e, s', r);
    } else {
      NotInFlightMoves(s, e, s', id);
    }
  }

  lemma InFlightMoves(s: System, e: Event, s': System, r: Run)
    requires Inv(s) && Step(s, e, s') && r in s.runs
    ensures Stranded(s', r.id) <==> e.Crash? || (e.Finish? && e.run.id == r.id && !e.put)
  {
    hide Step, FlowAgrees, GitAgrees;
    RunsMove(s, e, s');
    if e.Finish? && e.run.id == r.id {
      assert e.run == r;
      FinishStores(s, e, s');
      FinishedRunIsGone(s, r);
    } else {
      RunKept(s, e, s', r);
      if !e.Crash? {
        assert r in s'.runs;
      }
    }
  }

  lemma NotInFlightMoves(s: System, e: Event, s': System, id: string)
    requires Inv(s) && Step(s, e, s') && !Stranded(s, id) && forall r :: r in s.runs ==> r.id != id
    ensures !Stranded(s', id)
  {
    hide Step, FlowAgrees, GitAgrees, Window;
    RunsMove(s, e, s');
    var i, status := StoreMoves(s, e, s');
    assert !Reads(s, id, Building);
    if Reads(s', id, Building) {
      OnlyBeginBuilds(s, e, s', id);
    }
  }

  lemma OnlyBeginBuilds(s: System, e: Event, s': System, id: string)
    requires Inv(s) && Step(s, e, s') && Reads(s', id, Building) && !Reads(s, id, Building)
    ensures e.Begin? && e.id == id && Run(id, s.branches[id]) in s'.runs
  {
    hide FlowAgrees, GitAgrees, Window;
  }

  /** A change is stranded in a reachable state exactly when one of those steps has
      happened to it. */
  lemma {:induction false} StrandedIff(ss: seq<System>, es: seq<Event>, id: string, n: nat)
    requires Trace(ss, es) && Fresh(ss[0]) && n < |ss|
    ensures Stranded(ss[n], id) <==> exists i :: 0 <= i < n && Strands(ss[i], es[i], id)
  {
    hide Step, Inv, Stranded, Strands;
    if n == 0 {
      NothingStranded(ss[0], id);
    } else {
      StrandedIff(ss, es, id, n - 1);
      TraceKeepsInv(ss, es, n - 1);
      assert Step(ss[n - 1], es[n - 1], ss[n]);
      if Stranded(ss[n - 1], id) {
        StrandedStays(ss[n - 1], es[n - 1], ss[n], id);
      } else {
        StrandsExactly(ss[n - 1], es[n - 1], ss[n], id);
      }
    }
  }

  lemma NothingStranded(s: System, id: string)
    requires Fresh(s)
    ensures !Stranded(s, id)
  {
  }
}
